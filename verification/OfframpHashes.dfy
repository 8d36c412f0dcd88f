/** The payment-hash check of request_offramp and the insert it guards are separated by awaits, as the
    deposit's are. Payment hashes are unique when requests that name one invoice do not overlap, so
    the lookups of complete_offramp and handle_offramp_payment_failed have one answer; two
    overlapping requests give two rows one hash. */
module OfframpHashes {
  import opened Common
  import opened OfframpTable
  import opened OfframpProtocol
  import opened OfframpSafety
  import opened OfframpTheorems
  import opened OfframpRuns
  import opened OfframpExpiry

  predicate Names(task: Task, hash: string) { task.Request? && task.r.invoice.paymentHash == hash }

  predicate SameInvoice(a: Task, b: Task) { a.Request? && Names(b, a.r.invoice.paymentHash) }

  /** A request starts only while no other for the same invoice is running. */
  predicate Waits(s: Sys, step: Step) {
    step.HttpRequest? ==> forall j :: j in s.tasks ==> !Names(s.tasks[j], step.invoice.paymentHash)
  }

  /** Requests that name the same invoice are run one at a time. */
  predicate OneAtATime(s: Sys, steps: seq<Step>)
    requires Run(s, steps).Some?
  {
    steps == [] ||
    (OneAtATime(s, steps[..|steps| - 1]) && Waits(Run(s, steps[..|steps| - 1]).value, steps[|steps| - 1]))
  }

  /** Past the payment-hash check. */
  predicate Checked(r: RequestTask) { !r.RequestCount? && !r.RequestCheck? }

  predicate Unused(t: Table, hash: string) { forall x :: x in t ==> t[x].paymentHash != hash }

  predicate Unique(t: Table) { forall x, y :: x in t && y in t && t[x].paymentHash == t[y].paymentHash ==> x == y }

  ghost predicate Distinct(s: Sys) {
    && Unique(s.table)
    && (forall i :: i in s.tasks && s.tasks[i].Request? && Checked(s.tasks[i].r) ==>
          Unused(s.table, s.tasks[i].r.invoice.paymentHash))
    && (forall i, j :: i in s.tasks && j in s.tasks && SameInvoice(s.tasks[i], s.tasks[j]) ==> i == j)
  }

  // ----- one step ---------------------------------------------------------------------------

  lemma RequestMovesOn(t: Table, clock: int, cfg: Config, r: RequestTask, a: Answer)
    requires RequestStep(t, clock, cfg, r, a).Some?
    ensures var e := RequestStep(t, clock, cfg, r, a).value;
            && (e.next.Some? ==>
                  && e.table == t && e.next.value.invoice == r.invoice
                  && (Checked(e.next.value) ==> Checked(r) || Unused(t, r.invoice.paymentHash)))
            && (forall id :: id in e.table && id !in t ==>
                  r.RequestInsert? && r.id == id && e.table[id].paymentHash == r.invoice.paymentHash)
  {
    hide AmountOk, Active;
  }

  /** A row that appears was checked against every other. */
  lemma NewRowNamed(s: Sys, step: Step, id: int)
    requires Next(s, step).Some? && id in Next(s, step).value.table && id !in s.table
    ensures step.Advance? && step.tid in s.tasks && s.tasks[step.tid].Request? && step.tid !in Next(s, step).value.tasks
    ensures var r := s.tasks[step.tid].r;
            Checked(r) && r.id == id && Next(s, step).value.table[id].paymentHash == r.invoice.paymentHash
  {
    hide RequestStep, DepositStep, CompleteStep, FailureStep, RecoveryStep;
    match step
    case Recover(a) => RecoveryNeverCancels(s.table, s.phase.rec, a);
    case Advance(tid, a) =>
      match s.tasks[tid] {
        case Request(r) => RequestMovesOn(s.table, s.clock, s.cfg, r, a);
        case Deposit(d) => DepositNeverCancels(s.table, d, a);
        case Complete(c) => CompleteNeverCancels(s.table, c, a);
        case Failure(f) => FailureKeepsKeys(s.table, s.clock, f, a);
      }
    case _ =>
  }

  /** What a request task was one step before. */
  lemma RequestBefore(s: Sys, step: Step, i: nat)
    requires Next(s, step).Some? && i in Next(s, step).value.tasks && Next(s, step).value.tasks[i].Request?
    ensures var r := Next(s, step).value.tasks[i].r;
            if i !in s.tasks then step == HttpRequest(i, r.invoice, r.amount, r.refund) && r.RequestCount?
            else
              && s.tasks[i].Request? && s.tasks[i].r.invoice == r.invoice
              && (Checked(r) ==> Checked(s.tasks[i].r) || Unused(s.table, r.invoice.paymentHash))
  {
    hide RequestStep, DepositStep, CompleteStep, FailureStep, RecoveryStep;
    if step.Advance? && step.tid == i && s.tasks[i].Request? {
      RequestMovesOn(s.table, s.clock, s.cfg, s.tasks[i].r, step.a);
    }
  }

  lemma UniqueKept(s: Sys, step: Step, x: int, y: int)
    requires Inv(s) && Distinct(s) && Next(s, step).Some?
    requires x in Next(s, step).value.table && y in Next(s, step).value.table
    requires Next(s, step).value.table[x].paymentHash == Next(s, step).value.table[y].paymentHash
    ensures x == y
  {
    var s' := Next(s, step).value;
    NextPersists(s, step);
    hide Inv, Next;
    assert Persists(Lookup(s.table, x), Lookup(s'.table, x)) && Persists(Lookup(s.table, y), Lookup(s'.table, y));
    if x !in s.table { NewRowNamed(s, step, x); }
    if y !in s.table { NewRowNamed(s, step, y); }
  }

  lemma UnusedKept(s: Sys, step: Step, i: nat)
    requires Inv(s) && Distinct(s) && Next(s, step).Some? && i in Next(s, step).value.tasks
    requires Next(s, step).value.tasks[i].Request? && Checked(Next(s, step).value.tasks[i].r)
    ensures Unused(Next(s, step).value.table, Next(s, step).value.tasks[i].r.invoice.paymentHash)
  {
    var s' := Next(s, step).value;
    var hash := s'.tasks[i].r.invoice.paymentHash;
    RequestBefore(s, step, i);
    NextPersists(s, step);
    hide Inv, Next;
    assert Unused(s.table, hash);
    forall x | x in s'.table ensures s'.table[x].paymentHash != hash {
      assert Persists(Lookup(s.table, x), Lookup(s'.table, x));
      if x !in s.table {
        NewRowNamed(s, step, x);
        assert i != step.tid && !SameInvoice(s.tasks[i], s.tasks[step.tid]);
      }
    }
  }

  lemma DistinctKept(s: Sys, step: Step)
    requires Inv(s) && Distinct(s) && Next(s, step).Some? && Waits(s, step)
    ensures Distinct(Next(s, step).value)
  {
    var s' := Next(s, step).value;
    hide Inv, Next, Unused, Checked;
    forall x, y | x in s'.table && y in s'.table && s'.table[x].paymentHash == s'.table[y].paymentHash ensures x == y {
      UniqueKept(s, step, x, y);
    }
    forall i | i in s'.tasks && s'.tasks[i].Request? && Checked(s'.tasks[i].r)
      ensures Unused(s'.table, s'.tasks[i].r.invoice.paymentHash)
    {
      UnusedKept(s, step, i);
    }
    forall i, j | i in s'.tasks && j in s'.tasks && SameInvoice(s'.tasks[i], s'.tasks[j]) ensures i == j {
      RequestBefore(s, step, i);
      RequestBefore(s, step, j);
    }
  }

  lemma {:induction false} RunDistinct(s: Sys, steps: seq<Step>)
    requires Inv(s) && Distinct(s) && Run(s, steps).Some? && OneAtATime(s, steps)
    ensures Distinct(Run(s, steps).value)
  {
    if steps != [] {
      var before := Run(s, steps[..|steps| - 1]).value;
      hide Inv, Distinct, Next, Waits;
      RunDistinct(s, steps[..|steps| - 1]);
      RunKeeps(s, steps[..|steps| - 1]);
      DistinctKept(before, steps[|steps| - 1]);
    }
  }

  /** If requests that name the same invoice are run one at a time, no two offramps share a payment
      hash, and every lookup by payment hash has one answer. */
  lemma OneAnswer(clock: int, cfg: Config, steps: seq<Step>, hash: string, f: Option<int>, g: Option<int>)
    requires Run(Init(clock, cfg), steps).Some? && OneAtATime(Init(clock, cfg), steps)
    ensures var t := Run(Init(clock, cfg), steps).value.table;
            Unique(t) && (FoundByHash(t, hash, f) && FoundByHash(t, hash, g) ==> f == g)
  {
    InitHolds(clock, cfg);
    assert Distinct(Init(clock, cfg));
    RunDistinct(Init(clock, cfg), steps);
  }

  // ----- overlapping requests ---------------------------------------------------------------

  /** From any serving state with room under the cap, two overlapping requests for an unused invoice
      can both be stored. */
  lemma OverlappingRequestsShareHash(s: Sys, i: nat, j: nat, a: int, b: int, invoice: Invoice, amount: int)
    requires s.phase == Serving && i !in s.tasks && j !in s.tasks && i != j && |Active(s.table)| < s.cfg.maxActive
    requires a !in s.table && b !in s.table && a != b && 0 < amount <= 10_000_000_000
    requires AmountsAgree(invoice, amount) && FoundByHash(s.table, invoice.paymentHash, None)
    ensures exists s' :: Reaches(s, s') && a in s'.table && b in s'.table
                         && s'.table[a].paymentHash == s'.table[b].paymentHash == invoice.paymentHash
  {
    var check := Request(RequestCheck(invoice, amount, "refund"));
    var s1 := With(s, i, check);
    var s2 := With(s1, j, check);
    var at := s.clock + s.cfg.expiry;
    var s3 := With(s2.(log := s2.log + [ChainCreated(a, at)]), i, Request(Inserting(s2, a, invoice, amount)));
    var s4 := With(s3.(log := s3.log + [ChainCreated(b, at)]), j, Request(Inserting(s3, b, invoice, amount)));
    AmountOkIff(invoice, amount);
    hide Reaches, Run, Active, AmountOk, FoundByHash;
    RequestAdmitted(s, i, invoice, amount);
    RequestAdmitted(s1, j, invoice, amount);
    RequestInserting(s2, i, a, invoice, amount);
    RequestInserting(s3, j, b, invoice, amount);
    ReachesTransitive(s, s1, s2);
    ReachesTransitive(s, s2, s3);
    ReachesTransitive(s, s3, s4);
    StoresRow(s4, i);
    ReachesStep(s, s4, Advance(i, Proceed));
    var s5 := Next(s4, Advance(i, Proceed)).value;
    StoresRow(s5, j);
    ReachesStep(s, s5, Advance(j, Proceed));
  }

  lemma StoresRow(s: Sys, i: nat)
    requires i in s.tasks && s.tasks[i].Request? && s.tasks[i].r.RequestInsert? && s.tasks[i].r.id !in s.table
    ensures Next(s, Advance(i, Proceed)) ==
            Some(s.(table := s.table[s.tasks[i].r.id := NewRow(s.tasks[i].r)], tasks := s.tasks - {i}))
  {
  }
}
