/** The cap on active offramps. As for swaps, requests that overlap can push past it; and so can two
    unconditional writes that make a Failed offramp active again: the revert of a deposit that could
    not be verified, and the write of the preimage. The bound counts both. */
module OfframpCap {
  import opened Common
  import opened Sizes
  import opened OfframpTable
  import opened OfframpProtocol
  import Amounts

  /** Request handlers in flight. */
  function InFlight(s: Sys): set<nat> { set i | i in s.tasks && s.tasks[i].Request? }

  /** Request handlers that have passed the cap check and not yet stored their offramp. */
  function Admitted(s: Sys): set<nat> { set i | i in s.tasks && s.tasks[i].Request? && !s.tasks[i].r.RequestCount? }

  /** A task that may still write an active status over any other. */
  predicate Reviving(task: Task) {
    match task
    case Deposit(d) => d.DepositVerify? || d.DepositRevert?
    case Complete(c) => c.CompleteStore?
    case _ => false
  }

  function Revived(task: Task): int {
    match task
    case Deposit(d) => d.id
    case Complete(c) => if c.CompleteStore? then c.id else 0
    case _ => 0
  }

  function Revivers(s: Sys): set<nat> { set i | i in s.tasks && Reviving(s.tasks[i]) }

  /** The offramps that are active or may be made so by a reviving task. */
  function Occupied(s: Sys): set<int> { Active(s.table) + Held(s) }

  function Held(s: Sys): set<int> { set i | i in s.tasks && Reviving(s.tasks[i]) :: Revived(s.tasks[i]) }

  lemma HeldSize(s: Sys)
    ensures |Held(s)| <= |Revivers(s)|
  {
    var of := (i: nat) => if i in s.tasks then Revived(s.tasks[i]) else 0;
    forall id | id in Held(s) ensures exists i :: i in Revivers(s) && of(i) == id {
      var i :| i in s.tasks && Reviving(s.tasks[i]) && Revived(s.tasks[i]) == id;
      assert i in Revivers(s) && of(i) == id;
    }
    ImageSize(Revivers(s), of, Held(s));
  }

  // ----- one step ---------------------------------------------------------------------------

  lemma DepositOccupies(t: Table, d: DepositTask, a: Answer, id: int)
    requires DepositStep(t, d, a).Some?
    ensures var e := DepositStep(t, d, a).value;
            && (id in Active(e.table) ==> id in Active(t) || (id == d.id && Reviving(Deposit(d))))
            && (e.next.Some? && Reviving(Deposit(e.next.value)) ==>
                  e.next.value.id == d.id && (d.id in Active(t) || Reviving(Deposit(d))))
  {
    hide FoundByTx, Amounts.CbtcToMsat, Amounts.SelectAmount;
  }

  lemma CompleteOccupies(t: Table, c: CompleteTask, a: Answer, id: int)
    requires CompleteStep(t, c, a).Some?
    ensures var e := CompleteStep(t, c, a).value;
            && (id in Active(e.table) ==> id in Active(t) || (c.CompleteStore? && id == c.id))
            && (e.next.Some? && e.next.value.CompleteStore? ==> e.next.value.id in Active(t))
  {
    hide FoundByHash;
  }

  lemma FailureOccupies(t: Table, clock: int, f: FailureTask, a: Answer, id: int)
    requires FailureStep(t, clock, f, a).Some?
    ensures id in Active(FailureStep(t, clock, f, a).value.table) ==> id in Active(t)
  {
    hide FoundByHash, Expired, Resume;
  }

  lemma RequestOccupies(t: Table, clock: int, cfg: Config, r: RequestTask, a: Answer, id: int)
    requires RequestStep(t, clock, cfg, r, a).Some?
    ensures var e := RequestStep(t, clock, cfg, r, a).value;
            && (id in Active(e.table) && id !in Active(t) ==> r.RequestInsert? && r.id == id && e.next.None?)
            && (e.next.Some? ==> !e.next.value.RequestCount? && e.table == t)
            && (e.next.Some? && r.RequestCount? ==> |Active(t)| < cfg.maxActive)
  {
    hide FoundByHash, AmountOk;
  }

  lemma RecoveryOccupies(t: Table, rec: Recovery, a: Answer, id: int)
    requires RecoveryStep(t, rec, a).Some?
    ensures id in Active(RecoveryStep(t, rec, a).value.table) ==> id in Active(t)
  {
    hide ByStatus;
  }

  lemma HolderHolds(s: Sys, tid: nat)
    requires tid in s.tasks && Reviving(s.tasks[tid])
    ensures Revived(s.tasks[tid]) in Held(s)
  {
  }

  lemma HeldAfter(s: Sys, tid: nat, e: Effect<Task>, id: int)
    requires tid in s.tasks && id in Held(Apply(s, tid, e))
    ensures id in Held(s) || (e.next.Some? && Reviving(e.next.value) && Revived(e.next.value) == id)
  {
    var s' := Apply(s, tid, e);
    var i :| i in s'.tasks && Reviving(s'.tasks[i]) && Revived(s'.tasks[i]) == id;
    if i != tid { HolderHolds(s, i); }
  }

  lemma NoneHeld(s: Sys, s': Sys)
    requires forall i :: i in s'.tasks && Reviving(s'.tasks[i]) ==> i in s.tasks && s.tasks[i] == s'.tasks[i]
    ensures Held(s') <= Held(s)
  {
  }

  /** The step stores an admitted request as offramp `id`. */
  predicate Stores(s: Sys, step: Step, id: int) { Storing(s, step) && s.tasks[step.tid].r.id == id }

  predicate Storing(s: Sys, step: Step) {
    step.Advance? && step.tid in s.tasks && s.tasks[step.tid].Request? && s.tasks[step.tid].r.RequestInsert?
  }

  lemma AdvanceOccupies(s: Sys, tid: nat, a: Answer, id: int)
    requires Next(s, Advance(tid, a)).Some? && id in Occupied(Next(s, Advance(tid, a)).value)
    ensures id in Occupied(s) || Stores(s, Advance(tid, a), id)
  {
    hide RequestStep, DepositStep, CompleteStep, FailureStep, Active;
    var e := TaskStep(s.table, s.clock, s.cfg, s.tasks[tid], a).value;
    if id in Held(Apply(s, tid, e)) { HeldAfter(s, tid, e, id); }
    if Reviving(s.tasks[tid]) { HolderHolds(s, tid); }
    hide Held;
    match s.tasks[tid]
    case Request(r) => RequestOccupies(s.table, s.clock, s.cfg, r, a, id);
    case Deposit(d) => DepositOccupies(s.table, d, a, id);
    case Complete(c) => CompleteOccupies(s.table, c, a, id);
    case Failure(f) => FailureOccupies(s.table, s.clock, f, a, id);
  }

  /** Only storing an admitted request adds to the occupied offramps. */
  lemma OccupiedOnlyByInsert(s: Sys, step: Step, id: int)
    requires Next(s, step).Some? && id in Occupied(Next(s, step).value)
    ensures id in Occupied(s) || Stores(s, step, id)
  {
    match step
    case Advance(tid, a) => AdvanceOccupies(s, tid, a, id);
    case Recover(a) =>
      RecoveryOccupies(s.table, s.phase.rec, a, id);
      NoneHeld(s, Next(s, step).value);
      hide RecoveryStep;
    case _ =>
      hide TaskStep, RecoveryStep;
      NoneHeld(s, Next(s, step).value);
  }

  lemma StoredLeaves(s: Sys, step: Step, id: int)
    requires Next(s, step).Some? && Stores(s, step, id)
    ensures Admitted(Next(s, step).value) == Admitted(s) - {step.tid} && step.tid in Admitted(s)
  {
  }

  /** Only reading a count below the cap admits a request, and that leaves the rest as it was. */
  lemma AdmittedOnlyBelowCap(s: Sys, step: Step, i: nat)
    requires Next(s, step).Some? && i in Admitted(Next(s, step).value) && i !in Admitted(s)
    ensures |Active(s.table)| < s.cfg.maxActive && Next(s, step).value.table == s.table
  {
    hide RequestStep, DepositStep, CompleteStep, FailureStep, RecoveryStep, Active;
    if step.Advance? && s.tasks[step.tid].Request? {
      RequestOccupies(s.table, s.clock, s.cfg, s.tasks[step.tid].r, step.a, 0);
    }
  }

  // ----- whole runs -------------------------------------------------------------------------

  ghost predicate WithinCap(s: Sys, k: nat, d: nat) {
    |Occupied(s)| + |Admitted(s)| <= s.cfg.maxActive + k + d - 1
  }

  /** At most `k` request handlers and `d` reviving tasks at once. */
  predicate AtMost(s: Sys, k: nat, d: nat) { |InFlight(s)| <= k && |Revivers(s)| <= d }

  lemma CapKept(s: Sys, step: Step, k: nat, d: nat)
    requires WithinCap(s, k, d) && Next(s, step).Some? && AtMost(Next(s, step).value, k, d)
    ensures WithinCap(Next(s, step).value, k, d)
  {
    var s' := Next(s, step).value;
    assert s'.cfg == s.cfg by { hide TaskStep, RecoveryStep; }
    if i :| i in Admitted(s') && i !in Admitted(s) {
      AdmittedOnlyBelowCap(s, step, i);
      hide Next, WithinCap;
      AdmittedWithin(s', k, d);
    } else {
      hide WithinCap, AtMost;
      NotAdmittedWithin(s, step, k, d);
    }
  }

  /** Right after a count below the cap. */
  lemma AdmittedWithin(s: Sys, k: nat, d: nat)
    requires |Active(s.table)| < s.cfg.maxActive && AtMost(s, k, d)
    ensures WithinCap(s, k, d)
  {
    HeldSize(s);
    SubsetSize(Admitted(s), InFlight(s));
    hide Active, Held, Admitted, InFlight;
    UnionSize(Active(s.table), Held(s));
  }

  lemma NotAdmittedWithin(s: Sys, step: Step, k: nat, d: nat)
    requires WithinCap(s, k, d) && Next(s, step).Some? && Next(s, step).value.cfg == s.cfg
    requires Admitted(Next(s, step).value) <= Admitted(s)
    ensures WithinCap(Next(s, step).value, k, d)
  {
    var s' := Next(s, step).value;
    OccupiedGrows(s, step);
    if Storing(s, step) { StoredLeaves(s, step, s.tasks[step.tid].r.id); }
    hide Next, Occupied, Admitted;
    SubsetSize(Admitted(s'), Admitted(s));
    if Storing(s, step) {
      SubsetSize(Occupied(s'), Occupied(s) + {s.tasks[step.tid].r.id});
      UnionSize(Occupied(s), {s.tasks[step.tid].r.id});
    } else {
      SubsetSize(Occupied(s'), Occupied(s));
    }
  }

  lemma OccupiedGrows(s: Sys, step: Step)
    requires Next(s, step).Some?
    ensures Storing(s, step) ==> Occupied(Next(s, step).value) <= Occupied(s) + {s.tasks[step.tid].r.id}
    ensures !Storing(s, step) ==> Occupied(Next(s, step).value) <= Occupied(s)
  {
    hide Next;
    forall x | x in Occupied(Next(s, step).value) ensures x in Occupied(s) || Stores(s, step, x) {
      OccupiedOnlyByInsert(s, step, x);
    }
    hide Occupied;
    assert !Storing(s, step) ==> forall x :: !Stores(s, step, x);
    if Storing(s, step) {
      Included(Occupied(Next(s, step).value), Occupied(s) + {s.tasks[step.tid].r.id});
    } else {
      Included(Occupied(Next(s, step).value), Occupied(s));
    }
  }

  predicate NeverMore(s: Sys, steps: seq<Step>, k: nat, d: nat)
    requires Run(s, steps).Some?
  {
    AtMost(Run(s, steps).value, k, d) && (steps == [] || NeverMore(s, steps[..|steps| - 1], k, d))
  }

  lemma {:induction false} RunWithinCap(s: Sys, steps: seq<Step>, k: nat, d: nat)
    requires WithinCap(s, k, d) && Run(s, steps).Some? && NeverMore(s, steps, k, d)
    ensures WithinCap(Run(s, steps).value, k, d) && Run(s, steps).value.cfg == s.cfg
  {
    if steps != [] {
      var before, step := Run(s, steps[..|steps| - 1]).value, steps[|steps| - 1];
      RunWithinCap(s, steps[..|steps| - 1], k, d);
      assert Next(before, step).value.cfg == before.cfg by { hide TaskStep, RecoveryStep; }
      hide WithinCap, Next, AtMost;
      CapKept(before, step, k, d);
    }
  }

  /** A relay started within the cap, with at most `k` request handlers and `d` reviving tasks at
      once, never has more than `k + d - 1` active offramps beyond it, in any interleaving and across
      crashes. */
  lemma ActiveOfframpsBounded(s: Sys, steps: seq<Step>, k: nat, d: nat)
    requires s.tasks == map[] && |Active(s.table)| <= s.cfg.maxActive && k >= 1
    requires Run(s, steps).Some? && NeverMore(s, steps, k, d)
    ensures |Active(Run(s, steps).value.table)| <= s.cfg.maxActive + k + d - 1
  {
    assert Admitted(s) == {} && Held(s) == {};
    assert Occupied(s) == Active(s.table);
    RunWithinCap(s, steps, k, d);
    hide Run;
    SubsetSize(Active(Run(s, steps).value.table), Occupied(Run(s, steps).value));
  }
}
