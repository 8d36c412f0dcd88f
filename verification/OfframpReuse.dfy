/** The reuse check of process_offramp_deposit and the write it guards are separated by awaits:
    two overlapping calls can be paid against the same cBTC transaction. */
module OfframpReuse {
  import opened Common
  import opened OfframpTable
  import opened OfframpProtocol
  import opened OfframpSafety
  import opened OfframpTheorems
  import opened OfframpRuns
  import opened OfframpSolvency
  import opened OfframpExpiry
  import Amounts

  function AtClaim(s: Sys, tid: nat, id: int, tx: string): Sys
    requires id in s.table
  {
    s.(tasks := s.tasks[tid := Deposit(DepositClaim(id, tx, s.table[id]))])
  }

  /** A deposit call for a transaction no row holds passes the reuse check. */
  lemma PassesReuseCheck(s: Sys, tid: nat, id: int, tx: string)
    requires s.phase == Serving && tid !in s.tasks && 0 < id && id in s.table
    requires 0 < |tx| <= 128 && FoundByTx(s.table, tx, None)
    ensures Reaches(s, AtClaim(s, tid, id, tx))
  {
    hide FoundByTx, Reaches, Run;
    var row := s.table[id];
    ReachesSelf(s);
    ReachesStep(s, s, HttpDeposit(tid, id, tx));
    TaskReaches(s, s, tid, Deposit(DepositRead(id, tx)), Proceed,
                Effect(s.table, Some(Deposit(DepositReuse(id, tx, row))), None));
    TaskReaches(s, s, tid, Deposit(DepositReuse(id, tx, row)), Selected(None),
                Effect(s.table, Some(Deposit(DepositClaim(id, tx, row))), None));
  }

  function PaidFor(s: Sys, tid: nat, id: int, tx: string, row: Row): Sys
    requires id in s.table && AmountOk(row.bolt11, row.amountCbtc)
  {
    s.(table := s.table[id := s.table[id].(cbtcTxHash := tx, status := PayingLightning)],
       tasks := s.tasks - {tid},
       log := s.log + [DepositVerified(id, tx, row.amountCbtc)] + [EnteredPaying(id)]
              + [PaymentStarted(id, Amounts.CbtcToMsat(row.amountCbtc).value, tx)])
  }

  /** From the claim on, a deposit call that finds its row waiting can run to the payment. */
  lemma RunsToPayment(s: Sys, tid: nat, id: int, tx: string, row: Row)
    requires tid in s.tasks && s.tasks[tid] == Deposit(DepositClaim(id, tx, row))
    requires Is(s.table, id, AwaitingDeposit) && AmountOk(row.bolt11, row.amountCbtc)
    ensures Reaches(s, PaidFor(s, tid, id, tx, row))
  {
    var claimed := s.table[id := s.table[id].(status := PendingVerification)];
    var paying := s.table[id := s.table[id].(cbtcTxHash := tx, status := PayingLightning)];
    var msat := Amounts.CbtcToMsat(row.amountCbtc);
    assert Amounts.SelectAmount(row.bolt11.amountMsat, msat) == msat;
    assert claimed[id := claimed[id].(cbtcTxHash := tx, status := PayingLightning)] == paying;
    assert With(s, tid, s.tasks[tid]) == s;
    hide AmountOk, Amounts.CbtcToMsat, Amounts.SelectAmount, Reaches, Run;
    ReachesSelf(s);
    TaskReaches(s, s, tid, s.tasks[tid], Proceed, Effect(claimed, Some(Deposit(DepositVerify(id, tx, row))), None));
    var s1 := s.(table := claimed);
    TaskReaches(s, s1, tid, Deposit(DepositVerify(id, tx, row)), Received,
                Effect(claimed, Some(Deposit(DepositConfirm(id, tx, row))),
                       Some(DepositVerified(id, tx, row.amountCbtc))));
    var s2 := s1.(log := s.log + [DepositVerified(id, tx, row.amountCbtc)]);
    TaskReaches(s, s2, tid, Deposit(DepositConfirm(id, tx, row)), Proceed,
                Effect(paying, Some(Deposit(DepositPay(id, tx, row))), Some(EnteredPaying(id))));
    var s3 := s2.(table := paying, log := s2.log + [EnteredPaying(id)]);
    ReachesStep(s, With(s3, tid, Deposit(DepositPay(id, tx, row))), Advance(tid, Hit));
    assert With(s3, tid, Deposit(DepositPay(id, tx, row))).tasks - {tid} == s.tasks - {tid};
  }

  lemma PaymentsAppend(log: seq<Event>, e: Event, tx: string)
    ensures PaymentsFor(log + [e], tx) == PaymentsFor(log, tx) + if e.PaymentStarted? && e.tx == tx then 1 else 0
  {
    assert (log + [e])[..|log|] == log;
  }

  /** Any two waiting offramps can be paid against one transaction by two overlapping calls. */
  lemma OverlappingCallsReuse(s: Sys, i: nat, j: nat, a: int, b: int, tx: string)
    requires s.phase == Serving && i !in s.tasks && j !in s.tasks && i != j && 0 < a && 0 < b && a != b
    requires a in s.table && b in s.table && Is(s.table, a, AwaitingDeposit) && Is(s.table, b, AwaitingDeposit)
    requires AmountsAgree(s.table[a].bolt11, s.table[a].amountCbtc)
    requires AmountsAgree(s.table[b].bolt11, s.table[b].amountCbtc)
    requires 0 < |tx| <= 128 && FoundByTx(s.table, tx, None)
    ensures exists s' :: Reaches(s, s') && PaymentsFor(s'.log, tx) == PaymentsFor(s.log, tx) + 2
  {
    AmountOkIff(s.table[a].bolt11, s.table[a].amountCbtc);
    AmountOkIff(s.table[b].bolt11, s.table[b].amountCbtc);
    hide *;
    BothPaid(s, i, j, a, b, tx);
  }

  lemma BothPaid(s: Sys, i: nat, j: nat, a: int, b: int, tx: string)
    requires s.phase == Serving && i !in s.tasks && j !in s.tasks && i != j && 0 < a && 0 < b && a != b
    requires a in s.table && b in s.table && Is(s.table, a, AwaitingDeposit) && Is(s.table, b, AwaitingDeposit)
    requires AmountOk(s.table[a].bolt11, s.table[a].amountCbtc)
    requires AmountOk(s.table[b].bolt11, s.table[b].amountCbtc)
    requires 0 < |tx| <= 128 && FoundByTx(s.table, tx, None)
    ensures exists s' :: Reaches(s, s') && PaymentsFor(s'.log, tx) == PaymentsFor(s.log, tx) + 2
  {
    hide FoundByTx, AmountOk, Reaches, PaymentsFor, Is, AtClaim;
    BothClaim(s, i, j, a, b, tx);
    var s2 := AtClaim(AtClaim(s, i, a, tx), j, b, tx);
    BothPay(s2, i, j, a, b, tx, s.table[a], s.table[b]);
    var s' :| Reaches(s2, s') && PaymentsFor(s'.log, tx) == PaymentsFor(s2.log, tx) + 2;
    ReachesTransitive(s, s2, s');
  }

  lemma BothClaim(s: Sys, i: nat, j: nat, a: int, b: int, tx: string)
    requires s.phase == Serving && i !in s.tasks && j !in s.tasks && i != j && 0 < a && 0 < b
    requires a in s.table && b in s.table && 0 < |tx| <= 128 && FoundByTx(s.table, tx, None)
    ensures AtClaim(s, i, a, tx).table == s.table
    ensures var s' := AtClaim(AtClaim(s, i, a, tx), j, b, tx);
            && Reaches(s, s') && i in s'.tasks && j in s'.tasks && s'.table == s.table && s'.log == s.log
            && s'.tasks[i] == Deposit(DepositClaim(a, tx, s.table[a]))
            && s'.tasks[j] == Deposit(DepositClaim(b, tx, s.table[b]))
  {
    hide FoundByTx, Reaches;
    var s1 := AtClaim(s, i, a, tx);
    PassesReuseCheck(s, i, a, tx);
    PassesReuseCheck(s1, j, b, tx);
    ReachesTransitive(s, s1, AtClaim(s1, j, b, tx));
  }

  lemma BothPay(s: Sys, i: nat, j: nat, a: int, b: int, tx: string, rowA: Row, rowB: Row)
    requires i in s.tasks && j in s.tasks && i != j && a != b
    requires s.tasks[i] == Deposit(DepositClaim(a, tx, rowA)) && s.tasks[j] == Deposit(DepositClaim(b, tx, rowB))
    requires Is(s.table, a, AwaitingDeposit) && Is(s.table, b, AwaitingDeposit)
    requires AmountOk(rowA.bolt11, rowA.amountCbtc) && AmountOk(rowB.bolt11, rowB.amountCbtc)
    ensures exists s' :: Reaches(s, s') && PaymentsFor(s'.log, tx) == PaymentsFor(s.log, tx) + 2
  {
    hide AmountOk, Reaches, PaymentsFor;
    var s1 := PaidFor(s, i, a, tx, rowA);
    RunsToPayment(s, i, a, tx, rowA);
    PaidForCounts(s, i, a, tx, rowA);
    assert s1.tasks[j] == s.tasks[j] && Is(s1.table, b, AwaitingDeposit);
    var s2 := PaidFor(s1, j, b, tx, rowB);
    hide PaidFor;
    RunsToPayment(s1, j, b, tx, rowB);
    PaidForCounts(s1, j, b, tx, rowB);
    ReachesTransitive(s, s1, s2);
  }

  lemma PaidForCounts(s: Sys, tid: nat, id: int, tx: string, row: Row)
    requires id in s.table && AmountOk(row.bolt11, row.amountCbtc)
    ensures PaymentsFor(PaidFor(s, tid, id, tx, row).log, tx) == PaymentsFor(s.log, tx) + 1
  {
    var msat := Amounts.CbtcToMsat(row.amountCbtc).value;
    var verified := s.log + [DepositVerified(id, tx, row.amountCbtc)];
    hide PaymentsFor, AmountOk, Amounts.CbtcToMsat;
    PaymentsAppend(s.log, DepositVerified(id, tx, row.amountCbtc), tx);
    PaymentsAppend(verified, EnteredPaying(id), tx);
    PaymentsAppend(verified + [EnteredPaying(id)], PaymentStarted(id, msat, tx), tx);
  }

  const A := Invoice("a", None)
  const B := Invoice("b", None)

  function Up(clock: int, cfg: Config): Sys {
    Init(clock, cfg).(phase := Serving, tasks := map[0 := Failure(MonitorTick)])
  }

  function TwoAdmitted(clock: int, cfg: Config): Sys {
    With(With(Up(clock, cfg), 1, Request(RequestCheck(A, 1, "refund"))), 2, Request(RequestCheck(B, 1, "refund")))
  }

  function TwoRequested(clock: int, cfg: Config): Sys {
    Requested(Requested(TwoAdmitted(clock, cfg), 1, 1, A, 1), 2, 2, B, 1)
  }

  lemma TwoRequestsAdmitted(clock: int, cfg: Config)
    requires cfg.maxActive >= 1
    ensures Reaches(Init(clock, cfg), TwoAdmitted(clock, cfg))
  {
    var init, up := Init(clock, cfg), Up(clock, cfg);
    var one := With(up, 1, Request(RequestCheck(A, 1, "refund")));
    assert Active(up.table) == {};
    hide Reaches, Active;
    ComesUp(clock, cfg);
    RequestAdmitted(up, 1, A, 1);
    RequestAdmitted(one, 2, B, 1);
    ReachesTransitive(init, up, one);
    ReachesTransitive(init, one, TwoAdmitted(clock, cfg));
  }

  lemma TwoRequestsServed(clock: int, cfg: Config)
    requires cfg.maxActive >= 1
    ensures Reaches(Init(clock, cfg), TwoRequested(clock, cfg))
  {
    var init, s0 := Init(clock, cfg), TwoAdmitted(clock, cfg);
    var s1 := Requested(s0, 1, 1, A, 1);
    assert FoundByHash(s1.table, "b", None) by { assert s1.table[1].paymentHash == "a" && "a"[0] != "b"[0]; }
    assert FoundByHash(s0.table, "a", None);
    hide Reaches, FoundByHash;
    TwoRequestsAdmitted(clock, cfg);
    RequestStored(s0, 1, 1, A, 1);
    RequestStored(s1, 2, 2, B, 1);
    ReachesTransitive(init, s0, s1);
    ReachesTransitive(init, s1, TwoRequested(clock, cfg));
  }

  /** So without waiting, a transaction can back two payments in a run from an empty database, as
      soon as the cap admits a request at all. */
  lemma ReuseIsReachable(clock: int, cfg: Config)
    requires cfg.maxActive >= 1
    ensures exists s :: Reaches(Init(clock, cfg), s) && PaymentsFor(s.log, "tx") == 2
  {
    var s := TwoRequested(clock, cfg);
    assert PaymentsFor(s.log, "tx") == 0 by {
      PaymentsAppend([], ChainCreated(1, clock + cfg.expiry), "tx");
      PaymentsAppend([ChainCreated(1, clock + cfg.expiry)], ChainCreated(2, clock + cfg.expiry), "tx");
      assert s.log == [] + [ChainCreated(1, clock + cfg.expiry)] + [ChainCreated(2, clock + cfg.expiry)];
    }
    hide Reaches, PaymentsFor;
    TwoRequestsServed(clock, cfg);
    OverlappingCallsReuse(s, 1, 2, 1, 2, "tx");
    var s' :| Reaches(s, s') && PaymentsFor(s'.log, "tx") == PaymentsFor(s.log, "tx") + 2;
    ReachesTransitive(Init(clock, cfg), s, s');
  }

  // ----- with a cap of zero nothing is ever stored ------------------------------------------

  /** No offramp, and no request past the count. */
  predicate Barred(s: Sys) {
    && s.cfg.maxActive == 0 && s.table == map[]
    && forall i :: i in s.tasks && s.tasks[i].Request? ==> s.tasks[i].r.RequestCount?
  }

  lemma BarredKept(s: Sys, step: Step)
    requires Barred(s) && Next(s, step).Some?
    ensures Barred(Next(s, step).value)
  {
    hide RequestStep, DepositStep, CompleteStep, FailureStep, RecoveryStep;
    match step
    case Recover(a) => RecoveryNeverCancels(s.table, s.phase.rec, a);
    case Advance(tid, a) =>
      match s.tasks[tid] {
        case Request(r) => CountRefuses(s.table, s.clock, s.cfg, r, a);
        case Deposit(d) => DepositNeverCancels(s.table, d, a);
        case Complete(c) => CompleteNeverCancels(s.table, c, a);
        case Failure(f) => FailureKeepsKeys(s.table, s.clock, f, a);
      }
    case _ =>
  }

  lemma CountRefuses(t: Table, clock: int, cfg: Config, r: RequestTask, a: Answer)
    requires r.RequestCount? && cfg.maxActive == 0 && RequestStep(t, clock, cfg, r, a).Some?
    ensures RequestStep(t, clock, cfg, r, a).value.table == t && RequestStep(t, clock, cfg, r, a).value.next.None?
  {
    hide Active;
  }

  lemma {:induction false} RunBarred(s: Sys, steps: seq<Step>)
    requires Barred(s) && Run(s, steps).Some?
    ensures Barred(Run(s, steps).value)
  {
    if steps != [] {
      hide Barred, Next;
      RunBarred(s, steps[..|steps| - 1]);
      BarredKept(Run(s, steps[..|steps| - 1]).value, steps[|steps| - 1]);
    }
  }

  lemma {:induction false} NoPaymentsFor(log: seq<Event>, tx: string)
    requires forall e :: e in log ==> !e.PaymentStarted?
    ensures PaymentsFor(log, tx) == 0
  {
    if log != [] { NoPaymentsFor(log[..|log| - 1], tx); }
  }

  /** A run from an empty database can pay twice against one transaction exactly when the cap admits
      a request at all. */
  lemma ReuseReachableIff(clock: int, cfg: Config)
    ensures (exists s :: Reaches(Init(clock, cfg), s) && PaymentsFor(s.log, "tx") == 2) <==> cfg.maxActive >= 1
  {
    if cfg.maxActive >= 1 {
      ReuseIsReachable(clock, cfg);
    } else {
      forall s | Reaches(Init(clock, cfg), s) ensures PaymentsFor(s.log, "tx") == 0 {
        var steps :| Run(Init(clock, cfg), steps) == Some(s);
        InitHolds(clock, cfg);
        RunAccounts(Init(clock, cfg), steps);
        RunBarred(Init(clock, cfg), steps);
        hide Run, Reaches;
        assert forall e :: e in s.log ==> Fitting(s.table, e);
        NoPaymentsFor(s.log, "tx");
      }
    }
  }
}
