/** The promises of the offramp protocol, over every state some run reaches: any interleaving of
    requests, deposits, payment events and the monitor, with tasks dropped and the relay crashing
    at any step, and recovery after each crash. */
module OfframpTheorems {
  import opened Common
  import opened OfframpTable
  import opened OfframpProtocol
  import opened OfframpSafety

  ghost predicate Reaches(s: Sys, s': Sys) {
    exists steps :: Run(s, steps) == Some(s')
  }

  ghost predicate Reachable(s: Sys) {
    exists clock: int, cfg: Config :: Reaches(Init(clock, cfg), s)
  }

  lemma ReachableInv(s: Sys)
    requires Reachable(s)
    ensures Inv(s)
  {
    var clock: int, cfg: Config :| Reaches(Init(clock, cfg), s);
    var steps :| Run(Init(clock, cfg), steps) == Some(s);
    InitHolds(clock, cfg);
    RunKeeps(Init(clock, cfg), steps);
  }

  lemma ReachesInv(s: Sys, s': Sys)
    requires Inv(s) && Reaches(s, s')
    ensures Inv(s') && Persisted(s, s')
  {
    var steps :| Run(s, steps) == Some(s');
    RunKeeps(s, steps);
  }

  lemma {:induction false} CountGrows(log: seq<Event>, log': seq<Event>, k: Kind, id: int)
    requires log <= log'
    ensures Count(log, k, id) <= Count(log', k, id)
    decreases |log'|
  {
    if log != log' {
      CountGrows(log, log'[..|log'| - 1], k, id);
    }
  }

  /** The Lightning node is asked to pay at most once for an offramp, and only after the one
      compare-and-set into PayingLightning; a row that ever entered it never goes back. */
  lemma PaidAtMostOnce(s: Sys, s': Sys, id: int)
    requires Reachable(s) && Reaches(s, s')
    ensures Count(s'.log, Started, id) <= Count(s'.log, Entered, id) <= 1
    ensures Count(s.log, Entered, id) == 1 ==>
              id in s'.table && s'.table[id].status !in {AwaitingDeposit, PendingVerification}
  {
    ReachableInv(s);
    ReachesInv(s, s');
    CountGrows(s.log, s'.log, Entered, id);
    assert RowOk(V(s', id));
  }

  /** While a row awaits its deposit, no payment was ever started for it and no task is between
      claiming it and paying. */
  lemma AwaitingMeansUntouched(s: Sys, tid: nat, id: int)
    requires Reachable(s) && Is(s.table, id, AwaitingDeposit)
    ensures Count(s.log, Entered, id) == 0 && Count(s.log, Started, id) == 0
    ensures tid in s.tasks ==> !Holds(s.tasks[tid], id)
  {
    ReachableInv(s);
    assert RowOk(V(s, id));
    if tid in s.tasks { assert TaskOk(V(s, Subject(s.tasks[tid])), s.tasks[tid]); }
  }

  /** Exactly one side can take an offramp out of PayingLightning by compare-and-set, once. If
      that is recovery, no FulfillOfframp is ever built, then or later; if any is ever built,
      complete_offramp had won. */
  lemma OneWinner(s: Sys, s': Sys, id: int)
    requires Reachable(s) && Reaches(s, s')
    ensures Count(s'.log, Won, id) + Count(s'.log, Recovered, id) <= 1
    ensures Is(s'.table, id, PayingLightning) ==> Count(s'.log, Won, id) + Count(s'.log, Recovered, id) == 0
    ensures Count(s.log, Recovered, id) == 1 ==>
              && Count(s'.log, Won, id) == 0
              && Count(s'.log, Built, id) == 0
              && !Is(s'.table, id, DepositingToPool) && !Is(s'.table, id, Completed)
    ensures Count(s'.log, Built, id) > 0 ==> Count(s'.log, Won, id) == 1
  {
    ReachableInv(s);
    ReachesInv(s, s');
    CountGrows(s.log, s'.log, Recovered, id);
    assert RowOk(V(s', id));
  }

  /** Evidence chain: a pool deposit rests on a preimage, a preimage or a late status on a
      verified cBTC transaction; and none of the three is ever cleared or replaced. */
  lemma EvidenceChain(s: Sys, s': Sys, id: int)
    requires Reachable(s) && Reaches(s, s') && id in s.table
    ensures id in s'.table
    ensures s'.table[id].depositTxHash.Some? ==> s'.table[id].preimage.Some?
    ensures s'.table[id].preimage.Some? || s'.table[id].status in {PayingLightning, DepositingToPool, Completed} ==>
              && s'.table[id].cbtcTxHash != ""
              && DepositVerified(id, s'.table[id].cbtcTxHash, s'.table[id].amountCbtc) in s'.log
    ensures s.table[id].cbtcTxHash != "" ==> s'.table[id].cbtcTxHash == s.table[id].cbtcTxHash
    ensures s.table[id].preimage.Some? ==> s'.table[id].preimage == s.table[id].preimage
    ensures s.table[id].depositTxHash.Some? ==> s'.table[id].depositTxHash == s.table[id].depositTxHash
  {
    ReachableInv(s);
    ReachesInv(s, s');
    assert Persists(Lookup(s.table, id), Lookup(s'.table, id));
    assert RowOk(V(s', id));
  }

  /** DepositingToPool is only ever written by the one complete_offramp that won: by its
      compare-and-set, or by its next statement, before which nobody else owns the offramp. */
  lemma DepositingWrittenByWinner(s: Sys, step: Step, id: int)
    requires Reachable(s) && Next(s, step).Some?
    requires Is(Next(s, step).value.table, id, DepositingToPool) && !Is(s.table, id, DepositingToPool)
    ensures step.Advance? && step.tid in s.tasks && s.tasks[step.tid].Complete?
    ensures var c := s.tasks[step.tid].c;
            || (c.CompleteClaim? && c.id == id && Is(s.table, id, PayingLightning) && Count(s.log, Won, id) == 0)
            || (c.CompleteStore? && c.id == id && Count(s.log, Won, id) == 1
                && forall j :: j in s.tasks && Owns(s.tasks[j], id) ==> j == step.tid)
  {
    ReachableInv(s);
    hide Inv, Next;
    NewlyDepositing(s, step, id);
    WinnersMove(s, step.tid, step.a);
  }

  lemma NewlyDepositing(s: Sys, step: Step, id: int)
    requires Next(s, step).Some?
    requires Is(Next(s, step).value.table, id, DepositingToPool) && !Is(s.table, id, DepositingToPool)
    ensures step.Advance? && CanStep(s, step.tid, step.a) && Target(s.tasks[step.tid]) == id
    ensures MoveOf(s.table, s.tasks[step.tid], step.a).Completing? || MoveOf(s.table, s.tasks[step.tid], step.a).Stored?
  {
    hide TaskStep, Target, RecoveryStep, Count, Deposits, Moved;
    match step
    case Advance(tid, a) =>
      StepIsMove(s, tid, a, id);
      if id == Target(s.tasks[tid]) { MovedToDepositing(V(s, id), MoveOf(s.table, s.tasks[tid], a)); }
    case Recover(a) =>
      RecoveryIsMove(s, a, id);
      if id == RecoveryTarget(s.phase.rec, a) { MovedToDepositing(V(s, id), RecoveryMove(s.table, s.phase.rec, a)); }
    case _ =>
  }

  lemma MovedToDepositing(v: View, m: Move)
    requires m.Inserted? ==> m.row.status == AwaitingDeposit
    ensures var r := Moved(v, m).row;
            r.Some? && r.value.status == DepositingToPool ==>
              m.Completing? || m.Stored? || (v.row.Some? && v.row.value.status == DepositingToPool)
  {
  }

  lemma WinnersMove(s: Sys, tid: nat, a: Answer)
    requires Inv(s) && CanStep(s, tid, a)
    requires MoveOf(s.table, s.tasks[tid], a).Completing? || MoveOf(s.table, s.tasks[tid], a).Stored?
    ensures s.tasks[tid].Complete?
    ensures var c := s.tasks[tid].c;
            || (c.CompleteClaim? && Is(s.table, c.id, PayingLightning) && Count(s.log, Won, c.id) == 0)
            || (c.CompleteStore? && Count(s.log, Won, c.id) == 1
                && forall j :: j in s.tasks && Owns(s.tasks[j], c.id) ==> j == tid)
  {
    hide TaskStep;
    var c := s.tasks[tid].c;
    assert RowOk(V(s, c.id));
    assert TaskOk(V(s, Subject(s.tasks[tid])), s.tasks[tid]);
    if c.CompleteStore? {
      forall j | j in s.tasks && Owns(s.tasks[j], c.id) ensures j == tid {
        assert Clash(s.tasks[j], s.tasks[tid]);
      }
    }
  }
}
