/** Recovery and the monitor: exactly when FulfillInvoice can still be built, by recovery, for a swap
    the monitor has selected for cancelling. */
module SwapRebuild {
  import opened Common
  import opened Sizes
  import opened SwapTable
  import opened SwapProtocol
  import opened SwapSafety
  import opened SwapTheorems
  import opened SwapRuns

  /** What recovery still has to pick or to submit. */
  function Todo(phase: Phase): set<string> {
    if phase.Recovering? then
      match phase.rec
      case RetryFulfilling(todo) => todo
      case SubmitFulfilling(hash, todo) => todo + {hash}
      case CompleteFulfilling(_, _, todo) => todo
      case _ => {}
    else {}
  }

  predicate Open(s: Sys, hash: string) {
    Is(s.table, hash, Pending) || Is(s.table, hash, Fulfilling) || hash in Todo(s.phase)
  }

  // ----- a settled swap stays settled -------------------------------------------------------

  /** Stored, neither Pending nor Fulfilling, not on recovery's list, and never rebuilt. */
  predicate Settled(s: Sys, hash: string) {
    hash in s.table && !Open(s, hash) && hash !in s.history.rebuilt
  }

  lemma TaskSettled(s: Sys, tid: nat, a: Answer, hash: string)
    requires Settled(s, hash) && Next(s, Advance(tid, a)).Some?
    ensures Settled(Next(s, Advance(tid, a)).value, hash)
  {
    hide Active, ExpiredPending;
  }

  lemma RecoverySettled(s: Sys, a: Answer, hash: string)
    requires Settled(s, hash) && Next(s, Recover(a)).Some?
    ensures Settled(Next(s, Recover(a)).value, hash)
  {
  }

  lemma SettledKept(s: Sys, step: Step, hash: string)
    requires Settled(s, hash) && Next(s, step).Some?
    ensures Settled(Next(s, step).value, hash)
  {
    match step
    case Advance(tid, a) => TaskSettled(s, tid, a, hash);
    case Recover(a) => RecoverySettled(s, a, hash);
    case _ => hide TaskStep, RecoveryStep;
  }

  lemma {:induction false} RunSettled(s: Sys, steps: seq<Step>, hash: string)
    requires Settled(s, hash) && Run(s, steps).Some?
    ensures Settled(Run(s, steps).value, hash)
  {
    if steps != [] {
      hide Settled, Next;
      RunSettled(s, steps[..|steps| - 1], hash);
      SettledKept(Run(s, steps[..|steps| - 1]).value, steps[|steps| - 1], hash);
    }
  }

  // ----- an open swap can be rebuilt --------------------------------------------------------

  ghost predicate CanRebuild(s: Sys, hash: string) {
    exists s' :: Reaches(s, s') && hash in s'.history.rebuilt
  }

  lemma LaterRebuild(s: Sys, m: Sys, hash: string)
    requires Reaches(s, m) && CanRebuild(m, hash)
    ensures CanRebuild(s, hash)
  {
    hide Reaches;
    var s' :| Reaches(m, s') && hash in s'.history.rebuilt;
    ReachesTransitive(s, m, s');
  }

  /** A swap on recovery's list is picked and its FulfillInvoice built. */
  lemma PickedRebuild(s: Sys, hash: string, todo: set<string>)
    requires s.phase == Recovering(RetryFulfilling(todo)) && hash in todo
    ensures CanRebuild(s, hash)
  {
    hide Reaches, Run;
    ReachesSelf(s);
    ReachesStep(s, s, Recover(Pick(hash)));
    ReachesStep(s, s.(phase := Recovering(SubmitFulfilling(hash, todo - {hash}))), Recover(TxErr));
  }

  lemma ListedRebuild(s: Sys, hash: string)
    requires hash in Todo(s.phase)
    ensures CanRebuild(s, hash)
  {
    hide Reaches, Run, CanRebuild;
    ReachesSelf(s);
    match s.phase.rec
    case RetryFulfilling(todo) => PickedRebuild(s, hash, todo);
    case SubmitFulfilling(current, todo) =>
      var s' := Next(s, Recover(TxErr)).value;
      ReachesStep(s, s, Recover(TxErr));
      if hash in s'.history.rebuilt { RebuiltNow(s, s', hash); }
      else {
        PickedRebuild(s', hash, todo);
        LaterRebuild(s, s', hash);
      }
    case CompleteFulfilling(_, _, todo) =>
      var s' := Next(s, Recover(Proceed)).value;
      ReachesStep(s, s, Recover(Proceed));
      PickedRebuild(s', hash, todo);
      LaterRebuild(s, s', hash);
  }

  lemma RebuiltNow(s: Sys, s': Sys, hash: string)
    requires Reaches(s, s') && hash in s'.history.rebuilt
    ensures CanRebuild(s, hash)
  {
  }

  /** A crash puts every Fulfilling swap on recovery's list. */
  lemma FulfillingRebuild(s: Sys, hash: string)
    requires Is(s.table, hash, Fulfilling)
    ensures CanRebuild(s, hash)
  {
    var crashed := s.(tasks := map[], phase := Recovering(ScanFulfilling));
    var listed := crashed.(phase := Recovering(RetryFulfilling(ByStatus(s.table, Fulfilling))));
    hide Reaches, Run, CanRebuild;
    ReachesSelf(s);
    ReachesStep(s, s, Crash);
    ReachesStep(s, crashed, Recover(Proceed));
    ListedRebuild(listed, hash);
    LaterRebuild(s, listed, hash);
  }

  /** A Pending swap can be claimed, whatever else is running. */
  lemma PendingRebuild(s: Sys, hash: string)
    requires Is(s.table, hash, Pending)
    ensures CanRebuild(s, hash)
  {
    var tid := FreshInt(s.tasks.Keys);
    var row := s.table[hash];
    var claimed := s.table[hash := row.(status := Fulfilling, cardanoTxHash := None)];
    var h := s.history.(claimed := s.history.claimed + {hash});
    assert tid !in s.tasks.Keys;
    hide Reaches, Run, CanRebuild;
    ReachesSelf(s);
    ReachesStep(s, s, PaymentClaimed(tid, hash));
    TaskReaches(s, s, tid, Fulfill(FulfillRead(hash)), Proceed,
                Effect(s.table, Some(Fulfill(FulfillClaim(hash, row))), s.history));
    TaskReaches(s, s, tid, Fulfill(FulfillClaim(hash, row)), Proceed,
                Effect(claimed, Some(Fulfill(FulfillClock(hash, row))), h));
    var m := With(s.(table := claimed, history := h), tid, Fulfill(FulfillClock(hash, row)));
    FulfillingRebuild(m, hash);
    LaterRebuild(s, m, hash);
  }

  /** For a swap the monitor has selected and recovery has not built FulfillInvoice for, some run from
      here still has recovery build it if and only if the swap is Pending, Fulfilling, or on
      recovery's list: the three things a look at the table and at recovery tells. No other task
      ever builds it (FulfillExcludesCancel). */
  lemma RebuildPossibleIff(s: Sys, hash: string)
    requires Reachable(s) && hash in s.history.selected && hash !in s.history.rebuilt
    ensures CanRebuild(s, hash) <==> Open(s, hash)
  {
    ReachableInv(s);
    assert RowOk(s.table, s.history, s.clock, hash);
    hide Inv;
    if Open(s, hash) {
      if Is(s.table, hash, Pending) { PendingRebuild(s, hash); }
      else if Is(s.table, hash, Fulfilling) { FulfillingRebuild(s, hash); }
      else { ListedRebuild(s, hash); }
    } else {
      forall s' | Reaches(s, s') ensures hash !in s'.history.rebuilt {
        var steps :| Run(s, steps) == Some(s');
        RunSettled(s, steps, hash);
      }
    }
  }

  // ----- the first such run -----------------------------------------------------------------

  lemma {:induction false} SelectedGrows(s: Sys, steps: seq<Step>)
    requires Run(s, steps).Some?
    ensures s.history.selected <= Run(s, steps).value.history.selected
  {
    if steps != [] {
      SelectedGrows(s, steps[..|steps| - 1]);
      SelectedStep(Run(s, steps[..|steps| - 1]).value, steps[|steps| - 1]);
    }
  }

  lemma SelectedStep(s: Sys, step: Step)
    requires Next(s, step).Some?
    ensures s.history.selected <= Next(s, step).value.history.selected
  {
    hide Active, ExpiredPending, ByStatus;
  }

  /** With a crash between winning a selected swap and noticing that it expired, recovery builds
      FulfillInvoice for a swap the monitor is cancelling. */
  lemma CrashBreaksExclusion(clock: int, cfg: Config)
    requires cfg.maxActive > 0
    ensures exists s :: Reaches(Init(clock, cfg), s) && "h" in s.history.rebuilt && "h" in s.history.selected
  {
    var init := Init(clock, cfg);
    var row := SwapRow(clock, cfg);
    RequestServed(clock, cfg);
    var s := Requested(clock, cfg).(clock := clock + cfg.expiry + 1);
    var h := s.history.(selected := {"h"});
    assert ExpiredPending(s.table, s.clock) == map["h" := row];
    hide Reaches, Run, ExpiredPending;
    ReachesStep(init, Requested(clock, cfg), Tick(cfg.expiry + 1));
    assert With(s, 0, Monitor(MonitorTick)) == s && s.history.selected + map["h" := row].Keys == {"h"};
    TaskReaches(init, s, 0, Monitor(MonitorTick), Proceed,
                Effect(s.table, Some(Monitor(MonitorSelect(s.clock))), s.history));
    TaskReaches(init, s, 0, Monitor(MonitorSelect(s.clock)), Proceed,
                Effect(s.table, Some(Monitor(MonitorLoop(s.clock, map["h" := row]))), h));
    var s' := With(s.(history := h), 0, Monitor(MonitorLoop(s.clock, map["h" := row])));
    PendingRebuild(s', "h");
    var end :| Reaches(s', end) && "h" in end.history.rebuilt;
    assert "h" in end.history.selected by {
      var steps :| Run(s', steps) == Some(end);
      SelectedGrows(s', steps);
    }
    ReachesTransitive(init, s', end);
  }

  /** No swap, and no request past the count. */
  predicate Barred(s: Sys) {
    && s.cfg.maxActive == 0 && s.table == map[]
    && forall i :: i in s.tasks && s.tasks[i].Request? ==> s.tasks[i].r.RequestCount?
  }

  lemma BarredKept(s: Sys, step: Step)
    requires Barred(s) && Next(s, step).Some?
    ensures Barred(Next(s, step).value)
  {
    hide Active, ExpiredPending, ByStatus;
  }

  lemma {:induction false} RunBarred(s: Sys, steps: seq<Step>)
    requires Barred(s) && Run(s, steps).Some?
    ensures Barred(Run(s, steps).value)
  {
    if steps != [] {
      hide Barred, Next;
      RunBarred(s, steps[..|steps| - 1]);
      BarredKept(Run(s, steps[..|steps| - 1]).value, steps[|steps| - 1]);
    }
  }

  /** A run from an empty database has recovery build FulfillInvoice for a selected swap exactly when
      the cap admits a swap at all. */
  lemma ExclusionBreaksIff(clock: int, cfg: Config)
    ensures (exists s, hash :: Reaches(Init(clock, cfg), s) && hash in s.history.rebuilt * s.history.selected)
            <==> cfg.maxActive > 0
  {
    if cfg.maxActive > 0 {
      CrashBreaksExclusion(clock, cfg);
      var s :| Reaches(Init(clock, cfg), s) && "h" in s.history.rebuilt && "h" in s.history.selected;
      assert "h" in s.history.rebuilt * s.history.selected;
    } else {
      forall s, hash | Reaches(Init(clock, cfg), s) ensures hash !in s.history.selected {
        var steps :| Run(Init(clock, cfg), steps) == Some(s);
        RunBarred(Init(clock, cfg), steps);
        assert Reachable(s);
        ReachableInv(s);
        assert RowOk(s.table, s.history, s.clock, hash);
      }
    }
  }
}
