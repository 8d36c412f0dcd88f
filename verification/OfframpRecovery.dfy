/** recover_depositing_offramps: the loops themselves, and runs of recovery that are killed and
    started again. */
module OfframpRecovery {
  import opened Common
  import opened Sizes
  import opened OfframpTable
  import opened OfframpProtocol
  import opened SwapDb

  // ----- an uninterrupted recovery ----------------------------------------------------------

  /** How the retry of one FulfillOfframp ends; NotFound also stands for failed lookups. */
  datatype Retry = NotFound | BuildFailed | SubmitFailed | Submitted

  function RecoveredRow(row: Row, retry: Retry): Row {
    match row.status
    case PendingVerification => row.(status := AwaitingDeposit)
    case PayingLightning => row.(status := Failed, errorMessage := Some(CRASHED))
    case DepositingToPool => if retry == NotFound || retry == Submitted then row.(status := Completed) else row
    case _ => row
  }

  function RecoveredTable(t: Table, retry: int -> Retry): Table {
    map id | id in t :: RecoveredRow(t[id], retry(id))
  }

  /** `t` with the rows in `done` recovered. */
  ghost function PartlyRecovered(t: Table, done: set<int>, retry: int -> Retry): Table {
    map id | id in t :: if id in done then RecoveredRow(t[id], retry(id)) else t[id]
  }

  // What the statements for one row make of a partly recovered table.

  lemma ResetOne(t: Table, done: set<int>, retry: int -> Retry, id: int)
    requires Is(t, id, PendingVerification) && id !in done
    ensures Transition(PartlyRecovered(t, done, retry), id, PendingVerification, AwaitingDeposit)
            == PartlyRecovered(t, done + {id}, retry)
  {
  }

  lemma FailOne(t: Table, done: set<int>, retry: int -> Retry, id: int)
    requires Is(t, id, PayingLightning) && id !in done
    ensures var p := PartlyRecovered(t, done, retry);
            && Is(p, id, PayingLightning)
            && Update(Transition(p, id, PayingLightning, Failed), id, Failed, None, None, Some(CRASHED))
               == PartlyRecovered(t, done + {id}, retry)
  {
  }

  predicate Completes(retry: Retry) { retry == NotFound || retry == Submitted }

  lemma RetryOne(t: Table, done: set<int>, retry: int -> Retry, id: int)
    requires Is(t, id, DepositingToPool) && id !in done
    ensures var p := PartlyRecovered(t, done, retry);
            (if Completes(retry(id)) then Update(p, id, Completed, None, None, None) else p)
            == PartlyRecovered(t, done + {id}, retry)
  {
  }

  lemma SelectionKept(t: Table, done: set<int>, retry: int -> Retry, s: Status)
    requires s in {PayingLightning, DepositingToPool}
    requires forall id :: id in done ==>
               id in t && t[id].status in {PendingVerification, PayingLightning} && t[id].status != s
    ensures ByStatus(PartlyRecovered(t, done, retry), s) == ByStatus(t, s)
  {
    var p := PartlyRecovered(t, done, retry);
    forall id ensures id in ByStatus(p, s) <==> id in ByStatus(t, s) {
    }
  }

  lemma NoneRecovered(t: Table, retry: int -> Retry)
    ensures PartlyRecovered(t, {}, retry) == t
  {
  }

  lemma AllRecovered(t: Table, retry: int -> Retry)
    ensures PartlyRecovered(t, Verifying(t) + Paying(t) + Depositing(t), retry) == RecoveredTable(t, retry)
  {
    var all := Verifying(t) + Paying(t) + Depositing(t);
    forall id | id in t ensures PartlyRecovered(t, all, retry)[id] == RecoveredTable(t, retry)[id] {
    }
  }

  function Verifying(t: Table): set<int> { ByStatus(t, PendingVerification) }
  function Paying(t: Table): set<int> { ByStatus(t, PayingLightning) }
  function Depositing(t: Table): set<int> { ByStatus(t, DepositingToPool) }

  /** The first `i` of the selected ids, after those of earlier loops. */
  ghost function Done(first: set<int>, ids: seq<int>, i: nat): set<int>
    requires i <= |ids|
  {
    first + set id | id in ids[..i]
  }

  lemma NextDone(first: set<int>, ids: seq<int>, i: nat, selected: set<int>)
    requires i < |ids| && Lists(ids, selected) && first !! selected
    ensures ids[i] in selected && ids[i] !in Done(first, ids, i)
    ensures Done(first, ids, i) + {ids[i]} == Done(first, ids, i + 1)
  {
    assert ids[..i + 1] == ids[..i] + [ids[i]];
    assert ids[i] in ids;
  }

  lemma AllDone(first: set<int>, ids: seq<int>, selected: set<int>)
    requires Lists(ids, selected)
    ensures Done(first, ids, 0) == first && Done(first, ids, |ids|) == first + selected
  {
    assert ids[..|ids|] == ids;
  }

  /** recover_depositing_offramps takes the database where a run of recovery alone takes the table. */
  method RecoverDepositingOfframps(db: SwapDb, retry: int -> Retry)
    modifies db`offramps
    ensures db.offramps == RecoveredTable(old(db.offramps), retry)
    ensures forall s: Sys :: s.phase == Recovering(ScanVerifying) && s.table == old(db.offramps) ==>
              RecoversTo(s, retry, db.offramps)
    ensures forall id :: Is(old(db.offramps), id, DepositingToPool) ==>
              && id in db.offramps
              && db.offramps[id].status ==
                 if retry(id).NotFound? || retry(id).Submitted? then Completed else DepositingToPool
  {
    ghost var t := db.offramps;
    ResetVerifyingOfframps(db, retry, t);
    FailPayingOfframps(db, retry, t);
    RetryDepositingOfframps(db, retry, t);
    forall s: Sys | s.phase == Recovering(ScanVerifying) && s.table == t ensures RecoversTo(s, retry, db.offramps) {
      OnePassIsRun(s, retry);
    }
  }

  method ResetVerifyingOfframps(db: SwapDb, retry: int -> Retry, ghost t: Table)
    requires db.offramps == t
    modifies db`offramps
    ensures db.offramps == PartlyRecovered(t, Verifying(t), retry)
  {
    var verifying := db.GetOfframpsByStatus(PendingVerification);
    NoneRecovered(t, retry);
    AllDone({}, verifying, Verifying(t));
    hide PartlyRecovered, Done, Lists, Transition;
    for i := 0 to |verifying|
      invariant db.offramps == PartlyRecovered(t, Done({}, verifying, i), retry)
    {
      NextDone({}, verifying, i, Verifying(t));
      ResetOne(t, Done({}, verifying, i), retry, verifying[i]);
      var _ := db.TransitionOfframpStatus(verifying[i], PendingVerification, AwaitingDeposit);
    }
    assert {} + Verifying(t) == Verifying(t);
  }

  method FailPayingOfframps(db: SwapDb, retry: int -> Retry, ghost t: Table)
    requires db.offramps == PartlyRecovered(t, Verifying(t), retry)
    modifies db`offramps
    ensures db.offramps == PartlyRecovered(t, Verifying(t) + Paying(t), retry)
  {
    var paying := db.GetOfframpsByStatus(PayingLightning);
    SelectionKept(t, Verifying(t), retry, PayingLightning);
    AllDone(Verifying(t), paying, Paying(t));
    hide PartlyRecovered, Done, Lists, Transition, Update;
    for i := 0 to |paying|
      invariant db.offramps == PartlyRecovered(t, Done(Verifying(t), paying, i), retry)
    {
      NextDone(Verifying(t), paying, i, Paying(t));
      FailOne(t, Done(Verifying(t), paying, i), retry, paying[i]);
      var moved := db.TransitionOfframpStatus(paying[i], PayingLightning, Failed);
      if moved { db.UpdateOfframpStatus(paying[i], Failed, None, None, Some(CRASHED)); }
    }
  }

  method RetryDepositingOfframps(db: SwapDb, retry: int -> Retry, ghost t: Table)
    requires db.offramps == PartlyRecovered(t, Verifying(t) + Paying(t), retry)
    modifies db`offramps
    ensures db.offramps == RecoveredTable(t, retry)
  {
    ghost var first := Verifying(t) + Paying(t);
    var stuck := db.GetOfframpsByStatus(DepositingToPool);
    SelectionKept(t, first, retry, DepositingToPool);
    AllDone(first, stuck, Depositing(t));
    AllRecovered(t, retry);
    hide PartlyRecovered, RecoveredTable, Done, Lists, Update;
    for i := 0 to |stuck|
      invariant db.offramps == PartlyRecovered(t, Done(first, stuck, i), retry)
    {
      NextDone(first, stuck, i, Depositing(t));
      RetryOne(t, Done(first, stuck, i), retry, stuck[i]);
      if Completes(retry(stuck[i])) { db.UpdateOfframpStatus(stuck[i], Completed, None, None, None); }
    }
  }

  // ----- the same as a run of the protocol --------------------------------------------------

  predicate OnlyRecovery(steps: seq<Step>) { forall i :: 0 <= i < |steps| ==> steps[i].Recover? }

  /** The answer that stands for an outcome: a failed build or submission is an error. */
  function AnswerFor(retry: Retry): Answer {
    match retry
    case NotFound => Miss
    case BuildFailed => TxErr
    case SubmitFailed => TxErr
    case Submitted => TxOk("")
  }

  /** Every step that submits a retry is answered as `retry` says. */
  ghost predicate Follows(s: Sys, steps: seq<Step>, retry: int -> Retry)
    requires Run(s, steps).Some?
  {
    steps != [] ==>
      && Follows(s, steps[..|steps| - 1], retry)
      && Answers(Run(s, steps[..|steps| - 1]).value, steps[|steps| - 1], retry)
  }

  ghost predicate Answers(m: Sys, step: Step, retry: int -> Retry) {
    m.phase.Recovering? && m.phase.rec.SubmitDepositing? && step.Recover? ==> step.a == AnswerFor(retry(m.phase.rec.id))
  }

  /** Reached by steps of recovery alone, with these answers. */
  ghost predicate Recovers(s: Sys, m: Sys, retry: int -> Retry) {
    exists steps :: Run(s, steps) == Some(m) && OnlyRecovery(steps) && Follows(s, steps, retry)
  }

  /** Recovery alone can finish with this table, with these answers. */
  ghost predicate RecoversTo(s: Sys, retry: int -> Retry, t: Table) {
    exists m :: Recovers(s, m, retry) && m.phase == Recovering(RecoveryDone) && m.table == t
  }

  lemma RecoversStep(s: Sys, m: Sys, a: Answer, retry: int -> Retry)
    requires Recovers(s, m, retry) && Next(m, Recover(a)).Some? && Answers(m, Recover(a), retry)
    ensures Recovers(s, Next(m, Recover(a)).value, retry)
  {
    var steps :| Run(s, steps) == Some(m) && OnlyRecovery(steps) && Follows(s, steps, retry);
    hide Next, Answers;
    assert (steps + [Recover(a)])[..|steps|] == steps;
    assert Run(s, steps + [Recover(a)]) == Next(m, Recover(a));
    assert Follows(s, steps + [Recover(a)], retry);
  }

  lemma LessTodo(first: set<int>, selected: set<int>, todo: set<int>, id: int)
    requires id in todo && todo <= selected
    ensures first + (selected - todo) + {id} == first + (selected - (todo - {id}))
  {
  }

  lemma LessLeft(selected: set<int>, todo: set<int>, id: int)
    requires id in todo && todo <= selected
    ensures selected - todo + {id} == selected - (todo - {id})
  {
  }

  /** A loop of recovery with nothing left to do goes on to the next scan. */
  lemma LoopEnds(m: Sys)
    requires m.phase in {Recovering(ResetVerifying({})), Recovering(FailPaying({})), Recovering(RetryDepositing({}))}
    ensures Next(m, Recover(Proceed)) ==
            Some(m.(phase := Recovering(if m.phase.rec.ResetVerifying? then ScanPaying
                                        else if m.phase.rec.FailPaying? then ScanDepositing else RecoveryDone)))
  {
  }

  lemma {:induction false} ResetRun(s: Sys, m: Sys, t: Table, todo: set<int>, retry: int -> Retry) returns (m': Sys)
    requires Recovers(s, m, retry) && m.phase == Recovering(ResetVerifying(todo)) && todo <= Verifying(t)
    requires m.table == PartlyRecovered(t, Verifying(t) - todo, retry)
    ensures Recovers(s, m', retry) && m'.phase == Recovering(ScanPaying)
    ensures m'.table == PartlyRecovered(t, Verifying(t), retry)
    decreases |todo|
  {
    hide Recovers, PartlyRecovered, RecoveredTable, Next;
    if todo == {} {
      assert Verifying(t) - {} == Verifying(t);
      LoopEnds(m);
      RecoversStep(s, m, Proceed, retry);
      m' := Next(m, Recover(Proceed)).value;
    } else {
      var id := Member(todo);
      assert Is(t, id, PendingVerification);
      hide ByStatus;
      var done := Verifying(t) - todo;
      LessLeft(Verifying(t), todo, id);
      var next := ResetStep(s, m, t, done, todo, retry, id);
      m' := ResetRun(s, next, t, todo - {id}, retry);
    }
  }

  lemma ResetStep(s: Sys, m: Sys, t: Table, done: set<int>, todo: set<int>, retry: int -> Retry, id: int)
    returns (next: Sys)
    requires Recovers(s, m, retry) && m.phase == Recovering(ResetVerifying(todo)) && id in todo
    requires Is(t, id, PendingVerification) && id !in done && m.table == PartlyRecovered(t, done, retry)
    ensures Recovers(s, next, retry) && next.phase == Recovering(ResetVerifying(todo - {id}))
    ensures next.table == PartlyRecovered(t, done + {id}, retry)
  {
    hide Recovers, PartlyRecovered, Transition;
    ResetOne(t, done, retry, id);
    RecoversStep(s, m, Pick(id), retry);
    next := Next(m, Recover(Pick(id))).value;
  }

  lemma {:induction false} FailRun(s: Sys, m: Sys, t: Table, todo: set<int>, retry: int -> Retry) returns (m': Sys)
    requires Recovers(s, m, retry) && m.phase == Recovering(FailPaying(todo)) && todo <= Paying(t)
    requires m.table == PartlyRecovered(t, Verifying(t) + (Paying(t) - todo), retry)
    ensures Recovers(s, m', retry) && m'.phase == Recovering(ScanDepositing)
    ensures m'.table == PartlyRecovered(t, Verifying(t) + Paying(t), retry)
    decreases |todo|
  {
    hide Recovers, PartlyRecovered, RecoveredTable, Next;
    if todo == {} {
      assert Paying(t) - {} == Paying(t);
      LoopEnds(m);
      RecoversStep(s, m, Proceed, retry);
      m' := Next(m, Recover(Proceed)).value;
    } else {
      var id := Member(todo);
      var done := Verifying(t) + (Paying(t) - todo);
      LessTodo(Verifying(t), Paying(t), todo, id);
      var next := FailStep(s, m, t, done, todo, retry, id);
      m' := FailRun(s, next, t, todo - {id}, retry);
    }
  }

  lemma FailStep(s: Sys, m: Sys, t: Table, done: set<int>, todo: set<int>, retry: int -> Retry, id: int)
    returns (next: Sys)
    requires Recovers(s, m, retry) && m.phase == Recovering(FailPaying(todo)) && id in todo
    requires Is(t, id, PayingLightning) && id !in done && m.table == PartlyRecovered(t, done, retry)
    ensures Recovers(s, next, retry) && next.phase == Recovering(FailPaying(todo - {id}))
    ensures next.table == PartlyRecovered(t, done + {id}, retry)
  {
    hide Recovers, PartlyRecovered, Transition, Update;
    FailOne(t, done, retry, id);
    RecoversStep(s, m, Pick(id), retry);
    var failed := Next(m, Recover(Pick(id))).value;
    RecoversStep(s, failed, Proceed, retry);
    next := Next(failed, Recover(Proceed)).value;
  }

  lemma {:induction false} RetryRun(s: Sys, m: Sys, t: Table, todo: set<int>, retry: int -> Retry) returns (m': Sys)
    requires Recovers(s, m, retry) && m.phase == Recovering(RetryDepositing(todo)) && todo <= Depositing(t)
    requires m.table == PartlyRecovered(t, Verifying(t) + Paying(t) + (Depositing(t) - todo), retry)
    ensures Recovers(s, m', retry) && m'.phase == Recovering(RecoveryDone) && m'.table == RecoveredTable(t, retry)
    decreases |todo|
  {
    hide Recovers, PartlyRecovered, RecoveredTable, Next;
    if todo == {} {
      assert Depositing(t) - {} == Depositing(t);
      AllRecovered(t, retry);
      LoopEnds(m);
      RecoversStep(s, m, Proceed, retry);
      m' := Next(m, Recover(Proceed)).value;
    } else {
      var id := Member(todo);
      var done := Verifying(t) + Paying(t) + (Depositing(t) - todo);
      LessTodo(Verifying(t) + Paying(t), Depositing(t), todo, id);
      var next := RetryStep(s, m, t, done, todo, retry, id);
      m' := RetryRun(s, next, t, todo - {id}, retry);
    }
  }

  lemma RetryStep(s: Sys, m: Sys, t: Table, done: set<int>, todo: set<int>, retry: int -> Retry, id: int)
    returns (next: Sys)
    requires Recovers(s, m, retry) && m.phase == Recovering(RetryDepositing(todo)) && id in todo
    requires Is(t, id, DepositingToPool) && id !in done && m.table == PartlyRecovered(t, done, retry)
    ensures Recovers(s, next, retry) && next.phase == Recovering(RetryDepositing(todo - {id}))
    ensures next.table == PartlyRecovered(t, done + {id}, retry)
  {
    hide Recovers, PartlyRecovered, Update;
    RetryOne(t, done, retry, id);
    RecoversStep(s, m, Pick(id), retry);
    var picked := Next(m, Recover(Pick(id))).value;
    var a := AnswerFor(retry(id));
    RecoversStep(s, picked, a, retry);
    next := Next(picked, Recover(a)).value;
    if Completes(retry(id)) {
      RecoversStep(s, next, Proceed, retry);
      next := Next(next, Recover(Proceed)).value;
    }
  }

  /** For every table and all outcomes of the retries, recovery alone can take the relay from the
      first scan to the end with the recovered table. */
  lemma OnePassIsRun(s: Sys, retry: int -> Retry)
    requires s.phase == Recovering(ScanVerifying)
    ensures RecoversTo(s, retry, RecoveredTable(s.table, retry))
  {
    var t := s.table;
    assert Run(s, []) == Some(s);
    NoneRecovered(t, retry);
    SelectionKept(t, Verifying(t), retry, PayingLightning);
    SelectionKept(t, Verifying(t) + Paying(t), retry, DepositingToPool);
    assert Verifying(t) - Verifying(t) == {} && Verifying(t) + (Paying(t) - Paying(t)) == Verifying(t);
    assert Verifying(t) + Paying(t) + (Depositing(t) - Depositing(t)) == Verifying(t) + Paying(t);
    assert Recovers(s, s, retry);
    hide Recovers, PartlyRecovered, RecoveredTable, Next;
    Scans(s);
    RecoversStep(s, s, Proceed, retry);
    var reset := ResetRun(s, Next(s, Recover(Proceed)).value, t, Verifying(t), retry);
    Scans(reset);
    RecoversStep(s, reset, Proceed, retry);
    var failed := FailRun(s, Next(reset, Recover(Proceed)).value, t, Paying(t), retry);
    Scans(failed);
    RecoversStep(s, failed, Proceed, retry);
    var done := RetryRun(s, Next(failed, Recover(Proceed)).value, t, Depositing(t), retry);
  }

  lemma Scans(m: Sys)
    requires m.phase in {Recovering(ScanVerifying), Recovering(ScanPaying), Recovering(ScanDepositing)}
    ensures Next(m, Recover(Proceed)) ==
            Some(m.(phase := Recovering(if m.phase.rec.ScanVerifying? then ResetVerifying(Verifying(m.table))
                                        else if m.phase.rec.ScanPaying? then FailPaying(Paying(m.table))
                                        else RetryDepositing(Depositing(m.table)))))
  {
  }

  // ----- what the answers decide --------------------------------------------------------------

  /** The answer each retry got, in a run. */
  function RetryAnswers(s: Sys, steps: seq<Step>): map<int, Answer>
    requires Run(s, steps).Some?
  {
    if steps == [] then map[]
    else
      var past := RetryAnswers(s, steps[..|steps| - 1]);
      var before, step := Run(s, steps[..|steps| - 1]).value, steps[|steps| - 1];
      if before.phase.Recovering? && before.phase.rec.SubmitDepositing? && step.Recover?
      then past[before.phase.rec.id := step.a] else past
  }

  /** Not retried yet, and as it was. */
  predicate Untried(t0: Table, t: Table, answers: map<int, Answer>, id: int) {
    id in t0 && id in t && id !in answers && t[id] == t0[id]
  }

  predicate Decided(t0: Table, t: Table, answers: map<int, Answer>, id: int) {
    && id in t0 && id in t && id in answers
    && t[id] == if answers[id].Miss? || answers[id].TxOk? then t0[id].(status := Completed) else t0[id]
  }

  predicate TriedUnless(pending: bool, t0: Table, t: Table, answers: map<int, Answer>, id: int) {
    if pending then Untried(t0, t, answers, id) else Decided(t0, t, answers, id)
  }

  /** Where a row that was DepositingToPool stands in a pass of recovery. */
  predicate Deciding(t0: Table, t: Table, rec: Recovery, answers: map<int, Answer>, id: int) {
    match rec
    case NotePaying(x, _) => x != id && Untried(t0, t, answers, id)
    case RetryDepositing(todo) => TriedUnless(id in todo, t0, t, answers, id)
    case SubmitDepositing(x, todo) => x !in todo && TriedUnless(id == x || id in todo, t0, t, answers, id)
    case CompleteDepositing(x, todo) =>
      && x !in todo
      && if id != x then TriedUnless(id in todo, t0, t, answers, id)
         else id in t0 && id in t && t[id] == t0[id] && id in answers && (answers[id].Miss? || answers[id].TxOk?)
    case RecoveryDone => Decided(t0, t, answers, id)
    case _ => Untried(t0, t, answers, id)
  }

  lemma DecidingStep(t0: Table, t: Table, rec: Recovery, a: Answer, answers: map<int, Answer>, id: int)
    requires Is(t0, id, DepositingToPool) && Deciding(t0, t, rec, answers, id) && RecoveryStep(t, rec, a).Some?
    ensures var e := RecoveryStep(t, rec, a).value;
            Deciding(t0, e.table, e.next, if rec.SubmitDepositing? then answers[rec.id := a] else answers, id)
  {
  }

  lemma {:induction false} RunDeciding(s: Sys, steps: seq<Step>, id: int)
    requires s.phase == Recovering(ScanVerifying) && OnlyRecovery(steps) && Run(s, steps).Some?
    requires Is(s.table, id, DepositingToPool)
    ensures var m := Run(s, steps).value;
            m.phase.Recovering? && Deciding(s.table, m.table, m.phase.rec, RetryAnswers(s, steps), id)
  {
    if steps != [] {
      var past, step := steps[..|steps| - 1], steps[|steps| - 1];
      assert step.Recover?;
      RunDeciding(s, past, id);
      var m := Run(s, past).value;
      hide Deciding, RecoveryStep;
      DecidingStep(s.table, m.table, m.phase.rec, step.a, RetryAnswers(s, past), id);
    }
  }

  /** In every run of recovery alone to its end, a DepositingToPool row was retried and is Completed if and
      only if the entry was not found or the transaction accepted; otherwise it is as it was. */
  lemma RetryDecides(s: Sys, steps: seq<Step>, id: int)
    requires s.phase == Recovering(ScanVerifying) && OnlyRecovery(steps) && Run(s, steps).Some?
    requires Run(s, steps).value.phase == Recovering(RecoveryDone) && Is(s.table, id, DepositingToPool)
    ensures id in RetryAnswers(s, steps) && id in Run(s, steps).value.table
    ensures var a, row := RetryAnswers(s, steps)[id], Run(s, steps).value.table[id];
            && (row.status == Completed <==> a.Miss? || a.TxOk?)
            && (row.status != Completed ==> row == s.table[id])
            && row == s.table[id].(status := row.status)
  {
    RunDeciding(s, steps, id);
  }

  // ----- recovery killed and started again --------------------------------------------------

  /** No handler runs: only recovery, the clock and crashes. */
  predicate Alone(steps: seq<Step>) {
    forall i :: 0 <= i < |steps| ==> steps[i].Recover? || steps[i].Crash? || steps[i].Tick?
  }

  /** What recovery may have made of a row at any point, however often it was killed. */
  predicate Between(r0: Row, r: Row) {
    match r0.status
    case PendingVerification => r == r0 || r == r0.(status := AwaitingDeposit)
    case PayingLightning => r == r0 || r == r0.(status := Failed, errorMessage := r.errorMessage)
    case DepositingToPool => r == r0 || r == r0.(status := Completed)
    case _ => r == r0
  }

  predicate AllBetween(t0: Table, t: Table) {
    t.Keys == t0.Keys && forall id :: id in t0 ==> Between(t0[id], t[id])
  }

  /** What a finished recovery has made of a table: nothing is left in PendingVerification or
      PayingLightning, a DepositingToPool row is completed or unchanged, the rest is untouched. */
  predicate Recovered(t0: Table, t: Table) {
    AllBetween(t0, t) && forall id :: id in t ==> t[id].status !in {PendingVerification, PayingLightning}
  }

  /** The rows still in a status are among `todo`. */
  ghost predicate Left(t: Table, s: Status, todo: set<int>) {
    forall id :: Is(t, id, s) ==> id in todo
  }

  /** How far one pass of recovery has come. */
  ghost predicate Progress(t0: Table, t: Table, rec: Recovery) {
    match rec
    case ScanVerifying => true
    case ResetVerifying(todo) => Left(t, PendingVerification, todo)
    case ScanPaying => Left(t, PendingVerification, {})
    case FailPaying(todo) => Left(t, PendingVerification, {}) && Left(t, PayingLightning, todo)
    case NotePaying(id, todo) =>
      && Left(t, PendingVerification, {}) && Left(t, PayingLightning, todo)
      && Is(t0, id, PayingLightning) && Is(t, id, Failed)
    case ScanDepositing => Left(t, PendingVerification, {}) && Left(t, PayingLightning, {})
    case RetryDepositing(todo) =>
      && Left(t, PendingVerification, {}) && Left(t, PayingLightning, {})
      && forall id :: id in todo ==> Is(t0, id, DepositingToPool)
    case SubmitDepositing(id, todo) =>
      Left(t, PendingVerification, {}) && Left(t, PayingLightning, {}) && Is(t0, id, DepositingToPool)
      && forall x :: x in todo ==> Is(t0, x, DepositingToPool)
    case CompleteDepositing(id, todo) =>
      Left(t, PendingVerification, {}) && Left(t, PayingLightning, {}) && Is(t0, id, DepositingToPool)
      && forall x :: x in todo ==> Is(t0, x, DepositingToPool)
    case RecoveryDone => Left(t, PendingVerification, {}) && Left(t, PayingLightning, {})
  }

  lemma RecoveryStepBetween(t0: Table, t: Table, rec: Recovery, a: Answer)
    requires AllBetween(t0, t) && Progress(t0, t, rec) && RecoveryStep(t, rec, a).Some?
    ensures AllBetween(t0, RecoveryStep(t, rec, a).value.table)
  {
    hide ByStatus, Left;
    var t' := RecoveryStep(t, rec, a).value.table;
    forall id | id in t0 ensures Between(t0[id], t'[id]) {
      assert Between(t0[id], t[id]);
    }
  }

  lemma RecoveryStepProgress(t0: Table, t: Table, rec: Recovery, a: Answer)
    requires AllBetween(t0, t) && Progress(t0, t, rec) && RecoveryStep(t, rec, a).Some?
    ensures Progress(t0, RecoveryStep(t, rec, a).value.table, RecoveryStep(t, rec, a).value.next)
  {
    forall id | id in t && t[id].status in {PayingLightning, DepositingToPool} ensures Is(t0, id, t[id].status) {
      assert Between(t0[id], t[id]);
    }
  }

  lemma {:induction false} KilledRecovery(s: Sys, steps: seq<Step>)
    requires s.phase == Recovering(ScanVerifying) && s.tasks == map[] && Alone(steps) && Run(s, steps).Some?
    ensures var s' := Run(s, steps).value;
            && s'.tasks == map[] && s'.phase.Recovering?
            && AllBetween(s.table, s'.table) && Progress(s.table, s'.table, s'.phase.rec)
  {
    if steps != [] {
      var step := steps[|steps| - 1];
      assert step.Recover? || step.Crash? || step.Tick?;
      KilledRecovery(s, steps[..|steps| - 1]);
      var m := Run(s, steps[..|steps| - 1]).value;
      hide AllBetween, Progress, RecoveryStep;
      if step.Recover? {
        RecoveryStepBetween(s.table, m.table, m.phase.rec, step.a);
        RecoveryStepProgress(s.table, m.table, m.phase.rec, step.a);
      }
      assert Progress(s.table, m.table, ScanVerifying) by { }
    }
  }

  lemma OnePassRecovers(t: Table, retry: int -> Retry)
    ensures Recovered(t, RecoveredTable(t, retry))
  {
    forall id | id in t ensures Between(t[id], RecoveredTable(t, retry)[id]) {
    }
  }

  /** Recovery with no other handler, killed at any steps and started again any number of times,
      ends with every row as one pass would leave it: the same status for each PendingVerification
      and PayingLightning row, a DepositingToPool row completed or unchanged, the rest untouched. */
  lemma RecoveryIsCrashIdempotent(s: Sys, steps: seq<Step>, retry: int -> Retry)
    requires s.phase == Recovering(ScanVerifying) && s.tasks == map[] && Alone(steps) && Run(s, steps).Some?
    requires Run(s, steps).value.phase == Recovering(RecoveryDone)
    ensures Recovered(s.table, Run(s, steps).value.table)
    ensures Recovered(s.table, RecoveredTable(s.table, retry)) && RecoversTo(s, retry, RecoveredTable(s.table, retry))
    ensures forall id :: Is(s.table, id, PendingVerification) || Is(s.table, id, PayingLightning) ==>
              id in Run(s, steps).value.table
              && Run(s, steps).value.table[id].status == RecoveredTable(s.table, retry)[id].status
  {
    hide Run, RecoversTo;
    KilledRecovery(s, steps);
    OnePassRecovers(s.table, retry);
    OnePassIsRun(s, retry);
    var t := Run(s, steps).value.table;
    forall id | id in s.table
      ensures Between(s.table[id], t[id]) && t[id].status !in {PendingVerification, PayingLightning}
    {
      assert !Is(t, id, PendingVerification) && !Is(t, id, PayingLightning);
    }
  }
}
