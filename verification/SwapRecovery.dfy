/** recover_fulfilling_swaps: the loop itself, and runs of recovery that are killed and started again. */
module SwapRecovery {
  import opened Common
  import opened Sizes
  import opened SwapTable
  import opened SwapProtocol
  import opened SwapDb

  /** How the retry of one FulfillInvoice ends; NotFound also stands for failed lookups. */
  datatype Retry = NotFound | BuildFailed | SubmitFailed | Submitted(tx: string)

  function RecoveredRow(row: Row, retry: Retry): Row {
    if row.status != Fulfilling then row
    else
      match retry
      case NotFound => row.(status := Completed, cardanoTxHash := None)
      case Submitted(tx) => row.(status := Completed, cardanoTxHash := Some(tx))
      case _ => row
  }

  ghost function PartlyRecovered(t: Table, done: set<string>, retry: string -> Retry): Table {
    map h | h in t :: if h in done then RecoveredRow(t[h], retry(h)) else t[h]
  }

  function RecoveredTable(t: Table, retry: string -> Retry): Table {
    map h | h in t :: RecoveredRow(t[h], retry(h))
  }

  /** What the retry of one row makes of a partly recovered table. */
  lemma RetryOne(t: Table, done: set<string>, retry: string -> Retry, h: string)
    requires Is(t, h, Fulfilling) && h !in done
    ensures var p := PartlyRecovered(t, done, retry);
            (match retry(h)
             case NotFound => Update(p, h, Completed, None)
             case Submitted(tx) => Update(p, h, Completed, Some(tx))
             case _ => p) == PartlyRecovered(t, done + {h}, retry)
  {
  }

  lemma NoneRecovered(t: Table, retry: string -> Retry)
    ensures PartlyRecovered(t, {}, retry) == t
  {
  }

  lemma AllRecovered(t: Table, retry: string -> Retry)
    ensures PartlyRecovered(t, ByStatus(t, Fulfilling), retry) == RecoveredTable(t, retry)
  {
  }

  /** recover_fulfilling_swaps takes the database where a run of recovery alone takes the table. */
  method RecoverFulfillingSwaps(db: SwapDb, retry: string -> Retry)
    modifies db`swaps
    ensures db.swaps == RecoveredTable(old(db.swaps), retry)
    ensures forall s: Sys :: s.phase == Recovering(ScanFulfilling) && s.table == old(db.swaps) ==>
              RecoversTo(s, retry, db.swaps)
    ensures forall h :: Is(old(db.swaps), h, Fulfilling) ==>
              && h in db.swaps
              && db.swaps[h].status == if retry(h).NotFound? || retry(h).Submitted? then Completed else Fulfilling
  {
    ghost var t := db.swaps;
    RecoverLoop(db, retry, t);
    forall s: Sys | s.phase == Recovering(ScanFulfilling) && s.table == t ensures RecoversTo(s, retry, db.swaps) {
      OnePassIsRun(s, retry);
    }
  }

  method RecoverLoop(db: SwapDb, retry: string -> Retry, ghost t: Table)
    requires db.swaps == t
    modifies db`swaps
    ensures db.swaps == RecoveredTable(t, retry)
  {
    var stuck := db.GetByStatus(Fulfilling);
    assert Lists(stuck, ByStatus(t, Fulfilling));
    ghost var done: set<string> := {};
    NoneRecovered(t, retry);
    AllRecovered(t, retry);
    hide PartlyRecovered, RecoveredTable, Update;
    for i := 0 to |stuck|
      invariant done == set h | h in stuck[..i]
      invariant db.swaps == PartlyRecovered(t, done, retry)
    {
      assert stuck[i] in ByStatus(t, Fulfilling) && stuck[i] !in done;
      RetryOne(t, done, retry, stuck[i]);
      match retry(stuck[i]) {
        case NotFound => db.UpdateStatus(stuck[i], Completed, None);
        case Submitted(tx) => db.UpdateStatus(stuck[i], Completed, Some(tx));
        case _ =>
      }
      done := done + {stuck[i]};
      assert stuck[..i + 1] == stuck[..i] + [stuck[i]];
    }
    assert done == ByStatus(t, Fulfilling);
  }

  // ----- the same as a run of the protocol --------------------------------------------------

  predicate OnlyRecovery(steps: seq<Step>) { forall i :: 0 <= i < |steps| ==> steps[i].Recover? }

  /** The answer that stands for an outcome: a failed build or submission is an error. */
  function AnswerFor(retry: Retry): Answer {
    match retry
    case NotFound => Miss
    case BuildFailed => TxErr
    case SubmitFailed => TxErr
    case Submitted(tx) => TxOk(tx)
  }

  /** Every step that submits a retry is answered as `retry` says. */
  ghost predicate Follows(s: Sys, steps: seq<Step>, retry: string -> Retry)
    requires Run(s, steps).Some?
  {
    steps != [] ==>
      && Follows(s, steps[..|steps| - 1], retry)
      && Answers(Run(s, steps[..|steps| - 1]).value, steps[|steps| - 1], retry)
  }

  ghost predicate Answers(m: Sys, step: Step, retry: string -> Retry) {
    m.phase.Recovering? && m.phase.rec.SubmitFulfilling? && step.Recover? ==>
      step.a == AnswerFor(retry(m.phase.rec.hash))
  }

  /** Reached by steps of recovery alone, with these answers. */
  ghost predicate Recovers(s: Sys, m: Sys, retry: string -> Retry) {
    exists steps :: Run(s, steps) == Some(m) && OnlyRecovery(steps) && Follows(s, steps, retry)
  }

  /** Recovery alone can finish with this table, with these answers. */
  ghost predicate RecoversTo(s: Sys, retry: string -> Retry, t: Table) {
    exists m :: Recovers(s, m, retry) && m.phase == Recovering(RecoveryDone) && m.table == t
  }

  lemma RecoversStep(s: Sys, m: Sys, a: Answer, retry: string -> Retry)
    requires Recovers(s, m, retry) && Next(m, Recover(a)).Some? && Answers(m, Recover(a), retry)
    ensures Recovers(s, Next(m, Recover(a)).value, retry)
  {
    var steps :| Run(s, steps) == Some(m) && OnlyRecovery(steps) && Follows(s, steps, retry);
    hide Next, Answers;
    assert (steps + [Recover(a)])[..|steps|] == steps;
    assert Run(s, steps + [Recover(a)]) == Next(m, Recover(a));
    assert Follows(s, steps + [Recover(a)], retry);
  }

  lemma RetryStep(s: Sys, m: Sys, t: Table, done: set<string>, todo: set<string>, retry: string -> Retry, h: string)
    returns (next: Sys)
    requires Recovers(s, m, retry) && m.phase == Recovering(RetryFulfilling(todo)) && h in todo
    requires Is(t, h, Fulfilling) && h !in done && m.table == PartlyRecovered(t, done, retry)
    ensures Recovers(s, next, retry) && next.phase == Recovering(RetryFulfilling(todo - {h}))
    ensures next.table == PartlyRecovered(t, done + {h}, retry)
  {
    hide Recovers, PartlyRecovered, Update;
    RetryOne(t, done, retry, h);
    RecoversStep(s, m, Pick(h), retry);
    var picked := Next(m, Recover(Pick(h))).value;
    var a := AnswerFor(retry(h));
    RecoversStep(s, picked, a, retry);
    next := Next(picked, Recover(a)).value;
    if retry(h).NotFound? || retry(h).Submitted? {
      RecoversStep(s, next, Proceed, retry);
      next := Next(next, Recover(Proceed)).value;
    }
  }

  lemma LessTodo(all: set<string>, todo: set<string>, h: string)
    requires h in todo && todo <= all
    ensures all - todo + {h} == all - (todo - {h})
  {
  }

  lemma LoopEnds(m: Sys)
    requires m.phase == Recovering(RetryFulfilling({}))
    ensures Next(m, Recover(Proceed)) == Some(m.(phase := Recovering(RecoveryDone)))
  {
  }

  lemma {:induction false} RetryRun(s: Sys, m: Sys, t: Table, todo: set<string>, retry: string -> Retry)
    returns (m': Sys)
    requires Recovers(s, m, retry) && m.phase == Recovering(RetryFulfilling(todo)) && todo <= ByStatus(t, Fulfilling)
    requires m.table == PartlyRecovered(t, ByStatus(t, Fulfilling) - todo, retry)
    ensures Recovers(s, m', retry) && m'.phase == Recovering(RecoveryDone) && m'.table == RecoveredTable(t, retry)
    decreases |todo|
  {
    hide Recovers, PartlyRecovered, RecoveredTable, Next;
    var all := ByStatus(t, Fulfilling);
    if todo == {} {
      AllRecovered(t, retry);
      assert all - {} == all;
      LoopEnds(m);
      RecoversStep(s, m, Proceed, retry);
      m' := Next(m, Recover(Proceed)).value;
    } else {
      var h := Member(todo);
      LessTodo(all, todo, h);
      var next := RetryStep(s, m, t, all - todo, todo, retry, h);
      m' := RetryRun(s, next, t, todo - {h}, retry);
    }
  }

  /** For every table and all outcomes of the retries, recovery alone can take the relay from its
      scan to the end with the recovered table. */
  lemma OnePassIsRun(s: Sys, retry: string -> Retry)
    requires s.phase == Recovering(ScanFulfilling)
    ensures RecoversTo(s, retry, RecoveredTable(s.table, retry))
  {
    var all := ByStatus(s.table, Fulfilling);
    assert Run(s, []) == Some(s);
    assert Recovers(s, s, retry) && all - all == {};
    NoneRecovered(s.table, retry);
    hide Recovers, PartlyRecovered, RecoveredTable;
    RecoversStep(s, s, Proceed, retry);
    var done := RetryRun(s, Next(s, Recover(Proceed)).value, s.table, all, retry);
  }

  // ----- what the answers decide --------------------------------------------------------------

  /** The answer each retry got, in a run. */
  function RetryAnswers(s: Sys, steps: seq<Step>): map<string, Answer>
    requires Run(s, steps).Some?
  {
    if steps == [] then map[]
    else
      var past := RetryAnswers(s, steps[..|steps| - 1]);
      var before, step := Run(s, steps[..|steps| - 1]).value, steps[|steps| - 1];
      if before.phase.Recovering? && before.phase.rec.SubmitFulfilling? && step.Recover?
      then past[before.phase.rec.hash := step.a] else past
  }

  /** What an answer stands for: not found is completed without a hash, accepted with the hash. */
  function Answered(row: Row, a: Answer): Row {
    match a
    case Miss => row.(status := Completed, cardanoTxHash := None)
    case TxOk(tx) => row.(status := Completed, cardanoTxHash := Some(tx))
    case _ => row
  }

  predicate Untried(t0: Table, t: Table, answers: map<string, Answer>, h: string) {
    h in t0 && h in t && h !in answers && t[h] == t0[h]
  }

  predicate Decided(t0: Table, t: Table, answers: map<string, Answer>, h: string) {
    h in t0 && h in t && h in answers && t[h] == Answered(t0[h], answers[h])
  }

  predicate TriedUnless(pending: bool, t0: Table, t: Table, answers: map<string, Answer>, h: string) {
    if pending then Untried(t0, t, answers, h) else Decided(t0, t, answers, h)
  }

  /** Where a row that was Fulfilling stands in a pass of recovery. */
  predicate Deciding(t0: Table, t: Table, rec: Recovery, answers: map<string, Answer>, h: string) {
    match rec
    case ScanFulfilling => Untried(t0, t, answers, h)
    case RetryFulfilling(todo) => TriedUnless(h in todo, t0, t, answers, h)
    case SubmitFulfilling(x, todo) => x !in todo && TriedUnless(h == x || h in todo, t0, t, answers, h)
    case CompleteFulfilling(x, tx, todo) =>
      && x !in todo
      && if h != x then TriedUnless(h in todo, t0, t, answers, h)
         else h in t0 && h in t && t[h] == t0[h] && h in answers
              && answers[h] == if tx.Some? then TxOk(tx.value) else Miss
    case RecoveryDone => Decided(t0, t, answers, h)
  }

  lemma DecidingStep(t0: Table, t: Table, hist: History, rec: Recovery, a: Answer,
                     answers: map<string, Answer>, h: string)
    requires Is(t0, h, Fulfilling) && Deciding(t0, t, rec, answers, h) && RecoveryStep(t, hist, rec, a).Some?
    ensures var e := RecoveryStep(t, hist, rec, a).value;
            Deciding(t0, e.table, e.next, if rec.SubmitFulfilling? then answers[rec.hash := a] else answers, h)
  {
  }

  lemma {:induction false} RunDeciding(s: Sys, steps: seq<Step>, h: string)
    requires s.phase == Recovering(ScanFulfilling) && OnlyRecovery(steps) && Run(s, steps).Some?
    requires Is(s.table, h, Fulfilling)
    ensures var m := Run(s, steps).value;
            m.phase.Recovering? && Deciding(s.table, m.table, m.phase.rec, RetryAnswers(s, steps), h)
  {
    if steps != [] {
      var past, step := steps[..|steps| - 1], steps[|steps| - 1];
      assert step.Recover?;
      RunDeciding(s, past, h);
      var m := Run(s, past).value;
      hide Deciding, RecoveryStep;
      DecidingStep(s.table, m.table, m.history, m.phase.rec, step.a, RetryAnswers(s, past), h);
    }
  }

  /** In every run of recovery alone to its end, a Fulfilling swap was retried and is Completed if and only
      if the invoice was not found, then without a hash, or the transaction accepted, then with its
      hash; otherwise it is as it was. */
  lemma RetryDecides(s: Sys, steps: seq<Step>, h: string)
    requires s.phase == Recovering(ScanFulfilling) && OnlyRecovery(steps) && Run(s, steps).Some?
    requires Run(s, steps).value.phase == Recovering(RecoveryDone) && Is(s.table, h, Fulfilling)
    ensures h in RetryAnswers(s, steps) && h in Run(s, steps).value.table
    ensures var a, row := RetryAnswers(s, steps)[h], Run(s, steps).value.table[h];
            && (row.status == Completed <==> a.Miss? || a.TxOk?)
            && (a.Miss? ==> row.cardanoTxHash == None) && (a.TxOk? ==> row.cardanoTxHash == Some(a.tx))
            && (row.status != Completed ==> row == s.table[h])
  {
    RunDeciding(s, steps, h);
  }

  // ----- recovery killed and started again --------------------------------------------------

  predicate Alone(steps: seq<Step>) {
    forall i :: 0 <= i < |steps| ==> steps[i].Recover? || steps[i].Crash? || steps[i].Tick?
  }

  /** A Fulfilling swap is completed or unchanged, never failed; every other row is untouched. */
  predicate Recovered(t0: Table, t: Table) {
    && t.Keys == t0.Keys
    && forall h :: h in t0 ==>
         || t[h] == t0[h]
         || (t0[h].status == Fulfilling && t[h] == t0[h].(status := Completed, cardanoTxHash := t[h].cardanoTxHash))
  }

  predicate Selected(t0: Table, rec: Recovery) {
    match rec
    case RetryFulfilling(todo) => forall h :: h in todo ==> Is(t0, h, Fulfilling)
    case SubmitFulfilling(hash, todo) => Is(t0, hash, Fulfilling) && forall h :: h in todo ==> Is(t0, h, Fulfilling)
    case CompleteFulfilling(hash, _, todo) =>
      Is(t0, hash, Fulfilling) && forall h :: h in todo ==> Is(t0, h, Fulfilling)
    case _ => true
  }

  lemma RecoveryStepKeeps(t0: Table, t: Table, h: History, rec: Recovery, a: Answer)
    requires Recovered(t0, t) && Selected(t0, rec) && RecoveryStep(t, h, rec, a).Some?
    ensures Recovered(t0, RecoveryStep(t, h, rec, a).value.table)
    ensures Selected(t0, RecoveryStep(t, h, rec, a).value.next)
  {
    assert rec.ScanFulfilling? ==> forall x :: x in ByStatus(t, Fulfilling) ==> Is(t0, x, Fulfilling);
    hide ByStatus;
    if rec.CompleteFulfilling? { CompletedKeeps(t0, t, rec.hash, rec.tx); }
    hide Recovered;
  }

  lemma CompletedKeeps(t0: Table, t: Table, h: string, tx: Option<string>)
    requires Recovered(t0, t) && Is(t0, h, Fulfilling)
    ensures Recovered(t0, Update(t, h, Completed, tx))
  {
  }

  lemma {:induction false} KilledRecovery(s: Sys, steps: seq<Step>)
    requires s.phase == Recovering(ScanFulfilling) && s.tasks == map[] && Alone(steps) && Run(s, steps).Some?
    ensures var s' := Run(s, steps).value;
            && s'.tasks == map[] && s'.phase.Recovering?
            && Recovered(s.table, s'.table) && Selected(s.table, s'.phase.rec)
  {
    if steps != [] {
      var step := steps[|steps| - 1];
      assert step.Recover? || step.Crash? || step.Tick?;
      KilledRecovery(s, steps[..|steps| - 1]);
      var m := Run(s, steps[..|steps| - 1]).value;
      hide Recovered, RecoveryStep;
      if step.Recover? { RecoveryStepKeeps(s.table, m.table, m.history, m.phase.rec, step.a); }
    }
  }

  /** Recovery with no other handler, killed at any steps and started again any number of times,
      leaves a Fulfilling swap completed or unchanged and never failed, and touches nothing else;
      so does one uninterrupted pass, which is such a run. */
  lemma RecoveryIsCrashIdempotent(s: Sys, steps: seq<Step>, retry: string -> Retry)
    requires s.phase == Recovering(ScanFulfilling) && s.tasks == map[] && Alone(steps) && Run(s, steps).Some?
    ensures Recovered(s.table, Run(s, steps).value.table)
    ensures Recovered(s.table, RecoveredTable(s.table, retry)) && RecoversTo(s, retry, RecoveredTable(s.table, retry))
  {
    KilledRecovery(s, steps);
    OnePassIsRun(s, retry);
  }
}
