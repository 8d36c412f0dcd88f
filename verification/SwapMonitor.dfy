/** One round of the swap monitor, whatever else runs meanwhile: exactly the swaps due at its select are
    selected and asked to be cancelled. */
module SwapMonitor {
  import opened Common
  import opened SwapTable
  import opened SwapProtocol
  import opened SwapTheorems

  // ----- there is one monitor -----------------------------------------------------------------

  ghost predicate OneMonitor(s: Sys) {
    && (forall i :: i in s.tasks && s.tasks[i].Monitor? ==> !s.phase.Recovering?)
    && (forall i, j :: i in s.tasks && j in s.tasks && s.tasks[i].Monitor? && s.tasks[j].Monitor? ==> i == j)
  }

  lemma OneMonitorKept(s: Sys, step: Step)
    requires OneMonitor(s) && Next(s, step).Some?
    ensures OneMonitor(Next(s, step).value)
  {
    hide RequestStep, FulfillStep, MonitorStep, RecoveryStep;
  }

  lemma {:induction false} RunOneMonitor(s: Sys, steps: seq<Step>)
    requires OneMonitor(s) && Run(s, steps).Some?
    ensures OneMonitor(Run(s, steps).value)
  {
    if steps != [] {
      hide OneMonitor, Next;
      RunOneMonitor(s, steps[..|steps| - 1]);
      OneMonitorKept(Run(s, steps[..|steps| - 1]).value, steps[|steps| - 1]);
    }
  }

  lemma ReachableOneMonitor(s: Sys)
    requires Reachable(s)
    ensures OneMonitor(s)
  {
    var clock: int, cfg: Config :| Reaches(Init(clock, cfg), s);
    var steps :| Run(Init(clock, cfg), steps) == Some(s);
    RunOneMonitor(Init(clock, cfg), steps);
  }

  /** Only the monitor selects and cancels. */
  lemma OthersSilent(s: Sys, step: Step, tid: nat)
    requires OneMonitor(s) && Next(s, step).Some? && tid in s.tasks && s.tasks[tid].Monitor?
    requires step.Advance? ==> step.tid != tid
    ensures Next(s, step).value.history.cancels == s.history.cancels
    ensures Next(s, step).value.history.selected == s.history.selected
  {
    hide Active, MonitorStep;
  }

  // ----- a round ------------------------------------------------------------------------------

  predicate OnRound(m: MonitorTask, now: int) { !m.MonitorTick? && !m.MonitorSelect? && m.now == now }

  /** The rows the round has still to ask for. */
  function ToAsk(m: MonitorTask): map<string, Row> {
    match m
    case MonitorLoop(_, todo) => todo
    case MonitorCancel(hash, row, _, todo) => todo[hash := row]
    case MonitorSubmit(_, _, todo) => todo
    case MonitorMark(_, _, _, todo) => todo
    case _ => map[]
  }

  /** The one being cancelled is not on the list. */
  predicate Picked(m: MonitorTask) { m.MonitorCancel? ==> m.hash !in m.todo }

  predicate InRound(m: Sys, tid: nat, now: int) {
    tid in m.tasks && m.tasks[tid].Monitor? && OnRound(m.tasks[tid].m, now)
  }

  /** The run starts with the monitor's select and ends with its next tick, with the round in between. */
  ghost predicate Round(s: Sys, steps: seq<Step>, tid: nat, now: int)
    requires Run(s, steps).Some?
  {
    && tid in s.tasks && s.tasks[tid] == Monitor(MonitorSelect(now)) && steps != [] && steps[0] == Advance(tid, Proceed)
    && (forall n :: 0 < n < |steps| && Run(s, steps[..n]).Some? ==> InRound(Run(s, steps[..n]).value, tid, now))
    && tid in Run(s, steps).value.tasks && Run(s, steps).value.tasks[tid] == Monitor(MonitorTick)
  }

  /** The swaps that are Pending past their expiry. */
  function Due(t: Table, now: int): map<string, Row> {
    map h | h in t && t[h].status == Pending && t[h].expiresAt < now :: t[h]
  }

  function Invoices(rows: map<string, Row>, now: int): set<(int, int)> { set h | h in rows :: (rows[h].invoiceId, now) }

  ghost predicate Midway(s: Sys, m: Sys, tid: nat, now: int) {
    && InRound(m, tid, now) && OneMonitor(m) && Picked(m.tasks[tid].m)
    && m.history.selected == s.history.selected + Due(s.table, now).Keys
    && m.history.cancels + Invoices(ToAsk(m.tasks[tid].m), now) == s.history.cancels + Invoices(Due(s.table, now), now)
  }

  /** A step of the monitor itself moves at most one row from the list to what was asked. */
  lemma RoundStep(t: Table, h: History, clock: int, m: MonitorTask, a: Answer, now: int)
    requires OnRound(m, now) && Picked(m) && MonitorStep(t, h, clock, m, a).Some?
    ensures var e := MonitorStep(t, h, clock, m, a).value;
            && e.next.Some? && e.history.selected == h.selected
            && (e.next.value == MonitorTick ==> ToAsk(m) == map[] && e.history == h)
            && (e.next.value != MonitorTick ==> OnRound(e.next.value, now) && Picked(e.next.value))
            && e.history.cancels + Invoices(ToAsk(e.next.value), now) == h.cancels + Invoices(ToAsk(m), now)
  {
    if m.MonitorLoop? && a.Pick? && a.hash in m.todo {
      assert (m.todo - {a.hash})[a.hash := m.todo[a.hash]] == m.todo;
    }
    if m.MonitorCancel? { MovedOne(m.todo, m.hash, m.row, now); }
    hide Invoices;
  }

  lemma MovedOne(todo: map<string, Row>, hash: string, row: Row, now: int)
    requires hash !in todo
    ensures {(row.invoiceId, now)} + Invoices(todo, now) == Invoices(todo[hash := row], now)
  {
    var rows := todo[hash := row];
    forall p | p in Invoices(todo, now) ensures p in Invoices(rows, now) {
      var h :| h in todo && p == (todo[h].invoiceId, now);
      assert h in rows && p == (rows[h].invoiceId, now);
    }
    assert hash in rows && (rows[hash].invoiceId, now) in Invoices(rows, now);
  }

  lemma MidwayStep(s: Sys, m: Sys, step: Step, tid: nat, now: int)
    requires Midway(s, m, tid, now) && Next(m, step).Some?
    ensures var m' := Next(m, step).value;
            && (InRound(m', tid, now) ==> Midway(s, m', tid, now))
            && (tid in m'.tasks && m'.tasks[tid] == Monitor(MonitorTick) ==>
                  && m'.history.selected == s.history.selected + Due(s.table, now).Keys
                  && m'.history.cancels == s.history.cancels + Invoices(Due(s.table, now), now))
  {
    OneMonitorKept(m, step);
    hide OneMonitor, MonitorStep, RecoveryStep, RequestStep, FulfillStep, Due, ToAsk, Picked;
    assert Invoices(map[], now) == {};
    hide Invoices;
    if step.Advance? && step.tid == tid {
      RoundStep(m.table, m.history, m.clock, m.tasks[tid].m, step.a, now);
    } else {
      OthersSilent(m, step, tid);
      hide OnRound;
    }
  }

  lemma SelectStarts(s: Sys, tid: nat, now: int)
    requires OneMonitor(s) && tid in s.tasks && s.tasks[tid] == Monitor(MonitorSelect(now))
    ensures Midway(s, Next(s, Advance(tid, Proceed)).value, tid, now)
  {
    OneMonitorKept(s, Advance(tid, Proceed));
    assert ExpiredPending(s.table, now) == Due(s.table, now);
    hide OneMonitor, Invoices;
  }

  lemma {:induction false} RunMidway(s: Sys, steps: seq<Step>, tid: nat, now: int, n: nat)
    requires OneMonitor(s) && Run(s, steps).Some? && Round(s, steps, tid, now) && 0 < n < |steps|
    requires Run(s, steps[..n]).Some?
    ensures Midway(s, Run(s, steps[..n]).value, tid, now)
  {
    assert steps[..n][..n - 1] == steps[..n - 1];
    if n == 1 {
      assert steps[..0] == [];
      SelectStarts(s, tid, now);
    } else {
      RunMidway(s, steps, tid, now, n - 1);
      hide Midway, Next, InRound;
      MidwayStep(s, Run(s, steps[..n - 1]).value, steps[n - 1], tid, now);
    }
  }

  /** In every round of the monitor in every run, whatever interleaves: the swaps that at the select were
      Pending past their expiry are selected and their invoices asked to be cancelled, with the clock
      of the select, and nothing else is. */
  lemma RoundIsExact(s: Sys, steps: seq<Step>, tid: nat, now: int)
    requires Reachable(s) && Run(s, steps).Some? && Round(s, steps, tid, now)
    ensures var due := map h | h in s.table && s.table[h].status == Pending && s.table[h].expiresAt < now :: s.table[h];
            var after := Run(s, steps).value.history;
            && after.selected == s.history.selected + due.Keys
            && after.cancels == s.history.cancels + set h | h in due :: (due[h].invoiceId, now)
  {
    ReachableOneMonitor(s);
    hide Reachable, OneMonitor;
    var n := |steps| - 1;
    assert steps[..|steps|] == steps;
    if n > 0 {
      RunMidway(s, steps, tid, now, n);
      hide Midway, Next;
      MidwayStep(s, Run(s, steps[..n]).value, steps[n], tid, now);
    } else {
      assert steps[..0] == [];
      SelectStarts(s, tid, now);
    }
  }
}
