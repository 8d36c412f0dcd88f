/** One round of the offramp monitor, whatever else runs meanwhile: exactly what was due at its select is
    asked to be cancelled, each once. */
module OfframpMonitor {
  import opened Common
  import opened OfframpTable
  import opened OfframpProtocol
  import opened OfframpSafety
  import opened OfframpTheorems
  import opened OfframpSolvency
  import opened OfframpExpiry

  // ----- there is one monitor -----------------------------------------------------------------

  predicate Cancelling(f: FailureTask) { f.CancelBuild? || f.CancelSubmit? || f.CancelRead? || f.CancelMark? }

  predicate Monitoring(task: Task) {
    && task.Failure?
    && (|| task.f.MonitorTick? || task.f.MonitorSelect? || task.f.MonitorLoop?
        || (Cancelling(task.f) && task.f.cont.Monitor?))
  }

  ghost predicate OneMonitor(s: Sys) {
    && (forall i :: i in s.tasks && Monitoring(s.tasks[i]) ==> !s.phase.Recovering?)
    && (forall i, j :: i in s.tasks && j in s.tasks && Monitoring(s.tasks[i]) && Monitoring(s.tasks[j]) ==> i == j)
  }

  lemma SameKind(t: Table, clock: int, f: FailureTask, a: Answer)
    requires FailureStep(t, clock, f, a).Some?
    ensures var e := FailureStep(t, clock, f, a).value;
            && (e.next.Some? && Monitoring(Failure(e.next.value)) ==> Monitoring(Failure(f)))
            && (!Monitoring(Failure(f)) ==> NoCancel(e.event))
  {
    if Cancelling(f) { CancelKind(t, clock, f, a); } else { OtherKind(t, clock, f, a); }
    hide FailureStep;
  }

  lemma CancelKind(t: Table, clock: int, f: FailureTask, a: Answer)
    requires Cancelling(f) && FailureStep(t, clock, f, a).Some?
    ensures var e := FailureStep(t, clock, f, a).value;
            && (e.next.Some? && Monitoring(Failure(e.next.value)) ==> f.cont.Monitor?)
            && (!f.cont.Monitor? ==> NoCancel(e.event))
  {
    hide Update;
  }

  lemma OtherKind(t: Table, clock: int, f: FailureTask, a: Answer)
    requires !Cancelling(f) && FailureStep(t, clock, f, a).Some?
    ensures var e := FailureStep(t, clock, f, a).value;
            && (e.next.Some? && Monitoring(Failure(e.next.value)) ==> Monitoring(Failure(f)))
            && NoCancel(e.event)
  {
    if f.FailedRead? || f.FailedRefund? || f.FailedMark? { FailedKind(t, clock, f, a); }
    else { hide FoundByHash, Expired, Update; }
  }

  lemma FailedKind(t: Table, clock: int, f: FailureTask, a: Answer)
    requires (f.FailedRead? || f.FailedRefund? || f.FailedMark?) && FailureStep(t, clock, f, a).Some?
    ensures var e := FailureStep(t, clock, f, a).value;
            NoCancel(e.event) && (e.next.Some? ==> !Monitoring(Failure(e.next.value)))
  {
    hide FailureStep, Monitoring;
    match f
    case FailedRead(hash) => ReadKind(t, clock, hash, a);
    case FailedRefund(id, row) => RefundKind(t, clock, id, row, a);
    case FailedMark(id, row, note) => MarkKind(t, clock, id, row, note, a);
  }

  lemma ReadKind(t: Table, clock: int, hash: string, a: Answer)
    ensures var e := FailureStep(t, clock, FailedRead(hash), a);
            e.Some? ==> NoCancel(e.value.event) && (e.value.next.Some? ==> !Monitoring(Failure(e.value.next.value)))
  {
    hide FoundByHash, Expired, Update, Resume;
  }

  lemma RefundKind(t: Table, clock: int, id: int, row: Row, a: Answer)
    ensures var e := FailureStep(t, clock, FailedRefund(id, row), a);
            e.Some? ==> NoCancel(e.value.event) && (e.value.next.Some? ==> !Monitoring(Failure(e.value.next.value)))
  {
    hide FoundByHash, Expired, Update, Resume;
  }

  lemma MarkKind(t: Table, clock: int, id: int, row: Row, note: string, a: Answer)
    ensures var e := FailureStep(t, clock, FailedMark(id, row, note), a);
            e.Some? ==> NoCancel(e.value.event) && (e.value.next.Some? ==> !Monitoring(Failure(e.value.next.value)))
  {
    hide FoundByHash, Expired, Update, Resume;
  }

  lemma OneMonitorKept(s: Sys, step: Step)
    requires OneMonitor(s) && Next(s, step).Some?
    ensures OneMonitor(Next(s, step).value)
  {
    hide RequestStep, DepositStep, CompleteStep, FailureStep, RecoveryStep;
    if step.Advance? && s.tasks[step.tid].Failure? { SameKind(s.table, s.clock, s.tasks[step.tid].f, step.a); }
  }

  lemma {:induction false} RunOneMonitor(s: Sys, steps: seq<Step>)
    requires OneMonitor(s) && Run(s, steps).Some?
    ensures OneMonitor(Run(s, steps).value)
  {
    if steps != [] {
      hide OneMonitor, Next;
      RunOneMonitor(s, steps[..|steps| - 1]);
      OneMonitorKept(Run(s, steps[..|steps| - 1]).value, steps[|steps| - 1]);
    }
  }

  lemma ReachableOneMonitor(s: Sys)
    requires Reachable(s)
    ensures OneMonitor(s)
  {
    var clock: int, cfg: Config :| Reaches(Init(clock, cfg), s);
    var steps :| Run(Init(clock, cfg), steps) == Some(s);
    RunOneMonitor(Init(clock, cfg), steps);
  }

  /** Only the monitor asks for cancellations in its own name. */
  lemma OthersSilent(s: Sys, step: Step, tid: nat)
    requires OneMonitor(s) && Next(s, step).Some? && tid in s.tasks && Monitoring(s.tasks[tid])
    requires step.Advance? ==> step.tid != tid
    ensures NoCancel(EventOf(s, step))
  {
    hide RequestStep, DepositStep, CompleteStep, FailureStep, RecoveryStep;
    match step
    case Advance(i, a) =>
      match s.tasks[i] {
        case Request(r) => RequestStaysAligned(s.table, s.clock, s.cfg, r, a);
        case Deposit(d) => DepositNeverCancels(s.table, d, a);
        case Complete(c) => CompleteNeverCancels(s.table, c, a);
        case Failure(f) => SameKind(s.table, s.clock, f, a);
      }
    case _ =>
  }

  // ----- a round ------------------------------------------------------------------------------

  /** Between the select that read clock `now` and the next tick. */
  predicate OnRound(f: FailureTask, now: int) {
    (f.MonitorLoop? && f.now == now) || (Cancelling(f) && f.cont.Monitor? && f.cont.now == now)
  }

  /** What the round has still to ask for. */
  predicate ToAsk(f: FailureTask, id: int) {
    match f
    case MonitorLoop(_, todo) => id in todo
    case CancelBuild(x, cont) => id == x || (cont.Monitor? && id in cont.todo)
    case CancelSubmit(_, cont) => cont.Monitor? && id in cont.todo
    case CancelRead(_, cont, _) => cont.Monitor? && id in cont.todo
    case CancelMark(_, _, cont) => cont.Monitor? && id in cont.todo
    case _ => false
  }

  /** The one being cancelled is not on the list. */
  predicate Picked(f: FailureTask) { f.CancelBuild? && f.cont.Monitor? ==> f.id !in f.cont.todo }

  predicate InRound(m: Sys, tid: nat, now: int) {
    tid in m.tasks && m.tasks[tid].Failure? && OnRound(m.tasks[tid].f, now)
  }

  /** The run starts with the monitor's select and ends with its next tick, with the round in between. */
  ghost predicate Round(s: Sys, steps: seq<Step>, tid: nat, now: int)
    requires Run(s, steps).Some?
  {
    && tid in s.tasks && s.tasks[tid] == Failure(MonitorSelect(now)) && steps != [] && steps[0] == Advance(tid, Proceed)
    && (forall n :: 0 < n < |steps| && Run(s, steps[..n]).Some? ==> InRound(Run(s, steps[..n]).value, tid, now))
    && tid in Run(s, steps).value.tasks && Run(s, steps).value.tasks[tid] == Failure(MonitorTick)
  }

  function Asks(log: seq<Event>, id: int, now: int): nat { multiset(log)[MonitorCancel(id, now)] }

  /** One request for `id` beyond those in `log` if it was asked for, none if not. */
  ghost predicate Asked(log: seq<Event>, log': seq<Event>, id: int, now: int, asked: bool) {
    && Count(log', Cancelled, id) == Count(log, Cancelled, id) + (if asked then 1 else 0)
    && Asks(log', id, now) == Asks(log, id, now) + (if asked then 1 else 0)
  }

  ghost predicate Midway(log: seq<Event>, m: Sys, tid: nat, now: int, id: int, due: bool) {
    && InRound(m, tid, now) && OneMonitor(m) && Picked(m.tasks[tid].f)
    && (ToAsk(m.tasks[tid].f, id) ==> due)
    && Asked(log, m.log, id, now, due && !ToAsk(m.tasks[tid].f, id))
  }

  lemma AskedAppend(log: seq<Event>, log': seq<Event>, e: Option<Event>, id: int, now: int, asked: bool)
    requires Asked(log, log', id, now, asked)
    ensures NoCancel(e) || e.value.id != id ==> Asked(log, Append(log', e), id, now, asked)
    ensures e == Some(MonitorCancel(id, now)) && !asked ==> Asked(log, Append(log', e), id, now, true)
  {
    if e.Some? { CountAppend(log', e.value, Cancelled, id); }
  }

  /** A step of the monitor itself. */
  lemma RoundStep(t: Table, clock: int, f: FailureTask, a: Answer, now: int, id: int)
    requires OnRound(f, now) && Picked(f) && FailureStep(t, clock, f, a).Some?
    ensures var e := FailureStep(t, clock, f, a).value;
            && e.next.Some?
            && (e.next.value == MonitorTick ==> NoCancel(e.event) && !ToAsk(f, id))
            && (e.next.value != MonitorTick ==> OnRound(e.next.value, now) && Picked(e.next.value))
            && (f.CancelBuild? ==> e.event == Some(MonitorCancel(f.id, now)) && ToAsk(f, f.id))
            && (!f.CancelBuild? ==> NoCancel(e.event))
            && (ToAsk(e.next.value, id) <==> ToAsk(f, id) && !(f.CancelBuild? && f.id == id))
  {
    hide Update;
  }

  lemma MidwayStep(log: seq<Event>, m: Sys, step: Step, tid: nat, now: int, id: int, due: bool)
    requires Midway(log, m, tid, now, id, due) && Next(m, step).Some?
    ensures var m' := Next(m, step).value;
            && (InRound(m', tid, now) ==> Midway(log, m', tid, now, id, due))
            && (tid in m'.tasks && m'.tasks[tid] == Failure(MonitorTick) ==> Asked(log, m'.log, id, now, due))
  {
    var f := m.tasks[tid].f;
    LogOf(m, step);
    OneMonitorKept(m, step);
    AskedAppend(log, m.log, EventOf(m, step), id, now, due && !ToAsk(f, id));
    hide Asked, OneMonitor, FailureStep, RecoveryStep, RequestStep, DepositStep, CompleteStep, ToAsk, Picked;
    if step.Advance? && step.tid == tid {
      RoundStep(m.table, m.clock, f, step.a, now, id);
    } else {
      OthersSilent(m, step, tid);
      hide OnRound;
    }
  }

  lemma SelectStarts(s: Sys, tid: nat, now: int, id: int)
    requires OneMonitor(s) && tid in s.tasks && s.tasks[tid] == Failure(MonitorSelect(now))
    ensures var m := Next(s, Advance(tid, Proceed)).value;
            var due := id in s.table && (s.table[id].status == AwaitingDeposit || s.table[id].status == Failed)
                       && 0 < s.table[id].expiresAt < now;
            Midway(s.log, m, tid, now, id, due)
  {
    OneMonitorKept(s, Advance(tid, Proceed));
    hide OneMonitor;
  }

  lemma {:induction false} RunMidway(s: Sys, steps: seq<Step>, tid: nat, now: int, id: int, n: nat)
    requires OneMonitor(s) && Run(s, steps).Some? && Round(s, steps, tid, now) && 0 < n < |steps|
    requires Run(s, steps[..n]).Some?
    ensures var due := id in s.table && (s.table[id].status == AwaitingDeposit || s.table[id].status == Failed)
                       && 0 < s.table[id].expiresAt < now;
            Midway(s.log, Run(s, steps[..n]).value, tid, now, id, due)
  {
    var due := id in s.table && (s.table[id].status == AwaitingDeposit || s.table[id].status == Failed)
               && 0 < s.table[id].expiresAt < now;
    assert steps[..n][..n - 1] == steps[..n - 1];
    if n == 1 {
      assert steps[..0] == [];
      SelectStarts(s, tid, now, id);
    } else {
      RunMidway(s, steps, tid, now, id, n - 1);
      hide Midway, Next, InRound;
      MidwayStep(s.log, Run(s, steps[..n - 1]).value, steps[n - 1], tid, now, id, due);
    }
  }

  /** In every round of the monitor in every run, whatever interleaves: each offramp that at the select was
      AwaitingDeposit or Failed, with an expiry set and passed, is asked to be cancelled exactly once,
      with the clock of the select, and no other offramp is asked for at all. */
  lemma RoundIsExact(s: Sys, steps: seq<Step>, tid: nat, now: int, id: int)
    requires Reachable(s) && Run(s, steps).Some? && Round(s, steps, tid, now)
    ensures var due := id in s.table && (s.table[id].status == AwaitingDeposit || s.table[id].status == Failed)
                       && 0 < s.table[id].expiresAt < now;
            var log := Run(s, steps).value.log;
            && Count(log, Cancelled, id) == Count(s.log, Cancelled, id) + (if due then 1 else 0)
            && Asks(log, id, now) == Asks(s.log, id, now) + (if due then 1 else 0)
  {
    ReachableOneMonitor(s);
    hide Reachable, OneMonitor;
    var due := id in s.table && (s.table[id].status == AwaitingDeposit || s.table[id].status == Failed)
               && 0 < s.table[id].expiresAt < now;
    var n := |steps| - 1;
    assert steps[..|steps|] == steps;
    if n > 0 {
      RunMidway(s, steps, tid, now, id, n);
      hide Midway, Next;
      MidwayStep(s.log, Run(s, steps[..n]).value, steps[n], tid, now, id, due);
    } else {
      assert steps[..0] == [];
      SelectStarts(s, tid, now, id);
    }
  }
}
