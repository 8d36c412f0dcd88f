/** The expiry the relay stores for an offramp is the one it sent on chain, and the monitor only
    tries to cancel what has passed it. */
module OfframpExpiry {
  import opened Common
  import opened OfframpTable
  import opened OfframpProtocol
  import opened OfframpSafety
  import opened OfframpTheorems
  import opened OfframpSolvency

  predicate Past(t: Table, id: int, now: int) { id in t && t[id].expiresAt < now }

  predicate AllPast(t: Table, todo: map<int, Row>, now: int) { forall id :: id in todo ==> Past(t, id, now) }

  predicate ContinuationPast(t: Table, clock: int, cont: Continuation) {
    cont.Monitor? ==> cont.now <= clock && AllPast(t, cont.todo, cont.now)
  }

  predicate FailurePast(t: Table, clock: int, f: FailureTask) {
    match f
    case MonitorSelect(now) => now <= clock
    case MonitorLoop(now, todo) => now <= clock && AllPast(t, todo, now)
    case CancelBuild(id, cont) => ContinuationPast(t, clock, cont) && (cont.Monitor? ==> Past(t, id, cont.now))
    case CancelSubmit(_, cont) => ContinuationPast(t, clock, cont)
    case CancelRead(_, cont, _) => ContinuationPast(t, clock, cont)
    case CancelMark(_, _, cont) => ContinuationPast(t, clock, cont)
    case _ => true
  }

  ghost predicate TaskAligned(s: Sys, task: Task) {
    match task
    case Request(r) => r.RequestInsert? ==> ChainCreated(r.id, r.expiresAt) in s.log
    case Failure(f) => FailurePast(s.table, s.clock, f)
    case _ => true
  }

  ghost predicate Aligned(s: Sys) {
    && (forall id :: id in s.table ==> ChainCreated(id, s.table[id].expiresAt) in s.log)
    && (forall i :: i in s.tasks ==> TaskAligned(s, s.tasks[i]))
    && (forall e :: e in s.log && e.MonitorCancel? ==> e.now <= s.clock && Past(s.table, e.id, e.now))
  }

  lemma PastKept(s: Sys, s': Sys, id: int, now: int)
    requires Persisted(s, s') && Past(s.table, id, now)
    ensures Past(s'.table, id, now)
  {
    assert Persists(Lookup(s.table, id), Lookup(s'.table, id));
  }

  lemma TaskStaysAligned(s: Sys, s': Sys, task: Task)
    requires Persisted(s, s') && TaskAligned(s, task)
    ensures TaskAligned(s', task)
  {
    forall id, now | Past(s.table, id, now) ensures Past(s'.table, id, now) { PastKept(s, s', id, now); }
    hide Past;
  }

  /** A step of the failure handler or the monitor, judged in the table it leaves. */
  lemma FailureStaysPast(t: Table, clock: int, f: FailureTask, a: Answer)
    requires FailureStep(t, clock, f, a).Some? && FailurePast(t, clock, f)
    ensures var e := FailureStep(t, clock, f, a).value;
            && (e.next.Some? ==> FailurePast(t, clock, e.next.value))
            && (e.event.Some? && e.event.value.MonitorCancel? ==>
                  e.event.value.now <= clock && Past(t, e.event.value.id, e.event.value.now))
  {
    hide FoundByHash, Update;
  }

  lemma RequestStaysAligned(t: Table, clock: int, cfg: Config, r: RequestTask, a: Answer)
    requires RequestStep(t, clock, cfg, r, a).Some?
    ensures var e := RequestStep(t, clock, cfg, r, a).value;
            && (e.event.Some? ==> !e.event.value.MonitorCancel?)
            && (e.next.Some? && e.next.value.RequestInsert? ==>
                  e.event == Some(ChainCreated(e.next.value.id, e.next.value.expiresAt)))
            && (forall id :: id in e.table && id !in t ==>
                  r.RequestInsert? && r.id == id && e.table[id].expiresAt == r.expiresAt)
  {
    hide FoundByHash, AmountOk;
  }

  predicate NoCancel(e: Option<Event>) { e.Some? ==> !e.value.MonitorCancel? }

  lemma DepositNeverCancels(t: Table, d: DepositTask, a: Answer)
    requires DepositStep(t, d, a).Some?
    ensures NoCancel(DepositStep(t, d, a).value.event) && DepositStep(t, d, a).value.table.Keys == t.Keys
  {
    hide FoundByTx;
  }

  lemma CompleteNeverCancels(t: Table, c: CompleteTask, a: Answer)
    requires CompleteStep(t, c, a).Some?
    ensures NoCancel(CompleteStep(t, c, a).value.event) && CompleteStep(t, c, a).value.table.Keys == t.Keys
  {
    hide FoundByHash;
  }

  lemma RecoveryNeverCancels(t: Table, rec: Recovery, a: Answer)
    requires RecoveryStep(t, rec, a).Some?
    ensures NoCancel(RecoveryStep(t, rec, a).value.event) && RecoveryStep(t, rec, a).value.table.Keys == t.Keys
  {
    hide ByStatus;
  }

  lemma FailureKeepsKeys(t: Table, clock: int, f: FailureTask, a: Answer)
    requires FailureStep(t, clock, f, a).Some?
    ensures FailureStep(t, clock, f, a).value.table.Keys == t.Keys
  {
    hide FoundByHash, Expired;
  }

  /** A row that appears in a step carries an expiry that was sent on chain. */
  lemma NewRowAligned(s: Sys, step: Step, id: int)
    requires Aligned(s) && Next(s, step).Some? && id in Next(s, step).value.table && id !in s.table
    ensures ChainCreated(id, Next(s, step).value.table[id].expiresAt) in s.log
  {
    hide RequestStep, DepositStep, CompleteStep, FailureStep, RecoveryStep;
    match step
    case Recover(a) => RecoveryNeverCancels(s.table, s.phase.rec, a);
    case Advance(tid, a) =>
      assert TaskAligned(s, s.tasks[tid]);
      match s.tasks[tid] {
        case Request(r) => RequestStaysAligned(s.table, s.clock, s.cfg, r, a);
        case Deposit(d) => DepositNeverCancels(s.table, d, a);
        case Complete(c) => CompleteNeverCancels(s.table, c, a);
        case Failure(f) => FailureKeepsKeys(s.table, s.clock, f, a);
      }
    case _ =>
  }

  /** The monitor asks to cancel only what has passed its stored expiry at a clock already read. */
  lemma CancelIsDue(s: Sys, step: Step)
    requires Aligned(s) && Next(s, step).Some? && !NoCancel(EventOf(s, step))
    ensures var e := EventOf(s, step).value; e.now <= s.clock && Past(s.table, e.id, e.now)
  {
    hide RequestStep, DepositStep, CompleteStep, FailureStep, RecoveryStep;
    match step
    case Recover(a) => RecoveryNeverCancels(s.table, s.phase.rec, a);
    case Advance(tid, a) =>
      assert TaskAligned(s, s.tasks[tid]);
      match s.tasks[tid] {
        case Request(r) => RequestStaysAligned(s.table, s.clock, s.cfg, r, a);
        case Deposit(d) => DepositNeverCancels(s.table, d, a);
        case Complete(c) => CompleteNeverCancels(s.table, c, a);
        case Failure(f) => FailureStaysPast(s.table, s.clock, f, a);
      }
  }

  /** A task after the step is a new one, one that did not move, or one in order by its own step. */
  lemma TaskAfter(s: Sys, step: Step, i: nat)
    requires Aligned(s) && Next(s, step).Some? && i in Next(s, step).value.tasks
    requires Persisted(s, Next(s, step).value)
    ensures TaskAligned(Next(s, step).value, Next(s, step).value.tasks[i])
  {
    var s' := Next(s, step).value;
    LogOf(s, step);
    if i in s.tasks && s'.tasks[i] == s.tasks[i] {
      TaskStaysAligned(s, s', s.tasks[i]);
    } else if step.Advance? {
      MovedTaskAligned(s, i, step.a);
    }
    hide TaskStep, RecoveryStep;
  }

  lemma MovedTaskAligned(s: Sys, tid: nat, a: Answer)
    requires Aligned(s) && CanStep(s, tid, a) && tid in Stepped(s, tid, a).tasks
    requires Persisted(s, Stepped(s, tid, a))
    ensures TaskAligned(Stepped(s, tid, a), Stepped(s, tid, a).tasks[tid])
  {
    hide RequestStep, DepositStep, CompleteStep, FailureStep, FailurePast;
    assert TaskAligned(s, s.tasks[tid]);
    match s.tasks[tid]
    case Request(r) => RequestStaysAligned(s.table, s.clock, s.cfg, r, a);
    case Failure(f) =>
      FailureStaysPast(s.table, s.clock, f, a);
      TaskStaysAligned(s, Stepped(s, tid, a), Stepped(s, tid, a).tasks[tid]);
    case _ =>
  }

  lemma AlignedKept(s: Sys, step: Step)
    requires Inv(s) && Aligned(s) && Next(s, step).Some?
    ensures Aligned(Next(s, step).value)
  {
    var s' := Next(s, step).value;
    NextPersists(s, step);
    LogOf(s, step);
    hide Inv, Next, EventOf, TaskAligned;
    forall i | i in s'.tasks ensures TaskAligned(s', s'.tasks[i]) { TaskAfter(s, step, i); }
    forall id | id in s'.table ensures ChainCreated(id, s'.table[id].expiresAt) in s'.log {
      assert Persists(Lookup(s.table, id), Lookup(s'.table, id));
      if id !in s.table { NewRowAligned(s, step, id); }
    }
    forall e | e in s'.log && e.MonitorCancel? ensures e.now <= s'.clock && Past(s'.table, e.id, e.now) {
      if e !in s.log { CancelIsDue(s, step); }
      PastKept(s, s', e.id, e.now);
    }
  }

  lemma {:induction false} RunAligned(s: Sys, steps: seq<Step>)
    requires Inv(s) && Aligned(s) && Run(s, steps).Some?
    ensures Aligned(Run(s, steps).value)
  {
    if steps != [] {
      hide Inv, Aligned, Next;
      RunAligned(s, steps[..|steps| - 1]);
      RunKeeps(s, steps[..|steps| - 1]);
      AlignedKept(Run(s, steps[..|steps| - 1]).value, steps[|steps| - 1]);
    }
  }

  /** An on-chain entry keeps the expiry it was created with. */
  predicate ChainIdsUnique(log: seq<Event>) {
    forall e, f :: e in log && f in log && e.ChainCreated? && f.ChainCreated? && e.id == f.id ==>
      e.expiresAt == f.expiresAt
  }

  /** The stored expiry of every offramp is one sent on chain for its id, and everything the monitor
      ever tried to cancel had passed that expiry at a moment no later than now. As long as on-chain
      ids are not reused with another expiry, that is the expiry of the entry. */
  lemma ExpiryAligned(s: Sys)
    requires Reachable(s)
    ensures forall id :: id in s.table ==> ChainCreated(id, s.table[id].expiresAt) in s.log
    ensures forall e :: e in s.log && e.MonitorCancel? ==>
              && e.id in s.table && ChainCreated(e.id, s.table[e.id].expiresAt) in s.log
              && s.table[e.id].expiresAt < e.now <= s.clock
    ensures ChainIdsUnique(s.log) ==>
              forall e, f :: e in s.log && e.MonitorCancel? && f in s.log && f.ChainCreated? && f.id == e.id ==>
                f.expiresAt < e.now
  {
    var clock: int, cfg: Config :| Reaches(Init(clock, cfg), s);
    var steps :| Run(Init(clock, cfg), steps) == Some(s);
    InitHolds(clock, cfg);
    RunAligned(Init(clock, cfg), steps);
    hide Inv, Run;
    forall e, f | ChainIdsUnique(s.log) && e in s.log && e.MonitorCancel?
                  && f in s.log && f.ChainCreated? && f.id == e.id
      ensures f.expiresAt < e.now
    {
      assert ChainCreated(e.id, s.table[e.id].expiresAt) in s.log;
    }
  }
}
