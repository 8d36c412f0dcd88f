/** What every run of the swap protocol keeps, and the promises that follow. */
module SwapSafety {
  import opened Common
  import opened SwapTable
  import opened SwapProtocol

  // ----- the invariant ----------------------------------------------------------------------

  ghost predicate RowOk(t: Table, h: History, clock: int, hash: string) {
    && (hash in h.claimed ==> hash in t && t[hash].status != Pending)
    && (hash in h.built ==> hash in h.claimed && hash !in h.selected)
    && (hash in h.selected ==> hash in t && t[hash].expiresAt < clock)
    && (hash in t ==> Covered(h, t[hash].invoiceId, t[hash].expiresAt))
  }

  /** An expiry no later than `expiresAt` was sent on chain for the invoice. */
  ghost predicate Covered(h: History, invoiceId: int, expiresAt: int) {
    exists c :: (invoiceId, c) in h.chain && c <= expiresAt
  }

  /** Past the winning compare-and-set of fulfill_swap. */
  predicate Owning(f: FulfillTask) { !f.FulfillRead? && !f.FulfillClaim? }

  predicate FulfillOk(t: Table, h: History, f: FulfillTask) {
    && (f.FulfillClaim? || f.FulfillClock? ==> f.hash in t && f.row.expiresAt == t[f.hash].expiresAt)
    && (Owning(f) ==> f.hash in h.claimed)
    && (f.FulfillQuery? || f.FulfillSubmit? ==> f.hash !in h.selected)
  }

  ghost predicate RequestOk(h: History, clock: int, cfg: Config, r: RequestTask) {
    && (r.RequestCreate? ==> r.chainExpiry <= clock + cfg.expiry)
    && (r.RequestInvoice? || r.RequestStamp? ==> Covered(h, r.invoiceId, clock + cfg.expiry))
    && (r.RequestInsert? ==> Covered(h, r.invoiceId, r.expiresAt))
  }

  /** The invoice of the row has passed an expiry sent on chain for it. */
  ghost predicate Past(h: History, row: Row, now: int) { Covered(h, row.invoiceId, now - 1) }

  ghost predicate AllPast(h: History, todo: map<string, Row>, now: int) {
    forall k :: k in todo ==> Past(h, todo[k], now)
  }

  ghost predicate MonitorOk(h: History, clock: int, m: MonitorTask) {
    match m
    case MonitorTick => true
    case MonitorSelect(now) => now <= clock
    case MonitorLoop(now, todo) => now <= clock && AllPast(h, todo, now)
    case MonitorCancel(_, row, now, todo) => now <= clock && AllPast(h, todo, now) && Past(h, row, now)
    case MonitorSubmit(_, now, todo) => now <= clock && AllPast(h, todo, now)
    case MonitorMark(_, _, now, todo) => now <= clock && AllPast(h, todo, now)
  }

  ghost predicate TaskOk(s: Sys, task: Task) {
    match task
    case Request(r) => RequestOk(s.history, s.clock, s.cfg, r)
    case Fulfill(f) => FulfillOk(s.table, s.history, f)
    case Monitor(m) => MonitorOk(s.history, s.clock, m)
  }

  predicate Owns(task: Task, hash: string) { task.Fulfill? && Owning(task.f) && task.f.hash == hash }

  ghost predicate Inv(s: Sys) {
    && RowsOk(s.table, s.history, s.clock)
    && (forall i :: i in s.tasks ==> TaskOk(s, s.tasks[i]))
    && (forall i, j, hash :: i in s.tasks && j in s.tasks && Owns(s.tasks[i], hash) && Owns(s.tasks[j], hash) ==>
          i == j)
    && CancelsOk(s.history, s.clock)
  }

  /** Nothing but the clock and the record of what happened moves under a task that does not step. */
  ghost predicate Grown(t: Table, h: History, t': Table, h': History) {
    && (forall hash :: hash in t ==> hash in t' && t'[hash].expiresAt == t[hash].expiresAt)
    && h.claimed <= h'.claimed
    && h.chain <= h'.chain
  }

  ghost predicate RowsOk(t: Table, h: History, clock: int) {
    forall hash :: RowOk(t, h, clock, hash)
  }

  ghost predicate CancelsOk(h: History, clock: int) {
    forall i, now :: (i, now) in h.cancels ==> now <= clock && Covered(h, i, now - 1)
  }

  lemma GrownTask(s: Sys, s': Sys, task: Task)
    requires TaskOk(s, task) && Grown(s.table, s.history, s'.table, s'.history)
    requires s.clock <= s'.clock && s'.cfg == s.cfg
    requires task.Fulfill? && (task.f.FulfillQuery? || task.f.FulfillSubmit?) ==> task.f.hash !in s'.history.selected
    ensures TaskOk(s', task)
  {
  }

  lemma RequestEffect(t: Table, h: History, clock: int, cfg: Config, r: RequestTask, a: Answer)
    requires RowsOk(t, h, clock) && CancelsOk(h, clock) && RequestOk(h, clock, cfg, r)
    requires RequestStep(t, h, clock, cfg, r, a).Some?
    ensures var e := RequestStep(t, h, clock, cfg, r, a).value;
            && Grown(t, h, e.table, e.history) && e.history == h.(chain := e.history.chain)
            && RowsOk(e.table, e.history, clock) && CancelsOk(e.history, clock)
            && (e.next.Some? ==> RequestOk(e.history, clock, cfg, e.next.value))
  {
    hide Active;
    var e := RequestStep(t, h, clock, cfg, r, a).value;
    forall hash ensures RowOk(e.table, e.history, clock, hash) { assert RowOk(t, h, clock, hash); }
  }

  lemma FulfillEffect(t: Table, h: History, clock: int, f: FulfillTask, a: Answer)
    requires RowsOk(t, h, clock) && CancelsOk(h, clock) && FulfillOk(t, h, f)
    requires FulfillStep(t, h, clock, f, a).Some?
    ensures var e := FulfillStep(t, h, clock, f, a).value;
            && Grown(t, h, e.table, e.history)
            && e.history == h.(claimed := e.history.claimed, built := e.history.built)
            && RowsOk(e.table, e.history, clock) && CancelsOk(e.history, clock)
            && (e.next.Some? ==>
                  && FulfillOk(e.table, e.history, e.next.value)
                  && e.next.value.hash == f.hash
                  && (Owning(e.next.value) ==> Owning(f) || f.hash !in h.claimed))
  {
    var e := FulfillStep(t, h, clock, f, a).value;
    assert RowOk(t, h, clock, f.hash);
    forall hash ensures RowOk(e.table, e.history, clock, hash) { assert RowOk(t, h, clock, hash); }
  }

  lemma MonitorEffect(t: Table, h: History, clock: int, m: MonitorTask, a: Answer)
    requires RowsOk(t, h, clock) && CancelsOk(h, clock) && MonitorOk(h, clock, m)
    requires MonitorStep(t, h, clock, m, a).Some?
    ensures var e := MonitorStep(t, h, clock, m, a).value;
            && Grown(t, h, e.table, e.history)
            && e.history == h.(selected := e.history.selected, cancels := e.history.cancels)
            && RowsOk(e.table, e.history, clock) && CancelsOk(e.history, clock)
            && (e.next.Some? ==> MonitorOk(e.history, clock, e.next.value))
            && (forall hash :: hash in e.history.selected && hash !in h.selected ==> hash !in h.claimed)
  {
    var e := MonitorStep(t, h, clock, m, a).value;
    forall hash ensures RowOk(e.table, e.history, clock, hash) { assert RowOk(t, h, clock, hash); }
    forall hash | hash in e.history.selected && hash !in h.selected ensures hash !in h.claimed {
      assert RowOk(t, h, clock, hash);
    }
    if m.MonitorSelect? {
      forall k | k in ExpiredPending(t, m.now) ensures Past(h, t[k], m.now) { assert RowOk(t, h, clock, k); }
    }
  }

  /** A task's step keeps the invariant when its effect is in order. */
  lemma EffectKeeps(s: Sys, tid: nat, e: Effect<Task>)
    requires Inv(s) && tid in s.tasks
    requires Grown(s.table, s.history, e.table, e.history)
    requires RowsOk(e.table, e.history, s.clock) && CancelsOk(e.history, s.clock)
    requires forall hash :: hash in e.history.selected && hash !in s.history.selected ==> hash !in s.history.claimed
    requires e.next.Some? ==>
               && TaskOk(Apply(s, tid, e), e.next.value)
               && (forall hash :: Owns(e.next.value, hash) ==> Owns(s.tasks[tid], hash) || hash !in s.history.claimed)
    ensures Inv(Apply(s, tid, e))
  {
    var s' := Apply(s, tid, e);
    forall j | j in s.tasks ensures TaskOk(s', s.tasks[j]) {
      assert TaskOk(s, s.tasks[j]);
      GrownTask(s, s', s.tasks[j]);
    }
    forall j, hash | j in s.tasks && Owns(s.tasks[j], hash) ensures hash in s.history.claimed {
      assert TaskOk(s, s.tasks[j]);
    }
    hide RowsOk, CancelsOk, TaskOk, Grown;
  }

  lemma RequestKeeps(s: Sys, tid: nat, a: Answer)
    requires Inv(s) && Next(s, Advance(tid, a)).Some? && s.tasks[tid].Request?
    ensures Inv(Next(s, Advance(tid, a)).value)
  {
    assert TaskOk(s, s.tasks[tid]);
    hide RowsOk, CancelsOk, Grown, RequestStep, FulfillStep, MonitorStep, RequestOk;
    RequestEffect(s.table, s.history, s.clock, s.cfg, s.tasks[tid].r, a);
    EffectKeeps(s, tid, TaskStep(s.table, s.history, s.clock, s.cfg, s.tasks[tid], a).value);
  }

  lemma FulfillKeeps(s: Sys, tid: nat, a: Answer)
    requires Inv(s) && Next(s, Advance(tid, a)).Some? && s.tasks[tid].Fulfill?
    ensures Inv(Next(s, Advance(tid, a)).value)
  {
    assert TaskOk(s, s.tasks[tid]);
    hide RowsOk, CancelsOk, Grown, RequestStep, FulfillStep, MonitorStep, FulfillOk;
    FulfillEffect(s.table, s.history, s.clock, s.tasks[tid].f, a);
    EffectKeeps(s, tid, TaskStep(s.table, s.history, s.clock, s.cfg, s.tasks[tid], a).value);
  }

  lemma MonitorKeeps(s: Sys, tid: nat, a: Answer)
    requires Inv(s) && Next(s, Advance(tid, a)).Some? && s.tasks[tid].Monitor?
    ensures Inv(Next(s, Advance(tid, a)).value)
  {
    assert TaskOk(s, s.tasks[tid]);
    hide RowsOk, CancelsOk, Grown, RequestStep, FulfillStep, MonitorStep, MonitorOk;
    MonitorEffect(s.table, s.history, s.clock, s.tasks[tid].m, a);
    EffectKeeps(s, tid, TaskStep(s.table, s.history, s.clock, s.cfg, s.tasks[tid], a).value);
  }

  lemma AdvanceKeeps(s: Sys, tid: nat, a: Answer)
    requires Inv(s) && Next(s, Advance(tid, a)).Some?
    ensures Inv(Next(s, Advance(tid, a)).value)
  {
    assert tid in s.tasks;
    hide Inv, Next;
    match s.tasks[tid]
    case Request(r) => RequestKeeps(s, tid, a);
    case Fulfill(f) => FulfillKeeps(s, tid, a);
    case Monitor(m) => MonitorKeeps(s, tid, a);
  }

  lemma RecoveryKeeps(s: Sys, a: Answer)
    requires Inv(s) && Next(s, Recover(a)).Some?
    ensures Inv(Next(s, Recover(a)).value)
  {
    var s' := Next(s, Recover(a)).value;
    assert s'.history == s.history.(rebuilt := s'.history.rebuilt) && Grown(s.table, s.history, s'.table, s'.history);
    forall hash ensures RowOk(s'.table, s'.history, s.clock, hash) { assert RowOk(s.table, s.history, s.clock, hash); }
    forall j | j in s.tasks ensures TaskOk(s', s.tasks[j]) {
      assert TaskOk(s, s.tasks[j]);
      GrownTask(s, s', s.tasks[j]);
    }
    hide RecoveryStep, RowOk, TaskOk, Grown;
  }

  lemma OtherKeeps(s: Sys, s': Sys)
    requires Inv(s) && s'.table == s.table && s'.history == s.history && s.clock <= s'.clock && s'.cfg == s.cfg
    requires forall j :: j in s'.tasks && j !in s.tasks ==>
               TaskOk(s, s'.tasks[j]) && (forall hash :: !Owns(s'.tasks[j], hash))
    requires forall j :: j in s'.tasks && j in s.tasks ==> s'.tasks[j] == s.tasks[j]
    ensures Inv(s')
  {
    forall hash ensures RowOk(s'.table, s'.history, s'.clock, hash) { assert RowOk(s.table, s.history, s.clock, hash); }
    forall j | j in s'.tasks ensures TaskOk(s', s'.tasks[j]) { GrownTask(s, s', s'.tasks[j]); }
    hide RowOk, TaskOk;
  }

  lemma NextKeeps(s: Sys, step: Step)
    requires Inv(s) && Next(s, step).Some?
    ensures Inv(Next(s, step).value)
  {
    hide Inv, TaskStep, RecoveryStep;
    match step
    case Advance(tid, a) => AdvanceKeeps(s, tid, a);
    case Recover(a) => RecoveryKeeps(s, a);
    case _ => OtherKeeps(s, Next(s, step).value);
  }

  lemma {:induction false} RunKeeps(s: Sys, steps: seq<Step>)
    requires Inv(s) && Run(s, steps).Some?
    ensures Inv(Run(s, steps).value)
  {
    if steps != [] {
      hide Inv, Next;
      RunKeeps(s, steps[..|steps| - 1]);
      NextKeeps(Run(s, steps[..|steps| - 1]).value, steps[|steps| - 1]);
    }
  }
}
