/** The Lightning-to-cBTC protocol: the swap request handler of api.rs with cardano_swap.rs, the
    swap monitor of background.rs and the swap recovery of recovery.rs, as tasks that interleave
    at single database statements, clock reads and answers of the outside world. */
module SwapProtocol {
  import opened Common
  import opened SwapTable
  import Amounts

  // ----- tasks ------------------------------------------------------------------------------

  datatype Task = Request(r: RequestTask) | Fulfill(f: FulfillTask) | Monitor(m: MonitorTask)

  /** handle_swap_request, with request_swap and store_swap_mapping */
  datatype RequestTask =
    | RequestCount(amount: int, address: string)
    | RequestClock(amount: int, address: string)
    | RequestCreate(amount: int, address: string, chainExpiry: int)
    | RequestInvoice(amount: int, address: string, invoiceId: int, createTx: string)
    | RequestStamp(amount: int, address: string, invoiceId: int, createTx: string, hash: string)
    | RequestInsert(amount: int, address: string, invoiceId: int, createTx: string, hash: string, expiresAt: int)

  /** fulfill_swap */
  datatype FulfillTask =
    | FulfillRead(hash: string)
    | FulfillClaim(hash: string, row: Row)
    | FulfillClock(hash: string, row: Row)
    | FulfillQuery(hash: string)
    | FulfillSubmit(hash: string, attempt: nat)
    | FulfillDone(hash: string, tx: string)
    | FulfillFail(hash: string)

  /** monitor_expired_swaps */
  datatype MonitorTask =
    | MonitorTick
    | MonitorSelect(now: int)
    | MonitorLoop(now: int, todo: map<string, Row>)
    | MonitorCancel(hash: string, row: Row, now: int, todo: map<string, Row>)
    | MonitorSubmit(hash: string, now: int, todo: map<string, Row>)
    | MonitorMark(hash: string, tx: string, now: int, todo: map<string, Row>)

  datatype Answer =
    | Proceed
    | ChainOk(invoiceId: int, tx: string)
    | ChainErr
    | NewInvoice(paymentHash: string)
    | TxOk(tx: string)
    | TxRetryable
    | TxErr
    | Hit
    | Miss
    | Pick(hash: string)

  /** What the relay has done to the outside world, and what the chain holds because of it. */
  datatype History = History(
    /** swaps a fulfill_swap task has won the compare-and-set for */
    claimed: set<string>,
    /** swaps a fulfill_swap task has built FulfillInvoice for */
    built: set<string>,
    /** swaps recovery has built FulfillInvoice for */
    rebuilt: set<string>,
    /** swaps the monitor has selected for cancelling */
    selected: set<string>,
    /** invoices created on chain, with the expiry sent for each */
    chain: set<(int, int)>,
    /** CancelInvoice requests of the monitor, with the clock it had read */
    cancels: set<(int, int)>)

  datatype Effect<T> = Effect(table: Table, next: Option<T>, history: History)

  function Stop<T>(t: Table, h: History): Option<Effect<T>> { Some(Effect(t, None, h)) }
  function Goto<T>(t: Table, h: History, task: T): Option<Effect<T>> { Some(Effect(t, Some(task), h)) }

  function NewRow(r: RequestTask, now: int): Row
    requires r.RequestInsert?
  {
    Row(r.invoiceId, r.amount, r.address, Pending, now, r.expiresAt, None, Some(r.createTx))
  }

  /** handle_swap_request after its input checks. An INSERT on a taken key panics, which ends the task
      and leaves the table as it was. */
  function RequestStep(t: Table, h: History, clock: int, cfg: Config, r: RequestTask, a: Answer)
    : Option<Effect<RequestTask>>
  {
    match r
    case RequestCount(amount, address) =>
      if a.Proceed? then
        if |Active(t)| >= cfg.maxActive then Stop(t, h) else Goto(t, h, RequestClock(amount, address))
      else None
    case RequestClock(amount, address) =>
      if a.Proceed? then Goto(t, h, RequestCreate(amount, address, clock + cfg.expiry)) else None
    case RequestCreate(amount, address, chainExpiry) =>
      if a.ChainErr? then Stop(t, h)
      else if a.ChainOk? then
        Goto(t, h.(chain := h.chain + {(a.invoiceId, chainExpiry)}), RequestInvoice(amount, address, a.invoiceId, a.tx))
      else None
    case RequestInvoice(amount, address, invoiceId, createTx) =>
      if a.Miss? then Stop(t, h)
      else if a.NewInvoice? then Goto(t, h, RequestStamp(amount, address, invoiceId, createTx, a.paymentHash))
      else None
    case RequestStamp(amount, address, invoiceId, createTx, hash) =>
      if a.Proceed? then
        Goto(t, h, RequestInsert(amount, address, invoiceId, createTx, hash, clock + cfg.expiry))
      else None
    case RequestInsert(_, _, _, _, hash, _) =>
      if a.Proceed? then Stop(if hash in t then t else t[hash := NewRow(r, clock)], h) else None
  }

  function FulfillStep(t: Table, h: History, clock: int, f: FulfillTask, a: Answer): Option<Effect<FulfillTask>> {
    match f
    case FulfillRead(hash) =>
      if a.Proceed? then if hash in t then Goto(t, h, FulfillClaim(hash, t[hash])) else Stop(t, h) else None
    case FulfillClaim(hash, row) =>
      if a.Proceed? then
        if Is(t, hash, Pending) then
          Goto(Transition(t, hash, Pending, Fulfilling, None), h.(claimed := h.claimed + {hash}),
               FulfillClock(hash, row))
        else Stop(t, h)
      else None
    case FulfillClock(hash, row) =>
      if a.Proceed? then
        if clock > row.expiresAt then Goto(t, h, FulfillFail(hash)) else Goto(t, h, FulfillQuery(hash))
      else None
    case FulfillQuery(hash) =>
      if a.Hit? then Goto(t, h, FulfillSubmit(hash, 0))
      else if a.Miss? then Goto(t, h, FulfillFail(hash))
      else None
    case FulfillSubmit(hash, attempt) =>
      var h' := h.(built := h.built + {hash});
      if a.TxOk? then Goto(t, h', FulfillDone(hash, a.tx))
      else if a.TxRetryable? && attempt + 1 < 3 then Goto(t, h', FulfillSubmit(hash, attempt + 1))
      else if a.TxErr? || a.TxRetryable? then Goto(t, h', FulfillFail(hash))
      else None
    case FulfillDone(hash, tx) =>
      if a.Proceed? then Stop(Update(t, hash, Completed, Some(tx)), h) else None
    case FulfillFail(hash) =>
      if a.Proceed? then Stop(Update(t, hash, Failed, None), h) else None
  }

  function MonitorStep(t: Table, h: History, clock: int, m: MonitorTask, a: Answer): Option<Effect<MonitorTask>> {
    match m
    case MonitorTick =>
      if a.Proceed? then Goto(t, h, MonitorSelect(clock)) else None
    case MonitorSelect(now) =>
      var expired := ExpiredPending(t, now);
      if a.Proceed? then Goto(t, h.(selected := h.selected + expired.Keys), MonitorLoop(now, expired)) else None
    case MonitorLoop(now, todo) =>
      if todo == map[] then (if a.Proceed? then Goto(t, h, MonitorTick) else None)
      else if a.Pick? && a.hash in todo then Goto(t, h, MonitorCancel(a.hash, todo[a.hash], now, todo - {a.hash}))
      else None
    case MonitorCancel(hash, row, now, todo) =>
      var h' := h.(cancels := h.cancels + {(row.invoiceId, now)});
      if a.TxOk? then Goto(t, h', MonitorSubmit(hash, now, todo))
      else if a.TxErr? then Goto(t, h', MonitorLoop(now, todo))
      else None
    case MonitorSubmit(hash, now, todo) =>
      if a.TxOk? then Goto(t, h, MonitorMark(hash, a.tx, now, todo))
      else if a.TxErr? then Goto(t, h, MonitorLoop(now, todo))
      else None
    case MonitorMark(hash, tx, now, todo) =>
      if a.Proceed? then Goto(Update(t, hash, Expired, Some(tx)), h, MonitorLoop(now, todo)) else None
  }

  function TaskStep(t: Table, h: History, clock: int, cfg: Config, task: Task, a: Answer): Option<Effect<Task>> {
    match task
    case Request(r) =>
      var e := RequestStep(t, h, clock, cfg, r, a);
      if e.None? then None
      else Some(Effect(e.value.table, if e.value.next.Some? then Some(Request(e.value.next.value)) else None,
                       e.value.history))
    case Fulfill(f) =>
      var e := FulfillStep(t, h, clock, f, a);
      if e.None? then None
      else Some(Effect(e.value.table, if e.value.next.Some? then Some(Fulfill(e.value.next.value)) else None,
                       e.value.history))
    case Monitor(m) =>
      var e := MonitorStep(t, h, clock, m, a);
      if e.None? then None
      else Some(Effect(e.value.table, if e.value.next.Some? then Some(Monitor(e.value.next.value)) else None,
                       e.value.history))
  }

  // ----- recovery ---------------------------------------------------------------------------

  /** The next statement of recover_fulfilling_swaps; `todo` is what is left of the rows it
      selected, taken in any order. */
  datatype Recovery =
    | ScanFulfilling
    | RetryFulfilling(todo: set<string>)
    | SubmitFulfilling(hash: string, todo: set<string>)
    | CompleteFulfilling(hash: string, tx: Option<string>, todo: set<string>)
    | RecoveryDone

  datatype RecoveryEffect = RecoveryEffect(table: Table, next: Recovery, history: History)

  function RecoveryStep(t: Table, h: History, rec: Recovery, a: Answer): Option<RecoveryEffect> {
    match rec
    case ScanFulfilling => Some(RecoveryEffect(t, RetryFulfilling(ByStatus(t, Fulfilling)), h))
    case RetryFulfilling(todo) =>
      if todo == {} then Some(RecoveryEffect(t, RecoveryDone, h))
      else if a.Pick? && a.hash in todo then Some(RecoveryEffect(t, SubmitFulfilling(a.hash, todo - {a.hash}), h))
      else None
    case SubmitFulfilling(hash, todo) =>
      // Miss: the invoice was not found on chain, or every lookup failed
      var h' := h.(rebuilt := h.rebuilt + {hash});
      if a.Miss? then Some(RecoveryEffect(t, CompleteFulfilling(hash, None, todo), h))
      else if a.TxOk? then Some(RecoveryEffect(t, CompleteFulfilling(hash, Some(a.tx), todo), h'))
      else if a.TxErr? then Some(RecoveryEffect(t, RetryFulfilling(todo), h'))
      else None
    case CompleteFulfilling(hash, tx, todo) =>
      Some(RecoveryEffect(Update(t, hash, Completed, tx), RetryFulfilling(todo), h))
    case RecoveryDone => None
  }

  // ----- the whole relay --------------------------------------------------------------------

  datatype Phase = Recovering(rec: Recovery) | MonitorUp | Serving

  datatype Sys = Sys(table: Table, tasks: map<nat, Task>, phase: Phase, clock: int, cfg: Config, history: History)

  datatype Step =
    | Tick(elapsed: nat)
    | Crash
    | Drop(tid: nat)
    | Recover(a: Answer)
    | StartMonitor(tid: nat)
    | StartApi
    | HttpRequest(tid: nat, amount: int, address: string)
    | PaymentClaimed(tid: nat, hash: string)
    | Advance(tid: nat, a: Answer)

  function Spawn(s: Sys, tid: nat, task: Task): Option<Sys> {
    if tid in s.tasks then None else Some(s.(tasks := s.tasks[tid := task]))
  }

  function Apply(s: Sys, tid: nat, e: Effect<Task>): Sys
    requires tid in s.tasks
  {
    s.(table := e.table,
       tasks := if e.next.Some? then s.tasks[tid := e.next.value] else s.tasks - {tid},
       history := e.history)
  }

  /** One step of the relay, or None when the step cannot be taken. */
  function Next(s: Sys, step: Step): Option<Sys> {
    match step
    case Tick(elapsed) => Some(s.(clock := s.clock + elapsed))
    case Crash => Some(s.(tasks := map[], phase := Recovering(ScanFulfilling)))
    case Drop(tid) => Some(s.(tasks := s.tasks - {tid}))
    case Recover(a) =>
      if s.phase.Recovering? then
        var e := RecoveryStep(s.table, s.history, s.phase.rec, a);
        if e.None? then None
        else Some(s.(table := e.value.table, phase := Recovering(e.value.next), history := e.value.history))
      else None
    case StartMonitor(tid) =>
      if s.phase == Recovering(RecoveryDone) then Spawn(s.(phase := MonitorUp), tid, Monitor(MonitorTick)) else None
    case StartApi =>
      if s.phase == MonitorUp then Some(s.(phase := Serving)) else None
    case HttpRequest(tid, amount, address) =>
      if s.phase == Serving && 0 < amount <= Amounts.MAX_AMOUNT_CBTC then
        Spawn(s, tid, Request(RequestCount(amount, address)))
      else None
    case PaymentClaimed(tid, hash) => Spawn(s, tid, Fulfill(FulfillRead(hash)))
    case Advance(tid, a) =>
      if tid in s.tasks then
        var e := TaskStep(s.table, s.history, s.clock, s.cfg, s.tasks[tid], a);
        if e.None? then None else Some(Apply(s, tid, e.value))
      else None
  }

  const NO_HISTORY := History({}, {}, {}, {}, {}, {})

  /** A relay started for the first time, on an empty database. */
  function Init(clock: int, cfg: Config): Sys {
    Sys(map[], map[], Recovering(ScanFulfilling), clock, cfg, NO_HISTORY)
  }

  function Run(s: Sys, steps: seq<Step>): Option<Sys> {
    if steps == [] then Some(s)
    else
      var before := Run(s, steps[..|steps| - 1]);
      if before.None? then None else Next(before.value, steps[|steps| - 1])
  }
}
