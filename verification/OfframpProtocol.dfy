/** The cBTC-to-Lightning protocol: every handler of cardano_offramp.rs, the offramp monitor of
    background.rs and the offramp recovery of recovery.rs, as tasks that interleave at single
    database statements and single answers of the outside world. */
module OfframpProtocol {
  import opened Common
  import opened OfframpTable
  import Amounts

  // ----- what the relay does to the outside world ------------------------------------------

  /** One entry per effect; the relay only ever appends. */
  datatype Event =
    /** CreateOfframp was submitted with this on-chain expiry. */
    | ChainCreated(id: int, expiresAt: int)
    /** `verify_cbtc_received(tx, amount)` answered true. */
    | DepositVerified(id: int, tx: string, amount: int)
    /** The compare-and-set into PayingLightning succeeded. */
    | EnteredPaying(id: int)
    /** The Lightning node was asked to pay. */
    | PaymentStarted(id: int, msat: nat, tx: string)
    /** `complete_offramp` won the compare-and-set out of PayingLightning. */
    | CompleteWon(id: int)
    /** Recovery won the compare-and-set out of PayingLightning. */
    | RecoveryWon(id: int)
    /** A FulfillOfframp transaction was built. */
    | FulfillBuilt(id: int)
    /** The expiry monitor asked for a CancelOfframp transaction, having read clock `now`. */
    | MonitorCancel(id: int, now: int)

  datatype Kind = Created | Verified | Entered | Started | Won | Recovered | Built | Cancelled

  function KindOf(e: Event): Kind {
    match e
    case ChainCreated(_, _) => Created
    case DepositVerified(_, _, _) => Verified
    case EnteredPaying(_) => Entered
    case PaymentStarted(_, _, _) => Started
    case CompleteWon(_) => Won
    case RecoveryWon(_) => Recovered
    case FulfillBuilt(_) => Built
    case MonitorCancel(_, _) => Cancelled
  }

  /** How many effects of one kind concern one offramp. */
  function Count(log: seq<Event>, k: Kind, id: int): nat {
    if log == [] then 0
    else
      var e := log[|log| - 1];
      Count(log[..|log| - 1], k, id) + if KindOf(e) == k && e.id == id then 1 else 0
  }

  // ----- tasks ------------------------------------------------------------------------------

  /** A task is its next statement together with the locals still needed. */
  datatype Task =
    | Request(r: RequestTask)
    | Deposit(d: DepositTask)
    | Complete(c: CompleteTask)
    | Failure(f: FailureTask)

  /** handle_offramp_request, with request_offramp */
  datatype RequestTask =
    | RequestCount(invoice: Invoice, amount: int, refund: string)
    | RequestCheck(invoice: Invoice, amount: int, refund: string)
    | RequestClock(invoice: Invoice, amount: int, refund: string)
    | RequestSubmit(invoice: Invoice, amount: int, refund: string, now: int, expiresAt: int)
    | RequestInsert(invoice: Invoice, amount: int, refund: string, now: int, expiresAt: int, id: int, createTx: string)

  /** process_offramp_deposit */
  datatype DepositTask =
    | DepositRead(id: int, tx: string)
    | DepositReuse(id: int, tx: string, row: Row)
    | DepositClaim(id: int, tx: string, row: Row)
    | DepositVerify(id: int, tx: string, row: Row)
    | DepositRevert(id: int, tx: string, row: Row, message: Option<string>)
    | DepositConfirm(id: int, tx: string, row: Row)
    | DepositPay(id: int, tx: string, row: Row)
    | DepositFail(id: int, tx: string, row: Row)

  /** complete_offramp */
  datatype CompleteTask =
    | CompleteRead(hash: string, image: string)
    | CompleteClaim(id: int, image: string)
    | CompleteStore(id: int, image: string)
    | CompleteQuery(id: int)
    | CompleteSubmit(id: int, attempt: nat)
    | CompleteDone(id: int, depositTx: string)
    | CompleteFail(id: int)

  /** handle_offramp_payment_failed, cancel_offramp_on_chain and monitor_expired_offramps */
  datatype FailureTask =
    | FailedRead(hash: string)
    | FailedRefund(id: int, row: Row)
    | FailedMark(id: int, row: Row, note: string)
    | CancelBuild(id: int, cont: Continuation)
    | CancelSubmit(id: int, cont: Continuation)
    | CancelRead(id: int, cont: Continuation, cancelTx: string)
    | CancelMark(id: int, note: string, cont: Continuation)
    | MonitorTick
    | MonitorSelect(now: int)
    | MonitorLoop(now: int, todo: map<int, Row>)

  /** Where `cancel_offramp_on_chain` returns to. */
  datatype Continuation = Return | Monitor(now: int, todo: map<int, Row>)

  function Resume(cont: Continuation): Option<FailureTask> {
    match cont
    case Return => None
    case Monitor(now, todo) => Some(MonitorLoop(now, todo))
  }

  /** The answer the outside world gives at a step, or the row a SELECT returns. */
  datatype Answer =
    | Proceed
    | Selected(found: Option<int>)
    | ChainOk(newId: int, tx: string)
    | ChainErr
    | VerifyErr
    | NotReceived
    | Received
    | TxOk(hash: string)
    | TxRetryable
    | TxErr
    | Hit
    | Miss
    | Pick(id: int)

  datatype Effect<T> = Effect(table: Table, next: Option<T>, event: Option<Event>)

  function Stop<T>(t: Table): Option<Effect<T>> { Some(Effect(t, None, None)) }
  function Goto<T>(t: Table, task: T): Option<Effect<T>> { Some(Effect(t, Some(task), None)) }

  /** The amount checks of `request_offramp`. */
  predicate AmountOk(invoice: Invoice, amount: int) {
    var required := Amounts.CbtcToMsat(amount);
    required.Some? && (invoice.amountMsat.Some? ==> invoice.amountMsat == required)
  }

  /** The amounts a request is granted on, in plain arithmetic. */
  predicate AmountsAgree(invoice: Invoice, amount: int) {
    && 0 < amount && 1000 * amount <= 0xFFFF_FFFF_FFFF_FFFF
    && (invoice.amountMsat.None? || invoice.amountMsat.value == 1000 * amount)
  }

  lemma AmountOkIff(invoice: Invoice, amount: int)
    ensures AmountOk(invoice, amount) <==> AmountsAgree(invoice, amount)
    ensures AmountOk(invoice, amount) ==> Amounts.CbtcToMsat(amount) == Some(1000 * amount)
  {
  }

  function NewRow(task: RequestTask): Row
    requires task.RequestInsert?
  {
    Row(task.invoice, task.invoice.paymentHash, task.amount, "", AwaitingDeposit, task.now,
        None, None, None, Some(task.createTx), task.refund, task.expiresAt)
  }

  /** handle_offramp_request, with request_offramp. An INSERT on a taken key panics, which ends the task
      and leaves the table as it was. */
  function RequestStep(t: Table, clock: int, cfg: Config, task: RequestTask, a: Answer): Option<Effect<RequestTask>> {
    match task
    case RequestCount(invoice, amount, refund) =>
      if a.Proceed? then
        if |Active(t)| >= cfg.maxActive then Stop(t) else Goto(t, RequestCheck(invoice, amount, refund))
      else None
    case RequestCheck(invoice, amount, refund) =>
      if a.Selected? && FoundByHash(t, invoice.paymentHash, a.found) then
        if a.found.Some? || !AmountOk(invoice, amount) then Stop(t)
        else Goto(t, RequestClock(invoice, amount, refund))
      else None
    case RequestClock(invoice, amount, refund) =>
      if a.Proceed? then Goto(t, RequestSubmit(invoice, amount, refund, clock, clock + cfg.expiry)) else None
    case RequestSubmit(invoice, amount, refund, now, expiresAt) =>
      if a.ChainErr? then Stop(t)
      else if a.ChainOk? then
        Some(Effect(t, Some(RequestInsert(invoice, amount, refund, now, expiresAt, a.newId, a.tx)),
                    Some(ChainCreated(a.newId, expiresAt))))
      else None
    case RequestInsert(_, _, _, _, _, id, _) =>
      if a.Proceed? then Stop(if id in t then t else t[id := NewRow(task)]) else None
  }

  /** process_offramp_deposit */
  function DepositStep(t: Table, task: DepositTask, a: Answer): Option<Effect<DepositTask>> {
    match task
    case DepositRead(id, tx) =>
      if a.Proceed? then if id in t then Goto(t, DepositReuse(id, tx, t[id])) else Stop(t) else None
    case DepositReuse(id, tx, row) =>
      if a.Selected? && FoundByTx(t, tx, a.found) then
        if a.found.Some? && a.found.value != id then Stop(t) else Goto(t, DepositClaim(id, tx, row))
      else None
    case DepositClaim(id, tx, row) =>
      if a.Proceed? then
        if Is(t, id, AwaitingDeposit) then
          Goto(Transition(t, id, AwaitingDeposit, PendingVerification), DepositVerify(id, tx, row))
        else Stop(t)
      else None
    case DepositVerify(id, tx, row) =>
      if a.VerifyErr? then Goto(t, DepositRevert(id, tx, row, None))
      else if a.NotReceived? then Goto(t, DepositRevert(id, tx, row, Some("cBTC not received at operator address")))
      else if a.Received? then
        Some(Effect(t, Some(DepositConfirm(id, tx, row)), Some(DepositVerified(id, tx, row.amountCbtc))))
      else None
    case DepositRevert(id, tx, row, message) =>
      if a.Proceed? then Stop(Update(t, id, AwaitingDeposit, None, None, message)) else None
    case DepositConfirm(id, tx, row) =>
      if a.Proceed? then
        if Is(t, id, PendingVerification) then
          Some(Effect(TransitionWithTx(t, id, tx, PendingVerification, PayingLightning),
                      Some(DepositPay(id, tx, row)), Some(EnteredPaying(id))))
        else Stop(t)
      else None
    case DepositPay(id, tx, row) =>
      var required := Amounts.CbtcToMsat(row.amountCbtc);
      if required.None? then (if a.Proceed? then Stop(t) else None)
      else
        var msat := Amounts.SelectAmount(row.bolt11.amountMsat, required);
        if msat.None? then (if a.Proceed? then Goto(t, DepositFail(id, tx, row)) else None)
        else if a.Hit? then Some(Effect(t, None, Some(PaymentStarted(id, msat.value, tx))))
        else if a.Miss? then
          Some(Effect(t, Some(DepositFail(id, tx, row)), Some(PaymentStarted(id, msat.value, tx))))
        else None
    case DepositFail(id, _, _) =>
      if a.Proceed? then
        Stop(Update(t, id, Failed, None, None, Some("Lightning payment initiation failed")))
      else None
  }

  /** complete_offramp: FulfillOfframp is built at most three times. */
  function CompleteStep(t: Table, task: CompleteTask, a: Answer): Option<Effect<CompleteTask>> {
    match task
    case CompleteRead(hash, image) =>
      if a.Selected? && FoundByHash(t, hash, a.found) then
        if a.found.Some? then Goto(t, CompleteClaim(a.found.value, image)) else Stop(t)
      else None
    case CompleteClaim(id, image) =>
      if a.Proceed? then
        if Is(t, id, PayingLightning) then
          Some(Effect(Transition(t, id, PayingLightning, DepositingToPool),
                      Some(CompleteStore(id, image)), Some(CompleteWon(id))))
        else Stop(t)
      else None
    case CompleteStore(id, image) =>
      if a.Proceed? then
        Goto(Update(t, id, DepositingToPool, Some(image), None, None), CompleteQuery(id))
      else None
    case CompleteQuery(id) =>
      if a.Hit? then Goto(t, CompleteSubmit(id, 0))
      else if a.Miss? then Goto(t, CompleteFail(id))
      else None
    case CompleteSubmit(id, attempt) =>
      if a.TxOk? then Some(Effect(t, Some(CompleteDone(id, a.hash)), Some(FulfillBuilt(id))))
      else if a.TxRetryable? && attempt + 1 < 3 then
        Some(Effect(t, Some(CompleteSubmit(id, attempt + 1)), Some(FulfillBuilt(id))))
      else if a.TxErr? || a.TxRetryable? then Some(Effect(t, Some(CompleteFail(id)), Some(FulfillBuilt(id))))
      else None
    case CompleteDone(id, depositTx) =>
      if a.Proceed? then Stop(Update(t, id, Completed, None, Some(depositTx), None)) else None
    case CompleteFail(id) =>
      if a.Proceed? then Stop(Update(t, id, Failed, None, None, Some("FulfillOfframp failed"))) else None
  }

  /** handle_offramp_payment_failed, cancel_offramp_on_chain and monitor_expired_offramps */
  function FailureStep(t: Table, clock: int, task: FailureTask, a: Answer): Option<Effect<FailureTask>> {
    match task
    case FailedRead(hash) =>
      if a.Selected? && FoundByHash(t, hash, a.found) then
        if a.found.None? then Stop(t)
        else
          var row := t[a.found.value];
          if row.refundAddress != "" then Goto(t, FailedRefund(a.found.value, row))
          else Goto(t, FailedMark(a.found.value, row, "Lightning payment failed, no refund address available"))
      else None
    case FailedRefund(id, row) =>
      if a.TxOk? then Goto(t, FailedMark(id, row, "Lightning payment failed, cBTC refunded: " + a.hash))
      else if a.TxErr? then Goto(t, FailedMark(id, row, "Lightning payment failed, refund failed"))
      else None
    case FailedMark(id, row, note) =>
      if a.Proceed? then
        Goto(Update(t, id, Failed, None, None, Some(note)), CancelBuild(id, Return))
      else None
    case CancelBuild(id, cont) =>
      var event := if cont.Monitor? then Some(MonitorCancel(id, cont.now)) else None;
      if a.TxOk? then Some(Effect(t, Some(CancelSubmit(id, cont)), event))
      else if a.TxErr? then Some(Effect(t, Resume(cont), event))
      else None
    case CancelSubmit(id, cont) =>
      if a.TxOk? then Goto(t, CancelRead(id, cont, a.hash))
      else if a.TxErr? then Some(Effect(t, Resume(cont), None))
      else None
    case CancelRead(id, cont, cancelTx) =>
      if a.Proceed? then
        var existing := if id in t && t[id].errorMessage.Some? then t[id].errorMessage.value else "";
        Goto(t, CancelMark(id, if existing == "" then "cancelled on-chain: " + cancelTx
                               else existing + "; cancelled on-chain: " + cancelTx, cont))
      else None
    case CancelMark(id, note, cont) =>
      if a.Proceed? then Some(Effect(Update(t, id, Failed, None, None, Some(note)), Resume(cont), None))
      else None
    case MonitorTick =>
      if a.Proceed? then Goto(t, MonitorSelect(clock)) else None
    case MonitorSelect(now) =>
      if a.Proceed? then Goto(t, MonitorLoop(now, Expired(t, now))) else None
    case MonitorLoop(now, todo) =>
      if todo == map[] then (if a.Proceed? then Goto(t, MonitorTick) else None)
      else if a.Pick? && a.id in todo then
        Goto(t, CancelBuild(a.id, Monitor(now, todo - {a.id})))
      else None
  }

  function TaskStep(t: Table, clock: int, cfg: Config, task: Task, a: Answer): Option<Effect<Task>> {
    match task
    case Request(r) =>
      var e := RequestStep(t, clock, cfg, r, a);
      if e.None? then None
      else Some(Effect(e.value.table, if e.value.next.Some? then Some(Request(e.value.next.value)) else None,
                       e.value.event))
    case Deposit(d) =>
      var e := DepositStep(t, d, a);
      if e.None? then None
      else Some(Effect(e.value.table, if e.value.next.Some? then Some(Deposit(e.value.next.value)) else None,
                       e.value.event))
    case Complete(c) =>
      var e := CompleteStep(t, c, a);
      if e.None? then None
      else Some(Effect(e.value.table, if e.value.next.Some? then Some(Complete(e.value.next.value)) else None,
                       e.value.event))
    case Failure(f) =>
      var e := FailureStep(t, clock, f, a);
      if e.None? then None
      else Some(Effect(e.value.table, if e.value.next.Some? then Some(Failure(e.value.next.value)) else None,
                       e.value.event))
  }

  // ----- recovery ---------------------------------------------------------------------------

  /** The next statement of recover_depositing_offramps; `todo` is what is left of the rows it
      selected, taken in any order. */
  datatype Recovery =
    | ScanVerifying
    | ResetVerifying(todo: set<int>)
    | ScanPaying
    | FailPaying(todo: set<int>)
    | NotePaying(id: int, todo: set<int>)
    | ScanDepositing
    | RetryDepositing(todo: set<int>)
    | SubmitDepositing(id: int, todo: set<int>)
    | CompleteDepositing(id: int, todo: set<int>)
    | RecoveryDone

  const CRASHED := "relay crashed during Lightning payment, awaiting expiry for on-chain cancel"

  datatype RecoveryEffect = RecoveryEffect(table: Table, next: Recovery, event: Option<Event>)

  function Continue(t: Table, next: Recovery): Option<RecoveryEffect> {
    Some(RecoveryEffect(t, next, None))
  }

  function RecoveryStep(t: Table, rec: Recovery, a: Answer): Option<RecoveryEffect> {
    match rec
    case ScanVerifying => Continue(t, ResetVerifying(ByStatus(t, PendingVerification)))
    case ResetVerifying(todo) =>
      if todo == {} then Continue(t, ScanPaying)
      else if a.Pick? && a.id in todo then
        Continue(Transition(t, a.id, PendingVerification, AwaitingDeposit), ResetVerifying(todo - {a.id}))
      else None
    case ScanPaying => Continue(t, FailPaying(ByStatus(t, PayingLightning)))
    case FailPaying(todo) =>
      if todo == {} then Continue(t, ScanDepositing)
      else if a.Pick? && a.id in todo then
        if Is(t, a.id, PayingLightning) then
          Some(RecoveryEffect(Transition(t, a.id, PayingLightning, Failed),
                              NotePaying(a.id, todo - {a.id}), Some(RecoveryWon(a.id))))
        else Continue(t, FailPaying(todo - {a.id}))
      else None
    case NotePaying(id, todo) =>
      Continue(Update(t, id, Failed, None, None, Some(CRASHED)), FailPaying(todo))
    case ScanDepositing => Continue(t, RetryDepositing(ByStatus(t, DepositingToPool)))
    case RetryDepositing(todo) =>
      if todo == {} then Continue(t, RecoveryDone)
      else if a.Pick? && a.id in todo then Continue(t, SubmitDepositing(a.id, todo - {a.id}))
      else None
    case SubmitDepositing(id, todo) =>
      // Miss: the entry was not found on chain, or every lookup failed
      if a.Miss? then Continue(t, CompleteDepositing(id, todo))
      else if a.TxOk? then Some(RecoveryEffect(t, CompleteDepositing(id, todo), Some(FulfillBuilt(id))))
      else if a.TxErr? then Some(RecoveryEffect(t, RetryDepositing(todo), Some(FulfillBuilt(id))))
      else None
    case CompleteDepositing(id, todo) =>
      Continue(Update(t, id, Completed, None, None, None), RetryDepositing(todo))
    case RecoveryDone => None
  }

  // ----- the whole relay --------------------------------------------------------------------

  /** Startup order: event handlers run from the start, recovery to completion, then the monitor,
      then the API. */
  datatype Phase = Recovering(rec: Recovery) | MonitorUp | Serving

  datatype Sys = Sys(table: Table, tasks: map<nat, Task>, phase: Phase, clock: int, cfg: Config, log: seq<Event>)

  datatype Step =
    | Tick(elapsed: nat)
    | Crash
    | Drop(tid: nat)
    | Recover(a: Answer)
    | StartMonitor(tid: nat)
    | StartApi
    | HttpRequest(tid: nat, invoice: Invoice, amount: int, refund: string)
    | HttpDeposit(tid: nat, id: int, tx: string)
    | PaymentSent(tid: nat, hash: string, image: string)
    | PaymentFailed(tid: nat, hash: string)
    | Advance(tid: nat, a: Answer)

  function Append(log: seq<Event>, e: Option<Event>): seq<Event> {
    if e.Some? then log + [e.value] else log
  }

  function Spawn(s: Sys, tid: nat, task: Task): Option<Sys> {
    if tid in s.tasks then None else Some(s.(tasks := s.tasks[tid := task]))
  }

  function Apply(s: Sys, tid: nat, e: Effect<Task>): Sys
    requires tid in s.tasks
  {
    s.(table := e.table,
       tasks := if e.next.Some? then s.tasks[tid := e.next.value] else s.tasks - {tid},
       log := Append(s.log, e.event))
  }

  const MAX_TX_HASH_LEN := 128

  /** One step of the relay, or None when the step cannot be taken. */
  function Next(s: Sys, step: Step): Option<Sys> {
    match step
    case Tick(elapsed) => Some(s.(clock := s.clock + elapsed))
    case Crash => Some(s.(tasks := map[], phase := Recovering(ScanVerifying)))
    case Drop(tid) => Some(s.(tasks := s.tasks - {tid}))
    case Recover(a) =>
      if s.phase.Recovering? then
        var e := RecoveryStep(s.table, s.phase.rec, a);
        if e.None? then None
        else Some(s.(table := e.value.table, phase := Recovering(e.value.next), log := Append(s.log, e.value.event)))
      else None
    case StartMonitor(tid) =>
      if s.phase == Recovering(RecoveryDone) then Spawn(s.(phase := MonitorUp), tid, Failure(MonitorTick)) else None
    case StartApi =>
      if s.phase == MonitorUp then Some(s.(phase := Serving)) else None
    case HttpRequest(tid, invoice, amount, refund) =>
      if s.phase == Serving && 0 < amount <= Amounts.MAX_AMOUNT_CBTC then
        Spawn(s, tid, Request(RequestCount(invoice, amount, refund)))
      else None
    case HttpDeposit(tid, id, tx) =>
      if s.phase == Serving && 0 < id && 0 < |tx| <= MAX_TX_HASH_LEN then
        Spawn(s, tid, Deposit(DepositRead(id, tx)))
      else None
    case PaymentSent(tid, hash, image) => Spawn(s, tid, Complete(CompleteRead(hash, image)))
    case PaymentFailed(tid, hash) => Spawn(s, tid, Failure(FailedRead(hash)))
    case Advance(tid, a) =>
      if tid in s.tasks then
        var e := TaskStep(s.table, s.clock, s.cfg, s.tasks[tid], a);
        if e.None? then None else Some(Apply(s, tid, e.value))
      else None
  }

  /** A relay started for the first time, on an empty database. */
  function Init(clock: int, cfg: Config): Sys {
    Sys(map[], map[], Recovering(ScanVerifying), clock, cfg, [])
  }

  /** The state after a sequence of steps, or None when some step cannot be taken. */
  function Run(s: Sys, steps: seq<Step>): Option<Sys> {
    if steps == [] then Some(s)
    else
      var before := Run(s, steps[..|steps| - 1]);
      if before.None? then None else Next(before.value, steps[|steps| - 1])
  }
}
