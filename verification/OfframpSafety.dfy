/** What every run of the offramp protocol keeps, whatever the interleaving, dropped tasks and crashes.
    The invariant is stated one offramp at a time, over the `View` of that offramp. */
module OfframpSafety {
  import opened Common
  import opened OfframpTable
  import opened OfframpProtocol
  import Amounts

  // ----- one offramp at a time --------------------------------------------------------------

  /** Everything the tables and the log say about one offramp. */
  datatype View = View(row: Option<Row>, entered: nat, started: nat, won: nat, recovered: nat, built: nat,
                       verified: set<(string, int)>)

  function Deposits(log: seq<Event>, id: int): set<(string, int)> {
    set e | e in log && e.DepositVerified? && e.id == id :: (e.tx, e.amount)
  }

  function Lookup(t: Table, id: int): Option<Row> {
    if id in t then Some(t[id]) else None
  }

  function ViewOf(t: Table, log: seq<Event>, id: int): View {
    View(Lookup(t, id), Count(log, Entered, id), Count(log, Started, id), Count(log, Won, id),
         Count(log, Recovered, id), Count(log, Built, id), Deposits(log, id))
  }

  function Post(v: View, e: Event): View {
    match e
    case DepositVerified(_, tx, amount) => v.(verified := v.verified + {(tx, amount)})
    case EnteredPaying(_) => v.(entered := v.entered + 1)
    case PaymentStarted(_, _, _) => v.(started := v.started + 1)
    case CompleteWon(_) => v.(won := v.won + 1)
    case RecoveryWon(_) => v.(recovered := v.recovered + 1)
    case FulfillBuilt(_) => v.(built := v.built + 1)
    case _ => v
  }

  lemma CountAppend(log: seq<Event>, e: Event, k: Kind, id: int)
    ensures Count(log + [e], k, id) == Count(log, k, id) + if KindOf(e) == k && e.id == id then 1 else 0
  {
    assert (log + [e])[..|log|] == log;
  }

  lemma DepositsAppend(log: seq<Event>, e: Event, id: int)
    ensures Deposits(log + [e], id) ==
            Deposits(log, id) + if e.DepositVerified? && e.id == id then {(e.tx, e.amount)} else {}
  {
    assert forall x :: x in log + [e] <==> x in log || x == e;
  }

  lemma ViewAppend(t: Table, log: seq<Event>, e: Event, id: int)
    ensures ViewOf(t, log + [e], id) == if e.id == id then Post(ViewOf(t, log, id), e) else ViewOf(t, log, id)
  {
    CountAppend(log, e, Entered, id);
    CountAppend(log, e, Started, id);
    CountAppend(log, e, Won, id);
    CountAppend(log, e, Recovered, id);
    CountAppend(log, e, Built, id);
    DepositsAppend(log, e, id);
  }

  // ----- the invariant ----------------------------------------------------------------------

  ghost predicate RowOk(v: View) {
    && v.won + v.recovered + (if v.row.Some? && v.row.value.status == PayingLightning then 1 else 0) <= v.entered <= 1
    && v.started <= v.entered
    && (v.built > 0 ==> v.won == 1)
    && (v.row.None? ==> v.entered == 0)
    && (v.row.Some? ==>
          var row := v.row.value;
          && AmountOk(row.bolt11, row.amountCbtc)
          && (row.status in {AwaitingDeposit, PendingVerification} ==> v.entered == 0)
          && (row.status in {DepositingToPool, Completed} ==> v.won == 1)
          && (row.preimage.Some? ==> v.won == 1)
          && (row.depositTxHash.Some? ==> row.preimage.Some?)
          && (row.cbtcTxHash != "" <==> v.entered == 1)
          && (row.cbtcTxHash != "" ==> (row.cbtcTxHash, row.amountCbtc) in v.verified))
  }

  /** Between the two compare-and-sets of process_offramp_deposit. */
  predicate Verifying(d: DepositTask) {
    d.DepositVerify? || d.DepositRevert? || d.DepositConfirm?
  }

  /** Between the first compare-and-set and the call that pays. */
  predicate Holding(d: DepositTask) {
    Verifying(d) || d.DepositPay?
  }

  predicate Holds(task: Task, id: int) {
    task.Deposit? && Holding(task.d) && task.d.id == id
  }

  /** Past the winning compare-and-set of complete_offramp. */
  predicate Owning(c: CompleteTask) {
    !c.CompleteRead? && !c.CompleteClaim?
  }

  predicate Owns(task: Task, id: int) {
    task.Complete? && Owning(task.c) && task.c.id == id
  }

  /** The offramp a deposit or completion task works on; 0 for any other task. */
  function Subject(task: Task): int {
    match task
    case Deposit(d) => d.id
    case Complete(c) => if Owning(c) then c.id else 0
    case _ => 0
  }

  /** A deposit task's copy of the row agrees with the row on what never changes. */
  predicate Copies(row: Row, v: View) {
    v.row.Some? && row.amountCbtc == v.row.value.amountCbtc && row.bolt11 == v.row.value.bolt11
  }

  predicate RequestOk(r: RequestTask) {
    r.RequestCount? || r.RequestCheck? || AmountOk(r.invoice, r.amount)
  }

  ghost predicate DepositOk(v: View, d: DepositTask) {
    && d.tx != ""
    && (!d.DepositRead? ==> Copies(d.row, v))
    && (Verifying(d) ==> v.entered == 0 && v.row.value.status != AwaitingDeposit)
    && (d.DepositConfirm? ==> (d.tx, d.row.amountCbtc) in v.verified)
    && (d.DepositPay? ==> v.entered == 1 && v.started == 0 && v.row.value.cbtcTxHash == d.tx)
  }

  ghost predicate CompleteOk(v: View, c: CompleteTask) {
    Owning(c) ==>
      && v.won == 1
      && v.row.Some?
      && v.row.value.depositTxHash.None?
      && (c.CompleteStore? <==> v.row.value.preimage.None?)
  }

  ghost predicate TaskOk(v: View, task: Task) {
    match task
    case Request(r) => RequestOk(r)
    case Deposit(d) => DepositOk(v, d)
    case Complete(c) => CompleteOk(v, c)
    case Failure(_) => true
  }

  /** The rows recovery has selected from DepositingToPool and not yet dealt with. */
  function Pending(rec: Recovery): set<int> {
    match rec
    case RetryDepositing(todo) => todo
    case SubmitDepositing(id, todo) => todo + {id}
    case CompleteDepositing(id, todo) => todo + {id}
    case _ => {}
  }

  function V(s: Sys, id: int): View { ViewOf(s.table, s.log, id) }

  ghost predicate Clash(a: Task, b: Task) {
    && Subject(a) == Subject(b)
    && ((Holds(a, Subject(a)) && Holds(b, Subject(b))) || (Owns(a, Subject(a)) && Owns(b, Subject(b))))
  }

  ghost predicate Inv(s: Sys) {
    && (forall id :: RowOk(V(s, id)))
    && (forall i :: i in s.tasks ==> TaskOk(V(s, Subject(s.tasks[i])), s.tasks[i]))
    && (forall i :: i in s.tasks && (s.tasks[i].Request? || s.tasks[i].Deposit?) ==> s.phase == Serving)
    && (forall i, j :: i in s.tasks && j in s.tasks && Clash(s.tasks[i], s.tasks[j]) ==> i == j)
    && (s.phase.Recovering? ==> forall id :: id in Pending(s.phase.rec) ==> V(s, id).won == 1)
  }

  // ----- steps ------------------------------------------------------------------------------

  /** A step of task `tid` that touches only offramp `id` keeps the invariant when it keeps it there. */
  lemma LocalStep(s: Sys, s': Sys, tid: nat, id: int)
    requires Inv(s) && tid in s.tasks && s'.phase == s.phase
    requires forall x :: x != id ==> V(s', x) == V(s, x)
    requires (V(s, id).won == 1 ==> V(s', id).won == 1) && RowOk(V(s', id))
    requires forall j :: j in s'.tasks && j != tid ==> j in s.tasks && s'.tasks[j] == s.tasks[j]
    requires forall j :: j in s.tasks && j != tid && Subject(s.tasks[j]) == id ==> TaskOk(V(s', id), s.tasks[j])
    requires tid in s'.tasks ==>
               && TaskOk(V(s', Subject(s'.tasks[tid])), s'.tasks[tid])
               && (s'.tasks[tid].Request? || s'.tasks[tid].Deposit? ==> s.phase == Serving)
               && (forall j :: j in s.tasks && j != tid ==> !Clash(s.tasks[j], s'.tasks[tid]))
    ensures Inv(s')
  {
    hide ViewOf, RowOk, TaskOk, Clash, Subject;
    if tid in s'.tasks {
      forall j | j in s.tasks && j != tid ensures !Clash(s'.tasks[tid], s.tasks[j]) {
        ClashSymmetric(s.tasks[j], s'.tasks[tid]);
      }
    }
  }

  lemma ClashSymmetric(a: Task, b: Task)
    ensures Clash(a, b) <==> Clash(b, a)
  {
  }

  // ----- the life of one offramp ------------------------------------------------------------

  /** Everything a step can do to one offramp. */
  datatype Move =
    | Nothing
    | Inserted(row: Row)
    | Claimed
    | Checked(tx: string, amount: int)
    | Reverted(message: Option<string>)
    | Confirmed(tx: string)
    | Paid
    | MarkedFailed(note: string)
    | Completing
    | Stored(image: string)
    | BuiltFulfill
    | Finished(depositTx: Option<string>)
    | WasReset
    | GivenUp

  function Write(v: View, s: Status, preimage: Option<string>, deposit: Option<string>, message: Option<string>): View {
    if v.row.None? then v else v.(row := Some(Updated(v.row.value, s, preimage, deposit, message)))
  }

  function Moved(v: View, m: Move): View {
    match m
    case Nothing => v
    case Inserted(row) => v.(row := Some(row))
    case Claimed => Write(v, PendingVerification, None, None, None)
    case Checked(tx, amount) => v.(verified := v.verified + {(tx, amount)})
    case Reverted(message) => Write(v, AwaitingDeposit, None, None, message)
    case Confirmed(tx) =>
      if v.row.None? then v
      else v.(row := Some(v.row.value.(cbtcTxHash := tx, status := PayingLightning)), entered := v.entered + 1)
    case Paid => v.(started := v.started + 1)
    case MarkedFailed(message) => Write(v, Failed, None, None, Some(message))
    case Completing => Write(v, DepositingToPool, None, None, None).(won := v.won + 1)
    case Stored(image) => Write(v, DepositingToPool, Some(image), None, None)
    case BuiltFulfill => v.(built := v.built + 1)
    case Finished(deposit) => Write(v, Completed, None, deposit, None)
    case WasReset => Write(v, AwaitingDeposit, None, None, None)
    case GivenUp => Write(v, Failed, None, None, None).(recovered := v.recovered + 1)
  }

  /** The view of `id` after an effect. */
  function After<T>(v: View, e: Effect<T>, id: int): View {
    (if e.event.Some? && e.event.value.id == id then Post(v, e.event.value) else v).(row := Lookup(e.table, id))
  }

  lemma AfterIsView(s: Sys, tid: nat, e: Effect<Task>, id: int)
    requires tid in s.tasks
    ensures V(Apply(s, tid, e), id) == After(V(s, id), e, id)
  {
    hide Count, Deposits;
    if e.event.Some? { ViewAppend(e.table, s.log, e.event.value, id); }
  }

  // Each task step is a move of one offramp, the target, and leaves every other offramp alone.

  function RequestMove(t: Table, r: RequestTask): Move {
    if r.RequestInsert? && r.id !in t then Inserted(NewRow(r)) else Nothing
  }

  function DepositMove(t: Table, d: DepositTask, a: Answer): Move {
    match d
    case DepositClaim(id, _, _) => if Is(t, id, AwaitingDeposit) then Claimed else Nothing
    case DepositVerify(_, tx, row) => if a.Received? then Checked(tx, row.amountCbtc) else Nothing
    case DepositRevert(_, _, _, message) => Reverted(message)
    case DepositConfirm(id, tx, _) => if Is(t, id, PendingVerification) then Confirmed(tx) else Nothing
    case DepositPay(_, _, _) => if a.Proceed? then Nothing else Paid
    case DepositFail(_, _, _) => MarkedFailed("Lightning payment initiation failed")
    case _ => Nothing
  }

  function CompleteMove(t: Table, c: CompleteTask): Move {
    match c
    case CompleteClaim(id, _) => if Is(t, id, PayingLightning) then Completing else Nothing
    case CompleteStore(_, image) => Stored(image)
    case CompleteSubmit(_, _) => BuiltFulfill
    case CompleteDone(_, depositTx) => Finished(Some(depositTx))
    case CompleteFail(_) => MarkedFailed("FulfillOfframp failed")
    case _ => Nothing
  }

  function FailureMove(f: FailureTask): Move {
    match f
    case FailedMark(_, _, note) => MarkedFailed(note)
    case CancelMark(_, note, _) => MarkedFailed(note)
    case _ => Nothing
  }

  function Target(task: Task): int {
    match task
    case Request(r) => if r.RequestInsert? then r.id else 0
    case Deposit(d) => d.id
    case Complete(c) => if c.CompleteRead? then 0 else c.id
    case Failure(f) => if f.FailedMark? || f.CancelMark? then f.id else 0
  }

  lemma RequestIsMove(t: Table, v: View, clock: int, cfg: Config, r: RequestTask, a: Answer, x: int)
    requires RequestStep(t, clock, cfg, r, a).Some? && v.row == Lookup(t, x)
    ensures After(v, RequestStep(t, clock, cfg, r, a).value, x) ==
            if x == Target(Request(r)) then Moved(v, RequestMove(t, r)) else v
  {
    hide AmountOk, FoundByHash, Active;
  }

  lemma DepositIsMove(t: Table, v: View, d: DepositTask, a: Answer, x: int)
    requires DepositStep(t, d, a).Some? && v.row == Lookup(t, x)
    ensures After(v, DepositStep(t, d, a).value, x) == if x == d.id then Moved(v, DepositMove(t, d, a)) else v
  {
    hide Amounts.CbtcToMsat, Amounts.SelectAmount, FoundByTx;
  }

  lemma CompleteIsMove(t: Table, v: View, c: CompleteTask, a: Answer, x: int)
    requires CompleteStep(t, c, a).Some? && v.row == Lookup(t, x)
    ensures After(v, CompleteStep(t, c, a).value, x) ==
            if x == Target(Complete(c)) then Moved(v, CompleteMove(t, c)) else v
  {
    hide FoundByHash;
  }

  lemma FailureIsMove(t: Table, v: View, clock: int, f: FailureTask, a: Answer, x: int)
    requires FailureStep(t, clock, f, a).Some? && v.row == Lookup(t, x)
    ensures After(v, FailureStep(t, clock, f, a).value, x) ==
            if x == Target(Failure(f)) then Moved(v, FailureMove(f)) else v
  {
    if f.FailedMark? || f.CancelMark? { MarkIsMove(t, v, clock, f, a, x); } else { NoMark(t, clock, f, a); }
    hide FailureStep;
  }

  lemma MarkIsMove(t: Table, v: View, clock: int, f: FailureTask, a: Answer, x: int)
    requires (f.FailedMark? || f.CancelMark?) && FailureStep(t, clock, f, a).Some? && v.row == Lookup(t, x)
    ensures After(v, FailureStep(t, clock, f, a).value, x) == if x == f.id then Moved(v, MarkedFailed(f.note)) else v
  {
    hide Resume, Updated;
  }

  /** Any other step of these handlers writes nothing, and at most asks for a cancellation. */
  lemma NoMark(t: Table, clock: int, f: FailureTask, a: Answer)
    requires !f.FailedMark? && !f.CancelMark? && FailureStep(t, clock, f, a).Some?
    ensures var e := FailureStep(t, clock, f, a).value;
            e.table == t && (e.event.Some? ==> e.event.value.MonitorCancel?)
  {
    hide FoundByHash, Expired, Resume, Update;
  }

  // Each move keeps the target's row in order, the other tasks on it, and the task that follows.

  /** A row is never removed, its request never changes, and evidence once stored is never
      cleared or replaced. */
  ghost predicate Persists(r: Option<Row>, r': Option<Row>) {
    r.Some? ==>
      && r'.Some?
      && r'.value.bolt11 == r.value.bolt11
      && r'.value.paymentHash == r.value.paymentHash
      && r'.value.amountCbtc == r.value.amountCbtc
      && r'.value.expiresAt == r.value.expiresAt
      && (r.value.cbtcTxHash != "" ==> r'.value.cbtcTxHash == r.value.cbtcTxHash)
      && (r.value.preimage.Some? ==> r'.value.preimage == r.value.preimage)
      && (r.value.depositTxHash.Some? ==> r'.value.depositTxHash == r.value.depositTxHash)
  }

  ghost predicate Fits(v: View, v': View) {
    && RowOk(v')
    && (v.won == 1 ==> v'.won == 1)
    && Persists(v.row, v'.row)
  }

  lemma DepositRow(t: Table, v: View, d: DepositTask, a: Answer)
    requires DepositStep(t, d, a).Some? && v.row == Lookup(t, d.id) && RowOk(v) && DepositOk(v, d)
    ensures Fits(v, Moved(v, DepositMove(t, d, a)))
  {
    hide AmountOk, FoundByTx;
  }

  lemma CompleteRow(t: Table, v: View, c: CompleteTask, a: Answer)
    requires CompleteStep(t, c, a).Some? && v.row == Lookup(t, Target(Complete(c))) && RowOk(v) && CompleteOk(v, c)
    ensures Fits(v, Moved(v, CompleteMove(t, c)))
  {
    hide AmountOk, FoundByHash;
  }

  lemma DepositOthers(t: Table, v: View, d: DepositTask, a: Answer, other: Task)
    requires DepositStep(t, d, a).Some? && v.row == Lookup(t, d.id) && RowOk(v) && DepositOk(v, d)
    requires Subject(other) == d.id && TaskOk(v, other) && !Clash(Deposit(d), other)
    ensures TaskOk(Moved(v, DepositMove(t, d, a)), other)
  {
    hide AmountOk, FoundByTx;
  }

  lemma CompleteOthers(t: Table, v: View, c: CompleteTask, a: Answer, other: Task)
    requires CompleteStep(t, c, a).Some? && v.row == Lookup(t, Target(Complete(c))) && RowOk(v) && CompleteOk(v, c)
    requires Subject(other) == Target(Complete(c)) && TaskOk(v, other) && !Clash(Complete(c), other)
    ensures TaskOk(Moved(v, CompleteMove(t, c)), other)
  {
    hide AmountOk, FoundByHash;
  }

  lemma FailureOthers(v: View, note: string, other: Task)
    requires TaskOk(v, other)
    ensures TaskOk(Moved(v, MarkedFailed(note)), other)
  {
    hide AmountOk;
  }

  lemma DepositSuccessor(t: Table, d: DepositTask, a: Answer)
    requires DepositStep(t, d, a).Some? && DepositStep(t, d, a).value.next.Some?
    ensures var next := DepositStep(t, d, a).value.next.value;
            && next.id == d.id && next.tx == d.tx
            && (d.DepositRead? ==> next.DepositReuse? && d.id in t && next.row == t[d.id])
            && (!d.DepositRead? ==> next.row == d.row)
            && (next.DepositClaim? ==> d.DepositReuse?)
            && (next.DepositVerify? ==>
                  d.DepositClaim? && DepositMove(t, d, a) == Claimed && Is(t, d.id, AwaitingDeposit))
            && (next.DepositRevert? ==> d.DepositVerify? && DepositMove(t, d, a) == Nothing)
            && (next.DepositConfirm? ==> d.DepositVerify? && DepositMove(t, d, a) == Checked(d.tx, d.row.amountCbtc))
            && (next.DepositPay? ==>
                  d.DepositConfirm? && DepositMove(t, d, a) == Confirmed(d.tx) && Is(t, d.id, PendingVerification))
            && !next.DepositRead?
            && (next.DepositReuse? || next.DepositClaim? || next.DepositFail? ==>
                  DepositMove(t, d, a) in {Nothing, Paid})
  {
    hide FoundByTx, Amounts.CbtcToMsat, Amounts.SelectAmount, Update, Transition, TransitionWithTx;
  }

  lemma DepositNext(t: Table, v: View, d: DepositTask, a: Answer)
    requires DepositStep(t, d, a).Some? && DepositStep(t, d, a).value.next.Some?
    requires v.row == Lookup(t, d.id) && RowOk(v) && DepositOk(v, d)
    ensures var next := DepositStep(t, d, a).value.next.value;
            && next.id == d.id
            && DepositOk(Moved(v, DepositMove(t, d, a)), next)
            && (Holding(next) && !Holding(d) ==> v.row.Some? && v.row.value.status == AwaitingDeposit)
  {
    hide AmountOk, DepositStep, DepositMove;
    DepositSuccessor(t, d, a);
  }

  lemma CompleteNext(t: Table, v: View, c: CompleteTask, a: Answer)
    requires CompleteStep(t, c, a).Some? && CompleteStep(t, c, a).value.next.Some?
    requires v.row == Lookup(t, Target(Complete(c))) && RowOk(v) && CompleteOk(v, c)
    ensures var next := CompleteStep(t, c, a).value.next.value;
            && (Owning(next) ==> next.id == Target(Complete(c)))
            && CompleteOk(Moved(v, CompleteMove(t, c)), next)
            && (Owning(next) && !Owning(c) ==> v.row.Some? && v.row.value.status == PayingLightning)
  {
    hide AmountOk, FoundByHash;
  }

  // The same, for any task.

  function MoveOf(t: Table, task: Task, a: Answer): Move {
    match task
    case Request(r) => RequestMove(t, r)
    case Deposit(d) => DepositMove(t, d, a)
    case Complete(c) => CompleteMove(t, c)
    case Failure(f) => FailureMove(f)
  }

  predicate CanStep(s: Sys, tid: nat, a: Answer) {
    tid in s.tasks && TaskStep(s.table, s.clock, s.cfg, s.tasks[tid], a).Some?
  }

  function Stepped(s: Sys, tid: nat, a: Answer): Sys
    requires CanStep(s, tid, a)
  {
    Apply(s, tid, TaskStep(s.table, s.clock, s.cfg, s.tasks[tid], a).value)
  }

  lemma StepIsMove(s: Sys, tid: nat, a: Answer, x: int)
    requires CanStep(s, tid, a)
    ensures V(Stepped(s, tid, a), x) ==
            if x == Target(s.tasks[tid]) then Moved(V(s, x), MoveOf(s.table, s.tasks[tid], a)) else V(s, x)
  {
    hide Count, Deposits, Moved, Post, RequestStep, DepositStep, CompleteStep, FailureStep;
    hide RequestMove, DepositMove, CompleteMove, FailureMove;
    var v := V(s, x);
    var e := TaskStep(s.table, s.clock, s.cfg, s.tasks[tid], a).value;
    AfterIsView(s, tid, e, x);
    match s.tasks[tid]
    case Request(r) => RequestIsMove(s.table, v, s.clock, s.cfg, r, a, x);
    case Deposit(d) => DepositIsMove(s.table, v, d, a, x);
    case Complete(c) => CompleteIsMove(s.table, v, c, a, x);
    case Failure(f) => FailureIsMove(s.table, v, s.clock, f, a, x);
  }

  lemma RowKept(s: Sys, tid: nat, a: Answer, v: View)
    requires CanStep(s, tid, a) && v.row == Lookup(s.table, Target(s.tasks[tid]))
    requires RowOk(v) && TaskOk(v, s.tasks[tid])
    ensures Fits(v, Moved(v, MoveOf(s.table, s.tasks[tid], a)))
  {
    hide Is, RequestStep, DepositStep, CompleteStep, FailureStep, DepositMove, CompleteMove, DepositOk, CompleteOk;
    match s.tasks[tid]
    case Request(r) =>
    case Deposit(d) => DepositRow(s.table, v, d, a);
    case Complete(c) => CompleteRow(s.table, v, c, a);
    case Failure(f) =>
  }

  lemma OthersKept(s: Sys, tid: nat, a: Answer, v: View, other: Task)
    requires CanStep(s, tid, a) && v.row == Lookup(s.table, Target(s.tasks[tid]))
    requires RowOk(v) && TaskOk(v, s.tasks[tid])
    requires Subject(other) == Target(s.tasks[tid]) && TaskOk(v, other) && !Clash(s.tasks[tid], other)
    ensures TaskOk(Moved(v, MoveOf(s.table, s.tasks[tid], a)), other)
  {
    hide Is, RequestStep, DepositStep, CompleteStep, FailureStep, DepositMove, CompleteMove, AmountOk, Clash;
    match s.tasks[tid]
    case Request(r) =>
    case Deposit(d) => DepositOthers(s.table, v, d, a, other);
    case Complete(c) => CompleteOthers(s.table, v, c, a, other);
    case Failure(f) => if f.FailedMark? || f.CancelMark? { FailureOthers(v, f.note, other); }
  }

  /** The task that follows is of the same handler, in order, and clashes with no other task. */
  lemma NextKept(s: Sys, tid: nat, a: Answer, v: View, w: View)
    requires CanStep(s, tid, a) && tid in Stepped(s, tid, a).tasks
    requires v.row == Lookup(s.table, Target(s.tasks[tid])) && RowOk(v) && TaskOk(v, s.tasks[tid])
    ensures var next := Stepped(s, tid, a).tasks[tid];
            && (next.Request? <==> s.tasks[tid].Request?) && (next.Deposit? <==> s.tasks[tid].Deposit?)
            && TaskOk(if Subject(next) == Target(s.tasks[tid]) then Moved(v, MoveOf(s.table, s.tasks[tid], a)) else w,
                      next)
  {
    hide Is, DepositStep, CompleteStep, FailureStep, DepositMove, CompleteMove, FailureMove;
    hide DepositOk, Moved, FoundByHash;
    match s.tasks[tid]
    case Request(r) =>
    case Deposit(d) => DepositNext(s.table, v, d, a);
    case Complete(c) => CompleteNext(s.table, v, c, a);
    case Failure(f) =>
  }

  lemma NoNewHolder(v: View, d: DepositTask, next: DepositTask, other: Task)
    requires RowOk(v) && next.id == d.id && (Subject(other) == d.id ==> TaskOk(v, other)) && !Clash(Deposit(d), other)
    requires Holding(next) && !Holding(d) ==> v.row.Some? && v.row.value.status == AwaitingDeposit
    ensures !Clash(other, Deposit(next))
  {
    hide AmountOk, CompleteOk;
  }

  lemma NoNewOwner(v: View, c: CompleteTask, next: CompleteTask, id: int, other: Task)
    requires RowOk(v) && (Owning(next) ==> next.id == id) && (Owning(c) ==> c.id == id)
    requires (Subject(other) == id ==> TaskOk(v, other)) && !Clash(Complete(c), other)
    requires Owning(next) && !Owning(c) ==> v.row.Some? && v.row.value.status == PayingLightning
    ensures !Clash(other, Complete(next))
  {
    hide AmountOk, DepositOk;
  }

  lemma NoNewClash(s: Sys, tid: nat, a: Answer, v: View, other: Task)
    requires CanStep(s, tid, a) && tid in Stepped(s, tid, a).tasks
    requires v.row == Lookup(s.table, Target(s.tasks[tid])) && RowOk(v) && TaskOk(v, s.tasks[tid])
    requires !Clash(s.tasks[tid], other) && (Subject(other) == Target(s.tasks[tid]) ==> TaskOk(v, other))
    ensures !Clash(other, Stepped(s, tid, a).tasks[tid])
  {
    hide Is, RequestStep, DepositStep, CompleteStep, FailureStep, DepositMove, CompleteMove, FailureMove, Moved;
    hide AmountOk, RowOk, DepositOk, CompleteOk;
    match s.tasks[tid]
    case Request(r) =>
    case Deposit(d) =>
      DepositNext(s.table, v, d, a);
      NoNewHolder(v, d, Stepped(s, tid, a).tasks[tid].d, other);
    case Complete(c) =>
      CompleteNext(s.table, v, c, a);
      NoNewOwner(v, c, Stepped(s, tid, a).tasks[tid].c, Target(s.tasks[tid]), other);
    case Failure(f) =>
  }

  lemma AdvanceKeeps(s: Sys, tid: nat, a: Answer)
    requires Inv(s) && CanStep(s, tid, a)
    ensures Inv(Stepped(s, tid, a))
  {
    var s' := Stepped(s, tid, a);
    var id := Target(s.tasks[tid]);
    var v := V(s, id);
    assert v.row == Lookup(s.table, id);
    assert TaskOk(v, s.tasks[tid]);
    hide RowOk, TaskOk, RequestOk, DepositOk, CompleteOk, TaskStep, MoveOf, Moved, Clash, ViewOf, Target, Subject;
    forall x ensures V(s', x) == if x == id then Moved(v, MoveOf(s.table, s.tasks[tid], a)) else V(s, x) {
      StepIsMove(s, tid, a, x);
    }
    RowKept(s, tid, a, v);
    forall j | j in s.tasks && j != tid && Subject(s.tasks[j]) == id ensures TaskOk(V(s', id), s.tasks[j]) {
      OthersKept(s, tid, a, v, s.tasks[j]);
    }
    if tid in s'.tasks {
      NextKept(s, tid, a, v, V(s, Subject(s'.tasks[tid])));
      forall j | j in s.tasks && j != tid ensures !Clash(s.tasks[j], s'.tasks[tid]) {
        NoNewClash(s, tid, a, v, s.tasks[j]);
      }
    }
    LocalStep(s, s', tid, id);
  }

  // ----- recovery ---------------------------------------------------------------------------

  function RecoveryTarget(rec: Recovery, a: Answer): int {
    match rec
    case ResetVerifying(_) => if a.Pick? then a.id else 0
    case FailPaying(_) => if a.Pick? then a.id else 0
    case NotePaying(id, _) => id
    case SubmitDepositing(id, _) => id
    case CompleteDepositing(id, _) => id
    case _ => 0
  }

  function RecoveryMove(t: Table, rec: Recovery, a: Answer): Move {
    match rec
    case ResetVerifying(todo) => if todo != {} && a.Pick? && Is(t, a.id, PendingVerification) then WasReset else Nothing
    case FailPaying(todo) => if todo != {} && a.Pick? && Is(t, a.id, PayingLightning) then GivenUp else Nothing
    case NotePaying(_, _) => MarkedFailed(CRASHED)
    case SubmitDepositing(_, _) => if a.Miss? then Nothing else BuiltFulfill
    case CompleteDepositing(_, _) => Finished(None)
    case _ => Nothing
  }

  lemma RecoveryStepIsMove(t: Table, v: View, rec: Recovery, a: Answer, x: int)
    requires RecoveryStep(t, rec, a).Some? && v.row == Lookup(t, x)
    ensures var e := RecoveryStep(t, rec, a).value;
            After<Task>(v, Effect(e.table, None, e.event), x) ==
            if x == RecoveryTarget(rec, a) then Moved(v, RecoveryMove(t, rec, a)) else v
  {
    hide ByStatus;
  }

  lemma RecoveryIsMove(s: Sys, a: Answer, x: int)
    requires s.phase.Recovering? && RecoveryStep(s.table, s.phase.rec, a).Some?
    ensures V(Next(s, Recover(a)).value, x) ==
            if x == RecoveryTarget(s.phase.rec, a) then Moved(V(s, x), RecoveryMove(s.table, s.phase.rec, a))
            else V(s, x)
  {
    hide Count, Deposits, RecoveryStep, RecoveryTarget, RecoveryMove, Moved;
    var e := RecoveryStep(s.table, s.phase.rec, a).value;
    RecoveryStepIsMove(s.table, V(s, x), s.phase.rec, a, x);
    if e.event.Some? { ViewAppend(e.table, s.log, e.event.value, x); }
  }

  lemma RecoveryRow(t: Table, rec: Recovery, a: Answer, v: View)
    requires RecoveryStep(t, rec, a).Some? && v.row == Lookup(t, RecoveryTarget(rec, a)) && RowOk(v)
    requires RecoveryTarget(rec, a) in Pending(rec) ==> v.won == 1
    ensures Fits(v, Moved(v, RecoveryMove(t, rec, a)))
  {
    hide AmountOk, ByStatus;
  }

  lemma RecoveryOthers(t: Table, rec: Recovery, a: Answer, v: View, other: Task)
    requires RecoveryStep(t, rec, a).Some? && v.row == Lookup(t, RecoveryTarget(rec, a)) && RowOk(v)
    requires TaskOk(v, other) && !other.Deposit?
    ensures TaskOk(Moved(v, RecoveryMove(t, rec, a)), other)
  {
    hide AmountOk, ByStatus;
  }

  /** Recovery only takes up offramps that some complete_offramp has won. */
  lemma RecoveryPending(s: Sys, a: Answer, id: int)
    requires Inv(s) && s.phase.Recovering? && RecoveryStep(s.table, s.phase.rec, a).Some?
    requires id in Pending(RecoveryStep(s.table, s.phase.rec, a).value.next)
    ensures V(s, id).won == 1
  {
    hide AmountOk, TaskOk, Clash, Count, Deposits;
    assert RowOk(V(s, id));
  }

  lemma ViewRow(s: Sys, id: int)
    ensures V(s, id).row == Lookup(s.table, id)
  {
  }

  lemma RecoveryKeeps(s: Sys, a: Answer)
    requires Inv(s) && Next(s, Recover(a)).Some?
    ensures Inv(Next(s, Recover(a)).value)
  {
    hide RowOk, TaskOk, RecoveryStep, RecoveryMove, Moved, Clash, ViewOf, RecoveryTarget, Subject, Pending;
    var s' := Next(s, Recover(a)).value;
    var id := RecoveryTarget(s.phase.rec, a);
    var v := V(s, id);
    ViewRow(s, id);
    assert forall j :: j in s.tasks ==> !s.tasks[j].Deposit? && !s.tasks[j].Request?;
    forall x ensures V(s', x) == if x == id then Moved(v, RecoveryMove(s.table, s.phase.rec, a)) else V(s, x) {
      RecoveryIsMove(s, a, x);
    }
    RecoveryRow(s.table, s.phase.rec, a, v);
    forall j | j in s.tasks ensures TaskOk(V(s', Subject(s.tasks[j])), s.tasks[j]) {
      if Subject(s.tasks[j]) == id { RecoveryOthers(s.table, s.phase.rec, a, v, s.tasks[j]); }
    }
    forall x | x in Pending(s'.phase.rec) ensures V(s', x).won == 1 {
      RecoveryPending(s, a, x);
    }
  }

  lemma FreshClashesWithNone(task: Task, other: Task)
    requires (task.Complete? ==> task.c.CompleteRead?) && (task.Deposit? ==> task.d.DepositRead?)
    ensures !Clash(task, other) && !Clash(other, task)
  {
  }

  /** A newly spawned task holds nothing yet. */
  lemma SpawnKeeps(s: Sys, tid: nat, task: Task)
    requires Inv(s) && tid !in s.tasks
    requires task.Request? || task.Deposit? ==> s.phase == Serving
    requires (task.Request? ==> task.r.RequestCount?) && (task.Complete? ==> task.c.CompleteRead?)
    requires task.Deposit? ==> task.d.DepositRead? && task.d.tx != ""
    ensures Inv(s.(tasks := s.tasks[tid := task]))
  {
    var s' := s.(tasks := s.tasks[tid := task]);
    assert TaskOk(V(s, Subject(task)), task) by { hide Inv, RowOk, ViewOf, Clash; }
    hide RowOk, TaskOk, ViewOf, Clash, Subject;
    forall j | j in s.tasks ensures !Clash(task, s.tasks[j]) && !Clash(s.tasks[j], task) {
      FreshClashesWithNone(task, s.tasks[j]);
    }
    FreshClashesWithNone(task, task);
    assert forall x :: V(s', x) == V(s, x);
  }

  /** Losing tasks, and moving on to a later phase, keeps the invariant. */
  lemma FewerTasks(s: Sys, s': Sys)
    requires Inv(s) && s'.table == s.table && s'.log == s.log
    requires forall j :: j in s'.tasks ==> j in s.tasks && s'.tasks[j] == s.tasks[j]
    requires s'.phase == s.phase || s'.phase.Serving? || (s'.tasks == map[] && s'.phase == Recovering(ScanVerifying))
             || (s'.phase.MonitorUp? && s.phase.Recovering?)
    ensures Inv(s')
  {
    hide RowOk, TaskOk, ViewOf, Clash, Subject;
    assert forall x :: V(s', x) == V(s, x);
  }

  lemma NextKeeps(s: Sys, step: Step)
    requires Inv(s) && Next(s, step).Some?
    ensures Inv(Next(s, step).value)
  {
    hide Inv, TaskStep, RecoveryStep;
    match step
    case Advance(tid, a) => AdvanceKeeps(s, tid, a);
    case Recover(a) => RecoveryKeeps(s, a);
    case HttpRequest(tid, invoice, amount, refund) =>
      SpawnKeeps(s, tid, Request(RequestCount(invoice, amount, refund)));
    case HttpDeposit(tid, id, tx) => SpawnKeeps(s, tid, Deposit(DepositRead(id, tx)));
    case PaymentSent(tid, hash, image) => SpawnKeeps(s, tid, Complete(CompleteRead(hash, image)));
    case PaymentFailed(tid, hash) => SpawnKeeps(s, tid, Failure(FailedRead(hash)));
    case StartMonitor(tid) =>
      FewerTasks(s, s.(phase := MonitorUp));
      SpawnKeeps(s.(phase := MonitorUp), tid, Failure(MonitorTick));
    case _ => FewerTasks(s, Next(s, step).value);
  }

  lemma InitHolds(clock: int, cfg: Config)
    ensures Inv(Init(clock, cfg))
  {
  }

  // ----- whole runs -------------------------------------------------------------------------

  ghost predicate Persisted(s: Sys, s': Sys) {
    && s.log <= s'.log
    && s.clock <= s'.clock
    && forall id :: Persists(Lookup(s.table, id), Lookup(s'.table, id))
  }

  lemma AdvancePersists(s: Sys, tid: nat, a: Answer)
    requires Inv(s) && CanStep(s, tid, a)
    ensures Persisted(s, Stepped(s, tid, a))
  {
    var s' := Stepped(s, tid, a);
    forall x ensures Persists(V(s, x).row, V(s', x).row) {
      StepIsMove(s, tid, a, x);
      if x == Target(s.tasks[tid]) {
        assert TaskOk(V(s, x), s.tasks[tid]);
        hide TaskStep, MoveOf, Moved, Clash, RowOk, TaskOk, Target;
        RowKept(s, tid, a, V(s, x));
      }
    }
    assert forall x :: V(s, x).row == Lookup(s.table, x) && V(s', x).row == Lookup(s'.table, x);
  }

  lemma RecoveryPersists(s: Sys, a: Answer)
    requires Inv(s) && Next(s, Recover(a)).Some?
    ensures Persisted(s, Next(s, Recover(a)).value)
  {
    var s' := Next(s, Recover(a)).value;
    forall x ensures Persists(V(s, x).row, V(s', x).row) {
      RecoveryIsMove(s, a, x);
      if x == RecoveryTarget(s.phase.rec, a) {
        hide RecoveryStep, RecoveryMove, Moved, Clash, TaskOk, RowOk, RecoveryTarget;
        RecoveryRow(s.table, s.phase.rec, a, V(s, x));
      }
    }
    assert forall x :: V(s, x).row == Lookup(s.table, x) && V(s', x).row == Lookup(s'.table, x);
  }

  lemma NextPersists(s: Sys, step: Step)
    requires Inv(s) && Next(s, step).Some?
    ensures Persisted(s, Next(s, step).value)
  {
    hide Inv, TaskStep, RecoveryStep;
    match step
    case Advance(tid, a) => AdvancePersists(s, tid, a);
    case Recover(a) => RecoveryPersists(s, a);
    case _ =>
  }

  /** Every run from a state in order ends in one, and only adds to what was stored. */
  lemma {:induction false} RunKeeps(s: Sys, steps: seq<Step>)
    requires Inv(s) && Run(s, steps).Some?
    ensures Inv(Run(s, steps).value) && Persisted(s, Run(s, steps).value)
  {
    if steps != [] {
      var before := Run(s, steps[..|steps| - 1]).value;
      hide Inv, Next;
      RunKeeps(s, steps[..|steps| - 1]);
      NextKeeps(before, steps[|steps| - 1]);
      NextPersists(before, steps[|steps| - 1]);
      PersistedTransitive(s, before, Run(s, steps).value);
    }
  }

  lemma PersistedTransitive(a: Sys, b: Sys, c: Sys)
    requires Persisted(a, b) && Persisted(b, c)
    ensures Persisted(a, c)
  {
    forall id ensures Persists(Lookup(a.table, id), Lookup(c.table, id)) {
      hide Lookup;
      assert Persists(Lookup(a.table, id), Lookup(b.table, id)) && Persists(Lookup(b.table, id), Lookup(c.table, id));
    }
  }
}
