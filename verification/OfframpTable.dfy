/** The `offramp_mappings` table and the single SQL statements that read and write it (mapping.rs).
    Every function here is one statement, so one atomic step of the protocol. */
module OfframpTable {
  import opened Common

  datatype Status =
    | AwaitingDeposit
    | PendingVerification
    | PayingLightning
    | DepositingToPool
    | Completed
    | Failed

  /** What the BOLT11 text of a row parses to: parsing is a function of the text. */
  datatype Invoice = Invoice(paymentHash: string, amountMsat: Option<nat>)

  datatype Row = Row(
    bolt11: Invoice,
    paymentHash: string,
    amountCbtc: int,
    cbtcTxHash: string,
    status: Status,
    createdAt: int,
    preimage: Option<string>,
    depositTxHash: Option<string>,
    errorMessage: Option<string>,
    createTxHash: Option<string>,
    refundAddress: string,
    expiresAt: int)

  /** Keyed by the primary key `offramp_id`. */
  type Table = map<int, Row>

  function StatusText(s: Status): string {
    match s
    case AwaitingDeposit => "awaiting_deposit"
    case PendingVerification => "pending_verification"
    case PayingLightning => "paying_lightning"
    case DepositingToPool => "depositing_to_pool"
    case Completed => "completed"
    case Failed => "failed"
  }

  predicate Is(t: Table, id: int, s: Status) {
    id in t && t[id].status == s
  }

  function Updated(r: Row, s: Status, preimage: Option<string>,
                   depositTxHash: Option<string>, errorMessage: Option<string>): Row {
    r.(status := s,
       preimage := Coalesce(preimage, r.preimage),
       depositTxHash := Coalesce(depositTxHash, r.depositTxHash),
       errorMessage := Coalesce(errorMessage, r.errorMessage))
  }

  /** `update_offramp_status`: unconditional, keeps a column whose new value is NULL. */
  function Update(t: Table, id: int, s: Status, preimage: Option<string>,
                  depositTxHash: Option<string>, errorMessage: Option<string>): Table {
    if id in t then t[id := Updated(t[id], s, preimage, depositTxHash, errorMessage)] else t
  }

  /** `transition_offramp_status`: compare-and-set; it reports whether `Is(t, id, expected)` held. */
  function Transition(t: Table, id: int, expected: Status, s: Status): Table {
    if Is(t, id, expected) then t[id := t[id].(status := s)] else t
  }

  /** `transition_offramp_with_cbtc_tx`: the same, storing the deposit's transaction hash. */
  function TransitionWithTx(t: Table, id: int, tx: string, expected: Status, s: Status): Table {
    if Is(t, id, expected) then t[id := t[id].(cbtcTxHash := tx, status := s)] else t
  }

  /** Which row `get_offramp_by_payment_hash` may return: any match, or none if there is no match. */
  predicate FoundByHash(t: Table, hash: string, found: Option<int>) {
    match found
    case Some(id) => id in t && t[id].paymentHash == hash
    case None => forall id :: id in t ==> t[id].paymentHash != hash
  }

  /** Which row `get_offramp_by_cbtc_tx` may return: rows with no hash yet never match. */
  predicate FoundByTx(t: Table, tx: string, found: Option<int>) {
    match found
    case Some(id) => id in t && t[id].cbtcTxHash == tx && tx != ""
    case None => forall id :: id in t ==> t[id].cbtcTxHash != tx || tx == ""
  }

  function ByStatus(t: Table, s: Status): set<int> {
    set id | id in t && t[id].status == s
  }

  predicate Cancellable(r: Row, now: int) {
    && r.status in {AwaitingDeposit, Failed}
    && 0 < r.expiresAt < now
  }

  /** `get_expired_offramps` */
  function Expired(t: Table, now: int): map<int, Row> {
    map id | id in t && Cancellable(t[id], now) :: t[id]
  }

  predicate IsActive(s: Status) { !s.Completed? && !s.Failed? }

  /** The rows `count_active_offramps` counts. */
  function Active(t: Table): set<int> {
    set id | id in t && IsActive(t[id].status)
  }
}
