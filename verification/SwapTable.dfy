/** The `swap_mappings` table and the single SQL statements that read and write it (mapping.rs). */
module SwapTable {
  import opened Common

  datatype Status = Pending | Fulfilling | Completed | Failed | Expired

  datatype Row = Row(
    invoiceId: int,
    amountCbtc: int,
    cardanoAddress: string,
    status: Status,
    createdAt: int,
    expiresAt: int,
    cardanoTxHash: Option<string>,
    createTxHash: Option<string>)

  /** Keyed by the primary key `payment_hash`. */
  type Table = map<string, Row>

  function StatusText(s: Status): string {
    match s
    case Pending => "pending"
    case Fulfilling => "fulfilling"
    case Completed => "completed"
    case Failed => "failed"
    case Expired => "expired"
  }

  predicate Is(t: Table, hash: string, s: Status) {
    hash in t && t[hash].status == s
  }

  /** `update_status`: unconditional, and overwrites the transaction hash even with NULL. */
  function Update(t: Table, hash: string, s: Status, tx: Option<string>): Table {
    if hash in t then t[hash := t[hash].(status := s, cardanoTxHash := tx)] else t
  }

  /** `transition_status`: compare-and-set; it reports whether `Is(t, hash, expected)` held. */
  function Transition(t: Table, hash: string, expected: Status, s: Status, tx: Option<string>): Table {
    if Is(t, hash, expected) then t[hash := t[hash].(status := s, cardanoTxHash := tx)] else t
  }

  /** `get_expired_pending` */
  function ExpiredPending(t: Table, now: int): map<string, Row> {
    map h | h in t && t[h].status == Pending && t[h].expiresAt < now :: t[h]
  }

  function ByStatus(t: Table, s: Status): set<string> {
    set h | h in t && t[h].status == s
  }

  predicate IsActive(s: Status) { s == Pending || s == Fulfilling }

  /** The rows `count_active_swaps` counts. */
  function Active(t: Table): set<string> {
    set h | h in t && IsActive(t[h].status)
  }
}
