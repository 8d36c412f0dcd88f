/** Conversion between cBTC base units and Lightning millisatoshis (amounts.rs). */
module Amounts {
  import opened Common

  const MSATS_PER_CBTC_BASE_UNIT: nat := 1000
  /** The most the API accepts in one request. */
  const MAX_AMOUNT_CBTC: nat := 10_000_000_000
  const U64_MAX: nat := 0xFFFF_FFFF_FFFF_FFFF

  /** `cbtc_to_msat`: a guarded, overflow-checked multiplication. */
  function CbtcToMsat(amount: int): Option<nat> {
    if amount <= 0 then None
    else if amount * MSATS_PER_CBTC_BASE_UNIT > U64_MAX then None
    else Some(amount * MSATS_PER_CBTC_BASE_UNIT)
  }

  /** The amount `send_payment` pays: the invoice's own, or the required one for an
      amountless invoice; a mismatch or two missing amounts is refused. */
  function SelectAmount(invoice: Option<nat>, required: Option<nat>): Option<nat> {
    match (invoice, required)
    case (Some(i), Some(r)) => if i != r then None else Some(i)
    case (Some(i), None) => Some(i)
    case (None, Some(r)) => Some(r)
    case (None, None) => None
  }
}
