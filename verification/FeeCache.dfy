/** The Esplora fee cache (esplora.rs). Rates are reals where the source has finite f64 values;
    rounding of f64 is not modelled. */
module FeeCache {
  import opened Common

  const MIN_FEERATE: nat := 253
  const DEFAULT_NORMAL_MAX: nat := 5000
  const DEFAULT_HIGH_PRIORITY_MAX: nat := 50000
  const U32_MAX: nat := 0xFFFF_FFFF

  datatype Rate = Finite(satPerVb: real) | NotFinite

  function Max(a: nat, b: nat): nat { if a < b then b else a }
  function Min(a: nat, b: nat): nat { if a < b then a else b }

  function Ceil(x: real): int {
    if x.Floor as real == x then x.Floor else x.Floor + 1
  }

  /** `raw_sat_vb_to_sat_kwu` */
  function RawSatPerKwu(rate: Rate): nat {
    if rate.NotFinite? || rate.satPerVb <= 0.0 then MIN_FEERATE
    else
      var up := Ceil(rate.satPerVb * 250.0);
      if up >= U32_MAX then U32_MAX else up
  }

  /** `sat_vb_to_sat_kwu_clamped` */
  function ClampedSatPerKwu(rate: Rate, max: nat): nat {
    Min(Max(RawSatPerKwu(rate), MIN_FEERATE), Max(max, MIN_FEERATE))
  }

  /** `max_feerate_sat_per_kwu_from_value`, after parsing */
  function NormalCap(parsed: Option<nat>): nat {
    if parsed.Some? && parsed.value >= MIN_FEERATE then parsed.value else DEFAULT_NORMAL_MAX
  }

  function HighPriorityCap(normal: nat): nat { Max(normal, DEFAULT_HIGH_PRIORITY_MAX) }

  datatype Target =
    | MaximumFeeEstimate | UrgentOnChainSweep | MinAllowedAnchorChannelRemoteFee | MinAllowedNonAnchorChannelRemoteFee
    | AnchorChannelFee | NonAnchorChannelFee | ChannelCloseMinimum | OutputSpendingFee

  type Fees = map<Target, nat>

  /** The block target of the estimate a fee follows, if any; Esplora writes it as text. */
  function Source(t: Target): Option<nat> {
    match t
    case MaximumFeeEstimate => Some(1)
    case UrgentOnChainSweep => Some(1)
    case NonAnchorChannelFee => Some(6)
    case ChannelCloseMinimum => Some(6)
    case OutputSpendingFee => Some(25)
    case _ => None
  }

  function Cap(t: Target, normal: nat): nat {
    if t.MaximumFeeEstimate? || t.UrgentOnChainSweep? then HighPriorityCap(normal) else normal
  }

  /** What one map of estimates makes of the cached fees. */
  function Refreshed(fees: Fees, estimates: map<nat, Rate>, normal: nat): Fees {
    map t | t in fees ::
      if Source(t).Some? && Source(t).value in estimates
      then ClampedSatPerKwu(estimates[Source(t).value], Cap(t, normal))
      else fees[t]
  }

  datatype Update = Update(target: Target, converted: nat, stored: nat, wasClamped: bool)

  ghost predicate Complete(fees: Fees) { forall t: Target :: t in fees }

  lemma AllTargets(fees: Fees)
    requires {MaximumFeeEstimate, UrgentOnChainSweep, MinAllowedAnchorChannelRemoteFee,
              MinAllowedNonAnchorChannelRemoteFee, AnchorChannelFee, NonAnchorChannelFee,
              ChannelCloseMinimum, OutputSpendingFee} <= fees.Keys
    ensures Complete(fees)
  {
    forall t: Target ensures t in fees {
      match t {
        case MaximumFeeEstimate => case UrgentOnChainSweep => case MinAllowedAnchorChannelRemoteFee =>
        case MinAllowedNonAnchorChannelRemoteFee => case AnchorChannelFee => case NonAnchorChannelFee =>
        case ChannelCloseMinimum => case OutputSpendingFee =>
      }
    }
  }

  class FeeCache {
    var fees: Fees
    const normal: nat

    constructor (parsed: Option<nat>)
      ensures Complete(fees) && (forall t :: t in fees ==> fees[t] >= MIN_FEERATE) && normal == NormalCap(parsed)
      ensures fees[MaximumFeeEstimate] == 50000 && fees[UrgentOnChainSweep] == 5000 && fees[NonAnchorChannelFee] == 2000
    {
      var initial: Fees := map[MaximumFeeEstimate := 50000, UrgentOnChainSweep := 5000,
                  MinAllowedAnchorChannelRemoteFee := MIN_FEERATE, MinAllowedNonAnchorChannelRemoteFee := MIN_FEERATE,
                  AnchorChannelFee := MIN_FEERATE, NonAnchorChannelFee := 2000,
                  ChannelCloseMinimum := MIN_FEERATE, OutputSpendingFee := MIN_FEERATE];
      AllTargets(initial);
      fees := initial;
      normal := NormalCap(parsed);
    }

    /** `apply_fee` */
    method ApplyFee(target: Target, rate: Rate, max: nat) returns (update: Update)
      requires target in fees
      modifies this
      ensures fees == old(fees)[target := ClampedSatPerKwu(rate, max)]
      ensures update == UpdateOf(target, rate, max)
    {
      var converted := Max(RawSatPerKwu(rate), MIN_FEERATE);
      var stored := ClampedSatPerKwu(rate, max);
      fees := fees[target := stored];
      update := Update(target, converted, stored, stored != converted);
    }

    /** `apply_fee_estimates` */
    method ApplyFeeEstimates(estimates: map<nat, Rate>) returns (updates: seq<Update>)
      requires Complete(fees)
      modifies this
      ensures fees == Refreshed(old(fees), estimates, normal) && Complete(fees)
      ensures updates == Updates(estimates, normal)
    {
      hide UpdateOf, ClampedSatPerKwu, HighPriorityCap, Refreshed;
      RefreshedInOrder(fees, estimates, normal);
      updates := [];
      if 1 in estimates {
        var a := ApplyFee(MaximumFeeEstimate, estimates[1], HighPriorityCap(normal));
        var b := ApplyFee(UrgentOnChainSweep, estimates[1], HighPriorityCap(normal));
        updates := updates + [a, b];
      }
      if 6 in estimates {
        var a := ApplyFee(NonAnchorChannelFee, estimates[6], normal);
        var b := ApplyFee(ChannelCloseMinimum, estimates[6], normal);
        updates := updates + [a, b];
      }
      if 25 in estimates {
        var a := ApplyFee(OutputSpendingFee, estimates[25], normal);
        updates := updates + [a];
      }
    }
  }

  function UpdateOf(target: Target, rate: Rate, max: nat): Update {
    var converted, stored := Max(RawSatPerKwu(rate), MIN_FEERATE), ClampedSatPerKwu(rate, max);
    Update(target, converted, stored, stored != converted)
  }

  function Updates(estimates: map<nat, Rate>, normal: nat): seq<Update> {
    (if 1 in estimates then [UpdateOf(MaximumFeeEstimate, estimates[1], HighPriorityCap(normal)),
                             UpdateOf(UrgentOnChainSweep, estimates[1], HighPriorityCap(normal))] else [])
    + (if 6 in estimates then [UpdateOf(NonAnchorChannelFee, estimates[6], normal),
                               UpdateOf(ChannelCloseMinimum, estimates[6], normal)] else [])
    + (if 25 in estimates then [UpdateOf(OutputSpendingFee, estimates[25], normal)] else [])
  }

  lemma RefreshedInOrder(fees: Fees, estimates: map<nat, Rate>, normal: nat)
    requires Complete(fees)
    ensures var high := HighPriorityCap(normal);
            var a := if 1 in estimates then fees[MaximumFeeEstimate := ClampedSatPerKwu(estimates[1], high)]
                                                [UrgentOnChainSweep := ClampedSatPerKwu(estimates[1], high)] else fees;
            var b := if 6 in estimates then a[NonAnchorChannelFee := ClampedSatPerKwu(estimates[6], normal)]
                                             [ChannelCloseMinimum := ClampedSatPerKwu(estimates[6], normal)] else a;
            var c := if 25 in estimates then b[OutputSpendingFee := ClampedSatPerKwu(estimates[25], normal)] else b;
            c == Refreshed(fees, estimates, normal)
  {
    hide ClampedSatPerKwu, HighPriorityCap;
  }

  predicate IsUpdate(u: Update, estimates: map<nat, Rate>, normal: nat) {
    && Source(u.target).Some? && Source(u.target).value in estimates
    && u == UpdateOf(u.target, estimates[Source(u.target).value], Cap(u.target, normal))
  }

  lemma UpdatesAreUpdates(estimates: map<nat, Rate>, normal: nat)
    ensures forall u :: u in Updates(estimates, normal) ==> IsUpdate(u, estimates, normal)
  {
    hide RawSatPerKwu, ClampedSatPerKwu, HighPriorityCap;
  }

  lemma ClampedWhenAboveCap(t: Target, rate: Rate, max: nat)
    ensures UpdateOf(t, rate, max).wasClamped <==> UpdateOf(t, rate, max).converted > Max(max, MIN_FEERATE)
  {
    hide RawSatPerKwu;
  }

  /** Each update reports the fee now in the cache, and says clamped exactly when the converted
      rate is above the cap of its target; a target has an update exactly when it has an estimate. */
  lemma UpdatesTellTheTruth(fees: Fees, estimates: map<nat, Rate>, normal: nat, t: Target)
    requires Complete(fees)
    ensures forall u :: u in Updates(estimates, normal) && u.target == t ==>
              && u.stored == Refreshed(fees, estimates, normal)[t]
              && (u.wasClamped <==> u.converted > Max(Cap(t, normal), MIN_FEERATE))
    ensures (exists u :: u in Updates(estimates, normal) && u.target == t) <==>
            Source(t).Some? && Source(t).value in estimates
  {
    UpdatesAreUpdates(estimates, normal);
    if Source(t).Some? && Source(t).value in estimates {
      var rate := estimates[Source(t).value];
      assert UpdateOf(t, rate, Cap(t, normal)) in Updates(estimates, normal);
      ClampedWhenAboveCap(t, rate, Cap(t, normal));
    }
    hide RawSatPerKwu, ClampedSatPerKwu, HighPriorityCap, Updates;
  }

  // ----- the conversion ---------------------------------------------------------------------

  lemma CeilMonotone(x: real, y: real)
    requires x <= y
    ensures Ceil(x) <= Ceil(y)
  {
  }

  /** The clamped conversion never lowers the fee when the rate rises. */
  lemma ClampedMonotone(x: real, y: real, max: nat)
    requires x <= y
    ensures ClampedSatPerKwu(Finite(x), max) <= ClampedSatPerKwu(Finite(y), max)
  {
    CeilMonotone(x * 250.0, y * 250.0);
  }

  /** The raw conversion does so except where the rate turns from nothing to less than the floor. */
  lemma RawMonotoneIff(x: real, y: real)
    requires x <= y
    ensures RawSatPerKwu(Finite(x)) <= RawSatPerKwu(Finite(y)) <==> !(x <= 0.0 && 0.0 < y && y * 250.0 <= 252.0)
  {
    CeilMonotone(x * 250.0, y * 250.0);
  }

  /** A positive rate becomes 250 times itself, rounded up, or the largest 32-bit number. */
  lemma RawRoundsUp(x: real)
    requires x > 0.0
    ensures var r := RawSatPerKwu(Finite(x));
            if x * 250.0 <= 4294967295.0 then r as real - 1.0 < x * 250.0 <= r as real else r == 4294967295
  {
  }

  /** The stored fee for a positive rate, for a cap no lower than the floor: the floor, the cap, or the
      rate rounded up. */
  lemma ClampedRoundsUp(x: real, max: nat)
    requires x > 0.0 && 253 <= max <= U32_MAX
    ensures var r := ClampedSatPerKwu(Finite(x), max);
            if x * 250.0 <= 253.0 then r == 253
            else if x * 250.0 > max as real then r == max
            else r as real - 1.0 < x * 250.0 <= r as real
  {
    RawRoundsUp(x);
    hide RawSatPerKwu;
  }

  // ----- the cache over time ----------------------------------------------------------------

  function RefreshedBy(fees: Fees, history: seq<map<nat, Rate>>, normal: nat): Fees {
    if history == [] then fees
    else Refreshed(RefreshedBy(fees, history[..|history| - 1], normal), history[|history| - 1], normal)
  }

  /** Some map in the history has an estimate for the target. */
  predicate Touched(t: Target, history: seq<map<nat, Rate>>) {
    Source(t).Some? && exists i :: 0 <= i < |history| && Source(t).value in history[i]
  }

  lemma TouchedLater(t: Target, history: seq<map<nat, Rate>>)
    requires history != []
    ensures Touched(t, history) <==>
            Touched(t, history[..|history| - 1]) || (Source(t).Some? && Source(t).value in history[|history| - 1])
  {
    var past := history[..|history| - 1];
    assert forall i :: 0 <= i < |past| ==> past[i] == history[i];
  }

  /** The caps: a configured one no lower than the floor or 5000, and at least 50000 for the two targets
      with high priority. */
  lemma CapIs(t: Target, parsed: Option<nat>)
    ensures var n := if parsed.Some? && parsed.value >= 253 then parsed.value else 5000;
            Cap(t, NormalCap(parsed)) ==
            if t != MaximumFeeEstimate && t != UrgentOnChainSweep then n else if n < 50000 then 50000 else n
  {
  }

  function LastEstimate(t: Target, history: seq<map<nat, Rate>>): Option<Rate> {
    if history == [] || Source(t).None? then None
    else if Source(t).value in history[|history| - 1] then Some(history[|history| - 1][Source(t).value])
    else LastEstimate(t, history[..|history| - 1])
  }

  /** Each fee is the clamped last estimate there was for it, whatever came before. */
  lemma {:induction false} LastEstimateDecides(fees: Fees, history: seq<map<nat, Rate>>, normal: nat, t: Target)
    requires t in fees
    ensures var last := LastEstimate(t, history);
            && t in RefreshedBy(fees, history, normal)
            && RefreshedBy(fees, history, normal)[t] ==
               if last.Some? then ClampedSatPerKwu(last.value, Cap(t, normal)) else fees[t]
  {
    if history != [] {
      LastEstimateDecides(fees, history[..|history| - 1], normal, t);
      hide ClampedSatPerKwu;
    }
  }

  /** After any sequence of estimate maps every fee is at least the floor, a fee some map had an
      estimate for is within its cap, and any other keeps its value. */
  lemma {:induction false} FeesStayBounded(fees: Fees, history: seq<map<nat, Rate>>, parsed: Option<nat>, t: Target)
    requires t in fees && fees[t] >= 253
    ensures var after := RefreshedBy(fees, history, NormalCap(parsed));
            && t in after && after[t] >= 253
            && (if Touched(t, history) then after[t] <= Cap(t, NormalCap(parsed)) else after[t] == fees[t])
  {
    if history != [] {
      FeesStayBounded(fees, history[..|history| - 1], parsed, t);
      TouchedLater(t, history);
      hide RawSatPerKwu, Touched;
    }
  }
}
