/** Fee math and fee-schedule selection (src/math/fees.rs). */
module Fee {
  import opened Arithmetic
  import opened State

  const BPS: nat := 10_000

  /** The three rates of an exact-in buy; the curve uses two and leaves the third at 0. */
  datatype Rates = Rates(first: u64, second: u64, third: u64)

  /** Outcome of the exact-in derivation: what is swapped and each fee charged. */
  datatype ExactIn = ExactIn(net: u64, fee0: u64, fee1: u64, fee2: u64) {
    function Fees(): nat { fee0 + fee1 + fee2 }
  }

  function TotalBps(rates: Rates): nat {
    rates.first + rates.second + rates.third
  }

  function One(rate: u64): nat {
    if rate == 0 then 0 else 1
  }

  /** Number of nonzero rates. */
  function Charged(rates: Rates): nat {
    One(rates.first) + One(rates.second) + One(rates.third)
  }

  /** The most the overshoot can be: one unit per charged rate after the first. */
  function MaxShave(rates: Rates): nat {
    if Charged(rates) == 0 then 0 else Charged(rates) - 1
  }

  /** `ceil(amount * bps / 10_000)`. */
  function FeeAmount(amount: nat, bps: nat): (r: nat)
  {
    CeilDiv(amount * bps, BPS)
  }

  /** The same fee on an amount wider than `u64`, where the product can wrap. */
  function FeeAmountWide(amount: u128, bps: u64): (r: u128)
    ensures amount <= U64_MAX ==> r == FeeAmount(amount, bps)
  {
    if amount <= U64_MAX then
      ProductFits(amount, bps);
      CeilDiv(WrapU128(amount * bps), BPS)
    else
      CeilDiv(WrapU128(amount * bps), BPS)
  }

  function CreatorFeeAmountWide(creator: Pubkey, amount: u128, bps: u64): (r: u128)
    ensures amount <= U64_MAX ==> r == FeeAmount(amount, if creator == DefaultKey then 0 else bps)
  {
    if creator == DefaultKey then 0 else FeeAmountWide(amount, bps)
  }

  function FeeTotal(amount: nat, rates: Rates): nat {
    FeeAmount(amount, rates.first) + FeeAmount(amount, rates.second) + FeeAmount(amount, rates.third)
  }

  /** The net before any shave: the input with the total rate divided out, rounded down. */
  function FlooredNet(amountIn: nat, rates: Rates): nat {
    Floor(amountIn * BPS, BPS + TotalBps(rates))
  }

  // ---- the exact-in derivation ----

  /** Floor the net, charge each ceiled fee on that net, then shave any overshoot off the net. */
  function ExactInFeeAmounts(amountIn: u64, rates: Rates): (r: Result<ExactIn>)
    ensures r.Ok? ==> r.value.net >= 1 && r.value.net + r.value.Fees() <= amountIn
  {
    var net := FlooredNet(amountIn, rates);
    if net == 0 then Err(ZeroAmount) else
    var fee0 := FeeAmount(net, rates.first);
    var fee1 := FeeAmount(net, rates.second);
    var fee2 := FeeAmount(net, rates.third);
    var cost := net + fee0 + fee1 + fee2;
    if cost > amountIn then
      if net <= cost - amountIn then Err(ZeroAmount)
      else Ok(ExactIn(net - (cost - amountIn), fee0, fee1, fee2))
    else Ok(ExactIn(net, fee0, fee1, fee2))
  }

  /** The derivation as the source runs it, with `net` reassigned by the shave. */
  method DeriveExactIn(amountIn: u64, rates: Rates) returns (r: Result<ExactIn>)
    ensures r == ExactInFeeAmounts(amountIn, rates)
  {
    var net: int := FlooredNet(amountIn, rates);
    if net == 0 {
      return Err(ZeroAmount);
    }
    var fee0, fee1, fee2 :=
      FeeAmount(net, rates.first), FeeAmount(net, rates.second), FeeAmount(net, rates.third);
    var cost := net + fee0 + fee1 + fee2;
    if cost > amountIn {
      net := net - (cost - amountIn);
      if net <= 0 {
        return Err(ZeroAmount);
      }
    }
    return Ok(ExactIn(net, fee0, fee1, fee2));
  }

  /** The net an input leaves to swap, a refused input counting as nothing. */
  function NetOrZero(amountIn: u64, rates: Rates): nat {
    match ExactInFeeAmounts(amountIn, rates)
    case Ok(e) => e.net
    case Err(_) => 0
  }

  // ---- bounds on single and summed fees ----

  lemma FeeBounds(amount: nat, bps: nat)
    ensures amount * bps <= BPS * FeeAmount(amount, bps) <= amount * bps + 9_999
    ensures bps == 0 ==> FeeAmount(amount, bps) == 0
  {}

  /** A wide fee is the exact one precisely while its product fits 128 bits. */
  lemma WideFeeExactIffFits(amount: u128, bps: u64)
    ensures FeeAmountWide(amount, bps) == FeeAmount(amount, bps) <==> amount * bps <= U128_MAX
  {
    var product := amount * bps;
    if amount <= U64_MAX {
      ProductFits(amount, bps);
    }
    WrappedCeil(product);
  }

  lemma WrappedCeil(product: nat)
    ensures CeilDiv(WrapU128(product), BPS) == CeilDiv(product, BPS) <==> product <= U128_MAX
  {
    var wrapped := WrapU128(product);
    CeilBracket(product, BPS);
    CeilBracket(wrapped, BPS);
  }

  /** Ten-thousandths of a unit that rounding the fee up adds. */
  function RoundUp(amount: nat, bps: nat): nat {
    (0 - amount * bps) % BPS
  }

  lemma FeeRoundUp(amount: nat, bps: nat)
    ensures BPS * FeeAmount(amount, bps) == amount * bps + RoundUp(amount, bps)
  {}

  /** The fees stay within the amount exactly when the share the rates leave covers the three roundings. */
  lemma FeesWithinIff(amount: nat, rates: Rates)
    ensures FeeTotal(amount, rates) <= amount <==>
            RoundUp(amount, rates.first) + RoundUp(amount, rates.second) + RoundUp(amount, rates.third)
            <= amount * (BPS - TotalBps(rates))
  {
    FeeRoundUp(amount, rates.first);
    FeeRoundUp(amount, rates.second);
    FeeRoundUp(amount, rates.third);
    hide FeeAmount, RoundUp;
    Distribute(amount, rates.first, rates.second, rates.third);
    assert amount * (BPS - TotalBps(rates)) == amount * BPS - amount * TotalBps(rates);
  }

  lemma FeeMono(amount: nat, amount': nat, bps: nat)
    requires amount <= amount'
    ensures FeeAmount(amount, bps) <= FeeAmount(amount', bps)
  {
    MulLe(amount, amount', bps);
    CeilMono(amount * bps, amount' * bps, BPS);
  }

  lemma FeeTotalMono(amount: nat, amount': nat, rates: Rates)
    requires amount <= amount'
    ensures FeeTotal(amount, rates) <= FeeTotal(amount', rates)
  {
    FeeMono(amount, amount', rates.first);
    FeeMono(amount, amount', rates.second);
    FeeMono(amount, amount', rates.third);
  }

  lemma Distribute(x: int, a: int, b: int, c: int)
    ensures x * (a + b + c) == x * a + x * b + x * c
  {}

  lemma FeeTotalBounds(amount: nat, rates: Rates)
    ensures amount * TotalBps(rates) <= BPS * FeeTotal(amount, rates)
    ensures BPS * FeeTotal(amount, rates) <= amount * TotalBps(rates) + 9_999 * Charged(rates)
  {
    FeeBounds(amount, rates.first);
    FeeBounds(amount, rates.second);
    FeeBounds(amount, rates.third);
    Distribute(amount, rates.first, rates.second, rates.third);
  }

  lemma FlooredNetBracket(amountIn: nat, rates: Rates)
    ensures var n, t := FlooredNet(amountIn, rates), TotalBps(rates);
            n * BPS + n * t <= amountIn * BPS < n * BPS + n * t + BPS + t
  {
    var n, t := FlooredNet(amountIn, rates), TotalBps(rates);
    var d := BPS + t;
    FloorGalois(amountIn * BPS, d, n);
    FloorGalois(amountIn * BPS, d, n + 1);
    assert n * d == n * BPS + n * t;
    assert (n + 1) * d == n * d + d;
  }

  /** The fee-inclusive price of the floored net brackets the input. */
  lemma CostBracket(amountIn: nat, rates: Rates)
    ensures var n := FlooredNet(amountIn, rates);
            && n + FeeTotal(n, rates) <= amountIn + MaxShave(rates)
            && amountIn <= n + FeeTotal(n, rates) + CeilDiv(TotalBps(rates), BPS)
  {
    hide FlooredNet, FeeTotal;
    var n, t := FlooredNet(amountIn, rates), TotalBps(rates);
    var product, fees := n * t, FeeTotal(n, rates);
    assert n * BPS + product <= amountIn * BPS < n * BPS + product + BPS + t by {
      FlooredNetBracket(amountIn, rates);
    }
    assert product <= BPS * fees <= product + 9_999 * Charged(rates) by {
      FeeTotalBounds(n, rates);
    }
    BracketFromProduct(amountIn, n, product, fees, t, Charged(rates));
  }

  lemma BracketFromProduct(amountIn: nat, n: nat, product: nat, fees: nat, total: nat, charged: nat)
    requires n * BPS + product <= amountIn * BPS < n * BPS + product + BPS + total
    requires product <= BPS * fees <= product + 9_999 * charged
    ensures n + fees <= amountIn + if charged == 0 then 0 else charged - 1
    ensures amountIn <= n + fees + CeilDiv(total, BPS)
  {
    CeilGalois(total, BPS, CeilDiv(total, BPS));
  }

  lemma FlooredNetMono(amountIn: nat, amountIn': nat, rates: Rates)
    requires amountIn <= amountIn'
    ensures FlooredNet(amountIn, rates) <= FlooredNet(amountIn', rates)
  {
    FloorMono(amountIn * BPS, amountIn' * BPS, BPS + TotalBps(rates));
  }

  // ---- laws of the exact-in derivation ----

  lemma FlooredNetAtMost(amountIn: nat, rates: Rates)
    ensures FlooredNet(amountIn, rates) <= amountIn
  {
    hide FlooredNet;
    FlooredNetBracket(amountIn, rates);
    MulLe(0, FlooredNet(amountIn, rates), TotalBps(rates));
  }

  /** Every intermediate fits its machine width, whatever the input and the rates. */
  lemma ExactInNeverOverflows(amountIn: u64, rates: Rates)
    ensures amountIn * BPS <= U128_MAX && BPS + TotalBps(rates) <= U128_MAX
    ensures var n := FlooredNet(amountIn, rates);
            && n <= amountIn
            && n * rates.first <= U128_MAX && n * rates.second <= U128_MAX && n * rates.third <= U128_MAX
            && n + FeeTotal(n, rates) <= U128_MAX
            && FeeTotal(n, rates) <= amountIn + MaxShave(rates)
  {
    var n := FlooredNet(amountIn, rates);
    FlooredNetAtMost(amountIn, rates);
    CostBracket(amountIn, rates);
    ProductFits(n, rates.first);
    ProductFits(n, rates.second);
    ProductFits(n, rates.third);
  }

  /**
   * The whole derivation, stated without its body: the overshoot is at most one unit per
   * charged rate after the first, nothing beyond the input is ever charged, what is left
   * over is bounded by the total rate, and the only failure is an input whose floored net
   * does not survive the shave.
   */
  lemma ExactInKernel(amountIn: u64, rates: Rates)
    ensures var n := FlooredNet(amountIn, rates);
            match ExactInFeeAmounts(amountIn, rates)
            case Ok(e) =>
              && n - MaxShave(rates) <= e.net <= n
              && e.fee0 == FeeAmount(n, rates.first)
              && e.fee1 == FeeAmount(n, rates.second)
              && e.fee2 == FeeAmount(n, rates.third)
              && e.Fees() == FeeTotal(n, rates)
              && (e.net < n ==> e.net + e.Fees() == amountIn)
              && 0 <= amountIn - (e.net + e.Fees()) <= CeilDiv(TotalBps(rates), BPS)
            case Err(error) =>
              && error == ZeroAmount
              && n <= MaxShave(rates)
              && (n == 0 || FeeTotal(n, rates) >= amountIn)
  {
    CostBracket(amountIn, rates);
  }

  /** With at most two charged rates more input never nets less; with three it may lose one unit. */
  lemma NetMonotoneUpToOne(amountIn: u64, amountIn': u64, rates: Rates)
    requires amountIn <= amountIn'
    ensures Charged(rates) <= 2 ==> NetOrZero(amountIn, rates) <= NetOrZero(amountIn', rates)
    ensures NetOrZero(amountIn, rates) <= NetOrZero(amountIn', rates) + 1
  {
    FlooredNetMono(amountIn, amountIn', rates);
    ExactInKernel(amountIn, rates);
    ExactInKernel(amountIn', rates);
  }

  /** The overshoot of the fee-inclusive price over the input, before it is shaved off. */
  function Overshoot(amountIn: nat, rates: Rates): nat {
    var n := FlooredNet(amountIn, rates);
    if n + FeeTotal(n, rates) > amountIn then n + FeeTotal(n, rates) - amountIn else 0
  }

  lemma NetIsUnshavedLessOvershoot(amountIn: u64, rates: Rates)
    ensures var n, shave := FlooredNet(amountIn, rates), Overshoot(amountIn, rates);
            NetOrZero(amountIn, rates) == if n <= shave then 0 else n - shave
  {}

  /**
   * Exactly when one more unit of input nets less: the floored net grows from a nonzero
   * value that was not shaved to one that is shaved twice.
   */
  lemma NetDropsExactlyOnDoubleShave(amountIn: u64, rates: Rates)
    requires amountIn < U64_MAX
    ensures NetOrZero(amountIn + 1, rates) < NetOrZero(amountIn, rates) <==>
            && 0 < FlooredNet(amountIn, rates) < FlooredNet(amountIn + 1, rates)
            && Overshoot(amountIn, rates) == 0
            && Overshoot(amountIn + 1, rates) == 2
  {
    hide FlooredNet, FeeTotal, TotalBps;
    FlooredNetMono(amountIn, amountIn + 1, rates);
    FlooredNetStep(amountIn, rates);
    CostBracket(amountIn, rates);
    CostBracket(amountIn + 1, rates);
    NetIsUnshavedLessOvershoot(amountIn, rates);
    NetIsUnshavedLessOvershoot(amountIn + 1, rates);
  }

  lemma FlooredNetStep(amountIn: nat, rates: Rates)
    ensures FlooredNet(amountIn + 1, rates) <= FlooredNet(amountIn, rates) + 1
  {
    var n, t := FlooredNet(amountIn, rates), TotalBps(rates);
    var d := BPS + t;
    assert n * BPS + n * t <= amountIn * BPS < n * BPS + n * t + d by {
      FlooredNetBracket(amountIn, rates);
    }
    assert (n + 2) * d == n * BPS + n * t + d + d;
    FloorGalois((amountIn + 1) * BPS, d, n + 2);
  }

  /** The drop happens: three rates of 1% net 100 from 104 and 99 from 105. */
  lemma NetDropExample()
    ensures NetOrZero(104, Rates(100, 100, 100)) == 100
    ensures NetOrZero(105, Rates(100, 100, 100)) == 99
  {
    assert FlooredNet(104, Rates(100, 100, 100)) == 100;
    assert FlooredNet(105, Rates(100, 100, 100)) == 101;
  }

  lemma FlooredNetCovers(amountIn: nat, target: nat, rates: Rates)
    requires amountIn >= target + FeeTotal(target, rates)
    ensures FlooredNet(amountIn, rates) >= target
  {
    FeeTotalBounds(target, rates);
    FloorCovers(amountIn, target, FeeTotal(target, rates), TotalBps(rates));
  }

  lemma FloorCovers(amountIn: nat, target: nat, fees: nat, total: nat)
    requires amountIn >= target + fees && target * total <= BPS * fees
    ensures Floor(amountIn * BPS, BPS + total) >= target
  {
    var d := BPS + total;
    FloorGalois(amountIn * BPS, d, target);
    assert target * d == target * BPS + target * total;
  }

  /** Paying the fee-inclusive price of `target` nets `target` up to the shave. */
  lemma PriceNetsTarget(amountIn: u64, target: nat, rates: Rates)
    requires amountIn >= target + FeeTotal(target, rates)
    requires target > MaxShave(rates)
    ensures ExactInFeeAmounts(amountIn, rates).Ok?
    ensures NetOrZero(amountIn, rates) >= target - MaxShave(rates)
  {
    FlooredNetCovers(amountIn, target, rates);
    ExactInKernel(amountIn, rates);
  }

  // ---- schedule selection ----

  /** Index of the tier that prices a coin: the first below its own threshold, else the last one reached. */
  function SelectedTier(tiers: seq<FeeTier>, marketCap: nat): (r: Option<nat>)
    ensures r.None? <==> tiers == []
    ensures r.Some? ==> r.value < |tiers|
  {
    if tiers == [] then None
    else if marketCap < tiers[0].threshold then Some(0)
    else
      match LastReached(tiers, marketCap)
      case Some(i) => Some(i)
      case None => Some(0)
  }

  function CalculateFeeTier(tiers: seq<FeeTier>, marketCap: nat): (r: Option<Fees>)
    ensures r.None? <==> tiers == []
  {
    match SelectedTier(tiers, marketCap)
    case Some(i) => Some(tiers[i].fees)
    case None => None
  }

  /** Reverse search for a reached threshold. */
  function LastReached(tiers: seq<FeeTier>, marketCap: nat): (r: Option<nat>)
    ensures r.Some? ==>
              && r.value < |tiers|
              && tiers[r.value].threshold <= marketCap
              && forall j :: r.value < j < |tiers| ==> tiers[j].threshold > marketCap
    ensures r.None? ==> forall j :: 0 <= j < |tiers| ==> tiers[j].threshold > marketCap
  {
    if tiers == [] then None
    else if marketCap >= tiers[|tiers| - 1].threshold then Some(|tiers| - 1)
    else LastReached(tiers[..|tiers| - 1], marketCap)
  }

  /**
   * Tier `i` is due at a market cap of `value / per`: the last one whose threshold is reached, or the
   * first while the cap is below its threshold. Products instead of a quotient, so nothing is rounded.
   */
  predicate TierDue(tiers: seq<FeeTier>, value: nat, per: nat, i: nat)
    requires i < |tiers|
  {
    if value < tiers[0].threshold * per then i == 0
    else
      && tiers[i].threshold * per <= value
      && forall j :: i < j < |tiers| ==> value < tiers[j].threshold * per
  }

  /** Some tier is due at every cap, only one, and the table charges exactly its fees. */
  lemma TierDueIsCharged(tiers: seq<FeeTier>, value: nat, per: nat)
    requires tiers != [] && per > 0
    ensures exists i :: 0 <= i < |tiers| && TierDue(tiers, value, per, i)
    ensures forall i :: 0 <= i < |tiers| && TierDue(tiers, value, per, i) ==>
              CalculateFeeTier(tiers, Floor(value, per)) == Some(tiers[i].fees)
  {
    hide Floor;
    var cap := Floor(value, per);
    forall j | 0 <= j < |tiers|
      ensures tiers[j].threshold <= cap <==> tiers[j].threshold * per <= value
    {
      FloorGalois(value, per, tiers[j].threshold);
    }
    var selected := SelectedTier(tiers, cap).value;
    assert TierDue(tiers, value, per, selected);
    forall i | 0 <= i < |tiers| && TierDue(tiers, value, per, i)
      ensures i == selected
    {
      TierDueUnique(tiers, value, per, i, selected);
    }
  }

  lemma TierDueUnique(tiers: seq<FeeTier>, value: nat, per: nat, i: nat, i': nat)
    requires i < |tiers| && i' < |tiers|
    requires TierDue(tiers, value, per, i) && TierDue(tiers, value, per, i')
    ensures i == i'
  {}

  predicate Ascending(tiers: seq<FeeTier>) {
    forall i, j :: 0 <= i < j < |tiers| ==> tiers[i].threshold <= tiers[j].threshold
  }

  /** On ascending thresholds the tier due is the one interval the cap lies in. */
  lemma TierDueOnAscending(tiers: seq<FeeTier>, value: nat, per: nat, i: nat)
    requires Ascending(tiers) && i < |tiers| && tiers[0].threshold * per <= value
    ensures TierDue(tiers, value, per, i) <==>
            tiers[i].threshold * per <= value && (i + 1 < |tiers| ==> value < tiers[i + 1].threshold * per)
  {
    if i + 1 < |tiers| && value < tiers[i + 1].threshold * per {
      forall j | i < j < |tiers|
        ensures value < tiers[j].threshold * per
      {
        MulLe(tiers[i + 1].threshold, tiers[j].threshold, per);
      }
    }
  }

  /** A coin worth more per token is never priced by an earlier tier, whatever the order of the thresholds. */
  lemma TierIndexMonotone(
    tiers: seq<FeeTier>, value: nat, per: nat, value': nat, per': nat, i: nat, i': nat)
    requires value <= value' && per' <= per
    requires i < |tiers| && i' < |tiers|
    requires TierDue(tiers, value, per, i) && TierDue(tiers, value', per', i')
    ensures i <= i'
  {
    MulLe(per', per, tiers[0].threshold);
    MulLe(per', per, tiers[i].threshold);
  }

  function FeesForQuoteMint(cfg: FeeConfig, isPumpPool: bool, marketCap: nat, quoteMint: Pubkey): (r: Result<Fees>)
  {
    if !isPumpPool then Ok(cfg.flatFees)
    else if IsSolLikeQuoteMint(quoteMint) then TierOrError(cfg.feeTiers, marketCap)
    else if quoteMint == UsdcMint then TierOrError(cfg.stableFeeTiers, marketCap)
    else if cfg.exoticFlatFees == Fees(0, 0, 0) then Ok(cfg.flatFees)
    else Ok(cfg.exoticFlatFees)
  }

  function TierOrError(tiers: seq<FeeTier>, marketCap: nat): Result<Fees> {
    match CalculateFeeTier(tiers, marketCap)
    case Some(fees) => Ok(fees)
    case None => Err(EmptyFeeTiers)
  }

  /** The creator rate actually charged; a stored rate of 0 means none was configured. */
  function ConfiguredCreatorFeeBps(gateOn: bool, storedBps: u64, scheduleBps: u64): (r: u64)
    ensures gateOn && storedBps > 0 ==> r == storedBps
    ensures r != scheduleBps ==> gateOn && r == storedBps > 0
  {
    if gateOn && storedBps != 0 then storedBps else scheduleBps
  }

  predicate IsPumpPool(baseMint: Pubkey, poolCreator: Pubkey) {
    PoolAuthority(baseMint) == poolCreator
  }

  /** Curve fees; the market-cap division needs a nonzero token side. */
  function ComputeBondingCurveFeeBps(
    global: Global, cfg: FeeConfig, quoteMint: Pubkey, coinCreatorFeeBps: u64,
    mintSupply: u64, virtualQuote: u64, virtualToken: u64): (r: Result<Fees>)
    requires virtualToken > 0
  {
    var fees :- FeesForQuoteMint(cfg, true, Floor(virtualQuote * mintSupply, virtualToken), quoteMint);
    Ok(Fees(0, fees.protocolFeeBps,
            ConfiguredCreatorFeeBps(global.creatorFeeConfigurable, coinCreatorFeeBps, fees.creatorFeeBps)))
  }

  /** Pool fees; the market-cap division needs a nonzero base side. */
  function ComputeAmmFeeBps(
    globalConfig: GlobalConfig, cfg: FeeConfig, baseMint: Pubkey, poolCreator: Pubkey, quoteMint: Pubkey,
    coinCreatorFeeBps: u64, baseMintSupply: u64, baseReserve: u64, quoteReserve: u64): (r: Result<Fees>)
    requires baseReserve > 0
  {
    var fees :- FeesForQuoteMint(
      cfg, IsPumpPool(baseMint, poolCreator), Floor(quoteReserve * baseMintSupply, baseReserve), quoteMint);
    Ok(Fees(fees.lpFeeBps, fees.protocolFeeBps,
            ConfiguredCreatorFeeBps(globalConfig.creatorFeeConfigurable, coinCreatorFeeBps, fees.creatorFeeBps)))
  }
}
