/** AMM quotes (src/math/amm.rs). */
module Amm {
  import opened Arithmetic
  import opened State
  import opened Utils
  import opened Fee

  /** Quote reserve the pool prices against: the vault balance shifted by the signed virtual reserve. */
  function EffectiveQuoteReserve(pool: Pool, quoteVaultBalance: u64): (r: Result<u64>)
  {
    var v := quoteVaultBalance + pool.virtualQuoteReserves;
    if 0 <= v <= U64_MAX then Ok(v) else Err(MathOverflow)
  }

  function FeeBucketsTotal(pool: Pool): (r: Result<u64>)
  {
    if pool.protocolFees + pool.creatorFees > U64_MAX then Err(MathOverflow)
    else Ok(pool.protocolFees + pool.creatorFees)
  }

  /** Vault balance that is liquidity: sells are paid out of this. */
  function RealQuoteReserve(pool: Pool, quoteVaultBalance: u64): (r: Result<u64>)
  {
    var buckets :- FeeBucketsTotal(pool);
    if quoteVaultBalance < buckets then Err(MathOverflow) else Ok(quoteVaultBalance - buckets)
  }

  /** Bit 3 of the flags turns buys off, bit 4 sells. */
  predicate TradingEnabled(globalConfig: GlobalConfig, isBuy: bool) {
    globalConfig.disableFlags / (if isBuy then 8 else 16) % 2 == 0
  }

  datatype AmmContext = AmmContext(
    globalConfig: GlobalConfig,
    feeConfig: FeeConfig,
    baseMint: Pubkey,
    poolCreator: Pubkey,
    coinCreator: Pubkey,
    quoteMint: Pubkey,
    creatorFeeBps: u64,
    baseReserve: u64,
    quoteReserve: u64,
    baseMintSupply: u64,
    realQuoteReserve: u64)
  {
    predicate HasReserves() {
      baseReserve > 0 && quoteReserve > 0
    }

    function FeeBps(): Result<Fees>
      requires baseReserve > 0
    {
      ComputeAmmFeeBps(globalConfig, feeConfig, baseMint, poolCreator, quoteMint,
                       creatorFeeBps, baseMintSupply, baseReserve, quoteReserve)
    }

    /** LP, protocol and coin-creator rates; the last is 0 without a coin creator. */
    function TradeRates(): Result<Rates>
      requires baseReserve > 0
    {
      var fees :- FeeBps();
      Ok(Rates(fees.lpFeeBps, fees.protocolFeeBps, if coinCreator == DefaultKey then 0 else fees.creatorFeeBps))
    }
  }

  datatype BuyQuoteInputResult = BuyQuoteInputResult(baseAmountOut: u64, effectiveQuote: u64)
  datatype BuyBaseInputResult = BuyBaseInputResult(totalQuoteIn: u64, rawQuoteIn: u64)
  datatype SellBaseInputResult = SellBaseInputResult(finalQuoteOut: u64, rawQuoteOut: u64)

  /** Exact quote in, tokens out. */
  function BuyQuoteInput(ctx: AmmContext, quoteIn: u64): (r: Result<BuyQuoteInputResult>)
  {
    if !TradingEnabled(ctx.globalConfig, true) then Err(TradingDisabled) else
    if !ctx.HasReserves() then Err(EmptyReserves) else
    var rates :- ctx.TradeRates();
    var e :- ExactInFeeAmounts(quoteIn, rates);
    var baseOut := SwapU64(e.net - 1, ctx.quoteReserve, ctx.baseReserve).value;
    if baseOut == 0 then Err(ZeroAmount) else Ok(BuyQuoteInputResult(baseOut, e.net))
  }

  /** Tokens out, fee-inclusive cost; totals are cast to `u64`. */
  function BuyBaseInput(ctx: AmmContext, baseOut: u64): (r: Result<BuyBaseInputResult>)
  {
    if !TradingEnabled(ctx.globalConfig, true) then Err(TradingDisabled) else
    if !ctx.HasReserves() then Err(EmptyReserves) else
    if baseOut >= ctx.baseReserve then Err(BaseOutExceedsReserve) else
    RawPriceFitsU128(ctx, baseOut);
    var raw := RawPrice(ctx, baseOut);
    var fees :- ctx.FeeBps();
    var lp := FeeAmountWide(raw, fees.lpFeeBps);
    var protocol := FeeAmountWide(raw, fees.protocolFeeBps);
    var creator := CreatorFeeAmountWide(ctx.coinCreator, raw, fees.creatorFeeBps);
    Ok(BuyBaseInputResult(TruncU64(WrapU128(raw + lp + protocol + creator)), TruncU64(raw)))
  }

  /** Ceiling price of `baseOut` tokens, fees not applied. */
  function RawPrice(ctx: AmmContext, baseOut: nat): nat
    requires baseOut < ctx.baseReserve
  {
    CeilDiv(ctx.quoteReserve * baseOut, ctx.baseReserve - baseOut)
  }

  lemma RawPriceFitsU128(ctx: AmmContext, baseOut: nat)
    requires baseOut < ctx.baseReserve
    ensures RawPrice(ctx, baseOut) <= U128_MAX
  {
    hide CeilDiv;
    ProductFits(ctx.quoteReserve, baseOut);
    CeilAtMost(ctx.quoteReserve * baseOut, ctx.baseReserve - baseOut);
  }

  /** Tokens in, quote out after fees; the vault must cover everything but the LP fee. */
  function SellBaseInput(ctx: AmmContext, baseIn: u64): (r: Result<SellBaseInputResult>)
  {
    if !TradingEnabled(ctx.globalConfig, false) then Err(TradingDisabled) else
    if !ctx.HasReserves() then Err(EmptyReserves) else
    var raw := SwapU64(baseIn, ctx.baseReserve, ctx.quoteReserve).value;
    var fees :- ctx.FeeBps();
    var lp := FeeAmountWide(raw, fees.lpFeeBps);
    var protocol := FeeAmountWide(raw, fees.protocolFeeBps);
    var creator := CreatorFeeAmountWide(ctx.coinCreator, raw, fees.creatorFeeBps);
    if raw < lp + protocol + creator then Err(FeesExceedOutput) else
    if ctx.realQuoteReserve < raw - lp then Err(InsufficientRealQuoteReserves) else
    Ok(SellBaseInputResult(raw - (lp + protocol + creator), raw))
  }

  // ---- multi-hop ----

  /** Fee components one hop charges. */
  datatype HopFees = HopFees(protocol: bool, creator: bool, lp: bool) {
    /** Bit 0 protocol, bit 1 creator. */
    function CurveFlags(): u8 {
      (if protocol then 1 else 0) + (if creator then 2 else 0)
    }
  }

  /** The user's-currency end pays the protocol fee, the far-coin end the creator and LP fees. */
  function ForHop(routeIsBuy: bool, index: nat, hops: nat): HopFees {
    var first, last := index == 0, index + 1 == hops;
    var protocol, target := if routeIsBuy then first else last, if routeIsBuy then last else first;
    HopFees(protocol, target, target)
  }

  /** Output of one pool hop, charging only the components in `legs`. A buy spends the whole input. */
  function MultiHopPoolHop(
    globalConfig: GlobalConfig, cfg: FeeConfig, pool: Pool, baseReserve: u64, quoteVaultBalance: u64,
    baseMintSupply: u64, isBuy: bool, amountIn: u64, legs: HopFees): (r: Result<u64>)
  {
    if !TradingEnabled(globalConfig, isBuy) then Err(TradingDisabled) else
    if !IsPumpPool(pool.baseMint, pool.creator) || (legs.creator && pool.isCashbackCoin) || pool.isMayhemMode
    then Err(VenueNotSupported) else
    var realQuote :- RealQuoteReserve(pool, quoteVaultBalance);
    var quoteReserve :- EffectiveQuoteReserve(pool, quoteVaultBalance);
    if baseReserve == 0 || quoteReserve == 0 then Err(EmptyReserves) else
    var fees :- ComputeAmmFeeBps(globalConfig, cfg, pool.baseMint, pool.creator, pool.quoteMint,
                                 pool.creatorFeeBps, baseMintSupply, baseReserve, quoteReserve);
    var rates := HopRates(fees, legs, pool.coinCreator != DefaultKey);
    if isBuy then PoolHopBuy(baseReserve, quoteReserve, amountIn, rates)
    else PoolHopSell(baseReserve, quoteReserve, realQuote, amountIn, rates)
  }

  function HopRates(fees: Fees, legs: HopFees, hasCreator: bool): Rates {
    Rates(if legs.lp then fees.lpFeeBps else 0,
          if legs.protocol then fees.protocolFeeBps else 0,
          if legs.creator && hasCreator then fees.creatorFeeBps else 0)
  }

  /** The derivation leaves a positive net, so the whole-budget net is positive as well. */
  function PoolHopBuy(baseReserve: u64, quoteReserve: u64, amountIn: u64, rates: Rates): (r: Result<u64>)
    requires quoteReserve > 0
  {
    var e :- ExactInFeeAmounts(amountIn, rates);
    var out := SwapU64(amountIn - e.Fees() - 1, quoteReserve, baseReserve).value;
    if out == 0 then Err(ZeroAmount) else Ok(out)
  }

  function PoolHopSell(baseReserve: u64, quoteReserve: u64, realQuote: u64, amountIn: u64, rates: Rates)
    : (r: Result<u64>)
    requires baseReserve > 0
  {
    var gross := SwapU64(amountIn, baseReserve, quoteReserve).value;
    var lp := FeeAmount(gross, rates.first);
    if gross < lp then Err(FeesExceedOutput) else
    if realQuote < gross - lp then Err(InsufficientRealQuoteReserves) else
    var others := FeeAmount(gross, rates.second) + FeeAmount(gross, rates.third);
    if gross - lp < others then Err(FeesExceedOutput) else
    if gross - lp == others then Err(ZeroAmount) else Ok(gross - lp - others)
  }
}
