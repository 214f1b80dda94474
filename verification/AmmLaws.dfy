/** How the AMM quoters relate: the exact-in / exact-out sandwich, sell solvency, one-hop refinement. */
module AmmLaws {
  import opened Arithmetic
  import opened State
  import opened Fee
  import opened Amm
  import opened Sdk

  /** A fee-inclusive price that fits 64 bits comes back untruncated from the token-out quoter. */
  lemma TokenOutTotal(ctx: AmmContext, baseOut: u64)
    requires TradingEnabled(ctx.globalConfig, true) && ctx.HasReserves()
    requires baseOut < ctx.baseReserve && ctx.TradeRates().Ok?
    requires RawPrice(ctx, baseOut) + FeeTotal(RawPrice(ctx, baseOut), ctx.TradeRates().value) <= U64_MAX
    ensures BuyBaseInput(ctx, baseOut)
            == Ok(BuyBaseInputResult(
                    RawPrice(ctx, baseOut) + FeeTotal(RawPrice(ctx, baseOut), ctx.TradeRates().value),
                    RawPrice(ctx, baseOut)))
  {
    RawPriceFitsU128(ctx, baseOut);
  }

  /** A price strictly below the net costs, fees included, strictly less than the input. */
  lemma PriceBelowNet(quoteIn: u64, rates: Rates, price: nat)
    requires ExactInFeeAmounts(quoteIn, rates).Ok?
    requires price < ExactInFeeAmounts(quoteIn, rates).value.net
    ensures price + FeeTotal(price, rates) < quoteIn
  {
    ExactInKernel(quoteIn, rates);
    FeeTotalMono(price, FlooredNet(quoteIn, rates), rates);
  }

  /** Whatever an exact-in buy delivers can be bought by amount for strictly less than the input. */
  lemma TokenOutBelowExactIn(ctx: AmmContext, quoteIn: u64)
    requires BuyQuoteInput(ctx, quoteIn).Ok?
    ensures var out := BuyQuoteInput(ctx, quoteIn).value.baseAmountOut;
            && BuyBaseInput(ctx, out).Ok?
            && BuyBaseInput(ctx, out).value.rawQuoteIn <= BuyBaseInput(ctx, out).value.totalQuoteIn < quoteIn
  {
    var bought := BuyQuoteInput(ctx, quoteIn).value;
    CpLeastInput(bought.effectiveQuote - 1, ctx.quoteReserve, ctx.baseReserve, bought.baseAmountOut);
    PriceBelowNet(quoteIn, ctx.TradeRates().value, RawPrice(ctx, bought.baseAmountOut));
    TokenOutTotal(ctx, bought.baseAmountOut);
  }

  /** Units past the raw price that make up for the swapped `net - 1` and for the shave. */
  function Slack(rates: Rates): nat {
    1 + MaxShave(rates)
  }

  /**
   * Conversely the fee-inclusive price of the raw price plus the slack (at most three units)
   * always buys at least the amount.
   */
  lemma ExactInReachesTokenOut(ctx: AmmContext, baseOut: u64, quoteIn: u64)
    requires TradingEnabled(ctx.globalConfig, true) && ctx.HasReserves() && ctx.TradeRates().Ok?
    requires 0 < baseOut < ctx.baseReserve
    requires var rates := ctx.TradeRates().value;
             var target := RawPrice(ctx, baseOut) + Slack(rates);
             quoteIn >= target + FeeTotal(target, rates)
    ensures Slack(ctx.TradeRates().value) <= 3
    ensures BuyQuoteInput(ctx, quoteIn).Ok?
    ensures BuyQuoteInput(ctx, quoteIn).value.baseAmountOut >= baseOut
  {
    hide FeeAmount, Floor;
    var rates := ctx.TradeRates().value;
    PriceNetsTarget(quoteIn, RawPrice(ctx, baseOut) + Slack(rates), rates);
    CpLeastInput(NetOrZero(quoteIn, rates) - 1, ctx.quoteReserve, ctx.baseReserve, baseOut);
  }

  /** A disable byte is read bit by bit: whatever else is set, 8 stops buys alone and 16 sells alone. */
  lemma DisableFlagsAreIndependent(globalConfig: GlobalConfig, low: nat, buysOff: bool, sellsOff: bool, high: nat)
    requires low < 8
    requires globalConfig.disableFlags
             == low + (if buysOff then 8 else 0) + (if sellsOff then 16 else 0) + 32 * high
    ensures TradingEnabled(globalConfig, true) <==> !buysOff
    ensures TradingEnabled(globalConfig, false) <==> !sellsOff
  {
    var buy, sell := if buysOff then 1 else 0, if sellsOff then 1 else 0;
    assert globalConfig.disableFlags / 8 == buy + 2 * (sell + 2 * high);
    assert globalConfig.disableFlags / 16 == sell + 2 * high;
  }

  /** An exact-in buy is refused on a disabled direction, an empty reserve, no tiers, or for buying nothing. */
  lemma ExactInRefusals(ctx: AmmContext, quoteIn: u64)
    ensures var r := BuyQuoteInput(ctx, quoteIn);
            if !TradingEnabled(ctx.globalConfig, true) then r == Err(TradingDisabled)
            else if !ctx.HasReserves() then r == Err(EmptyReserves)
            else if ctx.TradeRates().Err? then r == Err(EmptyFeeTiers)
            else r.Err? ==> r.error == ZeroAmount
  {
    hide CpOut, FlooredNet, FeeAmount, Floor, CalculateFeeTier;
  }

  /** A buy by amount is refused on the same grounds and, before the tiers, for the whole base side; nothing else. */
  lemma TokenOutRefusals(ctx: AmmContext, baseOut: u64)
    ensures var r := BuyBaseInput(ctx, baseOut);
            if !TradingEnabled(ctx.globalConfig, true) then r == Err(TradingDisabled)
            else if !ctx.HasReserves() then r == Err(EmptyReserves)
            else if baseOut >= ctx.baseReserve then r == Err(BaseOutExceedsReserve)
            else if ctx.TradeRates().Err? then r == Err(EmptyFeeTiers)
            else r.Ok?
  {
    hide CeilDiv, FeeAmountWide, CreatorFeeAmountWide, Floor, CalculateFeeTier;
  }

  /** A sale is refused on a disabled direction, an empty reserve, no tiers, its own fees, or the vault's liquidity. */
  lemma SaleRefusals(ctx: AmmContext, baseIn: u64)
    ensures var r := SellBaseInput(ctx, baseIn);
            if !TradingEnabled(ctx.globalConfig, false) then r == Err(TradingDisabled)
            else if !ctx.HasReserves() then r == Err(EmptyReserves)
            else if ctx.TradeRates().Err? then r == Err(EmptyFeeTiers)
            else
              var raw, rates := CpOut(baseIn, ctx.baseReserve, ctx.quoteReserve), ctx.TradeRates().value;
              if raw < FeeTotal(raw, rates) then r == Err(FeesExceedOutput)
              else r.Err? <==> ctx.realQuoteReserve < raw - FeeAmount(raw, rates.first)
  {
    hide CpOut, FeeAmount, Floor, CalculateFeeTier;
    if ctx.HasReserves() {
      FeeBounds(CpOut(baseIn, ctx.baseReserve, ctx.quoteReserve), 0);
    }
  }

  // ---- selling into a pool ----

  /**
   * A sale splits its raw proceeds exactly into seller, LP, protocol and creator parts, and
   * everything but the LP part is covered by the vault's liquidity.
   */
  lemma SellSplitsExactly(ctx: AmmContext, baseIn: u64)
    requires SellBaseInput(ctx, baseIn).Ok?
    ensures ctx.HasReserves() && ctx.TradeRates().Ok?
    ensures var sold, rates := SellBaseInput(ctx, baseIn).value, ctx.TradeRates().value;
            var lp, protocol, creator :=
              FeeAmount(sold.rawQuoteOut, rates.first),
              FeeAmount(sold.rawQuoteOut, rates.second),
              FeeAmount(sold.rawQuoteOut, rates.third);
            && sold.rawQuoteOut == CpOut(baseIn, ctx.baseReserve, ctx.quoteReserve) < ctx.quoteReserve
            && sold.rawQuoteOut == sold.finalQuoteOut + lp + protocol + creator
            && sold.finalQuoteOut + protocol + creator <= ctx.realQuoteReserve
  {
    FeeBounds(SellBaseInput(ctx, baseIn).value.rawQuoteOut, 0);
  }

  /**
   * A sale fails with the fee error exactly when the share its rates leave does not cover what
   * rounding the three fees up adds.
   */
  lemma SellFeeErrorIff(ctx: AmmContext, baseIn: u64)
    requires TradingEnabled(ctx.globalConfig, false) && ctx.HasReserves() && ctx.TradeRates().Ok?
    ensures var raw := CpOut(baseIn, ctx.baseReserve, ctx.quoteReserve);
            var rates := ctx.TradeRates().value;
            SellBaseInput(ctx, baseIn) == Err(FeesExceedOutput) <==>
            raw * (BPS - TotalBps(rates))
            < RoundUp(raw, rates.first) + RoundUp(raw, rates.second) + RoundUp(raw, rates.third)
  {
    hide CpOut, FeeAmount, RoundUp;
    FeesWithinIff(CpOut(baseIn, ctx.baseReserve, ctx.quoteReserve), ctx.TradeRates().value);
  }

  /** LP and protocol rates of 0.01% exceed the proceeds of a dust sale. */
  lemma SellFeesExceedExample(ctx: AmmContext)
    requires TradingEnabled(ctx.globalConfig, false) && ctx.baseReserve == 100 && ctx.quoteReserve == 2
    requires ctx.TradeRates() == Ok(Rates(1, 1, 0))
    ensures SellBaseInput(ctx, 100) == Err(FeesExceedOutput)
  {
    assert CpOut(100, 100, 2) == 1;
    SellFeeErrorIff(ctx, 100);
  }

  /**
   * A vault is its liquidity and its fee buckets, no more; pricing sees the vault shifted by the
   * virtual reserve. Both are refused exactly when no 64-bit amount satisfies that.
   */
  lemma VaultSplits(pool: Pool, vault: u64)
    ensures forall liquid: u64 ::
              RealQuoteReserve(pool, vault) == Ok(liquid) <==> liquid + pool.protocolFees + pool.creatorFees == vault
    ensures forall priced: u64 ::
              EffectiveQuoteReserve(pool, vault) == Ok(priced) <==> priced - pool.virtualQuoteReserves == vault
    ensures RealQuoteReserve(pool, vault).Err? ==> RealQuoteReserve(pool, vault) == Err(MathOverflow)
    ensures EffectiveQuoteReserve(pool, vault).Err? ==> EffectiveQuoteReserve(pool, vault) == Err(MathOverflow)
  {}

  /**
   * When the signed virtual reserve is exactly minus the fee buckets (no boost) the pricing
   * reserve is the liquidity, and a sale is never refused for lack of it.
   */
  lemma UnboostedPoolIsSolvent(
    globalConfig: GlobalConfig, cfg: FeeConfig, pool: Pool, baseReserve: u64, quoteVault: u64, supply: u64, baseIn: u64)
    requires pool.virtualQuoteReserves == -(pool.protocolFees + pool.creatorFees)
    requires ContextFor(globalConfig, cfg, LivePool(pool, baseReserve, quoteVault, supply)).Ok?
    ensures EffectiveQuoteReserve(pool, quoteVault) == RealQuoteReserve(pool, quoteVault)
    ensures SellBaseInput(ContextFor(globalConfig, cfg, LivePool(pool, baseReserve, quoteVault, supply)).value, baseIn)
            != Err(InsufficientRealQuoteReserves)
  {
    var ctx := ContextFor(globalConfig, cfg, LivePool(pool, baseReserve, quoteVault, supply)).value;
    if ctx.HasReserves() {
      CpBelowReserve(baseIn, ctx.baseReserve, ctx.quoteReserve);
    }
  }

  /** A freshly migrated pool, quoted before it exists, is solvent for the same reason. */
  lemma CompletedCurveIsSolvent(
    globalConfig: GlobalConfig, cfg: FeeConfig, global: Global, curve: BondingCurve,
    baseMint: Pubkey, supply: u64, baseIn: u64)
    requires ContextFor(globalConfig, cfg, CompletedCurve(global, curve, baseMint, supply)).Ok?
    ensures SellBaseInput(ContextFor(globalConfig, cfg, CompletedCurve(global, curve, baseMint, supply)).value, baseIn)
            != Err(InsufficientRealQuoteReserves)
  {
    var ctx := ContextFor(globalConfig, cfg, CompletedCurve(global, curve, baseMint, supply)).value;
    CpBelowReserve(baseIn, ctx.baseReserve, ctx.quoteReserve);
  }

  // ---- a one-hop route against a direct trade ----

  /** A pool every hop with these fee components accepts. */
  predicate Eligible(pool: Pool, legs: HopFees) {
    IsPumpPool(pool.baseMint, pool.creator) && !(pool.isCashbackCoin && legs.creator) && !pool.isMayhemMode
  }

  /**
   * A sell hop splits its gross exactly into the output and the components it charges, each at the
   * pool's own trade rate, and pays the nonzero output while the vault's liquidity covers all but LP.
   */
  lemma SellHopSplitsExactly(
    globalConfig: GlobalConfig, cfg: FeeConfig, pool: Pool, baseReserve: u64, quoteVault: u64, supply: u64,
    baseIn: u64, legs: HopFees, out: u64)
    requires Eligible(pool, legs)
    ensures MultiHopPoolHop(globalConfig, cfg, pool, baseReserve, quoteVault, supply, false, baseIn, legs) == Ok(out)
            <==>
            var ctx := ContextFor(globalConfig, cfg, LivePool(pool, baseReserve, quoteVault, supply));
            && TradingEnabled(globalConfig, false)
            && ctx.Ok? && ctx.value.HasReserves() && ctx.value.TradeRates().Ok?
            && var rates := ctx.value.TradeRates().value;
               var gross := CpOut(baseIn, baseReserve, ctx.value.quoteReserve);
               var lp := if legs.lp then FeeAmount(gross, rates.first) else 0;
               var protocol := if legs.protocol then FeeAmount(gross, rates.second) else 0;
               var creator := if legs.creator then FeeAmount(gross, rates.third) else 0;
               gross == out + lp + protocol + creator && gross - lp <= ctx.value.realQuoteReserve && out > 0
  {
    hide CpOut, FeeAmount;
    var ctx := ContextFor(globalConfig, cfg, LivePool(pool, baseReserve, quoteVault, supply));
    if ctx.Ok? && ctx.value.HasReserves() {
      FeeBounds(CpOut(baseIn, baseReserve, ctx.value.quoteReserve), 0);
    }
  }

  /** Of the full trade rates, those of the components in `legs`. */
  function ChargedRates(rates: Rates, legs: HopFees): Rates {
    Rates(if legs.lp then rates.first else 0,
          if legs.protocol then rates.second else 0,
          if legs.creator then rates.third else 0)
  }

  /**
   * A buy hop puts into the pool all of its input but the components it charges, so it buys `t`
   * tokens exactly when their price is below what is left.
   */
  lemma BuyHopSpendsTheRest(
    globalConfig: GlobalConfig, cfg: FeeConfig, pool: Pool, baseReserve: u64, quoteVault: u64, supply: u64,
    ctx: AmmContext, quoteIn: u64, legs: HopFees, t: nat)
    requires Eligible(pool, legs) && TradingEnabled(globalConfig, true)
    requires ctx.HasReserves() && ctx.TradeRates().Ok? && 0 < t < ctx.baseReserve
    requires ContextFor(globalConfig, cfg, LivePool(pool, baseReserve, quoteVault, supply)) == Ok(ctx)
    ensures var hop := MultiHopPoolHop(globalConfig, cfg, pool, baseReserve, quoteVault, supply, true, quoteIn, legs);
            hop.Ok? ==> 0 < hop.value < ctx.baseReserve
    ensures var e := ExactInFeeAmounts(quoteIn, ChargedRates(ctx.TradeRates().value, legs));
            var hop := MultiHopPoolHop(globalConfig, cfg, pool, baseReserve, quoteVault, supply, true, quoteIn, legs);
            hop.Ok? && t <= hop.value <==> e.Ok? && RawPrice(ctx, t) < quoteIn - e.value.Fees()
  {
    hide CpOut, ExactInFeeAmounts;
    var e := ExactInFeeAmounts(quoteIn, ChargedRates(ctx.TradeRates().value, legs));
    if e.Ok? {
      var m := quoteIn - e.value.Fees() - 1;
      CpLeastInput(m, ctx.quoteReserve, ctx.baseReserve, t);
      CpBelowReserve(m, ctx.quoteReserve, ctx.baseReserve);
    }
  }

  /** Once a hop's pool is priced a sale fails on the charged fees or the liquidity, a buy for buying nothing. */
  lemma PricedHopRefusals(baseReserve: u64, quoteReserve: u64, realQuote: u64, amount: u64, charged: Rates)
    requires baseReserve > 0 && quoteReserve > 0
    ensures var gross := CpOut(amount, baseReserve, quoteReserve);
            var lp, all := FeeAmount(gross, charged.first), FeeTotal(gross, charged);
            var r := PoolHopSell(baseReserve, quoteReserve, realQuote, amount, charged);
            && (r == Err(InsufficientRealQuoteReserves) <==> lp <= gross && realQuote < gross - lp)
            && (r == Err(FeesExceedOutput) <==> gross < all && (gross < lp || gross - lp <= realQuote))
            && (r == Err(ZeroAmount) <==> gross == all && gross - lp <= realQuote)
    ensures var r := PoolHopBuy(baseReserve, quoteReserve, amount, charged);
            r.Err? ==> r.error == ZeroAmount
  {
    hide CpOut, FeeAmount, FlooredNet;
  }

  const ALL_LEGS := HopFees(true, true, true)

  /** An all-legs sell hop succeeds with `out` exactly when the direct sale pays the nonzero `out`. */
  lemma OneHopSellIsDirectSell(
    globalConfig: GlobalConfig, cfg: FeeConfig, pool: Pool, baseReserve: u64, quoteVault: u64, supply: u64,
    baseIn: u64, out: u64)
    requires Eligible(pool, ALL_LEGS)
    ensures MultiHopPoolHop(globalConfig, cfg, pool, baseReserve, quoteVault, supply, false, baseIn, ALL_LEGS)
            == Ok(out)
            <==>
            var ctx := ContextFor(globalConfig, cfg, LivePool(pool, baseReserve, quoteVault, supply));
            && out > 0 && ctx.Ok?
            && SellBaseInput(ctx.value, baseIn).Ok?
            && SellBaseInput(ctx.value, baseIn).value.finalQuoteOut == out
  {
    hide CpOut, FeeAmount;
    var ctx := ContextFor(globalConfig, cfg, LivePool(pool, baseReserve, quoteVault, supply));
    if ctx.Ok? && ctx.value.HasReserves() && ctx.value.FeeBps().Ok? {
      assert HopRates(ctx.value.FeeBps().value, ALL_LEGS, pool.coinCreator != DefaultKey)
          == ctx.value.TradeRates().value;
    }
  }

  /** Whenever the direct exact-in buy succeeds the one-hop buy does too, with at least as many tokens. */
  lemma OneHopBuyDominates(
    globalConfig: GlobalConfig, cfg: FeeConfig, pool: Pool, baseReserve: u64, quoteVault: u64, supply: u64,
    quoteIn: u64)
    requires Eligible(pool, ALL_LEGS)
    requires ContextFor(globalConfig, cfg, LivePool(pool, baseReserve, quoteVault, supply)).Ok?
    requires var ctx := ContextFor(globalConfig, cfg, LivePool(pool, baseReserve, quoteVault, supply)).value;
             BuyQuoteInput(ctx, quoteIn).Ok?
    ensures var ctx := ContextFor(globalConfig, cfg, LivePool(pool, baseReserve, quoteVault, supply)).value;
            var hop := MultiHopPoolHop(
              globalConfig, cfg, pool, baseReserve, quoteVault, supply, true, quoteIn, ALL_LEGS);
            hop.Ok? && hop.value >= BuyQuoteInput(ctx, quoteIn).value.baseAmountOut
  {
    hide CpOut, FeeAmount, FlooredNet, ExactInFeeAmounts, ComputeAmmFeeBps;
    var ctx := ContextFor(globalConfig, cfg, LivePool(pool, baseReserve, quoteVault, supply)).value;
    var e := ExactInFeeAmounts(quoteIn, ctx.TradeRates().value).value;
    CpMono(e.net - 1, quoteIn - e.Fees() - 1, ctx.quoteReserve, baseReserve);
  }
}
