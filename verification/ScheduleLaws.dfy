/** Which rates a trade is charged: tiers by market cap, flat schedules, per-coin creator rates. */
module ScheduleLaws {
  import opened Arithmetic
  import opened State
  import opened Fee
  import opened Curve
  import opened Amm
  import opened Sdk

  /** The tier table of a quote that has one: USDC's own, or the one of every spelling of SOL. */
  predicate TierTable(cfg: FeeConfig, quoteMint: Pubkey, tiers: seq<FeeTier>) {
    || (quoteMint == UsdcMint && tiers == cfg.stableFeeTiers)
    || (quoteMint in {DefaultKey, NativeMint, Token2022NativeMint} && tiers == cfg.feeTiers)
  }

  predicate IsTiered(quoteMint: Pubkey) {
    quoteMint in {UsdcMint, DefaultKey, NativeMint, Token2022NativeMint}
  }

  /** Tier `i` is due at a curve's price times the supply: of the live mint, or on a mayhem coin its own record. */
  predicate CurveTierDue(curve: BondingCurve, mintSupply: u64, tiers: seq<FeeTier>, i: nat)
    requires i < |tiers|
  {
    var supply := if curve.isMayhemMode then curve.tokenTotalSupply else mintSupply;
    TierDue(tiers, curve.virtualQuoteReserves * supply, curve.virtualTokenReserves, i)
  }

  /** A curve quoted in SOL or USDC pays the rates of the tier due, its own creator rate apart. */
  lemma CurvePaysTierDue(
    global: Global, cfg: FeeConfig, curve: BondingCurve, mintSupply: u64, tiers: seq<FeeTier>)
    requires curve.virtualTokenReserves > 0 && TierTable(cfg, curve.quoteMint, tiers)
    ensures CurveFeeBps(global, cfg, curve, mintSupply) == Err(EmptyFeeTiers) <==> tiers == []
    ensures tiers != [] ==> exists i :: 0 <= i < |tiers| && CurveTierDue(curve, mintSupply, tiers, i)
    ensures forall i :: 0 <= i < |tiers| && CurveTierDue(curve, mintSupply, tiers, i) ==>
              var fees := tiers[i].fees;
              var creator :=
                ConfiguredCreatorFeeBps(global.creatorFeeConfigurable, curve.creatorFeeBps, fees.creatorFeeBps);
              CurveFeeBps(global, cfg, curve, mintSupply)
              == Ok(CurveBps(fees.protocolFeeBps, if curve.creator == DefaultKey then 0 else creator))
  {
    hide Floor, TierDue;
    if tiers != [] {
      var value := curve.virtualQuoteReserves * (if curve.isMayhemMode then curve.tokenTotalSupply else mintSupply);
      TierDueIsCharged(tiers, value, curve.virtualTokenReserves);
      var i :| 0 <= i < |tiers| && TierDue(tiers, value, curve.virtualTokenReserves, i);
      assert CurveTierDue(curve, mintSupply, tiers, i);
    }
  }

  /** A curve holding fewer tokens against more quote is never in an earlier tier. */
  lemma RicherCurveLaterTier(
    curve: BondingCurve, curve': BondingCurve, mintSupply: u64, tiers: seq<FeeTier>, i: nat, i': nat)
    requires curve'.isMayhemMode == curve.isMayhemMode && curve'.tokenTotalSupply == curve.tokenTotalSupply
    requires curve.virtualQuoteReserves <= curve'.virtualQuoteReserves
    requires curve'.virtualTokenReserves <= curve.virtualTokenReserves
    requires i < |tiers| && i' < |tiers|
    requires CurveTierDue(curve, mintSupply, tiers, i) && CurveTierDue(curve', mintSupply, tiers, i')
    ensures i <= i'
  {
    hide TierDue;
    var supply := if curve.isMayhemMode then curve.tokenTotalSupply else mintSupply;
    MulLe(curve.virtualQuoteReserves, curve'.virtualQuoteReserves, supply);
    TierIndexMonotone(tiers, curve.virtualQuoteReserves * supply, curve.virtualTokenReserves,
                      curve'.virtualQuoteReserves * supply, curve'.virtualTokenReserves, i, i');
  }

  /** The same for a pump pool, which also pays the tier's LP rate. */
  lemma PoolPaysTierDue(ctx: AmmContext, tiers: seq<FeeTier>)
    requires ctx.baseReserve > 0 && TierTable(ctx.feeConfig, ctx.quoteMint, tiers)
    requires ctx.poolCreator == PoolAuthority(ctx.baseMint)
    ensures ctx.TradeRates() == Err(EmptyFeeTiers) <==> tiers == []
    ensures var value, per := ctx.quoteReserve * ctx.baseMintSupply, ctx.baseReserve;
            forall i :: 0 <= i < |tiers| && TierDue(tiers, value, per, i) ==>
              var fees := tiers[i].fees;
              var creator :=
                ConfiguredCreatorFeeBps(ctx.globalConfig.creatorFeeConfigurable, ctx.creatorFeeBps, fees.creatorFeeBps);
              ctx.TradeRates()
              == Ok(Rates(fees.lpFeeBps, fees.protocolFeeBps, if ctx.coinCreator == DefaultKey then 0 else creator))
  {
    hide Floor, TierDue;
    if tiers != [] {
      TierDueIsCharged(tiers, ctx.quoteReserve * ctx.baseMintSupply, ctx.baseReserve);
    }
  }

  /** Third-party pools and coins in any other quote pay a flat schedule, whatever the reserves and the supply. */
  lemma OthersPayFlat(ctx: AmmContext)
    requires ctx.baseReserve > 0
    requires ctx.poolCreator != PoolAuthority(ctx.baseMint) || !IsTiered(ctx.quoteMint)
    ensures var exotic := ctx.feeConfig.exoticFlatFees;
            var unset := exotic.lpFeeBps == exotic.protocolFeeBps == exotic.creatorFeeBps == 0;
            var isPump := ctx.poolCreator == PoolAuthority(ctx.baseMint);
            var fees := if isPump && !unset then exotic else ctx.feeConfig.flatFees;
            var creator :=
              ConfiguredCreatorFeeBps(ctx.globalConfig.creatorFeeConfigurable, ctx.creatorFeeBps, fees.creatorFeeBps);
            ctx.TradeRates()
            == Ok(Rates(fees.lpFeeBps, fees.protocolFeeBps, if ctx.coinCreator == DefaultKey then 0 else creator))
  {}

  /** The context a curve's own reserves would give its pool. */
  predicate SameCoin(ctx: AmmContext, cfg: FeeConfig, curve: BondingCurve, mintSupply: u64) {
    && ctx.feeConfig == cfg && ctx.poolCreator == PoolAuthority(ctx.baseMint)
    && ctx.coinCreator == curve.creator && ctx.creatorFeeBps == curve.creatorFeeBps
    && ctx.quoteMint == curve.quoteMint
    && ctx.baseReserve == curve.virtualTokenReserves && ctx.quoteReserve == curve.virtualQuoteReserves
    && ctx.baseMintSupply == FeeTierSupply(curve.isMayhemMode, mintSupply)
  }

  /** At the same price a coin pays the same protocol and creator rates on its curve and in its pool, in any quote. */
  lemma RatesSurviveMigration(
    global: Global, cfg: FeeConfig, curve: BondingCurve, mintSupply: u64, ctx: AmmContext)
    requires curve.virtualTokenReserves > 0 && SameCoin(ctx, cfg, curve, mintSupply)
    requires curve.isMayhemMode ==> curve.tokenTotalSupply == 1_000_000_000_000_000
    requires global.creatorFeeConfigurable == ctx.globalConfig.creatorFeeConfigurable
    ensures match CurveFeeBps(global, cfg, curve, mintSupply)
            case Ok(bps) =>
              ctx.TradeRates().Ok? && bps == CurveBps(ctx.TradeRates().value.second, ctx.TradeRates().value.third)
            case Err(error) => ctx.TradeRates() == Err(error)
  {
    hide Floor, CalculateFeeTier;
  }
}
