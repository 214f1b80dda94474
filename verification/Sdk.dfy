/** Quote wrappers and pool-state mapping of the SDK (src/sdk/mod.rs). */
module Sdk {
  import opened Arithmetic
  import opened State
  import opened Utils
  import opened Curve
  import opened Amm

  datatype Quote = Quote(amount: u64, minOut: u64, inputAmountUsed: u64, maxInput: u64)

  /** Live pool reserves, or a completed curve whose pool does not exist yet. */
  datatype AmmQuoteSource =
    | LivePool(pool: Pool, baseReserve: u64, quoteVault: u64, baseMintSupply: u64)
    | CompletedCurve(global: Global, curve: BondingCurve, baseMint: Pubkey, baseMintSupply: u64)

  const TOKEN_SUPPLY: u64 := 1_000_000_000_000_000

  /** Mayhem coins price their fee tier off the fixed supply. */
  function FeeTierSupply(isMayhemMode: bool, baseMintSupply: u64): u64 {
    if isMayhemMode then TOKEN_SUPPLY else baseMintSupply
  }

  function MigrationFee(global: Global, curve: BondingCurve): u64 {
    if IsSolLikeQuoteMint(curve.quoteMint) then global.poolMigrationFee else 0
  }

  /** Reserves the migration deposits for a completed curve, its post-completion leg included. */
  function EstimatedReserves(global: Global, curve: BondingCurve): (r: Result<PoolReserves>)
  {
    var base := curve.tokenTotalSupply - global.initialRealTokenReserves - curve.postCompleteBaseOut;
    var raised := curve.realQuoteReserves + curve.postCompleteQuoteIn;
    var quote := raised - MigrationFee(global, curve);
    if base <= 0 || raised > U64_MAX || quote <= 0 then Err(EmptyReserves)
    else Ok(PoolReserves(base, quote))
  }

  /** The trade context an AMM quote is priced on. */
  function ContextFor(globalConfig: GlobalConfig, cfg: FeeConfig, source: AmmQuoteSource): (r: Result<AmmContext>)
  {
    match source
    case LivePool(pool, baseReserve, quoteVault, supply) =>
      var effective :- EffectiveQuoteReserve(pool, quoteVault);
      var liquid :- RealQuoteReserve(pool, quoteVault);
      Ok(AmmContext(
           globalConfig, cfg, pool.baseMint, pool.creator, pool.coinCreator, pool.quoteMint, pool.creatorFeeBps,
           baseReserve, effective, FeeTierSupply(pool.isMayhemMode, supply), liquid))
    case CompletedCurve(global, curve, baseMint, supply) =>
      var reserves :- EstimatedReserves(global, curve);
      Ok(AmmContext(
           globalConfig, cfg, baseMint, PoolAuthority(baseMint), curve.creator, curve.quoteMint, curve.creatorFeeBps,
           reserves.base, reserves.quote, FeeTierSupply(curve.isMayhemMode, supply), reserves.quote))
  }

  /** v2 exact-in buy; a fill of the whole remainder is re-priced and charged only that. */
  function BuyQuoteBondingCurveSolIn(
    global: Global, cfg: FeeConfig, curve: BondingCurve, mintSupply: u64, quoteIn: u64, slippageBps: nat)
    : (r: Result<Quote>)
    requires slippageBps <= 0xFFFF
  {
    var tokens :- BuyTokenAmountFromSolAmount(global, cfg, curve, mintSupply, quoteIn);
    if tokens > 0 && tokens >= curve.realTokenReserves then
      var used :- BuySolAmountFromTokenAmount(global, cfg, curve, mintSupply, tokens);
      Ok(Quote(tokens, SubSlippage(tokens, slippageBps), used, quoteIn))
    else
      Ok(Quote(tokens, SubSlippage(tokens, slippageBps), quoteIn, quoteIn))
  }

  /** v2 token-out buy, promising at most the remaining supply. */
  function BuyQuoteBondingCurveTokenOut(
    global: Global, cfg: FeeConfig, curve: BondingCurve, mintSupply: u64, tokenAmount: u64, slippageBps: nat)
    : (r: Result<Quote>)
    requires slippageBps <= 0xFFFF
  {
    var cost :- BuySolAmountFromTokenAmount(global, cfg, curve, mintSupply, tokenAmount);
    var tokens := Min(tokenAmount, curve.realTokenReserves);
    Ok(Quote(cost, tokens, tokens, AddSlippage(cost, slippageBps)))
  }

  function BuyQuoteBondingCurveV3SolIn(
    global: Global, cfg: FeeConfig, curve: BondingCurve, mintSupply: u64, baseAtaAmount: u64,
    quoteIn: u64, slippageBps: nat): (r: Result<Quote>)
    requires slippageBps <= 0xFFFF
  {
    var fill :- BuyV3TokenAmountFromSolAmount(global, cfg, curve, mintSupply, baseAtaAmount, quoteIn);
    Ok(Quote(fill.tokens, SubSlippage(fill.tokens, slippageBps), fill.charged, quoteIn))
  }

  function BuyQuoteBondingCurveV3TokenOut(
    global: Global, cfg: FeeConfig, curve: BondingCurve, mintSupply: u64, baseAtaAmount: u64,
    tokenAmount: u64, slippageBps: nat): (r: Result<Quote>)
    requires Priceable(curve) && slippageBps <= 0xFFFF
  {
    var cost :- BuyV3SolAmountFromTokenAmount(global, cfg, curve, mintSupply, baseAtaAmount, tokenAmount);
    var tokens := if curve.isMayhemMode then Min(tokenAmount, curve.realTokenReserves) else tokenAmount;
    Ok(Quote(cost, tokens, tokens, AddSlippage(cost, slippageBps)))
  }
}
