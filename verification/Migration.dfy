/** The synthetic migration: what a completing v3 buy leaves behind and what the estimate opens on. */
module Migration {
  import opened Arithmetic
  import opened State
  import opened Fee
  import opened Curve
  import opened CurveLaws
  import opened V3Laws
  import opened Amm
  import opened AmmLaws
  import opened Sdk
  import opened Runs

  /** The parts of a completing buy: the remainder's price, the pool it opens, and the leg taken from it. */
  datatype Completion = Completion(net: u64, pool: PoolReserves, legNet: u64, baseOut: u64)

  /** The completed curve: the remainder sold for `net`, `baseOut` tokens of the pool for `legNet`. */
  function CompletedBy(curve: BondingCurve, c: Completion): BondingCurve
    requires curve.realQuoteReserves + c.net <= U64_MAX
  {
    curve.(complete := true, realTokenReserves := 0, realQuoteReserves := curve.realQuoteReserves + c.net,
    postCompleteBaseOut := c.baseOut, postCompleteQuoteIn := c.legNet)
  }

  /** The base account holds exactly the tokens a migration deposits plus what is left to sell. */
  predicate AtaMatchesSupply(global: Global, curve: BondingCurve, baseAtaAmount: u64) {
    baseAtaAmount == curve.tokenTotalSupply - global.initialRealTokenReserves + curve.realTokenReserves
  }

  /** A crossing exact-in buy that reaches the pool-to-be. */
  predicate TakesPoolLeg(
    global: Global, cfg: FeeConfig, curve: BondingCurve, mintSupply: u64, baseAtaAmount: u64, quoteIn: u64)
  {
    var r := BuyV3TokenAmountFromSolAmount(global, cfg, curve, mintSupply, baseAtaAmount, quoteIn);
    r.Ok? && r.value.tokens > curve.realTokenReserves
  }

  function CompletionOf(
    global: Global, cfg: FeeConfig, curve: BondingCurve, mintSupply: u64, baseAtaAmount: u64, quoteIn: u64)
    : (c: Completion)
    requires TakesPoolLeg(global, cfg, curve, mintSupply, baseAtaAmount, quoteIn)
    ensures BuyQuote(curve, curve.realTokenReserves) == Ok(c.net)
    ensures PoolAfterCompletion(global, curve, baseAtaAmount) == Ok(c.pool)
    ensures curve.realQuoteReserves + c.net <= U64_MAX && c.legNet >= 1
    ensures c.pool.quote > 0 && c.baseOut == CpOut(c.legNet - 1, c.pool.quote, c.pool.base) < c.pool.base
  {
    hide CpOut, TokenCost, FlooredNet;
    CrossingFill(global, cfg, curve, mintSupply, baseAtaAmount, quoteIn);
    var pool := PoolAfterCompletion(global, curve, baseAtaAmount).value;
    var bps := CurveFeeBps(global, cfg, curve, mintSupply).value;
    var left := BudgetLeft(global, cfg, curve, mintSupply, quoteIn);
    hide BuyV3TokenAmountFromSolAmount, Crosses, BudgetLeft, WithFees;
    LegUnfold(pool, bps, left);
    var legNet := NetOrZero(left, bps.AsRates());
    CpBelowReserve(legNet - 1, pool.quote, pool.base);
    Completion(BuyQuote(curve, curve.realTokenReserves).value, pool, legNet, LegOut(pool, bps, left, false))
  }

  /** The parts add up to the quoted fill: its tokens, and its charge with both sets of fees. */
  lemma CompletionAddsUp(
    global: Global, cfg: FeeConfig, curve: BondingCurve, mintSupply: u64, baseAtaAmount: u64, quoteIn: u64)
    requires TakesPoolLeg(global, cfg, curve, mintSupply, baseAtaAmount, quoteIn)
    ensures curve.realTokenReserves > 0 && CurveFeeBps(global, cfg, curve, mintSupply).Ok?
    ensures Crosses(global, cfg, curve, mintSupply, quoteIn)
    ensures var c := CompletionOf(global, cfg, curve, mintSupply, baseAtaAmount, quoteIn);
            var fill := BuyV3TokenAmountFromSolAmount(global, cfg, curve, mintSupply, baseAtaAmount, quoteIn).value;
            var bps := CurveFeeBps(global, cfg, curve, mintSupply).value;
            var leg := ExactInFeeAmounts(BudgetLeft(global, cfg, curve, mintSupply, quoteIn), bps.AsRates());
            && leg.Ok? && c.legNet == leg.value.net
            && fill.tokens == curve.realTokenReserves + c.baseOut
            && fill.charged == WithFees(c.net, bps) + c.legNet + leg.value.fee0 + leg.value.fee1
            && fill.charged <= quoteIn
  {
    hide CpOut, TokenCost, FlooredNet;
    CrossingFill(global, cfg, curve, mintSupply, baseAtaAmount, quoteIn);
    LegUnfold(PoolAfterCompletion(global, curve, baseAtaAmount).value,
              CurveFeeBps(global, cfg, curve, mintSupply).value,
              BudgetLeft(global, cfg, curve, mintSupply, quoteIn));
  }

  /** The estimate from a completed curve, in terms of the pool the leg was priced on. */
  lemma EstimateOfCompleted(global: Global, curve: BondingCurve, baseAtaAmount: u64, c: Completion)
    requires AtaMatchesSupply(global, curve, baseAtaAmount)
    requires BuyQuote(curve, curve.realTokenReserves) == Ok(c.net)
    requires PoolAfterCompletion(global, curve, baseAtaAmount) == Ok(c.pool)
    requires curve.realQuoteReserves + c.net <= U64_MAX && c.baseOut < c.pool.base
    ensures var estimate := EstimatedReserves(global, CompletedBy(curve, c));
            && (estimate.Ok? <==> curve.realQuoteReserves + c.net + c.legNet <= U64_MAX)
            && (estimate.Ok? ==> estimate.value == PoolReserves(c.pool.base - c.baseOut, c.pool.quote + c.legNet))
  {
    hide TokenCost;
  }

  /** An estimate fails only as empty: nothing to deposit on a side, or a raise past 64 bits. */
  lemma EstimateFailsOnlyEmpty(global: Global, curve: BondingCurve)
    ensures var base := curve.tokenTotalSupply - global.initialRealTokenReserves - curve.postCompleteBaseOut;
            var raised := curve.realQuoteReserves + curve.postCompleteQuoteIn;
            var r := EstimatedReserves(global, curve);
            && (r.Ok? <==> base > 0 && MigrationFee(global, curve) < raised <= U64_MAX)
            && (r.Err? ==> r.error == EmptyReserves)
            && (r.Ok? ==> r.value.base == base && r.value.quote + MigrationFee(global, curve) == raised)
  {}

  /**
   * Continuity of the synthetic migration: when a v3 exact-in buy completes the curve and takes a
   * pool leg, the reserves estimated from the completed curve are exactly the ones the leg left
   * behind, for SOL and token quotes alike, precisely while the raised quote fits 64 bits; and
   * their product is no smaller than that of the pool the leg was priced on.
   */
  lemma EstimateOpensWhereLegStopped(
    global: Global, cfg: FeeConfig, curve: BondingCurve, mintSupply: u64, baseAtaAmount: u64, quoteIn: u64)
    requires AtaMatchesSupply(global, curve, baseAtaAmount)
    requires TakesPoolLeg(global, cfg, curve, mintSupply, baseAtaAmount, quoteIn)
    ensures var c := CompletionOf(global, cfg, curve, mintSupply, baseAtaAmount, quoteIn);
            var estimate := EstimatedReserves(global, CompletedBy(curve, c));
            && (estimate.Ok? <==> curve.realQuoteReserves + c.net + c.legNet <= U64_MAX)
            && (estimate.Ok? ==> estimate.value == PoolReserves(c.pool.base - c.baseOut, c.pool.quote + c.legNet))
            && (c.pool.base - c.baseOut) * (c.pool.quote + c.legNet) >= c.pool.base * c.pool.quote
  {
    hide CpOut, TokenCost, WithFees, BuyV3TokenAmountFromSolAmount, Crosses, BudgetLeft, TakesPoolLeg, CompletionOf;
    var c := CompletionOf(global, cfg, curve, mintSupply, baseAtaAmount, quoteIn);
    EstimateOfCompleted(global, curve, baseAtaAmount, c);
    LegKeepsProduct(c);
  }

  lemma LegKeepsProduct(c: Completion)
    requires c.pool.quote > 0 && c.legNet >= 1
    requires c.baseOut == CpOut(c.legNet - 1, c.pool.quote, c.pool.base) < c.pool.base
    ensures (c.pool.base - c.baseOut) * (c.pool.quote + c.legNet) >= c.pool.base * c.pool.quote
  {
    CpBuyKeepsProduct(c.legNet - 1, c.legNet, c.pool.quote, c.pool.base);
  }

  /** A trade quoted before the pool account exists is priced on exactly those reserves. */
  lemma FirstTradeContinues(
    global: Global, cfg: FeeConfig, curve: BondingCurve, mintSupply: u64, baseAtaAmount: u64, quoteIn: u64,
    globalConfig: GlobalConfig, ammConfig: FeeConfig, baseMint: Pubkey, supply: u64)
    requires AtaMatchesSupply(global, curve, baseAtaAmount)
    requires TakesPoolLeg(global, cfg, curve, mintSupply, baseAtaAmount, quoteIn)
    ensures var c := CompletionOf(global, cfg, curve, mintSupply, baseAtaAmount, quoteIn);
            var ctx := ContextFor(globalConfig, ammConfig,
                                  CompletedCurve(global, CompletedBy(curve, c), baseMint, supply));
            curve.realQuoteReserves + c.net + c.legNet <= U64_MAX ==>
              && ctx.Ok?
              && ctx.value.baseReserve == c.pool.base - c.baseOut
              && ctx.value.quoteReserve == ctx.value.realQuoteReserve == c.pool.quote + c.legNet
              && ctx.value.quoteMint == curve.quoteMint && ctx.value.coinCreator == curve.creator
  {
    hide CpOut, TokenCost, WithFees, BuyV3TokenAmountFromSolAmount, Crosses, BudgetLeft, TakesPoolLeg, CompletionOf;
    EstimateOpensWhereLegStopped(global, cfg, curve, mintSupply, baseAtaAmount, quoteIn);
  }

  /** The pool a migration creates from a completed curve: canonical, unboosted, with the coin's own settings. */
  function MigratedPool(curve: BondingCurve, baseMint: Pubkey): Pool {
    Pool(baseMint, ResolveQuoteMint(curve.quoteMint), PoolAuthority(baseMint), curve.creator, curve.creatorFeeBps,
         curve.isMayhemMode, curve.isCashbackCoin, 0, 0, 0)
  }

  /**
   * A trade quoted from a completed curve is quoted as on the pool its migration creates: every AMM
   * quoter answers alike before and after, refusals included, whatever the amount.
   */
  lemma QuotesSurviveMigration(
    globalConfig: GlobalConfig, cfg: FeeConfig, global: Global, curve: BondingCurve, baseMint: Pubkey, supply: u64,
    amount: u64)
    requires EstimatedReserves(global, curve).Ok?
    ensures forall legs :: Eligible(MigratedPool(curve, baseMint), legs) <==>
              !curve.isMayhemMode && !(curve.isCashbackCoin && legs.creator)
    ensures var reserves := EstimatedReserves(global, curve).value;
            var before := ContextFor(globalConfig, cfg, CompletedCurve(global, curve, baseMint, supply));
            var pool := LivePool(MigratedPool(curve, baseMint), reserves.base, reserves.quote, supply);
            var after := ContextFor(globalConfig, cfg, pool);
            && before.Ok? && after.Ok?
            && BuyQuoteInput(before.value, amount) == BuyQuoteInput(after.value, amount)
            && BuyBaseInput(before.value, amount) == BuyBaseInput(after.value, amount)
            && SellBaseInput(before.value, amount) == SellBaseInput(after.value, amount)
  {
    var reserves := EstimatedReserves(global, curve).value;
    var before := ContextFor(globalConfig, cfg, CompletedCurve(global, curve, baseMint, supply)).value;
    var pool := LivePool(MigratedPool(curve, baseMint), reserves.base, reserves.quote, supply);
    var after := ContextFor(globalConfig, cfg, pool).value;
    assert after == before.(quoteMint := after.quoteMint);
    SameFeesInSol(before, after);
    hide ContextFor, EstimatedReserves, MigratedPool;
    SameFeesSameQuotes(before, after, amount);
  }

  lemma SameFeesSameQuotes(ctx: AmmContext, ctx': AmmContext, amount: u64)
    requires ctx' == ctx.(quoteMint := ctx'.quoteMint) && (ctx.baseReserve > 0 ==> ctx.FeeBps() == ctx'.FeeBps())
    ensures BuyQuoteInput(ctx, amount) == BuyQuoteInput(ctx', amount)
    ensures BuyBaseInput(ctx, amount) == BuyBaseInput(ctx', amount)
    ensures SellBaseInput(ctx, amount) == SellBaseInput(ctx', amount)
  {
    SameFeesSameExactIn(ctx, ctx', amount);
    SameFeesSameTokenOut(ctx, ctx', amount);
    SameFeesSameSale(ctx, ctx', amount);
  }

  lemma SameFeesSameExactIn(ctx: AmmContext, ctx': AmmContext, amount: u64)
    requires ctx' == ctx.(quoteMint := ctx'.quoteMint) && (ctx.baseReserve > 0 ==> ctx.FeeBps() == ctx'.FeeBps())
    ensures BuyQuoteInput(ctx, amount) == BuyQuoteInput(ctx', amount)
  {
    hide CpOut, ExactInFeeAmounts, ComputeAmmFeeBps;
  }

  lemma SameFeesSameTokenOut(ctx: AmmContext, ctx': AmmContext, amount: u64)
    requires ctx' == ctx.(quoteMint := ctx'.quoteMint) && (ctx.baseReserve > 0 ==> ctx.FeeBps() == ctx'.FeeBps())
    ensures BuyBaseInput(ctx, amount) == BuyBaseInput(ctx', amount)
  {
    hide FeeAmountWide, CreatorFeeAmountWide, CeilDiv, ComputeAmmFeeBps, TruncU64, WrapU128;
  }

  lemma SameFeesSameSale(ctx: AmmContext, ctx': AmmContext, amount: u64)
    requires ctx' == ctx.(quoteMint := ctx'.quoteMint) && (ctx.baseReserve > 0 ==> ctx.FeeBps() == ctx'.FeeBps())
    ensures SellBaseInput(ctx, amount) == SellBaseInput(ctx', amount)
  {
    hide CpOut, FeeAmountWide, CreatorFeeAmountWide, ComputeAmmFeeBps;
  }

  /** Resolving a quote mint does not change the fees of a pool quoted in it. */
  lemma SameFeesInSol(ctx: AmmContext, ctx': AmmContext)
    requires ctx' == ctx.(quoteMint := ResolveQuoteMint(ctx.quoteMint))
    ensures ctx.baseReserve > 0 ==> ctx.FeeBps() == ctx'.FeeBps()
  {
    hide Floor, CalculateFeeTier;
  }

  /** Along any run the base account matches the supply, so continuity holds wherever the run is completed. */
  lemma RunKeepsAtaMatched(
    global: Global, cfg: FeeConfig, creator: Pubkey, quoteMint: Pubkey, seed: u64, mayhemMode: bool,
    cashback: bool, creatorFeeBps: u64, trades: seq<Trade>)
    requires CanStart(global, seed)
    requires var start := Start(global, creator, quoteMint, seed, mayhemMode, cashback, creatorFeeBps);
             Run(global, cfg, seed, start, trades).Some?
    ensures var start := Start(global, creator, quoteMint, seed, mayhemMode, cashback, creatorFeeBps);
            var end := Run(global, cfg, seed, start, trades).value;
            AtaMatchesSupply(global, end.curve, end.baseAta)
  {
    hide Run;
  }

  /**
   * Nothing is created or lost in a completing buy: the base account ends up with the buyer and in
   * the estimated pool, and the charge plus the quote already raised ends up in the estimated pool,
   * the migration fee and the fees of the two parts.
   */
  lemma CompletionConserves(
    global: Global, cfg: FeeConfig, curve: BondingCurve, mintSupply: u64, baseAtaAmount: u64, quoteIn: u64)
    requires AtaMatchesSupply(global, curve, baseAtaAmount)
    requires TakesPoolLeg(global, cfg, curve, mintSupply, baseAtaAmount, quoteIn)
    requires var c := CompletionOf(global, cfg, curve, mintSupply, baseAtaAmount, quoteIn);
             curve.realQuoteReserves + c.net + c.legNet <= U64_MAX
    ensures CurveFeeBps(global, cfg, curve, mintSupply).Ok? && curve.realTokenReserves > 0
    ensures Crosses(global, cfg, curve, mintSupply, quoteIn)
    ensures var c := CompletionOf(global, cfg, curve, mintSupply, baseAtaAmount, quoteIn);
            var fill := BuyV3TokenAmountFromSolAmount(global, cfg, curve, mintSupply, baseAtaAmount, quoteIn).value;
            var bps := CurveFeeBps(global, cfg, curve, mintSupply).value;
            var leg := ExactInFeeAmounts(BudgetLeft(global, cfg, curve, mintSupply, quoteIn), bps.AsRates());
            var start := EstimatedReserves(global, CompletedBy(curve, c));
            && leg.Ok? && start.Ok?
            && fill.tokens + start.value.base == baseAtaAmount
            && fill.charged + curve.realQuoteReserves
               == start.value.quote + MigrationFee(global, curve)
                  + (WithFees(c.net, bps) - c.net) + leg.value.fee0 + leg.value.fee1
  {
    hide CompletionOf, BuyV3TokenAmountFromSolAmount, Crosses, BudgetLeft, WithFees, TokenCost, EstimatedReserves,
      ExactInFeeAmounts;
    CompletionAddsUp(global, cfg, curve, mintSupply, baseAtaAmount, quoteIn);
    EstimateOpensWhereLegStopped(global, cfg, curve, mintSupply, baseAtaAmount, quoteIn);
  }

  /** The hypotheses are met: 100 spent on a curve with one token left takes it for 2 and 979 more from the pool. */
  lemma CompletionExample(global: Global, cfg: FeeConfig, curve: BondingCurve, mintSupply: u64)
    requires curve.virtualQuoteReserves == 1_000 && curve.virtualTokenReserves == 1_000
    requires curve.realTokenReserves == 1 && curve.realQuoteReserves == 0
    requires CurveOpen(curve, false) && !curve.isMayhemMode && !IsSolLikeQuoteMint(curve.quoteMint)
    requires curve.tokenTotalSupply == 1_001 && global.initialRealTokenReserves == 1
    requires CurveFeeBps(global, cfg, curve, mintSupply) == Ok(CurveBps(0, 0))
    ensures BuyV3TokenAmountFromSolAmount(global, cfg, curve, mintSupply, 1_001, 100) == Ok(Fill(980, 100))
    ensures AtaMatchesSupply(global, curve, 1_001)
    ensures TakesPoolLeg(global, cfg, curve, mintSupply, 1_001, 100)
  {
    ExampleTokens(global, cfg, curve, mintSupply);
    ExampleRemainder(curve);
    CheapLegExample(98, false);
    hide BuyTokensExactIn, PostCompleteLegExactQuote, BuyQuote, WithFees, CurveFeeBps;
  }

  lemma ExampleTokens(global: Global, cfg: FeeConfig, curve: BondingCurve, mintSupply: u64)
    requires curve.virtualQuoteReserves == 1_000 && curve.virtualTokenReserves == 1_000
    requires CurveFeeBps(global, cfg, curve, mintSupply) == Ok(CurveBps(0, 0))
    ensures BuyTokensExactIn(global, cfg, curve, mintSupply, 100) == Ok(90)
  {
    NoFeesExactIn(100);
    assert CpOut(99, 1_000, 1_000) == 90;
    hide CpOut, ExactInFeeAmounts, CurveFeeBps;
  }

  lemma ExampleRemainder(curve: BondingCurve)
    requires curve.virtualQuoteReserves == 1_000 && curve.virtualTokenReserves == 1_000
    ensures BuyQuote(curve, 1) == Ok(2) && WithFees(2, CurveBps(0, 0)) == 2
  {}
}
