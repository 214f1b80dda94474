/** The v3 buys: both quoters, through the completion of the curve and into the pool-to-be. */
module V3Laws {
  import opened Arithmetic
  import opened State
  import opened Fee
  import opened Curve
  import opened CurveLaws

  /** The pool the migration would create once the remainder is bought at the curve price. */
  function PoolAfterCompletion(global: Global, curve: BondingCurve, baseAtaAmount: u64): Result<PoolReserves> {
    var net :- BuyQuote(curve, curve.realTokenReserves);
    PoolToBe(global, curve, baseAtaAmount, IsSolLikeQuoteMint(curve.quoteMint), curve.realTokenReserves, net)
  }

  /** An exact-in buy that takes more than what is left on the curve. */
  predicate Crosses(global: Global, cfg: FeeConfig, curve: BondingCurve, mintSupply: u64, quoteIn: u64) {
    var r := BuyTokensExactIn(global, cfg, curve, mintSupply, quoteIn);
    r.Ok? && r.value > curve.realTokenReserves
  }

  /** Budget left for the pool-to-be once the remainder is paid for. */
  function BudgetLeft(global: Global, cfg: FeeConfig, curve: BondingCurve, mintSupply: u64, quoteIn: u64): (r: u64)
    requires Crosses(global, cfg, curve, mintSupply, quoteIn) && curve.realTokenReserves > 0
    ensures r > 0
  {
    CrossingNeverFails(global, cfg, curve, mintSupply, quoteIn);
    quoteIn - WithFees(BuyQuote(curve, curve.realTokenReserves).value,
                       CurveFeeBps(global, cfg, curve, mintSupply).value)
  }

  /** What a crossing v3 fill consists of: the remainder at its curve price, then the pool leg. */
  lemma CrossingFill(
    global: Global, cfg: FeeConfig, curve: BondingCurve, mintSupply: u64, baseAtaAmount: u64, quoteIn: u64)
    requires BuyV3TokenAmountFromSolAmount(global, cfg, curve, mintSupply, baseAtaAmount, quoteIn).Ok?
    requires Crosses(global, cfg, curve, mintSupply, quoteIn)
    ensures curve.realTokenReserves > 0 && curve.virtualTokenReserves > 0
    ensures CurveFeeBps(global, cfg, curve, mintSupply).Ok? && BuyQuote(curve, curve.realTokenReserves).Ok?
    ensures var fill := BuyV3TokenAmountFromSolAmount(global, cfg, curve, mintSupply, baseAtaAmount, quoteIn).value;
            var bps := CurveFeeBps(global, cfg, curve, mintSupply).value;
            var total := WithFees(BuyQuote(curve, curve.realTokenReserves).value, bps);
            var left := BudgetLeft(global, cfg, curve, mintSupply, quoteIn);
            && left == quoteIn - total
            && if curve.isMayhemMode then fill == Fill(curve.realTokenReserves, total)
               else
                 && PoolAfterCompletion(global, curve, baseAtaAmount).Ok?
                 && var pool := PoolAfterCompletion(global, curve, baseAtaAmount).value;
                 && pool.base > 0 && pool.quote > 0
                 && fill.tokens == curve.realTokenReserves + LegOut(pool, bps, left, false)
                 && fill.charged == total +
                    if LegOut(pool, bps, left, false) == 0 then 0
                    else PostCompleteLegExactQuote(pool, bps, left, false).value.value.charged
  {
    hide FeeAmount, ExactInFeeAmounts, Floor, TokenCost, PostCompleteLegExactQuote, CurveFeeBps;
    ExactInUnfold(global, cfg, curve, mintSupply, quoteIn);
    CrossingNeverFails(global, cfg, curve, mintSupply, quoteIn);
  }

  /** What an on-curve v3 fill consists of: the uncapped tokens and the exact-in charge. */
  lemma OnCurveFill(
    global: Global, cfg: FeeConfig, curve: BondingCurve, mintSupply: u64, baseAtaAmount: u64, quoteIn: u64)
    requires var r := BuyV3TokenAmountFromSolAmount(global, cfg, curve, mintSupply, baseAtaAmount, quoteIn);
             r.Ok? && r.value.tokens > 0
    requires !Crosses(global, cfg, curve, mintSupply, quoteIn)
    ensures var uncapped := BuyTokensExactIn(global, cfg, curve, mintSupply, quoteIn);
            uncapped.Ok? && 0 < uncapped.value <= curve.realTokenReserves
    ensures var fill := BuyV3TokenAmountFromSolAmount(global, cfg, curve, mintSupply, baseAtaAmount, quoteIn).value;
            var e := ExactInFeeAmounts(quoteIn, CurveFeeBps(global, cfg, curve, mintSupply).value.AsRates()).value;
            && fill.tokens == BuyTokensExactIn(global, cfg, curve, mintSupply, quoteIn).value
            && fill.charged == e.net + e.fee0 + e.fee1
  {
    hide BuyTokensExactIn, ExactInFeeAmounts, CurveFeeBps, WithFees, TokenCost, PostCompleteLegExactQuote;
  }

  /** On a priceable amount the v2 quoter always answers, and with the true price exactly when that fits 64 bits. */
  lemma TokenOutExact(
    global: Global, cfg: FeeConfig, curve: BondingCurve, mintSupply: u64, tokenAmount: u64)
    requires 0 < tokenAmount && curve.virtualTokenReserves > 0
    requires CurveFeeBps(global, cfg, curve, mintSupply).Ok?
    requires Min(tokenAmount, curve.realTokenReserves) < curve.virtualTokenReserves
    ensures var price := WithFees(TokenCost(curve, Min(tokenAmount, curve.realTokenReserves)),
                                  CurveFeeBps(global, cfg, curve, mintSupply).value);
            var r := BuySolAmountFromTokenAmount(global, cfg, curve, mintSupply, tokenAmount);
            r.Ok? && (r.value == price <==> price <= U64_MAX)
  {
    TokenCostFitsU128(curve, Min(tokenAmount, curve.realTokenReserves));
  }

  /** Past the remainder an open non-mayhem curve charges the remainder plus the pool price, or fails. */
  lemma PastRemainderCost(
    global: Global, cfg: FeeConfig, curve: BondingCurve, mintSupply: u64, baseAtaAmount: u64, tokenAmount: u64)
    requires CurveOpen(curve, false) && !curve.isMayhemMode && curve.virtualTokenReserves > 0
    requires tokenAmount > curve.realTokenReserves
    ensures var r := BuyV3SolAmountFromTokenAmount(global, cfg, curve, mintSupply, baseAtaAmount, tokenAmount);
            var past := tokenAmount - curve.realTokenReserves;
            r.Ok? <==>
            && CurveFeeBps(global, cfg, curve, mintSupply).Ok?
            && PoolAfterCompletion(global, curve, baseAtaAmount).Ok?
            && past < PoolAfterCompletion(global, curve, baseAtaAmount).value.base
            && var bps := CurveFeeBps(global, cfg, curve, mintSupply).value;
               var pool := PoolAfterCompletion(global, curve, baseAtaAmount).value;
               WithFees(BuyQuote(curve, curve.realTokenReserves).value, bps)
               + WithFees(PastPrice(pool, past), bps) <= U64_MAX
    ensures var r := BuyV3SolAmountFromTokenAmount(global, cfg, curve, mintSupply, baseAtaAmount, tokenAmount);
            r.Ok? ==>
              r.value == WithFees(BuyQuote(curve, curve.realTokenReserves).value,
                                  CurveFeeBps(global, cfg, curve, mintSupply).value)
                         + WithFees(PastPrice(PoolAfterCompletion(global, curve, baseAtaAmount).value,
                                              tokenAmount - curve.realTokenReserves),
                                    CurveFeeBps(global, cfg, curve, mintSupply).value)
  {}

  /**
   * Why a v3 token-out buy past the remainder fails, in the order the reasons are met: no tiers, no
   * price for the remainder, no pool to open, more than that pool holds, a price past 64 bits.
   */
  lemma PastRemainderRefusals(
    global: Global, cfg: FeeConfig, curve: BondingCurve, mintSupply: u64, baseAtaAmount: u64, tokenAmount: u64)
    requires CurveOpen(curve, false) && !curve.isMayhemMode && curve.virtualTokenReserves > 0
    requires tokenAmount > curve.realTokenReserves
    requires BuyV3SolAmountFromTokenAmount(global, cfg, curve, mintSupply, baseAtaAmount, tokenAmount).Err?
    ensures var error := BuyV3SolAmountFromTokenAmount(
              global, cfg, curve, mintSupply, baseAtaAmount, tokenAmount).error;
            var remaining, vt := curve.realTokenReserves, curve.virtualTokenReserves;
            var pool := PoolAfterCompletion(global, curve, baseAtaAmount);
            if CurveFeeBps(global, cfg, curve, mintSupply).Err? then error == EmptyFeeTiers
            else if remaining == 0 then error == ZeroAmount
            else if remaining >= vt then error == DepletedBondingCurve
            else if pool.Err? then error == pool.error && (error == EmptyReserves || error == MathOverflow)
            else if tokenAmount - remaining >= pool.value.base then error == BaseOutExceedsReserve
            else error == MathOverflow
  {
    hide TokenCost, WithFees, PastPrice, Floor, CalculateFeeTier;
  }

  /** A pool-to-be is refused as empty exactly when all of it is sold or its whole quote goes to the migration fee. */
  lemma PoolToBeEmpty(global: Global, curve: BondingCurve, baseAtaAmount: u64)
    requires BuyQuote(curve, curve.realTokenReserves).Ok?
    ensures var fee := if IsSolLikeQuoteMint(curve.quoteMint) then global.poolMigrationFee else 0;
            var base := baseAtaAmount - curve.realTokenReserves;
            var raised := curve.realQuoteReserves + BuyQuote(curve, curve.realTokenReserves).value;
            var pool := PoolAfterCompletion(global, curve, baseAtaAmount);
            && (pool.Ok? <==> base > 0 && raised > fee && raised <= U64_MAX)
            && (pool == Err(EmptyReserves) <==>
                base >= 0 && raised >= fee && raised <= U64_MAX && (base == 0 || raised == fee))
            && (pool.Err? ==> pool.error == EmptyReserves || pool.error == MathOverflow)
            && (pool.Ok? ==> pool.value.base == base && pool.value.quote == raised - fee)
  {
    hide TokenCost;
  }

  /**
   * The two v3 quoters agree across completion: whatever an exact-in buy returns, asking for
   * exactly those tokens succeeds and costs no more than was charged (strictly less once the pool
   * leg is taken), and never more than the budget.
   */
  lemma V3QuotersAgree(
    global: Global, cfg: FeeConfig, curve: BondingCurve, mintSupply: u64, baseAtaAmount: u64, quoteIn: u64)
    requires Priceable(curve)
    requires var r := BuyV3TokenAmountFromSolAmount(global, cfg, curve, mintSupply, baseAtaAmount, quoteIn);
             r.Ok? && r.value.tokens > 0
    ensures var fill := BuyV3TokenAmountFromSolAmount(global, cfg, curve, mintSupply, baseAtaAmount, quoteIn).value;
            var back := BuyV3SolAmountFromTokenAmount(global, cfg, curve, mintSupply, baseAtaAmount, fill.tokens);
            && back.Ok?
            && back.value <= fill.charged <= quoteIn
            && (fill.tokens > curve.realTokenReserves ==> back.value < fill.charged)
  {
    if Crosses(global, cfg, curve, mintSupply, quoteIn) {
      AgreeCrossing(global, cfg, curve, mintSupply, baseAtaAmount, quoteIn);
    } else {
      AgreeOnCurve(global, cfg, curve, mintSupply, baseAtaAmount, quoteIn);
    }
  }

  lemma AgreeOnCurve(
    global: Global, cfg: FeeConfig, curve: BondingCurve, mintSupply: u64, baseAtaAmount: u64, quoteIn: u64)
    requires Priceable(curve)
    requires var r := BuyV3TokenAmountFromSolAmount(global, cfg, curve, mintSupply, baseAtaAmount, quoteIn);
             r.Ok? && r.value.tokens > 0
    requires !Crosses(global, cfg, curve, mintSupply, quoteIn)
    ensures var fill := BuyV3TokenAmountFromSolAmount(global, cfg, curve, mintSupply, baseAtaAmount, quoteIn).value;
            var back := BuyV3SolAmountFromTokenAmount(global, cfg, curve, mintSupply, baseAtaAmount, fill.tokens);
            back.Ok? && back.value <= fill.charged <= quoteIn
  {
    var fill := BuyV3TokenAmountFromSolAmount(global, cfg, curve, mintSupply, baseAtaAmount, quoteIn).value;
    ExactInUnfold(global, cfg, curve, mintSupply, quoteIn);
    var bps := CurveFeeBps(global, cfg, curve, mintSupply).value;
    var e := ExactInFeeAmounts(quoteIn, bps.AsRates()).value;
    CostOfBought(curve, e.net - 1, fill.tokens);
    PriceWithinCharge(quoteIn, bps, TokenCost(curve, fill.tokens));
    TokenOutExact(global, cfg, curve, mintSupply, fill.tokens);
  }

  lemma AgreeCrossing(
    global: Global, cfg: FeeConfig, curve: BondingCurve, mintSupply: u64, baseAtaAmount: u64, quoteIn: u64)
    requires Priceable(curve)
    requires BuyV3TokenAmountFromSolAmount(global, cfg, curve, mintSupply, baseAtaAmount, quoteIn).Ok?
    requires Crosses(global, cfg, curve, mintSupply, quoteIn)
    ensures var fill := BuyV3TokenAmountFromSolAmount(global, cfg, curve, mintSupply, baseAtaAmount, quoteIn).value;
            var back := BuyV3SolAmountFromTokenAmount(global, cfg, curve, mintSupply, baseAtaAmount, fill.tokens);
            && back.Ok?
            && back.value <= fill.charged <= quoteIn
            && (fill.tokens > curve.realTokenReserves ==> back.value < fill.charged)
  {
    var fill := BuyV3TokenAmountFromSolAmount(global, cfg, curve, mintSupply, baseAtaAmount, quoteIn).value;
    CrossingFill(global, cfg, curve, mintSupply, baseAtaAmount, quoteIn);
    if fill.tokens == curve.realTokenReserves {
      TokenOutExact(global, cfg, curve, mintSupply, fill.tokens);
    } else {
      AgreeInPool(global, cfg, curve, mintSupply, baseAtaAmount,
                  BudgetLeft(global, cfg, curve, mintSupply, quoteIn), fill.tokens);
    }
  }

  lemma AgreeInPool(
    global: Global, cfg: FeeConfig, curve: BondingCurve, mintSupply: u64, baseAtaAmount: u64,
    left: u64, tokens: u64)
    requires CurveOpen(curve, false) && !curve.isMayhemMode && curve.virtualTokenReserves > 0
    requires CurveFeeBps(global, cfg, curve, mintSupply).Ok?
    requires PoolAfterCompletion(global, curve, baseAtaAmount).Ok?
    requires var bps := CurveFeeBps(global, cfg, curve, mintSupply).value;
             && WithFees(BuyQuote(curve, curve.realTokenReserves).value, bps) + left <= U64_MAX
             && tokens - curve.realTokenReserves
                == LegOut(PoolAfterCompletion(global, curve, baseAtaAmount).value, bps, left, false) > 0
    ensures var bps := CurveFeeBps(global, cfg, curve, mintSupply).value;
            var leg := PostCompleteLegExactQuote(
              PoolAfterCompletion(global, curve, baseAtaAmount).value, bps, left, false).value.value;
            var back := BuyV3SolAmountFromTokenAmount(global, cfg, curve, mintSupply, baseAtaAmount, tokens);
            && back.Ok?
            && back.value < WithFees(BuyQuote(curve, curve.realTokenReserves).value, bps) + leg.charged
            && leg.charged <= left
  {
    LegPriceWithinCharge(PoolAfterCompletion(global, curve, baseAtaAmount).value,
                         CurveFeeBps(global, cfg, curve, mintSupply).value, left);
    PastRemainderCost(global, cfg, curve, mintSupply, baseAtaAmount, tokens);
  }

  // ---- monotonicity in the budget ----

  /** The uncapped exact-in tokens never fall as the budget grows. */
  lemma UncappedMonotone(
    global: Global, cfg: FeeConfig, curve: BondingCurve, mintSupply: u64, quoteIn: u64, quoteIn': u64)
    requires quoteIn <= quoteIn'
    requires BuyTokensExactIn(global, cfg, curve, mintSupply, quoteIn).Ok?
    requires BuyTokensExactIn(global, cfg, curve, mintSupply, quoteIn').Ok?
    ensures BuyTokensExactIn(global, cfg, curve, mintSupply, quoteIn).value
            <= BuyTokensExactIn(global, cfg, curve, mintSupply, quoteIn').value
  {
    hide ExactInFeeAmounts;
    if BuyTokensExactIn(global, cfg, curve, mintSupply, quoteIn).value > 0 {
      ExactInUnfold(global, cfg, curve, mintSupply, quoteIn);
      var rates := CurveFeeBps(global, cfg, curve, mintSupply).value.AsRates();
      NetMonotoneUpToOne(quoteIn, quoteIn', rates);
      CpMono(NetOrZero(quoteIn, rates) - 1, NetOrZero(quoteIn', rates) - 1,
             curve.virtualQuoteReserves, curve.virtualTokenReserves);
    }
  }

  /** More budget never buys fewer tokens: on the curve, across completion, and in the pool leg. */
  lemma V3TokensMonotone(
    global: Global, cfg: FeeConfig, curve: BondingCurve, mintSupply: u64, baseAtaAmount: u64,
    quoteIn: u64, quoteIn': u64)
    requires quoteIn <= quoteIn'
    requires BuyV3TokenAmountFromSolAmount(global, cfg, curve, mintSupply, baseAtaAmount, quoteIn).Ok?
    requires BuyV3TokenAmountFromSolAmount(global, cfg, curve, mintSupply, baseAtaAmount, quoteIn').Ok?
    ensures BuyV3TokenAmountFromSolAmount(global, cfg, curve, mintSupply, baseAtaAmount, quoteIn).value.tokens
            <= BuyV3TokenAmountFromSolAmount(global, cfg, curve, mintSupply, baseAtaAmount, quoteIn').value.tokens
  {
    UncappedMonotone(global, cfg, curve, mintSupply, quoteIn, quoteIn');
    if Crosses(global, cfg, curve, mintSupply, quoteIn') {
      CrossingFill(global, cfg, curve, mintSupply, baseAtaAmount, quoteIn');
      if Crosses(global, cfg, curve, mintSupply, quoteIn) {
        CrossingFill(global, cfg, curve, mintSupply, baseAtaAmount, quoteIn);
        if !curve.isMayhemMode {
          LegMonotone(PoolAfterCompletion(global, curve, baseAtaAmount).value,
                      CurveFeeBps(global, cfg, curve, mintSupply).value,
                      BudgetLeft(global, cfg, curve, mintSupply, quoteIn),
                      BudgetLeft(global, cfg, curve, mintSupply, quoteIn'));
        }
      }
    }
  }

  // ---- the token-out cost ----

  /** The fee-inclusive price of a (capped) token amount fits 64 bits, so the v2 cast keeps it. */
  predicate PriceFits(global: Global, cfg: FeeConfig, curve: BondingCurve, mintSupply: u64, tokenAmount: u64) {
    var amount := Min(tokenAmount, curve.realTokenReserves);
    && curve.virtualTokenReserves > 0
    && CurveFeeBps(global, cfg, curve, mintSupply).Ok?
    && amount < curve.virtualTokenReserves
    && WithFees(TokenCost(curve, amount), CurveFeeBps(global, cfg, curve, mintSupply).value) <= U64_MAX
  }

  lemma PastPriceMono(pool: PoolReserves, past: nat, past': nat)
    requires past <= past' < pool.base
    ensures PastPrice(pool, past) <= PastPrice(pool, past')
  {
    CeilPriceMono(pool.quote, pool.base, past, past');
  }

  lemma TokenOutMonotone(
    global: Global, cfg: FeeConfig, curve: BondingCurve, mintSupply: u64, tokenAmount: u64, tokenAmount': u64)
    requires tokenAmount <= tokenAmount'
    requires PriceFits(global, cfg, curve, mintSupply, tokenAmount')
    ensures PriceFits(global, cfg, curve, mintSupply, tokenAmount)
    ensures BuySolAmountFromTokenAmount(global, cfg, curve, mintSupply, tokenAmount').Ok?
    ensures BuySolAmountFromTokenAmount(global, cfg, curve, mintSupply, tokenAmount).Ok?
    ensures BuySolAmountFromTokenAmount(global, cfg, curve, mintSupply, tokenAmount).value
            <= BuySolAmountFromTokenAmount(global, cfg, curve, mintSupply, tokenAmount').value
  {
    var bps := CurveFeeBps(global, cfg, curve, mintSupply).value;
    var a, a' := Min(tokenAmount, curve.realTokenReserves), Min(tokenAmount', curve.realTokenReserves);
    CostMono(curve, a, a');
    WithFeesMono(TokenCost(curve, a), TokenCost(curve, a'), bps);
    if tokenAmount > 0 {
      TokenOutExact(global, cfg, curve, mintSupply, tokenAmount);
    }
    if tokenAmount' > 0 {
      TokenOutExact(global, cfg, curve, mintSupply, tokenAmount');
    }
  }

  /** A successful quote past the remainder also prices everything up to the remainder. */
  lemma PastRemainderFits(
    global: Global, cfg: FeeConfig, curve: BondingCurve, mintSupply: u64, baseAtaAmount: u64, tokenAmount: u64)
    requires Priceable(curve) && !curve.isMayhemMode && tokenAmount > curve.realTokenReserves
    requires BuyV3SolAmountFromTokenAmount(global, cfg, curve, mintSupply, baseAtaAmount, tokenAmount).Ok?
    ensures curve.virtualTokenReserves > 0 && curve.realTokenReserves > 0
    ensures PriceFits(global, cfg, curve, mintSupply, tokenAmount)
    ensures PriceFits(global, cfg, curve, mintSupply, curve.realTokenReserves)
    ensures BuySolAmountFromTokenAmount(global, cfg, curve, mintSupply, tokenAmount).Ok?
    ensures BuySolAmountFromTokenAmount(global, cfg, curve, mintSupply, tokenAmount)
            == BuySolAmountFromTokenAmount(global, cfg, curve, mintSupply, curve.realTokenReserves)
    ensures BuySolAmountFromTokenAmount(global, cfg, curve, mintSupply, tokenAmount).value
            < BuyV3SolAmountFromTokenAmount(global, cfg, curve, mintSupply, baseAtaAmount, tokenAmount).value
  {
    PastRemainderCost(global, cfg, curve, mintSupply, baseAtaAmount, tokenAmount);
    TokenOutExact(global, cfg, curve, mintSupply, tokenAmount);
    TokenOutExact(global, cfg, curve, mintSupply, curve.realTokenReserves);
    var past := tokenAmount - curve.realTokenReserves;
    PastPricePositive(PoolAfterCompletion(global, curve, baseAtaAmount).value, past);
  }

  /** Against the v2 quote: equal up to the remainder and on mayhem curves, strictly above past it. */
  lemma V3CostAgainstV2(
    global: Global, cfg: FeeConfig, curve: BondingCurve, mintSupply: u64, baseAtaAmount: u64, tokenAmount: u64)
    requires Priceable(curve) && CurveOpen(curve, false)
    ensures var v3 := BuyV3SolAmountFromTokenAmount(global, cfg, curve, mintSupply, baseAtaAmount, tokenAmount);
            var v2 := BuySolAmountFromTokenAmount(global, cfg, curve, mintSupply, tokenAmount);
            if tokenAmount <= curve.realTokenReserves || curve.isMayhemMode then v3 == v2
            else v3.Ok? ==> v2.Ok? && v2.value < v3.value
  {
    if tokenAmount > curve.realTokenReserves && !curve.isMayhemMode
      && BuyV3SolAmountFromTokenAmount(global, cfg, curve, mintSupply, baseAtaAmount, tokenAmount).Ok? {
      PastRemainderFits(global, cfg, curve, mintSupply, baseAtaAmount, tokenAmount);
    }
  }

  /** More tokens never cost less, across the completion boundary, for every amount whose price fits. */
  lemma V3CostMonotone(
    global: Global, cfg: FeeConfig, curve: BondingCurve, mintSupply: u64, baseAtaAmount: u64,
    tokenAmount: u64, tokenAmount': u64)
    requires Priceable(curve) && tokenAmount <= tokenAmount'
    requires BuyV3SolAmountFromTokenAmount(global, cfg, curve, mintSupply, baseAtaAmount, tokenAmount').Ok?
    requires tokenAmount' <= curve.realTokenReserves || curve.isMayhemMode ==>
               PriceFits(global, cfg, curve, mintSupply, tokenAmount')
    ensures BuyV3SolAmountFromTokenAmount(global, cfg, curve, mintSupply, baseAtaAmount, tokenAmount).Ok?
    ensures BuyV3SolAmountFromTokenAmount(global, cfg, curve, mintSupply, baseAtaAmount, tokenAmount).value
            <= BuyV3SolAmountFromTokenAmount(global, cfg, curve, mintSupply, baseAtaAmount, tokenAmount').value
  {
    if tokenAmount' <= curve.realTokenReserves || curve.isMayhemMode {
      TokenOutMonotone(global, cfg, curve, mintSupply, tokenAmount, tokenAmount');
    } else if tokenAmount <= curve.realTokenReserves {
      PastRemainderFits(global, cfg, curve, mintSupply, baseAtaAmount, tokenAmount');
      TokenOutMonotone(global, cfg, curve, mintSupply, tokenAmount, curve.realTokenReserves);
    } else {
      PastCostMonotone(global, cfg, curve, mintSupply, baseAtaAmount, tokenAmount, tokenAmount');
    }
  }

  lemma PastCostMonotone(
    global: Global, cfg: FeeConfig, curve: BondingCurve, mintSupply: u64, baseAtaAmount: u64,
    tokenAmount: u64, tokenAmount': u64)
    requires Priceable(curve) && curve.realTokenReserves < tokenAmount <= tokenAmount' && !curve.isMayhemMode
    requires BuyV3SolAmountFromTokenAmount(global, cfg, curve, mintSupply, baseAtaAmount, tokenAmount').Ok?
    ensures BuyV3SolAmountFromTokenAmount(global, cfg, curve, mintSupply, baseAtaAmount, tokenAmount).Ok?
    ensures BuyV3SolAmountFromTokenAmount(global, cfg, curve, mintSupply, baseAtaAmount, tokenAmount).value
            <= BuyV3SolAmountFromTokenAmount(global, cfg, curve, mintSupply, baseAtaAmount, tokenAmount').value
  {
    hide CpOut, FeeAmount, CeilDiv;
    PastRemainderCost(global, cfg, curve, mintSupply, baseAtaAmount, tokenAmount');
    PastRemainderCost(global, cfg, curve, mintSupply, baseAtaAmount, tokenAmount);
    var bps := CurveFeeBps(global, cfg, curve, mintSupply).value;
    var pool := PoolAfterCompletion(global, curve, baseAtaAmount).value;
    var past, past' := tokenAmount - curve.realTokenReserves, tokenAmount' - curve.realTokenReserves;
    PastPriceMono(pool, past, past');
    WithFeesMono(PastPrice(pool, past), PastPrice(pool, past'), bps);
  }

  /** Without the fit condition the v2 cast breaks it: here two tokens cost 0 and one costs a third of `u64`. */
  lemma TruncationExample(global: Global, cfg: FeeConfig, curve: BondingCurve, mintSupply: u64)
    requires curve.virtualQuoteReserves == U64_MAX
    requires curve.virtualTokenReserves == 4 && curve.realTokenReserves == 3
    requires CurveFeeBps(global, cfg, curve, mintSupply) == Ok(CurveBps(0, 0))
    ensures BuySolAmountFromTokenAmount(global, cfg, curve, mintSupply, 1) == Ok(U64_MAX / 3 + 1)
    ensures BuySolAmountFromTokenAmount(global, cfg, curve, mintSupply, 2) == Ok(0)
    ensures !PriceFits(global, cfg, curve, mintSupply, 2)
  {
    assert TokenCost(curve, 1) == U64_MAX / 3 + 1;
    assert TokenCost(curve, 2) == U64_MAX + 1;
  }

  /**
   * The converse of the agreement: a budget covering, fees included, the price plus one unit and
   * the possible shave always buys at least the tokens priced.
   */
  lemma ExactInReachesPrice(
    global: Global, cfg: FeeConfig, curve: BondingCurve, mintSupply: u64, tokenAmount: u64, quoteIn: u64)
    requires tokenAmount < curve.virtualTokenReserves && curve.virtualQuoteReserves > 0
    requires CurveFeeBps(global, cfg, curve, mintSupply).Ok?
    requires var bps := CurveFeeBps(global, cfg, curve, mintSupply).value;
             quoteIn >= WithFees(TokenCost(curve, tokenAmount) + 1 + MaxShave(bps.AsRates()), bps)
    ensures BuyTokensExactIn(global, cfg, curve, mintSupply, quoteIn).Ok?
    ensures BuyTokensExactIn(global, cfg, curve, mintSupply, quoteIn).value >= tokenAmount
  {
    hide FeeAmount, ExactInFeeAmounts;
    var bps := CurveFeeBps(global, cfg, curve, mintSupply).value;
    var target := TokenCost(curve, tokenAmount) + 1 + MaxShave(bps.AsRates());
    WithFeesIsFeeTotal(target, bps);
    PriceNetsTarget(quoteIn, target, bps.AsRates());
    CostIsEnough(curve, tokenAmount, NetOrZero(quoteIn, bps.AsRates()) - 1);
  }

  /**
   * The same through completion: a crossing buy whose budget covers the remainder plus the pool
   * price of `past` tokens, one unit and the possible shave, delivers at least all of them.
   */
  lemma CrossingReachesPrice(
    global: Global, cfg: FeeConfig, curve: BondingCurve, mintSupply: u64, baseAtaAmount: u64,
    quoteIn: u64, past: nat)
    requires BuyV3TokenAmountFromSolAmount(global, cfg, curve, mintSupply, baseAtaAmount, quoteIn).Ok?
    requires Crosses(global, cfg, curve, mintSupply, quoteIn) && !curve.isMayhemMode
    requires PoolAfterCompletion(global, curve, baseAtaAmount).Ok?
    requires 0 < past < PoolAfterCompletion(global, curve, baseAtaAmount).value.base
    requires var bps := CurveFeeBps(global, cfg, curve, mintSupply).value;
             var pool := PoolAfterCompletion(global, curve, baseAtaAmount).value;
             quoteIn >= WithFees(BuyQuote(curve, curve.realTokenReserves).value, bps)
                        + WithFees(PastPrice(pool, past) + 1 + MaxShave(bps.AsRates()), bps)
    ensures BuyV3TokenAmountFromSolAmount(global, cfg, curve, mintSupply, baseAtaAmount, quoteIn).value.tokens
            >= curve.realTokenReserves + past
  {
    hide WithFees, PastPrice, MaxShave, TokenCost, CpOut, FlooredNet, FeeAmount, ExactInFeeAmounts,
      PostCompleteLegExactQuote;
    CrossingFill(global, cfg, curve, mintSupply, baseAtaAmount, quoteIn);
    LegReachesPrice(PoolAfterCompletion(global, curve, baseAtaAmount).value,
                    CurveFeeBps(global, cfg, curve, mintSupply).value, past,
                    BudgetLeft(global, cfg, curve, mintSupply, quoteIn));
  }

  // ---- a curve hop charging both fees against the direct trades ----

  const ALL_FLAGS: u8 := 3

  /** A both-fees sell hop succeeds with `out` exactly when the direct sale pays the nonzero `out`. */
  lemma HopSellIsDirectSell(
    global: Global, cfg: FeeConfig, curve: BondingCurve, mintSupply: u64, baseAtaAmount: u64, user: Pubkey,
    tokenAmount: u64, out: u64)
    requires CurveOpen(curve, false) && !curve.isMayhemMode && curve.virtualTokenReserves > 0
    ensures MultiHopCurveHop(global, cfg, curve, mintSupply, baseAtaAmount, user, false, tokenAmount, ALL_FLAGS)
            == Ok(out)
            <==>
            SellSolAmountFromTokenAmount(global, cfg, curve, mintSupply, tokenAmount) == Ok(out) && out > 0
  {
    hide FeeAmount, TotalBps, CurveFeeBps;
    if CurveFeeBps(global, cfg, curve, mintSupply).Ok? {
      var bps := CurveFeeBps(global, cfg, curve, mintSupply).value;
      assert HopBps(bps, ALL_FLAGS) == bps;
      if tokenAmount == 0 {
        assert CpOut(0, curve.virtualTokenReserves, curve.virtualQuoteReserves) == 0;
      }
    }
  }

  /**
   * Why a priced curve hop is refused: a sale whose fees leave nothing, a buy of nothing, an agent
   * barred from the pool leg, a remainder without a price or a pool that cannot open.
   */
  lemma CurveHopRefusals(
    global: Global, curve: BondingCurve, baseAtaAmount: u64, user: Pubkey, amount: u64, bps: CurveBps)
    requires curve.virtualTokenReserves > 0 && curve.virtualQuoteReserves > 0
    ensures var gross := CpOut(amount, curve.virtualTokenReserves, curve.virtualQuoteReserves);
            var r := CurveHopSell(curve, amount, bps);
            && (r == Err(ZeroAmount) <==> gross <= FeeAmount(gross, bps.protocol) + FeeAmount(gross, bps.creator))
            && (r.Err? ==> r.error == ZeroAmount)
    ensures var e := ExactInFeeAmounts(amount, bps.AsRates());
            var r := CurveHopBuy(global, curve, baseAtaAmount, user, amount, bps);
            if e.Err? then r == Err(ZeroAmount)
            else
              var swapped := amount - (e.value.fee0 + e.value.fee1) - 1;
              var tokens := CpOut(swapped, curve.virtualQuoteReserves, curve.virtualTokenReserves);
              if tokens == 0 then r == Err(ZeroAmount)
              else if tokens <= curve.realTokenReserves then r.Ok?
              else if user == global.whitelistPda then r == Err(PostCompleteLegNotAllowed)
              else r.Err? ==>
                     match BuyQuote(curve, curve.realTokenReserves)
                     case Err(error) => r == Err(error)
                     case Ok(_) => PoolAfterCompletion(global, curve, baseAtaAmount) == Err(r.error)
  {
    hide CpOut, FeeAmount, FlooredNet, TokenCost, WithFees, PostCompleteLegExactQuote;
    if PoolAfterCompletion(global, curve, baseAtaAmount).Ok? {
      var pool := PoolAfterCompletion(global, curve, baseAtaAmount).value;
      forall budget: u64 | true
        ensures PostCompleteLegExactQuote(pool, bps, budget, true).Ok?
      {
        LegIsTotalAndConservative(pool, bps, budget);
      }
    }
  }

  /** A both-fees buy hop spends the whole budget, so when it succeeds it delivers at least the v3 fill. */
  lemma HopBuyDominatesV3(
    global: Global, cfg: FeeConfig, curve: BondingCurve, mintSupply: u64, baseAtaAmount: u64, user: Pubkey,
    quoteIn: u64)
    requires Priceable(curve)
    requires BuyV3TokenAmountFromSolAmount(global, cfg, curve, mintSupply, baseAtaAmount, quoteIn).Ok?
    requires MultiHopCurveHop(global, cfg, curve, mintSupply, baseAtaAmount, user, true, quoteIn, ALL_FLAGS).Ok?
    ensures MultiHopCurveHop(global, cfg, curve, mintSupply, baseAtaAmount, user, true, quoteIn, ALL_FLAGS).value
            >= BuyV3TokenAmountFromSolAmount(global, cfg, curve, mintSupply, baseAtaAmount, quoteIn).value.tokens
  {
    hide Floor, CeilDiv, FlooredNet, ExactInFeeAmounts, CurveFeeBps, PostCompleteLegExactQuote, BuyTokensExactIn;
    var bps := CurveFeeBps(global, cfg, curve, mintSupply).value;
    assert HopBps(bps, ALL_FLAGS) == bps;
    if BuyTokensExactIn(global, cfg, curve, mintSupply, quoteIn).value > 0 {
      HopTokensAtLeastUncapped(global, cfg, curve, mintSupply, quoteIn);
      if Crosses(global, cfg, curve, mintSupply, quoteIn) {
        HopCrossingDominates(global, cfg, curve, mintSupply, baseAtaAmount, user, quoteIn);
      }
    }
  }

  /** The whole-budget net buys at least what the shaved net buys. */
  lemma HopTokensAtLeastUncapped(global: Global, cfg: FeeConfig, curve: BondingCurve, mintSupply: u64, quoteIn: u64)
    requires var r := BuyTokensExactIn(global, cfg, curve, mintSupply, quoteIn); r.Ok? && r.value > 0
    ensures var bps := CurveFeeBps(global, cfg, curve, mintSupply).value;
            var e := ExactInFeeAmounts(quoteIn, bps.AsRates()).value;
            BuyTokensExactIn(global, cfg, curve, mintSupply, quoteIn).value
            <= CpOut(quoteIn - (e.fee0 + e.fee1) - 1, curve.virtualQuoteReserves, curve.virtualTokenReserves)
  {
    ExactInUnfold(global, cfg, curve, mintSupply, quoteIn);
    var bps := CurveFeeBps(global, cfg, curve, mintSupply).value;
    var e := ExactInFeeAmounts(quoteIn, bps.AsRates()).value;
    CpMono(e.net - 1, quoteIn - (e.fee0 + e.fee1) - 1, curve.virtualQuoteReserves, curve.virtualTokenReserves);
  }

  lemma HopCrossingDominates(
    global: Global, cfg: FeeConfig, curve: BondingCurve, mintSupply: u64, baseAtaAmount: u64, user: Pubkey,
    quoteIn: u64)
    requires BuyV3TokenAmountFromSolAmount(global, cfg, curve, mintSupply, baseAtaAmount, quoteIn).Ok?
    requires Crosses(global, cfg, curve, mintSupply, quoteIn) && !curve.isMayhemMode
    requires var bps := CurveFeeBps(global, cfg, curve, mintSupply).value;
             CurveHopBuy(global, curve, baseAtaAmount, user, quoteIn, bps).Ok?
    ensures var bps := CurveFeeBps(global, cfg, curve, mintSupply).value;
            CurveHopBuy(global, curve, baseAtaAmount, user, quoteIn, bps).value
            >= BuyV3TokenAmountFromSolAmount(global, cfg, curve, mintSupply, baseAtaAmount, quoteIn).value.tokens
  {
    hide CpOut, TokenCost, FlooredNet, PostCompleteLegExactQuote;
    CrossingFill(global, cfg, curve, mintSupply, baseAtaAmount, quoteIn);
    HopTokensAtLeastUncapped(global, cfg, curve, mintSupply, quoteIn);
    LegIsTotalAndConservative(PoolAfterCompletion(global, curve, baseAtaAmount).value,
                              CurveFeeBps(global, cfg, curve, mintSupply).value,
                              BudgetLeft(global, cfg, curve, mintSupply, quoteIn));
  }
}
