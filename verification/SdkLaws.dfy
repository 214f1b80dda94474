/** What the quote wrappers promise a caller who passes their fields on to the program. */
module SdkLaws {
  import opened Arithmetic
  import opened State
  import opened Utils
  import opened Fee
  import opened Curve
  import opened CurveLaws
  import opened V3Laws
  import opened Sdk

  /**
   * Whenever the token quote succeeds the v2 exact-in quote succeeds, uses no more than the
   * budget and promises no more than it quotes, also when the fill lands on or past the
   * remainder and the other quoter re-prices it.
   */
  lemma PartialFillWithinBudget(
    global: Global, cfg: FeeConfig, curve: BondingCurve, mintSupply: u64, quoteIn: u64, slippageBps: nat)
    requires slippageBps <= 0xFFFF
    requires BuyTokenAmountFromSolAmount(global, cfg, curve, mintSupply, quoteIn).Ok?
    ensures var r := BuyQuoteBondingCurveSolIn(global, cfg, curve, mintSupply, quoteIn, slippageBps);
            && r.Ok?
            && r.value.inputAmountUsed <= r.value.maxInput == quoteIn
            && r.value.minOut <= r.value.amount <= curve.realTokenReserves
    ensures var r := BuyQuoteBondingCurveSolIn(global, cfg, curve, mintSupply, quoteIn, slippageBps);
            var uncapped := BuyTokensExactIn(global, cfg, curve, mintSupply, quoteIn).value;
            uncapped >= curve.realTokenReserves > 0 ==>
              && CurveFeeBps(global, cfg, curve, mintSupply).Ok?
              && curve.realTokenReserves < curve.virtualTokenReserves
              && r.value.inputAmountUsed
                 == WithFees(TokenCost(curve, curve.realTokenReserves),
                             CurveFeeBps(global, cfg, curve, mintSupply).value)
  {
    var uncapped := BuyTokensExactIn(global, cfg, curve, mintSupply, quoteIn).value;
    if uncapped >= curve.realTokenReserves > 0 {
      RemainderWithinBudget(global, cfg, curve, mintSupply, quoteIn);
    }
  }

  lemma RemainderWithinBudget(global: Global, cfg: FeeConfig, curve: BondingCurve, mintSupply: u64, quoteIn: u64)
    requires var r := BuyTokensExactIn(global, cfg, curve, mintSupply, quoteIn);
             r.Ok? && r.value >= curve.realTokenReserves > 0
    ensures curve.realTokenReserves < curve.virtualTokenReserves
    ensures CurveFeeBps(global, cfg, curve, mintSupply).Ok?
    ensures var cost := WithFees(TokenCost(curve, curve.realTokenReserves),
                                 CurveFeeBps(global, cfg, curve, mintSupply).value);
            && cost <= quoteIn
            && BuySolAmountFromTokenAmount(global, cfg, curve, mintSupply, curve.realTokenReserves) == Ok(cost)
  {
    ExactInUnfold(global, cfg, curve, mintSupply, quoteIn);
    var bps := CurveFeeBps(global, cfg, curve, mintSupply).value;
    var e := ExactInFeeAmounts(quoteIn, bps.AsRates()).value;
    CostOfBought(curve, e.net - 1, curve.realTokenReserves);
    PriceWithinCharge(quoteIn, bps, TokenCost(curve, curve.realTokenReserves));
    TokenOutExact(global, cfg, curve, mintSupply, curve.realTokenReserves);
  }

  /**
   * Quoting v3 tokens for a budget and then quoting the budget for those tokens closes:
   * the second quote delivers the same tokens and asks no more than the first one used.
   */
  lemma V3WrappersClose(
    global: Global, cfg: FeeConfig, curve: BondingCurve, mintSupply: u64, baseAtaAmount: u64,
    quoteIn: u64, slippageBps: nat)
    requires Priceable(curve) && slippageBps <= 0xFFFF
    requires var r := BuyQuoteBondingCurveV3SolIn(
               global, cfg, curve, mintSupply, baseAtaAmount, quoteIn, slippageBps);
             r.Ok? && r.value.amount > 0
    ensures var there := BuyQuoteBondingCurveV3SolIn(
              global, cfg, curve, mintSupply, baseAtaAmount, quoteIn, slippageBps).value;
            var back := BuyQuoteBondingCurveV3TokenOut(
              global, cfg, curve, mintSupply, baseAtaAmount, there.amount, slippageBps);
            && there.inputAmountUsed <= there.maxInput
            && there.minOut <= there.amount
            && back.Ok?
            && back.value.minOut == there.amount
            && back.value.amount <= there.inputAmountUsed
  {
    V3QuotersAgree(global, cfg, curve, mintSupply, baseAtaAmount, quoteIn);
    if Crosses(global, cfg, curve, mintSupply, quoteIn) {
      CrossingFill(global, cfg, curve, mintSupply, baseAtaAmount, quoteIn);
    }
  }

  /** The same closure for the v2 pair, on the curve and at a fill of the whole remainder. */
  lemma V2WrappersClose(
    global: Global, cfg: FeeConfig, curve: BondingCurve, mintSupply: u64, quoteIn: u64, slippageBps: nat)
    requires slippageBps <= 0xFFFF
    requires var r := BuyQuoteBondingCurveSolIn(global, cfg, curve, mintSupply, quoteIn, slippageBps);
             r.Ok? && r.value.amount > 0
    ensures var there := BuyQuoteBondingCurveSolIn(global, cfg, curve, mintSupply, quoteIn, slippageBps).value;
            var back := BuyQuoteBondingCurveTokenOut(global, cfg, curve, mintSupply, there.amount, slippageBps);
            && back.Ok?
            && back.value.minOut == there.amount
            && back.value.amount <= there.inputAmountUsed
  {
    var uncapped := BuyTokensExactIn(global, cfg, curve, mintSupply, quoteIn).value;
    if uncapped >= curve.realTokenReserves {
      RemainderWithinBudget(global, cfg, curve, mintSupply, quoteIn);
    } else {
      InCurvePriceWithinBudget(global, cfg, curve, mintSupply, quoteIn);
    }
  }

  lemma InCurvePriceWithinBudget(
    global: Global, cfg: FeeConfig, curve: BondingCurve, mintSupply: u64, quoteIn: u64)
    requires var r := BuyTokensExactIn(global, cfg, curve, mintSupply, quoteIn);
             r.Ok? && 0 < r.value < curve.realTokenReserves
    ensures var tokens := BuyTokensExactIn(global, cfg, curve, mintSupply, quoteIn).value;
            var back := BuySolAmountFromTokenAmount(global, cfg, curve, mintSupply, tokens);
            back.Ok? && back.value <= quoteIn
  {
    ExactInUnfold(global, cfg, curve, mintSupply, quoteIn);
    var tokens := BuyTokensExactIn(global, cfg, curve, mintSupply, quoteIn).value;
    var bps := CurveFeeBps(global, cfg, curve, mintSupply).value;
    CostOfBought(curve, ExactInFeeAmounts(quoteIn, bps.AsRates()).value.net - 1, tokens);
    PriceWithinCharge(quoteIn, bps, TokenCost(curve, tokens));
    TokenOutExact(global, cfg, curve, mintSupply, tokens);
  }

  /** What a v3 exact-in quote says is used is the program's charge, so the rounding leftover stays with the buyer. */
  lemma V3UsesWhatIsCharged(
    global: Global, cfg: FeeConfig, curve: BondingCurve, mintSupply: u64, baseAtaAmount: u64,
    quoteIn: u64, slippageBps: nat)
    requires slippageBps <= 0xFFFF
    requires var r := BuyQuoteBondingCurveV3SolIn(
               global, cfg, curve, mintSupply, baseAtaAmount, quoteIn, slippageBps);
             r.Ok? && r.value.amount > 0
    ensures CurveFeeBps(global, cfg, curve, mintSupply).Ok?
    ensures var r := BuyQuoteBondingCurveV3SolIn(
              global, cfg, curve, mintSupply, baseAtaAmount, quoteIn, slippageBps).value;
            var bps := CurveFeeBps(global, cfg, curve, mintSupply).value;
            if Crosses(global, cfg, curve, mintSupply, quoteIn) then
              && BuyQuote(curve, curve.realTokenReserves).Ok?
              && (r.amount == curve.realTokenReserves ==>
                    r.inputAmountUsed == WithFees(BuyQuote(curve, curve.realTokenReserves).value, bps))
            else
              var e := ExactInFeeAmounts(quoteIn, bps.AsRates());
              && e.Ok? && r.inputAmountUsed == e.value.net + e.value.fee0 + e.value.fee1
              && quoteIn - r.inputAmountUsed <= CeilDiv(bps.protocol + bps.creator, BPS)
  {
    hide TokenCost, CpOut, PostCompleteLegExactQuote, CurveFeeBps, WithFees, FlooredNet, FeeAmount;
    if Crosses(global, cfg, curve, mintSupply, quoteIn) {
      CrossingFill(global, cfg, curve, mintSupply, baseAtaAmount, quoteIn);
    } else {
      OnCurveFill(global, cfg, curve, mintSupply, baseAtaAmount, quoteIn);
      CurveExactIn(quoteIn, CurveFeeBps(global, cfg, curve, mintSupply).value);
    }
  }

  /** Up to the remainder, and on mayhem curves for any amount, the v3 token-out quote is the v2 one. */
  lemma V3TokenOutIsV2(
    global: Global, cfg: FeeConfig, curve: BondingCurve, mintSupply: u64, baseAtaAmount: u64,
    tokenAmount: u64, slippageBps: nat)
    requires CurveOpen(curve, false) && Priceable(curve) && slippageBps <= 0xFFFF
    requires tokenAmount <= curve.realTokenReserves || curve.isMayhemMode
    ensures BuyQuoteBondingCurveV3TokenOut(global, cfg, curve, mintSupply, baseAtaAmount, tokenAmount, slippageBps)
            == BuyQuoteBondingCurveTokenOut(global, cfg, curve, mintSupply, tokenAmount, slippageBps)
  {
    hide AddSlippage, BuySolAmountFromTokenAmount;
  }

  // ---- slippage limits ----

  /** A floor on the output is the tolerance taken off, rounded down. */
  lemma MinOutIsFloor(value: u64, bps: nat)
    requires bps <= 0xFFFF
    ensures bps <= 10_000 ==>
              SubSlippage(value, bps) * 10_000 <= value * (10_000 - bps) < (SubSlippage(value, bps) + 1) * 10_000
    ensures bps >= 10_000 ==> SubSlippage(value, bps) == 0
  {
    SubSlippageUncast(value, bps);
  }

  /** A quote with an exact input promises at least its output less the tolerance, and spends at most that input. */
  predicate LimitsExactIn(quote: Quote, quoteIn: u64, bps: nat) {
    && quote.maxInput == quoteIn
    && (bps <= 10_000 ==> quote.minOut * 10_000 <= quote.amount * (10_000 - bps) < (quote.minOut + 1) * 10_000)
    && (bps >= 10_000 ==> quote.minOut == 0)
  }

  /** A quote for an exact output promises that output, and caps its cost at the tolerance added, while that fits. */
  predicate LimitsExactOut(quote: Quote, bps: nat) {
    && quote.minOut == quote.inputAmountUsed
    && (RaisedCost(quote.amount, bps) <= U64_MAX ==>
          quote.maxInput * 10_000 <= quote.amount * (10_000 + bps) < (quote.maxInput + 1) * 10_000)
  }

  /** All four curve quotes pass the caller's tolerance on, on the side the trade leaves open. */
  lemma QuotesCarryTolerance(
    global: Global, cfg: FeeConfig, curve: BondingCurve, mintSupply: u64, baseAtaAmount: u64, amount: u64, bps: nat)
    requires bps <= 0xFFFF
    ensures var r := BuyQuoteBondingCurveSolIn(global, cfg, curve, mintSupply, amount, bps);
            r.Ok? ==> LimitsExactIn(r.value, amount, bps)
    ensures var r := BuyQuoteBondingCurveV3SolIn(global, cfg, curve, mintSupply, baseAtaAmount, amount, bps);
            r.Ok? ==> LimitsExactIn(r.value, amount, bps)
    ensures var r := BuyQuoteBondingCurveTokenOut(global, cfg, curve, mintSupply, amount, bps);
            r.Ok? ==> LimitsExactOut(r.value, bps) && r.value.minOut == Min(amount, curve.realTokenReserves)
    ensures Priceable(curve) ==>
              var r := BuyQuoteBondingCurveV3TokenOut(global, cfg, curve, mintSupply, baseAtaAmount, amount, bps);
              r.Ok? ==> LimitsExactOut(r.value, bps) && (!curve.isMayhemMode ==> r.value.minOut == amount)
  {
    hide BuyTokenAmountFromSolAmount, BuySolAmountFromTokenAmount, BuyV3TokenAmountFromSolAmount,
      BuyV3SolAmountFromTokenAmount, SubSlippage, AddSlippage;
    forall value: u64 | true
      ensures var minOut := SubSlippage(value, bps);
              && (bps <= 10_000 ==> minOut * 10_000 <= value * (10_000 - bps) < (minOut + 1) * 10_000)
              && (bps >= 10_000 ==> minOut == 0)
      ensures RaisedCost(value, bps) <= U64_MAX ==>
                var cap := AddSlippage(value, bps);
                cap * 10_000 <= value * (10_000 + bps) < (cap + 1) * 10_000
    {
      MinOutIsFloor(value, bps);
      if RaisedCost(value, bps) <= U64_MAX {
        CapIsFloor(value, bps);
      }
    }
  }

  lemma CapIsFloor(value: u64, bps: nat)
    requires bps <= 0xFFFF && RaisedCost(value, bps) <= U64_MAX
    ensures AddSlippage(value, bps) * 10_000 <= value * (10_000 + bps) < (AddSlippage(value, bps) + 1) * 10_000
  {}

  lemma SubSlippageUncast(value: u64, bps: nat)
    requires bps <= 0xFFFF
    ensures SubSlippage(value, bps) == value * (10_000 - Min(bps, 10_000)) / 10_000
  {
    MulLe(10_000 - Min(bps, 10_000), 10_000, value);
  }

  /** The cost with the tolerance added, before the cast. */
  function RaisedCost(value: u64, bps: nat): nat {
    value * (10_000 + bps) / 10_000
  }

  lemma RaisedAtLeast(value: u64, bps: nat)
    ensures RaisedCost(value, bps) == value + value * bps / 10_000
    ensures bps <= 10_000 ==> RaisedCost(value, bps) <= 2 * value
  {
    var extra := value * bps;
    assert value * (10_000 + bps) == value * 10_000 + extra;
    if bps <= 10_000 {
      MulLe(bps, 10_000, value);
    }
  }

  /** The cap saturates, as its documentation says, exactly when nothing is lost or all low bits are set. */
  lemma CapSaturatesIff(value: u64, bps: nat)
    requires bps <= 0xFFFF
    ensures AddSlippage(value, bps) == Min(RaisedCost(value, bps), U64_MAX) <==>
            RaisedCost(value, bps) <= U64_MAX || RaisedCost(value, bps) % 0x1_0000_0000_0000_0000 == U64_MAX
  {}

  /**
   * For every tolerance a cap that fits is the cost plus the tolerance rounded down. A cap that does
   * not fit falls below the cost it should cover, always so up to a 100% tolerance and above that
   * unless the bits kept happen to reach it.
   */
  lemma MaxInputCoversIffFits(value: u64, bps: nat)
    requires bps <= 0xFFFF
    ensures RaisedCost(value, bps) <= U64_MAX ==> AddSlippage(value, bps) == value + value * bps / 10_000
    ensures value <= AddSlippage(value, bps) <==>
            || RaisedCost(value, bps) <= U64_MAX
            || (bps > 10_000 && RaisedCost(value, bps) % 0x1_0000_0000_0000_0000 >= value)
  {
    RaisedAtLeast(value, bps);
    assert AddSlippage(value, bps) == TruncU64(RaisedCost(value, bps));
    hide RaisedCost, AddSlippage, TruncU64;
    CastCovers(value, RaisedCost(value, bps));
  }

  lemma CastCovers(value: u64, raised: nat)
    requires value <= raised
    ensures raised <= U64_MAX ==> TruncU64(raised) == raised
    ensures TruncU64(raised) == raised % 0x1_0000_0000_0000_0000
    ensures raised > U64_MAX && raised <= 2 * value ==> TruncU64(raised) < value
  {}

  /** One basis point on the largest amount leaves a cap below it; above 100% a cast cap can still cover. */
  lemma CapFailsExample()
    ensures AddSlippage(U64_MAX, 1) < U64_MAX
    ensures RaisedCost(0x8000_0000_0000_0000, 0xFFFF) > U64_MAX
    ensures AddSlippage(0x8000_0000_0000_0000, 0xFFFF) >= 0x8000_0000_0000_0000
  {}
}
