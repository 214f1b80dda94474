/** How the curve quoters relate to each other: exact-in, token-out, crossing and the pool leg. */
module CurveLaws {
  import opened Arithmetic
  import opened State
  import opened Utils
  import opened Fee
  import opened Curve

  // ---- price of a token amount against the curve's constant product ----

  /** The price is within `m` exactly when `t * vq < m * (vt - t)`. */
  lemma CostGalois(curve: BondingCurve, t: nat, m: int)
    requires t < curve.virtualTokenReserves
    ensures TokenCost(curve, t) <= m <==>
            t * curve.virtualQuoteReserves < m * (curve.virtualTokenReserves - t)
  {
    FloorGalois(t * curve.virtualQuoteReserves, curve.virtualTokenReserves - t, m);
  }

  /** Swapping `m` buys at least `t` (for `t` below the token side) as soon as `m` reaches the price. */
  lemma CostIsEnough(curve: BondingCurve, t: nat, m: nat)
    requires t < curve.virtualTokenReserves && curve.virtualQuoteReserves > 0
    requires TokenCost(curve, t) <= m
    ensures t <= CpOut(m, curve.virtualQuoteReserves, curve.virtualTokenReserves)
  {
    CostGalois(curve, t, m);
    CpGalois(m, curve.virtualQuoteReserves, curve.virtualTokenReserves, t);
  }

  /** What swapping `m` bought is priced at no more than `m + 1`, and anything less at no more than `m`. */
  lemma CostOfBought(curve: BondingCurve, m: nat, t: nat)
    requires curve.virtualQuoteReserves + m > 0
    requires t <= CpOut(m, curve.virtualQuoteReserves, curve.virtualTokenReserves)
    requires t < curve.virtualTokenReserves
    ensures TokenCost(curve, t) <= m + 1
    ensures t < CpOut(m, curve.virtualQuoteReserves, curve.virtualTokenReserves) ==> TokenCost(curve, t) <= m
  {
    var vq, vt := curve.virtualQuoteReserves, curve.virtualTokenReserves;
    CpGalois(m, vq, vt, t);
    CostGalois(curve, t, m + 1);
    assert (m + 1) * (vt - t) == m * (vt - t) + (vt - t);
    if t < CpOut(m, vq, vt) {
      CpGalois(m, vq, vt, t + 1);
      CostGalois(curve, t, m);
      assert (t + 1) * vq == t * vq + vq;
      assert m * (vt - (t + 1)) == m * (vt - t) - m;
    }
  }

  lemma CostMono(curve: BondingCurve, t: nat, t': nat)
    requires t <= t' < curve.virtualTokenReserves
    ensures TokenCost(curve, t) <= TokenCost(curve, t')
  {
    var vq, vt, c := curve.virtualQuoteReserves, curve.virtualTokenReserves, TokenCost(curve, t');
    CostGalois(curve, t', c);
    CostGalois(curve, t, c);
    MulLe(t, t', vq);
    MulLe(vt - t', vt - t, c);
  }

  lemma WithFeesMono(amount: nat, amount': nat, bps: CurveBps)
    requires amount <= amount'
    ensures WithFees(amount, bps) <= WithFees(amount', bps)
    ensures amount < amount' ==> WithFees(amount, bps) < WithFees(amount', bps)
  {
    FeeMono(amount, amount', bps.protocol);
    FeeMono(amount, amount', bps.creator);
  }

  lemma WithFeesIsFeeTotal(amount: nat, bps: CurveBps)
    ensures WithFees(amount, bps) == amount + FeeTotal(amount, bps.AsRates())
  {
    FeeBounds(amount, 0);
  }

  /** The exact-in derivation at the two curve rates: at most one unit is shaved. */
  lemma CurveExactIn(quoteIn: u64, bps: CurveBps)
    ensures var n := FlooredNet(quoteIn, bps.AsRates());
            match ExactInFeeAmounts(quoteIn, bps.AsRates())
            case Ok(e) =>
              && n - 1 <= e.net <= n
              && e.fee0 == FeeAmount(n, bps.protocol)
              && e.fee1 == FeeAmount(n, bps.creator)
              && e.net + e.fee0 + e.fee1 <= quoteIn
              && quoteIn - (e.net + e.fee0 + e.fee1) <= CeilDiv(bps.protocol + bps.creator, BPS)
              && (e.net < n ==> e.net + e.fee0 + e.fee1 == quoteIn)
            case Err(error) => error == ZeroAmount && n <= 1
  {
    ExactInKernel(quoteIn, bps.AsRates());
    FeeBounds(FlooredNet(quoteIn, bps.AsRates()), 0);
  }

  /** A price within the net is covered, fees included, by what exact-in charges for the net. */
  lemma PriceWithinCharge(quoteIn: u64, bps: CurveBps, price: nat)
    requires ExactInFeeAmounts(quoteIn, bps.AsRates()).Ok?
    requires price <= ExactInFeeAmounts(quoteIn, bps.AsRates()).value.net
    ensures var e := ExactInFeeAmounts(quoteIn, bps.AsRates()).value;
            && WithFees(price, bps) <= e.net + e.fee0 + e.fee1 <= quoteIn
            && (price < e.net ==> WithFees(price, bps) < e.net + e.fee0 + e.fee1)
  {
    var n := FlooredNet(quoteIn, bps.AsRates());
    CurveExactIn(quoteIn, bps);
    FeeMono(price, n, bps.protocol);
    FeeMono(price, n, bps.creator);
  }

  /** A nonzero uncapped exact-in quote is the constant-product output of the net less one. */
  lemma ExactInUnfold(global: Global, cfg: FeeConfig, curve: BondingCurve, mintSupply: u64, quoteIn: u64)
    requires var r := BuyTokensExactIn(global, cfg, curve, mintSupply, quoteIn); r.Ok? && r.value > 0
    ensures curve.virtualTokenReserves > 0 && curve.virtualQuoteReserves > 0
    ensures CurveFeeBps(global, cfg, curve, mintSupply).Ok?
    ensures var rates := CurveFeeBps(global, cfg, curve, mintSupply).value.AsRates();
            && ExactInFeeAmounts(quoteIn, rates).Ok?
            && BuyTokensExactIn(global, cfg, curve, mintSupply, quoteIn).value
               == CpOut(ExactInFeeAmounts(quoteIn, rates).value.net - 1,
                        curve.virtualQuoteReserves, curve.virtualTokenReserves)
               < curve.virtualTokenReserves
  {
    var rates := CurveFeeBps(global, cfg, curve, mintSupply).value.AsRates();
    CpBelowReserve(ExactInFeeAmounts(quoteIn, rates).value.net - 1,
                   curve.virtualQuoteReserves, curve.virtualTokenReserves);
  }

  /**
   * An exact-in quote fails only on an emptied quote side or a schedule without tiers; a budget too
   * small for its own fees, or a curve without tokens, buys nothing.
   */
  lemma ExactInFailsOnlyUnpriced(global: Global, cfg: FeeConfig, curve: BondingCurve, mintSupply: u64, quoteIn: u64)
    ensures var r := BuyTokensExactIn(global, cfg, curve, mintSupply, quoteIn);
            && (r == Err(EmptyReserves) <==>
                quoteIn > 0 && curve.virtualTokenReserves > 0 && curve.virtualQuoteReserves == 0)
            && (r == Err(EmptyFeeTiers) <==>
                && quoteIn > 0 && curve.virtualTokenReserves > 0 && curve.virtualQuoteReserves > 0
                && CurveFeeBps(global, cfg, curve, mintSupply).Err?)
            && (r.Err? ==> r.error == EmptyReserves || r.error == EmptyFeeTiers)
            && (r.Ok? && curve.virtualTokenReserves > 0 && CurveFeeBps(global, cfg, curve, mintSupply).Ok? ==>
                  NetOrZero(quoteIn, CurveFeeBps(global, cfg, curve, mintSupply).value.AsRates()) == 0
                  ==> r.value == 0)
  {
    hide ExactInFeeAmounts, CpOut, Floor;
  }

  // ---- crossing the remaining supply ----

  /**
   * A buy that would take more than a nonzero remainder always has a priced remainder that
   * costs at least one unit less than its net, so its fee-inclusive curve cost is strictly
   * below the budget: the checked subtraction succeeds and leaves a positive budget.
   */
  lemma CrossingNeverFails(global: Global, cfg: FeeConfig, curve: BondingCurve, mintSupply: u64, quoteIn: u64)
    requires var r := BuyTokensExactIn(global, cfg, curve, mintSupply, quoteIn);
             r.Ok? && r.value > curve.realTokenReserves > 0
    ensures curve.virtualTokenReserves > 0
    ensures CurveFeeBps(global, cfg, curve, mintSupply).Ok?
    ensures BuyQuote(curve, curve.realTokenReserves).Ok?
    ensures var bps, net := CurveFeeBps(global, cfg, curve, mintSupply).value,
                            BuyQuote(curve, curve.realTokenReserves).value;
            && ExactInFeeAmounts(quoteIn, bps.AsRates()).Ok?
            && net <= ExactInFeeAmounts(quoteIn, bps.AsRates()).value.net - 1
            && WithFees(net, bps) < quoteIn
  {
    ExactInUnfold(global, cfg, curve, mintSupply, quoteIn);
    var bps := CurveFeeBps(global, cfg, curve, mintSupply).value;
    var e := ExactInFeeAmounts(quoteIn, bps.AsRates()).value;
    CostOfBought(curve, e.net - 1, curve.realTokenReserves);
    PriceWithinCharge(quoteIn, bps, TokenCost(curve, curve.realTokenReserves));
  }

  /** The whole-budget net of a hop: at least the shaved net, at most the floored net plus the remainder. */
  lemma WholeBudgetNet(amountIn: u64, bps: CurveBps)
    requires ExactInFeeAmounts(amountIn, bps.AsRates()).Ok?
    ensures var n := FlooredNet(amountIn, bps.AsRates());
            var e := ExactInFeeAmounts(amountIn, bps.AsRates()).value;
            var whole := amountIn - (e.fee0 + e.fee1);
            e.net <= whole <= n + CeilDiv(bps.protocol + bps.creator, BPS)
  {
    CurveExactIn(amountIn, bps);
  }

  /** With rates totalling at most 100% a crossing hop never falls back to the bare remainder. */
  lemma HopFallbackIsDead(curve: BondingCurve, amountIn: u64, bps: CurveBps)
    requires bps.protocol + bps.creator <= BPS
    requires ExactInFeeAmounts(amountIn, bps.AsRates()).Ok?
    requires var e := ExactInFeeAmounts(amountIn, bps.AsRates()).value;
             var out := SwapU64(amountIn - (e.fee0 + e.fee1) - 1,
                                curve.virtualQuoteReserves, curve.virtualTokenReserves);
             out.Ok? && out.value > curve.realTokenReserves > 0
    ensures BuyQuote(curve, curve.realTokenReserves).Ok?
    ensures WithFees(BuyQuote(curve, curve.realTokenReserves).value, bps) < amountIn
  {
    var n := FlooredNet(amountIn, bps.AsRates());
    var e := ExactInFeeAmounts(amountIn, bps.AsRates()).value;
    var whole := amountIn - (e.fee0 + e.fee1);
    var price := TokenCost(curve, curve.realTokenReserves);
    WholeBudgetNet(amountIn, bps);
    CurveExactIn(amountIn, bps);
    CeilGalois(bps.protocol + bps.creator, BPS, 1);
    CostOfBought(curve, whole - 1, curve.realTokenReserves);
    assert price <= n;
    FeeMono(price, n, bps.protocol);
    FeeMono(price, n, bps.creator);
  }

  /** One basis point above 100% the fallback is reached: an input of 20_003 buys the bare remainder. */
  lemma HopFallbackExample(global: Global, curve: BondingCurve, user: Pubkey, baseAtaAmount: u64)
    requires user != global.whitelistPda
    requires curve.virtualQuoteReserves == 1 && curve.virtualTokenReserves == 100_030_002
    requires curve.realTokenReserves == 100_020_000
    ensures CurveHopBuy(global, curve, baseAtaAmount, user, 20_003, CurveBps(10_001, 0)) == Ok(100_020_000)
    ensures WithFees(TokenCost(curve, 100_020_000), CurveBps(10_001, 0)) > 20_003
  {
    FallbackNumbers(curve);
    hide CpOut, TokenCost, FlooredNet, WithFees;
  }

  lemma FallbackNumbers(curve: BondingCurve)
    requires curve.virtualQuoteReserves == 1 && curve.virtualTokenReserves == 100_030_002
    ensures ExactInFeeAmounts(20_003, CurveBps(10_001, 0).AsRates()) == Ok(ExactIn(10_000, 10_001, 0, 0))
    ensures CpOut(10_001, 1, 100_030_002) == 100_020_001
    ensures TokenCost(curve, 100_020_000) == 10_001
    ensures WithFees(10_001, CurveBps(10_001, 0)) == 20_004
  {
    assert FlooredNet(20_003, CurveBps(10_001, 0).AsRates()) == 10_000;
  }

  // ---- the post-completion leg ----

  /**
   * On positive pool reserves the leg never fails, never drains the pool and never charges more
   * than its budget; the whole-budget form charges exactly the budget and buys at least as much.
   */
  lemma LegIsTotalAndConservative(pool: PoolReserves, bps: CurveBps, budget: u64)
    requires pool.base > 0 && pool.quote > 0
    ensures PostCompleteLegExactQuote(pool, bps, budget, false).Ok?
    ensures PostCompleteLegExactQuote(pool, bps, budget, true).Ok?
    ensures forall whole :: LegOut(pool, bps, budget, whole) < pool.base
    ensures match PostCompleteLegExactQuote(pool, bps, budget, true).value
            case Some(leg) => leg.charged == budget
            case None => true
    ensures LegOut(pool, bps, budget, false) <= LegOut(pool, bps, budget, true)
  {
    CurveExactIn(budget, bps);
    if FlooredNet(budget, bps.AsRates()) >= 2 {
      var e := ExactInFeeAmounts(budget, bps.AsRates()).value;
      var whole := budget - (e.fee0 + e.fee1);
      CpBelowReserve(e.net - 1, pool.quote, pool.base);
      CpBelowReserve(whole - 1, pool.quote, pool.base);
      CpMono(e.net - 1, whole - 1, pool.quote, pool.base);
    }
  }

  /** Tokens a leg delivers, a refused or empty leg counting as nothing. */
  function LegOut(pool: PoolReserves, bps: CurveBps, budget: u64, wholeBudget: bool): nat {
    match PostCompleteLegExactQuote(pool, bps, budget, wholeBudget)
    case Ok(Some(leg)) => leg.baseOut
    case _ => 0
  }

  /** The shaved leg is the constant-product output of its net less one. */
  lemma LegUnfold(pool: PoolReserves, bps: CurveBps, budget: u64)
    requires pool.base > 0 && pool.quote > 0
    ensures var rates := bps.AsRates();
            if FlooredNet(budget, rates) < 2 then LegOut(pool, bps, budget, false) == 0
            else
              && ExactInFeeAmounts(budget, rates).Ok?
              && NetOrZero(budget, rates) == ExactInFeeAmounts(budget, rates).value.net
              && LegOut(pool, bps, budget, false) == CpOut(NetOrZero(budget, rates) - 1, pool.quote, pool.base)
  {
    CurveExactIn(budget, bps);
  }

  lemma LegMonotone(pool: PoolReserves, bps: CurveBps, budget: u64, budget': u64)
    requires pool.base > 0 && pool.quote > 0 && budget <= budget'
    ensures LegOut(pool, bps, budget, false) <= LegOut(pool, bps, budget', false)
  {
    hide CpOut, FlooredNet, ExactInFeeAmounts, NetOrZero, PostCompleteLegExactQuote;
    var rates := bps.AsRates();
    var n, n' := FlooredNet(budget, rates), FlooredNet(budget', rates);
    assert n <= n' by { FlooredNetMono(budget, budget', rates); }
    var m, m' := NetOrZero(budget, rates), NetOrZero(budget', rates);
    assert m <= m' by { NetMonotoneUpToOne(budget, budget', rates); }
    LegUnfold(pool, bps, budget);
    if n >= 2 {
      LegUnfold(pool, bps, budget');
      CpMono(m - 1, m' - 1, pool.quote, pool.base);
    }
  }

  /** The leg's tokens are priced, by ceiling division and fees, strictly below what the leg charged. */
  lemma LegPriceWithinCharge(pool: PoolReserves, bps: CurveBps, budget: u64)
    requires pool.base > 0 && pool.quote > 0
    requires LegOut(pool, bps, budget, false) > 0
    ensures var leg := PostCompleteLegExactQuote(pool, bps, budget, false).value.value;
            && leg.baseOut < pool.base
            && WithFees(PastPrice(pool, leg.baseOut), bps) < leg.charged
  {
    var leg := PostCompleteLegExactQuote(pool, bps, budget, false).value.value;
    var e := ExactInFeeAmounts(budget, bps.AsRates()).value;
    LegUnfold(pool, bps, budget);
    assert leg.charged == e.net + e.fee0 + e.fee1;
    OutPriceAtMost(e.net - 1, pool.quote, pool.base);
    PriceWithinCharge(budget, bps, PastPrice(pool, leg.baseOut));
  }

  /** Conversely a budget covering that price plus one and the possible shave, fees included, buys the tokens. */
  lemma LegReachesPrice(pool: PoolReserves, bps: CurveBps, past: nat, budget: u64)
    requires pool.quote > 0 && 0 < past < pool.base
    requires budget >= WithFees(PastPrice(pool, past) + 1 + MaxShave(bps.AsRates()), bps)
    ensures LegOut(pool, bps, budget, false) >= past
  {
    hide CpOut, FeeAmount;
    var target := PastPrice(pool, past) + 1 + MaxShave(bps.AsRates());
    PastPricePositive(pool, past);
    assert FlooredNet(budget, bps.AsRates()) >= 2 && NetOrZero(budget, bps.AsRates()) > PastPrice(pool, past) by {
      WithFeesIsFeeTotal(target, bps);
      FlooredNetCovers(budget, target, bps.AsRates());
      PriceNetsTarget(budget, target, bps.AsRates());
    }
    LegUnfold(pool, bps, budget);
    CpLeastInput(NetOrZero(budget, bps.AsRates()) - 1, pool.quote, pool.base, past);
  }

  lemma PastPricePositive(pool: PoolReserves, past: nat)
    requires 0 < past < pool.base && pool.quote > 0
    ensures PastPrice(pool, past) >= 1
  {
    CeilGalois(pool.quote * past, pool.base - past, 0);
    MulLe(1, past, pool.quote);
  }

  lemma OutPriceAtMost(m: nat, inReserve: nat, outReserve: nat)
    requires inReserve > 0 && outReserve > 0
    ensures var out := CpOut(m, inReserve, outReserve);
            out < outReserve && CeilDiv(inReserve * out, outReserve - out) <= m
  {
    CpBelowReserve(m, inReserve, outReserve);
    CpLeastInput(m, inReserve, outReserve, CpOut(m, inReserve, outReserve));
  }

  // ---- selling ----

  /**
   * The inverse of the sell quote rounds down: selling the tokens it names pays the amount exactly
   * when its division is exact, and otherwise less, where one more token pays at least the amount.
   */
  lemma InverseSellIffExact(virtualQuote: u64, virtualToken: u64, amount: u64)
    requires virtualToken > 0 && amount < virtualQuote
    ensures SellTokenQuoteWithSol(virtualQuote, virtualToken, amount).Ok?
    ensures var tokens := SellTokenQuoteWithSol(virtualQuote, virtualToken, amount).value;
            && CpOut(tokens, virtualToken, virtualQuote) <= amount <= CpOut(tokens + 1, virtualToken, virtualQuote)
            && (CpOut(tokens, virtualToken, virtualQuote) == amount <==>
                amount * virtualToken % (virtualQuote - amount) == 0)
  {
    hide CpOut, Floor;
    var tokens, per := SellTokenQuoteWithSol(virtualQuote, virtualToken, amount).value, virtualQuote - amount;
    FloorBracket(amount * virtualToken, per);
    CpGalois(tokens, virtualToken, virtualQuote, amount);
    CpGalois(tokens, virtualToken, virtualQuote, amount + 1);
    CpGalois(tokens + 1, virtualToken, virtualQuote, amount);
    assert (tokens + 1) * per == tokens * per + per;
    assert tokens * (per - 1) == tokens * per - tokens;
    assert (amount + 1) * virtualToken == amount * virtualToken + virtualToken;
  }

  /** For 1 of 2 against 3 tokens it names the 3 that pay 1; for 2 of 5 against 4 it names 2, which pay only 1. */
  lemma InverseSellExample()
    ensures SellTokenQuoteWithSol(2, 3, 1) == Ok(3) && SellQuote(2, 3, 3) == Ok(1)
    ensures SellTokenQuoteWithSol(5, 4, 2) == Ok(2) && SellQuote(5, 4, 2) == Ok(1)
  {}

  /**
   * A sale is priced at the most the constant product allows: a payout keeps the product of the
   * reserves exactly when it is within the gross quote.
   */
  lemma SellPaysTheMost(curve: BondingCurve, amount: u64, payout: nat)
    requires curve.virtualTokenReserves > 0 && payout <= curve.virtualQuoteReserves
    ensures var gross := SellQuote(curve.virtualQuoteReserves, curve.virtualTokenReserves, amount);
            && gross.Ok?
            && (payout <= gross.value <==>
                (curve.virtualQuoteReserves - payout) * (curve.virtualTokenReserves + amount)
                >= curve.virtualQuoteReserves * curve.virtualTokenReserves)
  {
    hide CpOut;
    CpGalois(amount, curve.virtualTokenReserves, curve.virtualQuoteReserves, payout);
    SellProduct(curve.virtualQuoteReserves, curve.virtualTokenReserves, amount, payout);
  }

  lemma SellProduct(vq: int, vt: int, amount: int, payout: int)
    ensures (vq - payout) * (vt + amount) >= vq * vt <==> payout * vt <= amount * (vq - payout)
  {
    assert (vq - payout) * (vt + amount) == vq * vt - payout * vt + amount * (vq - payout);
  }

  /** What the seller receives and the two ceiled fees add up to the gross; otherwise the fees exceed it. */
  lemma CurveSellSplits(global: Global, cfg: FeeConfig, curve: BondingCurve, mintSupply: u64, tokenAmount: u64)
    requires tokenAmount > 0 && curve.virtualTokenReserves > 0
    requires CurveFeeBps(global, cfg, curve, mintSupply).Ok?
    ensures var gross := SellQuote(curve.virtualQuoteReserves, curve.virtualTokenReserves, tokenAmount);
            var bps := CurveFeeBps(global, cfg, curve, mintSupply).value;
            && gross.Ok?
            && match SellSolAmountFromTokenAmount(global, cfg, curve, mintSupply, tokenAmount)
               case Ok(out) =>
                 out + FeeAmount(gross.value, bps.protocol) + FeeAmount(gross.value, bps.creator) == gross.value
               case Err(error) =>
                 && error == FeesExceedOutput
                 && gross.value < FeeAmount(gross.value, bps.protocol) + FeeAmount(gross.value, bps.creator)
  {
    hide CpOut;
    FeesOfU64Fit(SellQuote(curve.virtualQuoteReserves, curve.virtualTokenReserves, tokenAmount).value,
                 CurveFeeBps(global, cfg, curve, mintSupply).value);
  }

  /** Selling nothing, or on a curve without tokens, pays nothing; a priced sale fails on its tiers or its fees. */
  lemma SellRefusals(global: Global, cfg: FeeConfig, curve: BondingCurve, mintSupply: u64, tokenAmount: u64)
    ensures var r := SellSolAmountFromTokenAmount(global, cfg, curve, mintSupply, tokenAmount);
            if tokenAmount == 0 || curve.virtualTokenReserves == 0 then r == Ok(0)
            else
              && (r == Err(EmptyFeeTiers) <==> CurveFeeBps(global, cfg, curve, mintSupply).Err?)
              && (r.Err? ==> r.error == EmptyFeeTiers || r.error == FeesExceedOutput)
  {
    hide CpOut, FeeAmountWide, Floor, CalculateFeeTier;
  }

  /**
   * A v2 token-out buy of a priced amount always answers; it fails on asking for a curve's whole
   * token side, of which the remaining supply is the most it asks for, or on a schedule without tiers.
   */
  lemma TokenOutRefusals(global: Global, cfg: FeeConfig, curve: BondingCurve, mintSupply: u64, tokenAmount: u64)
    ensures var r := BuySolAmountFromTokenAmount(global, cfg, curve, mintSupply, tokenAmount);
            var drains := Min(tokenAmount, curve.realTokenReserves) >= curve.virtualTokenReserves;
            if tokenAmount == 0 || curve.virtualTokenReserves == 0 then r == Ok(0)
            else
              && (r == Err(DepletedBondingCurve) <==> drains)
              && (r == Err(EmptyFeeTiers) <==> !drains && CurveFeeBps(global, cfg, curve, mintSupply).Err?)
              && (r.Err? ==> r.error == DepletedBondingCurve || r.error == EmptyFeeTiers)
  {
    hide TokenCost, FeeAmountWide, Floor, CalculateFeeTier;
  }

  /** Adding both fees to a 64-bit amount, or to each other, never overflows 128 bits. */
  lemma FeesOfU64Fit(amount: u64, bps: CurveBps)
    ensures WithFees(amount, bps) <= U128_MAX
  {
    ProductFits(amount, bps.protocol);
    ProductFits(amount, bps.creator);
    FeeBounds(amount, bps.protocol);
    FeeBounds(amount, bps.creator);
  }

  /**
   * Exactly when a sale's fees stay within its proceeds: the share the rates leave must cover what
   * rounding the two fees up adds.
   */
  lemma SellFeesWithinOutput(gross: nat, bps: CurveBps)
    ensures FeeAmount(gross, bps.protocol) + FeeAmount(gross, bps.creator) <= gross <==>
            RoundUp(gross, bps.protocol) + RoundUp(gross, bps.creator)
            <= gross * (BPS - bps.protocol - bps.creator)
  {
    FeesWithinIff(gross, bps.AsRates());
    FeeBounds(gross, 0);
    FeeRoundUp(gross, 0);
  }

  /** The curve sale fails with its fee error exactly outside that condition. */
  lemma SellFeeErrorIff(global: Global, cfg: FeeConfig, curve: BondingCurve, mintSupply: u64, tokenAmount: u64)
    requires tokenAmount > 0 && curve.virtualTokenReserves > 0
    requires CurveFeeBps(global, cfg, curve, mintSupply).Ok?
    ensures SellQuote(curve.virtualQuoteReserves, curve.virtualTokenReserves, tokenAmount).Ok?
    ensures var gross := SellQuote(curve.virtualQuoteReserves, curve.virtualTokenReserves, tokenAmount).value;
            var bps := CurveFeeBps(global, cfg, curve, mintSupply).value;
            SellSolAmountFromTokenAmount(global, cfg, curve, mintSupply, tokenAmount) == Err(FeesExceedOutput) <==>
            gross * (BPS - bps.protocol - bps.creator)
            < RoundUp(gross, bps.protocol) + RoundUp(gross, bps.creator)
  {
    hide CpOut, FeeAmount, RoundUp;
    CurveSellSplits(global, cfg, curve, mintSupply, tokenAmount);
    SellFeesWithinOutput(SellQuote(curve.virtualQuoteReserves, curve.virtualTokenReserves, tokenAmount).value,
                         CurveFeeBps(global, cfg, curve, mintSupply).value);
  }

  /** In particular no sale fails once the share left after all rates is worth a unit. */
  lemma SellFeesWithinSize(gross: nat, bps: CurveBps)
    requires gross * (BPS - bps.protocol - bps.creator) >= 9_999
    ensures FeeAmount(gross, bps.protocol) + FeeAmount(gross, bps.creator) <= gross
  {
    hide FeeAmount;
    FeeBounds(gross, bps.protocol);
    FeeBounds(gross, bps.creator);
    SizeCovers(gross, bps.protocol, bps.creator, FeeAmount(gross, bps.protocol), FeeAmount(gross, bps.creator));
  }

  lemma SizeCovers(gross: nat, protocol: nat, creator: nat, fee0: nat, fee1: nat)
    requires gross * (BPS - protocol - creator) >= 9_999
    requires BPS * fee0 <= gross * protocol + 9_999 && BPS * fee1 <= gross * creator + 9_999
    ensures fee0 + fee1 <= gross
  {
    assert gross * (BPS - protocol - creator) == gross * BPS - gross * protocol - gross * creator;
  }

  /** Rates far below 100% do exceed the proceeds of a dust sale: two ceiled fees on a gross of 1. */
  lemma SellFeesExceedExample(global: Global, cfg: FeeConfig, curve: BondingCurve, mintSupply: u64)
    requires curve.virtualQuoteReserves == 2 && curve.virtualTokenReserves == 100
    requires CurveFeeBps(global, cfg, curve, mintSupply) == Ok(CurveBps(1, 1))
    ensures SellQuote(2, 100, 100) == Ok(1)
    ensures SellSolAmountFromTokenAmount(global, cfg, curve, mintSupply, 100) == Err(FeesExceedOutput)
  {
    assert CpOut(100, 100, 2) == 1;
  }

  // ---- small fee-free numbers for the examples ----

  lemma NoFeesExactIn(amountIn: u64)
    requires 0 < amountIn
    ensures FlooredNet(amountIn, Rates(0, 0, 0)) == amountIn
    ensures ExactInFeeAmounts(amountIn, Rates(0, 0, 0)) == Ok(ExactIn(amountIn, 0, 0, 0))
  {
    assert FlooredNet(amountIn, Rates(0, 0, 0)) == amountIn;
  }

  /** 98 units buy 979 of a thousand tokens out of a pool holding 2. */
  lemma CheapLegExample(budget: u64, wholeBudget: bool)
    requires budget == 98
    ensures PostCompleteLegExactQuote(PoolReserves(1_000, 2), CurveBps(0, 0), budget, wholeBudget)
            == Ok(Some(Leg(979, 98)))
  {
    hide CpOut, FlooredNet, ExactInFeeAmounts;
    NoFeesExactIn(98);
    CheapOut();
  }

  lemma CheapOut()
    ensures CpOut(97, 2, 1_000) == 979
  {}
}
