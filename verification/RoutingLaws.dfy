/** Laws of multi-hop routes: direction, fee placement, round trips and discovery. */
module RoutingLaws {
  import opened Arithmetic
  import opened State
  import opened Utils
  import opened Fee
  import opened Curve
  import opened CurveLaws
  import opened V3Laws
  import opened Amm
  import opened AmmLaws
  import opened Sdk
  import opened SdkLaws
  import opened Routing

  // ---- which mint sequences are routes ----

  /** Mint that hop `i` is fed: the input mint, or what the previous hop of the same direction put out. */
  function Fed(inMint: Pubkey, hops: seq<MintPair>, isBuy: bool, i: nat): Pubkey
    requires i <= |hops|
  {
    if i == 0 then inMint else if isBuy then hops[i - 1].baseMint else hops[i - 1].quoteMint
  }

  /** Hop `i` is fed its quote. */
  predicate BuyStep(inMint: Pubkey, hops: seq<MintPair>, i: nat)
    requires i < |hops|
  {
    hops[i].quoteMint == Fed(inMint, hops, true, i)
  }

  /** Hop `i` is fed its base, which is not also its quote. */
  predicate SellStep(inMint: Pubkey, hops: seq<MintPair>, i: nat)
    requires i < |hops|
  {
    hops[i].baseMint == Fed(inMint, hops, false, i) && hops[i].baseMint != hops[i].quoteMint
  }

  predicate BuyLinked(inMint: Pubkey, hops: seq<MintPair>, k: nat)
    requires k <= |hops|
  {
    forall i :: 0 <= i < k ==> BuyStep(inMint, hops, i)
  }

  predicate SellLinked(inMint: Pubkey, hops: seq<MintPair>, k: nat)
    requires k <= |hops|
  {
    forall i :: 0 <= i < k ==> SellStep(inMint, hops, i)
  }

  lemma {:induction false} RouteAfterState(inMint: Pubkey, hops: seq<MintPair>, k: nat)
    requires 1 <= k <= |hops| && RouteAfter(inMint, hops, k).Ok?
    ensures RouteAfter(inMint, hops, k).value.direction.Some?
    ensures var state := RouteAfter(inMint, hops, k).value;
            state.mint == Fed(inMint, hops, state.direction.value, k)
  {}

  lemma {:induction false} RouteAfterBuys(inMint: Pubkey, hops: seq<MintPair>, k: nat)
    requires 1 <= k <= |hops|
    ensures RouteAfter(inMint, hops, k).Ok? && RouteAfter(inMint, hops, k).value.direction == Some(true)
            <==> BuyLinked(inMint, hops, k)
  {
    if k == 1 {
      assert RouteAfter(inMint, hops, 0) == Ok(RouteState(inMint, None));
      assert BuyLinked(inMint, hops, 1) <==> BuyStep(inMint, hops, 0);
    } else {
      RouteAfterBuys(inMint, hops, k - 1);
      assert BuyLinked(inMint, hops, k) <==>
             BuyLinked(inMint, hops, k - 1) && BuyStep(inMint, hops, k - 1);
      if RouteAfter(inMint, hops, k - 1).Ok? {
        RouteAfterState(inMint, hops, k - 1);
      }
    }
  }

  lemma {:induction false} RouteAfterSells(inMint: Pubkey, hops: seq<MintPair>, k: nat)
    requires 1 <= k <= |hops|
    ensures RouteAfter(inMint, hops, k).Ok? && RouteAfter(inMint, hops, k).value.direction == Some(false)
            <==> SellLinked(inMint, hops, k)
  {
    if k == 1 {
      assert RouteAfter(inMint, hops, 0) == Ok(RouteState(inMint, None));
      assert SellLinked(inMint, hops, 1) <==> SellStep(inMint, hops, 0);
    } else {
      RouteAfterSells(inMint, hops, k - 1);
      assert SellLinked(inMint, hops, k) <==>
             SellLinked(inMint, hops, k - 1) && SellStep(inMint, hops, k - 1);
      if RouteAfter(inMint, hops, k - 1).Ok? {
        RouteAfterState(inMint, hops, k - 1);
      }
    }
  }

  /** A route is accepted as a buy, or as a sell, exactly when its mints link up that way. */
  lemma RouteIffLinked(inMint: Pubkey, hops: seq<MintPair>)
    ensures forall out :: MultiHopRoute(inMint, hops) == Ok(RouteEnds(true, out)) <==>
              |hops| > 0 && BuyLinked(inMint, hops, |hops|) && out == hops[|hops| - 1].baseMint
    ensures forall out :: MultiHopRoute(inMint, hops) == Ok(RouteEnds(false, out)) <==>
              |hops| > 0 && SellLinked(inMint, hops, |hops|) && out == hops[|hops| - 1].quoteMint
  {
    if |hops| > 0 {
      RouteAfterBuys(inMint, hops, |hops|);
      RouteAfterSells(inMint, hops, |hops|);
      if RouteAfter(inMint, hops, |hops|).Ok? {
        RouteAfterState(inMint, hops, |hops|);
      }
    }
  }

  predicate DistinctMints(hops: seq<MintPair>) {
    forall i :: 0 <= i < |hops| ==> hops[i].baseMint != hops[i].quoteMint
  }

  /**
   * Reversing a buy route gives a sell route back to the input mint exactly when every hop
   * has a base distinct from its quote.
   */
  lemma ReversedBuySellsBack(inMint: Pubkey, hops: seq<MintPair>, outMint: Pubkey)
    requires MultiHopRoute(inMint, hops) == Ok(RouteEnds(true, outMint))
    ensures MultiHopRoute(outMint, Reverse(hops)) == Ok(RouteEnds(false, inMint)) <==> DistinctMints(hops)
  {
    var back, n := Reverse(hops), |hops|;
    RouteIffLinked(inMint, hops);
    RouteIffLinked(outMint, back);
    if DistinctMints(hops) {
      forall i | 0 <= i < n
        ensures SellStep(outMint, back, i)
      {
        if i > 0 {
          assert BuyStep(inMint, hops, n - i);
        }
      }
      assert BuyStep(inMint, hops, 0);
    }
    if SellLinked(outMint, back, n) {
      forall i | 0 <= i < n
        ensures hops[i].baseMint != hops[i].quoteMint
      {
        assert SellStep(outMint, back, n - 1 - i);
      }
    }
  }

  /** Reversing a sell route always gives a buy route back to the input mint. */
  lemma ReversedSellBuysBack(inMint: Pubkey, hops: seq<MintPair>, outMint: Pubkey)
    requires MultiHopRoute(inMint, hops) == Ok(RouteEnds(false, outMint))
    ensures MultiHopRoute(outMint, Reverse(hops)) == Ok(RouteEnds(true, inMint))
  {
    var back, n := Reverse(hops), |hops|;
    RouteIffLinked(inMint, hops);
    RouteIffLinked(outMint, back);
    forall i | 0 <= i < n
      ensures BuyStep(outMint, back, i)
    {
      if i > 0 {
        assert SellStep(inMint, hops, n - i);
      }
    }
    assert SellStep(inMint, hops, 0);
  }

  // ---- fee placement ----

  /**
   * Over a route of any length exactly one hop charges the protocol fee and exactly one the
   * creator and LP fees, and buy hop `i` charges what sell hop `hops - 1 - i` charges.
   */
  lemma FeesPlacedOnce(isBuy: bool, hops: nat)
    requires hops >= 1
    ensures (set i | 0 <= i < hops && ForHop(isBuy, i, hops).protocol) == {if isBuy then 0 else hops - 1}
    ensures (set i | 0 <= i < hops && ForHop(isBuy, i, hops).creator) == {if isBuy then hops - 1 else 0}
    ensures (set i | 0 <= i < hops && ForHop(isBuy, i, hops).lp) == {if isBuy then hops - 1 else 0}
    ensures forall i :: 0 <= i < hops ==> ForHop(isBuy, i, hops) == ForHop(!isBuy, hops - 1 - i, hops)
  {}

  /** The flag byte a curve hop receives charges exactly the components placed on that hop. */
  lemma FlagsCarryHopFees(legs: HopFees, bps: CurveBps)
    ensures HasFlag(legs.CurveFlags(), HOP_FEE_PROTOCOL) == legs.protocol
    ensures HasFlag(legs.CurveFlags(), HOP_FEE_CREATOR) == legs.creator
    ensures HopBps(bps, legs.CurveFlags())
            == CurveBps(if legs.protocol then bps.protocol else 0, if legs.creator then bps.creator else 0)
  {}

  /** A one-hop sell route through an eligible pool quotes exactly the direct sale. */
  lemma OneHopRouteIsDirectSell(
    markets: Markets, pool: Pool, baseReserve: u64, quoteVault: u64, supply: u64, baseIn: u64, out: u64,
    slippageBps: nat)
    requires slippageBps <= 0xFFFF && Eligible(pool, ALL_LEGS) && pool.baseMint != pool.quoteMint && baseIn > 0
    ensures var route := [PoolHop(pool, baseReserve, quoteVault, supply)];
            var quote := QuoteMultiHopSwap(markets, pool.baseMint, route, baseIn, slippageBps);
            var ctx := ContextFor(markets.globalConfig, markets.ammFeeConfig,
                                  LivePool(pool, baseReserve, quoteVault, supply));
            quote.Ok? && quote.value.amount == out
            <==>
            && out > 0 && ctx.Ok?
            && SellBaseInput(ctx.value, baseIn).Ok?
            && SellBaseInput(ctx.value, baseIn).value.finalQuoteOut == out
  {
    hide MultiHopPoolHop, ContextFor, SellBaseInput;
    var hop := PoolHop(pool, baseReserve, quoteVault, supply);
    var pair := MintPair(pool.baseMint, pool.quoteMint);
    assert Keys([hop]) == [pair];
    assert RouteAfter(pool.baseMint, [pair], 0) == Ok(RouteState(pool.baseMint, None));
    assert MultiHopRoute(pool.baseMint, Keys([hop])) == Ok(RouteEnds(false, pool.quoteMint));
    assert AmountAfter(markets, [hop], false, baseIn, 0) == Ok(baseIn);
    assert AmountAfter(markets, [hop], false, baseIn, 1) == HopQuote(markets, hop, false, baseIn, ALL_LEGS);
    OneHopSellIsDirectSell(markets.globalConfig, markets.ammFeeConfig, pool, baseReserve, quoteVault, supply,
                           baseIn, out);
  }

  // ---- fold invariants ----

  lemma HopDeliversSomething(markets: Markets, hop: RouteHop, isBuy: bool, amount: u64, legs: HopFees)
    requires hop.CurveHop? ==> Priceable(hop.curve)
    requires HopQuote(markets, hop, isBuy, amount, legs).Ok?
    ensures HopQuote(markets, hop, isBuy, amount, legs).value >= 1
  {}

  lemma {:induction false} AmountsSoFar(
    markets: Markets, hops: seq<RouteHop>, isBuy: bool, amountIn: u64, k: nat, n: nat)
    requires PriceableRoute(hops) && k <= n <= |hops| && amountIn >= 1
    requires AmountAfter(markets, hops, isBuy, amountIn, n).Ok?
    ensures AmountAfter(markets, hops, isBuy, amountIn, k).Ok?
    ensures AmountAfter(markets, hops, isBuy, amountIn, k).value >= 1
  {
    hide HopQuote;
    if AmountAfter(markets, hops, isBuy, amountIn, k).Err? {
      AmountFailureSticks(markets, hops, isBuy, amountIn, k, n);
    }
    if k > 0 {
      HopDeliversSomething(markets, hops[k - 1], isBuy,
                           AmountAfter(markets, hops, isBuy, amountIn, k - 1).value, ForHop(isBuy, k - 1, |hops|));
    }
  }

  /** A successful route quote moves at least one unit through every hop and promises between 1 and its amount. */
  lemma RouteQuoteInvariants(markets: Markets, inMint: Pubkey, hops: seq<RouteHop>, amountIn: u64, slippageBps: nat)
    requires PriceableRoute(hops) && slippageBps <= 0xFFFF
    requires QuoteMultiHopSwap(markets, inMint, hops, amountIn, slippageBps).Ok?
    ensures var quote := QuoteMultiHopSwap(markets, inMint, hops, amountIn, slippageBps).value;
            && 1 <= quote.minOut <= quote.amount
            && quote.inputAmountUsed == quote.maxInput == amountIn >= 1
    ensures MultiHopRoute(inMint, Keys(hops)).Ok?
    ensures forall k :: 0 <= k <= |hops| ==>
              var amount := AmountAfter(markets, hops, MultiHopRoute(inMint, Keys(hops)).value.isBuy, amountIn, k);
              amount.Ok? && amount.value >= 1
  {
    hide HopQuote;
    var isBuy := MultiHopRoute(inMint, Keys(hops)).value.isBuy;
    forall k | 0 <= k <= |hops|
      ensures AmountAfter(markets, hops, isBuy, amountIn, k).Ok?
      ensures AmountAfter(markets, hops, isBuy, amountIn, k).value >= 1
    {
      AmountsSoFar(markets, hops, isBuy, amountIn, k, |hops|);
    }
  }

  /** Above the least promise of one unit, a route promises its amount less the tolerance, rounded down. */
  lemma RouteMinOutIsFloor(markets: Markets, inMint: Pubkey, hops: seq<RouteHop>, amountIn: u64, slippageBps: nat)
    requires PriceableRoute(hops) && slippageBps <= 10_000
    requires QuoteMultiHopSwap(markets, inMint, hops, amountIn, slippageBps).Ok?
    ensures var quote := QuoteMultiHopSwap(markets, inMint, hops, amountIn, slippageBps).value;
            && quote.amount * (10_000 - slippageBps) < (quote.minOut + 1) * 10_000
            && (quote.minOut > 1 ==> quote.minOut * 10_000 <= quote.amount * (10_000 - slippageBps))
  {
    hide SubSlippage, AmountAfter, MultiHopRoute;
    MinOutIsFloor(QuoteMultiHopSwap(markets, inMint, hops, amountIn, slippageBps).value.amount, slippageBps);
  }

  /** A venue the programs let a hop with these fee components trade on. */
  predicate Supported(markets: Markets, hop: RouteHop, isBuy: bool, legs: HopFees) {
    match hop
    case PoolHop(pool, _, _, _) =>
      && TradingEnabled(markets.globalConfig, isBuy)
      && IsPumpPool(pool.baseMint, pool.creator) && !pool.isMayhemMode
      && !(pool.isCashbackCoin && legs.creator)
    case CurveHop(_, curve, _, _) =>
      !curve.complete && !curve.isMayhemMode && !(curve.isCashbackCoin && legs.creator)
  }

  /** An agent barred from the pool-to-be never gets more than a curve's remainder out of a hop. */
  predicate AgentStaysOnCurve(markets: Markets, hop: RouteHop, isBuy: bool, out: u64) {
    isBuy && markets.user == markets.global.whitelistPda ==> WithinRemainder(hop, out)
  }

  lemma HopNeedsSupportedVenue(markets: Markets, hop: RouteHop, isBuy: bool, amount: u64, legs: HopFees)
    requires hop.CurveHop? ==> Priceable(hop.curve)
    requires HopQuote(markets, hop, isBuy, amount, legs).Ok?
    ensures Supported(markets, hop, isBuy, legs)
    ensures AgentStaysOnCurve(markets, hop, isBuy, HopQuote(markets, hop, isBuy, amount, legs).value)
  {
    hide CpOut, FlooredNet, ExactInFeeAmounts, TokenCost, WithFees, PostCompleteLegExactQuote;
    FlagsCarryHopFees(legs, CurveBps(0, 0));
  }

  /** An unsupported venue is refused as that, whatever its reserves: a disabled pool direction apart. */
  lemma UnsupportedVenueIsRefused(markets: Markets, hop: RouteHop, isBuy: bool, amount: u64, legs: HopFees)
    requires hop.CurveHop? ==> Priceable(hop.curve)
    requires !Supported(markets, hop, isBuy, legs)
    ensures var disabled := hop.PoolHop? && !TradingEnabled(markets.globalConfig, isBuy);
            HopQuote(markets, hop, isBuy, amount, legs)
            == Err(if disabled then TradingDisabled else VenueNotSupported)
  {
    hide CurveHopBuy, CurveHopSell, CurveFeeBps, ComputeAmmFeeBps, PoolHopBuy, PoolHopSell;
    FlagsCarryHopFees(legs, CurveBps(0, 0));
  }

  /**
   * Every venue of a quoted route is supported with the fees placed on it: no complete, mayhem or
   * third-party venue anywhere, no cashback venue on the hop that pays the creator.
   */
  lemma RouteUsesSupportedVenues(
    markets: Markets, inMint: Pubkey, hops: seq<RouteHop>, amountIn: u64, slippageBps: nat, k: nat)
    requires PriceableRoute(hops) && slippageBps <= 0xFFFF && k < |hops|
    requires QuoteMultiHopSwap(markets, inMint, hops, amountIn, slippageBps).Ok?
    ensures MultiHopRoute(inMint, Keys(hops)).Ok?
    ensures var isBuy := MultiHopRoute(inMint, Keys(hops)).value.isBuy;
            && Supported(markets, hops[k], isBuy, ForHop(isBuy, k, |hops|))
            && AmountAfter(markets, hops, isBuy, amountIn, k + 1).Ok?
            && AgentStaysOnCurve(markets, hops[k], isBuy, AmountAfter(markets, hops, isBuy, amountIn, k + 1).value)
  {
    hide HopQuote, SubSlippage, Supported, AgentStaysOnCurve;
    var isBuy := MultiHopRoute(inMint, Keys(hops)).value.isBuy;
    AmountsSoFar(markets, hops, isBuy, amountIn, k + 1, |hops|);
    AmountsSoFar(markets, hops, isBuy, amountIn, k, |hops|);
    HopNeedsSupportedVenue(markets, hops[k], isBuy, AmountAfter(markets, hops, isBuy, amountIn, k).value,
                           ForHop(isBuy, k, |hops|));
  }

  // ---- round trips on one snapshot ----

  /** A hop's output is not past the remaining supply of its curve. */
  predicate WithinRemainder(hop: RouteHop, out: u64) {
    hop.CurveHop? ==> out <= hop.curve.realTokenReserves
  }

  datatype Reserves = Reserves(base: u64, quote: u64)

  /** Reserves a hop is priced on: the vaults of a pool, the virtual reserves of a curve. */
  function PricingReserves(hop: RouteHop): Result<Reserves> {
    match hop
    case PoolHop(pool, baseReserve, quoteVaultBalance, _) =>
      var quote :- EffectiveQuoteReserve(pool, quoteVaultBalance);
      Ok(Reserves(baseReserve, quote))
    case CurveHop(_, curve, _, _) =>
      Ok(Reserves(curve.virtualTokenReserves, curve.virtualQuoteReserves))
  }

  /** A curve's pool-to-be, if it can open at all, opens at or above the curve's current price. */
  predicate PoolOpensAtPrice(global: Global, hop: RouteHop) {
    hop.CurveHop? ==>
      match PoolAfterCompletion(global, hop.curve, hop.baseAtaAmount)
      case Ok(pool) =>
        pool.quote * hop.curve.virtualTokenReserves >= hop.curve.virtualQuoteReserves * pool.base
      case Err(_) => true
  }

  /** A buy hop that does not take cheaper tokens past its curve's remaining supply. */
  predicate FairBuyHop(markets: Markets, hop: RouteHop, out: u64) {
    WithinRemainder(hop, out) || PoolOpensAtPrice(markets.global, hop)
  }

  /** A fair buy hop's output is worth, at the reserves it is priced on, at least one unit less than its input. */
  lemma HopBuyBound(markets: Markets, hop: RouteHop, amount: u64, legs: HopFees) returns (m: nat)
    requires hop.CurveHop? ==> Priceable(hop.curve)
    requires var out := HopQuote(markets, hop, true, amount, legs); out.Ok? && FairBuyHop(markets, hop, out.value)
    ensures PricingReserves(hop).Ok? && PricingReserves(hop).value.base > 0
    ensures var r := PricingReserves(hop).value;
            m < amount && HopQuote(markets, hop, true, amount, legs).value * r.quote <= m * r.base
  {
    match hop
    case PoolHop(pool, baseReserve, quoteVaultBalance, baseMintSupply) =>
      m := PoolBuyNet(markets, hop, amount, legs);
    case CurveHop(_, curve, mintSupply, baseAtaAmount) =>
      var bps := HopBps(CurveFeeBps(markets.global, markets.pumpFeeConfig, curve, mintSupply).value, legs.CurveFlags());
      if HopQuote(markets, hop, true, amount, legs).value <= curve.realTokenReserves {
        m := CurveBuyNet(markets.global, curve, baseAtaAmount, markets.user, amount, bps);
      } else {
        m := CurveCrossingNet(markets.global, curve, baseAtaAmount, markets.user, amount, bps);
      }
  }

  lemma PoolBuyNet(markets: Markets, hop: RouteHop, amount: u64, legs: HopFees) returns (m: nat)
    requires hop.PoolHop? && HopQuote(markets, hop, true, amount, legs).Ok?
    ensures PricingReserves(hop).Ok? && PricingReserves(hop).value.base > 0
    ensures var r := PricingReserves(hop).value;
            m < amount && HopQuote(markets, hop, true, amount, legs).value * r.quote <= m * r.base
  {
    hide CpOut, FlooredNet, FeeTotal, FeeAmount, ExactInFeeAmounts;
    var r := PricingReserves(hop).value;
    var fees := ComputeAmmFeeBps(
      markets.globalConfig, markets.ammFeeConfig, hop.pool.baseMint, hop.pool.creator, hop.pool.quoteMint,
      hop.pool.creatorFeeBps, hop.baseMintSupply, r.base, r.quote).value;
    var rates := HopRates(fees, legs, hop.pool.coinCreator != DefaultKey);
    m := amount - ExactInFeeAmounts(amount, rates).value.Fees() - 1;
    CpOutWorth(m, r.quote, r.base);
  }

  lemma CurveBuyNet(
    global: Global, curve: BondingCurve, baseAtaAmount: u64, user: Pubkey, amount: u64, bps: CurveBps)
    returns (m: nat)
    requires var out := CurveHopBuy(global, curve, baseAtaAmount, user, amount, bps);
             out.Ok? && out.value <= curve.realTokenReserves
    ensures m < amount
    ensures CurveHopBuy(global, curve, baseAtaAmount, user, amount, bps).value * curve.virtualQuoteReserves
            <= m * curve.virtualTokenReserves
  {
    hide FlooredNet, FeeTotal, FeeAmount, ExactInFeeAmounts, CpOut, WithFees, TokenCost;
    var e := ExactInFeeAmounts(amount, bps.AsRates()).value;
    m := amount - (e.fee0 + e.fee1) - 1;
    var tokens := CpOut(m, curve.virtualQuoteReserves, curve.virtualTokenReserves);
    CpOutWorth(m, curve.virtualQuoteReserves, curve.virtualTokenReserves);
    MulLe(CurveHopBuy(global, curve, baseAtaAmount, user, amount, bps).value, tokens, curve.virtualQuoteReserves);
  }

  /** A hop past the remainder pays the remainder's price plus a leg at no less than the curve's price. */
  lemma CurveCrossingNet(
    global: Global, curve: BondingCurve, baseAtaAmount: u64, user: Pubkey, amount: u64, bps: CurveBps)
    returns (m: nat)
    requires var out := CurveHopBuy(global, curve, baseAtaAmount, user, amount, bps);
             out.Ok? && out.value > curve.realTokenReserves
    requires PoolAfterCompletion(global, curve, baseAtaAmount).Ok? ==>
               var pool := PoolAfterCompletion(global, curve, baseAtaAmount).value;
               pool.quote * curve.virtualTokenReserves >= curve.virtualQuoteReserves * pool.base
    ensures m < amount
    ensures CurveHopBuy(global, curve, baseAtaAmount, user, amount, bps).value * curve.virtualQuoteReserves
            <= m * curve.virtualTokenReserves
  {
    hide FlooredNet, FeeTotal, FeeAmount, ExactInFeeAmounts, CpOut, TokenCost, PostCompleteLegExactQuote;
    var remaining := curve.realTokenReserves;
    var net := BuyQuote(curve, remaining).value;
    var pool := PoolAfterCompletion(global, curve, baseAtaAmount).value;
    var spent := LegSpends(pool, bps, amount - WithFees(net, bps));
    var baseOut := LegOut(pool, bps, amount - WithFees(net, bps), true);
    m := net + spent;
    CostGalois(curve, remaining, net);
    CpGalois(spent, pool.quote, pool.base, baseOut);
    CrossingWorth(remaining, net, baseOut, spent, curve.virtualQuoteReserves, curve.virtualTokenReserves,
                  pool.quote, pool.base);
  }

  /** A whole-budget leg is the constant-product output of one unit less than it puts into the pool. */
  lemma LegSpends(pool: PoolReserves, bps: CurveBps, budget: u64) returns (spent: nat)
    requires pool.base > 0 && pool.quote > 0 && LegOut(pool, bps, budget, true) > 0
    ensures spent < budget && LegOut(pool, bps, budget, true) == CpOut(spent, pool.quote, pool.base) < pool.base
  {
    hide FlooredNet, FeeAmount, ExactInFeeAmounts, CpOut;
    var e := ExactInFeeAmounts(budget, bps.AsRates()).value;
    spent := budget - (e.fee0 + e.fee1) - 1;
    CpBelowReserve(spent, pool.quote, pool.base);
  }

  lemma CrossingWorth(
    remaining: nat, net: nat, baseOut: nat, spent: nat, vq: nat, vt: nat, poolQuote: nat, poolBase: nat)
    requires remaining < vt && remaining * vq < net * (vt - remaining)
    requires baseOut <= poolBase && 0 < poolBase && baseOut * poolQuote <= spent * (poolBase - baseOut)
    requires poolQuote * vt >= vq * poolBase
    ensures (remaining + baseOut) * vq <= (net + spent) * vt
  {
    MulLe(vt - remaining, vt, net);
    LegWorth(baseOut, spent, vq, vt, poolQuote, poolBase);
    assert (remaining + baseOut) * vq == remaining * vq + baseOut * vq;
    assert (net + spent) * vt == net * vt + spent * vt;
  }

  lemma LegWorth(baseOut: nat, spent: nat, vq: nat, vt: nat, poolQuote: nat, poolBase: nat)
    requires baseOut <= poolBase && 0 < poolBase && baseOut * poolQuote <= spent * (poolBase - baseOut)
    requires poolQuote * vt >= vq * poolBase
    ensures baseOut * vq <= spent * vt
  {
    MulLe(poolBase - baseOut, poolBase, spent);
    MulLe(baseOut * poolQuote, spent * poolBase, vt);
    MulLe(vq * poolBase, poolQuote * vt, baseOut);
    Reassociate(baseOut, vq, poolBase);
    Reassociate(baseOut, poolQuote, vt);
    Reassociate(spent, poolBase, vt);
    Reassociate(spent, vt, poolBase);
    CancelLe(baseOut * vq, spent * vt, poolBase);
  }

  lemma Reassociate(x: int, y: int, z: int)
    ensures (x * y) * z == x * (y * z) == (y * z) * x
  {}

  /** A sell hop pays at most the constant-product output of its whole input. */
  lemma HopSellBound(markets: Markets, hop: RouteHop, amount: u64, legs: HopFees)
    requires hop.CurveHop? ==> Priceable(hop.curve)
    requires HopQuote(markets, hop, false, amount, legs).Ok?
    ensures PricingReserves(hop).Ok?
    ensures var r := PricingReserves(hop).value;
            && r.base > 0
            && HopQuote(markets, hop, false, amount, legs).value <= CpOut(amount, r.base, r.quote)
  {}

  /** Buying on a hop and selling no more than was bought returns strictly less than was paid. */
  lemma HopBuyThenSellLoses(
    markets: Markets, hop: RouteHop, amount: u64, legs: HopFees, back: u64, backLegs: HopFees)
    requires hop.CurveHop? ==> Priceable(hop.curve)
    requires var out := HopQuote(markets, hop, true, amount, legs);
             out.Ok? && FairBuyHop(markets, hop, out.value) && back <= out.value
    requires HopQuote(markets, hop, false, back, backLegs).Ok?
    ensures HopQuote(markets, hop, false, back, backLegs).value < amount
  {
    hide HopQuote, CpOut, FairBuyHop;
    var m := HopBuyBound(markets, hop, amount, legs);
    HopSellBound(markets, hop, back, backLegs);
    var r := PricingReserves(hop).value;
    CpRoundTrip(m, r.quote, r.base, HopQuote(markets, hop, true, amount, legs).value, back);
  }

  /** Selling on a hop and spending no more than the proceeds buys back strictly less. */
  lemma HopSellThenBuyLoses(
    markets: Markets, hop: RouteHop, amount: u64, legs: HopFees, back: u64, backLegs: HopFees)
    requires hop.CurveHop? ==> Priceable(hop.curve)
    requires HopQuote(markets, hop, false, amount, legs).Ok?
    requires back <= HopQuote(markets, hop, false, amount, legs).value
    requires var got := HopQuote(markets, hop, true, back, backLegs); got.Ok? && FairBuyHop(markets, hop, got.value)
    ensures HopQuote(markets, hop, true, back, backLegs).value < amount
  {
    hide HopQuote, CpOut, FairBuyHop;
    HopSellBound(markets, hop, amount, legs);
    var m := HopBuyBound(markets, hop, back, backLegs);
    var r := PricingReserves(hop).value;
    BuyBackIsLess(amount, m, HopQuote(markets, hop, true, back, backLegs).value, r.base, r.quote);
  }

  lemma BuyBackIsLess(sold: nat, m: nat, got: nat, base: nat, quote: nat)
    requires base > 0 && m < CpOut(sold, base, quote) && got * quote <= m * base
    ensures got < sold
  {
    hide CpOut;
    var gross := CpOut(sold, base, quote);
    CpRoundsDown(sold, base, quote);
    MulLt(m, gross, base);
    assert gross * (base + sold) == gross * base + gross * sold;
    MulLe(0, gross, sold);
    if got >= sold {
      MulLe(sold, got, quote);
    }
  }

  /** On a buy pass every hop is fair; a sell pass takes nothing out of a curve's token side. */
  predicate BuysFairly(markets: Markets, hops: seq<RouteHop>, isBuy: bool, amountIn: u64)
    requires PriceableRoute(hops)
  {
    isBuy ==> forall k :: 1 <= k <= |hops| ==>
                var out := AmountAfter(markets, hops, isBuy, amountIn, k);
                out.Ok? ==> FairBuyHop(markets, hops[k - 1], out.value)
  }

  /** A condition on the snapshot alone: every curve of the route would open its pool at or above its price. */
  predicate FairSnapshot(markets: Markets, hops: seq<RouteHop>) {
    forall i :: 0 <= i < |hops| ==> PoolOpensAtPrice(markets.global, hops[i])
  }

  /** Coming back along the reversed route, the amount held stays below what the way out held at the same point. */
  lemma {:induction false} WayBackStaysBelow(
    markets: Markets, hops: seq<RouteHop>, isBuy: bool, amountIn: u64, j: nat)
    requires PriceableRoute(hops) && amountIn >= 1 && j <= |hops|
    requires AmountAfter(markets, hops, isBuy, amountIn, |hops|).Ok?
    requires var out := AmountAfter(markets, hops, isBuy, amountIn, |hops|).value;
             && BuysFairly(markets, hops, isBuy, amountIn)
             && BuysFairly(markets, Reverse(hops), !isBuy, out)
             && AmountAfter(markets, Reverse(hops), !isBuy, out, j).Ok?
    ensures AmountAfter(markets, hops, isBuy, amountIn, |hops| - j).Ok?
    ensures var out := AmountAfter(markets, hops, isBuy, amountIn, |hops|).value;
            var here := AmountAfter(markets, hops, isBuy, amountIn, |hops| - j).value;
            var back := AmountAfter(markets, Reverse(hops), !isBuy, out, j).value;
            back <= here && (j > 0 ==> back < here)
  {
    hide HopQuote, FairBuyHop;
    var n := |hops|;
    AmountsSoFar(markets, hops, isBuy, amountIn, n - j, n);
    if j > 0 {
      var out := AmountAfter(markets, hops, isBuy, amountIn, n).value;
      WayBackStaysBelow(markets, hops, isBuy, amountIn, j - 1);
      var hop := hops[n - j];
      var here := AmountAfter(markets, hops, isBuy, amountIn, n - j).value;
      var before := AmountAfter(markets, Reverse(hops), !isBuy, out, j - 1).value;
      assert Reverse(hops)[j - 1] == hop;
      var legs, backLegs := ForHop(isBuy, n - j, n), ForHop(!isBuy, j - 1, n);
      assert AmountAfter(markets, hops, isBuy, amountIn, n - j + 1) == HopQuote(markets, hop, isBuy, here, legs);
      assert AmountAfter(markets, Reverse(hops), !isBuy, out, j) == HopQuote(markets, hop, !isBuy, before, backLegs);
      if isBuy {
        HopBuyThenSellLoses(markets, hop, here, legs, before, backLegs);
      } else {
        HopSellThenBuyLoses(markets, hop, here, legs, before, backLegs);
      }
    }
  }

  /**
   * No round trip on one snapshot pays: quoting a route of any length and mix of venues one way,
   * and the reversed route for the amount it returned, gives back strictly less than was put in,
   * in either direction and whatever the fee rates, provided each curve hop stays within its
   * remaining supply or would open its pool at or above its current price.
   */
  lemma RouteRoundTripLoses(
    markets: Markets, inMint: Pubkey, hops: seq<RouteHop>, amountIn: u64, slippageBps: nat)
    requires slippageBps <= 0xFFFF && PriceableRoute(hops)
    requires DistinctMints(Keys(hops))
    requires QuoteMultiHopSwap(markets, inMint, hops, amountIn, slippageBps).Ok?
    requires var ends := MultiHopRoute(inMint, Keys(hops)).value;
             var there := QuoteMultiHopSwap(markets, inMint, hops, amountIn, slippageBps).value;
             && BuysFairly(markets, hops, ends.isBuy, amountIn)
             && BuysFairly(markets, Reverse(hops), !ends.isBuy, there.amount)
    ensures var ends := MultiHopRoute(inMint, Keys(hops)).value;
            var there := QuoteMultiHopSwap(markets, inMint, hops, amountIn, slippageBps).value;
            var back := QuoteMultiHopSwap(markets, ends.outMint, Reverse(hops), there.amount, slippageBps);
            && MultiHopRoute(ends.outMint, Keys(Reverse(hops))) == Ok(RouteEnds(!ends.isBuy, inMint))
            && (back.Ok? ==> back.value.amount < amountIn)
  {
    hide HopQuote, SubSlippage, FairBuyHop;
    var ends := MultiHopRoute(inMint, Keys(hops)).value;
    var there := QuoteMultiHopSwap(markets, inMint, hops, amountIn, slippageBps).value;
    assert Keys(Reverse(hops)) == Reverse(Keys(hops));
    if ends.isBuy {
      ReversedBuySellsBack(inMint, Keys(hops), ends.outMint);
    } else {
      ReversedSellBuysBack(inMint, Keys(hops), ends.outMint);
    }
    if QuoteMultiHopSwap(markets, ends.outMint, Reverse(hops), there.amount, slippageBps).Ok? {
      assert |hops| > 0;
      WayBackStaysBelow(markets, hops, ends.isBuy, amountIn, |hops|);
    }
  }

  /** The same from the snapshot alone, for every amount: nothing has to be quoted to know that no round trip pays. */
  lemma FairSnapshotRoundTripLoses(
    markets: Markets, inMint: Pubkey, hops: seq<RouteHop>, amountIn: u64, slippageBps: nat)
    requires slippageBps <= 0xFFFF && PriceableRoute(hops)
    requires DistinctMints(Keys(hops)) && FairSnapshot(markets, hops)
    requires QuoteMultiHopSwap(markets, inMint, hops, amountIn, slippageBps).Ok?
    ensures var ends := MultiHopRoute(inMint, Keys(hops)).value;
            var there := QuoteMultiHopSwap(markets, inMint, hops, amountIn, slippageBps).value;
            var back := QuoteMultiHopSwap(markets, ends.outMint, Reverse(hops), there.amount, slippageBps);
            back.Ok? ==> back.value.amount < amountIn
  {
    hide HopQuote, SubSlippage, PoolOpensAtPrice;
    RouteRoundTripLoses(markets, inMint, hops, amountIn, slippageBps);
  }

  // A one-curve market at 1% protocol and 0.5% creator fees whose last token opens a pool of 1000 against 2.

  const EXAMPLE_FEES := Fees(0, 100, 50)
  const EXAMPLE_CONFIG := FeeConfig(EXAMPLE_FEES, [], [], EXAMPLE_FEES)
  const EXAMPLE_BPS := CurveBps(100, 50)
  const EXAMPLE_CURVE :=
    BondingCurve(1_000, 1_000, 1, 0, 1_001, false, Key(1), false, false, Key(2), 0, 0, 1_000, 0, 0)
  const EXAMPLE_HOP := CurveHop(Key(3), EXAMPLE_CURVE, 0, 1_001)
  const EXAMPLE_MARKETS := Markets(
    Global(1_000, 0, 0, 1, 1_001, 0, false, Key(4), [], 0), EXAMPLE_CONFIG, GlobalConfig(0, false), EXAMPLE_CONFIG,
    Key(5))

  /** A curve whose pool opens below its price breaks the round trip: 100 quotes 979, and 979 quotes 486 back. */
  lemma CrossingRoundTripExample()
    ensures !PoolOpensAtPrice(EXAMPLE_MARKETS.global, EXAMPLE_HOP)
    ensures var there := QuoteMultiHopSwap(EXAMPLE_MARKETS, Key(2), [EXAMPLE_HOP], 100, 0);
            there.Ok? && there.value.amount == 979
    ensures var back := QuoteMultiHopSwap(EXAMPLE_MARKETS, Key(3), Reverse([EXAMPLE_HOP]), 979, 0);
            back.Ok? && back.value.amount == 486
  {
    hide QuoteMultiHopSwap;
    ExampleBuy();
    ExampleSell();
    OneCurveRoute(true, Key(2), 100);
    assert Reverse([EXAMPLE_HOP]) == [EXAMPLE_HOP];
    OneCurveRoute(false, Key(3), 979);
    ExamplePool();
  }

  /** The pool-to-be opens at 2 for 1000 tokens, below the curve's price of 1. */
  lemma ExamplePool()
    ensures PoolAfterCompletion(EXAMPLE_MARKETS.global, EXAMPLE_CURVE, 1_001) == Ok(PoolReserves(1_000, 2))
    ensures !PoolOpensAtPrice(EXAMPLE_MARKETS.global, EXAMPLE_HOP)
  {
    ExampleNumbers();
    hide TokenCost;
  }

  /** A one-hop route quotes what its hop quotes with every fee. */
  lemma OneCurveRoute(isBuy: bool, inMint: Pubkey, amountIn: u64)
    requires amountIn > 0 && inMint == if isBuy then Key(2) else Key(3)
    ensures var hop := HopQuote(EXAMPLE_MARKETS, EXAMPLE_HOP, isBuy, amountIn, ALL_LEGS);
            var quote := QuoteMultiHopSwap(EXAMPLE_MARKETS, inMint, [EXAMPLE_HOP], amountIn, 0);
            hop.Ok? ==> quote.Ok? && quote.value.amount == hop.value
  {
    hide MultiHopCurveHop, SubSlippage;
    var pair, ends := MintPair(Key(3), Key(2)), RouteEnds(isBuy, if isBuy then Key(3) else Key(2));
    assert Keys([EXAMPLE_HOP]) == [pair];
    assert RouteAfter(inMint, [pair], 0) == Ok(RouteState(inMint, None));
    assert MultiHopRoute(inMint, Keys([EXAMPLE_HOP])) == Ok(ends);
    assert AmountAfter(EXAMPLE_MARKETS, [EXAMPLE_HOP], isBuy, amountIn, 0) == Ok(amountIn);
    assert AmountAfter(EXAMPLE_MARKETS, [EXAMPLE_HOP], isBuy, amountIn, 1)
        == HopQuote(EXAMPLE_MARKETS, EXAMPLE_HOP, isBuy, amountIn, ForHop(isBuy, 0, 1));
  }

  lemma ExampleRates()
    ensures CurveFeeBps(EXAMPLE_MARKETS.global, EXAMPLE_CONFIG, EXAMPLE_CURVE, 0) == Ok(EXAMPLE_BPS)
    ensures HopBps(EXAMPLE_BPS, ALL_LEGS.CurveFlags()) == EXAMPLE_BPS
  {
    hide Floor;
  }

  lemma ExampleBuy()
    ensures HopQuote(EXAMPLE_MARKETS, EXAMPLE_HOP, true, 100, ALL_LEGS) == Ok(979)
  {
    ExampleRates();
    ExampleNumbers();
    ExampleLeg();
    hide CpOut, TokenCost, WithFees, PostCompleteLegExactQuote, ExactInFeeAmounts, CurveFeeBps, HopBps;
  }

  lemma ExampleSell()
    ensures HopQuote(EXAMPLE_MARKETS, EXAMPLE_HOP, false, 979, ALL_LEGS) == Ok(486)
  {
    ExampleRates();
    ExampleNumbers();
    hide CpOut, FeeAmount, CurveFeeBps, HopBps;
  }

  lemma ExampleLeg()
    ensures PostCompleteLegExactQuote(PoolReserves(1_000, 2), EXAMPLE_BPS, 96, true) == Ok(Some(Leg(978, 96)))
  {
    ExampleNumbers();
    hide CpOut, ExactInFeeAmounts, FlooredNet;
  }

  lemma ExampleNumbers()
    ensures FlooredNet(96, EXAMPLE_BPS.AsRates()) == 94
    ensures ExactInFeeAmounts(100, EXAMPLE_BPS.AsRates()) == Ok(ExactIn(98, 1, 1, 0))
    ensures ExactInFeeAmounts(96, EXAMPLE_BPS.AsRates()) == Ok(ExactIn(94, 1, 1, 0))
    ensures CpOut(97, 1_000, 1_000) == 88
    ensures CpOut(93, 2, 1_000) == 978
    ensures CpOut(979, 1_000, 1_000) == 494
    ensures FeeAmount(494, 100) == 5 && FeeAmount(494, 50) == 3
    ensures TokenCost(EXAMPLE_CURVE, 1) == 2
    ensures WithFees(2, EXAMPLE_BPS) == 4
  {
    assert FlooredNet(100, EXAMPLE_BPS.AsRates()) == 98;
  }

  // ---- discovery ----

  /** The mint pairs read off a discovered route's venues. */
  ghost predicate VenuesHaveKeys(ledger: Ledger, venues: seq<RouteVenue>, keys: seq<MintPair>) {
    |keys| == |venues| && forall i :: 0 <= i < |venues| ==> VenueMints(ledger, venues[i]) == Some(keys[i])
  }

  /** Mint pair of step `k` of the walk. */
  function StepPair(ledger: Ledger, outMint: Pubkey, k: nat): MintPair
    requires ChainMint(ledger, outMint, k).Some? && ChainMint(ledger, outMint, k).value in ledger.curves
  {
    var mint := ChainMint(ledger, outMint, k).value;
    MintPair(mint, CurveQuote(ledger.curves[mint]))
  }

  /** The pairs of a walked route, in buy order. */
  ghost function WalkKeys(ledger: Ledger, route: DiscoveredRoute): (keys: seq<MintPair>)
    requires WalkedRoute(ledger, route)
    ensures |keys| == |route.venues|
    ensures forall i :: 0 <= i < |keys| ==>
              && ChainMint(ledger, route.outMint, |keys| - 1 - i).Some?
              && ChainMint(ledger, route.outMint, |keys| - 1 - i).value in ledger.curves
              && keys[i] == StepPair(ledger, route.outMint, |keys| - 1 - i)
  {
    var n := |route.venues|;
    seq(n, i requires 0 <= i < n => StepPair(ledger, route.outMint, n - 1 - i))
  }

  /** The venue of step `k` can be read: an open curve always, a complete one once its pool exists. */
  ghost predicate StepIsFetchable(ledger: Ledger, outMint: Pubkey, k: nat)
    requires ChainMint(ledger, outMint, k).Some? && ChainMint(ledger, outMint, k).value in ledger.curves
  {
    var mint := ChainMint(ledger, outMint, k).value;
    ledger.curves[mint].complete ==> HasCanonicalPool(ledger, mint)
  }

  /**
   * Whatever the chain looks like, the discovered steps are a buy route from the root currency to
   * the coin, and read backwards a sell route home exactly when no hop is quoted in its own base.
   * The venues name those steps exactly when every complete curve on the walk has its pool.
   */
  lemma DiscoveryIsSound(ledger: Ledger, route: DiscoveredRoute)
    requires WalkedRoute(ledger, route)
    ensures MultiHopRoute(route.Path(true).0, WalkKeys(ledger, route)) == Ok(RouteEnds(true, route.outMint))
    ensures MultiHopRoute(route.Path(false).0, Reverse(WalkKeys(ledger, route))) == Ok(RouteEnds(false, route.inMint))
            <==> DistinctMints(WalkKeys(ledger, route))
    ensures VenuesHaveKeys(ledger, route.Path(true).1, WalkKeys(ledger, route)) <==>
            forall k :: 0 <= k < |WalkKeys(ledger, route)| ==> StepIsFetchable(ledger, route.outMint, k)
    ensures VenuesHaveKeys(ledger, route.Path(false).1, Reverse(WalkKeys(ledger, route))) <==>
            VenuesHaveKeys(ledger, route.Path(true).1, WalkKeys(ledger, route))
  {
    hide ChainMint, WalkedRoute;
    var keys := WalkKeys(ledger, route);
    WalkKeysMatchVenues(ledger, route);
    ReverseMatches(ledger, route.venues, keys);
    WalkKeysLink(ledger, route);
    RouteIffLinked(route.inMint, keys);
    ReversedBuySellsBack(route.inMint, keys, route.outMint);
  }

  lemma ReverseMatches(ledger: Ledger, venues: seq<RouteVenue>, keys: seq<MintPair>)
    requires |keys| == |venues|
    ensures VenuesHaveKeys(ledger, Reverse(venues), Reverse(keys)) <==> VenuesHaveKeys(ledger, venues, keys)
  {
    if VenuesHaveKeys(ledger, Reverse(venues), Reverse(keys)) {
      forall i | 0 <= i < |venues|
        ensures VenueMints(ledger, venues[i]) == Some(keys[i])
      {
        assert Reverse(venues)[|venues| - 1 - i] == venues[i];
      }
    }
  }

  lemma WalkKeyMatches(ledger: Ledger, route: DiscoveredRoute, k: nat)
    requires WalkedRoute(ledger, route) && k < |route.venues|
    ensures ChainMint(ledger, route.outMint, k).Some? && ChainMint(ledger, route.outMint, k).value in ledger.curves
    ensures var i := |route.venues| - 1 - k;
            VenueMints(ledger, route.venues[i]) == Some(WalkKeys(ledger, route)[i]) <==>
            StepIsFetchable(ledger, route.outMint, k)
  {
    hide ChainMint;
    assert Reverse(route.venues)[k] == route.venues[|route.venues| - 1 - k];
  }

  lemma WalkKeysMatchVenues(ledger: Ledger, route: DiscoveredRoute)
    requires WalkedRoute(ledger, route)
    ensures var keys := WalkKeys(ledger, route);
            && (forall k :: 0 <= k < |keys| ==>
                 && ChainMint(ledger, route.outMint, k).Some?
                 && ChainMint(ledger, route.outMint, k).value in ledger.curves)
            && (VenuesHaveKeys(ledger, route.venues, keys) <==>
                forall k :: 0 <= k < |keys| ==> StepIsFetchable(ledger, route.outMint, k))
  {
    hide ChainMint, WalkedRoute, StepIsFetchable;
    var n, keys := |route.venues|, WalkKeys(ledger, route);
    forall k | 0 <= k < n
      ensures && ChainMint(ledger, route.outMint, k).Some?
              && ChainMint(ledger, route.outMint, k).value in ledger.curves
              && (VenueMints(ledger, route.venues[n - 1 - k]) == Some(keys[n - 1 - k]) <==>
                  StepIsFetchable(ledger, route.outMint, k))
    {
      WalkKeyMatches(ledger, route, k);
    }
    if VenuesHaveKeys(ledger, route.venues, keys) {
      forall k | 0 <= k < n
        ensures StepIsFetchable(ledger, route.outMint, k)
      {
        assert VenueMints(ledger, route.venues[n - 1 - k]) == Some(keys[n - 1 - k]);
      }
    } else {
      var i :| 0 <= i < n && VenueMints(ledger, route.venues[i]) != Some(keys[i]);
      assert !StepIsFetchable(ledger, route.outMint, n - 1 - i);
    }
  }

  lemma WalkKeysLink(ledger: Ledger, route: DiscoveredRoute)
    requires WalkedRoute(ledger, route)
    ensures var keys := WalkKeys(ledger, route);
            |keys| >= 1 && BuyLinked(route.inMint, keys, |keys|) && keys[|keys| - 1].baseMint == route.outMint
  {
    hide ChainMint;
    var n, keys := |route.venues|, WalkKeys(ledger, route);
    forall i | 0 <= i < n
      ensures BuyStep(route.inMint, keys, i)
    {
      ChainStep(ledger, route.outMint, n - 1 - i);
    }
    ChainStart(ledger, route.outMint);
  }

  /** A coin quoted in itself is walked eight times and no more, unless the walk is told to stop there. */
  lemma CyclicWalkEndsAtEight(ledger: Ledger, mint: Pubkey, n: nat)
    requires mint in ledger.curves && ledger.curves[mint].quoteMint == mint != DefaultKey
    requires WalkStopsAt(ledger, mint, None, n)
    ensures n == 8
  {
    CyclicChain(ledger, mint, n);
  }

  lemma CyclicChain(ledger: Ledger, mint: Pubkey, n: nat)
    requires mint in ledger.curves && ledger.curves[mint].quoteMint == mint != DefaultKey
    ensures ChainMint(ledger, mint, n) == Some(mint)
  {}
}
