/** What each hop of a quoted route charges, and how far a change of rates reaches. */
module RouteFees {
  import opened Arithmetic
  import opened State
  import opened Utils
  import opened Fee
  import opened Curve
  import opened CurveLaws
  import opened V3Laws
  import opened Amm
  import opened AmmLaws
  import opened Sdk
  import opened Routing
  import opened RoutingLaws

  // ---- one hop ----

  /** LP, protocol and creator rates of a direct trade on a hop's venue; a curve has no LP. */
  function VenueRates(markets: Markets, hop: RouteHop): Result<Rates> {
    match hop
    case PoolHop(pool, baseReserve, quoteVault, supply) =>
      var source := LivePool(pool, baseReserve, quoteVault, supply);
      var ctx :- ContextFor(markets.globalConfig, markets.ammFeeConfig, source);
      if ctx.HasReserves() then ctx.TradeRates() else Err(EmptyReserves)
    case CurveHop(_, curve, mintSupply, _) =>
      if curve.virtualTokenReserves == 0 then Err(VenueNotSupported) else
      var bps :- CurveFeeBps(markets.global, markets.pumpFeeConfig, curve, mintSupply);
      Ok(Rates(0, bps.protocol, bps.creator))
  }

  /** Tokens past a curve's remainder: the whole-budget leg on what the remainder leaves of the input. */
  function LegTokens(global: Global, hop: RouteHop, input: u64, rates: Rates): nat
    requires hop.CurveHop?
  {
    var bps := CurveBps(rates.second, rates.third);
    match (BuyQuote(hop.curve, hop.curve.realTokenReserves), PoolAfterCompletion(global, hop.curve, hop.baseAtaAmount))
    case (Ok(net), Ok(pool)) =>
      if input > WithFees(net, bps) then LegOut(pool, bps, input - WithFees(net, bps), true) else 0
    case _ => 0
  }

  /** All of the input but its fees is swapped, save for the unit the floor swap holds back. */
  predicate BuySettles(global: Global, hop: RouteHop, r: Reserves, input: u64, output: u64, rates: Rates) {
    var e := ExactInFeeAmounts(input, rates);
    && e.Ok?
    && var swapped := input - e.value.Fees() - 1;
    && r.quote + swapped > 0
    && var tokens := CpOut(swapped, r.quote, r.base);
       if hop.PoolHop? || tokens <= hop.curve.realTokenReserves then output == tokens
       else output == hop.curve.realTokenReserves + LegTokens(global, hop, input, rates)
  }

  /** The output is the constant-product gross less each fee, rounded up on that gross. */
  predicate SellSettles(r: Reserves, input: u64, output: u64, rates: Rates)
    requires r.base > 0
  {
    var gross := CpOut(input, r.base, r.quote);
    gross == output + FeeTotal(gross, rates)
  }

  /** A hop that turns `input` into `output` at exactly these rates, on the venue's own reserves. */
  predicate Settles(global: Global, hop: RouteHop, isBuy: bool, input: u64, output: u64, rates: Rates) {
    && PricingReserves(hop).Ok? && PricingReserves(hop).value.base > 0
    && var r := PricingReserves(hop).value;
       if isBuy then BuySettles(global, hop, r, input, output, rates) else SellSettles(r, input, output, rates)
  }

  /** A hop charges the venue's own rates for the components it is told to charge, and no other. */
  lemma HopSettles(markets: Markets, hop: RouteHop, isBuy: bool, amount: u64, legs: HopFees)
    requires hop.CurveHop? ==> Priceable(hop.curve)
    requires HopQuote(markets, hop, isBuy, amount, legs).Ok?
    ensures VenueRates(markets, hop).Ok?
    ensures Settles(markets.global, hop, isBuy, amount, HopQuote(markets, hop, isBuy, amount, legs).value,
                    ChargedRates(VenueRates(markets, hop).value, legs))
  {
    if hop.PoolHop? {
      PoolHopSettles(markets, hop, isBuy, amount, legs);
    } else {
      CurveHopSettles(markets, hop, isBuy, amount, legs);
    }
  }

  lemma PoolHopSettles(markets: Markets, hop: RouteHop, isBuy: bool, amount: u64, legs: HopFees)
    requires hop.PoolHop? && HopQuote(markets, hop, isBuy, amount, legs).Ok?
    ensures VenueRates(markets, hop).Ok?
    ensures Settles(markets.global, hop, isBuy, amount, HopQuote(markets, hop, isBuy, amount, legs).value,
                    ChargedRates(VenueRates(markets, hop).value, legs))
  {
    hide CpOut, FeeAmount, ExactInFeeAmounts;
  }

  lemma CurveHopSettles(markets: Markets, hop: RouteHop, isBuy: bool, amount: u64, legs: HopFees)
    requires hop.CurveHop? && Priceable(hop.curve) && HopQuote(markets, hop, isBuy, amount, legs).Ok?
    ensures VenueRates(markets, hop).Ok?
    ensures Settles(markets.global, hop, isBuy, amount, HopQuote(markets, hop, isBuy, amount, legs).value,
                    ChargedRates(VenueRates(markets, hop).value, legs))
  {
    hide CpOut, FeeAmount, ExactInFeeAmounts, CurveFeeBps, TokenCost, PostCompleteLegExactQuote, BuySettles,
      SellSettles;
    var all := CurveFeeBps(markets.global, markets.pumpFeeConfig, hop.curve, hop.mintSupply).value;
    FlagsCarryHopFees(legs, all);
    var bps := HopBps(all, legs.CurveFlags());
    if isBuy {
      CurveBuySettles(markets.global, hop, markets.user, amount, bps);
    } else {
      CurveSellSettles(hop, amount, bps);
    }
  }

  lemma CurveSellSettles(hop: RouteHop, amount: u64, bps: CurveBps)
    requires hop.CurveHop? && hop.curve.virtualTokenReserves > 0 && CurveHopSell(hop.curve, amount, bps).Ok?
    ensures SellSettles(Reserves(hop.curve.virtualTokenReserves, hop.curve.virtualQuoteReserves), amount,
                        CurveHopSell(hop.curve, amount, bps).value, Rates(0, bps.protocol, bps.creator))
  {
    hide CpOut;
    FeeBounds(CpOut(amount, hop.curve.virtualTokenReserves, hop.curve.virtualQuoteReserves), 0);
  }

  lemma CurveBuySettles(global: Global, hop: RouteHop, user: Pubkey, amount: u64, bps: CurveBps)
    requires hop.CurveHop? && CurveHopBuy(global, hop.curve, hop.baseAtaAmount, user, amount, bps).Ok?
    ensures BuySettles(global, hop, Reserves(hop.curve.virtualTokenReserves, hop.curve.virtualQuoteReserves), amount,
                       CurveHopBuy(global, hop.curve, hop.baseAtaAmount, user, amount, bps).value,
                       Rates(0, bps.protocol, bps.creator))
  {
    hide CpOut, ExactInFeeAmounts, TokenCost, WithFees, PostCompleteLegExactQuote;
    NoFirstRate(amount, bps);
  }

  /** Where a zero rate stands makes no difference. */
  lemma NoFirstRate(amount: u64, bps: CurveBps)
    ensures var two, three := ExactInFeeAmounts(amount, bps.AsRates()),
                              ExactInFeeAmounts(amount, Rates(0, bps.protocol, bps.creator));
            && (two.Ok? <==> three.Ok?)
            && (two.Ok? ==> two.value.net == three.value.net && two.value.fee0 + two.value.fee1 == two.value.Fees()
                            && two.value.Fees() == three.value.Fees())
  {
    var n := FlooredNet(amount, bps.AsRates());
    assert n == FlooredNet(amount, Rates(0, bps.protocol, bps.creator));
    hide FlooredNet, FeeAmount;
    FeeBounds(n, 0);
  }

  // ---- a whole route ----

  /** The end of a route in the user's currency, where a buy starts and a sell arrives. */
  function UserEnd(isBuy: bool, hops: nat): int {
    if isBuy then 0 else hops - 1
  }

  /** The end of a route in the far coin. */
  function FarEnd(isBuy: bool, hops: nat): int {
    hops - 1 - UserEnd(isBuy, hops)
  }

  /**
   * Hop `k` settles at its venue's protocol rate if it is the user's end and at its creator and LP
   * rates if it is the far end; it charges nothing else.
   */
  predicate ChargesByPlace(markets: Markets, hops: seq<RouteHop>, isBuy: bool, amountIn: u64, k: nat)
    requires PriceableRoute(hops) && k < |hops|
  {
    var input := AmountAfter(markets, hops, isBuy, amountIn, k);
    var output := AmountAfter(markets, hops, isBuy, amountIn, k + 1);
    var atUser, atFar := k == UserEnd(isBuy, |hops|), k == FarEnd(isBuy, |hops|);
    && input.Ok? && output.Ok? && VenueRates(markets, hops[k]).Ok?
    && Settles(markets.global, hops[k], isBuy, input.value, output.value,
               ChargedRates(VenueRates(markets, hops[k]).value, HopFees(atUser, atFar, atFar)))
  }

  lemma HopChargesByPlace(markets: Markets, hops: seq<RouteHop>, isBuy: bool, amountIn: u64, k: nat)
    requires PriceableRoute(hops) && k < |hops| && amountIn >= 1
    requires AmountAfter(markets, hops, isBuy, amountIn, |hops|).Ok?
    ensures ChargesByPlace(markets, hops, isBuy, amountIn, k)
  {
    hide HopQuote, VenueRates, Settles;
    AmountsSoFar(markets, hops, isBuy, amountIn, k, |hops|);
    AmountsSoFar(markets, hops, isBuy, amountIn, k + 1, |hops|);
    HopSettles(markets, hops[k], isBuy, AmountAfter(markets, hops, isBuy, amountIn, k).value,
               ForHop(isBuy, k, |hops|));
  }

  /**
   * A quoted route of any length turns the input into the quoted amount hop by hop, each on its own
   * reserves, charging the protocol at the user's end alone and the creator and LP at the far end alone.
   */
  lemma RouteChargesOnce(markets: Markets, inMint: Pubkey, hops: seq<RouteHop>, amountIn: u64, slippageBps: nat)
    requires PriceableRoute(hops) && slippageBps <= 0xFFFF
    requires QuoteMultiHopSwap(markets, inMint, hops, amountIn, slippageBps).Ok?
    ensures MultiHopRoute(inMint, Keys(hops)).Ok?
    ensures var isBuy := MultiHopRoute(inMint, Keys(hops)).value.isBuy;
            && AmountAfter(markets, hops, isBuy, amountIn, 0) == Ok(amountIn)
            && AmountAfter(markets, hops, isBuy, amountIn, |hops|)
               == Ok(QuoteMultiHopSwap(markets, inMint, hops, amountIn, slippageBps).value.amount)
            && forall k :: 0 <= k < |hops| ==> ChargesByPlace(markets, hops, isBuy, amountIn, k)
  {
    hide HopQuote, SubSlippage, ChargesByPlace;
    var isBuy := MultiHopRoute(inMint, Keys(hops)).value.isBuy;
    forall k | 0 <= k < |hops|
      ensures ChargesByPlace(markets, hops, isBuy, amountIn, k)
    {
      HopChargesByPlace(markets, hops, isBuy, amountIn, k);
    }
  }

  /** A hop that charges nothing: the bare constant product of its venue, up to a curve's remainder. */
  predicate IsFree(hop: RouteHop, isBuy: bool, input: u64, output: u64) {
    && PricingReserves(hop).Ok? && PricingReserves(hop).value.base > 0 && input >= 1
    && var r := PricingReserves(hop).value;
       if !isBuy then output == CpOut(input, r.base, r.quote)
       else
         && r.quote + (input - 1) > 0
         && var tokens := CpOut(input - 1, r.quote, r.base);
            if hop.PoolHop? || tokens <= hop.curve.realTokenReserves then output == tokens
            else output >= hop.curve.realTokenReserves
  }

  lemma NoRatesIsFree(global: Global, hop: RouteHop, isBuy: bool, input: u64, output: u64)
    requires input >= 1 && Settles(global, hop, isBuy, input, output, Rates(0, 0, 0))
    ensures IsFree(hop, isBuy, input, output)
  {
    hide CpOut, ExactInFeeAmounts, FeeAmount, LegTokens;
    NoFeesExactIn(input);
    var r := PricingReserves(hop).value;
    FeeBounds(CpOut(input, r.base, r.quote), 0);
  }

  /** Between the two ends of a route nothing is charged. */
  lemma InteriorHopIsFree(
    markets: Markets, inMint: Pubkey, hops: seq<RouteHop>, amountIn: u64, slippageBps: nat, k: nat)
    requires PriceableRoute(hops) && slippageBps <= 0xFFFF && 0 < k < |hops| - 1
    requires QuoteMultiHopSwap(markets, inMint, hops, amountIn, slippageBps).Ok?
    ensures MultiHopRoute(inMint, Keys(hops)).Ok?
    ensures var isBuy := MultiHopRoute(inMint, Keys(hops)).value.isBuy;
            var input := AmountAfter(markets, hops, isBuy, amountIn, k);
            var output := AmountAfter(markets, hops, isBuy, amountIn, k + 1);
            input.Ok? && output.Ok? && IsFree(hops[k], isBuy, input.value, output.value)
  {
    hide HopQuote, SubSlippage, VenueRates, Settles, IsFree;
    RouteQuoteInvariants(markets, inMint, hops, amountIn, slippageBps);
    var isBuy := MultiHopRoute(inMint, Keys(hops)).value.isBuy;
    HopChargesByPlace(markets, hops, isBuy, amountIn, k);
    NoRatesIsFree(markets.global, hops[k], isBuy, AmountAfter(markets, hops, isBuy, amountIn, k).value,
                  AmountAfter(markets, hops, isBuy, amountIn, k + 1).value);
  }

  // ---- how far a change of rates reaches ----

  /** The components in `legs` have the same rates. */
  predicate SameRates(fees: Fees, fees': Fees, legs: HopFees) {
    && (legs.lp ==> fees.lpFeeBps == fees'.lpFeeBps)
    && (legs.protocol ==> fees.protocolFeeBps == fees'.protocolFeeBps)
    && (legs.creator ==> fees.creatorFeeBps == fees'.creatorFeeBps)
  }

  predicate SameTiers(tiers: seq<FeeTier>, tiers': seq<FeeTier>, legs: HopFees) {
    && |tiers| == |tiers'|
    && forall i :: 0 <= i < |tiers| ==>
         tiers[i].threshold == tiers'[i].threshold && SameRates(tiers[i].fees, tiers'[i].fees, legs)
  }

  /** Two schedules that select alike and agree on the components in `legs`. */
  predicate SameSchedule(cfg: FeeConfig, cfg': FeeConfig, legs: HopFees) {
    && SameRates(cfg.flatFees, cfg'.flatFees, legs) && SameRates(cfg.exoticFlatFees, cfg'.exoticFlatFees, legs)
    && (cfg.exoticFlatFees == Fees(0, 0, 0) <==> cfg'.exoticFlatFees == Fees(0, 0, 0))
    && SameTiers(cfg.feeTiers, cfg'.feeTiers, legs) && SameTiers(cfg.stableFeeTiers, cfg'.stableFeeTiers, legs)
  }

  /** The same accounts but for the rates of the components outside `legs`. */
  predicate SameFor(markets: Markets, markets': Markets, legs: HopFees) {
    && markets' == markets.(pumpFeeConfig := markets'.pumpFeeConfig, ammFeeConfig := markets'.ammFeeConfig)
    && SameSchedule(markets.pumpFeeConfig, markets'.pumpFeeConfig, legs)
    && SameSchedule(markets.ammFeeConfig, markets'.ammFeeConfig, legs)
  }

  lemma SameTierSelected(tiers: seq<FeeTier>, tiers': seq<FeeTier>, marketCap: nat, legs: HopFees)
    requires SameTiers(tiers, tiers', legs)
    ensures match CalculateFeeTier(tiers, marketCap)
            case Some(fees) =>
              && CalculateFeeTier(tiers', marketCap).Some?
              && SameRates(fees, CalculateFeeTier(tiers', marketCap).value, legs)
            case None => CalculateFeeTier(tiers', marketCap).None?
  {
    assert LastReached(tiers, marketCap) == LastReached(tiers', marketCap);
  }

  lemma SameFeesSelected(
    cfg: FeeConfig, cfg': FeeConfig, isPumpPool: bool, marketCap: nat, quoteMint: Pubkey, legs: HopFees)
    requires SameSchedule(cfg, cfg', legs)
    ensures match FeesForQuoteMint(cfg, isPumpPool, marketCap, quoteMint)
            case Ok(fees) =>
              && FeesForQuoteMint(cfg', isPumpPool, marketCap, quoteMint).Ok?
              && SameRates(fees, FeesForQuoteMint(cfg', isPumpPool, marketCap, quoteMint).value, legs)
            case Err(error) => FeesForQuoteMint(cfg', isPumpPool, marketCap, quoteMint) == Err(error)
  {
    hide CalculateFeeTier;
    SameTierSelected(cfg.feeTiers, cfg'.feeTiers, marketCap, legs);
    SameTierSelected(cfg.stableFeeTiers, cfg'.stableFeeTiers, marketCap, legs);
  }

  /** A hop's quote, its failures included, depends on the rates of its own components only. */
  lemma HopIgnoresOtherRates(
    markets: Markets, markets': Markets, hop: RouteHop, isBuy: bool, amount: u64, legs: HopFees)
    requires hop.CurveHop? ==> Priceable(hop.curve)
    requires SameFor(markets, markets', legs)
    ensures HopQuote(markets, hop, isBuy, amount, legs) == HopQuote(markets', hop, isBuy, amount, legs)
  {
    match hop
    case PoolHop(pool, baseReserve, quoteVault, supply) =>
      PoolHopIgnoresOtherRates(markets, markets', hop, isBuy, amount, legs);
    case CurveHop(_, curve, mintSupply, baseAtaAmount) =>
      CurveHopIgnoresOtherRates(markets, markets', hop, isBuy, amount, legs);
  }

  lemma PoolHopIgnoresOtherRates(
    markets: Markets, markets': Markets, hop: RouteHop, isBuy: bool, amount: u64, legs: HopFees)
    requires hop.PoolHop? && SameFor(markets, markets', legs)
    ensures HopQuote(markets, hop, isBuy, amount, legs) == HopQuote(markets', hop, isBuy, amount, legs)
  {
    hide FeesForQuoteMint, PoolHopBuy, PoolHopSell;
    var quote := EffectiveQuoteReserve(hop.pool, hop.quoteVaultBalance);
    if quote.Ok? && hop.baseReserve > 0 {
      SameFeesSelected(markets.ammFeeConfig, markets'.ammFeeConfig, IsPumpPool(hop.pool.baseMint, hop.pool.creator),
                       Floor(quote.value * hop.baseMintSupply, hop.baseReserve), hop.pool.quoteMint, legs);
    }
  }

  lemma CurveHopIgnoresOtherRates(
    markets: Markets, markets': Markets, hop: RouteHop, isBuy: bool, amount: u64, legs: HopFees)
    requires hop.CurveHop? && Priceable(hop.curve) && SameFor(markets, markets', legs)
    ensures HopQuote(markets, hop, isBuy, amount, legs) == HopQuote(markets', hop, isBuy, amount, legs)
  {
    hide FeesForQuoteMint, CurveHopBuy, CurveHopSell;
    FlagsCarryHopFees(legs, CurveBps(0, 0));
    var curve := hop.curve;
    if curve.virtualTokenReserves > 0 {
      SameFeesSelected(
        markets.pumpFeeConfig, markets'.pumpFeeConfig, true,
        Floor(curve.virtualQuoteReserves * CurveTierSupply(curve, hop.mintSupply), curve.virtualTokenReserves),
        curve.quoteMint, legs);
    }
  }

  /** Amounts agree as long as every hop so far agrees on the components it charges. */
  lemma {:induction false} AmountsIgnoreOtherRates(
    markets: Markets, markets': Markets, hops: seq<RouteHop>, isBuy: bool, amountIn: u64, from: nat, k: nat)
    requires PriceableRoute(hops) && from <= k <= |hops|
    requires forall i :: from <= i < k ==> SameFor(markets, markets', ForHop(isBuy, i, |hops|))
    requires AmountAfter(markets, hops, isBuy, amountIn, from) == AmountAfter(markets', hops, isBuy, amountIn, from)
    ensures AmountAfter(markets, hops, isBuy, amountIn, k) == AmountAfter(markets', hops, isBuy, amountIn, k)
  {
    hide HopQuote, SameFor;
    if k > from {
      AmountsIgnoreOtherRates(markets, markets', hops, isBuy, amountIn, from, k - 1);
      var amount := AmountAfter(markets, hops, isBuy, amountIn, k - 1);
      if amount.Ok? {
        HopIgnoresOtherRates(markets, markets', hops[k - 1], isBuy, amount.value, ForHop(isBuy, k - 1, |hops|));
      }
    }
  }

  /**
   * Changing protocol rates reaches a route at the user's end only: a sell is unchanged up to its
   * last hop, and any stretch of hops away from that end turns equal amounts into equal amounts.
   */
  lemma ProtocolRateStaysAtUserEnd(
    markets: Markets, markets': Markets, hops: seq<RouteHop>, isBuy: bool, amountIn: u64, from: nat, k: nat)
    requires PriceableRoute(hops) && from <= k <= |hops|
    requires SameFor(markets, markets', HopFees(protocol := false, creator := true, lp := true))
    requires !(from <= UserEnd(isBuy, |hops|) < k)
    ensures from == 0 || AmountAfter(markets, hops, isBuy, amountIn, from)
                         == AmountAfter(markets', hops, isBuy, amountIn, from)
            ==> AmountAfter(markets, hops, isBuy, amountIn, k) == AmountAfter(markets', hops, isBuy, amountIn, k)
  {
    hide AmountAfter, HopQuote;
    NothingSoFar(markets, hops, isBuy, amountIn);
    NothingSoFar(markets', hops, isBuy, amountIn);
    if from == 0 || AmountAfter(markets, hops, isBuy, amountIn, from)
                    == AmountAfter(markets', hops, isBuy, amountIn, from) {
      AmountsIgnoreOtherRates(markets, markets', hops, isBuy, amountIn, from, k);
    }
  }

  /** Changing creator or LP rates reaches a route at the far end only: a buy is unchanged up to its last hop. */
  lemma CreatorAndLpRatesStayAtFarEnd(
    markets: Markets, markets': Markets, hops: seq<RouteHop>, isBuy: bool, amountIn: u64, from: nat, k: nat)
    requires PriceableRoute(hops) && from <= k <= |hops|
    requires SameFor(markets, markets', HopFees(protocol := true, creator := false, lp := false))
    requires !(from <= FarEnd(isBuy, |hops|) < k)
    ensures from == 0 || AmountAfter(markets, hops, isBuy, amountIn, from)
                         == AmountAfter(markets', hops, isBuy, amountIn, from)
            ==> AmountAfter(markets, hops, isBuy, amountIn, k) == AmountAfter(markets', hops, isBuy, amountIn, k)
  {
    hide AmountAfter, HopQuote;
    NothingSoFar(markets, hops, isBuy, amountIn);
    NothingSoFar(markets', hops, isBuy, amountIn);
    if from == 0 || AmountAfter(markets, hops, isBuy, amountIn, from)
                    == AmountAfter(markets', hops, isBuy, amountIn, from) {
      AmountsIgnoreOtherRates(markets, markets', hops, isBuy, amountIn, from, k);
    }
  }

  lemma NothingSoFar(markets: Markets, hops: seq<RouteHop>, isBuy: bool, amountIn: u64)
    requires PriceableRoute(hops)
    ensures AmountAfter(markets, hops, isBuy, amountIn, 0) == Ok(amountIn)
  {}

  // ---- cashback venues ----

  function WithCashback(hop: RouteHop, cashback: bool): RouteHop {
    match hop
    case PoolHop(pool, _, _, _) => hop.(pool := pool.(isCashbackCoin := cashback))
    case CurveHop(_, curve, _, _) => hop.(curve := curve.(isCashbackCoin := cashback))
  }

  /** A hop's fill reads a curve's reserves and whether its quote is SOL, nothing else. */
  lemma SameReservesSameFill(
    global: Global, curve: BondingCurve, curve': BondingCurve, baseAtaAmount: u64, user: Pubkey, amount: u64,
    bps: CurveBps)
    requires curve.virtualTokenReserves == curve'.virtualTokenReserves
    requires curve.virtualQuoteReserves == curve'.virtualQuoteReserves
    requires curve.realTokenReserves == curve'.realTokenReserves && curve.realQuoteReserves == curve'.realQuoteReserves
    requires IsSolLikeQuoteMint(curve.quoteMint) == IsSolLikeQuoteMint(curve'.quoteMint)
    ensures CurveHopBuy(global, curve, baseAtaAmount, user, amount, bps)
            == CurveHopBuy(global, curve', baseAtaAmount, user, amount, bps)
    ensures CurveHopSell(curve, amount, bps) == CurveHopSell(curve', amount, bps)
  {
    hide CpOut, ExactInFeeAmounts, FeeAmount, WithFees, PostCompleteLegExactQuote, Floor;
    assert forall t: nat :: t < curve.virtualTokenReserves ==> TokenCost(curve, t) == TokenCost(curve', t);
    hide TokenCost;
  }

  lemma CashbackOnlyBarsCreatorFee(
    markets: Markets, hop: RouteHop, cashback: bool, isBuy: bool, amount: u64, legs: HopFees)
    requires (hop.CurveHop? ==> Priceable(hop.curve)) && !legs.creator
    ensures HopQuote(markets, WithCashback(hop, cashback), isBuy, amount, legs)
            == HopQuote(markets, hop, isBuy, amount, legs)
  {
    hide CurveHopBuy, CurveHopSell, PoolHopBuy, PoolHopSell, ComputeBondingCurveFeeBps, ComputeAmmFeeBps;
    if hop.CurveHop? {
      FlagsCarryHopFees(legs, CurveBps(0, 0));
      forall bps: CurveBps | true
        ensures var curve' := WithCashback(hop, cashback).curve;
                && CurveHopBuy(markets.global, hop.curve, hop.baseAtaAmount, markets.user, amount, bps)
                   == CurveHopBuy(markets.global, curve', hop.baseAtaAmount, markets.user, amount, bps)
                && CurveHopSell(hop.curve, amount, bps) == CurveHopSell(curve', amount, bps)
      {
        SameReservesSameFill(markets.global, hop.curve, WithCashback(hop, cashback).curve, hop.baseAtaAmount,
                             markets.user, amount, bps);
      }
    }
  }

  /** A route does not mind cashback coins anywhere but at its far end. */
  lemma {:induction false} CashbackMattersAtFarEnd(
    markets: Markets, hops: seq<RouteHop>, i: nat, cashback: bool, isBuy: bool, amountIn: u64, k: nat)
    requires PriceableRoute(hops) && i < |hops| && k <= |hops| && i != FarEnd(isBuy, |hops|)
    ensures var hops' := hops[i := WithCashback(hops[i], cashback)];
            && PriceableRoute(hops') && Keys(hops') == Keys(hops)
            && AmountAfter(markets, hops', isBuy, amountIn, k) == AmountAfter(markets, hops, isBuy, amountIn, k)
  {
    hide HopQuote;
    if k > 0 {
      CashbackMattersAtFarEnd(markets, hops, i, cashback, isBuy, amountIn, k - 1);
      var amount := AmountAfter(markets, hops, isBuy, amountIn, k - 1);
      if amount.Ok? && k - 1 == i {
        CashbackOnlyBarsCreatorFee(markets, hops[i], cashback, isBuy, amount.value, ForHop(isBuy, i, |hops|));
      }
    }
  }
}
