/** The zero key and wrapped SOL name one quote: in discovery, in the route check and in every price. */
module WrappedSol {
  import opened Arithmetic
  import opened State
  import opened Fee
  import opened Curve
  import opened Amm
  import opened Routing
  import opened RouteFees

  /** No discovered route starts at the zero key, however its curves spell their quote. */
  lemma DiscoveryStartsAtMint(ledger: Ledger, route: DiscoveredRoute)
    requires WalkedRoute(ledger, route)
    ensures route.inMint != DefaultKey
  {}

  /**
   * Wrapped SOL buys through any curve stored with the zero key, and is what selling on it returns;
   * any other stored quote, the Token-2022 native mint included, trades as itself.
   */
  lemma CurveTradesItsQuote(
    mint: Pubkey, curve: BondingCurve, mintSupply: u64, baseAtaAmount: u64, quoteMint: Pubkey)
    requires curve.quoteMint == quoteMint != mint || (curve.quoteMint == DefaultKey && quoteMint == NativeMint != mint)
    requires quoteMint != DefaultKey
    ensures var keys := Keys([CurveHop(mint, curve, mintSupply, baseAtaAmount)]);
            && MultiHopRoute(quoteMint, keys) == Ok(RouteEnds(true, mint))
            && MultiHopRoute(mint, keys) == Ok(RouteEnds(false, quoteMint))
  {
    var keys := Keys([CurveHop(mint, curve, mintSupply, baseAtaAmount)]);
    assert RouteAfter(quoteMint, keys, 0) == Ok(RouteState(quoteMint, None));
    assert RouteAfter(mint, keys, 0) == Ok(RouteState(mint, None));
  }

  /** Curves that may differ in spelling their quote as the zero key or as wrapped SOL, in nothing else. */
  predicate SameButSpelling(curve: BondingCurve, curve': BondingCurve) {
    && curve' == curve.(quoteMint := curve'.quoteMint)
    && (curve.quoteMint == curve'.quoteMint || {curve.quoteMint, curve'.quoteMint} == {DefaultKey, NativeMint})
  }

  predicate SameHop(hop: RouteHop, hop': RouteHop) {
    || hop == hop'
    || (hop.CurveHop? && hop'.CurveHop? && SameButSpelling(hop.curve, hop'.curve)
        && hop' == hop.(curve := hop'.curve))
  }

  predicate SameRoute(hops: seq<RouteHop>, hops': seq<RouteHop>) {
    |hops| == |hops'| && forall i :: 0 <= i < |hops| ==> SameHop(hops[i], hops'[i])
  }

  lemma SpellingKeepsRates(global: Global, cfg: FeeConfig, curve: BondingCurve, curve': BondingCurve, mintSupply: u64)
    requires SameButSpelling(curve, curve') && curve.virtualTokenReserves > 0
    ensures CurveFeeBps(global, cfg, curve, mintSupply) == CurveFeeBps(global, cfg, curve', mintSupply)
  {
    hide Floor, CalculateFeeTier;
  }

  lemma SpellingKeepsHop(markets: Markets, hop: RouteHop, hop': RouteHop, isBuy: bool, amount: u64, legs: HopFees)
    requires SameHop(hop, hop') && (hop.CurveHop? ==> Priceable(hop.curve))
    ensures hop.Mints() == hop'.Mints()
    ensures HopQuote(markets, hop, isBuy, amount, legs) == HopQuote(markets, hop', isBuy, amount, legs)
  {
    hide CurveFeeBps, CurveHopBuy, CurveHopSell, MultiHopPoolHop, HopBps;
    if hop.CurveHop? {
      forall bps: CurveBps | true
        ensures CurveHopBuy(markets.global, hop.curve, hop.baseAtaAmount, markets.user, amount, bps)
                == CurveHopBuy(markets.global, hop'.curve, hop.baseAtaAmount, markets.user, amount, bps)
        ensures CurveHopSell(hop.curve, amount, bps) == CurveHopSell(hop'.curve, amount, bps)
      {
        SameReservesSameFill(markets.global, hop.curve, hop'.curve, hop.baseAtaAmount, markets.user, amount, bps);
      }
      if hop.curve.virtualTokenReserves > 0 {
        SpellingKeepsRates(markets.global, markets.pumpFeeConfig, hop.curve, hop'.curve, hop.mintSupply);
      }
    }
  }

  lemma {:induction false} SpellingKeepsAmounts(
    markets: Markets, hops: seq<RouteHop>, hops': seq<RouteHop>, isBuy: bool, amountIn: u64, k: nat)
    requires SameRoute(hops, hops') && PriceableRoute(hops) && PriceableRoute(hops') && k <= |hops|
    ensures AmountAfter(markets, hops, isBuy, amountIn, k) == AmountAfter(markets, hops', isBuy, amountIn, k)
  {
    hide HopQuote, SameHop;
    if k > 0 {
      SpellingKeepsAmounts(markets, hops, hops', isBuy, amountIn, k - 1);
      var amount := AmountAfter(markets, hops, isBuy, amountIn, k - 1);
      if amount.Ok? {
        SpellingKeepsHop(markets, hops[k - 1], hops'[k - 1], isBuy, amount.value, ForHop(isBuy, k - 1, |hops|));
      }
    }
  }

  /** A route's quote, its refusals included, does not depend on the spelling. */
  lemma SpellingKeepsRouteQuote(
    markets: Markets, inMint: Pubkey, hops: seq<RouteHop>, hops': seq<RouteHop>, amountIn: u64, slippageBps: nat)
    requires SameRoute(hops, hops') && PriceableRoute(hops) && PriceableRoute(hops') && slippageBps <= 0xFFFF
    ensures QuoteMultiHopSwap(markets, inMint, hops, amountIn, slippageBps)
            == QuoteMultiHopSwap(markets, inMint, hops', amountIn, slippageBps)
  {
    hide HopQuote, SameHop, MultiHopRoute, AmountAfter;
    assert Keys(hops) == Keys(hops') by {
      forall i | 0 <= i < |hops|
        ensures hops[i].Mints() == hops'[i].Mints()
      {
        assert SameHop(hops[i], hops'[i]);
        SpellingKeepsHop(markets, hops[i], hops'[i], true, 0, HopFees(false, false, false));
      }
    }
    forall isBuy | true
      ensures AmountAfter(markets, hops, isBuy, amountIn, |hops|)
              == AmountAfter(markets, hops', isBuy, amountIn, |hops|)
    {
      SpellingKeepsAmounts(markets, hops, hops', isBuy, amountIn, |hops|);
    }
  }

  /** The same accounts, some curves spelling their quote the other way. */
  predicate SameLedger(ledger: Ledger, ledger': Ledger) {
    && ledger.pools == ledger'.pools && ledger.curves.Keys == ledger'.curves.Keys
    && forall mint :: mint in ledger.curves ==> SameButSpelling(ledger.curves[mint], ledger'.curves[mint])
  }

  lemma SpellingKeepsQuote(ledger: Ledger, ledger': Ledger, mint: Pubkey)
    requires SameLedger(ledger, ledger')
    ensures mint in ledger.curves <==> mint in ledger'.curves
    ensures mint in ledger.curves ==> CurveQuote(ledger.curves[mint]) == CurveQuote(ledger'.curves[mint])
  {
    assert mint in ledger.curves.Keys <==> mint in ledger'.curves.Keys;
  }

  lemma {:induction false} SpellingKeepsChain(ledger: Ledger, ledger': Ledger, outMint: Pubkey, k: nat)
    requires SameLedger(ledger, ledger')
    ensures ChainMint(ledger, outMint, k) == ChainMint(ledger', outMint, k)
  {
    hide SameLedger, CurveQuote;
    if k > 0 {
      SpellingKeepsChain(ledger, ledger', outMint, k - 1);
      if ChainMint(ledger, outMint, k - 1).Some? {
        SpellingKeepsQuote(ledger, ledger', ChainMint(ledger, outMint, k - 1).value);
      }
    }
  }

  /** What discovery returns, its stopping point included, does not depend on the spelling. */
  lemma SpellingKeepsDiscovery(ledger: Ledger, ledger': Ledger, route: DiscoveredRoute, stopAt: Option<Pubkey>)
    requires SameLedger(ledger, ledger') && WalkedRoute(ledger, route)
    requires WalkStopsAt(ledger, route.outMint, stopAt, |route.venues|)
    ensures WalkedRoute(ledger', route) && WalkStopsAt(ledger', route.outMint, stopAt, |route.venues|)
  {
    hide ChainMint;
    forall k: nat | true
      ensures ChainMint(ledger, route.outMint, k) == ChainMint(ledger', route.outMint, k)
    {
      SpellingKeepsChain(ledger, ledger', route.outMint, k);
    }
  }

  /** A walk stops in one place only, so discovery has one answer. */
  lemma DiscoveryIsDetermined(ledger: Ledger, route: DiscoveredRoute, route': DiscoveredRoute, stopAt: Option<Pubkey>)
    requires route.outMint == route'.outMint && WalkedRoute(ledger, route) && WalkedRoute(ledger, route')
    requires WalkStopsAt(ledger, route.outMint, stopAt, |route.venues|)
    requires WalkStopsAt(ledger, route.outMint, stopAt, |route'.venues|)
    ensures route == route'
  {
    hide ChainMint;
    assert |route.venues| == |route'.venues|;
    var n := |route.venues|;
    forall i | 0 <= i < n
      ensures route.venues[i] == route'.venues[i]
    {
      assert Reverse(route.venues)[n - 1 - i] == Reverse(route'.venues)[n - 1 - i];
    }
  }
}
