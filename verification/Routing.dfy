/**
 * Multi-hop routes: continuity check, hop fold and discovery
 * (src/sdk/pump_amm_ix.rs, src/sdk/mod.rs, src/async_client.rs).
 */
module Routing {
  import opened Arithmetic
  import opened State
  import opened Utils
  import opened Curve
  import opened Amm
  import opened Sdk

  function Reverse<T>(s: seq<T>): (r: seq<T>)
    ensures |r| == |s|
    ensures forall i :: 0 <= i < |s| ==> r[i] == s[|s| - 1 - i]
  {
    seq(|s|, i requires 0 <= i < |s| => s[|s| - 1 - i])
  }

  // ---- continuity and direction ----

  /** The mint pair of one hop group. */
  datatype MintPair = MintPair(baseMint: Pubkey, quoteMint: Pubkey)

  datatype RouteState = RouteState(mint: Pubkey, direction: Option<bool>)

  datatype RouteEnds = RouteEnds(isBuy: bool, outMint: Pubkey)

  /** One hop of the route check: a hop fed its quote buys, fed its base sells. */
  function RouteStep(state: RouteState, hop: MintPair): Result<RouteState> {
    if state.mint != hop.quoteMint && state.mint != hop.baseMint then Err(MultiHopDiscontinuousPath) else
    var isBuy := state.mint == hop.quoteMint;
    if state.direction.Some? && state.direction.value != isBuy then Err(MultiHopMixedDirection) else
    Ok(RouteState(if isBuy then hop.baseMint else hop.quoteMint, Some(isBuy)))
  }

  /** State of the check after the first `k` hops. */
  function RouteAfter(inMint: Pubkey, hops: seq<MintPair>, k: nat): Result<RouteState>
    requires k <= |hops|
  {
    if k == 0 then Ok(RouteState(inMint, None)) else
    var state :- RouteAfter(inMint, hops, k - 1);
    RouteStep(state, hops[k - 1])
  }

  function MultiHopRoute(inMint: Pubkey, hops: seq<MintPair>): Result<RouteEnds> {
    var state :- RouteAfter(inMint, hops, |hops|);
    match state.direction
    case Some(isBuy) => Ok(RouteEnds(isBuy, state.mint))
    case None => Err(MultiHopDiscontinuousPath)
  }

  /** The check as the source runs it, updating the running mint and the direction hop by hop. */
  method CheckRoute(inMint: Pubkey, hops: seq<MintPair>) returns (r: Result<RouteEnds>)
    ensures r == MultiHopRoute(inMint, hops)
  {
    var mint := inMint;
    var direction: Option<bool> := None;
    for i := 0 to |hops|
      invariant RouteAfter(inMint, hops, i) == Ok(RouteState(mint, direction))
    {
      var hop := hops[i];
      ghost var next := RouteStep(RouteState(mint, direction), hop);
      assert RouteAfter(inMint, hops, i + 1) == next;
      var isBuy;
      if mint == hop.quoteMint {
        isBuy := true;
      } else if mint == hop.baseMint {
        isBuy := false;
      } else {
        FailureSticks(inMint, hops, i + 1, |hops|);
        return Err(MultiHopDiscontinuousPath);
      }
      if direction.None? {
        direction := Some(isBuy);
      }
      if direction.value != isBuy {
        FailureSticks(inMint, hops, i + 1, |hops|);
        return Err(MultiHopMixedDirection);
      }
      mint := if isBuy then hop.baseMint else hop.quoteMint;
    }
    match direction
    case Some(isBuy) => return Ok(RouteEnds(isBuy, mint));
    case None => return Err(MultiHopDiscontinuousPath);
  }

  /** Once a hop fails, the route fails with that error. */
  lemma {:induction false} FailureSticks(inMint: Pubkey, hops: seq<MintPair>, k: nat, n: nat)
    requires k <= n <= |hops| && RouteAfter(inMint, hops, k).Err?
    ensures RouteAfter(inMint, hops, n) == RouteAfter(inMint, hops, k)
  {
    if k < n {
      FailureSticks(inMint, hops, k, n - 1);
    }
  }

  // ---- quoting a route ----

  /** One venue with the pre-trade state it is priced on. */
  datatype RouteHop =
    | PoolHop(pool: Pool, baseReserve: u64, quoteVaultBalance: u64, baseMintSupply: u64)
    | CurveHop(mint: Pubkey, curve: BondingCurve, mintSupply: u64, baseAtaAmount: u64)
  {
    function Mints(): MintPair {
      match this
      case PoolHop(pool, _, _, _) => MintPair(pool.baseMint, pool.quoteMint)
      case CurveHop(mint, curve, _, _) => MintPair(mint, ResolveQuoteMint(curve.quoteMint))
    }
  }

  /** The program-wide accounts a route is priced with. */
  datatype Markets = Markets(
    global: Global,
    pumpFeeConfig: FeeConfig,
    globalConfig: GlobalConfig,
    ammFeeConfig: FeeConfig,
    user: Pubkey)

  /** Open curves on the route have a token side to price. */
  ghost predicate PriceableRoute(hops: seq<RouteHop>) {
    forall i :: 0 <= i < |hops| && hops[i].CurveHop? ==> Priceable(hops[i].curve)
  }

  function Keys(hops: seq<RouteHop>): (r: seq<MintPair>)
    ensures |r| == |hops|
    ensures forall i :: 0 <= i < |hops| ==> r[i] == hops[i].Mints()
  {
    seq(|hops|, i requires 0 <= i < |hops| => hops[i].Mints())
  }

  function HopQuote(markets: Markets, hop: RouteHop, isBuy: bool, amount: u64, legs: HopFees): (r: Result<u64>)
    requires hop.CurveHop? ==> Priceable(hop.curve)
  {
    match hop
    case PoolHop(pool, baseReserve, quoteVaultBalance, baseMintSupply) =>
      MultiHopPoolHop(markets.globalConfig, markets.ammFeeConfig, pool, baseReserve, quoteVaultBalance,
                      baseMintSupply, isBuy, amount, legs)
    case CurveHop(_, curve, mintSupply, baseAtaAmount) =>
      MultiHopCurveHop(markets.global, markets.pumpFeeConfig, curve, mintSupply, baseAtaAmount,
                       markets.user, isBuy, amount, legs.CurveFlags())
  }

  /** Amount held after the first `k` hops. */
  function AmountAfter(markets: Markets, hops: seq<RouteHop>, isBuy: bool, amountIn: u64, k: nat): Result<u64>
    requires k <= |hops| && PriceableRoute(hops)
  {
    if k == 0 then Ok(amountIn) else
    var amount :- AmountAfter(markets, hops, isBuy, amountIn, k - 1);
    HopQuote(markets, hops[k - 1], isBuy, amount, ForHop(isBuy, k - 1, |hops|))
  }

  function QuoteMultiHopSwap(
    markets: Markets, inMint: Pubkey, hops: seq<RouteHop>, amountIn: u64, slippageBps: nat): (r: Result<Quote>)
    requires PriceableRoute(hops) && slippageBps <= 0xFFFF
  {
    if amountIn == 0 then Err(ZeroAmount) else
    var ends :- MultiHopRoute(inMint, Keys(hops));
    var amount :- AmountAfter(markets, hops, ends.isBuy, amountIn, |hops|);
    var minOut := SubSlippage(amount, slippageBps);
    Ok(Quote(amount, if minOut >= 1 then minOut else 1, amountIn, amountIn))
  }

  lemma {:induction false} AmountFailureSticks(
    markets: Markets, hops: seq<RouteHop>, isBuy: bool, amountIn: u64, k: nat, n: nat)
    requires PriceableRoute(hops) && k <= n <= |hops|
    requires AmountAfter(markets, hops, isBuy, amountIn, k).Err?
    ensures AmountAfter(markets, hops, isBuy, amountIn, n) == AmountAfter(markets, hops, isBuy, amountIn, k)
  {
    hide HopQuote;
    if k < n {
      AmountFailureSticks(markets, hops, isBuy, amountIn, k, n - 1);
    }
  }

  /** The quote as the source runs it: the amount is carried from hop to hop. */
  method QuoteRoute(markets: Markets, inMint: Pubkey, hops: seq<RouteHop>, amountIn: u64, slippageBps: nat)
    returns (r: Result<Quote>)
    requires PriceableRoute(hops) && slippageBps <= 0xFFFF
    ensures r == QuoteMultiHopSwap(markets, inMint, hops, amountIn, slippageBps)
  {
    hide HopQuote, SubSlippage, MultiHopRoute;
    if amountIn == 0 {
      return Err(ZeroAmount);
    }
    var ends :- CheckRoute(inMint, Keys(hops));
    var amount := amountIn;
    for i := 0 to |hops|
      invariant AmountAfter(markets, hops, ends.isBuy, amountIn, i) == Ok(amount)
    {
      var next := HopQuote(markets, hops[i], ends.isBuy, amount, ForHop(ends.isBuy, i, |hops|));
      assert AmountAfter(markets, hops, ends.isBuy, amountIn, i + 1) == next;
      if next.Err? {
        AmountFailureSticks(markets, hops, ends.isBuy, amountIn, i + 1, |hops|);
        return Err(next.error);
      }
      amount := next.value;
    }
    var minOut := SubSlippage(amount, slippageBps);
    return Ok(Quote(amount, if minOut >= 1 then minOut else 1, amountIn, amountIn));
  }

  // ---- discovery ----

  /** The accounts discovery and the later state fetch can see. */
  datatype Ledger = Ledger(curves: map<Pubkey, BondingCurve>, pools: map<Pubkey, Pool>)

  datatype RouteVenue = PoolVenue(address: Pubkey) | CurveVenue(mint: Pubkey)

  /** A route in buy order, from the root currency to the coin. */
  datatype DiscoveredRoute = DiscoveredRoute(inMint: Pubkey, outMint: Pubkey, venues: seq<RouteVenue>) {
    /** Input mint and venues in path order: as stored for a buy, reversed for a sell. */
    function Path(isBuy: bool): (Pubkey, seq<RouteVenue>) {
      if isBuy then (inMint, venues) else (outMint, Reverse(venues))
    }
  }

  const MAX_HOPS: nat := 8

  function CurveQuote(curve: BondingCurve): Pubkey {
    ResolveQuoteMint(curve.quoteMint)
  }

  /** Where the walk trades a mint: on its curve while that is open, else in the pool derived from its mints. */
  function VenueOf(mint: Pubkey, curve: BondingCurve): RouteVenue {
    if curve.complete then PoolVenue(CanonicalPool(mint, CurveQuote(curve))) else CurveVenue(mint)
  }

  /** The mint pair the state fetch reads off a venue. */
  function VenueMints(ledger: Ledger, venue: RouteVenue): Option<MintPair> {
    match venue
    case PoolVenue(address) =>
      if address in ledger.pools then
        Some(MintPair(ledger.pools[address].baseMint, ledger.pools[address].quoteMint))
      else None
    case CurveVenue(mint) =>
      if mint in ledger.curves then Some(MintPair(mint, CurveQuote(ledger.curves[mint]))) else None
  }

  /** A complete curve's pool exists at its canonical address and stores the curve's mints. */
  predicate HasCanonicalPool(ledger: Ledger, mint: Pubkey)
    requires mint in ledger.curves
  {
    var quote := CurveQuote(ledger.curves[mint]);
    var address := CanonicalPool(mint, quote);
    && address in ledger.pools
    && ledger.pools[address].baseMint == mint
    && ledger.pools[address].quoteMint == quote
  }

  /** The mint reached after `k` steps down the quote chain; every step needs a curve. */
  function ChainMint(ledger: Ledger, outMint: Pubkey, k: nat): Option<Pubkey> {
    if k == 0 then Some(outMint) else
    match ChainMint(ledger, outMint, k - 1)
    case Some(mint) => if mint in ledger.curves then Some(CurveQuote(ledger.curves[mint])) else None
    case None => None
  }

  lemma ChainStart(ledger: Ledger, outMint: Pubkey)
    ensures ChainMint(ledger, outMint, 0) == Some(outMint)
  {}

  lemma ChainStep(ledger: Ledger, outMint: Pubkey, k: nat)
    requires ChainMint(ledger, outMint, k).Some? && ChainMint(ledger, outMint, k).value in ledger.curves
    ensures ChainMint(ledger, outMint, k + 1) == Some(CurveQuote(ledger.curves[ChainMint(ledger, outMint, k).value]))
  {}

  /** `n` is where the walk stops: at the requested mint, at a mint without a curve, or at the hop limit. */
  ghost predicate WalkStopsAt(ledger: Ledger, outMint: Pubkey, stopAt: Option<Pubkey>, n: nat) {
    && n <= MAX_HOPS
    && ChainMint(ledger, outMint, n).Some?
    && (n == MAX_HOPS || stopAt == ChainMint(ledger, outMint, n)
        || ChainMint(ledger, outMint, n).value !in ledger.curves)
    && forall k :: 0 <= k < n ==>
         && ChainMint(ledger, outMint, k).Some?
         && stopAt != ChainMint(ledger, outMint, k)
         && ChainMint(ledger, outMint, k).value in ledger.curves
  }

  /** The venues of the first `n` steps, in walk order. */
  ghost predicate WalkVenues(ledger: Ledger, outMint: Pubkey, venues: seq<RouteVenue>) {
    forall k :: 0 <= k < |venues| ==>
      && ChainMint(ledger, outMint, k).Some?
      && ChainMint(ledger, outMint, k).value in ledger.curves
      && venues[k] == VenueOf(ChainMint(ledger, outMint, k).value, ledger.curves[ChainMint(ledger, outMint, k).value])
  }

  /** A route whose venues are consecutive steps down the quote chain, ending at its input mint. */
  ghost predicate WalkedRoute(ledger: Ledger, route: DiscoveredRoute) {
    && |route.venues| >= 1
    && Some(route.inMint) == ChainMint(ledger, route.outMint, |route.venues|)
    && WalkVenues(ledger, route.outMint, Reverse(route.venues))
  }

  /** The walk back from `outMint` along the quote chain; none when it takes no step. */
  method DiscoverRoute(ledger: Ledger, outMint: Pubkey, stopAt: Option<Pubkey>)
    returns (route: Option<DiscoveredRoute>)
    ensures route.None? <==> stopAt == Some(outMint) || outMint !in ledger.curves
    ensures route.Some? ==>
              && route.value.outMint == outMint
              && 1 <= |route.value.venues| <= MAX_HOPS
              && WalkedRoute(ledger, route.value)
              && WalkStopsAt(ledger, outMint, stopAt, |route.value.venues|)
  {
    hide ChainMint;
    ChainStart(ledger, outMint);
    var venues: seq<RouteVenue> := [];
    var mint := outMint;
    while stopAt != Some(mint) && |venues| < MAX_HOPS
      invariant |venues| <= MAX_HOPS
      invariant ChainMint(ledger, outMint, |venues|) == Some(mint)
      invariant WalkVenues(ledger, outMint, venues)
      invariant forall k :: 0 <= k < |venues| ==> stopAt != ChainMint(ledger, outMint, k)
      decreases MAX_HOPS - |venues|
    {
      if mint !in ledger.curves {
        break;
      }
      var curve := ledger.curves[mint];
      ChainStep(ledger, outMint, |venues|);
      venues := venues + [VenueOf(mint, curve)];
      mint := CurveQuote(curve);
    }
    assert WalkStopsAt(ledger, outMint, stopAt, |venues|);
    if venues == [] {
      return None;
    }
    assert stopAt != ChainMint(ledger, outMint, 0);
    assert Reverse(Reverse(venues)) == venues;
    return Some(DiscoveredRoute(mint, outMint, Reverse(venues)));
  }
}
