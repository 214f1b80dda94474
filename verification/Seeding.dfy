/** Creation of a curve and the seed of a curve quoted in another pump coin (src/sdk/pump_v2.rs). */
module Seeding {
  import opened Arithmetic
  import opened State
  import opened Utils
  import opened Curve
  import opened Amm
  import opened Sdk

  datatype QuoteControlMint = QuoteControlMint(mint: Pubkey, initialVirtualQuoteReserves: u64)

  /** A migrated quote coin's pool with its base and quote vault balances. */
  datatype QuotePool = QuotePool(pool: Pool, baseVault: u64, quoteVault: u64)

  datatype Seed = Seed(virtualQuoteReserves: u64, depth: u8)

  datatype PricedReserves = PricedReserves(base: u64, quote: u128)

  /** The curve a creation would initialise. */
  function InitialBondingCurve(
    global: Global, creator: Pubkey, quoteMint: Pubkey, virtualQuoteReserves: u64,
    mayhemMode: bool, cashback: bool, creatorFeeBps: u64): BondingCurve
  {
    BondingCurve(
      global.initialVirtualTokenReserves, virtualQuoteReserves, global.initialRealTokenReserves, 0,
      global.tokenTotalSupply, false, creator, mayhemMode, cashback, ResolveQuoteMint(quoteMint), creatorFeeBps,
      0, virtualQuoteReserves, 0, 0)
  }

  /** The first entry for a mint. */
  function FindQuoteControl(mints: seq<QuoteControlMint>, mint: Pubkey): (r: Option<u64>)
    ensures r.None? <==> forall i :: 0 <= i < |mints| ==> mints[i].mint != mint
    ensures r.Some? ==>
              exists i :: 0 <= i < |mints| && mints[i] == QuoteControlMint(mint, r.value)
                          && forall j :: 0 <= j < i ==> mints[j].mint != mint
  {
    if mints == [] then None
    else if mints[0].mint == mint then Some(mints[0].initialVirtualQuoteReserves)
    else FindQuoteControl(mints[1..], mint)
  }

  /** Seed of a curve created directly in a quote; none where no configuration admits the quote. */
  function InitialVirtualQuoteReserves(
    global: Global, quoteControl: seq<QuoteControlMint>, quoteMint: Pubkey): Option<u64>
  {
    if quoteMint == DefaultKey || quoteMint == NativeMint then Some(global.initialVirtualSolReserves)
    else if quoteMint in global.whitelistedQuoteMints then Some(global.initialVirtualQuoteReserves)
    else FindQuoteControl(quoteControl, quoteMint)
  }

  /** The seed a fresh curve in the quote coin's own quote would get, or a deeper coin's stored seed. */
  function TargetSeed(global: Global, quoteControl: seq<QuoteControlMint>, quoteCurve: BondingCurve): Result<u64> {
    var q := quoteCurve.quoteMint;
    if quoteCurve.depth > 0 then Ok(quoteCurve.initialVirtualQuoteReserves)
    else if q == DefaultKey then Ok(global.initialVirtualSolReserves)
    else if q == NativeMint || q in global.whitelistedQuoteMints then Ok(global.initialVirtualQuoteReserves)
    else
      match FindQuoteControl(quoteControl, q)
      case Some(seed) => Ok(seed)
      case None => Err(QuoteCurveNotEligible)
  }

  /** All four reserves of a migrated curve are zero. */
  predicate HasMigrated(curve: BondingCurve) {
    && curve.realQuoteReserves == 0 && curve.virtualQuoteReserves == 0
    && curve.realTokenReserves == 0 && curve.virtualTokenReserves == 0
  }

  /** The constant product the quote coin trades on: its curve, or its pool once it migrated. */
  function QuoteCoinReserves(quoteCurve: BondingCurve, quotePool: Option<QuotePool>): Result<PricedReserves> {
    if HasMigrated(quoteCurve) then
      match quotePool
      case None => Err(QuotePoolAccountsRequired)
      case Some(p) =>
        var quote := p.quoteVault + p.pool.virtualQuoteReserves;
        if 0 <= quote <= I128_MAX then Ok(PricedReserves(p.baseVault, quote)) else Err(MathOverflow)
    else if quoteCurve.complete then Err(QuoteCurveAwaitingMigration)
    else Ok(PricedReserves(quoteCurve.virtualTokenReserves, quoteCurve.virtualQuoteReserves))
  }

  /** Target's raise bought on the quote coin's constant product: three chained floors, each checked. */
  function SeedForRaise(global: Global, target: u64, reserves: PricedReserves): (r: Result<u64>)
  {
    if reserves.quote == 0 then Err(MathOverflow) else
    var sold := global.initialRealTokenReserves;
    if global.initialVirtualTokenReserves < sold then Err(MathOverflow) else
    var unsold := global.initialVirtualTokenReserves - sold;
    var targetRaise :- MulDivU128(target, sold, unsold);
    var raise :- SwapExactInput(targetRaise, reserves.quote, reserves.base);
    var derived :- MulDivU128(raise, unsold, sold);
    if derived > U64_MAX then Err(MathOverflow)
    else if derived == 0 then Err(QuoteReservesOutOfRange)
    else Ok(derived)
  }

  function PumpQuoteInitialVirtualQuoteReserves(
    global: Global, quoteControl: seq<QuoteControlMint>, quoteCurve: BondingCurve, quotePool: Option<QuotePool>)
    : (r: Result<Seed>)
  {
    if quoteCurve.depth == 0xFF then Err(MathOverflow) else
    var depth := quoteCurve.depth + 1;
    if depth > global.maxCurveDepth then Err(CurveDepthExceeded) else
    if quoteCurve.isMayhemMode then Err(QuoteCurveNotEligible) else
    var target :- TargetSeed(global, quoteControl, quoteCurve);
    var reserves :- QuoteCoinReserves(quoteCurve, quotePool);
    var derived :- SeedForRaise(global, target, reserves);
    Ok(Seed(derived, depth))
  }

  // ---- what the derived seed is worth ----

  function Unsold(global: Global): int {
    global.initialVirtualTokenReserves - global.initialRealTokenReserves
  }

  /** The quote coins that Target's graduation raise buys: the new curve's intended raise. */
  function Raise(global: Global, target: u64, reserves: PricedReserves): nat
    requires reserves.quote > 0 && Unsold(global) > 0
  {
    CpOut(Floor(target * global.initialRealTokenReserves, Unsold(global)), reserves.quote, reserves.base)
  }

  lemma SeedUnfold(global: Global, target: u64, reserves: PricedReserves)
    requires SeedForRaise(global, target, reserves).Ok?
    ensures reserves.quote > 0 && Unsold(global) > 0 && global.initialRealTokenReserves > 0
    ensures SeedForRaise(global, target, reserves).value
            == Floor(Raise(global, target, reserves) * Unsold(global), global.initialRealTokenReserves)
            > 0
    ensures Raise(global, target, reserves) > 0
  {}

  /** Scaling a raise down to a seed and pricing the completion back up loses less than one seed unit's worth. */
  lemma ScaledBack(raise: nat, sold: nat, unsold: nat)
    requires sold > 0 && unsold > 0
    ensures var seed := Floor(raise * unsold, sold);
            var cost := Floor(sold * seed, unsold) + 1;
            cost <= raise + 1 && cost * unsold > raise * unsold - sold
  {
    var seed := Floor(raise * unsold, sold);
    FloorGalois(raise * unsold, sold, seed);
    FloorGalois(raise * unsold, sold, seed + 1);
    assert (seed + 1) * sold == seed * sold + sold;
    var cost := Floor(sold * seed, unsold) + 1;
    FloorGalois(sold * seed, unsold, raise + 1);
    FloorGalois(sold * seed, unsold, cost);
    assert (raise + 1) * unsold == raise * unsold + unsold;
  }

  /**
   * A curve built from a derived seed costs `C` to complete, where `C` is the intended raise up to
   * rounding (at most one more, short by less than the worth of one seed unit) and never more
   * than the quote coin's base side holds.
   */
  lemma SeedCompletesAtRaise(
    global: Global, target: u64, reserves: PricedReserves,
    creator: Pubkey, quoteMint: Pubkey, mayhemMode: bool, cashback: bool, creatorFeeBps: u64)
    requires SeedForRaise(global, target, reserves).Ok?
    ensures var child := InitialBondingCurve(
              global, creator, quoteMint, SeedForRaise(global, target, reserves).value,
              mayhemMode, cashback, creatorFeeBps);
            var completion := BuyQuote(child, child.realTokenReserves);
            && completion.Ok?
            && Unsold(global) > 0 && reserves.quote > 0
            && completion.value <= Raise(global, target, reserves) + 1
            && completion.value * Unsold(global)
               > Raise(global, target, reserves) * Unsold(global) - global.initialRealTokenReserves
            && completion.value <= reserves.base
  {
    hide CpOut, TokenCost, Raise, SeedForRaise;
    SeedUnfold(global, target, reserves);
    var raise, sold, unsold := Raise(global, target, reserves), global.initialRealTokenReserves, Unsold(global);
    ScaledBack(raise, sold, unsold);
    RaiseBelowBase(global, target, reserves);
    CompletionCost(InitialBondingCurve(global, creator, quoteMint, SeedForRaise(global, target, reserves).value,
                                       mayhemMode, cashback, creatorFeeBps), sold, unsold);
  }

  lemma CompletionCost(curve: BondingCurve, sold: nat, unsold: nat)
    requires curve.virtualTokenReserves == sold + unsold && unsold > 0
    ensures TokenCost(curve, sold) == Floor(sold * curve.virtualQuoteReserves, unsold) + 1
  {}

  lemma RaiseBelowBase(global: Global, target: u64, reserves: PricedReserves)
    requires reserves.quote > 0 && Unsold(global) > 0
    ensures Raise(global, target, reserves) > 0 ==> Raise(global, target, reserves) < reserves.base
  {
    var m := Floor(target * global.initialRealTokenReserves, Unsold(global));
    CpBelowReserve(m, reserves.quote, reserves.base);
  }

  /** The same, for the whole derivation with its eligibility checks. */
  lemma DerivedSeedCompletesAtRaise(
    global: Global, quoteControl: seq<QuoteControlMint>, quoteCurve: BondingCurve, quotePool: Option<QuotePool>,
    creator: Pubkey, quoteMint: Pubkey, creatorFeeBps: u64)
    requires PumpQuoteInitialVirtualQuoteReserves(global, quoteControl, quoteCurve, quotePool).Ok?
    ensures TargetSeed(global, quoteControl, quoteCurve).Ok? && QuoteCoinReserves(quoteCurve, quotePool).Ok?
    ensures var seed := PumpQuoteInitialVirtualQuoteReserves(global, quoteControl, quoteCurve, quotePool).value;
            var target, reserves := TargetSeed(global, quoteControl, quoteCurve).value,
                                    QuoteCoinReserves(quoteCurve, quotePool).value;
            var child := InitialBondingCurve(
              global, creator, quoteMint, seed.virtualQuoteReserves, false, false, creatorFeeBps);
            var completion := BuyQuote(child, child.realTokenReserves);
            && 1 <= seed.depth == quoteCurve.depth + 1 <= global.maxCurveDepth
            && seed.virtualQuoteReserves >= 1
            && completion.Ok?
            && Unsold(global) > 0 && reserves.quote > 0
            && completion.value <= Raise(global, target, reserves) + 1
            && completion.value * Unsold(global)
               > Raise(global, target, reserves) * Unsold(global) - global.initialRealTokenReserves
            && completion.value <= reserves.base
  {
    var target, reserves := TargetSeed(global, quoteControl, quoteCurve).value,
                            QuoteCoinReserves(quoteCurve, quotePool).value;
    SeedUnfold(global, target, reserves);
    SeedCompletesAtRaise(global, target, reserves, creator, quoteMint, false, false, creatorFeeBps);
  }

  /**
   * Priced on a curve that has sold tokens since a start at `target`, the raise is at most the
   * tokens a curve sells and the seed at most the tokens it keeps.
   */
  lemma SeedOnOpenCurve(global: Global, target: u64, reserves: PricedReserves)
    requires SeedForRaise(global, target, reserves).Ok?
    requires reserves.base <= global.initialVirtualTokenReserves && reserves.quote >= target
    ensures reserves.quote > 0 && Unsold(global) > 0
    ensures Raise(global, target, reserves) <= global.initialRealTokenReserves
    ensures SeedForRaise(global, target, reserves).value <= Unsold(global)
  {
    hide CpOut, SeedForRaise;
    SeedUnfold(global, target, reserves);
    var sold, unsold, raise := global.initialRealTokenReserves, Unsold(global), Raise(global, target, reserves);
    var m := Floor(target * sold, unsold);
    RaiseAtMostSold(target, sold, unsold, m, reserves.quote, reserves.base);
    ScaledSeedAtMost(raise, sold, unsold);
  }

  lemma ScaledSeedAtMost(raise: nat, sold: nat, unsold: nat)
    requires raise <= sold && sold > 0
    ensures Floor(raise * unsold, sold) <= unsold
  {
    MulLe(raise, sold, unsold);
    FloorGalois(raise * unsold, sold, unsold + 1);
    assert (unsold + 1) * sold == unsold * sold + sold;
  }

  lemma RaiseAtMostSold(target: nat, sold: nat, unsold: nat, m: nat, quote: nat, base: nat)
    requires unsold > 0 && quote > 0 && m == Floor(target * sold, unsold)
    requires base <= sold + unsold && quote >= target
    ensures CpOut(m, quote, base) <= sold
  {
    FloorGalois(target * sold, unsold, m);
    MulLe(target, quote, sold);
    MulLe(base - (sold + 1), unsold - 1, m);
    assert (sold + 1) * quote == sold * quote + quote;
    assert m * (unsold - 1) == m * unsold - m;
    CpGalois(m, quote, base, sold + 1);
  }

  /**
   * Which coins can be quoted in: not a mayhem coin, not one at the depth limit, not one waiting for
   * its migration, nor a migrated one without its pool; all others, while the raise can be priced.
   */
  lemma EligibleQuoteCoins(
    global: Global, quoteControl: seq<QuoteControlMint>, coin: BondingCurve, quotePool: Option<QuotePool>)
    ensures PumpQuoteInitialVirtualQuoteReserves(global, quoteControl, coin, quotePool).Ok? <==>
            && !coin.isMayhemMode && coin.depth < global.maxCurveDepth
            && (if HasMigrated(coin) then quotePool.Some? else !coin.complete)
            && TargetSeed(global, quoteControl, coin).Ok? && QuoteCoinReserves(coin, quotePool).Ok?
            && SeedForRaise(global, TargetSeed(global, quoteControl, coin).value,
                            QuoteCoinReserves(coin, quotePool).value).Ok?
  {
    hide SeedForRaise, TargetSeed;
  }

  /** The refusals a creation can meet, in the order they are met, up to pricing the raise. */
  lemma QuoteCoinRefusals(
    global: Global, quoteControl: seq<QuoteControlMint>, coin: BondingCurve, quotePool: Option<QuotePool>)
    ensures var r := PumpQuoteInitialVirtualQuoteReserves(global, quoteControl, coin, quotePool);
            if coin.depth == 0xFF then r == Err(MathOverflow)
            else if coin.depth >= global.maxCurveDepth then r == Err(CurveDepthExceeded)
            else if coin.isMayhemMode then r == Err(QuoteCurveNotEligible)
            else if TargetSeed(global, quoteControl, coin).Err? then r == Err(QuoteCurveNotEligible)
            else if HasMigrated(coin) && quotePool.None? then r == Err(QuotePoolAccountsRequired)
            else if !HasMigrated(coin) && coin.complete then r == Err(QuoteCurveAwaitingMigration)
            else r.Err? ==> r.error == MathOverflow || r.error == QuoteReservesOutOfRange
  {
    hide CpOut, Floor, FindQuoteControl;
  }

  /**
   * The target of a directly quoted coin is the seed such a coin is created with, or neither exists,
   * except that a coin stored with wrapped SOL is created with the SOL seed and has the other as target.
   */
  lemma TargetIsCreationSeed(global: Global, quoteControl: seq<QuoteControlMint>, coin: BondingCurve)
    requires coin.depth == 0
    ensures (match InitialVirtualQuoteReserves(global, quoteControl, coin.quoteMint)
             case Some(seed) => TargetSeed(global, quoteControl, coin) == Ok(seed)
             case None => TargetSeed(global, quoteControl, coin) == Err(QuoteCurveNotEligible))
            <==>
            coin.quoteMint != NativeMint || global.initialVirtualSolReserves == global.initialVirtualQuoteReserves
  {}

  /** The migrated coin as it traded before: the same coin on an open curve holding these virtual reserves. */
  function OnCurve(coin: BondingCurve, virtualTokens: u64, virtualQuote: u64): BondingCurve {
    coin.(complete := false, virtualTokenReserves := virtualTokens, virtualQuoteReserves := virtualQuote)
  }

  /**
   * Migration is no break for the coins quoted in a coin: its pool, priced as the AMM quoters price
   * it, gives a creation the seed and depth its curve gave at the same reserves.
   */
  lemma SeedSurvivesMigration(
    global: Global, quoteControl: seq<QuoteControlMint>, coin: BondingCurve, p: QuotePool,
    globalConfig: GlobalConfig, cfg: FeeConfig, supply: u64, anyPool: Option<QuotePool>)
    requires HasMigrated(coin) && EffectiveQuoteReserve(p.pool, p.quoteVault).Ok?
    requires p.baseVault > 0 || EffectiveQuoteReserve(p.pool, p.quoteVault).value > 0
    ensures var ctx := ContextFor(globalConfig, cfg, LivePool(p.pool, p.baseVault, p.quoteVault, supply));
            ctx.Ok? ==>
              QuoteCoinReserves(coin, Some(p)) == Ok(PricedReserves(ctx.value.baseReserve, ctx.value.quoteReserve))
    ensures var open := OnCurve(coin, p.baseVault, EffectiveQuoteReserve(p.pool, p.quoteVault).value);
            PumpQuoteInitialVirtualQuoteReserves(global, quoteControl, coin, Some(p))
            == PumpQuoteInitialVirtualQuoteReserves(global, quoteControl, open, anyPool)
  {
    hide SeedForRaise;
  }

  /** Without its pool, or with either side of it empty, a migrated coin seeds nothing. */
  lemma MigratedCoinNeedsPool(
    global: Global, quoteControl: seq<QuoteControlMint>, coin: BondingCurve, quotePool: Option<QuotePool>)
    requires HasMigrated(coin) && PumpQuoteInitialVirtualQuoteReserves(global, quoteControl, coin, quotePool).Ok?
    ensures quotePool.Some?
    ensures var p := quotePool.value;
            p.baseVault > 0 && p.quoteVault + p.pool.virtualQuoteReserves > 0
  {
    hide CpOut;
    var reserves := QuoteCoinReserves(coin, quotePool).value;
    SeedUnfold(global, TargetSeed(global, quoteControl, coin).value, reserves);
    RaiseBelowBase(global, TargetSeed(global, quoteControl, coin).value, reserves);
  }

  /** A target of 100 over 800 of 1000 tokens buys 4000 of the 10000 in a pool against 600: a seed of 1000. */
  lemma MigratedSeedExample(global: Global, coin: BondingCurve, pool: Pool)
    requires HasMigrated(coin) && coin.depth == 0 && coin.quoteMint == DefaultKey && !coin.isMayhemMode
    requires global.maxCurveDepth >= 1 && global.initialVirtualSolReserves == 100
    requires global.initialVirtualTokenReserves == 1_000 && global.initialRealTokenReserves == 800
    requires pool.virtualQuoteReserves == 0
    ensures PumpQuoteInitialVirtualQuoteReserves(global, [], coin, Some(QuotePool(pool, 10_000, 600)))
            == Ok(Seed(1_000, 1))
  {
    assert Floor(100 * 800, 200) == 400;
    assert CpOut(400, 600, 10_000) == 4_000;
    assert Floor(4_000 * 200, 800) == 1_000;
  }

  /** Buying the quote coin (fewer tokens, more quote) never raises the seed. */
  lemma SeedFallsAsQuoteCoinIsBought(
    global: Global, target: u64, reserves: PricedReserves, reserves': PricedReserves)
    requires reserves'.base <= reserves.base && reserves.quote <= reserves'.quote
    requires SeedForRaise(global, target, reserves).Ok? && SeedForRaise(global, target, reserves').Ok?
    ensures SeedForRaise(global, target, reserves').value <= SeedForRaise(global, target, reserves).value
  {
    hide CpOut;
    SeedUnfold(global, target, reserves);
    SeedUnfold(global, target, reserves');
    var sold, unsold := global.initialRealTokenReserves, Unsold(global);
    var m := Floor(target * sold, unsold);
    CpAntitone(m, reserves.quote, reserves'.quote, reserves.base, reserves'.base);
    MulLe(Raise(global, target, reserves'), Raise(global, target, reserves), unsold);
    FloorMono(Raise(global, target, reserves') * unsold, Raise(global, target, reserves) * unsold, sold);
  }

  lemma CpAntitone(m: nat, inReserve: nat, inReserve': nat, outReserve: nat, outReserve': nat)
    requires 0 < inReserve <= inReserve' && outReserve' <= outReserve
    ensures CpOut(m, inReserve', outReserve') <= CpOut(m, inReserve, outReserve)
  {
    var out := CpOut(m, inReserve', outReserve');
    CpGalois(m, inReserve', outReserve', out);
    CpGalois(m, inReserve, outReserve, out);
    MulLe(inReserve, inReserve', out);
    MulLe(outReserve' - out, outReserve - out, m);
  }
}
