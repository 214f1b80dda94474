/**
 * Whole trading runs on a fresh curve: every trade is quoted by the SDK and moves the
 * reserves by the quoted net and tokens, as the program's ledger does.
 */
module Runs {
  import opened Arithmetic
  import opened State
  import opened Fee
  import opened Curve
  import opened CurveLaws
  import opened V3Laws
  import opened Sdk
  import opened SdkLaws
  import opened Seeding
  import opened ScheduleLaws

  /** One trade; the live mint supply (which selects the fee tier) may differ from trade to trade. */
  datatype Trade =
    | BuyExactIn(quoteIn: u64, mintSupply: u64)
    | BuyV3ExactIn(quoteIn: u64, mintSupply: u64)
    | BuyTokens(tokenAmount: u64, mintSupply: u64)
    | SellTokens(tokenAmount: u64, mintSupply: u64)

  /** A curve with its base token balance and what traders have paid and received, fees included. */
  datatype Position = Position(curve: BondingCurve, baseAta: u64, paidIn: nat, paidOut: nat)

  /** A configuration curves can start from. */
  predicate CanStart(global: Global, seed: u64) {
    && seed > 0
    && 0 < global.initialVirtualTokenReserves
    && global.initialRealTokenReserves <= global.initialVirtualTokenReserves
    && global.initialRealTokenReserves <= global.tokenTotalSupply
  }

  /**
   * The run invariant. The token sides move together, the quote sides move together, the product of
   * the virtual reserves never falls below its start, and whatever traders paid covers what they
   * received plus the quote still held.
   */
  predicate Sound(global: Global, seed: u64, pos: Position) {
    var c := pos.curve;
    && c.virtualTokenReserves - c.realTokenReserves
       == global.initialVirtualTokenReserves - global.initialRealTokenReserves
    && c.realTokenReserves <= global.initialRealTokenReserves
    && c.virtualQuoteReserves - c.realQuoteReserves == seed
    && pos.baseAta - c.realTokenReserves == global.tokenTotalSupply - global.initialRealTokenReserves
    && c.tokenTotalSupply == global.tokenTotalSupply
    && c.virtualQuoteReserves * c.virtualTokenReserves >= seed * global.initialVirtualTokenReserves
    && pos.paidOut + c.realQuoteReserves <= pos.paidIn
    && c.initialVirtualQuoteReserves == seed
    && c.postCompleteBaseOut == 0 && c.postCompleteQuoteIn == 0
  }

  /** Where a run starts: the curve a creation initialises, holding the whole supply. */
  function Start(
    global: Global, creator: Pubkey, quoteMint: Pubkey, seed: u64, mayhemMode: bool, cashback: bool,
    creatorFeeBps: u64): (start: Position)
    requires CanStart(global, seed)
    ensures Sound(global, seed, start)
  {
    Position(InitialBondingCurve(global, creator, quoteMint, seed, mayhemMode, cashback, creatorFeeBps),
             global.tokenTotalSupply, 0, 0)
  }

  /** Tokens that left the curve and may come back. */
  function Outstanding(global: Global, pos: Position): int {
    global.initialRealTokenReserves - pos.curve.realTokenReserves
  }

  // ---- arithmetic of one move ----

  lemma BuyKeepsProduct(vq: nat, vt: nat, net: nat, tokens: nat)
    requires tokens <= vt && tokens * vq <= net * (vt - tokens)
    ensures (vq + net) * (vt - tokens) >= vq * vt
  {
    assert (vq + net) * (vt - tokens) == vq * vt - tokens * vq + net * (vt - tokens);
  }

  lemma SellKeepsProduct(vq: nat, vt: nat, gross: nat, tokens: nat)
    requires gross <= vq && gross * (vt + tokens) <= tokens * vq
    ensures (vq - gross) * (vt + tokens) >= vq * vt
  {
    assert (vq - gross) * (vt + tokens) == vq * vt + tokens * vq - gross * (vt + tokens);
  }

  /** A product at least `seed * vt0` over a token side of at most `vt0` leaves at least `seed`. */
  lemma QuoteStaysAboveSeed(vq: nat, vt: nat, seed: nat, vt0: nat)
    requires vt <= vt0 && 0 < vt0 && vq * vt >= seed * vt0
    ensures vq >= seed
  {
    MulLe(vt, vt0, vq);
    if vq < seed {
      MulLt(vq, seed, vt0);
    }
  }

  lemma SoundReserves(global: Global, seed: u64, pos: Position)
    requires CanStart(global, seed) && Sound(global, seed, pos)
    ensures pos.curve.virtualQuoteReserves >= seed
    ensures pos.curve.virtualTokenReserves > 0
    ensures pos.curve.virtualTokenReserves <= global.initialVirtualTokenReserves
  {
    var c := pos.curve;
    QuoteStaysAboveSeed(c.virtualQuoteReserves, c.virtualTokenReserves, seed, global.initialVirtualTokenReserves);
    MulLt(0, seed, global.initialVirtualTokenReserves);
  }

  // ---- one trade ----

  /** What a quoted trade moves: tokens and net quote across the curve, cash (fees included) across the trader. */
  datatype Move = Move(tokens: u64, quote: u64, cash: u64)

  /** A buy within the remainder: its net covers its tokens on the constant product, its charge covers the net. */
  predicate FairBuy(curve: BondingCurve, move: Move) {
    && 0 < move.tokens <= curve.realTokenReserves
    && move.tokens < curve.virtualTokenReserves
    && move.tokens * curve.virtualQuoteReserves <= move.quote * (curve.virtualTokenReserves - move.tokens)
    && move.quote <= move.cash
  }

  /**
   * A buy of at least one token whose price fits; a fill of the whole remainder moves the remainder's
   * price. A v3 buy that crosses completion into the pool-to-be is not an in-curve trade.
   */
  function BuyMove(global: Global, cfg: FeeConfig, curve: BondingCurve, baseAta: u64, trade: Trade): (r: Option<Move>)
    requires !trade.SellTokens?
    ensures r.Some? ==> FairBuy(curve, r.value)
  {
    hide CpOut, FlooredNet, FeeAmount, CurveFeeBps;
    match trade
    case BuyExactIn(quoteIn, mintSupply) =>
      var quote := BuyQuoteBondingCurveSolIn(global, cfg, curve, mintSupply, quoteIn, 0);
      if quote.Err? || quote.value.amount == 0 then None
      else
        ExactInMoveIsFair(global, cfg, curve, mintSupply, quoteIn);
        Some(Move(quote.value.amount, ExactInNet(global, cfg, curve, mintSupply, quoteIn), quote.value.inputAmountUsed))
    case BuyV3ExactIn(quoteIn, mintSupply) =>
      hide *;
      V3Move(global, cfg, curve, mintSupply, baseAta, quoteIn)
    case BuyTokens(tokenAmount, mintSupply) =>
      var tokens := Min(tokenAmount, curve.realTokenReserves);
      if tokens == 0 || !PriceFits(global, cfg, curve, mintSupply, tokenAmount) then None
      else
        TokenOutExact(global, cfg, curve, mintSupply, tokenAmount);
        CostGalois(curve, tokens, TokenCost(curve, tokens));
        Some(Move(tokens, TokenCost(curve, tokens),
                  BuySolAmountFromTokenAmount(global, cfg, curve, mintSupply, tokenAmount).value))
  }

  function V3Move(
    global: Global, cfg: FeeConfig, curve: BondingCurve, mintSupply: u64, baseAta: u64, quoteIn: u64)
    : (r: Option<Move>)
    ensures r.Some? ==> FairBuy(curve, r.value)
  {
    hide BuyV3TokenAmountFromSolAmount, BuyTokensExactIn, ExactInFeeAmounts, CurveFeeBps, WithFees, TokenCost;
    var fill := BuyV3TokenAmountFromSolAmount(global, cfg, curve, mintSupply, baseAta, quoteIn);
    if fill.Err? || fill.value.tokens == 0 then None
    else if !Crosses(global, cfg, curve, mintSupply, quoteIn) then
      OnCurveFill(global, cfg, curve, mintSupply, baseAta, quoteIn);
      NetCoversTokens(global, cfg, curve, mintSupply, quoteIn);
      var rates := CurveFeeBps(global, cfg, curve, mintSupply).value.AsRates();
      Some(Move(fill.value.tokens, ExactInFeeAmounts(quoteIn, rates).value.net, fill.value.charged))
    else if fill.value.tokens > curve.realTokenReserves then None
    else
      CrossingFill(global, cfg, curve, mintSupply, baseAta, quoteIn);
      CostGalois(curve, curve.realTokenReserves, TokenCost(curve, curve.realTokenReserves));
      Some(Move(curve.realTokenReserves, TokenCost(curve, curve.realTokenReserves), fill.value.charged))
  }

  /** Net quote an exact-in buy puts on the curve: its exact-in net, or the price of the whole remainder. */
  function ExactInNet(global: Global, cfg: FeeConfig, curve: BondingCurve, mintSupply: u64, quoteIn: u64): nat
    requires var r := BuyTokensExactIn(global, cfg, curve, mintSupply, quoteIn); r.Ok? && r.value > 0
  {
    if BuyTokensExactIn(global, cfg, curve, mintSupply, quoteIn).value >= curve.realTokenReserves
      && curve.realTokenReserves < curve.virtualTokenReserves
    then TokenCost(curve, curve.realTokenReserves)
    else ExactInFeeAmounts(quoteIn, CurveFeeBps(global, cfg, curve, mintSupply).value.AsRates()).value.net
  }

  lemma ExactInMoveIsFair(global: Global, cfg: FeeConfig, curve: BondingCurve, mintSupply: u64, quoteIn: u64)
    requires var q := BuyQuoteBondingCurveSolIn(global, cfg, curve, mintSupply, quoteIn, 0); q.Ok? && q.value.amount > 0
    ensures var uncapped := BuyTokensExactIn(global, cfg, curve, mintSupply, quoteIn);
            uncapped.Ok? && uncapped.value > 0
    ensures var quote := BuyQuoteBondingCurveSolIn(global, cfg, curve, mintSupply, quoteIn, 0).value;
            var net := ExactInNet(global, cfg, curve, mintSupply, quoteIn);
            && 0 < quote.amount <= curve.realTokenReserves
            && quote.amount < curve.virtualTokenReserves
            && quote.amount * curve.virtualQuoteReserves <= net * (curve.virtualTokenReserves - quote.amount)
            && net <= quote.inputAmountUsed
  {
    hide CpOut, FlooredNet, FeeTotal, Floor, FeeAmount, CurveFeeBps, BuySolAmountFromTokenAmount;
    PartialFillWithinBudget(global, cfg, curve, mintSupply, quoteIn, 0);
    if BuyTokensExactIn(global, cfg, curve, mintSupply, quoteIn).value >= curve.realTokenReserves {
      CostGalois(curve, curve.realTokenReserves, TokenCost(curve, curve.realTokenReserves));
    } else {
      NetCoversTokens(global, cfg, curve, mintSupply, quoteIn);
    }
  }

  /** The exact-in net covers, on the constant product, the tokens it buys. */
  lemma NetCoversTokens(global: Global, cfg: FeeConfig, curve: BondingCurve, mintSupply: u64, quoteIn: u64)
    requires var r := BuyTokensExactIn(global, cfg, curve, mintSupply, quoteIn); r.Ok? && r.value > 0
    ensures var tokens := BuyTokensExactIn(global, cfg, curve, mintSupply, quoteIn).value;
            var rates := CurveFeeBps(global, cfg, curve, mintSupply).value.AsRates();
            var net := ExactInFeeAmounts(quoteIn, rates).value.net;
            && tokens < curve.virtualTokenReserves
            && tokens * curve.virtualQuoteReserves <= net * (curve.virtualTokenReserves - tokens)
            && net <= quoteIn
  {
    ExactInUnfold(global, cfg, curve, mintSupply, quoteIn);
    var tokens := BuyTokensExactIn(global, cfg, curve, mintSupply, quoteIn).value;
    var net := ExactInFeeAmounts(quoteIn, CurveFeeBps(global, cfg, curve, mintSupply).value.AsRates()).value.net;
    CpGalois(net - 1, curve.virtualQuoteReserves, curve.virtualTokenReserves, tokens);
    MulLe(net - 1, net, curve.virtualTokenReserves - tokens);
  }

  /** A sale of tokens that once left the curve. Nothing here looks at the quote the curve really holds. */
  function SellMove(global: Global, cfg: FeeConfig, curve: BondingCurve, trade: Trade): (r: Option<Move>)
    requires trade.SellTokens?
    ensures r.Some? ==>
              && 0 < r.value.tokens == trade.tokenAmount
              && r.value.quote <= curve.virtualQuoteReserves
              && r.value.quote * (curve.virtualTokenReserves + r.value.tokens)
                 <= r.value.tokens * curve.virtualQuoteReserves
              && r.value.cash <= r.value.quote
    ensures r.Some? ==>
              && SellQuote(curve.virtualQuoteReserves, curve.virtualTokenReserves, trade.tokenAmount)
                 == Ok(r.value.quote)
              && SellSolAmountFromTokenAmount(global, cfg, curve, trade.mintSupply, trade.tokenAmount)
                 == Ok(r.value.cash)
  {
    hide CpOut, FeeForQuote;
    var out := SellSolAmountFromTokenAmount(global, cfg, curve, trade.mintSupply, trade.tokenAmount);
    if out.Err? || trade.tokenAmount == 0 || curve.virtualTokenReserves == 0 then None else
    var gross := SellQuote(curve.virtualQuoteReserves, curve.virtualTokenReserves, trade.tokenAmount).value;
    CpRoundsDown(trade.tokenAmount, curve.virtualTokenReserves, curve.virtualQuoteReserves);
    Some(Move(trade.tokenAmount, gross, out.value))
  }

  /** A sale of outstanding tokens is covered by the quote really held, though no quoter checks it. */
  lemma SaleIsCovered(global: Global, cfg: FeeConfig, seed: u64, pos: Position, trade: Trade)
    requires CanStart(global, seed) && Sound(global, seed, pos)
    requires trade.SellTokens? && trade.tokenAmount <= Outstanding(global, pos)
    requires SellMove(global, cfg, pos.curve, trade).Some?
    ensures var move := SellMove(global, cfg, pos.curve, trade).value;
            && move.quote <= pos.curve.realQuoteReserves
            && (pos.curve.virtualQuoteReserves - move.quote) * (pos.curve.virtualTokenReserves + move.tokens)
               >= pos.curve.virtualQuoteReserves * pos.curve.virtualTokenReserves
  {
    var move := SellMove(global, cfg, pos.curve, trade).value;
    var vq, vt := pos.curve.virtualQuoteReserves, pos.curve.virtualTokenReserves;
    SellKeepsProduct(vq, vt, move.quote, move.tokens);
    QuoteStaysAboveSeed(vq - move.quote, vt + move.tokens, seed, global.initialVirtualTokenReserves);
  }

  /**
   * The gross price of any amount of outstanding tokens is covered, also where fees make the sell
   * quoter fail, and so is the net it returns where it does not.
   */
  lemma SellQuoteIsCovered(
    global: Global, cfg: FeeConfig, seed: u64, pos: Position, mintSupply: u64, tokenAmount: u64)
    requires CanStart(global, seed) && Sound(global, seed, pos)
    requires tokenAmount <= Outstanding(global, pos)
    ensures SellQuote(pos.curve.virtualQuoteReserves, pos.curve.virtualTokenReserves, tokenAmount).Ok?
    ensures SellQuote(pos.curve.virtualQuoteReserves, pos.curve.virtualTokenReserves, tokenAmount).value
            <= pos.curve.realQuoteReserves
    ensures var net := SellSolAmountFromTokenAmount(global, cfg, pos.curve, mintSupply, tokenAmount);
            net.Ok? ==>
              net.value <= SellQuote(pos.curve.virtualQuoteReserves, pos.curve.virtualTokenReserves, tokenAmount).value
  {
    hide CpOut, FeeForQuote;
    SoundReserves(global, seed, pos);
    var vq, vt := pos.curve.virtualQuoteReserves, pos.curve.virtualTokenReserves;
    var gross := SellQuote(vq, vt, tokenAmount).value;
    CpRoundsDown(tokenAmount, vt, vq);
    SellKeepsProduct(vq, vt, gross, tokenAmount);
    QuoteStaysAboveSeed(vq - gross, vt + tokenAmount, seed, global.initialVirtualTokenReserves);
  }

  /** One trade's ledger: tokens that leave the curve, net quote that enters it, cash paid in and out. */
  predicate Settled(pos: Position, next: Position, tokens: int, net: int, paidIn: int, paidOut: int) {
    var c, c' := pos.curve, next.curve;
    && c.virtualTokenReserves - c'.virtualTokenReserves == c.realTokenReserves - c'.realTokenReserves == tokens
    && pos.baseAta - next.baseAta == tokens
    && c'.virtualQuoteReserves - c.virtualQuoteReserves == c'.realQuoteReserves - c.realQuoteReserves == net
    && next.paidIn - pos.paidIn == paidIn && next.paidOut - pos.paidOut == paidOut
  }

  /** The ledger after a buy; none if the quote side would leave 64 bits. */
  function AfterBuy(pos: Position, move: Move): (r: Option<Position>)
    requires move.tokens <= pos.curve.realTokenReserves <= pos.baseAta
    requires move.tokens <= pos.curve.virtualTokenReserves
    requires pos.curve.realQuoteReserves <= pos.curve.virtualQuoteReserves
  {
    var c := pos.curve;
    if c.virtualQuoteReserves + move.quote > U64_MAX then None
    else Some(Position(
                c.(virtualTokenReserves := c.virtualTokenReserves - move.tokens,
                virtualQuoteReserves := c.virtualQuoteReserves + move.quote,
                realTokenReserves := c.realTokenReserves - move.tokens,
                realQuoteReserves := c.realQuoteReserves + move.quote,
                complete := c.realTokenReserves == move.tokens),
                pos.baseAta - move.tokens, pos.paidIn + move.cash, pos.paidOut))
  }

  function AfterSell(pos: Position, move: Move): (r: Position)
    requires move.quote <= pos.curve.realQuoteReserves <= pos.curve.virtualQuoteReserves
    requires pos.curve.virtualTokenReserves + move.tokens <= U64_MAX
    requires pos.curve.realTokenReserves + move.tokens <= U64_MAX
    requires pos.baseAta + move.tokens <= U64_MAX
  {
    var c := pos.curve;
    Position(
      c.(virtualTokenReserves := c.virtualTokenReserves + move.tokens,
      virtualQuoteReserves := c.virtualQuoteReserves - move.quote,
      realTokenReserves := c.realTokenReserves + move.tokens,
      realQuoteReserves := c.realQuoteReserves - move.quote),
      pos.baseAta + move.tokens, pos.paidIn, pos.paidOut + move.cash)
  }

  lemma BuyKeepsSound(global: Global, seed: u64, pos: Position, move: Move)
    requires CanStart(global, seed) && Sound(global, seed, pos)
    requires move.tokens <= pos.curve.realTokenReserves && move.quote <= move.cash
    requires move.tokens * pos.curve.virtualQuoteReserves
             <= move.quote * (pos.curve.virtualTokenReserves - move.tokens)
    ensures var next := AfterBuy(pos, move);
            next.Some? ==>
              && Sound(global, seed, next.value)
              && next.value.curve.virtualQuoteReserves * next.value.curve.virtualTokenReserves
                 >= pos.curve.virtualQuoteReserves * pos.curve.virtualTokenReserves
  {
    BuyKeepsProduct(pos.curve.virtualQuoteReserves, pos.curve.virtualTokenReserves, move.quote, move.tokens);
  }

  lemma SellKeepsSound(global: Global, seed: u64, pos: Position, move: Move)
    requires CanStart(global, seed) && Sound(global, seed, pos)
    requires move.tokens <= Outstanding(global, pos) && move.cash <= move.quote <= pos.curve.realQuoteReserves
    requires (pos.curve.virtualQuoteReserves - move.quote) * (pos.curve.virtualTokenReserves + move.tokens)
             >= pos.curve.virtualQuoteReserves * pos.curve.virtualTokenReserves
    ensures var next := AfterSell(pos, move);
            && Sound(global, seed, next)
            && next.curve.virtualQuoteReserves * next.curve.virtualTokenReserves
               >= pos.curve.virtualQuoteReserves * pos.curve.virtualTokenReserves
  {}

  /**
   * One trade on an open curve. Refused: a trade that quotes nothing, a buy that would overflow the
   * quote side, and a sale of more tokens than ever left the curve.
   */
  function Step(global: Global, cfg: FeeConfig, seed: u64, pos: Position, trade: Trade): (r: Option<Position>)
    requires CanStart(global, seed) && Sound(global, seed, pos)
    ensures r.Some? ==>
              && Sound(global, seed, r.value)
              && r.value.curve.virtualQuoteReserves * r.value.curve.virtualTokenReserves
                 >= pos.curve.virtualQuoteReserves * pos.curve.virtualTokenReserves
  {
    hide BuyMove, SellMove;
    if pos.curve.complete then None
    else if trade.SellTokens? then
      if trade.tokenAmount > Outstanding(global, pos) then None else
      match SellMove(global, cfg, pos.curve, trade)
      case None => None
      case Some(move) =>
        SaleIsCovered(global, cfg, seed, pos, trade);
        SellKeepsSound(global, seed, pos, move);
        Some(AfterSell(pos, move))
    else
      match BuyMove(global, cfg, pos.curve, pos.baseAta, trade)
      case None => None
      case Some(move) =>
        BuyKeepsSound(global, seed, pos, move);
        AfterBuy(pos, move)
  }

  /** The position after a whole run; none if some trade is refused. */
  function Run(global: Global, cfg: FeeConfig, seed: u64, pos: Position, trades: seq<Trade>): (r: Option<Position>)
    requires CanStart(global, seed) && Sound(global, seed, pos)
    ensures r.Some? ==> Sound(global, seed, r.value)
    decreases |trades|
  {
    if trades == [] then Some(pos)
    else
      match Step(global, cfg, seed, pos, trades[0])
      case None => None
      case Some(next) => Run(global, cfg, seed, next, trades[1..])
  }

  lemma {:induction false} ProductNeverFalls(
    global: Global, cfg: FeeConfig, seed: u64, pos: Position, trades: seq<Trade>)
    requires CanStart(global, seed) && Sound(global, seed, pos)
    requires Run(global, cfg, seed, pos, trades).Some?
    ensures var after := Run(global, cfg, seed, pos, trades).value.curve;
            after.virtualQuoteReserves * after.virtualTokenReserves
            >= pos.curve.virtualQuoteReserves * pos.curve.virtualTokenReserves
    decreases |trades|
  {
    hide Sound, Step;
    if trades != [] {
      ProductNeverFalls(global, cfg, seed, Step(global, cfg, seed, pos, trades[0]).value, trades[1..]);
    }
  }

  /**
   * Run solvency: after any finite run of quoted buys and sales on a fresh curve, with no more
   * tokens sold back than bought, the quote side is at least its seed, what traders paid covers
   * what they received plus the quote still on the curve (so no run pays out more than it took
   * in), and the gross of every further sale of outstanding tokens is covered by that quote.
   */
  lemma RunIsSolvent(
    global: Global, cfg: FeeConfig, creator: Pubkey, quoteMint: Pubkey, seed: u64, mayhemMode: bool,
    cashback: bool, creatorFeeBps: u64, trades: seq<Trade>)
    requires CanStart(global, seed)
    requires var start := Start(global, creator, quoteMint, seed, mayhemMode, cashback, creatorFeeBps);
             Run(global, cfg, seed, start, trades).Some?
    ensures var start := Start(global, creator, quoteMint, seed, mayhemMode, cashback, creatorFeeBps);
            var end := Run(global, cfg, seed, start, trades).value;
            && end.curve.virtualQuoteReserves >= seed
            && end.curve.virtualTokenReserves > 0
            && end.curve.virtualQuoteReserves * end.curve.virtualTokenReserves
               >= seed * global.initialVirtualTokenReserves
            && end.paidOut + end.curve.realQuoteReserves <= end.paidIn
            && forall tokens: u64 :: tokens <= Outstanding(global, end) ==>
                 var gross := SellQuote(end.curve.virtualQuoteReserves, end.curve.virtualTokenReserves, tokens);
                 gross.Ok? && gross.value <= end.curve.realQuoteReserves
  {
    var start := Start(global, creator, quoteMint, seed, mayhemMode, cashback, creatorFeeBps);
    var end := Run(global, cfg, seed, start, trades).value;
    SoundReserves(global, seed, end);
    forall tokens: u64 | tokens <= Outstanding(global, end)
      ensures var gross := SellQuote(end.curve.virtualQuoteReserves, end.curve.virtualTokenReserves, tokens);
              gross.Ok? && gross.value <= end.curve.realQuoteReserves
    {
      SellQuoteIsCovered(global, cfg, seed, end, 0, tokens);
    }
  }

  /**
   * A pump-quoted creation on a coin whose curve is anywhere along a run, at whatever depth it was
   * created, gives the child a raise of at most what a curve sells and a seed of at most what it
   * keeps. A deeper coin's target is its own seed; a depth-0 coin's must be within its quote side.
   */
  lemma SeedFromRunningCoin(
    global: Global, cfg: FeeConfig, creator: Pubkey, quoteMint: Pubkey, seed: u64, mayhemMode: bool,
    cashback: bool, creatorFeeBps: u64, trades: seq<Trade>,
    depth: u8, quoteControl: seq<QuoteControlMint>, quotePool: Option<QuotePool>)
    requires CanStart(global, seed)
    requires var start := Start(global, creator, quoteMint, seed, mayhemMode, cashback, creatorFeeBps);
             Run(global, cfg, seed, start, trades).Some?
    requires var start := Start(global, creator, quoteMint, seed, mayhemMode, cashback, creatorFeeBps);
             var coin := Run(global, cfg, seed, start, trades).value.curve.(depth := depth);
             && PumpQuoteInitialVirtualQuoteReserves(global, quoteControl, coin, quotePool).Ok?
             && (depth > 0 || TargetSeed(global, quoteControl, coin).value <= coin.virtualQuoteReserves)
    ensures var start := Start(global, creator, quoteMint, seed, mayhemMode, cashback, creatorFeeBps);
            var coin := Run(global, cfg, seed, start, trades).value.curve.(depth := depth);
            var child := PumpQuoteInitialVirtualQuoteReserves(global, quoteControl, coin, quotePool).value;
            var reserves := PricedReserves(coin.virtualTokenReserves, coin.virtualQuoteReserves);
            && QuoteCoinReserves(coin, quotePool) == Ok(reserves)
            && TargetSeed(global, quoteControl, coin).Ok?
            && reserves.quote > 0 && Unsold(global) > 0
            && Raise(global, TargetSeed(global, quoteControl, coin).value, reserves)
               <= global.initialRealTokenReserves
            && child.virtualQuoteReserves <= Unsold(global)
  {
    hide Run, SeedForRaise, Raise;
    var start := Start(global, creator, quoteMint, seed, mayhemMode, cashback, creatorFeeBps);
    var end := Run(global, cfg, seed, start, trades).value;
    SoundReserves(global, seed, end);
    SeedOnOpenCurve(global, TargetSeed(global, quoteControl, end.curve.(depth := depth)).value,
                    PricedReserves(end.curve.virtualTokenReserves, end.curve.virtualQuoteReserves));
  }

  /** A coin created in any quote but SOL meets that condition wherever its run has taken it. */
  lemma CreationSeedMeetsTarget(
    global: Global, cfg: FeeConfig, creator: Pubkey, quoteMint: Pubkey, seed: u64, mayhemMode: bool,
    cashback: bool, creatorFeeBps: u64, trades: seq<Trade>, quoteControl: seq<QuoteControlMint>)
    requires CanStart(global, seed) && quoteMint != DefaultKey && quoteMint != NativeMint
    requires InitialVirtualQuoteReserves(global, quoteControl, quoteMint) == Some(seed)
    requires var start := Start(global, creator, quoteMint, seed, mayhemMode, cashback, creatorFeeBps);
             Run(global, cfg, seed, start, trades).Some?
    ensures var start := Start(global, creator, quoteMint, seed, mayhemMode, cashback, creatorFeeBps);
            var coin := Run(global, cfg, seed, start, trades).value.curve;
            && coin.depth == 0
            && TargetSeed(global, quoteControl, coin) == Ok(seed)
            && seed <= coin.virtualQuoteReserves
  {
    hide Run;
    var start := Start(global, creator, quoteMint, seed, mayhemMode, cashback, creatorFeeBps);
    var end := Run(global, cfg, seed, start, trades).value;
    SoundReserves(global, seed, end);
    RunKeepsCoin(global, cfg, seed, start, trades);
    TargetIsCreationSeed(global, quoteControl, end.curve);
  }

  /** A run leaves what a coin is untouched. */
  lemma {:induction false} RunKeepsCoin(
    global: Global, cfg: FeeConfig, seed: u64, pos: Position, trades: seq<Trade>)
    requires CanStart(global, seed) && Sound(global, seed, pos)
    requires Run(global, cfg, seed, pos, trades).Some?
    ensures SameCoinAs(pos.curve, Run(global, cfg, seed, pos, trades).value.curve)
    decreases |trades|
  {
    hide Sound, Step;
    if trades != [] {
      StepMovesReserves(global, cfg, seed, pos, trades[0]);
      RunKeepsCoin(global, cfg, seed, Step(global, cfg, seed, pos, trades[0]).value, trades[1..]);
    }
  }

  /**
   * A created coin is, wherever its run has taken it, the coin it was created as, and stores wrapped
   * SOL whichever way its creation spelt it.
   */
  lemma CreatedCoinKeepsTerms(
    global: Global, cfg: FeeConfig, creator: Pubkey, quoteMint: Pubkey, seed: u64, mayhemMode: bool,
    cashback: bool, creatorFeeBps: u64, trades: seq<Trade>)
    requires CanStart(global, seed)
    requires var start := Start(global, creator, quoteMint, seed, mayhemMode, cashback, creatorFeeBps);
             Run(global, cfg, seed, start, trades).Some?
    ensures var start := Start(global, creator, quoteMint, seed, mayhemMode, cashback, creatorFeeBps);
            var coin := Run(global, cfg, seed, start, trades).value.curve;
            && coin.creator == creator && coin.creatorFeeBps == creatorFeeBps
            && coin.isMayhemMode == mayhemMode && coin.isCashbackCoin == cashback
            && coin.quoteMint == (if quoteMint == DefaultKey then NativeMint else quoteMint)
            && coin.initialVirtualQuoteReserves == seed && coin.depth == 0
  {
    var start := Start(global, creator, quoteMint, seed, mayhemMode, cashback, creatorFeeBps);
    RunKeepsCoin(global, cfg, seed, start, trades);
  }

  /** Each buy step on the quote coin can only lower the seed derived from it. */
  lemma BuyStepNeverRaisesSeed(
    global: Global, cfg: FeeConfig, seed: u64, pos: Position, trade: Trade, target: u64)
    requires CanStart(global, seed) && Sound(global, seed, pos)
    requires !trade.SellTokens? && Step(global, cfg, seed, pos, trade).Some?
    requires SeedForRaise(global, target,
                          PricedReserves(pos.curve.virtualTokenReserves, pos.curve.virtualQuoteReserves)).Ok?
    requires var next := Step(global, cfg, seed, pos, trade).value.curve;
             SeedForRaise(global, target, PricedReserves(next.virtualTokenReserves, next.virtualQuoteReserves)).Ok?
    ensures var next := Step(global, cfg, seed, pos, trade).value.curve;
            SeedForRaise(global, target, PricedReserves(next.virtualTokenReserves, next.virtualQuoteReserves)).value
            <= SeedForRaise(global, target,
                            PricedReserves(pos.curve.virtualTokenReserves, pos.curve.virtualQuoteReserves)).value
  {
    var next := Step(global, cfg, seed, pos, trade).value.curve;
    SeedFallsAsQuoteCoinIsBought(
      global, target,
      PricedReserves(pos.curve.virtualTokenReserves, pos.curve.virtualQuoteReserves),
      PricedReserves(next.virtualTokenReserves, next.virtualQuoteReserves));
  }

  /** At an unchanged mint supply a buy never moves a curve to an earlier fee tier, nor a sale to a later one. */
  lemma StepMovesTierWithTrade(
    global: Global, cfg: FeeConfig, seed: u64, pos: Position, trade: Trade,
    mintSupply: u64, tiers: seq<FeeTier>, i: nat, i': nat)
    requires CanStart(global, seed) && Sound(global, seed, pos) && Step(global, cfg, seed, pos, trade).Some?
    requires i < |tiers| && i' < |tiers|
    requires CurveTierDue(pos.curve, mintSupply, tiers, i)
    requires CurveTierDue(Step(global, cfg, seed, pos, trade).value.curve, mintSupply, tiers, i')
    ensures if trade.SellTokens? then i' <= i else i <= i'
  {
    hide Step, CurveTierDue;
    StepMovesReserves(global, cfg, seed, pos, trade);
    var c, c' := pos.curve, Step(global, cfg, seed, pos, trade).value.curve;
    if trade.SellTokens? {
      RicherCurveLaterTier(c', c, mintSupply, tiers, i', i);
    } else {
      RicherCurveLaterTier(c, c', mintSupply, tiers, i, i');
    }
  }

  /** An exact-in buy settles its quote; the curve books the quoted net, or the price of the remainder it fills. */
  lemma ExactInSettlesQuote(
    global: Global, cfg: FeeConfig, seed: u64, pos: Position, quoteIn: u64, mintSupply: u64)
    requires CanStart(global, seed) && Sound(global, seed, pos)
    requires Step(global, cfg, seed, pos, BuyExactIn(quoteIn, mintSupply)).Some?
    ensures var uncapped := BuyTokensExactIn(global, cfg, pos.curve, mintSupply, quoteIn);
            uncapped.Ok? && uncapped.value > 0
    ensures var next := Step(global, cfg, seed, pos, BuyExactIn(quoteIn, mintSupply)).value;
            var quote := BuyQuoteBondingCurveSolIn(global, cfg, pos.curve, mintSupply, quoteIn, 0);
            && quote.Ok?
            && Settled(pos, next, quote.value.amount, ExactInNet(global, cfg, pos.curve, mintSupply, quoteIn),
                       quote.value.inputAmountUsed, 0)
  {
    hide ExactInNet, CurveFeeBps, ExactInFeeAmounts, TokenCost, CpOut;
  }

  /** A v3 buy that stays on the curve settles its fill in the same way. */
  lemma V3SettlesFill(
    global: Global, cfg: FeeConfig, seed: u64, pos: Position, quoteIn: u64, mintSupply: u64)
    requires CanStart(global, seed) && Sound(global, seed, pos)
    requires Step(global, cfg, seed, pos, BuyV3ExactIn(quoteIn, mintSupply)).Some?
    ensures var uncapped := BuyTokensExactIn(global, cfg, pos.curve, mintSupply, quoteIn);
            uncapped.Ok? && uncapped.value > 0
    ensures var next := Step(global, cfg, seed, pos, BuyV3ExactIn(quoteIn, mintSupply)).value;
            var fill := BuyV3TokenAmountFromSolAmount(global, cfg, pos.curve, mintSupply, pos.baseAta, quoteIn);
            && fill.Ok?
            && Settled(pos, next, fill.value.tokens, next.curve.realQuoteReserves - pos.curve.realQuoteReserves,
                       fill.value.charged, 0)
            && (Crosses(global, cfg, pos.curve, mintSupply, quoteIn) ==>
                  BuyQuote(pos.curve, pos.curve.realTokenReserves)
                  == Ok(next.curve.realQuoteReserves - pos.curve.realQuoteReserves))
            && (!Crosses(global, cfg, pos.curve, mintSupply, quoteIn) ==>
                  var rates := CurveFeeBps(global, cfg, pos.curve, mintSupply).value.AsRates();
                  next.curve.realQuoteReserves - pos.curve.realQuoteReserves == NetOrZero(quoteIn, rates))
  {
    hide CurveFeeBps, ExactInFeeAmounts, TokenCost, CpOut, BuyV3TokenAmountFromSolAmount, BuyTokensExactIn;
    var fill := BuyV3TokenAmountFromSolAmount(global, cfg, pos.curve, mintSupply, pos.baseAta, quoteIn);
    if Crosses(global, cfg, pos.curve, mintSupply, quoteIn) {
      CrossingFill(global, cfg, pos.curve, mintSupply, pos.baseAta, quoteIn);
    } else {
      OnCurveFill(global, cfg, pos.curve, mintSupply, pos.baseAta, quoteIn);
    }
  }

  /** A buy of tokens settles at its quoted cost; the curve books their price without the fees. */
  lemma TokenOutSettlesCost(global: Global, cfg: FeeConfig, seed: u64, pos: Position, trade: Trade)
    requires CanStart(global, seed) && Sound(global, seed, pos)
    requires trade.BuyTokens? && Step(global, cfg, seed, pos, trade).Some?
    ensures var next := Step(global, cfg, seed, pos, trade).value;
            var tokens := Min(trade.tokenAmount, pos.curve.realTokenReserves);
            var cost := BuySolAmountFromTokenAmount(global, cfg, pos.curve, trade.mintSupply, trade.tokenAmount);
            && tokens < pos.curve.virtualTokenReserves && cost.Ok?
            && Settled(pos, next, tokens, TokenCost(pos.curve, tokens), cost.value, 0)
  {
    hide CurveFeeBps, TokenCost, CpOut;
  }

  /** A sale settles at its quoted proceeds; its fees leave the curve with them. */
  lemma SaleSettlesProceeds(global: Global, cfg: FeeConfig, seed: u64, pos: Position, trade: Trade)
    requires CanStart(global, seed) && Sound(global, seed, pos)
    requires trade.SellTokens? && Step(global, cfg, seed, pos, trade).Some?
    ensures var c, next := pos.curve, Step(global, cfg, seed, pos, trade).value;
            var gross := SellQuote(c.virtualQuoteReserves, c.virtualTokenReserves, trade.tokenAmount);
            var out := SellSolAmountFromTokenAmount(global, cfg, c, trade.mintSupply, trade.tokenAmount);
            gross.Ok? && out.Ok? && Settled(pos, next, 0 - trade.tokenAmount, 0 - gross.value, 0, out.value)
  {
    hide SellMove;
  }

  /** The terms of a coin, everything but its reserves. */
  predicate SameCoinAs(c: BondingCurve, c': BondingCurve) {
    && c'.isMayhemMode == c.isMayhemMode && c'.tokenTotalSupply == c.tokenTotalSupply
    && c'.creator == c.creator && c'.creatorFeeBps == c.creatorFeeBps && c'.isCashbackCoin == c.isCashbackCoin
    && c'.quoteMint == c.quoteMint && c'.depth == c.depth
  }

  /** On an open curve a buy takes tokens for quote and a sale the reverse; the coin's terms stay. */
  lemma StepMovesReserves(global: Global, cfg: FeeConfig, seed: u64, pos: Position, trade: Trade)
    requires CanStart(global, seed) && Sound(global, seed, pos) && Step(global, cfg, seed, pos, trade).Some?
    ensures !pos.curve.complete
    ensures var c, c' := pos.curve, Step(global, cfg, seed, pos, trade).value.curve;
            && SameCoinAs(c, c')
            && (trade.SellTokens? ==>
                  && c.virtualTokenReserves < c'.virtualTokenReserves
                  && c'.virtualQuoteReserves <= c.virtualQuoteReserves)
            && (!trade.SellTokens? ==>
                  && c'.virtualTokenReserves < c.virtualTokenReserves
                  && c.virtualQuoteReserves <= c'.virtualQuoteReserves
                  && (c'.complete <==> c'.realTokenReserves == 0))
  {
    hide CpOut, FeeForQuote, TokenCost, CurveFeeBps, ExactInFeeAmounts, BuyV3TokenAmountFromSolAmount;
  }
}
