/** Bonding-curve quotes (src/math/bonding_curve.rs). */
module Curve {
  import opened Arithmetic
  import opened State
  import opened Utils
  import opened Fee

  /** `[protocol, creator]` rates of a curve trade. */
  datatype CurveBps = CurveBps(protocol: u64, creator: u64) {
    function AsRates(): Rates { Rates(protocol, creator, 0) }
  }

  datatype PoolReserves = PoolReserves(base: u64, quote: u64)

  /** Tokens out of the pool-to-be and the quote charged for them, fees included. */
  datatype Leg = Leg(baseOut: u64, charged: u64)

  /** A v3 exact-in fill: tokens received and quote charged. */
  datatype Fill = Fill(tokens: u64, charged: u64)

  const HOP_FEE_PROTOCOL: u8 := 1
  const HOP_FEE_CREATOR: u8 := 2

  predicate HasFlag(flags: u8, bit: u8)
    requires bit > 0
  {
    flags / bit % 2 == 1
  }

  /** The token side is zero only on a migrated, hence complete, curve. */
  predicate Priceable(curve: BondingCurve) {
    curve.virtualTokenReserves > 0 || curve.complete
  }

  /** Whether a curve takes trades; cashback curves do only when the caller allows them. */
  predicate CurveOpen(curve: BondingCurve, allowCashback: bool) {
    !curve.complete && (!curve.isCashbackCoin || allowCashback)
  }

  function CurveTierSupply(curve: BondingCurve, mintSupply: u64): u64 {
    if curve.isMayhemMode then curve.tokenTotalSupply else mintSupply
  }

  /** Protocol and creator rates; the creator rate is 0 on a creator-less curve. */
  function CurveFeeBps(global: Global, cfg: FeeConfig, curve: BondingCurve, mintSupply: u64): (r: Result<CurveBps>)
    requires curve.virtualTokenReserves > 0
  {
    var fees :- ComputeBondingCurveFeeBps(
      global, cfg, curve.quoteMint, curve.creatorFeeBps, CurveTierSupply(curve, mintSupply),
      curve.virtualQuoteReserves, curve.virtualTokenReserves);
    Ok(CurveBps(fees.protocolFeeBps, if curve.creator != DefaultKey then fees.creatorFeeBps else 0))
  }

  /** `amount` plus its ceiled protocol and creator fees. */
  function WithFees(amount: nat, bps: CurveBps): nat {
    amount + FeeAmount(amount, bps.protocol) + FeeAmount(amount, bps.creator)
  }

  /** Net quote of `amount` tokens off the curve: `floor(amount * vq / (vt - amount)) + 1`. */
  function TokenCost(curve: BondingCurve, amount: nat): (r: nat)
    requires amount < curve.virtualTokenReserves
    ensures r >= 1
  {
    Floor(amount * curve.virtualQuoteReserves, curve.virtualTokenReserves - amount) + 1
  }

  /** The checked form: the product of two `u64` fits (`TokenCostFitsU128`), the result may not. */
  function BuyQuote(curve: BondingCurve, amount: u64): (r: Result<u64>)
    ensures r.Ok? <==>
            0 < amount < curve.virtualTokenReserves && TokenCost(curve, amount) <= U64_MAX
    ensures r.Ok? ==> r.value == TokenCost(curve, amount)
  {
    if amount == 0 then Err(ZeroAmount)
    else if curve.virtualTokenReserves <= amount then Err(DepletedBondingCurve)
    else if TokenCost(curve, amount) > U64_MAX then Err(MathOverflow)
    else Ok(TokenCost(curve, amount))
  }

  // ---- v2 quotes ----

  /** Tokens an exact quote input buys, before the cap at the remaining supply. */
  function BuyTokensExactIn(global: Global, cfg: FeeConfig, curve: BondingCurve, mintSupply: u64, quoteIn: u64)
    : (r: Result<u64>)
    ensures r.Ok? && r.value > 0 ==>
              && curve.virtualTokenReserves > 0 && curve.virtualQuoteReserves > 0
              && CurveFeeBps(global, cfg, curve, mintSupply).Ok?
              && ExactInFeeAmounts(quoteIn, CurveFeeBps(global, cfg, curve, mintSupply).value.AsRates()).Ok?
  {
    if quoteIn == 0 || curve.virtualTokenReserves == 0 then Ok(0)
    else if curve.virtualQuoteReserves == 0 then Err(EmptyReserves)
    else
      var bps :- CurveFeeBps(global, cfg, curve, mintSupply);
      match ExactInFeeAmounts(quoteIn, bps.AsRates())
      case Err(_) => Ok(0)
      case Ok(e) => SwapU64(e.net - 1, curve.virtualQuoteReserves, curve.virtualTokenReserves)
  }

  function BuyTokenAmountFromSolAmount(
    global: Global, cfg: FeeConfig, curve: BondingCurve, mintSupply: u64, quoteIn: u64): (r: Result<u64>)
  {
    var tokens :- BuyTokensExactIn(global, cfg, curve, mintSupply, quoteIn);
    Ok(Min(tokens, curve.realTokenReserves))
  }

  function FeeForQuote(global: Global, cfg: FeeConfig, curve: BondingCurve, mintSupply: u64, amount: u128)
    : (r: Result<u128>)
    requires curve.virtualTokenReserves > 0
  {
    var bps :- CurveFeeBps(global, cfg, curve, mintSupply);
    Ok(WrapU128(FeeAmountWide(amount, bps.protocol) + FeeAmountWide(amount, bps.creator)))
  }

  /** Fee-inclusive price of a token amount, capped at the remaining supply; the result is cast to `u64`. */
  function BuySolAmountFromTokenAmount(
    global: Global, cfg: FeeConfig, curve: BondingCurve, mintSupply: u64, tokenAmount: u64): (r: Result<u64>)
  {
    if tokenAmount == 0 || curve.virtualTokenReserves == 0 then Ok(0) else
    var amount := Min(tokenAmount, curve.realTokenReserves);
    if amount >= curve.virtualTokenReserves then Err(DepletedBondingCurve) else
    TokenCostFitsU128(curve, amount);
    var cost := TokenCost(curve, amount);
    var fee :- FeeForQuote(global, cfg, curve, mintSupply, cost);
    Ok(TruncU64(WrapU128(cost + fee)))
  }

  lemma TokenCostFitsU128(curve: BondingCurve, amount: nat)
    requires amount < curve.virtualTokenReserves
    ensures TokenCost(curve, amount) <= U128_MAX
  {
    var v := curve.virtualQuoteReserves;
    ProductFits(amount, v);
    FloorAtMost(amount * v, curve.virtualTokenReserves - amount);
  }

  /** Gross sale proceeds, fees not applied. */
  function SellQuote(virtualQuote: u64, virtualToken: u64, amount: u64): (r: Result<u64>)
    ensures r.Ok? <==> virtualToken + amount > 0
    ensures r.Ok? ==> r.value == CpOut(amount, virtualToken, virtualQuote) && r.value <= virtualQuote
  {
    SwapU64(amount, virtualToken, virtualQuote)
  }

  /** The documented inverse of `SellQuote`: tokens to sell for an amount, fees not applied. */
  function SellTokenQuoteWithSol(virtualQuote: u64, virtualToken: u64, amount: u64): (r: Result<u128>)
    ensures r.Ok? <==> amount < virtualQuote
  {
    if virtualQuote < amount then Err(MathOverflow) else
    ProductFits(amount, virtualToken);
    MulDivU128(amount, virtualToken, virtualQuote - amount)
  }

  function SellSolAmountFromTokenAmount(
    global: Global, cfg: FeeConfig, curve: BondingCurve, mintSupply: u64, tokenAmount: u64): (r: Result<u64>)
  {
    if tokenAmount == 0 || curve.virtualTokenReserves == 0 then Ok(0) else
    var gross :- SellQuote(curve.virtualQuoteReserves, curve.virtualTokenReserves, tokenAmount);
    var fee :- FeeForQuote(global, cfg, curve, mintSupply, gross);
    if gross < fee then Err(FeesExceedOutput) else Ok(gross - fee)
  }

  // ---- v3 quotes ----

  /** Reserves the migration would deposit once the curve leg completes the curve. */
  function PoolToBe(
    global: Global, curve: BondingCurve, baseAtaAmount: u64, isLegacy: bool, curveTokens: u64, curveNetQuote: u64)
    : (r: Result<PoolReserves>)
  {
    if baseAtaAmount < curveTokens then Err(MathOverflow) else
    var base := baseAtaAmount - curveTokens;
    var raised := curve.realQuoteReserves + curveNetQuote;
    if raised > U64_MAX then Err(MathOverflow) else
    if isLegacy && raised < global.poolMigrationFee then Err(MathOverflow) else
    var quote := if isLegacy then raised - global.poolMigrationFee else raised;
    if base == 0 || quote == 0 then Err(EmptyReserves) else Ok(PoolReserves(base, quote))
  }

  /**
   * What a budget buys from the pool-to-be; `wholeBudget` puts the rounding remainder in too.
   * The derivation leaves a positive net, so subtracting its fees from the budget cannot fail.
   */
  function PostCompleteLegExactQuote(pool: PoolReserves, bps: CurveBps, budget: u64, wholeBudget: bool)
    : (r: Result<Option<Leg>>)
    ensures r.Ok? && r.value.Some? ==>
              && 0 < r.value.value.baseOut <= pool.base
              && r.value.value.charged <= budget
  {
    if FlooredNet(budget, bps.AsRates()) < 2 then Ok(None) else
    var e :- ExactInFeeAmounts(budget, bps.AsRates());
    var quoteIn := if wholeBudget then budget - (e.fee0 + e.fee1) else e.net;
    var baseOut :- SwapU64(quoteIn - 1, pool.quote, pool.base);
    if baseOut == 0 then Ok(None) else Ok(Some(Leg(baseOut, quoteIn + e.fee0 + e.fee1)))
  }

  /** Ceiling price, in the pool-to-be, of the tokens past the remainder. */
  function PastPrice(pool: PoolReserves, past: nat): nat
    requires past < pool.base
  {
    CeilDiv(pool.quote * past, pool.base - past)
  }

  /** Cost of a v3 buy of `tokenAmount`; past the remaining supply the rest comes from the pool-to-be. */
  function BuyV3SolAmountFromTokenAmount(
    global: Global, cfg: FeeConfig, curve: BondingCurve, mintSupply: u64, baseAtaAmount: u64, tokenAmount: u64)
    : (r: Result<u64>)
    requires Priceable(curve)
  {
    if !CurveOpen(curve, false) then Err(VenueNotSupported) else
    var remaining := curve.realTokenReserves;
    if tokenAmount <= remaining || curve.isMayhemMode then
      BuySolAmountFromTokenAmount(global, cfg, curve, mintSupply, tokenAmount)
    else
      var bps :- CurveFeeBps(global, cfg, curve, mintSupply);
      var cost :- BuyQuote(curve, remaining);
      var pool :- PoolToBe(global, curve, baseAtaAmount, IsSolLikeQuoteMint(curve.quoteMint), remaining, cost);
      var past := tokenAmount - remaining;
      if pool.base <= past then Err(BaseOutExceedsReserve) else
      var quoteIn := PastPrice(pool, past);
      if quoteIn > U64_MAX then Err(MathOverflow) else
      var total := WithFees(cost, bps) + WithFees(quoteIn, bps);
      if total > U64_MAX then Err(MathOverflow) else Ok(total)
  }

  /**
   * Fill of a v3 exact-in buy; past the remaining supply the leftover budget enters the pool-to-be.
   * Nonzero tokens mean the rates and the derivation already succeeded.
   */
  function BuyV3TokenAmountFromSolAmount(
    global: Global, cfg: FeeConfig, curve: BondingCurve, mintSupply: u64, baseAtaAmount: u64, quoteIn: u64)
    : (r: Result<Fill>)
  {
    if !CurveOpen(curve, false) then Err(VenueNotSupported) else
    var tokens :- BuyTokensExactIn(global, cfg, curve, mintSupply, quoteIn);
    if tokens == 0 then Ok(Fill(0, 0)) else
    var bps := CurveFeeBps(global, cfg, curve, mintSupply).value;
    var remaining := curve.realTokenReserves;
    if tokens <= remaining then
      var e := ExactInFeeAmounts(quoteIn, bps.AsRates()).value;
      Ok(Fill(tokens, e.net + e.fee0 + e.fee1))
    else
      var net :- BuyQuote(curve, remaining);
      var curveTotal := WithFees(net, bps);
      if curveTotal > U64_MAX then Err(MathOverflow) else
      if quoteIn < curveTotal then Err(MathOverflow) else
      var budgetLeft := quoteIn - curveTotal;
      if budgetLeft == 0 || curve.isMayhemMode then Ok(Fill(remaining, curveTotal)) else
      var pool :- PoolToBe(global, curve, baseAtaAmount, IsSolLikeQuoteMint(curve.quoteMint), remaining, net);
      var leg :- PostCompleteLegExactQuote(pool, bps, budgetLeft, false);
      match leg
      case Some(l) => Ok(Fill(remaining + l.baseOut, curveTotal + l.charged))
      case None => Ok(Fill(remaining, curveTotal))
  }

  // ---- one curve hop of a multi-hop route ----

  function HopBps(bps: CurveBps, flags: u8): CurveBps {
    CurveBps(
      if HasFlag(flags, HOP_FEE_PROTOCOL) then bps.protocol else 0,
      if HasFlag(flags, HOP_FEE_CREATOR) then bps.creator else 0)
  }

  /** Output of a curve hop, charging only the flagged fees. A buy spends the whole input. */
  function MultiHopCurveHop(
    global: Global, cfg: FeeConfig, curve: BondingCurve, mintSupply: u64, baseAtaAmount: u64,
    user: Pubkey, isBuy: bool, amountIn: u64, flags: u8): (r: Result<u64>)
    requires Priceable(curve)
  {
    if !CurveOpen(curve, !HasFlag(flags, HOP_FEE_CREATOR)) then Err(VenueNotSupported) else
    if curve.isMayhemMode then Err(VenueNotSupported) else
    var all :- CurveFeeBps(global, cfg, curve, mintSupply);
    var bps := HopBps(all, flags);
    if isBuy then CurveHopBuy(global, curve, baseAtaAmount, user, amountIn, bps)
    else CurveHopSell(curve, amountIn, bps)
  }

  function CurveHopSell(curve: BondingCurve, amountIn: u64, bps: CurveBps): (r: Result<u64>)
  {
    var gross :- SellQuote(curve.virtualQuoteReserves, curve.virtualTokenReserves, amountIn);
    var fees := FeeAmount(gross, bps.protocol) + FeeAmount(gross, bps.creator);
    if gross <= fees then Err(ZeroAmount) else Ok(gross - fees)
  }

  /** The derivation leaves a positive net, so the whole-budget net is positive as well. */
  function CurveHopBuy(
    global: Global, curve: BondingCurve, baseAtaAmount: u64, user: Pubkey, amountIn: u64, bps: CurveBps)
    : (r: Result<u64>)
  {
    var e :- ExactInFeeAmounts(amountIn, bps.AsRates());
    var net := amountIn - (e.fee0 + e.fee1);
    var tokens :- SwapU64(net - 1, curve.virtualQuoteReserves, curve.virtualTokenReserves);
    if tokens == 0 then Err(ZeroAmount) else
    var remaining := curve.realTokenReserves;
    if tokens <= remaining then Ok(tokens) else
    if user == global.whitelistPda then Err(PostCompleteLegNotAllowed) else
    var curveNet :- BuyQuote(curve, remaining);
    if amountIn <= WithFees(curveNet, bps) then Ok(remaining) else
    var budgetLeft := amountIn - WithFees(curveNet, bps);
    var pool :- PoolToBe(global, curve, baseAtaAmount, IsSolLikeQuoteMint(curve.quoteMint), remaining, curveNet);
    var leg :- PostCompleteLegExactQuote(pool, bps, budgetLeft, true);
    match leg
    case Some(l) => Ok(remaining + l.baseOut)
    case None => Ok(remaining)
  }
}
