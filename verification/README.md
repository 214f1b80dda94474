# Verified model of the quote engine

The crate prices trades for two on-chain programs: bonding curves (pump) and constant-product
pools (pump-amm). Its quotes have to agree with the programs to the unit, so every rounding
direction matters. This project models that integer arithmetic in Dafny and proves how the
quoters fit together: which pairs invert each other and with what slack, what a trade that
completes a curve leaves behind, what a multi-hop route can and cannot return, and what any
run of trades keeps.

`dafny verify dfyconfig.toml` checks everything.

## Layout

| file | models |
|---|---|
| `Arithmetic.dfy` | machine widths, floor and ceiling division, the constant product; each rounding as a Galois connection |
| `State.dfy` | keys, errors, accounts |
| `Utils.dfy` | checked multiply-divide, the exact-in swap, slippage limits (src/math/utils.rs) |
| `Fees.dfy` | the exact-in fee derivation and fee-schedule selection (src/math/fees.rs) |
| `BondingCurve.dfy` | v2 and v3 curve quotes, the pool-to-be and its leg, the curve hop (src/math/bonding_curve.rs) |
| `CurveLaws.dfy`, `V3Laws.dfy` | laws of the curve quoters |
| `ScheduleLaws.dfy` | which tier or flat schedule a trade is charged, on a curve and in a pool |
| `Amm.dfy`, `AmmLaws.dfy` | pool quotes, hop fees, the pool hop, and their laws (src/math/amm.rs) |
| `Sdk.dfy`, `SdkLaws.dfy` | quote wrappers, the source-to-context mapping, estimated reserves (src/sdk/mod.rs) |
| `Routing.dfy`, `RoutingLaws.dfy` | route check, route fold, discovery (src/sdk/pump_amm_ix.rs, src/sdk/mod.rs, src/async_client.rs) |
| `RouteFees.dfy` | what each hop of a quoted route charges and how far a change of rates reaches |
| `WrappedSol.dfy` | the zero key and wrapped SOL as one quote |
| `Seeding.dfy` | a fresh curve and the seed of a coin quoted in another pump coin (src/sdk/pump_v2.rs) |
| `Runs.dfy` | trading runs over the quoted moves |
| `Migration.dfy` | the completed curve and where its pool opens |

## Modelling choices

- `u64`, `u128` and `i128` are bounded integers. Checked operations return the source's error.
  Additions and products the source leaves unchecked are shown to fit: by the bounded type of the
  result, or, where the model adds in unbounded numbers, by `ExactInNeverOverflows`,
  `FeesOfU64Fit`, `TokenCostFitsU128` and `RawPriceFitsU128`. Those that can lose bits are written
  as `TruncU64` and `WrapU128`, which is what an optimised build computes: the v2 and AMM
  token-out costs and the slippage cap.
- A branch of the source that its own earlier checks rule out (a checked subtraction of fees from
  the amount they were derived from) has no branch in the model; the function's contract or
  `ExactInKernel` is what rules it out.
- Keys are a datatype with equality. Derived addresses are symbolic: a derivation keeps its seed
  and arguments and is never hashed.
- Fee rates come from the schedule through `CurveFeeBps` and `TradeRates`; no law bounds them
  unless it says so.
- A curve whose token side is zero is migrated, hence complete (`Priceable`): on any other curve
  the market-cap division of src/math/fees.rs:82 panics.
- The three loops of the source (`multi_hop_route`, `quote_multi_hop_swap`, `discover_route`) and
  the reassigned net of `exact_in_fee_amounts` are methods, each proved equal to the function, or
  against the relation, that the laws are about.
- Account fetches in discovery are a map from mint to curve. The run step is the ledger movement
  of a trade: the quoted net and tokens move the virtual and the real reserves together, a trade
  on a complete curve is refused, and nothing checks that a sale is covered.

## Where the code and its documentation differ

The model follows the code.

- `add_slippage` is documented to saturate (src/math/utils.rs:24-29); it casts. `CapFailsExample`
  has a cap below its cost, `CapSaturatesIff` says exactly when the documented value comes out, and
  `MaxInputCoversIffFits` exactly when the cap covers the cost, both for every tolerance.
- `FeesExceedOutput` is documented to need rates above 100% in total (src/math/mod.rs:23-26); a
  dust sale reaches it at 0.01%, on a curve and on a pool (`SellFeesExceedExample` in `CurveLaws`
  and in `AmmLaws`). `SellFeeErrorIff` of either module is the exact condition.
- The v2 token-out cost is cast to 64 bits (src/math/bonding_curve.rs:92) where the v3 path checks.
  `TruncationExample` shows two tokens costing 0; by `TokenOutExact` the quote is the price exactly
  when the price fits, and the monotonicity laws carry that condition.
- `sell_token_quote_with_sol` is documented as the inverse of the sell quote
  (src/math/bonding_curve.rs:483-487); it rounds down, so it is one exactly when its division is
  exact (`InverseSellIffExact`) and otherwise names a token too few (`InverseSellExample`).
- The exact-in net is not monotone with three rates: `NetDropExample`, and the exact condition in
  `NetDropsExactlyOnDoubleShave`.
- A round trip through a curve hop that crosses completion can gain when the pool-to-be opens below
  the curve's price: `CrossingRoundTripExample`. When it opens at or above, or the hop stays within
  the remaining supply, no round trip pays: `RouteRoundTripLoses`.
- A crossing hop always has budget left for its leg up to 100% total rates; one basis point above,
  it can reach its fallback: `HopFallbackExample`.

## Model

| member | source | states |
|---|---|---|
| Fee.ExactInFeeAmounts | src/math/fees.rs:55-71 | a successful derivation leaves a positive net and never charges more than the input |
| Fee.DeriveExactIn | src/math/fees.rs:55-71 | the step-by-step form, with `net` reassigned by the shave, computes exactly the function the laws are about |
| Fee.FeeBounds | src/math/fees.rs:21-31 | a fee times 10000, before any wrap-around, is at least the exact product and less than one fee unit above it, and 0 at rate 0 |
| Fee.WideFeeExactIffFits | src/math/fees.rs:29-31 | on any 128-bit amount the computed fee is the exact one if and only if its product fits 128 bits |
| Fee.FeesWithinIff | src/math/amm.rs:208-214 | up to three ceiled fees stay within an amount if and only if the share their rates leave covers what the roundings add |
| Fee.ExactInNeverOverflows | src/math/fees.rs:55-71 | for all inputs and rates every intermediate fits 128 bits and the fees fit the input up to the shave |
| Fee.ExactInKernel | src/math/fees.rs:44-71 | shave at most k-1 for k nonzero rates, net plus fees within the input and equal to it when shaved, leftover at most ceil(total/10000); the only failure is ZeroAmount on a net that does not survive the shave |
| Fee.NetMonotoneUpToOne | src/math/fees.rs:55-71 | more input never nets less with at most two charged rates, and at most one unit less with three |
| Fee.NetDropsExactlyOnDoubleShave | src/math/fees.rs:58-69 | one more unit of input nets less if and only if the floored net grows from an unshaved nonzero value to one shaved twice |
| Fee.NetDropExample | src/math/fees.rs:55-71 | rates of 1% three times net 100 from 104 and 99 from 105 |
| Fee.PriceNetsTarget | src/math/fees.rs:55-71 | paying the fee-inclusive price of a target nets the target up to the shave |
| Fee.LastReached | src/math/fees.rs:124-129 | the reverse search returns the last tier whose threshold is reached, and none only if no threshold is |
| Fee.TierDueIsCharged | src/math/fees.rs:116-130 | at every market cap, kept as a fraction, the table charges the fees of the last tier whose threshold is reached, or of the first tier below its threshold, and there always is such a tier |
| Fee.TierDueOnAscending | src/math/fees.rs:116-130 | on ascending thresholds that is the one tier whose interval holds the cap |
| Fee.TierIndexMonotone | src/math/fees.rs:118-130 | a coin with more value per token is never priced by an earlier tier, whatever the order of the thresholds |
| ScheduleLaws.CurvePaysTierDue | src/math/fees.rs:147-200 | a curve quoted in USDC or any spelling of SOL pays the rates of the tier due at quote times supply over tokens, with the mint's supply or a mayhem coin's recorded one, its own creator rate if configured, no creator rate without a creator, and fails only on an empty table |
| ScheduleLaws.PoolPaysTierDue | src/math/fees.rs:205-233 | the same for a canonical pump pool, LP rate included |
| ScheduleLaws.OthersPayFlat | src/math/fees.rs:147-172 | third-party pools and other quotes pay a flat schedule whatever the reserves and the supply, the exotic one only where it is set |
| ScheduleLaws.RatesSurviveMigration | src/math/fees.rs:178-233 | at the same price a coin pays the same protocol and creator rates on its curve and in its pool, and fails alike, in any quote |
| Runs.StepMovesTierWithTrade | src/math/fees.rs:76-130 | at unchanged supply a buy never moves a curve to an earlier tier and a sale never to a later one |
| Utils.SwapExactInput | src/math/utils.rs:17-22 | succeeds exactly when sum and product fit and the sum is nonzero, and never exceeds the output reserve |
| Utils.SwapOnU64 | src/math/utils.rs:17-22 | on 64-bit operands the swap fails only on 0/0 |
| Utils.SubSlippage | src/math/utils.rs:33-36 | a slippage floor never exceeds the value |
| SdkLaws.MinOutIsFloor | src/math/utils.rs:31-36 | the floor is the tolerance taken off, rounded down, and 0 from 100% on |
| SdkLaws.MaxInputCoversIffFits | src/math/utils.rs:24-29 | for every 16-bit tolerance the slippage cap covers the cost if and only if the raised cost fits 64 bits or, above 100% only, the bits kept reach it; a cap that fits is the cost plus the tolerance rounded down |
| SdkLaws.CapSaturatesIff | src/math/utils.rs:24-29 | for every 16-bit tolerance the cap is the documented saturated value if and only if the raised cost fits 64 bits or all its low 64 bits are set |
| SdkLaws.CapFailsExample | src/math/utils.rs:24-29 | 0.01% on the largest amount caps below it; at 655.35% a cap that lost bits can still cover |
| Arithmetic.CpLeastInput | src/math/utils.rs:14-22 | the constant product buys `out` from an input m if and only if m is at least ceil(Q*out/(B-out)) |
| Arithmetic.CpRoundTrip | src/math/utils.rs:14-22 | selling no more than a quantity worth at most m at the reserves' own ratio returns at most m |
| CurveLaws.CostGalois | src/math/bonding_curve.rs:343-358 | the price of t tokens is within m if and only if t*vq < m*(vt-t): the least whole net strictly above the exact price |
| CurveLaws.CostOfBought | src/math/bonding_curve.rs:343-358 | tokens bought with m are priced at no more than m+1, and strictly fewer tokens at no more than m |
| CurveLaws.ExactInFailsOnlyUnpriced | src/math/bonding_curve.rs:36-68 | an exact-in quote fails exactly on an emptied quote side or an empty tier table; a budget eaten by its fees buys nothing |
| CurveLaws.CrossingNeverFails | src/math/bonding_curve.rs:180-197 | when uncapped exact-in tokens exceed a nonzero remainder, pricing the remainder succeeds at net-1 or less and its fee-inclusive cost is strictly below the budget |
| CurveLaws.HopFallbackIsDead | src/math/bonding_curve.rs:259-283 | with rates totalling at most 100% a crossing hop always has budget left for the pool leg |
| CurveLaws.WholeBudgetNet | src/math/bonding_curve.rs:259-275 | the net of the whole-budget form is at least the shaved net and at most the floored net plus ceil(total rate/10000) |
| CurveLaws.HopFallbackExample | src/math/bonding_curve.rs:259-283 | at 100.01% an input of 20003 falls back to the bare remainder |
| CurveLaws.LegIsTotalAndConservative | src/math/bonding_curve.rs:393-420 | on positive reserves the leg never fails, never drains the pool, stays within its budget; the whole-budget form charges exactly the budget and buys at least as much |
| CurveLaws.LegMonotone | src/math/bonding_curve.rs:393-420 | a larger leg budget never buys less |
| CurveLaws.LegPriceWithinCharge | src/math/bonding_curve.rs:393-420 | the leg's tokens, priced by ceiling division with fees, cost strictly less than the leg charged |
| CurveLaws.LegReachesPrice | src/math/bonding_curve.rs:393-420 | a leg budget covering the ceiling price plus one and the possible shave, fees included, buys at least those tokens |
| CurveLaws.SellPaysTheMost | src/math/bonding_curve.rs:447-463 | a payout keeps the product of the reserves if and only if it is within the gross quote |
| CurveLaws.InverseSellIffExact | src/math/bonding_curve.rs:483-505 | selling the tokens the inverse names pays the amount if and only if the division is exact, never more, and one more token always reaches it |
| CurveLaws.InverseSellExample | src/math/bonding_curve.rs:483-505 | an exact and an inexact inverse evaluated |
| CurveLaws.CurveSellSplits | src/math/bonding_curve.rs:99-118 | the payout and the two ceiled fees add up to the gross; the only other outcome is that the fees exceed it |
| CurveLaws.SellFeesWithinOutput | src/math/bonding_curve.rs:110-117 | sale fees stay within the proceeds if and only if the share the two rates leave covers what rounding the fees up adds |
| CurveLaws.SellFeeErrorIff | src/math/bonding_curve.rs:99-118 | the curve sale is FeesExceedOutput exactly when that fails for its gross |
| CurveLaws.SellFeesWithinSize | src/math/bonding_curve.rs:110-117 | no fees exceed the proceeds once the share left after all rates is worth a unit |
| CurveLaws.FeesOfU64Fit | src/math/bonding_curve.rs:110-114 | an amount of 64 bits plus both fees fits 128 bits at any rates |
| CurveLaws.SellFeesExceedExample | src/math/bonding_curve.rs:99-118 | a gross of 1 with two 0.01% rates is FeesExceedOutput |
| CurveLaws.SellRefusals | src/math/bonding_curve.rs:99-118 | selling nothing, or on a curve without tokens, pays 0; a priced sale fails only on an empty tier table or its fees |
| CurveLaws.TokenOutRefusals | src/math/bonding_curve.rs:71-93 | a v2 buy by amount fails exactly on asking for the whole token side or on an empty tier table |
| V3Laws.CrossingFill | src/math/bonding_curve.rs:190-212 | a crossing fill is the remainder at its curve price, then the pool leg on what is left; a mayhem curve stops at the remainder |
| V3Laws.PoolToBeEmpty | src/math/bonding_curve.rs:362-385 | a pool opens exactly on an unsold rest of the base account and a raise above the migration fee that fits 64 bits, with those reserves, and which refusal it is otherwise |
| V3Laws.PastRemainderRefusals | src/math/bonding_curve.rs:124-165 | why a v3 buy by amount past the remainder fails, in the order the reasons are met |
| V3Laws.V3QuotersAgree | src/math/bonding_curve.rs:124-213 | whatever exact-in returns, token-out for those tokens succeeds and costs no more than was charged (strictly less with a pool leg), which is within the budget: on the curve, at the remainder, in the pool leg, on mayhem curves |
| V3Laws.V3TokensMonotone | src/math/bonding_curve.rs:171-213 | more budget never buys fewer tokens, through completion and into the pool leg |
| V3Laws.V3CostMonotone | src/math/bonding_curve.rs:124-165 | more tokens never cost less across completion, for every amount whose price fits, and the smaller amount always has a quote |
| V3Laws.V3CostAgainstV2 | src/math/bonding_curve.rs:71-165 | equal to the v2 quote up to the remainder and on mayhem curves, strictly above it past the remainder |
| V3Laws.TokenOutExact | src/math/bonding_curve.rs:71-93 | on every priceable amount the v2 quoter answers, and with the fee-inclusive price if and only if that price fits 64 bits |
| V3Laws.TruncationExample | src/math/bonding_curve.rs:82-92 | without the fit condition the v2 cast prices two tokens at 0 |
| V3Laws.ExactInReachesPrice | src/math/bonding_curve.rs:36-93 | a budget covering the price plus one and the possible shave, fees included, buys at least the tokens priced |
| V3Laws.CrossingReachesPrice | src/math/bonding_curve.rs:190-212 | a crossing budget covering the remainder plus the pool price of further tokens, one unit and the possible shave, fees included, delivers at least all of them |
| V3Laws.HopSellIsDirectSell | src/math/bonding_curve.rs:246-257 | a both-fees sell hop succeeds exactly when the direct sale pays a nonzero amount, with the same amount |
| V3Laws.CurveHopRefusals | src/math/bonding_curve.rs:246-294 | a priced curve sell hop fails exactly when its fees leave nothing; a buy hop for buying nothing, for an agent barred from the pool leg, or with the error of the remainder's price or of the pool that cannot open |
| V3Laws.HopBuyDominatesV3 | src/math/bonding_curve.rs:259-294 | a both-fees buy hop that succeeds delivers at least the v3 exact-in fill, crossing included |
| SdkLaws.PartialFillWithinBudget | src/sdk/mod.rs:351-387 | whenever the token quote succeeds so does the wrapper, within the budget and with min_out at most the amount; a fill on or past the remainder is charged exactly the remainder's fee-inclusive price |
| SdkLaws.V2WrappersClose | src/sdk/mod.rs:351-414 | quoting tokens for a budget and then the cost of those tokens promises the same tokens for no more |
| SdkLaws.V3WrappersClose | src/sdk/mod.rs:420-478 | the same for the v3 pair |
| SdkLaws.V3UsesWhatIsCharged | src/sdk/mod.rs:420-448 | the used input of a v3 quote is the charge: net plus fees on the curve, leaving at most the rounding bound unspent, and the remainder's fee-inclusive price when that is all it fills |
| SdkLaws.V3TokenOutIsV2 | src/sdk/mod.rs:451-478 | up to the remainder, and on mayhem curves for any amount, the v3 token-out quote equals the v2 quote |
| SdkLaws.QuotesCarryTolerance | src/sdk/mod.rs:351-478 | every curve quote bounds the side its trade leaves open by exactly the caller's tolerance, rounded down, and promises the tokens the program fills |
| AmmLaws.TokenOutBelowExactIn | src/math/amm.rs:104-182 | whatever exact-in delivers can be bought by amount for strictly less than the input |
| AmmLaws.ExactInReachesTokenOut | src/math/amm.rs:104-182 | the fee-inclusive price of the raw price plus the slack, at most three units, always buys at least the amount |
| AmmLaws.SellSplitsExactly | src/math/amm.rs:185-227 | a sale splits its raw proceeds exactly into seller, LP, protocol and creator parts, with all but LP within the vault's liquidity |
| AmmLaws.SellFeeErrorIff | src/math/amm.rs:208-214 | a sale is FeesExceedOutput if and only if the share the three rates leave does not cover what rounding the fees up adds |
| AmmLaws.SellFeesExceedExample | src/math/amm.rs:208-214 | a raw output of 1 with LP and protocol rates of 0.01% is FeesExceedOutput |
| AmmLaws.UnboostedPoolIsSolvent | src/math/amm.rs:15-50 | when the signed virtual reserve is minus the fee buckets, pricing and real reserves coincide and no sale is refused for lack of liquidity |
| AmmLaws.CompletedCurveIsSolvent | src/sdk/mod.rs:319-345 | a pool quoted from a completed curve never refuses a sale for lack of liquidity |
| AmmLaws.DisableFlagsAreIndependent | src/math/amm.rs:26-35 | whatever other flags are set, the 8s bit stops buys alone and the 16s bit sells alone |
| AmmLaws.ExactInRefusals | src/math/amm.rs:104-140 | which refusal an exact-in buy meets first, ZeroAmount being the only one left once it is priced |
| AmmLaws.TokenOutRefusals | src/math/amm.rs:146-182 | which refusal a buy by amount meets first, and that it meets no other |
| AmmLaws.SaleRefusals | src/math/amm.rs:185-227 | which refusal a sale meets first, with the exact conditions of the fee and liquidity errors |
| AmmLaws.VaultSplits | src/math/amm.rs:15-50 | a vault is exactly its liquidity plus the two fee buckets, and the pricing reserve less the virtual reserve; either is MathOverflow exactly when no 64-bit amount is |
| AmmLaws.SellHopSplitsExactly | src/math/amm.rs:266-345 | for any fee components a sell hop returns out exactly when out and the charged fees, each ceiled at its own trade rate, add up to the gross, all but the charged LP is within the vault's liquidity, and out is nonzero |
| AmmLaws.BuyHopSpendsTheRest | src/math/amm.rs:315-330 | for any fee components a buy hop buys t tokens if and only if their ceiling price is below the input less the charged fees |
| AmmLaws.PricedHopRefusals | src/math/amm.rs:315-344 | the exact conditions of a pool sell hop's liquidity, fee and zero errors, and that a buy hop's only error is ZeroAmount |
| AmmLaws.OneHopSellIsDirectSell | src/math/amm.rs:266-345 | on an eligible pool an all-legs sell hop succeeds with out exactly when the direct sale pays that nonzero amount |
| AmmLaws.OneHopBuyDominates | src/math/amm.rs:315-330 | whenever the direct exact-in buy succeeds the one-hop buy does, with at least as many tokens |
| Routing.CheckRoute | src/sdk/pump_amm_ix.rs:773-795 | the loop over running mint and direction computes the route function |
| Routing.QuoteRoute | src/sdk/mod.rs:483-544 | the loop carrying the amount computes the fold over the hops |
| RouteFees.RouteChargesOnce | src/sdk/mod.rs:500-537 | a quoted route of any length turns the input into the quoted amount hop by hop on each venue's own reserves, charging the protocol rate at the user's end alone and the creator and LP rates at the far end alone, a curve's pool leg included |
| RouteFees.InteriorHopIsFree | src/sdk/mod.rs:500-537 | between the ends a hop is the bare constant product of its venue, up to a curve's remainder |
| RouteFees.ProtocolRateStaysAtUserEnd | src/math/amm.rs:237-253 | changing protocol rates changes no amount, and no failure, before a sell's last hop nor across any stretch of hops without the user's end |
| RouteFees.CreatorAndLpRatesStayAtFarEnd | src/math/amm.rs:237-253 | the same for creator and LP rates and the far end |
| RouteFees.CashbackMattersAtFarEnd | src/math/amm.rs:277-283 | whether a coin is a cashback coin matters to a route at its far end only |
| Routing.DiscoverRoute | src/async_client.rs:568-612 | for any finite map, cyclic ones included, the walk ends within 8 hops, at stop_at, at a mint without a curve or at the limit; it fails only when it takes no step |
| WrappedSol.DiscoveryStartsAtMint | src/async_client.rs:590-610 | no discovered route starts at the zero key |
| WrappedSol.CurveTradesItsQuote | src/sdk/pump_v2.rs:91-97 | wrapped SOL buys through a curve stored with the zero key and is what selling on it returns; every other stored quote trades as itself |
| WrappedSol.SpellingKeepsRouteQuote | src/sdk/mod.rs:483-544 | spelling curves' quotes as the zero key or as wrapped SOL changes no route quote and no refusal |
| WrappedSol.SpellingKeepsDiscovery | src/async_client.rs:568-612 | nor what discovery returns and where it stops |
| WrappedSol.DiscoveryIsDetermined | src/async_client.rs:568-612 | what the walk's contract says of a route leaves only one route |
| RoutingLaws.CyclicWalkEndsAtEight | src/async_client.rs:573-576 | a coin quoted in itself is walked eight times |
| RoutingLaws.RouteIffLinked | src/sdk/pump_amm_ix.rs:770-795 | a route is accepted as a buy, or as a sell, if and only if its mints link up that way, and with which output mint |
| RoutingLaws.ReversedBuySellsBack | src/sdk/pump_amm_ix.rs:770-795 | a reversed buy route sells back to the input mint if and only if every hop's base differs from its quote |
| RoutingLaws.ReversedSellBuysBack | src/sdk/pump_amm_ix.rs:770-795 | a reversed sell route always buys back to its input mint |
| RoutingLaws.FeesPlacedOnce | src/math/amm.rs:237-253 | over any number of hops exactly one charges protocol and exactly one creator and LP, mirrored between the directions |
| RoutingLaws.FlagsCarryHopFees | src/math/amm.rs:255-258 | the flag byte makes a curve hop charge exactly the components placed on it |
| RoutingLaws.RouteQuoteInvariants | src/sdk/mod.rs:495-543 | every intermediate amount of a successful quote is at least 1 and 1 <= min_out <= amount |
| RoutingLaws.RouteMinOutIsFloor | src/sdk/mod.rs:538-543 | above the least promise of 1 a route promises its amount less the tolerance, rounded down |
| RoutingLaws.RouteUsesSupportedVenues | src/math/amm.rs:277-283 | no venue of a quoted route is complete, mayhem, third-party or disabled, none paying the creator is cashback, and an agent barred from the pool leg never gets more than a remainder |
| RoutingLaws.UnsupportedVenueIsRefused | src/math/amm.rs:277-283 | on an unsupported venue a hop is refused as VenueNotSupported, or TradingDisabled on a pool whose direction is off, whatever else is wrong |
| RoutingLaws.OneHopRouteIsDirectSell | src/sdk/mod.rs:483-544 | a one-hop sell route quotes exactly the direct sale |
| RoutingLaws.HopBuyThenSellLoses | src/math/amm.rs:315-344 | buying on a hop and selling no more than was bought returns strictly less than was paid, whatever the two sets of fees, unless a buy on a curve takes tokens from a pool-to-be that opens below the curve's price |
| RoutingLaws.HopSellThenBuyLoses | src/math/amm.rs:315-344 | selling on a hop and spending no more than the proceeds buys back strictly less, under the same condition on the buy |
| RoutingLaws.WayBackStaysBelow | src/sdk/mod.rs:500-537 | along the reversed route the amount held stays strictly below what the way out held at the same point, when every curve buy stays within its remainder or its pool-to-be opens at or above the curve's price |
| RoutingLaws.RouteRoundTripLoses | src/sdk/mod.rs:483-544 | for routes of any length and venue mix, in either direction, the reversed quote of the returned amount is strictly below the input, when every curve buy stays within its remainder or its pool-to-be opens at or above the curve's price |
| RoutingLaws.FairSnapshotRoundTripLoses | src/sdk/mod.rs:483-544 | if every curve on the route opens its pool at or above its price, which the snapshot decides before any quote, no amount makes a round trip pay, crossing hops included |
| RoutingLaws.CrossingRoundTripExample | src/sdk/mod.rs:483-544 | at 1% protocol and 0.5% creator fees, through a curve whose pool-to-be opens below its price, the route quotes 979 for 100 and the reversed route 486 for 979 |
| RoutingLaws.DiscoveryIsSound | src/async_client.rs:592-611 | whatever the curve accounts hold, the discovered steps form a buy route from in_mint to out_mint, and reversed a sell route home if and only if no hop is quoted in its own base; the venues on either path name those steps if and only if every complete curve on the walk has its pool |
| Seeding.SeedCompletesAtRaise | src/sdk/pump_v2.rs:179-199 | a curve built from a derived seed completes at C with C <= raise+1, C*unsold > raise*unsold - real and C within the quote coin's base side |
| Seeding.DerivedSeedCompletesAtRaise | src/sdk/pump_v2.rs:127-200 | the same for the whole derivation, one deeper than the quote coin and within the configured maximum |
| Seeding.SeedSurvivesMigration | src/sdk/pump_v2.rs:154-178 | a migrated coin gives the seed and depth the same coin on an open curve gives at its pool's base vault and effective quote reserve, which are the reserves the AMM quoters price it on |
| Seeding.MigratedCoinNeedsPool | src/sdk/pump_v2.rs:154-192 | a migrated coin seeds nothing without its pool or with either side of it empty |
| Seeding.MigratedSeedExample | src/sdk/pump_v2.rs:154-199 | a target of 100 on vaults of 10000 and 600 seeds 1000 |
| Seeding.EligibleQuoteCoins | src/sdk/pump_v2.rs:133-178 | the derivation succeeds exactly on a coin that is not mayhem, below the depth limit, open or migrated with its pool, in an admitted quote, whose raise can be priced |
| Seeding.QuoteCoinRefusals | src/sdk/pump_v2.rs:133-178 | which refusal a creation meets first |
| Seeding.TargetIsCreationSeed | src/sdk/pump_v2.rs:105-152 | a directly quoted coin's target is the seed it is created with, or neither exists, except on stored wrapped SOL with differing global seeds |
| Seeding.SeedOnOpenCurve | src/sdk/pump_v2.rs:172-199 | on a curve at or below its initial tokens and at or above the target seed, raise <= real and seed <= unsold |
| Seeding.SeedFallsAsQuoteCoinIsBought | src/sdk/pump_v2.rs:189-199 | fewer tokens and more quote on the quote coin never raise the seed |
| Runs.SaleIsCovered | src/math/bonding_curve.rs:99-118 | a sale of outstanding tokens is within the real quote reserves, which no quoter checks, and keeps the product |
| Runs.SellQuoteIsCovered | src/math/bonding_curve.rs:99-118 | for every amount outstanding the sell gross is within the real quote reserves, also where fees make the quoter fail, and its net is within the gross |
| Runs.Step | src/math/bonding_curve.rs:20-118 | one quoted trade keeps the run invariant and never lowers the product of the virtual reserves |
| Runs.ExactInSettlesQuote | src/sdk/mod.rs:351-387 | an exact-in step moves the quoted tokens, books the quoted net or the price of the remainder, and costs the quoted input |
| Runs.V3SettlesFill | src/math/bonding_curve.rs:171-213 | a v3 step on the curve moves the fill's tokens, books its net and costs its charge |
| Runs.TokenOutSettlesCost | src/math/bonding_curve.rs:71-93 | a token-out step books the price without fees and costs the quoted amount |
| Runs.SaleSettlesProceeds | src/math/bonding_curve.rs:99-118 | a sale step takes the gross off the curve and pays the quoted proceeds |
| Runs.ProductNeverFalls | src/math/bonding_curve.rs:36-118 | no run of quoted trades lowers the product of the virtual reserves |
| Runs.RunIsSolvent | src/math/bonding_curve.rs:36-118 | after any run from a fresh curve the quote side is at least its seed, payments cover payouts plus the quote still held, and the gross of every further sale of outstanding tokens is covered |
| Runs.SeedFromRunningCoin | src/sdk/pump_v2.rs:127-200 | whenever the whole derivation succeeds on a coin anywhere along a run, at any depth, raise <= real and seed <= unsold; at depth 0 the target must be within the coin's quote side |
| Runs.CreationSeedMeetsTarget | src/sdk/pump_v2.rs:105-152 | a coin created in any quote but SOL has its own seed as target, within its quote side wherever its run has taken it |
| Runs.CreatedCoinKeepsTerms | src/sdk/pump_v2.rs:231-257 | wherever its run has taken it a coin has the terms it was created with, and stores wrapped SOL whichever way its creation spelt it |
| Runs.BuyStepNeverRaisesSeed | src/sdk/pump_v2.rs:179-199 | a buy step on the quote coin never raises the seed derived from it |
| Migration.CompletionOf | src/math/bonding_curve.rs:190-212 | the parts of a completing buy exist: a priced remainder, a pool, a leg that does not drain it |
| Migration.CompletionAddsUp | src/math/bonding_curve.rs:190-212 | the parts add up to the quoted tokens and charge, within the budget |
| Migration.EstimateFailsOnlyEmpty | src/sdk/mod.rs:651-671 | an estimate succeeds exactly on a positive base and a raise above the migration fee within 64 bits, deposits them, and fails as EmptyReserves otherwise |
| Migration.EstimateOpensWhereLegStopped | src/sdk/mod.rs:651-671 | reserves estimated from the completed curve equal (pool_base - base_out, pool_quote + leg quote) for SOL and token quotes, exactly while the raised quote fits, with a product at least that of the pool-to-be |
| Migration.FirstTradeContinues | src/sdk/mod.rs:319-345 | a trade quoted from the completed curve is priced on those reserves |
| Migration.QuotesSurviveMigration | src/sdk/mod.rs:319-345 | every AMM quoter answers, refusals included, from a completed curve as on the canonical unboosted pool its migration creates, and route hops accept that pool unless the coin is mayhem or a cashback coin charged for its creator |
| Migration.RunKeepsAtaMatched | src/sdk/mod.rs:647-656 | along any run the base account holds the unsold supply, which is what the estimated base reserve supposes |
| Migration.CompletionConserves | src/math/bonding_curve.rs:360-420 | base account = buyer's tokens + estimated pool; charge + quote raised before = estimated pool + migration fee + fees |
| Migration.CompletionExample | src/math/bonding_curve.rs:171-213 | a concrete curve on which 100 takes the last token for 2 and 979 tokens of the pool |

## Left out

- Instruction builders and account metas: fixed account layouts over generated types.
- RPC, signing, sending and account decoding: only the discovery walk and the route path of the asynchronous client are modelled.
- Discovery errors other than an absent curve (transport and decoding failures).
- Random fee-recipient choice: no pricing effect.
- `validate_market_cap`, and of the fee-free helper quotes all but `sell_token_quote_with_sol` of the curve: the buy helper is the bare swap, and the AMM copies restate the same formulas.
- AMM quote wrappers: they attach slippage limits to the quoters modelled here.
- The on-chain programs beyond the reserve movements of the run step and of a completing buy.
- v2 quotes do not look at `complete`; the run step refuses trades on a complete curve, as the programs do.
- RouteRoundTripLoses: one direction. A pool that opens below its curve's price need not make a round trip pay: the fees, the roundings and the curve's own spread between buying and selling can still eat the gain, and which amounts escape depends on all three.
- Step: refuses a token-out buy whose price does not fit 64 bits, because the quoter's cast result is not a price the program charges; and of the buys that cross completion it takes only those with an empty pool leg, the others being the subject of `Migration.dfy`.
