/** Shared numeric helpers (src/math/utils.rs). */
module Utils {
  import opened Arithmetic
  import opened State

  /** `a * b / c` with the product and the division checked. */
  function MulDivU128(a: u128, b: u128, c: u128): (r: Result<u128>)
    ensures r.Ok? <==> a * b <= U128_MAX && c > 0
    ensures r.Ok? ==> r.value == Floor(a * b, c)
  {
    if a * b > U128_MAX then Err(MathOverflow)
    else if c == 0 then Err(MathOverflow)
    else
      FloorAtMost(a * b, c);
      Ok(Floor(a * b, c))
  }

  /** Constant-product exact-in swap, rounded down. */
  function SwapExactInput(amount: u128, inReserve: u128, outReserve: u128): (r: Result<u128>)
    ensures r.Ok? <==>
            0 < inReserve + amount <= U128_MAX && amount * outReserve <= U128_MAX
    ensures r.Ok? ==> r.value == CpOut(amount, inReserve, outReserve) && r.value <= outReserve
  {
    if inReserve + amount > 0 then
      CpBelowReserve(amount, inReserve, outReserve);
      SwapChecked(amount, inReserve, outReserve)
    else SwapChecked(amount, inReserve, outReserve)
  }

  function SwapChecked(amount: u128, inReserve: u128, outReserve: u128): Result<u128> {
    if inReserve + amount > U128_MAX then Err(MathOverflow)
    else MulDivU128(amount, outReserve, inReserve + amount)
  }

  /** On `u64` operands the swap only fails on `0 / 0`. */
  lemma SwapOnU64(amount: u64, inReserve: u64, outReserve: u64)
    ensures SwapExactInput(amount, inReserve, outReserve).Ok? <==> inReserve + amount > 0
  {
    ProductFits(amount, outReserve);
  }

  /**
   * The swap on `u64` reserves. The output is at most the output reserve, so it is a `u64`, and it
   * drains neither side of a pool whose reserves are both positive.
   */
  function SwapU64(amount: u64, inReserve: u64, outReserve: u64): (r: Result<u64>)
    ensures r.Ok? <==> inReserve + amount > 0
    ensures r.Ok? ==> r.value == CpOut(amount, inReserve, outReserve) && r.value <= outReserve
    ensures r.Ok? && inReserve > 0 && outReserve > 0 ==> r.value < outReserve
  {
    SwapOnU64(amount, inReserve, outReserve);
    var out :- SwapExactInput(amount, inReserve, outReserve);
    CpBelowReserve(amount, inReserve, outReserve);
    Ok(out)
  }

  /** `value * (10_000 + bps) / 10_000`, cast (not saturated) to `u64`. */
  function AddSlippage(value: u64, bps: nat): (r: u64)
    requires bps <= 0xFFFF
  {
    TruncU64(value * (10_000 + bps) / 10_000)
  }

  /** `value * (10_000 - bps) / 10_000`; a tolerance above 100% floors at 0. */
  function SubSlippage(value: u64, bps: nat): (r: u64)
    requires bps <= 0xFFFF
    ensures r <= value
  {
    var kept := 10_000 - Min(bps, 10_000);
    MulLe(kept, 10_000, value);
    TruncU64(value * kept / 10_000)
  }
}
