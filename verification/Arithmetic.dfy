/**
 * Machine-width types and the handful of nonlinear facts the quote proofs rest on.
 * Every rounding in the quoters is a floor or a ceiling division, so each fact is
 * stated as a Galois connection: a comparison with a quotient is a comparison of products.
 */
module Arithmetic {
  const U64_MAX: nat := 0xFFFF_FFFF_FFFF_FFFF
  const U128_MAX: nat := 0xFFFF_FFFF_FFFF_FFFF_FFFF_FFFF_FFFF_FFFF
  const I128_MAX: nat := 0x7FFF_FFFF_FFFF_FFFF_FFFF_FFFF_FFFF_FFFF

  type u8 = x: int | 0 <= x <= 0xFF
  type u64 = x: int | 0 <= x <= 0xFFFF_FFFF_FFFF_FFFF
  type u128 = x: int | 0 <= x <= 0xFFFF_FFFF_FFFF_FFFF_FFFF_FFFF_FFFF_FFFF
  type i128 = x: int |
    -0x8000_0000_0000_0000_0000_0000_0000_0000 <= x <= 0x7FFF_FFFF_FFFF_FFFF_FFFF_FFFF_FFFF_FFFF

  /** The `as u64` cast: keeps the low 64 bits. */
  function TruncU64(x: nat): (r: u64)
    ensures x <= U64_MAX ==> r == x
  {
    x % 0x1_0000_0000_0000_0000
  }

  /** Unchecked `u128` arithmetic of an optimised build: keeps the low 128 bits. */
  function WrapU128(x: nat): (r: u128)
    ensures x <= U128_MAX ==> r == x
  {
    x % 0x1_0000_0000_0000_0000_0000_0000_0000_0000
  }

  function Min(a: int, b: int): (r: int)
  {
    if a <= b then a else b
  }

  /** Division of unsigned integers, rounded down. */
  function Floor(a: nat, b: nat): (r: nat)
    requires b > 0
  {
    a / b
  }

  /** `a.div_ceil(b)`. */
  function CeilDiv(a: nat, b: nat): (r: nat)
    requires b > 0
  {
    if a % b == 0 then Floor(a, b) else Floor(a, b) + 1
  }

  lemma MulLe(x: int, y: int, z: nat)
    requires x <= y
    ensures x * z <= y * z
  {}

  lemma MulLt(x: int, y: int, z: nat)
    requires x < y && z > 0
    ensures x * z < y * z
  {}

  lemma FloorBracket(a: nat, b: nat)
    requires b > 0
    ensures Floor(a, b) * b <= a < Floor(a, b) * b + b
    ensures a % b == a - Floor(a, b) * b
  {
    var q := a / b;
    assert a == q * b + a % b;
  }

  /** `m <= floor(a / b)` exactly when `m * b <= a`. */
  lemma FloorGalois(a: nat, b: nat, m: int)
    requires b > 0
    ensures m <= Floor(a, b) <==> m * b <= a
  {
    hide Floor;
    FloorBracket(a, b);
    var q := Floor(a, b);
    if m <= q {
      MulLe(m, q, b);
    } else {
      MulLe(q + 1, m, b);
      assert (q + 1) * b == q * b + b;
    }
  }

  lemma CeilBracket(a: nat, b: nat)
    requires b > 0
    ensures a <= CeilDiv(a, b) * b < a + b
  {
    hide Floor;
    FloorBracket(a, b);
    var q := Floor(a, b);
    assert (q + 1) * b == q * b + b;
  }

  /** `ceil(a / b) <= m` exactly when `a <= m * b`. */
  lemma CeilGalois(a: nat, b: nat, m: int)
    requires b > 0
    ensures CeilDiv(a, b) <= m <==> a <= m * b
  {
    hide CeilDiv;
    CeilBracket(a, b);
    var c := CeilDiv(a, b);
    if c <= m {
      MulLe(c, m, b);
    } else {
      MulLe(m + 1, c, b);
      assert (m + 1) * b == m * b + b;
    }
  }

  lemma FloorMono(a: nat, a': nat, b: nat)
    requires b > 0 && a <= a'
    ensures Floor(a, b) <= Floor(a', b)
  {
    hide Floor;
    FloorGalois(a, b, Floor(a, b));
    FloorGalois(a', b, Floor(a, b));
  }

  lemma CeilMono(a: nat, a': nat, b: nat)
    requires b > 0 && a <= a'
    ensures CeilDiv(a, b) <= CeilDiv(a', b)
  {
    hide CeilDiv;
    CeilGalois(a', b, CeilDiv(a', b));
    CeilGalois(a, b, CeilDiv(a', b));
  }

  /** A product of two `u64` values never overflows `u128`. */
  lemma ProductFits(a: nat, b: nat)
    requires a <= U64_MAX && b <= U64_MAX
    ensures a * b <= U64_MAX * U64_MAX <= U128_MAX
  {
    MulLe(a, U64_MAX, b);
    MulLe(b, U64_MAX, U64_MAX);
  }

  lemma CeilAtMost(a: nat, b: nat)
    requires b > 0
    ensures CeilDiv(a, b) <= a
  {
    hide CeilDiv;
    MulLe(1, b, a);
    CeilGalois(a, b, a);
  }

  lemma FloorAtMost(a: nat, b: nat)
    requires b > 0
    ensures Floor(a, b) <= a
  {
    hide Floor;
    FloorBracket(a, b);
    MulLe(1, b, Floor(a, b));
  }

  // ---- constant product ----

  /** Floor constant product: what `m` buys out of `outReserve` against `inReserve`. */
  function CpOut(m: nat, inReserve: nat, outReserve: nat): (r: nat)
    requires inReserve + m > 0
  {
    Floor(m * outReserve, inReserve + m)
  }

  /** The output never exceeds the exact quotient. */
  lemma CpRoundsDown(m: nat, inReserve: nat, outReserve: nat)
    requires inReserve + m > 0
    ensures CpOut(m, inReserve, outReserve) * (inReserve + m) <= m * outReserve
  {
    hide Floor;
    FloorGalois(m * outReserve, inReserve + m, CpOut(m, inReserve, outReserve));
  }

  /** Buying `out` is affordable with `m` exactly when `out * in <= m * (outReserve - out)`. */
  lemma CpGalois(m: nat, inReserve: nat, outReserve: nat, out: int)
    requires inReserve + m > 0
    ensures out <= CpOut(m, inReserve, outReserve) <==> out * inReserve <= m * (outReserve - out)
  {
    hide Floor;
    FloorGalois(m * outReserve, inReserve + m, out);
    CpCrossMultiply(m, inReserve, outReserve, out);
  }

  lemma CpCrossMultiply(m: int, inReserve: int, outReserve: int, out: int)
    ensures out * (inReserve + m) <= m * outReserve <==> out * inReserve <= m * (outReserve - out)
  {
    assert out * (inReserve + m) == out * inReserve + out * m;
    assert m * (outReserve - out) == m * outReserve - m * out;
  }

  /** The ceiling price is the least input that buys `out`. */
  lemma CpLeastInput(m: nat, inReserve: nat, outReserve: nat, out: nat)
    requires inReserve + m > 0 && out < outReserve
    ensures out <= CpOut(m, inReserve, outReserve) <==> CeilDiv(inReserve * out, outReserve - out) <= m
  {
    hide CpOut, CeilDiv;
    CpGalois(m, inReserve, outReserve, out);
    CeilGalois(inReserve * out, outReserve - out, m);
  }

  /** The ceiling price never falls as more is asked for. */
  lemma CeilPriceMono(inReserve: nat, outReserve: nat, out: nat, out': nat)
    requires out <= out' < outReserve
    ensures CeilDiv(inReserve * out, outReserve - out) <= CeilDiv(inReserve * out', outReserve - out')
  {
    hide CeilDiv;
    var price, price' := inReserve * out, inReserve * out';
    var c := CeilDiv(price', outReserve - out');
    CeilGalois(price', outReserve - out', c);
    MulLe(out, out', inReserve);
    MulLe(outReserve - out', outReserve - out, c);
    CeilGalois(price, outReserve - out, c);
  }

  /** The output reserve is never overdrawn, and never drained against a positive input reserve. */
  lemma CpBelowReserve(m: nat, inReserve: nat, outReserve: nat)
    requires inReserve + m > 0
    ensures CpOut(m, inReserve, outReserve) <= outReserve
    ensures inReserve > 0 && outReserve > 0 ==> CpOut(m, inReserve, outReserve) < outReserve
  {
    hide CpOut;
    CpGalois(m, inReserve, outReserve, outReserve);
    CpGalois(m, inReserve, outReserve, outReserve + 1);
    if outReserve > 0 {
      MulLe(1, outReserve, inReserve);
    }
    MulLe(1, outReserve + 1, inReserve);
  }

  lemma CpMono(m: nat, m': nat, inReserve: nat, outReserve: nat)
    requires inReserve > 0 && m <= m'
    ensures CpOut(m, inReserve, outReserve) <= CpOut(m', inReserve, outReserve)
  {
    hide CpOut;
    var out := CpOut(m, inReserve, outReserve);
    CpBelowReserve(m, inReserve, outReserve);
    CpGalois(m, inReserve, outReserve, out);
    CpGalois(m', inReserve, outReserve, out);
    MulLe(m, m', outReserve - out);
  }

  /** Paying at least `m + 1` for `CpOut(m)` never lowers the product of the reserves. */
  lemma CpBuyKeepsProduct(m: nat, paid: nat, inReserve: nat, outReserve: nat)
    requires inReserve + m > 0 && m <= paid
    requires CpOut(m, inReserve, outReserve) <= outReserve
    ensures (inReserve + paid) * (outReserve - CpOut(m, inReserve, outReserve)) >= inReserve * outReserve
  {
    hide CpOut;
    var out := CpOut(m, inReserve, outReserve);
    CpGalois(m, inReserve, outReserve, out);
    MulLe(m, paid, outReserve - out);
    assert (inReserve + paid) * (outReserve - out)
        == inReserve * outReserve - inReserve * out + paid * (outReserve - out);
  }

  /** What `m` buys is worth at most `m` at the reserves' own ratio. */
  lemma CpOutWorth(m: nat, inReserve: nat, outReserve: nat)
    requires inReserve + m > 0
    ensures CpOut(m, inReserve, outReserve) * inReserve <= m * outReserve
  {
    hide CpOut;
    var out := CpOut(m, inReserve, outReserve);
    CpRoundsDown(m, inReserve, outReserve);
    assert out * (inReserve + m) == out * inReserve + out * m;
    MulLe(0, out, m);
  }

  /**
   * Selling no more than an amount worth at most `m` at the reserves' own ratio returns at most
   * `m`: the core of every same-snapshot round trip.
   */
  lemma CpRoundTrip(m: nat, inReserve: nat, outReserve: nat, out: nat, back: nat)
    requires outReserve > 0 && back <= out && out * inReserve <= m * outReserve
    ensures CpOut(back, outReserve, inReserve) <= m
  {
    hide CpOut;
    var got := CpOut(back, outReserve, inReserve);
    CpRoundsDown(back, outReserve, inReserve);
    MulLe(back, out, inReserve);
    MulLe(outReserve, outReserve + back, m);
    if got > m {
      MulLt(m, got, outReserve + back);
    }
  }

  lemma CancelLe(x: int, y: int, z: nat)
    requires z > 0 && x * z <= y * z
    ensures x <= y
  {
    if x > y {
      MulLt(y, x, z);
    }
  }
}
