/** Shared vocabulary: results, int64 arithmetic and the int64-to-float64 conversion. */
module Common {

  /** A Go `(value, error)` pair or a Rust `Result`; the repository never branches on error text. */
  datatype Result<+T> = Ok(value: T) | Err

  datatype Option<+T> = Some(value: T) | None

  const MIN_INT64: int := -0x8000_0000_0000_0000
  const MAX_INT64: int := 0x7fff_ffff_ffff_ffff

  predicate IsInt64(n: int) { MIN_INT64 <= n <= MAX_INT64 }

  type Int64 = n: int | IsInt64(n)

  /** Two's-complement wrap-around, what Go's int64 `+`, `-` and `*` do on overflow. */
  function Wrap64(n: int): int {
    (n + 0x8000_0000_0000_0000) % 0x1_0000_0000_0000_0000 - 0x8000_0000_0000_0000
  }

  /** The one int64 that differs from the true result by a multiple of 2^64. */
  lemma WrapMeaning(n: int) returns (k: int)
    ensures IsInt64(Wrap64(n)) && Wrap64(n) == n + k * 0x1_0000_0000_0000_0000
  {
    var m := n + 0x8000_0000_0000_0000;
    k := -(m / 0x1_0000_0000_0000_0000);
  }

  // ----- int64 to float64: round to nearest, ties to even, 53-bit significand -----

  const TWO53: int := 0x20_0000_0000_0000

  /** The spacing of float64 values around `m`: the least power of two u with m < 2^53 * u. */
  function Unit(m: nat): (u: nat)
    ensures 1 <= u && m < TWO53 * u && (1 < u ==> TWO53 * u <= 2 * m)
  {
    if m < TWO53 then 1 else 2 * Unit(m / 2)
  }

  function RoundHalfEven(m: nat, u: nat): nat
    requires 0 < u
  {
    var q, r := m / u, m % u;
    if 2 * r < u || (2 * r == u && q % 2 == 0) then q else q + 1
  }

  function RoundNat(m: nat): nat { RoundHalfEven(m, Unit(m)) * Unit(m) }

  /** The float64 a Go conversion float64(n) yields; always integral. */
  function Float64(n: int): int { if n < 0 then var r: int := RoundNat(-n); -r else RoundNat(n) }

  lemma {:induction false} UnitSteps(a: nat, b: nat)
    requires a <= b
    ensures Unit(a) == Unit(b) || 2 * Unit(a) <= Unit(b)
  {
    if b >= TWO53 && a >= TWO53 {
      UnitSteps(a / 2, b / 2);
    }
  }

  lemma MulMono(a: int, b: int, u: nat)
    ensures a <= b ==> a * u <= b * u
    ensures a < b ==> a * u + u <= b * u
  {
    Distribute(a, 1, u);
    if a < b { MulLe(a + 1, b, u); }
  }

  lemma Distribute(a: int, b: int, u: int)
    ensures (a + b) * u == a * u + b * u
  {}

  lemma MulLe(a: int, b: int, u: nat)
    requires a <= b
    ensures a * u <= b * u
  {}

  /** A multiple of the spacing on either side of m bounds its rounding on that side. */
  lemma RoundBetween(m: nat, u: nat, k: nat)
    requires 0 < u
    ensures m <= k * u ==> RoundHalfEven(m, u) <= k
    ensures k * u <= m ==> k <= RoundHalfEven(m, u)
  {
    var q, r := m / u, m % u;
    assert m == q * u + r;
    MulMono(k, q, u);
    MulMono(q, k, u);
  }

  lemma RoundMonoSameUnit(a: nat, b: nat, u: nat)
    requires a <= b && 0 < u
    ensures RoundHalfEven(a, u) <= RoundHalfEven(b, u)
  {
    assert a == a / u * u + a % u && b == b / u * u + b % u;
    MulMono(b / u, a / u, u);
  }

  lemma RoundNatMonotone(a: nat, b: nat)
    requires a <= b
    ensures RoundNat(a) <= RoundNat(b)
  {
    var ua, ub := Unit(a), Unit(b);
    UnitSteps(a, b);
    if ua == ub {
      RoundMonoSameUnit(a, b, ua);
      MulMono(RoundHalfEven(a, ua), RoundHalfEven(b, ua), ua);
    } else {
      RoundBetween(a, ua, TWO53);
      MulMono(RoundHalfEven(a, ua), TWO53, ua);
      RoundBetween(b, ub, TWO53 / 2);
      MulMono(TWO53 / 2, RoundHalfEven(b, ub), ub);
    }
  }

  /** The conversion never reverses an order, though it may merge neighbours. */
  lemma Float64Monotone(a: int, b: int)
    requires a <= b
    ensures Float64(a) <= Float64(b)
  {
    if 0 <= a {
      RoundNatMonotone(a, b);
    } else if b < 0 {
      RoundNatMonotone(-b, -a);
    }
  }

  lemma Float64Exact(n: int)
    requires -TWO53 <= n <= TWO53
    ensures Float64(n) == n
  {
    if n == TWO53 || n == -TWO53 {
      assert Unit(TWO53) == 2 * Unit(TWO53 / 2) == 2;
    }
  }

  lemma RoundNatError(m: nat)
    ensures 2 * RoundNat(m) <= 2 * m + Unit(m) && 2 * m <= 2 * RoundNat(m) + Unit(m)
  {
    var u := Unit(m);
    var q, r := m / u, m % u;
    assert m == q * u + r;
    assert (q + 1) * u == q * u + u;
  }

  /** No multiple of the spacing is nearer than the rounding, and of two as near the even one is taken. */
  lemma RoundsHalfEven(m: nat, k: nat)
    ensures var u := Unit(m); var r := RoundHalfEven(m, u);
      && RoundNat(m) == r * u
      && Distance(m, r * u) <= Distance(m, k * u)
      && (Distance(m, r * u) == Distance(m, k * u) && k != r ==> r % 2 == 0)
  {
    var u := Unit(m);
    NearestMultiple(m, u, m / u, m % u, k);
  }

  lemma NearestMultiple(m: nat, u: nat, q: nat, rem: nat, k: nat)
    requires 0 < u && m == q * u + rem && rem < u
    ensures var r := if 2 * rem < u || (2 * rem == u && q % 2 == 0) then q else q + 1;
      && Distance(m, r * u) <= Distance(m, k * u)
      && (Distance(m, r * u) == Distance(m, k * u) && k != r ==> r % 2 == 0)
  {
    assert (q + 1) * u == q * u + u;
    MulMono(k, q, u);
    MulMono(q + 1, k, u);
    assert k < q ==> k * u + u <= q * u;
    assert q + 1 < k ==> q * u + 2 * u <= k * u;
  }

  function Distance(a: int, b: int): nat { if a < b then b - a else a - b }

  lemma UnitOfTwo63()
    ensures Unit(0x8000_0000_0000_0000) == 2048
  {
    assert Unit(TWO53) == 2;
    assert Unit(4 * TWO53) == 8;
    assert Unit(16 * TWO53) == 32;
    assert Unit(64 * TWO53) == 128;
    assert Unit(256 * TWO53) == 512;
    assert Unit(1024 * TWO53) == 2048;
  }

  /** Below 2^63 the conversion errs by at most 512. */
  lemma RoundNatWithin(m: nat)
    requires m <= 0x8000_0000_0000_0000
    ensures m - 512 <= RoundNat(m) <= m + 512
  {
    UnitOfTwo63();
    UnitSteps(m, 0x8000_0000_0000_0000);
    RoundNatError(m);
  }

  /** Two int64 values more than 1024 apart stay distinct, so nanosecond timestamps over a microsecond apart do. */
  lemma Float64Separates(a: int, b: int)
    requires IsInt64(a) && IsInt64(b) && a + 1024 < b
    ensures Float64(a) < Float64(b)
  {
    RoundNatWithin(if a < 0 then -a else a);
    RoundNatWithin(if b < 0 then -b else b);
  }
}
