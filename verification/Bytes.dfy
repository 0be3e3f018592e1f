/** Bytes, digests and big-endian integers, shared by the ledger and the kernel. */
module Bytes {

  type Byte = b: int | 0 <= b < 256

  function Zeros(n: nat): (bs: seq<Byte>)
    ensures |bs| == n && forall i :: 0 <= i < n ==> bs[i] == 0
  {
    if n == 0 then [] else Zeros(n - 1) + [0]
  }

  type Digest = d: seq<Byte> | |d| == 32 witness Zeros(32)

  const ZERO_DIGEST: Digest := Zeros(32)

  /** BLAKE3 (or any hash to 32 bytes): results name explicit collisions instead of assuming there are none. */
  type Hash = seq<Byte> -> Digest

  ghost predicate Collide(H: Hash, x: seq<Byte>, y: seq<Byte>) { x != y && H(x) == H(y) }

  function Pow256(w: nat): (p: nat)
    ensures p > 0
  {
    if w == 0 then 1 else 256 * Pow256(w - 1)
  }

  /** The low `w` bytes of n, most significant first. */
  function BigEndian(n: nat, w: nat): (bs: seq<Byte>)
    ensures |bs| == w
  {
    if w == 0 then [] else BigEndian(n / 256, w - 1) + [n % 256]
  }

  lemma {:induction false} BigEndianInjective(n: nat, m: nat, w: nat)
    requires n < Pow256(w) && m < Pow256(w) && BigEndian(n, w) == BigEndian(m, w)
    ensures n == m
  {
    if w > 0 {
      var a, b := BigEndian(n / 256, w - 1), BigEndian(m / 256, w - 1);
      assert (a + [n % 256])[..w - 1] == a && (b + [m % 256])[..w - 1] == b;
      assert (a + [n % 256])[w - 1] == n % 256 && (b + [m % 256])[w - 1] == m % 256;
      BigEndianInjective(n / 256, m / 256, w - 1);
    }
  }

  lemma DivDiv(n: nat, a: nat, b: nat)
    requires a > 0 && b > 0
    ensures a * b > 0 && n / a / b == n / (a * b)
  {
    var q, r := n / a / b, n / a % b;
    assert n / a == q * b + r;
    assert n == (q * b + r) * a + n % a;
    assert (q * b + r) * a == q * (a * b) + r * a;
    assert r * a <= (b - 1) * a;
    assert (b - 1) * a == a * b - a;
    var s := r * a + n % a;
    assert 0 <= s < a * b;
    assert n == q * (a * b) + s;
    QuotientUnique(n, a * b, q, s);
  }

  lemma MultipleBound(e: int, d: int)
    requires d > 0
    ensures (e >= 1 ==> e * d >= d) && (e <= -1 ==> e * d <= -d)
  {
    assert e >= 1 ==> (e - 1) * d >= 0;
    assert e <= -1 ==> (-1 - e) * d >= 0;
  }

  lemma QuotientUnique(n: int, d: int, q: int, s: int)
    requires d > 0 && 0 <= s < d && n == q * d + s
    ensures n / d == q && n % d == s
  {
    var e := n / d - q;
    assert e * d == s - n % d;
    MultipleBound(e, d);
  }

  /** Byte k is the k-th from the top: what `byte(n >> (8 * (w - 1 - k)))` yields. */
  lemma {:induction false} BigEndianAt(n: nat, w: nat, k: nat)
    requires k < w
    ensures BigEndian(n, w)[k] == n / Pow256(w - 1 - k) % 256
  {
    if k < w - 1 {
      BigEndianAt(n / 256, w - 1, k);
      DivDiv(n, 256, Pow256(w - 2 - k));
    }
  }

  /** Spelled out for the widths in use. */
  lemma BigEndianBytes(n: nat)
    ensures BigEndian(n, 4) == [n / 0x100_0000 % 256, n / 0x1_0000 % 256, n / 0x100 % 256, n % 256]
    ensures BigEndian(n, 8) ==
      [n / 0x100_0000_0000_0000 % 256, n / 0x1_0000_0000_0000 % 256, n / 0x100_0000_0000 % 256, n / 0x1_0000_0000 % 256,
       n / 0x100_0000 % 256, n / 0x1_0000 % 256, n / 0x100 % 256, n % 256]
  {
    Powers();
    forall k | 0 <= k < 4 ensures BigEndian(n, 4)[k] == n / Pow256(3 - k) % 256 { BigEndianAt(n, 4, k); }
    forall k | 0 <= k < 8 ensures BigEndian(n, 8)[k] == n / Pow256(7 - k) % 256 { BigEndianAt(n, 8, k); }
  }

  lemma Powers()
    ensures Pow256(0) == 1 && Pow256(1) == 0x100 && Pow256(2) == 0x1_0000 && Pow256(3) == 0x100_0000
    ensures Pow256(4) == 0x1_0000_0000 && Pow256(5) == 0x100_0000_0000 && Pow256(6) == 0x1_0000_0000_0000
    ensures Pow256(7) == 0x100_0000_0000_0000 && Pow256(8) == 0x1_0000_0000_0000_0000
  {
    assert Pow256(2) == 256 * Pow256(1) && Pow256(3) == 256 * Pow256(2) && Pow256(4) == 256 * Pow256(3);
    assert Pow256(5) == 256 * Pow256(4) && Pow256(6) == 256 * Pow256(5) && Pow256(7) == 256 * Pow256(6);
  }

  // ----- reading numbers back -----

  datatype Read<+T> = Read(value: T, rest: seq<Byte>)

  function Number(bs: seq<Byte>): nat {
    if bs == [] then 0 else Number(bs[..|bs| - 1]) * 256 + bs[|bs| - 1]
  }

  lemma {:induction false} NumberOfBigEndian(n: nat, w: nat)
    requires n < Pow256(w)
    ensures Number(BigEndian(n, w)) == n
  {
    if w > 0 { NumberOfBigEndian(n / 256, w - 1); }
  }

  lemma {:induction false} NumberBound(bs: seq<Byte>)
    ensures Number(bs) < Pow256(|bs|)
  {
    if bs != [] { NumberBound(bs[..|bs| - 1]); }
  }

  // ----- bytewise lexicographic order -----

  /** Lexicographic order of byte strings, a proper prefix first. */
  predicate BytesLess(a: seq<Byte>, b: seq<Byte>) {
    b != [] && (a == [] || a[0] < b[0] || (a[0] == b[0] && BytesLess(a[1..], b[1..])))
  }

  lemma {:induction false} BytesLessTotal(a: seq<Byte>, b: seq<Byte>)
    ensures a == b || BytesLess(a, b) || BytesLess(b, a)
  {
    if a != [] && b != [] && a[0] == b[0] {
      BytesLessTotal(a[1..], b[1..]);
      assert a == [a[0]] + a[1..] && b == [b[0]] + b[1..];
    }
  }

  lemma {:induction false} BytesLessAsymmetric(a: seq<Byte>, b: seq<Byte>)
    requires BytesLess(a, b)
    ensures !BytesLess(b, a) && a != b
  {
    if a != [] && a[0] == b[0] { BytesLessAsymmetric(a[1..], b[1..]); }
  }

  lemma {:induction false} BytesLessTransitive(a: seq<Byte>, b: seq<Byte>, c: seq<Byte>)
    requires BytesLess(a, b) && BytesLess(b, c)
    ensures BytesLess(a, c)
  {
    if a != [] && a[0] == b[0] == c[0] { BytesLessTransitive(a[1..], b[1..], c[1..]); }
  }

  /** A common prefix does not matter. */
  lemma {:induction false} BytesLessAfter(p: seq<Byte>, a: seq<Byte>, b: seq<Byte>)
    ensures BytesLess(p + a, p + b) <==> BytesLess(a, b)
  {
    if p == [] {
      assert p + a == a && p + b == b;
    } else {
      assert (p + a)[1..] == p[1..] + a && (p + b)[1..] == p[1..] + b;
      BytesLessAfter(p[1..], a, b);
    }
  }

  /** Strings of one length compare before anything appended to them. */
  lemma {:induction false} BytesLessBefore(a: seq<Byte>, b: seq<Byte>, s: seq<Byte>, t: seq<Byte>)
    requires |a| == |b| && a != b
    ensures BytesLess(a + s, b + t) <==> BytesLess(a, b)
  {
    assert (a + s)[1..] == a[1..] + s && (b + t)[1..] == b[1..] + t;
    if a[0] == b[0] {
      assert a == [a[0]] + a[1..] && b == [b[0]] + b[1..];
      BytesLessBefore(a[1..], b[1..], s, t);
    }
  }

  /** Big-endian strings of one width compare as their numbers. */
  lemma {:induction false} BigEndianOrder(n: nat, m: nat, w: nat)
    requires n < m < Pow256(w)
    ensures BytesLess(BigEndian(n, w), BigEndian(m, w))
  {
    var a, b := BigEndian(n / 256, w - 1), BigEndian(m / 256, w - 1);
    if n / 256 == m / 256 {
      BytesLessAfter(a, [n % 256], [m % 256]);
    } else {
      BigEndianOrder(n / 256, m / 256, w - 1);
      BytesLessAsymmetric(a, b);
      BytesLessBefore(a, b, [n % 256], [m % 256]);
    }
  }

  lemma EightBytesBind(m: nat, n: nat)
    requires m < 0x1_0000_0000_0000_0000 && n < 0x1_0000_0000_0000_0000 && BigEndian(m, 8) == BigEndian(n, 8)
    ensures m == n
  {
    assert Pow256(4) == 0x1_0000_0000;
    BigEndianInjective(m, n, 8);
  }

  // ----- prefixes -----

  lemma Regroup(a: seq<Byte>, b: seq<Byte>, c: seq<Byte>)
    ensures a + b + c == a + (b + c)
  {}

  /** Equal strings starting with equally long parts split alike. */
  lemma SplitAt<T>(a: seq<T>, s: seq<T>, b: seq<T>, t: seq<T>)
    requires |a| == |b| && a + s == b + t
    ensures a == b && s == t
  {
    assert (a + s)[..|a|] == a && (b + t)[..|b|] == b;
    assert (a + s)[|a|..] == s && (b + t)[|b|..] == t;
  }
}
