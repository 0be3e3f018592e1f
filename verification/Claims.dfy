/** Claims and their canonical, length-prefixed encoding (kernel/src/canon.rs, kernel/src/claim.rs). */
module Claims {
  import opened Common
  import opened Bytes

  /** A Rust String as its UTF-8 bytes. */
  type Str = seq<Byte>

  datatype Polarity = Supports | Refutes

  datatype Claim = Claim(
    predicateName: Str, subject: Str, obj: Option<Str>, start: Int64, end: Int64, evidence: seq<Str>,
    extractorKind: Str, extractorId: Str, extractorVersion: Str, observed: Option<Int64>, polarity: Polarity,
      hypothesis: Option<Str>)

  // ----- field encoders -----

  /** The length as u32: a longer string's length is truncated. */
  function StrBytes(s: Str): seq<Byte> { BigEndian(|s|, 4) + s }

  function OptStrBytes(s: Option<Str>): seq<Byte> {
    match s case None => [0] case Some(v) => [1] + StrBytes(v)
  }

  /** Two's complement. */
  function I64Bytes(n: Int64): seq<Byte> {
    BigEndian(n % 0x1_0000_0000_0000_0000, 8)
  }

  function OptI64Bytes(n: Option<Int64>): seq<Byte> {
    match n case None => [0] case Some(v) => [1] + I64Bytes(v)
  }

  function ItemsBytes(items: seq<Str>): seq<Byte> {
    if items == [] then [] else var n := |items| - 1; ItemsBytes(items[..n]) + StrBytes(items[n])
  }

  function ListBytes(items: seq<Str>): seq<Byte> { BigEndian(|items|, 4) + ItemsBytes(items) }

  // ----- sorted evidence -----

  /** Rust's string order is bytewise. */
  function InsertStr(s: Str, sorted: seq<Str>): (r: seq<Str>)
    ensures multiset(r) == multiset(sorted) + multiset{s}
  {
    if sorted == [] then [s]
    else
      assert sorted == [sorted[0]] + sorted[1..];
      if BytesLess(s, sorted[0]) then [s] + sorted else [sorted[0]] + InsertStr(s, sorted[1..])
  }

  function SortStrs(ss: seq<Str>): (r: seq<Str>)
    ensures multiset(r) == multiset(ss)
  {
    if ss == [] then []
    else
      var n := |ss| - 1;
      assert ss == ss[..n] + [ss[n]];
      InsertStr(ss[n], SortStrs(ss[..n]))
  }

  predicate SortedStrs(ss: seq<Str>) { forall i, j :: 0 <= i < j < |ss| ==> !BytesLess(ss[j], ss[i]) }

  lemma SortedCons(s: Str, sorted: seq<Str>)
    requires SortedStrs(sorted) && forall x :: x in multiset(sorted) ==> !BytesLess(x, s)
    ensures SortedStrs([s] + sorted)
  {
    forall j | 0 <= j < |sorted| ensures !BytesLess(sorted[j], s) { assert sorted[j] in multiset(sorted); }
  }

  lemma AllAfterFirst(sorted: seq<Str>, x: Str)
    requires SortedStrs(sorted) && x in multiset(sorted)
    ensures x == sorted[0] || !BytesLess(x, sorted[0])
  {
    var j :| 0 <= j < |sorted| && sorted[j] == x;
  }

  lemma {:induction false} InsertStrSorted(s: Str, sorted: seq<Str>)
    requires SortedStrs(sorted)
    ensures SortedStrs(InsertStr(s, sorted))
  {
    if sorted != [] {
      var first := sorted[0];
      if BytesLess(s, first) {
        forall x | x in multiset(sorted) ensures !BytesLess(x, s) {
          AllAfterFirst(sorted, x);
          NotLessBefore(s, first, x);
        }
        SortedCons(s, sorted);
      } else {
        var more := InsertStr(s, sorted[1..]);
        InsertStrSorted(s, sorted[1..]);
        forall x | x in multiset(more) ensures !BytesLess(x, first) {
          if x != s { TailAfterFirst(sorted, x); }
        }
        SortedCons(first, more);
      }
    }
  }

  lemma TailAfterFirst(sorted: seq<Str>, x: Str)
    requires sorted != [] && SortedStrs(sorted) && x in multiset(sorted[1..])
    ensures !BytesLess(x, sorted[0])
  {
    var j :| 0 <= j < |sorted| - 1 && sorted[1..][j] == x;
  }

  lemma NotLessBefore(s: Str, a: Str, b: Str)
    requires BytesLess(s, a) && (b == a || !BytesLess(b, a))
    ensures !BytesLess(b, s)
  {
    BytesLessAsymmetric(s, a);
    if BytesLess(b, s) { BytesLessTransitive(b, s, a); }
  }

  lemma {:induction false} SortStrsSorted(ss: seq<Str>)
    ensures SortedStrs(SortStrs(ss))
  {
    if ss != [] {
      SortStrsSorted(ss[..|ss| - 1]);
      InsertStrSorted(ss[|ss| - 1], SortStrs(ss[..|ss| - 1]));
    }
  }

  lemma LeastFirst(a: seq<Str>, b: seq<Str>)
    requires SortedStrs(a) && SortedStrs(b) && multiset(a) == multiset(b) && a != [] && b != []
    ensures a[0] == b[0]
  {
    assert a[0] in multiset(b) && b[0] in multiset(a);
    var i, j :| 0 <= i < |b| && b[i] == a[0] && 0 <= j < |a| && a[j] == b[0];
    BytesLessTotal(a[0], b[0]);
  }

  lemma WithoutFirst(a: seq<Str>)
    requires a != []
    ensures multiset(a[1..]) == multiset(a) - multiset{a[0]} && a == [a[0]] + a[1..]
  {
    assert a == [a[0]] + a[1..];
  }

  /** A multiset of strings has one sorted listing. */
  lemma {:induction false} SortedUnique(a: seq<Str>, b: seq<Str>)
    requires SortedStrs(a) && SortedStrs(b) && multiset(a) == multiset(b)
    ensures a == b
  {
    assert |multiset(a)| == |multiset(b)|;
    if a != [] && b != [] {
      LeastFirst(a, b);
      WithoutFirst(a);
      WithoutFirst(b);
      SortedUnique(a[1..], b[1..]);
    }
  }

  // ----- the claim id -----

  /** From the extractor on. */
  function TailBytes(c: Claim): seq<Byte> {
    StrBytes(c.extractorKind) + (StrBytes(c.extractorId) + (StrBytes(c.extractorVersion) +
    (OptI64Bytes(c.observed) + ([PolarityByte(c.polarity)] + OptStrBytes(c.hypothesis)))))
  }

  function PolarityByte(p: Polarity): Byte { if p.Supports? then 0 else 1 }

  function HeadThen(c: Claim, rest: seq<Byte>): seq<Byte> {
    StrBytes(c.predicateName) + (StrBytes(c.subject) + (OptStrBytes(c.obj) + (I64Bytes(c.start) + (I64Bytes(c.end) +
    (ListBytes(SortStrs(c.evidence)) + rest)))))
  }

  /** What is hashed: everything but the order the evidence is listed in. */
  function ClaimBytes(c: Claim): seq<Byte> {
    HeadThen(c, TailBytes(c))
  }

  function ClaimId(H: Hash, c: Claim): Digest {
    H(ClaimBytes(c))
  }

  // ----- the encoding is unambiguous for lengths below 2^32 -----

  predicate Short<T>(s: seq<T>) { |s| < 0x1_0000_0000 }

  predicate ShortOpt(s: Option<Str>) { s.Some? ==> Short(s.value) }

  predicate ShortList(items: seq<Str>) { Short(items) && forall i :: 0 <= i < |items| ==> Short(items[i]) }

  predicate ShortClaim(c: Claim) {
    Short(c.predicateName) && Short(c.subject) && ShortOpt(c.obj) && ShortList(c.evidence) && Short(c.extractorKind) &&
    Short(c.extractorId) && Short(c.extractorVersion) && ShortOpt(c.hypothesis)
  }

  lemma LengthBinds(m: nat, n: nat)
    requires m < 0x1_0000_0000 && n < 0x1_0000_0000 && BigEndian(m, 4) == BigEndian(n, 4)
    ensures m == n
  {
    assert Pow256(4) == 0x1_0000_0000;
    BigEndianInjective(m, n, 4);
  }

  lemma StrBinds(a: Str, b: Str, s: seq<Byte>, t: seq<Byte>)
    requires Short(a) && Short(b) && StrBytes(a) + s == StrBytes(b) + t
    ensures a == b && s == t
  {
    assert StrBytes(a) + s == BigEndian(|a|, 4) + (a + s) && StrBytes(b) + t == BigEndian(|b|, 4) + (b + t);
    SplitAt(BigEndian(|a|, 4), a + s, BigEndian(|b|, 4), b + t);
    LengthBinds(|a|, |b|);
    SplitAt(a, s, b, t);
  }

  lemma TagBinds(x: Byte, y: Byte, s: seq<Byte>, t: seq<Byte>)
    requires [x] + s == [y] + t
    ensures x == y && s == t
  {
    SplitAt([x], s, [y], t);
  }

  function Flag<T>(o: Option<T>): Byte { if o.Some? then 1 else 0 }

  lemma OptStrBinds(a: Option<Str>, b: Option<Str>, s: seq<Byte>, t: seq<Byte>)
    requires ShortOpt(a) && ShortOpt(b) && OptStrBytes(a) + s == OptStrBytes(b) + t
    ensures a == b && s == t
  {
    var p := if a.Some? then StrBytes(a.value) + s else s;
    var q := if b.Some? then StrBytes(b.value) + t else t;
    if a.Some? { Regroup([1], StrBytes(a.value), s); }
    if b.Some? { Regroup([1], StrBytes(b.value), t); }
    assert OptStrBytes(a) + s == [Flag(a)] + p && OptStrBytes(b) + t == [Flag(b)] + q;
    TagBinds(Flag(a), Flag(b), p, q);
    if a.Some? { StrBinds(a.value, b.value, s, t); }
  }

  lemma WrapValue(a: Int64)
    ensures a % 0x1_0000_0000_0000_0000 == if a >= 0 then a as int else a + 0x1_0000_0000_0000_0000
  {
    var m := 0x1_0000_0000_0000_0000;
    assert IsInt64(a);
    if a >= 0 { QuotientUnique(a, m, 0, a); } else { QuotientUnique(a, m, -1, a + m); }
  }

  lemma WrapBinds(a: Int64, b: Int64)
    requires a % 0x1_0000_0000_0000_0000 == b % 0x1_0000_0000_0000_0000
    ensures a == b
  {
    WrapValue(a);
    WrapValue(b);
    assert IsInt64(a) && IsInt64(b);
  }

  lemma I64Binds(a: Int64, b: Int64, s: seq<Byte>, t: seq<Byte>)
    requires I64Bytes(a) + s == I64Bytes(b) + t
    ensures a == b && s == t
  {
    SplitAt(I64Bytes(a), s, I64Bytes(b), t);
    EightBytesBind(a % 0x1_0000_0000_0000_0000, b % 0x1_0000_0000_0000_0000);
    WrapBinds(a, b);
  }

  lemma OptI64Binds(a: Option<Int64>, b: Option<Int64>, s: seq<Byte>, t: seq<Byte>)
    requires OptI64Bytes(a) + s == OptI64Bytes(b) + t
    ensures a == b && s == t
  {
    var p := if a.Some? then I64Bytes(a.value) + s else s;
    var q := if b.Some? then I64Bytes(b.value) + t else t;
    if a.Some? { Regroup([1], I64Bytes(a.value), s); }
    if b.Some? { Regroup([1], I64Bytes(b.value), t); }
    assert OptI64Bytes(a) + s == [Flag(a)] + p && OptI64Bytes(b) + t == [Flag(b)] + q;
    TagBinds(Flag(a), Flag(b), p, q);
    if a.Some? { I64Binds(a.value, b.value, s, t); }
  }

  lemma {:induction false} ItemsFront(items: seq<Str>)
    requires items != []
    ensures ItemsBytes(items) == StrBytes(items[0]) + ItemsBytes(items[1..])
  {
    if |items| > 1 {
      var n := |items| - 1;
      ItemsFront(items[..n]);
      assert items[..n][1..] == items[1..][..n - 1];
    }
  }

  lemma {:induction false} ItemsBind(a: seq<Str>, b: seq<Str>, s: seq<Byte>, t: seq<Byte>)
    requires |a| == |b| && ShortList(a) && ShortList(b) && ItemsBytes(a) + s == ItemsBytes(b) + t
    ensures a == b && s == t
  {
    if a == [] {
      assert ItemsBytes(a) + s == s && ItemsBytes(b) + t == t;
    } else {
      ItemsFront(a);
      ItemsFront(b);
      Regroup(StrBytes(a[0]), ItemsBytes(a[1..]), s);
      Regroup(StrBytes(b[0]), ItemsBytes(b[1..]), t);
      StrBinds(a[0], b[0], ItemsBytes(a[1..]) + s, ItemsBytes(b[1..]) + t);
      ItemsBind(a[1..], b[1..], s, t);
      HeadTail(a);
      HeadTail(b);
    }
  }

  lemma HeadTail(ss: seq<Str>)
    requires ss != []
    ensures ss == [ss[0]] + ss[1..]
  {}

  lemma ListBinds(a: seq<Str>, b: seq<Str>, s: seq<Byte>, t: seq<Byte>)
    requires ShortList(a) && ShortList(b) && ListBytes(a) + s == ListBytes(b) + t
    ensures a == b && s == t
  {
    assert ListBytes(a) + s == BigEndian(|a|, 4) + (ItemsBytes(a) + s);
    assert ListBytes(b) + t == BigEndian(|b|, 4) + (ItemsBytes(b) + t);
    SplitAt(BigEndian(|a|, 4), ItemsBytes(a) + s, BigEndian(|b|, 4), ItemsBytes(b) + t);
    LengthBinds(|a|, |b|);
    ItemsBind(a, b, s, t);
  }

  lemma ShortSorted(ss: seq<Str>)
    requires ShortList(ss)
    ensures ShortList(SortStrs(ss))
  {
    var r := SortStrs(ss);
    assert |multiset(r)| == |multiset(ss)|;
    forall i | 0 <= i < |r| ensures Short(r[i]) {
      assert r[i] in multiset(ss);
      var j :| 0 <= j < |ss| && ss[j] == r[i];
    }
  }

  /** Equal but for the order of the evidence. */
  predicate SameClaim(a: Claim, b: Claim) {
    a.(evidence := []) == b.(evidence := []) && multiset(a.evidence) == multiset(b.evidence)
  }

  lemma TailBinds(a: Claim, b: Claim)
    requires ShortClaim(a) && ShortClaim(b) && TailBytes(a) == TailBytes(b)
    ensures a.extractorKind == b.extractorKind && a.extractorId == b.extractorId &&
      a.extractorVersion == b.extractorVersion
    ensures a.observed == b.observed && a.polarity == b.polarity && a.hypothesis == b.hypothesis
  {
    var pa, pb := [PolarityByte(a.polarity)], [PolarityByte(b.polarity)];
    var ha, hb := pa + OptStrBytes(a.hypothesis), pb + OptStrBytes(b.hypothesis);
    var oa, ob := OptI64Bytes(a.observed) + ha, OptI64Bytes(b.observed) + hb;
    var va, vb := StrBytes(a.extractorVersion) + oa, StrBytes(b.extractorVersion) + ob;
    StrBinds(a.extractorKind, b.extractorKind, StrBytes(a.extractorId) + va, StrBytes(b.extractorId) + vb);
    StrBinds(a.extractorId, b.extractorId, va, vb);
    StrBinds(a.extractorVersion, b.extractorVersion, oa, ob);
    OptI64Binds(a.observed, b.observed, ha, hb);
    TagBinds(pa[0], pb[0], OptStrBytes(a.hypothesis), OptStrBytes(b.hypothesis));
    assert OptStrBytes(a.hypothesis) + [] == OptStrBytes(a.hypothesis) == OptStrBytes(b.hypothesis) + [];
    OptStrBinds(a.hypothesis, b.hypothesis, [], []);
  }

  lemma HeadBinds(a: Claim, b: Claim)
    requires ShortClaim(a) && ShortClaim(b) && ClaimBytes(a) == ClaimBytes(b)
    ensures a.predicateName == b.predicateName && a.subject == b.subject && a.obj == b.obj
    ensures a.start == b.start && a.end == b.end && SortStrs(a.evidence) == SortStrs(b.evidence) &&
      TailBytes(a) == TailBytes(b)
  {
    ShortSorted(a.evidence);
    ShortSorted(b.evidence);
    var la, lb := ListBytes(SortStrs(a.evidence)) + TailBytes(a), ListBytes(SortStrs(b.evidence)) + TailBytes(b);
    var ea, eb := I64Bytes(a.end) + la, I64Bytes(b.end) + lb;
    var sa, sb := I64Bytes(a.start) + ea, I64Bytes(b.start) + eb;
    var oa, ob := OptStrBytes(a.obj) + sa, OptStrBytes(b.obj) + sb;
    StrBinds(a.predicateName, b.predicateName, StrBytes(a.subject) + oa, StrBytes(b.subject) + ob);
    StrBinds(a.subject, b.subject, oa, ob);
    OptStrBinds(a.obj, b.obj, sa, sb);
    I64Binds(a.start, b.start, ea, eb);
    I64Binds(a.end, b.end, la, lb);
    ListBinds(SortStrs(a.evidence), SortStrs(b.evidence), TailBytes(a), TailBytes(b));
  }

  /** Two claims are encoded alike exactly when they differ at most in the order of their evidence. */
  lemma EncodingIdentifiesClaim(a: Claim, b: Claim)
    requires ShortClaim(a) && ShortClaim(b)
    ensures ClaimBytes(a) == ClaimBytes(b) <==> SameClaim(a, b)
  {
    if ClaimBytes(a) == ClaimBytes(b) {
      HeadBinds(a, b);
      TailBinds(a, b);
    }
    if SameClaim(a, b) {
      SortStrsSorted(a.evidence);
      SortStrsSorted(b.evidence);
      SortedUnique(SortStrs(a.evidence), SortStrs(b.evidence));
    }
  }

  // ----- reading the encoding back, field by field -----

  /** A length in four bytes, then as many bytes. */
  function ReadStr(bs: seq<Byte>): Option<Read<Str>> {
    if |bs| < 4 then None
    else
      var n := Number(bs[..4]);
      if |bs| < 4 + n then None else Some(Read(bs[4..4 + n], bs[4 + n..]))
  }

  /** 0 for nothing, 1 before a string. */
  function ReadOptStr(bs: seq<Byte>): Option<Read<Option<Str>>> {
    if bs == [] then None
    else if bs[0] == 0 then Some(Read(None, bs[1..]))
    else if bs[0] != 1 then None
    else match ReadStr(bs[1..]) case None => None case Some(r) => Some(Read(Some(r.value), r.rest))
  }

  /** Eight bytes, the upper half of the range standing for the negative numbers. */
  function ReadI64(bs: seq<Byte>): Option<Read<int>> {
    if |bs| < 8 then None
    else
      var n := Number(bs[..8]);
      Some(Read(if n <= MAX_INT64 then n else n - 0x1_0000_0000_0000_0000, bs[8..]))
  }

  function ReadOptI64(bs: seq<Byte>): Option<Read<Option<int>>> {
    if bs == [] then None
    else if bs[0] == 0 then Some(Read(None, bs[1..]))
    else if bs[0] != 1 then None
    else match ReadI64(bs[1..]) case None => None case Some(r) => Some(Read(Some(r.value), r.rest))
  }

  function ReadItems(n: nat, bs: seq<Byte>): Option<Read<seq<Str>>> {
    if n == 0 then Some(Read([], bs))
    else
      match ReadStr(bs)
      case None => None
      case Some(first) =>
        match ReadItems(n - 1, first.rest)
        case None => None
        case Some(more) => Some(Read([first.value] + more.value, more.rest))
  }

  /** A count in four bytes, then as many strings. */
  function ReadList(bs: seq<Byte>): Option<Read<seq<Str>>> {
    if |bs| < 4 then None else ReadItems(Number(bs[..4]), bs[4..])
  }

  /** 0 supports, 1 refutes. */
  function ReadPolarity(bs: seq<Byte>): Option<Read<Polarity>> {
    if bs == [] || bs[0] > 1 then None else Some(Read(if bs[0] == 0 then Supports else Refutes, bs[1..]))
  }

  lemma StrReads(s: Str, rest: seq<Byte>)
    requires Short(s)
    ensures ReadStr(StrBytes(s) + rest) == Some(Read(s, rest))
  {
    var bs := StrBytes(s) + rest;
    Powers();
    NumberOfBigEndian(|s|, 4);
    assert bs[..4] == BigEndian(|s|, 4) && bs[4..4 + |s|] == s && bs[4 + |s|..] == rest;
  }

  lemma OptStrReads(s: Option<Str>, rest: seq<Byte>)
    requires ShortOpt(s)
    ensures ReadOptStr(OptStrBytes(s) + rest) == Some(Read(s, rest))
  {
    if s.Some? {
      Regroup([1], StrBytes(s.value), rest);
      Tagged(1, StrBytes(s.value) + rest);
      StrReads(s.value, rest);
    } else {
      Tagged(0, rest);
    }
  }

  lemma Tagged(x: Byte, rest: seq<Byte>)
    ensures ([x] + rest)[0] == x && ([x] + rest)[1..] == rest
  {}

  lemma I64Reads(n: Int64, rest: seq<Byte>)
    ensures ReadI64(I64Bytes(n) + rest) == Some(Read(n, rest))
  {
    var bs, u := I64Bytes(n) + rest, n % 0x1_0000_0000_0000_0000;
    Powers();
    NumberOfBigEndian(u, 8);
    WrapValue(n);
    assert IsInt64(n) && bs[..8] == BigEndian(u, 8) && bs[8..] == rest;
  }

  lemma OptI64Reads(n: Option<Int64>, rest: seq<Byte>)
    ensures ReadOptI64(OptI64Bytes(n) + rest) == Some(Read(n, rest))
  {
    if n.Some? {
      Regroup([1], I64Bytes(n.value), rest);
      Tagged(1, I64Bytes(n.value) + rest);
      I64Reads(n.value, rest);
    } else {
      Tagged(0, rest);
    }
  }

  lemma {:induction false} ItemsRead(items: seq<Str>, rest: seq<Byte>)
    requires ShortList(items)
    ensures ReadItems(|items|, ItemsBytes(items) + rest) == Some(Read(items, rest))
  {
    if items == [] {
      assert ItemsBytes(items) + rest == rest;
    } else {
      ItemsFront(items);
      Regroup(StrBytes(items[0]), ItemsBytes(items[1..]), rest);
      StrReads(items[0], ItemsBytes(items[1..]) + rest);
      ItemsRead(items[1..], rest);
      HeadTail(items);
    }
  }

  lemma ListReads(items: seq<Str>, rest: seq<Byte>)
    requires ShortList(items)
    ensures ReadList(ListBytes(items) + rest) == Some(Read(items, rest))
  {
    var bs := ListBytes(items) + rest;
    Powers();
    NumberOfBigEndian(|items|, 4);
    assert bs[..4] == BigEndian(|items|, 4) && bs[4..] == ItemsBytes(items) + rest;
    ItemsRead(items, rest);
  }

  lemma PolarityReads(p: Polarity, rest: seq<Byte>)
    ensures ReadPolarity([PolarityByte(p)] + rest) == Some(Read(p, rest))
  {
    Tagged(PolarityByte(p), rest);
  }

  /** From the interval on. */
  function SpanThen(c: Claim, rest: seq<Byte>): seq<Byte> {
    I64Bytes(c.start) + (I64Bytes(c.end) + (ListBytes(SortStrs(c.evidence)) + rest))
  }

  /** From the observed value on. */
  function EndBytes(c: Claim): seq<Byte> {
    OptI64Bytes(c.observed) + ([PolarityByte(c.polarity)] + OptStrBytes(c.hypothesis))
  }

  lemma NamesRead(c: Claim) returns (r1: seq<Byte>, r2: seq<Byte>)
    requires ShortClaim(c)
    ensures ReadStr(ClaimBytes(c)) == Some(Read(c.predicateName, r1)) && ReadStr(r1) == Some(Read(c.subject, r2))
    ensures ReadOptStr(r2) == Some(Read(c.obj, SpanThen(c, TailBytes(c))))
  {
    r2 := OptStrBytes(c.obj) + SpanThen(c, TailBytes(c));
    r1 := StrBytes(c.subject) + r2;
    StrReads(c.predicateName, r1);
    StrReads(c.subject, r2);
    OptStrReads(c.obj, SpanThen(c, TailBytes(c)));
  }

  lemma SpanReads(c: Claim, rest: seq<Byte>) returns (r1: seq<Byte>, r2: seq<Byte>)
    requires ShortClaim(c)
    ensures ReadI64(SpanThen(c, rest)) == Some(Read(c.start, r1)) && ReadI64(r1) == Some(Read(c.end, r2))
    ensures ReadList(r2) == Some(Read(SortStrs(c.evidence), rest)) && SortedStrs(SortStrs(c.evidence))
  {
    r2 := ListBytes(SortStrs(c.evidence)) + rest;
    r1 := I64Bytes(c.end) + r2;
    I64Reads(c.start, r1);
    I64Reads(c.end, r2);
    ShortSorted(c.evidence);
    SortStrsSorted(c.evidence);
    ListReads(SortStrs(c.evidence), rest);
  }

  lemma ExtractorReads(c: Claim) returns (r1: seq<Byte>, r2: seq<Byte>)
    requires ShortClaim(c)
    ensures ReadStr(TailBytes(c)) == Some(Read(c.extractorKind, r1)) && ReadStr(r1) == Some(Read(c.extractorId, r2))
    ensures ReadStr(r2) == Some(Read(c.extractorVersion, EndBytes(c)))
  {
    r2 := StrBytes(c.extractorVersion) + EndBytes(c);
    r1 := StrBytes(c.extractorId) + r2;
    StrReads(c.extractorKind, r1);
    StrReads(c.extractorId, r2);
    StrReads(c.extractorVersion, EndBytes(c));
  }

  lemma EndReads(c: Claim) returns (r1: seq<Byte>, r2: seq<Byte>)
    requires ShortClaim(c)
    ensures ReadOptI64(EndBytes(c)) == Some(Read(c.observed, r1)) && ReadPolarity(r1) == Some(Read(c.polarity, r2))
    ensures ReadOptStr(r2) == Some(Read(c.hypothesis, []))
  {
    r2 := OptStrBytes(c.hypothesis);
    r1 := [PolarityByte(c.polarity)] + r2;
    OptI64Reads(c.observed, r1);
    PolarityReads(c.polarity, r2);
    assert r2 + [] == r2;
    OptStrReads(c.hypothesis, []);
  }

  datatype Names = Names(predicateName: Str, subject: Str, obj: Option<Str>)
  datatype Span = Span(start: int, end: int, evidence: seq<Str>)
  datatype Extractor = Extractor(kind: Str, id: Str, version: Str)
  datatype Ending = Ending(observed: Option<int>, polarity: Polarity, hypothesis: Option<Str>)

  ghost predicate ReadsNames(bs: seq<Byte>, n: Names, rest: seq<Byte>) {
    exists r1, r2 :: ReadStr(bs) == Some(Read(n.predicateName, r1)) && ReadStr(r1) == Some(Read(n.subject, r2)) &&
      ReadOptStr(r2) == Some(Read(n.obj, rest))
  }

  ghost predicate ReadsSpan(bs: seq<Byte>, s: Span, rest: seq<Byte>) {
    exists r1, r2 :: ReadI64(bs) == Some(Read(s.start, r1)) && ReadI64(r1) == Some(Read(s.end, r2)) &&
      ReadList(r2) == Some(Read(s.evidence, rest))
  }

  ghost predicate ReadsExtractor(bs: seq<Byte>, x: Extractor, rest: seq<Byte>) {
    exists r1, r2 :: ReadStr(bs) == Some(Read(x.kind, r1)) && ReadStr(r1) == Some(Read(x.id, r2)) &&
      ReadStr(r2) == Some(Read(x.version, rest))
  }

  ghost predicate ReadsEnding(bs: seq<Byte>, e: Ending, rest: seq<Byte>) {
    exists r1, r2 :: ReadOptI64(bs) == Some(Read(e.observed, r1)) && ReadPolarity(r1) == Some(Read(e.polarity, r2)) &&
      ReadOptStr(r2) == Some(Read(e.hypothesis, rest))
  }

  /** Read from the front, what is hashed gives the claim's fields in this order and nothing more. */
  lemma ClaimReadsBack(c: Claim) returns (evidence: seq<Str>, a: seq<Byte>, b: seq<Byte>, d: seq<Byte>)
    requires ShortClaim(c)
    ensures SortedStrs(evidence) && multiset(evidence) == multiset(c.evidence)
    ensures ReadsNames(ClaimBytes(c), Names(c.predicateName, c.subject, c.obj), a)
    ensures ReadsSpan(a, Span(c.start, c.end, evidence), b)
    ensures ReadsExtractor(b, Extractor(c.extractorKind, c.extractorId, c.extractorVersion), d)
    ensures ReadsEnding(d, Ending(c.observed, c.polarity, c.hypothesis), [])
  {
    evidence, a, b, d := SortStrs(c.evidence), SpanThen(c, TailBytes(c)), TailBytes(c), EndBytes(c);
    var n1, n2 := NamesRead(c);
    var s1, s2 := SpanReads(c, TailBytes(c));
    var x1, x2 := ExtractorReads(c);
    var e1, e2 := EndReads(c);
  }

  // ----- the encoder, as the code runs it -----

  /** The byte vector every encoder appends to. */
  class Buffer {
    var data: seq<Byte>

    constructor ()
      ensures data == []
    {
      data := [];
    }

    method Push(b: Byte)
      modifies this
      ensures data == old(data) + [b]
    {
      data := data + [b];
    }

    method Extend(bs: seq<Byte>)
      modifies this
      ensures data == old(data) + bs
    {
      data := data + bs;
    }

    method WriteStr(s: Str)
      modifies this
      ensures data == old(data) + StrBytes(s)
    {
      Extend(BigEndian(|s|, 4));
      Extend(s);
      assert data == old(data) + StrBytes(s);
    }

    method WriteOptStr(s: Option<Str>)
      modifies this
      ensures data == old(data) + OptStrBytes(s)
    {
      match s
      case Some(v) =>
        Push(1);
        WriteStr(v);
        assert data == old(data) + OptStrBytes(s);
      case None => Push(0);
    }

    method WriteI64(n: Int64)
      modifies this
      ensures data == old(data) + I64Bytes(n)
    {
      Extend(BigEndian(n % 0x1_0000_0000_0000_0000, 8));
    }

    method WriteOptI64(n: Option<Int64>)
      modifies this
      ensures data == old(data) + OptI64Bytes(n)
    {
      match n
      case Some(v) =>
        Push(1);
        WriteI64(v);
        assert data == old(data) + OptI64Bytes(n);
      case None => Push(0);
    }

    method WriteStrList(items: seq<Str>)
      modifies this
      ensures data == old(data) + ListBytes(items)
    {
      Extend(BigEndian(|items|, 4));
      ghost var start := data;
      for i := 0 to |items|
        invariant data == start + ItemsBytes(items[..i])
      {
        WriteStr(items[i]);
        assert items[..i + 1][..i] == items[..i];
      }
      assert items[..|items|] == items;
      assert data == old(data) + ListBytes(items);
    }
  }

  /** slice::sort on an evidence list. */
  method SortedEvidence(ss: seq<Str>) returns (r: seq<Str>)
    ensures r == SortStrs(ss)
  {
    r := [];
    for n := 0 to |ss|
      invariant r == SortStrs(ss[..n])
    {
      assert ss[..n + 1][..n] == ss[..n];
      r := InsertStr(ss[n], r);
    }
    assert ss[..|ss|] == ss;
  }

  method WriteHead(buf: Buffer, c: Claim, ghost rest: seq<Byte>)
    modifies buf
    ensures buf.data + rest == old(buf.data) + HeadThen(c, rest)
  {
    ghost var r5 := ListBytes(SortStrs(c.evidence)) + rest;
    ghost var r4 := I64Bytes(c.end) + r5;
    ghost var r3 := I64Bytes(c.start) + r4;
    ghost var r2 := OptStrBytes(c.obj) + r3;
    Regroup(buf.data, StrBytes(c.predicateName), StrBytes(c.subject) + r2);
    buf.WriteStr(c.predicateName);
    Regroup(buf.data, StrBytes(c.subject), r2);
    buf.WriteStr(c.subject);
    Regroup(buf.data, OptStrBytes(c.obj), r3);
    buf.WriteOptStr(c.obj);
    Regroup(buf.data, I64Bytes(c.start), r4);
    buf.WriteI64(c.start);
    Regroup(buf.data, I64Bytes(c.end), r5);
    buf.WriteI64(c.end);
    var evidence := SortedEvidence(c.evidence);
    Regroup(buf.data, ListBytes(evidence), rest);
    buf.WriteStrList(evidence);
  }

  method WriteTail(buf: Buffer, c: Claim)
    modifies buf
    ensures buf.data == old(buf.data) + TailBytes(c)
  {
    ghost var r5 := OptStrBytes(c.hypothesis);
    ghost var r4 := [PolarityByte(c.polarity)] + r5;
    ghost var r3 := OptI64Bytes(c.observed) + r4;
    ghost var r2 := StrBytes(c.extractorVersion) + r3;
    Regroup(buf.data, StrBytes(c.extractorKind), StrBytes(c.extractorId) + r2);
    buf.WriteStr(c.extractorKind);
    Regroup(buf.data, StrBytes(c.extractorId), r2);
    buf.WriteStr(c.extractorId);
    Regroup(buf.data, StrBytes(c.extractorVersion), r3);
    buf.WriteStr(c.extractorVersion);
    Regroup(buf.data, OptI64Bytes(c.observed), r4);
    buf.WriteOptI64(c.observed);
    Regroup(buf.data, [PolarityByte(c.polarity)], r5);
    buf.Push(PolarityByte(c.polarity));
    buf.WriteOptStr(c.hypothesis);
  }

  method ComputeClaimId(H: Hash, c: Claim) returns (id: Digest)
    ensures id == ClaimId(H, c)
  {
    var buf := new Buffer();
    ghost var none: seq<Byte> := [];
    WriteHead(buf, c, TailBytes(c));
    WriteTail(buf, c);
    assert none + ClaimBytes(c) == ClaimBytes(c);
    return H(buf.data);
  }

  /** Claim::new refuses an empty evidence list. */
  method NewClaim(c: Claim) returns (r: Result<Claim>)
    ensures r.Err? <==> c.evidence == []
    ensures r.Ok? ==> r.value == c
  {
    if |c.evidence| == 0 { return Err; }
    return Ok(c);
  }
}
