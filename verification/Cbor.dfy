/** The canonical CBOR encoder (ledger/cbor.go), against a decoder written from RFC 8949. */
module Cbor {
  import opened Common
  import opened Bytes

  const TWO64: int := 0x1_0000_0000_0000_0000

  datatype Pair<+T> = Pair(key: seq<Byte>, item: T)

  /** A Go `any`: int and int64 are Signed; a map is its pairs in iteration order; Other is any unsupported type. */
  datatype Value =
    | Nil
    | Bool(b: bool)
    | Signed(n: int)
    | Unsigned(u: nat)
    | Text(text: seq<Byte>)
    | Binary(bytes: seq<Byte>)
    | Array(items: seq<Value>)
    | Map(entries: seq<Pair<Value>>)
    | Other

  predicate DistinctKeys<T>(ps: seq<Pair<T>>) { forall i, j :: 0 <= i < j < |ps| ==> ps[i].key != ps[j].key }

  predicate Sized(n: nat) { n < TWO64 }

  /** What Go's types guarantee: integer ranges, lengths that fit, map keys that are distinct. */
  predicate GoValue(v: Value) {
    match v
    case Signed(n) => IsInt64(n)
    case Unsigned(u) => u < TWO64
    case Text(t) => Sized(|t|)
    case Binary(b) => Sized(|b|)
    case Array(items) => Sized(|items|) && forall x :: x in items ==> GoValue(x)
    case Map(es) => Sized(|es|) && DistinctKeys(es) && forall e :: e in es ==> Sized(|e.key|) && GoValue(e.item)
    case _ => true
  }

  /** No unsupported type anywhere inside. */
  predicate Supported(v: Value) {
    match v
    case Other => false
    case Array(items) => forall x :: x in items ==> Supported(x)
    case Map(es) => forall e :: e in es ==> Supported(e.item)
    case _ => true
  }

  // ----- heads -----

  type Major = m: nat | m < 8

  function EncodeHead(major: Major, n: nat): (bs: seq<Byte>)
    requires n < TWO64
    ensures bs != []
  {
    var m := major * 32;
    if n < 24 then [m + n]
    else if n <= 0xff then [m + 24] + BigEndian(n, 1)
    else if n <= 0xffff then [m + 25] + BigEndian(n, 2)
    else if n <= 0xffff_ffff then [m + 26] + BigEndian(n, 4)
    else [m + 27] + BigEndian(n, 8)
  }

  function EncodeInt(n: int): seq<Byte>
    requires IsInt64(n)
  {
    if n >= 0 then EncodeHead(0, n) else EncodeHead(1, -(n + 1))
  }

  // ----- keys -----

  function KeyCode(key: seq<Byte>): seq<Byte>
    requires Sized(|key|)
  {
    EncodeHead(3, |key|) + key
  }

  /** Bytewise order of the encoded keys. */
  predicate KeyLess(a: seq<Byte>, b: seq<Byte>)
    requires Sized(|a|) && Sized(|b|)
  {
    BytesLess(KeyCode(a), KeyCode(b))
  }

  predicate SizedKeys<T>(ps: seq<Pair<T>>) { forall i :: 0 <= i < |ps| ==> Sized(|ps[i].key|) }

  function InsertPair<T>(p: Pair<T>, ps: seq<Pair<T>>): (r: seq<Pair<T>>)
    requires Sized(|p.key|) && SizedKeys(ps)
    ensures SizedKeys(r) && multiset(r) == multiset(ps) + multiset{p}
  {
    if ps == [] then [p]
    else if KeyLess(p.key, ps[0].key) then [p] + ps
    else
      assert ps == [ps[0]] + ps[1..];
      [ps[0]] + InsertPair(p, ps[1..])
  }

  function SortPairs<T>(ps: seq<Pair<T>>): (r: seq<Pair<T>>)
    requires SizedKeys(ps)
    ensures SizedKeys(r) && multiset(r) == multiset(ps)
  {
    if ps == [] then [] else
      assert ps == [ps[0]] + ps[1..];
      InsertPair(ps[0], SortPairs(ps[1..]))
  }

  // ----- values -----

  function Concat(ps: seq<Pair<seq<Byte>>>): seq<Byte>
    requires SizedKeys(ps)
  {
    if ps == [] then [] else KeyCode(ps[0].key) + ps[0].item + Concat(ps[1..])
  }

  function Encode(v: Value): seq<Byte>
    requires GoValue(v) && Supported(v)
    decreases v, 0
  {
    match v
    case Nil => [0xf6]
    case Bool(b) => if b then [0xf5] else [0xf4]
    case Signed(n) => EncodeInt(n)
    case Unsigned(u) => EncodeHead(0, u)
    case Text(t) => EncodeHead(3, |t|) + t
    case Binary(b) => EncodeHead(2, |b|) + b
    case Array(items) => EncodeHead(4, |items|) + EncodeItems(items)
    case Map(es) => EncodeHead(5, |es|) + Concat(SortPairs(Codes(es)))
  }

  function EncodeItems(items: seq<Value>): seq<Byte>
    requires forall x :: x in items ==> GoValue(x) && Supported(x)
    decreases items, 1
  {
    if items == [] then [] else Encode(items[0]) + EncodeItems(items[1..])
  }

  predicate Encodable(es: seq<Pair<Value>>) {
    forall e :: e in es ==> Sized(|e.key|) && GoValue(e.item) && Supported(e.item)
  }

  function Codes(es: seq<Pair<Value>>): (cs: seq<Pair<seq<Byte>>>)
    requires Encodable(es)
    ensures |cs| == |es| && SizedKeys(cs)
    decreases es, 1
  {
    if es == [] then [] else
      assert es[0] in es;
      [Pair(es[0].key, Encode(es[0].item))] + Codes(es[1..])
  }

  // ----- what a value means, and how RFC 8949 reads it back -----

  datatype Data =
    | DNull | DBool(b: bool) | DInt(n: int) | DText(text: seq<Byte>) | DBytes(bytes: seq<Byte>)
    | DArray(items: seq<Data>) | DMap(entries: map<seq<Byte>, Data>)

  /** Integers are one range and maps have no order. */
  function Meaning(v: Value): Data
    requires Supported(v)
    decreases v, 0
  {
    match v
    case Nil => DNull
    case Bool(b) => DBool(b)
    case Signed(n) => DInt(n)
    case Unsigned(u) => DInt(u)
    case Text(t) => DText(t)
    case Binary(b) => DBytes(b)
    case Array(items) => DArray(Meanings(items))
    case Map(es) => DMap(MapOf(DataPairs(es)))
  }

  function Meanings(items: seq<Value>): seq<Data>
    requires forall x :: x in items ==> Supported(x)
    decreases items, 1
  {
    if items == [] then [] else [Meaning(items[0])] + Meanings(items[1..])
  }

  function DataPairs(es: seq<Pair<Value>>): (ds: seq<Pair<Data>>)
    requires forall e :: e in es ==> Supported(e.item)
    ensures |ds| == |es|
    decreases es, 1
  {
    if es == [] then [] else
      assert es[0] in es;
      [Pair(es[0].key, Meaning(es[0].item))] + DataPairs(es[1..])
  }

  /** Entry by entry; a later entry for a key replaces an earlier one. */
  function MapOf<T>(ps: seq<Pair<T>>): map<seq<Byte>, T> {
    if ps == [] then map[] else var n := |ps| - 1; MapOf(ps[..n])[ps[n].key := ps[n].item]
  }

  datatype Head = Head(major: Major, n: nat, rest: seq<Byte>)

  function Width(info: nat): nat { if info == 24 then 1 else if info == 25 then 2 else if info == 26 then 4 else 8 }

  /** Section 3 of RFC 8949: three bits of major type, five of argument or of its width. */
  function ReadHead(bs: seq<Byte>): (r: Option<Head>)
    ensures r.Some? ==> |r.value.rest| < |bs|
  {
    if bs == [] then None
    else
      var major, info := bs[0] / 32, bs[0] % 32;
      if info < 24 then Some(Head(major, info, bs[1..]))
      else if info > 27 || |bs| < 1 + Width(info) then None
      else Some(Head(major, Number(bs[1..1 + Width(info)]), bs[1 + Width(info)..]))
  }

  function Decode(bs: seq<Byte>): (r: Option<Read<Data>>)
    ensures r.Some? ==> |r.value.rest| < |bs|
    decreases |bs|, 0
  {
    match ReadHead(bs)
    case None => None
    case Some(Head(major, n, rest)) =>
      if major == 0 then Some(Read(DInt(n), rest))
      else if major == 1 then Some(Read(DInt(-1 - n), rest))
      else if major == 2 || major == 3 then
        if |rest| < n then None else Some(Read(if major == 2 then DBytes(rest[..n]) else DText(rest[..n]), rest[n..]))
      else if major == 4 then
        match DecodeItems(n, rest)
        case None => None
        case Some(items) => Some(Read(DArray(items.value), items.rest))
      else if major == 5 then
        match DecodePairs(n, rest)
        case None => None
        case Some(ps) => Some(Read(DMap(MapOf(ps.value)), ps.rest))
      else if major == 7 && n == 22 then Some(Read(DNull, rest))
      else if major == 7 && 20 <= n <= 21 then Some(Read(DBool(n == 21), rest))
      else None
  }

  function DecodeItems(n: nat, bs: seq<Byte>): (r: Option<Read<seq<Data>>>)
    ensures r.Some? ==> |r.value.rest| <= |bs|
    decreases |bs|, 1, n
  {
    if n == 0 then Some(Read([], bs))
    else
      match Decode(bs)
      case None => None
      case Some(first) =>
        match DecodeItems(n - 1, first.rest)
        case None => None
        case Some(more) => Some(Read([first.value] + more.value, more.rest))
  }

  /** Only text keys occur in this subset. */
  function DecodePairs(n: nat, bs: seq<Byte>): (r: Option<Read<seq<Pair<Data>>>>)
    ensures r.Some? ==> |r.value.rest| <= |bs|
    decreases |bs|, 1, n
  {
    if n == 0 then Some(Read([], bs))
    else
      match ReadHead(bs)
      case None => None
      case Some(Head(major, k, rest)) =>
        if major != 3 || |rest| < k then None
        else
          match Decode(rest[k..])
          case None => None
          case Some(first) =>
            match DecodePairs(n - 1, first.rest)
            case None => None
            case Some(more) => Some(Read([Pair(rest[..k], first.value)] + more.value, more.rest))
  }

  // ----- heads read back, and are shortest -----

  lemma WideHead(major: Major, info: nat, n: nat, rest: seq<Byte>)
    requires 24 <= info <= 27 && n < Pow256(Width(info))
    ensures ReadHead([major * 32 + info] + BigEndian(n, Width(info)) + rest) == Some(Head(major, n, rest))
  {
    var w := Width(info);
    var bs := [major * 32 + info] + BigEndian(n, w) + rest;
    assert bs[0] / 32 == major && bs[0] % 32 == info;
    assert bs[1..1 + w] == BigEndian(n, w);
    assert bs[1 + w..] == rest;
    NumberOfBigEndian(n, w);
  }

  /** The five bits after the major type. */
  function InfoOf(n: nat): nat {
    if n < 24 then n else if n <= 0xff then 24 else if n <= 0xffff then 25 else if n <= 0xffff_ffff then 26 else 27
  }

  lemma InfoFits(n: nat)
    requires 24 <= n < TWO64
    ensures 24 <= InfoOf(n) <= 27 && n < Pow256(Width(InfoOf(n)))
  {
    Powers();
  }

  lemma HeadIsWide(major: Major, n: nat)
    requires 24 <= n < TWO64
    ensures EncodeHead(major, n) == [major * 32 + InfoOf(n)] + BigEndian(n, Width(InfoOf(n)))
  {}

  lemma NarrowHead(major: Major, n: nat, rest: seq<Byte>)
    requires n < 24
    ensures ReadHead([major * 32 + n] + rest) == Some(Head(major, n, rest))
  {
    assert ([major * 32 + n] + rest)[1..] == rest;
  }

  lemma HeadReadsBack(major: Major, n: nat, rest: seq<Byte>)
    requires n < TWO64
    ensures ReadHead(EncodeHead(major, n) + rest) == Some(Head(major, n, rest))
  {
    if n < 24 {
      NarrowHead(major, n, rest);
    } else {
      InfoFits(n);
      HeadIsWide(major, n);
      WideHead(major, InfoOf(n), n, rest);
    }
  }

  /** Section 4.2.1 of RFC 8949: no head that reads back as the same argument is shorter. */
  lemma HeadIsShortest(major: Major, n: nat, bs: seq<Byte>)
    requires n < TWO64 && ReadHead(bs) == Some(Head(major, n, []))
    ensures |EncodeHead(major, n)| <= |bs|
  {
    Powers();
    if bs[0] % 32 >= 24 {
      NumberBound(bs[1..1 + Width(bs[0] % 32)]);
    }
  }

  /** A head, byte by byte: major type in the top three bits, the argument in as few bytes as hold it. */
  lemma HeadSpelled(major: Major, n: nat)
    requires n < TWO64
    ensures n < 24 ==> EncodeHead(major, n) == [major * 32 + n]
    ensures 24 <= n < 0x100 ==> EncodeHead(major, n) == [major * 32 + 24] + [n % 256]
    ensures 0x100 <= n < 0x1_0000 ==> EncodeHead(major, n) == [major * 32 + 25] + [n / 0x100 % 256, n % 256]
    ensures 0x1_0000 <= n < 0x1_0000_0000 ==>
      EncodeHead(major, n) ==
        [major * 32 + 26] + [n / 0x100_0000 % 256, n / 0x1_0000 % 256, n / 0x100 % 256, n % 256]
    ensures 0x1_0000_0000 <= n ==>
      EncodeHead(major, n) ==
        [major * 32 + 27] +
          [n / 0x100_0000_0000_0000 % 256, n / 0x1_0000_0000_0000 % 256, n / 0x100_0000_0000 % 256,
           n / 0x1_0000_0000 % 256, n / 0x100_0000 % 256, n / 0x1_0000 % 256, n / 0x100 % 256, n % 256]
  {
    BigEndianBytes(n);
    ShortBytes(n);
  }

  lemma ShortBytes(n: nat)
    ensures BigEndian(n, 1) == [n % 256] && BigEndian(n, 2) == [n / 0x100 % 256, n % 256]
  {
    assert BigEndian(n, 1) == BigEndian(n / 256, 0) + [n % 256];
    assert BigEndian(n / 256, 1) == BigEndian(n / 256 / 256, 0) + [n / 256 % 256];
    assert BigEndian(n, 2) == BigEndian(n / 256, 1) + [n % 256];
  }

  /** Numbers from Appendix A of RFC 8949. */
  lemma NumberExamples(n: int)
    requires IsInt64(n)
    ensures n == 0 ==> EncodeInt(n) == [0x00]
    ensures n == 23 ==> EncodeInt(n) == [0x17]
    ensures n == 24 ==> EncodeInt(n) == [0x18, 0x18]
    ensures n == 1000 ==> EncodeInt(n) == [0x19, 0x03, 0xe8]
    ensures n == 1000000 ==> EncodeInt(n) == [0x1a, 0x00, 0x0f, 0x42, 0x40]
    ensures n == 1000000000000 ==> EncodeInt(n) == [0x1b, 0x00, 0x00, 0x00, 0xe8, 0xd4, 0xa5, 0x10, 0x00]
    ensures n == -1 ==> EncodeInt(n) == [0x20]
    ensures n == -100 ==> EncodeInt(n) == [0x38, 0x63]
    ensures n == -1000 ==> EncodeInt(n) == [0x39, 0x03, 0xe7]
  {
    if n >= 0 { HeadSpelled(0, n); } else { HeadSpelled(1, -(n + 1)); }
  }

  // ----- sorting keys: one possible order -----

  predicate Ascending<T>(ps: seq<Pair<T>>)
    requires SizedKeys(ps)
  {
    forall i, j :: 0 <= i < j < |ps| ==> KeyLess(ps[i].key, ps[j].key)
  }

  lemma KeyCodeInjective(a: seq<Byte>, b: seq<Byte>)
    requires Sized(|a|) && Sized(|b|) && KeyCode(a) == KeyCode(b)
    ensures a == b
  {
    HeadReadsBack(3, |a|, a);
    HeadReadsBack(3, |b|, b);
  }

  lemma KeyLessOrder(a: seq<Byte>, b: seq<Byte>, c: seq<Byte>)
    requires Sized(|a|) && Sized(|b|) && Sized(|c|)
    ensures a == b || KeyLess(a, b) || KeyLess(b, a)
    ensures KeyLess(a, b) ==> !KeyLess(b, a) && a != b
    ensures KeyLess(a, b) && KeyLess(b, c) ==> KeyLess(a, c)
  {
    BytesLessTotal(KeyCode(a), KeyCode(b));
    if KeyCode(a) == KeyCode(b) { KeyCodeInjective(a, b); }
    if KeyLess(a, b) { BytesLessAsymmetric(KeyCode(a), KeyCode(b)); }
    if KeyLess(a, b) && KeyLess(b, c) { BytesLessTransitive(KeyCode(a), KeyCode(b), KeyCode(c)); }
  }

  lemma InsertElems<T>(p: Pair<T>, ps: seq<Pair<T>>, x: Pair<T>)
    requires Sized(|p.key|) && SizedKeys(ps)
    ensures x in InsertPair(p, ps) <==> x == p || x in ps
  {
    assert x in multiset(InsertPair(p, ps)) <==> x in multiset(ps) + multiset{p};
  }

  lemma SortElems<T>(ps: seq<Pair<T>>, x: Pair<T>)
    requires SizedKeys(ps)
    ensures x in SortPairs(ps) <==> x in ps
  {
    assert x in multiset(SortPairs(ps)) <==> x in multiset(ps);
  }

  lemma {:induction false} InsertAscending<T>(p: Pair<T>, ps: seq<Pair<T>>)
    requires Sized(|p.key|) && SizedKeys(ps) && Ascending(ps) && forall q :: q in ps ==> q.key != p.key
    ensures Ascending(InsertPair(p, ps))
  {
    if ps != [] {
      KeyLessOrder(p.key, ps[0].key, []);
      if KeyLess(p.key, ps[0].key) {
        forall j | 0 <= j < |ps| ensures KeyLess(p.key, ps[j].key) {
          KeyLessOrder(p.key, ps[0].key, ps[j].key);
        }
      } else {
        InsertAscending(p, ps[1..]);
        var more := InsertPair(p, ps[1..]);
        forall j | 0 <= j < |more| ensures KeyLess(ps[0].key, more[j].key) {
          InsertElems(p, ps[1..], more[j]);
          assert ps[0] in ps;
        }
      }
    }
  }

  lemma {:induction false} SortAscending<T>(ps: seq<Pair<T>>)
    requires SizedKeys(ps) && DistinctKeys(ps)
    ensures Ascending(SortPairs(ps))
  {
    if ps != [] {
      SortAscending(ps[1..]);
      forall q | q in SortPairs(ps[1..]) ensures q.key != ps[0].key {
        SortElems(ps[1..], q);
        var j :| 0 <= j < |ps| - 1 && ps[1..][j] == q;
        assert ps[j + 1] == q;
      }
      InsertAscending(ps[0], SortPairs(ps[1..]));
    }
  }

  lemma AscendingDistinct<T>(ps: seq<Pair<T>>)
    requires SizedKeys(ps) && Ascending(ps)
    ensures DistinctKeys(ps)
  {
    forall i, j | 0 <= i < j < |ps| ensures ps[i].key != ps[j].key {
      KeyLessOrder(ps[i].key, ps[j].key, []);
    }
  }

  predicate SameElems<T(==)>(a: seq<T>, b: seq<T>) {
    (forall x :: x in a ==> x in b) && (forall x :: x in b ==> x in a)
  }

  lemma FirstIsLeast<T>(a: seq<Pair<T>>, b: seq<Pair<T>>)
    requires SizedKeys(a) && SizedKeys(b) && Ascending(a) && Ascending(b) && SameElems(a, b) && a != [] && b != []
    ensures a[0] == b[0]
  {
    assert a[0] in b && b[0] in a;
    var i, j :| 0 <= i < |a| && a[i] == b[0] && 0 <= j < |b| && b[j] == a[0];
    KeyLessOrder(a[0].key, b[0].key, []);
  }

  lemma AscendingTail<T>(a: seq<Pair<T>>, x: Pair<T>)
    requires SizedKeys(a) && Ascending(a) && a != []
    ensures x in a[1..] <==> x in a && x != a[0]
  {
    AscendingDistinct(a);
    if x in a && x != a[0] {
      var i :| 0 <= i < |a| && a[i] == x;
      assert a[1..][i - 1] == x;
    }
  }

  lemma EmptyAlike<T>(a: seq<T>, b: seq<T>)
    requires SameElems(a, b)
    ensures a == [] <==> b == []
  {
    assert a != [] ==> a[0] in a;
    assert b != [] ==> b[0] in b;
  }

  /** Whatever sorting algorithm, stable or not, arrives at this. */
  lemma {:induction false} AscendingUnique<T>(a: seq<Pair<T>>, b: seq<Pair<T>>)
    requires SizedKeys(a) && SizedKeys(b) && Ascending(a) && Ascending(b) && SameElems(a, b)
    ensures a == b
  {
    EmptyAlike(a, b);
    if a != [] {
      FirstIsLeast(a, b);
      forall x ensures x in a[1..] <==> x in b[1..] {
        AscendingTail(a, x);
        AscendingTail(b, x);
      }
      AscendingUnique(a[1..], b[1..]);
      assert a == [a[0]] + a[1..] && b == [b[0]] + b[1..];
    }
  }

  /** Bytewise order of the encodings is length first, then bytewise order of the keys (section 3.9 of RFC 7049). */
  lemma KeyOrder(a: seq<Byte>, b: seq<Byte>)
    requires Sized(|a|) && Sized(|b|)
    ensures KeyLess(a, b) <==> |a| < |b| || (|a| == |b| && BytesLess(a, b))
  {
    if |a| < |b| {
      HeadOrder(3, |a|, |b|, a, b);
    } else if |a| > |b| {
      HeadOrder(3, |b|, |a|, b, a);
      KeyLessOrder(b, a, []);
    } else {
      BytesLessAfter(EncodeHead(3, |a|), a, b);
    }
  }

  lemma WideOrder(x: Byte, n: nat, m: nat, w: nat, s: seq<Byte>, t: seq<Byte>)
    requires n < m < Pow256(w)
    ensures BytesLess([x] + BigEndian(n, w) + s, [x] + BigEndian(m, w) + t)
  {
    BigEndianOrder(n, m, w);
    BytesLessAsymmetric(BigEndian(n, w), BigEndian(m, w));
    BytesLessBefore(BigEndian(n, w), BigEndian(m, w), s, t);
    assert [x] + BigEndian(n, w) + s == [x] + (BigEndian(n, w) + s);
    assert [x] + BigEndian(m, w) + t == [x] + (BigEndian(m, w) + t);
    BytesLessAfter([x], BigEndian(n, w) + s, BigEndian(m, w) + t);
  }

  lemma HeadOrder(major: Major, n: nat, m: nat, s: seq<Byte>, t: seq<Byte>)
    requires n < m < TWO64
    ensures BytesLess(EncodeHead(major, n) + s, EncodeHead(major, m) + t)
  {
    var a, b := EncodeHead(major, n) + s, EncodeHead(major, m) + t;
    if InfoOf(n) < InfoOf(m) {
      assert a[0] < b[0];
    } else {
      InfoFits(m);
      HeadIsWide(major, n);
      HeadIsWide(major, m);
      WideOrder(major * 32 + InfoOf(m), n, m, Width(InfoOf(m)), s, t);
    }
  }

  // ----- round trip -----

  lemma {:induction false} CodesAt(es: seq<Pair<Value>>, i: nat)
    requires Encodable(es) && i < |es|
    ensures es[i] in es && Codes(es)[i] == Pair(es[i].key, Encode(es[i].item))
  {
    assert es[i] in es;
    if i > 0 {
      assert es[1..][i - 1] == es[i];
      CodesAt(es[1..], i - 1);
    }
  }

  lemma {:induction false} DataPairsAt(es: seq<Pair<Value>>, i: nat)
    requires (forall e :: e in es ==> Supported(e.item)) && i < |es|
    ensures es[i] in es && DataPairs(es)[i] == Pair(es[i].key, Meaning(es[i].item))
  {
    assert es[i] in es;
    if i > 0 {
      assert es[1..][i - 1] == es[i];
      DataPairsAt(es[1..], i - 1);
    }
  }

  lemma {:induction false} MapOfLookup<T>(ps: seq<Pair<T>>)
    requires DistinctKeys(ps)
    ensures forall k :: k in MapOf(ps) <==> exists i :: 0 <= i < |ps| && ps[i].key == k
    ensures forall i :: 0 <= i < |ps| ==> ps[i].key in MapOf(ps) && MapOf(ps)[ps[i].key] == ps[i].item
  {
    if ps != [] {
      var n := |ps| - 1;
      MapOfLookup(ps[..n]);
      forall i | 0 <= i < |ps| ensures ps[i].key in MapOf(ps) && MapOf(ps)[ps[i].key] == ps[i].item {
        if i < n { assert ps[..n][i] == ps[i] && ps[i].key != ps[n].key; }
      }
      forall k | k in MapOf(ps) ensures exists i :: 0 <= i < |ps| && ps[i].key == k {
        if k in MapOf(ps[..n]) {
          var i :| 0 <= i < n && ps[..n][i].key == k;
          assert ps[i].key == k;
        }
      }
    }
  }

  lemma DataKeys(es: seq<Pair<Value>>)
    requires DistinctKeys(es) && forall e :: e in es ==> Supported(e.item)
    ensures DistinctKeys(DataPairs(es))
  {
    forall i | 0 <= i < |es| ensures DataPairs(es)[i].key == es[i].key { DataPairsAt(es, i); }
  }

  /** A map's meaning, looked up entry by entry. */
  lemma MapMeaning(es: seq<Pair<Value>>)
    requires DistinctKeys(es) && forall e :: e in es ==> Supported(e.item)
    ensures forall k :: k in MapOf(DataPairs(es)) <==> exists i :: 0 <= i < |es| && es[i].key == k
    ensures forall i :: 0 <= i < |es| ==>
      es[i].key in MapOf(DataPairs(es)) && MapOf(DataPairs(es))[es[i].key] == Meaning(es[i].item)
  {
    var ds := DataPairs(es);
    DataKeys(es);
    MapOfLookup(ds);
    forall i | 0 <= i < |es|
      ensures ds[i] == Pair(es[i].key, Meaning(es[i].item)) && es[i].key in MapOf(ds) &&
        MapOf(ds)[es[i].key] == Meaning(es[i].item)
    {
      DataPairsAt(es, i);
      assert ds[i].key in MapOf(ds);
    }
  }

  /** The order of a map's entries does not change its meaning. */
  lemma OrderMeansNothing(es: seq<Pair<Value>>, fs: seq<Pair<Value>>)
    requires DistinctKeys(es) && DistinctKeys(fs) && SameElems(es, fs) && forall e :: e in es ==> Supported(e.item)
    ensures forall e :: e in fs ==> Supported(e.item)
    ensures MapOf(DataPairs(es)) == MapOf(DataPairs(fs))
  {
    MapMeaning(es);
    MapMeaning(fs);
    var m, n := MapOf(DataPairs(es)), MapOf(DataPairs(fs));
    forall k | k in m ensures k in n && n[k] == m[k] { LookupMoves(es, fs, k); }
    forall k | k in n ensures k in m { LookupMoves(fs, es, k); }
  }

  lemma LookupMoves(es: seq<Pair<Value>>, fs: seq<Pair<Value>>, k: seq<Byte>)
    requires DistinctKeys(es) && DistinctKeys(fs) && SameElems(es, fs) && forall e :: e in es ==> Supported(e.item)
    requires k in MapOf(DataPairs(es))
    ensures forall e :: e in fs ==> Supported(e.item)
    ensures k in MapOf(DataPairs(fs)) && MapOf(DataPairs(fs))[k] == MapOf(DataPairs(es))[k]
  {
    MapMeaning(es);
    MapMeaning(fs);
    var i :| 0 <= i < |es| && es[i].key == k;
    assert es[i] in fs;
    var j :| 0 <= j < |fs| && fs[j] == es[i];
  }

  lemma {:induction false} InsertCodes(p: Pair<Value>, es: seq<Pair<Value>>)
    requires Encodable([p] + es) && SizedKeys(es)
    ensures Encodable(es) && Encodable(InsertPair(p, es))
    ensures InsertPair(Pair(p.key, Encode(p.item)), Codes(es)) == Codes(InsertPair(p, es))
  {
    assert p in [p] + es;
    forall e | e in es ensures e in [p] + es {}
    forall e | e in InsertPair(p, es) ensures e in [p] + es { InsertElems(p, es, e); }
    if es != [] {
      assert es[0] in es;
      assert Encodable([p] + es[1..]);
      InsertCodes(p, es[1..]);
      assert Codes(es)[1..] == Codes(es[1..]);
      assert ([p] + es)[1..] == es;
    }
  }

  lemma EncodableSized(es: seq<Pair<Value>>)
    requires Encodable(es)
    ensures SizedKeys(es)
  {
    forall i | 0 <= i < |es| ensures Sized(|es[i].key|) { assert es[i] in es; }
  }

  /** Encoding each value commutes with sorting by key. */
  lemma {:induction false} SortCodes(es: seq<Pair<Value>>)
    requires Encodable(es) && SizedKeys(es)
    ensures Encodable(SortPairs(es)) && SortPairs(Codes(es)) == Codes(SortPairs(es))
  {
    forall e | e in SortPairs(es) ensures e in es { SortElems(es, e); }
    if es != [] {
      assert es[0] in es;
      SortCodes(es[1..]);
      assert Codes(es)[1..] == Codes(es[1..]);
      InsertCodes(es[0], SortPairs(es[1..]));
    }
  }

  lemma SortSameElems(es: seq<Pair<Value>>)
    requires SizedKeys(es)
    ensures SameElems(es, SortPairs(es))
  {
    forall x ensures x in SortPairs(es) <==> x in es { SortElems(es, x); }
  }

  lemma KeyDecodes(key: seq<Byte>, rest: seq<Byte>)
    requires Sized(|key|)
    ensures ReadHead(KeyCode(key) + rest) == Some(Head(3, |key|, key + rest))
  {
    assert KeyCode(key) + rest == EncodeHead(3, |key|) + (key + rest);
    HeadReadsBack(3, |key|, key + rest);
  }

  /** One pair off the front. */
  lemma PairDecodes(key: seq<Byte>, code: seq<Byte>, data: Data, more: seq<Byte>, n: nat)
    requires Sized(|key|) && Decode(code + more) == Some(Read(data, more))
    ensures DecodePairs(n + 1, KeyCode(key) + code + more) ==
      match DecodePairs(n, more) case None => None case Some(ps) => Some(Read([Pair(key, data)] + ps.value, ps.rest))
  {
    assert KeyCode(key) + code + more == KeyCode(key) + (code + more);
    KeyDecodes(key, code + more);
    assert (key + (code + more))[..|key|] == key && (key + (code + more))[|key|..] == code + more;
  }

  lemma ConcatFront(ps: seq<Pair<Value>>, rest: seq<Byte>)
    requires Encodable(ps) && ps != []
    ensures ps[0] in ps && Encodable(ps[1..])
    ensures Concat(Codes(ps)) + rest == KeyCode(ps[0].key) + Encode(ps[0].item) + (Concat(Codes(ps[1..])) + rest)
  {
    assert ps[0] in ps;
    assert Codes(ps)[1..] == Codes(ps[1..]);
    Regroup(KeyCode(ps[0].key) + Encode(ps[0].item), Concat(Codes(ps[1..])), rest);
  }

  lemma PairsStep(ps: seq<Pair<Value>>, rest: seq<Byte>)
    requires Encodable(ps) && ps != [] && ps[0] in ps && Encodable(ps[1..])
    requires var more := Concat(Codes(ps[1..])) + rest;
      Decode(Encode(ps[0].item) + more) == Some(Read(Meaning(ps[0].item), more)) &&
      DecodePairs(|ps| - 1, more) == Some(Read(DataPairs(ps[1..]), rest))
    ensures DecodePairs(|ps|, Concat(Codes(ps)) + rest) == Some(Read(DataPairs(ps), rest))
  {
    ConcatFront(ps, rest);
    var p := ps[0];
    PairDecodes(p.key, Encode(p.item), Meaning(p.item), Concat(Codes(ps[1..])) + rest, |ps| - 1);
  }

  lemma {:induction false} PairsDecode(bound: Value, ps: seq<Pair<Value>>, rest: seq<Byte>)
    requires Encodable(ps) && forall i :: 0 <= i < |ps| ==> ps[i].item < bound
    ensures DecodePairs(|ps|, Concat(Codes(ps)) + rest) == Some(Read(DataPairs(ps), rest))
    decreases bound, 0, |ps|
  {
    if ps == [] {
      assert Concat(Codes(ps)) + rest == rest;
    } else {
      assert ps[0] in ps;
      DecodeEncode(ps[0].item, Concat(Codes(ps[1..])) + rest);
      PairsDecode(bound, ps[1..], rest);
      PairsStep(ps, rest);
    }
  }

  lemma {:induction false} ItemsDecode(bound: Value, items: seq<Value>, rest: seq<Byte>)
    requires forall i :: 0 <= i < |items| ==> items[i] < bound
    requires forall x :: x in items ==> GoValue(x) && Supported(x)
    ensures DecodeItems(|items|, EncodeItems(items) + rest) == Some(Read(Meanings(items), rest))
    decreases bound, 0, |items|
  {
    if items == [] {
      assert EncodeItems(items) + rest == rest;
    } else {
      var more := EncodeItems(items[1..]) + rest;
      assert items[0] in items;
      Regroup(Encode(items[0]), EncodeItems(items[1..]), rest);
      DecodeEncode(items[0], more);
      ItemsDecode(bound, items[1..], rest);
      ItemDecodes(Encode(items[0]), Meaning(items[0]), more, |items| - 1);
    }
  }

  lemma ItemDecodes(code: seq<Byte>, data: Data, more: seq<Byte>, n: nat)
    requires Decode(code + more) == Some(Read(data, more))
    ensures DecodeItems(n + 1, code + more) ==
      match DecodeItems(n, more) case None => None case Some(xs) => Some(Read([data] + xs.value, xs.rest))
  {}

  /** The entries in the order they are written. */
  lemma Written(v: Value) returns (sorted: seq<Pair<Value>>)
    requires v.Map? && GoValue(v) && Supported(v)
    ensures Encodable(v.entries) && SizedKeys(v.entries) && sorted == SortPairs(v.entries)
    ensures Encodable(sorted) && |sorted| == |v.entries| && Encode(v) == EncodeHead(5, |sorted|) + Concat(Codes(sorted))
    ensures Meaning(v) == DMap(MapOf(DataPairs(sorted)))
    ensures forall i :: 0 <= i < |sorted| ==> sorted[i].item < v
  {
    var es := v.entries;
    EncodableSized(es);
    SortCodes(es);
    SortSameElems(es);
    sorted := SortPairs(es);
    SortAscending(es);
    AscendingDistinct(sorted);
    OrderMeansNothing(es, sorted);
    SameSize(sorted, es);
    forall i | 0 <= i < |sorted| ensures sorted[i].item < v { BelowMap(v, sorted[i]); }
  }

  lemma SameSize<T>(a: seq<T>, b: seq<T>)
    requires multiset(a) == multiset(b)
    ensures |a| == |b|
  {
    assert |multiset(a)| == |multiset(b)|;
  }

  lemma BelowMap(v: Value, e: Pair<Value>)
    requires v.Map? && e in v.entries
    ensures e.item < v
  {
    var j :| 0 <= j < |v.entries| && v.entries[j] == e;
  }

  lemma {:induction false} MapDecodes(v: Value, rest: seq<Byte>)
    requires v.Map? && GoValue(v) && Supported(v)
    ensures Decode(Encode(v) + rest) == Some(Read(Meaning(v), rest))
    decreases v, 1
  {
    var sorted := Written(v);
    PairsDecode(v, sorted, rest);
    Regroup(EncodeHead(5, |sorted|), Concat(Codes(sorted)), rest);
    HeadReadsBack(5, |sorted|, Concat(Codes(sorted)) + rest);
  }

  lemma StringDecodes(major: Major, s: seq<Byte>, rest: seq<Byte>)
    requires (major == 2 || major == 3) && Sized(|s|)
    ensures Decode(EncodeHead(major, |s|) + s + rest) == Some(Read(if major == 2 then DBytes(s) else DText(s), rest))
  {
    assert EncodeHead(major, |s|) + s + rest == EncodeHead(major, |s|) + (s + rest);
    HeadReadsBack(major, |s|, s + rest);
    assert (s + rest)[..|s|] == s && (s + rest)[|s|..] == rest;
  }

  lemma NumberDecodes(major: Major, n: nat, rest: seq<Byte>)
    requires major <= 1 && n < TWO64
    ensures Decode(EncodeHead(major, n) + rest) == Some(Read(DInt(if major == 0 then n else -1 - n), rest))
  {
    HeadReadsBack(major, n, rest);
  }

  lemma SimpleDecodes(v: Value, rest: seq<Byte>)
    requires v.Nil? || v.Bool?
    ensures Decode(Encode(v) + rest) == Some(Read(Meaning(v), rest))
  {
    ByteDecodes(if v.Nil? then 0xf6 else if v.b then 0xf5 else 0xf4, rest);
  }

  lemma ByteDecodes(b: Byte, rest: seq<Byte>)
    requires b in {0xf4, 0xf5, 0xf6}
    ensures Decode([b] + rest) == Some(Read(if b == 0xf6 then DNull else DBool(b == 0xf5), rest))
  {
    assert ([b] + rest)[1..] == rest;
  }

  lemma {:induction false} ArrayDecodes(v: Value, rest: seq<Byte>)
    requires v.Array? && GoValue(v) && Supported(v)
    ensures Decode(Encode(v) + rest) == Some(Read(Meaning(v), rest))
    decreases v, 1
  {
    ItemsDecode(v, v.items, rest);
    Regroup(EncodeHead(4, |v.items|), EncodeItems(v.items), rest);
    HeadReadsBack(4, |v.items|, EncodeItems(v.items) + rest);
  }

  /** An encoding, whatever follows it, reads back as the value's meaning and leaves what follows. */
  lemma {:induction false} DecodeEncode(v: Value, rest: seq<Byte>)
    requires GoValue(v) && Supported(v)
    ensures Decode(Encode(v) + rest) == Some(Read(Meaning(v), rest))
    decreases v, 2
  {
    match v
    case Array(_) => ArrayDecodes(v, rest);
    case Map(_) => MapDecodes(v, rest);
    case _ => ScalarDecodes(v, rest);
  }

  lemma ScalarDecodes(v: Value, rest: seq<Byte>)
    requires !v.Array? && !v.Map? && GoValue(v) && Supported(v)
    ensures Decode(Encode(v) + rest) == Some(Read(Meaning(v), rest))
  {
    match v
    case Signed(n) => if n >= 0 { NumberDecodes(0, n, rest); } else { NumberDecodes(1, -(n + 1), rest); }
    case Unsigned(u) => NumberDecodes(0, u, rest);
    case Text(s) => StringDecodes(3, s, rest);
    case Binary(s) => StringDecodes(2, s, rest);
    case _ => SimpleDecodes(v, rest);
  }

  /** Injective and self-delimiting, over unbounded nesting. */
  lemma EncodingBinds(a: Value, b: Value, s: seq<Byte>, t: seq<Byte>)
    requires GoValue(a) && Supported(a) && GoValue(b) && Supported(b)
    requires Encode(a) + s == Encode(b) + t
    ensures Meaning(a) == Meaning(b) && s == t
  {
    DecodeEncode(a, s);
    DecodeEncode(b, t);
  }

  // ----- one encoding per meaning -----

  /** Each coded entry of one map is one of any other map of the same meaning. */
  lemma {:induction false} CodesIncluded(bound: Value, es: seq<Pair<Value>>, fs: seq<Pair<Value>>, i: nat)
    requires Encodable(es) && Encodable(fs) && DistinctKeys(es) && DistinctKeys(fs)
    requires MapOf(DataPairs(es)) == MapOf(DataPairs(fs)) && i < |es| && es[i].item < bound
    ensures Codes(es)[i] in Codes(fs)
    decreases bound, 0
  {
    MapMeaning(es);
    MapMeaning(fs);
    var j :| 0 <= j < |fs| && fs[j].key == es[i].key;
    CodesAt(es, i);
    CodesAt(fs, j);
    SameMeaningSameCode(es[i].item, fs[j].item);
  }

  lemma CodesDistinct(es: seq<Pair<Value>>)
    requires Encodable(es) && DistinctKeys(es)
    ensures DistinctKeys(Codes(es))
  {
    forall i | 0 <= i < |es| ensures Codes(es)[i].key == es[i].key { CodesAt(es, i); }
  }

  lemma {:induction false} MapsSameCode(a: Value, b: Value)
    requires a.Map? && b.Map? && GoValue(a) && Supported(a) && GoValue(b) && Supported(b) && Meaning(a) == Meaning(b)
    ensures Encode(a) == Encode(b)
    decreases a, 1
  {
    var ca, cb := Codes(a.entries), Codes(b.entries);
    forall x | x in ca ensures x in cb {
      var i :| 0 <= i < |ca| && ca[i] == x;
      CodesIncluded(a, a.entries, b.entries, i);
    }
    CodesBack(a, b);
    CodesDistinct(a.entries);
    CodesDistinct(b.entries);
    SortAscending(ca);
    SortAscending(cb);
    forall x ensures x in SortPairs(ca) <==> x in ca { SortElems(ca, x); }
    forall x ensures x in SortPairs(cb) <==> x in cb { SortElems(cb, x); }
    AscendingUnique(SortPairs(ca), SortPairs(cb));
    assert |ca| == |cb| by {
      assert |multiset(SortPairs(ca))| == |multiset(ca)| && |multiset(SortPairs(cb))| == |multiset(cb)|;
    }
  }

  lemma {:induction false} CodesBack(a: Value, b: Value)
    requires a.Map? && b.Map? && GoValue(a) && Supported(a) && GoValue(b) && Supported(b) && Meaning(a) == Meaning(b)
    ensures forall x :: x in Codes(b.entries) ==> x in Codes(a.entries)
    decreases a, 0
  {
    var es, fs := a.entries, b.entries;
    forall x | x in Codes(fs) ensures x in Codes(es) {
      var j :| 0 <= j < |fs| && Codes(fs)[j] == x;
      MapMeaning(es);
      MapMeaning(fs);
      assert fs[j].key in MapOf(DataPairs(fs));
      var i :| 0 <= i < |es| && es[i].key == fs[j].key;
      CodesAt(es, i);
      CodesAt(fs, j);
      SameMeaningSameCode(es[i].item, fs[j].item);
    }
  }

  lemma {:induction false} ItemsSameCode(bound: Value, xs: seq<Value>, ys: seq<Value>)
    requires forall i :: 0 <= i < |xs| ==> xs[i] < bound
    requires (forall x :: x in xs ==> GoValue(x) && Supported(x)) &&
      (forall y :: y in ys ==> GoValue(y) && Supported(y))
    requires Meanings(xs) == Meanings(ys)
    ensures EncodeItems(xs) == EncodeItems(ys) && |xs| == |ys|
    decreases bound, 0, |xs|
  {
    if xs != [] && ys != [] {
      assert xs[0] in xs && ys[0] in ys;
      assert Meanings(xs)[0] == Meaning(xs[0]) && Meanings(ys)[0] == Meaning(ys[0]);
      SameMeaningSameCode(xs[0], ys[0]);
      assert Meanings(xs)[1..] == Meanings(xs[1..]) && Meanings(ys)[1..] == Meanings(ys[1..]);
      ItemsSameCode(bound, xs[1..], ys[1..]);
    }
  }

  lemma {:induction false} SameMeaningSameCode(a: Value, b: Value)
    requires GoValue(a) && Supported(a) && GoValue(b) && Supported(b) && Meaning(a) == Meaning(b)
    ensures Encode(a) == Encode(b)
    decreases a, 2
  {
    match a
    case Array(items) => ItemsSameCode(a, items, b.items);
    case Map(_) => MapsSameCode(a, b);
    case _ =>
  }

  /**
   Two values have one encoding exactly when they mean the same: same integers, same maps whatever the iteration order.
   */
  lemma CanonicalEncoding(a: Value, b: Value)
    requires GoValue(a) && Supported(a) && GoValue(b) && Supported(b)
    ensures Encode(a) == Encode(b) <==> Meaning(a) == Meaning(b)
  {
    if Encode(a) == Encode(b) { EncodingBinds(a, b, [], []); }
    if Meaning(a) == Meaning(b) { SameMeaningSameCode(a, b); }
  }

  /** An evidence id, the hash of the encoding, binds what the event means. */
  lemma EvidenceIdBinds(H: Hash, a: Value, b: Value)
    requires GoValue(a) && Supported(a) && GoValue(b) && Supported(b)
    ensures H(Encode(a)) == H(Encode(b)) <==> Meaning(a) == Meaning(b) || Collide(H, Encode(a), Encode(b))
  {
    CanonicalEncoding(a, b);
  }

  // ----- the encoder, as the code runs it -----

  method CompareBytes(a: seq<Byte>, b: seq<Byte>) returns (less: bool)
    ensures less == BytesLess(a, b)
  {
    var n := |a|;
    if |b| < n { n := |b|; }
    for i := 0 to n
      invariant BytesLess(a, b) == BytesLess(a[i..], b[i..])
    {
      if a[i] != b[i] { return a[i] < b[i]; }
    }
    return |a| < |b|;
  }

  method AppendHead(buf: seq<Byte>, major: Major, n: nat) returns (r: seq<Byte>)
    requires n < TWO64
    ensures r == buf + EncodeHead(major, n)
  {
    var m := major * 32;
    if n < 24 { return buf + [m + n]; }
    if n <= 0xff {
      assert BigEndian(n, 1) == [] + [n] == [n];
      Regroup(buf, [m + 24], [n]);
      return buf + [m + 24] + [n];
    }
    var info, w := 27, 8;
    if n <= 0xffff {
      info, w := 25, 2;
    } else if n <= 0xffff_ffff {
      info, w := 26, 4;
    }
    var b := PutUint(n, w);
    Regroup(buf, [m + info], b[..]);
    return buf + [m + info] + b[..];
  }

  /** binary.BigEndian's PutUint16, PutUint32 and PutUint64. */
  method PutUint(n: nat, w: nat) returns (b: array<Byte>)
    ensures fresh(b) && b[..] == BigEndian(n, w)
  {
    b := new Byte[w](_ => 0);
    for i := 0 to w
      invariant forall k :: 0 <= k < i ==> b[k] == BigEndian(n, w)[k]
    {
      BigEndianAt(n, w, i);
      b[i] := n / Pow256(w - 1 - i) % 256;
    }
  }

  /** sort.Slice: any order without inversions is allowed, ties included. */
  method SortSlice(es: seq<Pair<Value>>) returns (r: seq<Pair<Value>>)
    requires SizedKeys(es)
    ensures multiset(r) == multiset(es) && SizedKeys(r)
    ensures NoInversion(r)
  {
    r := [];
    for n := 0 to |es|
      invariant multiset(r) == multiset(es[..n]) && SizedKeys(r)
      invariant NoInversion(r)
    {
      assert es[..n + 1] == es[..n] + [es[n]];
      var k := |r|;
      while k > 0 && KeyLess(es[n].key, r[k - 1].key)
        invariant 0 <= k <= |r|
        invariant forall j :: k <= j < |r| ==> KeyLess(es[n].key, r[j].key)
      {
        k := k - 1;
      }
      Inserted(es[n], r, k);
      r := InsertAt(r, k, es[n]);
    }
    assert es[..|es|] == es;
  }

  predicate NoInversion(r: seq<Pair<Value>>)
    requires SizedKeys(r)
  {
    forall i, j :: 0 <= i < j < |r| ==> !KeyLess(r[j].key, r[i].key)
  }

  function InsertAt(r: seq<Pair<Value>>, k: nat, p: Pair<Value>): (s: seq<Pair<Value>>)
    requires k <= |r| && SizedKeys(r) && Sized(|p.key|)
    ensures |s| == |r| + 1 && SizedKeys(s) && multiset(s) == multiset(r) + multiset{p}
    ensures forall i :: 0 <= i < |s| ==> s[i] == if i < k then r[i] else if i == k then p else r[i - 1]
  {
    assert r == r[..k] + r[k..];
    r[..k] + [p] + r[k..]
  }

  lemma Inserted(p: Pair<Value>, r: seq<Pair<Value>>, k: nat)
    requires k <= |r| && SizedKeys(r) && Sized(|p.key|) && NoInversion(r)
    requires k > 0 ==> !KeyLess(p.key, r[k - 1].key)
    requires forall j :: k <= j < |r| ==> KeyLess(p.key, r[j].key)
    ensures NoInversion(InsertAt(r, k, p))
  {
    var s := InsertAt(r, k, p);
    forall i, j | 0 <= i < j < |s| ensures !KeyLess(s[j].key, s[i].key) {
      if j == k {
        KeyLessOrder(p.key, r[i].key, r[k - 1].key);
        KeyLessOrder(r[i].key, r[k - 1].key, []);
      } else if i == k {
        KeyLessOrder(p.key, r[j - 1].key, []);
      }
    }
  }

  /** With distinct keys there is only one such order. */
  lemma SortSliceUnique(es: seq<Pair<Value>>, r: seq<Pair<Value>>)
    requires SizedKeys(es) && SizedKeys(r) && DistinctKeys(es) && multiset(r) == multiset(es)
    requires NoInversion(r)
    ensures r == SortPairs(es)
  {
    SortAscending(es);
    var s := SortPairs(es);
    forall x ensures x in r <==> x in s { assert x in multiset(r) <==> x in multiset(s); }
    AscendingDistinct(s);
    forall i, j | 0 <= i < j < |r| ensures KeyLess(r[i].key, r[j].key) {
      DistinctStays(s, r, i, j);
      KeyLessOrder(r[i].key, r[j].key, []);
    }
    AscendingUnique(r, s);
  }

  lemma DistinctStays(s: seq<Pair<Value>>, r: seq<Pair<Value>>, i: nat, j: nat)
    requires DistinctKeys(s) && multiset(r) == multiset(s) && i < j < |r|
    ensures r[i].key != r[j].key
  {
    if r[i] == r[j] {
      var a, b := r[..j], r[j..];
      assert r == a + b && a[i] == r[i] && b[0] == r[j];
      assert multiset(a)[r[i]] >= 1 && multiset(b)[r[i]] >= 1;
      assert multiset(r)[r[i]] >= 2;
      OnceOnly(s, r[i]);
    } else {
      assert r[i] in multiset(s) && r[j] in multiset(s);
      var a, b :| 0 <= a < |s| && 0 <= b < |s| && s[a] == r[i] && s[b] == r[j];
    }
  }

  lemma {:induction false} OnceOnly(s: seq<Pair<Value>>, x: Pair<Value>)
    requires DistinctKeys(s)
    ensures multiset(s)[x] <= 1
  {
    if s != [] {
      assert s == [s[0]] + s[1..];
      OnceOnly(s[1..], x);
      if x == s[0] {
        assert x !in s[1..];
      }
    }
  }

  method EncodeValue(buf: seq<Byte>, v: Value) returns (r: Result<seq<Byte>>)
    requires GoValue(v)
    ensures r.Ok? <==> Supported(v)
    ensures r.Ok? ==> r.value == buf + Encode(v)
    decreases v, 1
  {
    match v
    case Nil => return Ok(buf + [0xf6]);
    case Bool(b) => return Ok(buf + [if b then 0xf5 else 0xf4]);
    case Signed(n) =>
      // -(n + 1) stays within int64 even at its minimum.
      assert n < 0 ==> IsInt64(-(n + 1));
      var out := AppendHead(buf, if n >= 0 then 0 else 1, if n >= 0 then n else -(n + 1));
      return Ok(out);
    case Unsigned(u) =>
      var out := AppendHead(buf, 0, u);
      return Ok(out);
    case Text(t) =>
      var out := AppendHead(buf, 3, |t|);
      return Ok(out + t);
    case Binary(b) =>
      var out := AppendHead(buf, 2, |b|);
      return Ok(out + b);
    case Array(_) => r := EncodeArray(buf, v);
    case Map(_) => r := EncodeMap(buf, v);
    case Other => return Err;
  }

  lemma ItemWritten(items: seq<Value>, i: nat, all: seq<Byte>, before: seq<Byte>)
    requires i < |items| && forall x :: x in items ==> GoValue(x) && Supported(x)
    requires before + EncodeItems(items[i..]) == all
    ensures before + Encode(items[i]) + EncodeItems(items[i + 1..]) == all
  {
    assert items[i..][1..] == items[i + 1..];
    Regroup(before, Encode(items[i]), EncodeItems(items[i + 1..]));
  }

  predicate SupportedUpTo(es: seq<Pair<Value>>, n: nat)
    requires n <= |es|
  {
    forall j :: 0 <= j < n ==> Supported(es[j].item)
  }

  lemma OneMoreSupported(es: seq<Pair<Value>>, n: nat)
    requires n < |es| && SupportedUpTo(es, n) && Supported(es[n].item)
    ensures SupportedUpTo(es, n + 1)
  {}

  lemma AllSupported(v: Value, sorted: seq<Pair<Value>>)
    requires v.Map? && SameElems(v.entries, sorted) && SupportedUpTo(sorted, |sorted|)
    ensures Supported(v)
  {
    forall e | e in v.entries ensures Supported(e.item) { assert e in sorted; }
  }

  lemma EntryWritten(es: seq<Pair<Value>>, i: nat, all: seq<Byte>, before: seq<Byte>, after: seq<Byte>)
    requires i < |es| && Encodable(es[i..]) && es[i] in es[i..]
    requires before + Concat(Codes(es[i..])) == all
    requires after == before + EncodeHead(3, |es[i].key|) + es[i].key + Encode(es[i].item)
    ensures Encodable(es[i + 1..]) && after + Concat(Codes(es[i + 1..])) == all
  {
    assert es[i..][1..] == es[i + 1..];
    var e, more := es[i], Concat(Codes(es[i + 1..]));
    ConcatFront(es[i..], []);
    Unchain(before, EncodeHead(3, |e.key|), e.key, Encode(e.item), more);
    assert Concat(Codes(es[i..])) + [] == Concat(Codes(es[i..])) && more + [] == more;
  }

  lemma Unchain(a: seq<Byte>, b: seq<Byte>, c: seq<Byte>, d: seq<Byte>, e: seq<Byte>)
    ensures a + b + c + d + e == a + (b + c + d + e)
  {
    Regroup(a, b, c);
    Regroup(a, b + c, d);
    Regroup(a, b + c + d, e);
  }

  method EncodeArray(buf: seq<Byte>, v: Value) returns (r: Result<seq<Byte>>)
    requires v.Array? && GoValue(v)
    ensures r.Ok? <==> Supported(v)
    ensures r.Ok? ==> r.value == buf + Encode(v)
    decreases v, 0
  {
    var items := v.items;
    var out := AppendHead(buf, 4, |items|);
    ghost var all := out;
    if Supported(v) {
      all := out + EncodeItems(items);
      Regroup(buf, EncodeHead(4, |items|), EncodeItems(items));
    }
    for i := 0 to |items|
      invariant Supported(v) ==> out + EncodeItems(items[i..]) == all
      invariant forall x :: x in items[..i] ==> Supported(x)
    {
      r := EncodeValue(out, items[i]);
      if r.Err? { return Err; }
      if Supported(v) { ItemWritten(items, i, all, out); }
      out := r.value;
    }
    assert items[..|items|] == items;
    return Ok(out);
  }

  lemma EntriesSized(v: Value)
    requires v.Map? && GoValue(v)
    ensures SizedKeys(v.entries)
  {
    var es := v.entries;
    forall i | 0 <= i < |es| ensures Sized(|es[i].key|) { assert es[i] in es; }
  }

  /** What remains to be written after a map's head is the coding of its entries as the sort left them. */
  lemma SortedEntries(v: Value, sorted: seq<Pair<Value>>, buf: seq<Byte>) returns (all: seq<Byte>)
    requires v.Map? && GoValue(v) && SizedKeys(v.entries)
    requires SizedKeys(sorted) && multiset(sorted) == multiset(v.entries) && NoInversion(sorted)
    ensures SameElems(v.entries, sorted)
    ensures Supported(v) ==>
      Encodable(sorted) && all == buf + Encode(v) && buf + EncodeHead(5, |v.entries|) + Concat(Codes(sorted)) == all
  {
    SortSliceUnique(v.entries, sorted);
    SortSameElems(v.entries);
    all := buf;
    if Supported(v) {
      var order := Written(v);
      all := buf + Encode(v);
      Regroup(buf, EncodeHead(5, |v.entries|), Concat(Codes(sorted)));
    }
  }

  method EncodeMap(buf: seq<Byte>, v: Value) returns (r: Result<seq<Byte>>)
    requires v.Map? && GoValue(v)
    ensures r.Ok? <==> Supported(v)
    ensures r.Ok? ==> r.value == buf + Encode(v)
    decreases v, 0
  {
    var es := v.entries;
    EntriesSized(v);
    var sorted := SortSlice(es);
    var out := AppendHead(buf, 5, |es|);
    ghost var all := SortedEntries(v, sorted, buf);
    for i := 0 to |sorted|
      invariant Supported(v) ==> Encodable(sorted[i..]) && out + Concat(Codes(sorted[i..])) == all
      invariant SupportedUpTo(sorted, i)
    {
      var e := sorted[i];
      BelowMap(v, e);
      var head := AppendHead(out, 3, |e.key|);
      r := EncodeValue(head + e.key, e.item);
      if r.Err? { return Err; }
      OneMoreSupported(sorted, i);
      if Supported(v) { EntryWritten(sorted, i, all, out, r.value); }
      out := r.value;
    }
    AllSupported(v, sorted);
    return Ok(out);
  }
}
