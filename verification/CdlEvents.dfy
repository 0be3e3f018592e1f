/** Normalized events: dotted paths, scalar rendering, group keys and flattening (detect/path.go, detect/sql.go). */
module CdlEvents {
  import opened Common
  import opened CdlExpr

  type Event = v: Value | v.Map? witness Map(map[])

  // ----- paths -----

  function Resolve(v: Value, path: Path): Option<Value> {
    if path == [] then Some(v)
    else if v.Map? && path[0] in v.entries then Resolve(v.entries[path[0]], path[1..])
    else None
  }

  /** resolvePath walks the maps in a loop. */
  method ResolvePath(m: Event, path: Path) returns (r: Option<Value>)
    ensures r == Resolve(m, path)
  {
    var cur: Value := m;
    for i := 0 to |path|
      invariant Resolve(m, path) == Resolve(cur, path[i..])
    {
      if !cur.Map? || path[i] !in cur.entries { return None; }
      cur := cur.entries[path[i]];
    }
    return Some(cur);
  }

  // ----- rendering -----

  const UNIT_SEPARATOR: char := '\U{1f}'

  function Digit(n: nat): char
    requires n < 10
  {
    "0123456789"[n]
  }

  function Decimal(n: nat): string { if n < 10 then [Digit(n)] else Decimal(n / 10) + [Digit(n % 10)] }

  function FormatInt(n: int): string { if n < 0 then "-" + Decimal(-n) else Decimal(n) }

  function RenderScalar(v: Value): string {
    match v
    case Str(s) => s
    case Int(n) => FormatInt(n)
    case Bool(b) => if b then "true" else "false"
    case Null => "\0null"
    case _ => "\0unsupported"
  }

  lemma {:induction false} DecimalInjective(m: nat, n: nat)
    requires Decimal(m) == Decimal(n)
    ensures m == n
  {
    var a, b := Decimal(m), Decimal(n);
    DecimalDigits(m / 10);
    DecimalDigits(n / 10);
    if m >= 10 && n >= 10 {
      assert a[..|a| - 1] == Decimal(m / 10) && b[..|b| - 1] == Decimal(n / 10);
      DecimalInjective(m / 10, n / 10);
      assert a[|a| - 1] == Digit(m % 10) && b[|b| - 1] == Digit(n % 10);
    }
  }

  lemma {:induction false} DecimalDigits(n: nat)
    ensures Decimal(n) != [] && forall i :: 0 <= i < |Decimal(n)| ==> '0' <= Decimal(n)[i] <= '9'
  {
    if n >= 10 { DecimalDigits(n / 10); }
  }

  lemma FormatIntShape(n: int)
    ensures FormatInt(n) != [] && (FormatInt(n)[0] == '-' <==> n < 0)
    ensures forall c :: c in FormatInt(n) ==> c == '-' || '0' <= c <= '9'
  {
    DecimalDigits(if n < 0 then -n else n);
  }

  lemma FormatIntInjective(m: int, n: int)
    requires FormatInt(m) == FormatInt(n)
    ensures m == n
  {
    FormatIntShape(m);
    FormatIntShape(n);
    if m < 0 {
      assert FormatInt(m)[1..] == Decimal(-m) && FormatInt(n)[1..] == Decimal(-n);
      DecimalInjective(-m, -n);
    } else {
      DecimalInjective(m, n);
    }
  }

  /** The number a decimal string spells. */
  function Spelled(s: string): nat {
    if s == "" then 0 else Spelled(s[..|s| - 1]) * 10 + DigitValue(s[|s| - 1])
  }

  function DigitValue(c: char): nat { if '0' <= c <= '9' then c as int - '0' as int else 0 }

  lemma {:induction false} DecimalSpells(n: nat)
    ensures Spelled(Decimal(n)) == n
  {
    if n >= 10 {
      DecimalSpells(n / 10);
    } else {
      assert [Digit(n)][..0] == "" && Spelled("") == 0;
    }
  }

  /** Text renders as itself, an integer in decimal, a bool as its name. */
  lemma RenderMeaning(v: Value)
    ensures v.Str? ==> RenderScalar(v) == v.s
    ensures v.Int? && v.n >= 0 ==> Spelled(RenderScalar(v)) == v.n
    ensures v.Int? && v.n < 0 ==>
      RenderScalar(v) != "" && RenderScalar(v)[0] == '-' && Spelled(RenderScalar(v)[1..]) == -v.n
    ensures v == Bool(true) ==> RenderScalar(v) == "true"
    ensures v == Bool(false) ==> RenderScalar(v) == "false"
    ensures v.Null? ==> RenderScalar(v) == "\0null"
  {
    if v.Int? {
      DecimalSpells(if v.n < 0 then -v.n else v.n);
      if v.n < 0 { assert ("-" + Decimal(-v.n))[1..] == Decimal(-v.n); }
    }
  }

  // ----- group keys -----

  /** What group_by fields are meant to hold: identity-like scalars without the separator. */
  predicate IsKeyScalar(v: Value) {
    v.Bool? || v.Int? || (v.Str? && UNIT_SEPARATOR !in v.s)
  }

  predicate SameKind(a: Value, b: Value) { (a.Bool? && b.Bool?) || (a.Int? && b.Int?) || (a.Str? && b.Str?) }

  function JoinKey(parts: seq<string>): string {
    if parts == [] then ""
    else if |parts| == 1 then parts[0]
    else parts[0] + [UNIT_SEPARATOR] + JoinKey(parts[1..])
  }

  function Rendered(get: Path -> Option<Value>, fields: seq<Path>): (r: Option<seq<string>>)
    ensures r.Some? <==> forall f :: f in fields ==> get(f).Some?
    ensures r.Some? ==> |r.value| == |fields|
    ensures r.Some? ==> forall i :: 0 <= i < |fields| ==> r.value[i] == RenderScalar(get(fields[i]).value)
  {
    if fields == [] then Some([])
    else if get(fields[0]) == None then None
    else
      match Rendered(get, fields[1..])
      case None => None
      case Some(rest) => Some([RenderScalar(get(fields[0]).value)] + rest)
  }

  function GroupKey(get: Path -> Option<Value>, fields: seq<Path>): Option<string> {
    match Rendered(get, fields) case None => None case Some(parts) => Some(JoinKey(parts))
  }

  lemma {:induction false} JoinKeySnoc(parts: seq<string>, p: string)
    ensures JoinKey(parts + [p]) == if parts == [] then p else JoinKey(parts) + [UNIT_SEPARATOR] + p
  {
    if |parts| > 0 {
      assert (parts + [p])[1..] == parts[1..] + [p];
      JoinKeySnoc(parts[1..], p);
    }
  }

  /** groupKeyFromGetter writes the rendered values into a builder. */
  method GroupKeyFromGetter(get: Path -> Option<Value>, fields: seq<Path>) returns (r: Option<string>)
    ensures r == GroupKey(get, fields)
  {
    var b: string := "";
    ghost var parts: seq<string> := [];
    for i := 0 to |fields|
      invariant |parts| == i && b == JoinKey(parts)
      invariant forall j :: 0 <= j < i ==> get(fields[j]).Some? && parts[j] == RenderScalar(get(fields[j]).value)
    {
      var v := get(fields[i]);
      if v == None { return None; }
      JoinKeySnoc(parts, RenderScalar(v.value));
      if i > 0 { b := b + [UNIT_SEPARATOR]; }
      b := b + RenderScalar(v.value);
      parts := parts + [RenderScalar(v.value)];
    }
    assert parts == Rendered(get, fields).value;
    return Some(b);
  }

  lemma {:induction false} SplitAtSeparator(a: string, x: string, b: string, y: string)
    requires UNIT_SEPARATOR !in a && UNIT_SEPARATOR !in b
    requires a + [UNIT_SEPARATOR] + x == b + [UNIT_SEPARATOR] + y
    ensures a == b && x == y
  {
    var s, t := a + [UNIT_SEPARATOR] + x, b + [UNIT_SEPARATOR] + y;
    assert s[|a|] == UNIT_SEPARATOR && t[|b|] == UNIT_SEPARATOR;
    assert forall i :: 0 <= i < |a| ==> s[i] == a[i];
    assert forall i :: 0 <= i < |b| ==> t[i] == b[i];
    assert s[|a| + 1..] == x && t[|b| + 1..] == y && s[..|a|] == a && t[..|b|] == b;
  }

  lemma {:induction false} JoinKeyInjective(a: seq<string>, b: seq<string>)
    requires |a| == |b| && JoinKey(a) == JoinKey(b)
    requires forall i :: 0 <= i < |a| ==> UNIT_SEPARATOR !in a[i] && UNIT_SEPARATOR !in b[i]
    ensures a == b
  {
    if |a| > 1 {
      SplitAtSeparator(a[0], JoinKey(a[1..]), b[0], JoinKey(b[1..]));
      JoinKeyInjective(a[1..], b[1..]);
    }
  }

  lemma RenderClean(a: Value)
    requires IsKeyScalar(a)
    ensures UNIT_SEPARATOR !in RenderScalar(a)
  {
    if a.Int? { FormatIntShape(a.n); }
  }

  lemma RenderInjective(a: Value, b: Value)
    requires SameKind(a, b)
    ensures RenderScalar(a) == RenderScalar(b) <==> a == b
  {
    if a.Int? && RenderScalar(a) == RenderScalar(b) { FormatIntInjective(a.n, b.n); }
    if a.Bool? { assert "true"[0] != "false"[0]; }
  }

  /** Two getters whose fields hold separator-free scalars of the same kinds. */
  predicate KeysComparable(g: Path -> Option<Value>, h: Path -> Option<Value>, fields: seq<Path>) {
    forall f :: f in fields ==>
      && g(f).Some? && h(f).Some?
      && IsKeyScalar(g(f).value) && IsKeyScalar(h(f).value) && SameKind(g(f).value, h(f).value)
  }

  /** Equality of the joined key strings is equality of the value tuples. */
  lemma GroupKeyMeansTuple(g: Path -> Option<Value>, h: Path -> Option<Value>, fields: seq<Path>)
    requires KeysComparable(g, h, fields)
    ensures GroupKey(g, fields) == GroupKey(h, fields) <==> forall f :: f in fields ==> g(f) == h(f)
  {
    var a, b := Rendered(g, fields).value, Rendered(h, fields).value;
    forall i | 0 <= i < |fields|
      ensures UNIT_SEPARATOR !in a[i] && UNIT_SEPARATOR !in b[i]
      ensures a[i] == b[i] <==> g(fields[i]) == h(fields[i])
    {
      RenderInjective(g(fields[i]).value, h(fields[i]).value);
      RenderClean(g(fields[i]).value);
      RenderClean(h(fields[i]).value);
    }
    if JoinKey(a) == JoinKey(b) { JoinKeyInjective(a, b); }
    if forall f :: f in fields ==> g(f) == h(f) { assert a == b; }
  }

  /** Without a common kind the key does not separate the tuples: the int 1 and the string "1" render alike. */
  lemma MixedKindsCollide(f: Path)
    ensures GroupKey(_ => Some(Int(1)), [f]) == GroupKey(_ => Some(Str("1")), [f])
  {
    var g, h := (_: Path) => Some(Int(1)), (_: Path) => Some(Str("1"));
    assert RenderScalar(Int(1)) == [Digit(1)] == "1";
    assert Rendered(g, [f]).value == Rendered(h, [f]).value;
  }

  /** Nor does it with the separator inside a value: it moves from one field to the next unnoticed. */
  lemma SeparatorsCollide(g: Path -> Option<Value>, h: Path -> Option<Value>, p: Path, q: Path, a: string, b: string,
      c: string)
    requires g(p) == Some(Str(a + "\U{1f}" + b)) && g(q) == Some(Str(c))
    requires h(p) == Some(Str(a)) && h(q) == Some(Str(b + "\U{1f}" + c))
    ensures GroupKey(g, [p, q]) == GroupKey(h, [p, q]) == Some(a + "\U{1f}" + b + "\U{1f}" + c)
  {
    TwoFields(g, p, q);
    TwoFields(h, p, q);
    var s := [UNIT_SEPARATOR];
    assert a + s + b + s + c == a + s + (b + s + c);
  }

  lemma TwoFields(get: Path -> Option<Value>, p: Path, q: Path)
    requires get(p).Some? && get(q).Some?
    ensures GroupKey(get, [p, q]) ==
      Some(RenderScalar(get(p).value) + [UNIT_SEPARATOR] + RenderScalar(get(q).value))
  {
    var parts := [RenderScalar(get(p).value), RenderScalar(get(q).value)];
    assert Rendered(get, [p, q]).value == parts;
    assert parts[1..] == [parts[1]] && JoinKey([parts[1]]) == parts[1];
  }

  // ----- flattening -----

  /** strings.Join(path, "_"): the column a path is referenced by. */
  function FlatName(path: Path): string {
    if path == [] then "" else if |path| == 1 then path[0] else path[0] + "_" + FlatName(path[1..])
  }

  /** A dotted path and a single segment with an underscore share a column. */
  lemma ColumnsCollide(x: string, y: string)
    ensures FlatName([x, y]) == FlatName([x + "_" + y]) == x + "_" + y
  {
    assert [x, y][1..] == [y];
  }

  /** The column flattenEvent stores a leaf under, starting from a prefix. */
  function FlatFrom(prefix: string, path: Path): string
    decreases path
  {
    if path == [] then prefix
    else FlatFrom(if prefix == "" then path[0] else prefix + "_" + path[0], path[1..])
  }

  ghost predicate LeafAt(v: Value, path: Path, x: Value) { Resolve(v, path) == Some(x) && !x.Map? }

  /** Some leaf below a key in `keys` is stored under column c with value x. */
  ghost predicate Stored(v: Value, keys: set<string>, prefix: string, c: string, x: Value) {
    exists q :: LeafAt(v, q, x) && (q == [] || q[0] in keys) && FlatFrom(prefix, q) == c
  }

  /** Map iteration order is unspecified, so when leaves share a column any one of them may win. */
  ghost predicate Flattens(v: Value, keys: set<string>, prefix: string, before: map<string, Value>,
      after: map<string, Value>) {
    && (forall c, x :: Stored(v, keys, prefix, c, x) ==> c in after && Stored(v, keys, prefix, c, after[c]))
    && (forall c :: c in before ==> c in after)
    && (forall c :: c in after && !Stored(v, keys, prefix, c, after[c]) ==> c in before && after[c] == before[c])
  }

  ghost predicate FlattenOf(v: Value, prefix: string, before: map<string, Value>, after: map<string, Value>) {
    Flattens(v, if v.Map? then v.entries.Keys else {}, prefix, before, after)
  }

  function Extend(prefix: string, k: string): string { if prefix == "" then k else prefix + "_" + k }

  lemma StoredStep(v: Value, keys: set<string>, k: string, prefix: string, c: string, x: Value)
    requires v.Map? && k in v.entries && keys <= v.entries.Keys
    ensures Stored(v, keys + {k}, prefix, c, x) <==>
      Stored(v, keys, prefix, c, x) ||
      Stored(v.entries[k], if v.entries[k].Map? then v.entries[k].entries.Keys else {}, Extend(prefix, k), c, x)
  {
    var w := v.entries[k];
    var wk := if w.Map? then w.entries.Keys else {};
    if Stored(v, keys + {k}, prefix, c, x) {
      var q :| LeafAt(v, q, x) && (q == [] || q[0] in keys + {k}) && FlatFrom(prefix, q) == c;
      if q[0] !in keys {
        assert LeafAt(w, q[1..], x) && (q[1..] == [] || q[1..][0] in wk) && FlatFrom(Extend(prefix, k), q[1..]) == c;
      }
    }
    if Stored(w, wk, Extend(prefix, k), c, x) {
      var q :| LeafAt(w, q, x) && (q == [] || q[0] in wk) && FlatFrom(Extend(prefix, k), q) == c;
      assert ([k] + q)[1..] == q;
      assert LeafAt(v, [k] + q, x) && FlatFrom(prefix, [k] + q) == c;
    }
  }

  lemma FlattensStep(v: Value, keys: set<string>, k: string, prefix: string,
                     before: map<string, Value>, mid: map<string, Value>, after: map<string, Value>)
    requires v.Map? && k in v.entries && keys <= v.entries.Keys
    requires Flattens(v, keys, prefix, before, mid)
    requires FlattenOf(v.entries[k], Extend(prefix, k), mid, after)
    ensures Flattens(v, keys + {k}, prefix, before, after)
  {
    forall c, x ensures Stored(v, keys + {k}, prefix, c, x) <==>
      Stored(v, keys, prefix, c, x) ||
      Stored(v.entries[k], if v.entries[k].Map? then v.entries[k].entries.Keys else {}, Extend(prefix, k), c, x)
    {
      StoredStep(v, keys, k, prefix, c, x);
    }
  }

  method FlattenEvent(prefix: string, v: Value, out: map<string, Value>) returns (res: map<string, Value>)
    ensures FlattenOf(v, prefix, out, res)
    decreases v
  {
    res := out;
    if v.Map? {
      var todo := v.entries.Keys;
      ghost var done: set<string> := {};
      while todo != {}
        invariant done + todo == v.entries.Keys && done !! todo
        invariant Flattens(v, done, prefix, out, res)
        decreases todo
      {
        var k :| k in todo;
        var next := FlattenEvent(if prefix == "" then k else prefix + "_" + k, v.entries[k], res);
        FlattensStep(v, done, k, prefix, out, res, next);
        res := next;
        todo, done := todo - {k}, done + {k};
      }
      assert done == v.entries.Keys;
    } else {
      res := res[prefix := v];
      assert LeafAt(v, [], v) && FlatFrom(prefix, []) == prefix;
      forall c, x ensures Stored(v, {}, prefix, c, x) <==> c == prefix && x == v {
        if c == prefix && x == v { assert LeafAt(v, [], x); }
      }
    }
  }

  // ----- what a flattened column reads back -----

  /** No other leaf of the event lands on the column this path names. */
  ghost predicate Unaliased(ev: Event, p: Path) {
    p != [] && p[0] != "" && forall q, x :: LeafAt(ev, q, x) && FlatFrom("", q) == FlatName(p) ==> q == p
  }

  lemma {:induction false} FlatFromIsJoin(prefix: string, p: Path)
    requires prefix != ""
    ensures FlatFrom(prefix, p) == if p == [] then prefix else prefix + "_" + FlatName(p)
    decreases p
  {
    if p != [] {
      FlatFromIsJoin(prefix + "_" + p[0], p[1..]);
      if |p| > 1 {
        assert prefix + "_" + p[0] + "_" + FlatName(p[1..]) == prefix + "_" + FlatName(p);
      }
    }
  }

  lemma FlatNameIsColumn(p: Path)
    requires p != [] && p[0] != ""
    ensures FlatFrom("", p) == FlatName(p)
  {
    FlatFromIsJoin(p[0], p[1..]);
  }

  /** A column holds exactly the leaf its path resolves to, and is absent when the path leads to no leaf. */
  lemma FlattenReadsBack(ev: Event, flat: map<string, Value>, p: Path)
    requires FlattenOf(ev, "", map[], flat) && Unaliased(ev, p)
    ensures Resolve(ev, p).Some? && !Resolve(ev, p).value.Map? ==>
      FlatName(p) in flat && flat[FlatName(p)] == Resolve(ev, p).value
    ensures Resolve(ev, p).None? || Resolve(ev, p).value.Map? ==> FlatName(p) !in flat
  {
    FlatNameIsColumn(p);
    var c := FlatName(p);
    if Resolve(ev, p).Some? && !Resolve(ev, p).value.Map? {
      assert LeafAt(ev, p, Resolve(ev, p).value);
      assert Stored(ev, ev.entries.Keys, "", c, Resolve(ev, p).value);
    }
  }
}
