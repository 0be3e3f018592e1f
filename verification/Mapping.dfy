/** Applying a source mapping to a raw event (ingest/mapping.go). */
module Mapping {
  import opened Common
  import opened Seqs

  /** A decoded JSON value, raw or normalized; a JSON number is known by what Int64() makes of it. */
  datatype Value =
    | Null
    | Bool(b: bool)
    | Str(s: string)
    | Number(whole: Option<Int64>)
    | Int(n: Int64)
    | List(items: seq<Value>)
    | Obj(fields: Fields)

  type Fields = map<string, Value>

  /** A dotted path, split at its dots; splitting never yields the empty list. */
  type Path = p: seq<string> | p != [] witness [""]

  datatype Kind = Untyped | IntKind | TimestampKind | UnknownKind

  datatype FieldMapping = FieldMapping(from: Path, kind: Kind)

  datatype SourceMapping = SourceMapping(sourceId: string, version: string, schema: string,
      fields: map<Path, FieldMapping>, passthrough: bool)

  /** time.Parse(RFC3339) followed by UnixNano. */
  type Clock = string -> Option<Int64>

  // ----- paths -----

  function Lookup(m: Fields, path: Path): Option<Value>
    decreases |path|
  {
    if path[0] !in m then None
    else if |path| == 1 then Some(m[path[0]])
    else if m[path[0]].Obj? then Lookup(m[path[0]].fields, path[1..])
    else None
  }

  /** What setPath descends into: the map at the segment, or a fresh one replacing whatever is there. */
  function Below(m: Fields, seg: string): Fields { if seg in m && m[seg].Obj? then m[seg].fields else map[] }

  function SetPath(m: Fields, path: Path, v: Value): Fields
    decreases |path|
  {
    if |path| == 1 then m[path[0] := v] else m[path[0] := Obj(SetPath(Below(m, path[0]), path[1..], v))]
  }

  predicate Related(p: Path, q: Path) { p <= q || q <= p }

  lemma {:induction false} SetReadsBack(m: Fields, p: Path, v: Value)
    ensures Lookup(SetPath(m, p, v), p) == Some(v)
    decreases |p|
  {
    if |p| > 1 { SetReadsBack(Below(m, p[0]), p[1..], v); }
  }

  lemma RelatedBelow(p: Path, q: Path)
    requires p[0] == q[0]
    ensures |p| == 1 || |q| == 1 ==> Related(p, q)
    ensures |p| > 1 && |q| > 1 ==> (p <= q <==> p[1..] <= q[1..])
  {
    assert p == [p[0]] + p[1..] && q == [q[0]] + q[1..];
  }

  /** Writing elsewhere changes no reading. */
  lemma {:induction false} SetLeavesOthers(m: Fields, p: Path, v: Value, q: Path)
    requires !Related(p, q)
    ensures Lookup(SetPath(m, p, v), q) == Lookup(m, q)
    decreases |p|
  {
    if p[0] == q[0] {
      RelatedBelow(p, q);
      RelatedBelow(q, p);
      SetLeavesOthers(Below(m, p[0]), p[1..], v, q[1..]);
    }
  }

  lemma {:induction false} SetsCommute(m: Fields, p: Path, v: Value, q: Path, w: Value)
    requires !Related(p, q)
    ensures SetPath(SetPath(m, p, v), q, w) == SetPath(SetPath(m, q, w), p, v)
    decreases |p|
  {
    if p[0] == q[0] {
      RelatedBelow(p, q);
      RelatedBelow(q, p);
      SetsCommute(Below(m, p[0]), p[1..], v, q[1..], w);
      SetTwice(m, p, v, q, w);
      SetTwice(m, q, w, p, v);
    } else {
      SetsCommuteApart(m, p, v, q, w);
    }
  }

  lemma SetsCommuteApart(m: Fields, p: Path, v: Value, q: Path, w: Value)
    requires p[0] != q[0]
    ensures SetPath(SetPath(m, p, v), q, w) == SetPath(SetPath(m, q, w), p, v)
  {
    SetApart(m, p, v, q, w);
    SetApart(m, q, w, p, v);
    UpdatesCommute(m, p[0], SetPath(m, p, v)[p[0]], q[0], SetPath(m, q, w)[q[0]]);
  }

  /** Two writes under one segment. */
  lemma SetTwice(m: Fields, p: Path, v: Value, q: Path, w: Value)
    requires p[0] == q[0] && |p| > 1 && |q| > 1
    ensures SetPath(SetPath(m, p, v), q, w) == m[p[0] := Obj(SetPath(SetPath(Below(m, p[0]), p[1..], v), q[1..], w))]
  {
    var inner := SetPath(Below(m, p[0]), p[1..], v);
    assert SetPath(m, p, v) == m[p[0] := Obj(inner)];
    assert Below(SetPath(m, p, v), q[0]) == inner;
  }

  /** A write under one segment does not see another's. */
  lemma SetApart(m: Fields, p: Path, v: Value, q: Path, w: Value)
    requires p[0] != q[0]
    ensures SetPath(SetPath(m, p, v), q, w) == m[p[0] := SetPath(m, p, v)[p[0]]][q[0] := SetPath(m, q, w)[q[0]]]
  {
    var m' := SetPath(m, p, v);
    assert m' == m[p[0] := m'[p[0]]];
    assert Below(m', q[0]) == Below(m, q[0]);
  }

  lemma UpdatesCommute(m: Fields, k: string, a: Value, l: string, b: Value)
    requires k != l
    ensures m[k := a][l := b] == m[l := b][k := a]
  {}

  /** Reading at a path at or above a written one finds a map, unless the paths are the same. */
  lemma {:induction false} AboveIsObject(m: Fields, p: Path, q: Path, w: Value)
    requires p <= q && p != q
    ensures Lookup(SetPath(m, q, w), p).Some? && Lookup(SetPath(m, q, w), p).value.Obj?
    decreases |p|
  {
    RelatedBelow(p, q);
    if |p| > 1 { AboveIsObject(Below(m, p[0]), p[1..], q[1..], w); }
  }

  /**
   Two writes of scalars to different paths give the same tree in both orders exactly when neither path is a prefix of
   the other.
   */
  lemma OrdersAgreeExactly(m: Fields, p: Path, v: Value, q: Path, w: Value)
    requires p != q && !v.Obj? && !w.Obj?
    ensures SetPath(SetPath(m, p, v), q, w) == SetPath(SetPath(m, q, w), p, v) <==> !Related(p, q)
  {
    if !Related(p, q) {
      SetsCommute(m, p, v, q, w);
    } else if p <= q {
      SetReadsBack(SetPath(m, q, w), p, v);
      AboveIsObject(SetPath(m, p, v), p, q, w);
    } else {
      SetReadsBack(SetPath(m, p, v), q, w);
      AboveIsObject(SetPath(m, q, w), q, p, v);
    }
  }

  // ----- conversions -----

  /** Only scalars come out. */
  function ConvertValue(v: Value, kind: Kind, clock: Clock): (r: Result<Value>)
    ensures r.Ok? ==> r.value.Str? || r.value.Bool? || r.value.Null? || r.value.Int?
  {
    match kind
    case Untyped => if v.Str? || v.Bool? || v.Null? then Ok(v) else Err
    case IntKind => if v.Number? && v.whole.Some? then Ok(Int(v.whole.value)) else Err
    case TimestampKind => if v.Str? && clock(v.s).Some? then Ok(Int(clock(v.s).value)) else Err
    case UnknownKind => Err
  }

  /** Every number inside is a whole int64. */
  predicate Passable(v: Value) {
    match v
    case Number(whole) => whole.Some?
    case Int(_) => false
    case List(items) => forall x :: x in items ==> Passable(x)
    case Obj(fields) => forall k :: k in fields ==> Passable(fields[k])
    case _ => true
  }

  function Passed(v: Value): Value
    requires Passable(v)
    decreases v, 0
  {
    match v
    case Number(whole) => Int(whole.value)
    case List(items) => List(PassedItems(items))
    case Obj(fields) => Obj(map k | k in fields :: Passed(fields[k]))
    case _ => v
  }

  function PassedItems(items: seq<Value>): seq<Value>
    requires forall x :: x in items ==> Passable(x)
    decreases items, 1
  {
    if items == [] then [] else [Passed(items[0])] + PassedItems(items[1..])
  }

  method ConvertPassthrough(v: Value) returns (r: Result<Value>)
    ensures r == if Passable(v) then Ok(Passed(v)) else Err
    decreases v, 1
  {
    match v
    case Number(whole) => return if whole.Some? then Ok(Int(whole.value)) else Err;
    case Int(_) => return Err;
    case List(_) => r := ConvertItems(v);
    case Obj(_) => r := ConvertFields(v);
    case _ => return Ok(v);
  }

  method ConvertItems(v: Value) returns (r: Result<Value>)
    requires v.List?
    ensures r == if Passable(v) then Ok(Passed(v)) else Err
    decreases v, 0
  {
    var items := v.items;
    var out: seq<Value> := [];
    for i := 0 to |items|
      invariant forall x :: x in items[..i] ==> Passable(x)
      invariant Passable(v) ==> out + PassedItems(items[i..]) == PassedItems(items)
    {
      var item := ConvertPassthrough(items[i]);
      if item.Err? { return Err; }
      assert items[i..][1..] == items[i + 1..];
      if Passable(v) { assert out + PassedItems(items[i..]) == out + [item.value] + PassedItems(items[i + 1..]); }
      out := out + [item.value];
    }
    assert items[..|items|] == items && items[|items|..] == [];
    assert out + [] == out;
    return Ok(List(out));
  }

  method ConvertFields(v: Value) returns (r: Result<Value>)
    requires v.Obj?
    ensures r == if Passable(v) then Ok(Passed(v)) else Err
    decreases v, 0
  {
    var fields := v.fields;
    var out: Fields := map[];
    var todo := fields.Keys;
    while todo != {}
      invariant todo <= fields.Keys && out.Keys == fields.Keys - todo
      invariant forall k :: k in out ==> Passable(fields[k]) && out[k] == Passed(fields[k])
      decreases todo
    {
      var k :| k in todo;
      var item := ConvertPassthrough(fields[k]);
      if item.Err? { return Err; }
      out := out[k := item.value];
      todo := todo - {k};
    }
    assert forall k :: k in fields ==> k in out;
    assert out == (map k | k in fields :: Passed(fields[k]));
    return Ok(Obj(out));
  }

  // ----- applying the fields, in some order -----

  datatype Job = Job(raw: Fields, fields: map<Path, FieldMapping>, clock: Clock)

  /** One field: skipped when the event lacks it, an error when it does not convert. */
  function ApplyField(j: Job, m: Result<Fields>, t: Path): Result<Fields>
    requires t in j.fields
  {
    var raw := Lookup(j.raw, j.fields[t].from);
    if m.Err? || raw.None? then m
    else
      match ConvertValue(raw.value, j.fields[t].kind, j.clock)
      case Err => Err
      case Ok(v) => Ok(SetPath(m.value, t, v))
  }

  function ApplyFields(j: Job, m: Result<Fields>, order: seq<Path>): Result<Fields>
    requires forall t :: t in order ==> t in j.fields
    decreases |order|
  {
    if order == [] then m else ApplyFields(j, ApplyField(j, m, order[0]), order[1..])
  }

  predicate Present(j: Job, t: Path) { t in j.fields && Lookup(j.raw, j.fields[t].from).Some? }

  function Converted(j: Job, t: Path): (r: Result<Value>)
    requires Present(j, t)
    ensures r.Ok? ==> !r.value.Obj?
  {
    ConvertValue(Lookup(j.raw, j.fields[t].from).value, j.fields[t].kind, j.clock)
  }

  /**
   No target the event fills is a prefix of another it fills; with `off`, targets under `unmapped` may be, because
   leftover fields will replace whatever is written there.
   */
  predicate Apart(j: Job, off: bool) {
    forall p, q :: p in j.fields && q in j.fields && Present(j, p) && Present(j, q) && p != q && Related(p, q) ==>
      off && p[0] == "unmapped"
  }

  /** One field, leaving out writes under `unmapped` when `off`. */
  function ApplyKept(j: Job, off: bool, m: Result<Fields>, t: Path): Result<Fields>
    requires t in j.fields
  {
    if off && t[0] == "unmapped" then if m.Ok? && Present(j, t) && Converted(j, t).Err? then Err else m
    else ApplyField(j, m, t)
  }

  function ApplyAllKept(j: Job, off: bool, m: Result<Fields>, order: seq<Path>): Result<Fields>
    requires forall t :: t in order ==> t in j.fields
    decreases |order|
  {
    if order == [] then m else ApplyAllKept(j, off, ApplyKept(j, off, m, order[0]), order[1..])
  }

  lemma FieldsCommute(j: Job, off: bool, m: Result<Fields>, p: Path, q: Path)
    requires Apart(j, off) && p in j.fields && q in j.fields
    ensures ApplyKept(j, off, ApplyKept(j, off, m, p), q) == ApplyKept(j, off, ApplyKept(j, off, m, q), p)
  {
    if p != q && m.Ok? && Present(j, p) && Present(j, q) {
      var v, w := Converted(j, p), Converted(j, q);
      if v.Ok? && w.Ok? && !Related(p, q) { SetsCommute(m.value, p, v.value, q, w.value); }
      if Related(p, q) { assert Related(q, p) && q[0] == "unmapped"; }
    }
  }

  lemma {:induction false} PullFront(j: Job, off: bool, m: Result<Fields>, a: seq<Path>, t: Path, b: seq<Path>)
    requires Apart(j, off) && t in j.fields && (forall x :: x in a ==> x in j.fields) &&
      forall x :: x in b ==> x in j.fields
    ensures ApplyAllKept(j, off, m, a + [t] + b) == ApplyAllKept(j, off, ApplyKept(j, off, m, t), a + b)
    decreases |a|
  {
    if a == [] {
      assert a + [t] + b == [t] + b && a + b == b && ([t] + b)[1..] == b;
    } else {
      assert a[0] in a;
      assert (a + [t] + b)[1..] == a[1..] + [t] + b && (a + b)[1..] == a[1..] + b;
      PullFront(j, off, ApplyKept(j, off, m, a[0]), a[1..], t, b);
      FieldsCommute(j, off, m, a[0], t);
    }
  }

  lemma TakeOut(order: seq<Path>, other: seq<Path>) returns (i: nat)
    requires multiset(order) == multiset(other) && order != []
    ensures i < |other| && other[i] == order[0] && other == other[..i] + [order[0]] + other[i + 1..]
    ensures multiset(order[1..]) == multiset(other[..i] + other[i + 1..])
  {
    var t := order[0];
    assert order == [t] + order[1..];
    assert t in multiset(other);
    i :| 0 <= i < |other| && other[i] == t;
    assert other == other[..i] + [t] + other[i + 1..];
    assert multiset(other[..i] + other[i + 1..]) == multiset(other) - multiset{t};
    assert multiset(order[1..]) == multiset(order) - multiset{t};
  }

  /** Every order of the fields gives the same tree, or every order fails, up to what is left out. */
  lemma {:induction false} OrderIrrelevant(j: Job, off: bool, m: Result<Fields>, order: seq<Path>, other: seq<Path>)
    requires Apart(j, off) && multiset(order) == multiset(other)
    requires (forall t :: t in order ==> t in j.fields) && forall t :: t in other ==> t in j.fields
    ensures ApplyAllKept(j, off, m, order) == ApplyAllKept(j, off, m, other)
    decreases |order|
  {
    if order == [] {
      assert other == [] by { assert |multiset(other)| == 0; }
    } else {
      var i := TakeOut(order, other);
      var t, a, b := order[0], other[..i], other[i + 1..];
      PullFront(j, off, m, a, t, b);
      OrderIrrelevant(j, off, ApplyKept(j, off, m, t), order[1..], a + b);
    }
  }

  /** Everything but `unmapped`. */
  function Strip(m: Fields): Fields { m - {"unmapped"} }

  lemma StripSet(m: Fields, t: Path, v: Value)
    ensures t[0] == "unmapped" ==> Strip(SetPath(m, t, v)) == Strip(m)
    ensures t[0] != "unmapped" ==> Strip(SetPath(m, t, v)) == SetPath(Strip(m), t, v)
  {}

  /** Leaving out the writes under `unmapped` changes nothing else. */
  lemma {:induction false} KeptIsStripped(j: Job, m: Fields, order: seq<Path>)
    requires forall t :: t in order ==> t in j.fields
    ensures ApplyFields(j, Ok(m), order).Ok? <==> ApplyAllKept(j, true, Ok(Strip(m)), order).Ok?
    ensures ApplyFields(j, Ok(m), order).Ok? ==>
      Strip(ApplyFields(j, Ok(m), order).value) == ApplyAllKept(j, true, Ok(Strip(m)), order).value
    decreases |order|
  {
    if order != [] {
      var t := order[0];
      var next := ApplyField(j, Ok(m), t);
      if next.Err? {
        ErrStays(j, order[1..]);
        KeptErrStays(j, true, order[1..]);
      } else {
        if Present(j, t) { StripSet(m, t, Converted(j, t).value); }
        KeptIsStripped(j, next.value, order[1..]);
      }
    }
  }

  lemma {:induction false} KeptErrStays(j: Job, off: bool, order: seq<Path>)
    requires forall t :: t in order ==> t in j.fields
    ensures ApplyAllKept(j, off, Err, order) == Err
  {
    if order != [] { KeptErrStays(j, off, order[1..]); }
  }

  lemma {:induction false} KeptIsAll(j: Job, m: Result<Fields>, order: seq<Path>)
    requires forall t :: t in order ==> t in j.fields
    ensures ApplyAllKept(j, false, m, order) == ApplyFields(j, m, order)
    decreases |order|
  {
    if order != [] { KeptIsAll(j, ApplyField(j, m, order[0]), order[1..]); }
  }

  // ----- the whole of Apply -----

  predicate Lists(order: seq<Path>, fields: map<Path, FieldMapping>) {
    multiset(order) == multiset(fields.Keys)
  }

  function Envelope(m: SourceMapping): Fields {
    map["schema_version" := Str(m.schema), "mapping_version" := Str(m.version), "source_id" := Str(m.sourceId)]
  }

  /** Top-level raw fields some present source path starts with. */
  function Consumed(j: Job): set<string> {
    set t | t in j.fields && Lookup(j.raw, j.fields[t].from).Some? :: j.fields[t].from[0]
  }

  function Leftover(j: Job): set<string> { j.raw.Keys - Consumed(j) }

  predicate LeftoverPassable(j: Job) { forall k :: k in Leftover(j) ==> Passable(j.raw[k]) }

  function Unmapped(j: Job): Fields
    requires LeftoverPassable(j)
  {
    map k | k in Leftover(j) :: Passed(j.raw[k])
  }

  /** Apply with the fields taken in the given order. */
  function ApplyIn(m: SourceMapping, j: Job, order: seq<Path>): Result<Fields>
    requires forall t :: t in order ==> t in j.fields
  {
    var out := ApplyFields(j, Ok(Envelope(m)), order);
    if out.Err? || !m.passthrough then out
    else if !LeftoverPassable(j) then Err
    else if Leftover(j) == {} then out
    else Ok(out.value["unmapped" := Obj(Unmapped(j))])
  }

  lemma {:induction false} ErrStays(j: Job, order: seq<Path>)
    requires forall t :: t in order ==> t in j.fields
    ensures ApplyFields(j, Err, order) == Err
  {
    if order != [] { ErrStays(j, order[1..]); }
  }

  /** Leftover fields replace whatever the mapping wrote under `unmapped`. */
  predicate Replaced(m: SourceMapping, j: Job) { m.passthrough && LeftoverPassable(j) && Leftover(j) != {} }

  predicate AllConvert(j: Job) { forall t :: t in j.fields && Present(j, t) ==> Converted(j, t).Ok? }

  /**
   The mapping succeeds exactly when every present field converts and, with passthrough, every leftover one passes.
   */
  lemma {:induction false} FieldsSucceed(j: Job, m: Fields, order: seq<Path>)
    requires forall t :: t in order ==> t in j.fields
    ensures ApplyFields(j, Ok(m), order).Ok? <==> forall t :: t in order && Present(j, t) ==> Converted(j, t).Ok?
    decreases |order|
  {
    if order != [] {
      var next := ApplyField(j, Ok(m), order[0]);
      assert order[0] in order;
      if next.Err? {
        ErrStays(j, order[1..]);
      } else {
        FieldsSucceed(j, next.value, order[1..]);
        assert order == [order[0]] + order[1..];
      }
    }
  }

  lemma ApplySucceeds(m: SourceMapping, j: Job, order: seq<Path>)
    requires Lists(order, j.fields) && forall t :: t in order ==> t in j.fields
    ensures ApplyIn(m, j, order).Ok? <==> AllConvert(j) && (m.passthrough ==> LeftoverPassable(j))
    ensures ApplyFields(j, Ok(Envelope(m)), order).Ok? <==> AllConvert(j)
  {
    ListedOnce(order, j.fields.Keys);
    FieldsSucceed(j, Envelope(m), order);
  }

  // ----- reading back, in a given order -----

  /** Neither a scalar nor anything else the mapping could have written there. */
  predicate Spoiled(m: Fields, t: Path) { match Lookup(m, t) case None => true case Some(v) => v.Obj? }

  lemma {:induction false} BelowScalar(m: Fields, p: Path, v: Value, t: Path)
    requires p <= t && p != t && !v.Obj?
    ensures Lookup(SetPath(m, p, v), t) == None
    decreases |p|
  {
    RelatedBelow(p, t);
    if |p| > 1 { BelowScalar(Below(m, p[0]), p[1..], v, t[1..]); }
  }

  lemma WriteSpoils(m: Fields, x: Path, v: Value, t: Path)
    requires Related(x, t) && x != t && !v.Obj?
    ensures Spoiled(SetPath(m, x, v), t)
  {
    if x <= t { BelowScalar(m, x, v, t); } else { AboveIsObject(m, t, x, v); }
  }

  /** What one field does to the reading at another target. */
  lemma OneField(j: Job, m: Fields, x: Path, t: Path)
    requires x in j.fields && x != t && ApplyField(j, Ok(m), x).Ok?
    ensures Present(j, x) && Related(x, t) ==> Spoiled(ApplyField(j, Ok(m), x).value, t)
    ensures !(Present(j, x) && Related(x, t)) ==> Lookup(ApplyField(j, Ok(m), x).value, t) == Lookup(m, t)
  {
    if Present(j, x) {
      var v := Converted(j, x).value;
      if Related(x, t) { WriteSpoils(m, x, v, t); } else { SetLeavesOthers(m, x, v, t); }
    }
  }

  /** A write to another path leaves a spoiled reading spoiled. */
  lemma {:induction false} StaysSpoiled(j: Job, m: Fields, order: seq<Path>, t: Path)
    requires (forall x :: x in order ==> x in j.fields && x != t) && ApplyFields(j, Ok(m), order).Ok? && Spoiled(m, t)
    ensures Spoiled(ApplyFields(j, Ok(m), order).value, t)
    decreases |order|
  {
    if order != [] {
      var x := order[0];
      assert x in order;
      var next := ApplyField(j, Ok(m), x);
      if next.Err? {
        ErrStays(j, order[1..]);
      } else {
        OneField(j, m, x, t);
        StaysSpoiled(j, next.value, order[1..], t);
      }
    }
  }

  /** A scalar at t is still read there after further writes exactly when none of them is to a related path. */
  lemma {:induction false} SurvivesExactly(j: Job, m: Fields, order: seq<Path>, t: Path, v: Value)
    requires (forall x :: x in order ==> x in j.fields && x != t) && ApplyFields(j, Ok(m), order).Ok?
    requires Lookup(m, t) == Some(v) && !v.Obj?
    ensures Lookup(ApplyFields(j, Ok(m), order).value, t) == Some(v) <==>
      forall x :: x in order && Present(j, x) ==> !Related(x, t)
    decreases |order|
  {
    if order != [] {
      var x := order[0];
      assert x in order && order == [x] + order[1..];
      var next := ApplyField(j, Ok(m), x);
      if next.Err? {
        ErrStays(j, order[1..]);
      } else {
        OneField(j, m, x, t);
        assert forall y :: y in order <==> y == x || y in order[1..];
        if Present(j, x) && Related(x, t) {
          assert Spoiled(next.value, t);
          StaysSpoiled(j, next.value, order[1..], t);
        } else {
          SurvivesExactly(j, next.value, order[1..], t, v);
        }
      }
    }
  }

  /** No related field the event carries is written after t. */
  predicate LastWord(j: Job, order: seq<Path>, t: Path) {
    forall i, k :: 0 <= i < k < |order| && order[i] == t && Present(j, order[k]) ==> !Related(order[k], t)
  }

  lemma {:induction false} WrittenExactly(j: Job, m: Fields, order: seq<Path>, t: Path)
    requires (forall x :: x in order ==> x in j.fields) && t in order && NoDup(order) && Present(j, t)
    requires ApplyFields(j, Ok(m), order).Ok?
    ensures Converted(j, t).Ok?
    ensures Lookup(ApplyFields(j, Ok(m), order).value, t) == Some(Converted(j, t).value) <==> LastWord(j, order, t)
    decreases |order|
  {
    var next, rest := ApplyField(j, Ok(m), order[0]), order[1..];
    if next.Err? {
      ErrStays(j, rest);
    } else if order[0] == t {
      SetReadsBack(m, t, Converted(j, t).value);
      forall x | x in rest ensures x != t { var k :| 0 <= k < |rest| && rest[k] == x; assert order[k + 1] == x; }
      SurvivesExactly(j, next.value, rest, t, Converted(j, t).value);
      FirstHasLastWord(j, order, t);
    } else {
      assert t in rest by { assert order == [order[0]] + rest; }
      WrittenExactly(j, next.value, rest, t);
      LastWordRest(j, order, t);
    }
  }

  lemma FirstHasLastWord(j: Job, order: seq<Path>, t: Path)
    requires order != [] && order[0] == t && NoDup(order)
    ensures LastWord(j, order, t) <==> forall x :: x in order[1..] && Present(j, x) ==> !Related(x, t)
  {
    if LastWord(j, order, t) {
      forall x | x in order[1..] && Present(j, x) ensures !Related(x, t) {
        var k :| 0 <= k < |order| - 1 && order[1..][k] == x;
        assert order[k + 1] == x;
      }
    }
    if forall x :: x in order[1..] && Present(j, x) ==> !Related(x, t) {
      forall i, k | 0 <= i < k < |order| && order[i] == t && Present(j, order[k]) ensures !Related(order[k], t) {
        assert order[1..][k - 1] == order[k];
      }
    }
  }

  lemma LastWordRest(j: Job, order: seq<Path>, t: Path)
    requires order != [] && order[0] != t
    ensures LastWord(j, order, t) <==> LastWord(j, order[1..], t)
  {
    var rest := order[1..];
    assert forall i :: 0 <= i < |rest| ==> rest[i] == order[i + 1];
    if LastWord(j, rest, t) {
      forall i, k | 0 <= i < k < |order| && order[i] == t && Present(j, order[k]) ensures !Related(order[k], t) {
        assert rest[i - 1] == t && rest[k - 1] == order[k];
      }
    }
    if LastWord(j, order, t) {
      forall i, k | 0 <= i < k < |rest| && rest[i] == t && Present(j, rest[k]) ensures !Related(rest[k], t) {
        assert order[i + 1] == t && order[k + 1] == rest[k];
      }
    }
  }

  lemma {:induction false} ListedOnce<T>(order: seq<T>, keys: set<T>)
    requires multiset(order) == multiset(keys)
    ensures NoDup(order) && forall t :: t in order <==> t in keys
  {
    forall t ensures t in order <==> t in keys { assert t in multiset(order) <==> t in multiset(keys); }
    forall a, b | 0 <= a < b < |order| ensures order[a] != order[b] {
      CountedTwice(order, a, b);
      assert multiset(keys)[order[a]] <= 1;
    }
  }

  lemma CountedTwice<T>(xs: seq<T>, a: nat, b: nat)
    requires a < b < |xs|
    ensures xs[a] == xs[b] ==> multiset(xs)[xs[a]] >= 2
  {
    var left, right := xs[..b], xs[b..];
    assert xs == left + right && left[a] == xs[a] && right[0] == xs[b];
  }

  lemma TopElsewhere(m: Fields, k: string, v: Value, t: Path)
    ensures t[0] != k ==> Lookup(m[k := v], t) == Lookup(m, t)
    ensures t[0] == k && |t| > 1 && v.Obj? ==> Lookup(m[k := v], t) == Lookup(v.fields, t[1..])
    ensures t == [k] ==> Lookup(m[k := v], t) == Some(v)
  {}

  /** Under `unmapped` only a leftover field of the very same value can stand in for the mapped one. */
  predicate Coincides(j: Job, t: Path, v: Value)
    requires LeftoverPassable(j)
  {
    |t| > 1 && Lookup(Unmapped(j), t[1..]) == Some(v)
  }

  /**
   A mapped value is read back at its target exactly when no related present field is written after it and, under
   `unmapped`, leftover fields do not replace it by something else.
   */
  lemma ApplyReadsBack(m: SourceMapping, j: Job, order: seq<Path>, t: Path)
    requires j.fields == m.fields && Lists(order, j.fields) && Present(j, t)
    requires forall x :: x in order ==> x in j.fields
    requires ApplyIn(m, j, order).Ok?
    ensures Converted(j, t).Ok?
    ensures Lookup(ApplyIn(m, j, order).value, t) == Some(Converted(j, t).value) <==>
      if Replaced(m, j) && t[0] == "unmapped" then Coincides(j, t, Converted(j, t).value) else LastWord(j, order, t)
  {
    ListedOnce(order, j.fields.Keys);
    WrittenExactly(j, Envelope(m), order, t);
    if Replaced(m, j) {
      TopElsewhere(ApplyFields(j, Ok(Envelope(m)), order).value, "unmapped", Obj(Unmapped(j)), t);
      assert t[0] == "unmapped" && |t| == 1 ==> t == ["unmapped"];
    }
  }

  function LostMapping(): SourceMapping {
    SourceMapping("s", "1", "1", map[["unmapped"] := FieldMapping(["a"], Untyped)], true)
  }

  function LostJob(clock: Clock): Job { Job(map["a" := Str("x"), "b" := Str("y")], LostMapping().fields, clock) }

  lemma LostLeftover(clock: Clock)
    ensures Present(LostJob(clock), ["unmapped"]) && Converted(LostJob(clock), ["unmapped"]) == Ok(Str("x"))
    ensures LeftoverPassable(LostJob(clock)) && Unmapped(LostJob(clock)) == map["b" := Str("y")]
  {
    var j := LostJob(clock);
    assert Lookup(j.raw, ["a"]) == Some(Str("x"));
    assert forall t :: t in j.fields ==> t == ["unmapped"] && j.fields[t].from == ["a"];
    assert Consumed(j) == {"a"} by { assert ["unmapped"] in j.fields; }
    assert Leftover(j) == {"b"};
  }

  /** A mapped value lost: its target is `unmapped` itself, and there is a leftover field. */
  lemma UnmappedTargetIsLost(clock: Clock)
    ensures var m, j, order := LostMapping(), LostJob(clock), [["unmapped"]];
      && Lists(order, j.fields) && (forall x :: x in order ==> x in j.fields) && ApplyIn(m, j, order).Ok?
      && Lookup(ApplyIn(m, j, order).value, ["unmapped"]) == Some(Obj(map["b" := Str("y")]))
  {
    var m, j, order: seq<Path> := LostMapping(), LostJob(clock), [["unmapped"]];
    LostLeftover(clock);
    assert j.fields.Keys == {["unmapped"]};
    assert multiset(order) == multiset(j.fields.Keys);
    ApplySucceeds(m, j, order);
    TopElsewhere(ApplyFields(j, Ok(Envelope(m)), order).value, "unmapped", Obj(Unmapped(j)), ["unmapped"]);
  }

  // ----- when the order does not matter -----

  /** The result is the same for every order in which the map of fields may be walked. */
  ghost predicate Deterministic(m: SourceMapping, j: Job) {
    forall order: seq<Path>, other: seq<Path> ::
      Lists(order, j.fields) && Lists(other, j.fields) &&
      (forall t :: t in order ==> t in j.fields) && (forall t :: t in other ==> t in j.fields) ==>
        ApplyIn(m, j, order) == ApplyIn(m, j, other)
  }

  lemma StripFits(a: Fields, b: Fields, v: Value)
    requires Strip(a) == Strip(b)
    ensures a["unmapped" := v] == b["unmapped" := v]
  {
    assert a["unmapped" := v] == Strip(a)["unmapped" := v] && b["unmapped" := v] == Strip(b)["unmapped" := v];
  }

  lemma ApartAgrees(m: SourceMapping, j: Job, order: seq<Path>, other: seq<Path>)
    requires Apart(j, Replaced(m, j)) && Lists(order, j.fields) && Lists(other, j.fields)
    requires (forall t :: t in order ==> t in j.fields) && forall t :: t in other ==> t in j.fields
    requires AllConvert(j) && (m.passthrough ==> LeftoverPassable(j))
    ensures ApplyIn(m, j, order) == ApplyIn(m, j, other)
  {
    ApplySucceeds(m, j, order);
    ApplySucceeds(m, j, other);
    if Replaced(m, j) {
      OrderIrrelevant(j, true, Ok(Strip(Envelope(m))), order, other);
      KeptIsStripped(j, Envelope(m), order);
      KeptIsStripped(j, Envelope(m), other);
      StripFits(ApplyFields(j, Ok(Envelope(m)), order).value, ApplyFields(j, Ok(Envelope(m)), other).value,
        Obj(Unmapped(j)));
    } else {
      OrderIrrelevant(j, false, Ok(Envelope(m)), order, other);
      KeptIsAll(j, Ok(Envelope(m)), order);
      KeptIsAll(j, Ok(Envelope(m)), other);
    }
  }

  lemma {:induction false} SomeOrder(keys: set<Path>) returns (order: seq<Path>)
    ensures multiset(order) == multiset(keys)
    decreases |keys|
  {
    order := [];
    if keys != {} {
      var k :| k in keys;
      var rest := SomeOrder(keys - {k});
      order := rest + [k];
      assert multiset(keys) == multiset(keys - {k}) + multiset{k};
    }
  }

  /** Two related fields, each written last in one order. */
  lemma RelatedDisagree(m: SourceMapping, j: Job, p: Path, q: Path) returns (order: seq<Path>, other: seq<Path>)
    requires Present(j, p) && Present(j, q) && p != q && Related(p, q) && !(Replaced(m, j) && p[0] == "unmapped")
    requires AllConvert(j) && (m.passthrough ==> LeftoverPassable(j)) && j.fields == m.fields
    ensures Lists(order, j.fields) && Lists(other, j.fields)
    ensures (forall t :: t in order ==> t in j.fields) && (forall t :: t in other ==> t in j.fields)
    ensures ApplyIn(m, j, order) != ApplyIn(m, j, other)
  {
    var rest := SomeOrder(j.fields.Keys - {p, q});
    order, other := rest + [p, q], rest + [q, p];
    assert multiset(j.fields.Keys) == multiset(j.fields.Keys - {p, q}) + multiset{p, q};
    ListedOnce(order, j.fields.Keys);
    ListedOnce(other, j.fields.Keys);
    ApplySucceeds(m, j, order);
    ApplySucceeds(m, j, other);
    ApplyReadsBack(m, j, order, p);
    ApplyReadsBack(m, j, other, p);
    var n := |rest|;
    assert order[n] == p && order[n + 1] == q && Related(q, p);
    LastIsLastWord(j, other, p);
  }

  lemma LastIsLastWord(j: Job, order: seq<Path>, t: Path)
    requires order != [] && order[|order| - 1] == t && NoDup(order)
    ensures LastWord(j, order, t)
  {}

  /**
   Apply does not depend on the order of the map walk exactly when it fails in every order, or no field the event
   carries has a target related to another's, but for targets under `unmapped` that leftover fields replace.
   */
  lemma DeterministicExactly(m: SourceMapping, j: Job)
    requires j.fields == m.fields
    ensures Deterministic(m, j) <==>
      !AllConvert(j) || (m.passthrough && !LeftoverPassable(j)) || Apart(j, Replaced(m, j))
  {
    if !AllConvert(j) || (m.passthrough && !LeftoverPassable(j)) || Apart(j, Replaced(m, j)) {
      forall order: seq<Path>, other: seq<Path> |
        Lists(order, j.fields) && Lists(other, j.fields) &&
        (forall t :: t in order ==> t in j.fields) && (forall t :: t in other ==> t in j.fields)
        ensures ApplyIn(m, j, order) == ApplyIn(m, j, other)
      {
        ApplySucceeds(m, j, order);
        ApplySucceeds(m, j, other);
        if AllConvert(j) && (m.passthrough ==> LeftoverPassable(j)) { ApartAgrees(m, j, order, other); }
      }
    } else {
      var p, q :| Present(j, p) && Present(j, q) && p != q && Related(p, q) && !(Replaced(m, j) && p[0] == "unmapped");
      var order, other := RelatedDisagree(m, j, p, q);
    }
  }

  /** Every unconsumed top-level field of the event appears under `unmapped`, and nothing else does. */
  lemma NothingDropped(m: SourceMapping, j: Job, order: seq<Path>, k: string)
    requires (forall x :: x in order ==> x in j.fields) && m.passthrough && ApplyIn(m, j, order).Ok? &&
      Leftover(j) != {}
    ensures LeftoverPassable(j) && Below(ApplyIn(m, j, order).value, "unmapped") == Unmapped(j)
    ensures k in Unmapped(j) <==>
      k in j.raw && forall t :: t in j.fields && Lookup(j.raw, j.fields[t].from).Some? ==> j.fields[t].from[0] != k
    ensures k in Unmapped(j) ==> Lookup(ApplyIn(m, j, order).value, ["unmapped", k]) == Some(Passed(j.raw[k]))
  {
    TopElsewhere(ApplyFields(j, Ok(Envelope(m)), order).value, "unmapped", Obj(Unmapped(j)), ["unmapped", k]);
  }

  // ----- what the result consists of -----

  /** Untyped fields keep strings, bools and null, int fields whole numbers, timestamps their nanoseconds. */
  lemma ConvertExactly(v: Value, kind: Kind, clock: Clock, w: Value)
    ensures ConvertValue(v, kind, clock) == Ok(w) <==>
      || (kind == Untyped && v == w && (w.Str? || w.Bool? || w.Null?))
      || (kind == IntKind && w.Int? && v == Number(Some(w.n)))
      || (kind == TimestampKind && w.Int? && v.Str? && clock(v.s) == Some(w.n))
  {}

  /** The same tree, each number turned into an int64. */
  predicate Carried(v: Value, w: Value) {
    match v
    case Number(whole) => w.Int? && whole == Some(w.n)
    case Int(_) => false
    case List(items) =>
      w.List? && |w.items| == |items| && forall i :: 0 <= i < |items| ==> Carried(items[i], w.items[i])
    case Obj(fields) =>
      w.Obj? && w.fields.Keys == fields.Keys && forall k :: k in fields ==> Carried(fields[k], w.fields[k])
    case _ => w == v
  }

  /** A leftover value passes exactly when some tree carries it, and only that tree comes out. */
  lemma {:induction false} PassedExactly(v: Value, w: Value)
    ensures Carried(v, w) <==> Passable(v) && Passed(v) == w
    decreases v, 1
  {
    match v
    case List(items) =>
      if w.List? && |w.items| == |items| { ItemsExactly(v, w); }
      if Passable(v) { PassedLength(items); }
    case Obj(fields) =>
      if w.Obj? && w.fields.Keys == fields.Keys {
        forall k | k in fields ensures Carried(fields[k], w.fields[k]) <==>
          Passable(fields[k]) && Passed(fields[k]) == w.fields[k]
        {
          PassedExactly(fields[k], w.fields[k]);
        }
        if Carried(v, w) { assert Passed(v).fields == w.fields; }
      }
    case _ =>
  }

  lemma {:induction false} PassedLength(items: seq<Value>)
    requires forall x :: x in items ==> Passable(x)
    ensures |PassedItems(items)| == |items|
    ensures forall i :: 0 <= i < |items| ==> PassedItems(items)[i] == Passed(items[i])
  {
    if items != [] { PassedLength(items[1..]); }
  }

  lemma {:induction false} ItemsExactly(v: Value, w: Value)
    requires v.List? && w.List? && |w.items| == |v.items|
    ensures Carried(v, w) <==> Passable(v) && Passed(v) == w
    decreases v, 0
  {
    forall i | 0 <= i < |v.items|
      ensures Carried(v.items[i], w.items[i]) <==> Passable(v.items[i]) && Passed(v.items[i]) == w.items[i]
    {
      PassedExactly(v.items[i], w.items[i]);
    }
    if Carried(v, w) {
      assert forall x :: x in v.items ==> Passable(x);
      PassedLength(v.items);
      assert PassedItems(v.items) == w.items;
    }
    if Passable(v) { PassedLength(v.items); }
  }

  lemma SetTop(m: Fields, t: Path, v: Value, k: string)
    ensures k in SetPath(m, t, v) <==> k in m || k == t[0]
    ensures k in m && k != t[0] ==> SetPath(m, t, v)[k] == m[k]
  {}

  lemma {:induction false} FieldsTop(j: Job, m: Fields, order: seq<Path>, k: string)
    requires (forall t :: t in order ==> t in j.fields) && ApplyFields(j, Ok(m), order).Ok?
    ensures var out := ApplyFields(j, Ok(m), order).value;
      && (k in out <==> k in m || exists t :: t in order && Present(j, t) && t[0] == k)
      && ((forall t :: t in order && Present(j, t) ==> t[0] != k) && k in m ==> out[k] == m[k])
    decreases |order|
  {
    if order != [] {
      var t := order[0];
      var next := ApplyField(j, Ok(m), t);
      assert t in order && order == [t] + order[1..];
      if next.Err? {
        ErrStays(j, order[1..]);
      } else {
        if Present(j, t) { SetTop(m, t, Converted(j, t).value, k); }
        FieldsTop(j, next.value, order[1..], k);
      }
    }
  }

  /** The event carries a value for the target. */
  predicate Filled(j: Job, t: Path) { t in j.fields && Lookup(j.raw, j.fields[t].from).Some? }

  /**
   The top level holds the three provenance fields, the first segments of the targets filled, and `unmapped`, if asked
   for, with the leftover fields.
   */
  lemma TopLevel(m: SourceMapping, j: Job, order: seq<Path>, k: string)
    requires Lists(order, j.fields) && (forall x :: x in order ==> x in j.fields) && ApplyIn(m, j, order).Ok?
    ensures var out := ApplyIn(m, j, order).value;
      k in out <==>
        || k in {"schema_version", "mapping_version", "source_id"}
        || (exists t :: t in order && Filled(j, t) && t[0] == k)
        || (k == "unmapped" && m.passthrough && Leftover(j) != {})
    ensures var out := ApplyIn(m, j, order).value;
      (forall t :: t in order && Filled(j, t) ==> t[0] != k) ==>
        && (k == "schema_version" ==> out[k] == Str(m.schema))
        && (k == "mapping_version" ==> out[k] == Str(m.version))
        && (k == "source_id" ==> out[k] == Str(m.sourceId))
  {
    FieldsTop(j, Envelope(m), order, k);
  }

  // ----- as the code runs it -----

  method FindPath(m: Fields, path: Path) returns (r: Option<Value>)
    ensures r == Lookup(m, path)
  {
    var cur := Obj(m);
    for i := 0 to |path|
      invariant i < |path| ==> Lookup(m, path) == if cur.Obj? then Lookup(cur.fields, path[i..]) else None
      invariant i == |path| ==> Lookup(m, path) == Some(cur)
    {
      if !cur.Obj? || path[i] !in cur.fields { return None; }
      assert i + 1 < |path| ==> path[i..][1..] == path[i + 1..];
      cur := cur.fields[path[i]];
    }
    return Some(cur);
  }

  lemma {:induction false} ApplyAppend(j: Job, m: Result<Fields>, order: seq<Path>, t: Path)
    requires (forall x :: x in order ==> x in j.fields) && t in j.fields
    ensures ApplyFields(j, m, order + [t]) == ApplyField(j, ApplyFields(j, m, order), t)
    decreases |order|
  {
    if order == [] {
      assert order + [t] == [t] && [t][1..] == [];
    } else {
      assert (order + [t])[1..] == order[1..] + [t];
      ApplyAppend(j, ApplyField(j, m, order[0]), order[1..], t);
    }
  }

  lemma ApplyRest(j: Job, m: Result<Fields>, order: seq<Path>, n: nat)
    requires (forall x :: x in order ==> x in j.fields) && n <= |order| && ApplyFields(j, m, order[..n]).Err?
    ensures ApplyFields(j, m, order).Err?
    decreases |order| - n
  {
    if n == |order| {
      assert order[..n] == order;
    } else {
      assert order[..n + 1] == order[..n] + [order[n]];
      ApplyAppend(j, m, order[..n], order[n]);
      ApplyRest(j, m, order, n + 1);
    }
  }

  /** The loop over the fields, in whatever order the map of fields is walked. */
  method MapFields(m: SourceMapping, j: Job, order: seq<Path>) returns (r: Result<(Fields, set<string>)>)
    requires j.fields == m.fields && Lists(order, j.fields) && forall t :: t in order ==> t in j.fields
    ensures r.Ok? <==> ApplyFields(j, Ok(Envelope(m)), order).Ok?
    ensures r.Ok? ==> ApplyFields(j, Ok(Envelope(m)), order) == Ok(r.value.0) && r.value.1 == Consumed(j)
  {
    var out := map["schema_version" := Str(m.schema), "mapping_version" := Str(m.version), "source_id" :=
      Str(m.sourceId)];
    var consumed: set<string> := {};
    for i := 0 to |order|
      invariant ApplyFields(j, Ok(Envelope(m)), order[..i]) == Ok(out)
      invariant consumed == set t | t in order[..i] && Present(j, t) :: j.fields[t].from[0]
    {
      var t := order[i];
      assert t in order && order[..i + 1] == order[..i] + [t];
      ApplyAppend(j, Ok(Envelope(m)), order[..i], t);
      var raw := FindPath(j.raw, j.fields[t].from);
      if raw.Some? {
        var converted := ConvertValue(raw.value, j.fields[t].kind, j.clock);
        if converted.Err? {
          ApplyRest(j, Ok(Envelope(m)), order, i + 1);
          return Err;
        }
        out := SetPath(out, t, converted.value);
        consumed := consumed + {j.fields[t].from[0]};
      }
    }
    assert order[..|order|] == order;
    ListedOnce(order, j.fields.Keys);
    return Ok((out, consumed));
  }

  method KeepLeftover(j: Job, consumed: set<string>) returns (r: Result<Fields>)
    requires consumed == Consumed(j)
    ensures r == if LeftoverPassable(j) then Ok(Unmapped(j)) else Err
  {
    var unmapped: Fields := map[];
    var todo := j.raw.Keys;
    while todo != {}
      invariant todo <= j.raw.Keys && unmapped.Keys == j.raw.Keys - todo - consumed
      invariant forall k :: k in unmapped ==> Passable(j.raw[k]) && unmapped[k] == Passed(j.raw[k])
      decreases todo
    {
      var k :| k in todo;
      todo := todo - {k};
      if k in consumed { continue; }
      var converted := ConvertPassthrough(j.raw[k]);
      if converted.Err? { return Err; }
      unmapped := unmapped[k := converted.value];
    }
    assert forall k :: k in Leftover(j) ==> k in unmapped;
    assert unmapped == Unmapped(j);
    return Ok(unmapped);
  }

  method Apply(m: SourceMapping, raw: Fields, clock: Clock, order: seq<Path>) returns (r: Result<Fields>)
    requires Lists(order, m.fields) && forall t :: t in order ==> t in m.fields
    ensures r == ApplyIn(m, Job(raw, m.fields, clock), order)
  {
    var j := Job(raw, m.fields, clock);
    var mapped := MapFields(m, j, order);
    if mapped.Err? { return Err; }
    var (out, consumed) := mapped.value;
    if m.passthrough {
      var unmapped := KeepLeftover(j, consumed);
      if unmapped.Err? { return Err; }
      if |unmapped.value| > 0 {
        out := out["unmapped" := Obj(unmapped.value)];
      }
    }
    return Ok(out);
  }
}
