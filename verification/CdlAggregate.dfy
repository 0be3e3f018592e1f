/** Case enumeration and single-pass aggregation (detect/aggregate.go). */
module CdlAggregate {
  import opened Common
  import opened Seqs
  import opened CdlExpr
  import opened CdlEvents

  datatype Source = Source(where: Node, groupBy: seq<Path>, trackDistinct: seq<Path>, trackLast: seq<Path>)

  /** What one source computes for one case; timestamps are 0 when nothing matched. */
  datatype Aggregate = Aggregate(
    count: nat, firstTS: int, lastTS: int,
    distinct: map<string, nat>, last: map<string, Value>, groupValues: map<string, Value>)

  type Funcs = map<string, Func>
  type CaseValues = map<Path, Value>
  datatype CaseInfo = CaseInfo(key: string, values: CaseValues)

  function EventGetter(ev: Event): Path -> Option<Value> { p => Resolve(ev, p) }

  function CaseGetter(values: CaseValues): Path -> Option<Value> { p => if p in values then Some(values[p]) else None }

  /** eventEnv: a path the event does not carry is nil, never an error. */
  function EventContext(ev: Event, funcs: Funcs): Context {
    Context(p => Ok(match Resolve(ev, p) case Some(v) => v case None => Null), funcs)
  }

  function Time(ev: Event): int {
    match Resolve(ev, ["time"]) case Some(Int(t)) => t case _ => 0
  }

  // ----- cases -----

  /** Appends the fields not seen yet, in order. */
  function AddNew(out: seq<Path>, fields: seq<Path>): seq<Path>
    decreases fields
  {
    if fields == [] then out
    else AddNew(if fields[0] in out then out else out + [fields[0]], fields[1..])
  }

  function UnionFields(names: seq<string>, sources: map<string, Source>): seq<Path>
    requires forall n :: n in names ==> n in sources
  {
    if names == [] then []
    else AddNew(UnionFields(names[..|names| - 1], sources), sources[names[|names| - 1]].groupBy)
  }

  lemma {:induction false} AddNewElems(out: seq<Path>, fields: seq<Path>)
    ensures forall p :: p in AddNew(out, fields) <==> p in out || p in fields
    ensures NoDup(out) ==> NoDup(AddNew(out, fields))
    decreases fields
  {
    if fields != [] {
      AddNewElems(if fields[0] in out then out else out + [fields[0]], fields[1..]);
    }
  }

  lemma {:induction false} UnionFieldsElems(names: seq<string>, sources: map<string, Source>)
    requires forall n :: n in names ==> n in sources
    ensures NoDup(UnionFields(names, sources))
    ensures forall p :: p in UnionFields(names, sources) <==> exists n :: n in names && p in sources[n].groupBy
  {
    if names != [] {
      var k := |names| - 1;
      UnionFieldsElems(names[..k], sources);
      AddNewElems(UnionFields(names[..k], sources), sources[names[k]].groupBy);
    }
  }

  /** The group fields as the sources mention them. */
  function Mentions(names: seq<string>, sources: map<string, Source>): seq<Path>
    requires forall n :: n in names ==> n in sources
  {
    if names == [] then []
    else Mentions(names[..|names| - 1], sources) + sources[names[|names| - 1]].groupBy
  }

  /** `at` are the positions where the elements of `out`, all elements of `all`, occur first. */
  predicate FirstMentions(out: seq<Path>, at: seq<nat>, all: seq<Path>) {
    && |at| == |out| && Ascends(at) && (forall f :: f in all ==> f in out)
    && (forall i :: 0 <= i < |at| ==> at[i] < |all| && all[at[i]] == out[i])
    && (forall i, j :: 0 <= i < |at| && 0 <= j < at[i] ==> all[j] != out[i])
  }

  lemma MentionMore(out: seq<Path>, at: seq<nat>, all: seq<Path>, f: Path)
    requires FirstMentions(out, at, all)
    ensures f in out ==> FirstMentions(out, at, all + [f])
    ensures f !in out ==> FirstMentions(out + [f], at + [|all|], all + [f])
  {}

  lemma {:induction false} AddNewMentions(out: seq<Path>, at: seq<nat>, all: seq<Path>, fields: seq<Path>)
      returns (at': seq<nat>)
    requires FirstMentions(out, at, all)
    ensures FirstMentions(AddNew(out, fields), at', all + fields)
    decreases fields
  {
    at' := at;
    assert all + [] == all;
    if fields != [] {
      var f := fields[0];
      MentionMore(out, at, all, f);
      assert all + [f] + fields[1..] == all + fields;
      if f in out {
        at' := AddNewMentions(out, at, all + [f], fields[1..]);
      } else {
        at' := AddNewMentions(out + [f], at + [|all|], all + [f], fields[1..]);
      }
    }
  }

  /** The fields come in the order in which they are first mentioned. */
  lemma {:induction false} UnionInOrder(names: seq<string>, sources: map<string, Source>) returns (at: seq<nat>)
    requires forall n :: n in names ==> n in sources
    ensures FirstMentions(UnionFields(names, sources), at, Mentions(names, sources))
  {
    at := [];
    if names != [] {
      var k := |names| - 1;
      at := UnionInOrder(names[..k], sources);
      at := AddNewMentions(UnionFields(names[..k], sources), at, Mentions(names[..k], sources),
        sources[names[k]].groupBy);
    }
  }

  method UnionGroupFields(names: seq<string>, sources: map<string, Source>) returns (out: seq<Path>)
    requires forall n :: n in names ==> n in sources
    ensures out == UnionFields(names, sources)
  {
    out := [];
    var seen: set<Path> := {};
    for i := 0 to |names|
      invariant out == UnionFields(names[..i], sources) && seen == Elems(out)
    {
      assert names[..i + 1][..i] == names[..i];
      var fields := sources[names[i]].groupBy;
      ghost var before := out;
      for j := 0 to |fields|
        invariant AddNew(before, fields) == AddNew(out, fields[j..]) && seen == Elems(out)
      {
        if fields[j] !in seen {
          seen, out := seen + {fields[j]}, out + [fields[j]];
        }
      }
    }
    assert names[..|names|] == names;
  }

  function CaseOf(ev: Event, fields: seq<Path>): Option<CaseValues> {
    if forall f :: f in fields ==> Resolve(ev, f).Some?
    then Some(map f | f in fields :: Resolve(ev, f).value) else None
  }

  function KeyOf(values: CaseValues, fields: seq<Path>): string {
    match GroupKey(CaseGetter(values), fields) case Some(k) => k case None => ""
  }

  predicate HasKey(cs: seq<CaseInfo>, key: string) { exists i :: 0 <= i < |cs| && cs[i].key == key }

  /** The distinct cases in first-seen order. */
  function Cases(events: seq<Event>, fields: seq<Path>): seq<CaseInfo> {
    if events == [] then []
    else
      var n := |events| - 1;
      var before := Cases(events[..n], fields);
      match CaseOf(events[n], fields)
      case None => before
      case Some(values) =>
        var key := KeyOf(values, fields);
        if HasKey(before, key) then before else before + [CaseInfo(key, values)]
  }

  method ExtractCase(ev: Event, fields: seq<Path>) returns (r: Option<CaseValues>)
    ensures r == CaseOf(ev, fields)
  {
    var values: CaseValues := map[];
    for k := 0 to |fields|
      invariant values.Keys == Elems(fields[..k])
      invariant forall f :: f in values ==> Resolve(ev, f) == Some(values[f])
    {
      var v := ResolvePath(ev, fields[k]);
      if v.None? { return None; }
      values := values[fields[k] := v.value];
    }
    assert fields[..|fields|] == fields;
    forall f | f in fields ensures Resolve(ev, f).Some? { assert f in values; }
    assert values == CaseOf(ev, fields).value;
    return Some(values);
  }

  method EnumerateCases(events: seq<Event>, fields: seq<Path>) returns (out: seq<CaseInfo>)
    ensures out == Cases(events, fields)
  {
    out := [];
    var seen: set<string> := {};
    for i := 0 to |events|
      invariant out == Cases(events[..i], fields)
      invariant forall k :: k in seen <==> HasKey(out, k)
    {
      assert events[..i + 1][..i] == events[..i];
      var values := ExtractCase(events[i], fields);
      if values.None? { continue; }
      var key := GroupKeyFromGetter(CaseGetter(values.value), fields);
      assert key == Some(KeyOf(values.value, fields));
      if key.value !in seen {
        ghost var before := out;
        seen := seen + {key.value};
        out := out + [CaseInfo(key.value, values.value)];
        HasKeySnoc(before, CaseInfo(key.value, values.value));
      }
    }
    assert events[..|events|] == events;
  }

  lemma HasKeySnoc(cs: seq<CaseInfo>, c: CaseInfo)
    ensures forall k :: HasKey(cs + [c], k) <==> HasKey(cs, k) || k == c.key
  {
    var all := cs + [c];
    assert all[|cs|] == c;
    forall k | HasKey(cs, k) ensures HasKey(all, k) {
      var i :| 0 <= i < |cs| && cs[i].key == k;
      assert all[i].key == k;
    }
  }

  /** Case keys are distinct, and each case records the fields of an event that carries them all. */
  lemma {:induction false} CasesSound(events: seq<Event>, fields: seq<Path>)
    ensures forall i, j :: 0 <= i < j < |Cases(events, fields)| ==>
      Cases(events, fields)[i].key != Cases(events, fields)[j].key
    ensures forall c :: c in Cases(events, fields) ==>
      c.key == KeyOf(c.values, fields) && exists e :: e in events && CaseOf(e, fields) == Some(c.values)
  {
    KeysDistinct(events, fields);
    CasesFromEvents(events, fields);
  }

  lemma {:induction false} KeysDistinct(events: seq<Event>, fields: seq<Path>)
    ensures forall i, j :: 0 <= i < j < |Cases(events, fields)| ==>
      Cases(events, fields)[i].key != Cases(events, fields)[j].key
  {
    if events != [] { KeysDistinct(events[..|events| - 1], fields); }
  }

  lemma {:induction false} CasesFromEvents(events: seq<Event>, fields: seq<Path>)
    ensures forall c :: c in Cases(events, fields) ==>
      c.key == KeyOf(c.values, fields) && exists e :: e in events && CaseOf(e, fields) == Some(c.values)
  {
    if events != [] {
      var n := |events| - 1;
      CasesFromEvents(events[..n], fields);
      forall c | c in Cases(events, fields)
        ensures c.key == KeyOf(c.values, fields) && exists e :: e in events && CaseOf(e, fields) == Some(c.values)
      {
        if c in Cases(events[..n], fields) {
          var e :| e in events[..n] && CaseOf(e, fields) == Some(c.values);
          assert e in events;
        } else {
          assert events[n] in events && CaseOf(events[n], fields) == Some(c.values);
        }
      }
    }
  }

  /** Every event that carries all fields falls into a case. */
  lemma {:induction false} CasesComplete(events: seq<Event>, fields: seq<Path>, k: nat)
    requires k < |events| && CaseOf(events[k], fields).Some?
    ensures HasKey(Cases(events, fields), KeyOf(CaseOf(events[k], fields).value, fields))
  {
    if k < |events| - 1 { CasesComplete(events[..|events| - 1], fields, k); }
    KeysGrow(events, fields, KeyOf(CaseOf(events[k], fields).value, fields));
  }

  lemma KeysGrow(events: seq<Event>, fields: seq<Path>, key: string)
    requires events != []
    ensures var n := |events| - 1;
      HasKey(Cases(events, fields), key) <==>
        HasKey(Cases(events[..n], fields), key) ||
        (CaseOf(events[n], fields).Some? && KeyOf(CaseOf(events[n], fields).value, fields) == key)
  {
    var n := |events| - 1;
    var values := CaseOf(events[n], fields);
    if values.Some? {
      HasKeySnoc(Cases(events[..n], fields), CaseInfo(KeyOf(values.value, fields), values.value));
    }
  }

  // ----- aggregation -----

  predicate InGroup(ev: Event, src: Source, want: string) { GroupKey(EventGetter(ev), src.groupBy) == Some(want) }

  /** The events a source counts for one group key. */
  function Picker(src: Source, want: string, funcs: Funcs): Event -> bool {
    (ev: Event) => EvalBool(src.where, EventContext(ev, funcs)) == Ok(true) && InGroup(ev, src, want)
  }

  function DistinctValues(ms: seq<Event>, f: Path): set<string> {
    set i | 0 <= i < |ms| && Resolve(ms[i], f).Some? :: RenderScalar(Resolve(ms[i], f).value)
  }

  function DistinctCounts(ms: seq<Event>, fields: seq<Path>): map<string, nat> {
    if fields == [] then map[]
    else
      var rest := DistinctCounts(ms, fields[1..]);
      var values := DistinctValues(ms, fields[0]);
      if values == {} then rest else rest[FlatName(fields[0]) := |values|]
  }

  function MinTime(ms: seq<Event>): int {
    if ms == [] then 0
    else
      var n := |ms| - 1;
      if n == 0 || Time(ms[n]) < MinTime(ms[..n]) then Time(ms[n]) else MinTime(ms[..n])
  }

  /** The running latest time, and the tracked fields captured with it. */
  datatype Latest = Latest(best: int, ts: int, last: map<string, Value>)

  function Capture(last: map<string, Value>, ev: Event, fields: seq<Path>): map<string, Value>
    decreases fields
  {
    if fields == [] then last
    else
      var f := fields[0];
      Capture(match Resolve(ev, f) case Some(v) => last[FlatName(f) := v] case None => last, ev, fields[1..])
  }

  function LatestStep(acc: Latest, first: bool, ev: Event, fields: seq<Path>): Latest {
    var best := if first then Wrap64(Time(ev) - 1) else acc.best;
    if Time(ev) >= best then Latest(Time(ev), Time(ev), Capture(acc.last, ev, fields))
    else acc.(best := best)
  }

  function LatestOf(ms: seq<Event>, fields: seq<Path>): Latest {
    if ms == [] then Latest(0, 0, map[])
    else var n := |ms| - 1; LatestStep(LatestOf(ms[..n], fields), n == 0, ms[n], fields)
  }

  function GroupValuesOf(values: CaseValues, fields: seq<Path>): map<string, Value>
    requires forall f :: f in fields ==> f in values
  {
    if fields == [] then map[]
    else
      var n := |fields| - 1;
      GroupValuesOf(values, fields[..n])[FlatName(fields[n]) := values[fields[n]]]
  }

  function AggregateOf(ms: seq<Event>, src: Source, groupValues: map<string, Value>): Aggregate {
    var latest := LatestOf(ms, src.trackLast);
    Aggregate(|ms|, MinTime(ms), latest.ts, DistinctCounts(ms, src.trackDistinct), latest.last, groupValues)
  }

  predicate WhereTotal(events: seq<Event>, src: Source, funcs: Funcs) {
    forall i :: 0 <= i < |events| ==> EvalBool(src.where, EventContext(events[i], funcs)).Ok?
  }

  /** computeAggregate: an aggregate over the case's group, or an error if the filter fails on any event. */
  function AggregateFor(events: seq<Event>, src: Source, values: CaseValues, funcs: Funcs): Result<Aggregate> {
    match GroupKey(CaseGetter(values), src.groupBy)
    case None => Ok(Aggregate(0, 0, 0, map[], map[], map[]))
    case Some(want) =>
      if !WhereTotal(events, src, funcs) then Err
      else Ok(AggregateOf(Filter(events, Picker(src, want, funcs)), src, GroupValuesOf(values, src.groupBy)))
  }

  predicate AliasesDistinct(fields: seq<Path>) {
    forall f, g :: f in fields && g in fields && FlatName(f) == FlatName(g) ==> f == g
  }

  lemma {:induction false} DistinctCountsAt(ms: seq<Event>, fields: seq<Path>, c: string)
    requires AliasesDistinct(fields)
    ensures c in DistinctCounts(ms, fields) <==>
      exists f :: f in fields && FlatName(f) == c && DistinctValues(ms, f) != {}
    ensures forall f :: f in fields && FlatName(f) == c && DistinctValues(ms, f) != {} ==>
      DistinctCounts(ms, fields)[c] == |DistinctValues(ms, f)|
  {
    if fields != [] {
      assert fields == [fields[0]] + fields[1..];
      DistinctCountsAt(ms, fields[1..], c);
    }
  }

  method CaptureLast(last: map<string, Value>, ev: Event, fields: seq<Path>) returns (r: map<string, Value>)
    ensures r == Capture(last, ev, fields)
  {
    r := last;
    for k := 0 to |fields|
      invariant Capture(last, ev, fields) == Capture(r, ev, fields[k..])
    {
      var v := ResolvePath(ev, fields[k]);
      if v.Some? { r := r[FlatName(fields[k]) := v.value]; }
    }
  }

  function AddSeen(sets: map<Path, set<string>>, ev: Event, fields: seq<Path>): map<Path, set<string>>
    decreases fields
  {
    if fields == [] then sets
    else
      var f := fields[0];
      AddSeen(match Resolve(ev, f) case Some(v) => sets[f := SetOf(sets, f) + {RenderScalar(v)}] case None => sets, ev,
        fields[1..])
  }

  method AddDistinct(sets: map<Path, set<string>>, ev: Event, fields: seq<Path>) returns (r: map<Path, set<string>>)
    ensures r == AddSeen(sets, ev, fields)
  {
    r := sets;
    for k := 0 to |fields|
      invariant AddSeen(sets, ev, fields) == AddSeen(r, ev, fields[k..])
    {
      var f := fields[k];
      var v := ResolvePath(ev, f);
      if v.Some? { r := r[f := SetOf(r, f) + {RenderScalar(v.value)}]; }
    }
  }

  lemma {:induction false} AddSeenAt(sets: map<Path, set<string>>, ev: Event, fields: seq<Path>, f: Path)
    ensures SetOf(AddSeen(sets, ev, fields), f) == SetOf(sets, f) + (if f in fields then Added(ev, f) else {})
    ensures f in AddSeen(sets, ev, fields) ==> f in sets || (f in fields && Added(ev, f) != {})
    decreases fields
  {
    if fields != [] {
      var g := fields[0];
      var next := match Resolve(ev, g) case Some(v) => sets[g := SetOf(sets, g) + {RenderScalar(v)}] case None => sets;
      AddSeenAt(next, ev, fields[1..], f);
      assert f in fields <==> f == g || f in fields[1..];
    }
  }

  lemma SetsForSnoc(sets: map<Path, set<string>>, ms: seq<Event>, ev: Event, fields: seq<Path>)
    requires SetsFor(sets, ms, fields)
    ensures SetsFor(AddSeen(sets, ev, fields), ms + [ev], fields)
  {
    DistinctSnoc(ms, ev, fields);
    forall f { AddSeenAt(sets, ev, fields, f); }
  }

  /** The counts of the sets already visited, each under its alias. */
  ghost predicate CountsOf(counts: map<string, nat>, sets: map<Path, set<string>>, todo: set<Path>) {
    && (forall f :: f in sets && f !in todo ==> FlatName(f) in counts && counts[FlatName(f)] == |sets[f]|)
    && (forall c :: c in counts ==> exists f :: f in sets && f !in todo && FlatName(f) == c)
  }

  method CountSets(sets: map<Path, set<string>>, ghost ms: seq<Event>, fields: seq<Path>)
      returns (counts: map<string, nat>)
    requires SetsFor(sets, ms, fields)
    ensures AliasesDistinct(fields) ==> counts == DistinctCounts(ms, fields)
  {
    var todo := sets.Keys;
    counts := map[];
    while todo != {}
      invariant todo <= sets.Keys
      invariant AliasesDistinct(fields) ==> CountsOf(counts, sets, todo)
      decreases todo
    {
      var f :| f in todo;
      ghost var before := counts;
      counts := counts[FlatName(f) := |sets[f]|];
      ghost var left := todo - {f};
      if AliasesDistinct(fields) {
        forall c | c in counts ensures exists g :: g in sets && g !in left && FlatName(g) == c {
          if c != FlatName(f) {
            var g :| g in sets && g !in todo && FlatName(g) == c;
            assert g !in left;
          }
        }
      }
      todo := todo - {f};
    }
    if AliasesDistinct(fields) { CountsAgree(counts, sets, ms, fields); }
  }

  method GroupValues(values: CaseValues, fields: seq<Path>) returns (r: map<string, Value>)
    requires forall f :: f in fields ==> f in values
    ensures r == GroupValuesOf(values, fields)
  {
    r := map[];
    for i := 0 to |fields|
      invariant r == GroupValuesOf(values, fields[..i])
    {
      assert fields[..i + 1][..i] == fields[..i];
      r := r[FlatName(fields[i]) := values[fields[i]]];
    }
    assert fields[..|fields|] == fields;
  }

  /** The loop state after the matches ms. */
  ghost predicate Folded(agg: Aggregate, best: int, ms: seq<Event>, src: Source, groupValues: map<string, Value>) {
    && agg.count == |ms| && agg.firstTS == MinTime(ms)
    && Latest(best, agg.lastTS, agg.last) == LatestOf(ms, src.trackLast)
    && agg.distinct == map[] && agg.groupValues == groupValues
  }

  method Absorb(agg: Aggregate, best: int, ghost ms: seq<Event>, ev: Event, src: Source,
      ghost groupValues: map<string, Value>)
      returns (agg': Aggregate, best': int)
    requires Folded(agg, best, ms, src, groupValues)
    ensures Folded(agg', best', ms + [ev], src, groupValues)
  {
    ghost var after := ms + [ev];
    assert after[..|ms|] == ms && after[|after| - 1] == ev;
    agg', best' := agg, best;
    var ts := Time(ev);
    if agg.count == 0 {
      agg', best' := agg'.(firstTS := ts), Wrap64(ts - 1);
    } else if ts < agg.firstTS {
      agg' := agg'.(firstTS := ts);
    }
    agg' := agg'.(count := agg.count + 1);
    if ts >= best' {
      best' := ts;
      var last := CaptureLast(agg.last, ev, src.trackLast);
      agg' := agg'.(lastTS := ts, last := last);
    }
    assert LatestOf(after, src.trackLast) == LatestStep(LatestOf(ms, src.trackLast), |ms| == 0, ev, src.trackLast);
  }

  /** Filters one event: its where clause first, then its group. */
  method Select(ev: Event, src: Source, want: string, funcs: Funcs) returns (r: Result<bool>)
    ensures r == match EvalBool(src.where, EventContext(ev, funcs))
      case Err => Err
      case Ok(_) => Ok(Picker(src, want, funcs)(ev))
  {
    var matched := EvalBool(src.where, EventContext(ev, funcs));
    if matched.Err? { return Err; }
    if !matched.value { return Ok(false); }
    var subKey := GroupKeyFromGetter(EventGetter(ev), src.groupBy);
    return Ok(subKey == Some(want));
  }

  /** One pass over the events; map iteration over the distinct sets is in arbitrary order. */
  method AggregateGroup(events: seq<Event>, src: Source, want: string, groupValues: map<string, Value>, funcs: Funcs)
      returns (r: Result<Aggregate>)
    ensures r.Ok? <==> WhereTotal(events, src, funcs)
    ensures r.Ok? && AliasesDistinct(src.trackDistinct) ==>
      r.value == AggregateOf(Filter(events, Picker(src, want, funcs)), src, groupValues)
  {
    var agg := Aggregate(0, 0, 0, map[], map[], groupValues);
    var distinctSets: map<Path, set<string>> := map[];
    var best := 0;
    ghost var ms: seq<Event> := [];
    for i := 0 to |events|
      invariant forall j :: 0 <= j < i ==> EvalBool(src.where, EventContext(events[j], funcs)).Ok?
      invariant ms == Filter(events[..i], Picker(src, want, funcs))
      invariant Folded(agg, best, ms, src, groupValues)
      invariant SetsFor(distinctSets, ms, src.trackDistinct)
    {
      FilterPrefix(events, i, Picker(src, want, funcs));
      var selected := Select(events[i], src, want, funcs);
      if selected.Err? { return Err; }
      if selected.value {
        agg, best := Absorb(agg, best, ms, events[i], src, groupValues);
        SetsForSnoc(distinctSets, ms, events[i], src.trackDistinct);
        distinctSets := AddDistinct(distinctSets, events[i], src.trackDistinct);
        ms := ms + [events[i]];
      }
    }
    assert events[..|events|] == events;
    var counts := CountSets(distinctSets, ms, src.trackDistinct);
    return Ok(agg.(distinct := counts));
  }

  method ComputeAggregate(events: seq<Event>, src: Source, values: CaseValues, funcs: Funcs)
      returns (r: Result<Aggregate>)
    ensures AliasesDistinct(src.trackDistinct) ==> r == AggregateFor(events, src, values, funcs)
  {
    var want := GroupKeyFromGetter(CaseGetter(values), src.groupBy);
    if want.None? { return Ok(Aggregate(0, 0, 0, map[], map[], map[])); }
    var groupValues := GroupValues(values, src.groupBy);
    r := AggregateGroup(events, src, want.value, groupValues, funcs);
  }

  function SetOf(sets: map<Path, set<string>>, f: Path): set<string> { if f in sets then sets[f] else {} }

  ghost predicate SetsFor(sets: map<Path, set<string>>, ms: seq<Event>, fields: seq<Path>) {
    && (forall f :: f in sets ==> f in fields && sets[f] != {})
    && (forall f :: f in fields ==> SetOf(sets, f) == DistinctValues(ms, f))
  }

  function Added(ev: Event, f: Path): set<string> {
    match Resolve(ev, f) case Some(v) => {RenderScalar(v)} case None => {}
  }

  lemma DistinctSnoc(ms: seq<Event>, ev: Event, fields: seq<Path>)
    ensures forall f :: f in fields ==> DistinctValues(ms + [ev], f) == DistinctValues(ms, f) + Added(ev, f)
  {
    var all := ms + [ev];
    forall f | f in fields ensures DistinctValues(all, f) == DistinctValues(ms, f) + Added(ev, f) {
      forall s | s in DistinctValues(ms, f) ensures s in DistinctValues(all, f) {
        var i :| 0 <= i < |ms| && Resolve(ms[i], f).Some? && s == RenderScalar(Resolve(ms[i], f).value);
        assert all[i] == ms[i];
      }
      if Resolve(ev, f).Some? { assert all[|ms|] == ev; }
    }
  }

  lemma CountsAgree(counts: map<string, nat>, sets: map<Path, set<string>>, ms: seq<Event>, fields: seq<Path>)
    requires AliasesDistinct(fields) && SetsFor(sets, ms, fields)
    requires CountsOf(counts, sets, {})
    ensures counts == DistinctCounts(ms, fields)
  {
    var want := DistinctCounts(ms, fields);
    forall c ensures c in counts <==> c in want {
      DistinctCountsAt(ms, fields, c);
    }
    forall c | c in counts ensures counts[c] == want[c] {
      DistinctCountsAt(ms, fields, c);
    }
  }

  // ----- the declarative meaning -----

  function MaxTime(ms: seq<Event>): int
    requires ms != []
  {
    var n := |ms| - 1;
    if n == 0 || Time(ms[n]) >= MaxTime(ms[..n]) then Time(ms[n]) else MaxTime(ms[..n])
  }

  lemma {:induction false} TimeBounds(ms: seq<Event>)
    requires ms != []
    ensures forall i :: 0 <= i < |ms| ==> MinTime(ms) <= Time(ms[i]) <= MaxTime(ms)
    ensures exists i :: 0 <= i < |ms| && Time(ms[i]) == MinTime(ms)
    ensures exists i :: 0 <= i < |ms| && Time(ms[i]) == MaxTime(ms)
  {
    var n := |ms| - 1;
    assert Time(ms[n]) == MinTime(ms) || n > 0;
    if n > 0 {
      TimeBounds(ms[..n]);
      var i :| 0 <= i < n && Time(ms[..n][i]) == MinTime(ms[..n]);
      var j :| 0 <= j < n && Time(ms[..n][j]) == MaxTime(ms[..n]);
      assert Time(ms[i]) == MinTime(ms[..n]) && Time(ms[j]) == MaxTime(ms[..n]);
    }
  }

  /** The last-listed of the latest events. */
  function LatestIndex(ms: seq<Event>): (k: nat)
    requires ms != []
    ensures k < |ms| && Time(ms[k]) == MaxTime(ms)
    ensures forall i :: 0 <= i < k ==> Time(ms[i]) <= Time(ms[k])
    ensures forall i :: k < i < |ms| ==> Time(ms[i]) < Time(ms[k])
  {
    var n := |ms| - 1;
    if n > 0 then
      var k := LatestIndex(ms[..n]);
      assert forall i :: 0 <= i < n ==> ms[..n][i] == ms[i];
      if Time(ms[n]) >= MaxTime(ms[..n]) then n else k
    else n
  }

  /** The match was the latest when it came, and carries the field. */
  predicate Captures(ms: seq<Event>, f: Path, i: nat)
    requires i < |ms|
  {
    Resolve(ms[i], f).Some? && forall j :: 0 <= j < i ==> Time(ms[j]) <= Time(ms[i])
  }

  /** The last match that was the latest when it came and carries the field. */
  function LastCapture(ms: seq<Event>, f: Path): (k: Option<nat>)
    ensures k.Some? ==> k.value < |ms| && Captures(ms, f, k.value)
    ensures k.Some? ==> forall i :: k.value < i < |ms| ==> !Captures(ms, f, i)
    ensures k.None? ==> forall i :: 0 <= i < |ms| ==> !Captures(ms, f, i)
  {
    if ms == [] then None
    else
      var n := |ms| - 1;
      assert forall i :: 0 <= i < n ==> Captures(ms[..n], f, i) == Captures(ms, f, i);
      if Captures(ms, f, n) then Some(n) else LastCapture(ms[..n], f)
  }

  /** What is remembered of a field: its value in that match, or nothing. */
  predicate CapturedAs(last: map<string, Value>, ms: seq<Event>, f: Path) {
    match LastCapture(ms, f)
    case None => FlatName(f) !in last
    case Some(k) => FlatName(f) in last && Some(last[FlatName(f)]) == Resolve(ms[k], f)
  }

  lemma {:induction false} CaptureAt(last: map<string, Value>, ev: Event, fields: seq<Path>, f: Path)
    requires AliasesDistinct(fields)
    ensures var c, after := FlatName(f), Capture(last, ev, fields);
      if f in fields && Resolve(ev, f).Some? then c in after && after[c] == Resolve(ev, f).value
      else f in fields || c !in Aliases(fields) ==> (c in after <==> c in last) && (c in last ==> after[c] == last[c])
    decreases fields
  {
    if fields != [] {
      var g := fields[0];
      var next := match Resolve(ev, g) case Some(v) => last[FlatName(g) := v] case None => last;
      assert fields == [g] + fields[1..];
      CaptureAt(next, ev, fields[1..], f);
    }
  }

  function Aliases(fields: seq<Path>): set<string> { set f | f in fields :: FlatName(f) }

  lemma LatestStepMeaning(ms: seq<Event>, fields: seq<Path>, f: Path)
    requires ms != [] && AliasesDistinct(fields) && f in fields && IsInt64(Time(ms[0])) && Time(ms[0]) > MIN_INT64
    requires var n := |ms| - 1;
      n > 0 ==>
        LatestOf(ms[..n], fields).best == MaxTime(ms[..n]) && CapturedAs(LatestOf(ms[..n], fields).last, ms[..n], f)
    ensures CapturedAs(LatestOf(ms, fields).last, ms, f)
  {
    var n := |ms| - 1;
    CaptureAt(LatestOf(ms[..n], fields).last, ms[n], fields, f);
    if n > 0 {
      TimeBounds(ms[..n]);
      assert forall i :: 0 <= i < n ==> Time(ms[..n][i]) == Time(ms[i]);
    }
  }

  /**
   Single-pass aggregation means what it should: with the first match's time above the int64 minimum, LastTS is the
   latest time, and a tracked field holds its value in the last match that was the latest when it came and carries the
   field.
   */
  lemma {:induction false} LatestMeaning(ms: seq<Event>, fields: seq<Path>)
    requires ms != [] && AliasesDistinct(fields)
    requires (forall e :: e in ms ==> IsInt64(Time(e))) && Time(ms[0]) > MIN_INT64
    ensures LatestOf(ms, fields).ts == LatestOf(ms, fields).best == MaxTime(ms)
    ensures forall f :: f in fields ==> CapturedAs(LatestOf(ms, fields).last, ms, f)
  {
    var n := |ms| - 1;
    assert ms[n] in ms;
    forall e | e in ms[..n] ensures e in ms {}
    if n > 0 { LatestMeaning(ms[..n], fields); }
    forall f | f in fields ensures CapturedAs(LatestOf(ms, fields).last, ms, f) { LatestStepMeaning(ms, fields, f); }
  }

  /** Otherwise the counter wraps round: nothing is recorded before a match at the int64 maximum. */
  lemma {:induction false} LatestWraps(ms: seq<Event>, fields: seq<Path>)
    requires ms != [] && (forall e :: e in ms ==> IsInt64(Time(e))) && Time(ms[0]) == MIN_INT64
    ensures LatestOf(ms, fields).best == MAX_INT64
    ensures LatestOf(ms, fields).ts == if MaxTime(ms) == MAX_INT64 then MAX_INT64 else 0
    ensures MaxTime(ms) != MAX_INT64 ==> LatestOf(ms, fields).last == map[]
  {
    var n := |ms| - 1;
    assert ms[n] in ms;
    forall e | e in ms[..n] ensures e in ms {}
    if n > 0 {
      LatestWraps(ms[..n], fields);
      TimeBounds(ms[..n]);
    }
  }

  /** In particular a field of the last-listed of the latest matches is remembered from there. */
  lemma LatestCaptured(ms: seq<Event>, f: Path)
    requires ms != []
    ensures forall i :: LatestIndex(ms) < i < |ms| ==> !Captures(ms, f, i)
    ensures Resolve(ms[LatestIndex(ms)], f).Some? ==> LastCapture(ms, f) == Some(LatestIndex(ms))
  {
    var k := LatestIndex(ms);
    if Resolve(ms[k], f).Some? { assert Captures(ms, f, k); }
  }
}
