/**
 What streaming a rule means, without the loops: which events a case counts, what its identifiers stand for, and which
 claims it makes.
 */
module CdlMeaning {
  import opened Common
  import opened Seqs
  import opened CdlExpr
  import opened CdlEvents
  import opened CdlAggregate
  import opened CdlStreaming

  // ----- which events a case counts -----

  /** The case and the event hold clean values of one kind, wherever the event holds any. */
  predicate CleanKeys(ev: Event, values: CaseValues, fields: seq<Path>) {
    forall f :: f in fields ==>
      && f in values && IsKeyScalar(values[f])
      && (Resolve(ev, f).Some? ==> IsKeyScalar(Resolve(ev, f).value) && SameKind(Resolve(ev, f).value, values[f]))
  }

  /** The filter holds of the event, and it carries the case's own values. */
  predicate Belongs(ev: Event, src: Source, values: CaseValues, funcs: Funcs) {
    EvalBool(src.where, EventContext(ev, funcs)) == Ok(true) &&
    forall f :: f in src.groupBy ==> f in values && Resolve(ev, f) == Some(values[f])
  }

  /** The events counted for a case, in order. */
  function Counted(events: seq<Event>, src: Source, values: CaseValues, funcs: Funcs): seq<Event> {
    Filter(events, Picker(src, KeyOf(values, src.groupBy), funcs))
  }

  lemma CaseKey(values: CaseValues, fields: seq<Path>)
    requires forall f :: f in fields ==> f in values
    ensures GroupKey(CaseGetter(values), fields) == Some(KeyOf(values, fields))
  {}

  /** An event counts for a case exactly when it belongs to it. */
  lemma CountedExactly(ev: Event, src: Source, values: CaseValues, funcs: Funcs)
    requires CleanKeys(ev, values, src.groupBy)
    ensures Picker(src, KeyOf(values, src.groupBy), funcs)(ev) <==> Belongs(ev, src, values, funcs)
  {
    var fields := src.groupBy;
    CaseKey(values, fields);
    if forall f :: f in fields ==> Resolve(ev, f).Some? {
      GroupKeyMeansTuple(EventGetter(ev), CaseGetter(values), fields);
    } else {
      assert Rendered(EventGetter(ev), fields) == None;
    }
  }

  // ----- what an identifier stands for -----

  /** The case's values for a group field, and for nothing else. */
  lemma {:induction false} GroupFieldValues(values: CaseValues, fields: seq<Path>, c: string)
    requires (forall f :: f in fields ==> f in values) && AliasesDistinct(fields)
    ensures c in GroupValuesOf(values, fields) <==> exists f :: f in fields && FlatName(f) == c
    ensures forall f :: f in fields && FlatName(f) == c ==> GroupValuesOf(values, fields)[c] == values[f]
  {
    if fields != [] {
      var n := |fields| - 1;
      assert forall f :: f in fields <==> f in fields[..n] || f == fields[n];
      GroupFieldValues(values, fields[..n], c);
    }
  }

  lemma AggregateIs(events: seq<Event>, src: Source, values: CaseValues, funcs: Funcs, agg: Aggregate)
    requires AggregateFor(events, src, values, funcs) == Ok(agg) && forall f :: f in src.groupBy ==> f in values
    ensures agg == AggregateOf(Counted(events, src, values, funcs), src, GroupValuesOf(values, src.groupBy))
  {
    CaseKey(values, src.groupBy);
  }

  /** A case has an aggregate of a source exactly when its filter can be evaluated on every event. */
  lemma AggregatesExactly(events: seq<Event>, src: Source, values: CaseValues, funcs: Funcs)
    requires forall f :: f in src.groupBy ==> f in values
    ensures AggregateFor(events, src, values, funcs).Ok? <==>
      forall e :: e in events ==> EvalBool(src.where, EventContext(e, funcs)).Ok?
  {
    CaseKey(values, src.groupBy);
    if e :| e in events && EvalBool(src.where, EventContext(e, funcs)).Err? {
      var i :| 0 <= i < |events| && events[i] == e;
    }
  }

  /** A case that lacks a group field of the source has its empty aggregate, whatever the events. */
  lemma EmptyWithoutFields(events: seq<Event>, src: Source, values: CaseValues, funcs: Funcs, field: string)
    requires exists f :: f in src.groupBy && f !in values
    ensures AggregateFor(events, src, values, funcs).Ok?
    ensures var v := AggregateField(AggregateFor(events, src, values, funcs).value, field);
      && (field in {"count", "first_ts", "last_ts"} ==> v == Ok(Int(0)))
      && (field == "exists" ==> v == Ok(Bool(false)))
      && ("distinct_" <= field ==> v == Ok(Int(0)))
      && ("last_" <= field && field != "last_ts" ==> v == Ok(Null))
      && (Plain(field) ==> v == Err)
  {
    assert AggregateFor(events, src, values, funcs) == Ok(Aggregate(0, 0, 0, map[], map[], map[]));
    if "distinct_" <= field {
      assert field[0] == 'd';
    } else if "last_" <= field {
      assert field[0] == 'l';
    }
  }

  /** How many events count, and whether any does; without any the timestamps are 0. */
  lemma CountsMean(events: seq<Event>, src: Source, values: CaseValues, funcs: Funcs, agg: Aggregate)
    requires AggregateFor(events, src, values, funcs) == Ok(agg) && forall f :: f in src.groupBy ==> f in values
    ensures var ms := Counted(events, src, values, funcs);
      && AggregateField(agg, "count") == Ok(Int(|ms|)) && AggregateField(agg, "exists") == Ok(Bool(ms != []))
      && (ms == [] ==> AggregateField(agg, "first_ts") == Ok(Int(0)) && AggregateField(agg, "last_ts") == Ok(Int(0)))
  {
    AggregateIs(events, src, values, funcs, agg);
  }

  /** The int64 under `time`; an event without one counts as of time 0. */
  ghost predicate Stamped(e: Event, t: int) {
    Resolve(e, ["time"]) == Some(Int(t)) || (t == 0 && forall n :: Resolve(e, ["time"]) != Some(Int(n)))
  }

  lemma TimeIsStamp(e: Event, t: int)
    ensures Stamped(e, t) <==> t == Time(e)
  {}

  /**
   The timestamps are those of a first and a last event counted; but if the one counted first has the least int64 as its
   time, last_ts stays 0 unless some event has the greatest.
   */
  lemma TimesMean(events: seq<Event>, src: Source, values: CaseValues, funcs: Funcs, agg: Aggregate)
      returns (first: int, last: int)
    requires AggregateFor(events, src, values, funcs) == Ok(agg) && forall f :: f in src.groupBy ==> f in values
    requires Counted(events, src, values, funcs) != []
    requires forall e, t :: e in Counted(events, src, values, funcs) && Stamped(e, t) ==> IsInt64(t)
    ensures AggregateField(agg, "first_ts") == Ok(Int(first))
    ensures var lost := Stamped(Counted(events, src, values, funcs)[0], MIN_INT64) && last != MAX_INT64;
      AggregateField(agg, "last_ts") == Ok(Int(if lost then 0 else last))
    ensures exists e :: e in Counted(events, src, values, funcs) && Stamped(e, first)
    ensures exists e :: e in Counted(events, src, values, funcs) && Stamped(e, last)
    ensures forall e, t :: e in Counted(events, src, values, funcs) && Stamped(e, t) ==> first <= t <= last
  {
    AggregateIs(events, src, values, funcs, agg);
    var ms := Counted(events, src, values, funcs);
    forall e, t ensures Stamped(e, t) <==> t == Time(e) { TimeIsStamp(e, t); }
    forall e | e in ms ensures IsInt64(Time(e)) { assert Stamped(e, Time(e)); }
    LatestTime(ms, src.trackLast);
    var i, j := Extremes(ms);
    first, last := Time(ms[i]), Time(ms[j]);
    assert ms[i] in ms && ms[j] in ms && Stamped(ms[i], first) && Stamped(ms[j], last);
  }

  lemma Extremes(ms: seq<Event>) returns (i: nat, j: nat)
    requires ms != []
    ensures i < |ms| && Time(ms[i]) == MinTime(ms) && j < |ms| && Time(ms[j]) == MaxTime(ms)
    ensures forall k :: 0 <= k < |ms| ==> Time(ms[i]) <= Time(ms[k]) <= Time(ms[j])
  {
    TimeBounds(ms);
    i :| 0 <= i < |ms| && Time(ms[i]) == MinTime(ms);
    j :| 0 <= j < |ms| && Time(ms[j]) == MaxTime(ms);
  }

  lemma {:induction false} LatestTime(ms: seq<Event>, fields: seq<Path>)
    requires ms != [] && forall e :: e in ms ==> IsInt64(Time(e))
    ensures var lost := Time(ms[0]) == MIN_INT64 && MaxTime(ms) != MAX_INT64;
      LatestOf(ms, fields).ts == if lost then 0 else MaxTime(ms)
    ensures Time(ms[0]) > MIN_INT64 ==> LatestOf(ms, fields).best == MaxTime(ms)
  {
    var n := |ms| - 1;
    assert ms[0] in ms && ms[n] in ms;
    if Time(ms[0]) == MIN_INT64 { LatestWraps(ms, fields); } else if n > 0 { LatestTime(ms[..n], fields); }
  }

  lemma PrefixesApart(x: string)
    ensures HasPrefix("distinct_" + x, "distinct_") && ("distinct_" + x)[|"distinct_"|..] == x
    ensures HasPrefix("last_" + x, "last_") && !HasPrefix("last_" + x, "distinct_") && ("last_" + x)[|"last_"|..] == x
    ensures "distinct_" + x !in {"count", "exists", "first_ts", "last_ts"}
    ensures "last_" + x !in {"count", "exists", "first_ts"} && ("last_" + x == "last_ts" <==> x == "ts")
  {
    assert ("distinct_" + x)[0] == 'd' && ("last_" + x)[0] == 'l';
    assert "last_" + x == "last_ts" ==> ("last_" + x)[5..] == "last_ts"[5..] == "ts";
  }

  /** The values of a field in the events that carry it, as rendered. */
  function RenderedValues(ms: seq<Event>, f: Path): set<string> {
    set e | e in ms && Resolve(e, f).Some? :: RenderScalar(Resolve(e, f).value)
  }

  /**
   `distinct_` and the alias of a tracked field count the different values the events counted hold, as rendered; 0 when
   none carries the field.
   */
  lemma DistinctMeans(events: seq<Event>, src: Source, values: CaseValues, funcs: Funcs, agg: Aggregate, f: Path)
    requires AggregateFor(events, src, values, funcs) == Ok(agg) && forall g :: g in src.groupBy ==> g in values
    requires AliasesDistinct(src.trackDistinct) && f in src.trackDistinct
    ensures var ms := Counted(events, src, values, funcs);
      AggregateField(agg, "distinct_" + FlatName(f)) ==
        Ok(Int(|RenderedValues(ms, f)|))
  {
    AggregateIs(events, src, values, funcs, agg);
    PrefixesApart(FlatName(f));
    var ms := Counted(events, src, values, funcs);
    DistinctCountsAt(ms, src.trackDistinct, FlatName(f));
    DistinctIs(ms, f);
  }

  lemma DistinctIs(ms: seq<Event>, f: Path)
    ensures DistinctValues(ms, f) == RenderedValues(ms, f)
  {
    var found := RenderedValues(ms, f);
    forall v | v in found ensures v in DistinctValues(ms, f) {
      var e :| e in ms && Resolve(e, f).Some? && RenderScalar(Resolve(e, f).value) == v;
      var i :| 0 <= i < |ms| && ms[i] == e;
    }
    forall v | v in DistinctValues(ms, f) ensures v in found {
      var i :| 0 <= i < |ms| && Resolve(ms[i], f).Some? && RenderScalar(Resolve(ms[i], f).value) == v;
      assert ms[i] in ms;
    }
  }

  /** Match i is the latest so far and carries the field, and no later match does both. */
  predicate RememberedAt(ms: seq<Event>, f: Path, i: int) {
    0 <= i < |ms| && Resolve(ms[i], f).Some? && (forall j :: 0 <= j < i ==> Time(ms[j]) <= Time(ms[i])) &&
    forall k :: i < k < |ms| ==> Resolve(ms[k], f).None? || exists j :: 0 <= j < k && Time(ms[j]) > Time(ms[k])
  }

  /**
   `last_` and the alias of a tracked field is the value in the last match that was the latest when it came and carries
   the field; null when there is none.
   */
  lemma LastMeans(events: seq<Event>, src: Source, values: CaseValues, funcs: Funcs, agg: Aggregate, f: Path)
    requires AggregateFor(events, src, values, funcs) == Ok(agg) && forall g :: g in src.groupBy ==> g in values
    requires AliasesDistinct(src.trackLast) && f in src.trackLast && FlatName(f) != "ts"
    requires forall i, t :: 0 <= i < |Counted(events, src, values, funcs)| ==>
      Stamped(Counted(events, src, values, funcs)[i], t) ==> IsInt64(t) && (i == 0 ==> t > MIN_INT64)
    ensures var ms, v := Counted(events, src, values, funcs), AggregateField(agg, "last_" + FlatName(f));
      if exists i :: RememberedAt(ms, f, i) then exists i :: RememberedAt(ms, f, i) && v == Ok(Resolve(ms[i], f).value)
      else v == Ok(Null)
  {
    AggregateIs(events, src, values, funcs, agg);
    PrefixesApart(FlatName(f));
    var ms := Counted(events, src, values, funcs);
    if ms != [] { LatestMeaning(ms, src.trackLast); }
    CaptureIsRemembered(ms, f);
    assert CapturedAs(LatestOf(ms, src.trackLast).last, ms, f);
  }

  lemma CaptureIsRemembered(ms: seq<Event>, f: Path)
    ensures LastCapture(ms, f).Some? ==> RememberedAt(ms, f, LastCapture(ms, f).value)
    ensures LastCapture(ms, f).None? ==> forall i :: !RememberedAt(ms, f, i)
    ensures forall i, k :: RememberedAt(ms, f, i) && RememberedAt(ms, f, k) ==> i == k
  {
    if LastCapture(ms, f).Some? {
      var i := LastCapture(ms, f).value;
      forall k | i < k < |ms| ensures Resolve(ms[k], f).None? || exists j :: 0 <= j < k && Time(ms[j]) > Time(ms[k]) {
        assert !Captures(ms, f, k);
      }
    } else {
      forall i ensures !RememberedAt(ms, f, i) { if 0 <= i < |ms| { assert !Captures(ms, f, i); } }
    }
  }

  /** A source's own group field reads back the value that defines the case. */
  lemma GroupFieldMeans(events: seq<Event>, src: Source, values: CaseValues, funcs: Funcs, agg: Aggregate, f: Path)
    requires AggregateFor(events, src, values, funcs) == Ok(agg) && forall g :: g in src.groupBy ==> g in values
    requires AliasesDistinct(src.groupBy) && f in src.groupBy && Plain(FlatName(f))
    ensures AggregateField(agg, FlatName(f)) == Ok(values[f])
  {
    AggregateIs(events, src, values, funcs, agg);
    GroupFieldValues(values, src.groupBy, FlatName(f));
  }

  /** No name of the aggregate's own. */
  predicate Plain(field: string) {
    field !in {"count", "exists", "first_ts", "last_ts"} && !("distinct_" <= field) && !("last_" <= field)
  }

  /** Every other name is an error, and only such names are. */
  lemma UnknownExactly(events: seq<Event>, src: Source, values: CaseValues, funcs: Funcs, agg: Aggregate,
      field: string)
    requires AggregateFor(events, src, values, funcs) == Ok(agg) && forall g :: g in src.groupBy ==> g in values
    requires AliasesDistinct(src.groupBy)
    ensures AggregateField(agg, field).Err? <==> Plain(field) && forall f :: f in src.groupBy ==> FlatName(f) != field
  {
    AggregateIs(events, src, values, funcs, agg);
    GroupFieldValues(values, src.groupBy, field);
  }

  // ----- which claims a case makes -----

  /** The aggregates of the case, one for each source. */
  ghost predicate AggregatesOf(rule: Rule, events: seq<Event>, values: CaseValues, funcs: Funcs, aggs: AggregateEnv) {
    aggs.Keys == rule.sources.Keys &&
    forall n :: n in rule.sources ==> AggregateFor(events, rule.sources[n], values, funcs) == Ok(aggs[n])
  }

  /** Some suppress clause holds, and every one before it is false. */
  predicate SilencedAt(clauses: seq<Node>, ctx: Context, i: int) {
    0 <= i < |clauses| && EvalBool(clauses[i], ctx) == Ok(true) &&
    forall j :: 0 <= j < i ==> EvalBool(clauses[j], ctx) == Ok(false)
  }

  predicate Unsilenced(clauses: seq<Node>, ctx: Context) {
    forall j :: 0 <= j < |clauses| ==> EvalBool(clauses[j], ctx) == Ok(false)
  }

  lemma {:induction false} SuppressedExactly(clauses: seq<Node>, ctx: Context)
    ensures Suppressed(clauses, ctx) == Ok(true) <==> exists i :: SilencedAt(clauses, ctx, i)
    ensures Suppressed(clauses, ctx) == Ok(false) <==> Unsilenced(clauses, ctx)
  {
    if clauses != [] {
      var rest := clauses[1..];
      SuppressedExactly(rest, ctx);
      if EvalBool(clauses[0], ctx) == Ok(true) { assert SilencedAt(clauses, ctx, 0); }
      if i :| SilencedAt(clauses, ctx, i) { if i > 0 { SilencedLater(clauses, ctx, i - 1); } }
      if i :| SilencedAt(rest, ctx, i) { SilencedLater(clauses, ctx, i); }
    }
  }

  lemma SilencedLater(clauses: seq<Node>, ctx: Context, i: int)
    requires 0 <= i < |clauses| - 1
    ensures SilencedAt(clauses, ctx, i + 1) <==>
      EvalBool(clauses[0], ctx) == Ok(false) && SilencedAt(clauses[1..], ctx, i)
  {
    if SilencedAt(clauses, ctx, i + 1) {
      forall j | 0 <= j < i ensures EvalBool(clauses[1..][j], ctx) == Ok(false) {
        assert clauses[1..][j] == clauses[j + 1];
      }
    }
    if EvalBool(clauses[0], ctx) == Ok(false) && SilencedAt(clauses[1..], ctx, i) {
      forall j | 0 <= j < i + 1 ensures EvalBool(clauses[j], ctx) == Ok(false) {
        if j > 0 { assert clauses[j] == clauses[1..][j - 1]; }
      }
    }
  }

  /** The clause can be evaluated: its condition, and what it observes when that holds. */
  predicate Decides(emit: Emit, ctx: Context) {
    EvalBool(emit.when, ctx).Ok? &&
    (EvalBool(emit.when, ctx) == Ok(true) && emit.observed.Some? ==> Eval(emit.observed.value, ctx).Ok?)
  }

  predicate Holds(emit: Emit, ctx: Context) { EvalBool(emit.when, ctx) == Ok(true) }

  /** The claim names the clause's predicate, the case's entity, what the clause observes, and the rule. */
  predicate IsClaim(c: Claim, rule: Rule, emit: Emit, entity: string, ctx: Context) {
    c.asserts == emit.emits && c.entity == entity && c.ruleID == rule.id && c.ruleVersion == rule.version &&
    match emit.observed case None => c.observed == Null case Some(x) => Eval(x, ctx) == Ok(c.observed)
  }

  /** `cs` are the claims of the clauses that hold, `at` their positions. */
  ghost predicate Lists(cs: seq<Claim>, at: seq<nat>, rule: Rule, emits: seq<Emit>, entity: string, ctx: Context) {
    && |cs| == |at| && Ascends(at)
    && (forall i :: 0 <= i < |at| ==> at[i] < |emits| && IsClaim(cs[i], rule, emits[at[i]], entity, ctx))
    && (forall k :: 0 <= k < |emits| ==> (k in at <==> Holds(emits[k], ctx)))
  }

  lemma FireIs(rule: Rule, emit: Emit, entity: string, ctx: Context)
    ensures Fire(rule, emit, entity, ctx).Ok? <==> Decides(emit, ctx)
    ensures Decides(emit, ctx) && !Holds(emit, ctx) ==> Fire(rule, emit, entity, ctx) == Ok([])
    ensures Decides(emit, ctx) && Holds(emit, ctx) ==>
      |Fire(rule, emit, entity, ctx).value| == 1 &&
      IsClaim(Fire(rule, emit, entity, ctx).value[0], rule, emit, entity, ctx)
  {}

  lemma {:induction false} FiresOk(rule: Rule, emits: seq<Emit>, entity: string, ctx: Context)
    ensures FireAll(rule, emits, entity, ctx).Ok? <==> forall k :: 0 <= k < |emits| ==> Decides(emits[k], ctx)
  {
    if emits != [] {
      FireIs(rule, emits[0], entity, ctx);
      FiresOk(rule, emits[1..], entity, ctx);
      assert forall k :: 0 < k < |emits| ==> emits[k] == emits[1..][k - 1];
    }
  }

  /** All clauses of a case are evaluated, each that holds makes its claim, in order. */
  lemma {:induction false} FiresExactly(rule: Rule, emits: seq<Emit>, entity: string, ctx: Context)
      returns (at: seq<nat>)
    requires FireAll(rule, emits, entity, ctx).Ok?
    ensures Lists(FireAll(rule, emits, entity, ctx).value, at, rule, emits, entity, ctx)
  {
    at := [];
    if emits != [] {
      FireIs(rule, emits[0], entity, ctx);
      var first, cs := Fire(rule, emits[0], entity, ctx).value, FireAll(rule, emits[1..], entity, ctx).value;
      var rest := FiresExactly(rule, emits[1..], entity, ctx);
      assert FireAll(rule, emits, entity, ctx).value == first + cs;
      ShiftLists(cs, rest, rule, emits, entity, ctx);
      if Holds(emits[0], ctx) {
        HeldFirst(first[0], cs, Shift(rest), rule, emits, entity, ctx);
        assert first == [first[0]];
        at := [0] + Shift(rest);
      } else {
        PassedFirst(cs, Shift(rest), rule, emits, entity, ctx);
        assert first + cs == cs;
        at := Shift(rest);
      }
    }
  }

  function Shift(at: seq<nat>): (r: seq<nat>)
    ensures |r| == |at| && forall i :: 0 <= i < |at| ==> r[i] == at[i] + 1
  {
    seq(|at|, i requires 0 <= i < |at| => at[i] + 1)
  }

  /** The claims of the later clauses, counted from the whole list. */
  ghost predicate ListsFrom1(cs: seq<Claim>, at: seq<nat>, rule: Rule, emits: seq<Emit>, entity: string, ctx: Context) {
    && |cs| == |at| && Ascends(at)
    && (forall i :: 0 <= i < |at| ==> 0 < at[i] < |emits| && IsClaim(cs[i], rule, emits[at[i]], entity, ctx))
    && (forall k :: 0 < k < |emits| ==> (k in at <==> Holds(emits[k], ctx)))
  }

  lemma ShiftLists(cs: seq<Claim>, at: seq<nat>, rule: Rule, emits: seq<Emit>, entity: string, ctx: Context)
    requires emits != [] && Lists(cs, at, rule, emits[1..], entity, ctx)
    ensures ListsFrom1(cs, Shift(at), rule, emits, entity, ctx)
  {
    forall k | 0 < k < |emits| ensures k in Shift(at) <==> Holds(emits[k], ctx) {
      assert emits[k] == emits[1..][k - 1];
      if k - 1 in at { var i :| 0 <= i < |at| && at[i] == k - 1; assert Shift(at)[i] == k; }
      if k in Shift(at) { var i :| 0 <= i < |at| && Shift(at)[i] == k; assert at[i] == k - 1; }
    }
  }

  lemma HeldFirst(c: Claim, cs: seq<Claim>, at: seq<nat>, rule: Rule, emits: seq<Emit>, entity: string, ctx: Context)
    requires emits != [] && ListsFrom1(cs, at, rule, emits, entity, ctx) && Holds(emits[0], ctx)
    requires IsClaim(c, rule, emits[0], entity, ctx)
    ensures Lists([c] + cs, [0] + at, rule, emits, entity, ctx)
  {
    assert forall k :: k in [0] + at <==> k == 0 || k in at;
    forall i | 0 <= i < |at| + 1
      ensures ([0] + at)[i] < |emits| && IsClaim(([c] + cs)[i], rule, emits[([0] + at)[i]], entity, ctx)
    {
      if i > 0 { assert ([0] + at)[i] == at[i - 1] && ([c] + cs)[i] == cs[i - 1]; }
    }
  }

  lemma PassedFirst(cs: seq<Claim>, at: seq<nat>, rule: Rule, emits: seq<Emit>, entity: string, ctx: Context)
    requires emits != [] && ListsFrom1(cs, at, rule, emits, entity, ctx) && !Holds(emits[0], ctx)
    ensures Lists(cs, at, rule, emits, entity, ctx)
  {}

  lemma {:induction false} AggregatesOk(acc: AggregateEnv, events: seq<Event>, names: seq<string>,
      sources: map<string, Source>, values: CaseValues, funcs: Funcs)
    requires forall n :: n in names ==> n in sources
    ensures Aggregates(acc, events, names, sources, values, funcs).Ok? <==>
      forall n :: n in names ==> AggregateFor(events, sources[n], values, funcs).Ok?
    decreases names
  {
    if names != [] {
      assert names == [names[0]] + names[1..];
      var agg := AggregateFor(events, sources[names[0]], values, funcs);
      if agg.Ok? { AggregatesOk(acc[names[0] := agg.value], events, names[1..], sources, values, funcs); }
    }
  }

  lemma AggregatesAre(rule: Rule, events: seq<Event>, values: CaseValues, funcs: Funcs)
    requires WellFormed(rule)
    ensures var r := Aggregates(map[], events, rule.names, rule.sources, values, funcs);
      && (r.Ok? <==> forall n :: n in rule.sources ==> AggregateFor(events, rule.sources[n], values, funcs).Ok?)
      && (r.Ok? ==> AggregatesOf(rule, events, values, funcs, r.value))
  {
    var r := Aggregates(map[], events, rule.names, rule.sources, values, funcs);
    AggregatesOk(map[], events, rule.names, rule.sources, values, funcs);
    if r.Ok? { AggregatesAt(map[], events, rule.names, rule.sources, values, funcs); }
  }

  lemma AggregatesUnique(rule: Rule, events: seq<Event>, values: CaseValues, funcs: Funcs, a: AggregateEnv,
      b: AggregateEnv)
    requires AggregatesOf(rule, events, values, funcs, a) && AggregatesOf(rule, events, values, funcs, b)
    ensures a == b
  {
    assert forall n :: n in a ==> a[n] == b[n];
  }

  /** The case can be decided: it is silenced, or every clause can be evaluated. */
  ghost predicate CaseDecides(rule: Rule, ctx: Context) {
    (exists i :: SilencedAt(rule.suppress, ctx, i)) ||
    (Unsilenced(rule.suppress, ctx) && forall k :: 0 <= k < |rule.emits| ==> Decides(rule.emits[k], ctx))
  }

  /** A case whose aggregates exist is an error exactly when it cannot be decided over them. */
  lemma CaseOk(rule: Rule, events: seq<Event>, values: CaseValues, funcs: Funcs, aggs: AggregateEnv)
    requires WellFormed(rule) && AggregatesOf(rule, events, values, funcs, aggs)
    ensures CaseClaims(rule, events, values, funcs).Ok? <==> CaseDecides(rule, AggregateContext(aggs, funcs))
  {
    var r := Aggregates(map[], events, rule.names, rule.sources, values, funcs);
    AggregatesAre(rule, events, values, funcs);
    AggregatesUnique(rule, events, values, funcs, aggs, r.value);
    SuppressedExactly(rule.suppress, AggregateContext(aggs, funcs));
    FiresOk(rule, rule.emits, EntityOf(rule, values), AggregateContext(aggs, funcs));
  }

  /** A case that lacks an aggregate is an error. */
  lemma CaseWithoutAggregate(rule: Rule, events: seq<Event>, values: CaseValues, funcs: Funcs)
    requires WellFormed(rule)
    ensures CaseClaims(rule, events, values, funcs).Ok? ==>
      exists aggs :: AggregatesOf(rule, events, values, funcs, aggs)
  {
    AggregatesAre(rule, events, values, funcs);
  }

  /** How a claim names its entity: the value rendered, or the rendering of null when the case lacks it. */
  function Named(entity: Path, values: CaseValues): string {
    if entity in values then RenderScalar(values[entity]) else "\0null"
  }

  /** A silenced case makes no claim; any other the claims of its clauses that hold, about its rendered entity. */
  lemma CaseExactly(rule: Rule, events: seq<Event>, values: CaseValues, funcs: Funcs, aggs: AggregateEnv)
      returns (at: seq<nat>)
    requires WellFormed(rule) && CaseClaims(rule, events, values, funcs).Ok?
    requires AggregatesOf(rule, events, values, funcs, aggs)
    ensures var cs, ctx := CaseClaims(rule, events, values, funcs).value, AggregateContext(aggs, funcs);
      || ((exists i :: SilencedAt(rule.suppress, ctx, i)) && cs == [])
      || (Unsilenced(rule.suppress, ctx) && Lists(cs, at, rule, rule.emits, Named(rule.entity, values), ctx))
  {
    var r := Aggregates(map[], events, rule.names, rule.sources, values, funcs);
    AggregatesAre(rule, events, values, funcs);
    AggregatesUnique(rule, events, values, funcs, aggs, r.value);
    var ctx := AggregateContext(aggs, funcs);
    SuppressedExactly(rule.suppress, ctx);
    at := [];
    if Suppressed(rule.suppress, ctx) == Ok(false) {
      at := FiresExactly(rule, rule.emits, EntityOf(rule, values), ctx);
    }
  }

  // ----- which claims a run makes -----

  function Flat(parts: seq<seq<Claim>>): seq<Claim> { if parts == [] then [] else parts[0] + Flat(parts[1..]) }

  /** The claims of each case, in the order of the cases. */
  ghost predicate PartsOf(parts: seq<seq<Claim>>, rule: Rule, events: seq<Event>, cases: seq<CaseInfo>, funcs: Funcs)
    requires WellFormed(rule)
  {
    |parts| == |cases| &&
    forall k :: 0 <= k < |cases| ==> CaseClaims(rule, events, cases[k].values, funcs) == Ok(parts[k])
  }

  lemma {:induction false} CasesStream(rule: Rule, events: seq<Event>, cases: seq<CaseInfo>, funcs: Funcs)
      returns (parts: seq<seq<Claim>>)
    requires WellFormed(rule)
    ensures StreamCases(rule, events, cases, funcs).Ok? <==>
      forall ci :: ci in cases ==> CaseClaims(rule, events, ci.values, funcs).Ok?
    ensures StreamCases(rule, events, cases, funcs).Ok? ==>
      PartsOf(parts, rule, events, cases, funcs) && StreamCases(rule, events, cases, funcs).value == Flat(parts)
  {
    parts := [];
    if cases != [] {
      assert cases == [cases[0]] + cases[1..];
      parts := CasesStream(rule, events, cases[1..], funcs);
      var first := CaseClaims(rule, events, cases[0].values, funcs);
      if first.Ok? {
        parts := [first.value] + parts;
        assert parts[1..] + [] == parts[1..];
      }
    }
  }

  /** The fields a case is made of: those some source groups by. */
  predicate CaseField(rule: Rule, f: Path) { exists n :: n in rule.sources && f in rule.sources[n].groupBy }

  /**
   Streaming succeeds exactly when every case does, and makes the claims of the cases one after the other. There is one
   case for each key that some event carrying all fields has, made by the first of those and in their order.
   */
  lemma StreamingExactly(rule: Rule, events: seq<Event>, funcs: Funcs)
      returns (cases: seq<CaseInfo>, at: seq<nat>, fields: seq<Path>, parts: seq<seq<Claim>>)
    requires WellFormed(rule)
    ensures Streaming(rule, events, funcs).Ok? <==>
      forall ci :: ci in cases ==> CaseClaims(rule, events, ci.values, funcs).Ok?
    ensures Streaming(rule, events, funcs).Ok? ==>
      PartsOf(parts, rule, events, cases, funcs) && Streaming(rule, events, funcs).value == Flat(parts)
    ensures NoDup(fields) && forall f :: f in fields <==> CaseField(rule, f)
    ensures forall i, j :: 0 <= i < j < |cases| ==> cases[i].key != cases[j].key
    ensures |at| == |cases| && Ascends(at) && forall i :: 0 <= i < |at| ==> MadeAt(cases[i], at[i], events, fields)
    ensures forall e :: e in events && (forall f :: f in fields ==> Resolve(e, f).Some?) ==>
      exists i :: 0 <= i < |cases| && Some(cases[i].key) == GroupKey(EventGetter(e), fields)
  {
    fields := UnionFields(rule.names, rule.sources);
    cases := Cases(events, fields);
    parts := CasesStream(rule, events, cases, funcs);
    UnionFieldsElems(rule.names, rule.sources);
    CasesSound(events, fields);
    at := CasesInOrder(events, fields);
    forall e | e in events && (forall f :: f in fields ==> Resolve(e, f).Some?)
      ensures exists i :: 0 <= i < |cases| && Some(cases[i].key) == GroupKey(EventGetter(e), fields)
    {
      var k :| 0 <= k < |events| && events[k] == e;
      CasesComplete(events, fields, k);
      KeyOfCase(e, fields);
    }
  }

  /** No earlier event has the key of the case made at position `at`. */
  ghost predicate MadeAt(ci: CaseInfo, at: int, events: seq<Event>, fields: seq<Path>) {
    && 0 <= at < |events|
    && CaseFrom(ci, events[at], fields)
    && forall k :: 0 <= k < at ==> GroupKey(EventGetter(events[k]), fields) != Some(ci.key)
  }

  /** Cases come in the order of the first events that carry their keys, and keep the values of those. */
  lemma {:induction false} CasesInOrder(events: seq<Event>, fields: seq<Path>) returns (at: seq<nat>)
    ensures |at| == |Cases(events, fields)| && Ascends(at)
    ensures forall i :: 0 <= i < |at| ==> MadeAt(Cases(events, fields)[i], at[i], events, fields)
  {
    if events == [] { return []; }
    var n := |events| - 1;
    var was := CasesInOrder(events[..n], fields);
    var before, all := Cases(events[..n], fields), Cases(events, fields);
    at := was;
    if all != before {
      NewCase(events, fields);
      at := was + [n];
    }
    forall i | 0 <= i < |at| ensures MadeAt(all[i], at[i], events, fields) {
      if i < |was| { MadeStill(before[i], was[i], events, fields); }
    }
  }

  lemma MadeStill(ci: CaseInfo, at: int, events: seq<Event>, fields: seq<Path>)
    requires events != [] && MadeAt(ci, at, events[..|events| - 1], fields)
    ensures MadeAt(ci, at, events, fields)
  {
    var before := events[..|events| - 1];
    assert forall k :: 0 <= k < |before| ==> before[k] == events[k];
  }

  lemma NewCase(events: seq<Event>, fields: seq<Path>)
    requires events != []
    requires Cases(events, fields) != Cases(events[..|events| - 1], fields)
    ensures |Cases(events, fields)| == |Cases(events[..|events| - 1], fields)| + 1
    ensures forall i :: 0 <= i < |Cases(events[..|events| - 1], fields)| ==>
      Cases(events, fields)[i] == Cases(events[..|events| - 1], fields)[i]
    ensures MadeAt(Cases(events, fields)[|Cases(events, fields)| - 1], |events| - 1, events, fields)
  {
    var n := |events| - 1;
    var all := Cases(events, fields);
    var ci := all[|all| - 1];
    CaseIsFrom(ci, events[n], fields);
    forall k | 0 <= k < n ensures GroupKey(EventGetter(events[k]), fields) != Some(ci.key) {
      if GroupKey(EventGetter(events[k]), fields) == Some(ci.key) {
        KeyOfCase(events[k], fields);
        CasesComplete(events[..n], fields, k);
      }
    }
  }

  /** The case has the event's values of the fields, and its key. */
  ghost predicate CaseFrom(ci: CaseInfo, e: Event, fields: seq<Path>) {
    && (forall f :: f in fields ==> f in ci.values && Resolve(e, f) == Some(ci.values[f]))
    && (forall f :: f in ci.values ==> f in fields)
    && GroupKey(EventGetter(e), fields) == Some(ci.key)
  }

  lemma SameKey(g: Path -> Option<Value>, h: Path -> Option<Value>, fields: seq<Path>)
    requires forall f :: f in fields ==> g(f) == h(f)
    ensures GroupKey(g, fields) == GroupKey(h, fields)
  {
    var a, b := Rendered(g, fields), Rendered(h, fields);
    if a.Some? { assert a.value == b.value; }
  }

  lemma KeyOfCase(e: Event, fields: seq<Path>)
    requires forall f :: f in fields ==> Resolve(e, f).Some?
    ensures CaseOf(e, fields).Some? && GroupKey(EventGetter(e), fields) == Some(KeyOf(CaseOf(e, fields).value, fields))
  {
    var values := CaseOf(e, fields).value;
    SameKey(EventGetter(e), CaseGetter(values), fields);
    CaseKey(values, fields);
  }

  lemma CaseIsFrom(ci: CaseInfo, e: Event, fields: seq<Path>)
    requires CaseOf(e, fields) == Some(ci.values) && ci.key == KeyOf(ci.values, fields)
    ensures CaseFrom(ci, e, fields)
  {
    KeyOfCase(e, fields);
  }
}
