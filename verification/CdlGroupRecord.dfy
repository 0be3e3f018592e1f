/** A CTE's output row mirrors the Go aggregate of the same case. */
module CdlGroupRecord {
  import opened Common
  import opened Seqs
  import opened CdlExpr
  import opened CdlEvents
  import opened CdlAggregate
  import opened CdlStreaming
  import opened CdlSql
  import opened CdlCompile
  import opened CdlQuery
  import opened CdlGroups

  function DistinctOr0(agg: Aggregate, alias: string): int { if alias in agg.distinct then agg.distinct[alias] else 0 }

  function LastOrNull(agg: Aggregate, alias: string): Value { if alias in agg.last then agg.last[alias] else Null }

  /**
   The row's columns hold the aggregate's fields, tracked ones where both sides read them alike; an absent distinct
   column counts as 0.
   */
  ghost predicate Mirrors(agg: Aggregate, rec: Record, values: CaseValues, src: Source, ms: seq<Event>) {
    && At(rec, "count") == SInt(agg.count)
    && At(rec, "first_ts") == SInt(agg.firstTS) && At(rec, "last_ts") == SInt(agg.lastTS)
    && (forall x :: DistinctSound(ms, src.trackDistinct, x) ==>
          (if At(rec, "distinct_" + x) == SNull then SInt(0) else At(rec, "distinct_" + x)) ==
            SInt(DistinctOr0(agg, x)))
    && (forall x :: x != "ts" && LastSound(ms, src.trackLast, x) ==> Encodes(At(rec, "last_" + x), LastOrNull(agg, x)))
    && (forall f :: f in src.groupBy ==> At(rec, FlatName(f)) == Store(ValueOf(values, f)))
  }

  function SourceRecord(c: Corpus, src: Source, cte: Cte, values: CaseValues): Record {
    GroupRecord(cte, KeyRecord(values, src.groupBy), c.table, Filter(c.table, Admits(cte.where, "", c.eng)), c.eng)
  }

  lemma {:induction false} DistinctOutputsAt(fields: seq<Path>, group: seq<Record>, x: string)
    ensures At(DistinctOutputs(DistinctColumns(fields), group), "distinct_" + x) ==
      if x in FlatNames(fields) then SInt(|NonNull(group, x)|) else SNull
    ensures forall c :: c in DistinctOutputs(DistinctColumns(fields), group) ==> HasPrefix(c, "distinct_")
  {
    if fields != [] {
      DistinctOutputsAt(fields[1..], group, x);
      assert FlatNames(fields) == [FlatName(fields[0])] + FlatNames(fields[1..]);
      PrefixCancels("distinct_", x, FlatName(fields[0]));
    }
  }

  lemma PrefixCancels(p: string, x: string, y: string)
    ensures p + x == p + y <==> x == y
    ensures HasPrefix(p + y, p) && (p + x)[|p|..] == x
  {
    assert (p + x)[|p|..] == x && (p + y)[|p|..] == y;
  }

  lemma {:induction false} LastOutputsAt(src: Source, fields: seq<Path>, fsql: FuncsSQL, cols: seq<string>, key: Record,
      table: seq<Record>, eng: Engine, x: string)
    requires CompileLasts(src, fields, fsql).Ok?
    ensures var out := LastOutputs(CompileLasts(src, fields, fsql).value, cols, key, table, eng);
      && (forall c :: c in out ==> HasPrefix(c, "last_"))
      && (x !in FlatNames(fields) ==> "last_" + x !in out)
      && (x in FlatNames(fields) ==>
            && ToSQL(src.where, EventTarget("sub", fsql)).Ok?
            && At(out, "last_" + x) ==
                 LastValue(LastColumn(x, ToSQL(src.where, EventTarget("sub", fsql)).value, "last_" + x), cols, key,
                   table, eng))
  {
    if fields != [] {
      LastOutputsAt(src, fields[1..], fsql, cols, key, table, eng, x);
      assert FlatNames(fields) == [FlatName(fields[0])] + FlatNames(fields[1..]);
      PrefixCancels("last_", x, FlatName(fields[0]));
      var ls := CompileLasts(src, fields, fsql).value;
      assert ls[1..] == CompileLasts(src, fields[1..], fsql).value;
    }
  }

  /** Whichever of the newest rows the engine picks, its column encodes what every newest match encodes. */
  lemma NewestAgrees(ms: seq<Event>, rows: seq<Record>, column: string, v: Value, eng: Engine)
    requires ms != [] && |rows| == |ms|
    requires forall i :: 0 <= i < |ms| ==> At(rows[i], "time") == SInt(Time(ms[i]))
    requires forall i :: 0 <= i < |ms| && Time(ms[i]) == MaxTime(ms) ==> Encodes(At(rows[i], column), v)
    ensures var newest := Filter(rows, TimeIs(SqlMax(rows, "time", eng)));
      newest != [] && forall r :: r in newest ==> Encodes(At(r, column), v)
  {
    TimeRange(ms, rows, eng);
    var k, p := LatestIndex(ms), TimeIs(SqlMax(rows, "time", eng));
    FilterElems(rows, p);
    assert rows[k] in rows && p(rows[k]);
    forall r | r in Filter(rows, p) ensures Encodes(At(r, column), v) {
      var i :| 0 <= i < |rows| && rows[i] == r;
      assert Time(ms[i]) == MaxTime(ms);
    }
  }

  lemma {:induction false} LatestKeys(ms: seq<Event>, fields: seq<Path>)
    ensures forall c :: c in LatestOf(ms, fields).last ==> c in FlatNames(fields)
  {
    if ms != [] {
      var n := |ms| - 1;
      LatestKeys(ms[..n], fields);
      CaptureKeys(LatestOf(ms[..n], fields).last, ms[n], fields);
    }
  }

  lemma {:induction false} CaptureKeys(last: map<string, Value>, ev: Event, fields: seq<Path>)
    ensures forall c :: c in Capture(last, ev, fields) ==> c in last || c in FlatNames(fields)
    decreases fields
  {
    if fields != [] {
      var f := fields[0];
      assert FlatNames(fields) == [FlatName(f)] + FlatNames(fields[1..]);
      CaptureKeys(match Resolve(ev, f) case Some(v) => last[FlatName(f) := v] case None => last, ev, fields[1..]);
    }
  }

  // ----- the matches of a case -----

  lemma MatchesFacts(c: Corpus, src: Source, values: CaseValues, want: string, i: nat)
    requires SourceCase(c, src, values, want) && i < |CaseMatches(c, src, want)|
    ensures var e := CaseMatches(c, src, want)[i];
      Matched(c.events, e, src, c.funcs) && Timed(e) && GroupKey(EventGetter(e), src.groupBy) == Some(want)
  {
    FilterElems(c.events, Picker(src, want, c.funcs));
    assert CaseMatches(c, src, want)[i] in CaseMatches(c, src, want);
  }

  lemma PathNamed(fields: seq<Path>, x: string) returns (f: Path)
    requires x in FlatNames(fields)
    ensures f in fields && FlatName(f) == x
  {
    var i :| 0 <= i < |fields| && FlatNames(fields)[i] == x;
    f := fields[i];
  }

  lemma NameListed(fields: seq<Path>, f: Path)
    requires f in fields
    ensures FlatName(f) in FlatNames(fields)
  {
    var i :| 0 <= i < |fields| && fields[i] == f;
    assert FlatNames(fields)[i] == FlatName(f);
  }

  lemma DistinctMirrors(ms: seq<Event>, fields: seq<Path>, group: seq<Record>, x: string)
    requires AliasesDistinct(fields) && DistinctSound(ms, fields, x)
    requires Aligned(ms, group, (e, r) => RecordOf(e, r))
    ensures var counts := DistinctCounts(ms, fields);
      (if x in counts then counts[x] else 0) == if x in FlatNames(fields) then |NonNull(group, x)| else 0
  {
    DistinctCountsAt(ms, fields, x);
    if x in FlatNames(fields) {
      var f := PathNamed(fields, x);
      DistinctAgrees(ms, group, f);
    } else {
      forall f | f in fields ensures FlatName(f) != x { NameListed(fields, f); }
    }
  }

  /** The matches next to the rows of the correlated subquery. */
  ghost predicate LastRows(ms: seq<Event>, rows: seq<Record>) {
    |rows| == |ms| && forall i :: 0 <= i < |ms| ==> RecordOf(ms[i], rows[i]) && At(rows[i], "time") == SInt(Time(ms[i]))
  }

  lemma RememberedNewest(ms: seq<Event>, rows: seq<Record>, fields: seq<Path>, f: Path, eng: Engine)
    requires ms != [] && LastRows(ms, rows) && f in fields && LastSound(ms, fields, FlatName(f))
    ensures var newest := Filter(rows, TimeIs(SqlMax(rows, "time", eng)));
      newest != [] && forall r :: r in newest ==> Encodes(At(r, FlatName(f)), Remembered(ms, fields, FlatName(f)))
  {
    forall i | 0 <= i < |ms| && Time(ms[i]) == MaxTime(ms)
      ensures Encodes(At(rows[i], FlatName(f)), Remembered(ms, fields, FlatName(f)))
    {
      RecordReads(ms[i], rows[i], f);
    }
    NewestAgrees(ms, rows, FlatName(f), Remembered(ms, fields, FlatName(f)), eng);
  }

  lemma LastRowsHold(c: Corpus, src: Source, values: CaseValues, want: string, where: SqlExpr)
    requires SourceCase(c, src, values, want) && ToSQL(src.where, EventTarget("sub", c.fsql)) == Ok(where)
    ensures LastRows(CaseMatches(c, src, want), Filter(c.table, CorrelatedRow(c, src, values, where)))
  {
    var ms, rows := CaseMatches(c, src, want), Filter(c.table, CorrelatedRow(c, src, values, where));
    CorrelatedAligned(c, src, values, want, where);
    forall i | 0 <= i < |ms| ensures RecordOf(ms[i], rows[i]) && At(rows[i], "time") == SInt(Time(ms[i])) {
      assert Pairing(c, src, values)(ms[i], rows[i]);
      MatchesFacts(c, src, values, want, i);
      TimeColumn(ms[i], rows[i]);
    }
  }

  /** The subquery's value, whichever tied row the engine picks, is what the aggregate remembers. */
  lemma LastMirrors(c: Corpus, src: Source, values: CaseValues, want: string, where: SqlExpr, f: Path)
    requires SourceCase(c, src, values, want) && ToSQL(src.where, EventTarget("sub", c.fsql)) == Ok(where)
    requires CaseMatches(c, src, want) != [] && f in src.trackLast &&
      LastSound(CaseMatches(c, src, want), src.trackLast, FlatName(f))
    ensures Encodes(
      LastValue(LastColumn(FlatName(f), where, "last_" + FlatName(f)), FlatNames(src.groupBy),
        KeyRecord(values, src.groupBy), c.table, c.eng),
      Remembered(CaseMatches(c, src, want), src.trackLast, FlatName(f)))
  {
    LastRowsHold(c, src, values, want, where);
    LastValueEncodes(CaseMatches(c, src, want), c, src, values, where, f);
  }

  lemma LastValueEncodes(ms: seq<Event>, c: Corpus, src: Source, values: CaseValues, where: SqlExpr, f: Path)
    requires LastRows(ms, Filter(c.table, CorrelatedRow(c, src, values, where)))
    requires ms != [] && f in src.trackLast && LastSound(ms, src.trackLast, FlatName(f))
    ensures Encodes(
      LastValue(LastColumn(FlatName(f), where, "last_" + FlatName(f)), FlatNames(src.groupBy),
        KeyRecord(values, src.groupBy), c.table, c.eng),
      Remembered(ms, src.trackLast, FlatName(f)))
  {
    var rows := Filter(c.table, CorrelatedRow(c, src, values, where));
    RememberedNewest(ms, rows, src.trackLast, f, c.eng);
    var newest := Filter(rows, TimeIs(SqlMax(rows, "time", c.eng)));
    assert newest[c.eng.firstOfTied(newest) % |newest|] in newest;
  }

  lemma {:induction false} GroupValuesAt(values: CaseValues, fields: seq<Path>)
    requires Carries(values, fields) && AliasesDistinct(fields)
    ensures forall c :: c in GroupValuesOf(values, fields) <==> c in FlatNames(fields)
    ensures forall f :: f in fields ==>
      FlatName(f) in GroupValuesOf(values, fields) && GroupValuesOf(values, fields)[FlatName(f)] == values[f]
  {
    if fields != [] {
      var n := |fields| - 1;
      GroupValuesAt(values, fields[..n]);
      assert fields == fields[..n] + [fields[n]];
      assert FlatNames(fields) == FlatNames(fields[..n]) + [FlatName(fields[n])];
    }
  }

  // ----- the whole row -----

  lemma OutputNamesApart(x: string)
    ensures HasPrefix("distinct_" + x, "distinct_") && !HasPrefix("distinct_" + x, "last_")
    ensures "distinct_" + x !in {"count", "first_ts", "last_ts"}
    ensures HasPrefix("last_" + x, "last_") && !HasPrefix("last_" + x, "distinct_")
    ensures x != "ts" ==> "last_" + x !in {"count", "first_ts", "last_ts"}
    ensures !HasPrefix("count", "last_") && !HasPrefix("count", "distinct_")
    ensures !HasPrefix("first_ts", "last_") && !HasPrefix("first_ts", "distinct_") && !HasPrefix("last_ts", "distinct_")
  {
    assert ("distinct_" + x)[0] == 'd' && ("last_" + x)[0] == 'l';
    assert ("last_" + x)[5..] == x && "last_ts"[5..] == "ts";
  }

  /** A key without reserved names hides none of the computed columns, nor do they hide each other. */
  lemma ComposedColumns(last: Record, distinct: Record, basic: Record, key: Record, x: string)
    requires forall n :: n in last ==> HasPrefix(n, "last_")
    requires forall n :: n in distinct ==> HasPrefix(n, "distinct_")
    requires basic.Keys == {"count", "first_ts", "last_ts"}
    requires forall n :: n in key ==> !ReservedOutput(n)
    ensures At(last + distinct + basic + key, "count") == basic["count"]
    ensures At(last + distinct + basic + key, "first_ts") == basic["first_ts"]
    ensures At(last + distinct + basic + key, "last_ts") == basic["last_ts"]
    ensures At(last + distinct + basic + key, "distinct_" + x) == At(distinct, "distinct_" + x)
    ensures x != "ts" ==> At(last + distinct + basic + key, "last_" + x) == At(last, "last_" + x)
    ensures x in key ==> At(last + distinct + basic + key, x) == key[x]
  {
    OutputNamesApart(x);
    assert HasPrefix("last_ts", "last_") by { OutputNamesApart("ts"); assert "last_" + "ts" == "last_ts"; }
  }

  lemma KeyUnreserved(events: seq<Event>, values: CaseValues, fields: seq<Path>)
    requires GroupFields(events, fields)
    ensures forall n :: n in KeyRecord(values, fields) ==> !ReservedOutput(n)
    ensures forall f :: f in fields ==> FlatName(f) in KeyRecord(values, fields)
    ensures forall f :: f in fields ==> At(KeyRecord(values, fields), FlatName(f)) == Store(ValueOf(values, f))
  {
    KeyRecordAt(values, fields);
    forall n | n in KeyRecord(values, fields) ensures !ReservedOutput(n) {
      var f := PathNamed(fields, n);
    }
    forall f | f in fields ensures FlatName(f) in KeyRecord(values, fields) { NameListed(fields, f); }
  }

  lemma GroupAlignedRows(c: Corpus, src: Source, values: CaseValues, want: string, where: SqlExpr)
    requires SourceCase(c, src, values, want) && ToSQL(src.where, EventTarget("", c.fsql)) == Ok(where)
    ensures Aligned(CaseMatches(c, src, want), CaseGroup(c, src, values, where), (e, r) => RecordOf(e, r))
  {
    GroupAligned(c, src, values, want, where);
    var ms, group := CaseMatches(c, src, want), CaseGroup(c, src, values, where);
    forall i | 0 <= i < |ms| ensures RecordOf(ms[i], group[i]) { assert Pairing(c, src, values)(ms[i], group[i]); }
  }

  lemma GroupTimes(c: Corpus, src: Source, values: CaseValues, want: string, where: SqlExpr)
    requires SourceCase(c, src, values, want) && ToSQL(src.where, EventTarget("", c.fsql)) == Ok(where)
    requires CaseMatches(c, src, want) != []
    ensures var ms, group := CaseMatches(c, src, want), CaseGroup(c, src, values, where);
      && |group| == |ms|
      && SqlMin(group, "time", c.eng) == SInt(MinTime(ms)) &&
        SqlMax(group, "time", c.eng) == SInt(LatestOf(ms, src.trackLast).ts)
  {
    var ms, group := CaseMatches(c, src, want), CaseGroup(c, src, values, where);
    GroupAlignedRows(c, src, values, want, where);
    forall i | 0 <= i < |ms| ensures Timed(ms[i]) && At(group[i], "time") == SInt(Time(ms[i])) {
      MatchesFacts(c, src, values, want, i);
      assert RecordOf(ms[i], group[i]);
      TimeColumn(ms[i], group[i]);
    }
    TimeRange(ms, group, c.eng);
    LatestMeaning(ms, src.trackLast);
  }

  lemma DistinctColumnMirrors(c: Corpus, src: Source, values: CaseValues, want: string, where: SqlExpr, x: string)
    requires SourceCase(c, src, values, want) && ToSQL(src.where, EventTarget("", c.fsql)) == Ok(where)
    requires DistinctSound(CaseMatches(c, src, want), src.trackDistinct, x)
    ensures var v :=
      At(DistinctOutputs(DistinctColumns(src.trackDistinct), CaseGroup(c, src, values, where)), "distinct_" + x);
      var counts := DistinctCounts(CaseMatches(c, src, want), src.trackDistinct);
      (if v == SNull then SInt(0) else v) == SInt(if x in counts then counts[x] else 0)
  {
    var group := CaseGroup(c, src, values, where);
    GroupAlignedRows(c, src, values, want, where);
    DistinctMirrors(CaseMatches(c, src, want), src.trackDistinct, group, x);
    DistinctOutputsAt(src.trackDistinct, group, x);
  }

  lemma LastColumnMirrors(c: Corpus, src: Source, values: CaseValues, want: string, ls: seq<LastColumn>, x: string)
    requires SourceCase(c, src, values, want) && CompileLasts(src, src.trackLast, c.fsql) == Ok(ls)
    requires CaseMatches(c, src, want) != [] && LastSound(CaseMatches(c, src, want), src.trackLast, x)
    ensures Encodes(
      At(LastOutputs(ls, FlatNames(src.groupBy), KeyRecord(values, src.groupBy), c.table, c.eng), "last_" + x),
      Remembered(CaseMatches(c, src, want), src.trackLast, x))
  {
    LastOutputsAt(src, src.trackLast, c.fsql, FlatNames(src.groupBy), KeyRecord(values, src.groupBy), c.table, c.eng,
      x);
    LatestKeys(CaseMatches(c, src, want), src.trackLast);
    if x in FlatNames(src.trackLast) {
      var f := PathNamed(src.trackLast, x);
      LastMirrors(c, src, values, want, ToSQL(src.where, EventTarget("sub", c.fsql)).value, f);
    }
  }

  /** What the row's distinct and last columns have to say, wherever both sides read them alike. */
  ghost predicate DistinctsHold(agg: Aggregate, distinct: Record, src: Source, ms: seq<Event>) {
    forall x :: DistinctSound(ms, src.trackDistinct, x) ==>
      (if At(distinct, "distinct_" + x) == SNull then SInt(0) else At(distinct, "distinct_" + x)) ==
        SInt(DistinctOr0(agg, x))
  }

  ghost predicate LastsHold(agg: Aggregate, last: Record, src: Source, ms: seq<Event>) {
    forall x :: LastSound(ms, src.trackLast, x) ==> Encodes(At(last, "last_" + x), LastOrNull(agg, x))
  }

  lemma DistinctsMirror(c: Corpus, src: Source, values: CaseValues, want: string, cte: Cte, agg: Aggregate)
    requires SourceCase(c, src, values, want) && CompileSource(src, c.fsql) == Ok(cte)
    requires agg.distinct == DistinctCounts(CaseMatches(c, src, want), src.trackDistinct)
    ensures DistinctsHold(agg, DistinctOutputs(cte.distincts, CaseGroup(c, src, values, cte.where)), src,
      CaseMatches(c, src, want))
  {
    var distinct := DistinctOutputs(cte.distincts, CaseGroup(c, src, values, cte.where));
    forall x | DistinctSound(CaseMatches(c, src, want), src.trackDistinct, x)
      ensures (if At(distinct, "distinct_" + x) == SNull then SInt(0) else At(distinct, "distinct_" + x)) ==
        SInt(DistinctOr0(agg, x))
    {
      DistinctColumnMirrors(c, src, values, want, cte.where, x);
    }
  }

  lemma LastsMirror(c: Corpus, src: Source, values: CaseValues, want: string, cte: Cte, agg: Aggregate)
    requires SourceCase(c, src, values, want) && CompileSource(src, c.fsql) == Ok(cte) &&
      CaseMatches(c, src, want) != []
    requires agg.last == LatestOf(CaseMatches(c, src, want), src.trackLast).last
    ensures LastsHold(agg, LastOutputs(cte.lasts, cte.groupBy, KeyRecord(values, src.groupBy), c.table, c.eng), src,
      CaseMatches(c, src, want))
  {
    forall x | LastSound(CaseMatches(c, src, want), src.trackLast, x)
      ensures Encodes(At(LastOutputs(cte.lasts, cte.groupBy, KeyRecord(values, src.groupBy), c.table, c.eng),
        "last_" + x), LastOrNull(agg, x))
    {
      LastColumnMirrors(c, src, values, want, cte.lasts, x);
    }
  }

  lemma RowComposed(c: Corpus, src: Source, values: CaseValues, ms: seq<Event>, cte: Cte, agg: Aggregate,
      group: seq<Record>)
    requires GroupFields(c.events, src.groupBy) && CompileSource(src, c.fsql) == Ok(cte)
    requires group == CaseGroup(c, src, values, cte.where) && |group| == agg.count
    requires SqlMin(group, "time", c.eng) == SInt(agg.firstTS) && SqlMax(group, "time", c.eng) == SInt(agg.lastTS)
    requires DistinctsHold(agg, DistinctOutputs(cte.distincts, group), src, ms)
    requires LastsHold(agg, LastOutputs(cte.lasts, cte.groupBy, KeyRecord(values, src.groupBy), c.table, c.eng), src,
      ms)
    ensures Mirrors(agg, SourceRecord(c, src, cte, values), values, src, ms)
  {
    var key := KeyRecord(values, src.groupBy);
    var last, distinct :=
      LastOutputs(cte.lasts, cte.groupBy, key, c.table, c.eng), DistinctOutputs(cte.distincts, group);
    var basic: Record :=
      map["count" := SInt(|group|), "first_ts" := SqlMin(group, "time", c.eng),
          "last_ts" := SqlMax(group, "time", c.eng)];
    LastOutputsAt(src, src.trackLast, c.fsql, cte.groupBy, key, c.table, c.eng, "");
    DistinctOutputsAt(src.trackDistinct, group, "");
    KeyUnreserved(c.events, values, src.groupBy);
    MirrorsComposed(agg, last, distinct, basic, key, values, src, ms);
  }

  lemma AggregateIs(c: Corpus, src: Source, values: CaseValues, want: string, agg: Aggregate)
    requires GroupKey(CaseGetter(values), src.groupBy) == Some(want)
    requires AggregateFor(c.events, src, values, c.funcs) == Ok(agg)
    ensures agg == AggregateOf(CaseMatches(c, src, want), src, GroupValuesOf(values, src.groupBy))
  {}

  /** The CTE's row for a case with matches holds the Go aggregate, column by column. */
  lemma RowMirrors(c: Corpus, src: Source, values: CaseValues, want: string, cte: Cte, agg: Aggregate)
    requires SourceCase(c, src, values, want) && CompileSource(src, c.fsql) == Ok(cte)
    requires AggregateFor(c.events, src, values, c.funcs) == Ok(agg) && agg.count > 0
    ensures Mirrors(agg, SourceRecord(c, src, cte, values), values, src, CaseMatches(c, src, want))
  {
    var ms, group := CaseMatches(c, src, want), CaseGroup(c, src, values, cte.where);
    AggregateIs(c, src, values, want, agg);
    DistinctsMirror(c, src, values, want, cte, agg);
    LastsMirror(c, src, values, want, cte, agg);
    GroupTimes(c, src, values, want, cte.where);
    RowComposed(c, src, values, ms, cte, agg, group);
  }

  lemma MirrorsComposed(agg: Aggregate, last: Record, distinct: Record, basic: Record, key: Record, values: CaseValues,
      src: Source, ms: seq<Event>)
    requires forall n :: n in last ==> HasPrefix(n, "last_")
    requires forall n :: n in distinct ==> HasPrefix(n, "distinct_")
    requires basic == map["count" := SInt(agg.count), "first_ts" := SInt(agg.firstTS), "last_ts" := SInt(agg.lastTS)]
    requires forall n :: n in key ==> !ReservedOutput(n)
    requires DistinctsHold(agg, distinct, src, ms) && LastsHold(agg, last, src, ms)
    requires forall f :: f in src.groupBy ==> FlatName(f) in key && At(key, FlatName(f)) == Store(ValueOf(values, f))
    ensures Mirrors(agg, last + distinct + basic + key, values, src, ms)
  {
    var rec := last + distinct + basic + key;
    forall x ensures At(rec, "distinct_" + x) == At(distinct, "distinct_" + x) {
      ComposedColumns(last, distinct, basic, key, x);
    }
    forall x | x != "ts" ensures At(rec, "last_" + x) == At(last, "last_" + x) {
      ComposedColumns(last, distinct, basic, key, x);
    }
    forall f | f in src.groupBy ensures At(rec, FlatName(f)) == Store(ValueOf(values, f)) {
      ComposedColumns(last, distinct, basic, key, FlatName(f));
    }
    ComposedColumns(last, distinct, basic, key, "");
  }
}
