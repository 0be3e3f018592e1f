/** One source, seen from both sides: a case's Go aggregate against its GROUP BY row. */
module CdlGroups {
  import opened Common
  import opened Seqs
  import opened CdlExpr
  import opened CdlEvents
  import opened CdlAggregate
  import opened CdlStreaming
  import opened CdlSql
  import opened CdlCompile
  import opened CdlQuery

  // ----- conditions on events -----

  /** A field both sides read alike: nothing, or a scalar under a column of its own. */
  ghost predicate Readable(ev: Event, p: Path) {
    Unaliased(ev, p) && (Resolve(ev, p).None? || IsScalar(Resolve(ev, p).value))
  }

  ghost function EventScope(ev: Event, calls: (string, seq<Node>) -> bool): Scope {
    Scope(p => Readable(ev, p), calls)
  }

  /** Every event carries an int64 time above the minimum, under its own column. */
  ghost predicate Timed(ev: Event) {
    Unaliased(ev, ["time"]) && Resolve(ev, ["time"]) == Some(Int(Time(ev))) && IsInt64(Time(ev)) && Time(ev) > MIN_INT64
  }

  /** Where a group_by field is present it holds identity-like scalars of one kind. */
  ghost predicate KeyField(events: seq<Event>, f: Path) {
    && (forall e :: e in events ==> Unaliased(e, f) && (Resolve(e, f).Some? ==> IsKeyScalar(Resolve(e, f).value)))
    && (forall d, e :: d in events && e in events && Resolve(d, f).Some? && Resolve(e, f).Some? ==>
          SameKind(Resolve(d, f).value, Resolve(e, f).value))
  }

  predicate ReservedOutput(c: string) {
    c == "count" || c == "first_ts" || HasPrefix(c, "distinct_") || HasPrefix(c, "last_")
  }

  predicate WhereHolds(ev: Event, src: Source, funcs: Funcs) {
    EvalBool(src.where, EventContext(ev, funcs)) == Ok(true)
  }

  predicate Matched(events: seq<Event>, e: Event, src: Source, funcs: Funcs) {
    e in events && WhereHolds(e, src, funcs)
  }

  /** Where the where clause can be evaluated, SQL finds it true exactly when Eval does; fields may be missing. */
  ghost predicate WhereConsistent(events: seq<Event>, src: Source, funcs: Funcs, calls: (string, seq<Node>) -> bool) {
    forall e :: e in events ==> WhereSided(e, src, funcs, calls)
  }

  ghost predicate WhereSided(e: Event, src: Source, funcs: Funcs, calls: (string, seq<Node>) -> bool) {
    EvalBool(src.where, EventContext(e, funcs)).Ok? ==>
      Sided(src.where, true, EventContext(e, funcs), EventScope(e, calls))
  }

  ghost predicate GroupFields(events: seq<Event>, fields: seq<Path>) {
    && fields != []
    && (forall f :: f in fields ==> KeyField(events, f) && !ReservedOutput(FlatName(f)))
    && AliasesDistinct(fields)
  }

  /** The events, the table loaded from them, and the two function registries. */
  datatype Corpus = Corpus(
    events: seq<Event>, table: seq<Record>,
    funcs: Funcs, fsql: FuncsSQL, calls: (string, seq<Node>) -> bool, eng: Engine)

  // ----- one row -----

  /** A missing field reads as null. */
  function Read(ev: Event, p: Path): Value { match Resolve(ev, p) case Some(v) => v case None => Null }

  /** A column holds the stored value of the field, or NULL. */
  lemma RecordReads(ev: Event, rec: Record, p: Path)
    requires RecordOf(ev, rec) && Unaliased(ev, p)
    ensures At(rec, FlatName(p)) == Store(Read(ev, p))
  {
    var flat :| FlattenOf(ev, "", map[], flat) && (forall c :: c in flat ==> Storable(flat[c])) &&
      rec == map c | c in flat :: Store(flat[c]);
    FlatReads(ev, flat, p);
    assert At(rec, FlatName(p)) == if FlatName(p) in flat then Store(flat[FlatName(p)]) else SNull;
  }

  lemma FlatReads(ev: Event, flat: map<string, Value>, p: Path)
    requires FlattenOf(ev, "", map[], flat) && (forall c :: c in flat ==> Storable(flat[c])) && Unaliased(ev, p)
    ensures (if FlatName(p) in flat then Store(flat[FlatName(p)]) else SNull) == Store(Read(ev, p))
  {
    FlattenReadsBack(ev, flat, p);
  }

  lemma StoreEncodes(v: Value)
    requires IsScalar(v)
    ensures Encodes(Store(v), v)
  {}

  lemma QualifyReads(table: string, rec: Record, c: string)
    ensures Lookup(Qualify(table, rec), Column(table, c)) == At(rec, c)
  {}

  lemma EventLinked(ev: Event, rec: Record, table: string, funcs: Funcs, fsql: FuncsSQL,
      calls: (string, seq<Node>) -> bool, eng: Engine)
    requires RecordOf(ev, rec) && FunctionsAgree(funcs, fsql, calls, eng)
    ensures Linked(EventScope(ev, calls), EventContext(ev, funcs), EventTarget(table, fsql), Qualify(table, rec), eng)
  {
    var ctx, t, row := EventContext(ev, funcs), EventTarget(table, fsql), Qualify(table, rec);
    forall p | EventScope(ev, calls).ident(p) ensures IdentAgrees(p, ctx, t, row, eng) {
      RecordReads(ev, rec, p);
      QualifyReads(table, rec, FlatName(p));
      StoreEncodes(Read(ev, p));
    }
  }

  /** The CTE's WHERE keeps a row exactly when the streaming filter keeps the event. */
  lemma WherePreserved(ev: Event, rec: Record, table: string, src: Source, funcs: Funcs, fsql: FuncsSQL,
      calls: (string, seq<Node>) -> bool, eng: Engine)
    requires RecordOf(ev, rec) && FunctionsAgree(funcs, fsql, calls, eng)
    requires EvalBool(src.where, EventContext(ev, funcs)).Ok? && WhereSided(ev, src, funcs, calls)
    requires ToSQL(src.where, EventTarget(table, fsql)).Ok?
    ensures Holds(ToSQL(src.where, EventTarget(table, fsql)).value, Qualify(table, rec), eng) ==
      WhereHolds(ev, src, funcs)
  {
    EventLinked(ev, rec, table, funcs, fsql, calls, eng);
    SidePreserved(src.where, true, EventContext(ev, funcs), EventScope(ev, calls), EventTarget(table, fsql),
      Qualify(table, rec), eng);
  }

  // ----- keys -----

  predicate Carries(values: CaseValues, fields: seq<Path>) {
    forall f :: f in fields ==> f in values && IsKeyScalar(values[f])
  }

  function ValueOf(values: CaseValues, f: Path): Value { if f in values then values[f] else Null }

  /** The GROUP BY key of a case on some of its fields. */
  function KeyRecord(values: CaseValues, fields: seq<Path>): Record {
    if fields == [] then map[]
    else
      var n := |fields| - 1;
      KeyRecord(values, fields[..n])[FlatName(fields[n]) := Store(ValueOf(values, fields[n]))]
  }

  lemma {:induction false} KeyRecordAt(values: CaseValues, fields: seq<Path>)
    requires AliasesDistinct(fields)
    ensures forall c :: c in KeyRecord(values, fields) <==> c in FlatNames(fields)
    ensures forall f :: f in fields ==> At(KeyRecord(values, fields), FlatName(f)) == Store(ValueOf(values, f))
  {
    if fields != [] {
      var n := |fields| - 1;
      KeyRecordAt(values, fields[..n]);
      assert fields == fields[..n] + [fields[n]];
      assert FlatNames(fields) == FlatNames(fields[..n]) + [FlatName(fields[n])];
    }
  }

  /** The values of the case come from some event of the corpus. */
  ghost predicate FromCorpus(events: seq<Event>, values: CaseValues, fields: seq<Path>) {
    && Carries(values, fields)
    && exists d :: d in events && CarriesCase(d, values, fields)
  }

  lemma StoreInjective(a: Value, b: Value)
    requires SameKind(a, b)
    ensures Store(a) == Store(b) <==> a == b
  {}

  predicate CarriesCase(ev: Event, values: CaseValues, fields: seq<Path>) {
    forall f :: f in fields ==> Resolve(ev, f) == Some(ValueOf(values, f))
  }

  lemma KeyStringMembership(events: seq<Event>, ev: Event, fields: seq<Path>, values: CaseValues)
    requires ev in events && GroupFields(events, fields) && FromCorpus(events, values, fields)
    ensures GroupKey(EventGetter(ev), fields) == GroupKey(CaseGetter(values), fields) <==>
      CarriesCase(ev, values, fields)
  {
    if forall f :: f in fields ==> Resolve(ev, f).Some? {
      var d :| d in events && CarriesCase(d, values, fields);
      forall f | f in fields
        ensures IsKeyScalar(Resolve(ev, f).value) && SameKind(Resolve(ev, f).value, ValueOf(values, f))
      {
        assert KeyField(events, f);
        assert Resolve(d, f).Some?;
      }
      GroupKeyMeansTuple(EventGetter(ev), CaseGetter(values), fields);
    }
  }

  lemma ColumnMembership(events: seq<Event>, ev: Event, rec: Record, fields: seq<Path>, values: CaseValues, f: Path)
    requires ev in events && RecordOf(ev, rec) && GroupFields(events, fields) && FromCorpus(events, values, fields)
    requires f in fields
    ensures At(rec, FlatName(f)) == Store(ValueOf(values, f)) <==> Resolve(ev, f) == Some(ValueOf(values, f))
  {
    assert KeyField(events, f);
    RecordReads(ev, rec, f);
    if Resolve(ev, f).Some? {
      var d :| d in events && CarriesCase(d, values, fields);
      assert SameKind(Resolve(ev, f).value, Resolve(d, f).value);
      StoreInjective(Resolve(ev, f).value, ValueOf(values, f));
    }
  }

  lemma RecordsEqual(a: Record, b: Record, names: seq<string>)
    requires a.Keys == Elems(names) == b.Keys
    ensures a == b <==> forall i :: 0 <= i < |names| ==> At(a, names[i]) == At(b, names[i])
  {
    if forall i :: 0 <= i < |names| ==> At(a, names[i]) == At(b, names[i]) {
      forall c | c in a ensures a[c] == b[c] {
        var i :| 0 <= i < |names| && names[i] == c;
        assert At(a, names[i]) == At(b, names[i]);
      }
    }
  }

  lemma ColumnKeyMembership(events: seq<Event>, ev: Event, rec: Record, fields: seq<Path>, values: CaseValues)
    requires ev in events && RecordOf(ev, rec) && GroupFields(events, fields) && FromCorpus(events, values, fields)
    ensures KeyOfRecord(rec, FlatNames(fields)) == KeyRecord(values, fields) <==> CarriesCase(ev, values, fields)
  {
    var key, want, names := KeyOfRecord(rec, FlatNames(fields)), KeyRecord(values, fields), FlatNames(fields);
    KeyRecordAt(values, fields);
    RecordsEqual(key, want, names);
    forall i | 0 <= i < |fields|
      ensures At(key, names[i]) == At(want, names[i]) <==> Resolve(ev, fields[i]) == Some(ValueOf(values, fields[i]))
    {
      assert names[i] in names;
      ColumnMembership(events, ev, rec, fields, values, fields[i]);
    }
    if key == want {
      forall f | f in fields ensures Resolve(ev, f) == Some(ValueOf(values, f)) {
        var i :| 0 <= i < |fields| && fields[i] == f;
        assert At(key, names[i]) == At(want, names[i]);
      }
    }
  }

  /** An event is in a case's group by key string exactly when its row is by column values. */
  lemma GroupMembership(events: seq<Event>, ev: Event, rec: Record, src: Source, values: CaseValues, want: string)
    requires ev in events && RecordOf(ev, rec) && GroupFields(events, src.groupBy) &&
      FromCorpus(events, values, src.groupBy)
    requires GroupKey(CaseGetter(values), src.groupBy) == Some(want)
    ensures InGroup(ev, src, want) <==> KeyOfRecord(rec, FlatNames(src.groupBy)) == KeyRecord(values, src.groupBy)
    ensures InGroup(ev, src, want) <==> CarriesCase(ev, values, src.groupBy)
  {
    KeyStringMembership(events, ev, src.groupBy, values);
    ColumnKeyMembership(events, ev, rec, src.groupBy, values);
  }

  // ----- one group -----

  /** An event of the case's group next to its row. */
  ghost function Pairing(c: Corpus, src: Source, values: CaseValues): (Event, Record) -> bool
  {
    (e: Event, r: Record) => RecordOf(e, r) && Matched(c.events, e, src, c.funcs) && CarriesCase(e, values, src.groupBy)
  }

  ghost predicate CorpusOk(c: Corpus) {
    match c
    case Corpus(events, table, funcs, fsql, calls, eng) =>
      TableOf(events, table) && FunctionsAgree(funcs, fsql, calls, eng) && forall e :: e in events ==> Timed(e)
  }

  ghost predicate SourceOk(c: Corpus, src: Source) {
    match src
    case Source(_, groupBy, trackDistinct, trackLast) =>
      && GroupFields(c.events, groupBy) && WhereConsistent(c.events, src, c.funcs, c.calls)
      && AliasesDistinct(trackDistinct) && AliasesDistinct(trackLast)
  }

  /** The hypotheses of one source under one case. */
  ghost predicate SourceCase(c: Corpus, src: Source, values: CaseValues, want: string) {
    && CorpusOk(c) && SourceOk(c, src) && WhereTotal(c.events, src, c.funcs)
    && FromCorpus(c.events, values, src.groupBy) && GroupKey(CaseGetter(values), src.groupBy) == Some(want)
  }

  function CaseMatches(c: Corpus, src: Source, want: string): seq<Event> {
    Filter(c.events, Picker(src, want, c.funcs))
  }

  function CaseGroup(c: Corpus, src: Source, values: CaseValues, where: SqlExpr): seq<Record>
  {
    Filter(Filter(c.table, Admits(where, "", c.eng)),
      HasGroupKey(FlatNames(src.groupBy), KeyRecord(values, src.groupBy)))
  }

  /** What one event and its row have to do with a case. */
  lemma RowMembership(c: Corpus, src: Source, values: CaseValues, want: string, table: string, where: SqlExpr, i: nat)
    requires SourceCase(c, src, values, want) && i < |c.events|
    requires ToSQL(src.where, EventTarget(table, c.fsql)) == Ok(where)
    ensures i < |c.table| && RecordOf(c.events[i], c.table[i])
    ensures Holds(where, Qualify(table, c.table[i]), c.eng) == WhereHolds(c.events[i], src, c.funcs)
    ensures KeyOfRecord(c.table[i], FlatNames(src.groupBy)) == KeyRecord(values, src.groupBy) <==>
      CarriesCase(c.events[i], values, src.groupBy)
    ensures Picker(src, want, c.funcs)(c.events[i]) <==>
      WhereHolds(c.events[i], src, c.funcs) && CarriesCase(c.events[i], values, src.groupBy)
  {
    assert RecordOf(c.events[i], c.table[i]);
    WherePreserved(c.events[i], c.table[i], table, src, c.funcs, c.fsql, c.calls, c.eng);
    GroupMembership(c.events, c.events[i], c.table[i], src, values, want);
  }

  function GroupRow(c: Corpus, src: Source, values: CaseValues, where: SqlExpr): Record -> bool {
    Both(Admits(where, "", c.eng), HasGroupKey(FlatNames(src.groupBy), KeyRecord(values, src.groupBy)))
  }

  function CorrelatedRow(c: Corpus, src: Source, values: CaseValues, where: SqlExpr): Record -> bool {
    Correlated(where, FlatNames(src.groupBy), KeyRecord(values, src.groupBy), c.eng)
  }

  /** A row predicate selects, position by position, what the streaming filter selects. */
  ghost predicate SameSelection(c: Corpus, src: Source, values: CaseValues, want: string, q: Record -> bool) {
    && |c.events| == |c.table|
    && forall i :: 0 <= i < |c.events| ==>
         && Picker(src, want, c.funcs)(c.events[i]) == q(c.table[i])
         && (Picker(src, want, c.funcs)(c.events[i]) ==> Pairing(c, src, values)(c.events[i], c.table[i]))
  }

  lemma SelectionAligned(c: Corpus, src: Source, values: CaseValues, want: string, q: Record -> bool)
    requires SameSelection(c, src, values, want, q)
    ensures Aligned(CaseMatches(c, src, want), Filter(c.table, q), Pairing(c, src, values))
  {
    FilterAligned(c.events, c.table, Picker(src, want, c.funcs), q, (e, r) => true, Pairing(c, src, values));
  }

  lemma GroupRowIs(c: Corpus, src: Source, values: CaseValues, where: SqlExpr, r: Record)
    ensures GroupRow(c, src, values, where)(r) <==>
      Holds(where, Qualify("", r), c.eng) && KeyOfRecord(r, FlatNames(src.groupBy)) == KeyRecord(values, src.groupBy)
  {}

  lemma GroupRowAt(c: Corpus, src: Source, values: CaseValues, want: string, where: SqlExpr, i: nat)
    requires SourceCase(c, src, values, want) && ToSQL(src.where, EventTarget("", c.fsql)) == Ok(where) &&
      i < |c.events|
    ensures i < |c.table| && Picker(src, want, c.funcs)(c.events[i]) == GroupRow(c, src, values, where)(c.table[i])
    ensures Picker(src, want, c.funcs)(c.events[i]) ==> Pairing(c, src, values)(c.events[i], c.table[i])
  {
    RowMembership(c, src, values, want, "", where, i);
    GroupRowIs(c, src, values, where, c.table[i]);
  }

  lemma GroupSelection(c: Corpus, src: Source, values: CaseValues, want: string, where: SqlExpr)
    requires SourceCase(c, src, values, want) && ToSQL(src.where, EventTarget("", c.fsql)) == Ok(where)
    ensures SameSelection(c, src, values, want, GroupRow(c, src, values, where))
  {
    forall i: nat | i < |c.events|
      ensures i < |c.table| && Picker(src, want, c.funcs)(c.events[i]) == GroupRow(c, src, values, where)(c.table[i])
      ensures Picker(src, want, c.funcs)(c.events[i]) ==> Pairing(c, src, values)(c.events[i], c.table[i])
    {
      GroupRowAt(c, src, values, want, where, i);
    }
  }

  lemma CorrelatedSelection(c: Corpus, src: Source, values: CaseValues, want: string, where: SqlExpr)
    requires SourceCase(c, src, values, want) && ToSQL(src.where, EventTarget("sub", c.fsql)) == Ok(where)
    ensures SameSelection(c, src, values, want, CorrelatedRow(c, src, values, where))
  {
    forall i: nat | i < |c.events|
      ensures i < |c.table| &&
        Picker(src, want, c.funcs)(c.events[i]) == CorrelatedRow(c, src, values, where)(c.table[i])
      ensures Picker(src, want, c.funcs)(c.events[i]) ==> Pairing(c, src, values)(c.events[i], c.table[i])
    {
      RowMembership(c, src, values, want, "sub", where, i);
      CorrelationMeans(c.events, c.events[i], c.table[i], src.groupBy, values, c.eng);
    }
  }

  /** The matches of a case, event by event, are the rows of its group. */
  lemma GroupAligned(c: Corpus, src: Source, values: CaseValues, want: string, where: SqlExpr)
    requires SourceCase(c, src, values, want) && ToSQL(src.where, EventTarget("", c.fsql)) == Ok(where)
    ensures Aligned(CaseMatches(c, src, want), CaseGroup(c, src, values, where), Pairing(c, src, values))
  {
    GroupSelection(c, src, values, want, where);
    SelectionAligned(c, src, values, want, GroupRow(c, src, values, where));
    FilterTwice(c.table, Admits(where, "", c.eng), HasGroupKey(FlatNames(src.groupBy), KeyRecord(values, src.groupBy)));
  }

  /** So are the rows the correlated subquery ranges over. */
  lemma CorrelatedAligned(c: Corpus, src: Source, values: CaseValues, want: string, where: SqlExpr)
    requires SourceCase(c, src, values, want) && ToSQL(src.where, EventTarget("sub", c.fsql)) == Ok(where)
    ensures Aligned(CaseMatches(c, src, want), Filter(c.table, CorrelatedRow(c, src, values, where)),
      Pairing(c, src, values))
  {
    CorrelatedSelection(c, src, values, want, where);
    SelectionAligned(c, src, values, want, CorrelatedRow(c, src, values, where));
  }

  lemma JoinMeans(events: seq<Event>, ev: Event, rec: Record, fields: seq<Path>, values: CaseValues, f: Path,
      eng: Engine)
    requires ev in events && RecordOf(ev, rec) && GroupFields(events, fields) && FromCorpus(events, values, fields)
    requires f in fields
    ensures JoinEqual(At(rec, FlatName(f)), Store(ValueOf(values, f)), eng) <==>
      Resolve(ev, f) == Some(ValueOf(values, f))
  {
    ColumnMembership(events, ev, rec, fields, values, f);
    assert KeyField(events, f);
    RecordReads(ev, rec, f);
  }

  lemma CorrelationMeans(events: seq<Event>, ev: Event, rec: Record, fields: seq<Path>, values: CaseValues, eng: Engine)
    requires ev in events && RecordOf(ev, rec) && GroupFields(events, fields) && FromCorpus(events, values, fields)
    ensures (forall c :: c in FlatNames(fields) ==> JoinEqual(At(rec, c), At(KeyRecord(values, fields), c), eng)) <==>
      CarriesCase(ev, values, fields)
  {
    var names, key := FlatNames(fields), KeyRecord(values, fields);
    KeyRecordAt(values, fields);
    forall f | f in fields
      ensures FlatName(f) in names
      ensures JoinEqual(At(rec, FlatName(f)), At(key, FlatName(f)), eng) <==> Resolve(ev, f) == Some(ValueOf(values, f))
    {
      var i :| 0 <= i < |fields| && fields[i] == f;
      assert names[i] == FlatName(f);
      JoinMeans(events, ev, rec, fields, values, f, eng);
    }
    forall c | c in names ensures exists f :: f in fields && FlatName(f) == c {
      var i :| 0 <= i < |names| && names[i] == c;
      assert fields[i] in fields;
    }
  }

  // ----- the aggregates of a group -----

  lemma TimeColumn(ev: Event, rec: Record)
    requires RecordOf(ev, rec) && Timed(ev)
    ensures At(rec, "time") == SInt(Time(ev))
  {
    assert FlatName(["time"]) == "time";
    RecordReads(ev, rec, ["time"]);
  }

  lemma {:induction false} TimeRange(ms: seq<Event>, group: seq<Record>, eng: Engine)
    requires ms != [] && |ms| == |group| && forall i :: 0 <= i < |ms| ==> At(group[i], "time") == SInt(Time(ms[i]))
    ensures SqlMin(group, "time", eng) == SInt(MinTime(ms)) && SqlMax(group, "time", eng) == SInt(MaxTime(ms))
  {
    var n := |ms| - 1;
    if n > 0 {
      TimeRange(ms[..n], group[..n], eng);
    } else {
      assert group[..n] == [];
    }
  }

  function RenderedSet(vs: seq<Option<Value>>): set<string> {
    set i | 0 <= i < |vs| && vs[i].Some? :: RenderScalar(vs[i].value)
  }

  function StoredSet(vs: seq<Option<Value>>): set<SqlValue> {
    set i | 0 <= i < |vs| && vs[i].Some? :: Store(vs[i].value)
  }

  ghost predicate OneKind(vs: seq<Option<Value>>) {
    forall i, j :: 0 <= i < |vs| && 0 <= j < |vs| && vs[i].Some? && vs[j].Some? ==> SameKind(vs[i].value, vs[j].value)
  }

  lemma SameMembership(us: seq<Option<Value>>, v: Value)
    requires OneKind(us) && forall i :: 0 <= i < |us| && us[i].Some? ==> SameKind(us[i].value, v)
    ensures RenderScalar(v) in RenderedSet(us) <==> Store(v) in StoredSet(us)
  {
    forall i | 0 <= i < |us| && us[i].Some?
      ensures Store(us[i].value) == Store(v) <==> RenderScalar(us[i].value) == RenderScalar(v)
    {
      StoreInjective(us[i].value, v);
      RenderInjective(us[i].value, v);
    }
  }

  lemma SetsSnoc(us: seq<Option<Value>>, x: Option<Value>)
    ensures RenderedSet(us + [x]) == RenderedSet(us) + (if x.Some? then {RenderScalar(x.value)} else {})
    ensures StoredSet(us + [x]) == StoredSet(us) + (if x.Some? then {Store(x.value)} else {})
  {
    var vs := us + [x];
    assert vs[|us|] == x && forall i :: 0 <= i < |us| ==> vs[i] == us[i];
    forall s | s in RenderedSet(us) ensures s in RenderedSet(vs) {
      var i :| 0 <= i < |us| && us[i].Some? && RenderScalar(us[i].value) == s;
      assert vs[i] == us[i];
    }
    forall s | s in StoredSet(us) ensures s in StoredSet(vs) {
      var i :| 0 <= i < |us| && us[i].Some? && Store(us[i].value) == s;
      assert vs[i] == us[i];
    }
  }

  lemma OneKindSplit(us: seq<Option<Value>>, x: Option<Value>)
    requires OneKind(us + [x])
    ensures OneKind(us)
    ensures x.Some? ==> forall i :: 0 <= i < |us| && us[i].Some? ==> SameKind(us[i].value, x.value)
  {
    var vs := us + [x];
    assert vs[|us|] == x && forall i :: 0 <= i < |us| ==> vs[i] == us[i];
  }

  /** For values of one kind, rendering and storing separate the same pairs. */
  lemma {:induction false} DistinctSizes(vs: seq<Option<Value>>)
    requires OneKind(vs)
    ensures |RenderedSet(vs)| == |StoredSet(vs)|
  {
    if vs != [] {
      var us, x := vs[..|vs| - 1], vs[|vs| - 1];
      assert vs == us + [x];
      OneKindSplit(us, x);
      DistinctSizes(us);
      SetsSnoc(us, x);
      if x.Some? { SameMembership(us, x.value); }
    }
  }

  function FieldValues(ms: seq<Event>, f: Path): (vs: seq<Option<Value>>)
    ensures |vs| == |ms| && forall i :: 0 <= i < |ms| ==> vs[i] == Resolve(ms[i], f)
  {
    seq(|ms|, i requires 0 <= i < |ms| => Resolve(ms[i], f))
  }

  /** What COUNT(DISTINCT) counts of a field: stored values other than NULL. */
  function StoredValues(ms: seq<Event>, f: Path): set<SqlValue> {
    set i | 0 <= i < |ms| && !Store(Read(ms[i], f)).SNull? :: Store(Read(ms[i], f))
  }

  lemma DistinctAgrees(ms: seq<Event>, group: seq<Record>, f: Path)
    requires Aligned(ms, group, (e, r) => RecordOf(e, r)) && forall i :: 0 <= i < |ms| ==> Unaliased(ms[i], f)
    ensures NonNull(group, FlatName(f)) == StoredValues(ms, f)
  {
    forall i | 0 <= i < |ms| ensures At(group[i], FlatName(f)) == Store(Read(ms[i], f)) {
      assert RecordOf(ms[i], group[i]);
      RecordReads(ms[i], group[i], f);
    }
  }

  /** Values of one kind are counted alike. */
  lemma OneKindCounts(ms: seq<Event>, f: Path)
    requires OneKind(FieldValues(ms, f))
    ensures |DistinctValues(ms, f)| == |StoredValues(ms, f)|
  {
    var vs := FieldValues(ms, f);
    DistinctSizes(vs);
    forall i | 0 <= i < |ms| && vs[i].Some?
      ensures !Store(vs[i].value).SNull?
    {
      assert SameKind(vs[i].value, vs[i].value);
    }
    assert DistinctValues(ms, f) == RenderedSet(vs);
    assert StoredValues(ms, f) == StoredSet(vs);
  }

  // ----- the tracked fields of a group that both sides read alike -----

  /** Both sides count as many distinct values under this alias. */
  ghost predicate DistinctSound(ms: seq<Event>, fields: seq<Path>, x: string) {
    forall f :: f in fields && FlatName(f) == x ==>
      (forall i :: 0 <= i < |ms| ==> Unaliased(ms[i], f)) && |DistinctValues(ms, f)| == |StoredValues(ms, f)|
  }

  function Remembered(ms: seq<Event>, fields: seq<Path>, x: string): Value {
    var last := LatestOf(ms, fields).last;
    if x in last then last[x] else Null
  }

  /** Every newest match, whichever of them the subquery returns, reads like what the single pass remembers. */
  ghost predicate LastSound(ms: seq<Event>, fields: seq<Path>, x: string) {
    match LatestOf(ms, fields)
    case Latest(_, _, last) =>
      forall f :: f in fields && FlatName(f) == x ==>
        forall i :: 0 <= i < |ms| && Time(ms[i]) == MaxTime(ms) ==>
          Unaliased(ms[i], f) && Encodes(Store(Read(ms[i], f)), if x in last then last[x] else Null)
  }

  /** Newest matches that tie agree on the field, and hold a plain scalar or nothing. */
  ghost predicate NewestAlike(ms: seq<Event>, f: Path) {
    forall i :: 0 <= i < |ms| && Time(ms[i]) == MaxTime(ms) ==>
      Readable(ms[i], f) && Resolve(ms[i], f) == Resolve(ms[LatestIndex(ms)], f)
  }

  lemma NewestDecides(ms: seq<Event>, fields: seq<Path>, f: Path)
    requires ms != [] && AliasesDistinct(fields) && f in fields && NewestAlike(ms, f)
    ensures LastSound(ms, fields, FlatName(f)) <==>
      Encodes(Store(Read(ms[LatestIndex(ms)], f)), Remembered(ms, fields, FlatName(f)))
  {
    assert Readable(ms[LatestIndex(ms)], f);
  }

  lemma NullEncodes(v: Value)
    ensures Encodes(SNull, v) <==> v == Null
  {}

  /**
   The tracked field agrees with its column exactly when the latest match carries it, or nothing was remembered (no
   match carried it that was the latest when it came), or what was remembered is null.
   */
  lemma LastAgreesExactly(ms: seq<Event>, fields: seq<Path>, f: Path)
    requires ms != [] && AliasesDistinct(fields) && f in fields && NewestAlike(ms, f)
    requires forall e :: e in ms ==> IsInt64(Time(e)) && Time(e) > MIN_INT64
    ensures LastSound(ms, fields, FlatName(f)) <==>
      Resolve(ms[LatestIndex(ms)], f).Some? || LastCapture(ms, f).None? ||
        Resolve(ms[LastCapture(ms, f).value], f) == Some(Null)
  {
    var k := LatestIndex(ms);
    NewestDecides(ms, fields, f);
    LatestMeaning(ms, fields);
    LatestCaptured(ms, f);
    assert CapturedAs(LatestOf(ms, fields).last, ms, f) && Readable(ms[k], f);
    StoreEncodes(Read(ms[k], f));
    NullEncodes(Remembered(ms, fields, FlatName(f)));
  }
}
