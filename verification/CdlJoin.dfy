/** GROUP BY keys against cases, and the LEFT JOIN of one anchor row with every other source. */
module CdlJoin {
  import opened Common
  import opened Seqs
  import opened CdlExpr
  import opened CdlEvents
  import opened CdlAggregate
  import opened CdlStreaming
  import opened CdlSql
  import opened CdlCompile
  import opened CdlQuery
  import opened CdlGroups
  import opened CdlGroupRecord

  // ----- the groups of a CTE -----

  lemma {:induction false} GroupKeysElems(rows: seq<Record>, cols: seq<string>)
    ensures NoDup(GroupKeys(rows, cols))
    ensures forall k :: k in GroupKeys(rows, cols) <==> exists i :: 0 <= i < |rows| && KeyOfRecord(rows[i], cols) == k
  {
    if rows != [] {
      var n := |rows| - 1;
      GroupKeysElems(rows[..n], cols);
      forall k: Record
        ensures KeyAmong(rows, cols, k) <==> KeyOfRecord(rows[n], cols) == k || KeyAmong(rows[..n], cols, k)
      {
        KeyWithLast(rows, cols, k);
      }
      assert forall k: Record :: k in GroupKeys(rows[..n], cols) <==> KeyAmong(rows[..n], cols, k);
      assert forall k: Record :: k in GroupKeys(rows, cols) <==> KeyAmong(rows, cols, k);
    }
  }

  ghost predicate KeyAmong(rows: seq<Record>, cols: seq<string>, k: Record) {
    exists i :: 0 <= i < |rows| && KeyOfRecord(rows[i], cols) == k
  }

  lemma KeyWithLast(rows: seq<Record>, cols: seq<string>, k: Record)
    requires rows != []
    ensures KeyAmong(rows, cols, k) <==>
      KeyOfRecord(rows[|rows| - 1], cols) == k || KeyAmong(rows[..|rows| - 1], cols, k)
  {
    var n := |rows| - 1;
    if i :| 0 <= i < n && KeyOfRecord(rows[i], cols) == k { assert rows[..n][i] == rows[i]; }
    if i :| 0 <= i < n && KeyOfRecord(rows[..n][i], cols) == k { assert rows[i] == rows[..n][i]; }
  }

  lemma FilterNonEmpty<T>(xs: seq<T>, p: T -> bool)
    ensures Filter(xs, p) != [] <==> exists i :: 0 <= i < |xs| && p(xs[i])
  {
    FilterElems(xs, p);
    if Filter(xs, p) != [] { assert Filter(xs, p)[0] in Filter(xs, p); }
    if i :| 0 <= i < |xs| && p(xs[i]) { assert xs[i] in xs; }
  }

  /** A case's key is among the CTE's groups exactly when the case has a match. */
  lemma KeyPresent(c: Corpus, src: Source, values: CaseValues, want: string, where: SqlExpr)
    requires SourceCase(c, src, values, want) && ToSQL(src.where, EventTarget("", c.fsql)) == Ok(where)
    ensures KeyRecord(values, src.groupBy) in GroupKeys(Filter(c.table, Admits(where, "", c.eng)),
      FlatNames(src.groupBy)) <==>
      CaseMatches(c, src, want) != []
  {
    var matching := Filter(c.table, Admits(where, "", c.eng));
    GroupAlignedRows(c, src, values, want, where);
    GroupKeysElems(matching, FlatNames(src.groupBy));
    FilterNonEmpty(matching, HasGroupKey(FlatNames(src.groupBy), KeyRecord(values, src.groupBy)));
  }

  // ----- joining one source -----

  /** Group columns of the table hold only integers, text or NULL. */
  ghost predicate PlainKeys(table: seq<Record>, cols: seq<string>) {
    forall r, n :: r in table && n in cols ==> At(r, n).SNull? || At(r, n).SInt? || At(r, n).SText?
  }

  lemma KeyColumnPlain(events: seq<Event>, e: Event, r: Record, f: Path)
    requires KeyField(events, f) && e in events && RecordOf(e, r)
    ensures At(r, FlatName(f)).SNull? || At(r, FlatName(f)).SInt? || At(r, FlatName(f)).SText?
  {
    RecordReads(e, r, f);
  }

  lemma ColumnsPlain(events: seq<Event>, table: seq<Record>, fields: seq<Path>)
    requires TableOf(events, table) && forall f :: f in fields ==> KeyField(events, f)
    ensures PlainKeys(table, FlatNames(fields))
  {
    forall r, n | r in table && n in FlatNames(fields) ensures At(r, n).SNull? || At(r, n).SInt? || At(r, n).SText? {
      var i :| 0 <= i < |table| && table[i] == r;
      var f := PathNamed(fields, n);
      KeyColumnPlain(events, events[i], r, f);
    }
  }

  lemma TableKeysPlain(c: Corpus, src: Source)
    requires CorpusOk(c) && SourceOk(c, src)
    ensures PlainKeys(c.table, FlatNames(src.groupBy))
  {
    ColumnsPlain(c.events, c.table, src.groupBy);
  }

  lemma JoinEqualPlain(a: SqlValue, b: SqlValue, eng: Engine)
    requires a.SInt? || a.SText?
    requires b.SNull? || b.SInt? || b.SText?
    ensures JoinEqual(a, b, eng) <==> a == b
  {}

  predicate PlainKey(key: Record) {
    forall n :: n in key ==> key[n].SNull? || key[n].SInt? || key[n].SText?
  }

  lemma GroupKeysPlain(table: seq<Record>, p: Record -> bool, cols: seq<string>)
    requires PlainKeys(table, cols)
    ensures forall k :: k in GroupKeys(Filter(table, p), cols) ==> PlainKey(k) && k.Keys == Elems(cols)
  {
    var rows := Filter(table, p);
    GroupKeysElems(rows, cols);
    FilterElems(table, p);
    forall k | k in GroupKeys(rows, cols) ensures PlainKey(k) && k.Keys == Elems(cols) {
      var i :| 0 <= i < |rows| && KeyOfRecord(rows[i], cols) == k;
      assert rows[i] in rows;
    }
  }

  /** The row's anchor columns carry the case's values. */
  predicate AnchorColumns(row: Row, anchor: string, values: CaseValues, fields: seq<Path>) {
    forall f :: f in fields ==> Lookup(row, Column(anchor, FlatName(f))) == Store(ValueOf(values, f))
  }

  /** ON matches exactly the record whose key is the case's. */
  lemma OnMeansKey(row: Row, anchor: string, values: CaseValues, fields: seq<Path>, key: Record, m: Record, eng: Engine)
    requires AnchorColumns(row, anchor, values, fields) && Carries(values, fields) && AliasesDistinct(fields)
    requires PlainKey(key) && key.Keys == Elems(FlatNames(fields))
    requires forall n :: n in key ==> At(m, n) == key[n]
    ensures OnMatches(row, anchor, FlatNames(fields), eng)(m) <==> key == KeyRecord(values, fields)
  {
    var names, want := FlatNames(fields), KeyRecord(values, fields);
    KeyRecordAt(values, fields);
    RecordsEqual(key, want, names);
    forall i | 0 <= i < |names|
      ensures JoinEqual(Lookup(row, Column(anchor, names[i])), At(m, names[i]), eng) <==>
        At(key, names[i]) == At(want, names[i])
    {
      assert names[i] in names && fields[i] in fields;
      JoinEqualPlain(Store(ValueOf(values, fields[i])), key[names[i]], eng);
    }
    if OnMatches(row, anchor, names, eng)(m) {
      forall i | 0 <= i < |names| ensures At(key, names[i]) == At(want, names[i]) { assert names[i] in names; }
    }
    if key == want {
      forall n | n in names ensures JoinEqual(Lookup(row, Column(anchor, n)), At(m, n), eng) {
        var i :| 0 <= i < |names| && names[i] == n;
      }
    }
  }

  /** Every group's row repeats its key. */
  lemma RecordHasKey(cte: Cte, key: Record, table: seq<Record>, matching: seq<Record>, eng: Engine)
    ensures forall n :: n in key ==> At(GroupRecord(cte, key, table, matching, eng), n) == key[n]
  {}

  /** The rows of a source that join with a case's anchor row: its own group's row, or none. */
  lemma JoinMatches(c: Corpus, src: Source, values: CaseValues, want: string, cte: Cte, row: Row, anchor: string)
    requires SourceCase(c, src, values, want) && CompileSource(src, c.fsql) == Ok(cte)
    requires AnchorColumns(row, anchor, values, src.groupBy)
    ensures Filter(EvalCte(cte, c.table, c.eng), OnMatches(row, anchor, FlatNames(src.groupBy), c.eng)) ==
      if CaseMatches(c, src, want) != [] then [SourceRecord(c, src, cte, values)] else []
  {
    var matching := Filter(c.table, Admits(cte.where, "", c.eng));
    var keys := GroupKeys(matching, cte.groupBy);
    KeyPresent(c, src, values, want, cte.where);
    TableKeysPlain(c, src);
    GroupKeysPlain(c.table, Admits(cte.where, "", c.eng), cte.groupBy);
    GroupKeysElems(matching, cte.groupBy);
    FilterOwnGroup(c, src, values, cte, row, anchor, keys, matching);
  }

  lemma FilterOwnGroup(c: Corpus, src: Source, values: CaseValues, cte: Cte, row: Row, anchor: string,
      keys: seq<Record>, matching: seq<Record>)
    requires Carries(values, src.groupBy) && AliasesDistinct(src.groupBy) && cte.groupBy == FlatNames(src.groupBy)
    requires AnchorColumns(row, anchor, values, src.groupBy) && NoDup(keys)
    requires forall k :: k in keys ==> PlainKey(k) && k.Keys == Elems(cte.groupBy)
    ensures Filter(GroupRecords(cte, keys, c.table, matching, c.eng),
      OnMatches(row, anchor, FlatNames(src.groupBy), c.eng)) ==
      if KeyRecord(values, src.groupBy) in keys then
        [GroupRecord(cte, KeyRecord(values, src.groupBy), c.table, matching, c.eng)] else []
  {
    OnlyOwnGroup(c, src, values, cte, row, anchor, keys, matching);
    var want := KeyRecord(values, src.groupBy);
    FilterByKey(keys, GroupRecords(cte, keys, c.table, matching, c.eng),
      OnMatches(row, anchor, FlatNames(src.groupBy), c.eng), want,
      GroupRecord(cte, want, c.table, matching, c.eng));
  }

  lemma OnlyOwnGroup(c: Corpus, src: Source, values: CaseValues, cte: Cte, row: Row, anchor: string, keys: seq<Record>,
      matching: seq<Record>)
    requires Carries(values, src.groupBy) && AliasesDistinct(src.groupBy) && cte.groupBy == FlatNames(src.groupBy)
    requires AnchorColumns(row, anchor, values, src.groupBy)
    requires forall k :: k in keys ==> PlainKey(k) && k.Keys == Elems(cte.groupBy)
    ensures forall i :: 0 <= i < |keys| ==>
      (OnMatches(row, anchor, FlatNames(src.groupBy), c.eng)(GroupRecord(cte, keys[i], c.table, matching, c.eng)) <==>
        keys[i] == KeyRecord(values, src.groupBy))
  {
    forall i | 0 <= i < |keys|
      ensures OnMatches(row, anchor, FlatNames(src.groupBy),
        c.eng)(GroupRecord(cte, keys[i], c.table, matching, c.eng)) <==>
        keys[i] == KeyRecord(values, src.groupBy)
    {
      assert keys[i] in keys;
      var m := GroupRecord(cte, keys[i], c.table, matching, c.eng);
      RecordHasKey(cte, keys[i], c.table, matching, c.eng);
      OnMeansKey(row, anchor, values, src.groupBy, keys[i], m, c.eng);
    }
  }

  // ----- joining all sources -----

  /** What each source contributes to one anchor record: its own row, or nothing. */
  datatype Plan = Plan(anchor: string, anchorRec: Record, own: map<string, seq<Record>>)

  predicate RowAt(row: Row, table: string, rec: Record) {
    forall c :: c in rec ==> Lookup(row, Column(table, c)) == rec[c]
  }

  function OwnAt(plan: Plan, n: string, col: string): SqlValue {
    if n in plan.own && plan.own[n] != [] then At(plan.own[n][0], col) else SNull
  }

  /** The join with a source finds its own row only. */
  ghost predicate FindsOwn(plan: Plan, j: Join, recs: seq<Record>, eng: Engine) {
    j.name in plan.own && |plan.own[j.name]| <= 1 &&
    forall row {:trigger OnMatches(row, plan.anchor, j.on, eng)} ::
      RowAt(row, plan.anchor, plan.anchorRec) ==>
        Filter(recs, OnMatches(row, plan.anchor, j.on, eng)) == plan.own[j.name]
  }

  ghost predicate Contributes(plan: Plan, row: Row, done: set<string>) {
    forall n, col :: n in done ==> Lookup(row, Column(n, col)) == OwnAt(plan, n, col)
  }

  ghost predicate Absent(row: Row, n: string) { forall col :: Column(n, col) !in row }

  lemma JoinOne(plan: Plan, row: Row, j: Join, recs: seq<Record>, eng: Engine, done: set<string>) returns (row': Row)
    requires FindsOwn(plan, j, recs, eng) && RowAt(row, plan.anchor, plan.anchorRec) && j.name != plan.anchor
    requires Contributes(plan, row, done) && Absent(row, j.name) && j.name !in done
    ensures JoinRow(row, plan.anchor, j, recs, eng) == [row']
    ensures Contributes(plan, row', done + {j.name}) && RowAt(row', plan.anchor, plan.anchorRec)
    ensures forall n :: n != j.name && Absent(row, n) ==> Absent(row', n)
  {
    row' := if plan.own[j.name] == [] then row else row + Qualify(j.name, plan.own[j.name][0]);
    assert Filter(recs, OnMatches(row, plan.anchor, j.on, eng)) == plan.own[j.name];
  }

  predicate DistinctJoins(joins: seq<Join>) { forall i, k :: 0 <= i < k < |joins| ==> joins[i].name != joins[k].name }

  function JoinNames(joins: seq<Join>): set<string> { set j | j in joins :: j.name }

  /** One anchor row stays one row through every LEFT JOIN, each adding its source's columns. */
  lemma {:induction false} JoinPlan(plan: Plan, row: Row, joins: seq<Join>, results: map<string, seq<Record>>,
      eng: Engine, done: set<string>) returns (row': Row)
    requires RowAt(row, plan.anchor, plan.anchorRec) && Contributes(plan, row, done) && DistinctJoins(joins)
    requires forall j :: j in joins ==>
      j.name in results && FindsOwn(plan, j, results[j.name], eng) && j.name != plan.anchor && j.name !in done &&
        Absent(row, j.name)
    ensures JoinAll([row], plan.anchor, joins, results, eng) == [row']
    ensures Contributes(plan, row', done + JoinNames(joins))
    decreases joins
  {
    if joins == [] {
      row' := row;
      assert done + JoinNames(joins) == done;
    } else {
      var j := joins[0];
      assert j in joins;
      var next := JoinOne(plan, row, j, results[j.name], eng, done);
      assert JoinRows([row], plan.anchor, j, results[j.name], eng) == [next];
      forall k | k in joins[1..] ensures k in joins && k.name != j.name {}
      row' := JoinPlan(plan, next, joins[1..], results, eng, done + {j.name});
      assert joins == [j] + joins[1..];
      assert done + {j.name} + JoinNames(joins[1..]) == done + JoinNames(joins);
    }
  }
}
