/** The rule-to-SQL compiler (detect/sql.go) and the relational meaning of the queries it emits. */
module CdlQuery {
  import opened Common
  import opened Seqs
  import opened CdlExpr
  import opened CdlEvents
  import opened CdlAggregate
  import opened CdlStreaming
  import opened CdlSql
  import opened CdlCompile

  type FuncsSQL = map<string, FuncSQL>

  // ----- compiled form -----

  datatype DistinctColumn = DistinctColumn(column: string, output: string)

  /** A correlated subquery: the column of the newest row of the group that satisfies `where`. */
  datatype LastColumn = LastColumn(column: string, where: SqlExpr, output: string)

  datatype Cte = Cte(where: SqlExpr, groupBy: seq<string>, distincts: seq<DistinctColumn>, lasts: seq<LastColumn>)

  datatype Join = Join(name: string, on: seq<string>)

  datatype Query = Query(anchor: string, joins: seq<Join>, entity: Column, observed: SqlExpr, where: SqlExpr)

  datatype Compiled = Compiled(ctes: map<string, Cte>, queries: map<string, Query>)

  // ----- the compiler -----

  function FlatNames(fields: seq<Path>): (r: seq<string>)
    ensures |r| == |fields| && forall i :: 0 <= i < |fields| ==> r[i] == FlatName(fields[i])
  {
    seq(|fields|, i requires 0 <= i < |fields| => FlatName(fields[i]))
  }

  function EventTarget(table: string, fsql: FuncsSQL): Target {
    Target(p => Ok(Col(Column(table, FlatName(p)))), fsql)
  }

  function CompileLasts(src: Source, fields: seq<Path>, fsql: FuncsSQL): Result<seq<LastColumn>> {
    if fields == [] then Ok([])
    else
      match ToSQL(src.where, EventTarget("sub", fsql))
      case Err => Err
      case Ok(sub) =>
        match CompileLasts(src, fields[1..], fsql)
        case Err => Err
        case Ok(rest) => Ok([LastColumn(FlatName(fields[0]), sub, "last_" + FlatName(fields[0]))] + rest)
  }

  function DistinctColumns(fields: seq<Path>): seq<DistinctColumn> {
    if fields == [] then []
    else [DistinctColumn(FlatName(fields[0]), "distinct_" + FlatName(fields[0]))] + DistinctColumns(fields[1..])
  }

  function CompileSource(src: Source, fsql: FuncsSQL): Result<Cte> {
    match ToSQL(src.where, EventTarget("", fsql))
    case Err => Err
    case Ok(where) =>
      match CompileLasts(src, src.trackLast, fsql)
      case Err => Err
      case Ok(lasts) => Ok(Cte(where, FlatNames(src.groupBy), DistinctColumns(src.trackDistinct), lasts))
  }

  function CompileSources(acc: map<string, Cte>, names: seq<string>, sources: map<string, Source>,
      fsql: FuncsSQL): Result<map<string, Cte>>
    requires forall n :: n in names ==> n in sources
    decreases names
  {
    if names == [] then Ok(acc)
    else
      match CompileSource(sources[names[0]], fsql)
      case Err => Err
      case Ok(cte) => CompileSources(acc[names[0] := cte], names[1..], sources, fsql)
  }

  function FieldColumn(src: string, groupBy: seq<Path>, field: string): Result<SqlExpr> {
    if field == "count" then Ok(CoalesceX(Col(Column(src, "count")), SInt(0)))
    else if field == "exists" then Ok(CmpX(SGt, CoalesceX(Col(Column(src, "count")), SInt(0)), Lit(SInt(0))))
    else if field == "first_ts" || field == "last_ts" then Ok(Col(Column(src, field)))
    else if HasPrefix(field, "distinct_") then Ok(CoalesceX(Col(Column(src, field)), SInt(0)))
    else if HasPrefix(field, "last_") then Ok(Col(Column(src, field)))
    else if field in FlatNames(groupBy) then Ok(Col(Column(src, field)))
    else Err
  }

  /** sqlColumnResolver: the same cases as aggregateEnv.Resolve, rendered as columns. */
  function ColumnFor(sources: map<string, Source>, path: Path): Result<SqlExpr> {
    if |path| < 2 || path[0] !in sources then Err else FieldColumn(path[0], sources[path[0]].groupBy, path[1])
  }

  function AggregateTarget(sources: map<string, Source>, fsql: FuncsSQL): Target {
    Target(p => ColumnFor(sources, p), fsql)
  }

  /** The first source, in name order, with the most group_by fields. */
  function WidestFrom(best: string, names: seq<string>, sources: map<string, Source>): string
    requires best in sources && forall n :: n in names ==> n in sources
    decreases names
  {
    if names == [] then best
    else WidestFrom(if |sources[names[0]].groupBy| > |sources[best].groupBy| then names[0] else best, names[1..],
      sources)
  }

  function AnchorOf(rule: Rule): (r: Result<string>)
    requires WellFormed(rule)
  {
    var anchor := WidestFrom(rule.names[0], rule.names, rule.sources);
    WidestIn(rule.names[0], rule.names, rule.sources);
    if forall n :: n in rule.names ==> forall f :: f in rule.sources[n].groupBy ==> f in rule.sources[anchor].groupBy
    then Ok(anchor) else Err
  }

  lemma {:induction false} WidestIn(best: string, names: seq<string>, sources: map<string, Source>)
    requires best in sources && forall n :: n in names ==> n in sources
    ensures WidestFrom(best, names, sources) in sources
    ensures WidestFrom(best, names, sources) == best || WidestFrom(best, names, sources) in names
    ensures |sources[best].groupBy| <= |sources[WidestFrom(best, names, sources)].groupBy|
    ensures forall n :: n in names ==> |sources[n].groupBy| <= |sources[WidestFrom(best, names, sources)].groupBy|
    decreases names
  {
    if names != [] {
      WidestIn(if |sources[names[0]].groupBy| > |sources[best].groupBy| then names[0] else best, names[1..], sources);
    }
  }

  method AnchorSource(rule: Rule) returns (r: Result<string>)
    requires WellFormed(rule)
    ensures r == AnchorOf(rule)
  {
    var anchor := rule.names[0];
    for i := 0 to |rule.names|
      invariant anchor in rule.sources
      invariant WidestFrom(rule.names[0], rule.names, rule.sources) == WidestFrom(anchor, rule.names[i..], rule.sources)
    {
      if |rule.sources[rule.names[i]].groupBy| > |rule.sources[anchor].groupBy| { anchor := rule.names[i]; }
    }
    var anchorSet := Elems(rule.sources[anchor].groupBy);
    for i := 0 to |rule.names|
      invariant forall j :: 0 <= j < i ==> forall f :: f in rule.sources[rule.names[j]].groupBy ==> f in anchorSet
    {
      var fields := rule.sources[rule.names[i]].groupBy;
      for k := 0 to |fields|
        invariant forall j :: 0 <= j < k ==> fields[j] in anchorSet
      {
        if fields[k] !in anchorSet { return Err; }
      }
    }
    return Ok(anchor);
  }

  function JoinsFor(anchor: string, names: seq<string>, sources: map<string, Source>): seq<Join>
    requires forall n :: n in names ==> n in sources
  {
    if names == [] then []
    else if names[0] == anchor then JoinsFor(anchor, names[1..], sources)
    else [Join(names[0], FlatNames(sources[names[0]].groupBy))] + JoinsFor(anchor, names[1..], sources)
  }

  function OrAll(parts: seq<SqlExpr>): SqlExpr
    requires parts != []
  {
    if |parts| == 1 then parts[0] else OrX(parts[0], OrAll(parts[1..]))
  }

  function CompileEmit(rule: Rule, emit: Emit, anchor: string, fsql: FuncsSQL): Result<Query>
    requires WellFormed(rule)
  {
    var target := AggregateTarget(rule.sources, fsql);
    match ToSQL(emit.when, target)
    case Err => Err
    case Ok(when) =>
      match (if emit.observed.None? then Ok(Lit(SNull)) else ToSQL(emit.observed.value, target))
      case Err => Err
      case Ok(observed) =>
        match ToSQLAll(rule.suppress, target)
        case Err => Err
        case Ok(parts) =>
          Ok(Query(
            anchor, JoinsFor(anchor, rule.names, rule.sources), Column(anchor, FlatName(rule.entity)), observed,
            if parts == [] then when else AndX(when, NotX(OrAll(parts)))))
  }

  /** Queries are kept by predicate, so a second emit of the same predicate replaces the first. */
  function CompileEmits(acc: map<string, Query>, rule: Rule, emits: seq<Emit>, anchor: string,
      fsql: FuncsSQL): Result<map<string, Query>>
    requires WellFormed(rule)
    decreases emits
  {
    if emits == [] then Ok(acc)
    else
      match CompileEmit(rule, emits[0], anchor, fsql)
      case Err => Err
      case Ok(q) => CompileEmits(acc[emits[0].emits := q], rule, emits[1..], anchor, fsql)
  }

  function CompileRule(rule: Rule, fsql: FuncsSQL): Result<Compiled>
    requires WellFormed(rule)
  {
    match AnchorOf(rule)
    case Err => Err
    case Ok(anchor) =>
      match CompileSources(map[], rule.names, rule.sources, fsql)
      case Err => Err
      case Ok(ctes) =>
        match CompileEmits(map[], rule, rule.emits, anchor, fsql)
        case Err => Err
        case Ok(queries) => Ok(Compiled(ctes, queries))
  }

  method CompileRuleSQL(rule: Rule, fsql: FuncsSQL) returns (r: Result<Compiled>)
    requires WellFormed(rule)
    ensures r == CompileRule(rule, fsql)
  {
    var anchor := AnchorSource(rule);
    if anchor.Err? { return Err; }
    var ctes: map<string, Cte> := map[];
    for i := 0 to |rule.names|
      invariant CompileSources(map[], rule.names, rule.sources, fsql) ==
        CompileSources(ctes, rule.names[i..], rule.sources, fsql)
    {
      var cte := CompileSource(rule.sources[rule.names[i]], fsql);
      if cte.Err? { return Err; }
      ctes := ctes[rule.names[i] := cte.value];
    }
    var out: map<string, Query> := map[];
    for i := 0 to |rule.emits|
      invariant CompileEmits(map[], rule, rule.emits, anchor.value, fsql) ==
        CompileEmits(out, rule, rule.emits[i..], anchor.value, fsql)
    {
      var q := CompileEmit(rule, rule.emits[i], anchor.value, fsql);
      if q.Err? { return Err; }
      out := out[rule.emits[i].emits := q.value];
    }
    return Ok(Compiled(ctes, out));
  }

  // ----- the meaning of a query -----

  function At(r: Record, c: string): SqlValue { if c in r then r[c] else SNull }

  function Qualify(table: string, r: Record): Row { map c | c in r :: Column(table, c) := r[c] }

  predicate JoinEqual(a: SqlValue, b: SqlValue, eng: Engine) { Compare3(SEq, a, b, eng) == Some(true) }

  function KeyOfRecord(r: Record, cols: seq<string>): Record { map c | c in cols :: At(r, c) }

  function Admits(where: SqlExpr, table: string, eng: Engine): Record -> bool {
    (r: Record) => Holds(where, Qualify(table, r), eng)
  }

  /** The groups of a GROUP BY; NULLs compare equal here. */
  function GroupKeys(rows: seq<Record>, cols: seq<string>): seq<Record> {
    if rows == [] then []
    else
      var n := |rows| - 1;
      var before, key := GroupKeys(rows[..n], cols), KeyOfRecord(rows[n], cols);
      if key in before then before else before + [key]
  }

  function HasGroupKey(cols: seq<string>, key: Record): Record -> bool { (r: Record) => KeyOfRecord(r, cols) == key }

  /** MIN and MAX skip NULLs. */
  function SqlMin(rows: seq<Record>, c: string, eng: Engine): SqlValue {
    if rows == [] then SNull
    else
      var n := |rows| - 1;
      var best, v := SqlMin(rows[..n], c, eng), At(rows[n], c);
      if v.SNull? then best else if best.SNull? || SqlLess(v, best, eng) then v else best
  }

  function SqlMax(rows: seq<Record>, c: string, eng: Engine): SqlValue {
    if rows == [] then SNull
    else
      var n := |rows| - 1;
      var best, v := SqlMax(rows[..n], c, eng), At(rows[n], c);
      if v.SNull? then best else if best.SNull? || !SqlLess(v, best, eng) then v else best
  }

  function NonNull(rows: seq<Record>, c: string): set<SqlValue> {
    set i | 0 <= i < |rows| && !At(rows[i], c).SNull? :: At(rows[i], c)
  }

  function DistinctOutputs(cols: seq<DistinctColumn>, group: seq<Record>): Record {
    if cols == [] then map[]
    else DistinctOutputs(cols[1..], group)[cols[0].output := SInt(|NonNull(group, cols[0].column)|)]
  }

  function Correlated(where: SqlExpr, cols: seq<string>, key: Record, eng: Engine): Record -> bool {
    (r: Record) => Holds(where, Qualify("sub", r), eng) &&
      forall c :: c in cols ==> JoinEqual(At(r, c), At(key, c), eng)
  }

  function TimeIs(v: SqlValue): Record -> bool { (r: Record) => SqlSame(At(r, "time"), v) }

  /** SELECT col ... ORDER BY time DESC LIMIT 1. */
  function LastValue(l: LastColumn, cols: seq<string>, key: Record, table: seq<Record>, eng: Engine): SqlValue {
    var rows := Filter(table, Correlated(l.where, cols, key, eng));
    var newest := Filter(rows, TimeIs(SqlMax(rows, "time", eng)));
    if newest == [] then SNull else At(newest[eng.firstOfTied(newest) % |newest|], l.column)
  }

  function LastOutputs(ls: seq<LastColumn>, cols: seq<string>, key: Record, table: seq<Record>, eng: Engine): Record {
    if ls == [] then map[]
    else LastOutputs(ls[1..], cols, key, table, eng)[ls[0].output := LastValue(ls[0], cols, key, table, eng)]
  }

  /** One output row of the CTE; a repeated output name keeps its leftmost column. */
  function GroupRecord(cte: Cte, key: Record, table: seq<Record>, matching: seq<Record>, eng: Engine): Record {
    var group := Filter(matching, HasGroupKey(cte.groupBy, key));
    var basic: Record :=
      map["count" := SInt(|group|), "first_ts" := SqlMin(group, "time", eng), "last_ts" := SqlMax(group, "time", eng)];
    LastOutputs(cte.lasts, cte.groupBy, key, table, eng) + DistinctOutputs(cte.distincts, group) + basic + key
  }

  function GroupRecords(cte: Cte, keys: seq<Record>, table: seq<Record>, matching: seq<Record>,
      eng: Engine): (r: seq<Record>)
    ensures |r| == |keys| && forall i :: 0 <= i < |keys| ==> r[i] == GroupRecord(cte, keys[i], table, matching, eng)
  {
    seq(|keys|, i requires 0 <= i < |keys| => GroupRecord(cte, keys[i], table, matching, eng))
  }

  function EvalCte(cte: Cte, table: seq<Record>, eng: Engine): seq<Record> {
    var matching := Filter(table, Admits(cte.where, "", eng));
    GroupRecords(cte, GroupKeys(matching, cte.groupBy), table, matching, eng)
  }

  function OnMatches(row: Row, anchor: string, on: seq<string>, eng: Engine): Record -> bool {
    (m: Record) => forall c :: c in on ==> JoinEqual(Lookup(row, Column(anchor, c)), At(m, c), eng)
  }

  /** LEFT JOIN: every match, or the row alone, whose missing columns then read as NULL. */
  function JoinRow(row: Row, anchor: string, j: Join, recs: seq<Record>, eng: Engine): seq<Row> {
    var ms := Filter(recs, OnMatches(row, anchor, j.on, eng));
    if ms == [] then [row] else seq(|ms|, i requires 0 <= i < |ms| => row + Qualify(j.name, ms[i]))
  }

  function JoinRows(rows: seq<Row>, anchor: string, j: Join, recs: seq<Record>, eng: Engine): seq<Row> {
    if rows == [] then []
      else JoinRows(rows[..|rows| - 1], anchor, j, recs, eng) + JoinRow(rows[|rows| - 1], anchor, j, recs, eng)
  }

  function JoinAll(rows: seq<Row>, anchor: string, joins: seq<Join>, results: map<string, seq<Record>>,
      eng: Engine): seq<Row>
    decreases joins
  {
    if joins == [] then rows
    else
      JoinAll(
        JoinRows(rows, anchor, joins[0], if joins[0].name in results then results[joins[0].name] else [], eng),
        anchor, joins[1..], results, eng)
  }

  function Results(ctes: map<string, Cte>, table: seq<Record>, eng: Engine): map<string, seq<Record>> {
    map n | n in ctes :: EvalCte(ctes[n], table, eng)
  }

  function AnchorRows(q: Query, results: map<string, seq<Record>>): seq<Row> {
    var recs := if q.anchor in results then results[q.anchor] else [];
    seq(|recs|, i requires 0 <= i < |recs| => Qualify(q.anchor, recs[i]))
  }

  function Decode(v: SqlValue): Value {
    match v case SNull => Null case SInt(n) => Int(n) case SReal(r) => Float(r) case SText(s) => Str(s)
  }

  /** A result row that survives WHERE, as a claim. */
  function RowClaims(rule: Rule, emits: string, q: Query, row: Row, eng: Engine): seq<Claim> {
    if Holds(q.where, row, eng) then
      [Claim(emits, RenderScalar(Decode(Lookup(row, q.entity))), Decode(SqlEval(q.observed, row, eng)), rule.id,
        rule.version)]
    else []
  }

  function SelectClaims(rule: Rule, emits: string, q: Query, rows: seq<Row>, eng: Engine): seq<Claim> {
    if rows == [] then []
    else SelectClaims(rule, emits, q, rows[..|rows| - 1], eng) + RowClaims(rule, emits, q, rows[|rows| - 1], eng)
  }

  function QueryClaims(rule: Rule, emits: string, q: Query, results: map<string, seq<Record>>,
      eng: Engine): seq<Claim> {
    SelectClaims(rule, emits, q, JoinAll(AnchorRows(q, results), q.anchor, q.joins, results, eng), eng)
  }

  // ----- what the engine accepts -----

  function TableColumns(table: string, columns: set<string>): set<Column> { set c | c in columns :: Column(table, c) }

  predicate CtePrepares(cte: Cte, columns: set<string>) {
    && cte.groupBy != [] && "time" in columns
    && (forall c :: c in cte.groupBy ==> c in columns)
    && Prepares(cte.where, TableColumns("", columns))
    && (forall d :: d in cte.distincts ==> d.column in columns)
    && (forall l :: l in cte.lasts ==> l.column in columns && Prepares(l.where, TableColumns("sub", columns)))
  }

  function OutputNames(cte: Cte): set<string> {
    {"count", "first_ts", "last_ts"} + Elems(cte.groupBy)
      + (set d | d in cte.distincts :: d.output) + (set l | l in cte.lasts :: l.output)
  }

  function OutputColumns(ctes: map<string, Cte>): set<Column> {
    set n, c | n in ctes && c in OutputNames(ctes[n]) :: Column(n, c)
  }

  predicate QueryPrepares(q: Query, ctes: map<string, Cte>, columns: set<string>) {
    && (forall n :: n in ctes ==> CtePrepares(ctes[n], columns))
    && (forall j :: j in q.joins ==> j.on != [])
    && q.entity in OutputColumns(ctes)
    && Prepares(q.observed, OutputColumns(ctes)) && Prepares(q.where, OutputColumns(ctes))
  }

  // ----- running a rule -----

  function RunEmits(rule: Rule, emits: seq<Emit>, compiled: Compiled, results: map<string, seq<Record>>,
      columns: set<string>, eng: Engine): Result<seq<Claim>> {
    if emits == [] then Ok([])
    else if emits[0].emits !in compiled.queries then Err
    else
      var q := compiled.queries[emits[0].emits];
      if !QueryPrepares(q, compiled.ctes, columns) then Err
      else Prepend(QueryClaims(rule, emits[0].emits, q, results, eng),
        RunEmits(rule, emits[1..], compiled, results, columns, eng))
  }

  /** RunSQL over an events table already loaded. */
  function RunTable(rule: Rule, table: seq<Record>, columns: set<string>, fsql: FuncsSQL,
      eng: Engine): Result<seq<Claim>>
    requires WellFormed(rule)
  {
    match CompileRule(rule, fsql)
    case Err => Err
    case Ok(compiled) =>
      if columns == {} then Err
      else RunEmits(rule, rule.emits, compiled, Results(compiled.ctes, table, eng), columns, eng)
  }

  // ----- loading the events table -----

  predicate Storable(v: Value) { !v.List? && !v.Map? }

  function Store(v: Value): SqlValue {
    match v
    case Bool(b) => SInt(if b then 1 else 0)
    case Int(n) => SInt(n)
    case Float(r) => SReal(r)
    case Str(s) => SText(s)
    case _ => SNull
  }

  ghost predicate RecordOf(ev: Event, rec: Record) {
    exists flat :: FlattenOf(ev, "", map[], flat) && (forall c :: c in flat ==> Storable(flat[c])) &&
      rec == map c | c in flat :: Store(flat[c])
  }

  ghost predicate TableOf(events: seq<Event>, table: seq<Record>) { Aligned(events, table, (e, r) => RecordOf(e, r)) }

  /** No leaf is a list. */
  ghost predicate Loadable(ev: Event) { forall q, x :: LeafAt(ev, q, x) ==> !x.List? }

  lemma FlatIsStorable(ev: Event, flat: map<string, Value>)
    requires FlattenOf(ev, "", map[], flat) && Loadable(ev)
    ensures forall c :: c in flat ==> Storable(flat[c])
  {
    forall c | c in flat ensures Storable(flat[c]) {
      assert Stored(ev, ev.entries.Keys, "", c, flat[c]);
      var q :| LeafAt(ev, q, flat[c]) && (q == [] || q[0] in ev.entries.Keys) && FlatFrom("", q) == c;
    }
  }

  method LoadEvent(ev: Event) returns (r: Result<Record>)
    ensures r.Ok? ==> RecordOf(ev, r.value)
    ensures Loadable(ev) ==> r.Ok?
  {
    var flat := FlattenEvent("", ev, map[]);
    if !(forall c :: c in flat ==> Storable(flat[c])) {
      if Loadable(ev) { FlatIsStorable(ev, flat); }
      return Err;
    }
    var rec: Record := map c | c in flat :: Store(flat[c]);
    assert RecordOf(ev, rec);
    return Ok(rec);
  }

  /** The columns some row has. */
  function ColumnsOf(table: seq<Record>): set<string> { set r, c | r in table && c in r :: c }

  /** A row for each event, and the columns of them all. */
  ghost predicate Loads(events: seq<Event>, table: seq<Record>, columns: set<string>) {
    TableOf(events, table) && columns == ColumnsOf(table)
  }

  method LoadEvents(events: seq<Event>) returns (table: Result<seq<Record>>, columns: set<string>)
    ensures table.Ok? ==> Loads(events, table.value, columns)
    ensures (forall e :: e in events ==> Loadable(e)) ==> table.Ok?
  {
    var rows: seq<Record> := [];
    columns := {};
    for i := 0 to |events|
      invariant |rows| == i && forall j :: 0 <= j < i ==> RecordOf(events[j], rows[j])
      invariant columns == ColumnsOf(rows)
    {
      assert events[i] in events;
      var rec := LoadEvent(events[i]);
      if rec.Err? { return Err, columns; }
      assert ColumnsOf(rows + [rec.value]) == ColumnsOf(rows) + rec.value.Keys;
      rows := rows + [rec.value];
      columns := columns + rec.value.Keys;
    }
    return Ok(rows), columns;
  }

  method RunQueries(rule: Rule, compiled: Compiled, results: map<string, seq<Record>>, columns: set<string>,
      eng: Engine)
      returns (r: Result<seq<Claim>>)
    ensures r == RunEmits(rule, rule.emits, compiled, results, columns, eng)
  {
    var claims: seq<Claim> := [];
    PrependAppend([], [], RunEmits(rule, rule.emits, compiled, results, columns, eng));
    for i := 0 to |rule.emits|
      invariant RunEmits(rule, rule.emits, compiled, results, columns, eng) ==
        Prepend(claims, RunEmits(rule, rule.emits[i..], compiled, results, columns, eng))
    {
      var name := rule.emits[i].emits;
      if name !in compiled.queries { return Err; }
      var q := compiled.queries[name];
      if !QueryPrepares(q, compiled.ctes, columns) { return Err; }
      var found := QueryClaims(rule, name, q, results, eng);
      PrependAppend(claims, found, RunEmits(rule, rule.emits[i + 1..], compiled, results, columns, eng));
      claims := claims + found;
    }
    assert claims + [] == claims;
    return Ok(claims);
  }

  method RunSQL(rule: Rule, events: seq<Event>, fsql: FuncsSQL, eng: Engine) returns (r: Result<seq<Claim>>)
    requires WellFormed(rule)
    ensures r.Ok? ==> exists table, columns ::
      Loads(events, table, columns) && r == RunTable(rule, table, columns, fsql, eng)
    ensures r.Err? ==>
      || CompileRule(rule, fsql).Err?
      || (exists e :: e in events && !Loadable(e))
      || exists table, columns :: Loads(events, table, columns) && RunTable(rule, table, columns, fsql, eng).Err?
  {
    var compiled := CompileRuleSQL(rule, fsql);
    if compiled.Err? { return Err; }
    var table, columns := LoadEvents(events);
    if table.Err? { return Err; }
    if columns == {} {
      assert Loads(events, table.value, columns) && RunTable(rule, table.value, columns, fsql, eng).Err?;
      return Err;
    }
    r := RunQueries(rule, compiled.value, Results(compiled.value.ctes, table.value, eng), columns, eng);
    assert Loads(events, table.value, columns) && r == RunTable(rule, table.value, columns, fsql, eng);
  }
}
