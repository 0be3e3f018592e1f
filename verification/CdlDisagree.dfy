/** Rules and events on which both paths succeed and make different claims: why the theorem has its conditions. */
module CdlDisagree {
  import opened Common
  import opened Seqs
  import opened CdlExpr
  import opened CdlEvents
  import opened CdlAggregate
  import opened CdlStreaming
  import opened CdlSql
  import opened CdlCompile
  import opened CdlQuery
  import opened CdlGroups
  import opened CdlCase

  const K: Path := ["k"]
  const TRUE: Node := Literal(Bool(true))
  const FALSE: Node := Literal(Bool(false))

  // ----- flat events -----

  function RecordFor(m: map<string, Value>): Record { map c | c in m :: Store(m[c]) }

  lemma FlatLeaf(m: map<string, Value>, q: Path, x: Value)
    requires (forall c :: c in m ==> IsScalar(m[c])) && LeafAt(Map(m), q, x)
    ensures |q| == 1 && q[0] in m && x == m[q[0]] && FlatFrom("", q) == q[0]
  {
    assert q != [];
    assert q == [q[0]] + q[1..] && q[0] in m && !m[q[0]].Map?;
    assert Resolve(Map(m), q) == Resolve(m[q[0]], q[1..]);
    assert q[1..] == [];
  }

  /** An event without nested maps is loaded column by column. */
  lemma FlatRecord(m: map<string, Value>)
    requires forall c :: c in m ==> IsScalar(m[c])
    ensures RecordOf(Map(m), RecordFor(m))
  {
    var ev := Map(m);
    forall c, x ensures Stored(ev, m.Keys, "", c, x) <==> c in m && x == m[c] {
      if Stored(ev, m.Keys, "", c, x) {
        var q :| LeafAt(ev, q, x) && (q == [] || q[0] in m.Keys) && FlatFrom("", q) == c;
        FlatLeaf(m, q, x);
      }
      if c in m && x == m[c] {
        assert [c][1..] == [] && LeafAt(ev, [c], x) && FlatFrom("", [c]) == c;
      }
    }
    assert FlattenOf(ev, "", map[], m);
  }

  function Row1(k: Value, t: int): map<string, Value> { map["k" := k, "time" := Int(t)] }

  lemma FlatReads(k: Value, t: int)
    ensures Resolve(Map(Row1(k, t)), K) == Some(k) && Time(Map(Row1(k, t))) == t
  {
    assert K[1..] == [] && ["time"][1..] == [] && "k" != "time";
    assert Row1(k, t)["k"] == k && Row1(k, t)["time"] == Int(t);
    assert Resolve(Map(Row1(k, t)), K) == Resolve(k, []) && Resolve(Map(Row1(k, t)), ["time"]) == Resolve(Int(t), []);
  }

  // ----- a rule with one source that counts every event -----

  function Everything(): Source { Source(TRUE, [K], [], []) }

  function CountRule(emits: seq<Emit>): Rule { Rule("r", 1, K, ["a"], map["a" := Everything()], emits, []) }

  function EverythingCte(): Cte { Cte(Lit(SInt(1)), ["k"], [], []) }

  lemma CountRuleCompiles(emits: seq<Emit>, fsql: FuncsSQL)
    ensures WellFormed(CountRule(emits)) && AnchorOf(CountRule(emits)) == Ok("a")
    ensures CompileSources(map[], ["a"], CountRule(emits).sources, fsql) == Ok(map["a" := EverythingCte()])
    ensures JoinsFor("a", ["a"], CountRule(emits).sources) == []
  {
    var r := CountRule(emits);
    assert r.names[1..] == [];
    assert WidestFrom("a", r.names, r.sources) == "a";
    assert FlatNames([K]) == ["k"];
    assert CompileSource(Everything(), fsql) == Ok(EverythingCte());
    assert CompileSources(map["a" := EverythingCte()], [], r.sources, fsql) == Ok(map["a" := EverythingCte()]);
  }

  function EmitQuery(where: SqlExpr): Query { Query("a", [], Column("a", "k"), Lit(SNull), where) }

  lemma EmitCompiles(emits: seq<Emit>, name: string, b: bool, fsql: FuncsSQL)
    ensures WellFormed(CountRule(emits))
    ensures CompileEmit(CountRule(emits), Emit(name, Literal(Bool(b)), None), "a", fsql) ==
      Ok(EmitQuery(Lit(SInt(if b then 1 else 0))))
  {
    CountRuleCompiles(emits, fsql);
    assert K[0] == "k" && FlatName(K) == "k";
  }

  // ----- counting claims -----

  lemma {:induction false} BagSize(cs: seq<Claim>)
    ensures |Bag(cs)| == |cs|
  {
    if cs != [] {
      var n := |cs| - 1;
      BagSize(cs[..n]);
      assert |Bag(cs)| == |Sum(cs[..n], ClaimBag())| + |ClaimBag()(cs[n])|;
    }
  }

  /** A WHERE that is the constant 1 or 0 keeps every row or none. */
  lemma {:induction false} ConstantWhere(rule: Rule, emits: string, q: Query, rows: seq<Row>, b: bool, eng: Engine)
    requires q.where == Lit(SInt(if b then 1 else 0))
    ensures |SelectClaims(rule, emits, q, rows, eng)| == if b then |rows| else 0
  {
    if rows != [] { ConstantWhere(rule, emits, q, rows[..|rows| - 1], b, eng); }
  }

  lemma EverythingSelected(table: seq<Record>, eng: Engine)
    ensures Filter(table, Admits(Lit(SInt(1)), "", eng)) == table
    decreases |table|
  {
    if table != [] {
      EverythingSelected(table[..|table| - 1], eng);
      assert table == table[..|table| - 1] + [table[|table| - 1]];
    }
  }

  lemma CountRulePrepares(where: SqlExpr, columns: set<string>)
    requires "k" in columns && "time" in columns && where.Lit?
    ensures QueryPrepares(EmitQuery(where), map["a" := EverythingCte()], columns)
  {
    var ctes := map["a" := EverythingCte()];
    assert "k" in OutputNames(ctes["a"]);
    assert Column("a", "k") in OutputColumns(ctes);
  }

  /** The streaming side of such a rule over events that form a single case. */
  lemma OneCase(rule: Rule, events: seq<Event>, ci: CaseInfo, aggs: AggregateEnv, funcs: Funcs, claims: seq<Claim>)
    requires WellFormed(rule) && Cases(events, UnionFields(rule.names, rule.sources)) == [ci]
    requires Aggregates(map[], events, rule.names, rule.sources, ci.values, funcs) == Ok(aggs)
    requires Suppressed(rule.suppress, AggregateContext(aggs, funcs)) == Ok(false)
    requires FireAll(rule, rule.emits, EntityOf(rule, ci.values), AggregateContext(aggs, funcs)) == Ok(claims)
    ensures Streaming(rule, events, funcs) == Ok(claims)
  {
    var made := CaseClaims(rule, events, ci.values, funcs);
    assert made == Ok(claims);
    assert [ci][1..] == [] && claims + [] == claims;
    assert StreamCases(rule, events, [ci], funcs) == Prepend(claims, StreamCases(rule, events, [], funcs));
  }

  lemma FieldKey(get: Path -> Option<Value>, v: Value)
    requires get(K) == Some(v)
    ensures GroupKey(get, [K]) == Some(RenderScalar(v))
  {
    assert [K][1..] == [] && Rendered(get, []) == Some([]);
    assert Rendered(get, [K]) == Some([RenderScalar(v)] + []);
  }

  lemma CaseOfRow(k: Value, t: int)
    ensures CaseOf(Map(Row1(k, t)), [K]) == Some(map[K := k])
  {
    FlatReads(k, t);
    assert forall f :: f in [K] <==> f == K;
    assert CaseOf(Map(Row1(k, t)), [K]).value == map[K := k];
  }

  lemma FirstCase(k: Value, t: int)
    ensures Cases([Map(Row1(k, t))], [K]) == [CaseInfo(RenderScalar(k), map[K := k])]
  {
    CaseOfRow(k, t);
    FieldKey(CaseGetter(map[K := k]), k);
    assert [Map(Row1(k, t))][..0] == [] && Cases([], [K]) == [];
  }

  lemma UnionIsK(sources: map<string, Source>, names: seq<string>)
    requires names != [] && (forall n :: n in names ==> n in sources && sources[n].groupBy == [K])
    ensures UnionFields(names, sources) == [K]
  {
    var n := |names| - 1;
    assert AddNew([], [K]) == AddNew([] + [K], [K][1..]) == [K] && AddNew([K], [K]) == AddNew([K], [K][1..]) == [K];
    if n > 0 { UnionIsK(sources, names[..n]); } else { assert names[..n] == []; }
  }

  lemma OneRecord(m: map<string, Value>)
    requires forall c :: c in m ==> IsScalar(m[c])
    ensures TableOf([Map(m)], [RecordFor(m)])
  {
    FlatRecord(m);
  }

  lemma SizesDiffer(a: seq<Claim>, b: seq<Claim>)
    requires |a| != |b|
    ensures Bag(a) != Bag(b)
  {
    BagSize(a);
    BagSize(b);
  }

  // ----- two emits of one predicate -----

  /** The rule fires P and then, under a second emit of the same name, does not: SQL keeps only the second query. */
  function TwiceRule(): Rule { CountRule([Emit("P", TRUE, None), Emit("P", FALSE, None)]) }

  lemma TwiceFires(entity: string, ctx: Context)
    ensures FireAll(TwiceRule(), TwiceRule().emits, entity, ctx) == Ok([Claim("P", entity, Null, "r", 1)])
  {
    var r, p := TwiceRule(), Claim("P", entity, Null, "r", 1);
    assert r.emits[1..] == [Emit("P", FALSE, None)] && r.emits[1..][1..] == [];
    var none: seq<Claim> := [];
    assert none + none == none && [p] + none == [p];
    assert FireAll(r, r.emits[1..], entity, ctx) == Ok(none);
  }

  lemma TwiceStreams(k: Value, t: int, funcs: Funcs)
    ensures WellFormed(TwiceRule()) && Streaming(TwiceRule(), [Map(Row1(k, t))], funcs).Ok?
    ensures |Streaming(TwiceRule(), [Map(Row1(k, t))], funcs).value| == 1
  {
    var r, events := TwiceRule(), [Map(Row1(k, t))];
    var ci := CaseInfo(RenderScalar(k), map[K := k]);
    FirstCase(k, t);
    UnionIsK(r.sources, r.names);
    var aggs := EverythingAggregates(r.emits, events, ci.values, k, funcs);
    TwiceFires(EntityOf(r, ci.values), AggregateContext(aggs, funcs));
    OneCase(r, events, ci, aggs, funcs, [Claim("P", EntityOf(r, ci.values), Null, "r", 1)]);
  }

  lemma EverythingAggregates(emits: seq<Emit>, events: seq<Event>, values: CaseValues, k: Value, funcs: Funcs)
      returns (aggs: AggregateEnv)
    requires values == map[K := k]
    ensures WellFormed(CountRule(emits)) &&
      Aggregates(map[], events, ["a"], CountRule(emits).sources, values, funcs) == Ok(aggs)
  {
    CountRuleCompiles(emits, map[]);
    FieldKey(CaseGetter(values), k);
    var agg := AggregateFor(events, Everything(), values, funcs).value;
    aggs := map["a" := agg];
    assert ["a"][1..] == [];
  }

  lemma TwiceCompiles(fsql: FuncsSQL)
    ensures WellFormed(TwiceRule())
    ensures CompileRule(TwiceRule(), fsql) ==
      Ok(Compiled(map["a" := EverythingCte()], map["P" := EmitQuery(Lit(SInt(0)))]))
  {
    var r, e, f := TwiceRule(), Emit("P", TRUE, None), Emit("P", FALSE, None);
    CountRuleCompiles(r.emits, fsql);
    EmitCompiles(r.emits, "P", true, fsql);
    EmitCompiles(r.emits, "P", false, fsql);
    var first, second := EmitQuery(Lit(SInt(1))), EmitQuery(Lit(SInt(0)));
    assert r.emits == [e, f] && r.emits[1..] == [f] && [f][1..] == [];
    assert map["P" := first]["P" := second] == map["P" := second];
    assert CompileEmits(map["P" := first]["P" := second], r, [], "a", fsql) == Ok(map["P" := second]);
    assert CompileEmits(map["P" := first], r, [f], "a", fsql) == Ok(map["P" := second]);
    assert map[]["P" := first] == map["P" := first];
    assert CompileEmits(map[], r, [e, f], "a", fsql) == Ok(map["P" := second]);
  }

  lemma RunsCompiled(rule: Rule, compiled: Compiled, table: seq<Record>, columns: set<string>, fsql: FuncsSQL,
      eng: Engine)
    requires WellFormed(rule) && CompileRule(rule, fsql) == Ok(compiled) && columns != {}
    ensures RunTable(rule, table, columns, fsql, eng) ==
      RunEmits(rule, rule.emits, compiled, Results(compiled.ctes, table, eng), columns, eng)
  {}

  /** A query whose WHERE is constantly false yields nothing. */
  lemma FalseQuery(rule: Rule, emits: string, q: Query, results: map<string, seq<Record>>, eng: Engine)
    requires q.where == Lit(SInt(0))
    ensures QueryClaims(rule, emits, q, results, eng) == []
  {
    ConstantWhere(rule, emits, q, JoinAll(AnchorRows(q, results), q.anchor, q.joins, results, eng), false, eng);
  }

  lemma TwiceQueries(table: seq<Record>, columns: set<string>, fsql: FuncsSQL, eng: Engine)
    requires "k" in columns && "time" in columns
    ensures WellFormed(TwiceRule()) && RunTable(TwiceRule(), table, columns, fsql, eng) == Ok([])
  {
    var kept := EmitQuery(Lit(SInt(0)));
    var compiled := Compiled(map["a" := EverythingCte()], map["P" := kept]);
    TwiceCompiles(fsql);
    RunsCompiled(TwiceRule(), compiled, table, columns, fsql, eng);
    CountRulePrepares(Lit(SInt(0)), columns);
    FalseQuery(TwiceRule(), "P", kept, Results(compiled.ctes, table, eng), eng);
    NoRows(TwiceRule(), TwiceRule().emits, compiled, Results(compiled.ctes, table, eng), columns, eng);
  }

  lemma {:induction false} NoRows(rule: Rule, emits: seq<Emit>, compiled: Compiled, results: map<string, seq<Record>>,
      columns: set<string>, eng: Engine)
    requires forall e :: e in emits ==>
      e.emits in compiled.queries && QueryPrepares(compiled.queries[e.emits], compiled.ctes, columns) &&
      QueryClaims(rule, e.emits, compiled.queries[e.emits], results, eng) == []
    ensures RunEmits(rule, emits, compiled, results, columns, eng) == Ok([])
  {
    if emits != [] {
      assert emits[0] in emits;
      NoRows(rule, emits[1..], compiled, results, columns, eng);
      var none: seq<Claim> := [];
      assert none + none == none;
    }
  }

  /** Two emits of one predicate disagree. */
  lemma TwoEmitsDisagree(funcs: Funcs, fsql: FuncsSQL, eng: Engine)
    returns (events: seq<Event>, table: seq<Record>, streamed: seq<Claim>, queried: seq<Claim>)
    ensures WellFormed(TwiceRule()) && TableOf(events, table)
    ensures Streaming(TwiceRule(), events, funcs) == Ok(streamed)
    ensures RunTable(TwiceRule(), table, {"k", "time"}, fsql, eng) == Ok(queried)
    ensures Bag(streamed) != Bag(queried)
  {
    events, table := [Map(Row1(Int(1), 5))], [RecordFor(Row1(Int(1), 5))];
    OneRecord(Row1(Int(1), 5));
    TwiceStreams(Int(1), 5, funcs);
    TwiceQueries(table, {"k", "time"}, fsql, eng);
    streamed, queried := Streaming(TwiceRule(), events, funcs).value, [];
    SizesDiffer(streamed, queried);
  }

  // ----- one group key, two kinds of value -----

  function OnceRule(): Rule { CountRule([Emit("P", TRUE, None)]) }

  /** The integer 1 and the text "1" render alike, so they share a case; SQL groups them apart. */
  function MixedEvents(): seq<Event> { [Map(Row1(Int(1), 5)), Map(Row1(Str("1"), 6))] }

  function MixedTable(): seq<Record> { [RecordFor(Row1(Int(1), 5)), RecordFor(Row1(Str("1"), 6))] }

  lemma MixedCase()
    ensures Cases(MixedEvents(), [K]) == [CaseInfo("1", map[K := Int(1)])]
  {
    var es, ci := MixedEvents(), CaseInfo("1", map[K := Int(1)]);
    assert FormatInt(1) == "1";
    FirstCase(Int(1), 5);
    assert es[..1] == [Map(Row1(Int(1), 5))];
    CaseOfRow(Str("1"), 6);
    FieldKey(CaseGetter(map[K := Str("1")]), Str("1"));
    assert [ci][0].key == "1" && HasKey([ci], "1");
  }

  lemma OnceFires(entity: string, ctx: Context)
    ensures FireAll(OnceRule(), OnceRule().emits, entity, ctx) == Ok([Claim("P", entity, Null, "r", 1)])
  {
    var r, p := OnceRule(), Claim("P", entity, Null, "r", 1);
    assert r.emits[1..] == [] && [p] + [] == [p];
  }

  lemma MixedStreams(funcs: Funcs)
    ensures WellFormed(OnceRule()) && Streaming(OnceRule(), MixedEvents(), funcs).Ok?
    ensures |Streaming(OnceRule(), MixedEvents(), funcs).value| == 1
  {
    var r, ci := OnceRule(), CaseInfo("1", map[K := Int(1)]);
    MixedCase();
    UnionIsK(r.sources, r.names);
    var aggs := EverythingAggregates(r.emits, MixedEvents(), ci.values, Int(1), funcs);
    OnceFires(EntityOf(r, ci.values), AggregateContext(aggs, funcs));
    OneCase(r, MixedEvents(), ci, aggs, funcs, [Claim("P", EntityOf(r, ci.values), Null, "r", 1)]);
  }

  lemma TwoGroups(k: Value, s: int, l: Value, t: int)
    requires Store(k) != Store(l)
    ensures |GroupKeys([RecordFor(Row1(k, s)), RecordFor(Row1(l, t))], ["k"])| == 2
  {
    StoredKey(k, s);
    StoredKey(l, t);
    var a, b := map["k" := Store(k)], map["k" := Store(l)];
    assert a["k"] != b["k"];
    TwoKeys(RecordFor(Row1(k, s)), RecordFor(Row1(l, t)), ["k"]);
  }

  lemma RowPerKey(table: seq<Record>, eng: Engine)
    ensures |EvalCte(EverythingCte(), table, eng)| == |GroupKeys(table, ["k"])|
  {
    EverythingSelected(table, eng);
  }

  lemma StoredKey(k: Value, t: int)
    ensures KeyOfRecord(RecordFor(Row1(k, t)), ["k"]) == map["k" := Store(k)]
  {
    assert Row1(k, t)["k"] == k;
    assert RecordFor(Row1(k, t))["k"] == Store(k);
  }

  lemma TwoKeys(a: Record, b: Record, cols: seq<string>)
    requires KeyOfRecord(a, cols) != KeyOfRecord(b, cols)
    ensures |GroupKeys([a, b], cols)| == 2
  {
    assert [a, b][..1] == [a] && [a][..0] == [] && GroupKeys([], cols) == [];
    assert GroupKeys([a], cols) == [KeyOfRecord(a, cols)];
  }

  lemma OnceCompiles(fsql: FuncsSQL)
    ensures WellFormed(OnceRule())
    ensures CompileRule(OnceRule(), fsql) ==
      Ok(Compiled(map["a" := EverythingCte()], map["P" := EmitQuery(Lit(SInt(1)))]))
  {
    var r, q := OnceRule(), EmitQuery(Lit(SInt(1)));
    CountRuleCompiles(r.emits, fsql);
    EmitCompiles(r.emits, "P", true, fsql);
    assert r.emits[1..] == [];
    assert CompileEmits(map["P" := q], r, [], "a", fsql) == Ok(map["P" := q]);
  }

  lemma RunsOne(rule: Rule, compiled: Compiled, results: map<string, seq<Record>>, columns: set<string>, eng: Engine)
    requires |rule.emits| == 1 && rule.emits[0].emits in compiled.queries
    requires QueryPrepares(compiled.queries[rule.emits[0].emits], compiled.ctes, columns)
    ensures RunEmits(rule, rule.emits, compiled, results, columns, eng) ==
      Ok(QueryClaims(rule, rule.emits[0].emits, compiled.queries[rule.emits[0].emits], results, eng))
  {
    var name := rule.emits[0].emits;
    var found := QueryClaims(rule, name, compiled.queries[name], results, eng);
    assert rule.emits[1..] == [] && found + [] == found;
  }

  /** The query claims once per group. */
  lemma OnceQueries(table: seq<Record>, fsql: FuncsSQL, eng: Engine)
    ensures WellFormed(OnceRule()) && RunTable(OnceRule(), table, {"k", "time"}, fsql, eng).Ok?
    ensures |RunTable(OnceRule(), table, {"k", "time"}, fsql, eng).value| == |GroupKeys(table, ["k"])|
  {
    var q := EmitQuery(Lit(SInt(1)));
    var compiled := Compiled(map["a" := EverythingCte()], map["P" := q]);
    var results := Results(compiled.ctes, table, eng);
    OnceCompiles(fsql);
    RunsCompiled(OnceRule(), compiled, table, {"k", "time"}, fsql, eng);
    CountRulePrepares(Lit(SInt(1)), {"k", "time"});
    RunsOne(OnceRule(), compiled, results, {"k", "time"}, eng);
    RowPerKey(table, eng);
    ConstantWhere(OnceRule(), "P", q, AnchorRows(q, results), true, eng);
  }

  lemma MixedGroups()
    ensures |GroupKeys(MixedTable(), ["k"])| == 2
  {
    TwoGroups(Int(1), 5, Str("1"), 6);
  }

  lemma MixedQueries(fsql: FuncsSQL, eng: Engine)
    ensures WellFormed(OnceRule()) && RunTable(OnceRule(), MixedTable(), {"k", "time"}, fsql, eng).Ok?
    ensures |RunTable(OnceRule(), MixedTable(), {"k", "time"}, fsql, eng).value| == 2
  {
    var table := MixedTable();
    MixedGroups();
    OnceQueries(table, fsql, eng);
  }

  lemma MixedLoaded()
    ensures TableOf(MixedEvents(), MixedTable())
  {
    FlatRecord(Row1(Int(1), 5));
    FlatRecord(Row1(Str("1"), 6));
  }

  /** Group keys of two kinds disagree. */
  lemma MixedKindsDisagree(funcs: Funcs, fsql: FuncsSQL, eng: Engine)
      returns (streamed: seq<Claim>, queried: seq<Claim>)
    ensures WellFormed(OnceRule()) && TableOf(MixedEvents(), MixedTable())
    ensures Streaming(OnceRule(), MixedEvents(), funcs) == Ok(streamed)
    ensures RunTable(OnceRule(), MixedTable(), {"k", "time"}, fsql, eng) == Ok(queried)
    ensures Bag(streamed) != Bag(queried)
  {
    MixedLoaded();
    MixedStreams(funcs);
    MixedQueries(fsql, eng);
    streamed, queried :=
      Streaming(OnceRule(), MixedEvents(), funcs).value,
      RunTable(OnceRule(), MixedTable(), {"k", "time"}, fsql, eng).value;
    SizesDiffer(streamed, queried);
  }

  // ----- a source that matched nothing -----

  function Nothing(): Source { Source(FALSE, [K], [], []) }

  /** Source a matches everything, source b nothing. */
  function TwoSources(when: Node, suppress: seq<Node>): Rule {
    Rule("r", 1, K, ["a", "b"], map["a" := Everything(), "b" := Nothing()], [Emit("P", when, None)], suppress)
  }

  lemma TwoAnchor(when: Node, suppress: seq<Node>)
    ensures WellFormed(TwoSources(when, suppress)) && AnchorOf(TwoSources(when, suppress)) == Ok("a")
  {
    var r := TwoSources(when, suppress);
    assert r.names[1..] == ["b"] && ["b"][1..] == [];
    assert WidestFrom("a", ["b"], r.sources) == WidestFrom("a", [], r.sources) == "a";
    assert WidestFrom("a", r.names, r.sources) == "a";
  }

  lemma {:induction false} NothingMatches(events: seq<Event>, want: string, funcs: Funcs)
    ensures Filter(events, Picker(Nothing(), want, funcs)) == []
  {
    if events != [] { NothingMatches(events[..|events| - 1], want, funcs); }
  }

  lemma TwoAggregates(when: Node, suppress: seq<Node>, events: seq<Event>, k: Value, funcs: Funcs)
      returns (aggs: AggregateEnv)
    ensures WellFormed(TwoSources(when, suppress))
    ensures Aggregates(map[], events, ["a", "b"], TwoSources(when, suppress).sources, map[K := k], funcs) == Ok(aggs)
    ensures "b" in aggs && aggs["b"].lastTS == 0 && aggs["b"].groupValues == map["k" := k]
  {
    var r := TwoSources(when, suppress);
    var values: CaseValues := map[K := k];
    TwoAnchor(when, suppress);
    FieldKey(CaseGetter(values), k);
    NothingMatches(events, RenderScalar(k), funcs);
    var a, b := AggregateFor(events, Everything(), values, funcs).value,
      AggregateFor(events, Nothing(), values, funcs).value;
    aggs := map["a" := a]["b" := b];
    assert [K][..0] == [] && FlatName(K) == "k" && GroupValuesOf(values, [K]) == map["k" := k];
    assert ["a", "b"][1..] == ["b"] && ["b"][1..] == [] && r.sources["a"] == Everything() &&
      r.sources["b"] == Nothing();
    assert Aggregates(map["a" := a], events, ["b"], r.sources, values, funcs) ==
      Aggregates(aggs, events, [], r.sources, values, funcs);
  }

  lemma OneFires(rule: Rule, when: Node, entity: string, ctx: Context)
    requires rule.emits == [Emit("P", when, None)] && EvalBool(when, ctx) == Ok(true)
    ensures FireAll(rule, rule.emits, entity, ctx) == Ok([Claim("P", entity, Null, rule.id, rule.version)])
  {
    var p := Claim("P", entity, Null, rule.id, rule.version);
    assert rule.emits[1..] == [] && [p] + [] == [p];
  }

  function NothingCte(): Cte { Cte(Lit(SInt(0)), ["k"], [], []) }

  function TwoQuery(where: SqlExpr): Query { Query("a", [Join("b", ["k"])], Column("a", "k"), Lit(SNull), where) }

  function TwoCtes(): map<string, Cte> { map["a" := EverythingCte(), "b" := NothingCte()] }

  lemma TwoSourcesCompile(when: Node, suppress: seq<Node>, fsql: FuncsSQL)
    ensures CompileSources(map[], ["a", "b"], TwoSources(when, suppress).sources, fsql) == Ok(TwoCtes())
  {
    var s := TwoSources(when, suppress).sources;
    assert s["a"] == Everything() && s["b"] == Nothing() && FlatNames([K]) == ["k"];
    assert CompileSource(Everything(), fsql) == Ok(EverythingCte()) &&
      CompileSource(Nothing(), fsql) == Ok(NothingCte());
    var first := map["a" := EverythingCte()];
    assert ["a", "b"][1..] == ["b"] && ["b"][1..] == [] && map[]["a" := EverythingCte()] == first;
    assert CompileSources(first, ["b"], s, fsql) == CompileSources(first["b" := NothingCte()], [], s, fsql);
    assert first["b" := NothingCte()] == TwoCtes();
  }

  lemma TwoJoins(when: Node, suppress: seq<Node>)
    ensures JoinsFor("a", ["a", "b"], TwoSources(when, suppress).sources) == [Join("b", ["k"])]
  {
    var s := TwoSources(when, suppress).sources;
    assert s["b"] == Nothing() && FlatNames([K]) == ["k"];
    assert ["a", "b"][1..] == ["b"] && ["b"][1..] == [];
    assert JoinsFor("a", ["b"], s) == [Join("b", ["k"])] + JoinsFor("a", [], s);
  }

  lemma TwoCompiles(when: Node, suppress: seq<Node>, where: SqlExpr, fsql: FuncsSQL)
    requires WellFormed(TwoSources(when, suppress))
    requires CompileEmit(TwoSources(when, suppress), Emit("P", when, None), "a", fsql) == Ok(TwoQuery(where))
    ensures CompileRule(TwoSources(when, suppress), fsql) == Ok(Compiled(TwoCtes(), map["P" := TwoQuery(where)]))
  {
    var r := TwoSources(when, suppress);
    TwoAnchor(when, suppress);
    TwoSourcesCompile(when, suppress, fsql);
    assert r.emits[1..] == [];
    assert CompileEmits(map["P" := TwoQuery(where)], r, [], "a", fsql) == Ok(map["P" := TwoQuery(where)]);
  }

  lemma TwoColumns()
    ensures Column("a", "k") in OutputColumns(TwoCtes()) && Column("b", "k") in OutputColumns(TwoCtes())
    ensures Column("b", "last_ts") in OutputColumns(TwoCtes())
  {
    var ctes := TwoCtes();
    assert "k" in OutputNames(ctes["a"]) && "k" in OutputNames(ctes["b"]) && "last_ts" in OutputNames(ctes["b"]);
  }

  lemma {:induction false} NothingSelected(table: seq<Record>, eng: Engine)
    ensures Filter(table, Admits(Lit(SInt(0)), "", eng)) == []
  {
    if table != [] { NothingSelected(table[..|table| - 1], eng); }
  }

  /** LEFT JOIN with an empty side keeps every row as it is. */
  lemma {:induction false} JoinNone(rows: seq<Row>, anchor: string, j: Join, eng: Engine)
    ensures JoinRows(rows, anchor, j, [], eng) == rows
  {
    if rows != [] {
      JoinNone(rows[..|rows| - 1], anchor, j, eng);
      assert rows == rows[..|rows| - 1] + [rows[|rows| - 1]];
    }
  }

  /** The WHERE holds of no row without columns of b. */
  ghost predicate NeedsB(where: SqlExpr, eng: Engine) { forall row: Row :: LacksB(row) ==> !Holds(where, row, eng) }

  ghost predicate LacksB(row: Row) { forall c :: Column("b", c) !in row }

  lemma {:induction false} UnknownWhere(rule: Rule, where: SqlExpr, rows: seq<Row>, eng: Engine)
    requires NeedsB(where, eng) && forall r :: r in rows ==> LacksB(r)
    ensures SelectClaims(rule, "P", TwoQuery(where), rows, eng) == []
  {
    if rows != [] {
      var row := rows[|rows| - 1];
      UnknownWhere(rule, where, rows[..|rows| - 1], eng);
      assert row in rows && LacksB(row);
      var none: seq<Claim> := [];
      assert none + none == none;
    }
  }

  lemma AnchorRowsOnly(where: SqlExpr, table: seq<Record>, eng: Engine)
    ensures var q, results := TwoQuery(where), Results(TwoCtes(), table, eng);
      JoinAll(AnchorRows(q, results), "a", q.joins, results, eng) == AnchorRows(q, results)
  {
    var q, results := TwoQuery(where), Results(TwoCtes(), table, eng);
    NothingSelected(table, eng);
    assert EvalCte(NothingCte(), table, eng) == [] && results["b"] == [];
    JoinNone(AnchorRows(q, results), "a", q.joins[0], eng);
    assert q.joins[1..] == [];
  }

  lemma AnchorRowsLackB(where: SqlExpr, results: map<string, seq<Record>>)
    ensures forall r :: r in AnchorRows(TwoQuery(where), results) ==> LacksB(r)
  {
    var rows := AnchorRows(TwoQuery(where), results);
    forall r | r in rows ensures LacksB(r) {
      var i :| 0 <= i < |rows| && rows[i] == r;
      assert r == Qualify("a", results["a"][i]);
    }
  }

  lemma TwoNoClaims(rule: Rule, where: SqlExpr, table: seq<Record>, eng: Engine)
    requires NeedsB(where, eng)
    ensures QueryClaims(rule, "P", TwoQuery(where), Results(TwoCtes(), table, eng), eng) == []
  {
    AnchorRowsOnly(where, table, eng);
    AnchorRowsLackB(where, Results(TwoCtes(), table, eng));
    UnknownWhere(rule, where, AnchorRows(TwoQuery(where), Results(TwoCtes(), table, eng)), eng);
  }

  lemma TwoPrepares(where: SqlExpr, columns: set<string>)
    requires Prepares(where, OutputColumns(TwoCtes())) && "k" in columns && "time" in columns
    ensures QueryPrepares(TwoQuery(where), TwoCtes(), columns)
  {
    TwoColumns();
  }

  lemma TwoQueries(when: Node, suppress: seq<Node>, where: SqlExpr, table: seq<Record>, columns: set<string>,
      fsql: FuncsSQL, eng: Engine)
    requires WellFormed(TwoSources(when, suppress)) && "k" in columns && "time" in columns
    requires CompileEmit(TwoSources(when, suppress), Emit("P", when, None), "a", fsql) == Ok(TwoQuery(where))
    requires QueryPrepares(TwoQuery(where), TwoCtes(), columns) && NeedsB(where, eng)
    ensures RunTable(TwoSources(when, suppress), table, columns, fsql, eng) == Ok([])
  {
    var r := TwoSources(when, suppress);
    var compiled := Compiled(TwoCtes(), map["P" := TwoQuery(where)]);
    TwoCompiles(when, suppress, where, fsql);
    RunsCompiled(r, compiled, table, columns, fsql, eng);
    TwoNoClaims(r, where, table, eng);
    RunsOne(r, compiled, Results(compiled.ctes, table, eng), columns, eng);
  }

  /** A case of such a rule that is not suppressed and fires streams one claim. */
  lemma TwoStreams(when: Node, suppress: seq<Node>, k: Value, t: int, aggs: AggregateEnv, funcs: Funcs)
    requires WellFormed(TwoSources(when, suppress))
    requires Aggregates(map[], [Map(Row1(k, t))], ["a", "b"], TwoSources(when, suppress).sources, map[K := k], funcs) ==
      Ok(aggs)
    requires Suppressed(suppress, AggregateContext(aggs, funcs)) == Ok(false) &&
      EvalBool(when, AggregateContext(aggs, funcs)) == Ok(true)
    ensures Streaming(TwoSources(when, suppress), [Map(Row1(k, t))], funcs).Ok?
    ensures |Streaming(TwoSources(when, suppress), [Map(Row1(k, t))], funcs).value| == 1
  {
    var r, events := TwoSources(when, suppress), [Map(Row1(k, t))];
    var ci := CaseInfo(RenderScalar(k), map[K := k]);
    FirstCase(k, t);
    UnionIsK(r.sources, r.names);
    OneFires(r, when, EntityOf(r, ci.values), AggregateContext(aggs, funcs));
    OneCase(r, events, ci, aggs, funcs, [Claim("P", EntityOf(r, ci.values), Null, "r", 1)]);
  }

  // ----- its timestamp -----

  /** `b.last_ts == 0` */
  function ZeroTime(): Node { Binary(Eq, Ident(["b", "last_ts"]), Literal(Int(0))) }

  function ZeroTimeSQL(): SqlExpr { CmpX(SEq, Col(Column("b", "last_ts")), Lit(SInt(0))) }

  lemma ZeroTimeCompiles(fsql: FuncsSQL)
    ensures WellFormed(TwoSources(ZeroTime(), []))
    ensures CompileEmit(TwoSources(ZeroTime(), []), Emit("P", ZeroTime(), None), "a", fsql) ==
      Ok(TwoQuery(ZeroTimeSQL()))
  {
    var s := TwoSources(ZeroTime(), []).sources;
    TwoAnchor(ZeroTime(), []);
    TwoJoins(ZeroTime(), []);
    assert s["b"] == Nothing() && FlatName(K) == "k";
    assert ColumnFor(s, ["b", "last_ts"]) == Ok(Col(Column("b", "last_ts")));
    assert ToSQL(ZeroTime(), AggregateTarget(s, fsql)) == Ok(ZeroTimeSQL());
  }

  lemma ZeroTimeUnknown(eng: Engine)
    ensures NeedsB(ZeroTimeSQL(), eng)
  {
    forall row: Row | LacksB(row) ensures !Holds(ZeroTimeSQL(), row, eng) {
      assert Column("b", "last_ts") !in row;
      assert SqlEval(ZeroTimeSQL(), row, eng) == SNull;
    }
  }

  lemma ZeroTimeStreams(k: Value, t: int, funcs: Funcs)
    ensures WellFormed(TwoSources(ZeroTime(), [])) &&
      Streaming(TwoSources(ZeroTime(), []), [Map(Row1(k, t))], funcs).Ok?
    ensures |Streaming(TwoSources(ZeroTime(), []), [Map(Row1(k, t))], funcs).value| == 1
  {
    var aggs := TwoAggregates(ZeroTime(), [], [Map(Row1(k, t))], k, funcs);
    ZeroTimeHolds(aggs, funcs);
    TwoStreams(ZeroTime(), [], k, t, aggs, funcs);
  }

  lemma ZeroTimeHolds(aggs: AggregateEnv, funcs: Funcs)
    requires "b" in aggs && aggs["b"].lastTS == 0
    ensures EvalBool(ZeroTime(), AggregateContext(aggs, funcs)) == Ok(true)
  {
    assert AggregateContext(aggs, funcs).env(["b", "last_ts"]) == Ok(Int(0));
  }

  lemma ZeroTimeQueries(table: seq<Record>, columns: set<string>, fsql: FuncsSQL, eng: Engine)
    requires "k" in columns && "time" in columns
    ensures WellFormed(TwoSources(ZeroTime(), [])) &&
      RunTable(TwoSources(ZeroTime(), []), table, columns, fsql, eng) == Ok([])
  {
    ZeroTimeCompiles(fsql);
    ZeroTimeUnknown(eng);
    TwoColumns();
    TwoPrepares(ZeroTimeSQL(), columns);
    TwoQueries(ZeroTime(), [], ZeroTimeSQL(), table, columns, fsql, eng);
  }

  /** The timestamp of a source that matched nothing disagrees: 0 in Go, NULL in SQL. */
  lemma EmptyTimestampDisagrees(funcs: Funcs, fsql: FuncsSQL, eng: Engine)
    returns (rule: Rule, events: seq<Event>, table: seq<Record>, streamed: seq<Claim>, queried: seq<Claim>)
    ensures rule == TwoSources(ZeroTime(), []) && WellFormed(rule) && TableOf(events, table)
    ensures Streaming(rule, events, funcs) == Ok(streamed) &&
      RunTable(rule, table, {"k", "time"}, fsql, eng) == Ok(queried)
    ensures Bag(streamed) != Bag(queried)
  {
    rule, events, table := TwoSources(ZeroTime(), []), [Map(Row1(Int(1), 5))], [RecordFor(Row1(Int(1), 5))];
    OneRecord(Row1(Int(1), 5));
    ZeroTimeStreams(Int(1), 5, funcs);
    ZeroTimeQueries(table, {"k", "time"}, fsql, eng);
    streamed, queried := Streaming(rule, events, funcs).value, [];
    SizesDiffer(streamed, queried);
  }

  // ----- a suppress clause over a missing value -----

  /** `b.k == "svc"` */
  function IsService(): Node { Binary(Eq, Ident(["b", "k"]), Literal(Str("svc"))) }

  function UnlessServiceSQL(): SqlExpr { AndX(Lit(SInt(1)), NotX(CmpX(SEq, Col(Column("b", "k")), Lit(SText("svc"))))) }

  lemma IsServiceCompiles(fsql: FuncsSQL)
    ensures WellFormed(TwoSources(TRUE, [IsService()]))
    ensures CompileEmit(TwoSources(TRUE, [IsService()]), Emit("P", TRUE, None), "a", fsql) ==
      Ok(TwoQuery(UnlessServiceSQL()))
  {
    var s := TwoSources(TRUE, [IsService()]).sources;
    TwoAnchor(TRUE, [IsService()]);
    TwoJoins(TRUE, [IsService()]);
    assert s["b"] == Nothing() && FlatName(K) == "k" && FlatNames([K]) == ["k"];
    assert "k" in FlatNames(s["b"].groupBy);
    assert ColumnFor(s, ["b", "k"]) == Ok(Col(Column("b", "k")));
    var part := CmpX(SEq, Col(Column("b", "k")), Lit(SText("svc")));
    assert ToSQL(IsService(), AggregateTarget(s, fsql)) == Ok(part);
    assert [IsService()][1..] == [];
    assert ToSQLAll([IsService()], AggregateTarget(s, fsql)).value == [part];
  }

  lemma IsServiceUnknown(eng: Engine)
    ensures NeedsB(UnlessServiceSQL(), eng)
  {
    forall row: Row | LacksB(row) ensures !Holds(UnlessServiceSQL(), row, eng) {
      assert Column("b", "k") !in row;
      var part := CmpX(SEq, Col(Column("b", "k")), Lit(SText("svc")));
      assert SqlEval(part, row, eng) == SNull;
      assert SqlEval(NotX(part), row, eng) == SNull;
    }
  }

  lemma IsServiceStreams(t: int, funcs: Funcs)
    ensures WellFormed(TwoSources(TRUE, [IsService()])) &&
      Streaming(TwoSources(TRUE, [IsService()]), [Map(Row1(Int(1), t))], funcs).Ok?
    ensures |Streaming(TwoSources(TRUE, [IsService()]), [Map(Row1(Int(1), t))], funcs).value| == 1
  {
    var aggs := TwoAggregates(TRUE, [IsService()], [Map(Row1(Int(1), t))], Int(1), funcs);
    NotSuppressed(aggs, funcs);
    TwoStreams(TRUE, [IsService()], Int(1), t, aggs, funcs);
  }

  lemma IsServiceQueries(table: seq<Record>, columns: set<string>, fsql: FuncsSQL, eng: Engine)
    requires "k" in columns && "time" in columns
    ensures WellFormed(TwoSources(TRUE, [IsService()])) &&
      RunTable(TwoSources(TRUE, [IsService()]), table, columns, fsql, eng) == Ok([])
  {
    IsServiceCompiles(fsql);
    IsServiceUnknown(eng);
    TwoColumns();
    TwoPrepares(UnlessServiceSQL(), columns);
    TwoQueries(TRUE, [IsService()], UnlessServiceSQL(), table, columns, fsql, eng);
  }

  /** A suppress clause over a missing value disagrees: it does not hold in Go, and drops the row in SQL. */
  lemma NullSuppressDisagrees(funcs: Funcs, fsql: FuncsSQL, eng: Engine)
    returns (rule: Rule, events: seq<Event>, table: seq<Record>, streamed: seq<Claim>, queried: seq<Claim>)
    ensures rule == TwoSources(TRUE, [IsService()]) && WellFormed(rule) && TableOf(events, table)
    ensures Streaming(rule, events, funcs) == Ok(streamed) &&
      RunTable(rule, table, {"k", "time"}, fsql, eng) == Ok(queried)
    ensures Bag(streamed) != Bag(queried)
  {
    rule, events, table := TwoSources(TRUE, [IsService()]), [Map(Row1(Int(1), 5))], [RecordFor(Row1(Int(1), 5))];
    OneRecord(Row1(Int(1), 5));
    IsServiceStreams(5, funcs);
    IsServiceQueries(table, {"k", "time"}, fsql, eng);
    streamed, queried := Streaming(rule, events, funcs).value, [];
    SizesDiffer(streamed, queried);
  }

  lemma NotSuppressed(aggs: AggregateEnv, funcs: Funcs)
    requires "b" in aggs && aggs["b"].groupValues == map["k" := Int(1)]
    ensures Suppressed([IsService()], AggregateContext(aggs, funcs)) == Ok(false)
  {
    var ctx := AggregateContext(aggs, funcs);
    assert ctx.env(["b", "k"]) == Ok(Int(1));
    assert EvalBool(IsService(), ctx) == Ok(false);
    assert [IsService()][1..] == [];
  }
}
