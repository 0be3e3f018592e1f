/**
 The rule compiler preserves meaning: for a rule and a corpus within the stated conditions, the streaming
 evaluator and the compiled SQL query produce the same claims.
 */
module CdlRule {
  import opened Common
  import opened Seqs
  import opened CdlExpr
  import opened CdlEvents
  import opened CdlAggregate
  import opened CdlStreaming
  import opened CdlSql
  import opened CdlCompile
  import opened CdlQuery
  import opened CdlGroups
  import opened CdlGroupRecord
  import opened CdlJoin
  import opened CdlCase

  // ----- conditions, all on the Go side -----

  function CaseAggregates(rule: Rule, c: Corpus, values: CaseValues): Result<AggregateEnv>
    requires WellFormed(rule)
  {
    Aggregates(map[], c.events, rule.names, rule.sources, values, c.funcs)
  }

  /** What a case with an anchor match consults means the same on both sides. */
  ghost predicate CaseConsistent(rule: Rule, c: Corpus, anchor: string, values: CaseValues, aggs: AggregateEnv) {
    var ctx, scope := AggregateContext(aggs, c.funcs), AggregateScope(c, rule.sources, values, aggs);
    anchor in aggs &&
    (aggs[anchor].count > 0 ==>
       && SuppressSided(rule.suppress, ctx, scope)
       && (Suppressed(rule.suppress, ctx) == Ok(false) ==> forall e :: e in rule.emits ==>
         EmitConsistent(e, ctx, scope)))
  }

  function RuleCases(rule: Rule, c: Corpus): seq<CaseInfo>
    requires WellFormed(rule)
  {
    Cases(c.events, UnionFields(rule.names, rule.sources))
  }

  /** The entity is a field of the anchor and never a bool. */
  ghost predicate EntityOk(rule: Rule, c: Corpus, anchor: Source) {
    && rule.entity in anchor.groupBy
    && (forall e :: e in c.events && Resolve(e, rule.entity).Some? ==> !Resolve(e, rule.entity).value.Bool?)
  }

  ghost predicate RuleOk(rule: Rule, c: Corpus, anchor: string) {
    match rule
    case Rule(_, _, _, names, sources, emits, _) =>
      && WellFormed(rule) && AnchorOf(rule) == Ok(anchor) && CorpusOk(c)
      && anchor in sources && EntityOk(rule, c, sources[anchor])
      && (forall n :: n in sources ==> SourceOk(c, sources[n]))
      && (forall ci :: ci in RuleCases(rule, c) ==> CaseAggregates(rule, c, ci.values).Ok? ==>
            CaseConsistent(rule, c, anchor, ci.values, CaseAggregates(rule, c, ci.values).value))
  }

  // ----- cases -----

  lemma AnchorFields(rule: Rule, anchor: string)
    requires WellFormed(rule) && AnchorOf(rule) == Ok(anchor)
    ensures anchor in rule.sources && anchor in rule.names
    ensures forall n :: n in rule.sources ==> forall f :: f in rule.sources[n].groupBy ==>
      f in rule.sources[anchor].groupBy
    ensures forall f :: f in UnionFields(rule.names, rule.sources) <==> f in rule.sources[anchor].groupBy
  {
    WidestIn(rule.names[0], rule.names, rule.sources);
    UnionFieldsElems(rule.names, rule.sources);
  }

  /** The case of an event carries the event's values. */
  ghost predicate IsCase(c: Corpus, fields: seq<Path>, values: CaseValues) {
    values.Keys == Elems(fields) &&
      exists e :: e in c.events && CarriesCase(e, values, fields) && CaseOf(e, fields).Some?
  }

  lemma CaseIsFromEvent(rule: Rule, c: Corpus, anchor: string, ci: CaseInfo)
    requires WellFormed(rule) && AnchorOf(rule) == Ok(anchor) && ci in RuleCases(rule, c)
    ensures anchor in rule.sources && IsCase(c, rule.sources[anchor].groupBy, ci.values)
    ensures ci.key == KeyOf(ci.values, UnionFields(rule.names, rule.sources))
  {
    var fields := UnionFields(rule.names, rule.sources);
    AnchorFields(rule, anchor);
    CasesSound(c.events, fields);
    var e :| e in c.events && CaseOf(e, fields) == Some(ci.values);
    var gb := rule.sources[anchor].groupBy;
    assert CarriesCase(e, ci.values, gb);
    assert CaseOf(e, gb).Some?;
    assert ci.values.Keys == Elems(gb);
  }

  lemma CaseGroupsBy(c: Corpus, src: Source, fields: seq<Path>, values: CaseValues)
    requires GroupFields(c.events, src.groupBy) && IsCase(c, fields, values)
    requires forall f :: f in src.groupBy ==> f in fields
    ensures FromCorpus(c.events, values, src.groupBy)
    ensures GroupKey(CaseGetter(values), src.groupBy) == Some(KeyOf(values, src.groupBy))
  {
    var e :| e in c.events && CarriesCase(e, values, fields) && CaseOf(e, fields).Some?;
    forall f | f in src.groupBy
      ensures f in values && IsKeyScalar(values[f]) && Resolve(e, f) == Some(ValueOf(values, f))
    {
      assert f in fields && f in Elems(fields);
      assert KeyField(c.events, f);
    }
    assert CarriesCase(e, values, src.groupBy);
    assert Rendered(CaseGetter(values), src.groupBy).Some?;
  }

  /** A case meets the hypotheses of every source whose fields the anchor has, once its aggregate could be computed. */
  lemma CaseSource(c: Corpus, src: Source, fields: seq<Path>, values: CaseValues)
    requires CorpusOk(c) && SourceOk(c, src) && IsCase(c, fields, values)
    requires forall f :: f in src.groupBy ==> f in fields
    ensures AggregateFor(c.events, src, values, c.funcs).Ok? ==> WhereTotal(c.events, src, c.funcs)
    ensures WhereTotal(c.events, src, c.funcs) ==> SourceCase(c, src, values, KeyOf(values, src.groupBy))
  {
    CaseGroupsBy(c, src, fields, values);
  }

  /** Two cases with equal GROUP BY keys are the same case. */
  lemma CaseKeysDistinct(c: Corpus, fields: seq<Path>, a: CaseValues, b: CaseValues)
    requires GroupFields(c.events, fields) && IsCase(c, fields, a) && IsCase(c, fields, b)
    requires KeyRecord(a, fields) == KeyRecord(b, fields)
    ensures a == b
  {
    forall f | f in fields ensures ValueOf(a, f) == ValueOf(b, f) { CaseValueByKey(c, fields, a, b, f); }
    forall f | f in a.Keys ensures a[f] == b[f] { assert f in fields; }
  }

  lemma CaseValueByKey(c: Corpus, fields: seq<Path>, a: CaseValues, b: CaseValues, f: Path)
    requires GroupFields(c.events, fields) && IsCase(c, fields, a) && IsCase(c, fields, b)
    requires KeyRecord(a, fields) == KeyRecord(b, fields) && f in fields
    ensures ValueOf(a, f) == ValueOf(b, f)
  {
    var d :| d in c.events && CarriesCase(d, a, fields) && CaseOf(d, fields).Some?;
    var e :| e in c.events && CarriesCase(e, b, fields) && CaseOf(e, fields).Some?;
    KeyRecordAt(a, fields);
    KeyRecordAt(b, fields);
    assert KeyField(c.events, f);
    assert SameKind(Resolve(d, f).value, Resolve(e, f).value);
    StoreInjective(ValueOf(a, f), ValueOf(b, f));
  }

  // ----- what compilation produces -----

  lemma {:induction false} CompileSourcesAt(acc: map<string, Cte>, names: seq<string>, sources: map<string, Source>,
      fsql: FuncsSQL)
    requires NoDup(names) && forall n :: n in names ==> n in sources
    requires CompileSources(acc, names, sources, fsql).Ok?
    ensures var ctes := CompileSources(acc, names, sources, fsql).value;
      && (forall n :: n in names ==> n in ctes && CompileSource(sources[n], fsql) == Ok(ctes[n]))
      && (forall n :: n in acc && n !in names ==> n in ctes && ctes[n] == acc[n])
    decreases names
  {
    if names != [] {
      CompileSourcesAt(acc[names[0] := CompileSource(sources[names[0]], fsql).value], names[1..], sources, fsql);
      assert names == [names[0]] + names[1..];
    }
  }

  predicate LastOfName(emits: seq<Emit>, k: nat)
    requires k < |emits|
  {
    forall j :: k < j < |emits| ==> emits[j].emits != emits[k].emits
  }

  function LastIndex(emits: seq<Emit>, i: nat): (k: nat)
    requires i < |emits|
    ensures i <= k < |emits| && emits[k].emits == emits[i].emits && LastOfName(emits, k)
    decreases |emits|
  {
    var n := |emits| - 1;
    if emits[n].emits == emits[i].emits then n
    else
      var k := LastIndex(emits[..n], i);
      assert forall j :: k < j < n ==> emits[..n][j] == emits[j];
      k
  }

  /** The emit clauses whose queries are kept, one for each clause: the last of the same predicate. */
  function Kept(emits: seq<Emit>): (r: seq<Emit>)
    ensures |r| == |emits| && forall i :: 0 <= i < |emits| ==> r[i] == emits[LastIndex(emits, i)]
  {
    seq(|emits|, i requires 0 <= i < |emits| => emits[LastIndex(emits, i)])
  }

  predicate DistinctEmits(emits: seq<Emit>) { forall i, j :: 0 <= i < j < |emits| ==> emits[i].emits != emits[j].emits }

  lemma DistinctAllKept(emits: seq<Emit>)
    requires DistinctEmits(emits)
    ensures Kept(emits) == emits
  {}

  lemma {:induction false} OtherQueriesStay(acc: map<string, Query>, rule: Rule, emits: seq<Emit>, anchor: string,
      fsql: FuncsSQL, n: string)
    requires WellFormed(rule) && CompileEmits(acc, rule, emits, anchor, fsql).Ok?
    requires n in acc && forall k :: 0 <= k < |emits| ==> emits[k].emits != n
    ensures var queries := CompileEmits(acc, rule, emits, anchor, fsql).value; n in queries && queries[n] == acc[n]
    decreases emits
  {
    if emits != [] {
      OtherQueriesStay(acc[emits[0].emits := CompileEmit(rule, emits[0], anchor, fsql).value], rule, emits[1..], anchor,
        fsql, n);
    }
  }

  /** The query kept for a predicate is that of its last emit clause; earlier clauses of the same name are lost. */
  lemma {:induction false} LastEmitWins(acc: map<string, Query>, rule: Rule, emits: seq<Emit>, anchor: string,
      fsql: FuncsSQL, k: nat)
    requires WellFormed(rule) && CompileEmits(acc, rule, emits, anchor, fsql).Ok?
    requires k < |emits| && LastOfName(emits, k)
    ensures var queries := CompileEmits(acc, rule, emits, anchor, fsql).value;
      emits[k].emits in queries && CompileEmit(rule, emits[k], anchor, fsql) == Ok(queries[emits[k].emits])
    decreases emits
  {
    LastOfRest(emits, k);
    var acc' := acc[emits[0].emits := CompileEmit(rule, emits[0], anchor, fsql).value];
    if k > 0 {
      LastEmitWins(acc', rule, emits[1..], anchor, fsql, k - 1);
    } else {
      OtherQueriesStay(acc', rule, emits[1..], anchor, fsql, emits[0].emits);
    }
  }

  lemma LastOfRest(emits: seq<Emit>, k: nat)
    requires k < |emits| && LastOfName(emits, k)
    ensures k > 0 ==> emits[1..][k - 1] == emits[k] && LastOfName(emits[1..], k - 1)
    ensures k == 0 ==> forall j :: 0 <= j < |emits| - 1 ==> emits[1..][j].emits != emits[0].emits
  {
    var rest := emits[1..];
    forall j | 0 <= j < |rest| ensures rest[j] == emits[j + 1] {}
  }

  lemma {:induction false} JoinsForAt(anchor: string, names: seq<string>, sources: map<string, Source>)
    requires NoDup(names) && forall n :: n in names ==> n in sources
    ensures DistinctJoins(JoinsFor(anchor, names, sources))
    ensures forall j :: j in JoinsFor(anchor, names, sources) ==>
      j.name in names && j.name != anchor && j.on == FlatNames(sources[j.name].groupBy)
    ensures forall n :: n in names && n != anchor ==> n in JoinNames(JoinsFor(anchor, names, sources))
  {
    if names != [] {
      JoinsForAt(anchor, names[1..], sources);
      assert names == [names[0]] + names[1..];
      var joins := JoinsFor(anchor, names, sources);
      if names[0] != anchor {
        assert joins[0] in joins && joins[0].name == names[0];
        forall n | n in names[1..] && n != anchor ensures n in JoinNames(joins) {
          var j :| j in joins[1..] && j.name == n;
          assert j in joins;
        }
      }
    }
  }

  // ----- one case on the SQL side -----

  ghost predicate SourceReady(c: Corpus, src: Source, cte: Cte, values: CaseValues, agg: Aggregate, fields: seq<Path>) {
    match src
    case Source(_, groupBy, _, _) =>
      && SourceOk(c, src) && CompileSource(src, c.fsql) == Ok(cte)
      && AggregateFor(c.events, src, values, c.funcs) == Ok(agg)
      && (forall f :: f in groupBy ==> f in fields)
  }

  /** A case of the rule with its compiled sources and Go aggregates. */
  ghost predicate CaseReady(rule: Rule, c: Corpus, anchor: string, ctes: map<string, Cte>, values: CaseValues,
      aggs: AggregateEnv) {
    match rule
    case Rule(_, _, _, names, sources, _, _) =>
      && WellFormed(rule) && anchor in sources && CorpusOk(c) && IsCase(c, sources[anchor].groupBy, values)
      && aggs.Keys == sources.Keys
      && (forall n :: n in sources ==>
        n in ctes && SourceReady(c, sources[n], ctes[n], values, aggs[n], sources[anchor].groupBy))
  }

  ghost function CasePlan(rule: Rule, c: Corpus, anchor: string, ctes: map<string, Cte>, values: CaseValues,
      aggs: AggregateEnv): Plan
    requires anchor in rule.sources && anchor in ctes
    requires forall n :: n in rule.sources ==> n in ctes && n in aggs
  {
    Plan(anchor, SourceRecord(c, rule.sources[anchor], ctes[anchor], values),
         map n | n in rule.sources :: OwnRow(c, rule.sources[n], ctes[n], values, aggs[n]))
  }

  lemma ReadyView(rule: Rule, c: Corpus, anchor: string, ctes: map<string, Cte>, values: CaseValues, aggs: AggregateEnv,
      n: string)
    requires CaseReady(rule, c, anchor, ctes, values, aggs) && n in rule.sources
    ensures n in ctes && n in aggs &&
      SourceReady(c, rule.sources[n], ctes[n], values, aggs[n], rule.sources[anchor].groupBy)
    ensures SourceCase(c, rule.sources[n], values, KeyOf(values, rule.sources[n].groupBy))
    ensures View(aggs[n], OwnRow(c, rule.sources[n], ctes[n], values, aggs[n]), values, rule.sources[n],
      SourceMatches(c, rule.sources[n], values))
    ensures aggs[n].count == |SourceMatches(c, rule.sources[n], values)|
  {
    var src := rule.sources[n];
    assert SourceReady(c, src, ctes[n], values, aggs[n], rule.sources[anchor].groupBy);
    CaseSource(c, src, rule.sources[anchor].groupBy, values);
    SourceView(c, src, values, KeyOf(values, src.groupBy), ctes[n], aggs[n]);
  }

  lemma ReadyCaseView(rule: Rule, c: Corpus, anchor: string, ctes: map<string, Cte>, values: CaseValues,
      aggs: AggregateEnv)
    requires CaseReady(rule, c, anchor, ctes, values, aggs)
    ensures CaseView(c, rule.sources, aggs, CasePlan(rule, c, anchor, ctes, values, aggs), values)
  {
    var plan := CasePlan(rule, c, anchor, ctes, values, aggs);
    forall n | n in rule.sources
      ensures n in plan.own &&
        View(aggs[n], plan.own[n], values, rule.sources[n], SourceMatches(c, rule.sources[n], values))
    {
      ReadyView(rule, c, anchor, ctes, values, aggs, n);
    }
  }

  /** The anchor's record repeats the case's values. */
  lemma AnchorRecord(c: Corpus, src: Source, cte: Cte, values: CaseValues)
    requires GroupFields(c.events, src.groupBy)
    ensures var rec := SourceRecord(c, src, cte, values);
      forall f :: f in src.groupBy ==> FlatName(f) in rec && rec[FlatName(f)] == Store(ValueOf(values, f))
  {
    KeyUnreserved(c.events, values, src.groupBy);
    RecordHasKey(cte, KeyRecord(values, src.groupBy), c.table, Filter(c.table, Admits(cte.where, "", c.eng)), c.eng);
  }

  lemma ReadyFindsOwn(rule: Rule, c: Corpus, anchor: string, ctes: map<string, Cte>, values: CaseValues,
      aggs: AggregateEnv, n: string)
    requires CaseReady(rule, c, anchor, ctes, values, aggs) && n in rule.sources
    ensures n in ctes &&
      FindsOwn(CasePlan(rule, c, anchor, ctes, values, aggs), Join(n, FlatNames(rule.sources[n].groupBy)),
                     EvalCte(ctes[n], c.table, c.eng), c.eng)
  {
    ReadyView(rule, c, anchor, ctes, values, aggs, n);
    ReadyView(rule, c, anchor, ctes, values, aggs, anchor);
    var src, fields := rule.sources[n], rule.sources[anchor].groupBy;
    AnchorRecord(c, rule.sources[anchor], ctes[anchor], values);
    SourceFindsOwn(c, src, values, KeyOf(values, src.groupBy), ctes[n], aggs[n],
      CasePlan(rule, c, anchor, ctes, values, aggs), n, fields);
  }

  lemma ReadyRow(rule: Rule, c: Corpus, anchor: string, ctes: map<string, Cte>, values: CaseValues, aggs: AggregateEnv)
      returns (row: Row)
    requires CaseReady(rule, c, anchor, ctes, values, aggs) && aggs[anchor].count > 0
    ensures anchor in ctes
    ensures JoinAll([Qualify(anchor, SourceRecord(c, rule.sources[anchor], ctes[anchor], values))], anchor,
                    JoinsFor(anchor, rule.names, rule.sources), Results(ctes, c.table, c.eng), c.eng) == [row]
    ensures Contributes(CasePlan(rule, c, anchor, ctes, values, aggs), row, rule.sources.Keys)
  {
    var plan, joins := CasePlan(rule, c, anchor, ctes, values, aggs), JoinsFor(anchor, rule.names, rule.sources);
    var start := Qualify(anchor, plan.anchorRec);
    JoinsForAt(anchor, rule.names, rule.sources);
    forall j | j in joins ensures j.name in ctes && FindsOwn(plan, j, EvalCte(ctes[j.name], c.table, c.eng), c.eng) {
      ReadyFindsOwn(rule, c, anchor, ctes, values, aggs, j.name);
    }
    row := JoinFrom(plan, start, joins, Results(ctes, c.table, c.eng), c.eng);
    assert {anchor} + JoinNames(joins) >= rule.sources.Keys;
  }

  /** The chain of joins started from the anchor's own columns. */
  lemma JoinFrom(plan: Plan, start: Row, joins: seq<Join>, results: map<string, seq<Record>>, eng: Engine)
      returns (row: Row)
    requires start == Qualify(plan.anchor, plan.anchorRec) && DistinctJoins(joins)
    requires plan.anchor in plan.own && plan.own[plan.anchor] == [plan.anchorRec]
    requires forall j :: j in joins ==>
      j.name in results && FindsOwn(plan, j, results[j.name], eng) && j.name != plan.anchor
    ensures JoinAll([start], plan.anchor, joins, results, eng) == [row]
    ensures Contributes(plan, row, {plan.anchor} + JoinNames(joins))
  {
    row := JoinPlan(plan, start, joins, results, eng, {plan.anchor});
  }

  // ----- one case, one emit -----

  /** What an emit clause contributes for a case on the streaming side. */
  ghost function FireBag(rule: Rule, c: Corpus, values: CaseValues, emit: Emit): multiset<Claim>
    requires WellFormed(rule)
  {
    match CaseAggregates(rule, c, values)
    case Err => multiset{}
    case Ok(aggs) =>
      var ctx := AggregateContext(aggs, c.funcs);
      match Fire(rule, emit, EntityOf(rule, values), ctx)
      case Err => multiset{}
      case Ok(cs) => if Suppressed(rule.suppress, ctx) == Ok(false) then Bag(cs) else multiset{}
  }

  /** What the emit's query contributes for one anchor record. */
  ghost function RecordBag(rule: Rule, emits: string, q: Query, rec: Record, results: map<string, seq<Record>>,
      eng: Engine): multiset<Claim> {
    Bag(SelectClaims(rule, emits, q, JoinAll([Qualify(q.anchor, rec)], q.anchor, q.joins, results, eng), eng))
  }

  /** The streaming side got through this case without an error. */
  ghost predicate CaseSucceeds(rule: Rule, aggs: AggregateEnv, c: Corpus, values: CaseValues) {
    var ctx := AggregateContext(aggs, c.funcs);
    && Suppressed(rule.suppress, ctx).Ok?
    && (Suppressed(rule.suppress, ctx) == Ok(false) ==> forall e :: e in rule.emits ==>
      Fire(rule, e, EntityOf(rule, values), ctx).Ok?)
  }

  lemma StoredKeyReadsBack(v: Value)
    requires IsKeyScalar(v) && !v.Bool?
    ensures Decode(Store(v)) == v
  {}

  lemma CaseValueFrom(c: Corpus, fields: seq<Path>, values: CaseValues, f: Path) returns (e: Event)
    requires IsCase(c, fields, values) && f in fields
    ensures e in c.events && Resolve(e, f) == Some(ValueOf(values, f)) && f in values
  {
    e :| e in c.events && CarriesCase(e, values, fields) && CaseOf(e, fields).Some?;
    assert f in Elems(fields);
  }

  lemma EntityValue(rule: Rule, c: Corpus, fields: seq<Path>, values: CaseValues)
    requires GroupFields(c.events, fields) && IsCase(c, fields, values) && rule.entity in fields
    requires forall e :: e in c.events && Resolve(e, rule.entity).Some? ==> !Resolve(e, rule.entity).value.Bool?
    ensures RenderScalar(Decode(Store(ValueOf(values, rule.entity)))) == EntityOf(rule, values)
  {
    var e := CaseValueFrom(c, fields, values, rule.entity);
    assert KeyField(c.events, rule.entity);
    StoredKeyReadsBack(ValueOf(values, rule.entity));
  }

  lemma PlanEntity(plan: Plan, row: Row, done: set<string>, column: string)
    requires Contributes(plan, row, done) && plan.anchor in done
    requires plan.anchor in plan.own && plan.own[plan.anchor] == [plan.anchorRec]
    ensures Lookup(row, Column(plan.anchor, column)) == At(plan.anchorRec, column)
  {
    assert Lookup(row, Column(plan.anchor, column)) == OwnAt(plan, plan.anchor, column);
  }

  lemma EntityColumn(rule: Rule, c: Corpus, anchor: string, ctes: map<string, Cte>, values: CaseValues,
      aggs: AggregateEnv, row: Row)
    requires CaseReady(rule, c, anchor, ctes, values, aggs) && aggs[anchor].count > 0
    requires Contributes(CasePlan(rule, c, anchor, ctes, values, aggs), row, rule.sources.Keys)
    requires EntityOk(rule, c, rule.sources[anchor])
    ensures RenderScalar(Decode(Lookup(row, Column(anchor, FlatName(rule.entity))))) == EntityOf(rule, values)
  {
    ReadyView(rule, c, anchor, ctes, values, aggs, anchor);
    AnchorRecord(c, rule.sources[anchor], ctes[anchor], values);
    PlanEntity(CasePlan(rule, c, anchor, ctes, values, aggs), row, rule.sources.Keys, FlatName(rule.entity));
    EntityValue(rule, c, rule.sources[anchor].groupBy, values);
  }

  lemma SingleRowBag(rule: Rule, emits: string, q: Query, rec: Record, results: map<string, seq<Record>>, eng: Engine,
      row: Row)
    requires JoinAll([Qualify(q.anchor, rec)], q.anchor, q.joins, results, eng) == [row]
    ensures RecordBag(rule, emits, q, rec, results, eng) == Bag(RowClaims(rule, emits, q, row, eng))
  {
    assert [row][..0] == [];
    assert SelectClaims(rule, emits, q, [row], eng) == [] + RowClaims(rule, emits, q, row, eng) ==
      RowClaims(rule, emits, q, row, eng);
  }

  lemma FireBagIs(rule: Rule, c: Corpus, values: CaseValues, aggs: AggregateEnv, emit: Emit)
    requires WellFormed(rule) && CaseAggregates(rule, c, values) == Ok(aggs) && CaseSucceeds(rule, aggs, c, values) &&
      emit in rule.emits
    ensures var ctx := AggregateContext(aggs, c.funcs);
      FireBag(rule, c, values, emit) ==
        if Suppressed(rule.suppress, ctx) == Ok(false) then Bag(Fire(rule, emit, EntityOf(rule, values), ctx).value)
          else multiset{}
  {}

  lemma CaseEmitAgrees(rule: Rule, c: Corpus, anchor: string, ctes: map<string, Cte>, values: CaseValues,
      aggs: AggregateEnv, emit: Emit, q: Query)
    requires CaseReady(rule, c, anchor, ctes, values, aggs) && aggs[anchor].count > 0
    requires CaseAggregates(rule, c, values) == Ok(aggs) && CaseConsistent(rule, c, anchor, values, aggs) &&
      CaseSucceeds(rule, aggs, c, values)
    requires EntityOk(rule, c, rule.sources[anchor])
    requires emit in rule.emits && CompileEmit(rule, emit, anchor, c.fsql) == Ok(q)
    ensures anchor in ctes
    ensures RecordBag(rule, emit.emits, q, SourceRecord(c, rule.sources[anchor], ctes[anchor], values),
      Results(ctes, c.table, c.eng), c.eng) ==
      FireBag(rule, c, values, emit)
  {
    var row := ReadyRow(rule, c, anchor, ctes, values, aggs);
    ReadyCaseView(rule, c, anchor, ctes, values, aggs);
    EntityColumn(rule, c, anchor, ctes, values, aggs, row);
    CaseRowAgrees(rule, c, anchor, CasePlan(rule, c, anchor, ctes, values, aggs), values, aggs, row, emit, q);
    SingleRowBag(rule, emit.emits, q, SourceRecord(c, rule.sources[anchor], ctes[anchor], values),
      Results(ctes, c.table, c.eng), c.eng, row);
    FireBagIs(rule, c, values, aggs, emit);
  }

  lemma CaseRowAgrees(rule: Rule, c: Corpus, anchor: string, plan: Plan, values: CaseValues, aggs: AggregateEnv,
      row: Row, emit: Emit, q: Query)
    requires WellFormed(rule) && anchor in aggs && aggs[anchor].count > 0 &&
      FunctionsAgree(c.funcs, c.fsql, c.calls, c.eng)
    requires CaseView(c, rule.sources, aggs, plan, values) && Contributes(plan, row, rule.sources.Keys)
    requires CaseConsistent(rule, c, anchor, values, aggs) && CaseSucceeds(rule, aggs, c, values)
    requires emit in rule.emits && CompileEmit(rule, emit, anchor, c.fsql) == Ok(q)
    requires RenderScalar(Decode(Lookup(row, Column(anchor, FlatName(rule.entity))))) == EntityOf(rule, values)
    ensures var ctx := AggregateContext(aggs, c.funcs);
      Bag(RowClaims(rule, emit.emits, q, row, c.eng)) ==
        if Suppressed(rule.suppress, ctx) == Ok(false) then Bag(Fire(rule, emit, EntityOf(rule, values), ctx).value)
          else multiset{}
  {
    AggregateLinked(rule.sources, aggs, plan, values, row, c);
    FireAgrees(rule, emit, anchor, q, AggregateContext(aggs, c.funcs), AggregateScope(c, rule.sources, values, aggs),
      c.fsql, row, c.eng, EntityOf(rule, values));
  }

  // ----- sums -----

  ghost function FireOf(rule: Rule, c: Corpus, values: CaseValues): Emit -> multiset<Claim>
    requires WellFormed(rule)
  {
    (e: Emit) => FireBag(rule, c, values, e)
  }

  ghost function EmitBag(rule: Rule, entity: string, ctx: Context): Emit -> multiset<Claim> {
    (e: Emit) => match Fire(rule, e, entity, ctx) case Err => multiset{} case Ok(cs) => Bag(cs)
  }

  lemma {:induction false} FireAllSum(rule: Rule, emits: seq<Emit>, entity: string, ctx: Context)
    requires FireAll(rule, emits, entity, ctx).Ok?
    ensures Bag(FireAll(rule, emits, entity, ctx).value) == Sum(emits, EmitBag(rule, entity, ctx))
    ensures forall e :: e in emits ==> Fire(rule, e, entity, ctx).Ok?
  {
    if emits != [] {
      FireAllSum(rule, emits[1..], entity, ctx);
      BagAppend(Fire(rule, emits[0], entity, ctx).value, FireAll(rule, emits[1..], entity, ctx).value);
      assert emits == [emits[0]] + emits[1..];
      SumAppend([emits[0]], emits[1..], EmitBag(rule, entity, ctx));
      SumOne(emits[0], EmitBag(rule, entity, ctx));
    }
  }

  lemma SumOne<T, C>(x: T, f: T -> multiset<C>)
    ensures Sum([x], f) == f(x)
  {
    assert [x][..0] == [];
  }

  lemma CaseSum(rule: Rule, c: Corpus, values: CaseValues)
    requires WellFormed(rule) && CaseClaims(rule, c.events, values, c.funcs).Ok?
    ensures Bag(CaseClaims(rule, c.events, values, c.funcs).value) == Sum(rule.emits, FireOf(rule, c, values))
    ensures CaseAggregates(rule, c, values).Ok? && CaseSucceeds(rule, CaseAggregates(rule, c, values).value, c, values)
  {
    var ctx := AggregateContext(CaseAggregates(rule, c, values).value, c.funcs);
    if Suppressed(rule.suppress, ctx) == Ok(false) {
      FireAllSum(rule, rule.emits, EntityOf(rule, values), ctx);
      SumEqual(rule.emits, rule.emits, EmitBag(rule, EntityOf(rule, values), ctx), FireOf(rule, c, values));
    } else {
      SumEmpty(rule.emits, FireOf(rule, c, values));
    }
  }

  ghost function CaseBag(rule: Rule, c: Corpus): CaseInfo -> multiset<Claim>
    requires WellFormed(rule)
  {
    (ci: CaseInfo) => Sum(rule.emits, FireOf(rule, c, ci.values))
  }

  lemma {:induction false} StreamSum(rule: Rule, c: Corpus, cases: seq<CaseInfo>)
    requires WellFormed(rule) && StreamCases(rule, c.events, cases, c.funcs).Ok?
    ensures Bag(StreamCases(rule, c.events, cases, c.funcs).value) == Sum(cases, CaseBag(rule, c))
    ensures forall ci :: ci in cases ==> CaseClaims(rule, c.events, ci.values, c.funcs).Ok?
  {
    if cases != [] {
      StreamSum(rule, c, cases[1..]);
      CaseSum(rule, c, cases[0].values);
      BagAppend(CaseClaims(rule, c.events, cases[0].values, c.funcs).value,
        StreamCases(rule, c.events, cases[1..], c.funcs).value);
      SumFront(cases, CaseBag(rule, c));
    }
  }

  lemma SumFront<T>(xs: seq<T>, f: T -> multiset<Claim>)
    requires xs != []
    ensures xs == [xs[0]] + xs[1..] && Sum(xs, f) == f(xs[0]) + Sum(xs[1..], f)
  {
    assert xs == [xs[0]] + xs[1..];
    SumAppend([xs[0]], xs[1..], f);
    SumOne(xs[0], f);
  }

  // ----- the query side as a sum over groups -----

  ghost function RowBagOf(rule: Rule, emits: string, q: Query, eng: Engine): Row -> multiset<Claim> {
    (row: Row) => Bag(RowClaims(rule, emits, q, row, eng))
  }

  lemma {:induction false} SelectSum(rule: Rule, emits: string, q: Query, rows: seq<Row>, eng: Engine)
    ensures Bag(SelectClaims(rule, emits, q, rows, eng)) == Sum(rows, RowBagOf(rule, emits, q, eng))
  {
    if rows != [] {
      SelectSum(rule, emits, q, rows[..|rows| - 1], eng);
      BagAppend(SelectClaims(rule, emits, q, rows[..|rows| - 1], eng),
        RowClaims(rule, emits, q, rows[|rows| - 1], eng));
    }
  }

  ghost function JoinedSum(anchor: string, joins: seq<Join>, results: map<string, seq<Record>>, eng: Engine,
      g: Row -> multiset<Claim>): Row -> multiset<Claim> {
    (row: Row) => Sum(JoinAll([row], anchor, joins, results, eng), g)
  }

  /** The joins treat each starting row on its own. */
  lemma {:induction false} JoinAllSum(rows: seq<Row>, anchor: string, joins: seq<Join>,
      results: map<string, seq<Record>>, eng: Engine, g: Row -> multiset<Claim>)
    ensures Sum(JoinAll(rows, anchor, joins, results, eng), g) == Sum(rows, JoinedSum(anchor, joins, results, eng, g))
    decreases |joins|, |rows|
  {
    if joins == [] {
      forall row ensures g(row) == JoinedSum(anchor, joins, results, eng, g)(row) { SumOne(row, g); }
      SumEqual(rows, rows, g, JoinedSum(anchor, joins, results, eng, g));
    } else if rows == [] {
      JoinNothing(anchor, joins, results, eng);
    } else {
      var j, js := joins[0], joins[1..];
      var recs := if j.name in results then results[j.name] else [];
      var n := |rows| - 1;
      var front, last := JoinRows(rows[..n], anchor, j, recs, eng), JoinRow(rows[n], anchor, j, recs, eng);
      var rest := JoinedSum(anchor, js, results, eng, g);
      JoinAllSum(front + last, anchor, js, results, eng, g);
      SumAppend(front, last, rest);
      JoinAllSum(front, anchor, js, results, eng, g);
      JoinAllSum(rows[..n], anchor, joins, results, eng, g);
      JoinAllSum(last, anchor, js, results, eng, g);
      JoinOneRow(rows[n], anchor, joins, results, eng);
    }
  }

  lemma JoinOneRow(row: Row, anchor: string, joins: seq<Join>, results: map<string, seq<Record>>, eng: Engine)
    requires joins != []
    ensures var recs := if joins[0].name in results then results[joins[0].name] else [];
      JoinAll([row], anchor, joins, results, eng) ==
        JoinAll(JoinRow(row, anchor, joins[0], recs, eng), anchor, joins[1..], results, eng)
  {
    var recs := if joins[0].name in results then results[joins[0].name] else [];
    assert JoinRows([row], anchor, joins[0], recs, eng) == JoinRow(row, anchor, joins[0], recs, eng) by {
      assert [row][..0] == [];
    }
  }

  lemma {:induction false} JoinNothing(anchor: string, joins: seq<Join>, results: map<string, seq<Record>>, eng: Engine)
    ensures JoinAll([], anchor, joins, results, eng) == []
    decreases joins
  {
    if joins != [] { JoinNothing(anchor, joins[1..], results, eng); }
  }

  ghost function RecordBagOf(rule: Rule, emits: string, q: Query, results: map<string, seq<Record>>,
      eng: Engine): Record -> multiset<Claim> {
    (rec: Record) => RecordBag(rule, emits, q, rec, results, eng)
  }

  lemma QuerySum(rule: Rule, emits: string, q: Query, results: map<string, seq<Record>>, eng: Engine, recs: seq<Record>)
    requires q.anchor in results && results[q.anchor] == recs
    ensures Bag(QueryClaims(rule, emits, q, results, eng)) == Sum(recs, RecordBagOf(rule, emits, q, results, eng))
  {
    var rows, g := AnchorRows(q, results), RowBagOf(rule, emits, q, eng);
    SelectSum(rule, emits, q, JoinAll(rows, q.anchor, q.joins, results, eng), eng);
    JoinAllSum(rows, q.anchor, q.joins, results, eng, g);
    forall i | 0 <= i < |recs|
      ensures JoinedSum(q.anchor, q.joins, results, eng, g)(rows[i]) ==
        RecordBagOf(rule, emits, q, results, eng)(recs[i])
    {
      SelectSum(rule, emits, q, JoinAll([rows[i]], q.anchor, q.joins, results, eng), eng);
    }
    SumEqual(rows, recs, JoinedSum(q.anchor, q.joins, results, eng, g), RecordBagOf(rule, emits, q, results, eng));
  }

  ghost function QueryBag(rule: Rule, compiled: Compiled, results: map<string, seq<Record>>,
      eng: Engine): Emit -> multiset<Claim> {
    (e: Emit) => if e.emits in compiled.queries then
      Bag(QueryClaims(rule, e.emits, compiled.queries[e.emits], results, eng)) else multiset{}
  }

  lemma {:induction false} RunSum(rule: Rule, emits: seq<Emit>, compiled: Compiled, results: map<string, seq<Record>>,
      columns: set<string>, eng: Engine)
    requires RunEmits(rule, emits, compiled, results, columns, eng).Ok?
    ensures Bag(RunEmits(rule, emits, compiled, results, columns, eng).value) ==
      Sum(emits, QueryBag(rule, compiled, results, eng))
  {
    if emits != [] {
      RunSum(rule, emits[1..], compiled, results, columns, eng);
      BagAppend(QueryClaims(rule, emits[0].emits, compiled.queries[emits[0].emits], results, eng),
                RunEmits(rule, emits[1..], compiled, results, columns, eng).value);
      assert emits == [emits[0]] + emits[1..];
      SumAppend([emits[0]], emits[1..], QueryBag(rule, compiled, results, eng));
      SumOne(emits[0], QueryBag(rule, compiled, results, eng));
    }
  }
}
