/** One case of a rule: its joined SQL row, and the claims each side derives from it. */
module CdlCase {
  import opened Common
  import opened Seqs
  import opened CdlExpr
  import opened CdlEvents
  import opened CdlAggregate
  import opened CdlStreaming
  import opened CdlSql
  import opened CdlCompile
  import opened CdlQuery
  import opened CdlGroups
  import opened CdlGroupRecord
  import opened CdlJoin

  // ----- one source of a case -----

  /** The Go aggregate of a source over its matches against the row, if any, it contributes to the join. */
  ghost predicate View(agg: Aggregate, own: seq<Record>, values: CaseValues, src: Source, ms: seq<Event>) {
    && (agg.count > 0 ==> |own| == 1 && Mirrors(agg, own[0], values, src, ms))
    && (agg.count == 0 ==> own == [] && agg.distinct == map[] && agg.last == map[])
    && (forall c :: c in agg.groupValues <==> c in FlatNames(src.groupBy))
    && (forall f :: f in src.groupBy ==>
          FlatName(f) in agg.groupValues && agg.groupValues[FlatName(f)] == ValueOf(values, f) &&
            IsScalar(ValueOf(values, f)))
  }

  function OwnRow(c: Corpus, src: Source, cte: Cte, values: CaseValues, agg: Aggregate): seq<Record> {
    if agg.count > 0 then [SourceRecord(c, src, cte, values)] else []
  }

  lemma {:induction false} NoDistinct(ms: seq<Event>, fields: seq<Path>)
    requires ms == []
    ensures DistinctCounts(ms, fields) == map[]
  {
    if fields != [] { NoDistinct(ms, fields[1..]); }
  }

  lemma SourceView(c: Corpus, src: Source, values: CaseValues, want: string, cte: Cte, agg: Aggregate)
    requires SourceCase(c, src, values, want) && CompileSource(src, c.fsql) == Ok(cte)
    requires AggregateFor(c.events, src, values, c.funcs) == Ok(agg)
    ensures View(agg, OwnRow(c, src, cte, values, agg), values, src, CaseMatches(c, src, want))
    ensures agg.count == |CaseMatches(c, src, want)|
  {
    AggregateIs(c, src, values, want, agg);
    if agg.count > 0 { RowMirrors(c, src, values, want, cte, agg); }
    ViewFrom(CaseMatches(c, src, want), src, values, agg, OwnRow(c, src, cte, values, agg));
  }

  lemma ViewFrom(ms: seq<Event>, src: Source, values: CaseValues, agg: Aggregate, own: seq<Record>)
    requires Carries(values, src.groupBy) && AliasesDistinct(src.groupBy)
    requires agg == AggregateOf(ms, src, GroupValuesOf(values, src.groupBy))
    requires agg.count > 0 ==> |own| == 1 && Mirrors(agg, own[0], values, src, ms)
    requires agg.count == 0 ==> own == []
    ensures View(agg, own, values, src, ms)
  {
    GroupValuesAt(values, src.groupBy);
    if agg.count == 0 { NoDistinct(ms, src.trackDistinct); }
  }

  /** Joining the case's anchor row with a source finds that source's own row. */
  lemma SourceFindsOwn(c: Corpus, src: Source, values: CaseValues, want: string, cte: Cte, agg: Aggregate, plan: Plan,
      n: string, anchorFields: seq<Path>)
    requires SourceCase(c, src, values, want) && CompileSource(src, c.fsql) == Ok(cte)
    requires AggregateFor(c.events, src, values, c.funcs) == Ok(agg)
    requires n in plan.own && plan.own[n] == OwnRow(c, src, cte, values, agg)
    requires forall f :: f in anchorFields ==>
      FlatName(f) in plan.anchorRec && plan.anchorRec[FlatName(f)] == Store(ValueOf(values, f))
    requires forall f :: f in src.groupBy ==> f in anchorFields
    ensures FindsOwn(plan, Join(n, FlatNames(src.groupBy)), EvalCte(cte, c.table, c.eng), c.eng)
  {
    SourceView(c, src, values, want, cte, agg);
    forall row {:trigger OnMatches(row, plan.anchor, FlatNames(src.groupBy), c.eng)} | RowAt(row, plan.anchor,
      plan.anchorRec)
      ensures Filter(EvalCte(cte, c.table, c.eng), OnMatches(row, plan.anchor, FlatNames(src.groupBy), c.eng)) ==
        plan.own[n]
    {
      forall f | f in src.groupBy ensures Lookup(row, Column(plan.anchor, FlatName(f))) == Store(ValueOf(values, f)) {
        assert f in anchorFields;
      }
      JoinMatches(c, src, values, want, cte, row, plan.anchor);
    }
  }

  // ----- identifiers of when, observed and suppress -----

  /**
   The aggregate fields both sides define alike: timestamps and group values need a match, tracked fields their own
   condition.
   */
  ghost predicate FieldDefined(agg: Aggregate, src: Source, ms: seq<Event>, field: string) {
    if field == "count" || field == "exists" then true
    else if field == "first_ts" || field == "last_ts" then agg.count > 0
    else if HasPrefix(field, "distinct_") then DistinctSound(ms, src.trackDistinct, field[|"distinct_"|..])
    else if HasPrefix(field, "last_") then LastSound(ms, src.trackLast, field[|"last_"|..])
    else agg.count > 0
  }

  function SourceMatches(c: Corpus, src: Source, values: CaseValues): seq<Event> {
    CaseMatches(c, src, KeyOf(values, src.groupBy))
  }

  ghost predicate PathDefined(c: Corpus, sources: map<string, Source>, values: CaseValues, aggs: AggregateEnv,
      p: Path) {
    |p| >= 2 && p[0] in sources && p[0] in aggs &&
      FieldDefined(aggs[p[0]], sources[p[0]], SourceMatches(c, sources[p[0]], values), p[1])
  }

  ghost function AggregateScope(c: Corpus, sources: map<string, Source>, values: CaseValues,
      aggs: AggregateEnv): Scope {
    Scope((p: Path) => PathDefined(c, sources, values, aggs, p), c.calls)
  }

  /** Each source's aggregate against its columns of the joined row. */
  ghost predicate CaseView(c: Corpus, sources: map<string, Source>, aggs: AggregateEnv, plan: Plan,
      values: CaseValues) {
    aggs.Keys == sources.Keys &&
    forall n :: n in sources ==>
      n in plan.own && View(aggs[n], plan.own[n], values, sources[n], SourceMatches(c, sources[n], values))
  }

  /** The columns of one source in the joined row. */
  ghost predicate SourceColumns(row: Row, n: string, own: seq<Record>) {
    forall col :: Lookup(row, Column(n, col)) == if own == [] then SNull else At(own[0], col)
  }

  lemma CountIdent(agg: Aggregate, own: seq<Record>, values: CaseValues, src: Source, ms: seq<Event>, n: string,
      row: Row, eng: Engine)
    requires View(agg, own, values, src, ms) && SourceColumns(row, n, own)
    ensures SqlEval(CoalesceX(Col(Column(n, "count")), SInt(0)), row, eng) == SInt(agg.count)
  {
    assert Lookup(row, Column(n, "count")) == if own == [] then SNull else At(own[0], "count");
  }

  lemma DistinctIdent(agg: Aggregate, own: seq<Record>, values: CaseValues, src: Source, ms: seq<Event>, n: string,
      row: Row, eng: Engine, x: string)
    requires View(agg, own, values, src, ms) && SourceColumns(row, n, own) && DistinctSound(ms, src.trackDistinct, x)
    ensures SqlEval(CoalesceX(Col(Column(n, "distinct_" + x)), SInt(0)), row, eng) == SInt(DistinctOr0(agg, x))
  {
    assert Lookup(row, Column(n, "distinct_" + x)) == if own == [] then SNull else At(own[0], "distinct_" + x);
  }

  lemma LastIdent(agg: Aggregate, own: seq<Record>, values: CaseValues, src: Source, ms: seq<Event>, n: string,
      row: Row, eng: Engine, x: string)
    requires View(agg, own, values, src, ms) && SourceColumns(row, n, own) && LastSound(ms, src.trackLast, x) &&
      x != "ts"
    ensures Encodes(SqlEval(Col(Column(n, "last_" + x)), row, eng), LastOrNull(agg, x))
  {
    assert Lookup(row, Column(n, "last_" + x)) == if own == [] then SNull else At(own[0], "last_" + x);
  }

  lemma RowIdent(agg: Aggregate, own: seq<Record>, values: CaseValues, src: Source, ms: seq<Event>, n: string, row: Row,
      eng: Engine, field: string)
    requires View(agg, own, values, src, ms) && SourceColumns(row, n, own) && agg.count > 0
    requires field == "first_ts" || field == "last_ts" ||
      (field in FlatNames(src.groupBy) && !ReservedOutput(field) && field != "exists")
    ensures AggregateField(agg, field).Ok? &&
      Encodes(SqlEval(Col(Column(n, field)), row, eng), AggregateField(agg, field).value)
  {
    assert Lookup(row, Column(n, field)) == At(own[0], field);
    if field != "first_ts" && field != "last_ts" {
      var f := PathNamed(src.groupBy, field);
      StoreEncodes(ValueOf(values, f));
    }
  }

  /** Without a match the timestamps are 0 in Go and NULL in SQL: they agree exactly when the source has a match. */
  lemma TimestampsAgreeExactly(agg: Aggregate, own: seq<Record>, values: CaseValues, src: Source, ms: seq<Event>,
      n: string, row: Row, eng: Engine,
                               field: string)
    requires View(agg, own, values, src, ms) && SourceColumns(row, n, own) &&
      (field == "first_ts" || field == "last_ts")
    ensures AggregateField(agg, field).Ok?
    ensures Encodes(SqlEval(Col(Column(n, field)), row, eng), AggregateField(agg, field).value) <==> agg.count > 0
  {
    if agg.count > 0 {
      RowIdent(agg, own, values, src, ms, n, row, eng, field);
    } else {
      assert Lookup(row, Column(n, field)) == SNull;
    }
  }

  lemma FieldIdent(agg: Aggregate, own: seq<Record>, values: CaseValues, src: Source, ms: seq<Event>, n: string,
      row: Row, eng: Engine, field: string)
    requires View(agg, own, values, src, ms) && SourceColumns(row, n, own) && FieldDefined(agg, src, ms, field)
    requires AggregateField(agg, field).Ok? && FieldColumn(n, src.groupBy, field).Ok?
    ensures Encodes(SqlEval(FieldColumn(n, src.groupBy, field).value, row, eng), AggregateField(agg, field).value)
  {
    if field == "count" || field == "exists" {
      CountIdent(agg, own, values, src, ms, n, row, eng);
    } else if field == "first_ts" || field == "last_ts" {
      RowIdent(agg, own, values, src, ms, n, row, eng, field);
    } else if HasPrefix(field, "distinct_") {
      var x := field[|"distinct_"|..];
      assert field == "distinct_" + x;
      DistinctIdent(agg, own, values, src, ms, n, row, eng, x);
    } else if HasPrefix(field, "last_") {
      var x := field[|"last_"|..];
      assert field == "last_" + x;
      OutputNamesApart(x);
      assert "last_" + "ts" == "last_ts";
      LastIdent(agg, own, values, src, ms, n, row, eng, x);
    } else {
      RowIdent(agg, own, values, src, ms, n, row, eng, field);
    }
  }

  lemma SourceColumnsHold(plan: Plan, row: Row, n: string, done: set<string>)
    requires Contributes(plan, row, done) && n in done && n in plan.own
    ensures SourceColumns(row, n, plan.own[n])
  {
    forall col ensures Lookup(row, Column(n, col)) == if plan.own[n] == [] then SNull else At(plan.own[n][0], col) {
      assert Lookup(row, Column(n, col)) == OwnAt(plan, n, col);
    }
  }

  lemma PathAgrees(sources: map<string, Source>, aggs: AggregateEnv, plan: Plan, values: CaseValues, row: Row,
      c: Corpus, p: Path)
    requires CaseView(c, sources, aggs, plan, values) && Contributes(plan, row, sources.Keys) &&
      PathDefined(c, sources, values, aggs, p)
    ensures IdentAgrees(p, AggregateContext(aggs, c.funcs), AggregateTarget(sources, c.fsql), row, c.eng)
  {
    if ResolveAggregate(aggs, p).Ok? && ColumnFor(sources, p).Ok? {
      SourceColumnsHold(plan, row, p[0], sources.Keys);
      FieldIdent(aggs[p[0]], plan.own[p[0]], values, sources[p[0]], SourceMatches(c, sources[p[0]], values), p[0], row,
        c.eng, p[1]);
    }
  }

  lemma AggregateLinked(sources: map<string, Source>, aggs: AggregateEnv, plan: Plan, values: CaseValues, row: Row,
      c: Corpus)
    requires CaseView(c, sources, aggs, plan, values) && Contributes(plan, row, sources.Keys)
    requires FunctionsAgree(c.funcs, c.fsql, c.calls, c.eng)
    ensures Linked(AggregateScope(c, sources, values, aggs), AggregateContext(aggs, c.funcs),
      AggregateTarget(sources, c.fsql), row, c.eng)
  {
    forall p | AggregateScope(c, sources, values, aggs).ident(p)
      ensures IdentAgrees(p, AggregateContext(aggs, c.funcs), AggregateTarget(sources, c.fsql), row, c.eng)
    {
      PathAgrees(sources, aggs, plan, values, row, c, p);
    }
  }

  // ----- claims -----

  /** Claims are compared with booleans read as 0/1 and integral floats as integers. */
  function Norm(v: Value): Value {
    match v
    case Bool(b) => Int(if b then 1 else 0)
    case Float(r) => if IsIntegral(r) then Int(r.Floor) else v
    case _ => v
  }

  function NormClaim(c: Claim): Claim { c.(observed := Norm(c.observed)) }

  ghost function ClaimBag(): Claim -> multiset<Claim> { (c: Claim) => multiset{NormClaim(c)} }

  ghost function Bag(cs: seq<Claim>): multiset<Claim> { Sum(cs, ClaimBag()) }

  lemma BagAppend(a: seq<Claim>, b: seq<Claim>)
    ensures Bag(a + b) == Bag(a) + Bag(b)
  {
    SumAppend(a, b, ClaimBag());
  }

  lemma DecodeNorm(sv: SqlValue, v: Value)
    requires Encodes(sv, v)
    ensures Norm(Decode(sv)) == Norm(v)
  {}

  /**
   Without that reading an observed value is the same on both sides exactly when it is no bool and no float SQL keeps as
   an INTEGER.
   */
  lemma DecodesExactly(sv: SqlValue, v: Value)
    requires Encodes(sv, v)
    ensures Decode(sv) == v <==> !v.Bool? && (v.Float? ==> sv.SReal?)
  {}

  /** Up to the first suppress clause that holds, SQL finds each false exactly when the evaluator does. */
  ghost predicate SuppressSided(clauses: seq<Node>, ctx: Context, scope: Scope) {
    clauses == [] ||
    (Sided(clauses[0], false, ctx, scope) &&
      (EvalBool(clauses[0], ctx) == Ok(false) ==> SuppressSided(clauses[1..], ctx, scope)))
  }

  /** What a case consults beyond its suppress clauses, when it is not suppressed. */
  ghost predicate EmitConsistent(emit: Emit, ctx: Context, scope: Scope) {
    && Sided(emit.when, true, ctx, scope)
    && (EvalBool(emit.when, ctx) == Ok(true) && emit.observed.Some? ==>
          && Consistent(emit.observed.value, ctx, scope)
          && (Eval(emit.observed.value, ctx).Ok? ==> IsScalar(Eval(emit.observed.value, ctx).value)))
  }

  lemma OrSide(a: Truth, b: Truth, l: bool, r: bool)
    requires (a == Some(false) <==> !l) && (!l ==> (b == Some(false) <==> !r))
    ensures Or3(a, b) == Some(false) <==> !l && !r
  {
    TruthIs(a, false);
    TruthIs(b, false);
  }

  lemma {:induction false} SuppressPreserved(clauses: seq<Node>, ctx: Context, scope: Scope, t: Target, row: Row,
      eng: Engine)
    requires clauses != [] && Linked(scope, ctx, t, row, eng) && SuppressSided(clauses, ctx, scope)
    requires Suppressed(clauses, ctx).Ok? && ToSQLAll(clauses, t).Ok?
    ensures TruthOf(SqlEval(OrAll(ToSQLAll(clauses, t).value), row, eng), eng) == Some(false) <==>
      Suppressed(clauses, ctx) == Ok(false)
  {
    SidePreserved(clauses[0], false, ctx, scope, t, row, eng);
    var parts := ToSQLAll(clauses, t).value;
    OrAllStep(parts, row, eng);
    if |clauses| > 1 {
      assert parts[1..] == ToSQLAll(clauses[1..], t).value;
      var l := EvalBool(clauses[0], ctx).value;
      if !l { SuppressPreserved(clauses[1..], ctx, scope, t, row, eng); }
      OrSide(TruthOf(SqlEval(parts[0], row, eng), eng), TruthOf(SqlEval(OrAll(parts[1..]), row, eng), eng),
        l, Suppressed(clauses, ctx).value);
    }
  }

  lemma OrAllStep(parts: seq<SqlExpr>, row: Row, eng: Engine)
    requires parts != []
    ensures TruthOf(SqlEval(OrAll(parts), row, eng), eng) ==
      if |parts| == 1 then TruthOf(SqlEval(parts[0], row, eng), eng)
      else Or3(TruthOf(SqlEval(parts[0], row, eng), eng), TruthOf(SqlEval(OrAll(parts[1..]), row, eng), eng))
  {}

  /** WHERE when AND NOT (suppress) holds exactly when the case is not suppressed and `when` matches. */
  lemma WhereAgrees(rule: Rule, emit: Emit, anchor: string, q: Query, ctx: Context, scope: Scope, fsql: FuncsSQL,
      row: Row, eng: Engine)
    requires WellFormed(rule) && CompileEmit(rule, emit, anchor, fsql) == Ok(q)
    requires Linked(scope, ctx, AggregateTarget(rule.sources, fsql), row, eng)
    requires SuppressSided(rule.suppress, ctx, scope) && Suppressed(rule.suppress, ctx).Ok?
    requires Suppressed(rule.suppress, ctx) == Ok(false) ==>
      EvalBool(emit.when, ctx).Ok? && Sided(emit.when, true, ctx, scope)
    ensures Holds(q.where, row, eng) <==>
      Suppressed(rule.suppress, ctx) == Ok(false) && EvalBool(emit.when, ctx) == Ok(true)
  {
    var t := AggregateTarget(rule.sources, fsql);
    if Suppressed(rule.suppress, ctx) == Ok(false) { SidePreserved(emit.when, true, ctx, scope, t, row, eng); }
    if rule.suppress != [] {
      SuppressPreserved(rule.suppress, ctx, scope, t, row, eng);
      var when, parts := ToSQL(emit.when, t).value, OrAll(ToSQLAll(rule.suppress, t).value);
      UnlessHolds(when, parts, row, eng);
      assert q.where == AndX(when, NotX(parts));
    }
  }

  lemma UnlessHolds(when: SqlExpr, unless: SqlExpr, row: Row, eng: Engine)
    ensures Holds(AndX(when, NotX(unless)), row, eng) <==>
      Holds(when, row, eng) && TruthOf(SqlEval(unless, row, eng), eng) == Some(false)
  {
    var a, b := TruthOf(SqlEval(when, row, eng), eng), TruthOf(SqlEval(unless, row, eng), eng);
    TruthIs(a, true);
    TruthIs(b, false);
    assert SqlEval(NotX(unless), row, eng) == FromTruth(Not3(b));
  }

  lemma ObservedAgrees(rule: Rule, emit: Emit, anchor: string, q: Query, ctx: Context, scope: Scope, fsql: FuncsSQL,
      row: Row, eng: Engine)
    requires WellFormed(rule) && CompileEmit(rule, emit, anchor, fsql) == Ok(q)
    requires Linked(scope, ctx, AggregateTarget(rule.sources, fsql), row, eng)
    requires emit.observed.Some? && Consistent(emit.observed.value, ctx, scope)
    requires Eval(emit.observed.value, ctx).Ok? && IsScalar(Eval(emit.observed.value, ctx).value)
    ensures Encodes(SqlEval(q.observed, row, eng), Eval(emit.observed.value, ctx).value)
  {
    ExprPreserved(emit.observed.value, ctx, scope, AggregateTarget(rule.sources, fsql), row, eng);
  }

  /** One emit clause over one case: the row yields the same claims as the streaming evaluator. */
  lemma FireAgrees(rule: Rule, emit: Emit, anchor: string, q: Query, ctx: Context, scope: Scope, fsql: FuncsSQL,
      row: Row, eng: Engine, entity: string)
    requires WellFormed(rule) && CompileEmit(rule, emit, anchor, fsql) == Ok(q)
    requires Linked(scope, ctx, AggregateTarget(rule.sources, fsql), row, eng)
    requires SuppressSided(rule.suppress, ctx, scope) && Suppressed(rule.suppress, ctx).Ok?
    requires Suppressed(rule.suppress, ctx) == Ok(false) ==>
      Fire(rule, emit, entity, ctx).Ok? && EmitConsistent(emit, ctx, scope)
    requires RenderScalar(Decode(Lookup(row, q.entity))) == entity
    ensures Bag(RowClaims(rule, emit.emits, q, row, eng)) ==
      if Suppressed(rule.suppress, ctx) == Ok(false) then Bag(Fire(rule, emit, entity, ctx).value) else multiset{}
  {
    WhereAgrees(rule, emit, anchor, q, ctx, scope, fsql, row, eng);
    if Holds(q.where, row, eng) {
      if emit.observed.Some? { ObservedAgrees(rule, emit, anchor, q, ctx, scope, fsql, row, eng); }
      var mine, theirs := RowClaims(rule, emit.emits, q, row, eng), Fire(rule, emit, entity, ctx).value;
      DecodeNorm(SqlEval(q.observed, row, eng), theirs[0].observed);
      assert mine[..0] == [] && theirs[..0] == [];
    }
  }
}
