/** The direct execution path (detect/streaming.go, aggregateEnv of detect/env.go). */
module CdlStreaming {
  import opened Common
  import opened Seqs
  import opened CdlExpr
  import opened CdlEvents
  import opened CdlAggregate

  datatype Emit = Emit(emits: string, when: Node, observed: Option<Node>)

  /** A rule with its expressions already parsed; `names` lists the keys of `sources` in sorted order. */
  datatype Rule = Rule(
    id: string, version: int, entity: Path,
    names: seq<string>, sources: map<string, Source>,
    emits: seq<Emit>, suppress: seq<Node>)

  ghost predicate WellFormed(rule: Rule) {
    rule.names != [] && NoDup(rule.names) && forall n :: n in rule.names <==> n in rule.sources
  }

  datatype Claim = Claim(asserts: string, entity: string, observed: Value, ruleID: string, ruleVersion: int)

  type AggregateEnv = map<string, Aggregate>

  predicate HasPrefix(s: string, p: string) { p <= s }

  function AggregateField(agg: Aggregate, field: string): Result<Value> {
    if field == "count" then Ok(Int(agg.count))
    else if field == "exists" then Ok(Bool(agg.count > 0))
    else if field == "first_ts" then Ok(Int(agg.firstTS))
    else if field == "last_ts" then Ok(Int(agg.lastTS))
    else if HasPrefix(field, "distinct_") then
      var alias := field[|"distinct_"|..];
      Ok(Int(if alias in agg.distinct then agg.distinct[alias] else 0))
    else if HasPrefix(field, "last_") then
      var alias := field[|"last_"|..];
      Ok(if alias in agg.last then agg.last[alias] else Null)
    else if field in agg.groupValues then Ok(agg.groupValues[field])
    else Err
  }

  /** aggregateEnv.Resolve: <source>.<field>; an unknown source or field is an error. */
  function ResolveAggregate(aggs: AggregateEnv, path: Path): Result<Value> {
    if |path| < 2 || path[0] !in aggs then Err else AggregateField(aggs[path[0]], path[1])
  }

  function AggregateContext(aggs: AggregateEnv, funcs: Funcs): Context {
    Context(p => ResolveAggregate(aggs, p), funcs)
  }

  function Aggregates(acc: AggregateEnv, events: seq<Event>, names: seq<string>, sources: map<string, Source>,
      values: CaseValues, funcs: Funcs): (r: Result<AggregateEnv>)
    requires forall n :: n in names ==> n in sources
    decreases names
  {
    if names == [] then Ok(acc)
    else
      match AggregateFor(events, sources[names[0]], values, funcs)
      case Err => Err
      case Ok(agg) => Aggregates(acc[names[0] := agg], events, names[1..], sources, values, funcs)
  }

  lemma {:induction false} AggregatesAt(acc: AggregateEnv, events: seq<Event>, names: seq<string>,
      sources: map<string, Source>, values: CaseValues, funcs: Funcs)
    requires NoDup(names) && forall n :: n in names ==> n in sources
    requires Aggregates(acc, events, names, sources, values, funcs).Ok?
    ensures forall n :: n in names ==>
      n in Aggregates(acc, events, names, sources, values, funcs).value &&
      AggregateFor(events, sources[n], values, funcs) ==
        Ok(Aggregates(acc, events, names, sources, values, funcs).value[n])
    ensures forall n :: n in Aggregates(acc, events, names, sources, values, funcs).value ==> n in acc || n in names
    ensures forall n :: n in acc && n !in names ==>
      n in Aggregates(acc, events, names, sources, values, funcs).value &&
      Aggregates(acc, events, names, sources, values, funcs).value[n] == acc[n]
    decreases names
  {
    if names != [] {
      var agg := AggregateFor(events, sources[names[0]], values, funcs).value;
      AggregatesAt(acc[names[0] := agg], events, names[1..], sources, values, funcs);
      assert names == [names[0]] + names[1..];
    }
  }

  /** Suppress clauses in order; the first that holds ends the search. */
  function Suppressed(clauses: seq<Node>, ctx: Context): Result<bool> {
    if clauses == [] then Ok(false)
    else
      match EvalBool(clauses[0], ctx)
      case Err => Err
      case Ok(b) => if b then Ok(true) else Suppressed(clauses[1..], ctx)
  }

  /** What one emit clause adds for a case. */
  function Fire(rule: Rule, emit: Emit, entity: string, ctx: Context): Result<seq<Claim>> {
    match EvalBool(emit.when, ctx)
    case Err => Err
    case Ok(matched) =>
      if !matched then Ok([])
      else
        match (if emit.observed.None? then Ok(Null) else Eval(emit.observed.value, ctx))
        case Err => Err
        case Ok(v) => Ok([Claim(emit.emits, entity, v, rule.id, rule.version)])
  }

  /** Claims found before a step that may still fail. */
  function Prepend(before: seq<Claim>, rest: Result<seq<Claim>>): Result<seq<Claim>> {
    match rest case Err => Err case Ok(cs) => Ok(before + cs)
  }

  function FireAll(rule: Rule, emits: seq<Emit>, entity: string, ctx: Context): Result<seq<Claim>> {
    if emits == [] then Ok([])
    else
      match Fire(rule, emits[0], entity, ctx)
      case Err => Err
      case Ok(cs) => Prepend(cs, FireAll(rule, emits[1..], entity, ctx))
  }

  function EntityOf(rule: Rule, values: CaseValues): string {
    RenderScalar(if rule.entity in values then values[rule.entity] else Null)
  }

  function CaseClaims(rule: Rule, events: seq<Event>, values: CaseValues, funcs: Funcs): Result<seq<Claim>>
    requires WellFormed(rule)
  {
    match Aggregates(map[], events, rule.names, rule.sources, values, funcs)
    case Err => Err
    case Ok(aggs) =>
      var ctx := AggregateContext(aggs, funcs);
      match Suppressed(rule.suppress, ctx)
      case Err => Err
      case Ok(s) => if s then Ok([]) else FireAll(rule, rule.emits, EntityOf(rule, values), ctx)
  }

  function StreamCases(rule: Rule, events: seq<Event>, cases: seq<CaseInfo>, funcs: Funcs): Result<seq<Claim>>
    requires WellFormed(rule)
  {
    if cases == [] then Ok([])
    else
      match CaseClaims(rule, events, cases[0].values, funcs)
      case Err => Err
      case Ok(cs) => Prepend(cs, StreamCases(rule, events, cases[1..], funcs))
  }

  function Streaming(rule: Rule, events: seq<Event>, funcs: Funcs): Result<seq<Claim>>
    requires WellFormed(rule)
  {
    StreamCases(rule, events, Cases(events, UnionFields(rule.names, rule.sources)), funcs)
  }

  // ----- the loops -----

  method IsSuppressed(clauses: seq<Node>, ctx: Context) returns (r: Result<bool>)
    ensures r == Suppressed(clauses, ctx)
  {
    for i := 0 to |clauses|
      invariant Suppressed(clauses, ctx) == Suppressed(clauses[i..], ctx)
    {
      var matched := EvalBool(clauses[i], ctx);
      if matched.Err? { return Err; }
      if matched.value { return Ok(true); }
    }
    return Ok(false);
  }

  lemma PrependAppend(a: seq<Claim>, b: seq<Claim>, r: Result<seq<Claim>>)
    ensures Prepend(a, Prepend(b, r)) == Prepend(a + b, r)
    ensures Prepend([], r) == r
  {
    if r.Ok? { assert a + (b + r.value) == a + b + r.value && [] + r.value == r.value; }
  }

  method FireEmits(rule: Rule, entity: string, ctx: Context) returns (r: Result<seq<Claim>>)
    ensures r == FireAll(rule, rule.emits, entity, ctx)
  {
    var claims: seq<Claim> := [];
    PrependAppend([], [], FireAll(rule, rule.emits, entity, ctx));
    for i := 0 to |rule.emits|
      invariant FireAll(rule, rule.emits, entity, ctx) == Prepend(claims, FireAll(rule, rule.emits[i..], entity, ctx))
    {
      var fired := Fire(rule, rule.emits[i], entity, ctx);
      if fired.Err? { return Err; }
      PrependAppend(claims, fired.value, FireAll(rule, rule.emits[i + 1..], entity, ctx));
      claims := claims + fired.value;
    }
    assert claims + [] == claims;
    return Ok(claims);
  }

  ghost predicate TrackedAliasesDistinct(rule: Rule) {
    forall n :: n in rule.sources ==> AliasesDistinct(rule.sources[n].trackDistinct)
  }

  method AggregateSources(events: seq<Event>, rule: Rule, values: CaseValues, funcs: Funcs)
      returns (r: Result<AggregateEnv>)
    requires WellFormed(rule)
    ensures TrackedAliasesDistinct(rule) ==> r == Aggregates(map[], events, rule.names, rule.sources, values, funcs)
  {
    var aggs: AggregateEnv := map[];
    for i := 0 to |rule.names|
      invariant TrackedAliasesDistinct(rule) ==>
        Aggregates(map[], events, rule.names, rule.sources, values, funcs) ==
        Aggregates(aggs, events, rule.names[i..], rule.sources, values, funcs)
    {
      var agg := ComputeAggregate(events, rule.sources[rule.names[i]], values, funcs);
      if agg.Err? { return Err; }
      aggs := aggs[rule.names[i] := agg.value];
    }
    return Ok(aggs);
  }

  method EvaluateCase(rule: Rule, events: seq<Event>, values: CaseValues, funcs: Funcs) returns (r: Result<seq<Claim>>)
    requires WellFormed(rule)
    ensures TrackedAliasesDistinct(rule) ==> r == CaseClaims(rule, events, values, funcs)
  {
    var aggs := AggregateSources(events, rule, values, funcs);
    if aggs.Err? { return Err; }
    var ctx := AggregateContext(aggs.value, funcs);
    var suppressed := IsSuppressed(rule.suppress, ctx);
    if suppressed.Err? { return Err; }
    if suppressed.value { return Ok([]); }
    r := FireEmits(rule, EntityOf(rule, values), ctx);
  }

  method EvaluateCases(rule: Rule, events: seq<Event>, cases: seq<CaseInfo>, funcs: Funcs)
      returns (r: Result<seq<Claim>>)
    requires WellFormed(rule)
    ensures TrackedAliasesDistinct(rule) ==> r == StreamCases(rule, events, cases, funcs)
  {
    var claims: seq<Claim> := [];
    PrependAppend([], [], StreamCases(rule, events, cases, funcs));
    for i := 0 to |cases|
      invariant TrackedAliasesDistinct(rule) ==>
        StreamCases(rule, events, cases, funcs) == Prepend(claims, StreamCases(rule, events, cases[i..], funcs))
    {
      var fired := EvaluateCase(rule, events, cases[i].values, funcs);
      if fired.Err? { return Err; }
      PrependAppend(claims, fired.value, StreamCases(rule, events, cases[i + 1..], funcs));
      claims := claims + fired.value;
    }
    assert claims + [] == claims;
    return Ok(claims);
  }

  /** The claims are determined by rule and events as long as no two tracked fields share an alias. */
  method EvaluateStreaming(rule: Rule, events: seq<Event>, funcs: Funcs) returns (r: Result<seq<Claim>>)
    requires WellFormed(rule)
    ensures TrackedAliasesDistinct(rule) ==> r == Streaming(rule, events, funcs)
  {
    var unionFields := UnionGroupFields(rule.names, rule.sources);
    var cases := EnumerateCases(events, unionFields);
    r := EvaluateCases(rule, events, cases, funcs);
  }
}
