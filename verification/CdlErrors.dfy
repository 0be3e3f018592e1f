/** When compiling a rule fails, and when it does not: exactly at unknown names, unknown functions and list literals. */
module CdlErrors {
  import opened Common
  import opened Seqs
  import opened CdlExpr
  import opened CdlEvents
  import opened CdlAggregate
  import opened CdlStreaming
  import opened CdlMeaning
  import opened CdlSql
  import opened CdlCompile
  import opened CdlQuery

  // ----- expressions -----

  /** `x` is the expression or occurs in it. */
  ghost predicate Within(x: Node, node: Node) {
    x == node ||
    match node
    case ListLit(elems) => exists i :: 0 <= i < |elems| && Within(x, elems[i])
    case Call(_, args) => exists i :: 0 <= i < |args| && Within(x, args[i])
    case Unary(_, y) => Within(x, y)
    case Binary(_, l, r) => Within(x, l) || Within(x, r)
    case _ => false
  }

  /** A scalar literal, a name the target knows, a function it knows and that accepts its arguments. */
  predicate Compilable(x: Node, t: Target) {
    match x
    case Literal(v) => !v.List? && !v.Map?
    case Ident(path) => t.cols(path).Ok?
    case Call(fn, args) => fn in t.funcs && (ToSQLAll(args, t).Ok? ==> t.funcs[fn](ToSQLAll(args, t).value).Ok?)
    case _ => true
  }

  lemma {:induction false} PartsCompile(nodes: seq<Node>, t: Target)
    ensures (forall i :: 0 <= i < |nodes| ==> ToSQL(nodes[i], t).Ok?) <==>
      forall i, x :: 0 <= i < |nodes| && Within(x, nodes[i]) ==> Compilable(x, t)
    decreases nodes, 0
  {
    forall i | 0 <= i < |nodes|
      ensures ToSQL(nodes[i], t).Ok? <==> forall x :: Within(x, nodes[i]) ==> Compilable(x, t)
    {
      CompilesExactly(nodes[i], t);
    }
  }

  /** An expression compiles exactly when everything in it does. */
  lemma {:induction false} CompilesExactly(node: Node, t: Target)
    ensures ToSQL(node, t).Ok? <==> forall x :: Within(x, node) ==> Compilable(x, t)
    decreases node, 1
  {
    assert Within(node, node);
    match node
    case Literal(_) =>
    case Ident(_) =>
    case ListLit(elems) => PartsCompile(elems, t);
    case Call(_, args) => PartsCompile(args, t);
    case Unary(_, x) => CompilesExactly(x, t);
    case Binary(_, l, r) =>
      CompilesExactly(l, t);
      CompilesExactly(r, t);
  }

  // ----- names -----

  /** In a where clause every path is a column. */
  lemma EventNamesKnown(table: string, fsql: FuncsSQL, path: Path)
    ensures EventTarget(table, fsql).cols(path) == Ok(Col(Column(table, FlatName(path))))
  {}

  lemma FlatNamesHas(fields: seq<Path>, c: string)
    ensures c in FlatNames(fields) <==> exists f :: f in fields && FlatName(f) == c
  {
    var names := FlatNames(fields);
    if c in names { var i :| 0 <= i < |names| && names[i] == c; assert fields[i] in fields; }
    if f :| f in fields && FlatName(f) == c { var i :| 0 <= i < |fields| && fields[i] == f; assert names[i] == c; }
  }

  /** Elsewhere a name is known exactly when it is a source and one of its fields. */
  lemma NamesKnown(sources: map<string, Source>, path: Path)
    ensures ColumnFor(sources, path).Ok? <==>
      |path| >= 2 && path[0] in sources &&
      (!Plain(path[1]) || exists f :: f in sources[path[0]].groupBy && FlatName(f) == path[1])
  {
    if |path| >= 2 && path[0] in sources { FlatNamesHas(sources[path[0]].groupBy, path[1]); }
  }

  /** So the compiler and the evaluator know the same names, in every case whose aggregates exist. */
  lemma NamesKnownAlike(rule: Rule, events: seq<Event>, values: CaseValues, funcs: Funcs, aggs: AggregateEnv,
      path: Path)
    requires AggregatesOf(rule, events, values, funcs, aggs)
    requires forall n :: n in rule.sources ==>
      AliasesDistinct(rule.sources[n].groupBy) && forall f :: f in rule.sources[n].groupBy ==> f in values
    ensures ColumnFor(rule.sources, path).Ok? <==> ResolveAggregate(aggs, path).Ok?
  {
    NamesKnown(rule.sources, path);
    if |path| >= 2 && path[0] in rule.sources {
      UnknownExactly(events, rule.sources[path[0]], values, funcs, aggs[path[0]], path[1]);
    }
  }

  // ----- rules -----

  /** The anchor: some source no other has more group fields than, the first of those, with every other's fields. */
  ghost predicate IsAnchor(rule: Rule, i: int) {
    && 0 <= i < |rule.names| && rule.names[i] in rule.sources
    && (forall j :: 0 <= j < |rule.names| && rule.names[j] in rule.sources ==>
          |rule.sources[rule.names[j]].groupBy| <= |rule.sources[rule.names[i]].groupBy|)
    && (forall j :: 0 <= j < i && rule.names[j] in rule.sources ==>
          |rule.sources[rule.names[j]].groupBy| < |rule.sources[rule.names[i]].groupBy|)
  }

  lemma {:induction false} WidestIsFirst(best: string, names: seq<string>, sources: map<string, Source>)
      returns (i: int)
    requires best in sources && forall n :: n in names ==> n in sources
    ensures -1 <= i < |names| && WidestFrom(best, names, sources) == if i < 0 then best else names[i]
    ensures forall j :: 0 <= j < i ==> |sources[names[j]].groupBy| < |sources[WidestFrom(best, names, sources)].groupBy|
    ensures i >= 0 ==> |sources[best].groupBy| < |sources[names[i]].groupBy|
    decreases names
  {
    i := -1;
    if names != [] {
      var next := if |sources[names[0]].groupBy| > |sources[best].groupBy| then names[0] else best;
      var k := WidestIsFirst(next, names[1..], sources);
      WidestIn(next, names[1..], sources);
      i := if k >= 0 then k + 1 else if next == best then -1 else 0;
    }
  }

  /** A rule has an anchor exactly when its first widest source has the group fields of all. */
  lemma AnchorExactly(rule: Rule) returns (i: int)
    requires WellFormed(rule)
    ensures IsAnchor(rule, i)
    ensures AnchorOf(rule) ==
      if forall n :: n in rule.sources ==> forall f :: f in rule.sources[n].groupBy ==>
        f in rule.sources[rule.names[i]].groupBy
      then Ok(rule.names[i]) else Err
  {
    var k := WidestIsFirst(rule.names[0], rule.names, rule.sources);
    WidestIn(rule.names[0], rule.names, rule.sources);
    i := if k < 0 then 0 else k;
  }

  lemma {:induction false} LastsCompile(src: Source, fields: seq<Path>, fsql: FuncsSQL)
    ensures CompileLasts(src, fields, fsql).Ok? <==> fields == [] || ToSQL(src.where, EventTarget("sub", fsql)).Ok?
  {
    if fields != [] { LastsCompile(src, fields[1..], fsql); }
  }

  predicate SourceCompiles(src: Source, fsql: FuncsSQL) {
    ToSQL(src.where, EventTarget("", fsql)).Ok? &&
    (src.trackLast == [] || ToSQL(src.where, EventTarget("sub", fsql)).Ok?)
  }

  lemma {:induction false} SourcesCompile(acc: map<string, Cte>, names: seq<string>, sources: map<string, Source>,
      fsql: FuncsSQL)
    requires forall n :: n in names ==> n in sources
    ensures CompileSources(acc, names, sources, fsql).Ok? <==>
      forall n :: n in names ==> SourceCompiles(sources[n], fsql)
    decreases names
  {
    if names != [] {
      assert names == [names[0]] + names[1..];
      LastsCompile(sources[names[0]], sources[names[0]].trackLast, fsql);
      var cte := CompileSource(sources[names[0]], fsql);
      if cte.Ok? { SourcesCompile(acc[names[0] := cte.value], names[1..], sources, fsql); }
    }
  }

  predicate EmitCompiles(emit: Emit, t: Target) {
    ToSQL(emit.when, t).Ok? && (emit.observed.Some? ==> ToSQL(emit.observed.value, t).Ok?)
  }

  predicate AllCompile(nodes: seq<Node>, t: Target) { forall i :: 0 <= i < |nodes| ==> ToSQL(nodes[i], t).Ok? }

  lemma {:induction false} EmitsCompile(acc: map<string, Query>, rule: Rule, emits: seq<Emit>, anchor: string,
      fsql: FuncsSQL)
    requires WellFormed(rule)
    ensures CompileEmits(acc, rule, emits, anchor, fsql).Ok? <==>
      forall i :: 0 <= i < |emits| ==>
        EmitCompiles(emits[i], AggregateTarget(rule.sources, fsql)) &&
        AllCompile(rule.suppress, AggregateTarget(rule.sources, fsql))
    decreases emits
  {
    if emits != [] {
      assert forall i :: 0 < i < |emits| ==> emits[i] == emits[1..][i - 1];
      var q := CompileEmit(rule, emits[0], anchor, fsql);
      if q.Ok? { EmitsCompile(acc[emits[0].emits := q.value], rule, emits[1..], anchor, fsql); }
    }
  }

  /** A rule compiles exactly when it has an anchor and all its expressions compile. */
  lemma RuleCompilesExactly(rule: Rule, fsql: FuncsSQL)
    requires WellFormed(rule)
    ensures CompileRule(rule, fsql).Ok? <==>
      && AnchorOf(rule).Ok?
      && (forall n :: n in rule.sources ==> SourceCompiles(rule.sources[n], fsql))
      && (forall i :: 0 <= i < |rule.emits| ==>
            EmitCompiles(rule.emits[i], AggregateTarget(rule.sources, fsql)) &&
            AllCompile(rule.suppress, AggregateTarget(rule.sources, fsql)))
  {
    SourcesCompile(map[], rule.names, rule.sources, fsql);
    if AnchorOf(rule).Ok? { EmitsCompile(map[], rule, rule.emits, AnchorOf(rule).value, fsql); }
  }

  // ----- runs -----

  lemma {:induction false} QueriesRun(rule: Rule, emits: seq<Emit>, compiled: Compiled,
      results: map<string, seq<Record>>, columns: set<string>, eng: Engine)
    ensures RunEmits(rule, emits, compiled, results, columns, eng).Ok? <==>
      forall i :: 0 <= i < |emits| ==>
        emits[i].emits in compiled.queries &&
        QueryPrepares(compiled.queries[emits[i].emits], compiled.ctes, columns)
  {
    if emits != [] {
      assert forall i :: 0 < i < |emits| ==> emits[i] == emits[1..][i - 1];
      QueriesRun(rule, emits[1..], compiled, results, columns, eng);
    }
  }

  /** A rule runs exactly when it compiles, the table has a column, and every query is accepted. */
  lemma RunsExactly(rule: Rule, table: seq<Record>, columns: set<string>, fsql: FuncsSQL, eng: Engine)
    requires WellFormed(rule)
    ensures RunTable(rule, table, columns, fsql, eng).Ok? <==>
      CompileRule(rule, fsql).Ok? && columns != {} &&
      forall i :: 0 <= i < |rule.emits| ==>
        var compiled := CompileRule(rule, fsql).value;
        rule.emits[i].emits in compiled.queries &&
        QueryPrepares(compiled.queries[rule.emits[i].emits], compiled.ctes, columns)
  {
    if CompileRule(rule, fsql).Ok? {
      var compiled := CompileRule(rule, fsql).value;
      QueriesRun(rule, rule.emits, compiled, Results(compiled.ctes, table, eng), columns, eng);
    }
  }
}
