/** The equivalence gate on the token-replayed rule: both paths succeed and agree, on any list of uses. */
module CdlReplayGate {
  import opened Common
  import opened Seqs
  import opened CdlExpr
  import opened CdlEvents
  import opened CdlAggregate
  import opened CdlStreaming
  import opened CdlMeaning
  import opened CdlSql
  import opened CdlCompile
  import opened CdlQuery
  import opened CdlErrors
  import opened CdlGroups
  import opened CdlGroupRecord
  import opened CdlJoin
  import opened CdlCase
  import opened CdlRule
  import opened CdlEquivalence
  import opened CdlFunctions
  import opened CdlTravel
  import opened CdlReplay

  // ----- columns -----

  predicate IsUsePath(q: Path) {
    q == ["activity_id"] || q == ["status_id"] || q == ["time"] || q == SESSION || q == IP
  }

  lemma UsePaths(u: Use, q: Path, x: Value)
    requires LeafAt(UseEvent(u), q, x)
    ensures IsUsePath(q)
  {
    assert q != [];
    assert q == [q[0]] + q[1..];
    var v := UseFields(u)[q[0]];
    if q[0] == "src_endpoint" {
      OneKey("ip", Str(u.ip), q[1..], x);
      ScalarLeaf(Str(u.ip), q[1..][1..], x);
    } else {
      ScalarLeaf(v, q[1..], x);
    }
  }

  lemma SessionColumn()
    ensures FlatFrom("", SESSION) == FlatName(SESSION) == "session_id"
  {
    FlatNameIsColumn(SESSION);
  }

  lemma UseUnaliased(u: Use, p: Path)
    requires IsUsePath(p)
    ensures Unaliased(UseEvent(u), p)
  {
    Columns();
    SessionColumn();
    forall q, x | LeafAt(UseEvent(u), q, x) && FlatFrom("", q) == FlatName(p) ensures q == p {
      UsePaths(u, q, x);
      assert |FlatName(q)| == |FlatName(p)|;
    }
  }

  // ----- the conditions of the theorem -----

  /** Times above the int64 minimum, session names without the separator. */
  predicate PlainUses(us: seq<Use>) {
    forall u :: u in us ==> UNIT_SEPARATOR !in u.session && MIN_INT64 < u.time <= MAX_INT64
  }

  function UseCorpus(us: seq<Use>, table: seq<Record>, eng: Engine): Corpus {
    Corpus(Uses(us), table, Builtins(), BuiltinsSQL(), LiteralGroup, eng)
  }

  lemma UseSided(u: Use)
    ensures WhereSided(UseEvent(u), Sessions(), Builtins(), LiteralGroup)
  {
    var ctx, scope := EventContext(UseEvent(u), Builtins()), EventScope(UseEvent(u), LiteralGroup);
    UseReads(u);
    UseUnaliased(u, ["activity_id"]);
    UseUnaliased(u, ["status_id"]);
    OneOrNot("activity_id", ctx, scope, Int(u.activity));
    OneOrNot("status_id", ctx, scope, Int(u.status));
  }

  lemma SessionKeys(us: seq<Use>)
    requires PlainUses(us)
    ensures GroupFields(Uses(us), [SESSION])
  {
    SessionColumn();
    forall e | e in Uses(us)
      ensures Unaliased(e, SESSION) && Resolve(e, SESSION).Some? && Resolve(e, SESSION).value.Str? &&
        IsKeyScalar(Resolve(e, SESSION).value)
    {
      var u := UseOf(us, e);
      UseReads(u);
      UseUnaliased(u, SESSION);
    }
    assert KeyField(Uses(us), SESSION);
    assert "session_id"[0] == 's' && "distinct_"[0] == 'd' && "last_"[0] == 'l';
  }

  lemma SessionsOk(us: seq<Use>, table: seq<Record>, eng: Engine)
    requires PlainUses(us)
    ensures SourceOk(UseCorpus(us, table, eng), Sessions())
  {
    SessionKeys(us);
    forall e | e in Uses(us) ensures WhereSided(e, Sessions(), Builtins(), LiteralGroup) {
      var u := UseOf(us, e);
      UseSided(u);
    }
  }

  lemma UsesTimed(us: seq<Use>, table: seq<Record>, eng: Engine)
    requires PlainUses(us) && TableOf(Uses(us), table)
    ensures CorpusOk(UseCorpus(us, table, eng))
  {
    AssetGroupAgrees(eng);
    forall e | e in Uses(us) ensures Timed(e) {
      var u := UseOf(us, e);
      UseReads(u);
      UseUnaliased(u, ["time"]);
    }
  }

  lemma SessionIsText(us: seq<Use>, table: seq<Record>, eng: Engine)
    ensures EntityOk(ReplayRule(), UseCorpus(us, table, eng), Sessions())
  {
    forall e | e in Uses(us) ensures Resolve(e, SESSION).Some? && Resolve(e, SESSION).value.Str? {
      var u := UseOf(us, e);
      UseReads(u);
    }
  }

  /** Addresses are texts throughout, so both sides count the same number of them. */
  lemma AddressesSound(us: seq<Use>, ms: seq<Event>)
    requires forall e :: e in ms ==> e in Uses(us)
    ensures DistinctSound(ms, [IP], "src_endpoint_ip")
  {
    forall i | 0 <= i < |ms|
      ensures Unaliased(ms[i], IP) && Resolve(ms[i], IP).Some? && Resolve(ms[i], IP).value.Str?
    {
      assert ms[i] in ms;
      var u := UseOf(us, ms[i]);
      UseReads(u);
      UseUnaliased(u, IP);
    }
    OneKindCounts(ms, IP);
  }

  lemma ReplayAgrees(k: nat, ctx: Context, scope: Scope)
    requires ctx.env(["sessions", "distinct_src_endpoint_ip"]) == Ok(Int(k))
    requires scope.ident(["sessions", "distinct_src_endpoint_ip"])
    ensures EmitConsistent(ReplayEmit(), ctx, scope)
  {
    AtLeastTwoAddresses(k, ctx);
    CountNearTwo(k);
    assert Separated(Int(k), Int(2));
    assert Eval(Literal(Int(2)), ctx) == Ok(Int(2)) && Consistent(Addresses(), ctx, scope);
    assert BinaryAgrees(Compare(Ge), Addresses(), Literal(Int(2)), Int(k), Int(2));
    assert Consistent(Replayed(), ctx, scope);
    ConsistentIsSided(Replayed(), true, ctx, scope);
  }

  lemma CountNearTwo(k: nat)
    ensures k == 2 || AsFloat(Int(k)) != AsFloat(Int(2))
  {
    Float64Exact(1);
    Float64Exact(2);
    Float64Exact(3);
    if k < 2 { Float64Monotone(k, 1); } else if k > 2 { Float64Monotone(3, k); }
  }

  lemma AddressesDefined(c: Corpus, values: CaseValues, agg: Aggregate)
    requires DistinctSound(SourceMatches(c, Sessions(), values), [IP], "src_endpoint_ip")
    ensures AggregateScope(c, ReplayRule().sources, values, map["sessions" := agg]).ident(["sessions",
      "distinct_src_endpoint_ip"])
  {
    assert ReplayRule().sources["sessions"] == Sessions();
    DistinctName();
  }

  lemma DistinctName()
    ensures HasPrefix("distinct_src_endpoint_ip", "distinct_")
    ensures "distinct_src_endpoint_ip"[|"distinct_"|..] == "src_endpoint_ip"
  {
    AddressName();
    Columns();
    PrefixesApart("src_endpoint_ip");
  }

  lemma CountedAreUses(us: seq<Use>, values: CaseValues, c: Corpus)
    requires c.events == Uses(us)
    ensures forall e :: e in SourceMatches(c, Sessions(), values) ==> e in Uses(us)
  {
    FilterElems(Uses(us), Picker(Sessions(), KeyOf(values, [SESSION]), c.funcs));
  }

  lemma UseCaseOk(us: seq<Use>, table: seq<Record>, eng: Engine, s: string)
    ensures WellFormed(ReplayRule())
    ensures var c := UseCorpus(us, table, eng);
      CaseAggregates(ReplayRule(), c, SessionCase(s)).Ok? &&
      CaseConsistent(ReplayRule(), c, "sessions", SessionCase(s), CaseAggregates(ReplayRule(), c, SessionCase(s)).value)
  {
    var c := UseCorpus(us, table, eng);
    var agg := SessionAggregate(us, s, Builtins());
    OneSource(us, s, Builtins(), agg);
    CountedAreUses(us, SessionCase(s), c);
    AddressesSound(us, SourceMatches(c, Sessions(), SessionCase(s)));
    AddressesDefined(c, SessionCase(s), agg);
    ReplayAgrees(|AddressesOf(us, s)|, AggregateContext(map["sessions" := agg], Builtins()),
      AggregateScope(c, ReplayRule().sources, SessionCase(s), map["sessions" := agg]));
  }

  lemma UseCases(us: seq<Use>, table: seq<Record>, eng: Engine)
    ensures WellFormed(ReplayRule())
    ensures RuleCases(ReplayRule(), UseCorpus(us, table, eng)) == Cases(Uses(us), [SESSION])
  {
    ReplayShape();
  }

  lemma ReplayCasesOk(us: seq<Use>, table: seq<Record>, eng: Engine)
    ensures WellFormed(ReplayRule())
    ensures var c := UseCorpus(us, table, eng);
      forall ci :: ci in RuleCases(ReplayRule(), c) ==> CaseAggregates(ReplayRule(), c, ci.values).Ok? ==>
        CaseConsistent(ReplayRule(), c, "sessions", ci.values, CaseAggregates(ReplayRule(), c, ci.values).value)
  {
    var c := UseCorpus(us, table, eng);
    UseCases(us, table, eng);
    SessionCases(us);
    forall ci | ci in RuleCases(ReplayRule(), c)
      ensures CaseAggregates(ReplayRule(), c, ci.values).Ok?
      ensures CaseConsistent(ReplayRule(), c, "sessions", ci.values, CaseAggregates(ReplayRule(), c, ci.values).value)
    {
      var u :| u in us && ci == CaseInfo(u.session, SessionCase(u.session));
      UseCaseOk(us, table, eng, u.session);
    }
  }

  lemma RuleOkFrom(c: Corpus)
    requires WellFormed(ReplayRule()) && AnchorOf(ReplayRule()) == Ok("sessions")
    requires CorpusOk(c) && SourceOk(c, Sessions()) && EntityOk(ReplayRule(), c, Sessions())
    requires forall ci :: ci in RuleCases(ReplayRule(), c) ==> CaseAggregates(ReplayRule(), c, ci.values).Ok? ==>
      CaseConsistent(ReplayRule(), c, "sessions", ci.values, CaseAggregates(ReplayRule(), c, ci.values).value)
    ensures RuleOk(ReplayRule(), c, "sessions")
  {}

  /** The rule meets the theorem's conditions on any uses. */
  lemma ReplayOk(us: seq<Use>, table: seq<Record>, eng: Engine)
    requires PlainUses(us) && TableOf(Uses(us), table)
    ensures RuleOk(ReplayRule(), UseCorpus(us, table, eng), "sessions")
  {
    ReplayShape();
    UsesTimed(us, table, eng);
    SessionsOk(us, table, eng);
    SessionIsText(us, table, eng);
    ReplayCasesOk(us, table, eng);
    RuleOkFrom(UseCorpus(us, table, eng));
  }

  lemma UsesComplete(us: seq<Use>, table: seq<Record>, eng: Engine)
    ensures AnchorComplete(UseCorpus(us, table, eng), Sessions())
  {
    forall e | e in Uses(us) ensures CaseOf(e, [SESSION]).Some? {
      var u := UseOf(us, e);
      UseCase(u);
    }
  }

  lemma UnusedIsQuiet(us: seq<Use>, table: seq<Record>, eng: Engine)
    ensures WellFormed(ReplayRule()) && QuietUnanchored(ReplayRule(), UseCorpus(us, table, eng), Sessions())
  {
    var c := UseCorpus(us, table, eng);
    UseCases(us, table, eng);
    SessionCases(us);
    forall ci | ci in RuleCases(ReplayRule(), c) && !IsLive(c, Sessions())(ci)
      ensures CaseClaims(ReplayRule(), Uses(us), ci.values, Builtins()) == Ok([])
    {
      var u :| u in us && ci == CaseInfo(u.session, SessionCase(u.session));
      NoAddresses(us, u.session, Builtins());
      SessionClaims(us, u.session, Builtins());
    }
  }

  lemma NoAddresses(us: seq<Use>, s: string, funcs: Funcs)
    requires Counted(Uses(us), Sessions(), SessionCase(s), funcs) == []
    ensures AddressesOf(us, s) == {}
  {
    CountedAddresses(us, s, funcs);
    assert RenderedValues([], IP) == {};
  }

  // ----- what the rule compiles to -----

  function OneIn(table: string, column: string): SqlExpr { CmpX(SEq, Col(Column(table, column)), Lit(SInt(1))) }

  function WhereSQL(table: string): SqlExpr { AndX(OneIn(table, "activity_id"), OneIn(table, "status_id")) }

  lemma EqualsCompiles(field: string, table: string, fsql: FuncsSQL)
    ensures ToSQL(Equals(field, 1), EventTarget(table, fsql)) == Ok(OneIn(table, field))
  {
    assert FlatName([field]) == field;
  }

  lemma WhereCompiles(table: string, fsql: FuncsSQL)
    ensures ToSQL(Where(), EventTarget(table, fsql)) == Ok(WhereSQL(table))
  {
    EqualsCompiles("activity_id", table, fsql);
    EqualsCompiles("status_id", table, fsql);
  }

  function SessionsCte(): Cte {
    Cte(WhereSQL(""), ["session_id"], [DistinctColumn("src_endpoint_ip", "distinct_src_endpoint_ip")], [])
  }

  function AddressesSQL(): SqlExpr { CoalesceX(Col(Column("sessions", "distinct_src_endpoint_ip")), SInt(0)) }

  function ReplayQuery(): Query {
    Query("sessions", [], Column("sessions", "session_id"), AddressesSQL(), CmpX(SGe, AddressesSQL(), Lit(SInt(2))))
  }

  lemma SessionsCompile(fsql: FuncsSQL)
    ensures CompileSource(Sessions(), fsql) == Ok(SessionsCte())
  {
    WhereCompiles("", fsql);
    SessionColumn();
    AddressColumn();
    assert FlatNames([SESSION]) == ["session_id"];
    assert CompileLasts(Sessions(), [], fsql) == Ok([]);
  }

  lemma AddressColumn()
    ensures DistinctColumns([IP]) == [DistinctColumn("src_endpoint_ip", "distinct_src_endpoint_ip")]
  {
    Columns();
    AddressName();
    assert [IP][1..] == [] && DistinctColumns([]) == [];
  }

  lemma AddressesCompile(fsql: FuncsSQL)
    ensures ToSQL(Addresses(), AggregateTarget(ReplayRule().sources, fsql)) == Ok(AddressesSQL())
  {
    DistinctName();
    assert ReplayRule().sources["sessions"] == Sessions();
  }

  lemma ReplayEmitCompiles(fsql: FuncsSQL)
    ensures WellFormed(ReplayRule())
    ensures CompileEmit(ReplayRule(), ReplayEmit(), "sessions", fsql) == Ok(ReplayQuery())
  {
    var r := ReplayRule();
    ReplayShape();
    AddressesCompile(fsql);
    SessionColumn();
    assert r.names[1..] == [] && JoinsFor("sessions", r.names, r.sources) == [];
  }

  function ReplayCompiled(): Compiled {
    Compiled(map["sessions" := SessionsCte()], map["TOKEN_REPLAYED" := ReplayQuery()])
  }

  lemma ReplayCompiles(fsql: FuncsSQL)
    ensures WellFormed(ReplayRule())
    ensures CompileRule(ReplayRule(), fsql) == Ok(ReplayCompiled())
  {
    var r := ReplayRule();
    ReplayShape();
    SessionsCompile(fsql);
    ReplayEmitCompiles(fsql);
    assert r.names[1..] == [] && r.emits[1..] == [] && r.sources["sessions"] == Sessions();
    assert CompileSources(map[], r.names, r.sources, fsql) ==
      CompileSources(map["sessions" := SessionsCte()], [], r.sources, fsql);
    assert CompileEmits(map[], r, r.emits, "sessions", fsql) ==
      CompileEmits(map["TOKEN_REPLAYED" := ReplayQuery()], r, [], "sessions", fsql);
  }

  // ----- both paths succeed -----

  predicate HasUseColumns(columns: set<string>) {
    "activity_id" in columns && "status_id" in columns && "session_id" in columns && "src_endpoint_ip" in columns &&
    "time" in columns
  }

  lemma OnePrepares(table: string, column: string, columns: set<string>)
    requires column in columns
    ensures Prepares(OneIn(table, column), TableColumns(table, columns))
  {
    assert Column(table, column) in TableColumns(table, columns);
  }

  lemma CteAccepted(columns: set<string>)
    requires HasUseColumns(columns)
    ensures CtePrepares(SessionsCte(), columns)
  {
    OnePrepares("", "activity_id", columns);
    OnePrepares("", "status_id", columns);
  }

  lemma OutputsThere()
    ensures var ctes := map["sessions" := SessionsCte()];
      Column("sessions", "session_id") in OutputColumns(ctes) &&
      Column("sessions", "distinct_src_endpoint_ip") in OutputColumns(ctes)
  {
    var ctes := map["sessions" := SessionsCte()];
    assert "session_id" in OutputNames(ctes["sessions"]);
    assert DistinctColumn("src_endpoint_ip", "distinct_src_endpoint_ip") in ctes["sessions"].distincts;
    assert "distinct_src_endpoint_ip" in OutputNames(ctes["sessions"]);
  }

  /** The engine accepts the query for the predicate. */
  predicate Accepts(compiled: Compiled, emits: string, columns: set<string>) {
    match compiled
    case Compiled(ctes, queries) => emits in queries && QueryPrepares(queries[emits], ctes, columns)
  }

  lemma AddressesPrepare(columns: set<Column>)
    requires Column("sessions", "distinct_src_endpoint_ip") in columns
    ensures Prepares(AddressesSQL(), columns) && Prepares(CmpX(SGe, AddressesSQL(), Lit(SInt(2))), columns)
  {
    assert Prepares(Lit(SInt(2)), columns) && Prepares(AddressesSQL(), columns);
  }

  lemma ReplayPrepares(columns: set<string>)
    requires HasUseColumns(columns)
    ensures Accepts(ReplayCompiled(), "TOKEN_REPLAYED", columns)
  {
    CteAccepted(columns);
    OutputsThere();
    AddressesPrepare(OutputColumns(map["sessions" := SessionsCte()]));
  }

  lemma ColumnLoaded(u: Use, rec: Record, p: Path)
    requires RecordOf(UseEvent(u), rec) && IsUsePath(p)
    ensures FlatName(p) in rec
  {
    UseUnaliased(u, p);
    UseReads(u);
    var flat :| FlattenOf(UseEvent(u), "", map[], flat) && (forall c :: c in flat ==> Storable(flat[c])) &&
      rec == map c | c in flat :: Store(flat[c]);
    FlattenReadsBack(UseEvent(u), flat, p);
  }

  lemma UseColumnsLoaded(u: Use, rec: Record)
    requires RecordOf(UseEvent(u), rec)
    ensures HasUseColumns(rec.Keys)
  {
    Columns();
    SessionColumn();
    ColumnLoaded(u, rec, ["activity_id"]);
    ColumnLoaded(u, rec, ["status_id"]);
    ColumnLoaded(u, rec, SESSION);
    ColumnLoaded(u, rec, IP);
    ColumnLoaded(u, rec, ["time"]);
  }

  lemma TableHasColumns(us: seq<Use>, table: seq<Record>, columns: set<string>)
    requires us != [] && Loads(Uses(us), table, columns)
    ensures HasUseColumns(columns)
  {
    var rec := table[0];
    assert rec in table && RecordOf(UseEvent(us[0]), rec);
    UseColumnsLoaded(us[0], rec);
    assert forall c :: c in rec ==> c in ColumnsOf(table);
  }

  ghost predicate Single(rule: Rule, emits: string, fsql: FuncsSQL, compiled: Compiled) {
    match rule
    case Rule(_, _, _, _, _, clauses, _) =>
      WellFormed(rule) && CompileRule(rule, fsql) == Ok(compiled) && forall e :: e in clauses ==> e.emits == emits
  }

  lemma RunsOnce(rule: Rule, table: seq<Record>, columns: set<string>, fsql: FuncsSQL, eng: Engine, emits: string,
      compiled: Compiled)
    requires Single(rule, emits, fsql, compiled) && Accepts(compiled, emits, columns) && columns != {}
    ensures Runs(rule, table, columns, fsql, eng)
  {
    RunsExactly(rule, table, columns, fsql, eng);
  }

  ghost predicate Runs(rule: Rule, table: seq<Record>, columns: set<string>, fsql: FuncsSQL, eng: Engine) {
    match rule case Rule(_, _, _, _, _, _, _) => WellFormed(rule) && RunTable(rule, table, columns, fsql, eng).Ok?
  }

  lemma ReplaySingle(fsql: FuncsSQL)
    ensures Single(ReplayRule(), "TOKEN_REPLAYED", fsql, ReplayCompiled())
  {
    ReplayCompiles(fsql);
  }

  lemma ReplayRuns(table: seq<Record>, columns: set<string>, eng: Engine)
    requires HasUseColumns(columns)
    ensures Runs(ReplayRule(), table, columns, BuiltinsSQL(), eng)
  {
    ReplaySingle(BuiltinsSQL());
    ReplayPrepares(columns);
    RunsOnce(ReplayRule(), table, columns, BuiltinsSQL(), eng, "TOKEN_REPLAYED", ReplayCompiled());
  }

  /**
   On any uses, however they are loaded, both paths succeed and make the same claims: of exactly the sessions
   successfully used from two or more addresses.
   */
  lemma BothPathsReplay(us: seq<Use>, table: seq<Record>, columns: set<string>, eng: Engine)
      returns (streamed: seq<Claim>, queried: seq<Claim>)
    requires us != [] && PlainUses(us) && Loads(Uses(us), table, columns)
    ensures WellFormed(ReplayRule()) && Streaming(ReplayRule(), Uses(us), Builtins()) == Ok(streamed)
    ensures RunTable(ReplayRule(), table, columns, BuiltinsSQL(), eng) == Ok(queried)
    ensures Bag(streamed) == Bag(queried)
    ensures forall s, k :: ReplayClaim(s, k) in streamed <==> k == |AddressesOf(us, s)| >= 2
  {
    TableHasColumns(us, table, columns);
    ReplayRuns(table, columns, eng);
    ReplayOutcome(us, Builtins());
    streamed := Streaming(ReplayRule(), Uses(us), Builtins()).value;
    queried := RunTable(ReplayRule(), table, columns, BuiltinsSQL(), eng).value;
    ReplayOk(us, table, eng);
    ReplayMeets(us, table, eng);
    RuleEquivalence(ReplayRule(), UseCorpus(us, table, eng), "sessions", columns, streamed, queried);
  }

  lemma ReplayMeets(us: seq<Use>, table: seq<Record>, eng: Engine)
    ensures WellFormed(ReplayRule()) && DistinctEmits(ReplayRule().emits) && "sessions" in ReplayRule().sources
    ensures var c := UseCorpus(us, table, eng);
      AnchorComplete(c, ReplayRule().sources["sessions"]) &&
      QuietUnanchored(ReplayRule(), c, ReplayRule().sources["sessions"])
  {
    ReplayShape();
    UsesComplete(us, table, eng);
    UnusedIsQuiet(us, table, eng);
  }
}
