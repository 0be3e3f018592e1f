/** The equivalence gate on the impossible-travel rule: both paths succeed and agree on every trip. */
module CdlTravelGate {
  import opened Common
  import opened Seqs
  import opened CdlExpr
  import opened CdlEvents
  import opened CdlAggregate
  import opened CdlStreaming
  import opened CdlMeaning
  import opened CdlSql
  import opened CdlCompile
  import opened CdlQuery
  import opened CdlGroups
  import opened CdlGroupRecord
  import opened CdlCase
  import opened CdlRule
  import opened CdlEquivalence
  import opened CdlFunctions
  import opened CdlTravel
  import opened CdlReplayGate

  // ----- what the rule compiles to -----

  function Out(field: string): SqlExpr { Col(Column("auths", field)) }

  function CountSQL(): SqlExpr { CmpX(SGe, CoalesceX(Out("count"), SInt(0)), Lit(SInt(2))) }

  function HasDistanceSQL(): SqlExpr { IsNullX(Out("last_distance_from_prev_km"), true) }

  function HoursSQL(): SqlExpr {
    RealDivX(ArithX(Sub, Out("last_ts"), Out("first_ts")), Lit(SInt(3600000000000)))
  }

  function VelocitySQL(): SqlExpr { RealDivX(Out("last_distance_from_prev_km"), HoursSQL()) }

  function WhenSQL(): SqlExpr {
    AndX(AndX(CountSQL(), HasDistanceSQL()), CmpX(SGt, VelocitySQL(), Lit(SInt(900))))
  }

  function EgressSQL(): SqlExpr { InX(Out("last_src_endpoint_ip"), Tuple([Lit(SText("203.0.113.44"))])) }

  function LoginsCte(): Cte {
    Cte(WhereSQL(""), ["actor_user_uid"], [],
      [LastColumn("distance_from_prev_km", WhereSQL("sub"), "last_distance_from_prev_km"),
       LastColumn("src_endpoint_ip", WhereSQL("sub"), "last_src_endpoint_ip")])
  }

  function TravelQuery(): Query {
    Query("auths", [], Column("auths", "actor_user_uid"), VelocitySQL(), AndX(WhenSQL(), NotX(EgressSQL())))
  }

  function TravelCompiled(): Compiled {
    Compiled(map["auths" := LoginsCte()], map["TRAVEL_IMPOSSIBLE" := TravelQuery()])
  }

  function TravelTarget(): Target { AggregateTarget(TravelRule().sources, BuiltinsSQL()) }

  lemma LastCompiles(p: Path, rest: seq<Path>, column: string, output: string, lasts: seq<LastColumn>)
    requires FlatName(p) == column && "last_" + column == output
    requires CompileLasts(Logins(), rest, BuiltinsSQL()) == Ok(lasts)
    ensures CompileLasts(Logins(), [p] + rest, BuiltinsSQL()) ==
      Ok([LastColumn(column, WhereSQL("sub"), output)] + lasts)
  {
    WhereCompiles("sub", BuiltinsSQL());
    assert ([p] + rest)[1..] == rest;
  }

  lemma TrackedColumns()
    ensures CompileLasts(Logins(), [DISTANCE, IP], BuiltinsSQL()) == Ok(LoginsCte().lasts)
  {
    var ip := LastColumn("src_endpoint_ip", WhereSQL("sub"), "last_src_endpoint_ip");
    Columns();
    TrackedNames();
    LastCompiles(IP, [], "src_endpoint_ip", "last_src_endpoint_ip", []);
    assert [IP] + [] == [IP] && [ip] + [] == [ip];
    LastCompiles(DISTANCE, [IP], "distance_from_prev_km", "last_distance_from_prev_km", [ip]);
    assert [DISTANCE] + [IP] == [DISTANCE, IP];
    assert LoginsCte().lasts ==
      [LastColumn("distance_from_prev_km", WhereSQL("sub"), "last_distance_from_prev_km")] + [ip];
  }

  lemma LoginsCompile()
    ensures CompileSource(Logins(), BuiltinsSQL()) == Ok(LoginsCte())
  {
    Columns();
    WhereCompiles("", BuiltinsSQL());
    TrackedColumns();
    assert FlatNames([UID]) == ["actor_user_uid"] && DistinctColumns([]) == [];
  }

  lemma PlainOuts()
    ensures TravelTarget().cols(["auths", "count"]) == Ok(CoalesceX(Out("count"), SInt(0)))
    ensures TravelTarget().cols(["auths", "first_ts"]) == Ok(Out("first_ts"))
    ensures TravelTarget().cols(["auths", "last_ts"]) == Ok(Out("last_ts"))
  {
    assert TravelRule().sources["auths"] == Logins();
  }

  lemma TrackedOut(x: string)
    requires x != "ts"
    ensures TravelTarget().cols(["auths", "last_" + x]) == Ok(Out("last_" + x))
  {
    assert TravelRule().sources["auths"] == Logins();
    PrefixesApart(x);
  }

  lemma TrackedOuts()
    ensures TravelTarget().cols(["auths", "last_distance_from_prev_km"]) == Ok(Out("last_distance_from_prev_km"))
    ensures TravelTarget().cols(["auths", "last_src_endpoint_ip"]) == Ok(Out("last_src_endpoint_ip"))
  {
    TrackedNames();
    TrackedOut("distance_from_prev_km");
    TrackedOut("src_endpoint_ip");
  }

  lemma VelocityCompiles()
    ensures ToSQL(Velocity(), TravelTarget()) == Ok(VelocitySQL())
  {
    PlainOuts();
    TrackedOuts();
    assert ToSQL(Elapsed(), TravelTarget()) == Ok(ArithX(Sub, Out("last_ts"), Out("first_ts")));
    assert ToSQL(Hours(), TravelTarget()) == Ok(HoursSQL());
    assert Velocity() == Binary(Arith(Div), Auths("last_distance_from_prev_km"), Hours());
  }

  lemma GuardsCompile()
    ensures ToSQL(AtLeastTwo(), TravelTarget()) == Ok(CountSQL())
    ensures ToSQL(HasDistance(), TravelTarget()) == Ok(HasDistanceSQL())
  {
    PlainOuts();
    TrackedOuts();
  }

  lemma WhenCompiles()
    ensures ToSQL(When(), TravelTarget()) == Ok(WhenSQL())
  {
    GuardsCompile();
    VelocityCompiles();
    assert ToSQL(Both2(AtLeastTwo(), HasDistance()), TravelTarget()) == Ok(AndX(CountSQL(), HasDistanceSQL()));
  }

  lemma QuoteFreeReadsBack(name: string)
    requires '\'' !in name
    ensures TrimQuotes("'" + DoubleQuotes(name) + "'") == name
  {
    NameReadBack(name);
    TrimLeftQuoteFree(name);
    DoubleQuotesKeeps(name);
  }

  lemma GroupSQL(name: string, member: string)
    requires Group(name) == [member] && '\'' !in name
    ensures AssetGroupSQL([Lit(SText(name))]) == Ok(Tuple([Lit(SText(member))]))
  {
    QuoteFreeReadsBack(name);
    assert Texts([member]) == [Lit(SText(member))];
  }

  lemma CorporateGroup()
    ensures AssetGroupSQL([Lit(SText("corporate-egress"))]) == Ok(Tuple([Lit(SText("203.0.113.44"))]))
  {
    assert Group("corporate-egress") == ["203.0.113.44"];
    GroupSQL("corporate-egress", "203.0.113.44");
  }

  lemma CallCompiles(name: string, list: SqlExpr, t: Target)
    requires t.funcs == BuiltinsSQL() && AssetGroupSQL([Lit(SText(name))]) == Ok(list)
    ensures ToSQL(Call("asset_group", [Literal(Str(name))]), t) == Ok(list)
  {
    assert ToSQLAll([Literal(Str(name))], t).value == [Lit(SText(name))];
  }

  lemma InGroupCompiles(field: string, name: string, items: SqlExpr, t: Target)
    requires t.cols(["auths", field]) == Ok(Out(field))
    requires ToSQL(Call("asset_group", [Literal(Str(name))]), t) == Ok(items)
    ensures ToSQL(Binary(In, Auths(field), Call("asset_group", [Literal(Str(name))])), t) ==
      Ok(InX(Out(field), items))
  {}

  lemma EgressFrom(t: Target)
    requires t.cols(["auths", "last_src_endpoint_ip"]) == Ok(Out("last_src_endpoint_ip"))
    requires ToSQL(EgressGroup(), t) == Ok(EgressSQL().r)
    ensures ToSQL(Egress(), t) == Ok(EgressSQL())
  {
    InGroupCompiles("last_src_endpoint_ip", "corporate-egress", EgressSQL().r, t);
  }

  lemma EgressCompiles()
    ensures ToSQL(Egress(), TravelTarget()) == Ok(EgressSQL())
  {
    TrackedOuts();
    CorporateGroup();
    CallCompiles("corporate-egress", Tuple([Lit(SText("203.0.113.44"))]), TravelTarget());
    EgressFrom(TravelTarget());
  }

  lemma SuppressCompiles()
    ensures ToSQLAll([Egress()], TravelTarget()) == Ok([EgressSQL()])
  {
    EgressCompiles();
    assert [Egress()][1..] == [];
    assert ToSQLAll([Egress()], TravelTarget()).value == [EgressSQL()];
  }

  lemma TravelEmitCompiles()
    ensures WellFormed(TravelRule())
    ensures CompileEmit(TravelRule(), TravelEmit(), "auths", BuiltinsSQL()) == Ok(TravelQuery())
  {
    var r := TravelRule();
    TravelAnchor();
    WhenCompiles();
    VelocityCompiles();
    SuppressCompiles();
    Columns();
    assert r.names[1..] == [] && JoinsFor("auths", r.names, r.sources) == [];
  }

  lemma TravelCompiles()
    ensures WellFormed(TravelRule()) && CompileRule(TravelRule(), BuiltinsSQL()) == Ok(TravelCompiled())
  {
    var r := TravelRule();
    TravelAnchor();
    LoginsCompile();
    TravelEmitCompiles();
    assert r.names[1..] == [] && r.emits[1..] == [] && r.sources["auths"] == Logins();
    assert CompileSources(map[], r.names, r.sources, BuiltinsSQL()) ==
      CompileSources(map["auths" := LoginsCte()], [], r.sources, BuiltinsSQL());
    assert CompileEmits(map[], r, r.emits, "auths", BuiltinsSQL()) ==
      CompileEmits(map["TRAVEL_IMPOSSIBLE" := TravelQuery()], r, [], "auths", BuiltinsSQL());
  }

  lemma TravelSingle()
    ensures Single(TravelRule(), "TRAVEL_IMPOSSIBLE", BuiltinsSQL(), TravelCompiled())
  {
    TravelCompiles();
  }

  // ----- the engine accepts it -----

  predicate HasLoginColumns(columns: set<string>) {
    "activity_id" in columns && "status_id" in columns && "actor_user_uid" in columns &&
    "src_endpoint_ip" in columns && "distance_from_prev_km" in columns && "time" in columns
  }

  lemma LoginsAccepted(columns: set<string>)
    requires HasLoginColumns(columns)
    ensures CtePrepares(LoginsCte(), columns)
  {
    OnePrepares("", "activity_id", columns);
    OnePrepares("", "status_id", columns);
    OnePrepares("sub", "activity_id", columns);
    OnePrepares("sub", "status_id", columns);
  }

  predicate HasOuts(columns: set<Column>) {
    Column("auths", "actor_user_uid") in columns && Column("auths", "count") in columns &&
    Column("auths", "first_ts") in columns && Column("auths", "last_ts") in columns &&
    Column("auths", "last_distance_from_prev_km") in columns && Column("auths", "last_src_endpoint_ip") in columns
  }

  lemma LoginNames()
    ensures var names := OutputNames(LoginsCte());
      {"actor_user_uid", "count", "first_ts", "last_ts", "last_distance_from_prev_km", "last_src_endpoint_ip"} <= names
  {
    var ls := LoginsCte().lasts;
    assert ls[0] in ls && ls[1] in ls;
    assert ls[0].output in OutputNames(LoginsCte()) && ls[1].output in OutputNames(LoginsCte());
  }

  lemma LoginOuts()
    ensures HasOuts(OutputColumns(map["auths" := LoginsCte()]))
  {
    LoginNames();
    var ctes := map["auths" := LoginsCte()];
    assert ctes["auths"] == LoginsCte();
    forall c | c in OutputNames(LoginsCte()) ensures Column("auths", c) in OutputColumns(ctes) {}
  }

  lemma VelocityPrepares(columns: set<Column>)
    requires HasOuts(columns)
    ensures Prepares(VelocitySQL(), columns)
  {
    var elapsed, nanos := ArithX(Sub, Out("last_ts"), Out("first_ts")), Lit(SInt(3600000000000));
    assert Prepares(Out("last_ts"), columns) && Prepares(Out("first_ts"), columns);
    assert Prepares(elapsed, columns) && Prepares(nanos, columns);
    assert HoursSQL() == RealDivX(elapsed, nanos) && Prepares(Out("last_distance_from_prev_km"), columns);
  }

  lemma GuardsPrepare(columns: set<Column>)
    requires HasOuts(columns)
    ensures Prepares(CountSQL(), columns) && Prepares(HasDistanceSQL(), columns) && Prepares(EgressSQL(), columns)
  {
    assert Prepares(CoalesceX(Out("count"), SInt(0)), columns) && Prepares(Lit(SInt(2)), columns);
    assert Prepares(Lit(SText("203.0.113.44")), columns);
  }

  lemma ConditionPrepares(columns: set<Column>)
    requires HasOuts(columns)
    ensures Prepares(AndX(WhenSQL(), NotX(EgressSQL())), columns)
  {
    VelocityPrepares(columns);
    GuardsPrepare(columns);
    assert Prepares(AndX(CountSQL(), HasDistanceSQL()), columns);
    assert Prepares(Lit(SInt(900)), columns);
    assert Prepares(CmpX(SGt, VelocitySQL(), Lit(SInt(900))), columns);
    assert Prepares(WhenSQL(), columns) && Prepares(NotX(EgressSQL()), columns);
  }

  /** A query without joins is accepted when its one CTE and its own terms are. */
  lemma OneCteAccepted(cte: Cte, q: Query, columns: set<string>)
    requires CtePrepares(cte, columns) && q.joins == []
    requires var outs := OutputColumns(map["auths" := cte]);
      q.entity in outs && Prepares(q.observed, outs) && Prepares(q.where, outs)
    ensures QueryPrepares(q, map["auths" := cte], columns)
  {}

  lemma TravelPrepares(columns: set<string>)
    requires HasLoginColumns(columns)
    ensures QueryPrepares(TravelQuery(), map["auths" := LoginsCte()], columns)
  {
    var outs := OutputColumns(map["auths" := LoginsCte()]);
    LoginsAccepted(columns);
    LoginOuts();
    VelocityPrepares(outs);
    ConditionPrepares(outs);
    OneCteAccepted(LoginsCte(), TravelQuery(), columns);
  }

  lemma TravelRuns(table: seq<Record>, columns: set<string>, eng: Engine)
    requires HasLoginColumns(columns)
    ensures Runs(TravelRule(), table, columns, BuiltinsSQL(), eng)
  {
    TravelSingle();
    TravelPrepares(columns);
    RunsOnce(TravelRule(), table, columns, BuiltinsSQL(), eng, "TRAVEL_IMPOSSIBLE", TravelCompiled());
  }

  // ----- both paths succeed -----

  lemma LoginColumnLoaded(l: Login, rec: Record, p: Path)
    requires RecordOf(LoginEvent(l), rec) && IsLeafPath(p) && (p == DISTANCE ==> l.km.Some?)
    ensures FlatName(p) in rec
  {
    LoginUnaliased(l, p);
    LoginReads(l);
    var flat :| FlattenOf(LoginEvent(l), "", map[], flat) && (forall c :: c in flat ==> Storable(flat[c])) &&
      rec == map c | c in flat :: Store(flat[c]);
    FlattenReadsBack(LoginEvent(l), flat, p);
  }

  lemma LoginColumnsLoaded(l: Login, rec: Record)
    requires RecordOf(LoginEvent(l), rec) && l.km.Some?
    ensures HasLoginColumns(rec.Keys)
  {
    Columns();
    LoginColumnLoaded(l, rec, ["activity_id"]);
    LoginColumnLoaded(l, rec, ["status_id"]);
    LoginColumnLoaded(l, rec, UID);
    LoginColumnLoaded(l, rec, IP);
    LoginColumnLoaded(l, rec, DISTANCE);
    LoginColumnLoaded(l, rec, ["time"]);
  }

  lemma TripColumns(ls: seq<Login>, table: seq<Record>, columns: set<string>)
    requires |ls| == 2 && ls[1].km.Some? && Loads(Events(ls), table, columns)
    ensures HasLoginColumns(columns)
  {
    var rec := table[1];
    assert rec in table && RecordOf(LoginEvent(ls[1]), rec);
    LoginColumnsLoaded(ls[1], rec);
    assert forall c :: c in rec ==> c in ColumnsOf(table);
  }

  /**
   On every trip, however its events are loaded, both paths succeed and make the same claims: travel above 900 km in the
   hour, unless it ends in the corporate egress range.
   */
  lemma BothPathsTravel(uid: string, ip0: string, ip1: string, km: int, time: int, table: seq<Record>,
      columns: set<string>, eng: Engine) returns (queried: seq<Claim>)
    requires Plausible(uid, km, time) && Loads(Events(Trip(uid, ip0, ip1, km, time)), table, columns)
    ensures WellFormed(TravelRule())
    ensures Streaming(TravelRule(), Events(Trip(uid, ip0, ip1, km, time)), Builtins()) == Ok(TripClaims(uid, ip1, km))
    ensures RunTable(TravelRule(), table, columns, BuiltinsSQL(), eng) == Ok(queried)
    ensures Bag(queried) == Bag(TripClaims(uid, ip1, km))
  {
    var ls := Trip(uid, ip0, ip1, km, time);
    TripColumns(ls, table, columns);
    TravelRuns(table, columns, eng);
    TripOutcome(uid, ip0, ip1, km, time);
    queried := RunTable(TravelRule(), table, columns, BuiltinsSQL(), eng).value;
    TravelOk(uid, ip0, ip1, km, time, table, eng);
    TripReady(uid, ip0, ip1, km, time, table, eng);
    RuleEquivalence(TravelRule(), LoginCorpus(ls, table, eng), "auths", columns, TripClaims(uid, ip1, km), queried);
  }

  lemma TripReady(uid: string, ip0: string, ip1: string, km: int, time: int, table: seq<Record>, eng: Engine)
    requires Plausible(uid, km, time)
    ensures WellFormed(TravelRule()) && DistinctEmits(TravelRule().emits) && "auths" in TravelRule().sources
    ensures var c := LoginCorpus(Trip(uid, ip0, ip1, km, time), table, eng);
      AnchorComplete(c, TravelRule().sources["auths"]) &&
      QuietUnanchored(TravelRule(), c, TravelRule().sources["auths"])
  {
    TravelAnchor();
    TripMeets(uid, ip0, ip1, km, time, table, eng);
  }
}
