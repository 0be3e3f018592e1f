/** A shipped rule (rules/impossible-travel.cdl.yaml) on its shipped fixtures: the conditions of the theorem hold. */
module CdlTravel {
  import opened Common
  import opened Seqs
  import opened CdlExpr
  import opened CdlEvents
  import opened CdlAggregate
  import opened CdlStreaming
  import opened CdlSql
  import opened CdlCompile
  import opened CdlQuery
  import opened CdlGroups
  import opened CdlGroupRecord
  import opened CdlJoin
  import opened CdlCase
  import opened CdlRule
  import opened CdlEquivalence
  import opened CdlGuards
  import opened CdlFunctions

  // ----- the rule -----

  const UID: Path := ["actor", "user", "uid"]
  const DISTANCE: Path := ["distance_from_prev_km"]
  const IP: Path := ["src_endpoint", "ip"]

  function Auths(field: string): Node { Ident(["auths", field]) }

  function Both2(l: Node, r: Node): Node { Binary(And, l, r) }

  function Equals(field: string, n: int): Node { Binary(Eq, Ident([field]), Literal(Int(n))) }

  function Where(): Node { Both2(Equals("activity_id", 1), Equals("status_id", 1)) }

  /** last distance over hours between the first and the last login. */
  function Velocity(): Node {
    Binary(Arith(Div), Auths("last_distance_from_prev_km"),
           Binary(Arith(Div), Binary(Arith(Ring(Sub)), Auths("last_ts"), Auths("first_ts")),
             Literal(Int(3600000000000))))
  }

  function When(): Node {
    Both2(Both2(AtLeastTwo(), HasDistance()), Binary(Compare(Gt), Velocity(), Literal(Int(900))))
  }

  function Egress(): Node {
    Binary(In, Auths("last_src_endpoint_ip"), Call("asset_group", [Literal(Str("corporate-egress"))]))
  }

  function Logins(): Source { Source(Where(), [UID], [], [DISTANCE, IP]) }

  function TravelEmit(): Emit { Emit("TRAVEL_IMPOSSIBLE", When(), Some(Velocity())) }

  function TravelRule(): Rule {
    Rule("cdl.impossible-travel", 1, UID, ["auths"], map["auths" := Logins()], [TravelEmit()], [Egress()])
  }

  function Builtins(): Funcs { map["asset_group" := AssetGroup] }

  function BuiltinsSQL(): FuncsSQL { map["asset_group" := AssetGroupSQL] }

  // ----- the events -----

  /** A successful login; the distance is an optional enrichment. */
  datatype Login = Login(uid: string, ip: string, km: Option<int>, time: int)

  function Fields(l: Login): map<string, Value> {
    var basic := map["activity_id" := Int(1), "status_id" := Int(1), "time" := Int(l.time),
                     "actor" := Map(map["user" := Map(map["uid" := Str(l.uid)])]),
                     "src_endpoint" := Map(map["ip" := Str(l.ip)])];
    if l.km.Some? then basic["distance_from_prev_km" := Int(l.km.value)] else basic
  }

  function LoginEvent(l: Login): Event { Map(Fields(l)) }

  lemma LoginReads(l: Login)
    ensures Resolve(LoginEvent(l), ["activity_id"]) == Some(Int(1)) &&
      Resolve(LoginEvent(l), ["status_id"]) == Some(Int(1))
    ensures Resolve(LoginEvent(l), ["time"]) == Some(Int(l.time)) && Time(LoginEvent(l)) == l.time
    ensures Resolve(LoginEvent(l), UID) == Some(Str(l.uid)) && Resolve(LoginEvent(l), IP) == Some(Str(l.ip))
    ensures Resolve(LoginEvent(l), DISTANCE) == match l.km case Some(km) => Some(Int(km)) case None => None
  {
    var f := Fields(l);
    assert ["activity_id"][1..] == [] && ["status_id"][1..] == [] && ["time"][1..] == [] && DISTANCE[1..] == [];
    assert UID[1..] == ["user", "uid"] && ["user", "uid"][1..] == ["uid"] && ["uid"][1..] == [];
    assert IP[1..] == ["ip"] && ["ip"][1..] == [];
    assert Resolve(Str(l.uid), []) == Some(Str(l.uid)) &&
      Resolve(Map(map["uid" := Str(l.uid)]), ["uid"]) == Some(Str(l.uid));
    assert f["actor"] == Map(map["user" := Map(map["uid" := Str(l.uid)])]);
    assert Resolve(f["actor"], ["user", "uid"]) == Some(Str(l.uid));
    assert Resolve(Str(l.ip), []) == Some(Str(l.ip)) && Resolve(f["src_endpoint"], ["ip"]) == Some(Str(l.ip));
  }

  predicate IsLeafPath(q: Path) {
    q == ["activity_id"] || q == ["status_id"] || q == ["time"] || q == UID || q == IP || q == DISTANCE
  }

  lemma LeafPaths(l: Login, q: Path, x: Value)
    requires LeafAt(LoginEvent(l), q, x)
    ensures IsLeafPath(q)
  {
    assert q != [];
    assert q == [q[0]] + q[1..];
    var v := Fields(l)[q[0]];
    if q[0] == "actor" {
      OneKey("user", Map(map["uid" := Str(l.uid)]), q[1..], x);
      OneKey("uid", Str(l.uid), q[2..], x);
      assert q[1..][1..] == q[2..];
      ScalarLeaf(Str(l.uid), q[2..][1..], x);
    } else if q[0] == "src_endpoint" {
      OneKey("ip", Str(l.ip), q[1..], x);
      ScalarLeaf(Str(l.ip), q[1..][1..], x);
    } else {
      ScalarLeaf(v, q[1..], x);
    }
  }

  lemma ScalarLeaf(v: Value, q: Path, x: Value)
    requires !v.Map? && LeafAt(v, q, x)
    ensures q == []
  {}

  lemma OneKey(k: string, v: Value, q: Path, x: Value)
    requires LeafAt(Map(map[k := v]), q, x)
    ensures q != [] && q == [k] + q[1..] && LeafAt(v, q[1..], x)
  {
    assert q != [];
  }

  /** The columns of a login event, all of different lengths. */
  lemma Columns()
    ensures FlatFrom("", ["activity_id"]) == FlatName(["activity_id"]) == "activity_id"
    ensures FlatFrom("", ["status_id"]) == FlatName(["status_id"]) == "status_id"
    ensures FlatFrom("", ["time"]) == FlatName(["time"]) == "time"
    ensures FlatFrom("", UID) == FlatName(UID) == "actor_user_uid"
    ensures FlatFrom("", IP) == FlatName(IP) == "src_endpoint_ip"
    ensures FlatFrom("", DISTANCE) == FlatName(DISTANCE) == "distance_from_prev_km"
  {
    FlatNameIsColumn(["activity_id"]);
    FlatNameIsColumn(["status_id"]);
    FlatNameIsColumn(["time"]);
    FlatNameIsColumn(UID);
    FlatNameIsColumn(IP);
    FlatNameIsColumn(DISTANCE);
    assert UID[1..] == ["user", "uid"] && ["user", "uid"][1..] == ["uid"];
    assert FlatName(["user", "uid"]) == "user" + "_" + "uid" == "user_uid";
    assert FlatName(UID) == "actor" + "_" + "user_uid" == "actor_user_uid";
    assert IP[1..] == ["ip"] && FlatName(IP) == "src_endpoint" + "_" + "ip" == "src_endpoint_ip";
  }

  lemma LoginUnaliased(l: Login, p: Path)
    requires IsLeafPath(p)
    ensures Unaliased(LoginEvent(l), p)
  {
    Columns();
    forall q, x | LeafAt(LoginEvent(l), q, x) && FlatFrom("", q) == FlatName(p) ensures q == p {
      LeafPaths(l, q, x);
      assert |FlatName(q)| == |FlatName(p)|;
    }
  }

  lemma LoginTimed(l: Login)
    requires MIN_INT64 < l.time <= MAX_INT64
    ensures Timed(LoginEvent(l))
  {
    LoginReads(l);
    LoginUnaliased(l, ["time"]);
  }

  // ----- the where clause -----

  lemma LoginMatches(l: Login, funcs: Funcs)
    ensures EvalBool(Where(), EventContext(LoginEvent(l), funcs)) == Ok(true)
    ensures Sided(Where(), true, EventContext(LoginEvent(l), funcs), EventScope(LoginEvent(l), LiteralGroup))
  {
    var ctx, scope := EventContext(LoginEvent(l), funcs), EventScope(LoginEvent(l), LiteralGroup);
    LoginReads(l);
    LoginUnaliased(l, ["activity_id"]);
    LoginUnaliased(l, ["status_id"]);
    OneEqualsOne("activity_id", ctx, scope);
    OneEqualsOne("status_id", ctx, scope);
  }

  lemma OneEqualsOne(field: string, ctx: Context, scope: Scope)
    requires ctx.env([field]) == Ok(Int(1)) && scope.ident([field])
    ensures Eval(Equals(field, 1), ctx) == Ok(Bool(true)) && Sided(Equals(field, 1), true, ctx, scope)
  {
    assert Comparable(Int(1), Int(1));
  }

  lemma SomeIntOrOne(n: int)
    ensures Comparable(Int(n), Int(1)) && ValuesEqual(Int(n), Int(1)) == Ok(n == 1)
  {
    Float64Exact(0);
    Float64Exact(1);
    Float64Exact(2);
    if n < 1 { Float64Monotone(n, 0); } else if n > 1 { Float64Monotone(2, n); }
  }

  lemma OneOrNot(field: string, ctx: Context, scope: Scope, v: Value)
    requires ctx.env([field]) == Ok(v) && scope.ident([field]) && (v.Null? || v.Int?)
    ensures EvalBool(Equals(field, 1), ctx) == Ok(v == Int(1)) && Sided(Equals(field, 1), true, ctx, scope)
  {
    if v.Int? { SomeIntOrOne(v.n); }
    assert EqualSided(true, v, Int(1)) && ValuesEqual(v, Int(1)) == Ok(v == Int(1));
    assert OperandsSided(Eq, true, Ident([field]), Literal(Int(1)), v, Int(1));
    assert Eval(Ident([field]), ctx) == Ok(v) && Eval(Literal(Int(1)), ctx) == Ok(Int(1));
    assert EvalBinary(Eq, v, Int(1)) == Ok(Bool(v == Int(1)));
    assert Eval(Equals(field, 1), ctx) == Ok(Bool(v == Int(1)));
    assert Consistent(Ident([field]), ctx, scope) && Consistent(Literal(Int(1)), ctx, scope);
  }

  /**
   The where clause is in order on events that lack one of its fields, or both: such an event is filtered out on both
   sides.
   */
  lemma WhereMayMiss(ev: Event, funcs: Funcs)
    requires Readable(ev, ["activity_id"]) && (Read(ev, ["activity_id"]).Null? || Read(ev, ["activity_id"]).Int?)
    requires Readable(ev, ["status_id"]) && (Read(ev, ["status_id"]).Null? || Read(ev, ["status_id"]).Int?)
    ensures EvalBool(Where(), EventContext(ev, funcs)) ==
      Ok(Read(ev, ["activity_id"]) == Int(1) && Read(ev, ["status_id"]) == Int(1))
    ensures WhereSided(ev, Logins(), funcs, LiteralGroup)
  {
    var ctx, scope := EventContext(ev, funcs), EventScope(ev, LiteralGroup);
    OneOrNot("activity_id", ctx, scope, Read(ev, ["activity_id"]));
    OneOrNot("status_id", ctx, scope, Read(ev, ["status_id"]));
  }

  function Events(ls: seq<Login>): (es: seq<Event>)
    ensures |es| == |ls| && forall i :: 0 <= i < |ls| ==> es[i] == LoginEvent(ls[i])
  {
    seq(|ls|, i requires 0 <= i < |ls| => LoginEvent(ls[i]))
  }

  predicate Plain(ls: seq<Login>) {
    forall l :: l in ls ==> UNIT_SEPARATOR !in l.uid && MIN_INT64 < l.time <= MAX_INT64
  }

  lemma LoginOf(ls: seq<Login>, e: Event) returns (l: Login)
    requires e in Events(ls)
    ensures l in ls && e == LoginEvent(l)
  {
    var i :| 0 <= i < |ls| && Events(ls)[i] == e;
    l := ls[i];
  }

  function LoginCorpus(ls: seq<Login>, table: seq<Record>, eng: Engine): Corpus {
    Corpus(Events(ls), table, Builtins(), BuiltinsSQL(), LiteralGroup, eng)
  }

  lemma UidKeys(ls: seq<Login>)
    requires Plain(ls)
    ensures GroupFields(Events(ls), [UID])
  {
    Columns();
    forall e | e in Events(ls)
      ensures Unaliased(e, UID) && Resolve(e, UID).Some? && Resolve(e, UID).value.Str? &&
        IsKeyScalar(Resolve(e, UID).value)
    {
      var l := LoginOf(ls, e);
      LoginReads(l);
      LoginUnaliased(l, UID);
    }
    assert KeyField(Events(ls), UID);
    assert "actor_user_uid"[0] == 'a' && "distinct_"[0] == 'd' && "last_"[0] == 'l';
  }

  lemma LoginsOk(ls: seq<Login>, table: seq<Record>, eng: Engine)
    requires Plain(ls)
    ensures SourceOk(LoginCorpus(ls, table, eng), Logins())
  {
    Columns();
    UidKeys(ls);
    assert |FlatName(IP)| != |FlatName(DISTANCE)|;
    forall e | e in Events(ls) ensures WhereSided(e, Logins(), Builtins(), LiteralGroup) {
      var l := LoginOf(ls, e);
      LoginMatches(l, Builtins());
    }
  }

  lemma LoginCorpusOk(ls: seq<Login>, table: seq<Record>, eng: Engine)
    requires Plain(ls) && TableOf(Events(ls), table)
    ensures CorpusOk(LoginCorpus(ls, table, eng))
  {
    AssetGroupAgrees(eng);
    forall e | e in Events(ls) ensures Timed(e) {
      var l := LoginOf(ls, e);
      LoginTimed(l);
    }
  }

  // ----- the expressions over a case's aggregate -----

  /** What the rule reads of a case: two or more logins an hour or so apart, the last one with a distance. */
  datatype Reading = Reading(count: int, first: int, last: int, km: int, ip: string)

  ghost predicate Reads(r: Reading, ctx: Context) {
    && ctx.env(["auths", "count"]) == Ok(Int(r.count))
    && ctx.env(["auths", "first_ts"]) == Ok(Int(r.first)) && ctx.env(["auths", "last_ts"]) == Ok(Int(r.last))
    && ctx.env(["auths", "last_distance_from_prev_km"]) == Ok(Int(r.km))
    && ctx.env(["auths", "last_src_endpoint_ip"]) == Ok(Str(r.ip)) && ctx.funcs == Builtins()
  }

  ghost predicate InScope(scope: Scope) {
    && scope.ident(["auths", "count"]) && scope.ident(["auths", "first_ts"]) && scope.ident(["auths", "last_ts"])
    && scope.ident(["auths", "last_distance_from_prev_km"]) && scope.ident(["auths", "last_src_endpoint_ip"])
    && scope.call == LiteralGroup
  }

  function Elapsed(): Node { Binary(Arith(Ring(Sub)), Auths("last_ts"), Auths("first_ts")) }

  function Hours(): Node { Binary(Arith(Div), Elapsed(), Literal(Int(3600000000000))) }

  lemma ElapsedAgrees(r: Reading, ctx: Context, scope: Scope)
    requires Reads(r, ctx) && InScope(scope) && IsInt64(r.last - r.first)
    ensures Eval(Elapsed(), ctx) == Ok(Int(r.last - r.first)) && Consistent(Elapsed(), ctx, scope)
  {
    WrapInRange(r.last - r.first);
  }

  lemma HoursAgree(r: Reading, ctx: Context, scope: Scope)
    requires Reads(r, ctx) && InScope(scope) && r.last - r.first == 3600000000000
    ensures Eval(Hours(), ctx) == Ok(Float(1.0)) && Consistent(Hours(), ctx, scope)
  {
    ElapsedAgrees(r, ctx, scope);
    Float64Exact(3600000000000);
  }

  lemma VelocityAgrees(r: Reading, ctx: Context, scope: Scope)
    requires Reads(r, ctx) && InScope(scope) && r.last - r.first == 3600000000000 && 0 <= r.km <= TWO53
    ensures Eval(Velocity(), ctx) == Ok(Float(r.km as real)) && Consistent(Velocity(), ctx, scope)
  {
    HoursAgree(r, ctx, scope);
    Float64Exact(r.km);
    Float64Exact(1);
    assert Velocity() == Binary(Arith(Div), Auths("last_distance_from_prev_km"), Hours());
    assert r.km as real / 1.0 == r.km as real;
  }

  lemma FastAgrees(r: Reading, ctx: Context, scope: Scope)
    requires Reads(r, ctx) && InScope(scope) && r.last - r.first == 3600000000000 && 0 <= r.km <= TWO53
    ensures var fast := Binary(Compare(Gt), Velocity(), Literal(Int(900)));
      Eval(fast, ctx) == Ok(Bool(r.km > 900)) && Consistent(fast, ctx, scope)
  {
    VelocityAgrees(r, ctx, scope);
    Float64Exact(r.km);
    Float64Exact(900);
    assert (r.km as real).Floor == r.km;
    assert Separated(Float(r.km as real), Int(900));
  }

  function AtLeastTwo(): Node { Binary(Compare(Ge), Auths("count"), Literal(Int(2))) }

  function HasDistance(): Node { Binary(Ne, Auths("last_distance_from_prev_km"), Literal(Null)) }

  lemma CountAgrees(r: Reading, ctx: Context, scope: Scope)
    requires Reads(r, ctx) && InScope(scope) && 2 <= r.count <= TWO53
    ensures Eval(AtLeastTwo(), ctx) == Ok(Bool(true)) && Sided(AtLeastTwo(), true, ctx, scope)
  {
    Float64Exact(r.count);
    Float64Exact(2);
    assert Separated(Int(r.count), Int(2));
  }

  lemma DistanceAgrees(r: Reading, ctx: Context, scope: Scope)
    requires Reads(r, ctx) && InScope(scope)
    ensures Eval(HasDistance(), ctx) == Ok(Bool(true)) && Sided(HasDistance(), true, ctx, scope)
  {}

  lemma GuardsAgree(r: Reading, ctx: Context, scope: Scope)
    requires Reads(r, ctx) && InScope(scope) && 2 <= r.count <= TWO53
    ensures var guards := Both2(AtLeastTwo(), HasDistance());
      Eval(guards, ctx) == Ok(Bool(true)) && Sided(guards, true, ctx, scope)
  {
    CountAgrees(r, ctx, scope);
    DistanceAgrees(r, ctx, scope);
  }

  lemma WhenAgrees(r: Reading, ctx: Context, scope: Scope)
    requires Reads(r, ctx) && InScope(scope) && r.last - r.first == 3600000000000 && 0 <= r.km <= TWO53 &&
      2 <= r.count <= TWO53
    ensures EvalBool(When(), ctx) == Ok(r.km > 900) && Sided(When(), true, ctx, scope)
  {
    GuardsAgree(r, ctx, scope);
    FastAgrees(r, ctx, scope);
    ConsistentIsSided(Binary(Compare(Gt), Velocity(), Literal(Int(900))), true, ctx, scope);
  }

  const EGRESS: seq<Value> := [Str("203.0.113.44")]

  function EgressGroup(): Node { Call("asset_group", [Literal(Str("corporate-egress"))]) }

  lemma EgressArgument(ctx: Context)
    ensures EvalAll([Literal(Str("corporate-egress"))], ctx) == Ok([Str("corporate-egress")])
  {
    var args := [Literal(Str("corporate-egress"))];
    assert args[1..] == [] && EvalAll([], ctx) == Ok([]);
    assert EvalAll(args, ctx) == Ok([Str("corporate-egress")] + []);
    assert EvalAll(args, ctx).value == [Str("corporate-egress")];
  }

  lemma EgressItems()
    ensures AssetGroup([Str("corporate-egress")]) == Ok(List(EGRESS))
  {
    assert Strings(Group("corporate-egress")) == EGRESS;
  }

  lemma EgressGroupIs(ctx: Context)
    requires ctx.funcs == Builtins()
    ensures Eval(EgressGroup(), ctx) == Ok(List(EGRESS))
  {
    EgressArgument(ctx);
    EgressItems();
  }

  lemma EgressInScope(ctx: Context, scope: Scope)
    requires scope.call == LiteralGroup
    ensures Consistent(EgressGroup(), ctx, scope)
  {
    TrimLeftQuoteFree("corporate-egress");
  }

  lemma EgressMember(ip: string)
    ensures Member(Str(ip), EGRESS) == Ok(ip == "203.0.113.44") && MemberSided(false, Str(ip), EGRESS)
  {
    assert EGRESS[1..] == [];
    assert Comparable(Str(ip), EGRESS[0]);
  }

  lemma EgressAgrees(r: Reading, ctx: Context, scope: Scope)
    requires Reads(r, ctx) && InScope(scope)
    ensures EvalBool(Egress(), ctx) == Ok(r.ip == "203.0.113.44") && Sided(Egress(), false, ctx, scope)
  {
    EgressGroupIs(ctx);
    EgressInScope(ctx, scope);
    EgressMember(r.ip);
    InAgrees(Auths("last_src_endpoint_ip"), EgressGroup(), Str(r.ip), EGRESS, false, ctx, scope);
  }

  lemma InAgrees(l: Node, g: Node, v: Value, items: seq<Value>, side: bool, ctx: Context, scope: Scope)
    requires Eval(l, ctx) == Ok(v) && Eval(g, ctx) == Ok(List(items)) && Consistent(l, ctx, scope) &&
      Consistent(g, ctx, scope)
    requires Member(v, items).Ok? && MemberSided(side, v, items)
    ensures EvalBool(Binary(In, l, g), ctx) == Member(v, items) && Sided(Binary(In, l, g), side, ctx, scope)
  {}

  // ----- the case of a trip -----

  /** A login, and another an hour later from elsewhere, with the distance between them. */
  function Trip(uid: string, ip0: string, ip1: string, km: int, time: int): seq<Login> {
    [Login(uid, ip0, None, time), Login(uid, ip1, Some(km), time + 3600000000000)]
  }

  predicate Plausible(uid: string, km: int, time: int) {
    UNIT_SEPARATOR !in uid && 0 <= km <= TWO53 && MIN_INT64 < time && time + 3600000000000 <= MAX_INT64
  }

  function TripInfo(uid: string): CaseInfo { CaseInfo(uid, map[UID := Str(uid)]) }

  lemma LoginCase(l: Login)
    ensures CaseOf(LoginEvent(l), [UID]) == Some(TripInfo(l.uid).values)
  {
    LoginReads(l);
    assert forall f :: f in [UID] <==> f == UID;
    assert CaseOf(LoginEvent(l), [UID]).value == TripInfo(l.uid).values;
  }

  lemma TravelFieldsUnion()
    ensures UnionFields(TravelRule().names, TravelRule().sources) == [UID]
  {
    var r := TravelRule();
    assert r.names[..0] == [] && AddNew([], [UID]) == AddNew([] + [UID], [UID][1..]) == [UID];
  }

  /** Both logins belong to one case. */
  lemma TripCases(uid: string, ip0: string, ip1: string, km: int, time: int)
    ensures Cases(Events(Trip(uid, ip0, ip1, km, time)), [UID]) == [TripInfo(uid)]
  {
    var ls := Trip(uid, ip0, ip1, km, time);
    var es := Events(ls);
    LoginCase(ls[0]);
    LoginCase(ls[1]);
    OneFieldKey(CaseGetter(TripInfo(uid).values), UID, Str(uid));
    var first := es[..1];
    assert first[..0] == [] && first[0] == es[0] && Cases([], [UID]) == [];
    assert Cases(first, [UID]) == [] + [TripInfo(uid)] == [TripInfo(uid)];
    assert [TripInfo(uid)][0].key == uid && HasKey([TripInfo(uid)], uid);
    assert Cases(es, [UID]) == Cases(first, [UID]);
  }

  lemma TripCase(uid: string, ip0: string, ip1: string, km: int, time: int, c: Corpus)
    requires c.events == Events(Trip(uid, ip0, ip1, km, time))
    ensures WellFormed(TravelRule()) && RuleCases(TravelRule(), c) == [TripInfo(uid)]
  {
    TravelAnchor();
    TravelFieldsUnion();
    TripCases(uid, ip0, ip1, km, time);
  }

  lemma OneFieldKey(get: Path -> Option<Value>, f: Path, v: Value)
    requires get(f) == Some(v)
    ensures GroupKey(get, [f]) == Some(RenderScalar(v))
  {
    assert [f][1..] == [] && Rendered(get, []) == Some([]);
    assert Rendered(get, [f]) == Some([RenderScalar(v)] + []);
  }

  lemma TravelAnchor()
    ensures WellFormed(TravelRule()) && AnchorOf(TravelRule()) == Ok("auths")
  {
    var r := TravelRule();
    assert r.names[1..] == [];
    assert WidestFrom("auths", r.names, r.sources) == "auths";
  }

  lemma {:induction false} FilterAll<T>(xs: seq<T>, p: T -> bool)
    requires forall x :: x in xs ==> p(x)
    ensures Filter(xs, p) == xs
  {
    if xs != [] {
      assert xs == xs[..|xs| - 1] + [xs[|xs| - 1]];
      FilterAll(xs[..|xs| - 1], p);
    }
  }

  lemma TripMatches(uid: string, ip0: string, ip1: string, km: int, time: int, c: Corpus)
    requires Plausible(uid, km, time) && c.events == Events(Trip(uid, ip0, ip1, km, time)) && c.funcs == Builtins()
    ensures CaseMatches(c, Logins(), uid) == c.events
  {
    forall e | e in c.events ensures Picker(Logins(), uid, c.funcs)(e) {
      var l := LoginOf(Trip(uid, ip0, ip1, km, time), e);
      LoginMatches(l, c.funcs);
      LoginReads(l);
      OneFieldKey(EventGetter(e), UID, Str(uid));
    }
    FilterAll(c.events, Picker(Logins(), uid, c.funcs));
  }

  lemma TripTimes(uid: string, ip0: string, ip1: string, km: int, time: int)
    requires Plausible(uid, km, time)
    ensures var ms := Events(Trip(uid, ip0, ip1, km, time));
      MinTime(ms) == time && MaxTime(ms) == time + 3600000000000 && LatestIndex(ms) == 1 &&
      Time(ms[0]) == time && Time(ms[1]) == time + 3600000000000
  {
    var ls := Trip(uid, ip0, ip1, km, time);
    var ms := Events(ls);
    LoginReads(ls[0]);
    LoginReads(ls[1]);
    assert ms[..1] == [ms[0]] && ms[..1][..0] == [];
    TimeBounds(ms);
  }

  /** A field the single newest match carries is read from there on both sides. */
  lemma FromNewest(ms: seq<Event>, fields: seq<Path>, f: Path, v: Value)
    requires ms != [] && AliasesDistinct(fields) && f in fields
    requires forall e :: e in ms ==> IsInt64(Time(e)) && Time(e) > MIN_INT64
    requires var k := LatestIndex(ms);
      Readable(ms[k], f) && Resolve(ms[k], f) == Some(v) &&
        forall i :: 0 <= i < |ms| && i != k ==> Time(ms[i]) != MaxTime(ms)
    ensures LastSound(ms, fields, FlatName(f))
    ensures FlatName(f) in LatestOf(ms, fields).last && LatestOf(ms, fields).last[FlatName(f)] == v
  {
    LatestMeaning(ms, fields);
    LatestCaptured(ms, f);
    LastAgreesExactly(ms, fields, f);
    assert CapturedAs(LatestOf(ms, fields).last, ms, f);
  }

  lemma TravelFields()
    ensures AliasesDistinct([DISTANCE, IP])
  {
    Columns();
    assert |FlatName(IP)| != |FlatName(DISTANCE)|;
  }

  /** Both tracked fields are read from the second login on both sides. */
  lemma TripTracks(uid: string, ip0: string, ip1: string, km: int, time: int, f: Path)
    requires Plausible(uid, km, time) && (f == DISTANCE || f == IP)
    ensures var ms := Events(Trip(uid, ip0, ip1, km, time));
      && LastSound(ms, [DISTANCE, IP], FlatName(f))
      && FlatName(f) in LatestOf(ms, [DISTANCE, IP]).last
      && LatestOf(ms, [DISTANCE, IP]).last[FlatName(f)] == if f == IP then Str(ip1) else Int(km)
  {
    var ls := Trip(uid, ip0, ip1, km, time);
    var ms := Events(ls);
    TripTimes(uid, ip0, ip1, km, time);
    LoginReads(ls[1]);
    LoginUnaliased(ls[1], f);
    TravelFields();
    assert ms == [ms[0], ms[1]];
    FromNewest(ms, [DISTANCE, IP], f, if f == IP then Str(ip1) else Int(km));
  }

  function TripReading(ip1: string, km: int, time: int): Reading { Reading(2, time, time + 3600000000000, km, ip1) }

  lemma LoginsTotal(ls: seq<Login>, funcs: Funcs)
    ensures WhereTotal(Events(ls), Logins(), funcs)
  {
    forall i | 0 <= i < |ls|
      ensures EvalBool(Where(), EventContext(Events(ls)[i], funcs)).Ok?
    {
      LoginMatches(ls[i], funcs);
    }
  }

  lemma TripLatest(uid: string, ip0: string, ip1: string, km: int, time: int)
    requires Plausible(uid, km, time)
    ensures LatestOf(Events(Trip(uid, ip0, ip1, km, time)), [DISTANCE, IP]).ts == time + 3600000000000
  {
    var ms := Events(Trip(uid, ip0, ip1, km, time));
    TripTimes(uid, ip0, ip1, km, time);
    TravelFields();
    assert ms == [ms[0], ms[1]];
    LatestMeaning(ms, [DISTANCE, IP]);
  }

  lemma TripAggregate(uid: string, ip0: string, ip1: string, km: int, time: int, c: Corpus, values: CaseValues)
      returns (agg: Aggregate)
    requires Plausible(uid, km, time) && c.events == Events(Trip(uid, ip0, ip1, km, time)) && c.funcs == Builtins()
    requires UID in values && values[UID] == Str(uid)
    ensures AggregateFor(c.events, Logins(), values, c.funcs) == Ok(agg)
    ensures agg.count == 2 && agg.firstTS == time && agg.lastTS == time + 3600000000000
    ensures agg.last == LatestOf(c.events, [DISTANCE, IP]).last
  {
    OneFieldKey(CaseGetter(values), UID, Str(uid));
    TripMatches(uid, ip0, ip1, km, time, c);
    TripTimes(uid, ip0, ip1, km, time);
    LoginsTotal(Trip(uid, ip0, ip1, km, time), c.funcs);
    TripLatest(uid, ip0, ip1, km, time);
    agg := AggregateOf(c.events, Logins(), GroupValuesOf(values, [UID]));
  }

  /** The aggregate fields the rule reads. */
  predicate Holds2(agg: Aggregate, r: Reading) {
    && agg.count == r.count && agg.firstTS == r.first && agg.lastTS == r.last
    && "distance_from_prev_km" in agg.last && agg.last["distance_from_prev_km"] == Int(r.km)
    && "src_endpoint_ip" in agg.last && agg.last["src_endpoint_ip"] == Str(r.ip)
  }

  lemma EnvReads(agg: Aggregate, field: string)
    ensures AggregateContext(map["auths" := agg], Builtins()).env(["auths", field]) == AggregateField(agg, field)
  {
    var aggs := map["auths" := agg];
    assert aggs["auths"] == agg;
  }

  lemma BasicFields(agg: Aggregate)
    ensures AggregateField(agg, "count") == Ok(Int(agg.count))
    ensures AggregateField(agg, "first_ts") == Ok(Int(agg.firstTS)) &&
      AggregateField(agg, "last_ts") == Ok(Int(agg.lastTS))
  {}

  lemma TrackedFields(agg: Aggregate)
    requires "distance_from_prev_km" in agg.last && "src_endpoint_ip" in agg.last
    ensures AggregateField(agg, "last_distance_from_prev_km") == Ok(agg.last["distance_from_prev_km"])
    ensures AggregateField(agg, "last_src_endpoint_ip") == Ok(agg.last["src_endpoint_ip"])
  {
    LastField(agg, "distance_from_prev_km");
    LastField(agg, "src_endpoint_ip");
    TrackedNames();
  }

  lemma AggregateReads(agg: Aggregate, r: Reading)
    requires Holds2(agg, r)
    ensures Reads(r, AggregateContext(map["auths" := agg], Builtins()))
  {
    BasicFields(agg);
    TrackedFields(agg);
    EnvReads(agg, "count");
    EnvReads(agg, "first_ts");
    EnvReads(agg, "last_ts");
    EnvReads(agg, "last_distance_from_prev_km");
    EnvReads(agg, "last_src_endpoint_ip");
  }

  lemma TripHolds(uid: string, ip0: string, ip1: string, km: int, time: int, agg: Aggregate)
    requires Plausible(uid, km, time) && agg.count == 2 && agg.firstTS == time && agg.lastTS == time + 3600000000000
    requires agg.last == LatestOf(Events(Trip(uid, ip0, ip1, km, time)), [DISTANCE, IP]).last
    ensures Holds2(agg, TripReading(ip1, km, time))
  {
    Columns();
    TripTracks(uid, ip0, ip1, km, time, DISTANCE);
    TripTracks(uid, ip0, ip1, km, time, IP);
  }

  lemma LastField(agg: Aggregate, x: string)
    requires x in agg.last && x != "ts"
    ensures AggregateField(agg, "last_" + x) == Ok(agg.last[x])
    ensures !HasPrefix("last_" + x, "distinct_") && HasPrefix("last_" + x, "last_") && ("last_" + x)[|"last_"|..] == x
  {
    OutputNamesApart(x);
    assert ("last_" + x)[5..] == x;
    assert "last_" + x != "exists" && "last_" + x != "count";
  }

  ghost predicate TripFields(ms: seq<Event>) {
    LastSound(ms, [DISTANCE, IP], "distance_from_prev_km") && LastSound(ms, [DISTANCE, IP], "src_endpoint_ip")
  }

  lemma LastDefined(agg: Aggregate, ms: seq<Event>, x: string)
    requires LastSound(ms, [DISTANCE, IP], x) && x != "ts"
    ensures FieldDefined(agg, Logins(), ms, "last_" + x)
  {
    OutputNamesApart(x);
    assert ("last_" + x)[5..] == x;
  }

  lemma BasicDefined(agg: Aggregate, ms: seq<Event>)
    requires agg.count > 0
    ensures FieldDefined(agg, Logins(), ms, "count") && FieldDefined(agg, Logins(), ms, "first_ts") &&
      FieldDefined(agg, Logins(), ms, "last_ts")
  {}

  lemma TrackedNames()
    ensures "last_" + "distance_from_prev_km" == "last_distance_from_prev_km"
    ensures "last_" + "src_endpoint_ip" == "last_src_endpoint_ip"
  {}

  lemma PathIn(c: Corpus, values: CaseValues, agg: Aggregate, field: string)
    requires FieldDefined(agg, Logins(), SourceMatches(c, Logins(), values), field)
    ensures AggregateScope(c, TravelRule().sources, values, map["auths" := agg]).ident(["auths", field])
  {
    assert TravelRule().sources["auths"] == Logins();
  }

  lemma ScopeHas(c: Corpus, values: CaseValues, agg: Aggregate)
    requires TripFields(SourceMatches(c, Logins(), values)) && agg.count > 0 && c.calls == LiteralGroup
    ensures InScope(AggregateScope(c, TravelRule().sources, values, map["auths" := agg]))
  {
    var ms := SourceMatches(c, Logins(), values);
    BasicDefined(agg, ms);
    TrackedNames();
    LastDefined(agg, ms, "distance_from_prev_km");
    LastDefined(agg, ms, "src_endpoint_ip");
    PathIn(c, values, agg, "count");
    PathIn(c, values, agg, "first_ts");
    PathIn(c, values, agg, "last_ts");
    PathIn(c, values, agg, "last_distance_from_prev_km");
    PathIn(c, values, agg, "last_src_endpoint_ip");
  }

  lemma TripScope(uid: string, ip0: string, ip1: string, km: int, time: int, c: Corpus, values: CaseValues)
    requires Plausible(uid, km, time) && c.events == Events(Trip(uid, ip0, ip1, km, time)) && c.funcs == Builtins()
    requires UID in values && values[UID] == Str(uid)
    ensures SourceMatches(c, Logins(), values) == c.events && TripFields(SourceMatches(c, Logins(), values))
  {
    Columns();
    OneFieldKey(CaseGetter(values), UID, Str(uid));
    TripMatches(uid, ip0, ip1, km, time, c);
    TripTracks(uid, ip0, ip1, km, time, DISTANCE);
    TripTracks(uid, ip0, ip1, km, time, IP);
  }

  // ----- the conditions of the theorem -----

  lemma TripConsistent(uid: string, ip0: string, ip1: string, km: int, time: int, c: Corpus, values: CaseValues,
      agg: Aggregate)
    requires Plausible(uid, km, time) && c.events == Events(Trip(uid, ip0, ip1, km, time)) && c.funcs == Builtins() &&
      c.calls == LiteralGroup
    requires UID in values && values[UID] == Str(uid) && Holds2(agg, TripReading(ip1, km, time))
    ensures CaseConsistent(TravelRule(), c, "auths", values, map["auths" := agg])
  {
    var ctx, scope :=
      AggregateContext(map["auths" := agg], c.funcs),
      AggregateScope(c, TravelRule().sources, values, map["auths" := agg]);
    TripScope(uid, ip0, ip1, km, time, c, values);
    ScopeHas(c, values, agg);
    AggregateReads(agg, TripReading(ip1, km, time));
    RuleAgrees(TripReading(ip1, km, time), ctx, scope);
  }

  lemma RuleAgrees(r: Reading, ctx: Context, scope: Scope)
    requires Reads(r, ctx) && InScope(scope) && r.last - r.first == 3600000000000 && 0 <= r.km <= TWO53 &&
      2 <= r.count <= TWO53
    ensures SuppressSided(TravelRule().suppress, ctx, scope) && EmitConsistent(TravelEmit(), ctx, scope)
    ensures forall e :: e in TravelRule().emits ==> e == TravelEmit()
  {
    EgressAgrees(r, ctx, scope);
    WhenAgrees(r, ctx, scope);
    VelocityAgrees(r, ctx, scope);
    assert TravelRule().suppress[1..] == [];
  }

  lemma TravelAggregates(c: Corpus, values: CaseValues, agg: Aggregate)
    requires AggregateFor(c.events, Logins(), values, c.funcs) == Ok(agg)
    ensures WellFormed(TravelRule()) && CaseAggregates(TravelRule(), c, values) == Ok(map["auths" := agg])
  {
    TravelAnchor();
    assert TravelRule().names[1..] == [];
    assert TravelRule().sources["auths"] == Logins();
  }

  /** The shipped rule meets the theorem's conditions on every trip, the shipped fixtures among them. */
  lemma TravelOk(uid: string, ip0: string, ip1: string, km: int, time: int, table: seq<Record>, eng: Engine)
    requires Plausible(uid, km, time) && TableOf(Events(Trip(uid, ip0, ip1, km, time)), table)
    ensures RuleOk(TravelRule(), LoginCorpus(Trip(uid, ip0, ip1, km, time), table, eng), "auths")
  {
    var ls := Trip(uid, ip0, ip1, km, time);
    var c := LoginCorpus(ls, table, eng);
    TravelAnchor();
    TripCase(uid, ip0, ip1, km, time, c);
    LoginCorpusOk(ls, table, eng);
    LoginsOk(ls, table, eng);
    UidIsText(ls, table, eng);
    TripCaseOk(uid, ip0, ip1, km, time, c);
    OneCaseOk(c, TripInfo(uid));
  }

  lemma OneCaseOk(c: Corpus, ci: CaseInfo)
    requires WellFormed(TravelRule()) && AnchorOf(TravelRule()) == Ok("auths") && RuleCases(TravelRule(), c) == [ci]
    requires CorpusOk(c) && SourceOk(c, Logins()) && EntityOk(TravelRule(), c, Logins())
    requires CaseAggregates(TravelRule(), c, ci.values).Ok?
    requires CaseConsistent(TravelRule(), c, "auths", ci.values, CaseAggregates(TravelRule(), c, ci.values).value)
    ensures RuleOk(TravelRule(), c, "auths")
  {}

  lemma TripCaseOk(uid: string, ip0: string, ip1: string, km: int, time: int, c: Corpus)
    requires Plausible(uid, km, time) && c.events == Events(Trip(uid, ip0, ip1, km, time)) && c.funcs == Builtins() &&
      c.calls == LiteralGroup
    ensures WellFormed(TravelRule()) && CaseAggregates(TravelRule(), c, TripInfo(uid).values).Ok?
    ensures CaseConsistent(TravelRule(), c, "auths", TripInfo(uid).values,
      CaseAggregates(TravelRule(), c, TripInfo(uid).values).value)
  {
    var agg := TripAggregate(uid, ip0, ip1, km, time, c, TripInfo(uid).values);
    TripHolds(uid, ip0, ip1, km, time, agg);
    TravelAggregates(c, TripInfo(uid).values, agg);
    TripConsistent(uid, ip0, ip1, km, time, c, TripInfo(uid).values, agg);
  }

  lemma UidIsText(ls: seq<Login>, table: seq<Record>, eng: Engine)
    ensures EntityOk(TravelRule(), LoginCorpus(ls, table, eng), Logins())
  {
    forall e | e in Events(ls) ensures Resolve(e, UID).Some? && Resolve(e, UID).value.Str? {
      var l := LoginOf(ls, e);
      LoginReads(l);
    }
  }

  lemma TripMeets(uid: string, ip0: string, ip1: string, km: int, time: int, table: seq<Record>, eng: Engine)
    requires Plausible(uid, km, time)
    ensures var c := LoginCorpus(Trip(uid, ip0, ip1, km, time), table, eng);
      WellFormed(TravelRule()) && AnchorComplete(c, Logins()) && QuietUnanchored(TravelRule(), c, Logins())
  {
    var ls := Trip(uid, ip0, ip1, km, time);
    var c := LoginCorpus(ls, table, eng);
    TripCase(uid, ip0, ip1, km, time, c);
    TripIsLive(uid, ip0, ip1, km, time, c);
    LoginsComplete(ls, table, eng);
  }

  lemma LoginsComplete(ls: seq<Login>, table: seq<Record>, eng: Engine)
    ensures AnchorComplete(LoginCorpus(ls, table, eng), Logins())
  {
    forall e | e in Events(ls) ensures CaseOf(e, [UID]).Some? {
      var l := LoginOf(ls, e);
      LoginCase(l);
    }
  }

  lemma TripIsLive(uid: string, ip0: string, ip1: string, km: int, time: int, c: Corpus)
    requires Plausible(uid, km, time) && c.events == Events(Trip(uid, ip0, ip1, km, time)) && c.funcs == Builtins()
    ensures IsLive(c, Logins())(TripInfo(uid))
  {
    TripMatches(uid, ip0, ip1, km, time, c);
    OneFieldKey(CaseGetter(TripInfo(uid).values), UID, Str(uid));
  }

  /** So the equivalence gate may be run on them, and on every such trip finds the two paths in agreement. */
  lemma GateApplies(uid: string, ip0: string, ip1: string, km: int, time: int, eng: Engine)
    requires Plausible(uid, km, time)
    ensures TrackedAliasesDistinct(TravelRule())
    ensures RuleOkOn(TravelRule(), Events(Trip(uid, ip0, ip1, km, time)), Builtins(), BuiltinsSQL(), LiteralGroup, eng,
      "auths")
  {
    TravelAnchor();
    forall table | TableOf(Events(Trip(uid, ip0, ip1, km, time)), table)
      ensures RuleOk(TravelRule(), LoginCorpus(Trip(uid, ip0, ip1, km, time), table, eng), "auths")
      ensures AnchorComplete(LoginCorpus(Trip(uid, ip0, ip1, km, time), table, eng), Logins())
      ensures QuietUnanchored(TravelRule(), LoginCorpus(Trip(uid, ip0, ip1, km, time), table, eng), Logins())
    {
      TravelOk(uid, ip0, ip1, km, time, table, eng);
      TripMeets(uid, ip0, ip1, km, time, table, eng);
    }
  }

  // ----- what the rule says of a trip -----

  function TripClaims(uid: string, ip1: string, km: int): seq<Claim> {
    if ip1 != "203.0.113.44" &&
      km > 900 then [Claim("TRAVEL_IMPOSSIBLE", uid, Float(km as real), "cdl.impossible-travel", 1)] else []
  }

  lemma ReadingClaims(r: Reading, uid: string, ctx: Context)
    requires Reads(r, ctx) && r.last - r.first == 3600000000000 && 0 <= r.km <= TWO53 && 2 <= r.count <= TWO53
    ensures Suppressed(TravelRule().suppress, ctx) == Ok(r.ip == "203.0.113.44")
    ensures FireAll(TravelRule(), TravelRule().emits, uid, ctx) ==
      Ok(if r.km > 900 then [Claim("TRAVEL_IMPOSSIBLE", uid, Float(r.km as real), "cdl.impossible-travel", 1)] else [])
  {
    var scope := Scope(p => true, LiteralGroup);
    EgressAgrees(r, ctx, scope);
    WhenAgrees(r, ctx, scope);
    VelocityAgrees(r, ctx, scope);
    assert TravelRule().suppress[1..] == [] && TravelRule().emits[1..] == [];
    var fired := Fire(TravelRule(), TravelEmit(), uid, ctx);
    assert fired.value + [] == fired.value;
  }

  lemma TripCaseClaims(uid: string, ip0: string, ip1: string, km: int, time: int)
    requires Plausible(uid, km, time)
    ensures WellFormed(TravelRule())
    ensures CaseClaims(TravelRule(), Events(Trip(uid, ip0, ip1, km, time)), TripInfo(uid).values, Builtins()) ==
      Ok(TripClaims(uid, ip1, km))
  {
    var c := LoginCorpus(Trip(uid, ip0, ip1, km, time), [], Engine(_ => 0.0, (_, _) => false, _ => 0));
    var agg := TripAggregate(uid, ip0, ip1, km, time, c, TripInfo(uid).values);
    TripHolds(uid, ip0, ip1, km, time, agg);
    TravelAggregates(c, TripInfo(uid).values, agg);
    TravelCaseClaims(c.events, TripInfo(uid).values, agg, TripReading(ip1, km, time), uid);
  }

  lemma TravelCaseClaims(events: seq<Event>, values: CaseValues, agg: Aggregate, r: Reading, uid: string)
    requires WellFormed(TravelRule()) && EntityOf(TravelRule(), values) == uid && Holds2(agg, r)
    requires r.last - r.first == 3600000000000 && 0 <= r.km <= TWO53 && 2 <= r.count <= TWO53
    requires Aggregates(map[], events, TravelRule().names, TravelRule().sources, values, Builtins()) ==
      Ok(map["auths" := agg])
    ensures CaseClaims(TravelRule(), events, values, Builtins()) == Ok(TripClaims(uid, r.ip, r.km))
  {
    AggregateReads(agg, r);
    ReadingClaims(r, uid, AggregateContext(map["auths" := agg], Builtins()));
  }

  lemma OneCaseStreams(rule: Rule, events: seq<Event>, ci: CaseInfo, funcs: Funcs, claims: seq<Claim>)
    requires WellFormed(rule) && CaseClaims(rule, events, ci.values, funcs) == Ok(claims)
    ensures StreamCases(rule, events, [ci], funcs) == Ok(claims)
  {
    assert [ci][1..] == [] && claims + [] == claims;
  }

  /** The claims on a trip: travel above 900 km in the hour, unless it ends in the corporate egress range. */
  lemma TripOutcome(uid: string, ip0: string, ip1: string, km: int, time: int)
    requires Plausible(uid, km, time)
    ensures WellFormed(TravelRule())
    ensures Streaming(TravelRule(), Events(Trip(uid, ip0, ip1, km, time)), Builtins()) == Ok(TripClaims(uid, ip1, km))
  {
    TravelAnchor();
    TravelFieldsUnion();
    TripCases(uid, ip0, ip1, km, time);
    TripCaseClaims(uid, ip0, ip1, km, time);
    OneCaseStreams(TravelRule(), Events(Trip(uid, ip0, ip1, km, time)), TripInfo(uid), Builtins(),
      TripClaims(uid, ip1, km));
  }

  /** The two shipped fixtures, and what the rule's own tests expect of them. */
  lemma ShippedFixtures()
    ensures WellFormed(TravelRule())
    ensures Plausible("jdoe", 2000, 1700000000000000000) && Plausible("asmith", 200, 1700000000000000000)
    ensures var positive := Trip("jdoe", "203.0.113.44", "198.51.100.20", 2000, 1700000000000000000);
      Streaming(TravelRule(), Events(positive), Builtins()) ==
        Ok([Claim("TRAVEL_IMPOSSIBLE", "jdoe", Float(2000.0), "cdl.impossible-travel", 1)])
    ensures var negative := Trip("asmith", "198.51.100.20", "198.51.100.21", 200, 1700000000000000000);
      Streaming(TravelRule(), Events(negative), Builtins()) == Ok([])
  {
    TripOutcome("jdoe", "203.0.113.44", "198.51.100.20", 2000, 1700000000000000000);
    TripOutcome("asmith", "198.51.100.20", "198.51.100.21", 200, 1700000000000000000);
  }

  /** The rule's null guard also keeps it silent about logins without a user, whatever the other events. */
  lemma TravelGuarded()
    ensures EmitsGuarded(TravelRule().emits, "auths")
  {
    TrackedNames();
    var x := "distance_from_prev_km";
    assert Guarded(HasDistance(), "auths", x);
    assert Guarded(Both2(AtLeastTwo(), HasDistance()), "auths", x);
    assert Guarded(When(), "auths", x) && |x| != |"ts"|;
    var emits := TravelRule().emits;
    forall i | 0 <= i < |emits| && LastOfName(emits, i)
      ensures exists y :: y != "ts" && Guarded(emits[i].when, "auths", y)
    {
      assert x != "ts" && Guarded(emits[i].when, "auths", x);
    }
  }
}
