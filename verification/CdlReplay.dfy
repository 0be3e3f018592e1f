/** A second shipped rule (rules/token-replayed.cdl.yaml), on any list of logins: what it claims, and on both paths. */
module CdlReplay {
  import opened Common
  import opened Seqs
  import opened CdlExpr
  import opened CdlEvents
  import opened CdlAggregate
  import opened CdlStreaming
  import opened CdlMeaning
  import opened CdlSql
  import opened CdlCompile
  import opened CdlQuery
  import opened CdlGroups
  import opened CdlTravel

  // ----- the rule -----

  const SESSION: Path := ["session_id"]

  function Sessions(): Source { Source(Where(), [SESSION], [IP], []) }

  function Addresses(): Node { Ident(["sessions", "distinct_src_endpoint_ip"]) }

  function Replayed(): Node { Binary(Compare(Ge), Addresses(), Literal(Int(2))) }

  function ReplayEmit(): Emit { Emit("TOKEN_REPLAYED", Replayed(), Some(Addresses())) }

  function ReplayRule(): Rule {
    Rule("cdl.credential.token-replayed", 1, SESSION, ["sessions"], map["sessions" := Sessions()], [ReplayEmit()], [])
  }

  // ----- the events -----

  /** An authentication of some kind and outcome under a session. */
  datatype Use = Use(activity: int, status: int, session: string, ip: string, time: int)

  function UseFields(u: Use): map<string, Value> {
    map["activity_id" := Int(u.activity), "status_id" := Int(u.status), "session_id" := Str(u.session),
        "src_endpoint" := Map(map["ip" := Str(u.ip)]), "time" := Int(u.time)]
  }

  function UseEvent(u: Use): Event { Map(UseFields(u)) }

  function Uses(us: seq<Use>): (es: seq<Event>)
    ensures |es| == |us| && forall i :: 0 <= i < |us| ==> es[i] == UseEvent(us[i])
  {
    seq(|us|, i requires 0 <= i < |us| => UseEvent(us[i]))
  }

  lemma UseReads(u: Use)
    ensures Resolve(UseEvent(u), ["activity_id"]) == Some(Int(u.activity))
    ensures Resolve(UseEvent(u), ["status_id"]) == Some(Int(u.status))
    ensures Resolve(UseEvent(u), SESSION) == Some(Str(u.session)) && Resolve(UseEvent(u), IP) == Some(Str(u.ip))
    ensures Resolve(UseEvent(u), ["time"]) == Some(Int(u.time)) && Time(UseEvent(u)) == u.time
  {
    var f := UseFields(u);
    assert ["activity_id"][1..] == [] && ["status_id"][1..] == [] && SESSION[1..] == [] && ["time"][1..] == [];
    assert IP[1..] == ["ip"] && ["ip"][1..] == [];
    assert f["activity_id"] == Int(u.activity) && f["status_id"] == Int(u.status) && f["time"] == Int(u.time);
    assert f["session_id"] == Str(u.session) && f["src_endpoint"] == Map(map["ip" := Str(u.ip)]);
    assert Resolve(Str(u.ip), []) == Some(Str(u.ip)) && Resolve(f["src_endpoint"], ["ip"]) == Some(Str(u.ip));
  }

  lemma UseOf(us: seq<Use>, e: Event) returns (u: Use)
    requires e in Uses(us)
    ensures u in us && e == UseEvent(u)
  {
    var i :| 0 <= i < |us| && Uses(us)[i] == e;
    u := us[i];
  }

  // ----- which events count -----

  /** A successful login. */
  predicate Success(u: Use) { u.activity == 1 && u.status == 1 }

  lemma EqualsOne(field: string, n: int, ctx: Context)
    requires ctx.env([field]) == Ok(Int(n))
    ensures Eval(Equals(field, 1), ctx) == Ok(Bool(n == 1))
  {
    SomeIntOrOne(n);
  }

  lemma WhereIsSuccess(u: Use, funcs: Funcs)
    ensures EvalBool(Where(), EventContext(UseEvent(u), funcs)) == Ok(Success(u))
  {
    var ctx := EventContext(UseEvent(u), funcs);
    UseReads(u);
    EqualsOne("activity_id", u.activity, ctx);
    EqualsOne("status_id", u.status, ctx);
  }

  function SessionCase(s: string): CaseValues { map[SESSION := Str(s)] }

  lemma SessionKey(s: string)
    ensures KeyOf(SessionCase(s), [SESSION]) == s
  {
    OneFieldKey(CaseGetter(SessionCase(s)), SESSION, Str(s));
  }

  lemma UseCounts(u: Use, s: string, funcs: Funcs)
    ensures Picker(Sessions(), KeyOf(SessionCase(s), [SESSION]), funcs)(UseEvent(u)) <==>
      Success(u) && u.session == s
  {
    WhereIsSuccess(u, funcs);
    UseReads(u);
    SessionKey(s);
    OneFieldKey(EventGetter(UseEvent(u)), SESSION, Str(u.session));
  }

  /** The addresses a session was successfully used from. */
  function AddressesOf(us: seq<Use>, s: string): set<string> { set u | u in us && Success(u) && u.session == s :: u.ip }

  lemma AddressCounts(u: Use, s: string, funcs: Funcs)
    ensures Resolve(UseEvent(u), IP).Some? && RenderScalar(Resolve(UseEvent(u), IP).value) == u.ip
    ensures Picker(Sessions(), KeyOf(SessionCase(s), [SESSION]), funcs)(UseEvent(u)) <==>
      Success(u) && u.session == s
  {
    UseReads(u);
    UseCounts(u, s, funcs);
  }

  lemma CountedAddress(us: seq<Use>, s: string, funcs: Funcs, e: Event) returns (u: Use)
    requires e in Uses(us) && Picker(Sessions(), KeyOf(SessionCase(s), [SESSION]), funcs)(e)
    ensures u in us && e == UseEvent(u) && u.ip in AddressesOf(us, s)
    ensures Resolve(e, IP).Some? && RenderScalar(Resolve(e, IP).value) == u.ip
  {
    u := UseOf(us, e);
    AddressCounts(u, s, funcs);
  }

  lemma CountedAddresses(us: seq<Use>, s: string, funcs: Funcs)
    ensures RenderedValues(Counted(Uses(us), Sessions(), SessionCase(s), funcs), IP) == AddressesOf(us, s)
  {
    var p := Picker(Sessions(), KeyOf(SessionCase(s), [SESSION]), funcs);
    var ms := Filter(Uses(us), p);
    FilterElems(Uses(us), p);
    forall v | v in RenderedValues(ms, IP) ensures v in AddressesOf(us, s) {
      var e :| e in ms && Resolve(e, IP).Some? && RenderScalar(Resolve(e, IP).value) == v;
      var u := CountedAddress(us, s, funcs, e);
    }
    forall u | u in us && Success(u) && u.session == s ensures u.ip in RenderedValues(ms, IP) {
      var i :| 0 <= i < |us| && us[i] == u;
      AddressCounts(u, s, funcs);
      assert Uses(us)[i] in ms;
    }
  }

  lemma ReplayAnchor()
    ensures WellFormed(ReplayRule()) && AnchorOf(ReplayRule()) == Ok("sessions")
  {
    var r := ReplayRule();
    assert r.names[1..] == [];
    assert WidestFrom("sessions", r.names, r.sources) == "sessions";
  }

  lemma ReplayFields()
    ensures WellFormed(ReplayRule())
    ensures UnionFields(ReplayRule().names, ReplayRule().sources) == [SESSION]
  {
    var r := ReplayRule();
    assert r.names[..0] == [];
    assert AddNew([], [SESSION]) == AddNew([] + [SESSION], [SESSION][1..]) == [SESSION];
  }

  lemma ReplayShape()
    ensures WellFormed(ReplayRule()) && AnchorOf(ReplayRule()) == Ok("sessions")
    ensures UnionFields(ReplayRule().names, ReplayRule().sources) == [SESSION]
    ensures FlatName(IP) == "src_endpoint_ip" && TrackedAliasesDistinct(ReplayRule())
  {
    var r := ReplayRule();
    Columns();
    ReplayAnchor();
    ReplayFields();
    forall n | n in r.sources ensures AliasesDistinct(r.sources[n].trackDistinct) { assert n == "sessions"; }
  }

  lemma SessionTotal(us: seq<Use>, s: string, funcs: Funcs)
    ensures AggregateFor(Uses(us), Sessions(), SessionCase(s), funcs).Ok?
  {
    forall e | e in Uses(us) ensures EvalBool(Where(), EventContext(e, funcs)).Ok? {
      var u := UseOf(us, e);
      WhereIsSuccess(u, funcs);
    }
    AggregatesExactly(Uses(us), Sessions(), SessionCase(s), funcs);
  }

  lemma SessionAggregate(us: seq<Use>, s: string, funcs: Funcs) returns (agg: Aggregate)
    ensures AggregateFor(Uses(us), Sessions(), SessionCase(s), funcs) == Ok(agg)
    ensures AggregateField(agg, "distinct_src_endpoint_ip") == Ok(Int(|AddressesOf(us, s)|))
  {
    SessionTotal(us, s, funcs);
    agg := AggregateFor(Uses(us), Sessions(), SessionCase(s), funcs).value;
    AddressField(Uses(us), s, funcs, agg);
    CountedAddresses(us, s, funcs);
  }

  lemma AddressField(events: seq<Event>, s: string, funcs: Funcs, agg: Aggregate)
    requires AggregateFor(events, Sessions(), SessionCase(s), funcs) == Ok(agg)
    ensures AggregateField(agg, "distinct_src_endpoint_ip") ==
      Ok(Int(|RenderedValues(Counted(events, Sessions(), SessionCase(s), funcs), IP)|))
  {
    AddressName();
    DistinctMeans(events, Sessions(), SessionCase(s), funcs, agg, IP);
  }

  lemma AddressName()
    ensures "distinct_" + FlatName(IP) == "distinct_src_endpoint_ip"
  {
    Columns();
    assert "distinct_" + "src_endpoint_ip" == "distinct_src_endpoint_ip";
  }

  // ----- what the rule claims -----

  function ReplayClaim(s: string, k: int): Claim {
    Claim("TOKEN_REPLAYED", s, Int(k), "cdl.credential.token-replayed", 1)
  }

  lemma AtLeastTwoAddresses(k: nat, ctx: Context)
    requires ctx.env(["sessions", "distinct_src_endpoint_ip"]) == Ok(Int(k))
    ensures EvalBool(Replayed(), ctx) == Ok(k >= 2) && Eval(Addresses(), ctx) == Ok(Int(k))
  {
    Float64Exact(1);
    Float64Exact(2);
    if k >= 2 { Float64Monotone(2, k); } else { Float64Monotone(k, 1); }
  }

  lemma ReplayFires(s: string, k: nat, ctx: Context)
    requires ctx.env(["sessions", "distinct_src_endpoint_ip"]) == Ok(Int(k))
    ensures FireAll(ReplayRule(), ReplayRule().emits, s, ctx) == Ok(if k >= 2 then [ReplayClaim(s, k)] else [])
  {
    AtLeastTwoAddresses(k, ctx);
    var emits := ReplayRule().emits;
    assert emits[1..] == [];
    var fired := Fire(ReplayRule(), ReplayEmit(), s, ctx);
    assert fired.value + [] == fired.value;
  }

  lemma OneSource(us: seq<Use>, s: string, funcs: Funcs, agg: Aggregate)
    requires AggregateFor(Uses(us), Sessions(), SessionCase(s), funcs) == Ok(agg)
    ensures WellFormed(ReplayRule())
    ensures var r := ReplayRule();
      Aggregates(map[], Uses(us), r.names, r.sources, SessionCase(s), funcs) == Ok(map["sessions" := agg])
    ensures AggregateContext(map["sessions" := agg], funcs).env(["sessions", "distinct_src_endpoint_ip"]) ==
      AggregateField(agg, "distinct_src_endpoint_ip")
  {
    ReplayShape();
    var r := ReplayRule();
    assert r.names[1..] == [] && r.sources["sessions"] == Sessions();
    assert map["sessions" := agg]["sessions"] == agg;
  }

  /** What is claimed of one session. */
  lemma SessionClaims(us: seq<Use>, s: string, funcs: Funcs)
    ensures WellFormed(ReplayRule())
    ensures var k := |AddressesOf(us, s)|;
      CaseClaims(ReplayRule(), Uses(us), SessionCase(s), funcs) == Ok(if k >= 2 then [ReplayClaim(s, k)] else [])
  {
    var agg := SessionAggregate(us, s, funcs);
    OneSource(us, s, funcs, agg);
    ReplayFires(s, |AddressesOf(us, s)|, AggregateContext(map["sessions" := agg], funcs));
    assert EntityOf(ReplayRule(), SessionCase(s)) == s;
  }

  lemma UseCase(u: Use)
    ensures CaseOf(UseEvent(u), [SESSION]) == Some(SessionCase(u.session))
  {
    UseReads(u);
    assert forall f :: f in [SESSION] <==> f == SESSION;
    assert CaseOf(UseEvent(u), [SESSION]).value == SessionCase(u.session);
  }

  lemma CaseIsSession(us: seq<Use>, ci: CaseInfo)
    requires ci in Cases(Uses(us), [SESSION])
    ensures exists u :: u in us && ci == CaseInfo(u.session, SessionCase(u.session))
  {
    CasesSound(Uses(us), [SESSION]);
    var e :| e in Uses(us) && CaseOf(e, [SESSION]) == Some(ci.values);
    var u := UseOf(us, e);
    UseCase(u);
    SessionKey(u.session);
  }

  lemma SessionHasCase(us: seq<Use>, i: nat)
    requires i < |us|
    ensures CaseInfo(us[i].session, SessionCase(us[i].session)) in Cases(Uses(us), [SESSION])
  {
    var cases := Cases(Uses(us), [SESSION]);
    UseCase(us[i]);
    SessionKey(us[i].session);
    CasesComplete(Uses(us), [SESSION], i);
    var k :| 0 <= k < |cases| && cases[k].key == us[i].session;
    CaseIsSession(us, cases[k]);
  }

  /** There is one case for each session used, successfully or not. */
  lemma SessionCases(us: seq<Use>)
    ensures forall ci :: ci in Cases(Uses(us), [SESSION]) ==>
      exists u :: u in us && ci == CaseInfo(u.session, SessionCase(u.session))
    ensures forall u :: u in us ==> CaseInfo(u.session, SessionCase(u.session)) in Cases(Uses(us), [SESSION])
    ensures forall i, j :: 0 <= i < j < |Cases(Uses(us), [SESSION])| ==>
      Cases(Uses(us), [SESSION])[i].key != Cases(Uses(us), [SESSION])[j].key
  {
    KeysDistinct(Uses(us), [SESSION]);
    forall ci | ci in Cases(Uses(us), [SESSION])
      ensures exists u :: u in us && ci == CaseInfo(u.session, SessionCase(u.session))
    {
      CaseIsSession(us, ci);
    }
    forall u | u in us ensures CaseInfo(u.session, SessionCase(u.session)) in Cases(Uses(us), [SESSION]) {
      var i :| 0 <= i < |us| && us[i] == u;
      SessionHasCase(us, i);
    }
  }

  /** The claims of a list of session cases. */
  function ClaimsOf(us: seq<Use>, cases: seq<CaseInfo>): seq<Claim> {
    if cases == [] then []
    else
      var k := |AddressesOf(us, cases[0].key)|;
      (if k >= 2 then [ReplayClaim(cases[0].key, k)] else []) + ClaimsOf(us, cases[1..])
  }

  lemma {:induction false} StreamsClaims(us: seq<Use>, cases: seq<CaseInfo>, funcs: Funcs)
    requires forall ci :: ci in cases ==> ci.values == SessionCase(ci.key)
    ensures WellFormed(ReplayRule())
    ensures StreamCases(ReplayRule(), Uses(us), cases, funcs) == Ok(ClaimsOf(us, cases))
  {
    ReplayShape();
    if cases != [] {
      assert cases[0] in cases;
      SessionClaims(us, cases[0].key, funcs);
      StreamsClaims(us, cases[1..], funcs);
    }
  }

  lemma {:induction false} ClaimsAre(us: seq<Use>, cases: seq<CaseInfo>)
    requires forall i, j :: 0 <= i < j < |cases| ==> cases[i].key != cases[j].key
    ensures NoDup(ClaimsOf(us, cases))
    ensures forall c :: c in ClaimsOf(us, cases) <==>
      exists i :: 0 <= i < |cases| && |AddressesOf(us, cases[i].key)| >= 2 &&
        c == ReplayClaim(cases[i].key, |AddressesOf(us, cases[i].key)|)
  {
    if cases != [] {
      var rest := cases[1..];
      ClaimsAre(us, rest);
      assert forall i :: 0 <= i < |rest| ==> rest[i] == cases[i + 1];
      forall c | c in ClaimsOf(us, rest) ensures c.entity != cases[0].key {
        var i :| 0 <= i < |rest| && c == ReplayClaim(rest[i].key, |AddressesOf(us, rest[i].key)|);
      }
    }
  }

  /**
   TOKEN_REPLAYED is claimed, once, of exactly the sessions successfully used from two or more addresses, and observes
   how many; whatever other events there are.
   */
  lemma ReplayOutcome(us: seq<Use>, funcs: Funcs)
    ensures WellFormed(ReplayRule()) && Streaming(ReplayRule(), Uses(us), funcs).Ok?
    ensures NoDup(Streaming(ReplayRule(), Uses(us), funcs).value)
    ensures forall s, k :: ReplayClaim(s, k) in Streaming(ReplayRule(), Uses(us), funcs).value <==>
      k == |AddressesOf(us, s)| >= 2
    ensures forall c :: c in Streaming(ReplayRule(), Uses(us), funcs).value ==>
      exists u :: u in us && c == ReplayClaim(u.session, |AddressesOf(us, u.session)|)
  {
    var cases := Cases(Uses(us), [SESSION]);
    ReplayShape();
    SessionCases(us);
    StreamsClaims(us, cases, funcs);
    ClaimsAre(us, cases);
    forall s, k ensures ReplayClaim(s, k) in ClaimsOf(us, cases) <==> k == |AddressesOf(us, s)| >= 2 {
      if k == |AddressesOf(us, s)| && k >= 2 { UsedSession(us, s, cases); }
    }
  }

  lemma UsedSession(us: seq<Use>, s: string, cases: seq<CaseInfo>)
    requires AddressesOf(us, s) != {} && forall u :: u in us ==> CaseInfo(u.session, SessionCase(u.session)) in cases
    ensures exists i :: 0 <= i < |cases| && cases[i].key == s
  {
    var ip :| ip in AddressesOf(us, s);
    var u :| u in us && u.session == s && u.ip == ip;
    var i :| 0 <= i < |cases| && cases[i] == CaseInfo(u.session, SessionCase(u.session));
  }

  /** In particular, of logins under one session: a claim exactly when they come from two or more addresses. */
  lemma OneSession(us: seq<Use>, s: string, funcs: Funcs)
    requires us != [] && forall u :: u in us ==> Success(u) && u.session == s
    ensures WellFormed(ReplayRule())
    ensures var k := |set u | u in us :: u.ip|;
      Streaming(ReplayRule(), Uses(us), funcs) == Ok(if k >= 2 then [ReplayClaim(s, k)] else [])
  {
    ReplayShape();
    OneSessionCase(us, s);
    assert (set u | u in us :: u.ip) == AddressesOf(us, s);
    OneClaims(us, s);
    StreamsClaims(us, [CaseInfo(s, SessionCase(s))], funcs);
  }

  lemma OneSessionCase(us: seq<Use>, s: string)
    requires us != [] && forall u :: u in us ==> u.session == s
    ensures Cases(Uses(us), [SESSION]) == [CaseInfo(s, SessionCase(s))]
  {
    SessionCases(us);
    assert us[0] in us;
    OnlyCase(Cases(Uses(us), [SESSION]), CaseInfo(s, SessionCase(s)));
  }

  lemma OneClaims(us: seq<Use>, s: string)
    ensures var k := |AddressesOf(us, s)|;
      ClaimsOf(us, [CaseInfo(s, SessionCase(s))]) == if k >= 2 then [ReplayClaim(s, k)] else []
  {
    assert [CaseInfo(s, SessionCase(s))][1..] == [] && ClaimsOf(us, []) == [];
  }

  lemma OnlyCase(cases: seq<CaseInfo>, ci: CaseInfo)
    requires ci in cases && (forall c :: c in cases ==> c == ci)
    requires forall i, j :: 0 <= i < j < |cases| ==> cases[i].key != cases[j].key
    ensures cases == [ci]
  {
    forall i | 0 <= i < |cases| ensures cases[i] == ci { assert cases[i] in cases; }
    assert |cases| < 2 || cases[0].key != cases[1].key;
  }
}
