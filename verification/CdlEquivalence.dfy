/** Streaming and SQL execution of one rule yield the same bag of claims. */
module CdlEquivalence {
  import opened Common
  import opened Seqs
  import opened CdlExpr
  import opened CdlEvents
  import opened CdlAggregate
  import opened CdlStreaming
  import opened CdlSql
  import opened CdlCompile
  import opened CdlQuery
  import opened CdlGroups
  import opened CdlGroupRecord
  import opened CdlJoin
  import opened CdlCase
  import opened CdlRule

  // ----- cases and anchor groups correspond -----

  function IsLive(c: Corpus, src: Source): CaseInfo -> bool {
    (ci: CaseInfo) => CaseMatches(c, src, KeyOf(ci.values, src.groupBy)) != []
  }

  function KeyRecordOf(fields: seq<Path>): CaseInfo -> Record { (ci: CaseInfo) => KeyRecord(ci.values, fields) }

  function AnchorKeys(c: Corpus, src: Source, cte: Cte): seq<Record> {
    GroupKeys(Filter(c.table, Admits(cte.where, "", c.eng)), FlatNames(src.groupBy))
  }

  /** The anchor compiled to `cte`. */
  ghost predicate AnchorReady(rule: Rule, c: Corpus, anchor: string, cte: Cte) {
    match rule
    case Rule(_, _, _, _, sources, _, _) =>
      && WellFormed(rule) && AnchorOf(rule) == Ok(anchor) && anchor in sources && CorpusOk(c)
      && SourceOk(c, sources[anchor]) && CompileSource(sources[anchor], c.fsql) == Ok(cte)
  }

  lemma CasesDistinct(rule: Rule, c: Corpus, anchor: string, cte: Cte)
    requires AnchorReady(rule, c, anchor, cte)
    ensures DistinctUnder(RuleCases(rule, c), IsLive(c, rule.sources[anchor]),
      KeyRecordOf(rule.sources[anchor].groupBy))
  {
    var cases, src := RuleCases(rule, c), rule.sources[anchor];
    CasesSound(c.events, UnionFields(rule.names, rule.sources));
    forall i, j | 0 <= i < j < |cases|
      ensures KeyRecord(cases[i].values, src.groupBy) != KeyRecord(cases[j].values, src.groupBy)
    {
      CaseIsFromEvent(rule, c, anchor, cases[i]);
      CaseIsFromEvent(rule, c, anchor, cases[j]);
      if KeyRecord(cases[i].values, src.groupBy) == KeyRecord(cases[j].values, src.groupBy) {
        CaseKeysDistinct(c, src.groupBy, cases[i].values, cases[j].values);
      }
    }
  }

  lemma AnchorCase(rule: Rule, c: Corpus, anchor: string, cte: Cte, ci: CaseInfo)
    requires AnchorReady(rule, c, anchor, cte) && ci in RuleCases(rule, c) &&
      WhereTotal(c.events, rule.sources[anchor], c.funcs)
    ensures SourceCase(c, rule.sources[anchor], ci.values, KeyOf(ci.values, rule.sources[anchor].groupBy))
    ensures IsCase(c, rule.sources[anchor].groupBy, ci.values)
  {
    CaseIsFromEvent(rule, c, anchor, ci);
    CaseSource(c, rule.sources[anchor], rule.sources[anchor].groupBy, ci.values);
  }

  /** A case with an anchor match has a group of its own. */
  lemma LiveHasGroup(rule: Rule, c: Corpus, anchor: string, cte: Cte, ci: CaseInfo)
    requires AnchorReady(rule, c, anchor, cte) && ci in RuleCases(rule, c) &&
      WhereTotal(c.events, rule.sources[anchor], c.funcs)
    requires IsLive(c, rule.sources[anchor])(ci)
    ensures KeyRecord(ci.values, rule.sources[anchor].groupBy) in AnchorKeys(c, rule.sources[anchor], cte)
  {
    AnchorCase(rule, c, anchor, cte, ci);
    KeyPresent(c, rule.sources[anchor], ci.values, KeyOf(ci.values, rule.sources[anchor].groupBy), cte.where);
  }

  lemma GroupRowBehind(table: seq<Record>, p: Record -> bool, cols: seq<string>, key: Record) returns (i: nat)
    requires key in GroupKeys(Filter(table, p), cols)
    ensures i < |table| && p(table[i]) && KeyOfRecord(table[i], cols) == key
  {
    var rows := Filter(table, p);
    GroupKeysElems(rows, cols);
    FilterElems(table, p);
    var j :| 0 <= j < |rows| && KeyOfRecord(rows[j], cols) == key;
    assert rows[j] in rows;
    i :| 0 <= i < |table| && table[i] == rows[j];
  }

  /** A group's key without a NULL: the events behind it carry every case field. */
  predicate Keyed(key: Record) { forall n :: n in key ==> !key[n].SNull? }

  lemma KeyColumn(c: Corpus, src: Source, i: nat, f: Path)
    requires CorpusOk(c) && GroupFields(c.events, src.groupBy) && i < |c.table| && f in src.groupBy
    ensures i < |c.events| && (At(c.table[i], FlatName(f)).SNull? <==> Resolve(c.events[i], f).None?)
  {
    assert RecordOf(c.events[i], c.table[i]) && c.events[i] in c.events;
    assert KeyField(c.events, f);
    RecordReads(c.events[i], c.table[i], f);
  }

  lemma KeyedFields(c: Corpus, src: Source, i: nat, key: Record)
    requires CorpusOk(c) && GroupFields(c.events, src.groupBy) && i < |c.table| &&
      KeyOfRecord(c.table[i], FlatNames(src.groupBy)) == key
    ensures i < |c.events| && (Keyed(key) <==> CaseOf(c.events[i], src.groupBy).Some?)
  {
    forall f | f in src.groupBy
      ensures FlatName(f) in key && (key[FlatName(f)].SNull? <==> Resolve(c.events[i], f).None?)
    {
      NameListed(src.groupBy, f);
      KeyColumn(c, src, i, f);
    }
    forall n | n in key ensures exists f :: f in src.groupBy && FlatName(f) == n { var f := PathNamed(src.groupBy, n); }
  }

  /** The event behind a keyed group's first row carries every case field. */
  lemma GroupEvent(rule: Rule, c: Corpus, anchor: string, cte: Cte, key: Record) returns (i: nat)
    requires AnchorReady(rule, c, anchor, cte) && key in AnchorKeys(c, rule.sources[anchor], cte) && Keyed(key)
    ensures i < |c.events| && i < |c.table| && RecordOf(c.events[i], c.table[i])
    ensures KeyOfRecord(c.table[i], FlatNames(rule.sources[anchor].groupBy)) == key
    ensures Admits(cte.where, "", c.eng)(c.table[i]) && CaseOf(c.events[i], rule.sources[anchor].groupBy).Some?
  {
    i := GroupRowBehind(c.table, Admits(cte.where, "", c.eng), FlatNames(rule.sources[anchor].groupBy), key);
    KeyedFields(c, rule.sources[anchor], i, key);
    assert RecordOf(c.events[i], c.table[i]);
  }

  /** The case an event falls into carries the event's own values. */
  lemma CaseOfEvent(rule: Rule, c: Corpus, anchor: string, cte: Cte, i: nat) returns (k: nat)
    requires AnchorReady(rule, c, anchor, cte) && i < |c.events|
    requires CaseOf(c.events[i], rule.sources[anchor].groupBy).Some?
    ensures k < |RuleCases(rule, c)| &&
      CarriesCase(c.events[i], RuleCases(rule, c)[k].values, rule.sources[anchor].groupBy)
  {
    var fields, src := UnionFields(rule.names, rule.sources), rule.sources[anchor];
    AnchorFields(rule, anchor);
    var e := c.events[i];
    assert CaseOf(e, fields).Some?;
    CasesComplete(c.events, fields, i);
    var cases := RuleCases(rule, c);
    k :| 0 <= k < |cases| && cases[k].key == KeyOf(CaseOf(e, fields).value, fields);
    CaseIsFromEvent(rule, c, anchor, cases[k]);
    SameCaseValues(c, src.groupBy, fields, e, cases[k].values);
  }

  lemma SameCaseValues(c: Corpus, gb: seq<Path>, fields: seq<Path>, e: Event, values: CaseValues)
    requires GroupFields(c.events, gb) && IsCase(c, gb, values) && e in c.events && CaseOf(e, fields).Some?
    requires forall f :: f in fields <==> f in gb
    requires KeyOf(values, fields) == KeyOf(CaseOf(e, fields).value, fields)
    ensures CarriesCase(e, values, gb)
  {
    var g, h := CaseGetter(CaseOf(e, fields).value), CaseGetter(values);
    forall f | f in fields
      ensures g(f) == Resolve(e, f) && h(f) == Some(ValueOf(values, f))
      ensures IsKeyScalar(g(f).value) && IsKeyScalar(h(f).value) && SameKind(g(f).value, h(f).value)
    {
      var d := CaseValueFrom(c, gb, values, f);
      assert KeyField(c.events, f);
      assert SameKind(Resolve(e, f).value, Resolve(d, f).value);
    }
    GroupKeyMeansTuple(g, h, fields);
  }

  /** Every keyed group of the anchor belongs to a case. */
  lemma GroupInCase(rule: Rule, c: Corpus, anchor: string, cte: Cte, key: Record) returns (k: nat, i: nat)
    requires AnchorReady(rule, c, anchor, cte) && key in AnchorKeys(c, rule.sources[anchor], cte) && Keyed(key)
    ensures k < |RuleCases(rule, c)| && i < |c.events| && i < |c.table| && Admits(cte.where, "", c.eng)(c.table[i])
    ensures KeyOfRecord(c.table[i], FlatNames(rule.sources[anchor].groupBy)) == key
    ensures CarriesCase(c.events[i], RuleCases(rule, c)[k].values, rule.sources[anchor].groupBy)
  {
    i := GroupEvent(rule, c, anchor, cte, key);
    k := CaseOfEvent(rule, c, anchor, cte, i);
  }

  /** Once the where clause can be evaluated everywhere, that case has a match. */
  lemma GroupHasCase(rule: Rule, c: Corpus, anchor: string, cte: Cte, key: Record) returns (k: nat)
    requires AnchorReady(rule, c, anchor, cte) && WhereTotal(c.events, rule.sources[anchor], c.funcs)
    requires key in AnchorKeys(c, rule.sources[anchor], cte) && Keyed(key)
    ensures k < |RuleCases(rule, c)| && IsLive(c, rule.sources[anchor])(RuleCases(rule, c)[k])
    ensures KeyRecordOf(rule.sources[anchor].groupBy)(RuleCases(rule, c)[k]) == key
  {
    var src := rule.sources[anchor];
    var i: nat;
    k, i := GroupInCase(rule, c, anchor, cte, key);
    var ci := RuleCases(rule, c)[k];
    AnchorCase(rule, c, anchor, cte, ci);
    RowMembership(c, src, ci.values, KeyOf(ci.values, src.groupBy), "", cte.where, i);
    FilterNonEmpty(c.events, Picker(src, KeyOf(ci.values, src.groupBy), c.funcs));
  }

  // ----- the contributions agree -----

  lemma RuleFacts(rule: Rule, c: Corpus, anchor: string, ctes: map<string, Cte>)
    requires RuleOk(rule, c, anchor) && CompileSources(map[], rule.names, rule.sources, c.fsql) == Ok(ctes)
    ensures anchor in ctes && AnchorReady(rule, c, anchor, ctes[anchor])
    ensures forall n :: n in rule.sources ==>
      n in ctes && CompileSource(rule.sources[n], c.fsql) == Ok(ctes[n]) && SourceOk(c, rule.sources[n])
    ensures forall n :: n in rule.sources ==> forall f :: f in rule.sources[n].groupBy ==>
      f in rule.sources[anchor].groupBy
  {
    CompileSourcesAt(map[], rule.names, rule.sources, c.fsql);
    AnchorFields(rule, anchor);
  }

  lemma AggregatesReady(rule: Rule, c: Corpus, values: CaseValues, aggs: AggregateEnv)
    requires WellFormed(rule) && CaseAggregates(rule, c, values) == Ok(aggs)
    ensures aggs.Keys == rule.sources.Keys
    ensures forall n :: n in rule.sources ==>
      n in aggs && AggregateFor(c.events, rule.sources[n], values, c.funcs) == Ok(aggs[n])
  {
    AggregatesAt(map[], c.events, rule.names, rule.sources, values, c.funcs);
  }

  /** A case whose claims could be computed shows that the anchor's where clause can be evaluated everywhere. */
  lemma AnchorTotal(rule: Rule, c: Corpus, anchor: string, cte: Cte, ci: CaseInfo, aggs: AggregateEnv)
    requires AnchorReady(rule, c, anchor, cte) && ci in RuleCases(rule, c) &&
      CaseAggregates(rule, c, ci.values) == Ok(aggs)
    ensures WhereTotal(c.events, rule.sources[anchor], c.funcs)
  {
    AggregatesReady(rule, c, ci.values, aggs);
    AnchorOfNames(rule, anchor);
    CaseIsFromEvent(rule, c, anchor, ci);
    CaseSource(c, rule.sources[anchor], rule.sources[anchor].groupBy, ci.values);
  }

  lemma AnchorOfNames(rule: Rule, anchor: string)
    requires WellFormed(rule) && AnchorOf(rule) == Ok(anchor)
    ensures anchor in rule.sources
  {
    AnchorFields(rule, anchor);
  }

  lemma CaseIsReady(rule: Rule, c: Corpus, anchor: string, ctes: map<string, Cte>, ci: CaseInfo, aggs: AggregateEnv)
    requires RuleOk(rule, c, anchor) && CompileSources(map[], rule.names, rule.sources, c.fsql) == Ok(ctes)
    requires ci in RuleCases(rule, c) && CaseAggregates(rule, c, ci.values) == Ok(aggs)
    ensures CaseReady(rule, c, anchor, ctes, ci.values, aggs)
  {
    RuleFacts(rule, c, anchor, ctes);
    AggregatesReady(rule, c, ci.values, aggs);
    CaseIsFromEvent(rule, c, anchor, ci);
    forall n | n in rule.sources
      ensures SourceReady(c, rule.sources[n], ctes[n], ci.values, aggs[n], rule.sources[anchor].groupBy)
    {}
  }

  lemma LiveMeansCounted(rule: Rule, c: Corpus, anchor: string, ctes: map<string, Cte>, ci: CaseInfo,
      aggs: AggregateEnv)
    requires RuleOk(rule, c, anchor) && CompileSources(map[], rule.names, rule.sources, c.fsql) == Ok(ctes)
    requires ci in RuleCases(rule, c) && CaseAggregates(rule, c, ci.values) == Ok(aggs)
    ensures CaseConsistent(rule, c, anchor, ci.values, aggs)
    ensures anchor in aggs && (aggs[anchor].count > 0 <==> IsLive(c, rule.sources[anchor])(ci))
  {
    RuleFacts(rule, c, anchor, ctes);
    AggregatesReady(rule, c, ci.values, aggs);
    AnchorTotal(rule, c, anchor, ctes[anchor], ci, aggs);
    AnchorCase(rule, c, anchor, ctes[anchor], ci);
    AggregateIs(c, rule.sources[anchor], ci.values, KeyOf(ci.values, rule.sources[anchor].groupBy), aggs[anchor]);
  }

  function GroupRecordOf(c: Corpus, cte: Cte): Record -> Record {
    (key: Record) => GroupRecord(cte, key, c.table, Filter(c.table, Admits(cte.where, "", c.eng)), c.eng)
  }

  ghost function KeyBagOf(rule: Rule, c: Corpus, cte: Cte, emits: string, q: Query,
      results: map<string, seq<Record>>): Record -> multiset<Claim> {
    Compose(RecordBagOf(rule, emits, q, results, c.eng), GroupRecordOf(c, cte))
  }

  ghost function CaseFire(rule: Rule, c: Corpus, emit: Emit): CaseInfo -> multiset<Claim>
    requires WellFormed(rule)
  {
    (ci: CaseInfo) => FireBag(rule, c, ci.values, emit)
  }

  lemma CaseContribution(rule: Rule, c: Corpus, anchor: string, ctes: map<string, Cte>, ci: CaseInfo, emit: Emit,
      q: Query)
    requires RuleOk(rule, c, anchor) && CompileSources(map[], rule.names, rule.sources, c.fsql) == Ok(ctes)
    requires ci in RuleCases(rule, c) && CaseClaims(rule, c.events, ci.values, c.funcs).Ok?
    requires emit in rule.emits && CompileEmit(rule, emit, anchor, c.fsql) == Ok(q)
    requires anchor in rule.sources && IsLive(c, rule.sources[anchor])(ci)
    ensures anchor in ctes
    ensures FireBag(rule, c, ci.values, emit) ==
      KeyBagOf(rule, c, ctes[anchor], emit.emits, q,
        Results(ctes, c.table, c.eng))(KeyRecord(ci.values, rule.sources[anchor].groupBy))
  {
    CaseSum(rule, c, ci.values);
    var aggs := CaseAggregates(rule, c, ci.values).value;
    CaseIsReady(rule, c, anchor, ctes, ci, aggs);
    LiveMeansCounted(rule, c, anchor, ctes, ci, aggs);
    CaseEmitAgrees(rule, c, anchor, ctes, ci.values, aggs, emit, q);
  }

  lemma KeySum(rule: Rule, c: Corpus, src: Source, cte: Cte, emits: string, q: Query, results: map<string, seq<Record>>)
    requires cte.groupBy == FlatNames(src.groupBy)
    ensures Sum(EvalCte(cte, c.table, c.eng), RecordBagOf(rule, emits, q, results, c.eng)) ==
      Sum(AnchorKeys(c, src, cte), KeyBagOf(rule, c, cte, emits, q, results))
  {
    SumCompose(AnchorKeys(c, src, cte), EvalCte(cte, c.table, c.eng), RecordBagOf(rule, emits, q, results, c.eng),
      GroupRecordOf(c, cte));
  }

  lemma AnchorGroupSum(rule: Rule, c: Corpus, src: Source, cte: Cte, emits: string, q: Query,
      results: map<string, seq<Record>>)
    requires cte.groupBy == FlatNames(src.groupBy) && q.anchor in results &&
      results[q.anchor] == EvalCte(cte, c.table, c.eng)
    ensures Sum(AnchorKeys(c, src, cte), KeyBagOf(rule, c, cte, emits, q, results)) ==
      Bag(QueryClaims(rule, emits, q, results, c.eng))
  {
    KeySum(rule, c, src, cte, emits, q, results);
    QuerySum(rule, emits, q, results, c.eng, EvalCte(cte, c.table, c.eng));
  }

  /** The live cases have exactly the anchor's keyed groups. */
  lemma CasesCoverGroups(rule: Rule, c: Corpus, anchor: string, cte: Cte, cases: seq<CaseInfo>)
    requires AnchorReady(rule, c, anchor, cte) && cases == RuleCases(rule, c)
    requires cases != [] ==> WhereTotal(c.events, rule.sources[anchor], c.funcs)
    ensures forall ci :: ci in cases && IsLive(c, rule.sources[anchor])(ci) ==>
      KeyRecordOf(rule.sources[anchor].groupBy)(ci) in AnchorKeys(c, rule.sources[anchor], cte)
    ensures forall key :: key in AnchorKeys(c, rule.sources[anchor], cte) && Keyed(key) ==>
      exists i :: 0 <= i < |cases| && IsLive(c, rule.sources[anchor])(cases[i]) &&
        KeyRecordOf(rule.sources[anchor].groupBy)(cases[i]) == key
  {
    var src := rule.sources[anchor];
    forall ci | ci in cases && IsLive(c, src)(ci) ensures KeyRecordOf(src.groupBy)(ci) in AnchorKeys(c, src, cte) {
      LiveHasGroup(rule, c, anchor, cte, ci);
    }
    forall key | key in AnchorKeys(c, src, cte) && Keyed(key)
      ensures exists i :: 0 <= i < |cases| && IsLive(c, src)(cases[i]) && KeyRecordOf(src.groupBy)(cases[i]) == key
    {
      var j, _ := GroupInCase(rule, c, anchor, cte, key);
      var k := GroupHasCase(rule, c, anchor, cte, key);
    }
  }

  lemma CarriedKeyed(values: CaseValues, fields: seq<Path>)
    requires Carries(values, fields) && AliasesDistinct(fields)
    ensures Keyed(KeyRecord(values, fields))
  {
    KeyRecordAt(values, fields);
    forall n | n in KeyRecord(values, fields) ensures !KeyRecord(values, fields)[n].SNull? {
      var f := PathNamed(fields, n);
      assert At(KeyRecord(values, fields), n) == Store(ValueOf(values, f));
    }
  }

  /** A case's key has no NULL. */
  lemma CaseKeyed(rule: Rule, c: Corpus, anchor: string, cte: Cte, ci: CaseInfo)
    requires AnchorReady(rule, c, anchor, cte) && ci in RuleCases(rule, c)
    ensures Keyed(KeyRecord(ci.values, rule.sources[anchor].groupBy))
  {
    CaseIsFromEvent(rule, c, anchor, ci);
    CaseGroupsBy(c, rule.sources[anchor], rule.sources[anchor].groupBy, ci.values);
    CarriedKeyed(ci.values, rule.sources[anchor].groupBy);
  }

  // ----- claims only one side makes -----

  /** What a case fires although its anchor matched nothing: SQL has no row for it. */
  ghost function UnanchoredFire(rule: Rule, c: Corpus, src: Source, emit: Emit): CaseInfo -> multiset<Claim>
    requires WellFormed(rule)
  {
    (ci: CaseInfo) => if IsLive(c, src)(ci) then multiset{} else FireBag(rule, c, ci.values, emit)
  }

  ghost function AnchoredFire(rule: Rule, c: Corpus, src: Source, emit: Emit): CaseInfo -> multiset<Claim>
    requires WellFormed(rule)
  {
    (ci: CaseInfo) => if IsLive(c, src)(ci) then FireBag(rule, c, ci.values, emit) else multiset{}
  }

  /** What the row of a group with a NULL key yields: no case stands behind it. */
  ghost function UnkeyedBag(g: Record -> multiset<Claim>): Record -> multiset<Claim> {
    (key: Record) => if Keyed(key) then multiset{} else g(key)
  }

  ghost function KeyedBag(g: Record -> multiset<Claim>): Record -> multiset<Claim> {
    (key: Record) => if Keyed(key) then g(key) else multiset{}
  }

  lemma SomeCaseTotal(rule: Rule, c: Corpus, anchor: string, ctes: map<string, Cte>)
    requires RuleOk(rule, c, anchor) && CompileSources(map[], rule.names, rule.sources, c.fsql) == Ok(ctes)
    requires forall ci :: ci in RuleCases(rule, c) ==> CaseClaims(rule, c.events, ci.values, c.funcs).Ok?
    ensures anchor in ctes && AnchorReady(rule, c, anchor, ctes[anchor])
    ensures RuleCases(rule, c) != [] ==> WhereTotal(c.events, rule.sources[anchor], c.funcs)
  {
    RuleFacts(rule, c, anchor, ctes);
    if RuleCases(rule, c) != [] {
      var ci := RuleCases(rule, c)[0];
      CaseSum(rule, c, ci.values);
      AnchorTotal(rule, c, anchor, ctes[anchor], ci, CaseAggregates(rule, c, ci.values).value);
    }
  }

  lemma LiveContribution(rule: Rule, c: Corpus, anchor: string, ctes: map<string, Cte>, ci: CaseInfo, emit: Emit,
      q: Query)
    requires RuleOk(rule, c, anchor) && CompileSources(map[], rule.names, rule.sources, c.fsql) == Ok(ctes)
    requires ci in RuleCases(rule, c) && CaseClaims(rule, c.events, ci.values, c.funcs).Ok?
    requires emit in rule.emits && CompileEmit(rule, emit, anchor, c.fsql) == Ok(q)
    ensures anchor in ctes && anchor in rule.sources
    ensures AnchoredFire(rule, c, rule.sources[anchor], emit)(ci) ==
      if IsLive(c, rule.sources[anchor])(ci) then
        KeyedBag(KeyBagOf(rule, c, ctes[anchor], emit.emits, q,
          Results(ctes, c.table, c.eng)))(KeyRecordOf(rule.sources[anchor].groupBy)(ci))
      else multiset{}
  {
    RuleFacts(rule, c, anchor, ctes);
    if IsLive(c, rule.sources[anchor])(ci) {
      CaseContribution(rule, c, anchor, ctes, ci, emit, q);
      CaseKeyed(rule, c, anchor, ctes[anchor], ci);
    }
  }

  /** The live cases and the anchor's keyed groups, one to one, with equal contributions. */
  lemma CasesMatchGroups(rule: Rule, c: Corpus, anchor: string, ctes: map<string, Cte>, emit: Emit, q: Query)
    requires RuleOk(rule, c, anchor) && CompileSources(map[], rule.names, rule.sources, c.fsql) == Ok(ctes)
    requires forall ci :: ci in RuleCases(rule, c) ==> CaseClaims(rule, c.events, ci.values, c.funcs).Ok?
    requires emit in rule.emits && CompileEmit(rule, emit, anchor, c.fsql) == Ok(q)
    ensures anchor in ctes && anchor in rule.sources
    ensures Sum(RuleCases(rule, c), AnchoredFire(rule, c, rule.sources[anchor], emit)) ==
      Sum(AnchorKeys(c, rule.sources[anchor], ctes[anchor]),
          KeyedBag(KeyBagOf(rule, c, ctes[anchor], emit.emits, q, Results(ctes, c.table, c.eng))))
  {
    SomeCaseTotal(rule, c, anchor, ctes);
    var src, cte, results := rule.sources[anchor], ctes[anchor], Results(ctes, c.table, c.eng);
    var g := KeyBagOf(rule, c, cte, emit.emits, q, results);
    forall ci | ci in RuleCases(rule, c)
      ensures AnchoredFire(rule, c, src, emit)(ci) == if IsLive(c, src)(ci) then
        KeyedBag(g)(KeyRecordOf(src.groupBy)(ci)) else multiset{}
    {
      LiveContribution(rule, c, anchor, ctes, ci, emit, q);
    }
    MatchByKey(rule, c, anchor, cte, AnchoredFire(rule, c, src, emit), KeyedBag(g));
  }

  lemma MatchByKey(rule: Rule, c: Corpus, anchor: string, cte: Cte, f: CaseInfo -> multiset<Claim>,
      g: Record -> multiset<Claim>)
    requires AnchorReady(rule, c, anchor, cte)
    requires RuleCases(rule, c) != [] ==> WhereTotal(c.events, rule.sources[anchor], c.funcs)
    requires forall ci :: ci in RuleCases(rule, c) ==>
      f(ci) == if IsLive(c, rule.sources[anchor])(ci) then g(KeyRecordOf(rule.sources[anchor].groupBy)(ci))
        else multiset{}
    requires forall key :: g(key) != multiset{} ==> Keyed(key)
    ensures Sum(RuleCases(rule, c), f) == Sum(AnchorKeys(c, rule.sources[anchor], cte), g)
  {
    var src := rule.sources[anchor];
    CasesDistinct(rule, c, anchor, cte);
    GroupKeysElems(Filter(c.table, Admits(cte.where, "", c.eng)), FlatNames(src.groupBy));
    CasesCoverGroups(rule, c, anchor, cte, RuleCases(rule, c));
    SumBijection(RuleCases(rule, c), AnchorKeys(c, src, cte), IsLive(c, src), KeyRecordOf(src.groupBy), f, g);
  }

  lemma AnchorResults(rule: Rule, c: Corpus, anchor: string, ctes: map<string, Cte>, emit: Emit, q: Query)
    requires RuleOk(rule, c, anchor) && CompileSources(map[], rule.names, rule.sources, c.fsql) == Ok(ctes)
    requires emit in rule.emits && CompileEmit(rule, emit, anchor, c.fsql) == Ok(q)
    ensures anchor in ctes && anchor in rule.sources && ctes[anchor].groupBy == FlatNames(rule.sources[anchor].groupBy)
    ensures q.anchor == anchor && anchor in Results(ctes, c.table, c.eng)
    ensures Results(ctes, c.table, c.eng)[anchor] == EvalCte(ctes[anchor], c.table, c.eng)
  {
    RuleFacts(rule, c, anchor, ctes);
  }

  ghost function UnanchoredEmit(rule: Rule, c: Corpus, src: Source): Emit -> multiset<Claim>
    requires WellFormed(rule)
  {
    (e: Emit) => Sum(RuleCases(rule, c), UnanchoredFire(rule, c, src, e))
  }

  /** Claims about cases without an anchor match, of the emit clauses whose queries are kept. */
  ghost function UnanchoredClaims(rule: Rule, c: Corpus, anchor: string): multiset<Claim>
    requires WellFormed(rule) && anchor in rule.sources
  {
    Sum(Kept(rule.emits), UnanchoredEmit(rule, c, rule.sources[anchor]))
  }

  ghost function UnkeyedEmit(rule: Rule, c: Corpus, src: Source, cte: Cte,
      compiled: Compiled): Emit -> multiset<Claim> {
    (e: Emit) =>
      if e.emits in compiled.queries then
        Sum(AnchorKeys(c, src, cte),
          UnkeyedBag(KeyBagOf(rule, c, cte, e.emits, compiled.queries[e.emits],
          Results(compiled.ctes, c.table, c.eng))))
      else multiset{}
  }

  /** Claims of the queries about anchor matches that lack a case field. */
  ghost function UnkeyedClaims(rule: Rule, c: Corpus, anchor: string, compiled: Compiled): multiset<Claim>
    requires anchor in rule.sources && anchor in compiled.ctes
  {
    Sum(rule.emits, UnkeyedEmit(rule, c, rule.sources[anchor], compiled.ctes[anchor], compiled))
  }

  lemma FireSplit(rule: Rule, c: Corpus, src: Source, emit: Emit, cases: seq<CaseInfo>)
    requires WellFormed(rule)
    ensures Sum(cases, CaseFire(rule, c, emit)) ==
      Sum(cases, AnchoredFire(rule, c, src, emit)) + Sum(cases, UnanchoredFire(rule, c, src, emit))
  {
    SumPlus(cases, AnchoredFire(rule, c, src, emit), UnanchoredFire(rule, c, src, emit), CaseFire(rule, c, emit));
  }

  lemma KeysSplit(keys: seq<Record>, g: Record -> multiset<Claim>)
    ensures Sum(keys, g) == Sum(keys, KeyedBag(g)) + Sum(keys, UnkeyedBag(g))
  {
    SumPlus(keys, KeyedBag(g), UnkeyedBag(g), g);
  }

  lemma BagsCombine<T>(fire: multiset<T>, both: multiset<T>, left: multiset<T>, all: multiset<T>, right: multiset<T>)
    requires fire == both + left && all == both + right
    ensures fire + right == all + left
  {}

  lemma EmitParts(rule: Rule, c: Corpus, src: Source, cte: Cte, emit: Emit, q: Query, results: map<string, seq<Record>>)
    requires WellFormed(rule)
    requires cte.groupBy == FlatNames(src.groupBy) && q.anchor in results &&
      results[q.anchor] == EvalCte(cte, c.table, c.eng)
    requires Sum(RuleCases(rule, c), AnchoredFire(rule, c, src, emit)) ==
      Sum(AnchorKeys(c, src, cte), KeyedBag(KeyBagOf(rule, c, cte, emit.emits, q, results)))
    ensures Sum(RuleCases(rule, c), CaseFire(rule, c, emit)) +
        Sum(AnchorKeys(c, src, cte), UnkeyedBag(KeyBagOf(rule, c, cte, emit.emits, q, results))) ==
      Bag(QueryClaims(rule, emit.emits, q, results, c.eng)) +
        Sum(RuleCases(rule, c), UnanchoredFire(rule, c, src, emit))
  {
    var g := KeyBagOf(rule, c, cte, emit.emits, q, results);
    AnchorGroupSum(rule, c, src, cte, emit.emits, q, results);
    FireSplit(rule, c, src, emit, RuleCases(rule, c));
    KeysSplit(AnchorKeys(c, src, cte), g);
    BagsCombine(Sum(RuleCases(rule, c), CaseFire(rule, c, emit)),
      Sum(RuleCases(rule, c), AnchoredFire(rule, c, src, emit)),
      Sum(RuleCases(rule, c), UnanchoredFire(rule, c, src, emit)), Sum(AnchorKeys(c, src, cte), g),
      Sum(AnchorKeys(c, src, cte), UnkeyedBag(g)));
  }

  /** One emit clause: apart from cases without an anchor match and groups without a key, the claims are the same. */
  lemma EmitEquivalence(rule: Rule, c: Corpus, anchor: string, ctes: map<string, Cte>, emit: Emit, q: Query)
    requires RuleOk(rule, c, anchor) && CompileSources(map[], rule.names, rule.sources, c.fsql) == Ok(ctes)
    requires forall ci :: ci in RuleCases(rule, c) ==> CaseClaims(rule, c.events, ci.values, c.funcs).Ok?
    requires emit in rule.emits && CompileEmit(rule, emit, anchor, c.fsql) == Ok(q)
    ensures anchor in ctes && anchor in rule.sources
    ensures Sum(RuleCases(rule, c), CaseFire(rule, c, emit)) +
        Sum(AnchorKeys(c, rule.sources[anchor], ctes[anchor]),
            UnkeyedBag(KeyBagOf(rule, c, ctes[anchor], emit.emits, q, Results(ctes, c.table, c.eng)))) ==
      Bag(QueryClaims(rule, emit.emits, q, Results(ctes, c.table, c.eng), c.eng)) +
        Sum(RuleCases(rule, c), UnanchoredFire(rule, c, rule.sources[anchor], emit))
  {
    CasesMatchGroups(rule, c, anchor, ctes, emit, q);
    AnchorResults(rule, c, anchor, ctes, emit, q);
    EmitParts(rule, c, rule.sources[anchor], ctes[anchor], emit, q, Results(ctes, c.table, c.eng));
  }

  ghost function FireGrid(rule: Rule, c: Corpus): (CaseInfo, Emit) -> multiset<Claim>
    requires WellFormed(rule)
  {
    (ci: CaseInfo, e: Emit) => FireBag(rule, c, ci.values, e)
  }

  ghost function EmitSum(rule: Rule, c: Corpus, cases: seq<CaseInfo>): Emit -> multiset<Claim>
    requires WellFormed(rule)
  {
    (e: Emit) => Sum(cases, CaseFire(rule, c, e))
  }

  /** What the emit clauses of a list fire over all cases. */
  ghost function FiredBy(rule: Rule, c: Corpus, emits: seq<Emit>): multiset<Claim>
    requires WellFormed(rule)
  {
    Sum(emits, EmitSum(rule, c, RuleCases(rule, c)))
  }

  lemma SumByEmit(rule: Rule, c: Corpus, cases: seq<CaseInfo>)
    requires WellFormed(rule)
    ensures Sum(cases, CaseBag(rule, c)) == Sum(rule.emits, EmitSum(rule, c, cases))
  {
    var f := FireGrid(rule, c);
    SumSwap(cases, rule.emits, f);
    forall ci: CaseInfo ensures CaseBag(rule, c)(ci) == RowSum(rule.emits, f)(ci) {
      SumEqual(rule.emits, rule.emits, FireOf(rule, c, ci.values), GridRow(f, ci));
    }
    SumEqual(cases, cases, CaseBag(rule, c), RowSum(rule.emits, f));
    forall e: Emit ensures EmitSum(rule, c, cases)(e) == ColumnSum(cases, f)(e) {
      SumEqual(cases, cases, CaseFire(rule, c, e), GridColumn(f, e));
    }
    SumEqual(rule.emits, rule.emits, EmitSum(rule, c, cases), ColumnSum(cases, f));
  }

  lemma StreamedByEmit(rule: Rule, c: Corpus, streamed: seq<Claim>)
    requires WellFormed(rule) && Streaming(rule, c.events, c.funcs) == Ok(streamed)
    ensures Bag(streamed) == FiredBy(rule, c, rule.emits)
    ensures forall ci :: ci in RuleCases(rule, c) ==> CaseClaims(rule, c.events, ci.values, c.funcs).Ok?
  {
    StreamSum(rule, c, RuleCases(rule, c));
    SumByEmit(rule, c, RuleCases(rule, c));
  }

  lemma QueriedByEmit(rule: Rule, c: Corpus, compiled: Compiled, columns: set<string>, queried: seq<Claim>)
    requires WellFormed(rule) && CompileRule(rule, c.fsql) == Ok(compiled)
    requires RunTable(rule, c.table, columns, c.fsql, c.eng) == Ok(queried)
    ensures Bag(queried) == Sum(rule.emits, QueryBag(rule, compiled, Results(compiled.ctes, c.table, c.eng), c.eng))
  {
    RunSum(rule, rule.emits, compiled, Results(compiled.ctes, c.table, c.eng), columns, c.eng);
  }

  lemma SumsBalance<T, C>(xs: seq<T>, ys: seq<T>, a: T -> multiset<C>, b: T -> multiset<C>, d: T -> multiset<C>,
      e: T -> multiset<C>)
    requires |xs| == |ys| && forall i :: 0 <= i < |xs| ==> a(ys[i]) + b(xs[i]) == d(xs[i]) + e(ys[i])
    ensures Sum(ys, a) + Sum(xs, b) == Sum(xs, d) + Sum(ys, e)
    decreases |xs|
  {
    if xs != [] {
      var n := |xs| - 1;
      SumsBalance(xs[..n], ys[..n], a, b, d, e);
      BalancesAdd(Sum(ys[..n], a), Sum(xs[..n], b), Sum(xs[..n], d), Sum(ys[..n], e), a(ys[n]), b(xs[n]), d(xs[n]),
        e(ys[n]));
    }
  }

  lemma BalancesAdd<T>(a: multiset<T>, b: multiset<T>, d: multiset<T>, e: multiset<T>,
                       a1: multiset<T>, b1: multiset<T>, d1: multiset<T>, e1: multiset<T>)
    requires a + b == d + e && a1 + b1 == d1 + e1
    ensures (a + a1) + (b + b1) == (d + d1) + (e + e1)
  {
    forall x ensures (a + a1 + (b + b1))[x] == (d + d1 + (e + e1))[x] {
      assert (a + b)[x] == (d + e)[x] && (a1 + b1)[x] == (d1 + e1)[x];
    }
  }

  lemma EmitBalances(rule: Rule, c: Corpus, anchor: string, compiled: Compiled, i: nat)
    requires RuleOk(rule, c, anchor) && CompileRule(rule, c.fsql) == Ok(compiled) && i < |rule.emits|
    requires forall ci :: ci in RuleCases(rule, c) ==> CaseClaims(rule, c.events, ci.values, c.funcs).Ok?
    ensures anchor in compiled.ctes && anchor in rule.sources
    ensures var e, kept := rule.emits[i], Kept(rule.emits)[i];
      EmitSum(rule, c, RuleCases(rule, c))(kept) +
        UnkeyedEmit(rule, c, rule.sources[anchor], compiled.ctes[anchor], compiled)(e) ==
      QueryBag(rule, compiled, Results(compiled.ctes, c.table, c.eng), c.eng)(e) +
        UnanchoredEmit(rule, c, rule.sources[anchor])(kept)
  {
    var k := LastIndex(rule.emits, i);
    LastEmitWins(map[], rule, rule.emits, anchor, c.fsql, k);
    EmitEquivalence(rule, c, anchor, compiled.ctes, rule.emits[k], compiled.queries[rule.emits[k].emits]);
  }

  lemma EmitsBalance(rule: Rule, c: Corpus, anchor: string, compiled: Compiled)
    requires RuleOk(rule, c, anchor) && CompileRule(rule, c.fsql) == Ok(compiled)
    requires forall ci :: ci in RuleCases(rule, c) ==> CaseClaims(rule, c.events, ci.values, c.funcs).Ok?
    ensures anchor in compiled.ctes && anchor in rule.sources
    ensures FiredBy(rule, c, Kept(rule.emits)) + UnkeyedClaims(rule, c, anchor, compiled) ==
      Sum(rule.emits, QueryBag(rule, compiled, Results(compiled.ctes, c.table, c.eng), c.eng)) +
        UnanchoredClaims(rule, c, anchor)
  {
    RuleFacts(rule, c, anchor, compiled.ctes);
    var a, d := EmitSum(rule, c, RuleCases(rule, c)),
      QueryBag(rule, compiled, Results(compiled.ctes, c.table, c.eng), c.eng);
    var b, e := UnkeyedEmit(rule, c, rule.sources[anchor], compiled.ctes[anchor], compiled),
      UnanchoredEmit(rule, c, rule.sources[anchor]);
    forall i | 0 <= i < |rule.emits|
      ensures a(Kept(rule.emits)[i]) + b(rule.emits[i]) == d(rule.emits[i]) + e(Kept(rule.emits)[i])
    {
      EmitBalances(rule, c, anchor, compiled, i);
    }
    SumsBalance(rule.emits, Kept(rule.emits), a, b, d, e);
  }

  /**
   Rule compilation preserves meaning: whenever both paths succeed on a corpus within the conditions, the queries make
   the claims that the kept emit clauses fire in the streaming evaluator, counted with multiplicity, but for two kinds
   only one side can make: the evaluator's about cases whose anchor matched nothing, and the queries' about anchor
   matches that lack a case field.
   */
  lemma ClaimsBalance(rule: Rule, c: Corpus, anchor: string, columns: set<string>, streamed: seq<Claim>,
      queried: seq<Claim>)
    requires RuleOk(rule, c, anchor)
    requires Streaming(rule, c.events, c.funcs) == Ok(streamed)
    requires RunTable(rule, c.table, columns, c.fsql, c.eng) == Ok(queried)
    ensures CompileRule(rule, c.fsql).Ok? && anchor in CompileRule(rule, c.fsql).value.ctes && anchor in rule.sources
    ensures Bag(streamed) == FiredBy(rule, c, rule.emits)
    ensures FiredBy(rule, c, Kept(rule.emits)) + UnkeyedClaims(rule, c, anchor, CompileRule(rule, c.fsql).value) ==
      Bag(queried) + UnanchoredClaims(rule, c, anchor)
  {
    var compiled := CompileRule(rule, c.fsql).value;
    StreamedByEmit(rule, c, streamed);
    QueriedByEmit(rule, c, compiled, columns, queried);
    EmitsBalance(rule, c, anchor, compiled);
  }

  // ----- when the one-sided claims are none -----

  /** Every event the anchor may match carries all case fields. */
  ghost predicate AnchorComplete(c: Corpus, anchor: Source) {
    forall e :: e in c.events && EvalBool(anchor.where, EventContext(e, c.funcs)) != Ok(false) ==>
      CaseOf(e, anchor.groupBy).Some?
  }

  /** No case without an anchor match fires. */
  ghost predicate QuietUnanchored(rule: Rule, c: Corpus, anchor: Source)
    requires WellFormed(rule)
  {
    forall ci :: ci in RuleCases(rule, c) && !IsLive(c, anchor)(ci) ==>
      CaseClaims(rule, c.events, ci.values, c.funcs) == Ok([])
  }

  lemma AdmittedEvent(c: Corpus, src: Source, where: SqlExpr, i: nat)
    requires CorpusOk(c) && SourceOk(c, src) && ToSQL(src.where, EventTarget("", c.fsql)) == Ok(where)
    requires i < |c.table| && Admits(where, "", c.eng)(c.table[i])
    ensures i < |c.events| && EvalBool(src.where, EventContext(c.events[i], c.funcs)) != Ok(false)
  {
    assert RecordOf(c.events[i], c.table[i]) && c.events[i] in c.events;
    if EvalBool(src.where, EventContext(c.events[i], c.funcs)).Ok? {
      WherePreserved(c.events[i], c.table[i], "", src, c.funcs, c.fsql, c.calls, c.eng);
    }
  }

  lemma CompleteMeansKeyed(rule: Rule, c: Corpus, anchor: string, cte: Cte, key: Record)
    requires AnchorReady(rule, c, anchor, cte) && AnchorComplete(c, rule.sources[anchor])
    requires key in AnchorKeys(c, rule.sources[anchor], cte)
    ensures Keyed(key)
  {
    var src := rule.sources[anchor];
    var i := GroupRowBehind(c.table, Admits(cte.where, "", c.eng), FlatNames(src.groupBy), key);
    AdmittedEvent(c, src, cte.where, i);
    assert c.events[i] in c.events;
    KeyedFields(c, src, i, key);
  }

  lemma NoUnkeyed(rule: Rule, c: Corpus, anchor: string, compiled: Compiled)
    requires anchor in compiled.ctes && AnchorReady(rule, c, anchor, compiled.ctes[anchor]) &&
      AnchorComplete(c, rule.sources[anchor])
    ensures UnkeyedClaims(rule, c, anchor, compiled) == multiset{}
  {
    var src, cte := rule.sources[anchor], compiled.ctes[anchor];
    forall key | key in AnchorKeys(c, src, cte) ensures Keyed(key) { CompleteMeansKeyed(rule, c, anchor, cte, key); }
    forall e: Emit ensures UnkeyedEmit(rule, c, src, cte, compiled)(e) == multiset{} {
      if e.emits in compiled.queries {
        SumEmpty(AnchorKeys(c, src, cte),
          UnkeyedBag(KeyBagOf(rule, c, cte, e.emits, compiled.queries[e.emits],
            Results(compiled.ctes, c.table, c.eng))));
      }
    }
    SumEmpty(rule.emits, UnkeyedEmit(rule, c, src, cte, compiled));
  }

  lemma {:induction false} EmptySumParts<T, C>(xs: seq<T>, f: T -> multiset<C>, x: T)
    requires Sum(xs, f) == multiset{} && x in xs
    ensures f(x) == multiset{}
  {
    var n := |xs| - 1;
    assert |Sum(xs, f)| == |Sum(xs[..n], f)| + |f(xs[n])|;
    if x != xs[n] { EmptySumParts(xs[..n], f, x); }
  }

  lemma QuietFire(rule: Rule, c: Corpus, ci: CaseInfo, emit: Emit)
    requires WellFormed(rule) && CaseClaims(rule, c.events, ci.values, c.funcs) == Ok([]) && emit in rule.emits
    ensures FireBag(rule, c, ci.values, emit) == multiset{}
  {
    CaseSum(rule, c, ci.values);
    EmptySumParts(rule.emits, FireOf(rule, c, ci.values), emit);
  }

  lemma NoUnanchored(rule: Rule, c: Corpus, anchor: string)
    requires WellFormed(rule) && anchor in rule.sources && QuietUnanchored(rule, c, rule.sources[anchor])
    ensures UnanchoredClaims(rule, c, anchor) == multiset{}
  {
    var src := rule.sources[anchor];
    forall e | e in Kept(rule.emits) ensures UnanchoredEmit(rule, c, src)(e) == multiset{} {
      forall ci | ci in RuleCases(rule, c) ensures UnanchoredFire(rule, c, src, e)(ci) == multiset{} {
        if !IsLive(c, src)(ci) { QuietFire(rule, c, ci, e); }
      }
      SumEmpty(RuleCases(rule, c), UnanchoredFire(rule, c, src, e));
    }
    SumEmpty(Kept(rule.emits), UnanchoredEmit(rule, c, src));
  }

  lemma NoOneSided(rule: Rule, c: Corpus, anchor: string, compiled: Compiled)
    requires RuleOk(rule, c, anchor) && CompileRule(rule, c.fsql) == Ok(compiled)
    requires anchor in compiled.ctes && anchor in rule.sources
    requires AnchorComplete(c, rule.sources[anchor]) && QuietUnanchored(rule, c, rule.sources[anchor])
    ensures UnkeyedClaims(rule, c, anchor, compiled) == multiset{} && UnanchoredClaims(rule, c, anchor) == multiset{}
  {
    RuleFacts(rule, c, anchor, compiled.ctes);
    NoUnkeyed(rule, c, anchor, compiled);
    NoUnanchored(rule, c, anchor);
  }

  /**
   The two paths agree exactly when what each makes alone cancels out; so they do when no two emit clauses share a
   predicate, every anchor match carries the case fields and no case without an anchor match fires.
   */
  lemma RuleEquivalence(rule: Rule, c: Corpus, anchor: string, columns: set<string>, streamed: seq<Claim>,
      queried: seq<Claim>)
    requires RuleOk(rule, c, anchor)
    requires Streaming(rule, c.events, c.funcs) == Ok(streamed)
    requires RunTable(rule, c.table, columns, c.fsql, c.eng) == Ok(queried)
    ensures CompileRule(rule, c.fsql).Ok? && anchor in CompileRule(rule, c.fsql).value.ctes && anchor in rule.sources
    ensures Bag(streamed) == Bag(queried) <==>
      FiredBy(rule, c, rule.emits) + UnanchoredClaims(rule, c, anchor) ==
        FiredBy(rule, c, Kept(rule.emits)) + UnkeyedClaims(rule, c, anchor, CompileRule(rule, c.fsql).value)
    ensures AnchorComplete(c, rule.sources[anchor]) && QuietUnanchored(rule, c, rule.sources[anchor]) ==>
      (Bag(streamed) == Bag(queried) <==> FiredBy(rule, c, rule.emits) == FiredBy(rule, c, Kept(rule.emits)))
    ensures DistinctEmits(rule.emits) ==>
      AnchorComplete(c, rule.sources[anchor]) && QuietUnanchored(rule, c, rule.sources[anchor]) ==>
        Bag(streamed) == Bag(queried)
  {
    var compiled := CompileRule(rule, c.fsql).value;
    ClaimsBalance(rule, c, anchor, columns, streamed, queried);
    Balances(Bag(streamed), FiredBy(rule, c, Kept(rule.emits)), Bag(queried), UnanchoredClaims(rule, c, anchor),
      UnkeyedClaims(rule, c, anchor, compiled));
    if AnchorComplete(c, rule.sources[anchor]) && QuietUnanchored(rule, c, rule.sources[anchor]) {
      NoOneSided(rule, c, anchor, compiled);
    }
    if DistinctEmits(rule.emits) { DistinctAllKept(rule.emits); }
  }

  lemma Balances<T>(s: multiset<T>, kept: multiset<T>, q: multiset<T>, u: multiset<T>, k: multiset<T>)
    requires kept + k == q + u
    ensures s == q <==> s + u == kept + k
    ensures u == multiset{} && k == multiset{} ==> (s == q <==> s == kept)
  {
    if s + u == q + u { assert forall x :: s[x] == (s + u)[x] - u[x] && q[x] == (q + u)[x] - u[x]; }
  }

  /** The conditions of the theorem, whatever row order or column layout loading the events produces. */
  ghost predicate RuleOkOn(rule: Rule, events: seq<Event>, funcs: Funcs, fsql: FuncsSQL,
      calls: (string, seq<Node>) -> bool, eng: Engine, anchor: string) {
    forall table :: TableOf(events, table) ==>
      && RuleOk(rule, Corpus(events, table, funcs, fsql, calls, eng), anchor) && DistinctEmits(rule.emits)
      && AnchorComplete(Corpus(events, table, funcs, fsql, calls, eng), rule.sources[anchor])
      && QuietUnanchored(rule, Corpus(events, table, funcs, fsql, calls, eng), rule.sources[anchor])
  }

  /** The equivalence gate: runs both paths over one corpus; when both succeed they agree. */
  method RunEquivalence(rule: Rule, events: seq<Event>, funcs: Funcs, fsql: FuncsSQL,
      ghost calls: (string, seq<Node>) -> bool, eng: Engine,
                        ghost anchor: string)
    returns (streamed: Result<seq<Claim>>, queried: Result<seq<Claim>>)
    requires WellFormed(rule) && TrackedAliasesDistinct(rule) && RuleOkOn(rule, events, funcs, fsql, calls, eng, anchor)
    ensures streamed == Streaming(rule, events, funcs)
    ensures streamed.Ok? && queried.Ok? ==> Bag(streamed.value) == Bag(queried.value)
  {
    streamed := EvaluateStreaming(rule, events, funcs);
    queried := RunSQL(rule, events, fsql, eng);
    if streamed.Ok? && queried.Ok? {
      ghost var table, columns :| TableOf(events, table) && queried == RunTable(rule, table, columns, fsql, eng);
      RuleEquivalence(rule, Corpus(events, table, funcs, fsql, calls, eng), anchor, columns, streamed.value,
        queried.value);
    }
  }
}
