/**
 Retroactive repricing of a case from indicator matches (services/adjudicate/attesta_adjudicate/rvd.py,
 indicator_corpus.py).
 */
module Repricing {
  import opened Common
  import opened Seqs
  import opened Bytes
  import opened Claims
  import opened Kernel
  import opened KernelProofs

  datatype Indicator = Indicator(predicateName: Str, value: Str, weight: Int64, techniques: seq<Str>)

  datatype Match = Match(claimId: Digest, claim: Claim, indicator: Indicator)

  datatype Override = Override(weight: Int64, techniques: seq<Str>)

  // ----- matching -----

  predicate Fits(i: Indicator, c: Claim) { c.obj.Some? && i.predicateName == c.predicateName && i.value == c.obj.value }

  /** The first entry that fits. */
  function FirstFit(corpus: seq<Indicator>, c: Claim): (r: Option<Indicator>)
    ensures r.Some? ==> r.value in corpus && Fits(r.value, c)
  {
    if corpus == [] then None else if Fits(corpus[0], c) then Some(corpus[0]) else FirstFit(corpus[1..], c)
  }

  /** The entry names the claim's predicate and object. */
  predicate NamedBy(i: Indicator, c: Claim) { i.predicateName == c.predicateName && Some(i.value) == c.obj }

  predicate FirstAt(corpus: seq<Indicator>, c: Claim, i: int) {
    0 <= i < |corpus| && NamedBy(corpus[i], c) && forall j :: 0 <= j < i ==> !NamedBy(corpus[j], c)
  }

  method MatchClaim(corpus: seq<Indicator>, c: Claim) returns (r: Option<Indicator>)
    ensures r == FirstFit(corpus, c)
    ensures r.Some? ==> exists i :: FirstAt(corpus, c, i) && corpus[i] == r.value
    ensures r.None? ==> forall i :: 0 <= i < |corpus| ==> !NamedBy(corpus[i], c)
  {
    if c.obj.None? {
      NoObjectNoFit(corpus, c);
      return None;
    }
    for i := 0 to |corpus|
      invariant FirstFit(corpus, c) == FirstFit(corpus[i..], c)
      invariant forall j :: 0 <= j < i ==> !NamedBy(corpus[j], c)
    {
      if corpus[i].predicateName == c.predicateName && corpus[i].value == c.obj.value {
        assert FirstAt(corpus, c, i);
        return Some(corpus[i]);
      }
    }
    return None;
  }

  lemma {:induction false} NoObjectNoFit(corpus: seq<Indicator>, c: Claim)
    requires c.obj.None?
    ensures FirstFit(corpus, c) == None
  {
    if corpus != [] { NoObjectNoFit(corpus[1..], c); }
  }

  // ----- what the scan over the claims collects -----

  /** The claims and ids are walked in step, to the shorter's end. */
  function Paired(cs: seq<Claim>, ids: seq<Digest>): nat { if |cs| < |ids| then |cs| else |ids| }

  function MatchesOf(cs: seq<Claim>, ids: seq<Digest>, corpus: seq<Indicator>, n: nat): seq<Match>
    requires n <= |cs| && n <= |ids|
  {
    if n == 0 then []
    else
      MatchesOf(cs, ids, corpus, n - 1) +
      match FirstFit(corpus, cs[n - 1]) case None => [] case Some(i) => [Match(ids[n - 1], cs[n - 1], i)]
  }

  lemma {:induction false} FirstFitIsFirst(corpus: seq<Indicator>, c: Claim) returns (i: nat)
    ensures FirstFit(corpus, c).Some? ==> FirstAt(corpus, c, i) && FirstFit(corpus, c) == Some(corpus[i])
    ensures FirstFit(corpus, c).None? ==> forall j :: 0 <= j < |corpus| ==> !NamedBy(corpus[j], c)
  {
    i := 0;
    if corpus != [] && !Fits(corpus[0], c) {
      var k := FirstFitIsFirst(corpus[1..], c);
      i := k + 1;
    }
  }

  /** The match of claim k: its id and the first entry it names. */
  ghost predicate MatchAt(m: Match, cs: seq<Claim>, ids: seq<Digest>, corpus: seq<Indicator>, k: nat) {
    k < |cs| && k < |ids| && m.claimId == ids[k] && m.claim == cs[k] &&
    exists j :: FirstAt(corpus, cs[k], j) && corpus[j] == m.indicator
  }

  predicate Unmatched(cs: seq<Claim>, corpus: seq<Indicator>, k: nat) {
    k < |cs| && forall j :: 0 <= j < |corpus| ==> !NamedBy(corpus[j], cs[k])
  }

  /** The matches are those of the claims that name some entry, in claim order. */
  lemma {:induction false} MatchesListed(cs: seq<Claim>, ids: seq<Digest>, corpus: seq<Indicator>, n: nat)
      returns (at: seq<nat>)
    requires n <= |cs| && n <= |ids|
    ensures var ms := MatchesOf(cs, ids, corpus, n);
      |at| == |ms| && forall i :: 0 <= i < |at| ==> MatchAt(ms[i], cs, ids, corpus, at[i])
    ensures Ascends(at) && (forall i :: 0 <= i < |at| ==> at[i] < n)
    ensures forall k :: 0 <= k < n ==> k in at || Unmatched(cs, corpus, k)
  {
    at := [];
    if n > 0 {
      at := MatchesListed(cs, ids, corpus, n - 1);
      var j := FirstFitIsFirst(corpus, cs[n - 1]);
      if FirstFit(corpus, cs[n - 1]).Some? {
        var m := Match(ids[n - 1], cs[n - 1], corpus[j]);
        assert MatchAt(m, cs, ids, corpus, n - 1);
        OneMoreAt(at, n - 1);
        at := at + [n - 1];
      } else {
        assert Unmatched(cs, corpus, n - 1);
      }
    }
  }

  /** `ms` are the matches of all claims that have an id, `at` their positions. */
  ghost predicate AllMatches(ms: seq<Match>, at: seq<nat>, cs: seq<Claim>, ids: seq<Digest>, corpus: seq<Indicator>) {
    && |at| == |ms| && Ascends(at)
    && (forall i :: 0 <= i < |at| ==> MatchAt(ms[i], cs, ids, corpus, at[i]))
    && (forall k :: 0 <= k < |cs| && k < |ids| ==> k in at || Unmatched(cs, corpus, k))
  }

  lemma MatchesComplete(cs: seq<Claim>, ids: seq<Digest>, corpus: seq<Indicator>) returns (at: seq<nat>)
    ensures AllMatches(MatchesOf(cs, ids, corpus, Paired(cs, ids)), at, cs, ids, corpus)
  {
    at := MatchesListed(cs, ids, corpus, Paired(cs, ids));
  }

  lemma OneMoreAt(at: seq<nat>, k: nat)
    requires Ascends(at) && forall i :: 0 <= i < |at| ==> at[i] < k
    ensures Ascends(at + [k]) && (forall x :: x in at ==> x in at + [k]) && k in at + [k]
  {}

  predicate Disagree(a: Match, b: Match) {
    a.indicator.predicateName == b.indicator.predicateName && a.indicator.weight != b.indicator.weight
  }

  /** Two matches price one predicate differently. */
  predicate Conflicting(ms: seq<Match>) { exists i, j :: 0 <= i < j < |ms| && Disagree(ms[i], ms[j]) }

  /** The last match for a predicate decides. */
  function OverridesOf(ms: seq<Match>): map<Str, Override> {
    if ms == [] then map[]
    else
      var n := |ms| - 1;
      OverridesOf(ms[..n])[ms[n].indicator.predicateName :=
        Override(ms[n].indicator.weight, ms[n].indicator.techniques)]
  }

  function Repriced(was: PredicateWeight, o: Override): PredicateWeight {
    PredicateWeight(was.tactic, o.weight, if o.techniques != [] then o.techniques else was.techniques)
  }

  function Augment(base: PolicyBundle, os: map<Str, Override>): PolicyBundle {
    base.(weights := map k | k in base.weights :: if k in os then Repriced(base.weights[k], os[k]) else base.weights[k])
  }

  predicate Priced(base: PolicyBundle, ms: seq<Match>) {
    forall m :: m in ms ==> m.indicator.predicateName in base.weights
  }

  lemma {:induction false} OverriddenKeys(ms: seq<Match>)
    ensures forall k :: k in OverridesOf(ms) <==> exists m :: m in ms && m.indicator.predicateName == k
  {
    if ms != [] {
      var n := |ms| - 1;
      assert ms == ms[..n] + [ms[n]];
      OverriddenKeys(ms[..n]);
    }
  }

  lemma {:induction false} OverriddenWeight(ms: seq<Match>, m: Match)
    requires !Conflicting(ms) && m in ms
    ensures m.indicator.predicateName in OverridesOf(ms) &&
      OverridesOf(ms)[m.indicator.predicateName].weight == m.indicator.weight
  {
    var n := |ms| - 1;
    var i :| 0 <= i < |ms| && ms[i] == m;
    if i < n {
      assert !Disagree(ms[i], ms[n]);
      StillConflicting(ms, n);
      assert ms[..n][i] == m;
      OverriddenWeight(ms[..n], m);
    }
  }

  /** The override for a predicate comes from some match. */
  lemma {:induction false} OverrideSource(ms: seq<Match>, k: Str) returns (m: Match)
    requires k in OverridesOf(ms)
    ensures m in ms && m.indicator.predicateName == k &&
      OverridesOf(ms)[k] == Override(m.indicator.weight, m.indicator.techniques)
  {
    var n := |ms| - 1;
    if ms[n].indicator.predicateName == k {
      m := ms[n];
    } else {
      m := OverrideSource(ms[..n], k);
    }
  }

  /** Checking a new match against the overrides is checking it against all earlier matches. */
  lemma OverridesDecide(ms: seq<Match>, m: Match)
    requires !Conflicting(ms)
    ensures var k := m.indicator.predicateName;
      Conflicting(ms + [m]) <==> k in OverridesOf(ms) && OverridesOf(ms)[k].weight != m.indicator.weight
  {
    ConflictsAtEnd(ms, m);
    var k := m.indicator.predicateName;
    if k in OverridesOf(ms) && OverridesOf(ms)[k].weight != m.indicator.weight {
      var e := OverrideSource(ms, k);
      assert Disagree(e, m);
    }
    if e :| e in ms && Disagree(e, m) { OverriddenWeight(ms, e); }
  }

  lemma StillConflicting(ms: seq<Match>, n: nat)
    requires n <= |ms|
    ensures Conflicting(ms[..n]) ==> Conflicting(ms)
  {
    if Conflicting(ms[..n]) {
      var i, j :| 0 <= i < j < n && Disagree(ms[..n][i], ms[..n][j]);
      assert Disagree(ms[i], ms[j]);
    }
  }

  lemma ConflictsAtEnd(ms: seq<Match>, m: Match)
    ensures Conflicting(ms + [m]) <==> Conflicting(ms) || exists k :: k in ms && Disagree(k, m)
  {
    var more := ms + [m];
    assert more[..|ms|] == ms;
    StillConflicting(more, |ms|);
    if k :| k in ms && Disagree(k, m) {
      var i :| 0 <= i < |ms| && ms[i] == k;
      assert Disagree(more[i], more[|ms|]);
    }
    if Conflicting(more) {
      var i, j :| 0 <= i < j < |more| && Disagree(more[i], more[j]);
      if j < |ms| { assert Disagree(ms[i], ms[j]); } else { assert more[i] in ms; }
    }
  }

  lemma {:induction false} MatchesPrefix(cs: seq<Claim>, ids: seq<Digest>, corpus: seq<Indicator>, n: nat, m: nat)
    requires n <= m <= Paired(cs, ids)
    ensures MatchesOf(cs, ids, corpus, n) <= MatchesOf(cs, ids, corpus, m)
  {
    if n < m { MatchesPrefix(cs, ids, corpus, n, m - 1); }
  }

  // ----- build_augmented_policy -----

  lemma PricedKeys(base: PolicyBundle, ms: seq<Match>)
    ensures Priced(base, ms) <==> OverridesOf(ms).Keys <= base.weights.Keys
  {
    OverriddenKeys(ms);
    if Priced(base, ms) {
      forall k | k in OverridesOf(ms) ensures k in base.weights {
        var m :| m in ms && m.indicator.predicateName == k;
      }
    }
    if OverridesOf(ms).Keys <= base.weights.Keys {
      forall m | m in ms ensures m.indicator.predicateName in base.weights {
        assert m.indicator.predicateName in OverridesOf(ms).Keys;
      }
    }
  }

  predicate LastFor(ms: seq<Match>, i: int) {
    0 <= i < |ms| && forall j :: i < j < |ms| ==> ms[j].indicator.predicateName != ms[i].indicator.predicateName
  }

  lemma {:induction false} LastOverrides(ms: seq<Match>, i: nat)
    requires LastFor(ms, i)
    ensures ms[i].indicator.predicateName in OverridesOf(ms)
    ensures OverridesOf(ms)[ms[i].indicator.predicateName] ==
      Override(ms[i].indicator.weight, ms[i].indicator.techniques)
  {
    var n := |ms| - 1;
    if i < n { LastOverrides(ms[..n], i); }
  }

  /**
   Matched predicates have their indicator's weight and the techniques of their last match, unless it names none; all
   else is the base policy's.
   */
  ghost predicate Reprices(base: PolicyBundle, ms: seq<Match>, q: PolicyBundle) {
    && q.(weights := base.weights) == base && q.weights.Keys == base.weights.Keys
    && (forall k :: k in base.weights ==> q.weights[k].tactic == base.weights[k].tactic)
    && (forall k :: k in base.weights && (forall m :: m in ms ==> m.indicator.predicateName != k) ==>
          q.weights[k] == base.weights[k])
    && (forall m :: m in ms ==> WeightIs(q, m.indicator.predicateName, m.indicator.weight))
    && (forall i :: LastFor(ms, i) ==>
      TechniquesAre(base, q, ms[i].indicator.predicateName, ms[i].indicator.techniques))
  }

  predicate WeightIs(q: PolicyBundle, k: Str, weight: Int64) { k in q.weights && q.weights[k].weight == weight }

  predicate TechniquesAre(base: PolicyBundle, q: PolicyBundle, k: Str, techniques: seq<Str>) {
    k in base.weights && k in q.weights &&
    q.weights[k].techniques == if techniques != [] then techniques else base.weights[k].techniques
  }

  lemma AugmentReprices(base: PolicyBundle, ms: seq<Match>)
    requires !Conflicting(ms) && Priced(base, ms)
    ensures Reprices(base, ms, Augment(base, OverridesOf(ms)))
  {
    var q := Augment(base, OverridesOf(ms));
    OverriddenKeys(ms);
    forall m | m in ms ensures WeightIs(q, m.indicator.predicateName, m.indicator.weight) {
      OverriddenWeight(ms, m);
    }
    forall i | LastFor(ms, i)
      ensures TechniquesAre(base, q, ms[i].indicator.predicateName, ms[i].indicator.techniques)
    {
      LastOverrides(ms, i);
      assert ms[i] in ms;
    }
  }

  /** What the scan has collected from the first n claims. */
  ghost predicate Collected(cs: seq<Claim>, ids: seq<Digest>, corpus: seq<Indicator>, n: int,
      overrides: map<Str, Override>, matches: seq<Match>) {
    0 <= n <= Paired(cs, ids) && matches == MatchesOf(cs, ids, corpus, n) && overrides == OverridesOf(matches) &&
    !Conflicting(matches)
  }

  /** The next match either conflicts, and then so do all of them, or its override is added. */
  lemma CollectedMore(cs: seq<Claim>, ids: seq<Digest>, corpus: seq<Indicator>, n: nat, overrides: map<Str, Override>,
      matches: seq<Match>, entry: Indicator)
    requires Collected(cs, ids, corpus, n, overrides, matches) && n < Paired(cs, ids)
    requires FirstFit(corpus, cs[n]) == Some(entry)
    ensures var name := entry.predicateName;
      if name in overrides && overrides[name].weight != entry.weight then
        Conflicting(MatchesOf(cs, ids, corpus, Paired(cs, ids)))
      else Collected(cs, ids, corpus, n + 1, overrides[name := Override(entry.weight, entry.techniques)],
        matches + [Match(ids[n], cs[n], entry)])
  {
    var m := Match(ids[n], cs[n], entry);
    OverridesDecide(matches, m);
    if entry.predicateName in overrides && overrides[entry.predicateName].weight != entry.weight {
      MatchesPrefix(cs, ids, corpus, n + 1, Paired(cs, ids));
      StillConflicting(MatchesOf(cs, ids, corpus, Paired(cs, ids)), |matches| + 1);
    } else {
      assert (matches + [m])[..|matches|] == matches;
    }
  }

  method CollectMatches(cs: seq<Claim>, ids: seq<Digest>, corpus: seq<Indicator>)
    returns (r: Result<(map<Str, Override>, seq<Match>)>)
    ensures var ms := MatchesOf(cs, ids, corpus, Paired(cs, ids));
      r == if Conflicting(ms) then Err else Ok((OverridesOf(ms), ms))
  {
    var matches: seq<Match> := [];
    var overrides: map<Str, Override> := map[];
    for n := 0 to Paired(cs, ids)
      invariant Collected(cs, ids, corpus, n, overrides, matches)
    {
      var found := MatchClaim(corpus, cs[n]);
      if found.None? { continue; }
      var entry := found.value;
      CollectedMore(cs, ids, corpus, n, overrides, matches, entry);
      if entry.predicateName in overrides && overrides[entry.predicateName].weight != entry.weight { return Err; }
      overrides := overrides[entry.predicateName := Override(entry.weight, entry.techniques)];
      matches := matches + [Match(ids[n], cs[n], entry)];
    }
    return Ok((overrides, matches));
  }

  /** The overrides are applied in any order. */
  method ApplyOverrides(base: PolicyBundle, overrides: map<Str, Override>) returns (r: Result<PolicyBundle>)
    ensures r == if overrides.Keys <= base.weights.Keys then Ok(Augment(base, overrides)) else Err
  {
    var weights := base.weights;
    var todo := overrides.Keys;
    while todo != {}
      invariant todo <= overrides.Keys && weights.Keys == base.weights.Keys
      invariant overrides.Keys - todo <= base.weights.Keys
      invariant forall k :: k in base.weights ==>
        weights[k] == if k in overrides && k !in todo then Repriced(base.weights[k], overrides[k]) else base.weights[k]
      decreases todo
    {
      var k :| k in todo;
      if k !in weights { return Err; }
      weights := weights[k := Repriced(base.weights[k], overrides[k])];
      todo := todo - {k};
    }
    assert weights == Augment(base, overrides).weights;
    return Ok(base.(weights := weights));
  }

  /** Two matches weigh one predicate differently, or the policy does not price the predicate of one. */
  predicate Fails(base: PolicyBundle, ms: seq<Match>) {
    || (exists i, j :: 0 <= i < j < |ms| &&
          ms[i].indicator.predicateName == ms[j].indicator.predicateName &&
          ms[i].indicator.weight != ms[j].indicator.weight)
    || (exists m :: m in ms && m.indicator.predicateName !in base.weights)
  }

  lemma FailsWhen(base: PolicyBundle, ms: seq<Match>)
    ensures Fails(base, ms) <==> Conflicting(ms) || !Priced(base, ms)
  {}

  /** The policy's answer to the matches, in their own terms. */
  ghost predicate Answers(base: PolicyBundle, ms: seq<Match>, r: Result<(PolicyBundle, seq<Match>)>) {
    match r
    case Err => Fails(base, ms)
    case Ok((policy, matches)) => !Fails(base, ms) && matches == ms && Reprices(base, ms, policy)
  }

  /** Its answer to the claims that match. */
  ghost predicate Answered(base: PolicyBundle, cs: seq<Claim>, ids: seq<Digest>, corpus: seq<Indicator>,
      r: Result<(PolicyBundle, seq<Match>)>) {
    exists ms, at :: AllMatches(ms, at, cs, ids, corpus) && Answers(base, ms, r)
  }

  function Augmented(base: PolicyBundle, ms: seq<Match>): Result<(PolicyBundle, seq<Match>)> {
    if Conflicting(ms) || !Priced(base, ms) then Err else Ok((Augment(base, OverridesOf(ms)), ms))
  }

  lemma AugmentedAnswers(base: PolicyBundle, cs: seq<Claim>, ids: seq<Digest>, corpus: seq<Indicator>)
    ensures Answered(base, cs, ids, corpus, Augmented(base, MatchesOf(cs, ids, corpus, Paired(cs, ids))))
  {
    var ms := MatchesOf(cs, ids, corpus, Paired(cs, ids));
    var at := MatchesComplete(cs, ids, corpus);
    FailsWhen(base, ms);
    if !Conflicting(ms) && Priced(base, ms) { AugmentReprices(base, ms); }
    assert AllMatches(ms, at, cs, ids, corpus) && Answers(base, ms, Augmented(base, ms));
  }

  /**
   * Fails exactly when two matches disagree on a predicate's weight or a matched predicate is unpriced;
   * without a match the base policy itself comes back, else only matched predicates change, tactics never.
   */
  method BuildAugmentedPolicy(base: PolicyBundle, cs: seq<Claim>, ids: seq<Digest>, corpus: seq<Indicator>)
    returns (r: Result<(PolicyBundle, seq<Match>)>)
    ensures r == Augmented(base, MatchesOf(cs, ids, corpus, Paired(cs, ids)))
    ensures Answered(base, cs, ids, corpus, r)
  {
    AugmentedAnswers(base, cs, ids, corpus);
    var collected := CollectMatches(cs, ids, corpus);
    if collected.Err? { return Err; }
    var (overrides, matches) := collected.value;
    PricedKeys(base, matches);
    if |matches| == 0 {
      assert Augment(base, map[]) == base;
      return Ok((base, []));
    }
    var augmented := ApplyOverrides(base, overrides);
    return if augmented.Err? then Err else Ok((augmented.value, matches));
  }

  // ----- repricing upwards never lowers a verdict -----

  /** Every usable claim contributes at least as much under q. */
  predicate Raises(es: seq<Keyed<Claim>>, p: PolicyBundle, q: PolicyBundle) {
    p.weights.Keys == q.weights.Keys && p.multipliers == q.multipliers && p.thresholds == q.thresholds &&
    forall e :: e in es && Usable(e.item, p) ==>
      q.weights[e.item.predicateName].tactic == p.weights[e.item.predicateName].tactic &&
        Contribution(e.item, p) <= Contribution(e.item, q)
  }

  predicate Dominates(s: Tally, t: Tally) {
    s.scores.Keys == t.scores.Keys && s.count == t.count && forall k :: k in s.scores ==> s.scores[k] <= t.scores[k]
  }

  lemma {:induction false} RaisedTally(es: seq<Keyed<Claim>>, p: PolicyBundle, q: PolicyBundle)
    requires Raises(es, p, q)
    ensures Dominates(TallyOf(es, p), TallyOf(es, q))
  {
    if es != [] {
      var n := |es| - 1;
      assert es[n] in es;
      forall e | e in es[..n] ensures e in es {}
      RaisedTally(es[..n], p, q);
    }
  }

  lemma {:induction false} RaisedBase(s: map<Tactic, Int64>, t: map<Tactic, Int64>, r: nat)
    requires r <= TACTICS && s.Keys == t.Keys && forall k :: k in s ==> s[k] <= t[k]
    ensures BaseTotal(s, r) <= BaseTotal(t, r)
  {
    if r > 0 { RaisedBase(s, t, r - 1); }
  }

  lemma {:induction false} SamePresent(s: map<Tactic, Int64>, t: map<Tactic, Int64>, r: nat)
    requires r <= TACTICS && s.Keys == t.Keys
    ensures Present(s, r) == Present(t, r)
  {
    if r > 0 {
      SamePresent(s, t, r - 1);
      assert TacticAt(r - 1) in s.Keys <==> TacticAt(r - 1) in t.Keys;
    }
  }

  lemma {:induction false} SameBonus(present: seq<Tactic>, p: PolicyBundle, q: PolicyBundle)
    requires p.multipliers == q.multipliers
    ensures WindowBonus(present, p) == WindowBonus(present, q)
  {
    if |present| >= 2 { SameBonus(present[..|present| - 1], p, q); }
  }

  /** Higher tiers are at least as severe. */
  predicate SeveritiesRise(ts: seq<Threshold>) {
    forall i, j :: 0 <= i < j < |ts| ==> SeverityLevel(ts[i].severity) <= SeverityLevel(ts[j].severity)
  }

  lemma {:induction false} ClassifyRises(ts: seq<Threshold>, low: int, high: int, n: nat)
    requires ts != [] && n <= |ts| && SeveritiesRise(ts) && low <= high
    ensures SeverityLevel(ts[0].severity) <= SeverityLevel(ClassifyFirst(ts, low, n)) <= SeverityLevel(ClassifyFirst(ts,
      high, n))
    ensures n > 0 ==> SeverityLevel(ClassifyFirst(ts, low, n)) <= SeverityLevel(ts[n - 1].severity)
  {
    if n > 0 { ClassifyRises(ts, low, high, n - 1); }
  }

  lemma DispositionRises(a: Severity, b: Severity)
    requires SeverityLevel(a) <= SeverityLevel(b)
    ensures DispositionLevel(DispositionFor(a)) <= DispositionLevel(DispositionFor(b))
  {}

  lemma RaisedTotal(es: seq<Keyed<Claim>>, p: PolicyBundle, q: PolicyBundle)
    requires Raises(es, p, q)
    ensures TotalScore(TallyOf(es, p).scores, p) <= TotalScore(TallyOf(es, q).scores, q)
    ensures TallyOf(es, p).count == TallyOf(es, q).count
  {
    RaisedTally(es, p, q);
    var s, t := TallyOf(es, p).scores, TallyOf(es, q).scores;
    RaisedBase(s, t, TACTICS);
    SamePresent(s, t, TACTICS);
    SameBonus(Present(s, TACTICS), p, q);
  }

  predicate NotBelow(v: Verdict, w: Verdict) {
    v.confidence <= w.confidence && SeverityLevel(v.severity) <= SeverityLevel(w.severity) &&
    DispositionLevel(v.disposition) <= DispositionLevel(w.disposition)
  }

  lemma RaisedVerdict(H: Hash, cs: seq<Claim>, p: PolicyBundle, q: PolicyBundle, version: Str)
    requires ValidPolicy(p) && ValidPolicy(q) && SeveritiesRise(p.thresholds) && Raises(Ordered(H, cs), p, q)
    ensures NotBelow(Adjudicate(H, cs, p, version), Adjudicate(H, cs, q, version))
  {
    var es := Ordered(H, cs);
    RaisedTotal(es, p, q);
    var low, high := TotalScore(TallyOf(es, p).scores, p), TotalScore(TallyOf(es, q).scores, q);
    ClassifyRises(p.thresholds, low, high, |p.thresholds|);
    DispositionRises(Classify(p, low), Classify(q, high));
  }

  /** Matches only raise weights, and only of predicates all of whose usable claims in the case support. */
  predicate RaisesSupported(base: PolicyBundle, cs: seq<Claim>, ms: seq<Match>) {
    forall m :: m in ms && m.indicator.predicateName in base.weights ==>
      base.weights[m.indicator.predicateName].weight <= m.indicator.weight &&
      forall c :: c in cs && Usable(c, base) && c.predicateName == m.indicator.predicateName ==> c.polarity.Supports?
  }

  lemma ClaimRaised(base: PolicyBundle, cs: seq<Claim>, ms: seq<Match>, c: Claim)
    requires RaisesSupported(base, cs, ms) && c in cs && Usable(c, base)
    ensures var q := Augment(base, OverridesOf(ms));
      Usable(c, q) && q.weights[c.predicateName].tactic == base.weights[c.predicateName].tactic &&
        Contribution(c, base) <= Contribution(c, q)
  {
    if c.predicateName in OverridesOf(ms) { var m := OverrideSource(ms, c.predicateName); }
  }

  /** Adjudicating under the augmented policy never lowers confidence, severity or disposition, saturation included. */
  lemma RepricingNeverLowers(H: Hash, cs: seq<Claim>, base: PolicyBundle, ms: seq<Match>, version: Str)
    requires ValidPolicy(base) && SeveritiesRise(base.thresholds) && RaisesSupported(base, cs, ms)
    ensures ValidPolicy(Augment(base, OverridesOf(ms)))
    ensures NotBelow(Adjudicate(H, cs, base, version), Adjudicate(H, cs, Augment(base, OverridesOf(ms)), version))
  {
    var q, es := Augment(base, OverridesOf(ms)), Ordered(H, cs);
    forall e | e in es && Usable(e.item, base)
      ensures q.weights[e.item.predicateName].tactic == base.weights[e.item.predicateName].tactic
      ensures Contribution(e.item, base) <= Contribution(e.item, q)
    {
      var i :| 0 <= i < |es| && es[i] == e;
      var c := OrderedEntry(H, cs, i);
      ClaimRaised(base, cs, ms, c);
    }
    RaisedVerdict(H, cs, base, q, version);
  }
}
