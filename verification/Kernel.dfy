/** The adjudication kernel (kernel/src/lib.rs, tactic.rs, policy.rs, verdict.rs). */
module Kernel {
  import opened Common
  import opened Bytes
  import opened Claims

  // ----- tactics, in kill-chain order -----

  datatype Tactic =
    | InitialAccess | Execution | Persistence | PrivilegeEscalation | DefenseEvasion | CredentialAccess
    | Discovery | LateralMovement | Collection | CommandAndControl | Exfiltration | Impact

  const TACTICS: nat := 12

  function Rank(t: Tactic): (r: nat)
    ensures r < TACTICS && TacticAt(r) == t
  {
    match t
    case InitialAccess => 0 case Execution => 1 case Persistence => 2 case PrivilegeEscalation => 3
    case DefenseEvasion => 4 case CredentialAccess => 5 case Discovery => 6 case LateralMovement => 7
    case Collection => 8 case CommandAndControl => 9 case Exfiltration => 10 case Impact => 11
  }

  function TacticAt(r: nat): Tactic {
    if r == 0 then InitialAccess else if r == 1 then Execution else if r == 2 then Persistence
    else if r == 3 then PrivilegeEscalation else if r == 4 then DefenseEvasion else if r == 5 then CredentialAccess
    else if r == 6 then Discovery else if r == 7 then LateralMovement else if r == 8 then Collection
    else if r == 9 then CommandAndControl else if r == 10 then Exfiltration else Impact
  }

  lemma RankOfTacticAt(r: nat)
    requires r < TACTICS
    ensures Rank(TacticAt(r)) == r
  {}

  predicate IsAdjacent(a: Tactic, b: Tactic) { Rank(a) - Rank(b) == 1 || Rank(b) - Rank(a) == 1 }

  // ----- policies and verdicts -----

  datatype Severity = Info | Low | Medium | High | Critical
  datatype Disposition = Incomplete | Benign | Suspicious | Malicious

  function SeverityLevel(s: Severity): nat {
    match s case Info => 0 case Low => 1 case Medium => 2 case High => 3 case Critical => 4
  }
  function DispositionLevel(d: Disposition): nat {
    match d case Incomplete => 0 case Benign => 1 case Suspicious => 2 case Malicious => 3
  }

  function DispositionFor(s: Severity): Disposition {
    match s
    case Info => Benign
    case Low => Benign
    case Medium => Suspicious
    case High => Malicious
    case Critical => Malicious
  }

  datatype PredicateWeight = PredicateWeight(tactic: Tactic, weight: Int64, techniques: seq<Str>)

  datatype Threshold = Threshold(score: Int64, severity: Severity)

  datatype PolicyBundle = PolicyBundle(
    version: Str, weights: map<Str, PredicateWeight>, multipliers: map<(Tactic, Tactic), Int64>,
      thresholds: seq<Threshold>)

  predicate StrictlyAscending(ts: seq<Threshold>) { forall i, j :: 0 <= i < j < |ts| ==> ts[i].score < ts[j].score }

  predicate ValidPolicy(p: PolicyBundle) { p.thresholds != [] && StrictlyAscending(p.thresholds) }

  /**
   PolicyBundle::new accepts exactly the non-empty, strictly ascending thresholds, though it compares neighbours only.
   */
  method NewPolicy(p: PolicyBundle) returns (r: Result<PolicyBundle>)
    ensures r.Ok? <==> ValidPolicy(p)
    ensures r.Ok? <==>
      && p.thresholds != []
      && forall i, j :: 0 <= i < j < |p.thresholds| ==> p.thresholds[i].score < p.thresholds[j].score
    ensures r.Ok? ==> r.value == p
  {
    if |p.thresholds| == 0 { return Err; }
    for i := 0 to |p.thresholds| - 1
      invariant forall k, l :: 0 <= k < l <= i ==> p.thresholds[k].score < p.thresholds[l].score
    {
      if p.thresholds[i + 1].score <= p.thresholds[i].score { return Err; }
    }
    return Ok(p);
  }

  /** The severity of the last threshold met among the first n, or of the lowest tier. */
  function ClassifyFirst(ts: seq<Threshold>, score: int, n: nat): Severity
    requires ts != [] && n <= |ts|
  {
    if n == 0 then ts[0].severity
    else if score >= ts[n - 1].score then ts[n - 1].severity
    else ClassifyFirst(ts, score, n - 1)
  }

  function Classify(p: PolicyBundle, score: int): Severity
    requires p.thresholds != []
  {
    ClassifyFirst(p.thresholds, score, |p.thresholds|)
  }

  method ClassifyScore(p: PolicyBundle, score: int) returns (s: Severity)
    requires p.thresholds != []
    ensures s == Classify(p, score)
  {
    s := p.thresholds[0].severity;
    for i := 0 to |p.thresholds|
      invariant s == ClassifyFirst(p.thresholds, score, i)
    {
      if score >= p.thresholds[i].score { s := p.thresholds[i].severity; }
    }
  }

  datatype Attribution = Attribution(predicateName: Str, weight: Int64)

  datatype Keyed<+T> = Keyed(id: Digest, item: T)

  datatype Verdict = Verdict(
    severity: Severity, confidence: Int64, disposition: Disposition, techniques: seq<Str>,
    contributing: seq<Keyed<Attribution>>, policyVersion: Str, kernelVersion: Str, hash: Digest)

  // ----- the verdict's own hash -----

  function AttributionBytes(c: Keyed<Attribution>): seq<Byte> {
    c.id + (StrBytes(c.item.predicateName) + I64Bytes(c.item.weight))
  }

  function AttributionsBytes(cs: seq<Keyed<Attribution>>): seq<Byte> {
    if cs == [] then [] else var n := |cs| - 1; AttributionsBytes(cs[..n]) + AttributionBytes(cs[n])
  }

  function VerdictBytes(v: Verdict): seq<Byte> {
    [SeverityLevel(v.severity)] +
      (I64Bytes(v.confidence) + ([DispositionLevel(v.disposition)] + (ListBytes(v.techniques) +
    (BigEndian(|v.contributing|, 4) +
      (AttributionsBytes(v.contributing) + (StrBytes(v.policyVersion) + StrBytes(v.kernelVersion)))))))
  }

  // ----- saturating arithmetic -----

  function Sat(n: int): Int64 {
    if n > MAX_INT64 then MAX_INT64 else if n < MIN_INT64 then MIN_INT64 else n
  }

  // ----- sorting by claim id, stably -----

  function InsertById<T>(e: Keyed<T>, es: seq<Keyed<T>>): seq<Keyed<T>> {
    if es == [] then [e] else var n := |es| - 1;
      if BytesLess(e.id, es[n].id) then InsertById(e, es[..n]) + [es[n]] else es + [e]
  }

  function SortById<T>(es: seq<Keyed<T>>): seq<Keyed<T>> {
    if es == [] then [] else var n := |es| - 1; InsertById(es[n], SortById(es[..n]))
  }

  method InsertStably<T>(e: Keyed<T>, sorted: seq<Keyed<T>>) returns (r: seq<Keyed<T>>)
    ensures r == InsertById(e, sorted)
  {
    var k := |sorted|;
    ghost var rest: seq<Keyed<T>> := [];
    assert sorted[..k] == sorted && InsertById(e, sorted) + rest == InsertById(e, sorted);
    while k > 0 && BytesLess(e.id, sorted[k - 1].id)
      invariant 0 <= k <= |sorted| && rest == sorted[k..]
      invariant InsertById(e, sorted) == InsertById(e, sorted[..k]) + rest
    {
      assert sorted[..k][..k - 1] == sorted[..k - 1];
      assert sorted[k - 1..] == [sorted[k - 1]] + rest;
      k := k - 1;
      rest := sorted[k..];
    }
    r := sorted[..k] + [e] + sorted[k..];
  }

  /** A stable sort, as slice::sort_by is. */
  method StableSort<T>(es: seq<Keyed<T>>) returns (r: seq<Keyed<T>>)
    ensures r == SortById(es)
  {
    r := [];
    for i := 0 to |es|
      invariant r == SortById(es[..i])
    {
      assert es[..i + 1][..i] == es[..i];
      r := InsertStably(es[i], r);
    }
    assert es[..|es|] == es;
  }

  // ----- scoring the claims, one after the other -----

  predicate Usable(c: Claim, p: PolicyBundle) { c.evidence != [] && c.predicateName in p.weights }

  function Contribution(c: Claim, p: PolicyBundle): Int64
    requires Usable(c, p)
  {
    Sat(p.weights[c.predicateName].weight * (if c.polarity.Supports? then 1 else -1))
  }

  /** BTreeSet::insert: sorted, each element once. */
  function InsertTechnique(s: Str, sorted: seq<Str>): seq<Str> {
    if sorted == [] then [s]
    else if sorted[0] == s then sorted
    else if BytesLess(s, sorted[0]) then [s] + sorted
    else [sorted[0]] + InsertTechnique(s, sorted[1..])
  }

  function InsertTechniques(ts: seq<Str>, sorted: seq<Str>): seq<Str> {
    if ts == [] then sorted else var n := |ts| - 1; InsertTechnique(ts[n], InsertTechniques(ts[..n], sorted))
  }

  datatype Tally = Tally(scores: map<Tactic, Int64>, contributing: seq<Keyed<Attribution>>, techniques: seq<Str>,
      count: nat)

  function ScoreOf(scores: map<Tactic, Int64>, t: Tactic): Int64 { if t in scores then scores[t] else 0 }

  function AddClaim(t: Tally, e: Keyed<Claim>, p: PolicyBundle): Tally {
    if !Usable(e.item, p) then t
    else
      var pw, w := p.weights[e.item.predicateName], Contribution(e.item, p);
      Tally(t.scores[pw.tactic := Sat(ScoreOf(t.scores, pw.tactic) + w)],
            t.contributing + [Keyed(e.id, Attribution(e.item.predicateName, w))],
            InsertTechniques(pw.techniques, t.techniques), t.count + 1)
  }

  function TallyOf(es: seq<Keyed<Claim>>, p: PolicyBundle): Tally {
    if es == [] then Tally(map[], [], [], 0) else var n := |es| - 1; AddClaim(TallyOf(es[..n], p), es[n], p)
  }

  /** The tactic scores added up in kill-chain order, the first r tactics. */
  function BaseTotal(scores: map<Tactic, Int64>, r: nat): Int64
    requires r <= TACTICS
  {
    if r == 0 then 0
    else if TacticAt(r - 1) in scores then Sat(BaseTotal(scores, r - 1) + scores[TacticAt(r - 1)])
    else BaseTotal(scores, r - 1)
  }

  /** A BTreeMap's keys in order, among the first r tactics. */
  function Present(scores: map<Tactic, Int64>, r: nat): seq<Tactic>
    requires r <= TACTICS
  {
    if r == 0 then []
    else Present(scores, r - 1) + (if TacticAt(r - 1) in scores then [TacticAt(r - 1)] else [])
  }

  /** The pairwise scan: what one window of two present tactics adds. */
  function AddWindow(bonus: Int64, a: Tactic, b: Tactic, p: PolicyBundle): Int64 {
    if IsAdjacent(a, b) && (a, b) in p.multipliers then Sat(bonus + p.multipliers[(a, b)]) else bonus
  }

  function WindowBonus(present: seq<Tactic>, p: PolicyBundle): Int64 {
    if |present| < 2 then 0
    else var n := |present| - 1; AddWindow(WindowBonus(present[..n], p), present[n - 1], present[n], p)
  }

  function TotalScore(scores: map<Tactic, Int64>, p: PolicyBundle): Int64 {
    Sat(BaseTotal(scores, TACTICS) + WindowBonus(Present(scores, TACTICS), p))
  }

  function Clamp(n: int): Int64 { if n < 0 then 0 else if n > 10_000 then 10_000 else n }

  // ----- the verdict -----

  function Unhashed(t: Tally, p: PolicyBundle, version: Str): Verdict
    requires ValidPolicy(p)
  {
    if t.count == 0 then Verdict(Info, 0, Incomplete, [], [], p.version, version, ZERO_DIGEST)
    else
      var total := TotalScore(t.scores, p);
      var severity := Classify(p, total);
      Verdict(severity, Clamp(total), DispositionFor(severity), t.techniques, SortById(t.contributing), p.version,
        version, ZERO_DIGEST)
  }

  function WithIds(H: Hash, cs: seq<Claim>): (es: seq<Keyed<Claim>>)
    ensures |es| == |cs|
  {
    if cs == [] then [] else var n := |cs| - 1; WithIds(H, cs[..n]) + [Keyed(ClaimId(H, cs[n]), cs[n])]
  }

  function Ordered(H: Hash, cs: seq<Claim>): seq<Keyed<Claim>> {
    SortById(WithIds(H, cs))
  }

  /** The whole verdict but its hash, which hashes exactly this. */
  function Judge(H: Hash, cs: seq<Claim>, p: PolicyBundle, version: Str): Verdict
    requires ValidPolicy(p)
  {
    Unhashed(TallyOf(Ordered(H, cs), p), p, version)
  }

  /** adjudicate: never fails, whatever the claims. */
  function Adjudicate(H: Hash, cs: seq<Claim>, p: PolicyBundle, version: Str): Verdict
    requires ValidPolicy(p)
  {
    var v := Judge(H, cs, p, version);
    v.(hash := H(VerdictBytes(v)))
  }

  // ----- as the code runs it -----

  method WriteAttributions(buf: Buffer, cs: seq<Keyed<Attribution>>)
    modifies buf
    ensures buf.data == old(buf.data) + (BigEndian(|cs|, 4) + AttributionsBytes(cs))
  {
    ghost var start := buf.data;
    buf.Extend(BigEndian(|cs|, 4));
    ghost var before := buf.data;
    for i := 0 to |cs|
      invariant buf.data == before + AttributionsBytes(cs[..i])
    {
      WriteAttribution(buf, cs[i]);
      assert cs[..i + 1][..i] == cs[..i];
      Regroup(before, AttributionsBytes(cs[..i]), AttributionBytes(cs[i]));
    }
    assert cs[..|cs|] == cs;
    Regroup(start, BigEndian(|cs|, 4), AttributionsBytes(cs));
  }

  method ComputeVerdictHash(H: Hash, v: Verdict) returns (d: Digest)
    ensures d == H(VerdictBytes(v))
  {
    var buf := new Buffer();
    ghost var r4 := StrBytes(v.policyVersion) + StrBytes(v.kernelVersion);
    ghost var cs := BigEndian(|v.contributing|, 4) + AttributionsBytes(v.contributing);
    ghost var r3 := ListBytes(v.techniques) + (cs + r4);
    ghost var r2 := [DispositionLevel(v.disposition)] + r3;
    Regroup(BigEndian(|v.contributing|, 4), AttributionsBytes(v.contributing), r4);
    ghost var all := buf.data + ([SeverityLevel(v.severity)] + (I64Bytes(v.confidence) + r2));
    assert all == VerdictBytes(v);
    Regroup(buf.data, [SeverityLevel(v.severity)], I64Bytes(v.confidence) + r2);
    buf.Push(SeverityLevel(v.severity));
    Regroup(buf.data, I64Bytes(v.confidence), r2);
    buf.WriteI64(v.confidence);
    Regroup(buf.data, [DispositionLevel(v.disposition)], r3);
    buf.Push(DispositionLevel(v.disposition));
    Regroup(buf.data, ListBytes(v.techniques), cs + r4);
    buf.WriteStrList(v.techniques);
    Regroup(buf.data, cs, r4);
    WriteAttributions(buf, v.contributing);
    Regroup(buf.data, StrBytes(v.policyVersion), StrBytes(v.kernelVersion));
    buf.WriteStr(v.policyVersion);
    buf.WriteStr(v.kernelVersion);
    return H(buf.data);
  }

  method WriteAttribution(buf: Buffer, c: Keyed<Attribution>)
    modifies buf
    ensures buf.data == old(buf.data) + AttributionBytes(c)
  {
    buf.Extend(c.id);
    buf.WriteStr(c.item.predicateName);
    buf.WriteI64(c.item.weight);
    assert buf.data == old(buf.data) + AttributionBytes(c);
  }

  method ScoreClaims(ordered: seq<Keyed<Claim>>, p: PolicyBundle) returns (t: Tally)
    ensures t == TallyOf(ordered, p)
  {
    var scores: map<Tactic, Int64> := map[];
    var contributing: seq<Keyed<Attribution>> := [];
    var techniques: seq<Str> := [];
    var count := 0;
    for i := 0 to |ordered|
      invariant Tally(scores, contributing, techniques, count) == TallyOf(ordered[..i], p)
    {
      var claim := ordered[i].item;
      assert ordered[..i + 1][..i] == ordered[..i];
      if |claim.evidence| == 0 || claim.predicateName !in p.weights { continue; }
      var pw := p.weights[claim.predicateName];
      count := count + 1;
      var contribution := Sat(pw.weight * (if claim.polarity.Supports? then 1 else -1));
      scores := scores[pw.tactic := Sat(ScoreOf(scores, pw.tactic) + contribution)];
      contributing := contributing + [Keyed(ordered[i].id, Attribution(claim.predicateName, contribution))];
      ghost var start := techniques;
      for k := 0 to |pw.techniques|
        invariant techniques == InsertTechniques(pw.techniques[..k], start)
      {
        assert pw.techniques[..k + 1][..k] == pw.techniques[..k];
        techniques := InsertTechnique(pw.techniques[k], techniques);
      }
      assert pw.techniques[..|pw.techniques|] == pw.techniques;
    }
    assert ordered[..|ordered|] == ordered;
    return Tally(scores, contributing, techniques, count);
  }

  /** The chain bonus, over windows of two present tactics. */
  method SumChain(present: seq<Tactic>, p: PolicyBundle) returns (bonus: Int64)
    ensures bonus == WindowBonus(present, p)
  {
    bonus := 0;
    var i := 1;
    while i < |present|
      invariant 1 <= i && (i <= |present| ==> bonus == WindowBonus(present[..i], p)) &&
        (|present| < i ==> bonus == 0 && |present| == 0)
    {
      var a, b := present[i - 1], present[i];
      assert present[..i + 1][..i] == present[..i];
      if IsAdjacent(a, b) && (a, b) in p.multipliers {
        bonus := Sat(bonus + p.multipliers[(a, b)]);
      }
      i := i + 1;
    }
    if |present| > 0 { assert present[..i] == present; }
  }

  method SumScores(scores: map<Tactic, Int64>, p: PolicyBundle) returns (total: Int64)
    ensures total == TotalScore(scores, p)
  {
    var base: Int64 := 0;
    var present: seq<Tactic> := [];
    for r := 0 to TACTICS
      invariant base == BaseTotal(scores, r) && present == Present(scores, r)
    {
      if TacticAt(r) in scores {
        base := Sat(base + scores[TacticAt(r)]);
        present := present + [TacticAt(r)];
      }
    }
    var bonus := SumChain(present, p);
    return Sat(base + bonus);
  }

  method Conclude(t: Tally, p: PolicyBundle, version: Str) returns (v: Verdict)
    requires ValidPolicy(p)
    ensures v == Unhashed(t, p, version)
  {
    if t.count == 0 {
      return Verdict(Info, 0, Incomplete, [], [], p.version, version, ZERO_DIGEST);
    }
    var total := SumScores(t.scores, p);
    var severity := ClassifyScore(p, total);
    var contributing := StableSort(t.contributing);
    return Verdict(severity, Clamp(total), DispositionFor(severity), t.techniques, contributing, p.version, version,
      ZERO_DIGEST);
  }

  method RunAdjudicate(H: Hash, claims: seq<Claim>, p: PolicyBundle, version: Str) returns (v: Verdict)
    requires ValidPolicy(p)
    ensures v == Adjudicate(H, claims, p, version)
  {
    var keyed: seq<Keyed<Claim>> := [];
    for i := 0 to |claims|
      invariant keyed == WithIds(H, claims[..i])
    {
      var id := ComputeClaimId(H, claims[i]);
      assert claims[..i + 1][..i] == claims[..i];
      keyed := keyed + [Keyed(id, claims[i])];
    }
    assert claims[..|claims|] == claims;
    var ordered := StableSort(keyed);
    var tally := ScoreClaims(ordered, p);
    v := Conclude(tally, p, version);
    var hash := ComputeVerdictHash(H, v);
    v := v.(hash := hash);
  }
}
