/** What the kernel promises: order independence, exact explanation, a verdict hash that binds the verdict. */
module KernelProofs {
  import opened Common
  import opened Bytes
  import opened Claims
  import opened Kernel

  // ----- classification -----

  lemma {:induction false} ClassifyBelow(ts: seq<Threshold>, score: int, n: nat, i: nat)
    requires StrictlyAscending(ts) && i < n <= |ts| && score >= ts[i].score &&
      forall k :: i < k < n ==> score < ts[k].score
    ensures ClassifyFirst(ts, score, n) == ts[i].severity
  {
    if i < n - 1 { ClassifyBelow(ts, score, n - 1, i); }
  }

  lemma {:induction false} ClassifyNone(ts: seq<Threshold>, score: int, n: nat)
    requires ts != [] && n <= |ts| && forall k :: 0 <= k < n ==> score < ts[k].score
    ensures ClassifyFirst(ts, score, n) == ts[0].severity
  {
    if n > 0 { ClassifyNone(ts, score, n - 1); }
  }

  predicate HighestMet(ts: seq<Threshold>, score: int, i: int) {
    0 <= i < |ts| && score >= ts[i].score && (i + 1 < |ts| ==> score < ts[i + 1].score)
  }

  /** The severity is that of the highest threshold met, or of the lowest tier when none is. */
  lemma ClassifyIsHighest(p: PolicyBundle, score: int)
    requires ValidPolicy(p)
    ensures forall i :: HighestMet(p.thresholds, score, i) ==> Classify(p, score) == p.thresholds[i].severity
    ensures score < p.thresholds[0].score ==> Classify(p, score) == p.thresholds[0].severity
  {
    var ts := p.thresholds;
    forall i | HighestMet(ts, score, i) ensures Classify(p, score) == ts[i].severity {
      ClassifyBelow(ts, score, |ts|, i);
    }
    if score < ts[0].score { ClassifyNone(ts, score, |ts|); }
  }

  // ----- the chain bonus: the scan over present tactics finds every consecutive pair once -----

  predicate Paired(scores: map<Tactic, Int64>, p: PolicyBundle, r: nat)
    requires 2 <= r <= TACTICS
  {
    TacticAt(r - 2) in scores && TacticAt(r - 1) in scores && (TacticAt(r - 2), TacticAt(r - 1)) in p.multipliers
  }

  /** Every consecutive pair of tactics in turn, the pairs ending below rank r. */
  function PairBonus(scores: map<Tactic, Int64>, p: PolicyBundle, r: nat): Int64
    requires r <= TACTICS
  {
    if r < 2 then 0
    else if Paired(scores, p, r) then
      Sat(PairBonus(scores, p, r - 1) + p.multipliers[(TacticAt(r - 2), TacticAt(r - 1))])
    else PairBonus(scores, p, r - 1)
  }

  lemma {:induction false} PresentLast(scores: map<Tactic, Int64>, r: nat)
    requires r <= TACTICS
    ensures var ps := Present(scores, r); ps != [] ==> Rank(ps[|ps| - 1]) < r
    ensures var ps := Present(scores, r);
      r > 0 ==> (TacticAt(r - 1) in scores <==> ps != [] && ps[|ps| - 1] == TacticAt(r - 1))
  {
    if r > 0 {
      PresentLast(scores, r - 1);
      RankOfTacticAt(r - 1);
    }
  }

  lemma {:induction false} WindowsFindPairs(scores: map<Tactic, Int64>, p: PolicyBundle, r: nat)
    requires r <= TACTICS
    ensures WindowBonus(Present(scores, r), p) == PairBonus(scores, p, r)
  {
    if r > 0 {
      WindowsFindPairs(scores, p, r - 1);
      if TacticAt(r - 1) in scores {
        LastWindow(scores, p, r);
      } else {
        assert Present(scores, r) == Present(scores, r - 1);
      }
    }
  }

  lemma LastWindow(scores: map<Tactic, Int64>, p: PolicyBundle, r: nat)
    requires 0 < r <= TACTICS && TacticAt(r - 1) in scores
    requires WindowBonus(Present(scores, r - 1), p) == PairBonus(scores, p, r - 1)
    ensures WindowBonus(Present(scores, r), p) == PairBonus(scores, p, r)
  {
    var ps, t := Present(scores, r - 1), TacticAt(r - 1);
    assert (ps + [t])[..|ps|] == ps;
    PresentLast(scores, r - 1);
    RankOfTacticAt(r - 1);
    if ps != [] {
      var last := ps[|ps| - 1];
      assert last == TacticAt(Rank(last));
      assert IsAdjacent(last, t) <==> Rank(last) == r - 2;
      if r >= 2 { RankOfTacticAt(r - 2); }
    } else if r >= 2 {
      assert TacticAt(r - 2) !in scores;
    }
  }

  // ----- exact explanation -----

  function Abs(n: int): nat { if n < 0 then -n else n }

  /** Contributions of the usable claims to tactics of rank below r. */
  function GainBelow(es: seq<Keyed<Claim>>, p: PolicyBundle, r: nat): int {
    if es == [] then 0
    else
      var n := |es| - 1;
      GainBelow(es[..n], p, r) +
      if Usable(es[n].item, p) &&
        Rank(p.weights[es[n].item.predicateName].tactic) < r then Contribution(es[n].item, p) else 0
  }

  function AbsGain(es: seq<Keyed<Claim>>, p: PolicyBundle): nat {
    if es == [] then 0
    else var n := |es| - 1; AbsGain(es[..n], p) + if Usable(es[n].item, p) then Abs(Contribution(es[n].item, p)) else 0
  }

  lemma {:induction false} GainBounded(es: seq<Keyed<Claim>>, p: PolicyBundle, q: nat, r: nat)
    requires q <= r
    ensures Abs(GainBelow(es, p, r) - GainBelow(es, p, q)) <= AbsGain(es, p)
    ensures GainBelow(es, p, 0) == 0
  {
    if es != [] { GainBounded(es[..|es| - 1], p, q, r); }
  }

  /** Without overflow a tactic's score is exactly what the claims for it contribute. */
  lemma {:induction false} ScoresExact(es: seq<Keyed<Claim>>, p: PolicyBundle, r: nat)
    requires AbsGain(es, p) <= MAX_INT64 && r < TACTICS
    ensures ScoreOf(TallyOf(es, p).scores, TacticAt(r)) == GainBelow(es, p, r + 1) - GainBelow(es, p, r)
  {
    if es != [] {
      var n := |es| - 1;
      ScoresExact(es[..n], p, r);
      GainBounded(es, p, r, r + 1);
      RankOfTacticAt(r);
    }
  }

  lemma {:induction false} BaseExact(es: seq<Keyed<Claim>>, p: PolicyBundle, r: nat)
    requires AbsGain(es, p) <= MAX_INT64 && r <= TACTICS
    ensures BaseTotal(TallyOf(es, p).scores, r) == GainBelow(es, p, r)
  {
    GainBounded(es, p, 0, r);
    if r > 0 {
      BaseExact(es, p, r - 1);
      ScoresExact(es, p, r - 1);
    }
  }

  function SumWeights(cs: seq<Keyed<Attribution>>): int {
    if cs == [] then 0 else var n := |cs| - 1; SumWeights(cs[..n]) + cs[n].item.weight
  }

  function SumAbsWeights(cs: seq<Keyed<Attribution>>): nat {
    if cs == [] then 0 else var n := |cs| - 1; SumAbsWeights(cs[..n]) + Abs(cs[n].item.weight)
  }

  lemma {:induction false} AttributedIsGained(es: seq<Keyed<Claim>>, p: PolicyBundle)
    ensures SumWeights(TallyOf(es, p).contributing) == GainBelow(es, p, TACTICS)
    ensures SumAbsWeights(TallyOf(es, p).contributing) == AbsGain(es, p)
  {
    if es != [] {
      var n := |es| - 1;
      AttributedIsGained(es[..n], p);
      if Usable(es[n].item, p) {
        var cs := TallyOf(es[..n], p).contributing;
        var c := Keyed(es[n].id, Attribution(es[n].item.predicateName, Contribution(es[n].item, p)));
        assert (cs + [c])[..|cs|] == cs;
      }
    }
  }

  lemma {:induction false} InsertKeepsSum(e: Keyed<Attribution>, cs: seq<Keyed<Attribution>>)
    ensures SumWeights(InsertById(e, cs)) == SumWeights(cs) + e.item.weight
    ensures SumAbsWeights(InsertById(e, cs)) == SumAbsWeights(cs) + Abs(e.item.weight)
  {
    if cs != [] {
      var n := |cs| - 1;
      if BytesLess(e.id, cs[n].id) {
        InsertKeepsSum(e, cs[..n]);
        var head := InsertById(e, cs[..n]);
        assert (head + [cs[n]])[..|head|] == head;
      } else {
        assert (cs + [e])[..|cs|] == cs;
      }
    }
  }

  lemma {:induction false} SortKeepsSum(cs: seq<Keyed<Attribution>>)
    ensures SumWeights(SortById(cs)) == SumWeights(cs) && SumAbsWeights(SortById(cs)) == SumAbsWeights(cs)
  {
    if cs != [] {
      SortKeepsSum(cs[..|cs| - 1]);
      InsertKeepsSum(cs[|cs| - 1], SortById(cs[..|cs| - 1]));
    }
  }

  /** The multipliers of the consecutive pairs that are both present, added without saturation. */
  function PairSum(scores: map<Tactic, Int64>, p: PolicyBundle, r: nat): int
    requires r <= TACTICS
  {
    if r < 2 then 0
    else PairSum(scores, p, r - 1) + if Paired(scores, p, r) then p.multipliers[(TacticAt(r - 2), TacticAt(r - 1))]
      else 0
  }

  function AbsPairSum(scores: map<Tactic, Int64>, p: PolicyBundle, r: nat): nat
    requires r <= TACTICS
  {
    if r < 2 then 0
    else AbsPairSum(scores, p, r - 1) + if Paired(scores, p, r) then
      Abs(p.multipliers[(TacticAt(r - 2), TacticAt(r - 1))]) else 0
  }

  lemma {:induction false} PairsExact(scores: map<Tactic, Int64>, p: PolicyBundle, r: nat)
    requires r <= TACTICS && AbsPairSum(scores, p, r) <= MAX_INT64
    ensures PairBonus(scores, p, r) == PairSum(scores, p, r) && Abs(PairSum(scores, p, r)) <= AbsPairSum(scores, p, r)
  {
    if r >= 2 { PairsExact(scores, p, r - 1); }
  }

  lemma TotalExact(es: seq<Keyed<Claim>>, p: PolicyBundle)
    requires var t := TallyOf(es, p); SumAbsWeights(t.contributing) + AbsPairSum(t.scores, p, TACTICS) <= MAX_INT64
    ensures var t := TallyOf(es, p);
      TotalScore(t.scores, p) == SumWeights(t.contributing) + PairSum(t.scores, p, TACTICS)
  {
    var t := TallyOf(es, p);
    AttributedIsGained(es, p);
    BaseExact(es, p, TACTICS);
    WindowsFindPairs(t.scores, p, TACTICS);
    PairsExact(t.scores, p, TACTICS);
    GainBounded(es, p, 0, TACTICS);
  }

  /** When nothing can overflow, confidence and severity are those of the attributed weights plus the pair bonuses. */
  lemma VerdictExplained(H: Hash, cs: seq<Claim>, p: PolicyBundle, version: Str, v: Verdict, t: Tally)
    requires ValidPolicy(p) && v == Adjudicate(H, cs, p, version) && v.disposition != Incomplete
    requires t == TallyOf(Ordered(H, cs), p)
    requires SumAbsWeights(v.contributing) + AbsPairSum(t.scores, p, TACTICS) <= MAX_INT64
    ensures v.confidence == Clamp(SumWeights(v.contributing) + PairSum(t.scores, p, TACTICS))
    ensures v.severity == Classify(p, SumWeights(v.contributing) + PairSum(t.scores, p, TACTICS))
  {
    SortKeepsSum(t.contributing);
    TotalExact(Ordered(H, cs), p);
  }

  // ----- usable claims -----

  lemma {:induction false} CountUsable(es: seq<Keyed<Claim>>, p: PolicyBundle)
    ensures TallyOf(es, p).count > 0 <==> exists i :: 0 <= i < |es| && Usable(es[i].item, p)
    ensures forall t :: t in TallyOf(es, p).scores <==>
      exists i :: 0 <= i < |es| && Usable(es[i].item, p) && p.weights[es[i].item.predicateName].tactic == t
  {
    if es != [] {
      var n := |es| - 1;
      var before := es[..n];
      CountUsable(before, p);
      assert forall i :: 0 <= i < n ==> before[i] == es[i];
    }
  }

  /** Inserting and sorting keep the entries. */
  lemma {:induction false} InsertKeepsEntries<T>(e: Keyed<T>, es: seq<Keyed<T>>)
    ensures multiset(InsertById(e, es)) == multiset(es) + multiset{e}
  {
    if es != [] {
      var n := |es| - 1;
      assert es == es[..n] + [es[n]];
      if BytesLess(e.id, es[n].id) { InsertKeepsEntries(e, es[..n]); }
    }
  }

  lemma {:induction false} SortKeepsEntries<T>(es: seq<Keyed<T>>)
    ensures multiset(SortById(es)) == multiset(es)
  {
    if es != [] {
      var n := |es| - 1;
      assert es == es[..n] + [es[n]];
      SortKeepsEntries(es[..n]);
      InsertKeepsEntries(es[n], SortById(es[..n]));
    }
  }

  lemma {:induction false} WithIdsAt(H: Hash, cs: seq<Claim>, i: nat)
    requires i < |cs|
    ensures WithIds(H, cs)[i] == Keyed(ClaimId(H, cs[i]), cs[i])
  {
    if i < |cs| - 1 { WithIdsAt(H, cs[..|cs| - 1], i); }
  }

  /** Each ordered entry is a claim of the list with its id, and each claim is there. */
  lemma OrderedEntry(H: Hash, cs: seq<Claim>, i: nat) returns (c: Claim)
    requires i < |Ordered(H, cs)|
    ensures c in cs && Ordered(H, cs)[i] == Keyed(ClaimId(H, c), c)
  {
    var raw := WithIds(H, cs);
    SortKeepsEntries(raw);
    assert Ordered(H, cs)[i] in multiset(raw);
    var j :| 0 <= j < |raw| && raw[j] == Ordered(H, cs)[i];
    WithIdsAt(H, cs, j);
    c := cs[j];
  }

  lemma EntryOrdered(H: Hash, cs: seq<Claim>, c: Claim) returns (i: nat)
    requires c in cs
    ensures i < |Ordered(H, cs)| && Ordered(H, cs)[i].item == c
  {
    var raw, es := WithIds(H, cs), Ordered(H, cs);
    SortKeepsEntries(raw);
    var j :| 0 <= j < |cs| && cs[j] == c;
    WithIdsAt(H, cs, j);
    assert raw[j] in multiset(es);
    i :| 0 <= i < |es| && es[i] == raw[j];
  }

  lemma CountOrdered(H: Hash, cs: seq<Claim>, p: PolicyBundle)
    ensures TallyOf(Ordered(H, cs), p).count > 0 <==> exists c :: c in cs && Usable(c, p)
  {
    var es := Ordered(H, cs);
    CountUsable(es, p);
    if i :| 0 <= i < |es| && Usable(es[i].item, p) {
      var c := OrderedEntry(H, cs, i);
    }
    if c :| c in cs && Usable(c, p) {
      var i := EntryOrdered(H, cs, c);
    }
  }

  lemma NoOpinion(t: Tally, p: PolicyBundle, version: Str)
    requires ValidPolicy(p)
    ensures Unhashed(t, p, version).disposition == Incomplete <==> t.count == 0
  {}

  /** No opinion without a usable claim, and always one with. */
  lemma IncompleteMeansUnusable(H: Hash, cs: seq<Claim>, p: PolicyBundle, version: Str)
    requires ValidPolicy(p)
    ensures Adjudicate(H, cs, p, version).disposition == Incomplete <==> forall c :: c in cs ==> !Usable(c, p)
  {
    CountOrdered(H, cs, p);
    NoOpinion(TallyOf(Ordered(H, cs), p), p, version);
  }

  // ----- order independence -----

  function One(id: Str): multiset<Str> { multiset{id} }

  function Ids<T>(es: seq<Keyed<T>>): (ids: seq<Str>)
    ensures |ids| == |es|
  {
    if es == [] then [] else var n := |es| - 1; Ids(es[..n]) + [es[n].id]
  }

  lemma {:induction false} IdsAt<T>(es: seq<Keyed<T>>, i: nat)
    requires i < |es|
    ensures Ids(es)[i] == es[i].id
  {
    if i < |es| - 1 { IdsAt(es[..|es| - 1], i); }
  }

  /** What InsertById does to the ids. */
  function InsertBack(id: Str, ids: seq<Str>): seq<Str> {
    if ids == [] then [id] else var n := |ids| - 1;
      if BytesLess(id, ids[n]) then InsertBack(id, ids[..n]) + [ids[n]] else ids + [id]
  }

  lemma {:induction false} InsertIds<T>(e: Keyed<T>, es: seq<Keyed<T>>)
    ensures Ids(InsertById(e, es)) == InsertBack(e.id, Ids(es))
  {
    if es != [] {
      var n := |es| - 1;
      assert Ids(es)[..n] == Ids(es[..n]);
      InsertIds(e, es[..n]);
    }
  }

  lemma SortedSnoc(ids: seq<Str>, s: Str)
    requires SortedStrs(ids) && forall x :: x in multiset(ids) ==> !BytesLess(s, x)
    ensures SortedStrs(ids + [s])
  {
    forall i | 0 <= i < |ids| ensures !BytesLess(s, ids[i]) { assert ids[i] in multiset(ids); }
  }

  lemma AllBeforeLast(ids: seq<Str>, x: Str)
    requires SortedStrs(ids) && x in multiset(ids)
    ensures x == ids[|ids| - 1] || !BytesLess(ids[|ids| - 1], x)
  {
    var i :| 0 <= i < |ids| && ids[i] == x;
  }

  /** x < y and not z < y give x < z. */
  lemma NotLessThrough(x: Str, y: Str, z: Str)
    requires BytesLess(x, y) && (z == y || !BytesLess(z, y))
    ensures BytesLess(x, z)
  {
    BytesLessTotal(y, z);
    if BytesLess(y, z) { BytesLessTransitive(x, y, z); }
  }

  lemma {:induction false} InsertBackSorted(s: Str, ids: seq<Str>)
    requires SortedStrs(ids)
    ensures SortedStrs(InsertBack(s, ids)) && multiset(InsertBack(s, ids)) == multiset(ids) + multiset{s}
  {
    if ids != [] {
      var n := |ids| - 1;
      var front, last := ids[..n], ids[n];
      assert ids == front + [last];
      if BytesLess(s, last) {
        InsertBackSorted(s, front);
        forall x | x in multiset(InsertBack(s, front)) ensures !BytesLess(last, x) {
          if x == s { BytesLessAsymmetric(s, last); } else { FrontBelowLast(ids, x); }
        }
        SortedSnoc(InsertBack(s, front), last);
      } else {
        forall x | x in multiset(ids) ensures !BytesLess(s, x) {
          AllBeforeLast(ids, x);
          if BytesLess(s, x) { NotLessThrough(s, x, last); }
        }
        SortedSnoc(ids, s);
      }
    }
  }

  lemma FrontBelowLast(ids: seq<Str>, x: Str)
    requires ids != [] && SortedStrs(ids) && x in multiset(ids[..|ids| - 1])
    ensures !BytesLess(ids[|ids| - 1], x)
  {
    var i :| 0 <= i < |ids| - 1 && ids[..|ids| - 1][i] == x;
  }

  lemma {:induction false} SortSortsIds<T>(es: seq<Keyed<T>>)
    ensures SortedStrs(Ids(SortById(es))) && multiset(Ids(SortById(es))) == multiset(Ids(es))
  {
    if es != [] {
      var n := |es| - 1;
      SortSortsIds(es[..n]);
      InsertIds(es[n], SortById(es[..n]));
      InsertBackSorted(es[n].id, Ids(SortById(es[..n])));
    }
  }

  /** Same ids, and claims alike up to evidence order, position by position. */
  predicate Alike(es: seq<Keyed<Claim>>, fs: seq<Keyed<Claim>>) {
    |es| == |fs| && forall i :: 0 <= i < |es| ==> es[i].id == fs[i].id && SameClaim(es[i].item, fs[i].item)
  }

  lemma {:induction false} AlikeTally(es: seq<Keyed<Claim>>, fs: seq<Keyed<Claim>>, p: PolicyBundle)
    requires Alike(es, fs)
    ensures TallyOf(es, p) == TallyOf(fs, p)
  {
    if es != [] {
      var n := |es| - 1;
      AlikeTally(es[..n], fs[..n], p);
      SameStep(TallyOf(es[..n], p), es[n], fs[n], p);
    }
  }

  lemma SameStep(t: Tally, e: Keyed<Claim>, f: Keyed<Claim>, p: PolicyBundle)
    requires e.id == f.id && SameClaim(e.item, f.item)
    ensures AddClaim(t, e, p) == AddClaim(t, f, p)
  {
    SameUse(e.item, f.item, p);
  }

  lemma SameUse(a: Claim, b: Claim, p: PolicyBundle)
    requires SameClaim(a, b)
    ensures a.predicateName == b.predicateName && a.polarity == b.polarity && (Usable(a, p) <==> Usable(b, p))
  {
    assert |multiset(a.evidence)| == |multiset(b.evidence)|;
    assert a.(evidence := []).predicateName == b.(evidence := []).predicateName;
  }

  predicate Hashable(cs: seq<Claim>) { forall c :: c in cs ==> ShortClaim(c) }

  ghost predicate EncodedIn(cs: seq<Claim>, x: seq<Byte>) { exists c :: c in cs && x == ClaimBytes(c) }

  function IdsOf(H: Hash, cs: seq<Claim>): seq<Str> { Ids(WithIds(H, cs)) }

  /** Claim lists with the same ids are ordered alike, or two of their encodings collide. */
  lemma OrderedAlike(H: Hash, cs: seq<Claim>, ds: seq<Claim>) returns (x: seq<Byte>, y: seq<Byte>)
    requires Hashable(cs) && Hashable(ds) && multiset(IdsOf(H, cs)) == multiset(IdsOf(H, ds))
    ensures Alike(Ordered(H, cs), Ordered(H, ds)) || (Collide(H, x, y) && EncodedIn(cs, x) && EncodedIn(ds, y))
  {
    var es, fs := Ordered(H, cs), Ordered(H, ds);
    SortSortsIds(WithIds(H, cs));
    SortSortsIds(WithIds(H, ds));
    SortedUnique(Ids(es), Ids(fs));
    x, y := [], [];
    if !Alike(es, fs) {
      var i :| 0 <= i < |es| && !(es[i].id == fs[i].id && SameClaim(es[i].item, fs[i].item));
      IdsAt(es, i);
      IdsAt(fs, i);
      var c := OrderedEntry(H, cs, i);
      var d := OrderedEntry(H, ds, i);
      x, y := ClaimBytes(c), ClaimBytes(d);
      EncodingIdentifiesClaim(c, d);
    }
  }

  /**
   The verdict depends on the multiset of claim ids only: not on the order claims arrive in, nor on evidence order.
   */
  lemma VerdictDependsOnIds(H: Hash, cs: seq<Claim>, ds: seq<Claim>, p: PolicyBundle, version: Str)
      returns (x: seq<Byte>, y: seq<Byte>)
    requires ValidPolicy(p) && Hashable(cs) && Hashable(ds) && multiset(IdsOf(H, cs)) == multiset(IdsOf(H, ds))
    ensures Adjudicate(H, cs, p, version) == Adjudicate(H, ds, p, version) ||
            (Collide(H, x, y) && EncodedIn(cs, x) && EncodedIn(ds, y))
  {
    x, y := OrderedAlike(H, cs, ds);
    if Alike(Ordered(H, cs), Ordered(H, ds)) { AlikeTally(Ordered(H, cs), Ordered(H, ds), p); }
  }

  function Without<T>(xs: seq<T>, j: nat): seq<T>
    requires j < |xs|
  {
    xs[..j] + xs[j + 1..]
  }

  lemma WithoutOne<T>(xs: seq<T>, j: nat)
    requires j < |xs|
    ensures multiset(xs) == multiset(Without(xs, j)) + multiset{xs[j]}
  {
    assert xs == xs[..j] + [xs[j]] + xs[j + 1..];
  }

  lemma IdsOfFront(H: Hash, cs: seq<Claim>)
    requires cs != []
    ensures IdsOf(H, cs) == IdsOf(H, cs[..|cs| - 1]) + [ClaimId(H, cs[|cs| - 1])]
  {
    var front := WithIds(H, cs[..|cs| - 1]);
    assert WithIds(H, cs)[..|front|] == front;
  }

  lemma {:induction false} IdsWithout(H: Hash, ds: seq<Claim>, j: nat)
    requires j < |ds|
    ensures multiset(IdsOf(H, ds)) == multiset(IdsOf(H, Without(ds, j))) + One(ClaimId(H, ds[j]))
  {
    var n := |ds| - 1;
    IdsOfFront(H, ds);
    WithoutFront(ds, j);
    if j < n {
      IdsOfFront(H, Without(ds, j));
      IdsWithout(H, ds[..n], j);
      Swap(IdsOf(H, Without(ds[..n], j)), ClaimId(H, ds[n]), IdsOf(H, ds[..n]), ClaimId(H, ds[j]));
    }
  }

  lemma Swap(rest: seq<Str>, last: Str, front: seq<Str>, x: Str)
    requires multiset(front) == multiset(rest) + One(x)
    ensures multiset(front + [last]) == multiset(rest + [last]) + One(x)
  {}

  lemma WithoutFront<T>(xs: seq<T>, j: nat)
    requires j < |xs|
    ensures j == |xs| - 1 ==> Without(xs, j) == xs[..j]
    ensures j < |xs| - 1 ==>
      Without(xs, j)[..|xs| - 2] == Without(xs[..|xs| - 1], j) && Without(xs, j)[|xs| - 2] == xs[|xs| - 1]
  {}

  lemma {:induction false} IdsPermute(H: Hash, cs: seq<Claim>, ds: seq<Claim>)
    requires multiset(cs) == multiset(ds)
    ensures multiset(IdsOf(H, cs)) == multiset(IdsOf(H, ds))
  {
    assert |multiset(cs)| == |multiset(ds)|;
    if cs != [] {
      var n := |cs| - 1;
      WithoutOne(cs, n);
      assert cs[n] in multiset(ds);
      var j :| 0 <= j < |ds| && ds[j] == cs[n];
      WithoutOne(ds, j);
      assert multiset(Without(cs, n)) == multiset(cs) - multiset{cs[n]} == multiset(Without(ds, j));
      IdsPermute(H, Without(cs, n), Without(ds, j));
      IdsWithout(H, cs, n);
      IdsWithout(H, ds, j);
    }
  }

  /** Any permutation of the claims gives the very same verdict, hash included, or two of their encodings collide. */
  lemma OrderDoesNotMatter(H: Hash, cs: seq<Claim>, ds: seq<Claim>, p: PolicyBundle, version: Str)
      returns (x: seq<Byte>, y: seq<Byte>)
    requires ValidPolicy(p) && Hashable(cs) && multiset(cs) == multiset(ds)
    ensures Adjudicate(H, cs, p, version) == Adjudicate(H, ds, p, version) ||
            (Collide(H, x, y) && EncodedIn(cs, x) && EncodedIn(cs, y))
  {
    forall d | d in ds ensures d in cs { assert d in multiset(ds); }
    IdsPermute(H, cs, ds);
    x, y := VerdictDependsOnIds(H, cs, ds, p, version);
  }

  // ----- the technique list -----

  predicate StrictlySorted(ss: seq<Str>) { forall i, j :: 0 <= i < j < |ss| ==> BytesLess(ss[i], ss[j]) }

  lemma {:induction false} InsertTechniqueElems(s: Str, sorted: seq<Str>, x: Str)
    ensures x in InsertTechnique(s, sorted) <==> x == s || x in sorted
  {
    if sorted != [] {
      assert sorted == [sorted[0]] + sorted[1..];
      InsertTechniqueElems(s, sorted[1..], x);
    }
  }

  lemma {:induction false} InsertTechniqueSorted(s: Str, sorted: seq<Str>)
    requires StrictlySorted(sorted)
    ensures StrictlySorted(InsertTechnique(s, sorted))
  {
    if sorted != [] && sorted[0] != s {
      BytesLessTotal(s, sorted[0]);
      if BytesLess(s, sorted[0]) {
        forall j | 0 <= j < |sorted| ensures BytesLess(s, sorted[j]) {
          if j > 0 { BytesLessTransitive(s, sorted[0], sorted[j]); }
        }
      } else {
        InsertTechniqueSorted(s, sorted[1..]);
        var more := InsertTechnique(s, sorted[1..]);
        forall j | 0 <= j < |more|
          ensures BytesLess(sorted[0], more[j])
        {
          InsertTechniqueElems(s, sorted[1..], more[j]);
        }
      }
    }
  }

  lemma {:induction false} InsertTechniquesMeaning(ts: seq<Str>, sorted: seq<Str>)
    requires StrictlySorted(sorted)
    ensures StrictlySorted(InsertTechniques(ts, sorted))
    ensures forall x :: x in InsertTechniques(ts, sorted) <==> x in ts || x in sorted
  {
    if ts != [] {
      var n := |ts| - 1;
      assert ts == ts[..n] + [ts[n]];
      InsertTechniquesMeaning(ts[..n], sorted);
      InsertTechniqueSorted(ts[n], InsertTechniques(ts[..n], sorted));
      forall x ensures x in InsertTechniques(ts, sorted) <==> x in ts || x in sorted {
        InsertTechniqueElems(ts[n], InsertTechniques(ts[..n], sorted), x);
      }
    }
  }

  predicate Attributed(e: Keyed<Claim>, p: PolicyBundle, x: Str) {
    Usable(e.item, p) && x in p.weights[e.item.predicateName].techniques
  }

  /** The techniques are those of the usable claims' predicates, sorted and each once. */
  lemma {:induction false} TechniquesMeaning(es: seq<Keyed<Claim>>, p: PolicyBundle)
    ensures StrictlySorted(TallyOf(es, p).techniques)
    ensures forall x :: x in TallyOf(es, p).techniques <==> exists e :: e in es && Attributed(e, p, x)
  {
    if es != [] {
      var n := |es| - 1;
      var before := TallyOf(es[..n], p).techniques;
      TechniquesMeaning(es[..n], p);
      if Usable(es[n].item, p) { InsertTechniquesMeaning(p.weights[es[n].item.predicateName].techniques, before); }
      assert es == es[..n] + [es[n]];
      forall x ensures x in TallyOf(es, p).techniques <==> x in before || Attributed(es[n], p, x) {}
    }
  }

  // ----- the verdict hash binds the verdict -----

  predicate ShortVerdict(v: Verdict) {
    ShortList(v.techniques) && Short(v.contributing) && Short(v.policyVersion) && Short(v.kernelVersion) &&
    forall i :: 0 <= i < |v.contributing| ==> Short(v.contributing[i].item.predicateName)
  }

  lemma AttributionBinds(a: Keyed<Attribution>, b: Keyed<Attribution>, s: seq<Byte>, t: seq<Byte>)
    requires Short(a.item.predicateName) && Short(b.item.predicateName) &&
      AttributionBytes(a) + s == AttributionBytes(b) + t
    ensures a == b && s == t
  {
    var sa, sb := I64Bytes(a.item.weight) + s, I64Bytes(b.item.weight) + t;
    Regroup(StrBytes(a.item.predicateName), I64Bytes(a.item.weight), s);
    Regroup(StrBytes(b.item.predicateName), I64Bytes(b.item.weight), t);
    Regroup(a.id, StrBytes(a.item.predicateName) + I64Bytes(a.item.weight), s);
    Regroup(b.id, StrBytes(b.item.predicateName) + I64Bytes(b.item.weight), t);
    SplitAt(a.id, StrBytes(a.item.predicateName) + sa, b.id, StrBytes(b.item.predicateName) + sb);
    StrBinds(a.item.predicateName, b.item.predicateName, sa, sb);
    I64Binds(a.item.weight, b.item.weight, s, t);
  }

  lemma {:induction false} AttributionsFront(cs: seq<Keyed<Attribution>>)
    requires cs != []
    ensures AttributionsBytes(cs) == AttributionBytes(cs[0]) + AttributionsBytes(cs[1..])
  {
    if |cs| > 1 {
      var n := |cs| - 1;
      AttributionsFront(cs[..n]);
      assert cs[..n][1..] == cs[1..][..n - 1];
      Regroup(AttributionBytes(cs[0]), AttributionsBytes(cs[..n][1..]), AttributionBytes(cs[n]));
    }
  }

  lemma {:induction false} AttributionsBind(a: seq<Keyed<Attribution>>, b: seq<Keyed<Attribution>>, s: seq<Byte>,
      t: seq<Byte>)
    requires |a| == |b| && AttributionsBytes(a) + s == AttributionsBytes(b) + t
    requires forall i :: 0 <= i < |a| ==> Short(a[i].item.predicateName) && Short(b[i].item.predicateName)
    ensures a == b && s == t
  {
    if a == [] {
      assert AttributionsBytes(a) + s == s && AttributionsBytes(b) + t == t;
    } else {
      AttributionsFront(a);
      AttributionsFront(b);
      Regroup(AttributionBytes(a[0]), AttributionsBytes(a[1..]), s);
      Regroup(AttributionBytes(b[0]), AttributionsBytes(b[1..]), t);
      AttributionBinds(a[0], b[0], AttributionsBytes(a[1..]) + s, AttributionsBytes(b[1..]) + t);
      AttributionsBind(a[1..], b[1..], s, t);
      assert a == [a[0]] + a[1..] && b == [b[0]] + b[1..];
    }
  }

  lemma LevelsBindVerdict(v: Verdict, w: Verdict)
    requires SeverityLevel(v.severity) == SeverityLevel(w.severity) &&
      DispositionLevel(v.disposition) == DispositionLevel(w.disposition)
    ensures v.severity == w.severity && v.disposition == w.disposition
  {}

  /** Two verdicts hash the same bytes exactly when they agree in everything but the hash. */
  lemma VerdictBytesIdentify(v: Verdict, w: Verdict)
    requires ShortVerdict(v) && ShortVerdict(w)
    ensures VerdictBytes(v) == VerdictBytes(w) <==> v.(hash := w.hash) == w
  {
    if VerdictBytes(v) == VerdictBytes(w) {
      var pv, pw := StrBytes(v.policyVersion) + StrBytes(v.kernelVersion),
        StrBytes(w.policyVersion) + StrBytes(w.kernelVersion);
      var av, aw := AttributionsBytes(v.contributing) + pv, AttributionsBytes(w.contributing) + pw;
      var nv, nw := BigEndian(|v.contributing|, 4) + av, BigEndian(|w.contributing|, 4) + aw;
      var dv, dw := [DispositionLevel(v.disposition)] + (ListBytes(v.techniques) + nv),
        [DispositionLevel(w.disposition)] + (ListBytes(w.techniques) + nw);
      TagBinds(SeverityLevel(v.severity), SeverityLevel(w.severity), I64Bytes(v.confidence) + dv,
        I64Bytes(w.confidence) + dw);
      I64Binds(v.confidence, w.confidence, dv, dw);
      TagBinds(DispositionLevel(v.disposition), DispositionLevel(w.disposition), ListBytes(v.techniques) + nv,
        ListBytes(w.techniques) + nw);
      ListBinds(v.techniques, w.techniques, nv, nw);
      SplitAt(BigEndian(|v.contributing|, 4), av, BigEndian(|w.contributing|, 4), aw);
      LengthBinds(|v.contributing|, |w.contributing|);
      AttributionsBind(v.contributing, w.contributing, pv, pw);
      StrBinds(v.policyVersion, w.policyVersion, StrBytes(v.kernelVersion), StrBytes(w.kernelVersion));
      assert StrBytes(v.kernelVersion) + [] == StrBytes(w.kernelVersion) + [];
      StrBinds(v.kernelVersion, w.kernelVersion, [], []);
      LevelsBindVerdict(v, w);
    }
  }
}
