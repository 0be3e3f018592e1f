/** Verdicts in the terms of claims and policy: who contributes what, and what is hashed (kernel/src). */
module KernelMeaning {
  import opened Common
  import opened Seqs
  import opened Bytes
  import opened Claims
  import opened Kernel
  import opened KernelProofs
  import opened Repricing

  // ----- fixed tables -----

  /** The kill chain from end to end; two tactics are adjacent when one directly follows the other. */
  lemma KillChain(i: nat, j: nat)
    requires i < 12 && j < 12
    ensures var chain := [InitialAccess, Execution, Persistence, PrivilegeEscalation, DefenseEvasion, CredentialAccess,
      Discovery, LateralMovement, Collection, CommandAndControl, Exfiltration, Impact];
      && TACTICS == |chain| && TacticAt(i) == chain[i] && Rank(chain[i]) == i
      && (IsAdjacent(chain[i], chain[j]) <==> i + 1 == j || j + 1 == i)
  {}

  /** High and critical cases are malicious, medium ones suspicious, the rest benign. */
  lemma DispositionTable(s: Severity)
    ensures DispositionFor(s) == Malicious <==> s in {High, Critical}
    ensures DispositionFor(s) == Suspicious <==> s == Medium
    ensures DispositionFor(s) == Benign <==> s in {Info, Low}
  {}

  /** Saturating arithmetic comes as close to the true result as an int64 can. */
  lemma Saturates(n: int, m: Int64)
    ensures Abs(n - Sat(n)) <= Abs(n - m)
  {
    assert IsInt64(m);
  }

  // ----- what a claim contributes -----

  predicate Counts(c: Claim, p: PolicyBundle) { c.evidence != [] && c.predicateName in p.weights }

  /** The predicate's weight for a supporting claim, its negation for a refuting one; -MIN_INT64 is cut to MAX_INT64. */
  function Signed(c: Claim, p: PolicyBundle): Int64
    requires Counts(c, p)
  {
    var w := p.weights[c.predicateName].weight;
    match c.polarity case Supports => w case Refutes => if w == MIN_INT64 then MAX_INT64 else -w
  }

  function EntryOf(e: Keyed<Claim>, p: PolicyBundle): Keyed<Attribution>
    requires Counts(e.item, p)
  {
    Keyed(e.id, Attribution(e.item.predicateName, Signed(e.item, p)))
  }

  lemma ContributionIsSigned(c: Claim, p: PolicyBundle)
    ensures Usable(c, p) <==> Counts(c, p)
    ensures Counts(c, p) ==> Contribution(c, p) == Signed(c, p)
  {}

  function EntryBag(p: PolicyBundle): Keyed<Claim> -> multiset<Keyed<Attribution>> {
    (e: Keyed<Claim>) => if Counts(e.item, p) then multiset{EntryOf(e, p)} else multiset{}
  }

  lemma {:induction false} TallyEntries(es: seq<Keyed<Claim>>, p: PolicyBundle)
    ensures multiset(TallyOf(es, p).contributing) == Sum(es, EntryBag(p))
  {
    if es != [] {
      var n := |es| - 1;
      TallyEntries(es[..n], p);
      ContributionIsSigned(es[n].item, p);
      var before, after := TallyOf(es[..n], p).contributing, TallyOf(es, p).contributing;
      if Counts(es[n].item, p) { assert after == before + [EntryOf(es[n], p)]; }
    }
  }

  lemma {:induction false} SumPermutes<T, C>(xs: seq<T>, ys: seq<T>, f: T -> multiset<C>)
    requires multiset(xs) == multiset(ys)
    ensures Sum(xs, f) == Sum(ys, f)
    decreases |xs|
  {
    if xs == [] {
      assert |multiset(ys)| == 0;
    } else {
      var n := |xs| - 1;
      assert xs[n] in multiset(ys);
      var k :| 0 <= k < |ys| && ys[k] == xs[n];
      SumRemove(ys, k, f);
      RemoveBoth(xs, ys, k);
      SumPermutes(xs[..n], Without(ys, k), f);
    }
  }

  lemma RemoveBoth<T>(xs: seq<T>, ys: seq<T>, k: nat)
    requires xs != [] && multiset(xs) == multiset(ys) && k < |ys| && ys[k] == xs[|xs| - 1]
    ensures multiset(xs[..|xs| - 1]) == multiset(Without(ys, k))
  {
    WithoutOne(ys, k);
    assert xs == xs[..|xs| - 1] + [xs[|xs| - 1]];
    assert multiset(xs) == multiset(xs[..|xs| - 1]) + multiset{xs[|xs| - 1]};
    assert multiset(xs[..|xs| - 1]) == multiset(xs) - multiset{ys[k]};
    assert multiset(Without(ys, k)) == multiset(ys) - multiset{ys[k]};
  }

  /** The entries of a claim list, each under the hash of its claim's encoding. */
  function ClaimEntry(H: Hash, p: PolicyBundle): Claim -> multiset<Keyed<Attribution>> {
    (c: Claim) => EntryBag(p)(Keyed(H(ClaimBytes(c)), c))
  }

  lemma {:induction false} KeyedEntries(H: Hash, cs: seq<Claim>, p: PolicyBundle)
    ensures Sum(WithIds(H, cs), EntryBag(p)) == Sum(cs, ClaimEntry(H, p))
  {
    if cs != [] {
      var n := |cs| - 1;
      KeyedEntries(H, cs[..n], p);
      assert WithIds(H, cs)[..n] == WithIds(H, cs[..n]);
    }
  }

  lemma OrderedEntries(H: Hash, cs: seq<Claim>, p: PolicyBundle)
    ensures multiset(TallyOf(Ordered(H, cs), p).contributing) == Sum(cs, ClaimEntry(H, p))
  {
    TallyEntries(Ordered(H, cs), p);
    SortKeepsEntries(WithIds(H, cs));
    SumPermutes(Ordered(H, cs), WithIds(H, cs), EntryBag(p));
    KeyedEntries(H, cs, p);
  }

  /**
   A verdict with an opinion attributes to every claim that counts, and to no other, its signed weight under the hash
   of its encoding, listed by that hash.
   */
  lemma AttributionExplained(H: Hash, cs: seq<Claim>, p: PolicyBundle, version: Str)
    requires ValidPolicy(p)
    ensures multiset(Adjudicate(H, cs, p, version).contributing) == Sum(cs, ClaimEntry(H, p))
    ensures var listed := Adjudicate(H, cs, p, version).contributing;
      forall i, j :: 0 <= i < j < |listed| ==> !BytesLess(listed[j].id, listed[i].id)
  {
    var t := TallyOf(Ordered(H, cs), p);
    OrderedEntries(H, cs, p);
    EntriesCounted(Ordered(H, cs), p);
    SortKeepsEntries(t.contributing);
    SortSortsIds(t.contributing);
    var listed := Adjudicate(H, cs, p, version).contributing;
    if t.count != 0 {
      forall i, j | 0 <= i < j < |listed| ensures !BytesLess(listed[j].id, listed[i].id) {
        IdsAt(listed, i);
        IdsAt(listed, j);
      }
    }
  }

  lemma {:induction false} EntriesCounted(es: seq<Keyed<Claim>>, p: PolicyBundle)
    ensures |TallyOf(es, p).contributing| == TallyOf(es, p).count
  {
    if es != [] { EntriesCounted(es[..|es| - 1], p); }
  }

  // ----- totals -----

  /** A sum over a list. */
  function Total<T>(xs: seq<T>, f: T -> int): int {
    if xs == [] then 0 else var n := |xs| - 1; Total(xs[..n], f) + f(xs[n])
  }

  lemma {:induction false} TotalWithout<T>(xs: seq<T>, k: nat, f: T -> int)
    requires k < |xs|
    ensures Total(xs, f) == Total(Without(xs, k), f) + f(xs[k])
  {
    var n := |xs| - 1;
    if k < n {
      TotalWithout(xs[..n], k, f);
      WithoutFront(xs, k);
    } else {
      assert Without(xs, k) == xs[..n];
    }
  }

  lemma {:induction false} TotalPermutes<T>(xs: seq<T>, ys: seq<T>, f: T -> int)
    requires multiset(xs) == multiset(ys)
    ensures Total(xs, f) == Total(ys, f)
    decreases |xs|
  {
    if xs == [] {
      assert |multiset(ys)| == 0;
    } else {
      var n := |xs| - 1;
      assert xs[n] in multiset(ys);
      var k :| 0 <= k < |ys| && ys[k] == xs[n];
      TotalWithout(ys, k, f);
      RemoveBoth(xs, ys, k);
      TotalPermutes(xs[..n], Without(ys, k), f);
    }
  }

  predicate CountsFor(c: Claim, p: PolicyBundle, t: Tactic, side: Polarity) {
    Counts(c, p) && p.weights[c.predicateName].tactic == t && c.polarity == side
  }

  /** The plain weight of a claim that counts for a tactic on one side. */
  function WeightFor(p: PolicyBundle, t: Tactic, side: Polarity): Claim -> int {
    (c: Claim) => if CountsFor(c, p, t, side) then p.weights[c.predicateName].weight else 0
  }

  function AbsWeight(p: PolicyBundle): Claim -> int {
    (c: Claim) => if Counts(c, p) then Abs(p.weights[c.predicateName].weight) else 0
  }

  function Item<T>(f: T -> int): Keyed<T> -> int { (e: Keyed<T>) => f(e.item) }

  lemma {:induction false} KeyedTotal(H: Hash, cs: seq<Claim>, f: Claim -> int)
    ensures Total(WithIds(H, cs), Item(f)) == Total(cs, f)
  {
    if cs != [] {
      var n := |cs| - 1;
      KeyedTotal(H, cs[..n], f);
      assert WithIds(H, cs)[..n] == WithIds(H, cs[..n]);
    }
  }

  /** What the kernel's own order adds up is what any order adds up. */
  lemma OrderedTotal(H: Hash, cs: seq<Claim>, f: Claim -> int)
    ensures Total(Ordered(H, cs), Item(f)) == Total(cs, f)
  {
    SortKeepsEntries(WithIds(H, cs));
    TotalPermutes(Ordered(H, cs), WithIds(H, cs), Item(f));
    KeyedTotal(H, cs, f);
  }

  lemma AbsAtLeastZero(e: Keyed<Claim>, p: PolicyBundle)
    ensures Item(AbsWeight(p))(e) >= 0
  {
    if Counts(e.item, p) { assert Abs(p.weights[e.item.predicateName].weight) >= 0; }
  }

  lemma AbsAlike(c: Claim, p: PolicyBundle)
    requires AbsWeight(p)(c) <= MAX_INT64
    ensures Counts(c, p) ==> p.weights[c.predicateName].weight != MIN_INT64
    ensures (if Usable(c, p) then Abs(Contribution(c, p)) else 0) == AbsWeight(p)(c)
  {
    ContributionIsSigned(c, p);
  }

  lemma {:induction false} AbsBounded(es: seq<Keyed<Claim>>, p: PolicyBundle)
    requires Total(es, Item(AbsWeight(p))) <= MAX_INT64
    ensures AbsGain(es, p) == Total(es, Item(AbsWeight(p))) >= 0
    ensures forall e :: e in es && Counts(e.item, p) ==> p.weights[e.item.predicateName].weight != MIN_INT64
  {
    if es != [] {
      var n := |es| - 1;
      AbsPartial(es[..n], p);
      AbsAtLeastZero(es[n], p);
      AbsBounded(es[..n], p);
      AbsAlike(es[n].item, p);
      forall e | e in es && Counts(e.item, p) ensures p.weights[e.item.predicateName].weight != MIN_INT64 {
        assert e in es[..n] || e == es[n];
      }
    }
  }

  lemma {:induction false} AbsPartial(es: seq<Keyed<Claim>>, p: PolicyBundle)
    ensures Total(es, Item(AbsWeight(p))) >= 0
  {
    if es != [] {
      AbsPartial(es[..|es| - 1], p);
      AbsAtLeastZero(es[|es| - 1], p);
    }
  }

  /** Supporting weight less refuting weight. */
  function Net(es: seq<Keyed<Claim>>, p: PolicyBundle, t: Tactic): int {
    Total(es, Item(WeightFor(p, t, Supports))) - Total(es, Item(WeightFor(p, t, Refutes)))
  }

  lemma {:induction false} GainIsNet(es: seq<Keyed<Claim>>, p: PolicyBundle, r: nat)
    requires r < TACTICS && Total(es, Item(AbsWeight(p))) <= MAX_INT64
    ensures GainBelow(es, p, r + 1) - GainBelow(es, p, r) == Net(es, p, TacticAt(r))
  {
    if es != [] {
      var n := |es| - 1;
      AbsBounded(es, p);
      AbsPartial(es[..n], p);
      GainIsNet(es[..n], p, r);
      assert es[n] in es;
      ContributionIsSigned(es[n].item, p);
      RankOfTacticAt(r);
    }
  }

  /**
   Where nothing can overflow, a tactic's score is the weight of the claims supporting it less the weight of those
   refuting it.
   */
  lemma TacticTotals(H: Hash, cs: seq<Claim>, p: PolicyBundle, t: Tactic)
    requires Total(cs, AbsWeight(p)) <= MAX_INT64
    ensures ScoreOf(TallyOf(Ordered(H, cs), p).scores, t) ==
      Total(cs, WeightFor(p, t, Supports)) - Total(cs, WeightFor(p, t, Refutes))
  {
    OrderedTotal(H, cs, AbsWeight(p));
    ScoreIsNet(Ordered(H, cs), p, t);
    OrderedTotal(H, cs, WeightFor(p, t, Supports));
    OrderedTotal(H, cs, WeightFor(p, t, Refutes));
  }

  lemma ScoreIsNet(es: seq<Keyed<Claim>>, p: PolicyBundle, t: Tactic)
    requires Total(es, Item(AbsWeight(p))) <= MAX_INT64
    ensures ScoreOf(TallyOf(es, p).scores, t) == Net(es, p, t)
  {
    AbsBounded(es, p);
    ScoresExact(es, p, Rank(t));
    GainIsNet(es, p, Rank(t));
  }

  // ----- the verdict from the claims -----

  function SideWeight(p: PolicyBundle, side: Polarity): Claim -> int {
    (c: Claim) => if Counts(c, p) && c.polarity == side then p.weights[c.predicateName].weight else 0
  }

  /** The weight of all claims that support less that of all that refute. */
  function Balance(cs: seq<Claim>, p: PolicyBundle): int {
    Total(cs, SideWeight(p, Supports)) - Total(cs, SideWeight(p, Refutes))
  }

  lemma {:induction false} GainIsBalance(es: seq<Keyed<Claim>>, p: PolicyBundle)
    requires Total(es, Item(AbsWeight(p))) <= MAX_INT64
    ensures GainBelow(es, p, TACTICS) ==
      Total(es, Item(SideWeight(p, Supports))) - Total(es, Item(SideWeight(p, Refutes)))
  {
    if es != [] {
      var n := |es| - 1;
      AbsBounded(es, p);
      AbsAtLeastZero(es[n], p);
      GainIsBalance(es[..n], p);
      assert es[n] in es;
      ContributionIsSigned(es[n].item, p);
    }
  }

  function TacticsOf(cs: seq<Claim>, p: PolicyBundle): set<Tactic> {
    set c | c in cs && Counts(c, p) :: p.weights[c.predicateName].tactic
  }

  /** Both tactics of a consecutive pair are in the case, and the policy has a bonus for the pair. */
  predicate Bonus(ts: set<Tactic>, p: PolicyBundle, a: Tactic, b: Tactic) {
    a in ts && b in ts && (a, b) in p.multipliers
  }

  function PairTotal(ts: set<Tactic>, p: PolicyBundle, r: nat): int
    requires r <= TACTICS
  {
    if r < 2 then 0
    else
      var a, b := TacticAt(r - 2), TacticAt(r - 1);
      PairTotal(ts, p, r - 1) + if Bonus(ts, p, a, b) then p.multipliers[(a, b)] else 0
  }

  function AbsPairTotal(ts: set<Tactic>, p: PolicyBundle, r: nat): nat
    requires r <= TACTICS
  {
    if r < 2 then 0
    else
      var a, b := TacticAt(r - 2), TacticAt(r - 1);
      AbsPairTotal(ts, p, r - 1) + if Bonus(ts, p, a, b) then Abs(p.multipliers[(a, b)]) else 0
  }

  lemma {:induction false} PairsOfKeys(scores: map<Tactic, Int64>, p: PolicyBundle, r: nat)
    requires r <= TACTICS
    ensures PairSum(scores, p, r) == PairTotal(scores.Keys, p, r)
    ensures AbsPairSum(scores, p, r) == AbsPairTotal(scores.Keys, p, r)
  {
    if r >= 2 { PairsOfKeys(scores, p, r - 1); }
  }

  lemma PresentTactics(H: Hash, cs: seq<Claim>, p: PolicyBundle)
    ensures TallyOf(Ordered(H, cs), p).scores.Keys == TacticsOf(cs, p)
  {
    var es := Ordered(H, cs);
    CountUsable(es, p);
    forall t | t in TallyOf(es, p).scores ensures t in TacticsOf(cs, p) {
      var i :| 0 <= i < |es| && Usable(es[i].item, p) && p.weights[es[i].item.predicateName].tactic == t;
      var c := OrderedEntry(H, cs, i);
    }
    forall t | t in TacticsOf(cs, p) ensures t in TallyOf(es, p).scores {
      var c :| c in cs && Counts(c, p) && p.weights[c.predicateName].tactic == t;
      var i := EntryOrdered(H, cs, c);
      assert Usable(es[i].item, p);
    }
  }

  /** Nothing can overflow. */
  predicate Fits(cs: seq<Claim>, p: PolicyBundle) {
    Total(cs, AbsWeight(p)) + AbsPairTotal(TacticsOf(cs, p), p, TACTICS) <= MAX_INT64
  }

  lemma AttributedBalance(H: Hash, cs: seq<Claim>, p: PolicyBundle)
    requires Total(cs, AbsWeight(p)) <= MAX_INT64
    ensures var listed := TallyOf(Ordered(H, cs), p).contributing;
      SumWeights(listed) == Balance(cs, p) && SumAbsWeights(listed) == Total(cs, AbsWeight(p))
  {
    var es := Ordered(H, cs);
    OrderedTotal(H, cs, AbsWeight(p));
    OrderedTotal(H, cs, SideWeight(p, Supports));
    OrderedTotal(H, cs, SideWeight(p, Refutes));
    AttributedIsGained(es, p);
    AbsBounded(es, p);
    GainIsBalance(es, p);
  }

  /** The score a case comes to: claims for less claims against, and the chain bonuses of its tactics. */
  function Score(cs: seq<Claim>, p: PolicyBundle): int { Balance(cs, p) + PairTotal(TacticsOf(cs, p), p, TACTICS) }

  /** The severity of the highest tier whose threshold the score meets, or of the lowest tier. */
  predicate Tier(ts: seq<Threshold>, score: int, s: Severity)
    requires ts != []
  {
    (score < ts[0].score && s == ts[0].severity) ||
    exists i :: 0 <= i < |ts| && s == ts[i].severity && ts[i].score <= score &&
      forall j :: i < j < |ts| ==> score < ts[j].score
  }

  lemma ClassifiedByTier(p: PolicyBundle, score: int)
    requires ValidPolicy(p)
    ensures Tier(p.thresholds, score, Classify(p, score))
  {
    var ts := p.thresholds;
    ClassifyIsHighest(p, score);
    if score >= ts[0].score {
      var i := HighestTier(ts, score, |ts|);
      assert HighestMet(ts, score, i);
    }
  }

  lemma {:induction false} HighestTier(ts: seq<Threshold>, score: int, n: nat) returns (i: nat)
    requires 0 < n <= |ts| && ts[0].score <= score && forall j :: n <= j < |ts| ==> score < ts[j].score
    ensures i < n && ts[i].score <= score && forall j :: i < j < |ts| ==> score < ts[j].score
  {
    if ts[n - 1].score <= score { i := n - 1; } else { i := HighestTier(ts, score, n - 1); }
  }

  lemma OpinionHeld(H: Hash, cs: seq<Claim>, p: PolicyBundle, version: Str)
    requires ValidPolicy(p)
    ensures Adjudicate(H, cs, p, version).disposition == Incomplete <==> TallyOf(Ordered(H, cs), p).count == 0
    ensures TallyOf(Ordered(H, cs), p).count == 0 <==> forall c :: c in cs ==> !Counts(c, p)
  {
    NoOpinion(TallyOf(Ordered(H, cs), p), p, version);
    CountOrdered(H, cs, p);
    if c :| c in cs && Counts(c, p) { assert Usable(c, p); }
  }

  /** From claims to verdict, when nothing overflows and some claim counts. */
  lemma VerdictFromClaims(H: Hash, cs: seq<Claim>, p: PolicyBundle, version: Str)
    requires ValidPolicy(p) && Fits(cs, p) && exists c :: c in cs && Counts(c, p)
    ensures var v, score := Adjudicate(H, cs, p, version), Score(cs, p);
      && v.confidence == (if score < 0 then 0 else if score > 10_000 then 10_000 else score)
      && Tier(p.thresholds, score, v.severity)
  {
    OpinionHeld(H, cs, p, version);
    ScoreExact(H, cs, p);
    ClassifiedByTier(p, Score(cs, p));
  }

  lemma ScoreExact(H: Hash, cs: seq<Claim>, p: PolicyBundle)
    requires Fits(cs, p)
    ensures TotalScore(TallyOf(Ordered(H, cs), p).scores, p) == Score(cs, p)
  {
    PresentTactics(H, cs, p);
    PairsOfKeys(TallyOf(Ordered(H, cs), p).scores, p, TACTICS);
    AttributedBalance(H, cs, p);
    TotalExact(Ordered(H, cs), p);
  }

  /** Every verdict, overflow or not: its fields in the policy's own terms. */
  lemma VerdictSpelled(H: Hash, cs: seq<Claim>, p: PolicyBundle, version: Str)
    requires ValidPolicy(p)
    ensures var v := Adjudicate(H, cs, p, version);
      && v.policyVersion == p.version && v.kernelVersion == version && v.hash == H(VerdictBytes(v))
      && ((forall c :: c in cs ==> !Counts(c, p)) ==>
            v.severity == Info && v.confidence == 0 && v.disposition == Incomplete && v.techniques == [] &&
            v.contributing == [])
    ensures var v := Adjudicate(H, cs, p, version);
      (exists c :: c in cs && Counts(c, p)) ==>
        && (exists score: int :: v.confidence == (if score < 0 then 0 else if score > 10_000 then 10_000 else score) &&
              Tier(p.thresholds, score, v.severity))
        && (v.disposition == Malicious <==> v.severity in {High, Critical})
        && (v.disposition == Suspicious <==> v.severity == Medium)
        && (v.disposition == Benign <==> v.severity in {Info, Low})
  {
    var t := TallyOf(Ordered(H, cs), p);
    OpinionHeld(H, cs, p, version);
    if t.count != 0 {
      ClassifiedByTier(p, TotalScore(t.scores, p));
      DispositionTable(Classify(p, TotalScore(t.scores, p)));
    }
  }

  // ----- claims against never help -----

  function Refuted(cs: seq<Claim>, i: nat): seq<Claim>
    requires i < |cs|
  {
    cs[i := cs[i].(polarity := Refutes)]
  }

  lemma {:induction false} TotalChanged<T>(xs: seq<T>, i: nat, x: T, f: T -> int)
    requires i < |xs|
    ensures Total(xs[i := x], f) == Total(xs, f) - f(xs[i]) + f(x)
  {
    var n := |xs| - 1;
    var ys := xs[i := x];
    if i < n {
      assert ys[..n] == xs[..n][i := x];
      TotalChanged(xs[..n], i, x, f);
    } else {
      assert ys[..n] == xs[..n];
    }
  }

  lemma SameTactics(cs: seq<Claim>, i: nat, p: PolicyBundle)
    requires i < |cs|
    ensures TacticsOf(Refuted(cs, i), p) == TacticsOf(cs, p)
  {
    var ds := Refuted(cs, i);
    forall k | 0 <= k < |cs| && Counts(cs[k], p)
      ensures Counts(ds[k], p) && p.weights[ds[k].predicateName].tactic in TacticsOf(ds, p)
    {
      assert ds[k] in ds;
    }
    forall k | 0 <= k < |cs| && Counts(ds[k], p)
      ensures Counts(cs[k], p) && p.weights[cs[k].predicateName].tactic in TacticsOf(cs, p)
    {
      assert cs[k] in cs;
    }
  }

  /** Turning a supporting claim of non-negative weight against the case takes twice its weight off the score. */
  lemma RefutingLowersScore(cs: seq<Claim>, i: nat, p: PolicyBundle)
    requires i < |cs| && Counts(cs[i], p) && cs[i].polarity == Supports
    ensures Score(Refuted(cs, i), p) == Score(cs, p) - 2 * p.weights[cs[i].predicateName].weight
    ensures Fits(cs, p) ==> Fits(Refuted(cs, i), p)
  {
    var x := cs[i].(polarity := Refutes);
    SameTactics(cs, i, p);
    TotalChanged(cs, i, x, SideWeight(p, Supports));
    TotalChanged(cs, i, x, SideWeight(p, Refutes));
    TotalChanged(cs, i, x, AbsWeight(p));
  }

  /** So the verdict's confidence never rises by it. */
  lemma RefutingNeverRaises(H: Hash, cs: seq<Claim>, i: nat, p: PolicyBundle, version: Str)
    requires ValidPolicy(p) && Fits(cs, p)
    requires i < |cs| && Counts(cs[i], p) && cs[i].polarity == Supports && p.weights[cs[i].predicateName].weight >= 0
    ensures Adjudicate(H, Refuted(cs, i), p, version).confidence <= Adjudicate(H, cs, p, version).confidence
  {
    var ds := Refuted(cs, i);
    RefutingLowersScore(cs, i, p);
    assert cs[i] in cs && ds[i] in ds && Counts(ds[i], p);
    VerdictFromClaims(H, cs, p, version);
    VerdictFromClaims(H, ds, p, version);
  }

  function RefutedEntry(es: seq<Keyed<Claim>>, i: nat): seq<Keyed<Claim>>
    requires i < |es|
  {
    es[i := Keyed(es[i].id, es[i].item.(polarity := Refutes))]
  }

  lemma {:induction false} RefutedTally(es: seq<Keyed<Claim>>, i: nat, p: PolicyBundle)
    requires i < |es| && Counts(es[i].item, p) && es[i].item.polarity == Supports &&
      p.weights[es[i].item.predicateName].weight >= 0
    ensures Dominates(TallyOf(RefutedEntry(es, i), p), TallyOf(es, p))
  {
    var n := |es| - 1;
    var fs := RefutedEntry(es, i);
    if i < n {
      assert fs[..n] == RefutedEntry(es[..n], i);
      RefutedTally(es[..n], i, p);
    } else {
      assert fs[..n] == es[..n];
    }
  }

  /** Scored in one order the total never rises by it either, saturation included. */
  lemma RefutingNeverRaisesTotal(es: seq<Keyed<Claim>>, i: nat, p: PolicyBundle)
    requires i < |es| && Counts(es[i].item, p) && es[i].item.polarity == Supports &&
      p.weights[es[i].item.predicateName].weight >= 0
    ensures TotalScore(TallyOf(RefutedEntry(es, i), p).scores, p) <= TotalScore(TallyOf(es, p).scores, p)
  {
    RefutedTally(es, i, p);
    var s, t := TallyOf(RefutedEntry(es, i), p).scores, TallyOf(es, p).scores;
    RaisedBase(s, t, TACTICS);
    SamePresent(s, t, TACTICS);
  }

  // ----- the techniques and the bytes of a verdict -----

  /** The claim counts and its predicate stands for the technique. */
  predicate Indicates(c: Claim, p: PolicyBundle, x: Str) {
    Counts(c, p) && x in p.weights[c.predicateName].techniques
  }

  lemma AttributedIs(H: Hash, cs: seq<Claim>, p: PolicyBundle, x: Str)
    ensures (exists e :: e in Ordered(H, cs) && Attributed(e, p, x)) <==> exists c :: c in cs && Indicates(c, p, x)
  {
    var es := Ordered(H, cs);
    if e :| e in es && Attributed(e, p, x) {
      var i :| 0 <= i < |es| && es[i] == e;
      var c := OrderedEntry(H, cs, i);
      assert Indicates(c, p, x);
    }
    if c :| c in cs && Indicates(c, p, x) {
      var i := EntryOrdered(H, cs, c);
      assert Attributed(es[i], p, x);
    }
  }

  /** The techniques of the predicates of the claims that count, sorted and each once. */
  lemma TechniquesSpelled(H: Hash, cs: seq<Claim>, p: PolicyBundle, version: Str)
    requires ValidPolicy(p)
    ensures var ts := Adjudicate(H, cs, p, version).techniques;
      && (forall i, j :: 0 <= i < j < |ts| ==> BytesLess(ts[i], ts[j]))
      && forall x :: x in ts <==> exists c :: c in cs && Indicates(c, p, x)
  {
    TechniquesMeaning(Ordered(H, cs), p);
    OpinionHeld(H, cs, p, version);
    forall x ensures x in Adjudicate(H, cs, p, version).techniques <==> exists c :: c in cs && Indicates(c, p, x) {
      AttributedIs(H, cs, p, x);
    }
  }

  /** Severities and dispositions as the bytes 0 to 4 and 0 to 3. */
  function ReadSeverity(bs: seq<Byte>): Option<Read<Severity>> {
    if bs == [] || bs[0] > 4 then None
    else Some(Read([Severity.Info, Low, Medium, High, Critical][bs[0]], bs[1..]))
  }

  function ReadDisposition(bs: seq<Byte>): Option<Read<Disposition>> {
    if bs == [] || bs[0] > 3 then None
    else Some(Read([Disposition.Incomplete, Benign, Suspicious, Malicious][bs[0]], bs[1..]))
  }

  /** Thirty-two bytes of claim id, the predicate, the weight. */
  ghost predicate ReadsEntry(bs: seq<Byte>, c: Keyed<Attribution>, rest: seq<Byte>) {
    |bs| >= 32 && bs[..32] == c.id &&
    exists r1 :: ReadStr(bs[32..]) == Some(Read(c.item.predicateName, r1)) &&
      ReadI64(r1) == Some(Read(c.item.weight, rest))
  }

  ghost predicate ReadsEntries(bs: seq<Byte>, cs: seq<Keyed<Attribution>>, rest: seq<Byte>)
    decreases |cs|
  {
    if cs == [] then bs == rest else exists r1 :: ReadsEntry(bs, cs[0], r1) && ReadsEntries(r1, cs[1..], rest)
  }

  lemma EntryReads(c: Keyed<Attribution>, rest: seq<Byte>)
    requires Short(c.item.predicateName)
    ensures ReadsEntry(AttributionBytes(c) + rest, c, rest)
  {
    var bs, r1 := AttributionBytes(c) + rest, I64Bytes(c.item.weight) + rest;
    assert bs[..32] == c.id && bs[32..] == StrBytes(c.item.predicateName) + r1;
    StrReads(c.item.predicateName, r1);
    I64Reads(c.item.weight, rest);
  }

  lemma {:induction false} EntriesRead(cs: seq<Keyed<Attribution>>, rest: seq<Byte>)
    requires forall i :: 0 <= i < |cs| ==> Short(cs[i].item.predicateName)
    ensures ReadsEntries(AttributionsBytes(cs) + rest, cs, rest)
    decreases |cs|
  {
    if cs == [] {
      assert AttributionsBytes(cs) + rest == rest;
    } else {
      var r1 := AttributionsBytes(cs[1..]) + rest;
      AttributionsFront(cs);
      Regroup(AttributionBytes(cs[0]), AttributionsBytes(cs[1..]), rest);
      EntryReads(cs[0], r1);
      EntriesRead(cs[1..], rest);
    }
  }

  ghost predicate ReadsRuling(bs: seq<Byte>, v: Verdict, rest: seq<Byte>) {
    exists r1, r2 :: ReadSeverity(bs) == Some(Read(v.severity, r1)) && ReadI64(r1) == Some(Read(v.confidence, r2)) &&
      ReadDisposition(r2) == Some(Read(v.disposition, rest))
  }

  ghost predicate ReadsVersions(bs: seq<Byte>, v: Verdict) {
    exists r1 :: ReadStr(bs) == Some(Read(v.policyVersion, r1)) && ReadStr(r1) == Some(Read(v.kernelVersion, []))
  }

  function AfterRuling(v: Verdict): seq<Byte> {
    ListBytes(v.techniques) + (BigEndian(|v.contributing|, 4) +
      (AttributionsBytes(v.contributing) + (StrBytes(v.policyVersion) + StrBytes(v.kernelVersion))))
  }

  lemma RulingReads(v: Verdict)
    ensures ReadsRuling(VerdictBytes(v), v, AfterRuling(v))
  {
    var r2 := [DispositionLevel(v.disposition)] + AfterRuling(v);
    var r1 := I64Bytes(v.confidence) + r2;
    assert VerdictBytes(v) == [SeverityLevel(v.severity)] + r1;
    Tagged(SeverityLevel(v.severity), r1);
    I64Reads(v.confidence, r2);
    Tagged(DispositionLevel(v.disposition), AfterRuling(v));
    assert ReadSeverity(VerdictBytes(v)) == Some(Read(v.severity, r1));
    assert ReadDisposition(r2) == Some(Read(v.disposition, AfterRuling(v)));
  }

  lemma VersionsRead(v: Verdict)
    requires ShortVerdict(v)
    ensures ReadsVersions(StrBytes(v.policyVersion) + StrBytes(v.kernelVersion), v)
  {
    StrReads(v.policyVersion, StrBytes(v.kernelVersion));
    assert StrBytes(v.kernelVersion) + [] == StrBytes(v.kernelVersion);
    StrReads(v.kernelVersion, []);
  }

  /** Read from the front, what is hashed gives the verdict's fields in this order and nothing more. */
  lemma VerdictReadsBack(v: Verdict) returns (a: seq<Byte>, b: seq<Byte>, d: seq<Byte>)
    requires ShortVerdict(v)
    ensures ReadsRuling(VerdictBytes(v), v, a)
    ensures ReadList(a) == Some(Read(v.techniques, b))
    ensures |b| >= 4 && Number(b[..4]) == |v.contributing| && ReadsEntries(b[4..], v.contributing, d)
    ensures ReadsVersions(d, v)
  {
    d := StrBytes(v.policyVersion) + StrBytes(v.kernelVersion);
    b := BigEndian(|v.contributing|, 4) + (AttributionsBytes(v.contributing) + d);
    a := AfterRuling(v);
    RulingReads(v);
    ListReads(v.techniques, b);
    Powers();
    NumberOfBigEndian(|v.contributing|, 4);
    assert b[..4] == BigEndian(|v.contributing|, 4) && b[4..] == AttributionsBytes(v.contributing) + d;
    EntriesRead(v.contributing, d);
    VersionsRead(v);
  }
}
