/** The investigation loop and its claim gate (investigator.py, claim_gate.py). */
module Investigate {
  import opened Common
  import opened Seqs
  import opened Bytes
  import opened Claims
  import opened Kernel
  import opened KernelProofs

  // ----- the gate -----

  datatype Gate = Gate(pinned: set<Str>, start: int, end: int, known: set<Str>)

  datatype Reason = NoEvidence | UnpinnedEvidence | UnknownPredicate | EndsBeforeStart | OutsideWindow

  datatype Rejection = Rejection(proposed: Claim, reason: Reason)

  /** The first check that fails, the most fundamental first. */
  function Fault(g: Gate, c: Claim): Option<Reason> {
    if c.evidence == [] then Some(NoEvidence)
    else if exists e :: e in c.evidence && e !in g.pinned then Some(UnpinnedEvidence)
    else if c.predicateName !in g.known then Some(UnknownPredicate)
    else if c.end < c.start then Some(EndsBeforeStart)
    else if c.start < g.start || c.end > g.end then Some(OutsideWindow)
    else None
  }

  predicate Admits(g: Gate, c: Claim) { Fault(g, c).None? }

  /**
   Admitted claims are exactly those that cite evidence, all of it pinned, assert a registered predicate and stay in the
   window.
   */
  lemma AdmissionMeaning(g: Gate, c: Claim)
    ensures Admits(g, c) <==>
      c.evidence != [] && (forall e :: e in c.evidence ==> e in g.pinned) && c.predicateName in g.known &&
      g.start <= c.start <= c.end <= g.end
  {}

  /** The reason given is that of the first check to fail, in this order. */
  lemma FaultExactly(g: Gate, c: Claim)
    ensures var cited := forall e :: e in c.evidence ==> e in g.pinned;
      && (Fault(g, c) == Some(NoEvidence) <==> c.evidence == [])
      && (Fault(g, c) == Some(UnpinnedEvidence) <==> c.evidence != [] && !cited)
      && (Fault(g, c) == Some(UnknownPredicate) <==> c.evidence != [] && cited && c.predicateName !in g.known)
      && (Fault(g, c) == Some(EndsBeforeStart) <==>
            c.evidence != [] && cited && c.predicateName in g.known && c.end < c.start)
      && (Fault(g, c) == Some(OutsideWindow) <==>
            c.evidence != [] && cited && c.predicateName in g.known && c.start <= c.end &&
            !(g.start <= c.start && c.end <= g.end))
  {}

  // ----- the loop's inputs and outputs -----

  datatype Turn = Turn(calls: seq<string>, claims: seq<Claim>)

  /** Anything a provider may do: a reply for each turn number and the tool results so far. */
  type Provider = (nat, seq<string>) -> Turn

  datatype Budget = Budget(maxToolCalls: int, maxTurns: int)

  datatype Outcome = Outcome(accepted: seq<Claim>, rejected: seq<Rejection>, exhausted: bool, hypotheses: set<Str>)

  // ----- which turns run: the gate has no say -----

  /** The turns from turn i on; the loop ends with a turn without calls, or out of budget. */
  function TurnsFrom(p: Provider, b: Budget, i: nat, results: seq<string>): seq<Turn>
    decreases b.maxTurns - i
  {
    if i >= b.maxTurns then []
    else
      var turn := p(i, results);
      if turn.calls == [] || |results| + |turn.calls| > b.maxToolCalls then [turn]
      else [turn] + TurnsFrom(p, b, i + 1, results + turn.calls)
  }

  function Exhausted(p: Provider, b: Budget, i: nat, results: seq<string>): bool
    decreases b.maxTurns - i
  {
    if i >= b.maxTurns then true
    else
      var turn := p(i, results);
      if turn.calls == [] then false
      else if |results| + |turn.calls| > b.maxToolCalls then true
      else Exhausted(p, b, i + 1, results + turn.calls)
  }

  function Proposals(turns: seq<Turn>): seq<Claim> {
    if turns == [] then [] else var n := |turns| - 1; Proposals(turns[..n]) + turns[n].claims
  }

  function ByGate(g: Gate): Claim -> bool { c => Admits(g, c) }

  function Accepted(g: Gate, cs: seq<Claim>): seq<Claim> { Filter(cs, ByGate(g)) }

  function Rejected(g: Gate, cs: seq<Claim>): seq<Rejection> {
    if cs == [] then []
    else
      var n := |cs| - 1;
      Rejected(g, cs[..n]) + (match Fault(g, cs[n]) case None => [] case Some(reason) => [Rejection(cs[n], reason)])
  }

  function Hypotheses(cs: seq<Claim>): set<Str> {
    set c | c in cs && c.hypothesis.Some? && c.hypothesis.value != [] :: c.hypothesis.value
  }

  // ----- the loop -----

  lemma AcceptedMore(g: Gate, cs: seq<Claim>, c: Claim)
    ensures Accepted(g, cs + [c]) == if Admits(g, c) then Accepted(g, cs) + [c] else Accepted(g, cs)
    ensures Rejected(g, cs + [c]) ==
      Rejected(g, cs) + (match Fault(g, c) case None => [] case Some(reason) => [Rejection(c, reason)])
    ensures Hypotheses(cs + [c]) ==
      Hypotheses(cs) + (if c.hypothesis.Some? && c.hypothesis.value != [] then {c.hypothesis.value} else {})
  {
    assert (cs + [c])[..|cs|] == cs;
  }

  lemma {:induction false} ProposalsMore(turns: seq<Turn>, turn: Turn)
    ensures Proposals(turns + [turn]) == Proposals(turns) + turn.claims
  {
    assert (turns + [turn])[..|turns|] == turns;
  }

  /** What has been gated so far is the given proposals. */
  ghost predicate Gated(g: Gate, cs: seq<Claim>, accepted: seq<Claim>, rejected: seq<Rejection>, hypotheses: set<Str>) {
    accepted == Accepted(g, cs) && rejected == Rejected(g, cs) && hypotheses == Hypotheses(cs)
  }

  /** Passes a turn's proposals through the gate, one after the other. */
  method GateTurn(g: Gate, claims: seq<Claim>, accepted: seq<Claim>, rejected: seq<Rejection>, hypotheses: set<Str>,
      ghost before: seq<Claim>)
    returns (accepted': seq<Claim>, rejected': seq<Rejection>, hypotheses': set<Str>)
    requires Gated(g, before, accepted, rejected, hypotheses)
    ensures Gated(g, before + claims, accepted', rejected', hypotheses')
  {
    accepted', rejected', hypotheses' := accepted, rejected, hypotheses;
    assert before + claims[..0] == before;
    for i := 0 to |claims|
      invariant Gated(g, before + claims[..i], accepted', rejected', hypotheses')
    {
      var c := claims[i];
      assert before + claims[..i + 1] == before + claims[..i] + [c];
      AcceptedMore(g, before + claims[..i], c);
      if c.hypothesis.Some? && |c.hypothesis.value| > 0 {
        hypotheses' := hypotheses' + {c.hypothesis.value};
      }
      var fault := Fault(g, c);
      if fault.None? {
        accepted' := accepted' + [c];
      } else {
        rejected' := rejected' + [Rejection(c, fault.value)];
      }
    }
    assert claims[..|claims|] == claims;
  }

  /** The tool calls of the turns, one turn after the other. */
  function CallsOf(turns: seq<Turn>): seq<string> {
    if turns == [] then [] else var n := |turns| - 1; CallsOf(turns[..n]) + turns[n].calls
  }

  function UpTo(calls: seq<string>, limit: int): seq<string> {
    if limit < 0 then [] else if |calls| <= limit then calls else calls[..limit]
  }

  lemma CallsMore(turns: seq<Turn>, turn: Turn)
    ensures CallsOf(turns + [turn]) == CallsOf(turns) + turn.calls
  {
    assert (turns + [turn])[..|turns|] == turns;
  }

  lemma {:induction false} CallsFront(turns: seq<Turn>)
    requires turns != []
    ensures CallsOf(turns) == turns[0].calls + CallsOf(turns[1..])
  {
    var n := |turns| - 1;
    if n > 0 {
      CallsFront(turns[..n]);
      assert turns[..n][1..] == turns[1..][..n - 1];
    }
  }

  /** Turn k is the provider's reply to the results of the turns before it. */
  predicate Replies(p: Provider, i: nat, results: seq<string>, turns: seq<Turn>, k: nat) {
    k < |turns| && turns[k] == p(i + k, results + CallsOf(turns[..k]))
  }

  /** A turn after which the loop goes on made calls, all within the budget. */
  predicate GoesOn(b: Budget, results: seq<string>, turns: seq<Turn>, k: nat) {
    k < |turns| && turns[k].calls != [] && |results| + |CallsOf(turns[..k + 1])| <= b.maxToolCalls
  }

  /**
   Which turns run: each is the provider's reply to the results so far; the loop goes on after a turn whose calls fit
   the budget, and ends with one without calls, one past the budget or the last one allowed. The budget counts as
   exhausted exactly unless the loop ended with a turn without calls.
   */
  lemma {:induction false} TurnsExactly(p: Provider, b: Budget, i: nat, results: seq<string>)
    ensures var turns := TurnsFrom(p, b, i, results);
      && (turns == [] <==> b.maxTurns <= i)
      && (forall k :: 0 <= k < |turns| ==> Replies(p, i, results, turns, k))
      && (forall k :: 0 <= k < |turns| - 1 ==> GoesOn(b, results, turns, k))
      && (turns != [] ==> !GoesOn(b, results, turns, |turns| - 1) || i + |turns| == b.maxTurns)
      && (Exhausted(p, b, i, results) <==> turns == [] || turns[|turns| - 1].calls != [])
    decreases b.maxTurns - i
  {
    if i < b.maxTurns {
      var turns, turn := TurnsFrom(p, b, i, results), p(i, results);
      FirstTurn(p, b, i, results, turns);
      if turn.calls != [] && |results| + |turn.calls| <= b.maxToolCalls {
        var more := results + turn.calls;
        TurnsExactly(p, b, i + 1, more);
        assert turns[1..] == TurnsFrom(p, b, i + 1, more);
        LaterTurns(p, b, i, results, turns, i + 1, more, turns[1..]);
      }
    }
  }

  lemma FirstTurn(p: Provider, b: Budget, i: nat, results: seq<string>, turns: seq<Turn>)
    requires turns != [] && turns[0] == p(i, results)
    ensures Replies(p, i, results, turns, 0)
    ensures GoesOn(b, results, turns, 0) <==>
      turns[0].calls != [] && |results| + |turns[0].calls| <= b.maxToolCalls
  {
    var first := turns[..1];
    assert turns[..0] == [] && results + [] == results;
    assert first[..0] == [] && CallsOf(first) == [] + turns[0].calls == turns[0].calls;
  }

  lemma LaterTurns(p: Provider, b: Budget, i: nat, results: seq<string>, turns: seq<Turn>, next: nat,
      more: seq<string>, rest: seq<Turn>)
    requires turns != [] && next == i + 1 && more == results + turns[0].calls && rest == turns[1..]
    requires Replies(p, i, results, turns, 0) && forall k :: 0 <= k < |rest| ==> Replies(p, next, more, rest, k)
    ensures forall k :: 0 <= k < |turns| ==> Replies(p, i, results, turns, k)
    ensures forall k :: 0 < k < |turns| ==>
      (GoesOn(b, results, turns, k) <==> GoesOn(b, more, rest, k - 1))
  {
    forall k | 0 < k < |turns|
      ensures Replies(p, i, results, turns, k)
      ensures GoesOn(b, results, turns, k) <==> GoesOn(b, more, rest, k - 1)
    {
      LaterReplies(p, i, results, turns, k - 1);
      LaterGoesOn(b, results, turns, k - 1);
    }
  }

  lemma LaterReplies(p: Provider, i: nat, results: seq<string>, turns: seq<Turn>, k: nat)
    requires turns != [] && Replies(p, i + 1, results + turns[0].calls, turns[1..], k)
    ensures Replies(p, i, results, turns, k + 1)
  {
    CallsFront(turns[..k + 1]);
    assert turns[..k + 1][1..] == turns[1..][..k];
    assert results + turns[0].calls + CallsOf(turns[1..][..k]) == results + CallsOf(turns[..k + 1]);
  }

  lemma LaterGoesOn(b: Budget, results: seq<string>, turns: seq<Turn>, k: nat)
    requires turns != [] && k < |turns| - 1
    ensures GoesOn(b, results, turns, k + 1) <==> GoesOn(b, results + turns[0].calls, turns[1..], k)
  {
    CallsFront(turns[..k + 2]);
    assert turns[..k + 2][1..] == turns[1..][..k + 1];
  }

  /** Counts the calls one by one; past the budget the loop stops at once. */
  method RunCalls(calls: seq<string>, results: seq<string>, made: nat, limit: int)
      returns (more: seq<string>, over: bool)
    requires made == |results| && (results == [] || made <= limit)
    ensures over <==> calls != [] && made + |calls| > limit
    ensures !over ==> more == results + calls
    ensures results <= more && (more == [] || |more| <= limit)
    ensures more == UpTo(results + calls, limit)
  {
    more := results;
    var count := made;
    over := false;
    for i := 0 to |calls|
      invariant more == results + calls[..i] && count == |more| && (more == [] || |more| <= limit)
    {
      count := count + 1;
      if count > limit {
        assert more == UpTo(results + calls, limit);
        return more, true;
      }
      more := more + [calls[i]];
    }
    assert calls[..|calls|] == calls;
  }

  /** After turns `ran` and their calls the rest of the run starts at turn i. */
  predicate RunTo(p: Provider, b: Budget, i: nat, results: seq<string>, ran: seq<Turn>) {
    && TurnsFrom(p, b, 0, []) == ran + TurnsFrom(p, b, i, results)
    && Exhausted(p, b, 0, []) == Exhausted(p, b, i, results)
    && results == CallsOf(ran) && (results == [] || |results| <= b.maxToolCalls)
  }

  /** The run is over after turns `ran`. */
  predicate RanOut(p: Provider, b: Budget, over: bool, results: seq<string>, ran: seq<Turn>) {
    && TurnsFrom(p, b, 0, []) == ran && Exhausted(p, b, 0, []) == over
    && results == UpTo(CallsOf(ran), b.maxToolCalls) && (results == [] || |results| <= b.maxToolCalls)
  }

  lemma TurnRun(p: Provider, b: Budget, i: nat, results: seq<string>, ran: seq<Turn>)
    requires RunTo(p, b, i, results, ran) && i < b.maxTurns
    ensures var turn := p(i, results);
      if turn.calls == [] then RanOut(p, b, false, results, ran + [turn])
      else if |results| + |turn.calls| > b.maxToolCalls then
        RanOut(p, b, true, UpTo(results + turn.calls, b.maxToolCalls), ran + [turn])
      else RunTo(p, b, i + 1, results + turn.calls, ran + [turn])
  {
    var turn := p(i, results);
    CallsMore(ran, turn);
    if turn.calls == [] {
      assert results + turn.calls == results;
    } else if |results| + |turn.calls| <= b.maxToolCalls {
      var rest := TurnsFrom(p, b, i + 1, results + turn.calls);
      assert ran + ([turn] + rest) == ran + [turn] + rest;
    }
  }

  lemma TurnsRun(p: Provider, b: Budget, i: nat, results: seq<string>, ran: seq<Turn>)
    requires RunTo(p, b, i, results, ran) && i >= b.maxTurns
    ensures RanOut(p, b, true, results, ran)
  {
    assert ran + [] == ran;
  }

  /** The gate's verdicts on every proposal of the turns, in order, and their calls within the budget. */
  ghost predicate Answers(g: Gate, b: Budget, turns: seq<Turn>, over: bool, o: Outcome, results: seq<string>) {
    && o == Outcome(Accepted(g, Proposals(turns)), Rejected(g, Proposals(turns)), over, Hypotheses(Proposals(turns)))
    && (results == [] || |results| <= b.maxToolCalls)
    && results == UpTo(CallsOf(turns), b.maxToolCalls)
  }

  lemma AnswersFrom(p: Provider, g: Gate, b: Budget, over: bool, accepted: seq<Claim>, rejected: seq<Rejection>,
      hypotheses: set<Str>, results: seq<string>, ran: seq<Turn>)
    requires Gated(g, Proposals(ran), accepted, rejected, hypotheses) && RanOut(p, b, over, results, ran)
    ensures Answers(g, b, TurnsFrom(p, b, 0, []), Exhausted(p, b, 0, []),
      Outcome(accepted, rejected, over, hypotheses), results)
  {}

  method RunInvestigation(p: Provider, g: Gate, b: Budget) returns (o: Outcome, results: seq<string>)
    ensures Answers(g, b, TurnsFrom(p, b, 0, []), Exhausted(p, b, 0, []), o, results)
  {
    var accepted: seq<Claim> := [];
    var rejected: seq<Rejection> := [];
    var hypotheses: set<Str> := {};
    results := [];
    ghost var ran: seq<Turn> := [];
    assert [] + TurnsFrom(p, b, 0, []) == TurnsFrom(p, b, 0, []);
    var i := 0;
    while i < b.maxTurns
      invariant Gated(g, Proposals(ran), accepted, rejected, hypotheses) && RunTo(p, b, i, results, ran)
      decreases b.maxTurns - i
    {
      var turn := p(i, results);
      accepted, rejected, hypotheses := GateTurn(g, turn.claims, accepted, rejected, hypotheses, Proposals(ran));
      ProposalsMore(ran, turn);
      TurnRun(p, b, i, results, ran);
      ran := ran + [turn];
      if |turn.calls| == 0 {
        AnswersFrom(p, g, b, false, accepted, rejected, hypotheses, results, ran);
        return Outcome(accepted, rejected, false, hypotheses), results;
      }
      var more, over := RunCalls(turn.calls, results, |results|, b.maxToolCalls);
      results := more;
      if over {
        AnswersFrom(p, g, b, true, accepted, rejected, hypotheses, results, ran);
        return Outcome(accepted, rejected, true, hypotheses), results;
      }
      i := i + 1;
    }
    TurnsRun(p, b, i, results, ran);
    AnswersFrom(p, g, b, true, accepted, rejected, hypotheses, results, ran);
    o := Outcome(accepted, rejected, true, hypotheses);
  }

  /** The hypotheses seen are the non-empty ones of all proposals, rejected ones included. */
  lemma HypothesesSeen(cs: seq<Claim>, h: Str)
    ensures h in Hypotheses(cs) <==> h != [] && exists c :: c in cs && c.hypothesis == Some(h)
  {}

  // ----- conservation and bounds -----

  function Proposers(rs: seq<Rejection>): seq<Claim> {
    if rs == [] then [] else var n := |rs| - 1; Proposers(rs[..n]) + [rs[n].proposed]
  }

  /** Every proposal is accepted or rejected, none twice and none lost. */
  lemma {:induction false} GateConserves(g: Gate, cs: seq<Claim>)
    ensures multiset(cs) == multiset(Accepted(g, cs)) + multiset(Proposers(Rejected(g, cs)))
  {
    if cs != [] {
      var front, c := cs[..|cs| - 1], cs[|cs| - 1];
      assert cs == front + [c];
      GateConserves(g, front);
      AcceptedMore(g, front, c);
      var rs := Rejected(g, front);
      AddToEither(front, Accepted(g, front), Proposers(rs), c);
      if Admits(g, c) {
        assert rs + [] == rs;
      } else {
        ProposersMore(rs, Rejection(c, Fault(g, c).value));
      }
    }
  }

  lemma AddToEither<T>(xs: seq<T>, a: seq<T>, r: seq<T>, x: T)
    requires multiset(xs) == multiset(a) + multiset(r)
    ensures multiset(xs + [x]) == multiset(a + [x]) + multiset(r) == multiset(a) + multiset(r + [x])
  {}

  lemma ProposersMore(rs: seq<Rejection>, r: Rejection)
    ensures Proposers(rs + [r]) == Proposers(rs) + [r.proposed]
  {
    assert (rs + [r])[..|rs|] == rs;
  }

  /** Rejections name the first failing check. */
  lemma {:induction false} RejectionsAreReasoned(g: Gate, cs: seq<Claim>)
    ensures forall r :: r in Rejected(g, cs) ==> r.proposed in cs && Fault(g, r.proposed) == Some(r.reason)
  {
    if cs != [] {
      var front := cs[..|cs| - 1];
      assert cs == front + [cs[|cs| - 1]];
      RejectionsAreReasoned(g, front);
    }
  }

  lemma {:induction false} TurnsBounded(p: Provider, b: Budget, i: nat, results: seq<string>)
    ensures |TurnsFrom(p, b, i, results)| <= if i < b.maxTurns then b.maxTurns - i else 0
    decreases b.maxTurns - i
  {
    if i < b.maxTurns {
      var turn := p(i, results);
      if turn.calls != [] && |results| + |turn.calls| <= b.maxToolCalls {
        TurnsBounded(p, b, i + 1, results + turn.calls);
      }
    }
  }

  // ----- rejected proposals cannot influence the outcome -----

  /** The same tool calls always, and the same proposals but for some the gate rejects. */
  ghost predicate SameButRejected(p: Provider, q: Provider, g: Gate) {
    forall i: nat, results :: p(i, results).calls == q(i, results).calls &&
      Accepted(g, p(i, results).claims) == Accepted(g, q(i, results).claims)
  }

  lemma {:induction false} AcceptedConcat(g: Gate, a: seq<Claim>, b: seq<Claim>)
    ensures Accepted(g, a + b) == Accepted(g, a) + Accepted(g, b)
    decreases |b|
  {
    if b == [] {
      assert a + b == a;
    } else {
      var n := |b| - 1;
      assert a + b == a + b[..n] + [b[n]] && b == b[..n] + [b[n]];
      AcceptedConcat(g, a, b[..n]);
      AcceptedMore(g, a + b[..n], b[n]);
      AcceptedMore(g, b[..n], b[n]);
    }
  }

  lemma {:induction false} ProposalsFront(turns: seq<Turn>)
    requires turns != []
    ensures Proposals(turns) == turns[0].claims + Proposals(turns[1..])
  {
    if |turns| > 1 {
      var n := |turns| - 1;
      ProposalsFront(turns[..n]);
      assert turns[..n][1..] == turns[1..][..n - 1];
    }
  }

  lemma {:induction false} SameTurns(p: Provider, q: Provider, g: Gate, b: Budget, i: nat, results: seq<string>)
    requires SameButRejected(p, q, g)
    ensures Exhausted(p, b, i, results) == Exhausted(q, b, i, results)
    ensures Accepted(g, Proposals(TurnsFrom(p, b, i, results))) == Accepted(g, Proposals(TurnsFrom(q, b, i, results)))
    decreases b.maxTurns - i
  {
    if i < b.maxTurns {
      var s, t := p(i, results), q(i, results);
      assert s.calls == t.calls && Accepted(g, s.claims) == Accepted(g, t.claims);
      var ss, ts := TurnsFrom(p, b, i, results), TurnsFrom(q, b, i, results);
      ProposalsFront(ss);
      ProposalsFront(ts);
      AcceptedConcat(g, s.claims, Proposals(ss[1..]));
      AcceptedConcat(g, t.claims, Proposals(ts[1..]));
      if s.calls != [] && |results| + |s.calls| <= b.maxToolCalls {
        SameTurns(p, q, g, b, i + 1, results + s.calls);
        assert ss[1..] == TurnsFrom(p, b, i + 1, results + s.calls) &&
          ts[1..] == TurnsFrom(q, b, i + 1, results + s.calls);
      } else {
        assert ss[1..] == [] && ts[1..] == [];
      }
    }
  }

  function AcceptedOver(p: Provider, g: Gate, b: Budget): seq<Claim> { Accepted(g, Proposals(TurnsFrom(p, b, 0, []))) }

  /**
   Adding or dropping proposals the gate rejects changes neither the accepted claims, the budget flag nor the verdict.
   */
  lemma RejectedDoNotInfluence(p: Provider, q: Provider, g: Gate, b: Budget, H: Hash, policy: PolicyBundle,
      version: Str)
    requires SameButRejected(p, q, g) && ValidPolicy(policy)
    ensures AcceptedOver(p, g, b) == AcceptedOver(q, g, b) && Exhausted(p, b, 0, []) == Exhausted(q, b, 0, [])
    ensures Adjudicate(H, AcceptedOver(p, g, b), policy, version) ==
      Adjudicate(H, AcceptedOver(q, g, b), policy, version)
  {
    SameTurns(p, q, g, b, 0, []);
  }

  /** Nor does the order in which a run brings up its admitted claims, unless two of their encodings collide. */
  lemma ProposalOrderDoesNotMatter(p: Provider, q: Provider, g: Gate, b: Budget, H: Hash, policy: PolicyBundle,
      version: Str)
    returns (x: seq<Byte>, y: seq<Byte>)
    requires ValidPolicy(policy) && Hashable(AcceptedOver(p, g, b)) &&
      multiset(AcceptedOver(p, g, b)) == multiset(AcceptedOver(q, g, b))
    ensures Adjudicate(H, AcceptedOver(p, g, b), policy, version) ==
      Adjudicate(H, AcceptedOver(q, g, b), policy, version) ||
            (Collide(H, x, y) && EncodedIn(AcceptedOver(p, g, b), x) && EncodedIn(AcceptedOver(p, g, b), y))
  {
    x, y := OrderDoesNotMatter(H, AcceptedOver(p, g, b), AcceptedOver(q, g, b), policy, version);
  }

  /** The kernel sees only claims that cite evidence, all of it pinned; a claim it counts has passed the gate. */
  lemma KernelSeesPinnedEvidenceOnly(p: Provider, g: Gate, b: Budget, c: Claim)
    requires c in AcceptedOver(p, g, b)
    ensures c.evidence != [] && (forall e :: e in c.evidence ==> e in g.pinned) && c.predicateName in g.known
  {
    FilterElems(Proposals(TurnsFrom(p, b, 0, [])), ByGate(g));
    AdmissionMeaning(g, c);
  }

  /** When nothing proposed is admissible the verdict is no opinion at all. */
  lemma NothingAdmittedNoOpinion(p: Provider, g: Gate, b: Budget, H: Hash, policy: PolicyBundle, version: Str)
    requires ValidPolicy(policy) && forall c :: c in Proposals(TurnsFrom(p, b, 0, [])) ==> !Admits(g, c)
    ensures Adjudicate(H, AcceptedOver(p, g, b), policy, version).disposition == Incomplete
  {
    FilterElems(Proposals(TurnsFrom(p, b, 0, [])), ByGate(g));
    IncompleteMeansUnusable(H, AcceptedOver(p, g, b), policy, version);
  }
}
