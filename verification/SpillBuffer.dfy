/** The agent's bounded memory queue with disk overflow (agent/buffer.go), as atomic steps that interleave freely. */
module SpillBuffer {
  import opened Common

  type Event = seq<int>

  /** The fields Push, Next and Close share, and the spill directory; files are named by sequence number. */
  datatype Buffer = Buffer(
    capacity: nat, mem: seq<Event>, spilling: bool, nextSeq: nat, hits: nat, spilled: seq<nat>, disk: map<nat, Event>,
      closed: bool)

  /** How a write to disk ends; a failed one may leave anything behind. */
  datatype Write = Written | Failed(residue: Option<Event>)

  // ----- the critical sections and the unlocked read, as functions -----

  function Spill(b: Buffer, e: Event, w: Write): Buffer {
    var started := b.(spilling := true, nextSeq := b.nextSeq + 1, hits := b.hits + 1);
    match w
    case Written => started.(disk := b.disk[b.nextSeq := e], spilled := b.spilled + [b.nextSeq])
    case Failed(residue) => if residue.Some? then started.(disk := b.disk[b.nextSeq := residue.value]) else started
  }

  predicate FitsInMemory(b: Buffer) { !b.spilling && |b.mem| < b.capacity }

  function PushStep(b: Buffer, e: Event, w: Write): Buffer {
    if FitsInMemory(b) then b.(mem := b.mem + [e]) else Spill(b, e, w)
  }

  function PushOk(b: Buffer, w: Write): bool { FitsInMemory(b) || w.Written? }

  /** The locked half of Next. */
  datatype Taken = FromMemory(event: Event) | FromDisk(path: nat) | Closed | Blocked

  function TakeStep(b: Buffer): (Buffer, Taken) {
    if b.mem != [] then (b.(mem := b.mem[1..]), FromMemory(b.mem[0]))
    else if b.spilled != [] then
      var rest := b.spilled[1..];
      (b.(spilled := rest, spilling := b.spilling && rest != []), FromDisk(b.spilled[0]))
    else (b, if b.closed then Closed else Blocked)
  }

  /** The unlocked half: read the file, then remove it. */
  function ReadStep(b: Buffer, path: nat): (Buffer, Option<Event>) {
    (b.(disk := b.disk - {path}), if path in b.disk then Some(b.disk[path]) else None)
  }

  function Empty(capacity: nat): Buffer { Buffer(capacity, [], false, 0, 0, [], map[], false) }

  // ----- every interleaving -----

  type Thread = int

  datatype Action = Push(e: Event, w: Write) | Take(consumer: Thread) | Read(reader: Thread) | Close

  /** What a Next call gave its caller, and what it should have given or when it gave up. */
  datatype Output = Got(event: Option<Event>, expected: Event) | Ended(afterClose: bool, left: nat)

  /** A consumer between the locked dequeue and the unlocked read. */
  datatype Reading = Reading(reader: Thread, path: nat, expected: Event)

  /** The buffer with its history: events pushed and dequeued in order, reads under way, what was handed out. */
  datatype System = System(b: Buffer, pushed: seq<Event>, taken: seq<Event>, onDisk: seq<Event>, reading: seq<Reading>,
      out: seq<Output>)

  function Start(capacity: nat): System { System(Empty(capacity), [], [], [], [], []) }

  /** Where a consumer's read is listed, or past the end. */
  function Find(rs: seq<Reading>, t: Thread): (i: nat)
    ensures i <= |rs| && (i < |rs| ==> rs[i].reader == t)
    ensures i == |rs| ==> forall k :: 0 <= k < |rs| ==> rs[k].reader != t
  {
    if rs == [] then 0 else if rs[0].reader == t then 0 else 1 + Find(rs[1..], t)
  }

  /** The backlog is known as long as something is spilled; every reachable state has it. */
  predicate Tracked(s: System) { |s.b.spilled| == |s.onDisk| }

  function TakeBy(s: System, t: Thread): System
    requires Tracked(s)
  {
    var (b, got) := TakeStep(s.b);
    match got
    case FromMemory(e) => s.(b := b, taken := s.taken + [e], out := s.out + [Got(Some(e), e)])
    case FromDisk(path) =>
      s.(b := b, taken := s.taken + [s.onDisk[0]], onDisk := s.onDisk[1..], reading :=
        s.reading + [Reading(t, path, s.onDisk[0])])
    case Closed => s.(out := s.out + [Ended(s.b.closed, |s.b.mem| + |s.b.spilled|)])
    case Blocked => s
  }

  function ReadBy(s: System, i: nat): System
    requires i < |s.reading|
  {
    var (b, got) := ReadStep(s.b, s.reading[i].path);
    s.(b := b, reading := s.reading[..i] + s.reading[i + 1..], out := s.out + [Got(got, s.reading[i].expected)])
  }

  function PushBy(s: System, e: Event, w: Write): System {
    s.(b := PushStep(s.b, e, w), pushed := if PushOk(s.b, w) then s.pushed + [e] else s.pushed,
       onDisk := if !FitsInMemory(s.b) && w.Written? then s.onDisk + [e] else s.onDisk)
  }

  /** One atomic step; a consumer between dequeue and read cannot start another Next, and only such a one can read. */
  function Step(s: System, a: Action): System
    requires Tracked(s)
  {
    match a
    case Push(e, w) => PushBy(s, e, w)
    case Take(t) => if Find(s.reading, t) < |s.reading| then s else TakeBy(s, t)
    case Read(t) => if Find(s.reading, t) == |s.reading| then s else ReadBy(s, Find(s.reading, t))
    case Close => s.(b := s.b.(closed := true))
  }

  // ----- the invariant -----

  /** Spilled files wait in order, each with the bytes pushed, below the next number. */
  predicate BacklogHeld(b: Buffer, onDisk: seq<Event>) {
    |b.spilled| == |onDisk| && (forall i, j :: 0 <= i < j < |b.spilled| ==> b.spilled[i] < b.spilled[j]) &&
    forall i :: 0 <= i < |b.spilled| ==>
      b.spilled[i] < b.nextSeq && b.spilled[i] in b.disk && b.disk[b.spilled[i]] == onDisk[i]
  }

  /** A file being read still holds the bytes pushed, and is nobody else's. */
  predicate ReadHeld(b: Buffer, r: Reading) {
    r.path < b.nextSeq && r.path in b.disk && b.disk[r.path] == r.expected && r.path !in b.spilled
  }

  predicate ReadsHeld(b: Buffer, rs: seq<Reading>) {
    (forall i :: 0 <= i < |rs| ==> ReadHeld(b, rs[i])) && forall i, j :: 0 <= i < j < |rs| ==> rs[i].path != rs[j].path
  }

  /** Every Next returned the bytes of the event it dequeued; false only after Close with nothing left. */
  predicate Honest(o: Output) {
    match o case Got(e, expected) => e == Some(expected) case Ended(afterClose, left) => afterClose && left == 0
  }

  predicate AllHonest(out: seq<Output>) { forall i :: 0 <= i < |out| ==> Honest(out[i]) }

  function Expecteds(rs: seq<Reading>): seq<Event> { if rs == [] then [] else [rs[0].expected] + Expecteds(rs[1..]) }

  function Returned(out: seq<Output>): seq<Event> {
    if out == [] then []
    else var n := |out| - 1; Returned(out[..n]) + (if out[n].Got? then [out[n].expected] else [])
  }

  /** Every dequeued event was handed out once or is being read. */
  predicate Conserved(taken: seq<Event>, out: seq<Output>, rs: seq<Reading>) {
    multiset(taken) == multiset(Returned(out)) + multiset(Expecteds(rs))
  }

  predicate Bounded(b: Buffer) { |b.mem| <= b.capacity && (b.spilled != [] ==> b.spilling) }

  predicate InOrder(s: System) { s.pushed == s.taken + s.b.mem + s.onDisk }

  predicate Inv(s: System) {
    Bounded(s.b) && InOrder(s) && BacklogHeld(s.b, s.onDisk) && ReadsHeld(s.b, s.reading) && AllHonest(s.out) &&
    Conserved(s.taken, s.out, s.reading)
  }

  // ----- every step keeps it -----

  lemma BacklogMore(b: Buffer, onDisk: seq<Event>, rs: seq<Reading>, e: Event, w: Write)
    requires BacklogHeld(b, onDisk) && ReadsHeld(b, rs)
    ensures BacklogHeld(Spill(b, e, w), if w.Written? then onDisk + [e] else onDisk) && ReadsHeld(Spill(b, e, w), rs)
  {
    var c := Spill(b, e, w);
    assert forall i :: 0 <= i < |b.spilled| ==> c.spilled[i] == b.spilled[i];
    forall i | 0 <= i < |rs| ensures ReadHeld(c, rs[i]) { assert ReadHeld(b, rs[i]); }
  }

  lemma PushKeeps(s: System, e: Event, w: Write)
    requires Inv(s)
    ensures Inv(PushBy(s, e, w))
  {
    if FitsInMemory(s.b) {
      assert s.onDisk == [];
      FilesKept(s.b, PushStep(s.b, e, w), s.onDisk, s.reading);
      assert s.taken + s.b.mem + [] + [e] == s.taken + (s.b.mem + [e]) + [];
    } else {
      BacklogMore(s.b, s.onDisk, s.reading, e, w);
      assert s.taken + s.b.mem + s.onDisk + [e] == s.taken + s.b.mem + (s.onDisk + [e]);
    }
  }

  lemma ReturnedMore(out: seq<Output>, o: Output)
    ensures Returned(out + [o]) == Returned(out) + (if o.Got? then [o.expected] else [])
    ensures AllHonest(out) && Honest(o) ==> AllHonest(out + [o])
  {
    assert (out + [o])[..|out|] == out;
  }

  lemma {:induction false} ExpectedsMore(rs: seq<Reading>, r: Reading)
    ensures Expecteds(rs + [r]) == Expecteds(rs) + [r.expected]
  {
    if rs != [] {
      assert (rs + [r])[1..] == rs[1..] + [r];
      ExpectedsMore(rs[1..], r);
    }
  }

  lemma {:induction false} ExpectedsWithout(rs: seq<Reading>, i: nat)
    requires i < |rs|
    ensures multiset(Expecteds(rs)) == multiset(Expecteds(rs[..i] + rs[i + 1..])) + multiset{rs[i].expected}
  {
    var less := rs[..i] + rs[i + 1..];
    if i == 0 {
      assert less == rs[1..];
    } else {
      assert less[1..] == rs[1..][..i - 1] + rs[1..][i..];
      ExpectedsWithout(rs[1..], i - 1);
    }
  }

  lemma ShiftOne(taken: seq<Event>, mem: seq<Event>, onDisk: seq<Event>)
    ensures mem != [] ==> taken + mem + onDisk == taken + [mem[0]] + mem[1..] + onDisk
    ensures mem == [] && onDisk != [] ==> taken + mem + onDisk == taken + [onDisk[0]] + mem + onDisk[1..]
  {
    if mem != [] { assert mem == [mem[0]] + mem[1..]; }
    if onDisk != [] { assert onDisk == [onDisk[0]] + onDisk[1..]; }
  }

  lemma ConservedDirect(taken: seq<Event>, out: seq<Output>, rs: seq<Reading>, e: Event)
    requires Conserved(taken, out, rs)
    ensures Conserved(taken + [e], out + [Got(Some(e), e)], rs)
  {
    ReturnedMore(out, Got(Some(e), e));
  }

  lemma ConservedStart(taken: seq<Event>, out: seq<Output>, rs: seq<Reading>, r: Reading)
    requires Conserved(taken, out, rs)
    ensures Conserved(taken + [r.expected], out, rs + [r])
  {
    ExpectedsMore(rs, r);
  }

  lemma ConservedRead(taken: seq<Event>, out: seq<Output>, rs: seq<Reading>, i: nat, got: Option<Event>)
    requires Conserved(taken, out, rs) && i < |rs|
    ensures Conserved(taken, out + [Got(got, rs[i].expected)], rs[..i] + rs[i + 1..])
  {
    ReturnedMore(out, Got(got, rs[i].expected));
    ExpectedsWithout(rs, i);
  }

  lemma FilesKept(b: Buffer, c: Buffer, onDisk: seq<Event>, rs: seq<Reading>)
    requires BacklogHeld(b, onDisk) && ReadsHeld(b, rs)
    requires c.spilled == b.spilled && c.nextSeq == b.nextSeq && c.disk == b.disk
    ensures BacklogHeld(c, onDisk) && ReadsHeld(c, rs)
  {
    forall i | 0 <= i < |rs| ensures ReadHeld(c, rs[i]) { assert ReadHeld(b, rs[i]); }
  }

  lemma TakeMemoryKeeps(s: System, t: Thread)
    requires Inv(s) && s.b.mem != []
    ensures Inv(TakeBy(s, t))
  {
    var e, b := s.b.mem[0], TakeStep(s.b).0;
    ShiftOne(s.taken, s.b.mem, s.onDisk);
    ReturnedMore(s.out, Got(Some(e), e));
    ConservedDirect(s.taken, s.out, s.reading, e);
    FilesKept(s.b, b, s.onDisk, s.reading);
  }

  lemma BacklogTail(b: Buffer, onDisk: seq<Event>)
    requires BacklogHeld(b, onDisk) && b.mem == [] && b.spilled != []
    ensures BacklogHeld(TakeStep(b).0, onDisk[1..])
  {
    var c := TakeStep(b).0;
    assert forall i :: 0 <= i < |c.spilled| ==> c.spilled[i] == b.spilled[i + 1] && onDisk[1..][i] == onDisk[i + 1];
  }

  lemma ReadsMore(b: Buffer, onDisk: seq<Event>, rs: seq<Reading>, t: Thread)
    requires BacklogHeld(b, onDisk) && ReadsHeld(b, rs) && b.mem == [] && b.spilled != []
    ensures ReadsHeld(TakeStep(b).0, rs + [Reading(t, b.spilled[0], onDisk[0])])
  {
    var c, r := TakeStep(b).0, Reading(t, b.spilled[0], onDisk[0]);
    assert ReadHeld(c, r);
    forall i | 0 <= i < |rs| ensures ReadHeld(c, rs[i]) && rs[i].path != r.path { assert ReadHeld(b, rs[i]); }
  }

  lemma TakeDiskKeeps(s: System, t: Thread)
    requires Inv(s) && s.b.mem == [] && s.b.spilled != []
    ensures Inv(TakeBy(s, t))
  {
    ShiftOne(s.taken, s.b.mem, s.onDisk);
    BacklogTail(s.b, s.onDisk);
    ReadsMore(s.b, s.onDisk, s.reading, t);
    ConservedStart(s.taken, s.out, s.reading, Reading(t, s.b.spilled[0], s.onDisk[0]));
  }

  lemma TakeNothingKeeps(s: System, t: Thread)
    requires Inv(s) && s.b.mem == [] && s.b.spilled == []
    ensures Inv(TakeBy(s, t))
  {
    if s.b.closed {
      var o := Ended(true, 0);
      assert TakeBy(s, t) == s.(out := s.out + [o]);
      ReturnedMore(s.out, o);
      assert Returned(s.out + [o]) == Returned(s.out);
    } else {
      assert TakeBy(s, t) == s;
    }
  }

  lemma ReadsFewer(b: Buffer, onDisk: seq<Event>, rs: seq<Reading>, i: nat)
    requires BacklogHeld(b, onDisk) && ReadsHeld(b, rs) && i < |rs|
    ensures BacklogHeld(ReadStep(b, rs[i].path).0, onDisk)
    ensures ReadsHeld(ReadStep(b, rs[i].path).0, rs[..i] + rs[i + 1..])
  {
    var c, less := ReadStep(b, rs[i].path).0, rs[..i] + rs[i + 1..];
    assert ReadHeld(b, rs[i]);
    forall k | 0 <= k < |less| ensures ReadHeld(c, less[k]) {
      var m := if k < i then k else k + 1;
      assert less[k] == rs[m] && ReadHeld(b, rs[m]) && rs[m].path != rs[i].path;
    }
    forall k, l | 0 <= k < l < |less| ensures less[k].path != less[l].path {
      assert less[k] == rs[if k < i then k else k + 1] && less[l] == rs[if l < i then l else l + 1];
    }
  }

  lemma ReadKeeps(s: System, i: nat)
    requires Inv(s) && i < |s.reading|
    ensures Inv(ReadBy(s, i))
  {
    var r := s.reading[i];
    assert ReadHeld(s.b, r);
    ReadsFewer(s.b, s.onDisk, s.reading, i);
    ReturnedMore(s.out, Got(Some(r.expected), r.expected));
    ConservedRead(s.taken, s.out, s.reading, i, Some(r.expected));
  }

  lemma TakeKeeps(s: System, t: Thread)
    requires Inv(s)
    ensures Inv(TakeBy(s, t))
  {
    if s.b.mem != [] {
      TakeMemoryKeeps(s, t);
    } else if s.b.spilled != [] {
      TakeDiskKeeps(s, t);
    } else {
      TakeNothingKeeps(s, t);
    }
  }

  lemma CloseKeeps(s: System)
    requires Inv(s)
    ensures Inv(s.(b := s.b.(closed := true)))
  {
    FilesKept(s.b, s.b.(closed := true), s.onDisk, s.reading);
  }

  lemma StepKeeps(s: System, a: Action)
    requires Inv(s)
    ensures Inv(Step(s, a))
  {
    match a
    case Push(e, w) => PushKeeps(s, e, w);
    case Take(t) => TakeKeeps(s, t);
    case Read(t) => if Find(s.reading, t) < |s.reading| { ReadKeeps(s, Find(s.reading, t)); }
    case Close => CloseKeeps(s);
  }

  // ----- every run -----

  ghost predicate Runs(capacity: nat, actions: seq<Action>, s: System)
    decreases |actions|
  {
    if actions == [] then s == Start(capacity)
    else
      exists before :: Runs(capacity, actions[..|actions| - 1], before) && Tracked(before) &&
        s == Step(before, actions[|actions| - 1])
  }

  /**
   * After any interleaving of pushes, dequeues, reads and closes, write failures included: memory is within
   * capacity; pushed = dequeued, then memory, then disk; nothing is lost or handed out twice; every read finds
   * its bytes; and Next gave up only after Close with nothing left.
   */
  lemma {:induction false} EveryRunIsSafe(capacity: nat, actions: seq<Action>, s: System)
    requires Runs(capacity, actions, s)
    ensures Inv(s)
    decreases |actions|
  {
    if actions != [] {
      var before :| Runs(capacity, actions[..|actions| - 1], before) && Tracked(before) &&
        s == Step(before, actions[|actions| - 1]);
      EveryRunIsSafe(capacity, actions[..|actions| - 1], before);
      StepKeeps(before, actions[|actions| - 1]);
    }
  }

  /** No step gets stuck on bookkeeping: every action list has a run. */
  lemma {:induction false} EveryActionListRuns(capacity: nat, actions: seq<Action>) returns (s: System)
    ensures Runs(capacity, actions, s)
    decreases |actions|
  {
    if actions == [] {
      s := Start(capacity);
    } else {
      var before := EveryActionListRuns(capacity, actions[..|actions| - 1]);
      EveryRunIsSafe(capacity, actions[..|actions| - 1], before);
      s := Step(before, actions[|actions| - 1]);
    }
  }

  /** Only one consumer, as the agent has. */
  predicate OneConsumer(actions: seq<Action>, t: Thread) {
    forall a :: a in actions ==> (a.Take? ==> a.consumer == t) && (a.Read? ==> a.reader == t)
  }

  /** What a lone consumer has dequeued is what it was handed, and the read under way. */
  predicate InStep(s: System, t: Thread) {
    |s.reading| <= 1 && s.taken == Returned(s.out) + Expecteds(s.reading) &&
      (s.reading != [] ==> s.reading[0].reader == t)
  }

  lemma TakeInStep(s: System, t: Thread)
    requires Tracked(s) && InStep(s, t) && s.reading == []
    ensures InStep(TakeBy(s, t), t)
  {
    assert Returned(s.out) + [] == Returned(s.out);
    if s.b.mem != [] {
      ReturnedMore(s.out, Got(Some(s.b.mem[0]), s.b.mem[0]));
    } else if s.b.spilled != [] {
      ExpectedsMore([], Reading(t, s.b.spilled[0], s.onDisk[0]));
    } else {
      ReturnedMore(s.out, Ended(s.b.closed, 0));
    }
  }

  lemma ReadInStep(s: System, t: Thread)
    requires InStep(s, t) && s.reading != []
    ensures InStep(ReadBy(s, 0), t)
  {
    var r := s.reading[0];
    assert s.reading == [r] && s.reading[..0] + s.reading[1..] == [];
    ReturnedMore(s.out, Got(ReadStep(s.b, r.path).1, r.expected));
    assert Expecteds([r]) == [r.expected] + Expecteds([]);
    assert Returned(s.out) + [r.expected] == Returned(s.out) + [r.expected] + [];
  }

  lemma OneConsumerStep(s: System, a: Action, t: Thread)
    requires Tracked(s) && InStep(s, t) && (a.Take? ==> a.consumer == t) && (a.Read? ==> a.reader == t)
    ensures InStep(Step(s, a), t)
  {
    match a
    case Push(_, _) =>
    case Take(_) => if s.reading == [] { TakeInStep(s, t); }
    case Read(_) => if s.reading != [] { ReadInStep(s, t); }
    case Close =>
  }

  lemma {:induction false} OneConsumerInStep(capacity: nat, actions: seq<Action>, t: Thread, s: System)
    requires Runs(capacity, actions, s) && OneConsumer(actions, t)
    ensures InStep(s, t)
    decreases |actions|
  {
    if actions != [] {
      var n := |actions| - 1;
      var a := actions[n];
      assert a in actions;
      var before :| Runs(capacity, actions[..n], before) && Tracked(before) && s == Step(before, a);
      OneConsumerInStep(capacity, actions[..n], t, before);
      OneConsumerStep(before, a, t);
    }
  }

  lemma InStepIsFifo(s: System, t: Thread)
    requires InOrder(s) && InStep(s, t)
    ensures Returned(s.out) <= s.pushed
  {
    var later := Expecteds(s.reading) + s.b.mem + s.onDisk;
    assert s.pushed == Returned(s.out) + later;
  }

  /** A single consumer is handed the events in the very order they were pushed. */
  lemma OneConsumerIsFifo(capacity: nat, actions: seq<Action>, t: Thread, s: System)
    requires Runs(capacity, actions, s) && OneConsumer(actions, t)
    ensures Returned(s.out) <= s.pushed
  {
    EveryRunIsSafe(capacity, actions, s);
    OneConsumerInStep(capacity, actions, t, s);
    InStepIsFifo(s, t);
  }

  // ----- Next comes to an end -----

  /** Without an event, Next gives up exactly on a closed buffer and waits exactly on an open one. */
  lemma TakeExactly(b: Buffer)
    ensures TakeStep(b).1 == Closed <==> b.mem == [] && b.spilled == [] && b.closed
    ensures TakeStep(b).1 == Blocked <==> b.mem == [] && b.spilled == [] && !b.closed
  {}

  lemma StepCloses(s: System, a: Action)
    requires Tracked(s)
    ensures Step(s, a).b.closed <==> s.b.closed || a == Close
  {
    match a
    case Push(_, _) =>
    case Take(_) =>
    case Read(_) =>
    case Close =>
  }

  lemma {:induction false} ClosedForGood(capacity: nat, actions: seq<Action>, s: System)
    requires Runs(capacity, actions, s)
    ensures s.b.closed <==> Close in actions
    decreases |actions|
  {
    if actions != [] {
      var n := |actions| - 1;
      var before :| Runs(capacity, actions[..n], before) && Tracked(before) && s == Step(before, actions[n]);
      ClosedForGood(capacity, actions[..n], before);
      StepCloses(before, actions[n]);
      assert actions == actions[..n] + [actions[n]];
    }
  }

  predicate Idle(s: System, t: Thread) { forall i :: 0 <= i < |s.reading| ==> s.reading[i].reader != t }

  /** In any run that closes the buffer, a consumer without a read under way who finds nothing left is told so. */
  lemma EndsAfterClose(capacity: nat, actions: seq<Action>, s: System, t: Thread)
    requires Runs(capacity, actions, s) && Close in actions && s.b.mem == [] && s.b.spilled == [] && Idle(s, t)
    ensures Tracked(s) && Step(s, Take(t)) == s.(out := s.out + [Ended(true, 0)])
  {
    EveryRunIsSafe(capacity, actions, s);
    ClosedForGood(capacity, actions, s);
    TakeEnds(s, t);
  }

  lemma TakeEnds(s: System, t: Thread)
    requires Inv(s) && s.b.closed && s.b.mem == [] && s.b.spilled == [] && Idle(s, t)
    ensures Tracked(s) && Step(s, Take(t)) == s.(out := s.out + [Ended(true, 0)])
  {
    assert Find(s.reading, t) == |s.reading|;
  }

  lemma RunMore(capacity: nat, actions: seq<Action>, s: System, a: Action) returns (next: System)
    requires Runs(capacity, actions, s) && Tracked(s)
    ensures next == Step(s, a) && Runs(capacity, actions + [a], next)
  {
    next := Step(s, a);
    var all := actions + [a];
    assert all[..|all| - 1] == actions && all[|all| - 1] == a;
  }

  /** One consumer taking and, where it must, reading, n times over. */
  function Rounds(t: Thread, n: nat): seq<Action> { if n == 0 then [] else [Take(t), Read(t)] + Rounds(t, n - 1) }

  lemma TakeFromMemoryRound(s: System, t: Thread)
    requires Tracked(s) && Idle(s, t) && s.b.mem != []
    ensures Step(s, Take(t)) == TakeBy(s, t) && Tracked(TakeBy(s, t)) && Step(TakeBy(s, t), Read(t)) == TakeBy(s, t)
    ensures Left(TakeBy(s, t)) == Left(s) - 1 && Idle(TakeBy(s, t), t) && TakeBy(s, t).pushed == s.pushed
  {
    assert Find(s.reading, t) == |s.reading|;
  }

  lemma TakeFromDiskRound(s: System, t: Thread)
    requires Tracked(s) && Idle(s, t) && s.b.mem == [] && s.b.spilled != []
    ensures Step(s, Take(t)) == TakeBy(s, t) && Tracked(TakeBy(s, t)) && |s.reading| < |TakeBy(s, t).reading|
    ensures Step(TakeBy(s, t), Read(t)) == ReadBy(TakeBy(s, t), |s.reading|)
    ensures var next := ReadBy(TakeBy(s, t), |s.reading|);
      Left(next) == Left(s) - 1 && Idle(next, t) && next.pushed == s.pushed
  {
    var n, taken := |s.reading|, TakeBy(s, t);
    assert Find(s.reading, t) == n;
    assert taken.reading == s.reading + [Reading(t, s.b.spilled[0], s.onDisk[0])];
    assert forall i :: 0 <= i < n ==> taken.reading[i] == s.reading[i];
    assert taken.reading[n].reader == t;
    assert Find(taken.reading, t) == n;
    assert taken.reading[..n] + taken.reading[n + 1..] == s.reading;
  }

  function Left(s: System): nat { |s.b.mem| + |s.b.spilled| }

  /** One round hands out one of the events that are left. */
  lemma Round(s: System, t: Thread) returns (taken: System, next: System)
    requires Inv(s) && Idle(s, t) && Left(s) > 0
    ensures taken == Step(s, Take(t)) && Tracked(taken) && next == Step(taken, Read(t))
    ensures Inv(next) && Idle(next, t) && next.pushed == s.pushed && Left(next) == Left(s) - 1
  {
    taken := TakeBy(s, t);
    TakeKeeps(s, t);
    if s.b.mem == [] {
      TakeFromDiskRound(s, t);
      next := ReadBy(taken, |s.reading|);
      ReadKeeps(taken, |s.reading|);
    } else {
      TakeFromMemoryRound(s, t);
      next := taken;
    }
  }

  lemma NothingLeft(s: System)
    requires Inv(s) && Left(s) == 0
    ensures s.b.mem == [] && s.b.spilled == [] && s.taken == s.pushed
  {}

  lemma TwoMore(capacity: nat, actions: seq<Action>, s: System, a: Action, b: Action)
    requires Runs(capacity, actions, s) && Tracked(s) && Tracked(Step(s, a))
    ensures Runs(capacity, actions + [a, b], Step(Step(s, a), b))
  {
    var mid := RunMore(capacity, actions, s, a);
    var end := RunMore(capacity, actions + [a], mid, b);
    assert actions + [a] + [b] == actions + [a, b];
  }

  /**
   Once the buffer is closed and nothing more is pushed, a consumer gets everything that is left in as many rounds, and
   is then told that it is over.
   */
  lemma DrainsAfterClose(capacity: nat, actions: seq<Action>, s: System, t: Thread)
      returns (last: System)
    requires Runs(capacity, actions, s) && Close in actions && Idle(s, t)
    ensures Runs(capacity, actions + Rounds(t, Left(s)), last)
    ensures last.b.mem == [] && last.b.spilled == [] && last.taken == s.pushed
    ensures Tracked(last) && Step(last, Take(t)).out == last.out + [Ended(true, 0)]
  {
    EveryRunIsSafe(capacity, actions, s);
    last := AllRounds(capacity, actions, s, t);
    NothingLeft(last);
    EndsAfterClose(capacity, actions + Rounds(t, Left(s)), last, t);
  }

  lemma {:induction false} AllRounds(capacity: nat, actions: seq<Action>, s: System, t: Thread) returns (last: System)
    requires Runs(capacity, actions, s) && Inv(s) && Idle(s, t)
    ensures Runs(capacity, actions + Rounds(t, Left(s)), last)
    ensures Inv(last) && Left(last) == 0 && Idle(last, t) && last.pushed == s.pushed
    decreases Left(s)
  {
    if Left(s) == 0 {
      last := s;
      assert actions + [] == actions;
    } else {
      var more, next := OneRound(capacity, actions, s, t);
      last := AllRounds(capacity, more, next, t);
    }
  }

  lemma OneRound(capacity: nat, actions: seq<Action>, s: System, t: Thread)
      returns (more: seq<Action>, next: System)
    requires Runs(capacity, actions, s) && Inv(s) && Idle(s, t) && Left(s) > 0
    ensures Runs(capacity, more, next) && Inv(next) && Idle(next, t) && next.pushed == s.pushed
    ensures Left(next) == Left(s) - 1 && more + Rounds(t, Left(next)) == actions + Rounds(t, Left(s))
  {
    var taken;
    taken, next := Round(s, t);
    TwoMore(capacity, actions, s, Take(t), Read(t));
    more := actions + [Take(t), Read(t)];
    RoundsMore(actions, more, t, Left(s), Left(next));
  }

  lemma RoundsMore(actions: seq<Action>, more: seq<Action>, t: Thread, n: nat, m: nat)
    requires n == m + 1 && more == actions + [Take(t), Read(t)]
    ensures more + Rounds(t, m) == actions + Rounds(t, n)
  {
    assert Rounds(t, n) == [Take(t), Read(t)] + Rounds(t, m);
  }

  // ----- the buffer object -----

  class BoundedBuffer {
    var capacity: nat
    var memQueue: seq<Event>
    var spilling: bool
    var spillSeq: nat
    var spillHits: nat
    var spilled: seq<nat>
    var files: map<nat, Event>
    var closed: bool

    constructor (capacity: nat)
      requires capacity > 0
      ensures State() == Empty(capacity)
    {
      this.capacity, memQueue, spilling, spillSeq, spillHits, spilled, files, closed :=
        capacity, [], false, 0, 0, [], map[], false;
    }

    function State(): Buffer
      reads this
    {
      Buffer(capacity, memQueue, spilling, spillSeq, spillHits, spilled, files, closed)
    }

    /** Holds the lock throughout, disk write included. */
    method Push(event: Event, w: Write) returns (ok: bool)
      modifies this
      ensures State() == PushStep(old(State()), event, w) && ok == PushOk(old(State()), w)
      ensures capacity == old(capacity) && closed == old(closed)
      ensures !old(spilling) && |old(memQueue)| < capacity ==>
        ok && memQueue == old(memQueue) + [event] && !spilling && spillSeq == old(spillSeq) &&
        spillHits == old(spillHits) && spilled == old(spilled) && files == old(files)
      ensures old(spilling) || |old(memQueue)| >= capacity ==>
        memQueue == old(memQueue) && spilling && spillSeq == old(spillSeq) + 1 && spillHits == old(spillHits) + 1
      ensures (old(spilling) || |old(memQueue)| >= capacity) && w.Written? ==>
        ok && spilled == old(spilled) + [old(spillSeq)] && files == old(files)[old(spillSeq) := event]
      ensures (old(spilling) || |old(memQueue)| >= capacity) && w.Failed? ==>
        !ok && spilled == old(spilled) &&
        files == match w.residue case None => old(files) case Some(left) => old(files)[old(spillSeq) := left]
    {
      if !spilling && |memQueue| < capacity {
        memQueue := memQueue + [event];
        return true;
      }
      spilling := true;
      var number := spillSeq;
      spillSeq := spillSeq + 1;
      spillHits := spillHits + 1;
      if w.Failed? {
        if w.residue.Some? { files := files[number := w.residue.value]; }
        return false;
      }
      files := files[number := event];
      spilled := spilled + [number];
      return true;
    }

    /** The locked half of Next. */
    method Take() returns (got: Taken)
      modifies this
      ensures (State(), got) == TakeStep(old(State()))
      ensures capacity == old(capacity) && closed == old(closed) && files == old(files)
      ensures spillSeq == old(spillSeq) && spillHits == old(spillHits)
      ensures old(memQueue) != [] ==>
        got == FromMemory(old(memQueue)[0]) && memQueue == old(memQueue)[1..] && spilled == old(spilled) &&
        spilling == old(spilling)
      ensures old(memQueue) == [] && old(spilled) != [] ==>
        got == FromDisk(old(spilled)[0]) && memQueue == [] && spilled == old(spilled)[1..] &&
        (spilling <==> old(spilling) && spilled != [])
      ensures old(memQueue) == [] && old(spilled) == [] ==>
        memQueue == [] && spilled == [] && spilling == old(spilling)
      ensures got == Closed <==> old(memQueue) == [] && old(spilled) == [] && old(closed)
      ensures got == Blocked <==> old(memQueue) == [] && old(spilled) == [] && !old(closed)
    {
      if |memQueue| > 0 {
        got := FromMemory(memQueue[0]);
        memQueue := memQueue[1..];
      } else if |spilled| > 0 {
        got := FromDisk(spilled[0]);
        spilled := spilled[1..];
        if |spilled| == 0 { spilling := false; }
      } else {
        got := if closed then Closed else Blocked;
      }
    }

    /** The unlocked half of Next. */
    method ReadFile(path: nat) returns (data: Option<Event>)
      modifies this`files
      ensures (State(), data) == ReadStep(old(State()), path)
      ensures path in old(files) ==> data == Some(old(files)[path])
      ensures path !in old(files) ==> data == None
      ensures files == old(files) - {path}
    {
      data := if path in files then Some(files[path]) else None;
      files := files - {path};
    }

    method Close()
      modifies this`closed
      ensures State() == old(State()).(closed := true)
    {
      closed := true;
    }
  }

  /** NewBoundedBuffer refuses a capacity that is not positive. */
  method NewBoundedBuffer(capacity: int) returns (b: BoundedBuffer?)
    ensures b == null <==> capacity <= 0
    ensures b != null ==> fresh(b) && b.State() == Empty(capacity)
  {
    if capacity <= 0 { return null; }
    b := new BoundedBuffer(capacity);
  }

  // ----- what a failed write leaves behind -----

  /** The buffer after n locked dequeues. */
  function Drained(b: Buffer, n: nat): Buffer { if n == 0 then b else TakeStep(Drained(b, n - 1)).0 }

  /** Memory first, then the files; spilling ends with the last file and not otherwise. */
  lemma {:induction false} DrainedTo(b: Buffer, n: nat)
    requires n <= |b.mem| + |b.spilled|
    ensures n <= |b.mem| ==> Drained(b, n) == b.(mem := b.mem[n..])
    ensures n > |b.mem| ==> Drained(b, n) == FilesLeft(b, n - |b.mem|)
  {
    if n > 0 {
      DrainedTo(b, n - 1);
      if n <= |b.mem| {
        TakeFromMemory(b, n - 1);
      } else if n == |b.mem| + 1 {
        assert b.mem[|b.mem|..] == [];
      } else {
        TakeFromFiles(b, n - 1 - |b.mem|);
      }
    }
  }

  /** The buffer when memory and k files are gone. */
  function FilesLeft(b: Buffer, k: nat): Buffer
    requires k <= |b.spilled|
  {
    b.(mem := [], spilled := b.spilled[k..], spilling := b.spilling && b.spilled[k..] != [])
  }

  lemma TakeFromMemory(b: Buffer, n: nat)
    requires n < |b.mem|
    ensures TakeStep(b.(mem := b.mem[n..])).0 == b.(mem := b.mem[n + 1..])
  {
    assert b.mem[n..][1..] == b.mem[n + 1..];
  }

  lemma TakeFromFiles(b: Buffer, k: nat)
    requires k < |b.spilled|
    ensures TakeStep(FilesLeft(b, k)).0 == FilesLeft(b, k + 1)
  {
    assert b.spilled[k..][1..] == b.spilled[k + 1..];
  }

  function Emptied(b: Buffer): Buffer { Drained(b, |b.mem| + |b.spilled|) }

  lemma EmptiedIs(b: Buffer)
    ensures Emptied(b).mem == [] && Emptied(b).spilled == [] && Emptied(b).capacity == b.capacity
    ensures Emptied(b).spilling <==> b.spilling && b.spilled == []
  {
    DrainedTo(b, |b.mem| + |b.spilled|);
  }

  /**
   Once all is drained, the next event goes to memory again exactly when the push found room, or wrote its file, or
   files were waiting already: a write that fails with nothing on disk leaves the emptied buffer spilling.
   */
  lemma MemoryAfterPushExactly(b: Buffer, e: Event, w: Write)
    requires b.capacity > 0
    ensures FitsInMemory(Emptied(PushStep(b, e, w))) <==> FitsInMemory(b) || w.Written? || b.spilled != []
  {
    EmptiedIs(PushStep(b, e, w));
  }

  /** The buffer after pushes that all fail to write. */
  function AllFail(b: Buffer, pushes: seq<(Event, Option<Event>)>): Buffer {
    if pushes == [] then b
    else var n := |pushes| - 1; PushStep(AllFail(b, pushes[..n]), pushes[n].0, Failed(pushes[n].1))
  }

  /** It stays so through further failed writes, and ends with the next file written and taken. */
  lemma {:induction false} RecoversWithNextFile(b: Buffer, pushes: seq<(Event, Option<Event>)>, e: Event)
    requires b.capacity > 0 && b.spilling && b.spilled == []
    ensures var c := AllFail(b, pushes); c.mem == b.mem && c.spilling && c.spilled == [] && c.capacity == b.capacity
    ensures !FitsInMemory(Emptied(AllFail(b, pushes))) &&
      FitsInMemory(Emptied(PushStep(AllFail(b, pushes), e, Written)))
  {
    if pushes != [] { RecoversWithNextFile(b, pushes[..|pushes| - 1], e); }
    EmptiedIs(AllFail(b, pushes));
    MemoryAfterPushExactly(AllFail(b, pushes), e, Written);
  }

  /** The stuck state is reachable: an event in memory, a write that fails, and the event taken. */
  lemma FailedWriteRun(e: Event, f: Event) returns (actions: seq<Action>, s: System)
    ensures actions == [Push(e, Written), Push(f, Failed(None)), Take(0)] && Runs(1, actions, s)
    ensures s.b.mem == [] && s.b.spilled == [] && s.b.spilling && !FitsInMemory(s.b)
  {
    var s1 := RunMore(1, [], Start(1), Push(e, Written));
    assert [] + [Push(e, Written)] == [Push(e, Written)];
    var s2 := RunMore(1, [Push(e, Written)], s1, Push(f, Failed(None)));
    assert s2.b.mem == [e] && s2.b.spilled == [] && s2.b.spilling && s2.onDisk == [] && s2.reading == [];
    assert [Push(e, Written)] + [Push(f, Failed(None))] == [Push(e, Written), Push(f, Failed(None))];
    s := RunMore(1, [Push(e, Written), Push(f, Failed(None))], s2, Take(0));
    actions := [Push(e, Written), Push(f, Failed(None)), Take(0)];
    assert [Push(e, Written), Push(f, Failed(None))] + [Take(0)] == actions;
  }
}
