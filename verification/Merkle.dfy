/** The padded, domain-separated Merkle tree (ledger/merkle.go). */
module Merkle {
  import opened Common
  import opened Bytes

  /** An evidence id is itself a digest. */
  type Id = Digest

  function LeafBytes(id: Id): seq<Byte> { [0x00] + id }
  function NodeBytes(left: Digest, right: Digest): seq<Byte> { [0x01] + left + right }

  /** The index goes in as 8 big-endian bytes. */
  function PadBytes(index: nat): seq<Byte> { [0x02] + BigEndian(index, 8) }

  lemma NodeBytesInjective(a: Digest, b: Digest, c: Digest, d: Digest)
    requires NodeBytes(a, b) == NodeBytes(c, d)
    ensures a == c && b == d
  {
    SplitAt([0x01] + a, b, [0x01] + c, d);
    SplitAt([0x01], a, [0x01], c);
  }

  // ----- powers of two -----

  function Pow2(h: nat): (p: nat)
    ensures p > 0
  {
    if h == 0 then 1 else 2 * Pow2(h - 1)
  }

  /** The least h with n <= 2^h. */
  function Height(n: nat): (h: nat)
    requires n > 0
    ensures n <= Pow2(h) && (h > 0 ==> Pow2(h - 1) < n)
  {
    if n == 1 then 0 else 1 + Height((n + 1) / 2)
  }

  // ----- reference definition: hash trees -----

  /** A tip carries the very bytes that are hashed. */
  datatype Tree = Tip(bytes: seq<Byte>) | Fork(left: Tree, right: Tree)

  /** The string whose hash is the tree's digest. */
  function HashedBytes(H: Hash, t: Tree): seq<Byte> {
    match t case Tip(bytes) => bytes case Fork(l, r) => NodeBytes(H(HashedBytes(H, l)), H(HashedBytes(H, r)))
  }

  function Hashed(H: Hash, t: Tree): Digest { H(HashedBytes(H, t)) }

  /** `x` is one of the strings hashed to digest `t`. */
  ghost predicate HashedIn(H: Hash, t: Tree, x: seq<Byte>) {
    x == HashedBytes(H, t) || (t.Fork? && (HashedIn(H, t.left, x) || HashedIn(H, t.right, x)))
  }

  /** No tip can be mistaken for an internal node. */
  predicate Separated(t: Tree) {
    match t case Tip(bytes) => bytes != [] && bytes[0] != 0x01 case Fork(l, r) => Separated(l) && Separated(r)
  }

  /** What stands at position i of the padded list. */
  function TipBytes(ids: seq<Id>, i: nat): (bs: seq<Byte>)
    ensures bs != [] && bs[0] == if i < |ids| then 0x00 else 0x02
  {
    if i < |ids| then LeafBytes(ids[i]) else PadBytes(i)
  }

  /** The tree over positions lo to lo + 2^h of the padded list. */
  function TreeOver(ids: seq<Id>, lo: nat, h: nat): (t: Tree)
    ensures Separated(t)
    decreases h
  {
    if h == 0 then Tip(TipBytes(ids, lo)) else Fork(TreeOver(ids, lo, h - 1), TreeOver(ids, lo + Pow2(h - 1), h - 1))
  }

  function WholeTree(ids: seq<Id>): Tree
    requires ids != []
  {
    TreeOver(ids, 0, Height(|ids|))
  }

  function Root(H: Hash, ids: seq<Id>): Digest
    requires ids != []
  {
    Hashed(H, WholeTree(ids))
  }

  // ----- a root binds its whole list -----

  /** Trees of any shapes with one digest are equal, or hashing them collides. */
  lemma {:induction false} TreesBind(H: Hash, a: Tree, b: Tree) returns (x: seq<Byte>, y: seq<Byte>)
    requires Separated(a) && Separated(b) && Hashed(H, a) == Hashed(H, b)
    ensures a == b || (Collide(H, x, y) && HashedIn(H, a, x) && HashedIn(H, b, y))
  {
    x, y := HashedBytes(H, a), HashedBytes(H, b);
    if x == y && a.Fork? && b.Fork? {
      NodeBytesInjective(Hashed(H, a.left), Hashed(H, a.right), Hashed(H, b.left), Hashed(H, b.right));
      x, y := TreesBind(H, a.left, b.left);
      if a.left == b.left { x, y := TreesBind(H, a.right, b.right); }
    }
  }

  lemma {:induction false} TreeHeight(a: seq<Id>, b: seq<Id>, lo: nat, g: nat, h: nat)
    requires TreeOver(a, lo, g) == TreeOver(b, lo, h)
    ensures g == h
  {
    if g > 0 && h > 0 { TreeHeight(a, b, lo, g - 1, h - 1); }
  }

  lemma {:induction false} TreeTips(a: seq<Id>, b: seq<Id>, lo: nat, h: nat, i: nat)
    requires TreeOver(a, lo, h) == TreeOver(b, lo, h) && lo <= i < lo + Pow2(h)
    ensures TipBytes(a, i) == TipBytes(b, i)
    decreases h
  {
    if h > 0 {
      if i < lo + Pow2(h - 1) { TreeTips(a, b, lo, h - 1, i); } else { TreeTips(a, b, lo + Pow2(h - 1), h - 1, i); }
    }
  }

  lemma SameElement(a: seq<Id>, b: seq<Id>, i: nat)
    requires a != [] && b != [] && WholeTree(a) == WholeTree(b)
    ensures i < |a| <==> i < |b|
    ensures i < |a| && i < |b| ==> a[i] == b[i]
  {
    TreeHeight(a, b, 0, Height(|a|), Height(|b|));
    if i < |a| || i < |b| {
      TreeTips(a, b, 0, Height(|a|), i);
      SplitAt([0x00], if i < |a| then a[i] else ZERO_DIGEST, [0x00], if i < |b| then b[i] else ZERO_DIGEST);
    }
  }

  lemma WholeTreeInjective(a: seq<Id>, b: seq<Id>)
    requires a != [] && b != [] && WholeTree(a) == WholeTree(b)
    ensures a == b
  {
    SameElement(a, b, |a|);
    SameElement(a, b, |b|);
    forall i | 0 <= i < |a| && i < |b| ensures a[i] == b[i] { SameElement(a, b, i); }
  }

  /** Two lists of any lengths with one root are equal, or two distinct strings hashed for them collide. */
  lemma RootBindsList(H: Hash, a: seq<Id>, b: seq<Id>) returns (x: seq<Byte>, y: seq<Byte>)
    requires a != [] && b != [] && Root(H, a) == Root(H, b)
    ensures a == b || (Collide(H, x, y) && HashedIn(H, WholeTree(a), x) && HashedIn(H, WholeTree(b), y))
  {
    x, y := TreesBind(H, WholeTree(a), WholeTree(b));
    if WholeTree(a) == WholeTree(b) { WholeTreeInjective(a, b); }
  }

  // ----- inclusion proofs -----

  /** isLeft: the hash is the left sibling of the current node. */
  datatype ProofStep = ProofStep(hash: Digest, isLeft: bool)

  function StepBytes(h: Digest, s: ProofStep): seq<Byte> {
    if s.isLeft then NodeBytes(s.hash, h) else NodeBytes(h, s.hash)
  }

  /** The digest the steps lead to, the last step applied last. */
  function Climb(H: Hash, id: Id, steps: seq<ProofStep>): Digest {
    H(ClimbBytes(H, id, steps))
  }

  function ClimbBytes(H: Hash, id: Id, steps: seq<ProofStep>): seq<Byte> {
    if steps == [] then LeafBytes(id)
    else StepBytes(H(ClimbBytes(H, id, steps[..|steps| - 1])), steps[|steps| - 1])
  }

  /** `x` is one of the strings hashed while the proof is checked. */
  ghost predicate HashedClimbing(H: Hash, id: Id, steps: seq<ProofStep>, x: seq<Byte>) {
    x == ClimbBytes(H, id, steps) || (steps != [] && HashedClimbing(H, id, steps[..|steps| - 1], x))
  }

  /** The isLeft bits as a binary number, the first step the lowest bit. */
  function BitsValue(steps: seq<ProofStep>): (k: nat)
    ensures k < Pow2(|steps|)
  {
    if steps == [] then 0
    else
      var n := |steps| - 1;
      BitsValue(steps[..n]) + (if steps[n].isLeft then Pow2(n) else 0)
  }

  /** A proof that climbs to a subtree's digest is a path down that subtree, or checking it collides. */
  lemma {:induction false} ClimbBinds(H: Hash, id: Id, steps: seq<ProofStep>, ids: seq<Id>, lo: nat, h: nat)
    returns (x: seq<Byte>, y: seq<Byte>)
    requires Climb(H, id, steps) == Hashed(H, TreeOver(ids, lo, h))
    ensures (|steps| == h && lo + BitsValue(steps) < |ids| && ids[lo + BitsValue(steps)] == id) ||
            (Collide(H, x, y) && HashedClimbing(H, id, steps, x) && HashedIn(H, TreeOver(ids, lo, h), y))
    decreases |steps|
  {
    x, y := ClimbBytes(H, id, steps), HashedBytes(H, TreeOver(ids, lo, h));
    if x == y {
      if steps == [] {
        assert h == 0;
        SplitAt([0x00], id, [0x00], if lo < |ids| then ids[lo] else ZERO_DIGEST);
      } else {
        assert h > 0;
        x, y := StepBinds(H, id, steps, ids, lo, h);
      }
    }
  }

  lemma HashedAbove(H: Hash, id: Id, steps: seq<ProofStep>, x: seq<Byte>)
    requires steps != [] && HashedClimbing(H, id, steps[..|steps| - 1], x)
    ensures HashedClimbing(H, id, steps, x)
  {}

  lemma HashedAround(H: Hash, ids: seq<Id>, lo: nat, h: nat, right: bool, y: seq<Byte>)
    requires h > 0 && HashedIn(H, TreeOver(ids, if right then lo + Pow2(h - 1) else lo, h - 1), y)
    ensures HashedIn(H, TreeOver(ids, lo, h), y)
  {}

  lemma {:induction false} StepBinds(H: Hash, id: Id, steps: seq<ProofStep>, ids: seq<Id>, lo: nat, h: nat)
    returns (x: seq<Byte>, y: seq<Byte>)
    requires steps != [] && h > 0 && ClimbBytes(H, id, steps) == HashedBytes(H, TreeOver(ids, lo, h))
    ensures (|steps| == h && lo + BitsValue(steps) < |ids| && ids[lo + BitsValue(steps)] == id) ||
            (Collide(H, x, y) && HashedClimbing(H, id, steps, x) && HashedIn(H, TreeOver(ids, lo, h), y))
    decreases |steps|, 0
  {
    var n := |steps| - 1;
    var below, last := Climb(H, id, steps[..n]), steps[n];
    var l, r := Hashed(H, TreeOver(ids, lo, h - 1)), Hashed(H, TreeOver(ids, lo + Pow2(h - 1), h - 1));
    if last.isLeft {
      NodeBytesInjective(last.hash, below, l, r);
      x, y := ClimbBinds(H, id, steps[..n], ids, lo + Pow2(h - 1), h - 1);
    } else {
      NodeBytesInjective(below, last.hash, l, r);
      x, y := ClimbBinds(H, id, steps[..n], ids, lo, h - 1);
    }
    if HashedClimbing(H, id, steps[..n], x) { HashedAbove(H, id, steps, x); }
    if HashedIn(H, TreeOver(ids, if last.isLeft then lo + Pow2(h - 1) else lo, h - 1), y) {
      HashedAround(H, ids, lo, h, last.isLeft, y);
    }
  }

  /** Whatever verifies against a list's root is the list's element at the index its bits spell, or collides. */
  lemma ProofBindsId(H: Hash, id: Id, steps: seq<ProofStep>, ids: seq<Id>) returns (x: seq<Byte>, y: seq<Byte>)
    requires ids != [] && Climb(H, id, steps) == Root(H, ids)
    ensures (|steps| == Height(|ids|) && BitsValue(steps) < |ids| && ids[BitsValue(steps)] == id) ||
            (Collide(H, x, y) && HashedClimbing(H, id, steps, x) && HashedIn(H, WholeTree(ids), y))
  {
    x, y := ClimbBinds(H, id, steps, ids, 0, Height(|ids|));
  }

  // ----- building, as the code does it -----

  lemma {:induction false} Pow2Monotone(g: nat, h: nat)
    requires g <= h
    ensures Pow2(g) <= Pow2(h)
  {
    if g < h { Pow2Monotone(g, h - 1); }
  }

  lemma HeightUnique(n: nat, e: nat)
    requires n > 0 && n <= Pow2(e) && (e > 0 ==> Pow2(e - 1) < n)
    ensures e == Height(n)
  {
    if e < Height(n) { Pow2Monotone(e, Height(n) - 1); }
    if e > Height(n) { Pow2Monotone(Height(n), e - 1); }
  }

  method NextPowerOfTwo(n: nat) returns (p: nat)
    requires n > 0
    ensures p == Pow2(Height(n))
  {
    p := 1;
    ghost var e := 0;
    while p < n
      invariant p == Pow2(e) && (e > 0 ==> Pow2(e - 1) < n)
      decreases n - p
    {
      p := p * 2;
      e := e + 1;
    }
    HeightUnique(n, e);
  }

  method LeafHash(H: Hash, id: Id) returns (d: Digest)
    ensures d == H(LeafBytes(id))
  {
    var buf: seq<Byte> := [];
    buf := buf + [0x00];
    buf := buf + id;
    assert buf == LeafBytes(id);
    return H(buf);
  }

  method InternalHash(H: Hash, left: Digest, right: Digest) returns (d: Digest)
    ensures d == H(NodeBytes(left, right))
  {
    var buf: seq<Byte> := [];
    buf := buf + [0x01];
    buf := buf + left;
    buf := buf + right;
    assert buf == NodeBytes(left, right);
    return H(buf);
  }

  method PadHash(H: Hash, index: nat) returns (d: Digest)
    ensures d == H(PadBytes(index))
  {
    var buf := new Byte[9](_ => 0);
    buf[0] := 0x02;
    for i := 0 to 8
      invariant buf[0] == 0x02 && forall k :: 0 <= k < i ==> buf[1 + k] == BigEndian(index, 8)[k]
    {
      BigEndianAt(index, 8, i);
      buf[1 + i] := index / Pow256(7 - i) % 256;
    }
    assert buf[..] == PadBytes(index);
    return H(buf[..]);
  }

  datatype MerkleTree = MerkleTree(leafCount: nat, levels: seq<seq<Digest>>)

  /** Level j of the tree over a list: the digests of its subtrees of height j. */
  ghost predicate IsLevel(H: Hash, ids: seq<Id>, level: seq<Digest>, j: nat, h: nat) {
    j <= h && |level| == Pow2(h - j) && forall i :: 0 <= i < |level| ==> level[i] == Subtree(H, ids, i, j)
  }

  /** The digest of the i-th subtree of height j. */
  function Subtree(H: Hash, ids: seq<Id>, i: nat, j: nat): Digest { Hashed(H, TreeOver(ids, i * Pow2(j), j)) }

  lemma SubtreeTip(H: Hash, ids: seq<Id>, i: nat)
    ensures Subtree(H, ids, i, 0) == H(TipBytes(ids, i))
  {
    assert i * Pow2(0) == i;
    assert TreeOver(ids, i, 0) == Tip(TipBytes(ids, i));
  }

  lemma Positions(i: nat, p: nat)
    ensures i * (2 * p) == 2 * i * p && i * (2 * p) + p == (2 * i + 1) * p
  {}

  lemma SubtreeStep(H: Hash, ids: seq<Id>, i: nat, j: nat)
    ensures Subtree(H, ids, i, j + 1) == H(NodeBytes(Subtree(H, ids, 2 * i, j), Subtree(H, ids, 2 * i + 1, j)))
  {
    var p := Pow2(j);
    var lo, mid := 2 * i * p, (2 * i + 1) * p;
    Positions(i, p);
    assert TreeOver(ids, i * Pow2(j + 1), j + 1) == Fork(TreeOver(ids, lo, j), TreeOver(ids, mid, j));
  }

  ghost predicate Built(H: Hash, ids: seq<Id>, t: MerkleTree) {
    ids != [] && t.leafCount == |ids| && |t.levels| == Height(|ids|) + 1 &&
    forall j :: 0 <= j < |t.levels| ==> IsLevel(H, ids, t.levels[j], j, Height(|ids|))
  }

  method PaddedLeaves(H: Hash, ids: seq<Id>) returns (level: array<Digest>)
    requires ids != []
    ensures fresh(level) && IsLevel(H, ids, level[..], 0, Height(|ids|))
  {
    var n := NextPowerOfTwo(|ids|);
    level := new Digest[n](_ => ZERO_DIGEST);
    for i := 0 to |ids|
      invariant forall k :: 0 <= k < i ==> level[k] == H(TipBytes(ids, k))
    {
      level[i] := LeafHash(H, ids[i]);
    }
    for i := |ids| to n
      invariant forall k :: 0 <= k < i ==> level[k] == H(TipBytes(ids, k))
    {
      level[i] := PadHash(H, i);
    }
    forall i | 0 <= i < n ensures level[..][i] == Subtree(H, ids, i, 0) { SubtreeTip(H, ids, i); }
  }

  method NextLevel(H: Hash, ghost ids: seq<Id>, level: array<Digest>, ghost j: nat, ghost h: nat)
      returns (next: array<Digest>)
    requires j < h && IsLevel(H, ids, level[..], j, h)
    ensures fresh(next) && next.Length == level.Length / 2 && IsLevel(H, ids, next[..], j + 1, h)
  {
    next := new Digest[level.Length / 2](_ => ZERO_DIGEST);
    for i := 0 to next.Length
      invariant forall k :: 0 <= k < i ==> next[k] == Subtree(H, ids, k, j + 1)
    {
      SubtreeStep(H, ids, i, j);
      assert level[2 * i] == level[..][2 * i] && level[2 * i + 1] == level[..][2 * i + 1];
      next[i] := InternalHash(H, level[2 * i], level[2 * i + 1]);
    }
  }

  /** The least power of two not below the list, then half as many from level to level, down to one. */
  lemma LevelSizes(H: Hash, ids: seq<Id>, t: MerkleTree)
    requires Built(H, ids, t)
    ensures |ids| <= |t.levels[0]| < 2 * |ids| && |t.levels[|t.levels| - 1]| == 1
    ensures forall j :: 0 <= j < |t.levels| - 1 ==> |t.levels[j]| == 2 * |t.levels[j + 1]|
  {
    var h := Height(|ids|);
    assert IsLevel(H, ids, t.levels[0], 0, h) && IsLevel(H, ids, t.levels[h], h, h);
    forall j | 0 <= j < h ensures |t.levels[j]| == 2 * |t.levels[j + 1]| {
      assert IsLevel(H, ids, t.levels[j], j, h) && IsLevel(H, ids, t.levels[j + 1], j + 1, h);
    }
  }

  /** Ids are hashed after a zero byte, paddings after a two with their own position, pairs after a one. */
  lemma LevelDigests(H: Hash, ids: seq<Id>, t: MerkleTree)
    requires Built(H, ids, t)
    ensures |ids| <= |t.levels[0]|
    ensures forall i :: 0 <= i < |ids| ==> t.levels[0][i] == H([0x00] + ids[i])
    ensures forall i :: |ids| <= i < |t.levels[0]| ==> t.levels[0][i] == H([0x02] + BigEndian(i, 8))
    ensures forall j, i :: 0 <= j < |t.levels| - 1 && 0 <= i < |t.levels[j + 1]| ==>
      2 * i + 1 < |t.levels[j]| && t.levels[j + 1][i] == H([0x01] + t.levels[j][2 * i] + t.levels[j][2 * i + 1])
  {
    LevelSizes(H, ids, t);
    var h := Height(|ids|);
    assert IsLevel(H, ids, t.levels[0], 0, h);
    forall i | 0 <= i < |t.levels[0]| ensures t.levels[0][i] == H(TipBytes(ids, i)) { SubtreeTip(H, ids, i); }
    forall j, i | 0 <= j < h && 0 <= i < |t.levels[j + 1]|
      ensures 2 * i + 1 < |t.levels[j]| && t.levels[j + 1][i] == H([0x01] + t.levels[j][2 * i] + t.levels[j][2 * i + 1])
    {
      assert IsLevel(H, ids, t.levels[j], j, h) && IsLevel(H, ids, t.levels[j + 1], j + 1, h);
      SubtreeStep(H, ids, i, j);
    }
  }

  method BuildMerkleTree(H: Hash, ids: seq<Id>) returns (r: Result<MerkleTree>)
    ensures r.Ok? <==> ids != []
    ensures r.Ok? ==> Built(H, ids, r.value)
    ensures r.Ok? ==> r.value.leafCount == |ids| && r.value.levels != []
    ensures r.Ok? ==> var levels := r.value.levels;
      && |ids| <= |levels[0]| < 2 * |ids| && |levels[|levels| - 1]| == 1
      && (forall i :: 0 <= i < |ids| ==> levels[0][i] == H([0x00] + ids[i]))
      && (forall i :: |ids| <= i < |levels[0]| ==> levels[0][i] == H([0x02] + BigEndian(i, 8)))
    ensures r.Ok? ==> var levels := r.value.levels;
      forall j :: 0 <= j < |levels| - 1 ==>
        |levels[j]| == 2 * |levels[j + 1]| &&
        forall i :: 0 <= i < |levels[j + 1]| ==>
          levels[j + 1][i] == H([0x01] + levels[j][2 * i] + levels[j][2 * i + 1])
  {
    if |ids| == 0 { return Err; }
    ghost var h := Height(|ids|);
    var level := PaddedLeaves(H, ids);
    var levels := [level[..]];
    while level.Length > 1
      invariant 0 < |levels| <= h + 1 && level[..] == levels[|levels| - 1]
      invariant forall j :: 0 <= j < |levels| ==> IsLevel(H, ids, levels[j], j, h)
      decreases level.Length
    {
      assert IsLevel(H, ids, levels[|levels| - 1], |levels| - 1, h);
      level := NextLevel(H, ids, level, |levels| - 1, h);
      levels := levels + [level[..]];
    }
    assert IsLevel(H, ids, levels[|levels| - 1], |levels| - 1, h);
    r := Ok(MerkleTree(|ids|, levels));
    LevelSizes(H, ids, r.value);
    LevelDigests(H, ids, r.value);
  }

  method RootOf(H: Hash, ghost ids: seq<Id>, t: MerkleTree) returns (root: Digest)
    requires Built(H, ids, t)
    ensures root == Root(H, ids)
    ensures t.levels != [] && |t.levels[|t.levels| - 1]| == 1 && root == t.levels[|t.levels| - 1][0]
  {
    var top := t.levels[|t.levels| - 1];
    assert IsLevel(H, ids, top, Height(|ids|), Height(|ids|));
    return top[0];
  }

  datatype InclusionProof = InclusionProof(leafIndex: nat, steps: seq<ProofStep>)

  /** Adding the sibling's step climbs from a subtree to its parent. */
  lemma StepUp(H: Hash, ids: seq<Id>, id: Id, steps: seq<ProofStep>, idx: nat, level: nat)
    requires |steps| == level + 1 && Climb(H, id, steps[..level]) == Subtree(H, ids, idx, level)
    requires steps[level].isLeft == (idx % 2 == 1)
    requires steps[level].hash == Subtree(H, ids, if idx % 2 == 1 then idx - 1 else idx + 1, level)
    ensures Climb(H, id, steps) == Subtree(H, ids, idx / 2, level + 1)
  {
    SubtreeStep(H, ids, idx / 2, level);
  }

  /** The leaf index from which halving |steps| times, with these bits dropped, arrives at idx. */
  function IndexBelow(steps: seq<ProofStep>, idx: nat): nat {
    if steps == [] then idx
    else var n := |steps| - 1; IndexBelow(steps[..n], 2 * idx + (if steps[n].isLeft then 1 else 0))
  }

  lemma {:induction false} IndexBelowBits(steps: seq<ProofStep>, idx: nat)
    ensures IndexBelow(steps, idx) == BitsValue(steps) + idx * Pow2(|steps|)
  {
    if steps != [] {
      var n := |steps| - 1;
      var bit := if steps[n].isLeft then 1 else 0;
      IndexBelowBits(steps[..n], 2 * idx + bit);
      assert (2 * idx + bit) * Pow2(n) == idx * (2 * Pow2(n)) + bit * Pow2(n);
    }
  }

  /** The steps so far lead from leaf i to the subtree idx at their height. */
  ghost predicate OnPath(H: Hash, ids: seq<Id>, i: nat, steps: seq<ProofStep>, idx: nat, h: nat) {
    i < |ids| && |steps| <= h && idx < Pow2(h - |steps|) && i == IndexBelow(steps, idx) &&
    Climb(H, ids[i], steps) == Subtree(H, ids, idx, |steps|)
  }

  lemma PathStep(H: Hash, ids: seq<Id>, i: nat, steps: seq<ProofStep>, idx: nat, h: nat)
    requires 0 < |steps| <= h && OnPath(H, ids, i, steps[..|steps| - 1], idx, h)
    requires steps[|steps| - 1].isLeft == (idx % 2 == 1)
    requires steps[|steps| - 1].hash == Subtree(H, ids, if idx % 2 == 1 then idx - 1 else idx + 1, |steps| - 1)
    ensures OnPath(H, ids, i, steps, idx / 2, h)
  {
    StepUp(H, ids, ids[i], steps, idx, |steps| - 1);
  }

  lemma AllBits(steps: seq<ProofStep>)
    ensures IndexBelow(steps, 0) == BitsValue(steps)
  {
    IndexBelowBits(steps, 0);
    assert 0 * Pow2(|steps|) == 0;
  }

  lemma PathTop(H: Hash, ids: seq<Id>, i: nat, steps: seq<ProofStep>, idx: nat)
    requires OnPath(H, ids, i, steps, idx, |steps|)
    ensures i < |ids| && i == IndexBelow(steps, 0) && Climb(H, ids[i], steps) == Subtree(H, ids, 0, |steps|)
  {
    assert Pow2(0) == 1 && idx == 0;
  }

  lemma PathEnds(H: Hash, ids: seq<Id>, i: nat, steps: seq<ProofStep>)
    requires ids != [] && i < |ids| && i == IndexBelow(steps, 0) && |steps| == Height(|ids|)
    requires Climb(H, ids[i], steps) == Subtree(H, ids, 0, |steps|)
    ensures BitsValue(steps) == i && Climb(H, ids[i], steps) == Root(H, ids)
  {
    AllBits(steps);
    SubtreeAtZero(H, ids, |steps|);
  }

  lemma SubtreeAtZero(H: Hash, ids: seq<Id>, h: nat)
    ensures Subtree(H, ids, 0, h) == Hashed(H, TreeOver(ids, 0, h))
  {
    assert 0 * Pow2(h) == 0;
  }

  /** The step names the node beside position idx and on which side it stands. */
  predicate IsSibling(s: ProofStep, nodes: seq<Digest>, idx: nat) {
    if idx % 2 == 1 then idx - 1 < |nodes| && s == ProofStep(nodes[idx - 1], true)
    else idx + 1 < |nodes| && s == ProofStep(nodes[idx + 1], false)
  }

  /** The position above leaf i at level k. */
  function Ancestor(i: nat, k: nat): nat { if k == 0 then i else Ancestor(i, k - 1) / 2 }

  lemma {:induction false} AncestorIsShift(i: nat, k: nat)
    ensures Ancestor(i, k) == i / Pow2(k)
  {
    if k > 0 {
      AncestorIsShift(i, k - 1);
      DivDiv(i, Pow2(k - 1), 2);
    }
  }

  /** Each step is the sibling of the leaf's ancestor at its level. */
  predicate Siblings(t: MerkleTree, i: nat, steps: seq<ProofStep>) {
    |steps| <= |t.levels| && forall k :: 0 <= k < |steps| ==> IsSibling(steps[k], t.levels[k], Ancestor(i, k))
  }

  lemma SiblingsMore(t: MerkleTree, i: nat, steps: seq<ProofStep>, step: ProofStep)
    requires Siblings(t, i, steps) && |steps| < |t.levels|
    requires IsSibling(step, t.levels[|steps|], Ancestor(i, |steps|))
    ensures Siblings(t, i, steps + [step])
  {}

  method SiblingStep(H: Hash, ghost ids: seq<Id>, nodes: seq<Digest>, idx: nat, ghost level: nat, ghost h: nat)
      returns (s: ProofStep)
    requires level < h && IsLevel(H, ids, nodes, level, h) && idx < |nodes|
    ensures s.isLeft == (idx % 2 == 1)
    ensures s.hash == Subtree(H, ids, if idx % 2 == 1 then idx - 1 else idx + 1, level)
    ensures IsSibling(s, nodes, idx)
  {
    assert |nodes| == 2 * Pow2(h - level - 1);
    if idx % 2 == 0 {
      return ProofStep(nodes[idx + 1], false);
    } else {
      return ProofStep(nodes[idx - 1], true);
    }
  }

  /** From the leaves up, one sibling a level. */
  method CollectSteps(H: Hash, ghost ids: seq<Id>, t: MerkleTree, i: nat) returns (steps: seq<ProofStep>)
    requires Built(H, ids, t) && i < |ids|
    ensures |steps| == Height(|ids|) && BitsValue(steps) == i && Climb(H, ids[i], steps) == Root(H, ids)
    ensures Siblings(t, i, steps)
  {
    steps := [];
    var idx := i;
    ghost var h := Height(|ids|);
    SubtreeTip(H, ids, i);
    for level := 0 to |t.levels| - 1
      invariant |steps| == level && idx == Ancestor(i, level) && OnPath(H, ids, i, steps, idx, h)
      invariant Siblings(t, i, steps)
    {
      var nodes := t.levels[level];
      assert IsLevel(H, ids, nodes, level, h);
      ghost var before := steps;
      var step := SiblingStep(H, ids, nodes, idx, level, h);
      SiblingsMore(t, i, steps, step);
      steps := steps + [step];
      assert steps[..level] == before;
      PathStep(H, ids, i, steps, idx, h);
      idx := idx / 2;
    }
    PathTop(H, ids, i, steps, idx);
    PathEnds(H, ids, i, steps);
  }

  /** Every leaf has a proof of log2(padded size) steps whose bits are its index and which the root accepts. */
  method Prove(H: Hash, ghost ids: seq<Id>, t: MerkleTree, i: int) returns (r: Result<InclusionProof>)
    requires Built(H, ids, t)
    ensures r.Ok? <==> 0 <= i < |ids|
    ensures r.Ok? ==> r.value.leafIndex == i && |r.value.steps| == Height(|ids|) && BitsValue(r.value.steps) == i
    ensures r.Ok? ==> Climb(H, ids[i], r.value.steps) == Root(H, ids)
    ensures r.Ok? ==> |r.value.steps| == |t.levels| - 1 && Siblings(t, i, r.value.steps)
  {
    if i < 0 || i >= t.leafCount { return Err; }
    var steps := CollectSteps(H, ids, t, i);
    return Ok(InclusionProof(i, steps));
  }

  method VerifyInclusion(H: Hash, id: Id, proof: InclusionProof, root: Digest) returns (ok: bool)
    ensures ok <==> Climb(H, id, proof.steps) == root
  {
    var h := LeafHash(H, id);
    for i := 0 to |proof.steps|
      invariant h == Climb(H, id, proof.steps[..i])
    {
      var step := proof.steps[i];
      assert proof.steps[..i + 1][..i] == proof.steps[..i];
      if step.isLeft {
        h := InternalHash(H, step.hash, h);
      } else {
        h := InternalHash(H, h, step.hash);
      }
    }
    assert proof.steps[..|proof.steps|] == proof.steps;
    return h == root;
  }
}
