/** Sealed batches, sealed epochs and the hash chain over them (ledger/epoch.go). */
module Epoch {
  import opened Common
  import opened Bytes
  import opened Merkle

  type UInt64 = n: nat | n < 0x1_0000_0000_0000_0000

  datatype BatchSeal = BatchSeal(root: Digest, tree: MerkleTree)

  datatype EpochSeal = EpochSeal(epochID: UInt64, root: Digest, prev: Digest, publicKey: seq<Byte>,
      signature: seq<Byte>)

  // ----- what is signed and what is chained -----

  function SignedHeader(epochID: UInt64, root: Digest, prev: Digest): (bs: seq<Byte>)
    ensures |bs| == 72
  {
    BigEndian(epochID, 8) + root + prev
  }

  function ChainBytes(e: EpochSeal): seq<Byte> { SignedHeader(e.epochID, e.root, e.prev) + e.signature }

  function ChainHash(H: Hash, e: EpochSeal): Digest { H(ChainBytes(e)) }

  /** Everything but the public key, which no hash covers. */
  predicate SameSeal(a: EpochSeal, b: EpochSeal) {
    a.epochID == b.epochID && a.root == b.root && a.prev == b.prev && a.signature == b.signature
  }

  /** The layout is unambiguous: equal strings mean equal headers and signatures, and conversely. */
  lemma ChainBytesInjective(a: EpochSeal, b: EpochSeal)
    ensures ChainBytes(a) == ChainBytes(b) <==> SameSeal(a, b)
  {
    if ChainBytes(a) == ChainBytes(b) {
      SplitAt(SignedHeader(a.epochID, a.root, a.prev), a.signature, SignedHeader(b.epochID, b.root, b.prev),
        b.signature);
      SplitAt(BigEndian(a.epochID, 8) + a.root, a.prev, BigEndian(b.epochID, 8) + b.root, b.prev);
      SplitAt(BigEndian(a.epochID, 8), a.root, BigEndian(b.epochID, 8), b.root);
      EightBytesBind(a.epochID, b.epochID);
    }
  }

  // ----- the chain commits to its headers and signatures -----

  /** The first epoch's prev is all zero, every other one's is its predecessor's chain hash. */
  predicate Linked(H: Hash, seals: seq<EpochSeal>) {
    seals != [] && seals[0].prev == ZERO_DIGEST &&
    forall i :: 0 < i < |seals| ==> seals[i].prev == ChainHash(H, seals[i - 1])
  }

  function FinalHash(H: Hash, seals: seq<EpochSeal>): Digest
    requires seals != []
  {
    ChainHash(H, seals[|seals| - 1])
  }

  predicate SameChain(a: seq<EpochSeal>, b: seq<EpochSeal>) {
    |a| == |b| && forall i :: 0 <= i < |a| ==> SameSeal(a[i], b[i])
  }

  predicate Chained(seals: seq<EpochSeal>, x: seq<Byte>) { exists e :: e in seals && x == ChainBytes(e) }

  /** Two linked chains of any lengths with one final hash agree, or a collision or a zero preimage is at hand. */
  lemma {:induction false} ChainBinds(H: Hash, a: seq<EpochSeal>, b: seq<EpochSeal>)
      returns (x: seq<Byte>, y: seq<Byte>)
    requires Linked(H, a) && Linked(H, b) && FinalHash(H, a) == FinalHash(H, b)
    ensures SameChain(a, b) || (Collide(H, x, y) && Chained(a, x) && Chained(b, y)) ||
            (H(x) == ZERO_DIGEST && (Chained(a, x) || Chained(b, x)))
  {
    var m, n := |a| - 1, |b| - 1;
    x, y := ChainBytes(a[m]), ChainBytes(b[n]);
    assert a[m] in a && b[n] in b;
    if x == y {
      ChainBytesInjective(a[m], b[n]);
      if m == 0 && n > 0 {
        x := ChainBytes(b[n - 1]);
        assert b[n - 1] in b;
      } else if m > 0 && n == 0 {
        x := ChainBytes(a[m - 1]);
        assert a[m - 1] in a;
      } else if m > 0 {
        x, y := ChainBinds(H, a[..m], b[..n]);
        ChainedWithin(a, m);
        ChainedWithin(b, n);
        if SameChain(a[..m], b[..n]) { SameChainStep(a, b); }
      }
    }
  }

  lemma ChainedWithin(seals: seq<EpochSeal>, n: nat)
    requires n <= |seals|
    ensures forall x :: Chained(seals[..n], x) ==> Chained(seals, x)
  {
    forall x | Chained(seals[..n], x) ensures Chained(seals, x) {
      var e :| e in seals[..n] && x == ChainBytes(e);
      assert e in seals;
    }
  }

  lemma SameChainStep(a: seq<EpochSeal>, b: seq<EpochSeal>)
    requires |a| == |b| > 0 && SameChain(a[..|a| - 1], b[..|a| - 1]) && SameSeal(a[|a| - 1], b[|a| - 1])
    ensures SameChain(a, b)
  {
    forall i | 0 <= i < |a| ensures SameSeal(a[i], b[i]) {
      if i < |a| - 1 { assert a[..|a| - 1][i] == a[i] && b[..|a| - 1][i] == b[i]; }
    }
  }

  // ----- ... and, through the trees, to every evidence id -----

  /** The id lists of an epoch's batches, all non-empty, as a seal's root commits to them. */
  type Batches = seq<seq<Id>>

  predicate Sealable(batches: Batches) { batches != [] && forall i :: 0 <= i < |batches| ==> batches[i] != [] }

  function BatchRoots(H: Hash, batches: Batches): (roots: seq<Digest>)
    requires Sealable(batches)
    ensures |roots| == |batches| && forall i :: 0 <= i < |batches| ==> roots[i] == Root(H, batches[i])
  {
    seq(|batches|, i requires 0 <= i < |batches| => Root(H, batches[i]))
  }

  predicate Commits(H: Hash, e: EpochSeal, batches: Batches) {
    Sealable(batches) && e.root == Root(H, BatchRoots(H, batches))
  }

  /** `x` is hashed while the epoch's batches and its own tree are sealed. */
  ghost predicate HashedForEpoch(H: Hash, batches: Batches, x: seq<Byte>)
    requires Sealable(batches)
  {
    HashedIn(H, WholeTree(BatchRoots(H, batches)), x) ||
      exists i :: 0 <= i < |batches| && HashedIn(H, WholeTree(batches[i]), x)
  }

  lemma EpochBinds(H: Hash, e: EpochSeal, f: EpochSeal, a: Batches, b: Batches) returns (x: seq<Byte>, y: seq<Byte>)
    requires Commits(H, e, a) && Commits(H, f, b) && e.root == f.root
    ensures a == b || (Collide(H, x, y) && HashedForEpoch(H, a, x) && HashedForEpoch(H, b, y))
  {
    x, y := RootBindsList(H, BatchRoots(H, a), BatchRoots(H, b));
    if BatchRoots(H, a) == BatchRoots(H, b) {
      if a != b {
        var i :| 0 <= i < |a| && a[i] != b[i];
        assert BatchRoots(H, a)[i] == BatchRoots(H, b)[i];
        x, y := RootBindsList(H, a[i], b[i]);
      }
    }
  }

  /** A ledger: its seals and, for each, the id lists it was sealed over. */
  datatype Ledger = Ledger(seals: seq<EpochSeal>, contents: seq<Batches>)

  predicate Faithful(H: Hash, l: Ledger) {
    Linked(H, l.seals) && |l.contents| == |l.seals| &&
      forall i :: 0 <= i < |l.seals| ==> Commits(H, l.seals[i], l.contents[i])
  }

  /** `x` is hashed somewhere in the ledger's making. */
  ghost predicate HashedForLedger(H: Hash, l: Ledger, x: seq<Byte>)
    requires Faithful(H, l)
  {
    Chained(l.seals, x) || exists i :: 0 <= i < |l.contents| && HashedForEpoch(H, l.contents[i], x)
  }

  /** The last chain hash commits to all history: headers, signatures and every evidence id list, epoch by epoch. */
  lemma LastHashBindsHistory(H: Hash, a: Ledger, b: Ledger) returns (x: seq<Byte>, y: seq<Byte>)
    requires Faithful(H, a) && Faithful(H, b) && FinalHash(H, a.seals) == FinalHash(H, b.seals)
    ensures (SameChain(a.seals, b.seals) && a.contents == b.contents) ||
            (Collide(H, x, y) && HashedForLedger(H, a, x) && HashedForLedger(H, b, y)) ||
            (H(x) == ZERO_DIGEST && (HashedForLedger(H, a, x) || HashedForLedger(H, b, x)))
  {
    x, y := ChainBinds(H, a.seals, b.seals);
    if SameChain(a.seals, b.seals) && a.contents != b.contents {
      var i :| 0 <= i < |a.contents| && a.contents[i] != b.contents[i];
      assert SameSeal(a.seals[i], b.seals[i]);
      x, y := EpochBinds(H, a.seals[i], b.seals[i], a.contents[i], b.contents[i]);
    }
  }

  // ----- sealing, as the code does it -----

  method FillHeader(epochID: UInt64, root: Digest, prev: Digest) returns (buf: array<Byte>)
    ensures fresh(buf) && buf[..] == SignedHeader(epochID, root, prev)
    ensures buf.Length == 72 && buf[..8] == BigEndian(epochID, 8) && buf[8..40] == root && buf[40..] == prev
  {
    buf := new Byte[72](_ => 0);
    for i := 0 to 8
      invariant forall k :: 0 <= k < i ==> buf[k] == BigEndian(epochID, 8)[k]
    {
      BigEndianAt(epochID, 8, i);
      buf[i] := epochID / Pow256(7 - i) % 256;
    }
    for i := 0 to 32
      invariant forall k :: 0 <= k < 8 ==> buf[k] == BigEndian(epochID, 8)[k]
      invariant forall k :: 0 <= k < i ==> buf[8 + k] == root[k]
    {
      buf[8 + i] := root[i];
    }
    for i := 0 to 32
      invariant forall k :: 0 <= k < 40 ==> buf[k] == (BigEndian(epochID, 8) + root)[k]
      invariant forall k :: 0 <= k < i ==> buf[40 + k] == prev[k]
    {
      buf[40 + i] := prev[i];
    }
    assert buf[..] == SignedHeader(epochID, root, prev);
  }

  method ComputeChainHash(H: Hash, e: EpochSeal) returns (d: Digest)
    ensures d == ChainHash(H, e)
    ensures d == H(BigEndian(e.epochID, 8) + e.root + e.prev + e.signature)
  {
    var buf: seq<Byte> := [];
    var header := FillHeader(e.epochID, e.root, e.prev);
    buf := buf + header[..];
    buf := buf + e.signature;
    assert buf == ChainBytes(e);
    return H(buf);
  }

  method SealBatch(H: Hash, ids: seq<Id>) returns (r: Result<BatchSeal>)
    ensures r.Ok? <==> ids != []
    ensures r.Ok? ==> r.value.root == Root(H, ids) && Built(H, ids, r.value.tree)
  {
    var tree := BuildMerkleTree(H, ids);
    if tree.Err? { return Err; }
    var root := RootOf(H, ids, tree.value);
    return Ok(BatchSeal(root, tree.value));
  }

  method SealEpoch(H: Hash, epochID: UInt64, batchRoots: seq<Digest>, prev: Digest, publicKey: seq<Byte>,
      sign: seq<Byte> -> seq<Byte>)
    returns (r: Result<EpochSeal>)
    ensures r.Ok? <==> batchRoots != []
    ensures r.Ok? ==> r.value.epochID == epochID && r.value.prev == prev && r.value.publicKey == publicKey
    ensures r.Ok? ==>
      r.value.root == Root(H, batchRoots) && r.value.signature == sign(SignedHeader(epochID, r.value.root, prev))
    ensures r.Ok? ==> r.value.signature == sign(BigEndian(epochID, 8) + r.value.root + prev)
  {
    var ids := new Id[|batchRoots|](_ => ZERO_DIGEST);
    for i := 0 to |batchRoots|
      invariant ids[..i] == batchRoots[..i]
    {
      ids[i] := batchRoots[i];
    }
    assert ids[..] == batchRoots;
    var tree := BuildMerkleTree(H, ids[..]);
    if tree.Err? { return Err; }
    var root := RootOf(H, batchRoots, tree.value);
    var header := FillHeader(epochID, root, prev);
    return Ok(EpochSeal(epochID, root, prev, publicKey, sign(header[..])));
  }

  method SealBatches(H: Hash, batches: Batches) returns (roots: seq<Digest>)
    requires Sealable(batches)
    ensures roots == BatchRoots(H, batches)
  {
    roots := [];
    for j := 0 to |batches|
      invariant roots == BatchRoots(H, batches)[..j]
    {
      var batch := SealBatch(H, batches[j]);
      roots := roots + [batch.value.root];
    }
  }

  /** One epoch's batches and seal, and the hash the next epoch must name. */
  method SealNext(H: Hash, epochID: UInt64, batches: Batches, prev: Digest, publicKey: seq<Byte>,
      sign: seq<Byte> -> seq<Byte>)
    returns (e: EpochSeal, next: Digest)
    requires Sealable(batches)
    ensures e.epochID == epochID && e.prev == prev && Commits(H, e, batches) && next == ChainHash(H, e)
    ensures e.publicKey == publicKey && e.signature == sign(BigEndian(epochID, 8) + e.root + prev)
  {
    var roots := SealBatches(H, batches);
    var epoch := SealEpoch(H, epochID, roots, prev, publicKey, sign);
    e := epoch.value;
    next := ComputeChainHash(H, e);
  }

  /** What the next epoch must name as its prev. */
  function NextPrev(H: Hash, seals: seq<EpochSeal>): Digest { if seals == [] then ZERO_DIGEST else FinalHash(H, seals) }

  /** A ledger grows by an epoch whose prev is the last chain hash. */
  lemma LedgerGrows(H: Hash, l: Ledger, e: EpochSeal, batches: Batches)
    requires |l.contents| == |l.seals| && (l.seals != [] ==> Faithful(H, l)) && e.prev == NextPrev(H, l.seals) &&
      Commits(H, e, batches)
    ensures Faithful(H, Ledger(l.seals + [e], l.contents + [batches])) && NextPrev(H, l.seals + [e]) == ChainHash(H, e)
  {}

  lemma OneMoreEpoch(contents: seq<Batches>, n: nat)
    requires n < |contents|
    ensures contents[..n + 1] == contents[..n] + [contents[n]]
  {}

  /** Epochs are numbered from zero, and each signs its number, root and predecessor. */
  predicate SealedAt(e: EpochSeal, i: nat, publicKey: seq<Byte>, sign: seq<Byte> -> seq<Byte>) {
    e.epochID == i && e.publicKey == publicKey && e.signature == sign(BigEndian(i, 8) + e.root + e.prev)
  }

  /** Seals a whole history the way the sealer does: batches first, each epoch linked to the one before. */
  method SealHistory(H: Hash, contents: seq<Batches>, publicKey: seq<Byte>, sign: seq<Byte> -> seq<Byte>)
      returns (seals: seq<EpochSeal>)
    requires contents != [] && |contents| < 0x1_0000_0000_0000_0000 &&
      forall i :: 0 <= i < |contents| ==> Sealable(contents[i])
    ensures Faithful(H, Ledger(seals, contents)) && |seals| == |contents|
    ensures seals[0].prev == seq(32, _ => 0)
    ensures forall i :: 0 < i < |seals| ==>
      var e := seals[i - 1]; seals[i].prev == H(BigEndian(e.epochID, 8) + e.root + e.prev + e.signature)
    ensures forall i :: 0 <= i < |seals| ==> SealedAt(seals[i], i, publicKey, sign)
  {
    seals := [];
    var prev := ZERO_DIGEST;
    for n := 0 to |contents|
      invariant |seals| == n && prev == NextPrev(H, seals)
      invariant n > 0 ==> Faithful(H, Ledger(seals, contents[..n]))
      invariant forall i :: 0 <= i < n ==> SealedAt(seals[i], i, publicKey, sign)
    {
      var epoch, next := SealNext(H, n, contents[n], prev, publicKey, sign);
      LedgerGrows(H, Ledger(seals, contents[..n]), epoch, contents[n]);
      OneMoreEpoch(contents, n);
      seals := seals + [epoch];
      prev := next;
    }
    assert contents[..|contents|] == contents;
  }
}
