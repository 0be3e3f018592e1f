/** The point quadtree of the investigation canvas (quadtree.ts), over exact coordinates. */
module Quadtree {
  import opened Common

  datatype QuadPoint = QuadPoint(id: string, x: real, y: real)

  datatype Bounds = Bounds(x: real, y: real, w: real, h: real)

  const MAX_POINTS_PER_NODE := 8
  const MAX_DEPTH := 12

  /** Half-open: the left and top edges belong to the rectangle, the right and bottom ones do not. */
  predicate Contains(b: Bounds, p: QuadPoint) { b.x <= p.x < b.x + b.w && b.y <= p.y < b.y + b.h }

  /** Closed on all edges. */
  predicate Covers(b: Bounds, p: QuadPoint) { b.x <= p.x <= b.x + b.w && b.y <= p.y <= b.y + b.h }

  /** Strict on all edges. */
  predicate Intersects(a: Bounds, b: Bounds) {
    a.x < b.x + b.w && a.x + a.w > b.x && a.y < b.y + b.h && a.y + a.h > b.y
  }

  /** Top left, top right, bottom left, bottom right. */
  function Quadrant(b: Bounds, k: nat): Bounds {
    Bounds(if k % 2 == 0 then b.x else b.x + b.w / 2.0, if k < 2 then b.y else b.y + b.h / 2.0, b.w / 2.0, b.h / 2.0)
  }

  lemma QuadrantsPartition(b: Bounds, p: QuadPoint)
    ensures Contains(b, p) <==> exists k :: 0 <= k < 4 && Contains(Quadrant(b, k), p)
    ensures forall k, l :: 0 <= k < l < 4 ==> !(Contains(Quadrant(b, k), p) && Contains(Quadrant(b, l), p))
  {
    assert Contains(b, p) ==>
      Contains(Quadrant(b, 0), p) || Contains(Quadrant(b, 1), p) || Contains(Quadrant(b, 2), p) ||
      Contains(Quadrant(b, 3), p);
  }

  /** Quadrants come in reading order: row by row, left to right. */
  lemma ReadingOrder(b: Bounds, k: nat, l: nat, p: QuadPoint, q: QuadPoint)
    requires k < l < 4 && Contains(Quadrant(b, k), p) && Contains(Quadrant(b, l), q)
    ensures p.y < b.y + b.h / 2.0 <= q.y || (p.x < b.x + b.w / 2.0 <= q.x && Abs(p.y - q.y) < b.h / 2.0)
  {}

  function Abs(d: real): real { if d < 0.0 then -d else d }

  // ----- the tree as a value -----

  datatype Tree =
    | Leaf(bounds: Bounds, depth: nat, points: seq<QuadPoint>)
    | Fork(bounds: Bounds, depth: nat, kids: seq<Tree>)

  predicate IsKid(t: Tree, k: nat)
    requires t.Fork? && k < |t.kids|
  {
    t.kids[k].bounds == Quadrant(t.bounds, k) && t.kids[k].depth == t.depth + 1
  }

  /** Depths count down from the root, and a node's kids are its four quadrants. */
  predicate Shaped(t: Tree) {
    t.depth <= MAX_DEPTH &&
    (t.Fork? ==> t.depth < MAX_DEPTH && |t.kids| == 4 && forall k :: 0 <= k < 4 ==> IsKid(t, k) && Shaped(t.kids[k]))
  }

  function EmptyKids(b: Bounds, depth: nat): seq<Tree> {
    [Leaf(Quadrant(b, 0), depth, []), Leaf(Quadrant(b, 1), depth, []), Leaf(Quadrant(b, 2), depth, []),
      Leaf(Quadrant(b, 3), depth, [])]
  }

  lemma EmptyForkShaped(b: Bounds, depth: nat)
    requires depth < MAX_DEPTH
    ensures var t := Fork(b, depth, EmptyKids(b, depth + 1));
      Shaped(t) && forall k :: 0 <= k < 4 ==> IsKid(t, k) && t.kids[k] == Leaf(Quadrant(b, k), depth + 1, [])
  {}

  /** The first kid from k on that contains the point, or 4. */
  function Home(b: Bounds, p: QuadPoint, k: nat): (r: nat)
    requires k <= 4
    ensures k <= r <= 4 && (r < 4 ==> Contains(Quadrant(b, r), p)) &&
      forall j :: k <= j < r ==> !Contains(Quadrant(b, j), p)
    decreases 4 - k
  {
    if k == 4 then 4 else if Contains(Quadrant(b, k), p) then k else Home(b, p, k + 1)
  }

  function Insert(t: Tree, p: QuadPoint): (r: Tree)
    requires Shaped(t)
    ensures Shaped(r) && r.bounds == t.bounds && r.depth == t.depth
    decreases MAX_DEPTH - t.depth, 2, 0
  {
    if !Contains(t.bounds, p) then t
    else if t.Fork? then InsertBelow(t, p)
    else
      var points := t.points + [p];
      if |points| > MAX_POINTS_PER_NODE &&
        t.depth < MAX_DEPTH then Scatter(Fork(t.bounds, t.depth, EmptyKids(t.bounds, t.depth + 1)), points)
      else Leaf(t.bounds, t.depth, points)
  }

  function InsertBelow(t: Tree, p: QuadPoint): (r: Tree)
    requires Shaped(t) && t.Fork?
    ensures Shaped(r) && r.Fork? && r.bounds == t.bounds && r.depth == t.depth
    decreases MAX_DEPTH - t.depth, 0, 0
  {
    var k := Home(t.bounds, p, 0);
    if k == 4 then t else Fork(t.bounds, t.depth, t.kids[k := Insert(t.kids[k], p)])
  }

  function Scatter(t: Tree, ps: seq<QuadPoint>): (r: Tree)
    requires Shaped(t) && t.Fork?
    ensures Shaped(r) && r.Fork? && r.bounds == t.bounds && r.depth == t.depth
    decreases MAX_DEPTH - t.depth, 1, |ps|
  {
    if ps == [] then t else var n := |ps| - 1; InsertBelow(Scatter(t, ps[..n]), ps[n])
  }

  function InsertAll(t: Tree, ps: seq<QuadPoint>): (r: Tree)
    requires Shaped(t)
    ensures Shaped(r) && r.bounds == t.bounds && r.depth == t.depth
  {
    if ps == [] then t else var n := |ps| - 1; Insert(InsertAll(t, ps[..n]), ps[n])
  }

  /** The leaf test is closed. */
  function Covered(r: Bounds, ps: seq<QuadPoint>): seq<QuadPoint> {
    if ps == [] then [] else var n := |ps| - 1; Covered(r, ps[..n]) + (if Covers(r, ps[n]) then [ps[n]] else [])
  }

  function Query(t: Tree, r: Bounds): seq<QuadPoint>
    requires Shaped(t)
    decreases t, 5
  {
    if !Intersects(t.bounds, r) then []
    else if t.Leaf? then Covered(r, t.points)
    else QueryKids(t, r, 4)
  }

  function QueryKids(t: Tree, r: Bounds, k: nat): seq<QuadPoint>
    requires Shaped(t) && t.Fork? && k <= 4
    decreases t, k
  {
    if k == 0 then [] else QueryKids(t, r, k - 1) + Query(t.kids[k - 1], r)
  }

  // ----- what is stored -----

  function Stored(t: Tree): multiset<QuadPoint>
    requires Shaped(t)
  {
    if t.Leaf? then multiset(t.points)
      else Stored(t.kids[0]) + Stored(t.kids[1]) + Stored(t.kids[2]) + Stored(t.kids[3])
  }

  /** Every stored point lies in its leaf. */
  predicate Placed(t: Tree)
    requires Shaped(t)
  {
    if t.Leaf? then forall p :: p in t.points ==> Contains(t.bounds, p)
    else forall k :: 0 <= k < 4 ==> Placed(t.kids[k])
  }

  lemma EmptyForkStores(b: Bounds, depth: nat)
    requires depth < MAX_DEPTH
    ensures var t := Fork(b, depth, EmptyKids(b, depth + 1)); Shaped(t) && Placed(t) && Stored(t) == multiset{}
  {
    EmptyForkShaped(b, depth);
  }

  /** An insertion stores exactly its point, if that lies within the bounds, through all splits. */
  lemma {:induction false} InsertStores(t: Tree, p: QuadPoint)
    requires Shaped(t) && Placed(t)
    ensures Placed(Insert(t, p)) &&
      Stored(Insert(t, p)) == Stored(t) + (if Contains(t.bounds, p) then multiset{p} else multiset{})
    decreases MAX_DEPTH - t.depth, 2, 0
  {
    if Contains(t.bounds, p) {
      if t.Fork? {
        InsertBelowStores(t, p);
      } else {
        LeafInsertStores(t, p);
      }
    }
  }

  lemma {:induction false} LeafInsertStores(t: Tree, p: QuadPoint)
    requires Shaped(t) && t.Leaf? && Placed(t) && Contains(t.bounds, p)
    ensures Placed(Insert(t, p)) && Stored(Insert(t, p)) == Stored(t) + multiset{p}
    decreases MAX_DEPTH - t.depth, 1, |t.points| + 2
  {
    var points := t.points + [p];
    AllInside(t.bounds, t.points, p);
    if |points| > MAX_POINTS_PER_NODE && t.depth < MAX_DEPTH {
      EmptyForkStores(t.bounds, t.depth);
      var fork := Fork(t.bounds, t.depth, EmptyKids(t.bounds, t.depth + 1));
      ScatterStores(fork, points);
      assert Insert(t, p) == Scatter(fork, points);
    } else {
      assert Insert(t, p) == Leaf(t.bounds, t.depth, points);
    }
  }

  lemma AllInside(b: Bounds, ps: seq<QuadPoint>, p: QuadPoint)
    requires Contains(b, p) && forall q :: q in ps ==> Contains(b, q)
    ensures (forall q :: q in ps + [p] ==> Contains(b, q)) && multiset(ps + [p]) == multiset(ps) + multiset{p}
  {}

  lemma {:induction false} InsertBelowStores(t: Tree, p: QuadPoint)
    requires Shaped(t) && t.Fork? && Placed(t) && Contains(t.bounds, p)
    ensures Placed(InsertBelow(t, p)) && Stored(InsertBelow(t, p)) == Stored(t) + multiset{p}
    decreases MAX_DEPTH - t.depth, 0, 0
  {
    QuadrantsPartition(t.bounds, p);
    var k := Home(t.bounds, p, 0);
    assert IsKid(t, k);
    InsertStores(t.kids[k], p);
    KidReplaced(t, k, Insert(t.kids[k], p), p);
  }

  lemma KidReplaced(t: Tree, k: nat, kid: Tree, p: QuadPoint)
    requires Shaped(t) && t.Fork? && k < 4 && Shaped(kid) && kid.bounds == t.kids[k].bounds &&
      kid.depth == t.kids[k].depth
    requires Placed(t) && Placed(kid) && Stored(kid) == Stored(t.kids[k]) + multiset{p}
    ensures var r := Fork(t.bounds, t.depth, t.kids[k := kid]);
      Shaped(r) && Placed(r) && Stored(r) == Stored(t) + multiset{p}
  {
    var r := Fork(t.bounds, t.depth, t.kids[k := kid]);
    forall j | 0 <= j < 4 ensures IsKid(r, j) && Shaped(r.kids[j]) && Placed(r.kids[j]) { assert IsKid(t, j); }
    assert forall j :: 0 <= j < 4 && j != k ==> r.kids[j] == t.kids[j];
    StoredOfKids(t);
    StoredOfKids(r);
  }

  lemma StoredOfKids(t: Tree)
    requires Shaped(t) && t.Fork?
    ensures Stored(t) == Stored(t.kids[0]) + Stored(t.kids[1]) + Stored(t.kids[2]) + Stored(t.kids[3])
  {}

  lemma {:induction false} ScatterStores(t: Tree, ps: seq<QuadPoint>)
    requires Shaped(t) && t.Fork? && Placed(t) && forall p :: p in ps ==> Contains(t.bounds, p)
    ensures Placed(Scatter(t, ps)) && Stored(Scatter(t, ps)) == Stored(t) + multiset(ps)
    decreases MAX_DEPTH - t.depth, 1, |ps|
  {
    if ps != [] {
      var n := |ps| - 1;
      assert ps == ps[..n] + [ps[n]];
      ScatterStores(t, ps[..n]);
      InsertBelowStores(Scatter(t, ps[..n]), ps[n]);
    }
  }

  function Inside(b: Bounds, ps: seq<QuadPoint>): multiset<QuadPoint> {
    if ps == [] then multiset{} else var n := |ps| - 1;
      Inside(b, ps[..n]) + (if Contains(b, ps[n]) then multiset{ps[n]} else multiset{})
  }

  /** A tree built from any points stores exactly those inside its bounds. */
  lemma {:induction false} BuildStores(b: Bounds, ps: seq<QuadPoint>)
    ensures Placed(InsertAll(Leaf(b, 0, []), ps)) && Stored(InsertAll(Leaf(b, 0, []), ps)) == Inside(b, ps)
  {
    if ps != [] {
      var n := |ps| - 1;
      BuildStores(b, ps[..n]);
      InsertStores(InsertAll(Leaf(b, 0, []), ps[..n]), ps[n]);
    }
  }

  // ----- range queries against a linear scan -----

  /** Nothing but stored points of the closed range, none too often, and every stored point of the half-open range. */
  predicate Answers(found: multiset<QuadPoint>, stored: multiset<QuadPoint>, r: Bounds) {
    found <= stored && (forall p :: p in found ==> Covers(r, p)) &&
      forall p :: p in stored && Contains(r, p) ==> found[p] == stored[p]
  }

  lemma {:induction false} CoveredAnswers(r: Bounds, ps: seq<QuadPoint>)
    ensures Answers(multiset(Covered(r, ps)), multiset(ps), r)
  {
    if ps != [] {
      var n := |ps| - 1;
      var found := if Covers(r, ps[n]) then [ps[n]] else [];
      assert ps == ps[..n] + [ps[n]] && Covered(r, ps) == Covered(r, ps[..n]) + found;
      CoveredAnswers(r, ps[..n]);
      AnswersTogether(multiset(Covered(r, ps[..n])), multiset(ps[..n]), multiset(found), multiset([ps[n]]), r);
    }
  }

  lemma {:induction false} PlacedInside(t: Tree, p: QuadPoint)
    requires Shaped(t) && Placed(t) && p in Stored(t)
    ensures Contains(t.bounds, p)
  {
    if t.Fork? {
      var k :| 0 <= k < 4 && p in Stored(t.kids[k]);
      PlacedInside(t.kids[k], p);
      QuadrantsPartition(t.bounds, p);
    }
  }

  lemma AnswersTogether(f: multiset<QuadPoint>, s: multiset<QuadPoint>, g: multiset<QuadPoint>, u: multiset<QuadPoint>,
      r: Bounds)
    requires Answers(f, s, r) && Answers(g, u, r)
    ensures Answers(f + g, s + u, r)
  {
    forall p | p in s + u && Contains(r, p) ensures (f + g)[p] == (s + u)[p] {
      assert f[p] == s[p] && g[p] == u[p];
    }
  }

  /** The tree agrees with a linear scan, but for points on the range's own right and bottom edges. */
  lemma {:induction false} QueryAnswers(t: Tree, r: Bounds)
    requires Shaped(t) && Placed(t)
    ensures Answers(multiset(Query(t, r)), Stored(t), r)
    decreases t
  {
    if !Intersects(t.bounds, r) {
      forall p | p in Stored(t) ensures !Contains(r, p) { PlacedInside(t, p); }
    } else if t.Leaf? {
      CoveredAnswers(r, t.points);
    } else {
      var q0, q1, q2, q3 := Query(t.kids[0], r), Query(t.kids[1], r), Query(t.kids[2], r), Query(t.kids[3], r);
      QueryAnswers(t.kids[0], r);
      QueryAnswers(t.kids[1], r);
      QueryAnswers(t.kids[2], r);
      QueryAnswers(t.kids[3], r);
      AnswersTogether(multiset(q0), Stored(t.kids[0]), multiset(q1), Stored(t.kids[1]), r);
      AnswersTogether(multiset(q0) + multiset(q1), Stored(t.kids[0]) + Stored(t.kids[1]), multiset(q2),
        Stored(t.kids[2]), r);
      AnswersTogether(multiset(q0) + multiset(q1) + multiset(q2),
        Stored(t.kids[0]) + Stored(t.kids[1]) + Stored(t.kids[2]),
                      multiset(q3), Stored(t.kids[3]), r);
      KidsInOrder(t, r);
      assert multiset(Query(t, r)) == multiset(q0) + multiset(q1) + multiset(q2) + multiset(q3);
    }
  }

  lemma KidsInOrder(t: Tree, r: Bounds)
    requires Shaped(t) && t.Fork?
    ensures QueryKids(t, r, 4) == Query(t.kids[0], r) + Query(t.kids[1], r) + Query(t.kids[2], r) + Query(t.kids[3], r)
  {
    assert QueryKids(t, r, 1) == [] + Query(t.kids[0], r) == Query(t.kids[0], r);
    assert QueryKids(t, r, 2) == QueryKids(t, r, 1) + Query(t.kids[1], r);
    assert QueryKids(t, r, 3) == QueryKids(t, r, 2) + Query(t.kids[2], r);
  }

  // ----- when a node is split, and what that means for points on the range's right and bottom edges -----

  /** A region is split exactly when it holds more points than a node may, unless it is at the maximum depth. */
  predicate Balanced(t: Tree)
    requires Shaped(t)
    decreases t, 1
  {
    if t.Leaf? then |t.points| <= 8 || t.depth == 12 else |Stored(t)| > 8 && KidsBalanced(t)
  }

  predicate KidsBalanced(t: Tree)
    requires Shaped(t) && t.Fork?
    decreases t, 0
  {
    forall k :: 0 <= k < 4 ==> Balanced(t.kids[k])
  }

  lemma {:induction false} InsertBalanced(t: Tree, p: QuadPoint)
    requires Shaped(t) && Placed(t) && Balanced(t)
    ensures Balanced(Insert(t, p))
    decreases MAX_DEPTH - t.depth, 2, 0
  {
    if Contains(t.bounds, p) {
      if t.Fork? {
        InsertBelowBalanced(t, p);
        InsertBelowStores(t, p);
      } else {
        LeafInsertBalanced(t, p);
      }
    }
  }

  lemma {:induction false} LeafInsertBalanced(t: Tree, p: QuadPoint)
    requires Shaped(t) && t.Leaf? && Placed(t) && Balanced(t) && Contains(t.bounds, p)
    ensures Balanced(Insert(t, p))
    decreases MAX_DEPTH - t.depth, 1, |t.points| + 3
  {
    var points := t.points + [p];
    AllInside(t.bounds, t.points, p);
    if |points| > MAX_POINTS_PER_NODE && t.depth < MAX_DEPTH {
      SplitBalanced(t.bounds, t.depth, points);
      assert Insert(t, p) == Scatter(Fork(t.bounds, t.depth, EmptyKids(t.bounds, t.depth + 1)), points);
    } else {
      assert Insert(t, p) == Leaf(t.bounds, t.depth, points);
    }
  }

  lemma {:induction false} SplitBalanced(b: Bounds, depth: nat, points: seq<QuadPoint>)
    requires depth < MAX_DEPTH && |points| > MAX_POINTS_PER_NODE && forall p :: p in points ==> Contains(b, p)
    ensures Shaped(Fork(b, depth, EmptyKids(b, depth + 1))) &&
      Balanced(Scatter(Fork(b, depth, EmptyKids(b, depth + 1)), points))
    decreases MAX_DEPTH - depth, 1, |points| + 1
  {
    var fork := Fork(b, depth, EmptyKids(b, depth + 1));
    EmptyForkStores(b, depth);
    EmptyForkBalanced(b, depth);
    ScatterStores(fork, points);
    ScatterBalanced(fork, points);
    assert |Stored(Scatter(fork, points))| == |multiset(points)|;
  }

  lemma EmptyForkBalanced(b: Bounds, depth: nat)
    requires depth < MAX_DEPTH
    ensures var t := Fork(b, depth, EmptyKids(b, depth + 1)); Shaped(t) && KidsBalanced(t)
  {
    EmptyForkShaped(b, depth);
  }

  lemma {:induction false} InsertBelowBalanced(t: Tree, p: QuadPoint)
    requires Shaped(t) && t.Fork? && Placed(t) && KidsBalanced(t)
    ensures KidsBalanced(InsertBelow(t, p))
    decreases MAX_DEPTH - t.depth, 0, 0
  {
    var k := Home(t.bounds, p, 0);
    if k < 4 {
      assert IsKid(t, k);
      InsertBalanced(t.kids[k], p);
    }
  }

  lemma {:induction false} ScatterBalanced(t: Tree, ps: seq<QuadPoint>)
    requires Shaped(t) && t.Fork? && Placed(t) && KidsBalanced(t) && forall p :: p in ps ==> Contains(t.bounds, p)
    ensures KidsBalanced(Scatter(t, ps))
    decreases MAX_DEPTH - t.depth, 1, |ps|
  {
    if ps != [] {
      var n := |ps| - 1;
      ScatterBalanced(t, ps[..n]);
      ScatterStores(t, ps[..n]);
      InsertBelowBalanced(Scatter(t, ps[..n]), ps[n]);
    }
  }

  function Built(b: Bounds, ps: seq<QuadPoint>): (t: Tree)
    ensures Shaped(t) && t.bounds == b && t.depth == 0
  {
    InsertAll(Leaf(b, 0, []), ps)
  }

  lemma {:induction false} BuiltBalanced(b: Bounds, ps: seq<QuadPoint>)
    ensures Balanced(Built(b, ps))
  {
    if ps != [] {
      var n := |ps| - 1;
      BuiltBalanced(b, ps[..n]);
      BuildStores(b, ps[..n]);
      InsertBalanced(Built(b, ps[..n]), ps[n]);
    }
  }

  // ----- exactly which stored points a query returns -----

  /** The rectangle of the leaf a point falls into. */
  function LeafBounds(t: Tree, p: QuadPoint): (b: Bounds)
    requires Shaped(t) && Contains(t.bounds, p)
    ensures Contains(b, p) && t.bounds.x <= b.x && t.bounds.y <= b.y
    ensures b.x + b.w <= t.bounds.x + t.bounds.w && b.y + b.h <= t.bounds.y + t.bounds.h
  {
    if t.Leaf? then t.bounds
    else
      QuadrantsPartition(t.bounds, p);
      assert IsKid(t, Home(t.bounds, p, 0));
      LeafBounds(t.kids[Home(t.bounds, p, 0)], p)
  }

  lemma {:induction false} CoveredCount(r: Bounds, ps: seq<QuadPoint>, p: QuadPoint)
    ensures multiset(Covered(r, ps))[p] == if Covers(r, p) then multiset(ps)[p] else 0
  {
    if ps != [] {
      var n := |ps| - 1;
      assert ps == ps[..n] + [ps[n]];
      CoveredCount(r, ps[..n], p);
    }
  }

  /** A kid stores what its parent stores of the kid's quadrant. */
  lemma KidStores(t: Tree, k: nat, p: QuadPoint)
    requires Shaped(t) && t.Fork? && Placed(t) && k < 4
    ensures Stored(t.kids[k])[p] == if Contains(Quadrant(t.bounds, k), p) then Stored(t)[p] else 0
  {
    forall j | 0 <= j < 4 && p in Stored(t.kids[j]) ensures Contains(Quadrant(t.bounds, j), p) {
      assert IsKid(t, j);
      PlacedInside(t.kids[j], p);
    }
    QuadrantsPartition(t.bounds, p);
    StoredOfKids(t);
  }

  lemma QueryOfKids(t: Tree, r: Bounds, p: QuadPoint)
    requires Shaped(t) && t.Fork? && Intersects(t.bounds, r)
    ensures multiset(Query(t, r))[p] ==
      multiset(Query(t.kids[0], r))[p] + multiset(Query(t.kids[1], r))[p] + multiset(Query(t.kids[2], r))[p] +
        multiset(Query(t.kids[3], r))[p]
  {
    KidsInOrder(t, r);
  }

  lemma Returned(t: Tree, r: Bounds, p: QuadPoint)
    requires Shaped(t) && Placed(t) && p in Query(t, r)
    ensures p in Stored(t) && Covers(r, p) && Contains(t.bounds, p)
  {
    QueryAnswers(t, r);
    assert p in multiset(Query(t, r));
    PlacedInside(t, p);
  }

  /**
   A stored point comes back, as often as it is stored, exactly when it lies in the closed range and the rectangle of
   its leaf meets the range's interior; other points never do.
   */
  lemma {:induction false} QueryExactly(t: Tree, r: Bounds, p: QuadPoint)
    requires Shaped(t) && Placed(t) && Contains(t.bounds, p)
    ensures multiset(Query(t, r))[p] == if Covers(r, p) && Intersects(LeafBounds(t, p), r) then Stored(t)[p] else 0
    decreases t
  {
    if !Intersects(t.bounds, r) {
    } else if t.Leaf? {
      CoveredCount(r, t.points, p);
    } else {
      QuadrantsPartition(t.bounds, p);
      var h := Home(t.bounds, p, 0);
      assert IsKid(t, h);
      QueryExactly(t.kids[h], r, p);
      forall k | 0 <= k < 4 && k != h ensures multiset(Query(t.kids[k], r))[p] == 0 {
        assert IsKid(t, k);
        if p in Query(t.kids[k], r) { Returned(t.kids[k], r, p); }
      }
      KidStores(t, h, p);
      QueryOfKids(t, r, p);
    }
  }

  /** In coordinates: a built tree's answers, the range closed, rectangles of leaves half-open. */
  lemma QueryInCoordinates(b: Bounds, ps: seq<QuadPoint>, r: Bounds, p: QuadPoint)
    requires b.x <= p.x < b.x + b.w && b.y <= p.y < b.y + b.h
    ensures Contains(b, p)
    ensures var leaf := LeafBounds(Built(b, ps), p);
      && leaf.x <= p.x < leaf.x + leaf.w && leaf.y <= p.y < leaf.y + leaf.h
      && multiset(Query(Built(b, ps), r))[p] ==
           if r.x <= p.x <= r.x + r.w && r.y <= p.y <= r.y + r.h && leaf.x < r.x + r.w && r.x < leaf.x + leaf.w &&
             leaf.y < r.y + r.h && r.y < leaf.y + leaf.h
           then multiset(ps)[p] else 0
  {
    BuildStores(b, ps);
    InsideCount(b, ps, p);
    QueryExactly(Built(b, ps), r, p);
  }

  /** With no stored point on the range's right or bottom edge, the query is the linear scan. */
  lemma OffEdgesIsScan(t: Tree, r: Bounds, p: QuadPoint)
    requires Shaped(t) && Placed(t) &&
      forall q :: q in Stored(t) && Covers(r, q) ==> q.x != r.x + r.w && q.y != r.y + r.h
    ensures multiset(Query(t, r))[p] == if Contains(r, p) then Stored(t)[p] else 0
  {
    QueryAnswers(t, r);
  }

  /**
   Trees over one rectangle that store the same points answer alike, edges included: how they were built does not
   matter.
   */
  lemma {:induction false} SameStoredSameAnswer(t: Tree, u: Tree, r: Bounds, p: QuadPoint)
    requires Shaped(t) && Placed(t) && Balanced(t) && Shaped(u) && Placed(u) && Balanced(u)
    requires t.bounds == u.bounds && t.depth == u.depth && Stored(t) == Stored(u)
    ensures multiset(Query(t, r))[p] == multiset(Query(u, r))[p]
    decreases t
  {
    if !Intersects(t.bounds, r) {
    } else if t.Leaf? {
      SplitAlike(t, u);
      CoveredCount(r, t.points, p);
      CoveredCount(r, u.points, p);
    } else {
      SplitAlike(u, t);
      forall k | 0 <= k < 4 ensures multiset(Query(t.kids[k], r))[p] == multiset(Query(u.kids[k], r))[p] {
        assert IsKid(t, k) && IsKid(u, k);
        forall q: QuadPoint ensures Stored(t.kids[k])[q] == Stored(u.kids[k])[q] {
          KidStores(t, k, q);
          KidStores(u, k, q);
        }
        SameStoredSameAnswer(t.kids[k], u.kids[k], r, p);
      }
      QueryOfKids(t, r, p);
      QueryOfKids(u, r, p);
    }
  }

  lemma SplitAlike(t: Tree, u: Tree)
    requires Shaped(t) && Balanced(t) && Shaped(u) && Balanced(u) && t.depth == u.depth && Stored(t) == Stored(u)
    ensures t.Leaf? ==> u.Leaf?
  {
    if t.Leaf? { assert |Stored(t)| == |multiset(t.points)|; }
  }

  lemma {:induction false} InsideCount(b: Bounds, ps: seq<QuadPoint>, p: QuadPoint)
    ensures Inside(b, ps)[p] == if Contains(b, p) then multiset(ps)[p] else 0
  {
    if ps != [] {
      var n := |ps| - 1;
      assert ps == ps[..n] + [ps[n]];
      InsideCount(b, ps[..n], p);
    }
  }

  /** The order of insertion never changes an answer, edges included. */
  lemma InsertionOrderIrrelevant(b: Bounds, ps: seq<QuadPoint>, qs: seq<QuadPoint>, r: Bounds)
    requires multiset(ps) == multiset(qs)
    ensures multiset(Query(Built(b, ps), r)) == multiset(Query(Built(b, qs), r))
  {
    var t, u := Built(b, ps), Built(b, qs);
    BuildStores(b, ps);
    BuildStores(b, qs);
    BuiltBalanced(b, ps);
    BuiltBalanced(b, qs);
    forall p ensures Stored(t)[p] == Stored(u)[p] {
      InsideCount(b, ps, p);
      InsideCount(b, qs, p);
    }
    forall p ensures multiset(Query(t, r))[p] == multiset(Query(u, r))[p] { SameStoredSameAnswer(t, u, r, p); }
  }

  lemma {:induction false} AllStored(b: Bounds, ps: seq<QuadPoint>)
    requires forall p :: p in ps ==> Contains(b, p)
    ensures Inside(b, ps) == multiset(ps)
  {
    if ps != [] {
      var n := |ps| - 1;
      assert ps == ps[..n] + [ps[n]];
      AllStored(b, ps[..n]);
    }
  }

  /** A whole tree is split once it holds more than a node may. */
  lemma BuiltSplits(b: Bounds, ps: seq<QuadPoint>)
    requires forall p :: p in ps ==> Contains(b, p)
    ensures Placed(Built(b, ps)) && Stored(Built(b, ps)) == multiset(ps)
    ensures Built(b, ps).Fork? <==> |ps| > 8
  {
    BuildStores(b, ps);
    BuiltBalanced(b, ps);
    AllStored(b, ps);
    assert |multiset(ps)| == |ps|;
    var t := Built(b, ps);
    if t.Leaf? { assert |Stored(t)| == |multiset(t.points)|; }
  }

  /** Other points do matter: eight more make an edge point's leaf one that only touches the range. */
  lemma OtherPointsChangeEdgeAnswers() returns (b: Bounds, r: Bounds, p: QuadPoint, others: seq<QuadPoint>)
    ensures Contains(b, p) && Covers(r, p) && p !in others && forall q :: q in others ==> Contains(b, q)
    ensures p in Query(Built(b, [p]), r) && p !in Query(Built(b, [p] + others), r)
  {
    b, r, p := Bounds(0.0, 0.0, 8.0, 8.0), Bounds(0.0, 0.0, 4.0, 4.0), QuadPoint("p", 4.0, 1.0);
    others := seq(8, i requires 0 <= i < 8 => QuadPoint(["abcdefgh"[i]], 1.0, 1.0));
    var t, u := Built(b, [p]), Built(b, [p] + others);
    BuiltSplits(b, [p]);
    BuiltSplits(b, [p] + others);
    QueryExactly(t, r, p);
    assert p in multiset(Query(t, r));
    QuadrantsPartition(b, p);
    assert Home(b, p, 0) == 1 && IsKid(u, 1);
    QueryExactly(u, r, p);
    assert p !in multiset(Query(u, r));
  }

  // ----- nearest -----

  function DistSq(p: QuadPoint, x: real, y: real): real { (p.x - x) * (p.x - x) + (p.y - y) * (p.y - y) }

  function Square(x: real, y: real, radius: real): Bounds { Bounds(x - radius, y - radius, radius * 2.0, radius * 2.0) }

  datatype Best = Best(found: Option<QuadPoint>, distSq: real)

  /** The scan over the candidates: a point as near as the best so far replaces it. */
  function Nearer(best: Best, p: QuadPoint, x: real, y: real): Best {
    if DistSq(p, x, y) <= best.distSq then Best(Some(p), DistSq(p, x, y)) else best
  }

  function Scan(ps: seq<QuadPoint>, x: real, y: real, limit: real): Best {
    if ps == [] then Best(None, limit) else var n := |ps| - 1; Nearer(Scan(ps[..n], x, y, limit), ps[n], x, y)
  }

  function NearestIn(t: Tree, x: real, y: real, radius: real): Option<QuadPoint>
    requires Shaped(t)
  {
    Scan(Query(t, Square(x, y, radius)), x, y, radius * radius).found
  }

  lemma {:induction false} ScanFindsLeast(ps: seq<QuadPoint>, x: real, y: real, limit: real)
    ensures var best := Scan(ps, x, y, limit);
      best.distSq <= limit && (forall p :: p in ps ==> best.distSq <= DistSq(p, x, y) || limit < DistSq(p, x, y)) &&
      (best.found.Some? ==> best.found.value in ps && DistSq(best.found.value, x, y) == best.distSq) &&
      (best.found.None? ==> best.distSq == limit && forall p :: p in ps ==> limit < DistSq(p, x, y))
  {
    if ps != [] {
      var n := |ps| - 1;
      assert ps == ps[..n] + [ps[n]];
      ScanFindsLeast(ps[..n], x, y, limit);
    }
  }

  /** The scan's result, as an index: the last of the nearest candidates within the limit. */
  lemma {:induction false} ScanExactly(ps: seq<QuadPoint>, x: real, y: real, limit: real)
    ensures var best := Scan(ps, x, y, limit);
      && (best.found.None? <==> forall i :: 0 <= i < |ps| ==> limit < DistSq(ps[i], x, y))
      && (best.found.Some? ==> exists i :: LastNearest(ps, x, y, limit, i) && ps[i] == best.found.value)
  {
    if ps != [] {
      var n := |ps| - 1;
      ScanExactly(ps[..n], x, y, limit);
      ScanFindsLeast(ps[..n], x, y, limit);
      var before := Scan(ps[..n], x, y, limit);
      if DistSq(ps[n], x, y) <= before.distSq {
        forall j | 0 <= j < n ensures DistSq(ps[n], x, y) <= DistSq(ps[j], x, y) { assert ps[j] in ps[..n]; }
        assert LastNearest(ps, x, y, limit, n);
      } else if before.found.Some? {
        var i :| LastNearest(ps[..n], x, y, limit, i) && ps[..n][i] == before.found.value;
        assert forall j :: 0 <= j < n ==> ps[..n][j] == ps[j];
        assert LastNearest(ps, x, y, limit, i);
      }
    }
  }

  predicate LastNearest(ps: seq<QuadPoint>, x: real, y: real, limit: real, i: int) {
    0 <= i < |ps| && DistSq(ps[i], x, y) <= limit &&
    (forall j :: 0 <= j < |ps| ==> DistSq(ps[i], x, y) <= DistSq(ps[j], x, y)) &&
    forall j :: i < j < |ps| ==> DistSq(ps[i], x, y) < DistSq(ps[j], x, y)
  }

  /**
   Among the points the tree finds in the square of twice the radius, `nearest` takes the last of the closest within
   the radius, and nothing exactly when there is none.
   */
  lemma NearestExactly(t: Tree, x: real, y: real, radius: real)
    requires Shaped(t)
    ensures var ps, found :=
        Query(t, Bounds(x - radius, y - radius, radius * 2.0, radius * 2.0)), NearestIn(t, x, y, radius);
      && (found.None? <==> forall i :: 0 <= i < |ps| ==> radius * radius < DistSq(ps[i], x, y))
      && (found.Some? ==> exists i :: LastNearest(ps, x, y, radius * radius, i) && ps[i] == found.value)
  {
    ScanExactly(Query(t, Square(x, y, radius)), x, y, radius * radius);
  }

  lemma SquareGrows(d: real, r: real)
    requires r > 0.0
    ensures d >= r ==> d * d >= r * r
  {
    if d >= r { assert d * d >= r * d && r * d >= r * r; }
  }

  lemma SquareBound(d: real, r: real)
    requires r > 0.0 && d * d < r * r
    ensures -r < d < r
  {
    SquareGrows(d, r);
    SquareGrows(-d, r);
    assert (-d) * (-d) == d * d;
  }

  lemma WithinSquare(p: QuadPoint, x: real, y: real, radius: real)
    requires radius > 0.0 && DistSq(p, x, y) < radius * radius
    ensures Contains(Square(x, y, radius), p)
  {
    var dx, dy := p.x - x, p.y - y;
    assert dx * dx >= 0.0 && dy * dy >= 0.0;
    SquareBound(dx, radius);
    SquareBound(dy, radius);
  }

  /** Whenever some stored point is strictly within the radius, a closest stored point is returned. */
  lemma NearestIsClosest(t: Tree, x: real, y: real, radius: real)
    requires Shaped(t) && Placed(t)
    ensures var found := NearestIn(t, x, y, radius);
      (found.Some? ==> found.value in Stored(t) && DistSq(found.value, x, y) <= radius * radius) &&
      (radius > 0.0 && (exists q :: q in Stored(t) && DistSq(q, x, y) < radius * radius) ==>
        found.Some? && forall q :: q in Stored(t) ==> DistSq(found.value, x, y) <= DistSq(q, x, y))
  {
    var r, limit := Square(x, y, radius), radius * radius;
    var ps := Query(t, r);
    QueryAnswers(t, r);
    ScanFindsLeast(ps, x, y, limit);
    if found :| found in ps { assert found in multiset(ps); }
    forall p | p in ps ensures p in Stored(t) { assert p in multiset(ps); }
    if radius > 0.0 {
      forall q | q in Stored(t) && DistSq(q, x, y) < limit ensures q in ps {
        WithinSquare(q, x, y, radius);
        assert q in multiset(ps);
      }
    }
  }
}
