/** The quadtree as the canvas mutates it: nodes with children, refining the tree values of module Quadtree. */
module QuadIndex {
  import opened Common
  import Q = Quadtree

  class QuadNode {
    const bounds: Q.Bounds
    const depth: nat
    var points: seq<Q.QuadPoint>
    var children: seq<QuadNode>
    ghost var tree: Q.Tree
    ghost var Repr: set<object>

    /** `tree` is the node's value; `Repr` its nodes, those of different children disjoint. */
    ghost predicate Valid()
      reads this, Repr
      decreases Repr, 2
    {
      this in Repr && Q.Shaped(tree) && tree.bounds == bounds && tree.depth == depth &&
      (if children == [] then tree == Q.Leaf(bounds, depth, points)
       else tree.Fork? && |children| == 4 && ChildrenValid())
    }

    ghost predicate ChildrenValid()
      requires this in Repr && tree.Fork? && |tree.kids| == 4 && |children| == 4
      reads this, Repr
      decreases Repr, 1
    {
      (forall k :: 0 <= k < 4 ==>
        children[k] in Repr && children[k].Repr < Repr && this !in children[k].Repr && children[k].Valid() &&
          children[k].tree == tree.kids[k]) &&
      forall j, k :: 0 <= j < k < 4 ==> children[j].Repr !! children[k].Repr
    }

    constructor (bounds: Q.Bounds, depth: nat)
      requires depth <= Q.MAX_DEPTH
      ensures Valid() && fresh(Repr) && this.bounds == bounds && this.depth == depth &&
        tree == Q.Leaf(bounds, depth, [])
    {
      this.bounds, this.depth := bounds, depth;
      points, children := [], [];
      tree, Repr := Q.Leaf(bounds, depth, []), {this};
    }

    method Insert(p: Q.QuadPoint)
      requires Valid()
      modifies Repr
      ensures Valid() && fresh(Repr - old(Repr)) && tree == Q.Insert(old(tree), p)
      decreases Q.MAX_DEPTH - depth, 2
    {
      if !Q.Contains(bounds, p) { return; }
      if |children| > 0 {
        InsertIntoChildren(p);
        return;
      }
      points := points + [p];
      tree := Q.Leaf(bounds, depth, points);
      if |points| > Q.MAX_POINTS_PER_NODE && depth < Q.MAX_DEPTH {
        Subdivide();
      }
    }

    method InsertIntoChildren(p: Q.QuadPoint)
      requires Valid() && children != []
      modifies Repr
      ensures Valid() && fresh(Repr - old(Repr)) && children == old(children) && points == old(points)
      ensures tree == Q.InsertBelow(old(tree), p)
      decreases Q.MAX_DEPTH - depth, 0, 1
    {
      var k := 0;
      while k < 4 && !Q.Contains(children[k].bounds, p)
        invariant 0 <= k <= 4 && Q.Home(bounds, p, 0) == Q.Home(bounds, p, k)
        modifies {}
      {
        KidFacts(k);
        k := k + 1;
      }
      if k < 4 {
        KidFacts(k);
        InsertIntoChild(k, p);
      }
    }

    lemma KidFacts(k: nat)
      requires Valid() && children != [] && k < 4
      ensures children[k] in Repr && children[k].Repr < Repr && this !in children[k].Repr && children[k].Valid() &&
        children[k].tree == tree.kids[k]
      ensures children[k].depth == depth + 1 <= Q.MAX_DEPTH && children[k].bounds == Q.Quadrant(bounds, k)
    {
      assert Q.IsKid(tree, k);
    }

    method InsertIntoChild(k: nat, p: Q.QuadPoint)
      requires Valid() && children != [] && k < 4
      modifies Repr
      ensures Valid() && fresh(Repr - old(Repr)) && children == old(children) && points == old(points)
      ensures tree == Q.Fork(bounds, depth, old(tree).kids[k := Q.Insert(old(tree).kids[k], p)])
      decreases Q.MAX_DEPTH - depth, 0, 0
    {
      var c := children[k];
      KidFacts(k);
      assert forall j :: 0 <= j < 4 && j != k ==> children[j].Repr !! c.Repr && children[j].Valid();
      c.Insert(p);
      Adopt(k);
    }

    /** A grown child's subtree and value become part of this node's. */
    ghost method Adopt(k: nat)
      requires k < 4 && |children| == 4 && this in Repr && Q.Shaped(tree) && tree.bounds == bounds &&
        tree.depth == depth && tree.Fork?
      requires var c := children[k];
        c in Repr && c.Valid() && this !in c.Repr && c.bounds == tree.kids[k].bounds && c.depth == depth + 1
      requires forall j :: 0 <= j < 4 && j != k ==>
        children[j] in Repr && children[j].Repr < Repr && this !in children[j].Repr && children[j].Valid() &&
          children[j].tree == tree.kids[j]
      requires forall i, j :: 0 <= i < j < 4 ==> children[i].Repr !! children[j].Repr
      modifies this`tree, this`Repr
      ensures Valid() && Repr == old(Repr) + children[k].Repr
      ensures tree == Q.Fork(bounds, depth, old(tree).kids[k := children[k].tree])
    {
      tree := Q.Fork(bounds, depth, tree.kids[k := children[k].tree]);
      Repr := Repr + children[k].Repr;
      assert forall j :: 0 <= j < 4 ==> Q.IsKid(tree, j) && Q.Shaped(tree.kids[j]);
    }

    static method NewChildren(bounds: Q.Bounds, depth: nat) returns (cs: seq<QuadNode>)
      requires depth <= Q.MAX_DEPTH
      ensures |cs| == 4 && forall k :: 0 <= k < 4 ==> EmptyChild(cs[k], bounds, depth, k) && fresh(cs[k].Repr)
      ensures forall j, k :: 0 <= j < k < 4 ==> cs[j].Repr !! cs[k].Repr
    {
      var c0 := new QuadNode(Q.Quadrant(bounds, 0), depth);
      var c1 := new QuadNode(Q.Quadrant(bounds, 1), depth);
      var c2 := new QuadNode(Q.Quadrant(bounds, 2), depth);
      var c3 := new QuadNode(Q.Quadrant(bounds, 3), depth);
      return [c0, c1, c2, c3];
    }

    static ghost predicate EmptyChild(c: QuadNode, bounds: Q.Bounds, depth: nat, k: nat)
      reads c, c.Repr
    {
      c.Valid() && c.bounds == Q.Quadrant(bounds, k) && c.depth == depth &&
        c.tree == Q.Leaf(Q.Quadrant(bounds, k), depth, [])
    }

    /** Four empty children; the points stay where they are. */
    method MakeChildren()
      requires Valid() && children == [] && depth < Q.MAX_DEPTH
      modifies this
      ensures Valid() && fresh(Repr - {this}) && children != [] && points == old(points)
      ensures tree == Q.Fork(bounds, depth, Q.EmptyKids(bounds, depth + 1))
    {
      var cs := NewChildren(bounds, depth + 1);
      children := cs;
      AdoptAll();
    }

    ghost method AdoptAll()
      requires depth < Q.MAX_DEPTH && |children| == 4
      requires forall k :: 0 <= k < 4 ==> EmptyChild(children[k], bounds, depth + 1, k) && this !in children[k].Repr
      requires forall j, k :: 0 <= j < k < 4 ==> children[j].Repr !! children[k].Repr
      modifies this`tree, this`Repr
      ensures Valid() && tree == Q.Fork(bounds, depth, Q.EmptyKids(bounds, depth + 1))
      ensures Repr == {this} + children[0].Repr + children[1].Repr + children[2].Repr + children[3].Repr
    {
      Q.EmptyForkShaped(bounds, depth);
      tree := Q.Fork(bounds, depth, Q.EmptyKids(bounds, depth + 1));
      Repr := {this} + children[0].Repr + children[1].Repr + children[2].Repr + children[3].Repr;
      assert forall k :: 0 <= k < 4 ==> children[k].Repr <= Repr;
    }

    method Subdivide()
      requires Valid() && children == [] && depth < Q.MAX_DEPTH
      modifies Repr
      ensures Valid() && fresh(Repr - old(Repr))
      ensures tree == Q.Scatter(Q.Fork(bounds, depth, Q.EmptyKids(bounds, depth + 1)), old(points))
      decreases Q.MAX_DEPTH - depth, 1
    {
      MakeChildren();
      for i := 0 to |points|
        invariant Valid() && fresh(Repr - old(Repr)) && children != [] && points == old(points)
        invariant tree == Q.Scatter(Q.Fork(bounds, depth, Q.EmptyKids(bounds, depth + 1)), points[..i])
      {
        assert points[..i + 1][..i] == points[..i];
        InsertIntoChildren(points[i]);
      }
      assert points[..|points|] == points;
      points := [];
    }

    method QueryRange(r: Q.Bounds, out: seq<Q.QuadPoint>) returns (more: seq<Q.QuadPoint>)
      requires Valid()
      ensures more == out + Q.Query(tree, r)
      decreases Q.MAX_DEPTH - depth
    {
      more := out;
      if !Q.Intersects(bounds, r) { return; }
      if |children| > 0 {
        for k := 0 to 4
          invariant more == out + Q.QueryKids(tree, r, k)
        {
          KidFacts(k);
          more := children[k].QueryRange(r, more);
        }
        return;
      }
      for i := 0 to |points|
        invariant more == out + Q.Covered(r, points[..i])
      {
        var p := points[i];
        assert points[..i + 1][..i] == points[..i];
        if p.x >= r.x && p.x <= r.x + r.w && p.y >= r.y && p.y <= r.y + r.h {
          more := more + [p];
        }
      }
      assert points[..|points|] == points;
    }
  }

  class Quadtree {
    const root: QuadNode

    ghost predicate Valid()
      reads this, root, root.Repr
    {
      root.Valid() && root.depth == 0
    }

    constructor (bounds: Q.Bounds, points: seq<Q.QuadPoint>)
      ensures Valid() && fresh(root.Repr) && root.tree == Q.InsertAll(Q.Leaf(bounds, 0, []), points)
    {
      var node := new QuadNode(bounds, 0);
      root := node;
      new;
      for i := 0 to |points|
        invariant Valid() && fresh(root.Repr) && root.tree == Q.InsertAll(Q.Leaf(bounds, 0, []), points[..i])
      {
        assert points[..i + 1][..i] == points[..i];
        root.Insert(points[i]);
      }
      assert points[..|points|] == points;
    }

    method Nearest(x: real, y: real, radius: real) returns (best: Option<Q.QuadPoint>)
      requires Valid()
      ensures best == Q.NearestIn(root.tree, x, y, radius)
    {
      var candidates := root.QueryRange(Q.Bounds(x - radius, y - radius, radius * 2.0, radius * 2.0), []);
      assert candidates == Q.Query(root.tree, Q.Square(x, y, radius));
      best := None;
      var bestDistSq := radius * radius;
      for i := 0 to |candidates|
        invariant Q.Best(best, bestDistSq) == Q.Scan(candidates[..i], x, y, radius * radius)
      {
        var p := candidates[i];
        assert candidates[..i + 1][..i] == candidates[..i];
        var distSq := Q.DistSq(p, x, y);
        if distSq <= bestDistSq {
          best := Some(p);
          bestDistSq := distSq;
        }
      }
      assert candidates[..|candidates|] == candidates;
    }

    method InRange(r: Q.Bounds) returns (out: seq<Q.QuadPoint>)
      requires Valid()
      ensures out == Q.Query(root.tree, r)
    {
      out := root.QueryRange(r, []);
    }
  }
}
