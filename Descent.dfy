/** The greedy descent of `getNextTarget` (main.go:381-419): starting from the root, step to
    the last child whose score is at least the best score so far (which starts at 0), until
    a cluster without children is reached. */
module Descent {
  import opened Grid
  import opened Tree

  /** How a descent ends: at the position of a cluster without children, or stuck at a
      cluster none of whose children scores at least 0. The source then repeats the same
      iteration of its outer loop forever (main.go:389-413). */
  datatype Outcome = Reached(target: Point) | Stalled(at: Cluster)

  /** The running choice of the inner loop: the index (into the children) of the child taken
      so far, if any, and the best score. */
  datatype Pick = Pick(child: Option<nat>, best: real)

  /** The score of a child cluster seen from `pos` (main.go:393-400): its value per unit of
      Manhattan distance; the pac's own cell scores 0; a larger cluster centred on the pac
      scores its raw value. Exact rationals stand in for float64. */
  function Score(c: Cluster, pos: Point): (s: real)
    ensures s >= 0.0 <==> c.value >= 0 || (pos == c.position && c.size == 1)
    ensures s > 0.0 ==> c.value > 0
    ensures c.value >= 0 ==> s <= c.value as real
  {
    var d := Distance(pos, c.position);
    if d == 0 && c.size == 1 then 0.0
    else if d != 0 then c.value as real / d as real
    else c.value as real
  }

  /** The inner loop (main.go:392-411) after the first k children `cs`. */
  function Choose(nodes: seq<Cluster>, cs: seq<nat>, pos: Point, k: nat): (p: Pick)
    requires k <= |cs| && forall j :: 0 <= j < |cs| ==> cs[j] < |nodes|
    ensures p.best >= 0.0
    ensures p.child.None? ==> p.best == 0.0
    ensures p.child.Some? ==> p.child.value < k && p.best == Score(nodes[cs[p.child.value]], pos)
    ensures forall j :: 0 <= j < k ==> Score(nodes[cs[j]], pos) <= p.best
  {
    if k == 0 then Pick(None, 0.0)
    else
      var prev := Choose(nodes, cs, pos, k - 1);
      var s := Score(nodes[cs[k - 1]], pos);
      if s >= prev.best then Pick(Some(k - 1), s) else prev
  }

  /** Child i of the first k is the last of them with the highest score, and that score is
      not negative. */
  ghost predicate LastBest(nodes: seq<Cluster>, cs: seq<nat>, pos: Point, k: nat, i: nat)
    requires k <= |cs| && forall j :: 0 <= j < |cs| ==> cs[j] < |nodes|
  {
    i < k && Score(nodes[cs[i]], pos) >= 0.0 &&
    (forall j :: 0 <= j < k ==> Score(nodes[cs[j]], pos) <= Score(nodes[cs[i]], pos)) &&
    (forall j :: i < j < k ==> Score(nodes[cs[j]], pos) < Score(nodes[cs[i]], pos))
  }

  /** The running choice takes exactly the last best child. */
  lemma {:induction false} ChooseLastBest(nodes: seq<Cluster>, cs: seq<nat>, pos: Point, k: nat, i: nat)
    requires k <= |cs| && forall j :: 0 <= j < |cs| ==> cs[j] < |nodes|
    ensures Choose(nodes, cs, pos, k).child == Some(i) <==> LastBest(nodes, cs, pos, k, i)
  {
    if k > 0 {
      var prev := Choose(nodes, cs, pos, k - 1);
      var s := Score(nodes[cs[k - 1]], pos);
      ChooseLastBest(nodes, cs, pos, k - 1, i);
      if s >= prev.best {
      } else if prev.child.Some? {
      }
    }
  }

  /** The running choice takes no child exactly when every child scores below 0. */
  lemma {:induction false} ChooseNone(nodes: seq<Cluster>, cs: seq<nat>, pos: Point, k: nat)
    requires k <= |cs| && forall j :: 0 <= j < |cs| ==> cs[j] < |nodes|
    ensures Choose(nodes, cs, pos, k).child.None? <==>
      forall j :: 0 <= j < k ==> Score(nodes[cs[j]], pos) < 0.0
  {
    if k > 0 {
      ChooseNone(nodes, cs, pos, k - 1);
    }
  }

  /** The children of c are clusters of the arena, each with a parent and smaller than c. */
  ghost predicate Hung(nodes: seq<Cluster>, c: Cluster) {
    forall k :: 0 <= k < |c.children| ==>
      c.children[k] < |nodes| && nodes[c.children[k]].parent.Some? &&
      nodes[c.children[k]].size < c.size
  }

  /** Every cluster of a linked arena has its children hung below it. */
  lemma ChildHung(nodes: seq<Cluster>, n: nat, i: nat)
    requires Chained(nodes, n) && ChildLinks(nodes) && i < |nodes|
    ensures Hung(nodes, nodes[i])
  {
    forall k | 0 <= k < |nodes[i].children|
      ensures nodes[i].children[k] < |nodes| && nodes[nodes[i].children[k]].parent.Some? &&
        nodes[nodes[i].children[k]].size < nodes[i].size
    {
      var c := nodes[i].children[k];
      assert nodes[c].parent == Some(i);
    }
  }

  /** Where the descent from c ends (main.go:389-418). A descent that stalls stops at a
      cluster below c, or c itself, with children that all score below 0. */
  function Descend(nodes: seq<Cluster>, n: nat, c: Cluster, pos: Point): (o: Outcome)
    requires Chained(nodes, n) && ChildLinks(nodes) && Hung(nodes, c)
    ensures o.Stalled? ==>
      o.at.children != [] && o.at.size <= c.size &&
      forall j :: 0 <= j < |o.at.children| ==>
        o.at.children[j] < |nodes| && Score(nodes[o.at.children[j]], pos) < 0.0
    decreases c.size
  {
    if c.children == [] then Reached(c.position)
    else
      ChooseNone(nodes, c.children, pos, |c.children|);
      match Choose(nodes, c.children, pos, |c.children|).child
      case None => Stalled(c)
      case Some(k) =>
        ChildHung(nodes, n, c.children[k]);
        Descend(nodes, n, nodes[c.children[k]], pos)
  }

  /** A descent that takes at least one step ends at a leaf: the cell of one of the n
      leaves. */
  lemma {:induction false} DescendLeaf(nodes: seq<Cluster>, n: nat, c: Cluster, pos: Point) returns (i: nat)
    requires Chained(nodes, n) && ChildLinks(nodes) && Rooted(nodes, n)
    requires Hung(nodes, c) && c.children != []
    ensures Descend(nodes, n, c, pos).Reached? ==>
      i < n && nodes[i].position == Descend(nodes, n, c, pos).target && nodes[i].children == []
    decreases c.size
  {
    i := 0;
    var p := Choose(nodes, c.children, pos, |c.children|);
    if p.child.Some? {
      var k := p.child.value;
      i := c.children[k];
      ChildHung(nodes, n, i);
      if nodes[i].children != [] {
        i := DescendLeaf(nodes, n, nodes[i], pos);
      } else {
        assert nodes[i].parent.Some?;
      }
    }
  }

  /** `getNextTarget`'s two loops (main.go:389-413) on an arena that stays unchanged while
      they run. The loops keep the scored child itself in `next`; `picked` records whether
      the inner loop took any child, which is when the source makes progress. */
  method Greedy(nodes: seq<Cluster>, n: nat, top: Cluster, pos: Point) returns (o: Outcome)
    requires Chained(nodes, n) && ChildLinks(nodes) && Hung(nodes, top)
    ensures o == Descend(nodes, n, top, pos)
  {
    var best := top;
    while |best.children| != 0
      invariant Hung(nodes, best)
      invariant Descend(nodes, n, best, pos) == Descend(nodes, n, top, pos)
      decreases best.size
    {
      var bestValue := 0.0;
      var next := best;
      var picked := false;
      ghost var chosen: Option<nat> := None;
      for i := 0 to |best.children|
        invariant Choose(nodes, best.children, pos, i) == Pick(chosen, bestValue)
        invariant picked <==> chosen.Some?
        invariant chosen.Some? ==> chosen.value < |best.children| && next == nodes[best.children[chosen.value]]
      {
        var child := nodes[best.children[i]];
        var value := child.value as real;
        var distance := Distance(pos, child.position) as real;
        if distance == 0.0 && child.size == 1 {
          value := 0.0;
        } else if distance != 0.0 {
          value := value / distance;
        }
        assert value == Score(child, pos);
        if value >= bestValue {
          bestValue := value;
          next := child;
          picked := true;
          chosen := Some(i);
        }
      }
      if !picked {
        return Stalled(best);
      }
      ChildHung(nodes, n, best.children[chosen.value]);
      best := next;
    }
    return Reached(best.position);
  }
}
