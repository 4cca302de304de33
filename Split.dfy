/** The contract of `addChildClusters` (main.go:70-118) and of one iteration of its
    quadrant loop (main.go:99-117), stated on the arena before and after, with the lemmas
    that carry the proof from one step to the next. */
module Split {
  import opened Grid
  import opened Quadtree
  import opened Tree
  import opened Build

  /** The leaves of the cells of a point map. */
  ghost function LeafSet(es: seq<Entry>): set<nat> {
    set e | e in es :: e.leaf
  }

  /** Sizes of the first k quadrants together. */
  function QSum(qs: seq<seq<Entry>>, k: nat): nat
    requires k <= |qs|
  {
    if k == 0 then 0 else QSum(qs, k - 1) + |qs[k - 1]|
  }

  /** All four quadrants together. */
  lemma QSumFour(qs: seq<seq<Entry>>)
    requires |qs| == 4
    ensures QSum(qs, 4) == |qs[0]| + |qs[1]| + |qs[2]| + |qs[3]|
  {
    assert QSum(qs, 1) == |qs[0]|;
    assert QSum(qs, 2) == |qs[0]| + |qs[1]|;
    assert QSum(qs, 3) == |qs[0]| + |qs[1]| + |qs[2]|;
  }

  /** An index outside the bounds of the open clusters and other than v is not open. */
  lemma Outside(above: set<nat>, v: nat, c: nat, lo: nat, hi: nat)
    requires forall x :: x in above ==> lo <= x < hi
    requires (c < lo || hi <= c) && c != v
    ensures c !in above + {v}
  {
  }

  /** What `addChildClusters` needs when called on cluster v with cells `base`: v is a
      childless cluster of |base| cells positioned at their centroid, the clusters above
      it are open, and (unless v is a single cell) the cells' leaves have no parent yet. */
  ghost predicate SplitReady(nodes: seq<Cluster>, n: nat, above: set<nat>, v: nat, base: seq<Entry>) {
    v < |nodes| && v !in above && (forall x :: x in above ==> n <= x < |nodes|) &&
    Building(nodes, n, above + {v}) &&
    nodes[v].children == [] && nodes[v].size == |base| >= 1 &&
    (|base| >= 2 ==> nodes[v].position == CentreOf(base)) &&
    Distinct(base) && NonNegative(base) &&
    (forall e :: e in base ==> e.leaf < n) &&
    (|base| >= 2 ==> forall e :: e in base ==> nodes[e.leaf].parent == None)
  }

  /** What `addChildClusters` on v with cells `base` achieves from a to b: v is closed,
      its children cover exactly its cells, every leaf of `base` has a parent; only fresh
      clusters are added, only v's children and those leaves' parents change. A single
      cell changes nothing. */
  ghost predicate SplitDone(a: seq<Cluster>, b: seq<Cluster>, n: nat, above: set<nat>, v: nat, base: seq<Entry>) {
    v < |a| && Extends(a, b) && Building(b, n, above) &&
    (forall j :: 0 <= j < |a| && j != v ==> b[j].children == a[j].children) &&
    (forall j :: 0 <= j < |a| && j !in LeafSet(base) ==> b[j].parent == a[j].parent) &&
    (|base| >= 2 ==> b[v].children != [] && b[v].size == SumSizes(b, b[v].children)) &&
    (|base| >= 2 ==> forall e :: e in base ==> e.leaf < |b| && b[e.leaf].parent.Some?) &&
    (|base| == 1 ==> b == a)
  }

  /** What one quadrant step needs: v is an open inner cluster larger than the quadrant,
      whose cells are parentless leaves. */
  ghost predicate QuadrantReady(nodes: seq<Cluster>, n: nat, above: set<nat>, v: nat, q: seq<Entry>) {
    v < |nodes| && v !in above && (forall x :: x in above ==> n <= x < |nodes|) &&
    Building(nodes, n, above + {v}) && 2 <= nodes[v].size && |q| < nodes[v].size &&
    Distinct(q) && NonNegative(q) &&
    (forall e :: e in q ==> e.leaf < n && nodes[e.leaf].parent == None)
  }

  /** What one quadrant step achieves from a to b: nothing for an empty quadrant; for a
      single cell, its leaf becomes v's last child with parent v; for more cells, a fresh
      cluster at their centroid, of their number, with parent v, becomes v's last child,
      and is split in turn. Either way v's children cover |q| more cells. */
  ghost predicate QuadrantDone(a: seq<Cluster>, b: seq<Cluster>, n: nat, above: set<nat>, v: nat, q: seq<Entry>) {
    v < |a| && Extends(a, b) && Building(b, n, above + {v}) &&
    (forall j :: 0 <= j < |a| && j != v ==> b[j].children == a[j].children) &&
    (forall j :: 0 <= j < |a| && j !in LeafSet(q) ==> b[j].parent == a[j].parent) &&
    (forall e :: e in q ==> e.leaf < |b| && b[e.leaf].parent.Some?) &&
    SumSizes(b, b[v].children) == SumSizes(a, a[v].children) + |q| &&
    (q == [] ==> b == a) &&
    (|q| == 1 ==>
      q[0].leaf < |b| && b[v].children == a[v].children + [q[0].leaf] && b[q[0].leaf].parent == Some(v)) &&
    (|q| >= 2 ==>
      |a| < |b| && b[v].children == a[v].children + [|a|] && b[|a|].position == CentreOf(q) &&
      b[|a|].size == |q| && b[|a|].parent == Some(v))
  }

  /** The state of the quadrant loop of cluster v after k quadrants, started from o. */
  ghost predicate SplitLoop(o: seq<Cluster>, nodes: seq<Cluster>, n: nat, above: set<nat>, v: nat,
                            base: seq<Entry>, k: nat) {
    k <= 4 && |base| >= 2 && v < |o| && v !in above && n <= v &&
    Distinct(base) && NonNegative(base) && (forall e :: e in base ==> e.leaf < n) &&
    o[v].position == CentreOf(base) &&
    Extends(o, nodes) && (forall x :: x in above ==> n <= x < |nodes|) &&
    Building(nodes, n, above + {v}) &&
    nodes[v].size == |base| && nodes[v].parent == o[v].parent &&
    (forall j :: 0 <= j < |o| && j != v ==> nodes[j].children == o[j].children) &&
    (forall j :: 0 <= j < |o| && j !in LeafSet(base) ==> nodes[j].parent == o[j].parent) &&
    (forall e :: e in base ==>
      e.leaf < |nodes| && (QuadrantOf(e.pos, o[v].position) < k <==> nodes[e.leaf].parent.Some?)) &&
    SumSizes(nodes, nodes[v].children) == QSum(Quadrants(base, o[v].position), k)
  }

  lemma QuadrantAt(base: seq<Entry>, centre: Point, k: nat)
    requires k < 4
    ensures Quadrants(base, centre)[k] == Filter(base, centre, k)
  {
  }

  /** A cluster of a single cell is left as it is (main.go:71-73). */
  lemma SplitSingle(o: seq<Cluster>, n: nat, above: set<nat>, v: nat, base: seq<Entry>)
    requires SplitReady(o, n, above, v, base) && o[v].size == 1
    ensures SplitDone(o, o, n, above, v, base)
  {
    Close(o, n, above, v);
  }

  lemma LoopStart(o: seq<Cluster>, n: nat, above: set<nat>, v: nat, base: seq<Entry>)
    requires SplitReady(o, n, above, v, base) && o[v].size >= 2
    ensures SplitLoop(o, o, n, above, v, base, 0)
  {
    assert n <= v;
  }

  /** The k-th quadrant is ready for its step. */
  lemma LoopReady(o: seq<Cluster>, nodes: seq<Cluster>, n: nat, above: set<nat>, v: nat,
                  base: seq<Entry>, k: nat)
    requires SplitLoop(o, nodes, n, above, v, base, k) && k < 4
    ensures QuadrantReady(nodes, n, above, v, Filter(base, o[v].position, k))
    ensures |Filter(base, o[v].position, k)| < |base|
  {
    var c := o[v].position;
    var q := Filter(base, c, k);
    QuadrantSmaller(base, k);
    FilterDistinct(base, c, k);
    FilterNonNegative(base, c, k);
    forall e | e in q
      ensures e.leaf < n && nodes[e.leaf].parent == None
    {
      FilterMembers(base, c, k, e);
    }
  }

  /** After the k-th quadrant's step, the loop state holds for k + 1. */
  lemma LoopStep(o: seq<Cluster>, before: seq<Cluster>, after: seq<Cluster>, n: nat, above: set<nat>,
                 v: nat, base: seq<Entry>, k: nat)
    requires SplitLoop(o, before, n, above, v, base, k) && k < 4
    requires QuadrantDone(before, after, n, above, v, Filter(base, o[v].position, k))
    ensures SplitLoop(o, after, n, above, v, base, k + 1)
  {
    var c := o[v].position;
    var q := Filter(base, c, k);
    FilterDistinct(base, c, k);
    ExtendsTransitive(o, before, after);
    LoopStepParents(o, before, after, n, v, base, k);
    QuadrantAt(base, c, k);
    assert QSum(Quadrants(base, c), k + 1) == QSum(Quadrants(base, c), k) + |q|;
    forall j | 0 <= j < |o| && j != v
      ensures after[j].children == o[j].children
    {
    }
  }

  lemma LoopStepParents(o: seq<Cluster>, before: seq<Cluster>, after: seq<Cluster>, n: nat,
                        v: nat, base: seq<Entry>, k: nat)
    requires Distinct(base) && k < 4 && v < |o| && |o| <= |before| <= |after|
    requires forall e :: e in base ==> e.leaf < n
    requires n <= v
    requires forall e :: e in Filter(base, o[v].position, k) ==> e in base
    requires forall j :: 0 <= j < |o| && j !in LeafSet(base) ==> before[j].parent == o[j].parent
    requires forall e :: e in base ==>
      e.leaf < |before| && (QuadrantOf(e.pos, o[v].position) < k <==> before[e.leaf].parent.Some?)
    requires forall j :: 0 <= j < |before| && j !in LeafSet(Filter(base, o[v].position, k)) ==>
      after[j].parent == before[j].parent
    requires forall e :: e in Filter(base, o[v].position, k) ==> e.leaf < |after| && after[e.leaf].parent.Some?
    ensures after[v].parent == before[v].parent
    ensures forall j :: 0 <= j < |o| && j !in LeafSet(base) ==> after[j].parent == o[j].parent
    ensures forall e :: e in base ==>
      e.leaf < |after| && (QuadrantOf(e.pos, o[v].position) < k + 1 <==> after[e.leaf].parent.Some?)
  {
    var c := o[v].position;
    var q := Filter(base, c, k);
    forall e | e in base
      ensures e.leaf < |after| && (QuadrantOf(e.pos, c) < k + 1 <==> after[e.leaf].parent.Some?)
    {
      FilterMembers(base, c, k, e);
      if e !in q && e.leaf in LeafSet(q) {
        var e2 :| e2 in q && e2.leaf == e.leaf;
        DistinctLeaf(base, e, e2);
      }
    }
  }

  /** After the fourth quadrant, v's children cover all of its cells (main.go:83-116). */
  lemma LoopEnd(o: seq<Cluster>, nodes: seq<Cluster>, n: nat, above: set<nat>, v: nat, base: seq<Entry>)
    requires SplitLoop(o, nodes, n, above, v, base, 4)
    ensures SplitDone(o, nodes, n, above, v, base)
  {
    QuadrantSizes(base, o[v].position);
    QSumFour(Quadrants(base, o[v].position));
    Close(nodes, n, above, v);
  }

  /** An empty quadrant is skipped (main.go:100-102). */
  lemma QuadrantEmpty(a: seq<Cluster>, n: nat, above: set<nat>, v: nat, q: seq<Entry>)
    requires QuadrantReady(a, n, above, v, q) && q == []
    ensures QuadrantDone(a, a, n, above, v, q)
  {
  }

  /** After a one-cell quadrant's leaf is linked to v (main.go:106-110, 115), the leaf is
      ready for its own (trivial) split. */
  lemma LeafReady(a: seq<Cluster>, mid: seq<Cluster>, b: seq<Cluster>, n: nat, above: set<nat>,
                  v: nat, q: seq<Entry>)
    requires QuadrantReady(a, n, above, v, q) && |q| == 1
    requires mid == a[q[0].leaf := a[q[0].leaf].(parent := Some(v))]
    requires b == mid[v := mid[v].(children := mid[v].children + [q[0].leaf])]
    ensures SplitReady(b, n, above + {v}, q[0].leaf, q)
  {
    assert q[0] in q;
    var c := q[0].leaf;
    LinkLeaf(a, mid, b, n, above + {v}, v, c);
    Widen(b, n, above + {v}, above + {v} + {c});
    Outside(above, v, c, n, |b|);
  }

  lemma LeafDone(a: seq<Cluster>, mid: seq<Cluster>, b: seq<Cluster>, final: seq<Cluster>, n: nat,
                 above: set<nat>, v: nat, q: seq<Entry>)
    requires QuadrantReady(a, n, above, v, q) && |q| == 1
    requires mid == a[q[0].leaf := a[q[0].leaf].(parent := Some(v))]
    requires b == mid[v := mid[v].(children := mid[v].children + [q[0].leaf])]
    requires SplitDone(b, final, n, above + {v}, q[0].leaf, q)
    ensures QuadrantDone(a, final, n, above, v, q)
  {
    assert q[0] in q;
    LeafLinked(a, mid, b, v, q);
  }

  /** The effect of linking a one-cell quadrant's leaf c to v, stated without the tree
      invariant: positions and sizes kept, only v's children and c's parent changed, and v's
      children grown by one cell. */
  lemma LeafLinked(a: seq<Cluster>, mid: seq<Cluster>, b: seq<Cluster>, v: nat, q: seq<Entry>)
    requires |q| == 1 && v < |a| && q[0].leaf < |a| && q[0].leaf != v && a[q[0].leaf].size == 1
    requires forall k :: 0 <= k < |a[v].children| ==> a[v].children[k] < |a|
    requires mid == a[q[0].leaf := a[q[0].leaf].(parent := Some(v))]
    requires b == mid[v := mid[v].(children := mid[v].children + [q[0].leaf])]
    ensures Extends(a, b) && |b| == |a|
    ensures forall j :: 0 <= j < |a| && j != v ==> b[j].children == a[j].children
    ensures forall j :: 0 <= j < |a| && j !in LeafSet(q) ==> b[j].parent == a[j].parent
    ensures forall e :: e in q ==> e.leaf < |b| && b[e.leaf].parent.Some?
    ensures SumSizes(b, b[v].children) == SumSizes(a, a[v].children) + |q|
    ensures b[v].children == a[v].children + [q[0].leaf] && b[q[0].leaf].parent == Some(v)
  {
    var c := q[0].leaf;
    assert q == [q[0]];
    assert LeafSet(q) == {c};
    LinkedAt(a, mid, b, v, c);
    forall e | e in q
      ensures e.leaf == c
    {
    }
    assert Extends(a, b) by {
      forall j | 0 <= j < |a|
        ensures b[j].position == a[j].position && b[j].size == a[j].size
      {
      }
    }
    SumSizesAppend(b, a[v].children, c);
    SumSizesExtends(a, b, a[v].children);
  }

  /** Each cluster after linking leaf c below v: v with one more child, c with parent v,
      every other one as it was. */
  lemma LinkedAt(a: seq<Cluster>, mid: seq<Cluster>, b: seq<Cluster>, v: nat, c: nat)
    requires v < |a| && c < |a| && c != v
    requires mid == a[c := a[c].(parent := Some(v))]
    requires b == mid[v := mid[v].(children := mid[v].children + [c])]
    ensures |b| == |a| && b[v] == a[v].(children := a[v].children + [c]) && b[c] == a[c].(parent := Some(v))
    ensures forall j :: 0 <= j < |a| && j != v && j != c ==> b[j] == a[j]
  {
  }

  /** After a fresh cluster for a larger quadrant is appended and linked to v
      (main.go:111-113, 115), it is ready to be split. */
  lemma FreshReady(a: seq<Cluster>, mid: seq<Cluster>, b: seq<Cluster>, n: nat, above: set<nat>,
                   v: nat, q: seq<Entry>)
    requires QuadrantReady(a, n, above, v, q) && |q| >= 2
    requires mid == a + [Cluster(CentreOf(q), 0, |q|, [], Some(v))]
    requires b == mid[v := mid[v].(children := mid[v].children + [|a|])]
    ensures SplitReady(b, n, above + {v}, |a|, q)
  {
    LinkFresh(a, mid, b, n, above + {v}, v, CentreOf(q), |q|);
    Outside(above, v, |a|, n, |a|);
  }

  lemma FreshDone(a: seq<Cluster>, mid: seq<Cluster>, b: seq<Cluster>, final: seq<Cluster>, n: nat,
                  above: set<nat>, v: nat, q: seq<Entry>)
    requires QuadrantReady(a, n, above, v, q) && |q| >= 2
    requires mid == a + [Cluster(CentreOf(q), 0, |q|, [], Some(v))]
    requires b == mid[v := mid[v].(children := mid[v].children + [|a|])]
    requires SplitDone(b, final, n, above + {v}, |a|, q)
    ensures QuadrantDone(a, final, n, above, v, q)
  {
    LinkFresh(a, mid, b, n, above + {v}, v, CentreOf(q), |q|);
    ExtendsTransitive(a, b, final);
    assert |a| !in LeafSet(q);
    SumSizesAppend(final, a[v].children, |a|);
    SumSizesExtends(a, final, a[v].children);
  }
}
