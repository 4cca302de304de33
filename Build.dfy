/** The invariant that holds while `addChildClusters` (main.go:70-118) grows the tree, and
    one lemma per kind of mutation it performs: linking a one-cell quadrant's leaf to its
    new parent, linking a fresh inner cluster, and closing a cluster once all four
    quadrants are done. */
module Build {
  import opened Grid
  import opened Tree

  /** Nothing has been added to any cluster's value yet. */
  ghost predicate AllZero(nodes: seq<Cluster>) {
    forall i :: 0 <= i < |nodes| ==> nodes[i].value == 0
  }

  /** Inner clusters (after the root) always have a parent and cover at least two cells;
      those no longer collecting children (not in `open`) have children. */
  ghost predicate Inner(nodes: seq<Cluster>, n: nat, open: set<nat>) {
    forall i :: n < i < |nodes| ==>
      nodes[i].parent.Some? && nodes[i].size >= 2 && (i !in open ==> nodes[i].children != [])
  }

  /** The tree under construction; `open` holds the clusters whose children are still being
      added, for which the size sum need not hold yet. */
  ghost predicate Building(nodes: seq<Cluster>, n: nat, open: set<nat>) {
    LeavesFirst(nodes, n) && Chained(nodes, n) &&
    nodes[n].parent == None && nodes[n].size == n &&
    Inner(nodes, n, open) &&
    ChildLinks(nodes) && ParentLinks(nodes) && DistinctChildren(nodes) &&
    SizeSums(nodes, open) && AllZero(nodes)
  }

  /** b keeps the position and size of every cluster of a and may add clusters after them. */
  ghost predicate Extends(a: seq<Cluster>, b: seq<Cluster>) {
    |a| <= |b| &&
    forall j :: 0 <= j < |a| ==> b[j].position == a[j].position && b[j].size == a[j].size
  }

  lemma ExtendsTransitive(a: seq<Cluster>, b: seq<Cluster>, c: seq<Cluster>)
    requires Extends(a, b) && Extends(b, c)
    ensures Extends(a, c)
  {
  }

  /** Sizes summed over existing clusters survive any extension. */
  lemma {:induction false} SumSizesExtends(a: seq<Cluster>, b: seq<Cluster>, cs: seq<nat>)
    requires Extends(a, b)
    requires forall k :: 0 <= k < |cs| ==> cs[k] < |a|
    ensures SumSizes(b, cs) == SumSizes(a, cs)
  {
    if cs != [] {
      SumSizesExtends(a, b, cs[..|cs| - 1]);
    }
  }

  lemma {:induction false} SumSizesAppend(nodes: seq<Cluster>, cs: seq<nat>, c: nat)
    requires c < |nodes|
    ensures SumSizes(nodes, cs + [c]) == SumSizes(nodes, cs) + nodes[c].size
  {
    assert (cs + [c])[..|cs|] == cs;
  }

  /** With every value zero, every value sum is zero. */
  lemma {:induction false} SumValuesZero(nodes: seq<Cluster>, cs: seq<nat>)
    requires AllZero(nodes)
    ensures SumValues(nodes, cs) == 0
  {
    if cs != [] {
      SumValuesZero(nodes, cs[..|cs| - 1]);
    }
  }

  /** n parentless leaves followed by a childless root over all of them. */
  lemma StartBuilding(nodes: seq<Cluster>, n: nat)
    requires n >= 1 && |nodes| == n + 1
    requires forall i :: 0 <= i < n ==>
      nodes[i].children == [] && nodes[i].size == 1 && nodes[i].parent == None && nodes[i].value == 0
    requires nodes[n].children == [] && nodes[n].size == n && nodes[n].parent == None &&
      nodes[n].value == 0
    ensures Building(nodes, n, {n})
  {
  }

  /** A larger set of open clusters asks less. */
  lemma Widen(nodes: seq<Cluster>, n: nat, open: set<nat>, more: set<nat>)
    requires Building(nodes, n, open) && open <= more
    ensures Building(nodes, n, more)
  {
  }

  /** A cluster whose children add up to its size, and which has children unless it is a
      leaf or the root, can leave the open set. */
  lemma Close(nodes: seq<Cluster>, n: nat, open: set<nat>, v: nat)
    requires Building(nodes, n, open + {v}) && v < |nodes|
    requires nodes[v].children != [] ==> nodes[v].size == SumSizes(nodes, nodes[v].children)
    requires v > n ==> nodes[v].children != []
    ensures Building(nodes, n, open)
  {
  }

  /** b is a with cluster c, so far parentless, given parent v and appended to v's children;
      nothing else changes. */
  ghost predicate Relinked(a: seq<Cluster>, b: seq<Cluster>, v: nat, c: nat) {
    |b| == |a| && v < |a| && c < |a| && c != v &&
    (forall j :: 0 <= j < |a| ==>
      b[j].position == a[j].position && b[j].size == a[j].size && b[j].value == a[j].value) &&
    (forall j :: 0 <= j < |a| && j != v ==> b[j].children == a[j].children) &&
    b[v].children == a[v].children + [c] &&
    (forall j :: 0 <= j < |a| && j != c ==> b[j].parent == a[j].parent) &&
    a[c].parent == None && b[c].parent == Some(v)
  }

  lemma RelinkChildLinks(a: seq<Cluster>, b: seq<Cluster>, v: nat, c: nat)
    requires ChildLinks(a) && Relinked(a, b, v, c)
    ensures ChildLinks(b)
  {
    forall j, k | 0 <= j < |b| && 0 <= k < |b[j].children|
      ensures b[j].children[k] < |b| && b[b[j].children[k]].parent == Some(j)
    {
      if j != v || k < |a[v].children| {
        assert b[j].children[k] == a[j].children[k];
      }
    }
  }

  lemma RelinkParentLinks(a: seq<Cluster>, b: seq<Cluster>, v: nat, c: nat)
    requires ParentLinks(a) && Relinked(a, b, v, c) && a[c].size < a[v].size
    ensures ParentLinks(b)
  {
    forall j | 0 <= j < |b| && b[j].parent.Some?
      ensures b[j].parent.value < |b| && j in b[b[j].parent.value].children &&
        b[j].size < b[b[j].parent.value].size
    {
      if j != c {
        var p := a[j].parent.value;
        assert j in a[p].children;
      }
    }
  }

  lemma RelinkDistinct(a: seq<Cluster>, b: seq<Cluster>, v: nat, c: nat)
    requires DistinctChildren(a) && ChildLinks(a) && Relinked(a, b, v, c)
    ensures DistinctChildren(b)
  {
    forall k | 0 <= k < |a[v].children|
      ensures a[v].children[k] != c
    {
    }
    forall j, x, y | 0 <= j < |b| && 0 <= x < y < |b[j].children|
      ensures b[j].children[x] != b[j].children[y]
    {
      if j != v || y < |a[v].children| {
        assert b[j].children[x] == a[j].children[x];
        assert b[j].children[y] == a[j].children[y];
      }
    }
  }

  lemma RelinkChained(a: seq<Cluster>, b: seq<Cluster>, n: nat, v: nat, c: nat)
    requires Chained(a, n) && Relinked(a, b, v, c) && a[c].size < a[v].size
    ensures Chained(b, n)
  {
  }

  lemma RelinkSizeSums(a: seq<Cluster>, b: seq<Cluster>, v: nat, c: nat, open: set<nat>)
    requires SizeSums(a, open) && Relinked(a, b, v, c) && v in open
    requires forall j, k :: 0 <= j < |a| && 0 <= k < |a[j].children| ==> a[j].children[k] < |a|
    ensures SizeSums(b, open)
  {
    forall j | 0 <= j < |b| && j !in open && b[j].children != []
      ensures b[j].size == SumSizes(b, b[j].children)
    {
      SumSizesExtends(a, b, a[j].children);
    }
  }

  /** All link invariants survive a re-link. */
  lemma RelinkLinks(a: seq<Cluster>, b: seq<Cluster>, n: nat, v: nat, c: nat, open: set<nat>)
    requires ChildLinks(a) && ParentLinks(a) && DistinctChildren(a) && Chained(a, n)
    requires SizeSums(a, open) && v in open
    requires Relinked(a, b, v, c) && a[c].size < a[v].size
    ensures ChildLinks(b) && ParentLinks(b) && DistinctChildren(b) && Chained(b, n)
    ensures SizeSums(b, open)
  {
    RelinkChildLinks(a, b, v, c);
    RelinkParentLinks(a, b, v, c);
    RelinkDistinct(a, b, v, c);
    RelinkChained(a, b, n, v, c);
    RelinkSizeSums(a, b, v, c, open);
  }

  /** Setting a parentless leaf's parent to v and appending it to v's children
      (main.go:107-110, 115). */
  lemma LinkLeaf(a: seq<Cluster>, mid: seq<Cluster>, b: seq<Cluster>, n: nat, open: set<nat>, v: nat, c: nat)
    requires Building(a, n, open) && v in open && v < |a| && a[v].size >= 2
    requires c < n && a[c].parent == None
    requires mid == a[c := a[c].(parent := Some(v))]
    requires b == mid[v := mid[v].(children := mid[v].children + [c])]
    ensures Building(b, n, open) && Extends(a, b) && |b| == |a|
    ensures forall j :: 0 <= j < |a| && j != v ==> b[j].children == a[j].children
    ensures b[v].children == a[v].children + [c]
    ensures forall j :: 0 <= j < |a| && j != c ==> b[j].parent == a[j].parent
    ensures b[c].parent == Some(v)
  {
    assert v >= n;
    LeafRelinked(a, mid, b, v, c);
    RelinkLinks(a, b, n, v, c, open);
    RelinkRest(a, b, n, open, v, c);
  }

  lemma LeafRelinked(a: seq<Cluster>, mid: seq<Cluster>, b: seq<Cluster>, v: nat, c: nat)
    requires v < |a| && c < |a| && c != v && a[c].parent == None
    requires mid == a[c := a[c].(parent := Some(v))]
    requires b == mid[v := mid[v].(children := mid[v].children + [c])]
    ensures Relinked(a, b, v, c)
  {
  }

  /** The remaining parts of the construction invariant survive a re-link to a non-leaf v. */
  lemma RelinkRest(a: seq<Cluster>, b: seq<Cluster>, n: nat, open: set<nat>, v: nat, c: nat)
    requires Relinked(a, b, v, c) && n <= v && c != n
    requires LeavesFirst(a, n) && a[n].parent == None && a[n].size == n && AllZero(a)
    requires forall i :: n < i < |a| && i != c ==>
      a[i].parent.Some? && a[i].size >= 2 && (i !in open ==> a[i].children != [])
    requires c > n ==> a[c].size >= 2 && c in open
    ensures LeavesFirst(b, n) && b[n].parent == None && b[n].size == n && AllZero(b)
    ensures Inner(b, n, open)
  {
  }

  /** a with one more cluster of size s in [2, n] that has neither parent nor children. */
  lemma AppendLoose(a: seq<Cluster>, a2: seq<Cluster>, n: nat, pos: Point, s: nat)
    requires ChildLinks(a) && ParentLinks(a) && DistinctChildren(a) && Chained(a, n)
    requires 2 <= s <= n && a2 == a + [Cluster(pos, 0, s, [], None)]
    ensures ChildLinks(a2) && ParentLinks(a2) && DistinctChildren(a2) && Chained(a2, n)
    ensures Extends(a, a2) && forall j :: 0 <= j < |a| ==> a2[j] == a[j]
  {
  }

  /** Appending a fresh cluster of size s with parent v, and appending it to v's children
      (main.go:112, 115). The fresh cluster stays open until its own quadrants are done. */
  lemma LinkFresh(a: seq<Cluster>, mid: seq<Cluster>, b: seq<Cluster>, n: nat, open: set<nat>,
                  v: nat, pos: Point, s: nat)
    requires Building(a, n, open) && v in open && v < |a| && 2 <= s < a[v].size
    requires mid == a + [Cluster(pos, 0, s, [], Some(v))]
    requires b == mid[v := mid[v].(children := mid[v].children + [|a|])]
    ensures Building(b, n, open + {|a|}) && Extends(a, b) && |b| == |a| + 1
    ensures forall j :: 0 <= j < |a| && j != v ==> b[j].children == a[j].children
    ensures b[v].children == a[v].children + [|a|]
    ensures forall j :: 0 <= j < |a| ==> b[j].parent == a[j].parent
    ensures b[|a|] == Cluster(pos, 0, s, [], Some(v))
  {
    assert v >= n;
    var a2 := a + [Cluster(pos, 0, s, [], None)];
    AppendLoose(a, a2, n, pos, s);
    FreshSizeSums(a, a2, open, |a|);
    FreshRelinked(a, a2, mid, b, v, pos, s);
    RelinkLinks(a2, b, n, v, |a|, open + {|a|});
    FreshRest(a, a2, n, open);
    RelinkRest(a2, b, n, open + {|a|}, v, |a|);
    ExtendsTransitive(a, a2, b);
  }

  lemma FreshRelinked(a: seq<Cluster>, a2: seq<Cluster>, mid: seq<Cluster>, b: seq<Cluster>,
                      v: nat, pos: Point, s: nat)
    requires v < |a| && a2 == a + [Cluster(pos, 0, s, [], None)]
    requires mid == a + [Cluster(pos, 0, s, [], Some(v))]
    requires b == mid[v := mid[v].(children := mid[v].children + [|a|])]
    ensures Relinked(a2, b, v, |a|)
  {
  }

  lemma FreshRest(a: seq<Cluster>, a2: seq<Cluster>, n: nat, open: set<nat>)
    requires Building(a, n, open) && |a2| == |a| + 1 && a2[|a|].size >= 2 && a2[|a|].value == 0
    requires forall j :: 0 <= j < |a| ==> a2[j] == a[j]
    ensures LeavesFirst(a2, n) && a2[n].parent == None && a2[n].size == n && AllZero(a2)
    ensures forall i :: n < i < |a2| && i != |a| ==>
      a2[i].parent.Some? && a2[i].size >= 2 && (i !in open + {|a|} ==> a2[i].children != [])
  {
  }

  lemma FreshSizeSums(a: seq<Cluster>, a2: seq<Cluster>, open: set<nat>, c: nat)
    requires SizeSums(a, open) && Extends(a, a2) && |a2| == |a| + 1 && c == |a|
    requires forall j :: 0 <= j < |a| ==> a2[j].children == a[j].children
    requires forall j, k :: 0 <= j < |a| && 0 <= k < |a[j].children| ==> a[j].children[k] < |a|
    ensures SizeSums(a2, open + {c})
  {
    forall j | 0 <= j < |a2| && j !in open + {c} && a2[j].children != []
      ensures a2[j].size == SumSizes(a2, a2[j].children)
    {
      SumSizesExtends(a, a2, a[j].children);
    }
  }

  /** A finished tree: nothing open, every leaf attached, a root over two or more cells
      with children. This is the invariant of a built tree with all values zero. */
  lemma Built(nodes: seq<Cluster>, n: nat)
    requires Building(nodes, n, {})
    requires n >= 2 ==> nodes[n].children != [] && forall i :: 0 <= i < n ==> nodes[i].parent.Some?
    ensures TreeInv(nodes, n) && AllZero(nodes)
  {
    forall i | 0 <= i < |nodes| && nodes[i].children != []
      ensures nodes[i].value == SumValues(nodes, nodes[i].children)
    {
      SumValuesZero(nodes, nodes[i].children);
    }
  }
}
