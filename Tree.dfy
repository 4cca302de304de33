/** The value-cluster tree as an arena: every `valueCluster` of the source is an element
    of a sequence, children and parent pointers are indices into it. Leaves (one per grid
    cell) come first, at indices [0, n); the root built by `makeGameMap` is at index n;
    the inner clusters created by `addChildClusters` follow. This module states the tree
    invariants and specifies `addValue` as `Propagate`. */
module Tree {
  import opened Grid

  datatype Option<T> = None | Some(value: T)

  /** A `valueCluster` (main.go:50-56). */
  datatype Cluster = Cluster(position: Point, value: int, size: nat, children: seq<nat>, parent: Option<nat>)

  /** Sum of the sizes of the clusters listed in cs. */
  function SumSizes(nodes: seq<Cluster>, cs: seq<nat>): int {
    if cs == [] then 0
    else SumSizes(nodes, cs[..|cs| - 1]) +
         (if cs[|cs| - 1] < |nodes| then nodes[cs[|cs| - 1]].size else 0)
  }

  /** Sum of the values of the clusters listed in cs. */
  function SumValues(nodes: seq<Cluster>, cs: seq<nat>): int {
    if cs == [] then 0
    else SumValues(nodes, cs[..|cs| - 1]) +
         (if cs[|cs| - 1] < |nodes| then nodes[cs[|cs| - 1]].value else 0)
  }

  /** Every child index is a cluster whose parent is the cluster that lists it. */
  ghost predicate ChildLinks(nodes: seq<Cluster>) {
    forall i, k :: 0 <= i < |nodes| && 0 <= k < |nodes[i].children| ==>
      nodes[i].children[k] < |nodes| && nodes[nodes[i].children[k]].parent == Some(i)
  }

  /** Every parent is a cluster that lists the child and is strictly larger than it. */
  ghost predicate ParentLinks(nodes: seq<Cluster>) {
    forall i {:trigger nodes[i].parent} :: 0 <= i < |nodes| && nodes[i].parent.Some? ==>
      nodes[i].parent.value < |nodes| &&
      i in nodes[nodes[i].parent.value].children &&
      nodes[i].size < nodes[nodes[i].parent.value].size
  }

  /** No cluster lists the same child twice. */
  ghost predicate DistinctChildren(nodes: seq<Cluster>) {
    forall i, a, b :: 0 <= i < |nodes| && 0 <= a < b < |nodes[i].children| ==>
      nodes[i].children[a] != nodes[i].children[b]
  }

  /** Every cluster with children, except those in `open`, is as large as its children together. */
  ghost predicate SizeSums(nodes: seq<Cluster>, open: set<nat>) {
    forall i :: 0 <= i < |nodes| && i !in open && nodes[i].children != [] ==>
      nodes[i].size == SumSizes(nodes, nodes[i].children)
  }

  /** Every cluster with children holds the sum of its children's values. */
  ghost predicate ValueSums(nodes: seq<Cluster>) {
    forall i :: 0 <= i < |nodes| && nodes[i].children != [] ==>
      nodes[i].value == SumValues(nodes, nodes[i].children)
  }

  /** The n leaves come first; each has size 1 and no children. */
  ghost predicate LeavesFirst(nodes: seq<Cluster>, n: nat) {
    n < |nodes| &&
    forall i :: 0 <= i < n ==> nodes[i].children == [] && nodes[i].size == 1
  }

  /** Sizes lie in [1, n]; parents are valid indices of strictly larger clusters. This is
      what makes the chain of parents finite. */
  ghost predicate Chained(nodes: seq<Cluster>, n: nat) {
    (forall i :: 0 <= i < |nodes| ==> 1 <= nodes[i].size <= n) &&
    (forall i {:trigger nodes[i].parent} :: 0 <= i < |nodes| && nodes[i].parent.Some? ==>
      nodes[i].parent.value < |nodes| && nodes[i].size < nodes[nodes[i].parent.value].size)
  }

  /** The root at index n covers all n cells and is the only cluster without a parent;
      only leaves (and a root over a single cell) have no children. */
  ghost predicate Rooted(nodes: seq<Cluster>, n: nat) {
    n < |nodes| && nodes[n].parent == None && nodes[n].size == n &&
    (forall i :: n < i < |nodes| ==> nodes[i].children != []) &&
    (n >= 2 ==> nodes[n].children != [] && forall i :: 0 <= i < |nodes| && i != n ==> nodes[i].parent.Some?)
  }

  /** The invariant of a built tree. */
  ghost predicate TreeInv(nodes: seq<Cluster>, n: nat) {
    LeavesFirst(nodes, n) && Chained(nodes, n) && Rooted(nodes, n) &&
    ChildLinks(nodes) && ParentLinks(nodes) && DistinctChildren(nodes) &&
    SizeSums(nodes, {}) && ValueSums(nodes)
  }

  /** a and b agree on everything but the values. */
  ghost predicate SameShape(a: seq<Cluster>, b: seq<Cluster>) {
    |a| == |b| &&
    forall j :: 0 <= j < |a| ==>
      a[j].position == b[j].position && a[j].size == b[j].size &&
      a[j].children == b[j].children && a[j].parent == b[j].parent
  }

  /** The chain from cluster i up to the root: i, its parent, its grandparent, ... */
  function Ancestry(nodes: seq<Cluster>, i: nat, n: nat): (a: seq<nat>)
    requires i < |nodes| && Chained(nodes, n)
    ensures |a| >= 1 && a[0] == i
    ensures forall k :: 0 <= k < |a| ==> a[k] < |nodes|
    decreases n - nodes[i].size
  {
    match nodes[i].parent
    case None => [i]
    case Some(p) => [i] + Ancestry(nodes, p, n)
  }

  /** `addValue` (main.go:58-68): add d to cluster i and, recursively, to its parent. */
  function Propagate(nodes: seq<Cluster>, i: nat, d: int, n: nat): (r: seq<Cluster>)
    requires i < |nodes| && Chained(nodes, n)
    ensures SameShape(nodes, r) && Chained(r, n)
    decreases n - nodes[i].size
  {
    var here := nodes[i := nodes[i].(value := nodes[i].value + d)];
    match nodes[i].parent
    case None => here
    case Some(p) => ChainedShape(nodes, here, n); Propagate(here, p, d, n)
  }

  lemma ChainedShape(a: seq<Cluster>, b: seq<Cluster>, n: nat)
    requires SameShape(a, b) && Chained(a, n)
    ensures Chained(b, n)
  {
  }

  /** The chain depends only on the shape of the tree, not on its values. */
  lemma {:induction false} AncestryShape(a: seq<Cluster>, b: seq<Cluster>, i: nat, n: nat)
    requires i < |a| && SameShape(a, b) && Chained(a, n)
    ensures Chained(b, n) && Ancestry(a, i, n) == Ancestry(b, i, n)
    decreases n - a[i].size
  {
    ChainedShape(a, b, n);
    if a[i].parent.Some? {
      AncestryShape(a, b, a[i].parent.value, n);
    }
  }

  /** Along the chain each cluster is the parent of the one before, sizes grow strictly,
      and the chain ends at a cluster without a parent. */
  lemma {:induction false} AncestryLinks(nodes: seq<Cluster>, i: nat, n: nat)
    requires i < |nodes| && Chained(nodes, n)
    ensures var a := Ancestry(nodes, i, n);
      (forall k :: 0 <= k < |a| - 1 ==> nodes[a[k]].parent == Some(a[k + 1])) &&
      nodes[a[|a| - 1]].parent == None &&
      (forall k, m :: 0 <= k < m < |a| ==> nodes[a[k]].size < nodes[a[m]].size)
    decreases n - nodes[i].size
  {
    if nodes[i].parent.Some? {
      var p := nodes[i].parent.value;
      AncestryLinks(nodes, p, n);
      var a := Ancestry(nodes, i, n);
      var b := Ancestry(nodes, p, n);
      assert a == [i] + b;
      forall k, m | 0 <= k < m < |a|
        ensures nodes[a[k]].size < nodes[a[m]].size
      {
        if k == 0 {
          assert nodes[b[0]].size <= nodes[b[m - 1]].size;
        }
      }
    }
  }

  /** Each cluster appears at most once in its chain. */
  lemma AncestryDistinct(nodes: seq<Cluster>, i: nat, n: nat, k: nat, m: nat)
    requires i < |nodes| && Chained(nodes, n)
    requires k < |Ancestry(nodes, i, n)| && m < |Ancestry(nodes, i, n)|
    requires Ancestry(nodes, i, n)[k] == Ancestry(nodes, i, n)[m]
    ensures k == m
  {
    AncestryLinks(nodes, i, n);
  }

  /** `addValue` adds d to the value of every cluster on the chain from i to the root and
      changes nothing else. */
  lemma {:induction false} PropagateEffect(nodes: seq<Cluster>, i: nat, d: int, n: nat)
    requires i < |nodes| && Chained(nodes, n)
    ensures var r := Propagate(nodes, i, d, n);
      |r| == |nodes| &&
      forall j :: 0 <= j < |nodes| ==>
        r[j].value == nodes[j].value + (if j in Ancestry(nodes, i, n) then d else 0)
    decreases n - nodes[i].size
  {
    var here := nodes[i := nodes[i].(value := nodes[i].value + d)];
    if nodes[i].parent.Some? {
      var p := nodes[i].parent.value;
      assert SameShape(nodes, here) by {
      }
      AncestryShape(nodes, here, p, n);
      PropagateEffect(here, p, d, n);
      AboveNotBelow(nodes, i, n);
      EffectStep(nodes, here, Propagate(here, p, d, n), i, d, Ancestry(nodes, p, n));
    }
  }

  /** A cluster is not on its parent's chain. */
  lemma AboveNotBelow(nodes: seq<Cluster>, i: nat, n: nat)
    requires i < |nodes| && Chained(nodes, n) && nodes[i].parent.Some?
    ensures Ancestry(nodes, i, n) == [i] + Ancestry(nodes, nodes[i].parent.value, n)
    ensures i !in Ancestry(nodes, nodes[i].parent.value, n)
  {
    var ap := Ancestry(nodes, nodes[i].parent.value, n);
    var a := Ancestry(nodes, i, n);
    assert a == [i] + ap;
    if i in ap {
      var m :| 0 <= m < |ap| && ap[m] == i;
      assert a[m + 1] == i;
      AncestryDistinct(nodes, i, n, 0, m + 1);
    }
  }

  lemma EffectStep(nodes: seq<Cluster>, here: seq<Cluster>, r: seq<Cluster>, i: nat, d: int, ap: seq<nat>)
    requires |here| == |nodes| == |r| && i < |nodes| && i !in ap
    requires here == nodes[i := nodes[i].(value := nodes[i].value + d)]
    requires forall j :: 0 <= j < |here| ==> r[j].value == here[j].value + (if j in ap then d else 0)
    ensures forall j :: 0 <= j < |nodes| ==>
      r[j].value == nodes[j].value + (if j in [i] + ap then d else 0)
  {
    forall j | 0 <= j < |nodes|
      ensures r[j].value == nodes[j].value + (if j in [i] + ap then d else 0)
    {
      assert r[j].value == here[j].value + (if j in ap then d else 0);
      assert j in [i] + ap <==> j == i || j in ap;
    }
  }

  /** An offset added with `addValue` and then removed restores every cluster. */
  lemma PropagateInverse(nodes: seq<Cluster>, i: nat, d: int, n: nat)
    requires i < |nodes| && Chained(nodes, n)
    ensures Propagate(Propagate(nodes, i, d, n), i, -d, n) == nodes
  {
    var r := Propagate(nodes, i, d, n);
    PropagateEffect(nodes, i, d, n);
    AncestryShape(nodes, r, i, n);
    PropagateEffect(r, i, -d, n);
    var s := Propagate(r, i, -d, n);
    assert |s| == |nodes|;
    forall j | 0 <= j < |nodes| ensures s[j] == nodes[j] {
      assert s[j].value == nodes[j].value;
    }
  }

  /** Sums over clusters whose listed values did not change are unchanged. */
  lemma {:induction false} SumValuesUnchanged(a: seq<Cluster>, b: seq<Cluster>, cs: seq<nat>)
    requires |a| == |b|
    requires forall k :: 0 <= k < |cs| ==> cs[k] < |a| && a[cs[k]].value == b[cs[k]].value
    ensures SumValues(a, cs) == SumValues(b, cs)
  {
    if cs != [] {
      SumValuesUnchanged(a, b, cs[..|cs| - 1]);
    }
  }

  /** Sizes of clusters are sums of the shape alone. */
  lemma {:induction false} SumSizesShape(a: seq<Cluster>, b: seq<Cluster>, cs: seq<nat>)
    requires SameShape(a, b)
    ensures SumSizes(a, cs) == SumSizes(b, cs)
  {
    if cs != [] {
      SumSizesShape(a, b, cs[..|cs| - 1]);
    }
  }

  /** Changing one listed cluster's value by d changes the sum of a duplicate-free list by d. */
  lemma {:induction false} SumValuesShift(a: seq<Cluster>, b: seq<Cluster>, cs: seq<nat>, star: nat, d: int)
    requires |a| == |b| && star in cs
    requires forall k :: 0 <= k < |cs| ==> cs[k] < |a|
    requires forall x, y :: 0 <= x < y < |cs| ==> cs[x] != cs[y]
    requires forall k :: 0 <= k < |cs| && cs[k] != star ==> b[cs[k]].value == a[cs[k]].value
    requires b[star].value == a[star].value + d
    ensures SumValues(b, cs) == SumValues(a, cs) + d
  {
    var init := cs[..|cs| - 1];
    if cs[|cs| - 1] == star {
      SumValuesUnchanged(a, b, init);
    } else {
      assert star in init;
      SumValuesShift(a, b, init, star, d);
    }
  }

  /** The chain is closed upward: the parent of a chain member is on the chain. */
  lemma AncestryClosed(nodes: seq<Cluster>, i: nat, n: nat, c: nat)
    requires i < |nodes| && Chained(nodes, n)
    requires c in Ancestry(nodes, i, n) && nodes[c].parent.Some?
    ensures nodes[c].parent.value in Ancestry(nodes, i, n)
  {
    AncestryLinks(nodes, i, n);
    var a := Ancestry(nodes, i, n);
    var t :| 0 <= t < |a| && a[t] == c;
    assert t < |a| - 1;
    assert a[t + 1] == nodes[c].parent.value;
  }

  /** A chain member with children has exactly one child on the chain: the one before it. */
  lemma AncestryChild(nodes: seq<Cluster>, i: nat, n: nat, j: nat) returns (star: nat)
    requires TreeInv(nodes, n) && i < |nodes| && j < |nodes|
    requires j in Ancestry(nodes, i, n) && j != i
    ensures star in nodes[j].children && star in Ancestry(nodes, i, n)
    ensures forall c :: c in nodes[j].children && c in Ancestry(nodes, i, n) ==> c == star
  {
    AncestryLinks(nodes, i, n);
    var a := Ancestry(nodes, i, n);
    var m :| 0 <= m < |a| && a[m] == j;
    assert m > 0;
    star := a[m - 1];
    assert nodes[star].parent == Some(j);
    forall c | c in nodes[j].children && c in a
      ensures c == star
    {
      var k :| 0 <= k < |nodes[j].children| && nodes[j].children[k] == c;
      assert nodes[c].parent == Some(j);
      var t :| 0 <= t < |a| && a[t] == c;
      assert t < |a| - 1;
      assert a[t + 1] == j;
      AncestryDistinct(nodes, i, n, t + 1, m);
    }
  }

  /** `addValue` applied to a leaf keeps every inner cluster's value equal to the sum of
      its children's values (and, since only values change, the whole tree invariant). */
  lemma PropagateKeepsTree(nodes: seq<Cluster>, i: nat, d: int, n: nat)
    requires TreeInv(nodes, n) && i < |nodes| && nodes[i].children == []
    ensures TreeInv(Propagate(nodes, i, d, n), n)
  {
    var r := Propagate(nodes, i, d, n);
    PropagateEffect(nodes, i, d, n);
    forall j | 0 <= j < |r| && r[j].children != []
      ensures r[j].value == SumValues(r, r[j].children)
    {
      PropagateKeepsSum(nodes, r, i, d, n, j);
    }
    ShapeKeepsTree(nodes, r, n);
  }

  /** The value sum at one cluster j survives `addValue` at a leaf i. */
  lemma PropagateKeepsSum(nodes: seq<Cluster>, r: seq<Cluster>, i: nat, d: int, n: nat, j: nat)
    requires TreeInv(nodes, n) && i < |nodes| && nodes[i].children == []
    requires r == Propagate(nodes, i, d, n)
    requires forall j :: 0 <= j < |nodes| ==>
        r[j].value == nodes[j].value + (if j in Ancestry(nodes, i, n) then d else 0)
    requires j < |nodes| && nodes[j].children != []
    ensures r[j].value == SumValues(r, r[j].children)
  {
    assert r[j].children == nodes[j].children;
    if j in Ancestry(nodes, i, n) {
      var star := AncestryChild(nodes, i, n, j);
      OnChainSum(nodes, r, i, d, n, j, star);
    } else {
      OffChainSum(nodes, r, i, d, n, j);
    }
  }

  /** A chain member above i has exactly one child on the chain, so its children's sum
      grows by d. */
  lemma OnChainSum(nodes: seq<Cluster>, r: seq<Cluster>, i: nat, d: int, n: nat, j: nat, star: nat)
    requires i < |nodes| && Chained(nodes, n) && ChildLinks(nodes) && DistinctChildren(nodes)
    requires |r| == |nodes| && j < |nodes|
    requires forall j :: 0 <= j < |nodes| ==>
        r[j].value == nodes[j].value + (if j in Ancestry(nodes, i, n) then d else 0)
    requires star in nodes[j].children && star in Ancestry(nodes, i, n)
    requires forall c :: c in nodes[j].children && c in Ancestry(nodes, i, n) ==> c == star
    ensures SumValues(r, nodes[j].children) == SumValues(nodes, nodes[j].children) + d
  {
    var cs := nodes[j].children;
    forall k | 0 <= k < |cs| && cs[k] != star
      ensures r[cs[k]].value == nodes[cs[k]].value
    {
      assert cs[k] in cs;
    }
    SumValuesShift(nodes, r, cs, star, d);
  }

  /** A cluster off the chain has no child on the chain, so its children's sum is unchanged. */
  lemma OffChainSum(nodes: seq<Cluster>, r: seq<Cluster>, i: nat, d: int, n: nat, j: nat)
    requires i < |nodes| && Chained(nodes, n) && ChildLinks(nodes) && |r| == |nodes|
    requires forall j :: 0 <= j < |nodes| ==>
        r[j].value == nodes[j].value + (if j in Ancestry(nodes, i, n) then d else 0)
    requires j < |nodes| && j !in Ancestry(nodes, i, n)
    ensures SumValues(r, nodes[j].children) == SumValues(nodes, nodes[j].children)
  {
    var a := Ancestry(nodes, i, n);
    var cs := nodes[j].children;
    forall k | 0 <= k < |cs|
      ensures cs[k] < |nodes| && nodes[cs[k]].value == r[cs[k]].value
    {
      if cs[k] in a {
        AncestryClosed(nodes, i, n, cs[k]);
      }
    }
    SumValuesUnchanged(nodes, r, cs);
  }

  /** Every part of the tree invariant except the value sums depends on the shape alone. */
  lemma ShapeKeepsTree(nodes: seq<Cluster>, r: seq<Cluster>, n: nat)
    requires TreeInv(nodes, n) && SameShape(nodes, r) && ValueSums(r)
    ensures TreeInv(r, n)
  {
    forall j | 0 <= j < |r| && r[j].children != []
      ensures r[j].size == SumSizes(r, r[j].children)
    {
      SumSizesShape(nodes, r, nodes[j].children);
    }
  }

  /** Every cell's leaf is in the tree: its chain of parents ends at the root. */
  lemma LeafReachesRoot(nodes: seq<Cluster>, i: nat, n: nat)
    requires TreeInv(nodes, n) && i < |nodes|
    ensures n >= 2 ==> var a := Ancestry(nodes, i, n); a[|a| - 1] == n
  {
    AncestryLinks(nodes, i, n);
  }
}
