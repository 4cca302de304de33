/** The value-cluster tree as a mutable object: the arena of clusters, the recursive
    `addValue` (main.go:58-68) and the recursive quadrant split `addChildClusters`
    (main.go:70-118). */
module Clusters {
  import opened Grid
  import opened Quadtree
  import opened Tree
  import opened Build
  import opened Split

  class ValueTree {
    /** Every cluster; `*valueCluster` pointers become indices into this sequence. */
    var nodes: seq<Cluster>
    /** The number of leaves (grid cells); the root built by `makeGameMap` is nodes[leafCount]. */
    const leafCount: nat

    constructor (clusters: seq<Cluster>, n: nat)
      ensures nodes == clusters && leafCount == n
    {
      nodes := clusters;
      leafCount := n;
    }

    /** `addValue` (main.go:58-68): add `value` here and, recursively, at the parent. */
    method AddValue(i: nat, value: int)
      requires i < |nodes| && Chained(nodes, leafCount)
      modifies this
      ensures nodes == Propagate(old(nodes), i, value, leafCount)
      decreases leafCount - nodes[i].size
    {
      nodes := nodes[i := nodes[i].(value := nodes[i].value + value)];
      ChainedShape(old(nodes), nodes, leafCount);
      if nodes[i].parent.Some? {
        AddValue(nodes[i].parent.value, value);
      }
    }

    /** `addChildClusters` (main.go:70-118) on cluster v, whose cells are `base`: split the
        cells into the four quadrants around v's position (their centroid) and give v one
        child per non-empty quadrant, recursively. */
    method AddChildClusters(v: nat, base: seq<Entry>, ghost above: set<nat>)
      requires SplitReady(nodes, leafCount, above, v, base)
      modifies this
      ensures SplitDone(old(nodes), nodes, leafCount, above, v, base)
      decreases |base|, 0
    {
      if nodes[v].size == 1 {
        SplitSingle(nodes, leafCount, above, v, base);
        return;
      }
      ghost var o := nodes;
      var centre := nodes[v].position;
      var quadrants := Bucket(base, centre);
      LoopStart(o, leafCount, above, v, base);
      for k := 0 to 4
        invariant SplitLoop(o, nodes, leafCount, above, v, base, k)
      {
        QuadrantAt(base, centre, k);
        LoopReady(o, nodes, leafCount, above, v, base, k);
        ghost var before := nodes;
        AddQuadrant(v, quadrants[k], above);
        LoopStep(o, before, nodes, leafCount, above, v, base, k);
      }
      LoopEnd(o, nodes, leafCount, above, v, base);
    }

    /** One iteration of the quadrant loop (main.go:99-117): skip an empty quadrant; give a
        one-cell quadrant's existing leaf the parent v; give a larger quadrant a fresh
        cluster at its centroid with parent v; append the child to v's children and split
        it in turn. */
    method AddQuadrant(v: nat, q: seq<Entry>, ghost above: set<nat>)
      requires QuadrantReady(nodes, leafCount, above, v, q)
      modifies this
      ensures QuadrantDone(old(nodes), nodes, leafCount, above, v, q)
      decreases |q|, 1
    {
      if |q| == 0 {
        QuadrantEmpty(nodes, leafCount, above, v, q);
        return;
      }
      ghost var start := nodes;
      if |q| == 1 {
        var child := q[0].leaf;
        nodes := nodes[child := nodes[child].(parent := Some(v))];
        ghost var mid := nodes;
        nodes := nodes[v := nodes[v].(children := nodes[v].children + [child])];
        ghost var linked := nodes;
        LeafReady(start, mid, linked, leafCount, above, v, q);
        AddChildClusters(child, q, above + {v});
        LeafDone(start, mid, linked, nodes, leafCount, above, v, q);
      } else {
        var centre := Centre(q);
        var child := |nodes|;
        nodes := nodes + [Cluster(centre, 0, |q|, [], Some(v))];
        ghost var mid := nodes;
        nodes := nodes[v := nodes[v].(children := nodes[v].children + [child])];
        ghost var linked := nodes;
        FreshReady(start, mid, linked, leafCount, above, v, q);
        AddChildClusters(child, q, above + {v});
        FreshDone(start, mid, linked, nodes, leafCount, above, v, q);
      }
    }
  }
}
