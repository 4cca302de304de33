/** The coordinate side of the value-cluster quadtree: the point-to-cluster maps that
    `addChildClusters` splits, their centroid (`getCentre`) and the split into four
    quadrants around it, with the facts that make the split a partition and make the
    recursion terminate. */
module Quadtree {
  import opened Grid

  /** One entry of a Go `map[point]*valueCluster`: a cell and the arena index of its leaf.
      A map is a sequence of entries with distinct cells; its order stands for Go's map
      iteration order, which nothing below depends on. */
  datatype Entry = Entry(pos: Point, leaf: nat)

  /** The cells of the entries are pairwise distinct, and so are their leaves. */
  ghost predicate Distinct(es: seq<Entry>) {
    (forall i, j :: 0 <= i < j < |es| ==> es[i].pos != es[j].pos) &&
    (forall i, j :: 0 <= i < j < |es| ==> es[i].leaf != es[j].leaf)
  }

  ghost predicate NonNegative(es: seq<Entry>) {
    forall i :: 0 <= i < |es| ==> es[i].pos.x >= 0 && es[i].pos.y >= 0
  }

  /** The x (axis 0) or y (axis 1) coordinate. */
  function Coord(p: Point, axis: nat): int {
    if axis == 0 then p.x else p.y
  }

  function SumCoord(es: seq<Entry>, axis: nat): int
  {
    if es == [] then 0 else SumCoord(es[..|es| - 1], axis) + Coord(es[|es| - 1].pos, axis)
  }

  /** The truncating mean of the cells (main.go:269). */
  function CentreOf(es: seq<Entry>): Point
    requires |es| > 0
  {
    Point(GoDiv(SumCoord(es, 0), |es|), GoDiv(SumCoord(es, 1), |es|))
  }

  /** `getCentre` (main.go:260-270): sums both coordinates in one pass and divides by the
      number of entries with Go's truncating division. */
  method Centre(points: seq<Entry>) returns (c: Point)
    requires |points| > 0
    ensures c == CentreOf(points)
  {
    var sumX, sumY := 0, 0;
    for i := 0 to |points|
      invariant sumX == SumCoord(points[..i], 0)
      invariant sumY == SumCoord(points[..i], 1)
    {
      assert points[..i + 1][..i] == points[..i];
      sumX := sumX + points[i].pos.x;
      sumY := sumY + points[i].pos.y;
    }
    assert points[..|points|] == points;
    c := Point(GoDiv(sumX, |points|), GoDiv(sumY, |points|));
  }

  lemma MulCancel(n: int, a: int, b: int)
    requires n > 0 && n * a < n * (b + 1)
    ensures a <= b
  {
    assert n * (b + 1) - n * a == n * (b + 1 - a);
  }

  lemma {:induction false} SumWithin(es: seq<Entry>, axis: nat, lo: int, hi: int)
    requires forall i :: 0 <= i < |es| ==> lo <= Coord(es[i].pos, axis) <= hi
    ensures |es| * lo <= SumCoord(es, axis) <= |es| * hi
  {
    if es != [] {
      var init := es[..|es| - 1];
      assert forall i :: 0 <= i < |init| ==> init[i] == es[i];
      SumWithin(init, axis, lo, hi);
      assert |es| * lo == |init| * lo + lo;
      assert |es| * hi == |init| * hi + hi;
    }
  }

  /** The centroid lies in every box that holds all the cells, so in their bounding box;
      this holds for any sign of the coordinates because Go truncates toward zero. */
  lemma CentreInBox(es: seq<Entry>, lo: Point, hi: Point)
    requires |es| > 0
    requires forall i :: 0 <= i < |es| ==> lo.x <= es[i].pos.x <= hi.x && lo.y <= es[i].pos.y <= hi.y
    ensures lo.x <= CentreOf(es).x <= hi.x
    ensures lo.y <= CentreOf(es).y <= hi.y
  {
    CoordInBox(es, 0, lo.x, hi.x);
    CoordInBox(es, 1, lo.y, hi.y);
  }

  lemma CoordInBox(es: seq<Entry>, axis: nat, lo: int, hi: int)
    requires |es| > 0
    requires forall i :: 0 <= i < |es| ==> lo <= Coord(es[i].pos, axis) <= hi
    ensures lo <= GoDiv(SumCoord(es, axis), |es|) <= hi
  {
    var n, s := |es|, SumCoord(es, axis);
    var q := GoDiv(s, n);
    SumWithin(es, axis, lo, hi);
    var nq, nlo, nhi := n * q, n * lo, n * hi;
    assert nlo <= s <= nhi;
    assert -n < s - nq < n;
    MulStep(n, q);
    MulStep(n, hi);
    MulStep(n, lo);
    if s >= 0 {
      MulCancel(n, q, hi);
      MulCancel(n, lo, q);
    } else {
      MulCancel(n, lo, q);
      MulCancel(n, q, hi);
    }
  }

  lemma MulStep(n: int, a: int)
    ensures n * (a + 1) == n * a + n
  {
  }

  /** The quadrant of `p` around `centre` (main.go:84-94): 0 is left-top, 1 left-bottom,
      2 right-top, 3 right-bottom, cells on the centre lines going left and top. */
  function QuadrantOf(p: Point, centre: Point): (k: nat)
    ensures k < 4
    ensures (k == 0 || k == 1) <==> p.x <= centre.x
    ensures (k == 0 || k == 2) <==> p.y <= centre.y
  {
    if p.x <= centre.x && p.y <= centre.y then 0
    else if p.x <= centre.x && p.y > centre.y then 1
    else if p.x > centre.x && p.y <= centre.y then 2
    else 3
  }

  /** The entries that fall in quadrant k, in their original order. */
  function Filter(es: seq<Entry>, centre: Point, k: nat): (q: seq<Entry>)
    ensures |q| <= |es|
  {
    if es == [] then []
    else Filter(es[..|es| - 1], centre, k) +
         (if QuadrantOf(es[|es| - 1].pos, centre) == k then [es[|es| - 1]] else [])
  }

  /** The four quadrant maps built by the bucketing loop of `addChildClusters`. */
  function Quadrants(es: seq<Entry>, centre: Point): (qs: seq<seq<Entry>>)
    ensures |qs| == 4
  {
    [Filter(es, centre, 0), Filter(es, centre, 1), Filter(es, centre, 2), Filter(es, centre, 3)]
  }

  /** The bucketing loop of `addChildClusters` (main.go:75-97): every entry is appended to
      the quadrant its cell belongs to. */
  method Bucket(base: seq<Entry>, centre: Point) returns (quadrants: seq<seq<Entry>>)
    ensures quadrants == Quadrants(base, centre)
  {
    quadrants := [[], [], [], []];
    for i := 0 to |base|
      invariant |quadrants| == 4
      invariant forall k :: 0 <= k < 4 ==> quadrants[k] == Filter(base[..i], centre, k)
    {
      assert base[..i + 1][..i] == base[..i];
      var quadrant := QuadrantOf(base[i].pos, centre);
      quadrants := quadrants[quadrant := quadrants[quadrant] + [base[i]]];
    }
    assert base[..|base|] == base;
  }

  /** An entry is in quadrant k exactly when it is an entry whose cell lies in quadrant k;
      hence every entry lands in exactly one quadrant. */
  lemma {:induction false} FilterMembers(es: seq<Entry>, centre: Point, k: nat, e: Entry)
    ensures e in Filter(es, centre, k) <==> e in es && QuadrantOf(e.pos, centre) == k
  {
    if es != [] {
      var init := es[..|es| - 1];
      FilterMembers(init, centre, k, e);
      assert es == init + [es[|es| - 1]];
    }
  }

  /** The four quadrants' sizes add up to the whole map (no entry lost or doubled). */
  lemma {:induction false} QuadrantSizes(es: seq<Entry>, centre: Point)
    ensures |Filter(es, centre, 0)| + |Filter(es, centre, 1)| +
            |Filter(es, centre, 2)| + |Filter(es, centre, 3)| == |es|
  {
    if es != [] {
      QuadrantSizes(es[..|es| - 1], centre);
    }
  }

  /** Each quadrant of a map of distinct cells is itself a map of distinct cells and
      distinct leaves, and has only cells of the whole map. */
  lemma {:induction false} FilterDistinct(es: seq<Entry>, centre: Point, k: nat)
    requires Distinct(es)
    ensures Distinct(Filter(es, centre, k))
    ensures forall e :: e in Filter(es, centre, k) ==> e in es
  {
    if es != [] {
      var init := es[..|es| - 1];
      var last := es[|es| - 1];
      assert forall i :: 0 <= i < |init| ==> init[i] == es[i];
      FilterDistinct(init, centre, k);
      var f := Filter(init, centre, k);
      forall i | 0 <= i < |f|
        ensures f[i].pos != last.pos && f[i].leaf != last.leaf
      {
        assert f[i] in init;
      }
      forall e | e in Filter(es, centre, k)
        ensures e in es
      {
        if e in f {
          assert e in init;
        }
      }
    }
  }

  /** In a map of distinct cells an entry is determined by its leaf. */
  lemma DistinctLeaf(es: seq<Entry>, e1: Entry, e2: Entry)
    requires Distinct(es) && e1 in es && e2 in es && e1.leaf == e2.leaf
    ensures e1 == e2
  {
    var i :| 0 <= i < |es| && es[i] == e1;
    var j :| 0 <= j < |es| && es[j] == e2;
  }

  /** A quadrant of cells with non-negative coordinates has non-negative coordinates. */
  lemma FilterNonNegative(es: seq<Entry>, centre: Point, k: nat)
    requires Distinct(es) && NonNegative(es)
    ensures NonNegative(Filter(es, centre, k))
  {
    FilterDistinct(es, centre, k);
    var q := Filter(es, centre, k);
    forall i | 0 <= i < |q|
      ensures q[i].pos.x >= 0 && q[i].pos.y >= 0
    {
      assert q[i] in es;
    }
  }

  /** When all entries of a map fall in quadrant k, quadrant k is the whole map. */
  lemma {:induction false} FilterAll(es: seq<Entry>, centre: Point, k: nat)
    requires |Filter(es, centre, k)| == |es|
    ensures forall i :: 0 <= i < |es| ==> QuadrantOf(es[i].pos, centre) == k
  {
    if es != [] {
      var init := es[..|es| - 1];
      assert |Filter(init, centre, k)| <= |init|;
      FilterAll(init, centre, k);
      assert forall i :: 0 <= i < |init| ==> init[i] == es[i];
    }
  }

  /** Coordinates bounded by c sum to at most n*c, and reach it only when all equal c. */
  lemma {:induction false} SumAtMost(es: seq<Entry>, axis: nat, c: int)
    requires forall i :: 0 <= i < |es| ==> Coord(es[i].pos, axis) <= c
    ensures SumCoord(es, axis) <= |es| * c
    ensures SumCoord(es, axis) == |es| * c ==> forall i :: 0 <= i < |es| ==> Coord(es[i].pos, axis) == c
  {
    if es != [] {
      var init := es[..|es| - 1];
      assert forall i :: 0 <= i < |init| ==> init[i] == es[i];
      SumAtMost(init, axis, c);
      assert |es| * c == |init| * c + c;
    }
  }

  /** Termination of `addChildClusters` (main.go:71-116): around the truncated centroid
      of at least two distinct non-negative cells, no quadrant holds every cell. */
  lemma QuadrantSmaller(es: seq<Entry>, k: nat)
    requires |es| >= 2 && Distinct(es) && NonNegative(es)
    ensures |Filter(es, CentreOf(es), k)| < |es|
  {
    var c := CentreOf(es);
    if |Filter(es, c, k)| == |es| {
      FilterAll(es, c, k);
      if k == 0 {
        AllAtCentre(es, 0);
        AllAtCentre(es, 1);
      } else if k == 1 {
        NotAllAbove(es, 1);
      } else {
        NotAllAbove(es, 0);
      }
    }
  }

  /** Non-negative coordinates none of which exceeds their truncated mean all equal it. */
  lemma AllAtCentre(es: seq<Entry>, axis: nat)
    requires |es| > 0 && NonNegative(es)
    requires forall i :: 0 <= i < |es| ==> Coord(es[i].pos, axis) <= GoDiv(SumCoord(es, axis), |es|)
    ensures forall i :: 0 <= i < |es| ==> Coord(es[i].pos, axis) == GoDiv(SumCoord(es, axis), |es|)
  {
    var n, s := |es|, SumCoord(es, axis);
    var q := GoDiv(s, n);
    NonNegativeSum(es, axis);
    SumAtMost(es, axis, q);
  }

  /** Not every coordinate lies above the truncated mean. */
  lemma NotAllAbove(es: seq<Entry>, axis: nat)
    requires |es| > 0
    ensures exists i :: 0 <= i < |es| && Coord(es[i].pos, axis) <= GoDiv(SumCoord(es, axis), |es|)
  {
    var n, s := |es|, SumCoord(es, axis);
    var q := GoDiv(s, n);
    if forall i :: 0 <= i < |es| ==> Coord(es[i].pos, axis) >= q + 1 {
      SumAtLeast(es, axis, q + 1);
      MulStep(n, q);
      assert false;
    }
  }

  /** Coordinates bounded below by c sum to at least n*c. */
  lemma {:induction false} SumAtLeast(es: seq<Entry>, axis: nat, c: int)
    requires forall i :: 0 <= i < |es| ==> Coord(es[i].pos, axis) >= c
    ensures SumCoord(es, axis) >= |es| * c
  {
    if es != [] {
      var init := es[..|es| - 1];
      assert forall i :: 0 <= i < |init| ==> init[i] == es[i];
      SumAtLeast(init, axis, c);
      assert |es| * c == |init| * c + c;
    }
  }

  lemma {:induction false} NonNegativeSum(es: seq<Entry>, axis: nat)
    requires NonNegative(es)
    ensures SumCoord(es, axis) >= 0
  {
    if es != [] {
      var init := es[..|es| - 1];
      assert forall i :: 0 <= i < |init| ==> init[i] == es[i];
      NonNegativeSum(init, axis);
    }
  }
}
