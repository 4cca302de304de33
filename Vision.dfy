/** What an own pac sees (main.go:219-236): from its cell, a ray in each compass direction
    runs over the torus up to and including the first wall. Every pellet on the ray that was
    not reported this turn has been eaten and becomes floor. */
module Vision {
  import opened Grid
  import opened Entities

  /** The cell holds a wall; a cell absent from the grid (Go's nil) is not a wall. */
  predicate IsWall(grid: map<Point, Obj>, p: Point) {
    p in grid && grid[p] == Wall
  }

  /** A pellet whose last report is older than this turn. */
  predicate Stale(o: Obj, turn: int) {
    o.PelletObj? && o.pellet.lastUpdated != turn
  }

  /** Two grids with walls in the same cells. */
  ghost predicate SameWalls(g1: map<Point, Obj>, g2: map<Point, Obj>) {
    forall p :: IsWall(g1, p) <==> IsWall(g2, p)
  }

  /** None of the first j - 1 steps of the ray lands on a wall. */
  ghost predicate Clear(grid: map<Point, Obj>, origin: Point, dir: Point, j: nat, width: int, height: int)
    requires width > 0 && height > 0
  {
    forall i :: 1 <= i < j ==> !IsWall(grid, Walk(origin, dir, i, width, height))
  }

  /** Cell p is on the ray, no further than its first wall. */
  ghost predicate InView(grid: map<Point, Obj>, origin: Point, dir: Point, p: Point, width: int, height: int)
    requires width > 0 && height > 0
  {
    exists j: nat :: j >= 1 && Walk(origin, dir, j, width, height) == p && Clear(grid, origin, dir, j, width, height)
  }

  /** The ray meets a wall, which is what makes `_updateViewLine` return. */
  ghost predicate RayHitsWall(grid: map<Point, Obj>, origin: Point, dir: Point, width: int, height: int)
    requires width > 0 && height > 0
  {
    exists j: nat :: j >= 1 && IsWall(grid, Walk(origin, dir, j, width, height))
  }

  /** Cell p is on one of the rays, each given as (origin, direction). */
  ghost predicate Seen(grid: map<Point, Obj>, rays: set<(Point, Point)>, p: Point, width: int, height: int)
    requires width > 0 && height > 0
  {
    exists r :: r in rays && InView(grid, r.0, r.1, p, width, height)
  }

  /** The grid after the rays have been walked: stale pellets in view become floor. */
  ghost function ClearedBy(grid: map<Point, Obj>, rays: set<(Point, Point)>, width: int, height: int,
                           turn: int): (g: map<Point, Obj>)
    requires width > 0 && height > 0
    ensures g.Keys == grid.Keys && SameWalls(grid, g)
    ensures forall p :: p in grid && !Stale(grid[p], turn) ==> g[p] == grid[p]
    ensures forall p :: p in g ==> !Stale(g[p], turn) || g[p] == grid[p]
  {
    map p | p in grid :: if Stale(grid[p], turn) && Seen(grid, rays, p, width, height) then Floor else grid[p]
  }

  /** The four rays of a pac standing on each of the origins. */
  ghost function Rays(origins: set<Point>): set<(Point, Point)> {
    set o, d | o in origins && d in Compass :: (o, d)
  }

  /** Views depend on the walls alone. */
  lemma SameWallsView(g1: map<Point, Obj>, g2: map<Point, Obj>, origin: Point, dir: Point, width: int, height: int)
    requires width > 0 && height > 0 && SameWalls(g1, g2)
    ensures forall p :: InView(g1, origin, dir, p, width, height) <==> InView(g2, origin, dir, p, width, height)
    ensures RayHitsWall(g1, origin, dir, width, height) <==> RayHitsWall(g2, origin, dir, width, height)
  {
    forall j: nat
      ensures Clear(g1, origin, dir, j, width, height) <==> Clear(g2, origin, dir, j, width, height)
    {
    }
  }

  lemma SameWallsSeen(g1: map<Point, Obj>, g2: map<Point, Obj>, rays: set<(Point, Point)>, width: int, height: int)
    requires width > 0 && height > 0 && SameWalls(g1, g2)
    ensures forall p :: Seen(g1, rays, p, width, height) <==> Seen(g2, rays, p, width, height)
  {
    forall r | r in rays {
      SameWallsView(g1, g2, r.0, r.1, width, height);
    }
  }

  /** With its first wall t steps away, a ray sees exactly the cells of its first t steps. */
  lemma FirstWallView(grid: map<Point, Obj>, origin: Point, dir: Point, t: nat, p: Point, width: int, height: int)
    requires width > 0 && height > 0 && t >= 1
    requires Clear(grid, origin, dir, t, width, height) && IsWall(grid, Walk(origin, dir, t, width, height))
    ensures InView(grid, origin, dir, p, width, height) <==>
      exists i: nat :: 1 <= i <= t && Walk(origin, dir, i, width, height) == p
  {
    if InView(grid, origin, dir, p, width, height) {
      ViewWithinWall(grid, origin, dir, t, p, width, height);
    }
    if exists i: nat :: 1 <= i <= t && Walk(origin, dir, i, width, height) == p {
      WithinWallView(grid, origin, dir, t, p, width, height);
    }
  }

  lemma ViewWithinWall(grid: map<Point, Obj>, origin: Point, dir: Point, t: nat, p: Point, width: int, height: int)
    requires width > 0 && height > 0 && t >= 1
    requires IsWall(grid, Walk(origin, dir, t, width, height))
    requires InView(grid, origin, dir, p, width, height)
    ensures exists i: nat :: 1 <= i <= t && Walk(origin, dir, i, width, height) == p
  {
    var j: nat :| j >= 1 && Walk(origin, dir, j, width, height) == p && Clear(grid, origin, dir, j, width, height);
    assert 1 <= j <= t && Walk(origin, dir, j, width, height) == p;
  }

  lemma WithinWallView(grid: map<Point, Obj>, origin: Point, dir: Point, t: nat, p: Point, width: int, height: int)
    requires width > 0 && height > 0
    requires Clear(grid, origin, dir, t, width, height)
    requires exists i: nat :: 1 <= i <= t && Walk(origin, dir, i, width, height) == p
    ensures InView(grid, origin, dir, p, width, height)
  {
    var i: nat :| 1 <= i <= t && Walk(origin, dir, i, width, height) == p;
    assert Clear(grid, origin, dir, i, width, height);
  }

  /** Walking more rays over a grid the earlier rays have cleared is the same as
      clearing for all the rays at once; so the order of the rays does not matter. */
  lemma ClearUnion(grid: map<Point, Obj>, rays: set<(Point, Point)>, more: set<(Point, Point)>,
                   width: int, height: int, turn: int)
    requires width > 0 && height > 0
    ensures ClearedBy(ClearedBy(grid, rays, width, height, turn), more, width, height, turn) ==
      ClearedBy(grid, rays + more, width, height, turn)
  {
    var g1 := ClearedBy(grid, rays, width, height, turn);
    SameWallsSeen(grid, g1, more, width, height);
    var lhs := ClearedBy(g1, more, width, height, turn);
    var rhs := ClearedBy(grid, rays + more, width, height, turn);
    forall p | p in grid
      ensures lhs[p] == rhs[p]
    {
      if Seen(grid, rays + more, p, width, height) && !Seen(grid, rays, p, width, height) {
        var r :| r in rays + more && InView(grid, r.0, r.1, p, width, height);
        assert r in more;
      }
    }
  }

  /** Walking a ray again changes nothing. */
  lemma ClearTwice(grid: map<Point, Obj>, rays: set<(Point, Point)>, width: int, height: int, turn: int)
    requires width > 0 && height > 0
    ensures ClearedBy(ClearedBy(grid, rays, width, height, turn), rays, width, height, turn) ==
      ClearedBy(grid, rays, width, height, turn)
  {
    var g1 := ClearedBy(grid, rays, width, height, turn);
    SameWallsSeen(grid, g1, rays, width, height);
  }

  /** No ray, no change. */
  lemma ClearNone(grid: map<Point, Obj>, width: int, height: int, turn: int)
    requires width > 0 && height > 0
    ensures ClearedBy(grid, {}, width, height, turn) == grid
  {
  }

  /** The rays of one more origin. */
  lemma RaysAdd(origins: set<Point>, o: Point)
    ensures Rays(origins + {o}) == Rays(origins) + set d | d in Compass :: (o, d)
  {
  }
}
