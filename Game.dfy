/** The world state of the bot (`gameMap`, main.go:140-149): the recorded pacs, the super
    pellets, the grid of cell contents and the value-cluster tree over the cells. */
module Game {
  import opened Grid
  import opened Entities
  import opened Quadtree
  import opened Tree
  import opened Build
  import opened Split
  import opened Clusters
  import opened Descent
  import opened Vision

  /** What `chooseAction` decides for a pac (main.go:364-379): sprint, move to a target, or
      hang in a descent that never ends. */
  datatype Action = Speed(id: int) | Move(id: int, target: Point) | Hang(id: int)

  /** The cluster tree of a width x height grid: a built tree (every value a sum of its
      children's), leaves exactly for the cells found through `valueGrid`, and `top` the
      copy of the root taken when the tree was built, with its value still 0. */
  ghost predicate Indexed(nodes: seq<Cluster>, n: nat, width: int, height: int,
                          valueGrid: map<Point, nat>, top: Cluster) {
    width >= 1 && height >= 1 && TreeInv(nodes, n) && n == width * height &&
    (forall p :: p in valueGrid <==> InBox(p, width, height)) &&
    Locates(nodes, n, valueGrid) &&
    (forall i :: 0 <= i < n ==> InBox(nodes[i].position, width, height)) &&
    InBox(nodes[n].position, width, height) &&
    top == nodes[n].(value := 0)
  }

  /** `valueGrid` maps each cell to the leaf at that cell. */
  ghost predicate Locates(nodes: seq<Cluster>, n: nat, valueGrid: map<Point, nat>) {
    n < |nodes| && forall p :: p in valueGrid ==> valueGrid[p] < n && nodes[valueGrid[p]].position == p
  }

  /** A change of values alone keeps the tree indexed. */
  lemma IndexedShape(a: seq<Cluster>, b: seq<Cluster>, n: nat, width: int, height: int,
                     valueGrid: map<Point, nat>, top: Cluster)
    requires Indexed(a, n, width, height, valueGrid, top) && SameShape(a, b) && TreeInv(b, n)
    ensures Indexed(b, n, width, height, valueGrid, top)
  {
    assert b[n].(value := 0) == a[n].(value := 0);
  }

  /** Leaf i is a fresh single-cell cluster at the cell of entry i; the entries are the
      cells of the width x height grid, each once, and `valueGrid` finds each cell's leaf. */
  ghost predicate Cells(leaves: seq<Cluster>, entries: seq<Entry>, valueGrid: map<Point, nat>,
                        width: int, height: int) {
    |leaves| == |entries| &&
    (forall i :: 0 <= i < |entries| ==>
      entries[i].leaf == i && leaves[i] == Cluster(entries[i].pos, 0, 1, [], None) &&
      InBox(entries[i].pos, width, height)) &&
    Distinct(entries) &&
    (forall p :: p in valueGrid <==> InBox(p, width, height)) &&
    (forall p :: p in valueGrid ==> valueGrid[p] < |entries| && entries[valueGrid[p]].pos == p)
  }

  /** Cell p comes before cell (x, y) when the cells are listed column by column. */
  predicate Before(p: Point, x: int, y: int, h: int) {
    (0 <= p.x < x && 0 <= p.y < h) || (p.x == x && 0 <= p.y < y)
  }

  /** The state of the leaf loops of `makeGameMap` when about to create the leaf of (x, y). */
  ghost predicate Filled(leaves: seq<Cluster>, entries: seq<Entry>, vg: map<Point, nat>, x: int, y: int, h: int) {
    x >= 0 && |leaves| == |entries| == x * h + y &&
    (forall i :: 0 <= i < |entries| ==>
      entries[i].leaf == i && leaves[i] == Cluster(entries[i].pos, 0, 1, [], None) &&
      Before(entries[i].pos, x, y, h)) &&
    Distinct(entries) &&
    (forall p :: p in vg <==> Before(p, x, y, h)) &&
    (forall p :: p in vg ==> vg[p] < |entries| && entries[vg[p]].pos == p)
  }

  lemma FillCell(leaves: seq<Cluster>, entries: seq<Entry>, vg: map<Point, nat>, x: int, y: int, h: int)
    requires Filled(leaves, entries, vg, x, y, h) && 0 <= y < h
    ensures Filled(leaves + [Cluster(Point(x, y), 0, 1, [], None)], entries + [Entry(Point(x, y), |leaves|)],
                   vg[Point(x, y) := |leaves|], x, y + 1, h)
  {
    var e2 := entries + [Entry(Point(x, y), |leaves|)];
    forall i, j | 0 <= i < j < |e2|
      ensures e2[i].pos != e2[j].pos && e2[i].leaf != e2[j].leaf
    {
      if j == |entries| {
        assert Before(e2[i].pos, x, y, h);
      }
    }
  }

  lemma FillColumn(leaves: seq<Cluster>, entries: seq<Entry>, vg: map<Point, nat>, x: int, h: int)
    requires Filled(leaves, entries, vg, x, h, h)
    ensures Filled(leaves, entries, vg, x + 1, 0, h)
  {
    assert x * h + h == (x + 1) * h;
  }

  /** The two nested loops of `makeGameMap` (main.go:121-127) creating a leaf per cell,
      column by column. */
  method MakeLeaves(w: int, h: int) returns (leaves: seq<Cluster>, entries: seq<Entry>, vg: map<Point, nat>)
    requires w >= 1 && h >= 1
    ensures Cells(leaves, entries, vg, w, h) && |leaves| == w * h && |leaves| >= 1
  {
    leaves, entries, vg := [], [], map[];
    for x := 0 to w
      invariant Filled(leaves, entries, vg, x, 0, h)
    {
      for y := 0 to h
        invariant Filled(leaves, entries, vg, x, y, h)
      {
        FillCell(leaves, entries, vg, x, y, h);
        var p := Point(x, y);
        vg := vg[p := |leaves|];
        entries := entries + [Entry(p, |leaves|)];
        leaves := leaves + [Cluster(p, 0, 1, [], None)];
      }
      FillColumn(leaves, entries, vg, x, h);
    }
    assert Point(0, 0) in vg;
  }

  /** The arena of leaves and a childless root at `centre` is ready to be split. */
  lemma ReadyToSplit(leaves: seq<Cluster>, entries: seq<Entry>, vg: map<Point, nat>, w: int, h: int,
                     centre: Point, nodes: seq<Cluster>)
    requires w >= 1 && h >= 1 && Cells(leaves, entries, vg, w, h) && |entries| >= 1
    requires centre == CentreOf(entries)
    requires nodes == leaves + [Cluster(centre, 0, |leaves|, [], None)]
    ensures SplitReady(nodes, |leaves|, {}, |leaves|, entries)
    ensures InBox(centre, w, h)
  {
    var n := |leaves|;
    CentreInBox(entries, Point(0, 0), Point(w - 1, h - 1));
    StartBuilding(nodes, n);
    assert {} + {n} == {n};
    forall e | e in entries
      ensures e.leaf < n && nodes[e.leaf].parent == None
    {
    }
  }

  /** Once split, the arena is the tree of the grid. */
  lemma SplitIndexed(leaves: seq<Cluster>, entries: seq<Entry>, vg: map<Point, nat>, w: int, h: int,
                     nodes: seq<Cluster>, built: seq<Cluster>)
    requires w >= 1 && h >= 1 && Cells(leaves, entries, vg, w, h) && |leaves| == w * h
    requires |nodes| == |leaves| + 1 && InBox(nodes[|leaves|].position, w, h)
    requires forall i :: 0 <= i < |leaves| ==> nodes[i] == leaves[i]
    requires SplitDone(nodes, built, |leaves|, {}, |leaves|, entries)
    ensures Indexed(built, |leaves|, w, h, vg, built[|leaves|]) && AllZero(built)
  {
    var n := |leaves|;
    forall i | 0 <= i < n
      ensures n >= 2 ==> built[i].parent.Some?
    {
      assert entries[i] in entries;
    }
    Built(built, n);
  }

  /** The grid with each of `cells` set to floor (inserted where absent). */
  function Floored(grid: map<Point, Obj>, cells: set<Point>): (g: map<Point, Obj>)
    ensures g.Keys == grid.Keys + cells
  {
    map p | p in grid.Keys + cells :: if p in cells then Floor else grid[p]
  }

  /** Cells of super pellets not reported this turn. */
  function ExpiredPellets(pellets: map<Point, Pellet>, turn: int): set<Point> {
    set p | p in pellets && pellets[p].lastUpdated != turn
  }

  /** The super pellets reported this turn. */
  function LivePellets(pellets: map<Point, Pellet>, turn: int): map<Point, Pellet> {
    map p | p in pellets && pellets[p].lastUpdated == turn :: pellets[p]
  }

  /** Cells of the pacs not reported this turn. */
  function StaleCells(pacs: map<int, Pac>, turn: int): set<Point> {
    set id | id in pacs && pacs[id].lastUpdated != turn :: pacs[id].position
  }

  /** The pacs reported this turn. */
  function LivePacs(pacs: map<int, Pac>, turn: int): map<int, Pac> {
    map id | id in pacs && pacs[id].lastUpdated == turn :: pacs[id]
  }

  /** The cells the pacs stand on. */
  function Positions(pacs: map<int, Pac>): set<Point> {
    set id | id in pacs :: pacs[id].position
  }

  /** Adding to a leaf's value along its chain of ancestors (main.go:58-68) changes no
      other leaf and keeps the tree a tree. */
  lemma LeafAlone(a: seq<Cluster>, b: seq<Cluster>, n: nat, leaf: nat, d: int)
    requires TreeInv(a, n) && leaf < n && b == Propagate(a, leaf, d, n)
    ensures TreeInv(b, n) && SameShape(a, b) && b[leaf].value == a[leaf].value + d
    ensures forall j :: 0 <= j < n && j != leaf ==> b[j].value == a[j].value
  {
    PropagateKeepsTree(a, leaf, d, n);
    LeafValues(a, b, n, leaf, d);
  }

  lemma LeafValues(a: seq<Cluster>, b: seq<Cluster>, n: nat, leaf: nat, d: int)
    requires LeavesFirst(a, n) && Chained(a, n) && leaf < n && b == Propagate(a, leaf, d, n)
    ensures SameShape(a, b) && b[leaf].value == a[leaf].value + d
    ensures forall j :: 0 <= j < n && j != leaf ==> b[j].value == a[j].value
  {
    PropagateEffect(a, leaf, d, n);
    forall j | 0 <= j < n && j != leaf
      ensures j !in Ancestry(a, leaf, n)
    {
      OffChainLeaf(a, n, leaf, j);
    }
  }

  /** No leaf is an ancestor of another: every ancestor above a leaf is larger than it. */
  lemma OffChainLeaf(a: seq<Cluster>, n: nat, leaf: nat, j: nat)
    requires LeavesFirst(a, n) && Chained(a, n) && leaf < n && j < n && j != leaf
    ensures j !in Ancestry(a, leaf, n)
  {
    AncestryLinks(a, leaf, n);
  }

  /** The children of the stale root copy hang below it as they do below the root. */
  lemma TopHung(nodes: seq<Cluster>, n: nat, w: int, h: int, vg: map<Point, nat>, top: Cluster)
    requires Indexed(nodes, n, w, h, vg, top)
    ensures Hung(nodes, top)
  {
    ChildHung(nodes, n, n);
  }

  /** What `getNextTarget` (main.go:381-419) finds for a pac at `pos`: the descent from the
      root copy over the tree in which the pac's own leaf is raised by 5, so that the pac
      does not flee from itself. A target it reaches is a cell of the grid. */
  ghost function NextTarget(nodes: seq<Cluster>, n: nat, w: int, h: int, vg: map<Point, nat>,
                            top: Cluster, pos: Point): (o: Outcome)
    requires Indexed(nodes, n, w, h, vg, top) && InBox(pos, w, h)
    ensures o.Reached? ==> InBox(o.target, w, h)
  {
    var lifted := Propagate(nodes, vg[pos], -MyPacValue, n);
    PropagateKeepsTree(nodes, vg[pos], -MyPacValue, n);
    IndexedShape(nodes, lifted, n, w, h, vg, top);
    TopHung(lifted, n, w, h, vg, top);
    ReachedCell(lifted, n, w, h, vg, top, pos);
    Descend(lifted, n, top, pos)
  }

  /** What the descent of `getNextTarget` needs of the lifted tree, and what it finds. */
  lemma LiftReady(nodes: seq<Cluster>, lifted: seq<Cluster>, n: nat, w: int, h: int, vg: map<Point, nat>,
                  top: Cluster, pos: Point)
    requires Indexed(nodes, n, w, h, vg, top) && InBox(pos, w, h)
    requires lifted == Propagate(nodes, vg[pos], -MyPacValue, n)
    ensures Indexed(lifted, n, w, h, vg, top) && Chained(lifted, n) && ChildLinks(lifted) && Hung(lifted, top)
    ensures Descend(lifted, n, top, pos) == NextTarget(nodes, n, w, h, vg, top, pos)
    ensures Descend(lifted, n, top, pos).Reached? ==> InBox(Descend(lifted, n, top, pos).target, w, h)
  {
    PropagateKeepsTree(nodes, vg[pos], -MyPacValue, n);
    IndexedShape(nodes, lifted, n, w, h, vg, top);
    TopHung(lifted, n, w, h, vg, top);
  }

  /** Lifting the leaf of a cell that holds the pac itself cancels the pac's own value, so
      the descent sees its cell as empty, and leaves every other cell's leaf alone. */
  lemma LiftCancelsSelf(nodes: seq<Cluster>, n: nat, w: int, h: int, vg: map<Point, nat>,
                        top: Cluster, pos: Point)
    requires Indexed(nodes, n, w, h, vg, top) && InBox(pos, w, h)
    requires nodes[vg[pos]].value == MyPacValue
    ensures var lifted := Propagate(nodes, vg[pos], -MyPacValue, n);
      lifted[vg[pos]].value == 0 &&
      forall p :: p in vg && p != pos ==> lifted[vg[p]].value == nodes[vg[p]].value
  {
    var lifted := Propagate(nodes, vg[pos], -MyPacValue, n);
    LeafAlone(nodes, lifted, n, vg[pos], -MyPacValue);
    forall p | p in vg && p != pos
      ensures lifted[vg[p]].value == nodes[vg[p]].value
    {
      assert nodes[vg[p]].position != nodes[vg[pos]].position;
    }
  }

  /** On any indexed tree, the descent from the root copy reaches only cells of the grid:
      a leaf's, or the root's centroid when the grid has a single cell. */
  lemma ReachedCell(nodes: seq<Cluster>, n: nat, w: int, h: int, vg: map<Point, nat>,
                    top: Cluster, pos: Point)
    requires Indexed(nodes, n, w, h, vg, top) && Hung(nodes, top)
    ensures Descend(nodes, n, top, pos).Reached? ==> InBox(Descend(nodes, n, top, pos).target, w, h)
  {
    if top.children != [] {
      var i := DescendLeaf(nodes, n, top, pos);
    }
  }

  /** The tree part of `makeGameMap` (main.go:121-130): a leaf per cell, a root over all of
      them at their centroid, split recursively. */
  method BuildTree(w: int, h: int) returns (t: ValueTree, vg: map<Point, nat>)
    requires w >= 1 && h >= 1
    ensures fresh(t) && AllZero(t.nodes) && t.leafCount < |t.nodes|
    ensures Indexed(t.nodes, t.leafCount, w, h, vg, t.nodes[t.leafCount])
  {
    var leaves, entries;
    leaves, entries, vg := MakeLeaves(w, h);
    var n := |leaves|;
    var centre := Centre(entries);
    var nodes := leaves + [Cluster(centre, 0, n, [], None)];
    ReadyToSplit(leaves, entries, vg, w, h, centre, nodes);
    t := new ValueTree(nodes, n);
    t.AddChildClusters(n, entries, {});
    SplitIndexed(leaves, entries, vg, w, h, nodes, t.nodes);
  }

  /** A member of a non-empty set of ids, as a witness for picking the next one to visit. */
  lemma Member(s: set<int>) returns (x: int)
    requires s != {}
    ensures x in s
  {
    if forall y: int :: y !in s {
      assert false;
    }
    x :| x in s;
  }

  /** Every key of m is a cell of the grid. */
  ghost predicate OnGrid<T>(m: map<Point, T>, w: int, h: int) {
    forall p :: p in m ==> InBox(p, w, h)
  }

  /** A map of pacs keyed by their ids, all of one side, all standing on cells. */
  ghost predicate Roster(pacs: map<int, Pac>, mine: bool, w: int, h: int) {
    forall id :: id in pacs ==> pacs[id].id == id && pacs[id].mine == mine && InBox(pacs[id].position, w, h)
  }

  /** Cell p is among the first t steps of the ray. */
  ghost predicate Passed(origin: Point, dir: Point, p: Point, t: nat, w: int, h: int)
    requires w > 0 && h > 0
  {
    exists i: nat :: 1 <= i <= t && Walk(origin, dir, i, w, h) == p
  }

  /** g is g0 after the first t steps of the ray: the stale pellets passed are floor. */
  ghost predicate ViewSoFar(g0: map<Point, Obj>, g: map<Point, Obj>, origin: Point, dir: Point,
                            t: nat, w: int, h: int, turn: int)
    requires w > 0 && h > 0
  {
    g.Keys == g0.Keys &&
    forall p :: p in g0 ==> g[p] == if Stale(g0[p], turn) && Passed(origin, dir, p, t, w, h) then Floor else g0[p]
  }

  /** One step of `_updateViewLine`'s loop body on the grid g at cell c. */
  function ViewCell(g: map<Point, Obj>, c: Point, turn: int): map<Point, Obj> {
    if c in g && Stale(g[c], turn) then g[c := Floor] else g
  }

  lemma ViewStart(g0: map<Point, Obj>, origin: Point, dir: Point, w: int, h: int, turn: int)
    requires w > 0 && h > 0
    ensures ViewSoFar(g0, g0, origin, dir, 0, w, h, turn)
  {
  }

  /** A step keeps the walls where they were and extends the cleared part by one cell. */
  lemma ViewStep(g0: map<Point, Obj>, g: map<Point, Obj>, origin: Point, dir: Point,
                 t: nat, w: int, h: int, turn: int)
    requires w > 0 && h > 0 && ViewSoFar(g0, g, origin, dir, t, w, h, turn)
    ensures var c := Walk(origin, dir, t + 1, w, h);
      (IsWall(g, c) <==> IsWall(g0, c)) &&
      ViewSoFar(g0, ViewCell(g, c, turn), origin, dir, t + 1, w, h, turn)
  {
    var c := Walk(origin, dir, t + 1, w, h);
    var g1 := ViewCell(g, c, turn);
    forall p | p in g0
      ensures g1[p] == if Stale(g0[p], turn) && Passed(origin, dir, p, t + 1, w, h) then Floor else g0[p]
    {
      if p == c {
        assert Passed(origin, dir, p, t + 1, w, h);
      } else if Passed(origin, dir, p, t + 1, w, h) {
        var i: nat :| 1 <= i <= t + 1 && Walk(origin, dir, i, w, h) == p;
        assert i <= t;
      }
    }
  }

  /** Once the ray reaches its first wall, the grid is the one the ray clears. */
  lemma RayEnd(g0: map<Point, Obj>, g: map<Point, Obj>, origin: Point, dir: Point,
               t: nat, w: int, h: int, turn: int)
    requires w > 0 && h > 0 && t >= 1
    requires Clear(g0, origin, dir, t, w, h) && IsWall(g0, Walk(origin, dir, t, w, h))
    requires ViewSoFar(g0, g, origin, dir, t, w, h, turn)
    ensures g == ClearedBy(g0, {(origin, dir)}, w, h, turn)
  {
    var c := ClearedBy(g0, {(origin, dir)}, w, h, turn);
    forall p | p in g0
      ensures g[p] == c[p]
    {
      FirstWallView(g0, origin, dir, t, p, w, h);
      if InView(g0, origin, dir, p, w, h) {
        assert Seen(g0, {(origin, dir)}, p, w, h);
      }
      if Seen(g0, {(origin, dir)}, p, w, h) {
        var r :| r in {(origin, dir)} && InView(g0, r.0, r.1, p, w, h);
        assert r == (origin, dir);
      }
    }
  }

  /** `_updateViewLine` (main.go:219-236): walk from `origin` one step of `dir` at a time,
      turning stale pellets into floor, until a wall. The source never returns when the ray
      meets no wall; that case is excluded. */
  method ViewLine(grid: map<Point, Obj>, origin: Point, dir: Point, w: int, h: int, turn: int)
    returns (g: map<Point, Obj>)
    requires w > 0 && h > 0 && RayHitsWall(grid, origin, dir, w, h)
    ensures g == ClearedBy(grid, {(origin, dir)}, w, h, turn)
  {
    ghost var stop: nat :| stop >= 1 && IsWall(grid, Walk(origin, dir, stop, w, h));
    g := grid;
    var current := origin;
    ghost var t: nat := 0;
    ViewStart(grid, origin, dir, w, h, turn);
    while true
      invariant t < stop && current == Walk(origin, dir, t, w, h)
      invariant Clear(grid, origin, dir, t + 1, w, h)
      invariant ViewSoFar(grid, g, origin, dir, t, w, h, turn)
      decreases stop - t
    {
      current := Step(current, dir, w, h);
      ViewStep(grid, g, origin, dir, t, w, h, turn);
      t := t + 1;
      if current in g && g[current].PelletObj? {
        if g[current].pellet.lastUpdated != turn {
          g := g[current := Floor];
        }
      } else if current in g && g[current] == Wall {
        RayEnd(grid, g, origin, dir, t, w, h, turn);
        return;
      }
    }
  }

  /** The view-ray loops of `update` (main.go:182-186): each own pac's four rays; a pac's
      rays are walked over the grid the earlier rays left. */
  method ViewAll(grid: map<Point, Obj>, pacs: map<int, Pac>, w: int, h: int, turn: int)
    returns (g: map<Point, Obj>)
    requires w > 0 && h > 0
    requires forall id, d :: id in pacs && d in Compass ==> RayHitsWall(grid, pacs[id].position, d, w, h)
    ensures g == ClearedBy(grid, Rays(Positions(pacs)), w, h, turn)
  {
    g := grid;
    var todo := pacs.Keys;
    ClearNone(grid, w, h, turn);
    assert Visited(pacs, pacs.Keys) == {};
    while todo != {}
      invariant todo <= pacs.Keys
      invariant g == ClearedBy(grid, Rays(Visited(pacs, todo)), w, h, turn)
      decreases |todo|
    {
      ghost var some := Member(todo);
      var id :| id in todo;
      var pos := pacs[id].position;
      ghost var done := Visited(pacs, todo);
      PacRaysReady(grid, g, Rays(done), pos, pacs[id], w, h, turn);
      g := PacRays(g, pos, w, h, turn);
      ClearUnion(grid, Rays(done), set d | d in Compass :: (pos, d), w, h, turn);
      RaysAdd(done, pos);
      VisitStep(pacs, todo, id);
      todo := todo - {id};
    }
    VisitEnd(pacs);
  }

  /** The cells of the pacs a loop over the ids `todo` has already visited. */
  function Visited(pacs: map<int, Pac>, todo: set<int>): (s: set<Point>)
    ensures todo == pacs.Keys ==> s == {}
  {
    set id | id in pacs && id !in todo :: pacs[id].position
  }

  lemma VisitStep(pacs: map<int, Pac>, todo: set<int>, id: int)
    requires id in todo && id in pacs
    ensures Visited(pacs, todo - {id}) == Visited(pacs, todo) + {pacs[id].position}
  {
  }

  lemma VisitEnd(pacs: map<int, Pac>)
    ensures Visited(pacs, {}) == Positions(pacs)
  {
  }

  lemma PacRaysReady(grid: map<Point, Obj>, g: map<Point, Obj>, rays: set<(Point, Point)>, pos: Point,
                     pac: Pac, w: int, h: int, turn: int)
    requires w > 0 && h > 0 && g == ClearedBy(grid, rays, w, h, turn) && pac.position == pos
    requires forall d :: d in Compass ==> RayHitsWall(grid, pac.position, d, w, h)
    ensures forall d :: d in Compass ==> RayHitsWall(g, pos, d, w, h)
  {
    forall d | d in Compass
      ensures RayHitsWall(g, pos, d, w, h)
    {
      SameWallsView(grid, g, pos, d, w, h);
    }
  }

  /** The four rays of one pac (main.go:183-185), in compass order. */
  method PacRays(grid: map<Point, Obj>, pos: Point, w: int, h: int, turn: int) returns (g: map<Point, Obj>)
    requires w > 0 && h > 0
    requires forall d :: d in Compass ==> RayHitsWall(grid, pos, d, w, h)
    ensures g == ClearedBy(grid, set d | d in Compass :: (pos, d), w, h, turn)
  {
    g := grid;
    ClearNone(grid, w, h, turn);
    for k := 0 to 4
      invariant g == ClearedBy(grid, DirRays(pos, k), w, h, turn)
    {
      assert Compass[k] in Compass;
      SameWallsView(grid, g, pos, Compass[k], w, h);
      g := ViewLine(g, pos, Compass[k], w, h, turn);
      ClearUnion(grid, DirRays(pos, k), {(pos, Compass[k])}, w, h, turn);
      DirRaysStep(pos, k);
    }
    DirRaysAll(pos);
  }

  /** The rays from pos in the first k compass directions. */
  ghost function DirRays(pos: Point, k: nat): set<(Point, Point)>
    requires k <= 4
  {
    set j | 0 <= j < k :: (pos, Compass[j])
  }

  lemma DirRaysStep(pos: Point, k: nat)
    requires k < 4
    ensures DirRays(pos, k + 1) == DirRays(pos, k) + {(pos, Compass[k])}
  {
  }

  lemma DirRaysAll(pos: Point)
    ensures DirRays(pos, 4) == set d | d in Compass :: (pos, d)
  {
  }

  /** The super pellets the loop over `todo` has not removed: those still to visit and the
      fresh ones. */
  function KeptPellets(pellets: map<Point, Pellet>, todo: set<Point>, turn: int): map<Point, Pellet> {
    map p | p in pellets && (p in todo || pellets[p].lastUpdated == turn) :: pellets[p]
  }

  /** The cells the loop over `todo` has turned into floor. */
  function GonePellets(pellets: map<Point, Pellet>, todo: set<Point>, turn: int): set<Point> {
    set p | p in pellets && p !in todo && pellets[p].lastUpdated != turn
  }

  lemma PelletStart(grid: map<Point, Obj>, pellets: map<Point, Pellet>, turn: int)
    ensures KeptPellets(pellets, pellets.Keys, turn) == pellets
    ensures Floored(grid, GonePellets(pellets, pellets.Keys, turn)) == grid
  {
    assert GonePellets(pellets, pellets.Keys, turn) == {};
  }

  lemma PelletEnd(pellets: map<Point, Pellet>, turn: int)
    ensures KeptPellets(pellets, {}, turn) == LivePellets(pellets, turn)
    ensures GonePellets(pellets, {}, turn) == ExpiredPellets(pellets, turn)
  {
  }

  /** One iteration of the super-pellet loop keeps the loop's invariant. */
  lemma PelletStep(grid: map<Point, Obj>, pellets: map<Point, Pellet>, todo: set<Point>, p: Point, turn: int,
                   g1: map<Point, Obj>, live1: map<Point, Pellet>, g2: map<Point, Obj>, live2: map<Point, Pellet>)
    requires p in todo && p in pellets
    requires live1 == KeptPellets(pellets, todo, turn) && g1 == Floored(grid, GonePellets(pellets, todo, turn))
    requires live2 == if pellets[p].lastUpdated != turn then live1 - {p} else live1
    requires g2 == if pellets[p].lastUpdated != turn then g1[p := Floor] else g1
    ensures live2 == KeptPellets(pellets, todo - {p}, turn)
    ensures g2 == Floored(grid, GonePellets(pellets, todo - {p}, turn))
  {
    if pellets[p].lastUpdated != turn {
      assert GonePellets(pellets, todo - {p}, turn) == GonePellets(pellets, todo, turn) + {p};
      FlooredAdd(grid, GonePellets(pellets, todo, turn), p);
    } else {
      assert GonePellets(pellets, todo - {p}, turn) == GonePellets(pellets, todo, turn);
    }
  }

  lemma FlooredAdd(grid: map<Point, Obj>, cells: set<Point>, p: Point)
    ensures Floored(grid, cells)[p := Floor] == Floored(grid, cells + {p})
  {
  }

  /** The super-pellet loop of `update` (main.go:190-195) on the grid and the pellet map. */
  method ExpirePellets(grid: map<Point, Obj>, pellets: map<Point, Pellet>, turn: int)
    returns (g: map<Point, Obj>, live: map<Point, Pellet>)
    ensures live == LivePellets(pellets, turn)
    ensures g == Floored(grid, ExpiredPellets(pellets, turn))
  {
    g, live := grid, pellets;
    var todo := pellets.Keys;
    PelletStart(grid, pellets, turn);
    while todo != {}
      invariant todo <= pellets.Keys
      invariant live == KeptPellets(pellets, todo, turn)
      invariant g == Floored(grid, GonePellets(pellets, todo, turn))
      decreases |todo|
    {
      var position :| position in todo;
      var pellet := live[position];
      ghost var g1, live1 := g, live;
      if pellet.lastUpdated != turn {
        live := live - {position};
        g := g[position := Floor];
      }
      PelletStep(grid, pellets, todo, position, turn, g1, live1, g, live);
      todo := todo - {position};
    }
    PelletEnd(pellets, turn);
  }

  lemma ExpiredOnGrid(grid: map<Point, Obj>, pellets: map<Point, Pellet>, turn: int, w: int, h: int)
    requires OnGrid(grid, w, h) && OnGrid(pellets, w, h)
    ensures OnGrid(Floored(grid, ExpiredPellets(pellets, turn)), w, h)
    ensures OnGrid(LivePellets(pellets, turn), w, h)
  {
  }

  /** The own-pac loop of `update` (main.go:199-204) on the grid and the own pacs. The
      source's `add` of a floor only fills the cell (main.go:173-174), which is written out
      here. */
  method ForgetPacs(grid: map<Point, Obj>, pacs: map<int, Pac>, turn: int)
    returns (g: map<Point, Obj>, live: map<int, Pac>)
    requires forall id :: id in pacs ==> pacs[id].id == id
    ensures live == LivePacs(pacs, turn)
    ensures g == Floored(grid, StaleCells(pacs, turn))
  {
    g, live := grid, pacs;
    var todo := pacs.Keys;
    PacStart(grid, pacs, turn);
    while todo != {}
      invariant todo <= pacs.Keys
      invariant live == KeptPacs(pacs, todo, turn)
      invariant g == Floored(grid, GonePacs(pacs, todo, turn))
      decreases |todo|
    {
      ghost var some := Member(todo);
      var id :| id in todo;
      var pac := live[id];
      ghost var g1, live1 := g, live;
      if pac.lastUpdated != turn {
        live := live - {pac.id};
        g := g[pac.position := Floor];
      }
      PacStep(grid, pacs, todo, id, turn, g1, live1, g, live);
      todo := todo - {id};
    }
    PacEnd(pacs, turn);
  }

  lemma StaleOnGrid(grid: map<Point, Obj>, pacs: map<int, Pac>, turn: int, w: int, h: int)
    requires OnGrid(grid, w, h) && Roster(pacs, true, w, h)
    ensures OnGrid(Floored(grid, StaleCells(pacs, turn)), w, h)
    ensures Roster(LivePacs(pacs, turn), true, w, h)
  {
  }

  /** The own pacs the loop over `todo` has not removed. */
  function KeptPacs(pacs: map<int, Pac>, todo: set<int>, turn: int): map<int, Pac> {
    map id | id in pacs && (id in todo || pacs[id].lastUpdated == turn) :: pacs[id]
  }

  /** The cells the loop over `todo` has turned into floor. */
  function GonePacs(pacs: map<int, Pac>, todo: set<int>, turn: int): set<Point> {
    set id | id in pacs && id !in todo && pacs[id].lastUpdated != turn :: pacs[id].position
  }

  /** One iteration of the own-pac loop keeps the loop's invariant. */
  lemma PacStep(grid: map<Point, Obj>, pacs: map<int, Pac>, todo: set<int>, id: int, turn: int,
                g1: map<Point, Obj>, m1: map<int, Pac>, g2: map<Point, Obj>, m2: map<int, Pac>)
    requires id in todo && id in pacs && pacs[id].id == id
    requires m1 == KeptPacs(pacs, todo, turn) && g1 == Floored(grid, GonePacs(pacs, todo, turn))
    requires m2 == if pacs[id].lastUpdated != turn then m1 - {id} else m1
    requires g2 == if pacs[id].lastUpdated != turn then g1[pacs[id].position := Floor] else g1
    ensures m2 == KeptPacs(pacs, todo - {id}, turn)
    ensures g2 == Floored(grid, GonePacs(pacs, todo - {id}, turn))
  {
    if pacs[id].lastUpdated != turn {
      assert GonePacs(pacs, todo - {id}, turn) == GonePacs(pacs, todo, turn) + {pacs[id].position};
      FlooredAdd(grid, GonePacs(pacs, todo, turn), pacs[id].position);
    } else {
      assert GonePacs(pacs, todo - {id}, turn) == GonePacs(pacs, todo, turn);
    }
  }

  lemma PacStart(grid: map<Point, Obj>, pacs: map<int, Pac>, turn: int)
    ensures KeptPacs(pacs, pacs.Keys, turn) == pacs
    ensures Floored(grid, GonePacs(pacs, pacs.Keys, turn)) == grid
  {
    assert GonePacs(pacs, pacs.Keys, turn) == {};
  }

  lemma PacEnd(pacs: map<int, Pac>, turn: int)
    ensures KeptPacs(pacs, {}, turn) == LivePacs(pacs, turn)
    ensures GonePacs(pacs, {}, turn) == StaleCells(pacs, turn)
  {
  }


  /** The value loop of `update` (main.go:208-214) over the cells of `grid`, on the tree t
      whose leaves `vg` locates. */
  method SyncTree(t: ValueTree, grid: map<Point, Obj>, w: int, h: int, vg: map<Point, nat>, top: Cluster)
    requires Indexed(t.nodes, t.leafCount, w, h, vg, top) && OnGrid(grid, w, h)
    modifies t
    ensures Indexed(t.nodes, t.leafCount, w, h, vg, top) && SameShape(old(t.nodes), t.nodes)
    ensures forall p :: p in grid ==> t.nodes[vg[p]].value == ObjValue(grid[p])
    ensures forall p :: p in vg && p !in grid ==> t.nodes[vg[p]].value == old(t.nodes)[vg[p]].value
  {
    ghost var n0 := t.nodes;
    var todo := grid.Keys;
    SyncStart(n0, t.leafCount, w, h, grid, vg, top);
    while todo != {}
      invariant todo <= grid.Keys
      invariant Indexed(t.nodes, t.leafCount, w, h, vg, top)
      invariant Synced(n0, t.nodes, t.leafCount, w, h, grid, vg, top, todo)
      decreases |todo|
    {
      var point :| point in todo;
      ghost var rest := todo - {point};
      assert |rest| < |todo|;
      var leaf := vg[point];
      var difference := ObjValue(grid[point]) - t.nodes[leaf].value;
      ghost var before := t.nodes;
      if difference != 0 {
        t.AddValue(leaf, difference);
        SyncChange(n0, before, t.nodes, t.leafCount, w, h, grid, vg, top, todo, point, difference);
      } else {
        SyncKeep(n0, before, t.leafCount, w, h, grid, vg, top, todo, point);
      }
      todo := todo - {point};
      assert todo == rest;
    }
    SyncEnd(n0, t.nodes, t.leafCount, w, h, grid, vg, top);
  }

  /** The leaves of the cells of `grid` already visited (those not in `todo`) hold their
      objects' values; all other leaves hold what they held in n0; the shape is n0's. */
  ghost predicate Synced(n0: seq<Cluster>, nodes: seq<Cluster>, n: nat, w: int, h: int,
                         grid: map<Point, Obj>, vg: map<Point, nat>, top: Cluster, todo: set<Point>)
  {
    SameShape(n0, nodes) &&
    (forall p :: p in grid && p !in todo && p in vg ==>
      vg[p] < |nodes| && nodes[vg[p]].value == ObjValue(grid[p])) &&
    (forall p :: p in vg && (p !in grid || p in todo) ==>
      vg[p] < |nodes| && nodes[vg[p]].value == n0[vg[p]].value)
  }

  lemma SyncStart(n0: seq<Cluster>, n: nat, w: int, h: int, grid: map<Point, Obj>, vg: map<Point, nat>, top: Cluster)
    requires Indexed(n0, n, w, h, vg, top)
    ensures Synced(n0, n0, n, w, h, grid, vg, top, grid.Keys)
  {
  }

  /** An iteration of the value loop of `update` (main.go:209-214) that finds the leaf of q
      off by d keeps `Synced`. */
  lemma SyncChange(n0: seq<Cluster>, a: seq<Cluster>, b: seq<Cluster>, n: nat, w: int, h: int,
                   grid: map<Point, Obj>, vg: map<Point, nat>, top: Cluster, todo: set<Point>, q: Point, d: int)
    requires Indexed(a, n, w, h, vg, top) && Synced(n0, a, n, w, h, grid, vg, top, todo)
    requires q in todo && q in grid && q in vg && d == ObjValue(grid[q]) - a[vg[q]].value
    requires b == Propagate(a, vg[q], d, n)
    ensures Indexed(b, n, w, h, vg, top) && Synced(n0, b, n, w, h, grid, vg, top, todo - {q})
  {
    LiftIndexed(a, b, n, w, h, vg, top, vg[q], d);
    LeafValues(a, b, n, vg[q], d);
    SyncedChange(n0, a, b, n, w, h, grid, vg, top, todo, q);
  }

  /** Adding to a leaf keeps the tree indexed. */
  lemma LiftIndexed(a: seq<Cluster>, b: seq<Cluster>, n: nat, w: int, h: int, vg: map<Point, nat>,
                    top: Cluster, leaf: nat, d: int)
    requires Indexed(a, n, w, h, vg, top) && leaf < n && b == Propagate(a, leaf, d, n)
    ensures Indexed(b, n, w, h, vg, top)
  {
    PropagateKeepsTree(a, leaf, d, n);
    IndexedShape(a, b, n, w, h, vg, top);
  }

  /** An iteration that finds the leaf of q already right keeps `Synced`. */
  lemma SyncKeep(n0: seq<Cluster>, a: seq<Cluster>, n: nat, w: int, h: int,
                 grid: map<Point, Obj>, vg: map<Point, nat>, top: Cluster, todo: set<Point>, q: Point)
    requires Synced(n0, a, n, w, h, grid, vg, top, todo)
    requires q in todo && q in grid && q in vg && vg[q] < |a| && a[vg[q]].value == ObjValue(grid[q])
    ensures Synced(n0, a, n, w, h, grid, vg, top, todo - {q})
  {
  }

  /** The leaf of q took its object's value, and no other leaf changed. */
  lemma SyncedChange(n0: seq<Cluster>, a: seq<Cluster>, b: seq<Cluster>, n: nat, w: int, h: int,
                     grid: map<Point, Obj>, vg: map<Point, nat>, top: Cluster, todo: set<Point>, q: Point)
    requires q in grid && q in vg && SameShape(a, b) && Locates(a, n, vg)
    requires b[vg[q]].value == ObjValue(grid[q])
    requires forall j :: 0 <= j < n && j != vg[q] ==> b[j].value == a[j].value
    requires Synced(n0, a, n, w, h, grid, vg, top, todo)
    ensures Synced(n0, b, n, w, h, grid, vg, top, todo - {q})
  {
    forall p | p in vg && p != q
      ensures b[vg[p]].value == a[vg[p]].value
    {
      assert a[vg[p]].position != a[vg[q]].position;
    }
  }

  lemma SyncEnd(n0: seq<Cluster>, nodes: seq<Cluster>, n: nat, w: int, h: int, grid: map<Point, Obj>,
                vg: map<Point, nat>, top: Cluster)
    requires Indexed(nodes, n, w, h, vg, top) && OnGrid(grid, w, h) && Synced(n0, nodes, n, w, h, grid, vg, top, {})
    ensures forall p :: p in grid ==> nodes[vg[p]].value == ObjValue(grid[p])
    ensures forall p :: p in vg && p !in grid ==> nodes[vg[p]].value == n0[vg[p]].value
  {
  }


  class GameMap {
    var currentTurn: int
    const width: int
    const height: int
    var myPacs: map<int, Pac>
    var enemyPacs: map<int, Pac>
    var superPellets: map<Point, Pellet>
    /** The known content of each cell; a cell never filled is absent (Go's nil). */
    var grid: map<Point, Obj>
    /** The leaf of each cell. */
    const valueGrid: map<Point, nat>
    const tree: ValueTree
    /** The copy of the root kept by `makeGameMap` (main.go:129-137): its children are the
        root's, but `addValue` never reaches it. */
    const topCluster: Cluster

    ghost predicate Valid()
      reads this, tree
    {
      Indexed(tree.nodes, tree.leafCount, width, height, valueGrid, topCluster) &&
      OnGrid(grid, width, height) && OnGrid(superPellets, width, height) &&
      Roster(myPacs, true, width, height) && Roster(enemyPacs, false, width, height)
    }

    /** `makeGameMap` (main.go:120-138): one leaf per cell, a root over all of them at their
        centroid, split recursively; nothing recorded yet. The Go version panics dividing by
        zero cells when either side is not positive. */
    constructor (w: int, h: int)
      requires w >= 1 && h >= 1
      ensures Valid() && fresh(tree) && AllZero(tree.nodes)
      ensures width == w && height == h && currentTurn == 0
      ensures myPacs == map[] && enemyPacs == map[] && superPellets == map[] && grid == map[]
    {
      var t, vg := BuildTree(w, h);
      currentTurn := 0;
      width := w;
      height := h;
      myPacs := map[];
      enemyPacs := map[];
      superPellets := map[];
      grid := map[];
      valueGrid := vg;
      tree := t;
      topCluster := t.nodes[t.leafCount];
    }
    /** `gameMap.add` (main.go:151-175): a pac replaces its previous record in its owner's
        map, its previous cell becomes floor (the Go zero value's (0, 0) on a first
        sighting) and its new cell holds it; a super pellet is also recorded on its own;
        anything else just fills the cell. */
    method Add(position: Point, obj: Obj)
      requires Valid() && InBox(position, width, height)
      requires obj.PacObj? ==> InBox(obj.pac.position, width, height)
      modifies this
      ensures Valid() && currentTurn == old(currentTurn)
      ensures obj.PacObj? ==>
        grid == old(grid)[Lookup(if obj.pac.mine then old(myPacs) else old(enemyPacs), obj.pac.id).position := Floor]
                         [position := obj]
      ensures obj.PacObj? && obj.pac.mine ==> myPacs == old(myPacs)[obj.pac.id := obj.pac]
      ensures obj.PacObj? && !obj.pac.mine ==> enemyPacs == old(enemyPacs)[obj.pac.id := obj.pac]
      ensures !obj.PacObj? ==> grid == old(grid)[position := obj]
      ensures !obj.PacObj? || !obj.pac.mine ==> myPacs == old(myPacs)
      ensures !obj.PacObj? || obj.pac.mine ==> enemyPacs == old(enemyPacs)
      ensures obj.PelletObj? && obj.pellet.value == SuperPelletValue ==>
        superPellets == old(superPellets)[position := obj.pellet]
      ensures !obj.PelletObj? || obj.pellet.value != SuperPelletValue ==> superPellets == old(superPellets)
    {
      match obj
      case PacObj(newPac) =>
        var pacId := newPac.id;
        var oldPac: Pac;
        if newPac.mine {
          oldPac := Lookup(myPacs, pacId);
          myPacs := myPacs[pacId := newPac];
        } else {
          oldPac := Lookup(enemyPacs, pacId);
          enemyPacs := enemyPacs[pacId := newPac];
        }
        grid := grid[oldPac.position := Floor];
        grid := grid[position := obj];
      case PelletObj(newPellet) =>
        if newPellet.value == SuperPelletValue {
          superPellets := superPellets[position := newPellet];
        }
        grid := grid[position := obj];
      case _ =>
        grid := grid[position := obj];
    }

    /** The view-ray part of `update` (main.go:182-186). */
    method UpdateViewLines()
      requires Valid()
      requires forall id, d :: id in myPacs && d in Compass ==>
        RayHitsWall(grid, myPacs[id].position, d, width, height)
      modifies this
      ensures Valid()
      ensures grid == ClearedBy(old(grid), Rays(Positions(myPacs)), width, height, currentTurn)
      ensures myPacs == old(myPacs) && enemyPacs == old(enemyPacs) && superPellets == old(superPellets)
      ensures currentTurn == old(currentTurn)
    {
      grid := ViewAll(grid, myPacs, width, height, currentTurn);
    }

    /** The super-pellet part of `update` (main.go:190-195). */
    method ExpireSuperPellets()
      requires Valid()
      modifies this
      ensures Valid()
      ensures superPellets == LivePellets(old(superPellets), currentTurn)
      ensures grid == Floored(old(grid), ExpiredPellets(old(superPellets), currentTurn))
      ensures myPacs == old(myPacs) && enemyPacs == old(enemyPacs) && currentTurn == old(currentTurn)
    {
      ExpiredOnGrid(grid, superPellets, currentTurn, width, height);
      grid, superPellets := ExpirePellets(grid, superPellets, currentTurn);
    }

    /** The own-pac part of `update` (main.go:199-204): an own pac not reported this turn
        is forgotten and its cell becomes floor. */
    method ExpirePacs()
      requires Valid()
      modifies this
      ensures Valid()
      ensures myPacs == LivePacs(old(myPacs), currentTurn)
      ensures grid == Floored(old(grid), StaleCells(old(myPacs), currentTurn))
      ensures enemyPacs == old(enemyPacs) && superPellets == old(superPellets) && currentTurn == old(currentTurn)
    {
      StaleOnGrid(grid, myPacs, currentTurn, width, height);
      grid, myPacs := ForgetPacs(grid, myPacs, currentTurn);
    }

    /** The value part of `update` (main.go:208-214): each recorded cell's leaf is brought
        to the value of what the cell holds, and the difference is added up the tree. */
    method SyncValues()
      requires Valid()
      modifies tree
      ensures Valid() && SameShape(old(tree.nodes), tree.nodes)
      ensures forall p :: p in grid ==> tree.nodes[valueGrid[p]].value == ObjValue(grid[p])
      ensures forall p :: p in valueGrid && p !in grid ==>
        tree.nodes[valueGrid[p]].value == old(tree.nodes[valueGrid[p]].value)
    {
      SyncTree(tree, grid, width, height, valueGrid, topCluster);
    }

    /** `update` (main.go:177-217): walk the own pacs' view rays, forget super pellets and own
        pacs not reported this turn, then bring the tree's leaves up to date. */
    method Update()
      requires Valid()
      requires forall id, d :: id in myPacs && d in Compass ==>
        RayHitsWall(grid, myPacs[id].position, d, width, height)
      modifies this, tree
      ensures Valid() && SameShape(old(tree.nodes), tree.nodes)
      ensures grid == Floored(Floored(ClearedBy(old(grid), Rays(Positions(old(myPacs))), width, height, currentTurn),
                                      ExpiredPellets(old(superPellets), currentTurn)),
                              StaleCells(old(myPacs), currentTurn))
      ensures superPellets == LivePellets(old(superPellets), currentTurn)
      ensures myPacs == LivePacs(old(myPacs), currentTurn) && enemyPacs == old(enemyPacs)
      ensures currentTurn == old(currentTurn)
      ensures forall p :: p in grid ==> tree.nodes[valueGrid[p]].value == ObjValue(grid[p])
      ensures forall p :: p in valueGrid && p !in grid ==>
        tree.nodes[valueGrid[p]].value == old(tree.nodes[valueGrid[p]].value)
    {
      UpdateViewLines();
      ExpireSuperPellets();
      ExpirePacs();
      SyncValues();
    }

    /** `getNextTarget` (main.go:381-419): lift the pac's own leaf by 5, descend greedily
        from the root copy, and lower the leaf again once a target is found. When the
        descent stalls the source never returns, so its leaf stays lifted. */
    method GetNextTarget(pac: Pac) returns (o: Outcome)
      requires Valid() && InBox(pac.position, width, height)
      modifies tree
      ensures Valid()
      ensures o == NextTarget(old(tree.nodes), tree.leafCount, width, height, valueGrid, topCluster, pac.position)
      ensures o.Reached? ==> tree.nodes == old(tree.nodes) && InBox(o.target, width, height)
      ensures o.Stalled? ==>
        tree.nodes == Propagate(old(tree.nodes), valueGrid[pac.position], -MyPacValue, tree.leafCount)
    {
      ghost var n0 := tree.nodes;
      var leaf := valueGrid[pac.position];
      tree.AddValue(leaf, -MyPacValue);
      LiftReady(n0, tree.nodes, tree.leafCount, width, height, valueGrid, topCluster, pac.position);
      o := Greedy(tree.nodes, tree.leafCount, topCluster, pac.position);
      if o.Reached? {
        tree.AddValue(leaf, MyPacValue);
        PropagateInverse(n0, leaf, -MyPacValue, tree.leafCount);
      }
    }

    /** `chooseAction` (main.go:364-379): speed up whenever the ability is (nearly) ready,
        otherwise move to the next target. */
    method ChooseAction(pac: Pac) returns (a: Action)
      requires Valid() && InBox(pac.position, width, height)
      modifies tree
      ensures Valid()
      ensures pac.abilityCooldown <= 1 ==> a == Speed(pac.id) && tree.nodes == old(tree.nodes)
      ensures pac.abilityCooldown > 1 ==>
        var o := NextTarget(old(tree.nodes), tree.leafCount, width, height, valueGrid, topCluster, pac.position);
        a == if o.Reached? then Move(pac.id, o.target) else Hang(pac.id)
      ensures a.Move? ==> InBox(a.target, width, height) && tree.nodes == old(tree.nodes)
    {
      if pac.abilityCooldown <= 1 {
        return Speed(pac.id);
      }
      var o := GetNextTarget(pac);
      if o.Reached? {
        a := Move(pac.id, o.target);
      } else {
        a := Hang(pac.id);
      }
    }
  }
}
