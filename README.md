# A verified model of a pac-man bot's world map and target choice

The bot (one Go file, `main.go`) keeps a map of the maze: what each cell
holds, the own and enemy pacs it has seen, and the super pellets. Over the
cells it builds a quadtree of *value clusters*. Each leaf holds a cell's
value: a pellet's value, -5 for a pac, 0 for anything else. Each inner
cluster holds the sum of its children's values. Every turn the bot does
three things:

- It walks the view rays of its own pacs and turns pellets it no longer sees
  into floor.
- It forgets super pellets and own pacs that were not reported this turn.
- It pushes each cell's new value up the tree.

To choose a move for a pac, it descends the tree greedily. At each level it
picks the child cluster with the best value per unit of Manhattan distance.
Before the descent it raises the pac's own leaf by 5, so the pac does not
flee from itself, and afterwards it lowers the leaf again.

The model is in ten modules, one per file:

| module | what it holds |
|---|---|
| `Grid` | Points and Go's truncating `/` and `%`. Also the `mod` loop, the torus step `point.add`, Manhattan distance, and walking a ray. |
| `Entities` | Pacs, pellets, and what a cell holds. Also `match` and `getObjValue`. |
| `Quadtree` | The point-to-leaf maps that `addChildClusters` splits, as sequences of entries. Also `getCentre`, the quadrant split, and the lemmas that make it a partition and make the recursion terminate. |
| `Tree` | The cluster arena and the tree invariant. Also `addValue` as the function `Propagate`, and what it preserves. |
| `Build`, `Split` | The invariants of a tree under construction, and the frame lemmas used by the recursive split. |
| `Clusters` | The class `ValueTree`: the arena with the in-place `addValue` and `addChildClusters`. |
| `Descent` | Child scores, the inner "last best child" scan, the descent `Descend` as a function, and the imperative `Greedy`. |
| `Vision` | What the view rays clear, as a function of the grid and a set of rays. Also the lemmas that make the order of the rays irrelevant. |
| `Game` | The class `GameMap` (`gameMap`), with `makeGameMap`, `add`, `update` and its four parts, `getNextTarget` and `chooseAction`. Each loop of `update` is also a method on values with its own specification. |

**How Go's structures are represented:**

- The Go pointer tree becomes the sequence `ValueTree.nodes`. The leaves of
  the width × height cells are at indices [0, n). The root is at index n,
  where n = width × height. Clusters created during the split follow the
  root.
- `*valueCluster` fields become indices into that sequence.
- `valueGrid` maps each cell to the index of its leaf.
- A cell the source never filled (a nil `interface{}`) is absent from the
  `grid` map.
- Scores are exact rationals (`real`).

**Source quirks the model keeps:**

- **Stale root copy.** `makeGameMap` copies the root into
  `gameMap.topCluster`. `addValue` never reaches the copy, so its value stays
  0 while its children are the real root's. The model keeps
  `topCluster == nodes[n].(value := 0)` as part of the map's invariant.
- **First sighting clears (0, 0).** On a pac's first sighting, its "previous
  cell" is the Go zero value (0, 0), and that cell becomes floor
  (`Entities.Lookup`).
- **Enemy pacs never expire.** `update` only forgets own pacs.
- **A stalled descent.** The descent can stall when no child scores at least
  0. The source then loops forever. The model makes this the outcome
  `Stalled`, and `ChooseAction` turns it into the decision `Hang`.
- **A ray with no wall.** A ray that never meets a wall also loops forever in
  the source. The model excludes this case with a precondition
  (`Vision.RayHitsWall`).

The bot has no breadth-first distance engine, no connectivity-aware merging
of clusters and no time budget. The age decay of values is commented out
(main.go:242-250). It uses a centroid quadtree, Manhattan distance and
constant values. The function `match` (main.go:441-443) is never called in
`main.go`. It is modelled for completeness as `Entities.Match`. The view ray
steps with `Grid.Step`, the `mod` loop on each coordinate, as `point.add`
does.

## Model

| member | source | states |
|---|---|---|
| Grid.GoDiv | main.go:269 | Go's quotient truncates toward zero. The remainder it leaves lies in [0, b) for a non-negative dividend and in (-b, 0] for a negative one. |
| Grid.GoRem | main.go:434 | Go's `%`: a = b·(a / b) + r, with \|r\| < b and r taking the sign of a. |
| Grid.Wrap | main.go:433-439 | The residue lies in [0, n) and is congruent to x modulo n. |
| Grid.ResidueUnique | main.go:433-439 | A value in [0, n) congruent to x is that residue, so the residue is unique. |
| Grid.Mod | main.go:433-439 | For a positive modulus, `mod`'s loop on Go's remainder returns exactly the residue of x. |
| Grid.Abs | main.go:425-431 | The result is non-negative and is x or -x. |
| Grid.Distance | main.go:421-423 | Manhattan distance is non-negative, and zero exactly when the two points are equal. |
| Grid.DistanceMetric | main.go:421-423 | Distance is symmetric and satisfies the triangle inequality. |
| Grid.Add | main.go:29-34 | A step always lands on a cell of the grid, and each coordinate is congruent to the plain sum. |
| Grid.Step | main.go:29-34 | `point.add` computed with the `mod` loop on each coordinate equals the torus step `Add`. |
| Grid.Walk | main.go:222-223 | Every cell of a ray after at least one step is a cell of the grid. |
| Entities.Lookup | main.go:156-163 | A pac's previous record, or, when there is none, a zero value standing at (0, 0). |
| Entities.Match | main.go:441-443 | Matching pacs have the same id and the same owner. |
| Entities.MatchIsEquivalence | main.go:441-443 | `match` is reflexive, symmetric and transitive. It holds exactly when owner and id coincide. |
| Entities.ObjValue | main.go:238-254 | A pac (own or enemy) repels with a negative value. A pellet counts its value. Walls and floor count 0. |
| Quadtree.Centre | main.go:260-270 | The accumulator loop computes the truncating mean of the cells on each coordinate. |
| Quadtree.CentreInBox | main.go:260-270 | The centroid lies in every box that holds all the cells, so in their bounding box. |
| Quadtree.QuadrantOf | main.go:84-94 | The quadrant index is below 4. Quadrants 0 and 1 are exactly x ≤ centre.x, and quadrants 0 and 2 are exactly y ≤ centre.y. |
| Quadtree.Bucket | main.go:75-97 | The bucketing loop puts each entry into the quadrant of its cell, giving the four `Filter`s. |
| Quadtree.Filter | main.go:83-97 | Quadrant k of a map: the entries whose cell lies in quadrant k, in their original order. It is never larger than the map. Its membership is stated exactly by `Quadtree.FilterMembers`. |
| Quadtree.Quadrants | main.go:75-97 | The four quadrant maps, one per quadrant index. That they partition the map is `Quadtree.QuadrantSizes`. |
| Quadtree.FilterMembers | main.go:83-97 | An entry is in quadrant k exactly when it is an entry of the map whose cell lies in quadrant k. |
| Quadtree.QuadrantSizes | main.go:83-97 | The four quadrant sizes add up to the size of the map, so no entry is lost or doubled. |
| Quadtree.FilterDistinct | main.go:83-97 | Each quadrant of a map with distinct cells again has distinct cells and leaves, all taken from the map. |
| Quadtree.QuadrantSmaller | main.go:71-116 | Around the truncated centroid of two or more distinct non-negative cells, no quadrant holds every cell. This is what makes the recursion terminate. |
| Tree.Propagate | main.go:58-68 | `addValue` changes values only. The shape and the parent chain stay the same. |
| Tree.PropagateEffect | main.go:58-68 | `addValue(d)` adds d to every cluster on the chain from the node to the root and changes no other cluster. |
| Tree.PropagateKeepsTree | main.go:58-68 | Applied at a leaf, `addValue` keeps every inner value equal to the sum of its children's values, and keeps the whole tree invariant. |
| Tree.PropagateInverse | main.go:385-416 | Adding an offset and then its negation restores every cluster. |
| Tree.LeafReachesRoot | main.go:104-116 | In a built tree of two or more cells, every cluster's chain of parents ends at the root. |
| Build.Built | main.go:120-130 | A finished split satisfies the tree invariant with all values zero. The invariant covers sizes that are sums of the children's sizes, linked parents and children, and every leaf attached. |
| Clusters.ValueTree.AddValue | main.go:58-68 | The recursive in-place update leaves exactly the arena `Propagate` describes. |
| Clusters.ValueTree.AddChildClusters | main.go:70-118 | The node is closed and its children cover exactly its cells. Every leaf of its cells gets a parent, only fresh clusters are added, and a single cell changes nothing. |
| Clusters.ValueTree.AddQuadrant | main.go:99-117 | An empty quadrant changes nothing. A one-cell quadrant's existing leaf becomes the node's last child, with the node as parent. A larger quadrant gets a fresh cluster at its centroid, of its size and with the node as parent, which is split in turn. |
| Descent.Score | main.go:393-400 | The score is non-negative exactly when the value is, or when the child is the pac's own single cell. A positive score needs a positive value, and the score never exceeds a non-negative value. |
| Descent.Choose | main.go:392-411 | The running best is non-negative and bounds every score seen. A chosen child is one of those seen, and its score is the best. |
| Descent.ChooseLastBest | main.go:407-410 | The scan takes child i exactly when i is the last child with the highest score and that score is at least 0. |
| Descent.ChooseNone | main.go:389-411 | The scan takes no child exactly when every child scores below 0. |
| Descent.DescendLeaf | main.go:389-418 | A descent that takes a step and reaches a target ends at the cell of a leaf. |
| Descent.Descend | main.go:389-418 | Where the descent from a cluster ends. It stops at the position of a childless cluster reached through last-best children, or `Stalled` at a cluster no larger than the start whose children all score below 0. |
| Descent.Greedy | main.go:389-418 | The two loops compute the descent `Descend` from the root copy. |
| Vision.ClearedBy | main.go:219-236 | Walking rays keeps the set of cells and the walls. It leaves every cell that is not a stale pellet unchanged and turns only stale pellets into floor. |
| Vision.SameWallsView | main.go:227-234 | What a ray sees, and whether it meets a wall, depend on the walls alone. |
| Vision.FirstWallView | main.go:222-235 | A ray whose first wall is t steps away sees exactly its first t cells. |
| Vision.ClearUnion | main.go:182-186 | Walking more rays over the grid the earlier rays left is the same as walking all of them at once, so Go's random order of directions and pacs does not matter. |
| Vision.ClearTwice | main.go:182-186 | Walking the same rays again changes nothing. |
| Game.MakeLeaves | main.go:121-127 | The nested loops create one fresh leaf per cell of the width × height grid, each cell once, and index each cell's leaf. |
| Game.BuildTree | main.go:120-130 | The tree part of `makeGameMap` yields a tree whose n = width × height leaves are exactly the cells, indexed by cell, with all values zero. |
| Game.LeafAlone | main.go:58-68 | `addValue` at a leaf keeps the tree and changes that leaf by d and no other leaf. |
| Game.LiftCancelsSelf | main.go:384-385 | Raising the pac's own leaf by 5 cancels the pac's value, and every other cell's leaf is unchanged. |
| Game.ReachedCell | main.go:389-418 | On any indexed tree, a target the descent from the root copy reaches is a cell of the grid. |
| Game.NextTarget | main.go:381-419 | What `getNextTarget` returns: the descent from the root copy over the tree with the pac's own leaf raised by 5. A reached target is a cell of the grid. |
| Game.ViewLine | main.go:219-236 | Walking one ray until its first wall leaves exactly the grid that the ray clears. |
| Game.PacRays | main.go:183-185 | A pac's four rays leave the grid cleared by its four rays. |
| Game.ViewAll | main.go:182-186 | The view loops leave the grid cleared by every own pac's four rays. |
| Game.ExpirePellets | main.go:190-195 | The loop keeps exactly the super pellets reported this turn, and turns the cells of all the others into floor. |
| Game.ForgetPacs | main.go:199-204 | The loop keeps exactly the own pacs reported this turn, and turns the cells of all the others into floor. |
| Game.SyncTree | main.go:208-214 | Afterwards each recorded cell's leaf holds that cell's object value and every other leaf is unchanged. The tree stays a tree of the same shape. |
| Game.GameMap.constructor | main.go:120-138 | `makeGameMap` gives an empty map at turn 0 over an all-zero tree of the grid's cells. |
| Game.GameMap.Add | main.go:151-175 | This states what `add` records for each kind of object. A pac goes into its owner's map, its previous cell (which is (0, 0) on a first sighting) becomes floor, and its new cell holds it. A value-10 pellet is also recorded as a super pellet. Anything else only fills the cell. Nothing else changes. |
| Game.GameMap.UpdateViewLines | main.go:182-186 | The grid becomes the one cleared by every own pac's rays, and all else is unchanged. |
| Game.GameMap.ExpireSuperPellets | main.go:190-195 | Only the super pellets reported this turn remain, and the cells of the others become floor. |
| Game.GameMap.ExpirePacs | main.go:199-204 | Only the own pacs reported this turn remain, the cells of the others become floor, and enemy pacs and super pellets are unchanged. |
| Game.GameMap.SyncValues | main.go:208-214 | Each recorded cell's leaf takes its object's value, every other leaf keeps its value, and the tree keeps its shape. |
| Game.GameMap.Update | main.go:177-217 | The final grid is the composition of the three grid steps. Super pellets and own pacs are the live ones, enemy pacs are unchanged, and every recorded cell's leaf holds its value. |
| Game.GameMap.GetNextTarget | main.go:381-419 | The result is the descent over the tree with the pac's leaf raised by 5. A reached target is a cell, and the tree is then restored exactly. |
| Game.GameMap.ChooseAction | main.go:364-379 | A pac whose cooldown is at most 1 speeds up and the tree is untouched. Otherwise the pac moves to the next target, or hangs when the descent stalls. A move targets a cell and leaves the tree unchanged. |

## Left out

- **Input and output.** `main`'s input parsing and command output are not modelled: reading the maze, reading the pacs and pellets each turn, and formatting and printing the `SPEED`/`MOVE` strings. The same goes for its `currentTurn++`. They are I/O; the decision itself is `Game.Action`.
- **Logging and timing.** All logging to standard error and all `time.Now`/`time.Since` calls are left out; they have no effect on the state.
- **Go map iteration order.** It is not modelled. Loops over maps take their keys in an arbitrary order (`:|`). The directions of a pac's rays are taken in N, E, S, W order, and `Vision.ClearUnion` shows the order does not matter.
- **Map mutation during iteration.** Go's deleting from a map while ranging over it is modelled as a loop over the keys present when it starts, which visits the same entries.
- **Descent.Score:** scores are exact rationals, not `float64`. Rounding when a value is divided by a distance is not modelled, so neither are ties that only rounding would create or break.
- **Grid.Mod:** requires a positive modulus. The source panics for 0. For a negative modulus and a negative dividend, its loop practically never returns, because it runs until `val` wraps around. It only calls `mod` with the grid's positive sides.
- **Game.GameMap.constructor:** requires both sides to be at least 1. For an empty grid, `getCentre` divides by zero in the source.
- **Game.GameMap.Add:** requires the cell, and a pac's own position, to be cells of the grid. A point outside them has no leaf, and the source's next `update` would dereference nil there.
- **Game.ViewLine, Game.PacRays, Game.ViewAll, Game.GameMap.UpdateViewLines, Game.GameMap.Update:** require every own pac's rays to meet a wall. The source's ray loop never returns otherwise.
- **Game.GameMap.GetNextTarget:**
  - When the descent stalls, the model returns `Stalled` with the pac's leaf still raised.
  - The source instead repeats its outer loop forever.
  - `Game.GameMap.ChooseAction` maps this outcome to `Hang`.
- **Integer width.** Go's 64-bit `int` wrap-around is not modelled: in `abs`'s `-1 * x` (main.go:427), in `getCentre`'s sums (main.go:265-266) and in `point.add`'s `p.x+other.x` (main.go:31-32). The model uses unbounded integers. Coordinates are bounded by the grid's sides, so a realistic grid never comes near the limit.
- **Entities.ObjValue:** its contract states only that a pac's value is negative. That both constants are -5 is stated by the constant definitions, not restated in the contract.
- **Game.ForgetPacs:** the source's `add(pac.position, floor{})` is written out as the assignment it performs for a floor, which only fills the cell.
- **Update's parts.** The four parts of `update` and `_updateViewLine` are methods on map values (`ViewLine`, `ViewAll`, `ExpirePellets`, `ForgetPacs`, `SyncTree`), which the `GameMap` methods call. The updates happen on whole map values rather than in place on a Go map, so aliasing of `gameMap`'s maps is not modelled. Go passes `gameMap` by value to `chooseAction`, but its maps and tree are shared, which is what the class models.
- **Unused pac fields.** The pac fields `typeId` and `speedTurnsLeft` are carried but never read by the core.
