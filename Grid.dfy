/** Integer geometry of the maze: points, Go's truncating integer division and
    remainder, the toroidal `mod` used to step across the grid's edges, Manhattan
    distance, and walking a ray one step at a time. */
module Grid {

  datatype Point = Point(x: int, y: int)

  /** The cells of a width x height grid. */
  predicate InBox(p: Point, width: int, height: int) {
    0 <= p.x < width && 0 <= p.y < height
  }

  /** The four compass steps N, E, S, W (main.go:14-19). */
  const Compass: seq<Point> := [Point(0, -1), Point(1, 0), Point(0, 1), Point(-1, 0)]

  /** Go's `a / b` for a positive divisor: the quotient truncated toward zero
      (Dafny's own `/` rounds toward negative infinity for a negative dividend). */
  function GoDiv(a: int, b: int): (q: int)
    requires b > 0
    ensures a >= 0 ==> 0 <= a - b * q < b
    ensures a < 0 ==> -b < a - b * q <= 0
  {
    if a >= 0 then a / b else -((-a) / b)
  }

  /** Go's `a % b` for a positive divisor: the remainder takes the sign of the dividend. */
  function GoRem(a: int, b: int): (r: int)
    requires b > 0
    ensures a == b * GoDiv(a, b) + r
    ensures -b < r < b
    ensures a >= 0 ==> r >= 0
    ensures a < 0 ==> r <= 0
  {
    if a >= 0 then a % b else -((-a) % b)
  }

  /** a and b differ by a multiple of n. */
  ghost predicate Congruent(a: int, b: int, n: int) {
    exists k :: a - b == n * k
  }

  /** The mathematical residue of x modulo n: the unique r in [0, n) congruent to x. */
  function Wrap(x: int, n: int): (r: int)
    requires n > 0
    ensures 0 <= r < n
    ensures Congruent(x, r, n)
  {
    assert x - x % n == n * (x / n);
    x % n
  }

  lemma SmallMultiple(n: int, m: int)
    requires n > 0 && -n < n * m < n
    ensures m == 0
  {
  }

  /** Two residues in [0, n) congruent to the same x are equal. */
  lemma ResidueUnique(x: int, r: int, n: int)
    requires n > 0 && 0 <= r < n && Congruent(x, r, n)
    ensures r == Wrap(x, n)
  {
    var k :| x - r == n * k;
    var q := x / n;
    assert x == n * q + x % n;
    assert n * k - n * q == n * (k - q);
    SmallMultiple(n, k - q);
  }

  /** `mod` (main.go:433-439): Go's remainder, then `val += y` while it is negative.
      For a positive modulus the loop runs at most once and the result is the residue. */
  method Mod(x: int, y: int) returns (val: int)
    requires y > 0
    ensures val == Wrap(x, y)
  {
    val := GoRem(x, y);
    ghost var q := GoDiv(x, y);
    while val < 0
      invariant -y < val < y
      invariant x == y * q + val
      decreases -val
    {
      val := val + y;
      q := q - 1;
    }
    assert x - val == y * q;
    ResidueUnique(x, val, y);
  }

  /** `abs` (main.go:425-431). */
  function Abs(x: int): (r: int)
    ensures r >= 0
    ensures r == x || r == -x
  {
    if x < 0 then -1 * x else x
  }

  /** `distance` (main.go:421-423): Manhattan distance; a metric on points. */
  function Distance(p1: Point, p2: Point): (d: int)
    ensures d >= 0
    ensures d == 0 <==> p1 == p2
  {
    Abs(p1.x - p2.x) + Abs(p1.y - p2.y)
  }

  lemma DistanceMetric(p: Point, q: Point, r: Point)
    ensures Distance(p, q) == Distance(q, p)
    ensures Distance(p, r) <= Distance(p, q) + Distance(q, r)
  {
  }

  /** `point.add` (main.go:29-34): one step on the torus; the result is always a cell
      of the grid and is congruent to the plain sum on each coordinate. */
  function Add(p: Point, other: Point, width: int, height: int): (r: Point)
    requires width > 0 && height > 0
    ensures InBox(r, width, height)
    ensures Congruent(p.x + other.x, r.x, width)
    ensures Congruent(p.y + other.y, r.y, height)
  {
    Point(Wrap(p.x + other.x, width), Wrap(p.y + other.y, height))
  }

  /** `point.add` (main.go:29-34) as the source computes it, with the `mod` loop on each
      coordinate. */
  method Step(p: Point, other: Point, width: int, height: int) returns (r: Point)
    requires width > 0 && height > 0
    ensures r == Add(p, other, width, height)
  {
    var x := Mod(p.x + other.x, width);
    var y := Mod(p.y + other.y, height);
    r := Point(x, y);
  }

  /** The cell reached after k steps of `dir` from `origin`, each step taken with Add. */
  function Walk(origin: Point, dir: Point, k: nat, width: int, height: int): (r: Point)
    requires width > 0 && height > 0
    ensures k > 0 ==> InBox(r, width, height)
  {
    if k == 0 then origin else Add(Walk(origin, dir, k - 1, width, height), dir, width, height)
  }
}
