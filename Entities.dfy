/** What a grid cell can hold: walls, floor, pacs and pellets, and the value each
    contributes to the cluster tree. */
module Entities {
  import opened Grid

  /** Value of a pac standing on a cell, own or enemy (main.go:11-12). */
  const MyPacValue: int := -5
  const EnemyPacValue: int := -5

  /** A pellet of this value is a super pellet and is indexed separately (main.go:168). */
  const SuperPelletValue: int := 10

  datatype Pac = Pac(id: int, mine: bool, typeId: string, speedTurnsLeft: int,
                     abilityCooldown: int, position: Point, lastUpdated: int)

  datatype Pellet = Pellet(value: int, lastUpdated: int)

  /** The dynamic content of a grid cell (`interface{}` in the source). */
  datatype Obj = Wall | Floor | PacObj(pac: Pac) | PelletObj(pellet: Pellet)

  /** Go's zero value of `pac`: what a map lookup of a missing id yields. */
  const ZeroPac: Pac := Pac(0, false, "", 0, 0, Point(0, 0), 0)

  /** The recorded pac under `id`, or the zero value when there is none. */
  function Lookup(pacs: map<int, Pac>, id: int): (p: Pac)
    ensures id in pacs ==> p == pacs[id]
    ensures id !in pacs ==> p.position == Point(0, 0)
  {
    if id in pacs then pacs[id] else ZeroPac
  }

  /** `match` (main.go:441-443): same owner and same id. */
  function Match(a: Pac, b: Pac): (r: bool)
    ensures r ==> a.id == b.id && a.mine == b.mine
  {
    a.mine == b.mine && a.id == b.id
  }

  /** Match identifies exactly the pacs filed under the same key of the same owner's map,
      and is therefore an equivalence. */
  lemma MatchIsEquivalence(a: Pac, b: Pac, c: Pac)
    ensures Match(a, a)
    ensures Match(a, b) == Match(b, a)
    ensures Match(a, b) && Match(b, c) ==> Match(a, c)
    ensures Match(a, b) <==> (a.mine, a.id) == (b.mine, b.id)
  {
  }

  /** `getObjValue` (main.go:238-254): pacs repel, pellets attract by their value, everything
      else is neutral. The age decay is commented out in the source and absent here. */
  function ObjValue(o: Obj): (v: int)
    ensures o.PacObj? ==> v < 0
    ensures o.PelletObj? ==> v == o.pellet.value
    ensures o == Wall || o == Floor ==> v == 0
  {
    match o
    case PacObj(p) => if p.mine then MyPacValue else EnemyPacValue
    case PelletObj(pl) => pl.value
    case _ => 0
  }
}
