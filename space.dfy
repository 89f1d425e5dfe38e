/** Geometry of the 25 x 25 non-wrapping grid: positions, the orthogonal
    neighbourhood the detectors move in, and the Destroyer's pursuit step. */
module Space {

  /** Side length of the square grid (`GRID_SIZE`). */
  const GridSize: int := 25

  datatype Pos = Pos(x: int, y: int)

  /** The grid is not a torus: only these positions exist. */
  predicate InBounds(p: Pos) {
    0 <= p.x < GridSize && 0 <= p.y < GridSize
  }

  function Abs(n: int): nat {
    if n < 0 then -n else n
  }

  function Max(a: nat, b: nat): nat {
    if a < b then b else a
  }

  /** Number of orthogonal moves between two cells. */
  function Manhattan(p: Pos, q: Pos): nat {
    Abs(p.x - q.x) + Abs(p.y - q.y)
  }

  /** Number of king moves (diagonals allowed) between two cells. */
  function Chebyshev(p: Pos, q: Pos): nat {
    Max(Abs(p.x - q.x), Abs(p.y - q.y))
  }

  /** How many of the four grid borders `p` lies on: 2 at a corner, 1 on an
      edge, 0 inside. */
  function BorderSides(p: Pos): nat {
    (if p.x == 0 then 1 else 0) + (if p.x == GridSize - 1 then 1 else 0) +
    (if p.y == 0 then 1 else 0) + (if p.y == GridSize - 1 then 1 else 0)
  }

  /** The grid's von Neumann neighbourhood of radius 1 without its centre and
      without wrapping (`moore=False, include_center=False, torus=False`). */
  function Neighborhood(p: Pos): (r: seq<Pos>)
    requires InBounds(p)
    ensures |r| == 4 - BorderSides(p)
  {
    (if p.y > 0 then [Pos(p.x, p.y - 1)] else []) +
    (if p.x > 0 then [Pos(p.x - 1, p.y)] else []) +
    (if p.x < GridSize - 1 then [Pos(p.x + 1, p.y)] else []) +
    (if p.y < GridSize - 1 then [Pos(p.x, p.y + 1)] else [])
  }

  /** The neighbourhood holds exactly the in-bounds cells one orthogonal move
      away: no diagonal, no staying put, nothing off the edge. */
  lemma NeighborhoodIsVonNeumann(p: Pos, q: Pos)
    requires InBounds(p)
    ensures q in Neighborhood(p) <==> InBounds(q) && Manhattan(p, q) == 1
  {
    var r := Neighborhood(p);
    if InBounds(q) && Manhattan(p, q) == 1 {
      if q.x == p.x && q.y == p.y - 1 {
        assert r[0] == q;
      } else if q.x == p.x - 1 {
        assert r[if p.y > 0 then 1 else 0] == q;
      } else if q.x == p.x + 1 {
        assert r[(if p.y > 0 then 1 else 0) + (if p.x > 0 then 1 else 0)] == q;
      } else {
        assert r[|r| - 1] == q;
      }
    }
  }

  /** A corner cell has 2 neighbours, a non-corner edge cell 3, an interior
      cell 4, and no neighbour is listed twice, so the uniform choice is over
      distinct cells. */
  lemma NeighborhoodSize(p: Pos)
    requires InBounds(p)
    ensures (p.x == 0 || p.x == GridSize - 1) && (p.y == 0 || p.y == GridSize - 1) ==> |Neighborhood(p)| == 2
    ensures 0 < p.x < GridSize - 1 && 0 < p.y < GridSize - 1 ==> |Neighborhood(p)| == 4
    ensures BorderSides(p) == 1 ==> |Neighborhood(p)| == 3
    ensures forall i, j :: 0 <= i < j < |Neighborhood(p)| ==> Neighborhood(p)[i] != Neighborhood(p)[j]
  {
  }

  /** `random.choice(nbrs)`: the generator's draw selects one entry. */
  function Choose(nbrs: seq<Pos>, draw: nat): (q: Pos)
    requires |nbrs| > 0
    ensures q in nbrs
  {
    nbrs[draw % |nbrs|]
  }

  /** No neighbour is out of the choice's reach: some draw selects each one. */
  lemma ChooseReachesAll(nbrs: seq<Pos>, q: Pos)
    requires q in nbrs
    ensures exists draw: nat :: Choose(nbrs, draw) == q
  {
    var i :| 0 <= i < |nbrs| && nbrs[i] == q;
    assert Choose(nbrs, i) == q;
  }

  /** -1, 0 or +1, following the sign of `d`. */
  function Sign(d: int): int {
    if d > 0 then 1 else if d < 0 then -1 else 0
  }

  /** The Destroyer's step towards `t` (`move_towards`): one unit along each
      axis on which `t` differs, so the step may be diagonal. On each axis the
      gap to `t` shrinks by one unless it is already closed, and the step
      never overshoots, which fixes the new cell. */
  function StepToward(p: Pos, t: Pos): (r: Pos)
    ensures Abs(r.x - t.x) == (if p.x == t.x then 0 else Abs(p.x - t.x) - 1)
    ensures Abs(r.y - t.y) == (if p.y == t.y then 0 else Abs(p.y - t.y) - 1)
    ensures Chebyshev(p, r) <= 1
    ensures p != t ==> Chebyshev(p, r) == 1
    ensures p != t ==> Chebyshev(r, t) == Chebyshev(p, t) - 1
    ensures p == t ==> r == p
    ensures InBounds(p) && InBounds(t) ==> InBounds(r)
  {
    Pos(p.x + Sign(t.x - p.x), p.y + Sign(t.y - p.y))
  }
}
