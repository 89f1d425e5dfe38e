/** The multi-occupancy grid the simulation runs on (Mesa's `MultiGrid`),
    modelled as a value: each cell holds the list of its occupants, and each
    placed agent's position (Mesa's `agent.pos`) is recorded beside it. */
module MultiGrid {
  import opened Seqs
  import opened Space

  datatype Grid<A> = Grid(cells: map<Pos, seq<A>>, pos: map<A, Pos>)

  /** Occupants of cell `p`, in the order they arrived. */
  function Cell<A>(g: Grid<A>, p: Pos): seq<A> {
    if p in g.cells then g.cells[p] else []
  }

  /** 1 when `a` is placed on `p`, else 0. */
  function Occupies<A>(g: Grid<A>, a: A, p: Pos): nat {
    if a in g.pos && g.pos[a] == p then 1 else 0
  }

  /** Every placed agent stands on an in-bounds cell, and the cells list each
      placed agent once, in the cell of its recorded position, and nothing else. */
  ghost predicate Valid<A(!new)>(g: Grid<A>) {
    && (forall a :: a in g.pos ==> InBounds(g.pos[a]))
    && (forall p, a :: multiset(Cell(g, p))[a] == Occupies(g, a, p))
  }

  /** Cell contents and recorded positions agree. */
  lemma InCell<A(!new)>(g: Grid<A>, p: Pos, a: A)
    requires Valid(g)
    ensures a in Cell(g, p) <==> a in g.pos && g.pos[a] == p
  {
    assert multiset(Cell(g, p))[a] == Occupies(g, a, p);
  }

  /** A grid with nothing placed on it. */
  function Empty<A(!new)>(): (g: Grid<A>)
    ensures Valid(g) && g.pos == map[]
  {
    Grid(map[], map[])
  }

  /** `place_agent`: appends `a` to the list of cell `p` and records `p` as its position. */
  function Place<A(!new)>(g: Grid<A>, a: A, p: Pos): (r: Grid<A>)
    requires Valid(g) && a !in g.pos && InBounds(p)
    ensures Valid(r) && r.pos == g.pos[a := p]
    ensures Cell(r, p) == Cell(g, p) + [a]
    ensures forall q :: q != p ==> Cell(r, q) == Cell(g, q)
  {
    var r := Grid(g.cells[p := Cell(g, p) + [a]], g.pos[a := p]);
    assert forall q, b :: multiset(Cell(r, q))[b] == Occupies(r, b, q) by {
      forall q, b ensures multiset(Cell(r, q))[b] == Occupies(r, b, q) {
        assert multiset(Cell(g, q))[b] == Occupies(g, b, q);
      }
    }
    r
  }

  /** `remove_agent`: takes `a` out of the list of its cell and forgets its
      position. Mesa fails on an agent that is not placed; callers here only
      remove placed agents. */
  function Remove<A(!new)>(g: Grid<A>, a: A): (r: Grid<A>)
    requires Valid(g) && a in g.pos
    ensures Valid(r) && r.pos == g.pos - {a}
    ensures forall q :: q != g.pos[a] ==> Cell(r, q) == Cell(g, q)
  {
    var p := g.pos[a];
    InCell(g, p, a);
    var rest := RemoveFirst(Cell(g, p), a);
    var r := Grid(g.cells[p := rest], g.pos - {a});
    assert forall q, b :: multiset(Cell(r, q))[b] == Occupies(r, b, q) by {
      forall q, b ensures multiset(Cell(r, q))[b] == Occupies(r, b, q) {
        assert multiset(Cell(g, q))[b] == Occupies(g, b, q);
        if q == p {
          assert multiset(Cell(r, q)) == multiset(Cell(g, p)) - multiset{a};
        }
      }
    }
    r
  }

  /** `move_agent`: removes `a` from its cell and places it on `p`. Mesa
      rejects a position off a non-toroidal grid; callers here only move to
      in-bounds positions. */
  function Move<A(!new)>(g: Grid<A>, a: A, p: Pos): (r: Grid<A>)
    requires Valid(g) && a in g.pos && InBounds(p)
    ensures Valid(r) && r.pos == g.pos[a := p]
    ensures a in Cell(r, p)
    ensures forall q :: q != p && q != g.pos[a] ==> Cell(r, q) == Cell(g, q)
  {
    Place(Remove(g, a), a, p)
  }
}
