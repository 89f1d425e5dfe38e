/** The landmine simulation as state transitions on a snapshot of
    `LandmineModel`: what each agent's `step` does to the grid, the shared list
    of found landmines, the destroyed counter and the Destroyer's status, and
    what a whole tick does. The class in module Simulation runs these steps in
    place and is proved to follow them. */
module Landmind {
  import opened Seqs
  import opened Space
  import opened MultiGrid

  /** Landmines placed when the model is built. */
  const MineCount: nat := 20

  /** Occupants of the grid; `Landmine(i)` is the mine created as "Landmine-i". */
  datatype Entity = Landmine(index: nat) | Finder | Destroyer | Scout

  /** The Destroyer's status string: "Idle", "Moving" or "Destroying". */
  datatype DestroyerState = Idle | Moving | Destroying

  /** The random draws one tick consumes: one `random.choice` for the Finder's
      move and one for each of the Scout's two moves. */
  datatype Draws = Draws(finder: nat, scoutFirst: nat, scoutSecond: nat)

  /** The state of `LandmineModel`: the grid (with every agent's position),
      `landmine_locations`, `destroyed_landmines` and the Destroyer's `state`. */
  datatype World = World(
    grid: Grid<Entity>,
    landmineLocations: seq<Entity>,
    destroyedLandmines: nat,
    destroyerState: DestroyerState)

  /** The landmines still on the grid. */
  ghost function Mines(g: Grid<Entity>): set<Entity> {
    set e | e in g.pos && e.Landmine?
  }

  /** What every tick keeps: the grid is consistent, the three agents are on
      it, the found list holds distinct landmines that are all still on the
      grid, and destroyed plus remaining landmines is the initial 20. */
  ghost predicate Inv(w: World) {
    && Valid(w.grid)
    && Finder in w.grid.pos && Destroyer in w.grid.pos && Scout in w.grid.pos
    && NoDups(w.landmineLocations)
    && (forall i :: 0 <= i < |w.landmineLocations| ==> w.landmineLocations[i] in Mines(w.grid))
    && w.destroyedLandmines + |Mines(w.grid)| == MineCount
  }

  /** `landmine_locations` after scanning the occupants `cell` in order: each
      landmine not yet in the list is appended at the end. */
  function Register(found: seq<Entity>, cell: seq<Entity>): (r: seq<Entity>)
    ensures |found| <= |r| && r[..|found|] == found
    ensures forall e :: e in r <==> e in found || (e in cell && e.Landmine?)
    ensures NoDups(found) ==> NoDups(r)
    decreases |cell|
  {
    if cell == [] then found
    else
      var n := |cell| - 1;
      assert cell == cell[..n] + [cell[n]];
      var prev := Register(found, cell[..n]);
      if cell[n].Landmine? && cell[n] !in prev then prev + [cell[n]] else prev
  }

  /** The grid after `place_agent` has put mine i on `positions[i]` for each
      i in turn. */
  function PlaceMines(positions: seq<Pos>): (g: Grid<Entity>)
    requires forall i :: 0 <= i < |positions| ==> InBounds(positions[i])
    ensures Valid(g)
    ensures forall e :: e in g.pos <==> e.Landmine? && e.index < |positions|
    ensures forall i :: 0 <= i < |positions| ==> g.pos[Landmine(i)] == positions[i]
    decreases |positions|
  {
    if positions == [] then Empty()
    else
      var n := |positions| - 1;
      Place(PlaceMines(positions[..n]), Landmine(n), positions[n])
  }

  /** Placing the mines one more position further. */
  lemma PlaceMinesStep(positions: seq<Pos>, i: nat)
    requires i < |positions|
    requires forall j :: 0 <= j < |positions| ==> InBounds(positions[j])
    ensures PlaceMines(positions[..i + 1]) == Place(PlaceMines(positions[..i]), Landmine(i), positions[i])
  {
    assert positions[..i + 1][..i] == positions[..i];
  }

  /** The mines numbered below `n`. */
  ghost function FirstMines(n: nat): set<Entity> {
    set i | 0 <= i < n :: Landmine(i)
  }

  lemma {:induction false} FirstMinesCount(n: nat)
    ensures |FirstMines(n)| == n
  {
    if n > 0 {
      FirstMinesCount(n - 1);
      assert FirstMines(n) == FirstMines(n - 1) + {Landmine(n - 1)};
    }
  }

  /** `LandmineModel.__init__`: 20 mines on the drawn positions, then the
      Finder at (0,0), the Destroyer at (24,24) and the Scout at (12,12), with
      an empty list, a zero counter and an idle Destroyer. */
  function Initial(positions: seq<Pos>): (w: World)
    requires |positions| == MineCount
    requires forall i :: 0 <= i < |positions| ==> InBounds(positions[i])
    ensures Inv(w)
    ensures w.landmineLocations == [] && w.destroyedLandmines == 0 && w.destroyerState == Idle
    ensures |Mines(w.grid)| == MineCount
    ensures forall i :: 0 <= i < MineCount ==> Landmine(i) in w.grid.pos && w.grid.pos[Landmine(i)] == positions[i]
    ensures w.grid.pos[Finder] == Pos(0, 0)
    ensures w.grid.pos[Destroyer] == Pos(GridSize - 1, GridSize - 1)
    ensures w.grid.pos[Scout] == Pos(GridSize / 2, GridSize / 2)
  {
    var mines := PlaceMines(positions);
    var g1 := Place(mines, Finder, Pos(0, 0));
    var g2 := Place(g1, Destroyer, Pos(GridSize - 1, GridSize - 1));
    var g := Place(g2, Scout, Pos(GridSize / 2, GridSize / 2));
    assert Mines(g) == FirstMines(MineCount) by {
      forall e ensures e in Mines(g) <==> e in FirstMines(MineCount) {
        if e in FirstMines(MineCount) {
          var i :| 0 <= i < MineCount && e == Landmine(i);
        }
      }
    }
    FirstMinesCount(MineCount);
    World(g, [], 0, Idle)
  }

  /** `random_move` of a detector (Finder or Scout): it moves to the
      neighbour of its cell that the draw picks. */
  function RandomMoveNext(w: World, a: Entity, draw: nat): (r: World)
    requires Inv(w) && (a == Finder || a == Scout)
    ensures Inv(r)
    ensures r.grid.pos[a] in Neighborhood(w.grid.pos[a])
    ensures r.grid.pos == w.grid.pos[a := r.grid.pos[a]]
    ensures r.landmineLocations == w.landmineLocations
    ensures r.destroyedLandmines == w.destroyedLandmines && r.destroyerState == w.destroyerState
  {
    var here := w.grid.pos[a];
    var there := Choose(Neighborhood(here), draw);
    NeighborhoodIsVonNeumann(here, there);
    var r := w.(grid := Move(w.grid, a, there));
    assert Mines(r.grid) == Mines(w.grid);
    r
  }

  /** The scan that follows a detector's move: every landmine among the
      occupants of its cell that is not yet listed is appended. */
  function ScanNext(w: World, a: Entity): (r: World)
    requires Inv(w) && (a == Finder || a == Scout)
    ensures Inv(r)
    ensures r.grid == w.grid
    ensures r.landmineLocations == Register(w.landmineLocations, Cell(w.grid, w.grid.pos[a]))
    ensures r.destroyedLandmines == w.destroyedLandmines && r.destroyerState == w.destroyerState
  {
    var cell := Cell(w.grid, w.grid.pos[a]);
    assert forall e :: e in cell ==> e in w.grid.pos by {
      forall e | e in cell ensures e in w.grid.pos {
        InCell(w.grid, w.grid.pos[a], e);
      }
    }
    w.(landmineLocations := Register(w.landmineLocations, cell))
  }

  /** One move-then-scan pass of a detector. */
  function DetectorPass(w: World, a: Entity, draw: nat): (r: World)
    requires Inv(w) && (a == Finder || a == Scout)
    ensures Inv(r)
    ensures r.grid.pos == w.grid.pos[a := r.grid.pos[a]]
    ensures |w.landmineLocations| <= |r.landmineLocations|
    ensures r.landmineLocations[..|w.landmineLocations|] == w.landmineLocations
    ensures r.destroyedLandmines == w.destroyedLandmines && r.destroyerState == w.destroyerState
  {
    ScanNext(RandomMoveNext(w, a, draw), a)
  }

  /** A detector pass moves the detector to an in-bounds cell one orthogonal
      step away and leaves every landmine of that cell in the list, behind the
      entries that were already there. */
  lemma DetectorPassSpec(w: World, a: Entity, draw: nat)
    requires Inv(w) && (a == Finder || a == Scout)
    ensures var r := DetectorPass(w, a, draw);
      && InBounds(r.grid.pos[a]) && Manhattan(w.grid.pos[a], r.grid.pos[a]) == 1
      && (forall e :: e in Cell(r.grid, r.grid.pos[a]) && e.Landmine? ==> e in r.landmineLocations)
      && (forall e :: e in r.landmineLocations ==> e in w.landmineLocations || e in Cell(r.grid, r.grid.pos[a]))
  {
    var moved := RandomMoveNext(w, a, draw);
    NeighborhoodIsVonNeumann(w.grid.pos[a], moved.grid.pos[a]);
  }

  /** Two passes that each move only `a` and only extend the list compose
      into one that does the same. */
  lemma PassesCompose<K, V, T>(m0: map<K, V>, m1: map<K, V>, m2: map<K, V>, a: K, s0: seq<T>, s1: seq<T>, s2: seq<T>)
    requires a in m0 && a in m1 && a in m2
    requires m1 == m0[a := m1[a]] && m2 == m1[a := m2[a]]
    requires |s0| <= |s1| && s1[..|s0|] == s0 && |s1| <= |s2| && s2[..|s1|] == s1
    ensures m2 == m0[a := m2[a]]
    ensures |s0| <= |s2| && s2[..|s0|] == s0
  {
    assert s2[..|s0|] == s2[..|s1|][..|s0|];
  }

  /** Moving an agent that is not a landmine leaves the set of landmines alone. */
  lemma MinesAfterAgentMove(g: Grid<Entity>, r: Grid<Entity>, a: Entity)
    requires !a.Landmine? && a in g.pos && a in r.pos && r.pos == g.pos[a := r.pos[a]]
    ensures Mines(r) == Mines(g)
  {
  }

  /** Removing landmine `t` takes exactly it out of the set of landmines. */
  lemma MinesAfterRemove(g: Grid<Entity>, r: Grid<Entity>, t: Entity)
    requires t.Landmine? && t in g.pos && r.pos == g.pos - {t}
    ensures Mines(r) == Mines(g) - {t} && |Mines(r)| == |Mines(g)| - 1
  {
    assert t in Mines(g);
  }

  /** `FinderAgent.step`: one move-then-scan pass. */
  function FinderNext(w: World, draw: nat): (r: World)
    requires Inv(w)
    ensures Inv(r)
    ensures r.grid.pos == w.grid.pos[Finder := r.grid.pos[Finder]]
    ensures Mines(r.grid) == Mines(w.grid)
    ensures |w.landmineLocations| <= |r.landmineLocations|
    ensures r.landmineLocations[..|w.landmineLocations|] == w.landmineLocations
    ensures r.destroyedLandmines == w.destroyedLandmines && r.destroyerState == w.destroyerState
  {
    var r := DetectorPass(w, Finder, draw);
    MinesAfterAgentMove(w.grid, r.grid, Finder);
    r
  }

  /** `ScoutAgent.step`: two move-then-scan passes, the second from where the
      first ended. */
  function ScoutNext(w: World, first: nat, second: nat): (r: World)
    requires Inv(w)
    ensures Inv(r)
    ensures r.grid.pos == w.grid.pos[Scout := r.grid.pos[Scout]]
    ensures Mines(r.grid) == Mines(w.grid)
    ensures |w.landmineLocations| <= |r.landmineLocations|
    ensures r.landmineLocations[..|w.landmineLocations|] == w.landmineLocations
    ensures r.destroyedLandmines == w.destroyedLandmines && r.destroyerState == w.destroyerState
  {
    var mid := DetectorPass(w, Scout, first);
    var r := DetectorPass(mid, Scout, second);
    PassesCompose(w.grid.pos, mid.grid.pos, r.grid.pos, Scout,
      w.landmineLocations, mid.landmineLocations, r.landmineLocations);
    MinesAfterAgentMove(w.grid, r.grid, Scout);
    r
  }

  /** The Scout's step is its two passes in turn. */
  lemma ScoutNextPasses(w: World, first: nat, second: nat)
    requires Inv(w)
    ensures ScoutNext(w, first, second) == DetectorPass(DetectorPass(w, Scout, first), Scout, second)
  {
  }

  /** Whatever a list holds, a list it is a prefix of holds too. */
  lemma PrefixMembers<T>(s0: seq<T>, s1: seq<T>)
    requires |s0| <= |s1| && s1[..|s0|] == s0
    ensures forall e :: e in s0 ==> e in s1
  {
    forall e | e in s0 ensures e in s1 {
      var i :| 0 <= i < |s0| && s0[i] == e;
      assert s1[i] == e;
    }
  }

  /** Each of the Scout's two passes is one orthogonal step, and the
      landmines of both cells it lands on are in the list at the end of its
      step. */
  lemma ScoutNextSpec(w: World, first: nat, second: nat)
    requires Inv(w)
    ensures var mid := DetectorPass(w, Scout, first);
      var r := ScoutNext(w, first, second);
      && Manhattan(w.grid.pos[Scout], mid.grid.pos[Scout]) == 1
      && Manhattan(mid.grid.pos[Scout], r.grid.pos[Scout]) == 1
      && InBounds(r.grid.pos[Scout])
      && (forall e :: e in Cell(mid.grid, mid.grid.pos[Scout]) && e.Landmine? ==> e in r.landmineLocations)
      && (forall e :: e in Cell(r.grid, r.grid.pos[Scout]) && e.Landmine? ==> e in r.landmineLocations)
  {
    var mid := DetectorPass(w, Scout, first);
    DetectorPassSpec(w, Scout, first);
    DetectorPassSpec(mid, Scout, second);
    PrefixMembers(mid.landmineLocations, DetectorPass(mid, Scout, second).landmineLocations);
  }

  /** `DestroyerAgent.step`. */
  function DestroyerNext(w: World): (r: World)
    requires Inv(w)
    ensures Inv(r)
    ensures Mines(r.grid) <= Mines(w.grid)
    ensures w.destroyedLandmines <= r.destroyedLandmines <= w.destroyedLandmines + 1
  {
    if w.landmineLocations == [] then
      w.(destroyerState := Idle)
    else
      var target := w.landmineLocations[0];
      var here := w.grid.pos[Destroyer];
      if here == w.grid.pos[target] then
        var g := Remove(w.grid, target);
        MinesAfterRemove(w.grid, g, target);
        RemoveHead(w.landmineLocations);
        w.(destroyerState := Destroying, grid := g,
           landmineLocations := RemoveFirst(w.landmineLocations, target),
           destroyedLandmines := w.destroyedLandmines + 1)
      else
        var g := Move(w.grid, Destroyer, StepToward(here, w.grid.pos[target]));
        MinesAfterAgentMove(w.grid, g, Destroyer);
        w.(destroyerState := Moving, grid := g)
  }

  /** With nothing listed the Destroyer goes idle and changes nothing else. */
  lemma DestroyerIdles(w: World)
    requires Inv(w) && w.landmineLocations == []
    ensures DestroyerNext(w) == w.(destroyerState := Idle)
  {
  }

  /** Standing on its target, the oldest listed landmine, the Destroyer
      destroys exactly that landmine: off the grid, off the list, one more
      destroyed, and it does not move. */
  lemma DestroyerDestroys(w: World)
    requires Inv(w) && w.landmineLocations != []
    requires w.grid.pos[Destroyer] == w.grid.pos[w.landmineLocations[0]]
    ensures var t := w.landmineLocations[0];
      var r := DestroyerNext(w);
      && r.destroyerState == Destroying
      && r.grid.pos == w.grid.pos - {t}
      && r.grid.pos[Destroyer] == w.grid.pos[Destroyer]
      && Mines(r.grid) == Mines(w.grid) - {t}
      && r.landmineLocations == w.landmineLocations[1..]
      && t !in r.landmineLocations
      && r.destroyedLandmines == w.destroyedLandmines + 1
  {
    RemoveHead(w.landmineLocations);
    MinesAfterRemove(w.grid, DestroyerNext(w).grid, w.landmineLocations[0]);
  }

  /** Away from its target, the Destroyer takes one step, diagonal if need
      be, that brings it one king move closer to the target; the target, the
      list and the counter stay as they were. */
  lemma DestroyerApproaches(w: World)
    requires Inv(w) && w.landmineLocations != []
    requires w.grid.pos[Destroyer] != w.grid.pos[w.landmineLocations[0]]
    ensures var t := w.landmineLocations[0];
      var r := DestroyerNext(w);
      && r.destroyerState == Moving
      && r.grid.pos == w.grid.pos[Destroyer := r.grid.pos[Destroyer]]
      && r.grid.pos[t] == w.grid.pos[t]
      && r.grid.pos[Destroyer] == StepToward(w.grid.pos[Destroyer], w.grid.pos[t])
      && Chebyshev(w.grid.pos[Destroyer], r.grid.pos[Destroyer]) == 1
      && Chebyshev(r.grid.pos[Destroyer], r.grid.pos[t]) == Chebyshev(w.grid.pos[Destroyer], w.grid.pos[t]) - 1
      && r.landmineLocations == w.landmineLocations
      && r.destroyedLandmines == w.destroyedLandmines
  {
    assert w.landmineLocations[0] in Mines(w.grid);
  }

  /** `LandmineModel.step`: the scheduler steps the agents in the order they
      were added, Finder, Destroyer, Scout, each seeing what the previous one
      left. Landmines only ever leave the grid, at most one per tick, and the
      counter follows them. */
  function TickNext(w: World, d: Draws): (r: World)
    requires Inv(w)
    ensures Inv(r)
    ensures Mines(r.grid) <= Mines(w.grid)
    ensures w.destroyedLandmines <= r.destroyedLandmines <= w.destroyedLandmines + 1
  {
    var afterFinder := FinderNext(w, d.finder);
    var afterDestroyer := DestroyerNext(afterFinder);
    ScoutNext(afterDestroyer, d.scoutFirst, d.scoutSecond)
  }

  /** The world after one tick per entry of `ds`. */
  function Run(w: World, ds: seq<Draws>): (r: World)
    requires Inv(w)
    ensures Inv(r)
    ensures Mines(r.grid) <= Mines(w.grid)
    ensures w.destroyedLandmines <= r.destroyedLandmines <= MineCount
    decreases |ds|
  {
    if ds == [] then w else Run(TickNext(w, ds[0]), ds[1..])
  }

  /** A detector's step changes neither the Destroyer's position nor the
      head of the list nor where that landmine lies. */
  lemma DetectorKeepsTarget(w: World, r: World, a: Entity)
    requires a == Finder || a == Scout
    requires a in w.grid.pos && Destroyer in w.grid.pos && w.landmineLocations != []
    requires w.landmineLocations[0].Landmine? && w.landmineLocations[0] in w.grid.pos
    requires a in r.grid.pos && r.grid.pos == w.grid.pos[a := r.grid.pos[a]]
    requires |w.landmineLocations| <= |r.landmineLocations|
    requires r.landmineLocations[..|w.landmineLocations|] == w.landmineLocations
    ensures var t := w.landmineLocations[0];
      && r.landmineLocations != [] && r.landmineLocations[0] == t
      && r.grid.pos[Destroyer] == w.grid.pos[Destroyer] && r.grid.pos[t] == w.grid.pos[t]
  {
    assert r.landmineLocations[0] == r.landmineLocations[..|w.landmineLocations|][0];
  }

  /** While the Destroyer is not on its FIFO target, a tick moves it one king
      move closer, keeps that target at the head of the list and destroys
      nothing. */
  lemma TickApproaches(w: World, d: Draws)
    requires Inv(w) && w.landmineLocations != []
    requires w.grid.pos[Destroyer] != w.grid.pos[w.landmineLocations[0]]
    ensures var t := w.landmineLocations[0];
      var r := TickNext(w, d);
      && r.destroyerState == Moving
      && r.landmineLocations != [] && r.landmineLocations[0] == t
      && t in r.grid.pos && r.grid.pos[t] == w.grid.pos[t]
      && Chebyshev(r.grid.pos[Destroyer], r.grid.pos[t]) == Chebyshev(w.grid.pos[Destroyer], w.grid.pos[t]) - 1
      && r.destroyedLandmines == w.destroyedLandmines
  {
    var w1 := FinderNext(w, d.finder);
    DetectorKeepsTarget(w, w1, Finder);
    DestroyerApproaches(w1);
    var w2 := DestroyerNext(w1);
    assert w2.landmineLocations[0] in Mines(w2.grid);
    DetectorKeepsTarget(w2, ScoutNext(w2, d.scoutFirst, d.scoutSecond), Scout);
  }

  /** When the Destroyer starts a tick on its FIFO target, the tick destroys
      exactly that landmine. */
  lemma TickDestroys(w: World, d: Draws)
    requires Inv(w) && w.landmineLocations != []
    requires w.grid.pos[Destroyer] == w.grid.pos[w.landmineLocations[0]]
    ensures var t := w.landmineLocations[0];
      var r := TickNext(w, d);
      && r.destroyerState == Destroying
      && Mines(r.grid) == Mines(w.grid) - {t}
      && t !in r.grid.pos && t !in r.landmineLocations
      && r.destroyedLandmines == w.destroyedLandmines + 1
  {
    var t := w.landmineLocations[0];
    var w1 := FinderNext(w, d.finder);
    DetectorKeepsTarget(w, w1, Finder);
    DestroyerDestroys(w1);
    var r := TickNext(w, d);
    assert t !in Mines(r.grid);
  }

  /** A listed landmine one king move from the Destroyer is not destroyed in
      the next tick: that tick only brings the Destroyer onto its cell, and
      the destruction comes one tick later. */
  lemma AdjacentNeedsTwoTicks(w: World, d: Draws)
    requires Inv(w) && w.landmineLocations != []
    requires Chebyshev(w.grid.pos[Destroyer], w.grid.pos[w.landmineLocations[0]]) == 1
    ensures var t := w.landmineLocations[0];
      var r := TickNext(w, d);
      && r.destroyerState == Moving
      && r.landmineLocations != [] && r.landmineLocations[0] == t && t in r.grid.pos
      && r.grid.pos[Destroyer] == r.grid.pos[t]
      && r.destroyedLandmines == w.destroyedLandmines
  {
    TickApproaches(w, d);
  }

  /** One tick of `Run`. */
  lemma RunStep(w: World, ds: seq<Draws>)
    requires Inv(w) && ds != []
    ensures Run(w, ds) == Run(TickNext(w, ds[0]), ds[1..])
  {
  }

  /** A one-element sequence is the display of its element. */
  lemma Singleton<T>(s: seq<T>)
    requires |s| == 1
    ensures s == [s[0]]
  {
  }

  /** `Run` over a single tick is that tick. */
  lemma RunOne(w: World, d: Draws)
    requires Inv(w)
    ensures Run(w, [d]) == TickNext(w, d)
  {
    assert [d][1..] == [];
  }

  /** The last tick of the pursuit: the Destroyer stands on its target. */
  lemma HeadDestroyedNow(w: World, ds: seq<Draws>)
    requires Inv(w) && w.landmineLocations != [] && |ds| == 1
    requires w.grid.pos[Destroyer] == w.grid.pos[w.landmineLocations[0]]
    ensures var t := w.landmineLocations[0];
      var r := Run(w, ds);
      && t !in r.grid.pos && t !in r.landmineLocations
      && r.destroyedLandmines == w.destroyedLandmines + 1
  {
    TickDestroys(w, ds[0]);
    Singleton(ds);
    RunOne(w, ds[0]);
  }

  /** The Destroyer's FIFO target is destroyed after Chebyshev distance + 1
      ticks, whatever the detectors draw meanwhile, and the counter has gone
      up by exactly one. */
  lemma {:induction false} HeadDestroyedWithin(w: World, ds: seq<Draws>)
    requires Inv(w) && w.landmineLocations != []
    requires |ds| == Chebyshev(w.grid.pos[Destroyer], w.grid.pos[w.landmineLocations[0]]) + 1
    ensures var t := w.landmineLocations[0];
      var r := Run(w, ds);
      && t !in r.grid.pos && t !in r.landmineLocations
      && r.destroyedLandmines == w.destroyedLandmines + 1
    decreases |ds|
  {
    if w.grid.pos[Destroyer] == w.grid.pos[w.landmineLocations[0]] {
      HeadDestroyedNow(w, ds);
    } else {
      TickApproaches(w, ds[0]);
      RunStep(w, ds);
      HeadDestroyedWithin(TickNext(w, ds[0]), ds[1..]);
    }
  }

  /** A list whose entries all lie in `S` has its head in `S`. */
  lemma HeadInSet<T>(s: seq<T>, S: set<T>)
    requires forall i :: 0 <= i < |s| ==> s[i] in S
    ensures |s| > 0 ==> s[0] in S
  {
  }

  /** A world with no landmine left has none listed. */
  lemma NothingListedWhenCleared(w: World)
    requires Inv(w) && w.destroyedLandmines == MineCount
    ensures Mines(w.grid) == {} && w.landmineLocations == []
  {
    HeadInSet(w.landmineLocations, Mines(w.grid));
  }

  /** Once every landmine is destroyed, every further tick leaves the
      Destroyer idle, the list empty and the counter at 20. */
  lemma ClearedFieldStaysIdle(w: World, d: Draws)
    requires Inv(w) && w.destroyedLandmines == MineCount
    ensures var r := TickNext(w, d);
      r.destroyerState == Idle && r.landmineLocations == [] && r.destroyedLandmines == MineCount
  {
    NothingListedWhenCleared(w);
    var w1 := FinderNext(w, d.finder);
    NothingListedWhenCleared(w1);
    DestroyerIdles(w1);
    NothingListedWhenCleared(TickNext(w, d));
  }

  /** In a tick that destroys nothing, the list only grows at its end. */
  lemma TickListGrows(w: World, d: Draws)
    requires Inv(w)
    ensures var r := TickNext(w, d);
      r.destroyedLandmines == w.destroyedLandmines ==>
        |w.landmineLocations| <= |r.landmineLocations| &&
        r.landmineLocations[..|w.landmineLocations|] == w.landmineLocations
  {
    var w1 := FinderNext(w, d.finder);
    var w2 := DestroyerNext(w1);
    if w1.landmineLocations != [] && w1.grid.pos[Destroyer] == w1.grid.pos[w1.landmineLocations[0]] {
      DestroyerDestroys(w1);
    } else {
      DestroyerKeepsList(w1);
      PrefixOfPrefix(w.landmineLocations, w1.landmineLocations,
                     ScoutNext(w2, d.scoutFirst, d.scoutSecond).landmineLocations);
    }
  }

  /** Unless it stands on its target, the Destroyer leaves the list alone. */
  lemma DestroyerKeepsList(w: World)
    requires Inv(w)
    requires w.landmineLocations == [] || w.grid.pos[Destroyer] != w.grid.pos[w.landmineLocations[0]]
    ensures DestroyerNext(w).landmineLocations == w.landmineLocations
    ensures DestroyerNext(w).destroyedLandmines == w.destroyedLandmines
  {
  }

  /** In a tick that destroys a landmine while the list was not empty, the
      entry dropped is the old head and the rest keeps its order. */
  lemma TickListDropsHead(w: World, d: Draws)
    requires Inv(w) && w.landmineLocations != []
    ensures var r := TickNext(w, d);
      r.destroyedLandmines == w.destroyedLandmines + 1 ==>
        |w.landmineLocations| - 1 <= |r.landmineLocations| &&
        r.landmineLocations[..|w.landmineLocations| - 1] == w.landmineLocations[1..]
  {
    var w1 := FinderNext(w, d.finder);
    DetectorKeepsTarget(w, w1, Finder);
    if w1.grid.pos[Destroyer] == w1.grid.pos[w1.landmineLocations[0]] {
      DestroyerDestroys(w1);
      var w2 := DestroyerNext(w1);
      DropHeadThenGrow(w.landmineLocations, w1.landmineLocations, w2.landmineLocations,
                       ScoutNext(w2, d.scoutFirst, d.scoutSecond).landmineLocations);
    } else {
      DestroyerKeepsList(w1);
    }
  }

  /** A list that grows, loses its head, then grows again keeps the rest of
      the original list at its front. */
  lemma DropHeadThenGrow<T>(s0: seq<T>, s1: seq<T>, s2: seq<T>, s3: seq<T>)
    requires 0 < |s0| <= |s1| && s1[..|s0|] == s0
    requires s2 == s1[1..] && |s2| <= |s3| && s3[..|s2|] == s2
    ensures |s0| - 1 <= |s3| && s3[..|s0| - 1] == s0[1..]
  {
    DropHeadOfPrefix(s0, s1);
    PrefixOfPrefix(s0[1..], s2, s3);
  }

  /** Dropping the head of a list and of a list it prefixes keeps the prefix. */
  lemma DropHeadOfPrefix<T>(s0: seq<T>, s1: seq<T>)
    requires 0 < |s0| <= |s1| && s1[..|s0|] == s0
    ensures |s0[1..]| <= |s1[1..]| && s1[1..][..|s0| - 1] == s0[1..]
  {
    assert s1[1..][..|s0| - 1] == s1[..|s0|][1..];
  }

  /** Being a prefix is transitive. */
  lemma PrefixOfPrefix<T>(s0: seq<T>, s1: seq<T>, s2: seq<T>)
    requires |s0| <= |s1| && s1[..|s0|] == s0 && |s1| <= |s2| && s2[..|s1|] == s1
    ensures |s0| <= |s2| && s2[..|s0|] == s0
  {
    assert s2[..|s0|] == s2[..|s1|][..|s0|];
  }
}
