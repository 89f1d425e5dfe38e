/** `LandmineModel` as an object whose methods update its fields in place,
    the way the agents' `step` methods update the shared model. Each method
    is proved to leave the object in the state the matching transition of
    module Landmind computes, so everything proved there holds of it. */
module Simulation {
  import opened Seqs
  import opened Space
  import opened MultiGrid
  import opened Landmind

  class LandmineModel {
    /** The 25 x 25 multigrid; the agents' positions are recorded in it. */
    var grid: Grid<Entity>
    /** Found landmines, oldest first: the Destroyer's work queue. */
    var landmineLocations: seq<Entity>
    var destroyedLandmines: nat
    /** The Destroyer agent's `state`. */
    var destroyerState: DestroyerState

    /** The object's fields as one value. */
    ghost function Snapshot(): World
      reads this
    {
      World(grid, landmineLocations, destroyedLandmines, destroyerState)
    }

    ghost predicate Valid()
      reads this
    {
      Inv(Snapshot())
    }

    /** `__init__`: the 20 mine positions the generator draws are given as
        `minePositions`; the mines are placed in order, then the three agents. */
    constructor (minePositions: seq<Pos>)
      requires |minePositions| == MineCount
      requires forall i :: 0 <= i < |minePositions| ==> InBounds(minePositions[i])
      ensures Snapshot() == Initial(minePositions)
      ensures Valid()
    {
      var g: Grid<Entity> := Empty();
      for i := 0 to |minePositions|
        invariant g == PlaceMines(minePositions[..i])
      {
        PlaceMinesStep(minePositions, i);
        g := Place(g, Landmine(i), minePositions[i]);
      }
      assert minePositions[..|minePositions|] == minePositions;
      g := Place(g, Finder, Pos(0, 0));
      g := Place(g, Destroyer, Pos(GridSize - 1, GridSize - 1));
      g := Place(g, Scout, Pos(GridSize / 2, GridSize / 2));
      grid := g;
      landmineLocations := [];
      destroyedLandmines := 0;
      destroyerState := Idle;
    }

    /** `random_move` of the Finder or the Scout. */
    method RandomMove(a: Entity, draw: nat)
      requires Valid() && (a == Finder || a == Scout)
      modifies this
      ensures Snapshot() == RandomMoveNext(old(Snapshot()), a, draw)
      ensures Valid()
    {
      var possibleSteps := Neighborhood(grid.pos[a]);
      var newPosition := Choose(possibleSteps, draw);
      NeighborhoodIsVonNeumann(grid.pos[a], newPosition);
      grid := Move(grid, a, newPosition);
    }

    /** The scan loop after a detector's move: each occupant of its cell that
        is a landmine and not yet listed is appended to the list. */
    method Scan(a: Entity)
      requires Valid() && (a == Finder || a == Scout)
      modifies this
      ensures Snapshot() == ScanNext(old(Snapshot()), a)
      ensures Valid()
    {
      var cellContents := Cell(grid, grid.pos[a]);
      for i := 0 to |cellContents|
        invariant landmineLocations == Register(old(landmineLocations), cellContents[..i])
        invariant grid == old(grid)
        invariant destroyedLandmines == old(destroyedLandmines)
        invariant destroyerState == old(destroyerState)
      {
        assert cellContents[..i + 1][..i] == cellContents[..i];
        var agent := cellContents[i];
        if agent.Landmine? && agent !in landmineLocations {
          landmineLocations := landmineLocations + [agent];
        }
      }
      assert cellContents[..|cellContents|] == cellContents;
    }

    /** `FinderAgent.step`: move, then scan. */
    method FinderStep(draw: nat)
      requires Valid()
      modifies this
      ensures Snapshot() == FinderNext(old(Snapshot()), draw)
      ensures Valid()
    {
      RandomMove(Finder, draw);
      Scan(Finder);
    }

    /** `ScoutAgent.step`: two rounds of move-then-scan, `first` and `second`
        being the draws of the two moves. */
    method ScoutStep(first: nat, second: nat)
      requires Valid()
      modifies this
      ensures Snapshot() == ScoutNext(old(Snapshot()), first, second)
      ensures Valid()
    {
      for round := 0 to 2
        invariant Valid()
        invariant round == 0 ==> Snapshot() == old(Snapshot())
        invariant round == 1 ==> Snapshot() == DetectorPass(old(Snapshot()), Scout, first)
        invariant round == 2 ==> Snapshot() == ScoutNext(old(Snapshot()), first, second)
      {
        ghost var before := Snapshot();
        RandomMove(Scout, if round == 0 then first else second);
        Scan(Scout);
        assert Snapshot() == DetectorPass(before, Scout, if round == 0 then first else second);
      }
      ScoutNextPasses(old(Snapshot()), first, second);
    }

    /** `move_towards`: one unit towards `targetPos` along each axis on which
        it differs. */
    method MoveTowards(targetPos: Pos)
      requires Valid() && InBounds(targetPos)
      modifies this
      ensures Valid()
      ensures Snapshot() == old(Snapshot()).(grid := Move(old(grid), Destroyer, StepToward(old(grid.pos[Destroyer]), targetPos)))
    {
      var newPosition := StepToward(grid.pos[Destroyer], targetPos);
      var g := Move(grid, Destroyer, newPosition);
      MinesAfterAgentMove(grid, g, Destroyer);
      grid := g;
    }

    /** `DestroyerAgent.step`: destroy the oldest listed landmine when
        standing on it, otherwise step towards it; idle when nothing is listed. */
    method DestroyerStep()
      requires Valid()
      modifies this
      ensures Snapshot() == DestroyerNext(old(Snapshot()))
      ensures Valid()
    {
      if landmineLocations != [] {
        var target := landmineLocations[0];
        assert target in Mines(grid);
        if grid.pos[Destroyer] == grid.pos[target] {
          destroyerState := Destroying;
          grid := Remove(grid, target);
          landmineLocations := RemoveFirst(landmineLocations, target);
          destroyedLandmines := destroyedLandmines + 1;
        } else {
          destroyerState := Moving;
          MoveTowards(grid.pos[target]);
        }
      } else {
        destroyerState := Idle;
      }
    }

    /** `LandmineModel.step`: the scheduler steps the Finder, the Destroyer
        and the Scout, in the order they were added. */
    method Step(d: Draws)
      requires Valid()
      modifies this
      ensures Snapshot() == TickNext(old(Snapshot()), d)
      ensures Valid()
    {
      FinderStep(d.finder);
      DestroyerStep();
      ScoutStep(d.scoutFirst, d.scoutSecond);
    }
  }
}
