# Landmine clearance simulation — Dafny model

This project models the agent logic of `landmind.py`: a 25 x 25 non-wrapping
Mesa `MultiGrid` holds 20 landmines and three agents. On every tick the
scheduler steps them in the order they were added. The **Finder** takes one random orthogonal step and registers the
landmines in its new cell. The **Destroyer** works through the shared
`landmine_locations` list oldest first. It walks towards the head entry with one
king move per tick, and when it stands on that landmine's cell it removes the
mine from the grid and the list and increments `destroyed_landmines`. The
**Scout** does the Finder's move-and-scan twice per tick.

The project has five modules:

- `Seqs` holds Python's `list.remove` and the "no duplicates" predicate.
- `Space` holds positions, bounds, the von Neumann neighbourhood, the draw
  that stands for `random.choice` and the Destroyer's pursuit step.
- `MultiGrid` models Mesa's grid as a value. Each cell has a list of
  occupants, each placed agent has a recorded position, and validity ties the
  two together. It provides `place_agent`, `remove_agent` and `move_agent`.
- `Landmind` holds a snapshot `World` of the model's state and the invariant
  every tick keeps: destroyed + landmines on the grid = 20, and the list holds
  distinct landmines that are all still on the grid. Each agent's `step` and
  the whole tick are pure transitions on `World`, with lemmas for what they
  guarantee.
- `Simulation` holds the class `LandmineModel`. Its fields are the grid, the
  list, the counter and the Destroyer's state. Its methods update these fields
  in place with the source's loops, and each method is proved to reach exactly
  the state of the matching transition in `Landmind`.

Randomness is a parameter. Each `random.choice` is a natural-number draw that
picks entry `draw % n` of the neighbour list. The 20 initial mine positions are
an argument of the constructor.

## Model

| member | source | states |
|---|---|---|
| Seqs.RemoveFirst | landmind.py:57 | `list.remove` of a present value: one fewer element, the multiset loses exactly one copy of the value, and removing the head leaves the tail |
| Seqs.RemoveFirstAt | landmind.py:56-57 | `list.remove` drops exactly the first occurrence of the value: the entries before it and after it keep their order |
| Seqs.RemoveHead | landmind.py:57 | on a duplicate-free list, removing the head value drops exactly the head, and the rest stays duplicate-free without it |
| Space.Neighborhood | landmind.py:40 | the von Neumann neighbourhood of an in-bounds cell has 4 minus the number of borders the cell touches |
| Space.NeighborhoodIsVonNeumann | landmind.py:40 | a cell is a neighbour iff it is in bounds and exactly one orthogonal step away (both directions) |
| Space.NeighborhoodSize | landmind.py:40 | a corner has 2 neighbours, an edge cell 3, an interior cell 4, all distinct |
| Space.Choose | landmind.py:41 | the choice always returns one of the offered neighbours |
| Space.ChooseReachesAll | landmind.py:41 | every offered neighbour is picked by some draw |
| Space.StepToward | landmind.py:66-70 | on each axis the gap to the target shrinks by exactly one unless it is already closed, and the step moves at most one unit per axis, which fixes the new cell; away from the target it is one king move that shortens the Chebyshev distance by exactly 1; on the target it stays; between in-bounds cells it stays in bounds |
| MultiGrid.Empty | landmind.py:95 | the fresh grid is consistent and has no agent placed |
| MultiGrid.InCell | landmind.py:34 | an agent is among a cell's contents iff its recorded position is that cell |
| MultiGrid.Place | landmind.py:115 | placing keeps the grid consistent, records the position, appends the agent to that cell's list and changes no other cell |
| MultiGrid.Remove | landmind.py:56 | removing keeps the grid consistent, forgets exactly that agent's position and changes no other cell |
| MultiGrid.Move | landmind.py:42 | moving keeps the grid consistent, updates only that agent's position, puts it in the new cell and leaves every other cell alone |
| Landmind.Register | landmind.py:34-37 | the scanned list keeps the old list as a prefix, holds exactly the old entries plus the cell's landmines, and stays duplicate-free |
| Landmind.PlaceMines | landmind.py:112-115 | after placing, exactly mines 0..n-1 are on the grid, mine i on the i-th position |
| Landmind.Initial | landmind.py:93-126 | the initial model satisfies the invariant with 20 mines on their positions, an empty list, a zero counter, an idle Destroyer, and the Finder, Destroyer and Scout at (0,0), (24,24) and (12,12) |
| Landmind.RandomMoveNext | landmind.py:39-42 | a random move takes the detector to one of its cell's neighbours, moves nobody else and keeps the invariant, the list, the counter and the state |
| Landmind.ScanNext | landmind.py:34-37 | a scan leaves the grid as it is and sets the list to the old list registered with the detector's cell |
| Landmind.DetectorPass | landmind.py:32-37 | a move-then-scan keeps the invariant, moves only the detector and only appends to the list |
| Landmind.DetectorPassSpec | landmind.py:32-42 | the detector ends one orthogonal step away, in bounds; every landmine of its new cell is listed and every new entry comes from that cell |
| Landmind.FinderNext | landmind.py:32-37 | the Finder's step moves only the Finder, keeps every landmine on the grid and only appends to the list |
| Landmind.ScoutNext | landmind.py:78-84 | the Scout's step moves only the Scout, keeps every landmine on the grid and only appends to the list |
| Landmind.ScoutNextSpec | landmind.py:78-89 | each of the Scout's two moves is one orthogonal step, and the landmines of both cells it visits are listed after its step |
| Landmind.DestroyerNext | landmind.py:50-64 | the Destroyer's step keeps the invariant, only removes landmines, and raises the counter by 0 or 1 |
| Landmind.DestroyerIdles | landmind.py:63-64 | with an empty list the Destroyer only becomes Idle |
| Landmind.DestroyerDestroys | landmind.py:52-58 | on its target's cell the Destroyer becomes Destroying, removes exactly the head landmine from the grid and the list without moving, and the counter goes up by 1 |
| Landmind.DestroyerApproaches | landmind.py:59-71 | off its target's cell the Destroyer becomes Moving, moves to exactly the pursuit step's cell, one king move closer (distance exactly 1 less), and the list, the counter and every other position stay |
| Landmind.DestroyerKeepsList | landmind.py:51-61 | unless it stands on its target, the Destroyer changes neither the list nor the counter |
| Landmind.TickNext | landmind.py:128-129 | a tick (Finder, then Destroyer, then Scout) keeps the invariant, only removes landmines, and raises the counter by 0 or 1 |
| Landmind.Run | landmind.py:128-129 | after any number of ticks the invariant holds (destroyed + mines on the grid = 20, every listed entry still on the grid) and the counter never decreases nor exceeds 20 |
| Landmind.TickApproaches | landmind.py:50-71 | while the Destroyer is off its target, a tick keeps the target at the head of the list and in place, brings the Destroyer one king move closer and destroys nothing |
| Landmind.TickDestroys | landmind.py:52-58 | a tick that starts with the Destroyer on its target removes exactly that landmine from the grid and the list and counts it |
| Landmind.AdjacentNeedsTwoTicks | landmind.py:53-61 | a head landmine one king move away is not destroyed in the next tick; the Destroyer only reaches its cell |
| Landmind.HeadDestroyedNow | landmind.py:52-58 | a one-tick run from the target's cell destroys the target and counts it |
| Landmind.HeadDestroyedWithin | landmind.py:50-71 | whatever the detectors draw, the head landmine is off the grid and the list after Chebyshev distance + 1 ticks, with the counter exactly 1 higher |
| Landmind.NothingListedWhenCleared | landmind.py:56-58 | once 20 landmines are destroyed none is left on the grid and the list is empty |
| Landmind.ClearedFieldStaysIdle | landmind.py:63-64 | once 20 landmines are destroyed every tick leaves the Destroyer Idle, the list empty and the counter at 20 |
| Landmind.TickListGrows | landmind.py:35-37 | in a tick that destroys nothing the old list stays a prefix of the new one |
| Landmind.TickListDropsHead | landmind.py:52-57 | in a tick that destroys a landmine the old list minus its head is a prefix of the new one |
| Simulation.LandmineModel.constructor | landmind.py:93-126 | the constructor's placement loop builds exactly the initial world, so the invariant holds |
| Simulation.LandmineModel.RandomMove | landmind.py:39-42 | moving in place reaches the state of the pure random move |
| Simulation.LandmineModel.Scan | landmind.py:34-37 | the scan loop over the cell's occupants appends exactly what `Register` appends |
| Simulation.LandmineModel.FinderStep | landmind.py:32-37 | the Finder's step in place reaches the state of the pure Finder step |
| Simulation.LandmineModel.ScoutStep | landmind.py:78-84 | the two-round loop reaches the state of the pure Scout step |
| Simulation.LandmineModel.MoveTowards | landmind.py:66-71 | the Destroyer moves in place to the pursuit step's cell and nothing else changes |
| Simulation.LandmineModel.DestroyerStep | landmind.py:50-64 | the Destroyer's step in place reaches the state of the pure Destroyer step |
| Simulation.LandmineModel.Step | landmind.py:128-129 | a tick in place reaches the state of the pure tick, so every tick lemma holds of the object |

## Left out

- Rendering is not modelled. This covers pygame, the images, the colours, the screen constants, `draw_grid`, the details panel and the event loop, because none of them changes the model's state.
- The `print` calls in the Destroyer's step are not modelled; they only write to the console.
- The random generator is not modelled. Every `random.choice` is a draw parameter, and the 20 `randrange` pairs are the constructor's `minePositions`. The model covers every possible outcome but says nothing about the distribution.
- Mesa internals are not modelled. The grid is modelled directly. The neighbour list of (x, y) is taken in the order (x, y-1), (x-1, y), (x+1, y), (x, y+1), and no property proved depends on that order. The scheduler's `advance` phase does nothing for these agents and is not modelled.
- Agents as separate objects are not modelled. Each agent's `pos` is kept in the grid's position map, and the Destroyer's `state` is a field of the model. A landmine `Landmine-i` is the value `Landmine(i)`; Python compares agents by identity, and distinct indices give the same distinctness.
- Simulation.LandmineModel.constructor: the mine positions are given rather than drawn, and they need not be distinct, as in the source.
- Landmind.AdjacentNeedsTwoTicks: a listed landmine one king move from the Destroyer is destroyed on the second tick, not the first. The first tick only moves the Destroyer onto its cell (landmind.py:59-61), and the second removes it (landmind.py:53-58).
