# Lux AI 2021 engine core, modelled in Dafny

This project models the engine of glmcdona/LuxPythonEnvGym, a partial
Python port of the Lux AI 2021 game engine. Two teams place units and city
tiles on a grid. Workers and carts carry wood, coal and uranium. Cities
burn fuel every night. A match ends on the last day, or when one team has
nothing left.

The model covers the rules the repository writes out:

- grid geometry: Manhattan distance, adjacency, `translate`, and the greedy
  `direction_to` with its north, east, south, west tie-break;
- cells and the map: resources, city tiles, roads, the resource index and
  the neighbour list;
- units and their cargo: cargo space, paying the night's upkeep wood
  first, and paying the city build cost;
- cities and city tiles: light upkeep with its adjacency bonus, research,
  cooldown reset and decay;
- the action queue of every actionable: actions are appended, and the
  queue is emptied after `handle_turn` even when `turn` raises;
- the `Game` aggregate: its initial state, the unit cap, unit spawning
  with its id counter, and `spawnCityTile` (found a city, or join the
  first same-team neighbour's city and merge the other cities found);
- `match.py`: the phase order of `run_turn`, the prune of depleted
  resources, the night, `matchOver` and the ranking of `getResults`.

Game parameters (`GAME_CONSTANTS["PARAMETERS"]`) come from
game_constants.py, which constants.py, unit.py and game_objects.py
import; game_constants.py is not part of this model, so their values are
left symbolic. They are a `Parameters` record, with the assumptions
in `Parameters.Valid` (positive fuel rates, MIN_ROAD ≤ MAX_ROAD,
non-negative costs). Cooldowns and roads are `real`, which is exact.
Cargo counts are `nat`; fuel is `int`.

Module layout, one per source file: `Geometry` (game/game_map.py
`Position`), `Cells`, `Maps`, `Actions`, `Actionables`, `CityTiles` and
`Cities` (city.py), `Units`, `GameObjects` with `Commands` and `Text` (the
agent-side objects and their command strings), `Games` (game.py), `Turns`
(the `turn` methods, which call back into the game), `Match` and
`RunTurns` (match.py), and `Tallies` (per-team counts over a dictionary).

The Python is often defective (transliterated TypeScript in match.py,
`.set`/`.length` on Python containers, loop variables that shadow
arguments, `configs` never stored). Where a statement cannot mean what it
says, the model does what the code evidently intends. Each such place is
listed under "Left out" or "Findings".

## Model

| member | source | states |
|---|---|---|
| Geometry.DistanceSymmetric | game/game_map.py:98-105 | The Manhattan distance is symmetric. |
| Geometry.DistanceZeroIffEqual | game/game_map.py:98-111 | The distance is 0 exactly when the two positions are equal (`__eq__`). |
| Geometry.AdjacentReflexiveSymmetric | game/game_map.py:107-108 | `is_adjacent` holds for a position and itself, is symmetric, and holds exactly at distance 0 or 1. |
| Geometry.TranslateInverse | game/game_map.py:116-126 | North then south by n, or east then west by n, returns to the start; CENTER is the identity. |
| Geometry.TranslateDistance | game/game_map.py:116-126 | A translation by n ≥ 0 in a cardinal direction moves exactly n cells. |
| Geometry.StepChangesDistanceByOne | game/game_map.py:138-145 | A unit step changes the distance to any target by exactly one, up or down. |
| Geometry.FirstImprovingUnfolded | game/game_map.py:132-146 | The choice `direction_to` makes is the first of N, E, S, W whose step is strictly closer, else CENTER. |
| Geometry.FirstImprovingSpec | game/game_map.py:132-146 | That choice is CENTER exactly at the target; otherwise its step reduces the distance by exactly 1. |
| Geometry.DirectionTo | game/game_map.py:128-146 | The loop returns the first improving direction in N, E, S, W order; CENTER iff at the target; a non-CENTER result gains exactly one. |
| Geometry.AdjacentPositionsOrder | luxai2021/game/game_map.py:50-69 | The neighbour positions are the N, E, S, W steps that stay on the grid, in that order. |
| Geometry.AdjacentPositionsExact | luxai2021/game/game_map.py:50-69 | A position is a neighbour exactly when it is on the grid at distance 1. |
| Geometry.AdjacentPositionsInBounds | luxai2021/game/game_map.py:50-69 | Every neighbour is on the grid. |
| Geometry.AdjacentPositionsDistinct | luxai2021/game/game_map.py:50-69 | The neighbours are pairwise different and never the cell itself. |
| Geometry.NeighbourCount | luxai2021/game/game_map.py:50-69 | On a grid at least 2 × 2: two neighbours at a corner, three on an edge, four inside. |
| Actions.Action.SpawnedType | luxai2021/game/actions.py:27-35 | A spawn-cart action has type CART and a spawn-worker action type WORKER. |
| Commands.TokensHaveNoSpace | luxai2021/game/game_objects.py:54-158 | A well-formed command's words are non-empty in number and contain no space. |
| Commands.ParseTokensInverse | luxai2021/game/game_objects.py:54-158 | Reading a command's words gives the command back. |
| Commands.ParseSerialize | luxai2021/game/game_objects.py:54-158 | Every command string the agent objects build parses back to the command that produced it. |
| Commands.CommandStartsWithCode | luxai2021/game/game_objects.py:54-158 | The first word of every command string is its kind's code ("m", "r", "bw", "bc", "bcity", "t", "p"), the text inside the kind's `ACTIONS` entry of luxai2021/game/game.py:14-52. |
| Text.NatRoundTrip | luxai2021/game/city.py:21 | The decimal text of a natural number is all digits and reads back as that number. |
| Text.IntRoundTrip | luxai2021/game/game_objects.py:59 | The decimal text of an integer reads back as it and holds only digits and a sign. |
| Text.SplitJoin | luxai2021/game/game_objects.py:54-158 | Joining space-free words with spaces and splitting at spaces gives the words back. |
| Actionables.Decayed | luxai2021/game/city.py:75-76 | A positive cooldown drops by exactly 1; a cooldown ≤ 0 is unchanged; it never grows. |
| Actionables.DecayedTimesWhole | luxai2021/game/city.py:75-76 | A whole cooldown c decays over t turns to max(c − t, 0). |
| Actionables.ReadyAfterDecay | luxai2021/game/actionable.py:16-17 | A whole cooldown c allows `can_act` again after c turns of decay. |
| CityTiles.CityTile.constructor | luxai2021/game/city.py:39-44 | A new tile has the given team, position and city id, no adjacent tiles, cooldown 0 and an empty queue. |
| CityTiles.CityTile.CargoSpaceLeft | luxai2021/game/city.py:55-56 | A city tile's cargo space is the constant 9999999. |
| CityTiles.CityTile.ResetCooldown | luxai2021/game/city.py:78-79 | The cooldown becomes CITY_ACTION_COOLDOWN. |
| CityTiles.CityTile.GiveAction | luxai2021/game/actionable.py:26-27 | Exactly one action is appended at the end of the queue. |
| CityTiles.TileIDAsWrittenCollides | luxai2021/game/city.py:46-47 | As written, two tiles of one city at different positions get the same id. |
| CityTiles.TileIdentifierDeterminesPosition | luxai2021/game/city.py:46-47 | The intended id "<cityid>_<x>_<y>" determines the tile's position within its city. |
| CityTiles.SplitOnTileIdentifier | luxai2021/game/city.py:46-47 | The last two `_`-separated fields of the intended id are x and y. |
| Cells.Cell.constructor | luxai2021/game/cell.py:17-22 | A new cell is at (x, y), with no resource, no city tile, no units and road MIN_ROAD. |
| Cells.Cell.SetResource | luxai2021/game/cell.py:24-28 | The resource is set; `hasResource` then holds iff the amount is positive; city tile, road and units are unchanged. |
| Cells.Cell.SetCityTile | luxai2021/game/cell.py:30-36 | A fresh tile with the given team and city id, at the cell's position, now occupies the cell; resource, road and units are unchanged. |
| Cells.GetRoadSpec | luxai2021/game/cell.py:41-45 | `getRoad` is MAX_ROAD on a city tile and the stored road elsewhere, so it stays in [MIN_ROAD, MAX_ROAD] when the road does. |
| Maps.GameMap.constructor | luxai2021/game/game_map.py:17-32 | `height` rows of `width` fresh empty cells, cell (x, y) at row y, column x; both resource indexes empty. |
| Maps.GameMap.GetCell | luxai2021/game/game_map.py:44-45 | `getCell(x, y)` is the grid's cell at row y, column x, and its position is (x, y). |
| Maps.GameMap.GetCellByPos | luxai2021/game/game_map.py:41-42 | `getCellByPos(p)` is `getCell(p.x, p.y)`, a cell of the grid at p. |
| Maps.GameMap.InMap | luxai2021/game/game_map.py:71-72 | `inMap` holds iff 0 ≤ x < width and 0 ≤ y < height. |
| Maps.GameMap.AddResource | luxai2021/game/game_map.py:34-39 | The cell gets the resource and is appended once to `resources` and once to its type's list; other lists, the tile, road and units are unchanged. |
| Maps.GameMap.GetAdjacentCells | luxai2021/game/game_map.py:50-69 | The appends build exactly the cells at the neighbour positions, in N, E, S, W order. |
| Maps.GameMap.AdjacentCellsExact | luxai2021/game/game_map.py:50-69 | A cell is in the neighbour list exactly when it is a grid cell at distance 1. |
| Maps.GameMap.AdjacentCellsDistinct | luxai2021/game/game_map.py:50-69 | The neighbours stand at pairwise different positions, none at the cell itself. |
| Units.Cargo.With | luxai2021/game/unit.py:122-126 | Setting one resource of a cargo leaves the other two unchanged. |
| Units.CargoSpaceSpec | luxai2021/game/unit.py:28-36 | Cargo space is the type's capacity minus wood + coal + uranium, and shrinks by exactly what is loaded. |
| Units.Burn | luxai2021/game/unit.py:43-48 | One stage burns at most what is held; the need is covered iff everything held would cover it, and otherwise everything is burned. |
| Units.SurviveIffEnoughFuel | luxai2021/game/unit.py:38-72 | `spendFuelToSurvive` succeeds iff wood·Rw + coal·Rc + uranium·Ru ≥ upkeep. |
| Units.SurviveFailureEmpties | luxai2021/game/unit.py:38-72 | When it fails, all three cargo counts are zero. |
| Units.SurviveOrder | luxai2021/game/unit.py:38-72 | No amount grows; coal is used only once wood is gone, uranium only once both are; wood covering the upkeep leaves coal and uranium untouched. |
| Units.ExpendedForCityClosedForm | luxai2021/game/unit.py:147-157 | Paying the city cost takes min(wood, cost), then coal up to what is still owed, then uranium up to what is still owed. |
| Units.ExpendedForCitySpec | luxai2021/game/unit.py:147-157 | Paying removes exactly min(total cargo, CITY_BUILD_COST), wood first, then coal, then uranium. |
| Units.PayCityCost | luxai2021/game/unit.py:147-157 | The `spentResources` loop computes that payment. |
| Units.CanBuildPaysInFull | luxai2021/game/unit.py:74-81 | Cargo of at least the cost pays the cost in full. |
| Units.Unit.constructor | luxai2021/game/unit.py:15-20 | Id "u_<idcount>" unless a spawn supplies one; empty cargo, cooldown 0, empty queue. |
| Units.Unit.CanBuildPays | luxai2021/game/unit.py:74-81 | A unit that `canBuild` pays the whole city cost when it builds. |
| Units.Unit.SpendFuelToSurvive | luxai2021/game/unit.py:38-72 | The method's result and new cargo are those of the wood-then-coal-then-uranium payment of the unit's upkeep. |
| Units.Unit.ExpendResourcesForCity | luxai2021/game/unit.py:147-157 | The new cargo is the old one less the city cost, paid wood first. |
| Units.Unit.GiveAction | luxai2021/game/actionable.py:26-27 | Exactly one action is appended at the end of the queue. |
| GameObjects.Player.constructor | luxai2021/game/game_objects.py:12-17 | A new player has 0 research points, no units, no cities and no city tiles. |
| GameObjects.CityTile.Research | luxai2021/game/game_objects.py:54-59 | "r x y", which parses back to a research command at the tile. |
| GameObjects.CityTile.BuildWorker | luxai2021/game/game_objects.py:60-65 | "bw x y", which parses back to a build-worker command at the tile. |
| GameObjects.CityTile.BuildCart | luxai2021/game/game_objects.py:66-71 | "bc x y", which parses back to a build-cart command at the tile. |
| GameObjects.City.constructor | luxai2021/game/game_objects.py:27-32 | The city stores its id, team, fuel and upkeep and has no tiles. |
| GameObjects.City.AddCityTile | luxai2021/game/game_objects.py:34-37 | Exactly one tile carrying the city's team and id is appended and returned. |
| GameObjects.Unit.constructor | luxai2021/game/game_objects.py:90-99 | The unit stores the given id, position, cooldown and wood/coal/uranium cargo. |
| GameObjects.Unit.Move | luxai2021/game/game_objects.py:132-137 | "m id dir", which parses back to the move when the id has no space. |
| GameObjects.Unit.Transfer | luxai2021/game/game_objects.py:139-144 | "t id dest type amount", which parses back to the transfer when neither id has a space. |
| GameObjects.Unit.BuildCity | luxai2021/game/game_objects.py:146-151 | "bcity id", which parses back to the build-city command when the id has no space. |
| GameObjects.Unit.Pillage | luxai2021/game/game_objects.py:153-158 | "p id", which parses back to the pillage command when the id has no space. |
| GameObjects.Unit.ExpendResourcesForCity | luxai2021/game/game_objects.py:174-184 | The same wood-first payment of the city cost as the engine's worker. |
| Cities.BonusSumBounds | luxai2021/game/city.py:28-32 | With a non-negative bonus, the adjacency bonus is non-negative and at most tiles × (a bound on four bonuses). |
| Cities.UpkeepBounds | luxai2021/game/city.py:25-32 | When four adjacency bonuses cost no more than one tile's upkeep, the light upkeep lies between 0 and tiles × LIGHT_UPKEEP.CITY. |
| Cities.City.constructor | luxai2021/game/city.py:15-23 | The id is the given city id when non-empty, else "c_<idcount>"; given fuel, no cells. |
| Cities.City.AdjacencyBonuses | luxai2021/game/city.py:28-32 | The loop returns Σ adjacentCityTiles × CITY_ADJACENCY_BONUS over the city's tiles. |
| Cities.City.LightUpkeep | luxai2021/game/city.py:25-26 | Tiles × LIGHT_UPKEEP.CITY minus the adjacency bonus. |
| Cities.City.AddCityTile | luxai2021/game/city.py:34-35 | Exactly one cell is appended; the existing order and the fuel are kept. |
| Tallies.TeamTotalRemove | luxai2021/game/match.py:238-240 | A per-team count over a dictionary does not depend on the order its entries are visited. |
| Tallies.TeamTotalAtLeast | luxai2021/game/match.py:285-287 | A team's total is at least the weight of any one of its entries. |
| Tallies.TeamTotalZero | luxai2021/game/match.py:238-243 | A team's total is zero exactly when it has no entry with positive weight. |
| Tallies.Tally | luxai2021/game/match.py:236-240 | One pass adding each entry's weight to its team's counter yields both teams' totals. |
| Games.TeamStats.Built | luxai2021/game/game.py:182-186 | One more worker or cart built; every other statistic unchanged. |
| Games.GenInitialAccumulatedActionStats | luxai2021/game/game.py:115-131 | Both teams with zero workers and carts built and no actions placed. |
| Games.Research | luxai2021/game/city.py:67-73 | Research leaves the team's units alone. |
| Games.ResearchSpec | luxai2021/game/city.py:67-73 | Research adds exactly 1 point, flags are only ever set, and flags that agreed with the thresholds still agree. |
| Games.InitialResearchConsistent | luxai2021/game/game.py:90-112 | A fresh team (0 points, wood only) agrees with the thresholds. |
| Games.PlayerSeesResearch | luxai2021/game/game_objects.py:19-23 | `researched_coal`/`researched_uranium` of a player with the team's points agree with the engine's flags. |
| Games.SameTeamCells | luxai2021/game/game.py:217-220 | Exactly the cells among the neighbours that hold a tile of the team. |
| Games.Distinct | luxai2021/game/game.py:215-221 | The set `cityIdsFound`: the same members, each once. |
| Games.Without | luxai2021/game/game.py:250-251 | The ids the merge loop absorbs: all but the joined city's. |
| Games.CollectSameTeam | luxai2021/game/game.py:213-221 | The neighbour loop collects the same-team neighbours, in order, and their distinct city ids. |
| Games.UnitFiled | luxai2021/game/game.py:182-184 | Filing a unit under its own id in its team keeps every team's units well filed. |
| Games.UnitUnfiled | luxai2021/game/game.py:311-317 | Removing a unit keeps every team's units well filed. |
| Games.Game.constructor | luxai2021/game/game.py:55-113 | Counters 0, no cities, turn 0, both teams with 0 points, no units and wood only, all statistics zero. |
| Games.Game.WorkerUnitCapReached | luxai2021/game/game.py:144-154 | The cap is reached iff the team's units + offset ≥ the team's cities. |
| Games.Game.CartUnitCapReached | luxai2021/game/game.py:156-161 | The same test as for workers. |
| Games.Game.SpawnUnit | luxai2021/game/game.py:163-203 | Off the map: failure and no change. Else a fresh unit with id "u_<counter+1>" or the given id (counter unchanged then), on its cell and in its team's units; the built count rises by one; other cells unchanged. |
| Games.Game.PlaceUnit | luxai2021/game/game.py:182-185 | The unit is recorded on exactly its cell, in its team's units and in its team's built count. |
| Games.Game.DestroyUnit | luxai2021/game/game.py:311-317 | The unit leaves its team's units and its cell's ids; an unknown id changes nothing. |
| Games.Game.DestroyCity | luxai2021/game/match.py:258-259 | The city leaves `cities`; the invariant holds. |
| Games.Game.ResearchFor | luxai2021/game/city.py:67-73 | The team's state becomes its research step; the other team is untouched. |
| Games.Game.SpawnCityTile | luxai2021/game/game.py:205-260 | Off the map: failure and no change. Else the neighbours found are the same-team tiled neighbours in N, E, S, W order and a fresh tile of the team stands on the cell. With none, a new city holds just the cell under the given id or the next "c_<n>", and every other city keeps its cells and fuel and every other tile its tile, city id and count. Otherwise the tile takes the first neighbour's city id and counts the neighbours, and each neighbour counts one more adjacent tile. The outcome is a success exactly when that city and every other city found existed. Tiles other than the new one and the neighbours keep their counts. On success, the cell and the other cities' cells, relabelled, are appended to the city, their fuel is added, those cities are removed, every remaining city keeps its cells and fuel, and every other tile keeps its city id. |
| Games.Game.PlaceCityTile | luxai2021/game/game.py:223-260 | The two branches, found-a-city and join, with the outcome `SpawnCityTile` states, including the neighbours' adjacency counts, the merge, and what stays the same: the other cities, and the other tiles' ids and counts. |
| Games.Game.JoinReadyOf | luxai2021/game/game.py:213-220 | The same-team neighbours are grid cells with tiles, at distance 1, at pairwise different positions. |
| Games.Game.FindSameTeam | luxai2021/game/game.py:213-221 | The lookup and the loop change nothing and find the same-team neighbours in N, E, S, W order with their ids. |
| Games.Game.FoundCity | luxai2021/game/game.py:224-235 | A new city "c_<counter+1>" or the given id (counter unchanged then), of the team, holding exactly the cell, fuel 0, whose tile carries that id. Every other city keeps its cells and fuel; every other cell keeps its tile, and the tile its city id and count. |
| Games.Game.OpenCity | luxai2021/game/game.py:232-234 | The city is filed under its id holding just the cell, whose fresh tile carries the id. |
| Games.Game.JoinCity | luxai2021/game/game.py:237-260 | The tile takes the first neighbour's city id and counts the neighbours, and each neighbour counts one more adjacent tile. Success iff that city and every other city found exist. No other cell's tile changes, and tiles other than the neighbours keep their counts. On success, the cell and the other cities' relabelled cells are appended to the city, fuel is summed, the other cities are removed, every remaining city keeps its cells and fuel, and every other tile keeps its city id. |
| Games.Game.JoinTile | luxai2021/game/game.py:239-246 | The new tile counts the same-team neighbours, each of which counts one more; every other tile keeps its count and city id, and the cities are untouched. |
| Games.Game.CountNeighbour | luxai2021/game/game.py:245-246 | Each same-team neighbour's count rises by exactly 1. |
| Games.Game.AddCell | luxai2021/game/game.py:247 | The cell is appended to the city; its fuel is kept. |
| Games.Game.JoinAndMerge | luxai2021/game/game.py:247-258 | The cell, then every other found city's cells, are appended to the joined city, fuel is summed, the absorbed cities are removed and their tiles carry the joined id. Every remaining city keeps its cells and fuel, every other tile keeps its city id, and no tile or count changes. |
| Games.Game.MergeCities | luxai2021/game/game.py:249-258 | The merge loop: cells moved and relabelled, fuel summed, absorbed cities removed, every remaining city's cells and fuel and every other tile's city id kept; fails iff a city found is missing. |
| Games.Game.MergeStep | luxai2021/game/game.py:250-258 | One absorbed city extends the merge loop's invariant. |
| Games.Game.AbsorbCity | luxai2021/game/game.py:252-258 | One city hands its cells and fuel to the joined city and leaves `cities`; its tiles carry the joined id, and every tile outside it keeps its city id. |
| Games.Game.MoveCells | luxai2021/game/game.py:253-255 | Each cell of the absorbed city is relabelled to the joined id and appended, in order; no other tile's city id changes. |
| Turns.CooldownGainSpec | luxai2021/game/unit.py:159-189 | A unit gains its type's action cooldown, doubled at night, exactly when it performs its one queued action; otherwise nothing. |
| Turns.CartCooldownAsWrittenDoubles | luxai2021/game/unit.py:210-224 | As written, a cart that moves by day pays twice the cart action cooldown. |
| Turns.RoadChangesSpec | luxai2021/game/unit.py:180-234 | Pillage never goes below MIN_ROAD nor raises the road; development never exceeds MAX_ROAD nor lowers it; both keep the road in range. |
| Turns.DevelopRoad | luxai2021/game/unit.py:226-234 | Below MAX_ROAD (so never on a city tile) the road develops and `roadsBuilt` grows by the full rate; otherwise nothing changes. |
| Turns.TileAct | luxai2021/game/city.py:59-73 | The queued spawn files a new unit under the next id (its type, team and position, empty cargo, cooldown 0, empty queue) and adds the id to its cell, with every other unit, team and cell unchanged; research adds a point to the tile's team only; otherwise nothing changes. The cooldown is reset when the tile acts. |
| Turns.CityTileTurn | luxai2021/game/city.py:58-76 | `turn`: that action, with the same effect on the game as `TileAct`, then the cooldown decay. |
| Turns.HandleCityTileTurn | luxai2021/game/actionable.py:19-23 | The turn runs once, with the effect on the game `TileAct` states, and the queue is empty afterwards, whatever the outcome. |
| Turns.PlaceTile | luxai2021/game/unit.py:177-178 | `spawnCityTile` at the worker's cell, with the whole outcome `SpawnCityTile` states: the new tile, the new or joined city, the neighbours' counts, the merge, and every other city and tile kept. |
| Turns.BuildCity | luxai2021/game/unit.py:177-179 | The tile is placed with the outcome `SpawnCityTile` states, and unless that raised, the city cost is paid from the cargo, wood first. |
| Turns.WorkerAct | luxai2021/game/unit.py:164-186 | Build, pillage (clamped at MIN_ROAD) or nothing; only a build can fail, and nothing else touches cities or tiles. |
| Turns.WorkerTurn | luxai2021/game/unit.py:159-189 | The action, then the worker action cooldown (doubled at night) when the worker acted. |
| Turns.CartTurn | luxai2021/game/unit.py:205-234 | The cart action cooldown once for a move or transfer, then road development and `roadsBuilt`. |
| Turns.HandleUnitTurn | luxai2021/game/actionable.py:19-23 | The turn of the unit's type, then an empty queue, whatever the outcome. |
| Match.MatchOver | luxai2021/game/match.py:227-247 | Over iff turn = MAX_DAYS − 1 or some team has no unit and no city. |
| Match.NoCitiesLeft | luxai2021/game/match.py:236-240 | A team's city count is 0 exactly when no city belongs to it. |
| Match.MatchOverWhenWipedOut | luxai2021/game/match.py:242-246 | A team's units + cities is 0 exactly when it has no unit and no city. |
| Match.Ranks | luxai2021/game/match.py:280-353 | Two distinct teams, the first ranked 1; the second is ranked 1 exactly on a full tie (A listed first), else 2 and beaten. |
| Match.BeatsTotal | luxai2021/game/match.py:288-307 | City tiles, then units, decide: never both ways, and one way unless tied. |
| Match.Decide | luxai2021/game/match.py:282-319 | The labelled-break chain computes that ranking. |
| Match.GetResults | luxai2021/game/match.py:276-353 | The ranking of the teams' city-tile and unit counts. |
| Match.KeptResourcesMembers | luxai2021/game/match.py:140-147 | The prune keeps exactly the cells with amount > 0. |
| Match.KeptResourcesAppend | luxai2021/game/match.py:140-147 | The prune keeps the original order. |
| Match.PruneDepletedResources | luxai2021/game/match.py:139-147 | The new index is the old one with the depleted cells dropped, in order. |
| Match.NightFuelSpec | luxai2021/game/match.py:255-263 | A city survives iff fuel ≥ upkeep, and then its fuel drops by exactly the upkeep, staying ≥ 0. |
| Match.PayUpkeep | luxai2021/game/match.py:261 | One city pays; no other city's fuel changes. |
| Match.NightCity | luxai2021/game/match.py:255-262 | One city destroyed or paying, as that rule says; every other city unchanged. |
| Match.NightCities | luxai2021/game/match.py:255-263 | After the loop every city's fuel is its night result, and only cities that were there remain. |
| Match.NightCargoSpec | luxai2021/game/match.py:264-274 | A unit survives iff it stands on a city tile or its cargo covers its upkeep; a sheltered unit keeps its cargo, an exposed survivor keeps what the wood-first payment leaves. |
| Match.FaceNight | luxai2021/game/match.py:265-272 | One unit survives with its paid cargo or is destroyed; other units' cargo, cells' tiles kept. |
| Match.NightTeam | luxai2021/game/match.py:264-274 | Every unit of one team faces the night as that rule says. |
| Match.NightUnits | luxai2021/game/match.py:264-274 | Team A's units, then team B's. |
| Match.HandleNight | luxai2021/game/match.py:253-275 | Cities, then units, face the night; only their fuel, cargo and presence change. |
| RunTurns.BucketActions | luxai2021/game/match.py:39-61 | Each bucket holds the validated actions of its kind, in command order. |
| RunTurns.BucketCount | luxai2021/game/match.py:46-61 | A bucket holds each action of its kind as often as it was validated, and nothing else. |
| RunTurns.GiveAll | luxai2021/game/match.py:63-90 | Every action of a bucket goes to its receiver, in order. |
| RunTurns.GiveMoves | luxai2021/game/match.py:97-102 | The surviving moves other than CENTER go to their units. |
| RunTurns.NonCenterCount | luxai2021/game/match.py:97-102 | No move toward CENTER is handed out; every other surviving move is, once per survival. |
| RunTurns.AllTileTurns | luxai2021/game/match.py:105-113 | Every city tile's turn, city by city and cell by cell. |
| RunTurns.AllUnitTurns | luxai2021/game/match.py:115-123 | Every unit of a team takes its turn. |
| RunTurns.AllDeposits | luxai2021/game/match.py:129-133 | Every unit of a team deposits. |
| RunTurns.HandOutAll | luxai2021/game/match.py:63-102 | The buckets in hand-out order, then the moves. |
| RunTurns.CloseTurn | luxai2021/game/match.py:135-164 | The night on night turns, then prune, regrowth, match-over test, turn counter and cooldowns. |
| RunTurns.RunTurn | luxai2021/game/match.py:35-164 | The calls `run_turn` makes are the turn schedule. |
| RunTurns.HandOutsInOrder | luxai2021/game/match.py:63-102 | Hand-outs come kind by kind, moves last. |
| RunTurns.HandOutsCount | luxai2021/game/match.py:63-102 | Each non-move action is handed out once per validation; a move once per survival unless toward CENTER. |
| RunTurns.HandedOut | luxai2021/game/match.py:63-102 | Over the whole turn, each action reaches only its receiver, as often as `HandOutsCount` says. |
| RunTurns.TurnScheduleInPhaseOrder | luxai2021/game/match.py:63-164 | All hand-outs before any city tile, city tiles before units, A before B, then distribution, deposits, night, prune, regrowth, match-over, turn counter, cooldowns. |
| RunTurns.NightOnlyAtNight | luxai2021/game/match.py:135-157 | The night runs exactly on night turns; the prune and turn counter run every turn. |
| RunTurns.EveryCityTileTakesItsTurn | luxai2021/game/match.py:105-113 | A city tile takes its turn exactly when it is a cell of a city visited. |
| RunTurns.EveryUnitTakesItsTurn | luxai2021/game/match.py:114-123 | A unit takes its turn exactly when its team's units include it. |
| RunTurns.EveryUnitDeposits | luxai2021/game/match.py:129-133 | A unit deposits exactly when its team's units include it. |

## Left out

- Every `Game` method of luxai2021/game/game.py:133-342 without a body is not modelled, except `destroyUnit` (see Games.Game.DestroyUnit below). That covers validation, moves, collision handling, resource release and deposit, regrowth, `isNight`, `getUnit` and `getTeamsUnits`. Whether it is night is a parameter. The validated actions and the moves that survive collision resolution are inputs to `RunTurn`.
- Moves and transfers: `moveUnit` and `transferResources` have no body, so a move or a transfer only costs its cooldown.
- The distribution, deposits, regrowth and cooldown pass appear only as steps of the turn schedule. The engine has no code for them.
- Map generation (`_generate_map`, gen.py), `getMapString`, `debugViewer`, replays, agent messaging and logging are left out. They are randomness, rendering and I/O.
- game/game_map.py's `Cell` and `GameMap` duplicate the luxai2021 ones (same `has_resource` test, same grid layout). The model has one `Cell` and one `GameMap`.
- Games.Game.DestroyCity: the engine defines no `destroyCity`, so the model removes the city from `cities` and nothing more. Its cells keep their tiles.
- Match.HandleNight: the unit ids on cells are stated only to shrink, not to equal the surviving units. `destroyUnit` has no body; see Games.Game.DestroyUnit.
- Games.Game.SpawnUnit: a negative coordinate counts as off the map and fails. Python's list indexing would wrap it to the far edge.
- Games.Game.SpawnCityTile: like `SpawnUnit`, it fails on a negative coordinate instead of wrapping.
- Dictionary and set iteration order is not modelled. Totals are proved independent of order. The night and merge loops visit any order of the ids present at the start.
- Python exceptions inside a `turn` are a `Fail` outcome. `handle_turn` still empties the queue, and `run_turn` goes on with the next entity.
- Several Python defects are modelled by their evident intent:
  - `"u_" + idcount` concatenates a string and an integer; the model uses the decimal text.
  - `configs` is never stored on `Game`; one parameter record serves the game and the map.
  - `.set`, `.length` and `.size` on Python containers are read as the dictionary and list operations they name.
  - `Cell.units` is never initialised; it is a set of unit ids.
  - `stats["teamStates"]` in the spawns is read as `stats["teamStats"]`.
  - `workerUnitCapReached` iterates over keys and reads `units["size"]`; the model counts the team's cities and units.
  - `cartUnitCapReached` calls a misnamed method.
  - `Unit.__init__` skips the `Actionable` initialiser, so the model starts units at cooldown 0 with an empty queue.
  - `CityTile` passes a cooldown the `Actionable` initialiser does not accept, so tiles start at 0.
  - `matchOver` falls off its end (returning None); the model reads that as false.
- Games.Game.SpawnCityTile: the neighbour loop at luxai2021/game/game.py:218 rebinds `cell`. So the Python places and returns the new tile on the last neighbour, not on the cell at (x, y): at lines 232-235 when no neighbour is of the team, and at line 241 (overwriting that neighbour's tile) otherwise. The model places the tile on the cell at (x, y).
- Games.Game.SpawnCityTile: `Cell.setCityTile` (luxai2021/game/cell.py:30-33) builds the `CityTile` imported at cell.py:5 from game_objects.py, whose initialiser takes five arguments, so the two-argument call raises. The model builds the engine's tile of luxai2021/game/city.py:39-44 with the team, the cell's position and the city id.
- Games.Game.ResearchFor: research (luxai2021/game/city.py:69-73) reads `game.state.teamStates` as an attribute of a dictionary, which raises. The model reads `game.state["teamStates"]`, as line 70 does.
- Turns.DevelopRoad: the road step (luxai2021/game/unit.py:234) reads `game.stats.teamStats` as an attribute of a dictionary, which raises once the road has developed. The model reads `game.stats["teamStats"]`.
- Units.Unit.ExpendResourcesForCity: `Worker.expendResourcesForCity` (luxai2021/game/unit.py:151-157) subscripts `self.cargo[rtype]`, but `Cargo` (unit.py:122-126) has only the attributes `wood`, `coal` and `uranium`, so it raises. The model reads each subscript as the attribute it names.
- Actions.Code: every `ACTIONS` entry of luxai2021/game/game.py:19-50 ends in a comma, so it is a one-element tuple, and only `DEBUG_ANNOTATE_SIDETEXT` is a string. The codes are the texts inside them, which are also the first words of the commands game_objects.py writes. The match.py lookups by `ACTIONS` key are read as lookups by command kind.
- Games.CollectSameTeam: the neighbour loop adds the `cityid` argument to `cityIdsFound`, not the neighbour's city id. The model collects the neighbours' city ids, which the merge loop needs.
- Games.Game.MergeCities: the merge loop compares an undefined `id`, reuses `cityid` as its loop variable, and adds fuel and pops outside the `if`. The model absorbs every found city other than the joined one, once each.
- Games.Game.FoundCity: game.py imports `City` from game_objects.py (luxai2021/game/game.py:5), whose initialiser takes `(teamid, cityid, fuel, light_upkeep)` (luxai2021/game/game_objects.py:27). So the three-argument call at luxai2021/game/game.py:225 raises for want of `light_upkeep`. The model builds the engine's `City` of luxai2021/game/city.py:15-23, whose `(team, configs, idcount)` that call matches.
- Cells.Cell.constructor: `configs` is a dictionary (the default `{"width":20, "height":20}` at luxai2021/game/game.py:55, subscripted at line 113 and at luxai2021/game/game_map.py:18-19; `LuxMatchConfigs_Default` at luxai2021/game/constants.py:33-44), yet luxai2021/game/cell.py:22 and 43 read `configs.parameters.MIN_ROAD` and `MAX_ROAD` as attributes, which raises. The model reads the parameter record's fields.
- Units.Unit.constructor: `Unit.__init__` (luxai2021/game/unit.py:15-20) never stores `self.configs`, and luxai2021/game/unit.py:44-66, 142, 151-152, 182-189, 200, 215, 224 and 229-234 read `self.configs.parameters.X` as attributes of what is a dictionary, so each raises. The model gives every unit the game's parameter record and reads its fields. Also, `Worker` and `Cart` pass `Unit.Type.WORKER` and `Unit.Type.CART` (luxai2021/game/unit.py:139 and 197), but unit.py's `Unit` has no `Type`; the enumeration is `UNIT_TYPES` (unit.py:12). So `Worker(...)`, `Cart(...)` and every `spawnWorker` and `spawnCart` raise. The model builds the unit with type Worker or Cart.
- GameObjects.Unit.ExpendResourcesForCity: game_objects.py's `Worker` passes `Unit.Type.WORKER` (luxai2021/game/game_objects.py:166), which does not exist, and passes six arguments to a `Unit.__init__` that takes nine (game_objects.py:90). Its `expend_resources_for_city` (game_objects.py:176-184) subscripts `self.cargo[rtype]` on a `Cargo` with attributes only, and reads `self.configs`, which is never set. Each of these raises. The model takes the parameters as an argument, reads each subscript as the attribute it names, and pays the city cost as the engine's worker does.
- Turns.CartTurn: `Cart.turn` sets `acted` (luxai2021/game/unit.py:212) but never reads it, and line 224 adds the cart action cooldown after the if-chain for any single queued action. So as written a lone pillage or city-build action also costs the cart cooldown. The model charges the cooldown only for a move or a transfer, the actions a cart performs; see Findings.
- Games.Game.DestroyUnit: `destroyUnit` (luxai2021/game/game.py:311-317) has no body. The model removes the unit from its team's units and from its cell, as the method's documentation says. So Match.HandleNight removes units that run out of fuel, which the Python keeps (luxai2021/game/match.py:270 calls the empty method).
- Games.Game.constructor: the initial state and statistics are keyed by `Unit.TEAM.A` and `Unit.TEAM.B` (luxai2021/game/game.py:62, 75, 93, 102, 121 and 126), but unit.py's `Unit` has no `TEAM`; the teams are `Constants.TEAM` (luxai2021/game/constants.py:21-23). So `Game()` raises. The model keys them by the teams A and B.
- Games.Game.JoinCity: the loop variable `cell` shadows the new tile's cell, so the Python appends the last neighbour and returns its tile. The model appends and returns the new cell's tile.
- RunTurns.RunTurn: the turn is a schedule, a sequence of step labels in the order `run_turn` makes its calls. The state changes of the steps are modelled one by one (`HandleCityTileTurn`, `HandleUnitTurn`, `HandleNight`, `PruneDepletedResources`, `MatchOver`), but not composed into one transition of the game over a whole turn.
- Where the code and the design description disagree, the model follows the code:
  - Ranking stops at a tie with both teams ranked 1. The fuel-generated and coin-flip steps are commented out.
  - The unit cap compares with the number of cities, not of city tiles.
  - A city tile's cooldown decays by 1 in its own `turn`, not in an end-of-turn road-aware pass.
  - The match-over test runs before the turn counter advances and before the cooldown pass.

## Findings

| source | as written | input that shows it | evidently intended | confidence | as-written member | corrected member |
|---|---|---|---|---|---|---|
| luxai2021/game/city.py:46-47 | the doubled braces make `getTileID` return the literal text `{self.cityid}_{self.pos.x}_{self.pos.y}` for every tile | tiles of city "c_1" at (0, 0) and (1, 0) get the same id | "<cityid>_<x>_<y>", unique per position within a city | not executed | CityTiles.TileIDAsWrittenCollides | CityTiles.TileIdentifierDeterminesPosition |
| luxai2021/game/unit.py:213-224 | `Cart.turn` adds the cart action cooldown inside the move branch and again after the if-chain, for any single queued action, since `acted` is never read | a cart with one move by day gains 2 × UNIT_ACTION_COOLDOWN.CART; a cart with one pillage gains it once | the cooldown once per action, as `Worker.turn` does | not executed | Turns.CartCooldownAsWrittenDoubles | Turns.CooldownGainSpec |
