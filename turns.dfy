/**
 * The turn of each actionable entity: `CityTile.turn` of
 * luxai2021/game/city.py, `Worker.turn` and `Cart.turn` of
 * luxai2021/game/unit.py, and `handle_turn` of
 * luxai2021/game/actionable.py.  A turn calls back into the game, so
 * this module sits above `Games`.
 *
 * `Game.isNight`, `Game.moveUnit` and `Game.transferResources` have no
 * body in the engine: whether it is night is a parameter, and a move or a
 * transfer has no effect here beyond the cooldown it costs.  An exception
 * the Python raises inside a `turn` is a `Fail` outcome: the turn stops
 * at that point, and `handle_turn` still empties the queue.
 */
module Turns {
  import opened Wrappers
  import opened Constants
  import opened Geometry
  import opened Actions
  import opened Actionables
  import opened CityTiles
  import opened Cells
  import opened Maps
  import opened Units
  import opened Games
  import opened Text

  /** `cooldownMultiplier`: actions cost twice as much at night. */
  function CooldownMultiplier(night: bool): real
  {
    if night then 2.0 else 1.0
  }

  /** The actions a worker performs when it is its only queued action. */
  predicate WorkerActs(a: Action)
  {
    a.MoveAction? || a.TransferAction? || a.SpawnCityAction? || a.PillageAction?
  }

  /** The actions a cart performs when it is its only queued action. */
  predicate CartActs(a: Action)
  {
    a.MoveAction? || a.TransferAction?
  }

  /**
   * What a unit's turn adds to its cooldown: UNIT_ACTION_COOLDOWN of its
   * type, times the night multiplier, when it has exactly one queued
   * action of a kind it performs; nothing otherwise.
   */
  function CooldownGain(t: UnitType, actions: seq<Action>, night: bool, p: Parameters): real
  {
    if |actions| == 1 && (if t == Worker then WorkerActs(actions[0]) else CartActs(actions[0])) then
      (if t == Worker then p.workerActionCooldown else p.cartActionCooldown) * CooldownMultiplier(night)
    else 0.0
  }

  /**
   * A unit pays its type's action cooldown, doubled at night, exactly when
   * it performs its one queued action, and never loses cooldown in a turn.
   */
  lemma CooldownGainSpec(t: UnitType, actions: seq<Action>, night: bool, p: Parameters)
    requires p.Valid()
    ensures CooldownGain(t, actions, night, p) >= 0.0
    ensures CooldownGain(t, actions, true, p) == 2.0 * CooldownGain(t, actions, false, p)
    ensures |actions| != 1 ==> CooldownGain(t, actions, night, p) == 0.0
    ensures |actions| == 1 && t == Worker ==>
      CooldownGain(t, actions, night, p) == (if WorkerActs(actions[0]) then p.workerActionCooldown * CooldownMultiplier(night) else 0.0)
    ensures |actions| == 1 && t == Cart ==>
      CooldownGain(t, actions, night, p) == (if CartActs(actions[0]) then p.cartActionCooldown * CooldownMultiplier(night) else 0.0)
  {
  }

  /**
   * `Cart.turn` as written: a move adds the cart cooldown twice (once in
   * its branch and once after the branches), and every other single
   * action adds it once, performed or not.
   */
  function CartCooldownGainAsWritten(actions: seq<Action>, night: bool, p: Parameters): real
  {
    if |actions| == 1 then
      (if actions[0].MoveAction? then 2.0 else 1.0) * p.cartActionCooldown * CooldownMultiplier(night)
    else 0.0
  }

  /** A cart moving by day pays twice the cart action cooldown as written, once as intended. */
  lemma CartCooldownAsWrittenDoubles(p: Parameters)
    requires p.cartActionCooldown > 0.0
    ensures var move := [MoveAction(A, "u_1", North, Position(0, 0))];
      CartCooldownGainAsWritten(move, false, p) == 2.0 * p.cartActionCooldown &&
      CooldownGain(Cart, move, false, p) == p.cartActionCooldown &&
      CartCooldownGainAsWritten(move, false, p) != CooldownGain(Cart, move, false, p)
  {
  }

  /** `max(road - PILLAGE_RATE, MIN_ROAD)` */
  function PillagedRoad(road: real, p: Parameters): real
  {
    if road - p.pillageRate >= p.minRoad then road - p.pillageRate else p.minRoad
  }

  /** `min(road + CART_ROAD_DEVELOPMENT_RATE, MAX_ROAD)` */
  function DevelopedRoad(road: real, p: Parameters): real
  {
    if road + p.cartRoadDevelopmentRate <= p.maxRoad then road + p.cartRoadDevelopmentRate else p.maxRoad
  }

  /**
   * Pillage never takes a road below MIN_ROAD and never raises it;
   * development never takes a road above MAX_ROAD and never lowers it; so
   * both keep a road within [MIN_ROAD, MAX_ROAD].
   */
  lemma RoadChangesSpec(road: real, p: Parameters)
    requires p.Valid()
    ensures PillagedRoad(road, p) >= p.minRoad
    ensures road >= p.minRoad ==> PillagedRoad(road, p) <= road
    ensures road - p.pillageRate >= p.minRoad ==> PillagedRoad(road, p) == road - p.pillageRate
    ensures DevelopedRoad(road, p) <= p.maxRoad
    ensures road <= p.maxRoad ==> DevelopedRoad(road, p) >= road
    ensures road + p.cartRoadDevelopmentRate <= p.maxRoad ==> DevelopedRoad(road, p) == road + p.cartRoadDevelopmentRate
    ensures RoadInRange(p, road) ==> RoadInRange(p, PillagedRoad(road, p)) && RoadInRange(p, DevelopedRoad(road, p))
  {
  }

  /** Stores a new road level on a cell of the game's map. */
  method SetRoad(game: Game, cell: Cell, road: real)
    requires game.Valid() && cell in game.gameMap.Cells()
    modifies cell`road
    ensures game.Valid() && cell.road == road
    ensures game.cities == old(game.cities) && game.globalCityIDCount == old(game.globalCityIDCount)
    ensures unchanged(game.gameMap.Cells()`citytile)
  {
    cell.road := road;
    TilesKept(game);
  }

  /**
   * The road step at the end of `Cart.turn`: where `getRoad` is below
   * MAX_ROAD (so never on a city tile) the road develops, and the team's
   * `roadsBuilt` grows by the full development rate.
   */
  method DevelopRoad(game: Game, cell: Cell, team: Team)
    requires game.Valid() && cell in game.gameMap.Cells()
    modifies cell`road, game`stats
    ensures game.Valid()
    ensures old(cell.GetRoad()) < cell.configs.maxRoad ==>
      cell.road == DevelopedRoad(old(cell.road), cell.configs) &&
      game.stats == old(game.stats)[team := old(game.stats[team]).(roadsBuilt := old(game.stats[team]).roadsBuilt + cell.configs.cartRoadDevelopmentRate)]
    ensures old(cell.GetRoad()) >= cell.configs.maxRoad ==> cell.road == old(cell.road) && game.stats == old(game.stats)
  {
    if cell.GetRoad() < cell.configs.maxRoad {
      SetRoad(game, cell, DevelopedRoad(cell.road, cell.configs));
      var s := game.stats[team];
      game.stats := game.stats[team := s.(roadsBuilt := s.roadsBuilt + cell.configs.cartRoadDevelopmentRate)];
    }
  }

  /** Whether a city tile's one queued action is one it performs: a unit spawn or research. */
  predicate TileActs(actions: seq<Action>)
  {
    |actions| == 1 && (actions[0].IsSpawnUnit() || actions[0].ResearchAction?)
  }

  /** The units filed in the team states, as objects. */
  ghost function UnitObjects(teamStates: map<Team, TeamState>): set<Unit>
  {
    set t, k | t in teamStates && k in teamStates[t].units :: teamStates[t].units[k]
  }

  /**
   * What the queued action of `CityTile.turn` does to the game, with
   * queue `actions` at the start.  A spawn at a position off the map
   * raises before anything changes (`Fail`).  Otherwise a spawn files a
   * new unit of the action's type and team under the next generated id,
   * at the action's position, with an empty cargo, cooldown 0 and an
   * empty queue, adds its id to that cell's units and counts it in the
   * team's statistics; every other unit, team and cell is as it was.
   * Research gives the tile's team a point; anything else changes
   * nothing.
   */
  twostate predicate TileActionDone(game: Game, team: Team, actions: seq<Action>, o: Outcome)
    requires old(game.teamStates.Keys) == {A, B} && old(game.stats.Keys) == {A, B} && game.gameMap.Valid()
    reads game, game.gameMap, game.gameMap.Cells(), UnitObjects(game.teamStates)
  {
    var spawn := |actions| == 1 && actions[0].IsSpawnUnit();
    var research := |actions| == 1 && actions[0].ResearchAction?;
    (o.Fail? <==> spawn && !InBounds(Position(actions[0].x, actions[0].y), game.gameMap.width, game.gameMap.height)) &&
    (o.Fail? ==>
      game.teamStates == old(game.teamStates) &&
      game.globalUnitIDCount == old(game.globalUnitIDCount) && game.stats == old(game.stats)) &&
    (o.Pass? && spawn ==>
      var owner := actions[0].team;
      var id := "u_" + NatToString(old(game.globalUnitIDCount) + 1);
      var pos := Position(actions[0].x, actions[0].y);
      game.globalUnitIDCount == old(game.globalUnitIDCount) + 1 &&
      owner in old(game.teamStates) && owner in game.teamStates && id in game.teamStates[owner].units &&
      var u := game.teamStates[owner].units[id];
      game.teamStates == old(game.teamStates)[owner := old(game.teamStates[owner]).(units := old(game.teamStates[owner].units)[id := u])] &&
      u.utype == actions[0].SpawnedType() && u.team == owner && u.pos == pos &&
      u.cargo == EmptyCargo && u.cooldown == 0.0 && u.currentActions == [] &&
      game.stats == old(game.stats)[owner := old(game.stats[owner]).Built(actions[0].SpawnedType())] &&
      InBounds(pos, game.gameMap.width, game.gameMap.height) &&
      var cell := game.gameMap.GetCellByPos(pos);
      cell.units == old(cell.units) + {id} &&
      forall c :: c in game.gameMap.Cells() && c != cell ==> c.units == old(c.units)) &&
    (research ==>
      team in old(game.teamStates) &&
      game.teamStates == old(game.teamStates)[team := Games.Research(old(game.teamStates[team]), game.configs)] &&
      game.globalUnitIDCount == old(game.globalUnitIDCount) && game.stats == old(game.stats)) &&
    (!spawn && !research ==>
      game.teamStates == old(game.teamStates) && game.globalUnitIDCount == old(game.globalUnitIDCount) &&
      game.stats == old(game.stats)) &&
    (!(o.Pass? && spawn) ==> forall c :: c in game.gameMap.Cells() ==> c.units == old(c.units))
  }

  /**
   * The cooldown a city tile ends `CityTile.turn` with, from `cooldown` at
   * the start: reset to CITY_ACTION_COOLDOWN by a spawn or research, then
   * decayed by one; a turn that raised stops before either.
   */
  function TileCooldownAfter(actions: seq<Action>, cooldown: real, o: Outcome, p: Parameters): real
  {
    if o.Fail? then cooldown
    else Decayed(if TileActs(actions) then p.cityActionCooldown else cooldown)
  }

  /** The action part of `CityTile.turn`, up to the cooldown decay. */
  method TileAct(game: Game, tile: CityTile) returns (o: Outcome)
    requires game.Valid() && tile.configs == game.configs
    modifies tile`cooldown, game`globalUnitIDCount, game`teamStates, game`stats, game.gameMap.Cells()`units
    ensures game.Valid()
    ensures TileActionDone(game, tile.team, tile.currentActions, o)
    ensures tile.cooldown == if o.Pass? && TileActs(tile.currentActions) then tile.configs.cityActionCooldown else old(tile.cooldown)
  {
    var actions := tile.currentActions;
    o := Pass;
    if |actions| == 1 {
      var action := actions[0];
      if action.IsSpawnUnit() {
        var r := game.SpawnUnit(action.SpawnedType(), action.team, action.x, action.y, None);
        if r.Failure? {
          return Fail(r.reason);
        }
        tile.ResetCooldown();
      } else if action.ResearchAction? {
        tile.ResetCooldown();
        game.ResearchFor(tile.team);
      }
    }
  }

  /** `CityTile.turn`: the queued action, if it is the only one, then the cooldown decay. */
  method CityTileTurn(game: Game, tile: CityTile) returns (o: Outcome)
    requires game.Valid() && tile.configs == game.configs
    modifies tile`cooldown, game`globalUnitIDCount, game`teamStates, game`stats, game.gameMap.Cells()`units
    ensures game.Valid()
    ensures TileActionDone(game, tile.team, tile.currentActions, o)
    ensures tile.cooldown == TileCooldownAfter(tile.currentActions, old(tile.cooldown), o, tile.configs)
  {
    o := TileAct(game, tile);
    if o.Pass? {
      tile.cooldown := Decayed(tile.cooldown);
    }
  }

  /** `handle_turn` for a city tile: its `turn`, after which the queue is empty whatever the outcome. */
  method HandleCityTileTurn(game: Game, tile: CityTile) returns (o: Outcome)
    requires game.Valid() && tile.configs == game.configs
    modifies tile`cooldown, tile`currentActions, game`globalUnitIDCount, game`teamStates, game`stats, game.gameMap.Cells()`units
    ensures game.Valid() && tile.currentActions == []
    ensures TileActionDone(game, tile.team, old(tile.currentActions), o)
    ensures tile.cooldown == TileCooldownAfter(old(tile.currentActions), old(tile.cooldown), o, tile.configs)
  {
    o := CityTileTurn(game, tile);
    tile.currentActions := [];
  }

  /**
   * The effect of a unit's turn on the unit and on the road of its cell,
   * with queue `actions` at the start.  Only a worker's city build can
   * fail (when the city it would join is missing), and then the unit is
   * untouched.  Otherwise the cooldown grows by `CooldownGain`, a city
   * build pays the city cost from the cargo, a worker's pillage lowers
   * the road, and a cart develops the road unless `getRoad` was already
   * MAX_ROAD.
   */
  twostate predicate UnitTurnDone(game: Game, unit: Unit, actions: seq<Action>, night: bool, o: Outcome)
    requires game.gameMap.Valid() && InBounds(unit.pos, game.gameMap.width, game.gameMap.height)
    requires unit.configs.Valid()
    reads unit`cooldown, unit`cargo, game.gameMap.GetCellByPos(unit.pos)
  {
    var cell := game.gameMap.GetCellByPos(unit.pos);
    var build := unit.utype == Worker && |actions| == 1 && actions[0].SpawnCityAction?;
    var pillage := unit.utype == Worker && |actions| == 1 && actions[0].PillageAction?;
    var develop := unit.utype == Cart && old(cell.GetRoad()) < unit.configs.maxRoad;
    (o.Fail? ==> build && unit.cooldown == old(unit.cooldown) && unit.cargo == old(unit.cargo)) &&
    (o.Pass? ==> unit.cooldown == old(unit.cooldown) + CooldownGain(unit.utype, actions, night, unit.configs)) &&
    (o.Pass? ==> unit.cargo == if build then ExpendedForCity(old(unit.cargo), unit.configs.cityBuildCost) else old(unit.cargo)) &&
    cell.road == (if pillage then PillagedRoad(old(cell.road), unit.configs)
                  else if develop then DevelopedRoad(old(cell.road), unit.configs)
                  else old(cell.road))
  }

  /**
   * `spawnCityTile(team, x, y)` at a position on the map, as
   * `Game.SpawnCityTile` describes: a fresh tile of `team` stands on the
   * cell afterwards, and the outcome is a failure only when the city the
   * tile would join is missing.
   */
  method PlaceTile(game: Game, pos: Position, team: Team) returns (o: Outcome, ghost r: Result<CityTile>, ghost same: seq<Cell>, ghost ids: seq<string>)
    requires game.Valid() && InBounds(pos, game.gameMap.width, game.gameMap.height)
    modifies game`cities, game`globalCityIDCount, game.gameMap.Cells()`citytile, game.cities.Values`citycells, game.cities.Values`fuel
    modifies TilesIn(game.gameMap.Cells())`adjacentCityTiles, TilesIn(game.gameMap.Cells())`cityid
    ensures game.Valid()
    ensures o == if r.Success? then Pass else Fail(r.reason)
    ensures var cell := game.gameMap.GetCellByPos(pos);
      same == old(SameTeamCells(game.gameMap.AdjacentCells(pos), team)) && old(allocated(same)) &&
      ids == old(Distinct(TileCityIds(same))) && game.TilePlaced(cell, team, same, ids, None, r, old(game.Snapshot())) &&
      fresh(cell.citytile) && (same == [] ==> fresh(game.cities[cell.citytile.cityid]))
  {
    var placed;
    placed, same, ids := game.SpawnCityTile(team, pos.x, pos.y, None);
    r := placed;
    o := if placed.Success? then Pass else Fail(placed.reason);
  }

  /**
   * The city build of `Worker.turn`: a tile of `team` on the worker's
   * cell, as `Game.SpawnCityTile` describes, and then, unless placing it
   * raised, the city cost paid from the worker's cargo.
   */
  method BuildCity(game: Game, unit: Unit, team: Team) returns (o: Outcome, ghost r: Result<CityTile>, ghost same: seq<Cell>, ghost ids: seq<string>)
    requires game.Valid() && unit.utype == Worker && unit.configs == game.configs
    requires InBounds(unit.pos, game.gameMap.width, game.gameMap.height)
    modifies unit`cargo
    modifies game`cities, game`globalCityIDCount, game.gameMap.Cells()`citytile, game.cities.Values`citycells, game.cities.Values`fuel
    modifies TilesIn(game.gameMap.Cells())`adjacentCityTiles, TilesIn(game.gameMap.Cells())`cityid
    ensures game.Valid()
    ensures o == if r.Success? then Pass else Fail(r.reason)
    ensures var cell := game.gameMap.GetCellByPos(unit.pos);
      same == old(SameTeamCells(game.gameMap.AdjacentCells(unit.pos), team)) && old(allocated(same)) &&
      ids == old(Distinct(TileCityIds(same))) && game.TilePlaced(cell, team, same, ids, None, r, old(game.Snapshot())) &&
      cell.citytile != null && cell.citytile.team == team &&
      fresh(cell.citytile) && (same == [] ==> fresh(game.cities[cell.citytile.cityid]))
    ensures unit.cargo == if o.Pass? then ExpendedForCity(old(unit.cargo), unit.configs.cityBuildCost) else old(unit.cargo)
  {
    o, r, same, ids := PlaceTile(game, unit.pos, team);
    PayForCity(game, unit, o.Pass?, game.gameMap.GetCellByPos(unit.pos), team, same, ids, r, old(game.Snapshot()));
  }

  /**
   * `Worker.expendResourcesForCity` after a placement, when `pay` says the
   * placement did not raise: the worker's cargo becomes what
   * `Unit.ExpendResourcesForCity` leaves (`ExpendedForCity`), and nothing
   * of the game changes, so it stays valid and a placement
   * `Game.TilePlaced` describes still holds.
   */
  method PayForCity(game: Game, unit: Unit, pay: bool, ghost cell: Cell, ghost team: Team, ghost same: seq<Cell>, ghost ids: seq<string>, ghost r: Result<CityTile>, ghost before: Board)
    requires unit.utype == Worker && unit.configs.Valid()
    requires game.Valid() && cell in game.gameMap.Cells()
    modifies unit`cargo
    ensures unit.cargo == if pay then ExpendedForCity(old(unit.cargo), unit.configs.cityBuildCost) else old(unit.cargo)
    ensures game.Valid() && cell.citytile == old(cell.citytile) && game.cities == old(game.cities)
    ensures game.TilePlaced(cell, team, same, ids, None, r, before) == old(game.TilePlaced(cell, team, same, ids, None, r, before))
  {
    if pay {
      unit.cargo := ExpendedForCity(unit.cargo, unit.configs.cityBuildCost);
    }
  }

  /** `BuildCity` as `WorkerAct` sees it: a fresh tile of `team` on the worker's cell, and the city cost paid. */
  method BuildTile(game: Game, unit: Unit, team: Team) returns (o: Outcome)
    requires game.Valid() && unit.utype == Worker && unit.configs == game.configs
    requires InBounds(unit.pos, game.gameMap.width, game.gameMap.height)
    modifies unit`cargo
    modifies game`cities, game`globalCityIDCount, game.gameMap.Cells()`citytile, game.cities.Values`citycells, game.cities.Values`fuel
    modifies TilesIn(game.gameMap.Cells())`adjacentCityTiles, TilesIn(game.gameMap.Cells())`cityid
    ensures game.Valid()
    ensures var cell := game.gameMap.GetCellByPos(unit.pos);
      cell.citytile != null && fresh(cell.citytile) && cell.citytile.team == team
    ensures unit.cargo == if o.Pass? then ExpendedForCity(old(unit.cargo), unit.configs.cityBuildCost) else old(unit.cargo)
  {
    var built, _, _, _ := BuildCity(game, unit, team);
    o := built;
  }

  /**
   * The action part of `Worker.turn`, up to the cooldown: a city build
   * (see `BuildCity`), or a pillage of the road under the worker; a move
   * or a transfer changes nothing here, and neither does any other
   * action.
   */
  method WorkerAct(game: Game, unit: Unit) returns (o: Outcome)
    requires game.Valid() && unit.utype == Worker && unit.configs == game.configs
    requires InBounds(unit.pos, game.gameMap.width, game.gameMap.height)
    modifies unit`cargo, game.gameMap.GetCellByPos(unit.pos)`road
    modifies game`cities, game`globalCityIDCount, game.gameMap.Cells()`citytile, game.cities.Values`citycells, game.cities.Values`fuel
    modifies TilesIn(game.gameMap.Cells())`adjacentCityTiles, TilesIn(game.gameMap.Cells())`cityid
    ensures game.Valid()
    ensures var actions := unit.currentActions;
      var cell := game.gameMap.GetCellByPos(unit.pos);
      var build := |actions| == 1 && actions[0].SpawnCityAction?;
      var pillage := |actions| == 1 && actions[0].PillageAction?;
      (o.Fail? ==> build) &&
      unit.cargo == (if build && o.Pass? then ExpendedForCity(old(unit.cargo), unit.configs.cityBuildCost) else old(unit.cargo)) &&
      cell.road == (if pillage then PillagedRoad(old(cell.road), unit.configs) else old(cell.road)) &&
      (build ==> cell.citytile != null && fresh(cell.citytile) && cell.citytile.team == actions[0].team) &&
      (!build ==>
        game.cities == old(game.cities) && game.globalCityIDCount == old(game.globalCityIDCount) &&
        unchanged(game.gameMap.Cells()`citytile))
  {
    var actions := unit.currentActions;
    o := Pass;
    if |actions| == 1 {
      var action := actions[0];
      if action.SpawnCityAction? {
        o := BuildTile(game, unit, action.team);
      } else if action.PillageAction? {
        var cell := game.gameMap.GetCellByPos(unit.pos);
        SetRoad(game, cell, PillagedRoad(cell.road, unit.configs));
      }
    }
  }

  /**
   * `Worker.turn`: its action (see `WorkerAct`), then, unless the action
   * raised, the worker action cooldown when the action is one a worker
   * performs.
   */
  method WorkerTurn(game: Game, unit: Unit, night: bool) returns (o: Outcome)
    requires game.Valid() && unit.utype == Worker && unit.configs == game.configs
    requires InBounds(unit.pos, game.gameMap.width, game.gameMap.height)
    modifies unit`cargo, unit`cooldown, game.gameMap.GetCellByPos(unit.pos)`road
    modifies game`cities, game`globalCityIDCount, game.gameMap.Cells()`citytile, game.cities.Values`citycells, game.cities.Values`fuel
    modifies TilesIn(game.gameMap.Cells())`adjacentCityTiles, TilesIn(game.gameMap.Cells())`cityid
    ensures game.Valid()
    ensures UnitTurnDone(game, unit, unit.currentActions, night, o)
    ensures var cell := game.gameMap.GetCellByPos(unit.pos);
      |unit.currentActions| == 1 && unit.currentActions[0].SpawnCityAction? ==>
        cell.citytile != null && fresh(cell.citytile) && cell.citytile.team == unit.currentActions[0].team
    ensures !(|unit.currentActions| == 1 && unit.currentActions[0].SpawnCityAction?) ==>
      game.cities == old(game.cities) && game.globalCityIDCount == old(game.globalCityIDCount) &&
      unchanged(game.gameMap.Cells()`citytile)
  {
    o := WorkerAct(game, unit);
    var actions := unit.currentActions;
    if o.Pass? && |actions| == 1 && WorkerActs(actions[0]) {
      unit.cooldown := unit.cooldown + unit.configs.workerActionCooldown * CooldownMultiplier(night);
    }
  }

  /**
   * `Cart.turn`, with the cooldown as evidently intended: a move or a
   * transfer costs the cart action cooldown once (see
   * `CartCooldownGainAsWritten` for the Python's double charge).  Then
   * the road under the cart develops.
   */
  method CartTurn(game: Game, unit: Unit, night: bool)
    requires game.Valid() && unit.utype == Cart && unit.configs == game.configs
    requires InBounds(unit.pos, game.gameMap.width, game.gameMap.height)
    modifies unit`cooldown, game.gameMap.GetCellByPos(unit.pos)`road, game`stats
    ensures game.Valid()
    ensures UnitTurnDone(game, unit, unit.currentActions, night, Pass)
    ensures var cell := game.gameMap.GetCellByPos(unit.pos);
      (unit.team.A? || unit.team.B?) &&
      game.stats == if old(cell.GetRoad()) < unit.configs.maxRoad then
        old(game.stats)[unit.team := old(game.stats[unit.team]).(roadsBuilt := old(game.stats[unit.team]).roadsBuilt + unit.configs.cartRoadDevelopmentRate)]
      else old(game.stats)
  {
    var actions := unit.currentActions;
    if |actions| == 1 && CartActs(actions[0]) {
      unit.cooldown := unit.cooldown + unit.configs.cartActionCooldown * CooldownMultiplier(night);
    }
    var endcell := game.gameMap.GetCellByPos(unit.pos);
    DevelopRoad(game, endcell, unit.team);
  }

  /** `handle_turn` for a unit: the turn of its type, after which the queue is empty whatever the outcome. */
  method HandleUnitTurn(game: Game, unit: Unit, night: bool) returns (o: Outcome)
    requires game.Valid() && unit.configs == game.configs
    requires InBounds(unit.pos, game.gameMap.width, game.gameMap.height)
    modifies unit`cargo, unit`cooldown, unit`currentActions, game.gameMap.GetCellByPos(unit.pos)`road, game`stats
    modifies game`cities, game`globalCityIDCount, game.gameMap.Cells()`citytile, game.cities.Values`citycells, game.cities.Values`fuel
    modifies TilesIn(game.gameMap.Cells())`adjacentCityTiles, TilesIn(game.gameMap.Cells())`cityid
    ensures game.Valid() && unit.currentActions == []
    ensures UnitTurnDone(game, unit, old(unit.currentActions), night, o)
  {
    if unit.utype == Worker {
      o := WorkerTurn(game, unit, night);
    } else {
      CartTurn(game, unit, night);
      o := Pass;
    }
    unit.currentActions := [];
  }
}
