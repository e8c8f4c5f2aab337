/**
 * `Cell` of luxai2021/game/cell.py (and `Cell.has_resource` of
 * game/game_map.py): one square of the map with an optional resource, an
 * optional city tile, a road level and the ids of the units standing on
 * it.  The Python constructor never creates `units`; the model starts it
 * empty, as `hasUnits` evidently expects.
 */
module Cells {
  import opened Wrappers
  import opened Constants
  import opened Geometry
  import opened CityTiles

  /** `Resource` of luxai2021/game/resources.py: a type and an amount. */
  datatype Resource = Resource(rtype: ResourceType, amount: int)

  /** A road level the engine keeps on an ordinary cell. */
  predicate RoadInRange(p: Parameters, road: real)
  {
    p.minRoad <= road <= p.maxRoad
  }

  class Cell {
    const pos: Position
    const configs: Parameters
    var resource: Option<Resource>
    var citytile: CityTile?
    var road: real
    var units: set<string>

    constructor(x: int, y: int, configs: Parameters)
      ensures pos == Position(x, y) && this.configs == configs
      ensures resource == None && citytile == null && units == {}
      ensures road == configs.minRoad
    {
      pos := Position(x, y);
      this.configs := configs;
      resource := None;
      citytile := null;
      road := configs.minRoad;
      units := {};
    }

    method SetResource(rtype: ResourceType, amount: int)
      modifies this
      ensures resource == Some(Resource(rtype, amount))
      ensures HasResource() <==> amount > 0
      ensures citytile == old(citytile) && road == old(road) && units == old(units)
    {
      resource := Some(Resource(rtype, amount));
    }

    predicate HasResource()
      reads this
    {
      resource.Some? && resource.value.amount > 0
    }

    /** A fresh tile of `team` in city `cityid`, placed at this cell's position. */
    method SetCityTile(team: Team, cityid: string)
      modifies this`citytile
      ensures citytile != null && fresh(citytile)
      ensures citytile.team == team && citytile.cityid == cityid && citytile.pos == pos
      ensures citytile.configs == configs
      ensures citytile.adjacentCityTiles == 0 && citytile.cooldown == 0.0 && citytile.currentActions == []
      ensures IsCityTile()
      ensures resource == old(resource) && road == old(road) && units == old(units)
    {
      citytile := new CityTile(team, configs, pos, cityid);
    }

    predicate IsCityTile()
      reads this
    {
      citytile != null
    }

    predicate HasUnits()
      reads this
    {
      units != {}
    }

    /** The road level movement sees: city tiles count as fully built roads. */
    function GetRoad(): real
      reads this
    {
      if IsCityTile() then configs.maxRoad else road
    }
  }

  /**
   * `getRoad` reports MAX_ROAD on every city tile, reports the stored road
   * elsewhere, and stays within [MIN_ROAD, MAX_ROAD] whenever the stored
   * road does.
   */
  lemma GetRoadSpec(c: Cell)
    requires c.configs.Valid()
    ensures c.IsCityTile() ==> c.GetRoad() == c.configs.maxRoad
    ensures !c.IsCityTile() ==> c.GetRoad() == c.road
    ensures RoadInRange(c.configs, c.road) ==> RoadInRange(c.configs, c.GetRoad())
  {
  }

  /** The city tiles standing on a sequence of cells. */
  ghost function TilesOf(cells: seq<Cell>): set<CityTile>
    reads cells`citytile
  {
    set i | 0 <= i < |cells| && cells[i].citytile != null :: cells[i].citytile
  }

  ghost function TilesIn(cells: set<Cell>): set<CityTile>
    reads cells`citytile
  {
    set c | c in cells && c.citytile != null :: c.citytile
  }
}
