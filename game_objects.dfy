/**
 * The agent-side view of luxai2021/game/game_objects.py: players, cities,
 * city tiles and units as an agent reads them from the game state, with
 * the query helpers and the command strings they build.
 */
module GameObjects {
  import opened Wrappers
  import opened Constants
  import opened Geometry
  import opened Actionables
  import opened Commands
  import opened Cells
  import opened Maps
  import U = Units

  class Player {
    const team: Team
    var researchPoints: int
    var units: seq<Unit>
    var cities: map<string, City>
    var cityTileCount: int

    constructor(team: Team)
      ensures this.team == team
      ensures researchPoints == 0 && units == [] && cities == map[] && cityTileCount == 0
    {
      this.team := team;
      researchPoints := 0;
      units := [];
      cities := map[];
      cityTileCount := 0;
    }

    predicate ResearchedCoal(p: Parameters)
      reads this
    {
      researchPoints >= p.coalResearch
    }

    predicate ResearchedUranium(p: Parameters)
      reads this
    {
      researchPoints >= p.uraniumResearch
    }
  }

  /** A city tile as an agent sees it; nothing in game_objects.py changes one. */
  datatype CityTile = CityTile(cityid: string, team: Team, pos: Position, cooldown: real)
  {
    predicate CanAct()
    {
      Ready(cooldown)
    }

    /** "r x y" */
    function Research(): (cmd: string)
      ensures Parse(cmd) == Some(ResearchCmd(pos.x, pos.y))
    {
      ParseSerialize(ResearchCmd(pos.x, pos.y));
      Serialize(ResearchCmd(pos.x, pos.y))
    }

    /** "bw x y" */
    function BuildWorker(): (cmd: string)
      ensures Parse(cmd) == Some(BuildWorkerCmd(pos.x, pos.y))
    {
      ParseSerialize(BuildWorkerCmd(pos.x, pos.y));
      Serialize(BuildWorkerCmd(pos.x, pos.y))
    }

    /** "bc x y" */
    function BuildCart(): (cmd: string)
      ensures Parse(cmd) == Some(BuildCartCmd(pos.x, pos.y))
    {
      ParseSerialize(BuildCartCmd(pos.x, pos.y));
      Serialize(BuildCartCmd(pos.x, pos.y))
    }
  }

  class City {
    const cityid: string
    const team: Team
    var fuel: int
    var citytiles: seq<CityTile>
    const lightUpkeep: int

    constructor(teamid: Team, cityid: string, fuel: int, lightUpkeep: int)
      ensures this.cityid == cityid && team == teamid && this.fuel == fuel && this.lightUpkeep == lightUpkeep
      ensures citytiles == []
    {
      this.cityid := cityid;
      team := teamid;
      this.fuel := fuel;
      citytiles := [];
      this.lightUpkeep := lightUpkeep;
    }

    /** Appends one tile of this city's team and id at (x, y) and returns it. */
    method AddCityTile(x: int, y: int, cooldown: real) returns (ct: CityTile)
      modifies this
      ensures ct == CityTile(cityid, team, Position(x, y), cooldown)
      ensures citytiles == old(citytiles) + [ct]
      ensures fuel == old(fuel)
    {
      ct := CityTile(cityid, team, Position(x, y), cooldown);
      citytiles := citytiles + [ct];
    }

    function GetLightUpkeep(): int
    {
      lightUpkeep
    }
  }

  class Unit {
    const pos: Position
    const team: Team
    const id: string
    const utype: UnitType
    const cooldown: real
    var cargo: U.Cargo

    constructor(teamid: Team, utype: UnitType, unitid: string, x: int, y: int, cooldown: real, wood: nat, coal: nat, uranium: nat)
      ensures pos == Position(x, y) && team == teamid && id == unitid && this.utype == utype && this.cooldown == cooldown
      ensures cargo == U.Cargo(wood, coal, uranium)
    {
      pos := Position(x, y);
      team := teamid;
      id := unitid;
      this.utype := utype;
      this.cooldown := cooldown;
      cargo := U.Cargo(wood, coal, uranium);
    }

    function CargoSpaceLeft(p: Parameters): int
      reads this
    {
      U.CargoSpace(utype, cargo, p)
    }

    predicate CanAct()
    {
      Ready(cooldown)
    }

    predicate CanBuild(m: GameMap, p: Parameters)
      requires m.Valid() && InBounds(pos, m.width, m.height)
      reads this, m.GetCellByPos(pos)
    {
      !m.GetCellByPos(pos).HasResource() && CanAct() && cargo.Total() >= p.cityBuildCost
    }

    /** "m id dir" */
    function Move(dir: Direction): (cmd: string)
      ensures ' ' !in id ==> Parse(cmd) == Some(MoveCmd(id, dir))
    {
      if ' ' !in id then ParseSerialize(MoveCmd(id, dir)); Serialize(MoveCmd(id, dir))
      else Serialize(MoveCmd(id, dir))
    }

    /** "t id dest type amount" */
    function Transfer(destID: string, rtype: ResourceType, amount: int): (cmd: string)
      ensures ' ' !in id && ' ' !in destID ==> Parse(cmd) == Some(TransferCmd(id, destID, rtype, amount))
    {
      var c := TransferCmd(id, destID, rtype, amount);
      if c.WellFormed() then ParseSerialize(c); Serialize(c) else Serialize(c)
    }

    /** "bcity id" */
    function BuildCity(): (cmd: string)
      ensures ' ' !in id ==> Parse(cmd) == Some(BuildCityCmd(id))
    {
      if ' ' !in id then ParseSerialize(BuildCityCmd(id)); Serialize(BuildCityCmd(id))
      else Serialize(BuildCityCmd(id))
    }

    /** "p id" */
    function Pillage(): (cmd: string)
      ensures ' ' !in id ==> Parse(cmd) == Some(PillageCmd(id))
    {
      if ' ' !in id then ParseSerialize(PillageCmd(id)); Serialize(PillageCmd(id))
      else Serialize(PillageCmd(id))
    }

    /** `Worker.expend_resources_for_city` (same rule as the engine's worker). */
    method ExpendResourcesForCity(p: Parameters)
      requires utype == Worker && p.Valid()
      modifies this
      ensures cargo == U.ExpendedForCity(old(cargo), p.cityBuildCost)
    {
      cargo := U.PayCityCost(cargo, p.cityBuildCost);
    }
  }
}
