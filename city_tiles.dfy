/**
 * `CityTile` of luxai2021/game/city.py: one tile of a city, an actionable
 * entity with a cooldown and a queue of actions.  Its `turn` calls back
 * into the game and lives in the `Turns` module.
 */
module CityTiles {
  import opened Constants
  import opened Geometry
  import opened Actions
  import opened Actionables
  import opened Text

  /** The cargo space a city tile reports: effectively unlimited. */
  const TileCargoSpace := 9999999

  class CityTile {
    const team: Team
    const configs: Parameters
    /** Set once, by `Cell.setCityTile`, to the position of the cell holding the tile. */
    const pos: Position
    var cityid: string
    var adjacentCityTiles: nat
    var cooldown: real
    var currentActions: seq<Action>

    /**
     * The tile as `Cell.setCityTile` leaves it: the Python constructor
     * passes `cooldown` on to an `Actionable` constructor that accepts
     * none, so the model starts every tile at the default cooldown 0.
     */
    constructor(team: Team, configs: Parameters, pos: Position, cityid: string)
      ensures this.team == team && this.configs == configs && this.pos == pos && this.cityid == cityid
      ensures adjacentCityTiles == 0 && cooldown == 0.0 && currentActions == []
    {
      this.team := team;
      this.configs := configs;
      this.pos := pos;
      this.cityid := cityid;
      adjacentCityTiles := 0;
      cooldown := 0.0;
      currentActions := [];
    }

    predicate CanAct()
      reads this
    {
      Ready(cooldown)
    }

    predicate CanBuildUnit()
      reads this
    {
      CanAct()
    }

    predicate CanResearch()
      reads this
    {
      CanAct()
    }

    function CargoSpaceLeft(): (space: int)
      ensures space == TileCargoSpace
    {
      TileCargoSpace
    }

    /** `getTileID`, as evidently intended: "<cityid>_<x>_<y>". */
    function TileID(): string
      reads this
    {
      TileIdentifier(cityid, pos)
    }

    method ResetCooldown()
      modifies this`cooldown
      ensures cooldown == configs.cityActionCooldown
    {
      cooldown := configs.cityActionCooldown;
    }

    method GiveAction(action: Action)
      modifies this`currentActions
      ensures currentActions == old(currentActions) + [action]
    {
      currentActions := currentActions + [action];
    }
  }

  function TileIdentifier(cityid: string, pos: Position): string
  {
    cityid + "_" + IntToString(pos.x) + "_" + IntToString(pos.y)
  }

  /**
   * `getTileID` as written: the doubled braces of the f-string are
   * escapes, so every tile reports the same literal text.
   */
  function TileIDAsWritten(cityid: string, pos: Position): string
  {
    "{self.cityid}_{self.pos.x}_{self.pos.y}"
  }

  /** Two tiles of one city at different positions share an id as written. */
  lemma TileIDAsWrittenCollides()
    ensures TileIDAsWritten("c_1", Position(0, 0)) == TileIDAsWritten("c_1", Position(1, 0))
  {
  }

  /** The intended id determines the tile's position within its city. */
  lemma {:induction false} TileIdentifierDeterminesPosition(cityid: string, p: Position, q: Position)
    requires TileIdentifier(cityid, p) == TileIdentifier(cityid, q)
    ensures p == q
  {
    var sp := SplitOn(TileIdentifier(cityid, p), '_');
    SplitOnTileIdentifier(cityid, p);
    SplitOnTileIdentifier(cityid, q);
    IntRoundTrip(p.x);
    IntRoundTrip(p.y);
    IntRoundTrip(q.x);
    IntRoundTrip(q.y);
    assert sp[|sp| - 2] == IntToString(p.x) == IntToString(q.x);
    assert sp[|sp| - 1] == IntToString(p.y) == IntToString(q.y);
  }

  lemma SplitOnTileIdentifier(cityid: string, p: Position)
    ensures var s := SplitOn(TileIdentifier(cityid, p), '_');
      |s| >= 2 && s[|s| - 2] == IntToString(p.x) && s[|s| - 1] == IntToString(p.y)
  {
    var xs := IntToString(p.x);
    var ys := IntToString(p.y);
    IntNoSeparator(p.x);
    IntNoSeparator(p.y);
    assert TileIdentifier(cityid, p) == cityid + "_" + (xs + "_" + ys);
    SplitOnJoin(cityid, xs + "_" + ys, '_');
    SplitOnJoin(xs, ys, '_');
    SplitOnWord(xs, '_');
    SplitOnWord(ys, '_');
  }
}
