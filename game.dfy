/**
 * `Game` of luxai2021/game/game.py: the aggregate holding the map, the
 * cities by id, both teams' research and units, the id counters and the
 * statistics, with the spawn operations that add units, city tiles and
 * cities to it.
 *
 * The Python never stores `configs` on the game and passes the game
 * itself where `GameMap` expects the parameters; the model gives both the
 * one parameter record.
 */
module Games {
  import opened Wrappers
  import opened Constants
  import opened Geometry
  import opened Text
  import opened Tallies
  import opened CityTiles
  import opened Cells
  import opened Cities
  import opened Maps
  import opened Units
  import GO = GameObjects

  datatype Researched = Researched(wood: bool, coal: bool, uranium: bool)

  /** `state["teamStates"][team]`: research progress and the team's units by id. */
  datatype TeamState = TeamState(researchPoints: nat, units: map<string, Unit>, researched: Researched)

  const InitialTeamState := TeamState(0, map[], Researched(true, false, false))

  datatype ResourceCounts = ResourceCounts(wood: int, coal: int, uranium: int)

  /** `stats["teamStats"][team]` */
  datatype TeamStats = TeamStats(
    fuelGenerated: int,
    resourcesCollected: ResourceCounts,
    cityTilesBuilt: int,
    workersBuilt: int,
    cartsBuilt: int,
    roadsBuilt: real,
    roadsPillaged: real)
  {
    /** The statistics after one more unit of type t was built. */
    function Built(t: UnitType): (s: TeamStats)
      ensures t == Worker ==> s.workersBuilt == workersBuilt + 1 && s.cartsBuilt == cartsBuilt
      ensures t == Cart ==> s.cartsBuilt == cartsBuilt + 1 && s.workersBuilt == workersBuilt
      ensures s.(workersBuilt := workersBuilt, cartsBuilt := cartsBuilt) == this
    {
      match t
      case Worker => this.(workersBuilt := workersBuilt + 1)
      case Cart => this.(cartsBuilt := cartsBuilt + 1)
    }
  }

  const InitialTeamStats := TeamStats(0, ResourceCounts(0, 0, 0), 0, 0, 0, 0.0, 0.0)

  /** The per-team counters `validateCommand` accumulates over one turn's commands. */
  datatype ActionStats = ActionStats(workersBuilt: nat, cartsBuilt: nat, actionsPlaced: set<string>)

  /** `_genInitialAccumulatedActionStats`: both teams, nothing built and nothing placed yet. */
  function GenInitialAccumulatedActionStats(): (s: map<Team, ActionStats>)
    ensures s.Keys == {A, B}
    ensures forall t :: t in s ==> s[t].workersBuilt == 0 && s[t].cartsBuilt == 0 && s[t].actionsPlaced == {}
  {
    map[A := ActionStats(0, 0, {}), B := ActionStats(0, 0, {})]
  }

  /**
   * A team's research flags agree with its points: wood is always known,
   * coal and uranium exactly once their thresholds are reached.
   */
  predicate ResearchConsistent(ts: TeamState, p: Parameters)
  {
    ts.researched.wood &&
    (ts.researched.coal <==> ts.researchPoints >= p.coalResearch) &&
    (ts.researched.uranium <==> ts.researchPoints >= p.uraniumResearch)
  }

  /** The research step of `CityTile.turn`: one more point, and a flag set once its threshold is reached. */
  function Research(ts: TeamState, p: Parameters): (r: TeamState)
    ensures r.units == ts.units
  {
    var points := ts.researchPoints + 1;
    ts.(researchPoints := points,
        researched := ts.researched.(coal := ts.researched.coal || points >= p.coalResearch,
                                     uranium := ts.researched.uranium || points >= p.uraniumResearch))
  }

  /**
   * Research adds exactly one point, flags are only ever set, and a team
   * whose flags agreed with its points still agrees after researching.
   */
  lemma ResearchSpec(ts: TeamState, p: Parameters)
    ensures Research(ts, p).researchPoints == ts.researchPoints + 1
    ensures Research(ts, p).researched.wood == ts.researched.wood
    ensures ts.researched.coal ==> Research(ts, p).researched.coal
    ensures ts.researched.uranium ==> Research(ts, p).researched.uranium
    ensures ResearchConsistent(ts, p) ==> ResearchConsistent(Research(ts, p), p)
  {
  }

  /** With positive thresholds, a fresh team's flags agree with its zero points. */
  lemma InitialResearchConsistent(p: Parameters)
    requires p.Valid()
    ensures ResearchConsistent(InitialTeamState, p)
  {
  }

  /**
   * An agent's `Player` holding the team's research points reports coal
   * and uranium as researched exactly when the engine's flags are set.
   */
  lemma PlayerSeesResearch(ts: TeamState, player: GO.Player, p: Parameters)
    requires ResearchConsistent(ts, p) && player.researchPoints == ts.researchPoints
    ensures player.ResearchedCoal(p) <==> ts.researched.coal
    ensures player.ResearchedUranium(p) <==> ts.researched.uranium
  {
  }


  /**
   * The cells among `cells` that hold a city tile of `team`, in order:
   * what the neighbour loop of `spawnCityTile` collects.
   */
  function SameTeamCells(cells: seq<Cell>, team: Team): (same: seq<Cell>)
    reads cells
    ensures |same| <= |cells|
    ensures forall c :: c in same ==> c in cells && c.citytile != null && c.citytile.team == team
    ensures forall c :: c in cells && c.citytile != null && c.citytile.team == team ==> c in same
    ensures AllTiled(same)
  {
    if cells == [] then []
    else
      var last := cells[|cells| - 1];
      var init := cells[..|cells| - 1];
      assert forall c :: c in cells ==> c in init || c == last;
      assert forall c :: c in init ==> c in cells;
      SameTeamCells(init, team) + (if last.citytile != null && last.citytile.team == team then [last] else [])
  }

  /** The city id on the tile of each cell. */
  function TileCityIds(cells: seq<Cell>): (ids: seq<string>)
    requires AllTiled(cells)
    reads cells, TilesOf(cells)
    ensures |ids| == |cells|
    ensures forall i :: 0 <= i < |cells| ==> ids[i] == cells[i].citytile.cityid
  {
    if cells == [] then []
    else
      assert TilesOf(cells[1..]) <= TilesOf(cells) by {
        forall t | t in TilesOf(cells[1..]) ensures t in TilesOf(cells) {
          var i :| 0 <= i < |cells[1..]| && cells[1..][i].citytile == t;
          assert cells[i + 1].citytile == t;
        }
      }
      [cells[0].citytile.cityid] + TileCityIds(cells[1..])
  }

  predicate NoDuplicates(ids: seq<string>)
  {
    forall i, j :: 0 <= i < j < |ids| ==> ids[i] != ids[j]
  }

  /** The ids in order of first appearance, each once: the set `cityIdsFound`, in one of its orders. */
  function Distinct(ids: seq<string>): (r: seq<string>)
    ensures forall x :: x in r <==> x in ids
    ensures NoDuplicates(r)
  {
    if ids == [] then []
    else
      var init := ids[..|ids| - 1];
      var last := ids[|ids| - 1];
      assert forall x :: x in ids <==> x in init || x == last;
      var prev := Distinct(init);
      if last in prev then prev else prev + [last]
  }

  /**
   * The values of a game that placing a city tile reads or changes: the
   * city map, the city id counter, every city's cells and fuel by id, and
   * every tiled cell's tile, city id and count of adjacent tiles.
   */
  datatype Board = Board(
    cities: map<string, City>, count: nat, lists: map<string, seq<Cell>>, fuel: map<string, int>,
    tiles: map<Cell, CityTile>, tileIds: map<Cell, string>, adjacent: map<Cell, nat>)

  /** The ids other than `keep`, in order. */
  function Without(ids: seq<string>, keep: string): (r: seq<string>)
    ensures forall x :: x in r <==> x in ids && x != keep
    ensures NoDuplicates(ids) ==> NoDuplicates(r)
  {
    if ids == [] then []
    else
      var init := ids[..|ids| - 1];
      var last := ids[|ids| - 1];
      assert forall x :: x in ids <==> x in init || x == last;
      assert NoDuplicates(ids) ==> NoDuplicates(init) && last !in init by {
        if NoDuplicates(ids) {
          assert forall i :: 0 <= i < |init| ==> init[i] == ids[i];
        }
      }
      Without(init, keep) + (if last == keep then [] else [last])
  }

  /** The cell lists filed under `ids`, concatenated in order (a missing id adds nothing). */
  function CellsNamed(lists: map<string, seq<Cell>>, ids: seq<string>): seq<Cell>
  {
    if ids == [] then []
    else
      var last := ids[|ids| - 1];
      CellsNamed(lists, ids[..|ids| - 1]) + (if last in lists then lists[last] else [])
  }

  /** The fuel filed under `ids`, summed (a missing id adds nothing). */
  function FuelNamed(fuel: map<string, int>, ids: seq<string>): int
  {
    if ids == [] then 0
    else
      var last := ids[|ids| - 1];
      FuelNamed(fuel, ids[..|ids| - 1]) + (if last in fuel then fuel[last] else 0)
  }

  lemma SameTeamSnoc(cells: seq<Cell>, c: Cell, team: Team)
    ensures SameTeamCells(cells + [c], team) ==
      SameTeamCells(cells, team) + (if c.citytile != null && c.citytile.team == team then [c] else [])
  {
    assert (cells + [c])[..|cells|] == cells;
  }

  lemma TileCityIdsSnoc(cells: seq<Cell>, c: Cell)
    requires AllTiled(cells) && c.citytile != null
    ensures AllTiled(cells + [c])
    ensures TileCityIds(cells + [c]) == TileCityIds(cells) + [c.citytile.cityid]
  {
  }

  lemma DistinctSnoc(ids: seq<string>, x: string)
    ensures Distinct(ids + [x]) == if x in Distinct(ids) then Distinct(ids) else Distinct(ids) + [x]
  {
    assert (ids + [x])[..|ids|] == ids;
  }


  /** The ids of a sequence, as a set. */
  function KeySet(ids: seq<string>): (ks: set<string>)
    ensures forall x :: x in ks <==> x in ids
  {
    set x | x in ids
  }

  lemma KeySetSnoc(ids: seq<string>, x: string)
    ensures KeySet(ids + [x]) == KeySet(ids) + {x}
  {
  }

  lemma WithoutSnoc(ids: seq<string>, x: string, keep: string)
    ensures Without(ids + [x], keep) == Without(ids, keep) + (if x == keep then [] else [x])
  {
    assert (ids + [x])[..|ids|] == ids;
  }

  lemma NamedSnoc(lists: map<string, seq<Cell>>, fuel: map<string, int>, ids: seq<string>, x: string)
    ensures CellsNamed(lists, ids + [x]) == CellsNamed(lists, ids) + (if x in lists then lists[x] else [])
    ensures FuelNamed(fuel, ids + [x]) == FuelNamed(fuel, ids) + (if x in fuel then fuel[x] else 0)
  {
    assert (ids + [x])[..|ids|] == ids;
  }

  /** No two of the cells stand at the same position. */
  ghost predicate PositionsDistinct(cells: seq<Cell>)
  {
    forall i, j :: 0 <= i < j < |cells| ==> cells[i].pos != cells[j].pos
  }

  /** Keeping some of a sequence of cells keeps their positions pairwise different. */
  lemma {:induction false} SameTeamDistinct(cells: seq<Cell>, team: Team)
    requires PositionsDistinct(cells)
    ensures PositionsDistinct(SameTeamCells(cells, team))
  {
    if cells != [] {
      var init := cells[..|cells| - 1];
      var last := cells[|cells| - 1];
      SameTeamDistinct(init, team);
      var prev := SameTeamCells(init, team);
      var same := SameTeamCells(cells, team);
      assert same == prev + (if last.citytile != null && last.citytile.team == team then [last] else []);
      forall i, j | 0 <= i < j < |same|
        ensures same[i].pos != same[j].pos
      {
        assert same[i] == prev[i];
        if j == |prev| {
          assert same[j] == last;
          assert prev[i] in init;
          var k :| 0 <= k < |init| && init[k] == prev[i];
          assert cells[k] == prev[i] && cells[|cells| - 1] == same[j];
          assert cells[k].pos != cells[|cells| - 1].pos;
        } else {
          assert same[j] == prev[j];
          assert prev[i].pos != prev[j].pos;
        }
      }
    }
  }

  /** Snapshots that agree on the named ids give the same cells and fuel for them. */
  lemma {:induction false} NamedAgree(l1: map<string, seq<Cell>>, l2: map<string, seq<Cell>>,
                                      f1: map<string, int>, f2: map<string, int>, ids: seq<string>)
    requires forall k :: k in ids ==> (k in l1 <==> k in l2) && (k in l1 ==> l1[k] == l2[k])
    requires forall k :: k in ids ==> (k in f1 <==> k in f2) && (k in f1 ==> f1[k] == f2[k])
    ensures CellsNamed(l1, ids) == CellsNamed(l2, ids) && FuelNamed(f1, ids) == FuelNamed(f2, ids)
  {
    if ids != [] {
      NamedAgree(l1, l2, f1, f2, ids[..|ids| - 1]);
      assert ids[|ids| - 1] in ids;
    }
  }

  /** One more id of `ids` looked at by a loop over it. */
  lemma WithoutStep(ids: seq<string>, i: nat, keep: string)
    requires i < |ids| && NoDuplicates(ids)
    ensures Without(ids[..i + 1], keep) == Without(ids[..i], keep) + (if ids[i] == keep then [] else [ids[i]])
    ensures ids[i] !in Without(ids[..i], keep)
  {
    assert ids[..i + 1] == ids[..i] + [ids[i]];
    WithoutSnoc(ids[..i], ids[i], keep);
  }

  lemma RemoveOneMore(all: map<string, City>, gone: set<string>, x: string, before: map<string, City>, after: map<string, City>)
    requires before == all - gone && after == before - {x}
    ensures after == all - (gone + {x})
  {
  }

  lemma CellsNamedGrows(start: seq<Cell>, lists: map<string, seq<Cell>>, ids: seq<string>, x: string, now: seq<Cell>)
    requires x in lists && now == (start + CellsNamed(lists, ids)) + lists[x]
    ensures now == start + CellsNamed(lists, ids + [x])
  {
    assert (ids + [x])[..|ids|] == ids;
  }

  /**
   * The neighbour loop of `spawnCityTile`: the neighbours holding a tile
   * of `team`, and the distinct city ids on those tiles.  The Python adds
   * the `cityid` argument to `cityIdsFound` instead of the neighbour's
   * city id; the model collects the neighbours' ids, as intended.
   */
  method CollectSameTeam(adjCells: seq<Cell>, team: Team) returns (same: seq<Cell>, ids: seq<string>)
    ensures same == SameTeamCells(adjCells, team)
    ensures ids == Distinct(TileCityIds(same))
  {
    same := [];
    ids := [];
    for i := 0 to |adjCells|
      invariant same == SameTeamCells(adjCells[..i], team)
      invariant ids == Distinct(TileCityIds(same))
    {
      var c := adjCells[i];
      SameTeamStep(adjCells, i, team);
      if c.citytile != null && c.citytile.team == team {
        CityIdsStep(same, c, ids);
        same := same + [c];
        if c.citytile.cityid !in ids {
          ids := ids + [c.citytile.cityid];
        }
      }
    }
    assert adjCells[..|adjCells|] == adjCells;
  }

  /** One step of the neighbour loop: the next cell joins `same` exactly when it holds a tile of `team`. */
  lemma SameTeamStep(cells: seq<Cell>, i: nat, team: Team)
    requires i < |cells|
    ensures SameTeamCells(cells[..i + 1], team) == SameTeamCells(cells[..i], team) +
      (if cells[i].citytile != null && cells[i].citytile.team == team then [cells[i]] else [])
  {
    assert cells[..i + 1] == cells[..i] + [cells[i]];
    SameTeamSnoc(cells[..i], cells[i], team);
  }

  /** A tiled cell appended to `same` adds its city id to `ids` unless it is there already. */
  lemma CityIdsStep(same: seq<Cell>, c: Cell, ids: seq<string>)
    requires AllTiled(same) && c.citytile != null && ids == Distinct(TileCityIds(same))
    ensures AllTiled(same + [c])
    ensures Distinct(TileCityIds(same + [c])) == if c.citytile.cityid in ids then ids else ids + [c.citytile.cityid]
  {
    TileCityIdsSnoc(same, c);
    DistinctSnoc(TileCityIds(same), c.citytile.cityid);
  }

  /** Each team's units are filed under their ids, belong to the team and stand on a width x height map. */
  ghost predicate UnitsFiled(teamStates: map<Team, TeamState>, configs: Parameters, width: int, height: int)
  {
    forall t, k :: t in teamStates && k in teamStates[t].units ==>
      teamStates[t].units[k].id == k && teamStates[t].units[k].team == t &&
      teamStates[t].units[k].configs == configs &&
      InBounds(teamStates[t].units[k].pos, width, height)
  }

  /** Filing a unit of `team` under its own id keeps the units filed. */
  lemma UnitFiled(teamStates: map<Team, TeamState>, team: Team, u: Unit, configs: Parameters, width: int, height: int)
    requires UnitsFiled(teamStates, configs, width, height) && team in teamStates
    requires u.team == team && u.configs == configs && InBounds(u.pos, width, height)
    ensures UnitsFiled(teamStates[team := teamStates[team].(units := teamStates[team].units[u.id := u])], configs, width, height)
  {
    var ts := teamStates[team := teamStates[team].(units := teamStates[team].units[u.id := u])];
    forall t, k | t in ts && k in ts[t].units
      ensures ts[t].units[k].id == k && ts[t].units[k].team == t && ts[t].units[k].configs == configs &&
        InBounds(ts[t].units[k].pos, width, height)
    {
      if t != team || k != u.id {
        assert ts[t].units[k] == teamStates[t].units[k];
      }
    }
  }

  /** Taking a unit out of its team's units keeps the units filed. */
  lemma UnitUnfiled(teamStates: map<Team, TeamState>, team: Team, id: string, configs: Parameters, width: int, height: int)
    requires UnitsFiled(teamStates, configs, width, height) && team in teamStates
    ensures UnitsFiled(teamStates[team := teamStates[team].(units := teamStates[team].units - {id})], configs, width, height)
  {
    var ts := teamStates[team := teamStates[team].(units := teamStates[team].units - {id})];
    forall t, k | t in ts && k in ts[t].units
      ensures ts[t].units[k].id == k && ts[t].units[k].team == t && ts[t].units[k].configs == configs &&
        InBounds(ts[t].units[k].pos, width, height)
    {
      assert ts[t].units[k] == teamStates[t].units[k];
    }
  }

  class Game {
    const configs: Parameters
    const gameMap: GameMap
    var globalCityIDCount: nat
    var globalUnitIDCount: nat
    var cities: map<string, City>
    var turn: nat
    var teamStates: map<Team, TeamState>
    var stats: map<Team, TeamStats>

    /** The invariant every game operation keeps. */
    ghost predicate Valid()
      reads this, gameMap, cities.Values, gameMap.Cells()
    {
      configs.Valid() && gameMap.Valid() && gameMap.configs == configs && gameMap.Indexed() &&
      teamStates.Keys == {A, B} && stats.Keys == {A, B} &&
      CitiesValid() && TilesPlaced() && UnitsValid()
    }

    /**
     * Each city is filed under its own id, and every cell it lists is a
     * cell of the map carrying a city tile.
     */
    ghost predicate CitiesValid()
      reads this, cities.Values, gameMap.Cells()
    {
      forall k :: k in cities ==>
        cities[k].id == k && cities[k].configs == configs &&
        forall i :: 0 <= i < |cities[k].citycells| ==>
          cities[k].citycells[i] in gameMap.Cells() && cities[k].citycells[i].citytile != null
    }

    /** A city tile stands where its cell is, so different cells hold different tiles. */
    ghost predicate TilesPlaced()
      reads gameMap.Cells()
    {
      forall c :: c in gameMap.Cells() && c.citytile != null ==>
        c.citytile.pos == c.pos && c.citytile.configs == c.configs
    }

    /** Each team's units are filed under their ids, belong to the team and stand on the map. */
    ghost predicate UnitsValid()
      reads this`teamStates
    {
      UnitsFiled(teamStates, configs, gameMap.width, gameMap.height)
    }

    /**
     * A new game: counters at 0, no cities, turn 0, both teams with no
     * points, no units and only wood researched, and all statistics zero.
     */
    constructor(configs: Parameters, width: nat, height: nat)
      requires configs.Valid()
      ensures Valid() && fresh(gameMap) && fresh(gameMap.Cells())
      ensures this.configs == configs && gameMap.width == width && gameMap.height == height
      ensures globalCityIDCount == 0 && globalUnitIDCount == 0 && cities == map[] && turn == 0
      ensures teamStates == map[A := InitialTeamState, B := InitialTeamState]
      ensures stats == map[A := InitialTeamStats, B := InitialTeamStats]
    {
      this.configs := configs;
      globalCityIDCount := 0;
      globalUnitIDCount := 0;
      cities := map[];
      stats := map[A := InitialTeamStats, B := InitialTeamStats];
      turn := 0;
      teamStates := map[A := InitialTeamState, B := InitialTeamState];
      gameMap := new GameMap(configs, width, height);
    }

    /** Each city, weighted 1, under its team. */
    function CityEntries(): (m: map<string, Entry>)
      reads this
      ensures m.Keys == cities.Keys
      ensures forall k :: k in m ==> m[k] == Entry(cities[k].team, 1)
    {
      map k | k in cities :: Entry(cities[k].team, 1)
    }

    /** Each city, weighted by its number of tiles, under its team. */
    function TileEntries(): (m: map<string, Entry>)
      reads this, cities.Values
      ensures m.Keys == cities.Keys
      ensures forall k :: k in m ==> m[k] == Entry(cities[k].team, |cities[k].citycells|)
    {
      map k | k in cities :: Entry(cities[k].team, |cities[k].citycells|)
    }

    /** The number of cities of a team. */
    ghost function CityCount(team: Team): nat
      reads this
    {
      TeamTotal(CityEntries(), team)
    }

    /** The number of city tiles of a team, summed over its cities. */
    ghost function CityTileCount(team: Team): nat
      reads this, cities.Values
    {
      TeamTotal(TileEntries(), team)
    }

    /** Every city's cell list, by id. */
    ghost function CellLists(): (lists: map<string, seq<Cell>>)
      reads this`cities, cities.Values`citycells
      ensures lists.Keys == cities.Keys
    {
      map k | k in cities :: cities[k].citycells
    }

    /** The city id on the tile of every tiled cell of the map. */
    ghost function TileIds(): (ids: map<Cell, string>)
      reads gameMap.Cells()`citytile, TilesIn(gameMap.Cells())`cityid
      ensures forall c :: c in gameMap.Cells() && c.citytile != null ==> c in ids
      ensures forall c :: c in ids ==> c in gameMap.Cells() && c.citytile != null && ids[c] == c.citytile.cityid
    {
      map c | c in gameMap.Cells() && c.citytile != null :: c.citytile.cityid
    }

    /** Every city's fuel, by id. */
    ghost function FuelLevels(): (fuel: map<string, int>)
      reads this`cities, cities.Values`fuel
      ensures fuel.Keys == cities.Keys
    {
      map k | k in cities :: cities[k].fuel
    }

    function UnitCount(team: Team): nat
      requires team in teamStates
      reads this
    {
      |teamStates[team].units|
    }

    /**
     * `workerUnitCapReached`: the team's units plus `offset` reach its
     * number of cities.  The Python loop iterates over the dictionary's
     * keys and reads `units["size"]`; the evident intent, modelled here,
     * is the team's cities and the size of its unit map.
     */
    method WorkerUnitCapReached(team: Team, offset: int) returns (reached: bool)
      requires Valid()
      ensures reached <==> UnitCount(team) + offset >= CityCount(team)
    {
      var countA, countB := Tally(CityEntries());
      var teamCityCount := if team == A then countA else countB;
      reached := |teamStates[team].units| + offset >= teamCityCount;
    }

    /** `cartUnitCapReached`: the same test as for workers. */
    method CartUnitCapReached(team: Team, offset: int) returns (reached: bool)
      requires Valid()
      ensures reached <==> UnitCount(team) + offset >= CityCount(team)
    {
      reached := WorkerUnitCapReached(team, offset);
    }

    /**
     * `spawnWorker` / `spawnCart`: a new unit at (x, y) with id
     * "u_<counter + 1>", or the given `unitid`, in which case the counter
     * stays put; it is recorded on its cell and in its team's units, and
     * the team's built count for its type rises by one.  The Python bumps
     * `stats["teamStates"]`, a key the statistics do not have; the model
     * updates `stats["teamStats"]` as intended.  A position off the map is
     * a failure and changes nothing.
     */
    method SpawnUnit(utype: UnitType, team: Team, x: int, y: int, unitid: Option<string>) returns (r: Result<Unit>)
      requires Valid()
      modifies this`globalUnitIDCount, this`teamStates, this`stats, gameMap.Cells()`units
      ensures Valid()
      ensures !InBounds(Position(x, y), gameMap.width, gameMap.height) ==>
        r.Failure? && unchanged(this) && unchanged(gameMap.Cells())
      ensures InBounds(Position(x, y), gameMap.width, gameMap.height) ==>
        r.Success? && fresh(r.value) &&
        r.value.utype == utype && r.value.team == team && r.value.pos == Position(x, y) &&
        r.value.cargo == EmptyCargo && r.value.cooldown == 0.0 && r.value.currentActions == [] &&
        r.value.id == (if Given(unitid) then unitid.value else "u_" + NatToString(old(globalUnitIDCount) + 1)) &&
        globalUnitIDCount == old(globalUnitIDCount) + (if Given(unitid) then 0 else 1) &&
        teamStates == old(teamStates)[team := old(teamStates)[team].(units := old(teamStates)[team].units[r.value.id := r.value])] &&
        stats == old(stats)[team := old(stats)[team].Built(utype)]
      ensures InBounds(Position(x, y), gameMap.width, gameMap.height) ==>
        var cell := gameMap.GetCell(x, y);
        cell.units == old(cell.units) + {r.value.id} &&
        forall c :: c in gameMap.Cells() && c != cell ==> c.units == old(c.units)
    {
      if !gameMap.InMap(Position(x, y)) {
        return Failure("cell out of map");
      }
      var unit := new Unit(x, y, utype, team, configs, globalUnitIDCount + 1, unitid);
      if !Given(unitid) {
        globalUnitIDCount := globalUnitIDCount + 1;
      }
      PlaceUnit(unit);
      return Success(unit);
    }

    /** Records a new unit on its cell, in its team's units and in its team's built count. */
    method PlaceUnit(unit: Unit)
      requires Valid() && unit.configs == configs && InBounds(unit.pos, gameMap.width, gameMap.height) && unit.team in teamStates
      modifies this`teamStates, this`stats, gameMap.Cells()`units
      ensures Valid()
      ensures teamStates == old(teamStates)[unit.team := old(teamStates)[unit.team].(units := old(teamStates)[unit.team].units[unit.id := unit])]
      ensures stats == old(stats)[unit.team := old(stats)[unit.team].Built(unit.utype)]
      ensures var cell := gameMap.GetCellByPos(unit.pos);
        cell.units == old(cell.units) + {unit.id} &&
        forall c :: c in gameMap.Cells() && c != cell ==> c.units == old(c.units)
    {
      var cell := gameMap.GetCellByPos(unit.pos);
      cell.units := cell.units + {unit.id};
      teamStates := teamStates[unit.team := teamStates[unit.team].(units := teamStates[unit.team].units[unit.id := unit])];
      stats := stats[unit.team := stats[unit.team].Built(unit.utype)];
      TilesKept(this);
      UnitFiled(old(teamStates), unit.team, unit, configs, gameMap.width, gameMap.height);
    }

    /**
     * `destroyUnit`: the unit `unitid` of `team` leaves its team's units
     * and the unit ids of the cell it stands on.  The Python method is a
     * stub; the model does what its documentation says.  An id the team
     * does not have changes nothing.
     */
    method DestroyUnit(team: Team, unitid: string)
      requires Valid()
      modifies this`teamStates, gameMap.Cells()`units
      ensures Valid()
      ensures unitid !in old(teamStates[team].units) ==> teamStates == old(teamStates) && unchanged(gameMap.Cells())
      ensures unitid in old(teamStates[team].units) ==>
        var cell := gameMap.GetCellByPos(old(teamStates[team].units[unitid]).pos);
        teamStates == old(teamStates)[team := old(teamStates[team]).(units := old(teamStates[team].units) - {unitid})] &&
        cell.units == old(cell.units) - {unitid} &&
        forall c :: c in gameMap.Cells() && c != cell ==> c.units == old(c.units)
    {
      if unitid !in teamStates[team].units {
        return;
      }
      var unit := teamStates[team].units[unitid];
      var cell := gameMap.GetCellByPos(unit.pos);
      cell.units := cell.units - {unitid};
      teamStates := teamStates[team := teamStates[team].(units := teamStates[team].units - {unitid})];
      TilesKept(this);
      UnitUnfiled(old(teamStates), team, unitid, configs, gameMap.width, gameMap.height);
    }

    /**
     * `destroyCity`, which the night phase calls: the city leaves
     * `cities`.  The repository defines no such method; the model removes
     * the city and nothing else.
     */
    method DestroyCity(cityid: string)
      requires Valid()
      modifies this`cities
      ensures Valid() && cities == old(cities) - {cityid}
    {
      cities := cities - {cityid};
    }

    /** The research step of `CityTile.turn` for `team`. */
    method ResearchFor(team: Team)
      requires Valid()
      modifies this`teamStates
      ensures Valid() && teamStates == old(teamStates)[team := Research(old(teamStates[team]), configs)]
    {
      teamStates := teamStates[team := Research(teamStates[team], configs)];
    }

    /**
     * `spawnCityTile`: a new tile of `team` on the cell at (x, y).  With no
     * neighbour (N, E, S, W) holding a tile of `team`, it founds a new
     * city, as `FoundCity` describes.  Otherwise it joins the city of the
     * first such neighbour: the new tile counts those neighbours, each of
     * them counts one more, the cell is appended to that city, and then
     * every other city found among the neighbours is merged into it.
     * The Python places the tile on the last neighbour visited, because its
     * neighbour loop reuses the name `cell`; the model places it at (x, y),
     * as intended.  A position off the map is a failure that changes
     * nothing; a joined city missing from `cities` is a failure after the
     * tile and the adjacency counts are in place, as in the Python, where
     * the call on the missing city raises at that point.
     */
    method SpawnCityTile(team: Team, x: int, y: int, cityid: Option<string>) returns (r: Result<CityTile>, ghost same: seq<Cell>, ghost ids: seq<string>)
      requires Valid()
      modifies this`cities, this`globalCityIDCount, gameMap.Cells()`citytile, cities.Values`citycells, cities.Values`fuel
      modifies TilesIn(gameMap.Cells())`adjacentCityTiles, TilesIn(gameMap.Cells())`cityid
      ensures Valid()
      ensures !InBounds(Position(x, y), gameMap.width, gameMap.height) ==>
        r.Failure? && unchanged(this) && unchanged(gameMap.Cells())
      ensures InBounds(Position(x, y), gameMap.width, gameMap.height) ==>
        var cell := gameMap.GetCellByPos(Position(x, y));
        same == old(SameTeamCells(gameMap.AdjacentCells(Position(x, y)), team)) && old(allocated(same)) &&
        ids == old(Distinct(TileCityIds(same))) && TilePlaced(cell, team, same, ids, cityid, r, old(Snapshot())) &&
        fresh(cell.citytile) && (same == [] ==> fresh(cities[cell.citytile.cityid]))
    {
      if !gameMap.InMap(Position(x, y)) {
        return Failure("cell out of map"), [], [];
      }
      var cell := gameMap.GetCell(x, y);
      var found, foundIds := FindSameTeam(cell, team);
      same, ids := found, foundIds;
      r := PlaceCityTile(cell, team, cityid, found, foundIds);
    }

    /** The values of this game that placing a city tile reads or changes, as a `Board`. */
    ghost function Snapshot(): (b: Board)
      reads this`cities, this`globalCityIDCount, cities.Values`citycells, cities.Values`fuel
      reads gameMap.Cells()`citytile, TilesIn(gameMap.Cells())`cityid, TilesIn(gameMap.Cells())`adjacentCityTiles
      ensures b.cities == cities && b.count == globalCityIDCount
      ensures b.lists == CellLists() && b.fuel == FuelLevels() && b.tileIds == TileIds()
      ensures forall c :: c in gameMap.Cells() && c.citytile != null ==> c in b.tiles
      ensures forall c :: c in b.tiles ==>
        c in gameMap.Cells() && c.citytile != null && b.tiles[c] == c.citytile &&
        c in b.adjacent && b.adjacent[c] == c.citytile.adjacentCityTiles
    {
      Board(cities, globalCityIDCount, CellLists(), FuelLevels(),
            map c | c in gameMap.Cells() && c.citytile != null :: c.citytile,
            TileIds(),
            map c | c in gameMap.Cells() && c.citytile != null :: c.citytile.adjacentCityTiles)
    }

    /**
     * What `spawnCityTile` leaves behind on an on-map cell, given the game
     * `before` it: a tile of `team` at the cell; with no same-team
     * neighbour, the new city with its id as `FoundCity` describes, while
     * every other city keeps its cells and fuel and every other tiled cell
     * its tile, city id and count; otherwise the tile carries the city id
     * of the first same-team neighbour (`joinId`) and counts those
     * neighbours, each of which counts one more adjacent tile while every
     * other tile keeps its count, and the outcome is a success exactly
     * when `joinId` and every other city of `ids` existed; then the cell
     * is appended to city `joinId`, the other cities' cells follow it and
     * carry `joinId`, their fuel is added, they are gone from the map,
     * every remaining city keeps its cells and fuel, and every other tile
     * keeps its city id.
     */
    ghost predicate TilePlaced(cell: Cell, team: Team, same: seq<Cell>, ids: seq<string>, cityid: Option<string>, r: Result<CityTile>, before: Board)
      requires cell in gameMap.Cells()
      reads this`cities, this`globalCityIDCount, gameMap.Cells()`citytile, same`citytile
      reads TilesIn(gameMap.Cells())`cityid, TilesIn(gameMap.Cells())`adjacentCityTiles, TilesIn(gameMap.Cells())`cooldown
      reads TilesOf(same)`adjacentCityTiles, cities.Values`citycells, cities.Values`fuel
    {
      cell.citytile != null && cell.citytile.team == team &&
      cell.citytile.pos == cell.pos && cell.citytile.cooldown == 0.0 &&
      (r.Success? ==> r.value == cell.citytile) &&
      (same == [] ==>
        var id := if Given(cityid) then cityid.value else "c_" + NatToString(before.count + 1);
        r.Success? && cell.citytile.cityid == id && cell.citytile.adjacentCityTiles == 0 &&
        id in cities && cities == before.cities[id := cities[id]] &&
        cities[id].team == team && cities[id].citycells == [cell] && cities[id].fuel == 0 &&
        globalCityIDCount == before.count + (if Given(cityid) then 0 else 1) &&
        (forall k :: k in before.cities && k != id ==>
          k in before.lists && k in before.fuel && cities[k].citycells == before.lists[k] && cities[k].fuel == before.fuel[k]) &&
        forall c :: c in before.tiles && c != cell ==>
          c in gameMap.Cells() && c in before.tileIds && c in before.adjacent && c.citytile == before.tiles[c] &&
          c.citytile.cityid == before.tileIds[c] && c.citytile.adjacentCityTiles == before.adjacent[c]) &&
      (same != [] ==>
        same[0] in before.tileIds &&
        var joinId := before.tileIds[same[0]];
        var merged := Without(ids, joinId);
        cell.citytile.cityid == joinId && cell.citytile.adjacentCityTiles == |same| &&
        globalCityIDCount == before.count &&
        (forall i :: 0 <= i < |same| ==>
          same[i] in before.tiles && same[i] in before.adjacent && same[i].citytile == before.tiles[same[i]] &&
          same[i].citytile != null && same[i].citytile.adjacentCityTiles == before.adjacent[same[i]] + 1) &&
        (forall c :: c in before.tiles && c != cell && c !in same ==>
          c in gameMap.Cells() && c in before.adjacent && c.citytile == before.tiles[c] &&
          c.citytile.adjacentCityTiles == before.adjacent[c]) &&
        (r.Success? <==> joinId in before.cities && forall id :: id in merged ==> id in before.cities) &&
        (r.Success? ==>
          joinId in before.lists && joinId in before.fuel &&
          joinId in cities && cities[joinId] == before.cities[joinId] &&
          cities == before.cities - KeySet(merged) &&
          cities[joinId].citycells == before.lists[joinId] + [cell] + CellsNamed(before.lists, merged) &&
          cities[joinId].fuel == before.fuel[joinId] + FuelNamed(before.fuel, merged) &&
          (forall k :: k in cities && k != joinId ==>
            k in before.lists && k in before.fuel && cities[k].citycells == before.lists[k] && cities[k].fuel == before.fuel[k]) &&
          (forall c :: c in CellsNamed(before.lists, merged) ==>
            c in gameMap.Cells() && c.citytile != null && c.citytile.cityid == joinId) &&
          forall c :: c in before.tileIds && c != cell && c !in CellsNamed(before.lists, merged) ==>
            c in gameMap.Cells() && c.citytile != null && c.citytile.cityid == before.tileIds[c]))
    }

    /** The two branches of `spawnCityTile`, once the same-team neighbours are known. */
    method PlaceCityTile(cell: Cell, team: Team, cityid: Option<string>, same: seq<Cell>, ids: seq<string>) returns (r: Result<CityTile>)
      requires Valid() && cell in gameMap.Cells() && (same != [] ==> JoinReady(cell, team, same, ids))
      modifies this`cities, this`globalCityIDCount, cell`citytile, cities.Values`citycells, cities.Values`fuel
      modifies TilesIn(gameMap.Cells())`adjacentCityTiles, TilesIn(gameMap.Cells())`cityid
      ensures Valid() && TilePlaced(cell, team, same, ids, cityid, r, old(Snapshot()))
      ensures fresh(cell.citytile) && (same == [] ==> fresh(cities[cell.citytile.cityid]))
    {
      if |same| == 0 {
        r := FoundBranch(cell, team, cityid, same, ids);
      } else {
        r := JoinBranch(cell, team, same, ids);
      }
    }

    /** `FoundCity`, restated against the game as it was before, in the terms of `TilePlaced`. */
    method FoundBranch(cell: Cell, team: Team, cityid: Option<string>, same: seq<Cell>, ids: seq<string>) returns (r: Result<CityTile>)
      requires Valid() && cell in gameMap.Cells() && same == []
      modifies this`cities, this`globalCityIDCount, cell`citytile
      ensures Valid() && TilePlaced(cell, team, same, ids, cityid, r, old(Snapshot()))
      ensures fresh(cell.citytile) && fresh(cities[cell.citytile.cityid])
    {
      var tile := FoundCity(cell, team, cityid);
      r := Success(tile);
    }

    /** `JoinCity`, restated against the game as it was before, in the terms of `TilePlaced`. */
    method JoinBranch(cell: Cell, team: Team, same: seq<Cell>, ids: seq<string>) returns (r: Result<CityTile>)
      requires Valid() && JoinReady(cell, team, same, ids)
      modifies this`cities, cell`citytile, cities.Values`citycells, cities.Values`fuel
      modifies TilesIn(gameMap.Cells())`adjacentCityTiles, TilesIn(gameMap.Cells())`cityid
      ensures Valid() && TilePlaced(cell, team, same, ids, None, r, old(Snapshot()))
      ensures fresh(cell.citytile) && globalCityIDCount == old(globalCityIDCount)
    {
      r := JoinCity(cell, team, same, ids);
    }

    /**
     * What the joining branch starts from: the cell is on the map, `same`
     * lists tiled cells of `team` on the map at distance one from it, at
     * pairwise different positions, and `ids` are their city ids, each once.
     */
    ghost predicate JoinReady(cell: Cell, team: Team, same: seq<Cell>, ids: seq<string>)
      reads same, TilesOf(same)
    {
      cell in gameMap.Cells() && same != [] &&
      (forall i :: 0 <= i < |same| ==>
        same[i] in gameMap.Cells() && same[i].citytile != null && same[i].citytile.team == team &&
        same[i].pos != cell.pos) &&
      (forall i, j :: 0 <= i < j < |same| ==> same[i].pos != same[j].pos) &&
      AllTiled(same) && ids == Distinct(TileCityIds(same))
    }

    /** The neighbours of a cell found to hold tiles of `team` are ready for the joining branch. */
    lemma JoinReadyOf(cell: Cell, team: Team, adjCells: seq<Cell>, ids: seq<string>)
      requires Valid() && cell in gameMap.Cells() && InBounds(cell.pos, gameMap.width, gameMap.height)
      requires adjCells == gameMap.AdjacentCells(cell.pos) && SameTeamCells(adjCells, team) != []
      requires ids == Distinct(TileCityIds(SameTeamCells(adjCells, team)))
      ensures JoinReady(cell, team, SameTeamCells(adjCells, team), ids)
    {
      gameMap.AdjacentCellsDistinct(cell.pos);
      SameTeamDistinct(adjCells, team);
      var same := SameTeamCells(adjCells, team);
      assert forall i :: 0 <= i < |same| ==> same[i] in adjCells;
    }

    /**
     * The joining branch of `spawnCityTile`: the new tile joins the city
     * of the first same-team neighbour (`joinId`), the cell is appended to
     * that city, and the other cities found are merged into it.
     */
    method JoinCity(cell: Cell, team: Team, same: seq<Cell>, ids: seq<string>) returns (r: Result<CityTile>)
      requires Valid() && JoinReady(cell, team, same, ids)
      modifies this`cities, cell`citytile, cities.Values`citycells, cities.Values`fuel
      modifies TilesOf(same)`adjacentCityTiles, TilesIn(gameMap.Cells())`cityid
      ensures Valid()
      ensures cell.citytile != null && fresh(cell.citytile) && cell.citytile.team == team &&
        cell.citytile.pos == cell.pos && cell.citytile.cooldown == 0.0 && (r.Success? ==> r.value == cell.citytile)
      ensures var joinId := old(same[0].citytile.cityid);
        cell.citytile.cityid == joinId && cell.citytile.adjacentCityTiles == |same| &&
        (r.Success? <==> joinId in old(cities) && forall id :: id in Without(ids, joinId) ==> id in old(cities)) &&
        (r.Success? ==> joinId in cities && cities[joinId] == old(cities[joinId]))
      ensures forall i :: 0 <= i < |same| ==>
        same[i].citytile == old(same[i].citytile) &&
        same[i].citytile.adjacentCityTiles == old(same[i].citytile.adjacentCityTiles) + 1
      ensures forall c :: c in gameMap.Cells() && c != cell ==>
        c.citytile == old(c.citytile) &&
        (c.citytile != null && c !in same ==> c.citytile.adjacentCityTiles == old(c.citytile.adjacentCityTiles))
      ensures var joinId := old(same[0].citytile.cityid);
        var merged := Without(ids, joinId);
        r.Success? ==>
          cities == old(cities) - KeySet(merged) &&
          (forall k :: k in cities && k != joinId ==>
            k in old(CellLists()) && k in old(FuelLevels()) &&
            cities[k].citycells == old(CellLists())[k] && cities[k].fuel == old(FuelLevels())[k]) &&
          cities[joinId].citycells == old(cities[joinId].citycells) + [cell] + CellsNamed(old(CellLists()), merged) &&
          cities[joinId].fuel == old(cities[joinId].fuel) + FuelNamed(old(FuelLevels()), merged) &&
          (forall c :: c in CellsNamed(old(CellLists()), merged) ==> c in gameMap.Cells() && c.citytile != null && c.citytile.cityid == joinId) &&
          forall c :: c in old(TileIds()) && c != cell && c !in CellsNamed(old(CellLists()), merged) ==>
            c.citytile != null && c.citytile.cityid == old(TileIds())[c]
    {
      ghost var lists, fuel, tileIds := CellLists(), FuelLevels(), TileIds();
      var joinId := same[0].citytile.cityid;
      var tile := JoinTile(cell, team, same, joinId);
      TilesGrow(this, cell);
      ListsKept(this);
      r := JoinAndMerge(cell, joinId, ids, tileIds, same);
    }

    /**
     * The rest of the joining branch, once the new tile carries `joinId`:
     * the cell is appended to city `joinId` and the other cities of `ids`
     * are merged into it.  A missing `joinId` fails before anything
     * changes.
     */
    method JoinAndMerge(cell: Cell, joinId: string, ids: seq<string>, ghost tileIds: map<Cell, string>, ghost same: seq<Cell>) returns (r: Result<CityTile>)
      requires Valid() && cell in gameMap.Cells() && cell.citytile != null && cell.citytile.cityid == joinId
      requires NoDuplicates(ids)
      requires forall c :: c in tileIds && c != cell ==> c in TileIds() && TileIds()[c] == tileIds[c]
      modifies this`cities, cities.Values`citycells, cities.Values`fuel, TilesIn(gameMap.Cells())`cityid
      ensures Valid() && cell.citytile.cityid == joinId && (r.Success? ==> r.value == cell.citytile)
      ensures var merged := Without(ids, joinId);
        (r.Success? <==> joinId in old(cities) && forall id :: id in merged ==> id in old(cities)) &&
        (r.Success? ==>
          joinId in cities && cities == old(cities) - KeySet(merged) &&
          cities[joinId].citycells == old(cities[joinId].citycells) + [cell] + CellsNamed(old(CellLists()), merged) &&
          cities[joinId].fuel == old(cities[joinId].fuel) + FuelNamed(old(FuelLevels()), merged) &&
          (forall k :: k in cities && k != joinId ==>
            k in old(CellLists()) && k in old(FuelLevels()) &&
            cities[k].citycells == old(CellLists())[k] && cities[k].fuel == old(FuelLevels())[k]) &&
          (forall c :: c in CellsNamed(old(CellLists()), merged) ==> c in gameMap.Cells() && c.citytile != null && c.citytile.cityid == joinId) &&
          forall c :: c in tileIds && c != cell && c !in CellsNamed(old(CellLists()), merged) ==>
            c.citytile != null && c.citytile.cityid == tileIds[c])
      ensures forall i :: 0 <= i < |same| ==>
        same[i].citytile == old(same[i].citytile) &&
        (same[i].citytile != null ==> same[i].citytile.adjacentCityTiles == old(same[i].citytile.adjacentCityTiles))
      ensures cell.citytile == old(cell.citytile) &&
        cell.citytile.adjacentCityTiles == old(cell.citytile.adjacentCityTiles) && cell.citytile.cooldown == old(cell.citytile.cooldown)
      ensures forall c :: c in gameMap.Cells() ==>
        c.citytile == old(c.citytile) && (c.citytile != null ==> c.citytile.adjacentCityTiles == old(c.citytile.adjacentCityTiles))
    {
      if joinId !in cities {
        return Failure("city " + joinId + " not found");
      }
      ghost var lists, fuel, ids0 := CellLists(), FuelLevels(), TileIds();
      var city := cities[joinId];
      AddCell(city, cell, same);
      assert TileIds() == ids0;
      NamedAgree(lists, CellLists(), fuel, FuelLevels(), Without(ids, joinId));
      var ok := MergeCities(city, joinId, ids, cell, same);
      if !ok {
        return Failure("merged city not found");
      }
      return Success(cell.citytile);
    }

    /**
     * The neighbour lookup and the neighbour loop of `spawnCityTile`
     * together: they change nothing, and find the same-team neighbours in
     * N, E, S, W order with their city ids.
     */
    method FindSameTeam(cell: Cell, team: Team) returns (same: seq<Cell>, ids: seq<string>)
      requires Valid() && cell in gameMap.Cells() && InBounds(cell.pos, gameMap.width, gameMap.height)
      ensures Valid() && CellLists() == old(CellLists()) && FuelLevels() == old(FuelLevels()) && Snapshot() == old(Snapshot())
      ensures same == old(SameTeamCells(gameMap.AdjacentCells(cell.pos), team)) && old(allocated(same))
      ensures ids == old(Distinct(TileCityIds(same)))
      ensures same != [] ==> JoinReady(cell, team, same, ids)
    {
      var adjCells := gameMap.GetAdjacentCells(cell);
      same, ids := CollectSameTeam(adjCells, team);
      ReadOnlySteps(this, adjCells, team);
      SnapshotKept(this);
      if same != [] {
        JoinReadyOf(cell, team, adjCells, ids);
      }
    }

    /** `city.addCityTile(cell)` for a city of the game and a tiled cell of the map. */
    method AddCell(city: City, cell: Cell, ghost same: seq<Cell>)
      requires Valid() && city in cities.Values && cell in gameMap.Cells() && cell.citytile != null
      modifies city`citycells
      ensures Valid()
      ensures city.citycells == old(city.citycells) + [cell] && city.fuel == old(city.fuel)
      ensures forall k :: k in cities && k != city.id ==> k in old(CellLists()) && CellLists()[k] == old(CellLists())[k]
      ensures FuelLevels() == old(FuelLevels())
      ensures forall i :: 0 <= i < |same| ==>
        same[i].citytile == old(same[i].citytile) &&
        (same[i].citytile != null ==> same[i].citytile.adjacentCityTiles == old(same[i].citytile.adjacentCityTiles))
      ensures cell.citytile == old(cell.citytile) &&
        cell.citytile.adjacentCityTiles == old(cell.citytile.adjacentCityTiles) && cell.citytile.cooldown == old(cell.citytile.cooldown)
      ensures forall c :: c in gameMap.Cells() ==>
        c.citytile == old(c.citytile) && (c.citytile != null ==> c.citytile.adjacentCityTiles == old(c.citytile.adjacentCityTiles))
    {
      city.AddCityTile(cell);
      assert CitiesValid() by {
        forall k | k in cities && cities[k] != city
          ensures cities[k].citycells == old(cities[k].citycells)
        {
        }
      }
    }

    /**
     * The new-city branch of `spawnCityTile`: a city with id
     * "c_<counter + 1>", or the given `cityid` (the counter then stays
     * put), holding exactly the cell, whose fresh tile carries that id.
     */
    method FoundCity(cell: Cell, team: Team, cityid: Option<string>) returns (tile: CityTile)
      requires Valid() && cell in gameMap.Cells()
      modifies this`cities, this`globalCityIDCount, cell`citytile
      ensures Valid()
      ensures tile == cell.citytile && fresh(tile) && tile.team == team && tile.pos == cell.pos
      ensures tile.adjacentCityTiles == 0 && tile.cooldown == 0.0
      ensures var id := if Given(cityid) then cityid.value else "c_" + NatToString(old(globalCityIDCount) + 1);
        tile.cityid == id && id in cities && fresh(cities[id]) && cities == old(cities)[id := cities[id]] &&
        cities[id].team == team && cities[id].citycells == [cell] && cities[id].fuel == 0
      ensures globalCityIDCount == old(globalCityIDCount) + (if Given(cityid) then 0 else 1)
      ensures forall k :: k in old(cities) && k != tile.cityid ==>
        cities[k] == old(cities[k]) && cities[k].citycells == old(cities[k].citycells) && cities[k].fuel == old(cities[k].fuel)
      ensures forall c :: c in gameMap.Cells() && c != cell ==>
        c.citytile == old(c.citytile) &&
        (c.citytile != null ==> c.citytile.cityid == old(c.citytile.cityid) && c.citytile.adjacentCityTiles == old(c.citytile.adjacentCityTiles))
    {
      var city := new City(team, configs, globalCityIDCount + 1, cityid, 0);
      if !Given(cityid) {
        globalCityIDCount := globalCityIDCount + 1;
      }
      tile := OpenCity(city, cell);
    }

    /** A new city of the game holding just `cell`, whose fresh tile carries the city's id. */
    method OpenCity(city: City, cell: Cell) returns (tile: CityTile)
      requires Valid() && cell in gameMap.Cells() && city.configs == configs && city.citycells == []
      requires forall k :: k in cities ==> cities[k] != city
      modifies this`cities, cell`citytile, city`citycells
      ensures Valid()
      ensures tile == cell.citytile && fresh(tile) && tile.team == city.team && tile.pos == cell.pos
      ensures tile.adjacentCityTiles == 0 && tile.cooldown == 0.0 && tile.cityid == city.id
      ensures cities == old(cities)[city.id := city] && city.citycells == [cell] && city.fuel == old(city.fuel)
    {
      cell.SetCityTile(city.team, city.id);
      city.AddCityTile(cell);
      cities := cities[city.id := city];
      tile := cell.citytile;
      assert CitiesValid() by {
        forall k | k in cities && k != city.id
          ensures cities[k].citycells == old(cities[k].citycells)
        {
        }
      }
      assert TilesPlaced();
    }

    /**
     * The joining branch of `spawnCityTile` up to adding the cell to its
     * city: the cell's fresh tile carries `joinId` and counts the
     * same-team neighbours, and each of those neighbours counts one more.
     */
    method JoinTile(cell: Cell, team: Team, same: seq<Cell>, joinId: string) returns (tile: CityTile)
      requires Valid() && cell in gameMap.Cells()
      requires forall i :: 0 <= i < |same| ==>
        same[i] in gameMap.Cells() && same[i].citytile != null && same[i].pos != cell.pos
      requires forall i, j :: 0 <= i < j < |same| ==> same[i].pos != same[j].pos
      modifies cell`citytile, TilesOf(same)`adjacentCityTiles
      ensures Valid()
      ensures tile == cell.citytile && fresh(tile) && tile.team == team && tile.pos == cell.pos
      ensures tile.cityid == joinId && tile.adjacentCityTiles == |same| && tile.cooldown == 0.0
      ensures forall i :: 0 <= i < |same| ==>
        same[i].citytile == old(same[i].citytile) &&
        same[i].citytile.adjacentCityTiles == old(same[i].citytile.adjacentCityTiles) + 1 &&
        same[i].citytile.cityid == old(same[i].citytile.cityid)
      ensures cities == old(cities)
      ensures forall k :: k in cities ==> cities[k].citycells == old(cities[k].citycells) && cities[k].fuel == old(cities[k].fuel)
      ensures forall c :: c in gameMap.Cells() && c != cell ==>
        c.citytile == old(c.citytile) && (c.citytile != null ==> c.citytile.cityid == old(c.citytile.cityid))
      ensures forall c :: c in gameMap.Cells() && c != cell && c !in same && c.citytile != null ==>
        c.citytile.adjacentCityTiles == old(c.citytile.adjacentCityTiles)
    {
      OtherCellsTiles(same);
      CountNeighbour(same);
      cell.SetCityTile(team, joinId);
      tile := cell.citytile;
      tile.adjacentCityTiles := |same|;
      TilesKept(this);
    }

    /**
     * The neighbour loop's second half: each same-team neighbour's tile
     * counts one more adjacent tile.  The neighbours stand at different
     * positions, so their tiles are different objects.
     */
    method CountNeighbour(same: seq<Cell>)
      requires Valid()
      requires forall i :: 0 <= i < |same| ==> same[i] in gameMap.Cells() && same[i].citytile != null
      requires forall i, j :: 0 <= i < j < |same| ==> same[i].pos != same[j].pos
      modifies TilesOf(same)`adjacentCityTiles
      ensures forall i :: 0 <= i < |same| ==>
        same[i].citytile.adjacentCityTiles == old(same[i].citytile.adjacentCityTiles) + 1
    {
      for i := 0 to |same|
        invariant forall j :: 0 <= j < i ==>
          same[j].citytile.adjacentCityTiles == old(same[j].citytile.adjacentCityTiles) + 1
        invariant forall j :: i <= j < |same| ==>
          same[j].citytile.adjacentCityTiles == old(same[j].citytile.adjacentCityTiles)
      {
        assert forall j :: 0 <= j < |same| && j != i ==> same[j].citytile != same[i].citytile by {
          forall j | 0 <= j < |same| && j != i
            ensures same[j].citytile != same[i].citytile
          {
            assert same[j].citytile.pos == same[j].pos && same[i].citytile.pos == same[i].pos;
          }
        }
        same[i].citytile.adjacentCityTiles := same[i].citytile.adjacentCityTiles + 1;
      }
    }

    /**
     * The merge loop of `spawnCityTile`: every other city found next to
     * the new tile hands its cells to `city` (their tiles now carry
     * `joinId`), adds its fuel to it and is removed.  The Python iterates
     * a set, whose order is not fixed; the model merges in the order the
     * ids were found.  A city missing from `cities` is a failure, as the
     * Python's attribute access on `None` is, and the merges already done
     * stay done.  (The Python compares against the builtin `id` and
     * removes even the surviving city; the model follows the evident
     * intent of merging only the other cities.)
     */
    method MergeCities(city: City, joinId: string, ids: seq<string>, ghost holder: Cell, ghost same: seq<Cell>) returns (ok: bool)
      requires Valid() && joinId in cities && cities[joinId] == city && NoDuplicates(ids)
      requires holder in gameMap.Cells() && holder.citytile != null && holder.citytile.cityid == joinId
      modifies this`cities, city`citycells, city`fuel, TilesIn(gameMap.Cells())`cityid
      ensures Valid() && joinId in cities && cities[joinId] == city && holder.citytile.cityid == joinId
      ensures ok <==> forall id :: id in ids ==> id in old(cities)
      ensures ok ==>
        var merged := Without(ids, joinId);
        cities == old(cities) - KeySet(merged) &&
        (forall k :: k in cities && k != joinId ==>
          k in old(CellLists()) && k in old(FuelLevels()) &&
          cities[k].citycells == old(CellLists())[k] && cities[k].fuel == old(FuelLevels())[k]) &&
        city.citycells == old(city.citycells) + CellsNamed(old(CellLists()), merged) &&
        city.fuel == old(city.fuel) + FuelNamed(old(FuelLevels()), merged) &&
        (forall c :: c in CellsNamed(old(CellLists()), merged) ==> c in gameMap.Cells() && c.citytile != null && c.citytile.cityid == joinId) &&
        forall c :: c in old(TileIds()) && c !in CellsNamed(old(CellLists()), merged) ==>
          c.citytile != null && c.citytile.cityid == old(TileIds())[c]
      ensures forall i :: 0 <= i < |same| ==>
        same[i].citytile == old(same[i].citytile) &&
        (same[i].citytile != null ==> same[i].citytile.adjacentCityTiles == old(same[i].citytile.adjacentCityTiles))
      ensures holder.citytile == old(holder.citytile) &&
        holder.citytile.adjacentCityTiles == old(holder.citytile.adjacentCityTiles) && holder.citytile.cooldown == old(holder.citytile.cooldown)
      ensures forall c :: c in gameMap.Cells() ==>
        c.citytile == old(c.citytile) && (c.citytile != null ==> c.citytile.adjacentCityTiles == old(c.citytile.adjacentCityTiles))
    {
      ok := MergeAll(city, joinId, ids, holder);
      if ok {
        MergingEnds(city, joinId, holder, old(cities), old(CellLists()), old(FuelLevels()), old(TileIds()),
                    old(city.citycells), old(city.fuel), ids);
      }
    }

    /** The merge loop itself. */
    method MergeAll(city: City, joinId: string, ids: seq<string>, ghost holder: Cell) returns (ok: bool)
      requires Valid() && joinId in cities && cities[joinId] == city && NoDuplicates(ids)
      requires holder in gameMap.Cells() && holder.citytile != null && holder.citytile.cityid == joinId
      modifies this`cities, city`citycells, city`fuel, TilesIn(gameMap.Cells())`cityid
      ensures Valid() && joinId in cities && cities[joinId] == city && holder.citytile.cityid == joinId
      ensures ok <==> forall id :: id in ids ==> id in old(cities)
      ensures ok ==>
        Merging(city, joinId, holder, old(cities), old(CellLists()), old(FuelLevels()), old(city.citycells), old(city.fuel), Without(ids, joinId)) &&
        IdsKept(old(TileIds()), CellsNamed(old(CellLists()), Without(ids, joinId)))
    {
      ghost var all, lists, fuel, tileIds := cities, CellLists(), FuelLevels(), TileIds();
      ghost var cells0, fuel0, tiles := city.citycells, city.fuel, TilesIn(gameMap.Cells());
      MergingStarts(city, joinId, holder, ids);
      ok := true;
      for i := 0 to |ids|
        invariant ok && TilesIn(gameMap.Cells()) == tiles
        invariant Merging(city, joinId, holder, all, lists, fuel, cells0, fuel0, Without(ids[..i], joinId))
        invariant IdsKept(tileIds, CellsNamed(lists, Without(ids[..i], joinId)))
      {
        var found := MergeAt(city, ids, i, joinId, all, lists, fuel, tileIds, cells0, fuel0, holder);
        if !found {
          assert ids[i] in ids;
          ok := false;
          break;
        }
      }
      if ok {
        assert ids[..|ids|] == ids;
      }
    }

    /**
     * What the merge loop leaves once every city of `ids` other than
     * `joinId` is absorbed: those cities are gone from `all`, every other
     * city but `city` keeps its cells and fuel of the snapshots
     * `lists`/`fuel`, `city` holds `cells0` followed by the absorbed
     * cities' cells of `lists` (whose tiles now carry `joinId`) and
     * `fuel0` plus their fuel, and every other tiled cell of the snapshot
     * `tileIds` keeps its city id.
     */
    ghost predicate Merged(city: City, joinId: string, all: map<string, City>, lists: map<string, seq<Cell>>,
                           fuel: map<string, int>, tileIds: map<Cell, string>, cells0: seq<Cell>, fuel0: int, ids: seq<string>)
      reads this, city, cities.Values, gameMap.Cells(), TilesIn(gameMap.Cells())
    {
      var merged := Without(ids, joinId);
      cities == all - KeySet(merged) &&
      (forall k :: k in cities && k != joinId ==>
        k in lists && k in fuel && cities[k].citycells == lists[k] && cities[k].fuel == fuel[k]) &&
      city.citycells == cells0 + CellsNamed(lists, merged) &&
      city.fuel == fuel0 + FuelNamed(fuel, merged) &&
      (forall c :: c in CellsNamed(lists, merged) ==>
        c in gameMap.Cells() && c.citytile != null && c.citytile.cityid == joinId) &&
      forall c :: c in tileIds && c !in CellsNamed(lists, merged) ==>
        c in gameMap.Cells() && c.citytile != null && c.citytile.cityid == tileIds[c]
    }

    /** Before the merge loop's first round, its invariant holds with nothing merged. */
    lemma MergingStarts(city: City, joinId: string, holder: Cell, ids: seq<string>)
      requires Valid() && joinId in cities && cities[joinId] == city
      requires holder in gameMap.Cells() && holder.citytile != null && holder.citytile.cityid == joinId
      ensures Merging(city, joinId, holder, cities, CellLists(), FuelLevels(), city.citycells, city.fuel, Without(ids[..0], joinId))
      ensures IdsKept(TileIds(), CellsNamed(CellLists(), Without(ids[..0], joinId)))
    {
      assert ids[..0] == [];
    }

    /** After the merge loop's last round, every other city of `ids` has been merged into `city`. */
    lemma MergingEnds(city: City, joinId: string, holder: Cell, all: map<string, City>,
                      lists: map<string, seq<Cell>>, fuel: map<string, int>, tileIds: map<Cell, string>,
                      cells0: seq<Cell>, fuel0: int, ids: seq<string>)
      requires Merging(city, joinId, holder, all, lists, fuel, cells0, fuel0, Without(ids, joinId))
      requires IdsKept(tileIds, CellsNamed(lists, Without(ids, joinId)))
      requires forall c :: c in tileIds ==> c in gameMap.Cells()
      ensures forall id :: id in ids ==> id in all
      ensures Merged(city, joinId, all, lists, fuel, tileIds, cells0, fuel0, ids)
    {
    }

    /**
     * One round of the merge loop: the id at `i` is skipped when it is the
     * joined city's, absorbed when its city exists, and otherwise reported
     * missing with nothing changed.
     */
    method MergeAt(city: City, ids: seq<string>, i: nat, joinId: string, ghost all: map<string, City>,
                   ghost lists: map<string, seq<Cell>>, ghost fuel: map<string, int>, ghost tileIds: map<Cell, string>,
                   ghost cells0: seq<Cell>, ghost fuel0: int, ghost holder: Cell) returns (found: bool)
      requires i < |ids| && NoDuplicates(ids)
      requires Merging(city, joinId, holder, all, lists, fuel, cells0, fuel0, Without(ids[..i], joinId))
      requires IdsKept(tileIds, CellsNamed(lists, Without(ids[..i], joinId)))
      modifies this`cities, city`citycells, city`fuel, TilesIn(gameMap.Cells())`cityid
      ensures found ==> Merging(city, joinId, holder, all, lists, fuel, cells0, fuel0, Without(ids[..i + 1], joinId))
      ensures found ==> IdsKept(tileIds, CellsNamed(lists, Without(ids[..i + 1], joinId)))
      ensures !found ==> ids[i] !in all && Merging(city, joinId, holder, all, lists, fuel, cells0, fuel0, Without(ids[..i], joinId))
      ensures TilesIn(gameMap.Cells()) == old(TilesIn(gameMap.Cells()))
    {
      var id := ids[i];
      ghost var done := Without(ids[..i], joinId);
      WithoutStep(ids, i, joinId);
      if id == joinId {
        assert Without(ids[..i + 1], joinId) == done;
        return true;
      }
      if id !in cities {
        assert id !in KeySet(done);
        return false;
      }
      MergeStep(city, id, joinId, all, lists, fuel, tileIds, cells0, fuel0, done, holder);
      assert Without(ids[..i + 1], joinId) == done + [id];
      return true;
    }

    /**
     * What the merge loop keeps: the game stays valid with `city` under
     * `joinId`; every city not yet merged still has the cells and fuel of
     * the snapshot `lists`/`fuel`; `city` holds its own cells `cells0`
     * followed by those of the cities merged so far (`done`), and its fuel
     * `fuel0` plus theirs; and every moved cell's tile carries `joinId`.
     */
    ghost predicate Merging(city: City, joinId: string, holder: Cell, all: map<string, City>,
                            lists: map<string, seq<Cell>>, fuel: map<string, int>,
                            cells0: seq<Cell>, fuel0: int, done: seq<string>)
      reads this, gameMap, cities.Values, gameMap.Cells(), TilesIn(gameMap.Cells())
    {
      Valid() && joinId in cities && cities[joinId] == city &&
      holder in gameMap.Cells() && holder.citytile != null && holder.citytile.cityid == joinId &&
      cities == all - KeySet(done) && (forall x :: x in done ==> x in all) &&
      (forall k :: k in cities && k != joinId ==>
        k in lists && k in fuel && cities[k].citycells == lists[k] && cities[k].fuel == fuel[k]) &&
      city.citycells == cells0 + CellsNamed(lists, done) &&
      city.fuel == fuel0 + FuelNamed(fuel, done) &&
      forall c :: c in CellsNamed(lists, done) ==>
        c in gameMap.Cells() && c.citytile != null && c.citytile.cityid == joinId
    }

    /** Every tiled cell of the snapshot `tileIds` outside `moved` keeps its tile and that tile's city id. */
    ghost predicate IdsKept(tileIds: map<Cell, string>, moved: seq<Cell>)
      reads gameMap.Cells(), TilesIn(gameMap.Cells())
    {
      forall c :: c in gameMap.Cells() && c in tileIds && c !in moved ==>
        c.citytile != null && c.citytile.cityid == tileIds[c]
    }

    /** One step of the merge loop: city `id` is absorbed and the loop's invariant extends to it. */
    method MergeStep(city: City, id: string, joinId: string, ghost all: map<string, City>, ghost lists: map<string, seq<Cell>>,
                     ghost fuel: map<string, int>, ghost tileIds: map<Cell, string>, ghost cells0: seq<Cell>, ghost fuel0: int,
                     ghost done: seq<string>, ghost holder: Cell)
      requires Merging(city, joinId, holder, all, lists, fuel, cells0, fuel0, done) && id in cities && id != joinId
      requires IdsKept(tileIds, CellsNamed(lists, done))
      modifies this`cities, city`citycells, city`fuel, TilesIn(gameMap.Cells())`cityid
      ensures Merging(city, joinId, holder, all, lists, fuel, cells0, fuel0, done + [id])
      ensures IdsKept(tileIds, CellsNamed(lists, done + [id]))
      ensures TilesIn(gameMap.Cells()) == old(TilesIn(gameMap.Cells()))
    {
      var from := cities[id];
      KeySetSnoc(done, id);
      ghost var before := cities;
      assert from != city;
      NamedSnoc(lists, fuel, done, id);
      ghost var moved := CellsNamed(lists, done);
      AbsorbCity(city, from, joinId);
      RemoveOneMore(all, KeySet(done), id, before, cities);
      CellsNamedGrows(cells0, lists, done, id, city.citycells);
      forall c | c in moved
        ensures c.citytile != null && c.citytile.cityid == joinId
      {
        assert c in gameMap.Cells();
      }
      assert forall c :: c in from.citycells ==> c in gameMap.Cells();
    }

    /** One merge: `from` hands its cells and fuel to `city` and leaves `cities`. */
    method AbsorbCity(city: City, from: City, joinId: string)
      requires Valid() && joinId in cities && cities[joinId] == city
      requires from.id in cities && cities[from.id] == from && from.id != joinId
      modifies this`cities, city`citycells, city`fuel, TilesIn(gameMap.Cells())`cityid
      ensures Valid() && joinId in cities && cities[joinId] == city
      ensures cities == old(cities) - {from.id}
      ensures city.citycells == old(city.citycells) + from.citycells && city.fuel == old(city.fuel) + from.fuel
      ensures from.citycells == old(from.citycells) && from.fuel == old(from.fuel)
      ensures forall c :: c in from.citycells ==> c.citytile != null && c.citytile.cityid == joinId
      ensures forall c :: c in gameMap.Cells() && c.citytile != null && c !in from.citycells ==>
        c.citytile.cityid == old(c.citytile.cityid)
      ensures TilesIn(gameMap.Cells()) == old(TilesIn(gameMap.Cells()))
    {
      MoveCells(city, from, joinId);
      city.fuel := city.fuel + from.fuel;
      cities := cities - {from.id};
      assert CitiesValid() by {
        forall k | k in cities && k != joinId
          ensures cities[k].citycells == old(cities[k].citycells)
        {
        }
      }
    }

    /** One step of the inner merge loop: only the cell's own tile is relabelled. */
    method MoveCell(city: City, cell: Cell, joinId: string)
      requires gameMap.Valid() && TilesPlaced() && cell in gameMap.Cells() && cell.citytile != null
      modifies city`citycells, cell.citytile`cityid
      ensures city.citycells == old(city.citycells) + [cell] && cell.citytile.cityid == joinId
      ensures forall c :: c in gameMap.Cells() && c != cell && c.citytile != null ==>
        c.citytile.cityid == old(c.citytile.cityid)
      ensures TilesIn(gameMap.Cells()) == old(TilesIn(gameMap.Cells()))
    {
      OtherTiles(cell);
      cell.citytile.cityid := joinId;
      city.AddCityTile(cell);
    }

    /** A cell of the map outside `same` holds none of the tiles standing on `same`. */
    lemma OtherCellsTiles(same: seq<Cell>)
      requires gameMap.Valid() && TilesPlaced()
      requires forall i :: 0 <= i < |same| ==> same[i] in gameMap.Cells() && same[i].citytile != null
      ensures forall c :: c in gameMap.Cells() && c.citytile != null && c !in same ==> c.citytile !in TilesOf(same)
    {
      forall c | c in gameMap.Cells() && c.citytile != null && c !in same
        ensures c.citytile !in TilesOf(same)
      {
        forall i | 0 <= i < |same|
          ensures same[i].citytile != c.citytile
        {
          OtherTiles(same[i]);
        }
      }
    }

    /** The tile on a cell of the map is the tile of no other cell. */
    lemma OtherTiles(cell: Cell)
      requires gameMap.Valid() && TilesPlaced() && cell in gameMap.Cells() && cell.citytile != null
      ensures forall c :: c in gameMap.Cells() && c != cell && c.citytile != null ==> c.citytile != cell.citytile
    {
      forall c | c in gameMap.Cells() && c != cell && c.citytile != null
        ensures c.citytile != cell.citytile
      {
        if c.pos == cell.pos {
          gameMap.PositionIdentifiesCell(c, cell);
        }
      }
    }

    /** The inner merge loop: each cell of `from` is relabelled to `joinId` and appended to `city`; no other tile changes. */
    method MoveCells(city: City, from: City, joinId: string)
      requires Valid() && joinId in cities && cities[joinId] == city && from != city
      requires forall i :: 0 <= i < |from.citycells| ==>
        from.citycells[i] in gameMap.Cells() && from.citycells[i].citytile != null
      modifies city`citycells, TilesIn(gameMap.Cells())`cityid
      ensures Valid()
      ensures city.citycells == old(city.citycells) + from.citycells && city.fuel == old(city.fuel)
      ensures forall c :: c in from.citycells ==> c.citytile.cityid == joinId
      ensures forall c :: c in gameMap.Cells() && c.citytile != null && c !in from.citycells ==>
        c.citytile.cityid == old(c.citytile.cityid)
      ensures TilesIn(gameMap.Cells()) == old(TilesIn(gameMap.Cells()))
    {
      for j := 0 to |from.citycells|
        invariant city.citycells == old(city.citycells) + from.citycells[..j] && city.fuel == old(city.fuel)
        invariant forall c :: c in from.citycells[..j] ==> c.citytile.cityid == joinId
        invariant forall c :: c in gameMap.Cells() && c.citytile != null && c !in from.citycells[..j] ==>
          c.citytile.cityid == old(c.citytile.cityid)
        invariant TilesPlaced() && TilesIn(gameMap.Cells()) == old(TilesIn(gameMap.Cells()))
      {
        var cell := from.citycells[j];
        assert from.citycells[..j + 1] == from.citycells[..j] + [cell];
        MoveCell(city, cell, joinId);
      }
      assert from.citycells[..|from.citycells|] == from.citycells;
      assert CitiesValid() by {
        forall k | k in cities && k != joinId
          ensures cities[k].citycells == old(cities[k].citycells)
        {
        }
      }
    }
  }

  /** A step that leaves the game, its cities, its cells and their tiles alone leaves its `Snapshot` alone. */
  twostate lemma SnapshotKept(g: Game)
    requires unchanged(g) && (forall k :: k in g.cities ==> unchanged(g.cities[k]))
    requires forall c :: c in g.gameMap.Cells() ==> unchanged(c)
    requires forall c :: c in g.gameMap.Cells() && c.citytile != null ==> unchanged(c.citytile)
    ensures g.Snapshot() == old(g.Snapshot())
  {
    ListsKept(g);
    var b0, b1 := old(g.Snapshot()), g.Snapshot();
    assert b1.tileIds == b0.tileIds;
    assert b1.tiles == b0.tiles;
    assert b1.adjacent == b0.adjacent;
  }

  /**
   * Steps that change nothing (the neighbour lookup and the neighbour
   * loop) leave every value `spawnCityTile` later relies on as it was.
   */
  twostate lemma ReadOnlySteps(new g: Game, new cells: seq<Cell>, team: Team)
    requires old(allocated(g)) && old(allocated(cells))
    requires old(g.Valid()) && unchanged(g) && forall c :: c in cells ==> unchanged(c)
    requires forall c :: c in cells && c.citytile != null ==> unchanged(c.citytile)
    requires forall k :: k in g.cities ==> unchanged(g.cities[k])
    requires unchanged(g.gameMap) && forall c :: c in g.gameMap.Cells() ==> unchanged(c)
    ensures g.Valid()
    ensures SameTeamCells(cells, team) == old(SameTeamCells(cells, team))
    ensures Distinct(TileCityIds(SameTeamCells(cells, team))) == old(Distinct(TileCityIds(SameTeamCells(cells, team))))
    ensures g.CellLists() == old(g.CellLists()) && g.FuelLevels() == old(g.FuelLevels())
  {
    SameTeamUnchanged(cells, team);
    var same := SameTeamCells(cells, team);
    assert TileCityIds(same) == old(TileCityIds(same));
  }

  twostate lemma {:induction false} SameTeamUnchanged(new cells: seq<Cell>, team: Team)
    requires old(allocated(cells)) && forall c :: c in cells ==> c.citytile == old(c.citytile)
    ensures SameTeamCells(cells, team) == old(SameTeamCells(cells, team))
  {
    if cells != [] {
      assert forall c :: c in cells[..|cells| - 1] ==> c in cells;
      SameTeamUnchanged(cells[..|cells| - 1], team);
    }
  }

  /** When only `cell` took a new tile, the tiles on the map are the old ones and that tile. */
  twostate lemma TilesGrow(new g: Game, new cell: Cell)
    requires old(allocated(g)) && old(allocated(cell)) && cell.citytile != null
    requires forall c :: c in g.gameMap.Cells() && c != cell ==> c.citytile == old(c.citytile)
    ensures TilesIn(g.gameMap.Cells()) <= old(TilesIn(g.gameMap.Cells())) + {cell.citytile}
  {
  }

  /** A step that leaves the city map and every city's cells and fuel alone leaves their snapshots alone. */
  twostate lemma ListsKept(g: Game)
    requires g.cities == old(g.cities)
    requires forall k :: k in g.cities ==> g.cities[k].citycells == old(g.cities[k].citycells) && g.cities[k].fuel == old(g.cities[k].fuel)
    ensures g.CellLists() == old(g.CellLists()) && g.FuelLevels() == old(g.FuelLevels())
  {
  }

  /**
   * The city and tile invariants survive any step that leaves the cities,
   * their cell lists and every cell's tile alone.
   */
  twostate lemma TilesKept(g: Game)
    requires old(g.Valid())
    requires g.cities == old(g.cities)
    requires forall k :: k in g.cities ==> g.cities[k].citycells == old(g.cities[k].citycells)
    requires forall c :: c in g.gameMap.Cells() && old(c.citytile) != null ==> c.citytile != null
    requires forall c :: c in g.gameMap.Cells() && c.citytile != old(c.citytile) ==>
      c.citytile.pos == c.pos && c.citytile.configs == c.configs
    ensures g.CitiesValid() && g.TilesPlaced()
  {
  }
}
