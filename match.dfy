/**
 * Match adjudication of luxai2021/game/match.py: the match-over test,
 * the final ranking, the night phase and the depleted-resource prune.
 * The file is TypeScript transliterated into Python syntax and would not
 * run; the model follows what each statement evidently does.
 * `getTeamsUnits(team)` is a stub in the game; it is read as the team's
 * unit map.
 */
module Match {
  import opened Wrappers
  import opened Constants
  import opened Geometry
  import opened Cells
  import opened Maps
  import opened Units
  import opened Cities
  import opened Tallies
  import opened Games

  /**
   * `matchOver`: the last day has been reached, or some team has neither a
   * unit nor a city left.  The Python falls off its end (returning None)
   * when neither holds, which reads as false.
   */
  method MatchOver(game: Game) returns (over: bool)
    requires game.Valid()
    ensures over <==>
      game.turn == game.configs.maxDays - 1 ||
      game.UnitCount(A) + game.CityCount(A) == 0 ||
      game.UnitCount(B) + game.CityCount(B) == 0
  {
    if game.turn == game.configs.maxDays - 1 {
      return true;
    }
    var cityCountA, cityCountB := Tally(game.CityEntries());
    over := |game.teamStates[A].units| + cityCountA == 0 || |game.teamStates[B].units| + cityCountB == 0;
  }

  /** A team's city count is zero exactly when no city belongs to it. */
  lemma NoCitiesLeft(game: Game, team: Team)
    ensures game.CityCount(team) == 0 <==> forall k :: k in game.cities ==> game.cities[k].team != team
  {
    TeamTotalZero(game.CityEntries(), team);
  }

  /**
   * Before the last day, the match is over exactly when a team has no
   * unit and no city at all.
   */
  lemma MatchOverWhenWipedOut(game: Game, team: Team)
    requires team in game.teamStates
    ensures game.UnitCount(team) + game.CityCount(team) == 0 <==>
      game.teamStates[team].units == map[] && forall k :: k in game.cities ==> game.cities[k].team != team
  {
    NoCitiesLeft(game, team);
  }

  /** What the ranking compares: a team's city tiles, then its units. */
  datatype Standing = Standing(tiles: nat, units: nat)

  /** One entry of `ranks` in `getResults`. */
  datatype Rank = Rank(rank: nat, agentID: Team)

  /** `x` wins against `y`: more city tiles, or as many and more units. */
  predicate Beats(x: Standing, y: Standing)
  {
    x.tiles > y.tiles || (x.tiles == y.tiles && x.units > y.units)
  }

  function StandingOf(t: Team, a: Standing, b: Standing): Standing
  {
    if t == A then a else b
  }

  /**
   * The ranking as the decision chain of `getResults` defines it: the team
   * that beats the other ranks 1 and the other 2; when neither beats the
   * other, both rank 1, team A listed first.
   */
  function Ranks(a: Standing, b: Standing): (r: seq<Rank>)
    ensures |r| == 2 && r[0].rank == 1 && r[0].agentID != r[1].agentID
    ensures r[1].rank == 1 <==> a == b
    ensures r[1].rank == 1 ==> r[0].agentID == A
    ensures r[1].rank != 1 ==> r[1].rank == 2 && Beats(StandingOf(r[0].agentID, a, b), StandingOf(r[1].agentID, a, b))
  {
    if Beats(b, a) then [Rank(1, B), Rank(2, A)]
    else if Beats(a, b) then [Rank(1, A), Rank(2, B)]
    else [Rank(1, A), Rank(1, B)]
  }

  /** Beating is a strict order on standings: never both ways, and one way unless equal. */
  lemma BeatsTotal(x: Standing, y: Standing)
    ensures !(Beats(x, y) && Beats(y, x))
    ensures x != y ==> Beats(x, y) || Beats(y, x)
  {
  }

  /** The standing of each team in a game: its city tiles and its units. */
  ghost function StandingIn(game: Game, team: Team): Standing
    requires team in game.teamStates
    reads game, game.cities.Values
  {
    Standing(game.CityTileCount(team), game.UnitCount(team))
  }

  /**
   * The labelled decision chain of `getResults`: A wins on more city
   * tiles, B on fewer; on a tie A wins on more units, B on fewer; on a
   * further tie both rank 1.
   */
  method Decide(a: Standing, b: Standing) returns (ranks: seq<Rank>)
    ensures ranks == Ranks(a, b)
  {
    var winningTeam, losingTeam := A, B;
    if a.tiles > b.tiles {
    } else if a.tiles < b.tiles {
      winningTeam, losingTeam := B, A;
    } else if a.units > b.units {
    } else if a.units < b.units {
      winningTeam, losingTeam := B, A;
    } else {
      return [Rank(1, winningTeam), Rank(1, losingTeam)];
    }
    ranks := [Rank(1, winningTeam), Rank(2, losingTeam)];
  }

  /**
   * `getResults`: each team's city tiles, counted over the cities, and its
   * units decide the ranking.  The replay file name is left out.
   */
  method GetResults(game: Game) returns (ranks: seq<Rank>)
    requires game.Valid()
    ensures ranks == Ranks(StandingIn(game, A), StandingIn(game, B))
  {
    var tilesA, tilesB := Tally(game.TileEntries());
    ranks := Decide(Standing(tilesA, |game.teamStates[A].units|), Standing(tilesB, |game.teamStates[B].units|));
  }

  /** Whether a cell of the resource index still holds some of its resource. */
  predicate Undepleted(cell: Cell)
    requires cell.resource.Some?
    reads cell
  {
    cell.resource.value.amount > 0
  }

  predicate AllResourced(cells: seq<Cell>)
    reads cells
  {
    forall i :: 0 <= i < |cells| ==> cells[i].resource.Some?
  }

  /** The cells that keep their place in the resource index, in their order. */
  function KeptResources(cells: seq<Cell>): seq<Cell>
    requires AllResourced(cells)
    reads cells
  {
    if cells == [] then []
    else
      var init := KeptResources(cells[..|cells| - 1]);
      var last := cells[|cells| - 1];
      if Undepleted(last) then init + [last] else init
  }

  /** The prune keeps exactly the undepleted cells. */
  lemma {:induction false} KeptResourcesMembers(cells: seq<Cell>)
    requires AllResourced(cells)
    ensures forall c :: c in KeptResources(cells) <==> c in cells && Undepleted(c)
  {
    if cells != [] {
      var init := cells[..|cells| - 1];
      KeptResourcesMembers(init);
      assert cells == init + [cells[|cells| - 1]];
    }
  }

  /**
   * The prune keeps the order: pruning two runs of cells one after the
   * other gives the two pruned runs one after the other, and one cell is
   * kept exactly when it is undepleted.
   */
  lemma {:induction false} KeptResourcesAppend(a: seq<Cell>, b: seq<Cell>)
    requires AllResourced(a) && AllResourced(b)
    ensures AllResourced(a + b)
    ensures KeptResources(a + b) == KeptResources(a) + KeptResources(b)
    decreases |b|
  {
    if b == [] {
      assert a + b == a;
    } else {
      var init := b[..|b| - 1];
      KeptResourcesAppend(a, init);
      assert (a + b)[..|a + b| - 1] == a + init;
    }
  }

  lemma KeptResourcesSingle(c: Cell)
    requires c.resource.Some?
    ensures KeptResources([c]) == if Undepleted(c) then [c] else []
  {
    assert [c][..0] == [];
  }

  /**
   * The prune of `run_turn`: the resource index keeps, in order, the cells
   * whose resource amount is still positive.  Every cell the index holds
   * has a resource (the Python reads `cell.resource.amount` unguarded).
   */
  method PruneDepletedResources(game: Game)
    requires game.Valid() && AllResourced(game.gameMap.resources)
    modifies game.gameMap`resources
    ensures game.Valid()
    ensures game.gameMap.resources == KeptResources(old(game.gameMap.resources))
  {
    var resources := game.gameMap.resources;
    var newResources: seq<Cell> := [];
    for i := 0 to |resources|
      invariant newResources == KeptResources(resources[..i])
    {
      assert resources[..i + 1][..i] == resources[..i];
      if resources[i].resource.value.amount > 0 {
        newResources := newResources + [resources[i]];
      }
    }
    assert resources[..|resources|] == resources;
    game.gameMap.resources := newResources;
  }

  /** `getLightUpkeep` of a city, read from the adjacency counts of its tiles. */
  ghost function CityUpkeep(c: City): int
    requires AllTiled(c.citycells)
    reads c`citycells, c.citycells, TilesOf(c.citycells)
  {
    UpkeepOf(|c.citycells|, AdjacencyCounts(c.citycells), c.configs)
  }

  /** Every city's light upkeep, by id. */
  ghost function Upkeeps(game: Game): (upkeep: map<string, int>)
    requires game.CitiesValid()
    reads game, game.cities.Values, game.gameMap.Cells(), TilesIn(game.gameMap.Cells())
    ensures upkeep.Keys == game.cities.Keys
  {
    map k | k in game.cities :: CityUpkeep(game.cities[k])
  }

  /**
   * The fuel left after nightfall: a city whose fuel is below its upkeep
   * is gone; every other city pays exactly its upkeep.
   */
  function NightFuel(fuel: map<string, int>, upkeep: map<string, int>): (left: map<string, int>)
  {
    map k | k in fuel && k in upkeep && fuel[k] >= upkeep[k] :: fuel[k] - upkeep[k]
  }

  /**
   * A city survives the night exactly when its fuel covers its upkeep;
   * then its fuel drops by exactly the upkeep, so it is never negative.
   */
  lemma NightFuelSpec(fuel: map<string, int>, upkeep: map<string, int>, k: string)
    requires k in fuel && k in upkeep
    ensures k in NightFuel(fuel, upkeep) <==> fuel[k] >= upkeep[k]
    ensures k in NightFuel(fuel, upkeep) ==>
      NightFuel(fuel, upkeep)[k] == fuel[k] - upkeep[k] && NightFuel(fuel, upkeep)[k] >= 0
  {
  }

  /** A surviving city pays its upkeep from its fuel; no other city's fuel changes. */
  method PayUpkeep(game: Game, k: string, upkeep: int)
    requires game.Valid() && k in game.cities
    modifies {game.cities[k]}`fuel
    ensures game.Valid() && game.cities[k].fuel == old(game.cities[k].fuel) - upkeep
    ensures forall j :: j in game.cities && j != k ==> game.cities[j].fuel == old(game.cities[j].fuel)
  {
    var city := game.cities[k];
    forall j | j in game.cities && j != k
      ensures game.cities[j] != city
    {
      assert game.cities[j].id == j && city.id == k;
    }
    city.fuel := city.fuel - upkeep;
  }

  /** The fuel levels after one city faced the night, from what happened to each city. */
  lemma NightStepFuel(game: Game, k: string, due: int, fuel: map<string, int>)
    requires k in fuel
    requires fuel[k] < due ==> game.cities.Keys == fuel.Keys - {k}
    requires fuel[k] >= due ==> game.cities.Keys == fuel.Keys && game.cities[k].fuel == fuel[k] - due
    requires forall j :: j in game.cities && j != k ==> game.cities[j].fuel == fuel[j]
    ensures game.FuelLevels() == NightStep(fuel, k, due)
  {
    if fuel[k] < due {
      assert game.FuelLevels() == fuel - {k};
    } else {
      assert game.FuelLevels() == fuel[k := fuel[k] - due];
    }
  }

  /**
   * The fuel levels partway through nightfall: the cities still in
   * `pending` keep their fuel, the others are as `NightFuel` leaves them.
   */
  function NightFuelPending(fuel: map<string, int>, upkeep: map<string, int>, pending: set<string>): map<string, int>
  {
    map k | k in fuel && k in upkeep && (k in pending || fuel[k] >= upkeep[k]) ::
      if k in pending then fuel[k] else fuel[k] - upkeep[k]
  }

  /** Fuel levels after city k alone faces the night with the given upkeep. */
  function NightStep(fuel: map<string, int>, k: string, upkeep: int): map<string, int>
    requires k in fuel
  {
    if fuel[k] < upkeep then fuel - {k} else fuel[k := fuel[k] - upkeep]
  }

  /** Handling one pending city moves it from `pending` to the finished part. */
  lemma NightStepPending(fuel: map<string, int>, upkeep: map<string, int>, pending: set<string>, k: string)
    requires k in pending && k in fuel && k in upkeep
    ensures var now := NightFuelPending(fuel, upkeep, pending);
      k in now && NightStep(now, k, upkeep[k]) == NightFuelPending(fuel, upkeep, pending - {k})
  {
    var now := NightFuelPending(fuel, upkeep, pending);
    assert now[k] == fuel[k];
    var next := NightStep(now, k, upkeep[k]);
    var want := NightFuelPending(fuel, upkeep, pending - {k});
    assert next.Keys == want.Keys;
  }

  /** With nothing pending, the levels are those after nightfall. */
  lemma NightFuelDone(fuel: map<string, int>, upkeep: map<string, int>)
    ensures NightFuelPending(fuel, upkeep, {}) == NightFuel(fuel, upkeep)
  {
  }

  /** A city's upkeep depends only on its cells' tiles and their neighbour counts. */
  twostate lemma UpkeepKept(new c: City)
    requires old(allocated(c)) && old(AllTiled(c.citycells))
    requires c.citycells == old(c.citycells)
    requires forall i :: 0 <= i < |c.citycells| ==>
      c.citycells[i].citytile == old(c.citycells[i].citytile) &&
      c.citycells[i].citytile.adjacentCityTiles == old(c.citycells[i].citytile.adjacentCityTiles)
    ensures AllTiled(c.citycells) && CityUpkeep(c) == old(CityUpkeep(c))
  {
    assert AdjacencyCounts(c.citycells) == old(AdjacencyCounts(c.citycells));
  }

  /** One city at nightfall: destroyed when its fuel is below its upkeep, else it pays the upkeep. */
  method NightCity(game: Game, k: string)
    requires game.Valid() && k in game.cities
    modifies game`cities, {game.cities[k]}`fuel
    ensures game.Valid()
    ensures game.FuelLevels() == NightStep(old(game.FuelLevels()), k, old(CityUpkeep(game.cities[k])))
    ensures forall j :: j in game.cities ==> j in old(game.cities) && game.cities[j] == old(game.cities[j])
    ensures forall j :: j in game.cities ==> CityUpkeep(game.cities[j]) == old(CityUpkeep(game.cities[j]))
  {
    var city := game.cities[k];
    ghost var fuel := game.FuelLevels();
    ghost var due := CityUpkeep(city);
    ghost var counts := AdjacencyCounts(city.citycells);
    assert due == UpkeepOf(|city.citycells|, counts, city.configs);
    var upkeep := city.LightUpkeep();
    assert counts == AdjacencyCounts(city.citycells);
    if city.fuel < upkeep {
      game.DestroyCity(k);
    } else {
      PayUpkeep(game, k, upkeep);
    }
    NightStepFuel(game, k, due, fuel);
    forall j | j in game.cities
      ensures CityUpkeep(game.cities[j]) == old(CityUpkeep(game.cities[j]))
    {
      UpkeepKept(game.cities[j]);
    }
  }

  /**
   * Progress through nightfall: the cities still `pending` are untouched,
   * the others have faced the night, and no city object was replaced.
   */
  ghost predicate NightProgress(game: Game, cities0: map<string, City>, fuel0: map<string, int>,
                                upkeep0: map<string, int>, pending: set<string>)
    reads game, game.gameMap, game.cities.Values, game.gameMap.Cells(), TilesIn(game.gameMap.Cells())
  {
    game.Valid() && pending <= game.cities.Keys &&
    game.FuelLevels() == NightFuelPending(fuel0, upkeep0, pending) &&
    (forall k :: k in game.cities ==> k in cities0 && game.cities[k] == cities0[k]) &&
    (forall k :: k in pending ==> CityUpkeep(game.cities[k]) == upkeep0[k])
  }

  /** Nightfall for one pending city keeps `NightProgress` with one city fewer pending. */
  method NightPending(game: Game, k: string, ghost cities0: map<string, City>, ghost fuel0: map<string, int>,
                      ghost upkeep0: map<string, int>, ghost pending: set<string>)
    requires NightProgress(game, cities0, fuel0, upkeep0, pending) && k in pending
    modifies game`cities, {game.cities[k]}`fuel
    ensures NightProgress(game, cities0, fuel0, upkeep0, pending - {k})
  {
    NightStepPending(fuel0, upkeep0, pending, k);
    NightCity(game, k);
  }

  /** The loop of `NightCities`: every pending city faces the night. */
  method NightLoop(game: Game, remaining: set<string>, ghost cities0: map<string, City>,
                   ghost fuel0: map<string, int>, ghost upkeep0: map<string, int>)
    requires NightProgress(game, cities0, fuel0, upkeep0, remaining)
    modifies game`cities, game.cities.Values`fuel
    ensures NightProgress(game, cities0, fuel0, upkeep0, {})
  {
    var pending := remaining;
    while pending != {}
      invariant NightProgress(game, cities0, fuel0, upkeep0, pending)
      invariant forall k :: k in game.cities ==> k in old(game.cities) && game.cities[k] == old(game.cities[k])
      decreases pending
    {
      var k :| k in pending;
      NightPending(game, k, cities0, fuel0, upkeep0, pending);
      pending := pending - {k};
    }
  }

  /** Before nightfall nothing is pending yet. */
  lemma NightFuelStart(fuel: map<string, int>, upkeep: map<string, int>)
    requires fuel.Keys == upkeep.Keys
    ensures NightFuelPending(fuel, upkeep, fuel.Keys) == fuel
  {
  }

  /**
   * The city half of `handleNight`: each city with less fuel than its
   * light upkeep is destroyed, and every other city pays its upkeep.  The
   * Python destroys cities while iterating over the dictionary; the model
   * visits the ids the dictionary held at nightfall.
   */
  method NightCities(game: Game)
    requires game.Valid()
    modifies game`cities, game.cities.Values`fuel
    ensures game.Valid()
    ensures game.FuelLevels() == NightFuel(old(game.FuelLevels()), old(Upkeeps(game)))
    ensures forall k :: k in game.cities ==> k in old(game.cities) && game.cities[k] == old(game.cities[k])
  {
    ghost var cities0, fuel0, upkeep0 := game.cities, game.FuelLevels(), Upkeeps(game);
    NightFuelStart(fuel0, upkeep0);
    NightLoop(game, game.cities.Keys, cities0, fuel0, upkeep0);
    NightFuelDone(fuel0, upkeep0);
  }

  /** What nightfall needs to know about a unit: its cargo, its upkeep and whether it stands on a city tile. */
  datatype Exposure = Exposure(cargo: Cargo, upkeep: int, sheltered: bool)

  ghost function ExposureOf(m: GameMap, u: Unit): Exposure
    requires m.Valid() && InBounds(u.pos, m.width, m.height)
    reads u`cargo, m.GetCellByPos(u.pos)`citytile
  {
    Exposure(u.cargo, u.LightUpkeep(), m.GetCellByPos(u.pos).citytile != null)
  }

  /** The exposure of each unit of `team`, by id. */
  ghost function Exposures(game: Game, team: Team): (e: map<string, Exposure>)
    requires game.configs.Valid() && game.gameMap.Valid() && game.UnitsValid() && team in game.teamStates
    reads game`teamStates, game.teamStates[team].units.Values`cargo, game.gameMap.Cells()`citytile
    ensures e.Keys == game.teamStates[team].units.Keys
    ensures forall k :: k in e ==> e[k].upkeep >= 0
  {
    map k | k in game.teamStates[team].units :: ExposureOf(game.gameMap, game.teamStates[team].units[k])
  }

  /** The cargo of each unit of `team`, by id. */
  ghost function Cargoes(game: Game, team: Team): (c: map<string, Cargo>)
    requires team in game.teamStates
    reads game`teamStates, game.teamStates[team].units.Values`cargo
    ensures c.Keys == game.teamStates[team].units.Keys
  {
    map k | k in game.teamStates[team].units :: game.teamStates[team].units[k].cargo
  }

  /** A unit lives through the night when it stands on a city tile or its cargo pays its upkeep. */
  predicate Survives(e: Exposure, p: Parameters)
    requires p.Valid() && e.upkeep >= 0
  {
    e.sheltered || Survive(e.cargo, e.upkeep, p).survived
  }

  /** A sheltered unit keeps its cargo; any other pays its upkeep from it. */
  function CargoAfterNight(e: Exposure, p: Parameters): Cargo
    requires p.Valid() && e.upkeep >= 0
  {
    if e.sheltered then e.cargo else Survive(e.cargo, e.upkeep, p).cargo
  }

  predicate UpkeepsKnown(e: map<string, Exposure>)
  {
    forall k :: k in e ==> e[k].upkeep >= 0
  }

  /** The cargo of each unit after nightfall; the units missing from it were destroyed. */
  function NightCargo(e: map<string, Exposure>, p: Parameters): map<string, Cargo>
    requires p.Valid() && UpkeepsKnown(e)
  {
    map k | k in e && Survives(e[k], p) :: CargoAfterNight(e[k], p)
  }

  /**
   * A unit survives the night exactly when it stands on a city tile or its
   * cargo is worth its upkeep; a sheltered unit keeps its cargo, and an
   * exposed survivor keeps what paying the upkeep wood first leaves.
   */
  lemma NightCargoSpec(e: map<string, Exposure>, p: Parameters, k: string)
    requires p.Valid() && UpkeepsKnown(e) && k in e
    ensures k in NightCargo(e, p) <==> e[k].sheltered || FuelValue(e[k].cargo, p) >= e[k].upkeep
    ensures k in NightCargo(e, p) && e[k].sheltered ==> NightCargo(e, p)[k] == e[k].cargo
    ensures k in NightCargo(e, p) && !e[k].sheltered ==> NightCargo(e, p)[k] == Survive(e[k].cargo, e[k].upkeep, p).cargo
  {
    SurviveIffEnoughFuel(e[k].cargo, e[k].upkeep, p);
  }

  /** Where unit k stands in `NightCargo`: it is kept exactly when it survives, with its cargo after the night. */
  lemma NightCargoAt(e: map<string, Exposure>, p: Parameters, k: string)
    requires p.Valid() && UpkeepsKnown(e) && k in e
    ensures (k in NightCargo(e, p)) == Survives(e[k], p)
    ensures k in NightCargo(e, p) ==> NightCargo(e, p)[k] == CargoAfterNight(e[k], p)
  {
  }

  /**
   * The cargo partway through a team's night: units still `pending` carry
   * their cargo at nightfall, the others are as in `after`.
   */
  function CargoPending(e: map<string, Exposure>, after: map<string, Cargo>, pending: set<string>): map<string, Cargo>
  {
    map k | k in e && (k in pending || k in after) :: if k in pending then e[k].cargo else after[k]
  }

  /** The cargo after unit k alone faces the night, `after` holding its fate. */
  function UnitNightStep(cargo: map<string, Cargo>, k: string, after: map<string, Cargo>): map<string, Cargo>
  {
    if k in after then cargo[k := after[k]] else cargo - {k}
  }

  lemma UnitNightStepPending(e: map<string, Exposure>, after: map<string, Cargo>, pending: set<string>, k: string)
    requires k in pending && k in e
    ensures UnitNightStep(CargoPending(e, after, pending), k, after) == CargoPending(e, after, pending - {k})
  {
    var next := UnitNightStep(CargoPending(e, after, pending), k, after);
    assert next.Keys == CargoPending(e, after, pending - {k}).Keys;
  }

  lemma NightCargoStart(e: map<string, Exposure>, after: map<string, Cargo>, c: map<string, Cargo>)
    requires c.Keys == e.Keys
    requires forall k :: k in e ==> e[k].cargo == c[k]
    ensures CargoPending(e, after, e.Keys) == c
  {
  }

  lemma NightCargoDone(e: map<string, Exposure>, after: map<string, Cargo>)
    requires after.Keys <= e.Keys
    ensures CargoPending(e, after, {}) == after
  {
  }

  /** The cargo of a team after one unit faced the night, from what happened to each unit. */
  lemma UnitNightCargo(game: Game, team: Team, k: string, after: map<string, Cargo>, cargo: map<string, Cargo>)
    requires team in game.teamStates && k in cargo
    requires k !in after ==> game.teamStates[team].units.Keys == cargo.Keys - {k}
    requires k in after ==>
      game.teamStates[team].units.Keys == cargo.Keys &&
      game.teamStates[team].units[k].cargo == after[k]
    requires forall j :: j in game.teamStates[team].units && j != k ==> game.teamStates[team].units[j].cargo == cargo[j]
    ensures Cargoes(game, team) == UnitNightStep(cargo, k, after)
  {
    var now := Cargoes(game, team);
    assert now.Keys == UnitNightStep(cargo, k, after).Keys;
  }

  /**
   * One unit at nightfall: a unit that does not stand on a city tile pays
   * its upkeep from its cargo and is destroyed when it cannot.
   */
  method FaceNight(game: Game, team: Team, k: string)
    requires game.Valid() && team in game.teamStates && k in game.teamStates[team].units
    modifies game`teamStates, game.gameMap.Cells()`units, {game.teamStates[team].units[k]}`cargo
    ensures game.Valid() && team in game.teamStates
    ensures game.teamStates == old(game.teamStates)[team := old(game.teamStates[team]).(units := game.teamStates[team].units)]
    ensures var unit := old(game.teamStates[team].units[k]);
      var e := old(ExposureOf(game.gameMap, unit));
      if Survives(e, game.configs) then
        game.teamStates == old(game.teamStates) && unit.cargo == CargoAfterNight(e, game.configs)
      else game.teamStates == old(game.teamStates)[team := old(game.teamStates[team]).(units := old(game.teamStates[team].units) - {k})]
    ensures forall j :: j in game.teamStates[team].units && j != k ==>
      game.teamStates[team].units[j].cargo == old(game.teamStates[team].units[j].cargo)
    ensures forall c :: c in game.gameMap.Cells() ==> c.units <= old(c.units) && c.citytile == old(c.citytile)
  {
    var unit := game.teamStates[team].units[k];
    forall j | j in game.teamStates[team].units && j != k
      ensures game.teamStates[team].units[j] != unit
    {
      assert game.teamStates[team].units[j].id == j && unit.id == k;
    }
    var cell := game.gameMap.GetCellByPos(unit.pos);
    if !cell.IsCityTile() {
      var survived := unit.SpendFuelToSurvive();
      if !survived {
        game.DestroyUnit(unit.team, unit.id);
      }
    }
  }

  /**
   * Progress through a team's night: the units still `pending` are
   * untouched, the others have faced the night, no unit object was
   * replaced and nothing else of the team states changed.
   */
  ghost predicate UnitNightProgress(game: Game, team: Team, units0: map<string, Unit>, ts0: map<Team, TeamState>,
                                    e0: map<string, Exposure>, after0: map<string, Cargo>, pending: set<string>)
    reads game, game.gameMap.Cells(), units0.Values
  {
    game.configs.Valid() && game.gameMap.Valid() && team in game.teamStates && team in ts0 && UpkeepsKnown(e0) &&
    game.teamStates == ts0[team := ts0[team].(units := game.teamStates[team].units)] &&
    pending <= game.teamStates[team].units.Keys &&
    (forall j :: j in game.teamStates[team].units ==> j in units0 && game.teamStates[team].units[j] == units0[j]) &&
    Cargoes(game, team) == CargoPending(e0, after0, pending) &&
    (forall j :: j in pending ==>
      j in units0 && InBounds(units0[j].pos, game.gameMap.width, game.gameMap.height) &&
      (game.gameMap.GetCellByPos(units0[j].pos).citytile != null) == e0[j].sheltered &&
      units0[j].LightUpkeep() == e0[j].upkeep)
  }

  /** Two updates of the units of one team compose into one. */
  lemma UnitsUpdateTwice(ts0: map<Team, TeamState>, ts1: map<Team, TeamState>, ts2: map<Team, TeamState>, team: Team)
    requires team in ts0 && team in ts1 && team in ts2
    requires ts1 == ts0[team := ts0[team].(units := ts1[team].units)]
    requires ts2 == ts1[team := ts1[team].(units := ts2[team].units)]
    ensures ts2 == ts0[team := ts0[team].(units := ts2[team].units)]
  {
  }

  /** Updating the units of team A, then those of team B, updates the units of both teams. */
  lemma UnitsUpdateBoth(ts0: map<Team, TeamState>, ts1: map<Team, TeamState>, ts2: map<Team, TeamState>)
    requires A in ts0 && B in ts0 && A in ts1 && B in ts1 && A in ts2 && B in ts2
    requires ts1 == ts0[A := ts0[A].(units := ts1[A].units)]
    requires ts2 == ts1[B := ts1[B].(units := ts2[B].units)]
    ensures ts2[A] == ts1[A] && ts1[B] == ts0[B]
    ensures ts2 == ts0[A := ts0[A].(units := ts2[A].units)][B := ts0[B].(units := ts2[B].units)]
  {
  }

  /** `UnitNightProgress` from its parts. */
  lemma UnitNightProgressIntro(game: Game, team: Team, units0: map<string, Unit>, ts0: map<Team, TeamState>,
                               e0: map<string, Exposure>, after0: map<string, Cargo>, pending: set<string>)
    requires game.configs.Valid() && game.gameMap.Valid() && team in game.teamStates && team in ts0 && UpkeepsKnown(e0)
    requires game.teamStates == ts0[team := ts0[team].(units := game.teamStates[team].units)]
    requires pending <= game.teamStates[team].units.Keys
    requires forall j :: j in game.teamStates[team].units ==> j in units0 && game.teamStates[team].units[j] == units0[j]
    requires Cargoes(game, team) == CargoPending(e0, after0, pending)
    requires forall j :: j in pending ==>
      j in units0 && InBounds(units0[j].pos, game.gameMap.width, game.gameMap.height) &&
      (game.gameMap.GetCellByPos(units0[j].pos).citytile != null) == e0[j].sheltered &&
      units0[j].LightUpkeep() == e0[j].upkeep
    ensures UnitNightProgress(game, team, units0, ts0, e0, after0, pending)
  {
  }

  /** Nightfall for one pending unit keeps `UnitNightProgress` with one unit fewer pending. */
  method NightUnitPending(game: Game, team: Team, k: string, ghost units0: map<string, Unit>,
                          ghost ts0: map<Team, TeamState>, ghost e0: map<string, Exposure>, ghost after0: map<string, Cargo>,
                          ghost pending: set<string>)
    requires game.Valid() && UnitNightProgress(game, team, units0, ts0, e0, after0, pending) && k in pending
    requires after0 == NightCargo(e0, game.configs)
    modifies game`teamStates, game.gameMap.Cells()`units, {units0[k]}`cargo
    ensures game.Valid() && UnitNightProgress(game, team, units0, ts0, e0, after0, pending - {k})
    ensures forall c :: c in game.gameMap.Cells() ==> c.units <= old(c.units)
  {
    ghost var before, ts1 := Cargoes(game, team), game.teamStates;
    UnitNightStepPending(e0, after0, pending, k);
    assert ExposureOf(game.gameMap, units0[k]) == e0[k] by {
      assert before[k] == e0[k].cargo;
    }
    NightCargoAt(e0, game.configs, k);
    FaceNight(game, team, k);
    UnitNightCargo(game, team, k, after0, before);
    UnitsUpdateTwice(ts0, ts1, game.teamStates, team);
    UnitNightProgressIntro(game, team, units0, ts0, e0, after0, pending - {k});
  }

  /** The loop of `NightTeam`: every pending unit faces the night. */
  method NightTeamLoop(game: Game, team: Team, remaining: set<string>, ghost units0: map<string, Unit>,
                       ghost ts0: map<Team, TeamState>, ghost e0: map<string, Exposure>, ghost after0: map<string, Cargo>)
    requires game.Valid() && UnitNightProgress(game, team, units0, ts0, e0, after0, remaining)
    requires after0 == NightCargo(e0, game.configs)
    modifies game`teamStates, game.gameMap.Cells()`units, units0.Values`cargo
    ensures game.Valid() && UnitNightProgress(game, team, units0, ts0, e0, after0, {})
    ensures forall c :: c in game.gameMap.Cells() ==> c.units <= old(c.units)
  {
    var pending := remaining;
    while pending != {}
      invariant game.Valid() && UnitNightProgress(game, team, units0, ts0, e0, after0, pending)
      invariant forall c :: c in game.gameMap.Cells() ==> c.units <= old(c.units)
      decreases pending
    {
      var k :| k in pending;
      NightUnitPending(game, team, k, units0, ts0, e0, after0, pending);
      pending := pending - {k};
    }
  }

  /**
   * The unit half of `handleNight` for one team: each unit not standing on
   * a city tile pays its upkeep from its cargo, and a unit that cannot pay
   * is destroyed.  The model visits the ids the team held at nightfall.
   */
  method NightTeam(game: Game, team: Team)
    requires game.Valid()
    modifies game`teamStates, game.gameMap.Cells()`units, game.teamStates[team].units.Values`cargo
    ensures game.Valid()
    ensures Cargoes(game, team) == NightCargo(old(Exposures(game, team)), game.configs)
    ensures game.teamStates == old(game.teamStates)[team := old(game.teamStates[team]).(units := game.teamStates[team].units)]
    ensures forall j :: j in game.teamStates[team].units ==>
      j in old(game.teamStates[team].units) && game.teamStates[team].units[j] == old(game.teamStates[team].units[j])
    ensures forall c :: c in game.gameMap.Cells() ==> c.units <= old(c.units)
  {
    ghost var units0, ts0, e0 := game.teamStates[team].units, game.teamStates, Exposures(game, team);
    ghost var after0 := NightCargo(e0, game.configs);
    NightCargoStart(e0, after0, Cargoes(game, team));
    NightTeamLoop(game, team, game.teamStates[team].units.Keys, units0, ts0, e0, after0);
    NightCargoDone(e0, after0);
  }

  /** The exposures of a team's units, from each unit's. */
  lemma ExposuresFrom(game: Game, team: Team, e: map<string, Exposure>)
    requires game.configs.Valid() && game.gameMap.Valid() && game.UnitsValid() && team in game.teamStates
    requires e.Keys == game.teamStates[team].units.Keys
    requires forall k :: k in game.teamStates[team].units ==>
      var u := game.teamStates[team].units[k];
      u.cargo == e[k].cargo && u.LightUpkeep() == e[k].upkeep &&
      (game.gameMap.GetCellByPos(u.pos).citytile != null) == e[k].sheltered
    ensures Exposures(game, team) == e
  {
  }

  /** The cargoes of a team's units are the cargoes in their exposures. */
  lemma CargoesOfExposures(game: Game, team: Team)
    requires game.configs.Valid() && game.gameMap.Valid() && game.UnitsValid() && team in game.teamStates
    ensures Cargoes(game, team) == map k | k in Exposures(game, team) :: Exposures(game, team)[k].cargo
  {
  }

  /** `NightTeam` for `team`, which leaves the units of the `other` team as they were. */
  method NightTeamBeside(game: Game, team: Team, other: Team)
    requires game.Valid() && team != other && other in game.teamStates
    modifies game`teamStates, game.gameMap.Cells()`units, game.teamStates[team].units.Values`cargo
    ensures game.Valid()
    ensures Cargoes(game, team) == NightCargo(old(Exposures(game, team)), game.configs)
    ensures game.teamStates == old(game.teamStates)[team := old(game.teamStates[team]).(units := game.teamStates[team].units)]
    ensures forall j :: j in game.teamStates[team].units ==>
      j in old(game.teamStates[team].units) && game.teamStates[team].units[j] == old(game.teamStates[team].units[j])
    ensures Exposures(game, other) == old(Exposures(game, other))
    ensures forall c :: c in game.gameMap.Cells() ==> c.units <= old(c.units)
  {
    ghost var units0, others := game.teamStates[team].units, game.teamStates[other].units;
    ghost var e1 := Exposures(game, other);
    forall k | k in others
      ensures others[k] !in units0.Values && e1[k] == ExposureOf(game.gameMap, others[k])
    {
      assert others[k].team == other;
    }
    NightTeam(game, team);
    assert game.teamStates[other] == old(game.teamStates[other]);
    forall k | k in others
      ensures others[k].cargo == e1[k].cargo
    {
    }
    forall k | k in others
      ensures (game.gameMap.GetCellByPos(others[k].pos).citytile != null) == e1[k].sheltered
    {
    }
    ExposuresFrom(game, other, e1);
  }

  /** The unit half of `handleNight`: team A's units face the night, then team B's. */
  method NightUnits(game: Game)
    requires game.Valid()
    modifies game`teamStates, game.gameMap.Cells()`units
    modifies game.teamStates[A].units.Values`cargo, game.teamStates[B].units.Values`cargo
    ensures game.Valid()
    ensures Cargoes(game, A) == NightCargo(old(Exposures(game, A)), game.configs)
    ensures Cargoes(game, B) == NightCargo(old(Exposures(game, B)), game.configs)
    ensures game.teamStates == old(game.teamStates)
      [A := old(game.teamStates[A]).(units := game.teamStates[A].units)]
      [B := old(game.teamStates[B]).(units := game.teamStates[B].units)]
    ensures forall j :: j in game.teamStates[A].units ==>
      j in old(game.teamStates[A].units) && game.teamStates[A].units[j] == old(game.teamStates[A].units[j])
    ensures forall j :: j in game.teamStates[B].units ==>
      j in old(game.teamStates[B].units) && game.teamStates[B].units[j] == old(game.teamStates[B].units[j])
    ensures forall c :: c in game.gameMap.Cells() ==> c.units <= old(c.units)
  {
    ghost var ts0 := game.teamStates;
    NightTeamBeside(game, A, B);
    ghost var ts1, cargoA := game.teamStates, Cargoes(game, A);
    CargoesOfExposures(game, A);
    NightTeamBeside(game, B, A);
    CargoesOfExposures(game, A);
    UnitsUpdateBoth(ts0, ts1, game.teamStates);
  }

  /** `NightCities`, which leaves every unit's exposure as it was. */
  method NightCitiesBeside(game: Game)
    requires game.Valid()
    modifies game`cities, game.cities.Values`fuel
    ensures game.Valid()
    ensures game.FuelLevels() == NightFuel(old(game.FuelLevels()), old(Upkeeps(game)))
    ensures forall k :: k in game.cities ==> k in old(game.cities) && game.cities[k] == old(game.cities[k])
    ensures Exposures(game, A) == old(Exposures(game, A)) && Exposures(game, B) == old(Exposures(game, B))
  {
    ghost var eA, eB := Exposures(game, A), Exposures(game, B);
    NightCities(game);
    forall k | k in game.teamStates[A].units
      ensures game.teamStates[A].units[k].cargo == eA[k].cargo &&
        (game.gameMap.GetCellByPos(game.teamStates[A].units[k].pos).citytile != null) == eA[k].sheltered
    {
    }
    forall k | k in game.teamStates[B].units
      ensures game.teamStates[B].units[k].cargo == eB[k].cargo &&
        (game.gameMap.GetCellByPos(game.teamStates[B].units[k].pos).citytile != null) == eB[k].sheltered
    {
    }
    ExposuresFrom(game, A, eA);
    ExposuresFrom(game, B, eB);
  }

  /** `NightUnits`, which leaves every city's fuel as it was. */
  method NightUnitsBeside(game: Game)
    requires game.Valid()
    modifies game`teamStates, game.gameMap.Cells()`units
    modifies game.teamStates[A].units.Values`cargo, game.teamStates[B].units.Values`cargo
    ensures game.Valid()
    ensures Cargoes(game, A) == NightCargo(old(Exposures(game, A)), game.configs)
    ensures Cargoes(game, B) == NightCargo(old(Exposures(game, B)), game.configs)
    ensures game.teamStates == old(game.teamStates)
      [A := old(game.teamStates[A]).(units := game.teamStates[A].units)]
      [B := old(game.teamStates[B]).(units := game.teamStates[B].units)]
    ensures forall c :: c in game.gameMap.Cells() ==> c.units <= old(c.units)
    ensures game.FuelLevels() == old(game.FuelLevels())
  {
    NightUnits(game);
  }

  /**
   * `handleNight`: every city pays its light upkeep from its fuel or is
   * destroyed, then every unit not standing on a city tile pays its own
   * upkeep from its cargo or is destroyed.
   */
  method HandleNight(game: Game)
    requires game.Valid()
    modifies game`cities, game.cities.Values`fuel
    modifies game`teamStates, game.gameMap.Cells()`units
    modifies game.teamStates[A].units.Values`cargo, game.teamStates[B].units.Values`cargo
    ensures game.Valid()
    ensures game.FuelLevels() == NightFuel(old(game.FuelLevels()), old(Upkeeps(game)))
    ensures Cargoes(game, A) == NightCargo(old(Exposures(game, A)), game.configs)
    ensures Cargoes(game, B) == NightCargo(old(Exposures(game, B)), game.configs)
    ensures forall k :: k in game.cities ==> k in old(game.cities) && game.cities[k] == old(game.cities[k])
    ensures game.teamStates == old(game.teamStates)
      [A := old(game.teamStates[A]).(units := game.teamStates[A].units)]
      [B := old(game.teamStates[B]).(units := game.teamStates[B].units)]
    ensures forall c :: c in game.gameMap.Cells() ==> c.units <= old(c.units)
  {
    NightCitiesBeside(game);
    NightUnitsBeside(game);
  }
}
