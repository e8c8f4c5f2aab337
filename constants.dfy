/**
 * The enumerations of luxai2021/game/constants.py and the numeric game
 * parameters (`configs.parameters`, i.e. GAME_CONSTANTS["PARAMETERS"]).
 * The parameter values come from game_constants.py, which constants.py,
 * unit.py and game_objects.py import; that file is not part of this
 * model, so the values are kept symbolic: every operation takes them as a
 * `Parameters` record, as the Python objects take `configs`.
 */
module Constants {

  datatype Direction = North | East | South | West | Center

  datatype UnitType = Worker | Cart

  datatype Team = A | B

  datatype ResourceType = Wood | Coal | Uranium

  /** DIRECTIONS: the one-letter codes used in commands. */
  function DirectionCode(d: Direction): string
  {
    match d
    case North => "n"
    case East => "e"
    case South => "s"
    case West => "w"
    case Center => "c"
  }

  /** RESOURCE_TYPES: the names used in commands and cargo keys. */
  function ResourceName(r: ResourceType): string
  {
    match r
    case Wood => "wood"
    case Coal => "coal"
    case Uranium => "uranium"
  }

  /** The game parameters the engine reads from its configuration. */
  datatype Parameters = Parameters(
    minRoad: real,                  // MIN_ROAD
    maxRoad: real,                  // MAX_ROAD
    pillageRate: real,              // PILLAGE_RATE
    cartRoadDevelopmentRate: real,  // CART_ROAD_DEVELOPMENT_RATE
    workerCapacity: int,            // RESOURCE_CAPACITY.WORKER
    cartCapacity: int,              // RESOURCE_CAPACITY.CART
    cityBuildCost: int,             // CITY_BUILD_COST
    woodFuelRate: int,              // RESOURCE_TO_FUEL_RATE.WOOD
    coalFuelRate: int,              // RESOURCE_TO_FUEL_RATE.COAL
    uraniumFuelRate: int,           // RESOURCE_TO_FUEL_RATE.URANIUM
    workerUpkeep: int,              // LIGHT_UPKEEP.WORKER
    cartUpkeep: int,                // LIGHT_UPKEEP.CART
    cityUpkeep: int,                // LIGHT_UPKEEP.CITY
    cityAdjacencyBonus: int,        // CITY_ADJACENCY_BONUS
    workerActionCooldown: real,     // UNIT_ACTION_COOLDOWN.WORKER
    cartActionCooldown: real,       // UNIT_ACTION_COOLDOWN.CART
    cityActionCooldown: real,       // CITY_ACTION_COOLDOWN
    coalResearch: int,              // RESEARCH_REQUIREMENTS.COAL
    uraniumResearch: int,           // RESEARCH_REQUIREMENTS.URANIUM
    maxDays: int)                   // MAX_DAYS
  {
    /** The assumptions the engine's arithmetic relies on. */
    predicate Valid()
    {
      && 0.0 <= minRoad <= maxRoad
      && pillageRate >= 0.0 && cartRoadDevelopmentRate >= 0.0
      && workerCapacity >= 0 && cartCapacity >= 0 && cityBuildCost >= 0
      && woodFuelRate > 0 && coalFuelRate > 0 && uraniumFuelRate > 0
      && workerUpkeep >= 0 && cartUpkeep >= 0 && cityUpkeep >= 0
      && cityAdjacencyBonus >= 0
      && workerActionCooldown >= 0.0 && cartActionCooldown >= 0.0 && cityActionCooldown >= 0.0
      && coalResearch > 0 && uraniumResearch > 0
    }

    function Capacity(t: UnitType): int
    {
      match t
      case Worker => workerCapacity
      case Cart => cartCapacity
    }

    function FuelRate(r: ResourceType): int
    {
      match r
      case Wood => woodFuelRate
      case Coal => coalFuelRate
      case Uranium => uraniumFuelRate
    }

    function UnitUpkeep(t: UnitType): int
    {
      match t
      case Worker => workerUpkeep
      case Cart => cartUpkeep
    }
  }
}
