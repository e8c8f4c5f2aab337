/**
 * The action records of luxai2021/game/actions.py, as one tagged union.
 * Each case carries the issuing team and the fields its Python
 * constructor stores; the `action` tag that the Python constructors take
 * as an argument is the case itself (`Kind`), and the cell object a move
 * records is kept as its position.
 */
module Actions {
  import opened Constants
  import opened Geometry

  /** The command kinds of `Game.ACTIONS`. */
  datatype ActionKind = Move | Research | BuildWorker | BuildCart | BuildCity | Transfer | Pillage

  /**
   * The command code of each kind: the text inside each `Game.ACTIONS`
   * entry (every entry but the last is a one-element tuple around it), and
   * the first word of the command the agent-side objects write.
   */
  function Code(k: ActionKind): string
  {
    match k
    case Move => "m"
    case Research => "r"
    case BuildWorker => "bw"
    case BuildCart => "bc"
    case BuildCity => "bcity"
    case Transfer => "t"
    case Pillage => "p"
  }

  datatype Action =
    | MoveAction(team: Team, unitid: string, direction: Direction, newcell: Position)
    | SpawnCartAction(team: Team, unitid: string, x: int, y: int)
    | SpawnWorkerAction(team: Team, unitid: string, x: int, y: int)
    | SpawnCityAction(team: Team, unitid: string)
    | TransferAction(team: Team, srcID: string, destID: string, resourceType: ResourceType, amount: int)
    | PillageAction(team: Team, unitid: string)
    | ResearchAction(team: Team, x: int, y: int)
  {
    /** The `action` tag a record is bucketed by. */
    function Kind(): ActionKind
    {
      match this
      case MoveAction(_, _, _, _) => Move
      case SpawnCartAction(_, _, _, _) => BuildCart
      case SpawnWorkerAction(_, _, _, _) => BuildWorker
      case SpawnCityAction(_, _) => BuildCity
      case TransferAction(_, _, _, _, _) => Transfer
      case PillageAction(_, _) => Pillage
      case ResearchAction(_, _, _) => Research
    }

    predicate IsSpawnUnit()
    {
      SpawnCartAction? || SpawnWorkerAction?
    }

    /** The `type` attribute set by SpawnCartAction and SpawnWorkerAction. */
    function SpawnedType(): (t: UnitType)
      requires IsSpawnUnit()
      ensures t == Cart <==> Kind() == BuildCart
      ensures t == Worker <==> Kind() == BuildWorker
    {
      if SpawnCartAction? then Cart else Worker
    }
  }
}
