/**
 * The command strings of luxai2021/game/game_objects.py ("r x y",
 * "bw x y", "bc x y", "m id dir", "t id dest type amount", "bcity id",
 * "p id"), with a parser that reads them back.  Integers are written in
 * decimal as Python's `str.format` does.
 */
module Commands {
  import opened Wrappers
  import opened Constants
  import opened Actions
  import opened Text

  function ParseDirection(s: string): Option<Direction>
  {
    if s == "n" then Some(North)
    else if s == "e" then Some(East)
    else if s == "s" then Some(South)
    else if s == "w" then Some(West)
    else if s == "c" then Some(Center)
    else None
  }

  function ParseResource(s: string): Option<ResourceType>
  {
    if s == "wood" then Some(Wood)
    else if s == "coal" then Some(Coal)
    else if s == "uranium" then Some(Uranium)
    else None
  }

  /** One command an agent sends, before it is validated into an `Action`. */
  datatype Command =
    | ResearchCmd(x: int, y: int)
    | BuildWorkerCmd(x: int, y: int)
    | BuildCartCmd(x: int, y: int)
    | MoveCmd(unitid: string, dir: Direction)
    | TransferCmd(src: string, dest: string, rtype: ResourceType, amount: int)
    | BuildCityCmd(unitid: string)
    | PillageCmd(unitid: string)
  {
    function Kind(): ActionKind
    {
      match this
      case ResearchCmd(_, _) => Research
      case BuildWorkerCmd(_, _) => BuildWorker
      case BuildCartCmd(_, _) => BuildCart
      case MoveCmd(_, _) => Move
      case TransferCmd(_, _, _, _) => Transfer
      case BuildCityCmd(_) => BuildCity
      case PillageCmd(_) => Pillage
    }

    /** Unit ids hold no space, as the ids "u_<n>" the engine issues do. */
    predicate WellFormed()
    {
      match this
      case MoveCmd(id, _) => ' ' !in id
      case TransferCmd(src, dest, _, _) => ' ' !in src && ' ' !in dest
      case BuildCityCmd(id) => ' ' !in id
      case PillageCmd(id) => ' ' !in id
      case _ => true
    }
  }

  function Tokens(c: Command): seq<string>
  {
    match c
    case ResearchCmd(x, y) => ["r", IntToString(x), IntToString(y)]
    case BuildWorkerCmd(x, y) => ["bw", IntToString(x), IntToString(y)]
    case BuildCartCmd(x, y) => ["bc", IntToString(x), IntToString(y)]
    case MoveCmd(id, d) => ["m", id, DirectionCode(d)]
    case TransferCmd(src, dest, r, amount) => ["t", src, dest, ResourceName(r), IntToString(amount)]
    case BuildCityCmd(id) => ["bcity", id]
    case PillageCmd(id) => ["p", id]
  }

  /** The string the game_objects.py builders format. */
  function Serialize(c: Command): string
  {
    Join(Tokens(c))
  }

  function ParseTokens(ts: seq<string>): Option<Command>
  {
    if |ts| == 3 && ts[0] in {"r", "bw", "bc"} then
      match (ParseInt(ts[1]), ParseInt(ts[2]))
      case (Some(x), Some(y)) =>
        Some(if ts[0] == "r" then ResearchCmd(x, y) else if ts[0] == "bw" then BuildWorkerCmd(x, y) else BuildCartCmd(x, y))
      case _ => None
    else if |ts| == 3 && ts[0] == "m" then
      match ParseDirection(ts[2])
      case Some(d) => Some(MoveCmd(ts[1], d))
      case None => None
    else if |ts| == 5 && ts[0] == "t" then
      match (ParseResource(ts[3]), ParseInt(ts[4]))
      case (Some(r), Some(amount)) => Some(TransferCmd(ts[1], ts[2], r, amount))
      case _ => None
    else if |ts| == 2 && ts[0] == "bcity" then Some(BuildCityCmd(ts[1]))
    else if |ts| == 2 && ts[0] == "p" then Some(PillageCmd(ts[1]))
    else None
  }

  /** Reads a command string back; None for anything the builders never produce. */
  function Parse(s: string): Option<Command>
  {
    ParseTokens(SplitOn(s, ' '))
  }

  lemma SpaceFreeTriple(a: string, b: string, c: string)
    requires ' ' !in a && ' ' !in b && ' ' !in c
    ensures SpaceFree([a, b, c])
  {
    var ts := [a, b, c];
    forall i | 0 <= i < 3
      ensures ' ' !in ts[i]
    {
      if i == 0 { assert ts[i] == a; } else if i == 1 { assert ts[i] == b; } else { assert ts[i] == c; }
    }
  }

  lemma TokensHaveNoSpace(c: Command)
    requires c.WellFormed()
    ensures |Tokens(c)| > 0
    ensures SpaceFree(Tokens(c))
  {
    match c
    case ResearchCmd(x, y) =>
      IntNoSeparator(x); IntNoSeparator(y);
      SpaceFreeTriple("r", IntToString(x), IntToString(y));
    case BuildWorkerCmd(x, y) =>
      IntNoSeparator(x); IntNoSeparator(y);
      SpaceFreeTriple("bw", IntToString(x), IntToString(y));
    case BuildCartCmd(x, y) =>
      IntNoSeparator(x); IntNoSeparator(y);
      SpaceFreeTriple("bc", IntToString(x), IntToString(y));
    case MoveCmd(id, d) =>
      SpaceFreeTriple("m", id, DirectionCode(d));
    case TransferCmd(src, dest, r, amount) =>
      IntNoSeparator(amount);
      var ts := Tokens(c);
      assert ts == ["t", src, dest, ResourceName(r), IntToString(amount)];
      forall i | 0 <= i < 5
        ensures ' ' !in ts[i]
      {
        if i == 0 { } else if i == 1 { } else if i == 2 { } else if i == 3 { } else { }
      }
    case BuildCityCmd(id) =>
    case PillageCmd(id) =>
  }

  lemma ParseTokensInverse(c: Command)
    ensures ParseTokens(Tokens(c)) == Some(c)
  {
    var ts := Tokens(c);
    match c
    case ResearchCmd(x, y) =>
      IntRoundTrip(x); IntRoundTrip(y);
      assert ts[0] == "r" && ts[0] in {"r", "bw", "bc"};
    case BuildWorkerCmd(x, y) =>
      IntRoundTrip(x); IntRoundTrip(y);
      assert ts[0] == "bw" && ts[0] in {"r", "bw", "bc"} && ts[0] != "r";
    case BuildCartCmd(x, y) =>
      IntRoundTrip(x); IntRoundTrip(y);
      assert ts[0] == "bc" && ts[0] in {"r", "bw", "bc"} && ts[0] != "r" && ts[0] != "bw";
    case MoveCmd(id, d) =>
      assert ts[0] == "m" && ts[0] !in {"r", "bw", "bc"};
    case TransferCmd(_, _, _, amount) =>
      IntRoundTrip(amount);
      assert ts[0] == "t";
    case BuildCityCmd(_) =>
      assert ts[0] == "bcity";
    case PillageCmd(_) =>
      assert ts[0] == "p" && ts[0] != "bcity";
  }

  /** Every well-formed command string parses back to the command that produced it. */
  lemma ParseSerialize(c: Command)
    requires c.WellFormed()
    ensures Parse(Serialize(c)) == Some(c)
  {
    TokensHaveNoSpace(c);
    SplitJoin(Tokens(c));
    ParseTokensInverse(c);
  }

  /** The first word of a command is the code `Code` gives its kind. */
  lemma CommandStartsWithCode(c: Command)
    requires c.WellFormed()
    ensures SplitOn(Serialize(c), ' ')[0] == Code(c.Kind())
  {
    TokensHaveNoSpace(c);
    SplitJoin(Tokens(c));
  }
}
