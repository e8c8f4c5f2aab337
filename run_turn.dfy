/**
 * The phase order of `run_turn` in luxai2021/game/match.py.  The turn is
 * modelled as the sequence of engine calls it makes: the validated actions
 * are bucketed by kind and handed to their units and city tiles kind by
 * kind, the surviving moves other than CENTER follow, then every city
 * tile's turn, every unit's turn, the distribution, the deposits, the
 * night (on night turns), the prune of depleted resources, the regrowth,
 * the match-over test, the turn counter and the cooldowns.
 *
 * What each call does to the game is modelled elsewhere where the engine
 * has a body for it (`HandleCityTileTurn`, `HandleUnitTurn`,
 * `HandleNight`, `PruneDepletedResources`, `MatchOver`); the engine's
 * `validateCommand` and `handleMovementActions` have no body, so the
 * validated actions and the moves that survive collision resolution are
 * inputs here.
 */
module RunTurns {
  import opened Constants
  import opened Geometry
  import opened Actions

  /** Who receives an action: a unit, by team and id, or the city tile at (x, y). */
  datatype Receiver = UnitAt(team: Team, unitid: string) | TileAt(x: int, y: int)

  /** A city as `run_turn` visits it: its id and the positions of its cells, in order. */
  datatype CityCells = CityCells(cityid: string, cells: seq<Position>)

  /** One engine call made by `run_turn`. */
  datatype Step =
    | Give(to: Receiver, action: Action)
    | TileTurn(cityid: string, pos: Position)
    | UnitTurn(team: Team, unitid: string)
    | Distribute
    | Deposit(team: Team, unitid: string)
    | Night
    | Prune
    | Regenerate
    | CheckOver
    | AdvanceTurn
    | Cooldowns

  /**
   * The receiver of each kind: spawn-city, pillage, transfer (by its
   * source) and move go to the unit, spawn-worker, spawn-cart and research
   * to the city tile on cell (x, y).
   */
  function ReceiverOf(a: Action): Receiver
  {
    match a
    case MoveAction(team, unitid, _, _) => UnitAt(team, unitid)
    case SpawnCartAction(_, _, x, y) => TileAt(x, y)
    case SpawnWorkerAction(_, _, x, y) => TileAt(x, y)
    case SpawnCityAction(team, unitid) => UnitAt(team, unitid)
    case TransferAction(team, srcID, _, _, _) => UnitAt(team, srcID)
    case PillageAction(team, unitid) => UnitAt(team, unitid)
    case ResearchAction(_, x, y) => TileAt(x, y)
  }

  /** `actionsMap.get(k)`: the actions of kind k, in command order. */
  function Bucket(actions: seq<Action>, k: ActionKind): seq<Action>
  {
    if actions == [] then []
    else
      var last := actions[|actions| - 1];
      Bucket(actions[..|actions| - 1], k) + (if last.Kind() == k then [last] else [])
  }

  /** The moves handed to units: all but those toward CENTER, in order. */
  function NonCenter(moves: seq<Action>): seq<Action>
  {
    if moves == [] then []
    else
      var last := moves[|moves| - 1];
      NonCenter(moves[..|moves| - 1]) +
        (if last.MoveAction? && last.direction == Center then [] else [last])
  }

  /** The kinds in the order their buckets are handed out. */
  const HandOutOrder: seq<ActionKind> := [BuildCity, BuildWorker, BuildCart, Pillage, Research, Transfer]

  /** The buckets of `kinds`, one after the other. */
  function Buckets(actions: seq<Action>, kinds: seq<ActionKind>): seq<Action>
  {
    if kinds == [] then [] else Buckets(actions, kinds[..|kinds| - 1]) + Bucket(actions, kinds[|kinds| - 1])
  }

  /** Every action `run_turn` hands out, in the order it hands them out. */
  function HandOuts(actions: seq<Action>, prunedMoves: seq<Action>): seq<Action>
  {
    Buckets(actions, HandOutOrder) + NonCenter(prunedMoves)
  }

  function Gives(actions: seq<Action>): seq<Step>
  {
    if actions == [] then []
    else
      var last := actions[|actions| - 1];
      Gives(actions[..|actions| - 1]) + [Give(ReceiverOf(last), last)]
  }

  function CityTileTurns(cityid: string, cells: seq<Position>): seq<Step>
  {
    if cells == [] then [] else CityTileTurns(cityid, cells[..|cells| - 1]) + [TileTurn(cityid, cells[|cells| - 1])]
  }

  function TileTurns(cities: seq<CityCells>): seq<Step>
  {
    if cities == [] then []
    else
      var last := cities[|cities| - 1];
      TileTurns(cities[..|cities| - 1]) + CityTileTurns(last.cityid, last.cells)
  }

  function UnitTurns(team: Team, ids: seq<string>): seq<Step>
  {
    if ids == [] then [] else UnitTurns(team, ids[..|ids| - 1]) + [UnitTurn(team, ids[|ids| - 1])]
  }

  function Deposits(team: Team, ids: seq<string>): seq<Step>
  {
    if ids == [] then [] else Deposits(team, ids[..|ids| - 1]) + [Deposit(team, ids[|ids| - 1])]
  }

  /** The calls after the deposits: the night on night turns, then the end-of-turn bookkeeping. */
  function Closing(night: bool): seq<Step>
  {
    (if night then [Night] else []) + [Prune, Regenerate, CheckOver, AdvanceTurn, Cooldowns]
  }

  /** The whole turn, phase by phase. */
  function TurnSchedule(actions: seq<Action>, prunedMoves: seq<Action>, cities: seq<CityCells>,
                        unitsA: seq<string>, unitsB: seq<string>, night: bool): seq<Step>
  {
    Gives(HandOuts(actions, prunedMoves)) + TileTurns(cities) +
    UnitTurns(A, unitsA) + UnitTurns(B, unitsB) + [Distribute] +
    Deposits(A, unitsA) + Deposits(B, unitsB) + Closing(night)
  }

  /** `actionsMap`: the validated actions bucketed by kind, each bucket in command order. */
  method BucketActions(actions: seq<Action>) returns (actionsMap: map<ActionKind, seq<Action>>)
    ensures forall k :: k in actionsMap && actionsMap[k] == Bucket(actions, k)
  {
    actionsMap := map[Move := [], Research := [], BuildWorker := [], BuildCart := [],
                      BuildCity := [], Transfer := [], Pillage := []];
    forall k: ActionKind
      ensures k in actionsMap
    {
      match k
      case Move =>
      case Research =>
      case BuildWorker =>
      case BuildCart =>
      case BuildCity =>
      case Transfer =>
      case Pillage =>
    }
    assert actions[..0] == [];
    for i := 0 to |actions|
      invariant forall k :: k in actionsMap && actionsMap[k] == Bucket(actions[..i], k)
    {
      assert actions[..i + 1][..i] == actions[..i];
      var action := actions[i];
      actionsMap := actionsMap[action.Kind() := actionsMap[action.Kind()] + [action]];
    }
    assert actions[..|actions|] == actions;
  }

  /** Hands every action of `bucket` to its receiver, in order. */
  method GiveAll(steps0: seq<Step>, bucket: seq<Action>) returns (steps: seq<Step>)
    ensures steps == steps0 + Gives(bucket)
  {
    steps := steps0;
    for i := 0 to |bucket|
      invariant steps == steps0 + Gives(bucket[..i])
    {
      assert bucket[..i + 1][..i] == bucket[..i];
      steps := steps + [Give(ReceiverOf(bucket[i]), bucket[i])];
    }
    assert bucket[..|bucket|] == bucket;
  }

  /** The surviving moves, other than those toward CENTER, go to their units. */
  method GiveMoves(steps0: seq<Step>, prunedMoves: seq<Action>) returns (steps: seq<Step>)
    ensures steps == steps0 + Gives(NonCenter(prunedMoves))
  {
    steps := steps0;
    for i := 0 to |prunedMoves|
      invariant steps == steps0 + Gives(NonCenter(prunedMoves[..i]))
    {
      var action := prunedMoves[i];
      ghost var kept := NonCenter(prunedMoves[..i]);
      NonCenterStep(prunedMoves, i);
      if !(action.MoveAction? && action.direction == Center) {
        assert NonCenter(prunedMoves[..i + 1]) == kept + [action];
        GivesSnoc(kept, action);
        steps := steps + [Give(ReceiverOf(action), action)];
      } else {
        assert NonCenter(prunedMoves[..i + 1]) == kept + [];
        assert kept + [] == kept;
      }
    }
    assert prunedMoves[..|prunedMoves|] == prunedMoves;
  }

  lemma NonCenterStep(moves: seq<Action>, i: nat)
    requires i < |moves|
    ensures NonCenter(moves[..i + 1]) ==
      NonCenter(moves[..i]) + (if moves[i].MoveAction? && moves[i].direction == Center then [] else [moves[i]])
  {
    assert moves[..i + 1][..i] == moves[..i];
  }

  lemma GivesSnoc(handed: seq<Action>, a: Action)
    ensures Gives(handed + [a]) == Gives(handed) + [Give(ReceiverOf(a), a)]
  {
    assert (handed + [a])[..|handed|] == handed;
  }

  /** Every city tile takes its turn, city by city and cell by cell. */
  method AllTileTurns(steps0: seq<Step>, cities: seq<CityCells>) returns (steps: seq<Step>)
    ensures steps == steps0 + TileTurns(cities)
  {
    steps := steps0;
    for i := 0 to |cities|
      invariant steps == steps0 + TileTurns(cities[..i])
    {
      assert cities[..i + 1][..i] == cities[..i];
      var city := cities[i];
      ghost var before := steps;
      for j := 0 to |city.cells|
        invariant steps == before + CityTileTurns(city.cityid, city.cells[..j])
      {
        assert city.cells[..j + 1][..j] == city.cells[..j];
        steps := steps + [TileTurn(city.cityid, city.cells[j])];
      }
      assert city.cells[..|city.cells|] == city.cells;
    }
    assert cities[..|cities|] == cities;
  }

  method AllUnitTurns(steps0: seq<Step>, team: Team, ids: seq<string>) returns (steps: seq<Step>)
    ensures steps == steps0 + UnitTurns(team, ids)
  {
    steps := steps0;
    for i := 0 to |ids|
      invariant steps == steps0 + UnitTurns(team, ids[..i])
    {
      assert ids[..i + 1][..i] == ids[..i];
      steps := steps + [UnitTurn(team, ids[i])];
    }
    assert ids[..|ids|] == ids;
  }

  method AllDeposits(steps0: seq<Step>, team: Team, ids: seq<string>) returns (steps: seq<Step>)
    ensures steps == steps0 + Deposits(team, ids)
  {
    steps := steps0;
    for i := 0 to |ids|
      invariant steps == steps0 + Deposits(team, ids[..i])
    {
      assert ids[..i + 1][..i] == ids[..i];
      steps := steps + [Deposit(team, ids[i])];
    }
    assert ids[..|ids|] == ids;
  }

  /**
   * `run_turn`, as the calls it makes: `actions` are the validated
   * actions in command order, `prunedMoves` what collision resolution
   * leaves of the moves, `cities` the cities with their cells in visiting
   * order, `unitsA`/`unitsB` the ids of each team's units in visiting
   * order, and `night` the answer of `isNight`.
   */
  method RunTurn(actions: seq<Action>, prunedMoves: seq<Action>, cities: seq<CityCells>,
                 unitsA: seq<string>, unitsB: seq<string>, night: bool) returns (steps: seq<Step>)
    ensures steps == TurnSchedule(actions, prunedMoves, cities, unitsA, unitsB, night)
  {
    steps := HandOutAll(actions, prunedMoves);
    steps := AllTileTurns(steps, cities);
    steps := AllUnitTurns(steps, A, unitsA);
    steps := AllUnitTurns(steps, B, unitsB);
    steps := steps + [Distribute];
    steps := AllDeposits(steps, A, unitsA);
    steps := AllDeposits(steps, B, unitsB);
    steps := CloseTurn(steps, night);
  }

  /** The hand-outs of `run_turn`: the buckets in hand-out order, then the moves. */
  method HandOutAll(actions: seq<Action>, prunedMoves: seq<Action>) returns (steps: seq<Step>)
    ensures steps == Gives(HandOuts(actions, prunedMoves))
  {
    var actionsMap := BucketActions(actions);
    steps := [];
    for i := 0 to |HandOutOrder|
      invariant steps == Gives(Buckets(actions, HandOutOrder[..i]))
    {
      assert HandOutOrder[..i + 1][..i] == HandOutOrder[..i];
      ghost var handed := Buckets(actions, HandOutOrder[..i]);
      steps := GiveAll(steps, actionsMap[HandOutOrder[i]]);
      GivesAppend(handed, Bucket(actions, HandOutOrder[i]));
    }
    assert HandOutOrder[..|HandOutOrder|] == HandOutOrder;
    ghost var handed := Buckets(actions, HandOutOrder);
    steps := GiveMoves(steps, prunedMoves);
    GivesAppend(handed, NonCenter(prunedMoves));
  }

  /** The end of the turn: the night on night turns, then the prune, regrowth, match-over test, turn counter and cooldowns. */
  method CloseTurn(steps0: seq<Step>, night: bool) returns (steps: seq<Step>)
    ensures steps == steps0 + Closing(night)
  {
    steps := steps0;
    if night {
      steps := steps + [Night];
    }
    steps := steps + [Prune, Regenerate, CheckOver, AdvanceTurn, Cooldowns];
  }

  lemma {:induction false} GivesAppend(a: seq<Action>, b: seq<Action>)
    ensures Gives(a + b) == Gives(a) + Gives(b)
    decreases |b|
  {
    if b != [] {
      var n := |b| - 1;
      assert (a + b)[..|a + b| - 1] == a + b[..n];
      GivesAppend(a, b[..n]);
      assert b[..n] + [b[n]] == b;
    } else {
      assert a + b == a;
    }
  }

  /** The rank of each kind in the hand-out order; moves come last. */
  function KindRank(k: ActionKind): nat
  {
    match k
    case BuildCity => 0
    case BuildWorker => 1
    case BuildCart => 2
    case Pillage => 3
    case Research => 4
    case Transfer => 5
    case Move => 6
  }

  /**
   * The rank of each call in the turn: the hand-outs kind by kind
   * (spawn-city, spawn-worker, spawn-cart, pillage, research, transfer,
   * move), the city tiles, team A's units, team B's units, the
   * distribution, team A's deposits, team B's deposits, the night, the
   * prune, the regrowth, the match-over test, the turn counter and the
   * cooldowns.
   */
  function Phase(s: Step): nat
  {
    match s
    case Give(_, a) => KindRank(a.Kind())
    case TileTurn(_, _) => 7
    case UnitTurn(team, _) => if team == A then 8 else 9
    case Distribute => 10
    case Deposit(team, _) => if team == A then 11 else 12
    case Night => 13
    case Prune => 14
    case Regenerate => 15
    case CheckOver => 16
    case AdvanceTurn => 17
    case Cooldowns => 18
  }

  predicate PhaseSorted(s: seq<Step>)
  {
    forall i, j :: 0 <= i < j < |s| ==> Phase(s[i]) <= Phase(s[j])
  }

  /** Every call of `s` has rank between lo and hi, and `s` is in rank order. */
  predicate PhasesWithin(s: seq<Step>, lo: nat, hi: nat)
  {
    PhaseSorted(s) && forall i :: 0 <= i < |s| ==> lo <= Phase(s[i]) <= hi
  }

  /**
   * The same order, stated call by call: each call's rank lies between
   * lo (or the rank of the call before it) and hi.
   */
  predicate Ordered(s: seq<Step>, lo: nat, hi: nat)
    decreases |s|
  {
    s == [] || (lo <= Phase(s[0]) <= hi && Ordered(s[1..], Phase(s[0]), hi))
  }

  lemma {:induction false} OrderedOfWithin(s: seq<Step>, lo: nat, hi: nat)
    requires PhasesWithin(s, lo, hi)
    ensures Ordered(s, lo, hi)
    decreases |s|
  {
    if s != [] {
      var rest := s[1..];
      forall i, j | 0 <= i < j < |rest|
        ensures Phase(rest[i]) <= Phase(rest[j])
      {
        assert rest[i] == s[i + 1] && rest[j] == s[j + 1];
      }
      forall i | 0 <= i < |rest|
        ensures Phase(s[0]) <= Phase(rest[i]) <= hi
      {
        assert rest[i] == s[i + 1];
      }
      OrderedOfWithin(rest, Phase(s[0]), hi);
    }
  }

  lemma {:induction false} WithinOfOrdered(s: seq<Step>, lo: nat, hi: nat)
    requires Ordered(s, lo, hi)
    ensures PhasesWithin(s, lo, hi)
    decreases |s|
  {
    if s != [] {
      var rest := s[1..];
      WithinOfOrdered(rest, Phase(s[0]), hi);
      forall i | 0 <= i < |s|
        ensures lo <= Phase(s[i]) <= hi
      {
        if i > 0 {
          assert s[i] == rest[i - 1];
        }
      }
      forall i, j | 0 <= i < j < |s|
        ensures Phase(s[i]) <= Phase(s[j])
      {
        assert s[j] == rest[j - 1];
        if i > 0 {
          assert s[i] == rest[i - 1];
        }
      }
    }
  }

  lemma OrderedWeaken(s: seq<Step>, lo: nat, mid: nat, hi: nat)
    requires lo <= mid && Ordered(s, mid, hi)
    ensures Ordered(s, lo, hi)
  {
  }

  lemma {:induction false} OrderedJoin(a: seq<Step>, b: seq<Step>, lo: nat, mid: nat, hi: nat)
    requires lo <= mid <= hi
    requires Ordered(a, lo, mid) && Ordered(b, mid, hi)
    ensures Ordered(a + b, lo, hi)
    decreases |a|
  {
    if a == [] {
      assert a + b == b;
      OrderedWeaken(b, lo, mid, hi);
    } else {
      assert (a + b)[0] == a[0] && (a + b)[1..] == a[1..] + b;
      OrderedJoin(a[1..], b, Phase(a[0]), mid, hi);
    }
  }

  /** Actions in hand-out order, with kinds ranked between lo and hi. */
  predicate RanksWithin(a: seq<Action>, lo: nat, hi: nat)
  {
    (forall i, j :: 0 <= i < j < |a| ==> KindRank(a[i].Kind()) <= KindRank(a[j].Kind())) &&
    forall i :: 0 <= i < |a| ==> lo <= KindRank(a[i].Kind()) <= hi
  }

  lemma RanksJoin(a: seq<Action>, b: seq<Action>, lo: nat, mid: nat, hi: nat)
    requires lo <= mid <= hi
    requires RanksWithin(a, lo, mid) && RanksWithin(b, mid, hi)
    ensures RanksWithin(a + b, lo, hi)
  {
    forall i | 0 <= i < |a + b|
      ensures lo <= KindRank((a + b)[i].Kind()) <= hi
    {
      if i < |a| {
        assert (a + b)[i] == a[i];
      } else {
        assert (a + b)[i] == b[i - |a|];
      }
    }
    forall i, j | 0 <= i < j < |a + b|
      ensures KindRank((a + b)[i].Kind()) <= KindRank((a + b)[j].Kind())
    {
      if j < |a| {
        assert (a + b)[i] == a[i] && (a + b)[j] == a[j];
      } else if i >= |a| {
        assert (a + b)[i] == b[i - |a|] && (a + b)[j] == b[j - |a|];
      } else {
        assert (a + b)[i] == a[i] && (a + b)[j] == b[j - |a|];
      }
    }
  }

  /** The calls `Gives` makes: one hand-out per action, to the action's receiver. */
  lemma {:induction false} GivesShape(a: seq<Action>)
    ensures |Gives(a)| == |a|
    ensures forall i :: 0 <= i < |a| ==> Gives(a)[i] == Give(ReceiverOf(a[i]), a[i])
  {
    if a != [] {
      GivesShape(a[..|a| - 1]);
    }
  }

  lemma GivesRanks(a: seq<Action>, lo: nat, hi: nat)
    requires RanksWithin(a, lo, hi)
    ensures PhasesWithin(Gives(a), lo, hi)
  {
    GivesShape(a);
  }

  lemma {:induction false} BucketKinds(actions: seq<Action>, k: ActionKind)
    ensures forall i :: 0 <= i < |Bucket(actions, k)| ==> Bucket(actions, k)[i].Kind() == k
  {
    if actions != [] {
      BucketKinds(actions[..|actions| - 1], k);
    }
  }

  lemma {:induction false} NonCenterMembers(moves: seq<Action>)
    ensures forall a :: a in NonCenter(moves) <==> a in moves && !(a.MoveAction? && a.direction == Center)
  {
    if moves != [] {
      NonCenterMembers(moves[..|moves| - 1]);
      assert moves == moves[..|moves| - 1] + [moves[|moves| - 1]];
    }
  }

  lemma BucketRanks(actions: seq<Action>, k: ActionKind)
    ensures RanksWithin(Bucket(actions, k), KindRank(k), KindRank(k))
  {
    BucketKinds(actions, k);
  }

  lemma NonCenterRanks(moves: seq<Action>)
    requires forall i :: 0 <= i < |moves| ==> moves[i].MoveAction?
    ensures RanksWithin(NonCenter(moves), 6, 6)
  {
    NonCenterMembers(moves);
    var kept := NonCenter(moves);
    forall i | 0 <= i < |kept|
      ensures kept[i].Kind() == Move
    {
      assert kept[i] in kept;
    }
  }

  /** The first n buckets of the hand-out order come kind by kind. */
  lemma {:induction false} BucketsInOrder(actions: seq<Action>, n: nat)
    requires n <= |HandOutOrder|
    ensures RanksWithin(Buckets(actions, HandOutOrder[..n]), 0, n)
  {
    if n > 0 {
      var kinds := HandOutOrder[..n];
      assert kinds[..n - 1] == HandOutOrder[..n - 1];
      BucketsInOrder(actions, n - 1);
      var k := HandOutOrder[n - 1];
      assert KindRank(k) == n - 1;
      BucketRanks(actions, k);
      RanksJoin(Buckets(actions, HandOutOrder[..n - 1]), Bucket(actions, k), 0, n - 1, n);
    }
  }

  /** The hand-outs come kind by kind, in the order the buckets are read, with the moves last. */
  lemma HandOutsInOrder(actions: seq<Action>, prunedMoves: seq<Action>)
    requires forall i :: 0 <= i < |prunedMoves| ==> prunedMoves[i].MoveAction?
    ensures Ordered(Gives(HandOuts(actions, prunedMoves)), 0, 6)
  {
    BucketsInOrder(actions, |HandOutOrder|);
    assert HandOutOrder[..|HandOutOrder|] == HandOutOrder;
    NonCenterRanks(prunedMoves);
    RanksJoin(Buckets(actions, HandOutOrder), NonCenter(prunedMoves), 0, 6, 6);
    GivesRanks(HandOuts(actions, prunedMoves), 0, 6);
    OrderedOfWithin(Gives(HandOuts(actions, prunedMoves)), 0, 6);
  }

  lemma {:induction false} CityTileTurnsShape(cityid: string, cells: seq<Position>)
    ensures |CityTileTurns(cityid, cells)| == |cells|
    ensures forall i :: 0 <= i < |cells| ==> CityTileTurns(cityid, cells)[i] == TileTurn(cityid, cells[i])
  {
    if cells != [] {
      CityTileTurnsShape(cityid, cells[..|cells| - 1]);
    }
  }

  lemma {:induction false} UnitTurnsShape(team: Team, ids: seq<string>)
    ensures |UnitTurns(team, ids)| == |ids|
    ensures forall i :: 0 <= i < |ids| ==> UnitTurns(team, ids)[i] == UnitTurn(team, ids[i])
  {
    if ids != [] {
      UnitTurnsShape(team, ids[..|ids| - 1]);
    }
  }

  lemma {:induction false} DepositsShape(team: Team, ids: seq<string>)
    ensures |Deposits(team, ids)| == |ids|
    ensures forall i :: 0 <= i < |ids| ==> Deposits(team, ids)[i] == Deposit(team, ids[i])
  {
    if ids != [] {
      DepositsShape(team, ids[..|ids| - 1]);
    }
  }

  lemma TileTurnsInOrder(cities: seq<CityCells>)
    ensures Ordered(TileTurns(cities), 7, 7)
  {
    forall i | 0 <= i < |TileTurns(cities)|
      ensures TileTurns(cities)[i].TileTurn?
    {
      TileTurnsAreTileTurns(cities, TileTurns(cities)[i]);
      assert TileTurns(cities)[i] in TileTurns(cities);
    }
    OrderedOfWithin(TileTurns(cities), 7, 7);
  }

  lemma UnitTurnsInOrder(team: Team, ids: seq<string>)
    ensures Ordered(UnitTurns(team, ids), if team == A then 8 else 9, if team == A then 8 else 9)
  {
    UnitTurnsShape(team, ids);
    OrderedOfWithin(UnitTurns(team, ids), if team == A then 8 else 9, if team == A then 8 else 9);
  }

  lemma DepositsInOrder(team: Team, ids: seq<string>)
    ensures Ordered(Deposits(team, ids), if team == A then 11 else 12, if team == A then 11 else 12)
  {
    DepositsShape(team, ids);
    OrderedOfWithin(Deposits(team, ids), if team == A then 11 else 12, if team == A then 11 else 12);
  }

  lemma ClosingInOrder(night: bool)
    ensures Ordered(Closing(night), 13, 18)
  {
    var c := Closing(night);
    var first := if night then 13 else 14;
    forall i | 0 <= i < |c|
      ensures Phase(c[i]) == first + i
    {
      if night {
        assert c == [Night, Prune, Regenerate, CheckOver, AdvanceTurn, Cooldowns];
        if i == 0 {} else if i == 1 {} else if i == 2 {} else if i == 3 {} else if i == 4 {} else {}
      } else {
        assert c == [Prune, Regenerate, CheckOver, AdvanceTurn, Cooldowns];
        if i == 0 {} else if i == 1 {} else if i == 2 {} else if i == 3 {} else {}
      }
    }
    OrderedOfWithin(c, 13, 18);
  }

  /**
   * `run_turn` makes its calls in phase order: every hand-out before any
   * city tile's turn, the hand-outs kind by kind with the moves last,
   * every city tile before any unit, team A before team B, then the
   * distribution, the deposits, the night, the prune, the regrowth, the
   * match-over test, the turn counter and the cooldowns.  (The moves that
   * survive collision resolution are move actions, as their type says.)
   */
  lemma TurnScheduleInPhaseOrder(actions: seq<Action>, prunedMoves: seq<Action>, cities: seq<CityCells>,
                                 unitsA: seq<string>, unitsB: seq<string>, night: bool)
    requires forall i :: 0 <= i < |prunedMoves| ==> prunedMoves[i].MoveAction?
    ensures PhaseSorted(TurnSchedule(actions, prunedMoves, cities, unitsA, unitsB, night))
  {
    var g := Gives(HandOuts(actions, prunedMoves));
    HandOutsInOrder(actions, prunedMoves);
    TileTurnsInOrder(cities);
    UnitTurnsInOrder(A, unitsA);
    UnitTurnsInOrder(B, unitsB);
    DepositsInOrder(A, unitsA);
    DepositsInOrder(B, unitsB);
    ClosingInOrder(night);
    assert Ordered([Distribute], 10, 10);
    OrderedJoin(g, TileTurns(cities), 0, 6, 7);
    var s := g + TileTurns(cities);
    OrderedJoin(s, UnitTurns(A, unitsA), 0, 7, 8);
    s := s + UnitTurns(A, unitsA);
    OrderedJoin(s, UnitTurns(B, unitsB), 0, 8, 9);
    s := s + UnitTurns(B, unitsB);
    OrderedJoin(s, [Distribute], 0, 9, 10);
    s := s + [Distribute];
    OrderedJoin(s, Deposits(A, unitsA), 0, 10, 11);
    s := s + Deposits(A, unitsA);
    OrderedJoin(s, Deposits(B, unitsB), 0, 11, 12);
    s := s + Deposits(B, unitsB);
    OrderedJoin(s, Closing(night), 0, 12, 18);
    WithinOfOrdered(s + Closing(night), 0, 18);
  }

  /** A bucket holds every action of its kind as often as it was validated, and nothing else. */
  lemma {:induction false} BucketCount(actions: seq<Action>, k: ActionKind, a: Action)
    ensures multiset(Bucket(actions, k))[a] == if a.Kind() == k then multiset(actions)[a] else 0
  {
    if actions != [] {
      var n := |actions| - 1;
      BucketCount(actions[..n], k, a);
      assert actions == actions[..n] + [actions[n]];
    }
  }

  /** Reading the buckets of distinct kinds hands out every action of those kinds once per validation. */
  lemma {:induction false} BucketsCount(actions: seq<Action>, kinds: seq<ActionKind>, a: Action)
    requires forall i, j :: 0 <= i < j < |kinds| ==> kinds[i] != kinds[j]
    ensures multiset(Buckets(actions, kinds))[a] == if a.Kind() in kinds then multiset(actions)[a] else 0
  {
    if kinds != [] {
      var n := |kinds| - 1;
      BucketsCount(actions, kinds[..n], a);
      BucketCount(actions, kinds[n], a);
      assert kinds == kinds[..n] + [kinds[n]];
    }
  }

  /** The moves handed out: each surviving move as often as it survived, except those toward CENTER. */
  lemma {:induction false} NonCenterCount(moves: seq<Action>, a: Action)
    ensures multiset(NonCenter(moves))[a] == if a.MoveAction? && a.direction == Center then 0 else multiset(moves)[a]
  {
    if moves != [] {
      var n := |moves| - 1;
      NonCenterCount(moves[..n], a);
      assert moves == moves[..n] + [moves[n]];
    }
  }

  /** One hand-out call per action, always to the action's receiver. */
  lemma {:induction false} GivesCount(handed: seq<Action>, r: Receiver, a: Action)
    ensures multiset(Gives(handed))[Give(r, a)] == if r == ReceiverOf(a) then multiset(handed)[a] else 0
  {
    if handed != [] {
      var n := |handed| - 1;
      GivesCount(handed[..n], r, a);
      assert handed == handed[..n] + [handed[n]];
    }
  }

  /** The calls each block of the schedule can make. */
  lemma {:induction false} GivesMembers(handed: seq<Action>, s: Step)
    ensures s in Gives(handed) ==> s.Give?
  {
    if handed != [] {
      GivesMembers(handed[..|handed| - 1], s);
    }
  }

  lemma {:induction false} TileTurnsAreTileTurns(cities: seq<CityCells>, s: Step)
    ensures s in TileTurns(cities) ==> s.TileTurn?
  {
    if cities != [] {
      var last := cities[|cities| - 1];
      TileTurnsAreTileTurns(cities[..|cities| - 1], s);
      CityTileTurnsShape(last.cityid, last.cells);
    }
  }

  lemma {:induction false} UnitTurnsMembers(team: Team, ids: seq<string>, s: Step)
    ensures s in UnitTurns(team, ids) <==> s.UnitTurn? && s.team == team && s.unitid in ids
  {
    if ids != [] {
      var n := |ids| - 1;
      UnitTurnsMembers(team, ids[..n], s);
      assert ids == ids[..n] + [ids[n]];
    }
  }

  lemma {:induction false} DepositsMembers(team: Team, ids: seq<string>, s: Step)
    ensures s in Deposits(team, ids) <==> s.Deposit? && s.team == team && s.unitid in ids
  {
    if ids != [] {
      var n := |ids| - 1;
      DepositsMembers(team, ids[..n], s);
      assert ids == ids[..n] + [ids[n]];
    }
  }

  /** Nothing but hand-outs comes before the city tiles; no hand-out comes after them. */
  lemma NoGiveAfterHandOuts(cities: seq<CityCells>, unitsA: seq<string>, unitsB: seq<string>, night: bool, g: Step)
    requires g.Give?
    ensures g !in TileTurns(cities) && g !in UnitTurns(A, unitsA) && g !in UnitTurns(B, unitsB)
    ensures g !in Deposits(A, unitsA) && g !in Deposits(B, unitsB) && g !in Closing(night)
  {
    TileTurnsAreTileTurns(cities, g);
    UnitTurnsMembers(A, unitsA, g);
    UnitTurnsMembers(B, unitsB, g);
    DepositsMembers(A, unitsA, g);
    DepositsMembers(B, unitsB, g);
  }

  lemma NotAMove(prunedMoves: seq<Action>, a: Action)
    requires forall i :: 0 <= i < |prunedMoves| ==> prunedMoves[i].MoveAction?
    requires !a.MoveAction?
    ensures multiset(prunedMoves)[a] == 0
  {
  }

  /** The hand-out order reads each kind but moves, once. */
  lemma HandOutOrderKinds()
    ensures forall i, j :: 0 <= i < j < |HandOutOrder| ==> HandOutOrder[i] != HandOutOrder[j]
    ensures forall k :: k in HandOutOrder <==> k != Move
  {
  }

  /** How often the hand-outs hold an action. */
  lemma HandOutsCount(actions: seq<Action>, prunedMoves: seq<Action>, a: Action)
    requires forall i :: 0 <= i < |prunedMoves| ==> prunedMoves[i].MoveAction?
    ensures multiset(HandOuts(actions, prunedMoves))[a] ==
      if !a.MoveAction? then multiset(actions)[a]
      else if a.direction == Center then 0
      else multiset(prunedMoves)[a]
  {
    HandOutOrderKinds();
    BucketsCount(actions, HandOutOrder, a);
    NonCenterCount(prunedMoves, a);
    var bucketed := multiset(Buckets(actions, HandOutOrder))[a];
    var moved := multiset(NonCenter(prunedMoves))[a];
    assert multiset(HandOuts(actions, prunedMoves))[a] == bucketed + moved;
    if !a.MoveAction? {
      NotAMove(prunedMoves, a);
      assert bucketed == multiset(actions)[a] && moved == 0;
    } else {
      assert bucketed == 0;
    }
  }

  /** Where a call can stand in the schedule: in one of its blocks. */
  lemma ScheduleMembers(actions: seq<Action>, prunedMoves: seq<Action>, cities: seq<CityCells>,
                        unitsA: seq<string>, unitsB: seq<string>, night: bool, s: Step)
    ensures s in TurnSchedule(actions, prunedMoves, cities, unitsA, unitsB, night) <==>
      s in Gives(HandOuts(actions, prunedMoves)) || s in TileTurns(cities) ||
      s in UnitTurns(A, unitsA) || s in UnitTurns(B, unitsB) || s == Distribute ||
      s in Deposits(A, unitsA) || s in Deposits(B, unitsB) || s in Closing(night)
  {
  }

  /**
   * How often `run_turn` hands an action to a receiver: a validated
   * spawn-city, spawn-worker, spawn-cart, pillage, research or transfer
   * action once per time it was validated, a move once per time it
   * survived collision resolution unless it points to CENTER, and only
   * ever to the action's own receiver.
   */
  lemma HandedOut(actions: seq<Action>, prunedMoves: seq<Action>, cities: seq<CityCells>,
                  unitsA: seq<string>, unitsB: seq<string>, night: bool, r: Receiver, a: Action)
    requires forall i :: 0 <= i < |prunedMoves| ==> prunedMoves[i].MoveAction?
    ensures multiset(TurnSchedule(actions, prunedMoves, cities, unitsA, unitsB, night))[Give(r, a)] ==
      if r != ReceiverOf(a) then 0
      else if !a.MoveAction? then multiset(actions)[a]
      else if a.direction == Center then 0
      else multiset(prunedMoves)[a]
  {
    var g := Give(r, a);
    ScheduleCount(actions, prunedMoves, cities, unitsA, unitsB, night, g);
    NoGiveAfterHandOuts(cities, unitsA, unitsB, night, g);
    assert multiset(TileTurns(cities))[g] == 0 && multiset(UnitTurns(A, unitsA))[g] == 0;
    assert multiset(UnitTurns(B, unitsB))[g] == 0 && multiset([Distribute])[g] == 0;
    assert multiset(Deposits(A, unitsA))[g] == 0 && multiset(Deposits(B, unitsB))[g] == 0;
    assert multiset(Closing(night))[g] == 0;
    GivesCount(HandOuts(actions, prunedMoves), r, a);
    HandOutsCount(actions, prunedMoves, a);
  }

  /** How often a call is made: the sum over the blocks of the schedule. */
  lemma ScheduleCount(actions: seq<Action>, prunedMoves: seq<Action>, cities: seq<CityCells>,
                      unitsA: seq<string>, unitsB: seq<string>, night: bool, s: Step)
    ensures multiset(TurnSchedule(actions, prunedMoves, cities, unitsA, unitsB, night))[s] ==
      multiset(Gives(HandOuts(actions, prunedMoves)))[s] + multiset(TileTurns(cities))[s] +
      multiset(UnitTurns(A, unitsA))[s] + multiset(UnitTurns(B, unitsB))[s] + multiset([Distribute])[s] +
      multiset(Deposits(A, unitsA))[s] + multiset(Deposits(B, unitsB))[s] + multiset(Closing(night))[s]
  {
  }

  /** The night is handled exactly on night turns; the prune and the turn counter run every turn. */
  lemma NightOnlyAtNight(actions: seq<Action>, prunedMoves: seq<Action>, cities: seq<CityCells>,
                         unitsA: seq<string>, unitsB: seq<string>, night: bool)
    ensures Night in TurnSchedule(actions, prunedMoves, cities, unitsA, unitsB, night) <==> night
    ensures Prune in TurnSchedule(actions, prunedMoves, cities, unitsA, unitsB, night)
    ensures AdvanceTurn in TurnSchedule(actions, prunedMoves, cities, unitsA, unitsB, night)
  {
    GivesMembers(HandOuts(actions, prunedMoves), Night);
    TileTurnsAreTileTurns(cities, Night);
    UnitTurnsMembers(A, unitsA, Night);
    UnitTurnsMembers(B, unitsB, Night);
    DepositsMembers(A, unitsA, Night);
    DepositsMembers(B, unitsB, Night);
    ScheduleMembers(actions, prunedMoves, cities, unitsA, unitsB, night, Night);
    ScheduleMembers(actions, prunedMoves, cities, unitsA, unitsB, night, Prune);
    ScheduleMembers(actions, prunedMoves, cities, unitsA, unitsB, night, AdvanceTurn);
    assert Prune in Closing(night) && AdvanceTurn in Closing(night);
  }

  /** The city tiles whose turn is handled are exactly the cells of the cities visited. */
  lemma {:induction false} TileTurnsMembers(cities: seq<CityCells>, cityid: string, pos: Position)
    ensures TileTurn(cityid, pos) in TileTurns(cities) <==>
      exists i :: 0 <= i < |cities| && cities[i].cityid == cityid && pos in cities[i].cells
  {
    if cities != [] {
      var n := |cities| - 1;
      TileTurnsMembers(cities[..n], cityid, pos);
      CityTileTurnsShape(cities[n].cityid, cities[n].cells);
      if TileTurn(cityid, pos) in CityTileTurns(cities[n].cityid, cities[n].cells) {
        var j :| 0 <= j < |cities[n].cells| && CityTileTurns(cities[n].cityid, cities[n].cells)[j] == TileTurn(cityid, pos);
        assert cities[n].cityid == cityid && pos in cities[n].cells;
      }
      if cities[n].cityid == cityid && pos in cities[n].cells {
        var j :| 0 <= j < |cities[n].cells| && cities[n].cells[j] == pos;
        assert CityTileTurns(cities[n].cityid, cities[n].cells)[j] == TileTurn(cityid, pos);
      }
      if exists i :: 0 <= i < n && cities[i].cityid == cityid && pos in cities[i].cells {
        var i :| 0 <= i < n && cities[i].cityid == cityid && pos in cities[i].cells;
        assert cities[..n][i] == cities[i];
      }
      if exists i :: 0 <= i < n + 1 && cities[i].cityid == cityid && pos in cities[i].cells {
        var i :| 0 <= i < n + 1 && cities[i].cityid == cityid && pos in cities[i].cells;
        if i < n {
          assert cities[..n][i] == cities[i];
        }
      }
    }
  }

  /** Every cell of every city visited gets its city tile's turn, and nothing else does. */
  lemma EveryCityTileTakesItsTurn(actions: seq<Action>, prunedMoves: seq<Action>, cities: seq<CityCells>,
                                  unitsA: seq<string>, unitsB: seq<string>, night: bool, cityid: string, pos: Position)
    ensures TileTurn(cityid, pos) in TurnSchedule(actions, prunedMoves, cities, unitsA, unitsB, night) <==>
      exists i :: 0 <= i < |cities| && cities[i].cityid == cityid && pos in cities[i].cells
  {
    GivesMembers(HandOuts(actions, prunedMoves), TileTurn(cityid, pos));
    UnitTurnsMembers(A, unitsA, TileTurn(cityid, pos));
    UnitTurnsMembers(B, unitsB, TileTurn(cityid, pos));
    DepositsMembers(A, unitsA, TileTurn(cityid, pos));
    DepositsMembers(B, unitsB, TileTurn(cityid, pos));
    ScheduleMembers(actions, prunedMoves, cities, unitsA, unitsB, night, TileTurn(cityid, pos));
    TileTurnsMembers(cities, cityid, pos);
  }

  /** Every unit of each team visited gets its turn, and no other unit does. */
  lemma EveryUnitTakesItsTurn(actions: seq<Action>, prunedMoves: seq<Action>, cities: seq<CityCells>,
                              unitsA: seq<string>, unitsB: seq<string>, night: bool, team: Team, id: string)
    ensures UnitTurn(team, id) in TurnSchedule(actions, prunedMoves, cities, unitsA, unitsB, night) <==>
      id in (if team == A then unitsA else unitsB)
  {
    GivesMembers(HandOuts(actions, prunedMoves), UnitTurn(team, id));
    TileTurnsAreTileTurns(cities, UnitTurn(team, id));
    UnitTurnsMembers(A, unitsA, UnitTurn(team, id));
    UnitTurnsMembers(B, unitsB, UnitTurn(team, id));
    DepositsMembers(A, unitsA, UnitTurn(team, id));
    DepositsMembers(B, unitsB, UnitTurn(team, id));
    ScheduleMembers(actions, prunedMoves, cities, unitsA, unitsB, night, UnitTurn(team, id));
  }

  /** Every unit of each team visited has its cargo deposited, and no other unit does. */
  lemma EveryUnitDeposits(actions: seq<Action>, prunedMoves: seq<Action>, cities: seq<CityCells>,
                          unitsA: seq<string>, unitsB: seq<string>, night: bool, team: Team, id: string)
    ensures Deposit(team, id) in TurnSchedule(actions, prunedMoves, cities, unitsA, unitsB, night) <==>
      id in (if team == A then unitsA else unitsB)
  {
    GivesMembers(HandOuts(actions, prunedMoves), Deposit(team, id));
    TileTurnsAreTileTurns(cities, Deposit(team, id));
    UnitTurnsMembers(A, unitsA, Deposit(team, id));
    UnitTurnsMembers(B, unitsB, Deposit(team, id));
    DepositsMembers(A, unitsA, Deposit(team, id));
    DepositsMembers(B, unitsB, Deposit(team, id));
    ScheduleMembers(actions, prunedMoves, cities, unitsA, unitsB, night, Deposit(team, id));
  }
}
