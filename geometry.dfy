/**
 * Grid positions (the `Position` class of game/game_map.py): Manhattan
 * distance, adjacency, translation, the greedy `direction_to`, and the
 * in-bounds neighbour list that `GameMap.getAdjacentCells` enumerates.
 */
module Geometry {
  import opened Constants

  datatype Position = Position(x: int, y: int)

  function Abs(n: int): nat
  {
    if n < 0 then -n else n
  }

  /** `Position.__sub__` / `distance_to`: the Manhattan (L1) distance. */
  function DistanceTo(p: Position, q: Position): nat
  {
    Abs(q.x - p.x) + Abs(q.y - p.y)
  }

  /** `is_adjacent`: within distance 1, so a position is adjacent to itself. */
  predicate IsAdjacent(p: Position, q: Position)
  {
    DistanceTo(p, q) <= 1
  }

  /** `translate`: north decreases y, south increases it. */
  function Translate(p: Position, d: Direction, units: int): Position
  {
    match d
    case North => Position(p.x, p.y - units)
    case East => Position(p.x + units, p.y)
    case South => Position(p.x, p.y + units)
    case West => Position(p.x - units, p.y)
    case Center => Position(p.x, p.y)
  }

  lemma DistanceSymmetric(p: Position, q: Position)
    ensures DistanceTo(p, q) == DistanceTo(q, p)
  {
  }

  lemma DistanceZeroIffEqual(p: Position, q: Position)
    ensures DistanceTo(p, q) == 0 <==> p == q
  {
  }

  lemma AdjacentReflexiveSymmetric(p: Position, q: Position)
    ensures IsAdjacent(p, p)
    ensures IsAdjacent(p, q) <==> IsAdjacent(q, p)
    ensures IsAdjacent(p, q) <==> p == q || DistanceTo(p, q) == 1
  {
  }

  /** Opposite directions undo each other; Center is the identity. */
  lemma TranslateInverse(p: Position, n: int)
    ensures Translate(Translate(p, North, n), South, n) == p
    ensures Translate(Translate(p, East, n), West, n) == p
    ensures Translate(p, Center, n) == p
  {
  }

  /** A translation by n >= 0 in a cardinal direction moves exactly n cells. */
  lemma TranslateDistance(p: Position, d: Direction, n: nat)
    requires d != Center
    ensures DistanceTo(p, Translate(p, d, n)) == n
  {
  }

  /** The order in which `direction_to` tries directions. */
  const CheckDirs: seq<Direction> := [North, East, South, West]

  /** One step in direction d brings p strictly closer to target. */
  predicate Improves(p: Position, target: Position, d: Direction)
  {
    DistanceTo(target, Translate(p, d, 1)) < DistanceTo(p, target)
  }

  /** Reference definition of the tie-break: the first improving direction of `dirs`, or Center. */
  function FirstImproving(p: Position, target: Position, dirs: seq<Direction>): Direction
  {
    if dirs == [] then Center
    else if Improves(p, target, dirs[0]) then dirs[0]
    else FirstImproving(p, target, dirs[1..])
  }

  /** A unit step changes the distance to any target by exactly one. */
  lemma StepChangesDistanceByOne(p: Position, target: Position, d: Direction)
    requires d != Center
    ensures DistanceTo(target, Translate(p, d, 1)) == DistanceTo(p, target) + 1
         || DistanceTo(target, Translate(p, d, 1)) + 1 == DistanceTo(p, target)
  {
  }

  /** FirstImproving over CheckDirs, written out as the four-way choice it makes. */
  lemma FirstImprovingUnfolded(p: Position, target: Position)
    ensures FirstImproving(p, target, CheckDirs) ==
      if Improves(p, target, North) then North
      else if Improves(p, target, East) then East
      else if Improves(p, target, South) then South
      else if Improves(p, target, West) then West
      else Center
  {
    var w: seq<Direction> := [West];
    var sw: seq<Direction> := [South, West];
    var esw: seq<Direction> := [East, South, West];
    assert w[1..] == [];
    assert sw[1..] == w;
    assert esw[1..] == sw;
    assert CheckDirs[1..] == esw;
    assert FirstImproving(p, target, w) == if Improves(p, target, West) then West else Center;
    assert FirstImproving(p, target, sw) ==
      if Improves(p, target, South) then South else FirstImproving(p, target, w);
    assert FirstImproving(p, target, esw) ==
      if Improves(p, target, East) then East else FirstImproving(p, target, sw);
  }

  /** What the reference tie-break promises: Center exactly at the target, otherwise a step that gains one. */
  lemma {:induction false} FirstImprovingSpec(p: Position, target: Position)
    ensures FirstImproving(p, target, CheckDirs) == Center <==> p == target
    ensures FirstImproving(p, target, CheckDirs) != Center ==>
      DistanceTo(Translate(p, FirstImproving(p, target, CheckDirs), 1), target) + 1 == DistanceTo(p, target)
  {
    FirstImprovingUnfolded(p, target);
    var d := FirstImproving(p, target, CheckDirs);
    if p != target {
      if target.y < p.y {
        assert Improves(p, target, North);
      } else if target.x > p.x {
        assert Improves(p, target, East);
      } else if target.y > p.y {
        assert Improves(p, target, South);
      } else {
        assert Improves(p, target, West);
      }
      assert d != Center && Improves(p, target, d);
      StepChangesDistanceByOne(p, target, d);
      DistanceSymmetric(target, Translate(p, d, 1));
    }
  }

  /**
   * `direction_to`: keeps the best direction found so far and replaces it
   * only on a strictly smaller distance, so ties go to the first improving
   * direction in N, E, S, W order.
   */
  method DirectionTo(p: Position, target: Position) returns (closestDir: Direction)
    ensures closestDir == FirstImproving(p, target, CheckDirs)
    ensures closestDir == Center <==> p == target
    ensures closestDir != Center ==>
      DistanceTo(Translate(p, closestDir, 1), target) + 1 == DistanceTo(p, target)
  {
    var closestDist := DistanceTo(p, target);
    closestDir := Center;
    for i := 0 to |CheckDirs|
      invariant closestDir == Center ==>
        closestDist == DistanceTo(p, target) && FirstImproving(p, target, CheckDirs) == FirstImproving(p, target, CheckDirs[i..])
      invariant closestDir != Center ==>
        closestDir == FirstImproving(p, target, CheckDirs) && closestDist + 1 == DistanceTo(p, target)
    {
      var direction := CheckDirs[i];
      var newpos := Translate(p, direction, 1);
      var dist := DistanceTo(target, newpos);
      StepChangesDistanceByOne(p, target, direction);
      if dist < closestDist {
        closestDir := direction;
        closestDist := dist;
      }
    }
    FirstImprovingSpec(p, target);
  }

  /** `inMap`: inside a width x height grid. */
  predicate InBounds(p: Position, width: int, height: int)
  {
    0 <= p.x < width && 0 <= p.y < height
  }

  /** The neighbours `getAdjacentCells` appends, in N, E, S, W order, each only when on the grid. */
  function AdjacentPositions(p: Position, width: int, height: int): seq<Position>
  {
    (if p.y > 0 then [Translate(p, North, 1)] else [])
    + (if p.x < width - 1 then [Translate(p, East, 1)] else [])
    + (if p.y < height - 1 then [Translate(p, South, 1)] else [])
    + (if p.x > 0 then [Translate(p, West, 1)] else [])
  }

  /** Independent reference: the unit steps in N, E, S, W order, filtered by being on the grid. */
  function StepsInBounds(p: Position, dirs: seq<Direction>, width: int, height: int): seq<Position>
  {
    if dirs == [] then []
    else
      var q := Translate(p, dirs[0], 1);
      (if InBounds(q, width, height) then [q] else []) + StepsInBounds(p, dirs[1..], width, height)
  }

  /** For an on-grid cell, the neighbour list is the N, E, S, W steps that stay on the grid. */
  lemma AdjacentPositionsOrder(p: Position, width: int, height: int)
    requires InBounds(p, width, height)
    ensures AdjacentPositions(p, width, height) == StepsInBounds(p, CheckDirs, width, height)
  {
    var w: seq<Direction> := [West];
    var sw: seq<Direction> := [South, West];
    var esw: seq<Direction> := [East, South, West];
    assert w[1..] == [];
    assert sw[1..] == w;
    assert esw[1..] == sw;
    assert CheckDirs[1..] == esw;
    var qn, qe, qs, qw := Translate(p, North, 1), Translate(p, East, 1), Translate(p, South, 1), Translate(p, West, 1);
    assert StepsInBounds(p, w, width, height) == if p.x > 0 then [qw] else [];
    assert StepsInBounds(p, sw, width, height) ==
      (if p.y < height - 1 then [qs] else []) + StepsInBounds(p, w, width, height);
    assert StepsInBounds(p, esw, width, height) ==
      (if p.x < width - 1 then [qe] else []) + StepsInBounds(p, sw, width, height);
    assert StepsInBounds(p, CheckDirs, width, height) ==
      (if p.y > 0 then [qn] else []) + StepsInBounds(p, esw, width, height);
  }

  /** For an on-grid cell, the neighbour list holds exactly the on-grid cells at distance one. */
  lemma AdjacentPositionsExact(p: Position, q: Position, width: int, height: int)
    requires InBounds(p, width, height)
    ensures q in AdjacentPositions(p, width, height) <==> InBounds(q, width, height) && DistanceTo(p, q) == 1
  {
    if InBounds(q, width, height) && DistanceTo(p, q) == 1 {
      if q.y < p.y {
        assert q == Translate(p, North, 1);
      } else if q.x > p.x {
        assert q == Translate(p, East, 1);
      } else if q.y > p.y {
        assert q == Translate(p, South, 1);
      } else {
        assert q == Translate(p, West, 1);
      }
    }
  }

  lemma AdjacentPositionsInBounds(p: Position, width: int, height: int)
    requires InBounds(p, width, height)
    ensures forall i :: 0 <= i < |AdjacentPositions(p, width, height)| ==>
      InBounds(AdjacentPositions(p, width, height)[i], width, height)
  {
  }

  /** The neighbours are pairwise different positions, none of them p itself. */
  lemma AdjacentPositionsDistinct(p: Position, width: int, height: int)
    ensures forall i, j :: 0 <= i < j < |AdjacentPositions(p, width, height)| ==>
      AdjacentPositions(p, width, height)[i] != AdjacentPositions(p, width, height)[j]
    ensures forall i :: 0 <= i < |AdjacentPositions(p, width, height)| ==> AdjacentPositions(p, width, height)[i] != p
  {
  }

  /** On a grid at least 2 x 2: two neighbours at a corner, three on an edge, four inside. */
  lemma NeighbourCount(p: Position, width: int, height: int)
    requires width >= 2 && height >= 2 && InBounds(p, width, height)
    ensures var onXEdge := p.x == 0 || p.x == width - 1;
            var onYEdge := p.y == 0 || p.y == height - 1;
            |AdjacentPositions(p, width, height)| ==
              if onXEdge && onYEdge then 2 else if onXEdge || onYEdge then 3 else 4
  {
  }
}
