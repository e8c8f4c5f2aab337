/**
 * `GameMap` of luxai2021/game/game_map.py (with the grid layout and
 * `get_cell` of game/game_map.py): a `height` × `width` grid of cells,
 * stored row by row so that the cell at (x, y) is `grid[y][x]`, plus the
 * index of the cells that received a resource.
 */
module Maps {
  import opened Wrappers
  import opened Constants
  import opened Geometry
  import opened Cells

  class GameMap {
    const configs: Parameters
    const width: nat
    const height: nat
    const grid: seq<seq<Cell>>
    var resources: seq<Cell>
    var resourcesByType: map<ResourceType, seq<Cell>>

    /** The grid's shape and layout; it is fixed at construction. */
    predicate Valid()
    {
      |grid| == height &&
      (forall y :: 0 <= y < height ==> |grid[y]| == width) &&
      (forall y, x :: 0 <= y < height && 0 <= x < width ==>
        grid[y][x].pos == Position(x, y) && grid[y][x].configs == configs)
    }

    /** Every resource type has its list, as in the Python dictionary literal. */
    predicate Indexed()
      reads this
    {
      resourcesByType.Keys == {Wood, Coal, Uranium}
    }

    /** Every cell of the grid. */
    ghost function Cells(): set<Cell>
    {
      set y, x | 0 <= y < |grid| && 0 <= x < |grid[y]| :: grid[y][x]
    }

    constructor(configs: Parameters, width: nat, height: nat)
      ensures this.configs == configs && this.width == width && this.height == height
      ensures Valid() && Indexed()
      ensures resources == []
      ensures resourcesByType == map[Wood := [], Coal := [], Uranium := []]
      ensures fresh(Cells())
      ensures forall y, x :: 0 <= y < height && 0 <= x < width ==>
        grid[y][x].resource.None? && grid[y][x].citytile == null &&
        grid[y][x].road == configs.minRoad && grid[y][x].units == {}
    {
      var rows: seq<seq<Cell>> := [];
      for y := 0 to height
        invariant |rows| == y
        invariant forall j :: 0 <= j < y ==> |rows[j]| == width
        invariant forall j, i :: 0 <= j < y && 0 <= i < width ==>
          fresh(rows[j][i]) && rows[j][i].pos == Position(i, j) && rows[j][i].configs == configs &&
          rows[j][i].resource.None? && rows[j][i].citytile == null &&
          rows[j][i].road == configs.minRoad && rows[j][i].units == {}
      {
        var row: seq<Cell> := [];
        for x := 0 to width
          invariant forall j, i :: 0 <= j < y && 0 <= i < width ==>
            fresh(rows[j][i]) && rows[j][i].pos == Position(i, j) && rows[j][i].configs == configs &&
            rows[j][i].resource.None? && rows[j][i].citytile == null &&
            rows[j][i].road == configs.minRoad && rows[j][i].units == {}
          invariant |row| == x
          invariant forall i :: 0 <= i < x ==>
            fresh(row[i]) && row[i].pos == Position(i, y) && row[i].configs == configs &&
            row[i].resource.None? && row[i].citytile == null &&
            row[i].road == configs.minRoad && row[i].units == {}
        {
          var cell := new Cell(x, y, configs);
          row := row + [cell];
        }
        rows := rows + [row];
      }
      this.configs := configs;
      this.width := width;
      this.height := height;
      grid := rows;
      resources := [];
      resourcesByType := map[Wood := [], Coal := [], Uranium := []];
    }

    function GetCell(x: int, y: int): (cell: Cell)
      requires Valid() && InBounds(Position(x, y), width, height)
      ensures cell == grid[y][x] && cell.pos == Position(x, y)
    {
      grid[y][x]
    }

    function GetCellByPos(p: Position): (cell: Cell)
      requires Valid() && InBounds(p, width, height)
      ensures cell == GetCell(p.x, p.y) && cell.pos == p && cell in Cells()
    {
      grid[p.y][p.x]
    }

    /** `inMap`: the position lies on the board. */
    function InMap(p: Position): (inside: bool)
      ensures inside <==> InBounds(p, width, height)
    {
      !(p.x < 0 || p.y < 0 || p.x >= width || p.y >= height)
    }

    /** Records a resource on cell (x, y) and indexes the cell under its type. */
    method AddResource(x: int, y: int, rtype: ResourceType, amount: int) returns (cell: Cell)
      requires Valid() && Indexed() && InBounds(Position(x, y), width, height)
      modifies this, GetCell(x, y)
      ensures cell == GetCell(x, y)
      ensures cell.resource == Some(Resource(rtype, amount))
      ensures cell.citytile == old(cell.citytile) && cell.road == old(cell.road) && cell.units == old(cell.units)
      ensures resources == old(resources) + [cell]
      ensures resourcesByType == old(resourcesByType)[rtype := old(resourcesByType)[rtype] + [cell]]
      ensures Indexed()
    {
      cell := GetCell(x, y);
      cell.SetResource(rtype, amount);
      resources := resources + [cell];
      resourcesByType := resourcesByType[rtype := resourcesByType[rtype] + [cell]];
    }

    /** The cells at the given on-grid positions, in the same order. */
    function CellsAt(ps: seq<Position>): (cs: seq<Cell>)
      requires Valid() && forall i :: 0 <= i < |ps| ==> InBounds(ps[i], width, height)
      ensures |cs| == |ps| && forall i :: 0 <= i < |ps| ==> cs[i] == GetCellByPos(ps[i])
    {
      seq(|ps|, i requires 0 <= i < |ps| => GetCellByPos(ps[i]))
    }

    lemma CellsAtAppend(a: seq<Position>, b: seq<Position>)
      requires Valid()
      requires forall i :: 0 <= i < |a| ==> InBounds(a[i], width, height)
      requires forall i :: 0 <= i < |b| ==> InBounds(b[i], width, height)
      ensures forall i :: 0 <= i < |a + b| ==> InBounds((a + b)[i], width, height)
      ensures CellsAt(a + b) == CellsAt(a) + CellsAt(b)
    {
    }

    /** The on-grid neighbours of p: the cells at `AdjacentPositions`, north, east, south, west. */
    function AdjacentCells(p: Position): seq<Cell>
      requires Valid() && InBounds(p, width, height)
    {
      AdjacentPositionsInBounds(p, width, height);
      CellsAt(AdjacentPositions(p, width, height))
    }

    /** `getAdjacentCells`: the on-grid neighbours of the cell, in the order north, east, south, west. */
    method GetAdjacentCells(cell: Cell) returns (cells: seq<Cell>)
      requires Valid() && InBounds(cell.pos, width, height)
      ensures cells == AdjacentCells(cell.pos)
    {
      var p := cell.pos;
      NeighbourPieces(p);
      cells := [];
      if p.y > 0 {
        cells := cells + [GetCell(p.x, p.y - 1)];
      }
      assert cells == NeighbourAt(p, North);
      if p.x < width - 1 {
        cells := cells + [GetCell(p.x + 1, p.y)];
      }
      assert cells == NeighbourAt(p, North) + NeighbourAt(p, East);
      if p.y < height - 1 {
        cells := cells + [GetCell(p.x, p.y + 1)];
      }
      assert cells == NeighbourAt(p, North) + NeighbourAt(p, East) + NeighbourAt(p, South);
      if p.x > 0 {
        cells := cells + [GetCell(p.x - 1, p.y)];
      }
    }

    /** The cell one step from p towards d, if that step stays on the board. */
    function NeighbourAt(p: Position, d: Direction): seq<Cell>
      requires Valid() && InBounds(p, width, height)
    {
      var q := Translate(p, d, 1);
      if InBounds(q, width, height) then [GetCellByPos(q)] else []
    }

    lemma NeighbourPieces(p: Position)
      requires Valid() && InBounds(p, width, height)
      ensures AdjacentCells(p) ==
        NeighbourAt(p, North) + NeighbourAt(p, East) + NeighbourAt(p, South) + NeighbourAt(p, West)
    {
      var n, e, s, w := StepAt(p, North), StepAt(p, East), StepAt(p, South), StepAt(p, West);
      assert AdjacentPositions(p, width, height) == n + e + s + w;
      StepCells(p, North);
      StepCells(p, East);
      StepCells(p, South);
      StepCells(p, West);
      CellsAtAppend(n, e);
      CellsAtAppend(n + e, s);
      CellsAtAppend(n + e + s, w);
    }

    /** The position one step from p towards d, if it is on the board. */
    ghost function StepAt(p: Position, d: Direction): seq<Position>
    {
      var q := Translate(p, d, 1);
      if InBounds(q, width, height) then [q] else []
    }

    lemma StepCells(p: Position, d: Direction)
      requires Valid() && InBounds(p, width, height)
      ensures forall i :: 0 <= i < |StepAt(p, d)| ==> InBounds(StepAt(p, d)[i], width, height)
      ensures CellsAt(StepAt(p, d)) == NeighbourAt(p, d)
    {
    }

    /** The neighbours are exactly the cells of the grid at distance 1. */
    lemma AdjacentCellsExact(p: Position)
      requires Valid() && InBounds(p, width, height)
      ensures forall c :: c in AdjacentCells(p) <==> c in Cells() && DistanceTo(p, c.pos) == 1
    {
      forall c | c in AdjacentCells(p)
        ensures c in Cells() && DistanceTo(p, c.pos) == 1
      {
        AdjacentCellSound(p, c);
      }
      forall c | c in Cells() && DistanceTo(p, c.pos) == 1
        ensures c in AdjacentCells(p)
      {
        AdjacentCellComplete(p, c);
      }
    }

    lemma AdjacentCellSound(p: Position, c: Cell)
      requires Valid() && InBounds(p, width, height)
      requires c in AdjacentCells(p)
      ensures c in Cells() && DistanceTo(p, c.pos) == 1
    {
      var ps := AdjacentPositions(p, width, height);
      var i :| 0 <= i < |AdjacentCells(p)| && AdjacentCells(p)[i] == c;
      AdjacentPositionsExact(p, ps[i], width, height);
    }

    lemma AdjacentCellComplete(p: Position, c: Cell)
      requires Valid() && InBounds(p, width, height)
      requires c in Cells() && DistanceTo(p, c.pos) == 1
      ensures c in AdjacentCells(p)
    {
      var y, x :| 0 <= y < height && 0 <= x < width && c == grid[y][x];
      assert c.pos == Position(x, y);
      var ps := AdjacentPositions(p, width, height);
      AdjacentPositionsExact(p, c.pos, width, height);
      var i :| 0 <= i < |ps| && ps[i] == c.pos;
      assert AdjacentCells(p)[i] == c;
    }

    /** Different cells of the grid stand at different positions. */
    lemma PositionIdentifiesCell(c: Cell, d: Cell)
      requires Valid() && c in Cells() && d in Cells() && c.pos == d.pos
      ensures c == d
    {
      var y, x :| 0 <= y < |grid| && 0 <= x < |grid[y]| && c == grid[y][x];
      var y', x' :| 0 <= y' < |grid| && 0 <= x' < |grid[y']| && d == grid[y'][x'];
    }

    /** The neighbours stand at pairwise different positions, so they are different cells. */
    lemma AdjacentCellsDistinct(p: Position)
      requires Valid() && InBounds(p, width, height)
      ensures forall i, j :: 0 <= i < j < |AdjacentCells(p)| ==> AdjacentCells(p)[i].pos != AdjacentCells(p)[j].pos
      ensures forall i :: 0 <= i < |AdjacentCells(p)| ==> AdjacentCells(p)[i] in Cells() && AdjacentCells(p)[i].pos != p
    {
      AdjacentPositionsDistinct(p, width, height);
    }
  }
}
