/**
 * `City` of luxai2021/game/city.py: a team's group of adjacent city
 * tiles, held as the cells they stand on, with a shared fuel store.
 */
module Cities {
  import opened Wrappers
  import opened Constants
  import opened Text
  import opened Cells

  /** Σ count × bonus over the tiles' adjacency counts. */
  function BonusSum(counts: seq<nat>, bonus: int): int
  {
    if counts == [] then 0
    else BonusSum(counts[..|counts| - 1], bonus) + counts[|counts| - 1] * bonus
  }

  /** Light upkeep of a city of `tiles` tiles with the given adjacency counts. */
  function UpkeepOf(tiles: nat, counts: seq<nat>, p: Parameters): int
  {
    tiles * p.cityUpkeep - BonusSum(counts, p.cityAdjacencyBonus)
  }

  /** A tile has at most four neighbours, hence at most four adjacent tiles. */
  predicate CountsBounded(counts: seq<nat>)
  {
    forall i :: 0 <= i < |counts| ==> counts[i] <= 4
  }

  /**
   * With a non-negative bonus and at most four neighbours per tile, the
   * bonus is non-negative and at most `perTile` for each tile, where
   * `perTile` is any bound on four bonuses.
   */
  lemma {:induction false} BonusSumBounds(counts: seq<nat>, bonus: int, perTile: int)
    requires bonus >= 0 && 4 * bonus <= perTile
    requires CountsBounded(counts)
    ensures 0 <= BonusSum(counts, bonus) <= |counts| * perTile
  {
    if counts != [] {
      var init := counts[..|counts| - 1];
      assert CountsBounded(init) by {
        forall i | 0 <= i < |init| ensures init[i] <= 4 { assert init[i] == counts[i]; }
      }
      BonusSumBounds(init, bonus, perTile);
      var last := counts[|counts| - 1];
      assert last * bonus <= 4 * bonus by {
        assert (4 - last) * bonus >= 0;
      }
      assert |counts| * perTile == |init| * perTile + perTile;
    }
  }

  /**
   * The upkeep never exceeds tiles × LIGHT_UPKEEP.CITY, and it is
   * non-negative whenever four adjacency bonuses cost no more than one
   * tile's upkeep.
   */
  lemma UpkeepBounds(tiles: nat, counts: seq<nat>, p: Parameters)
    requires p.Valid() && |counts| == tiles && CountsBounded(counts)
    requires 4 * p.cityAdjacencyBonus <= p.cityUpkeep
    ensures 0 <= UpkeepOf(tiles, counts, p) <= tiles * p.cityUpkeep
  {
    BonusSumBounds(counts, p.cityAdjacencyBonus, p.cityUpkeep);
  }

  predicate AllTiled(cells: seq<Cell>)
    reads cells
  {
    forall i :: 0 <= i < |cells| ==> cells[i].citytile != null
  }

  /** The `adjacentCityTiles` count of the tile on each cell. */
  function AdjacencyCounts(cells: seq<Cell>): (counts: seq<nat>)
    requires AllTiled(cells)
    reads cells, TilesOf(cells)
    ensures |counts| == |cells|
    ensures forall i :: 0 <= i < |cells| ==> counts[i] == cells[i].citytile.adjacentCityTiles
  {
    if cells == [] then []
    else [cells[0].citytile.adjacentCityTiles] + AdjacencyCounts(cells[1..])
  }

  class City {
    const team: Team
    const configs: Parameters
    const id: string
    var fuel: int
    var citycells: seq<Cell>

    /** The id is the given `cityid` when it is a non-empty string, else "c_<idcount>". */
    constructor(team: Team, configs: Parameters, idcount: nat, cityid: Option<string>, fuel: int)
      ensures this.team == team && this.configs == configs
      ensures Given(cityid) ==> id == cityid.value
      ensures !Given(cityid) ==> id == "c_" + NatToString(idcount)
      ensures this.fuel == fuel && citycells == []
    {
      this.team := team;
      this.configs := configs;
      id := if Given(cityid) then cityid.value else "c_" + NatToString(idcount);
      this.fuel := fuel;
      citycells := [];
    }

    predicate Tiled()
      reads this, citycells
    {
      AllTiled(citycells)
    }

    method AdjacencyBonuses() returns (bonus: int)
      requires Tiled()
      ensures bonus == BonusSum(AdjacencyCounts(citycells), configs.cityAdjacencyBonus)
    {
      ghost var counts := AdjacencyCounts(citycells);
      bonus := 0;
      for i := 0 to |citycells|
        invariant bonus == BonusSum(counts[..i], configs.cityAdjacencyBonus)
      {
        assert counts[..i + 1][..i] == counts[..i];
        bonus := bonus + citycells[i].citytile.adjacentCityTiles * configs.cityAdjacencyBonus;
      }
      assert counts[..|citycells|] == counts;
    }

    method LightUpkeep() returns (upkeep: int)
      requires Tiled()
      ensures upkeep == UpkeepOf(|citycells|, AdjacencyCounts(citycells), configs)
    {
      var bonus := AdjacencyBonuses();
      upkeep := |citycells| * configs.cityUpkeep - bonus;
    }

    method AddCityTile(cell: Cell)
      modifies this`citycells
      ensures citycells == old(citycells) + [cell]
      ensures fuel == old(fuel)
    {
      citycells := citycells + [cell];
    }
  }
}
