/**
 * Units of luxai2021/game/unit.py: workers and carts with a cargo of
 * wood, coal and uranium, a cooldown and an action queue; and the two
 * resource-spending rules they share with game_objects.py: paying the
 * night's light upkeep and paying the cost of a new city tile.
 */
module Units {
  import opened Wrappers
  import opened Constants
  import opened Geometry
  import opened Actions
  import opened Actionables
  import opened Text
  import opened Cells
  import opened Maps

  /** `Cargo`: the amounts a unit carries. */
  datatype Cargo = Cargo(wood: nat, coal: nat, uranium: nat)
  {
    function Total(): nat
    {
      wood + coal + uranium
    }

    /** `cargo[rtype]` */
    function Get(r: ResourceType): nat
    {
      match r
      case Wood => wood
      case Coal => coal
      case Uranium => uranium
    }

    function With(r: ResourceType, n: nat): (c: Cargo)
      ensures c.Get(r) == n
      ensures forall s :: s != r ==> c.Get(s) == Get(s)
    {
      match r
      case Wood => this.(wood := n)
      case Coal => this.(coal := n)
      case Uranium => this.(uranium := n)
    }
  }

  const EmptyCargo := Cargo(0, 0, 0)

  /** Free room in a cargo: the type's capacity less what is carried. */
  function CargoSpace(t: UnitType, cargo: Cargo, p: Parameters): int
  {
    p.Capacity(t) - cargo.Total()
  }

  /** Cargo space is capacity − (wood + coal + uranium); it shrinks by exactly what is loaded. */
  lemma CargoSpaceSpec(t: UnitType, cargo: Cargo, r: ResourceType, n: nat, p: Parameters)
    ensures CargoSpace(t, cargo, p) == p.Capacity(t) - (cargo.wood + cargo.coal + cargo.uranium)
    ensures CargoSpace(t, cargo.With(r, cargo.Get(r) + n), p) == CargoSpace(t, cargo, p) - n
  {
    var c := cargo.With(r, cargo.Get(r) + n);
    assert c.Total() == cargo.Total() + n by {
      match r
      case Wood =>
      case Coal =>
      case Uranium =>
    }
  }

  /** The fuel a cargo is worth. */
  function FuelValue(c: Cargo, p: Parameters): int
  {
    c.wood * p.woodFuelRate + c.coal * p.coalFuelRate + c.uranium * p.uraniumFuelRate
  }

  function Min(a: int, b: int): int
  {
    if a <= b then a else b
  }

  /** `math.ceil(a / b)` for a positive divisor. */
  function CeilDiv(a: int, b: int): int
    requires b > 0
  {
    (a + b - 1) / b
  }

  lemma CeilDivSpec(a: int, b: int)
    requires b > 0
    ensures CeilDiv(a, b) * b >= a
    ensures (CeilDiv(a, b) - 1) * b < a
  {
  }

  lemma MulMono(a: int, b: int, k: int)
    requires a <= b && k >= 0
    ensures a * k <= b * k
  {
  }

  /**
   * One stage of `spendFuelToSurvive`: the units of a resource burned
   * toward `need` fuel, min(held, ceil(need / rate)).  The stage covers the
   * need exactly when everything held would, and burns everything held
   * when it does not.
   */
  function Burn(have: nat, need: int, rate: int): (used: nat)
    requires rate > 0 && need >= 0
    ensures used <= have
    ensures need - used * rate <= 0 <==> have * rate >= need
    ensures need - used * rate > 0 ==> used == have
  {
    CeilDivSpec(need, rate);
    var c := CeilDiv(need, rate);
    if have <= c then
      MulMono(have, c, rate);
      assert have < c ==> have * rate <= (c - 1) * rate by {
        if have < c { MulMono(have, c - 1, rate); }
      }
      have
    else
      MulMono(c, have, rate);
      c
  }

  datatype Survival = Survival(survived: bool, cargo: Cargo)

  /**
   * `spendFuelToSurvive` as a function of the cargo: pay `upkeep` fuel
   * from wood, then coal, then uranium, stopping as soon as it is paid.
   */
  function Survive(c: Cargo, upkeep: int, p: Parameters): Survival
    requires p.Valid() && upkeep >= 0
  {
    var w := Burn(c.wood, upkeep, p.woodFuelRate);
    var needAfterWood := upkeep - w * p.woodFuelRate;
    if needAfterWood <= 0 then Survival(true, c.(wood := c.wood - w))
    else
      var k := Burn(c.coal, needAfterWood, p.coalFuelRate);
      var needAfterCoal := needAfterWood - k * p.coalFuelRate;
      if needAfterCoal <= 0 then Survival(true, c.(wood := c.wood - w, coal := c.coal - k))
      else
        var u := Burn(c.uranium, needAfterCoal, p.uraniumFuelRate);
        Survival(needAfterCoal - u * p.uraniumFuelRate <= 0, Cargo(c.wood - w, c.coal - k, c.uranium - u))
  }

  /** A unit survives the night iff its whole cargo is worth at least its upkeep. */
  lemma SurviveIffEnoughFuel(c: Cargo, upkeep: int, p: Parameters)
    requires p.Valid() && upkeep >= 0
    ensures Survive(c, upkeep, p).survived <==> FuelValue(c, p) >= upkeep
  {
  }

  /** A unit that does not survive has burned everything it carried. */
  lemma SurviveFailureEmpties(c: Cargo, upkeep: int, p: Parameters)
    requires p.Valid() && upkeep >= 0
    ensures !Survive(c, upkeep, p).survived ==> Survive(c, upkeep, p).cargo == EmptyCargo
  {
  }

  /**
   * Fuel is taken wood first, then coal, then uranium: no amount grows,
   * coal is touched only once the wood is gone, uranium only once wood
   * and coal are gone, and wood alone covering the upkeep leaves coal and
   * uranium untouched.
   */
  lemma SurviveOrder(c: Cargo, upkeep: int, p: Parameters)
    requires p.Valid() && upkeep >= 0
    ensures var r := Survive(c, upkeep, p).cargo;
      r.wood <= c.wood && r.coal <= c.coal && r.uranium <= c.uranium &&
      (r.coal < c.coal ==> r.wood == 0) &&
      (r.uranium < c.uranium ==> r.wood == 0 && r.coal == 0)
    ensures c.wood * p.woodFuelRate >= upkeep ==>
      Survive(c, upkeep, p).cargo.coal == c.coal && Survive(c, upkeep, p).cargo.uranium == c.uranium
  {
  }

  /** The order `expendResourcesForCity` spends resources in. */
  const BuildOrder: seq<ResourceType> := [Wood, Coal, Uranium]

  /**
   * Pay `remaining` from the resources of `order` in turn: a resource
   * holding more than what remains pays the rest and ends the payment;
   * otherwise it is emptied and the payment continues.
   */
  function PayFrom(c: Cargo, order: seq<ResourceType>, remaining: int): Cargo
    requires remaining >= 0
    decreases |order|
  {
    if order == [] then c
    else
      var r := order[0];
      if c.Get(r) > remaining then c.With(r, c.Get(r) - remaining)
      else PayFrom(c.With(r, 0), order[1..], remaining - c.Get(r))
  }

  /** `expendResourcesForCity` as a function of the cargo. */
  function ExpendedForCity(c: Cargo, cost: int): Cargo
    requires cost >= 0
  {
    PayFrom(c, BuildOrder, cost)
  }

  /**
   * Paying the city cost takes min(wood, cost) wood, then coal up to what
   * is still owed, then uranium up to what is still owed.
   */
  lemma {:induction false} ExpendedForCityClosedForm(c: Cargo, cost: int)
    requires cost >= 0
    ensures var w := Min(c.wood, cost);
      var k := Min(c.coal, cost - w);
      var u := Min(c.uranium, cost - w - k);
      ExpendedForCity(c, cost) == Cargo(c.wood - w, c.coal - k, c.uranium - u)
  {
    var o1 := BuildOrder[1..];
    var o2 := o1[1..];
    assert o1 == [Coal, Uranium] && o2 == [Uranium] && o2[1..] == [];
    if c.wood <= cost {
      var c1 := c.With(Wood, 0);
      assert ExpendedForCity(c, cost) == PayFrom(c1, o1, cost - c.wood);
      if c.coal <= cost - c.wood {
        var c2 := c1.With(Coal, 0);
        assert PayFrom(c1, o1, cost - c.wood) == PayFrom(c2, o2, cost - c.wood - c.coal);
        if c.uranium <= cost - c.wood - c.coal {
          assert PayFrom(c2, o2, cost - c.wood - c.coal) == PayFrom(c2.With(Uranium, 0), [], cost - c.wood - c.coal - c.uranium);
        }
      }
    }
  }

  /**
   * Building a city removes exactly min(total cargo, CITY_BUILD_COST), and
   * resources are spent wood first, then coal, then uranium.
   */
  lemma ExpendedForCitySpec(c: Cargo, cost: int)
    requires cost >= 0
    ensures ExpendedForCity(c, cost).Total() == c.Total() - Min(c.Total(), cost)
    ensures var r := ExpendedForCity(c, cost);
      (r.coal < c.coal ==> r.wood == 0) && (r.uranium < c.uranium ==> r.wood == 0 && r.coal == 0)
  {
    ExpendedForCityClosedForm(c, cost);
  }

  /** The loop of `expendResourcesForCity`, shared by both unit classes. */
  method PayCityCost(cargo: Cargo, cost: int) returns (result: Cargo)
    requires cost >= 0
    ensures result == ExpendedForCity(cargo, cost)
  {
    result := cargo;
    var spentResources := 0;
    for i := 0 to |BuildOrder|
      invariant 0 <= spentResources <= cost
      invariant PayFrom(result, BuildOrder[i..], cost - spentResources) == ExpendedForCity(cargo, cost)
    {
      var r := BuildOrder[i];
      assert BuildOrder[i..][1..] == BuildOrder[i + 1..];
      if spentResources + result.Get(r) > cost {
        var rtypeSpent := cost - spentResources;
        result := result.With(r, result.Get(r) - rtypeSpent);
        break;
      } else {
        spentResources := spentResources + result.Get(r);
        result := result.With(r, 0);
      }
    }
  }

  class Unit {
    const team: Team
    const utype: UnitType
    const configs: Parameters
    /** Set once: the spawning game either keeps the generated id or overrides it. */
    const id: string
    /** Moving is a stub in the engine (`Game.moveUnit` has no body), so nothing reassigns it. */
    const pos: Position
    var cargo: Cargo
    var cooldown: real
    var currentActions: seq<Action>

    /**
     * The id is "u_<idcount>" (the Python concatenates a string and an
     * integer; the evident intent is the decimal text) unless the spawning
     * game supplies a non-empty `unitid`, which replaces it.  The cargo is
     * empty and, as for every actionable, the cooldown is 0 and the queue
     * empty (the Python constructor skips the `Actionable` initialiser).
     */
    constructor(x: int, y: int, utype: UnitType, team: Team, configs: Parameters, idcount: nat, unitid: Option<string>)
      ensures pos == Position(x, y) && this.team == team && this.utype == utype && this.configs == configs
      ensures id == if Given(unitid) then unitid.value else "u_" + NatToString(idcount)
      ensures cargo == EmptyCargo && cooldown == 0.0 && currentActions == []
    {
      pos := Position(x, y);
      this.team := team;
      this.utype := utype;
      this.configs := configs;
      id := if Given(unitid) then unitid.value else "u_" + NatToString(idcount);
      cargo := EmptyCargo;
      cooldown := 0.0;
      currentActions := [];
    }

    function CargoSpaceLeft(): int
      reads this
    {
      CargoSpace(utype, cargo, configs)
    }

    /** LIGHT_UPKEEP of the unit's type (`Worker` and `Cart` each override it). */
    function LightUpkeep(): int
    {
      configs.UnitUpkeep(utype)
    }

    predicate CanAct()
      reads this
    {
      Ready(cooldown)
    }

    /** Whether the unit can build where it stands: no resource there, ready, and enough cargo. */
    predicate CanBuild(m: GameMap)
      requires m.Valid() && InBounds(pos, m.width, m.height)
      reads this, m.GetCellByPos(pos)
    {
      !m.GetCellByPos(pos).HasResource() && CanAct() && cargo.Total() >= configs.cityBuildCost
    }

    /** A unit that can build where it stands pays the whole city cost when it builds. */
    lemma CanBuildPays(m: GameMap)
      requires configs.Valid() && m.Valid() && InBounds(pos, m.width, m.height) && CanBuild(m)
      ensures ExpendedForCity(cargo, configs.cityBuildCost).Total() == cargo.Total() - configs.cityBuildCost
    {
      CanBuildPaysInFull(cargo, configs.cityBuildCost);
    }

    /** Pays the night's upkeep from the cargo; false when it cannot be paid. */
    method SpendFuelToSurvive() returns (survived: bool)
      requires configs.Valid()
      modifies this`cargo
      ensures Survival(survived, cargo) == Survive(old(cargo), LightUpkeep(), configs)
    {
      var fuelNeeded := LightUpkeep();
      var woodNeeded := CeilDiv(fuelNeeded, configs.woodFuelRate);
      var woodUsed := Min(cargo.wood, woodNeeded);
      fuelNeeded := fuelNeeded - woodUsed * configs.woodFuelRate;
      cargo := cargo.(wood := cargo.wood - woodUsed);
      if fuelNeeded <= 0 {
        return true;
      }

      var coalNeeded := CeilDiv(fuelNeeded, configs.coalFuelRate);
      var coalUsed := Min(cargo.coal, coalNeeded);
      fuelNeeded := fuelNeeded - coalUsed * configs.coalFuelRate;
      cargo := cargo.(coal := cargo.coal - coalUsed);
      if fuelNeeded <= 0 {
        return true;
      }

      var uraniumNeeded := CeilDiv(fuelNeeded, configs.uraniumFuelRate);
      var uraniumUsed := Min(cargo.uranium, uraniumNeeded);
      fuelNeeded := fuelNeeded - uraniumUsed * configs.uraniumFuelRate;
      cargo := cargo.(uranium := cargo.uranium - uraniumUsed);
      survived := fuelNeeded <= 0;
    }

    /** `Worker.expendResourcesForCity` (the Python indexes the cargo by resource name). */
    method ExpendResourcesForCity()
      requires utype == Worker && configs.Valid()
      modifies this`cargo
      ensures cargo == ExpendedForCity(old(cargo), configs.cityBuildCost)
    {
      cargo := PayCityCost(cargo, configs.cityBuildCost);
    }

    method GiveAction(action: Action)
      modifies this`currentActions
      ensures currentActions == old(currentActions) + [action]
    {
      currentActions := currentActions + [action];
    }
  }

  /** A unit that can build carries enough to pay the whole cost, and pays it. */
  lemma CanBuildPaysInFull(c: Cargo, cost: int)
    requires 0 <= cost <= c.Total()
    ensures ExpendedForCity(c, cost).Total() == c.Total() - cost
  {
    ExpendedForCitySpec(c, cost);
  }
}
