/**
 * The shared part of luxai2021/game/actionable.py.  City tiles and units
 * each carry their own `cooldown` and `currentActions` fields (Dafny
 * classes do not inherit state); what they share is the readiness test.
 */
module Actionables {
  /** `can_act`: an entity may act while its cooldown is below 1. */
  predicate Ready(cooldown: real)
  {
    cooldown < 1.0
  }

  /** The per-turn decay of a city tile's cooldown: a positive cooldown drops by one. */
  function Decayed(cooldown: real): (r: real)
    ensures r <= cooldown
    ensures cooldown > 0.0 ==> r == cooldown - 1.0
    ensures cooldown <= 0.0 ==> r == cooldown
  {
    if cooldown > 0.0 then cooldown - 1.0 else cooldown
  }

  /** The cooldown after `turns` decays. */
  function DecayedTimes(cooldown: real, turns: nat): real
  {
    if turns == 0 then cooldown else DecayedTimes(Decayed(cooldown), turns - 1)
  }

  /**
   * A whole-number cooldown c decays to max(c - turns, 0): it never goes
   * negative, and the entity is ready again after c - 1 turns at most.
   */
  lemma {:induction false} DecayedTimesWhole(c: nat, turns: nat)
    ensures DecayedTimes(c as real, turns) == (if turns >= c then 0 else c - turns) as real
  {
    if turns > 0 {
      if c > 0 {
        assert Decayed(c as real) == (c - 1) as real;
        DecayedTimesWhole(c - 1, turns - 1);
      } else {
        assert Decayed(0.0) == 0.0;
        DecayedTimesWhole(0, turns - 1);
      }
    }
  }

  lemma ReadyAfterDecay(c: nat)
    ensures Ready(DecayedTimes(c as real, c))
  {
    DecayedTimesWhole(c, c);
  }
}
