/**
 * Per-team totals over a dictionary keyed by id, the shape of every
 * counting loop over `game.cities` (the unit cap, `matchOver` and
 * `getResults`).  A dictionary's iteration order is not fixed, so a total
 * is defined for any order and shown not to depend on it.
 */
module Tallies {
  import opened Constants

  /** What one entry adds to its team's total. */
  datatype Entry = Entry(team: Team, weight: nat)

  function Share(e: Entry, team: Team): nat
  {
    if e.team == team then e.weight else 0
  }

  /** The sum of the weights of the entries that belong to `team`. */
  ghost function TeamTotal(m: map<string, Entry>, team: Team): nat
    decreases |m.Keys|
  {
    if m == map[] then 0
    else
      var k :| k in m;
      assert (m - {k}).Keys == m.Keys - {k};
      Share(m[k], team) + TeamTotal(m - {k}, team)
  }

  /** The entries whose keys lie in `ks`. */
  function Restrict(m: map<string, Entry>, ks: set<string>): (r: map<string, Entry>)
    ensures r.Keys == m.Keys * ks
    ensures forall k :: k in r ==> r[k] == m[k]
  {
    map k | k in m && k in ks :: m[k]
  }

  /** Taking any one entry out first gives the same total: the total does not depend on the order. */
  lemma {:induction false} TeamTotalRemove(m: map<string, Entry>, k: string, team: Team)
    requires k in m
    ensures TeamTotal(m, team) == Share(m[k], team) + TeamTotal(m - {k}, team)
    decreases |m.Keys|
  {
    var j :| j in m && TeamTotal(m, team) == Share(m[j], team) + TeamTotal(m - {j}, team);
    if j != k {
      assert (m - {j}).Keys == m.Keys - {j};
      assert (m - {k}).Keys == m.Keys - {k};
      TeamTotalRemove(m - {j}, k, team);
      TeamTotalRemove(m - {k}, j, team);
      assert m - {j} - {k} == m - {k} - {j};
    }
  }

  /** A total grows by an entry's share when the entry joins the counted keys. */
  lemma CountStep(m: map<string, Entry>, done: set<string>, k: string, team: Team)
    requires k in m && k !in done
    ensures TeamTotal(Restrict(m, done + {k}), team) == Share(m[k], team) + TeamTotal(Restrict(m, done), team)
  {
    var r := Restrict(m, done + {k});
    TeamTotalRemove(r, k, team);
    assert r - {k} == Restrict(m, done);
  }

  lemma RestrictAll(m: map<string, Entry>)
    ensures Restrict(m, m.Keys) == m
  {
  }

  lemma RestrictNone(m: map<string, Entry>, team: Team)
    ensures TeamTotal(Restrict(m, {}), team) == 0
  {
    assert Restrict(m, {}) == map[];
  }

  /** Every entry of `team` adds its weight: the total is at least any one of them. */
  lemma TeamTotalAtLeast(m: map<string, Entry>, k: string, team: Team)
    requires k in m && m[k].team == team
    ensures TeamTotal(m, team) >= m[k].weight
  {
    TeamTotalRemove(m, k, team);
  }

  /** With no entry of `team`, its total is zero; and conversely when every weight is positive. */
  lemma {:induction false} TeamTotalZero(m: map<string, Entry>, team: Team)
    requires forall k :: k in m ==> m[k].weight > 0
    ensures TeamTotal(m, team) == 0 <==> forall k :: k in m ==> m[k].team != team
    decreases |m.Keys|
  {
    if m != map[] {
      var k :| k in m;
      TeamTotalRemove(m, k, team);
      assert (m - {k}).Keys == m.Keys - {k};
      TeamTotalZero(m - {k}, team);
      assert forall j :: j in m && j != k ==> j in m - {k};
    }
  }

  /**
   * One pass over a dictionary adding each entry's weight to its team's
   * counter, as the loops over `game.cities` do.
   */
  method Tally(m: map<string, Entry>) returns (a: nat, b: nat)
    ensures a == TeamTotal(m, A) && b == TeamTotal(m, B)
  {
    a, b := 0, 0;
    var remaining := m.Keys;
    RestrictNone(m, A);
    RestrictNone(m, B);
    while remaining != {}
      invariant remaining <= m.Keys
      invariant a == TeamTotal(Restrict(m, m.Keys - remaining), A)
      invariant b == TeamTotal(Restrict(m, m.Keys - remaining), B)
      decreases |remaining|
    {
      var k :| k in remaining;
      CountStep(m, m.Keys - remaining, k, A);
      CountStep(m, m.Keys - remaining, k, B);
      if m[k].team == A {
        a := a + m[k].weight;
      } else {
        b := b + m[k].weight;
      }
      assert m.Keys - (remaining - {k}) == (m.Keys - remaining) + {k};
      remaining := remaining - {k};
    }
    assert m.Keys - remaining == m.Keys;
    RestrictAll(m);
  }
}
