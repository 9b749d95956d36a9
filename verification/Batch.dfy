/** Picking the rows of one batch, `orderBy createdAt, take limit`, and the filter used to count outcomes. */
module Batch {
  import opened Common

  ghost predicate Oldest(created: map<nat, int>, chosen: seq<nat>, eligible: set<nat>, limit: nat)
    requires eligible <= created.Keys
  {
    && Distinct(chosen)
    && (forall i :: 0 <= i < |chosen| ==> chosen[i] in eligible)
    && |chosen| == (if |eligible| < limit then |eligible| else limit)
    && (forall i, j :: 0 <= i < j < |chosen| ==> created[chosen[i]] <= created[chosen[j]])
    && (forall i, u :: 0 <= i < |chosen| && u in eligible && u !in chosen ==> created[chosen[i]] <= created[u])
  }

  /** A selection by repeated minimum. */
  method TakeOldest(created: map<nat, int>, eligible: set<nat>, limit: nat) returns (chosen: seq<nat>)
    requires eligible <= created.Keys
    ensures Oldest(created, chosen, eligible, limit)
  {
    chosen := [];
    var rest := eligible;
    while rest != {} && |chosen| < limit
      invariant rest <= eligible && |chosen| <= limit
      invariant Distinct(chosen)
      invariant forall i :: 0 <= i < |chosen| ==> chosen[i] in eligible && chosen[i] !in rest
      invariant |chosen| + |rest| == |eligible|
      invariant forall u :: u in eligible ==> u in rest || u in chosen
      invariant forall i, j :: 0 <= i < j < |chosen| ==> created[chosen[i]] <= created[chosen[j]]
      invariant forall i, u :: 0 <= i < |chosen| && u in rest ==> created[chosen[i]] <= created[u]
      decreases rest
    {
      var first := EarliestOf(created, rest);
      rest := rest - {first};
      chosen := chosen + [first];
    }
  }

  method EarliestOf(created: map<nat, int>, ids: set<nat>) returns (first: nat)
    requires ids != {} && ids <= created.Keys
    ensures first in ids && forall u :: u in ids ==> created[first] <= created[u]
  {
    first :| first in ids;
    var rest := ids - {first};
    while rest != {}
      invariant rest <= ids && first in ids
      invariant forall u :: u in ids - rest ==> created[first] <= created[u]
      decreases rest
    {
      var u :| u in rest;
      rest := rest - {u};
      if created[u] < created[first] {
        first := u;
      }
    }
  }

  /** As many of the eligible ids as the limit allows, in any order. */
  ghost predicate PartOf(chosen: seq<nat>, eligible: set<nat>, limit: nat) {
    && Distinct(chosen) && (forall i :: 0 <= i < |chosen| ==> chosen[i] in eligible)
    && |chosen| == (if |eligible| < limit then |eligible| else limit)
  }

  method TakeAny(eligible: set<nat>, limit: nat) returns (chosen: seq<nat>)
    ensures PartOf(chosen, eligible, limit)
  {
    chosen := [];
    var rest := eligible;
    while rest != {} && |chosen| < limit
      invariant rest <= eligible && |chosen| <= limit
      invariant Distinct(chosen)
      invariant forall i :: 0 <= i < |chosen| ==> chosen[i] in eligible && chosen[i] !in rest
      invariant |chosen| + |rest| == |eligible|
      decreases rest
    {
      var u :| u in rest;
      rest := rest - {u};
      chosen := chosen + [u];
    }
  }

  /** The members of `ids` in the order of `among`. */
  function Keep(among: seq<nat>, ids: set<nat>): seq<nat> {
    if among == [] then []
    else
      var init := Keep(among[..|among| - 1], ids);
      if among[|among| - 1] in ids then init + [among[|among| - 1]] else init
  }

  lemma KeepSnoc(among: seq<nat>, id: nat, ids: set<nat>)
    ensures Keep(among + [id], ids) == if id in ids then Keep(among, ids) + [id] else Keep(among, ids)
  {
    assert (among + [id])[..|among|] == among;
  }

  function Among(ids: seq<nat>, members: set<nat>): set<nat> {
    set id | id in ids && id in members
  }

  /** Of distinct ids, those kept are as many as there are in both. */
  lemma {:induction false} KeepSize(among: seq<nat>, ids: set<nat>)
    requires Distinct(among)
    ensures forall id :: id in Keep(among, ids) <==> id in Among(among, ids)
    ensures |Keep(among, ids)| == |Among(among, ids)|
  {
    if among == [] {
      assert Among(among, ids) == {};
    } else {
      var init, last := among[..|among| - 1], among[|among| - 1];
      KeepSize(init, ids);
      assert among == init + [last];
      assert Among(among, ids) == Among(init, ids) + (if last in ids then {last} else {});
    }
  }

  lemma KeepDepends(among: seq<nat>, a: set<nat>, b: set<nat>)
    requires forall i :: 0 <= i < |among| ==> (among[i] in a <==> among[i] in b)
    ensures Keep(among, a) == Keep(among, b)
  {
    if among != [] {
      KeepDepends(among[..|among| - 1], a, b);
    }
  }
}
