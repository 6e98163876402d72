/** What an arrangement of a batch is, and what makes one the best: the specification
    budget/assign.go is proved against. */
module Arrangements {
  import opened Sums
  import opened Budget
  import opened KuhnMunkres

  /** For each incoming transaction, the candidates assessed for it. */
  type Rows = seq<seq<Candidate>>

  /** For each incoming transaction, its counterpart, or none. */
  type Pairing = seq<Option<Candidate>>

  /** Forbidden edges: an incoming transaction's index and a row's identifier. */
  type Ban = set<(nat, string)>

  ghost predicate DistinctIds(row: seq<Candidate>) {
    forall a, b :: 0 <= a < b < |row| ==> row[a].Id() != row[b].Id()
  }

  ghost predicate AllDistinctIds(rows: Rows) {
    forall i :: 0 <= i < |rows| ==> DistinctIds(rows[i])
  }

  /** A one-to-one arrangement along offered, unforbidden edges. */
  ghost predicate Valid(rows: Rows, ban: Ban, p: Pairing) {
    && |p| == |rows|
    && (forall i :: 0 <= i < |p| && p[i].Some? ==> p[i].value in rows[i] && (i, p[i].value.Id()) !in ban)
    && (forall i, j :: 0 <= i < j < |p| && p[i].Some? && p[j].Some? ==> p[i].value.Id() != p[j].value.Id())
  }

  function Gain(o: Option<Candidate>, noMatch: real): real {
    if o.Some? then o.value.weight else noMatch
  }

  function GainAt(p: Pairing, noMatch: real): nat -> real {
    (i: nat) => if i < |p| then Gain(p[i], noMatch) else 0.0
  }

  /** The total evidence of an arrangement. */
  function Value(p: Pairing, noMatch: real): real {
    Sum(GainAt(p, noMatch), Range(|p|))
  }

  ghost predicate IsBest(rows: Rows, ban: Ban, noMatch: real, p: Pairing) {
    && Valid(rows, ban, p)
    && forall other :: Valid(rows, ban, other) ==> Value(other, noMatch) <= Value(p, noMatch)
  }

  // ----- Changing one pairing -----

  lemma ValueUpdate(p: Pairing, noMatch: real, i: nat, o: Option<Candidate>)
    requires i < |p|
    ensures Value(p[i := o], noMatch) == Value(p, noMatch) - Gain(p[i], noMatch) + Gain(o, noMatch)
  {
    assert Range(|p|)[i] == i;
    SumUpdate(GainAt(p, noMatch), GainAt(p[i := o], noMatch), Range(|p|), i);
  }

  lemma UnpairValid(rows: Rows, ban: Ban, p: Pairing, i: nat)
    requires Valid(rows, ban, p) && i < |p|
    ensures Valid(rows, ban, p[i := None])
    ensures forall id :: Valid(rows, ban + {(i, id)}, p[i := None])
  {
  }

  /** No best arrangement reaches for a pairing worth less than leaving the transaction unpaired. */
  lemma BestAboveNoMatch(rows: Rows, ban: Ban, noMatch: real, p: Pairing, i: nat)
    requires IsBest(rows, ban, noMatch, p)
    requires i < |p| && p[i].Some?
    ensures p[i].value.weight >= noMatch
  {
    UnpairValid(rows, ban, p, i);
    ValueUpdate(p, noMatch, i, None);
  }

  // ----- Part of a batch -----

  /** The batch made of the listed members only. */
  function Sub(rows: Rows, members: seq<nat>): Rows
    requires Below(members, |rows|)
  {
    seq(|members|, k requires 0 <= k < |members| => rows[members[k]])
  }

  function Restrict(p: Pairing, members: seq<nat>): Pairing
    requires Below(members, |p|)
  {
    seq(|members|, k requires 0 <= k < |members| => p[members[k]])
  }

  ghost function BanOn(ban: Ban, members: seq<nat>): Ban {
    set k: nat, e | k < |members| && e in ban && e.0 == members[k] :: (k, e.1)
  }

  lemma BanOnHas(ban: Ban, members: seq<nat>, k: nat, id: string)
    requires k < |members|
    ensures (k, id) in BanOn(ban, members) <==> (members[k], id) in ban
  {
    if (members[k], id) in ban {
      var e :| e in ban && e == (members[k], id);
      assert (k, e.1) in BanOn(ban, members);
    }
  }

  lemma RestrictValue(p: Pairing, noMatch: real, members: seq<nat>)
    requires Below(members, |p|)
    ensures Value(Restrict(p, members), noMatch) == Sum(GainAt(p, noMatch), members)
  {
    SumVia(GainAt(p, noMatch), members);
    SumExt(GainAt(Restrict(p, members), noMatch), Via(GainAt(p, noMatch), members), Range(|members|));
  }

  lemma RestrictValid(rows: Rows, ban: Ban, p: Pairing, members: seq<nat>)
    requires Valid(rows, ban, p) && Below(members, |rows|) && Distinct(members)
    ensures Valid(Sub(rows, members), BanOn(ban, members), Restrict(p, members))
  {
    var s, b, r := Sub(rows, members), BanOn(ban, members), Restrict(p, members);
    forall k | 0 <= k < |r| && r[k].Some?
      ensures r[k].value in s[k] && (k, r[k].value.Id()) !in b
    {
      assert p[members[k]].Some?;
    }
    forall a, c | 0 <= a < c < |r| && r[a].Some? && r[c].Some?
      ensures r[a].value.Id() != r[c].value.Id()
    {
      assert members[a] != members[c];
      assert p[members[a]].Some? && p[members[c]].Some?;
    }
  }

  // ----- A batch split into groups -----

  /** groups lists, for each index, exactly the transactions mapped to it. */
  ghost predicate Grouping(groups: seq<seq<nat>>, groupOf: seq<nat>) {
    && (forall i :: 0 <= i < |groupOf| ==> groupOf[i] < |groups| && i in groups[groupOf[i]])
    && (forall t :: 0 <= t < |groups| ==> Distinct(groups[t]) && Below(groups[t], |groupOf|))
    && (forall t, k :: 0 <= t < |groups| && 0 <= k < |groups[t]| ==>
          groups[t][k] < |groupOf| && groupOf[groups[t][k]] == t)
  }

  /** Two incoming transactions were offered a row in common. */
  ghost predicate Linked(rows: Rows, i: nat, j: nat)
    requires i < |rows| && j < |rows|
  {
    exists a, b :: 0 <= a < |rows[i]| && 0 <= b < |rows[j]| && rows[i][a].Id() == rows[j][b].Id()
  }

  /** Transactions with a row in common belong to the same group. */
  ghost predicate Separated(rows: Rows, groupOf: seq<nat>) {
    && |groupOf| == |rows|
    && forall i, j :: 0 <= i < |rows| && 0 <= j < |rows| && Linked(rows, i, j) ==> groupOf[i] == groupOf[j]
  }

  function Flatten(groups: seq<seq<nat>>): seq<nat> {
    if groups == [] then [] else Flatten(groups[..|groups| - 1]) + groups[|groups| - 1]
  }

  function SumGroups(f: nat -> real, groups: seq<seq<nat>>): real {
    if groups == [] then 0.0 else SumGroups(f, groups[..|groups| - 1]) + Sum(f, groups[|groups| - 1])
  }

  lemma {:induction false} SumFlatten(f: nat -> real, groups: seq<seq<nat>>)
    ensures Sum(f, Flatten(groups)) == SumGroups(f, groups)
    decreases |groups|
  {
    if groups != [] {
      var init, last := groups[..|groups| - 1], groups[|groups| - 1];
      SumFlatten(f, init);
      SumConcat(f, Flatten(init), last);
    }
  }

  lemma {:induction false} FlattenHas(groups: seq<seq<nat>>, x: nat, t: nat)
    requires t < |groups| && x in groups[t]
    ensures x in Flatten(groups)
    decreases |groups|
  {
    var init := groups[..|groups| - 1];
    if t < |init| {
      FlattenHas(init, x, t);
    }
  }

  lemma {:induction false} FlattenFrom(groups: seq<seq<nat>>, x: nat) returns (t: nat)
    requires x in Flatten(groups)
    ensures t < |groups| && x in groups[t]
    decreases |groups|
  {
    var init := groups[..|groups| - 1];
    if x in groups[|groups| - 1] {
      t := |groups| - 1;
    } else {
      t := FlattenFrom(init, x);
    }
  }

  ghost predicate Labelled(groups: seq<seq<nat>>, groupOf: seq<nat>) {
    forall t, k :: 0 <= t < |groups| && 0 <= k < |groups[t]| ==>
      groups[t][k] < |groupOf| && groupOf[groups[t][k]] == t
  }

  lemma {:induction false} FlattenDistinct(groups: seq<seq<nat>>, groupOf: seq<nat>)
    requires Labelled(groups, groupOf)
    requires forall t :: 0 <= t < |groups| ==> Distinct(groups[t])
    ensures Distinct(Flatten(groups)) && Below(Flatten(groups), |groupOf|)
    decreases |groups|
  {
    if groups != [] {
      var init, last := groups[..|groups| - 1], groups[|groups| - 1];
      var flat := Flatten(init);
      FlattenDistinct(init, groupOf);
      forall i, j | 0 <= i < |flat| && 0 <= j < |last| ensures flat[i] != last[j] {
        var t := FlattenFrom(init, flat[i]);
        var k :| 0 <= k < |init[t]| && init[t][k] == flat[i];
        assert groups[t][k] == flat[i] && groupOf[flat[i]] == t;
        assert groupOf[last[j]] == |groups| - 1;
      }
    }
  }

  lemma FlattenPermutation(groups: seq<seq<nat>>, groupOf: seq<nat>)
    requires Grouping(groups, groupOf)
    ensures IsPermutation(Flatten(groups), |groupOf|)
  {
    var flat := Flatten(groups);
    FlattenDistinct(groups, groupOf);
    Pigeonhole(flat, |groupOf|);
    if |flat| < |groupOf| {
      var x := FreshBelow(flat, |groupOf|);
      FlattenHas(groups, x, groupOf[x]);
      assert false;
    }
  }

  /** The value of a batch is the sum of the values of its groups. */
  lemma ValueByGroups(p: Pairing, noMatch: real, groups: seq<seq<nat>>, groupOf: seq<nat>)
    requires Grouping(groups, groupOf) && |p| == |groupOf|
    ensures Value(p, noMatch) == SumGroups(GainAt(p, noMatch), groups)
  {
    FlattenPermutation(groups, groupOf);
    SumOverPermutation(GainAt(p, noMatch), Flatten(groups), |groupOf|);
    SumFlatten(GainAt(p, noMatch), groups);
  }

  lemma {:induction false} SumGroupsLe(f: nat -> real, g: nat -> real, groups: seq<seq<nat>>)
    requires forall t :: 0 <= t < |groups| ==> Sum(f, groups[t]) <= Sum(g, groups[t])
    ensures SumGroups(f, groups) <= SumGroups(g, groups)
    decreases |groups|
  {
    if groups != [] {
      SumGroupsLe(f, g, groups[..|groups| - 1]);
    }
  }

  /** Sums that agree on every group but one differ by what they differ by there. */
  lemma {:induction false} SumGroupsDiffer(f: nat -> real, g: nat -> real, groups: seq<seq<nat>>, t: nat)
    requires t < |groups|
    requires forall s :: 0 <= s < |groups| && s != t ==> Sum(f, groups[s]) == Sum(g, groups[s])
    ensures SumGroups(f, groups) - SumGroups(g, groups) == Sum(f, groups[t]) - Sum(g, groups[t])
    decreases |groups|
  {
    var init := groups[..|groups| - 1];
    if t == |groups| - 1 {
      SumGroupsLe(f, g, init);
      SumGroupsLe(g, f, init);
    } else {
      SumGroupsDiffer(f, g, init, t);
    }
  }

  ghost predicate BestOn(rows: Rows, ban: Ban, noMatch: real, p: Pairing, members: seq<nat>) {
    && Below(members, |rows|) && |p| == |rows|
    && IsBest(Sub(rows, members), BanOn(ban, members), noMatch, Restrict(p, members))
  }

  /** Where transaction i stands in its group, which is validly arranged. */
  lemma PlaceInGroup(rows: Rows, ban: Ban, noMatch: real, g: seq<nat>, p: Pairing, i: nat) returns (k: nat)
    requires |p| == |rows| && i in g && BestOn(rows, ban, noMatch, p, g)
    ensures Below(g, |rows|) && k < |g| && g[k] == i < |rows| && Restrict(p, g)[k] == p[i] && Sub(rows, g)[k] == rows[i]
    ensures Valid(Sub(rows, g), BanOn(ban, g), Restrict(p, g))
  {
    hide BanOn, Valid;
    k :| 0 <= k < |g| && g[k] == i;
  }

  lemma PairedByGroup(rows: Rows, ban: Ban, noMatch: real, g: seq<nat>, p: Pairing, i: nat)
    requires |p| == |rows| && i in g && i < |p| && BestOn(rows, ban, noMatch, p, g) && p[i].Some?
    ensures p[i].value in rows[i] && (i, p[i].value.Id()) !in ban
  {
    hide BanOn, BestOn;
    var k := PlaceInGroup(rows, ban, noMatch, g, p, i);
    BanOnHas(ban, g, k, p[i].value.Id());
  }

  lemma ApartInGroup(rows: Rows, ban: Ban, noMatch: real, g: seq<nat>, p: Pairing, i: nat, j: nat)
    requires |p| == |rows| && i in g && j in g && i < j < |p| && BestOn(rows, ban, noMatch, p, g) && p[i].Some? && p[j].Some?
    ensures p[i].value.Id() != p[j].value.Id()
  {
    hide BanOn, BestOn;
    var a := PlaceInGroup(rows, ban, noMatch, g, p, i);
    var b := PlaceInGroup(rows, ban, noMatch, g, p, j);
    assert a != b;
  }

  lemma ApartAcross(rows: Rows, groupOf: seq<nat>, i: nat, j: nat, c: Candidate, d: Candidate)
    requires Separated(rows, groupOf) && i < |rows| && j < |rows| && groupOf[i] != groupOf[j] && c in rows[i] && d in rows[j]
    ensures c.Id() != d.Id()
  {
    var a :| 0 <= a < |rows[i]| && rows[i][a] == c;
    var b :| 0 <= b < |rows[j]| && rows[j][b] == d;
    if rows[i][a].Id() == rows[j][b].Id() {
      assert Linked(rows, i, j);
    }
  }

  lemma ValidByGroups(rows: Rows, ban: Ban, noMatch: real, groups: seq<seq<nat>>, groupOf: seq<nat>, p: Pairing)
    requires Grouping(groups, groupOf) && Separated(rows, groupOf) && |p| == |rows|
    requires forall t :: 0 <= t < |groups| ==> BestOn(rows, ban, noMatch, p, groups[t])
    ensures Valid(rows, ban, p)
  {
    hide BestOn, Linked;
    forall i | 0 <= i < |p| && p[i].Some?
      ensures p[i].value in rows[i] && (i, p[i].value.Id()) !in ban
    {
      PairedByGroup(rows, ban, noMatch, groups[groupOf[i]], p, i);
    }
    forall i, j | 0 <= i < j < |p| && p[i].Some? && p[j].Some?
      ensures p[i].value.Id() != p[j].value.Id()
    {
      if groupOf[i] == groupOf[j] {
        ApartInGroup(rows, ban, noMatch, groups[groupOf[i]], p, i, j);
      } else {
        ApartAcross(rows, groupOf, i, j, p[i].value, p[j].value);
      }
    }
  }

  /** Arranging each group at its best arranges the whole batch at its best. */
  lemma BestByGroups(rows: Rows, ban: Ban, noMatch: real, groups: seq<seq<nat>>, groupOf: seq<nat>, p: Pairing)
    requires Grouping(groups, groupOf) && Separated(rows, groupOf) && |p| == |rows|
    requires forall t :: 0 <= t < |groups| ==> BestOn(rows, ban, noMatch, p, groups[t])
    ensures IsBest(rows, ban, noMatch, p)
  {
    ValidByGroups(rows, ban, noMatch, groups, groupOf, p);
    forall other | Valid(rows, ban, other)
      ensures Value(other, noMatch) <= Value(p, noMatch)
    {
      forall t | 0 <= t < |groups|
        ensures Sum(GainAt(other, noMatch), groups[t]) <= Sum(GainAt(p, noMatch), groups[t])
      {
        assert BestOn(rows, ban, noMatch, p, groups[t]);
        RestrictValid(rows, ban, other, groups[t]);
        RestrictValue(other, noMatch, groups[t]);
        RestrictValue(p, noMatch, groups[t]);
      }
      SumGroupsLe(GainAt(other, noMatch), GainAt(p, noMatch), groups);
      ValueByGroups(other, noMatch, groups, groupOf);
      ValueByGroups(p, noMatch, groups, groupOf);
    }
  }
}
