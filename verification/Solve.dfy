/** Solve of budget/assign.go: component by component, each at its best, with the margin every
    pairing has over the best the batch could do without it. */
module Solving {
  import opened Sums
  import opened Budget
  import opened KuhnMunkres
  import opened Arrangements
  import opened Competition
  import opened Padding

  /** What became of one incoming transaction. */
  datatype Assignment = Assignment(incoming: nat, candidate: Option<Candidate>, margin: Extended, interchangeable: nat)

  function Chosen(out: seq<Assignment>): Pairing {
    seq(|out|, i requires 0 <= i < |out| => out[i].candidate)
  }

  /** The rows offered to one transaction that cannot be told from t. */
  ghost function TwinIds(row: seq<Candidate>, t: Transaction): set<string> {
    set c | c in row && Interchangeable(c.transaction, t) :: c.Id()
  }

  /** Forbids transaction i every row it could not tell from t. */
  ghost function TwinBan(row: seq<Candidate>, i: nat, t: Transaction): Ban {
    set id | id in TwinIds(row, t) :: (i, id)
  }

  /** w is a best arrangement once transaction i is forbidden its row and that row's twins. */
  ghost predicate BestWithout(rows: Rows, noMatch: real, p: Pairing, i: nat, w: Pairing)
    requires |p| == |rows| && i < |p| && p[i].Some?
  {
    IsBest(rows, TwinBan(rows[i], i, p[i].value.transaction), noMatch, w)
  }

  /** The margin is what the batch loses without the pairing, and without its indistinguishable
      alternatives; an unpaired transaction has nothing to lose. */
  ghost predicate MarginIs(rows: Rows, noMatch: real, p: Pairing, i: nat, a: Assignment)
    requires |p| == |rows| && i < |p|
  {
    if p[i].None? then a.margin.Infinite? && a.interchangeable == 0
    else
      && a.interchangeable == |TwinIds(rows[i], p[i].value.transaction)|
      && exists w :: BestWithout(rows, noMatch, p, i, w) && a.margin == Finite(Value(p, noMatch) - Value(w, noMatch))
  }

  /** Everything Solve promises of its result. */
  ghost predicate Solved(rows: Rows, noMatch: real, out: seq<Assignment>) {
    && |out| == |rows|
    && IsBest(rows, {}, noMatch, Chosen(out))
    && forall i :: 0 <= i < |rows| ==>
         out[i].incoming == i && MarginIs(rows, noMatch, Chosen(out), i, out[i])
  }

  // ----- One component -----

  /** The same promises for the members of one component, on their own. */
  ghost predicate GroupSolved(rows: Rows, members: seq<nat>, noMatch: real, out: seq<Assignment>) {
    && |out| == |rows| && Below(members, |rows|)
    && IsBest(Sub(rows, members), {}, noMatch, Restrict(Chosen(out), members))
    && forall k :: 0 <= k < |members| ==>
         && out[members[k]].incoming == members[k]
         && MarginIs(Sub(rows, members), noMatch, Restrict(Chosen(out), members), k, out[members[k]])
  }

  lemma GroupUnchanged(rows: Rows, members: seq<nat>, noMatch: real, out: seq<Assignment>, out': seq<Assignment>)
    requires GroupSolved(rows, members, noMatch, out) && |out'| == |out|
    requires forall k :: 0 <= k < |members| ==> out'[members[k]] == out[members[k]]
    ensures GroupSolved(rows, members, noMatch, out')
  {
    assert Restrict(Chosen(out'), members) == Restrict(Chosen(out), members);
  }

  method ColumnsFor(rows: Rows, members: seq<nat>) returns (cols: seq<Candidate>, colOf: map<string, nat>)
    requires Below(members, |rows|)
    ensures Columns(rows, members, cols, colOf)
  {
    cols, colOf := [], map[];
    var k := 0;
    while k < |members|
      invariant k <= |members|
      invariant Columns(rows, members[..k], cols, colOf)
    {
      var row, j := rows[members[k]], 0;
      while j < |row|
        invariant j <= |row|
        invariant Columns(rows, members[..k], cols, colOf)
        invariant forall t :: 0 <= t < j ==> row[t].Id() in colOf
      {
        if row[j].Id() !in colOf {
          colOf := colOf[row[j].Id() := |cols|];
          cols := cols + [row[j]];
        }
        j := j + 1;
      }
      k := k + 1;
    }
    assert members[..k] == members;
  }

  lemma {:induction false} ImageSize(ids: set<string>, f: map<string, nat>)
    requires ids <= f.Keys
    requires forall a, b :: a in ids && b in ids && f[a] == f[b] ==> a == b
    ensures |set id | id in ids :: f[id]| == |ids|
    decreases ids
  {
    if ids != {} {
      var x :| x in ids;
      ImageSize(ids - {x}, f);
      assert (set id | id in ids :: f[id]) == (set id | id in ids - {x} :: f[id]) + {f[x]};
    }
  }

  /** The columns of every candidate of row that cannot be told from t. */
  method BannedColumns(row: seq<Candidate>, t: Transaction, colOf: map<string, nat>) returns (banned: set<nat>)
    requires forall j :: 0 <= j < |row| ==> row[j].Id() in colOf
    requires forall a, b :: a in colOf && b in colOf && colOf[a] == colOf[b] ==> a == b
    ensures banned == set id | id in TwinIds(row, t) :: colOf[id]
    ensures |banned| == |TwinIds(row, t)|
  {
    banned := {};
    var j := 0;
    while j < |row|
      invariant j <= |row|
      invariant banned == set id | id in TwinIds(row[..j], t) :: colOf[id]
    {
      assert row[..j + 1] == row[..j] + [row[j]];
      assert TwinIds(row[..j + 1], t)
          == TwinIds(row[..j], t) + if Interchangeable(row[j].transaction, t) then {row[j].Id()} else {};
      if Interchangeable(row[j].transaction, t) {
        banned := banned + {colOf[row[j].Id()]};
      }
      j := j + 1;
    }
    assert row[..j] == row;
    ImageSize(TwinIds(row, t), colOf);
  }

  lemma BannedIsTwinBan(sub: Rows, cols: seq<Candidate>, colOf: map<string, nat>, noMatch: real, k: nat, t: Transaction)
    requires k < |sub|
    requires forall c :: 0 <= c < |cols| ==> cols[c].Id() in colOf && colOf[cols[c].Id()] == c
    requires forall id :: id in colOf ==> colOf[id] < |cols| && cols[colOf[id]].Id() == id
    requires forall j :: 0 <= j < |sub[k]| ==> sub[k][j].Id() in colOf
    ensures var banned := set id | id in TwinIds(sub[k], t) :: colOf[id];
            BanOf(Problem(sub, cols, noMatch, k, banned)) == TwinBan(sub[k], k, t)
  {
    var banned := set id | id in TwinIds(sub[k], t) :: colOf[id];
    var pr := Problem(sub, cols, noMatch, k, banned);
    forall e | e in TwinBan(sub[k], k, t) ensures e in BanOf(pr) {
      var c := colOf[e.1];
      assert pr.Banned(k, c) && e == (k, cols[c].Id());
    }
    forall e | e in BanOf(pr) ensures e in TwinBan(sub[k], k, t) {
      var c: nat :| c < |cols| && pr.Banned(k, c) && e == (k, cols[c].Id());
    }
  }

  /** The margin of member k, whose component is arranged as best: the same component once more,
      with every edge to a row its own cannot be told from forbidden. */
  method MarginOf(rows: Rows, members: seq<nat>, cols: seq<Candidate>, colOf: map<string, nat>, noMatch: real,
                  best: Pairing, total: real, k: nat) returns (a: Assignment)
    requires Columns(rows, members, cols, colOf) && AllDistinctIds(rows) && Dominated(rows, noMatch)
    requires |best| == |members| && k < |members| && total == Value(best, noMatch)
    ensures a.incoming == members[k] && a.candidate == best[k]
    ensures MarginIs(Sub(rows, members), noMatch, best, k, a)
  {
    var i := members[k];
    match best[k] {
      case None =>
        a := Assignment(i, None, Infinite, 0);
      case Some(chosen) =>
        var banned := BannedColumns(rows[i], chosen.transaction, colOf);
        BannedIsTwinBan(Sub(rows, members), cols, colOf, noMatch, k, chosen.transaction);
        var w, without := Arrange(rows, members, cols, colOf, noMatch, k, banned);
        assert BestWithout(Sub(rows, members), noMatch, best, k, w);
        a := Assignment(i, best[k], Finite(total - without), |banned|);
    }
  }

  /** With no row on offer there is one arrangement: nothing paired. */
  lemma NothingOffered(sub: Rows, noMatch: real, p: Pairing)
    requires |p| == |sub|
    requires forall k :: 0 <= k < |sub| ==> sub[k] == [] && p[k].None?
    ensures IsBest(sub, {}, noMatch, p)
  {
    forall other: Pairing | Valid(sub, {}, other) ensures other == p {
      forall k | 0 <= k < |sub| ensures other[k].None? {
      }
    }
  }

  lemma OfferedHasColumn(rows: Rows, members: seq<nat>, cols: seq<Candidate>, colOf: map<string, nat>, k: nat)
    requires Columns(rows, members, cols, colOf) && k < |members|
    ensures rows[members[k]] != [] ==> cols != []
  {
    if rows[members[k]] != [] {
      assert rows[members[k]][0].Id() in colOf;
    }
  }

  /** Writes each member's assignment, margins and all, into the result. */
  method Settle(rows: Rows, members: seq<nat>, cols: seq<Candidate>, colOf: map<string, nat>, noMatch: real,
                best: Pairing, total: real, out: array<Assignment>)
    requires Columns(rows, members, cols, colOf) && AllDistinctIds(rows) && Dominated(rows, noMatch)
    requires Distinct(members) && out.Length == |rows| && |best| == |members| && total == Value(best, noMatch)
    requires IsBest(Sub(rows, members), {}, noMatch, best)
    modifies out
    ensures GroupSolved(rows, members, noMatch, out[..])
    ensures forall i :: 0 <= i < |rows| && i !in members ==> out[i] == old(out[i])
  {
    var k := 0;
    while k < |members|
      invariant k <= |members|
      invariant forall t :: 0 <= t < k ==>
                  && out[members[t]].incoming == members[t] && out[members[t]].candidate == best[t]
                  && MarginIs(Sub(rows, members), noMatch, best, t, out[members[t]])
      invariant forall i :: 0 <= i < |rows| && i !in members ==> out[i] == old(out[i])
    {
      var a := MarginOf(rows, members, cols, colOf, noMatch, best, total, k);
      out[members[k]] := a;
      k := k + 1;
    }
    assert Restrict(Chosen(out[..]), members) == best;
  }

  method SolveComponent(rows: Rows, members: seq<nat>, noMatch: real, out: array<Assignment>)
    requires Below(members, |rows|) && Distinct(members) && out.Length == |rows|
    requires AllDistinctIds(rows) && Dominated(rows, noMatch)
    modifies out
    ensures GroupSolved(rows, members, noMatch, out[..])
    ensures forall i :: 0 <= i < |rows| && i !in members ==> out[i] == old(out[i])
  {
    var cols, colOf := ColumnsFor(rows, members);
    var best: Pairing, total;
    if |cols| == 0 {
      best, total := Unpaired(|members|), Value(Unpaired(|members|), noMatch);
      forall k | 0 <= k < |members| ensures Sub(rows, members)[k] == [] {
        OfferedHasColumn(rows, members, cols, colOf, k);
      }
      NothingOffered(Sub(rows, members), noMatch, best);
    } else {
      best, total := Arrange(rows, members, cols, colOf, noMatch, -1, {});
      assert BanOf(Problem(Sub(rows, members), cols, noMatch, -1, {})) == {};
    }
    Settle(rows, members, cols, colOf, noMatch, best, total, out);
  }

  function Unpaired(n: nat): (p: Pairing) {
    seq(n, _ => None)
  }

  // ----- From components to the batch -----

  /** p with the members' pairings replaced by w. */
  ghost function Splice(p: Pairing, members: seq<nat>, w: Pairing): Pairing
    requires |w| == |members|
  {
    seq(|p|, x requires 0 <= x < |p| => if x in members then w[IndexOf(members, x)] else p[x])
  }

  ghost function IndexOf(members: seq<nat>, x: nat): (k: nat)
    requires x in members
    ensures k < |members| && members[k] == x
  {
    var k :| 0 <= k < |members| && members[k] == x;
    k
  }

  lemma GroupsDisjoint(groups: seq<seq<nat>>, groupOf: seq<nat>, x: nat, s: nat, t: nat)
    requires Grouping(groups, groupOf) && s < |groups| && t < |groups| && s != t && x in groups[s]
    ensures x !in groups[t]
  {
    assert forall r, k :: 0 <= r < |groups| && 0 <= k < |groups[r]| && groups[r][k] == x ==> groupOf[x] == r;
  }

  lemma SpliceRestricts(p: Pairing, groups: seq<seq<nat>>, groupOf: seq<nat>, t: nat, w: Pairing)
    requires Grouping(groups, groupOf) && |p| == |groupOf| && t < |groups| && |w| == |groups[t]|
    ensures Restrict(Splice(p, groups[t], w), groups[t]) == w
    ensures forall s :: 0 <= s < |groups| && s != t ==> Restrict(Splice(p, groups[t], w), groups[s]) == Restrict(p, groups[s])
  {
    var g := groups[t];
    forall k | 0 <= k < |g| ensures Splice(p, g, w)[g[k]] == w[k] {
      assert g[IndexOf(g, g[k])] == g[k];
    }
    forall s | 0 <= s < |groups| && s != t ensures Restrict(Splice(p, g, w), groups[s]) == Restrict(p, groups[s]) {
      forall k | 0 <= k < |groups[s]| ensures groups[s][k] !in g {
        GroupsDisjoint(groups, groupOf, groups[s][k], s, t);
      }
    }
  }

  lemma TwinBanInGroup(rows: Rows, members: seq<nat>, k: nat, t: Transaction)
    requires Below(members, |rows|) && Distinct(members) && k < |members|
    ensures BanOn(TwinBan(rows[members[k]], members[k], t), members) == TwinBan(Sub(rows, members)[k], k, t)
  {
    var ban := TwinBan(rows[members[k]], members[k], t);
    forall e | e in TwinBan(Sub(rows, members)[k], k, t) ensures e in BanOn(ban, members) {
      BanOnHas(ban, members, k, e.1);
    }
    forall e | e in BanOn(ban, members) ensures e in TwinBan(Sub(rows, members)[k], k, t) {
      BanOnHas(ban, members, e.0, e.1);
    }
  }

  lemma TwinBanElsewhere(rows: Rows, members: seq<nat>, i: nat, t: Transaction)
    requires i < |rows| && i !in members
    ensures BanOn(TwinBan(rows[i], i, t), members) == {}
  {
  }

  /** An alternative that is best under the ban shows the margin. */
  lemma MarginShown(rows: Rows, noMatch: real, p: Pairing, i: nat, a: Assignment, w: Pairing)
    requires |p| == |rows| && i < |p| && p[i].Some? && BestWithout(rows, noMatch, p, i, w)
    requires a.margin == Finite(Value(p, noMatch) - Value(w, noMatch))
    requires a.interchangeable == |TwinIds(rows[i], p[i].value.transaction)|
    ensures MarginIs(rows, noMatch, p, i, a)
  {
  }

  /** An alternative for one group, with the other groups left as they are, is best under the ban. */
  lemma SpliceBest(rows: Rows, noMatch: real, groups: seq<seq<nat>>, groupOf: seq<nat>, out: seq<Assignment>, i: nat, k: nat, w: Pairing)
    requires Grouping(groups, groupOf) && Separated(rows, groupOf) && |out| == |rows| && i < |rows| && Chosen(out)[i].Some?
    requires forall t :: 0 <= t < |groups| ==> GroupSolved(rows, groups[t], noMatch, out)
    requires var g := groups[groupOf[i]];
             && k < |g| && g[k] == i && Below(g, |rows|) && Restrict(Chosen(out), g)[k] == Chosen(out)[i]
             && BestWithout(Sub(rows, g), noMatch, Restrict(Chosen(out), g), k, w)
    ensures BestWithout(rows, noMatch, Chosen(out), i, Splice(Chosen(out), groups[groupOf[i]], w))
  {
    var p, t := Chosen(out), groupOf[i];
    var g, chosen := groups[t], p[i].value.transaction;
    var whole, ban := Splice(p, g, w), TwinBan(rows[i], i, chosen);
    SpliceRestricts(p, groups, groupOf, t, w);
    TwinBanInGroup(rows, g, k, chosen);
    forall s | 0 <= s < |groups| ensures BestOn(rows, ban, noMatch, whole, groups[s]) {
      if s != t {
        GroupsDisjoint(groups, groupOf, i, t, s);
        TwinBanElsewhere(rows, groups[s], i, chosen);
        assert Restrict(whole, groups[s]) == Restrict(p, groups[s]);
        assert GroupSolved(rows, groups[s], noMatch, out);
      }
    }
    BestByGroups(rows, ban, noMatch, groups, groupOf, whole);
  }

  lemma MarginFound(rows: Rows, noMatch: real, p: Pairing, i: nat, a: Assignment) returns (w: Pairing)
    requires |p| == |rows| && i < |p| && p[i].Some? && MarginIs(rows, noMatch, p, i, a)
    ensures BestWithout(rows, noMatch, p, i, w) && a.margin == Finite(Value(p, noMatch) - Value(w, noMatch))
    ensures a.interchangeable == |TwinIds(rows[i], p[i].value.transaction)| && |w| == |rows|
  {
    w :| BestWithout(rows, noMatch, p, i, w) && a.margin == Finite(Value(p, noMatch) - Value(w, noMatch));
  }

  /** What solving the groups says about transaction i, at its place in its group. */
  lemma GroupMargin(rows: Rows, noMatch: real, groups: seq<seq<nat>>, groupOf: seq<nat>, out: seq<Assignment>, i: nat) returns (k: nat)
    requires Grouping(groups, groupOf) && |out| == |rows| == |groupOf| && i < |rows|
    requires forall t :: 0 <= t < |groups| ==> GroupSolved(rows, groups[t], noMatch, out)
    ensures groupOf[i] < |groups|
    ensures var g := groups[groupOf[i]];
            && k < |g| && g[k] == i && Below(g, |rows|)
            && Restrict(Chosen(out), g)[k] == Chosen(out)[i] && Sub(rows, g)[k] == rows[i] && out[i].incoming == i
            && MarginIs(Sub(rows, g), noMatch, Restrict(Chosen(out), g), k, out[i])
  {
    hide MarginIs;
    k := IndexOf(groups[groupOf[i]], i);
    assert GroupSolved(rows, groups[groupOf[i]], noMatch, out);
  }

  lemma UnpairedMargin(rows: Rows, noMatch: real, p: Pairing, i: nat, rows': Rows, p': Pairing, i': nat, a: Assignment)
    requires |p| == |rows| && i < |p| && |p'| == |rows'| && i' < |p'| && p[i].None? && p'[i'].None?
    requires MarginIs(rows', noMatch, p', i', a)
    ensures MarginIs(rows, noMatch, p, i, a)
  {
  }

  /** The margin found inside a component is the margin of the whole batch. */
  lemma LiftMargin(rows: Rows, noMatch: real, groups: seq<seq<nat>>, groupOf: seq<nat>, out: seq<Assignment>, i: nat)
    requires Grouping(groups, groupOf) && Separated(rows, groupOf) && |out| == |rows| && i < |rows|
    requires forall t :: 0 <= t < |groups| ==> GroupSolved(rows, groups[t], noMatch, out)
    ensures out[i].incoming == i && MarginIs(rows, noMatch, Chosen(out), i, out[i])
  {
    hide Grouping, MarginIs, GroupSolved, BestWithout, Splice, Value, TwinIds;
    var k := GroupMargin(rows, noMatch, groups, groupOf, out, i);
    var p, t := Chosen(out), groupOf[i];
    var g := groups[t];
    if p[i].Some? {
      var w := MarginFound(Sub(rows, g), noMatch, Restrict(p, g), k, out[i]);
      SpliceBest(rows, noMatch, groups, groupOf, out, i, k, w);
      SpliceValue(p, noMatch, groups, groupOf, t, w);
      MarginShown(rows, noMatch, p, i, out[i], Splice(p, g, w));
    } else {
      UnpairedMargin(rows, noMatch, p, i, Sub(rows, g), Restrict(p, g), k, out[i]);
    }
  }

  lemma SpliceValue(p: Pairing, noMatch: real, groups: seq<seq<nat>>, groupOf: seq<nat>, t: nat, w: Pairing)
    requires Grouping(groups, groupOf) && |p| == |groupOf| && t < |groups| && |w| == |groups[t]|
    ensures Value(p, noMatch) - Value(Splice(p, groups[t], w), noMatch)
         == Value(Restrict(p, groups[t]), noMatch) - Value(w, noMatch)
  {
    var whole := Splice(p, groups[t], w);
    SpliceRestricts(p, groups, groupOf, t, w);
    ValueByGroups(p, noMatch, groups, groupOf);
    ValueByGroups(whole, noMatch, groups, groupOf);
    forall s | 0 <= s < |groups|
      ensures Sum(GainAt(p, noMatch), groups[s]) == Value(Restrict(p, groups[s]), noMatch)
      ensures Sum(GainAt(whole, noMatch), groups[s]) == Value(Restrict(whole, groups[s]), noMatch)
    {
      RestrictValue(p, noMatch, groups[s]);
      RestrictValue(whole, noMatch, groups[s]);
    }
    SumGroupsDiffer(GainAt(p, noMatch), GainAt(whole, noMatch), groups, t);
  }

  lemma LiftBest(rows: Rows, noMatch: real, groups: seq<seq<nat>>, groupOf: seq<nat>, out: seq<Assignment>)
    requires Grouping(groups, groupOf) && Separated(rows, groupOf) && |out| == |rows|
    requires forall t :: 0 <= t < |groups| ==> GroupSolved(rows, groups[t], noMatch, out)
    ensures IsBest(rows, {}, noMatch, Chosen(out))
  {
    forall t | 0 <= t < |groups| ensures BestOn(rows, {}, noMatch, Chosen(out), groups[t]) {
      assert GroupSolved(rows, groups[t], noMatch, out);
      assert BanOn({}, groups[t]) == {};
    }
    BestByGroups(rows, {}, noMatch, groups, groupOf, Chosen(out));
  }

  lemma EarlierGroupsKept(rows: Rows, noMatch: real, groups: seq<seq<nat>>, groupOf: seq<nat>,
                          out: seq<Assignment>, out': seq<Assignment>, t: nat)
    requires Grouping(groups, groupOf) && |out| == |out'| == |rows| == |groupOf| && t < |groups|
    requires forall s :: 0 <= s < t ==> GroupSolved(rows, groups[s], noMatch, out)
    requires forall i :: 0 <= i < |rows| && i !in groups[t] ==> out'[i] == out[i]
    ensures forall s :: 0 <= s < t ==> GroupSolved(rows, groups[s], noMatch, out')
  {
    forall s | 0 <= s < t ensures GroupSolved(rows, groups[s], noMatch, out') {
      assert GroupSolved(rows, groups[s], noMatch, out);
      forall k | 0 <= k < |groups[s]| ensures out'[groups[s][k]] == out[groups[s][k]] {
        GroupsDisjoint(groups, groupOf, groups[s][k], s, t);
      }
      GroupUnchanged(rows, groups[s], noMatch, out, out');
    }
  }

  /** Arranges the whole batch at maximum total evidence, one row to at most one transaction. */
  method Solve(rows: Rows, noMatch: real) returns (result: seq<Assignment>)
    requires AllDistinctIds(rows) && Dominated(rows, noMatch)
    ensures Solved(rows, noMatch, result)
  {
    var out := new Assignment[|rows|](i => Assignment(i, None, Infinite, 0));
    var groups, groupOf := Components(rows);
    var t := 0;
    while t < |groups|
      invariant t <= |groups|
      invariant forall s :: 0 <= s < t ==> GroupSolved(rows, groups[s], noMatch, out[..])
    {
      ghost var before := out[..];
      SolveComponent(rows, groups[t], noMatch, out);
      EarlierGroupsKept(rows, noMatch, groups, groupOf, before, out[..], t);
      t := t + 1;
    }
    result := out[..];
    LiftBest(rows, noMatch, groups, groupOf, result);
    forall i | 0 <= i < |rows| ensures result[i].incoming == i && MarginIs(rows, noMatch, Chosen(result), i, result[i]) {
      LiftMargin(rows, noMatch, groups, groupOf, result, i);
    }
  }

  // ----- What a solved batch means for one transaction -----

  /** Forbidding edges cannot help; unpairing stays possible. So a margin is never negative and
      never exceeds what the pairing is worth over leaving the transaction unpaired. */
  lemma MarginBounds(rows: Rows, noMatch: real, out: seq<Assignment>, i: nat)
    requires Solved(rows, noMatch, out) && i < |rows| && out[i].candidate.Some?
    ensures out[i].margin.Finite?
    ensures 0.0 <= out[i].margin.value <= out[i].candidate.value.weight - noMatch
    ensures out[i].interchangeable >= 1
  {
    var p := Chosen(out);
    assert MarginIs(rows, noMatch, p, i, out[i]);
    var chosen := p[i].value;
    var w: Pairing :| BestWithout(rows, noMatch, p, i, w) && out[i].margin == Finite(Value(p, noMatch) - Value(w, noMatch));
    assert Valid(rows, {}, w);
    var ban := TwinBan(rows[i], i, chosen.transaction);
    UnpairValid(rows, {}, p, i);
    forall k | 0 <= k < |p| && p[i := None][k].Some? ensures (k, p[k].value.Id()) !in ban {
    }
    assert Valid(rows, ban, p[i := None]);
    ValueUpdate(p, noMatch, i, None);
    assert chosen.Id() in TwinIds(rows[i], chosen.transaction);
    assert |TwinIds(rows[i], chosen.transaction)| != 0;
  }

  lemma TwinHas(row: seq<Candidate>, i: nat, c: Candidate, t: Transaction)
    requires c in row
    ensures Interchangeable(c.transaction, t) ==> (i, c.Id()) in TwinBan(row, i, t)
  {
    if Interchangeable(c.transaction, t) {
      assert c.Id() in TwinIds(row, t);
    }
  }

  lemma TwinOfDistinct(row: seq<Candidate>, t: Transaction, c: Candidate)
    requires DistinctIds(row) && c in row && c.Id() in TwinIds(row, t)
    ensures Interchangeable(c.transaction, t)
  {
    var d :| d in row && Interchangeable(d.transaction, t) && d.Id() == c.Id();
    var a :| 0 <= a < |row| && row[a] == c;
    var b :| 0 <= b < |row| && row[b] == d;
    assert a == b;
  }

  // ----- The margin in the terms of a person looking at the budget -----

  /** The margin is what the batch loses by any arrangement that leaves the transaction unpaired or
      gives it a row of another figure, day, name or state: no such arrangement loses less, and some
      loses just that. The number beside it counts the offered rows that look the same. */
  lemma MarginIsWhatIsSeen(rows: Rows, noMatch: real, out: seq<Assignment>, i: nat)
    requires AllDistinctIds(rows) && Solved(rows, noMatch, out) && i < |rows| && out[i].candidate.Some?
    ensures out[i].margin.Finite?
    ensures var t := out[i].candidate.value.transaction;
            forall w: Pairing ::
              Valid(rows, {}, w) && (w[i].Some? ==>
                                    (var x := w[i].value.transaction;
                                     x.amountCents != t.amountCents || x.date != t.date || x.payeeName != t.payeeName
                                     || x.cleared != t.cleared || x.provisional != t.provisional))
              ==> Value(w, noMatch) <= Value(Chosen(out), noMatch) - out[i].margin.value
    ensures var t := out[i].candidate.value.transaction;
            exists w: Pairing ::
              && Valid(rows, {}, w) && (w[i].Some? ==>
                                       (var x := w[i].value.transaction;
                                        x.amountCents != t.amountCents || x.date != t.date || x.payeeName != t.payeeName
                                        || x.cleared != t.cleared || x.provisional != t.provisional))
              && Value(w, noMatch) == Value(Chosen(out), noMatch) - out[i].margin.value
    ensures var t := out[i].candidate.value.transaction;
            out[i].interchangeable
            == |set c | c in rows[i] && c.transaction.amountCents == t.amountCents && c.transaction.date == t.date
                && c.transaction.payeeName == t.payeeName && c.transaction.cleared == t.cleared
                && c.transaction.provisional == t.provisional :: c.Id()|
  {
    var p := Chosen(out);
    assert MarginIs(rows, noMatch, p, i, out[i]);
    var w := MarginFound(rows, noMatch, p, i, out[i]);
    var t := p[i].value.transaction;
    var ban := TwinBan(rows[i], i, t);
    assert Valid(rows, {}, w);
    if w[i].Some? {
      TwinHas(rows[i], i, w[i].value, t);
    }
    forall z: Pairing | Valid(rows, {}, z) && (z[i].Some? ==> !Interchangeable(z[i].value.transaction, t))
      ensures Value(z, noMatch) <= Value(w, noMatch)
    {
      if z[i].Some? && (i, z[i].value.Id()) in ban {
        assert DistinctIds(rows[i]);
        TwinOfDistinct(rows[i], t, z[i].value);
      }
      assert Valid(rows, ban, z);
    }
    assert TwinIds(rows[i], t)
        == set c | c in rows[i] && c.transaction.amountCents == t.amountCents && c.transaction.date == t.date
                && c.transaction.payeeName == t.payeeName && c.transaction.cleared == t.cleared
                && c.transaction.provisional == t.provisional :: c.Id();
  }

  /** A margin of zero means the batch had a free choice between rows that leave different
      budgets, and only then. */
  lemma ZeroMarginIsFreeChoice(rows: Rows, noMatch: real, out: seq<Assignment>, i: nat)
    requires AllDistinctIds(rows) && Solved(rows, noMatch, out) && i < |rows| && out[i].candidate.Some?
    ensures var t := out[i].candidate.value.transaction;
            out[i].margin == Finite(0.0) <==>
            exists w: Pairing ::
              IsBest(rows, {}, noMatch, w) && (w[i].Some? ==>
                                              (var x := w[i].value.transaction;
                                               x.amountCents != t.amountCents || x.date != t.date || x.payeeName != t.payeeName
                                               || x.cleared != t.cleared || x.provisional != t.provisional))
  {
    var p, t := Chosen(out), out[i].candidate.value.transaction;
    MarginIsWhatIsSeen(rows, noMatch, out, i);
    MarginBounds(rows, noMatch, out, i);
    if out[i].margin == Finite(0.0) {
      var w: Pairing :|
        && Valid(rows, {}, w) && (w[i].Some? ==>
                                 (var x := w[i].value.transaction;
                                  x.amountCents != t.amountCents || x.date != t.date || x.payeeName != t.payeeName
                                  || x.cleared != t.cleared || x.provisional != t.provisional))
        && Value(w, noMatch) == Value(p, noMatch);
      assert IsBest(rows, {}, noMatch, w);
    }
    forall w: Pairing | IsBest(rows, {}, noMatch, w) ensures Valid(rows, {}, w) && Value(w, noMatch) == Value(p, noMatch) {
    }
  }
}
