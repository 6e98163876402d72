/** arrange of budget/assign.go: one component as a padded square assignment problem, and
    why the padding and the 1e9 sentinel lose nothing. */
module Padding {
  import opened Sums
  import opened Budget
  import opened KuhnMunkres
  import opened Arrangements

  const UNAVAILABLE: real := 1000000000.0

  /** The candidate standing for the row id, if there is one. */
  function Find(row: seq<Candidate>, id: string): Option<Candidate> {
    if row == [] then None
    else if row[|row| - 1].Id() == id then Some(row[|row| - 1])
    else Find(row[..|row| - 1], id)
  }

  lemma {:induction false} FindSpec(row: seq<Candidate>, id: string)
    ensures Find(row, id).Some? ==> Find(row, id).value in row && Find(row, id).value.Id() == id
    ensures Find(row, id).None? ==> forall j :: 0 <= j < |row| ==> row[j].Id() != id
    decreases |row|
  {
    if row != [] {
      FindSpec(row[..|row| - 1], id);
    }
  }

  lemma FindUnique(row: seq<Candidate>, j: nat)
    requires DistinctIds(row) && j < |row|
    ensures Find(row, row[j].Id()) == Some(row[j])
  {
    FindSpec(row, row[j].Id());
    var x := Find(row, row[j].Id());
    var i :| 0 <= i < |row| && row[i] == x.value;
  }

  /** One padded problem: the batch, the rows that have a column, and what is forbidden.
      Column c < |cols| stands for the row cols[c]; column |cols| + k is transaction k's own
      "no counterpart". */
  datatype Problem = Problem(sub: Rows, cols: seq<Candidate>, noMatch: real, banRow: int, banCols: set<nat>)
  {
    function Size(): nat { |cols| + |sub| }

    predicate Banned(k: nat, c: nat) { k == banRow && c in banCols }
  }

  /** What the code requires of its input: identifiers that tell a transaction's candidates
      apart, a column for every candidate, and weights the sentinel dominates. */
  ghost predicate WellPosed(pr: Problem) {
    && AllDistinctIds(pr.sub)
    && DistinctIds(pr.cols)
    && (forall k, a {:trigger pr.sub[k][a]} :: 0 <= k < |pr.sub| && 0 <= a < |pr.sub[k]| ==>
          HasColumn(pr.cols, pr.sub[k][a].Id()) && pr.sub[k][a].weight > -UNAVAILABLE)
    && pr.noMatch > -UNAVAILABLE
  }

  ghost predicate HasColumn(cols: seq<Candidate>, id: string) {
    exists c :: 0 <= c < |cols| && cols[c].Id() == id
  }

  /** The candidate transaction k would be given by column c. */
  function Picked(pr: Problem, k: nat, c: nat): Option<Candidate>
    requires k < |pr.sub|
  {
    if c >= |pr.cols| || pr.Banned(k, c) then None else Find(pr.sub[k], pr.cols[c].Id())
  }

  function Entry(pr: Problem, k: nat, c: nat): real {
    if k >= |pr.sub| then 0.0
    else if c == |pr.cols| + k then -pr.noMatch
    else match Picked(pr, k, c) case Some(x) => -x.weight case None => UNAVAILABLE
  }

  function CostMatrix(pr: Problem): (m: Matrix)
    ensures Square(m, pr.Size())
  {
    seq(pr.Size(), k requires 0 <= k < pr.Size() =>
      seq(pr.Size(), c requires 0 <= c < pr.Size() => Entry(pr, k, c)))
  }

  /** The arrangement a permutation of the columns stands for. */
  function Read(pr: Problem, q: seq<nat>): Pairing
    requires |q| == pr.Size()
  {
    seq(|pr.sub|, k requires 0 <= k < |pr.sub| => Picked(pr, k, q[k]))
  }

  ghost function BanOf(pr: Problem): Ban {
    set k: nat, c: nat | k < |pr.sub| && c < |pr.cols| && pr.Banned(k, c) :: (k, pr.cols[c].Id())
  }

  lemma BanOfHas(pr: Problem, k: nat, c: nat)
    requires DistinctIds(pr.cols) && k < |pr.sub| && c < |pr.cols|
    ensures (k, pr.cols[c].Id()) in BanOf(pr) <==> pr.Banned(k, c)
  {
    if (k, pr.cols[c].Id()) in BanOf(pr) {
      var d :| 0 <= d < |pr.cols| && pr.Banned(k, d) && pr.cols[d].Id() == pr.cols[c].Id();
    }
  }

  /** No transaction sits on an unavailable edge. */
  ghost predicate Available(pr: Problem, q: seq<nat>) {
    |q| == pr.Size() && forall k :: 0 <= k < |pr.sub| ==> Entry(pr, k, q[k]) < UNAVAILABLE
  }

  lemma EntryBounds(pr: Problem, k: nat, c: nat)
    requires WellPosed(pr)
    ensures Entry(pr, k, c) <= UNAVAILABLE
    ensures k < |pr.sub| && Entry(pr, k, c) < UNAVAILABLE ==>
              (c == |pr.cols| + k || Picked(pr, k, c).Some?) && Entry(pr, k, c) == -Gain(Picked(pr, k, c), pr.noMatch)
    ensures k < |pr.sub| && Picked(pr, k, c).Some? ==> Entry(pr, k, c) < UNAVAILABLE
  {
    if k < |pr.sub| && c < |pr.cols| {
      FindSpec(pr.sub[k], pr.cols[c].Id());
    }
  }

  // ----- Permutations to arrangements -----

  lemma {:induction false} SumZero(f: nat -> real, q: seq<nat>)
    requires forall x :: x in q ==> f(x) == 0.0
    ensures Sum(f, q) == 0.0
    decreases |q|
  {
    if q != [] {
      SumZero(f, q[..|q| - 1]);
    }
  }

  lemma ReadTotal(pr: Problem, q: seq<nat>)
    requires WellPosed(pr) && IsPermutation(q, pr.Size()) && Available(pr, q)
    ensures Total(CostMatrix(pr), q) == -Value(Read(pr, q), pr.noMatch)
  {
    var m, n := CostMatrix(pr), |pr.sub|;
    var along, gain := Along(m, q), GainAt(Read(pr, q), pr.noMatch);
    var padding: seq<nat> := seq(|pr.cols|, c => n + c);
    assert Range(pr.Size()) == Range(n) + padding;
    SumConcat(along, Range(n), padding);
    SumZero(along, padding);
    forall k | k in Range(n) ensures Plus(along, gain)(k) == 0.0 {
      EntryBounds(pr, k, q[k]);
    }
    SumZero(Plus(along, gain), Range(n));
    SumPlus(along, gain, Range(n));
  }

  lemma ReadValid(pr: Problem, q: seq<nat>)
    requires WellPosed(pr) && IsPermutation(q, pr.Size())
    ensures Valid(pr.sub, BanOf(pr), Read(pr, q))
  {
    var p := Read(pr, q);
    forall k | 0 <= k < |p| && p[k].Some?
      ensures p[k].value in pr.sub[k] && q[k] < |pr.cols| && p[k].value.Id() == pr.cols[q[k]].Id()
      ensures (k, p[k].value.Id()) !in BanOf(pr)
    {
      FindSpec(pr.sub[k], pr.cols[q[k]].Id());
      BanOfHas(pr, k, q[k]);
    }
  }

  // ----- Arrangements to permutations -----

  ghost function ColumnOf(cols: seq<Candidate>, id: string): (c: nat)
    requires HasColumn(cols, id)
    ensures c < |cols| && cols[c].Id() == id
  {
    var c :| 0 <= c < |cols| && cols[c].Id() == id;
    c
  }

  ghost function Place(pr: Problem, p: Pairing, k: nat): nat
    requires WellPosed(pr) && Valid(pr.sub, BanOf(pr), p) && k < |p|
  {
    if p[k].Some? then ColumnOf(pr.cols, p[k].value.Id()) else |pr.cols| + k
  }

  /** Every valid arrangement is read off some permutation that avoids unavailable edges. */
  lemma PermutationFor(pr: Problem, p: Pairing) returns (q: seq<nat>)
    requires WellPosed(pr) && Valid(pr.sub, BanOf(pr), p)
    ensures IsPermutation(q, pr.Size()) && Read(pr, q) == p && Available(pr, q)
  {
    var start: seq<nat> := seq(|p|, k requires 0 <= k < |p| => Place(pr, p, k));
    q := ExtendToPermutation(start, pr.Size());
    forall k | 0 <= k < |p|
      ensures Picked(pr, k, q[k]) == p[k] && Entry(pr, k, q[k]) < UNAVAILABLE
    {
      assert q[k] == q[..|p|][k] == start[k];
      PlacePicks(pr, p, k);
    }
  }

  lemma PlacePicks(pr: Problem, p: Pairing, k: nat)
    requires WellPosed(pr) && Valid(pr.sub, BanOf(pr), p) && k < |p|
    ensures Picked(pr, k, Place(pr, p, k)) == p[k] && Entry(pr, k, Place(pr, p, k)) < UNAVAILABLE
  {
    var c := Place(pr, p, k);
    if p[k].Some? {
      BanOfHas(pr, k, c);
      var j :| 0 <= j < |pr.sub[k]| && pr.sub[k][j] == p[k].value;
      FindUnique(pr.sub[k], j);
    }
  }

  // ----- The sentinel -----

  /** Swapping the columns of rows k and r changes the total by what the four entries say. */
  lemma SwapTotal(m: Matrix, q: seq<nat>, k: nat, r: nat) returns (s: seq<nat>)
    requires Square(m, |m|) && IsPermutation(q, |m|) && k < |m| && r < |m| && k != r
    ensures IsPermutation(s, |m|)
    ensures Total(m, s) == Total(m, q) - m[k][q[k]] - m[r][q[r]] + m[k][q[r]] + m[r][q[k]]
  {
    var half := q[k := q[r]];
    s := half[r := q[k]];
    SumUpdate(Along(m, q), Along(m, half), Range(|m|), k) by { assert Range(|m|)[k] == k; }
    SumUpdate(Along(m, half), Along(m, s), Range(|m|), r) by { assert Range(|m|)[r] == r; }
  }

  /** An optimal permutation uses no unavailable edge: giving the transaction its own
      "no counterpart" column instead would be strictly cheaper. */
  lemma OptimalAvailable(pr: Problem, q: seq<nat>)
    requires WellPosed(pr) && IsOptimal(CostMatrix(pr), q)
    ensures Available(pr, q)
  {
    var m := CostMatrix(pr);
    forall k | 0 <= k < |pr.sub| ensures Entry(pr, k, q[k]) < UNAVAILABLE {
      EntryBounds(pr, k, q[k]);
      if Entry(pr, k, q[k]) >= UNAVAILABLE {
        var own := |pr.cols| + k;
        PermutationOnto(q, pr.Size(), own);
        var r :| 0 <= r < |q| && q[r] == own;
        assert m[k][q[k]] == Entry(pr, k, q[k]) && m[r][q[r]] == Entry(pr, r, own);
        assert m[k][q[r]] == Entry(pr, k, own) && m[r][q[k]] == Entry(pr, r, q[k]);
        EntryBounds(pr, r, q[k]);
        var s := SwapTotal(m, q, k, r);
        assert false;
      }
    }
  }

  /** The padded square problem is exact: an optimal permutation reads as a best arrangement. */
  lemma OptimalIsBest(pr: Problem, q: seq<nat>)
    requires WellPosed(pr) && IsOptimal(CostMatrix(pr), q)
    ensures IsBest(pr.sub, BanOf(pr), pr.noMatch, Read(pr, q))
    ensures Total(CostMatrix(pr), q) == -Value(Read(pr, q), pr.noMatch)
  {
    OptimalAvailable(pr, q);
    ReadTotal(pr, q);
    ReadValid(pr, q);
    forall other | Valid(pr.sub, BanOf(pr), other)
      ensures Value(other, pr.noMatch) <= Value(Read(pr, q), pr.noMatch)
    {
      var qo := PermutationFor(pr, other);
      ReadTotal(pr, qo);
    }
  }

  // ----- The method -----

  /** cols lists one candidate per row offered to the members, and colOf is its index. */
  ghost predicate Columns(rows: Rows, members: seq<nat>, cols: seq<Candidate>, colOf: map<string, nat>) {
    && Below(members, |rows|)
    && (forall c :: 0 <= c < |cols| ==> cols[c].Id() in colOf && colOf[cols[c].Id()] == c)
    && (forall id :: id in colOf ==> colOf[id] < |cols| && cols[colOf[id]].Id() == id)
    && (forall k, j :: 0 <= k < |members| && 0 <= j < |rows[members[k]]| ==> rows[members[k]][j].Id() in colOf)
  }

  /** Weights and the no-match weight stay above the negated sentinel. */
  ghost predicate Dominated(rows: Rows, noMatch: real) {
    && (forall i, j :: 0 <= i < |rows| && 0 <= j < |rows[i]| ==> rows[i][j].weight > -UNAVAILABLE)
    && noMatch > -UNAVAILABLE
  }

  lemma ColumnsPose(rows: Rows, members: seq<nat>, cols: seq<Candidate>, colOf: map<string, nat>,
                    noMatch: real, banRow: int, banCols: set<nat>)
    requires Columns(rows, members, cols, colOf) && AllDistinctIds(rows) && Dominated(rows, noMatch)
    ensures WellPosed(Problem(Sub(rows, members), cols, noMatch, banRow, banCols))
  {
    var sub := Sub(rows, members);
    forall k | 0 <= k < |sub| ensures DistinctIds(sub[k]) {
      assert DistinctIds(rows[members[k]]);
    }
    forall k, a | 0 <= k < |sub| && 0 <= a < |sub[k]|
      ensures HasColumn(cols, sub[k][a].Id()) && sub[k][a].weight > -UNAVAILABLE
    {
      assert rows[members[k]][a].Id() in colOf;
      assert rows[members[k]][a].weight > -UNAVAILABLE;
    }
  }

  /** Row k of the matrix is priced as the problem says. */
  ghost predicate Priced(pr: Problem, cost: array2<real>, k: nat)
    requires cost.Length0 == cost.Length1 == pr.Size() && k < pr.Size()
    reads cost
  {
    forall c :: 0 <= c < pr.Size() ==> cost[k, c] == Entry(pr, k, c)
  }

  /** Prices one transaction's row of the cost matrix in place. */
  method PriceRow(pr: Problem, colOf: map<string, nat>, cost: array2<real>, k: nat)
    requires k < |pr.sub| && cost.Length0 == cost.Length1 == pr.Size()
    requires DistinctIds(pr.sub[k])
    requires forall j :: 0 <= j < |pr.sub[k]| ==> pr.sub[k][j].Id() in colOf
    requires forall id :: id in colOf ==> colOf[id] < |pr.cols| && pr.cols[colOf[id]].Id() == id
    requires forall c :: 0 <= c < |pr.cols| ==> pr.cols[c].Id() in colOf && colOf[pr.cols[c].Id()] == c
    modifies cost
    ensures Priced(pr, cost, k)
    ensures forall r, c :: 0 <= r < pr.Size() && 0 <= c < pr.Size() && r != k ==> cost[r, c] == old(cost[r, c])
  {
    var m, row := |pr.cols|, pr.sub[k];
    var c := 0;
    while c < m
      invariant c <= m
      invariant forall d :: 0 <= d < c ==> cost[k, d] == UNAVAILABLE
      invariant forall r, d :: 0 <= r < pr.Size() && 0 <= d < pr.Size() && r != k ==> cost[r, d] == old(cost[r, d])
    {
      cost[k, c] := UNAVAILABLE;
      c := c + 1;
    }
    var j := 0;
    while j < |row|
      invariant j <= |row|
      invariant forall d :: 0 <= d < m ==>
                  cost[k, d] == if pr.Banned(k, d) then UNAVAILABLE else EdgeCost(Find(row[..j], pr.cols[d].Id()))
      invariant forall r, d :: 0 <= r < pr.Size() && 0 <= d < pr.Size() && r != k ==> cost[r, d] == old(cost[r, d])
    {
      assert row[..j + 1][..j] == row[..j];
      c := colOf[row[j].Id()];
      if !pr.Banned(k, c) {
        cost[k, c] := -row[j].weight;
      }
      j := j + 1;
    }
    assert row[..j] == row;
    c := m;
    while c < pr.Size()
      invariant m <= c <= pr.Size()
      invariant forall d :: 0 <= d < m ==> cost[k, d] == Entry(pr, k, d)
      invariant forall d :: m <= d < c ==> cost[k, d] == UNAVAILABLE
      invariant forall r, d :: 0 <= r < pr.Size() && 0 <= d < pr.Size() && r != k ==> cost[r, d] == old(cost[r, d])
    {
      cost[k, c] := UNAVAILABLE;
      c := c + 1;
    }
    cost[k, m + k] := -pr.noMatch;
  }

  function EdgeCost(o: Option<Candidate>): real {
    match o case Some(x) => -x.weight case None => UNAVAILABLE
  }

  function Entries(cost: array2<real>): (m: Matrix)
    reads cost
    ensures |m| == cost.Length0 && forall r :: 0 <= r < cost.Length0 ==> |m[r]| == cost.Length1
    ensures forall r, c :: 0 <= r < cost.Length0 && 0 <= c < cost.Length1 ==> m[r][c] == cost[r, c]
  {
    seq(cost.Length0, r requires 0 <= r < cost.Length0 reads cost =>
      seq(cost.Length1, c requires 0 <= c < cost.Length1 reads cost => cost[r, c]))
  }

  /** The matrix of a problem, filled row by row. */
  method Price(pr: Problem, colOf: map<string, nat>) returns (cost: array2<real>)
    requires AllDistinctIds(pr.sub)
    requires forall k, j :: 0 <= k < |pr.sub| && 0 <= j < |pr.sub[k]| ==> pr.sub[k][j].Id() in colOf
    requires forall id :: id in colOf ==> colOf[id] < |pr.cols| && pr.cols[colOf[id]].Id() == id
    requires forall c :: 0 <= c < |pr.cols| ==> pr.cols[c].Id() in colOf && colOf[pr.cols[c].Id()] == c
    ensures fresh(cost) && cost.Length0 == cost.Length1 == pr.Size()
    ensures Entries(cost) == CostMatrix(pr)
  {
    cost := new real[pr.Size(), pr.Size()]((r, c) => 0.0);
    var k := 0;
    while k < |pr.sub|
      invariant k <= |pr.sub|
      invariant forall r, c :: 0 <= r < pr.Size() && 0 <= c < pr.Size() ==>
                  cost[r, c] == if r < k then Entry(pr, r, c) else 0.0
    {
      assert DistinctIds(pr.sub[k]);
      PriceRow(pr, colOf, cost, k);
      k := k + 1;
    }
    forall r | 0 <= r < pr.Size() ensures Entries(cost)[r] == CostMatrix(pr)[r] {
    }
  }

  /** This transaction's own assessment of the row id. */
  method FirstById(row: seq<Candidate>, id: string) returns (own: Option<Candidate>)
    requires DistinctIds(row)
    ensures own == Find(row, id)
  {
    own := None;
    var j := 0;
    while j < |row|
      invariant j <= |row|
      invariant forall t :: 0 <= t < j ==> row[t].Id() != id
    {
      if row[j].Id() == id {
        FindUnique(row, j);
        return Some(row[j]);
      }
      j := j + 1;
    }
    FindSpec(row, id);
  }

  /** Reads transaction k's column back: its own view of that row, and what the pairing is worth. */
  method ReadOne(pr: Problem, price: real, k: nat, c: nat) returns (own: Option<Candidate>, gain: real)
    requires WellPosed(pr) && k < |pr.sub| && price == Entry(pr, k, c) < UNAVAILABLE
    ensures own == Picked(pr, k, c) && gain == Gain(own, pr.noMatch)
  {
    EntryBounds(pr, k, c);
    if c >= |pr.cols| || price >= UNAVAILABLE {
      own, gain := None, pr.noMatch;
    } else {
      assert DistinctIds(pr.sub[k]);
      own := FirstById(pr.sub[k], pr.cols[c].Id());
      gain := -price;
    }
  }

  /** Reads the solver's columns back as an arrangement and adds up its evidence. */
  method ReadBack(pr: Problem, m: Matrix, q: seq<nat>) returns (out: Pairing, total: real)
    requires WellPosed(pr) && Below(q, pr.Size()) && Available(pr, q)
    requires |m| == pr.Size() && forall k :: 0 <= k < |m| ==> |m[k]| == |m| && m[k][q[k]] == Entry(pr, k, q[k])
    ensures out == Read(pr, q) && total == Value(out, pr.noMatch)
  {
    ghost var best := Read(pr, q);
    out, total := [], 0.0;
    var k := 0;
    while k < |pr.sub|
      invariant k <= |pr.sub|
      invariant out == best[..k]
      invariant total == Sum(GainAt(best, pr.noMatch), Range(k))
    {
      var own, gain := ReadOne(pr, m[k][q[k]], k, q[k]);
      RangeSnoc(k);
      total, out := total + gain, out + [own];
      k := k + 1;
    }
  }

  /** Arranges one component at its best, optionally with some edges of one transaction forbidden. */
  method Arrange(rows: Rows, members: seq<nat>, cols: seq<Candidate>, colOf: map<string, nat>,
                 noMatch: real, banRow: int, banCols: set<nat>)
    returns (out: Pairing, total: real)
    requires Columns(rows, members, cols, colOf) && AllDistinctIds(rows) && Dominated(rows, noMatch)
    ensures IsBest(Sub(rows, members), BanOf(Problem(Sub(rows, members), cols, noMatch, banRow, banCols)), noMatch, out)
    ensures total == Value(out, noMatch)
  {
    var pr := Problem(Sub(rows, members), cols, noMatch, banRow, banCols);
    ColumnsPose(rows, members, cols, colOf, noMatch, banRow, banCols);
    var cost := Price(pr, colOf);
    var given, _, _ := Hungarian(Entries(cost));
    OptimalAvailable(pr, given);
    OptimalIsBest(pr, given);
    out, total := ReadBack(pr, Entries(cost), given);
  }
}
