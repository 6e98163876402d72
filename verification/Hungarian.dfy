/** The square assignment solver of budget/assign.go: Kuhn-Munkres with potentials,
    proved optimal against every permutation through linear-programming duality. */
module KuhnMunkres {
  import opened Sums

  /** A real number with a top element: the solver's "inf", and the margin of a
      transaction that was left unpaired. */
  datatype Extended = Finite(value: real) | Infinite

  predicate Less(x: Extended, y: Extended) {
    x.Finite? && (y.Infinite? || x.value < y.value)
  }

  type Matrix = seq<seq<real>>

  ghost predicate Square(m: Matrix, n: nat) {
    |m| == n && forall i :: 0 <= i < n ==> |m[i]| == n
  }

  /** The entry row i pays under q. */
  function Along(m: Matrix, q: seq<nat>): nat -> real {
    (i: nat) => if i < |m| && i < |q| && q[i] < |m[i]| then m[i][q[i]] else 0.0
  }

  /** What giving row i the column q[i] costs altogether. */
  function Total(m: Matrix, q: seq<nat>): real {
    Sum(Along(m, q), Range(|m|))
  }

  /** Reduced cost of the edge from row r to column j, both counted from one. */
  function Red(m: Matrix, u: seq<real>, v: seq<real>, r: nat, j: nat): real
    requires 1 <= r <= |m| && 1 <= j <= |m[r - 1]|
    requires r < |u| && j < |v|
  {
    m[r - 1][j - 1] - u[r] - v[j]
  }

  // ----- Duality -----

  /** Potentials that are feasible for every edge and tight on the edges q uses. */
  ghost predicate Certificate(m: Matrix, u: seq<real>, v: seq<real>, q: seq<nat>) {
    var n := |m|;
    && Square(m, n) && |u| == n + 1 && |v| == n + 1
    && IsPermutation(q, n)
    && (forall r, j :: 1 <= r <= n && 1 <= j <= n ==> Red(m, u, v, r, j) >= 0.0)
    && (forall i :: 0 <= i < n ==> Red(m, u, v, i + 1, q[i] + 1) == 0.0)
  }

  function Shifted(s: seq<real>): nat -> real {
    (i: nat) => if i + 1 < |s| then s[i + 1] else 0.0
  }

  /** Sum of the potentials of both sides, the value of the dual problem. */
  function DualValue(u: seq<real>, v: seq<real>, n: nat): real {
    Sum(Shifted(u), Range(n)) + Sum(Shifted(v), Range(n))
  }

  function Plus(f: nat -> real, g: nat -> real): nat -> real { (i: nat) => f(i) + g(i) }

  lemma {:induction false} SumPlus(f: nat -> real, g: nat -> real, q: seq<nat>)
    ensures Sum(Plus(f, g), q) == Sum(f, q) + Sum(g, q)
    decreases |q|
  {
    if q != [] {
      SumPlus(f, g, q[..|q| - 1]);
    }
  }

  function Via(f: nat -> real, q: seq<nat>): nat -> real {
    (i: nat) => if i < |q| then f(q[i]) else 0.0
  }

  lemma {:induction false} SumVia(f: nat -> real, q: seq<nat>)
    ensures Sum(Via(f, q), Range(|q|)) == Sum(f, q)
    decreases |q|
  {
    if q != [] {
      var q' := q[..|q| - 1];
      SumVia(f, q');
      RangeSnoc(|q'|);
      SumExt(Via(f, q), Via(f, q'), Range(|q'|));
    }
  }

  /** The potentials add up to the same figure along any permutation. */
  lemma DualAlong(u: seq<real>, v: seq<real>, q: seq<nat>, n: nat)
    requires IsPermutation(q, n)
    ensures Sum(Plus(Shifted(u), Via(Shifted(v), q)), Range(n)) == DualValue(u, v, n)
  {
    SumPlus(Shifted(u), Via(Shifted(v), q), Range(n));
    SumVia(Shifted(v), q);
    SumOverPermutation(Shifted(v), q, n);
  }

  /** A certificate makes q at least as cheap as any other permutation. */
  lemma CertificateOptimal(m: Matrix, u: seq<real>, v: seq<real>, q: seq<nat>, other: seq<nat>)
    requires Certificate(m, u, v, q)
    requires IsPermutation(other, |m|)
    ensures Total(m, q) == DualValue(u, v, |m|) <= Total(m, other)
  {
    var n := |m|;
    var dq, dOther := Plus(Shifted(u), Via(Shifted(v), q)), Plus(Shifted(u), Via(Shifted(v), other));
    forall i | i in Range(n)
      ensures Along(m, q)(i) == dq(i) && dOther(i) <= Along(m, other)(i)
    {
      assert Red(m, u, v, i + 1, q[i] + 1) == 0.0;
      assert Red(m, u, v, i + 1, other[i] + 1) >= 0.0;
    }
    SumExt(Along(m, q), dq, Range(n));
    SumLe(dOther, Along(m, other), Range(n));
    DualAlong(u, v, q, n);
    DualAlong(u, v, other, n);
  }

  // ----- The solver's state, as values -----

  /** A snapshot of the solver's working arrays. Index 0 of p, way, minv and used is
      the virtual column the row being inserted hangs from. */
  datatype State = State(u: seq<real>, v: seq<real>, p: seq<nat>, way: seq<nat>,
                         minv: seq<Extended>, used: seq<bool>)

  ghost predicate Shape(m: Matrix, s: State, n: nat) {
    && Square(m, n)
    && |s.u| == |s.v| == |s.p| == |s.way| == |s.minv| == |s.used| == n + 1
    && (forall j :: 0 <= j <= n ==> s.p[j] <= n)
    && (forall j :: 0 <= j <= n ==> s.way[j] <= n)
  }

  /** Row r sits in some column other than h. */
  ghost predicate Seated(p: seq<nat>, h: nat, r: nat) {
    exists j :: 0 <= j < |p| && j != h && p[j] == r
  }

  /** Rows 1..i each sit in exactly one column other than h. */
  ghost predicate Placed(p: seq<nat>, n: nat, i: nat, h: nat) {
    && |p| == n + 1
    && (forall j :: 0 <= j <= n && j != h ==> p[j] <= i)
    && (forall j, k :: 0 <= j < k <= n && j != h && k != h && p[j] != 0 ==> p[j] != p[k])
    && (forall r :: 1 <= r <= i ==> Seated(p, h, r))
  }

  /** No edge of the first k rows has negative reduced cost. */
  ghost predicate Feasible(m: Matrix, s: State, n: nat, k: nat)
    requires Shape(m, s, n) && k <= n
  {
    forall r, j :: 1 <= r <= k && 1 <= j <= n ==> Red(m, s.u, s.v, r, j) >= 0.0
  }

  /** Every matched edge away from column h has reduced cost zero. */
  ghost predicate Tight(m: Matrix, s: State, n: nat, h: nat)
    requires Shape(m, s, n)
  {
    forall j :: 1 <= j <= n && j != h && s.p[j] != 0 ==> Red(m, s.u, s.v, s.p[j], j) == 0.0
  }

  /** Column j hangs by a zero edge from the row of a used column of lower rank. */
  ghost predicate Hangs(m: Matrix, s: State, n: nat, rank: seq<nat>, j: nat)
    requires Shape(m, s, n) && |rank| == n + 1 && 1 <= j <= n
  {
    var w := s.way[j];
    s.used[w] && rank[w] < rank[j] && s.p[w] >= 1 && Red(m, s.u, s.v, s.p[w], j) == 0.0
  }

  /** minv[j] is the cheapest reduced cost from the used columns' rows to column j, and way[j] attains it. */
  ghost predicate Cheapest(m: Matrix, s: State, n: nat, j: nat)
    requires Shape(m, s, n) && 1 <= j <= n
  {
    var w := s.way[j];
    && s.minv[j].Finite?
    && s.used[w] && s.p[w] >= 1 && s.minv[j].value == Red(m, s.u, s.v, s.p[w], j)
    && (forall k :: 0 <= k <= n && s.used[k] && s.p[k] >= 1 ==>
          s.minv[j].value <= Red(m, s.u, s.v, s.p[k], j))
  }

  ghost predicate Frontier(m: Matrix, s: State, n: nat)
    requires Shape(m, s, n)
  {
    forall j {:trigger Cheapest(m, s, n, j)} :: 1 <= j <= n && !s.used[j] ==> Cheapest(m, s, n, j)
  }

  ghost predicate NonNegative(s: State, n: nat)
    requires |s.minv| == |s.used| == n + 1
  {
    forall j :: 1 <= j <= n && !s.used[j] && s.minv[j].Finite? ==> s.minv[j].value >= 0.0
  }

  /** The part of the search's invariant that speaks of the tree of used columns only. */
  ghost predicate Rooted(m: Matrix, s: State, n: nat, i: nat, rank: seq<nat>)
    requires Shape(m, s, n)
  {
    && 1 <= i <= n && |rank| == n + 1
    && s.p[0] == i && Placed(s.p, n, i, n + 1)
    && Tight(m, s, n, n + 1)
    && (forall j :: 0 <= j <= n && s.used[j] ==> s.p[j] >= 1)
    && (forall j {:trigger Hangs(m, s, n, rank, j)} :: 1 <= j <= n && s.used[j] ==> Hangs(m, s, n, rank, j))
  }

  /** What holds each time round the search for a free column: j0 has just been reached. */
  ghost predicate Growing(m: Matrix, s: State, n: nat, i: nat, rank: seq<nat>, j0: nat) {
    && Shape(m, s, n) && Rooted(m, s, n, i, rank)
    && j0 <= n && !s.used[j0]
    && (forall j :: 0 <= j <= n && s.used[j] ==> rank[j] < rank[j0])
    && (if j0 == 0
        then Feasible(m, s, n, i - 1)
             && (forall j :: 0 <= j <= n ==> s.minv[j].Infinite? && !s.used[j])
        else s.used[0] && Feasible(m, s, n, i) && Frontier(m, s, n) && NonNegative(s, n)
             && Hangs(m, s, n, rank, j0))
  }

  /** After the scan of column j0's row, before the potentials move. */
  ghost predicate Scanned(m: Matrix, s: State, n: nat, i: nat, rank: seq<nat>, j0: nat) {
    && Shape(m, s, n) && Rooted(m, s, n, i, rank)
    && j0 <= n && s.used[0] && s.used[j0]
    && (forall j :: 0 <= j <= n && s.used[j] ==> rank[j] <= rank[j0])
    && Frontier(m, s, n)
    && (if j0 == 0
        then Feasible(m, s, n, i - 1) && (forall j :: 1 <= j <= n ==> !s.used[j])
        else Feasible(m, s, n, i) && NonNegative(s, n))
  }

  /** Column j after the edges of j0's row have been folded in. */
  ghost predicate Folded(m: Matrix, s: State, minv: Extended, way: nat, n: nat, j0: nat, j: nat)
    requires Shape(m, s, n) && j0 <= n && 1 <= s.p[j0] && j <= n
  {
    if j == 0 || j == j0 || s.used[j] then minv == s.minv[j] && way == s.way[j]
    else var cur := Red(m, s.u, s.v, s.p[j0], j);
         if Less(Finite(cur), s.minv[j])
         then minv == Finite(cur) && way == j0
         else minv == s.minv[j] && way == s.way[j]
  }

  ghost predicate ScanOf(m: Matrix, s: State, s': State, n: nat, j0: nat)
    requires Shape(m, s, n) && Shape(m, s', n) && j0 <= n && 1 <= s.p[j0]
  {
    && s'.u == s.u && s'.v == s.v && s'.p == s.p
    && s'.used == s.used[j0 := true]
    && forall j :: 0 <= j <= n ==> Folded(m, s, s'.minv[j], s'.way[j], n, j0, j)
  }

  lemma ScanStep(m: Matrix, s: State, s': State, n: nat, i: nat, rank: seq<nat>, j0: nat)
    requires Growing(m, s, n, i, rank, j0)
    requires s.p[j0] >= 1
    requires Shape(m, s', n) && ScanOf(m, s, s', n, j0)
    ensures Scanned(m, s', n, i, rank, j0)
  {
    hide Cheapest, Folded, Red;
    forall j | 1 <= j <= n && s'.used[j]
      ensures Hangs(m, s', n, rank, j)
    {
      ScanUsed(m, s, s', n, i, rank, j0, j);
    }
    forall j | 1 <= j <= n && !s'.used[j]
      ensures Cheapest(m, s', n, j) && s'.minv[j].Finite? && (j0 != 0 ==> s'.minv[j].value >= 0.0)
    {
      ScanColumn(m, s, s', n, i, rank, j0, j);
    }
    assert Feasible(m, s', n, if j0 == 0 then i - 1 else i);
  }

  lemma ScanUsed(m: Matrix, s: State, s': State, n: nat, i: nat, rank: seq<nat>, j0: nat, j: nat)
    requires Growing(m, s, n, i, rank, j0)
    requires s.p[j0] >= 1
    requires Shape(m, s', n) && ScanOf(m, s, s', n, j0)
    requires 1 <= j <= n && s'.used[j]
    ensures Hangs(m, s', n, rank, j)
  {
    hide Cheapest, Red;
    assert Folded(m, s, s'.minv[j], s'.way[j], n, j0, j);
    assert Hangs(m, s, n, rank, j);
  }

  lemma ScanColumn(m: Matrix, s: State, s': State, n: nat, i: nat, rank: seq<nat>, j0: nat, j: nat)
    requires Growing(m, s, n, i, rank, j0)
    requires s.p[j0] >= 1
    requires Shape(m, s', n) && ScanOf(m, s, s', n, j0)
    requires 1 <= j <= n && !s'.used[j]
    ensures Cheapest(m, s', n, j) && s'.minv[j].Finite? && (j0 != 0 ==> s'.minv[j].value >= 0.0)
  {
    assert Folded(m, s, s'.minv[j], s'.way[j], n, j0, j);
    if j0 != 0 {
      assert Cheapest(m, s, n, j);
      assert Red(m, s.u, s.v, s.p[j0], j) >= 0.0;
    }
  }

  /** Row r belongs to the tree: it is matched to a used column. */
  ghost predicate InTree(p: seq<nat>, used: seq<bool>, r: nat)
    requires |p| == |used|
  {
    exists j :: 0 <= j < |p| && used[j] && p[j] == r
  }

  ghost predicate RelabelOf(m: Matrix, s: State, s': State, n: nat, delta: real)
    requires Shape(m, s, n) && Shape(m, s', n)
  {
    && s'.p == s.p && s'.way == s.way && s'.used == s.used
    && (forall r :: 0 <= r <= n ==> s'.u[r] == if InTree(s.p, s.used, r) then s.u[r] + delta else s.u[r])
    && (forall j :: 0 <= j <= n ==> s'.v[j] == if s.used[j] then s.v[j] - delta else s.v[j])
    && (forall j :: 0 <= j <= n && !s.used[j] && s.minv[j].Finite? ==>
          s'.minv[j] == Finite(s.minv[j].value - delta))
  }

  /** How the reduced cost of one edge moves: down by delta out of the tree, up by delta into it. */
  lemma RedMoves(m: Matrix, s: State, s': State, n: nat, delta: real, r: nat, j: nat)
    requires Shape(m, s, n) && Shape(m, s', n) && RelabelOf(m, s, s', n, delta)
    requires 1 <= r <= n && 1 <= j <= n
    ensures Red(m, s'.u, s'.v, r, j)
         == Red(m, s.u, s.v, r, j) - (if InTree(s.p, s.used, r) then delta else 0.0)
                                   + (if s.used[j] then delta else 0.0)
  {
  }

  lemma MatchedTogether(p: seq<nat>, used: seq<bool>, n: nat, i: nat, j: nat)
    requires Placed(p, n, i, n + 1) && |used| == n + 1 && j <= n && p[j] >= 1
    ensures InTree(p, used, p[j]) == used[j]
  {
  }

  /** delta is the smallest distance to a column not yet used, attained at j1. */
  ghost predicate Nearest(s: State, n: nat, delta: real, j1: nat)
    requires |s.minv| == |s.used| == n + 1
  {
    && 1 <= j1 <= n && !s.used[j1] && s.minv[j1] == Finite(delta)
    && forall j :: 1 <= j <= n && !s.used[j] && s.minv[j].Finite? ==> delta <= s.minv[j].value
  }

  lemma RelabelStep(m: Matrix, s: State, s': State, n: nat, i: nat, rank: seq<nat>, j0: nat, delta: real, j1: nat)
    requires Scanned(m, s, n, i, rank, j0)
    requires Nearest(s, n, delta, j1)
    requires Shape(m, s', n) && RelabelOf(m, s, s', n, delta)
    ensures Growing(m, s', n, i, rank[j1 := rank[j0] + 1], j1)
  {
    var rank' := rank[j1 := rank[j0] + 1];
    forall j | 1 <= j <= n && !s'.used[j]
      ensures Cheapest(m, s', n, j) && s'.minv[j].value >= 0.0
    {
      RelabelCheapest(m, s, s', n, i, rank, j0, delta, j1, j);
    }
    RelabelFeasible(m, s, s', n, i, rank, j0, delta, j1);
    RelabelRooted(m, s, s', n, i, rank, j0, delta, j1);
    assert Cheapest(m, s', n, j1);
  }

  lemma RelabelCheapest(m: Matrix, s: State, s': State, n: nat, i: nat, rank: seq<nat>, j0: nat, delta: real, j1: nat, j: nat)
    requires Scanned(m, s, n, i, rank, j0)
    requires Nearest(s, n, delta, j1)
    requires Shape(m, s', n) && RelabelOf(m, s, s', n, delta)
    requires 1 <= j <= n && !s.used[j]
    ensures Cheapest(m, s', n, j) && s'.minv[j].value >= 0.0
  {
    assert Cheapest(m, s, n, j);
    forall k | 0 <= k <= n && s.used[k] && s.p[k] >= 1
      ensures Red(m, s'.u, s'.v, s'.p[k], j) == Red(m, s.u, s.v, s.p[k], j) - delta
    {
      RedMoves(m, s, s', n, delta, s.p[k], j);
    }
  }

  lemma RelabelRooted(m: Matrix, s: State, s': State, n: nat, i: nat, rank: seq<nat>, j0: nat, delta: real, j1: nat)
    requires Scanned(m, s, n, i, rank, j0)
    requires Nearest(s, n, delta, j1)
    requires Shape(m, s', n) && RelabelOf(m, s, s', n, delta)
    ensures Rooted(m, s', n, i, rank[j1 := rank[j0] + 1])
  {
    var rank' := rank[j1 := rank[j0] + 1];
    forall j | 1 <= j <= n && s.p[j] != 0
      ensures Red(m, s'.u, s'.v, s'.p[j], j) == 0.0
    {
      MatchedTogether(s.p, s.used, n, i, j);
      RedMoves(m, s, s', n, delta, s.p[j], j);
    }
    forall j | 1 <= j <= n && s.used[j]
      ensures Hangs(m, s', n, rank', j)
    {
      assert Hangs(m, s, n, rank, j);
      RedMoves(m, s, s', n, delta, s.p[s.way[j]], j);
    }
  }

  lemma RelabelFeasible(m: Matrix, s: State, s': State, n: nat, i: nat, rank: seq<nat>, j0: nat, delta: real, j1: nat)
    requires Scanned(m, s, n, i, rank, j0)
    requires Nearest(s, n, delta, j1)
    requires Shape(m, s', n) && RelabelOf(m, s, s', n, delta)
    ensures Feasible(m, s', n, i)
  {
    forall r, j | 1 <= r <= i && 1 <= j <= n
      ensures Red(m, s'.u, s'.v, r, j) >= 0.0
    {
      RedMoves(m, s, s', n, delta, r, j);
      if InTree(s.p, s.used, r) {
        var k :| 0 <= k <= n && s.used[k] && s.p[k] == r;
        if !s.used[j] {
          assert Cheapest(m, s, n, j);
        }
      } else {
        assert r != i;
      }
    }
  }

  /** As long as the search is running there is a column it has not used. */
  lemma ColumnLeft(m: Matrix, s: State, n: nat, i: nat, rank: seq<nat>, j0: nat)
    requires Scanned(m, s, n, i, rank, j0)
    ensures exists j :: 1 <= j <= n && !s.used[j]
  {
    if forall j :: 1 <= j <= n ==> s.used[j] {
      var shifted: seq<nat> := seq(n + 1, j requires 0 <= j <= n && s.p[j] >= 1 => s.p[j] - 1);
      Pigeonhole(shifted, i);
      assert false;
    }
  }

  // ----- Augmentation -----

  /** The flip along the tree has reached column h: its row has been handed on, so every row
      sits in exactly one other column and every such edge is tight. Columns of lower rank
      are still as the search left them (p0). */
  ghost predicate Flipping(m: Matrix, s: State, n: nat, i: nat, rank: seq<nat>, p0: seq<nat>, h: nat) {
    && Shape(m, s, n) && 1 <= i <= n
    && h <= n && |rank| == n + 1 && Shape(m, s.(p := p0), n)
    && (forall j :: 0 <= j <= n && s.used[j] && rank[j] < rank[h] ==> s.p[j] == p0[j])
    && (forall j {:trigger Hangs(m, s.(p := p0), n, rank, j)} :: 1 <= j <= n && (s.used[j] || j == h) ==>
          Hangs(m, s.(p := p0), n, rank, j))
    && Placed(s.p, n, i, h)
    && Tight(m, s, n, h)
  }

  lemma FlipStep(m: Matrix, s: State, s': State, n: nat, i: nat, rank: seq<nat>, p0: seq<nat>, h: nat)
    requires Flipping(m, s, n, i, rank, p0, h) && h != 0
    requires s' == s.(p := s.p[h := s.p[s.way[h]]])
    ensures Flipping(m, s', n, i, rank, p0, s.way[h]) && rank[s.way[h]] < rank[h]
    ensures Feasible(m, s, n, i) ==> Feasible(m, s', n, i)
  {
    var h' := s.way[h];
    assert Hangs(m, s.(p := p0), n, rank, h);
    assert s'.(p := p0) == s.(p := p0);
    assert s.p[h'] == p0[h'];
    forall r | 1 <= r <= i ensures Seated(s'.p, h', r) {
      assert Seated(s.p, h, r);
      var j :| 0 <= j <= n && j != h && s.p[j] == r;
      assert j != h' ==> s'.p[j] == r;
      assert j == h' ==> s'.p[h] == r;
    }
  }

  /** delta and j1 are the smallest distance among the unused columns below bound, and its column. */
  ghost predicate Leading(minv: seq<Extended>, used: seq<bool>, bound: nat, delta: Extended, j1: nat) {
    && 1 <= bound <= |minv| == |used|
    && (if j1 == 0 then delta.Infinite? else j1 < bound && !used[j1] && delta.Finite? && minv[j1] == delta)
    && forall k :: 1 <= k < bound && !used[k] ==> !Less(minv[k], delta)
  }

  lemma LeadingNone(minv: seq<Extended>, used: seq<bool>)
    requires 1 <= |minv| == |used|
    ensures Leading(minv, used, 1, Infinite, 0)
  {
  }

  /** One more column is looked at, after its own entry may have changed. */
  lemma LeadingNext(before: seq<Extended>, minv: seq<Extended>, used: seq<bool>, j: nat, delta: Extended, j1: nat)
    requires Leading(before, used, j, delta, j1) && j < |before| == |minv| && minv == before[j := minv[j]]
    ensures if !used[j] && Less(minv[j], delta) then Leading(minv, used, j + 1, minv[j], j)
            else Leading(minv, used, j + 1, delta, j1)
  {
  }

  // ----- The imperative solver -----

  ghost function Unused(used: seq<bool>): nat {
    if used == [] then 0 else Unused(used[1..]) + if used[0] then 0 else 1
  }

  lemma {:induction false} UnusedDrops(used: seq<bool>, j: nat)
    requires j < |used| && !used[j]
    ensures Unused(used[j := true]) == Unused(used) - 1
  {
    if j == 0 {
      assert used[0 := true][1..] == used[1..];
    } else {
      UnusedDrops(used[1..], j - 1);
      assert used[j := true][1..] == used[1..][j - 1 := true];
    }
  }

  /** The working arrays of one solve. */
  class Workspace {
    const n: nat
    const u: array<real>
    const v: array<real>
    const p: array<nat>
    const way: array<nat>
    var minv: array<Extended>
    var used: array<bool>

    ghost predicate Valid()
      reads this
    {
      && u.Length == v.Length == p.Length == way.Length == minv.Length == used.Length == n + 1
      && u != v && p != way
    }

    ghost function Snapshot(): (s: State)
      requires Valid()
      reads this, u, v, p, way, minv, used
    {
      State(u[..], v[..], p[..], way[..], minv[..], used[..])
    }

    constructor (n: nat)
      ensures Valid() && this.n == n
      ensures fresh(u) && fresh(v) && fresh(p) && fresh(way) && fresh(minv) && fresh(used)
      ensures u[..] == v[..] == seq(n + 1, _ => 0.0)
      ensures p[..] == way[..] == seq(n + 1, _ => 0)
    {
      this.n := n;
      u := new real[n + 1](_ => 0.0);
      v := new real[n + 1](_ => 0.0);
      p := new nat[n + 1](_ => 0);
      way := new nat[n + 1](_ => 0);
      minv := new Extended[n + 1](_ => Infinite);
      used := new bool[n + 1](_ => false);
    }

    /** A fresh search: nothing reached, nothing used. */
    method Reset()
      requires Valid()
      modifies this`minv, this`used
      ensures Valid() && fresh(minv) && fresh(used)
      ensures minv[..] == seq(n + 1, _ => Infinite) && used[..] == seq(n + 1, _ => false)
    {
      minv := new Extended[n + 1](_ => Infinite);
      used := new bool[n + 1](_ => false);
    }

    /** Folds the edge from j0's row to column j into minv and way. */
    method Relax(m: Matrix, j0: nat, j: nat)
      requires Valid() && Shape(m, Snapshot(), n)
      requires j0 <= n && 1 <= p[j0] && 1 <= j <= n && !used[j] && j != j0
      modifies minv, way
      ensures minv[..] == old(minv[..])[j := minv[j]] && way[..] == old(way[..])[j := way[j]]
      ensures Folded(m, old(Snapshot()), minv[j], way[j], n, j0, j)
    {
      var i0 := p[j0];
      var cur := m[i0 - 1][j - 1] - u[i0] - v[j];
      if Less(Finite(cur), minv[j]) {
        minv[j], way[j] := Finite(cur), j0;
      }
    }

    /** Marks j0 and folds the edges of its row into minv and way; returns the cheapest
        column not yet used and its distance, or 0 and Infinite when none is left. */
    method Scan(m: Matrix, j0: nat) returns (delta: Extended, j1: nat)
      requires Valid() && Shape(m, Snapshot(), n)
      requires j0 <= n && 1 <= p[j0]
      modifies minv, way, used
      ensures Valid() && Shape(m, Snapshot(), n)
      ensures ScanOf(m, old(Snapshot()), Snapshot(), n, j0)
      ensures Leading(minv[..], used[..], n + 1, delta, j1)
    {
      hide Leading, Red, Less;
      ghost var s := Snapshot();
      used[j0] := true;
      delta, j1 := Infinite, 0;
      LeadingNone(minv[..], used[..]);
      var j := 1;
      while j <= n
        invariant 1 <= j <= n + 1
        invariant used[..] == s.used[j0 := true]
        invariant forall k :: j <= k <= n ==> minv[k] == s.minv[k] && way[k] == s.way[k]
        invariant forall k :: 0 <= k < j ==> Folded(m, s, minv[k], way[k], n, j0, k)
        invariant Leading(minv[..], used[..], j, delta, j1)
      {
        ghost var before, delta', j1' := minv[..], delta, j1;
        if !used[j] {
          Relax(m, j0, j);
          if Less(minv[j], delta) {
            delta, j1 := minv[j], j;
          }
        }
        LeadingNext(before, minv[..], used[..], j, delta', j1');
        j := j + 1;
      }
    }

    /** Moves the potentials by delta across the boundary of the tree. */
    method Relabel(ghost m: Matrix, delta: real)
      requires Valid() && Shape(m, Snapshot(), n)
      requires forall j, k :: 0 <= j < k <= n && used[j] && used[k] ==> p[j] != p[k]
      modifies u, v, minv
      ensures Valid() && Shape(m, Snapshot(), n)
      ensures RelabelOf(m, old(Snapshot()), Snapshot(), n, delta)
    {
      hide InTree, Red;
      ghost var s := Snapshot();
      var j := 0;
      InTreeNone(s.p[..0], s.used[..0]);
      while j <= n
        invariant 0 <= j <= n + 1
        invariant forall r :: 0 <= r <= n ==>
                    u[r] == if InTree(s.p[..j], s.used[..j], r) then s.u[r] + delta else s.u[r]
        invariant forall k :: 0 <= k <= n ==> v[k] == if k < j && used[k] then s.v[k] - delta else s.v[k]
        invariant forall k :: j <= k <= n ==> minv[k] == s.minv[k]
        invariant forall k :: 0 <= k < j && !used[k] && s.minv[k].Finite? ==>
                    minv[k] == Finite(s.minv[k].value - delta)
      {
        InTreeSnoc(s.p, s.used, j);
        InTreeOnce(s.p, s.used, j);
        if used[j] {
          u[p[j]] := u[p[j]] + delta;
          v[j] := v[j] - delta;
        } else if minv[j].Finite? {
          minv[j] := Finite(minv[j].value - delta);
        }
        j := j + 1;
      }
      assert s.p[..j] == s.p && s.used[..j] == s.used;
    }

    /** Marks, scans and relabels once: the search moves on from column j0 to column j1. */
    method Step(m: Matrix, ghost i: nat, ghost rank: seq<nat>, j0: nat) returns (j1: nat)
      requires Valid() && Growing(m, Snapshot(), n, i, rank, j0) && p[j0] != 0
      modifies minv, way, used, u, v
      ensures Valid() && j1 <= n && Growing(m, Snapshot(), n, i, rank[j1 := rank[j0] + 1], j1)
      ensures Unused(used[..]) < Unused(old(used[..]))
    {
      ghost var s0 := Snapshot();
      var delta;
      delta, j1 := Scan(m, j0);
      ghost var s1 := Snapshot();
      ScanStep(m, s0, s1, n, i, rank, j0);
      ColumnLeft(m, s1, n, i, rank, j0);
      ghost var left :| 1 <= left <= n && !s1.used[left];
      assert Cheapest(m, s1, n, left);
      Relabel(m, delta.value);
      RelabelStep(m, s1, Snapshot(), n, i, rank, j0, delta.value, j1);
      UnusedDrops(s0.used, j0);
    }

    /** Grows the alternating tree of row i until it reaches a free column. */
    method Grow(m: Matrix, ghost i: nat) returns (j0: nat, ghost rank: seq<nat>)
      requires Valid() && Growing(m, Snapshot(), n, i, seq(n + 1, _ => 0), 0)
      modifies minv, way, used, u, v
      ensures Valid() && j0 <= n && p[j0] == 0 && Growing(m, Snapshot(), n, i, rank, j0)
    {
      j0, rank := 0, seq(n + 1, _ => 0);
      while p[j0] != 0
        invariant Valid() && j0 <= n && Growing(m, Snapshot(), n, i, rank, j0)
        decreases Unused(used[..])
      {
        var j1 := Step(m, i, rank, j0);
        rank := rank[j1 := rank[j0] + 1];
        j0 := j1;
      }
    }

    /** One link of the flip: column h takes over the row of the column it hangs from. */
    method Hand(ghost m: Matrix, ghost i: nat, ghost rank: seq<nat>, ghost p0: seq<nat>, h: nat) returns (h': nat)
      requires Valid() && Flipping(m, Snapshot(), n, i, rank, p0, h) && h != 0 && Feasible(m, Snapshot(), n, i)
      modifies p
      ensures Valid() && Flipping(m, Snapshot(), n, i, rank, p0, h') && Feasible(m, Snapshot(), n, i)
      ensures rank[h'] < rank[h]
    {
      ghost var s := Snapshot();
      h' := way[h];
      p[h] := p[h'];
      assert Snapshot() == s.(p := s.p[h := s.p[h']]);
      FlipStep(m, s, Snapshot(), n, i, rank, p0, h);
    }

    /** Hands each row on the path from column h to the root one column down. */
    method Flip(ghost m: Matrix, ghost i: nat, ghost rank: seq<nat>, h: nat)
      requires Valid() && h <= n && p[h] == 0 && Growing(m, Snapshot(), n, i, rank, h)
      modifies p
      ensures Valid() && Shape(m, Snapshot(), n) && Seating(m, Snapshot(), n, i)
    {
      var j0 := h;
      ghost var p0 := p[..];
      FlipStarts(m, Snapshot(), n, i, rank, j0);
      while j0 != 0
        invariant Flipping(m, Snapshot(), n, i, rank, p0, j0) && Feasible(m, Snapshot(), n, i)
        decreases rank[j0]
      {
        j0 := Hand(m, i, rank, p0, j0);
      }
    }

    /** One phase: seats row i, growing an alternating tree to a free column and flipping the path to it. */
    method Insert(m: Matrix, i: nat)
      requires Valid() && Shape(m, Snapshot(), n) && 1 <= i <= n
      requires Seating(m, Snapshot(), n, i - 1)
      modifies this`minv, this`used, u, v, p, way
      ensures Valid() && fresh(minv) && fresh(used)
      ensures Shape(m, Snapshot(), n) && Seating(m, Snapshot(), n, i)
    {
      ghost var before := Snapshot();
      p[0] := i;
      Reset();
      PhaseStarts(m, before, Snapshot(), n, i, seq(n + 1, _ => 0));
      var j0, rank := Grow(m, i);
      Flip(m, i, rank, j0);
    }
  }

  /** Rows 1..k are seated in real columns, every seat tight and no edge of theirs infeasible. */
  ghost predicate Seating(m: Matrix, s: State, n: nat, k: nat)
    requires Shape(m, s, n) && k <= n
  {
    Placed(s.p, n, k, 0) && Tight(m, s, n, 0) && Feasible(m, s, n, k)
  }

  lemma PhaseStarts(m: Matrix, before: State, s: State, n: nat, i: nat, rank: seq<nat>)
    requires Shape(m, before, n) && 1 <= i <= n && Seating(m, before, n, i - 1)
    requires Shape(m, s, n) && |rank| == n + 1
    requires s.u == before.u && s.v == before.v && s.p == before.p[0 := i]
    requires forall j :: 0 <= j <= n ==> s.minv[j].Infinite? && !s.used[j]
    ensures Growing(m, s, n, i, rank, 0)
  {
    assert s.p[0] == i;
    var none := n + 1;
    forall r: nat | 1 <= r <= i ensures Seated(s.p, none, r) {
      if r < i {
        assert Seated(before.p, 0, r);
        var j :| 0 <= j <= n && j != 0 && before.p[j] == r;
        assert s.p[j] == r;
      }
    }
  }

  lemma FlipStarts(m: Matrix, s: State, n: nat, i: nat, rank: seq<nat>, j0: nat)
    requires Growing(m, s, n, i, rank, j0) && s.p[j0] == 0
    ensures Flipping(m, s, n, i, rank, s.p, j0) && Feasible(m, s, n, i)
  {
    forall r | 1 <= r <= i ensures Seated(s.p, j0, r) {
      assert Seated(s.p, n + 1, r);
    }
    assert s.(p := s.p) == s;
  }

  /** The column of each row, read off the seats. */
  ghost predicate ReadsOff(p: seq<nat>, out: seq<nat>, n: nat) {
    && |p| == n + 1 && |out| == n
    && forall i :: 0 <= i < n ==> out[i] < n && p[out[i] + 1] == i + 1
  }

  lemma PlacedApart(p: seq<nat>, n: nat)
    requires Placed(p, n, n, 0)
    ensures |p| == n + 1 && forall k :: 1 <= k <= n ==> p[k] <= n
    ensures forall j, k :: 1 <= j < k <= n && p[j] != 0 ==> p[j] != p[k]
  {
  }

  lemma SeatOf(p: seq<nat>, n: nat, r: nat) returns (k: nat)
    requires Placed(p, n, n, 0) && 1 <= r <= n
    ensures 1 <= k <= n < |p| && p[k] == r
  {
    assert Seated(p, 0, r);
    k :| 0 <= k < |p| && k != 0 && p[k] == r;
  }

  method ReadSeats(p: array<nat>, n: nat) returns (out: seq<nat>)
    requires p.Length == n + 1 && Placed(p[..], n, n, 0)
    ensures ReadsOff(p[..], out, n)
  {
    hide Placed, Seated;
    var cols := new nat[n](_ => 0);
    PlacedApart(p[..], n);
    var j := 1;
    while j <= n
      modifies cols
      invariant 1 <= j <= n + 1
      invariant forall k :: 1 <= k < j && p[k] > 0 ==> p[k] <= n && cols[p[k] - 1] == k - 1
    {
      assert p[..][j] == p[j];
      if p[j] > 0 {
        cols[p[j] - 1] := j - 1;
      }
      j := j + 1;
    }
    out := cols[..];
    forall r | 0 <= r < n ensures out[r] < n && p[out[r] + 1] == r + 1 {
      var k := SeatOf(p[..], n, r + 1);
      assert p[..][k] == p[k];
    }
  }

  lemma SeatingCertifies(m: Matrix, s: State, n: nat, out: seq<nat>)
    requires Shape(m, s, n) && Seating(m, s, n, n) && ReadsOff(s.p, out, n)
    ensures Certificate(m, s.u, s.v, out)
  {
  }

  ghost predicate IsOptimal(m: Matrix, q: seq<nat>) {
    && IsPermutation(q, |m|)
    && forall other :: IsPermutation(other, |m|) ==> Total(m, q) <= Total(m, other)
  }

  /** The cheapest perfect matching of a square matrix: for each row, its column. The ghost
      results are the potentials that certify it. */
  method Hungarian(m: Matrix) returns (out: seq<nat>, ghost u: seq<real>, ghost v: seq<real>)
    requires Square(m, |m|)
    ensures IsOptimal(m, out)
    ensures Certificate(m, u, v, out)
  {
    var n := |m|;
    var w := new Workspace(n);
    var i := 1;
    assert Seating(m, w.Snapshot(), n, 0);
    while i <= n
      invariant 1 <= i <= n + 1
      invariant w.Valid() && w.n == n && fresh(w.minv) && fresh(w.used)
      invariant Shape(m, w.Snapshot(), n) && Seating(m, w.Snapshot(), n, i - 1)
    {
      w.Insert(m, i);
      i := i + 1;
    }
    out := ReadSeats(w.p, n);
    u, v := w.u[..], w.v[..];
    SeatingCertifies(m, w.Snapshot(), n, out);
    forall other | IsPermutation(other, n) ensures Total(m, out) <= Total(m, other) {
      CertificateOptimal(m, u, v, out, other);
    }
  }

  lemma InTreeNone(p: seq<nat>, used: seq<bool>)
    requires |p| == |used| == 0
    ensures forall r :: !InTree(p, used, r)
  {
  }

  lemma InTreeOnce(p: seq<nat>, used: seq<bool>, j: nat)
    requires |p| == |used| && j < |p| && forall k :: 0 <= k < j && used[k] && used[j] ==> p[k] != p[j]
    ensures used[j] ==> !InTree(p[..j], used[..j], p[j])
  {
  }

  lemma InTreeSnoc(p: seq<nat>, used: seq<bool>, j: nat)
    requires |p| == |used| && j < |p|
    ensures forall r :: InTree(p[..j + 1], used[..j + 1], r)
                   <==> InTree(p[..j], used[..j], r) || (used[j] && p[j] == r)
  {
    forall r
      ensures InTree(p[..j + 1], used[..j + 1], r) <==> InTree(p[..j], used[..j], r) || (used[j] && p[j] == r)
    {
      if InTree(p[..j], used[..j], r) {
        var k :| 0 <= k < j && used[..j][k] && p[..j][k] == r;
        assert used[..j + 1][k] && p[..j + 1][k] == r;
      }
      if used[j] && p[j] == r {
        assert used[..j + 1][j] && p[..j + 1][j] == r;
      }
    }
  }
}
