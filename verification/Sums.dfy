/** Finite sums of reals over index sequences, and the pigeonhole facts the
    matching proofs rest on. Nothing here is specific to the importer. */
module Sums {

  datatype Option<+T> = None | Some(value: T)

  /** A product and a quotient by name, so that a proof can carry them as atoms. */
  function Prod(x: real, y: real): real { x * y }

  function Ratio(x: real, n: real): real
    requires n != 0.0
  {
    x / n
  }

  lemma ProdPlus(c: real, x: real, y: real)
    ensures Prod(c, x + y) == Prod(c, x) + Prod(c, y)
  {
  }

  /** Sum of f over the indices listed in q, with multiplicity. */
  function Sum(f: nat -> real, q: seq<nat>): real {
    if |q| == 0 then 0.0 else Sum(f, q[..|q| - 1]) + f(q[|q| - 1])
  }

  /** 0, 1, ..., n-1. */
  function Range(n: nat): (r: seq<nat>)
    ensures |r| == n && forall i :: 0 <= i < n ==> r[i] == i
  {
    seq(n, i => i)
  }

  ghost predicate Distinct<T(!new)>(q: seq<T>) {
    forall i, j :: 0 <= i < j < |q| ==> q[i] != q[j]
  }

  ghost predicate Below(q: seq<nat>, n: nat) {
    forall i :: 0 <= i < |q| ==> q[i] < n
  }

  ghost predicate IsPermutation(q: seq<nat>, n: nat) {
    |q| == n && Below(q, n) && Distinct(q)
  }

  lemma RangeSnoc(n: nat)
    ensures Range(n + 1)[..n] == Range(n)
    ensures Range(n + 1) == Range(n) + [n]
  {
  }

  lemma {:induction false} SumConcat(f: nat -> real, a: seq<nat>, b: seq<nat>)
    ensures Sum(f, a + b) == Sum(f, a) + Sum(f, b)
    decreases |b|
  {
    if b == [] {
      assert a + b == a;
    } else {
      var b' := b[..|b| - 1];
      SumConcat(f, a, b');
      assert (a + b)[..|a + b| - 1] == a + b';
    }
  }

  lemma {:induction false} SumLe(f: nat -> real, g: nat -> real, q: seq<nat>)
    requires forall x :: x in q ==> f(x) <= g(x)
    ensures Sum(f, q) <= Sum(g, q)
    decreases |q|
  {
    if q != [] {
      SumLe(f, g, q[..|q| - 1]);
    }
  }

  lemma {:induction false} SumExt(f: nat -> real, g: nat -> real, q: seq<nat>)
    requires forall x :: x in q ==> f(x) == g(x)
    ensures Sum(f, q) == Sum(g, q)
    decreases |q|
  {
    if q != [] {
      SumExt(f, g, q[..|q| - 1]);
    }
  }

  /** f and g agree everywhere on q but at one position: the sums differ by exactly that. */
  lemma {:induction false} SumUpdate(f: nat -> real, g: nat -> real, q: seq<nat>, x: nat)
    requires Distinct(q) && x in q
    requires forall y :: y in q && y != x ==> f(y) == g(y)
    ensures Sum(g, q) == Sum(f, q) - f(x) + g(x)
    decreases |q|
  {
    var q' := q[..|q| - 1];
    var last := q[|q| - 1];
    if last == x {
      SumExt(f, g, q');
    } else {
      assert x in q';
      SumUpdate(f, g, q', x);
    }
  }

  function Without<T>(q: seq<T>, t: nat): seq<T>
    requires t < |q|
  {
    q[..t] + q[t + 1..]
  }

  lemma WithoutCounts<T>(q: seq<T>, t: nat)
    requires t < |q|
    ensures multiset(Without(q, t)) == multiset(q) - multiset{q[t]}
    ensures multiset(q) == multiset(Without(q, t)) + multiset{q[t]}
  {
    assert q == q[..t] + ([q[t]] + q[t + 1..]);
  }

  lemma SameSize<T>(a: seq<T>, b: seq<T>)
    requires multiset(a) == multiset(b)
    ensures |a| == |b|
  {
    assert |multiset(a)| == |a| && |multiset(b)| == |b|;
  }

  lemma InitCounts<T>(q: seq<T>)
    requires q != []
    ensures multiset(q[..|q| - 1]) == multiset(q) - multiset{q[|q| - 1]}
    ensures q == q[..|q| - 1] + [q[|q| - 1]]
  {
    WithoutCounts(q, |q| - 1);
    assert Without(q, |q| - 1) == q[..|q| - 1];
  }

  lemma {:induction false} SumWithout(f: nat -> real, q: seq<nat>, t: nat)
    requires t < |q|
    ensures Sum(f, q) == Sum(f, Without(q, t)) + f(q[t])
    decreases |q|
  {
    var last := |q| - 1;
    var q' := q[..last];
    if t == last {
      assert Without(q, t) == q';
    } else {
      SumWithout(f, q', t);
      assert Without(q, t) == Without(q', t) + [q[last]];
      SumSnoc(f, Without(q', t), q[last]);
    }
  }

  lemma SumSnoc(f: nat -> real, q: seq<nat>, x: nat)
    ensures Sum(f, q + [x]) == Sum(f, q) + f(x)
  {
    assert (q + [x])[..|q|] == q;
  }

  /** The sum does not depend on the order in which the indices are listed. */
  lemma {:induction false} SumPermuted(f: nat -> real, a: seq<nat>, b: seq<nat>)
    requires multiset(a) == multiset(b)
    ensures Sum(f, a) == Sum(f, b)
    decreases |a|
  {
    if a == [] {
      assert |b| == |multiset(b)| == |multiset(a)| == 0;
    } else {
      var last := |a| - 1;
      assert a[last] in multiset(b);
      var t :| 0 <= t < |b| && b[t] == a[last];
      WithoutCounts(a, last);
      WithoutCounts(b, t);
      SumWithout(f, a, last);
      SumWithout(f, b, t);
      SumPermuted(f, Without(a, last), Without(b, t));
    }
  }

  /** A list of distinct numbers below n has at most n entries. */
  lemma {:induction false} Pigeonhole(q: seq<nat>, n: nat)
    requires Below(q, n) && Distinct(q)
    ensures |q| <= n
    decreases n
  {
    if q != [] {
      assert q[0] < n;
      if n - 1 in q {
        var t :| 0 <= t < |q| && q[t] == n - 1;
        Pigeonhole(q[..t] + q[t + 1..], n - 1);
      } else {
        Pigeonhole(q, n - 1);
      }
    }
  }

  /** A permutation reaches every number below n. */
  lemma {:induction false} PermutationOnto(q: seq<nat>, n: nat, x: nat)
    requires IsPermutation(q, n) && x < n
    ensures x in q
  {
    if x !in q {
      Pigeonhole(q + [x], n);
    }
  }

  lemma {:induction false} PermutationMultiset(q: seq<nat>, n: nat)
    requires IsPermutation(q, n)
    ensures multiset(q) == multiset(Range(n))
  {
    forall x: nat
      ensures multiset(q)[x] == multiset(Range(n))[x]
    {
      DistinctCount(q, x);
      DistinctCount(Range(n), x);
      if x < n {
        PermutationOnto(q, n, x);
        assert Range(n)[x] == x;
      }
    }
  }

  lemma {:induction false} DistinctCount(q: seq<nat>, x: nat)
    requires Distinct(q)
    ensures multiset(q)[x] == if x in q then 1 else 0
    decreases |q|
  {
    if q != [] {
      var q' := q[..|q| - 1];
      assert q == q' + [q[|q| - 1]];
      DistinctCount(q', x);
    }
  }

  lemma SumOverPermutation(f: nat -> real, q: seq<nat>, n: nat)
    requires IsPermutation(q, n)
    ensures Sum(f, q) == Sum(f, Range(n))
  {
    PermutationMultiset(q, n);
    SumPermuted(f, q, Range(n));
  }

  /** Any injective start extends to a full permutation. */
  lemma {:induction false} ExtendToPermutation(q: seq<nat>, n: nat) returns (full: seq<nat>)
    requires Below(q, n) && Distinct(q)
    ensures IsPermutation(full, n) && |q| <= n && full[..|q|] == q
    decreases n - |q|
  {
    Pigeonhole(q, n);
    if |q| == n {
      full := q;
    } else {
      var x := FreshBelow(q, n);
      full := ExtendToPermutation(q + [x], n);
      assert full[..|q|] == full[..|q| + 1][..|q|];
    }
  }

  lemma {:induction false} FreshBelow(q: seq<nat>, n: nat) returns (x: nat)
    requires |q| < n
    ensures x < n && x !in q
    decreases n
  {
    if n - 1 !in q {
      x := n - 1;
    } else {
      var t :| 0 <= t < |q| && q[t] == n - 1;
      x := FreshBelow(q[..t] + q[t + 1..], n - 1);
    }
  }
}
