/** Which policies the batch matcher is fit for: with a base-two logarithm and tables that are not
    astronomically lopsided, no weight comes near the arrangement's sentinel. */
module Scaling {
  import opened Sums
  import opened Budget
  import opened Padding
  import opened Assessing
  import opened Reconciling

  /** What is used of the logarithm to base two. */
  ghost predicate BaseTwo(lg: real -> real) {
    && lg(2.0) == 1.0
    && (forall x, y :: x > 0.0 && y > 0.0 ==> lg(Prod(x, y)) == lg(x) + lg(y))
    && forall x, y :: 0.0 < x <= y ==> lg(x) <= lg(y)
  }

  /** Two to the minus k. */
  function Half(k: nat): (r: real)
    ensures 0.0 < r <= 1.0
  {
    if k == 0 then 1.0 else Half(k - 1) / 2.0
  }

  lemma {:induction false} LogOfHalf(lg: real -> real, k: nat)
    requires BaseTwo(lg)
    ensures lg(Half(k)) == -(k as real)
    decreases k
  {
    if k == 0 {
      assert Prod(1.0, 1.0) == 1.0;
    } else {
      LogOfHalf(lg, k - 1);
      assert Prod(Half(k), 2.0) == Half(k - 1);
    }
  }

  /** A quotient of two shares no smaller than 2^-k is worth at least -k bits. */
  lemma LogOfRatio(lg: real -> real, k: nat, m: real, u: real)
    requires BaseTwo(lg) && Half(k) <= m && 0.0 < u <= 1.0
    ensures lg(m / u) >= -(k as real)
  {
    LogOfHalf(lg, k);
    DividedGrows(m, u);
  }

  lemma DividedGrows(m: real, u: real)
    requires 0.0 <= m && 0.0 < u <= 1.0
    ensures m / u >= m
  {
    var q := m / u;
    assert q * u == m && q >= 0.0;
    assert q * (1.0 - u) >= 0.0;
  }

  /** The shares a table holds are no larger than one, and those that count no smaller than 2^-k. */
  ghost predicate Even<K(!new)>(table: map<K, real>, k: nat) {
    forall x :: x in table && table[x] > 0.0 ==> Half(k) <= table[x] <= 1.0
  }

  /** Tables, frequencies, overlap and review threshold within 2^-k of their range, and at most 2^k rows. */
  ghost predicate Reasonable(pol: Policy, most: nat, k: nat) {
    var l := pol.linkage;
    && Even(l.payeeM, k) && Even(l.payeeU, k) && Even(l.amountM, k) && Even(l.amountU, k) && Even(l.dateM, k) && Even(l.dateU, k)
    && (forall s :: pol.frequency(s) <= 1.0)
    && (0.0 < pol.overlap < 1.0 ==> Half(k) <= pol.overlap)
    && Half(k) <= pol.review < 1.0
    && (most == 0 || Half(k) <= 1.0 / most as real)
    && k >= 1
  }

  lemma {:induction false} HalfSum(j: nat, k: nat)
    ensures Half(j + k) == Prod(Half(j), Half(k))
    decreases k
  {
    if k > 0 {
      HalfSum(j, k - 1);
    }
  }

  lemma EvidenceBounded<K(!new)>(lg: real -> real, k: nat, m: map<K, real>, u: map<K, real>, x: K)
    requires BaseTwo(lg) && Even(m, k) && Even(u, k)
    ensures Evidence(lg, Share(m, x), Share(u, x)) >= -(k as real)
  {
    if Share(m, x) > 0.0 && Share(u, x) > 0.0 {
      LogOfRatio(lg, k, m[x], u[x]);
    }
  }

  /** The prior odds of one of n rows. */
  lemma PriorBounded(pol: Policy, most: nat, k: nat, n: nat)
    requires BaseTwo(pol.lg) && Reasonable(pol, most, k) && 1 <= n <= most
    ensures pol.lg(PriorOdds(n, pol.overlap)) >= -(2.0 * k as real)
  {
    hide BaseTwo, Half, Prod;
    var share := if pol.overlap <= 0.0 || pol.overlap >= 1.0 then DEFAULT_OVERLAP else pol.overlap;
    HalfFalls(1, k);
    HalfOfOne();
    OneOver(n, most);
    HalfSum(k, k);
    OneOf(share, n);
    ProdGrows(Half(k), share, Half(k), 1.0 / n as real);
    LogOfRatio(pol.lg, k + k, share / n as real, 1.0 - share);
  }

  lemma HalfOfOne()
    ensures Half(1) == 0.5
  {
  }

  lemma OneOf(share: real, n: nat)
    requires n >= 1
    ensures share / n as real == Prod(share, 1.0 / n as real)
  {
  }

  lemma ProdGrows(a: real, b: real, c: real, d: real)
    requires 0.0 <= a <= b && 0.0 <= c <= d
    ensures Prod(a, c) <= Prod(b, d)
  {
    assert a * c <= b * c <= b * d;
  }

  lemma OneOver(n: nat, most: nat)
    requires 1 <= n <= most
    ensures 1.0 / n as real >= 1.0 / most as real
  {
  }

  lemma {:induction false} HalfFalls(j: nat, k: nat)
    requires j <= k
    ensures Half(k) <= Half(j)
    decreases k
  {
    if j < k {
      HalfFalls(j, k - 1);
    }
  }

  /** With a logarithm to base two and reasonable tables, the batch matcher's weights stay above the
      sentinel: six terms of at most k bits each, two of them the prior's. */
  lemma ReasonableIsSane(pol: Policy, most: nat, k: nat)
    requires BaseTwo(pol.lg) && Reasonable(pol, most, k) && k <= 100_000_000
    ensures Sane(pol, most)
  {
    hide BaseTwo, Half, Even, Evidence, PriorOdds, Compare, Share;
    LogOfReview(pol, most, k);
    forall t, f, n | 1 <= n <= most ensures Weight(pol, Compare(pol, t, f), n) > -UNAVAILABLE {
      var c, l := Compare(pol, t, f), pol.linkage;
      PriorBounded(pol, most, k, n);
      EvidenceBounded(pol.lg, k, l.payeeM, l.payeeU, c.payee);
      EvidenceBounded(pol.lg, k, l.amountM, l.amountU, c.amount);
      EvidenceBounded(pol.lg, k, l.dateM, l.dateU, c.date);
      FrequencyBounded(pol, most, k, t, f);
    }
  }

  lemma FrequencyBounded(pol: Policy, most: nat, k: nat, t: Transaction, f: ImportedFields)
    requires BaseTwo(pol.lg) && Reasonable(pol, most, k)
    ensures FrequencyCorrection(pol, Compare(pol, t, f)) >= -(k as real)
  {
    var c := Compare(pol, t, f);
    var base := Share(pol.linkage.payeeU, PayeeExact);
    if c.payee == PayeeExact && c.payeeFrequency > 0.0 && base > 0.0 {
      LogOfRatio(pol.lg, k, base, c.payeeFrequency);
    }
  }

  lemma LogOfReview(pol: Policy, most: nat, k: nat)
    requires BaseTwo(pol.lg) && Reasonable(pol, most, k)
    ensures pol.review != 1.0 && NoMatchWeight(pol) >= -(k as real)
  {
    assert 0.0 < Half(k) <= pol.review;
    LogOfRatio(pol.lg, k, pol.review, 1.0 - pol.review);
  }
}
