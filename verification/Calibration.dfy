/** The reliability diagram and the Brier score of budget/calibration.go, with the five-term
    decomposition that holds at any bin count. */
module Calibrating {
  import opened Sums
  import opened KuhnMunkres

  /** One decision: the match weight the model gave, and the answer. */
  datatype Observation = Observation(weight: real, isMatch: bool)

  /** One column of the diagram. While it is being filled the last two fields hold totals. */
  datatype Bin = Bin(lower: real, upper: real, count: nat, meanForecast: real, observed: real)

  datatype BrierScore = BrierScore(
    score: real, reliability: real, resolution: real, uncertainty: real,
    withinVariance: real, withinCovariance: real, base: real, count: nat)
  {
    /** Resolution corrected for what equal-width bins leave inside them. */
    function GeneralisedResolution(): real {
      resolution - withinVariance + withinCovariance
    }
  }

  const DEFAULT_BINS: nat := 10

  /** Conversion to an integer, towards zero. */
  function Trunc(x: real): int {
    if x >= 0.0 then x.Floor else -((-x).Floor)
  }

  function BinIndex(p: real, bins: nat): (k: nat)
    requires bins >= 1
    ensures k < bins
  {
    var k := Trunc(p * bins as real);
    if k >= bins then bins - 1 else if k < 0 then 0 else k
  }

  /** A probability that is not one lies in the column it is drawn in. */
  lemma BinHolds(p: real, bins: nat)
    requires bins >= 1 && 0.0 <= p < 1.0
    ensures BinIndex(p, bins) as real <= p * bins as real < (BinIndex(p, bins) + 1) as real
  {
    var x := p * bins as real;
    assert bins as real * (1.0 - p) > 0.0;
    assert 0.0 <= x < bins as real;
    assert x.Floor as real <= x < x.Floor as real + 1.0;
    assert BinIndex(p, bins) == x.Floor;
  }

  // ----- Sums over observations -----

  function P(obs: seq<Observation>, prob: real -> real): nat -> real {
    (i: nat) => if i < |obs| then prob(obs[i].weight) else 0.0
  }

  function Y(obs: seq<Observation>): nat -> real {
    (i: nat) => if i < |obs| && obs[i].isMatch then 1.0 else 0.0
  }

  function Times(f: nat -> real, g: nat -> real): nat -> real { (i: nat) => Prod(f(i), g(i)) }

  /** (f - a)(g - b), pointwise. */
  function Dev(f: nat -> real, a: real, g: nat -> real, b: real): nat -> real {
    (i: nat) => Prod(f(i) - a, g(i) - b)
  }

  function Error(f: nat -> real, g: nat -> real): nat -> real { (i: nat) => Prod(f(i) - g(i), f(i) - g(i)) }

  /** The observations among the first n that fall into column k. */
  function Members(obs: seq<Observation>, prob: real -> real, bins: nat, k: nat, n: nat): seq<nat>
    requires bins >= 1 && n <= |obs|
  {
    if n == 0 then []
    else
      var init := Members(obs, prob, bins, k, n - 1);
      if BinIndex(prob(obs[n - 1].weight), bins) == k then init + [n - 1] else init
  }

  function InBin(obs: seq<Observation>, prob: real -> real, bins: nat, k: nat): seq<nat>
    requires bins >= 1
  {
    Members(obs, prob, bins, k, |obs|)
  }

  function Mean(f: nat -> real, q: seq<nat>): real {
    if q == [] then 0.0 else Ratio(Sum(f, q), |q| as real)
  }

  /** g summed over the first k columns. */
  function SumBins(g: nat -> real, k: nat): real {
    if k == 0 then 0.0 else SumBins(g, k - 1) + g(k - 1)
  }

  function PerBin(f: nat -> real, obs: seq<Observation>, prob: real -> real, bins: nat, n: nat): nat -> real
    requires bins >= 1 && n <= |obs|
  {
    (k: nat) => Sum(f, Members(obs, prob, bins, k, n))
  }

  lemma {:induction false} SumBinsOne(g: nat -> real, h: nat -> real, bins: nat, k: nat, x: real)
    requires forall j: nat :: j != k ==> h(j) == g(j)
    requires h(k) == g(k) + x
    ensures SumBins(h, bins) == SumBins(g, bins) + if k < bins then x else 0.0
    decreases bins
  {
    if bins > 0 {
      SumBinsOne(g, h, bins - 1, k, x);
    }
  }

  /** The columns partition the observations. */
  lemma {:induction false} SumByBins(f: nat -> real, obs: seq<Observation>, prob: real -> real, bins: nat, n: nat)
    requires bins >= 1 && n <= |obs|
    ensures SumBins(PerBin(f, obs, prob, bins, n), bins) == Sum(f, Range(n))
    decreases n
  {
    if n == 0 {
      SumBinsZero(PerBin(f, obs, prob, bins, 0), bins);
    } else {
      var k := BinIndex(prob(obs[n - 1].weight), bins);
      SumByBins(f, obs, prob, bins, n - 1);
      RangeSnoc(n - 1);
      SumSnoc(f, Members(obs, prob, bins, k, n - 1), n - 1);
      SumBinsOne(PerBin(f, obs, prob, bins, n - 1), PerBin(f, obs, prob, bins, n), bins, k, f(n - 1));
    }
  }

  lemma {:induction false} SumBinsZero(g: nat -> real, bins: nat)
    requires forall k: nat :: g(k) == 0.0
    ensures SumBins(g, bins) == 0.0
    decreases bins
  {
    if bins > 0 {
      SumBinsZero(g, bins - 1);
    }
  }

  // ----- Inside one column -----

  function Scale(c: real, f: nat -> real): nat -> real { (i: nat) => Prod(c, f(i)) }

  function Always(c: real): nat -> real { (i: nat) => c }

  function Twice(f: nat -> real): nat -> real { (i: nat) => 2.0 * f(i) }

  lemma {:induction false} SumTwice(f: nat -> real, q: seq<nat>)
    ensures Sum(Twice(f), q) == 2.0 * Sum(f, q)
    decreases |q|
  {
    if q != [] {
      SumTwice(f, q[..|q| - 1]);
    }
  }

  lemma {:induction false} SumScale(c: real, f: nat -> real, q: seq<nat>)
    ensures Sum(Scale(c, f), q) == Prod(c, Sum(f, q))
    decreases |q|
  {
    if q != [] {
      SumScale(c, f, q[..|q| - 1]);
      ProdPlus(c, Sum(f, q[..|q| - 1]), f(q[|q| - 1]));
    }
  }

  lemma {:induction false} SumAlways(c: real, q: seq<nat>)
    ensures Sum(Always(c), q) == Prod(|q| as real, c)
    decreases |q|
  {
    if q != [] {
      SumAlways(c, q[..|q| - 1]);
      assert Prod(|q| as real, c) == Prod((|q| - 1) as real, c) + c;
    }
  }

  lemma Expand(x: real, a: real, y: real, b: real)
    ensures Prod(x - a, y - b) == Prod(x, y) + (Prod(-b, x) + (Prod(-a, y) + Prod(a, b)))
  {
  }

  /** A sum of products of deviations, in terms of plain sums. */
  lemma SumDev(f: nat -> real, a: real, g: nat -> real, b: real, q: seq<nat>)
    ensures Sum(Dev(f, a, g, b), q)
         == Sum(Times(f, g), q) + Prod(-b, Sum(f, q)) + Prod(-a, Sum(g, q)) + Prod(|q| as real, Prod(a, b))
  {
    hide Prod;
    var rest := Plus(Scale(-a, g), Always(Prod(a, b)));
    var flat := Plus(Times(f, g), Plus(Scale(-b, f), rest));
    forall x | x in q ensures Dev(f, a, g, b)(x) == flat(x) {
      Expand(f(x), a, g(x), b);
    }
    SumExt(Dev(f, a, g, b), flat, q);
    SumPlus(Times(f, g), Plus(Scale(-b, f), rest), q);
    SumPlus(Scale(-b, f), rest, q);
    SumPlus(Scale(-a, g), Always(Prod(a, b)), q);
    SumScale(-b, f, q);
    SumScale(-a, g, q);
    SumAlways(Prod(a, b), q);
  }

  lemma SquareOfDifference(x: real, y: real)
    ensures Prod(x - y, x - y) == Prod(x, x) - 2.0 * Prod(x, y) + Prod(y, y)
  {
  }

  lemma {:induction false} SumError(f: nat -> real, g: nat -> real, q: seq<nat>)
    ensures Sum(Error(f, g), q) == Sum(Times(f, f), q) - 2.0 * Sum(Times(f, g), q) + Sum(Times(g, g), q)
    decreases |q|
  {
    if q != [] {
      SumError(f, g, q[..|q| - 1]);
      SquareOfDifference(f(q[|q| - 1]), g(q[|q| - 1]));
    }
  }

  lemma YSquare(obs: seq<Observation>, q: seq<nat>)
    ensures Sum(Times(Y(obs), Y(obs)), q) == Sum(Y(obs), q)
  {
    SumExt(Times(Y(obs), Y(obs)), Y(obs), q);
  }

  /** The algebra of one column: n observations with mean forecast f and share of matches o, and
      e, v, c, w the sums of its squared errors, spreads, covariations and remainders. */
  lemma ColumnAlgebra(n: real, f: real, o: real, b: real, q: real, r: real, t: real, e: real, v: real, c: real, w: real)
    requires t == Prod(n, o) && e == q - 2.0 * r + t
    requires v == q - Prod(n, Prod(f, f)) && c == r - Prod(n, Prod(f, o))
    requires w == t - 2.0 * Prod(b, t) + Prod(n, Prod(b, b))
    ensures e == Prod(n, Prod(f - o, f - o)) - Prod(n, Prod(o - b, o - b)) + v - 2.0 * c + w
  {
    ColumnExpanded(n, f, o);
    ColumnExpanded(n, o, b);
    assert Prod(b, Prod(n, o)) == Prod(n, Prod(o, b));
  }

  lemma ColumnExpanded(n: real, x: real, y: real)
    ensures Prod(n, Prod(x - y, x - y)) == Prod(n, Prod(x, x)) - 2.0 * Prod(n, Prod(x, y)) + Prod(n, Prod(y, y))
  {
    SquareOfDifference(x, y);
    ProdPlus(n, Prod(x, x) - 2.0 * Prod(x, y), Prod(y, y));
    assert Prod(n, Prod(x, x) - 2.0 * Prod(x, y)) == Prod(n, Prod(x, x)) - 2.0 * Prod(n, Prod(x, y));
  }

  // ----- The five terms -----

  function Base(obs: seq<Observation>): real { Mean(Y(obs), Range(|obs|)) }

  function Gap(obs: seq<Observation>, prob: real -> real, bins: nat, k: nat): real
    requires bins >= 1
  {
    Mean(P(obs, prob), InBin(obs, prob, bins, k)) - Mean(Y(obs), InBin(obs, prob, bins, k))
  }

  function Lift(obs: seq<Observation>, prob: real -> real, bins: nat, k: nat): real
    requires bins >= 1
  {
    Mean(Y(obs), InBin(obs, prob, bins, k)) - Base(obs)
  }

  /** A column's squared figure, weighted by its size. */
  function Weighted(obs: seq<Observation>, prob: real -> real, bins: nat, k: nat, x: real): real
    requires bins >= 1
  {
    Prod(|InBin(obs, prob, bins, k)| as real, Prod(x, x))
  }

  function Gaps(obs: seq<Observation>, prob: real -> real, bins: nat): nat -> real
    requires bins >= 1
  {
    (k: nat) => Weighted(obs, prob, bins, k, Gap(obs, prob, bins, k))
  }

  function Lifts(obs: seq<Observation>, prob: real -> real, bins: nat): nat -> real
    requires bins >= 1
  {
    (k: nat) => Weighted(obs, prob, bins, k, Lift(obs, prob, bins, k))
  }

  /** How far an observation's forecast lies from its column's mean forecast. */
  function Spread(obs: seq<Observation>, prob: real -> real, bins: nat): nat -> real
    requires bins >= 1
  {
    (i: nat) => if i < |obs| then P(obs, prob)(i) - Mean(P(obs, prob), InBin(obs, prob, bins, BinIndex(P(obs, prob)(i), bins))) else 0.0
  }

  /** How far its answer lies from its column's share of matches. */
  function Surprise(obs: seq<Observation>, prob: real -> real, bins: nat): nat -> real
    requires bins >= 1
  {
    (i: nat) => if i < |obs| then Y(obs)(i) - Mean(Y(obs), InBin(obs, prob, bins, BinIndex(P(obs, prob)(i), bins))) else 0.0
  }

  /** The score and its parts, each from its own definition. */
  function Scored(obs: seq<Observation>, prob: real -> real, bins: nat): BrierScore
    requires bins >= 1 && obs != []
  {
    var n := |obs| as real;
    var all := Range(|obs|);
    BrierScore(
      Ratio(Sum(Error(P(obs, prob), Y(obs)), all), n),
      Ratio(SumBins(Gaps(obs, prob, bins), bins), n),
      Ratio(SumBins(Lifts(obs, prob, bins), bins), n),
      Prod(Base(obs), 1.0 - Base(obs)),
      Ratio(Sum(Times(Spread(obs, prob, bins), Spread(obs, prob, bins)), all), n),
      Ratio(Sum(Twice(Times(Spread(obs, prob, bins), Surprise(obs, prob, bins))), all), n),
      Base(obs),
      |obs|)
  }

  lemma {:induction false} MembersFall(obs: seq<Observation>, prob: real -> real, bins: nat, k: nat, n: nat)
    requires bins >= 1 && n <= |obs|
    ensures forall x :: x in Members(obs, prob, bins, k, n) ==> x < n && BinIndex(P(obs, prob)(x), bins) == k
    decreases n
  {
    if n > 0 {
      MembersFall(obs, prob, bins, k, n - 1);
    }
  }

  function Rest(y: nat -> real, b: real): nat -> real {
    Plus(Scale(1.0 - 2.0 * b, y), Always(Prod(b, b)))
  }

  lemma SumRest(y: nat -> real, b: real, q: seq<nat>)
    ensures Sum(Rest(y, b), q) == Sum(y, q) - 2.0 * Prod(b, Sum(y, q)) + Prod(|q| as real, Prod(b, b))
  {
    hide Prod;
    SumPlus(Scale(1.0 - 2.0 * b, y), Always(Prod(b, b)), q);
    SumScale(1.0 - 2.0 * b, y, q);
    SumAlways(Prod(b, b), q);
    OneLessTwice(b, Sum(y, q));
  }

  lemma OneLessTwice(b: real, t: real)
    ensures Prod(1.0 - 2.0 * b, t) == t - 2.0 * Prod(b, t)
  {
  }

  /** Deviations from the means leave one product behind. */
  lemma SumAroundMeans(f: nat -> real, a: real, g: nat -> real, b: real, q: seq<nat>)
    requires Prod(|q| as real, a) == Sum(f, q) && Prod(|q| as real, b) == Sum(g, q)
    ensures Sum(Dev(f, a, g, b), q) == Sum(Times(f, g), q) - Prod(|q| as real, Prod(a, b))
  {
    hide Prod;
    SumDev(f, a, g, b, q);
    MeanProducts(|q| as real, a, b, Sum(f, q), Sum(g, q));
  }

  lemma MeanProducts(n: real, a: real, b: real, s: real, t: real)
    requires Prod(n, a) == s && Prod(n, b) == t
    ensures Prod(-b, s) == -Prod(n, Prod(a, b)) && Prod(-a, t) == -Prod(n, Prod(a, b))
  {
    assert -b * (n * a) == -(n * (a * b));
    assert -a * (n * b) == -(n * (a * b));
  }

  lemma MeanTimesSize(f: nat -> real, q: seq<nat>)
    ensures Prod(|q| as real, Mean(f, q)) == Sum(f, q)
  {
  }

  /** One column on its own: squared errors of zero-one answers y by forecasts p, around any b. */
  lemma ColumnOnItsOwn(p: nat -> real, y: nat -> real, f: real, o: real, b: real, m: seq<nat>)
    requires Sum(Times(y, y), m) == Sum(y, m)
    requires Prod(|m| as real, f) == Sum(p, m) && Prod(|m| as real, o) == Sum(y, m)
    ensures Sum(Error(p, y), m)
            == Prod(|m| as real, Prod(f - o, f - o)) - Prod(|m| as real, Prod(o - b, o - b))
               + Sum(Dev(p, f, p, f), m) - 2.0 * Sum(Dev(p, f, y, o), m) + Sum(Rest(y, b), m)
  {
    hide Prod;
    SumError(p, y, m);
    SumAroundMeans(p, f, p, f, m);
    SumAroundMeans(p, f, y, o, m);
    SumRest(y, b, m);
    ColumnAlgebra(|m| as real, f, o, b, Sum(Times(p, p), m), Sum(Times(p, y), m), Sum(y, m),
                  Sum(Error(p, y), m), Sum(Dev(p, f, p, f), m), Sum(Dev(p, f, y, o), m), Sum(Rest(y, b), m));
  }

  lemma SpreadInColumn(obs: seq<Observation>, prob: real -> real, bins: nat, k: nat)
    requires bins >= 1
    ensures var m := InBin(obs, prob, bins, k);
            var p, y := P(obs, prob), Y(obs);
            && Sum(Times(Spread(obs, prob, bins), Spread(obs, prob, bins)), m) == Sum(Dev(p, Mean(p, m), p, Mean(p, m)), m)
            && Sum(Times(Spread(obs, prob, bins), Surprise(obs, prob, bins)), m) == Sum(Dev(p, Mean(p, m), y, Mean(y, m)), m)
  {
    hide Ratio, Mean;
    var m := InBin(obs, prob, bins, k);
    var p, y := P(obs, prob), Y(obs);
    MembersFall(obs, prob, bins, k, |obs|);
    SumExt(Times(Spread(obs, prob, bins), Spread(obs, prob, bins)), Dev(p, Mean(p, m), p, Mean(p, m)), m);
    SumExt(Times(Spread(obs, prob, bins), Surprise(obs, prob, bins)), Dev(p, Mean(p, m), y, Mean(y, m)), m);
  }

  /** One column's errors, split over the five terms. */
  lemma ColumnSplits(obs: seq<Observation>, prob: real -> real, bins: nat, k: nat)
    requires bins >= 1
    ensures var m := InBin(obs, prob, bins, k);
            Sum(Error(P(obs, prob), Y(obs)), m)
            == Weighted(obs, prob, bins, k, Gap(obs, prob, bins, k)) - Weighted(obs, prob, bins, k, Lift(obs, prob, bins, k))
               + Sum(Times(Spread(obs, prob, bins), Spread(obs, prob, bins)), m)
               - 2.0 * Sum(Times(Spread(obs, prob, bins), Surprise(obs, prob, bins)), m)
               + Sum(Rest(Y(obs), Base(obs)), m)
  {
    hide Prod, Ratio, Mean;
    var m := InBin(obs, prob, bins, k);
    YSquare(obs, m);
    MeanTimesSize(P(obs, prob), m);
    MeanTimesSize(Y(obs), m);
    ColumnOnItsOwn(P(obs, prob), Y(obs), Mean(P(obs, prob), m), Mean(Y(obs), m), Base(obs), m);
    SpreadInColumn(obs, prob, bins, k);
  }

  lemma {:induction false} SumBinsSplit(e: nat -> real, g: nat -> real, l: nat -> real, v: nat -> real,
                                        c: nat -> real, w: nat -> real, bins: nat)
    requires forall k: nat :: k < bins ==> e(k) == g(k) - l(k) + v(k) - 2.0 * c(k) + w(k)
    ensures SumBins(e, bins) == SumBins(g, bins) - SumBins(l, bins) + SumBins(v, bins) - 2.0 * SumBins(c, bins) + SumBins(w, bins)
    decreases bins
  {
    if bins > 0 {
      SumBinsSplit(e, g, l, v, c, w, bins - 1);
    }
  }

  /** The decomposition before dividing by the number of observations. */
  lemma TotalsDecompose(obs: seq<Observation>, prob: real -> real, bins: nat)
    requires bins >= 1
    ensures var all := Range(|obs|);
            Sum(Error(P(obs, prob), Y(obs)), all)
            == SumBins(Gaps(obs, prob, bins), bins)
               - SumBins(Lifts(obs, prob, bins), bins)
               + Sum(Times(Spread(obs, prob, bins), Spread(obs, prob, bins)), all)
               - 2.0 * Sum(Times(Spread(obs, prob, bins), Surprise(obs, prob, bins)), all)
               + Sum(Rest(Y(obs), Base(obs)), all)
  {
    var n := |obs|;
    var e, w := Error(P(obs, prob), Y(obs)), Rest(Y(obs), Base(obs));
    var v := Times(Spread(obs, prob, bins), Spread(obs, prob, bins));
    var c := Times(Spread(obs, prob, bins), Surprise(obs, prob, bins));
    forall k: nat | k < bins
      ensures PerBin(e, obs, prob, bins, n)(k)
           == Gaps(obs, prob, bins)(k) - Lifts(obs, prob, bins)(k)
              + PerBin(v, obs, prob, bins, n)(k) - 2.0 * PerBin(c, obs, prob, bins, n)(k) + PerBin(w, obs, prob, bins, n)(k)
    {
      ColumnSplits(obs, prob, bins, k);
    }
    SumBinsSplit(PerBin(e, obs, prob, bins, n),
                 Gaps(obs, prob, bins), Lifts(obs, prob, bins),
                 PerBin(v, obs, prob, bins, n), PerBin(c, obs, prob, bins, n), PerBin(w, obs, prob, bins, n), bins);
    SumByBins(e, obs, prob, bins, n);
    SumByBins(v, obs, prob, bins, n);
    SumByBins(c, obs, prob, bins, n);
    SumByBins(w, obs, prob, bins, n);
  }

  /** Score = Reliability - Resolution + Uncertainty + WithinBinVariance - WithinBinCovariance. */
  ghost predicate FiveTerms(s: BrierScore) {
    s.score == s.reliability - s.resolution + s.uncertainty + s.withinVariance - s.withinCovariance
  }

  /** The five terms add up to the score, exactly, at every number of observations and columns and
      under every calibration. */
  lemma BrierDecomposes(obs: seq<Observation>, prob: real -> real, bins: nat)
    requires bins >= 1 && obs != []
    ensures FiveTerms(Scored(obs, prob, bins))
  {
    hide Prod, Ratio, Mean;
    var all := Range(|obs|);
    TotalsDecompose(obs, prob, bins);
    RestIsUncertainty(obs);
    SumTwice(Times(Spread(obs, prob, bins), Surprise(obs, prob, bins)), all);
    DivideThrough(|obs| as real, Sum(Error(P(obs, prob), Y(obs)), all),
                  SumBins(Gaps(obs, prob, bins), bins), SumBins(Lifts(obs, prob, bins), bins),
                  Sum(Times(Spread(obs, prob, bins), Spread(obs, prob, bins)), all),
                  Sum(Times(Spread(obs, prob, bins), Surprise(obs, prob, bins)), all),
                  Sum(Twice(Times(Spread(obs, prob, bins), Surprise(obs, prob, bins))), all),
                  Sum(Rest(Y(obs), Base(obs)), all), Prod(Base(obs), 1.0 - Base(obs)));
  }

  lemma RestIsUncertainty(obs: seq<Observation>)
    ensures Sum(Rest(Y(obs), Base(obs)), Range(|obs|)) == Prod(|obs| as real, Prod(Base(obs), 1.0 - Base(obs)))
  {
    var all := Range(|obs|);
    SumRest(Y(obs), Base(obs), all);
    MeanTimesSize(Y(obs), all);
    UncertaintyAlgebra(|obs| as real, Base(obs), Sum(Y(obs), all), Sum(Rest(Y(obs), Base(obs)), all));
  }

  lemma UncertaintyAlgebra(n: real, b: real, t: real, w: real)
    requires Prod(n, b) == t && w == t - 2.0 * Prod(b, t) + Prod(n, Prod(b, b))
    ensures w == Prod(n, Prod(b, 1.0 - b))
  {
    assert b * (n * b) == n * (b * b);
    assert n * (b * (1.0 - b)) == n * b - n * (b * b);
  }

  lemma DivideThrough(n: real, e: real, g: real, l: real, v: real, c: real, d: real, w: real, u: real)
    requires n > 0.0 && d == 2.0 * c && e == g - l + v - 2.0 * c + w && w == Prod(n, u)
    ensures Ratio(e, n) == Ratio(g, n) - Ratio(l, n) + u + Ratio(v, n) - Ratio(d, n)
  {
    assert w / n == u;
  }

  // ----- The methods -----

  /** Column k of the diagram. */
  function BinOf(obs: seq<Observation>, prob: real -> real, bins: nat, k: nat): Bin
    requires bins >= 1
  {
    var m := InBin(obs, prob, bins, k);
    Bin(Ratio(k as real, bins as real), Ratio((k + 1) as real, bins as real), |m|, Mean(P(obs, prob), m), Mean(Y(obs), m))
  }

  /** Column k while the diagram is being filled: totals of the first n observations. */
  function Tally(obs: seq<Observation>, prob: real -> real, bins: nat, k: nat, n: nat): Bin
    requires bins >= 1 && n <= |obs|
  {
    var m := Members(obs, prob, bins, k, n);
    Bin(Ratio(k as real, bins as real), Ratio((k + 1) as real, bins as real), |m|, Sum(P(obs, prob), m), Sum(Y(obs), m))
  }

  lemma TallyStep(obs: seq<Observation>, prob: real -> real, bins: nat, n: nat, k: nat)
    requires bins >= 1 && n < |obs|
    ensures var i := BinIndex(prob(obs[n].weight), bins);
            var t := Tally(obs, prob, bins, k, n);
            Tally(obs, prob, bins, k, n + 1)
            == if k == i
               then t.(count := t.count + 1, meanForecast := t.meanForecast + prob(obs[n].weight),
                       observed := t.observed + if obs[n].isMatch then 1.0 else 0.0)
               else t
  {
    var m := Members(obs, prob, bins, k, n);
    SumSnoc(P(obs, prob), m, n);
    SumSnoc(Y(obs), m, n);
  }

  function Columns(bins: int): nat { if bins < 1 then DEFAULT_BINS else bins }

  /** Counts every observation into its column. */
  method Fill(obs: seq<Observation>, prob: real -> real, bins: nat, diagram: array<Bin>)
    requires bins >= 1 && diagram.Length == bins
    requires forall k :: 0 <= k < bins ==> diagram[k] == Tally(obs, prob, bins, k, 0)
    modifies diagram
    ensures forall k :: 0 <= k < bins ==> diagram[k] == Tally(obs, prob, bins, k, |obs|)
  {
    hide Sum, Ratio, P, Y, Members;
    var n := 0;
    while n < |obs|
      invariant n <= |obs|
      invariant forall k :: 0 <= k < bins ==> diagram[k] == Tally(obs, prob, bins, k, n)
    {
      var p := prob(obs[n].weight);
      var i := BinIndex(p, bins);
      forall k | 0 <= k < bins
        ensures Tally(obs, prob, bins, k, n + 1)
             == (var t := Tally(obs, prob, bins, k, n);
                 if k == i then t.(count := t.count + 1, meanForecast := t.meanForecast + p,
                                   observed := t.observed + if obs[n].isMatch then 1.0 else 0.0)
                 else t)
      {
        TallyStep(obs, prob, bins, n, k);
      }
      var b := diagram[i];
      diagram[i] := b.(count := b.count + 1, meanForecast := b.meanForecast + p,
                       observed := b.observed + if obs[n].isMatch then 1.0 else 0.0);
      n := n + 1;
    }
  }

  /** The diagram: predictions grouped by what they claimed, each group's claim against its outcome. */
  method Reliability(obs: seq<Observation>, prob: real -> real, bins0: int) returns (diagram: array<Bin>)
    ensures fresh(diagram) && diagram.Length == Columns(bins0)
    ensures forall k :: 0 <= k < diagram.Length ==> diagram[k] == BinOf(obs, prob, diagram.Length, k)
  {
    var bins := Columns(bins0);
    diagram := new Bin[bins]((k: nat) => Bin(Ratio(k as real, bins as real), Ratio((k + 1) as real, bins as real), 0, 0.0, 0.0));
    Fill(obs, prob, bins, diagram);
    var k := 0;
    while k < bins
      invariant k <= bins
      invariant forall j :: 0 <= j < k ==> diagram[j] == BinOf(obs, prob, bins, j)
      invariant forall j :: k <= j < bins ==> diagram[j] == Tally(obs, prob, bins, j, |obs|)
    {
      var b := diagram[k];
      if b.count > 0 {
        diagram[k] := b.(meanForecast := Ratio(b.meanForecast, b.count as real), observed := Ratio(b.observed, b.count as real));
      }
      k := k + 1;
    }
  }

  /** The score itself, and the base rate, in one pass. */
  method Residuals(obs: seq<Observation>, prob: real -> real) returns (score: real, matches: nat)
    ensures score == Sum(Error(P(obs, prob), Y(obs)), Range(|obs|))
    ensures matches as real == Sum(Y(obs), Range(|obs|))
  {
    score, matches := 0.0, 0;
    var i := 0;
    while i < |obs|
      invariant i <= |obs|
      invariant score == Sum(Error(P(obs, prob), Y(obs)), Range(i))
      invariant matches as real == Sum(Y(obs), Range(i))
    {
      RangeSnoc(i);
      var p, y := prob(obs[i].weight), 0.0;
      if obs[i].isMatch {
        matches := matches + 1;
        y := 1.0;
      }
      score := score + Prod(p - y, p - y);
      i := i + 1;
    }
  }

  /** The column-wise terms: how far claims are from outcomes, and outcomes from the base rate. */
  method ColumnTerms(obs: seq<Observation>, prob: real -> real, diagram: array<Bin>, base: real)
    returns (reliability: real, resolution: real)
    requires diagram.Length >= 1 && obs != [] && base == Base(obs)
    requires forall k :: 0 <= k < diagram.Length ==> diagram[k] == BinOf(obs, prob, diagram.Length, k)
    ensures reliability == Ratio(SumBins(Gaps(obs, prob, diagram.Length), diagram.Length), |obs| as real)
    ensures resolution == Ratio(SumBins(Lifts(obs, prob, diagram.Length), diagram.Length), |obs| as real)
  {
    hide Prod, Ratio, Mean;
    var bins, n := diagram.Length, |obs| as real;
    reliability, resolution := 0.0, 0.0;
    RatioZero(n);
    var k := 0;
    while k < bins
      invariant k <= bins
      invariant reliability == Ratio(SumBins(Gaps(obs, prob, bins), k), n)
      invariant resolution == Ratio(SumBins(Lifts(obs, prob, bins), k), n)
    {
      var b := diagram[k];
      var gap, lift := b.meanForecast - b.observed, b.observed - base;
      RatioStep(SumBins(Gaps(obs, prob, bins), k), b.count as real, gap, n);
      RatioStep(SumBins(Lifts(obs, prob, bins), k), b.count as real, lift, n);
      if b.count != 0 {
        var w := Ratio(b.count as real, n);
        reliability := reliability + Prod(Prod(w, gap), gap);
        resolution := resolution + Prod(Prod(w, lift), lift);
      }
      k := k + 1;
    }
  }

  lemma RatioZero(n: real)
    requires n > 0.0
    ensures Ratio(0.0, n) == 0.0
  {
  }

  lemma RatioStep(s: real, c: real, x: real, n: real)
    requires n > 0.0
    ensures Ratio(s + Prod(c, Prod(x, x)), n) == Ratio(s, n) + Prod(Prod(Ratio(c, n), x), x)
    ensures c == 0.0 ==> Prod(c, Prod(x, x)) == 0.0
  {
    assert (c / n) * x * x == c * (x * x) / n;
  }

  /** The terms left inside the columns, in one pass over the observations. */
  method WithinTerms(obs: seq<Observation>, prob: real -> real, diagram: array<Bin>) returns (variance: real, covariance: real)
    requires diagram.Length >= 1
    requires forall k :: 0 <= k < diagram.Length ==> diagram[k] == BinOf(obs, prob, diagram.Length, k)
    ensures variance == Sum(Times(Spread(obs, prob, diagram.Length), Spread(obs, prob, diagram.Length)), Range(|obs|))
    ensures covariance == Sum(Twice(Times(Spread(obs, prob, diagram.Length), Surprise(obs, prob, diagram.Length))), Range(|obs|))
  {
    hide Prod, Ratio, Mean;
    var bins := diagram.Length;
    variance, covariance := 0.0, 0.0;
    var i := 0;
    while i < |obs|
      invariant i <= |obs|
      invariant variance == Sum(Times(Spread(obs, prob, bins), Spread(obs, prob, bins)), Range(i))
      invariant covariance == Sum(Twice(Times(Spread(obs, prob, bins), Surprise(obs, prob, bins))), Range(i))
    {
      RangeSnoc(i);
      var p := prob(obs[i].weight);
      var b := diagram[BinIndex(p, bins)];
      var d, e := p - b.meanForecast, (if obs[i].isMatch then 1.0 else 0.0) - b.observed;
      variance := variance + Prod(d, d);
      covariance := covariance + 2.0 * Prod(d, e);
      i := i + 1;
    }
  }

  const NO_SCORE := BrierScore(0.0, 0.0, 0.0, 0.0, 0.0, 0.0, 0.0, 0)

  /** Scores a set of observations under a calibrated probability. */
  method Brier(obs: seq<Observation>, prob: real -> real, bins0: int) returns (s: BrierScore)
    ensures obs == [] ==> s == NO_SCORE
    ensures obs != [] ==> s == Scored(obs, prob, Columns(bins0))
    ensures FiveTerms(s)
    ensures s.score == s.reliability - s.GeneralisedResolution() + s.uncertainty
  {
    hide Prod, Ratio, Sum, SumBins, Gaps, Lifts, Times, Spread, Surprise, Twice, Error, P, Y, BinOf;
    if obs == [] {
      return NO_SCORE;
    }
    var n := |obs| as real;
    var score, matches := Residuals(obs, prob);
    var base := Ratio(matches as real, n);
    var diagram := Reliability(obs, prob, bins0);
    var reliability, resolution := ColumnTerms(obs, prob, diagram, base);
    var variance, covariance := WithinTerms(obs, prob, diagram);
    s := BrierScore(Ratio(score, n), reliability, resolution, Prod(base, 1.0 - base),
                    Ratio(variance, n), Ratio(covariance, n), base, |obs|);
    BrierDecomposes(obs, prob, diagram.Length);
  }
}
