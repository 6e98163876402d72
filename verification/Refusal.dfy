/** The comment at noMatchWeight of budget/reconcile.go: an arrangement never reaches for a pairing
    that would be refused anyway. When that is so. */
module Refusing {
  import opened Sums
  import opened Budget
  import opened KuhnMunkres
  import opened Arrangements
  import opened Padding
  import opened Solving
  import opened Assessing
  import opened Reconciling

  ghost predicate StrictlyIncreasing(p: real -> real) {
    forall x, y :: x < y ==> p(x) < p(y)
  }

  function Rescaled(a: real, b: real, w: real): real { a * w + b }

  /** Platt's calibration rescales a weight before the logistic p sees it. */
  function Calibrated(p: real -> real, a: real, b: real): real -> real {
    (w: real) => p(Rescaled(a, b, w))
  }

  /** Every candidate carries the probability the policy gives its weight. */
  ghost predicate Carries(pol: Policy, rows: Rows) {
    forall i, c :: 0 <= i < |rows| && c in rows[i] ==> c.probability == pol.probability(c.weight)
  }

  /** Transaction i was paired, and the pairing is refused. */
  predicate Refused(pol: Policy, asg: seq<Assignment>, i: nat) {
    i < |asg| && asg[i].candidate.Some? && DecideAssigned(pol, asg[i]).Refuse?
  }

  /** No solved batch, whatever it offers, holds a pairing that is refused. */
  ghost predicate NeverRefuses(pol: Policy)
    requires pol.review != 1.0
  {
    forall rows: Rows, asg: seq<Assignment>, i: nat ::
      AllDistinctIds(rows) && Dominated(rows, NoMatchWeight(pol)) && Carries(pol, rows) && Solved(rows, NoMatchWeight(pol), asg) ==>
        !Refused(pol, asg, i)
  }

  lemma RescaledGrows(a: real, b: real, x: real, y: real)
    requires a > 0.0 && x <= y
    ensures Rescaled(a, b, x) <= Rescaled(a, b, y)
  {
    assert a * (y - x) >= 0.0;
  }

  lemma ValueOne(o: Option<Candidate>, noMatch: real)
    ensures Value([o], noMatch) == Gain(o, noMatch)
  {
    assert Range(1)[..0] == [];
    assert Sum(GainAt([o], noMatch), []) == 0.0;
  }

  /** The batch of one transaction offered one row that is worth exactly the no-match weight. */
  function Lone(pol: Policy, t: Transaction): Candidate
    requires pol.review != 1.0
  {
    var w := NoMatchWeight(pol);
    Candidate(t, Comparison(PayeeNone, AmountExact, DateSame, 0.0), w, pol.probability(w), 1)
  }

  /** Pairing it is a best arrangement. */
  lemma LoneSolved(pol: Policy, t: Transaction)
    requires pol.review != 1.0
    ensures Solved([[Lone(pol, t)]], NoMatchWeight(pol), [Assignment(0, Some(Lone(pol, t)), Finite(0.0), 1)])
  {
    var c, noMatch := Lone(pol, t), NoMatchWeight(pol);
    var rows, asg := [[c]], [Assignment(0, Some(c), Finite(0.0), 1)];
    var p: Pairing, w: Pairing := [Some(c)], [None];
    assert Chosen(asg) == p;
    ValueOne(Some(c), noMatch);
    ValueOne(None, noMatch);
    forall ban: Ban, other: Pairing | Valid(rows, ban, other) ensures Value(other, noMatch) == noMatch {
      assert other == [other[0]];
      ValueOne(other[0], noMatch);
      assert other[0].Some? ==> other[0].value in rows[0];
    }
    assert TwinIds(rows[0], t) == {c.Id()};
    assert BestWithout(rows, noMatch, p, 0, w);
  }

  /** A pairing worth at least the no-match weight passes a threshold the calibration does not raise. */
  lemma PassesThreshold(p: real -> real, a: real, b: real, noMatch: real, w: real)
    requires StrictlyIncreasing(p) && a > 0.0 && Rescaled(a, b, noMatch) >= noMatch && w >= noMatch
    ensures Calibrated(p, a, b)(w) >= p(noMatch)
  {
    hide Rescaled;
    RescaledGrows(a, b, noMatch, w);
    assert noMatch < Rescaled(a, b, w) ==> p(noMatch) < p(Rescaled(a, b, w));
  }

  lemma PairedNotRefused(pol: Policy, p: real -> real, a: real, b: real, rows: Rows, asg: seq<Assignment>, i: nat)
    requires pol.review != 1.0 && StrictlyIncreasing(p) && a > 0.0 && Rescaled(a, b, NoMatchWeight(pol)) >= NoMatchWeight(pol)
    requires pol.probability == Calibrated(p, a, b) && p(NoMatchWeight(pol)) == pol.review
    requires Carries(pol, rows) && Solved(rows, NoMatchWeight(pol), asg)
    ensures !Refused(pol, asg, i)
  {
    hide Rescaled, Calibrated, NoMatchWeight, StrictlyIncreasing;
    if i < |asg| && asg[i].candidate.Some? {
      var c := Chosen(asg)[i].value;
      BestAboveNoMatch(rows, {}, NoMatchWeight(pol), Chosen(asg), i);
      assert c in rows[i];
      PassesThreshold(p, a, b, NoMatchWeight(pol), c.weight);
    }
  }

  /** With a calibration (a, b), a > 0, before the logistic p, and the review threshold the
      probability p gives the no-match weight, no pairing of any batch is refused exactly if the
      calibration does not lower the no-match weight. If it does, the lone row worth that weight is
      paired and refused. */
  lemma ReachedNeverRefused(pol: Policy, p: real -> real, a: real, b: real, t: Transaction)
    requires pol.review != 1.0 && NoMatchWeight(pol) > -UNAVAILABLE
    requires StrictlyIncreasing(p) && a > 0.0
    requires pol.probability == Calibrated(p, a, b) && p(NoMatchWeight(pol)) == pol.review
    ensures NeverRefuses(pol) <==> Rescaled(a, b, NoMatchWeight(pol)) >= NoMatchWeight(pol)
    ensures Rescaled(a, b, NoMatchWeight(pol)) < NoMatchWeight(pol) ==>
              Refused(pol, [Assignment(0, Some(Lone(pol, t)), Finite(0.0), 1)], 0)
  {
    hide Rescaled, Solved, NoMatchWeight;
    var noMatch := NoMatchWeight(pol);
    if Rescaled(a, b, noMatch) >= noMatch {
      forall rows: Rows, asg: seq<Assignment>, i: nat | Carries(pol, rows) && Solved(rows, noMatch, asg)
        ensures !Refused(pol, asg, i)
      {
        PairedNotRefused(pol, p, a, b, rows, asg, i);
      }
    } else {
      LoneSolved(pol, t);
      var rows: Rows := [[Lone(pol, t)]];
      assert Carries(pol, rows) && Dominated(rows, noMatch) && AllDistinctIds(rows);
      assert Refused(pol, [Assignment(0, Some(Lone(pol, t)), Finite(0.0), 1)], 0);
    }
  }
}
