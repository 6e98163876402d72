/** budget/refit.go: the level tables refitted from counted decisions, with one level pinned and
    uninformative silences held at their shipped ratio. */
module Refitting {
  import opened Sums
  import opened Budget
  import opened Assessing

  // ----- Sums over levels, in no particular order -----

  ghost function SumOver<K(!new)>(f: K -> real, s: set<K>): real {
    if s == {} then 0.0 else
    var k :| k in s;
    f(k) + SumOver(f, s - {k})
  }

  lemma {:induction false} SumOverPick<K(!new)>(f: K -> real, s: set<K>, k: K)
    requires k in s
    ensures SumOver(f, s) == f(k) + SumOver(f, s - {k})
    decreases s
  {
    var x :| x in s && SumOver(f, s) == f(x) + SumOver(f, s - {x});
    if x != k {
      SumOverPick(f, s - {x}, k);
      SumOverPick(f, s - {k}, x);
      assert s - {x} - {k} == s - {k} - {x};
    }
  }

  lemma {:induction false} SumOverSplit<K(!new)>(f: K -> real, a: set<K>, b: set<K>)
    requires a !! b
    ensures SumOver(f, a + b) == SumOver(f, a) + SumOver(f, b)
    decreases a
  {
    if a == {} {
      assert a + b == b;
    } else {
      var k :| k in a;
      SumOverPick(f, a, k);
      SumOverPick(f, a + b, k);
      assert a + b - {k} == (a - {k}) + b;
      SumOverSplit(f, a - {k}, b);
    }
  }

  /** g is f times c plus h times d, over d2: the sums follow. */
  lemma {:induction false} SumOverLinear<K(!new)>(g: K -> real, f: K -> real, c: real, h: K -> real, d: real, s: set<K>)
    requires forall k :: k in s ==> g(k) == Prod(c, f(k)) + Prod(d, h(k))
    ensures SumOver(g, s) == Prod(c, SumOver(f, s)) + Prod(d, SumOver(h, s))
    decreases s
  {
    hide Prod;
    ProdZero(c);
    ProdZero(d);
    if s != {} {
      var k :| k in s;
      SumOverPick(g, s, k);
      SumOverPick(f, s, k);
      SumOverPick(h, s, k);
      SumOverLinear(g, f, c, h, d, s - {k});
      ProdPlus(c, f(k), SumOver(f, s - {k}));
      ProdPlus(d, h(k), SumOver(h, s - {k}));
    }
  }

  lemma {:induction false} SumOverScale<K(!new)>(g: K -> real, c: real, f: K -> real, s: set<K>)
    requires forall k :: k in s ==> g(k) == Prod(c, f(k))
    ensures SumOver(g, s) == Prod(c, SumOver(f, s))
    decreases s
  {
    hide Prod;
    ProdZero(c);
    if s != {} {
      var k :| k in s;
      SumOverPick(g, s, k);
      SumOverPick(f, s, k);
      SumOverScale(g, c, f, s - {k});
      ProdPlus(c, f(k), SumOver(f, s - {k}));
    }
  }

  lemma ProdZero(c: real)
    ensures Prod(c, 0.0) == 0.0
  {
  }

  lemma {:induction false} SumOverExt<K(!new)>(f: K -> real, g: K -> real, s: set<K>)
    requires forall k :: k in s ==> f(k) == g(k)
    ensures SumOver(f, s) == SumOver(g, s)
    decreases s
  {
    if s != {} {
      var k :| k in s;
      SumOverPick(f, s, k);
      SumOverPick(g, s, k);
      SumOverExt(f, g, s - {k});
    }
  }

  lemma {:induction false} SumOverPositive<K(!new)>(f: K -> real, s: set<K>)
    requires forall k :: k in s ==> f(k) > 0.0
    ensures SumOver(f, s) >= 0.0 && (s != {} ==> SumOver(f, s) > 0.0)
    decreases s
  {
    if s != {} {
      var k :| k in s;
      SumOverPick(f, s, k);
      SumOverPositive(f, s - {k});
    }
  }

  lemma {:induction false} SumOverZero<K(!new)>(f: K -> real, s: set<K>)
    requires forall k :: k in s ==> f(k) == 0.0
    ensures SumOver(f, s) == 0.0
    decreases s
  {
    if s != {} {
      var k :| k in s;
      SumOverPick(f, s, k);
      SumOverZero(f, s - {k});
    }
  }

  // ----- Tables and counts -----

  function Of<K(!new)>(m: map<K, real>): K -> real { (k: K) => Share(m, k) }

  function Count<K>(c: map<K, nat>, k: K): nat { if k in c then c[k] else 0 }

  function Counted<K(!new)>(c: map<K, nat>): K -> real { (k: K) => Count(c, k) as real }

  ghost function Mass<K(!new)>(m: map<K, real>): real { SumOver(Of(m), m.Keys) }

  ghost function Observations<K(!new)>(c: map<K, nat>): (total: real)
    ensures total >= 0.0
  {
    CountsAreNonNegative(c, c.Keys);
    SumOver(Counted(c), c.Keys)
  }

  /** Strictly positive and summing to one. */
  ghost predicate Distribution<K(!new)>(m: map<K, real>) {
    (forall k :: k in m ==> m[k] > 0.0) && Mass(m) == 1.0
  }

  const DEFAULT_ALPHA: real := 2.0

  function Alpha(alpha: real): (a: real)
    ensures a > 0.0
  {
    if alpha <= 0.0 then DEFAULT_ALPHA else alpha
  }

  lemma ObservationsOnLevels<K(!new)>(c: map<K, nat>, levels: set<K>)
    requires c.Keys <= levels
    ensures SumOver(Counted(c), levels) == Observations(c)
  {
    SumOverSplit(Counted(c), c.Keys, levels - c.Keys);
    assert c.Keys + (levels - c.Keys) == levels;
    SumOverZero(Counted(c), levels - c.Keys);
  }

  lemma {:induction false} CountsAreNonNegative<K(!new)>(c: map<K, nat>, s: set<K>)
    ensures SumOver(Counted(c), s) >= 0.0
    decreases s
  {
    if s != {} {
      var k :| k in s;
      SumOverPick(Counted(c), s, k);
      CountsAreNonNegative(c, s - {k});
    }
  }

  // ----- The posterior mean -----

  /** (a * p + c) / (a + total), per level. */
  function PosteriorAt(p: real, c: nat, a: real, total: real): real
    requires a + total != 0.0
  {
    (a * p + c as real) / (a + total)
  }

  /** The Dirichlet posterior mean of the counts, starting from the prior. */
  ghost function PosteriorOf<K(!new)>(prior: map<K, real>, counts: map<K, nat>, alpha: real): map<K, real> {
    map k | k in prior :: PosteriorAt(prior[k], Count(counts, k), Alpha(alpha), Observations(counts))
  }

  lemma PosteriorPositive(p: real, c: nat, a: real, total: real)
    requires p > 0.0 && a > 0.0 && total >= 0.0
    ensures PosteriorAt(p, c, a, total) > 0.0
  {
    assert a * p > 0.0;
  }

  lemma PosteriorUnmoved(p: real, a: real)
    requires a > 0.0
    ensures PosteriorAt(p, 0, a, 0.0) == p
  {
  }

  lemma PosteriorSplit(p: real, c: nat, a: real, total: real)
    requires a + total > 0.0
    ensures PosteriorAt(p, c, a, total) == Prod(Ratio(a, a + total), p) + Prod(Ratio(1.0, a + total), c as real)
  {
  }

  lemma PosteriorSum(a: real, total: real)
    requires a + total > 0.0
    ensures Prod(Ratio(a, a + total), 1.0) + Prod(Ratio(1.0, a + total), total) == 1.0
  {
  }

  /** The posterior of a distribution, from counts on its levels, is a distribution; without any
      observation it is the prior. */
  lemma PosteriorDistribution<K(!new)>(prior: map<K, real>, counts: map<K, nat>, alpha: real)
    requires Distribution(prior) && counts.Keys <= prior.Keys
    ensures Distribution(PosteriorOf(prior, counts, alpha))
    ensures Observations(counts) == 0.0 ==> PosteriorOf(prior, counts, alpha) == prior
  {
    hide Prod, Ratio, PosteriorAt;
    var out := PosteriorOf(prior, counts, alpha);
    var a, total := Alpha(alpha), Observations(counts);
    ObservationsOnLevels(counts, prior.Keys);
    forall k | k in out
      ensures out[k] > 0.0
      ensures Of(out)(k) == Prod(Ratio(a, a + total), Of(prior)(k)) + Prod(Ratio(1.0, a + total), Counted(counts)(k))
    {
      PosteriorPositive(prior[k], Count(counts, k), a, total);
      PosteriorSplit(prior[k], Count(counts, k), a, total);
    }
    assert out.Keys == prior.Keys;
    SumOverLinear(Of(out), Of(prior), Ratio(a, a + total), Counted(counts), Ratio(1.0, a + total), prior.Keys);
    PosteriorSum(a, total);
    if total == 0.0 {
      forall k | k in prior ensures out[k] == prior[k] {
        NoObservations(counts, k);
        PosteriorUnmoved(prior[k], a);
      }
    }
  }

  lemma NoObservations<K(!new)>(counts: map<K, nat>, k: K)
    requires Observations(counts) == 0.0
    ensures Count(counts, k) == 0
  {
    if k in counts {
      SumOverPick(Counted(counts), counts.Keys, k);
      CountsAreNonNegative(counts, counts.Keys - {k});
    }
  }

  /** Why the two sides of a field cannot be refitted apart: a level neither side has seen drifts
      from its shipped ratio by (a + U) / (a + M), whatever its own masses. */
  lemma UnobservedDrift(pm: real, pu: real, a: real, totalM: real, totalU: real)
    requires pm > 0.0 && pu > 0.0 && a > 0.0 && totalM >= 0.0 && totalU >= 0.0
    ensures PosteriorAt(pu, 0, a, totalU) > 0.0
    ensures PosteriorAt(pm, 0, a, totalM) / PosteriorAt(pu, 0, a, totalU) == (pm / pu) * ((a + totalU) / (a + totalM))
    ensures PosteriorAt(pm, 0, a, totalM) / PosteriorAt(pu, 0, a, totalU) == pm / pu <==> totalM == totalU
  {
    PosteriorPositive(pu, 0, a, totalU);
    var x, y := a + totalM, a + totalU;
    var m, u := PosteriorAt(pm, 0, a, totalM), PosteriorAt(pu, 0, a, totalU);
    assert m * x == a * pm && u * y == a * pu;
    var r := (pm / pu) * (y / x);
    assert r * u == m by {
      assert pm / pu * pu == pm;
      assert r * u * pu * x == pm * y * u;
      assert m * pu * x == a * pm * pu;
      assert pm * y * u == pm * (a * pu);
    }
    assert m / u == r;
    if x != y {
      assert y / x != 1.0;
    }
  }

  // ----- One level pinned -----

  /** The level is really held out: it carries some of the mass but not all of it. */
  predicate HeldOut<K>(prior: map<K, real>, pinned: Option<K>) {
    pinned.Some? && pinned.value in prior && 0.0 < prior[pinned.value] < 1.0
  }

  /** The other levels' shares of the mass the pinned one leaves. */
  function ConditionalOf<K(!new)>(prior: map<K, real>, k0: K): map<K, real>
    requires k0 in prior && prior[k0] != 1.0
  {
    map k | k in prior && k != k0 :: Ratio(prior[k], 1.0 - prior[k0])
  }

  function CountsOn<K>(counts: map<K, nat>, levels: set<K>): map<K, nat> {
    map k | k in levels :: Count(counts, k)
  }

  /** The pinned level back at its stated mass, the others scaled into the rest. */
  function RescaledOf<K(!new)>(post: map<K, real>, prior: map<K, real>, k0: K): map<K, real>
    requires k0 in prior
  {
    (map k | k in post :: Prod(1.0 - prior[k0], post[k]))[k0 := prior[k0]]
  }

  ghost function PosteriorExcludingOf<K(!new)>(prior: map<K, real>, counts: map<K, nat>, alpha: real, pinned: Option<K>): map<K, real> {
    if !HeldOut(prior, pinned) then PosteriorOf(prior, counts, alpha)
    else
      var k0 := pinned.value;
      RescaledOf(PosteriorOf(ConditionalOf(prior, k0), CountsOn(counts, prior.Keys - {k0}), alpha), prior, k0)
  }

  lemma ConditionalDistribution<K(!new)>(prior: map<K, real>, k0: K)
    requires Distribution(prior) && k0 in prior && prior[k0] < 1.0
    ensures Distribution(ConditionalOf(prior, k0))
  {
    hide Prod, Ratio;
    var rest, conditional := 1.0 - prior[k0], ConditionalOf(prior, k0);
    SumOverPick(Of(prior), prior.Keys, k0);
    assert conditional.Keys == prior.Keys - {k0};
    forall k | k in conditional
      ensures conditional[k] > 0.0 && Of(conditional)(k) == Prod(Ratio(1.0, rest), Of(prior)(k))
    {
      ShareOfRest(prior[k], rest);
    }
    SumOverScale(Of(conditional), Ratio(1.0, rest), Of(prior), conditional.Keys);
    WholeOfRest(rest);
  }

  lemma ShareOfRest(p: real, rest: real)
    requires p > 0.0 && rest > 0.0
    ensures Ratio(p, rest) > 0.0 && Ratio(p, rest) == Prod(Ratio(1.0, rest), p)
  {
  }

  lemma WholeOfRest(rest: real)
    requires rest > 0.0
    ensures Prod(Ratio(1.0, rest), rest) == 1.0 && Prod(rest, 1.0) == rest
  {
  }

  lemma RescaledDistribution<K(!new)>(post: map<K, real>, prior: map<K, real>, k0: K)
    requires Distribution(post) && k0 in prior && k0 !in post && 0.0 < prior[k0] < 1.0
    ensures Distribution(RescaledOf(post, prior, k0))
  {
    var rest, out := 1.0 - prior[k0], RescaledOf(post, prior, k0);
    forall k | k in post ensures out[k] > 0.0 && Of(out)(k) == Prod(rest, Of(post)(k)) {
      assert rest * post[k] > 0.0;
    }
    SumOverScale(Of(out), rest, Of(post), post.Keys);
    SumOverPick(Of(out), out.Keys, k0);
    assert out.Keys - {k0} == post.Keys;
    WholeOfRest(rest);
  }

  /** With one level pinned the result is still a distribution, the pinned level keeps its mass to
      the last digit, and without any observation the prior comes back. */
  lemma ExcludingDistribution<K(!new)>(prior: map<K, real>, counts: map<K, nat>, alpha: real, pinned: Option<K>)
    requires Distribution(prior) && counts.Keys <= prior.Keys
    ensures var out := PosteriorExcludingOf(prior, counts, alpha, pinned);
            && Distribution(out) && out.Keys == prior.Keys
            && (HeldOut(prior, pinned) ==> out[pinned.value] == prior[pinned.value])
            && (Observations(counts) == 0.0 ==> out == prior)
  {
    hide Distribution, Observations;
    if !HeldOut(prior, pinned) {
      PosteriorDistribution(prior, counts, alpha);
    } else {
      var k0 := pinned.value;
      var estimated := CountsOn(counts, prior.Keys - {k0});
      ConditionalDistribution(prior, k0);
      PosteriorDistribution(ConditionalOf(prior, k0), estimated, alpha);
      RescaledDistribution(PosteriorOf(ConditionalOf(prior, k0), estimated, alpha), prior, k0);
      if Observations(counts) == 0.0 {
        NothingEstimated(counts, prior.Keys - {k0});
        forall k | k in prior && k != k0 ensures Prod(1.0 - prior[k0], Ratio(prior[k], 1.0 - prior[k0])) == prior[k] {
          ScaleBack(prior[k], 1.0 - prior[k0]);
        }
      }
    }
  }

  lemma NothingEstimated<K(!new)>(counts: map<K, nat>, levels: set<K>)
    requires Observations(counts) == 0.0
    ensures Observations(CountsOn(counts, levels)) == 0.0
  {
    var estimated := CountsOn(counts, levels);
    forall k | k in estimated ensures Counted(estimated)(k) == 0.0 {
      NoObservations(counts, k);
    }
    SumOverZero(Counted(estimated), estimated.Keys);
  }

  lemma ScaleBack(p: real, rest: real)
    requires rest > 0.0
    ensures Prod(rest, Ratio(p, rest)) == p
  {
  }

  // ----- Holding the ratio of uninformative silences -----

  const INFORMATIVE_SILENCE: real := 5.0

  /** No label reached level k, there is a shipped ratio to hold it at, and the prior did not
      expect enough of it for its absence to mean anything. */
  predicate Silent<K>(priorM: map<K, real>, priorU: map<K, real>, countsM: map<K, nat>, u: map<K, real>,
                      pinned: Option<K>, total: real, k: K)
  {
    && Some(k) != pinned && Count(countsM, k) == 0
    && !(Share(priorU, k) <= 0.0 || Share(u, k) <= 0.0)
    && !(Prod(Share(priorM, k), total) >= INFORMATIVE_SILENCE)
  }

  lemma SilentMeans<K>(priorM: map<K, real>, priorU: map<K, real>, countsM: map<K, nat>, u: map<K, real>,
                       pinned: Option<K>, total: real, k: K)
    ensures !Silent(priorM, priorU, countsM, u, pinned, total, k) <==>
            || Some(k) == pinned || Count(countsM, k) > 0
            || Share(priorU, k) <= 0.0 || Share(u, k) <= 0.0
            || Prod(Share(priorM, k), total) >= INFORMATIVE_SILENCE
  {
  }

  /** The m share that puts level k back at its shipped ratio to u. */
  function Restored<K(!new)>(priorM: map<K, real>, priorU: map<K, real>, u: map<K, real>): K -> real {
    (k: K) => if Share(priorU, k) > 0.0 then Prod(Share(u, k), Ratio(Share(priorM, k), Share(priorU, k))) else 0.0
  }

  function PinnedKeys<K>(m: map<K, real>, pinned: Option<K>): set<K> {
    if pinned.Some? && pinned.value in m then {pinned.value} else {}
  }

  /** What the rule works with: which levels it holds, and the masses on either side. */
  datatype Hold<!K> = Hold(held: set<K>, pinned: set<K>, heldMass: real, observedMass: real, pinnedMass: real)
  {
    function Target(): real { 1.0 - pinnedMass - heldMass }

    predicate Fires() { held != {} && observedMass > 0.0 && Target() > 0.0 }
  }

  ghost function HoldOf<K(!new)>(priorM: map<K, real>, priorU: map<K, real>, countsM: map<K, nat>,
                                 m: map<K, real>, u: map<K, real>, pinned: Option<K>): Hold<K>
  {
    var total := Observations(countsM);
    var pin := PinnedKeys(m, pinned);
    var held := set k | k in m && Silent(priorM, priorU, countsM, u, pinned, total, k);
    Hold(held, pin, SumOver(Restored(priorM, priorU, u), held), SumOver(Of(m), m.Keys - held - pin), SumOver(Of(m), pin))
  }

  /** m' is m with the held levels restored and the observed ones scaled into the rest, if the rule fires. */
  ghost predicate IsHeld<K(!new)>(m': map<K, real>, h: Hold<K>, priorM: map<K, real>, priorU: map<K, real>,
                                  m: map<K, real>, u: map<K, real>)
  {
    if !h.Fires() then m' == m
    else
      && m'.Keys == m.Keys
      && forall k :: k in m ==>
           m'[k] == if k in h.pinned then m[k]
                    else if k in h.held then Restored(priorM, priorU, u)(k)
                    else Prod(Ratio(h.Target(), h.observedMass), m[k])
  }

  /** Restoring a ratio restores it exactly. */
  lemma RestoredRatio(u: real, pm: real, pu: real)
    requires u > 0.0 && pm > 0.0 && pu > 0.0
    ensures Prod(u, Ratio(pm, pu)) > 0.0 && Ratio(Prod(u, Ratio(pm, pu)), u) == Ratio(pm, pu)
  {
    assert pm / pu > 0.0;
    assert u * (pm / pu) > 0.0;
  }

  /** The rule keeps a distribution one, leaves the pinned level alone, and puts every level it
      holds at exactly its shipped ratio. */
  lemma HoldKeeps<K(!new)>(m': map<K, real>, priorM: map<K, real>, priorU: map<K, real>, countsM: map<K, nat>,
                           m: map<K, real>, u: map<K, real>, pinned: Option<K>)
    requires Distribution(m) && Distribution(u) && Distribution(priorM) && Distribution(priorU)
    requires m.Keys == u.Keys == priorM.Keys == priorU.Keys
    requires IsHeld(m', HoldOf(priorM, priorU, countsM, m, u, pinned), priorM, priorU, m, u)
    ensures Distribution(m') && m'.Keys == m.Keys
    ensures pinned.Some? && pinned.value in m ==> m'[pinned.value] == m[pinned.value]
    ensures var h := HoldOf(priorM, priorU, countsM, m, u, pinned);
            h.Fires() ==> forall k :: k in h.held ==> Ratio(m'[k], u[k]) == Ratio(priorM[k], priorU[k])
  {
    hide Prod, Ratio, SumOver, Mass, Observations;
    var h := HoldOf(priorM, priorU, countsM, m, u, pinned);
    if h.Fires() {
      var observed := m.Keys - h.held - h.pinned;
      assert h.held !! h.pinned;
      forall k | k in m ensures m'[k] > 0.0 {
        if k in h.held {
          RestoredRatio(u[k], priorM[k], priorU[k]);
        } else if k !in h.pinned {
          ScalePositive(h.Target(), h.observedMass, m[k]);
        }
      }
      forall k | k in h.held ensures Ratio(m'[k], u[k]) == Ratio(priorM[k], priorU[k]) {
        RestoredRatio(u[k], priorM[k], priorU[k]);
      }
      HeldMass(m', h, priorM, priorU, m, u, observed);
    }
  }

  lemma ScalePositive(target: real, observed: real, x: real)
    requires target > 0.0 && observed > 0.0 && x > 0.0
    ensures Prod(Ratio(target, observed), x) > 0.0
  {
    assert target / observed > 0.0;
  }

  lemma ScaleToTarget(target: real, observed: real)
    requires observed > 0.0
    ensures Prod(Ratio(target, observed), observed) == target
  {
  }

  lemma HeldMass<K(!new)>(m': map<K, real>, h: Hold<K>, priorM: map<K, real>, priorU: map<K, real>,
                          m: map<K, real>, u: map<K, real>, observed: set<K>)
    requires h.Fires() && IsHeld(m', h, priorM, priorU, m, u)
    requires h.held <= m.Keys && h.pinned <= m.Keys && h.held !! h.pinned && observed == m.Keys - h.held - h.pinned
    requires h.heldMass == SumOver(Restored(priorM, priorU, u), h.held)
    requires h.observedMass == SumOver(Of(m), observed) && h.pinnedMass == SumOver(Of(m), h.pinned)
    ensures Mass(m') == 1.0
  {
    hide Prod, Ratio;
    var scale := Ratio(h.Target(), h.observedMass);
    assert m.Keys == (h.held + h.pinned) + observed;
    SumOverSplit(Of(m'), h.held + h.pinned, observed);
    SumOverSplit(Of(m'), h.held, h.pinned);
    SumOverExt(Of(m'), Restored(priorM, priorU, u), h.held);
    SumOverExt(Of(m'), Of(m), h.pinned);
    SumOverScale(Of(m'), scale, Of(m), observed);
    ScaleToTarget(h.Target(), h.observedMass);
  }

  // ----- The code, as loops over the levels -----

  method TotalCount<K(==, !new)>(counts: map<K, nat>) returns (total: real)
    ensures total == Observations(counts)
  {
    total := 0.0;
    var todo := counts.Keys;
    while todo != {}
      invariant todo <= counts.Keys
      invariant total == SumOver(Counted(counts), counts.Keys - todo)
      decreases todo
    {
      var k :| k in todo;
      total := total + counts[k] as real;
      SumOverPick(Counted(counts), counts.Keys - (todo - {k}), k);
      assert counts.Keys - (todo - {k}) - {k} == counts.Keys - todo;
      todo := todo - {k};
    }
    assert counts.Keys - todo == counts.Keys;
  }

  method Posterior<K(==, !new)>(prior: map<K, real>, counts: map<K, nat>, alpha: real) returns (out: map<K, real>)
    ensures out == PosteriorOf(prior, counts, alpha)
  {
    hide PosteriorAt;
    var a := alpha;
    if a <= 0.0 {
      a := DEFAULT_ALPHA;
    }
    var total := TotalCount(counts);
    out := map[];
    var todo := prior.Keys;
    while todo != {}
      invariant todo <= prior.Keys && out.Keys == prior.Keys - todo
      invariant forall k :: k in out ==> out[k] == PosteriorAt(prior[k], Count(counts, k), a, total)
      decreases todo
    {
      var k :| k in todo;
      out := out[k := PosteriorAt(prior[k], Count(counts, k), a, total)];
      todo := todo - {k};
    }
  }

  method PosteriorExcluding<K(==, !new)>(prior: map<K, real>, counts: map<K, nat>, alpha: real, pinned: Option<K>)
    returns (out: map<K, real>)
    ensures out == PosteriorExcludingOf(prior, counts, alpha, pinned)
  {
    hide PosteriorOf, Prod, Ratio;
    if pinned.None? || pinned.value !in prior || prior[pinned.value] <= 0.0 || prior[pinned.value] >= 1.0 {
      out := Posterior(prior, counts, alpha);
      return;
    }
    var k0 := pinned.value;
    var rest := 1.0 - prior[k0];
    var conditional: map<K, real>, estimated: map<K, nat> := map[], map[];
    var todo := prior.Keys;
    while todo != {}
      invariant todo <= prior.Keys && conditional.Keys == estimated.Keys == prior.Keys - todo - {k0}
      invariant forall k :: k in conditional ==> conditional[k] == Ratio(prior[k], rest) && estimated[k] == Count(counts, k)
      decreases todo
    {
      var k :| k in todo;
      todo := todo - {k};
      if k == k0 {
        continue;
      }
      conditional := conditional[k := Ratio(prior[k], rest)];
      estimated := estimated[k := Count(counts, k)];
    }
    assert conditional == ConditionalOf(prior, k0) && estimated == CountsOn(counts, prior.Keys - {k0});
    var post := Posterior(conditional, estimated, alpha);
    out := map[];
    todo := post.Keys;
    while todo != {}
      invariant todo <= post.Keys && out.Keys == post.Keys - todo
      invariant forall k :: k in out ==> out[k] == Prod(rest, post[k])
      decreases todo
    {
      var k :| k in todo;
      out := out[k := Prod(rest, post[k])];
      todo := todo - {k};
    }
    out := out[k0 := prior[k0]];
  }

  /** One level moved from those still to do to those summed. */
  lemma SumOverNext<K(!new)>(f: K -> real, done: set<K>, k: K)
    requires k !in done
    ensures SumOver(f, done + {k}) == SumOver(f, done) + f(k)
  {
    SumOverPick(f, done + {k}, k);
    assert done + {k} - {k} == done;
  }

  lemma SumOverNone<K(!new)>(f: K -> real)
    ensures SumOver(f, {}) == 0.0
  {
  }

  /** The levels already looked at, sorted into the held, the pinned and the observed. */
  ghost predicate SortedOut<K(!new)>(keys: set<K>, silent: set<K>, pin: set<K>, todo: set<K>, held: set<K>, seenPin: set<K>, seen: set<K>) {
    todo <= keys && held == silent - todo && seenPin == pin - todo && seen == keys - todo - silent - pin
  }

  lemma SortedNext<K(!new)>(keys: set<K>, silent: set<K>, pin: set<K>, todo: set<K>, held: set<K>, seenPin: set<K>, seen: set<K>, k: K)
    requires SortedOut(keys, silent, pin, todo, held, seenPin, seen) && k in todo && silent !! pin
    ensures k !in held && k !in seenPin && k !in seen
    ensures k in pin ==> SortedOut(keys, silent, pin, todo - {k}, held, seenPin + {k}, seen)
    ensures k in silent ==> SortedOut(keys, silent, pin, todo - {k}, held + {k}, seenPin, seen)
    ensures k !in pin && k !in silent ==> SortedOut(keys, silent, pin, todo - {k}, held, seenPin, seen + {k})
  {
  }

  /** Sorts the levels into the pinned, the observed and the held, with the masses of the first two. */
  method Classify<K(==, !new)>(priorM: map<K, real>, priorU: map<K, real>, countsM: map<K, nat>,
                               m: map<K, real>, u: map<K, real>, pinned: Option<K>)
    returns (held: set<K>, pinnedMass: real, observedMass: real)
    ensures var h := HoldOf(priorM, priorU, countsM, m, u, pinned);
            held == h.held && pinnedMass == h.pinnedMass && observedMass == h.observedMass
  {
    hide SumOver, Prod, Observations, Share, Silent, Count, SortedOut;
    var total := TotalCount(countsM);
    ghost var pin := PinnedKeys(m, pinned);
    ghost var silent := set k | k in m && Silent(priorM, priorU, countsM, u, pinned, total, k);
    held, pinnedMass, observedMass := {}, 0.0, 0.0;
    var todo := m.Keys;
    SumOverNone(Of(m));
    ghost var seenPin: set<K>, seen: set<K> := {}, {};
    NothingSorted(m.Keys, silent, pin);
    forall k | k in pin ensures k !in silent {
      SilentMeans(priorM, priorU, countsM, u, pinned, total, k);
    }
    while todo != {}
      invariant todo <= m.Keys && SortedOut(m.Keys, silent, pin, todo, held, seenPin, seen)
      invariant pinnedMass == SumOver(Of(m), seenPin) && observedMass == SumOver(Of(m), seen)
      decreases todo
    {
      var k :| k in todo;
      SilentMeans(priorM, priorU, countsM, u, pinned, total, k);
      SortedNext(m.Keys, silent, pin, todo, held, seenPin, seen, k);
      todo := todo - {k};
      if Some(k) == pinned {
        pinnedMass := pinnedMass + Of(m)(k);
        SumOverNext(Of(m), seenPin, k);
        seenPin := seenPin + {k};
      } else if || Count(countsM, k) > 0
                || Share(priorU, k) <= 0.0 || Share(u, k) <= 0.0
                || Prod(Share(priorM, k), total) >= INFORMATIVE_SILENCE
      {
        observedMass := observedMass + Of(m)(k);
        SumOverNext(Of(m), seen, k);
        seen := seen + {k};
      } else {
        held := held + {k};
      }
    }
    AllSorted(m.Keys, silent, pin, held, seenPin, seen);
  }

  lemma NothingSorted<K(!new)>(keys: set<K>, silent: set<K>, pin: set<K>)
    requires silent <= keys && pin <= keys
    ensures SortedOut(keys, silent, pin, keys, {}, {}, {})
  {
  }

  lemma AllSorted<K(!new)>(keys: set<K>, silent: set<K>, pin: set<K>, held: set<K>, seenPin: set<K>, seen: set<K>)
    requires SortedOut(keys, silent, pin, {}, held, seenPin, seen)
    ensures held == silent && seenPin == pin && seen == keys - silent - pin
  {
  }

  /** The share each held level takes to keep its shipped ratio, and what they take together. */
  method RestoreRatios<K(==, !new)>(priorM: map<K, real>, priorU: map<K, real>, u: map<K, real>, held: set<K>)
    returns (restored: map<K, real>, heldMass: real)
    requires forall k :: k in held ==> Share(priorU, k) > 0.0
    ensures restored.Keys == held && forall k :: k in held ==> restored[k] == Restored(priorM, priorU, u)(k)
    ensures heldMass == SumOver(Restored(priorM, priorU, u), held)
  {
    hide SumOver, Prod, Ratio, Share;
    ghost var f := Restored(priorM, priorU, u);
    restored, heldMass := map[], 0.0;
    var todo := held;
    SumOverNone(f);
    assert held - todo == {};
    while todo != {}
      invariant todo <= held && restored.Keys == held - todo
      invariant forall k :: k in restored ==> restored[k] == f(k)
      invariant heldMass == SumOver(f, held - todo)
      decreases todo
    {
      var k :| k in todo;
      SumOverNext(f, held - todo, k);
      assert held - todo + {k} == held - (todo - {k});
      restored := restored[k := Prod(Share(u, k), Ratio(Share(priorM, k), Share(priorU, k)))];
      heldMass := heldMass + restored[k];
      todo := todo - {k};
    }
    assert held - todo == held;
  }

  /** Puts the held levels at their restored share and scales every other one but the pinned. */
  method Rescale<K(==, !new)>(m: map<K, real>, restored: map<K, real>, pinned: Option<K>, scale: real)
    returns (m': map<K, real>)
    ensures m'.Keys == m.Keys
    ensures forall k :: k in m ==>
              m'[k] == if k in PinnedKeys(m, pinned) then m[k]
                       else if k in restored then restored[k]
                       else Prod(scale, m[k])
  {
    hide Prod;
    m' := m;
    var todo := m.Keys;
    while todo != {}
      invariant todo <= m.Keys && m'.Keys == m.Keys
      invariant forall k :: k in m ==>
                  m'[k] == if k in todo || k in PinnedKeys(m, pinned) then m[k]
                           else if k in restored then restored[k]
                           else Prod(scale, m[k])
      decreases todo
    {
      var k :| k in todo;
      todo := todo - {k};
      if Some(k) == pinned {
      } else if k in restored {
        m' := m'[k := restored[k]];
      } else {
        m' := m'[k := Prod(scale, m'[k])];
      }
    }
  }

  method HoldUnobservedRatio<K(==, !new)>(priorM: map<K, real>, priorU: map<K, real>, countsM: map<K, nat>,
                                          m: map<K, real>, u: map<K, real>, pinned: Option<K>)
    returns (m': map<K, real>)
    ensures IsHeld(m', HoldOf(priorM, priorU, countsM, m, u, pinned), priorM, priorU, m, u)
  {
    hide SumOver, Prod, Ratio, Observations, Of, Restored;
    m' := m;
    var held, pinnedMass, observedMass := Classify(priorM, priorU, countsM, m, u, pinned);
    if held == {} {
      return;
    }
    var restored, heldMass := RestoreRatios(priorM, priorU, u, held);
    var target := 1.0 - pinnedMass - heldMass;
    if observedMass <= 0.0 || target <= 0.0 {
      return;
    }
    m' := Rescale(m, restored, pinned, Ratio(target, observedMass));
  }

  /** Both sides of one field, refitted together. */
  ghost predicate FieldRefitted<K(!new)>(m': map<K, real>, u': map<K, real>, priorM: map<K, real>, priorU: map<K, real>,
                                         countsM: map<K, nat>, countsU: map<K, nat>, alpha: real, pinned: Option<K>)
  {
    && u' == PosteriorExcludingOf(priorU, countsU, alpha, pinned)
    && var m := PosteriorExcludingOf(priorM, countsM, alpha, pinned);
       IsHeld(m', HoldOf(priorM, priorU, countsM, m, u', pinned), priorM, priorU, m, u')
  }

  method RefitField<K(==, !new)>(priorM: map<K, real>, priorU: map<K, real>, countsM: map<K, nat>, countsU: map<K, nat>,
                                 alpha: real, pinned: Option<K>)
    returns (m': map<K, real>, u': map<K, real>)
    ensures FieldRefitted(m', u', priorM, priorU, countsM, countsU, alpha, pinned)
  {
    var m := PosteriorExcluding(priorM, countsM, alpha, pinned);
    u' := PosteriorExcluding(priorU, countsU, alpha, pinned);
    m' := HoldUnobservedRatio(priorM, priorU, countsM, m, u', pinned);
  }

  datatype LevelCounts = LevelCounts(
    payeeM: map<PayeeLevel, nat>, payeeU: map<PayeeLevel, nat>,
    amountM: map<AmountLevel, nat>, amountU: map<AmountLevel, nat>,
    dateM: map<DateLevel, nat>, dateU: map<DateLevel, nat>)

  // ----- What a refit keeps -----

  /** Both tables of a field are distributions over the same levels, and the counts are of those levels. */
  ghost predicate WellFormedField<K(!new)>(m: map<K, real>, u: map<K, real>, countsM: map<K, nat>, countsU: map<K, nat>) {
    && Distribution(m) && Distribution(u) && m.Keys == u.Keys
    && countsM.Keys <= m.Keys && countsU.Keys <= m.Keys
  }

  /** A level that carries all of the mass is the only level. */
  lemma WholeMass<K(!new)>(m: map<K, real>, k: K)
    requires Distribution(m) && k in m
    ensures m[k] <= 1.0
    ensures m[k] == 1.0 <==> m.Keys == {k}
  {
    SumOverPick(Of(m), m.Keys, k);
    SumOverPositive(Of(m), m.Keys - {k});
    if m.Keys - {k} == {} {
      assert m.Keys == {k};
    }
  }

  /** Refitting one field gives distributions on the same levels, keeps the pinned level's mass on
      both sides, and puts every level the hold rule fires on at exactly its shipped ratio. */
  lemma RefitKeeps<K(!new)>(m': map<K, real>, u': map<K, real>, priorM: map<K, real>, priorU: map<K, real>,
                            countsM: map<K, nat>, countsU: map<K, nat>, alpha: real, pinned: Option<K>)
    requires WellFormedField(priorM, priorU, countsM, countsU)
    requires FieldRefitted(m', u', priorM, priorU, countsM, countsU, alpha, pinned)
    ensures WellFormedField(m', u', countsM, countsU) && m'.Keys == priorM.Keys
    ensures pinned.Some? && pinned.value in priorM ==>
              m'[pinned.value] == priorM[pinned.value] && u'[pinned.value] == priorU[pinned.value]
    ensures var h := HoldOf(priorM, priorU, countsM, PosteriorExcludingOf(priorM, countsM, alpha, pinned), u', pinned);
            h.Fires() ==> forall k :: k in h.held ==> Ratio(m'[k], u'[k]) == Ratio(priorM[k], priorU[k])
  {
    hide HoldOf, IsHeld, Distribution, PosteriorExcludingOf;
    var m := PosteriorExcludingOf(priorM, countsM, alpha, pinned);
    ExcludingDistribution(priorM, countsM, alpha, pinned);
    ExcludingDistribution(priorU, countsU, alpha, pinned);
    HoldKeeps(m', priorM, priorU, countsM, m, u', pinned);
    if pinned.Some? && pinned.value in priorM {
      PinnedKept(m, priorM, pinned);
      PinnedKept(u', priorU, pinned);
    }
  }

  lemma PinnedKept<K(!new)>(out: map<K, real>, prior: map<K, real>, pinned: Option<K>)
    requires Distribution(prior) && Distribution(out) && out.Keys == prior.Keys
    requires pinned.Some? && pinned.value in prior
    requires HeldOut(prior, pinned) ==> out[pinned.value] == prior[pinned.value]
    ensures out[pinned.value] == prior[pinned.value]
  {
    WholeMass(prior, pinned.value);
    WholeMass(out, pinned.value);
  }

  /** A field whose match side nobody observed keeps its shipped match side whatever the other side
      saw: every level is held, nothing is left to scale, and the rule stands down. */
  lemma UnlabelledFieldIsShipped<K(!new)>(m': map<K, real>, u': map<K, real>, priorM: map<K, real>, priorU: map<K, real>,
                                          countsM: map<K, nat>, countsU: map<K, nat>, alpha: real, pinned: Option<K>)
    requires WellFormedField(priorM, priorU, countsM, countsU)
    requires FieldRefitted(m', u', priorM, priorU, countsM, countsU, alpha, pinned)
    requires Observations(countsM) == 0.0
    ensures m' == priorM
    ensures Observations(countsU) == 0.0 ==> u' == priorU
  {
    hide PosteriorExcludingOf;
    ExcludingDistribution(priorM, countsM, alpha, pinned);
    ExcludingDistribution(priorU, countsU, alpha, pinned);
    var h := HoldOf(priorM, priorU, countsM, priorM, u', pinned);
    forall k | k in priorM ensures k in h.held || k in h.pinned {
      NoObservations(countsM, k);
    }
    assert priorM.Keys - h.held - h.pinned == {};
  }

  // ----- A refitted field, from its tables and counts alone -----

  /** The mass of the pinned level, if there is one. */
  function PinnedMass<K>(prior: map<K, real>, pinned: Option<K>): real {
    if pinned.Some? && pinned.value in prior then prior[pinned.value] else 0.0
  }

  /** The plain posterior of one level: its prior mass as alpha observations, its own observations, and
      all that among the mass and the observations of the levels that are not pinned. */
  ghost function PlainPosterior<K(!new)>(prior: map<K, real>, counts: map<K, nat>, alpha: real, pinned: Option<K>, k: K): real
    requires k in prior
  {
    var a := if alpha <= 0.0 then 2.0 else alpha;
    var others := set j | j in prior && Some(j) != pinned;
    if Some(k) == pinned then prior[k]
    else
      CountsAreNonNegative(counts, others);
      Ratio(Prod(a, prior[k]) + Prod(1.0 - PinnedMass(prior, pinned), if k in counts then counts[k] as real else 0.0),
            a + SumOver(Counted(counts), others))
  }

  lemma SplitRest(p: real, rest: real, c: nat, a: real, n: real)
    requires rest > 0.0 && a > 0.0 && n >= 0.0
    ensures Prod(rest, PosteriorAt(Ratio(p, rest), c, a, n)) == Ratio(Prod(a, p) + Prod(rest, c as real), a + n)
  {
    var q, x := Ratio(p, rest), PosteriorAt(Ratio(p, rest), c, a, n);
    assert q * rest == p && x * (a + n) == a * q + c as real;
    assert rest * x * (a + n) == rest * (a * q + c as real) == a * p + rest * c as real;
  }

  lemma WholeRest(p: real, c: nat, a: real, n: real)
    requires a > 0.0 && n >= 0.0
    ensures PosteriorAt(p, c, a, n) == Ratio(Prod(a, p) + Prod(1.0 - 0.0, c as real), a + n)
  {
  }

  lemma CountsOnSum<K(!new)>(counts: map<K, nat>, levels: set<K>)
    ensures Observations(CountsOn(counts, levels)) == SumOver(Counted(counts), levels)
  {
    SumOverExt(Counted(CountsOn(counts, levels)), Counted(counts), levels);
    assert CountsOn(counts, levels).Keys == levels;
  }

  /** Estimating a side by itself gives every level its plain posterior. */
  lemma EstimateIsPlain<K(!new)>(prior: map<K, real>, counts: map<K, nat>, alpha: real, pinned: Option<K>, k: K)
    requires Distribution(prior) && counts.Keys <= prior.Keys && k in prior
    ensures PosteriorExcludingOf(prior, counts, alpha, pinned).Keys == prior.Keys
    ensures PosteriorExcludingOf(prior, counts, alpha, pinned)[k] == PlainPosterior(prior, counts, alpha, pinned, k)
  {
    hide SumOver, Distribution;
    var others := set j | j in prior && Some(j) != pinned;
    ExcludingDistribution(prior, counts, alpha, pinned);
    CountsAreNonNegative(counts, others);
    ObservationsOnLevels(counts, prior.Keys);
    if Some(k) == pinned {
      PinnedKept(PosteriorExcludingOf(prior, counts, alpha, pinned), prior, pinned);
    } else if HeldOut(prior, pinned) {
      HeldOutEstimate(prior, counts, alpha, pinned, k);
    } else {
      NotPinned(prior, pinned, k);
      WholeEstimate(prior, counts, alpha, pinned, k);
    }
  }

  lemma HeldOutEstimate<K(!new)>(prior: map<K, real>, counts: map<K, nat>, alpha: real, pinned: Option<K>, k: K)
    requires HeldOut(prior, pinned) && k in prior && Some(k) != pinned
    ensures k in PosteriorExcludingOf(prior, counts, alpha, pinned)
    ensures PosteriorExcludingOf(prior, counts, alpha, pinned)[k] == PlainPosterior(prior, counts, alpha, pinned, k)
  {
    hide SumOver, Prod, Ratio, PosteriorAt;
    var k0, others := pinned.value, set j | j in prior && Some(j) != pinned;
    var rest, estimated := 1.0 - prior[k0], CountsOn(counts, prior.Keys - {k0});
    assert others == prior.Keys - {k0};
    CountsOnSum(counts, others);
    CountsAreNonNegative(counts, others);
    SplitRest(prior[k], rest, Count(counts, k), Alpha(alpha), SumOver(Counted(counts), others));
  }

  lemma WholeEstimate<K(!new)>(prior: map<K, real>, counts: map<K, nat>, alpha: real, pinned: Option<K>, k: K)
    requires counts.Keys <= prior.Keys && k in prior && (pinned.Some? ==> pinned.value !in prior)
    ensures PlainPosterior(prior, counts, alpha, pinned, k) == PosteriorAt(prior[k], Count(counts, k), Alpha(alpha), Observations(counts))
  {
    hide SumOver, Prod, Ratio, PosteriorAt;
    var others := set j | j in prior && Some(j) != pinned;
    assert others == prior.Keys && Some(k) != pinned;
    ObservationsOnLevels(counts, prior.Keys);
    WholeRest(prior[k], Count(counts, k), Alpha(alpha), Observations(counts));
  }

  /** A level that is neither pinned away from the others nor the pinned one stands in a table without one. */
  lemma NotPinned<K(!new)>(prior: map<K, real>, pinned: Option<K>, k: K)
    requires Distribution(prior) && k in prior && Some(k) != pinned && !HeldOut(prior, pinned)
    ensures pinned.Some? ==> pinned.value !in prior
  {
    if pinned.Some? && pinned.value in prior {
      WholeMass(prior, pinned.value);
    }
  }

  /** The levels no label reached although the prior expected each fewer than five times. */
  ghost function SilentLevels<K(!new)>(prior: map<K, real>, counts: map<K, nat>, pinned: Option<K>): set<K> {
    set k | k in prior && Some(k) != pinned && (k in counts ==> counts[k] == 0) && Prod(prior[k], Observations(counts)) < 5.0
  }

  /** What each level would take of the match side to stand at its shipped ratio to the other side. */
  function AtShippedRatio<K(!new)>(u: map<K, real>, priorM: map<K, real>, priorU: map<K, real>): K -> real {
    (k: K) => if k in u && k in priorM && k in priorU && priorU[k] != 0.0 then Prod(u[k], Ratio(priorM[k], priorU[k])) else 0.0
  }

  /** The other side of a refitted field is its plain posterior. On the match side, if some level that is
      not pinned was not silent, and the pinned and silent levels, at the masses they are to have, leave
      room, then every silent level stands at exactly its shipped ratio and the others share the rest
      in the proportions of their plain posterior. Otherwise the match side is the plain posterior. */
  lemma RefitExactly<K(!new)>(m': map<K, real>, u': map<K, real>, priorM: map<K, real>, priorU: map<K, real>,
                              countsM: map<K, nat>, countsU: map<K, nat>, alpha: real, pinned: Option<K>)
    requires WellFormedField(priorM, priorU, countsM, countsU)
    requires FieldRefitted(m', u', priorM, priorU, countsM, countsU, alpha, pinned)
    ensures Distribution(m') && m'.Keys == u'.Keys == priorM.Keys == priorU.Keys
    ensures forall k :: k in u' ==> u'[k] > 0.0 && u'[k] == PlainPosterior(priorU, countsU, alpha, pinned, k)
    ensures var silent := SilentLevels(priorM, countsM, pinned);
            if (exists k :: k in priorM && Some(k) != pinned && k !in silent)
               && PinnedMass(priorM, pinned) + SumOver(AtShippedRatio(u', priorM, priorU), silent) < 1.0
            then
              && (forall k :: k in silent ==> k in m' && Ratio(m'[k], u'[k]) == Ratio(priorM[k], priorU[k]))
              && (pinned.Some? && pinned.value in priorM ==> m'[pinned.value] == priorM[pinned.value])
              && forall j, k :: j in priorM && k in priorM && Some(j) != pinned && Some(k) != pinned && j !in silent && k !in silent ==>
                   Prod(m'[j], PlainPosterior(priorM, countsM, alpha, pinned, k)) == Prod(m'[k], PlainPosterior(priorM, countsM, alpha, pinned, j))
            else forall k :: k in m' ==> m'[k] == PlainPosterior(priorM, countsM, alpha, pinned, k)
  {
    hide SumOver, HoldOf, IsHeld, PosteriorExcludingOf, PlainPosterior, SilentLevels, Observations, AtShippedRatio, PinnedMass, Mass, Prod, Ratio;
    var m := PosteriorExcludingOf(priorM, countsM, alpha, pinned);
    RefitKeeps(m', u', priorM, priorU, countsM, countsU, alpha, pinned);
    ExcludingDistribution(priorM, countsM, alpha, pinned);
    ExcludingDistribution(priorU, countsU, alpha, pinned);
    forall k | k in u' ensures u'[k] == PlainPosterior(priorU, countsU, alpha, pinned, k) {
      EstimateIsPlain(priorU, countsU, alpha, pinned, k);
    }
    forall k | k in m ensures m[k] == PlainPosterior(priorM, countsM, alpha, pinned, k) {
      EstimateIsPlain(priorM, countsM, alpha, pinned, k);
    }
    if pinned.Some? && pinned.value in priorM {
      PinnedKept(m, priorM, pinned);
    }
    HoldIsPlain(priorM, priorU, countsM, m, u', pinned);
    HoldFires(priorM, priorU, countsM, m, u', pinned);
    var h, silent := HoldOf(priorM, priorU, countsM, m, u', pinned), SilentLevels(priorM, countsM, pinned);
    SilentUnpinned(priorM, countsM, pinned);
    HeldShares(m', h, priorM, priorU, m, u');
    forall j, k | (h.Fires() || m' == m) && j in m && k in m && Some(j) != pinned && Some(k) != pinned && j !in silent && k !in silent
      ensures Prod(m'[j], PlainPosterior(priorM, countsM, alpha, pinned, k)) == Prod(m'[k], PlainPosterior(priorM, countsM, alpha, pinned, j))
    {
      ProdSwapped(m[j], m[k]);
      assert Prod(m'[j], m[k]) == Prod(m'[k], m[j]);
    }
    assert (exists k :: k in priorM && Some(k) != pinned && k !in silent) <==> (exists k :: k in m && k !in h.held && k !in h.pinned);
  }

  lemma SilentUnpinned<K(!new)>(prior: map<K, real>, counts: map<K, nat>, pinned: Option<K>)
    ensures forall k :: k in SilentLevels(prior, counts, pinned) ==> k in prior && Some(k) != pinned
  {
  }

  /** What the rule works with, from the tables alone. */
  lemma HoldIsPlain<K(!new)>(priorM: map<K, real>, priorU: map<K, real>, countsM: map<K, nat>,
                             m: map<K, real>, u: map<K, real>, pinned: Option<K>)
    requires Distribution(m) && Distribution(u) && Distribution(priorM) && Distribution(priorU)
    requires m.Keys == u.Keys == priorM.Keys == priorU.Keys
    requires pinned.Some? && pinned.value in priorM ==> m[pinned.value] == priorM[pinned.value]
    ensures var h := HoldOf(priorM, priorU, countsM, m, u, pinned);
            && h.held == SilentLevels(priorM, countsM, pinned) && h.held <= m.Keys
            && (forall k :: k in m ==> (k in h.pinned <==> Some(k) == pinned))
            && h.pinnedMass == PinnedMass(priorM, pinned)
            && h.heldMass == SumOver(AtShippedRatio(u, priorM, priorU), h.held)
  {
    hide Observations, Mass, Silent, Restored, AtShippedRatio, Prod;
    var h := HoldOf(priorM, priorU, countsM, m, u, pinned);
    forall k | k in m ensures k in h.held <==> k in SilentLevels(priorM, countsM, pinned) {
      SilentIsPlain(priorM, priorU, countsM, u, pinned, Observations(countsM), k);
    }
    forall k | k in h.held ensures AtShippedRatio(u, priorM, priorU)(k) == Restored(priorM, priorU, u)(k) {
      RestoredIsPlain(priorM, priorU, u, k);
    }
    assert h.held == SilentLevels(priorM, countsM, pinned);
    SumOverExt(AtShippedRatio(u, priorM, priorU), Restored(priorM, priorU, u), h.held);
    SumOverNone(Of(m));
    if pinned.Some? && pinned.value in m {
      SumOverPick(Of(m), {pinned.value}, pinned.value);
      assert {pinned.value} - {pinned.value} == {};
    }
  }

  lemma SilentIsPlain<K(!new)>(priorM: map<K, real>, priorU: map<K, real>, countsM: map<K, nat>, u: map<K, real>,
                               pinned: Option<K>, total: real, k: K)
    requires k in priorM && k in priorU && k in u && priorU[k] > 0.0 && u[k] > 0.0
    ensures Silent(priorM, priorU, countsM, u, pinned, total, k) <==>
            Some(k) != pinned && (k in countsM ==> countsM[k] == 0) && Prod(priorM[k], total) < 5.0
  {
    hide Prod;
  }

  lemma RestoredIsPlain<K(!new)>(priorM: map<K, real>, priorU: map<K, real>, u: map<K, real>, k: K)
    requires k in priorM && k in priorU && k in u && priorU[k] > 0.0
    ensures AtShippedRatio(u, priorM, priorU)(k) == Restored(priorM, priorU, u)(k)
  {
  }

  /** When it fires. */
  lemma HoldFires<K(!new)>(priorM: map<K, real>, priorU: map<K, real>, countsM: map<K, nat>,
                           m: map<K, real>, u: map<K, real>, pinned: Option<K>)
    requires Distribution(m)
    ensures var h := HoldOf(priorM, priorU, countsM, m, u, pinned);
            && (h.observedMass > 0.0 <==> exists k :: k in m && k !in h.held && k !in h.pinned)
            && (h.held == {} ==> h.heldMass == 0.0)
            && (h.held == {} && h.observedMass > 0.0 ==> h.observedMass == h.Target())
  {
    hide Observations, Silent;
    var h := HoldOf(priorM, priorU, countsM, m, u, pinned);
    var observed := m.Keys - h.held - h.pinned;
    SumOverPositive(Of(m), observed);
    SumOverNone(Of(m));
    SumOverNone(Restored(priorM, priorU, u));
    if k :| k in m && k !in h.held && k !in h.pinned {
      assert k in observed;
    }
    if observed != {} {
      var k :| k in observed;
      assert k in m && k !in h.held && k !in h.pinned;
    }
    if h.held == {} {
      SumOverSplit(Of(m), h.pinned, observed);
      assert h.pinned + observed == m.Keys;
    }
  }

  /** The held levels at their shipped ratio, the others in proportion. */
  lemma HeldShares<K(!new)>(m': map<K, real>, h: Hold<K>, priorM: map<K, real>, priorU: map<K, real>, m: map<K, real>, u: map<K, real>)
    requires IsHeld(m', h, priorM, priorU, m, u) && m.Keys == u.Keys == priorM.Keys == priorU.Keys && h.held <= m.Keys
    requires forall k :: k in u ==> u[k] > 0.0 && priorU[k] > 0.0 && priorM[k] > 0.0
    ensures h.Fires() && h.held !! h.pinned ==> forall k :: k in h.held ==> k in m' && Ratio(m'[k], u[k]) == Ratio(priorM[k], priorU[k])
    ensures h.Fires() ==> forall j, k :: j in m && k in m && j !in h.held && k !in h.held && j !in h.pinned && k !in h.pinned ==>
                            j in m' && k in m' && Prod(m'[j], m[k]) == Prod(m'[k], m[j])
    ensures !h.Fires() ==> m' == m
  {
    hide Prod, Ratio;
    if h.Fires() {
      forall k | k in h.held && h.held !! h.pinned ensures k in m' && Ratio(m'[k], u[k]) == Ratio(priorM[k], priorU[k]) {
        RestoredRatio(u[k], priorM[k], priorU[k]);
      }
      var s := Ratio(h.Target(), h.observedMass);
      forall j, k | j in m && k in m && j !in h.held && k !in h.held && j !in h.pinned && k !in h.pinned
        ensures j in m' && k in m' && Prod(m'[j], m[k]) == Prod(m'[k], m[j])
      {
        InProportion(s, m[j], m[k]);
      }
    }
  }

  lemma ProdSwapped(x: real, y: real)
    ensures Prod(x, y) == Prod(y, x)
  {
  }

  lemma InProportion(s: real, x: real, y: real)
    ensures Prod(Prod(s, x), y) == Prod(Prod(s, y), x)
  {
  }

  ghost predicate WellFormed(base: Linkage, counts: LevelCounts) {
    && WellFormedField(base.payeeM, base.payeeU, counts.payeeM, counts.payeeU)
    && WellFormedField(base.amountM, base.amountU, counts.amountM, counts.amountU)
    && WellFormedField(base.dateM, base.dateU, counts.dateM, counts.dateU)
  }

  ghost predicate NothingCounted(counts: LevelCounts) {
    && Observations(counts.payeeM) == 0.0 && Observations(counts.payeeU) == 0.0
    && Observations(counts.amountM) == 0.0 && Observations(counts.amountU) == 0.0
    && Observations(counts.dateM) == 0.0 && Observations(counts.dateU) == 0.0
  }

  /** The linkage a set of counted decisions supports, starting from the shipped one: from
      well-formed tables it is well-formed, an absent payee keeps its mass on both sides, and with
      nothing counted the shipped linkage comes back. */
  method Refit(base: Linkage, counts: LevelCounts, alpha: real) returns (out: Linkage)
    ensures FieldRefitted(out.payeeM, out.payeeU, base.payeeM, base.payeeU, counts.payeeM, counts.payeeU, alpha, Some(PayeeMissing))
    ensures FieldRefitted(out.amountM, out.amountU, base.amountM, base.amountU, counts.amountM, counts.amountU, alpha, None)
    ensures FieldRefitted(out.dateM, out.dateU, base.dateM, base.dateU, counts.dateM, counts.dateU, alpha, None)
    ensures WellFormed(base, counts) ==> WellFormed(out, counts)
    ensures WellFormed(base, counts) && PayeeMissing in base.payeeM ==>
              && PayeeMissing in out.payeeM && out.payeeM[PayeeMissing] == base.payeeM[PayeeMissing]
              && PayeeMissing in out.payeeU && PayeeMissing in base.payeeU
              && out.payeeU[PayeeMissing] == base.payeeU[PayeeMissing]
    ensures WellFormed(base, counts) && NothingCounted(counts) ==> out == base
  {
    hide Observations, FieldRefitted, Distribution;
    var payeeM, payeeU := RefitField(base.payeeM, base.payeeU, counts.payeeM, counts.payeeU, alpha, Some(PayeeMissing));
    var amountM, amountU := RefitField(base.amountM, base.amountU, counts.amountM, counts.amountU, alpha, None);
    var dateM, dateU := RefitField(base.dateM, base.dateU, counts.dateM, counts.dateU, alpha, None);
    out := Linkage(payeeM, payeeU, amountM, amountU, dateM, dateU);
    if WellFormed(base, counts) {
      RefitKeeps(payeeM, payeeU, base.payeeM, base.payeeU, counts.payeeM, counts.payeeU, alpha, Some(PayeeMissing));
      RefitKeeps(amountM, amountU, base.amountM, base.amountU, counts.amountM, counts.amountU, alpha, None);
      RefitKeeps(dateM, dateU, base.dateM, base.dateU, counts.dateM, counts.dateU, alpha, None);
      if NothingCounted(counts) {
        UnlabelledFieldIsShipped(payeeM, payeeU, base.payeeM, base.payeeU, counts.payeeM, counts.payeeU, alpha, Some(PayeeMissing));
        UnlabelledFieldIsShipped(amountM, amountU, base.amountM, base.amountU, counts.amountM, counts.amountU, alpha, None);
        UnlabelledFieldIsShipped(dateM, dateU, base.dateM, base.dateU, counts.dateM, counts.dateU, alpha, None);
      }
    }
  }
}
