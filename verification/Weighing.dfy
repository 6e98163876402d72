/** What the assessment of budget/reconcile.go makes of a row, said of the tables of budget/linkage.go and
    the two transactions: which levels they compare at, what each level is worth, and who comes first. */
module Weighing {
  import opened Sums
  import opened Budget
  import opened Arrangements
  import opened Assessing

  /** One call of the assessment. */
  datatype Look = Look(pol: Policy, rows: seq<Transaction>, f: ImportedFields, claimed: set<string>)
  {
    function Out(): seq<Candidate> { Assessed(pol, rows, f, claimed) }
  }

  // ----- The levels -----

  /** Two amounts compare as equal; or as within tolerance, which both a percentage of the larger and a
      number of cents bound and zero in either switches off; or as outside it: and the booking is
      either the larger of the two or not. */
  lemma AmountLevels(l: Look, c: Candidate)
    requires c in l.Out()
    ensures var a, b, p, cents := c.transaction.amountCents, l.f.amountCents, l.pol.tolerancePercent, l.pol.toleranceCents;
            var sizeA, sizeB := if a < 0 then -a else a, if b < 0 then -b else b;
            var larger := if sizeB > sizeA then sizeB else sizeA;
            var within := p > 0 && cents > 0 && -cents <= b - a <= cents && -(larger * p) <= 100 * (b - a) <= larger * p;
            && (c.comparison.amount == AmountExact <==> a == b)
            && (c.comparison.amount == AmountHigherWithin <==> within && sizeB > sizeA)
            && (c.comparison.amount == AmountLowerWithin <==> within && a != b && sizeB <= sizeA)
            && (c.comparison.amount == AmountOutsideHigher <==> !within && sizeB > sizeA)
            && (c.comparison.amount == AmountOutsideLower <==> !within && a != b && sizeB <= sizeA)
  {
    hide Filter, Rank, Ranked;
    AssessedExactly(l.pol, l.rows, l.f, l.claimed);
    var a, b := c.transaction.amountCents, l.f.amountCents;
    HundredthOf(if Abs(b) > Abs(a) then Abs(b) else Abs(a), l.pol.tolerancePercent, Abs(b - a));
  }

  lemma HundredthOf(base: nat, percent: int, d: nat)
    ensures percent > 0 ==> (d <= base * percent / 100 <==> 100 * d <= base * percent)
  {
  }

  /** Two days compare as the same, as near if at most three apart, or as far, before or after. */
  lemma DateLevels(l: Look, c: Candidate)
    requires c in l.Out()
    ensures var days := l.f.date - c.transaction.date;
            && (c.comparison.date == DateSame <==> days == 0)
            && (c.comparison.date == DateAfterNear <==> 0 < days <= 3)
            && (c.comparison.date == DateAfterFar <==> days > 3)
            && (c.comparison.date == DateBeforeNear <==> -3 <= days < 0)
            && (c.comparison.date == DateBeforeFar <==> days < -3)
  {
    hide Filter, Rank, Ranked;
    AssessedExactly(l.pol, l.rows, l.f, l.claimed);
  }

  /** The payees compare as the payee comparison says; how common the payee is, is asked for an exact
      agreement only; and the probability is the one the policy gives the weight. */
  lemma PayeeLevels(l: Look, c: Candidate)
    requires c in l.Out()
    ensures c.comparison.payee == l.pol.compare(c.transaction.payeeName, l.f.payeeName)
    ensures c.comparison.payeeFrequency == if c.comparison.payee == PayeeExact then l.pol.frequency(l.f.payeeName) else 0.0
    ensures c.probability == l.pol.probability(c.weight)
  {
    hide Filter, Rank, Ranked;
    AssessedExactly(l.pol, l.rows, l.f, l.claimed);
  }

  // ----- What they are worth -----

  /** What a level tells: how much more often it occurs among matches than by chance, in bits; nothing
      if either table does not know it. */
  function Bits<K>(lg: real -> real, m: map<K, real>, u: map<K, real>, k: K): real {
    if k in m && k in u && m[k] > 0.0 && u[k] > 0.0 then lg(m[k] / u[k]) else 0.0
  }

  /** What the payee's rarity adds to an exact agreement, where it was measured. */
  function Rarity(lg: real -> real, u: map<PayeeLevel, real>, c: Comparison): real {
    if c.payee == PayeeExact && PayeeExact in u && u[PayeeExact] > 0.0 && c.payeeFrequency > 0.0
    then lg(u[PayeeExact] / c.payeeFrequency) else 0.0
  }

  /** What the fields say, taken together. */
  function Told(pol: Policy, c: Comparison): real {
    var l := pol.linkage;
    Bits(pol.lg, l.payeeM, l.payeeU, c.payee) + Rarity(pol.lg, l.payeeU, c)
    + Bits(pol.lg, l.amountM, l.amountU, c.amount) + Bits(pol.lg, l.dateM, l.dateU, c.date)
  }

  /** A candidate weighs what its fields tell on top of the odds, before looking, that it is the match
      rather than none of them: the share of transactions that have one, spread over the plausible rows. */
  lemma WeighsWhatItTells(l: Look, c: Candidate)
    requires c in l.Out()
    ensures c.plausible >= 1
    ensures var share := if 0.0 < l.pol.overlap < 1.0 then l.pol.overlap else 0.5;
            c.weight == l.pol.lg(share / c.plausible as real / (1.0 - share)) + Told(l.pol, c.comparison)
  {
    hide Filter, Rank, Ranked, Eligible, Compare;
    AssessedExactly(l.pol, l.rows, l.f, l.claimed);
  }

  /** The plausible rows are the offered ones whose fields speak for them, and at least one. */
  lemma PlausibleCounts(l: Look, c: Candidate)
    requires c in l.Out()
    ensures var speaking := Filter(l.Out(), (d: Candidate) => Told(l.pol, d.comparison) > 0.0);
            c.plausible == if |speaking| < 1 then 1 else |speaking|
  {
    hide Filter, Rank, Ranked, Eligible, Compare, Told, FieldEvidence;
    AssessedExactly(l.pol, l.rows, l.f, l.claimed);
    var survivors := Survivors(l.pol, l.rows, l.f, l.claimed);
    var n := PlausibleCount(l.pol, survivors, l.f);
    var weighed := Apply(survivors, (t: Transaction) => Weigh(l.pol, t, l.f, n));
    var speaks := (d: Candidate) => Told(l.pol, d.comparison) > 0.0;
    FilterPermuted(l.Out(), weighed, speaks);
    SpeakingSurvivors(l.pol, survivors, l.f, n);
    assert |multiset(Filter(l.Out(), speaks))| == |Filter(l.Out(), speaks)|;
    assert |multiset(Filter(weighed, speaks))| == |Filter(weighed, speaks)|;
  }

  lemma ToldIsEvidence(pol: Policy, c: Comparison)
    ensures FieldEvidence(pol, c) == Told(pol, c)
  {
  }

  lemma {:induction false} SpeakingSurvivors(pol: Policy, survivors: seq<Transaction>, f: ImportedFields, n: nat)
    ensures |Filter(Apply(survivors, (t: Transaction) => Weigh(pol, t, f, n)), (d: Candidate) => Told(pol, d.comparison) > 0.0)|
         == |Filter(survivors, (t: Transaction) => IsPlausible(pol, t, f))|
    decreases |survivors|
  {
    hide Told, FieldEvidence, Weight, Compare;
    if survivors != [] {
      var init, last := survivors[..|survivors| - 1], survivors[|survivors| - 1];
      var w := (t: Transaction) => Weigh(pol, t, f, n);
      SpeakingSurvivors(pol, init, f, n);
      assert Apply(survivors, w)[..|survivors| - 1] == Apply(init, w);
      ToldIsEvidence(pol, Compare(pol, last, f));
    }
  }

  // ----- What that means for two candidates -----

  /** The two assessments weigh by the same tables, logarithm and overlap. */
  ghost predicate SameModel(l: Look, m: Look) {
    l.pol.linkage == m.pol.linkage && l.pol.lg == m.pol.lg && l.pol.overlap == m.pol.overlap
  }

  /** Alike in all but one field, two candidates of one model and of as many plausible rows differ by
      what that field's levels tell. */
  lemma OneFieldApart(l: Look, c: Candidate, m: Look, d: Candidate)
    requires SameModel(l, m) && c in l.Out() && d in m.Out() && c.plausible == d.plausible
    ensures var lg, t := l.pol.lg, l.pol.linkage;
            && (c.comparison == d.comparison.(amount := c.comparison.amount) ==>
                  c.weight - d.weight == Bits(lg, t.amountM, t.amountU, c.comparison.amount) - Bits(lg, t.amountM, t.amountU, d.comparison.amount))
            && (c.comparison == d.comparison.(date := c.comparison.date) ==>
                  c.weight - d.weight == Bits(lg, t.dateM, t.dateU, c.comparison.date) - Bits(lg, t.dateM, t.dateU, d.comparison.date))
            && (c.comparison.amount == d.comparison.amount && c.comparison.date == d.comparison.date
                && c.comparison.payee != PayeeExact && d.comparison.payee != PayeeExact ==>
                  c.weight - d.weight == Bits(lg, t.payeeM, t.payeeU, c.comparison.payee) - Bits(lg, t.payeeM, t.payeeU, d.comparison.payee))
  {
    hide Assessed, Bits;
    WeighsWhatItTells(l, c);
    WeighsWhatItTells(m, d);
  }

  /** Between two measured frequencies of an exactly agreeing payee the weight moves by their ratio in
      bits, the rarer payee weighing more. */
  lemma RarerWeighsMore(l: Look, c: Candidate, m: Look, d: Candidate)
    requires SameModel(l, m) && c in l.Out() && d in m.Out() && c.plausible == d.plausible
    requires c.comparison == d.comparison.(payeeFrequency := c.comparison.payeeFrequency) && c.comparison.payee == PayeeExact
    requires c.comparison.payeeFrequency > 0.0 && d.comparison.payeeFrequency > 0.0
    requires var u := l.pol.linkage.payeeU; PayeeExact in u && u[PayeeExact] > 0.0
    requires forall x, y :: 0.0 < x < y ==> l.pol.lg(x) < l.pol.lg(y)
    ensures var u := l.pol.linkage.payeeU[PayeeExact];
            c.weight - d.weight == l.pol.lg(u / c.comparison.payeeFrequency) - l.pol.lg(u / d.comparison.payeeFrequency)
    ensures c.comparison.payeeFrequency < d.comparison.payeeFrequency ==> c.weight > d.weight
  {
    hide Assessed, Bits;
    WeighsWhatItTells(l, c);
    WeighsWhatItTells(m, d);
    if c.comparison.payeeFrequency < d.comparison.payeeFrequency {
      QuotientFalls(l.pol.linkage.payeeU[PayeeExact], c.comparison.payeeFrequency, d.comparison.payeeFrequency);
    }
  }

  lemma QuotientFalls(u: real, x: real, y: real)
    requires u > 0.0 && 0.0 < x < y
    ensures 0.0 < u / y < u / x
  {
    var p, q := u / x, u / y;
    assert p * x == u && q * y == u && q > 0.0;
    assert q * y > q * x;
    assert (p - q) * x > 0.0;
  }

  /** Among n plausible rows a candidate weighs the logarithm of n less than among one. */
  lemma CompanyCostsItsLogarithm(l: Look, c: Candidate, m: Look, d: Candidate)
    requires SameModel(l, m) && c in l.Out() && d in m.Out() && c.comparison == d.comparison && d.plausible == 1
    requires forall x, y :: x > 0.0 && y > 0.0 ==> l.pol.lg(Prod(x, y)) == l.pol.lg(x) + l.pol.lg(y)
    ensures c.weight == d.weight - l.pol.lg(c.plausible as real)
  {
    hide Assessed, Bits, Rarity;
    WeighsWhatItTells(l, c);
    WeighsWhatItTells(m, d);
    var share := if 0.0 < l.pol.overlap < 1.0 then l.pol.overlap else 0.5;
    SpreadOver(share, c.plausible);
  }

  lemma SpreadOver(share: real, n: nat)
    requires 0.0 < share < 1.0 && n >= 1
    ensures 0.0 < share / n as real / (1.0 - share)
    ensures Prod(share / n as real / (1.0 - share), n as real) == share / 1.0 / (1.0 - share)
  {
    var q, x := share / n as real, share / n as real / (1.0 - share);
    assert q * n as real == share && q > 0.0;
    assert x * (1.0 - share) == q;
    assert x > 0.0;
    assert x * n as real * (1.0 - share) == share;
  }

  // ----- Who comes first -----

  /** The heavier comes first, of equally heavy ones the nearer day, and of those the smaller identifier. */
  lemma OfferedInOrder(l: Look, i: nat, j: nat)
    requires i < j < |l.Out()|
    ensures var a, b := l.Out()[i], l.Out()[j];
            var far := (t: Transaction) => if t.date < l.f.date then l.f.date - t.date else t.date - l.f.date;
            && a.weight >= b.weight
            && (a.weight == b.weight ==> far(a.transaction) <= far(b.transaction))
            && (a.weight == b.weight && far(a.transaction) == far(b.transaction) ==> !LexLess(b.Id(), a.Id()))
  {
    hide Filter, Rank, Assessed;
    AssessedExactly(l.pol, l.rows, l.f, l.claimed);
  }

  /** Of two candidates alike in all but one field, the one whose level is better attested there, more
      often found among matches for how often it comes about by chance, is offered first. */
  lemma BetterAttestedFirst(l: Look, i: nat, j: nat)
    requires i < |l.Out()| && j < |l.Out()|
    requires forall x, y :: 0.0 < x < y ==> l.pol.lg(x) < l.pol.lg(y)
    requires var c, d, t := l.Out()[i].comparison, l.Out()[j].comparison, l.pol.linkage;
             || (c == d.(amount := c.amount) && Attested(t.amountM, t.amountU, c.amount, d.amount))
             || (c == d.(date := c.date) && Attested(t.dateM, t.dateU, c.date, d.date))
             || (c == d.(payee := c.payee) && c.payee != PayeeExact && d.payee != PayeeExact
                 && Attested(t.payeeM, t.payeeU, c.payee, d.payee))
    ensures i < j
  {
    hide Filter, Rank, Assessed;
    var a, b := l.Out()[i], l.Out()[j];
    SameCount(l, a, b);
    OneFieldApart(l, a, l, b);
    if j < i {
      OfferedInOrder(l, j, i);
    }
  }

  /** Level x occurs more often among matches, for how often it comes about by chance, than level y. */
  predicate Attested<K>(m: map<K, real>, u: map<K, real>, x: K, y: K) {
    && x in m && x in u && m[x] > 0.0 && u[x] > 0.0 && y in m && y in u && m[y] > 0.0 && u[y] > 0.0
    && m[x] / u[x] > m[y] / u[y]
  }

  lemma SameCount(l: Look, c: Candidate, d: Candidate)
    requires c in l.Out() && d in l.Out()
    ensures c.plausible == d.plausible
  {
    hide Filter, Rank, Ranked, Eligible, Compare;
    AssessedExactly(l.pol, l.rows, l.f, l.claimed);
  }
}
