/** Assess of budget/reconcile.go and the weights of budget/linkage.go: which rows an incoming
    transaction may adopt, what each is worth, and in which order they are offered. */
module Assessing {
  import opened Sums
  import opened Budget
  import opened Arrangements

  // ----- The model's parameters -----

  /** How often each level occurs among matches (m) and by chance (u). */
  datatype Linkage = Linkage(
    payeeM: map<PayeeLevel, real>, payeeU: map<PayeeLevel, real>,
    amountM: map<AmountLevel, real>, amountU: map<AmountLevel, real>,
    dateM: map<DateLevel, real>, dateU: map<DateLevel, real>)

  /** The operator's settings and the functions injected into the rules. lg is the logarithm to
      base two and probability the calibrated logistic of a weight; frequency is zero where it is
      unmeasured. None of the functions is looked into. */
  datatype Policy = Policy(
    compare: (string, string) -> PayeeLevel,
    frequency: string -> real,
    linkage: Linkage,
    lg: real -> real,
    probability: real -> real,
    overlap: real,
    tolerancePercent: int,
    toleranceCents: int,
    auto: real,
    review: real,
    marginBits: real,
    holdForReview: bool,
    booked: string -> bool,
    isSealed: (string, string) -> bool,
    titleCase: string -> string,
    samePayee: (string, string) -> bool)

  const NEAR_DAYS := 3
  const DEFAULT_OVERLAP: real := 0.5

  function Abs(x: int): nat { if x < 0 then -x else x }

  function Share<K>(m: map<K, real>, k: K): real { if k in m then m[k] else 0.0 }

  function WithinTolerance(authorised: int, booked: int, percent: int, cents: int): bool {
    if percent <= 0 || cents <= 0 then false
    else
      var base := if Abs(booked) > Abs(authorised) then Abs(booked) else Abs(authorised);
      var limit := base * percent / 100;
      Abs(booked - authorised) <= (if limit > cents then cents else limit)
  }

  function ClassifyAmount(authorised: int, booked: int, percent: int, cents: int): AmountLevel {
    if authorised == booked then AmountExact
    else
      var higher := Abs(booked) > Abs(authorised);
      if WithinTolerance(authorised, booked, percent, cents)
      then if higher then AmountHigherWithin else AmountLowerWithin
      else if higher then AmountOutsideHigher else AmountOutsideLower
  }

  function ClassifyDate(candidate: Day, incoming: Day): DateLevel {
    var d := Abs(candidate - incoming);
    if d == 0 then DateSame
    else if d <= NEAR_DAYS then if incoming > candidate then DateAfterNear else DateBeforeNear
    else if incoming > candidate then DateAfterFar else DateBeforeFar
  }

  /** The prior odds of one candidate among n, against no counterpart at all. */
  function PriorOdds(n: nat, overlap: real): real {
    var share := if overlap <= 0.0 || overlap >= 1.0 then DEFAULT_OVERLAP else overlap;
    share / (if n < 1 then 1.0 else n as real) / (1.0 - share)
  }

  function Evidence(lg: real -> real, m: real, u: real): real {
    if m <= 0.0 || u <= 0.0 then 0.0 else lg(m / u)
  }

  function FrequencyCorrection(pol: Policy, c: Comparison): real {
    var base := Share(pol.linkage.payeeU, PayeeExact);
    if c.payee != PayeeExact || c.payeeFrequency <= 0.0 || base <= 0.0 then 0.0
    else pol.lg(base / c.payeeFrequency)
  }

  function Weight(pol: Policy, c: Comparison, n: nat): real {
    var l := pol.linkage;
    pol.lg(PriorOdds(n, pol.overlap))
    + Evidence(pol.lg, Share(l.payeeM, c.payee), Share(l.payeeU, c.payee))
    + FrequencyCorrection(pol, c)
    + Evidence(pol.lg, Share(l.amountM, c.amount), Share(l.amountU, c.amount))
    + Evidence(pol.lg, Share(l.dateM, c.date), Share(l.dateU, c.date))
  }

  /** What the fields say on their own, without the prior. */
  function FieldEvidence(pol: Policy, c: Comparison): real {
    Weight(pol, c, 1) - pol.lg(PriorOdds(1, pol.overlap))
  }

  // ----- The hard rules -----

  predicate Adoptable(c: Transaction, ref: string) {
    !c.cleared || c.externalRef == "" || c.externalRef == ref
  }

  predicate AlreadyBooked(pol: Policy, c: Transaction, f: ImportedFields) {
    !f.cleared && pol.booked(c.id)
  }

  predicate IsSealed(pol: Policy, c: Transaction, f: ImportedFields) {
    f.cleared && f.externalRef == "" && f.identity != "" && pol.isSealed(c.id, f.identity)
  }

  /** The rows an incoming transaction may adopt at all. */
  predicate Eligible(pol: Policy, c: Transaction, f: ImportedFields, claimed: set<string>) {
    c.id !in claimed && Adoptable(c, f.externalRef) && !AlreadyBooked(pol, c, f) && !IsSealed(pol, c, f)
  }

  function Compare(pol: Policy, c: Transaction, f: ImportedFields): Comparison {
    var payee := pol.compare(c.payeeName, f.payeeName);
    Comparison(payee,
               ClassifyAmount(c.amountCents, f.amountCents, pol.tolerancePercent, pol.toleranceCents),
               ClassifyDate(c.date, f.date),
               if payee == PayeeExact then pol.frequency(f.payeeName) else 0.0)
  }

  predicate IsPlausible(pol: Policy, c: Transaction, f: ImportedFields) {
    FieldEvidence(pol, Compare(pol, c, f)) > 0.0
  }

  function Weigh(pol: Policy, c: Transaction, f: ImportedFields, n: nat): Candidate {
    var cmp := Compare(pol, c, f);
    var w := Weight(pol, cmp, n);
    Candidate(c, cmp, w, pol.probability(w), n)
  }

  // ----- Lists -----

  function Filter<T>(s: seq<T>, p: T -> bool): seq<T> {
    if s == [] then [] else
    var init := Filter(s[..|s| - 1], p);
    if p(s[|s| - 1]) then init + [s[|s| - 1]] else init
  }

  function Apply<T, U>(s: seq<T>, g: T -> U): seq<U> {
    seq(|s|, i requires 0 <= i < |s| => g(s[i]))
  }

  lemma {:induction false} FilterIn<T>(s: seq<T>, p: T -> bool, x: T)
    ensures x in Filter(s, p) <==> x in s && p(x)
    decreases |s|
  {
    if s != [] {
      assert s == s[..|s| - 1] + [s[|s| - 1]];
      FilterIn(s[..|s| - 1], p, x);
    }
  }

  lemma {:induction false} FilterConcat<T>(a: seq<T>, b: seq<T>, p: T -> bool)
    ensures Filter(a + b, p) == Filter(a, p) + Filter(b, p)
    decreases |b|
  {
    if b == [] {
      assert a + b == a;
    } else {
      assert (a + b)[..|a + b| - 1] == a + b[..|b| - 1];
      FilterConcat(a, b[..|b| - 1], p);
    }
  }

  lemma {:induction false} FilterNone<T>(s: seq<T>, p: T -> bool)
    requires forall x :: x in s ==> !p(x)
    ensures Filter(s, p) == []
    decreases |s|
  {
    if s != [] {
      FilterNone(s[..|s| - 1], p);
    }
  }

  lemma ApplyWithout<T, U>(s: seq<T>, t: nat, g: T -> U)
    requires t < |s|
    ensures Apply(Without(s, t), g) == Without(Apply(s, g), t)
  {
  }

  lemma {:induction false} ApplyPermuted<T, U>(a: seq<T>, b: seq<T>, g: T -> U)
    requires multiset(a) == multiset(b)
    ensures multiset(Apply(a, g)) == multiset(Apply(b, g))
    decreases |a|
  {
    if a == [] {
      assert |b| == |multiset(b)| == |multiset(a)| == 0;
    } else {
      assert a[0] in multiset(b);
      var t :| 0 <= t < |b| && b[t] == a[0];
      WithoutCounts(a, 0);
      WithoutCounts(b, t);
      ApplyPermuted(Without(a, 0), Without(b, t), g);
      ApplyWithout(a, 0, g);
      ApplyWithout(b, t, g);
      WithoutCounts(Apply(a, g), 0);
      WithoutCounts(Apply(b, g), t);
    }
  }

  // ----- The ranking -----

  /** Lexicographic order of identifiers. */
  predicate LexLess(a: string, b: string) {
    if b == "" then false
    else if a == "" then true
    else if a[0] != b[0] then a[0] < b[0]
    else LexLess(a[1..], b[1..])
  }

  /** Up to where they first differ the strings agree; there the smaller one has the smaller character,
      or has ended. */
  lemma {:induction false} LexLessMeans(a: string, b: string)
    ensures LexLess(a, b) <==> exists k: nat :: k <= |a| && k < |b| && a[..k] == b[..k] && (k < |a| ==> a[k] < b[k])
    decreases |a|
  {
    if a != "" && b != "" && a[0] == b[0] {
      LexLessMeans(a[1..], b[1..]);
      if LexLess(a, b) {
        var k: nat :| k <= |a[1..]| && k < |b[1..]| && a[1..][..k] == b[1..][..k] && (k < |a[1..]| ==> a[1..][k] < b[1..][k]);
        assert a[..k + 1] == [a[0]] + a[1..][..k] && b[..k + 1] == [b[0]] + b[1..][..k];
      }
      if k: nat :| k <= |a| && k < |b| && a[..k] == b[..k] && (k < |a| ==> a[k] < b[k]) {
        assert k > 0;
        assert a[1..][..k - 1] == a[..k][1..] && b[1..][..k - 1] == b[..k][1..];
      }
    } else if b != "" {
      assert a[..0] == b[..0];
      forall k: nat | 0 < k <= |a| && k < |b| ensures a[..k] != b[..k] {
        assert a[..k][0] == a[0] && b[..k][0] == b[0];
      }
    }
  }

  lemma {:induction false} LexTotal(a: string, b: string)
    ensures a != b ==> (LexLess(a, b) <==> !LexLess(b, a))
    ensures a == b ==> !LexLess(a, b)
    decreases |a|
  {
    if a != "" && b != "" && a[0] == b[0] {
      LexTotal(a[1..], b[1..]);
      assert a == [a[0]] + a[1..] && b == [b[0]] + b[1..];
    }
  }

  lemma {:induction false} LexTransitive(a: string, b: string, c: string)
    requires LexLess(a, b) && LexLess(b, c)
    ensures LexLess(a, c)
    decreases |a|
  {
    if a != "" && a[0] == b[0] && b[0] == c[0] {
      LexTransitive(a[1..], b[1..], c[1..]);
    }
  }

  /** a is offered before b: heavier first, then nearer in days, then by identifier. */
  predicate Before(day: Day, a: Candidate, b: Candidate) {
    if a.weight != b.weight then a.weight > b.weight
    else if Abs(a.transaction.date - day) != Abs(b.transaction.date - day)
    then Abs(a.transaction.date - day) < Abs(b.transaction.date - day)
    else LexLess(a.Id(), b.Id())
  }

  lemma BeforeTotal(day: Day, a: Candidate, b: Candidate)
    ensures a.Id() != b.Id() ==> (Before(day, a, b) <==> !Before(day, b, a))
    ensures !(Before(day, a, b) && Before(day, b, a))
  {
    LexTotal(a.Id(), b.Id());
  }

  /** No later entry belongs before an earlier one. */
  ghost predicate Ranked(day: Day, s: seq<Candidate>) {
    forall i, j :: 0 <= i < j < |s| ==> !Before(day, s[j], s[i])
  }

  /** Puts x behind every entry it does not belong before: one step of a stable sort. */
  function Insert(day: Day, s: seq<Candidate>, x: Candidate): seq<Candidate> {
    if s == [] || !Before(day, x, s[|s| - 1]) then s + [x]
    else Insert(day, s[..|s| - 1], x) + [s[|s| - 1]]
  }

  function Rank(day: Day, s: seq<Candidate>): seq<Candidate> {
    if s == [] then [] else Insert(day, Rank(day, s[..|s| - 1]), s[|s| - 1])
  }

  lemma {:induction false} InsertMultiset(day: Day, s: seq<Candidate>, x: Candidate)
    ensures multiset(Insert(day, s, x)) == multiset(s) + multiset{x}
    decreases |s|
  {
    if s != [] {
      assert s == s[..|s| - 1] + [s[|s| - 1]];
      InsertMultiset(day, s[..|s| - 1], x);
    }
  }

  lemma {:induction false} RankMultiset(day: Day, s: seq<Candidate>)
    ensures multiset(Rank(day, s)) == multiset(s)
    decreases |s|
  {
    if s != [] {
      assert s == s[..|s| - 1] + [s[|s| - 1]];
      RankMultiset(day, s[..|s| - 1]);
      InsertMultiset(day, Rank(day, s[..|s| - 1]), s[|s| - 1]);
    }
  }

  lemma {:induction false} InsertRanked(day: Day, s: seq<Candidate>, x: Candidate)
    requires Ranked(day, s)
    ensures Ranked(day, Insert(day, s, x))
    decreases |s|
  {
    if s != [] {
      var init, last := s[..|s| - 1], s[|s| - 1];
      var r := Insert(day, s, x);
      if Before(day, x, last) {
        InsertRanked(day, init, x);
        InsertMultiset(day, init, x);
        forall i | 0 <= i < |r| - 1 ensures !Before(day, last, r[i]) {
          assert r[i] in multiset(Insert(day, init, x));
          if r[i] == x {
            BeforeTotal(day, x, last);
          } else {
            assert r[i] in multiset(init);
            var k :| 0 <= k < |init| && init[k] == r[i];
            assert s[k] == r[i];
          }
        }
      } else {
        forall i | 0 <= i < |s| ensures !Before(day, x, s[i]) {
          if i < |s| - 1 && Before(day, x, s[i]) {
            // Were x to go before s[i], it would go before everything s[i] does not follow.
            NotBeforeLast(day, x, s[i], last);
          }
        }
      }
    }
  }

  lemma NotBeforeLast(day: Day, x: Candidate, a: Candidate, last: Candidate)
    requires Before(day, x, a) && !Before(day, last, a)
    ensures Before(day, x, last)
  {
    if a.weight == last.weight && Abs(a.transaction.date - day) == Abs(last.transaction.date - day) {
      LexTotal(a.Id(), last.Id());
      if a.Id() != last.Id() && LexLess(x.Id(), a.Id()) {
        LexTransitive(x.Id(), a.Id(), last.Id());
      }
    }
  }

  lemma {:induction false} RankRanked(day: Day, s: seq<Candidate>)
    ensures Ranked(day, Rank(day, s))
    decreases |s|
  {
    if s != [] {
      RankRanked(day, s[..|s| - 1]);
      InsertRanked(day, Rank(day, s[..|s| - 1]), s[|s| - 1]);
    }
  }

  lemma LastSame(day: Day, a: seq<Candidate>, b: seq<Candidate>)
    requires Ranked(day, a) && Ranked(day, b) && multiset(a) == multiset(b) && |a| == |b| > 0
    requires DistinctIds(a)
    ensures a[|a| - 1] == b[|b| - 1]
  {
    var last := |a| - 1;
    assert a[last] in multiset(b) && b[last] in multiset(a);
    var i :| 0 <= i < |b| && b[i] == a[last];
    var j :| 0 <= j < |a| && a[j] == b[last];
    BeforeTotal(day, a[last], b[last]);
  }

  lemma RankedInit(day: Day, s: seq<Candidate>)
    requires Ranked(day, s) && s != []
    ensures Ranked(day, s[..|s| - 1])
    ensures DistinctIds(s) ==> DistinctIds(s[..|s| - 1])
  {
  }

  /** Two rankings of the same candidates are the same list, once identifiers tell them apart. */
  lemma {:induction false} RankingUnique(day: Day, a: seq<Candidate>, b: seq<Candidate>)
    requires Ranked(day, a) && Ranked(day, b) && multiset(a) == multiset(b)
    requires DistinctIds(a)
    ensures a == b
    decreases |a|
  {
    SameSize(a, b);
    if a != [] {
      var a', b' := a[..|a| - 1], b[..|b| - 1];
      LastSame(day, a, b);
      InitCounts(a);
      InitCounts(b);
      RankedInit(day, a);
      RankedInit(day, b);
      RankingUnique(day, a', b');
    }
  }

  // ----- Assess -----

  function Survivors(pol: Policy, candidates: seq<Transaction>, f: ImportedFields, claimed: set<string>): seq<Transaction> {
    Filter(candidates, (c: Transaction) => Eligible(pol, c, f, claimed))
  }

  /** How many of the rows the evidence has not already dismissed, and at least one. */
  function PlausibleCount(pol: Policy, survivors: seq<Transaction>, f: ImportedFields): nat {
    var n := |Filter(survivors, (c: Transaction) => IsPlausible(pol, c, f))|;
    if n < 1 then 1 else n
  }

  function Assessed(pol: Policy, candidates: seq<Transaction>, f: ImportedFields, claimed: set<string>): seq<Candidate> {
    var survivors := Survivors(pol, candidates, f, claimed);
    var n := PlausibleCount(pol, survivors, f);
    Rank(f.date, Apply(survivors, (c: Transaction) => Weigh(pol, c, f, n)))
  }

  ghost predicate DistinctRows(rows: seq<Transaction>) {
    forall i, j :: 0 <= i < j < |rows| ==> rows[i].id != rows[j].id
  }

  /** The candidates are exactly the rows no hard rule excludes, each listed as often as it was. */
  lemma AssessedExactly(pol: Policy, candidates: seq<Transaction>, f: ImportedFields, claimed: set<string>)
    ensures var out := Assessed(pol, candidates, f, claimed);
            var n := PlausibleCount(pol, Survivors(pol, candidates, f, claimed), f);
            && multiset(out) == multiset(Apply(Survivors(pol, candidates, f, claimed), (c: Transaction) => Weigh(pol, c, f, n)))
            && (forall c :: c in out ==> c == Weigh(pol, c.transaction, f, n))
            && (forall t :: (exists c :: c in out && c.transaction == t) <==> t in candidates && Eligible(pol, t, f, claimed))
            && Ranked(f.date, out)
  {
    hide Eligible, PlausibleCount, Rank, Ranked, Filter;
    var survivors := Survivors(pol, candidates, f, claimed);
    var n := PlausibleCount(pol, survivors, f);
    var weighed := Apply(survivors, (c: Transaction) => Weigh(pol, c, f, n));
    var out := Assessed(pol, candidates, f, claimed);
    RankMultiset(f.date, weighed);
    RankRanked(f.date, weighed);
    forall c | c in out ensures c.transaction in survivors && c == Weigh(pol, c.transaction, f, n) {
      assert c in multiset(weighed);
    }
    forall t ensures (exists c :: c in out && c.transaction == t) <==> t in candidates && Eligible(pol, t, f, claimed) {
      FilterIn(candidates, (c: Transaction) => Eligible(pol, c, f, claimed), t);
      if t in survivors {
        var i :| 0 <= i < |survivors| && survivors[i] == t;
        assert weighed[i] in multiset(out);
        assert weighed[i] in out && weighed[i].transaction == t;
      }
    }
  }

  lemma {:induction false} FilterOne<T>(x: T, p: T -> bool)
    ensures Filter([x], p) == if p(x) then [x] else []
  {
    assert [x][..0] == [];
  }

  lemma {:induction false} FilterWithout<T>(s: seq<T>, t: nat, p: T -> bool)
    requires t < |s|
    ensures multiset(Filter(s, p)) == multiset(Filter(Without(s, t), p)) + if p(s[t]) then multiset{s[t]} else multiset{}
  {
    hide Filter;
    var a, x, b := s[..t], [s[t]], s[t + 1..];
    assert s == a + x + b && Without(s, t) == a + b;
    FilterConcat(a + x, b, p);
    FilterConcat(a, x, p);
    FilterConcat(a, b, p);
    FilterOne(s[t], p);
  }

  lemma {:induction false} FilterPermuted<T>(a: seq<T>, b: seq<T>, p: T -> bool)
    requires multiset(a) == multiset(b)
    ensures multiset(Filter(a, p)) == multiset(Filter(b, p))
    decreases |a|
  {
    SameSize(a, b);
    if a != [] {
      assert a[0] in multiset(b);
      var t :| 0 <= t < |b| && b[t] == a[0];
      WithoutCounts(a, 0);
      WithoutCounts(b, t);
      FilterPermuted(Without(a, 0), Without(b, t), p);
      FilterWithout(a, 0, p);
      FilterWithout(b, t, p);
    }
  }

  lemma {:induction false} FilterDistinct(rows: seq<Transaction>, p: Transaction -> bool)
    requires DistinctRows(rows)
    ensures DistinctRows(Filter(rows, p))
    decreases |rows|
  {
    if rows != [] {
      var init := rows[..|rows| - 1];
      FilterDistinct(init, p);
      forall i | 0 <= i < |Filter(init, p)| ensures Filter(init, p)[i].id != rows[|rows| - 1].id {
        FilterIn(init, p, Filter(init, p)[i]);
      }
    }
  }

  /** Distinct rows are assessed to candidates with distinct identifiers. */
  lemma AssessedDistinct(pol: Policy, candidates: seq<Transaction>, f: ImportedFields, claimed: set<string>)
    requires DistinctRows(candidates)
    ensures DistinctIds(Assessed(pol, candidates, f, claimed))
  {
    var survivors := Survivors(pol, candidates, f, claimed);
    var n := PlausibleCount(pol, survivors, f);
    var weighed := Apply(survivors, (c: Transaction) => Weigh(pol, c, f, n));
    FilterDistinct(candidates, (c: Transaction) => Eligible(pol, c, f, claimed));
    RankMultiset(f.date, weighed);
    DistinctPermuted(weighed, Rank(f.date, weighed));
  }

  lemma DistinctPermuted(a: seq<Candidate>, b: seq<Candidate>)
    requires DistinctIds(a) && multiset(a) == multiset(b)
    ensures DistinctIds(b)
  {
    forall i, j | 0 <= i < j < |b| ensures b[i].Id() != b[j].Id() {
      WithoutCounts(b, j);
      var r := Without(b, j);
      assert r[i] == b[i] && b[i] in multiset(r);
      assert b[i] in multiset(a) && b[j] in multiset(a);
      if b[i] == b[j] {
        assert multiset(b)[b[i]] >= 2;
        CandidateCount(a, b[i]);
      } else {
        var k :| 0 <= k < |a| && a[k] == b[i];
        var l :| 0 <= l < |a| && a[l] == b[j];
      }
    }
  }

  lemma {:induction false} CandidateCount(a: seq<Candidate>, x: Candidate)
    requires DistinctIds(a)
    ensures multiset(a)[x] <= 1
    decreases |a|
  {
    if a != [] {
      InitCounts(a);
      CandidateCount(a[..|a| - 1], x);
      assert forall i :: 0 <= i < |a| - 1 ==> a[i].Id() != a[|a| - 1].Id();
      assert a[|a| - 1] !in a[..|a| - 1];
    }
  }

  /** The ranked result does not depend on the order the budget lists its rows in. */
  lemma AssessedOrderFree(pol: Policy, a: seq<Transaction>, b: seq<Transaction>, f: ImportedFields, claimed: set<string>)
    requires DistinctRows(a) && multiset(a) == multiset(b)
    ensures Assessed(pol, a, f, claimed) == Assessed(pol, b, f, claimed)
  {
    var sa, sb := Survivors(pol, a, f, claimed), Survivors(pol, b, f, claimed);
    FilterPermuted(a, b, (c: Transaction) => Eligible(pol, c, f, claimed));
    FilterPermuted(sa, sb, (c: Transaction) => IsPlausible(pol, c, f));
    SameSize(Filter(sa, (c: Transaction) => IsPlausible(pol, c, f)), Filter(sb, (c: Transaction) => IsPlausible(pol, c, f)));
    var n := PlausibleCount(pol, sa, f);
    var g := (c: Transaction) => Weigh(pol, c, f, n);
    ApplyPermuted(sa, sb, g);
    RankMultiset(f.date, Apply(sa, g));
    RankMultiset(f.date, Apply(sb, g));
    RankRanked(f.date, Apply(sa, g));
    RankRanked(f.date, Apply(sb, g));
    AssessedDistinct(pol, a, f, claimed);
    RankingUnique(f.date, Assessed(pol, a, f, claimed), Assessed(pol, b, f, claimed));
  }

  // ----- Company without evidence -----

  /** No eligible row of extra has any field evidence for being the counterpart. */
  ghost predicate Dismissed(pol: Policy, extra: seq<Transaction>, f: ImportedFields, claimed: set<string>) {
    forall c :: c in extra && Eligible(pol, c, f, claimed) ==> !IsPlausible(pol, c, f)
  }

  lemma CompanyIsUncounted(pol: Policy, rows: seq<Transaction>, extra: seq<Transaction>, f: ImportedFields, claimed: set<string>)
    requires Dismissed(pol, extra, f, claimed)
    ensures Survivors(pol, rows + extra, f, claimed) == Survivors(pol, rows, f, claimed) + Survivors(pol, extra, f, claimed)
    ensures PlausibleCount(pol, Survivors(pol, rows + extra, f, claimed), f) == PlausibleCount(pol, Survivors(pol, rows, f, claimed), f)
  {
    var ok := (c: Transaction) => Eligible(pol, c, f, claimed);
    var plausible := (c: Transaction) => IsPlausible(pol, c, f);
    FilterConcat(rows, extra, ok);
    FilterConcat(Survivors(pol, rows, f, claimed), Survivors(pol, extra, f, claimed), plausible);
    forall c | c in Survivors(pol, extra, f, claimed) ensures !plausible(c) {
      FilterIn(extra, ok, c);
    }
    FilterNone(Survivors(pol, extra, f, claimed), plausible);
  }

  /** Dropping entries from a ranking leaves a ranking. */
  lemma {:induction false} FilterRanked(day: Day, s: seq<Candidate>, p: Candidate -> bool)
    requires Ranked(day, s)
    ensures Ranked(day, Filter(s, p))
    decreases |s|
  {
    if s != [] {
      var init := s[..|s| - 1];
      FilterRanked(day, init, p);
      forall i | 0 <= i < |Filter(init, p)| ensures !Before(day, s[|s| - 1], Filter(init, p)[i]) {
        FilterIn(init, p, Filter(init, p)[i]);
        var k :| 0 <= k < |init| && init[k] == Filter(init, p)[i];
      }
    }
  }

  /** Rows the evidence dismisses cost nothing: however many there are, the other candidates
      keep their weights, their probabilities and their order. */
  lemma CompanyCostsNothing(pol: Policy, rows: seq<Transaction>, extra: seq<Transaction>, f: ImportedFields, claimed: set<string>)
    requires DistinctRows(rows + extra) && Dismissed(pol, extra, f, claimed)
    ensures Filter(Assessed(pol, rows + extra, f, claimed), (c: Candidate) => c.transaction in rows)
         == Assessed(pol, rows, f, claimed)
  {
    var own := (c: Candidate) => c.transaction in rows;
    var n := PlausibleCount(pol, Survivors(pol, rows, f, claimed), f);
    var g := (c: Transaction) => Weigh(pol, c, f, n);
    var mine, theirs := Survivors(pol, rows, f, claimed), Survivors(pol, extra, f, claimed);
    CompanyIsUncounted(pol, rows, extra, f, claimed);
    assert Apply(mine + theirs, g) == Apply(mine, g) + Apply(theirs, g);
    var all := Assessed(pol, rows + extra, f, claimed);
    RankMultiset(f.date, Apply(mine + theirs, g));
    RankRanked(f.date, Apply(mine + theirs, g));
    FilterPermuted(all, Apply(mine, g) + Apply(theirs, g), own);
    FilterConcat(Apply(mine, g), Apply(theirs, g), own);
    OwnKept(pol, rows, f, claimed, n);
    OthersDropped(pol, rows, extra, f, claimed, n);
    FilterRanked(f.date, all, own);
    RankMultiset(f.date, Apply(mine, g));
    RankRanked(f.date, Apply(mine, g));
    assert rows == (rows + extra)[..|rows|];
    assert DistinctRows(rows);
    AssessedDistinct(pol, rows, f, claimed);
    RankingUnique(f.date, Assessed(pol, rows, f, claimed), Filter(all, own));
  }

  lemma {:induction false} FilterAll<T>(s: seq<T>, p: T -> bool)
    requires forall x :: x in s ==> p(x)
    ensures Filter(s, p) == s
    decreases |s|
  {
    if s != [] {
      FilterAll(s[..|s| - 1], p);
      assert s == s[..|s| - 1] + [s[|s| - 1]];
    }
  }

  lemma OwnKept(pol: Policy, rows: seq<Transaction>, f: ImportedFields, claimed: set<string>, n: nat)
    ensures var mine := Apply(Survivors(pol, rows, f, claimed), (c: Transaction) => Weigh(pol, c, f, n));
            Filter(mine, (c: Candidate) => c.transaction in rows) == mine
  {
    var mine := Apply(Survivors(pol, rows, f, claimed), (c: Transaction) => Weigh(pol, c, f, n));
    forall c | c in mine ensures c.transaction in rows {
      FilterIn(rows, (t: Transaction) => Eligible(pol, t, f, claimed), c.transaction);
    }
    FilterAll(mine, (c: Candidate) => c.transaction in rows);
  }

  lemma OthersDropped(pol: Policy, rows: seq<Transaction>, extra: seq<Transaction>, f: ImportedFields, claimed: set<string>, n: nat)
    requires DistinctRows(rows + extra)
    ensures var theirs := Apply(Survivors(pol, extra, f, claimed), (c: Transaction) => Weigh(pol, c, f, n));
            Filter(theirs, (c: Candidate) => c.transaction in rows) == []
  {
    var theirs := Apply(Survivors(pol, extra, f, claimed), (c: Transaction) => Weigh(pol, c, f, n));
    forall c | c in theirs ensures c.transaction !in rows {
      FilterIn(extra, (t: Transaction) => Eligible(pol, t, f, claimed), c.transaction);
      var j :| 0 <= j < |extra| && extra[j] == c.transaction;
      assert (rows + extra)[|rows| + j] == extra[j];
      assert forall i :: 0 <= i < |rows| ==> (rows + extra)[i] == rows[i];
    }
    FilterNone(theirs, (c: Candidate) => c.transaction in rows);
  }

  // ----- The methods -----

  /** A stable sort of the candidates, best first. */
  method SortCandidates(day: Day, s: seq<Candidate>) returns (out: seq<Candidate>)
    ensures out == Rank(day, s)
  {
    out := [];
    var i := 0;
    while i < |s|
      invariant i <= |s| && out == Rank(day, s[..i])
    {
      assert s[..i + 1][..i] == s[..i];
      out := Insert(day, out, s[i]);
      i := i + 1;
    }
    assert s[..i] == s;
  }

  /** Narrows the rows to those the transaction may adopt, weighs each and ranks them. */
  method Assess(candidates: seq<Transaction>, f: ImportedFields, alreadyMatched: seq<Transaction>, pol: Policy)
    returns (out: seq<Candidate>)
    ensures out == Assessed(pol, candidates, f, set t | t in alreadyMatched :: t.id)
  {
    var claimed := ClaimedIds(alreadyMatched);
    var survivors := Narrow(candidates, f, claimed, pol);
    var plausible := CountPlausible(survivors, f, pol);
    out := [];
    var i := 0;
    while i < |survivors|
      invariant i <= |survivors|
      invariant out == Apply(survivors[..i], (c: Transaction) => Weigh(pol, c, f, plausible))
    {
      out := out + [Weigh(pol, survivors[i], f, plausible)];
      i := i + 1;
    }
    assert survivors[..i] == survivors;
    out := SortCandidates(f.date, out);
  }

  method ClaimedIds(alreadyMatched: seq<Transaction>) returns (claimed: set<string>)
    ensures claimed == set t | t in alreadyMatched :: t.id
  {
    claimed := {};
    var i := 0;
    while i < |alreadyMatched|
      invariant i <= |alreadyMatched| && claimed == set t | t in alreadyMatched[..i] :: t.id
    {
      assert alreadyMatched[..i + 1] == alreadyMatched[..i] + [alreadyMatched[i]];
      claimed := claimed + {alreadyMatched[i].id};
      i := i + 1;
    }
    assert alreadyMatched[..i] == alreadyMatched;
  }

  method CountPlausible(survivors: seq<Transaction>, f: ImportedFields, pol: Policy) returns (plausible: nat)
    ensures plausible == PlausibleCount(pol, survivors, f)
  {
    plausible := 0;
    var i := 0;
    while i < |survivors|
      invariant i <= |survivors|
      invariant plausible == |Filter(survivors[..i], (c: Transaction) => IsPlausible(pol, c, f))|
    {
      assert survivors[..i + 1][..i] == survivors[..i];
      if FieldEvidence(pol, Compare(pol, survivors[i], f)) > 0.0 {
        plausible := plausible + 1;
      }
      i := i + 1;
    }
    assert survivors[..i] == survivors;
    if plausible < 1 {
      plausible := 1;
    }
  }

  method Narrow(candidates: seq<Transaction>, f: ImportedFields, claimed: set<string>, pol: Policy)
    returns (survivors: seq<Transaction>)
    ensures survivors == Survivors(pol, candidates, f, claimed)
  {
    survivors := [];
    var i := 0;
    while i < |candidates|
      invariant i <= |candidates| && survivors == Survivors(pol, candidates[..i], f, claimed)
    {
      assert candidates[..i + 1][..i] == candidates[..i];
      var c := candidates[i];
      if c.id !in claimed && Adoptable(c, f.externalRef) && !(AlreadyBooked(pol, c, f) || IsSealed(pol, c, f)) {
        survivors := survivors + [c];
      }
      i := i + 1;
    }
    assert candidates[..i] == candidates;
  }
}
