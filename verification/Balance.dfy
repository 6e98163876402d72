/** balance.go: the money an account held before the imported window, and what the budget should
    then add up to. */
module Balancing {
  import opened Sums
  import opened Budget
  import opened Keying

  /** A balance the bank reported. An available one already reflects pending entries. */
  datatype Balance = Balance(includesPending: bool, amountCents: int, referenceDate: Option<Day>)

  /** The amounts of the entries that count, added up. */
  function Total(fetched: seq<Incoming>, counts: Incoming -> bool): int {
    if fetched == [] then 0
    else
      var t := fetched[|fetched| - 1];
      Total(fetched[..|fetched| - 1], counts) + if counts(t) then t.amountCents else 0
  }

  predicate Pending(t: Incoming) { t.status == "PDNG" }

  /** Entries the balance is made of: an available one of all, a booked one of those booked. */
  predicate Contained(picked: Balance, t: Incoming) { picked.includesPending || !Pending(t) }

  /** The day the balance was taken; today if it does not say. */
  function CutOf(picked: Balance, today: Day): Day {
    match picked.referenceDate case Some(d) => d case None => today
  }

  method OpeningCents(picked: Balance, fetched: seq<Incoming>, today: Day) returns (opening: int)
    ensures opening == OpeningOf(picked, fetched, today)
  {
    var cut := today;
    if picked.referenceDate.Some? {
      cut := picked.referenceDate.value;
    }
    var sum := 0;
    ghost var counts := (t: Incoming) => Contained(picked, t) && t.date <= CutOf(picked, today);
    var i := 0;
    while i < |fetched|
      invariant 0 <= i <= |fetched| && sum == Total(fetched[..i], counts)
    {
      var t := fetched[i];
      assert fetched[..i + 1][..i] == fetched[..i];
      i := i + 1;
      if t.status == "PDNG" && !picked.includesPending {
        continue;
      }
      if t.date > cut {
        continue;
      }
      sum := sum + t.amountCents;
    }
    assert fetched[..i] == fetched;
    opening := picked.amountCents - sum;
  }

  method PendingCents(fetched: seq<Incoming>) returns (sum: int)
    ensures sum == Total(fetched, (t: Incoming) => Pending(t))
  {
    sum := 0;
    ghost var counts := (t: Incoming) => Pending(t);
    var i := 0;
    while i < |fetched|
      invariant 0 <= i <= |fetched| && sum == Total(fetched[..i], counts)
    {
      assert fetched[..i + 1][..i] == fetched[..i];
      if fetched[i].status == "PDNG" {
        sum := sum + fetched[i].amountCents;
      }
      i := i + 1;
    }
    assert fetched[..i] == fetched;
  }

  method ExpectedTotal(picked: Balance, fetched: seq<Incoming>) returns (total: int)
    ensures total == ExpectedOf(picked, fetched)
  {
    if picked.includesPending {
      return picked.amountCents;
    }
    var pending := PendingCents(fetched);
    total := picked.amountCents + pending;
  }

  function ExpectedOf(picked: Balance, fetched: seq<Incoming>): int {
    picked.amountCents + if picked.includesPending then 0 else Total(fetched, (t: Incoming) => Pending(t))
  }

  function OpeningOf(picked: Balance, fetched: seq<Incoming>, today: Day): int {
    picked.amountCents - Total(fetched, (t: Incoming) => Contained(picked, t) && t.date <= CutOf(picked, today))
  }

  lemma {:induction false} TotalSplit(fetched: seq<Incoming>, whole: Incoming -> bool, a: Incoming -> bool, b: Incoming -> bool)
    requires forall t :: whole(t) <==> a(t) || b(t)
    requires forall t :: !(a(t) && b(t))
    ensures Total(fetched, whole) == Total(fetched, a) + Total(fetched, b)
    decreases |fetched|
  {
    if fetched != [] {
      TotalSplit(fetched[..|fetched| - 1], whole, a, b);
    }
  }

  /** The budget after an import of the entries for which got holds differs from what the balance
      implies by the counted entries dated after its cut, less whatever did not arrive. */
  lemma {:induction false} Drift(picked: Balance, fetched: seq<Incoming>, today: Day, got: Incoming -> bool)
    ensures OpeningOf(picked, fetched, today) + Total(fetched, got) - ExpectedOf(picked, fetched)
         == Total(fetched, (t: Incoming) =>
                    && (picked.includesPending || t.status != "PDNG")
                    && t.date > if picked.referenceDate.Some? then picked.referenceDate.value else today)
            - Total(fetched, (t: Incoming) => !got(t))
  {
    var after := (t: Incoming) =>
      && (picked.includesPending || t.status != "PDNG")
      && t.date > if picked.referenceDate.Some? then picked.referenceDate.value else today;
    TotalSame(fetched, (t: Incoming) => Contained(picked, t) && t.date > CutOf(picked, today), after);
    var all: Incoming -> bool := (t: Incoming) => true;
    var contained, pending := (t: Incoming) => Contained(picked, t), (t: Incoming) => Pending(t);
    var early := (t: Incoming) => Contained(picked, t) && t.date <= CutOf(picked, today);
    var late := (t: Incoming) => Contained(picked, t) && t.date > CutOf(picked, today);
    var missing := (t: Incoming) => !got(t);
    TotalSplit(fetched, all, got, missing);
    TotalSplit(fetched, contained, early, late);
    var rest := (t: Incoming) => !Contained(picked, t);
    TotalSplit(fetched, all, contained, rest);
    if picked.includesPending {
      TotalNone(fetched, rest);
    } else {
      TotalSame(fetched, rest, pending);
    }
  }

  /** The opening balance takes off the entries the balance is made of, pending ones only if it includes
      them, dated up to the day it was taken, or today if it does not say; the expected total adds the
      pending entries it does not include. */
  lemma {:induction false} BalancesMean(picked: Balance, fetched: seq<Incoming>, today: Day)
    ensures OpeningOf(picked, fetched, today) == picked.amountCents
              - Total(fetched, (t: Incoming) =>
                        && (picked.includesPending || t.status != "PDNG")
                        && t.date <= if picked.referenceDate.Some? then picked.referenceDate.value else today)
    ensures ExpectedOf(picked, fetched) == picked.amountCents
              + Total(fetched, (t: Incoming) => !picked.includesPending && t.status == "PDNG")
  {
    var counted := (t: Incoming) =>
      && (picked.includesPending || t.status != "PDNG")
      && t.date <= if picked.referenceDate.Some? then picked.referenceDate.value else today;
    TotalSame(fetched, (t: Incoming) => Contained(picked, t) && t.date <= CutOf(picked, today), counted);
    var missing := (t: Incoming) => !picked.includesPending && t.status == "PDNG";
    if picked.includesPending {
      TotalNone(fetched, missing);
    } else {
      TotalSame(fetched, (t: Incoming) => Pending(t), missing);
    }
  }

  lemma {:induction false} TotalNone(fetched: seq<Incoming>, counts: Incoming -> bool)
    requires forall t :: !counts(t)
    ensures Total(fetched, counts) == 0
    decreases |fetched|
  {
    if fetched != [] {
      TotalNone(fetched[..|fetched| - 1], counts);
    }
  }

  lemma {:induction false} TotalSame(fetched: seq<Incoming>, a: Incoming -> bool, b: Incoming -> bool)
    requires forall t :: a(t) <==> b(t)
    ensures Total(fetched, a) == Total(fetched, b)
    decreases |fetched|
  {
    if fetched != [] {
      TotalSame(fetched[..|fetched| - 1], a, b);
    }
  }

  /** A complete import shows no drift exactly if the counted entries after the cut cancel out. */
  lemma {:induction false} CompleteImport(picked: Balance, fetched: seq<Incoming>, today: Day)
    ensures OpeningOf(picked, fetched, today) + Total(fetched, (t: Incoming) => true) == ExpectedOf(picked, fetched)
       <==> Total(fetched, (t: Incoming) =>
                    && (picked.includesPending || t.status != "PDNG")
                    && t.date > if picked.referenceDate.Some? then picked.referenceDate.value else today) == 0
    ensures (forall t :: t in fetched && (picked.includesPending || t.status != "PDNG") ==>
               t.date <= if picked.referenceDate.Some? then picked.referenceDate.value else today) ==>
              OpeningOf(picked, fetched, today) + Total(fetched, (t: Incoming) => true) == ExpectedOf(picked, fetched)
  {
    var all: Incoming -> bool := (t: Incoming) => true;
    var late := (t: Incoming) =>
      && (picked.includesPending || t.status != "PDNG")
      && t.date > if picked.referenceDate.Some? then picked.referenceDate.value else today;
    Drift(picked, fetched, today, all);
    var missing := (t: Incoming) => !all(t);
    TotalNone(fetched, missing);
    assert Total(fetched, (t: Incoming) => true) == Total(fetched, all);
    if forall t :: t in fetched && Contained(picked, t) ==> t.date <= CutOf(picked, today) {
      TotalAbsent(fetched, late);
    }
  }

  lemma {:induction false} TotalAbsent(fetched: seq<Incoming>, counts: Incoming -> bool)
    requires forall t :: t in fetched ==> !counts(t)
    ensures Total(fetched, counts) == 0
    decreases |fetched|
  {
    if fetched != [] {
      TotalAbsent(fetched[..|fetched| - 1], counts);
    }
  }

  /** The day before everything imported, and no earlier than that. */
  method OpeningDate(dateFrom: Day, fetched: seq<Incoming>) returns (date: Day)
    ensures date < dateFrom && forall t :: t in fetched ==> date < t.date
    ensures date + 1 == dateFrom || exists t :: t in fetched && date + 1 == t.date
  {
    var earliest := dateFrom;
    var i := 0;
    while i < |fetched|
      invariant 0 <= i <= |fetched| && earliest <= dateFrom
      invariant forall k :: 0 <= k < i ==> earliest <= fetched[k].date
      invariant earliest == dateFrom || exists k :: 0 <= k < i && fetched[k].date == earliest
    {
      if fetched[i].date < earliest {
        earliest := fetched[i].date;
      }
      i := i + 1;
    }
    date := earliest - 1;
  }
}
