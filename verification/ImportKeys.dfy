/** main.go: the identities incoming rows are recognised by when the bank gives them none. */
module Keying {
  import opened Sums
  import opened Budget

  /** One row of the bank's feed, as far as the import loop reads it. */
  datatype Incoming = Incoming(
    date: Day,
    status: string,
    amountCents: int,
    payee: string,
    keyPayee: string,
    notes: string,
    entryRef: string,
    contentKey: string)
  {
    /** A row without a status counts as booked. */
    function Status(): string { if status == "" then "BOOK" else status }
  }

  /** The two printers that are not looked into: a day, and a payee normalised and lower-cased. */
  datatype Printer = Printer(day: Day -> string, normal: string -> string)

  /** Days print apart from each other and without the separator. */
  ghost predicate Faithful(p: Printer) {
    && (forall d :: Bare(p.day(d)))
    && forall d, e :: p.day(d) == p.day(e) ==> d == e
  }

  const PIPE: string := "|"

  /** Free of the separator. */
  predicate Bare(s: string) {
    forall i :: 0 <= i < |s| ==> s[i] != '|'
  }

  // ----- Printing numbers -----

  function Digit(d: nat): char
    requires d < 10
  {
    '0' + d as char
  }

  /** The decimal digits of n. */
  function Digits(n: nat): (s: string)
    ensures |s| >= 1 && Bare(s)
  {
    if n < 10 then [Digit(n)] else Digits(n / 10) + [Digit(n % 10)]
  }

  function Number(s: string): int {
    if s == "" then 0 else 10 * Number(s[..|s| - 1]) + (s[|s| - 1] as int - '0' as int)
  }

  lemma {:induction false} NumberOfDigits(n: nat)
    ensures Number(Digits(n)) == n
  {
    if n < 10 {
      assert Digits(n)[..0] == "";
    } else {
      NumberOfDigits(n / 10);
      assert Digits(n)[..|Digits(n)| - 1] == Digits(n / 10);
    }
  }

  function Unsigned(n: nat): (s: string)
    ensures |s| >= 4 && Bare(s) && s[0] != '-'
  {
    DigitsUnsigned(n / 100);
    Digits(n / 100) + "." + [Digit(n % 100 / 10), Digit(n % 10)]
  }

  lemma {:induction false} DigitsUnsigned(n: nat)
    ensures Digits(n)[0] != '-'
  {
    if n >= 10 {
      DigitsUnsigned(n / 10);
    }
  }

  function CentsToDecimal(cents: int): (s: string)
    ensures Bare(s)
  {
    if cents < 0 then "-" + Unsigned(-cents) else Unsigned(cents)
  }

  function UnsignedValue(s: string): int {
    if |s| < 3 then 0 else Number(s[..|s| - 3] + s[|s| - 2..])
  }

  /** Reads a printed amount back. */
  function DecimalToCents(s: string): int {
    if s != "" && s[0] == '-' then -UnsignedValue(s[1..]) else UnsignedValue(s)
  }

  lemma UnsignedRoundTrip(n: nat)
    ensures UnsignedValue(Unsigned(n)) == n
  {
    var high, tens, ones := Digits(n / 100), Digit(n % 100 / 10), Digit(n % 10);
    var s := Unsigned(n);
    assert s[..|s| - 3] == high && s[|s| - 2..] == [tens, ones];
    assert (high + [tens, ones])[..|high| + 1] == high + [tens];
    assert (high + [tens])[..|high|] == high;
    NumberOfDigits(n / 100);
    assert Number(high + [tens, ones]) == 10 * Number(high + [tens]) + n % 10;
    assert Number(high + [tens]) == 10 * (n / 100) + n % 100 / 10;
  }

  /** An amount is read back from its printed form, so no two amounts print alike. */
  lemma CentsRoundTrip(cents: int)
    ensures DecimalToCents(CentsToDecimal(cents)) == cents
  {
    UnsignedRoundTrip(if cents < 0 then -cents else cents);
    if cents < 0 {
      assert CentsToDecimal(cents)[1..] == Unsigned(-cents);
    }
  }

  // ----- Keys -----

  function WithoutPipes(s: string): (r: string)
    ensures |r| == |s| && Bare(r)
  {
    seq(|s|, (i: nat) requires i < |s| => if s[i] == '|' then ' ' else s[i])
  }

  function KeyPayee(p: Printer, payee: string): (r: string)
    ensures Bare(r)
  {
    WithoutPipes(p.normal(payee))
  }

  function LegacyImportKey(p: Printer, date: Day, amountCents: int): string {
    p.day(date) + PIPE + CentsToDecimal(amountCents)
  }

  /** What tells one purchase from another when the bank does not. */
  function Base(p: Printer, t: Incoming): string {
    p.day(t.date) + PIPE + CentsToDecimal(t.amountCents) + PIPE + KeyPayee(p, t.keyPayee)
  }

  /** What the occurrences of a key are counted under. */
  function Counter(status: string, base: string): string { status + PIPE + base }

  function Numbered(base: string, n: nat): string { base + PIPE + Digits(n) }

  function LastPipe(s: string): nat {
    if s == "" then 0 else if s[|s| - 1] == '|' then |s| - 1 else LastPipe(s[..|s| - 1])
  }

  lemma {:induction false} LastPipeBefore(a: string, b: string)
    requires Bare(b)
    ensures LastPipe(a + PIPE + b) == |a|
    decreases |b|
  {
    var s := a + PIPE + b;
    if b != "" {
      LastPipeBefore(a, b[..|b| - 1]);
      assert s[|s| - 1] == b[|b| - 1] && s[..|s| - 1] == a + PIPE + b[..|b| - 1];
    }
  }

  /** The last separator splits a string in one way only. */
  lemma RightSplit(a: string, b: string, a': string, b': string)
    requires Bare(b) && Bare(b')
    ensures a + PIPE + b == a' + PIPE + b' <==> a == a' && b == b'
  {
    var s, s' := a + PIPE + b, a' + PIPE + b';
    LastPipeBefore(a, b);
    LastPipeBefore(a', b');
    assert s[..|a|] == a && s'[..|a'|] == a';
    assert s[|a| + 1..] == b && s'[|a'| + 1..] == b';
  }

  /** Spellings the normalisation does not tell apart make one payee of a key; those it does tell apart
      make two, if they are free of the separator. */
  lemma PayeeSpellings(p: Printer, a: string, b: string)
    ensures p.normal(a) == p.normal(b) ==> KeyPayee(p, a) == KeyPayee(p, b)
    ensures Bare(p.normal(a)) && Bare(p.normal(b)) ==> (KeyPayee(p, a) == KeyPayee(p, b) <==> p.normal(a) == p.normal(b))
  {
    if Bare(p.normal(a)) && Bare(p.normal(b)) {
      assert WithoutPipes(p.normal(a)) == p.normal(a) && WithoutPipes(p.normal(b)) == p.normal(b);
    }
  }

  /** Two rows share a base exactly if they agree on day, amount and normalised payee. */
  lemma BaseApart(p: Printer, a: Incoming, b: Incoming)
    requires Faithful(p)
    ensures Base(p, a) == Base(p, b) <==>
            a.date == b.date && a.amountCents == b.amountCents && KeyPayee(p, a.keyPayee) == KeyPayee(p, b.keyPayee)
  {
    hide CentsToDecimal, KeyPayee;
    CentsRoundTrip(a.amountCents);
    CentsRoundTrip(b.amountCents);
    var da, db := p.day(a.date), p.day(b.date);
    var ca, cb := CentsToDecimal(a.amountCents), CentsToDecimal(b.amountCents);
    RightSplit(da + PIPE + ca, KeyPayee(p, a.keyPayee), db + PIPE + cb, KeyPayee(p, b.keyPayee));
    RightSplit(da, ca, db, cb);
  }

  /** The same, one status apart: the counter's key tells status and base apart whatever the status holds. */
  lemma CounterApart(p: Printer, s: string, a: Incoming, s': string, b: Incoming)
    requires Faithful(p)
    ensures Counter(s, Base(p, a)) == Counter(s', Base(p, b)) <==> s == s' && Base(p, a) == Base(p, b)
  {
    hide CentsToDecimal, KeyPayee;
    var da, db := p.day(a.date), p.day(b.date);
    var ca, cb := CentsToDecimal(a.amountCents), CentsToDecimal(b.amountCents);
    var ka, kb := KeyPayee(p, a.keyPayee), KeyPayee(p, b.keyPayee);
    RightSplit(s + PIPE + da + PIPE + ca, ka, s' + PIPE + db + PIPE + cb, kb);
    RightSplit(s + PIPE + da, ca, s' + PIPE + db, cb);
    RightSplit(s, da, s', db);
    assert s + PIPE + Base(p, a) == s + PIPE + da + PIPE + ca + PIPE + ka;
    assert s' + PIPE + Base(p, b) == s' + PIPE + db + PIPE + cb + PIPE + kb;
  }

  lemma NumberedApart(base: string, n: nat, base': string, n': nat)
    ensures Numbered(base, n) == Numbered(base', n') <==> base == base' && n == n'
  {
    RightSplit(base, Digits(n), base', Digits(n'));
    NumberOfDigits(n);
    NumberOfDigits(n');
  }

  // ----- Occurrence numbers -----

  /** How many of the labels are l. A row without a label is not numbered. */
  function Occurs(labels: seq<Option<string>>, l: string): nat {
    if labels == [] then 0
    else Occurs(labels[..|labels| - 1], l) + if labels[|labels| - 1] == Some(l) then 1 else 0
  }

  /** The number of row i among those of its label, counted from one. */
  function Occurrence(labels: seq<Option<string>>, i: nat): nat
    requires i < |labels| && labels[i].Some?
  {
    Occurs(labels[..i], labels[i].value) + 1
  }

  lemma {:induction false} OccursGrows(labels: seq<Option<string>>, l: string, i: nat, j: nat)
    requires i <= j <= |labels|
    ensures Occurs(labels[..i], l) <= Occurs(labels[..j], l)
    ensures i < j && labels[i] == Some(l) ==> Occurs(labels[..i], l) < Occurs(labels[..j], l)
    decreases j
  {
    if i < j {
      assert labels[..j][..j - 1] == labels[..j - 1];
      OccursGrows(labels, l, i, j - 1);
    }
  }

  /** Rows of one label are numbered apart, in the order they come. */
  lemma NumbersApart(labels: seq<Option<string>>, i: nat, j: nat)
    requires i < j < |labels| && labels[i] == labels[j] && labels[i].Some?
    ensures Occurrence(labels, i) < Occurrence(labels, j)
  {
    OccursGrows(labels, labels[i].value, i, j);
  }

  /** The numbers of one label are exactly 1, 2, ..., up to how often it occurs. */
  lemma {:induction false} NumbersReached(labels: seq<Option<string>>, l: string, n: nat) returns (i: nat)
    requires 1 <= n <= Occurs(labels, l)
    ensures i < |labels| && labels[i] == Some(l) && Occurrence(labels, i) == n
    decreases |labels|
  {
    var k := |labels| - 1;
    if labels[k] == Some(l) && Occurs(labels[..k], l) + 1 == n {
      i := k;
    } else {
      i := NumbersReached(labels[..k], l, n);
      assert labels[..k][..i] == labels[..i];
    }
  }

  lemma NumbersBounded(labels: seq<Option<string>>, i: nat)
    requires i < |labels| && labels[i].Some?
    ensures 1 <= Occurrence(labels, i) <= Occurs(labels, labels[i].value)
  {
    OccursGrows(labels, labels[i].value, i, |labels|);
    assert labels[..|labels|] == labels;
  }

  lemma {:induction false} OccursConcat(a: seq<Option<string>>, b: seq<Option<string>>, l: string)
    ensures Occurs(a + b, l) == Occurs(a, l) + Occurs(b, l)
    decreases |b|
  {
    if b == [] {
      assert a + b == a;
    } else {
      assert (a + b)[..|a + b| - 1] == a + b[..|b| - 1];
      OccursConcat(a, b[..|b| - 1], l);
    }
  }

  lemma {:induction false} OccursIsMultiplicity(labels: seq<Option<string>>, l: string)
    ensures Occurs(labels, l) == multiset(labels)[Some(l)]
    decreases |labels|
  {
    if labels != [] {
      var k := |labels| - 1;
      assert labels == labels[..k] + [labels[k]];
      OccursIsMultiplicity(labels[..k], l);
    }
  }

  // ----- importKeys -----

  /** The counter a reference-less row is numbered under. */
  function CounterLabel(p: Printer, t: Incoming): Option<string> {
    if t.entryRef != "" then None else Some(Counter(t.Status(), Base(p, t)))
  }

  function CounterLabels(p: Printer, txns: seq<Incoming>): (r: seq<Option<string>>)
    ensures |r| == |txns|
    ensures forall i :: 0 <= i < |txns| ==> r[i] == CounterLabel(p, txns[i])
  {
    seq(|txns|, (i: nat) requires i < |txns| => CounterLabel(p, txns[i]))
  }

  function LegacyLabel(p: Printer, t: Incoming): Option<string> {
    if t.entryRef != "" then None else Some(Counter(t.Status(), LegacyImportKey(p, t.date, t.amountCents)))
  }

  function LegacyLabels(p: Printer, txns: seq<Incoming>): (r: seq<Option<string>>)
    ensures |r| == |txns|
    ensures forall i :: 0 <= i < |txns| ==> r[i] == LegacyLabel(p, txns[i])
  {
    seq(|txns|, (i: nat) requires i < |txns| => LegacyLabel(p, txns[i]))
  }

  function KeyOf(p: Printer, txns: seq<Incoming>, i: nat): string
    requires i < |txns|
  {
    if txns[i].entryRef != "" then txns[i].entryRef
    else Numbered(Base(p, txns[i]), Occurrence(CounterLabels(p, txns), i))
  }

  function KeysOf(p: Printer, txns: seq<Incoming>): (r: seq<string>)
    ensures |r| == |txns|
    ensures forall i :: 0 <= i < |txns| ==> r[i] == KeyOf(p, txns, i)
  {
    seq(|txns|, (i: nat) requires i < |txns| => KeyOf(p, txns, i))
  }

  /** The labels that repeat an earlier one. */
  function Repeats(labels: seq<Option<string>>): nat {
    if labels == [] then 0
    else
      var k := |labels| - 1;
      Repeats(labels[..k]) + if labels[k].Some? && Occurs(labels[..k], labels[k].value) > 0 then 1 else 0
  }

  function Seen(seen: map<string, nat>, l: string): nat { if l in seen then seen[l] else 0 }

  function Bumped(seen: map<string, nat>, l: string): map<string, nat> { seen[l := Seen(seen, l) + 1] }

  /** The counters hold what the first i labels come to. */
  ghost predicate Tallies(seen: map<string, nat>, labels: seq<Option<string>>, i: nat)
    requires i <= |labels|
  {
    forall l :: Seen(seen, l) == Occurs(labels[..i], l)
  }

  lemma TallyNone(labels: seq<Option<string>>)
    ensures Tallies(map[], labels, 0)
  {
  }

  lemma TallyStep(seen: map<string, nat>, labels: seq<Option<string>>, i: nat)
    requires i < |labels| && Tallies(seen, labels, i)
    ensures labels[i].None? ==> Tallies(seen, labels, i + 1)
    ensures labels[i].Some? ==>
              && Seen(Bumped(seen, labels[i].value), labels[i].value) == Occurrence(labels, i)
              && Tallies(Bumped(seen, labels[i].value), labels, i + 1)
  {
    assert labels[..i + 1][..i] == labels[..i];
    forall l ensures Occurs(labels[..i + 1], l) == Occurs(labels[..i], l) + if labels[i] == Some(l) then 1 else 0 {
    }
    if labels[i].Some? {
      var seen' := Bumped(seen, labels[i].value);
      forall l ensures Seen(seen', l) == Occurs(labels[..i + 1], l) {
      }
    }
  }

  /** Keys for a sorted batch, and how many of its rows the keys before v3 would have run together. */
  method ImportKeys(p: Printer, txns: seq<Incoming>) returns (keys: seq<string>, collisions: nat)
    ensures keys == KeysOf(p, txns)
    ensures forall i :: 0 <= i < |txns| && txns[i].entryRef != "" ==> keys[i] == txns[i].entryRef
    ensures collisions == Repeats(LegacyLabels(p, txns))
  {
    hide Base, LegacyImportKey, Numbered, Counter, Occurs, CounterLabels, LegacyLabels, Tallies, Seen, Bumped;
    ghost var labels, before := CounterLabels(p, txns), LegacyLabels(p, txns);
    TallyNone(labels);
    TallyNone(before);
    var seen: map<string, nat>, legacy: map<string, nat> := map[], map[];
    keys, collisions := [], 0;
    var i := 0;
    while i < |txns|
      invariant 0 <= i <= |txns| && |keys| == i
      invariant Tallies(seen, labels, i) && Tallies(legacy, before, i)
      invariant forall k :: 0 <= k < i ==> keys[k] == KeyOf(p, txns, k)
      invariant collisions == Repeats(before[..i])
    {
      var t := txns[i];
      TallyStep(seen, labels, i);
      TallyStep(legacy, before, i);
      assert before[..i + 1][..i] == before[..i];
      if t.entryRef != "" {
        keys := keys + [t.entryRef];
        i := i + 1;
        continue;
      }
      var status := t.status;
      if status == "" {
        status := "BOOK";
      }
      var l := Counter(status, LegacyImportKey(p, t.date, t.amountCents));
      legacy := Bumped(legacy, l);
      if Seen(legacy, l) > 1 {
        collisions := collisions + 1;
      }
      var base := Base(p, t);
      var counter := Counter(status, base);
      seen := Bumped(seen, counter);
      keys := keys + [Numbered(base, Seen(seen, counter))];
      i := i + 1;
    }
    assert before[..|txns|] == before;
  }

  /** Reference-less rows of one status have keys of their own. */
  lemma KeysApart(p: Printer, txns: seq<Incoming>, i: nat, j: nat)
    requires Faithful(p) && i < |txns| && j < |txns| && i != j
    requires txns[i].entryRef == "" && txns[j].entryRef == "" && txns[i].Status() == txns[j].Status()
    ensures KeysOf(p, txns)[i] != KeysOf(p, txns)[j]
  {
    if i > j {
      KeysApart(p, txns, j, i);
    } else {
      KeysMeet(p, txns, i, j);
      if Base(p, txns[i]) == Base(p, txns[j]) {
        NumbersApart(CounterLabels(p, txns), i, j);
      }
      BaseApart(p, txns[i], txns[j]);
    }
  }

  /** Which purchase of its kind a reference-less row is, within its own status. */
  function NumberWithin(p: Printer, txns: seq<Incoming>, i: nat): nat
    requires i < |txns| && txns[i].entryRef == ""
  {
    Occurrence(CounterLabels(p, txns), i)
  }

  /** An authorisation and a booking meet at one key exactly if they agree on day, amount and
      normalised payee and are the same-numbered such row of their own status. */
  lemma KeysMeet(p: Printer, txns: seq<Incoming>, i: nat, j: nat)
    requires Faithful(p) && i < |txns| && j < |txns|
    requires txns[i].entryRef == "" && txns[j].entryRef == ""
    ensures KeysOf(p, txns)[i] == KeysOf(p, txns)[j] <==>
            && txns[i].date == txns[j].date && txns[i].amountCents == txns[j].amountCents
            && KeyPayee(p, txns[i].keyPayee) == KeyPayee(p, txns[j].keyPayee)
            && NumberWithin(p, txns, i) == NumberWithin(p, txns, j)
  {
    NumberedApart(Base(p, txns[i]), NumberWithin(p, txns, i), Base(p, txns[j]), NumberWithin(p, txns, j));
    BaseApart(p, txns[i], txns[j]);
  }

  /** Row k is a reference-less one of t's status, day, amount and payee. */
  predicate Alike(p: Printer, t: Incoming, other: Incoming) {
    && other.entryRef == "" && other.Status() == t.Status()
    && other.date == t.date && other.amountCents == t.amountCents
    && KeyPayee(p, other.keyPayee) == KeyPayee(p, t.keyPayee)
  }

  /** How many of the first n rows are alike t. */
  function CountAlike(p: Printer, t: Incoming, txns: seq<Incoming>, n: nat): nat
    requires n <= |txns|
  {
    if n == 0 then 0 else CountAlike(p, t, txns, n - 1) + if Alike(p, t, txns[n - 1]) then 1 else 0
  }

  /** The number a reference-less row carries is one more than the rows before it that agree with
      it on status, day, amount and normalised payee. */
  lemma {:induction false} NumberCounts(p: Printer, txns: seq<Incoming>, i: nat, n: nat)
    requires Faithful(p) && n <= i < |txns| && txns[i].entryRef == ""
    ensures Occurs(CounterLabels(p, txns)[..n], CounterLabel(p, txns[i]).value) == CountAlike(p, txns[i], txns, n)
    ensures n == i ==> NumberWithin(p, txns, i) == CountAlike(p, txns[i], txns, i) + 1
    decreases n
  {
    hide Base, KeyPayee;
    if n > 0 {
      var t := txns[i];
      NumberCounts(p, txns, i, n - 1);
      CounterApart(p, txns[n - 1].Status(), txns[n - 1], t.Status(), t);
      BaseApart(p, txns[n - 1], t);
      assert CounterLabels(p, txns)[..n][..n - 1] == CounterLabels(p, txns)[..n - 1];
    }
  }

  /** The keys of the reference-less rows of one status. */
  ghost function FallbackKeys(p: Printer, txns: seq<Incoming>, status: string): set<string> {
    set i | 0 <= i < |txns| && txns[i].entryRef == "" && txns[i].Status() == status :: KeyOf(p, txns, i)
  }

  lemma LabelsDropped(p: Printer, txns: seq<Incoming>, k: nat)
    requires k < |txns|
    ensures multiset(CounterLabels(p, txns))
         == multiset(CounterLabels(p, txns[..k] + txns[k + 1..])) + multiset{CounterLabel(p, txns[k])}
  {
    hide CounterLabel;
    var labels := CounterLabels(p, txns);
    Dropped(labels, k);
    assert labels[..k] + labels[k + 1..] == CounterLabels(p, txns[..k] + txns[k + 1..]);
  }

  lemma {:induction false} LabelsPermuted(p: Printer, a: seq<Incoming>, b: seq<Incoming>)
    requires multiset(a) == multiset(b)
    ensures multiset(CounterLabels(p, a)) == multiset(CounterLabels(p, b))
    decreases |a|
  {
    hide CounterLabels, CounterLabel;
    if a == [] {
      assert |multiset(b)| == 0;
    } else {
      assert a[0] in multiset(b);
      var k :| 0 <= k < |b| && b[k] == a[0];
      LabelsDropped(p, a, 0);
      LabelsDropped(p, b, k);
      DroppedBoth(a, 0, b, k);
      LabelsPermuted(p, a[..0] + a[1..], b[..k] + b[k + 1..]);
    }
  }

  lemma DroppedBoth<T>(a: seq<T>, i: nat, b: seq<T>, k: nat)
    requires i < |a| && k < |b| && a[i] == b[k] && multiset(a) == multiset(b)
    ensures multiset(a[..i] + a[i + 1..]) == multiset(b[..k] + b[k + 1..])
  {
    Dropped(a, i);
    Dropped(b, k);
    assert multiset(a[..i] + a[i + 1..]) == multiset(a) - multiset{a[i]};
    assert multiset(b[..k] + b[k + 1..]) == multiset(b) - multiset{b[k]};
  }

  lemma Dropped<T>(q: seq<T>, k: nat)
    requires k < |q|
    ensures multiset(q) == multiset(q[..k] + q[k + 1..]) + multiset{q[k]}
  {
    assert q == q[..k] + [q[k]] + q[k + 1..];
  }

  /** Listing the rows in another order gives each status the same keys: KeysApart says that no
      key of a status is given twice, so the set of them is all there is to say. */
  lemma KeysOrderFree(p: Printer, a: seq<Incoming>, b: seq<Incoming>, status: string)
    requires Faithful(p) && multiset(a) == multiset(b)
    ensures FallbackKeys(p, a, status) == FallbackKeys(p, b, status)
  {
    forall key ensures key in FallbackKeys(p, a, status) ==> key in FallbackKeys(p, b, status) {
      if key in FallbackKeys(p, a, status) {
        KeyCarriedOver(p, a, b, status, key);
      }
    }
    forall key ensures key in FallbackKeys(p, b, status) ==> key in FallbackKeys(p, a, status) {
      if key in FallbackKeys(p, b, status) {
        KeyCarriedOver(p, b, a, status, key);
      }
    }
  }

  lemma KeyCarriedOver(p: Printer, a: seq<Incoming>, b: seq<Incoming>, status: string, key: string)
    requires Faithful(p) && multiset(a) == multiset(b) && key in FallbackKeys(p, a, status)
    ensures key in FallbackKeys(p, b, status)
  {
    hide Occurrence, Base, Numbered;
    var la, lb := CounterLabels(p, a), CounterLabels(p, b);
    var i :| 0 <= i < |a| && a[i].entryRef == "" && a[i].Status() == status && key == KeyOf(p, a, i);
    LabelsPermuted(p, a, b);
    OccursIsMultiplicity(la, la[i].value);
    OccursIsMultiplicity(lb, la[i].value);
    NumbersBounded(la, i);
    var j := NumbersReached(lb, la[i].value, Occurrence(la, i));
    CounterApart(p, a[i].Status(), a[i], b[j].Status(), b[j]);
  }

  // ----- txnIdentities -----

  function ContentLabels(txns: seq<Incoming>): (r: seq<Option<string>>)
    ensures |r| == |txns|
    ensures forall i :: 0 <= i < |txns| ==> r[i] == if txns[i].contentKey == "" then None else Some(txns[i].contentKey)
  {
    seq(|txns|, (i: nat) requires i < |txns| => if txns[i].contentKey == "" then None else Some(txns[i].contentKey))
  }

  function IdentityOf(txns: seq<Incoming>, i: nat): string
    requires i < |txns|
  {
    if txns[i].contentKey == "" then "" else Numbered(txns[i].contentKey, Occurrence(ContentLabels(txns), i))
  }

  method TxnIdentities(txns: seq<Incoming>) returns (out: seq<string>)
    ensures |out| == |txns| && forall i :: 0 <= i < |txns| ==> out[i] == IdentityOf(txns, i)
  {
    hide Numbered, Tallies, Seen, Bumped, Occurs;
    ghost var labels := ContentLabels(txns);
    TallyNone(labels);
    var seen: map<string, nat> := map[];
    out := [];
    var i := 0;
    while i < |txns|
      invariant 0 <= i <= |txns| && |out| == i && Tallies(seen, labels, i)
      invariant forall k :: 0 <= k < i ==> out[k] == IdentityOf(txns, k)
    {
      var c := txns[i].contentKey;
      TallyStep(seen, labels, i);
      if c == "" {
        out := out + [""];
        i := i + 1;
        continue;
      }
      seen := Bumped(seen, c);
      out := out + [Numbered(c, Seen(seen, c))];
      i := i + 1;
    }
  }

  /** Two rows share an identity only if neither has one; within one content the identities are
      numbered in order. */
  lemma IdentitiesApart(txns: seq<Incoming>, i: nat, j: nat)
    requires i < j < |txns|
    ensures IdentityOf(txns, i) == IdentityOf(txns, j) <==> txns[i].contentKey == "" && txns[j].contentKey == ""
  {
    var labels := ContentLabels(txns);
    if txns[i].contentKey != "" && txns[j].contentKey != "" {
      NumberedApart(txns[i].contentKey, Occurrence(labels, i), txns[j].contentKey, Occurrence(labels, j));
      if txns[i].contentKey == txns[j].contentKey {
        NumbersApart(labels, i, j);
      }
    }
  }
}
