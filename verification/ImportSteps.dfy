/** main.go: what one account's import does to its records, step by step, and what every run keeps. */
module Stepping {
  import opened Sums
  import opened Budget
  import opened Assessing
  import opened Merging
  import opened Keying
  import opened Records

  // ----- The order of the feed -----

  /** Oldest first; on one day authorisations before bookings, then by amount, payee and reference. */
  predicate LessTxn(a: Incoming, b: Incoming) {
    if a.date != b.date then a.date < b.date
    else if a.status != b.status then LexLess(b.status, a.status)
    else if a.amountCents != b.amountCents then a.amountCents < b.amountCents
    else if a.keyPayee != b.keyPayee then LexLess(a.keyPayee, b.keyPayee)
    else LexLess(a.entryRef, b.entryRef)
  }

  ghost predicate Ordered(txns: seq<Incoming>) {
    forall i, j :: 0 <= i < j < |txns| ==> !LessTxn(txns[j], txns[i])
  }

  lemma InDateOrder(txns: seq<Incoming>, i: nat, j: nat)
    requires Ordered(txns) && i <= j < |txns|
    ensures txns[i].date <= txns[j].date
  {
  }

  /** The feed runs from the oldest day to the newest; within a day by status from the last in the alphabet
      to the first, so authorisations before bookings; then by amount, payee and reference. */
  lemma FeedInOrder(txns: seq<Incoming>, i: nat, j: nat)
    requires Ordered(txns) && i < j < |txns|
    ensures var a, b := txns[i], txns[j];
            && a.date <= b.date
            && (a.date == b.date ==> !LexLess(a.status, b.status))
            && (a.date == b.date && a.status == b.status ==> a.amountCents <= b.amountCents)
            && (a.date == b.date && a.status == b.status && a.amountCents == b.amountCents ==> !LexLess(b.keyPayee, a.keyPayee))
            && (a.date == b.date && a.status == b.status && a.amountCents == b.amountCents && a.keyPayee == b.keyPayee ==>
                  !LexLess(b.entryRef, a.entryRef))
  {
    hide LexLess;
    LexTotal(txns[i].status, txns[j].status);
    LexTotal(txns[i].keyPayee, txns[j].keyPayee);
  }

  /** Rows neither of which comes before the other fall on the same side of any third. */
  lemma LessTxnWeak(a: Incoming, b: Incoming, c: Incoming)
    requires !LessTxn(b, a) && !LessTxn(c, b)
    ensures !LessTxn(c, a)
  {
    hide LexLess;
    LexWeak(b.status, a.status, c.status);
    LexWeak(a.keyPayee, b.keyPayee, c.keyPayee);
    LexWeak(a.entryRef, b.entryRef, c.entryRef);
    LexTotal(a.status, b.status);
    LexTotal(b.status, c.status);
    LexTotal(a.status, c.status);
    LexTotal(a.keyPayee, b.keyPayee);
    LexTotal(b.keyPayee, c.keyPayee);
    LexTotal(a.keyPayee, c.keyPayee);
  }

  lemma LexWeak(a: string, b: string, c: string)
    ensures !LexLess(b, a) && !LexLess(c, b) ==> !LexLess(c, a)
    ensures !LexLess(a, b) && !LexLess(c, a) ==> !LexLess(c, b)
  {
    LexTotal(a, b);
    LexTotal(b, c);
    LexTotal(a, c);
    if LexLess(c, a) && LexLess(a, b) {
      LexTransitive(c, a, b);
    }
    if LexLess(c, b) && LexLess(b, a) {
      LexTransitive(c, b, a);
    }
  }

  lemma LessTxnAsymmetric(a: Incoming, b: Incoming)
    requires LessTxn(a, b)
    ensures !LessTxn(b, a)
  {
    LexTotal(a.status, b.status);
    LexTotal(a.keyPayee, b.keyPayee);
    LexTotal(a.entryRef, b.entryRef);
  }

  lemma InsertOrdered(s: seq<Incoming>, n: nat, t: Incoming)
    requires Ordered(s) && n <= |s|
    requires n > 0 ==> !LessTxn(t, s[n - 1])
    requires forall j :: n <= j < |s| ==> LessTxn(t, s[j])
    ensures Ordered(s[..n] + [t] + s[n..])
  {
    forall i | 0 <= i < n ensures !LessTxn(t, s[i]) {
      if i < n - 1 {
        LessTxnWeak(s[i], s[n - 1], t);
      }
    }
    forall j | n <= j < |s| ensures !LessTxn(s[j], t) {
      LessTxnAsymmetric(t, s[j]);
    }
  }

  /** Rows the order does not tell from t. */
  function Tied(t: Incoming): Incoming -> bool {
    (u: Incoming) => !LessTxn(u, t) && !LessTxn(t, u)
  }

  /** Nothing a row comes before is tied to a row it is tied to. */
  lemma TiesBefore(s: seq<Incoming>, x: Incoming, t: Incoming)
    requires forall u :: u in s ==> LessTxn(x, u)
    requires Tied(t)(x)
    ensures Filter(s, Tied(t)) == []
  {
    hide LessTxn;
    forall u | u in s ensures !Tied(t)(u) {
      if Tied(t)(u) {
        LessTxnWeak(u, t, x);
      }
    }
    FilterNone(s, Tied(t));
  }

  /** Putting x behind everything it does not come before adds it last to its own ties and leaves all others. */
  lemma InsertTied(s: seq<Incoming>, n: nat, x: Incoming, t: Incoming)
    requires n <= |s| && forall j :: n <= j < |s| ==> LessTxn(x, s[j])
    ensures Filter(s[..n] + [x] + s[n..], Tied(t)) == Filter(s + [x], Tied(t))
  {
    hide LessTxn, Tied, Filter;
    var p, a, b := Tied(t), s[..n], s[n..];
    assert s == a + b;
    FilterConcat(a + [x], b, p);
    FilterConcat(a, [x], p);
    FilterConcat(s, [x], p);
    FilterConcat(a, b, p);
    FilterOne(x, p);
    if p(x) {
      TiesBefore(b, x, t);
    }
  }

  /** A stable sort: a row goes behind every one it does not come before. Rows the order does not
      tell apart stay as the bank listed them. */
  method SortTxns(txns: seq<Incoming>) returns (out: seq<Incoming>)
    ensures Ordered(out) && multiset(out) == multiset(txns)
    ensures forall t :: Filter(out, Tied(t)) == Filter(txns, Tied(t))
  {
    hide LessTxn, Tied, Filter;
    out := [];
    var i := 0;
    while i < |txns|
      invariant 0 <= i <= |txns| && Ordered(out) && multiset(out) == multiset(txns[..i])
      invariant forall t :: Filter(out, Tied(t)) == Filter(txns[..i], Tied(t))
    {
      var t, n := txns[i], |out|;
      while n > 0 && LessTxn(t, out[n - 1])
        invariant 0 <= n <= |out|
        invariant forall j :: n <= j < |out| ==> LessTxn(t, out[j])
      {
        n := n - 1;
      }
      InsertOrdered(out, n, t);
      forall u ensures Filter(out[..n] + [t] + out[n..], Tied(u)) == Filter(txns[..i] + [t], Tied(u)) {
        InsertTied(out, n, t, u);
        FilterConcat(out, [t], Tied(u));
        FilterConcat(txns[..i], [t], Tied(u));
      }
      assert out == out[..n] + out[n..] && txns[..i + 1] == txns[..i] + [t];
      out := out[..n] + [t] + out[n..];
      i := i + 1;
    }
    assert txns[..|txns|] == txns;
  }

  // ----- What one run works on -----

  /** The keys under which the bank still lists an authorisation without a reference. */
  function ListedKeys(txns: seq<Incoming>, keys: seq<string>): set<string>
    requires |keys| == |txns|
  {
    set i | 0 <= i < |txns| && txns[i].status == "PDNG" && txns[i].entryRef == "" :: keys[i]
  }

  method ListedPendingKeys(txns: seq<Incoming>, keys: seq<string>) returns (listed: set<string>)
    requires |keys| == |txns|
    ensures listed == ListedKeys(txns, keys)
  {
    listed := {};
    var i := 0;
    while i < |txns|
      invariant 0 <= i <= |txns|
      invariant listed == ListedKeys(txns[..i], keys[..i])
    {
      ListedNext(txns, keys, i);
      if txns[i].status != "PDNG" || txns[i].entryRef != "" {
        i := i + 1;
        continue;
      }
      listed := listed + {keys[i]};
      i := i + 1;
    }
    assert txns[..i] == txns && keys[..i] == keys;
  }

  lemma ListedNext(txns: seq<Incoming>, keys: seq<string>, i: nat)
    requires i < |txns| == |keys|
    ensures ListedKeys(txns[..i + 1], keys[..i + 1])
         == ListedKeys(txns[..i], keys[..i]) + if txns[i].status == "PDNG" && txns[i].entryRef == "" then {keys[i]} else {}
  {
    var a, b := ListedKeys(txns[..i], keys[..i]), ListedKeys(txns[..i + 1], keys[..i + 1]);
    forall key | key in b ensures key in a || (key == keys[i] && txns[i].status == "PDNG" && txns[i].entryRef == "") {
      var k :| 0 <= k < i + 1 && txns[k].status == "PDNG" && txns[k].entryRef == "" && keys[k] == key;
      if k < i {
        assert txns[..i][k] == txns[k] && keys[..i][k] == key;
      }
    }
    forall key | key in a ensures key in b {
      var k :| 0 <= k < i && txns[k].status == "PDNG" && txns[k].entryRef == "" && keys[k] == key;
      assert txns[..i + 1][k] == txns[k] && keys[..i + 1][k] == key;
    }
    if txns[i].status == "PDNG" && txns[i].entryRef == "" {
      assert txns[..i + 1][i] == txns[i] && keys[..i + 1][i] == keys[i];
    }
  }

  /** The sorted feed of a run, with its keys and identities. */
  datatype Feed = Feed(pol: Policy, p: Printer, txns: seq<Incoming>, keys: seq<string>, identities: seq<string>, listed: set<string>)
  {
    function Day(k: nat): string
      requires k < |txns|
    {
      p.day(txns[k].date)
    }

    /** Row k as the booking it is. */
    function Booked(k: nat): ImportedFields
      requires k < |txns| == |identities|
    {
      var t := txns[k];
      ImportedFields(t.date, t.amountCents, t.payee, t.notes, t.entryRef, t.payee, true, identities[k])
    }
  }

  ghost predicate Shape(f: Feed) {
    |f.keys| == |f.identities| == |f.txns| && Ordered(f.txns)
  }

  /** The keys and identities are those of the feed. */
  ghost predicate Prepared(f: Feed) {
    && Shape(f) && f.keys == KeysOf(f.p, f.txns) && f.listed == ListedKeys(f.txns, f.keys)
    && forall i :: 0 <= i < |f.txns| ==> f.identities[i] == IdentityOf(f.txns, i)
  }

  // ----- What is set aside for the matcher, and what comes of it -----

  datatype Kind = WorkPending | WorkStalePending | WorkBooked

  /** Row index of the feed, waiting to be placed. */
  datatype Work = Work(kind: Kind, index: nat, matchedKey: string)

  /** What the matcher made of one row: nothing because the deadline came first, a question for a
      person, or a row of the budget that was written, perhaps in place of a held authorisation. */
  datatype Placing = Undone | HeldBack | Placed(row: Transaction, created: bool, counterpart: Option<string>)

  const BATCH_SIZE := 200

  /** The records after a placed row has been noted. stale is an open authorisation written as the
      row that was adopted, if there is one. */
  function Settled(st: Snapshot, kind: Kind, t: Incoming, day: string, key: string, matchedKey: string, identity: string,
                   row: string, created: bool, stale: Option<string>): Snapshot
  {
    match kind
    case WorkPending => if created then st.WithPending(key, row, day) else st
    case WorkStalePending =>
      Referenced(Identified(st.WithoutPending(matchedKey).WithBooked(row, matchedKey), identity, row), t.entryRef, day)
    case WorkBooked =>
      var noted := Identified(Referenced(st, t.entryRef, day), identity, row);
      if !created && stale.Some? then noted.WithoutPending(stale.value).WithBooked(row, stale.value)
      else noted.WithBooked(row, "")
  }

  function Identified(st: Snapshot, identity: string, row: string): Snapshot {
    if identity == "" then st else st.WithIdentity(identity, row)
  }

  function Referenced(st: Snapshot, ref: string, day: string): Snapshot {
    if ref == "" then st else st.WithReference(ref, day)
  }

  /** The records after a booking was confirmed through the authorisation pending under key. */
  function Settlement(st: Snapshot, t: Incoming, day: string, key: string, identity: string, row: string): Snapshot {
    Referenced(Identified(st.WithoutPending(key).WithBooked(row, key), identity, row), t.entryRef, day)
  }

  // ----- Recognition -----

  /** A booking of the feed is looked up by its reference if it has one, and by its content if not. */
  predicate Recognised(st: Snapshot, t: Incoming, identity: string) {
    || (t.entryRef != "" && t.entryRef in st.imported)
    || (t.entryRef == "" && t.Status() != "PDNG" && identity != "" && identity in st.identities)
  }

  /** Everything a later run needs to recognise this booking is on record. */
  predicate OnRecord(st: Snapshot, t: Incoming, identity: string) {
    && (t.entryRef != "" ==> t.entryRef in st.imported)
    && (identity != "" ==> identity in st.identities)
  }

  // ----- What is to become of a row -----

  /** Skipped where it stands, confirmed through its authorisation, or set aside for the matcher. */
  datatype Fate = Skipped | Confirmed | Queued(kind: Kind)

  /** What the run knew when it reached a row. */
  datatype Reading = Reading(st: Snapshot, rows: set<string>)

  /** The authorisation was settled by its booking or is already in the budget. */
  predicate AuthorisationKnown(st: Snapshot, t: Incoming, key: string) {
    (t.entryRef != "" && t.entryRef in st.imported) || st.Consumed(key) || key in st.pending
  }

  function FateOf(seen: Reading, listed: set<string>, t: Incoming, key: string, identity: string): Fate {
    var st := seen.st;
    if key in st.held || t.amountCents == 0 then Skipped
    else if t.Status() == "PDNG" then if AuthorisationKnown(st, t, key) then Skipped else Queued(WorkPending)
    else if Recognised(st, t, identity) then Skipped
    else if key !in st.pending || key in listed then Queued(WorkBooked)
    else if Cut(st.pending[key]).0 in seen.rows then Confirmed
    else Queued(WorkStalePending)
  }

  /** Whatever else is known, a recognised row is skipped and an unrecognised booking is not, unless
      it waits for a person or has no direction. */
  lemma RecognitionDecides(seen: Reading, listed: set<string>, t: Incoming, key: string, identity: string)
    ensures Recognised(seen.st, t, identity) ==> FateOf(seen, listed, t, key, identity) == Skipped
    ensures t.Status() != "PDNG" ==>
              (FateOf(seen, listed, t, key, identity) == Skipped <==>
               Recognised(seen.st, t, identity) || key in seen.st.held || t.amountCents == 0)
  {
  }

  // ----- Rows the run rewrites -----

  /** The amount corrected, which a reconciled row is not. */
  function Amended(t: Transaction, amountCents: int): (r: Transaction)
    ensures r == if t.reconciled then t else t.(amountCents := amountCents)
  {
    ApplyPatch(t, AmountPatch(t, amountCents))
  }

  /** The authorisation's row once its booking is confirmed: enriched, or failing that marked cleared. */
  function ConfirmedRow(pol: Policy, t: Transaction, booked: ImportedFields, merged: bool): Transaction {
    var t' := Amended(t, booked.amountCents);
    ApplyPatch(t', if merged then MergePatch(pol, t', booked) else EMPTY.(cleared := Some(true)))
  }

  /** A row that is not reconciled ends at the booked amount and cleared; a reconciled one keeps its
      amount, and everything else if the enrichment went through. Confirming writes what adopting does. */
  lemma ConfirmedRowEnds(pol: Policy, t: Transaction, booked: ImportedFields, merged: bool)
    requires booked.cleared
    ensures var r := ConfirmedRow(pol, t, booked, merged);
            && r.id == t.id && r.reconciled == t.reconciled
            && (merged ==> r == Merged(pol, t, booked))
            && (!t.reconciled ==> r.amountCents == booked.amountCents && r.cleared)
            && (t.reconciled ==> r.amountCents == t.amountCents && (merged ==> r == t))
            && (!merged ==> r == (if t.reconciled then t else t.(amountCents := booked.amountCents)).(cleared := true))
  {
  }

  // ----- The run as steps -----

  /** Where a run stands. placing holds the matcher's answers for the queue while they are noted.
      The last five fields are history: what was known when each row was reached, and the rows dealt
      with, those whose question could not be stored, the bookings finished and the rows queued. */
  datatype State = State(
    st: Snapshot,
    rows: map<string, Transaction>,
    queue: seq<Work>,
    placing: seq<Placing>,
    next: nat,
    resumeFrom: Option<Day>,
    interrupted: bool,
    writeFailed: bool,
    reached: seq<Reading>,
    handled: set<nat>,
    unheld: set<nat>,
    finished: set<nat>,
    queued: set<nat>)

  function Start(st: Snapshot, rows: map<string, Transaction>): State {
    State(st, rows, [], [], 0, None, false, false, [], {}, {}, {}, {})
  }

  /** What happens to a row that is reached: it is skipped, confirmed, refused by the backend after
      its amount was corrected or before, or set aside. What happens to the queue: the matcher answers
      or fails, and its answers are noted one by one: a question is stored or not, a placement is noted,
      or the deadline came first. And the deadline between two rows. */
  datatype Event =
    | Skip | Confirm(merged: bool) | Refuse(amended: bool) | SetAside
    | Answer(outs: seq<Placing>) | Fail
    | Hold(saved: bool) | Note(stale: Option<string>, released: bool) | Stop
    | Deadline

  /** The next row may be reached. */
  predicate Between(f: Feed, s: State) {
    s.placing == [] && |s.queue| < BATCH_SIZE && !s.interrupted && s.next < |f.txns|
  }

  /** What is to become of the next row. */
  function NextFate(f: Feed, s: State): Fate
    requires Shape(f) && s.next < |f.txns|
  {
    FateOf(Reading(s.st, s.rows.Keys), f.listed, f.txns[s.next], f.keys[s.next], f.identities[s.next])
  }

  /** The matcher is asked: the queue is long enough, or nothing more will join it. */
  predicate Flushing(f: Feed, s: State) {
    s.placing == [] && s.queue != [] && (|s.queue| >= BATCH_SIZE || s.interrupted || s.next == |f.txns|)
  }

  /** The authorisation consumed when a booking adopts a row is one written as that row, if any is open. */
  ghost predicate IsStale(st: Snapshot, w: Work, out: Placing, stale: Option<string>)
    requires out.Placed?
  {
    if w.kind == WorkBooked && !out.created then
      match stale
      case Some(key) => key in st.pending && Cut(st.pending[key]).0 == out.row.id
      case None => forall key :: key in st.pending ==> Cut(st.pending[key]).0 != out.row.id
    else stale == None
  }

  ghost predicate Legal(f: Feed, s: State, e: Event)
    requires Shape(f)
  {
    match e
    case Skip => Between(f, s) && NextFate(f, s) == Skipped
    case Confirm(_) => Between(f, s) && NextFate(f, s) == Confirmed
    case Refuse(_) => Between(f, s) && NextFate(f, s) == Confirmed
    case SetAside => Between(f, s) && NextFate(f, s).Queued?
    case Deadline => Between(f, s)
    case Answer(outs) => Flushing(f, s) && |outs| == |s.queue|
    case Fail => Flushing(f, s)
    case Hold(_) => s.placing != [] && s.queue != [] && s.placing[0].HeldBack? && s.queue[0].index < |f.txns|
    case Note(stale, _) =>
      && s.placing != [] && s.queue != [] && s.placing[0].Placed? && s.queue[0].index < |f.txns|
      && IsStale(s.st, s.queue[0], s.placing[0], stale)
    case Stop => s.placing != [] && s.placing[0].Undone?
  }

  /** A row just reached, with what was known then. */
  function Reached(s: State): State {
    s.(next := s.next + 1, reached := s.reached + [Reading(s.st, s.rows.Keys)])
  }

  /** A row dealt with on the spot moves the resume point up to it if nothing waits. */
  function PassedOn(f: Feed, s: State): Option<Day>
    requires s.next < |f.txns|
  {
    if s.queue == [] then Some(f.txns[s.next].date) else s.resumeFrom
  }

  /** An authorisation skipped because it is still pending is dealt with in full; every other skip is
      no reason to resume later. */
  predicate StillPending(f: Feed, s: State)
    requires Shape(f) && s.next < |f.txns|
  {
    var t, key := f.txns[s.next], f.keys[s.next];
    && key !in s.st.held && t.amountCents != 0 && t.Status() == "PDNG"
    && !(t.entryRef != "" && t.entryRef in s.st.imported) && !s.st.Consumed(key) && key in s.st.pending
  }

  /** The row the next booking's authorisation was written as. */
  function PendingRow(f: Feed, s: State): string
    requires Shape(f) && s.next < |f.txns| && f.keys[s.next] in s.st.pending
  {
    Cut(s.st.pending[f.keys[s.next]]).0
  }

  /** The records after a placement was noted: settled, and if it stands in for a held authorisation,
      that one consumed, and released if its question could be deleted. */
  function Noted(f: Feed, st: Snapshot, w: Work, out: Placing, stale: Option<string>, released: bool): Snapshot
    requires Shape(f) && w.index < |f.txns| && out.Placed?
  {
    var settled := Settled(st, w.kind, f.txns[w.index], f.Day(w.index), f.keys[w.index], w.matchedKey, f.identities[w.index],
                           out.row.id, out.created, stale);
    match out.counterpart
    case None => settled
    case Some(key) =>
      var closed := settled.WithBooked(out.row.id, key);
      if released then closed.(held := closed.held - {key}) else closed
  }

  function After(f: Feed, s: State, e: Event): State
    requires Shape(f) && Legal(f, s, e)
  {
    match e
    case Skip =>
      Reached(s).(handled := s.handled + {s.next}, resumeFrom := if StillPending(f, s) then PassedOn(f, s) else s.resumeFrom)
    case Confirm(merged) =>
      var row := PendingRow(f, s);
      Reached(s).(st := Settlement(s.st, f.txns[s.next], f.Day(s.next), f.keys[s.next], f.identities[s.next], row),
                  rows := s.rows[row := ConfirmedRow(f.pol, s.rows[row], f.Booked(s.next), merged)],
                  handled := s.handled + {s.next}, finished := s.finished + {s.next}, resumeFrom := PassedOn(f, s))
    case Refuse(amended) =>
      var row := PendingRow(f, s);
      Reached(s).(rows := if amended then s.rows[row := Amended(s.rows[row], f.txns[s.next].amountCents)] else s.rows,
                  writeFailed := true)
    case SetAside =>
      var kind := NextFate(f, s).kind;
      Reached(s).(queue := s.queue + [Work(kind, s.next, if kind == WorkStalePending then f.keys[s.next] else "")],
                  queued := s.queued + {s.next})
    case Deadline => s.(interrupted := true)
    case Answer(outs) => s.(placing := outs)
    case Fail => s.(queue := [], writeFailed := true)
    case Hold(saved) =>
      var k := s.queue[0].index;
      var held := if saved then {f.keys[k]} else {};
      s.(st := s.st.(held := s.st.held + held), queue := s.queue[1..], placing := s.placing[1..],
         handled := if saved then s.handled + {k} else s.handled, unheld := if saved then s.unheld else s.unheld + {k})
    case Note(stale, released) =>
      var w, out := s.queue[0], s.placing[0];
      s.(st := Noted(f, s.st, w, out, stale, released), rows := s.rows[out.row.id := out.row],
         queue := s.queue[1..], placing := s.placing[1..], handled := s.handled + {w.index},
         finished := if w.kind == WorkPending then s.finished else s.finished + {w.index},
         resumeFrom := Some(f.txns[w.index].date))
    case Stop => s.(queue := [], placing := [], interrupted := true)
  }

  /** Where a log of events leads, if every one of them could happen when it did. */
  ghost function Replay(f: Feed, s0: State, log: seq<Event>): Option<State>
    requires Shape(f)
  {
    if log == [] then Some(s0)
    else
      match Replay(f, s0, log[..|log| - 1])
      case None => None
      case Some(s) => if Legal(f, s, log[|log| - 1]) then Some(After(f, s, log[|log| - 1])) else None
  }

  lemma ReplaySnoc(f: Feed, s0: State, log: seq<Event>, e: Event)
    requires Shape(f)
    ensures Replay(f, s0, log + [e]) ==
            match Replay(f, s0, log)
            case None => None
            case Some(s) => if Legal(f, s, e) then Some(After(f, s, e)) else None
  {
    assert (log + [e])[..|log|] == log;
  }

  /** Nothing more can happen. */
  predicate Over(f: Feed, s: State) {
    s.placing == [] && s.queue == [] && (s.interrupted || s.next == |f.txns|)
  }

  // ----- What every step keeps -----

  ghost predicate InQueue(q: seq<Work>, k: nat) {
    exists a :: 0 <= a < |q| && q[a].index == k
  }

  lemma QueueSplit(w: Work, rest: seq<Work>, k: nat)
    ensures InQueue([w] + rest, k) <==> w.index == k || InQueue(rest, k)
  {
    var q := [w] + rest;
    assert q[0] == w;
    if InQueue(rest, k) {
      var a :| 0 <= a < |rest| && rest[a].index == k;
      assert q[a + 1].index == k;
    }
    if InQueue(q, k) && w.index != k {
      var a :| 0 <= a < |q| && q[a].index == k;
      assert rest[a - 1].index == k;
    }
  }

  lemma QueueGrows(q: seq<Work>, w: Work, k: nat)
    ensures InQueue(q + [w], k) <==> w.index == k || InQueue(q, k)
  {
    assert (q + [w])[|q|] == w;
    if InQueue(q, k) {
      var a :| 0 <= a < |q| && q[a].index == k;
      assert (q + [w])[a].index == k;
    }
  }

  predicate Dealt(s: State, k: nat) { k in s.handled || k in s.unheld }

  /** The resume point does not step over row k. */
  predicate NotPassed(f: Feed, resumeFrom: Option<Day>, k: nat)
    requires k < |f.txns|
  {
    resumeFrom.None? || resumeFrom.value <= f.txns[k].date
  }

  function FateAt(f: Feed, s: State, k: nat): Fate
    requires Shape(f) && k < |s.reached| && k < |f.txns|
  {
    FateOf(s.reached[k], f.listed, f.txns[k], f.keys[k], f.identities[k])
  }

  /** The row of w waits as what it was found to be, neither dealt with nor passed. */
  predicate Waits(f: Feed, s: State, w: Work)
    requires Shape(f)
  {
    && w.index < s.next && w.index < |f.txns| && w.index < |s.reached|
    && w.index in s.queued && !Dealt(s, w.index) && NotPassed(f, s.resumeFrom, w.index)
    && FateAt(f, s, w.index) == Queued(w.kind)
    && w.matchedKey == (if w.kind == WorkStalePending then f.keys[w.index] else "")
  }

  /** The queue holds rows already reached, in the order of the feed. */
  ghost predicate Queue(f: Feed, s: State)
    requires Shape(f)
  {
    && (forall a :: 0 <= a < |s.queue| ==> Waits(f, s, s.queue[a]))
    && (forall a, b :: 0 <= a < b < |s.queue| ==> s.queue[a].index < s.queue[b].index)
    && (s.placing == [] || |s.placing| == |s.queue|)
  }

  ghost predicate Bounded(f: Feed, s: State) {
    && |s.reached| == s.next <= |f.txns|
    && (forall k :: k in s.handled || k in s.unheld || k in s.queued || k in s.finished ==> k < s.next)
    && s.handled !! s.unheld && s.finished <= s.handled
  }

  /** Unless a batch was cut short, every row reached is dealt with or waiting. */
  ghost predicate Accounted(s: State) {
    !s.writeFailed && !(s.interrupted && s.queue == []) ==>
      forall k :: 0 <= k < s.next ==> Dealt(s, k) || InQueue(s.queue, k)
  }

  /** No row that was not dealt with lies strictly before the resume point. */
  ghost predicate Safe(f: Feed, s: State) {
    && (!s.writeFailed ==> forall k :: 0 <= k < |f.txns| ==> Dealt(s, k) || NotPassed(f, s.resumeFrom, k))
    && forall k :: s.next <= k < |f.txns| ==> NotPassed(f, s.resumeFrom, k)
  }

  ghost predicate Progress(f: Feed, s: State)
    requires Shape(f)
  {
    Bounded(f, s) && Queue(f, s) && Accounted(s) && Safe(f, s)
  }

  /** What became of a row is what it was found to be. */
  predicate Followed(f: Feed, s: State, k: nat)
    requires Shape(f) && k < |s.reached| && k < |f.txns|
  {
    match FateAt(f, s, k)
    case Skipped => k in s.handled && k !in s.queued && k !in s.finished
    case Confirmed => k !in s.queued && k !in s.unheld && (k in s.handled <==> k in s.finished) && (k in s.finished || s.writeFailed)
    case Queued(kind) => k in s.queued && (k in s.finished ==> kind != WorkPending)
  }

  ghost predicate AllFollowed(f: Feed, s: State)
    requires Shape(f)
  {
    |s.reached| <= |f.txns| && forall k :: 0 <= k < |s.reached| ==> Followed(f, s, k)
  }

  /** The identities of the first n rows. */
  ghost function IdentitiesOf(f: Feed, n: nat): set<string>
    requires n <= |f.identities|
  {
    set j | 0 <= j < n :: f.identities[j]
  }

  /** What the run knew at row k is what it started with and what the rows before it added. */
  ghost predicate KnownAt(f: Feed, s0: State, st: Snapshot, k: nat)
    requires k <= |f.identities|
  {
    Retained(s0.st, st) && st.identities.Keys <= s0.st.identities.Keys + IdentitiesOf(f, k)
  }

  /** Finished bookings are on record, and every reading lies between the start and the row it was taken at. */
  ghost predicate Remembered(f: Feed, s0: State, s: State)
    requires Shape(f)
  {
    && s.next <= |f.txns| && KnownAt(f, s0, s.st, s.next)
    && (forall k :: k in s.finished ==> k < |f.txns| && OnRecord(s.st, f.txns[k], f.identities[k]))
    && |s.reached| <= |f.txns| && forall k :: 0 <= k < |s.reached| ==> KnownAt(f, s0, s.reached[k].st, k)
  }

  ghost predicate Inv(f: Feed, s0: State, s: State)
    requires Shape(f)
  {
    Progress(f, s) && AllFollowed(f, s) && Remembered(f, s0, s)
  }

  // ----- The queue and the resume point -----

  /** The waiting rows still wait after a step that reaches one more row and leaves them alone. */
  lemma StillWaits(f: Feed, s: State, s': State, w: Work)
    requires Shape(f) && Waits(f, s, w)
    requires s.next <= s'.next && s.reached <= s'.reached && s.queued <= s'.queued
    requires !Dealt(s', w.index) && NotPassed(f, s'.resumeFrom, w.index)
    ensures Waits(f, s', w)
  {
    hide FateOf;
  }

  lemma ReachKeeps(f: Feed, s: State, e: Event)
    requires Shape(f) && Progress(f, s) && Legal(f, s, e) && (e.Skip? || e.Confirm? || e.Refuse?)
    ensures Progress(f, After(f, s, e))
  {
    hide FateOf, Ordered, ConfirmedRow, Settlement, Amended, InQueue;
    var s' := After(f, s, e);
    forall k | 0 <= k <= s.next ensures f.txns[k].date <= f.txns[s.next].date {
      InDateOrder(f.txns, k, s.next);
    }
    forall k | s.next <= k < |f.txns| ensures f.txns[s.next].date <= f.txns[k].date {
      InDateOrder(f.txns, s.next, k);
    }
    forall a | 0 <= a < |s.queue| ensures Waits(f, s', s.queue[a]) {
      StillWaits(f, s, s', s.queue[a]);
    }
    if s.queue == [] {
      NothingWaits(s.queue);
    }
    forall k | s'.next <= k < |f.txns| ensures NotPassed(f, s'.resumeFrom, k) {
      assert NotPassed(f, s.resumeFrom, k);
    }
    forall k | 0 <= k < |f.txns| && !s'.writeFailed ensures Dealt(s', k) || NotPassed(f, s'.resumeFrom, k) {
      assert Dealt(s, k) || NotPassed(f, s.resumeFrom, k);
      assert k < s.next ==> Dealt(s, k) || InQueue(s.queue, k);
    }
  }

  lemma NothingWaits(q: seq<Work>)
    requires q == []
    ensures forall k: nat :: !InQueue(q, k)
  {
  }

  lemma SetAsideKeeps(f: Feed, s: State)
    requires Shape(f) && Progress(f, s) && Legal(f, s, SetAside)
    ensures Progress(f, After(f, s, SetAside))
  {
    hide FateOf, Ordered, InQueue;
    var s', n := After(f, s, SetAside), |s.queue|;
    var w := s'.queue[n];
    forall a | 0 <= a < n ensures Waits(f, s', s.queue[a]) {
      StillWaits(f, s, s', s.queue[a]);
    }
    assert Waits(f, s', w);
    forall k: nat ensures InQueue(s'.queue, k) <==> w.index == k || InQueue(s.queue, k) {
      QueueGrows(s.queue, w, k);
    }
  }

  /** The head of the queue comes before everything else in it and everything not yet reached. */
  lemma QueueHead(f: Feed, s: State)
    requires Shape(f) && Progress(f, s) && s.queue != []
    ensures var w := s.queue[0];
            && w.index < s.next && w.index < |f.txns| && !Dealt(s, w.index) && NotPassed(f, s.resumeFrom, w.index)
            && (forall a :: 0 < a < |s.queue| ==> w.index < s.queue[a].index)
            && (forall k: nat :: InQueue(s.queue[1..], k) ==> k < |f.txns| && f.txns[w.index].date <= f.txns[k].date)
            && (forall k :: s.next <= k < |f.txns| ==> f.txns[w.index].date <= f.txns[k].date)
            && (forall k: nat :: InQueue(s.queue, k) <==> w.index == k || InQueue(s.queue[1..], k))
  {
    hide FateOf, Ordered, InQueue, Accounted, Safe;
    var w, rest := s.queue[0], s.queue[1..];
    assert s.queue == [w] + rest && Waits(f, s, w);
    forall k: nat ensures InQueue(s.queue, k) <==> w.index == k || InQueue(rest, k) {
      QueueSplit(w, rest, k);
    }
    forall k: nat | InQueue(rest, k) ensures k < |f.txns| && f.txns[w.index].date <= f.txns[k].date {
      BehindHead(f, s, k);
    }
    forall k | s.next <= k < |f.txns| ensures f.txns[w.index].date <= f.txns[k].date {
      InDateOrder(f.txns, w.index, k);
    }
  }

  lemma BehindHead(f: Feed, s: State, k: nat)
    requires Shape(f) && Progress(f, s) && s.queue != [] && InQueue(s.queue[1..], k)
    ensures s.queue[0].index < |f.txns| && k < |f.txns| && f.txns[s.queue[0].index].date <= f.txns[k].date
  {
    hide FateOf, Ordered, Accounted, Safe;
    var rest := s.queue[1..];
    var a :| 0 <= a < |rest| && rest[a].index == k;
    assert Waits(f, s, s.queue[0]) && Waits(f, s, s.queue[a + 1]) && s.queue[a + 1] == rest[a];
    InDateOrder(f.txns, s.queue[0].index, k);
  }

  lemma PopKeeps(f: Feed, s: State, e: Event)
    requires Shape(f) && Progress(f, s) && Legal(f, s, e) && (e.Hold? || e.Note?)
    ensures Progress(f, After(f, s, e))
  {
    hide FateOf, Ordered, InQueue, Noted, IsStale;
    var s', w := After(f, s, e), s.queue[0];
    QueueHead(f, s);
    forall a | 0 <= a < |s'.queue| ensures Waits(f, s', s'.queue[a]) && s'.queue[a] == s.queue[a + 1] {
      assert Waits(f, s, s.queue[a + 1]);
      assert s'.queue[a] == s.queue[a + 1];
      WaitsBehind(f, s, s.queue[a + 1]);
      StillWaits(f, s, s', s.queue[a + 1]);
    }
  }

  lemma WaitsBehind(f: Feed, s: State, w: Work)
    requires Shape(f) && s.queue != [] && Waits(f, s, s.queue[0]) && Waits(f, s, w) && s.queue[0].index < w.index
    ensures f.txns[s.queue[0].index].date <= f.txns[w.index].date
  {
    InDateOrder(f.txns, s.queue[0].index, w.index);
  }

  lemma DropKeeps(f: Feed, s: State, e: Event)
    requires Shape(f) && Progress(f, s) && Legal(f, s, e) && (e.Answer? || e.Fail? || e.Stop? || e.Deadline?)
    ensures Progress(f, After(f, s, e))
  {
    hide FateOf, Ordered, InQueue;
    var s' := After(f, s, e);
    forall a | 0 <= a < |s'.queue| ensures Waits(f, s', s'.queue[a]) {
      StillWaits(f, s, s', s.queue[a]);
    }
  }

  lemma ProgressKept(f: Feed, s: State, e: Event)
    requires Shape(f) && Progress(f, s) && Legal(f, s, e)
    ensures Progress(f, After(f, s, e))
  {
    hide Progress, After, Legal;
    match e
    case Skip => ReachKeeps(f, s, e);
    case Confirm(_) => ReachKeeps(f, s, e);
    case Refuse(_) => ReachKeeps(f, s, e);
    case SetAside => SetAsideKeeps(f, s);
    case Hold(_) => PopKeeps(f, s, e);
    case Note(_, _) => PopKeeps(f, s, e);
    case _ => DropKeeps(f, s, e);
  }

  // ----- What became of each row -----

  lemma FollowedStill(f: Feed, s: State, s': State, k: nat)
    requires Shape(f) && k < |s.reached| && k < |f.txns| && s.reached <= s'.reached && Followed(f, s, k)
    requires (k in s'.handled <==> k in s.handled) && (k in s'.unheld <==> k in s.unheld)
    requires (k in s'.finished <==> k in s.finished) && (k in s'.queued <==> k in s.queued)
    requires s.writeFailed ==> s'.writeFailed
    ensures Followed(f, s', k)
  {
    hide FateOf;
  }

  lemma FollowedKept(f: Feed, s: State, e: Event)
    requires Shape(f) && Progress(f, s) && AllFollowed(f, s) && Legal(f, s, e)
    ensures AllFollowed(f, After(f, s, e))
  {
    hide FateOf, Ordered, InQueue, Noted, ConfirmedRow, Settlement, Amended, Accounted, Safe;
    var s' := After(f, s, e);
    forall k | 0 <= k < |s'.reached| ensures Followed(f, s', k) {
      if k == s.next {
        assert s'.reached[k] == Reading(s.st, s.rows.Keys);
      } else if (e.Hold? || e.Note?) && k == s.queue[0].index {
        assert Waits(f, s, s.queue[0]);
      } else {
        FollowedStill(f, s, s', k);
      }
    }
  }

  // ----- The records -----

  /** The booking, and nothing else, was put on record. */
  ghost predicate Adds(a: Snapshot, b: Snapshot, ref: string, identity: string) {
    && b.imported.Keys == a.imported.Keys + (if ref != "" then {ref} else {})
    && b.identities.Keys == a.identities.Keys + if identity != "" then {identity} else {}
  }

  ghost predicate Neither(a: Snapshot, b: Snapshot) {
    b.imported.Keys == a.imported.Keys && b.identities.Keys == a.identities.Keys
  }

  lemma AddsKeeps(a: Snapshot, b: Snapshot, t: Incoming, identity: string)
    requires Adds(a, b, t.entryRef, identity)
    ensures Retained(a, b) && OnRecord(b, t, identity) && b.identities.Keys <= a.identities.Keys + {identity}
  {
  }

  lemma BothAdd(a: Snapshot, b: Snapshot, c: Snapshot, ref: string, identity: string, row: string, day: string)
    requires Neither(a, b)
    requires Neither(Referenced(Identified(b, identity, row), ref, day), c) || Neither(Identified(Referenced(b, ref, day), identity, row), c)
    ensures Adds(a, c, ref, identity)
  {
  }

  lemma SettlementGains(st: Snapshot, t: Incoming, day: string, key: string, identity: string, row: string)
    ensures Adds(st, Settlement(st, t, day, key, identity, row), t.entryRef, identity)
  {
    hide Adds;
    var before := st.WithoutPending(key).WithBooked(row, key);
    BothAdd(st, before, Settlement(st, t, day, key, identity, row), t.entryRef, identity, row, day);
  }

  lemma SettledGains(st: Snapshot, kind: Kind, t: Incoming, day: string, key: string, matchedKey: string, identity: string,
                     row: string, created: bool, stale: Option<string>)
    ensures var after := Settled(st, kind, t, day, key, matchedKey, identity, row, created, stale);
            if kind == WorkPending then Neither(st, after) else Adds(st, after, t.entryRef, identity)
  {
    hide Adds, Referenced, Identified;
    var after := Settled(st, kind, t, day, key, matchedKey, identity, row, created, stale);
    match kind
    case WorkPending =>
    case WorkStalePending =>
      BothAdd(st, st.WithoutPending(matchedKey).WithBooked(row, matchedKey), after, t.entryRef, identity, row, day);
    case WorkBooked =>
      BothAdd(st, st, after, t.entryRef, identity, row, day);
  }

  lemma NotedGains(f: Feed, st: Snapshot, w: Work, out: Placing, stale: Option<string>, released: bool)
    requires Shape(f) && w.index < |f.txns| && out.Placed?
    ensures var after := Noted(f, st, w, out, stale, released);
            if w.kind == WorkPending then Neither(st, after) else Adds(st, after, f.txns[w.index].entryRef, f.identities[w.index])
  {
    hide Ordered, Settled;
    var k := w.index;
    SettledGains(st, w.kind, f.txns[k], f.Day(k), f.keys[k], w.matchedKey, f.identities[k], out.row.id, out.created, stale);
  }

  lemma ConfirmedMeans(f: Feed, s: State)
    requires Shape(f) && s.next < |f.txns| && NextFate(f, s) == Confirmed
    ensures f.keys[s.next] in s.st.pending && PendingRow(f, s) in s.rows && f.txns[s.next].Status() != "PDNG"
    ensures !Recognised(s.st, f.txns[s.next], f.identities[s.next])
  {
  }

  /** The records only grow, and by identities of rows already reached. */
  lemma RecordsGrow(f: Feed, s: State, e: Event)
    requires Shape(f) && Progress(f, s) && Legal(f, s, e)
    ensures var s' := After(f, s, e);
            && Retained(s.st, s'.st) && s.next <= s'.next <= |f.identities|
            && s'.st.identities.Keys <= s.st.identities.Keys + IdentitiesOf(f, s'.next)
            && s.finished <= s'.finished
            && forall k :: k in s'.finished && k !in s.finished ==> k < |f.txns| && OnRecord(s'.st, f.txns[k], f.identities[k])
  {
    hide FateOf, Ordered, InQueue, Noted, Settlement, ConfirmedRow, Amended, Accounted, Safe, IsStale, OnRecord, Adds;
    var s' := After(f, s, e);
    match e
    case Confirm(_) =>
      ConfirmedMeans(f, s);
      SettlementGains(s.st, f.txns[s.next], f.Day(s.next), f.keys[s.next], f.identities[s.next], PendingRow(f, s));
      AddsKeeps(s.st, s'.st, f.txns[s.next], f.identities[s.next]);
      assert f.identities[s.next] in IdentitiesOf(f, s'.next);
    case Note(stale, released) =>
      var w := s.queue[0];
      NotedGains(f, s.st, w, s.placing[0], stale, released);
      assert Waits(f, s, w);
      if w.kind != WorkPending {
        AddsKeeps(s.st, s'.st, f.txns[w.index], f.identities[w.index]);
        assert f.identities[w.index] in IdentitiesOf(f, s.next);
      }
    case _ =>
  }

  lemma IdentitiesGrow(f: Feed, m: nat, n: nat)
    requires m <= n <= |f.identities|
    ensures IdentitiesOf(f, m) <= IdentitiesOf(f, n)
  {
    forall x | x in IdentitiesOf(f, m) ensures x in IdentitiesOf(f, n) {
      var j :| 0 <= j < m && x == f.identities[j];
    }
  }

  lemma RememberedKept(f: Feed, s0: State, s: State, e: Event)
    requires Shape(f) && Progress(f, s) && Remembered(f, s0, s) && Legal(f, s, e)
    ensures Remembered(f, s0, After(f, s, e))
  {
    hide FateOf, Ordered, InQueue, Noted, Settlement, ConfirmedRow, Amended, Queue, Accounted, Safe, IsStale, IdentitiesOf;
    var s' := After(f, s, e);
    RecordsGrow(f, s, e);
    IdentitiesGrow(f, s.next, s'.next);
    forall k | k in s'.finished ensures k < |f.txns| && OnRecord(s'.st, f.txns[k], f.identities[k]) {
      if k in s.finished {
        assert OnRecord(s.st, f.txns[k], f.identities[k]);
      }
    }
    forall k | 0 <= k < |s'.reached| ensures KnownAt(f, s0, s'.reached[k].st, k) {
      if k < |s.reached| {
        assert s'.reached[k] == s.reached[k] && KnownAt(f, s0, s.reached[k].st, k);
      }
    }
  }

  // ----- Every run -----

  lemma InvStarts(f: Feed, st: Snapshot, rows: map<string, Transaction>)
    requires Shape(f)
    ensures Inv(f, Start(st, rows), Start(st, rows))
  {
  }

  /** Every state a run can be in is a good one. */
  lemma {:induction false} InvHolds(f: Feed, s0: State, log: seq<Event>)
    requires Shape(f) && s0 == Start(s0.st, s0.rows)
    ensures Replay(f, s0, log).Some? ==> Inv(f, s0, Replay(f, s0, log).value)
    decreases |log|
  {
    hide Progress, AllFollowed, Remembered, Legal, After;
    if log == [] {
      InvStarts(f, s0.st, s0.rows);
    } else if Replay(f, s0, log).Some? {
      var s, e := Replay(f, s0, log[..|log| - 1]).value, log[|log| - 1];
      InvHolds(f, s0, log[..|log| - 1]);
      ProgressKept(f, s, e);
      FollowedKept(f, s, e);
      RememberedKept(f, s0, s, e);
    }
  }

  /** One run: the feed, the records and rows it started from, and everything that happened. */
  datatype Run = Run(f: Feed, s0: State, log: seq<Event>)

  ghost predicate Happened(r: Run) {
    Shape(r.f) && r.s0 == Start(r.s0.st, r.s0.rows) && Replay(r.f, r.s0, r.log).Some?
  }

  /** Where it stands after all that. */
  ghost function Final(r: Run): State
    requires Happened(r)
  {
    Replay(r.f, r.s0, r.log).value
  }

  /** Where it stood before event n. */
  ghost function Before(r: Run, n: nat): State
    requires Happened(r) && n <= |r.log|
  {
    ReplayPrefix(r.f, r.s0, r.log, n);
    Replay(r.f, r.s0, r.log[..n]).value
  }

  lemma {:induction false} ReplayPrefix(f: Feed, s0: State, log: seq<Event>, n: nat)
    requires Shape(f) && Replay(f, s0, log).Some? && n <= |log|
    ensures Replay(f, s0, log[..n]).Some?
    ensures n < |log| ==> Legal(f, Replay(f, s0, log[..n]).value, log[n])
    ensures n < |log| ==> Replay(f, s0, log[..n + 1]) == Some(After(f, Replay(f, s0, log[..n]).value, log[n]))
    decreases |log|
  {
    hide Legal, After;
    if n == |log| {
      assert log[..n] == log;
    } else {
      var init := log[..|log| - 1];
      if n == |init| {
        assert log[..n] == init && log[..n + 1] == log;
      } else {
        ReplayPrefix(f, s0, init, n);
        assert init[..n] == log[..n] && init[..n + 1] == log[..n + 1];
      }
    }
  }

  // ----- What it means that a row was dealt with -----

  /** The event deals with row k in full: it is skipped, confirmed, placed and noted, or its question is stored. */
  predicate DealsWith(s: State, e: Event, k: nat) {
    match e
    case Skip => s.next == k
    case Confirm(_) => s.next == k
    case Hold(saved) => saved && s.queue != [] && s.queue[0].index == k
    case Note(_, _) => s.queue != [] && s.queue[0].index == k
    case _ => false
  }

  /** The event finishes booking k: it is confirmed, or placed and noted. */
  predicate Finishes(s: State, e: Event, k: nat) {
    match e
    case Confirm(_) => s.next == k
    case Note(_, _) => s.queue != [] && s.queue[0].index == k && s.queue[0].kind != WorkPending
    case _ => false
  }

  ghost predicate DealtAt(r: Run, n: nat, k: nat)
    requires Happened(r)
  {
    n < |r.log| && DealsWith(Before(r, n), r.log[n], k)
  }

  ghost predicate FinishedAt(r: Run, n: nat, k: nat)
    requires Happened(r)
  {
    n < |r.log| && Finishes(Before(r, n), r.log[n], k)
  }

  lemma InitHappened(r: Run)
    requires Happened(r) && r.log != []
    ensures var init := r.(log := r.log[..|r.log| - 1]);
            && Happened(init) && Legal(r.f, Final(init), r.log[|r.log| - 1])
            && Final(r) == After(r.f, Final(init), r.log[|r.log| - 1])
            && Before(r, |r.log| - 1) == Final(init)
            && forall n :: 0 <= n < |init.log| ==> Before(r, n) == Before(init, n)
  {
    var init := r.log[..|r.log| - 1];
    forall n | 0 <= n < |init| ensures init[..n] == r.log[..n] {
    }
  }

  /** A row counts as handled exactly if some event dealt with it in full, and a booking as finished
      exactly if some event confirmed it or noted its placement. */
  lemma {:induction false} HandledExactly(r: Run, k: nat)
    requires Happened(r)
    ensures k in Final(r).handled <==> EverDealt(r, k)
    ensures k in Final(r).finished <==> EverFinished(r, k)
    decreases |r.log|
  {
    hide EverDealt, EverFinished, Before;
    if r.log == [] {
      NothingYet(r, k);
    } else {
      var init := r.(log := r.log[..|r.log| - 1]);
      InitHappened(r);
      HandledExactly(init, k);
      HandledNow(r.f, Final(init), r.log[|r.log| - 1], k);
      OneMoreEvent(r, k);
    }
  }

  ghost predicate EverDealt(r: Run, k: nat)
    requires Happened(r)
  {
    exists n: nat :: DealtAt(r, n, k)
  }

  ghost predicate EverFinished(r: Run, k: nat)
    requires Happened(r)
  {
    exists n: nat :: FinishedAt(r, n, k)
  }

  lemma NothingYet(r: Run, k: nat)
    requires Happened(r) && r.log == []
    ensures !EverDealt(r, k) && !EverFinished(r, k)
  {
  }

  /** What event n did is the same whether or not the log goes on. */
  lemma SameEvent(r: Run, n: nat, k: nat)
    requires Happened(r) && r.log != [] && Happened(r.(log := r.log[..|r.log| - 1]))
    ensures var init := r.(log := r.log[..|r.log| - 1]);
            && (n < |init.log| ==> (DealtAt(r, n, k) <==> DealtAt(init, n, k)) && (FinishedAt(r, n, k) <==> FinishedAt(init, n, k)))
            && (n == |init.log| ==>
                  && (DealtAt(r, n, k) <==> DealsWith(Final(init), r.log[n], k))
                  && (FinishedAt(r, n, k) <==> Finishes(Final(init), r.log[n], k)))
            && (n >= |init.log| ==> !DealtAt(init, n, k) && !FinishedAt(init, n, k))
            && (n > |init.log| ==> !DealtAt(r, n, k) && !FinishedAt(r, n, k))
  {
    hide Before, Replay, After, Legal, DealsWith, Finishes, Final, Happened;
    InitHappened(r);
  }

  lemma OneMoreEvent(r: Run, k: nat)
    requires Happened(r) && r.log != [] && Happened(r.(log := r.log[..|r.log| - 1]))
    ensures var init := r.(log := r.log[..|r.log| - 1]);
            && (EverDealt(r, k) <==> EverDealt(init, k) || DealsWith(Final(init), r.log[|r.log| - 1], k))
            && (EverFinished(r, k) <==> EverFinished(init, k) || Finishes(Final(init), r.log[|r.log| - 1], k))
  {
    hide DealtAt, FinishedAt, Before, Replay, After, Legal, DealsWith, Finishes, Final, Happened;
    var last := |r.log| - 1;
    var init := r.(log := r.log[..last]);
    SameEvent(r, last, k);
    if n: nat :| DealtAt(r, n, k) {
      SameEvent(r, n, k);
    }
    if n: nat :| DealtAt(init, n, k) {
      SameEvent(r, n, k);
    }
    if n: nat :| FinishedAt(r, n, k) {
      SameEvent(r, n, k);
    }
    if n: nat :| FinishedAt(init, n, k) {
      SameEvent(r, n, k);
    }
  }

  lemma HandledNow(f: Feed, s: State, e: Event, k: nat)
    requires Shape(f) && Legal(f, s, e)
    ensures k in After(f, s, e).handled <==> k in s.handled || DealsWith(s, e, k)
    ensures k in After(f, s, e).finished <==> k in s.finished || Finishes(s, e, k)
  {
    hide FateOf, Noted, Settlement, ConfirmedRow, Amended, IsStale;
  }

  /** A question that could not be stored is the only way for a row to be neither handled nor waiting
      nor lost. */
  lemma {:induction false} UnheldExactly(r: Run)
    requires Happened(r)
    ensures Final(r).unheld == {} <==> Hold(false) !in r.log
    decreases |r.log|
  {
    if r.log != [] {
      var last := |r.log| - 1;
      var init := r.(log := r.log[..last]);
      InitHappened(r);
      UnheldExactly(init);
      UnheldNow(r.f, Final(init), r.log[last]);
      assert r.log == init.log + [r.log[last]];
    }
  }

  lemma UnheldNow(f: Feed, s: State, e: Event)
    requires Shape(f) && Legal(f, s, e)
    ensures After(f, s, e).unheld == {} <==> s.unheld == {} && e != Hold(false)
  {
    hide FateOf, Noted, Settlement, ConfirmedRow, Amended, IsStale;
  }

  // ----- The resume point -----

  /** Without a write failure, at any time: a row dated strictly before the resume point was dealt
      with. All of them were handled in full exactly if none of them is one whose question could not
      be stored. */
  lemma ResumePointIsSafe(r: Run, day: Day)
    requires Happened(r) && !Final(r).writeFailed && Final(r).resumeFrom == Some(day)
    ensures forall k :: 0 <= k < |r.f.txns| && r.f.txns[k].date < day ==> Dealt(Final(r), k)
    ensures (forall k :: 0 <= k < |r.f.txns| && r.f.txns[k].date < day ==> k in Final(r).handled)
       <==> (forall k :: k in Final(r).unheld ==> k < |r.f.txns| && r.f.txns[k].date >= day)
    ensures Hold(false) !in r.log ==>
              forall k :: 0 <= k < |r.f.txns| && r.f.txns[k].date < day ==> k in Final(r).handled
  {
    hide Queue, AllFollowed, Remembered, Replay;
    InvHolds(r.f, r.s0, r.log);
    UnheldExactly(r);
    forall k | k in Final(r).unheld ensures k < |r.f.txns| {
    }
  }

  /** A run that ended neither cut short nor with a write failure dealt with every row. */
  lemma SyncedIsComplete(r: Run)
    requires Happened(r) && Over(r.f, Final(r)) && !Final(r).writeFailed && !Final(r).interrupted
    ensures forall k :: 0 <= k < |r.f.txns| ==> Dealt(Final(r), k)
    ensures Hold(false) !in r.log ==> forall k :: 0 <= k < |r.f.txns| ==> k in Final(r).handled
  {
    hide Queue, AllFollowed, Remembered, Replay;
    InvHolds(r.f, r.s0, r.log);
    UnheldExactly(r);
    forall k | 0 <= k < |r.f.txns| ensures Dealt(Final(r), k) {
      assert !InQueue(Final(r).queue, k);
    }
    forall k | 0 <= k < |r.f.txns| && Hold(false) !in r.log ensures k in Final(r).handled {
      assert Dealt(Final(r), k);
    }
  }

  const NOTHING := Snapshot(map[], map[], {}, map[], map[])

  predicate NewBooking(t: Incoming) {
    t.Status() != "PDNG" && t.amountCents != 0
  }

  lemma NewIsQueued(rows: set<string>, listed: set<string>, t: Incoming, key: string, identity: string)
    requires NewBooking(t)
    ensures FateOf(Reading(NOTHING, rows), listed, t, key, identity) == Queued(WorkBooked)
  {
  }

  /** A first run over three bookings: a question about the first that cannot be stored, the second
      created as row, and no time left for the third. */
  function Unstored(f: Feed, rows: map<string, Transaction>, row: Transaction): Run {
    Run(f, Start(NOTHING, rows),
        [SetAside, SetAside, SetAside, Answer([HeldBack, Placed(row, true, None), Undone]), Hold(false), Note(None, false), Stop])
  }

  /** Such a run resumes from the second booking's day and has not dealt in full with the first, which
      lies before it. */
  lemma UnstoredIsPassed(f: Feed, rows: map<string, Transaction>, row: Transaction)
    requires Shape(f) && |f.txns| == 3 && f.txns[0].date < f.txns[1].date
    requires forall k :: 0 <= k < 3 ==> NewBooking(f.txns[k])
    ensures var r := Unstored(f, rows, row);
            && Happened(r) && Over(f, Final(r)) && Final(r).interrupted && !Final(r).writeFailed
            && Final(r).resumeFrom == Some(f.txns[1].date) && 0 !in Final(r).handled && 0 in Final(r).unheld
  {
    hide Ordered, Legal, After, Over, Replay;
    var r := Unstored(f, rows, row);
    var s := AllSetAside(f, rows);
    var answer := r.log[3];
    var s1, s2, s3, s4 := UnheldThenPlaced(f, s, row);
    var asides := [SetAside, SetAside, SetAside];
    ReplaySnoc(f, r.s0, asides, answer);
    ReplaySnoc(f, r.s0, asides + [answer], Hold(false));
    ReplaySnoc(f, r.s0, asides + [answer] + [Hold(false)], Note(None, false));
    ReplaySnoc(f, r.s0, asides + [answer] + [Hold(false)] + [Note(None, false)], Stop);
    assert r.log == asides + [answer] + [Hold(false)] + [Note(None, false)] + [Stop];
  }

  lemma ReplayNothing(f: Feed, s0: State)
    requires Shape(f)
    ensures Replay(f, s0, []) == Some(s0)
  {
  }

  /** One more new booking joins the queue. */
  lemma AsideStep(f: Feed, s: State)
    requires Shape(f) && Between(f, s) && s.st == NOTHING && NewBooking(f.txns[s.next])
    ensures Legal(f, s, SetAside)
    ensures After(f, s, SetAside) ==
            s.(next := s.next + 1, reached := s.reached + [Reading(s.st, s.rows.Keys)],
               queue := s.queue + [Work(WorkBooked, s.next, "")], queued := s.queued + {s.next})
  {
    hide FateOf, Ordered;
    var k := s.next;
    NewIsQueued(s.rows.Keys, f.listed, f.txns[k], f.keys[k], f.identities[k]);
  }

  lemma AllSetAside(f: Feed, rows: map<string, Transaction>) returns (s: State)
    requires Shape(f) && |f.txns| == 3 && forall k :: 0 <= k < 3 ==> NewBooking(f.txns[k])
    ensures Replay(f, Start(NOTHING, rows), [SetAside, SetAside, SetAside]) == Some(s)
    ensures s.queue == [Work(WorkBooked, 0, ""), Work(WorkBooked, 1, ""), Work(WorkBooked, 2, "")] && s.next == 3
    ensures s.placing == [] && s.handled == {} && s.unheld == {} && !s.writeFailed
  {
    hide Legal, After, Shape, NewBooking, Replay;
    var s0 := Start(NOTHING, rows);
    ReplayNothing(f, s0);
    AsideStep(f, s0);
    var s1 := After(f, s0, SetAside);
    AsideStep(f, s1);
    var s2 := After(f, s1, SetAside);
    AsideStep(f, s2);
    s := After(f, s2, SetAside);
    ReplaySnoc(f, s0, [], SetAside);
    ReplaySnoc(f, s0, [SetAside], SetAside);
    ReplaySnoc(f, s0, [SetAside, SetAside], SetAside);
    assert [] + [SetAside] == [SetAside] && [SetAside] + [SetAside] == [SetAside, SetAside];
    assert [SetAside, SetAside] + [SetAside] == [SetAside, SetAside, SetAside];
  }

  lemma UnheldThenPlaced(f: Feed, s: State, row: Transaction) returns (s1: State, s2: State, s3: State, s4: State)
    requires Shape(f) && |f.txns| == 3 && s.next == 3 && s.placing == [] && s.handled == {} && s.unheld == {} && !s.writeFailed
    requires s.queue == [Work(WorkBooked, 0, ""), Work(WorkBooked, 1, ""), Work(WorkBooked, 2, "")]
    ensures var answer := Answer([HeldBack, Placed(row, true, None), Undone]);
            Legal(f, s, answer) && s1 == After(f, s, answer)
    ensures Legal(f, s1, Hold(false)) && s2 == After(f, s1, Hold(false))
    ensures Legal(f, s2, Note(None, false)) && s3 == After(f, s2, Note(None, false))
    ensures Legal(f, s3, Stop) && s4 == After(f, s3, Stop)
    ensures Over(f, s4) && s4.interrupted && !s4.writeFailed && s4.resumeFrom == Some(f.txns[1].date)
    ensures s4.handled == {1} && s4.unheld == {0}
  {
    hide Ordered, FateOf, Noted;
    s1 := After(f, s, Answer([HeldBack, Placed(row, true, None), Undone]));
    s2 := After(f, s1, Hold(false));
    s3 := After(f, s2, Note(None, false));
    s4 := After(f, s3, Stop);
  }
}
