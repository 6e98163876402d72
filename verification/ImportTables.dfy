/** main.go: what a run leaves in each table of an account's records, and where it may be resumed from,
    by the last of its events to write there; and what that means to the runs after it. */
module Tracing {
  import opened Sums
  import opened Budget
  import opened Merging
  import opened Keying
  import opened Records
  import opened Stepping

  // ----- The last write counts -----

  /** A fact that some events establish and some end holds after n events exactly if it did before
      them and none ended it, or one established it and none ended it since. */
  lemma {:induction false} LastWrite(holds: nat -> bool, sets: nat -> bool, ends: nat -> bool, n: nat)
    requires forall k: nat :: k < n ==> (holds(k + 1) <==> sets(k) || (holds(k) && !ends(k)))
    ensures holds(n) <==> || (holds(0) && forall k: nat :: k < n ==> !ends(k))
                          || exists k: nat :: k < n && sets(k) && forall m: nat :: k < m < n ==> !ends(m)
  {
    if n > 0 {
      LastWrite(holds, sets, ends, n - 1);
      assert holds(n - 1 + 1) <==> sets(n - 1) || (holds(n - 1) && !ends(n - 1));
      if k: nat :| k < n && sets(k) && forall m: nat :: k < m < n ==> !ends(m) {
        assert k < n - 1 ==> !ends(n - 1);
      }
    }
  }

  /** Where run r stood before event n, or at its start if it has no such event. */
  ghost function At(r: Run, n: nat): State {
    if Happened(r) && n <= |r.log| then Stepping.Before(r, n) else r.s0
  }

  lemma AtStarts(r: Run)
    requires Happened(r)
    ensures At(r, 0) == r.s0 && r.s0.next == 0 && At(r, |r.log|) == Final(r)
  {
    assert r.log[..0] == [] && r.log[..|r.log|] == r.log;
  }

  lemma AtMoves(r: Run, n: nat)
    requires Happened(r) && n < |r.log|
    ensures Shape(r.f) && Legal(r.f, At(r, n), r.log[n]) && At(r, n + 1) == After(r.f, At(r, n), r.log[n]) && Progress(r.f, At(r, n))
  {
    hide Legal, After, Progress, AllFollowed, Remembered;
    ReplayPrefix(r.f, r.s0, r.log, n);
    InvHolds(r.f, r.s0, r.log[..n]);
  }

  // ----- The events, as what they write -----

  /** The event notes that the row of w was placed as out says. */
  predicate Notes(f: Feed, s: State, e: Event) {
    e.Note? && s.queue != [] && s.placing != [] && s.placing[0].Placed? && s.queue[0].index < |f.txns| == |f.keys| == |f.identities|
  }

  /** The event notes an authorisation created as a row of the budget, and v is that row with its day. */
  predicate Opens(f: Feed, s: State, e: Event, key: string, v: string) {
    && Notes(f, s, e) && s.queue[0].kind == WorkPending && s.placing[0].created
    && key == f.keys[s.queue[0].index] && v == s.placing[0].row.id + "|" + f.p.day(f.txns[s.queue[0].index].date)
  }

  predicate OpensKey(f: Feed, s: State, e: Event, key: string) {
    Notes(f, s, e) && s.queue[0].kind == WorkPending && s.placing[0].created && key == f.keys[s.queue[0].index]
  }

  /** The event consumes the authorisation pending under key: it confirms the booking of that key, it
      notes that booking placed although the authorisation's row was not known, or it notes a booking
      adopting the row of that authorisation. */
  predicate Consumes(f: Feed, s: State, e: Event, key: string) {
    || (e.Confirm? && s.next < |f.keys| && key == f.keys[s.next])
    || (Notes(f, s, e) && s.queue[0].kind == WorkStalePending && key == f.keys[s.queue[0].index])
    || (Notes(f, s, e) && s.queue[0].kind == WorkBooked && !s.placing[0].created && e.stale == Some(key))
  }

  lemma IdentifiedOnly(st: Snapshot, identity: string, row: string)
    ensures Identified(st, identity, row).(identities := st.identities) == st
  {
  }

  lemma ReferencedOnly(st: Snapshot, ref: string, day: string)
    ensures Referenced(st, ref, day).(imported := st.imported) == st
  {
  }

  lemma BookedOnly(st: Snapshot, row: string, key: string)
    ensures st.WithBooked(row, key).(booked := st.booked) == st
  {
  }

  /** What settling a placement does to the open authorisations. */
  lemma SettledPending(st: Snapshot, kind: Kind, t: Incoming, day: string, key: string, matchedKey: string, identity: string,
                       row: string, created: bool, stale: Option<string>)
    ensures Settled(st, kind, t, day, key, matchedKey, identity, row, created, stale).pending ==
            match kind
            case WorkPending => if created then st.pending[key := row + "|" + day] else st.pending
            case WorkStalePending => st.pending - {matchedKey}
            case WorkBooked => if !created && stale.Some? then st.pending - {stale.value} else st.pending
  {
    hide Identified, Referenced, Snapshot.WithBooked;
    match kind
    case WorkPending =>
    case WorkStalePending =>
      var a := st.WithoutPending(matchedKey);
      var b := a.WithBooked(row, matchedKey);
      var c := Identified(b, identity, row);
      BookedOnly(a, row, matchedKey);
      IdentifiedOnly(b, identity, row);
      ReferencedOnly(c, t.entryRef, day);
    case WorkBooked =>
      var a := Referenced(st, t.entryRef, day);
      var b := Identified(a, identity, row);
      ReferencedOnly(st, t.entryRef, day);
      IdentifiedOnly(a, identity, row);
      BookedOnly(b, row, "");
      if stale.Some? {
        BookedOnly(b.WithoutPending(stale.value), row, stale.value);
      }
  }

  lemma NotedPending(f: Feed, st: Snapshot, w: Work, out: Placing, stale: Option<string>, released: bool)
    requires Shape(f) && w.index < |f.txns| && out.Placed?
    ensures Noted(f, st, w, out, stale, released).pending ==
            match w.kind
            case WorkPending => if out.created then st.pending[f.keys[w.index] := out.row.id + "|" + f.Day(w.index)] else st.pending
            case WorkStalePending => st.pending - {w.matchedKey}
            case WorkBooked => if !out.created && stale.Some? then st.pending - {stale.value} else st.pending
  {
    hide Ordered, Settled, Snapshot.WithBooked;
    var k := w.index;
    SettledPending(st, w.kind, f.txns[k], f.Day(k), f.keys[k], w.matchedKey, f.identities[k], out.row.id, out.created, stale);
    if out.counterpart.Some? {
      BookedOnly(Settled(st, w.kind, f.txns[k], f.Day(k), f.keys[k], w.matchedKey, f.identities[k], out.row.id, out.created, stale),
                 out.row.id, out.counterpart.value);
    }
  }

  lemma SettlementPending(st: Snapshot, t: Incoming, day: string, key: string, identity: string, row: string)
    ensures Settlement(st, t, day, key, identity, row).pending == st.pending - {key}
  {
  }

  lemma PendingStep(f: Feed, s: State, e: Event, key: string, v: string)
    requires Shape(f) && Progress(f, s) && Legal(f, s, e)
    ensures var before, after := s.st.pending, After(f, s, e).st.pending;
            (key in after && after[key] == v) <==>
            Opens(f, s, e, key, v) || (key in before && before[key] == v && !OpensKey(f, s, e, key) && !Consumes(f, s, e, key))
  {
    hide FateOf, Ordered, ConfirmedRow, Amended, InQueue, Accounted, Safe, Noted, Settlement, IsStale, StillPending;
    match e
    case Confirm(_) =>
      ConfirmedMeans(f, s);
      SettlementPending(s.st, f.txns[s.next], f.Day(s.next), f.keys[s.next], f.identities[s.next], PendingRow(f, s));
    case Note(stale, released) =>
      assert Waits(f, s, s.queue[0]);
      NotedPending(f, s.st, s.queue[0], s.placing[0], stale, released);
    case _ =>
  }

  /** After a run an authorisation is pending as a row exactly if it was and nothing consumed it, or the
      run noted it created as that row and nothing consumed it since. */
  lemma PendingExactly(r: Run, key: string, v: string)
    requires Happened(r)
    ensures (key in Final(r).st.pending && Final(r).st.pending[key] == v) <==>
            || (&& key in r.s0.st.pending && r.s0.st.pending[key] == v
                && forall m: nat :: m < |r.log| ==> !Consumes(r.f, At(r, m), r.log[m], key) && !OpensKey(r.f, At(r, m), r.log[m], key))
            || exists n: nat :: n < |r.log| && Opens(r.f, At(r, n), r.log[n], key, v)
                 && forall m: nat :: n < m < |r.log| ==> !Consumes(r.f, At(r, m), r.log[m], key) && !OpensKey(r.f, At(r, m), r.log[m], key)
  {
    hide Happened, At, Opens, OpensKey, Consumes, Final;
    var holds := (n: nat) => key in At(r, n).st.pending && At(r, n).st.pending[key] == v;
    var sets := (n: nat) => n < |r.log| && Opens(r.f, At(r, n), r.log[n], key, v);
    var ends := (n: nat) => n < |r.log| && (Consumes(r.f, At(r, n), r.log[n], key) || OpensKey(r.f, At(r, n), r.log[n], key));
    AtStarts(r);
    forall n: nat | n < |r.log| ensures holds(n + 1) <==> sets(n) || (holds(n) && !ends(n)) {
      AtMoves(r, n);
      PendingStep(r.f, At(r, n), r.log[n], key, v);
    }
    LastWrite(holds, sets, ends, |r.log|);
    assert forall m: nat :: m < |r.log| ==> (!ends(m) <==> !Consumes(r.f, At(r, m), r.log[m], key) && !OpensKey(r.f, At(r, m), r.log[m], key));
    assert forall n: nat :: n < |r.log| ==> (sets(n) <==> Opens(r.f, At(r, n), r.log[n], key, v));
  }

  /** A booking that adopts a row consumes one authorisation pending as that row, if there is one, and
      leaves every other one open. */
  lemma AdoptionConsumesOne(r: Run, n: nat)
    requires Happened(r) && n < |r.log| && Notes(r.f, At(r, n), r.log[n])
    requires At(r, n).queue[0].kind == WorkBooked && !At(r, n).placing[0].created
    ensures var before, after, row := At(r, n).st.pending, At(r, n + 1).st.pending, At(r, n).placing[0].row.id;
            if exists key :: key in before && Cut(before[key]).0 == row
            then exists key :: key in before && Cut(before[key]).0 == row && after == before - {key}
            else after == before
  {
    hide Happened, At, Notes, Legal, After, Progress, Cut;
    AtMoves(r, n);
    AdoptionStep(r.f, At(r, n), r.log[n]);
  }

  lemma AdoptionStep(f: Feed, s: State, e: Event)
    requires Shape(f) && Legal(f, s, e) && Notes(f, s, e) && s.queue[0].kind == WorkBooked && !s.placing[0].created
    ensures var before, after, row := s.st.pending, After(f, s, e).st.pending, s.placing[0].row.id;
            if exists key :: key in before && Cut(before[key]).0 == row
            then exists key :: key in before && Cut(before[key]).0 == row && after == before - {key}
            else after == before
  {
    hide Noted, Cut, FateOf, Ordered, Settlement, ConfirmedRow, Amended, StillPending;
    NotedPending(f, s.st, s.queue[0], s.placing[0], e.stale, e.released);
  }

  // ----- Consumed keys -----

  /** The key the event leaves row x booked under, if it books it under one. */
  function BookedAs(f: Feed, s: State, e: Event, x: string): string {
    if e.Confirm? && s.next < |f.keys| && f.keys[s.next] in s.st.pending && x == Cut(s.st.pending[f.keys[s.next]]).0 then f.keys[s.next]
    else if Notes(f, s, e) && x == s.placing[0].row.id then
      var own := match s.queue[0].kind
                 case WorkPending => ""
                 case WorkStalePending => f.keys[s.queue[0].index]
                 case WorkBooked => if !s.placing[0].created && e.stale.Some? then e.stale.value else "";
      match s.placing[0].counterpart
      case None => own
      case Some(key) => if key != "" then key else own
    else ""
  }

  /** Row x is on record as booked under the key. */
  predicate BookedUnder(st: Snapshot, x: string, key: string) { x in st.booked && st.booked[x] == key }

  lemma SettledBooked(st: Snapshot, kind: Kind, t: Incoming, day: string, key: string, matchedKey: string, identity: string,
                      row: string, created: bool, stale: Option<string>)
    ensures Settled(st, kind, t, day, key, matchedKey, identity, row, created, stale).booked ==
            match kind
            case WorkPending => st.booked
            case WorkStalePending => st.WithBooked(row, matchedKey).booked
            case WorkBooked => st.WithBooked(row, if !created && stale.Some? then stale.value else "").booked
  {
    hide Identified, Referenced;
    match kind
    case WorkPending =>
    case WorkStalePending =>
      var b := st.WithoutPending(matchedKey).WithBooked(row, matchedKey);
      IdentifiedOnly(b, identity, row);
      ReferencedOnly(Identified(b, identity, row), t.entryRef, day);
    case WorkBooked =>
      ReferencedOnly(st, t.entryRef, day);
      IdentifiedOnly(Referenced(st, t.entryRef, day), identity, row);
  }

  lemma NotedBooked(f: Feed, st: Snapshot, w: Work, out: Placing, stale: Option<string>, released: bool, x: string, key: string)
    requires Shape(f) && w.index < |f.txns| && out.Placed? && key != ""
    ensures var own := match w.kind
                       case WorkPending => ""
                       case WorkStalePending => w.matchedKey
                       case WorkBooked => if !out.created && stale.Some? then stale.value else "";
            var last := if out.counterpart.Some? && out.counterpart.value != "" then out.counterpart.value else own;
            BookedUnder(Noted(f, st, w, out, stale, released), x, key) <==>
            if x == out.row.id && last != "" then last == key else BookedUnder(st, x, key)
  {
    hide Ordered, Settled, Snapshot.WithBooked;
    var k, row := w.index, out.row.id;
    var settled := Settled(st, w.kind, f.txns[k], f.Day(k), f.keys[k], w.matchedKey, f.identities[k], row, out.created, stale);
    SettledBooked(st, w.kind, f.txns[k], f.Day(k), f.keys[k], w.matchedKey, f.identities[k], row, out.created, stale);
    BookingLeaves(st, row, w.matchedKey, x, key);
    BookingLeaves(st, row, if !out.created && stale.Some? then stale.value else "", x, key);
    if out.counterpart.Some? {
      BookingLeaves(settled, row, out.counterpart.value, x, key);
    }
  }

  /** Booking a row under no key leaves the one it has. */
  lemma BookingLeaves(st: Snapshot, row: string, k: string, x: string, key: string)
    requires key != ""
    ensures BookedUnder(st.WithBooked(row, k), x, key) <==> if x == row && k != "" then k == key else BookedUnder(st, x, key)
  {
  }

  lemma SettlementBooked(st: Snapshot, t: Incoming, day: string, key: string, identity: string, row: string)
    ensures Settlement(st, t, day, key, identity, row).booked == st.WithBooked(row, key).booked
  {
    hide Identified, Referenced;
    var b := st.WithoutPending(key).WithBooked(row, key);
    IdentifiedOnly(b, identity, row);
    ReferencedOnly(Identified(b, identity, row), t.entryRef, day);
  }

  lemma BookedStep(f: Feed, s: State, e: Event, x: string, key: string)
    requires Shape(f) && Progress(f, s) && Legal(f, s, e) && key != ""
    ensures BookedUnder(After(f, s, e).st, x, key) <==>
            BookedAs(f, s, e, x) == key || (BookedUnder(s.st, x, key) && BookedAs(f, s, e, x) == "")
  {
    hide FateOf, Ordered, ConfirmedRow, Amended, InQueue, Accounted, Safe, Noted, Settlement, IsStale, StillPending, Cut;
    match e
    case Confirm(_) =>
      ConfirmedMeans(f, s);
      SettlementBooked(s.st, f.txns[s.next], f.Day(s.next), f.keys[s.next], f.identities[s.next], PendingRow(f, s));
    case Note(stale, released) =>
      assert Waits(f, s, s.queue[0]);
      NotedBooked(f, s.st, s.queue[0], s.placing[0], stale, released, x, key);
    case _ =>
  }

  /** After a run a row is booked under a key exactly if that is the key the last event to book it under
      one left it with. */
  lemma BookedExactly(r: Run, x: string, key: string)
    requires Happened(r) && key != ""
    ensures BookedUnder(Final(r).st, x, key) <==>
            || (BookedUnder(r.s0.st, x, key) && forall m: nat :: m < |r.log| ==> BookedAs(r.f, At(r, m), r.log[m], x) == "")
            || exists n: nat :: n < |r.log| && BookedAs(r.f, At(r, n), r.log[n], x) == key
                 && forall m: nat :: n < m < |r.log| ==> BookedAs(r.f, At(r, m), r.log[m], x) == ""
  {
    hide Happened, At, BookedAs, BookedUnder, Final;
    var holds := (n: nat) => BookedUnder(At(r, n).st, x, key);
    var sets := (n: nat) => n < |r.log| && BookedAs(r.f, At(r, n), r.log[n], x) == key;
    var ends := (n: nat) => n < |r.log| && BookedAs(r.f, At(r, n), r.log[n], x) != "";
    AtStarts(r);
    forall n: nat | n < |r.log| ensures holds(n + 1) <==> sets(n) || (holds(n) && !ends(n)) {
      AtMoves(r, n);
      BookedStep(r.f, At(r, n), r.log[n], x, key);
    }
    LastWrite(holds, sets, ends, |r.log|);
    assert forall m: nat :: m < |r.log| ==> (!ends(m) <==> BookedAs(r.f, At(r, m), r.log[m], x) == "");
    assert forall n: nat :: n < |r.log| ==> (sets(n) <==> BookedAs(r.f, At(r, n), r.log[n], x) == key);
  }

  // ----- Questions -----

  /** The event stores the question about the row of that key. */
  predicate Holds(f: Feed, s: State, e: Event, key: string) {
    e == Hold(true) && s.queue != [] && s.queue[0].index < |f.keys| && f.keys[s.queue[0].index] == key
  }

  /** The event notes a row that stands in for the authorisation held under that key, and deletes the question. */
  predicate Releases(f: Feed, s: State, e: Event, key: string) {
    Notes(f, s, e) && e.released && s.placing[0].counterpart == Some(key)
  }

  lemma SettledHeld(st: Snapshot, kind: Kind, t: Incoming, day: string, key: string, matchedKey: string, identity: string,
                    row: string, created: bool, stale: Option<string>)
    ensures Settled(st, kind, t, day, key, matchedKey, identity, row, created, stale).held == st.held
  {
  }

  lemma SettlementHeld(st: Snapshot, t: Incoming, day: string, key: string, identity: string, row: string)
    ensures Settlement(st, t, day, key, identity, row).held == st.held
  {
  }

  lemma HeldStep(f: Feed, s: State, e: Event, key: string)
    requires Shape(f) && Legal(f, s, e)
    ensures key in After(f, s, e).st.held <==> Holds(f, s, e, key) || (key in s.st.held && !Releases(f, s, e, key))
  {
    hide FateOf, Ordered, ConfirmedRow, Amended, Settled, Settlement, IsStale, StillPending, Cut;
    match e
    case Confirm(_) =>
      ConfirmedMeans(f, s);
      SettlementHeld(s.st, f.txns[s.next], f.Day(s.next), f.keys[s.next], f.identities[s.next], PendingRow(f, s));
    case Note(stale, released) =>
      var w, out := s.queue[0], s.placing[0];
      var k := w.index;
      SettledHeld(s.st, w.kind, f.txns[k], f.Day(k), f.keys[k], w.matchedKey, f.identities[k], out.row.id, out.created, stale);
    case _ =>
  }

  /** A key waits for a person after a run exactly if it did or the run stored a question about it, and it
      has not been released since. */
  lemma HeldExactly(r: Run, key: string)
    requires Happened(r)
    ensures key in Final(r).st.held <==>
            || (key in r.s0.st.held && forall m: nat :: m < |r.log| ==> !Releases(r.f, At(r, m), r.log[m], key))
            || exists n: nat :: n < |r.log| && Holds(r.f, At(r, n), r.log[n], key)
                 && forall m: nat :: n < m < |r.log| ==> !Releases(r.f, At(r, m), r.log[m], key)
  {
    hide Happened, At, Holds, Releases, Final;
    var holds := (n: nat) => key in At(r, n).st.held;
    var sets := (n: nat) => n < |r.log| && Holds(r.f, At(r, n), r.log[n], key);
    var ends := (n: nat) => n < |r.log| && Releases(r.f, At(r, n), r.log[n], key);
    AtStarts(r);
    forall n: nat | n < |r.log| ensures holds(n + 1) <==> sets(n) || (holds(n) && !ends(n)) {
      AtMoves(r, n);
      HeldStep(r.f, At(r, n), r.log[n], key);
    }
    LastWrite(holds, sets, ends, |r.log|);
    assert forall m: nat :: m < |r.log| ==> (!ends(m) <==> !Releases(r.f, At(r, m), r.log[m], key));
    assert forall n: nat :: n < |r.log| ==> (sets(n) <==> Holds(r.f, At(r, n), r.log[n], key));
  }

  // ----- References and identities -----

  /** The event finishes booking k as row x. */
  predicate FinishesAs(f: Feed, s: State, e: Event, k: nat, x: string) {
    || (e.Confirm? && s.next == k < |f.keys| && f.keys[k] in s.st.pending && x == Cut(s.st.pending[f.keys[k]]).0)
    || (Notes(f, s, e) && s.queue[0].kind != WorkPending && s.queue[0].index == k && s.placing[0].row.id == x)
  }

  /** The event finishes a booking of that identity, or of that reference, as row x. */
  ghost predicate Identifies(f: Feed, s: State, e: Event, id: string, x: string) {
    exists k: nat :: k < |f.identities| && f.identities[k] == id && FinishesAs(f, s, e, k, x)
  }

  ghost predicate IdentifiesSome(f: Feed, s: State, e: Event, id: string) {
    exists k: nat, x: string :: k < |f.identities| && f.identities[k] == id && FinishesAs(f, s, e, k, x)
  }

  lemma SettlementNames(st: Snapshot, t: Incoming, day: string, key: string, identity: string, row: string)
    ensures Settlement(st, t, day, key, identity, row).identities ==
            if identity == "" then st.identities else st.identities[identity := row]
    ensures Settlement(st, t, day, key, identity, row).imported ==
            if t.entryRef == "" then st.imported else st.imported[t.entryRef := day]
  {
    hide Snapshot.WithBooked;
    BookedOnly(st.WithoutPending(key), row, key);
  }

  lemma SettledNames(st: Snapshot, kind: Kind, t: Incoming, day: string, key: string, matchedKey: string, identity: string,
                     row: string, created: bool, stale: Option<string>)
    ensures var after := Settled(st, kind, t, day, key, matchedKey, identity, row, created, stale);
            && after.identities == (if kind == WorkPending || identity == "" then st.identities else st.identities[identity := row])
            && after.imported == (if kind == WorkPending || t.entryRef == "" then st.imported else st.imported[t.entryRef := day])
  {
    hide Snapshot.WithBooked;
    match kind
    case WorkPending =>
    case WorkStalePending =>
      BookedOnly(st.WithoutPending(matchedKey), row, matchedKey);
    case WorkBooked =>
      var b := Identified(Referenced(st, t.entryRef, day), identity, row);
      BookedOnly(b, row, "");
      if stale.Some? {
        BookedOnly(b.WithoutPending(stale.value), row, stale.value);
      }
  }

  lemma NotedNames(f: Feed, st: Snapshot, w: Work, out: Placing, stale: Option<string>, released: bool)
    requires Shape(f) && w.index < |f.txns| && out.Placed?
    ensures var after, k := Noted(f, st, w, out, stale, released), w.index;
            && after.identities == (if w.kind == WorkPending || f.identities[k] == "" then st.identities
                                    else st.identities[f.identities[k] := out.row.id])
            && after.imported == (if w.kind == WorkPending || f.txns[k].entryRef == "" then st.imported
                                  else st.imported[f.txns[k].entryRef := f.Day(k)])
  {
    hide Ordered, Settled, Snapshot.WithBooked;
    var k := w.index;
    SettledNames(st, w.kind, f.txns[k], f.Day(k), f.keys[k], w.matchedKey, f.identities[k], out.row.id, out.created, stale);
    if out.counterpart.Some? {
      BookedOnly(Settled(st, w.kind, f.txns[k], f.Day(k), f.keys[k], w.matchedKey, f.identities[k], out.row.id, out.created, stale),
                 out.row.id, out.counterpart.value);
    }
  }

  lemma NamesStep(f: Feed, s: State, e: Event, id: string, x: string)
    requires Shape(f) && Legal(f, s, e) && id != ""
    ensures var before, after := s.st.identities, After(f, s, e).st.identities;
            (id in after && after[id] == x) <==>
            Identifies(f, s, e, id, x) || (id in before && before[id] == x && !IdentifiesSome(f, s, e, id))
  {
    hide FateOf, Ordered, ConfirmedRow, Amended, Noted, Settlement, IsStale, StillPending, Cut;
    match e
    case Confirm(_) =>
      ConfirmedMeans(f, s);
      SettlementNames(s.st, f.txns[s.next], f.Day(s.next), f.keys[s.next], f.identities[s.next], PendingRow(f, s));
      assert FinishesAs(f, s, e, s.next, PendingRow(f, s));
    case Note(stale, released) =>
      NotedNames(f, s.st, s.queue[0], s.placing[0], stale, released);
      assert s.queue[0].kind != WorkPending ==> FinishesAs(f, s, e, s.queue[0].index, s.placing[0].row.id);
    case _ =>
  }

  /** After a run an identity names the row that the last booking of it was finished as. */
  lemma IdentityNames(r: Run, id: string, x: string)
    requires Happened(r) && id != ""
    ensures (id in Final(r).st.identities && Final(r).st.identities[id] == x) <==>
            || (id in r.s0.st.identities && r.s0.st.identities[id] == x
                && forall m: nat :: m < |r.log| ==> !IdentifiesSome(r.f, At(r, m), r.log[m], id))
            || exists n: nat :: n < |r.log| && Identifies(r.f, At(r, n), r.log[n], id, x)
                 && forall m: nat :: n < m < |r.log| ==> !IdentifiesSome(r.f, At(r, m), r.log[m], id)
  {
    hide Happened, At, Identifies, IdentifiesSome, Final;
    var holds := (n: nat) => id in At(r, n).st.identities && At(r, n).st.identities[id] == x;
    var sets := (n: nat) => n < |r.log| && Identifies(r.f, At(r, n), r.log[n], id, x);
    var ends := (n: nat) => n < |r.log| && IdentifiesSome(r.f, At(r, n), r.log[n], id);
    AtStarts(r);
    forall n: nat | n < |r.log| ensures holds(n + 1) <==> sets(n) || (holds(n) && !ends(n)) {
      AtMoves(r, n);
      NamesStep(r.f, At(r, n), r.log[n], id, x);
    }
    LastWrite(holds, sets, ends, |r.log|);
    assert forall m: nat :: m < |r.log| ==> (!ends(m) <==> !IdentifiesSome(r.f, At(r, m), r.log[m], id));
    assert forall n: nat :: n < |r.log| ==> (sets(n) <==> Identifies(r.f, At(r, n), r.log[n], id, x));
  }

  /** The event finishes a booking of that reference dated so. */
  ghost predicate References(f: Feed, s: State, e: Event, ref: string, day: string) {
    exists k: nat, x: string ::
      k < |f.txns| && f.txns[k].entryRef == ref && f.p.day(f.txns[k].date) == day && FinishesAs(f, s, e, k, x)
  }

  ghost predicate ReferencesSome(f: Feed, s: State, e: Event, ref: string) {
    exists k: nat, x: string :: k < |f.txns| && f.txns[k].entryRef == ref && FinishesAs(f, s, e, k, x)
  }

  lemma ReferenceStep(f: Feed, s: State, e: Event, ref: string, day: string)
    requires Shape(f) && Legal(f, s, e) && ref != ""
    ensures var before, after := s.st.imported, After(f, s, e).st.imported;
            (ref in after && after[ref] == day) <==>
            References(f, s, e, ref, day) || (ref in before && before[ref] == day && !ReferencesSome(f, s, e, ref))
  {
    hide FateOf, Ordered, ConfirmedRow, Amended, Noted, Settlement, IsStale, StillPending, Cut;
    match e
    case Confirm(_) =>
      ConfirmedMeans(f, s);
      SettlementNames(s.st, f.txns[s.next], f.Day(s.next), f.keys[s.next], f.identities[s.next], PendingRow(f, s));
      assert FinishesAs(f, s, e, s.next, PendingRow(f, s));
    case Note(stale, released) =>
      NotedNames(f, s.st, s.queue[0], s.placing[0], stale, released);
      assert s.queue[0].kind != WorkPending ==> FinishesAs(f, s, e, s.queue[0].index, s.placing[0].row.id);
    case _ =>
  }

  /** After a run a reference is on record with the day of the last booking of it that was finished. */
  lemma ReferenceDay(r: Run, ref: string, day: string)
    requires Happened(r) && ref != ""
    ensures (ref in Final(r).st.imported && Final(r).st.imported[ref] == day) <==>
            || (ref in r.s0.st.imported && r.s0.st.imported[ref] == day
                && forall m: nat :: m < |r.log| ==> !ReferencesSome(r.f, At(r, m), r.log[m], ref))
            || exists n: nat :: n < |r.log| && References(r.f, At(r, n), r.log[n], ref, day)
                 && forall m: nat :: n < m < |r.log| ==> !ReferencesSome(r.f, At(r, m), r.log[m], ref)
  {
    hide Happened, At, References, ReferencesSome, Final;
    var holds := (n: nat) => ref in At(r, n).st.imported && At(r, n).st.imported[ref] == day;
    var sets := (n: nat) => n < |r.log| && References(r.f, At(r, n), r.log[n], ref, day);
    var ends := (n: nat) => n < |r.log| && ReferencesSome(r.f, At(r, n), r.log[n], ref);
    AtStarts(r);
    forall n: nat | n < |r.log| ensures holds(n + 1) <==> sets(n) || (holds(n) && !ends(n)) {
      AtMoves(r, n);
      ReferenceStep(r.f, At(r, n), r.log[n], ref, day);
    }
    LastWrite(holds, sets, ends, |r.log|);
    assert forall m: nat :: m < |r.log| ==> (!ends(m) <==> !ReferencesSome(r.f, At(r, m), r.log[m], ref));
    assert forall n: nat :: n < |r.log| ==> (sets(n) <==> References(r.f, At(r, n), r.log[n], ref, day));
  }

  // ----- The point to resume from -----

  /** The event moves the resume point to the day of row k: the row was noted as placed, or nothing was
      waiting and it was a booking that was confirmed or an authorisation that is still open. */
  ghost predicate MovesTo(f: Feed, s: State, e: Event, k: nat) {
    || (Notes(f, s, e) && s.queue[0].index == k)
    || (e.Confirm? && s.queue == [] && s.next == k)
    || (e == Skip && s.queue == [] && s.next == k < |f.txns| == |f.keys|
        && f.txns[k].status == "PDNG" && f.txns[k].amountCents != 0 && f.keys[k] !in s.st.held && f.keys[k] in s.st.pending
        && (f.txns[k].entryRef != "" ==> f.txns[k].entryRef !in s.st.imported)
        && forall row :: row in s.st.booked && f.keys[k] != "" ==> s.st.booked[row] != f.keys[k])
  }

  ghost predicate Moves(f: Feed, s: State, e: Event, day: Day) {
    exists k: nat :: k < |f.txns| && f.txns[k].date == day && MovesTo(f, s, e, k)
  }

  ghost predicate MovesAnywhere(f: Feed, s: State, e: Event) {
    exists k: nat :: k < |f.txns| && MovesTo(f, s, e, k)
  }

  lemma ResumeStep(f: Feed, s: State, e: Event, day: Day)
    requires Shape(f) && Legal(f, s, e)
    ensures After(f, s, e).resumeFrom == Some(day) <==>
            Moves(f, s, e, day) || (s.resumeFrom == Some(day) && !MovesAnywhere(f, s, e))
  {
    hide FateOf, Ordered, ConfirmedRow, Amended, Noted, Settlement, IsStale, Cut;
    match e
    case Skip =>
      assert s.queue == [] && StillPending(f, s) ==> MovesTo(f, s, e, s.next);
    case Confirm(_) =>
      assert s.queue == [] ==> MovesTo(f, s, e, s.next);
    case Note(_, _) =>
      assert MovesTo(f, s, e, s.queue[0].index);
    case _ =>
  }

  /** The resume point of a run is the day of the last row that moved it, and there is one exactly if some
      row did. */
  lemma ResumeExactly(r: Run, day: Day)
    requires Happened(r)
    ensures Final(r).resumeFrom == Some(day) <==>
            exists n: nat :: n < |r.log| && Moves(r.f, At(r, n), r.log[n], day)
              && forall m: nat :: n < m < |r.log| ==> !MovesAnywhere(r.f, At(r, m), r.log[m])
  {
    hide At, Moves, MovesAnywhere, Final, Replay;
    var holds := (n: nat) => At(r, n).resumeFrom == Some(day);
    var sets := (n: nat) => n < |r.log| && Moves(r.f, At(r, n), r.log[n], day);
    var ends := (n: nat) => n < |r.log| && MovesAnywhere(r.f, At(r, n), r.log[n]);
    AtStarts(r);
    forall n: nat | n < |r.log| ensures holds(n + 1) <==> sets(n) || (holds(n) && !ends(n)) {
      AtMoves(r, n);
      ResumeStep(r.f, At(r, n), r.log[n], day);
    }
    LastWrite(holds, sets, ends, |r.log|);
    assert forall m: nat :: m < |r.log| ==> (!ends(m) <==> !MovesAnywhere(r.f, At(r, m), r.log[m]));
    assert forall n: nat :: n < |r.log| ==> (sets(n) <==> Moves(r.f, At(r, n), r.log[n], day));
  }

  // ----- What becomes of a row -----

  /** The event reaches the next row of the feed. */
  predicate Reaches(e: Event) { e.Skip? || e.Confirm? || e.Refuse? || e.SetAside? }

  /** A row is set aside, confirmed or skipped by what the records and the known rows say when it is
      reached, and by nothing else. An authorisation is set aside unless it is settled or open already. A
      booking the records do not recognise is confirmed, or refused by the backend, if an authorisation is
      open under its key that the bank no longer lists and whose row is known; otherwise it is set aside. */
  lemma ReachingDecides(r: Run, n: nat)
    requires Happened(r) && n < |r.log| && Reaches(r.log[n])
    ensures At(r, n).next < |r.f.txns| == |r.f.keys| == |r.f.identities| && At(r, n + 1).next == At(r, n).next + 1
    ensures var s, e := At(r, n), r.log[n];
            var t, key, id, st := r.f.txns[s.next], r.f.keys[s.next], r.f.identities[s.next], s.st;
            var counts := key !in st.held && t.amountCents != 0;
            var known := t.entryRef != "" && t.entryRef in st.imported;
            var consumed := key != "" && exists row :: row in st.booked && st.booked[row] == key;
            var recognised := known || (t.entryRef == "" && id != "" && id in st.identities);
            var open := key in st.pending && key !in r.f.listed;
            && (t.status == "PDNG" ==>
                  && (e.SetAside? <==> counts && !known && !consumed && key !in st.pending)
                  && !e.Confirm? && !e.Refuse?)
            && (t.status != "PDNG" ==>
                  && (e.Confirm? || e.Refuse? <==> counts && !recognised && open && Cut(st.pending[key]).0 in s.rows)
                  && (e.SetAside? <==> counts && !recognised && !(open && Cut(st.pending[key]).0 in s.rows)))
            && (e.SetAside? ==>
                  At(r, n + 1).queue == s.queue + [Work(if t.status == "PDNG" then WorkPending else if open then WorkStalePending else WorkBooked,
                                                        s.next, if t.status != "PDNG" && open then key else "")])
  {
    hide Happened, At, Cut, Progress, Ordered, Settlement, ConfirmedRow, Amended, StillPending;
    AtMoves(r, n);
  }

  /** Every row a run got to was reached by one of its events. */
  lemma {:induction false} RowReached(r: Run, n: nat, k: nat) returns (m: nat)
    requires Happened(r) && n <= |r.log| && k < At(r, n).next
    ensures m < n && Reaches(r.log[m]) && At(r, m).next == k
    decreases n
  {
    hide Happened, At, FateOf, Progress, Noted, Settlement, ConfirmedRow, Amended, StillPending, IsStale;
    AtStarts(r);
    assert n > 0;
    AtMoves(r, n - 1);
    if k < At(r, n - 1).next {
      m := RowReached(r, n - 1, k);
    } else {
      m := n - 1;
    }
  }

  // ----- Authorisations over many runs -----

  /** The authorisation of a key is open, or some row consumed it. */
  ghost predicate OpenOrSettled(st: Snapshot, key: string) {
    key in st.pending || exists x :: BookedUnder(st, x, key)
  }

  /** The event books under another key a row that was booked under this one, or is consuming it: only
      the last key a row consumed is on record. */
  ghost predicate Forgets(f: Feed, s: State, e: Event, key: string) {
    exists x :: BookedAs(f, s, e, x) != "" && BookedAs(f, s, e, x) != key && (BookedUnder(s.st, x, key) || Consumes(f, s, e, key))
  }

  lemma ConsumedIsBooked(f: Feed, s: State, e: Event, key: string) returns (x: string)
    requires Shape(f) && Progress(f, s) && Legal(f, s, e) && key != "" && Consumes(f, s, e, key)
    ensures BookedAs(f, s, e, x) != ""
  {
    hide FateOf, Ordered, InQueue, Accounted, Safe, IsStale, StillPending, Cut;
    if e.Confirm? {
      ConfirmedMeans(f, s);
      x := Cut(s.st.pending[f.keys[s.next]]).0;
    } else {
      x := s.placing[0].row.id;
    }
  }

  lemma StaysKnown(f: Feed, s: State, e: Event, key: string)
    requires Shape(f) && Progress(f, s) && Legal(f, s, e) && key != ""
    requires OpenOrSettled(s.st, key) && !Forgets(f, s, e, key)
    ensures OpenOrSettled(After(f, s, e).st, key)
  {
    hide Legal, After, Progress, BookedUnder, BookedAs, Consumes, OpensKey, Opens;
    var after := After(f, s, e).st;
    if Consumes(f, s, e, key) {
      var x := ConsumedIsBooked(f, s, e, key);
      BookedStep(f, s, e, x, key);
      assert BookedUnder(after, x, key);
    } else if key in s.st.pending {
      StaysPending(f, s, e, key);
    } else {
      var x :| BookedUnder(s.st, x, key);
      BookedStep(f, s, e, x, key);
      assert BookedUnder(after, x, key);
    }
  }

  lemma StaysPending(f: Feed, s: State, e: Event, key: string)
    requires Shape(f) && Progress(f, s) && Legal(f, s, e) && key in s.st.pending && !Consumes(f, s, e, key)
    ensures key in After(f, s, e).st.pending
  {
    hide Legal, After, Progress;
    PendingStep(f, s, e, key, s.st.pending[key]);
    if OpensKey(f, s, e, key) {
      var v := s.placing[0].row.id + "|" + f.p.day(f.txns[s.queue[0].index].date);
      assert Opens(f, s, e, key, v);
      PendingStep(f, s, e, key, v);
    }
  }

  /** No event of the run from event a up to event b forgets the key. */
  ghost predicate Remembers(r: Run, key: string, a: nat, b: nat) {
    forall m: nat :: a <= m < b && m < |r.log| ==> !Forgets(r.f, At(r, m), r.log[m], key)
  }

  lemma {:induction false} KnownUntil(r: Run, key: string, a: nat, b: nat)
    requires Happened(r) && key != "" && a <= b <= |r.log|
    requires OpenOrSettled(At(r, a).st, key) && Remembers(r, key, a, b)
    ensures OpenOrSettled(At(r, b).st, key)
    decreases b
  {
    hide Happened, At, OpenOrSettled, Forgets, Legal, After, Progress;
    if a < b {
      KnownUntil(r, key, a, b - 1);
      AtMoves(r, b - 1);
      StaysKnown(r.f, At(r, b - 1), r.log[b - 1], key);
    }
  }

  /** An authorisation that is open or settled when a run starts, and that the run does not forget, is
      skipped wherever the feed lists it. */
  lemma KnownIsPassedOver(r: Run, key: string, n: nat)
    requires Happened(r) && key != "" && OpenOrSettled(r.s0.st, key) && Remembers(r, key, 0, |r.log|)
    requires n < |r.log| && Reaches(r.log[n]) && At(r, n).next < |r.f.txns| == |r.f.keys|
    requires r.f.txns[At(r, n).next].status == "PDNG" && r.f.keys[At(r, n).next] == key
    ensures r.log[n] == Skip
  {
    hide Happened, At, Cut, Forgets;
    AtStarts(r);
    KnownUntil(r, key, 0, n);
    ReachingDecides(r, n);
    assert Remembers(r, key, 0, n);
  }

  /** What is open or booked when a run ends is so when the next starts. */
  ghost predicate TablesKept(runs: seq<Run>) {
    && (forall c :: 0 <= c < |runs| ==> Happened(runs[c]))
    && (forall c :: 0 <= c < |runs| - 1 ==> Final(runs[c]).st.pending.Keys <= runs[c + 1].s0.st.pending.Keys)
    && forall c, x, key :: 0 <= c < |runs| - 1 && BookedUnder(Final(runs[c]).st, x, key) ==> BookedUnder(runs[c + 1].s0.st, x, key)
  }

  lemma {:induction false} KnownAcross(runs: seq<Run>, a: nat, b: nat, key: string)
    requires a < b < |runs| && TablesKept(runs) && key != ""
    requires OpenOrSettled(Final(runs[a]).st, key)
    requires forall c :: a < c < b ==> Remembers(runs[c], key, 0, |runs[c].log|)
    ensures OpenOrSettled(runs[b].s0.st, key)
    decreases b
  {
    hide Happened, Final, Remembers, BookedUnder;
    if a + 1 < b {
      KnownAcross(runs, a, b - 1, key);
      AtStarts(runs[b - 1]);
      KnownUntil(runs[b - 1], key, 0, |runs[b - 1].log|);
    }
    if key !in Final(runs[b - 1]).st.pending {
      var x :| BookedUnder(Final(runs[b - 1]).st, x, key);
      assert BookedUnder(runs[b].s0.st, x, key);
    }
  }

  /** An authorisation that a run noted as created is never given to the matcher again: over any number of
      later runs that find the tables as they were left, it is skipped wherever it is listed, open or
      settled, as long as no row that consumed it consumes another. */
  lemma AuthorisationAskedOnce(runs: seq<Run>, a: nat, n: nat, b: nat, m: nat, key: string)
    requires a < b < |runs| && TablesKept(runs) && key != ""
    requires n < |runs[a].log| && OpensKey(runs[a].f, At(runs[a], n), runs[a].log[n], key)
    requires Remembers(runs[a], key, n + 1, |runs[a].log|)
    requires forall c :: a < c <= b ==> Remembers(runs[c], key, 0, |runs[c].log|)
    requires m < |runs[b].log| && Reaches(runs[b].log[m]) && At(runs[b], m).next < |runs[b].f.txns| == |runs[b].f.keys|
    requires runs[b].f.txns[At(runs[b], m).next].status == "PDNG" && runs[b].f.keys[At(runs[b], m).next] == key
    ensures runs[b].log[m] == Skip
  {
    hide Happened, At, Final, Remembers, Legal, After, Progress, OpensKey, Opens;
    var r := runs[a];
    AtMoves(r, n);
    OpenedIsOpen(r.f, At(r, n), r.log[n], key);
    AtStarts(r);
    KnownUntil(r, key, n + 1, |r.log|);
    KnownAcross(runs, a, b, key);
    KnownIsPassedOver(runs[b], key, m);
  }

  /** A row that consumed one authorisation is to be confirmed by the booking of another. */
  ghost predicate Reused(f: Feed, st: Snapshot, rows: map<string, Transaction>, row: string) {
    && Shape(f) && |f.txns| == 2 && NewBooking(f.txns[0])
    && f.txns[1].status == "PDNG" && f.txns[1].amountCents != 0 && f.txns[1].entryRef == ""
    && f.keys[0] != "" && f.keys[1] != "" && f.keys[0] != f.keys[1] && f.keys[0] !in f.listed
    && st.held == {} && st.imported == map[] && st.identities == map[] && st.booked == map[row := f.keys[1]]
    && st.pending.Keys == {f.keys[0]} && Cut(st.pending[f.keys[0]]).0 == row && row in rows
  }

  /** Then confirming it forgets the first, which is given to the matcher again although it was settled. */
  lemma ForgottenIsAskedAgain(f: Feed, st: Snapshot, rows: map<string, Transaction>, row: string)
    requires Reused(f, st, rows, row)
    ensures var r := Run(f, Start(st, rows), [Confirm(true), SetAside]);
            Happened(r) && BookedUnder(r.s0.st, row, f.keys[1]) && Final(r).queue == [Work(WorkPending, 1, "")]
  {
    hide Ordered, ConfirmedRow, Settlement, Cut, Replay;
    var s0 := Start(st, rows);
    var s1 := After(f, s0, Confirm(true));
    SettlementPending(st, f.txns[0], f.Day(0), f.keys[0], f.identities[0], row);
    SettlementBooked(st, f.txns[0], f.Day(0), f.keys[0], f.identities[0], row);
    SettlementHeld(st, f.txns[0], f.Day(0), f.keys[0], f.identities[0], row);
    ReplayNothing(f, s0);
    ReplaySnoc(f, s0, [], Confirm(true));
    ReplaySnoc(f, s0, [Confirm(true)], SetAside);
    assert [] + [Confirm(true)] == [Confirm(true)] && [Confirm(true)] + [SetAside] == [Confirm(true), SetAside];
  }

  lemma OpenedIsOpen(f: Feed, s: State, e: Event, key: string)
    requires Shape(f) && Progress(f, s) && Legal(f, s, e) && OpensKey(f, s, e, key)
    ensures key in After(f, s, e).st.pending
  {
    hide Legal, After, Progress;
    var v := s.placing[0].row.id + "|" + f.p.day(f.txns[s.queue[0].index].date);
    assert Opens(f, s, e, key, v);
    PendingStep(f, s, e, key, v);
  }

  /** A row once known stays known. */
  lemma {:induction false} RowsStayKnown(r: Run, n: nat)
    requires Happened(r) && n <= |r.log|
    ensures r.s0.rows.Keys <= At(r, n).rows.Keys
    decreases n
  {
    hide Happened, At, FateOf, Progress, Noted, Settlement, ConfirmedRow, Amended, StillPending, IsStale, Cut, Ordered;
    AtStarts(r);
    if n > 0 {
      RowsStayKnown(r, n - 1);
      AtMoves(r, n - 1);
    }
  }

  /** The booking of an authorisation that is open as a known row when the run starts, and that nothing
      before it in the run consumes, is confirmed through that row, or refused by the backend: if the
      bank lists the authorisation no longer and the records do not recognise the booking. Confirmed, the
      row ends as the booking merged into it, or failing that with its amount, and cleared. */
  lemma BookingConfirms(r: Run, n: nat, key: string, row: string)
    requires Happened(r) && n < |r.log| && Reaches(r.log[n])
    requires At(r, n).next < |r.f.txns| == |r.f.keys| == |r.f.identities| && r.f.keys[At(r, n).next] == key
    requires key in r.s0.st.pending && Cut(r.s0.st.pending[key]).0 == row && row in r.s0.rows
    requires forall m: nat :: m < n ==> !Consumes(r.f, At(r, m), r.log[m], key) && !OpensKey(r.f, At(r, m), r.log[m], key)
    requires var t := r.f.txns[At(r, n).next];
             t.status != "PDNG" && t.amountCents != 0 && !Recognised(At(r, n).st, t, r.f.identities[At(r, n).next])
    requires key !in r.f.listed && key !in At(r, n).st.held
    ensures r.log[n].Confirm? || r.log[n].Refuse?
    ensures r.log[n].Confirm? ==>
              && key !in At(r, n + 1).st.pending && (key != "" ==> BookedUnder(At(r, n + 1).st, row, key))
              && row in At(r, n).rows
              && row in At(r, n + 1).rows
              && (forall x :: x != row ==> (x in At(r, n + 1).rows <==> x in At(r, n).rows))
              && (forall x :: x != row && x in At(r, n).rows ==> At(r, n + 1).rows[x] == At(r, n).rows[x])
              && var t, was, now := r.f.txns[At(r, n).next], At(r, n).rows[row], At(r, n + 1).rows[row];
                 && (!was.reconciled ==> now.amountCents == t.amountCents && now.cleared)
                 && (r.log[n].merged ==>
                       now == Merged(r.f.pol, was, ImportedFields(t.date, t.amountCents, t.payee, t.notes, t.entryRef, t.payee, true,
                                                                  r.f.identities[At(r, n).next])))
                 && (!r.log[n].merged ==>
                       now == (if was.reconciled then was else was.(amountCents := t.amountCents)).(cleared := true))
  {
    hide Happened, At, Cut, OpensKey, Consumes, BookedUnder, BookedAs, Settlement, ConfirmedRow, Noted, Merged;
    PendingUntil(r, n, key, r.s0.st.pending[key]);
    RowsStayKnown(r, n);
    ReachingDecides(r, n);
    AtMoves(r, n);
    if r.log[n].Confirm? {
      ConfirmedBooks(r.f, At(r, n), r.log[n], key, row);
      ConfirmedRowEnds(r.f.pol, At(r, n).rows[row], r.f.Booked(At(r, n).next), r.log[n].merged);
    }
  }

  lemma ConfirmedBooks(f: Feed, s: State, e: Event, key: string, row: string)
    requires Shape(f) && Progress(f, s) && Legal(f, s, e) && e.Confirm? && f.keys[s.next] == key
    requires key in s.st.pending && Cut(s.st.pending[key]).0 == row
    ensures key !in After(f, s, e).st.pending && (key != "" ==> BookedUnder(After(f, s, e).st, row, key))
  {
    hide FateOf, Ordered, ConfirmedRow, Settlement, BookedUnder, Cut, Progress;
    SettlementPending(s.st, f.txns[s.next], f.Day(s.next), key, f.identities[s.next], row);
    if key != "" {
      BookedStep(f, s, e, row, key);
    }
  }

  lemma {:induction false} PendingUntil(r: Run, n: nat, key: string, v: string)
    requires Happened(r) && n <= |r.log| && key in r.s0.st.pending && r.s0.st.pending[key] == v
    requires forall m: nat :: m < n ==> !Consumes(r.f, At(r, m), r.log[m], key) && !OpensKey(r.f, At(r, m), r.log[m], key)
    ensures key in At(r, n).st.pending && At(r, n).st.pending[key] == v
    decreases n
  {
    hide Happened, At, Legal, After, Progress, OpensKey, Opens, Consumes;
    AtStarts(r);
    if n > 0 {
      PendingUntil(r, n - 1, key, v);
      AtMoves(r, n - 1);
      PendingStep(r.f, At(r, n - 1), r.log[n - 1], key, v);
    }
  }
}
