/** main.go: which bookings a later run recognises, by what the runs before it put on record. */
module Recognising {
  import opened Sums
  import opened Budget
  import opened Assessing
  import opened Keying
  import opened Records
  import opened Stepping

  // ----- Across runs -----

  /** The bank delivers a booking again: under the same reference, or without one and with the same content identity. */
  predicate SameBooking(t: Incoming, identity: string, again: Incoming, identity': string) {
    if t.entryRef != "" then again.entryRef == t.entryRef
    else again.entryRef == "" && again.Status() != "PDNG" && identity != "" && identity' == identity
  }

  ghost predicate Succession(runs: seq<Run>) {
    && (forall c :: 0 <= c < |runs| ==> Happened(runs[c]))
    && forall c :: 0 <= c < |runs| - 1 ==> Retained(Final(runs[c]).st, runs[c + 1].s0.st)
  }

  lemma RunRetains(r: Run)
    requires Happened(r)
    ensures Retained(r.s0.st, Final(r).st)
  {
    hide Progress, AllFollowed;
    InvHolds(r.f, r.s0, r.log);
  }

  lemma {:induction false} RecordsLast(runs: seq<Run>, a: nat, b: nat)
    requires a < b < |runs| && Succession(runs)
    ensures Retained(Final(runs[a]).st, runs[b].s0.st)
    decreases b
  {
    hide Final, Happened;
    if a + 1 < b {
      RecordsLast(runs, a, b - 1);
      RunRetains(runs[b - 1]);
    }
  }

  /** A row the records know when a run starts is skipped when it is reached, and never queued. */
  lemma KnownIsSkipped(r: Run, j: nat)
    requires Happened(r) && j < |r.f.txns| && Recognised(r.s0.st, r.f.txns[j], r.f.identities[j])
    ensures j !in Final(r).queued
    ensures j < Final(r).next ==>
              j < |Final(r).reached| && FateAt(r.f, Final(r), j) == Skipped && j in Final(r).handled
  {
    hide Queue, Accounted, Safe, Replay;
    InvHolds(r.f, r.s0, r.log);
    var s := Final(r);
    if j < s.next {
      assert KnownAt(r.f, r.s0, s.reached[j].st, j) && Followed(r.f, s, j);
      RecognitionDecides(s.reached[j], r.f.listed, r.f.txns[j], r.f.keys[j], r.f.identities[j]);
    }
  }

  /** However many runs lie between, as long as records are retained, a booking that was placed and
      noted or confirmed is recognised when it is delivered again and never reaches the matcher. */
  lemma NeverQueuedAgain(runs: seq<Run>, a: nat, b: nat, n: nat, i: nat, j: nat)
    requires a < b < |runs| && Succession(runs)
    requires FinishedAt(runs[a], n, i) && i < |runs[a].f.txns| && j < |runs[b].f.txns|
    requires SameBooking(runs[a].f.txns[i], runs[a].f.identities[i], runs[b].f.txns[j], runs[b].f.identities[j])
    ensures Recognised(runs[b].s0.st, runs[b].f.txns[j], runs[b].f.identities[j])
    ensures j !in Final(runs[b]).queued
    ensures j < Final(runs[b]).next ==> j in Final(runs[b]).handled
  {
    hide Final, Progress, AllFollowed, Replay, Stepping.Before;
    RecordsLast(runs, a, b);
    HandledExactly(runs[a], i);
    assert EverFinished(runs[a], i);
    FinishedOnRecord(runs[a], i);
    KnownIsSkipped(runs[b], j);
  }

  lemma FinishedOnRecord(r: Run, i: nat)
    requires Happened(r) && i in Final(r).finished
    ensures i < |r.f.txns| && OnRecord(Final(r).st, r.f.txns[i], r.f.identities[i])
  {
    hide Progress, AllFollowed, Replay;
    InvHolds(r.f, r.s0, r.log);
  }

  // ----- Identical records -----

  predicate NumberRecorded(st: Snapshot, content: string, n: nat) {
    Numbered(content, n) in st.identities
  }

  /** Past some number nothing of this content is recorded. */
  lemma {:induction false} NumbersEnd(keys: set<string>, content: string) returns (last: nat)
    ensures forall n: nat :: Numbered(content, n) in keys ==> n <= last
    decreases keys
  {
    hide Numbered;
    if keys == {} {
      last := 0;
    } else {
      var key :| key in keys;
      last := NumbersEnd(keys - {key}, content);
      if n: nat :| Numbered(content, n) == key {
        last := if n > last then n else last;
        forall m: nat | Numbered(content, m) in keys ensures m <= last {
          NumberedApart(content, m, content, n);
        }
      }
    }
  }

  ghost function RecordedNumbers(st: Snapshot, content: string, last: nat): set<nat> {
    set n: nat | 1 <= n <= last && NumberRecorded(st, content, n)
  }

  ghost function UpTo(n: nat): (s: set<nat>)
    ensures forall k: nat :: k in s <==> 1 <= k <= n
    ensures |s| == n
  {
    if n == 0 then {} else UpTo(n - 1) + {n}
  }

  lemma SubsetSize(a: set<nat>, b: set<nat>)
    requires a <= b
    ensures |a| <= |b| && (|a| == |b| ==> a == b)
  {
    assert b == a + (b - a);
    if |a| == |b| {
      assert b - a == {};
    }
  }

  /** Exactly the first r of k are recorded, r being at most all of them. */
  ghost predicate FirstOnes(st: Snapshot, content: string, k: nat, r: nat) {
    forall n: nat :: 1 <= n <= k ==> (NumberRecorded(st, content, n) <==> n <= r)
  }

  /** No recorded number lies above an unrecorded one of the first k. */
  ghost predicate Gapless(st: Snapshot, content: string, k: nat) {
    forall n: nat, m: nat :: 1 <= n <= k && n < m && NumberRecorded(st, content, m) ==> NumberRecorded(st, content, n)
  }

  /** Of k identical records, the recognised ones are the first min(k, recorded) exactly if there is no gap. */
  lemma FirstOnesRecognised(st: Snapshot, content: string, k: nat, last: nat)
    requires forall n: nat :: NumberRecorded(st, content, n) ==> n <= last
    ensures FirstOnes(st, content, k, |RecordedNumbers(st, content, last)|) <==> Gapless(st, content, k)
  {
    hide NumberRecorded;
    var recorded := RecordedNumbers(st, content, last);
    if FirstOnes(st, content, k, |recorded|) {
      forall n: nat, m: nat | 1 <= n <= k && n < m && NumberRecorded(st, content, m) ensures NumberRecorded(st, content, n) {
        if |recorded| < n {
          FullBelow(recorded, m);
        }
      }
    }
    if Gapless(st, content, k) {
      forall n: nat | 1 <= n <= k ensures NumberRecorded(st, content, n) <==> n <= |recorded| {
        if NumberRecorded(st, content, n) {
          forall m: nat | m in UpTo(n) ensures m in recorded {
            BelowRecorded(st, content, k, m, n);
          }
          SubsetSize(UpTo(n), recorded);
        } else {
          SubsetSize(recorded, UpTo(n - 1));
        }
      }
    }
  }

  lemma BelowRecorded(st: Snapshot, content: string, k: nat, m: nat, n: nat)
    requires Gapless(st, content, k) && 1 <= m <= n <= k && NumberRecorded(st, content, n)
    ensures NumberRecorded(st, content, m)
  {
  }

  /** A set that holds all of 1 to its own size holds nothing above. */
  lemma FullBelow(s: set<nat>, m: nat)
    requires forall x: nat :: 1 <= x <= |s| ==> x in s
    ensures m in s ==> m <= |s|
  {
    SubsetSize(UpTo(|s|), s);
  }

  /** What the run itself records does not help it recognise a later row of its feed: a booking
      without a reference is recognised when it is reached exactly if its identity was on record when
      the run started. */
  lemma RecognisedFromStart(r: Run, k: nat)
    requires Happened(r) && Prepared(r.f) && k < Final(r).next
    requires k < |r.f.txns| && r.f.txns[k].entryRef == "" && r.f.txns[k].Status() != "PDNG"
    ensures k < |Final(r).reached|
    ensures Recognised(Final(r).reached[k].st, r.f.txns[k], r.f.identities[k]) <==>
            Recognised(r.s0.st, r.f.txns[k], r.f.identities[k])
  {
    hide Queue, Accounted, Safe, AllFollowed, Replay, KeysOf, ListedKeys;
    InvHolds(r.f, r.s0, r.log);
    var s, id := Final(r), r.f.identities[k];
    assert KnownAt(r.f, r.s0, s.reached[k].st, k);
    if id != "" && id in IdentitiesOf(r.f, k) {
      var j :| 0 <= j < k && id == r.f.identities[j];
      IdentitiesApart(r.f.txns, j, k);
    }
  }

  /** Of the identical records a run has reached, the recognised ones are the first as many as were on
      record when it started, exactly if those have no gap among as many as were reached. */
  lemma IdenticalRecords(r: Run, content: string, last: nat)
    requires Happened(r) && Prepared(r.f) && content != ""
    requires forall k :: 0 <= k < |r.f.txns| && r.f.txns[k].contentKey == content ==>
               r.f.txns[k].entryRef == "" && r.f.txns[k].Status() != "PDNG"
    requires forall n: nat :: NumberRecorded(r.s0.st, content, n) ==> n <= last
    ensures Final(r).next <= |r.f.txns| && Final(r).next == |Final(r).reached|
    ensures (forall k: nat :: k < Final(r).next && r.f.txns[k].contentKey == content ==>
               (Recognised(Final(r).reached[k].st, r.f.txns[k], r.f.identities[k]) <==>
                Occurrence(ContentLabels(r.f.txns), k) <= |RecordedNumbers(r.s0.st, content, last)|))
       <==> Gapless(r.s0.st, content, Occurs(ContentLabels(r.f.txns)[..Final(r).next], content))
  {
    hide Happened, Prepared, Final, Recognised, RecordedNumbers, Occurs, Gapless, FirstOnes;
    var s, labels := Final(r), ContentLabels(r.f.txns);
    ReachedCount(r);
    var count, recorded := Occurs(labels[..s.next], content), |RecordedNumbers(r.s0.st, content, last)|;
    forall k: nat | k < s.next && r.f.txns[k].contentKey == content
      ensures 1 <= Occurrence(labels, k) <= count
      ensures Recognised(s.reached[k].st, r.f.txns[k], r.f.identities[k]) <==> NumberRecorded(r.s0.st, content, Occurrence(labels, k))
    {
      ReadByNumber(r, k);
    }
    FirstOnesRecognised(r.s0.st, content, count, last);
    FirstOnesOver(r.s0.st, content, count, recorded, labels, s.next);
  }

  /** The numbers up to how often a content was reached are those of the rows reached. */
  lemma FirstOnesOver(st: Snapshot, content: string, count: nat, recorded: nat, labels: seq<Option<string>>, next: nat)
    requires next <= |labels| && count == Occurs(labels[..next], content)
    ensures FirstOnes(st, content, count, recorded) <==>
            forall k: nat :: k < next && labels[k] == Some(content) ==>
              (NumberRecorded(st, content, Occurrence(labels, k)) <==> Occurrence(labels, k) <= recorded)
  {
    hide NumberRecorded;
    if FirstOnes(st, content, count, recorded) {
      forall k: nat | k < next && labels[k] == Some(content)
        ensures NumberRecorded(st, content, Occurrence(labels, k)) <==> Occurrence(labels, k) <= recorded
      {
        assert labels[..next][..k] == labels[..k];
        NumbersBounded(labels[..next], k);
      }
    }
    if n: nat :| 1 <= n <= count && !(NumberRecorded(st, content, n) <==> n <= recorded) {
      var k := NumbersReached(labels[..next], content, n);
      assert labels[..next][..k] == labels[..k];
      assert k < next && labels[k] == Some(content) && Occurrence(labels, k) == n;
    }
  }

  lemma ReadByNumber(r: Run, k: nat)
    requires Happened(r) && Prepared(r.f) && k < Final(r).next && k < |r.f.txns| && r.f.txns[k].contentKey != ""
    requires r.f.txns[k].entryRef == "" && r.f.txns[k].Status() != "PDNG"
    ensures k < |Final(r).reached|
    ensures Final(r).next <= |r.f.txns|
    ensures 1 <= Occurrence(ContentLabels(r.f.txns), k) <= Occurs(ContentLabels(r.f.txns)[..Final(r).next], r.f.txns[k].contentKey)
    ensures Recognised(Final(r).reached[k].st, r.f.txns[k], r.f.identities[k]) <==>
            NumberRecorded(r.s0.st, r.f.txns[k].contentKey, Occurrence(ContentLabels(r.f.txns), k))
  {
    hide Replay, Recognised, KeysOf;
    ReachedCount(r);
    var labels := ContentLabels(r.f.txns);
    var seen := labels[..Final(r).next];
    assert seen[..k] == labels[..k] && seen[k] == labels[k];
    NumbersBounded(seen, k);
    RecognisedFromStart(r, k);
    RecognisedByNumber(r, k);
  }

  lemma ReachedCount(r: Run)
    requires Happened(r)
    ensures Final(r).next == |Final(r).reached| <= |r.f.txns| == |r.f.identities|
  {
    hide Queue, Accounted, Safe, AllFollowed, Remembered, Replay;
    InvHolds(r.f, r.s0, r.log);
  }

  lemma RecognisedByNumber(r: Run, k: nat)
    requires Prepared(r.f) && k < |r.f.txns| && r.f.txns[k].contentKey != ""
    requires r.f.txns[k].entryRef == "" && r.f.txns[k].Status() != "PDNG"
    ensures Recognised(r.s0.st, r.f.txns[k], r.f.identities[k]) <==>
            NumberRecorded(r.s0.st, r.f.txns[k].contentKey, Occurrence(ContentLabels(r.f.txns), k))
  {
    hide KeysOf, ListedKeys, Occurrence;
    NumberNotEmpty(r.f.txns[k].contentKey, Occurrence(ContentLabels(r.f.txns), k));
  }

  lemma NumberNotEmpty(content: string, n: nat)
    ensures Numbered(content, n) != ""
  {
  }

  // ----- What a run puts on record -----

  /** The references of some rows, and their identities. */
  ghost function RefsOf(f: Feed, rows: set<nat>): set<string> {
    set k | k in rows && k < |f.txns| && f.txns[k].entryRef != "" :: f.txns[k].entryRef
  }

  ghost function IdsOf(f: Feed, rows: set<nat>): set<string> {
    set k | k in rows && k < |f.identities| && f.identities[k] != "" :: f.identities[k]
  }

  /** What is on record for recognising bookings is what was, and the rows in question. */
  ghost predicate Gained(f: Feed, before: Snapshot, after: Snapshot, rows: set<nat>) {
    && after.imported.Keys == before.imported.Keys + RefsOf(f, rows)
    && after.identities.Keys == before.identities.Keys + IdsOf(f, rows)
  }

  lemma GainedOne(f: Feed, a: Snapshot, b: Snapshot, c: Snapshot, rows: set<nat>, k: nat)
    requires Shape(f) && k < |f.txns| && Gained(f, a, b, rows)
    requires Adds(b, c, f.txns[k].entryRef, f.identities[k])
    ensures Gained(f, a, c, rows + {k})
  {
    hide Ordered, RefsOf, IdsOf;
    var ref, id := f.txns[k].entryRef, f.identities[k];
    RefsGrow(f, rows, k);
    IdsGrow(f, rows, k);
    Regroup(a.imported.Keys, b.imported.Keys, c.imported.Keys, RefsOf(f, rows), if ref != "" then {ref} else {});
    Regroup(a.identities.Keys, b.identities.Keys, c.identities.Keys, IdsOf(f, rows), if id != "" then {id} else {});
  }

  lemma Regroup(a: set<string>, b: set<string>, c: set<string>, x: set<string>, y: set<string>)
    requires b == a + x && c == b + y
    ensures c == a + (x + y)
  {
  }

  lemma RefsGrow(f: Feed, rows: set<nat>, k: nat)
    requires k < |f.txns|
    ensures RefsOf(f, rows + {k}) == RefsOf(f, rows) + if f.txns[k].entryRef != "" then {f.txns[k].entryRef} else {}
  {
    var more := if f.txns[k].entryRef != "" then {f.txns[k].entryRef} else {};
    forall x: string ensures x in RefsOf(f, rows + {k}) <==> x in RefsOf(f, rows) + more {
    }
  }

  lemma IdsGrow(f: Feed, rows: set<nat>, k: nat)
    requires k < |f.identities|
    ensures IdsOf(f, rows + {k}) == IdsOf(f, rows) + if f.identities[k] != "" then {f.identities[k]} else {}
  {
    var more := if f.identities[k] != "" then {f.identities[k]} else {};
    forall x: string ensures x in IdsOf(f, rows + {k}) <==> x in IdsOf(f, rows) + more {
    }
  }

  /** One step puts the booking on record that it finishes, and no other. */
  lemma StepGains(f: Feed, s0: State, s: State, e: Event)
    requires Shape(f) && Progress(f, s) && Legal(f, s, e) && Gained(f, s0.st, s.st, s.finished)
    ensures Gained(f, s0.st, After(f, s, e).st, After(f, s, e).finished)
  {
    hide FateOf, Ordered, InQueue, Noted, Settlement, ConfirmedRow, Amended, Accounted, Safe, IsStale, Gained, Adds;
    var s' := After(f, s, e);
    match e
    case Confirm(_) =>
      ConfirmedMeans(f, s);
      SettlementGains(s.st, f.txns[s.next], f.Day(s.next), f.keys[s.next], f.identities[s.next], PendingRow(f, s));
      GainedOne(f, s0.st, s.st, s'.st, s.finished, s.next);
    case Note(stale, released) =>
      var w := s.queue[0];
      NotedGains(f, s.st, w, s.placing[0], stale, released);
      if w.kind == WorkPending {
        SameGain(f, s0.st, s.st, s'.st, s.finished);
      } else {
        GainedOne(f, s0.st, s.st, s'.st, s.finished, w.index);
      }
    case _ =>
      SameGain(f, s0.st, s.st, s'.st, s.finished);
  }

  lemma SameGain(f: Feed, a: Snapshot, b: Snapshot, c: Snapshot, rows: set<nat>)
    requires Gained(f, a, b, rows) && Neither(b, c)
    ensures Gained(f, a, c, rows)
  {
  }

  /** A run puts on record exactly the bookings it finished. */
  lemma {:induction false} RecordsExactly(r: Run)
    requires Happened(r)
    ensures Gained(r.f, r.s0.st, Final(r).st, Final(r).finished)
    decreases |r.log|
  {
    hide Gained, Legal, After, AllFollowed, Remembered, Progress;
    if r.log == [] {
      NothingGained(r.f, r.s0.st);
    } else {
      var init := r.(log := r.log[..|r.log| - 1]);
      InitHappened(r);
      RecordsExactly(init);
      InvHolds(init.f, init.s0, init.log);
      StepGains(r.f, r.s0, Final(init), r.log[|r.log| - 1]);
    }
  }

  lemma NothingGained(f: Feed, st: Snapshot)
    ensures Gained(f, st, st, {})
  {
  }

  /** Finishing row j makes row k recognisable: it is the same row, or has the same reference. */
  predicate Covers(f: Feed, j: nat, k: nat)
    requires j < |f.txns| && k < |f.txns| == |f.identities|
  {
    if f.txns[k].entryRef != "" then f.txns[j].entryRef == f.txns[k].entryRef else j == k && f.identities[k] != ""
  }

  ghost predicate Covered(f: Feed, finished: set<nat>, k: nat)
    requires k < |f.txns| == |f.identities|
  {
    exists j :: j in finished && j < |f.txns| && Covers(f, j, k)
  }

  /** A booking is recognised after a run exactly if it was before, or the run finished it or another
      row of its reference. */
  lemma RecognisedAfter(r: Run, k: nat)
    requires Happened(r) && Prepared(r.f) && k < |r.f.txns| && r.f.txns[k].Status() != "PDNG"
    ensures Recognised(Final(r).st, r.f.txns[k], r.f.identities[k]) <==>
            Recognised(r.s0.st, r.f.txns[k], r.f.identities[k]) || Covered(r.f, Final(r).finished, k)
  {
    hide Happened, Final, Ordered, KeysOf, ListedKeys, IdentityOf;
    RecordsExactly(r);
    var f, t, id, finished := r.f, r.f.txns[k], r.f.identities[k], Final(r).finished;
    if Covered(f, finished, k) {
      var j :| j in finished && j < |f.txns| && Covers(f, j, k);
      assert t.entryRef != "" ==> t.entryRef in RefsOf(f, finished);
      assert t.entryRef == "" ==> id in IdsOf(f, finished);
    }
    if t.entryRef != "" && t.entryRef in RefsOf(f, finished) {
      var j :| j in finished && j < |f.txns| && f.txns[j].entryRef == t.entryRef;
      assert Covers(f, j, k);
    }
    if t.entryRef == "" && id != "" && id in IdsOf(f, finished) {
      var j :| j in finished && j < |f.identities| && f.identities[j] == id;
      SameRow(f, j, k);
      assert Covers(f, j, k);
    }
  }

  lemma SameRow(f: Feed, j: nat, k: nat)
    requires Prepared(f) && j < |f.txns| && k < |f.txns| && f.identities[j] == f.identities[k] != ""
    ensures j == k
  {
    hide KeysOf, ListedKeys, Ordered;
    if j < k {
      IdentitiesApart(f.txns, j, k);
    } else if k < j {
      IdentitiesApart(f.txns, k, j);
    }
  }

  /** A queued booking that was not finished, because its batch was cut short or failed or its question
      could not be stored: unless another row of its reference was finished, whoever reads the records
      after the run does not recognise it, and hands it to the matcher again or confirms it through an
      authorisation. Without a write failure the resume point has not stepped over it, except when it
      is a question that could not be stored. */
  lemma LeftUndone(r: Run, k: nat, listed: set<string>, rows: set<string>)
    requires Happened(r) && Prepared(r.f) && k < |r.f.txns| && r.f.txns[k].Status() != "PDNG"
    requires k in Final(r).queued && !Covered(r.f, Final(r).finished, k)
    ensures !Recognised(Final(r).st, r.f.txns[k], r.f.identities[k])
    ensures r.f.keys[k] !in Final(r).st.held ==>
              FateOf(Reading(Final(r).st, rows), listed, r.f.txns[k], r.f.keys[k], r.f.identities[k]) != Skipped
    ensures !Final(r).writeFailed && k !in Final(r).handled && k !in Final(r).unheld ==> NotPassed(r.f, Final(r).resumeFrom, k)
  {
    hide Queue, Accounted, Replay, Recognised, KeysOf, ListedKeys, Ordered;
    RecognisedAfter(r, k);
    InvHolds(r.f, r.s0, r.log);
    if Recognised(r.s0.st, r.f.txns[k], r.f.identities[k]) {
      KnownIsSkipped(r, k);
    }
    var s := Final(r);
    assert Followed(r.f, s, k);
    RecognitionDecides(Reading(s.st, rows), listed, r.f.txns[k], r.f.keys[k], r.f.identities[k]);
    NotZero(s.reached[k], r.f.listed, r.f.txns[k], r.f.keys[k], r.f.identities[k]);
  }

  lemma NotZero(seen: Reading, listed: set<string>, t: Incoming, key: string, identity: string)
    requires FateOf(seen, listed, t, key, identity).Queued?
    ensures t.amountCents != 0
  {
  }

  // ----- How gaps come about -----

  /** The recorded numbers of a content are the first so many. */
  ghost predicate NoGap(st: Snapshot, content: string) {
    forall n: nat, m: nat :: 1 <= n < m && NumberRecorded(st, content, m) ==> NumberRecorded(st, content, n)
  }

  /** Row i comes before the identical row j, and the run neither finished it nor knew it. */
  ghost predicate LeftBehind(r: Run, i: nat, j: nat)
    requires Happened(r) && j < |r.f.txns| == |r.f.identities|
  {
    i < j && r.f.txns[i].contentKey == r.f.txns[j].contentKey && i !in Final(r).finished && r.f.identities[i] !in r.s0.st.identities
  }

  ghost predicate NoneLeftBehind(r: Run, content: string)
    requires Happened(r)
  {
    && |r.f.txns| == |r.f.identities|
    && forall i: nat, j: nat :: j < |r.f.txns| && j in Final(r).finished && r.f.txns[j].contentKey == content ==> !LeftBehind(r, i, j)
  }

  /** The number of a row is on record after a run exactly if it was or the run finished that row. */
  lemma NumberAfter(r: Run, k: nat)
    requires Happened(r) && Prepared(r.f) && k < |r.f.txns| && r.f.txns[k].contentKey != ""
    ensures NumberRecorded(Final(r).st, r.f.txns[k].contentKey, Occurrence(ContentLabels(r.f.txns), k)) <==>
            r.f.identities[k] in r.s0.st.identities || k in Final(r).finished
  {
    hide Happened, Final, Ordered, KeysOf, ListedKeys, Occurrence;
    RecordsExactly(r);
    var f, id, finished := r.f, r.f.identities[k], Final(r).finished;
    NumberNotEmpty(f.txns[k].contentKey, Occurrence(ContentLabels(f.txns), k));
    if id in IdsOf(f, finished) {
      var j :| j in finished && j < |f.identities| && f.identities[j] == id;
      SameRow(f, j, k);
    }
    assert k in finished ==> id in IdsOf(f, finished);
  }

  /** A number on record after a run was so before or is that of a finished row. */
  lemma NumberFrom(r: Run, content: string, m: nat) returns (k: nat)
    requires Happened(r) && Prepared(r.f) && content != ""
    requires NumberRecorded(Final(r).st, content, m) && !NumberRecorded(r.s0.st, content, m)
    ensures k < |r.f.txns| && k in Final(r).finished && r.f.txns[k].contentKey == content
    ensures Occurrence(ContentLabels(r.f.txns), k) == m
  {
    hide Happened, Final, Ordered, KeysOf, ListedKeys, Occurrence, Numbered;
    RecordsExactly(r);
    var f, finished := r.f, Final(r).finished;
    assert Numbered(content, m) in IdsOf(f, finished);
    k :| k in finished && k < |f.identities| && f.identities[k] == Numbered(content, m);
    NumberNotEmpty(content, m);
    NumberedApart(content, m, f.txns[k].contentKey, Occurrence(ContentLabels(f.txns), k));
  }

  /** From records without a gap, a run leaves a gap exactly if it finished a row behind an identical
      one that it neither finished nor knew. */
  lemma GapsExactly(r: Run, content: string)
    requires Happened(r) && Prepared(r.f) && content != "" && NoGap(r.s0.st, content)
    ensures NoGap(Final(r).st, content) <==> NoneLeftBehind(r, content)
  {
    hide Happened, Final, Ordered, KeysOf, ListedKeys, Occurrence, Occurs, NumberRecorded, ContentLabels;
    RunRetains(r);
    var labels := ContentLabels(r.f.txns);
    if NoneLeftBehind(r, content) {
      forall n: nat, m: nat | 1 <= n < m && NumberRecorded(Final(r).st, content, m) ensures NumberRecorded(Final(r).st, content, n) {
        if NumberRecorded(r.s0.st, content, m) {
          StillRecorded(r.s0.st, Final(r).st, content, n);
        } else {
          var j := NumberFrom(r, content, m);
          var i := NumberBefore(r.f, content, n, j);
          assert !LeftBehind(r, i, j);
          NumberAfter(r, i);
        }
      }
    }
    if NoGap(Final(r).st, content) {
      forall i: nat, j: nat | j < |r.f.txns| && j in Final(r).finished && r.f.txns[j].contentKey == content
        ensures !LeftBehind(r, i, j)
      {
        if LeftBehind(r, i, j) {
          NumberAfter(r, j);
          NumberAfter(r, i);
          NumbersInOrder(r.f, i, j);
        }
      }
    }
  }

  lemma StillRecorded(a: Snapshot, b: Snapshot, content: string, n: nat)
    requires Retained(a, b) && NumberRecorded(a, content, n)
    ensures NumberRecorded(b, content, n)
  {
  }

  lemma NumberBefore(f: Feed, content: string, n: nat, j: nat) returns (i: nat)
    requires j < |f.txns| && content != "" && f.txns[j].contentKey == content
    requires 1 <= n < Occurrence(ContentLabels(f.txns), j)
    ensures i < j && f.txns[i].contentKey == content && Occurrence(ContentLabels(f.txns), i) == n
  {
    var labels := ContentLabels(f.txns);
    i := NumbersReached(labels[..j], content, n);
    assert labels[..j][..i] == labels[..i];
  }

  lemma NumbersInOrder(f: Feed, i: nat, j: nat)
    requires i < j < |f.txns| && f.txns[i].contentKey == f.txns[j].contentKey != ""
    ensures 1 <= Occurrence(ContentLabels(f.txns), i) < Occurrence(ContentLabels(f.txns), j)
  {
    NumbersApart(ContentLabels(f.txns), i, j);
  }

  /** A feed of two identical bookings without a reference. */
  function Twice(pol: Policy, p: Printer, t: Incoming): Feed {
    var txns := [t, t];
    var keys := KeysOf(p, txns);
    Feed(pol, p, txns, keys, [IdentityOf(txns, 0), IdentityOf(txns, 1)], ListedKeys(txns, keys))
  }

  /** A first run over it: a question about the first of the two, the second created as row. */
  function HoldThenPlace(pol: Policy, p: Printer, t: Incoming, rows: map<string, Transaction>, row: Transaction): Run {
    Run(Twice(pol, p, t), Start(NOTHING, rows),
        [SetAside, SetAside, Answer([HeldBack, Placed(row, true, None)]), Hold(true), Note(None, false)])
  }

  /** The run can happen and leaves number two on record and number one not: the next run recognises the
      second of two identical records, of which one is on record, and not the first. */
  lemma GapAfterHold(pol: Policy, p: Printer, t: Incoming, rows: map<string, Transaction>, row: Transaction)
    requires t.entryRef == "" && t.status == "BOOK" && t.amountCents != 0 && t.contentKey != ""
    ensures var r := HoldThenPlace(pol, p, t, rows, row);
            && Happened(r) && Prepared(r.f) && Over(r.f, Final(r))
            && NumberRecorded(Final(r).st, t.contentKey, 2) && !NumberRecorded(Final(r).st, t.contentKey, 1)
            && !Recognised(Final(r).st, t, r.f.identities[0]) && Recognised(Final(r).st, t, r.f.identities[1])
  {
    var r := HoldThenPlace(pol, p, t, rows, row);
    HoldThenPlaceHappens(pol, p, t, rows, row);
    TwiceNumbers(t);
    NumberAfter(r, 0);
    NumberAfter(r, 1);
    RecognisedAfter(r, 0);
    RecognisedAfter(r, 1);
    assert Covers(r.f, 1, 1);
  }

  lemma TwiceNumbers(t: Incoming)
    requires t.contentKey != ""
    ensures Occurrence(ContentLabels([t, t]), 0) == 1 && Occurrence(ContentLabels([t, t]), 1) == 2
    ensures IdentityOf([t, t], 0) == Numbered(t.contentKey, 1) && IdentityOf([t, t], 1) == Numbered(t.contentKey, 2)
  {
    var labels := ContentLabels([t, t]);
    assert labels[..0] == [] && labels[..1] == [Some(t.contentKey)];
    assert Occurs([Some(t.contentKey)], t.contentKey) == 1;
  }

  lemma TwicePrepared(pol: Policy, p: Printer, t: Incoming)
    ensures Prepared(Twice(pol, p, t)) && Twice(pol, p, t).txns == [t, t]
  {
    hide KeysOf, ListedKeys, IdentityOf, LessTxn;
    LessTxnIrreflexive(t);
  }

  lemma LessTxnIrreflexive(t: Incoming)
    ensures !LessTxn(t, t)
  {
    LexTotal(t.entryRef, t.entryRef);
  }

  /** Both rows are set aside. */
  lemma TwiceSetAside(f: Feed, t: Incoming, rows: map<string, Transaction>) returns (s: State)
    requires Shape(f) && f.txns == [t, t] && NewBooking(t)
    ensures Replay(f, Start(NOTHING, rows), [SetAside, SetAside]) == Some(s)
    ensures s.queue == [Work(WorkBooked, 0, ""), Work(WorkBooked, 1, "")] && s.next == 2
    ensures s.st == NOTHING && s.placing == [] && s.finished == {}
  {
    hide Legal, After, Shape, NewBooking, Replay;
    var s0 := Start(NOTHING, rows);
    ReplayNothing(f, s0);
    AsideStep(f, s0);
    var s1 := After(f, s0, SetAside);
    AsideStep(f, s1);
    s := After(f, s1, SetAside);
    ReplaySnoc(f, s0, [], SetAside);
    ReplaySnoc(f, s0, [SetAside], SetAside);
    assert [] + [SetAside] == [SetAside] && [SetAside] + [SetAside] == [SetAside, SetAside];
  }

  /** The first becomes a question and the second is placed. */
  lemma HeldThenPlaced(f: Feed, s: State, row: Transaction) returns (s1: State, s2: State, s3: State)
    requires Shape(f) && |f.txns| == 2 && s.next == 2 && s.placing == [] && s.finished == {}
    requires s.queue == [Work(WorkBooked, 0, ""), Work(WorkBooked, 1, "")]
    ensures Legal(f, s, Answer([HeldBack, Placed(row, true, None)])) && s1 == After(f, s, Answer([HeldBack, Placed(row, true, None)]))
    ensures Legal(f, s1, Hold(true)) && s2 == After(f, s1, Hold(true))
    ensures Legal(f, s2, Note(None, false)) && s3 == After(f, s2, Note(None, false))
    ensures Over(f, s3) && s3.finished == {1}
  {
    hide Ordered, FateOf, Noted;
    s1 := After(f, s, Answer([HeldBack, Placed(row, true, None)]));
    s2 := After(f, s1, Hold(true));
    s3 := After(f, s2, Note(None, false));
  }

  lemma HoldThenPlaceHappens(pol: Policy, p: Printer, t: Incoming, rows: map<string, Transaction>, row: Transaction)
    requires t.entryRef == "" && t.status == "BOOK" && t.amountCents != 0 && t.contentKey != ""
    ensures var r := HoldThenPlace(pol, p, t, rows, row);
            && Happened(r) && Prepared(r.f) && Over(r.f, Final(r)) && Final(r).finished == {1}
            && r.f.txns == [t, t] && r.s0.st == NOTHING
  {
    hide Ordered, Legal, After, Over, Replay;
    var r := HoldThenPlace(pol, p, t, rows, row);
    var f, s0, answer := r.f, r.s0, r.log[2];
    TwicePrepared(pol, p, t);
    var s := TwiceSetAside(f, t, rows);
    var s1, s2, s3 := HeldThenPlaced(f, s, row);
    ReplaySnoc(f, s0, [SetAside, SetAside], answer);
    ReplaySnoc(f, s0, [SetAside, SetAside, answer], Hold(true));
    ReplaySnoc(f, s0, [SetAside, SetAside, answer, Hold(true)], Note(None, false));
    assert [SetAside, SetAside] + [answer] == [SetAside, SetAside, answer];
    assert [SetAside, SetAside, answer] + [Hold(true)] == [SetAside, SetAside, answer, Hold(true)];
    assert r.log == [SetAside, SetAside, answer, Hold(true)] + [Note(None, false)];
  }
}
