/** main.go: one account's import as it runs, with a log of everything that happens. The log is a run
    of the state machine of Stepping, so what every such run keeps holds of this one. */
module Importing {
  import opened Sums
  import opened Budget
  import opened Assessing
  import opened Merging
  import opened Keying
  import opened Records
  import opened Stepping

  /** How the run leaves the account: nothing moves, the next run starts from a day, or the account is up to date. */
  datatype Ending = HeldBackForErrors | ResumeFrom(day: Option<Day>) | Synced

  function EndingOf(s: State): Ending {
    if s.writeFailed then HeldBackForErrors else if s.interrupted then ResumeFrom(s.resumeFrom) else Synced
  }

  /** What the next run may rely on: after a full run every row was dealt with, and after one cut short
      every row dated strictly before the point to resume from; dealt with in full, if every question
      could be stored. */
  ghost predicate Promised(r: Stepping.Run, ending: Ending)
    requires Happened(r)
  {
    && (ending.Synced? ==>
          forall k :: 0 <= k < |r.f.txns| ==> Dealt(Final(r), k) && (Hold(false) !in r.log ==> k in Final(r).handled))
    && (ending.ResumeFrom? && ending.day.Some? ==>
          forall k :: 0 <= k < |r.f.txns| && r.f.txns[k].date < ending.day.value ==>
            Dealt(Final(r), k) && (Hold(false) !in r.log ==> k in Final(r).handled))
  }

  lemma EndingPromises(r: Stepping.Run)
    requires Happened(r) && Over(r.f, Final(r))
    ensures Promised(r, EndingOf(Final(r)))
  {
    hide Happened, Final, Over;
    match EndingOf(Final(r))
    case HeldBackForErrors =>
    case ResumeFrom(day) =>
      if day.Some? {
        ResumePointIsSafe(r, day.value);
      }
    case Synced =>
      SyncedIsComplete(r);
  }

  /** The event that notes an answer of the matcher. */
  predicate Notes(e: Event, out: Placing) {
    match out
    case Undone => e == Stop
    case HeldBack => e.Hold?
    case Placed(_, _, _) => e.Note?
  }

  /** No row was reached in between. */
  predicate SameReach(a: State, b: State) {
    a.next == b.next && a.reached == b.reached && a.queued == b.queued
  }

  class Importer {
    const account: Account
    const f: Feed
    var rows: map<string, Transaction>
    var work: seq<Work>
    var expired: bool
    var interrupted: bool
    var writeFailed: bool
    var resumeFrom: Option<Day>
    ghost const s0: State
    ghost var log: seq<Event>
    ghost var now: State
    ghost var faulted: bool

    /** The log can have happened and led to now. */
    ghost predicate Logged()
      reads `log, `now
    {
      Shape(f) && s0 == Start(s0.st, s0.rows) && Replay(f, s0, log) == Some(now)
    }

    /** The fields are what the log makes them. */
    ghost predicate Agrees(s: State)
      reads `rows, `interrupted, `writeFailed, `resumeFrom, account
    {
      && account.View() == s.st && rows == s.rows
      && interrupted == s.interrupted && writeFailed == s.writeFailed && resumeFrom == s.resumeFrom
    }

    /** Interruptions come from the deadline, and failures from a call that failed. */
    ghost predicate Caused()
      reads `now, `expired, `faulted
    {
      && (now.interrupted ==> expired)
      && (now.writeFailed || now.unheld != {} ==> faulted)
      && (Undone in now.placing ==> expired)
    }

    ghost predicate Valid()
      reads this, account
    {
      Logged() && Agrees(now) && Caused() && work == now.queue && now.placing == []
    }

    /** What has happened so far, as a run of the machine. */
    ghost function Course(): Stepping.Run
      reads this
    {
      Stepping.Run(f, s0, log)
    }

    constructor (account: Account, pol: Policy, p: Printer, feed: seq<Incoming>, known: map<string, Transaction>)
      ensures fresh(this) && this.account == account && f.pol == pol && f.p == p
      ensures multiset(f.txns) == multiset(feed) && forall t :: Filter(f.txns, Tied(t)) == Filter(feed, Tied(t))
      ensures Prepared(f) && s0 == Start(account.View(), known) && log == []
      ensures Valid() && !expired && !faulted
    {
      hide KeyOf, IdentityOf, LessTxn, ListedKeys, Tied, Filter;
      var sorted := SortTxns(feed);
      var keys, collisions := ImportKeys(p, sorted);
      var identities := TxnIdentities(sorted);
      var listed := ListedPendingKeys(sorted, keys);
      this.account := account;
      f := Feed(pol, p, sorted, keys, identities, listed);
      rows, work, resumeFrom := known, [], None;
      expired, interrupted, writeFailed := false, false, false;
      s0 := Start(account.View(), known);
      log, now, faulted := [], Start(account.View(), known), false;
    }

    /** The next event is written down. */
    ghost method Happen(e: Event)
      requires Logged() && Legal(f, now, e)
      modifies `log, `now
      ensures Logged() && log == old(log) + [e] && now == After(f, old(now), e)
    {
      hide Legal, After, Ordered;
      ReplaySnoc(f, s0, log, e);
      now := After(f, now, e);
      log := log + [e];
    }

    // ----- Placing the queue -----

    /** The batch matcher: any outcome for any row, except that a row is left undone only once the
        deadline has passed. It may fail as a whole. */
    method Match() returns (outs: Option<seq<Placing>>)
      modifies `expired, `faulted
      ensures (old(expired) ==> expired) && (old(faulted) ==> faulted)
      ensures outs.None? ==> faulted
      ensures outs.Some? ==> |outs.value| == |work| && (Undone in outs.value ==> expired)
    {
      var fails: bool := *;
      if fails {
        faulted := true;
        return None;
      }
      var s: seq<Placing> := [];
      while |s| < |work|
        invariant |s| <= |work| && (old(expired) ==> expired) && (old(faulted) ==> faulted) && (Undone in s ==> expired)
      {
        var out: Placing := *;
        if out == Undone {
          expired := true;
        }
        s := s + [out];
      }
      outs := Some(s);
    }

    method RecordIdentity(identity: string, row: string)
      modifies account
      ensures account.View() == Identified(old(account.View()), identity, row)
    {
      if identity != "" {
        account.RecordIdentity(identity, row);
      }
    }

    method RememberRef(ref: string, day: string)
      modifies account
      ensures account.View() == Referenced(old(account.View()), ref, day)
    {
      if ref != "" {
        account.AddImportedRef(ref, day);
      }
    }

    method ConsumePending(key: string, row: string)
      modifies account
      ensures account.View() == old(account.View()).WithoutPending(key).WithBooked(row, key)
    {
      account.DeletePending(key);
      account.RecordBooked(row, key);
    }

    /** Notes what the matcher did with a row of the queue. An authorisation is consumed by the booking
        that adopts its row. */
    method Settle(w: Work, out: Placing) returns (ghost stale: Option<string>)
      requires Shape(f) && w.index < |f.txns| && out.Placed?
      modifies account
      ensures account.View() == Settled(old(account.View()), w.kind, f.txns[w.index], f.Day(w.index), f.keys[w.index],
                                        w.matchedKey, f.identities[w.index], out.row.id, out.created, stale)
      ensures IsStale(old(account.View()), w, out, stale)
    {
      hide Cut, KeyOf, Ordered;
      var t, identity, day, row := f.txns[w.index], f.identities[w.index], f.Day(w.index), out.row.id;
      stale := None;
      match w.kind {
        case WorkPending =>
          if out.created {
            account.SetPending(f.keys[w.index], row, day);
          }
        case WorkStalePending =>
          ConsumePending(w.matchedKey, row);
          RecordIdentity(identity, row);
          RememberRef(t.entryRef, day);
        case WorkBooked =>
          RememberRef(t.entryRef, day);
          RecordIdentity(identity, row);
          if out.created {
            account.RecordBooked(row, "");
            return;
          }
          var key := account.FindPendingKeyByTxnID(row);
          if key.Some? {
            stale := key;
            ConsumePending(key.value, row);
            return;
          }
          account.RecordBooked(row, "");
      }
    }

    /** The bookkeeping of one placement: the row is known from here on, what consumed it is noted,
        and a held authorisation it stands in for is closed. */
    method Place(w: Work, out: Placing) returns (ghost stale: Option<string>, released: bool)
      requires Shape(f) && w.index < |f.txns| && out.Placed?
      modifies `rows, account
      ensures rows == old(rows)[out.row.id := out.row]
      ensures account.View() == Noted(f, old(account.View()), w, out, stale, released)
      ensures IsStale(old(account.View()), w, out, stale)
    {
      hide Settled, IsStale, KeyOf, Ordered;
      rows := rows[out.row.id := out.row];
      stale := Settle(w, out);
      released := false;
      if out.counterpart.Some? {
        account.RecordBooked(out.row.id, out.counterpart.value);
        released := *;
        if released {
          account.DeleteHeldKey(out.counterpart.value);
        }
      }
    }

    /** A question for a person: its key is held, if it could be stored. */
    method Question(k: nat) returns (saved: bool)
      requires k < |f.keys|
      modifies `faulted, account
      ensures account.View() == old(account.View()).(held := old(account.held) + if saved then {f.keys[k]} else {})
      ensures (old(faulted) ==> faulted) && (!saved ==> faulted)
    {
      saved := *;
      if !saved {
        faulted := true;
        return;
      }
      account.AddHeldKey(f.keys[k]);
    }

    /** What has to be true of the head of the queue before its answer is noted. */
    lemma HeadInFeed()
      requires Logged() && now.placing != [] && now.queue != []
      ensures now.queue[0].index < |f.txns|
    {
      hide Replay, AllFollowed, Remembered, Accounted, Safe;
      InvHolds(f, s0, log);
      assert Waits(f, now, now.queue[0]);
    }

    /** One answer of the matcher: a question is put by, a placement is noted and passed. */
    method PlaceOne(w: Work, out: Placing)
      requires Logged() && Agrees(now) && Caused() && !out.Undone?
      requires now.queue != [] && now.placing != [] && w == now.queue[0] && out == now.placing[0]
      modifies `rows, `resumeFrom, `faulted, `log, `now, account
      ensures Logged() && Agrees(now) && Caused()
      ensures now.queue == old(now).queue[1..] && now.placing == old(now).placing[1..]
      ensures |log| == |old(log)| + 1 && old(log) <= log && Notes(log[|old(log)|], out) && SameReach(old(now), now)
      ensures old(faulted) ==> faulted
    {
      hide Replay, Noted, IsStale, KeyOf, Ordered;
      HeadInFeed();
      match out {
        case HeldBack =>
          var saved := Question(w.index);
          Happen(Hold(saved));
        case Placed(_, _, _) =>
          ghost var stale;
          var released;
          stale, released := Place(w, out);
          resumeFrom := Some(f.txns[w.index].date);
          Happen(Note(stale, released));
      }
    }

    /** The deadline left the head of the queue undone: whatever waits is given up. */
    method CutShort()
      requires Logged() && Agrees(now) && Caused() && now.placing != [] && now.placing[0] == Undone
      modifies `interrupted, `log, `now
      ensures Logged() && Agrees(now) && Caused() && now.queue == [] && now.placing == [] && SameReach(old(now), now)
      ensures log == old(log) + [Stop] && interrupted
    {
      hide Replay, Ordered;
      interrupted := true;
      Happen(Stop);
    }

    /** Notes the answers for a batch in order, up to the first row the deadline left undone. What
        the matcher did to a later row goes unnoted. */
    method PlaceBatch(outs: seq<Placing>)
      requires Logged() && Agrees(now) && Caused() && work == now.queue && outs == now.placing && |outs| == |work|
      modifies `rows, `resumeFrom, `interrupted, `faulted, `log, `now, account
      ensures Logged() && Agrees(now) && Caused() && now.queue == [] && now.placing == []
      ensures old(log) <= log && |log| <= |old(log)| + |outs|
      ensures forall a :: |old(log)| <= a < |log| ==> Notes(log[a], outs[a - |old(log)|])
      ensures if Undone in outs then old(log) < log && log[|log| - 1] == Stop else |log| == |old(log)| + |outs|
      ensures SameReach(old(now), now)
      ensures (old(interrupted) ==> interrupted) && (old(faulted) ==> faulted)
    {
      hide Replay, Legal, After, Ordered;
      var j := 0;
      while j < |work|
        invariant 0 <= j <= |work| && Logged() && Agrees(now) && Caused()
        invariant now.queue == work[j..] && now.placing == outs[j..] && Undone !in outs[..j]
        invariant old(log) <= log && |log| == |old(log)| + j
        invariant forall a :: |old(log)| <= a < |log| ==> Notes(log[a], outs[a - |old(log)|])
        invariant SameReach(old(now), now)
        invariant (old(interrupted) ==> interrupted) && (old(faulted) ==> faulted)
      {
        if outs[j].Undone? {
          assert outs[j] == Undone;
          CutShort();
          return;
        }
        PlaceOne(work[j], outs[j]);
        j := j + 1;
      }
    }

    /** The batch failed: its rows are given up, and the run has a write failure. */
    method FailBatch()
      requires Valid() && Flushing(f, now) && faulted
      modifies `work, `writeFailed, `log, `now
      ensures Valid() && work == [] && SameReach(old(now), now) && interrupted == now.interrupted == old(now).interrupted
      ensures log == old(log) + [Fail] && writeFailed
    {
      hide Replay, Ordered, FateOf;
      writeFailed := true;
      work := [];
      Happen(Fail);
    }

    ghost method Answered(outs: seq<Placing>)
      requires Valid() && Flushing(f, now) && |outs| == |work| && (Undone in outs ==> expired)
      modifies `log, `now
      ensures Logged() && Agrees(now) && Caused() && now.queue == work && now.placing == outs && SameReach(old(now), now)
      ensures log == old(log) + [Answer(outs)]
    {
      hide Replay, Ordered, FateOf;
      Happen(Answer(outs));
    }

    /** Places everything in the queue; a batch that fails is a write failure. */
    method Flush()
      requires Valid() && (work != [] ==> Flushing(f, now))
      modifies this, account
      ensures Valid() && work == [] && SameReach(old(now), now)
      ensures old(work) == [] ==> log == old(log)
      ensures old(work) != [] ==>
                || (log == old(log) + [Fail] && writeFailed && account.View() == old(account.View()))
                || (old(log) < log && log[|old(log)|].Answer? && writeFailed == old(writeFailed))
      ensures (old(interrupted) ==> interrupted) && (old(expired) ==> expired) && (old(faulted) ==> faulted)
    {
      hide Replay, Legal, After, Ordered, Notes;
      if |work| == 0 {
        return;
      }
      var outs := Match();
      if outs.None? {
        FailBatch();
        return;
      }
      Answered(outs.value);
      ghost var asked := log;
      PlaceBatch(outs.value);
      assert asked <= log;
      work := [];
    }

    // ----- One row of the feed -----

    /** Sets row i aside for the matcher, and places the queue once it is long enough. */
    method Enqueue(kind: Kind, i: nat, matchedKey: string)
      requires AtRow(i) && NextFate(f, now) == Queued(kind)
      requires matchedKey == if kind == WorkStalePending then f.keys[i] else ""
      modifies this, account
      ensures Valid() && now.next == i + 1 && |work| < BATCH_SIZE
      ensures old(log) < log && log[|old(log)|] == SetAside
      ensures |log| > |old(log)| + 1 <==> |old(work)| + 1 == BATCH_SIZE
      ensures (old(expired) ==> expired) && (old(faulted) ==> faulted)
    {
      hide Replay, Ordered, FateOf;
      work := work + [Work(kind, i, matchedKey)];
      Happen(SetAside);
      if |work| >= BATCH_SIZE {
        Flush();
      }
    }

    /** Row i is the next one and may be reached. */
    ghost predicate AtRow(i: nat)
      reads this, account
    {
      Valid() && Between(f, now) && now.next == i
    }

    method AlreadyBooked(ref: string, key: string) returns (yes: bool)
      ensures yes <==> (ref != "" && ref in account.imported) || account.View().Consumed(key)
    {
      if ref != "" && ref in account.imported {
        return true;
      }
      yes := account.Consumed(key);
    }

    /** What a handler leaves behind: the row's event has happened, and perhaps a batch after it; or,
        if the row was dealt with in full, it is about to happen and only the resume point is missing. */
    twostate predicate Treated(i: nat, through: bool, e: Event)
      reads this, account
    {
      if through then
        && Logged() && Caused() && log == old(log) && now == old(now) && now.next == i < |f.txns| && Legal(f, now, e)
        && (e.Confirm? || (e == Skip && StillPending(f, now)))
        && Agrees(After(f, now, e).(resumeFrom := now.resumeFrom)) && work == now.queue && now.placing == []
      else
        && Valid() && now.next == i + 1 && |work| < BATCH_SIZE
        && old(log) < log && log[|old(log)|] == e && (|log| > |old(log)| + 1 ==> e == SetAside)
    }

    /** The row is dealt with where it stands and is no reason to resume later. */
    ghost method Pass(i: nat)
      requires AtRow(i) && NextFate(f, now) == Skipped && !StillPending(f, now)
      modifies `log, `now
      ensures Valid() && now.next == i + 1 && |work| < BATCH_SIZE && log == old(log) + [Skip]
    {
      hide Replay, Ordered, FateOf;
      Happen(Skip);
    }

    /** An authorisation: settled already, seen already, or new to the matcher. */
    method HandleAuthorisation(i: nat) returns (through: bool, ghost e: Event)
      requires AtRow(i) && f.keys[i] !in account.held && f.txns[i].amountCents != 0 && f.txns[i].Status() == "PDNG"
      modifies this, account
      ensures Treated(i, through, e)
      ensures e == SetAside <==> !AuthorisationKnown(old(account.View()), f.txns[i], f.keys[i])
      ensures (old(expired) ==> expired) && (old(faulted) ==> faulted)
    {
      hide Replay, Ordered;
      through, e := false, Skip;
      var done := AlreadyBooked(f.txns[i].entryRef, f.keys[i]);
      if done {
        Pass(i);
        return;
      }
      if f.keys[i] !in account.pending {
        e := SetAside;
        Enqueue(WorkPending, i, "");
        return;
      }
      through := true;
    }

    /** The authorisation behind a booking is confirmed: its key is consumed and the booking goes on record. */
    method Confirm(i: nat, row: string)
      requires Shape(f) && i < |f.txns|
      modifies account
      ensures account.View() == Settlement(old(account.View()), f.txns[i], f.Day(i), f.keys[i], f.identities[i], row)
    {
      ConsumePending(f.keys[i], row);
      RecordIdentity(f.identities[i], row);
      RememberRef(f.txns[i].entryRef, f.Day(i));
    }

    /** One write to the backend, which may fail. */
    method Update(row: string, p: Patch) returns (ok: bool)
      requires row in rows
      modifies `rows, `faulted
      ensures rows == old(rows)[row := if ok then ApplyPatch(old(rows)[row], p) else old(rows)[row]]
      ensures (old(faulted) ==> faulted) && (!ok ==> faulted)
    {
      ok := *;
      if ok {
        rows := rows[row := ApplyPatch(rows[row], p)];
      } else {
        faulted := true;
        assert rows == rows[row := rows[row]];
      }
    }

    /** The writes that turn an authorisation's row into the booking: the amount if it differs, then
        the enrichment, or failing that the cleared mark alone. */
    method Rewrite(row: string, booked: ImportedFields) returns (ok: bool, amended: bool, merged: bool)
      requires row in rows
      modifies `rows, `faulted
      ensures (old(faulted) ==> faulted) && (!ok ==> faulted)
      ensures ok ==> rows == old(rows)[row := ConfirmedRow(f.pol, old(rows)[row], booked, merged)]
      ensures !ok ==> rows == if amended then old(rows)[row := Amended(old(rows)[row], booked.amountCents)] else old(rows)
    {
      ghost var was := rows[row];
      assert rows == rows[row := was];
      amended, merged := true, false;
      if rows[row].amountCents != booked.amountCents {
        amended := Update(row, AmountPatch(rows[row], booked.amountCents));
        if !amended {
          ok := false;
          return;
        }
      }
      assert rows == old(rows)[row := Amended(was, booked.amountCents)];
      merged := Update(row, MergePatch(f.pol, rows[row], booked));
      ok := true;
      if !merged {
        ok := Update(row, EMPTY.(cleared := Some(true)));
      }
    }

    /** Rewrites the authorisation's row as the booking and notes it; a refused write fails the run. */
    method SettleAuthorisation(i: nat, row: string) returns (through: bool, ghost e: Event)
      requires AtRow(i) && NextFate(f, now) == Confirmed && row == PendingRow(f, now) && row in rows
      modifies this, account
      ensures Treated(i, through, e) && (through <==> e.Confirm?) && (!through ==> e.Refuse? && writeFailed)
      ensures (old(expired) ==> expired) && (old(faulted) ==> faulted)
    {
      hide Replay, Ordered, FateOf, ConfirmedRow, Amended, Settlement;
      var ok, amended, merged := Rewrite(row, f.Booked(i));
      if !ok {
        writeFailed := true;
        Happen(Refuse(amended));
        return false, Refuse(amended);
      }
      Confirm(i, row);
      through, e := true, Event.Confirm(merged);
    }

    /** A booking the records know is recognised by its reference or its content; any other settles
        the authorisation of its key, or is left to the matcher. */
    method HandleBooking(i: nat) returns (through: bool, ghost e: Event)
      requires AtRow(i) && f.keys[i] !in account.held && f.txns[i].amountCents != 0 && f.txns[i].Status() != "PDNG"
      modifies this, account
      ensures Treated(i, through, e)
      ensures e == Skip <==> Recognised(old(account.View()), f.txns[i], f.identities[i])
      ensures (old(expired) ==> expired) && (old(faulted) ==> faulted)
    {
      hide Replay, Ordered;
      var t, key, identity := f.txns[i], f.keys[i], f.identities[i];
      through, e := false, Skip;
      if t.entryRef != "" && t.entryRef in account.imported {
        Pass(i);
        return;
      }
      if t.entryRef == "" && identity != "" && identity in account.identities {
        account.RecordIdentity(identity, account.identities[identity]);
        Pass(i);
        return;
      }
      if key !in account.pending || key in f.listed {
        e := SetAside;
        Enqueue(WorkBooked, i, "");
        return;
      }
      var row := Cut(account.pending[key]).0;
      if row !in rows {
        e := SetAside;
        Enqueue(WorkStalePending, i, key);
        return;
      }
      through, e := SettleAuthorisation(i, row);
    }

    /** A row dealt with in full moves the resume point up to it if nothing waits. */
    method MoveOn(i: nat, ghost e: Event)
      requires Logged() && Caused() && now.next == i < |f.txns| && Legal(f, now, e) && (e.Confirm? || (e == Skip && StillPending(f, now)))
      requires Agrees(After(f, now, e).(resumeFrom := now.resumeFrom)) && work == now.queue && now.placing == []
      modifies `resumeFrom, `log, `now
      ensures Valid() && now.next == i + 1 && |work| < BATCH_SIZE && log == old(log) + [e]
    {
      hide Replay, Ordered, FateOf, ConfirmedRow, Settlement;
      if |work| == 0 {
        resumeFrom := Some(f.txns[i].date);
      }
      Happen(e);
    }

    /** One turn of the loop: one event for the row, the one the records and the known rows allow, and
        a batch after it if the queue has become long enough. */
    method HandleRow(i: nat)
      requires AtRow(i)
      modifies this, account
      ensures Valid() && now.next == i + 1 && |work| < BATCH_SIZE
      ensures old(log) < log && (|log| > |old(log)| + 1 ==> log[|old(log)|] == SetAside)
      ensures (old(expired) ==> expired) && (old(faulted) ==> faulted)
    {
      hide Replay, Ordered;
      if f.keys[i] in account.held {
        Pass(i);
        return;
      }
      if f.txns[i].amountCents == 0 {
        Pass(i);
        return;
      }
      var through;
      ghost var e;
      if f.txns[i].Status() == "PDNG" {
        through, e := HandleAuthorisation(i);
      } else {
        through, e := HandleBooking(i);
      }
      if through {
        MoveOn(i, e);
      }
    }

    /** ctx.Err(): once the deadline has passed it stays passed. */
    method DeadlinePassed() returns (yes: bool)
      modifies `expired
      ensures yes == expired && (old(expired) ==> expired)
    {
      var passed: bool := *;
      expired := expired || passed;
      yes := expired;
    }

    /** The whole import of one account. What happened is a run of the machine to its end, the fields
        and the records are what that run makes them, and the ending tells how much of the feed may be
        stepped over. */
    method Run() returns (ending: Ending)
      requires Valid() && log == []
      modifies this, account
      ensures s0 == Start(old(account.View()), old(rows))
      ensures Happened(Course()) && Final(Course()) == now && Over(f, now)
      ensures account.View() == now.st && rows == now.rows && work == []
      ensures ending == EndingOf(now)
      ensures (now.interrupted ==> expired) && (now.writeFailed || Hold(false) in log ==> faulted)
      ensures Promised(Course(), ending)
    {
      hide Replay, Ordered, FateOf, Promised;
      ReplayNothing(f, s0);
      var i := 0;
      while i < |f.txns|
        invariant 0 <= i <= |f.txns| && Valid() && now.next == i && |work| < BATCH_SIZE
      {
        var stop := DeadlinePassed();
        if stop {
          if !interrupted {
            interrupted := true;
            Happen(Deadline);
          }
          break;
        }
        HandleRow(i);
        i := i + 1;
      }
      assert interrupted || i == |f.txns|;
      Flush();
      UnheldExactly(Course());
      EndingPromises(Course());
      if writeFailed {
        ending := HeldBackForErrors;
      } else if interrupted {
        ending := ResumeFrom(resumeFrom);
      } else {
        ending := Synced;
      }
    }
  }
}
