/** state.go: what the importer remembers of one bank account between runs. */
module Records {
  import opened Sums
  import opened Assessing
  import opened Keying

  /** The five tables of one account: open authorisations by key, references by booking day, keys
      awaiting a decision, rows booked with the key they consumed, and content identities by row. */
  datatype Snapshot = Snapshot(
    pending: map<string, string>,
    imported: map<string, string>,
    held: set<string>,
    booked: map<string, string>,
    identities: map<string, string>)
  {
    predicate Consumed(key: string) {
      key != "" && exists row :: row in booked && booked[row] == key
    }

    function WithPending(key: string, row: string, day: string): Snapshot {
      this.(pending := pending[key := row + PIPE + day])
    }

    function WithoutPending(key: string): Snapshot { this.(pending := pending - {key}) }

    function WithReference(ref: string, day: string): Snapshot { this.(imported := imported[ref := day]) }

    /** The key a row consumed is kept against a later empty one. */
    function WithBooked(row: string, key: string): Snapshot {
      if key != "" || row !in booked || booked[row] == "" then this.(booked := booked[row := key]) else this
    }

    function WithIdentity(identity: string, row: string): Snapshot {
      this.(identities := identities[identity := row])
    }
  }

  /** Nothing recorded for recognising a booking is lost. */
  ghost predicate Retained(a: Snapshot, b: Snapshot) {
    a.imported.Keys <= b.imported.Keys && a.identities.Keys <= b.identities.Keys
  }

  // ----- Pending values -----

  function FirstPipe(s: string): (i: nat)
    ensures i <= |s|
  {
    if s == "" || s[0] == '|' then 0 else 1 + FirstPipe(s[1..])
  }

  /** The parts before and after the first separator. */
  function Cut(s: string): (string, string) {
    var i := FirstPipe(s);
    if i < |s| then (s[..i], s[i + 1..]) else (s, "")
  }

  lemma {:induction false} FirstPipeAfter(a: string, b: string)
    ensures Bare(a) ==> FirstPipe(a + PIPE + b) == |a|
    ensures !Bare(a) ==> FirstPipe(a + PIPE + b) < |a|
    decreases |a|
  {
    var s := a + PIPE + b;
    if a != "" {
      FirstPipeAfter(a[1..], b);
      assert s[1..] == a[1..] + PIPE + b;
      BareTail(a);
    }
  }

  lemma BareTail(a: string)
    requires a != ""
    ensures Bare(a) <==> a[0] != '|' && Bare(a[1..])
  {
    var tail := a[1..];
    assert forall i :: 0 <= i < |tail| ==> tail[i] == a[i + 1];
    assert forall i :: 0 < i < |a| ==> a[i] == tail[i - 1];
  }

  /** A pending value reads back as the row and day it was made of exactly if the backend's row
      identifier is free of the separator. */
  lemma PendingValueReadsBack(row: string, day: string)
    ensures Cut(row + PIPE + day) == (row, day) <==> Bare(row)
  {
    var s := row + PIPE + day;
    FirstPipeAfter(row, day);
    assert s[..|row|] == row && s[|row| + 1..] == day;
    if !Bare(row) {
      assert |Cut(s).0| < |row|;
    }
  }

  // ----- One account's records -----

  class Account {
    var pending: map<string, string>
    var imported: map<string, string>
    var held: set<string>
    var booked: map<string, string>
    var identities: map<string, string>

    function View(): Snapshot
      reads this
    {
      Snapshot(pending, imported, held, booked, identities)
    }

    constructor ()
      ensures View() == Snapshot(map[], map[], {}, map[], map[])
    {
      pending, imported, held, booked, identities := map[], map[], {}, map[], map[];
    }

    method SetPending(key: string, row: string, day: string)
      modifies this
      ensures View() == old(View()).WithPending(key, row, day)
    {
      pending := pending[key := row + PIPE + day];
    }

    method DeletePending(key: string)
      modifies this
      ensures View() == old(View()).WithoutPending(key)
    {
      pending := pending - {key};
    }

    /** Some key whose authorisation was written as the row, if there is one. */
    method FindPendingKeyByTxnID(row: string) returns (key: Option<string>)
      ensures key.Some? ==> key.value in pending && Cut(pending[key.value]).0 == row
      ensures key.None? ==> forall k :: k in pending ==> Cut(pending[k]).0 != row
    {
      var todo := pending.Keys;
      while todo != {}
        invariant todo <= pending.Keys
        invariant forall k :: k in pending && k !in todo ==> Cut(pending[k]).0 != row
        decreases todo
      {
        var k :| k in todo;
        if Cut(pending[k]).0 == row {
          return Some(k);
        }
        todo := todo - {k};
      }
      key := None;
    }

    method AddImportedRef(ref: string, day: string)
      modifies this
      ensures View() == old(View()).WithReference(ref, day)
    {
      imported := imported[ref := day];
    }

    method AddHeldKey(key: string)
      modifies this
      ensures View() == old(View()).(held := old(held) + {key})
    {
      held := held + {key};
    }

    method DeleteHeldKey(key: string)
      modifies this
      ensures View() == old(View()).(held := old(held) - {key})
    {
      held := held - {key};
    }

    method RecordBooked(row: string, key: string)
      modifies this
      ensures View() == old(View()).WithBooked(row, key)
    {
      if key != "" || row !in booked || booked[row] == "" {
        booked := booked[row := key];
      }
    }

    method Consumed(key: string) returns (yes: bool)
      ensures yes == View().Consumed(key)
    {
      if key == "" {
        return false;
      }
      var todo := booked.Keys;
      while todo != {}
        invariant todo <= booked.Keys
        invariant forall row :: row in booked && row !in todo ==> booked[row] != key
        decreases todo
      {
        var row :| row in todo;
        if booked[row] == key {
          return true;
        }
        todo := todo - {row};
      }
      yes := false;
    }

    method RecordIdentity(identity: string, row: string)
      modifies this
      ensures View() == old(View()).WithIdentity(identity, row)
    {
      identities := identities[identity := row];
    }

    /** Each identified row with its identities and the latest day any of them carries. */
    method Seals() returns (rows: map<string, Seal>)
      ensures Sealing(rows, identities, identities.Keys)
    {
      rows := map[];
      var todo := identities.Keys;
      assert identities.Keys - todo == {};
      while todo != {}
        invariant todo <= identities.Keys && Sealing(rows, identities, identities.Keys - todo)
        decreases todo
      {
        var identity :| identity in todo;
        SealGrows(rows, identities, identities.Keys - todo, identity);
        assert identities.Keys - todo + {identity} == identities.Keys - (todo - {identity});
        rows := rows[identities[identity] := Extended(rows, identities[identity], identity)];
        todo := todo - {identity};
      }
      assert identities.Keys - todo == identities.Keys;
    }
  }

  /** What a key consumption does to the ones before it: a row forgets the key it consumed earlier
      only for another one, and every other row's stays consumed. */
  lemma ConsumedAfterBooking(st: Snapshot, row: string, key: string, k: string)
    ensures st.WithBooked(row, key).Consumed(k) <==>
            || (k != "" && k == key)
            || (k != "" && exists other :: other in st.booked && st.booked[other] == k && (other != row || key == ""))
  {
    var after := st.WithBooked(row, key);
    if k != "" {
      if k == key {
        assert after.booked[row] == k;
      }
      if exists other :: other in st.booked && st.booked[other] == k && (other != row || key == "") {
        var other :| other in st.booked && st.booked[other] == k && (other != row || key == "");
        assert other in after.booked && after.booked[other] == k;
      }
      if after.Consumed(k) && k != key {
        var other :| other in after.booked && after.booked[other] == k;
        assert other in st.booked && st.booked[other] == k && (other != row || key == "");
      }
    }
  }

  // ----- Sealed rows -----

  datatype Seal = Seal(identities: set<string>, reach: string)

  /** The table holds, for the identities looked at so far, every row's own and its latest day. */
  ghost predicate Sealing(rows: map<string, Seal>, identities: map<string, string>, done: set<string>)
    requires done <= identities.Keys
  {
    && (forall id :: id in done ==> identities[id] in rows)
    && forall row :: row in rows ==> IsSeal(rows[row], identities, done, row)
  }

  ghost predicate IsSeal(r: Seal, identities: map<string, string>, done: set<string>, row: string)
    requires done <= identities.Keys
  {
    && r.identities != {}
    && (forall id :: id in r.identities <==> id in done && identities[id] == row)
    && (forall id :: id in r.identities ==> !LexLess(r.reach, Cut(id).0))
    && (r.reach == "" || exists id :: id in r.identities && Cut(id).0 == r.reach)
  }

  /** The seal of a row once one more identity of it has been looked at. */
  function Extended(rows: map<string, Seal>, row: string, identity: string): Seal {
    var r := if row in rows then rows[row] else Seal({}, "");
    var day := Cut(identity).0;
    Seal(r.identities + {identity}, if LexLess(r.reach, day) then day else r.reach)
  }

  lemma SealGrows(rows: map<string, Seal>, identities: map<string, string>, done: set<string>, identity: string)
    requires done <= identities.Keys && Sealing(rows, identities, done)
    requires identity in identities && identity !in done
    ensures Sealing(rows[identities[identity] := Extended(rows, identities[identity], identity)], identities, done + {identity})
  {
    hide LexLess, Cut;
    var row := identities[identity];
    var r, r' := if row in rows then rows[row] else Seal({}, ""), Extended(rows, row, identity);
    var day := Cut(identity).0;
    assert forall id :: id in r.identities <==> id in done && identities[id] == row;
    LexTotal(r.reach, day);
    forall id | id in r'.identities ensures !LexLess(r'.reach, Cut(id).0) {
      if id in r.identities && LexLess(r.reach, day) {
        NotAbove(Cut(id).0, r.reach, day);
      }
      LexTotal(day, day);
    }
    assert IsSeal(r', identities, done + {identity}, row) by {
      if r'.reach == day {
        assert identity in r'.identities;
      } else if r'.reach != "" {
        var id :| id in r.identities && Cut(id).0 == r.reach;
        assert id in r'.identities;
      }
    }
    forall other | other in rows && other != row ensures IsSeal(rows[other], identities, done + {identity}, other) {
    }
  }

  lemma NotAbove(a: string, b: string, c: string)
    requires !LexLess(b, a) && LexLess(b, c)
    ensures LexLess(a, c) && !LexLess(c, a)
  {
    LexTotal(a, b);
    LexTotal(a, c);
    if a != b {
      LexTransitive(a, b, c);
    }
  }

  /** A row is sealed to an identity: it was booked for other records only, all from before the cutoff. */
  predicate SealedRow(rows: map<string, Seal>, row: string, identity: string, cutoff: string) {
    row in rows && identity !in rows[row].identities && LexLess(rows[row].reach, cutoff)
  }

  lemma SealedExactly(rows: map<string, Seal>, identities: map<string, string>, row: string, identity: string, cutoff: string)
    requires Sealing(rows, identities, identities.Keys)
    ensures SealedRow(rows, row, identity, cutoff) <==>
            && row in identities.Values
            && !(identity in identities && identities[identity] == row)
            && forall id :: id in identities && identities[id] == row ==> LexLess(Cut(id).0, cutoff)
  {
    hide Cut, LexLess;
    if row in identities.Values {
      var id0 :| id0 in identities && identities[id0] == row;
      var r := rows[row];
      assert IsSeal(r, identities, identities.Keys, row);
      if LexLess(r.reach, cutoff) {
        forall id | id in identities && identities[id] == row ensures LexLess(Cut(id).0, cutoff) {
          NotAbove(Cut(id).0, r.reach, cutoff);
        }
      } else if r.reach == "" {
        EmptyFirst(Cut(id0).0);
      }
    }
    if row in rows {
      SealedIsIdentified(rows, identities, row);
    }
  }

  lemma SealedIsIdentified(rows: map<string, Seal>, identities: map<string, string>, row: string)
    requires Sealing(rows, identities, identities.Keys) && row in rows
    ensures row in identities.Values
  {
    assert IsSeal(rows[row], identities, identities.Keys, row);
    var id :| id in rows[row].identities;
    assert identities[id] == row;
  }

  lemma EmptyFirst(a: string)
    ensures !LexLess("", a) ==> a == ""
  {
  }
}
