/** actual/db.go: a batch of sync messages folded into the local budget copy, row by row. */
module Replaying {
  import opened Sums

  datatype Value = Null | Text(text: string) | Number(number: real)

  /** One cell-level change. */
  datatype Message = Message(dataset: string, row: string, column: string, value: string)

  datatype RowKey = RowKey(table: string, id: string)

  type Row = map<string, Value>

  type Database = map<RowKey, Row>

  /** The local tables and their columns, and the reading of numbers, which is not looked into. */
  datatype Local = Local(schema: map<string, set<string>>, number: string -> Option<real>)

  // ----- Names and values -----

  predicate IsIdentifierRune(c: char) {
    'a' <= c <= 'z' || 'A' <= c <= 'Z' || '0' <= c <= '9' || c == '_'
  }

  predicate IsSafeIdentifier(s: string) {
    s != "" && forall c :: c in s ==> IsIdentifierRune(c)
  }

  function DecodeValue(local: Local, s: string): Value {
    if |s| < 2 then Null
    else if s[0] == 'S' then Text(s[2..])
    else if s[0] == 'N' then
      match local.number(s[2..])
      case Some(n) => Number(n)
      case None => Null
    else Null
  }

  function EncodeValue(shown: real -> string, v: Value): string {
    match v
    case Null => "0:"
    case Text(t) => "S:" + t
    case Number(n) => "N:" + shown(n)
  }

  /** A cell is read back as it was written, given that numbers are. */
  lemma ValueRoundTrip(local: Local, shown: real -> string, v: Value)
    requires v.Number? ==> local.number(shown(v.number)) == Some(v.number)
    ensures DecodeValue(local, EncodeValue(shown, v)) == v
  {
    var s := EncodeValue(shown, v);
    match v
    case Null =>
    case Text(t) => assert s[2..] == t;
    case Number(n) => assert s[2..] == shown(n);
  }

  // ----- One message at a time -----

  /** The columns of a message's table that can be written: the table and the column exist locally
      and the column's name is safe to quote. */
  predicate Storable(local: Local, table: string, column: string) {
    table in local.schema && column in local.schema[table] && IsSafeIdentifier(column)
  }

  function RowOf(db: Database, key: RowKey): Row { if key in db then db[key] else map[] }

  /** The last writer wins: the message's cell takes its value, in a row made for it if there was none. */
  function ApplyOne(local: Local, db: Database, m: Message): Database {
    if m.dataset == "prefs" || !Storable(local, m.dataset, m.column) then db
    else
      var key := RowKey(m.dataset, m.row);
      db[key := RowOf(db, key)[m.column := DecodeValue(local, m.value)]]
  }

  function ApplyInOrder(local: Local, db: Database, msgs: seq<Message>): Database {
    if msgs == [] then db
    else ApplyOne(local, ApplyInOrder(local, db, msgs[..|msgs| - 1]), msgs[|msgs| - 1])
  }

  /** The message writes that cell: it is not a preference, and the table and the column exist locally, the
      column under a name of letters, digits and underscores. */
  predicate Writes(local: Local, m: Message, key: RowKey, column: string) {
    && m.dataset != "prefs" && m.dataset == key.table && m.row == key.id && m.column == column
    && key.table in local.schema && column in local.schema[key.table] && column != ""
    && forall i :: 0 <= i < |column| ==>
         'a' <= column[i] <= 'z' || 'A' <= column[i] <= 'Z' || '0' <= column[i] <= '9' || column[i] == '_'
  }

  lemma WritesMeans(local: Local, m: Message, key: RowKey)
    ensures Writes(local, m, key, m.column) <==>
            m.dataset != "prefs" && Storable(local, m.dataset, m.column) && key == RowKey(m.dataset, m.row)
  {
    assert IsSafeIdentifier(m.column) <==> m.column != "" && forall i :: 0 <= i < |m.column| ==> IsIdentifierRune(m.column[i]);
  }

  /** What one message does to one cell and its row. */
  lemma OneWriter(local: Local, db: Database, m: Message, key: RowKey, column: string)
    ensures key in ApplyOne(local, db, m) <==> key in db || Writes(local, m, key, m.column)
    ensures var after := ApplyOne(local, db, m);
            Writes(local, m, key, column) ==>
              key in after && column in after[key] && after[key][column] == DecodeValue(local, m.value)
    ensures var after := ApplyOne(local, db, m);
            !Writes(local, m, key, column) ==>
              && (key in after && column in after[key] <==> key in db && column in db[key])
              && (key in db && column in db[key] ==> after[key][column] == db[key][column])
  {
    hide DecodeValue;
    WritesMeans(local, m, key);
  }

  /** After a batch every cell holds what the last message that writes it gave it. */
  lemma {:induction false} LastWriterWins(local: Local, db: Database, msgs: seq<Message>, i: nat, key: RowKey, column: string)
    requires i < |msgs| && Writes(local, msgs[i], key, column)
    requires forall j :: i < j < |msgs| ==> !Writes(local, msgs[j], key, column)
    ensures var after := ApplyInOrder(local, db, msgs);
            key in after && column in after[key] && after[key][column] == DecodeValue(local, msgs[i].value)
    decreases |msgs|
  {
    hide DecodeValue, Writes, ApplyOne;
    var init, m := msgs[..|msgs| - 1], msgs[|msgs| - 1];
    OneWriter(local, ApplyInOrder(local, db, init), m, key, column);
    if i < |msgs| - 1 {
      LastWriterWins(local, db, init, i, key, column);
    }
  }

  /** A cell that no message of the batch writes holds what it held. */
  lemma {:induction false} NoWriterKeeps(local: Local, db: Database, msgs: seq<Message>, key: RowKey, column: string)
    requires forall j :: 0 <= j < |msgs| ==> !Writes(local, msgs[j], key, column)
    ensures var after := ApplyInOrder(local, db, msgs);
            && (key in after && column in after[key] <==> key in db && column in db[key])
            && (key in db && column in db[key] ==> after[key][column] == db[key][column])
    decreases |msgs|
  {
    hide Writes, ApplyOne;
    if msgs != [] {
      var init, m := msgs[..|msgs| - 1], msgs[|msgs| - 1];
      OneWriter(local, ApplyInOrder(local, db, init), m, key, column);
      NoWriterKeeps(local, db, init, key, column);
    }
  }

  /** A row is there exactly if it was or some message of the batch writes a cell of it. */
  lemma {:induction false} RowsWritten(local: Local, db: Database, msgs: seq<Message>, key: RowKey)
    ensures key in ApplyInOrder(local, db, msgs) <==>
            key in db || exists m, c :: m in msgs && Writes(local, m, key, c)
    decreases |msgs|
  {
    hide ApplyOne;
    if msgs != [] {
      var init, m := msgs[..|msgs| - 1], msgs[|msgs| - 1];
      OneWriter(local, ApplyInOrder(local, db, init), m, key, m.column);
      RowsWritten(local, db, init, key);
    }
  }

  // ----- Grouped by row -----

  function CellsOf(g: map<RowKey, Row>, key: RowKey): Row { if key in g then g[key] else map[] }

  /** The batch by row: the last value each of its columns was given. */
  function Grouped(local: Local, msgs: seq<Message>): map<RowKey, Row> {
    if msgs == [] then map[]
    else
      var g, m := Grouped(local, msgs[..|msgs| - 1]), msgs[|msgs| - 1];
      if m.dataset == "prefs" then g
      else
        var key := RowKey(m.dataset, m.row);
        g[key := CellsOf(g, key)[m.column := DecodeValue(local, m.value)]]
  }

  /** The cells of a row's group that can be stored. */
  function Kept(local: Local, table: string, cells: Row): Row {
    map column | column in cells && Storable(local, table, column) :: cells[column]
  }

  /** The row after one upsert of a group: nothing if no cell of it can be stored. */
  function Upsert(local: Local, db: Database, key: RowKey, cells: Row): Database {
    var kept := Kept(local, key.table, cells);
    if kept == map[] then db else db[key := RowOf(db, key) + kept]
  }

  /** Every group upserted once, in whatever order. */
  function UpsertAll(local: Local, db: Database, g: map<RowKey, Row>): Database {
    map key | key in db.Keys + g.Keys && (key in db || Kept(local, key.table, g[key]) != map[]) ::
      RowOf(db, key) + Kept(local, key.table, CellsOf(g, key))
  }

  lemma KeptNext(local: Local, table: string, cells: Row, column: string, v: Value)
    ensures Kept(local, table, cells[column := v])
         == if Storable(local, table, column) then Kept(local, table, cells)[column := v] else Kept(local, table, cells)
  {
  }

  /** What one row holds after every group was upserted, if it exists at all. */
  function RowAfter(local: Local, db: Database, g: map<RowKey, Row>, key: RowKey): Option<Row> {
    var kept := Kept(local, key.table, CellsOf(g, key));
    if key in db || kept != map[] then Some(RowOf(db, key) + kept) else None
  }

  lemma UpsertAllAt(local: Local, db: Database, g: map<RowKey, Row>, key: RowKey)
    ensures key in UpsertAll(local, db, g) <==> RowAfter(local, db, g, key).Some?
    ensures key in UpsertAll(local, db, g) ==> UpsertAll(local, db, g)[key] == RowAfter(local, db, g, key).value
  {
  }

  /** Adding a cell to a row's group adds it to the row, if it can be stored. */
  lemma RowAfterNext(local: Local, db: Database, g: map<RowKey, Row>, key: RowKey, column: string, v: Value)
    ensures RowAfter(local, db, g[key := CellsOf(g, key)[column := v]], key)
         == if Storable(local, key.table, column)
            then Some((match RowAfter(local, db, g, key) case Some(r) => r case None => map[])[column := v])
            else RowAfter(local, db, g, key)
  {
    hide Storable;
    var kept := Kept(local, key.table, CellsOf(g, key));
    KeptNext(local, key.table, CellsOf(g, key), column, v);
    if Storable(local, key.table, column) {
      assert column in kept[column := v];
      assert RowOf(db, key) + kept[column := v] == (RowOf(db, key) + kept)[column := v];
      if key !in db && kept == map[] {
        assert RowOf(db, key) + kept == map[];
      }
    }
  }

  /** One more message changes the upserted result as it would change the database by itself. */
  lemma UpsertNext(local: Local, db: Database, g: map<RowKey, Row>, m: Message, key: RowKey, g': map<RowKey, Row>)
    requires m.dataset != "prefs" && key == RowKey(m.dataset, m.row)
    requires g' == g[key := CellsOf(g, key)[m.column := DecodeValue(local, m.value)]]
    ensures UpsertAll(local, db, g') == ApplyOne(local, UpsertAll(local, db, g), m)
  {
    hide DecodeValue, Storable, UpsertAll, Kept;
    var was, a := UpsertAll(local, db, g), UpsertAll(local, db, g');
    var b := ApplyOne(local, was, m);
    RowAfterNext(local, db, g, key, m.column, DecodeValue(local, m.value));
    forall k ensures (k in a <==> k in b) && (k in a ==> a[k] == b[k]) {
      UpsertAllAt(local, db, g, k);
      UpsertAllAt(local, db, g', k);
      if k != key {
        assert CellsOf(g', k) == CellsOf(g, k);
      }
    }
  }

  /** Grouping a batch by row and storing each row once leaves the database that applying the
      messages one at a time, in order, would leave. */
  lemma {:induction false} GroupingIsOrderly(local: Local, db: Database, msgs: seq<Message>)
    ensures UpsertAll(local, db, Grouped(local, msgs)) == ApplyInOrder(local, db, msgs)
    decreases |msgs|
  {
    hide ApplyOne, UpsertAll;
    if msgs == [] {
      UpsertNothing(local, db);
    } else {
      var m := msgs[|msgs| - 1];
      GroupingIsOrderly(local, db, msgs[..|msgs| - 1]);
      if m.dataset == "prefs" {
        PrefsIgnored(local, ApplyInOrder(local, db, msgs[..|msgs| - 1]), m);
      } else {
        UpsertNext(local, db, Grouped(local, msgs[..|msgs| - 1]), m, RowKey(m.dataset, m.row), Grouped(local, msgs));
      }
    }
  }

  lemma PrefsIgnored(local: Local, db: Database, m: Message)
    requires m.dataset == "prefs"
    ensures ApplyOne(local, db, m) == db
  {
  }

  lemma UpsertNothing(local: Local, db: Database)
    ensures UpsertAll(local, db, map[]) == db
  {
    assert forall key :: key in db ==> RowOf(db, key) + map[] == db[key];
  }

  // ----- The code -----

  /** Restricted to the rows already seen. */
  function Seen(g: map<RowKey, Row>, keys: seq<RowKey>): map<RowKey, Row> {
    map key | key in g && key in keys :: g[key]
  }

  /** Upserting one more row's group. */
  lemma UpsertSeen(local: Local, db: Database, g: map<RowKey, Row>, keys: seq<RowKey>, key: RowKey)
    requires key in g && key !in keys
    ensures UpsertAll(local, db, Seen(g, keys + [key])) == Upsert(local, UpsertAll(local, db, Seen(g, keys)), key, g[key])
  {
    hide UpsertAll, Kept, Storable;
    var was, a := UpsertAll(local, db, Seen(g, keys)), UpsertAll(local, db, Seen(g, keys + [key]));
    var b := Upsert(local, was, key, g[key]);
    KeptNothing(local, key.table);
    forall k ensures (k in a <==> k in b) && (k in a ==> a[k] == b[k]) {
      UpsertAllAt(local, db, Seen(g, keys), k);
      UpsertAllAt(local, db, Seen(g, keys + [key]), k);
      if k == key {
        assert CellsOf(Seen(g, keys), key) == map[] && CellsOf(Seen(g, keys + [key]), key) == g[key];
        assert RowOf(db, key) + map[] == RowOf(db, key);
        assert RowOf(was, key) == RowOf(db, key);
      } else {
        assert CellsOf(Seen(g, keys + [key]), k) == CellsOf(Seen(g, keys), k);
      }
    }
  }

  lemma KeptNothing(local: Local, table: string)
    ensures Kept(local, table, map[]) == map[]
  {
  }

  /** The columns of a table: a refusal, or none if the table is not there. */
  datatype Columns = Unreadable | Absent | Present(names: set<string>)

  /** How a batch ends. It can fail before anything is stored, or after everything is, when the
      names cached from the database cannot be read again. */
  datatype Ending = Applied | NotApplied | NotReread

  ghost predicate Tracked(order: seq<RowKey>, g: map<RowKey, Row>) {
    && (forall key :: key in order <==> key in g)
    && forall i, j :: 0 <= i < j < |order| ==> order[i] != order[j]
  }

  /** The batch by row, and the rows in the order they first appear. */
  method Group(local: Local, msgs: seq<Message>) returns (g: map<RowKey, Row>, order: seq<RowKey>)
    ensures g == Grouped(local, msgs) && Tracked(order, g)
  {
    g, order := map[], [];
    var i := 0;
    while i < |msgs|
      invariant 0 <= i <= |msgs| && g == Grouped(local, msgs[..i]) && Tracked(order, g)
    {
      hide DecodeValue;
      var m := msgs[i];
      assert msgs[..i + 1][..i] == msgs[..i];
      i := i + 1;
      if m.dataset == "prefs" {
        continue;
      }
      var key := RowKey(m.dataset, m.row);
      if key !in g {
        g := g[key := map[]];
        order := order + [key];
      }
      g := g[key := g[key][m.column := DecodeValue(local, m.value)]];
    }
    assert msgs[..i] == msgs;
  }

  /** Every group is of a table some message names. */
  lemma {:induction false} GroupedTables(local: Local, msgs: seq<Message>)
    ensures forall key :: key in Grouped(local, msgs) ==> exists m :: m in msgs && m.dataset != "prefs" && m.dataset == key.table
    ensures forall m :: m in msgs && m.dataset != "prefs" ==> RowKey(m.dataset, m.row) in Grouped(local, msgs)
    decreases |msgs|
  {
    hide DecodeValue;
    if msgs != [] {
      GroupedTables(local, msgs[..|msgs| - 1]);
      assert msgs == msgs[..|msgs| - 1] + [msgs[|msgs| - 1]];
    }
  }

  function SafeCells(cells: Row): Row { map c | c in cells && IsSafeIdentifier(c) :: cells[c] }

  /** Some message that counts names a table that is not safe to quote. */
  ghost predicate Unsafe(msgs: seq<Message>) {
    exists m :: m in msgs && m.dataset != "prefs" && !IsSafeIdentifier(m.dataset)
  }

  class BudgetCopy {
    const local: Local
    var db: Database
    var changes: seq<Message>
    ghost var faulted: bool

    constructor (local: Local, db: Database)
      ensures this.local == local && this.db == db && changes == [] && !faulted
    {
      this.local, this.db, changes, faulted := local, db, [], false;
    }

    method FlushChanges() returns (drained: seq<Message>)
      modifies this`changes
      ensures drained == old(changes) && changes == []
    {
      drained := changes;
      changes := [];
    }

    /** Undelivered changes go back in front of those made since. */
    method RestoreChanges(ch: seq<Message>)
      modifies this`changes
      ensures changes == ch + old(changes)
    {
      if |ch| == 0 {
        return;
      }
      changes := ch + changes;
    }

    method TableColumns(table: string) returns (cols: Columns)
      modifies this`faulted
      ensures !IsSafeIdentifier(table) ==> cols.Unreadable?
      ensures (old(faulted) ==> faulted) && (cols.Unreadable? ==> faulted || !IsSafeIdentifier(table))
      ensures cols.Absent? ==> table !in local.schema || local.schema[table] == {}
      ensures cols.Present? ==> table in local.schema && cols.names == local.schema[table]
    {
      if !IsSafeIdentifier(table) {
        return Unreadable;
      }
      var fails: bool := *;
      if fails {
        faulted := true;
        return Unreadable;
      }
      if table !in local.schema || local.schema[table] == {} {
        return Absent;
      }
      cols := Present(local.schema[table]);
    }

    /** The upsert of one row: cells of unsafe columns are left out, and with none left nothing is done. */
    method ApplyChange(tx: Database, key: RowKey, cells: Row) returns (r: Option<Database>)
      modifies this`faulted
      ensures (old(faulted) ==> faulted) && (r.None? ==> faulted || !IsSafeIdentifier(key.table))
      ensures r.Some? ==> r.value == if SafeCells(cells) == map[] then tx else tx[key := RowOf(tx, key) + SafeCells(cells)]
    {
      if !IsSafeIdentifier(key.table) {
        return None;
      }
      var updates: Row := map[];
      var todo := cells.Keys;
      while todo != {}
        invariant todo <= cells.Keys
        invariant updates == map c | c in cells && c !in todo && IsSafeIdentifier(c) :: cells[c]
        decreases todo
      {
        hide IsSafeIdentifier;
        var c :| c in todo;
        todo := todo - {c};
        if !IsSafeIdentifier(c) {
          continue;
        }
        updates := updates[c := cells[c]];
      }
      assert updates == SafeCells(cells);
      if updates == map[] {
        return Some(tx);
      }
      var fails: bool := *;
      if fails {
        faulted := true;
        return None;
      }
      r := Some(tx[key := RowOf(tx, key) + updates]);
    }

    /** The cells of a group whose columns the table has. */
    method KeepColumns(cells: Row, cols: set<string>) returns (kept: Row)
      ensures kept == map c | c in cells && c in cols :: cells[c]
    {
      kept := map[];
      var todo := cells.Keys;
      while todo != {}
        invariant todo <= cells.Keys
        invariant kept == map c | c in cells && c !in todo && c in cols :: cells[c]
        decreases todo
      {
        var c :| c in todo;
        todo := todo - {c};
        if c !in cols {
          continue;
        }
        kept := kept[c := cells[c]];
      }
    }

    /** One row of the batch inside the transaction. */
    method ApplyRow(tx: Database, key: RowKey, cells: Row, cols: Columns) returns (r: Option<Database>)
      requires !cols.Unreadable?
      requires cols.Absent? ==> key.table !in local.schema || local.schema[key.table] == {}
      requires cols.Present? ==> key.table in local.schema && cols.names == local.schema[key.table]
      modifies this`faulted
      ensures (old(faulted) ==> faulted) && (r.None? ==> faulted || !IsSafeIdentifier(key.table))
      ensures r.Some? ==> r.value == Upsert(local, tx, key, cells)
    {
      hide IsSafeIdentifier;
      if cols.Absent? {
        assert Kept(local, key.table, cells) == map[];
        return Some(tx);
      }
      var kept := KeepColumns(cells, cols.names);
      assert SafeCells(kept) == Kept(local, key.table, cells);
      if kept == map[] {
        return Some(tx);
      }
      r := ApplyChange(tx, key, kept);
    }

    /** Every group into the transaction, looking each table's columns up once. */
    method Store(g: map<RowKey, Row>, order: seq<RowKey>) returns (r: Option<Database>)
      requires Tracked(order, g)
      modifies this`faulted
      ensures (old(faulted) ==> faulted) && (r.None? ==> faulted || exists k :: k in g && !IsSafeIdentifier(k.table))
      ensures r.Some? ==> r.value == UpsertAll(local, db, g) && forall k :: k in g ==> IsSafeIdentifier(k.table)
    {
      hide UpsertAll, Upsert, IsSafeIdentifier;
      var tx := db;
      var schema: map<string, Columns> := map[];
      UpsertNothing(local, db);
      assert Seen(g, []) == map[];
      var i := 0;
      while i < |order|
        invariant 0 <= i <= |order| && tx == UpsertAll(local, db, Seen(g, order[..i]))
        invariant old(faulted) ==> faulted
        invariant forall t :: t in schema ==> Known(t, schema[t])
        invariant forall k :: k in order[..i] ==> IsSafeIdentifier(k.table)
      {
        var key := order[i];
        if key.table !in schema {
          var cols := TableColumns(key.table);
          if cols.Unreadable? {
            return None;
          }
          schema := schema[key.table := cols];
        }
        var stored := ApplyRow(tx, key, g[key], schema[key.table]);
        if stored.None? {
          return None;
        }
        tx := stored.value;
        UpsertSeen(local, db, g, order[..i], key);
        assert order[..i + 1] == order[..i] + [key];
        i := i + 1;
      }
      assert order[..i] == order && Seen(g, order) == g;
      r := Some(tx);
    }

    /** Folds a batch into the copy: all of it, as if message by message, or nothing. Only an error
        from reading the caches again comes after the batch was stored. */
    method ApplyMessages(msgs: seq<Message>) returns (ending: Ending)
      requires forall m :: m in msgs ==> m.column != "id"
      modifies this`db, this`faulted
      ensures ending.NotApplied? ==> db == old(db)
      ensures !ending.NotApplied? ==> db == ApplyInOrder(local, old(db), msgs)
      ensures Unsafe(msgs) ==> ending.NotApplied?
      ensures (ending.NotApplied? ==> faulted || Unsafe(msgs)) && (ending.NotReread? ==> faulted)
    {
      hide ApplyOne, UpsertAll, Grouped, IsSafeIdentifier;
      if |msgs| == 0 {
        return Applied;
      }
      var g, order := Group(local, msgs);
      GroupedTables(local, msgs);
      GroupingIsOrderly(local, db, msgs);
      var begins: bool := *;
      if !begins {
        faulted := true;
        return NotApplied;
      }
      var tx := Store(g, order);
      if tx.None? {
        return NotApplied;
      }
      var commits: bool := *;
      if !commits {
        faulted := true;
        return NotApplied;
      }
      db := tx.value;
      var rereads: bool := *;
      faulted := faulted || !rereads;
      ending := if rereads then Applied else NotReread;
    }

    /** What the schema cache holds about a table is so. */
    ghost predicate Known(table: string, cols: Columns) {
      && IsSafeIdentifier(table) && !cols.Unreadable?
      && (cols.Absent? ==> table !in local.schema || local.schema[table] == {})
      && (cols.Present? ==> table in local.schema && cols.names == local.schema[table])
    }
  }
}
