/** ReconcileBatch of budget/reconcile.go: a batch of incoming transactions turned into writes
    to the budget, all decided together. */
module Reconciling {
  import opened Sums
  import opened Budget
  import opened KuhnMunkres
  import opened Arrangements
  import opened Padding
  import opened Solving
  import opened Assessing
  import opened Merging

  // ----- The decision -----

  datatype Decision = Adopt(chosen: Candidate) | Review(chosen: Candidate) | Refuse

  /** What leaving a transaction unpaired is worth: the weight at which a pairing would only just be reviewed. */
  function NoMatchWeight(pol: Policy): real
    requires pol.review != 1.0
  {
    pol.lg(pol.review / (1.0 - pol.review))
  }

  function DecideAssigned(pol: Policy, a: Assignment): Decision {
    match a.candidate
    case None => Refuse
    case Some(c) =>
      if c.probability < pol.review then Refuse
      else if c.probability < pol.auto then Review(c)
      else if Less(a.margin, Finite(pol.marginBits)) then Review(c)
      else Adopt(c)
  }

  // ----- Candidates held elsewhere -----

  const WINDOW_BEFORE := 7
  const WINDOW_AFTER := 8

  predicate InWindow(c: Day, target: Day) {
    target - WINDOW_BEFORE <= c < target + WINDOW_AFTER
  }

  /** The authorisations awaiting a decision that a booking may settle. */
  predicate Offered(h: Transaction, f: ImportedFields) {
    h.provisional && !h.cleared && InWindow(h.date, f.date)
  }

  function WithHeld(rows: seq<Transaction>, held: seq<Transaction>, f: ImportedFields): seq<Transaction> {
    if !f.cleared then rows else rows + Filter(held, (h: Transaction) => Offered(h, f))
  }

  /** A booking that settles a held authorisation is written on the authorisation's day, with its notes. */
  function CounterpartFields(f: ImportedFields, authorisation: Transaction): ImportedFields {
    var g := f.(date := authorisation.date);
    if authorisation.notes != "" then g.(notes := authorisation.notes) else g
  }

  // ----- The budget backend -----

  datatype Result<+T> = Ok(value: T) | Failed

  function NewRow(id: string, f: ImportedFields): Transaction {
    Transaction(id, f.date, f.amountCents, f.payeeName, f.notes, f.externalRef, f.importedPayee, f.cleared, false, false)
  }

  /** The rows of one budget account. Every call may fail, and then has changed nothing but the note
      that something did. */
  class Store {
    var rows: map<string, Transaction>
    ghost var faulted: bool

    ghost predicate Valid()
      reads `rows
    {
      forall id :: id in rows ==> rows[id].id == id && !rows[id].provisional
    }

    constructor ()
      ensures Valid() && rows == map[] && !faulted
    {
      rows, faulted := map[], false;
    }

    method FindByExternalRef(ref: string) returns (r: Result<Option<Transaction>>)
      requires Valid()
      modifies this`faulted
      ensures (old(faulted) ==> faulted) && (r.Failed? ==> faulted)
      ensures r.Ok? && r.value.Some? ==> r.value.value.id in rows && rows[r.value.value.id] == r.value.value
                                         && r.value.value.externalRef == ref
      ensures r.Ok? && r.value.None? ==> forall id :: id in rows ==> rows[id].externalRef != ref
    {
      var fails: bool := *;
      if fails {
        faulted := true;
        return Failed;
      }
      var todo := rows.Keys;
      while todo != {}
        invariant todo <= rows.Keys
        invariant forall id :: id in rows && id !in todo ==> rows[id].externalRef != ref
        decreases todo
      {
        var id :| id in todo;
        if rows[id].externalRef == ref {
          return Ok(Some(rows[id]));
        }
        todo := todo - {id};
      }
      r := Ok(None);
    }

    /** The rows dated in [from, to), each once. */
    method List(from: Day, to: Day) returns (r: Result<seq<Transaction>>)
      requires Valid()
      modifies this`faulted
      ensures (old(faulted) ==> faulted) && (r.Failed? ==> faulted)
      ensures r.Ok? ==> DistinctRows(r.value)
      ensures r.Ok? ==> forall t :: t in r.value <==> t.id in rows && rows[t.id] == t && from <= t.date < to
    {
      var fails: bool := *;
      if fails {
        faulted := true;
        return Failed;
      }
      var todo, out := rows.Keys, [];
      while todo != {}
        invariant todo <= rows.Keys && DistinctRows(out)
        invariant forall t :: t in out ==> t.id !in todo
        invariant forall t :: t in out <==> t.id in rows && t.id !in todo && rows[t.id] == t && from <= t.date < to
        decreases todo
      {
        var id :| id in todo;
        todo := todo - {id};
        if from <= rows[id].date < to {
          out := out + [rows[id]];
        }
      }
      r := Ok(out);
    }

    method Create(f: ImportedFields) returns (r: Result<Transaction>)
      requires Valid()
      modifies this
      ensures Valid() && (old(faulted) ==> faulted)
      ensures r.Failed? ==> faulted && rows == old(rows)
      ensures r.Ok? ==> r.value.id !in old(rows) && r.value == NewRow(r.value.id, f)
                        && rows == old(rows)[r.value.id := r.value]
    {
      var fails: bool := *;
      if fails {
        faulted := true;
        return Failed;
      }
      var id := UnusedId(rows.Keys);
      rows := rows[id := NewRow(id, f)];
      r := Ok(rows[id]);
    }

    method Update(t: Transaction, p: Patch) returns (r: Result<Transaction>)
      requires Valid()
      modifies this
      ensures Valid() && (old(faulted) ==> faulted)
      ensures r.Failed? ==> faulted && rows == old(rows)
      ensures r.Ok? ==> t.id in old(rows) && r.value == ApplyPatch(old(rows)[t.id], p)
                        && rows == old(rows)[t.id := r.value]
    {
      var fails: bool := *;
      if fails || t.id !in rows {
        faulted := true;
        return Failed;
      }
      rows := rows[t.id := ApplyPatch(rows[t.id], p)];
      r := Ok(rows[t.id]);
    }
  }

  method UnusedId(ids: set<string>) returns (id: string)
    ensures id !in ids
  {
    var todo := ids;
    var longest: nat := 0;
    while todo != {}
      invariant todo <= ids
      invariant forall x :: x in ids && x !in todo ==> |x| <= longest
      decreases todo
    {
      var x :| x in todo;
      todo := todo - {x};
      if |x| > longest {
        longest := |x|;
      }
    }
    id := seq(longest + 1, _ => 'x');
    assert |id| == longest + 1;
  }

  /** Writes the import onto a row that has been chosen; t is the row as it was listed. */
  method ApplyImported(s: Store, t: Transaction, f: ImportedFields, pol: Policy) returns (r: Result<Transaction>)
    requires s.Valid() && t.id in s.rows && s.rows[t.id] == t
    modifies s
    ensures s.Valid() && (old(s.faulted) ==> s.faulted)
    ensures r.Failed? ==> s.faulted && s.rows == old(s.rows)
    ensures r.Ok? ==> r.value == Merged(pol, t, f) && s.rows == old(s.rows)[t.id := r.value]
  {
    var p := ImportPatch(pol, t, f);
    if p.IsEmpty() {
      return Ok(t);
    }
    r := s.Update(t, p);
  }

  // ----- Outcomes -----

  datatype Outcome = Outcome(
    transaction: Option<Transaction>,
    created: bool,
    held: seq<Candidate>,
    best: Option<Candidate>,
    unchosen: seq<Comparison>,
    margin: Extended,
    interchangeable: nat,
    counterpart: Option<Transaction>)
  {
    /** Something happened to this transaction; a batch cut short leaves the zero outcome. */
    predicate Done() { transaction.Some? || |held| > 0 }
  }

  const UNTOUCHED := Outcome(None, false, [], None, [], Finite(0.0), 0, None)

  /** What a created outcome wrote: the incoming fields, or those of the authorisation it settles. */
  function Written(f: ImportedFields, o: Outcome): ImportedFields {
    if o.counterpart.Some? then CounterpartFields(f, o.counterpart.value) else f
  }

  /** Outcome i and the budget agree: it wrote its own row and that row only. */
  ghost predicate Wrote(was: map<string, Transaction>, now: map<string, Transaction>, f: ImportedFields, o: Outcome, pol: Policy)
    requires o.transaction.Some?
  {
    var t := o.transaction.value;
    && t.id in now && now[t.id] == t
    && (if o.created then t.id !in was && t == NewRow(t.id, Written(f, o))
        else t.id in was && t == Merged(pol, was[t.id], f))
  }

  /** Row id is the row of outcome i. */
  predicate IsRowOf(out: seq<Outcome>, i: int, id: string) {
    0 <= i < |out| && out[i].transaction.Some? && out[i].transaction.value.id == id
  }

  /** No two outcomes share a row. */
  ghost predicate OwnRows(out: seq<Outcome>) {
    forall i, j :: 0 <= i < j < |out| && out[i].transaction.Some? && out[j].transaction.Some? ==>
      out[i].transaction.value.id != out[j].transaction.value.id
  }

  /** The exact effect of a batch: every outcome with a row wrote that row as the rules say, no
      two outcomes share one, every other row is as it was, and none is gone or unaccounted for. */
  ghost predicate Effects(was: map<string, Transaction>, now: map<string, Transaction>,
                          fs: seq<ImportedFields>, out: seq<Outcome>, pol: Policy)
  {
    && |out| == |fs|
    && (forall i :: 0 <= i < |out| && out[i].transaction.Some? ==> Wrote(was, now, fs[i], out[i], pol))
    && OwnRows(out)
    && (forall id {:trigger Accounted(was, now, out, id)} :: Accounted(was, now, out, id))
  }

  /** Row id survived, and whatever became of it is some outcome's doing. */
  ghost predicate Accounted(was: map<string, Transaction>, now: map<string, Transaction>, out: seq<Outcome>, id: string) {
    && (id in was ==> id in now && (now[id] == was[id] || exists i :: IsRowOf(out, i, id)))
    && (id in now && id !in was ==> exists i :: IsRowOf(out, i, id) && out[i].created)
  }

  lemma AccountedStep(was: map<string, Transaction>, now: map<string, Transaction>, out: seq<Outcome>, i: nat, o: Outcome, id: string)
    requires Accounted(was, now, out, id) && i < |out| && out[i].transaction.None? && o.transaction.Some?
    requires o.created || o.transaction.value.id in was
    ensures Accounted(was, now[o.transaction.value.id := o.transaction.value], out[i := o], id)
  {
    var out' := out[i := o];
    assert IsRowOf(out', i, o.transaction.value.id);
    if j :| IsRowOf(out, j, id) {
      assert j != i && IsRowOf(out', j, id) && out'[j] == out[j];
    }
    if id in now && id !in was && id != o.transaction.value.id {
      var j :| IsRowOf(out, j, id) && out[j].created;
      assert IsRowOf(out', j, id) && out'[j].created;
    }
  }

  /** One more outcome, on a row no earlier outcome has. */
  lemma EffectsStep(was: map<string, Transaction>, now: map<string, Transaction>, now': map<string, Transaction>,
                    fs: seq<ImportedFields>, out: seq<Outcome>, i: nat, o: Outcome, pol: Policy)
    requires Effects(was, now, fs, out, pol) && i < |fs| && out[i].transaction.None?
    requires o.transaction.Some? && Wrote(was, now', fs[i], o, pol)
    requires forall j :: 0 <= j < |out| ==> !IsRowOf(out, j, o.transaction.value.id)
    requires now' == now[o.transaction.value.id := o.transaction.value]
    requires o.created ==> o.transaction.value.id !in now
    ensures Effects(was, now', fs, out[i := o], pol)
  {
    var out', id0 := out[i := o], o.transaction.value.id;
    forall j | 0 <= j < |out'| && out'[j].transaction.Some? ensures Wrote(was, now', fs[j], out'[j], pol) {
      if j != i {
        assert Wrote(was, now, fs[j], out[j], pol);
        assert !IsRowOf(out, j, id0);
      }
    }
    forall id ensures Accounted(was, now', out', id) {
      assert Accounted(was, now, out, id);
      AccountedStep(was, now, out, i, o, id);
    }
    forall j, k | 0 <= j < k < |out'| && out'[j].transaction.Some? && out'[k].transaction.Some?
      ensures out'[j].transaction.value.id != out'[k].transaction.value.id
    {
      assert !IsRowOf(out, j, id0) && !IsRowOf(out, k, id0);
    }
  }

  // ----- References first -----

  /** No two incoming transactions carry the same bank reference. */
  ghost predicate DistinctRefs(fs: seq<ImportedFields>) {
    forall i, j :: 0 <= i < j < |fs| && fs[i].externalRef != "" ==> fs[i].externalRef != fs[j].externalRef
  }

  ghost function Ids(ts: seq<Transaction>): set<string> {
    set t | t in ts :: t.id
  }

  /** Where the first n transactions stand once references have been looked up: settled ones are
      off the table, the rest wait for the arrangement, in order. */
  ghost predicate RefsSettled(now: map<string, Transaction>, fs: seq<ImportedFields>, out: seq<Outcome>,
                              taken: seq<Transaction>, model: seq<nat>, n: nat)
  {
    && n <= |fs| == |out|
    && (forall k :: 0 <= k < |model| ==> model[k] < n && out[model[k]] == UNTOUCHED)
    && (forall a, b :: 0 <= a < b < |model| ==> model[a] < model[b])
    && (forall i :: 0 <= i < n && i !in model ==> SettledByRef(now, fs[i], out[i], taken))
    && (forall i :: n <= i < |fs| ==> out[i] == UNTOUCHED)
  }

  ghost predicate SettledByRef(now: map<string, Transaction>, f: ImportedFields, o: Outcome, taken: seq<Transaction>) {
    && o.transaction.Some? && o == UNTOUCHED.(transaction := o.transaction)
    && o.transaction.value in taken && o.transaction.value.id in now
    && f.externalRef != "" && now[o.transaction.value.id].externalRef == f.externalRef
  }

  /** Some row carries the reference; no row carries an empty one. */
  ghost predicate Carried(rows: map<string, Transaction>, ref: string) {
    ref != "" && exists id :: id in rows && rows[id].externalRef == ref
  }

  /** The rows references settled. */
  ghost function SettledIds(out: seq<Outcome>, model: seq<nat>): set<string> {
    set i | 0 <= i < |out| && i !in model && out[i].transaction.Some? :: out[i].transaction.value.id
  }

  /** Rows may have been merged into, but none has come, gone or changed its reference. */
  ghost predicate SameRefs(was: map<string, Transaction>, now: map<string, Transaction>) {
    was.Keys == now.Keys && forall id :: id in was ==> now[id].externalRef == was[id].externalRef
  }

  /** Of the first n transactions, those left to the arrangement are the ones whose reference no row
      carries, and what is taken is what was claimed before and what the others settled. */
  ghost predicate LookedUp(was: map<string, Transaction>, now: map<string, Transaction>, fs: seq<ImportedFields>, out: seq<Outcome>,
                           claimed: seq<Transaction>, taken: seq<Transaction>, model: seq<nat>, n: nat)
  {
    && n <= |fs| == |out| && SameRefs(was, now)
    && (forall i :: 0 <= i < n ==> (i in model <==> !Carried(was, fs[i].externalRef)))
    && Ids(taken) == Ids(claimed) + SettledIds(out, model)
  }

  /** Before the first reference is looked up. */
  lemma NothingSettled(was: map<string, Transaction>, fs: seq<ImportedFields>, claimed: seq<Transaction>, pol: Policy)
    ensures LookedUp(was, was, fs, seq(|fs|, _ => UNTOUCHED), claimed, claimed, [], 0)
    ensures Effects(was, was, fs, seq(|fs|, _ => UNTOUCHED), pol)
    ensures RefsSettled(was, fs, seq(|fs|, _ => UNTOUCHED), claimed, [], 0)
  {
  }

  lemma CarriedStill(was: map<string, Transaction>, now: map<string, Transaction>, ref: string)
    requires SameRefs(was, now)
    ensures Carried(was, ref) <==> Carried(now, ref)
  {
    if id :| id in was && was[id].externalRef == ref {
      assert now[id].externalRef == ref;
    }
    if id :| id in now && now[id].externalRef == ref {
      assert was[id].externalRef == ref;
    }
  }

  /** Transaction n and the row its reference names. */
  lemma SettledIdsGrow(out: seq<Outcome>, model: seq<nat>, n: nat, t: Transaction)
    requires n < |out| && n !in model && out[n] == UNTOUCHED
    ensures SettledIds(out[n := UNTOUCHED.(transaction := Some(t))], model) == SettledIds(out, model) + {t.id}
  {
    var out' := out[n := UNTOUCHED.(transaction := Some(t))];
    assert out'[n].transaction.value.id == t.id;
    forall id | id in SettledIds(out, model) ensures id in SettledIds(out', model) {
      var i :| 0 <= i < |out| && i !in model && out[i].transaction.Some? && out[i].transaction.value.id == id;
      assert out'[i] == out[i];
    }
  }

  lemma LookedUpMissing(was: map<string, Transaction>, now: map<string, Transaction>, fs: seq<ImportedFields>, out: seq<Outcome>,
                        claimed: seq<Transaction>, taken: seq<Transaction>, model: seq<nat>, n: nat)
    requires LookedUp(was, now, fs, out, claimed, taken, model, n) && RefsSettled(now, fs, out, taken, model, n)
    requires n < |fs| && !Carried(now, fs[n].externalRef)
    ensures LookedUp(was, now, fs, out, claimed, taken, model + [n], n + 1)
  {
    assert out[n] == UNTOUCHED;
    assert forall i :: 0 <= i < |fs| ==> (i in model + [n] <==> i in model || i == n);
    assert SettledIds(out, model + [n]) == SettledIds(out, model);
    CarriedStill(was, now, fs[n].externalRef);
  }

  lemma LookedUpFound(was: map<string, Transaction>, before: map<string, Transaction>, now: map<string, Transaction>,
                      fs: seq<ImportedFields>, out: seq<Outcome>, claimed: seq<Transaction>, taken: seq<Transaction>,
                      model: seq<nat>, n: nat, t: Transaction)
    requires LookedUp(was, before, fs, out, claimed, taken, model, n) && RefsSettled(before, fs, out, taken, model, n)
    requires n < |fs| && fs[n].externalRef != "" && t.id in before && before[t.id].externalRef == fs[n].externalRef
    requires now == before[t.id := t] && t.externalRef == fs[n].externalRef
    ensures LookedUp(was, now, fs, out[n := UNTOUCHED.(transaction := Some(t))], claimed, taken + [t], model, n + 1)
  {
    hide SettledByRef, SettledIds;
    assert n !in model;
    assert was[t.id].externalRef == fs[n].externalRef;
    assert Ids(taken + [t]) == Ids(taken) + {t.id};
    SettledIdsGrow(out, model, n, t);
    assert Carried(was, fs[n].externalRef);
  }

  method LookUp(s: Store, ref: string) returns (r: Result<Option<Transaction>>)
    requires s.Valid()
    modifies s`faulted
    ensures (old(s.faulted) ==> s.faulted) && (r.Failed? ==> s.faulted)
    ensures r.Ok? && r.value.Some? ==> ref != "" && r.value.value.externalRef == ref
                                       && r.value.value.id in s.rows && s.rows[r.value.value.id] == r.value.value
    ensures r.Ok? && r.value.None? ==> !Carried(s.rows, ref)
  {
    if ref == "" {
      return Ok(None);
    }
    r := s.FindByExternalRef(ref);
  }

  lemma RefsSkip(now: map<string, Transaction>, fs: seq<ImportedFields>, out: seq<Outcome>,
                 taken: seq<Transaction>, model: seq<nat>, i: nat)
    requires RefsSettled(now, fs, out, taken, model, i) && i < |fs|
    ensures RefsSettled(now, fs, out, taken, model + [i], i + 1)
  {
    forall j | 0 <= j < i + 1 && j !in model + [i] ensures SettledByRef(now, fs[j], out[j], taken) {
      assert j in model ==> j in model + [i];
    }
  }

  /** Settles transaction i onto the row t its reference names. */
  method SettleOne(s: Store, fs: seq<ImportedFields>, ghost out: seq<Outcome>, ghost taken: seq<Transaction>,
                   ghost model: seq<nat>, i: nat, t: Transaction, pol: Policy, ghost was: map<string, Transaction>)
    returns (r: Result<Transaction>)
    requires s.Valid() && DistinctRefs(fs) && i < |fs| && s.rows.Keys == was.Keys
    requires Effects(was, s.rows, fs, out, pol) && RefsSettled(s.rows, fs, out, taken, model, i)
    requires fs[i].externalRef != "" && t.externalRef == fs[i].externalRef && t.id in s.rows && s.rows[t.id] == t
    modifies s
    ensures s.Valid() && s.rows.Keys == was.Keys && (old(s.faulted) ==> s.faulted)
    ensures r.Failed? ==> s.faulted && s.rows == old(s.rows)
    ensures r.Ok? ==> r.value.id == t.id && r.value.externalRef == t.externalRef && s.rows == old(s.rows)[t.id := r.value]
    ensures r.Ok? ==> var out' := out[i := UNTOUCHED.(transaction := Some(r.value))];
              Effects(was, s.rows, fs, out', pol) && RefsSettled(s.rows, fs, out', taken + [r.value], model, i + 1)
  {
    ghost var before := s.rows;
    RefRowUnused(was, s.rows, fs, out, taken, model, i, t, pol);
    r := ApplyImported(s, t, fs[i], pol);
    if r.Ok? {
      ghost var o := UNTOUCHED.(transaction := Some(r.value));
      EffectsStep(was, before, s.rows, fs, out, i, o, pol);
      RefsStep(before, s.rows, fs, out, taken, model, i, o);
    }
  }

  /** Settles every transaction whose bank reference names a row. */
  method SettleByReference(s: Store, fs: seq<ImportedFields>, claimed: seq<Transaction>, pol: Policy)
    returns (ok: bool, out: seq<Outcome>, taken: seq<Transaction>, model: seq<nat>)
    requires s.Valid() && DistinctRefs(fs)
    modifies s
    ensures s.Valid() && Effects(old(s.rows), s.rows, fs, out, pol)
    ensures s.rows.Keys == old(s.rows).Keys
    ensures ok ==> RefsSettled(s.rows, fs, out, taken, model, |fs|)
    ensures ok ==> LookedUp(old(s.rows), s.rows, fs, out, claimed, taken, model, |fs|)
    ensures (old(s.faulted) ==> s.faulted) && (!ok ==> s.faulted)
  {
    hide Effects, RefsSettled, LookedUp, Carried, DistinctRefs;
    ghost var was := s.rows;
    out, taken, model := seq(|fs|, _ => UNTOUCHED), claimed, [];
    NothingSettled(was, fs, claimed, pol);
    var i := 0;
    while i < |fs|
      invariant i <= |fs| == |out| && s.Valid() && s.rows.Keys == was.Keys && (old(s.faulted) ==> s.faulted)
      invariant Effects(was, s.rows, fs, out, pol)
      invariant RefsSettled(s.rows, fs, out, taken, model, i)
      invariant LookedUp(was, s.rows, fs, out, claimed, taken, model, i)
    {
      ghost var before := s.rows;
      var found := LookUp(s, fs[i].externalRef);
      if found.Failed? {
        return false, out, taken, model;
      }
      if found.value.None? {
        RefsSkip(s.rows, fs, out, taken, model, i);
        LookedUpMissing(was, s.rows, fs, out, claimed, taken, model, i);
        model := model + [i];
      } else {
        var settled := SettleOne(s, fs, out, taken, model, i, found.value.value, pol, was);
        if settled.Failed? {
          return false, out, taken, model;
        }
        LookedUpFound(was, before, s.rows, fs, out, claimed, taken, model, i, settled.value);
        out, taken := out[i := UNTOUCHED.(transaction := Some(settled.value))], taken + [settled.value];
      }
      i := i + 1;
    }
    ok := true;
  }

  lemma RefsStep(before: map<string, Transaction>, now: map<string, Transaction>, fs: seq<ImportedFields>, out: seq<Outcome>,
                 taken: seq<Transaction>, model: seq<nat>, i: nat, o: Outcome)
    requires RefsSettled(before, fs, out, taken, model, i) && i < |fs|
    requires o.transaction.Some? && o == UNTOUCHED.(transaction := o.transaction)
    requires forall j :: 0 <= j < |out| ==> !IsRowOf(out, j, o.transaction.value.id)
    requires now == before[o.transaction.value.id := o.transaction.value]
    requires fs[i].externalRef != "" && o.transaction.value.externalRef == fs[i].externalRef
    ensures RefsSettled(now, fs, out[i := o], taken + [o.transaction.value], model, i + 1)
  {
    forall j | 0 <= j < i + 1 && j !in model
      ensures SettledByRef(now, fs[j], out[i := o][j], taken + [o.transaction.value])
    {
      if j < i {
        assert SettledByRef(before, fs[j], out[j], taken);
        assert !IsRowOf(out, j, o.transaction.value.id);
      }
    }
  }

  /** The row a reference names is nobody's yet: the rows settled so far carry other references. */
  lemma RefRowUnused(was: map<string, Transaction>, now: map<string, Transaction>, fs: seq<ImportedFields>, out: seq<Outcome>,
                     taken: seq<Transaction>, model: seq<nat>, i: nat, t: Transaction, pol: Policy)
    requires Effects(was, now, fs, out, pol) && RefsSettled(now, fs, out, taken, model, i) && i < |fs|
    requires DistinctRefs(fs) && now.Keys == was.Keys
    requires t.id in now && now[t.id] == t && fs[i].externalRef != "" && t.externalRef == fs[i].externalRef
    ensures forall j :: 0 <= j < |out| ==> !IsRowOf(out, j, t.id)
    ensures was[t.id] == t
  {
    forall j | 0 <= j < |out| ensures !IsRowOf(out, j, t.id) {
      if j < i && j !in model {
        assert SettledByRef(now, fs[j], out[j], taken);
      } else if j in model {
        var k :| 0 <= k < |model| && model[k] == j;
      }
    }
    assert Accounted(was, now, out, t.id);
  }

  // ----- Then the evidence -----

  /** What the batch is offered besides its own window: authorisations held for a decision. */
  ghost predicate HeldApart(held: seq<Transaction>, rows: map<string, Transaction>) {
    && DistinctRows(held)
    && forall h :: h in held ==> h.provisional && h.id !in rows
  }

  /** listed holds the live rows of the window around f, each once. */
  ghost predicate Listing(live: map<string, Transaction>, f: ImportedFields, listed: seq<Transaction>) {
    && DistinctRows(listed)
    && forall t :: t in listed <==> t.id in live && live[t.id] == t && InWindow(t.date, f.date)
  }

  /** Every candidate is either a live row nobody has claimed, as it stands, or a held authorisation. */
  ghost predicate Offerable(rows: map<string, Transaction>, held: seq<Transaction>, taken: set<string>, row: seq<Candidate>) {
    && DistinctIds(row)
    && forall c :: c in row ==>
         && c.Id() !in taken
         && (if c.transaction.provisional then c.transaction in held else c.Id() in rows && rows[c.Id()] == c.transaction)
  }

  lemma AssessmentOfferable(rows: map<string, Transaction>, held: seq<Transaction>, f: ImportedFields,
                            taken: set<string>, pol: Policy, listed: seq<Transaction>)
    requires HeldApart(held, rows) && forall id :: id in rows ==> !rows[id].provisional
    requires Listing(rows, f, listed)
    ensures Offerable(rows, held, taken, Assessed(pol, WithHeld(listed, held, f), f, taken))
  {
    var extra := Filter(held, (h: Transaction) => Offered(h, f));
    FilterDistinct(held, (h: Transaction) => Offered(h, f));
    forall t | t in extra ensures t in held {
      FilterIn(held, (h: Transaction) => Offered(h, f), t);
    }
    assert DistinctRows(listed + extra) by {
      forall i, j | 0 <= i < |listed| && 0 <= j < |extra| ensures listed[i].id != extra[j].id {
        assert listed[i] in listed && extra[j] in extra;
      }
    }
    var all := WithHeld(listed, held, f);
    AssessedDistinct(pol, all, f, taken);
    AssessedExactly(pol, all, f, taken);
    forall c | c in Assessed(pol, all, f, taken)
      ensures c.transaction in all && Eligible(pol, c.transaction, f, taken)
    {
    }
  }

  /** Row k is the assessment of a faithful listing of transaction model[k]'s window. */
  ghost predicate AllAssessed(live: map<string, Transaction>, held: seq<Transaction>, fs: seq<ImportedFields>, model: seq<nat>,
                              taken: set<string>, pol: Policy, windows: seq<seq<Transaction>>, rows: Rows)
  {
    && |windows| == |rows| <= |model| && Below(model, |fs|)
    && (forall k :: 0 <= k < |windows| ==> Listing(live, fs[model[k]], windows[k]))
    && (forall k :: 0 <= k < |windows| ==>
          rows[k] == Assessed(pol, WithHeld(windows[k], held, fs[model[k]]), fs[model[k]], taken))
  }

  lemma AllAssessedSnoc(live: map<string, Transaction>, held: seq<Transaction>, fs: seq<ImportedFields>, model: seq<nat>,
                        taken: set<string>, pol: Policy, windows: seq<seq<Transaction>>, rows: Rows, window: seq<Transaction>, row: seq<Candidate>)
    requires AllAssessed(live, held, fs, model, taken, pol, windows, rows) && |rows| < |model|
    requires var f := fs[model[|rows|]];
             Listing(live, f, window) && row == Assessed(pol, WithHeld(window, held, f), f, taken)
    ensures AllAssessed(live, held, fs, model, taken, pol, windows + [window], rows + [row])
  {
    hide Listing, Assessed, WithHeld;
  }

  /** Reads and weighs the window of one transaction. */
  method AssessOne(s: Store, f: ImportedFields, taken: seq<Transaction>, held: seq<Transaction>, pol: Policy)
    returns (r: Result<seq<Candidate>>, ghost window: seq<Transaction>)
    requires s.Valid() && HeldApart(held, s.rows)
    modifies s`faulted
    ensures (old(s.faulted) ==> s.faulted) && (r.Failed? ==> s.faulted)
    ensures r.Ok? ==> Listing(s.rows, f, window) && r.value == Assessed(pol, WithHeld(window, held, f), f, Ids(taken))
  {
    var listed := s.List(f.date - WINDOW_BEFORE, f.date + WINDOW_AFTER);
    if listed.Failed? {
      return Failed, [];
    }
    window := listed.value;
    var row := Assess(WithHeld(listed.value, held, f), f, taken, pol);
    r := Ok(row);
  }

  /** Reads and weighs the window of every transaction left to the arrangement. */
  method AssessAll(s: Store, fs: seq<ImportedFields>, model: seq<nat>, taken: seq<Transaction>, held: seq<Transaction>, pol: Policy)
    returns (ok: bool, rows: Rows, ghost windows: seq<seq<Transaction>>)
    requires s.Valid() && HeldApart(held, s.rows) && Below(model, |fs|)
    modifies s`faulted
    ensures (old(s.faulted) ==> s.faulted) && (!ok ==> s.faulted)
    ensures ok ==> |rows| == |model| && AllAssessed(s.rows, held, fs, model, Ids(taken), pol, windows, rows)
  {
    rows, windows := [], [];
    while |rows| < |model|
      invariant AllAssessed(s.rows, held, fs, model, Ids(taken), pol, windows, rows) && (old(s.faulted) ==> s.faulted)
      decreases |model| - |rows|
    {
      var r, window := AssessOne(s, fs[model[|rows|]], taken, held, pol);
      if r.Failed? {
        return false, rows, windows;
      }
      AllAssessedSnoc(s.rows, held, fs, model, Ids(taken), pol, windows, rows, window, r.value);
      rows, windows := rows + [r.value], windows + [window];
    }
    ok := true;
  }

  // ----- Then the writes -----

  function Unchosen(row: seq<Candidate>, chosenId: string): seq<Comparison> {
    Apply(Filter(row, (c: Candidate) => c.Id() != chosenId), (c: Candidate) => c.comparison)
  }

  /** The outcome says what the decision on this assignment calls for. */
  ghost predicate Accords(pol: Policy, a: Assignment, row: seq<Candidate>, o: Outcome) {
    && o.margin == a.margin
    && o.best == (if row == [] then None else Some(row[0]))
    && match DecideAssigned(pol, a)
       case Adopt(c) =>
         && o.transaction.Some? && o.held == [] && o.unchosen == Unchosen(row, c.Id()) && o.interchangeable == a.interchangeable
         && (if c.transaction.provisional then o.created && o.counterpart == Some(c.transaction)
             else !o.created && o.counterpart == None && o.transaction.value.id == c.Id())
       case Review(c) =>
         if pol.holdForReview
         then o.transaction.None? && !o.created && o.held == row && o.unchosen == Unchosen(row, "")
              && o.interchangeable == a.interchangeable && o.counterpart == None
         else PlainlyCreated(row, o)
       case Refuse => PlainlyCreated(row, o)
  }

  ghost predicate PlainlyCreated(row: seq<Candidate>, o: Outcome) {
    && o.transaction.Some? && o.created && o.held == [] && o.counterpart == None
    && o.unchosen == Unchosen(row, "") && o.interchangeable == 0
  }

  /** The live rows on offer to the arrangement are still exactly as the batch found them. */
  ghost predicate Faithful(was: map<string, Transaction>, rows: Rows) {
    forall k, c :: 0 <= k < |rows| && c in rows[k] && !c.transaction.provisional ==>
      c.Id() in was && was[c.Id()] == c.transaction
  }

  /** The first n transactions of the arrangement are decided as it calls for, the others not yet;
      everything outside it was settled by reference. */
  ghost predicate Decided(size: nat, out: seq<Outcome>, model: seq<nat>, rows: Rows, asg: seq<Assignment>,
                          taken: set<string>, n: nat, pol: Policy)
  {
    && |out| == size
    && |model| == |rows| == |asg| && n <= |model|
    && (forall k :: 0 <= k < |model| ==> model[k] < size)
    && (forall a, b :: 0 <= a < b < |model| ==> model[a] < model[b])
    && (forall k :: 0 <= k < n ==> Accords(pol, asg[k], rows[k], out[model[k]]))
    && (forall k :: n <= k < |model| ==> out[model[k]] == UNTOUCHED)
    && (forall i :: 0 <= i < |out| && i !in model ==> out[i].transaction.Some? && !out[i].created && out[i].transaction.value.id in taken)
  }

  lemma DecidedStep(size: nat, out: seq<Outcome>, model: seq<nat>, rows: Rows, asg: seq<Assignment>,
                    taken: set<string>, k: nat, pol: Policy, o: Outcome)
    requires Decided(size, out, model, rows, asg, taken, k, pol) && k < |model|
    requires Accords(pol, asg[k], rows[k], o)
    ensures Decided(size, out[model[k] := o], model, rows, asg, taken, k + 1, pol)
  {
    var out' := out[model[k] := o];
    forall t | 0 <= t < k + 1 ensures Accords(pol, asg[t], rows[t], out'[model[t]]) {
      if t < k {
        assert model[t] < model[k];
      }
    }
  }

  /** Where the placing of the arrangement stands after its first n transactions. */
  ghost predicate PlacedSoFar(was: map<string, Transaction>, now: map<string, Transaction>, fs: seq<ImportedFields>,
                              out: seq<Outcome>, model: seq<nat>, rows: Rows, asg: seq<Assignment>, taken: set<string>, n: nat, pol: Policy)
  {
    Effects(was, now, fs, out, pol) && Decided(|fs|, out, model, rows, asg, taken, n, pol)
  }

  /** The row the arrangement gives transaction k is nobody else's. */
  lemma ArrangedRowUnused(was: map<string, Transaction>, now: map<string, Transaction>, fs: seq<ImportedFields>, out: seq<Outcome>,
                          model: seq<nat>, rows: Rows, asg: seq<Assignment>, taken: set<string>, k: nat, pol: Policy, noMatch: real)
    requires PlacedSoFar(was, now, fs, out, model, rows, asg, taken, k, pol) && k < |model|
    requires Solved(rows, noMatch, asg) && Faithful(was, rows)
    requires DecideAssigned(pol, asg[k]).Adopt?
    requires var c := DecideAssigned(pol, asg[k]).chosen; !c.transaction.provisional && c.Id() !in taken
    ensures var c := DecideAssigned(pol, asg[k]).chosen;
            && (forall j :: 0 <= j < |out| ==> !IsRowOf(out, j, c.Id()))
            && c.Id() in now && now[c.Id()] == was[c.Id()] == c.transaction
  {
    var c := DecideAssigned(pol, asg[k]).chosen;
    var p := Chosen(asg);
    assert p[k] == Some(c) && c in rows[k];
    forall j | 0 <= j < |out| ensures !IsRowOf(out, j, c.Id()) {
      if j in model {
        var t :| 0 <= t < |model| && model[t] == j;
        if t < k && out[j].transaction.Some? {
          AdoptedElsewhere(was, now, fs, out, rows, asg, t, k, j, pol, noMatch);
        }
      }
    }
    assert Accounted(was, now, out, c.Id());
  }

  lemma AdoptedElsewhere(was: map<string, Transaction>, now: map<string, Transaction>, fs: seq<ImportedFields>, out: seq<Outcome>,
                         rows: Rows, asg: seq<Assignment>, t: nat, k: nat, j: nat, pol: Policy, noMatch: real)
    requires Solved(rows, noMatch, asg) && t < |rows| && k < |rows| && t != k && j < |out| == |fs|
    requires DecideAssigned(pol, asg[k]).Adopt? && DecideAssigned(pol, asg[k]).chosen.Id() in was
    requires Accords(pol, asg[t], rows[t], out[j])
    requires out[j].transaction.Some? && Wrote(was, now, fs[j], out[j], pol)
    ensures out[j].transaction.value.id != DecideAssigned(pol, asg[k]).chosen.Id()
  {
    var p := Chosen(asg);
    assert p[k] == Some(DecideAssigned(pol, asg[k]).chosen);
    if !out[j].created {
      var d := DecideAssigned(pol, asg[t]).chosen;
      assert p[t] == Some(d);
      assert Valid(rows, {}, p);
    }
  }

  /** Writes what was decided for one transaction, or holds it for a person. */
  method PlaceOne(s: Store, f: ImportedFields, a: Assignment, row: seq<Candidate>, pol: Policy) returns (r: Result<Outcome>)
    requires s.Valid()
    requires DecideAssigned(pol, a).Adopt? && !DecideAssigned(pol, a).chosen.transaction.provisional ==>
               var t := DecideAssigned(pol, a).chosen.transaction; t.id in s.rows && s.rows[t.id] == t
    modifies s
    ensures s.Valid() && (old(s.faulted) ==> s.faulted)
    ensures r.Failed? ==> s.faulted && s.rows == old(s.rows)
    ensures r.Ok? ==> Accords(pol, a, row, r.value)
    ensures r.Ok? ==> PlacedBy(old(s.rows), s.rows, f, r.value, pol)
  {
    var strongest := if row == [] then None else Some(row[0]);
    match DecideAssigned(pol, a) {
      case Adopt(c) =>
        if c.transaction.provisional {
          var made := s.Create(CounterpartFields(f, c.transaction));
          if made.Failed? {
            return Failed;
          }
          return Ok(Outcome(Some(made.value), true, [], strongest, Unchosen(row, c.Id()),
                            a.margin, a.interchangeable, Some(c.transaction)));
        }
        var kept := ApplyImported(s, c.transaction, f, pol);
        if kept.Failed? {
          return Failed;
        }
        return Ok(Outcome(Some(kept.value), false, [], strongest, Unchosen(row, c.Id()), a.margin, a.interchangeable, None));
      case Review(_) =>
        if pol.holdForReview {
          return Ok(Outcome(None, false, row, strongest, Unchosen(row, ""), a.margin, a.interchangeable, None));
        }
      case Refuse =>
    }
    var made := s.Create(f);
    if made.Failed? {
      return Failed;
    }
    r := Ok(Outcome(Some(made.value), true, [], strongest, Unchosen(row, ""), a.margin, 0, None));
  }

  /** Places the arrangement one transaction at a time; stopAt is how many there is time for. */
  method PlaceAll(s: Store, fs: seq<ImportedFields>, out0: seq<Outcome>, model: seq<nat>, rows: Rows, asg: seq<Assignment>,
                  ghost taken: set<string>, ghost held: seq<Transaction>, stopAt: nat, pol: Policy, ghost noMatch: real,
                  ghost was: map<string, Transaction>)
    returns (ok: bool, out: seq<Outcome>, ghost reached: nat)
    requires s.Valid() && Solved(rows, noMatch, asg) && Faithful(was, rows)
    requires forall k, c :: 0 <= k < |rows| && c in rows[k] ==> c.Id() !in taken
    requires PlacedSoFar(was, s.rows, fs, out0, model, rows, asg, taken, 0, pol)
    modifies s
    ensures s.Valid() && reached <= |model| && (old(s.faulted) ==> s.faulted) && (!ok ==> s.faulted)
    ensures PlacedSoFar(was, s.rows, fs, out, model, rows, asg, taken, reached, pol)
    ensures forall i :: 0 <= i < |out| && i !in model ==> out[i] == out0[i]
    ensures ok ==> reached == if stopAt < |model| then stopAt else |model|
  {
    hide Solved, Faithful, Effects;
    out, reached := out0, 0;
    var k := 0;
    while k < |model| && k < stopAt
      invariant k <= |model| && k <= stopAt && reached == k && s.Valid() && (old(s.faulted) ==> s.faulted)
      invariant PlacedSoFar(was, s.rows, fs, out, model, rows, asg, taken, k, pol)
      invariant forall i :: 0 <= i < |out| && i !in model ==> out[i] == out0[i]
    {
      var i := model[k];
      ghost var before := s.rows;
      ArrangedReady(was, s.rows, fs, out, model, rows, asg, taken, k, pol, noMatch);
      var placed := PlaceOne(s, fs[i], asg[k], rows[k], pol);
      if placed.Failed? {
        return false, out, reached;
      }
      PlacedStep(was, before, s.rows, fs, out, model, rows, asg, taken, k, pol, noMatch, placed.value);
      out := out[i := placed.value];
      k, reached := k + 1, k + 1;
    }
    ok := true;
  }

  /** Should the decision be to adopt a live row, it is still there exactly as it was listed. */
  lemma ArrangedReady(was: map<string, Transaction>, now: map<string, Transaction>, fs: seq<ImportedFields>, out: seq<Outcome>,
                      model: seq<nat>, rows: Rows, asg: seq<Assignment>, taken: set<string>, k: nat, pol: Policy, noMatch: real)
    requires PlacedSoFar(was, now, fs, out, model, rows, asg, taken, k, pol) && k < |model|
    requires Solved(rows, noMatch, asg) && Faithful(was, rows)
    requires forall k, c :: 0 <= k < |rows| && c in rows[k] ==> c.Id() !in taken
    ensures DecideAssigned(pol, asg[k]).Adopt? && !DecideAssigned(pol, asg[k]).chosen.transaction.provisional ==>
              var c := DecideAssigned(pol, asg[k]).chosen;
              && c.Id() in now && now[c.Id()] == was[c.Id()] == c.transaction && c.Id() in was
              && (forall j :: 0 <= j < |out| ==> !IsRowOf(out, j, c.Id()))
  {
    if DecideAssigned(pol, asg[k]).Adopt? {
      var c := DecideAssigned(pol, asg[k]).chosen;
      assert Chosen(asg)[k] == Some(c) && c in rows[k];
      if !c.transaction.provisional {
        ArrangedRowUnused(was, now, fs, out, model, rows, asg, taken, k, pol, noMatch);
      }
    }
  }

  /** What PlaceOne wrote for o, which answers for transaction i of the batch. */
  ghost predicate PlacedBy(now: map<string, Transaction>, now': map<string, Transaction>, f: ImportedFields, o: Outcome, pol: Policy) {
    if o.transaction.None? then now' == now
    else
      var t := o.transaction.value;
      && now' == now[t.id := t]
      && (if o.created then t.id !in now && t == NewRow(t.id, Written(f, o))
          else t.id in now && t == Merged(pol, now[t.id], f))
  }

  lemma PlacedEffects(was: map<string, Transaction>, now: map<string, Transaction>, now': map<string, Transaction>,
                      fs: seq<ImportedFields>, out: seq<Outcome>, i: nat, pol: Policy, o: Outcome)
    requires Effects(was, now, fs, out, pol) && i < |out| && out[i] == UNTOUCHED
    requires PlacedBy(now, now', fs[i], o, pol)
    requires o.transaction.Some? && !o.created ==>
               var id := o.transaction.value.id;
               id in was && now[id] == was[id] && forall j :: 0 <= j < |out| ==> !IsRowOf(out, j, id)
    ensures Effects(was, now', fs, out[i := o], pol)
  {
    if o.transaction.Some? {
      var t := o.transaction.value;
      assert Accounted(was, now, out, t.id);
      if o.created {
        forall j | 0 <= j < |out| ensures !IsRowOf(out, j, t.id) {
          RowIsLive(was, now, fs, out, j, pol);
        }
      }
      EffectsStep(was, now, now', fs, out, i, o, pol);
    } else {
      HeldStep(was, now, fs, out, i, o, pol);
    }
  }

  /** What PlaceOne did to the budget keeps everything placed so far, and places one more. */
  lemma PlacedStep(was: map<string, Transaction>, now: map<string, Transaction>, now': map<string, Transaction>,
                   fs: seq<ImportedFields>, out: seq<Outcome>, model: seq<nat>, rows: Rows, asg: seq<Assignment>,
                   taken: set<string>, k: nat, pol: Policy, noMatch: real, o: Outcome)
    requires PlacedSoFar(was, now, fs, out, model, rows, asg, taken, k, pol) && k < |model|
    requires Solved(rows, noMatch, asg) && Faithful(was, rows)
    requires forall k, c :: 0 <= k < |rows| && c in rows[k] ==> c.Id() !in taken
    requires Accords(pol, asg[k], rows[k], o) && PlacedBy(now, now', fs[model[k]], o, pol)
    ensures PlacedSoFar(was, now', fs, out[model[k] := o], model, rows, asg, taken, k + 1, pol)
  {
    ArrangedReady(was, now, fs, out, model, rows, asg, taken, k, pol, noMatch);
    PlacedEffects(was, now, now', fs, out, model[k], pol, o);
    DecidedStep(|fs|, out, model, rows, asg, taken, k, pol, o);
  }

  lemma RowIsLive(was: map<string, Transaction>, now: map<string, Transaction>, fs: seq<ImportedFields>, out: seq<Outcome>,
                  j: nat, pol: Policy)
    requires Effects(was, now, fs, out, pol) && j < |out|
    ensures out[j].transaction.Some? ==> out[j].transaction.value.id in now
  {
    if out[j].transaction.Some? {
      assert Wrote(was, now, fs[j], out[j], pol);
    }
  }

  lemma HeldStep(was: map<string, Transaction>, now: map<string, Transaction>, fs: seq<ImportedFields>, out: seq<Outcome>,
                 i: nat, o: Outcome, pol: Policy)
    requires Effects(was, now, fs, out, pol) && i < |out| && out[i] == UNTOUCHED && o.transaction.None?
    ensures Effects(was, now, fs, out[i := o], pol)
  {
    var out' := out[i := o];
    forall id ensures Accounted(was, now, out', id) {
      assert Accounted(was, now, out, id);
      if j :| IsRowOf(out, j, id) {
        assert IsRowOf(out', j, id);
      }
      if id in now && id !in was {
        var j :| IsRowOf(out, j, id) && out[j].created;
        assert IsRowOf(out', j, id) && out'[j].created;
      }
    }
  }

  // ----- The batch -----

  /** No comparison of a row with an incoming transaction, among at most so many plausible rows,
      weighs as little as the sentinel of the arrangement. */
  ghost predicate Sane(pol: Policy, most: nat) {
    && pol.review != 1.0
    && NoMatchWeight(pol) > -UNAVAILABLE
    && forall t, f, n :: 1 <= n <= most ==> Weight(pol, Compare(pol, t, f), n) > -UNAVAILABLE
  }

  lemma {:induction false} FilterShorter<T>(s: seq<T>, p: T -> bool)
    ensures |Filter(s, p)| <= |s|
    decreases |s|
  {
    if s != [] {
      FilterShorter(s[..|s| - 1], p);
    }
  }

  /** A listing holds no more rows than there are. */
  lemma {:induction false} ListingFits(live: map<string, Transaction>, listed: seq<Transaction>)
    requires DistinctRows(listed) && forall t :: t in listed ==> t.id in live
    ensures |listed| <= |live|
    decreases |listed|
  {
    if listed != [] {
      var init, t := listed[..|listed| - 1], listed[|listed| - 1];
      assert forall u :: u in init ==> u in listed && u.id != t.id;
      assert (live - {t.id}).Keys == live.Keys - {t.id} && |live.Keys| == |live|;
      assert |(live - {t.id}).Keys| == |live - {t.id}|;
      ListingFits(live - {t.id}, init);
    }
  }

  /** A candidate is weighed among no more rows than the budget and the held authorisations have. */
  lemma PlausibleFits(pol: Policy, live: map<string, Transaction>, held: seq<Transaction>, f: ImportedFields,
                      listed: seq<Transaction>, taken: set<string>, c: Candidate)
    requires Listing(live, f, listed) && c in Assessed(pol, WithHeld(listed, held, f), f, taken)
    ensures Sane(pol, |live| + |held|) ==> c.weight > -UNAVAILABLE
  {
    var all := WithHeld(listed, held, f);
    var survivors := Survivors(pol, all, f, taken);
    var n := PlausibleCount(pol, survivors, f);
    ListingFits(live, listed);
    FilterShorter(held, (h: Transaction) => Offered(h, f));
    FilterShorter(all, (t: Transaction) => Eligible(pol, t, f, taken));
    FilterShorter(survivors, (t: Transaction) => IsPlausible(pol, t, f));
    AssessedExactly(pol, all, f, taken);
    assert c == Weigh(pol, c.transaction, f, n);
    assert c.transaction in all;
    assert 1 <= n <= |live| + |held|;
  }

  /** The outcomes as they were when only the references had been settled. */
  function Referred(out: seq<Outcome>, model: seq<nat>): seq<Outcome> {
    seq(|out|, i requires 0 <= i < |out| => if i in model then UNTOUCHED else out[i])
  }

  /** Everything a finished batch promises: the references that were settled and what that made of
      the budget, the windows listed then, the candidates weighed, their arrangement, and the
      decisions written. */
  ghost predicate Reconciled(was: map<string, Transaction>, now: map<string, Transaction>, fs: seq<ImportedFields>,
                             claimed: seq<Transaction>, held: seq<Transaction>, pol: Policy, stopAt: nat, out: seq<Outcome>,
                             mid: map<string, Transaction>, taken: seq<Transaction>, model: seq<nat>,
                             windows: seq<seq<Transaction>>, rows: Rows, asg: seq<Assignment>)
    requires pol.review != 1.0
  {
    && SameRefs(was, mid) && Effects(was, mid, fs, Referred(out, model), pol)
    && (forall i :: 0 <= i < |fs| ==> (i in model <==> !Carried(was, fs[i].externalRef)))
    && Ids(taken) == Ids(claimed) + SettledIds(out, model)
    && |model| == |rows| == |asg|
    && AllAssessed(mid, held, fs, model, Ids(taken), pol, windows, rows)
    && Solved(rows, NoMatchWeight(pol), asg)
    && PlacedSoFar(was, now, fs, out, model, rows, asg, Ids(taken), if stopAt < |model| then stopAt else |model|, pol)
    && (forall i :: 0 <= i < |fs| && i !in model ==> SettledByRef(mid, fs[i], out[i], taken))
  }

  lemma ModelInBatch(mid: map<string, Transaction>, fs: seq<ImportedFields>, out: seq<Outcome>, taken: seq<Transaction>, model: seq<nat>)
    requires RefsSettled(mid, fs, out, taken, model, |fs|)
    ensures Below(model, |fs|) && |out| == |fs|
  {
  }

  /** With the references settled, the arrangement is about to be placed. */
  lemma PlacingStarts(was: map<string, Transaction>, mid: map<string, Transaction>, fs: seq<ImportedFields>, out: seq<Outcome>,
                      model: seq<nat>, rows: Rows, asg: seq<Assignment>, taken: seq<Transaction>, pol: Policy)
    requires RefsSettled(mid, fs, out, taken, model, |fs|) && Effects(was, mid, fs, out, pol) && |model| == |rows| == |asg|
    ensures PlacedSoFar(was, mid, fs, out, model, rows, asg, Ids(taken), 0, pol)
  {
    hide Effects;
  }

  lemma PlacedLength(was: map<string, Transaction>, now: map<string, Transaction>, fs: seq<ImportedFields>, out: seq<Outcome>,
                     model: seq<nat>, rows: Rows, asg: seq<Assignment>, taken: set<string>, n: nat, pol: Policy)
    requires PlacedSoFar(was, now, fs, out, model, rows, asg, taken, n, pol)
    ensures |out| == |fs| && Effects(was, now, fs, out, pol)
  {
  }

  /** Places a batch of incoming transactions against the budget, all decided together. Whatever
      happens, failure included, trace accounts for every write that was made; and the batch fails
      only if the backend does. */
  method ReconcileBatch(s: Store, fs: seq<ImportedFields>, claimed: seq<Transaction>, held: seq<Transaction>, stopAt: nat, pol: Policy)
    returns (r: Result<seq<Outcome>>, ghost trace: seq<Outcome>, ghost mid: map<string, Transaction>,
             ghost taken: seq<Transaction>, ghost model: seq<nat>,
             ghost windows: seq<seq<Transaction>>, ghost rows: Rows, ghost asg: seq<Assignment>)
    requires s.Valid() && DistinctRefs(fs) && HeldApart(held, s.rows) && Sane(pol, |s.rows| + |held|)
    modifies s
    ensures s.Valid() && (old(s.faulted) ==> s.faulted) && (r.Failed? ==> s.faulted)
    ensures Effects(old(s.rows), s.rows, fs, trace, pol)
    ensures r.Ok? ==> r.value == trace
    ensures r.Ok? ==> Reconciled(old(s.rows), s.rows, fs, claimed, held, pol, stopAt, r.value, mid, taken, model, windows, rows, asg)
  {
    hide Effects, Solved, AllAssessed, Dominated, Faithful, AllDistinctIds, RefsSettled, PlacedSoFar, SettledByRef;
    ghost var was := s.rows;
    mid, windows, rows, asg := was, [], [], [];
    var ok, out, taken', model' := SettleByReference(s, fs, claimed, pol);
    trace, taken, model := out, taken', model';
    if !ok {
      return Failed, trace, mid, taken, model, windows, rows, asg;
    }
    mid := s.rows;
    ModelInBatch(mid, fs, out, taken', model');
    var assessed, rows', windows' := AssessAll(s, fs, model', taken', held, pol);
    if !assessed {
      return Failed, trace, mid, taken, model, windows, rows, asg;
    }
    rows, windows := rows', windows';
    assert |mid.Keys| == |mid| && |was.Keys| == |was|;
    RowsReady(was, mid, fs, out, model', held, pol, windows', rows', taken');
    var asg' := Solve(rows', NoMatchWeight(pol));
    asg := asg';
    PlacingStarts(was, mid, fs, out, model', rows', asg', taken', pol);
    var placed, out', reached := PlaceAll(s, fs, out, model', rows', asg', Ids(taken'), held, stopAt, pol, NoMatchWeight(pol), was);
    trace := out';
    PlacedLength(was, s.rows, fs, out', model', rows', asg', Ids(taken'), reached, pol);
    if !placed {
      return Failed, trace, mid, taken, model, windows, rows, asg;
    }
    ReferredKept(fs, out, out', model', mid, taken');
    r := Ok(out');
  }

  /** Placing changed no outcome a reference settled. */
  lemma ReferredKept(fs: seq<ImportedFields>, out: seq<Outcome>, out': seq<Outcome>, model: seq<nat>,
                     mid: map<string, Transaction>, taken: seq<Transaction>)
    requires RefsSettled(mid, fs, out, taken, model, |fs|) && |out'| == |fs|
    requires forall i :: 0 <= i < |out'| && i !in model ==> i < |out| && out'[i] == out[i]
    ensures |out| == |fs| && Referred(out', model) == out && SettledIds(out', model) == SettledIds(out, model)
    ensures forall i :: 0 <= i < |fs| && i !in model ==> SettledByRef(mid, fs[i], out'[i], taken)
  {
    forall i | 0 <= i < |out| && i in model ensures out[i] == UNTOUCHED {
      var k :| 0 <= k < |model| && model[k] == i;
    }
  }

  /** Every weighed row is fit for the arrangement, and every live candidate is as the batch found it. */
  lemma RowsReady(was: map<string, Transaction>, mid: map<string, Transaction>, fs: seq<ImportedFields>, out: seq<Outcome>,
                  model: seq<nat>, held: seq<Transaction>, pol: Policy, windows: seq<seq<Transaction>>, rows: Rows, taken: seq<Transaction>)
    requires Effects(was, mid, fs, out, pol) && was.Keys == mid.Keys
    requires HeldApart(held, mid) && forall id :: id in mid ==> !mid[id].provisional
    requires RefsSettled(mid, fs, out, taken, model, |fs|)
    requires |rows| == |model| && AllAssessed(mid, held, fs, model, Ids(taken), pol, windows, rows)
    requires Sane(pol, |mid| + |held|)
    ensures AllDistinctIds(rows) && Dominated(rows, NoMatchWeight(pol)) && Faithful(was, rows)
    ensures forall k, c :: 0 <= k < |rows| && c in rows[k] ==> c.Id() !in Ids(taken)
  {
    forall k | 0 <= k < |rows| ensures Offerable(mid, held, Ids(taken), rows[k]) {
      AssessmentOfferable(mid, held, fs[model[k]], Ids(taken), pol, windows[k]);
    }
    forall k, c | 0 <= k < |rows| && c in rows[k]
      ensures c.Id() !in Ids(taken) && c.weight > -UNAVAILABLE
      ensures !c.transaction.provisional ==> c.Id() in was && was[c.Id()] == c.transaction
    {
      PlausibleFits(pol, mid, held, fs[model[k]], windows[k], Ids(taken), c);
      if !c.transaction.provisional {
        UntakenUnchanged(was, mid, fs, out, model, taken, pol, c.Id());
      }
    }
  }

  /** A row no reference settled is as it was before the references were looked up. */
  lemma UntakenUnchanged(was: map<string, Transaction>, mid: map<string, Transaction>, fs: seq<ImportedFields>, out: seq<Outcome>,
                         model: seq<nat>, taken: seq<Transaction>, pol: Policy, id: string)
    requires Effects(was, mid, fs, out, pol) && RefsSettled(mid, fs, out, taken, model, |fs|)
    requires id in was && id !in Ids(taken)
    ensures id in mid && mid[id] == was[id]
  {
    assert Accounted(was, mid, out, id);
    forall i | 0 <= i < |out| ensures !IsRowOf(out, i, id) {
      RefRowTaken(mid, fs, out, model, taken, i);
    }
  }

  lemma RefRowTaken(mid: map<string, Transaction>, fs: seq<ImportedFields>, out: seq<Outcome>, model: seq<nat>,
                    taken: seq<Transaction>, i: nat)
    requires RefsSettled(mid, fs, out, taken, model, |fs|) && i < |fs|
    ensures out[i].transaction.Some? ==> out[i].transaction.value.id in Ids(taken)
  {
    if i in model {
      var k :| 0 <= k < |model| && model[k] == i;
    } else {
      assert SettledByRef(mid, fs[i], out[i], taken);
    }
  }

  // ----- What a finished batch means -----

  function CreatedIds(out: seq<Outcome>): set<string> {
    if out == [] then {}
    else CreatedIds(out[..|out| - 1]) + OwnCreated(out[|out| - 1])
  }

  function OwnCreated(o: Outcome): set<string> {
    if o.transaction.Some? && o.created then {o.transaction.value.id} else {}
  }

  function CreatedCount(out: seq<Outcome>): nat {
    if out == [] then 0
    else CreatedCount(out[..|out| - 1]) + if out[|out| - 1].transaction.Some? && out[|out| - 1].created then 1 else 0
  }

  lemma {:induction false} CreatedIn(out: seq<Outcome>, id: string)
    ensures id in CreatedIds(out) <==> exists i :: IsRowOf(out, i, id) && out[i].created
    decreases |out|
  {
    if out != [] {
      var init := out[..|out| - 1];
      CreatedIn(init, id);
      if i :| IsRowOf(init, i, id) && init[i].created {
        assert IsRowOf(out, i, id) && out[i].created;
      }
      if i :| IsRowOf(out, i, id) && out[i].created {
        assert i < |out| - 1 ==> IsRowOf(init, i, id) && init[i].created;
      }
      if id in OwnCreated(out[|out| - 1]) {
        assert IsRowOf(out, |out| - 1, id);
      }
    }
  }

  lemma {:induction false} CreatedCounted(out: seq<Outcome>)
    requires OwnRows(out)
    ensures |CreatedIds(out)| == CreatedCount(out)
    decreases |out|
  {
    if out != [] {
      var init, last := out[..|out| - 1], out[|out| - 1];
      CreatedCounted(init);
      if last.transaction.Some? {
        CreatedIn(init, last.transaction.value.id);
        forall i | 0 <= i < |init| ensures !IsRowOf(init, i, last.transaction.value.id) {
          assert init[i] == out[i];
        }
      }
    }
  }

  lemma CreatedAreNew(was: map<string, Transaction>, now: map<string, Transaction>, fs: seq<ImportedFields>,
                      out: seq<Outcome>, pol: Policy, id: string)
    requires Effects(was, now, fs, out, pol)
    ensures id in CreatedIds(out) <==> id in now && id !in was
  {
    assert Accounted(was, now, out, id);
    CreatedIn(out, id);
    if i :| IsRowOf(out, i, id) && out[i].created {
      assert Wrote(was, now, fs[i], out[i], pol);
    }
  }

  /** Conservation: the budget gains exactly one row per created outcome and loses none. */
  lemma BatchConserves(was: map<string, Transaction>, now: map<string, Transaction>, fs: seq<ImportedFields>,
                       out: seq<Outcome>, pol: Policy)
    requires Effects(was, now, fs, out, pol)
    ensures now.Keys == was.Keys + CreatedIds(out) && was.Keys !! CreatedIds(out)
    ensures |now| == |was| + CreatedCount(out)
  {
    hide CreatedCount;
    forall id ensures id in CreatedIds(out) <==> id in now && id !in was {
      CreatedAreNew(was, now, fs, out, pol, id);
    }
    forall id | id in was ensures id in now {
      assert Accounted(was, now, out, id);
    }
    CreatedCounted(out);
    assert now.Keys == was.Keys + CreatedIds(out);
  }

  /** A row a transaction was merged into ends at the bank's amount, unless it was reconciled, and
      then it is untouched. Rows no outcome names are untouched. */
  lemma BatchAmounts(was: map<string, Transaction>, now: map<string, Transaction>, fs: seq<ImportedFields>,
                     out: seq<Outcome>, pol: Policy, id: string)
    requires Effects(was, now, fs, out, pol) && id in was
    ensures id in now
    ensures was[id].reconciled ==> now[id] == was[id]
    ensures (forall i :: 0 <= i < |out| ==> !IsRowOf(out, i, id)) ==> now[id] == was[id]
    ensures forall i :: 0 <= i < |out| && IsRowOf(out, i, id) && !was[id].reconciled ==> now[id].amountCents == fs[i].amountCents
  {
    assert Accounted(was, now, out, id);
    forall i | 0 <= i < |out| && IsRowOf(out, i, id)
      ensures now[id] == Merged(pol, was[id], fs[i])
    {
      assert Wrote(was, now, fs[i], out[i], pol);
    }
  }

  lemma AssessedUntaken(pol: Policy, rows: seq<Transaction>, f: ImportedFields, taken: set<string>, c: Candidate)
    requires c in Assessed(pol, rows, f, taken)
    ensures c.Id() !in taken
  {
    AssessedExactly(pol, rows, f, taken);
    assert Eligible(pol, c.transaction, f, taken);
  }

  /** A row adopted through the arrangement was claimed by nobody: not before the batch, not by a
      bank reference in it, and not by any other transaction of it. */
  lemma AdoptedRowsApart(was: map<string, Transaction>, now: map<string, Transaction>, fs: seq<ImportedFields>,
                         claimed: seq<Transaction>, held: seq<Transaction>, pol: Policy, stopAt: nat, out: seq<Outcome>,
                         mid: map<string, Transaction>, taken: seq<Transaction>, model: seq<nat>,
                         windows: seq<seq<Transaction>>, rows: Rows, asg: seq<Assignment>, k: nat)
    requires pol.review != 1.0
    requires Reconciled(was, now, fs, claimed, held, pol, stopAt, out, mid, taken, model, windows, rows, asg)
    requires k < |model| && out[model[k]].transaction.Some? && !out[model[k]].created
    ensures var id := out[model[k]].transaction.value.id;
            && id !in Ids(claimed)
            && (forall j :: 0 <= j < |out| && j != model[k] ==> !IsRowOf(out, j, id))
            && (forall i :: 0 <= i < |fs| && i !in model ==> out[i].transaction.value.id != id)
  {
    hide Wrote, Accounted, MarginIs, Assessed, WithHeld, Listing, Carried, Ids, SettledIds;
    var c := DecideAssigned(pol, asg[k]).chosen;
    assert Chosen(asg)[k] == Some(c) && c in rows[k];
    AssessedUntaken(pol, WithHeld(windows[k], held, fs[model[k]]), fs[model[k]], Ids(taken), c);
    forall i | 0 <= i < |fs| && i !in model ensures out[i].transaction.value.id in Ids(taken) {
      assert SettledByRef(mid, fs[i], out[i], taken);
    }
  }

  /** A transaction left to the arrangement is done exactly if the deadline left time for it, and
      one that is not has no row: whatever changed in the budget is some other outcome's doing. */
  lemma UnplacedWroteNothing(was: map<string, Transaction>, now: map<string, Transaction>, fs: seq<ImportedFields>,
                             claimed: seq<Transaction>, held: seq<Transaction>, pol: Policy, stopAt: nat, out: seq<Outcome>,
                             mid: map<string, Transaction>, taken: seq<Transaction>, model: seq<nat>,
                             windows: seq<seq<Transaction>>, rows: Rows, asg: seq<Assignment>, k: nat)
    requires pol.review != 1.0
    requires Reconciled(was, now, fs, claimed, held, pol, stopAt, out, mid, taken, model, windows, rows, asg)
    requires k < |model|
    ensures out[model[k]].Done() <==> k < stopAt
    ensures k >= stopAt ==> out[model[k]] == UNTOUCHED
    ensures k >= stopAt ==> forall id :: id in now && (id !in was || now[id] != was[id]) ==>
              exists j :: IsRowOf(out, j, id) && j != model[k]
  {
    if k < stopAt {
      assert Accords(pol, asg[k], rows[k], out[model[k]]);
      var d := DecideAssigned(pol, asg[k]);
      if d.Review? {
        assert Chosen(asg)[k] == Some(d.chosen) && d.chosen in rows[k];
      }
    } else {
      forall id | id in now && (id !in was || now[id] != was[id])
        ensures exists j :: IsRowOf(out, j, id) && j != model[k]
      {
        assert Accounted(was, now, out, id);
        var j :| IsRowOf(out, j, id);
      }
    }
  }
}
