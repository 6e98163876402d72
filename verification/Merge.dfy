/** What an incoming transaction may write onto a row it adopts: MergePatch, AmountPatch and
    applyImported of budget/reconcile.go. */
module Merging {
  import opened Sums
  import opened Budget
  import opened Assessing

  /** The fields to write; None leaves a field alone. */
  datatype Patch = Patch(
    amountCents: Option<int>,
    payeeName: Option<string>,
    notes: Option<string>,
    externalRef: Option<string>,
    importedPayee: Option<string>,
    cleared: Option<bool>)
  {
    predicate IsEmpty() {
      amountCents.None? && payeeName.None? && notes.None? && externalRef.None? && importedPayee.None? && cleared.None?
    }
  }

  const EMPTY := Patch(None, None, None, None, None, None)

  function Or<T>(o: Option<T>, was: T): T { if o.Some? then o.value else was }

  function ApplyPatch(t: Transaction, p: Patch): Transaction {
    t.(amountCents := Or(p.amountCents, t.amountCents),
       payeeName := Or(p.payeeName, t.payeeName),
       notes := Or(p.notes, t.notes),
       externalRef := Or(p.externalRef, t.externalRef),
       importedPayee := Or(p.importedPayee, t.importedPayee),
       cleared := Or(p.cleared, t.cleared))
  }

  /** The payee differs from what the bank supplied, so a person edited it. */
  predicate RenamedByUser(pol: Policy, t: Transaction) {
    t.payeeName != "" && (t.importedPayee == "" || t.payeeName != pol.titleCase(t.importedPayee))
  }

  function When<T>(b: bool, x: T): Option<T> { if b then Some(x) else None }

  function MergePatch(pol: Policy, t: Transaction, f: ImportedFields): Patch {
    if t.reconciled then EMPTY
    else
      var payee := pol.titleCase(f.payeeName);
      Patch(None,
            When(payee != "" && payee != t.payeeName && !RenamedByUser(pol, t), payee),
            When(f.notes != "" && t.notes == "", f.notes),
            When(f.externalRef != "" && t.externalRef != f.externalRef, f.externalRef),
            When(f.importedPayee != "" && (t.importedPayee == "" || pol.samePayee(t.importedPayee, f.importedPayee))
                 && t.importedPayee != f.importedPayee, f.importedPayee),
            When(f.cleared && !t.cleared, true))
  }

  function AmountPatch(t: Transaction, amountCents: int): Patch {
    if t.reconciled || t.amountCents == amountCents then EMPTY
    else EMPTY.(amountCents := Some(amountCents))
  }

  /** Everything applyImported writes at once. */
  function ImportPatch(pol: Policy, t: Transaction, f: ImportedFields): Patch {
    var p := MergePatch(pol, t, f);
    var ap := AmountPatch(t, f.amountCents);
    if ap.amountCents.Some? then p.(amountCents := ap.amountCents) else p
  }

  /** The row as the import leaves it. */
  function Merged(pol: Policy, t: Transaction, f: ImportedFields): Transaction {
    ApplyPatch(t, ImportPatch(pol, t, f))
  }

  /** A reconciled row is left exactly as it is; any other ends at the bank's amount. Nothing a
      person wrote is lost, and nothing is un-cleared. */
  lemma MergeRespects(pol: Policy, t: Transaction, f: ImportedFields)
    ensures var r := Merged(pol, t, f);
            && r.id == t.id && r.date == t.date && r.reconciled == t.reconciled && r.provisional == t.provisional
            && (t.reconciled ==> r == t)
            && (!t.reconciled ==> r.amountCents == f.amountCents)
            && (t.notes != "" ==> r.notes == t.notes)
            && (RenamedByUser(pol, t) ==> r.payeeName == t.payeeName)
            && (t.cleared ==> r.cleared)
            && (!t.reconciled && f.externalRef != "" ==> r.externalRef == f.externalRef)
            && (f.externalRef == "" ==> r.externalRef == t.externalRef)
            && (!t.reconciled ==> (r.cleared <==> t.cleared || f.cleared))
  {
  }

  /** What a row that is not reconciled ends as, field by field: the bank's amount, its reference if it gave
      one, its notes where there were none; the bank's payee unless a person renamed the row, and the
      bank's spelling unless another payee's is on record. */
  lemma MergedFields(pol: Policy, t: Transaction, f: ImportedFields)
    requires !t.reconciled
    ensures var renamed := t.payeeName != "" && (t.importedPayee == "" || t.payeeName != pol.titleCase(t.importedPayee));
            var payee := pol.titleCase(f.payeeName);
            Merged(pol, t, f) ==
            Transaction(t.id, t.date, f.amountCents,
                        if payee != "" && !renamed then payee else t.payeeName,
                        if t.notes == "" then f.notes else t.notes,
                        if f.externalRef != "" then f.externalRef else t.externalRef,
                        if f.importedPayee != "" && (t.importedPayee == "" || pol.samePayee(t.importedPayee, f.importedPayee))
                        then f.importedPayee else t.importedPayee,
                        t.cleared || f.cleared, false, t.provisional)
  {
  }

  /** Delivering the same transaction again changes nothing, for the fields the importer builds:
      it fills PayeeName and ImportedPayee with the same spelling. */
  lemma MergeIdempotent(pol: Policy, t: Transaction, f: ImportedFields)
    requires f.payeeName == f.importedPayee
    ensures ImportPatch(pol, Merged(pol, t, f), f).IsEmpty()
    ensures Merged(pol, Merged(pol, t, f), f) == Merged(pol, t, f)
  {
    var r := Merged(pol, t, f);
    var payee := pol.titleCase(f.payeeName);
    if !t.reconciled && payee != "" && r.payeeName != payee {
      assert RenamedByUser(pol, t) && r.payeeName == t.payeeName;
      assert RenamedByUser(pol, r);
    }
  }
}
