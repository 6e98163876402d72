/** What ReconcileBatch of budget/reconcile.go did with each transaction, said of the budget before and
    after, the rows that were offered and the place each transaction had in the arrangement. */
module Deciding {
  import opened Sums
  import opened Budget
  import opened KuhnMunkres
  import opened Arrangements
  import opened Padding
  import opened Solving
  import opened Assessing
  import opened Merging
  import opened Reconciling

  /** A finished batch: the budget before it, after its references and after all of it, what came in,
      what was offered and arranged, and the outcomes. */
  datatype Batch = Batch(
    was: map<string, Transaction>, mid: map<string, Transaction>, now: map<string, Transaction>,
    fs: seq<ImportedFields>, claimed: seq<Transaction>, held: seq<Transaction>, pol: Policy, stopAt: nat,
    out: seq<Outcome>, taken: seq<Transaction>, model: seq<nat>, windows: seq<seq<Transaction>>,
    rows: Rows, asg: seq<Assignment>)

  ghost predicate Finished(b: Batch) {
    && b.pol.review != 1.0
    && Reconciled(b.was, b.now, b.fs, b.claimed, b.held, b.pol, b.stopAt, b.out, b.mid, b.taken, b.model, b.windows, b.rows, b.asg)
  }

  /** What is known of a transaction the arrangement placed in time. */
  lemma Placement(b: Batch, k: nat)
    requires Finished(b) && k < |b.model| && k < b.stopAt
    ensures |b.model| == |b.rows| == |b.asg| && b.model[k] < |b.fs| == |b.out|
    ensures Accords(b.pol, b.asg[k], b.rows[k], b.out[b.model[k]])
    ensures b.out[b.model[k]].transaction.Some? ==> Wrote(b.was, b.now, b.fs[b.model[k]], b.out[b.model[k]], b.pol)
    ensures b.asg[k].candidate.Some? ==> b.asg[k].candidate.value in b.rows[k]
  {
    hide Accords, Wrote, Accounted, MarginIs, AllAssessed, SettledByRef, Carried, Ids, SettledIds;
    assert Chosen(b.asg)[k] == b.asg[k].candidate;
  }

  /** A live row is adopted exactly if the transaction is paired with it at a probability that reaches
      both thresholds and with a margin that reaches the asked-for bits; the row then ends merged. */
  lemma AdoptedExactly(b: Batch, k: nat)
    requires Finished(b) && k < |b.model| && k < b.stopAt
    ensures |b.model| == |b.asg| && b.model[k] < |b.fs| == |b.out|
    ensures var a, o := b.asg[k], b.out[b.model[k]];
            o.transaction.Some? && !o.created <==>
            && a.candidate.Some? && !a.candidate.value.transaction.provisional
            && a.candidate.value.probability >= b.pol.review && a.candidate.value.probability >= b.pol.auto
            && (a.margin.Finite? ==> a.margin.value >= b.pol.marginBits)
    ensures var a, o := b.asg[k], b.out[b.model[k]];
            o.transaction.Some? && !o.created ==>
              var id := a.candidate.value.Id();
              id in b.was && id in b.now && o.transaction == Some(b.now[id]) && b.now[id] == Merged(b.pol, b.was[id], b.fs[b.model[k]])
  {
    hide Finished, Merged;
    Placement(b, k);
  }

  /** A held authorisation is settled exactly if the transaction is paired with it on the same terms; a
      row is then created on the authorisation's day, with the authorisation's notes if it has any. */
  lemma SettledExactly(b: Batch, k: nat)
    requires Finished(b) && k < |b.model| && k < b.stopAt
    ensures |b.model| == |b.asg| && b.model[k] < |b.fs| == |b.out|
    ensures var a, o := b.asg[k], b.out[b.model[k]];
            o.counterpart.Some? <==>
            && a.candidate.Some? && a.candidate.value.transaction.provisional
            && a.candidate.value.probability >= b.pol.review && a.candidate.value.probability >= b.pol.auto
            && (a.margin.Finite? ==> a.margin.value >= b.pol.marginBits)
    ensures var a, o, f := b.asg[k], b.out[b.model[k]], b.fs[b.model[k]];
            o.counterpart.Some? ==>
              var h := a.candidate.value.transaction;
              && o.counterpart == Some(h) && o.created && o.transaction.Some?
              && var id := o.transaction.value.id;
                 && id !in b.was && id in b.now
                 && b.now[id] == Transaction(id, h.date, f.amountCents, f.payeeName, if h.notes != "" then h.notes else f.notes,
                                             f.externalRef, f.importedPayee, f.cleared, false, false)
  {
    hide Finished;
    Placement(b, k);
  }

  /** A person is asked exactly if that is switched on and the transaction is paired at a probability
      that reaches the review threshold, but not surely enough to settle it. Nothing is written then,
      and every row that was weighed is put to the person. */
  lemma AskedExactly(b: Batch, k: nat)
    requires Finished(b) && k < |b.model| && k < b.stopAt
    ensures |b.model| == |b.asg| == |b.rows| && b.model[k] < |b.fs| == |b.out|
    ensures var a, o := b.asg[k], b.out[b.model[k]];
            o.held != [] <==>
            && b.pol.holdForReview && a.candidate.Some? && a.candidate.value.probability >= b.pol.review
            && (a.candidate.value.probability < b.pol.auto || (a.margin.Finite? && a.margin.value < b.pol.marginBits))
    ensures var o := b.out[b.model[k]];
            if o.held != [] then o.held == b.rows[k] && o.transaction.None? && !o.created else o.transaction.Some?
  {
    hide Finished;
    Placement(b, k);
  }

  /** In every other case a row is created as the bank delivered the transaction. */
  lemma CreatedOtherwise(b: Batch, k: nat)
    requires Finished(b) && k < |b.model| && k < b.stopAt
    ensures b.model[k] < |b.fs| == |b.out|
    ensures var o, f := b.out[b.model[k]], b.fs[b.model[k]];
            o.held == [] && o.counterpart.None? && (o.transaction.Some? ==> o.created) ==>
              && o.transaction.Some? && o.created
              && var id := o.transaction.value.id;
                 && id !in b.was && id in b.now
                 && b.now[id] == Transaction(id, f.date, f.amountCents, f.payeeName, f.notes, f.externalRef, f.importedPayee,
                                             f.cleared, false, false)
  {
    AskedExactly(b, k);
    Placement(b, k);
  }

  /** References come first: a transaction goes to the arrangement exactly if it carries no reference
      or no row had it; any other is merged into a row that had its reference. */
  lemma ReferenceFirst(b: Batch, i: nat)
    requires Finished(b) && i < |b.fs|
    ensures |b.out| == |b.fs|
    ensures i in b.model <==> b.fs[i].externalRef == "" || forall id :: id in b.was ==> b.was[id].externalRef != b.fs[i].externalRef
    ensures i !in b.model ==>
              && b.out[i].transaction.Some? && !b.out[i].created
              && var id := b.out[i].transaction.value.id;
                 && id in b.was && id in b.now && b.now[id] == Merged(b.pol, b.was[id], b.fs[i])
                 && (b.was[id].externalRef == b.fs[i].externalRef)
  {
    hide Merged, Accords, AllAssessed, Solved;
    assert Effects(b.was, b.now, b.fs, b.out, b.pol);
    if i !in b.model {
      assert SettledByRef(b.mid, b.fs[i], b.out[i], b.taken);
      assert Wrote(b.was, b.now, b.fs[i], b.out[i], b.pol);
      assert Effects(b.was, b.mid, b.fs, Referred(b.out, b.model), b.pol);
    }
  }

  /** The rows offered to a transaction are the live rows of the two weeks from seven days before it to
      the seventh day after it and, for a booking, the held authorisations of those days that nobody has
      confirmed: less those claimed before or settled by reference, those confirmed under another
      reference, those booked already if it is an authorisation, and those sealed to other records if it
      is a booking known by its content only. */
  lemma OfferedExactly(b: Batch, k: nat, t: Transaction)
    requires Finished(b) && k < |b.model|
    ensures |b.rows| == |b.model| && b.model[k] < |b.fs|
    ensures var f := b.fs[b.model[k]];
            (exists c :: c in b.rows[k] && c.transaction == t) <==>
            && (|| (t.id in b.mid && b.mid[t.id] == t)
                || (f.cleared && t in b.held && t.provisional && !t.cleared))
            && f.date - 7 <= t.date <= f.date + 7
            && t.id !in Ids(b.claimed) && (forall i :: 0 <= i < |b.fs| && i !in b.model ==> !IsRowOf(b.out, i, t.id))
            && (t.cleared ==> t.externalRef == "" || t.externalRef == f.externalRef)
            && (!f.cleared ==> !b.pol.booked(t.id))
            && (f.cleared && f.externalRef == "" && f.identity != "" ==> !b.pol.isSealed(t.id, f.identity))
  {
    hide Finished, Assessed, Ids, Listing, WithHeld, Eligible;
    Weighed(b, k);
    var f := b.fs[b.model[k]];
    var offered := WithHeld(b.windows[k], b.held, f);
    AssessedExactly(b.pol, offered, f, Ids(b.taken));
    WindowOf(b.mid, f, b.windows[k], b.held, t);
    TakenMeans(b, t.id);
    EligibleMeans(b.pol, t, f, Ids(b.taken));
  }

  lemma Weighed(b: Batch, k: nat)
    requires Finished(b) && k < |b.model|
    ensures |b.rows| == |b.model| == |b.windows| && b.model[k] < |b.fs| && Listing(b.mid, b.fs[b.model[k]], b.windows[k])
    ensures b.rows[k] == Assessed(b.pol, WithHeld(b.windows[k], b.held, b.fs[b.model[k]]), b.fs[b.model[k]], Ids(b.taken))
  {
    hide Solved, SettledByRef, Effects, PlacedSoFar, Carried, Assessed, Ids, WithHeld, Listing;
  }

  lemma WindowOf(mid: map<string, Transaction>, f: ImportedFields, listed: seq<Transaction>, held: seq<Transaction>, t: Transaction)
    requires Listing(mid, f, listed)
    ensures t in WithHeld(listed, held, f) <==>
            && (|| (t.id in mid && mid[t.id] == t)
                || (f.cleared && t in held && t.provisional && !t.cleared))
            && f.date - 7 <= t.date <= f.date + 7
  {
    FilterIn(held, (h: Transaction) => Offered(h, f), t);
  }

  lemma EligibleMeans(pol: Policy, t: Transaction, f: ImportedFields, taken: set<string>)
    ensures Eligible(pol, t, f, taken) <==>
            && t.id !in taken
            && (t.cleared ==> t.externalRef == "" || t.externalRef == f.externalRef)
            && (!f.cleared ==> !pol.booked(t.id))
            && (f.cleared && f.externalRef == "" && f.identity != "" ==> !pol.isSealed(t.id, f.identity))
  {
  }

  lemma TakenMeans(b: Batch, id: string)
    requires Finished(b)
    ensures |b.out| == |b.fs|
    ensures id in Ids(b.taken) <==> id in Ids(b.claimed) || exists i :: 0 <= i < |b.fs| && i !in b.model && IsRowOf(b.out, i, id)
  {
    hide Solved, SettledByRef, AllAssessed, Carried, Ids, Accords;
    assert |b.out| == |b.fs|;
    if i :| 0 <= i < |b.fs| && i !in b.model && IsRowOf(b.out, i, id) {
      assert id in SettledIds(b.out, b.model);
    }
    if id in SettledIds(b.out, b.model) {
      var i :| 0 <= i < |b.out| && i !in b.model && b.out[i].transaction.Some? && b.out[i].transaction.value.id == id;
      assert IsRowOf(b.out, i, id);
    }
  }

  /** An outcome reports its margin, how many rows the chosen one could not be told from unless a row
      was created for it plainly, the row that was weighed highest, and as comparisons of rows that did
      not match those of every weighed row, less the one the transaction was settled onto. */
  lemma OutcomeReports(b: Batch, k: nat, x: Comparison)
    requires Finished(b) && k < |b.model| && k < b.stopAt
    ensures |b.model| == |b.asg| == |b.rows| && b.model[k] < |b.fs| == |b.out|
    ensures var o := b.out[b.model[k]];
            && o.margin == b.asg[k].margin
            && o.interchangeable == (if o.created && o.counterpart.None? then 0 else b.asg[k].interchangeable)
            && (if b.rows[k] == [] then o.best == None else o.best == Some(b.rows[k][0]))
            && (var onto := if o.counterpart.Some? then o.counterpart.value.id
                            else if o.transaction.Some? && !o.created then o.transaction.value.id else "";
                x in o.unchosen <==> exists c :: c in b.rows[k] && c.comparison == x && c.Id() != onto)
  {
    hide Finished, Filter, Apply;
    Placement(b, k);
    var row := b.rows[k];
    UnchosenMeans(row, "", x);
    if b.asg[k].candidate.Some? {
      UnchosenMeans(row, b.asg[k].candidate.value.Id(), x);
    }
  }

  lemma UnchosenMeans(row: seq<Candidate>, id: string, x: Comparison)
    ensures x in Unchosen(row, id) <==> exists c :: c in row && c.comparison == x && c.Id() != id
  {
    var p := (c: Candidate) => c.Id() != id;
    var kept := Filter(row, p);
    var out := Unchosen(row, id);
    if x in out {
      var i :| 0 <= i < |out| && out[i] == x;
      assert kept[i] in kept;
      FilterIn(row, p, kept[i]);
    }
    if c :| c in row && c.comparison == x && c.Id() != id {
      FilterIn(row, p, c);
      var i :| 0 <= i < |kept| && kept[i] == c;
      assert out[i] == x;
    }
  }

  /** The logarithm grows, and the probability of a weight is the one whose log-odds the weight is. */
  ghost predicate Logistic(pol: Policy) {
    && (forall x, y :: 0.0 < x < y ==> pol.lg(x) < pol.lg(y))
    && forall w :: 0.0 < pol.probability(w) < 1.0 && pol.lg(pol.probability(w) / (1.0 - pol.probability(w))) == w
  }

  lemma OddsGrow(p: real, q: real)
    requires 0.0 < p < q < 1.0
    ensures 0.0 < p / (1.0 - p) < q / (1.0 - q)
  {
    var a, b, d := p / (1.0 - p), q / (1.0 - q), Prod(1.0 - p, 1.0 - q);
    assert a * (1.0 - p) == p && b * (1.0 - q) == q && d > 0.0;
    assert a * d == p * (1.0 - q) && b * d == q * (1.0 - p);
    assert b * d - a * d == q - p;
    assert (b - a) * d > 0.0;
  }

  lemma ReachesReview(pol: Policy, w: real)
    requires Logistic(pol) && 0.0 < pol.review < 1.0
    ensures w >= NoMatchWeight(pol) <==> pol.probability(w) >= pol.review
    ensures w <= NoMatchWeight(pol) <==> pol.probability(w) <= pol.review
  {
    var p, r := pol.probability(w), pol.review;
    if p < r {
      OddsGrow(p, r);
    } else if r < p {
      OddsGrow(r, p);
    }
    assert 0.0 < p < 1.0;
  }

  /** Uncalibrated, the arrangement pairs nothing below the review threshold, and leaves nothing above it:
      a transaction stays unpaired only if every row offered to it that nobody else got is at most
      that probable. */
  lemma PairedFromReviewOn(b: Batch, k: nat, c: Candidate)
    requires Finished(b) && Logistic(b.pol) && 0.0 < b.pol.review < 1.0 && k < |b.model|
    ensures |b.model| == |b.asg| == |b.rows|
    ensures b.asg[k].candidate.Some? ==> b.asg[k].candidate.value.probability >= b.pol.review
    ensures b.asg[k].candidate.None? && c in b.rows[k]
            && (forall j :: 0 <= j < |b.asg| && b.asg[j].candidate.Some? ==> b.asg[j].candidate.value.Id() != c.Id()) ==>
              c.probability <= b.pol.review
  {
    hide AllAssessed, PlacedSoFar, SettledByRef, Effects, MarginIs, Logistic;
    var p, noMatch := Chosen(b.asg), NoMatchWeight(b.pol);
    if p[k].Some? {
      BestAboveNoMatch(b.rows, {}, noMatch, p, k);
      assert p[k].value in b.rows[k];
      ProbabilityOfWeight(b, k, p[k].value);
      ReachesReview(b.pol, p[k].value.weight);
    } else if c in b.rows[k] && forall j :: 0 <= j < |b.asg| && b.asg[j].candidate.Some? ==> b.asg[j].candidate.value.Id() != c.Id() {
      ProbabilityOfWeight(b, k, c);
      var q := p[k := Some(c)];
      assert Valid(b.rows, {}, q);
      ValueUpdate(p, noMatch, k, Some(c));
      ReachesReview(b.pol, c.weight);
    }
  }

  lemma ProbabilityOfWeight(b: Batch, k: nat, c: Candidate)
    requires Finished(b) && k < |b.model| == |b.rows| && c in b.rows[k]
    ensures c.probability == b.pol.probability(c.weight)
  {
    hide Solved, PlacedSoFar, SettledByRef, Effects, Listing, WithHeld, Assessed;
    var f := b.fs[b.model[k]];
    AssessedExactly(b.pol, WithHeld(b.windows[k], b.held, f), f, Ids(b.taken));
  }
}
