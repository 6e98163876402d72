# BankingSync: matching, importing and syncing, verified

BankingSync reads a bank's feed, decides which of its transactions a budget already holds, and
writes the rest. This project models the parts of it where a mistake is silent: the arrangement of
a batch against the budget, the estimators behind its weights, the import run with its identities
and its resume point, and the two wire-level refinements towards the budget backends. It proves
that they do what the code and its comments promise, and says exactly where they do not.

One file models one source file or one of its components. `dafny verify dfyconfig.toml` checks all
of them.

| file | what it models |
|---|---|
| Sums, Budget | finite sums and permutations; the entities |
| Hungarian | the assignment solver, with the duality argument that makes its answer optimal |
| Pairing | what a batch arrangement is, its value, and why groups that share no row can be arranged apart |
| Components, Arrange, Solve | the union-find, the padded square problem, the whole batch and its margins |
| Assess, Merge, Reconcile | hard rules and ranking, what an import writes onto a row, the batch as writes |
| Weighing, Decide | what a candidate weighs, said of the level tables; what a batch did with each transaction, said of the budget before and after |
| Refusal, Scale | when a calibration breaks the no-match promise; which linkage tables a batch may be run with |
| Calibration, Refit | the Brier decomposition and the refit of the level tables |
| ImportKeys, State | identities of rows without a reference, the records of one account |
| ImportSteps | one account's run as a state machine: every event that can happen, and what every run keeps |
| ImportRun | the run itself, which writes down a log of its events and is that machine |
| ImportRecords | what later runs recognise, by what earlier ones put on record |
| ImportTables | what a run leaves in each table of the records, by the last of its events to write there; authorisations over many runs |
| Wire, Proto, ApplyMessages | the sync codec and the grouped replay of sync messages |
| Paging | the client's page walk and half-open window against the server model |
| Balance | opening balance, expected total and drift |

Numbers are exact: weights, probabilities and table entries are reals, amounts are unbounded
integers, days are integers. The logarithm, the logistic, the payee comparison, payee
normalisation and the printing of days are parameters, constrained only where a lemma says so. A
call to a backend, to the local store or to the clock may come out either way at every point where
the code asks. The models keep note of calls that failed (`faulted`) and of the deadline (`expired`),
so that a failure or an interruption that is reported has one behind it.

A run of an account is stated twice. `Stepping` is the state machine: a row is skipped, confirmed,
refused or set aside, a batch is answered or fails, its answers are noted one by one, a question is
stored or not, the deadline comes. `Importing.Importer` is the code; it appends each of these events
to a log, and its contract is that the log is a legal run of the machine from the records it started
with to the records and fields it ends with. Whatever is proved of every run of the machine holds of
every import.

## What was found

- **The page limit of a server that reports no page count.** The walk then ends at an empty page
  only, so it lists one page less than with a count (`Paging.UncountedWalkIsListing`).
- **A calibrated threshold.** The comment at `noMatchWeight` says the arrangement never reaches for
  a pairing that would be refused. The no-match weight ignores the calibration that the
  probabilities go through: no solved batch holds a refused pairing exactly if the calibration does
  not lower that weight, and if it does, a lone row worth the no-match weight is paired and refused
  (`Refusing.ReachedNeverRefused`).
- **Unknown groups.** A decoder skips unknown varints, fixed words and length-delimited records, but
  it does not pass the field's number on, so an unknown group always fails the whole record
  (`Wire.GroupsNeverSkipped`, `Wire.EmptyGroup`).
- **Gaps among identical records.** Of the identical records without a reference that a run reaches,
  those recognised are the first as many as were on record when it started exactly if the recorded
  numbers have no gap there (`Recognising.IdenticalRecords`). A run opens a gap exactly if it finishes
  a record behind an identical one that it neither finished nor knew (`Recognising.GapsExactly`);
  holding the first of two and placing the second is such a run (`Recognising.GapAfterHold`).
- **A batch cut short.** Outcomes are noted up to the first row the deadline left undone, and what the
  matcher wrote for a row behind it goes unnoted (`Importing.Importer.PlaceBatch`). Unless another row
  of its reference was finished, such a booking is not recognised after the run and goes to the
  matcher again or through an authorisation; the resume point does not step over it
  (`Recognising.LeftUndone`).
- **A question that could not be stored.** The comment at `holdForReview` says the next run will offer
  the row again. It does not fail the run, so the resume point may step over it: every row before the
  resume point was dealt with in full exactly if no such row lies before it
  (`Stepping.ResumePointIsSafe`), a run has such rows exactly if storing a question failed
  (`Stepping.UnheldExactly`), and `Stepping.UnstoredIsPassed` is a run that steps over one.
- **An error after the commit.** `ApplyMessages` can report an error with the batch stored, namely
  when the cached names cannot be read again; every other error leaves the database as it was
  (`Replaying.BudgetCopy.ApplyMessages`).
- **A row that consumes a second key.** Only the last key a row consumed is on record, so an
  authorisation can come to be neither open nor settled and is given to the matcher again if the bank
  still lists it. While no row that consumed it consumes another, it never is
  (`Tracing.AuthorisationAskedOnce`); `Tracing.ForgottenIsAskedAgain` is a run in which it is.
- **Row identifiers with a separator.** A pending value reads back as written exactly if the row
  identifier is free of `|` (`Records.PendingValueReadsBack`).

## Model

| member | source | states |
|---|---|---|
| KuhnMunkres.CertificateOptimal | budget/assign.go:234-241 | weak duality: potentials that are feasible everywhere and tight on a permutation make it no dearer than any other permutation |
| KuhnMunkres.Workspace.Scan | budget/assign.go:260-274 | one pass over the columns keeps, for every unused column, the cheapest reduced edge from the tree and where it hangs, and finds the nearest column |
| KuhnMunkres.Workspace.Relabel | budget/assign.go:275-282 | the potentials move by delta across the boundary of the tree, in place, and nothing else changes |
| KuhnMunkres.RelabelStep | budget/assign.go:275-283 | after the move the potentials are still feasible, the tree is still tight, and the nearest column has joined it |
| KuhnMunkres.Workspace.Step | budget/assign.go:259-287 | one turn keeps the alternating tree and uses up a column, so the search ends |
| KuhnMunkres.Workspace.Grow | budget/assign.go:259-287 | the search ends at a free column with a tight path back to the row being seated |
| KuhnMunkres.FlipStep | budget/assign.go:288-292 | handing a column its predecessor's row keeps every other row seated and every seat tight |
| KuhnMunkres.Workspace.Flip | budget/assign.go:288-292 | flipping the path seats one more row and unseats none |
| KuhnMunkres.Workspace.Insert | budget/assign.go:250-293 | one phase turns a seating of i-1 rows into one of i, with feasible potentials tight on every seat |
| KuhnMunkres.ReadSeats | budget/assign.go:295-301 | the result names, for each row, the column it sits in |
| KuhnMunkres.SeatingCertifies | budget/assign.go:250-301 | a full seating, read off, is a permutation with its certificate |
| KuhnMunkres.Hungarian | budget/assign.go:241-302 | for every square matrix the result is a permutation of least total cost, certified by dual-feasible potentials tight on every matched edge |
| Arrangements.BestAboveNoMatch | budget/reconcile.go:1153-1161 | no best arrangement pairs below the no-match weight |
| Arrangements.BestByGroups | budget/assign.go:44-54 | groups that share no row, each arranged at its best, make up a best arrangement of the whole batch: no row is used twice anywhere |
| Arrangements.ValueByGroups | budget/assign.go:44-54 | the evidence of a batch is the sum over its groups |
| Competition.Forest.Find | budget/assign.go:68-74 | path halving ends and changes no element's representative |
| Competition.Forest.Union | budget/assign.go:75-79 | two representatives become one, every other stays |
| Competition.SameAlongChain | budget/assign.go:63-104 | what linked transactions share is shared along any chain |
| Competition.Join | budget/assign.go:81-90 | after the joins two transactions have one representative exactly if a chain of shared candidates links them |
| Competition.Components | budget/assign.go:63-104 | the groups partition the batch, and two transactions share one exactly if a chain of shared candidates links them |
| Padding.PermutationFor | budget/assign.go:173-206 | every valid arrangement is read off some permutation of the padded problem that uses no unavailable edge |
| Padding.ReadValid | budget/assign.go:208-231 | whatever permutation the solver returns reads as an arrangement that uses no row twice and no banned edge |
| Padding.OptimalAvailable | budget/assign.go:181-206 | an optimal permutation uses no unavailable edge, for weights above the negated sentinel |
| Padding.OptimalIsBest | budget/assign.go:173-232 | the padded problem is exact: its optimum reads as an arrangement of maximum evidence, and the totals agree |
| Padding.PriceRow | budget/assign.go:191-206 | one row of the cost matrix is priced in place and no other is touched |
| Padding.Arrange | budget/assign.go:173-232 | a component's arrangement has maximum evidence over all injective pairings along offered, unbanned edges, and the total is that evidence |
| Solving.ColumnsFor | budget/assign.go:153-166 | every row offered to the component has exactly one column |
| Solving.BannedColumns | budget/assign.go:141-147 | the banned columns are those of the candidates that cannot be told from the chosen one, and their number is counted |
| Solving.SolveComponent | budget/assign.go:106-151 | every member gets its row and margin, and nobody outside the component is touched |
| Solving.LiftMargin | budget/assign.go:121-149 | the margin found inside a component is the margin of the whole batch |
| Solving.Solve | budget/assign.go:44-54 | the result is a best arrangement of the whole batch with every margin equal to the drop in the batch's best total when the chosen row and its twins are forbidden |
| Solving.MarginBounds | budget/assign.go:115-150 | 0 <= margin <= weight - noMatch for every pairing |
| Solving.MarginIsWhatIsSeen | budget/assign.go:121-149 | the margin is what the batch loses at least in any arrangement that leaves the transaction unpaired or gives it a row differing in one of those five fields, some arrangement loses no more, and interchangeable counts the offered rows equal to the chosen one in all five |
| Solving.ZeroMarginIsFreeChoice | budget/assign.go:121-133 | a margin is zero exactly if some best arrangement leaves the transaction unpaired or gives it a row that differs from the chosen one in amount, day, payee, cleared or provisional |
| Assessing.AssessedExactly | budget/reconcile.go:1060-1138 | the candidates are exactly the unclaimed, adoptable, not already booked, unsealed rows, each as often as listed |
| Assessing.RankingUnique | budget/reconcile.go:1140-1150 | two rankings of the same candidates with distinct identifiers are one list |
| Assessing.AssessedOrderFree | budget/reconcile.go:1060-1152 | the ranked result does not depend on the order the rows are listed in |
| Assessing.CompanyCostsNothing | budget/reconcile.go:1082-1130 | any number of rows with no positive field evidence leaves the other candidates' weights, probabilities and order alone |
| Assessing.SortCandidates | budget/reconcile.go:1140-1150 | the loop sorts by weight, distance in days and identifier |
| Assessing.CountPlausible | budget/reconcile.go:1110-1126 | the rows the evidence has not dismissed are counted, and at least one |
| Assessing.Narrow | budget/reconcile.go:1066-1078 | the loop keeps the rows no hard rule excludes |
| Assessing.Assess | budget/reconcile.go:1060-1152 | the whole assessment is the ranked list the lemmas speak of |
| Assessing.LexLessMeans | budget/reconcile.go:1140-1150 | identifiers are ordered by the first character they differ in, a prefix first |
| Weighing.AmountLevels | budget/linkage.go:188-210 | when two amounts fall into each of the five levels: equal, or within or outside a tolerance that a percentage of the larger and a number of cents both bound, the booking being larger or not |
| Weighing.DateLevels | budget/linkage.go:212-230 | when two days fall into each level: the same, up to three days or more, after or before |
| Weighing.PayeeLevels | budget/reconcile.go:1104-1122 | the payee level is the comparison's, and the payee's frequency is asked for an exact agreement only |
| Weighing.WeighsWhatItTells | budget/linkage.go:397-442 | a candidate weighs the prior odds of its share of the plausible rows, and the bits of its payee, amount and day levels with the payee's rarity, all read off the tables |
| Weighing.PlausibleCounts | budget/reconcile.go:1110-1126 | the plausible rows are the offered ones whose fields add up to more than nothing, and at least one |
| Weighing.OneFieldApart | budget/linkage.go:397-406 | two candidates alike in all but their amount, day or inexact payee differ in weight by exactly the difference of what the two levels tell |
| Weighing.RarerWeighsMore | budget/linkage.go:466-485 | for an exact payee the weight moves with the measured frequency by the logarithm of the base rate over it, the rarer payee weighing more |
| Weighing.CompanyCostsItsLogarithm | budget/linkage.go:408-452 | among n plausible rows a candidate weighs the logarithm of n less than among one |
| Weighing.OfferedInOrder | budget/reconcile.go:1140-1150 | the heavier is offered first, of equally heavy rows the nearer, of those the smaller identifier |
| Weighing.BetterAttestedFirst | budget/linkage.go:397-406 | of two offered rows alike in all but one field the one whose level has the greater ratio of match to chance is offered first |
| Merging.MergeRespects | budget/reconcile.go:789-836 | a reconciled row is left alone, any other ends at the bank's amount, and nothing a person wrote or cleared is lost |
| Merging.MergedFields | budget/reconcile.go:789-836 | what a row that is not reconciled ends as, field by field: whose amount, payee, notes, reference and spelling it carries |
| Merging.MergeIdempotent | budget/reconcile.go:789-880 | delivering the same transaction again changes nothing |
| Refusing.ReachedNeverRefused | budget/reconcile.go:1153-1164 | with the review threshold at the probability of the no-match weight, no solved batch holds a pairing that is refused if and only if the calibration does not lower the no-match weight; otherwise the lone row worth that weight is one |
| Scaling.ReasonableIsSane | budget/linkage.go:397-493 | with a logarithm to base two, and tables, overlap, review threshold and number of rows within a factor of 2^k of their range, k up to a hundred million, no row a batch may be offered weighs as little as the negated sentinel |
| Reconciling.ApplyImported | budget/reconcile.go:842-857 | the chosen row, if it is there, ends merged, and no other row changes |
| Reconciling.SettleByReference | budget/reconcile.go:131-150 | references settle their rows one by one and leave the others to the arrangement, a failure in between included |
| Reconciling.AssessAll | budget/reconcile.go:157-173 | every transaction left is weighed against its own window and the held authorisations, less the rows taken |
| Reconciling.PlaceOne | budget/reconcile.go:203-295 | one decision becomes at most one write, and the outcome says which |
| Reconciling.PlaceAll | budget/reconcile.go:187-300 | decisions are written in order until the deadline, each on a row nobody else has |
| Reconciling.ReconcileBatch | budget/reconcile.go:127-302 | the outcomes account for every change of the budget, whether the batch succeeds or fails midway, and it fails only if the backend does; a transaction goes to the arrangement exactly if no row carries its reference, and is weighed against the rows as the references left them |
| Reconciling.BatchConserves | budget/reconcile.go:127-302 | the budget gains exactly one row per created outcome and loses none |
| Reconciling.BatchAmounts | budget/reconcile.go:127-302 | adopted rows end at the incoming amount, reconciled rows and rows no outcome names are untouched |
| Reconciling.AdoptedRowsApart | budget/reconcile.go:127-302 | after any finished batch, a row adopted through the arrangement was not claimed, not settled by reference and is no other transaction's |
| Reconciling.UnplacedWroteNothing | budget/reconcile.go:187-195 | a transaction is done exactly if the deadline left time for it, and one that is not has written nothing |
| Deciding.AdoptedExactly | budget/reconcile.go:1191-1205 | of a finished batch: a transaction is merged into its paired live row exactly if the pairing's probability reaches the review and the automatic threshold and its margin the asked-for bits |
| Deciding.SettledExactly | budget/reconcile.go:592-599 | a held authorisation is settled on exactly the same terms, by a row created on its day and with its notes if it has any |
| Deciding.AskedExactly | budget/reconcile.go:1191-1205 | a person is asked exactly if that is switched on and the pairing reaches the review threshold but misses the automatic one or the margin; then nothing is written and every weighed row is put to the person |
| Deciding.CreatedOtherwise | budget/reconcile.go:240-295 | in every other case a row is created as the bank delivered the transaction |
| Deciding.ReferenceFirst | budget/reconcile.go:131-150 | a transaction goes to the arrangement exactly if it carries no reference or no row had it, and any other is merged into a row that had its reference |
| Deciding.OfferedExactly | budget/match.go:8-25 | the rows offered are exactly the live rows from seven days before to the seventh day after and, for a booking, the unconfirmed held authorisations of those days, less those claimed or settled, confirmed under another reference, booked already or sealed |
| Deciding.OutcomeReports | budget/reconcile.go:369-390 | an outcome reports the pairing's margin and number of interchangeable rows, the heaviest row and the comparisons of exactly the rows it was not settled onto |
| Deciding.PairedFromReviewOn | budget/reconcile.go:1153-1164 | uncalibrated, the arrangement pairs nothing below the review threshold and leaves no free row above it |
| Calibrating.BinIndex | budget/calibration.go:76-85 | the index is a column of the diagram |
| Calibrating.BinHolds | budget/calibration.go:76-102 | a probability below one lies within its column's bounds |
| Calibrating.SumByBins | budget/calibration.go:94-119 | the columns partition the observations: any sum over them is the sum over the columns |
| Calibrating.Reliability | budget/calibration.go:94-119 | each column holds its count, mean forecast and observed rate |
| Calibrating.ColumnSplits | budget/calibration.go:198-220 | the squared errors of one column split over its gap, lift, spread and covariation |
| Calibrating.BrierDecomposes | budget/calibration.go:121-169 | the five terms add up to the score for every set of observations, number of columns and calibration |
| Calibrating.Brier | budget/calibration.go:172-224 | the accumulated values are those terms, and Score = Reliability - GeneralisedResolution + Uncertainty |
| Refitting.TotalCount | budget/refit.go:106-109 | the loop over the levels, in any order, adds up their counts |
| Refitting.Posterior | budget/refit.go:102-116 | the loop computes the posterior mean of every level of the prior |
| Refitting.PosteriorDistribution | budget/refit.go:102-116 | from a strictly positive table summing to one and counts on its levels it is such a table again, and the prior itself without observations |
| Refitting.UnobservedDrift | budget/refit.go:127-132 | a level neither side has seen drifts from its shipped ratio by (alpha+U)/(alpha+M), so exactly if the two totals differ |
| Refitting.PosteriorExcluding | budget/refit.go:200-226 | the loops estimate the other levels among themselves and scale them into the mass the pinned one leaves |
| Refitting.ExcludingDistribution | budget/refit.go:187-226 | the result is a strictly positive table summing to one, and the pinned level keeps its mass exactly |
| Refitting.Classify | budget/refit.go:286-316 | the loop sorts the levels into pinned, observed and held with their masses |
| Refitting.RestoreRatios | budget/refit.go:321-325 | each held level gets the share that puts it at its shipped ratio |
| Refitting.Rescale | budget/refit.go:335-344 | held levels take their restored share, the pinned one stays and the others are scaled, in place |
| Refitting.HoldUnobservedRatio | budget/refit.go:283-345 | the rule as a whole, standing down when nothing is held, nothing observed or nothing left |
| Refitting.HoldKeeps | budget/refit.go:228-345 | the rule keeps a distribution one, leaves the pinned level alone and puts every level it holds at exactly its shipped m/u ratio |
| Refitting.RefitField | budget/refit.go:185-192 | both sides of a field are refitted together |
| Refitting.RefitKeeps | budget/refit.go:173-192 | a refitted field is well-formed, the pinned level keeps its mass on both sides, and held levels sit at their shipped ratio |
| Refitting.UnlabelledFieldIsShipped | budget/refit.go:121-126 | a field no label reached keeps its shipped match side whatever the other side saw, and with nothing seen the shipped tables come back |
| Refitting.Refit | budget/refit.go:136-152 | the refitted linkage is well-formed, an absent payee keeps its mass on both sides, and no observations return the base itself |
| Refitting.RefitExactly | budget/refit.go:173-345 | from tables and counts alone: if some unpinned level is not silent and the pinned mass and the silent levels' refitted u at their shipped ratios leave room, every silent level ends at exactly its shipped ratio and the others keep the proportions of their plain posterior; otherwise the match side is the plain posterior |
| Keying.CentsRoundTrip | main.go:1771-1778 | an amount is read back from its printed form, so no two print alike |
| Keying.BaseApart | main.go:289-291 | two rows share a key's base exactly if they agree on day, amount and normalised payee |
| Keying.PayeeSpellings | main.go:418-440 | spellings the normalisation does not tell apart make one payee of a key, and those it does tell apart make two if free of the separator |
| Keying.CounterApart | main.go:292-299 | the counter's key tells status and base apart, whatever the status holds |
| Keying.ImportKeys | main.go:270-304 | the loop gives every row its reference or its numbered base, and counts the rows the earlier keys would have run together |
| Keying.NumberCounts | main.go:292-301 | a row's number is one more than the rows before it that agree on status, day, amount and payee |
| Keying.KeysApart | main.go:246-269 | rows without a reference and of one status have pairwise distinct keys |
| Keying.KeysMeet | main.go:257-269 | two rows without a reference share a key exactly if they agree on day, amount and normalised payee and are the same-numbered such row within their own status |
| Keying.KeysOrderFree | main.go:257-269 | listing the rows in another order gives each status the same keys |
| Keying.TxnIdentities | main.go:2142-2153 | the loop numbers the records of each content |
| Keying.IdentitiesApart | main.go:2142-2153 | two rows share an identity exactly if neither has one |
| Records.PendingValueReadsBack | state.go:146-164 | a pending value splits into the row and day it was made of exactly if the row identifier is free of the separator |
| Records.Account.SetPending | state.go:156-163 | the authorisation is recorded under its key and nothing else changes |
| Records.Account.DeletePending | state.go:166-171 | the key is gone and nothing else changes |
| Records.Account.FindPendingKeyByTxnID | state.go:173-180 | a key whose authorisation is that row is found exactly if there is one |
| Records.Account.AddImportedRef | state.go:202-208 | the reference is on record |
| Records.Account.RecordBooked | state.go:282-295 | the row is booked, and an empty key does not overwrite the one it consumed |
| Records.ConsumedAfterBooking | state.go:282-314 | a consumed key stays consumed unless its own row consumes another |
| Records.Account.Consumed | state.go:304-314 | the loop finds the key exactly if some row consumed it |
| Records.Account.RecordIdentity | state.go:334-343 | the identity names the row from here on |
| Records.Account.Seals | state.go:362-377 | the loop gathers each row's identities and the latest day among them |
| Records.SealedExactly | state.go:362-384 | a row is sealed to an identity exactly if it was booked, for other records only, all from before the cutoff |
| Stepping.LessTxnWeak | main.go:1824-1838 | the order of the feed chains, so sorting by it is meaningful |
| Stepping.FeedInOrder | main.go:1824-1838 | what that order is: the day, then authorisations before bookings, then amount, payee and reference |
| Stepping.SortTxns | main.go:1207-1215 | the feed is put in that order, nothing is lost or added, and rows the order does not tell apart stay as listed |
| Stepping.ListedPendingKeys | main.go:346-356 | the keys under which the bank still lists an authorisation |
| Stepping.SettledGains | main.go:2049-2091 | settling puts exactly the booking's reference and identity on record, and nothing for an authorisation |
| Stepping.RecognitionDecides | main.go:1419-1508 | a recognised row is skipped whatever else is known, and a booking is skipped only for that, for a pending question or for a zero amount |
| Stepping.ConfirmedRowEnds | main.go:1516-1534 | an authorisation's row that is not reconciled ends at the booked amount and cleared, a reconciled one keeps its amount and, if the enrichment went through, everything else |
| Stepping.ProgressKept | main.go:1264-1585 | every event keeps the queue in feed order and the resume point behind all that waits or was not dealt with |
| Stepping.FollowedKept | main.go:1398-1585 | every event keeps this: each row reached got what the records and known rows said when it was reached |
| Stepping.RememberedKept | main.go:2035-2091 | every event keeps this: records only grow, finished bookings are on record, and what a run knew at a row is what it started with and identities of rows before it |
| Stepping.InvHolds | main.go:1387-1615 | all of this holds after every run, whatever happens in it |
| Stepping.HandledExactly | main.go:1324-1376 | a row counts as dealt with in full exactly if it was skipped, confirmed, placed and noted, or its question stored; as finished exactly if it was confirmed or its placement noted |
| Stepping.UnheldExactly | balance.go:716-725 | there is a row whose question is nowhere exactly if storing a question failed |
| Stepping.ResumePointIsSafe | main.go:1571-1601 | without a write failure, every row dated strictly before the resume point was dealt with; all in full exactly if no unstored question lies before it |
| Stepping.UnstoredIsPassed | balance.go:716-725 | a run whose resume point steps over a question that could not be stored |
| Stepping.SyncedIsComplete | main.go:1602-1604 | a run that ended normally dealt with every row, in full if every question could be stored |
| Recognising.NeverQueuedAgain | main.go:1480-1508 | over any number of later runs that retain the records, a booking whose placement was noted or that was confirmed is recognised when delivered again, under its reference or its content identity, and never queued for the matcher |
| Recognising.FirstOnesRecognised | main.go:1499-1508 | the recorded numbers of k identical records are the first min(k, recorded) if and only if no recorded number lies above an unrecorded one of the k |
| Recognising.NumbersEnd | state.go:334-343 | past some number nothing of a content is recorded, so there is such a count |
| Recognising.RecognisedFromStart | main.go:1499-1508 | a booking without a reference is recognised when a run reaches it exactly if its identity was on record when the run started |
| Recognising.IdenticalRecords | main.go:1499-1508 | of the identical records a run reaches, the recognised ones are the first as many as were on record when it started if and only if those have no gap |
| Recognising.RecordsExactly | main.go:2035-2091 | a run puts on record exactly the references and identities of the bookings it finished |
| Recognising.RecognisedAfter | main.go:1480-1508 | a booking is recognised after a run exactly if it was before, or the run finished it or another row of its reference |
| Recognising.LeftUndone | main.go:1324-1334 | a queued booking that was not finished is not recognised after the run and not skipped by the next one; the resume point has not stepped over it unless its question could not be stored |
| Recognising.GapsExactly | main.go:1340-1376 | a run leaves a gap among identical records exactly if it finished one behind another that it neither finished nor knew |
| Recognising.GapAfterHold | main.go:1340-1346 | holding the first of two identical records and placing the second is a complete run after which the second is recognised and the first is not |
| Tracing.PendingExactly | main.go:2035-2091 | after a run an authorisation is pending as a row exactly if it was and no event consumed it, or the run noted it created as that row and no event consumed it since |
| Tracing.AdoptionConsumesOne | main.go:2083-2087 | a booking that adopts a row consumes one authorisation pending as that row, if there is one, and leaves all others open |
| Tracing.BookedExactly | state.go:282-295 | after a run a row is booked under a key exactly if that is the key the last event to book it under one left it with |
| Tracing.HeldExactly | main.go:1340-1362 | a question is stored after a run exactly if it was or the run stored it, and no placement released it since |
| Tracing.IdentityNames | state.go:334-343 | after a run an identity names the row that the last booking of it was finished as |
| Tracing.ReferenceDay | state.go:202-208 | after a run a reference is on record with the day of the last booking of it that was finished |
| Tracing.ResumeExactly | main.go:1571-1585 | the resume point is the day of the last row that moved it: one noted as placed, or, with nothing waiting, one confirmed or an authorisation still open |
| Tracing.ReachingDecides | main.go:1398-1577 | a row is set aside, confirmed, refused or skipped by exactly what the records and known rows say when it is reached |
| Tracing.KnownIsPassedOver | main.go:1451-1478 | an authorisation open or settled when a run starts is skipped wherever the feed lists it, unless the run forgets it by letting its row consume another key |
| Tracing.AuthorisationAskedOnce | main.go:1451-1478 | over any number of later runs an authorisation whose creation was noted is never queued again, as long as no row that consumed it consumes another key |
| Tracing.ForgottenIsAskedAgain | state.go:282-295 | a run that confirms a booking through a row that had consumed another authorisation, which is then given to the matcher again although it was settled |
| Tracing.BookingConfirms | main.go:1509-1554 | the booking of an authorisation open as a known row, no longer listed and not recognised, is confirmed through that row or refused by the backend; confirmed, that row consumes the key and ends as the booking merged into it, or failing that with its amount and cleared |
| Importing.Importer.constructor | main.go:1207-1244 | a run starts from the sorted feed, its keys and identities, with an empty queue and an empty log |
| Importing.Importer.Settle | main.go:2035-2091 | the records after a placement, for each kind of work; a booking consumes an open authorisation written as the row it adopts, if there is one |
| Importing.Importer.Place | main.go:1347-1362 | placing notes the row and closes a held authorisation it stands in for |
| Importing.Importer.PlaceOne | main.go:1324-1376 | a held row is put by under its key and does not move the resume point; a placed one is noted in the records and moves it to its own day |
| Importing.Importer.PlaceBatch | main.go:1324-1377 | the answers are noted one by one in order, all of them or up to the first row left undone, where the run is interrupted and the rest of the queue given up |
| Importing.Importer.Flush | main.go:1264-1378 | the queue is emptied: a failed batch is a write failure and changes no record, any other is answered and noted |
| Importing.Importer.HandleAuthorisation | main.go:1451-1478 | an authorisation reaches the matcher exactly if it is neither settled nor already pending |
| Importing.Importer.Confirm | main.go:1546-1552 | a confirmed booking consumes its key and goes on record |
| Importing.Importer.Rewrite | main.go:1516-1534 | the authorisation's row ends as ConfirmedRow says; a refused write leaves it at most with the amount corrected |
| Importing.Importer.SettleAuthorisation | main.go:1516-1554 | its row is rewritten and the booking goes on record, or the run has a write failure and the records stay |
| Importing.Importer.HandleBooking | main.go:1480-1577 | a booking is skipped exactly if the records recognise it; one whose authorisation's row is known is confirmed or a write failure, any other is queued |
| Importing.Importer.HandleRow | main.go:1398-1585 | one event for the row, which the records and known rows at that moment decide, and a batch after it only if the row filled the queue |
| Importing.EndingPromises | main.go:1588-1604 | what the ending lets the next run rely on holds of every run of the machine |
| Importing.Importer.Run | main.go:1387-1615 | the log is a run of the machine to its end, records, rows and ending are what it makes them, an interruption has a deadline behind it and a failure a failed call; ended normally every row was dealt with, cut short every row dated strictly before the resume point |
| Wire.VarintRoundTrip | actual/proto.go:36-39 | every 64-bit value is read back whatever follows (Protocol Buffers encoding, section Base 128 Varints) |
| Wire.VarintWithin64 | actual/proto.go:64-70 | no read value leaves 64 bits |
| Wire.VarintDigits | actual/proto.go:36-39 | a varint carries its value seven bits a byte, the lowest first, with the top bit on all bytes but the last and no byte too many |
| Wire.FieldRoundTrip | actual/proto.go:26-39 | every field is read back whatever follows (section Length-Delimited Records) |
| Wire.ParseWritten | actual/proto.go:26-39 | fields written one after the other are read back as written |
| Wire.GroupsNeverSkipped | actual/proto.go:72-78 | skipping without the field's number refuses every group |
| Wire.EmptyGroup | actual/proto.go:72-78 | an empty group that its own number would skip is refused |
| Wire.SkipAgrees | actual/proto.go:72-78 | skipping consumes and fails exactly as reading does |
| Wire.UnknownIgnored | actual/proto.go:119-121 | unknown fields change nothing, wherever they stand |
| Protocol.EncodeMessage | actual/proto.go:88-95 | the bytes are those of the four fields in order |
| Protocol.EncodeEnvelope | actual/proto.go:134-140 | the bytes are those of timestamp, flag and content |
| Protocol.MessageBytes | actual/proto.go:88-95 | the bytes of a message with short fields, tag by tag |
| Protocol.EnvelopeBytes | actual/proto.go:134-140 | the bytes of an envelope with short fields, tag by tag |
| Protocol.EncodeRequest | actual/proto.go:181-193 | the bytes are those of the envelopes and identifiers |
| Protocol.RequestReadsBack | actual/proto.go:181-193 | a request's fields and envelopes are read back in order, the key identifier only if there is one |
| Protocol.DecodeMessage | actual/proto.go:97-125 | the loop ends and is the fold of the record's fields, or fails exactly if the record is not a sequence of fields |
| Protocol.DecodeEnvelope | actual/proto.go:142-171 | the same for an envelope |
| Protocol.DecodeSyncResponse | actual/proto.go:202-234 | the same for a response, which also fails on an unreadable envelope |
| Protocol.MessageRoundTrip | actual/proto.go:88-125 | a message is read back for all field values, with any unknown fields in between |
| Protocol.EnvelopeRoundTrip | actual/proto.go:134-171 | the same for an envelope |
| Protocol.ResponseRoundTrip | actual/proto.go:202-234 | the same for a response of any number of envelopes |
| Protocol.GetMessages | actual/proto.go:238-252 | every message is returned in order, exactly if no envelope is encrypted and every one is readable |
| Protocol.SyncRoundTrip | actual/proto.go:88-263 | messages wrapped, enveloped and sent as a response come out as they went in |
| Replaying.ValueRoundTrip | actual/db.go:388-406 | a cell is read back as it was written |
| Replaying.LastWriterWins | actual/db.go:195-266 | applied in order, a batch leaves in every cell what the last message that writes it gave it |
| Replaying.NoWriterKeeps | actual/db.go:195-266 | a cell that no message writes holds what it held |
| Replaying.RowsWritten | actual/db.go:195-266 | a row is there exactly if it was or some message writes a cell of it |
| Replaying.GroupingIsOrderly | actual/db.go:200-212 | grouping by row and upserting each row once leaves the database that applying the messages one at a time in order leaves |
| Replaying.Group | actual/db.go:200-212 | the loop collects the last value of every cell, and the rows in order of first appearance |
| Replaying.BudgetCopy.ApplyChange | actual/db.go:334-370 | an upsert of the safely named cells, or nothing |
| Replaying.BudgetCopy.Store | actual/db.go:225-258 | every group is upserted into the transaction, or it fails, on an unsafe table name always |
| Replaying.BudgetCopy.ApplyMessages | actual/db.go:195-266 | the batch ends as if applied message by message with prefs, unknown tables and unknown columns dropped, or the database is unchanged, which happens only for an unsafe table name or a failed call |
| Replaying.BudgetCopy.FlushChanges | actual/db.go:85-89 | the queue is drained |
| Replaying.BudgetCopy.RestoreChanges | actual/db.go:91-96 | undelivered changes go back in front of newer ones |
| Paging.GetPaged | firefly/client.go:151-193 | whatever the server answers, at most 100 pages are asked for; the walk is cancelled exactly if it needs more pages than there was time for, and otherwise the result is the pages in order |
| Paging.Paginate | firefly/fireflytest/server.go:418-437 | the slice and the page count |
| Paging.WalkIsListing | firefly/client.go:151-193 | against the server model the listing is returned once and in order, for every page size, exactly if at most 100 pages are needed |
| Paging.UncountedWalkIsListing | firefly/client.go:182-191 | without a page count the same holds for 99 pages |
| Paging.GroupTouchesAccount | firefly/fireflytest/handlers.go:476-483 | some split has the account on either side |
| Paging.MatchingAre | firefly/fireflytest/handlers.go:169-185 | a group is listed exactly if the server has it, some split has the account on either side and its first split is dated in the closed range |
| Paging.MatchingInOrder | firefly/fireflytest/handlers.go:169-185 | the listing keeps the server's order and lists no group more often than it is there |
| Paging.Server.HandleAccountTransactions | firefly/fireflytest/handlers.go:146-201 | the page of the groups in the closed range, or a refusal if the range does not end after it starts |
| Paging.RowsOfMatching | firefly/store.go:194-205 | the half-open window's rows are the same whether read from the wider closed range or from all groups |
| Paging.RowsAre | firefly/store.go:217-245 | a row is returned exactly if a group with one split, the account on either side of it and a day in [from, to) reads as it |
| Paging.RowsInOrder | firefly/store.go:217-245 | the rows keep the groups' order, at most one a group |
| Paging.ReadRows | firefly/store.go:217-245 | the loop keeps single-split groups of the account and drops what the widening let in |
| Paging.ListTransactions | firefly/store.go:173-246 | exactly the single-split groups touching the account dated in [from, to), once and in order, one-day and empty windows included, exactly if the pages suffice and every such group asked for is readable |
| Balancing.OpeningCents | balance.go:357-374 | the loop takes the counted entries up to the balance's cut off the balance |
| Balancing.PendingCents | balance.go:388-396 | the loop adds up the pending entries |
| Balancing.ExpectedTotal | balance.go:378-383 | the balance with the pending entries it does not contain |
| Balancing.BalancesMean | balance.go:357-396 | both as sums: over the entries the balance is made of, pending ones only if it includes them, dated up to its day or today; and over the pending entries it does not include |
| Balancing.Drift | balance.go:346-396 | whatever part of the statement was imported, the drift is the counted entries dated after the cut less the entries that did not arrive |
| Balancing.CompleteImport | balance.go:346-396 | a complete import shows no drift exactly if the counted entries after the cut cancel out, as they do when there are none |
| Balancing.OpeningDate | balance.go:400-408 | the day before everything fetched and the window's start, and no earlier |

## Left out

- Rounding, overflow and special values of floating point; integer overflow at 64 bits. Infinite margins and unset distances are an extra top element. A review threshold of exactly 100% is outside the domain.
- Logarithm, logistic, payee comparison, normalisation and title case: parameters, so nothing is claimed about their values.
- Budget rows are values with identifiers, not shared objects; a write returns the new row.
- Library sorts are replaced by insertion sorts with the same comparison.
- Solving.Solve: asks for distinct candidate identifiers within one transaction's row and for weights and a no-match weight above -1e9, where the padding's sentinel lies.
- Reconciling.ReconcileBatch: asks for bank references that differ within the batch, for held authorisations whose identifiers no budget row has, and for tables that leave every weight above the sentinel for as many rows as there are, as Scaling.ReasonableIsSane shows of ordinary ones. Traces, near-miss reports, the shadow pass and the booked-twin report are not modelled. The deadline is the number of placements there is time for.
- Importing.Importer.Match: the batch matcher inside a run is any outcome that leaves a row undone only once the deadline has passed, which is what Reconciling.UnplacedWroteNothing proves of the batch.
- Importing.Importer.Run: keys from before v3 and the transaction identifier as a reference are not modelled, nor is the list of rows claimed so far, which is an input of the matcher; writes to the local store succeed, except that storing a question may fail.
- Keying.KeysOrderFree: assumes days print apart from each other and without the separator, as Keying.Faithful says.
- Replaying.BudgetCopy.ApplyMessages: asks for batches without a message on the id column, whose statement would name the column twice; tables are maps by row, and a new row holds only the cells it was given.
- Paging.GetPaged: the listing does not change between pages; retries, redirects and decoding of replies are part of the request that succeeds or fails.
- Paging.Server.HandleAccountTransactions: both ends of the range are given; a request without one, or with one that is not a day, is not modelled.
- Paging.ListTransactions: the conversion of a group is a parameter that keeps the group's day; groups whose day cannot be parsed are not modelled.
- The wire library that the codec calls is not part of the repository; the wire model follows the Protocol Buffers encoding specification and the limits of 64-bit varints and field numbers.
- Expected calibration error, hold-out splitting, Platt's fit, near misses, review decisions, pruning of records, HTTP, mail, TLS, OAuth, the web interface and telemetry.
- Opening-balance states in the local store and the drift notification's two-run rule.
