/** The entities of budget/types.go and budget/linkage.go that the matcher reads and writes. */
module Budget {
  import opened Sums

  /** A calendar day, counted from an arbitrary one. */
  type Day = int

  /** A row of the budget. The identifier names it across every list it appears in. */
  datatype Transaction = Transaction(
    id: string,
    date: Day,
    amountCents: int,
    payeeName: string,
    notes: string,
    externalRef: string,
    importedPayee: string,
    cleared: bool,
    reconciled: bool,
    provisional: bool)

  /** What the bank delivered. */
  datatype ImportedFields = ImportedFields(
    date: Day,
    amountCents: int,
    payeeName: string,
    notes: string,
    externalRef: string,
    importedPayee: string,
    cleared: bool,
    identity: string)

  datatype PayeeLevel = PayeeMissing | PayeeNone | PayeeConflict | PayeeSubset | PayeeTruncated | PayeeFuzzy | PayeeExact

  datatype AmountLevel = AmountOutsideLower | AmountOutsideHigher | AmountLowerWithin | AmountHigherWithin | AmountExact

  datatype DateLevel = DateBeforeFar | DateAfterFar | DateBeforeNear | DateAfterNear | DateSame

  /** One row compared with one incoming transaction, field by field. */
  datatype Comparison = Comparison(payee: PayeeLevel, amount: AmountLevel, date: DateLevel, payeeFrequency: real)

  /** One row weighed against one incoming transaction; the weight is in bits. */
  datatype Candidate = Candidate(
    transaction: Transaction,
    comparison: Comparison,
    weight: real,
    probability: real,
    plausible: nat)
  {
    function Id(): string { transaction.id }
  }

  /** Settling onto either row would leave the same budget. */
  predicate Interchangeable(a: Transaction, b: Transaction) {
    && a.amountCents == b.amountCents
    && a.date == b.date
    && a.payeeName == b.payeeName
    && a.cleared == b.cleared
    && a.provisional == b.provisional
  }
}
