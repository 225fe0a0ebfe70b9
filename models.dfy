/** The records the application stores: the field lists of `Expense` and
    `FinancialOperation`. Amounts are `real` (the source uses `double`). */
module Models {
  import opened Common
  import opened Gregorian

  /** An expense; `id` is the identifier the store assigns on insertion. */
  datatype Expense = Expense(
    id: int,
    title: Option<string>,
    amount: real,
    date: DateTime,
    category: Option<string>,
    recurring: bool)

  /** A financial operation (expense or income). */
  datatype FinancialOperation = FinancialOperation(
    id: int,
    title: Option<string>,
    amount: real,
    date: DateTime,
    category: Option<string>,
    recurring: bool)
}
