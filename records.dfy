/** The four record kinds of the application, one per table. Money is in
    integer cents; nullable columns are `Option`s. */
module Records {
  import opened Wrappers

  /** A row of `transactions`. `createdAt` is the `created_at` timestamp that
      `latest()` orders by. */
  datatype Transaction = Transaction(
    name: string,
    category: string,
    amount: int,
    date: string,
    avatar: Option<string>,
    isIncome: bool,
    isRecurring: bool,
    createdAt: int)

  /** A transaction's amount, as a function value for sums. */
  function Amount(t: Transaction): int { t.amount }

  /** The flag the front end partitions transactions by. */
  predicate FlaggedIncome(t: Transaction) { t.isIncome }
  predicate FlaggedExpense(t: Transaction) { !t.isIncome }

  /** A row of `budgets`; `current` is the stored spend figure. */
  datatype Budget = Budget(category: string, maximum: int, current: int, theme: Option<string>)

  /** A row of `pots`. */
  datatype Pot = Pot(name: string, target: int, total: int, theme: string)

  /** A row of `recurring_bills`. `dueDay` holds the text of the string
      column `due_day`. */
  datatype RecurringBill = RecurringBill(
    name: string,
    amount: int,
    dueDay: string,
    status: string,
    logo: Option<string>,
    theme: string)
}
