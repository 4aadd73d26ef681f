/** The application has two rules for what counts as income: the back end's
    budget listing counts a negative amount as spending, while the front
    end's cards, chart and list go by the `is_income` flag, which the
    transaction API never sets. This module states how they part ways. */
module IncomeRepresentations {
  import opened Requests
  import opened Records
  import TransactionController
  import BudgetController
  import SummaryCards
  import RecentTransactions

  /** A transaction stored through the API with a positive amount is
      unflagged: the expenses card grows by its amount and it is listed
      without `+`, yet no budget's reported spending changes. */
  lemma StoredPositiveAmount(txs: seq<Transaction>, req: Request, now: int, b: Budget)
    requires CentsOf(Get(req, "amount")) > 0
    ensures var t := TransactionController.NewTransaction(req, now);
      && SummaryCards.Expenses(txs + [t]) == SummaryCards.Expenses(txs) + t.amount
      && SummaryCards.Income(txs + [t]) == SummaryCards.Income(txs)
      && RecentTransactions.Prefix(t) == ""
      && BudgetController.Reported(b, txs + [t]).current == BudgetController.Reported(b, txs).current
  {
    var t := TransactionController.NewTransaction(req, now);
    SummaryCards.OneMoreTransaction(txs, t);
    BudgetController.UnrelatedTransaction(b, txs, t, []);
    assert txs + [t] + [] == txs + [t];
    assert txs + [] == txs;
  }

  /** A negative amount under a budget's category raises that budget's
      reported spending by its magnitude, and since the API leaves it
      unflagged it also lowers the expenses card. */
  lemma StoredNegativeAmount(txs: seq<Transaction>, req: Request, now: int, b: Budget)
    requires CentsOf(Get(req, "amount")) < 0
    requires TextOf(Get(req, "category")) == b.category
    ensures var t := TransactionController.NewTransaction(req, now);
      && SummaryCards.Expenses(txs + [t]) < SummaryCards.Expenses(txs)
      && BudgetController.Reported(b, txs + [t]).current == BudgetController.Reported(b, txs).current - t.amount
  {
    var t := TransactionController.NewTransaction(req, now);
    SummaryCards.OneMoreTransaction(txs, t);
    BudgetController.SpendingTransaction(b, txs, t);
  }
}
