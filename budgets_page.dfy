/** The budgets page: a fixed list of budget cards, each with an unclamped
    spending percentage and the amount remaining, beside a spending summary
    of spent against limit. */
module BudgetsPage {
  import opened Sums
  import opened Ratios

  /** A card's budget; amounts in cents. */
  datatype PageBudget = PageBudget(category: string, maximum: int, current: int, theme: string)

  const Budgets: seq<PageBudget> := [
    PageBudget("Entertainment", 5000, 1500, "#277c78"),
    PageBudget("Bills", 75000, 15000, "#82c9d7"),
    PageBudget("Dining Out", 7500, 7500, "#F2CDAC"),
    PageBudget("Personal Care", 10000, 4500, "#626070")
  ]

  /** `current / maximum * 100`, which is also the bar's width. */
  function Percentage(b: PageBudget): Quantity {
    Percent(b.current, b.maximum)
  }

  /** `maximum - current`. */
  function Remaining(b: PageBudget): int {
    b.maximum - b.current
  }

  /** Spent and remaining always make up the maximum; the remainder is
      negative exactly when the budget is overspent, and then the bar is
      wider than 100%. */
  lemma CardArithmetic(b: PageBudget)
    requires b.maximum > 0
    ensures b.current + Remaining(b) == b.maximum
    ensures Remaining(b) < 0 <==> b.current > b.maximum
    ensures Exceeds(Percentage(b), 100) <==> Remaining(b) < 0
    ensures Equals(Percentage(b), 100) <==> Remaining(b) == 0
  {
    PercentAgainstHundred(b.current, b.maximum);
  }

  /** The summary as the page writes it: €385 spent of a €975 limit. */
  const SummaryAsWritten: (int, int) := (38500, 97500)

  function Spent(b: PageBudget): int { b.current }
  function Maximum(b: PageBudget): int { b.maximum }

  /** The summary computed from the cards: total spent against total
      limit. */
  function SpendingSummary(budgets: seq<PageBudget>): (int, int) {
    (SumBy(budgets, Spent), SumBy(budgets, Maximum))
  }

  /** The summary's spent and the cards' remainders add up to its limit. */
  lemma {:induction false} SummaryBalances(budgets: seq<PageBudget>)
    ensures SpendingSummary(budgets).0 + SumBy(budgets, Remaining) == SpendingSummary(budgets).1
  {
    if budgets != [] {
      SummaryBalances(budgets[..|budgets| - 1]);
    }
  }

  lemma BudgetsPrefixes()
    ensures Budgets[..4][..3] == Budgets[..3] && Budgets[..3][..2] == Budgets[..2]
    ensures Budgets[..2][..1] == Budgets[..1] && Budgets[..1][..0] == [] && Budgets[..4] == Budgets
  {
  }

  /** The cards spend €285 of €975: the written limit is the cards' total,
      the written spend is not. */
  lemma SummaryAsWrittenDisagrees()
    ensures SpendingSummary(Budgets) == (28500, 97500)
    ensures SummaryAsWritten.1 == SpendingSummary(Budgets).1
    ensures SummaryAsWritten.0 != SpendingSummary(Budgets).0
  {
    BudgetsPrefixes();
    var b := Budgets;
    assert SumBy(b[..1], Spent) == 1500 && SumBy(b[..1], Maximum) == 5000;
    assert SumBy(b[..2], Spent) == 16500 && SumBy(b[..2], Maximum) == 80000;
    assert SumBy(b[..3], Spent) == 24000 && SumBy(b[..3], Maximum) == 87500;
  }

  /** Dining Out is spent to the limit: its bar is exactly full and nothing
      remains. */
  lemma DiningOutAtLimit()
    ensures Budgets[2].category == "Dining Out"
    ensures Equals(Percentage(Budgets[2]), 100) && Remaining(Budgets[2]) == 0
  {
  }
}
