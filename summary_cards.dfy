/** The three dashboard cards: income, expenses and balance, computed from
    the `is_income` flag of each transaction. */
module SummaryCards {
  import opened Sums
  import opened Records

  /** The sum of the amounts of the transactions flagged as income. */
  function Income(txs: seq<Transaction>): int {
    SumBy(Filter(txs, FlaggedIncome), Amount)
  }

  /** The sum of the amounts of the transactions not flagged as income. */
  function Expenses(txs: seq<Transaction>): int {
    SumBy(Filter(txs, FlaggedExpense), Amount)
  }

  function Balance(txs: seq<Transaction>): int {
    Income(txs) - Expenses(txs)
  }

  /** The flag splits the list in two: income and expenses together are
      the sum of all amounts. */
  lemma IncomeAndExpensesPartition(txs: seq<Transaction>)
    ensures Income(txs) + Expenses(txs) == SumBy(txs, Amount)
    ensures Balance(txs) == SumBy(txs, Amount) - 2 * Expenses(txs)
  {
    PartitionSum(txs, FlaggedIncome, FlaggedExpense, Amount);
  }

  /** The cards do not depend on the order of the transactions. */
  lemma CardsOrderIndependent(txs: seq<Transaction>, other: seq<Transaction>)
    requires multiset(txs) == multiset(other)
    ensures Income(txs) == Income(other) && Expenses(txs) == Expenses(other) && Balance(txs) == Balance(other)
  {
    FilterPermutation(txs, other, FlaggedIncome);
    SumByPermutation(Filter(txs, FlaggedIncome), Filter(other, FlaggedIncome), Amount);
    FilterPermutation(txs, other, FlaggedExpense);
    SumByPermutation(Filter(txs, FlaggedExpense), Filter(other, FlaggedExpense), Amount);
  }

  lemma EmptyCards()
    ensures Income([]) == 0 && Expenses([]) == 0 && Balance([]) == 0
  {
  }

  /** One more transaction moves exactly one card by its amount, and the
      balance with it, whatever the amount's sign: an expense with a
      negative amount lowers the expenses and raises the balance. */
  lemma {:induction false} OneMoreTransaction(txs: seq<Transaction>, t: Transaction)
    ensures t.isIncome ==> Income(txs + [t]) == Income(txs) + t.amount && Expenses(txs + [t]) == Expenses(txs)
    ensures !t.isIncome ==> Expenses(txs + [t]) == Expenses(txs) + t.amount && Income(txs + [t]) == Income(txs)
    ensures Balance(txs + [t]) == Balance(txs) + (if t.isIncome then t.amount else -t.amount)
  {
    assert (txs + [t])[..|txs|] == txs;
    assert (txs + [t])[|txs|] == t;
    var f := Filter(txs, FlaggedIncome);
    var g := Filter(txs, FlaggedExpense);
    if t.isIncome {
      assert Filter(txs + [t], FlaggedIncome) == f + [t];
      assert Filter(txs + [t], FlaggedExpense) == g;
      assert (f + [t])[..|f|] == f;
    } else {
      assert Filter(txs + [t], FlaggedExpense) == g + [t];
      assert Filter(txs + [t], FlaggedIncome) == f;
      assert (g + [t])[..|g|] == g;
    }
  }
}
