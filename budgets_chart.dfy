/** The dashboard's pie chart of spending per category: expenses grouped by
    category into an insertion-ordered dictionary, turned into one slice per
    category, coloured by position, with a legend of the first three. */
module BudgetsChart {
  import opened Sums
  import opened Records
  import SummaryCards

  /** The dictionary key a transaction is grouped under: an empty category
      counts as "General". */
  function ChartKey(t: Transaction): (k: string)
    ensures k != ""
    ensures t.category != "" ==> k == t.category
    ensures t.category == "" ==> k == "General"
  {
    if t.category == "" then "General" else t.category
  }

  function InCategory(k: string): Transaction -> bool {
    t => ChartKey(t) == k
  }

  /** The expense transactions, the only ones the chart looks at. */
  function ChartExpenses(txs: seq<Transaction>): seq<Transaction> {
    Filter(txs, FlaggedExpense)
  }

  /** The distinct keys of `ts` in order of first occurrence, the order in
      which a JavaScript object enumerates keys it was given. */
  function CategoryOrder(ts: seq<Transaction>): (r: seq<string>)
    ensures forall i, j :: 0 <= i < j < |r| ==> r[i] != r[j]
  {
    if ts == [] then []
    else
      var prev := CategoryOrder(ts[..|ts| - 1]);
      var k := ChartKey(ts[|ts| - 1]);
      if k in prev then prev else prev + [k]
  }

  /** The sum of the amounts of the transactions grouped under `k`. */
  function CategoryTotal(ts: seq<Transaction>, k: string): int {
    SumBy(Filter(ts, InCategory(k)), Amount)
  }

  datatype Slice = Slice(name: string, value: int)

  function SliceValue(s: Slice): int { s.value }

  /** One slice per key, valued by that key's total over `ts`. */
  function Slices(keys: seq<string>, ts: seq<Transaction>): (r: seq<Slice>)
    ensures |r| == |keys|
    ensures forall i :: 0 <= i < |keys| ==> r[i] == Slice(keys[i], CategoryTotal(ts, keys[i]))
  {
    if keys == [] then []
    else Slices(keys[..|keys| - 1], ts) + [Slice(keys[|keys| - 1], CategoryTotal(ts, keys[|keys| - 1]))]
  }

  /** The chart's data: one slice per expense category, in first-occurrence
      order. */
  function Chart(txs: seq<Transaction>): seq<Slice> {
    var expenses := ChartExpenses(txs);
    Slices(CategoryOrder(expenses), expenses)
  }

  /** A key is listed exactly when some transaction is grouped under it. */
  lemma {:induction false} CategoryOrderMembers(ts: seq<Transaction>, k: string)
    ensures k in CategoryOrder(ts) <==> exists i :: 0 <= i < |ts| && ChartKey(ts[i]) == k
  {
    if ts != [] {
      var n := |ts| - 1;
      CategoryOrderMembers(ts[..n], k);
      if k in CategoryOrder(ts[..n]) {
        var i :| 0 <= i < n && ChartKey(ts[..n][i]) == k;
        assert ChartKey(ts[i]) == k;
      }
      if exists i :: 0 <= i < |ts| && ChartKey(ts[i]) == k {
        var i :| 0 <= i < |ts| && ChartKey(ts[i]) == k;
        if i < n {
          assert ChartKey(ts[..n][i]) == k;
        }
      }
    }
  }

  lemma {:induction false} TotalStep(ts: seq<Transaction>, t: Transaction, k: string)
    ensures CategoryTotal(ts + [t], k) == CategoryTotal(ts, k) + (if ChartKey(t) == k then t.amount else 0)
  {
    assert (ts + [t])[..|ts|] == ts;
    assert (ts + [t])[|ts|] == t;
    var f := Filter(ts, InCategory(k));
    if ChartKey(t) == k {
      assert Filter(ts + [t], InCategory(k)) == f + [t];
      assert (f + [t])[..|f|] == f;
    } else {
      assert Filter(ts + [t], InCategory(k)) == f;
    }
  }

  /** A key nothing is grouped under has total 0. */
  lemma {:induction false} UnlistedTotal(ts: seq<Transaction>, k: string)
    requires k !in CategoryOrder(ts)
    ensures CategoryTotal(ts, k) == 0
  {
    if ts != [] {
      var n := |ts| - 1;
      assert ts == ts[..n] + [ts[n]];
      UnlistedTotal(ts[..n], k);
      TotalStep(ts[..n], ts[n], k);
    }
  }

  lemma SlicesAppend(keys: seq<string>, k: string, ts: seq<Transaction>)
    ensures SumBy(Slices(keys + [k], ts), SliceValue) == SumBy(Slices(keys, ts), SliceValue) + CategoryTotal(ts, k)
  {
    assert (keys + [k])[..|keys|] == keys;
    var s := Slices(keys, ts);
    assert (s + [Slice(k, CategoryTotal(ts, k))])[..|s|] == s;
  }

  lemma {:induction false} SlicesStep(keys: seq<string>, ts: seq<Transaction>, t: Transaction)
    requires forall i, j :: 0 <= i < j < |keys| ==> keys[i] != keys[j]
    ensures SumBy(Slices(keys, ts + [t]), SliceValue)
         == SumBy(Slices(keys, ts), SliceValue) + (if ChartKey(t) in keys then t.amount else 0)
  {
    if keys != [] {
      var n := |keys| - 1;
      var front, last := keys[..n], keys[n];
      assert keys == front + [last];
      assert last !in front by {
        forall i | 0 <= i < n ensures front[i] != last {
          assert front[i] == keys[i];
        }
      }
      assert ChartKey(t) in keys <==> ChartKey(t) in front || ChartKey(t) == last;
      SlicesStep(front, ts, t);
      TotalStep(ts, t, last);
      SlicesAppend(front, last, ts);
      SlicesAppend(front, last, ts + [t]);
    }
  }

  /** The slices' values add up to the sum of all amounts. */
  lemma {:induction false} SlicesAddUp(ts: seq<Transaction>)
    ensures SumBy(Slices(CategoryOrder(ts), ts), SliceValue) == SumBy(ts, Amount)
  {
    if ts != [] {
      var n := |ts| - 1;
      var front, t := ts[..n], ts[n];
      assert ts == front + [t];
      var prev, k := CategoryOrder(front), ChartKey(t);
      assert SumBy(ts, Amount) == SumBy(front, Amount) + t.amount;
      SlicesAddUp(front);
      SlicesStep(prev, front, t);
      var listed := SumBy(Slices(prev, ts), SliceValue);
      if k !in prev {
        assert listed == SumBy(front, Amount);
        SlicesAppend(prev, k, ts);
        UnlistedTotal(front, k);
        TotalStep(front, t, k);
        assert SumBy(Slices(prev + [k], ts), SliceValue) == listed + t.amount;
        assert CategoryOrder(ts) == prev + [k];
      } else {
        assert listed == SumBy(front, Amount) + t.amount;
        assert CategoryOrder(ts) == prev;
      }
    }
  }

  /** The chart has one slice per expense category and no two slices share a
      name; each slice totals its category; and the slices together add up
      to the expenses card. */
  lemma ChartIsGroupBy(txs: seq<Transaction>)
    ensures forall i, j :: 0 <= i < j < |Chart(txs)| ==> Chart(txs)[i].name != Chart(txs)[j].name
    ensures forall i :: 0 <= i < |Chart(txs)| ==> Chart(txs)[i].value == CategoryTotal(ChartExpenses(txs), Chart(txs)[i].name)
    ensures SumBy(Chart(txs), SliceValue) == SummaryCards.Expenses(txs)
  {
    SlicesAddUp(ChartExpenses(txs));
  }

  /** A category appears on the chart exactly when some expense is grouped
      under it; income never adds a slice. */
  lemma ChartNames(txs: seq<Transaction>, k: string)
    ensures (exists i :: 0 <= i < |Chart(txs)| && Chart(txs)[i].name == k)
        <==> (exists t :: t in txs && !t.isIncome && ChartKey(t) == k)
  {
    if exists t :: t in txs && !t.isIncome && ChartKey(t) == k {
      var t :| t in txs && !t.isIncome && ChartKey(t) == k;
      ExpenseHasSlice(txs, t);
    }
    if exists i :: 0 <= i < |Chart(txs)| && Chart(txs)[i].name == k {
      var i :| 0 <= i < |Chart(txs)| && Chart(txs)[i].name == k;
      SliceHasExpense(txs, i);
    }
  }

  lemma ExpenseHasSlice(txs: seq<Transaction>, t: Transaction)
    requires t in txs && !t.isIncome
    ensures exists i :: 0 <= i < |Chart(txs)| && Chart(txs)[i].name == ChartKey(t)
  {
    var expenses := ChartExpenses(txs);
    var keys := CategoryOrder(expenses);
    FilterKeeps(txs, FlaggedExpense, t);
    var m :| 0 <= m < |expenses| && expenses[m] == t;
    CategoryOrderMembers(expenses, ChartKey(t));
    var j :| 0 <= j < |keys| && keys[j] == ChartKey(t);
    assert Chart(txs)[j].name == ChartKey(t);
  }

  lemma SliceHasExpense(txs: seq<Transaction>, i: nat)
    requires i < |Chart(txs)|
    ensures exists t :: t in txs && !t.isIncome && ChartKey(t) == Chart(txs)[i].name
  {
    var expenses := ChartExpenses(txs);
    var k := Chart(txs)[i].name;
    assert CategoryOrder(expenses)[i] == k;
    CategoryOrderMembers(expenses, k);
    var m :| 0 <= m < |expenses| && ChartKey(expenses[m]) == k;
    assert expenses[m] in expenses;
  }

  /** The palette the slices cycle through. */
  const Colors: seq<string> := ["#277C78", "#626070", "#82C9D7", "#F2CDAC", "#C94736"]

  /** The colour of the slice at `index`. */
  function SliceColor(index: nat): string {
    Colors[index % |Colors|]
  }

  /** Two slices share a colour exactly when their indices agree modulo
      five: the five colours are distinct. */
  lemma ColorCycle(i: nat, j: nat)
    ensures SliceColor(i) == SliceColor(j) <==> i % 5 == j % 5
  {
    var a, b := i % 5, j % 5;
    if a != b {
      assert Colors[a] != Colors[b];
    }
  }

  datatype LegendEntry = LegendEntry(name: string, color: string)

  /** The legend: the first three slices, coloured by their index. */
  function Legend(data: seq<Slice>): seq<LegendEntry> {
    var shown := if |data| <= 3 then data else data[..3];
    seq(|shown|, i requires 0 <= i < |shown| => LegendEntry(shown[i].name, SliceColor(i)))
  }

  /** The pie's cells: one colour per slice. */
  function Cells(data: seq<Slice>): seq<string> {
    seq(|data|, i requires 0 <= i < |data| => SliceColor(i))
  }

  /** The legend lists at most three slices, the first ones, each in the
      same colour as its cell in the pie. */
  lemma LegendMatchesPie(data: seq<Slice>)
    ensures |Legend(data)| == if |data| < 3 then |data| else 3
    ensures forall i :: 0 <= i < |Legend(data)| ==>
              Legend(data)[i].name == data[i].name && Legend(data)[i].color == Cells(data)[i]
  {
  }

  /** The dictionary after reducing `ts`: its keys in insertion order and
      its slots. */
  ghost function Grouping(ts: seq<Transaction>): (seq<string>, map<string, int>)
    decreases |ts|
  {
    if ts == [] then ([], map[])
    else
      var prev := Grouping(ts[..|ts| - 1]);
      var t := ts[|ts| - 1];
      var k := ChartKey(t);
      (if k in prev.1 then prev.0 else prev.0 + [k],
       prev.1[k := (if k in prev.1 then prev.1[k] else 0) + t.amount])
  }

  /** The reduced dictionary's keys, in insertion order, are the chart keys
      in first-occurrence order, and they are exactly its slots. */
  lemma {:induction false} GroupingKeys(ts: seq<Transaction>)
    ensures Grouping(ts).0 == CategoryOrder(ts)
    ensures forall k :: k in Grouping(ts).1 <==> k in Grouping(ts).0
    decreases |ts|
  {
    if ts != [] {
      GroupingKeys(ts[..|ts| - 1]);
    }
  }

  /** Each slot of the reduced dictionary holds its key's total. */
  lemma {:induction false} GroupingTotals(ts: seq<Transaction>, k: string)
    requires k in Grouping(ts).1
    ensures Grouping(ts).1[k] == CategoryTotal(ts, k)
    decreases |ts|
  {
    if ts != [] {
      var n := |ts| - 1;
      var front, t := ts[..n], ts[n];
      assert ts == front + [t];
      var g := Grouping(front);
      var kt := ChartKey(t);
      assert Grouping(ts).1 == g.1[kt := (if kt in g.1 then g.1[kt] else 0) + t.amount];
      TotalStep(front, t, k);
      if k in g.1 {
        GroupingTotals(front, k);
      } else if ChartKey(t) == k {
        GroupingKeys(front);
        UnlistedTotal(front, k);
      }
    }
  }

  /** The `reduce` over the expenses: a slot that is absent or 0 starts
      from 0, then the amount is added; a new key goes last in the
      dictionary's key order. */
  method GroupByCategory(expenses: seq<Transaction>) returns (keys: seq<string>, acc: map<string, int>)
    ensures keys == CategoryOrder(expenses)
    ensures forall k :: k in acc <==> k in keys
    ensures forall k :: k in acc ==> acc[k] == CategoryTotal(expenses, k)
  {
    acc := map[];
    keys := [];
    var i := 0;
    while i < |expenses|
      invariant 0 <= i <= |expenses|
      invariant (keys, acc) == Grouping(expenses[..i])
    {
      var t := expenses[i];
      var category := ChartKey(t);
      var slot := if category !in acc || acc[category] == 0 then 0 else acc[category];
      if category !in acc {
        keys := keys + [category];
      }
      acc := acc[category := slot + t.amount];
      assert expenses[..i + 1][..i] == expenses[..i];
      i := i + 1;
    }
    assert expenses[..i] == expenses;
    GroupingKeys(expenses);
    forall k | k in acc
      ensures acc[k] == CategoryTotal(expenses, k)
    {
      GroupingTotals(expenses, k);
    }
  }

  /** The chart's data: the expenses grouped, then the dictionary read back. */
  method ChartData(txs: seq<Transaction>) returns (data: seq<Slice>)
    ensures data == Chart(txs)
  {
    var expenses := ChartExpenses(txs);
    var keys, acc := GroupByCategory(expenses);
    data := ReadBack(keys, acc, expenses);
  }

  /** Reading the dictionary back key by key, the `Object.keys(...).map`. */
  method ReadBack(keys: seq<string>, acc: map<string, int>, ts: seq<Transaction>) returns (data: seq<Slice>)
    requires forall k :: k in keys ==> k in acc && acc[k] == CategoryTotal(ts, k)
    ensures data == Slices(keys, ts)
  {
    data := [];
    var j := 0;
    while j < |keys|
      invariant 0 <= j <= |keys|
      invariant data == Slices(keys[..j], ts)
    {
      assert keys[..j + 1][..j] == keys[..j];
      assert keys[j] in keys;
      data := data + [Slice(keys[j], acc[keys[j]])];
      j := j + 1;
    }
    assert keys[..j] == keys;
  }
}
