/** The budgets table and its controller: listing with the spend figure
    derived from the transactions, creation, update and deletion. */
module BudgetController {
  import opened Wrappers
  import opened Sums
  import opened Requests
  import opened Records
  import opened Tables

  const StoreRules: seq<FieldRule> := [
    FieldRule("category", Required, Text(None)),
    FieldRule("maximum", Required, Numeric),
    FieldRule("theme", Required, Text(None))
  ]

  const UpdateRules: seq<FieldRule> := [
    FieldRule("category", Required, Text(Some(255))),
    FieldRule("maximum", Required, Numeric),
    FieldRule("theme", Nullable, Text(None))
  ]

  function Abs(x: int): (r: int)
    ensures r >= 0 && (r == x || r == -x)
  {
    if x < 0 then -x else x
  }

  /** The size of a transaction's amount. */
  function Magnitude(t: Transaction): int { Abs(t.amount) }

  /** The transactions a budget's spend is drawn from: same category, and a
      negative amount. */
  predicate SpendsFrom(category: string, t: Transaction) {
    t.category == category && t.amount < 0
  }

  /** `SpendsFrom` for one category, as a filter. */
  function SpendFilter(category: string): Transaction -> bool {
    t => SpendsFrom(category, t)
  }

  /** `Transaction::where('category', c)->where('amount', '<', 0)->sum('amount')`. */
  function SpentQuery(txs: seq<Transaction>, category: string): int {
    SumBy(Filter(txs, SpendFilter(category)), Amount)
  }

  /** The budget as the listing reports it: `current` replaced by the
      absolute value of the query's sum. */
  function Reported(b: Budget, txs: seq<Transaction>): Budget {
    b.(current := Abs(SpentQuery(txs, b.category)))
  }

  /** A sum of negative amounts is not positive, and its absolute value is
      the sum of their absolute values. */
  lemma {:induction false} NegativeSum(ts: seq<Transaction>)
    requires forall i :: 0 <= i < |ts| ==> ts[i].amount < 0
    ensures SumBy(ts, Amount) <= 0
    ensures Abs(SumBy(ts, Amount)) == SumBy(ts, Magnitude)
  {
    if ts != [] {
      NegativeSum(ts[..|ts| - 1]);
    }
  }

  /** The reported spend is the sum of `|amount|` over the same-category
      transactions with a negative amount, and so never negative. */
  lemma CurrentIsSumOfAbsolutes(b: Budget, txs: seq<Transaction>)
    ensures Reported(b, txs).current == SumBy(Filter(txs, SpendFilter(b.category)), Magnitude)
    ensures Reported(b, txs).current >= 0
  {
    var spends := Filter(txs, SpendFilter(b.category));
    assert forall i :: 0 <= i < |spends| ==> spends[i] in spends;
    NegativeSum(spends);
  }

  /** A transaction with a non-negative amount, or of another category,
      leaves the reported spend as it is, wherever it stands in the table.
      This covers an expense (`is_income` false) with a positive amount. */
  lemma UnrelatedTransaction(b: Budget, before: seq<Transaction>, t: Transaction, after: seq<Transaction>)
    requires t.amount >= 0 || t.category != b.category
    ensures Reported(b, before + [t] + after).current == Reported(b, before + after).current
  {
    var p := SpendFilter(b.category);
    FilterAppend(before + [t], after, p);
    FilterAppend(before, [t], p);
    FilterAppend(before, after, p);
    assert Filter([t], p) == [] by {
      assert [t][..0] == [];
    }
    assert Filter(before + [t], p) == Filter(before, p);
    assert Filter(before + [t] + after, p) == Filter(before + after, p);
  }

  /** A matching expense, appended, raises the reported spend by its size. */
  lemma SpendingTransaction(b: Budget, txs: seq<Transaction>, t: Transaction)
    requires SpendsFrom(b.category, t)
    ensures Reported(b, txs + [t]).current == Reported(b, txs).current - t.amount
  {
    var p := SpendFilter(b.category);
    var spends := Filter(txs, p);
    assert (txs + [t])[..|txs|] == txs;
    assert Filter(txs + [t], p) == spends + [t];
    assert (spends + [t])[..|spends|] == spends;
    assert forall i :: 0 <= i < |spends| ==> spends[i] in spends;
    NegativeSum(spends);
  }

  /** The reported spend does not depend on the order of the transactions. */
  lemma CurrentOrderIndependent(b: Budget, txs: seq<Transaction>, other: seq<Transaction>)
    requires multiset(txs) == multiset(other)
    ensures Reported(b, txs) == Reported(b, other)
  {
    var p := SpendFilter(b.category);
    FilterPermutation(txs, other, p);
    SumByPermutation(Filter(txs, p), Filter(other, p), Amount);
  }

  /** The reported spend is not clamped to the maximum: a single matching
      expense reports its full size, whatever the budget's maximum. */
  lemma {:induction false} CurrentNotClamped(b: Budget, t: Transaction)
    requires SpendsFrom(b.category, t)
    ensures Reported(b, [t]).current == -t.amount
  {
    assert [t][..0] == [];
    assert Filter([t], SpendFilter(b.category)) == [t];
    assert SumBy([t], Amount) == t.amount;
  }

  /** One Dining Out expense of 75.50 against a budget of 75.00 reports
      75.50, above the maximum. */
  lemma DiningOutOverspent()
    ensures var b := Budget("Dining Out", 7500, 0, None);
            Reported(b, [Transaction("Bistro", "Dining Out", -7550, "", None, false, false, 0)]).current == 7550 > b.maximum
  {
    CurrentNotClamped(Budget("Dining Out", 7500, 0, None), Transaction("Bistro", "Dining Out", -7550, "", None, false, false, 0));
  }

  /** `index`: every budget once, in id order, each with `current` set to the
      spend derived from the transactions. The method has no `modifies`
      clause: nothing is saved, the stored `current` is untouched. */
  method Index(budgets: Table<Budget>, transactions: Table<Transaction>) returns (listed: seq<Row<Budget>>)
    requires budgets.Valid() && transactions.Valid()
    ensures |listed| == |budgets.Listing()|
    ensures forall i :: 0 <= i < |listed| ==>
              listed[i] == Row(budgets.Listing()[i].id, Reported(budgets.Listing()[i].record, RecordsOf(transactions.Listing())))
  {
    listed := ReportEach(budgets.Listing(), RecordsOf(transactions.Listing()));
  }

  /** The loop over the fetched budgets: each row's `current` overwritten
      with its spend. */
  method ReportEach(all: seq<Row<Budget>>, txs: seq<Transaction>) returns (listed: seq<Row<Budget>>)
    ensures |listed| == |all|
    ensures forall i :: 0 <= i < |listed| ==> listed[i] == Row(all[i].id, Reported(all[i].record, txs))
  {
    listed := all;
    var i := 0;
    while i < |listed|
      invariant 0 <= i <= |listed| == |all|
      invariant forall k :: 0 <= k < i ==> listed[k] == Row(all[k].id, Reported(all[k].record, txs))
      invariant forall k :: i <= k < |listed| ==> listed[k] == all[k]
    {
      var budget := listed[i].record;
      var spent := SpentQuery(txs, budget.category);
      listed := listed[i := listed[i].(record := budget.(current := Abs(spent)))];
      i := i + 1;
    }
  }

  /** The budget `store` creates from a request that passes its rules. */
  function NewBudget(req: Request): Budget {
    Budget(TextOf(Get(req, "category")), CentsOf(Get(req, "maximum")), 0, Some(TextOf(Get(req, "theme"))))
  }

  /** `store` admits a request exactly when the client sent `category` and
      `theme` as non-blank strings and `maximum` as a number. */
  lemma StoreAdmission(req: Request)
    ensures Validate(StoreRules, Normalize(req), AnyDate).Ok? <==>
              FilledText(req, "category") && FilledNumber(req, "maximum") && FilledText(req, "theme")
  {
    StoreRulesPass(Normalize(req));
    NormalizedText(req, "category");
    NormalizedNumber(req, "maximum");
    NormalizedText(req, "theme");
  }

  lemma StoreRulesPass(n: Request)
    ensures Validate(StoreRules, n, AnyDate).Ok? <==>
              FilledText(n, "category") && FilledNumber(n, "maximum") && FilledText(n, "theme")
  {
    assert StoreRules[0].key == "category" && StoreRules[1].key == "maximum" && StoreRules[2].key == "theme";
  }

  /** The budget `store` builds from its validated fields is the new budget
      of the request. */
  lemma StoredBudget(n: Request)
    ensures var validated := Validated(StoreRules, n);
      Budget(TextOf(Get(validated, "category")), CentsOf(Get(validated, "maximum")), 0,
             Some(TextOf(Get(validated, "theme")))) == NewBudget(n)
  {
    ValidatedAgrees(StoreRules, n);
    assert StoreRules[0].key == "category" && StoreRules[1].key == "maximum" && StoreRules[2].key == "theme";
  }

  /** `store`: a new budget holding the request's category, maximum and
      theme, with `current` 0; a request that fails validation changes
      nothing. */
  method Store(budgets: Table<Budget>, req: Request) returns (resp: Response<Row<Budget>>)
    requires budgets.Valid()
    modifies budgets
    ensures budgets.Valid()
    ensures Validate(StoreRules, Normalize(req), AnyDate).Ok? ==>
              && "category" in req && "maximum" in req && "theme" in req
              && var b := NewBudget(Normalize(req));
              && b.current == 0
              && resp == Created(Row(old(budgets.nextId), b))
              && budgets.rows == old(budgets.rows)[old(budgets.nextId) := b]
    ensures Validate(StoreRules, Normalize(req), AnyDate).Err? ==>
              && resp == Unprocessable(Failures(StoreRules, Normalize(req), AnyDate))
              && budgets.rows == old(budgets.rows) && budgets.nextId == old(budgets.nextId)
  {
    var input := Normalize(req);
    StoreRulesPass(input);
    var v := Validate(StoreRules, input, AnyDate);
    if v.Err? {
      return Unprocessable(v.error);
    }
    var validated := v.value;
    StoredBudget(input);
    var budget := Budget(TextOf(Get(validated, "category")), CentsOf(Get(validated, "maximum")), 0,
                         Some(TextOf(Get(validated, "theme"))));
    var id := budgets.Insert(budget);
    resp := Created(Row(id, budget));
  }

  /** `$budget->update($validated)`: category and maximum always replaced,
      theme replaced only when the request names it (null clears it), and
      `current` kept. */
  function ApplyUpdate(b: Budget, validated: Request): (r: Budget)
    ensures r.current == b.current
    ensures "theme" !in validated ==> r.theme == b.theme
  {
    Budget(
      TextOf(Get(validated, "category")),
      CentsOf(Get(validated, "maximum")),
      b.current,
      if "theme" !in validated then b.theme
      else if validated["theme"].Null? then None
      else Some(TextOf(validated["theme"])))
  }

  /** Applying the same update twice is applying it once. */
  lemma UpdateIdempotent(b: Budget, validated: Request)
    ensures ApplyUpdate(ApplyUpdate(b, validated), validated) == ApplyUpdate(b, validated)
  {
  }

  /** `update` admits a request exactly when `category` is a non-blank
      string of at most 255 characters once trimmed, `maximum` a number, and
      `theme`, if given, a string (blank included) or null. */
  lemma UpdateAdmission(req: Request)
    ensures Validate(UpdateRules, Normalize(req), AnyDate).Ok? <==>
              && FilledText(req, "category") && |Trim(req["category"].s)| <= 255
              && FilledNumber(req, "maximum")
              && ("theme" in req ==> req["theme"].Str? || req["theme"].Null?)
  {
    UpdateRulesPass(Normalize(req));
    NormalizedText(req, "category");
    NormalizedNumber(req, "maximum");
  }

  lemma UpdateRulesPass(n: Request)
    ensures Validate(UpdateRules, n, AnyDate).Ok? <==>
              && FilledText(n, "category") && |n["category"].s| <= 255
              && FilledNumber(n, "maximum")
              && ("theme" in n ==> n["theme"].Str? || n["theme"].Null?)
  {
    assert UpdateRules[0].key == "category" && UpdateRules[1].key == "maximum" && UpdateRules[2].key == "theme";
  }

  /** A blank `theme` in an admitted update arrives as null and clears the
      budget's theme. */
  lemma BlankThemeClears(b: Budget, req: Request)
    requires Validate(UpdateRules, Normalize(req), AnyDate).Ok?
    requires "theme" in req && req["theme"].Str? && IsBlank(req["theme"].s)
    ensures ApplyUpdate(b, Validated(UpdateRules, Normalize(req))).theme == None
  {
    assert UpdateRules[2].key == "theme";
    assert Normalize(req)["theme"] == Null;
  }

  /** `update`: an unknown id is not found and nothing changes; a request
      that fails validation changes nothing; otherwise only that budget is
      rewritten. */
  method Update(budgets: Table<Budget>, id: nat, req: Request) returns (resp: Response<Row<Budget>>)
    requires budgets.Valid()
    modifies budgets
    ensures budgets.Valid() && budgets.nextId == old(budgets.nextId)
    ensures id !in old(budgets.rows) ==> resp == NotFound && budgets.rows == old(budgets.rows)
    ensures id in old(budgets.rows) && Validate(UpdateRules, Normalize(req), AnyDate).Err? ==>
              resp == Unprocessable(Failures(UpdateRules, Normalize(req), AnyDate)) && budgets.rows == old(budgets.rows)
    ensures id in old(budgets.rows) && Validate(UpdateRules, Normalize(req), AnyDate).Ok? ==>
              && var b := ApplyUpdate(old(budgets.rows)[id], Validated(UpdateRules, Normalize(req)));
              && |b.category| <= 255
              && resp == Success(Row(id, b))
              && budgets.rows == old(budgets.rows)[id := b]
  {
    if id !in budgets.rows {
      return NotFound;
    }
    var input := Normalize(req);
    UpdateRulesPass(input);
    var v := Validate(UpdateRules, input, AnyDate);
    if v.Err? {
      return Unprocessable(v.error);
    }
    var budget := ApplyUpdate(budgets.rows[id], v.value);
    budgets.Replace(id, budget);
    resp := Success(Row(id, budget));
  }

  /** `destroy`: removes exactly the given budget; an unknown id is not found
      and nothing changes. */
  method Destroy(budgets: Table<Budget>, id: nat) returns (resp: Response<Row<Budget>>)
    requires budgets.Valid()
    modifies budgets
    ensures budgets.Valid() && budgets.nextId == old(budgets.nextId)
    ensures id !in old(budgets.rows) ==> resp == NotFound && budgets.rows == old(budgets.rows)
    ensures id in old(budgets.rows) ==> resp == NoContent && budgets.rows == old(budgets.rows) - {id}
  {
    if id !in budgets.rows {
      return NotFound;
    }
    budgets.Delete(id);
    resp := NoContent;
  }
}
