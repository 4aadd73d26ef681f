# A Dafny model of the finance app's controllers and dashboard arithmetic

The finance app is a personal-finance web application. A Laravel back end keeps four tables: transactions, budgets, savings pots and recurring bills. A Next.js front end draws dashboards from them. This project models two parts of it and proves properties of the model.

**Back end.** The four controllers are modelled as operations on tables:
- listing, creation, update and deletion;
- the request validation each operation declares;
- the spend figure the budget listing derives from the transactions;
- the avatar URL a transaction gets from its name;
- the order of each listing.

A table is a class (`Tables.Table`) holding a map from ids to records. Its `Insert`, `Replace` and `Delete` methods change it in place. Each controller operation is a method over that table. Its `ensures` clauses give the response and the whole new state for every outcome: not found, validation failure, success.

**Front end.** The arithmetic of seven components is modelled:
- the income, expenses and balance cards;
- the budgets pie chart, with its grouping loop, colours and legend;
- the recurring-bills page figures;
- the overview's budget bars;
- the budgets and pots pages' percentages;
- the recent-transactions list.

**Representations.**
- Money is whole cents. The columns are `decimal(…, 2)`.
- JavaScript's `a / b * 100` is an exact fraction, or Infinity or NaN on division by zero (`Ratios.Quantity`). No floating-point arithmetic is modelled.
- PHP's `urlencode` works on the UTF-8 bytes of a string (`UrlEncoding`).
- `ORDER BY` is a sort under a total preorder. The order of rows with equal keys is left open, as SQL leaves it.
- `all()` lists the rows in ascending id order. No `ORDER BY` is issued, so this is an assumption about the database (see "Left out").
- Requests reach the controllers through Laravel's global `TrimStrings` and `ConvertEmptyStringsToNull` middleware (`Requests.Normalize`). Every string field arrives trimmed, and a blank one arrives as null. Each controller operation validates the request as the middleware leaves it. Its admission lemma states the verdict in terms of what the client sent.

**Two views of income.** The application uses two rules for what counts as income:
- The back end's budget listing counts a transaction with a negative amount as spending.
- The front end goes by the `is_income` flag, which the transaction API never sets.

The model keeps both rules. `IncomeRepresentations` proves where they part ways.

**Pot totals.**
- The pots page does not clamp its percentage: a pot over target shows more than 100%. A zero target shows Infinity, or NaN for an empty pot.
- The pot `update` accepts any numeric total, negative or above target.
- There is no deposit or withdraw operation. A pot's total changes only through `update`.

## Model

| member | source | states |
|---|---|---|
| Requests.Validate | backend/app/Http/Controllers/BudgetController.php:28-32 | a request is admitted exactly when every field passes its rule. An admitted request yields exactly the ruled fields with their values. A rejected one names at least one failing field |
| Requests.Failures | backend/app/Http/Controllers/TransactionController.php:17-23 | the failing fields are exactly the keys of the rules the request does not pass. There are none iff every rule passes |
| Requests.ValidatedAgrees | backend/app/Http/Controllers/TransactionController.php:17-27 | every field a rule names reads the same in the validated array as in the request, present or absent alike |
| Requests.ValidatedIgnoresUnnamed | backend/app/Http/Controllers/TransactionController.php:17-27 | a field no rule names, whatever its value, changes neither the verdict, nor the failing fields, nor the validated array handed to `create` |
| Requests.Trim | backend/app/Http/Controllers/BudgetController.php:60-64 | `trim` leaves no whitespace at either end, and gives the empty string exactly for a blank string |
| Requests.TrimCutsOnlyBlanks | backend/app/Http/Controllers/BudgetController.php:60-64 | `trim` keeps one stretch of the string and cuts only whitespace before and after it |
| Requests.TrimIdempotent | backend/app/Http/Controllers/BudgetController.php:60-64 | trimming twice is trimming once |
| Requests.NormalizeValue | backend/app/Http/Controllers/PotController.php:34-39 | after the middleware a blank string is null, any other string is trimmed and no longer blank, and other values are unchanged |
| Requests.MiddlewareSettles | backend/app/Http/Controllers/PotController.php:34-39 | after the middleware no field is a blank string, and running it again changes nothing |
| Requests.NormalizedText | backend/app/Http/Controllers/PotController.php:17-21 | a field passes `required\|string` after the middleware exactly when the client sent a non-blank string, and it arrives trimmed |
| Requests.NormalizedNumber | backend/app/Http/Controllers/PotController.php:17-21 | a field passes `required\|numeric` after the middleware exactly when the client sent a number, and it arrives unchanged |
| Tables.ListBelow | backend/app/Http/Controllers/PotController.php:12 | the rows below an id bound, each exactly once, in strictly ascending id order, holding that row's record |
| Tables.RecordsOf | backend/app/Http/Controllers/BudgetController.php:16 | the records of a result, in order, one per row |
| Tables.Table.Listing | backend/app/Http/Controllers/BudgetController.php:13 | `all()` lists every stored row once, and nothing else, in ascending id order (assumed, see "Left out") |
| Tables.Table.Insert | backend/app/Http/Controllers/BudgetController.php:34-39 | `create` stores the record under the next fresh id and changes no other row |
| Tables.Table.Replace | backend/app/Http/Controllers/BudgetController.php:66 | `update` replaces that one row only |
| Tables.Table.Delete | backend/app/Http/Controllers/BudgetController.php:47 | `delete` removes that one row only |
| Ordering.InsertBy | backend/app/Http/Controllers/TransactionController.php:12 | inserting into a sorted sequence keeps it sorted and adds exactly that element |
| Ordering.SortBy | backend/app/Http/Controllers/TransactionController.php:12 | an ordered query's result is sorted and is a permutation of the rows |
| Ordering.SortedStrictlyBefore | backend/app/Http/Controllers/RecurringBillController.php:12 | in a sorted result, a row strictly below another is listed first |
| Ordering.TextLeTotal | backend/app/Http/Controllers/RecurringBillController.php:12 | text order compares any two strings |
| Ordering.TextLeTransitive | backend/app/Http/Controllers/RecurringBillController.php:12 | text order is transitive |
| Sums.Filter | frontend/components/SummaryCards.tsx:12 | a filter keeps only elements of the input that satisfy the predicate, and no more of them than the input has |
| Sums.FilterKeeps | frontend/components/BudgetsChart.tsx:12 | a filter drops no element that satisfies the predicate |
| Sums.FilterNone | frontend/app/recurring-bills/page.tsx:47 | filtering a list where nothing matches gives the empty list |
| Sums.FilterAppend | frontend/components/SummaryCards.tsx:11-13 | filtering distributes over concatenation |
| Sums.SumByAppend | frontend/components/SummaryCards.tsx:11-13 | a `reduce` sum distributes over concatenation |
| Sums.PartitionSum | frontend/components/SummaryCards.tsx:11-18 | the sums over a predicate and over its complement add up to the sum over the whole list |
| Sums.PartitionCount | frontend/app/recurring-bills/page.tsx:47 | the counts over a predicate and over its complement add up to the length |
| Sums.SumByPermutation | frontend/components/SummaryCards.tsx:11-13 | a sum does not depend on the order of the list |
| Sums.FilterPermutation | frontend/components/SummaryCards.tsx:12 | filtering a reordered list gives a reordering of the filtered list |
| UrlEncoding.CharUtf8 | backend/app/Http/Controllers/TransactionController.php:25 | one character's UTF-8 bytes: 1 to 4 of them, and a single byte exactly for ASCII |
| UrlEncoding.Utf8 | backend/app/Http/Controllers/TransactionController.php:25 | a string's UTF-8 bytes are between 1 and 4 times as many as its characters |
| UrlEncoding.HexValue | backend/app/Http/Controllers/TransactionController.php:25 | each upper-case hex digit reads back as its value |
| UrlEncoding.EncodeByte | backend/app/Http/Controllers/TransactionController.php:25 | `urlencode` writes a byte as itself exactly when it is a letter, a digit or one of `-_.`. A space becomes `+`. Any other byte becomes `%` and two hex digits that read back as that byte |
| UrlEncoding.UrlEncode | backend/app/Http/Controllers/TransactionController.php:25 | the encoding is 1 to 3 characters per byte |
| UrlEncoding.DecodeEncodedByte | backend/app/Http/Controllers/TransactionController.php:25 | decoding reads one encoded byte back, whatever follows it |
| UrlEncoding.DecodeEncode | backend/app/Http/Controllers/TransactionController.php:25 | `urldecode(urlencode(bytes)) == bytes` for every byte string |
| UrlEncoding.EncodedChars | backend/app/Http/Controllers/TransactionController.php:25 | encoded text holds only letters, digits and `-_.+%`, never `&` |
| BudgetController.Abs | backend/app/Http/Controllers/BudgetController.php:20 | `abs` is non-negative and equals `x` or `-x` |
| BudgetController.NegativeSum | backend/app/Http/Controllers/BudgetController.php:16-20 | a sum of negative amounts is at most 0, and its absolute value is the sum of the absolute values |
| BudgetController.CurrentIsSumOfAbsolutes | backend/app/Http/Controllers/BudgetController.php:15-21 | a budget's reported `current` is Σ\|amount\| over the same-category transactions with amount < 0, so it is never negative |
| BudgetController.UnrelatedTransaction | backend/app/Http/Controllers/BudgetController.php:16-17 | a transaction with amount ≥ 0 (a positive `is_income=false` one included) or of another category, anywhere in the table, leaves `current` unchanged |
| BudgetController.SpendingTransaction | backend/app/Http/Controllers/BudgetController.php:16-20 | one more matching negative transaction raises `current` by its magnitude |
| BudgetController.CurrentOrderIndependent | backend/app/Http/Controllers/BudgetController.php:16-20 | `current` does not depend on the order of the transactions |
| BudgetController.CurrentNotClamped | backend/app/Http/Controllers/BudgetController.php:20 | `current` is not clamped: one matching expense reports its full size, whatever the maximum |
| BudgetController.DiningOutOverspent | backend/app/Http/Controllers/BudgetController.php:20 | an expense of 75.50 against a 75.00 Dining Out budget reports 75.50, above the maximum |
| BudgetController.Index | backend/app/Http/Controllers/BudgetController.php:10-24 | every budget once, in id order, each with `current` replaced by the derived spend. The method has no `modifies` clause, so the stored table is unchanged |
| BudgetController.ReportEach | backend/app/Http/Controllers/BudgetController.php:15-21 | the fetched rows in their order, each keeping its id and other columns, with `current` the absolute value of its category's spending sum |
| BudgetController.StoreAdmission | backend/app/Http/Controllers/BudgetController.php:28-32 | `store` admits a request exactly when the client sent `category` and `theme` as non-blank strings and `maximum` as a number |
| BudgetController.Store | backend/app/Http/Controllers/BudgetController.php:26-42 | an admitted request adds one budget with exactly the trimmed category, the maximum and the trimmed theme, and `current` 0, answered 201. A rejected one is answered 422 and changes nothing |
| BudgetController.ApplyUpdate | backend/app/Http/Controllers/BudgetController.php:66 | `update` keeps `current`, and keeps the theme when the request omits it |
| BudgetController.UpdateIdempotent | backend/app/Http/Controllers/BudgetController.php:66 | applying the same update twice equals applying it once |
| BudgetController.UpdateAdmission | backend/app/Http/Controllers/BudgetController.php:60-64 | `update` admits a request exactly when `category` is a non-blank string of at most 255 characters once trimmed, `maximum` is a number and `theme`, if given, is a string (blank included) or null |
| BudgetController.BlankThemeClears | backend/app/Http/Controllers/BudgetController.php:60-66 | a blank `theme` in an admitted update arrives as null and clears the budget's theme |
| BudgetController.Update | backend/app/Http/Controllers/BudgetController.php:52-69 | an unknown id is not found and nothing changes, checked before validation. A rejected request changes nothing. Otherwise only that budget is rewritten from the trimmed fields, with \|category\| ≤ 255 |
| BudgetController.Destroy | backend/app/Http/Controllers/BudgetController.php:44-50 | removes exactly the given budget and answers 204. An unknown id is not found and nothing changes |
| TransactionController.UpToAmpersandOfEncoded | backend/app/Http/Controllers/TransactionController.php:25 | an encoded name followed by `&background=random` reads back, up to the first `&`, as the encoded name |
| TransactionController.UpToAmpersand | backend/app/Http/Controllers/TransactionController.php:25 | one query-string value is a prefix of the rest of the URL |
| TransactionController.AvatarCarriesName | backend/app/Http/Controllers/TransactionController.php:25 | the avatar URL starts with the service prefix, and its `name` parameter decodes to exactly the name's UTF-8 bytes, for every name |
| TransactionController.Admission | backend/app/Http/Controllers/TransactionController.php:17-23 | a request is admitted exactly when the client sent `name` and `category` as non-blank strings, `amount` as a number and `date` as a string that is a date once trimmed. `recurring` is optional, but when given it must be a boolean form; a blank one fails |
| TransactionController.StoreIgnoresExtraFields | backend/app/Http/Controllers/TransactionController.php:22-27 | the stored transaction depends only on name, amount, category and date. `recurring`, `avatar` and `is_income` in the request are ignored, and the flags keep their defaults |
| TransactionController.NewerOrSameIsTotalPreorder | backend/app/Http/Controllers/TransactionController.php:12 | newest-first by `created_at` is a total preorder |
| TransactionController.Index | backend/app/Http/Controllers/TransactionController.php:10-13 | the rows newest first, a permutation of the table |
| TransactionController.IndexListsEveryRow | backend/app/Http/Controllers/TransactionController.php:12 | the listing holds each stored transaction and nothing else |
| TransactionController.Store | backend/app/Http/Controllers/TransactionController.php:15-30 | an admitted request adds one transaction whose avatar is built from its name, answered 201. A rejected one changes nothing |
| TransactionController.Update | backend/app/Http/Controllers/TransactionController.php:32-49 | an unknown id is not found and nothing changes. Otherwise only that transaction is rewritten: its avatar is recomputed from the new name, and `is_income`, `is_recurring` and `created_at` are kept |
| TransactionController.Destroy | backend/app/Http/Controllers/TransactionController.php:51-57 | removes exactly that transaction. An unknown id is not found and nothing changes |
| RecurringBillController.Digit | backend/database/migrations/2026_01_03_104043_create_recurring_bills_table.php:18 | a digit character stands for its value |
| RecurringBillController.DecimalText | backend/database/migrations/2026_01_03_104043_create_recurring_bills_table.php:18 | an integer stored in the string column is a non-empty text of digits |
| RecurringBillController.DecimalRoundTrip | backend/database/migrations/2026_01_03_104043_create_recurring_bills_table.php:18 | the stored text reads back as the number |
| RecurringBillController.Admission | backend/app/Http/Controllers/RecurringBillController.php:17-23 | a request is admitted exactly when the client sent `name` as a non-blank string, `amount` as a number, `due_day` as a whole number from 1 to 31, `status` as `paid` or `upcoming` once trimmed, and `logo`, if at all, as a string or null |
| RecurringBillController.AdmittedBillsWellFormed | backend/app/Http/Controllers/RecurringBillController.php:17-25 | the bills built from any request that passes the rules have a day from 1 to 31 and one of the two statuses. A created bill has theme `#000000` |
| RecurringBillController.DayTextOrderIsTotalPreorder | backend/app/Http/Controllers/RecurringBillController.php:12 | ordering by the `due_day` text is a total preorder |
| RecurringBillController.Index | backend/app/Http/Controllers/RecurringBillController.php:10-13 | the rows sorted by `due_day` as text, a permutation of the table |
| RecurringBillController.IndexListsTenthBeforeSecond | backend/app/Http/Controllers/RecurringBillController.php:12 | as written, a bill due on the 10th is listed before a bill due on the 2nd |
| RecurringBillController.IndexByDayNumber | backend/app/Http/Controllers/RecurringBillController.php:12 | corrected: the rows sorted by day number, a permutation of the table |
| RecurringBillController.IndexByDayNumberListsSecondBeforeTenth | backend/app/Http/Controllers/RecurringBillController.php:12 | corrected: the 2nd comes before the 10th |
| RecurringBillController.Store | backend/app/Http/Controllers/RecurringBillController.php:15-27 | an admitted request adds one well-formed bill with the default theme. A rejected one changes nothing |
| RecurringBillController.Update | backend/app/Http/Controllers/RecurringBillController.php:29-44 | an unknown id is not found. Otherwise only that bill is rewritten, well formed, with its theme kept and its logo kept when the request omits it |
| RecurringBillController.Destroy | backend/app/Http/Controllers/RecurringBillController.php:46-51 | removes exactly that bill and answers `Deleted`. An unknown id is not found and nothing changes |
| PotController.Index | backend/app/Http/Controllers/PotController.php:10-13 | every stored pot is listed, and only stored pots |
| PotController.StoreAdmission | backend/app/Http/Controllers/PotController.php:17-21 | `store` admits a request exactly when the client sent `name` and `theme` as non-blank strings and `target` as a number |
| PotController.NewPotStartsEmpty | backend/app/Http/Controllers/PotController.php:23 | a new pot's total is 0, whatever `total` the request carries |
| PotController.ApplyUpdate | backend/app/Http/Controllers/PotController.php:41 | the fields the request does not name are kept |
| PotController.EmptyUpdateKeepsPot | backend/app/Http/Controllers/PotController.php:34-41 | an empty request passes and leaves the pot as it was |
| PotController.UpdateIdempotent | backend/app/Http/Controllers/PotController.php:41 | applying the same update twice equals applying it once |
| PotController.UpdateAdmission | backend/app/Http/Controllers/PotController.php:34-39 | `update` admits a request exactly when each of `name` and `theme` it names is a non-blank string and each of `target` and `total` it names is a number. A blank field arrives as null, which `sometimes` rejects |
| PotController.BlankNumberRejected | backend/app/Http/Controllers/PotController.php:36-41 | a blank `target` or `total` is refused, naming that field, instead of being written to the pot |
| PotController.AdmittedUpdateWritesSentValues | backend/app/Http/Controllers/PotController.php:34-41 | an admitted update writes each `target` and `total` the client sent as that number, and each `name` and `theme` as the trimmed non-blank text |
| PotController.AnyTotalAccepted | backend/app/Http/Controllers/PotController.php:37 | any numeric total is admitted and stored, negative or above the target |
| PotController.Store | backend/app/Http/Controllers/PotController.php:15-28 | an admitted request adds one pot with total 0. A rejected one changes nothing |
| PotController.Update | backend/app/Http/Controllers/PotController.php:30-44 | an unknown id is not found. A rejected request changes nothing. Otherwise only that pot is rewritten, in exactly the fields named, with their trimmed values |
| PotController.Destroy | backend/app/Http/Controllers/PotController.php:46-51 | removes exactly that pot. An unknown id is not found and nothing changes |
| SummaryCards.IncomeAndExpensesPartition | frontend/components/SummaryCards.tsx:11-21 | income plus expenses is the sum of all amounts, and the balance is that sum minus twice the expenses |
| SummaryCards.CardsOrderIndependent | frontend/components/SummaryCards.tsx:11-21 | the three cards do not depend on list order |
| SummaryCards.EmptyCards | frontend/components/SummaryCards.tsx:11-21 | an empty list gives 0 on all three cards |
| SummaryCards.OneMoreTransaction | frontend/components/SummaryCards.tsx:12-21 | one more transaction moves only the card its flag selects, by its amount, whatever its sign. A negative expense lowers expenses and raises the balance |
| BudgetsChart.ChartKey | frontend/components/BudgetsChart.tsx:16 | an empty category is grouped under `General`, and any other under itself |
| BudgetsChart.CategoryOrder | frontend/components/BudgetsChart.tsx:27 | the dictionary's keys are pairwise distinct |
| BudgetsChart.Slices | frontend/components/BudgetsChart.tsx:27-30 | one slice per key, valued by that key's total |
| BudgetsChart.CategoryOrderMembers | frontend/components/BudgetsChart.tsx:15-24 | a key is listed exactly when some transaction is grouped under it |
| BudgetsChart.TotalStep | frontend/components/BudgetsChart.tsx:22 | one more transaction adds its amount to its own key's total only |
| BudgetsChart.UnlistedTotal | frontend/components/BudgetsChart.tsx:19-20 | a key nothing is grouped under totals 0 |
| BudgetsChart.SlicesAppend | frontend/components/BudgetsChart.tsx:27-30 | one more slice adds its key's total to the slices' sum |
| BudgetsChart.SlicesStep | frontend/components/BudgetsChart.tsx:15-24 | over distinct keys, one more transaction raises the slices' sum by its amount iff its key is among them |
| BudgetsChart.SlicesAddUp | frontend/components/BudgetsChart.tsx:15-30 | the slices' values add up to the sum of all amounts |
| BudgetsChart.ChartIsGroupBy | frontend/components/BudgetsChart.tsx:12-30 | `data` has no two slices with one name, each slice is its category's total over the expenses, and the slices add up to the expenses card |
| BudgetsChart.ChartNames | frontend/components/BudgetsChart.tsx:12-30 | a category has a slice exactly when some expense (`is_income` false) is grouped under it |
| BudgetsChart.ExpenseHasSlice | frontend/components/BudgetsChart.tsx:12-30 | every expense's chart key names some slice |
| BudgetsChart.SliceHasExpense | frontend/components/BudgetsChart.tsx:12-30 | every slice is named after the chart key of some expense in the list |
| BudgetsChart.ColorCycle | frontend/components/BudgetsChart.tsx:33-62 | two slices share a colour exactly when their indices agree mod 5 |
| BudgetsChart.LegendMatchesPie | frontend/components/BudgetsChart.tsx:80-90 | the legend lists at most the first 3 slices, each in its pie cell's colour |
| BudgetsChart.GroupingKeys | frontend/components/BudgetsChart.tsx:15-24 | the reduced dictionary's keys, in insertion order, are the chart keys in first-occurrence order, and the keys are exactly its slots |
| BudgetsChart.GroupingTotals | frontend/components/BudgetsChart.tsx:19-22 | each slot of the reduced dictionary holds the total of its category's expenses |
| BudgetsChart.GroupByCategory | frontend/components/BudgetsChart.tsx:15-24 | the `reduce` loop, with its reset of an absent or zero slot, leaves exactly the distinct keys in first-occurrence order, each holding its category's total |
| BudgetsChart.ChartData | frontend/components/BudgetsChart.tsx:12-30 | the component's `data` is the group-by chart: one slice per expense category, valued by its total |
| BudgetsChart.ReadBack | frontend/components/BudgetsChart.tsx:27-30 | given a dictionary holding each key's total, the read-back lists one slice per key in key order, valued by that total |
| RecurringBillsPage.PendingAtMostBills | frontend/app/recurring-bills/page.tsx:47 | `pendingCount` is at most the number of bills, and 0 when none is upcoming |
| RecurringBillsPage.PaidAndUpcomingMakeTotal | frontend/app/recurring-bills/page.tsx:45-92 | when every status is `paid` or `upcoming`, paid so far plus the upcoming sum equals `totalBills` |
| RecurringBillsPage.PageTotal | frontend/app/recurring-bills/page.tsx:6-45 | the page's bills total €1467.99 |
| RecurringBillsPage.PagePending | frontend/app/recurring-bills/page.tsx:6-47 | two of the page's bills are pending |
| RecurringBillsPage.PagePaid | frontend/app/recurring-bills/page.tsx:6-92 | €1277.99 of the page's bills is paid |
| RecurringBillsPage.DimmedIffPaidLine | frontend/app/recurring-bills/page.tsx:107-134 | a row is dimmed exactly when it reads `Paid`. Every other status reads as due, with the suffix always `th` |
| Ratios.Percent | frontend/app/budgets/page.tsx:62-63 | `a / b * 100` is the exact fraction 100·a/b for b ≠ 0. For b = 0 it is +Infinity, -Infinity or NaN, as a is positive, negative or zero |
| Ratios.MinWith | frontend/components/HomeBudgets.tsx:77-80 | `Math.min(q, n)` is never above n, is NaN iff q is, has q's value when q ≤ n, and is n when q > n |
| Ratios.PercentAgainstHundred | frontend/app/budgets/page.tsx:62-63 | with a positive whole, the percentage is above, at or below 100 exactly as the part is above, at or below the whole |
| HomeBudgets.Shown | frontend/components/HomeBudgets.tsx:30 | at most the first 4 budgets, as a prefix in fetched order |
| HomeBudgets.BarNeverOverfull | frontend/components/HomeBudgets.tsx:77-80 | the bar is never wider than 100% |
| HomeBudgets.BarWidthClamps | frontend/components/HomeBudgets.tsx:77-80 | with a positive maximum, current ≤ maximum gives the unclamped ratio and current > maximum gives exactly 100 |
| HomeBudgets.RenderShape | frontend/components/HomeBudgets.tsx:38-86 | an empty list renders only the placeholder. Otherwise the widget shows at most 4 bars, in fetched order, with their widths |
| BudgetsPage.CardArithmetic | frontend/app/budgets/page.tsx:62-127 | spent plus remaining is the maximum. Remaining is negative exactly when overspent, which is exactly when the unclamped bar exceeds 100. The bar is exactly 100 iff nothing remains |
| BudgetsPage.SummaryBalances | frontend/app/budgets/page.tsx:47-127 | corrected summary: total spent plus the cards' remainders is the total limit |
| BudgetsPage.SummaryAsWrittenDisagrees | frontend/app/budgets/page.tsx:6-51 | the cards spend €285 of €975. The written limit matches, but the written €385 does not |
| BudgetsPage.DiningOutAtLimit | frontend/app/budgets/page.tsx:20-127 | Dining Out's bar is exactly full and nothing remains |
| PotsPage.PercentageAgainstTarget | frontend/app/pots/page.tsx:52-100 | with a positive target, the unclamped percentage exceeds 100 iff total > target, and is 100 iff total = target |
| PotsPage.ZeroTarget | frontend/app/pots/page.tsx:52 | no guard for a zero target: it gives Infinity (over 100) when anything is saved, and NaN for an empty pot |
| PotsPage.PagePotsBelowTarget | frontend/app/pots/page.tsx:6-52 | every pot on the page is below 100% |
| RecentTransactions.Recent | frontend/components/RecentTransactions.tsx:14 | at most the first 5 transactions, as a prefix in input order |
| RecentTransactions.Upper | frontend/components/RecentTransactions.tsx:66-68 | upper-casing keeps the length and maps each character |
| RecentTransactions.InitialsShape | frontend/components/RecentTransactions.tsx:66-68 | the placeholder is the first two characters upper-cased, or the whole name when it is shorter |
| RecentTransactions.AvatarChoice | frontend/components/RecentTransactions.tsx:56-69 | the picture shows exactly when the avatar is non-null and non-empty. Otherwise the initials show |
| RecentTransactions.IncomeStyling | frontend/components/RecentTransactions.tsx:84-90 | the `+` and the green style show iff `is_income`, and changing the amount changes neither |
| IncomeRepresentations.StoredPositiveAmount | backend/app/Http/Controllers/TransactionController.php:17-27 | an API-stored transaction with a positive amount counts as an expense on the cards and shows without `+`, yet changes no budget's `current` |
| IncomeRepresentations.StoredNegativeAmount | backend/app/Http/Controllers/BudgetController.php:16-20 | an API-stored negative amount under a budget's category raises that budget's `current` by its size and lowers the expenses card |

## Left out

- HTTP routing and JSON encoding. Controller actions are modelled whether or not a route reaches them. The application's bootstrap configuration is not part of this model. Laravel's default global middleware is assumed. Of that middleware only `TrimStrings` and `ConvertEmptyStringsToNull` touch a request body; both are modelled as `Requests.Normalize`.
- Requests.Trim: strips the six characters of PHP's `trim`. The `TrimStrings` pattern also strips form feed and a few invisible Unicode characters (byte-order mark, zero-width space), which the model keeps. Its exempted password fields are not fields of these requests.
- Requests.KindAccepts: `numeric` and `integer` accept only JSON numbers. Numeric strings such as `"12.50"`, which Laravel also accepts, are not modelled. Neither is `"true"`-style coercion.
- Requests.KindAccepts: `boolean` accepts the numbers 0 and 1 as `Num(0)` and `Num(100)`. Cents cannot tell `1` from `1.0`, so JSON `0.0` and `1.0`, which Laravel's strict comparison rejects, are accepted too.
- Requests.KindAccepts: `date` rejects every number. PHP's `strtotime` may accept some numeric values.
- Date parsing: whether a string passes `date` is a parameter (`isDate`) of the transaction operations.
- The `created_at` clock is a parameter (`now`) of `TransactionController.Store`. `updated_at` is not modelled.
- Amounts are whole cents. Input with more than two decimals, which `decimal(10,2)` rounds, and the column's range limit are not modelled.
- Floating-point arithmetic in the front end is not modelled: sums and ratios are exact. So are `toFixed`, `Intl.NumberFormat` and date formatting.
- BudgetsChart.GroupByCategory: keys come back in insertion order. JavaScript lists integer-like keys such as `"2024"` first. A key inherited from `Object.prototype`, such as `constructor`, is truthy in `!acc[category]`. Both are outside the model.
- RecentTransactions.Upper: ASCII upper case only. `toUpperCase` on other letters, and `substring` on UTF-16 code units (a character outside the Basic Multilingual Plane is two units), are not modelled.
- Ordering.TextLe: a binary collation. A case-insensitive database collation would order differently; the database in use is not part of this model.
- Category matching between budgets and transactions is exact string equality, for the same reason.
- Tables.Table.Listing: `all()` issues no `ORDER BY`. The ascending id order is assumed: it is the primary-key order the database usually returns, and SQL does not promise it. HomeBudgets' "first 4" and the id order stated for `BudgetController.Index` and `PotController.Index` depend on it.
- The Budget model and the migrations of the budgets and transactions tables are not part of this model. Budget `create` is assumed to store the four columns given. `is_income` and `is_recurring` are assumed to default to false.
- HomeBudgets: the `useEffect` fetch and the `setBudgets` state update are not modelled. Rendering is a function of the fetched list.
- The AI advisor controller and page: an outbound call to a hosted language model.
- The transactions page, the overview page, the pots widget, the layout and the sidebar: fetching and presentation.
- Uniqueness, concurrency and last-write-wins between clients: the model runs one operation at a time.
- The response body of `update` is the record as rewritten. Values Laravel would cast on the way out, such as decimals serialised as strings, are not modelled.

## Findings

| source | as written | input that shows it | evidently intended | confidence | as-written member | corrected member |
|---|---|---|---|---|---|---|
| backend/app/Http/Controllers/RecurringBillController.php:12 | `orderBy('due_day')` on a string column (backend/database/migrations/2026_01_03_104043_create_recurring_bills_table.php:18) compares text | two bills due on the 2nd and the 10th: `"10"` sorts before `"2"` | listing in order of the day of the month | not executed | RecurringBillController.IndexListsTenthBeforeSecond | RecurringBillController.IndexByDayNumber |
| frontend/app/budgets/page.tsx:47-51 | the spending summary is the literal `€385 of €975` | the four cards on the same page spend 15 + 150 + 75 + 45 = €285 against 50 + 750 + 75 + 100 = €975 | the cards' total spent, €285, of their total limit | not executed | BudgetsPage.SummaryAsWrittenDisagrees | BudgetsPage.SummaryBalances |
