# TrackFi logic layer in Dafny

TrackFi is a personal-finance app that runs only in the browser. It keeps transactions,
categories, budgets, savings goals and a user profile in one store (`FinanceContext`).
Its pages and dashboard widgets compute totals, per-category tallies, time-series
buckets, budget consumption and goal progress from that store. This project models
that logic layer and proves what each piece promises:

- `finance_context.dfy`: the store as a class `FinanceStore` whose five collections are
  sequence fields. Add, update and delete are methods on it. The category delete guard
  and the user merge are modelled too.
- `id_collections.dfy`: append-with-fresh-id, replace-by-id and remove-by-id on any
  record sequence, with their laws.
- `finance_summary.dfy`: `getFinanceSummary`, i.e. totals, net savings, savings rate and
  the top five expense categories.
- `csv_export.dfy`: the CSV text built by `exportToCSV`.
- `budgets.dfy`: `getBudgetSpent` (module `Budgets`) and the budget card arithmetic
  (module `BudgetCard`).
- `goals.dfy`: contributions, grouping, sorting and goal cards (module `Goals`), and the
  dashboard goal panel (module `GoalsProgress`).
- `reports.dfy`: the three report series of the Reports page.
- `dashboard.dfy`: the dashboard's monthly trend, expense chart and recent
  transactions.
- `transaction_list.dfy`: the transaction list's category choices, its filter and its
  newest-first order.
- `transaction_form.dfy` and `budget_form.dfy`: the two forms. Each has its initial
  data, its field edits, its category choices and its add-or-update submit.
- `header.dfy`: the page title.
- `theme.dfy`: the theme provider.
- Shared definitions:
  - `records.dfy`: the records and the sums over transactions;
  - `calendar.dfy`: a proleptic Gregorian calendar with day numbers;
  - `progress.dfy`: percentages and bar widths;
  - `seqs.dfy`: the stable sort, filtering, de-duplication and sums;
  - `text.dfy`: ASCII case mapping and substring search.

Modelling choices:
- Amounts are whole cents (`nat`). Budget amounts and goal targets are positive,
  because the source divides by them.
- Dates are calendar dates. The current date, fresh ids, the answers to `confirm` and
  `prompt`, and the system's dark-mode preference are all parameters.
- A JavaScript object used as a dictionary lists integer-like keys in ascending order
  first, then the other keys in insertion order. `Reports.ObjectValues` models that
  order.
- Every array sort in the source is modelled by one stable sort, `Seqs.SortDesc`.
  JavaScript's `Array.prototype.sort` is stable.
- Where the source loops or mutates in place, the model has a method with a loop or
  with `modifies`. That covers the store's mutators, the bucket-filling loops in the
  Reports page, the `reduce` calls that mutate their accumulator, the form state and
  the theme state. Each such method is proved against a function or a stated new
  state.

Behaviour the proofs make explicit (modelled as the code does it):
- In the Reports page's year view of income versus expense, the keys are years. These
  are integer-like keys, so `Object.values` lists them in ascending order, and after
  `.reverse()` the bars run newest year first. Every other series runs oldest first
  (`Reports.IncomeVsExpenseYearly`).
- The 30-day time series admits every transaction dated after today, and it matches
  buckets on month and day only. A transaction dated exactly one year ahead is
  therefore counted in today's point (`Reports.NextYearCountsToday`).
- The dashboard's expense chart totals only its five largest categories. It still
  shows its empty state exactly when no expense has a positive amount
  (`ExpensesChart.EmptyChart`).
- The transaction form's data keeps the chosen category when the type is switched,
  even one the new type does not offer, while the select no longer lists it
  (`TransactionForm.TypeSwitchKeepsCategory`). "Other" is
  offered for both types (`TransactionForm.OfferedTypes`).
- Toggling the theme from "system" while the system is light goes to "light", so
  nothing visible changes (`Theme.ToggleFromLightSystem`).
- The CSV export wraps text columns in quotes but escapes nothing. A newline inside
  any transaction's description breaks its row in two, so the export splits into more
  lines than the header plus one per transaction
  (`CsvExport.NewlineInDescriptionSplitsLine`).
- The transaction list uses "all" as its category filter value for every category. A
  transaction category literally named "all" therefore cannot be selected on its own.

## Model

| member | source | states |
|---|---|---|
| FinanceContext.DefaultCategories | src/context/FinanceContext.tsx:7-19 | There are eleven default categories, each carrying the fresh id given for it. |
| FinanceContext.FindCategory | src/context/FinanceContext.tsx:143-146 | The lookup finds nothing exactly when no category has the id. Otherwise it returns the first category with that id. |
| FinanceContext.DeleteKeepsUsedCategories | src/context/FinanceContext.tsx:141-155 | When the guard lets a delete through, no removed category is named by any transaction. |
| FinanceContext.DeleteUnknownCategory | src/context/FinanceContext.tsx:143-153 | Deleting an id no category has is not blocked and leaves the categories as they are. |
| FinanceContext.CategoryInUseWitness | src/context/FinanceContext.tsx:143-146 | A transaction booked under the name of the category with the id makes that category in use. |
| FinanceContext.MergeUserLaws | src/context/FinanceContext.tsx:192-195 | The user merge is shallow: a supplied field overrides and an absent one keeps its value. The empty patch changes nothing, merging is idempotent, and two merges equal one merge of the combined patch. |
| FinanceContext.FinanceStore.constructor | src/context/FinanceContext.tsx:58-81 | Each collection is its saved value, or the default when nothing is saved (empty lists, the default categories, the default user). Starting from nothing saved, with distinct default category ids, every collection holds each id once. |
| FinanceContext.FinanceStore.AddTransaction | src/context/FinanceContext.tsx:105-109 | Appends the draft under the fresh id, changes no other collection, and keeps ids unique. |
| FinanceContext.FinanceStore.UpdateTransaction | src/context/FinanceContext.tsx:111-118 | Replaces every transaction with the argument's id and keeps the rest, with order and length unchanged. |
| FinanceContext.FinanceStore.DeleteTransaction | src/context/FinanceContext.tsx:120-123 | Removes the transactions with the id and keeps the rest in order. |
| FinanceContext.FinanceStore.AddCategory | src/context/FinanceContext.tsx:126-130 | Appends the draft category under the fresh id and changes nothing else. |
| FinanceContext.FinanceStore.UpdateCategory | src/context/FinanceContext.tsx:132-139 | Replaces the category with the argument's id and keeps the others. |
| FinanceContext.FinanceStore.DeleteCategory | src/context/FinanceContext.tsx:141-155 | Succeeds exactly when no transaction uses the category's name, and then removes the id. When it is refused, nothing changes. |
| FinanceContext.FinanceStore.AddBudget | src/context/FinanceContext.tsx:158-162 | Appends the draft budget under the fresh id and changes nothing else. |
| FinanceContext.FinanceStore.UpdateBudget | src/context/FinanceContext.tsx:164-167 | Replaces the budget with the argument's id and keeps the others. |
| FinanceContext.FinanceStore.DeleteBudget | src/context/FinanceContext.tsx:169-172 | Removes the budgets with the id and keeps the rest in order. |
| FinanceContext.FinanceStore.AddGoal | src/context/FinanceContext.tsx:175-179 | Appends the draft goal under the fresh id and changes nothing else. |
| FinanceContext.FinanceStore.UpdateGoal | src/context/FinanceContext.tsx:181-184 | Replaces the goal with the argument's id and keeps the others. |
| FinanceContext.FinanceStore.DeleteGoal | src/context/FinanceContext.tsx:186-189 | Removes the goals with the id and keeps the rest in order. |
| FinanceContext.FinanceStore.UpdateUser | src/context/FinanceContext.tsx:192-195 | The user becomes the shallow merge of the old user and the patch. The collections are unchanged. |
| IdCollections.ReplaceByIdAt | src/context/FinanceContext.tsx:111-118 | Replace-by-id keeps the length. Each position holds the new record if its id matches and the old record otherwise. |
| IdCollections.ReplaceKeepsIds | src/context/FinanceContext.tsx:111-118 | Replace-by-id keeps the sequence of ids, and with it their uniqueness. |
| IdCollections.ReplaceUnknownId | src/context/FinanceContext.tsx:111-118 | Updating with an id no record has is a no-op. |
| IdCollections.ReplaceIdempotent | src/context/FinanceContext.tsx:111-118 | Applying the same update twice equals applying it once. |
| IdCollections.ReplaceFindsNew | src/context/FinanceContext.tsx:111-118 | After an update, the only record with the new record's id is the new record. |
| IdCollections.ReplaceWithSelf | src/context/FinanceContext.tsx:111-118 | With unique ids, updating a record with itself changes nothing. |
| IdCollections.UniqueIdFinds | src/context/FinanceContext.tsx:143-146 | With unique ids, the first record carrying a member's id is that member. |
| IdCollections.RemoveMembers | src/context/FinanceContext.tsx:120-123 | After remove-by-id, a record remains exactly when it was there and has another id. |
| IdCollections.RemoveAppend | src/context/FinanceContext.tsx:120-123 | Remove-by-id distributes over concatenation, so the survivors keep their relative order. |
| IdCollections.RemoveUnknownId | src/context/FinanceContext.tsx:120-123 | Removing an id no record has is a no-op. |
| IdCollections.RemoveKeepsUnique | src/context/FinanceContext.tsx:120-123 | Removing keeps ids unique. |
| IdCollections.AppendFreshKeepsUnique | src/context/FinanceContext.tsx:105-109 | Appending under a fresh id keeps ids unique. |
| IdCollections.RemoveAfterAppend | src/context/FinanceContext.tsx:105-123 | Deleting what was just added under a fresh id restores the collection. |
| Records.SumWhereAppend | src/context/FinanceContext.tsx:199-205 | A filtered sum over a concatenation is the sum of the two filtered sums. |
| Records.TotalOfSnoc | src/context/FinanceContext.tsx:199-205 | A new transaction adds its amount to the total of its own type and nothing to the other. |
| Records.CategoryExpenseBound | src/context/FinanceContext.tsx:211-216 | One category's expenses never exceed all expenses. |
| Records.ExpenseCategoriesMembers | src/context/FinanceContext.tsx:211-216 | A name is an expense category exactly when some expense is booked under it. |
| FinanceSummary.TallyExpenses | src/context/FinanceContext.tsx:211-216 | The `forEach` tally has one entry per expense category, in order of first appearance, and each entry holds that category's expense sum. |
| FinanceSummary.BumpNames | src/context/FinanceContext.tsx:215 | Bumping a category grows its entry, or appends the category when it is new. |
| FinanceSummary.PercentageBounds | src/context/FinanceContext.tsx:222 | A category's share lies between 0 and 100. It is 0 when there are no expenses and 100 exactly when the category is all of them. |
| FinanceSummary.SavingsRateBounds | src/context/FinanceContext.tsx:207-208 | The savings rate is 0 with no income and at most 100. With income, it is 100 exactly when nothing is spent and negative exactly when spending exceeds income. |
| FinanceSummary.TopFiveSorted | src/context/FinanceContext.tsx:224-225 | The top list has at most five entries, sorted by amount descending, each taken from the input. |
| FinanceSummary.TopFiveDistinct | src/context/FinanceContext.tsx:218-225 | No category appears twice in the top list. |
| FinanceSummary.TopFiveLargest | src/context/FinanceContext.tsx:224-225 | A category left out of the top list is outranked by all five kept ones. |
| FinanceSummary.TopExpenseCategories | src/context/FinanceContext.tsx:211-225 | Each top entry is an expense category, with its sum and its share of all expenses. Any category left out is outranked by five kept ones. |
| FinanceSummary.GetFinanceSummary | src/context/FinanceContext.tsx:198-234 | The totals are the income and expense sums, and net savings is their difference. The savings rate is as stated above. The top categories are at most five, sorted, distinct, exact and with bounded shares, and every omitted category is outranked. |
| CsvExport.ValueOfDigits | src/context/FinanceContext.tsx:242 | The decimal rendering of a number reads back as that number. |
| CsvExport.AmountTextRoundTrip | src/context/FinanceContext.tsx:242 | The amount column, rendered as JavaScript prints the number, reads back as the same number of cents. |
| CsvExport.SplitJoin | src/context/FinanceContext.tsx:244 | Joining lines that do not contain the separator and splitting again gives the lines back. |
| CsvExport.CsvLines | src/context/FinanceContext.tsx:239-244 | When no id, description or category contains a newline, the export is the header line followed by one line per transaction, in order. |
| CsvExport.LineColumns | src/context/FinanceContext.tsx:242 | When no id, description or category contains a comma, a line splits into the six columns. The id and amount are bare, the other four are quoted and not escaped. |
| CsvExport.NewlineInDescriptionSplitsLine | src/context/FinanceContext.tsx:242-244 | For any list of transactions, a newline in any one description is not escaped, so the export splits into more lines than the header plus one per transaction. |
| CsvExport.NoSeparatorInGenerated | src/context/FinanceContext.tsx:242 | The generated amount, date and type columns contain no comma and no newline. |
| Budgets.NoCategoryCountsAll | src/pages/Budgets.tsx:17-21 | When the budget's category id is missing, empty or unknown, expenses of every category in the window count. |
| Budgets.CategoryNarrowsSpent | src/pages/Budgets.tsx:24-37 | Naming a category can only lower what is spent. Spent never exceeds the window's expenses or all expenses. |
| Budgets.SpentAfterAppend | src/pages/Budgets.tsx:29-37 | A new transaction raises spent by exactly its amount when the filter selects it, and otherwise leaves it unchanged. An income never changes it. |
| Budgets.WindowInclusive | src/pages/Budgets.tsx:27-29 | Expenses dated on the start day or on the end day count. A missing end date means today. |
| Budgets.NothingSpent | src/pages/Budgets.tsx:24-37 | When the filter selects nothing, spent is 0. |
| BudgetCard.RemainingSpec | src/components/budgets/BudgetCard.tsx:17 | The amount left is never negative. It is 0 exactly when spent reaches the amount, and otherwise spent plus left is the amount. |
| BudgetCard.ColorBands | src/components/budgets/BudgetCard.tsx:16-25 | The bar is danger above 85 percent, warning from above 65 to 85, primary up to 65. The percentage label is danger exactly when spent exceeds the amount. |
| BudgetCard.ColorMonotone | src/components/budgets/BudgetCard.tsx:20-25 | Spending more never moves the bar to a milder colour. |
| Progress.PercentAbove | src/components/budgets/BudgetCard.tsx:16 | A percentage is above (or at least) a threshold exactly when the cross-multiplied amounts are. |
| Progress.BarWidthSpec | src/components/budgets/BudgetCard.tsx:60 | The bar width lies between 0 and 100. It equals the percentage up to the full amount, and it is 100 exactly when the part reaches the whole. |
| Goals.CompletedIff | src/pages/Goals.tsx:145-146 | A goal is completed exactly when the saved amount reaches the target. The Contribute button is offered exactly when it has not. |
| Goals.BarColorBands | src/pages/Goals.tsx:182-190 | The bar is success when completed, primary above 75 percent, warning above 25 and danger otherwise, each as a condition on the amounts. |
| Goals.GoalBarWidth | src/pages/Goals.tsx:191 | The bar width is at most full, and it is full exactly when the goal is completed. |
| Goals.ContributionSpec | src/pages/Goals.tsx:31-40 | A contribution that is missing, not a number or not positive is refused. An accepted one changes only the saved amount, to the old amount plus the contribution capped at the target. |
| Goals.HandleContribute | src/pages/Goals.tsx:31-40 | An accepted contribution goes through the goal update. A refused one changes nothing, and no other collection changes. |
| Goals.GroupGoals | src/pages/Goals.tsx:43-49 | The `reduce` fills the high, medium and low lists with the goals of each priority, in their order. |
| Goals.OfPriorityAppend | src/pages/Goals.tsx:43-49 | Grouping distributes over concatenation, so each group keeps the goals' order. |
| Goals.GroupsPartition | src/pages/Goals.tsx:43-49 | Together the three groups hold every goal exactly as often as the input does. |
| Goals.OfPriorityCount | src/pages/Goals.tsx:43-49 | A group holds each goal of its priority as often as the input does, and no other goal. |
| Goals.OfPriorityMembers | src/pages/Goals.tsx:43-49 | A goal is in a group exactly when it is a goal with that priority. |
| Goals.SortGoals | src/pages/Goals.tsx:52-56 | The sorted copy is a permutation of the goals, most advanced first. |
| Goals.OverdueSpec | src/pages/Goals.tsx:204-207 | "Overdue" is shown exactly when there is a deadline, the goal is not completed and the deadline is not after today. |
| Goals.DaysBetweenSpec | src/pages/Goals.tsx:250-254 | The day count is symmetric, it is zero only from a date to itself, and a date n days back is n days away. |
| GoalsProgress.TopGoalsSpec | src/components/dashboard/GoalsProgress.tsx:10-12 | At most three goals are shown, most advanced first, all from the input. A goal not shown is outranked by three shown ones. With three goals or fewer, all are shown. |
| GoalsProgress.PriorityColorInjective | src/components/dashboard/GoalsProgress.tsx:29-33 | Every priority has a badge colour, and different priorities get different ones. |
| Reports.InitBuckets | src/pages/Reports.tsx:62-69 | The initialising loop creates one zero bucket per distinct key, in order. |
| Reports.FillBuckets | src/pages/Reports.tsx:71-86 | Creating the buckets and then accumulating every admitted transaction into the bucket with its key gives the tally. |
| Reports.Accumulate | src/pages/Reports.tsx:97-115 | The `forEach` adds each admitted transaction to the bucket with its key: income to income, anything else to expense. Keys without a bucket are skipped. |
| Reports.AccumulateOne | src/pages/Reports.tsx:79-84 | One step of the loop keeps each bucket equal to the sums over the transactions seen so far. |
| Reports.NoIndexKeys | src/pages/Reports.tsx:119 | Without integer-like keys, `Object.values` lists the buckets in insertion order. |
| Reports.DescendingIndexKeysReversed | src/pages/Reports.tsx:145-148 | Integer-like keys inserted in descending order are listed in ascending order, which is the reverse of insertion. |
| Reports.MonthLabelsDistinct | src/pages/Reports.tsx:89-95 | The months counted back from the current one are pairwise distinct, so no bucket is overwritten. |
| Reports.MonthsBackDiff | src/pages/Reports.tsx:89-95 | The i-th month back, whose year drops by one for an index after the current month, lies i months before today. |
| Reports.DayLabelsDistinct | src/pages/Reports.tsx:62-69 | The 30 month/day keys are pairwise distinct. |
| Reports.DayMatch | src/pages/Reports.tsx:71-86 | An admitted date matches a day bucket's month/day key exactly when it is that day. |
| Reports.GetTimeSeriesData | src/pages/Reports.tsx:48-120 | Returns the reversed values of the filled buckets, for the 30-day or the 12-month frame. |
| Reports.DailySeries | src/pages/Reports.tsx:60-86 | The month view has 30 points, oldest day first and today last. Each point holds the income and the expense of its day. |
| Reports.LastDayPoint | src/pages/Reports.tsx:62-69 | The last point of the month view is today's bucket. |
| Reports.NextYearCountsToday | src/pages/Reports.tsx:71-86 | A transaction dated one year after today passes the 30-day filter and is counted in today's point. |
| Reports.MonthlySeries | src/pages/Reports.tsx:87-119 | The year view has 12 points, eleven months back first and the current month last. Each holds its month's income and expense. |
| Reports.WithSavings | src/pages/Reports.tsx:186-188 | Every bucket gets savings equal to income minus expense, with the rest unchanged. |
| Reports.AddSavings | src/pages/Reports.tsx:186-188 | The savings loop produces those buckets. |
| Reports.GetIncomeVsExpenseData | src/pages/Reports.tsx:123-192 | Returns the reversed values of the filled buckets with savings, for six months or six years. |
| Reports.IncomeVsExpenseMonthly | src/pages/Reports.tsx:136-143 | The month view has six bars, five months back first and the current month last. Each has the month's income, expense and difference. |
| Reports.IncomeVsExpenseYearly | src/pages/Reports.tsx:145-191 | The year view has six bars running from this year back to five years ago, the opposite direction of the other series. Each has the year's income, expense and difference. |
| Reports.FindByName | src/pages/Reports.tsx:37 | Finds nothing exactly when no category has the name. Otherwise it returns a category with that name. |
| Reports.FindByNameFirst | src/pages/Reports.tsx:37 | It returns the first category with the name. |
| Reports.ColorForSpec | src/pages/Reports.tsx:37-41 | A slice's colour is the first same-named category's colour, or `#94a3b8` when that colour is empty. |
| Reports.ColorForMissing | src/pages/Reports.tsx:41 | With no category of that name, the colour is `#94a3b8`. |
| Reports.GetCategoryData | src/pages/Reports.tsx:26-45 | One slice per expense category and no other, sorted by value descending with no cut. Each slice has the category's expense sum and colour. |
| Reports.CategorySlices | src/pages/Reports.tsx:35-44 | Mapping and sorting the tally keeps one slice per expense category, with its sum and colour. |
| MonthlyTrend.MonthlyData | src/components/dashboard/MonthlyTrend.tsx:18-36 | One bucket per month that has a transaction, in order of first appearance. Each bucket holds its month's income, its expense and savings as their difference. The incomes add up to all income and the expenses to all expenses. |
| MonthlyTrend.AddToMonth | src/components/dashboard/MonthlyTrend.tsx:19-35 | One step of the `reduce` creates the month's bucket if it is missing, books the amount and keeps every bucket exact. |
| MonthlyTrend.GetMonthlyTrend | src/components/dashboard/MonthlyTrend.tsx:18-43 | The chart is in strictly increasing calendar order, with each point an exact month bucket. Every transaction's month is present, the totals are preserved, and the chart is empty exactly when there are no transactions. |
| MonthlyTrend.TrendOrder | src/components/dashboard/MonthlyTrend.tsx:39-43 | Sorting the buckets by the first of their month keeps them and orders them chronologically. |
| MonthlyTrend.MonthNumberInjective | src/components/dashboard/MonthlyTrend.tsx:40-42 | Different months compare as different dates. |
| ExpensesChart.ExpensesByCategory | src/components/dashboard/ExpensesChart.tsx:10-25 | The `reduce` over expenses has one entry per expense category, in order of first appearance. Each entry holds the category's sum and the colour found when the entry was created. |
| ExpensesChart.AddExpense | src/components/dashboard/ExpensesChart.tsx:13-24 | One step grows the entry with the expense's category, or pushes a new entry with the category's colour. |
| ExpensesChart.SkipIncome | src/components/dashboard/ExpensesChart.tsx:11 | An income changes no entry. |
| ExpensesChart.TopCategoriesSpec | src/components/dashboard/ExpensesChart.tsx:26-27 | At most five entries, largest first, each from the tally, with no category twice. An entry left out is outranked by all five kept ones. |
| ExpensesChart.SumZero | src/components/dashboard/ExpensesChart.tsx:30 | A total of entries is never negative, and it is zero exactly when every entry is zero. |
| ExpensesChart.EmptyChart | src/components/dashboard/ExpensesChart.tsx:30-52 | The empty state shows exactly when no expense has a positive amount, although the total covers only the top five. |
| RecentTransactions.RecentSpec | src/components/dashboard/RecentTransactions.tsx:10-12 | At most five transactions, newest first, all from the input. One left out is no newer than the five shown. With five or fewer, all are shown. |
| TransactionList.CategoriesSpec | src/components/transactions/TransactionList.tsx:26 | The category choices name each transaction's category once and no other, in order of first appearance. |
| TransactionList.FilteredSpec | src/components/transactions/TransactionList.tsx:29-42 | A transaction is shown exactly when it matches the search, the type and the category, each as often as in the store and in the store's order. |
| TransactionList.EmptySearchMatches | src/components/transactions/TransactionList.tsx:31-33 | An empty search matches every transaction. |
| TransactionList.SearchIgnoresCase | src/components/transactions/TransactionList.tsx:31-33 | Searches that are equal up to case match the same transactions. |
| TransactionList.SearchIgnoresUpperCase | src/components/transactions/TransactionList.tsx:31-33 | Lower-casing the search changes nothing. |
| TransactionList.NoFilterShowsAll | src/components/transactions/TransactionList.tsx:36-39 | An empty search with "all" types and "all" categories shows the whole list. |
| TransactionList.CategorySelectNarrows | src/components/transactions/TransactionList.tsx:39 | A chosen category keeps only transactions of that category, and "all" imposes no constraint. |
| TransactionList.ListedSpec | src/components/transactions/TransactionList.tsx:45-47 | The list is a permutation of the filtered transactions, newest date first. Transactions on the same day keep their filtered order. |
| TransactionList.HandleDelete | src/components/transactions/TransactionList.tsx:54-58 | The transaction is removed only when the user confirms, and nothing else changes. |
| TransactionForm.CategoryOptionsSpec | src/components/transactions/TransactionForm.tsx:132-139 | The options are exactly the categories the type allows, each as often as in the store and in its order. |
| TransactionForm.OfferedTypes | src/components/transactions/TransactionForm.tsx:135-138 | Every category is offered for some type, and only "Other" is offered for both. |
| TransactionForm.Initial | src/components/transactions/TransactionForm.tsx:13-19 | When editing, the form holds the edited transaction's fields. A new form holds an expense of 0, dated today, with empty description and category. |
| TransactionForm.ChangesCompose | src/components/transactions/TransactionForm.tsx:31-39 | Of two edits to the same input the later wins, and edits to different inputs commute. |
| TransactionForm.TypeSwitchKeepsCategory | src/components/transactions/TransactionForm.tsx:35-38 | Switching an expense under "Food" to income keeps "Food" in the form's data, although income does not offer it. |
| TransactionForm.TransactionFormState.constructor | src/components/transactions/TransactionForm.tsx:13-19 | The form starts from its initial data. |
| TransactionForm.TransactionFormState.HandleChange | src/components/transactions/TransactionForm.tsx:31-39 | One input changes and the others keep their values. |
| TransactionForm.TransactionFormState.HandleSubmit | src/components/transactions/TransactionForm.tsx:21-29 | An edit replaces the record with the edited id by the form's data under that id. A new transaction is appended under a fresh id. Nothing else changes. |
| TransactionForm.UntouchedEditKeepsStore | src/components/transactions/TransactionForm.tsx:13-29 | Submitting an opened transaction untouched leaves the store as it was. |
| TransactionForm.EditedRecordStored | src/components/transactions/TransactionForm.tsx:23-24 | After an edit, the edited record is stored, it is the only one with its id, and the ids are unchanged. |
| TransactionForm.ChosenCategoryInUse | src/components/transactions/TransactionForm.tsx:132-141 | A transaction added under an offered category puts that category in use, so the store refuses to delete it. |
| BudgetForm.BudgetCategoryOptionsSpec | src/components/budgets/BudgetForm.tsx:125-131 | The options are exactly the categories other than Salary and Investment, in order. |
| BudgetForm.BudgetOptionsAreExpenseOptions | src/components/budgets/BudgetForm.tsx:126 | A budget can be limited to exactly the categories the transaction form offers for expenses. |
| BudgetForm.Initial | src/components/budgets/BudgetForm.tsx:13-20 | When editing, the form holds the budget's fields, with an empty category id read as none. A new form is monthly, amount 0, starting today, with no name, category or end. |
| BudgetForm.InitialKeepsSpent | src/components/budgets/BudgetForm.tsx:17 | Dropping an empty category id does not change what the budget counts as spent. |
| BudgetForm.AllCategoriesCountsAll | src/components/budgets/BudgetForm.tsx:124 | Choosing "All Categories" makes the budget count expenses of every category. |
| BudgetForm.ChosenCategoryFilters | src/components/budgets/BudgetForm.tsx:128 | Choosing a listed category stores its id, and the budget then counts that category's name. |
| BudgetForm.BudgetFormState.constructor | src/components/budgets/BudgetForm.tsx:13-20 | The form starts from its initial data. |
| BudgetForm.BudgetFormState.HandleChange | src/components/budgets/BudgetForm.tsx:34-43 | One input changes and the others keep their values. |
| BudgetForm.BudgetFormState.HandleSubmit | src/components/budgets/BudgetForm.tsx:22-32 | An edit replaces the budget with the edited id, and a new budget is appended under a fresh id. Nothing else changes. |
| BudgetForm.UntouchedEditKeepsStore | src/components/budgets/BudgetForm.tsx:13-32 | Submitting an opened budget untouched leaves the budgets as they were. |
| Header.TitleIsPathSegment | src/components/layout/Header.tsx:13-17 | Away from the root, the title is one character shorter than the path. It equals the path after its first character up to case, and only its first character can differ. |
| Header.PathFromTitle | src/components/layout/Header.tsx:16 | For a route with a lower-case segment, the path can be recovered from the title. |
| Header.TitlesMatchSidebar | src/components/layout/Header.tsx:15-16 | Each of the app's routes gets the sidebar's label for it as its title, "Dashboard" for the root. |
| Theme.Toggled | src/context/ThemeContext.tsx:68-70 | Toggling always lands on an explicit light or dark mode. |
| Theme.ToggleSpec | src/context/ThemeContext.tsx:68-70 | After a toggle, darkness no longer depends on the system, and the page is dark exactly when it was light. Toggling twice restores light or dark. |
| Theme.ToggleFromLightSystem | src/context/ThemeContext.tsx:69 | Toggling from "system" on a light system gives "light", so nothing visible changes. |
| Theme.ThemeState.constructor | src/context/ThemeContext.tsx:16-24 | The saved mode and scheme are restored, defaulting to "system" and "blue", and then applied and stored. |
| Theme.ThemeState.ApplyTheme | src/context/ThemeContext.tsx:30-45 | The dark flag and the `dark` class are true for "dark", follow the system for "system", and are false for "light". |
| Theme.ThemeState.SetThemeMode | src/context/ThemeContext.tsx:56-61 | A new mode is applied and saved. |
| Theme.ThemeState.SetColorScheme | src/context/ThemeContext.tsx:63-65 | A new scheme is saved, and darkness does not change. |
| Theme.ThemeState.ToggleTheme | src/context/ThemeContext.tsx:68-70 | The mode becomes the toggled one, and the page is dark exactly when it was light. |
| Theme.ThemeState.OnSystemChange | src/context/ThemeContext.tsx:47-51 | A change of the system's preference changes darkness only in "system" mode. |
| Text.ToLowerIdempotent | src/components/transactions/TransactionList.tsx:32 | Lower-casing twice is lower-casing once. |
| Text.IncludesEmpty | src/components/transactions/TransactionList.tsx:32-33 | Every text includes the empty text. |
| Calendar.MinusDaysNumber | src/pages/Reports.tsx:63-64 | Going back n days gives a valid date n day numbers earlier. |
| Calendar.DayNumberInjective | src/pages/Reports.tsx:72 | Different valid dates have different day numbers. |
| Seqs.SortDesc | src/components/dashboard/RecentTransactions.tsx:10-11 | The copy sorted with a comparator is sorted descending by the key and is a permutation of the input. |
| Seqs.SortDescStable | src/components/dashboard/RecentTransactions.tsx:10-11 | The sort is stable: for every key value, the elements with that key appear in the same order as in the input. |
| Seqs.TopOfSorted | src/components/dashboard/RecentTransactions.tsx:10-12 | The first k of the sorted copy come from the input. Any element not among them is outranked by k kept ones. |
| Seqs.DistinctMembers | src/components/transactions/TransactionList.tsx:26 | De-duplication keeps every value once and adds none. |
| Seqs.FilterCount | src/components/transactions/TransactionList.tsx:29 | A filter keeps each element that passes as often as the input has it, and drops the others. |

## Left out

- JSX rendering, the charts, icons, modals and routing are presentation only.
  `Settings.tsx`, `GoalForm.tsx` and the `FinanceSummary.tsx` component are not part of
  this model.
- Saved data is a parameter of `FinanceStore.constructor` and of
  `ThemeState.constructor`. It is `None` when nothing is saved. `localStorage`, JSON
  parsing and the persist-on-change effects are not modelled, beyond the store holding
  its latest state.
- A saved theme mode or scheme outside the allowed values is not representable. The
  source would use it as is.
- `uuidv4` is replaced by a fresh-id parameter. The add methods require an id not
  already present.
- The toasts are left out. `FinanceStore.DeleteCategory` returns `ok` where the source
  shows an error toast.
- The Blob, the object URL and the download link of `exportToCSV` are left out. Only
  the CSV text is modelled.
- `window.confirm`, `prompt` and `matchMedia` answers are parameters: `confirmed`, the
  parsed contribution and `prefersDark`.
- The confirm-then-delete handlers of the Budgets and Goals pages are not modelled
  separately. They have the same shape as `TransactionList.HandleDelete`, over
  `DeleteBudget` and `DeleteGoal`.
- Registering and removing the `matchMedia` listener is not modelled.
  `Theme.ThemeState.OnSystemChange` is the event itself.
- Amounts are whole cents, so floating-point rounding, `parseFloat`, `toFixed`,
  `Math.round` and currency formatting are left out. Percentages are exact reals.
- Time of day, time zones and locale month names are not modelled. Dates are calendar
  days, and month labels are (year, month) pairs. A goal's "now" is later than the
  midnight starting today.
- A zero budget amount or goal target makes the source divide by zero. `PositiveCents`
  excludes it.
- BudgetForm.BudgetFormState.HandleSubmit: requires a positive amount, although the
  form's input (`min="0"`) admits 0. A zero-amount budget is outside the model because
  the card divides by it.
- TransactionForm.Initial: an edited transaction whose fields are empty falls back to
  the defaults (`|| ''`, `|| 0`). The model takes the fields as they are, which agrees
  except for an empty date, which the source replaces by today.
- Reports.IncomeVsExpenseYearly: requires a year of at least 5 and below 2^32 - 1.
  Only within that range are the year keys the integer-like array indices that
  `Object.values` sorts ascending.
- Reports.DailySeries: requires transactions dated on valid days no later than today.
  A later date can land in a day bucket by month and day, which
  `Reports.NextYearCountsToday` shows.
- `isDarkMode` starts `false` before the first effect runs. The model applies the
  effects within each operation, so `Theme.ThemeState.constructor` ends with the
  applied value.
- Text case mapping covers ASCII letters only. JavaScript's `toLowerCase` and
  `toUpperCase` map all of Unicode.
- FinanceSummary.TallyExpenses, Reports.GetCategoryData: the tally keeps the
  categories in order of first appearance. `Object.entries` would list integer-like
  category names (such as "2024") first. After the stable sort by amount, this can
  change only the order of categories with equal sums.
- FinanceSummary.TallyExpenses, Reports.GetCategoryData: the source tallies into a
  plain `{}` object, which inherits `Object.prototype`. A category named like one of its
  members is tallied differently. "constructor", "toString" or "valueOf" first reads an
  inherited function, so the sum becomes a string and the amount and share are NaN.
  "__proto__" ignores the number assigned to it, so that category drops out of the
  top list and the pie. The model tallies every name like an ordinary one.
- The forms' HTML constraint validation is not modelled. `required` and `min="0"` make
  the browser refuse a submit with an empty description, category or name, or with an
  empty or negative amount. Amounts in the model are whole cents, so a negative amount
  cannot arise, but `TransactionForm.TransactionFormState.HandleSubmit` and
  `BudgetForm.BudgetFormState.HandleSubmit` accept empty texts as they are. After a type
  switch, the `required` category select shows its empty placeholder, so the browser
  asks for a category before it submits.
- Goals.DaysBetween: counts whole calendar days from today's date. The goal card
  measures from `new Date()` to the deadline's midnight (UTC) and rounds with
  `Math.round` (src/pages/Goals.tsx:208, :250-254). After midday UTC it therefore shows
  one day fewer than `DaysBetween(today, deadline)`.
