/**
 * The monthly trend chart of the dashboard, src/components/dashboard/MonthlyTrend.tsx:
 * income, expense and savings of every month that has transactions, in calendar order.
 */
module MonthlyTrend {
  import opened Calendar
  import opened Records
  import opened Seqs
  import opened Reports

  function RowLabels(acc: seq<Row>): (r: seq<Label>)
    ensures |r| == |acc|
    ensures forall i :: 0 <= i < |acc| ==> r[i] == acc[i].name
  {
    seq(|acc|, i requires 0 <= i < |acc| => acc[i].name)
  }

  /** The month of every transaction, in order, repeats included. */
  function TransactionMonths(ts: seq<Transaction>): (r: seq<Label>)
    ensures |r| == |ts|
    ensures forall i :: 0 <= i < |ts| ==> r[i] == MonthLabelOf(ts[i].date)
  {
    seq(|ts|, i requires 0 <= i < |ts| => MonthLabelOf(ts[i].date))
  }

  /** The amounts of one kind dated in the month `l`. */
  function InMonth(ts: seq<Transaction>, l: Label, kind: Kind): nat {
    SumWhere(ts, (t: Transaction) => MonthLabelOf(t.date) == l && t.kind == kind)
  }

  function RowIncome(r: Row): int {
    r.income
  }

  function RowExpense(r: Row): int {
    r.expense
  }

  /** A bucket of the `reduce` for month `l`. */
  predicate GoodRow(ts: seq<Transaction>, r: Row) {
    r.income == InMonth(ts, r.name, Income) && r.expense == InMonth(ts, r.name, Expense) &&
    r.savings == r.income - r.expense
  }

  /**
   * The `reduce` over all transactions: a bucket is created the first time a month is
   * seen; the amount goes to income for an income and to expense otherwise; savings is
   * recomputed as income minus expense. One bucket per month that has a transaction, in
   * order of first appearance; the buckets' incomes add up to all income, and their
   * expenses to all expenses.
   */
  method MonthlyData(ts: seq<Transaction>) returns (acc: seq<Row>)
    ensures RowLabels(acc) == Distinct(TransactionMonths(ts))
    ensures forall i :: 0 <= i < |acc| ==> GoodRow(ts, acc[i])
    ensures SumOf(acc, RowIncome) == TotalOf(ts, Income)
    ensures SumOf(acc, RowExpense) == TotalOf(ts, Expense)
  {
    acc := [];
    var i := 0;
    while i < |ts|
      invariant 0 <= i <= |ts|
      invariant RowLabels(acc) == Distinct(TransactionMonths(ts[..i]))
      invariant forall k :: 0 <= k < |acc| ==> GoodRow(ts[..i], acc[k])
      invariant SumOf(acc, RowIncome) == TotalOf(ts[..i], Income)
      invariant SumOf(acc, RowExpense) == TotalOf(ts[..i], Expense)
    {
      assert ts[..i + 1] == ts[..i] + [ts[i]];
      TotalOfSnoc(ts[..i], ts[i], Income);
      TotalOfSnoc(ts[..i], ts[i], Expense);
      acc := AddToMonth(ts[..i], ts[i], acc);
      i := i + 1;
    }
    assert ts[..|ts|] == ts;
  }

  /** The body of the `reduce`: books one transaction `t` that follows the transactions `s`. */
  method AddToMonth(ghost s: seq<Transaction>, t: Transaction, acc: seq<Row>) returns (acc': seq<Row>)
    requires RowLabels(acc) == Distinct(TransactionMonths(s))
    requires forall k :: 0 <= k < |acc| ==> GoodRow(s, acc[k])
    ensures RowLabels(acc') == Distinct(TransactionMonths(s + [t]))
    ensures forall k :: 0 <= k < |acc'| ==> GoodRow(s + [t], acc'[k])
    ensures SumOf(acc', RowIncome) == SumOf(acc, RowIncome) + (if t.kind == Income then t.amount else 0)
    ensures SumOf(acc', RowExpense) == SumOf(acc, RowExpense) + (if t.kind == Expense then t.amount else 0)
  {
    var key := MonthLabelOf(t.date);
    OpenedStep(s, t, acc);
    acc' := acc;
    if key !in RowLabels(acc') {
      acc' := acc' + [Row(key, 0, 0, 0)];
    }
    var k := FirstIndex(RowLabels(acc'), key);
    BookedStep(s, t, acc', k);
    acc' := BookedAt(acc', k, t);
  }

  /** The bucket with the transaction's amount booked and savings recomputed. */
  function Booked(r: Row, t: Transaction): Row {
    var r' := if t.kind == Income then r.(income := r.income + t.amount) else r.(expense := r.expense + t.amount);
    r'.(savings := r'.income - r'.expense)
  }

  /** `acc[key].income += amount` (or `expense`), then `acc[key].savings = income - expense`. */
  function BookedAt(acc: seq<Row>, k: nat, t: Transaction): seq<Row>
    requires k < |acc|
  {
    acc[k := Booked(acc[k], t)]
  }

  lemma TransactionMonthsSnoc(s: seq<Transaction>, t: Transaction)
    ensures TransactionMonths(s + [t]) == TransactionMonths(s) + [MonthLabelOf(t.date)]
  {
  }

  /**
   * Creating the bucket of a transaction's month when it is missing: the buckets then
   * name the distinct months including this one, and still hold the sums before it.
   */
  lemma {:induction false} OpenedStep(s: seq<Transaction>, t: Transaction, acc: seq<Row>)
    requires RowLabels(acc) == Distinct(TransactionMonths(s))
    requires forall k :: 0 <= k < |acc| ==> GoodRow(s, acc[k])
    ensures var key := MonthLabelOf(t.date);
            var acc' := if key !in RowLabels(acc) then acc + [Row(key, 0, 0, 0)] else acc;
            RowLabels(acc') == Distinct(TransactionMonths(s + [t])) &&
            (forall k :: 0 <= k < |acc'| ==> GoodRow(s, acc'[k])) &&
            SumOf(acc', RowIncome) == SumOf(acc, RowIncome) &&
            SumOf(acc', RowExpense) == SumOf(acc, RowExpense)
  {
    var key := MonthLabelOf(t.date);
    TransactionMonthsSnoc(s, t);
    DistinctSnoc(TransactionMonths(s), key);
    DistinctMembers(TransactionMonths(s));
    if key !in RowLabels(acc) {
      InMonthAbsent(s, key, Income);
      InMonthAbsent(s, key, Expense);
      SumOfAppend(acc, Row(key, 0, 0, 0), RowIncome);
      SumOfAppend(acc, Row(key, 0, 0, 0), RowExpense);
      assert RowLabels(acc + [Row(key, 0, 0, 0)]) == RowLabels(acc) + [key];
    }
  }

  /** Booking a transaction into its month's bucket brings every bucket up to date. */
  lemma {:induction false} BookedStep(s: seq<Transaction>, t: Transaction, acc: seq<Row>, k: nat)
    requires RowLabels(acc) == Distinct(TransactionMonths(s + [t]))
    requires MonthLabelOf(t.date) in RowLabels(acc)
    requires k == FirstIndex(RowLabels(acc), MonthLabelOf(t.date))
    requires forall j :: 0 <= j < |acc| ==> GoodRow(s, acc[j])
    ensures k < |acc|
    ensures RowLabels(BookedAt(acc, k, t)) == RowLabels(acc)
    ensures forall j :: 0 <= j < |acc| ==> GoodRow(s + [t], BookedAt(acc, k, t)[j])
    ensures SumOf(BookedAt(acc, k, t), RowIncome) == SumOf(acc, RowIncome) + (if t.kind == Income then t.amount else 0)
    ensures SumOf(BookedAt(acc, k, t), RowExpense) == SumOf(acc, RowExpense) + (if t.kind == Expense then t.amount else 0)
  {
    DistinctMembers(TransactionMonths(s + [t]));
    var r := Booked(acc[k], t);
    assert RowLabels(BookedAt(acc, k, t)) == RowLabels(acc);
    SumOfUpdate(acc, k, r, RowIncome);
    SumOfUpdate(acc, k, r, RowExpense);
    forall j | 0 <= j < |acc| ensures GoodRow(s + [t], BookedAt(acc, k, t)[j]) {
      InMonthSnoc(s, t, acc[j].name, Income);
      InMonthSnoc(s, t, acc[j].name, Expense);
      if j != k {
        assert RowLabels(acc)[j] != RowLabels(acc)[k];
      }
    }
  }

  lemma InMonthSnoc(s: seq<Transaction>, t: Transaction, l: Label, kind: Kind)
    ensures InMonth(s + [t], l, kind) == InMonth(s, l, kind) + (if MonthLabelOf(t.date) == l && t.kind == kind then t.amount else 0)
  {
    SumWhereSnoc(s, t, (x: Transaction) => MonthLabelOf(x.date) == l && x.kind == kind);
  }

  lemma InMonthAbsent(s: seq<Transaction>, l: Label, kind: Kind)
    requires l !in TransactionMonths(s)
    ensures InMonth(s, l, kind) == 0
  {
    forall t | t in s ensures MonthLabelOf(t.date) != l {
      var i :| 0 <= i < |s| && s[i] == t;
      assert TransactionMonths(s)[i] == MonthLabelOf(t.date);
    }
    SumWhereNone(s, (x: Transaction) => MonthLabelOf(x.date) == l && x.kind == kind);
  }

  /** The months counted from year 0, so that later months have larger numbers. */
  function MonthNumber(l: Label): int {
    if l.MonthLabel? then l.year * 12 + l.month - 1 else 0
  }

  /** The comparator `new Date(`${monthA} 1, ${yearA}`) - new Date(...)`: earliest first. */
  function Chronological(r: Row): real {
    -(MonthNumber(r.name) as real)
  }

  lemma MonthNumberInjective(a: Label, b: Label)
    requires a.MonthLabel? && b.MonthLabel? && MonthNumber(a) == MonthNumber(b)
    ensures a == b
  {
  }

  /**
   * `chartData`: one point per month with transactions, strictly in calendar order,
   * each with that month's income, expense and savings; every transaction's month is
   * there, the totals are all income and all expenses, and there is no data exactly
   * when there are no transactions.
   */
  method GetMonthlyTrend(ts: seq<Transaction>) returns (chart: seq<Row>)
    ensures forall i, j :: 0 <= i < j < |chart| ==> MonthNumber(chart[i].name) < MonthNumber(chart[j].name)
    ensures forall r :: r in chart ==> r.name in TransactionMonths(ts) && GoodRow(ts, r)
    ensures forall t :: t in ts ==> MonthLabelOf(t.date) in RowLabels(chart)
    ensures SumOf(chart, RowIncome) == TotalOf(ts, Income)
    ensures SumOf(chart, RowExpense) == TotalOf(ts, Expense)
    ensures |chart| == 0 <==> |ts| == 0
  {
    var acc := MonthlyData(ts);
    chart := SortDesc(acc, Chronological);
    TrendOrder(ts, acc, chart);
    SumOfSortDesc(acc, Chronological, RowIncome);
    SumOfSortDesc(acc, Chronological, RowExpense);
  }

  lemma {:induction false} RowNamesDistinct(ts: seq<Transaction>, acc: seq<Row>)
    requires RowLabels(acc) == Distinct(TransactionMonths(ts))
    ensures forall i, j :: 0 <= i < j < |acc| ==> RowName(acc[i]) != RowName(acc[j])
  {
    DistinctMembers(TransactionMonths(ts));
    forall i, j | 0 <= i < j < |acc| ensures RowName(acc[i]) != RowName(acc[j]) {
      assert RowLabels(acc)[i] != RowLabels(acc)[j];
    }
  }

  /** A bucket of the tally is the bucket of a month with transactions. */
  lemma {:induction false} RowOfTally(ts: seq<Transaction>, acc: seq<Row>, r: Row)
    requires RowLabels(acc) == Distinct(TransactionMonths(ts))
    requires r in acc
    ensures r.name in TransactionMonths(ts)
  {
    DistinctMembers(TransactionMonths(ts));
    var k :| 0 <= k < |acc| && acc[k] == r;
    assert RowLabels(acc)[k] == r.name;
  }

  /** The month of a transaction has a bucket in the tally. */
  lemma {:induction false} MonthOfTally(ts: seq<Transaction>, acc: seq<Row>, t: Transaction)
    requires RowLabels(acc) == Distinct(TransactionMonths(ts))
    requires t in ts
    ensures exists r :: r in acc && r.name == MonthLabelOf(t.date)
  {
    DistinctMembers(TransactionMonths(ts));
    var i :| 0 <= i < |ts| && ts[i] == t;
    assert TransactionMonths(ts)[i] == MonthLabelOf(t.date);
    assert MonthLabelOf(t.date) in RowLabels(acc);
    var k :| 0 <= k < |acc| && RowLabels(acc)[k] == MonthLabelOf(t.date);
    assert acc[k] in acc;
  }

  /** Sorting the tally keeps its buckets and puts their months in strictly increasing order. */
  lemma {:induction false} TrendOrder(ts: seq<Transaction>, acc: seq<Row>, chart: seq<Row>)
    requires RowLabels(acc) == Distinct(TransactionMonths(ts))
    requires forall i :: 0 <= i < |acc| ==> GoodRow(ts, acc[i])
    requires SortedDesc(chart, Chronological) && multiset(chart) == multiset(acc)
    ensures forall i, j :: 0 <= i < j < |chart| ==> MonthNumber(chart[i].name) < MonthNumber(chart[j].name)
    ensures forall r :: r in chart ==> r.name in TransactionMonths(ts) && GoodRow(ts, r)
    ensures forall t :: t in ts ==> MonthLabelOf(t.date) in RowLabels(chart)
    ensures |chart| == 0 <==> |ts| == 0
  {
    TrendStrict(ts, acc, chart);
    PermutationMembers(acc, chart);
    forall r | r in chart ensures r.name in TransactionMonths(ts) && GoodRow(ts, r) {
      RowOfTally(ts, acc, r);
      var k :| 0 <= k < |acc| && acc[k] == r;
    }
    forall t | t in ts ensures MonthLabelOf(t.date) in RowLabels(chart) {
      MonthOfTally(ts, acc, t);
      var r :| r in acc && r.name == MonthLabelOf(t.date);
      var j :| 0 <= j < |chart| && chart[j] == r;
      assert RowLabels(chart)[j] == r.name;
    }
    if |ts| > 0 {
      MonthOfTally(ts, acc, ts[0]);
    }
  }

  /** Months of distinct buckets differ, so the sorted order is strict. */
  lemma {:induction false} TrendStrict(ts: seq<Transaction>, acc: seq<Row>, chart: seq<Row>)
    requires RowLabels(acc) == Distinct(TransactionMonths(ts))
    requires SortedDesc(chart, Chronological) && multiset(chart) == multiset(acc)
    ensures forall i, j :: 0 <= i < j < |chart| ==> MonthNumber(chart[i].name) < MonthNumber(chart[j].name)
  {
    RowNamesDistinct(ts, acc);
    PermutationKeepsKeysDistinct(acc, chart, RowName);
    DistinctMembers(TransactionMonths(ts));
    PermutationMembers(acc, chart);
    forall i, j | 0 <= i < j < |chart| ensures MonthNumber(chart[i].name) < MonthNumber(chart[j].name) {
      assert Chronological(chart[i]) >= Chronological(chart[j]);
      assert RowName(chart[i]) != RowName(chart[j]);
      RowOfTally(ts, acc, chart[i]);
      RowOfTally(ts, acc, chart[j]);
      MonthLabelsAreMonths(ts, chart[i].name);
      MonthLabelsAreMonths(ts, chart[j].name);
      if MonthNumber(chart[i].name) == MonthNumber(chart[j].name) {
        MonthNumberInjective(chart[i].name, chart[j].name);
      }
    }
  }

  lemma MonthLabelsAreMonths(ts: seq<Transaction>, l: Label)
    requires l in TransactionMonths(ts)
    ensures l.MonthLabel?
  {
  }
}

/**
 * The top expense categories of the dashboard, src/components/dashboard/ExpensesChart.tsx.
 */
module ExpensesChart {
  import opened Records
  import opened Seqs
  import opened Reports

  /**
   * The `reduce` over the expenses: an entry whose name is already there grows by the
   * amount; otherwise a new entry is pushed with the amount and the colour found for
   * the category at that moment. One entry per expense category, in order of first
   * appearance, with the category's expense sum and colour.
   */
  method ExpensesByCategory(ts: seq<Transaction>, cats: seq<Category>) returns (acc: seq<Slice>)
    ensures SliceNames(acc) == Distinct(ExpenseCategories(ts))
    ensures forall i :: 0 <= i < |acc| ==> acc[i].value == CategoryExpense(ts, acc[i].name) && acc[i].color == ColorFor(cats, acc[i].name)
  {
    acc := [];
    var i := 0;
    while i < |ts|
      invariant 0 <= i <= |ts|
      invariant SliceNames(acc) == Distinct(ExpenseCategories(ts[..i]))
      invariant forall k :: 0 <= k < |acc| ==> acc[k].value == CategoryExpense(ts[..i], acc[k].name) && acc[k].color == ColorFor(cats, acc[k].name)
    {
      assert ts[..i + 1] == ts[..i] + [ts[i]];
      if ts[i].kind == Expense {
        acc := AddExpense(ts[..i], ts[i], cats, acc);
      } else {
        SkipIncome(ts[..i], ts[i], cats, acc);
      }
      i := i + 1;
    }
    assert ts[..|ts|] == ts;
  }

  lemma {:induction false} ExpenseCategoriesSnoc(s: seq<Transaction>, t: Transaction)
    ensures ExpenseCategories(s + [t]) == if t.kind == Expense then ExpenseCategories(s) + [t.category] else ExpenseCategories(s)
  {
    assert (s + [t])[..|s + [t]| - 1] == s;
  }

  /** An income, dropped by the `filter`, changes no entry. */
  lemma {:induction false} SkipIncome(s: seq<Transaction>, t: Transaction, cats: seq<Category>, acc: seq<Slice>)
    requires t.kind != Expense
    requires SliceNames(acc) == Distinct(ExpenseCategories(s))
    requires forall k :: 0 <= k < |acc| ==> acc[k].value == CategoryExpense(s, acc[k].name) && acc[k].color == ColorFor(cats, acc[k].name)
    ensures SliceNames(acc) == Distinct(ExpenseCategories(s + [t]))
    ensures forall k :: 0 <= k < |acc| ==> acc[k].value == CategoryExpense(s + [t], acc[k].name) && acc[k].color == ColorFor(cats, acc[k].name)
  {
    ExpenseCategoriesSnoc(s, t);
    forall k | 0 <= k < |acc| ensures acc[k].value == CategoryExpense(s + [t], acc[k].name) {
      CategoryExpenseSnoc(s, t, acc[k].name);
    }
  }

  /**
   * The body of the `reduce`: the entry named like the expense's category grows by its
   * amount, or a new entry is pushed with the amount and the colour found for the category.
   */
  method AddExpense(ghost s: seq<Transaction>, t: Transaction, cats: seq<Category>, acc: seq<Slice>) returns (acc': seq<Slice>)
    requires t.kind == Expense
    requires SliceNames(acc) == Distinct(ExpenseCategories(s))
    requires forall k :: 0 <= k < |acc| ==> acc[k].value == CategoryExpense(s, acc[k].name) && acc[k].color == ColorFor(cats, acc[k].name)
    ensures SliceNames(acc') == Distinct(ExpenseCategories(s + [t]))
    ensures forall k :: 0 <= k < |acc'| ==> acc'[k].value == CategoryExpense(s + [t], acc'[k].name) && acc'[k].color == ColorFor(cats, acc'[k].name)
  {
    ExpenseCategoriesSnoc(s, t);
    DistinctSnoc(ExpenseCategories(s), t.category);
    DistinctMembers(ExpenseCategories(s));
    if t.category in SliceNames(acc) {
      var k := FirstIndex(SliceNames(acc), t.category);
      GrowExpense(s, t, cats, acc, k);
      acc' := Grown(acc, k, t.amount);
    } else {
      CategoryExpenseAbsent(s, t.category);
      PushExpense(s, t, cats, acc);
      acc' := acc + [Slice(t.category, t.amount, ColorFor(cats, t.category))];
    }
  }

  /** `existingCategory.value += transaction.amount`. */
  function Grown(acc: seq<Slice>, k: nat, amount: nat): seq<Slice>
    requires k < |acc|
  {
    acc[k := acc[k].(value := acc[k].value + amount)]
  }

  lemma {:induction false} GrowExpense(s: seq<Transaction>, t: Transaction, cats: seq<Category>, acc: seq<Slice>, k: nat)
    requires t.kind == Expense
    requires NoDuplicates(SliceNames(acc))
    requires k < |acc| && acc[k].name == t.category
    requires forall j :: 0 <= j < |acc| ==> acc[j].value == CategoryExpense(s, acc[j].name) && acc[j].color == ColorFor(cats, acc[j].name)
    ensures SliceNames(Grown(acc, k, t.amount)) == SliceNames(acc)
    ensures forall j :: 0 <= j < |acc| ==> Grown(acc, k, t.amount)[j].value == CategoryExpense(s + [t], acc[j].name) && Grown(acc, k, t.amount)[j].color == ColorFor(cats, acc[j].name)
  {
    assert SliceNames(Grown(acc, k, t.amount)) == SliceNames(acc);
    forall j | 0 <= j < |acc| ensures Grown(acc, k, t.amount)[j].value == CategoryExpense(s + [t], acc[j].name) {
      CategoryExpenseSnoc(s, t, acc[j].name);
      if j != k {
        assert SliceNames(acc)[j] != SliceNames(acc)[k];
      }
    }
  }

  lemma {:induction false} PushExpense(s: seq<Transaction>, t: Transaction, cats: seq<Category>, acc: seq<Slice>)
    requires t.kind == Expense
    requires t.category !in SliceNames(acc)
    requires CategoryExpense(s, t.category) == 0
    requires forall j :: 0 <= j < |acc| ==> acc[j].value == CategoryExpense(s, acc[j].name) && acc[j].color == ColorFor(cats, acc[j].name)
    ensures var acc' := acc + [Slice(t.category, t.amount, ColorFor(cats, t.category))];
            SliceNames(acc') == SliceNames(acc) + [t.category] &&
            forall j :: 0 <= j < |acc'| ==> acc'[j].value == CategoryExpense(s + [t], acc'[j].name) && acc'[j].color == ColorFor(cats, acc'[j].name)
  {
    var acc' := acc + [Slice(t.category, t.amount, ColorFor(cats, t.category))];
    assert SliceNames(acc') == SliceNames(acc) + [t.category];
    forall j | 0 <= j < |acc'| ensures acc'[j].value == CategoryExpense(s + [t], acc'[j].name) {
      CategoryExpenseSnoc(s, t, acc'[j].name);
      if j < |acc| {
        assert SliceNames(acc)[j] == acc[j].name;
      }
    }
  }

  /** `.sort((a, b) => b.value - a.value).slice(0, 5)`. */
  function TopCategories(acc: seq<Slice>): seq<Slice> {
    Take(SortDesc(acc, SliceValue), 5)
  }

  function SliceAmount(s: Slice): int {
    s.value
  }

  /** `totalExpenses`: the sum over the five kept entries only. */
  function ChartTotal(top: seq<Slice>): int {
    SumOf(top, SliceAmount)
  }

  /**
   * At most five entries, largest first, each an entry of the tally, no category twice;
   * an entry left out is outranked by all five kept ones.
   */
  lemma TopCategoriesSpec(acc: seq<Slice>)
    requires NoDuplicates(SliceNames(acc))
    ensures |TopCategories(acc)| <= 5
    ensures SortedDesc(TopCategories(acc), SliceValue)
    ensures forall e :: e in TopCategories(acc) ==> e in acc
    ensures forall i, j :: 0 <= i < j < |TopCategories(acc)| ==> TopCategories(acc)[i].name != TopCategories(acc)[j].name
    ensures forall e :: e in acc && e !in TopCategories(acc) ==>
              |TopCategories(acc)| == 5 && forall f :: f in TopCategories(acc) ==> f.value >= e.value
    ensures |acc| <= 5 ==> multiset(TopCategories(acc)) == multiset(acc)
  {
    var sorted := SortDesc(acc, SliceValue);
    TakeKeepsLargest(sorted, SliceValue, 5);
    TopOfSorted(acc, SliceValue, 5);
    assert forall i, j :: 0 <= i < j < |acc| ==> SliceName(acc[i]) != SliceName(acc[j]) by {
      forall i, j | 0 <= i < j < |acc| ensures SliceName(acc[i]) != SliceName(acc[j]) {
        assert SliceNames(acc)[i] != SliceNames(acc)[j];
      }
    }
    PermutationKeepsKeysDistinct(acc, sorted, SliceName);
  }

  lemma {:induction false} SumZero(s: seq<Slice>)
    ensures SumOf(s, SliceAmount) >= 0
    ensures SumOf(s, SliceAmount) == 0 <==> forall e :: e in s ==> e.value == 0
  {
    if s != [] {
      SumZero(s[1..]);
      assert s == [s[0]] + s[1..];
    }
  }

  /**
   * The chart shows its empty state exactly when no expense has a positive amount,
   * although its total counts only the five largest categories.
   */
  lemma EmptyChart(ts: seq<Transaction>, cats: seq<Category>, acc: seq<Slice>)
    requires SliceNames(acc) == Distinct(ExpenseCategories(ts))
    requires forall i :: 0 <= i < |acc| ==> acc[i].value == CategoryExpense(ts, acc[i].name)
    ensures ChartTotal(TopCategories(acc)) == 0 <==> forall t :: t in ts && t.kind == Expense ==> t.amount == 0
  {
    var top := TopCategories(acc);
    DistinctMembers(ExpenseCategories(ts));
    TopCategoriesSpec(acc);
    SumZero(top);
    if forall t :: t in ts && t.kind == Expense ==> t.amount == 0 {
      forall e | e in top ensures e.value == 0 {
        var k :| 0 <= k < |acc| && acc[k] == e;
        SumWhereZero(ts, (t: Transaction) => t.kind == Expense && t.category == e.name);
      }
    } else {
      var t :| t in ts && t.kind == Expense && t.amount != 0;
      SumWhereMember(ts, (x: Transaction) => x.kind == Expense && x.category == t.category, t);
      ExpenseCategoriesMembers(ts);
      assert t.category in SliceNames(acc);
      var k :| 0 <= k < |acc| && SliceNames(acc)[k] == t.category;
      assert acc[k].value > 0;
      if acc[k] !in top {
        assert top[0] in top;
      }
    }
  }
}

/**
 * The dashboard's latest transactions, src/components/dashboard/RecentTransactions.tsx.
 */
module RecentTransactions {
  import opened Calendar
  import opened Records
  import opened Seqs

  function DateKey(t: Transaction): real {
    DayNumber(t.date) as real
  }

  /** `[...transactions].sort(newest first).slice(0, 5)`. */
  function Recent(ts: seq<Transaction>): seq<Transaction> {
    Take(SortDesc(ts, DateKey), 5)
  }

  /**
   * At most five transactions, newest first, all from the input; one left out is no
   * newer than any shown; with five or fewer, all are shown.
   */
  lemma RecentSpec(ts: seq<Transaction>)
    ensures |Recent(ts)| <= 5
    ensures forall i, j :: 0 <= i < j < |Recent(ts)| ==> DayNumber(Recent(ts)[i].date) >= DayNumber(Recent(ts)[j].date)
    ensures forall t :: t in Recent(ts) ==> t in ts
    ensures forall t :: t in ts && t !in Recent(ts) ==>
              |Recent(ts)| == 5 && forall u :: u in Recent(ts) ==> DayNumber(u.date) >= DayNumber(t.date)
    ensures |ts| <= 5 ==> multiset(Recent(ts)) == multiset(ts)
  {
    var sorted := SortDesc(ts, DateKey);
    TakeKeepsLargest(sorted, DateKey, 5);
    TopOfSorted(ts, DateKey, 5);
    forall i, j | 0 <= i < j < |Recent(ts)| ensures DayNumber(Recent(ts)[i].date) >= DayNumber(Recent(ts)[j].date) {
      assert DateKey(Recent(ts)[i]) >= DateKey(Recent(ts)[j]);
    }
    forall t | t in ts && t !in Recent(ts)
      ensures |Recent(ts)| == 5 && forall u :: u in Recent(ts) ==> DayNumber(u.date) >= DayNumber(t.date)
    {
      forall u | u in Recent(ts) ensures DayNumber(u.date) >= DayNumber(t.date) {
        assert DateKey(u) >= DateKey(t);
      }
    }
  }
}
