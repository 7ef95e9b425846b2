/**
 * `getFinanceSummary` (src/context/FinanceContext.tsx): income and expense totals,
 * net savings, savings rate and the five largest expense categories.
 */
module FinanceSummary {
  import opened Records
  import opened Seqs

  /** One entry of `expensesByCategory`, in the insertion order of the JavaScript object. */
  datatype CategoryTotal = CategoryTotal(category: string, amount: nat)

  datatype CategoryShare = CategoryShare(category: string, amount: nat, percentage: real)

  datatype Summary = Summary(
    totalIncome: nat,
    totalExpenses: nat,
    netSavings: int,
    savingsRate: real,
    topExpenseCategories: seq<CategoryShare>)

  /** The keys of an entry list, in order. */
  function Names(tally: seq<CategoryTotal>): (r: seq<string>)
    ensures |r| == |tally|
    ensures forall i :: 0 <= i < |tally| ==> r[i] == tally[i].category
  {
    seq(|tally|, i requires 0 <= i < |tally| => tally[i].category)
  }

  /**
   * `record[category] = (record[category] || 0) + amount` on a JavaScript object kept as
   * its entries in insertion order: an existing key is updated where it stands, a new
   * key goes last with the amount as its value.
   */
  function Bump(tally: seq<CategoryTotal>, category: string, amount: nat): (r: seq<CategoryTotal>)
    requires NoDuplicates(Names(tally))
    ensures |r| == |tally| + (if category in Names(tally) then 0 else 1)
    ensures forall k :: 0 <= k < |tally| ==>
              r[k].category == tally[k].category &&
              r[k].amount == tally[k].amount + (if tally[k].category == category then amount else 0)
    ensures |r| > |tally| ==> r[|tally|] == CategoryTotal(category, amount)
  {
    if tally == [] then [CategoryTotal(category, amount)]
    else if tally[0].category == category then
      [CategoryTotal(category, tally[0].amount + amount)] + tally[1..]
    else
      assert Names(tally) == [tally[0].category] + Names(tally[1..]);
      [tally[0]] + Bump(tally[1..], category, amount)
  }

  /**
   * The `forEach` that fills `expensesByCategory`: one entry per expense category, in
   * order of first appearance, holding the sum of that category's expense amounts.
   */
  method TallyExpenses(ts: seq<Transaction>) returns (tally: seq<CategoryTotal>)
    ensures Names(tally) == Distinct(ExpenseCategories(ts))
    ensures forall i :: 0 <= i < |tally| ==> tally[i].amount == CategoryExpense(ts, tally[i].category)
  {
    tally := [];
    var i := 0;
    while i < |ts|
      invariant 0 <= i <= |ts|
      invariant Names(tally) == Distinct(ExpenseCategories(ts[..i]))
      invariant forall k :: 0 <= k < |tally| ==> tally[k].amount == CategoryExpense(ts[..i], tally[k].category)
    {
      assert ts[..i + 1] == ts[..i] + [ts[i]];
      TallyNames(ts[..i], ts[i], tally);
      TallyAmounts(ts[..i], ts[i], tally);
      if ts[i].kind == Expense {
        tally := Bump(tally, ts[i].category, ts[i].amount);
      }
      i := i + 1;
    }
    assert ts[..|ts|] == ts;
  }

  /** One step of the `forEach`, for the keys: an expense's category is added once, in order. */
  lemma {:induction false} TallyNames(s: seq<Transaction>, t: Transaction, tally: seq<CategoryTotal>)
    requires Names(tally) == Distinct(ExpenseCategories(s))
    ensures NoDuplicates(Names(tally))
    ensures t.kind != Expense ==> Names(tally) == Distinct(ExpenseCategories(s + [t]))
    ensures t.kind == Expense ==> Names(Bump(tally, t.category, t.amount)) == Distinct(ExpenseCategories(s + [t]))
  {
    DistinctMembers(ExpenseCategories(s));
    assert (s + [t])[..|s + [t]| - 1] == s;
    if t.kind == Expense {
      assert ExpenseCategories(s + [t]) == ExpenseCategories(s) + [t.category];
      DistinctSnoc(ExpenseCategories(s), t.category);
      BumpNames(tally, t.category, t.amount);
    } else {
      assert ExpenseCategories(s + [t]) == ExpenseCategories(s);
    }
  }

  /** Bumping adds the key at the end when it is new and keeps the keys otherwise. */
  lemma BumpNames(tally: seq<CategoryTotal>, category: string, amount: nat)
    requires NoDuplicates(Names(tally))
    ensures Names(Bump(tally, category, amount)) ==
            if category in Names(tally) then Names(tally) else Names(tally) + [category]
  {
    var r := Bump(tally, category, amount);
    if category in Names(tally) {
      assert Names(r) == Names(tally);
    } else {
      assert Names(r) == Names(tally) + [category];
    }
  }

  /** One step of the `forEach`, for the values: each key holds its category's expense sum. */
  lemma {:induction false} TallyAmounts(s: seq<Transaction>, t: Transaction, tally: seq<CategoryTotal>)
    requires Names(tally) == Distinct(ExpenseCategories(s))
    requires forall k :: 0 <= k < |tally| ==> tally[k].amount == CategoryExpense(s, tally[k].category)
    ensures NoDuplicates(Names(tally))
    ensures t.kind != Expense ==>
              forall k :: 0 <= k < |tally| ==> tally[k].amount == CategoryExpense(s + [t], tally[k].category)
    ensures t.kind == Expense ==>
              var r := Bump(tally, t.category, t.amount);
              forall k :: 0 <= k < |r| ==> r[k].amount == CategoryExpense(s + [t], r[k].category)
  {
    DistinctMembers(ExpenseCategories(s));
    if t.kind == Expense {
      var r := Bump(tally, t.category, t.amount);
      forall k | 0 <= k < |r| ensures r[k].amount == CategoryExpense(s + [t], r[k].category) {
        if k < |tally| {
          CategoryExpenseSnoc(s, t, tally[k].category);
        } else {
          CategoryExpenseAbsent(s, t.category);
          CategoryExpenseSnoc(s, t, t.category);
        }
      }
    } else {
      forall k | 0 <= k < |tally| ensures tally[k].amount == CategoryExpense(s + [t], tally[k].category) {
        CategoryExpenseSnoc(s, t, tally[k].category);
      }
    }
  }

  /** `totalExpenses > 0 ? (amount / totalExpenses) * 100 : 0`. */
  function Percentage(amount: nat, total: nat): real
  {
    if total > 0 then amount as real / total as real * 100.0 else 0.0
  }

  /** A part of a positive total is between 0 and 100 percent of it; of a zero total, 0. */
  lemma PercentageBounds(amount: nat, total: nat)
    requires amount <= total
    ensures 0.0 <= Percentage(amount, total) <= 100.0
    ensures total == 0 ==> Percentage(amount, total) == 0.0
    ensures Percentage(amount, total) == 100.0 <==> (total > 0 && amount == total)
  {
    if total > 0 {
      var q := amount as real / total as real;
      assert q * total as real == amount as real;
      assert 0.0 <= q <= 1.0;
      if q == 1.0 {
        assert amount as real == total as real;
      }
      if amount == total {
        assert q == 1.0;
      }
    }
  }

  /** `totalIncome > 0 ? (netSavings / totalIncome) * 100 : 0`. */
  function SavingsRate(totalIncome: nat, totalExpenses: nat): real
  {
    if totalIncome > 0 then (totalIncome - totalExpenses) as real / totalIncome as real * 100.0 else 0.0
  }

  /**
   * With income, the rate never exceeds 100, reaches it exactly when nothing was spent,
   * and is negative exactly when spending exceeds income; without income it is 0.
   */
  lemma SavingsRateBounds(totalIncome: nat, totalExpenses: nat)
    ensures totalIncome == 0 ==> SavingsRate(totalIncome, totalExpenses) == 0.0
    ensures SavingsRate(totalIncome, totalExpenses) <= 100.0
    ensures totalIncome > 0 ==> (SavingsRate(totalIncome, totalExpenses) == 100.0 <==> totalExpenses == 0)
    ensures totalIncome > 0 ==> (SavingsRate(totalIncome, totalExpenses) < 0.0 <==> totalExpenses > totalIncome)
  {
    if totalIncome > 0 {
      var i, n := totalIncome as real, (totalIncome - totalExpenses) as real;
      var q := n / i;
      assert q * i == n;
      assert (1.0 - q) * i == i - n;
      SignOfProduct(1.0 - q, i);
      SignOfProduct(q, i);
    }
  }

  /** Multiplying by a positive number keeps the sign. */
  lemma SignOfProduct(x: real, i: real)
    requires i > 0.0
    ensures x * i >= 0.0 <==> x >= 0.0
    ensures x * i == 0.0 <==> x == 0.0
  {
    if x > 0.0 {
      assert x * i > 0.0;
    } else if x < 0.0 {
      assert x * i < 0.0;
    }
  }

  function ShareAmount(s: CategoryShare): real {
    s.amount as real
  }

  /** Each tallied category with its percentage of all expenses. */
  function Shares(tally: seq<CategoryTotal>, totalExpenses: nat): (r: seq<CategoryShare>)
    ensures |r| == |tally|
    ensures forall i :: 0 <= i < |r| ==>
              r[i] == CategoryShare(tally[i].category, tally[i].amount, Percentage(tally[i].amount, totalExpenses))
  {
    seq(|tally|, i requires 0 <= i < |tally| =>
      CategoryShare(tally[i].category, tally[i].amount, Percentage(tally[i].amount, totalExpenses)))
  }

  /** `.sort((a, b) => b.amount - a.amount).slice(0, 5)`. */
  function TopFive(shares: seq<CategoryShare>): seq<CategoryShare>
  {
    Take(SortDesc(shares, ShareAmount), 5)
  }

  function ShareNames(shares: seq<CategoryShare>): (r: seq<string>)
    ensures |r| == |shares|
    ensures forall i :: 0 <= i < |shares| ==> r[i] == shares[i].category
  {
    seq(|shares|, i requires 0 <= i < |shares| => shares[i].category)
  }

  /** The top five are at most five entries of the input, largest first. */
  lemma TopFiveSorted(shares: seq<CategoryShare>)
    ensures |TopFive(shares)| <= 5
    ensures SortedDesc(TopFive(shares), ShareAmount)
    ensures forall e :: e in TopFive(shares) ==> e in shares
  {
    var sorted := SortDesc(shares, ShareAmount);
    var top := TopFive(shares);
    TakeKeepsLargest(sorted, ShareAmount, 5);
    forall e | e in top ensures e in shares {
      assert e in sorted;
      assert e in multiset(sorted);
    }
  }

  /** No category appears twice among the top five. */
  lemma TopFiveDistinct(shares: seq<CategoryShare>)
    requires NoDuplicates(ShareNames(shares))
    ensures NoDuplicates(ShareNames(TopFive(shares)))
  {
    var sorted := SortDesc(shares, ShareAmount);
    var top := TopFive(shares);
    assert NoDuplicates(shares) by {
      forall i, j | 0 <= i < j < |shares| ensures shares[i] != shares[j] {
        assert ShareNames(shares)[i] != ShareNames(shares)[j];
      }
    }
    PermutationKeepsNoDuplicates(shares, sorted);
    TopFiveSorted(shares);
    forall i, j | 0 <= i < j < |top| ensures ShareNames(top)[i] != ShareNames(top)[j] {
      assert top[i] in shares && top[j] in shares;
      var a :| 0 <= a < |shares| && shares[a] == top[i];
      var b :| 0 <= b < |shares| && shares[b] == top[j];
      assert top[i] == sorted[i] && top[j] == sorted[j];
      assert top[i] != top[j];
      assert a != b;
      assert ShareNames(shares)[a] != ShareNames(shares)[b];
    }
  }

  /** A category left out of the top five is outranked by all five kept ones. */
  lemma TopFiveLargest(shares: seq<CategoryShare>, k: nat)
    requires k < |shares| && shares[k].category !in ShareNames(TopFive(shares))
    ensures |TopFive(shares)| == 5
    ensures forall e :: e in TopFive(shares) ==> e.amount >= shares[k].amount
  {
    var sorted := SortDesc(shares, ShareAmount);
    var top := TopFive(shares);
    var x := shares[k];
    assert x in multiset(shares);
    var m :| 0 <= m < |sorted| && sorted[m] == x;
    forall j | 0 <= j < |top| ensures sorted[j] != x {
      assert ShareNames(top)[j] == sorted[j].category;
    }
    TakeKeepsLargest(sorted, ShareAmount, 5);
    forall e | e in top ensures e.amount >= x.amount {
      var i :| 0 <= i < |top| && top[i] == e;
      assert ShareAmount(sorted[i]) >= ShareAmount(sorted[m]);
    }
  }

  /**
   * The top five of the expense tally: each a real expense category with its sum and
   * its share (between 0 and 100 percent) of all expenses; any category left out is
   * outranked by all five kept ones.
   */
  lemma TopExpenseCategories(ts: seq<Transaction>, tally: seq<CategoryTotal>)
    requires Names(tally) == Distinct(ExpenseCategories(ts))
    requires forall i :: 0 <= i < |tally| ==> tally[i].amount == CategoryExpense(ts, tally[i].category)
    ensures NoDuplicates(ShareNames(TopFive(Shares(tally, TotalOf(ts, Expense)))))
    ensures forall e :: e in TopFive(Shares(tally, TotalOf(ts, Expense))) ==>
              e.category in ExpenseCategories(ts) &&
              e.amount == CategoryExpense(ts, e.category) &&
              e.percentage == Percentage(e.amount, TotalOf(ts, Expense)) &&
              0.0 <= e.percentage <= 100.0
    ensures forall c :: c in ExpenseCategories(ts) && c !in ShareNames(TopFive(Shares(tally, TotalOf(ts, Expense)))) ==>
              |TopFive(Shares(tally, TotalOf(ts, Expense)))| == 5 &&
              forall e :: e in TopFive(Shares(tally, TotalOf(ts, Expense))) ==> e.amount >= CategoryExpense(ts, c)
  {
    var total := TotalOf(ts, Expense);
    var shares := Shares(tally, total);
    var top := TopFive(shares);
    DistinctMembers(ExpenseCategories(ts));
    assert ShareNames(shares) == Names(tally);
    TopFiveSorted(shares);
    TopFiveDistinct(shares);
    forall e | e in top
      ensures e.category in ExpenseCategories(ts) && e.amount == CategoryExpense(ts, e.category)
      ensures e.percentage == Percentage(e.amount, total) && 0.0 <= e.percentage <= 100.0
    {
      var k :| 0 <= k < |shares| && shares[k] == e;
      assert Names(tally)[k] == e.category;
      CategoryExpenseBound(ts, e.category);
      PercentageBounds(e.amount, total);
    }
    forall c | c in ExpenseCategories(ts) && c !in ShareNames(top)
      ensures |top| == 5 && forall e :: e in top ==> e.amount >= CategoryExpense(ts, c)
    {
      var k :| 0 <= k < |tally| && Names(tally)[k] == c;
      assert shares[k].category == c;
      TopFiveLargest(shares, k);
    }
  }

  /**
   * `getFinanceSummary()`: the totals of income and of expenses, their difference, the
   * savings rate, and the five largest expense categories with their sums and shares.
   */
  method GetFinanceSummary(ts: seq<Transaction>) returns (s: Summary)
    ensures s.totalIncome == TotalOf(ts, Income) && s.totalExpenses == TotalOf(ts, Expense)
    ensures s.netSavings == s.totalIncome - s.totalExpenses
    ensures s.savingsRate == SavingsRate(s.totalIncome, s.totalExpenses)
    ensures |s.topExpenseCategories| <= 5
    ensures SortedDesc(s.topExpenseCategories, ShareAmount)
    ensures NoDuplicates(ShareNames(s.topExpenseCategories))
    ensures forall e :: e in s.topExpenseCategories ==>
              e.category in ExpenseCategories(ts) &&
              e.amount == CategoryExpense(ts, e.category) &&
              e.percentage == Percentage(e.amount, s.totalExpenses) &&
              0.0 <= e.percentage <= 100.0
    ensures forall c :: c in ExpenseCategories(ts) && c !in ShareNames(s.topExpenseCategories) ==>
              |s.topExpenseCategories| == 5 &&
              forall e :: e in s.topExpenseCategories ==> e.amount >= CategoryExpense(ts, c)
  {
    var totalIncome := TotalOf(ts, Income);
    var totalExpenses := TotalOf(ts, Expense);
    var tally := TallyExpenses(ts);
    var shares := Shares(tally, totalExpenses);
    TopFiveSorted(shares);
    TopExpenseCategories(ts, tally);
    s := Summary(totalIncome, totalExpenses, totalIncome as int - totalExpenses,
                 SavingsRate(totalIncome, totalExpenses), TopFive(shares));
  }
}
