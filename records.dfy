/**
 * The records of the finance store (`src/types/index.ts`) and the sums over
 * transactions that every view computes with `filter` and `reduce`.
 *
 * Amounts are whole cents. Dates are calendar dates; `now` is always a parameter.
 */
module Records {
  import opened Calendar

  datatype Option<T> = None | Some(value: T)

  /** Budget amounts and goal targets are divided by, so they are positive here. */
  type PositiveCents = n: nat | n > 0 witness 1

  /** The `type` of a transaction. */
  datatype Kind = Income | Expense

  datatype Transaction = Transaction(
    id: string,
    amount: nat,
    description: string,
    category: string,
    date: Date,
    kind: Kind)

  datatype Category = Category(id: string, name: string, color: string)

  datatype Period = Monthly | Yearly

  /** `categoryId` and `endDate` are optional; an empty string reads as absent, as in `if (x)`. */
  datatype Budget = Budget(
    id: string,
    name: string,
    amount: PositiveCents,
    period: Period,
    categoryId: Option<string>,
    startDate: Date,
    endDate: Option<Date>)

  datatype Priority = Low | Medium | High

  datatype Goal = Goal(
    id: string,
    name: string,
    targetAmount: PositiveCents,
    currentAmount: nat,
    deadline: Option<Date>,
    startDate: Date,
    category: Option<string>,
    priority: Priority)

  datatype ThemeMode = Light | Dark | System

  datatype ColorScheme = Blue | Green | Purple | Teal | Orange

  datatype Preferences = Preferences(theme: ThemeMode, colorScheme: ColorScheme)

  datatype User = User(
    id: string,
    name: string,
    email: string,
    currency: string,
    preferences: Preferences)

  /** `transactions.filter(p).reduce((sum, t) => sum + t.amount, 0)`, folded left to right. */
  function SumWhere(ts: seq<Transaction>, p: Transaction -> bool): nat
  {
    if ts == [] then 0
    else SumWhere(ts[..|ts| - 1], p) + (if p(ts[|ts| - 1]) then ts[|ts| - 1].amount else 0)
  }

  /** Summing over two stretches of transactions adds their sums. */
  lemma {:induction false} SumWhereAppend(a: seq<Transaction>, b: seq<Transaction>, p: Transaction -> bool)
    ensures SumWhere(a + b, p) == SumWhere(a, p) + SumWhere(b, p)
    decreases |b|
  {
    if b == [] {
      assert a + b == a;
    } else {
      var b', x := b[..|b| - 1], b[|b| - 1];
      assert a + b == (a + b') + [x];
      SumWhereSnoc(a + b', x, p);
      SumWhereSnoc(b', x, p);
      assert b == b' + [x];
      SumWhereAppend(a, b', p);
    }
  }

  /** Appending one transaction adds its amount exactly when it is selected. */
  lemma SumWhereSnoc(s: seq<Transaction>, x: Transaction, p: Transaction -> bool)
    ensures SumWhere(s + [x], p) == SumWhere(s, p) + (if p(x) then x.amount else 0)
  {
    assert (s + [x])[..|s + [x]| - 1] == s;
  }

  /** A sum over a predicate nothing satisfies is zero. */
  lemma {:induction false} SumWhereNone(ts: seq<Transaction>, p: Transaction -> bool)
    requires forall t :: t in ts ==> !p(t)
    ensures SumWhere(ts, p) == 0
  {
    if ts != [] {
      SumWhereNone(ts[..|ts| - 1], p);
    }
  }

  /** `totalIncome` / `totalExpenses`: the amounts of one kind of transaction. */
  function TotalOf(ts: seq<Transaction>, kind: Kind): nat
  {
    SumWhere(ts, (t: Transaction) => t.kind == kind)
  }

  lemma TotalOfSnoc(s: seq<Transaction>, x: Transaction, kind: Kind)
    ensures TotalOf(s + [x], kind) == TotalOf(s, kind) + (if x.kind == kind then x.amount else 0)
  {
    SumWhereSnoc(s, x, (t: Transaction) => t.kind == kind);
  }

  /** The expenses booked under one category name. */
  function CategoryExpense(ts: seq<Transaction>, category: string): nat
  {
    SumWhere(ts, (t: Transaction) => t.kind == Expense && t.category == category)
  }

  lemma CategoryExpenseSnoc(s: seq<Transaction>, x: Transaction, category: string)
    ensures CategoryExpense(s + [x], category)
         == CategoryExpense(s, category) + (if x.kind == Expense && x.category == category then x.amount else 0)
  {
    SumWhereSnoc(s, x, (t: Transaction) => t.kind == Expense && t.category == category);
  }

  /** A sum over a narrower selection is no larger. */
  lemma {:induction false} SumWhereMonotone(ts: seq<Transaction>, p: Transaction -> bool, q: Transaction -> bool)
    requires forall t :: p(t) ==> q(t)
    ensures SumWhere(ts, p) <= SumWhere(ts, q)
  {
    if ts != [] {
      SumWhereMonotone(ts[..|ts| - 1], p, q);
    }
  }

  /** Two selections that agree on every transaction present give the same sum. */
  lemma {:induction false} SumWhereEquiv(ts: seq<Transaction>, p: Transaction -> bool, q: Transaction -> bool)
    requires forall t :: t in ts ==> (p(t) <==> q(t))
    ensures SumWhere(ts, p) == SumWhere(ts, q)
  {
    if ts != [] {
      assert forall t :: t in ts[..|ts| - 1] ==> t in ts;
      SumWhereEquiv(ts[..|ts| - 1], p, q);
    }
  }

  /** A selected transaction's amount is part of the sum. */
  lemma {:induction false} SumWhereMember(ts: seq<Transaction>, p: Transaction -> bool, t: Transaction)
    requires t in ts && p(t)
    ensures SumWhere(ts, p) >= t.amount
  {
    var rest := ts[..|ts| - 1];
    if ts[|ts| - 1] != t {
      assert ts == rest + [ts[|ts| - 1]];
      SumWhereMember(rest, p, t);
    }
  }

  /** A sum whose selected transactions all have amount 0 is 0. */
  lemma {:induction false} SumWhereZero(ts: seq<Transaction>, p: Transaction -> bool)
    requires forall t :: t in ts && p(t) ==> t.amount == 0
    ensures SumWhere(ts, p) == 0
  {
    if ts != [] {
      assert forall t :: t in ts[..|ts| - 1] ==> t in ts;
      SumWhereZero(ts[..|ts| - 1], p);
    }
  }

  /** No category has spent more than all expenses together. */
  lemma CategoryExpenseBound(ts: seq<Transaction>, category: string)
    ensures CategoryExpense(ts, category) <= TotalOf(ts, Expense)
  {
    SumWhereMonotone(ts, (t: Transaction) => t.kind == Expense && t.category == category,
                         (t: Transaction) => t.kind == Expense);
  }

  /** A category no expense uses has spent nothing. */
  lemma CategoryExpenseAbsent(s: seq<Transaction>, category: string)
    requires category !in ExpenseCategories(s)
    ensures CategoryExpense(s, category) == 0
  {
    ExpenseCategoriesMembers(s);
    SumWhereNone(s, (t: Transaction) => t.kind == Expense && t.category == category);
  }

  /** The categories of the expense transactions, in order, repeats included. */
  function ExpenseCategories(ts: seq<Transaction>): seq<string>
  {
    if ts == [] then []
    else
      var t := ts[|ts| - 1];
      ExpenseCategories(ts[..|ts| - 1]) + (if t.kind == Expense then [t.category] else [])
  }

  /** A category name is listed exactly when some expense carries it. */
  lemma {:induction false} ExpenseCategoriesMembers(ts: seq<Transaction>)
    ensures forall c :: c in ExpenseCategories(ts) <==> exists t :: t in ts && t.kind == Expense && t.category == c
  {
    if ts != [] {
      var t := ts[|ts| - 1];
      assert ts == ts[..|ts| - 1] + [t];
      ExpenseCategoriesMembers(ts[..|ts| - 1]);
    }
  }
}
