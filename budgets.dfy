/**
 * `getBudgetSpent` (src/pages/Budgets.tsx): the expenses a budget has consumed, those
 * dated inside its inclusive window and, when the budget names a category that
 * exists, booked under that category's name.
 */
module Budgets {
  import opened Calendar
  import opened Records
  import opened IdCollections
  import opened FinanceContext

  /**
   * The category name the budget filters on: empty when `categoryId` is missing or
   * empty, when no category has that id, or when the category's name is empty.
   */
  function BudgetCategoryName(b: Budget, cats: seq<Category>): string {
    match b.categoryId
    case None => ""
    case Some(id) =>
      if id == "" then ""
      else match FindCategory(cats, id)
        case None => ""
        case Some(c) => c.name
  }

  /** The end of the window: `endDate`, or today when there is none. */
  function BudgetEnd(b: Budget, now: Date): Date {
    LoadOr(b.endDate, now)
  }

  /** `transactionDate >= startDate && transactionDate <= endDate`, on whole days. */
  predicate InWindow(d: Date, start: Date, end: Date) {
    DayNumber(start) <= DayNumber(d) <= DayNumber(end)
  }

  /** The `filter` predicate: in the window, an expense, and in the category if one is named. */
  predicate Consumes(b: Budget, name: string, now: Date, t: Transaction) {
    InWindow(t.date, b.startDate, BudgetEnd(b, now)) && t.kind == Expense && (name == "" || t.category == name)
  }

  /** `getBudgetSpent(budget)`. */
  function BudgetSpent(b: Budget, cats: seq<Category>, ts: seq<Transaction>, now: Date): nat {
    var name := BudgetCategoryName(b, cats);
    SumWhere(ts, (t: Transaction) => Consumes(b, name, now, t))
  }

  /** Every expense in the window, whatever its category. */
  function WindowExpenses(b: Budget, ts: seq<Transaction>, now: Date): nat {
    SumWhere(ts, (t: Transaction) => Consumes(b, "", now, t))
  }

  /**
   * A budget with no category, an empty one (the form's "All Categories"), or one no
   * category has, counts the expenses of every category.
   */
  lemma NoCategoryCountsAll(b: Budget, cats: seq<Category>, ts: seq<Transaction>, now: Date)
    requires b.categoryId.None? || b.categoryId == Some("") || b.categoryId.value !in Ids(cats, CategoryId)
    ensures BudgetSpent(b, cats, ts, now) == WindowExpenses(b, ts, now)
  {
    assert BudgetCategoryName(b, cats) == "";
  }

  /** Naming a category can only lower what a budget has consumed. */
  lemma CategoryNarrowsSpent(b: Budget, cats: seq<Category>, ts: seq<Transaction>, now: Date)
    ensures BudgetSpent(b, cats, ts, now) <= WindowExpenses(b, ts, now)
    ensures BudgetSpent(b, cats, ts, now) <= TotalOf(ts, Expense)
  {
    var name := BudgetCategoryName(b, cats);
    SumWhereMonotone(ts, (t: Transaction) => Consumes(b, name, now, t), (t: Transaction) => Consumes(b, "", now, t));
    SumWhereMonotone(ts, (t: Transaction) => Consumes(b, "", now, t), (t: Transaction) => t.kind == Expense);
  }

  /**
   * A new transaction that the filter selects adds exactly its amount; one it does not
   * select (an income, a date outside the window, another category) adds nothing.
   */
  lemma SpentAfterAppend(b: Budget, cats: seq<Category>, ts: seq<Transaction>, now: Date, t: Transaction)
    ensures BudgetSpent(b, cats, ts + [t], now) ==
              BudgetSpent(b, cats, ts, now) + (if Consumes(b, BudgetCategoryName(b, cats), now, t) then t.amount else 0)
    ensures t.kind == Income ==> BudgetSpent(b, cats, ts + [t], now) == BudgetSpent(b, cats, ts, now)
  {
    var name := BudgetCategoryName(b, cats);
    SumWhereSnoc(ts, t, (t: Transaction) => Consumes(b, name, now, t));
  }

  /** Both ends of the window are included; a missing end date means today. */
  lemma WindowInclusive(b: Budget, now: Date, t: Transaction)
    requires t.kind == Expense && (t.date == b.startDate || t.date == BudgetEnd(b, now))
    requires DayNumber(b.startDate) <= DayNumber(BudgetEnd(b, now))
    ensures Consumes(b, "", now, t)
    ensures b.endDate.None? ==> BudgetEnd(b, now) == now
  {
  }

  /** With nothing selected, the budget has consumed nothing. */
  lemma NothingSpent(b: Budget, cats: seq<Category>, ts: seq<Transaction>, now: Date)
    requires forall t :: t in ts ==> !Consumes(b, BudgetCategoryName(b, cats), now, t)
    ensures BudgetSpent(b, cats, ts, now) == 0
  {
    var name := BudgetCategoryName(b, cats);
    SumWhereNone(ts, (t: Transaction) => Consumes(b, name, now, t));
  }
}

/**
 * The arithmetic of src/components/budgets/BudgetCard.tsx: the percentage consumed,
 * what is left, the bar colour, and the colour of the percentage label.
 */
module BudgetCard {
  import opened Records
  import opened Progress

  datatype BarColor = Primary | Warning | Danger

  /** `Math.max(budget.amount - spent, 0)`. */
  function Remaining(spent: nat, amount: PositiveCents): int {
    if amount - spent > 0 then amount - spent else 0
  }

  /** Danger above 85 percent, warning above 65, primary otherwise. */
  function ProgressColor(progress: real): BarColor {
    if progress > 85.0 then Danger else if progress > 65.0 then Warning else Primary
  }

  /** The percentage label is drawn in the danger style above 100 percent. */
  predicate LabelDanger(progress: real) {
    progress > 100.0
  }

  /** Nothing left is never negative, and is zero exactly when the budget is used up. */
  lemma RemainingSpec(spent: nat, amount: PositiveCents)
    ensures Remaining(spent, amount) >= 0
    ensures Remaining(spent, amount) == 0 <==> spent >= amount
    ensures spent < amount ==> spent + Remaining(spent, amount) == amount
  {
  }

  /**
   * The colour bands in terms of the amounts: danger when more than 85 percent is
   * spent, warning from 65 up to 85, primary up to 65; overspending is always danger.
   */
  lemma ColorBands(spent: nat, amount: PositiveCents)
    ensures ProgressColor(Percent(spent, amount)) == Danger <==> 100 * spent > 85 * amount
    ensures ProgressColor(Percent(spent, amount)) == Warning <==> 65 * amount < 100 * spent <= 85 * amount
    ensures ProgressColor(Percent(spent, amount)) == Primary <==> 100 * spent <= 65 * amount
    ensures LabelDanger(Percent(spent, amount)) <==> spent > amount
    ensures LabelDanger(Percent(spent, amount)) ==> ProgressColor(Percent(spent, amount)) == Danger
  {
    PercentAbove(spent, amount, 85);
    PercentAbove(spent, amount, 65);
    PercentAbove(spent, amount, 100);
  }

  /** Spending more never moves the bar to a milder colour. */
  lemma ColorMonotone(s1: nat, s2: nat, amount: PositiveCents)
    requires s1 <= s2
    ensures ProgressColor(Percent(s1, amount)) == Danger ==> ProgressColor(Percent(s2, amount)) == Danger
    ensures ProgressColor(Percent(s2, amount)) == Primary ==> ProgressColor(Percent(s1, amount)) == Primary
  {
    ColorBands(s1, amount);
    ColorBands(s2, amount);
  }
}
