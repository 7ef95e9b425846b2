/**
 * The create / edit budget form, src/components/budgets/BudgetForm.tsx: its initial
 * data, the field edits, the category choices, and the submit that adds a new budget
 * or replaces the edited one.
 */
module BudgetForm {
  import opened Calendar
  import opened Records
  import opened Seqs
  import opened IdCollections
  import opened FinanceContext
  import opened Budgets
  import TransactionForm

  /** Budgets may be limited to any category but the income ones. */
  predicate Selectable(c: Category) {
    c.name !in TransactionForm.IncomeOnlyNames
  }

  /** The categories listed after "All Categories"; each option's value is the category's id. */
  function BudgetCategoryOptions(cats: seq<Category>): seq<Category> {
    Filter(cats, Selectable)
  }

  /** The value of the "All Categories" option. */
  const AllCategoriesValue := ""

  /**
   * The options are exactly the store's categories that are not income-only, each as
   * often as in the store and in the store's order.
   */
  lemma BudgetCategoryOptionsSpec(cats: seq<Category>, more: seq<Category>)
    ensures forall c :: c in BudgetCategoryOptions(cats) <==> c in cats && c.name != "Salary" && c.name != "Investment"
    ensures BudgetCategoryOptions(cats + more) == BudgetCategoryOptions(cats) + BudgetCategoryOptions(more)
  {
    FilterMembers(cats, Selectable);
    FilterAppend(cats, more, Selectable);
    assert TransactionForm.IncomeOnlyNames == ["Salary", "Investment"];
  }

  /** A budget can be limited to exactly the categories an expense can be booked under. */
  lemma BudgetOptionsAreExpenseOptions(cats: seq<Category>)
    ensures BudgetCategoryOptions(cats) == TransactionForm.CategoryOptions(cats, Expense)
  {
    FilterEquiv(cats, Selectable, TransactionForm.OfferedFor(Expense));
  }

  /** `Omit<Budget, 'id'>`: what the form holds; the amount is not yet known to be positive. */
  datatype FormData = FormData(
    name: string,
    amount: nat,
    period: Period,
    categoryId: Option<string>,
    startDate: Date,
    endDate: Option<Date>)

  /** `{ ...formData, id }`, for a positive amount. */
  function WithId(d: FormData, id: string): Budget
    requires d.amount > 0
  {
    Budget(id, d.name, d.amount, d.period, d.categoryId, d.startDate, d.endDate)
  }

  /**
   * The initial form: the edited budget's fields, except that an empty category id
   * becomes none (`categoryId || undefined`); or a monthly budget of 0 from today with
   * no name, category or end.
   */
  function Initial(edit: Option<Budget>, today: Date): (d: FormData)
    ensures edit.Some? ==> d.amount > 0
    ensures edit.Some? && edit.value.categoryId != Some("") ==> WithId(d, edit.value.id) == edit.value
    ensures edit.Some? && edit.value.categoryId == Some("") ==> WithId(d, edit.value.id) == edit.value.(categoryId := None)
    ensures edit.None? ==> d.name == "" && d.amount == 0 && d.period == Monthly && d.categoryId.None? &&
                           d.startDate == today && d.endDate.None?
  {
    match edit
    case Some(b) =>
      FormData(b.name, b.amount, b.period, if b.categoryId == Some("") then None else b.categoryId, b.startDate, b.endDate)
    case None => FormData("", 0, Monthly, None, today, None)
  }

  /**
   * Opening a budget for editing and submitting it untouched leaves what it counts as
   * spent unchanged, even where the empty category id was dropped.
   */
  lemma InitialKeepsSpent(b: Budget, today: Date, cats: seq<Category>, ts: seq<Transaction>, now: Date)
    ensures Initial(Some(b), today).amount > 0
    ensures BudgetSpent(WithId(Initial(Some(b), today), b.id), cats, ts, now) == BudgetSpent(b, cats, ts, now)
  {
    var b' := WithId(Initial(Some(b), today), b.id);
    var name := BudgetCategoryName(b, cats);
    assert BudgetCategoryName(b', cats) == name;
    assert BudgetEnd(b', now) == BudgetEnd(b, now);
    SumWhereEquiv(ts, (t: Transaction) => Consumes(b', name, now, t), (t: Transaction) => Consumes(b, name, now, t));
  }

  /**
   * One `onChange` event, the number already parsed. The category select gives the
   * option's value: a category id, or "" for "All Categories"; a cleared end date is none.
   */
  datatype Change =
    | SetName(name: string)
    | SetAmount(amount: nat)
    | SetPeriod(period: Period)
    | SetCategoryId(categoryId: string)
    | SetStartDate(startDate: Date)
    | SetEndDate(endDate: Option<Date>)

  /** `{ ...prev, [name]: value }`. */
  function Changed(d: FormData, c: Change): FormData {
    match c
    case SetName(s) => d.(name := s)
    case SetAmount(a) => d.(amount := a)
    case SetPeriod(p) => d.(period := p)
    case SetCategoryId(id) => d.(categoryId := Some(id))
    case SetStartDate(dt) => d.(startDate := dt)
    case SetEndDate(e) => d.(endDate := e)
  }

  /** Choosing "All Categories" makes the budget count the expenses of every category. */
  lemma AllCategoriesCountsAll(d: FormData, id: string, cats: seq<Category>, ts: seq<Transaction>, now: Date)
    requires d.amount > 0
    ensures Changed(d, SetCategoryId(AllCategoriesValue)).amount > 0
    ensures BudgetSpent(WithId(Changed(d, SetCategoryId(AllCategoriesValue)), id), cats, ts, now) ==
            WindowExpenses(WithId(Changed(d, SetCategoryId(AllCategoriesValue)), id), ts, now)
  {
    NoCategoryCountsAll(WithId(Changed(d, SetCategoryId(AllCategoriesValue)), id), cats, ts, now);
  }

  /**
   * Choosing a listed category (with a non-empty id, ids unique) makes the budget
   * count the expenses booked under that category's name.
   */
  lemma ChosenCategoryFilters(d: FormData, id: string, cats: seq<Category>, c: Category)
    requires d.amount > 0 && UniqueIds(cats, CategoryId)
    requires c in BudgetCategoryOptions(cats) && c.id != AllCategoriesValue
    ensures Changed(d, SetCategoryId(c.id)).amount > 0
    ensures BudgetCategoryName(WithId(Changed(d, SetCategoryId(c.id)), id), cats) == c.name
  {
    FilterMembers(cats, Selectable);
    UniqueIdFinds(cats, CategoryId, c);
  }

  /** The form's state: the data it holds and the budget it edits, if any. */
  class BudgetFormState {
    var formData: FormData
    const editing: Option<Budget>

    constructor (edit: Option<Budget>, today: Date)
      ensures editing == edit && formData == Initial(edit, today)
    {
      editing := edit;
      formData := Initial(edit, today);
    }

    /** `handleChange`. */
    method HandleChange(c: Change)
      modifies this
      ensures formData == Changed(old(formData), c)
    {
      formData := Changed(formData, c);
    }

    /**
     * `handleSubmit`: an edit replaces the budget with the edited id by the form's
     * data under that id; otherwise the data is added under a fresh id.
     */
    method HandleSubmit(store: FinanceStore, freshId: string)
      requires formData.amount > 0
      requires editing.None? ==> freshId !in Ids(store.budgets, BudgetId)
      modifies store
      ensures editing.Some? ==> store.budgets == ReplaceById(old(store.budgets), BudgetId, WithId(formData, editing.value.id))
      ensures editing.None? ==> store.budgets == old(store.budgets) + [WithId(formData, freshId)]
      ensures store.transactions == old(store.transactions) && store.categories == old(store.categories)
      ensures store.goals == old(store.goals) && store.user == old(store.user)
      ensures old(store.Valid()) ==> store.Valid()
    {
      match editing
      case Some(e) =>
        store.UpdateBudget(WithId(formData, e.id));
      case None =>
        store.AddBudget(WithId(formData, ""), freshId);
        assert WithId(formData, "").(id := freshId) == WithId(formData, freshId);
    }
  }

  /** Opening a stored budget whose category id is not empty and submitting it untouched changes nothing. */
  lemma UntouchedEditKeepsStore(bs: seq<Budget>, b: Budget, today: Date)
    requires UniqueIds(bs, BudgetId) && b in bs && b.categoryId != Some("")
    ensures Initial(Some(b), today).amount > 0
    ensures ReplaceById(bs, BudgetId, WithId(Initial(Some(b), today), b.id)) == bs
  {
    ReplaceWithSelf(bs, BudgetId, b);
  }
}
