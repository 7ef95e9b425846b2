/**
 * The add / edit transaction form, src/components/transactions/TransactionForm.tsx:
 * its initial data, the field edits, the category choices offered for each type, and
 * the submit that adds a new transaction or replaces the edited one.
 */
module TransactionForm {
  import opened Calendar
  import opened Records
  import opened Seqs
  import opened IdCollections
  import opened FinanceContext

  /** The category names income may be booked under. */
  const IncomeNames: seq<string> := ["Salary", "Investment", "Other"]

  /** The category names kept away from expenses. */
  const IncomeOnlyNames: seq<string> := ["Salary", "Investment"]

  /** The category select's filter for the chosen type. */
  predicate Offered(kind: Kind, c: Category) {
    if kind == Income then c.name in IncomeNames else c.name !in IncomeOnlyNames
  }

  function OfferedFor(kind: Kind): Category -> bool {
    c => Offered(kind, c)
  }

  /** The categories listed in the select; each option's value is the category's name. */
  function CategoryOptions(cats: seq<Category>, kind: Kind): seq<Category> {
    Filter(cats, OfferedFor(kind))
  }

  /**
   * The options are exactly the store's categories the type allows, each as often as
   * in the store and in the store's order.
   */
  lemma CategoryOptionsSpec(cats: seq<Category>, kind: Kind, more: seq<Category>)
    ensures forall c :: c in CategoryOptions(cats, kind) <==> c in cats && Offered(kind, c)
    ensures forall c :: multiset(CategoryOptions(cats, kind))[c] == if Offered(kind, c) then multiset(cats)[c] else 0
    ensures CategoryOptions(cats + more, kind) == CategoryOptions(cats, kind) + CategoryOptions(more, kind)
  {
    FilterMembers(cats, OfferedFor(kind));
    forall c ensures multiset(CategoryOptions(cats, kind))[c] == if Offered(kind, c) then multiset(cats)[c] else 0 {
      FilterCount(cats, OfferedFor(kind), c);
    }
    FilterAppend(cats, more, OfferedFor(kind));
  }

  /**
   * Every category is offered for at least one type, and "Other" is the only name
   * offered for both.
   */
  lemma OfferedTypes(c: Category)
    ensures Offered(Income, c) || Offered(Expense, c)
    ensures Offered(Income, c) && Offered(Expense, c) <==> c.name == "Other"
  {
    if c.name == "Salary" || c.name == "Investment" {
      assert c.name in IncomeNames;
    } else if c.name == "Other" {
      assert IncomeNames[2] == c.name;
    } else {
      assert c.name !in IncomeNames;
    }
  }

  /** `Omit<Transaction, 'id'>`: what the form holds. */
  datatype FormData = FormData(amount: nat, description: string, category: string, date: Date, kind: Kind)

  /** `{ ...formData, id }`. */
  function WithId(d: FormData, id: string): Transaction {
    Transaction(id, d.amount, d.description, d.category, d.date, d.kind)
  }

  /**
   * The initial form: the edited transaction's fields, or an expense of 0 today with
   * empty description and category.
   */
  function Initial(edit: Option<Transaction>, today: Date): (d: FormData)
    ensures edit.Some? ==> WithId(d, edit.value.id) == edit.value
    ensures edit.None? ==> d.amount == 0 && d.description == "" && d.category == "" && d.date == today && d.kind == Expense
  {
    match edit
    case Some(t) => FormData(t.amount, t.description, t.category, t.date, t.kind)
    case None => FormData(0, "", "", today, Expense)
  }

  /** One `onChange` event: the input's `name` and its value (the amount already parsed). */
  datatype Change =
    | SetType(kind: Kind)
    | SetAmount(amount: nat)
    | SetDescription(description: string)
    | SetCategory(category: string)
    | SetDate(date: Date)

  /** `{ ...prev, [name]: value }`. */
  function Changed(d: FormData, c: Change): FormData {
    match c
    case SetType(k) => d.(kind := k)
    case SetAmount(a) => d.(amount := a)
    case SetDescription(s) => d.(description := s)
    case SetCategory(s) => d.(category := s)
    case SetDate(dt) => d.(date := dt)
  }

  /** Two events on the same input. */
  predicate SameInput(c1: Change, c2: Change) {
    (c1.SetType? && c2.SetType?) || (c1.SetAmount? && c2.SetAmount?) ||
    (c1.SetDescription? && c2.SetDescription?) || (c1.SetCategory? && c2.SetCategory?) ||
    (c1.SetDate? && c2.SetDate?)
  }

  /**
   * Of two events on the same input the later wins; events on different inputs can
   * come in either order.
   */
  lemma ChangesCompose(d: FormData, c1: Change, c2: Change)
    ensures SameInput(c1, c2) ==> Changed(Changed(d, c1), c2) == Changed(d, c2)
    ensures !SameInput(c1, c2) ==> Changed(Changed(d, c1), c2) == Changed(Changed(d, c2), c1)
  {
  }

  /**
   * Switching the type keeps the chosen category in the form's data, even one the new
   * type does not offer: after switching from expense to income the data still says
   * "Food", while the category select no longer lists it.
   */
  lemma TypeSwitchKeepsCategory(d: FormData)
    requires d.kind == Expense && d.category == "Food"
    ensures Changed(d, SetType(Income)).category == "Food"
    ensures !Offered(Income, Category("food", Changed(d, SetType(Income)).category, "#f87171"))
  {
    assert "Food" != IncomeNames[0] && "Food" != IncomeNames[1] && "Food" != IncomeNames[2];
  }

  /** The form's state: the data it holds and the transaction it edits, if any. */
  class TransactionFormState {
    var formData: FormData
    const editing: Option<Transaction>

    constructor (edit: Option<Transaction>, today: Date)
      ensures editing == edit && formData == Initial(edit, today)
    {
      editing := edit;
      formData := Initial(edit, today);
    }

    /** `handleChange`. */
    method HandleChange(c: Change)
      modifies this
      ensures formData == Changed(old(formData), c)
    {
      formData := Changed(formData, c);
    }

    /**
     * `handleSubmit`: an edit replaces the record with the edited id by the form's
     * data under that id; otherwise the data is added under a fresh id.
     */
    method HandleSubmit(store: FinanceStore, freshId: string)
      requires editing.None? ==> freshId !in Ids(store.transactions, TransactionId)
      modifies store
      ensures editing.Some? ==>
                store.transactions == ReplaceById(old(store.transactions), TransactionId, WithId(formData, editing.value.id))
      ensures editing.None? ==> store.transactions == old(store.transactions) + [WithId(formData, freshId)]
      ensures store.categories == old(store.categories) && store.budgets == old(store.budgets)
      ensures store.goals == old(store.goals) && store.user == old(store.user)
      ensures old(store.Valid()) ==> store.Valid()
    {
      match editing
      case Some(e) =>
        store.UpdateTransaction(WithId(formData, e.id));
      case None =>
        store.AddTransaction(WithId(formData, ""), freshId);
        assert WithId(formData, "").(id := freshId) == WithId(formData, freshId);
    }
  }

  /** Opening a stored transaction for editing and submitting it untouched changes nothing. */
  lemma UntouchedEditKeepsStore(ts: seq<Transaction>, e: Transaction, today: Date)
    requires UniqueIds(ts, TransactionId) && e in ts
    ensures ReplaceById(ts, TransactionId, WithId(Initial(Some(e), today), e.id)) == ts
  {
    ReplaceWithSelf(ts, TransactionId, e);
  }

  /**
   * After an edit the store holds the edited record, and it is the only record
   * with that id; the ids are as before.
   */
  lemma EditedRecordStored(ts: seq<Transaction>, d: FormData, id: string)
    requires id in Ids(ts, TransactionId)
    ensures WithId(d, id) in ReplaceById(ts, TransactionId, WithId(d, id))
    ensures forall t :: t in ReplaceById(ts, TransactionId, WithId(d, id)) && t.id == id ==> t == WithId(d, id)
    ensures Ids(ReplaceById(ts, TransactionId, WithId(d, id)), TransactionId) == Ids(ts, TransactionId)
  {
    ReplaceByIdAt(ts, TransactionId, WithId(d, id));
    ReplaceKeepsIds(ts, TransactionId, WithId(d, id));
    var i :| 0 <= i < |ts| && Ids(ts, TransactionId)[i] == id;
    assert ReplaceById(ts, TransactionId, WithId(d, id))[i] == WithId(d, id);
  }

  /**
   * A transaction added under an offered category's name puts that category in use,
   * so the store refuses to delete it.
   */
  lemma ChosenCategoryInUse(ts: seq<Transaction>, cats: seq<Category>, d: FormData, freshId: string, c: Category)
    requires UniqueIds(cats, CategoryId)
    requires c in CategoryOptions(cats, d.kind) && d.category == c.name
    ensures CategoryInUse(ts + [WithId(d, freshId)], cats, c.id)
  {
    CategoryOptionsSpec(cats, d.kind, []);
    UniqueIdFinds(cats, CategoryId, c);
    CategoryInUseWitness(ts + [WithId(d, freshId)], cats, c.id, WithId(d, freshId));
  }
}
