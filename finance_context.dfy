/**
 * The finance store of src/context/FinanceContext.tsx: five pieces of state (the
 * transactions, categories, budgets and goals collections and the user profile) and
 * the mutators that replace them. Each `setX(...)` becomes an assignment to the field.
 *
 * Fresh ids (`uuidv4()`) are parameters that must not already be in use; the saved
 * state read from `localStorage` is passed to the constructor already parsed.
 */
module FinanceContext {
  import opened Calendar
  import opened Records
  import opened Seqs
  import opened IdCollections

  function TransactionId(t: Transaction): string { t.id }
  function CategoryId(c: Category): string { c.id }
  function BudgetId(b: Budget): string { b.id }
  function GoalId(g: Goal): string { g.id }

  /** The eleven categories a new user starts with, given their eleven fresh ids. */
  function DefaultCategories(ids: seq<string>): (r: seq<Category>)
    requires |ids| == 11
    ensures |r| == 11 && Ids(r, CategoryId) == ids
  {
    [ Category(ids[0], "Housing", "#0ea5e9"),
      Category(ids[1], "Food", "#22c55e"),
      Category(ids[2], "Transportation", "#f97316"),
      Category(ids[3], "Entertainment", "#a855f7"),
      Category(ids[4], "Healthcare", "#ef4444"),
      Category(ids[5], "Utilities", "#14b8a6"),
      Category(ids[6], "Shopping", "#ec4899"),
      Category(ids[7], "Education", "#6366f1"),
      Category(ids[8], "Salary", "#22c55e"),
      Category(ids[9], "Investment", "#0ea5e9"),
      Category(ids[10], "Other", "#94a3b8") ]
  }

  const DefaultUser: User :=
    User("1", "User", "user@example.com", "USD", Preferences(System, Blue))

  /** `saved ? JSON.parse(saved) : fallback`, with nothing (or an empty string) saved as `None`. */
  function LoadOr<T>(saved: Option<T>, fallback: T): T {
    match saved
    case Some(v) => v
    case None => fallback
  }

  /** `categories.find(c => c.id === id)`: the first category with that id, if any. */
  function FindCategory(cats: seq<Category>, id: string): (r: Option<Category>)
    ensures r.None? <==> id !in Ids(cats, CategoryId)
    ensures r.Some? ==> r.value in cats && r.value.id == id
    ensures r.Some? ==> r.value == cats[FirstIndex(Ids(cats, CategoryId), id)]
  {
    if cats == [] then None
    else if cats[0].id == id then Some(cats[0])
    else
      assert Ids(cats, CategoryId) == [cats[0].id] + Ids(cats[1..], CategoryId);
      FindCategory(cats[1..], id)
  }

  /**
   * The guard of `deleteCategory`: some transaction is booked under the name of the
   * category that has this id.
   */
  predicate CategoryInUse(ts: seq<Transaction>, cats: seq<Category>, id: string) {
    match FindCategory(cats, id)
    case None => false
    case Some(c) => exists t :: t in ts && t.category == c.name
  }

  /**
   * With unique category ids, a deletion that the guard lets through removes no
   * category whose name a transaction still uses.
   */
  lemma DeleteKeepsUsedCategories(ts: seq<Transaction>, cats: seq<Category>, id: string)
    requires UniqueIds(cats, CategoryId) && !CategoryInUse(ts, cats, id)
    ensures forall c, t :: c in cats && c !in RemoveById(cats, CategoryId, id) && t in ts ==> t.category != c.name
  {
    RemoveMembers(cats, CategoryId, id);
    forall c, t | c in cats && c !in RemoveById(cats, CategoryId, id) && t in ts
      ensures t.category != c.name
    {
      var i :| 0 <= i < |cats| && cats[i] == c;
      var f := FindCategory(cats, id);
      var k := FirstIndex(Ids(cats, CategoryId), id);
      assert Ids(cats, CategoryId)[i] == id;
      assert i == k;
    }
  }

  /** Deleting an id no category has is not blocked and removes nothing. */
  lemma DeleteUnknownCategory(ts: seq<Transaction>, cats: seq<Category>, id: string)
    requires id !in Ids(cats, CategoryId)
    ensures !CategoryInUse(ts, cats, id)
    ensures RemoveById(cats, CategoryId, id) == cats
  {
    RemoveUnknownId(cats, CategoryId, id);
  }

  /** A used category is never deleted: the blocked case is exactly a transaction using its name. */
  lemma CategoryInUseWitness(ts: seq<Transaction>, cats: seq<Category>, id: string, t: Transaction)
    requires t in ts && id in Ids(cats, CategoryId)
    requires t.category == cats[FirstIndex(Ids(cats, CategoryId), id)].name
    ensures CategoryInUse(ts, cats, id)
  {
  }

  /** `Partial<User>`: the fields an `updateUser` call supplies. */
  datatype UserPatch = UserPatch(
    id: Option<string>,
    name: Option<string>,
    email: Option<string>,
    currency: Option<string>,
    preferences: Option<Preferences>)

  const EmptyPatch := UserPatch(None, None, None, None, None)

  /** `{ ...user, ...userData }`: supplied fields win; `preferences` is replaced as a whole. */
  function MergeUser(u: User, p: UserPatch): User {
    User(LoadOr(p.id, u.id), LoadOr(p.name, u.name), LoadOr(p.email, u.email),
         LoadOr(p.currency, u.currency), LoadOr(p.preferences, u.preferences))
  }

  /** Two patches in a row: the later one's fields win, the earlier one's fill in. */
  function ThenPatch(p: UserPatch, q: UserPatch): UserPatch {
    UserPatch(
      if q.id.Some? then q.id else p.id,
      if q.name.Some? then q.name else p.name,
      if q.email.Some? then q.email else p.email,
      if q.currency.Some? then q.currency else p.currency,
      if q.preferences.Some? then q.preferences else p.preferences)
  }

  /**
   * The merge is shallow: every supplied field is taken, every other field is kept,
   * an empty patch changes nothing, applying a patch twice is applying it once, and
   * two patches in a row are one combined patch.
   */
  lemma MergeUserLaws(u: User, p: UserPatch, q: UserPatch)
    ensures p.name.Some? ==> MergeUser(u, p).name == p.name.value
    ensures p.name.None? ==> MergeUser(u, p).name == u.name
    ensures p.preferences.Some? ==> MergeUser(u, p).preferences == p.preferences.value
    ensures p.preferences.None? ==> MergeUser(u, p).preferences == u.preferences
    ensures MergeUser(u, EmptyPatch) == u
    ensures MergeUser(MergeUser(u, p), p) == MergeUser(u, p)
    ensures MergeUser(MergeUser(u, p), q) == MergeUser(u, ThenPatch(p, q))
  {
  }

  class FinanceStore {
    var transactions: seq<Transaction>
    var categories: seq<Category>
    var budgets: seq<Budget>
    var goals: seq<Goal>
    var user: User

    /** Every collection holds each id at most once. */
    predicate Valid()
      reads this
    {
      UniqueIds(transactions, TransactionId) && UniqueIds(categories, CategoryId) &&
      UniqueIds(budgets, BudgetId) && UniqueIds(goals, GoalId)
    }

    /** The initial state: what was saved, or empty collections, the default categories and the default user. */
    constructor (savedTransactions: Option<seq<Transaction>>, savedCategories: Option<seq<Category>>,
                 savedBudgets: Option<seq<Budget>>, savedGoals: Option<seq<Goal>>,
                 savedUser: Option<User>, defaultCategoryIds: seq<string>)
      requires |defaultCategoryIds| == 11
      ensures transactions == LoadOr(savedTransactions, [])
      ensures categories == LoadOr(savedCategories, DefaultCategories(defaultCategoryIds))
      ensures budgets == LoadOr(savedBudgets, [])
      ensures goals == LoadOr(savedGoals, [])
      ensures user == LoadOr(savedUser, DefaultUser)
      ensures (savedTransactions.None? && savedCategories.None? && savedBudgets.None? &&
               savedGoals.None? && NoDuplicates(defaultCategoryIds)) ==> Valid()
    {
      transactions := LoadOr(savedTransactions, []);
      categories := LoadOr(savedCategories, DefaultCategories(defaultCategoryIds));
      budgets := LoadOr(savedBudgets, []);
      goals := LoadOr(savedGoals, []);
      user := LoadOr(savedUser, DefaultUser);
    }

    /** `addTransaction`: the record, under a fresh id, goes last; nothing else changes. */
    method AddTransaction(draft: Transaction, freshId: string)
      requires freshId !in Ids(transactions, TransactionId)
      modifies this
      ensures transactions == old(transactions) + [draft.(id := freshId)]
      ensures categories == old(categories) && budgets == old(budgets) && goals == old(goals) && user == old(user)
      ensures old(Valid()) ==> Valid()
    {
      if Valid() {
        AppendFreshKeepsUnique(transactions, TransactionId, draft.(id := freshId));
      }
      transactions := transactions + [draft.(id := freshId)];
    }

    /** `updateTransaction`: every record with the edited record's id becomes the edited record. */
    method UpdateTransaction(updated: Transaction)
      modifies this
      ensures transactions == ReplaceById(old(transactions), TransactionId, updated)
      ensures categories == old(categories) && budgets == old(budgets) && goals == old(goals) && user == old(user)
      ensures old(Valid()) ==> Valid()
    {
      ReplaceKeepsIds(transactions, TransactionId, updated);
      transactions := ReplaceById(transactions, TransactionId, updated);
    }

    /** `deleteTransaction`: the records with that id are dropped, the rest keep their order. */
    method DeleteTransaction(id: string)
      modifies this
      ensures transactions == RemoveById(old(transactions), TransactionId, id)
      ensures categories == old(categories) && budgets == old(budgets) && goals == old(goals) && user == old(user)
      ensures old(Valid()) ==> Valid()
    {
      if Valid() {
        RemoveKeepsUnique(transactions, TransactionId, id);
      }
      transactions := RemoveById(transactions, TransactionId, id);
    }

    /** `addCategory`. */
    method AddCategory(draft: Category, freshId: string)
      requires freshId !in Ids(categories, CategoryId)
      modifies this
      ensures categories == old(categories) + [draft.(id := freshId)]
      ensures transactions == old(transactions) && budgets == old(budgets) && goals == old(goals) && user == old(user)
      ensures old(Valid()) ==> Valid()
    {
      if Valid() {
        AppendFreshKeepsUnique(categories, CategoryId, draft.(id := freshId));
      }
      categories := categories + [draft.(id := freshId)];
    }

    /** `updateCategory`. */
    method UpdateCategory(updated: Category)
      modifies this
      ensures categories == ReplaceById(old(categories), CategoryId, updated)
      ensures transactions == old(transactions) && budgets == old(budgets) && goals == old(goals) && user == old(user)
      ensures old(Valid()) ==> Valid()
    {
      ReplaceKeepsIds(categories, CategoryId, updated);
      categories := ReplaceById(categories, CategoryId, updated);
    }

    /**
     * `deleteCategory`: refused (`ok` false, nothing changes) while a transaction uses
     * the category's name; otherwise the categories with that id are dropped.
     */
    method DeleteCategory(id: string) returns (ok: bool)
      modifies this
      ensures ok <==> !CategoryInUse(old(transactions), old(categories), id)
      ensures categories == if ok then RemoveById(old(categories), CategoryId, id) else old(categories)
      ensures transactions == old(transactions) && budgets == old(budgets) && goals == old(goals) && user == old(user)
      ensures old(Valid()) ==> Valid()
    {
      if CategoryInUse(transactions, categories, id) {
        return false;
      }
      if Valid() {
        RemoveKeepsUnique(categories, CategoryId, id);
      }
      categories := RemoveById(categories, CategoryId, id);
      return true;
    }

    /** `addBudget`. */
    method AddBudget(draft: Budget, freshId: string)
      requires freshId !in Ids(budgets, BudgetId)
      modifies this
      ensures budgets == old(budgets) + [draft.(id := freshId)]
      ensures transactions == old(transactions) && categories == old(categories) && goals == old(goals) && user == old(user)
      ensures old(Valid()) ==> Valid()
    {
      if Valid() {
        AppendFreshKeepsUnique(budgets, BudgetId, draft.(id := freshId));
      }
      budgets := budgets + [draft.(id := freshId)];
    }

    /** `updateBudget`. */
    method UpdateBudget(updated: Budget)
      modifies this
      ensures budgets == ReplaceById(old(budgets), BudgetId, updated)
      ensures transactions == old(transactions) && categories == old(categories) && goals == old(goals) && user == old(user)
      ensures old(Valid()) ==> Valid()
    {
      ReplaceKeepsIds(budgets, BudgetId, updated);
      budgets := ReplaceById(budgets, BudgetId, updated);
    }

    /** `deleteBudget`. */
    method DeleteBudget(id: string)
      modifies this
      ensures budgets == RemoveById(old(budgets), BudgetId, id)
      ensures transactions == old(transactions) && categories == old(categories) && goals == old(goals) && user == old(user)
      ensures old(Valid()) ==> Valid()
    {
      if Valid() {
        RemoveKeepsUnique(budgets, BudgetId, id);
      }
      budgets := RemoveById(budgets, BudgetId, id);
    }

    /** `addGoal`. */
    method AddGoal(draft: Goal, freshId: string)
      requires freshId !in Ids(goals, GoalId)
      modifies this
      ensures goals == old(goals) + [draft.(id := freshId)]
      ensures transactions == old(transactions) && categories == old(categories) && budgets == old(budgets) && user == old(user)
      ensures old(Valid()) ==> Valid()
    {
      if Valid() {
        AppendFreshKeepsUnique(goals, GoalId, draft.(id := freshId));
      }
      goals := goals + [draft.(id := freshId)];
    }

    /** `updateGoal`. */
    method UpdateGoal(updated: Goal)
      modifies this
      ensures goals == ReplaceById(old(goals), GoalId, updated)
      ensures transactions == old(transactions) && categories == old(categories) && budgets == old(budgets) && user == old(user)
      ensures old(Valid()) ==> Valid()
    {
      ReplaceKeepsIds(goals, GoalId, updated);
      goals := ReplaceById(goals, GoalId, updated);
    }

    /** `deleteGoal`. */
    method DeleteGoal(id: string)
      modifies this
      ensures goals == RemoveById(old(goals), GoalId, id)
      ensures transactions == old(transactions) && categories == old(categories) && budgets == old(budgets) && user == old(user)
      ensures old(Valid()) ==> Valid()
    {
      if Valid() {
        RemoveKeepsUnique(goals, GoalId, id);
      }
      goals := RemoveById(goals, GoalId, id);
    }

    /** `updateUser`: the shallow merge of the supplied fields; the collections do not change. */
    method UpdateUser(patch: UserPatch)
      modifies this
      ensures user == MergeUser(old(user), patch)
      ensures transactions == old(transactions) && categories == old(categories) &&
              budgets == old(budgets) && goals == old(goals)
      ensures Valid() == old(Valid())
    {
      user := MergeUser(user, patch);
    }
  }
}
