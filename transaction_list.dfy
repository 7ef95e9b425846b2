/**
 * The transactions page list, src/components/transactions/TransactionList.tsx: the
 * category choices, the search / type / category filter, newest-first order, and
 * deletion after confirmation.
 */
module TransactionList {
  import opened Calendar
  import opened Records
  import opened Seqs
  import opened Text
  import opened IdCollections
  import opened FinanceContext
  import RecentTransactions

  /** `Array.from(new Set(transactions.map(t => t.category)))`. */
  function Categories(ts: seq<Transaction>): seq<string> {
    Distinct(CategoryList(ts))
  }

  function CategoryList(ts: seq<Transaction>): (r: seq<string>)
    ensures |r| == |ts|
    ensures forall i :: 0 <= i < |ts| ==> r[i] == ts[i].category
  {
    seq(|ts|, i requires 0 <= i < |ts| => ts[i].category)
  }

  /**
   * The category choices name each category of a transaction once, no other, in the
   * order in which the categories first appear.
   */
  lemma CategoriesSpec(ts: seq<Transaction>)
    ensures NoDuplicates(Categories(ts))
    ensures forall c :: c in Categories(ts) <==> exists t :: t in ts && t.category == c
    ensures forall c :: c in Categories(ts) ==> c in CategoryList(ts)
    ensures forall i, j :: 0 <= i < j < |Categories(ts)| ==>
              FirstIndex(CategoryList(ts), Categories(ts)[i]) < FirstIndex(CategoryList(ts), Categories(ts)[j])
  {
    DistinctMembers(CategoryList(ts));
    DistinctOrder(CategoryList(ts));
    forall c ensures c in Categories(ts) <==> exists t :: t in ts && t.category == c {
      if c in CategoryList(ts) {
        var i :| 0 <= i < |ts| && CategoryList(ts)[i] == c;
        assert ts[i] in ts;
      }
      if exists t :: t in ts && t.category == c {
        var t :| t in ts && t.category == c;
        var i :| 0 <= i < |ts| && ts[i] == t;
        assert CategoryList(ts)[i] == c;
      }
    }
  }

  /** The type select: `'all'`, `'income'` or `'expense'`. */
  datatype TypeFilter = AllTypes | OfKind(kind: Kind)

  /** The category select's value that stands for every category. */
  const AllCategories := "all"

  /** Search on description or category, ignoring case. */
  predicate SearchMatch(t: Transaction, search: string) {
    Includes(ToLower(t.description), ToLower(search)) || Includes(ToLower(t.category), ToLower(search))
  }

  predicate TypeMatch(t: Transaction, typeFilter: TypeFilter) {
    typeFilter == AllTypes || t.kind == typeFilter.kind
  }

  predicate CategoryMatch(t: Transaction, categoryFilter: string) {
    categoryFilter == AllCategories || t.category == categoryFilter
  }

  /** The `filter` callback: all three conditions. */
  function Shown(search: string, typeFilter: TypeFilter, categoryFilter: string): Transaction -> bool {
    t => SearchMatch(t, search) && TypeMatch(t, typeFilter) && CategoryMatch(t, categoryFilter)
  }

  /** `filteredTransactions`. */
  function Filtered(ts: seq<Transaction>, search: string, typeFilter: TypeFilter, categoryFilter: string): seq<Transaction> {
    Filter(ts, Shown(search, typeFilter, categoryFilter))
  }

  /**
   * The filtered list holds exactly the transactions that pass all three conditions,
   * each as often as in the input, in their input order.
   */
  lemma FilteredSpec(ts: seq<Transaction>, search: string, typeFilter: TypeFilter, categoryFilter: string, more: seq<Transaction>)
    ensures forall t :: t in Filtered(ts, search, typeFilter, categoryFilter) <==>
              t in ts && SearchMatch(t, search) && TypeMatch(t, typeFilter) && CategoryMatch(t, categoryFilter)
    ensures forall t :: multiset(Filtered(ts, search, typeFilter, categoryFilter))[t] ==
              if SearchMatch(t, search) && TypeMatch(t, typeFilter) && CategoryMatch(t, categoryFilter) then multiset(ts)[t] else 0
    ensures Filtered(ts + more, search, typeFilter, categoryFilter) ==
              Filtered(ts, search, typeFilter, categoryFilter) + Filtered(more, search, typeFilter, categoryFilter)
  {
    var p := Shown(search, typeFilter, categoryFilter);
    FilterMembers(ts, p);
    forall t ensures multiset(Filter(ts, p))[t] == if p(t) then multiset(ts)[t] else 0 {
      FilterCount(ts, p, t);
    }
    FilterAppend(ts, more, p);
  }

  /** An empty search matches every transaction, whatever its text. */
  lemma EmptySearchMatches(t: Transaction)
    ensures SearchMatch(t, "")
  {
    assert ToLower("") == "";
    IncludesEmpty(ToLower(t.description));
  }

  /** Searches that differ only in letter case find the same transactions. */
  lemma SearchIgnoresCase(t: Transaction, search: string, other: string)
    requires ToLower(search) == ToLower(other)
    ensures SearchMatch(t, search) <==> SearchMatch(t, other)
  {
  }

  /** A search in upper case finds what the same search in lower case finds. */
  lemma SearchIgnoresUpperCase(t: Transaction, search: string)
    ensures SearchMatch(t, ToLower(search)) <==> SearchMatch(t, search)
  {
    ToLowerIdempotent(search);
  }

  /** With no search and both selects on "all", the whole list is shown. */
  lemma NoFilterShowsAll(ts: seq<Transaction>)
    ensures Filtered(ts, "", AllTypes, AllCategories) == ts
  {
    forall t | t in ts ensures Shown("", AllTypes, AllCategories)(t) {
      EmptySearchMatches(t);
    }
    FilterAll(ts, Shown("", AllTypes, AllCategories));
  }

  /**
   * A category select set to a category shows only that category; note that a
   * category literally named "all" cannot be selected on its own.
   */
  lemma CategorySelectNarrows(ts: seq<Transaction>, search: string, typeFilter: TypeFilter, categoryFilter: string)
    requires categoryFilter != AllCategories
    ensures forall t :: t in Filtered(ts, search, typeFilter, categoryFilter) ==> t.category == categoryFilter
    ensures forall t :: t in Filtered(ts, search, typeFilter, AllCategories) <==> t in ts && SearchMatch(t, search) && TypeMatch(t, typeFilter)
  {
    FilterMembers(ts, Shown(search, typeFilter, categoryFilter));
    FilterMembers(ts, Shown(search, typeFilter, AllCategories));
  }

  /** `sortedTransactions`: a copy of the filtered list sorted newest first. */
  function Listed(ts: seq<Transaction>, search: string, typeFilter: TypeFilter, categoryFilter: string): seq<Transaction> {
    SortDesc(Filtered(ts, search, typeFilter, categoryFilter), RecentTransactions.DateKey)
  }

  /**
   * The list shown is the filtered transactions, each as often, newest date first; of
   * two on the same day, the earlier in the store comes first.
   */
  lemma ListedSpec(ts: seq<Transaction>, search: string, typeFilter: TypeFilter, categoryFilter: string)
    ensures multiset(Listed(ts, search, typeFilter, categoryFilter)) == multiset(Filtered(ts, search, typeFilter, categoryFilter))
    ensures forall i, j :: 0 <= i < j < |Listed(ts, search, typeFilter, categoryFilter)| ==>
              DayNumber(Listed(ts, search, typeFilter, categoryFilter)[i].date) >= DayNumber(Listed(ts, search, typeFilter, categoryFilter)[j].date)
    ensures forall day :: WithKey(Listed(ts, search, typeFilter, categoryFilter), RecentTransactions.DateKey, day) ==
                           WithKey(Filtered(ts, search, typeFilter, categoryFilter), RecentTransactions.DateKey, day)
  {
    forall day {
      SortDescStable(Filtered(ts, search, typeFilter, categoryFilter), RecentTransactions.DateKey, day);
    }
    var r := Listed(ts, search, typeFilter, categoryFilter);
    forall i, j | 0 <= i < j < |r| ensures DayNumber(r[i].date) >= DayNumber(r[j].date) {
      assert RecentTransactions.DateKey(r[i]) >= RecentTransactions.DateKey(r[j]);
    }
  }

  /** `handleDelete`: the store drops the transaction only if the user confirms. */
  method HandleDelete(store: FinanceStore, id: string, confirmed: bool)
    modifies store
    ensures confirmed ==> store.transactions == RemoveById(old(store.transactions), TransactionId, id)
    ensures !confirmed ==> store.transactions == old(store.transactions)
    ensures store.categories == old(store.categories) && store.budgets == old(store.budgets)
    ensures store.goals == old(store.goals) && store.user == old(store.user)
    ensures old(store.Valid()) ==> store.Valid()
  {
    if confirmed {
      store.DeleteTransaction(id);
    }
  }
}
