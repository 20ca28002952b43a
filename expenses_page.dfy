/** The list logic of src/pages/Expenses.tsx: the search-and-category filter
    and the newest-first order the page shows the filtered expenses in. */
module ExpensesPage {
  import opened Types
  import opened Collections
  import opened Sorting
  import opened Text

  /** `'all'` accepts every category; any other value only that exact string. */
  predicate MatchesCategory(e: Expense, categoryFilter: string) {
    categoryFilter == "all" || e.category == categoryFilter
  }

  predicate Kept(e: Expense, search: string, categoryFilter: string) {
    MatchesSearch(e.name, search) && MatchesCategory(e, categoryFilter)
  }

  /** `filteredExpenses`: the expenses the search and the category filter both
      accept, in their stored order and with their multiplicities. */
  function FilteredExpenses(expenses: seq<Expense>, search: string, categoryFilter: string): (r: seq<Expense>)
    ensures IsSubsequence(r, expenses)
    ensures forall e :: multiset(r)[e] == if Kept(e, search, categoryFilter) then multiset(expenses)[e] else 0
    ensures forall e :: e in r <==> e in expenses && Kept(e, search, categoryFilter)
  {
    Filter(expenses, e => Kept(e, search, categoryFilter))
  }

  /** With the filter `'all'` only the search decides, and the empty search
      keeps the expenses exactly as stored. */
  lemma AllCategories(expenses: seq<Expense>, search: string)
    ensures forall e :: e in FilteredExpenses(expenses, search, "all") <==> e in expenses && MatchesSearch(e.name, search)
    ensures FilteredExpenses(expenses, [], "all") == expenses
  {
    var r := FilteredExpenses(expenses, [], "all");
    forall e ensures multiset(r)[e] == multiset(expenses)[e] {
      SearchBasics(e.name);
    }
    assert multiset(r) == multiset(expenses);
    SubsequenceOfSameMultiset(r, expenses);
  }

  /** Any other filter value keeps exactly the expenses filed under that
      string whose name matches the search. */
  lemma OneCategory(expenses: seq<Expense>, search: string, categoryFilter: string)
    requires categoryFilter != "all"
    ensures forall e :: e in FilteredExpenses(expenses, search, categoryFilter) ==> e.category == categoryFilter
    ensures forall e :: e in expenses && e.category == categoryFilter && MatchesSearch(e.name, search) ==>
      e in FilteredExpenses(expenses, search, categoryFilter)
  {
  }

  /** The comparator `new Date(b.date).getTime() - new Date(a.date).getTime()`. */
  function CompareExpenses(a: Expense, b: Expense): int {
    b.date - a.date
  }

  predicate ExpenseBefore(a: Expense, b: Expense) {
    CompareExpenses(a, b) <= 0
  }

  lemma ExpenseBeforeIsTotalPreorder()
    ensures TotalPreorder(ExpenseBefore)
  {
  }

  /** The filtered expenses after the stable `.sort`: the same expenses,
      newest first. */
  function SortedExpenses(expenses: seq<Expense>): (r: seq<Expense>)
    ensures multiset(r) == multiset(expenses)
    ensures forall i, j :: 0 <= i < j < |r| ==> r[i].date >= r[j].date
  {
    ExpenseBeforeIsTotalPreorder();
    InsertionSortSorts(expenses, ExpenseBefore);
    InsertionSort(expenses, ExpenseBefore)
  }

  /** Expenses dated the same instant keep the order they had. */
  lemma SortedExpensesStable(expenses: seq<Expense>, date: Date)
    ensures Filter(SortedExpenses(expenses), (e: Expense) => e.date == date) ==
            Filter(expenses, (e: Expense) => e.date == date)
  {
    InsertionSortStable(expenses, ExpenseBefore, (e: Expense) => e.date == date);
  }
}
