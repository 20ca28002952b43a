/** The list logic of src/pages/Accounts.tsx: the search-and-tab filter and
    the comparator the page sorts the filtered accounts with. */
module AccountsPage {
  import opened Types
  import opened Collections
  import opened Sorting
  import opened Text
  import Aggregation

  /** The tab rule: `'all'` keeps everything, `'pending'` the unpaid accounts,
      `'paid'` the paid ones, and any other value nothing. */
  predicate MatchesTab(a: Account, tab: string) {
    tab == "all" || (tab == "pending" && !a.paid) || (tab == "paid" && a.paid)
  }

  predicate Kept(a: Account, search: string, tab: string) {
    MatchesSearch(a.name, search) && MatchesTab(a, tab)
  }

  /** `filteredAccounts`: the accounts the search and the tab both accept, in
      their stored order and with their multiplicities. */
  function FilteredAccounts(accounts: seq<Account>, search: string, tab: string): (r: seq<Account>)
    ensures IsSubsequence(r, accounts)
    ensures forall a :: multiset(r)[a] == if Kept(a, search, tab) then multiset(accounts)[a] else 0
    ensures forall a :: a in r <==> a in accounts && Kept(a, search, tab)
  {
    Filter(accounts, a => Kept(a, search, tab))
  }

  /** With tab `'all'` only the search decides, and the empty search keeps
      the accounts exactly as stored. */
  lemma AllTab(accounts: seq<Account>, search: string)
    ensures forall a :: a in FilteredAccounts(accounts, search, "all") <==> a in accounts && MatchesSearch(a.name, search)
    ensures FilteredAccounts(accounts, [], "all") == accounts
  {
    var r := FilteredAccounts(accounts, [], "all");
    forall a ensures multiset(r)[a] == multiset(accounts)[a] {
      SearchBasics(a.name);
    }
    assert multiset(r) == multiset(accounts);
    SubsequenceOfSameMultiset(r, accounts);
  }

  /** The `'pending'` tab shows exactly the unpaid accounts that match the
      search, and the `'paid'` tab exactly the paid ones. */
  lemma StatusTabs(accounts: seq<Account>, search: string)
    ensures forall a :: a in FilteredAccounts(accounts, search, "pending") <==>
      a in accounts && !a.paid && MatchesSearch(a.name, search)
    ensures forall a :: a in FilteredAccounts(accounts, search, "paid") <==>
      a in accounts && a.paid && MatchesSearch(a.name, search)
  {
    assert "pending" != "all" && "paid" != "all" && "pending" != "paid";
  }

  /** Any other tab value shows nothing. */
  lemma UnknownTab(accounts: seq<Account>, search: string, tab: string)
    requires tab != "all" && tab != "pending" && tab != "paid"
    ensures FilteredAccounts(accounts, search, tab) == []
  {
  }

  /** The comparator of the page's `.sort`: two unpaid accounts by due date,
      otherwise unpaid before paid, and two paid accounts are equal. */
  function CompareAccounts(a: Account, b: Account): int {
    if !a.paid && !b.paid then a.dueDate - b.dueDate
    else if a.paid == b.paid then 0
    else if a.paid then 1
    else -1
  }

  /** `a` may stay before `b`: the comparator does not return a positive number. */
  predicate AccountBefore(a: Account, b: Account) {
    CompareAccounts(a, b) <= 0
  }

  /** The comparator is consistent, so any stable sort gives the same order. */
  lemma AccountBeforeIsTotalPreorder()
    ensures TotalPreorder(AccountBefore)
  {
  }

  /** The filtered accounts after the stable `.sort`: the same accounts, every
      unpaid account before every paid one, unpaid accounts by due date. */
  function SortedAccounts(accounts: seq<Account>): (r: seq<Account>)
    ensures multiset(r) == multiset(accounts)
    ensures forall i, j :: 0 <= i < j < |r| ==> !(r[i].paid && !r[j].paid)
    ensures forall i, j :: 0 <= i < j < |r| && !r[i].paid && !r[j].paid ==> r[i].dueDate <= r[j].dueDate
  {
    AccountBeforeIsTotalPreorder();
    InsertionSortSorts(accounts, AccountBefore);
    InsertionSort(accounts, AccountBefore)
  }

  /** The paid accounts keep the order they had, and so do unpaid accounts that
      fall due at the same instant. */
  lemma SortedAccountsStable(accounts: seq<Account>, due: Date)
    ensures Filter(SortedAccounts(accounts), Aggregation.IsPaid) == Filter(accounts, Aggregation.IsPaid)
    ensures Filter(SortedAccounts(accounts), (a: Account) => !a.paid && a.dueDate == due) ==
            Filter(accounts, (a: Account) => !a.paid && a.dueDate == due)
  {
    InsertionSortStable(accounts, AccountBefore, Aggregation.IsPaid);
    InsertionSortStable(accounts, AccountBefore, (a: Account) => !a.paid && a.dueDate == due);
  }
}
