/** The state container of src/lib/store.ts: three ordered collections, the
    actions that replace one of them each, and `getExpensesByCategory`.

    `nanoid()` and `new Date()` are not modelled: an add action receives the new
    id and the creation instant as arguments, and the id must not already be in
    use in its collection. The persistence middleware is not modelled. */
module Store {
  import opened Options
  import opened Types
  import opened Collections
  import opened Sorting
  import opened Aggregation

  // ----- the new collections the actions build -----

  /** `accounts.map(a => a.id === id ? { ...a, ...patch } : a)`, and so on for
      the other two kinds: matching records take the supplied fields, every
      other record and field stays, and an absent id or an empty patch changes
      nothing. */
  function UpdatedAccounts(accounts: seq<Account>, id: string, patch: AccountPatch): (r: seq<Account>)
    ensures |r| == |accounts|
    ensures forall i :: 0 <= i < |r| ==>
      r[i] == if accounts[i].id == id then patch.Apply(accounts[i]) else accounts[i]
    ensures !HasId(accounts, AccountId, id) || patch == NoAccountChange ==> r == accounts
  {
    Replace(accounts, AccountId, id, patch.Apply)
  }

  function UpdatedExpenses(expenses: seq<Expense>, id: string, patch: ExpensePatch): (r: seq<Expense>)
    ensures |r| == |expenses|
    ensures forall i :: 0 <= i < |r| ==>
      r[i] == if expenses[i].id == id then patch.Apply(expenses[i]) else expenses[i]
    ensures !HasId(expenses, ExpenseId, id) || patch == NoExpenseChange ==> r == expenses
  {
    Replace(expenses, ExpenseId, id, patch.Apply)
  }

  function UpdatedCategories(categories: seq<Category>, id: string, patch: CategoryPatch): (r: seq<Category>)
    ensures |r| == |categories|
    ensures forall i :: 0 <= i < |r| ==>
      r[i] == if categories[i].id == id then patch.Apply(categories[i]) else categories[i]
    ensures !HasId(categories, CategoryId, id) || patch == NoCategoryChange ==> r == categories
  {
    Replace(categories, CategoryId, id, patch.Apply)
  }

  /** `{ ...account, paid: !account.paid }` */
  function WithPaidToggled(a: Account): Account {
    a.(paid := !a.paid)
  }

  /** `accounts.map(a => a.id === id ? { ...a, paid: !a.paid } : a)`: only the
      `paid` flag of the matching accounts flips. */
  function ToggledAccounts(accounts: seq<Account>, id: string): (r: seq<Account>)
    ensures |r| == |accounts|
    ensures forall i :: 0 <= i < |r| ==>
      r[i].paid == (if accounts[i].id == id then !accounts[i].paid else accounts[i].paid) &&
      r[i] == accounts[i].(paid := r[i].paid)
    ensures !HasId(accounts, AccountId, id) ==> r == accounts
  {
    Replace(accounts, AccountId, id, WithPaidToggled)
  }

  /** Toggling twice restores the accounts. */
  lemma ToggleTwiceRestores(accounts: seq<Account>, id: string)
    ensures ToggledAccounts(ToggledAccounts(accounts, id), id) == accounts
  {
    ReplaceInvolution(accounts, AccountId, id, WithPaidToggled);
  }

  /** Updating twice with the same patch is updating once. */
  lemma UpdateTwiceIsUpdateOnce(accounts: seq<Account>, id: string, patch: AccountPatch)
    ensures UpdatedAccounts(UpdatedAccounts(accounts, id, patch), id, patch) == UpdatedAccounts(accounts, id, patch)
  {
    forall a ensures patch.Apply(patch.Apply(a)) == patch.Apply(a) {
      AccountPatchSemantics(patch, a);
    }
    ReplaceIdempotent(accounts, AccountId, id, patch.Apply);
  }

  /** A patch keeps a collection's ids distinct when it sets no id, or the id
      it sets is the one being updated or is not in use. */
  predicate KeepsIdsDistinct<T(==)>(s: seq<T>, idOf: T -> string, id: string, newId: Option<string>) {
    newId.None? || newId == Some(id) || !HasId(s, idOf, newId.value)
  }

  // ----- the store -----

  class AppStore {
    var accounts: seq<Account>
    var expenses: seq<Expense>
    var categories: seq<Category>

    /** Ids are unique within each collection. */
    predicate Valid()
      reads this
    {
      DistinctIds(accounts, AccountId) &&
      DistinctIds(expenses, ExpenseId) &&
      DistinctIds(categories, CategoryId)
    }

    /** The state with nothing persisted: no accounts, no expenses and the
        default categories. */
    constructor ()
      ensures accounts == [] && expenses == [] && categories == DefaultCategories
      ensures Valid()
    {
      accounts := [];
      expenses := [];
      categories := DefaultCategories;
      DefaultCategoriesDistinct();
    }

    method AddAccount(account: AccountDraft, id: string, createdAt: Date)
      requires !HasId(accounts, AccountId, id)
      modifies this
      ensures accounts == old(accounts) + [account.Stamp(id, createdAt)]
      ensures expenses == old(expenses) && categories == old(categories)
      ensures old(Valid()) ==> Valid()
    {
      if Valid() {
        AppendFreshKeepsDistinct(accounts, AccountId, account.Stamp(id, createdAt));
      }
      accounts := accounts + [account.Stamp(id, createdAt)];
    }

    method UpdateAccount(id: string, patch: AccountPatch)
      modifies this
      ensures accounts == UpdatedAccounts(old(accounts), id, patch)
      ensures expenses == old(expenses) && categories == old(categories)
      ensures old(Valid()) && KeepsIdsDistinct(old(accounts), AccountId, id, patch.id) ==> Valid()
    {
      if Valid() && KeepsIdsDistinct(accounts, AccountId, id, patch.id) {
        ReplaceKeepsDistinct(accounts, AccountId, id, patch.Apply);
      }
      accounts := UpdatedAccounts(accounts, id, patch);
    }

    method DeleteAccount(id: string)
      modifies this
      ensures accounts == WithoutId(old(accounts), AccountId, id)
      ensures expenses == old(expenses) && categories == old(categories)
      ensures old(Valid()) ==> Valid()
    {
      if Valid() {
        SubsequenceKeepsDistinct(WithoutId(accounts, AccountId, id), accounts, AccountId);
      }
      accounts := WithoutId(accounts, AccountId, id);
    }

    method ToggleAccountPaid(id: string)
      modifies this
      ensures accounts == ToggledAccounts(old(accounts), id)
      ensures expenses == old(expenses) && categories == old(categories)
      ensures old(Valid()) ==> Valid()
    {
      if Valid() {
        ReplaceKeepsDistinct(accounts, AccountId, id, WithPaidToggled);
      }
      accounts := ToggledAccounts(accounts, id);
    }

    method AddExpense(expense: ExpenseDraft, id: string, createdAt: Date)
      requires !HasId(expenses, ExpenseId, id)
      modifies this
      ensures expenses == old(expenses) + [expense.Stamp(id, createdAt)]
      ensures accounts == old(accounts) && categories == old(categories)
      ensures old(Valid()) ==> Valid()
    {
      if Valid() {
        AppendFreshKeepsDistinct(expenses, ExpenseId, expense.Stamp(id, createdAt));
      }
      expenses := expenses + [expense.Stamp(id, createdAt)];
    }

    method UpdateExpense(id: string, patch: ExpensePatch)
      modifies this
      ensures expenses == UpdatedExpenses(old(expenses), id, patch)
      ensures accounts == old(accounts) && categories == old(categories)
      ensures old(Valid()) && KeepsIdsDistinct(old(expenses), ExpenseId, id, patch.id) ==> Valid()
    {
      if Valid() && KeepsIdsDistinct(expenses, ExpenseId, id, patch.id) {
        ReplaceKeepsDistinct(expenses, ExpenseId, id, patch.Apply);
      }
      expenses := UpdatedExpenses(expenses, id, patch);
    }

    method DeleteExpense(id: string)
      modifies this
      ensures expenses == WithoutId(old(expenses), ExpenseId, id)
      ensures accounts == old(accounts) && categories == old(categories)
      ensures old(Valid()) ==> Valid()
    {
      if Valid() {
        SubsequenceKeepsDistinct(WithoutId(expenses, ExpenseId, id), expenses, ExpenseId);
      }
      expenses := WithoutId(expenses, ExpenseId, id);
    }

    method AddCategory(category: CategoryDraft, id: string)
      requires !HasId(categories, CategoryId, id)
      modifies this
      ensures categories == old(categories) + [category.Stamp(id)]
      ensures accounts == old(accounts) && expenses == old(expenses)
      ensures old(Valid()) ==> Valid()
    {
      if Valid() {
        AppendFreshKeepsDistinct(categories, CategoryId, category.Stamp(id));
      }
      categories := categories + [category.Stamp(id)];
    }

    method UpdateCategory(id: string, patch: CategoryPatch)
      modifies this
      ensures categories == UpdatedCategories(old(categories), id, patch)
      ensures accounts == old(accounts) && expenses == old(expenses)
      ensures old(Valid()) && KeepsIdsDistinct(old(categories), CategoryId, id, patch.id) ==> Valid()
    {
      if Valid() && KeepsIdsDistinct(categories, CategoryId, id, patch.id) {
        ReplaceKeepsDistinct(categories, CategoryId, id, patch.Apply);
      }
      categories := UpdatedCategories(categories, id, patch);
    }

    method DeleteCategory(id: string)
      modifies this
      ensures categories == WithoutId(old(categories), CategoryId, id)
      ensures accounts == old(accounts) && expenses == old(expenses)
      ensures old(Valid()) ==> Valid()
    {
      if Valid() {
        SubsequenceKeepsDistinct(WithoutId(categories, CategoryId, id), categories, CategoryId);
      }
      categories := WithoutId(categories, CategoryId, id);
    }

    /** `getTotalAccounts` on the current accounts. */
    function TotalAccounts(): (t: Totals)
      reads this
      ensures t == AccountTotals(accounts)
    {
      AccountTotals(accounts)
    }

    /** `getExpensesByCategory`: sums the expenses into a dictionary keyed by
        the raw category string, turns each entry into a statistic with its
        colour and rounded percentage, and sorts by amount, larger first. */
    method ExpensesByCategory() returns (stats: seq<CategoryStatistic>)
      ensures multiset(stats) == multiset(Statistics(Grouped(expenses), categories, ExpensesTotal(expenses)))
      ensures forall i, j :: 0 <= i < j < |stats| ==> stats[i].amount >= stats[j].amount
      ensures forall i, j :: 0 <= i < j < |stats| ==> stats[i].category != stats[j].category
      ensures forall c :: (exists i :: 0 <= i < |stats| && stats[i].category == c) <==> UsesCategory(expenses, c)
      ensures forall s :: s in stats ==>
        s.amount == CategoryTotal(expenses, s.category) &&
        s.color == ColorOf(categories, s.category) &&
        s.percentage == RoundedPercentage(s.amount, ExpensesTotal(expenses))
      ensures AmountsNonNegative(expenses) ==> forall s :: s in stats ==> 0 <= s.percentage <= 100
      ensures Sum(stats, StatisticAmount) == ExpensesTotal(expenses)
      ensures stats == [] <==> expenses == []
    {
      var totalAmount := ExpensesTotal(expenses);
      var values := GroupByCategory(expenses);
      var unsorted := Statistics(values, categories, totalAmount);
      stats := InsertionSort(unsorted, AmountDesc);
      AmountDescIsTotalPreorder();
      InsertionSortSorts(unsorted, AmountDesc);
      ByCategoryFacts(expenses, categories, stats);
    }
  }

  /** The dictionary `statsByCategory` together with the order its keys were
      added holds exactly the groups `gs`. */
  ghost predicate Mirrors(m: map<string, Group>, keys: seq<string>, gs: seq<Group>) {
    |keys| == |gs| && DistinctCategories(gs) &&
    (forall k :: 0 <= k < |keys| ==> keys[k] == gs[k].category && keys[k] in m && m[keys[k]] == gs[k]) &&
    (forall c :: c in m ==> c in keys)
  }

  lemma MirrorsNewKey(m: map<string, Group>, keys: seq<string>, gs: seq<Group>, e: Expense)
    requires Mirrors(m, keys, gs) && e.category !in m
    ensures Mirrors(m[e.category := Group(e.category, e.amount)], keys + [e.category], AddToGroups(gs, e))
  {
    assert !HasGroup(gs, e.category);
    AddToNewGroup(gs, e);
  }

  lemma MirrorsExistingKey(m: map<string, Group>, keys: seq<string>, gs: seq<Group>, e: Expense)
    requires Mirrors(m, keys, gs) && e.category in m
    ensures Mirrors(m[e.category := m[e.category].(amount := m[e.category].amount + e.amount)], keys, AddToGroups(gs, e))
  {
    var k :| 0 <= k < |keys| && keys[k] == e.category;
    AddToExistingGroup(gs, e, k);
  }

  /** The `forEach` of `getExpensesByCategory` followed by `Object.values`:
      one entry per category string, its amount the running sum, in the order
      the keys were first added. */
  method GroupByCategory(expenses: seq<Expense>) returns (values: seq<Group>)
    ensures values == Grouped(expenses)
  {
    var statsByCategory: map<string, Group> := map[];
    var keys: seq<string> := [];  // insertion order of the dictionary's keys
    var i := 0;
    while i < |expenses|
      invariant 0 <= i <= |expenses|
      invariant Mirrors(statsByCategory, keys, Grouped(expenses[..i]))
    {
      var expense := expenses[i];
      assert expenses[..i + 1][..i] == expenses[..i];
      if expense.category !in statsByCategory {
        MirrorsNewKey(statsByCategory, keys, Grouped(expenses[..i]), expense);
        statsByCategory := statsByCategory[expense.category := Group(expense.category, 0)];
        keys := keys + [expense.category];
      } else {
        MirrorsExistingKey(statsByCategory, keys, Grouped(expenses[..i]), expense);
      }
      var entry := statsByCategory[expense.category];
      statsByCategory := statsByCategory[expense.category := entry.(amount := entry.amount + expense.amount)];
      i := i + 1;
    }
    assert expenses[..i] == expenses;
    values := seq(|keys|, k requires 0 <= k < |keys| && keys[k] in statsByCategory => statsByCategory[keys[k]]);
  }

  /** A fresh store has zero account totals and an empty expense breakdown. */
  method EmptyStoreTotals() returns (t: Totals, s: seq<CategoryStatistic>)
    ensures t == Totals(0, 0, 0) && s == []
  {
    var store := new AppStore();
    t := store.TotalAccounts();
    s := store.ExpensesByCategory();
  }
}
