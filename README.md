# Calculadora de contas — a verified model of the store and the list pages

This project models the core of the "calculadora de contas" personal-finance app:

- the state store of `src/lib/store.ts`;
- the records and the default categories of `src/lib/types.ts`;
- the filtering and ordering logic of the accounts page (`src/pages/Accounts.tsx`);
- the filtering and ordering logic of the expenses page (`src/pages/Expenses.tsx`).

The store holds three ordered collections:

- accounts: recurring bills with a due date and a paid flag;
- expenses: one-time spendings;
- categories: a name and a display colour, seeded with seven defaults.

Each action replaces exactly one of these collections. The store also computes three things:

- the totals of the accounts;
- the total of the expenses;
- the per-category breakdown of the expenses, which is what drives the pie chart.

Modules:

- `Types` (`types.dfy`):
  - the records;
  - the "draft" types that an add action receives;
  - the partial records that an update action receives;
  - `DefaultCategories`.
- `Collections` (`collections.dfy`): the sequence operations the store builds its new collections with. `Replace` is `map` by id, `Filter`/`WithoutId` are `filter`, and `Sum` is `reduce`. It also has their algebra.
- `Sorting` (`sorting.dfy`): `Array.prototype.sort`, modelled as a stable insertion sort over "comparator ≤ 0". It proves that the result is sorted and a permutation, and that equal elements keep their relative order.
- `Text` (`text.dfy`): `toLowerCase` restricted to ASCII, `includes`, and the search rule shared by both pages.
- `Aggregation` (`aggregation.dfy`):
  - `getTotalAccounts` and `getTotalExpenses`;
  - the grouping, colour lookup, percentage rounding and ordering of `getExpensesByCategory`;
  - the as-written dictionary behaviour (see Findings).
- `Store` (`store.dfy`):
  - the class `AppStore`, with one field per collection and one method per action;
  - the imperative `forEach` of `getExpensesByCategory` as the loop `GroupByCategory`, proved equal to the specification function `Aggregation.Grouped` (the corrected grouping of Findings).
- `AccountsPage` and `ExpensesPage` (`accounts_page.dfy`, `expenses_page.dfy`): the page filters and the sorted views.

Representation choices:

- Money is an integer number of cents.
- An instant is an integer number of milliseconds, the value of `Date.getTime()`.
- `Math.round(amount / total * 100)` is computed exactly on integers, as `floor((200·amount + total) / (2·total))`.
- The id that `nanoid()` would generate and the instant that `new Date()` would produce are parameters of the add methods. The id must not already be used in its collection.

## Model

| member | source | states |
|---|---|---|
| Types.AccountDraft.Stamp | src/lib/store.ts:46 | the new account carries the given id and creation instant, and every other field is the draft's |
| Types.ExpenseDraft.Stamp | src/lib/store.ts:71 | the new expense carries the given id and creation instant, and every other field is the draft's |
| Types.CategoryDraft.Stamp | src/lib/store.ts:88 | the new category carries the given id, and its name and colour are the draft's |
| Types.AccountPatchSemantics | src/lib/store.ts:52 | `{ ...account, ...patch }`: each supplied field takes the patch's value and each unsupplied field keeps the account's. The empty patch is the identity, and applying a patch twice equals applying it once |
| Types.ExpensePatchSemantics | src/lib/store.ts:77 | the same field-by-field merge law for expenses |
| Types.CategoryPatchSemantics | src/lib/store.ts:93 | the same field-by-field merge law for categories |
| Types.AccountPatch.Apply | src/lib/store.ts:52 | the spread `{ ...account, ...patch }`; its field-by-field law is `Types.AccountPatchSemantics` |
| Types.ExpensePatch.Apply | src/lib/store.ts:77 | the spread `{ ...expense, ...patch }`; its law is `Types.ExpensePatchSemantics` |
| Types.CategoryPatch.Apply | src/lib/store.ts:93 | the spread `{ ...category, ...patch }`; its law is `Types.CategoryPatchSemantics` |
| Types.DefaultCategoriesLayout | src/lib/types.ts:27-35 | exactly seven seed categories with ids "1" to "7" in order. The first is ("1", "Alimentação", "#FF6B6B"), which the add forms start from, and the last is ("7", "Outros", "#607D8B") |
| Types.DefaultCategoriesDistinct | src/lib/types.ts:27-35 | seed ids are pairwise distinct, and so are seed names |
| Collections.Replace | src/lib/store.ts:51-53 | same length; each element with the id is replaced by `f` of itself, and every other element is kept in place |
| Collections.Filter | src/lib/store.ts:57 | the result is an order-preserving subsequence; an element occurs exactly when it is kept, and then as often as in the input |
| Collections.WithoutId | src/lib/store.ts:57 | the result is an order-preserving subsequence with no element carrying the id, and every other element is kept with its multiplicity |
| Collections.WithoutIdIdempotent | src/lib/store.ts:55-58 | deleting twice equals deleting once (the same lemma serves lines 80-83 and 96-99) |
| Collections.WithoutAbsentId | src/lib/store.ts:55-58 | deleting an id no record has changes nothing |
| Collections.ReplaceNoop | src/lib/store.ts:49-54 | an update at an absent id, or with a function that changes nothing, leaves the collection as it was |
| Collections.ReplaceInvolution | src/lib/store.ts:59-64 | replacing twice with an id-preserving involution restores the collection |
| Collections.ReplaceIdempotent | src/lib/store.ts:49-54 | replacing twice with an idempotent function equals replacing once |
| Collections.AppendFreshKeepsDistinct | src/lib/store.ts:44-47 | appending a record whose id is new keeps ids distinct |
| Collections.SubsequenceKeepsDistinct | src/lib/store.ts:57 | a filtered collection keeps distinct ids |
| Collections.ReplaceKeepsDistinct | src/lib/store.ts:51-53 | a map-by-id keeps ids distinct when the replaced id is kept or the new id is not in use |
| Collections.SubsequenceOfSameMultiset | src/pages/Accounts.tsx:20-28 | a subsequence with the same elements and multiplicities is the sequence itself (this is why a filter that keeps everything is the identity) |
| Collections.SumConcat | src/lib/store.ts:104 | the `reduce` sum of a concatenation is the sum of the parts |
| Collections.SumPermutation | src/lib/store.ts:138 | a sum does not depend on the order of its terms, so sorting keeps the total |
| Collections.SumNonNegative | src/lib/store.ts:104 | a sum of non-negative terms is non-negative |
| Sorting.Insert | src/lib/store.ts:138 | inserting adds exactly one occurrence of the element |
| Sorting.InsertionSort | src/lib/store.ts:138 | sorting is a permutation of its input |
| Sorting.InsertKeepsSorted | src/lib/store.ts:138 | inserting into a sorted sequence under a total preorder keeps it sorted |
| Sorting.InsertionSortSorts | src/lib/store.ts:138 | under a consistent comparator (a total preorder), the result is sorted |
| Sorting.InsertionSortStable | src/pages/Accounts.tsx:98-105 | the sort is stable: elements the comparator considers equal keep their relative order |
| Text.Lower | src/pages/Accounts.tsx:21 | `toLowerCase` keeps the length and maps every character A-Z to a-z, leaving every other character alone |
| Text.LowerIdempotent | src/pages/Accounts.tsx:21 | lower-casing twice equals lower-casing once |
| Text.IncludesIsOccurrence | src/pages/Accounts.tsx:21 | `includes` holds exactly when the part occurs at some position, and the empty part is always included |
| Text.SearchBasics | src/pages/Expenses.tsx:21 | the empty search matches every name, and every name matches itself |
| Text.MatchesSearch | src/pages/Accounts.tsx:21 | `name.toLowerCase().includes(search.toLowerCase())`, the search rule of both pages (also src/pages/Expenses.tsx:21); characterized by `Text.IncludesIsOccurrence` and `Text.SearchBasics` |
| Aggregation.AccountTotals | src/lib/store.ts:102-109 | total == paid + pending; paid is the sum over paid accounts and pending the sum over unpaid accounts |
| Aggregation.PaidPendingSplit | src/lib/store.ts:104-108 | the sum over all accounts is the paid sum plus the unpaid sum |
| Aggregation.PaidWithinTotal | src/lib/store.ts:102-109 | with no negative amount, 0 ≤ paid ≤ total and 0 ≤ pending ≤ total |
| Aggregation.ExpensesTotalAppend | src/lib/store.ts:110-112 | adding an expense raises `getTotalExpenses` by its amount |
| Aggregation.ExpensesTotal | src/lib/store.ts:110-112 | `getTotalExpenses`: 0 for no expenses and never negative when no amount is; `ExpensesTotalAppend` gives its step and `GroupedIsCategoryBreakdown` equates it with the sum of the breakdown |
| Aggregation.AddToExistingGroup | src/lib/store.ts:126 | an expense whose category already has an entry adds its amount to that entry only |
| Aggregation.AddToNewGroup | src/lib/store.ts:123-126 | an expense with a new category appends one entry holding its amount |
| Aggregation.AddToGroups | src/lib/store.ts:123-126 | one turn of the `forEach` body with an own-key test; characterized by `AddToExistingGroup`, `AddToNewGroup` and `AddToGroupsFacts` |
| Aggregation.Grouped | src/lib/store.ts:119-130 | the corrected grouping, entries in first-appearance order; characterized against `CategoryTotal` and `ExpensesTotal` by `GroupedIsCategoryBreakdown` |
| Aggregation.UnusedCategoryTotal | src/lib/store.ts:122-127 | a category no expense uses totals 0 |
| Aggregation.AddToGroupsFacts | src/lib/store.ts:122-127 | one turn keeps the categories distinct, adds the missing category, adds the amount to exactly that entry, and raises the overall sum by the amount |
| Aggregation.GroupedIsCategoryBreakdown | src/lib/store.ts:119-130 | one entry per distinct category string, each holding that category's total; the entries sum to `getTotalExpenses`; no expenses give no entries |
| Aggregation.CategoryTotalBounds | src/lib/store.ts:117-127 | with no negative amount, each category total lies in 0 .. total |
| Aggregation.FindCategory | src/lib/store.ts:131 | `find` by name: None is returned exactly when no category has the name, otherwise the first category with it |
| Aggregation.ColorOf | src/lib/store.ts:131-135 | the colour is never empty. It is the first same-named category's colour, and "#607D8B" when there is no such category or its colour is "" |
| Aggregation.FloorDiv | src/lib/store.ts:136 | rounding-down division for either sign of the divisor |
| Aggregation.RoundedPercentage | src/lib/store.ts:136 | 0 for a zero total. Otherwise `p` satisfies `p ≤ amount/total·100 + 1/2 < p + 1`, which is `Math.round` of the percentage |
| Aggregation.PercentageBounds | src/lib/store.ts:136 | for 0 ≤ amount ≤ total the percentage is in 0..100; the whole is 100 and nothing is 0 |
| Aggregation.Statistics | src/lib/store.ts:130-137 | one statistic per entry, in entry order, with the entry's category and amount, `ColorOf` and `RoundedPercentage` |
| Aggregation.AmountDescIsTotalPreorder | src/lib/store.ts:138 | `b.amount - a.amount` is a consistent comparator |
| Aggregation.StatisticsSum | src/lib/store.ts:130-137 | the statistics sum to the entries' sum |
| Aggregation.StatisticMembers | src/lib/store.ts:130-138 | every sorted statistic holds its category's total, colour and percentage |
| Aggregation.StatisticCategories | src/lib/store.ts:130-138 | a category appears among the statistics exactly when some expense uses it |
| Aggregation.StatisticsDistinct | src/lib/store.ts:130-138 | no category appears twice among the statistics |
| Aggregation.ByCategoryFacts | src/lib/store.ts:113-139 | every amount-sorted permutation of the statistics has these properties: amounts non-increasing; categories distinct, each used by some expense and each used one present; each amount, colour and percentage as defined; percentages in 0..100 when no amount is negative; the amounts sum to `getTotalExpenses`; empty exactly when there are no expenses |
| Aggregation.InheritedCategoryIsLost | src/lib/store.ts:119-127 | as written, a 5000-cent expense under "toString" gives no entry; the breakdown sums to 0, not to the total of 5000 |
| Aggregation.GroupedAsWrittenElsewhereAgrees | src/lib/store.ts:119-127 | for category names that are not inherited property names, the as-written grouping equals the corrected one |
| Aggregation.GroupedAsWritten | src/lib/store.ts:119-127 | the `forEach` on a plain object, where the guard is false for inherited property names; characterized by `GroupedAsWrittenSkipsInherited` |
| Aggregation.GroupedAsWrittenSkipsInherited | src/lib/store.ts:119-127 | as written, the grouping equals the corrected grouping of only the expenses whose category is not an inherited property name |
| Aggregation.DanglingNameLooksLikeOutros | src/lib/types.ts:34 | with the seed categories, a name no category carries gets "#607D8B", the same colour as "Outros" |
| Aggregation.SeedColors | src/lib/types.ts:28-29 | "Alimentação" gets "#FF6B6B" and "Transporte" gets "#4ECDC4" |
| Aggregation.LunchAndBusGrouped | src/lib/store.ts:119-127 | 2000 cents under "Alimentação" followed by 1000 under "Transporte" group into these two entries in that order, with a total of 3000 |
| Aggregation.LunchAndBusBreakdown | src/lib/store.ts:113-139 | that scenario's breakdown is Alimentação 2000 #FF6B6B 67 %, then Transporte 1000 #4ECDC4 33 % |
| Store.UpdatedAccounts | src/lib/store.ts:49-54 | same length and order; every account with the id has the patch merged in and every other account is unchanged; an absent id or an empty patch is a no-op |
| Store.UpdatedExpenses | src/lib/store.ts:74-79 | the same for expenses |
| Store.UpdatedCategories | src/lib/store.ts:90-95 | the same for categories |
| Store.ToggledAccounts | src/lib/store.ts:59-64 | only the `paid` flag of accounts with the id flips, and no other field or account changes; an absent id is a no-op |
| Store.WithPaidToggled | src/lib/store.ts:62 | `{ ...account, paid: !account.paid }`; characterized by `ToggledAccounts` and `ToggleTwiceRestores` |
| Store.ToggleTwiceRestores | src/lib/store.ts:59-64 | toggling twice restores the accounts |
| Store.UpdateTwiceIsUpdateOnce | src/lib/store.ts:49-54 | updating twice with the same patch equals updating once |
| Store.AppStore.constructor | src/lib/store.ts:37-39 | the initial state has no accounts, no expenses and the default categories, and ids are distinct |
| Store.AppStore.AddAccount | src/lib/store.ts:42-48 | appends exactly the stamped record at the end; expenses and categories are unchanged; id uniqueness is kept |
| Store.AppStore.UpdateAccount | src/lib/store.ts:49-54 | accounts become `UpdatedAccounts`, and the other collections are unchanged. Id uniqueness is kept unless the patch sets an id already in use |
| Store.AppStore.DeleteAccount | src/lib/store.ts:55-58 | accounts become `WithoutId`, and the others are unchanged; id uniqueness is kept |
| Store.AppStore.ToggleAccountPaid | src/lib/store.ts:59-64 | accounts become `ToggledAccounts`, and the others are unchanged; id uniqueness is kept |
| Store.AppStore.AddExpense | src/lib/store.ts:67-73 | appends exactly the stamped record at the end; accounts and categories are unchanged; id uniqueness is kept |
| Store.AppStore.UpdateExpense | src/lib/store.ts:74-79 | expenses become `UpdatedExpenses`, and the other collections are unchanged. Id uniqueness is kept unless the patch sets an id already in use |
| Store.AppStore.DeleteExpense | src/lib/store.ts:80-83 | expenses become `WithoutId`, and the others are unchanged; id uniqueness is kept |
| Store.AppStore.AddCategory | src/lib/store.ts:86-89 | appends exactly the stamped category at the end; accounts and expenses are unchanged; id uniqueness is kept |
| Store.AppStore.UpdateCategory | src/lib/store.ts:90-95 | categories become `UpdatedCategories`, and the other collections are unchanged. Id uniqueness is kept unless the patch sets an id already in use |
| Store.AppStore.DeleteCategory | src/lib/store.ts:96-99 | categories become `WithoutId`, and the others are unchanged; id uniqueness is kept |
| Store.AppStore.TotalAccounts | src/lib/store.ts:102-109 | `getTotalAccounts` of the current accounts |
| Store.AppStore.ExpensesByCategory | src/lib/store.ts:113-139 | the result is a permutation of the statistics of the grouping and carries every `ByCategoryFacts` property |
| Store.MirrorsNewKey | src/lib/store.ts:123-126 | adding a missing key to the dictionary and its key order mirrors appending a new entry |
| Store.MirrorsExistingKey | src/lib/store.ts:126 | adding to an existing key mirrors adding to that entry |
| Store.GroupByCategory | src/lib/store.ts:119-130 | the `forEach` into a dictionary with an own-key test, followed by `Object.values` in key-insertion order, yields exactly `Grouped(expenses)`, the corrected grouping; for inherited property names the source differs (see Left out) |
| Store.EmptyStoreTotals | src/lib/store.ts:37-39 | a fresh store has zero totals and an empty breakdown |
| AccountsPage.FilteredAccounts | src/pages/Accounts.tsx:20-28 | an order-preserving subsequence of the accounts; an account is present exactly when it matches both the search and the tab, and then as often as stored |
| AccountsPage.MatchesTab | src/pages/Accounts.tsx:22-25 | the tab rule; characterized by `AllTab`, `StatusTabs` and `UnknownTab` |
| AccountsPage.AllTab | src/pages/Accounts.tsx:21-23 | with tab "all" only the search decides; an empty search keeps the accounts exactly |
| AccountsPage.StatusTabs | src/pages/Accounts.tsx:22-25 | "pending" shows exactly the unpaid matching accounts and "paid" exactly the paid ones |
| AccountsPage.UnknownTab | src/pages/Accounts.tsx:22-25 | any other tab value shows nothing |
| AccountsPage.AccountBeforeIsTotalPreorder | src/pages/Accounts.tsx:98-105 | the page's comparator is consistent |
| AccountsPage.CompareAccounts | src/pages/Accounts.tsx:98-105 | the page comparator; `AccountBeforeIsTotalPreorder` shows it is consistent, and `SortedAccounts` and `SortedAccountsStable` give the order it produces |
| AccountsPage.SortedAccounts | src/pages/Accounts.tsx:98-105 | a permutation of the filtered list in which no paid account precedes an unpaid one and unpaid accounts are ordered by due date, non-decreasing |
| AccountsPage.SortedAccountsStable | src/pages/Accounts.tsx:103-104 | paid accounts keep their filtered order, and so do unpaid accounts with the same due date |
| ExpensesPage.FilteredExpenses | src/pages/Expenses.tsx:20-25 | an order-preserving subsequence of the expenses; an expense is present exactly when it matches both the search and the category filter, and then as often as stored |
| ExpensesPage.MatchesCategory | src/pages/Expenses.tsx:22 | the category rule; characterized by `AllCategories` and `OneCategory` |
| ExpensesPage.AllCategories | src/pages/Expenses.tsx:21-22 | with filter "all" only the search decides; an empty search keeps the expenses exactly |
| ExpensesPage.OneCategory | src/pages/Expenses.tsx:22-24 | with any other filter, every shown expense has exactly that category, and every matching expense with that category is shown |
| ExpensesPage.ExpenseBeforeIsTotalPreorder | src/pages/Expenses.tsx:101 | the date comparator is consistent |
| ExpensesPage.CompareExpenses | src/pages/Expenses.tsx:101 | the date comparator; `ExpenseBeforeIsTotalPreorder` shows it is consistent, and `SortedExpenses` and `SortedExpensesStable` give the order it produces |
| ExpensesPage.SortedExpenses | src/pages/Expenses.tsx:100-101 | a permutation of the filtered list, ordered by date, newest first |
| ExpensesPage.SortedExpensesStable | src/pages/Expenses.tsx:100-101 | expenses with the same date keep their filtered order |

## Left out

- Persistence: the `persist` middleware and localStorage (src/lib/store.ts:34-35, 141-143) are storage plumbing outside the logic. Every action's new state is given exactly, and that state is what would be saved.
- Id generation and clocks: `nanoid()` and `new Date()` are foreign calls. The values they would produce are parameters of the add methods, and the precondition requires the id to be fresh. Whether a random id really is fresh is not modelled.
- Store.AppStore.AddAccount: it returns nothing, because the action is declared `=> void` (src/lib/store.ts:13). Returning the new record is a plausible design, but the code does not do it. The same holds for AddExpense and AddCategory.
- Floating point: amounts are exact integer cents, and the percentage is the exact rounding of the rational percentage. IEEE-754 effects of `amount / total * 100` are not modelled, and neither are NaN or infinite amounts. The `parseFloat` input parsing of the forms is not modelled.
- Dates: `dueDate` and `date` are instants in milliseconds, the value of `new Date(x).getTime()`. Date parsing and invalid dates are not modelled.
- Text.Lower: covers ASCII letters only. Unicode case mapping (for example "Ç" to "ç") is not modelled.
- Types.AccountPatch: a field present with the value `undefined` in a JavaScript partial object would overwrite the field with `undefined` when spread. The model treats a partial field as either absent or a real value.
- Store.AppStore.ExpensesByCategory: equal-amount statistics are allowed in any order, so the result is only pinned down up to ties. JavaScript's `Object.values` lists integer-like keys first, which the model does not track.
- AccountsPage.SortedAccounts: a comment in the page says paid accounts are sorted "by most recently paid". The comparator returns 0 for two paid accounts, so they keep their filtered order (proved in `SortedAccountsStable`). The model follows the comparator.
- The rendering and chart layer is not modelled: React components, forms, dialogs, toasts, the daily-totals chart of the analysis page, `isOverdue` with its clock and the two-click delete of the account card, breakpoint detection, navigation and service-worker registration. These are UI and clock-dependent code outside the core.
- Store.AppStore.AddAccount: the append-at-end order it proves does not survive a dashboard render. The "recent accounts" list of the home page (src/pages/Index.tsx:120-121) calls `accounts.sort(...)` by `createdAt`, newest first, on the store's own array. That reorders the stored accounts in place, outside `set`. The model has no aliasing between the page and the store, so it does not capture this reordering.
- Store.AppStore.ExpensesByCategory: this method and `GroupByCategory` model the own-key test of the corrected grouping (`Aggregation.Grouped`). For an expense whose category is in `Aggregation.InheritedKeys` ("toString", "constructor", "__proto__", ...) the source drops the expense instead. The source then returns the statistics of `Aggregation.GroupedAsWritten`, which `GroupedAsWrittenSkipsInherited` characterizes; see Findings.

## Findings

| source | as written | input that shows it | evidently intended | confidence | as-written member | corrected member |
|---|---|---|---|---|---|---|
| src/lib/store.ts:119-127 | `statsByCategory` is a plain object literal, so `!statsByCategory[k]` is already false for inherited names such as "toString", "constructor" or "__proto__". No own entry is created, the amount is added to the inherited member, and `Object.values` never lists it | one expense of 5000 cents whose category is "toString" | one entry per category string, the entries summing to `getTotalExpenses` (a dictionary without a prototype, or an own-key test) | low, not executed (no page calls `addCategory` or `updateCategory`; the forms offer only existing names) | Aggregation.InheritedCategoryIsLost | Aggregation.GroupedIsCategoryBreakdown |
