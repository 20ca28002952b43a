/** The statistics the store derives on every read (src/lib/store.ts,
    `getTotalAccounts`, `getTotalExpenses`, `getExpensesByCategory`): the
    specification functions, and the lemmas that say what they mean. The
    imperative `getExpensesByCategory` itself is `Store.AppStore.ExpensesByCategory`. */
module Aggregation {
  import opened Options
  import opened Types
  import opened Collections
  import opened Sorting

  function AccountAmount(a: Account): int { a.amount }
  function ExpenseAmount(e: Expense): int { e.amount }
  function StatisticAmount(s: CategoryStatistic): int { s.amount }
  predicate IsPaid(a: Account) { a.paid }
  predicate IsPending(a: Account) { !a.paid }

  predicate AmountsNonNegative(es: seq<Expense>) {
    forall i :: 0 <= i < |es| ==> es[i].amount >= 0
  }

  // ----- getTotalAccounts, getTotalExpenses -----

  datatype Totals = Totals(total: Amount, paid: Amount, pending: Amount)

  /** `getTotalAccounts`: the sum of all amounts, of the paid ones, and their
      difference, which is the sum of the unpaid ones. */
  function AccountTotals(accounts: seq<Account>): (t: Totals)
    ensures t.total == t.paid + t.pending
    ensures t.paid == Sum(Filter(accounts, IsPaid), AccountAmount)
    ensures t.pending == Sum(Filter(accounts, IsPending), AccountAmount)
  {
    PaidPendingSplit(accounts);
    var total := Sum(accounts, AccountAmount);
    var paid := Sum(Filter(accounts, IsPaid), AccountAmount);
    Totals(total, paid, total - paid)
  }

  lemma {:induction false} PaidPendingSplit(s: seq<Account>)
    ensures Sum(s, AccountAmount) ==
            Sum(Filter(s, IsPaid), AccountAmount) + Sum(Filter(s, IsPending), AccountAmount)
  {
    if s != [] {
      PaidPendingSplit(s[1..]);
      var paid, pending := Filter(s[1..], IsPaid), Filter(s[1..], IsPending);
      if s[0].paid {
        assert Filter(s, IsPaid) == [s[0]] + paid && Filter(s, IsPending) == pending;
        SumConcat([s[0]], paid, AccountAmount);
      } else {
        assert Filter(s, IsPending) == [s[0]] + pending && Filter(s, IsPaid) == paid;
        SumConcat([s[0]], pending, AccountAmount);
      }
    }
  }

  /** With no negative amount, `0 <= paid <= total` and nothing is pending below zero. */
  lemma PaidWithinTotal(accounts: seq<Account>)
    requires forall i :: 0 <= i < |accounts| ==> accounts[i].amount >= 0
    ensures 0 <= AccountTotals(accounts).paid <= AccountTotals(accounts).total
    ensures 0 <= AccountTotals(accounts).pending <= AccountTotals(accounts).total
  {
    var paid, pending := Filter(accounts, IsPaid), Filter(accounts, IsPending);
    forall i | 0 <= i < |paid| ensures paid[i].amount >= 0 {
      assert multiset(paid)[paid[i]] > 0;
      assert paid[i] in accounts;
    }
    forall i | 0 <= i < |pending| ensures pending[i].amount >= 0 {
      assert multiset(pending)[pending[i]] > 0;
      assert pending[i] in accounts;
    }
    SumNonNegative(paid, AccountAmount);
    SumNonNegative(pending, AccountAmount);
  }

  /** `getTotalExpenses`: 0 for no expenses, never negative when no amount is. */
  function ExpensesTotal(es: seq<Expense>): (t: Amount)
    ensures es == [] ==> t == 0
    ensures AmountsNonNegative(es) ==> t >= 0
  {
    if AmountsNonNegative(es) then
      SumNonNegative(es, ExpenseAmount);
      Sum(es, ExpenseAmount)
    else
      Sum(es, ExpenseAmount)
  }

  /** Adding an expense raises the total by its amount. */
  lemma ExpensesTotalAppend(es: seq<Expense>, e: Expense)
    ensures ExpensesTotal(es + [e]) == ExpensesTotal(es) + e.amount
  {
    SumConcat(es, [e], ExpenseAmount);
  }

  // ----- grouping by category (the forEach over statsByCategory) -----

  /** An entry `{ amount, category }` of the dictionary `statsByCategory`. */
  datatype Group = Group(category: string, amount: Amount)

  function GroupAmount(g: Group): int { g.amount }

  /** One turn of the `forEach`: the entry of `e`'s category grows by `e.amount`;
      a category met for the first time gets a new entry, last in key order. */
  function AddToGroups(gs: seq<Group>, e: Expense): seq<Group> {
    if gs == [] then [Group(e.category, e.amount)]
    else if gs[0].category == e.category then [Group(e.category, gs[0].amount + e.amount)] + gs[1..]
    else [gs[0]] + AddToGroups(gs[1..], e)
  }

  /** The entries of `statsByCategory` after the `forEach`, in the order their
      keys were first added. */
  function Grouped(es: seq<Expense>): seq<Group> {
    if es == [] then [] else AddToGroups(Grouped(es[..|es| - 1]), es[|es| - 1])
  }

  /** The reference definition of one category's amount: the sum over the
      expenses filed under exactly that string. */
  function CategoryTotal(es: seq<Expense>, c: string): Amount {
    if es == [] then 0
    else CategoryTotal(es[..|es| - 1], c) + (if es[|es| - 1].category == c then es[|es| - 1].amount else 0)
  }

  predicate HasGroup(gs: seq<Group>, c: string) {
    exists i :: 0 <= i < |gs| && gs[i].category == c
  }

  predicate UsesCategory(es: seq<Expense>, c: string) {
    exists i :: 0 <= i < |es| && es[i].category == c
  }

  predicate DistinctCategories(gs: seq<Group>) {
    forall i, j :: 0 <= i < j < |gs| ==> gs[i].category != gs[j].category
  }

  lemma {:induction false} AddToExistingGroup(gs: seq<Group>, e: Expense, k: nat)
    requires k < |gs| && gs[k].category == e.category
    requires forall j :: 0 <= j < k ==> gs[j].category != e.category
    ensures AddToGroups(gs, e) == gs[k := Group(e.category, gs[k].amount + e.amount)]
  {
    if k > 0 {
      AddToExistingGroup(gs[1..], e, k - 1);
    }
  }

  lemma {:induction false} AddToNewGroup(gs: seq<Group>, e: Expense)
    requires !HasGroup(gs, e.category)
    ensures AddToGroups(gs, e) == gs + [Group(e.category, e.amount)]
  {
    if gs != [] {
      assert !HasGroup(gs[1..], e.category) by {
        forall i | 0 <= i < |gs[1..]| ensures gs[1..][i].category != e.category {
          assert gs[1..][i] == gs[i + 1];
        }
      }
      AddToNewGroup(gs[1..], e);
    }
  }

  lemma StepGrouped(es: seq<Expense>)
    requires es != []
    ensures Grouped(es) == AddToGroups(Grouped(es[..|es| - 1]), es[|es| - 1])
    ensures forall c ::
      CategoryTotal(es, c) == CategoryTotal(es[..|es| - 1], c) + (if es[|es| - 1].category == c then es[|es| - 1].amount else 0)
  {
  }

  lemma UnusedCategoryTotal(es: seq<Expense>, c: string)
    requires !UsesCategory(es, c)
    ensures CategoryTotal(es, c) == 0
  {
    if es != [] {
      var p := es[..|es| - 1];
      assert !UsesCategory(p, c) by {
        forall i | 0 <= i < |p| ensures p[i].category != c { assert p[i] == es[i]; }
      }
      UnusedCategoryTotal(p, c);
    }
  }

  /** What one turn of the `forEach` does to the entries `gs`, giving `r`: the
      categories stay distinct and in place, `e`'s category is added if it was
      missing, `e.amount` goes to exactly that entry, and so the overall sum
      rises by `e.amount`. */
  ghost predicate StepEffect(gs: seq<Group>, e: Expense, r: seq<Group>) {
    |gs| <= |r| <= |gs| + 1 &&
    DistinctCategories(r) &&
    (forall i :: 0 <= i < |gs| ==> r[i].category == gs[i].category) &&
    (forall c :: HasGroup(r, c) <==> HasGroup(gs, c) || c == e.category) &&
    (forall i :: 0 <= i < |r| ==>
      r[i].amount == (if i < |gs| then gs[i].amount else 0) + (if r[i].category == e.category then e.amount else 0)) &&
    Sum(r, GroupAmount) == Sum(gs, GroupAmount) + e.amount
  }

  lemma ExistingGroupEffect(gs: seq<Group>, e: Expense, k: nat)
    requires DistinctCategories(gs)
    requires k < |gs| && gs[k].category == e.category
    ensures StepEffect(gs, e, gs[k := Group(e.category, gs[k].amount + e.amount)])
  {
    var r := gs[k := Group(e.category, gs[k].amount + e.amount)];
    SumUpdate(gs, k, Group(e.category, gs[k].amount + e.amount), GroupAmount);
    forall c' | HasGroup(r, c') ensures HasGroup(gs, c') {
      var i :| 0 <= i < |r| && r[i].category == c';
      assert gs[i].category == c';
    }
    forall c' | HasGroup(gs, c') ensures HasGroup(r, c') {
      var i :| 0 <= i < |gs| && gs[i].category == c';
      assert r[i].category == c';
    }
  }

  lemma NewGroupEffect(gs: seq<Group>, e: Expense)
    requires DistinctCategories(gs)
    requires !HasGroup(gs, e.category)
    ensures StepEffect(gs, e, gs + [Group(e.category, e.amount)])
  {
    var c := e.category;
    var r := gs + [Group(c, e.amount)];
    SumConcat(gs, [Group(c, e.amount)], GroupAmount);
    forall c' | HasGroup(r, c') && c' != c ensures HasGroup(gs, c') {
      var i :| 0 <= i < |r| && r[i].category == c';
      assert i < |gs| && gs[i].category == c';
    }
    forall c' | HasGroup(gs, c') ensures HasGroup(r, c') {
      var i :| 0 <= i < |gs| && gs[i].category == c';
      assert r[i].category == c';
    }
    assert r[|gs|].category == c;
  }

  /** One turn of the `forEach` has the effect `StepEffect` describes. */
  lemma AddToGroupsFacts(gs: seq<Group>, e: Expense)
    requires DistinctCategories(gs)
    ensures StepEffect(gs, e, AddToGroups(gs, e))
  {
    if HasGroup(gs, e.category) {
      var k :| 0 <= k < |gs| && gs[k].category == e.category;
      AddToExistingGroup(gs, e, k);
      ExistingGroupEffect(gs, e, k);
    } else {
      AddToNewGroup(gs, e);
      NewGroupEffect(gs, e);
    }
  }

  /** What the grouping computes: one entry per distinct category string of the
      expenses, each holding that category's total, the entries together
      summing to `getTotalExpenses`; no expenses give no entries. */
  lemma {:induction false} GroupedIsCategoryBreakdown(es: seq<Expense>)
    ensures DistinctCategories(Grouped(es))
    ensures forall c :: HasGroup(Grouped(es), c) <==> UsesCategory(es, c)
    ensures forall i :: 0 <= i < |Grouped(es)| ==>
      Grouped(es)[i].amount == CategoryTotal(es, Grouped(es)[i].category)
    ensures Sum(Grouped(es), GroupAmount) == ExpensesTotal(es)
    ensures Grouped(es) == [] <==> es == []
  {
    if es != [] {
      var p, e := es[..|es| - 1], es[|es| - 1];
      assert es == p + [e];
      GroupedIsCategoryBreakdown(p);
      StepGrouped(es);
      ExpensesTotalAppend(p, e);
      var gs := Grouped(p);
      AddToGroupsFacts(gs, e);
      var r := AddToGroups(gs, e);
      forall c' ensures UsesCategory(es, c') <==> UsesCategory(p, c') || c' == e.category {
        if UsesCategory(es, c') && c' != e.category {
          var i :| 0 <= i < |es| && es[i].category == c';
          assert i < |p| && p[i] == es[i];
        }
        if UsesCategory(p, c') {
          var i :| 0 <= i < |p| && p[i].category == c';
          assert es[i] == p[i];
        }
        assert es[|es| - 1] == e;
      }
      forall i | 0 <= i < |r| ensures r[i].amount == CategoryTotal(es, r[i].category) {
        if i >= |gs| {
          assert r[i].category == e.category by {
            if r[i].category != e.category {
              assert r[i].amount == 0;
            }
            assert HasGroup(r, r[i].category);
          }
          assert !HasGroup(gs, e.category);
          UnusedCategoryTotal(p, e.category);
        }
      }
      assert r != [];
    }
  }

  /** Every category total lies between 0 and the overall total when no
      amount is negative. */
  lemma {:induction false} CategoryTotalBounds(es: seq<Expense>, c: string)
    requires AmountsNonNegative(es)
    ensures 0 <= CategoryTotal(es, c) <= ExpensesTotal(es)
  {
    if es != [] {
      var p, e := es[..|es| - 1], es[|es| - 1];
      assert es == p + [e];
      assert AmountsNonNegative(p) by {
        forall i | 0 <= i < |p| ensures p[i].amount >= 0 { assert p[i] == es[i]; }
      }
      CategoryTotalBounds(p, c);
      ExpensesTotalAppend(p, e);
    }
  }

  // ----- colour and percentage of an entry -----

  /** The colour shown for a category name that no category carries. */
  const FallbackColor := "#607D8B"

  /** Position `i` holds the first category called `name`. */
  predicate FirstNamed(categories: seq<Category>, name: string, i: int) {
    0 <= i < |categories| && categories[i].name == name &&
    forall j :: 0 <= j < i ==> categories[j].name != name
  }

  /** `categories.find(c => c.name === name)` */
  function FindCategory(categories: seq<Category>, name: string): (r: Option<Category>)
    ensures r.None? <==> forall i :: 0 <= i < |categories| ==> categories[i].name != name
    ensures r.Some? ==> exists i :: FirstNamed(categories, name, i) && categories[i] == r.value
  {
    if categories == [] then None
    else if categories[0].name == name then Some(categories[0])
    else
      var r := FindCategory(categories[1..], name);
      assert r.Some? ==> exists i :: FirstNamed(categories, name, i) && categories[i] == r.value by {
        if r.Some? {
          var i :| FirstNamed(categories[1..], name, i) && categories[1..][i] == r.value;
          assert FirstNamed(categories, name, i + 1);
        }
      }
      r
  }

  /** `categoryObj?.color || "#607D8B"`: the colour of the first category with
      that name, unless there is none or its colour is the empty string; never
      empty. */
  function ColorOf(categories: seq<Category>, name: string): (color: string)
    ensures color != ""
    ensures (forall i :: 0 <= i < |categories| ==> categories[i].name != name) ==> color == FallbackColor
    ensures forall i :: FirstNamed(categories, name, i) ==>
      color == if categories[i].color != "" then categories[i].color else FallbackColor
  {
    match FindCategory(categories, name)
    case Some(c) => if c.color != "" then c.color else FallbackColor
    case None => FallbackColor
  }

  /** Integer division rounding down, for either sign of the divisor. */
  function FloorDiv(n: int, d: int): (q: int)
    requires d != 0
    ensures d > 0 ==> d * q <= n < d * (q + 1)
    ensures d < 0 ==> d * q >= n > d * (q + 1)
  {
    if d > 0 then n / d else (-n) / (-d)
  }

  /** `total ? Math.round(amount / total * 100) : 0`. `Math.round(x)` is
      `floor(x + 1/2)`, and `amount / total * 100 + 1/2` is
      `(200 * amount + total) / (2 * total)`: the result is the integer nearest
      to the exact percentage, halves rounded up. */
  function RoundedPercentage(amount: Amount, total: Amount): (p: int)
    ensures total == 0 ==> p == 0
    ensures total > 0 ==> 2 * total * p <= 200 * amount + total < 2 * total * (p + 1)
    ensures total < 0 ==> 2 * total * p >= 200 * amount + total > 2 * total * (p + 1)
  {
    if total == 0 then 0 else FloorDiv(200 * amount + total, 2 * total)
  }

  lemma MulMono(x: int, y: int, z: int)
    requires x > 0 && y <= z
    ensures x * y <= x * z
  {
    assert x * z - x * y == x * (z - y);
  }

  /** A part of a non-negative whole is between 0 and 100 percent of it; the
      whole is 100 percent and nothing is 0 percent. */
  lemma PercentageBounds(amount: Amount, total: Amount)
    requires 0 <= amount <= total
    ensures 0 <= RoundedPercentage(amount, total) <= 100
    ensures amount == total && total > 0 ==> RoundedPercentage(amount, total) == 100
    ensures amount == 0 ==> RoundedPercentage(amount, total) == 0
  {
    if total > 0 {
      var p := RoundedPercentage(amount, total);
      var d := 2 * total;
      assert d * p <= 200 * amount + total < d * (p + 1);
      assert p <= 100 by {
        if p > 100 {
          assert 200 * amount + total <= 201 * total;
          MulMono(d, 101, p);
        }
      }
      assert p >= 0 by {
        if p < 0 {
          MulMono(d, p + 1, 0);
        }
      }
      if amount == total {
        assert p >= 100 by {
          if p < 100 {
            MulMono(d, p + 1, 100);
          }
        }
      }
      if amount == 0 {
        assert p <= 0 by {
          if p > 0 {
            MulMono(d, 1, p);
          }
        }
      }
    }
  }

  function ToStatistic(g: Group, categories: seq<Category>, total: Amount): CategoryStatistic {
    CategoryStatistic(g.category, g.amount, ColorOf(categories, g.category), RoundedPercentage(g.amount, total))
  }

  /** The `.map` over `Object.values(statsByCategory)`. */
  function Statistics(gs: seq<Group>, categories: seq<Category>, total: Amount): (r: seq<CategoryStatistic>)
    ensures |r| == |gs|
    ensures forall i :: 0 <= i < |gs| ==> r[i] == ToStatistic(gs[i], categories, total)
  {
    if gs == [] then [] else [ToStatistic(gs[0], categories, total)] + Statistics(gs[1..], categories, total)
  }

  /** The comparator `(a, b) => b.amount - a.amount` is not positive. */
  predicate AmountDesc(a: CategoryStatistic, b: CategoryStatistic) {
    b.amount - a.amount <= 0
  }

  lemma AmountDescIsTotalPreorder()
    ensures TotalPreorder(AmountDesc)
  {
  }

  lemma {:induction false} StatisticsSum(gs: seq<Group>, categories: seq<Category>, total: Amount)
    ensures Sum(Statistics(gs, categories, total), StatisticAmount) == Sum(gs, GroupAmount)
  {
    if gs != [] {
      StatisticsSum(gs[1..], categories, total);
      assert Statistics(gs, categories, total)[1..] == Statistics(gs[1..], categories, total);
    }
  }

  /** No element occurs twice in a sequence whose elements are pairwise distinct. */
  lemma {:induction false} DistinctCountsOnce<T>(s: seq<T>, x: T)
    requires forall i, j :: 0 <= i < j < |s| ==> s[i] != s[j]
    ensures multiset(s)[x] <= 1
  {
    if s != [] {
      assert s == [s[0]] + s[1..];
      DistinctCountsOnce(s[1..], x);
      if x == s[0] {
        assert x !in s[1..];
      }
    }
  }

  lemma RepeatCountsTwice<T>(s: seq<T>, i: nat, j: nat)
    requires i < j < |s| && s[i] == s[j]
    ensures multiset(s)[s[i]] >= 2
  {
    assert s == s[..j] + [s[j]] + s[j + 1..];
    assert s[i] in s[..j];
  }

  /** Every entry of a reordering of the statistics is the statistic of one group. */
  lemma StatisticMembers(es: seq<Expense>, categories: seq<Category>, stats: seq<CategoryStatistic>)
    requires multiset(stats) == multiset(Statistics(Grouped(es), categories, ExpensesTotal(es)))
    ensures forall s :: s in stats ==>
      s.amount == CategoryTotal(es, s.category) &&
      s.color == ColorOf(categories, s.category) &&
      s.percentage == RoundedPercentage(s.amount, ExpensesTotal(es))
  {
    var total := ExpensesTotal(es);
    var gs := Grouped(es);
    var u := Statistics(gs, categories, total);
    GroupedIsCategoryBreakdown(es);
    forall s | s in stats
      ensures s.amount == CategoryTotal(es, s.category)
      ensures s.color == ColorOf(categories, s.category)
      ensures s.percentage == RoundedPercentage(s.amount, total)
    {
      assert s in multiset(u);
      var k :| 0 <= k < |u| && u[k] == s;
      assert s == ToStatistic(gs[k], categories, total);
    }
  }

  lemma StatisticCategories(es: seq<Expense>, categories: seq<Category>, stats: seq<CategoryStatistic>)
    requires multiset(stats) == multiset(Statistics(Grouped(es), categories, ExpensesTotal(es)))
    ensures forall c :: (exists i :: 0 <= i < |stats| && stats[i].category == c) <==> UsesCategory(es, c)
  {
    var total := ExpensesTotal(es);
    var gs := Grouped(es);
    var u := Statistics(gs, categories, total);
    GroupedIsCategoryBreakdown(es);
    forall c ensures (exists i :: 0 <= i < |stats| && stats[i].category == c) <==> HasGroup(gs, c) {
      if exists i :: 0 <= i < |stats| && stats[i].category == c {
        var i :| 0 <= i < |stats| && stats[i].category == c;
        assert stats[i] in multiset(u);
        var k :| 0 <= k < |u| && u[k] == stats[i];
        assert gs[k].category == c;
      }
      if HasGroup(gs, c) {
        var k :| 0 <= k < |gs| && gs[k].category == c;
        assert u[k] in multiset(stats);
        var i :| 0 <= i < |stats| && stats[i] == u[k];
      }
    }
  }

  lemma StatisticsDistinct(es: seq<Expense>, categories: seq<Category>, stats: seq<CategoryStatistic>)
    requires multiset(stats) == multiset(Statistics(Grouped(es), categories, ExpensesTotal(es)))
    ensures forall i, j :: 0 <= i < j < |stats| ==> stats[i].category != stats[j].category
  {
    var u := Statistics(Grouped(es), categories, ExpensesTotal(es));
    GroupedIsCategoryBreakdown(es);
    StatisticMembers(es, categories, stats);
    assert forall i, j :: 0 <= i < j < |u| ==> u[i] != u[j] by {
      forall i, j | 0 <= i < j < |u| ensures u[i] != u[j] {
        assert u[i].category == Grouped(es)[i].category;
      }
    }
    forall i, j | 0 <= i < j < |stats| ensures stats[i].category != stats[j].category {
      if stats[i].category == stats[j].category {
        assert stats[i] in stats && stats[j] in stats;
        assert stats[i] == stats[j];
        RepeatCountsTwice(stats, i, j);
        DistinctCountsOnce(u, stats[i]);
      }
    }
  }

  /** What `getExpensesByCategory` returns, whichever order it puts equal
      amounts in (that order follows the key order of `Object.values`): any
      reordering of the statistics of the grouping that is sorted by the
      comparator has these properties. */
  lemma ByCategoryFacts(es: seq<Expense>, categories: seq<Category>, stats: seq<CategoryStatistic>)
    requires multiset(stats) == multiset(Statistics(Grouped(es), categories, ExpensesTotal(es)))
    requires SortedBy(stats, AmountDesc)
    ensures forall i, j :: 0 <= i < j < |stats| ==> stats[i].amount >= stats[j].amount
    ensures forall i, j :: 0 <= i < j < |stats| ==> stats[i].category != stats[j].category
    ensures forall c :: (exists i :: 0 <= i < |stats| && stats[i].category == c) <==> UsesCategory(es, c)
    ensures forall s :: s in stats ==>
      s.amount == CategoryTotal(es, s.category) &&
      s.color == ColorOf(categories, s.category) &&
      s.percentage == RoundedPercentage(s.amount, ExpensesTotal(es))
    ensures AmountsNonNegative(es) ==> forall s :: s in stats ==> 0 <= s.percentage <= 100
    ensures Sum(stats, StatisticAmount) == ExpensesTotal(es)
    ensures stats == [] <==> es == []
  {
    var gs := Grouped(es);
    var u := Statistics(gs, categories, ExpensesTotal(es));
    GroupedIsCategoryBreakdown(es);
    StatisticMembers(es, categories, stats);
    StatisticCategories(es, categories, stats);
    StatisticsDistinct(es, categories, stats);
    if AmountsNonNegative(es) {
      forall s | s in stats ensures 0 <= s.percentage <= 100 {
        CategoryTotalBounds(es, s.category);
        PercentageBounds(s.amount, ExpensesTotal(es));
      }
    }
    SumPermutation(stats, u, StatisticAmount);
    StatisticsSum(gs, categories, ExpensesTotal(es));
    assert |stats| == |multiset(stats)| == |u|;
  }

  // ----- the dictionary as written (see Findings in README.md) -----

  /** The property names every plain object inherits from `Object.prototype`:
      `statsByCategory[k]` is truthy for them before any entry is added. */
  const InheritedKeys: set<string> := {
    "constructor", "hasOwnProperty", "isPrototypeOf", "propertyIsEnumerable",
    "toString", "toLocaleString", "valueOf", "__proto__",
    "__defineGetter__", "__defineSetter__", "__lookupGetter__", "__lookupSetter__" }

  /** The `forEach` on a plain object literal: for an inherited key the guard
      `!statsByCategory[k]` is false, so no own entry is created, the addition
      lands on the inherited member, and `Object.values` never sees it. */
  function GroupedAsWritten(es: seq<Expense>): seq<Group> {
    if es == [] then []
    else
      var gs := GroupedAsWritten(es[..|es| - 1]);
      if es[|es| - 1].category in InheritedKeys then gs else AddToGroups(gs, es[|es| - 1])
  }

  /** As written, an expense filed under "toString" vanishes from the breakdown:
      the entries sum to 0 while `getTotalExpenses` is 5000. */
  lemma InheritedCategoryIsLost()
    ensures var es := [Expense("e1", "Livro", 5000, 0, "toString", 0)];
      GroupedAsWritten(es) == [] &&
      Sum(GroupedAsWritten(es), GroupAmount) != ExpensesTotal(es) &&
      Sum(Grouped(es), GroupAmount) == ExpensesTotal(es)
  {
    var es := [Expense("e1", "Livro", 5000, 0, "toString", 0)];
    assert es[..0] == [];
    GroupedIsCategoryBreakdown(es);
  }

  predicate NotInherited(e: Expense) { e.category !in InheritedKeys }

  /** As written, the grouping is the corrected grouping of the expenses whose
      category is not an inherited property name: the others are dropped. */
  lemma {:induction false} GroupedAsWrittenSkipsInherited(es: seq<Expense>)
    ensures GroupedAsWritten(es) == Grouped(Filter(es, NotInherited))
  {
    if es != [] {
      var p, e := es[..|es| - 1], es[|es| - 1];
      assert es == p + [e];
      GroupedAsWrittenSkipsInherited(p);
      FilterSnoc(p, e, NotInherited);
      var q := Filter(p, NotInherited);
      if NotInherited(e) {
        assert Filter(es, NotInherited) == q + [e];
        assert (q + [e])[..|q|] == q && (q + [e])[|q|] == e;
        assert Grouped(q + [e]) == AddToGroups(Grouped(q), e);
      } else {
        assert Filter(es, NotInherited) == q;
      }
    }
  }

  /** For every other category name the two agree. */
  lemma {:induction false} GroupedAsWrittenElsewhereAgrees(es: seq<Expense>)
    requires forall i :: 0 <= i < |es| ==> es[i].category !in InheritedKeys
    ensures GroupedAsWritten(es) == Grouped(es)
  {
    if es != [] {
      var p := es[..|es| - 1];
      assert forall i :: 0 <= i < |p| ==> p[i] == es[i];
      GroupedAsWrittenElsewhereAgrees(p);
    }
  }

  // ----- the seed and the fallback -----

  /** The seeded "Outros" colour is the fallback, so a name no category carries
      is drawn in the "Outros" colour. */
  lemma DanglingNameLooksLikeOutros(name: string)
    requires forall i :: 0 <= i < |DefaultCategories| ==> DefaultCategories[i].name != name
    ensures ColorOf(DefaultCategories, name) == ColorOf(DefaultCategories, "Outros") == FallbackColor
  {
    assert FirstNamed(DefaultCategories, "Outros", 6);
  }

  lemma LunchAndBusGrouped(lunch: Expense, bus: Expense)
    requires lunch == Expense("a", "Lunch", 2000, 0, "Alimentação", 0)
    requires bus == Expense("b", "Bus", 1000, 0, "Transporte", 0)
    ensures Grouped([lunch, bus]) == [Group("Alimentação", 2000), Group("Transporte", 1000)]
    ensures ExpensesTotal([lunch, bus]) == 3000
  {
    assert [lunch, bus][..1] == [lunch] && [lunch][..0] == [];
    assert [lunch, bus][1..] == [bus] && [bus][1..] == [];
    assert Sum([bus], ExpenseAmount) == 1000;
    assert Sum([lunch, bus], ExpenseAmount) == 2000 + Sum([bus], ExpenseAmount);
    assert Grouped([lunch]) == [Group("Alimentação", 2000)];
    assert "Alimentação" != "Transporte";
    assert AddToGroups([Group("Alimentação", 2000)], bus) ==
      [Group("Alimentação", 2000)] + AddToGroups([], bus);
  }

  lemma SeedColors()
    ensures ColorOf(DefaultCategories, "Alimentação") == "#FF6B6B"
    ensures ColorOf(DefaultCategories, "Transporte") == "#4ECDC4"
  {
    assert FirstNamed(DefaultCategories, "Alimentação", 0);
    assert FirstNamed(DefaultCategories, "Transporte", 1) by {
      assert DefaultCategories[0].name != "Transporte";
    }
  }

  /** The two scenario entries become 67 % and 33 % of 3000, in entry order. */
  lemma LunchAndBusStatistics()
    ensures Statistics([Group("Alimentação", 2000), Group("Transporte", 1000)], DefaultCategories, 3000) ==
      [CategoryStatistic("Alimentação", 2000, "#FF6B6B", 67),
       CategoryStatistic("Transporte", 1000, "#4ECDC4", 33)]
  {
    var gs := [Group("Alimentação", 2000), Group("Transporte", 1000)];
    SeedColors();
    ScenarioPercentages();
    assert ToStatistic(gs[0], DefaultCategories, 3000) == CategoryStatistic("Alimentação", 2000, "#FF6B6B", 67);
    assert ToStatistic(gs[1], DefaultCategories, 3000) == CategoryStatistic("Transporte", 1000, "#4ECDC4", 33);
  }

  lemma ScenarioPercentages()
    ensures RoundedPercentage(2000, 3000) == 67
    ensures RoundedPercentage(1000, 3000) == 33
  {
  }

  /** Sorting two statistics that are already in descending order keeps them. */
  lemma SortedPair(a: CategoryStatistic, t: CategoryStatistic)
    requires a.amount >= t.amount
    ensures InsertionSort([a, t], AmountDesc) == [a, t]
  {
    assert [a, t][1..] == [t] && [t][1..] == [];
    assert InsertionSort([t], AmountDesc) == [t];
    assert Insert(a, [t], AmountDesc) == [a, t];
  }

  /** Scenario: lunch 20.00 under "Alimentação" and a bus ticket 10.00 under
      "Transporte" give 30.00 in all, and the breakdown 67 % and 33 %, larger first. */
  lemma LunchAndBusBreakdown()
    ensures var es := [Expense("a", "Lunch", 2000, 0, "Alimentação", 0),
                       Expense("b", "Bus", 1000, 0, "Transporte", 0)];
      ExpensesTotal(es) == 3000 &&
      InsertionSort(Statistics(Grouped(es), DefaultCategories, 3000), AmountDesc) ==
        [CategoryStatistic("Alimentação", 2000, "#FF6B6B", 67),
         CategoryStatistic("Transporte", 1000, "#4ECDC4", 33)]
  {
    LunchAndBusGrouped(Expense("a", "Lunch", 2000, 0, "Alimentação", 0), Expense("b", "Bus", 1000, 0, "Transporte", 0));
    LunchAndBusStatistics();
    SortedPair(CategoryStatistic("Alimentação", 2000, "#FF6B6B", 67), CategoryStatistic("Transporte", 1000, "#4ECDC4", 33));
  }
}
