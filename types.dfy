/** The records kept by the store (src/lib/types.ts) and the default category seed.

    Money is kept in integer cents and instants in integer milliseconds since the
    epoch (the value of `Date.prototype.getTime`), so no floating point enters the
    model. */
module Types {
  import opened Options

  /** An amount of money in cents. */
  type Amount = int

  /** An instant, as milliseconds since the epoch. */
  type Date = int

  /** A recurring bill. */
  datatype Account = Account(
    id: string,
    name: string,
    amount: Amount,
    dueDate: Date,
    category: string,
    paid: bool,
    createdAt: Date)

  /** A one-time expenditure. */
  datatype Expense = Expense(
    id: string,
    name: string,
    amount: Amount,
    date: Date,
    category: string,
    createdAt: Date)

  /** A classification label with its display colour. */
  datatype Category = Category(id: string, name: string, color: string)

  /** One row of the per-category breakdown of the expenses. */
  datatype CategoryStatistic = CategoryStatistic(
    category: string,
    amount: Amount,
    color: string,
    percentage: int)

  function AccountId(a: Account): string { a.id }
  function ExpenseId(e: Expense): string { e.id }
  function CategoryId(c: Category): string { c.id }

  /** `Omit<Account, "id" | "createdAt">`: what a caller hands to `addAccount`. */
  datatype AccountDraft = AccountDraft(
    name: string,
    amount: Amount,
    dueDate: Date,
    category: string,
    paid: bool)
  {
    /** `{ ...account, id, createdAt }` */
    function Stamp(id: string, createdAt: Date): (a: Account)
      ensures a.id == id && a.createdAt == createdAt
      ensures AccountDraft(a.name, a.amount, a.dueDate, a.category, a.paid) == this
    {
      Account(id, name, amount, dueDate, category, paid, createdAt)
    }
  }

  /** `Omit<Expense, "id" | "createdAt">` */
  datatype ExpenseDraft = ExpenseDraft(
    name: string,
    amount: Amount,
    date: Date,
    category: string)
  {
    /** `{ ...expense, id, createdAt }` */
    function Stamp(id: string, createdAt: Date): (e: Expense)
      ensures e.id == id && e.createdAt == createdAt
      ensures ExpenseDraft(e.name, e.amount, e.date, e.category) == this
    {
      Expense(id, name, amount, date, category, createdAt)
    }
  }

  /** `Omit<Category, "id">` */
  datatype CategoryDraft = CategoryDraft(name: string, color: string)
  {
    /** `{ ...category, id }` */
    function Stamp(id: string): (c: Category)
      ensures c.id == id
      ensures CategoryDraft(c.name, c.color) == this
    {
      Category(id, name, color)
    }
  }

  /** `Partial<Account>`: a field that is `None` is absent from the object, so the
      spread `{ ...account, ...patch }` keeps the account's own value for it. */
  datatype AccountPatch = AccountPatch(
    id: Option<string>,
    name: Option<string>,
    amount: Option<Amount>,
    dueDate: Option<Date>,
    category: Option<string>,
    paid: Option<bool>,
    createdAt: Option<Date>)
  {
    /** `{ ...a, ...this }` */
    function Apply(a: Account): Account {
      Account(id.GetOr(a.id), name.GetOr(a.name), amount.GetOr(a.amount),
              dueDate.GetOr(a.dueDate), category.GetOr(a.category),
              paid.GetOr(a.paid), createdAt.GetOr(a.createdAt))
    }
  }

  /** `Partial<Expense>` */
  datatype ExpensePatch = ExpensePatch(
    id: Option<string>,
    name: Option<string>,
    amount: Option<Amount>,
    date: Option<Date>,
    category: Option<string>,
    createdAt: Option<Date>)
  {
    /** `{ ...e, ...this }` */
    function Apply(e: Expense): Expense {
      Expense(id.GetOr(e.id), name.GetOr(e.name), amount.GetOr(e.amount),
              date.GetOr(e.date), category.GetOr(e.category), createdAt.GetOr(e.createdAt))
    }
  }

  /** `Partial<Category>` */
  datatype CategoryPatch = CategoryPatch(
    id: Option<string>,
    name: Option<string>,
    color: Option<string>)
  {
    /** `{ ...c, ...this }` */
    function Apply(c: Category): Category {
      Category(id.GetOr(c.id), name.GetOr(c.name), color.GetOr(c.color))
    }
  }

  /** The empty objects `{}` of the three partial types. */
  const NoAccountChange := AccountPatch(None, None, None, None, None, None, None)
  const NoExpenseChange := ExpensePatch(None, None, None, None, None, None)
  const NoCategoryChange := CategoryPatch(None, None, None)

  /** A supplied field takes the patch's value, an unsupplied one keeps the
      record's own; so the empty patch changes nothing and a patch is idempotent. */
  lemma AccountPatchSemantics(p: AccountPatch, a: Account)
    ensures p.id.Some? ==> p.Apply(a).id == p.id.value
    ensures p.id.None? ==> p.Apply(a).id == a.id
    ensures p.name.Some? ==> p.Apply(a).name == p.name.value
    ensures p.name.None? ==> p.Apply(a).name == a.name
    ensures p.amount.Some? ==> p.Apply(a).amount == p.amount.value
    ensures p.amount.None? ==> p.Apply(a).amount == a.amount
    ensures p.dueDate.Some? ==> p.Apply(a).dueDate == p.dueDate.value
    ensures p.dueDate.None? ==> p.Apply(a).dueDate == a.dueDate
    ensures p.category.Some? ==> p.Apply(a).category == p.category.value
    ensures p.category.None? ==> p.Apply(a).category == a.category
    ensures p.paid.Some? ==> p.Apply(a).paid == p.paid.value
    ensures p.paid.None? ==> p.Apply(a).paid == a.paid
    ensures p.createdAt.Some? ==> p.Apply(a).createdAt == p.createdAt.value
    ensures p.createdAt.None? ==> p.Apply(a).createdAt == a.createdAt
    ensures NoAccountChange.Apply(a) == a
    ensures p.Apply(p.Apply(a)) == p.Apply(a)
  {
  }

  lemma ExpensePatchSemantics(p: ExpensePatch, e: Expense)
    ensures p.id.Some? ==> p.Apply(e).id == p.id.value
    ensures p.id.None? ==> p.Apply(e).id == e.id
    ensures p.name.Some? ==> p.Apply(e).name == p.name.value
    ensures p.name.None? ==> p.Apply(e).name == e.name
    ensures p.amount.Some? ==> p.Apply(e).amount == p.amount.value
    ensures p.amount.None? ==> p.Apply(e).amount == e.amount
    ensures p.date.Some? ==> p.Apply(e).date == p.date.value
    ensures p.date.None? ==> p.Apply(e).date == e.date
    ensures p.category.Some? ==> p.Apply(e).category == p.category.value
    ensures p.category.None? ==> p.Apply(e).category == e.category
    ensures p.createdAt.Some? ==> p.Apply(e).createdAt == p.createdAt.value
    ensures p.createdAt.None? ==> p.Apply(e).createdAt == e.createdAt
    ensures NoExpenseChange.Apply(e) == e
    ensures p.Apply(p.Apply(e)) == p.Apply(e)
  {
  }

  lemma CategoryPatchSemantics(p: CategoryPatch, c: Category)
    ensures p.id.Some? ==> p.Apply(c).id == p.id.value
    ensures p.id.None? ==> p.Apply(c).id == c.id
    ensures p.name.Some? ==> p.Apply(c).name == p.name.value
    ensures p.name.None? ==> p.Apply(c).name == c.name
    ensures p.color.Some? ==> p.Apply(c).color == p.color.value
    ensures p.color.None? ==> p.Apply(c).color == c.color
    ensures NoCategoryChange.Apply(c) == c
    ensures p.Apply(p.Apply(c)) == p.Apply(c)
  {
  }

  /** `DEFAULT_CATEGORIES`: the seed the store starts with. */
  const DefaultCategories: seq<Category> := [
    Category("1", "Alimentação", "#FF6B6B"),
    Category("2", "Transporte", "#4ECDC4"),
    Category("3", "Moradia", "#F9C80E"),
    Category("4", "Lazer", "#7A5CF0"),
    Category("5", "Saúde", "#45B8AC"),
    Category("6", "Educação", "#D65DB1"),
    Category("7", "Outros", "#607D8B")
  ]

  /** Seven entries whose ids are the digits "1" to "7" in order, with the
      listed name/colour pairs; "Outros" is last. */
  lemma DefaultCategoriesLayout()
    ensures |DefaultCategories| == 7
    ensures forall i :: 0 <= i < 7 ==> DefaultCategories[i].id == [('1' as int + i) as char]
    ensures DefaultCategories[0] == Category("1", "Alimentação", "#FF6B6B")
    ensures DefaultCategories[6] == Category("7", "Outros", "#607D8B")
  {
  }

  /** Ids and names of the seed are pairwise distinct. */
  lemma DefaultCategoriesDistinct()
    ensures forall i, j :: 0 <= i < j < |DefaultCategories| ==>
      DefaultCategories[i].id != DefaultCategories[j].id &&
      DefaultCategories[i].name != DefaultCategories[j].name
  {
  }
}
