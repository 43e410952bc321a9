/** The ledger's entities (src/modules/transactions/transactions.types.ts). */
module Types {
  import opened Wrappers
  import Money
  import Dates

  /** A movement's direction: exactly one of the two. */
  datatype MoneyType = Income | Expense

  /** `id`, `createdAt` and `updatedAt` are owned by the store; `amount` carries no
      sign, the direction is in `kind` (the source's `type` property). */
  datatype Transaction = Transaction(
    id: string,
    kind: MoneyType,
    amount: real,
    date: string,
    categoryId: string,
    description: Option<string>,
    createdAt: string,
    updatedAt: string)

  /** The documented shape of a stored transaction: a positive amount and an ISO date.
      The store does not enforce it (see the store's creation lemmas). */
  predicate IsDocumented(t: Transaction) {
    t.amount > 0.0 && Dates.IsISODate(t.date)
  }

  /** What a caller may supply to create a transaction: no id, no timestamps.
      The amount is whatever number the form produced. */
  datatype CreateInput = CreateInput(
    kind: MoneyType,
    amount: Money.JsNumber,
    date: string,
    categoryId: string,
    description: Option<string>)

  /** A patch: every caller-owned field optional, none of id/createdAt/updatedAt. */
  datatype UpdateInput = UpdateInput(
    kind: Option<MoneyType>,
    amount: Option<Money.JsNumber>,
    date: Option<string>,
    categoryId: Option<string>,
    description: Option<string>)

  /** The type filter's values: "all" or one direction. */
  datatype TypeFilter = AllTypes | OnlyType(kind: MoneyType)

  /** The category filter's "match everything" value. */
  const AllCategories: string := "all"

  /** Month is required; the other three may be absent, which counts as "no constraint". */
  datatype Filters = Filters(
    month: string,
    search: Option<string>,
    typeFilter: Option<TypeFilter>,
    categoryId: Option<string>)

  /** The argument of `setFilters`: any subset of the filter fields. */
  datatype FiltersPatch = FiltersPatch(
    month: Option<string>,
    search: Option<string>,
    typeFilter: Option<TypeFilter>,
    categoryId: Option<string>)
}
