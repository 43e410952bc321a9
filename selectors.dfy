/** Derived views over a snapshot of the list
    (src/modules/transactions/transactions.selectors.ts). */
module Selectors {
  import opened Wrappers
  import opened Types
  import Money
  import Strings
  import Dates
  import Seqs
  import Store
  import TransactionsSeed

  /** `(filters.search ?? "").trim().toLowerCase()`. */
  function SearchText(f: Filters): (search: string)
    ensures search == "" <==> Strings.Blank(f.search.GetOr(""))
  {
    Strings.TrimEmptyIffBlank(f.search.GetOr(""));
    Strings.ToLower(Strings.Trim(f.search.GetOr("")))
  }

  /** The test `filterTransactions` applies to one item, with the search text
      already prepared: same month, then type, category and search unless they are
      "all" (absent counts as "all") or blank. */
  predicate Keeps(t: Transaction, f: Filters, search: string)
    ensures Keeps(t, f, search) ==> Dates.GetMonthKey(t.date) == f.month
    ensures f.typeFilter.None? && f.categoryId.None? && search == "" ==>
              (Keeps(t, f, search) <==> Dates.GetMonthKey(t.date) == f.month)
  {
    var typeFilter := f.typeFilter.GetOr(AllTypes);
    var categoryId := f.categoryId.GetOr(AllCategories);
    && Dates.GetMonthKey(t.date) == f.month
    && (typeFilter == AllTypes || t.kind == typeFilter.kind)
    && (categoryId == AllCategories || t.categoryId == categoryId)
    && (search == "" || Strings.Contains(Strings.ToLower(t.description.GetOr("")), search))
  }

  /** Keeps, in order and with every copy, the items that pass the test. */
  function FilterWith(items: seq<Transaction>, f: Filters, search: string): (r: seq<Transaction>)
    ensures Seqs.IsSubsequence(r, items)
    ensures forall t :: multiset(r)[t] == if Keeps(t, f, search) then multiset(items)[t] else 0
    ensures forall t :: t in r <==> t in items && Keeps(t, f, search)
  {
    if items == [] then []
    else
      var rest := FilterWith(items[1..], f, search);
      assert items == [items[0]] + items[1..];
      if Keeps(items[0], f, search) then [items[0]] + rest
      else
        assert rest != [] ==> rest[0] != items[0] by {
          if rest != [] { assert rest[0] in rest; }
        }
        rest
  }

  /** `filterTransactions`: an order-preserving subsequence holding exactly the items
      that match every active filter, each as often as the list has it. */
  function FilterTransactions(items: seq<Transaction>, f: Filters): (r: seq<Transaction>)
    ensures Seqs.IsSubsequence(r, items)
    ensures forall t :: multiset(r)[t] == if Keeps(t, f, SearchText(f)) then multiset(items)[t] else 0
    ensures forall t :: t in r ==> t in items && Dates.GetMonthKey(t.date) == f.month
    ensures forall t :: t in r <==> t in items && Keeps(t, f, SearchText(f))
  {
    FilterWith(items, f, SearchText(f))
  }

  /** How each filter acts: a constraint applies only when it is not "all"; search is
      trimmed and lower-cased, and blank search keeps every description. */
  lemma FilterSemantics(t: Transaction, f: Filters)
    ensures f.typeFilter.GetOr(AllTypes) == AllTypes && f.categoryId.GetOr(AllCategories) == AllCategories
            && Strings.Trim(f.search.GetOr("")) == ""
            ==> (Keeps(t, f, SearchText(f)) <==> Dates.GetMonthKey(t.date) == f.month)
    ensures f.typeFilter == Some(OnlyType(Income)) && !t.kind.Income? ==> !Keeps(t, f, SearchText(f))
    ensures f.typeFilter == Some(OnlyType(Expense)) && !t.kind.Expense? ==> !Keeps(t, f, SearchText(f))
    ensures f.categoryId.Some? && f.categoryId.value != AllCategories && t.categoryId != f.categoryId.value
            ==> !Keeps(t, f, SearchText(f))
    ensures SearchText(f) != "" && Keeps(t, f, SearchText(f))
            ==> exists i :: Strings.OccursAt(Strings.ToLower(t.description.GetOr("")), SearchText(f), i)
  {
  }

  /** Filtering twice with the same filters is filtering once. */
  lemma {:induction false} FilterIdempotent(items: seq<Transaction>, f: Filters)
    ensures FilterTransactions(FilterTransactions(items, f), f) == FilterTransactions(items, f)
  {
    FilterWithIdempotent(items, f, SearchText(f));
  }

  lemma {:induction false} FilterWithIdempotent(items: seq<Transaction>, f: Filters, search: string)
    ensures FilterWith(FilterWith(items, f, search), f, search) == FilterWith(items, f, search)
  {
    if items != [] {
      FilterWithIdempotent(items[1..], f, search);
      var rest := FilterWith(items[1..], f, search);
      if Keeps(items[0], f, search) {
        assert ([items[0]] + rest)[1..] == rest;
      }
    }
  }

  /** When every item passes, the filter returns the list unchanged. */
  lemma {:induction false} FilterKeepsAll(items: seq<Transaction>, f: Filters, search: string)
    requires forall t :: t in items ==> Keeps(t, f, search)
    ensures FilterWith(items, f, search) == items
  {
    if items != [] {
      assert items[0] in items;
      FilterKeepsAll(items[1..], f, search);
      assert items == [items[0]] + items[1..];
    }
  }

  /** With type and category at "all" and no search, only the month decides. */
  lemma KeepsByMonth(t: Transaction, f: Filters)
    requires f.typeFilter == Some(AllTypes) && f.categoryId == Some(AllCategories)
    requires Dates.GetMonthKey(t.date) == f.month
    ensures Keeps(t, f, "")
  {
  }

  /** The demo dataset under the month "2025-01" with every other filter at "all"
      and an empty search is returned whole. */
  lemma SeedFilter(clock: TransactionsSeed.SeedClock)
    ensures var f := Filters("2025-01", Some(""), Some(AllTypes), Some(AllCategories));
            FilterTransactions(TransactionsSeed.Seed(clock), f) == TransactionsSeed.Seed(clock)
  {
    var f := Filters("2025-01", Some(""), Some(AllTypes), Some(AllCategories));
    var s := TransactionsSeed.Seed(clock);
    TransactionsSeed.SeedMonths(clock);
    assert SearchText(f) == "" by {
      assert Strings.Trim("") == "";
    }
    KeepsByMonth(s[0], f);
    KeepsByMonth(s[1], f);
    KeepsByMonth(s[2], f);
    assert s == [s[0], s[1], s[2]];
    assert forall t :: t in s ==> t == s[0] || t == s[1] || t == s[2];
    FilterKeepsAll(s, f, "");
  }

  /** The filtered view of a list in store order is in store order. */
  lemma FilterKeepsStoreOrder(items: seq<Transaction>, f: Filters)
    requires Store.Sorted(items)
    ensures Store.Sorted(FilterTransactions(items, f))
  {
    Store.SubsequenceOfSorted(FilterTransactions(items, f), items);
  }

  // ---------------------------------------------------------------- summary

  datatype Summary = Summary(income: real, expense: real, balance: real)

  /** Sum of the income amounts, added front to back. */
  function IncomeTotal(xs: seq<Transaction>): (total: real)
    ensures (forall i :: 0 <= i < |xs| ==> xs[i].amount >= 0.0) ==> total >= 0.0
    ensures (forall i :: 0 <= i < |xs| ==> xs[i].kind != Income) ==> total == 0.0
    decreases |xs|
  {
    if xs == [] then 0.0
    else IncomeTotal(xs[..|xs| - 1]) + (if xs[|xs| - 1].kind == Income then xs[|xs| - 1].amount else 0.0)
  }

  /** Sum of the amounts of every item that is not income. */
  function ExpenseTotal(xs: seq<Transaction>): (total: real)
    ensures (forall i :: 0 <= i < |xs| ==> xs[i].amount >= 0.0) ==> total >= 0.0
    ensures (forall i :: 0 <= i < |xs| ==> xs[i].kind == Income) ==> total == 0.0
    decreases |xs|
  {
    if xs == [] then 0.0
    else ExpenseTotal(xs[..|xs| - 1]) + (if xs[|xs| - 1].kind != Income then xs[|xs| - 1].amount else 0.0)
  }

  /** `computeSummary`: both totals rounded to cents, then the balance of the two
      rounded totals rounded again. */
  method ComputeSummary(items: seq<Transaction>) returns (s: Summary)
    ensures s.income == Money.Round2(IncomeTotal(items))
    ensures s.expense == Money.Round2(ExpenseTotal(items))
    ensures s.balance == Money.Round2(s.income - s.expense)
  {
    var income := 0.0;
    var expense := 0.0;
    for i := 0 to |items|
      invariant income == IncomeTotal(items[..i])
      invariant expense == ExpenseTotal(items[..i])
    {
      TotalsStep(items, i);
      if items[i].kind == Income {
        income := income + items[i].amount;
      } else {
        expense := expense + items[i].amount;
      }
    }
    assert items[..|items|] == items;
    income := Money.Round2(income);
    expense := Money.Round2(expense);
    var balance := Money.Round2(income - expense);
    return Summary(income, expense, balance);
  }

  /** One more item adds its amount to exactly one of the two totals. */
  lemma TotalsStep(xs: seq<Transaction>, i: int)
    requires 0 <= i < |xs|
    ensures IncomeTotal(xs[..i + 1]) == IncomeTotal(xs[..i]) + (if xs[i].kind == Income then xs[i].amount else 0.0)
    ensures ExpenseTotal(xs[..i + 1]) == ExpenseTotal(xs[..i]) + (if xs[i].kind == Income then 0.0 else xs[i].amount)
  {
    assert xs[..i + 1][..i] == xs[..i];
  }

  /** Because both totals are already whole cents, the last rounding is exact:
      the balance is precisely income minus expense. */
  lemma BalanceIsExact(income: real, expense: real)
    ensures Money.Round2(Money.Round2(income) - Money.Round2(expense))
            == Money.Round2(income) - Money.Round2(expense)
  {
    Money.CentsDifference(Money.Round2(income), Money.Round2(expense));
    Money.Round2OfCents(Money.Round2(income) - Money.Round2(expense));
  }

  /** An empty list sums to nothing. */
  lemma EmptyTotals()
    ensures Money.Round2(IncomeTotal([])) == 0.0 && Money.Round2(ExpenseTotal([])) == 0.0
  {
    Money.Round2OfCents(0.0);
  }

  /** The demo dataset's summary: income 5000, expense 1200 + 350 = 1550, balance 3450. */
  lemma SeedSummary(clock: TransactionsSeed.SeedClock)
    ensures var s := TransactionsSeed.Seed(clock);
            && Money.Round2(IncomeTotal(s)) == 5000.0
            && Money.Round2(ExpenseTotal(s)) == 1550.0
            && Money.Round2(5000.0 - 1550.0) == 3450.0
  {
    var s := TransactionsSeed.Seed(clock);
    assert s[..2][..1] == s[..1] && s[..3] == s && s[..1][..0] == [];
    assert IncomeTotal(s[..1]) == 5000.0;
    assert IncomeTotal(s[..2]) == 5000.0;
    assert IncomeTotal(s) == 5000.0;
    assert ExpenseTotal(s[..1]) == 0.0;
    assert ExpenseTotal(s[..2]) == 1200.0;
    assert ExpenseTotal(s) == 1550.0;
    Money.Round2OfCents(5000.0);
    Money.Round2OfCents(1550.0);
    Money.Round2OfCents(3450.0);
  }
}
