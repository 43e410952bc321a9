/** Chart aggregates (src/modules/transactions/transactions.charts.ts): expenses
    grouped by category name, and income/expense per calendar day. */
module Charts {
  import opened Types
  import Money
  import Strings
  import Seqs
  import Categories
  import Selectors
  import TransactionsSeed

  datatype CategorySlice = CategorySlice(name: string, value: real)
  datatype DayFlow = DayFlow(date: string, income: real, expense: real)

  function NameOf(t: Transaction): string {
    Categories.GetCategoryName(t.categoryId)
  }

  predicate Distinct(xs: seq<string>) {
    forall i, j :: 0 <= i < j < |xs| ==> xs[i] != xs[j]
  }

  // ---------------------------------------------------------------- expensesByCategory

  /** `transactions.filter(t => t.type === "expense")`: the expense items, every copy,
      in their original order. */
  function OnlyExpenses(xs: seq<Transaction>): (r: seq<Transaction>)
    ensures Seqs.IsSubsequence(r, xs)
    ensures forall t :: multiset(r)[t] == if t.kind == Expense then multiset(xs)[t] else 0
    ensures forall t :: t in r <==> t in xs && t.kind == Expense
    decreases |xs|
  {
    if xs == [] then []
    else
      var init := xs[..|xs| - 1];
      var p := OnlyExpenses(init);
      var t := xs[|xs| - 1];
      assert xs == init + [t];
      Seqs.SubsequenceSnoc(p, init, t);
      if t.kind == Expense then p + [t] else p
  }

  /** The resolved category names of the expense items, each once, in the order
      they first appear (the insertion order of the source's Map). */
  function CategoryNames(xs: seq<Transaction>): (names: seq<string>)
    ensures Distinct(names)
    decreases |xs|
  {
    if xs == [] then []
    else
      var p := CategoryNames(xs[..|xs| - 1]);
      var t := xs[|xs| - 1];
      if t.kind == Expense && NameOf(t) !in p then p + [NameOf(t)] else p
  }

  /** A name is a group exactly when some expense item's category resolves to it. */
  lemma {:induction false} CategoryNamesMembers(xs: seq<Transaction>)
    ensures forall n :: n in CategoryNames(xs) <==>
              exists k :: 0 <= k < |xs| && xs[k].kind == Expense && NameOf(xs[k]) == n
    decreases |xs|
  {
    if xs != [] {
      CategoryNamesMembers(xs[..|xs| - 1]);
      assert forall k :: 0 <= k < |xs| - 1 ==> xs[..|xs| - 1][k] == xs[k];
    }
  }

  /** Item `k` is an expense whose category resolves to `n`. */
  predicate ExpenseNamedAt(xs: seq<Transaction>, k: int, n: string) {
    0 <= k < |xs| && xs[k].kind == Expense && NameOf(xs[k]) == n
  }

  /** The names come in order of first appearance: an earlier name has an expense
      item before any expense item of a later name. */
  lemma {:induction false} CategoryNamesOrder(xs: seq<Transaction>, i: int, j: int)
    requires 0 <= i < j < |CategoryNames(xs)|
    ensures var names := CategoryNames(xs);
            exists k :: ExpenseNamedAt(xs, k, names[i])
                        && forall m :: 0 <= m <= k ==> !ExpenseNamedAt(xs, m, names[j])
    decreases |xs|
  {
    var names := CategoryNames(xs);
    var init := xs[..|xs| - 1];
    var p := CategoryNames(init);
    assert forall k :: 0 <= k < |init| ==> init[k] == xs[k];
    assert names[..|p|] == p;
    if j < |p| {
      CategoryNamesOrder(init, i, j);
      var k :| ExpenseNamedAt(init, k, p[i]) && forall m :: 0 <= m <= k ==> !ExpenseNamedAt(init, m, p[j]);
      assert ExpenseNamedAt(xs, k, names[i]);
      forall m | 0 <= m <= k ensures !ExpenseNamedAt(xs, m, names[j]) {
        assert !ExpenseNamedAt(init, m, p[j]);
      }
    } else {
      CategoryNamesMembers(init);
      assert p[i] in p;
      var k :| 0 <= k < |init| && init[k].kind == Expense && NameOf(init[k]) == p[i];
      assert ExpenseNamedAt(xs, k, names[i]);
      forall m | 0 <= m <= k ensures !ExpenseNamedAt(xs, m, names[j]) {
        assert !ExpenseNamedAt(init, m, names[j]);
      }
    }
  }

  /** Sum of the amounts of the expense items whose category resolves to `name`. */
  function CategoryTotal(xs: seq<Transaction>, name: string): (total: real)
    ensures (forall i :: 0 <= i < |xs| ==> xs[i].amount >= 0.0) ==> total >= 0.0
    ensures (forall i :: 0 <= i < |xs| ==> xs[i].kind != Expense) ==> total == 0.0
    decreases |xs|
  {
    if xs == [] then 0.0
    else
      var t := xs[|xs| - 1];
      CategoryTotal(xs[..|xs| - 1], name) + (if t.kind == Expense && NameOf(t) == name then t.amount else 0.0)
  }

  lemma {:induction false} CategoryTotalOfAbsentName(xs: seq<Transaction>, name: string)
    requires name !in CategoryNames(xs)
    ensures CategoryTotal(xs, name) == 0.0
    decreases |xs|
  {
    if xs != [] {
      CategoryTotalOfAbsentName(xs[..|xs| - 1], name);
    }
  }

  /** Income items play no part: grouping the expense items alone gives the same
      names and the same totals. */
  lemma {:induction false} IncomeIgnored(xs: seq<Transaction>, name: string)
    ensures CategoryNames(OnlyExpenses(xs)) == CategoryNames(xs)
    ensures CategoryTotal(OnlyExpenses(xs), name) == CategoryTotal(xs, name)
    decreases |xs|
  {
    if xs != [] {
      var p := xs[..|xs| - 1];
      var t := xs[|xs| - 1];
      IncomeIgnored(p, name);
      if t.kind == Expense {
        assert (OnlyExpenses(p) + [t])[..|OnlyExpenses(p)|] == OnlyExpenses(p);
      }
    }
  }

  /** The `forEach` over the expense items, accumulating one running sum per
      resolved name in a Map that keeps insertion order. */
  method GroupExpenses(expenses: seq<Transaction>) returns (names: seq<string>, sums: map<string, real>)
    requires forall t :: t in expenses ==> t.kind == Expense
    ensures names == CategoryNames(expenses)
    ensures forall n :: n in sums <==> n in names
    ensures forall n :: n in sums ==> sums[n] == CategoryTotal(expenses, n)
  {
    names := [];
    sums := map[];
    for i := 0 to |expenses|
      invariant names == CategoryNames(expenses[..i])
      invariant forall n :: n in sums <==> n in names
      invariant forall n :: n in sums ==> sums[n] == CategoryTotal(expenses[..i], n)
    {
      var t := expenses[i];
      assert t in expenses;
      assert expenses[..i + 1][..i] == expenses[..i];
      var name := NameOf(t);
      if name !in sums {
        CategoryTotalOfAbsentName(expenses[..i], name);
      }
      var previous := if name in sums then sums[name] else 0.0;
      if name !in names {
        names := names + [name];
      }
      sums := sums[name := previous + t.amount];
    }
    assert expenses[..|expenses|] == expenses;
  }

  /** `expensesByCategory`: one slice per resolved category name among the expense
      items, in first-appearance order, valued at the rounded sum of that name's amounts. */
  method ExpensesByCategory(transactions: seq<Transaction>) returns (slices: seq<CategorySlice>)
    ensures |slices| == |CategoryNames(transactions)|
    ensures forall i :: 0 <= i < |slices| ==>
              slices[i].name == CategoryNames(transactions)[i]
              && slices[i].value == Money.Round2(CategoryTotal(transactions, slices[i].name))
  {
    var expenses := OnlyExpenses(transactions);
    var names, sums := GroupExpenses(expenses);
    IncomeIgnored(transactions, "");
    slices := seq(|names|, k requires 0 <= k < |names| => CategorySlice(names[k], Money.Round2(sums[names[k]])));
    forall i | 0 <= i < |slices|
      ensures slices[i].value == Money.Round2(CategoryTotal(transactions, slices[i].name))
    {
      IncomeIgnored(transactions, names[i]);
    }
  }

  /** Sum of the per-name totals over a list of names. */
  function TotalOver(names: seq<string>, xs: seq<Transaction>): real
    decreases |names|
  {
    if names == [] then 0.0
    else TotalOver(names[..|names| - 1], xs) + CategoryTotal(xs, names[|names| - 1])
  }

  lemma {:induction false} TotalOverAppend(names: seq<string>, p: seq<Transaction>, t: Transaction)
    requires Distinct(names)
    ensures TotalOver(names, p + [t])
            == TotalOver(names, p) + (if t.kind == Expense && NameOf(t) in names then t.amount else 0.0)
    decreases |names|
  {
    assert (p + [t])[..|p|] == p;
    if names != [] {
      var q := names[..|names| - 1];
      assert Distinct(q);
      assert names == q + [names[|names| - 1]];
      TotalOverAppend(q, p, t);
    }
  }

  /** The groups partition the expenses: their unrounded totals add up to the
      summary's expense total. */
  lemma {:induction false} GroupsPartitionExpenses(xs: seq<Transaction>)
    ensures TotalOver(CategoryNames(xs), xs) == Selectors.ExpenseTotal(xs)
    decreases |xs|
  {
    if xs != [] {
      var p := xs[..|xs| - 1];
      var t := xs[|xs| - 1];
      assert xs == p + [t];
      GroupsPartitionExpenses(p);
      var names := CategoryNames(p);
      TotalOverAppend(names, p, t);
      if t.kind == Expense && NameOf(t) !in names {
        CategoryTotalOfAbsentName(p, NameOf(t));
        assert CategoryNames(xs) == names + [NameOf(t)];
        assert (names + [NameOf(t)])[..|names|] == names;
      }
    }
  }

  // ---------------------------------------------------------------- dailyFlow

  /** The dates present in the list, each once, in order of first appearance. */
  function DistinctDates(xs: seq<Transaction>): (ds: seq<string>)
    ensures Distinct(ds)
    decreases |xs|
  {
    if xs == [] then []
    else
      var p := DistinctDates(xs[..|xs| - 1]);
      var t := xs[|xs| - 1];
      if t.date !in p then p + [t.date] else p
  }

  /** A date is listed exactly when some item carries it. */
  lemma {:induction false} DistinctDatesMembers(xs: seq<Transaction>)
    ensures forall d :: d in DistinctDates(xs) <==> exists k :: 0 <= k < |xs| && xs[k].date == d
    decreases |xs|
  {
    if xs != [] {
      DistinctDatesMembers(xs[..|xs| - 1]);
      assert forall k :: 0 <= k < |xs| - 1 ==> xs[..|xs| - 1][k] == xs[k];
    }
  }

  /** Sum of the income amounts dated `d`. */
  function DayIncome(xs: seq<Transaction>, d: string): (total: real)
    ensures (forall i :: 0 <= i < |xs| ==> xs[i].amount >= 0.0) ==> total >= 0.0
    ensures (forall i :: 0 <= i < |xs| ==> xs[i].kind != Income) ==> total == 0.0
    decreases |xs|
  {
    if xs == [] then 0.0
    else
      var t := xs[|xs| - 1];
      DayIncome(xs[..|xs| - 1], d) + (if t.date == d && t.kind == Income then t.amount else 0.0)
  }

  /** Sum of the amounts of the non-income items dated `d`. */
  function DayExpense(xs: seq<Transaction>, d: string): (total: real)
    ensures (forall i :: 0 <= i < |xs| ==> xs[i].amount >= 0.0) ==> total >= 0.0
    ensures (forall i :: 0 <= i < |xs| ==> xs[i].kind == Income) ==> total == 0.0
    decreases |xs|
  {
    if xs == [] then 0.0
    else
      var t := xs[|xs| - 1];
      DayExpense(xs[..|xs| - 1], d) + (if t.date == d && t.kind != Income then t.amount else 0.0)
  }

  lemma {:induction false} DayTotalsOfAbsentDate(xs: seq<Transaction>, d: string)
    requires d !in DistinctDates(xs)
    ensures DayIncome(xs, d) == 0.0 && DayExpense(xs, d) == 0.0
    decreases |xs|
  {
    if xs != [] {
      DayTotalsOfAbsentDate(xs[..|xs| - 1], d);
    }
  }

  lemma DayTotalsAppend(p: seq<Transaction>, t: Transaction)
    ensures forall d :: DayIncome(p + [t], d) == DayIncome(p, d) + (if t.date == d && t.kind == Income then t.amount else 0.0)
    ensures forall d :: DayExpense(p + [t], d) == DayExpense(p, d) + (if t.date == d && t.kind != Income then t.amount else 0.0)
  {
    assert (p + [t])[..|p|] == p;
  }

  /** Each string strictly before the next. */
  predicate Ascending(ds: seq<string>) {
    forall i :: 0 <= i < |ds| - 1 ==> Strings.StrLess(ds[i], ds[i + 1])
  }

  lemma {:induction false} AscendingPairwise(ds: seq<string>, i: int, j: int)
    requires Ascending(ds) && 0 <= i < j < |ds|
    ensures Strings.StrLess(ds[i], ds[j])
    decreases j - i
  {
    if i + 1 < j {
      AscendingPairwise(ds, i + 1, j);
      Strings.StrLessTransitive(ds[i], ds[i + 1], ds[j]);
    }
  }

  /** Places `d` before the first key it does not come after. */
  function InsertDate(d: string, ds: seq<string>): (r: seq<string>)
    ensures multiset(r) == multiset(ds) + multiset{d}
    ensures r != [] && (r[0] == d || (ds != [] && r[0] == ds[0]))
    ensures Ascending(ds) && d !in ds ==> Ascending(r)
  {
    if ds == [] then [d]
    else if !Strings.StrLess(ds[0], d) then
      Strings.StrLessTrichotomy(d, ds[0]);
      [d] + ds
    else
      assert ds == [ds[0]] + ds[1..];
      [ds[0]] + InsertDate(d, ds[1..])
  }

  /** `.sort(([a], [b]) => a.localeCompare(b))` on the date keys, with
      `localeCompare` taken as code-unit order (see README). */
  function SortDates(ds: seq<string>): (r: seq<string>)
    ensures multiset(r) == multiset(ds)
    ensures Distinct(ds) ==> Ascending(r)
  {
    if ds == [] then []
    else
      assert ds == [ds[0]] + ds[1..];
      var rest := SortDates(ds[1..]);
      assert Distinct(ds) ==> ds[0] !in multiset(ds[1..]);
      InsertDate(ds[0], rest)
  }

  /** Running totals `days` (keyed by the dates listed in `dates`) agree with the items `xs`. */
  ghost predicate DaysMatch(xs: seq<Transaction>, dates: seq<string>, days: map<string, (real, real)>) {
    && dates == DistinctDates(xs)
    && (forall d :: d in days <==> d in dates)
    && (forall d :: d in days ==> days[d].0 == DayIncome(xs, d) && days[d].1 == DayExpense(xs, d))
  }

  /** `day.income += t.amount` or `day.expense += t.amount`. */
  function AddTo(day: (real, real), t: Transaction): (r: (real, real))
    ensures r.0 + r.1 == day.0 + day.1 + t.amount
    ensures r.0 != day.0 ==> t.kind == Income
    ensures r.1 != day.1 ==> t.kind != Income
  {
    if t.kind == Income then (day.0 + t.amount, day.1) else (day.0, day.1 + t.amount)
  }

  lemma DistinctDatesAppend(xs: seq<Transaction>, t: Transaction)
    ensures DistinctDates(xs + [t])
            == if t.date in DistinctDates(xs) then DistinctDates(xs) else DistinctDates(xs) + [t.date]
  {
    assert (xs + [t])[..|xs|] == xs;
  }

  /** One step of the accumulation keeps the running totals in agreement. */
  lemma AddToDays(xs: seq<Transaction>, t: Transaction, dates: seq<string>, days: map<string, (real, real)>)
    requires DaysMatch(xs, dates, days)
    ensures t.date in days ==> DaysMatch(xs + [t], dates, days[t.date := AddTo(days[t.date], t)])
    ensures t.date !in days ==> DaysMatch(xs + [t], dates + [t.date], days[t.date := AddTo((0.0, 0.0), t)])
  {
    DayTotalsAppend(xs, t);
    DistinctDatesAppend(xs, t);
    if t.date in days {
      AddToKnownDay(xs, t, dates, days);
    } else {
      DayTotalsOfAbsentDate(xs, t.date);
      AddToNewDay(xs, t, dates, days);
    }
  }

  lemma AddToKnownDay(xs: seq<Transaction>, t: Transaction, dates: seq<string>, days: map<string, (real, real)>)
    requires DaysMatch(xs, dates, days) && t.date in days
    requires DistinctDates(xs + [t]) == dates
    requires forall d :: DayIncome(xs + [t], d) == DayIncome(xs, d) + (if t.date == d && t.kind == Income then t.amount else 0.0)
    requires forall d :: DayExpense(xs + [t], d) == DayExpense(xs, d) + (if t.date == d && t.kind != Income then t.amount else 0.0)
    ensures DaysMatch(xs + [t], dates, days[t.date := AddTo(days[t.date], t)])
  {
  }

  lemma AddToNewDay(xs: seq<Transaction>, t: Transaction, dates: seq<string>, days: map<string, (real, real)>)
    requires DaysMatch(xs, dates, days) && t.date !in days
    requires DistinctDates(xs + [t]) == dates + [t.date]
    requires DayIncome(xs, t.date) == 0.0 && DayExpense(xs, t.date) == 0.0
    requires forall d :: DayIncome(xs + [t], d) == DayIncome(xs, d) + (if t.date == d && t.kind == Income then t.amount else 0.0)
    requires forall d :: DayExpense(xs + [t], d) == DayExpense(xs, d) + (if t.date == d && t.kind != Income then t.amount else 0.0)
    ensures DaysMatch(xs + [t], dates + [t.date], days[t.date := AddTo((0.0, 0.0), t)])
  {
    var ys, m := xs + [t], days[t.date := AddTo((0.0, 0.0), t)];
    forall d | d in m ensures m[d].0 == DayIncome(ys, d) && m[d].1 == DayExpense(ys, d) {
      if d == t.date {
        assert m[d] == if t.kind == Income then (t.amount, 0.0) else (0.0, t.amount);
      }
    }
  }

  /** The `forEach` over all items, accumulating income and expense per date in a
      Map that keeps insertion order. */
  method GroupDays(transactions: seq<Transaction>) returns (dates: seq<string>, days: map<string, (real, real)>)
    ensures DaysMatch(transactions, dates, days)
  {
    dates := [];
    days := map[];
    for i := 0 to |transactions|
      invariant DaysMatch(transactions[..i], dates, days)
    {
      var t := transactions[i];
      assert transactions[..i + 1] == transactions[..i] + [t];
      AddToDays(transactions[..i], t, dates, days);
      var day := (0.0, 0.0);
      if t.date in days {
        day := days[t.date];
      } else {
        dates := dates + [t.date];
      }
      days := days[t.date := AddTo(day, t)];
    }
    assert transactions[..|transactions|] == transactions;
  }

  /** The final `.map`: one entry per sorted date, with both totals rounded. */
  function FlowOf(sorted: seq<string>, days: map<string, (real, real)>): (flow: seq<DayFlow>)
    requires forall d :: d in sorted ==> d in days
    ensures |flow| == |sorted|
    ensures forall i :: 0 <= i < |flow| ==> flow[i].date == sorted[i]
  {
    seq(|sorted|, k requires 0 <= k < |sorted| =>
          DayFlow(sorted[k], Money.Round2(days[sorted[k]].0), Money.Round2(days[sorted[k]].1)))
  }

  lemma SortedDatesMatch(dates: seq<string>)
    ensures forall d :: d in SortDates(dates) <==> d in dates
    ensures |SortDates(dates)| == |dates|
  {
    var sorted := SortDates(dates);
    forall d ensures d in sorted <==> d in dates {
      assert d in sorted <==> d in multiset(sorted);
    }
    assert |multiset(sorted)| == |multiset(dates)|;
  }

  lemma FlowAscending(sorted: seq<string>, days: map<string, (real, real)>)
    requires forall d :: d in sorted ==> d in days
    requires Ascending(sorted)
    ensures var flow := FlowOf(sorted, days);
            forall i, j :: 0 <= i < j < |flow| ==> Strings.StrLess(flow[i].date, flow[j].date)
  {
    var flow := FlowOf(sorted, days);
    forall i, j | 0 <= i < j < |flow| ensures Strings.StrLess(flow[i].date, flow[j].date) {
      AscendingPairwise(sorted, i, j);
    }
  }

  /** Some item of the list is dated `d`. */
  predicate Dated(xs: seq<Transaction>, d: string) {
    exists k :: 0 <= k < |xs| && xs[k].date == d
  }

  /** Some entry of the series is dated `d`. */
  predicate Charted(flow: seq<DayFlow>, d: string) {
    exists i :: 0 <= i < |flow| && flow[i].date == d
  }

  /** Entries carrying the present dates, position by position, chart exactly the
      dates the items carry. */
  lemma FlowCoversDates(transactions: seq<Transaction>, sorted: seq<string>, flow: seq<DayFlow>)
    requires forall d :: d in sorted <==> d in DistinctDates(transactions)
    requires |flow| == |sorted| && forall i :: 0 <= i < |flow| ==> flow[i].date == sorted[i]
    ensures forall i :: 0 <= i < |flow| ==> Dated(transactions, flow[i].date)
    ensures forall k :: 0 <= k < |transactions| ==> Charted(flow, transactions[k].date)
  {
    DistinctDatesMembers(transactions);
    forall i | 0 <= i < |flow| ensures Dated(transactions, flow[i].date) {
      assert sorted[i] in DistinctDates(transactions);
    }
    forall k | 0 <= k < |transactions| ensures Charted(flow, transactions[k].date) {
      assert transactions[k].date in sorted;
      var i :| 0 <= i < |sorted| && sorted[i] == transactions[k].date;
      assert flow[i].date == transactions[k].date;
    }
  }

  lemma FlowValues(transactions: seq<Transaction>, dates: seq<string>, days: map<string, (real, real)>, sorted: seq<string>)
    requires DaysMatch(transactions, dates, days)
    requires forall d :: d in sorted ==> d in dates
    ensures forall d :: d in sorted ==> d in days
    ensures var flow := FlowOf(sorted, days);
            forall i :: 0 <= i < |flow| ==>
              flow[i].income == Money.Round2(DayIncome(transactions, flow[i].date))
              && flow[i].expense == Money.Round2(DayExpense(transactions, flow[i].date))
  {
  }

  /** `dailyFlow`: one entry per date present, strictly ascending, each with the
      rounded income and the rounded non-income total of that date. */
  method DailyFlow(transactions: seq<Transaction>) returns (flow: seq<DayFlow>)
    ensures |flow| == |DistinctDates(transactions)|
    ensures forall i, j :: 0 <= i < j < |flow| ==> Strings.StrLess(flow[i].date, flow[j].date)
    ensures forall i :: 0 <= i < |flow| ==> Dated(transactions, flow[i].date)
    ensures forall k :: 0 <= k < |transactions| ==> Charted(flow, transactions[k].date)
    ensures forall i :: 0 <= i < |flow| ==>
              flow[i].income == Money.Round2(DayIncome(transactions, flow[i].date))
              && flow[i].expense == Money.Round2(DayExpense(transactions, flow[i].date))
  {
    var dates, days := GroupDays(transactions);
    var sorted := SortDates(dates);
    SortedDatesMatch(dates);
    assert forall d :: d in sorted ==> d in days;
    FlowValues(transactions, dates, days, sorted);
    flow := FlowOf(sorted, days);
    FlowAscending(sorted, days);
    FlowCoversDates(transactions, sorted, flow);
  }

  // ---------------------------------------------------------------- the demo data

  /** The seed's two expenses land in two groups, in list order. */
  lemma SeedExpenseGroups(clock: TransactionsSeed.SeedClock)
    ensures var s := TransactionsSeed.Seed(clock);
            && CategoryNames(s) == ["Mercado", "Transporte"]
            && Money.Round2(CategoryTotal(s, "Mercado")) == 1200.0
            && Money.Round2(CategoryTotal(s, "Transporte")) == 350.0
  {
    SeedCategoryNames(clock);
    SeedCategoryTotals(clock);
  }

  lemma SeedCategoryNames(clock: TransactionsSeed.SeedClock)
    ensures CategoryNames(TransactionsSeed.Seed(clock)) == ["Mercado", "Transporte"]
  {
    var s := TransactionsSeed.Seed(clock);
    Categories.SampleNames();
    assert s[..2][..1] == s[..1] && s[..3] == s && s[..1][..0] == [];
    assert s[0].kind == Income;
    assert s[1].kind == Expense && NameOf(s[1]) == "Mercado";
    assert s[2].kind == Expense && NameOf(s[2]) == "Transporte";
    assert CategoryNames(s[..1]) == [];
    assert CategoryNames(s[..2]) == [] + ["Mercado"];
    assert "Transporte" !in ["Mercado"];
    assert CategoryNames(s) == ["Mercado"] + ["Transporte"];
  }

  lemma SeedCategoryTotals(clock: TransactionsSeed.SeedClock)
    ensures var s := TransactionsSeed.Seed(clock);
            && Money.Round2(CategoryTotal(s, "Mercado")) == 1200.0
            && Money.Round2(CategoryTotal(s, "Transporte")) == 350.0
  {
    var s := TransactionsSeed.Seed(clock);
    Categories.SampleNames();
    assert s[..2][..1] == s[..1] && s[..3] == s && s[..1][..0] == [];
    assert CategoryTotal(s[..1], "Mercado") == 0.0 && CategoryTotal(s[..1], "Transporte") == 0.0;
    assert CategoryTotal(s[..2], "Mercado") == 1200.0 && CategoryTotal(s[..2], "Transporte") == 0.0;
    Money.Round2OfCents(1200.0);
    Money.Round2OfCents(350.0);
  }

  /** The seed has three distinct dates, so the daily series has three points. */
  lemma SeedDates(clock: TransactionsSeed.SeedClock)
    ensures DistinctDates(TransactionsSeed.Seed(clock)) == ["2025-01-05", "2025-01-10", "2025-01-15"]
  {
    var s := TransactionsSeed.Seed(clock);
    assert s[..2][..1] == s[..1] && s[..3] == s && s[..1][..0] == [];
    assert DistinctDates(s[..1]) == ["2025-01-05"];
    assert DistinctDates(s[..2]) == ["2025-01-05", "2025-01-10"];
  }
}
