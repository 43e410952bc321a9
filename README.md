# moneyio-lite ledger core, modelled in Dafny

moneyio-lite is a browser app for recording personal income and expenses.
This project models its core:

- The transaction store. A list of transactions plus the active list filters. Every
  create, update and delete writes the list, wrapped in a versioned envelope, to
  browser storage. The list is kept sorted by date, newest first.
- The read-only views computed from that list:
  - the filtered list (month, type, category, text search);
  - the income/expense/balance summary;
  - the expense-by-category and per-day chart series;
  - the CSV export text.
- The small helpers these rely on: amount rounding, month keys, the category
  catalogue and its name lookup, and the demo seed data.

Amounts are exact reals rounded to cents by `Money.Round2`, which is
`Math.round(x * 100) / 100` written as the floor of `x * 100 + 1/2`. Strings are
`seq<char>`. String comparison with `<`/`>` is the lexicographic `Strings.StrLess`.

Layout, one module per source file:

- `money.dfy`, `dates.dfy`, `month.dfy`
- `categories.dfy` (catalogue and lookup)
- `types.dfy`
- `seed.dfy` (demo transactions)
- `storage.dfy` (a `LocalStorage` class holding a map of decoded slots)
- `store.dfy` (the sort order, the pure list operations, and a `LedgerStore` class
  whose methods replace `items`/`filters` and write storage)
- `selectors.dfy`, `charts.dfy`, `csv.dfy`
- helper modules `wrappers.dfy` (Option), `strings.dfy` (trim, lower-case,
  substring search, string order) and `seqs.dfy` (subsequences)

Values the app reads from the clock or the random generator enter as parameters:

- `now` and `savedAt` timestamps;
- `nowIso` for the default month;
- the seed's creation times (`SeedClock`);
- the new transaction's id.

Behaviour of the code worth knowing, which the model reproduces:

- A created or patched amount is `normalizeAmount(Math.abs(amount))`
  (src/modules/transactions/transactions.store.ts:114 and 139). It can therefore be 0
  (for example 0.004), although the comment at
  src/modules/transactions/transactions.types.ts:13 says amounts are always positive
  (`Store.CreatedAmountCanBeZero`).
- `Math.round` sends halves toward plus infinity: -0.005 rounds to 0 and -1.125 to
  -1.12 (`Money.Round2HalvesGoUp`).
- `deleteTransaction` is a `filter` on the id
  (src/modules/transactions/transactions.store.ts:156), so it removes every item
  carrying the id. On a list with unique ids that is exactly one
  (`Store.RemoveExactlyOne`).
- The first `hydrate` on empty storage installs and persists the seed in its
  literal order (src/modules/transactions/transactions.store.ts:76-79). That order is
  ascending by date, so not sorted. A later `hydrate` sorts it
  (src/modules/transactions/transactions.store.ts:82), so hydrating twice does not
  give the same list twice (`Store.RehydrateAfterSeedReorders`).
- `updateTransaction` persists the patched list before sorting it, so storage may
  hold an unsorted list while `items` is sorted (`Store.UpdatePersistsUnsortedList`).

## Model

| member | source | states |
|---|---|---|
| `Money.Abs` | src/modules/transactions/transactions.store.ts:114 | `Math.abs` keeps finiteness and NaN; a finite result is non-negative and equals the input or its negation; an infinite result is positive |
| `Money.Round2` | src/shared/lib/money.ts:5 | the result is a whole number of cents in the half-open window (x − 0.005, x + 0.005] |
| `Money.Round2Unique` | src/shared/lib/money.ts:5 | exactly one whole number of cents lies in that window, so the window determines the rounding |
| `Money.Round2OfCents` | src/shared/lib/money.ts:5 | a value that is already whole cents is unchanged by rounding |
| `Money.Round2Idempotent` | src/shared/lib/money.ts:5 | rounding twice equals rounding once |
| `Money.Round2Monotone` | src/shared/lib/money.ts:5 | rounding preserves order |
| `Money.Round2HalvesGoUp` | src/shared/lib/money.ts:5 | halves go toward plus infinity: 0.005→0.01, −0.005→0, 1.125→1.13, −1.125→−1.12 |
| `Money.CentsDifference` | src/modules/transactions/transactions.selectors.ts:47 | the difference of two whole-cent values is whole cents |
| `Money.NormalizeAmount` | src/shared/lib/money.ts:2-6 | NaN and ±Infinity give 0; a finite value gives its two-decimal rounding |
| `Money.NormalizedIsCents` | src/shared/lib/money.ts:2-6 | every normalized amount is a whole number of cents |
| `Money.NormalizeIdempotent` | src/shared/lib/money.ts:2-6 | normalizing a normalized amount changes nothing |
| `Money.NormalizeMonotone` | src/shared/lib/money.ts:5 | normalization preserves order on finite inputs |
| `Money.NormalizeNonNegative` | src/shared/lib/money.ts:5 | a non-negative input stays non-negative, is within half a cent, and anything below 0.005 becomes 0 |
| `Money.NormalizeAbs` | src/modules/transactions/transactions.store.ts:114 | `normalizeAmount(Math.abs(a))` is non-negative whole cents, within half a cent of \|a\| when finite |
| `Dates.Slice` | src/shared/lib/dates.ts:6 | `slice(0, n)` is the prefix of length min(n, \|s\|) |
| `Dates.GetMonthKey` | src/shared/lib/dates.ts:4-7 | the month key is a prefix of the date, 7 characters long unless the date is shorter |
| `Dates.GetMonthKeyOfDate` | src/shared/lib/dates.ts:4-7 | for a "YYYY-MM-DD" date the key is a well-formed "YYYY-MM" |
| `Dates.GetMonthKeyIdempotent` | src/shared/lib/dates.ts:6 | taking the month key of a month key changes nothing |
| `Month.ToMonthKey` | src/shared/lib/month.ts:4-7 | a prefix of the input: the whole input up to 7 characters, otherwise exactly 7 |
| `Month.ToMonthKeyOfMonthKey` | src/shared/lib/month.ts:4-7 | a well-formed "YYYY-MM" is returned unchanged |
| `Month.ToMonthKeyIdempotent` | src/shared/lib/month.ts:6 | applying it twice equals applying it once |
| `Month.ToMonthKeyIsGetMonthKey` | src/shared/lib/month.ts:6 | `toMonthKey` and `getMonthKey` compute the same slice |
| `Categories.NameById` | src/modules/categories/categories.utils.ts:4 | the Map built from the catalogue has exactly the catalogue's ids as keys |
| `Categories.NameByIdFinds` | src/modules/categories/categories.utils.ts:4 | with distinct ids, each entry's id maps to that entry's name |
| `Categories.GetCategoryName` | src/modules/categories/categories.utils.ts:6-8 | a known id gives its catalogue name; any other id is returned unchanged |
| `Categories.CatalogueSize` | src/modules/categories/categories.seed.ts:7-20 | the catalogue has 12 entries |
| `Categories.CatalogueIdsDistinct` | src/modules/categories/categories.seed.ts:7-20 | no two entries share an id |
| `Categories.CatalogueNamesDistinct` | src/modules/categories/categories.seed.ts:7-20 | no two entries share a name |
| `Categories.CataloguePrefixes` | src/modules/categories/categories.seed.ts:7-20 | every id starts with "cat_" and no name does |
| `Categories.KnownIdResolves` | src/modules/categories/categories.utils.ts:4-7 | every catalogue id resolves to its own name |
| `Categories.SampleNames` | src/modules/categories/categories.seed.ts:8-16 | cat_market→Mercado, cat_transport→Transporte, cat_salary→Salário |
| `Categories.FallbackExactlyForUnknown` | src/modules/categories/categories.utils.ts:7 | the lookup returns its argument exactly when the argument is no catalogue id |
| `TransactionsSeed.Seed` | src/modules/transactions/transactions.seed.ts:4-35 | the demo list has three transactions |
| `TransactionsSeed.SeedIds` | src/modules/transactions/transactions.seed.ts:6-26 | the ids are seed-1, seed-2 and seed-3, pairwise distinct |
| `TransactionsSeed.SeedDocumented` | src/modules/transactions/transactions.seed.ts:8-29 | every amount is positive and every date is a well-formed ISO date |
| `TransactionsSeed.SeedMonths` | src/modules/transactions/transactions.seed.ts:9-29 | every date falls in the month 2025-01 |
| `TransactionsSeed.SeedCategoriesKnown` | src/modules/transactions/transactions.seed.ts:10-30 | every category id is in the catalogue, so it resolves to a name other than itself |
| `TransactionsSeed.SeedAscending` | src/modules/transactions/transactions.seed.ts:9-29 | the seed's dates are strictly ascending in list order |
| `Strings.TrimStart` | src/modules/transactions/transactions.selectors.ts:9 | drops exactly the leading whitespace |
| `Strings.TrimEnd` | src/modules/transactions/transactions.selectors.ts:9 | drops exactly the trailing whitespace |
| `Strings.Trim` | src/modules/transactions/transactions.selectors.ts:9 | the result is an infix of the input, everything cut away is whitespace, and it neither starts nor ends with whitespace |
| `Strings.TrimEmptyIffBlank` | src/modules/transactions/transactions.store.ts:117 | trimming gives "" exactly when the text is all whitespace |
| `Strings.ToLower` | src/modules/transactions/transactions.selectors.ts:22 | same length, each character lower-cased |
| `Strings.Contains` | src/modules/transactions/transactions.selectors.ts:23 | `includes` holds exactly when the needle occurs at some position |
| `Strings.StrLess` | src/modules/transactions/transactions.store.ts:47-50 | a proper prefix is below the longer string, so a date sorts below a longer key it begins; the order laws are the lemmas below |
| `Strings.StrLessAt` | src/modules/transactions/transactions.store.ts:47-48 | strings that agree up to position k and differ there are ordered by that character |
| `Strings.StrLessIrreflexive` | src/modules/transactions/transactions.store.ts:47-48 | no string is below itself |
| `Strings.StrLessAsymmetric` | src/modules/transactions/transactions.store.ts:47-48 | two strings are never below each other |
| `Strings.StrLessTransitive` | src/modules/transactions/transactions.store.ts:47-48 | the string order is transitive |
| `Strings.StrLessTrichotomy` | src/modules/transactions/transactions.store.ts:47-48 | any two strings are equal or one is below the other |
| `Seqs.SubsequenceMultiset` | src/modules/transactions/transactions.selectors.ts:13 | a subsequence holds no element more often than the list it came from |
| `Seqs.SubsequenceSnoc` | src/modules/transactions/transactions.selectors.ts:13 | appending an item to the list keeps a subsequence, and appending it to both lists extends it |
| `Storage.ReadStorage` | src/shared/lib/storage.ts:8-33 | data is returned exactly when the slot has a parseable envelope with the expected numeric version and non-null data, and then it is that data |
| `Storage.WriteThenRead` | src/shared/lib/storage.ts:35-47 | after a write, reading at the same version gives the data back, any other version reads as absent, and other keys read as before |
| `Storage.LocalStorage.constructor` | src/shared/lib/storage.ts:13 | the storage starts with the given slots |
| `Storage.LocalStorage.Read` | src/shared/lib/storage.ts:8-33 | reads the current slots by the rules of `ReadStorage` |
| `Storage.LocalStorage.Write` | src/shared/lib/storage.ts:35-47 | overwrites one slot with a fresh envelope and leaves every other slot as it was |
| `Store.CompareByDateDesc` | src/modules/transactions/transactions.store.ts:45-53 | the comparator returns only −1, 0 or 1 |
| `Store.CompareMeaning` | src/modules/transactions/transactions.store.ts:45-53 | 0 exactly when date and updatedAt are equal; −1 exactly when a is later by date, or by updatedAt on the same date; 1 in the mirror case |
| `Store.CompareAntisymmetric` | src/modules/transactions/transactions.store.ts:45-53 | swapping the arguments negates the result; an item compares equal to itself |
| `Store.CompareEarlierDate` | src/modules/transactions/transactions.store.ts:47-48 | an earlier date always sorts after a later one, whatever the timestamps |
| `Store.CompareTransitive` | src/modules/transactions/transactions.store.ts:45-53 | "may go before" is transitive, so the comparator is consistent for `Array.sort` |
| `Store.Sorted` | src/modules/transactions/transactions.store.ts:45-53 | a definition without a contract of its own: each item may go before its successor under `sortByDateDesc`; `SortedPairwise` extends it to every later item |
| `Store.SortedPairwise` | src/modules/transactions/transactions.store.ts:45-53 | in a sorted list every item may go before every later item |
| `Store.Insert` | src/modules/transactions/transactions.store.ts:122 | inserting into a sorted list keeps it sorted and adds exactly one copy of the item |
| `Store.SortByDateDesc` | src/modules/transactions/transactions.store.ts:82 | the sorted list is newest-first and a permutation of the input |
| `Store.SortOfSorted` | src/modules/transactions/transactions.store.ts:82 | sorting an already sorted list leaves it unchanged, since the sort is stable |
| `Store.SubsequenceOfSorted` | src/modules/transactions/transactions.store.ts:156 | dropping items from a sorted list keeps it sorted |
| `Store.CountOnce` | src/modules/transactions/transactions.store.ts:112 | in a list with unique ids every item occurs once |
| `Store.PrependFreshId` | src/modules/transactions/transactions.store.ts:122 | a record whose id is not yet taken keeps the ids unique when put in front |
| `Store.UniqueIdsSubMultiset` | src/modules/transactions/transactions.store.ts:122 | taking part of a list with unique ids keeps ids unique |
| `Store.CleanDescription` | src/modules/transactions/transactions.store.ts:117 | the description is kept, trimmed, exactly when it was given and is not blank; otherwise it becomes undefined |
| `Store.StoredAmount` | src/modules/transactions/transactions.store.ts:114 | the stored amount is non-negative whole cents, 0 for a non-finite input, and within half a cent of the input's absolute value |
| `Store.NewTransaction` | src/modules/transactions/transactions.store.ts:110-120 | the new record takes its id and both timestamps from the parameters; its type, date and category come from the input and its amount and description are cleaned |
| `Store.CreatedAmountCanBeZero` | src/modules/transactions/transactions.store.ts:114 | an input amount of 0.004 is stored as 0, so the record does not have a positive amount |
| `Store.PatchTransaction` | src/modules/transactions/transactions.store.ts:134-146 | id and createdAt are kept and updatedAt becomes now; each patched field replaces the old one, with the amount and description cleaned; absent fields keep their values |
| `Store.PatchNegativeAmount` | src/modules/transactions/transactions.store.ts:139 | a patch amount of −50 is stored as 50 |
| `Store.UpdateItems` | src/modules/transactions/transactions.store.ts:131-149 | same length; items with the id are patched and all others are unchanged, position by position |
| `Store.UpdateUnknownId` | src/modules/transactions/transactions.store.ts:131-132 | an id no item has leaves the list unchanged |
| `Store.UpdateKeepsIds` | src/modules/transactions/transactions.store.ts:134-135 | every position keeps its id, so unique ids stay unique |
| `Store.UpdatePersistsUnsortedList` | src/modules/transactions/transactions.store.ts:151-152 | a sorted pair whose first item's date is patched to earlier than the second's becomes unsorted: the list written to storage need not be sorted |
| `Store.RemoveId` | src/modules/transactions/transactions.store.ts:156 | the result keeps the same order, drops every item with the id and keeps every other item as often as before |
| `Store.RemoveUnknownId` | src/modules/transactions/transactions.store.ts:156 | deleting an id no item has changes nothing |
| `Store.RemoveKeepsOrder` | src/modules/transactions/transactions.store.ts:156 | deleting keeps a sorted list sorted and unique ids unique |
| `Store.RemoveExactlyOne` | src/modules/transactions/transactions.store.ts:156 | with unique ids, deleting a present id shortens the list by exactly one |
| `Store.DefaultFilters` | src/modules/transactions/transactions.store.ts:59-66 | the month is the first seven characters of the current ISO time; search is "", type is "all" and category is "all" |
| `Store.MergeFilters` | src/modules/transactions/transactions.store.ts:182 | each field present in the patch replaces the old one; absent fields are kept |
| `Store.MergeEmptyPatch` | src/modules/transactions/transactions.store.ts:182 | an empty patch changes nothing |
| `Store.SortTwoReversed` | src/modules/transactions/transactions.store.ts:97 | two items in ascending order are swapped by the sort |
| `Store.SortThreeReversed` | src/modules/transactions/transactions.store.ts:97 | three items in strictly ascending order are reversed by the sort |
| `Store.SeedOrder` | src/modules/transactions/transactions.store.ts:76-82 | the seed is not sorted newest-first, and sorting it reverses it |
| `Store.RehydrateAfterSeedReorders` | src/modules/transactions/transactions.store.ts:73-83 | after the seed path persists the seed, the next hydrate reads it back and sorts it into a different order |
| `Store.LedgerStore.constructor` | src/modules/transactions/transactions.store.ts:70-71 | the store starts with no items and the default filters |
| `Store.LedgerStore.Persist` | src/modules/transactions/transactions.store.ts:55-57 | writes the list under "moneyio.transactions" at version 1 and changes no other slot |
| `Store.LedgerStore.Hydrate` | src/modules/transactions/transactions.store.ts:73-83 | missing, unreadable, wrong-version or empty data installs and persists the seed as it is; otherwise the loaded list is sorted newest-first and storage is untouched; filters are unchanged |
| `Store.LedgerStore.ResetAll` | src/modules/transactions/transactions.store.ts:85-95 | the list becomes empty and is persisted, and the filters are reset |
| `Store.LedgerStore.ResetToDemo` | src/modules/transactions/transactions.store.ts:96-107 | the list becomes the sorted seed and is persisted, and the filters are reset |
| `Store.LedgerStore.CreateTransaction` | src/modules/transactions/transactions.store.ts:109-126 | returns the new record; the list becomes the sorted list of that record plus the old items, keeps unique ids, and is persisted |
| `Store.LedgerStore.UpdateTransaction` | src/modules/transactions/transactions.store.ts:128-153 | persists the patched list before sorting; the items become that list sorted; ids stay unique; an unknown id changes no item |
| `Store.LedgerStore.DeleteTransaction` | src/modules/transactions/transactions.store.ts:155-159 | removes every item with the id and persists the result, preserving order and unique ids; an unknown id changes nothing |
| `Store.LedgerStore.SetMonth` | src/modules/transactions/transactions.store.ts:161-168 | only the month filter changes |
| `Store.LedgerStore.SetSearch` | src/modules/transactions/transactions.store.ts:170-177 | only the search filter changes |
| `Store.LedgerStore.SetFilters` | src/modules/transactions/transactions.store.ts:179-186 | the filters become the old filters merged with the patch |
| `Store.LedgerStore.SetTypeFilter` | src/modules/transactions/transactions.store.ts:188-195 | only the type filter changes; undefined becomes "all" |
| `Store.LedgerStore.SetCategoryFilter` | src/modules/transactions/transactions.store.ts:197-204 | only the category filter changes; undefined becomes "all" |
| `Store.LedgerStore.ClearOptionalFilters` | src/modules/transactions/transactions.store.ts:206-218 | search, type and category are reset, and the month and items are kept |
| `Selectors.FilterWith` | src/modules/transactions/transactions.selectors.ts:13-27 | the kept items are, in their original order and with every copy, exactly the input items that pass the test |
| `Selectors.FilterTransactions` | src/modules/transactions/transactions.selectors.ts:5-28 | the result is a subsequence of the input; everything kept is in the filter's month; an item is kept, with every copy, exactly when it passes the test with the trimmed, lower-cased search text |
| `Selectors.SearchText` | src/modules/transactions/transactions.selectors.ts:9 | the prepared search text is empty exactly when the search is absent or all whitespace |
| `Selectors.Keeps` | src/modules/transactions/transactions.selectors.ts:13-27 | an item that passes is in the filter's month; with type and category absent and a blank search the month alone decides |
| `Selectors.FilterSemantics` | src/modules/transactions/transactions.selectors.ts:9-24 | with "all"/absent type and category and a blank search only the month matters; a type or category other than "all" excludes non-matching items; a kept item with a search text contains it in its lower-cased description |
| `Selectors.FilterIdempotent` | src/modules/transactions/transactions.selectors.ts:5-28 | filtering twice with the same filters equals filtering once |
| `Selectors.FilterWithIdempotent` | src/modules/transactions/transactions.selectors.ts:13-27 | applying the same test twice equals applying it once |
| `Selectors.FilterKeepsAll` | src/modules/transactions/transactions.selectors.ts:13-27 | when every item passes, the list comes back unchanged |
| `Selectors.KeepsByMonth` | src/modules/transactions/transactions.selectors.ts:14-24 | with type and category "all" and no search, an item of the filter's month passes |
| `Selectors.SeedFilter` | src/modules/transactions/transactions.selectors.ts:5-28 | filtering the seed by month 2025-01 with default options keeps all three items |
| `Selectors.FilterKeepsStoreOrder` | src/modules/transactions/transactions.selectors.ts:13 | filtering a newest-first list keeps it newest-first |
| `Selectors.IncomeTotal` | src/modules/transactions/transactions.selectors.ts:38-39 | non-negative when every amount is, and zero when the list holds no income item |
| `Selectors.ExpenseTotal` | src/modules/transactions/transactions.selectors.ts:38-40 | non-negative when every amount is, and zero when every item is income: everything that is not income counts as expense |
| `Selectors.TotalsStep` | src/modules/transactions/transactions.selectors.ts:38-41 | one more item adds its amount to the income total when it is income and to the expense total otherwise |
| `Selectors.ComputeSummary` | src/modules/transactions/transactions.selectors.ts:30-50 | income is the rounded sum of income amounts; expense is the rounded sum of all other amounts; balance is the rounded difference of the two rounded totals |
| `Selectors.BalanceIsExact` | src/modules/transactions/transactions.selectors.ts:44-47 | the balance equals income − expense exactly, since both are whole cents |
| `Selectors.EmptyTotals` | src/modules/transactions/transactions.selectors.ts:35-45 | an empty list sums to zero income and zero expense |
| `Selectors.SeedSummary` | src/modules/transactions/transactions.selectors.ts:30-50 | the seed gives income 5000, expense 1550 and balance 3450 |
| `Charts.OnlyExpenses` | src/modules/transactions/transactions.charts.ts:8-9 | exactly the expense items are kept, every copy of each, in their original order |
| `Charts.CategoryNames` | src/modules/transactions/transactions.charts.ts:11-12 | the group names are distinct; `CategoryNamesOrder` shows they are in order of first appearance |
| `Charts.CategoryNamesMembers` | src/modules/transactions/transactions.charts.ts:11-12 | a name is a group exactly when some expense item's category resolves to it |
| `Charts.CategoryNamesOrder` | src/modules/transactions/transactions.charts.ts:8-12 | for i < j, some expense item naming names[i] comes before every expense item naming names[j]: the Map's insertion order |
| `Charts.CategoryTotal` | src/modules/transactions/transactions.charts.ts:12 | non-negative when every amount is, and zero when the list holds no expense item |
| `Charts.CategoryTotalOfAbsentName` | src/modules/transactions/transactions.charts.ts:12 | a name with no expense item totals 0, the `?? 0` start |
| `Charts.IncomeIgnored` | src/modules/transactions/transactions.charts.ts:8-9 | grouping only the expense items gives the same names and totals as grouping the whole list |
| `Charts.GroupExpenses` | src/modules/transactions/transactions.charts.ts:10-13 | after the loop the Map's keys are the group names in insertion order and each value is that name's total |
| `Charts.ExpensesByCategory` | src/modules/transactions/transactions.charts.ts:5-19 | one slice per group name, in first-appearance order, valued at the rounded total of the expense amounts resolving to that name |
| `Charts.GroupsPartitionExpenses` | src/modules/transactions/transactions.charts.ts:5-19 | the groups' unrounded totals add up to the summary's expense total |
| `Charts.DistinctDates` | src/modules/transactions/transactions.charts.ts:24-27 | the dates are distinct, listed in order of first appearance |
| `Charts.DistinctDatesMembers` | src/modules/transactions/transactions.charts.ts:24-27 | a date is listed exactly when some item carries it |
| `Charts.DistinctDatesAppend` | src/modules/transactions/transactions.charts.ts:25-27 | one more item adds its date at the end when the date is new, and changes nothing otherwise |
| `Charts.DayTotalsOfAbsentDate` | src/modules/transactions/transactions.charts.ts:25-27 | a date with no items has zero income and zero expense, the `{ income: 0, expense: 0 }` start |
| `Charts.AscendingPairwise` | src/modules/transactions/transactions.charts.ts:35 | in a list where each date is below the next, every date is below every later one |
| `Charts.InsertDate` | src/modules/transactions/transactions.charts.ts:35 | inserting a new date into an ascending list keeps it ascending and adds exactly that date |
| `Charts.SortDates` | src/modules/transactions/transactions.charts.ts:34-35 | the sort permutes the dates and puts distinct dates in strictly ascending order |
| `Charts.DayIncome` | src/modules/transactions/transactions.charts.ts:30 | non-negative when every amount is, and zero when the list holds no income item |
| `Charts.DayExpense` | src/modules/transactions/transactions.charts.ts:31 | non-negative when every amount is, and zero when every item is income |
| `Charts.AddTo` | src/modules/transactions/transactions.charts.ts:29-31 | the day's two totals grow by exactly the item's amount, on the income side only for income and on the expense side only for the rest |
| `Charts.AddToDays` | src/modules/transactions/transactions.charts.ts:25-31 | adding one item to its day's totals keeps the Map in agreement with the items seen so far |
| `Charts.GroupDays` | src/modules/transactions/transactions.charts.ts:24-32 | after the loop the Map's keys are the distinct dates and each day holds that date's income and non-income sums |
| `Charts.SortedDatesMatch` | src/modules/transactions/transactions.charts.ts:34-35 | sorting neither adds nor loses dates |
| `Charts.FlowOf` | src/modules/transactions/transactions.charts.ts:36-40 | one entry per sorted date, carrying that date, in the same order |
| `Charts.FlowCoversDates` | src/modules/transactions/transactions.charts.ts:34-40 | every output date is an input date and every input date appears in the output, with no gap filling |
| `Charts.FlowValues` | src/modules/transactions/transactions.charts.ts:36-40 | each entry carries the rounded income and rounded non-income totals of its date |
| `Charts.DailyFlow` | src/modules/transactions/transactions.charts.ts:21-41 | one entry per distinct date, strictly ascending, covering exactly the input dates, each with its rounded income and non-income totals |
| `Charts.SeedExpenseGroups` | src/modules/transactions/transactions.charts.ts:5-19 | the seed's expenses form the groups Mercado 1200 and Transporte 350, in that order |
| `Charts.SeedCategoryNames` | src/modules/transactions/transactions.charts.ts:8-13 | the seed's expense groups are Mercado then Transporte |
| `Charts.SeedCategoryTotals` | src/modules/transactions/transactions.charts.ts:12-17 | the seed's Mercado total rounds to 1200 and its Transporte total to 350 |
| `Charts.SeedDates` | src/modules/transactions/transactions.charts.ts:24-27 | the seed has the three dates 2025-01-05, 2025-01-10 and 2025-01-15 |
| `Csv.Keys` | src/shared/lib/csv.ts:5 | one header per property, in property order |
| `Csv.Render` | src/shared/lib/csv.ts:9 | the rendered text is "undefined" or the value of some property with that key; `RenderMissing` and `RenderFound` say which |
| `Csv.RenderMissing` | src/shared/lib/csv.ts:9 | a key the row lacks renders as "undefined" |
| `Csv.RenderFound` | src/shared/lib/csv.ts:9 | a key the row has renders as its value, or "undefined" when the value is undefined |
| `Csv.Join` | src/shared/lib/csv.ts:7-11 | a definition without a contract of its own: `JoinStartsWith`, `JoinEndsWith` and `SplitJoin` state its ends and its inverse |
| `Csv.JoinStartsWith` | src/shared/lib/csv.ts:7-11 | a join begins with its first part |
| `Csv.EscapeQuotes` | src/shared/lib/csv.ts:9 | escaping never shortens a text; `QuotedRoundTrip` shows that reading back undoes it |
| `Csv.EscapeQuotesPlain` | src/shared/lib/csv.ts:9 | a text without double quotes is left unchanged |
| `Csv.Quote` | src/shared/lib/csv.ts:9 | a field is wrapped in double quotes |
| `Csv.QuoteAll` | src/shared/lib/csv.ts:9 | each value of a line is quoted, in order |
| `Csv.DataLine` | src/shared/lib/csv.ts:9 | with at least one header, a data line begins and ends with a double quote |
| `Csv.DataLines` | src/shared/lib/csv.ts:8-10 | one data line per row, in row order |
| `Csv.Values` | src/shared/lib/csv.ts:8-9 | a data line has one value per header, in header order |
| `Csv.CsvText` | src/shared/lib/csv.ts:3-11 | there is no text exactly when the row list is empty |
| `Csv.CsvTextLines` | src/shared/lib/csv.ts:6-11 | the text is the header line, a line feed, then the data lines joined by line feeds |
| `Csv.HeaderThenBody` | src/shared/lib/csv.ts:7-11 | in a text whose header line has no line feed, the first line feed follows the header, and header and body can be cut back out |
| `Csv.QuotedRoundTrip` | src/shared/lib/csv.ts:9 | reading an escaped field back undoubles its quotes and stops at the closing quote |
| `Csv.LastFieldRoundTrip` | src/shared/lib/csv.ts:9 | a quoted field at the end of a line reads back as the line's only value |
| `Csv.NextFieldRoundTrip` | src/shared/lib/csv.ts:9 | a quoted field, a comma and a readable line read back with the field's value in front |
| `Csv.LineRoundTrip` | src/shared/lib/csv.ts:9 | reading back a line of comma-joined quoted fields gives the field values |
| `Csv.RowsRoundTrip` | src/shared/lib/csv.ts:8-11 | reading back newline-joined data lines gives the rows' values |
| `Csv.SplitJoin` | src/shared/lib/csv.ts:7 | splitting the joined header line at commas gives the keys back when no key has a comma |
| `Csv.CsvRoundTrip` | src/shared/lib/csv.ts:3-11 | reading the text back gives the first row's keys and, for every row, its rendered values in header order (keys the first row lacks are dropped), provided some key exists and no key has a comma or line feed |
| `Csv.NoTrailingNewline` | src/shared/lib/csv.ts:6-11 | the text ends with a closing quote, not a line feed |
| `Csv.LastDataLineEndsWithQuote` | src/shared/lib/csv.ts:8-9 | with at least one header, the last data line ends with a closing quote |
| `Csv.LastLineEndsWith` | src/shared/lib/csv.ts:10 | the lines joined under the header end as the last line ends |
| `Csv.JoinEndsWith` | src/shared/lib/csv.ts:9-10 | a join ends with the last character of its last part |
| `Csv.HeaderLine` | src/shared/lib/csv.ts:5-7 | the text starts with the first row's keys joined by commas, unquoted, then a line feed |

## Left out

- Amounts are exact reals. IEEE-754 binary rounding errors are not reproduced, so a
  float sum that lands just below a half cent may round differently in the app.
- `Strings.Trim` and `Strings.ToLower` handle the ASCII whitespace, NBSP and BOM
  only, and lower-case ASCII letters only. `String.prototype.trim` and
  `toLowerCase` are Unicode-aware.
- String order is lexicographic by character. JavaScript's `<` compares UTF-16 code
  units, and `localeCompare` in `dailyFlow` is locale-aware. For the fixed-width
  "YYYY-MM-DD" dates the three agree.
- Storage holds decoded values. `JSON.parse`/`JSON.stringify` are not modelled, and
  neither is a payload whose `data` is not an array. A falsy one (0, false, "")
  passes `parsed.data ?? null` (src/shared/lib/storage.ts:29) and takes the reseed
  path at src/modules/transactions/transactions.store.ts:76 without throwing. A
  truthy non-array reaches `.sort` at line 82 and throws. Quota exceptions from
  `setItem` are not modelled either.
- `createId` (`src/shared/lib/id.ts`) draws on the clock and randomness. The new id
  is a parameter, and `Store.LedgerStore.CreateTransaction` requires that no item
  already has it.
- `Store.MergeFilters` reads a patch field holding an explicit `undefined` as an
  absent key and keeps the old value. The spread at
  src/modules/transactions/transactions.store.ts:182 copies the `undefined`:
  `search: undefined` clears the search, and `month: undefined` makes the month
  undefined, after which no item passes the month test.
- `Store.LedgerStore.SetFilters` inherits that gap from `Store.MergeFilters`.
- `Dates.Slice`, `Dates.GetMonthKey` and `Month.ToMonthKey` count characters, where
  JavaScript's `slice` counts UTF-16 code units. The two differ only for text
  outside the Basic Multilingual Plane, never for ISO dates or month keys.
- `Store.LedgerStore.UpdateTransaction` does not model an explicit `undefined`
  value for `type`, `date` or `categoryId` in the patch object. The spread would
  copy it over the old value; the model treats it as an absent key.
- Clocks: `nowISOString`, `todayISO` and `new Date()` enter as parameters. The model
  does not relate successive timestamps, for example updatedAt never preceding
  createdAt.
- The zustand `set`/`get` plumbing and devtools action names are not modelled. The
  store is a class whose methods assign its fields.
- `Array.prototype.sort` works in place. It is modelled as a stable insertion-sort
  function on values, because every array sorted by the store or the charts is
  fresh and unaliased.
- In `dailyFlow` the per-day objects are mutated through the Map (`day.income +=`).
  `Charts.GroupDays` holds the Map as a `map` from date to value pairs and replaces
  the pair.
- In `exportCSV`, `String(value)` of numbers and other non-string values is not
  modelled; a row field carries its already-stringified text. The `Blob`, object
  URL and link-click download are browser side effects and are left out.
- `Csv.CsvRoundTrip` requires at least one key, and keys free of commas and line
  feeds. The header line is not quoted, so other keys cannot be read back.
- The React pages and components are rendering code. Among them are the pie
  chart's top-5 bucketing and the form's number parsing, which are not modelled.
