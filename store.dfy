/** The ledger store (src/modules/transactions/transactions.store.ts): the
    transaction list and the filters, the actions that replace them, and the
    order the list is kept in. Clock readings and fresh ids are parameters. */
module Store {
  import opened Wrappers
  import opened Types
  import Money
  import Strings
  import Dates
  import Seqs
  import Storage
  import TransactionsSeed

  const StorageKey: string := "moneyio.transactions"
  const StorageVersion: real := 1.0

  // ---------------------------------------------------------------- ordering

  /** `sortByDateDesc`: -1 when `a` goes first, 1 when `b` does, 0 on a tie. */
  function CompareByDateDesc(a: Transaction, b: Transaction): (r: int)
    ensures r == -1 || r == 0 || r == 1
  {
    if Strings.StrLess(b.date, a.date) then -1
    else if Strings.StrLess(a.date, b.date) then 1
    else if Strings.StrLess(b.updatedAt, a.updatedAt) then -1
    else if Strings.StrLess(a.updatedAt, b.updatedAt) then 1
    else 0
  }

  /** The later date goes first; on equal dates the later `updatedAt` goes first;
      the result is 0 exactly when both keys are equal. */
  lemma CompareMeaning(a: Transaction, b: Transaction)
    ensures CompareByDateDesc(a, b) == 0 <==> a.date == b.date && a.updatedAt == b.updatedAt
    ensures CompareByDateDesc(a, b) == -1 <==>
              Strings.StrLess(b.date, a.date) || (a.date == b.date && Strings.StrLess(b.updatedAt, a.updatedAt))
    ensures CompareByDateDesc(a, b) == 1 <==>
              Strings.StrLess(a.date, b.date) || (a.date == b.date && Strings.StrLess(a.updatedAt, b.updatedAt))
  {
    Strings.StrLessTrichotomy(a.date, b.date);
    Strings.StrLessTrichotomy(a.updatedAt, b.updatedAt);
    Strings.StrLessAsymmetric(a.date, b.date);
    Strings.StrLessAsymmetric(a.updatedAt, b.updatedAt);
    Strings.StrLessIrreflexive(a.date);
    Strings.StrLessIrreflexive(a.updatedAt);
  }

  /** Swapping the arguments negates the comparison; an item compares equal to itself. */
  lemma CompareAntisymmetric(a: Transaction, b: Transaction)
    ensures CompareByDateDesc(a, b) == -CompareByDateDesc(b, a)
    ensures CompareByDateDesc(a, a) == 0
  {
    Strings.StrLessAsymmetric(a.date, b.date);
    Strings.StrLessAsymmetric(a.updatedAt, b.updatedAt);
    Strings.StrLessIrreflexive(a.date);
    Strings.StrLessIrreflexive(a.updatedAt);
  }

  /** An item dated strictly earlier goes after. */
  lemma CompareEarlierDate(a: Transaction, b: Transaction)
    requires Strings.StrLess(a.date, b.date)
    ensures CompareByDateDesc(a, b) == 1 && CompareByDateDesc(b, a) == -1
  {
    Strings.StrLessAsymmetric(a.date, b.date);
  }

  /** "May go before" is transitive, so the comparator is a consistent total preorder. */
  lemma CompareTransitive(a: Transaction, b: Transaction, c: Transaction)
    requires CompareByDateDesc(a, b) <= 0 && CompareByDateDesc(b, c) <= 0
    ensures CompareByDateDesc(a, c) <= 0
  {
    StrLessFacts(a.date, b.date, c.date);
    StrLessFacts(a.updatedAt, b.updatedAt, c.updatedAt);
    CompareMeaning(a, b);
    CompareMeaning(b, c);
    CompareMeaning(a, c);
  }

  /** Every ordering fact about three strings that the comparator's proofs need. */
  lemma StrLessFacts(x: string, y: string, z: string)
    ensures !Strings.StrLess(x, x) && !Strings.StrLess(y, y) && !Strings.StrLess(z, z)
    ensures Strings.StrLess(x, y) || x == y || Strings.StrLess(y, x)
    ensures Strings.StrLess(y, z) || y == z || Strings.StrLess(z, y)
    ensures Strings.StrLess(x, z) || x == z || Strings.StrLess(z, x)
    ensures Strings.StrLess(x, y) && Strings.StrLess(y, z) ==> Strings.StrLess(x, z)
    ensures Strings.StrLess(z, y) && Strings.StrLess(y, x) ==> Strings.StrLess(z, x)
    ensures Strings.StrLess(y, x) && Strings.StrLess(x, z) ==> Strings.StrLess(y, z)
    ensures Strings.StrLess(z, x) && Strings.StrLess(x, y) ==> Strings.StrLess(z, y)
    ensures Strings.StrLess(x, z) && Strings.StrLess(z, y) ==> Strings.StrLess(x, y)
    ensures Strings.StrLess(y, z) && Strings.StrLess(z, x) ==> Strings.StrLess(y, x)
  {
    Strings.StrLessIrreflexive(x);
    Strings.StrLessIrreflexive(y);
    Strings.StrLessIrreflexive(z);
    Strings.StrLessTrichotomy(x, y);
    Strings.StrLessTrichotomy(y, z);
    Strings.StrLessTrichotomy(x, z);
    if Strings.StrLess(x, y) && Strings.StrLess(y, z) { Strings.StrLessTransitive(x, y, z); }
    if Strings.StrLess(z, y) && Strings.StrLess(y, x) { Strings.StrLessTransitive(z, y, x); }
    if Strings.StrLess(y, x) && Strings.StrLess(x, z) { Strings.StrLessTransitive(y, x, z); }
    if Strings.StrLess(z, x) && Strings.StrLess(x, y) { Strings.StrLessTransitive(z, x, y); }
    if Strings.StrLess(x, z) && Strings.StrLess(z, y) { Strings.StrLessTransitive(x, z, y); }
    if Strings.StrLess(y, z) && Strings.StrLess(z, x) { Strings.StrLessTransitive(y, z, x); }
  }

  /** The order the list is kept in: every item may go before its successor
      (later date first, then later `updatedAt` first). */
  predicate Sorted(xs: seq<Transaction>) {
    forall i :: 0 <= i < |xs| - 1 ==> CompareByDateDesc(xs[i], xs[i + 1]) <= 0
  }

  /** In a sorted list every item may go before every later item, not only its successor. */
  lemma {:induction false} SortedPairwise(xs: seq<Transaction>, i: int, j: int)
    requires Sorted(xs) && 0 <= i < j < |xs|
    ensures CompareByDateDesc(xs[i], xs[j]) <= 0
    decreases j - i
  {
    if i + 1 < j {
      SortedPairwise(xs, i + 1, j);
      CompareTransitive(xs[i], xs[i + 1], xs[j]);
    }
  }

  /** Inserts `x` before the first item it may go before. Placing it ahead of the
      items it ties with keeps the sort below stable. */
  function Insert(x: Transaction, ys: seq<Transaction>): (r: seq<Transaction>)
    ensures |r| == |ys| + 1
    ensures multiset(r) == multiset(ys) + multiset{x}
    ensures r[0] == x || (ys != [] && r[0] == ys[0])
    ensures Sorted(ys) ==> Sorted(r)
  {
    if ys == [] then [x]
    else if CompareByDateDesc(x, ys[0]) <= 0 then [x] + ys
    else
      var rest := Insert(x, ys[1..]);
      assert ys == [ys[0]] + ys[1..];
      CompareAntisymmetric(x, ys[0]);
      [ys[0]] + rest
  }

  /** `Array.prototype.sort(sortByDateDesc)`: a stable sort, which is what the
      ECMAScript specification has required since 2019. */
  function SortByDateDesc(xs: seq<Transaction>): (r: seq<Transaction>)
    ensures Sorted(r)
    ensures multiset(r) == multiset(xs)
    ensures |r| == |xs|
  {
    if xs == [] then []
    else
      assert xs == [xs[0]] + xs[1..];
      Insert(xs[0], SortByDateDesc(xs[1..]))
  }

  /** Sorting a list that is already in order leaves it exactly as it is. */
  lemma {:induction false} SortOfSorted(xs: seq<Transaction>)
    requires Sorted(xs)
    ensures SortByDateDesc(xs) == xs
  {
    if xs != [] {
      SortOfSorted(xs[1..]);
      assert xs == [xs[0]] + xs[1..];
    }
  }

  /** A subsequence of a sorted list is sorted. */
  lemma {:induction false} SubsequenceOfSorted(a: seq<Transaction>, b: seq<Transaction>)
    requires Seqs.IsSubsequence(a, b) && Sorted(b)
    ensures Sorted(a)
    decreases |b|
  {
    if a != [] && b != [] {
      assert Sorted(b[1..]);
      if a[0] == b[0] {
        SubsequenceOfSorted(a[1..], b[1..]);
        if |a| > 1 {
          Seqs.SubsequenceMultiset(a[1..], b[1..]);
          assert a[1] in multiset(b[1..]);
          var k :| 0 <= k < |b| - 1 && b[1..][k] == a[1];
          SortedPairwise(b, 0, k + 1);
        }
      } else {
        SubsequenceOfSorted(a, b[1..]);
      }
    }
  }

  // ---------------------------------------------------------------- ids

  function IdSet(xs: seq<Transaction>): set<string> {
    set t | t in xs :: t.id
  }

  /** No two items share an id. */
  predicate UniqueIds(xs: seq<Transaction>) {
    forall i, j :: 0 <= i < j < |xs| ==> xs[i].id != xs[j].id
  }

  /** An element found at two positions is counted at least twice. */
  lemma CountTwice(b: seq<Transaction>, i: int, j: int)
    requires 0 <= i < j < |b| && b[i] == b[j]
    ensures multiset(b)[b[i]] >= 2
  {
    assert b == b[..j] + b[j..];
    assert b[i] in b[..j] && b[j] in b[j..];
  }

  /** In a list with unique ids each element occurs once. */
  lemma CountOnce(a: seq<Transaction>, p: int)
    requires UniqueIds(a) && 0 <= p < |a|
    ensures multiset(a)[a[p]] == 1
  {
    assert a == a[..p] + [a[p]] + a[p + 1..];
    assert a[p] !in a[..p];
    assert a[p] !in a[p + 1..];
  }

  /** Taking elements from a list with unique ids (with multiplicity) keeps ids unique. */
  lemma UniqueIdsSubMultiset(a: seq<Transaction>, b: seq<Transaction>)
    requires multiset(b) <= multiset(a) && UniqueIds(a)
    ensures UniqueIds(b)
  {
    forall i, j | 0 <= i < j < |b| ensures b[i].id != b[j].id {
      if b[i].id == b[j].id {
        assert b[i] in multiset(a) && b[j] in multiset(a);
        var p :| 0 <= p < |a| && a[p] == b[i];
        var q :| 0 <= q < |a| && a[q] == b[j];
        assert p == q;
        CountTwice(b, i, j);
        CountOnce(a, p);
        assert false;
      }
    }
  }

  /** A record whose id is not yet taken keeps the ids unique when put in front. */
  lemma PrependFreshId(x: Transaction, xs: seq<Transaction>)
    requires x.id !in IdSet(xs) && UniqueIds(xs)
    ensures UniqueIds([x] + xs)
  {
    forall j | 0 < j < |xs| + 1 ensures ([x] + xs)[j].id != x.id {
      assert ([x] + xs)[j] in xs;
    }
  }

  // ---------------------------------------------------------------- create / update / delete

  /** `input.description?.trim() || undefined`: the trimmed text, absent when blank. */
  function CleanDescription(d: Option<string>): (r: Option<string>)
    ensures r.Some? <==> d.Some? && Strings.Trim(d.value) != ""
    ensures r.Some? ==> r.value == Strings.Trim(d.value)
  {
    match d
    case None => None
    case Some(s) => if Strings.Trim(s) == "" then None else Some(Strings.Trim(s))
  }

  /** `normalizeAmount(Math.abs(n))`: a non-negative whole number of cents, within half a
      cent of |n| when n is finite and 0 otherwise. */
  function StoredAmount(n: Money.JsNumber): (r: real)
    ensures r >= 0.0 && Money.IsCents(r)
    ensures !n.IsFinite() ==> r == 0.0
    ensures n.Finite? ==> var m := if n.value < 0.0 then -n.value else n.value;
                         -0.005 < r - m <= 0.005
  {
    Money.NormalizeAbs(n);
    Money.NormalizeAmount(Money.Abs(n))
  }

  /** The record `createTransaction` builds: the fresh id, both timestamps `now`,
      the input's fields with the amount normalised and the description cleaned. */
  function NewTransaction(input: CreateInput, id: string, now: string): (tx: Transaction)
    ensures tx.id == id && tx.createdAt == now && tx.updatedAt == now
    ensures tx.kind == input.kind && tx.date == input.date && tx.categoryId == input.categoryId
    ensures tx.amount == StoredAmount(input.amount)
    ensures tx.description == CleanDescription(input.description)
  {
    Transaction(id, input.kind, StoredAmount(input.amount), input.date, input.categoryId,
                CleanDescription(input.description), now, now)
  }

  /** A created amount can be 0, so the documented "always positive" does not hold. */
  lemma CreatedAmountCanBeZero(now: string)
    ensures var tx := NewTransaction(CreateInput(Expense, Money.Finite(0.004), "2025-01-01", "cat_food", None), "txn_1", now);
            tx.amount == 0.0 && !IsDocumented(tx)
  {
    Money.NormalizeNonNegative(0.004);
  }

  /** One item after `{ ...t, ...patch, amount, description, updatedAt: now }`. */
  function PatchTransaction(t: Transaction, patch: UpdateInput, now: string): (u: Transaction)
    ensures u.id == t.id && u.createdAt == t.createdAt && u.updatedAt == now
    ensures u.kind == patch.kind.GetOr(t.kind)
    ensures u.date == patch.date.GetOr(t.date)
    ensures u.categoryId == patch.categoryId.GetOr(t.categoryId)
    ensures u.amount == if patch.amount.Some? then StoredAmount(patch.amount.value) else t.amount
    ensures u.description == if patch.description.Some? then CleanDescription(patch.description) else t.description
  {
    Transaction(t.id, patch.kind.GetOr(t.kind),
                if patch.amount.Some? then StoredAmount(patch.amount.value) else t.amount,
                patch.date.GetOr(t.date), patch.categoryId.GetOr(t.categoryId),
                if patch.description.Some? then CleanDescription(patch.description) else t.description,
                t.createdAt, now)
  }

  /** Patching the amount with -50 stores 50. */
  lemma PatchNegativeAmount(t: Transaction, now: string)
    ensures PatchTransaction(t, UpdateInput(None, Some(Money.Finite(-50.0)), None, None, None), now).amount == 50.0
  {
    Money.Round2OfCents(50.0);
  }

  /** `items.map(t => t.id !== id ? t : patched)`: every item with the id is patched,
      every other item is left as it is, in place. */
  function UpdateItems(items: seq<Transaction>, id: string, patch: UpdateInput, now: string): (r: seq<Transaction>)
    ensures |r| == |items|
    ensures forall i :: 0 <= i < |items| ==>
              r[i] == if items[i].id == id then PatchTransaction(items[i], patch, now) else items[i]
  {
    seq(|items|, i requires 0 <= i < |items| =>
      if items[i].id == id then PatchTransaction(items[i], patch, now) else items[i])
  }

  /** An unknown id patches nothing. */
  lemma UpdateUnknownId(items: seq<Transaction>, id: string, patch: UpdateInput, now: string)
    requires id !in IdSet(items)
    ensures UpdateItems(items, id, patch, now) == items
  {
    forall i | 0 <= i < |items| ensures items[i].id != id {
      assert items[i] in items;
    }
  }

  /** Patching keeps every id where it was, so unique ids stay unique. */
  lemma UpdateKeepsIds(items: seq<Transaction>, id: string, patch: UpdateInput, now: string)
    ensures forall i :: 0 <= i < |items| ==> UpdateItems(items, id, patch, now)[i].id == items[i].id
    ensures UniqueIds(items) ==> UniqueIds(UpdateItems(items, id, patch, now))
  {
  }

  /** The list `updateTransaction` persists need not be in store order: moving the
      first of two sorted items to a date before the second's leaves it in front. */
  lemma UpdatePersistsUnsortedList(a: Transaction, b: Transaction, patch: UpdateInput, now: string)
    requires a.id != b.id && Strings.StrLess(b.date, a.date)
    requires patch.date.Some? && Strings.StrLess(patch.date.value, b.date)
    ensures Sorted([a, b]) && !Sorted(UpdateItems([a, b], a.id, patch, now))
  {
    var a' := PatchTransaction(a, patch, now);
    assert UpdateItems([a, b], a.id, patch, now) == [a', b];
    CompareEarlierDate(b, a);
    CompareEarlierDate(a', b);
    assert Sorted([a, b]) by { assert [a, b][0] == a && [a, b][1] == b; }
    assert !Sorted([a', b]) by { assert [a', b][0] == a' && [a', b][1] == b; }
  }

  /** `items.filter(t => t.id !== id)`: the items with other ids, in order. */
  function RemoveId(items: seq<Transaction>, id: string): (r: seq<Transaction>)
    ensures Seqs.IsSubsequence(r, items)
    ensures forall t :: multiset(r)[t] == if t.id == id then 0 else multiset(items)[t]
  {
    if items == [] then []
    else
      var rest := RemoveId(items[1..], id);
      assert items == [items[0]] + items[1..];
      if items[0].id == id then
        assert rest != [] ==> rest[0] != items[0] by {
          if rest != [] {
            assert rest[0] in multiset(rest);
          }
        }
        rest
      else [items[0]] + rest
  }

  /** Deleting an unknown id leaves the list exactly as it was. */
  lemma {:induction false} RemoveUnknownId(items: seq<Transaction>, id: string)
    requires id !in IdSet(items)
    ensures RemoveId(items, id) == items
  {
    if items != [] {
      assert items[0] in items;
      assert IdSet(items[1..]) <= IdSet(items);
      RemoveUnknownId(items[1..], id);
    }
  }

  /** Deleting keeps a sorted list sorted and unique ids unique. */
  lemma RemoveKeepsOrder(items: seq<Transaction>, id: string)
    ensures Sorted(items) ==> Sorted(RemoveId(items, id))
    ensures UniqueIds(items) ==> UniqueIds(RemoveId(items, id))
  {
    var r := RemoveId(items, id);
    if Sorted(items) {
      SubsequenceOfSorted(r, items);
    }
    if UniqueIds(items) {
      Seqs.SubsequenceMultiset(r, items);
      UniqueIdsSubMultiset(items, r);
    }
  }

  /** With unique ids, deleting a present id removes exactly one item. */
  lemma {:induction false} RemoveExactlyOne(items: seq<Transaction>, id: string)
    requires UniqueIds(items) && id in IdSet(items)
    ensures |RemoveId(items, id)| == |items| - 1
  {
    if items[0].id == id {
      RemoveUnknownId(items[1..], id);
    } else {
      var t :| t in items && t.id == id;
      assert t in items[1..] by {
        assert items == [items[0]] + items[1..];
      }
      assert UniqueIds(items[1..]);
      RemoveExactlyOne(items[1..], id);
    }
  }

  // ---------------------------------------------------------------- filters

  /** `defaultFilters`: this month (the first seven characters of the current ISO
      timestamp), an empty search and both optional filters at "all". */
  function DefaultFilters(nowIso: string): (f: Filters)
    ensures f.month <= nowIso && |f.month| == if |nowIso| < 7 then |nowIso| else 7
    ensures f.search == Some("") && f.typeFilter == Some(AllTypes) && f.categoryId == Some(AllCategories)
  {
    Filters(Dates.GetMonthKey(Dates.Slice(nowIso, 10)), Some(""), Some(AllTypes), Some(AllCategories))
  }

  /** `{ ...filters, ...patch }`: fields present in the patch win. */
  function MergeFilters(f: Filters, patch: FiltersPatch): (r: Filters)
    ensures r.month == patch.month.GetOr(f.month)
    ensures r.search == if patch.search.Some? then patch.search else f.search
    ensures r.typeFilter == if patch.typeFilter.Some? then patch.typeFilter else f.typeFilter
    ensures r.categoryId == if patch.categoryId.Some? then patch.categoryId else f.categoryId
  {
    Filters(patch.month.GetOr(f.month),
            if patch.search.Some? then patch.search else f.search,
            if patch.typeFilter.Some? then patch.typeFilter else f.typeFilter,
            if patch.categoryId.Some? then patch.categoryId else f.categoryId)
  }

  /** An empty patch changes nothing. */
  lemma MergeEmptyPatch(f: Filters)
    ensures MergeFilters(f, FiltersPatch(None, None, None, None)) == f
  {
  }

  // ---------------------------------------------------------------- the demo dataset

  lemma SortCons(xs: seq<Transaction>)
    requires xs != []
    ensures SortByDateDesc(xs) == Insert(xs[0], SortByDateDesc(xs[1..]))
  {
  }

  lemma InsertBehind(x: Transaction, ys: seq<Transaction>)
    requires ys != [] && CompareByDateDesc(x, ys[0]) == 1
    ensures Insert(x, ys) == [ys[0]] + Insert(x, ys[1..])
  {
  }

  lemma SortTwoReversed(y: Transaction, z: Transaction)
    requires CompareByDateDesc(y, z) == 1
    ensures SortByDateDesc([y, z]) == [z, y]
  {
    var zs := [z];
    assert SortByDateDesc(zs) == zs by { SortCons(zs); assert zs[1..] == []; }
    var yz := [y, z];
    SortCons(yz);
    assert yz[1..] == zs;
    InsertBehind(y, zs);
    assert zs[1..] == [];
  }

  lemma InsertBehindTwo(x: Transaction, z: Transaction, y: Transaction)
    requires CompareByDateDesc(x, y) == 1 && CompareByDateDesc(x, z) == 1
    ensures Insert(x, [z, y]) == [z, y, x]
  {
    InsertBehind(x, [z, y]);
    assert [z, y][1..] == [y];
    InsertBehind(x, [y]);
    assert [y][1..] == [];
  }

  /** Three items each strictly behind the next come out reversed. */
  lemma SortThreeReversed(x: Transaction, y: Transaction, z: Transaction)
    requires CompareByDateDesc(x, y) == 1 && CompareByDateDesc(y, z) == 1 && CompareByDateDesc(x, z) == 1
    ensures SortByDateDesc([x, y, z]) == [z, y, x]
  {
    var xyz := [x, y, z];
    SortCons(xyz);
    assert xyz[1..] == [y, z];
    SortTwoReversed(y, z);
    InsertBehindTwo(x, z, y);
  }

  /** The demo dataset is not in store order; sorting it reverses it. */
  lemma SeedOrder(clock: TransactionsSeed.SeedClock)
    ensures var s := TransactionsSeed.Seed(clock);
            !Sorted(s) && SortByDateDesc(s) == [s[2], s[1], s[0]]
  {
    var s := TransactionsSeed.Seed(clock);
    TransactionsSeed.SeedAscending(clock);
    Strings.StrLessTransitive(s[0].date, s[1].date, s[2].date);
    CompareEarlierDate(s[0], s[1]);
    CompareEarlierDate(s[1], s[2]);
    CompareEarlierDate(s[0], s[2]);
    assert s == [s[0], s[1], s[2]];
    SortThreeReversed(s[0], s[1], s[2]);
  }

  /** After the seeding path of hydrate, the next hydrate reads the seed back and
      sorts it, so the two calls leave different lists. */
  lemma RehydrateAfterSeedReorders(slots: map<string, Storage.Stored<seq<Transaction>>>,
                                   savedAt: string, clock: TransactionsSeed.SeedClock)
    ensures var s := TransactionsSeed.Seed(clock);
            var after := slots[StorageKey := Storage.EnvelopeOf(StorageVersion, savedAt, s)];
            Storage.ReadStorage(after, StorageKey, StorageVersion) == Some(s)
            && SortByDateDesc(s) != s
  {
    SeedOrder(clock);
  }

  // ---------------------------------------------------------------- the store

  class LedgerStore {
    var items: seq<Transaction>
    var filters: Filters
    const storage: Storage.LocalStorage<seq<Transaction>>
    /** TRANSACTIONS_SEED, built once when the module loads. */
    const seed: seq<Transaction>

    /** The store as created: no items, default filters. */
    constructor (storage: Storage.LocalStorage<seq<Transaction>>, clock: TransactionsSeed.SeedClock, nowIso: string)
      ensures this.storage == storage && seed == TransactionsSeed.Seed(clock)
      ensures items == [] && filters == DefaultFilters(nowIso)
    {
      this.storage := storage;
      seed := TransactionsSeed.Seed(clock);
      items := [];
      filters := DefaultFilters(nowIso);
    }

    /** `persist`: the whole list goes into the store's slot, under the current version. */
    method Persist(xs: seq<Transaction>, savedAt: string)
      modifies storage
      ensures storage.slots == old(storage.slots)[StorageKey := Storage.EnvelopeOf(StorageVersion, savedAt, xs)]
    {
      storage.Write(StorageKey, StorageVersion, savedAt, xs);
    }

    /** `hydrate`: a missing, unreadable, stale or empty stored list seeds the demo
        dataset as listed (unsorted) and persists it; otherwise the stored list is
        loaded in store order and storage is left alone. */
    method Hydrate(savedAt: string)
      modifies this, storage
      ensures filters == old(filters)
      ensures var loaded := Storage.ReadStorage(old(storage.slots), StorageKey, StorageVersion);
        if loaded.None? || loaded.value == [] then
          items == seed
          && storage.slots == old(storage.slots)[StorageKey := Storage.EnvelopeOf(StorageVersion, savedAt, seed)]
        else
          items == SortByDateDesc(loaded.value) && Sorted(items)
          && multiset(items) == multiset(loaded.value)
          && storage.slots == old(storage.slots)
    {
      var loaded := storage.Read(StorageKey, StorageVersion);
      if loaded.None? || |loaded.value| == 0 {
        Persist(seed, savedAt);
        items := seed;
        return;
      }
      items := SortByDateDesc(loaded.value);
    }

    /** `resetAll`: an empty list, persisted, and default filters. */
    method ResetAll(nowIso: string, savedAt: string)
      modifies this, storage
      ensures items == [] && filters == DefaultFilters(nowIso)
      ensures storage.slots == old(storage.slots)[StorageKey := Storage.EnvelopeOf(StorageVersion, savedAt, [])]
    {
      Persist([], savedAt);
      items := [];
      filters := DefaultFilters(nowIso);
    }

    /** `resetToDemo`: the demo dataset in store order, persisted, and default filters. */
    method ResetToDemo(nowIso: string, savedAt: string)
      modifies this, storage
      ensures items == SortByDateDesc(seed) && Sorted(items) && multiset(items) == multiset(seed)
      ensures filters == DefaultFilters(nowIso)
      ensures storage.slots == old(storage.slots)[StorageKey := Storage.EnvelopeOf(StorageVersion, savedAt, items)]
    {
      var seeded := SortByDateDesc(seed);
      Persist(seeded, savedAt);
      items := seeded;
      filters := DefaultFilters(nowIso);
    }

    /** `createTransaction`: the new record joins the list, which is re-sorted and
        persisted whole. `id` is the value `createId` produced and is assumed fresh. */
    method CreateTransaction(input: CreateInput, id: string, now: string, savedAt: string) returns (tx: Transaction)
      requires id !in IdSet(items)
      modifies this, storage
      ensures tx == NewTransaction(input, id, now)
      ensures items == SortByDateDesc([tx] + old(items))
      ensures Sorted(items) && multiset(items) == multiset([tx] + old(items))
      ensures UniqueIds(old(items)) ==> UniqueIds(items)
      ensures filters == old(filters)
      ensures storage.slots == old(storage.slots)[StorageKey := Storage.EnvelopeOf(StorageVersion, savedAt, items)]
    {
      tx := NewTransaction(input, id, now);
      var next := SortByDateDesc([tx] + items);
      if UniqueIds(items) {
        PrependFreshId(tx, items);
        UniqueIdsSubMultiset([tx] + items, next);
      }
      Persist(next, savedAt);
      items := next;
    }

    /** `updateTransaction`: every item with the id is patched in place; that list is
        persisted as it stands and only then sorted into the store. */
    method UpdateTransaction(id: string, patch: UpdateInput, now: string, savedAt: string)
      modifies this, storage
      ensures var next := UpdateItems(old(items), id, patch, now);
              storage.slots == old(storage.slots)[StorageKey := Storage.EnvelopeOf(StorageVersion, savedAt, next)]
              && items == SortByDateDesc(next)
              && multiset(items) == multiset(next)
      ensures Sorted(items)
      ensures UniqueIds(old(items)) ==> UniqueIds(items)
      ensures id !in IdSet(old(items)) ==> multiset(items) == multiset(old(items))
      ensures filters == old(filters)
    {
      var next := UpdateItems(items, id, patch, now);
      if id !in IdSet(items) {
        UpdateUnknownId(items, id, patch, now);
      }
      UpdateKeepsIds(items, id, patch, now);
      if UniqueIds(next) {
        UniqueIdsSubMultiset(next, SortByDateDesc(next));
      }
      Persist(next, savedAt);
      items := SortByDateDesc(next);
    }

    /** `deleteTransaction`: drops every item with the id, keeps the rest in order,
        and persists the result. */
    method DeleteTransaction(id: string, savedAt: string)
      modifies this, storage
      ensures items == RemoveId(old(items), id)
      ensures Sorted(old(items)) ==> Sorted(items)
      ensures UniqueIds(old(items)) ==> UniqueIds(items)
      ensures id !in IdSet(old(items)) ==> items == old(items)
      ensures filters == old(filters)
      ensures storage.slots == old(storage.slots)[StorageKey := Storage.EnvelopeOf(StorageVersion, savedAt, items)]
    {
      var next := RemoveId(items, id);
      RemoveKeepsOrder(items, id);
      if id !in IdSet(items) {
        RemoveUnknownId(items, id);
      }
      Persist(next, savedAt);
      items := next;
    }

    method SetMonth(month: string)
      modifies this
      ensures filters == old(filters).(month := month) && items == old(items)
    {
      filters := filters.(month := month);
    }

    method SetSearch(search: string)
      modifies this
      ensures filters == old(filters).(search := Some(search)) && items == old(items)
    {
      filters := filters.(search := Some(search));
    }

    method SetFilters(patch: FiltersPatch)
      modifies this
      ensures filters == MergeFilters(old(filters), patch) && items == old(items)
    {
      filters := MergeFilters(filters, patch);
    }

    /** An absent type becomes "all". */
    method SetTypeFilter(typeFilter: Option<TypeFilter>)
      modifies this
      ensures filters == old(filters).(typeFilter := Some(typeFilter.GetOr(AllTypes))) && items == old(items)
    {
      filters := filters.(typeFilter := Some(typeFilter.GetOr(AllTypes)));
    }

    /** An absent category becomes "all". */
    method SetCategoryFilter(categoryId: Option<string>)
      modifies this
      ensures filters == old(filters).(categoryId := Some(categoryId.GetOr(AllCategories))) && items == old(items)
    {
      filters := filters.(categoryId := Some(categoryId.GetOr(AllCategories)));
    }

    /** Search, type and category back to their defaults; the month stays. */
    method ClearOptionalFilters()
      modifies this
      ensures filters == Filters(old(filters).month, Some(""), Some(AllTypes), Some(AllCategories))
      ensures items == old(items)
    {
      filters := filters.(search := Some(""), typeFilter := Some(AllTypes), categoryId := Some(AllCategories));
    }
  }
}
