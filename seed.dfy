/** The demo dataset (src/modules/transactions/transactions.seed.ts). Each entry's
    `createdAt` and `updatedAt` come from its own clock read when the module loads;
    those six readings are a parameter here. */
module TransactionsSeed {
  import opened Wrappers
  import opened Types
  import Dates
  import Categories
  import Strings

  /** The six clock readings, in source order. */
  datatype SeedClock = SeedClock(
    created1: string, updated1: string,
    created2: string, updated2: string,
    created3: string, updated3: string)

  function Seed(clock: SeedClock): (s: seq<Transaction>)
    ensures |s| == 3
  {
    [
      Transaction("seed-1", Income, 5000.0, "2025-01-05", "cat_salary", Some("Salário"),
                  clock.created1, clock.updated1),
      Transaction("seed-2", Expense, 1200.0, "2025-01-10", "cat_market", Some("Supermercado"),
                  clock.created2, clock.updated2),
      Transaction("seed-3", Expense, 350.0, "2025-01-15", "cat_transport", Some("Uber"),
                  clock.created3, clock.updated3)
    ]
  }

  /** Three entries with the distinct ids seed-1, seed-2 and seed-3. */
  lemma SeedIds(clock: SeedClock)
    ensures var s := Seed(clock);
      && s[0].id == "seed-1" && s[1].id == "seed-2" && s[2].id == "seed-3"
      && forall i, j :: 0 <= i < j < 3 ==> s[i].id != s[j].id
  {
    var s := Seed(clock);
    forall i, j | 0 <= i < j < 3 ensures s[i].id != s[j].id {
      assert s[i].id[5] != s[j].id[5];
    }
  }

  /** Every entry has a positive amount and a well-formed date. */
  lemma SeedDocumented(clock: SeedClock)
    ensures var s := Seed(clock); forall i :: 0 <= i < 3 ==> IsDocumented(s[i])
  {
    var s := Seed(clock);
    forall i | 0 <= i < 3 ensures IsDocumented(s[i]) {
      assert Dates.IsISODate(s[i].date);
    }
  }

  /** Every entry falls in January 2025. */
  lemma SeedMonths(clock: SeedClock)
    ensures var s := Seed(clock); forall i :: 0 <= i < 3 ==> Dates.GetMonthKey(s[i].date) == "2025-01"
  {
  }

  /** Every entry's category id is known to the catalogue. */
  lemma SeedCategoriesKnown(clock: SeedClock)
    ensures var s := Seed(clock);
      forall i :: 0 <= i < 3 ==> Categories.GetCategoryName(s[i].categoryId) != s[i].categoryId
  {
    var s := Seed(clock);
    Categories.SampleNames();
    forall i | 0 <= i < 3 ensures Categories.GetCategoryName(s[i].categoryId) != s[i].categoryId {
      if i == 0 {
        assert s[0].categoryId == "cat_salary" && |"Salário"| != |"cat_salary"|;
      } else if i == 1 {
        assert s[1].categoryId == "cat_market" && |"Mercado"| != |"cat_market"|;
      } else {
        assert s[2].categoryId == "cat_transport" && |"Transporte"| != |"cat_transport"|;
      }
    }
  }

  /** The dataset is listed oldest first. */
  lemma SeedAscending(clock: SeedClock)
    ensures var s := Seed(clock);
      Strings.StrLess(s[0].date, s[1].date) && Strings.StrLess(s[1].date, s[2].date)
  {
    var s := Seed(clock);
    assert s[0].date[..8] == s[1].date[..8];
    Strings.StrLessAt(s[0].date, s[1].date, 8);
    assert s[1].date[..9] == s[2].date[..9];
    Strings.StrLessAt(s[1].date, s[2].date, 9);
  }
}
