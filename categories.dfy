/** The category catalogue (src/modules/categories/categories.seed.ts) and the
    id-to-name lookup built from it (src/modules/categories/categories.utils.ts). */
module Categories {

  datatype Category = Category(id: string, name: string)

  const CategoriesSeed: seq<Category> := [
    Category("cat_market", "Mercado"),
    Category("cat_transport", "Transporte"),
    Category("cat_food", "Alimentação"),
    Category("cat_health", "Saúde"),
    Category("cat_leisure", "Lazer"),
    Category("cat_education", "Educação"),
    Category("cat_bills", "Contas"),
    Category("cat_loan", "Empréstimo"),
    Category("cat_salary", "Salário"),
    Category("cat_freelancing", "Freela"),
    Category("cat_contract", "Contrato"),
    Category("cat_other", "Outros")
  ]

  const IdPrefix: string := "cat_"

  /** `new Map(cats.map(c => [c.id, c.name]))`: entries are set in order, so a later
      entry with the same id overwrites an earlier one. */
  function NameById(cats: seq<Category>): (m: map<string, string>)
    ensures forall id :: id in m <==> exists i :: 0 <= i < |cats| && cats[i].id == id
    decreases |cats|
  {
    if cats == [] then map[]
    else
      var last := cats[|cats| - 1];
      NameById(cats[..|cats| - 1])[last.id := last.name]
  }

  predicate DistinctIds(cats: seq<Category>) {
    forall i, j :: 0 <= i < j < |cats| ==> cats[i].id != cats[j].id
  }

  /** With distinct ids every entry's id maps to that entry's name. */
  lemma {:induction false} NameByIdFinds(cats: seq<Category>, i: nat)
    requires DistinctIds(cats) && i < |cats|
    ensures cats[i].id in NameById(cats) && NameById(cats)[cats[i].id] == cats[i].name
    decreases |cats|
  {
    if i < |cats| - 1 {
      var init := cats[..|cats| - 1];
      assert DistinctIds(init);
      NameByIdFinds(init, i);
      assert cats[i] == init[i];
    }
  }

  /** `getCategoryName`: the catalogue name, or the id itself when it is unknown. */
  function GetCategoryName(categoryId: string): (r: string)
    ensures categoryId !in NameById(CategoriesSeed) ==> r == categoryId
    ensures categoryId in NameById(CategoriesSeed) ==> r == NameById(CategoriesSeed)[categoryId]
  {
    var m := NameById(CategoriesSeed);
    if categoryId in m then m[categoryId] else categoryId
  }

  lemma CatalogueSize()
    ensures |CategoriesSeed| == 12
  {
  }

  lemma CatalogueIdsDistinct()
    ensures DistinctIds(CategoriesSeed)
  {
    forall i, j | 0 <= i < j < |CategoriesSeed| ensures CategoriesSeed[i].id != CategoriesSeed[j].id {
      var a, b := CategoriesSeed[i].id, CategoriesSeed[j].id;
      assert a[4] != b[4] || a[5] != b[5];
    }
  }

  lemma CatalogueNamesDistinct()
    ensures forall i, j :: 0 <= i < j < |CategoriesSeed| ==>
              CategoriesSeed[i].name != CategoriesSeed[j].name
  {
  }

  lemma CataloguePrefixes()
    ensures forall i :: 0 <= i < |CategoriesSeed| ==>
              IdPrefix <= CategoriesSeed[i].id && !(IdPrefix <= CategoriesSeed[i].name)
  {
    forall i | 0 <= i < |CategoriesSeed|
      ensures IdPrefix <= CategoriesSeed[i].id && !(IdPrefix <= CategoriesSeed[i].name)
    {
      var c := CategoriesSeed[i];
      assert c.id[..4] == IdPrefix;
      assert c.name[0] != 'c';
    }
  }

  /** A catalogue id resolves to its entry's name. */
  lemma KnownIdResolves(i: nat)
    requires i < |CategoriesSeed|
    ensures GetCategoryName(CategoriesSeed[i].id) == CategoriesSeed[i].name
  {
    CatalogueIdsDistinct();
    NameByIdFinds(CategoriesSeed, i);
  }

  lemma SampleNames()
    ensures GetCategoryName("cat_market") == "Mercado"
    ensures GetCategoryName("cat_transport") == "Transporte"
    ensures GetCategoryName("cat_salary") == "Salário"
  {
    assert CategoriesSeed[0] == Category("cat_market", "Mercado");
    KnownIdResolves(0);
    assert CategoriesSeed[1] == Category("cat_transport", "Transporte");
    KnownIdResolves(1);
    assert CategoriesSeed[8] == Category("cat_salary", "Salário");
    KnownIdResolves(8);
  }

  /** The lookup returns its argument exactly for strings that are not catalogue ids. */
  lemma FallbackExactlyForUnknown(x: string)
    ensures GetCategoryName(x) == x <==> forall i :: 0 <= i < |CategoriesSeed| ==> CategoriesSeed[i].id != x
  {
    CataloguePrefixes();
    if i :| 0 <= i < |CategoriesSeed| && CategoriesSeed[i].id == x {
      KnownIdResolves(i);
      assert IdPrefix <= x && !(IdPrefix <= CategoriesSeed[i].name);
    }
  }
}
