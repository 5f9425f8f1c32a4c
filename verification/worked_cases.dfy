/**
 Four worked cases of the catalogue pipeline on small concrete tables: a join, a
 dangling category, a search for "mi", and a reversed ID sort.
 */
module WorkedCases {
  import opened Wrappers
  import opened Seqs
  import opened Catalog
  import opened Sorting
  import opened Pipeline

  const Owner: User := User(1, "Max", Male)
  const Dairy: Category := Category(10, "Dairy", "M", 1)
  const Bakery: Category := Category(20, "Bakery", "B", 1)

  const MilkRow: Product := Product(1, "Milk", 10)
  const BreadRow: Product := Product(2, "Bread", 20)
  const Milk: Enriched := Enriched(1, "Milk", 10, Dairy, Owner)
  const Bread: Enriched := Enriched(2, "Bread", 20, Bakery, Owner)
  const Butter: Enriched := Enriched(3, "Butter", 10, Dairy, Owner)

  /** The join resolves both products against the tables and keeps their order. */
  lemma JoinExample()
    ensures Enrich([MilkRow, BreadRow], [Owner], [Dairy, Bakery]) == Some([Milk, Bread])
  {
    assert CategoryById([Dairy, Bakery], 10) == Some(Dairy);
    assert CategoryById([Dairy, Bakery], 20) == Some(Bakery);
    assert UserById([Owner], 1) == Some(Owner);
    assert EnrichProduct(MilkRow, [Owner], [Dairy, Bakery]) == Some(Milk);
    assert EnrichProduct(BreadRow, [Owner], [Dairy, Bakery]) == Some(Bread);
    assert [MilkRow, BreadRow][1..] == [BreadRow];
    assert [BreadRow][1..] == [];
    assert Enrich([], [Owner], [Dairy, Bakery]) == Some([]);
    assert [Bread] + [] == [Bread];
    assert Enrich([BreadRow], [Owner], [Dairy, Bakery]) == Some([Bread]);
    assert [Milk] + [Bread] == [Milk, Bread];
  }

  /** A product whose category is missing makes the join fail instead of producing a row. */
  lemma DanglingCategoryExample()
    ensures Enrich([MilkRow, Product(4, "Cheese", 30)], [Owner], [Dairy, Bakery]).None?
  {
    var cheese := Product(4, "Cheese", 30);
    assert CategoryById([Dairy, Bakery], 10) == Some(Dairy);
    assert UserById([Owner], 1) == Some(Owner);
    assert EnrichProduct(MilkRow, [Owner], [Dairy, Bakery]) == Some(Milk);
    assert CategoryById([Dairy, Bakery], 30).None?;
    assert EnrichProduct(cheese, [Owner], [Dairy, Bakery]).None?;
    assert Enrich([cheese], [Owner], [Dairy, Bakery]).None?;
    assert [MilkRow, cheese][1..] == [cheese];
  }

  /** "bread" does not contain "mi". */
  lemma BreadLacksMi()
    ensures !Text.Contains("bread", "mi")
  {
    assert !Text.Contains("d", "mi");
    assert "ad"[0] != "mi"[0] && "ad"[1..] == "d";
    assert !Text.Contains("ad", "mi");
    assert "ead"[0] != "mi"[0] && "ead"[1..] == "ad";
    assert !Text.Contains("ead", "mi");
    assert "read"[0] != "mi"[0] && "read"[1..] == "ead";
    assert !Text.Contains("read", "mi");
    assert "bread"[0] != "mi"[0] && "bread"[1..] == "read";
  }

  /** The search text "mi" survives preparation unchanged. */
  lemma PreparedMi()
    ensures PreparedQuery("mi") == "mi"
  {
    assert Text.Leading("mi") == 0;
    assert Text.TrimEnd("mi") == "mi";
    assert Text.Trim("mi") == "mi";
    assert Text.Lower("mi") == "mi";
  }

  /** Of Milk and Bread, only Milk passes the search for "mi". */
  lemma QueryMi()
    ensures QueryOk("mi", Milk) && !QueryOk("mi", Bread)
  {
    PreparedMi();
    assert Text.Lower("Milk") == "milk";
    assert Text.Lower("Bread") == "bread";
    assert "mi" <= "milk";
    BreadLacksMi();
  }

  /** Searching "mi" keeps Milk and drops Bread. */
  lemma SearchExample()
    ensures PreparedGoods([Milk, Bread], [], 0, Unsorted, false, "mi") == [Milk]
  {
    QueryMi();
    var p := (x: Enriched) => QueryOk("mi", x);
    assert [Milk, Bread][1..] == [Bread] && [Bread][1..] == [];
    assert Filter([Bread], p) == [];
    assert Filter([Milk, Bread], p) == [Milk];
    assert ByQuery([Milk, Bread], "mi") == [Milk];
    assert Filtered([Milk, Bread], [], 0, "mi") == [Milk];
  }

  /** Ids 1, 2, 3 are already in ID order, so the sort leaves them in place. */
  lemma IdsAscendingSorted()
    ensures Sort(IdField, [Milk, Bread, Butter]) == [Milk, Bread, Butter]
  {
    assert Sorted([Milk, Bread, Butter], IdField);
    SortSorted(IdField, [Milk, Bread, Butter]);
  }

  /** Sorting ids 1, 2, 3 by ID and reversing shows them as 3, 2, 1. */
  lemma ReversedIdExample()
    ensures PreparedGoods([Milk, Bread, Butter], [], 0, By(IdField), true, "") == [Butter, Bread, Milk]
  {
    var xs := [Milk, Bread, Butter];
    IdsAscendingSorted();
    assert Filtered(xs, [], 0, "") == xs;
    assert SortStage(xs, By(IdField)) == xs;
    assert Seqs.Reverse(xs) == [Butter, Bread, Milk];
  }
}
