/**
 `getPreparedGoods`: from the enriched product list and the five view parameters to
 the list of rows shown. Each stage is a sequence-to-sequence function, applied in
 the view's order: category, user, search text, sort, reversal.

 The enriched list is passed in rather than read from a module-level constant, and
 it is a value: the stages build new sequences and never change their input, which
 is what the view's `[...products]` copy guarantees.
 */
module Pipeline {
  import opened Seqs
  import opened Text
  import opened Catalog
  import opened Sorting

  /** The category condition: no selection, or the product's category is selected. */
  predicate CategoryOk(selected: seq<int>, x: Enriched) {
    |selected| == 0 || x.categoryId in selected
  }

  /** The user condition: user id 0 means all users. */
  predicate UserOk(userId: int, x: Enriched) {
    userId == 0 || x.user.id == userId
  }

  /** The search text as compared: trimmed, then lower-cased. */
  function PreparedQuery(query: string): string {
    Lower(Trim(query))
  }

  /** The search condition: an empty query, or the lower-cased name contains the prepared query. */
  predicate QueryOk(query: string, x: Enriched) {
    |query| == 0 || Contains(Lower(x.name), PreparedQuery(query))
  }

  /** Whether a product survives all three filters, decided in one look at the product. */
  predicate Keep(selected: seq<int>, userId: int, query: string, x: Enriched) {
    CategoryOk(selected, x) && UserOk(userId, x) && QueryOk(query, x)
  }

  /** Stage 1: only filters when some category is selected. */
  function ByCategory(xs: seq<Enriched>, selected: seq<int>): (r: seq<Enriched>)
    ensures |selected| == 0 ==> r == xs
    ensures forall i :: 0 <= i < |r| ==> CategoryOk(selected, r[i])
    ensures r == Filter(xs, (x: Enriched) => CategoryOk(selected, x))
  {
    if |selected| != 0 then
      var r := Filter(xs, (x: Enriched) => x.categoryId in selected);
      FilterExt(xs, (x: Enriched) => x.categoryId in selected, (x: Enriched) => CategoryOk(selected, x));
      r
    else
      xs
  }

  /** Stage 2: only filters when the user id is not 0. */
  function ByUser(xs: seq<Enriched>, userId: int): (r: seq<Enriched>)
    ensures userId == 0 ==> r == xs
    ensures forall i :: 0 <= i < |r| ==> UserOk(userId, r[i])
    ensures r == Filter(xs, (x: Enriched) => UserOk(userId, x))
  {
    if userId != 0 then
      var r := Filter(xs, (x: Enriched) => x.user.id == userId);
      FilterExt(xs, (x: Enriched) => x.user.id == userId, (x: Enriched) => UserOk(userId, x));
      r
    else
      xs
  }

  /** Stage 3: only filters when the query is not the empty string. */
  function ByQuery(xs: seq<Enriched>, query: string): (r: seq<Enriched>)
    ensures |query| == 0 ==> r == xs
    ensures forall i :: 0 <= i < |r| ==> QueryOk(query, r[i])
    ensures r == Filter(xs, (x: Enriched) => QueryOk(query, x))
  {
    if |query| != 0 then
      var prepared := PreparedQuery(query);
      var r := Filter(xs, (x: Enriched) => Contains(Lower(x.name), prepared));
      FilterExt(xs, (x: Enriched) => Contains(Lower(x.name), prepared), (x: Enriched) => QueryOk(query, x));
      r
    else
      xs
  }

  /** The three filter stages in the view's order. */
  function Filtered(xs: seq<Enriched>, selected: seq<int>, userId: int, query: string): seq<Enriched> {
    ByQuery(ByUser(ByCategory(xs, selected), userId), query)
  }

  /** Stage 4: sorts only when a column is chosen. */
  function SortStage(xs: seq<Enriched>, sortType: SortType): (r: seq<Enriched>)
    ensures sortType == Unsorted ==> r == xs
    ensures multiset(r) == multiset(xs)
    ensures sortType.By? ==> Sorted(r, sortType.field)
  {
    match sortType
    case Unsorted => xs
    case By(f) => Sort(f, xs)
  }

  /** Stage 5: reverses only when the reversed flag is set. */
  function ReverseStage(xs: seq<Enriched>, isReversed: bool): (r: seq<Enriched>)
    ensures |r| == |xs|
    ensures !isReversed ==> r == xs
    ensures isReversed ==> forall i :: 0 <= i < |xs| ==> r[i] == xs[|xs| - 1 - i]
    ensures multiset(r) == multiset(xs)
  {
    if isReversed then
      ReversePermutes(xs);
      Reverse(xs)
    else
      xs
  }

  /** `getPreparedGoods`: the rows the table shows. */
  function PreparedGoods(products: seq<Enriched>, selected: seq<int>, userId: int,
                         sortType: SortType, isReversed: bool, query: string): (r: seq<Enriched>)
    ensures |selected| == 0 && userId == 0 && |query| == 0 && sortType == Unsorted && !isReversed
            ==> r == products
    ensures sortType == Unsorted && !isReversed
            ==> r == Filtered(products, selected, userId, query) && IsSubseq(r, products)
    ensures multiset(r) == multiset(Filtered(products, selected, userId, query))
    ensures sortType.By? && !isReversed ==> Sorted(r, sortType.field)
    ensures sortType.By? && isReversed ==> Sorted(Reverse(r), sortType.field)
  {
    FilteredIsOnePass(products, selected, userId, query);
    var sorted := SortStage(Filtered(products, selected, userId, query), sortType);
    ReverseReverse(sorted);
    ReverseStage(sorted, isReversed)
  }

  /**
   A product is shown exactly when it is in the enriched list and passes all three
   filters; so with a category selection every row's category is selected, with a
   user id every row belongs to that user, and with a query every row's name
   contains the prepared query.
   */
  lemma PreparedMembership(products: seq<Enriched>, selected: seq<int>, userId: int,
                           sortType: SortType, isReversed: bool, query: string)
    ensures forall x :: x in PreparedGoods(products, selected, userId, sortType, isReversed, query)
                    <==> x in products && Keep(selected, userId, query, x)
  {
    var r := PreparedGoods(products, selected, userId, sortType, isReversed, query);
    var filtered := Filtered(products, selected, userId, query);
    FilteredIsOnePass(products, selected, userId, query);
    FilterMembers(products, (x: Enriched) => Keep(selected, userId, query, x));
    forall x
      ensures x in r <==> x in products && Keep(selected, userId, query, x)
    {
      assert x in r <==> x in multiset(r);
      assert x in filtered <==> x in multiset(filtered);
    }
  }

  /** The three filter guarantees, row by row. */
  lemma PreparedRowsPassFilters(products: seq<Enriched>, selected: seq<int>, userId: int,
                                sortType: SortType, isReversed: bool, query: string)
    ensures var r := PreparedGoods(products, selected, userId, sortType, isReversed, query);
            && (|selected| != 0 ==> forall i :: 0 <= i < |r| ==> r[i].categoryId in selected)
            && (userId != 0 ==> forall i :: 0 <= i < |r| ==> r[i].user.id == userId)
            && (|query| != 0 ==> forall i :: 0 <= i < |r| ==> Contains(Lower(r[i].name), Lower(Trim(query))))
  {
    var r := PreparedGoods(products, selected, userId, sortType, isReversed, query);
    PreparedMembership(products, selected, userId, sortType, isReversed, query);
    assert forall i :: 0 <= i < |r| ==> Keep(selected, userId, query, r[i]);
  }

  /**
   The three filter stages keep exactly the products a single pass with `Keep` keeps,
   in their original order: before sorting, the list is an order-preserving
   subsequence of the enriched list.
   */
  lemma FilteredIsOnePass(xs: seq<Enriched>, selected: seq<int>, userId: int, query: string)
    ensures Filtered(xs, selected, userId, query) == Filter(xs, (x: Enriched) => Keep(selected, userId, query, x))
    ensures IsSubseq(Filtered(xs, selected, userId, query), xs)
  {
    var c := (x: Enriched) => CategoryOk(selected, x);
    var u := (x: Enriched) => UserOk(userId, x);
    var q := (x: Enriched) => QueryOk(query, x);
    var cu := (x: Enriched) => CategoryOk(selected, x) && UserOk(userId, x);
    var k := (x: Enriched) => Keep(selected, userId, query, x);
    FilterFilter(xs, c, u, cu);
    FilterFilter(xs, cu, q, k);
  }

  /** Setting the reversed flag yields exactly the mirror image of the unreversed list. */
  lemma ReversedIsMirror(products: seq<Enriched>, selected: seq<int>, userId: int,
                         sortType: SortType, query: string)
    ensures PreparedGoods(products, selected, userId, sortType, true, query)
         == Reverse(PreparedGoods(products, selected, userId, sortType, false, query))
  {
  }

  /** A query of whitespace only trims to the empty string, which every name contains. */
  lemma BlankQueryKeepsAll(xs: seq<Enriched>, query: string)
    requires AllSpace(query)
    ensures ByQuery(xs, query) == xs
  {
    assert PreparedQuery(query) == [];
    assert forall i :: 0 <= i < |xs| ==> QueryOk(query, xs[i]);
  }
}
