/**
 The sort stage of the catalogue: the four sortable columns, the comparator the
 view hands to `Array.prototype.sort`, and an insertion sort standing in for the
 engine's sort.
 */
module Sorting {
  import opened Catalog
  import opened Collation

  /** The four column headers that carry a sort icon: 'ID', 'Product', 'Category', 'User'. */
  datatype Field = IdField | ProductField | CategoryField | UserField

  /** The view's `sortType`: the empty string (no sort) or one of the four columns. */
  datatype SortType = Unsorted | By(field: Field)

  /** The comparator of the sort call: negative when `a` goes first, positive when `b` does. */
  function Compare(f: Field, a: Enriched, b: Enriched): int {
    match f
    case IdField => a.id - b.id
    case ProductField => Collate(a.name, b.name)
    case CategoryField => Collate(a.category.title, b.category.title)
    case UserField => Collate(a.user.name, b.user.name)
  }

  /** `a` may precede `b` in a list sorted by `f`. */
  predicate Le(f: Field, a: Enriched, b: Enriched) {
    Compare(f, a, b) <= 0
  }

  /** Every two products are comparable. */
  lemma LeTotal(f: Field, a: Enriched, b: Enriched)
    ensures Le(f, a, b) || Le(f, b, a)
  {
    match f
    case IdField =>
    case ProductField => CollateAntisymmetric(a.name, b.name);
    case CategoryField => CollateAntisymmetric(a.category.title, b.category.title);
    case UserField => CollateAntisymmetric(a.user.name, b.user.name);
  }

  /** The comparator is transitive. */
  lemma LeTransitive(f: Field, a: Enriched, b: Enriched, c: Enriched)
    requires Le(f, a, b) && Le(f, b, c)
    ensures Le(f, a, c)
  {
    match f
    case IdField =>
    case ProductField => CollateTransitive(a.name, b.name, c.name);
    case CategoryField => CollateTransitive(a.category.title, b.category.title, c.category.title);
    case UserField => CollateTransitive(a.user.name, b.user.name, c.user.name);
  }

  /** Non-decreasing under the comparator of `f`. */
  ghost predicate Sorted(xs: seq<Enriched>, f: Field) {
    forall i, j :: 0 <= i < j < |xs| ==> Le(f, xs[i], xs[j])
  }

  /** A lower bound of every element of a list bounds every element of its permutations. */
  lemma BoundPermutation(f: Field, b: Enriched, src: seq<Enriched>, dst: seq<Enriched>)
    requires multiset(dst) == multiset(src)
    requires forall k :: 0 <= k < |src| ==> Le(f, b, src[k])
    ensures forall k :: 0 <= k < |dst| ==> Le(f, b, dst[k])
  {
    forall k | 0 <= k < |dst|
      ensures Le(f, b, dst[k])
    {
      assert dst[k] in multiset(src);
      var m :| 0 <= m < |src| && src[m] == dst[k];
    }
  }

  /** A sorted list stays sorted behind a head that bounds all its elements. */
  lemma PrependSorted(f: Field, b: Enriched, xs: seq<Enriched>)
    requires Sorted(xs, f)
    requires forall k :: 0 <= k < |xs| ==> Le(f, b, xs[k])
    ensures Sorted([b] + xs, f)
  {
    var r := [b] + xs;
    forall i, j | 0 <= i < j < |r|
      ensures Le(f, r[i], r[j])
    {
      if i == 0 {
        assert r[j] == xs[j - 1];
      } else {
        assert r[i] == xs[i - 1] && r[j] == xs[j - 1];
      }
    }
  }

  /** Puts `x` into a sorted list in front of the first element that must follow it. */
  function Insert(f: Field, x: Enriched, xs: seq<Enriched>): (r: seq<Enriched>)
    requires Sorted(xs, f)
    ensures multiset(r) == multiset(xs) + multiset{x}
    ensures Sorted(r, f)
    decreases |xs|
  {
    if |xs| == 0 then [x]
    else if Le(f, x, xs[0]) then
      assert forall j :: 0 <= j < |xs| ==> Le(f, x, xs[j]) by {
        forall j | 0 < j < |xs|
          ensures Le(f, x, xs[j])
        {
          LeTransitive(f, x, xs[0], xs[j]);
        }
      }
      PrependSorted(f, x, xs);
      [x] + xs
    else
      var tail := xs[1..];
      assert Sorted(tail, f);
      var rest := Insert(f, x, tail);
      assert xs == [xs[0]] + tail;
      LeTotal(f, x, xs[0]);
      assert forall k :: 0 <= k < |tail + [x]| ==> Le(f, xs[0], (tail + [x])[k]) by {
        forall k | 0 <= k < |tail + [x]|
          ensures Le(f, xs[0], (tail + [x])[k])
        {
          if k < |tail| {
            assert (tail + [x])[k] == xs[k + 1];
          }
        }
      }
      BoundPermutation(f, xs[0], tail + [x], rest);
      PrependSorted(f, xs[0], rest);
      [xs[0]] + rest
  }

  /** Insertion sort by the comparator of `f`: a sorted permutation of the input. */
  function Sort(f: Field, xs: seq<Enriched>): (r: seq<Enriched>)
    ensures multiset(r) == multiset(xs)
    ensures Sorted(r, f)
    decreases |xs|
  {
    if |xs| == 0 then []
    else
      assert xs == [xs[0]] + xs[1..];
      Insert(f, xs[0], Sort(f, xs[1..]))
  }

  /** A list that is already in order comes back unchanged. */
  lemma {:induction false} SortSorted(f: Field, xs: seq<Enriched>)
    requires Sorted(xs, f)
    ensures Sort(f, xs) == xs
    decreases |xs|
  {
    if |xs| > 0 {
      assert Sorted(xs[1..], f);
      SortSorted(f, xs[1..]);
      assert xs == [xs[0]] + xs[1..];
      if |xs| > 1 {
        assert Le(f, xs[0], xs[1]);
      }
    }
  }
}
