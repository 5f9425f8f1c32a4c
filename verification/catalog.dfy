/**
 The three static tables of the catalogue and the join that turns each product
 into an enriched product carrying its category and that category's owner.
 */
module Catalog {
  import opened Wrappers
  import opened Seqs

  datatype Sex = Male | Female

  datatype User = User(id: int, name: string, sex: Sex)

  datatype Category = Category(id: int, title: string, icon: string, ownerId: int)

  datatype Product = Product(id: int, name: string, categoryId: int)

  /** A product's own fields spread next to its resolved category and owner. */
  datatype Enriched = Enriched(id: int, name: string, categoryId: int, category: Category, user: User)

  /** `e` is what the join produces for `p`: the same product fields, the first category
      with the product's category id, and the first user with that category's owner id. */
  ghost predicate Joins(p: Product, e: Enriched, users: seq<User>, categories: seq<Category>) {
    && e.id == p.id && e.name == p.name && e.categoryId == p.categoryId
    && IsFirstMatch(categories, (c: Category) => c.id == p.categoryId, e.category)
    && IsFirstMatch(users, (u: User) => u.id == e.category.ownerId, e.user)
  }

  /** `categoriesFromServer.find(({ id }) => id === categoryId)`. */
  function CategoryById(categories: seq<Category>, categoryId: int): (r: Option<Category>)
    ensures r.Some? ==> r.value in categories && r.value.id == categoryId
    ensures r.Some? ==> IsFirstMatch(categories, (c: Category) => c.id == categoryId, r.value)
    ensures r.None? <==> forall c :: c in categories ==> c.id != categoryId
  {
    Find(categories, (c: Category) => c.id == categoryId)
  }

  /** `usersFromServer.find(({ id }) => id === ownerId)`. */
  function UserById(users: seq<User>, ownerId: int): (r: Option<User>)
    ensures r.Some? ==> r.value in users && r.value.id == ownerId
    ensures r.Some? ==> IsFirstMatch(users, (u: User) => u.id == ownerId, r.value)
    ensures r.None? <==> forall u :: u in users ==> u.id != ownerId
  {
    Find(users, (u: User) => u.id == ownerId)
  }

  /** No enriched product is a join of `p`: a lookup for it comes back `undefined`. */
  ghost predicate Dangling(p: Product, users: seq<User>, categories: seq<Category>) {
    forall e :: !Joins(p, e, users, categories)
  }

  /** The join of one product; `None` when its category or the category's owner is missing. */
  function EnrichProduct(p: Product, users: seq<User>, categories: seq<Category>): (r: Option<Enriched>)
    ensures r.Some? ==> Joins(p, r.value, users, categories)
    ensures r.None? <==> Dangling(p, users, categories)
  {
    match CategoryById(categories, p.categoryId)
    case None => None
    case Some(category) =>
      match UserById(users, category.ownerId)
      case None =>
        assert forall e :: Joins(p, e, users, categories) ==> e.category == category by {
          forall e | Joins(p, e, users, categories)
            ensures e.category == category
          {
            FirstMatchUnique(categories, (c: Category) => c.id == p.categoryId, e.category, category);
          }
        }
        None
      case Some(user) =>
        var e := Enriched(p.id, p.name, p.categoryId, category, user);
        FirstMatchExt(users, (u: User) => u.id == category.ownerId, (u: User) => u.id == e.category.ownerId, user);
        assert Joins(p, e, users, categories);
        Some(e)
  }

  /** Joining the head and the tail separately joins the whole list. */
  lemma JoinsCons(products: seq<Product>, e: Enriched, rest: seq<Enriched>, users: seq<User>, categories: seq<Category>)
    requires |products| > 0 && Joins(products[0], e, users, categories)
    requires |rest| == |products| - 1
    requires forall i :: 0 <= i < |rest| ==> Joins(products[1..][i], rest[i], users, categories)
    ensures forall i :: 0 <= i < |products| ==> Joins(products[i], ([e] + rest)[i], users, categories)
  {
    forall i | 0 < i < |products|
      ensures Joins(products[i], ([e] + rest)[i], users, categories)
    {
      assert products[i] == products[1..][i - 1];
      assert ([e] + rest)[i] == rest[i - 1];
    }
  }

  /** A dangling product in the tail is a dangling product of the whole list. */
  lemma DanglingInTail(products: seq<Product>, users: seq<User>, categories: seq<Category>)
    requires |products| > 0
    requires exists i :: 0 <= i < |products[1..]| && Dangling(products[1..][i], users, categories)
    ensures exists i :: 0 <= i < |products| && Dangling(products[i], users, categories)
  {
    var i :| 0 <= i < |products[1..]| && Dangling(products[1..][i], users, categories);
    assert products[1..][i] == products[i + 1];
  }

  /** A list that joins completely has no dangling product. */
  lemma JoinedNotDangling(products: seq<Product>, r: seq<Enriched>, users: seq<User>, categories: seq<Category>)
    requires |r| == |products|
    requires forall i :: 0 <= i < |products| ==> Joins(products[i], r[i], users, categories)
    ensures !exists i :: 0 <= i < |products| && Dangling(products[i], users, categories)
  {
    forall i | 0 <= i < |products|
      ensures !Dangling(products[i], users, categories)
    {
      assert Joins(products[i], r[i], users, categories);
    }
  }

  /**
   The enriched product list, in the order of `products`; `None` when some product
   has a dangling category reference or a category with a dangling owner reference.
   */
  function Enrich(products: seq<Product>, users: seq<User>, categories: seq<Category>): (r: Option<seq<Enriched>>)
    ensures r.Some? ==> |r.value| == |products|
    ensures r.Some? ==> forall i :: 0 <= i < |products| ==> Joins(products[i], r.value[i], users, categories)
    ensures r.None? <==> exists i :: 0 <= i < |products| && Dangling(products[i], users, categories)
    decreases |products|
  {
    if |products| == 0 then Some([])
    else
      match EnrichProduct(products[0], users, categories)
      case None => None
      case Some(e) =>
        match Enrich(products[1..], users, categories)
        case None =>
          DanglingInTail(products, users, categories);
          None
        case Some(rest) =>
          JoinsCons(products, e, rest, users, categories);
          JoinedNotDangling(products, [e] + rest, users, categories);
          Some([e] + rest)
  }
}
