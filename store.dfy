/**
 * The relational store the services share (the Prisma client): one table
 * per entity, each a sequence of rows in insertion order, with an
 * auto-incremented id and unique slug columns.
 */
module Store {
  import opened Common
  import opened Query

  datatype Category = Category(id: nat, name: string, slug: string)

  datatype Review = Review(id: nat, rating: int)

  /**
   * A product row. `categoryId` is null for a draft; `reviews` are the rows
   * of the review table that point at this product.
   */
  datatype Product = Product(
    id: nat,
    name: string,
    slug: string,
    description: string,
    price: int,
    images: seq<string>,
    categoryId: Option<nat>,
    createdAt: int,
    reviews: seq<Review>)

  /** `PENDING` and `PAYED` are the statuses the core names; any other is kept by name. */
  datatype OrderStatus = Pending | Payed | Other(name: string)

  /** An order line: the product, how many, and the unit price the client sent. */
  datatype OrderItem = OrderItem(productId: nat, quantity: int, price: int)

  datatype Order = Order(
    id: nat,
    userId: nat,
    status: OrderStatus,
    items: seq<OrderItem>,
    total: int,
    createdAt: int)

  function CategoryKey(c: Category): nat { c.id }
  function CategorySlug(c: Category): string { c.slug }
  function ProductKey(p: Product): nat { p.id }
  function ProductSlug(p: Product): string { p.slug }
  function OrderKey(o: Order): nat { o.id }

  /** Every id is below the next one the sequence will hand out, and none repeats. */
  ghost predicate Keyed<T>(s: seq<T>, key: T -> nat, next: nat) {
    (forall i :: 0 <= i < |s| ==> key(s[i]) < next) && Unique(s, key)
  }

  /** A row with the next id, appended, keeps the ids fresh and distinct. */
  lemma AppendKeyed<T>(s: seq<T>, key: T -> nat, next: nat, x: T)
    requires Keyed(s, key, next) && key(x) == next
    ensures Keyed(s + [x], key, next + 1)
  {
    var r := s + [x];
    forall i, j | 0 <= i < j < |r| ensures key(r[i]) != key(r[j]) {
      if j < |s| {
        assert r[i] == s[i] && r[j] == s[j];
      } else {
        assert r[i] == s[i];
      }
    }
  }

  /** A row whose value of `key` no row has yet, appended, keeps the column unique. */
  lemma AppendUnique<T, K>(s: seq<T>, key: T -> K, x: T)
    requires Unique(s, key)
    requires forall y :: y in s ==> key(y) != key(x)
    ensures Unique(s + [x], key)
  {
    var r := s + [x];
    forall i, j | 0 <= i < j < |r| ensures key(r[i]) != key(r[j]) {
      assert r[i] == s[i];
      if j < |s| {
        assert r[j] == s[j];
      }
    }
  }

  /** Removing rows keeps the ids fresh and distinct. */
  lemma WhereKeyed<T(!new)>(s: seq<T>, keep: T -> bool, key: T -> nat, next: nat)
    requires Keyed(s, key, next)
    ensures Keyed(Where(s, keep), key, next)
  {
    WhereUnique(s, keep, key);
    var r := Where(s, keep);
    forall i | 0 <= i < |r| ensures key(r[i]) < next {
      assert r[i] in s;
    }
  }

  /**
   * Updating one row in place keeps a column unique when the row's new
   * value differs from those of all other rows.
   */
  lemma UpdateOneUnique<T, K>(s: seq<T>, hit: T -> bool, f: T -> T, key: T -> K)
    requires Unique(s, key)
    requires forall i, j :: 0 <= i < j < |s| ==> !(hit(s[i]) && hit(s[j]))
    requires forall i, j :: 0 <= i < |s| && 0 <= j < |s| && hit(s[i]) && !hit(s[j]) ==> key(f(s[i])) != key(s[j])
    ensures Unique(UpdateWhere(s, hit, f), key)
  {
    var r := UpdateWhere(s, hit, f);
    forall i, j | 0 <= i < j < |r| ensures key(r[i]) != key(r[j]) {
      assert !(hit(s[i]) && hit(s[j]));
    }
  }

  /** The relation join `product.category`: null for a draft or a category that is gone. */
  function CategoryOf(p: Product, categories: seq<Category>): (c: Option<Category>)
    ensures c.Some? ==> p.categoryId.Some? && c.value in categories && c.value.id == p.categoryId.value
    ensures c.None? ==> p.categoryId.None? || forall k :: k in categories ==> k.id != p.categoryId.value
  {
    if p.categoryId.None? then None
    else FindFirst(categories, (k: Category) => k.id == p.categoryId.value)
  }

  /** The tables, each with the id its next insert will get. */
  class Database {
    var categories: seq<Category>
    var products: seq<Product>
    var orders: seq<Order>
    var nextCategoryId: nat
    var nextProductId: nat
    var nextOrderId: nat

    /** The store's own constraints: fresh distinct ids, distinct slugs. */
    ghost predicate Valid()
      reads this
    {
      && Keyed(categories, CategoryKey, nextCategoryId) && Unique(categories, CategorySlug)
      && Keyed(products, ProductKey, nextProductId) && Unique(products, ProductSlug)
      && Keyed(orders, OrderKey, nextOrderId)
    }

    /** Empty tables; ids start at 1, as a serial column's do. */
    constructor ()
      ensures Valid()
      ensures categories == [] && products == [] && orders == []
      ensures nextCategoryId == 1 && nextProductId == 1 && nextOrderId == 1
    {
      categories, products, orders := [], [], [];
      nextCategoryId, nextProductId, nextOrderId := 1, 1, 1;
    }
  }
}
