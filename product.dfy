/**
 * The catalog: the listing query built from optional criteria (search
 * term, ratings, price bounds, category), its ordering and page, the
 * keyed lookups, the "similar products" lookup, and the two-phase
 * creation (an empty draft, filled in later by an update).
 */
module Products {
  import opened Common
  import opened Text
  import opened Query
  import opened Store
  import Categories

  /** The sort choices of a listing; any other value arrives as `None`. */
  datatype ProductSort = HighPrice | LowPrice | Newest | Oldest

  /** The query string of a listing, every parameter optional and still a string. */
  datatype ProductQuery = ProductQuery(
    sort: Option<ProductSort>,
    searchTerm: Option<string>,
    ratings: Option<string>,
    minPrice: Option<string>,
    maxPrice: Option<string>,
    categoryId: Option<string>,
    page: Option<string>,
    perPage: Option<string>)

  /** The body of an update request. */
  datatype ProductDto = ProductDto(
    name: string,
    description: string,
    price: int,
    images: seq<string>,
    categoryId: int)

  /** What the pagination helper hands back: where the page starts and how long it is. */
  datatype Pagination = Pagination(skip: nat, perPage: nat)

  /** A page of a listing and the number of products that match overall. */
  datatype ProductPage = ProductPage(products: seq<Product>, count: nat)

  // ---------------------------------------------------------------------
  // The query the listing sends to the store

  /** An integer filter: `gte` and `lte` bounds, either of which may be missing. */
  datatype IntFilter = IntFilter(gte: Option<int>, lte: Option<int>)

  /** One sub-filter of the listing query. */
  datatype Condition =
    | CategoryIs(categoryId: JsNumber)
    | PriceIn(range: Option<IntFilter>)       // `None`: `{ price: undefined }`
    | SomeReviewIn(ratings: seq<JsNumber>)
    | SearchText(term: string)

  /** `{}` or `{ AND: filters }`. */
  datatype ProductWhere = MatchAll | AllOf(filters: seq<Condition>)

  predicate InRange(range: Option<IntFilter>, price: int) {
    match range
    case None => true
    case Some(f) =>
      (f.gte.Some? ==> price >= f.gte.value) && (f.lte.Some? ==> price <= f.lte.value)
  }

  /** The product's category name, its name or its description contains the term, ignoring case. */
  predicate MentionsTerm(term: string, p: Product, cat: Option<Category>) {
    || (cat.Some? && ContainsInsensitive(cat.value.name, term))
    || ContainsInsensitive(p.name, term)
    || ContainsInsensitive(p.description, term)
  }

  /** How the store reads one sub-filter against a product and its category. */
  predicate Satisfies(c: Condition, p: Product, cat: Option<Category>)
    ensures c == PriceIn(None) ==> Satisfies(c, p, cat)
    ensures c == CategoryIs(None) || c == SomeReviewIn([]) ==> !Satisfies(c, p, cat)
  {
    match c
    case CategoryIs(id) => p.categoryId.Some? && id == Some(p.categoryId.value as int)
    case PriceIn(range) => InRange(range, p.price)
    case SomeReviewIn(ratings) => exists r :: r in p.reviews && Some(r.rating) in ratings
    case SearchText(term) => MentionsTerm(term, p, cat)
  }

  predicate SatisfiesAll(filters: seq<Condition>, p: Product, cat: Option<Category>) {
    forall k :: 0 <= k < |filters| ==> Satisfies(filters[k], p, cat)
  }

  /** How the store reads the whole `where` clause. */
  predicate Matches(w: ProductWhere, p: Product, cat: Option<Category>)
    ensures w == MatchAll || w == AllOf([]) ==> Matches(w, p, cat)
  {
    match w
    case MatchAll => true
    case AllOf(filters) => SatisfiesAll(filters, p, cat)
  }

  // ---------------------------------------------------------------------
  // What a listing is meant to select, criterion by criterion

  /**
   * The ratings parameter cut at every `|`, each piece read as a number,
   * in order; `RatingsRoundTrip` shows a list of numerals reads back as
   * written.
   */
  function ParseRatings(ratings: string): (r: seq<JsNumber>)
    ensures |r| == |Split(ratings, '|')|
    ensures forall k :: 0 <= k < |r| ==> r[k] == ToNumber(Split(ratings, '|')[k])
    ensures '|' !in ratings ==> r == [ToNumber(ratings)]
  {
    SplitWithoutSeparator(ratings, '|');
    var parts := Split(ratings, '|');
    seq(|parts|, k requires 0 <= k < |parts| => ToNumber(parts[k]))
  }

  /** The numerals of `ns`, as a client writes them into the `ratings` parameter. */
  function Numerals(ns: seq<nat>): (r: seq<string>)
    ensures |r| == |ns|
  {
    seq(|ns|, k requires 0 <= k < |ns| => Decimal(ns[k]))
  }

  /** A `|`-separated list of numerals parses back to the numbers it was written from. */
  lemma RatingsRoundTrip(ns: seq<nat>)
    requires |ns| > 0
    ensures ParseRatings(Join(Numerals(ns), '|')) == seq(|ns|, k requires 0 <= k < |ns| => Some(ns[k] as int))
  {
    var parts := Numerals(ns);
    forall k | 0 <= k < |parts| ensures '|' !in parts[k] {
      assert forall m :: 0 <= m < |parts[k]| ==> IsDigit(parts[k][m]);
    }
    SplitJoin(parts, '|');
    forall k | 0 <= k < |ns| ensures ToNumber(parts[k]) == Some(ns[k] as int) {
      DecimalRoundTrip(ns[k]);
    }
  }

  /** A bound that is 0 or NaN (falsy) is no bound. */
  predicate WithinBounds(minPrice: JsNumber, maxPrice: JsNumber, price: int) {
    (Truthy(minPrice) ==> price >= minPrice.value) && (Truthy(maxPrice) ==> price <= maxPrice.value)
  }

  /** Some criterion of the listing is present (a non-empty parameter). */
  predicate AnyCriterion(q: ProductQuery) {
    Present(q.searchTerm) || Present(q.ratings) || Present(q.minPrice) || Present(q.maxPrice)
      || Present(q.categoryId)
  }

  /**
   * A product is selected when it meets every criterion that is present;
   * `convert` is the number conversion applied to the price bounds.
   */
  predicate Selected(q: ProductQuery, convert: Option<string> -> JsNumber, p: Product, cat: Option<Category>)
    ensures !AnyCriterion(q) ==> Selected(q, convert, p, cat)
  {
    && (Present(q.searchTerm) ==> MentionsTerm(q.searchTerm.value, p, cat))
    && (Present(q.ratings) ==>
          exists r :: r in p.reviews && Some(r.rating) in ParseRatings(q.ratings.value))
    && (Present(q.minPrice) || Present(q.maxPrice) ==>
          WithinBounds(convert(q.minPrice), convert(q.maxPrice), p.price))
    && (Present(q.categoryId) ==>
          p.categoryId.Some? && ToNumber(q.categoryId.value) == Some(p.categoryId.value as int))
  }

  /** The products a listing selects, in table order. */
  function Selection(products: seq<Product>, categories: seq<Category>, q: ProductQuery,
                     convert: Option<string> -> JsNumber): (r: seq<Product>)
    ensures forall p :: p in r <==> p in products && Selected(q, convert, p, CategoryOf(p, categories))
    ensures forall p :: multiset(r)[p] == (
                 if Selected(q, convert, p, CategoryOf(p, categories)) then multiset(products)[p] else 0)
  {
    Where(products, (p: Product) => Selected(q, convert, p, CategoryOf(p, categories)))
  }

  // ---------------------------------------------------------------------
  // The sub-filter builders

  function CategoryFilter(categoryId: JsNumber): (c: Condition)
    ensures forall p, cat :: Satisfies(c, p, cat) <==>
      p.categoryId.Some? && categoryId == Some(p.categoryId.value as int)
  {
    CategoryIs(categoryId)
  }

  function RatingFilter(ratings: seq<JsNumber>): (c: Condition)
    ensures forall p, cat :: Satisfies(c, p, cat) <==>
      exists r :: r in p.reviews && Some(r.rating) in ratings
  {
    SomeReviewIn(ratings)
  }

  function SearchTermFilter(searchTerm: string): (c: Condition)
    ensures forall p, cat :: Satisfies(c, p, cat) <==> MentionsTerm(searchTerm, p, cat)
  {
    SearchText(searchTerm)
  }

  /** `{ ...filter }`: spreading `undefined` gives `{}`. */
  function Spread(filter: Option<IntFilter>): IntFilter {
    match filter
    case None => IntFilter(None, None)
    case Some(f) => f
  }

  /** Each present, truthy bound adds its side of the range; none gives `price: undefined`. */
  method GetPriceFilter(minPrice: JsNumber, maxPrice: JsNumber) returns (c: Condition)
    ensures c.PriceIn?
    ensures c.range.None? <==> !Truthy(minPrice) && !Truthy(maxPrice)
    ensures forall p, cat :: Satisfies(c, p, cat) <==> WithinBounds(minPrice, maxPrice, p.price)
  {
    var priceFilter: Option<IntFilter> := None;
    if Truthy(minPrice) {
      priceFilter := Some(Spread(priceFilter).(gte := Some(minPrice.value)));
    }
    if Truthy(maxPrice) {
      priceFilter := Some(Spread(priceFilter).(lte := Some(maxPrice.value)));
    }
    c := PriceIn(priceFilter);
  }

  lemma SatisfiesAllAppend(filters: seq<Condition>, c: Condition, p: Product, cat: Option<Category>)
    ensures SatisfiesAll(filters + [c], p, cat) <==> SatisfiesAll(filters, p, cat) && Satisfies(c, p, cat)
  {
    var fs := filters + [c];
    assert fs[|filters|] == c;
    if SatisfiesAll(filters, p, cat) && Satisfies(c, p, cat) {
      forall k | 0 <= k < |fs| ensures Satisfies(fs[k], p, cat) {
        if k < |filters| {
          assert fs[k] == filters[k];
        }
      }
    }
    if SatisfiesAll(fs, p, cat) {
      forall k | 0 <= k < |filters| ensures Satisfies(filters[k], p, cat) {
        assert fs[k] == filters[k];
      }
    }
  }

  // ---------------------------------------------------------------------
  // Ordering

  datatype SortField = Price | CreatedAt

  /** One `orderBy` entry: a column and a direction. */
  datatype Ordering = OrderBy(field: SortField, dir: Direction)

  function FieldKey(field: SortField): Product -> int {
    match field
    case Price => (p: Product) => p.price
    case CreatedAt => (p: Product) => p.createdAt
  }

  /** `a` may stand before `b` under the ordering. */
  predicate Precedes(o: Ordering, a: Product, b: Product) {
    InOrder(FieldKey(o.field), o.dir, a, b)
  }

  /** The store's read under an ordering. */
  function Ordered(s: seq<Product>, o: Ordering): (r: seq<Product>)
    ensures multiset(r) == multiset(s)
    ensures |r| == |s| && forall p :: p in r <==> p in s
    ensures forall i, j :: 0 <= i < j < |r| ==> Precedes(o, r[i], r[j])
  {
    var r := SortBy(s, FieldKey(o.field), o.dir);
    assert |r| == |s| by {
      assert |multiset(r)| == |multiset(s)|;
    }
    assert forall p :: p in r <==> p in multiset(r);
    assert forall p :: p in s <==> p in multiset(s);
    r
  }

  /**
   * HIGH_PRICE puts dearer products first, LOW_PRICE cheaper ones, OLDEST
   * older ones; anything else, or nothing, puts newer ones first.
   */
  function GetSortOptions(sort: Option<ProductSort>): (o: Ordering)
    ensures forall a, b :: Precedes(o, a, b) <==>
      match sort
      case Some(HighPrice) => a.price >= b.price
      case Some(LowPrice) => a.price <= b.price
      case Some(Oldest) => a.createdAt <= b.createdAt
      case _ => a.createdAt >= b.createdAt
  {
    match sort
    case Some(HighPrice) => OrderBy(Price, Desc)
    case Some(LowPrice) => OrderBy(Price, Asc)
    case Some(Oldest) => OrderBy(CreatedAt, Asc)
    case _ => OrderBy(CreatedAt, Desc)
  }

  /** The rows `getSimilar` reads: same category name, another id. */
  predicate SimilarTo(src: Product, srcCategory: Category, p: Product, categories: seq<Category>) {
    var cat := CategoryOf(p, categories);
    cat.Some? && cat.value.name == srcCategory.name && p.id != src.id
  }

  function SimilarRows(products: seq<Product>, categories: seq<Category>, src: Product, srcCategory: Category): (r: seq<Product>)
    ensures forall p :: p in r <==> p in products && SimilarTo(src, srcCategory, p, categories)
    ensures forall p :: multiset(r)[p] == (
                 if SimilarTo(src, srcCategory, p, categories) then multiset(products)[p] else 0)
  {
    Where(products, (p: Product) => SimilarTo(src, srcCategory, p, categories))
  }

  /** The product's category exists and has `slug`. */
  predicate InCategoryWith(p: Product, categories: seq<Category>, slug: string) {
    CategoryOf(p, categories).Some? && CategoryOf(p, categories).value.slug == slug
  }

  /** The products whose category has `slug`, in table order. */
  function InCategory(products: seq<Product>, categories: seq<Category>, slug: string): (r: seq<Product>)
    ensures forall p :: p in r <==> p in products && InCategoryWith(p, categories, slug)
    ensures forall p :: multiset(r)[p] == if InCategoryWith(p, categories, slug) then multiset(products)[p] else 0
  {
    Where(products, (p: Product) => InCategoryWith(p, categories, slug))
  }

  /** The row `create` inserts: empty name, slug and description, price 0, no category yet. */
  function Draft(id: nat, now: int): Product {
    Product(id, "", "", "", 0, [], None, now, [])
  }

  /** The row after an update: the request's fields, the given slug, and the same id, date and reviews. */
  function Revised(p: Product, dto: ProductDto, slug: string): (r: Product)
    requires dto.categoryId >= 0
    ensures r.id == p.id && r.createdAt == p.createdAt && r.reviews == p.reviews
    ensures r.name == dto.name && r.slug == slug && r.description == dto.description
    ensures r.price == dto.price && r.images == dto.images && r.categoryId == Some(dto.categoryId as nat)
  {
    p.(name := dto.name, slug := slug, description := dto.description, price := dto.price,
       images := dto.images, categoryId := Some(dto.categoryId as nat))
  }

  /** The table after an update of the row with `id`; every other row stays as it was. */
  function Revise(ps: seq<Product>, id: int, dto: ProductDto, slug: string): (r: seq<Product>)
    requires dto.categoryId >= 0
    ensures |r| == |ps|
    ensures forall i :: 0 <= i < |ps| ==> r[i] == if ps[i].id == id then Revised(ps[i], dto, slug) else ps[i]
  {
    UpdateWhere(ps, (p: Product) => p.id == id, (p: Product) => Revised(p, dto, slug))
  }

  /** The table after a delete: exactly the rows with `id` are gone. */
  function Removed(ps: seq<Product>, id: int): (r: seq<Product>)
    ensures forall p :: p in r <==> p in ps && p.id != id
  {
    Where(ps, (p: Product) => p.id != id)
  }

  /**
   * The listing's answer: the requested page of the selected products in
   * the requested order, and the number of selected products.
   */
  function Listing(products: seq<Product>, categories: seq<Category>, q: ProductQuery,
                   convert: Option<string> -> JsNumber, pagination: Pagination): ProductPage
  {
    var selection := Selection(products, categories, q, convert);
    ProductPage(Window(Ordered(selection, GetSortOptions(q.sort)), pagination.skip, pagination.perPage),
                |selection|)
  }

  /**
   * The page holds only selected products, in the requested order, and no
   * more of them than the count.
   */
  lemma ListingFacts(products: seq<Product>, categories: seq<Category>, q: ProductQuery,
                     convert: Option<string> -> JsNumber, pagination: Pagination)
    ensures var r := Listing(products, categories, q, convert, pagination);
      && |r.products| <= r.count
      && (forall p :: p in r.products ==> p in products && Selected(q, convert, p, CategoryOf(p, categories)))
      && (forall i, j :: 0 <= i < j < |r.products| ==> Precedes(GetSortOptions(q.sort), r.products[i], r.products[j]))
  {
    var selection := Selection(products, categories, q, convert);
    var order := GetSortOptions(q.sort);
    var sorted := Ordered(selection, order);
    WindowWithin(sorted, pagination.skip, pagination.perPage);
    WindowSorted(sorted, pagination.skip, pagination.perPage, FieldKey(order.field), order.dir);
  }

  // ---------------------------------------------------------------------
  // The service

  class ProductService {
    const db: Database
    const categoryService: Categories.CategoryService
    const generateSlug: string -> string
    const convertToNumber: Option<string> -> JsNumber
    const getPagination: ProductQuery -> Pagination

    constructor (db: Database, categoryService: Categories.CategoryService,
                 generateSlug: string -> string, convertToNumber: Option<string> -> JsNumber,
                 getPagination: ProductQuery -> Pagination)
      requires categoryService.db == db
      ensures Wired()
      ensures this.db == db && this.categoryService == categoryService
      ensures this.generateSlug == generateSlug && this.convertToNumber == convertToNumber
      ensures this.getPagination == getPagination
    {
      this.db := db;
      this.categoryService := categoryService;
      this.generateSlug := generateSlug;
      this.convertToNumber := convertToNumber;
      this.getPagination := getPagination;
    }

    /** The category service reads the same store. */
    predicate Wired() {
      categoryService.db == db
    }

    /**
     * One sub-filter per present criterion, joined by AND; with none the
     * filter is `{}`, which every product matches.
     */
    method CreateFilter(dto: ProductQuery) returns (w: ProductWhere)
      ensures w.MatchAll? <==> !AnyCriterion(dto)
      ensures forall p, cat :: Matches(w, p, cat) <==> Selected(dto, convertToNumber, p, cat)
    {
      var filters: seq<Condition> := [];
      if Present(dto.searchTerm) {
        var c := SearchTermFilter(dto.searchTerm.value);
        forall p, cat ensures SatisfiesAll(filters + [c], p, cat) <==> SatisfiesAll(filters, p, cat) && Satisfies(c, p, cat) {
          SatisfiesAllAppend(filters, c, p, cat);
        }
        filters := filters + [c];
      }
      assert A: forall p, cat :: SatisfiesAll(filters, p, cat) <==>
        (Present(dto.searchTerm) ==> MentionsTerm(dto.searchTerm.value, p, cat));
      if Present(dto.ratings) {
        var c := RatingFilter(ParseRatings(dto.ratings.value));
        forall p, cat ensures SatisfiesAll(filters + [c], p, cat) <==> SatisfiesAll(filters, p, cat) && Satisfies(c, p, cat) {
          SatisfiesAllAppend(filters, c, p, cat);
        }
        filters := filters + [c];
      }
      assert B: forall p, cat :: SatisfiesAll(filters, p, cat) <==>
        && (Present(dto.searchTerm) ==> MentionsTerm(dto.searchTerm.value, p, cat))
        && (Present(dto.ratings) ==> exists r :: r in p.reviews && Some(r.rating) in ParseRatings(dto.ratings.value));
      if Present(dto.minPrice) || Present(dto.maxPrice) {
        var c := GetPriceFilter(convertToNumber(dto.minPrice), convertToNumber(dto.maxPrice));
        forall p, cat ensures SatisfiesAll(filters + [c], p, cat) <==> SatisfiesAll(filters, p, cat) && Satisfies(c, p, cat) {
          SatisfiesAllAppend(filters, c, p, cat);
        }
        filters := filters + [c];
      }
      assert C: forall p, cat :: SatisfiesAll(filters, p, cat) <==>
        && (Present(dto.searchTerm) ==> MentionsTerm(dto.searchTerm.value, p, cat))
        && (Present(dto.ratings) ==> exists r :: r in p.reviews && Some(r.rating) in ParseRatings(dto.ratings.value))
        && (Present(dto.minPrice) || Present(dto.maxPrice) ==>
              WithinBounds(convertToNumber(dto.minPrice), convertToNumber(dto.maxPrice), p.price));
      if Present(dto.categoryId) {
        var c := CategoryFilter(ToNumber(dto.categoryId.value));
        forall p, cat ensures SatisfiesAll(filters + [c], p, cat) <==> SatisfiesAll(filters, p, cat) && Satisfies(c, p, cat) {
          SatisfiesAllAppend(filters, c, p, cat);
        }
        filters := filters + [c];
      }
      assert forall p, cat :: SatisfiesAll(filters, p, cat) <==> Selected(dto, convertToNumber, p, cat);
      assert |filters| > 0 <==> AnyCriterion(dto);
      w := if |filters| > 0 then AllOf(filters) else MatchAll;
    }

    /**
     * A page of the listing and the count of all matches. The page is the
     * slice, from `skip` and at most `perPage` long, of the selected
     * products in the requested order; the count is taken over the same
     * filter. No matches give an empty page, not an error.
     */
    method GetAll(dto: ProductQuery) returns (r: ProductPage)
      ensures r == Listing(db.products, db.categories, dto, convertToNumber, getPagination(dto))
      ensures |r.products| <= r.count
      ensures r.count == |Selection(db.products, db.categories, dto, convertToNumber)|
      ensures forall p :: p in r.products ==>
        p in db.products && Selected(dto, convertToNumber, p, CategoryOf(p, db.categories))
      ensures forall i, j :: 0 <= i < j < |r.products| ==> Precedes(GetSortOptions(dto.sort), r.products[i], r.products[j])
    {
      var filters := CreateFilter(dto);
      var pagination := getPagination(dto);
      var categories := db.categories;
      var matching := Where(db.products, (p: Product) => Matches(filters, p, CategoryOf(p, categories)));
      WhereSame(db.products, (p: Product) => Matches(filters, p, CategoryOf(p, categories)),
                (p: Product) => Selected(dto, convertToNumber, p, CategoryOf(p, categories)));
      var products := Window(Ordered(matching, GetSortOptions(dto.sort)), pagination.skip, pagination.perPage);
      var count := |Where(db.products, (p: Product) => Matches(filters, p, CategoryOf(p, categories)))|;
      r := ProductPage(products, count);
      ListingFacts(db.products, categories, dto, convertToNumber, pagination);
    }

    /** The product with `id`, or NotFound. */
    method ById(id: int) returns (r: Result<Product>)
      requires db.Valid()
      ensures r.Ok? ==> r.value in db.products && r.value.id == id
      ensures r.Ok? ==> forall p :: p in db.products && p.id == id ==> p == r.value
      ensures r.Err? ==> r.error == NotFound && forall p :: p in db.products ==> p.id != id
    {
      var found := FindFirst(db.products, (p: Product) => p.id == id);
      if found.None? {
        r := Err(NotFound);
      } else {
        r := Ok(found.value);
        forall p | p in db.products && p.id == id ensures p == r.value {
          UniqueRow(db.products, ProductKey, p, r.value);
        }
      }
    }

    /** The product with `slug`, or NotFound. */
    method BySlug(slug: string) returns (r: Result<Product>)
      requires db.Valid()
      ensures r.Ok? ==> r.value in db.products && r.value.slug == slug
      ensures r.Ok? ==> forall p :: p in db.products && p.slug == slug ==> p == r.value
      ensures r.Err? ==> r.error == NotFound && forall p :: p in db.products ==> p.slug != slug
    {
      var found := FindFirst(db.products, (p: Product) => p.slug == slug);
      if found.None? {
        r := Err(NotFound);
      } else {
        r := Ok(found.value);
        forall p | p in db.products && p.slug == slug ensures p == r.value {
          UniqueRow(db.products, ProductSlug, p, r.value);
        }
      }
    }

    /** Every product whose category has `categorySlug`; possibly none. */
    method ByCategory(categorySlug: string) returns (r: seq<Product>)
      ensures forall p :: p in r <==> p in db.products && InCategoryWith(p, db.categories, categorySlug)
      ensures multiset(r) == multiset(InCategory(db.products, db.categories, categorySlug))
    {
      r := InCategory(db.products, db.categories, categorySlug);
    }

    /**
     * The other products in a category of the same name as the product
     * with `id`, newest first. NotFound when there is no such product, and
     * a fault when it has no category to take the name from.
     */
    method GetSimilar(id: int) returns (r: Result<seq<Product>>)
      requires db.Valid()
      ensures (forall p :: p in db.products ==> p.id != id) <==> r == Err(NotFound)
      ensures r == Err(Fault) <==>
        exists p :: p in db.products && p.id == id && CategoryOf(p, db.categories).None?
      ensures r.Err? ==> r.error in {NotFound, Fault}
      ensures r.Ok? ==> exists src :: (src in db.products && src.id == id && CategoryOf(src, db.categories).Some? &&
        (forall p :: p in r.value <==> SimilarTo(src, CategoryOf(src, db.categories).value, p, db.categories) && p in db.products) &&
        multiset(r.value) == multiset(SimilarRows(db.products, db.categories, src, CategoryOf(src, db.categories).value)))
      ensures r.Ok? ==> forall i, j :: 0 <= i < j < |r.value| ==> r.value[i].createdAt >= r.value[j].createdAt
    {
      var current := ById(id);
      if current.Err? {
        r := Err(NotFound);
        return;
      }
      var src := current.value;
      var category := CategoryOf(src, db.categories);
      if category.None? {
        r := Err(Fault);
        return;
      }
      var rows := SimilarRows(db.products, db.categories, src, category.value);
      var products := Ordered(rows, OrderBy(CreatedAt, Desc));
      r := Ok(products);
    }

    /**
     * Phase one of creating a product: inserts an empty draft under the
     * next id and returns the id. The slug column is unique, so this fails
     * while another product still has the empty slug.
     */
    method Create(now: int) returns (r: Result<nat>)
      requires db.Valid()
      modifies db
      ensures db.Valid()
      ensures r.Ok? <==> forall p :: p in old(db.products) ==> p.slug != ""
      ensures r.Ok? ==> r.value == old(db.nextProductId) && forall p :: p in old(db.products) ==> p.id != r.value
      ensures r.Ok? ==> db.products == old(db.products) + [Draft(r.value, now)]
      ensures r.Ok? ==> db.nextProductId == old(db.nextProductId) + 1
      ensures r.Err? ==> r.error == Conflict
      ensures r.Err? ==> db.products == old(db.products) && db.nextProductId == old(db.nextProductId)
      ensures db.categories == old(db.categories) && db.nextCategoryId == old(db.nextCategoryId)
      ensures db.orders == old(db.orders) && db.nextOrderId == old(db.nextOrderId)
    {
      var clash := FindFirst(db.products, (p: Product) => p.slug == "");
      if clash.Some? {
        r := Err(Conflict);
        return;
      }
      var draft := Draft(db.nextProductId, now);
      forall p | p in db.products ensures p.id != draft.id {
        var i :| 0 <= i < |db.products| && db.products[i] == p;
        assert ProductKey(db.products[i]) < db.nextProductId;
      }
      AppendKeyed(db.products, ProductKey, db.nextProductId, draft);
      AppendUnique(db.products, ProductSlug, draft);
      db.products := db.products + [draft];
      db.nextProductId := db.nextProductId + 1;
      r := Ok(draft.id);
    }

    /**
     * Phase two: fills in the product with `id` from the request, with the
     * slug generated from the name. The category must exist first; then
     * the product must exist, and no other product may have the slug.
     */
    method Update(id: int, dto: ProductDto) returns (r: Result<Product>)
      requires db.Valid() && Wired()
      modifies db
      ensures db.Valid()
      ensures r == Err(NotFound) <==>
        (forall c :: c in old(db.categories) ==> c.id != dto.categoryId) ||
        (forall p :: p in old(db.products) ==> p.id != id)
      ensures var slug := generateSlug(dto.name);
        (exists c :: c in old(db.categories) && c.id == dto.categoryId) &&
        (exists p :: p in old(db.products) && p.id == id) ==>
          && (r.Err? <==> exists p :: p in old(db.products) && p.slug == slug && p.id != id)
          && (r.Err? ==> r.error == Conflict)
      ensures r.Err? ==> r.error in {NotFound, Conflict} && db.products == old(db.products)
      ensures r.Ok? ==> dto.categoryId >= 0
      ensures r.Ok? ==> exists p :: p in old(db.products) && p.id == id && r.value == Revised(p, dto, generateSlug(dto.name))
      ensures r.Ok? ==> db.products == Revise(old(db.products), id, dto, generateSlug(dto.name))
      ensures db.nextProductId == old(db.nextProductId)
      ensures db.categories == old(db.categories) && db.nextCategoryId == old(db.nextCategoryId)
      ensures db.orders == old(db.orders) && db.nextOrderId == old(db.nextOrderId)
    {
      var category := categoryService.ById(dto.categoryId);
      if category.Err? {
        r := Err(NotFound);
        return;
      }
      var target := FindFirst(db.products, (p: Product) => p.id == id);
      if target.None? {
        r := Err(NotFound);
        return;
      }
      var slug := generateSlug(dto.name);
      var clash := FindFirst(db.products, (p: Product) => p.slug == slug && p.id != id);
      if clash.Some? {
        r := Err(Conflict);
        return;
      }
      var ps := db.products;
      var updated := Revise(ps, id, dto, slug);
      assert Keyed(updated, ProductKey, db.nextProductId) by {
        forall i | 0 <= i < |updated| ensures ProductKey(updated[i]) == ProductKey(ps[i]) {
        }
      }
      UpdateOneUnique(ps, (p: Product) => p.id == id, (p: Product) => Revised(p, dto, slug), ProductSlug)
        by {
          forall i, j | 0 <= i < j < |ps| ensures !(ps[i].id == id && ps[j].id == id) {
            assert ProductKey(ps[i]) != ProductKey(ps[j]);
          }
          forall i, j | 0 <= i < |ps| && 0 <= j < |ps| && ps[i].id == id && ps[j].id != id
            ensures slug != ps[j].slug
          {
            assert ps[j] in ps;
          }
        }
      db.products := updated;
      r := Ok(Revised(target.value, dto, slug));
    }

    /** Deletes the product with `id` and returns it, or fails with NotFound. */
    method Delete(id: int) returns (r: Result<Product>)
      requires db.Valid()
      modifies db
      ensures db.Valid()
      ensures r.Ok? ==> r.value in old(db.products) && r.value.id == id
      ensures r.Ok? ==> db.products == Removed(old(db.products), id)
      ensures r.Err? <==> forall p :: p in old(db.products) ==> p.id != id
      ensures r.Err? ==> r.error == NotFound && db.products == old(db.products)
      ensures db.nextProductId == old(db.nextProductId)
      ensures db.categories == old(db.categories) && db.nextCategoryId == old(db.nextCategoryId)
      ensures db.orders == old(db.orders) && db.nextOrderId == old(db.nextOrderId)
    {
      var product := ById(id);
      if product.Err? {
        r := Err(NotFound);
        return;
      }
      WhereKeyed(db.products, (p: Product) => p.id != id, ProductKey, db.nextProductId);
      WhereUnique(db.products, (p: Product) => p.id != id, ProductSlug);
      db.products := Removed(db.products, id);
      r := Ok(product.value);
    }
  }
}
