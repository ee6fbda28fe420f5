# Catalog, order and category services of an e-commerce backend

This project models the three services at the centre of a NestJS and
Prisma shop backend, together with the proofs about them:

- **ProductService** builds the listing query from optional query-string
  criteria: a search term, a `|`-separated list of ratings, price bounds
  and a category. It orders the matches (four sort choices), returns one
  page of them along with the match count, and looks products up by id,
  by slug or by category slug. It also finds "similar" products, which
  are those in a category with the same name. A product is created in two
  phases: first an empty draft, then an update guarded by the category's
  existence.
- **OrderService** lists orders newest first, either all of them or one
  user's. It places an order whose total is a fold of quantity × price
  over its lines. It also handles a payment notification, which reads the
  order id out of the payment description (the text between the first
  `#` and the next `#`, or the end) and marks that order `PAYED`.
- **CategoryService** looks categories up by id and by slug, creates an
  empty category, renames one (which regenerates its slug) and deletes
  one.

The services share one store, `Store.Database`, which stands in for the
Prisma client. It holds one table per entity as a sequence of rows in
insertion order, together with the id that the next insert will receive.
Its invariant `Valid()` captures the constraints the services rely on:
ids are fresh and distinct, and slugs are distinct. Every service method
that changes a table keeps this invariant, states the new content of the
table it changes, and leaves the other tables alone.

The model has seven files:

- `common.dfy`: option and result values, the service errors, and
  JavaScript truthiness.
- `text.dfy`: `Number()` on decimal numerals, `split`/`join` on one
  character, and ASCII case-insensitive `contains`.
- `query.dfy`: what the services ask of the store, namely `where`, first
  match, `orderBy` (a stable insertion sort), `skip`/`take`, an update of
  the matching rows, and column uniqueness.
- `store.dfy`: the records and the `Database` class.
- `category.dfy`, `product.dfy` and `order.dfy`: one module and one class
  per service.

Each imperative piece of the source is a method:

- `getPriceFilter` reassigns its local filter step by step.
- `createFilter` pushes onto a local array.
- The mutators reassign the table fields of `Database`.

The pure pieces are functions: the category, rating and search-term
sub-filter builders and `getSortOptions`, whose own `ensures` state what
they mean, and the total fold, whose meaning lemmas state against a
separate sum.

Behaviour outside TypeScript, and how the model handles it:

- **Store errors.** The store fails on some updates, deletes and
  inserts, and the model returns these failures as `Result` errors:
  - `NotFound` when the record to update or delete is missing.
  - `Conflict` when a unique slug would be duplicated. As a result, a
    second draft product or category cannot be created while an earlier
    draft still has the empty slug.
  - `Malformed` when an order id is NaN.
- **A draft in `getSimilar`.** The source reads the name of a null
  category when the product is a draft, which raises a TypeError. The
  model returns `Fault` for this case.
- **Unreachable throws.** The `!products` checks never throw, because an
  array is always truthy. The list operations therefore return plain
  sequences.

## Model

| member | source | states |
|---|---|---|
| Products.CategoryFilter | src/product/product.service.ts:24-26 | the filter admits exactly the products whose category id equals the given number; NaN admits nothing |
| Products.GetPriceFilter | src/product/product.service.ts:28-38 | the price range is undefined exactly when neither bound is truthy; a product matches iff its price is ≥ each truthy min and ≤ each truthy max, so a bound that is 0 or NaN adds no constraint |
| Products.RatingFilter | src/product/product.service.ts:40-50 | a product matches iff at least one of its reviews has a rating in the list |
| Products.SearchTermFilter | src/product/product.service.ts:52-77 | a product matches iff the term occurs, ignoring case, in its category's name, its name or its description |
| Text.ContainsIgnoringCase | src/product/product.service.ts:58-59 | the `insensitive` contains matches every text that holds the term in any letter case |
| Text.ContainsIff | src/product/product.service.ts:58 | `contains` holds exactly when the needle starts at some position of the text |
| Products.ParseRatings | src/product/product.service.ts:103 | the ratings parameter cut at `|`, each piece read as a number; a parameter without `|` gives one number; RatingsRoundTrip states its value on a list of numerals |
| Text.ToNumber | src/order/order.service.ts:92 | `Number` of a string is a number exactly when the string is a numeral (otherwise NaN), never negative, and the empty string reads as 0 |
| Text.Split | src/product/product.service.ts:103 | `split` gives at least one piece and no piece holds the separator |
| Text.ContainsInsensitive | src/product/product.service.ts:58-59 | the case-insensitive contains; an empty term matches every text |
| Products.RatingsRoundTrip | src/product/product.service.ts:103 | a `|`-joined list of numerals parses back to exactly those numbers, in order |
| Text.DecimalRoundTrip | src/order/order.service.ts:92 | `Number` of the decimal numeral of n is n |
| Text.SplitWithoutSeparator | src/product/product.service.ts:103 | a string without the separator splits into itself alone |
| Text.JoinSplit | src/product/product.service.ts:103 | joining the pieces of `split` gives back the original string |
| Text.SplitJoin | src/product/product.service.ts:103 | splitting a join of separator-free pieces gives back the pieces |
| Text.SplitHasSecond | src/order/order.service.ts:92 | `split(sep)[1]` exists exactly when the separator occurs |
| Text.SecondPiece | src/order/order.service.ts:92 | piece 1 of the split is the text between the first separator and the next one or the end |
| Products.GetSortOptions | src/product/product.service.ts:79-91 | HIGH_PRICE orders by price descending, LOW_PRICE by price ascending, OLDEST by createdAt ascending, and anything else or nothing by createdAt descending |
| Products.Ordered | src/product/product.service.ts:126 | the ordered read is a permutation of its input and every pair is in the requested order |
| Products.ProductService.CreateFilter | src/product/product.service.ts:94-117 | the filter is `{}` exactly when no criterion is present; a product matches iff it meets every present criterion |
| Products.Selection | src/product/product.service.ts:94-117 | the selected products are exactly the table's products that meet every present criterion, each as often as it occurs in the table |
| Products.ListingFacts | src/product/product.service.ts:119-140 | the page only holds selected products, in the requested order, and is no longer than the count |
| Products.Listing | src/product/product.service.ts:119-140 | the answer of a listing: the page of the ordered selection and its count; what it guarantees is stated by ListingFacts |
| Products.Selected | src/product/product.service.ts:94-117 | the reference meaning of a listing query, criterion by criterion; with no criterion present every product is selected |
| Products.Satisfies | src/product/product.service.ts:24-77 | how the store reads one sub-filter; `price: undefined` admits every product, and a NaN category or an empty rating list admits none |
| Products.Matches | src/product/product.service.ts:116 | how the store reads the whole filter; `{}` and an empty AND admit every product |
| Products.ProductService.GetAll | src/product/product.service.ts:119-140 | the page is the `skip`/`perPage` slice of the sorted selection, and the count is the length of the selection taken with the same filter; an empty selection gives an empty page |
| Query.Window | src/product/product.service.ts:127-128 | the page has min(take, length − skip) rows (none past the end), and row i is row skip + i |
| Query.WindowWithin | src/product/product.service.ts:127-128 | a page holds only rows of the table and is no longer than the table |
| Query.WindowSorted | src/product/product.service.ts:126-128 | a page of an ordered read is ordered |
| Query.SortBy | src/order/order.service.ts:15-17 | `orderBy` on one column returns a permutation of the rows, ordered by that column |
| Query.InsertSorted | src/order/order.service.ts:15-17 | inserting a row into an ordered sequence keeps it ordered |
| Query.Where | src/product/product.service.ts:188-196 | a filtered read holds exactly the rows the filter admits, each as often as in the table, and no more rows than the table |
| Query.WhereSame | src/product/product.service.ts:125-137 | two filters that agree on every row select the same rows, which is why page and count agree |
| Query.FindFirst | src/product/product.service.ts:143-148 | a lookup returns the first matching row in table order, or nothing exactly when no row matches |
| Query.UniqueRow | src/product/product.service.ts:143-148 | on a unique column, a value names at most one row |
| Query.WhereUnique | src/product/product.service.ts:251-255 | deleting rows keeps a column unique |
| Store.CategoryOf | src/product/product.service.ts:56-61 | the category relation is the category whose id the product holds, or null when the product has no category or that category is gone |
| Store.AppendKeyed | src/product/product.service.ts:209-216 | an insert under the next id keeps the ids fresh and distinct |
| Store.AppendUnique | src/product/product.service.ts:209-216 | an insert of a slug that no row holds keeps the slug column unique |
| Store.WhereKeyed | src/product/product.service.ts:251-255 | deleting rows keeps the ids fresh and distinct |
| Store.UpdateOneUnique | src/product/product.service.ts:227-243 | rewriting one row keeps a column unique when the new value clashes with no other row |
| Store.Database.constructor | src/product/product.service.ts:19 | the store starts empty, with every id sequence at 1 |
| Products.ProductService.ById | src/product/product.service.ts:142-153 | returns the one product with that id, or NotFound exactly when there is none |
| Products.ProductService.BySlug | src/product/product.service.ts:155-166 | returns the one product with that slug, or NotFound exactly when there is none |
| Products.ProductService.ByCategory | src/product/product.service.ts:168-181 | returns exactly the products whose category has the slug, each as often as in the table; none is an empty answer |
| Products.InCategory | src/product/product.service.ts:169-176 | the products whose joined category has the slug, each as often as in the table |
| Products.SimilarRows | src/product/product.service.ts:188-196 | exactly the products in a category of the source's category name, other than the source, each as often as in the table |
| Products.ProductService.GetSimilar | src/product/product.service.ts:183-206 | NotFound exactly when no product has the id; Fault exactly when it has no category; otherwise a permutation of the other products in a category of the same name, never the source, createdAt descending |
| Products.ProductService.Create | src/product/product.service.ts:208-220 | inserts a draft with empty name, slug and description, price 0 and no category under a fresh id, and returns the id; Conflict, with nothing changed, exactly when a product already has the empty slug |
| Products.Revised | src/product/product.service.ts:227-243 | the updated row has the request's name, description, price, images and category, the generated slug, and keeps its id, date and reviews |
| Products.Draft | src/product/product.service.ts:209-216 | the row `create` inserts: empty name, slug and description, price 0, no images, no category, no reviews |
| Products.ProductService.constructor | src/product/product.service.ts:18-22 | the service reads the same store as the category service it calls |
| Products.Revise | src/product/product.service.ts:227-243 | only the row with the id changes |
| Products.ProductService.Update | src/product/product.service.ts:222-244 | NotFound, before anything changes, exactly when the category or the product is missing; when both exist, Conflict exactly when another product has the generated slug; otherwise only the target changes, with slug = generateSlug(name) |
| Products.Removed | src/product/product.service.ts:251-255 | the table after a delete holds exactly the rows with another id |
| Products.ProductService.Delete | src/product/product.service.ts:246-256 | NotFound, with nothing changed, exactly when no product has the id; otherwise the product is returned and exactly that row is gone |
| Orders.FoldIsSum | src/order/order.service.ts:59-61 | the fold from acc equals acc plus the sum of quantity × price over the lines |
| Orders.FoldTotal | src/order/order.service.ts:59-61 | the left fold of quantity × price from an accumulator; FoldIsSum states its value |
| Orders.Total | src/order/order.service.ts:59-61 | the fold from 0; TotalIsSum, TotalAppend and TotalNonNegative state its value |
| Orders.TotalIsSum | src/order/order.service.ts:59-61 | the total is the sum of quantity × price over the lines, and no lines give 0 |
| Orders.SumAppend | src/order/order.service.ts:59-61 | the reference sum of two lists together is the sum of their sums |
| Orders.TotalAppend | src/order/order.service.ts:59-61 | the total of two lists of lines together is the sum of their totals |
| Orders.TotalNonNegative | src/order/order.service.ts:59-61 | lines without negative quantities or prices give a total of at least 0 |
| Orders.OrderService.PlaceOrder | src/order/order.service.ts:58-81 | appends and returns one order under a fresh id holding exactly the request's lines and status (PENDING when absent), the folded total and the user id; existing orders are unchanged |
| Orders.OrderService.GetAll | src/order/order.service.ts:13-32 | every order, each as often as stored, newest first |
| Orders.OrderService.GetByUserId | src/order/order.service.ts:34-56 | exactly the orders of the user, newest first; none is an empty answer |
| Orders.OrderIdOfNoHash | src/order/order.service.ts:92 | a description without `#` names no order (NaN) |
| Orders.OrderIdOf | src/order/order.service.ts:92 | the order id of a description, read from the piece between the first `#` and the next; a number only when the description has a `#`, and never negative |
| Orders.OrderService.constructor | src/order/order.service.ts:11 | the service works on the given store |
| Orders.OrderIdOfNonNumeral | src/order/order.service.ts:92 | a description whose piece after the first `#` is not a numeral names no order (NaN), so the paid update fails |
| Orders.OrderIdOfNumbered | src/order/order.service.ts:92 | `text#<id>`, possibly followed by `#...`, names order id |
| Orders.HasOrderIff | src/order/order.service.ts:94-98 | the update finds a row exactly when some order has the id |
| Orders.MarkPayed | src/order/order.service.ts:94-102 | only the row with the id changes, and only to status PAYED |
| Orders.HasOrderAfterMark | src/order/order.service.ts:94-102 | marking an order paid keeps every id findable exactly as before |
| Orders.AfterEventIdempotent | src/order/order.service.ts:94-102 | delivering the same event twice leaves the table, and the answer, as delivering it once |
| Orders.AfterEventChangesOnlyTarget | src/order/order.service.ts:94-102 | only the status of the order with the parsed id changes, and it becomes PAYED whatever it was; every other order and every other field stays |
| Orders.SucceededFailsIff | src/order/order.service.ts:91-102 | a succeeded payment fails exactly when the description names no number or no order has it, with Malformed exactly in the first case |
| Orders.AfterEventUnchanged | src/order/order.service.ts:84-89 | a failed update and every other event leave the table as it was; waiting_for_capture answers the placeholder, and any other event answers `Success` |
| Orders.Outcome | src/order/order.service.ts:83-108 | the handler's answer; an error only for a succeeded payment, and only Malformed or NotFound; `true` only for a succeeded payment with a numeric id |
| Orders.AfterEvent | src/order/order.service.ts:94-102 | the order table after the handler; the same length, and unchanged for any event other than a succeeded payment |
| Orders.OrderService.UpdateStatus | src/order/order.service.ts:83-108 | the answer and the new order table are those of the event; the other tables are untouched |
| Categories.CategoryService.constructor | src/category/category.service.ts:9 | the service works on the given store and slug generator |
| Categories.CategoryService.GetAll | src/category/category.service.ts:11-19 | every category; an empty table is an empty answer, not an error |
| Categories.CategoryService.ById | src/category/category.service.ts:21-32 | returns the one category with that id, or NotFound exactly when there is none |
| Categories.CategoryService.BySlug | src/category/category.service.ts:34-45 | returns the one category with that slug, or NotFound exactly when there is none |
| Categories.CategoryService.Create | src/category/category.service.ts:47-54 | appends one category with empty name and slug under a fresh id, keeping existing categories; Conflict exactly when a category already has the empty slug |
| Categories.Renamed | src/category/category.service.ts:56-66 | only the row with the id changes, to the new name and slug |
| Categories.SlugTakenIff | src/category/category.service.ts:56-66 | the unique check fails exactly when another category has the slug |
| Categories.CategoryService.Update | src/category/category.service.ts:56-66 | NotFound exactly when no category has the id; when it exists, Conflict exactly when another has generateSlug(name); otherwise name := dto.name and slug := generateSlug(dto.name) on that row only |
| Categories.Removed | src/category/category.service.ts:68-74 | the table after a delete holds exactly the rows with another id |
| Categories.CategoryService.Delete | src/category/category.service.ts:68-74 | NotFound, with nothing changed, exactly when no category has the id; otherwise exactly that row is gone |

## Left out

- Controllers, module files, the statistics service and the review service: they hold routing, dependency wiring, a hard-coded figure and a floating-point aggregate, not service logic.
- `generateSlug`, `convertToNumber` and `PaginationService.getPagination` are not part of this model. They are opaque functions passed to the services. Their types assume two things: `convertToNumber` gives an integer or NaN (no fractions), and `getPagination` gives a non-negative `skip` and `perPage`. The store rejects a negative `skip` and reads a negative `take` backwards; neither case is modelled.
- The clock: `createdAt` takes the insert time from the database, and the model takes it as the `now` parameter.
- `Number()` on whitespace, signs, hexadecimal, exponents and fractions is not modelled. Only decimal digit strings are numbers (the empty string is 0) and every other string is NaN.
- Integers are unbounded. Floating-point prices and totals, and JavaScript's loss of precision above 2^53, are not modelled.
- Products.CategoryFilter: a NaN category id or rating is taken to match nothing. The store may instead reject such a query with a validation error.
- Foreign keys are not checked: the user an order connects to, the product of each order line, and products that still point at a deleted category. The model keeps the tables the services touch and has no user table.
- Unicode case folding: `insensitive` is modelled as ASCII lower-casing.
- Categories.CategoryService.GetAll: a read without `orderBy` returns the rows in table order in the model, but the store promises no order for it, so `r == db.categories` fixes an order the store may not keep (a renamed row may come back elsewhere). What holds either way is that every category comes back, each once. The same holds for Products.ProductService.ByCategory, whose contract only states membership and multiplicity.
- Query.SortBy: the row order under ties is the stable order of the table. The store does not promise any such order. Products.ProductService.GetAll's `r == Listing(...)` depends on it: when prices or dates tie, the store may put different rows on a page, and consecutive pages may repeat or skip a product. What holds whatever the tie order is stated separately: the page holds only selected products, it is in the requested order, it is no longer than the count, and the count is the length of the selection.
- An id sequence skips a value when an insert fails in the store. The model's sequence does not advance on a failed insert.
- The optional fields of the update request bodies are not modelled; every field is present.
- Existence checks and updates in the source are asynchronous. The model runs each service call as one atomic step.
- Orders.OrderService.PlaceOrder: the status written when the request gives none is the schema default, which is not visible; the model takes PENDING. The status names other than PENDING and PAYED are kept as opaque names.
- Orders.OrderService.UpdateStatus: a paid event for an id that no order has makes the store's update throw, so the model fails with NotFound. The model follows the code here, not a silent no-op.
- The selection shapes (`returnProductObject`, `returnCategoryObject`, the included order items) are left out. Whole rows are returned.
