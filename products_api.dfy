/**
 * The product endpoints (`app/api/products.py`): create with its case-insensitive duplicate
 * check, update through the fields the request sets, delete one, delete all, and the filtered,
 * paginated listing. Each create, update and delete that goes ahead commits first and then
 * raises its product event through `trigger_webhook`.
 *
 * Product ids come from a counter, and the model takes a larger id to be a later `created_at`:
 * "newest first" is "largest id first". In the program, products created in one transaction
 * share a `created_at`, and their order under `ORDER BY created_at DESC` is not fixed.
 */
module ProductsApi {
  import opened Base
  import opened Text
  import opened Models
  import opened Schemas
  import opened WebhookService

  const ProductNotFound: string := "Product not found"

  /** The 400 detail of a create whose SKU is already taken. */
  function DuplicateSkuMessage(sku: string): string {
    "Product with SKU '" + sku + "' already exists"
  }

  /**
   * What `ProductResponse` accepts of a stored product. FastAPI validates every product a handler
   * returns against the response model, which re-runs the `ProductBase` rules: SKU 1..255 with
   * the SKU validator, name 1..255, price at least 0. A product that fails is answered with a 500.
   */
  predicate ProductReplyValid(p: Product) {
    SkuFieldValid(p.sku) && NameFieldValid(p.name) && p.price >= 0.0
  }

  /** A product built from a validated `ProductCreate` passes the response model. */
  lemma CreatedReplyValid(p: ProductCreate)
    requires ProductCreateValid(p)
    ensures ProductReplyValid(NewProduct(p))
  {
  }

  /** `Product(**product.dict())` */
  function NewProduct(p: ProductCreate): Product {
    Product(p.sku, p.name, p.description, p.price, p.isActive)
  }

  /**
   * `create_product`: 400 when some product has the same lower-cased SKU; otherwise exactly one
   * new product, committed, and then one `ProductCreated` event.
   */
  method CreateProduct(cat: Catalogue, hooks: WebhookStore, loop: Dispatcher, p: ProductCreate, selectFails: bool)
    returns (r: Result<ProductId, HttpError>)
    requires cat.Valid()
    modifies cat, loop
    ensures cat.Valid()
    ensures r.Err? <==> HasSku(old(cat.products), p.sku)
    ensures r.Err? ==> r.error == HttpError(400, DuplicateSkuMessage(p.sku))
    ensures r.Err? ==> cat.products == old(cat.products) && loop.started == old(loop.started)
    ensures r.Ok? ==> r.value !in old(cat.products) && cat.products == old(cat.products)[r.value := NewProduct(p)]
    ensures r.Ok? ==> loop.started == old(loop.started) + Triggered(hooks, "ProductCreated", ProductData(r.value, p.sku, p.name, "create"), selectFails)
  {
    var existing := cat.FindBySku(p.sku);
    if existing.Some? {
      return Err(HttpError(400, DuplicateSkuMessage(p.sku)));
    }
    var id := cat.Insert(NewProduct(p));
    TriggerWebhook(loop, hooks, "ProductCreated", ProductData(id, p.sku, p.name, "create"), selectFails);
    return Ok(id);
  }

  // ---------------------------------------------------------------------------------------
  // Update
  // ---------------------------------------------------------------------------------------

  /** `setattr(product, field, value)` for one entry of the update. */
  function SetField(p: Product, f: ProductField): Product {
    match f
    case NameField(n) => p.(name := n)
    case DescriptionField(d) => p.(description := d)
    case PriceField(x) => p.(price := x)
    case IsActiveField(a) => p.(isActive := a)
  }

  /** The product after `setattr` of each field in turn. */
  function SetFields(p: Product, fields: seq<ProductField>): Product {
    if fields == [] then p else SetField(SetFields(p, fields[..|fields| - 1]), fields[|fields| - 1])
  }

  /**
   * What an update means: each field the request sets takes the request's value, and every other
   * field keeps the product's. The SKU is not a field of `ProductUpdate`, so it always stays.
   */
  function ApplyUpdate(p: Product, u: ProductUpdate): Product {
    Product(
      p.sku,
      if u.name.Some? then u.name.value else p.name,
      if u.description.Some? then u.description.value else p.description,
      if u.price.Some? then u.price.value else p.price,
      if u.isActive.Some? then u.isActive.value else p.isActive)
  }

  /**
   * The rules `ProductUpdate` enforces before the handler runs keep a product within the rules
   * `ProductCreate` enforced: its name stays 1..255 characters and its price stays at least 0.
   */
  lemma UpdateKeepsFieldRules(p: Product, u: ProductUpdate)
    requires ProductUpdateValid(u) && NameFieldValid(p.name) && p.price >= 0.0
    ensures NameFieldValid(ApplyUpdate(p, u).name) && ApplyUpdate(p, u).price >= 0.0
  {
  }

  lemma {:induction false} SetFieldsAppend(p: Product, a: seq<ProductField>, b: seq<ProductField>)
    ensures SetFields(p, a + b) == SetFields(SetFields(p, a), b)
    decreases |b|
  {
    if b == [] {
      assert a + b == a;
    } else {
      assert (a + b)[..|a + b| - 1] == a + b[..|b| - 1];
      SetFieldsAppend(p, a, b[..|b| - 1]);
    }
  }

  /** Setting the fields of `product_update.dict(exclude_unset=True)` one by one is the update. */
  lemma SetFieldsIsUpdate(p: Product, u: ProductUpdate)
    ensures SetFields(p, ProductSetFields(u)) == ApplyUpdate(p, u)
  {
    var f1: seq<ProductField> := if u.name.Some? then [NameField(u.name.value)] else [];
    var f2: seq<ProductField> := if u.description.Some? then [DescriptionField(u.description.value)] else [];
    var f3: seq<ProductField> := if u.price.Some? then [PriceField(u.price.value)] else [];
    var f4: seq<ProductField> := if u.isActive.Some? then [IsActiveField(u.isActive.value)] else [];
    assert ProductSetFields(u) == f1 + f2 + f3 + f4;
    SetFieldsAppend(p, f1 + f2 + f3, f4);
    SetFieldsAppend(p, f1 + f2, f3);
    SetFieldsAppend(p, f1, f2);
    var p1 := SetFields(p, f1);
    var p2 := SetFields(p1, f2);
    var p3 := SetFields(p2, f3);
    assert SetFields(p, f1 + f2) == p2;
    assert SetFields(p, f1 + f2 + f3) == p3;
  }

  /** An update applied twice is the update applied once. */
  lemma UpdateIdempotent(p: Product, u: ProductUpdate)
    ensures ApplyUpdate(ApplyUpdate(p, u), u) == ApplyUpdate(p, u)
  {
  }

  /** The `for field, value in update_data.items(): setattr(product, field, value)` loop. */
  method SetAttrs(p: Product, u: ProductUpdate) returns (q: Product)
    ensures q == ApplyUpdate(p, u)
  {
    var fields := ProductSetFields(u);
    q := p;
    for i := 0 to |fields|
      invariant q == SetFields(p, fields[..i])
    {
      assert fields[..i + 1][..i] == fields[..i];
      q := SetField(q, fields[i]);
    }
    assert fields[..|fields|] == fields;
    SetFieldsIsUpdate(p, u);
  }

  /**
   * `update_product`: 404 for an unknown id; otherwise the fields the request sets change and
   * nothing else, the commit, and one `ProductUpdated` event carrying the new name. The reply is
   * the updated product, or a 500 when it fails the response model; the commit and the event
   * have happened by then.
   */
  method UpdateProduct(cat: Catalogue, hooks: WebhookStore, loop: Dispatcher, id: ProductId, u: ProductUpdate, selectFails: bool)
    returns (r: Result<Product, HttpError>)
    requires cat.Valid()
    modifies cat, loop
    ensures cat.Valid()
    ensures id !in old(cat.products) ==>
      r == Err(HttpError(404, ProductNotFound)) && cat.products == old(cat.products) && loop.started == old(loop.started)
    ensures id in old(cat.products) ==> cat.products == old(cat.products)[id := ApplyUpdate(old(cat.products)[id], u)]
    ensures id in old(cat.products) ==>
      loop.started == old(loop.started)
        + Triggered(hooks, "ProductUpdated", ProductData(id, old(cat.products)[id].sku, ApplyUpdate(old(cat.products)[id], u).name, "update"), selectFails)
    ensures r.Ok? <==> id in old(cat.products) && ProductReplyValid(ApplyUpdate(old(cat.products)[id], u))
    ensures r.Ok? ==> r.value == ApplyUpdate(old(cat.products)[id], u)
    ensures id in old(cat.products) && !ProductReplyValid(ApplyUpdate(old(cat.products)[id], u)) ==>
      r == Err(HttpError(500, InternalServerError))
  {
    if id !in cat.products {
      return Err(HttpError(404, ProductNotFound));
    }
    var product := SetAttrs(cat.products[id], u);
    cat.Replace(id, product);
    TriggerWebhook(loop, hooks, "ProductUpdated", ProductData(id, product.sku, product.name, "update"), selectFails);
    if !ProductReplyValid(product) {
      return Err(HttpError(500, InternalServerError));
    }
    return Ok(product);
  }

  /** The payload of `ProductDeleted`: the SKU and name the product had before the delete. */
  function DeletedData(id: ProductId, p: Product): Payload {
    ProductData(id, p.sku, p.name, "delete")
  }

  /**
   * `delete_product`: 404 for an unknown id; otherwise exactly that product goes, and one
   * `ProductDeleted` event carries the SKU and name it had.
   */
  method DeleteProduct(cat: Catalogue, hooks: WebhookStore, loop: Dispatcher, id: ProductId, selectFails: bool)
    returns (err: Option<HttpError>)
    requires cat.Valid()
    modifies cat, loop
    ensures cat.Valid()
    ensures err.Some? <==> id !in old(cat.products)
    ensures err.Some? ==> err.value == HttpError(404, ProductNotFound)
    ensures err.Some? ==> cat.products == old(cat.products) && loop.started == old(loop.started)
    ensures err.None? ==> cat.products == old(cat.products) - {id}
    ensures err.None? ==> loop.started == old(loop.started) + Triggered(hooks, "ProductDeleted", DeletedData(id, old(cat.products)[id]), selectFails)
  {
    if id !in cat.products {
      return Some(HttpError(404, ProductNotFound));
    }
    var sku, name := cat.products[id].sku, cat.products[id].name;
    cat.Remove(id);
    TriggerWebhook(loop, hooks, "ProductDeleted", ProductData(id, sku, name, "delete"), selectFails);
    assert ProductData(id, sku, name, "delete") == DeletedData(id, old(cat.products)[id]);
    return None;
  }

  /** The message of a bulk delete. */
  function DeletedMessage(count: nat): string {
    "Deleted " + NatToString(count) + " products"
  }

  /** `delete_all_products`: the count taken before the delete, an empty catalogue, and no event. */
  method DeleteAllProducts(cat: Catalogue) returns (message: string)
    requires cat.Valid()
    modifies cat
    ensures cat.Valid()
    ensures cat.products == map[]
    ensures message == DeletedMessage(|old(cat.products)|)
  {
    var count := cat.Clear();
    message := DeletedMessage(count);
  }

  // ---------------------------------------------------------------------------------------
  // Listing
  // ---------------------------------------------------------------------------------------

  const MaxPageSize: nat := 100

  /** The optional query filters of `list_products`. */
  datatype ProductFilter = ProductFilter(sku: Option<string>, name: Option<string>, description: Option<string>, isActive: Option<bool>)

  /** A text filter applies only when given and non-empty (`if sku:`). */
  predicate Applies(f: Option<string>) {
    f.Some? && f.value != ""
  }

  /** `func.lower(column).contains(func.lower(value))` */
  predicate LowerContains(column: string, value: string) {
    Contains(Lower(column), Lower(value))
  }

  /** A product the filtered query returns. A product without a description fails a description filter. */
  predicate Matches(p: Product, f: ProductFilter) {
    && (Applies(f.sku) ==> LowerContains(p.sku, f.sku.value))
    && (Applies(f.name) ==> LowerContains(p.name, f.name.value))
    && (Applies(f.description) ==> p.description.Some? && LowerContains(p.description.value, f.description.value))
    && (f.isActive.Some? ==> p.isActive == f.isActive.value)
  }

  /** `m` is the largest element of `s`. */
  predicate IsMaxOf(m: ProductId, s: set<ProductId>) {
    m in s && forall k :: k in s ==> k <= m
  }

  lemma {:induction false} MaxExists(s: set<ProductId>)
    requires s != {}
    ensures exists m :: IsMaxOf(m, s)
    decreases |s|
  {
    var x :| x in s;
    if s == {x} {
      assert IsMaxOf(x, s);
    } else {
      var rest := s - {x};
      MaxExists(rest);
      var m :| IsMaxOf(m, rest);
      var top := if x > m then x else m;
      forall k | k in s ensures k <= top {
        if k != x {
          assert k in rest;
        }
      }
      assert IsMaxOf(top, s);
    }
  }

  /** The largest id of a non-empty set. */
  function MaxId(s: set<ProductId>): (m: ProductId)
    requires s != {}
    ensures m in s && forall k :: k in s ==> k <= m
  {
    MaxExists(s);
    var m :| IsMaxOf(m, s);
    m
  }

  /** Strictly decreasing ids: newest first, no id twice. */
  predicate NewestFirstOrder(ids: seq<ProductId>) {
    forall i, j :: 0 <= i < j < |ids| ==> ids[i] > ids[j]
  }

  /** `ORDER BY created_at DESC` over a set of ids. */
  function NewestFirst(s: set<ProductId>): (ids: seq<ProductId>)
    ensures forall id :: id in ids <==> id in s
    ensures NewestFirstOrder(ids)
    decreases |s|
  {
    if s == {} then []
    else
      var m := MaxId(s);
      var rest := NewestFirst(s - {m});
      assert forall k :: k in rest ==> k < m;
      [m] + rest
  }

  /** The ids that survive the filters, in the order given. */
  function Filtered(products: map<ProductId, Product>, ids: seq<ProductId>, f: ProductFilter): (r: seq<ProductId>)
    ensures forall id :: id in r <==> id in ids && id in products && Matches(products[id], f)
  {
    if ids == [] then []
    else (if ids[0] in products && Matches(products[ids[0]], f) then [ids[0]] else []) + Filtered(products, ids[1..], f)
  }

  /** Filtering keeps the order. */
  lemma {:induction false} FilteredOrder(products: map<ProductId, Product>, ids: seq<ProductId>, f: ProductFilter)
    requires NewestFirstOrder(ids)
    ensures NewestFirstOrder(Filtered(products, ids, f))
  {
    if ids != [] {
      var tail := ids[1..];
      assert forall j :: 0 <= j < |tail| ==> tail[j] == ids[j + 1];
      FilteredOrder(products, tail, f);
      var rest := Filtered(products, tail, f);
      var head: seq<ProductId> := if ids[0] in products && Matches(products[ids[0]], f) then [ids[0]] else [];
      var r := head + rest;
      assert Filtered(products, ids, f) == r;
      forall i, j | 0 <= i < j < |r| ensures r[i] > r[j] {
        assert r[j] == rest[j - |head|];
        if i < |head| {
          assert rest[j - |head|] in tail;
        } else {
          assert r[i] == rest[i - |head|];
        }
      }
    }
  }

  /** Every matching product's id, newest first: the rows of the filtered, ordered query. */
  function MatchingIds(products: map<ProductId, Product>, f: ProductFilter): (ids: seq<ProductId>)
    ensures forall id :: id in ids <==> id in products && Matches(products[id], f)
    ensures NewestFirstOrder(ids)
  {
    FilteredOrder(products, NewestFirst(products.Keys), f);
    Filtered(products, NewestFirst(products.Keys), f)
  }

  /** `offset = (page - 1) * page_size` */
  function Offset(page: nat, pageSize: nat): nat
    requires page >= 1
  {
    (page - 1) * pageSize
  }

  /** `total_pages = (total + page_size - 1) // page_size` */
  function TotalPages(total: nat, pageSize: nat): nat
    requires pageSize >= 1
  {
    (total + pageSize - 1) / pageSize
  }

  /** The page count is the ceiling of `total / page_size`: enough pages for every row, and no empty page. */
  lemma TotalPagesIsCeiling(total: nat, pageSize: nat)
    requires pageSize >= 1
    ensures TotalPages(total, pageSize) * pageSize >= total
    ensures TotalPages(total, pageSize) == 0 || (TotalPages(total, pageSize) - 1) * pageSize < total
    ensures TotalPages(total, pageSize) == 0 <==> total == 0
  {
    var n := total + pageSize - 1;
    var q, r := n / pageSize, n % pageSize;
    assert n == q * pageSize + r && 0 <= r < pageSize;
    assert q * pageSize == total + pageSize - 1 - r;
    if q > 0 {
      assert (q - 1) * pageSize == q * pageSize - pageSize;
    }
  }

  /** `.offset(offset).limit(limit)`: the rows from `offset`, at most `limit` of them. */
  function Window<T>(xs: seq<T>, offset: nat, limit: nat): (w: seq<T>)
    ensures |w| <= limit
    ensures offset >= |xs| ==> w == []
    ensures offset < |xs| ==> |w| == if |xs| - offset < limit then |xs| - offset else limit
    ensures forall i :: 0 <= i < |w| ==> offset + i < |xs| && w[i] == xs[offset + i]
  {
    if offset >= |xs| then []
    else if |xs| - offset <= limit then xs[offset..]
    else xs[offset..offset + limit]
  }

  /** The `ProductListResponse`. */
  datatype ProductPage = ProductPage(items: seq<(ProductId, Product)>, total: nat, page: nat, pageSize: nat, totalPages: nat)

  /** `page: int = Query(1, ge=1)` and `page_size: int = Query(20, ge=1, le=100)`: the query parameters refused. */
  function RejectedParams(page: int, pageSize: int): set<string> {
    (if page >= 1 then {} else {"page"}) + (if 1 <= pageSize <= MaxPageSize then {} else {"page_size"})
  }

  /** The rows of one page, with their products. */
  function PageItems(products: map<ProductId, Product>, ids: seq<ProductId>): (items: seq<(ProductId, Product)>)
    requires forall id :: id in ids ==> id in products
    ensures |items| == |ids| && forall i :: 0 <= i < |ids| ==> items[i] == (ids[i], products[ids[i]])
  {
    seq(|ids|, i requires 0 <= i < |ids| => (ids[i], products[ids[i]]))
  }

  /**
   * Why `list_products` gives no page: query parameters pydantic refuses (a 422 naming them), or
   * a server error (a 500): a database error nothing catches, or a reply the response model refuses.
   */
  datatype ListRefusal = Unprocessable(params: set<string>) | ServerError(error: HttpError)

  /** The rows the page query returns: the window at `(page - 1) * page_size`, with their products. */
  function PageRows(products: map<ProductId, Product>, f: ProductFilter, page: nat, pageSize: nat): seq<(ProductId, Product)>
    requires page >= 1
  {
    PageItems(products, Window(MatchingIds(products, f), Offset(page, pageSize), pageSize))
  }

  /** Every product of a page passes `ProductResponse`. */
  predicate PageReplyValid(items: seq<(ProductId, Product)>) {
    forall i :: 0 <= i < |items| ==> ProductReplyValid(items[i].1)
  }

  /**
   * `list_products`: the refused query parameters, or the page of matching products at
   * `(page - 1) * page_size`, newest first, with the total count and the page count. An offset
   * beyond PostgreSQL's `bigint` range makes the row query fail, and a page holding a product
   * the response model refuses cannot be serialised; both are answered with a 500.
   */
  function ListProducts(products: map<ProductId, Product>, f: ProductFilter, page: int, pageSize: int): (r: Result<ProductPage, ListRefusal>)
    ensures r.Err? <==>
      RejectedParams(page, pageSize) != {} || Offset(page, pageSize) > BigintMax || !PageReplyValid(PageRows(products, f, page, pageSize))
    ensures r.Err? && r.error.Unprocessable? <==> RejectedParams(page, pageSize) != {}
    ensures r.Err? && r.error.Unprocessable? ==> r.error.params == RejectedParams(page, pageSize)
    ensures r.Err? && r.error.ServerError? ==> r.error.error == HttpError(500, InternalServerError)
    ensures r.Ok? ==> r.value.page == page && r.value.pageSize == pageSize
    ensures r.Ok? ==> r.value.total == |MatchingIds(products, f)|
    ensures r.Ok? ==> r.value.totalPages == TotalPages(r.value.total, pageSize)
    ensures r.Ok? ==> r.value.items == PageRows(products, f, page, pageSize) && PageReplyValid(r.value.items)
  {
    if RejectedParams(page, pageSize) != {} then Err(Unprocessable(RejectedParams(page, pageSize)))
    else if Offset(page, pageSize) > BigintMax then Err(ServerError(HttpError(500, InternalServerError)))
    else
      var ids := MatchingIds(products, f);
      var items := PageItems(products, Window(ids, Offset(page, pageSize), pageSize));
      if !PageReplyValid(items) then Err(ServerError(HttpError(500, InternalServerError)))
      else Ok(ProductPage(items, |ids|, page, pageSize, TotalPages(|ids|, pageSize)))
  }

  /**
   * Paging covers the listing: the matching product at position `j`, newest first, is row
   * `j % page_size` of the rows of page `j / page_size + 1` (`AcceptedPage` says when that page
   * is given).
   */
  lemma PagesCover(products: map<ProductId, Product>, f: ProductFilter, pageSize: nat, j: nat)
    requires 1 <= pageSize <= MaxPageSize
    requires j < |MatchingIds(products, f)|
    ensures |PageRows(products, f, j / pageSize + 1, pageSize)| > j % pageSize
    ensures PageRows(products, f, j / pageSize + 1, pageSize)[j % pageSize].0 == MatchingIds(products, f)[j]
  {
    WindowAt(MatchingIds(products, f), j, pageSize);
  }

  /** An accepted page whose offset is a `bigint` is given exactly when its products pass the response model. */
  lemma AcceptedPage(products: map<ProductId, Product>, f: ProductFilter, page: nat, pageSize: nat)
    requires 1 <= page && 1 <= pageSize <= MaxPageSize && Offset(page, pageSize) <= BigintMax
    ensures ListProducts(products, f, page, pageSize).Ok? <==> PageReplyValid(PageRows(products, f, page, pageSize))
  {
    assert RejectedParams(page, pageSize) == {};
  }

  /** A catalogue every product of which passes the response model lists every accepted page. */
  lemma ValidCatalogueListable(products: map<ProductId, Product>, f: ProductFilter, page: nat, pageSize: nat)
    requires forall id :: id in products ==> ProductReplyValid(products[id])
    requires RejectedParams(page, pageSize) == {} && Offset(page, pageSize) <= BigintMax
    ensures ListProducts(products, f, page, pageSize).Ok?
  {
    var items := PageRows(products, f, page, pageSize);
    forall i | 0 <= i < |items| ensures ProductReplyValid(items[i].1) {
      assert items[i].0 in products && items[i].1 == products[items[i].0];
    }
  }

  /**
   * The import worker stores any non-empty trimmed SKU, with no character check, and then the list
   * endpoint cannot return it: a catalogue holding the imported SKU `A B` answers page 1 with a 500.
   */
  lemma ImportedSkuUnlistable()
    ensures !SkuFieldValid("A B")
    ensures ListProducts(map[0 := Product("A B", "Widget", None, 0.0, true)], ProductFilter(None, None, None, None), 1, 20)
      == Err(ServerError(HttpError(500, InternalServerError)))
  {
    var products := map[0 := Product("A B", "Widget", None, 0.0, true)];
    var f := ProductFilter(None, None, None, None);
    assert !IsAlnumChar(' ');
    assert RemoveChar(RemoveChar("A B", '-'), '_') == "A B";
    assert Matches(products[0], f);
    var ids := MatchingIds(products, f);
    assert 0 in ids;
    assert PageRows(products, f, 1, 20)[0].1 == products[0];
  }

  /** Row `j` of a listing is row `j % page_size` of the window of page `j / page_size + 1`. */
  lemma WindowAt<T>(xs: seq<T>, j: nat, pageSize: nat)
    requires pageSize >= 1 && j < |xs|
    ensures Offset(j / pageSize + 1, pageSize) <= j
    ensures |Window(xs, Offset(j / pageSize + 1, pageSize), pageSize)| > j % pageSize
    ensures Window(xs, Offset(j / pageSize + 1, pageSize), pageSize)[j % pageSize] == xs[j]
  {
    var q, r := j / pageSize, j % pageSize;
    assert Offset(q + 1, pageSize) + r == j;
  }

  /**
   * A page past the last one is accepted and holds no rows, as long as its offset is a `bigint`;
   * further out the row query fails and the answer is a 500.
   */
  lemma PastLastPageEmpty(products: map<ProductId, Product>, f: ProductFilter, page: nat, pageSize: nat)
    requires 1 <= pageSize <= MaxPageSize
    requires page > TotalPages(|MatchingIds(products, f)|, pageSize)
    ensures Offset(page, pageSize) <= BigintMax ==>
      ListProducts(products, f, page, pageSize).Ok? && ListProducts(products, f, page, pageSize).value.items == []
    ensures Offset(page, pageSize) > BigintMax ==>
      ListProducts(products, f, page, pageSize) == Err(ServerError(HttpError(500, InternalServerError)))
  {
    var total := |MatchingIds(products, f)|;
    TotalPagesIsCeiling(total, pageSize);
    var n := TotalPages(total, pageSize);
    assert page - 1 >= n;
    assert Offset(page, pageSize) >= n * pageSize by {
      MulMonotone(n, page - 1, pageSize);
    }
  }

  lemma MulMonotone(a: nat, b: nat, c: nat)
    requires a <= b
    ensures a * c <= b * c
  {
  }
}
