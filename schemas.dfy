/**
 * The request shapes and their validation rules (`app/schemas.py`): field length and range
 * constraints, the SKU and URL validators, and the defaults a request body may leave out.
 * A field a client leaves out is `None` here; an explicit JSON `null` is not modelled.
 */
module Schemas {
  import opened Base
  import opened Text

  const SkuMaxLength: nat := 255
  const NameMaxLength: nat := 255
  const UrlMaxLength: nat := 500

  /** `ProductBase.sku_alphanumeric`: `v.replace('-', '').replace('_', '').isalnum()`. */
  predicate SkuAlphanumeric(v: string) {
    IsAlnum(RemoveChar(RemoveChar(v, '-'), '_'))
  }

  /** A SKU character that the validator tolerates. */
  predicate SkuChar(c: char) {
    IsAlnumChar(c) || c == '-' || c == '_'
  }

  /**
   * What the SKU validator accepts, stated without `replace`: every character is a letter,
   * a digit, a dash or an underscore, and at least one is a letter or a digit.
   */
  lemma SkuAlphanumericIff(v: string)
    ensures SkuAlphanumeric(v) <==>
      (forall i :: 0 <= i < |v| ==> SkuChar(v[i])) && (exists i :: 0 <= i < |v| && IsAlnumChar(v[i]))
  {
    var t := RemoveChar(v, '-');
    var r := RemoveChar(t, '_');
    assert forall c :: c in r <==> c in v && c != '-' && c != '_' by {
      forall c
        ensures c in r <==> c in v && c != '-' && c != '_'
      {
        if c == '_' {
          assert c !in r;
        } else if c == '-' {
          assert c !in t;
          assert multiset(r)[c] == multiset(t)[c] == 0;
          assert c !in r;
        } else {
          assert multiset(r)[c] == multiset(t)[c] == multiset(v)[c];
          assert c in r <==> multiset(r)[c] > 0;
          assert c in v <==> multiset(v)[c] > 0;
        }
      }
    }
    if SkuAlphanumeric(v) {
      forall i | 0 <= i < |v| ensures SkuChar(v[i]) {
        if v[i] != '-' && v[i] != '_' {
          assert v[i] in r;
          var j :| 0 <= j < |r| && r[j] == v[i];
          assert IsAlnumChar(r[j]);
        }
      }
      assert r[0] in v;
      var i :| 0 <= i < |v| && v[i] == r[0];
      assert IsAlnumChar(v[i]);
    }
    if (forall i :: 0 <= i < |v| ==> SkuChar(v[i])) && (exists i :: 0 <= i < |v| && IsAlnumChar(v[i])) {
      var i :| 0 <= i < |v| && IsAlnumChar(v[i]);
      assert v[i] in r;
      forall j | 0 <= j < |r| ensures IsAlnumChar(r[j]) {
        assert r[j] in v;
        var k :| 0 <= k < |v| && v[k] == r[j];
        assert SkuChar(v[k]);
      }
    }
  }

  /** A SKU made only of dashes and underscores, such as `--`, is refused. */
  lemma SeparatorsOnlyRejected(v: string)
    requires forall i :: 0 <= i < |v| ==> v[i] == '-' || v[i] == '_'
    ensures !SkuAlphanumeric(v)
  {
    SkuAlphanumericIff(v);
  }

  /** The `sku` field: `Field(..., min_length=1, max_length=255)` plus the validator. */
  predicate SkuFieldValid(v: string) {
    1 <= |v| <= SkuMaxLength && SkuAlphanumeric(v)
  }

  /** The `name` field: `min_length=1, max_length=255`. */
  predicate NameFieldValid(v: string) {
    1 <= |v| <= NameMaxLength
  }

  /** `WebhookBase.url_valid`: `v.startswith(('http://', 'https://'))`. */
  predicate UrlValid(v: string) {
    StartsWith(v, "http://") || StartsWith(v, "https://")
  }

  /** The `url` field of `WebhookBase`: `min_length=1, max_length=500` plus the validator. */
  predicate UrlFieldValid(v: string) {
    1 <= |v| <= UrlMaxLength && UrlValid(v)
  }

  /** `ProductCreate` once validated; `price` is a `Decimal` with `ge=0`. */
  datatype ProductCreate = ProductCreate(sku: string, name: string, description: Option<string>, price: real, isActive: bool)

  predicate ProductCreateValid(p: ProductCreate) {
    SkuFieldValid(p.sku) && NameFieldValid(p.name) && p.price >= 0.0
  }

  /** A `ProductCreate` request body as sent. */
  datatype ProductCreateRequest = ProductCreateRequest(
    sku: Option<string>, name: Option<string>, description: Option<string>,
    price: Option<real>, isActive: Option<bool>)

  /**
   * Pydantic's validation of a `ProductCreate` body: the fields it rejects (all of them,
   * not the first), or the model with its defaults (price 0, active) filled in.
   */
  function ValidateProductCreate(q: ProductCreateRequest): (r: Result<ProductCreate, set<string>>)
    ensures r.Ok? <==>
      && q.sku.Some? && SkuFieldValid(q.sku.value)
      && q.name.Some? && NameFieldValid(q.name.value)
      && (q.price.None? || q.price.value >= 0.0)
    ensures r.Ok? ==> ProductCreateValid(r.value)
    ensures r.Ok? ==> r.value == ProductCreate(q.sku.value, q.name.value, q.description,
      if q.price.Some? then q.price.value else 0.0,
      if q.isActive.Some? then q.isActive.value else true)
    ensures r.Err? ==> r.error != {} && r.error <= {"sku", "name", "price"}
    ensures r.Err? ==> ("sku" in r.error <==> !(q.sku.Some? && SkuFieldValid(q.sku.value)))
    ensures r.Err? ==> ("name" in r.error <==> !(q.name.Some? && NameFieldValid(q.name.value)))
    ensures r.Err? ==> ("price" in r.error <==> !(q.price.None? || q.price.value >= 0.0))
  {
    var bad :=
      (if q.sku.Some? && SkuFieldValid(q.sku.value) then {} else {"sku"})
      + (if q.name.Some? && NameFieldValid(q.name.value) then {} else {"name"})
      + (if q.price.None? || q.price.value >= 0.0 then {} else {"price"});
    if bad != {} then Err(bad)
    else Ok(ProductCreate(q.sku.value, q.name.value, q.description,
      match q.price case Some(p) => p case None => 0.0,
      match q.isActive case Some(a) => a case None => true))
  }

  /**
   * `ProductUpdate`: every field optional, `None` meaning "not set". `description` may be set
   * to null. There is no `sku` field, so no update can reach a product's SKU.
   */
  datatype ProductUpdate = ProductUpdate(
    name: Option<string>, description: Option<Option<string>>, price: Option<real>, isActive: Option<bool>)

  predicate ProductUpdateValid(u: ProductUpdate) {
    (u.name.Some? ==> NameFieldValid(u.name.value)) && (u.price.Some? ==> u.price.value >= 0.0)
  }

  /** One entry of `product_update.dict(exclude_unset=True)`. */
  datatype ProductField =
    | NameField(name: string)
    | DescriptionField(description: Option<string>)
    | PriceField(price: real)
    | IsActiveField(isActive: bool)

  /** `product_update.dict(exclude_unset=True).items()`, in field declaration order. */
  function ProductSetFields(u: ProductUpdate): (fields: seq<ProductField>)
    ensures |fields| <= 4
  {
    (if u.name.Some? then [NameField(u.name.value)] else [])
    + (if u.description.Some? then [DescriptionField(u.description.value)] else [])
    + (if u.price.Some? then [PriceField(u.price.value)] else [])
    + (if u.isActive.Some? then [IsActiveField(u.isActive.value)] else [])
  }

  /** `WebhookCreate` once validated. */
  datatype WebhookCreate = WebhookCreate(url: string, eventTypes: seq<string>, isEnabled: bool)

  predicate WebhookCreateValid(w: WebhookCreate) {
    UrlFieldValid(w.url)
  }

  datatype WebhookCreateRequest = WebhookCreateRequest(url: Option<string>, eventTypes: Option<seq<string>>, isEnabled: Option<bool>)

  /** Validation of a `WebhookCreate` body: `event_types` defaults to `[]`, `is_enabled` to true. */
  function ValidateWebhookCreate(q: WebhookCreateRequest): (r: Result<WebhookCreate, set<string>>)
    ensures r.Ok? <==> q.url.Some? && UrlFieldValid(q.url.value)
    ensures r.Ok? ==> WebhookCreateValid(r.value)
    ensures r.Ok? ==> (
      && r.value.url == q.url.value
      && r.value.eventTypes == (if q.eventTypes.Some? then q.eventTypes.value else [])
      && r.value.isEnabled == (if q.isEnabled.Some? then q.isEnabled.value else true))
    ensures r.Err? ==> r.error == {"url"}
  {
    if q.url.None? || !UrlFieldValid(q.url.value) then Err({"url"})
    else Ok(WebhookCreate(q.url.value,
      match q.eventTypes case Some(e) => e case None => [],
      match q.isEnabled case Some(b) => b case None => true))
  }

  /** `WebhookUpdate`: every field optional; the URL keeps its length limits but has no scheme check. */
  datatype WebhookUpdate = WebhookUpdate(url: Option<string>, eventTypes: Option<seq<string>>, isEnabled: Option<bool>)

  predicate WebhookUpdateValid(u: WebhookUpdate) {
    u.url.Some? ==> 1 <= |u.url.value| <= UrlMaxLength
  }

  /** One entry of `webhook_update.dict(exclude_unset=True)`. */
  datatype WebhookField = UrlField(url: string) | EventTypesField(eventTypes: seq<string>) | IsEnabledField(isEnabled: bool)

  function WebhookSetFields(u: WebhookUpdate): (fields: seq<WebhookField>)
    ensures |fields| <= 3
  {
    (if u.url.Some? then [UrlField(u.url.value)] else [])
    + (if u.eventTypes.Some? then [EventTypesField(u.eventTypes.value)] else [])
    + (if u.isEnabled.Some? then [IsEnabledField(u.isEnabled.value)] else [])
  }

  /** An update may carry a URL that creation would refuse, because only `WebhookBase` checks the scheme. */
  lemma UpdateSkipsSchemeCheck()
    ensures var u := WebhookUpdate(Some("ftp://hooks.example"), None, None);
      WebhookUpdateValid(u) && !UrlValid(u.url.value)
  {
    var v := "ftp://hooks.example";
    assert v[0] == 'f';
    assert v[..7][0] == 'f' && v[..8][0] == 'f';
  }
}
