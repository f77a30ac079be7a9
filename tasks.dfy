/**
 * The import worker (`app/tasks.py`, `process_csv_import`): it cleans and checks the header,
 * reads every data row into a record keyed by cleaned column name, normalises each record,
 * upserts it into the catalogue by case-insensitive SKU, keeps the created/updated/skipped
 * counters and the job's progress, and moves the job through its statuses.
 *
 * The file arrives already split into a header and rows of cells; the header is empty when
 * no encoding yielded one.
 */
module Tasks {
  import opened Base
  import opened Text
  import opened Models
  import opened WebhookService

  // ---------------------------------------------------------------------------------------
  // Header clean-up and check
  // ---------------------------------------------------------------------------------------

  /** `field.strip().strip('"').strip("'").strip('\ufeff').lower()` */
  function CleanFieldName(f: string): string {
    Lower(Strip(Strip(Strip(Strip(f, Whitespace), Only('"')), Only('\'')), Only('\U{FEFF}')))
  }

  function CleanFieldNames(header: seq<string>): (r: seq<string>)
    ensures |r| == |header| && forall i :: 0 <= i < |header| ==> r[i] == CleanFieldName(header[i])
  {
    seq(|header|, i requires 0 <= i < |header| => CleanFieldName(header[i]))
  }

  /** `{'sku', 'name'}.issubset(set(fieldnames))` */
  predicate HasRequiredColumns(fieldnames: seq<string>) {
    "sku" in fieldnames && "name" in fieldnames
  }

  /** A name that `CleanFieldName` leaves alone apart from lower-casing: none of the stripped characters at either end. */
  predicate BareName(core: string) {
    core == [] || (
      && !IsSpace(core[0]) && core[0] != '"' && core[0] != '\'' && core[0] != '\U{FEFF}'
      && !IsSpace(core[|core| - 1]) && core[|core| - 1] != '"' && core[|core| - 1] != '\'' && core[|core| - 1] != '\U{FEFF}')
  }

  lemma StripBare(core: string, k: Strippable)
    requires core == [] || (!Strips(k, core[0]) && !Strips(k, core[|core| - 1]))
    ensures Strip(core, k) == core
  {
    StripPadding([], core, [], k);
    assert [] + core + [] == core;
  }

  /**
   * Cleaning undoes surrounding whitespace and upper case: a bare name padded with whitespace
   * cleans to the name in lower case.
   */
  lemma CleanPadded(pre: string, core: string, post: string)
    requires forall i :: 0 <= i < |pre| ==> IsSpace(pre[i])
    requires forall i :: 0 <= i < |post| ==> IsSpace(post[i])
    requires BareName(core)
    ensures CleanFieldName(pre + core + post) == Lower(core)
  {
    StripPadding(pre, core, post, Whitespace);
    StripBare(core, Only('"'));
    StripBare(core, Only('\''));
    StripBare(core, Only('\U{FEFF}'));
  }

  /** A byte-order mark in front of a column name (the first one, when no encoding dropped it) is removed too. */
  lemma CleanByteOrderMark(core: string)
    requires BareName(core)
    ensures CleanFieldName(['\U{FEFF}'] + core) == Lower(core)
  {
    var s := ['\U{FEFF}'] + core;
    assert s[0] == '\U{FEFF}' && s[|s| - 1] == if core == [] then '\U{FEFF}' else core[|core| - 1];
    assert !IsSpace('\U{FEFF}');
    StripBare(s, Whitespace);
    StripBare(s, Only('"'));
    StripBare(s, Only('\''));
    assert s == ['\U{FEFF}'] + core + [];
    StripPadding(['\U{FEFF}'], core, [], Only('\U{FEFF}'));
    assert CleanFieldName(s) == Lower(Strip(s, Only('\U{FEFF}')));
  }

  /** Python's `repr` of a list of strings, for strings without quotes or backslashes. */
  function ListRepr(xs: seq<string>): string {
    "[" + Join(seq(|xs|, i requires 0 <= i < |xs| => "'" + xs[i] + "'"), ", ") + "]"
  }

  function MissingColumnsMessage(fieldnames: seq<string>): string {
    "CSV missing required columns. Found: " + ListRepr(fieldnames) + ", Required: {'sku', 'name'}"
  }

  const NoHeaderMessage: string := "Failed to read CSV file with any encoding. Tried: ['utf-8-sig', 'utf-8', 'latin-1']"

  /** The header step: the cleaned names, or the message of the `ValueError` that fails the job. */
  function CheckHeader(header: seq<string>): (r: Result<seq<string>, string>)
    ensures r.Ok? <==> header != [] && HasRequiredColumns(CleanFieldNames(header))
    ensures r.Ok? ==> r.value == CleanFieldNames(header)
    ensures header == [] ==> r == Err(NoHeaderMessage)
    ensures header != [] && r.Err? ==> r.error == MissingColumnsMessage(CleanFieldNames(header))
  {
    if header == [] then Err(NoHeaderMessage)
    else
      var fieldnames := CleanFieldNames(header);
      if !HasRequiredColumns(fieldnames) then Err(MissingColumnsMessage(fieldnames))
      else Ok(fieldnames)
  }

  // ---------------------------------------------------------------------------------------
  // Records
  // ---------------------------------------------------------------------------------------

  /** A cell as `csv.DictReader` reports it: `None` past the end of a short row. */
  function Cell(cells: seq<string>, j: nat): Option<string> {
    if j < |cells| then Some(cells[j]) else None
  }

  /** `d[k] = v` on a dict kept as its items in insertion order: a new key goes last, an old one keeps its place. */
  function Put<K(==), V>(d: seq<(K, V)>, k: K, v: V): (r: seq<(K, V)>)
    ensures |r| == |d| || r == d + [(k, v)]
  {
    if d == [] then [(k, v)]
    else if d[0].0 == k then [(k, v)] + d[1..]
    else [d[0]] + Put(d[1..], k, v)
  }

  /** Every item of `d[k] = v` is under `k` or is the item of `d` at the same place. */
  lemma {:induction false} PutItems<K, V>(d: seq<(K, V)>, k: K, v: V)
    ensures var r := Put(d, k, v); forall i :: 0 <= i < |r| ==> r[i].0 == k || (i < |d| && r[i] == d[i])
  {
    if d != [] && d[0].0 != k {
      PutItems(d[1..], k, v);
      var r := Put(d, k, v);
      assert r == [d[0]] + Put(d[1..], k, v);
    }
  }

  /**
   * The dict `csv.DictReader` yields for one row: the header's names in first-occurrence
   * order, each holding the cell under its last occurrence (`None` past a short row's end).
   * Cells beyond the header go under the key `None` and are dropped by the worker. The names
   * are strings; nothing here depends on that.
   */
  function ReaderRow<K(==)>(header: seq<K>, cells: seq<string>): (d: seq<(K, Option<string>)>)
    ensures forall i :: 0 <= i < |d| ==> d[i].0 in header
    decreases |header|
  {
    if header == [] then []
    else
      var init := header[..|header| - 1];
      assert forall h :: h in init ==> h in header;
      PutItems(ReaderRow(init, cells), header[|header| - 1], Cell(cells, |header| - 1));
      Put(ReaderRow(init, cells), header[|header| - 1], Cell(cells, |header| - 1))
  }

  /** `fieldname_map = dict(zip(original_fieldnames, fieldnames))` */
  function FieldNameMap(header: seq<string>): (m: map<string, string>)
    ensures forall h :: h in header ==> h in m && m[h] == CleanFieldName(h)
  {
    map h | h in header :: CleanFieldName(h)
  }

  /** A record keyed by cleaned column name; a key absent from the map was not in the header. */
  type Record = map<string, Option<string>>

  /**
   * The inner loop of the reading pass: `normalized_row[fieldname_map[orig_key]] = value` for
   * each item. Every key the reader yields is a header name, so the `.get` default is never used.
   */
  function Normalize(items: seq<(string, Option<string>)>, fieldMap: map<string, string>): Record
    requires forall i :: 0 <= i < |items| ==> items[i].0 in fieldMap
  {
    if items == [] then map[]
    else
      var last := items[|items| - 1];
      Normalize(items[..|items| - 1], fieldMap)[fieldMap[last.0] := last.1]
  }

  function MakeRecord(header: seq<string>, cells: seq<string>): Record {
    Normalize(ReaderRow(header, cells), FieldNameMap(header))
  }

  /** `records`: one record per row, blank lines (rows without a cell) skipped as `DictReader` does. */
  function Records(header: seq<string>, rows: seq<seq<string>>): seq<Record> {
    if rows == [] then []
    else
      var last := rows[|rows| - 1];
      Records(header, rows[..|rows| - 1]) + (if last == [] then [] else [MakeRecord(header, last)])
  }

  /** `row.get(key)`, with `None` and a missing key read as `''`: every use only tests truthiness. */
  function Get(r: Record, key: string): string {
    if key in r && r[key].Some? then r[key].value else ""
  }

  /** The header's cleaned names are pairwise different. */
  predicate DistinctColumns(header: seq<string>) {
    forall i, j :: 0 <= i < j < |header| ==> CleanFieldName(header[i]) != CleanFieldName(header[j])
  }

  lemma {:induction false} PutFresh<K, V>(d: seq<(K, V)>, k: K, v: V)
    requires forall i :: 0 <= i < |d| ==> d[i].0 != k
    ensures Put(d, k, v) == d + [(k, v)]
  {
    if d != [] {
      PutFresh(d[1..], k, v);
      assert [d[0]] + (d[1..] + [(k, v)]) == d + [(k, v)];
    }
  }

  /** Each name paired with its column's cell, in header order. */
  function Zipped<K>(header: seq<K>, cells: seq<string>): (d: seq<(K, Option<string>)>)
    ensures |d| == |header| && forall i :: 0 <= i < |header| ==> d[i] == (header[i], Cell(cells, i))
  {
    seq(|header|, i requires 0 <= i < |header| => (header[i], Cell(cells, i)))
  }

  lemma ZippedSnoc<K>(header: seq<K>, cells: seq<string>)
    requires header != []
    ensures Zipped(header, cells)
      == Zipped(header[..|header| - 1], cells) + [(header[|header| - 1], Cell(cells, |header| - 1))]
  {
    var init := header[..|header| - 1];
    assert forall i :: 0 <= i < |init| ==> init[i] == header[i];
  }

  /** With distinct column names the reader's dict is the header zipped with the cells. */
  lemma {:induction false} ReaderRowDistinct<K>(header: seq<K>, cells: seq<string>)
    requires forall i, j :: 0 <= i < j < |header| ==> header[i] != header[j]
    ensures ReaderRow(header, cells) == Zipped(header, cells)
    decreases |header|
  {
    if header != [] {
      var init := header[..|header| - 1];
      assert forall i, j :: 0 <= i < j < |init| ==> init[i] != init[j] by {
        assert forall i :: 0 <= i < |init| ==> init[i] == header[i];
      }
      ReaderRowDistinct(init, cells);
      var d := Zipped(init, cells);
      var k := header[|header| - 1];
      forall i | 0 <= i < |d| ensures d[i].0 != k {
        assert d[i].0 == header[i];
      }
      PutFresh(d, k, Cell(cells, |header| - 1));
      ZippedSnoc(header, cells);
    }
  }

  lemma {:induction false} NormalizeDistinct(items: seq<(string, Option<string>)>, fieldMap: map<string, string>, i: nat)
    requires forall j :: 0 <= j < |items| ==> items[j].0 in fieldMap
    requires i < |items|
    requires forall a, b :: 0 <= a < b < |items| ==> fieldMap[items[a].0] != fieldMap[items[b].0]
    ensures fieldMap[items[i].0] in Normalize(items, fieldMap) && Normalize(items, fieldMap)[fieldMap[items[i].0]] == items[i].1
  {
    if i < |items| - 1 {
      var init := items[..|items| - 1];
      assert init[i] == items[i];
      NormalizeDistinct(init, fieldMap, i);
    }
  }

  /**
   * When the header's names map to pairwise different keys, each key reads its own column's
   * cell, `None` past the end of a short row.
   */
  lemma RowDistinct(header: seq<string>, cells: seq<string>, fieldMap: map<string, string>, i: nat)
    requires forall h :: h in header ==> h in fieldMap
    requires forall a, b :: 0 <= a < b < |header| ==> fieldMap[header[a]] != fieldMap[header[b]]
    requires i < |header|
    ensures var r := Normalize(ReaderRow(header, cells), fieldMap);
      fieldMap[header[i]] in r && r[fieldMap[header[i]]] == Cell(cells, i)
  {
    ReaderRowDistinct(header, cells);
    var d := ReaderRow(header, cells);
    forall a, b | 0 <= a < b < |d| ensures fieldMap[d[a].0] != fieldMap[d[b].0] {
      assert d[a].0 == header[a] && d[b].0 == header[b];
    }
    NormalizeDistinct(d, fieldMap, i);
  }

  /** With distinct cleaned column names each cleaned name reads its own column's cell. */
  lemma RecordDistinct(header: seq<string>, cells: seq<string>, i: nat)
    requires DistinctColumns(header) && i < |header|
    ensures var r := MakeRecord(header, cells);
      CleanFieldName(header[i]) in r && r[CleanFieldName(header[i])] == Cell(cells, i)
  {
    var m := FieldNameMap(header);
    forall a, b | 0 <= a < b < |header| ensures m[header[a]] != m[header[b]] {
      assert CleanFieldName(header[a]) != CleanFieldName(header[b]);
    }
    RowDistinct(header, cells, m, i);
  }

  /** The body of the reading pass for one row: `for orig_key, value in row.items(): normalized_row[clean_key] = value`. */
  method ReadRow(header: seq<string>, cells: seq<string>, fieldMap: map<string, string>) returns (normalized: Record)
    requires forall h :: h in header ==> h in fieldMap
    ensures normalized == Normalize(ReaderRow(header, cells), fieldMap)
  {
    var items := ReaderRow(header, cells);
    normalized := map[];
    for j := 0 to |items|
      invariant normalized == Normalize(items[..j], fieldMap)
    {
      assert items[..j + 1][..j] == items[..j];
      normalized := normalized[fieldMap[items[j].0] := items[j].1];
    }
    assert items[..|items|] == items;
  }

  /** The reading pass: `for row in reader: ...; records.append(normalized_row)`. */
  method ReadRecords(header: seq<string>, rows: seq<seq<string>>) returns (records: seq<Record>)
    ensures records == Records(header, rows)
  {
    var fieldMap := FieldNameMap(header);
    records := [];
    for k := 0 to |rows|
      invariant records == Records(header, rows[..k])
    {
      assert rows[..k + 1][..k] == rows[..k];
      if rows[k] != [] {
        var normalized := ReadRow(header, rows[k], fieldMap);
        records := records + [normalized];
      }
    }
    assert rows[..|rows|] == rows;
  }

  // ---------------------------------------------------------------------------------------
  // Row normalisation
  // ---------------------------------------------------------------------------------------

  /** `.strip().strip('"').strip("'")`: whitespace first, then double quotes, then single quotes. */
  function Trim(s: string): string {
    Strip(Strip(Strip(s, Whitespace), Only('"')), Only('\''))
  }

  /** A cell value that `Trim` leaves as it is. */
  predicate BareValue(core: string) {
    core == [] || (
      && !IsSpace(core[0]) && core[0] != '"' && core[0] != '\''
      && !IsSpace(core[|core| - 1]) && core[|core| - 1] != '"' && core[|core| - 1] != '\'')
  }

  /** A cell padded with whitespace and wrapped in double quotes trims to its contents. */
  lemma TrimQuoted(pre: string, core: string, post: string)
    requires forall i :: 0 <= i < |pre| ==> IsSpace(pre[i])
    requires forall i :: 0 <= i < |post| ==> IsSpace(post[i])
    requires BareValue(core)
    ensures Trim(pre + ("\"" + core + "\"") + post) == core
  {
    var quoted := "\"" + core + "\"";
    assert quoted[0] == '"' && quoted[|quoted| - 1] == '"';
    StripPadding(pre, quoted, post, Whitespace);
    StripPadding("\"", core, "\"", Only('"'));
    StripBare(core, Only('\''));
  }

  /**
   * The worker asks no more of a SKU than that it trims to something non-empty: a SKU with a
   * space in it, which the product schemas refuse, is imported as it stands.
   */
  lemma ImportAdmitsAnySku(floats: Floats)
    ensures NormalizeRow(map["sku" := Some("A B"), "name" := Some("Widget")], floats).Upsert?
    ensures NormalizeRow(map["sku" := Some("A B"), "name" := Some("Widget")], floats).sku == "A B"
  {
    var r: Record := map["sku" := Some("A B"), "name" := Some("Widget")];
    assert Get(r, "sku") == "A B" && Get(r, "name") == "Widget";
    StripBare("A B", Whitespace);
    StripBare("A B", Only('"'));
    StripBare("A B", Only('\''));
    StripBare("Widget", Whitespace);
    StripBare("Widget", Only('"'));
    StripBare("Widget", Only('\''));
  }

  /**
   * Python's `float` on price texts, given as the texts it accepts with the value each one
   * denotes; on any other text it raises `ValueError`.
   */
  type Floats = imap<string, real>

  function Float(floats: Floats, t: string): (r: Option<real>)
    ensures r.Some? <==> t in floats
  {
    if t in floats then Some(floats[t]) else None
  }

  /** The text the price parser sees: trimmed, every `$` and `,` removed, trimmed of whitespace again. */
  function PriceText(raw: string): (t: string)
    ensures '$' !in t && ',' !in t
  {
    var r1 := RemoveChar(Trim(raw), '$');
    var r := RemoveChar(r1, ',');
    assert '$' !in r by {
      assert '$' !in multiset(r1);
      assert multiset(r)['$'] == multiset(r1)['$'];
    }
    StripKeepsOut(r, Whitespace, '$');
    StripKeepsOut(r, Whitespace, ',');
    Strip(r, Whitespace)
  }

  /**
   * The price rule: 0 unless the cell is non-empty and its cleaned text parses, and a negative
   * value is 0 too.
   */
  function PriceOf(raw: string, floats: Floats): (price: real)
    ensures price >= 0.0
    ensures raw == "" || PriceText(raw) == "" || Float(floats, PriceText(raw)).None? ==> price == 0.0
    ensures price != 0.0 ==> Float(floats, PriceText(raw)) == Some(price)
    ensures raw != "" && PriceText(raw) != "" && Float(floats, PriceText(raw)).Some? && Float(floats, PriceText(raw)).value >= 0.0
      ==> price == Float(floats, PriceText(raw)).value
  {
    if raw == "" then 0.0
    else
      var text := PriceText(raw);
      if text == "" then 0.0
      else match Float(floats, text)
        case None => 0.0
        case Some(v) => if v < 0.0 then 0.0 else v
  }

  /** What the worker does with one record. */
  datatype RowOutcome =
    | Skip
    | Upsert(sku: string, name: string, description: Option<string>, price: real)

  /** `row.get('description') or row.get('desc')`, trimmed; `None` when neither is set. */
  function DescriptionOf(r: Record): (d: Option<string>)
    ensures d.None? <==> Get(r, "description") == "" && Get(r, "desc") == ""
  {
    var raw := if Get(r, "description") != "" then Get(r, "description") else Get(r, "desc");
    if raw == "" then None else Some(Trim(raw))
  }

  /** One record: skipped when its trimmed SKU or name is empty, otherwise the values to upsert. */
  function NormalizeRow(r: Record, floats: Floats): (o: RowOutcome)
    ensures o.Skip? <==> Trim(Get(r, "sku")) == "" || Trim(Get(r, "name")) == ""
    ensures o.Upsert? ==> o.sku != "" && o.name != "" && o.price >= 0.0
    ensures o.Upsert? ==> o.sku == Trim(Get(r, "sku")) && o.name == Trim(Get(r, "name"))
    ensures o.Upsert? ==> o.description == DescriptionOf(r) && o.price == PriceOf(Get(r, "price"), floats)
  {
    var sku := Trim(Get(r, "sku"));
    var name := Trim(Get(r, "name"));
    var description := DescriptionOf(r);
    var price := PriceOf(Get(r, "price"), floats);
    if sku == "" || name == "" then Skip else Upsert(sku, name, description, price)
  }

  /** What the worker does with each record, in file order: each record normalised on its own. */
  function Outcomes(records: seq<Record>, floats: Floats): (os: seq<RowOutcome>)
    ensures |os| == |records| && forall i :: 0 <= i < |records| ==> os[i] == NormalizeRow(records[i], floats)
  {
    seq(|records|, i requires 0 <= i < |records| => NormalizeRow(records[i], floats))
  }

  lemma OutcomesAppend(a: seq<Record>, b: seq<Record>, floats: Floats)
    ensures Outcomes(a + b, floats) == Outcomes(a, floats) + Outcomes(b, floats)
  {
    var l, r := Outcomes(a + b, floats), Outcomes(a, floats) + Outcomes(b, floats);
    forall i | 0 <= i < |l| ensures l[i] == r[i] {
      if i >= |a| {
        assert (a + b)[i] == b[i - |a|];
      }
    }
  }

  // ---------------------------------------------------------------------------------------
  // The upsert pass, as a specification
  // ---------------------------------------------------------------------------------------

  /** The catalogue's rows and its id counter. */
  datatype Store = Store(products: map<ProductId, Product>, nextId: ProductId)

  /** The catalogue invariant: ids below the counter, one product per lower-cased SKU. */
  ghost predicate StoreOk(s: Store) {
    (forall id :: id in s.products ==> id < s.nextId) && SkuUnique(s.products)
  }

  /** The product whose SKU matches `sku` case-insensitively, if any. */
  ghost function Lookup(m: map<ProductId, Product>, sku: string): (r: Option<ProductId>)
    ensures r.Some? ==> r.value in m && Lower(m[r.value].sku) == Lower(sku)
    ensures r.None? <==> !HasSku(m, sku)
  {
    if HasSku(m, sku) then
      var id :| id in m && Lower(m[id].sku) == Lower(sku);
      Some(id)
    else None
  }

  lemma LookupUnique(m: map<ProductId, Product>, sku: string, id: ProductId)
    requires SkuUnique(m) && id in m && Lower(m[id].sku) == Lower(sku)
    ensures Lookup(m, sku) == Some(id)
  {
  }

  /**
   * One upsert: on a hit only name, description and price are written (the stored SKU's casing
   * and `is_active` stay); on a miss a new active product takes the next id.
   */
  ghost function UpsertStore(s: Store, sku: string, name: string, description: Option<string>, price: real): Store {
    match Lookup(s.products, sku)
    case Some(id) =>
      var p := s.products[id];
      Store(s.products[id := Product(p.sku, name, description, price, p.isActive)], s.nextId)
    case None =>
      Store(s.products[s.nextId := Product(sku, name, description, price, true)], s.nextId + 1)
  }

  /** The worker's state between rows: the catalogue and the counters. */
  datatype Progress = Progress(store: Store, created: nat, updated: nat, skipped: nat)

  ghost function ApplyRow(st: Progress, o: RowOutcome): Progress {
    match o
    case Skip => st.(skipped := st.skipped + 1)
    case Upsert(sku, name, description, price) =>
      var s := UpsertStore(st.store, sku, name, description, price);
      if HasSku(st.store.products, sku) then st.(store := s, updated := st.updated + 1)
      else st.(store := s, created := st.created + 1)
  }

  /** The rows applied one after the other, in file order. */
  ghost function ImportAll(st: Progress, os: seq<RowOutcome>): Progress {
    if os == [] then st else ApplyRow(ImportAll(st, os[..|os| - 1]), os[|os| - 1])
  }

  /** The lower-cased SKUs of the rows that are not skipped. */
  ghost function UpsertKeys(os: seq<RowOutcome>): set<string> {
    set i | 0 <= i < |os| && os[i].Upsert? :: Lower(os[i].sku)
  }

  /** How many outcomes are skips. */
  function SkipCount(os: seq<RowOutcome>): nat {
    if os == [] then 0 else SkipCount(os[..|os| - 1]) + (if os[|os| - 1].Skip? then 1 else 0)
  }

  lemma {:induction false} ImportAllAppend(st: Progress, a: seq<RowOutcome>, b: seq<RowOutcome>)
    ensures ImportAll(st, a + b) == ImportAll(ImportAll(st, a), b)
    decreases |b|
  {
    if b == [] {
      assert a + b == a;
    } else {
      assert (a + b)[..|a + b| - 1] == a + b[..|b| - 1];
      assert (a + b)[|a + b| - 1] == b[|b| - 1];
      ImportAllAppend(st, a, b[..|b| - 1]);
    }
  }

  /**
   * Counters: every row is counted exactly once, as created, updated or skipped, and the
   * skipped ones are exactly the rows with an empty SKU or name.
   */
  lemma {:induction false} ImportAllCounts(st: Progress, os: seq<RowOutcome>)
    ensures var f := ImportAll(st, os);
      && f.created + f.updated + f.skipped == st.created + st.updated + st.skipped + |os|
      && f.skipped == st.skipped + SkipCount(os)
      && f.created >= st.created && f.updated >= st.updated
  {
    if os != [] {
      ImportAllCounts(st, os[..|os| - 1]);
    }
  }

  /** Rewriting a product under a SKU that matches its old one keeps SKUs unique. */
  lemma RewriteUnique(m: map<ProductId, Product>, id: ProductId, p: Product)
    requires SkuUnique(m) && id in m && Lower(p.sku) == Lower(m[id].sku)
    ensures SkuUnique(m[id := p])
  {
    var m' := m[id := p];
    forall i, j | i in m' && j in m' && Lower(m'[i].sku) == Lower(m'[j].sku) ensures i == j {
      assert Lower(m'[i].sku) == Lower(m[i].sku);
      assert Lower(m'[j].sku) == Lower(m[j].sku);
    }
  }

  /** Adding a product under a fresh id and an unused SKU keeps SKUs unique. */
  lemma AddUnique(m: map<ProductId, Product>, id: ProductId, p: Product)
    requires SkuUnique(m) && id !in m && !HasSku(m, p.sku)
    ensures SkuUnique(m[id := p])
  {
    assert forall k :: k in m ==> Lower(m[k].sku) != Lower(p.sku);
    assert forall k :: k in m[id := p] && k != id ==> m[id := p][k] == m[k];
  }

  /** One upsert keeps the catalogue invariant. */
  lemma UpsertOk(s: Store, sku: string, name: string, description: Option<string>, price: real)
    requires StoreOk(s)
    ensures StoreOk(UpsertStore(s, sku, name, description, price))
  {
    match Lookup(s.products, sku)
    case Some(id) =>
      var p := s.products[id];
      RewriteUnique(s.products, id, Product(p.sku, name, description, price, p.isActive));
    case None =>
      AddUnique(s.products, s.nextId, Product(sku, name, description, price, true));
  }

  /** The import keeps the catalogue invariant: still one product per lower-cased SKU. */
  lemma {:induction false} ImportAllOk(st: Progress, os: seq<RowOutcome>)
    requires StoreOk(st.store)
    ensures StoreOk(ImportAll(st, os).store)
  {
    if os != [] {
      ImportAllOk(st, os[..|os| - 1]);
      var mid := ImportAll(st, os[..|os| - 1]);
      match os[|os| - 1]
      case Skip =>
      case Upsert(sku, name, description, price) =>
        UpsertOk(mid.store, sku, name, description, price);
    }
  }

  lemma RewriteKeys(m: map<ProductId, Product>, id: ProductId, p: Product)
    requires id in m && Lower(p.sku) == Lower(m[id].sku)
    ensures SkuKeys(m[id := p]) == SkuKeys(m)
  {
    var m' := m[id := p];
    assert forall k :: k in m' ==> Lower(m'[k].sku) == Lower(m[k].sku);
    forall x | x in SkuKeys(m) ensures x in SkuKeys(m') {
      var k :| k in m && Lower(m[k].sku) == x;
      assert Lower(m'[k].sku) == x;
    }
  }

  lemma AddKeys(m: map<ProductId, Product>, id: ProductId, p: Product)
    requires id !in m
    ensures SkuKeys(m[id := p]) == SkuKeys(m) + {Lower(p.sku)}
  {
    var m' := m[id := p];
    assert forall k :: k in m && k != id ==> m'[k] == m[k];
    forall x | x in SkuKeys(m) ensures x in SkuKeys(m') {
      var k :| k in m && Lower(m[k].sku) == x;
      assert Lower(m'[k].sku) == x;
    }
    assert Lower(m'[id].sku) in SkuKeys(m');
  }

  lemma UpsertKeysStep(s: Store, sku: string, name: string, description: Option<string>, price: real)
    requires StoreOk(s)
    ensures SkuKeys(UpsertStore(s, sku, name, description, price).products) == SkuKeys(s.products) + {Lower(sku)}
  {
    match Lookup(s.products, sku)
    case Some(id) =>
      var p := s.products[id];
      RewriteKeys(s.products, id, Product(p.sku, name, description, price, p.isActive));
      assert Lower(sku) in SkuKeys(s.products);
    case None =>
      AddKeys(s.products, s.nextId, Product(sku, name, description, price, true));
  }

  /** After the import the catalogue holds exactly the SKUs it held before plus those of the rows not skipped. */
  lemma {:induction false} ImportAllKeys(st: Progress, os: seq<RowOutcome>)
    requires StoreOk(st.store)
    ensures SkuKeys(ImportAll(st, os).store.products) == SkuKeys(st.store.products) + UpsertKeys(os)
  {
    if os != [] {
      var init := os[..|os| - 1];
      ImportAllKeys(st, init);
      ImportAllOk(st, init);
      UpsertKeysLast(os);
      var mid := ImportAll(st, init);
      match os[|os| - 1]
      case Skip =>
      case Upsert(sku, name, description, price) =>
        UpsertKeysStep(mid.store, sku, name, description, price);
    }
  }

  /** Each created row adds one product and an updated or skipped row none: nothing is ever deleted. */
  lemma {:induction false} ImportAllSize(st: Progress, os: seq<RowOutcome>)
    requires StoreOk(st.store)
    ensures var f := ImportAll(st, os);
      |f.store.products| == |st.store.products| + f.created - st.created
      && st.store.products.Keys <= f.store.products.Keys
  {
    if os != [] {
      var init := os[..|os| - 1];
      ImportAllSize(st, init);
      ImportAllOk(st, init);
      ImportAllCounts(st, init);
      var mid := ImportAll(st, init);
      match os[|os| - 1]
      case Skip =>
      case Upsert(sku, name, description, price) =>
        if !HasSku(mid.store.products, sku) {
          assert mid.store.nextId !in mid.store.products;
        }
    }
  }

  lemma HasSkuKeys(m: map<ProductId, Product>, sku: string)
    ensures HasSku(m, sku) <==> Lower(sku) in SkuKeys(m)
  {
    if Lower(sku) in SkuKeys(m) {
      var id :| id in m && Lower(m[id].sku) == Lower(sku);
    }
  }

  /** One upsert leaves every product in place with its SKU and `is_active`, and leaves other SKUs' products alone. */
  lemma UpsertTouches(s: Store, sku: string, name: string, description: Option<string>, price: real, id: ProductId)
    requires StoreOk(s) && id in s.products
    ensures var f := UpsertStore(s, sku, name, description, price).products;
      && id in f && f[id].sku == s.products[id].sku && f[id].isActive == s.products[id].isActive
      && (Lower(s.products[id].sku) != Lower(sku) ==> f[id] == s.products[id])
  {
  }

  /** After one upsert the SKU's product carries the row's name, description and price. */
  lemma UpsertWrites(s: Store, sku: string, name: string, description: Option<string>, price: real)
    requires StoreOk(s)
    ensures var f := UpsertStore(s, sku, name, description, price).products;
      var id := Lookup(f, sku);
      && id.Some?
      && f[id.value].name == name && f[id.value].description == description && f[id.value].price == price
      && f[id.value].sku == (if HasSku(s.products, sku) then s.products[Lookup(s.products, sku).value].sku else sku)
      && f[id.value].isActive == (HasSku(s.products, sku) ==> s.products[Lookup(s.products, sku).value].isActive)
  {
    UpsertOk(s, sku, name, description, price);
    var f := UpsertStore(s, sku, name, description, price).products;
    match Lookup(s.products, sku)
    case Some(id) =>
      LookupUnique(f, sku, id);
    case None =>
      LookupUnique(f, sku, s.nextId);
  }

  /**
   * The import never deletes a product and never changes a stored product's SKU casing or
   * `is_active`; a product none of whose rows appear is left exactly as it was.
   */
  lemma {:induction false} ImportAllKeepsIdentity(st: Progress, os: seq<RowOutcome>, id: ProductId)
    requires StoreOk(st.store) && id in st.store.products
    ensures var f := ImportAll(st, os).store.products;
      && id in f && f[id].sku == st.store.products[id].sku && f[id].isActive == st.store.products[id].isActive
      && ((forall i :: 0 <= i < |os| && os[i].Upsert? ==> Lower(os[i].sku) != Lower(st.store.products[id].sku))
          ==> f[id] == st.store.products[id])
  {
    if os != [] {
      var init := os[..|os| - 1];
      ImportAllKeepsIdentity(st, init, id);
      ImportAllOk(st, init);
      var mid := ImportAll(st, init);
      if forall i :: 0 <= i < |os| && os[i].Upsert? ==> Lower(os[i].sku) != Lower(st.store.products[id].sku) {
        assert forall i :: 0 <= i < |init| ==> init[i] == os[i];
      }
      match os[|os| - 1]
      case Skip =>
      case Upsert(sku, name, description, price) =>
        UpsertTouches(mid.store, sku, name, description, price, id);
    }
  }

  /** A SKU that no row names keeps its product, unchanged. */
  lemma ImportAllKeepsLookup(st: Progress, os: seq<RowOutcome>, sku: string)
    requires StoreOk(st.store) && HasSku(st.store.products, sku)
    requires forall j :: 0 <= j < |os| && os[j].Upsert? ==> Lower(os[j].sku) != Lower(sku)
    ensures var f := ImportAll(st, os).store.products;
      var id := Lookup(st.store.products, sku);
      Lookup(f, sku) == id && id.value in f && f[id.value] == st.store.products[id.value]
  {
    var id := Lookup(st.store.products, sku).value;
    ImportAllKeepsIdentity(st, os, id);
    ImportAllOk(st, os);
    LookupUnique(ImportAll(st, os).store.products, sku, id);
  }

  /** Row `i` splits the import into the rows before it, the row itself and the rows after it. */
  lemma ImportAllSplit(st: Progress, os: seq<RowOutcome>, i: nat)
    requires i < |os|
    ensures ImportAll(st, os[..i + 1]) == ApplyRow(ImportAll(st, os[..i]), os[i])
    ensures ImportAll(st, os) == ImportAll(ImportAll(st, os[..i + 1]), os[i + 1..])
  {
    assert os[..i + 1][..i] == os[..i];
    assert os == os[..i + 1] + os[i + 1..];
    ImportAllAppend(st, os[..i + 1], os[i + 1..]);
  }

  /**
   * The last row of a SKU wins: once the import is done, the SKU's product carries the name,
   * description and price of the last row that names it.
   */
  lemma ImportAllLastRowWins(st: Progress, os: seq<RowOutcome>, i: nat)
    requires StoreOk(st.store) && i < |os| && os[i].Upsert?
    requires forall j :: i < j < |os| && os[j].Upsert? ==> Lower(os[j].sku) != Lower(os[i].sku)
    ensures var f := ImportAll(st, os).store.products;
      var id := Lookup(f, os[i].sku);
      && id.Some?
      && f[id.value].name == os[i].name && f[id.value].description == os[i].description
      && f[id.value].price == os[i].price
  {
    var o := os[i];
    ImportAllSplit(st, os, i);
    var pre := ImportAll(st, os[..i]);
    ImportAllOk(st, os[..i]);
    UpsertWrites(pre.store, o.sku, o.name, o.description, o.price);
    var mid := ApplyRow(pre, o);
    UpsertOk(pre.store, o.sku, o.name, o.description, o.price);
    var rest := os[i + 1..];
    assert forall j :: 0 <= j < |rest| ==> rest[j] == os[i + 1 + j];
    ImportAllKeepsLookup(mid, rest, o.sku);
  }

  /**
   * The first row of a SKU decides its casing: a SKU already in the catalogue keeps the stored
   * casing and `is_active`; a new one is stored as its first row spells it, active.
   */
  lemma ImportAllFirstRowSpells(st: Progress, os: seq<RowOutcome>, i: nat)
    requires StoreOk(st.store) && i < |os| && os[i].Upsert?
    requires forall j :: 0 <= j < i && os[j].Upsert? ==> Lower(os[j].sku) != Lower(os[i].sku)
    ensures var before := st.store.products;
      var f := ImportAll(st, os).store.products;
      var id := Lookup(f, os[i].sku);
      && id.Some?
      && f[id.value].sku == (if HasSku(before, os[i].sku) then before[Lookup(before, os[i].sku).value].sku else os[i].sku)
      && f[id.value].isActive == (HasSku(before, os[i].sku) ==> before[Lookup(before, os[i].sku).value].isActive)
  {
    var o := os[i];
    var before := st.store.products;
    ImportAllSplit(st, os, i);
    var pre := ImportAll(st, os[..i]);
    ImportAllOk(st, os[..i]);
    assert forall j :: 0 <= j < i ==> os[..i][j] == os[j];
    if HasSku(before, o.sku) {
      ImportAllKeepsLookup(st, os[..i], o.sku);
    } else {
      ImportAllKeys(st, os[..i]);
      HasSkuKeys(before, o.sku);
      HasSkuKeys(pre.store.products, o.sku);
    }
    UpsertWrites(pre.store, o.sku, o.name, o.description, o.price);
    UpsertOk(pre.store, o.sku, o.name, o.description, o.price);
    var mid := ApplyRow(pre, o);
    var id := Lookup(mid.store.products, o.sku).value;
    var rest := os[i + 1..];
    ImportAllKeepsIdentity(mid, rest, id);
    ImportAllOk(mid, rest);
    LookupUnique(ImportAll(mid, rest).store.products, o.sku, id);
  }

  /** The SKUs of the rows not skipped, one row at a time. */
  lemma UpsertKeysLast(os: seq<RowOutcome>)
    requires os != []
    ensures var last := os[|os| - 1];
      UpsertKeys(os) == UpsertKeys(os[..|os| - 1]) + (if last.Upsert? then {Lower(last.sku)} else {})
  {
    var init, last := os[..|os| - 1], os[|os| - 1];
    forall k | k in UpsertKeys(os) ensures k in UpsertKeys(init) + (if last.Upsert? then {Lower(last.sku)} else {}) {
      var j :| 0 <= j < |os| && os[j].Upsert? && Lower(os[j].sku) == k;
      if j < |init| {
        assert init[j] == os[j];
      }
    }
    forall k | k in UpsertKeys(init) ensures k in UpsertKeys(os) {
      var j :| 0 <= j < |init| && init[j].Upsert? && Lower(init[j].sku) == k;
      assert os[j] == init[j];
    }
    if last.Upsert? {
      assert Lower(last.sku) in UpsertKeys(os);
    }
  }

  lemma NewKeyCount(known: set<string>, seen: set<string>, x: string)
    ensures x in known + seen ==> (seen + {x}) - known == seen - known
    ensures x !in known + seen ==> |(seen + {x}) - known| == |seen - known| + 1
  {
    if x !in known + seen {
      assert (seen + {x}) - known == (seen - known) + {x};
    }
  }

  /** The import creates one product per SKU that was neither in the catalogue nor in an earlier row. */
  lemma {:induction false} ImportAllCreated(st: Progress, os: seq<RowOutcome>)
    requires StoreOk(st.store)
    ensures ImportAll(st, os).created == st.created + |UpsertKeys(os) - SkuKeys(st.store.products)|
  {
    if os != [] {
      var init, last := os[..|os| - 1], os[|os| - 1];
      ImportAllCreated(st, init);
      ImportAllKeys(st, init);
      UpsertKeysLast(os);
      var mid := ImportAll(st, init);
      assert ImportAll(st, os) == ApplyRow(mid, last);
      var known, seen := SkuKeys(st.store.products), UpsertKeys(init);
      if last.Upsert? {
        HasSkuKeys(mid.store.products, last.sku);
        NewKeyCount(known, seen, Lower(last.sku));
        if HasSku(mid.store.products, last.sku) {
          assert ApplyRow(mid, last).created == mid.created;
        } else {
          assert ApplyRow(mid, last).created == mid.created + 1;
        }
      } else {
        assert ApplyRow(mid, last).created == mid.created;
      }
    }
  }

  // ---------------------------------------------------------------------------------------
  // The worker: the upsert loop and the job life cycle
  // ---------------------------------------------------------------------------------------

  /** Rows per batch of the import loop. */
  const BatchSize: nat := 1000

  /** The job's `processed_records` is committed whenever the processed count reaches a multiple of this. */
  const ProgressEvery: nat := 50

  /** The `processed_records` values committed while the count of processed rows climbs from `a` to `b`. */
  function Checkpoints(a: nat, b: nat): seq<nat>
    decreases b
  {
    if b <= a then [] else Checkpoints(a, b - 1) + (if b % ProgressEvery == 0 then [b] else [])
  }

  lemma {:induction false} CheckpointsJoin(a: nat, b: nat, c: nat)
    requires a <= b <= c
    ensures Checkpoints(a, c) == Checkpoints(a, b) + Checkpoints(b, c)
    decreases c
  {
    if b < c {
      CheckpointsJoin(a, b, c - 1);
    }
  }

  /** The committed progress values are exactly the positive multiples of 50 up to `p`, in increasing order. */
  lemma {:induction false} CheckpointsAre(p: nat)
    ensures |Checkpoints(0, p)| == p / ProgressEvery
    ensures forall i :: 0 <= i < |Checkpoints(0, p)| ==> Checkpoints(0, p)[i] == ProgressEvery * (i + 1)
  {
    if p > 0 {
      CheckpointsAre(p - 1);
      if p % ProgressEvery == 0 {
        assert p / ProgressEvery == (p - 1) / ProgressEvery + 1;
        assert p == ProgressEvery * ((p - 1) / ProgressEvery + 1);
      } else {
        assert p / ProgressEvery == (p - 1) / ProgressEvery;
      }
    }
  }

  /**
   * What a poller sees of `processed_records` during a successful import: the checkpoints and
   * then the final count, never decreasing and never above the final count.
   */
  lemma ProgressMonotone(p: nat)
    ensures var log := Checkpoints(0, p) + [p];
      && log[|log| - 1] == p
      && (forall i, j :: 0 <= i < j < |log| - 1 ==> log[i] < log[j])
      && (forall i :: 0 <= i < |log| ==> log[i] <= p)
  {
    CheckpointsAre(p);
    var c := Checkpoints(0, p);
    forall i | 0 <= i < |c| ensures c[i] <= p {
      assert i < p / ProgressEvery;
      assert (i + 1) * ProgressEvery <= (p / ProgressEvery) * ProgressEvery <= p;
    }
  }

  /** The last value of a log, or `d` for an empty one. */
  function LastOr(log: seq<nat>, d: nat): nat {
    if log == [] then d else log[|log| - 1]
  }

  /** The upsert specification, one record after the other. */
  lemma OutcomesStep(st: Progress, records: seq<Record>, floats: Floats, k: nat)
    requires k < |records|
    ensures ImportAll(st, Outcomes(records[..k + 1], floats))
      == ApplyRow(ImportAll(st, Outcomes(records[..k], floats)), NormalizeRow(records[k], floats))
  {
    assert records[..k + 1][..k] == records[..k];
    var os := Outcomes(records[..k + 1], floats);
    assert os[..k] == Outcomes(records[..k], floats);
  }

  /**
   * The body of the row loop for a row that is not skipped: look the SKU up case-insensitively,
   * then either overwrite name, description and price of the product found, or add a new
   * active product.
   */
  method UpsertRow(cat: Catalogue, sku: string, name: string, description: Option<string>, price: real)
    returns (created: bool)
    requires cat.Valid()
    modifies cat
    ensures cat.Valid()
    ensures Store(cat.products, cat.nextId) == UpsertStore(Store(old(cat.products), old(cat.nextId)), sku, name, description, price)
    ensures created <==> !HasSku(old(cat.products), sku)
  {
    var existing := cat.FindBySku(sku);
    match existing
    case Some(id) =>
      LookupUnique(cat.products, sku, id);
      var p := cat.products[id];
      cat.Replace(id, Product(p.sku, name, description, price, p.isActive));
      created := false;
    case None =>
      var _ := cat.Insert(Product(sku, name, description, price, true));
      created := true;
  }

  /** The counters of the upsert specification, as the worker keeps them. */
  ghost predicate Tracks(cat: Catalogue, st: Progress, created: nat, updated: nat, skipped: nat)
    reads cat
  {
    Store(cat.products, cat.nextId) == st.store && created == st.created && updated == st.updated && skipped == st.skipped
  }

  /**
   * The body of `for row in batch` once the row is normalised: count a skip, or upsert and
   * count the row as created or updated, committing the processed count at every multiple of 50.
   */
  method ImportRow(job: ImportJob, cat: Catalogue, o: RowOutcome, ghost st: Progress,
                   processed0: nat, created0: nat, updated0: nat, skipped0: nat)
    returns (processed: nat, created: nat, updated: nat, skipped: nat)
    requires cat.Valid() && Tracks(cat, st, created0, updated0, skipped0) && processed0 == created0 + updated0
    modifies job`processedRecords, job`progressLog, cat
    ensures cat.Valid() && Tracks(cat, ApplyRow(st, o), created, updated, skipped)
    ensures processed == created + updated && processed0 <= processed
    ensures job.progressLog == old(job.progressLog) + Checkpoints(processed0, processed)
    ensures job.processedRecords == LastOr(Checkpoints(processed0, processed), old(job.processedRecords))
  {
    processed, created, updated, skipped := processed0, created0, updated0, skipped0;
    match o
    case Skip =>
      skipped := skipped + 1;
    case Upsert(sku, name, description, price) =>
      var isNew := UpsertRow(cat, sku, name, description, price);
      if isNew {
        created := created + 1;
      } else {
        updated := updated + 1;
      }
      processed := processed + 1;
      if processed % ProgressEvery == 0 {
        job.processedRecords := processed;
        job.progressLog := job.progressLog + [processed];
      }
  }

  /** The progress log and the progress value shown, over two stretches of processing. */
  lemma CheckpointsThen(log0: seq<nat>, log1: seq<nat>, log2: seq<nat>, d0: nat, d1: nat, d2: nat, a: nat, b: nat, c: nat)
    requires a <= b <= c
    requires log1 == log0 + Checkpoints(a, b) && d1 == LastOr(Checkpoints(a, b), d0)
    requires log2 == log1 + Checkpoints(b, c) && d2 == LastOr(Checkpoints(b, c), d1)
    ensures log2 == log0 + Checkpoints(a, c) && d2 == LastOr(Checkpoints(a, c), d0)
  {
    CheckpointsJoin(a, b, c);
    LogThen(log0, Checkpoints(a, b), Checkpoints(b, c), d0);
  }

  lemma LogThen(log0: seq<nat>, x: seq<nat>, y: seq<nat>, d: nat)
    ensures log0 + x + y == log0 + (x + y) && LastOr(x + y, d) == LastOr(y, LastOr(x, d))
  {
    if y != [] {
      assert (x + y)[|x + y| - 1] == y[|y| - 1];
    } else {
      assert x + y == x;
    }
  }

  /** `for row in batch`: every record of the batch normalised and imported, in order. */
  method ImportBatch(job: ImportJob, cat: Catalogue, batch: seq<Record>, floats: Floats,
                     ghost st: Progress, processed0: nat, created0: nat, updated0: nat, skipped0: nat)
    returns (processed: nat, created: nat, updated: nat, skipped: nat)
    requires cat.Valid() && Tracks(cat, st, created0, updated0, skipped0) && processed0 == created0 + updated0
    modifies job`processedRecords, job`progressLog, cat
    ensures cat.Valid() && Tracks(cat, ImportAll(st, Outcomes(batch, floats)), created, updated, skipped)
    ensures processed == created + updated && processed0 <= processed
    ensures job.progressLog == old(job.progressLog) + Checkpoints(processed0, processed)
    ensures job.processedRecords == LastOr(Checkpoints(processed0, processed), old(job.processedRecords))
  {
    processed, created, updated, skipped := processed0, created0, updated0, skipped0;
    ghost var cur := st;
    for r := 0 to |batch|
      invariant cat.Valid() && Tracks(cat, cur, created, updated, skipped)
      invariant cur == ImportAll(st, Outcomes(batch[..r], floats))
      invariant processed == created + updated && processed0 <= processed
      invariant job.progressLog == old(job.progressLog) + Checkpoints(processed0, processed)
      invariant job.processedRecords == LastOr(Checkpoints(processed0, processed), old(job.processedRecords))
    {
      OutcomesStep(st, batch, floats, r);
      var o := NormalizeRow(batch[r], floats);
      ghost var p, log, shown := processed, job.progressLog, job.processedRecords;
      processed, created, updated, skipped := ImportRow(job, cat, o, cur, processed, created, updated, skipped);
      CheckpointsThen(old(job.progressLog), log, job.progressLog, old(job.processedRecords), shown, job.processedRecords,
        processed0, p, processed);
      cur := ApplyRow(cur, o);
    }
    assert batch[..|batch|] == batch;
  }

  lemma OutcomesSplit(st: Progress, records: seq<Record>, floats: Floats, i: nat, j: nat)
    requires i <= j <= |records|
    ensures ImportAll(st, Outcomes(records[..j], floats))
      == ImportAll(ImportAll(st, Outcomes(records[..i], floats)), Outcomes(records[i..j], floats))
  {
    assert records[..j] == records[..i] + records[i..j];
    OutcomesAppend(records[..i], records[i..j], floats);
    ImportAllAppend(st, Outcomes(records[..i], floats), Outcomes(records[i..j], floats));
  }

  /**
   * The batch loop of `process_csv_import`: slices of 1000 records, imported in order. The
   * final catalogue and counters are those of the upsert specification applied to every record.
   */
  method ImportRecords(job: ImportJob, cat: Catalogue, records: seq<Record>, floats: Floats)
    returns (processed: nat, created: nat, updated: nat, skipped: nat)
    requires cat.Valid()
    modifies job`processedRecords, job`progressLog, cat
    ensures cat.Valid()
    ensures Tracks(cat, ImportAll(Progress(Store(old(cat.products), old(cat.nextId)), 0, 0, 0), Outcomes(records, floats)), created, updated, skipped)
    ensures processed == created + updated && processed + skipped == |records|
    ensures job.progressLog == old(job.progressLog) + Checkpoints(0, processed)
    ensures job.processedRecords == LastOr(Checkpoints(0, processed), old(job.processedRecords))
  {
    ghost var init := Progress(Store(cat.products, cat.nextId), 0, 0, 0);
    var total := |records|;
    processed, created, updated, skipped := 0, 0, 0, 0;
    var i := 0;
    while i < total
      invariant i <= total
      invariant cat.Valid() && Tracks(cat, ImportAll(init, Outcomes(records[..i], floats)), created, updated, skipped)
      invariant processed == created + updated
      invariant job.progressLog == old(job.progressLog) + Checkpoints(0, processed)
      invariant job.processedRecords == LastOr(Checkpoints(0, processed), old(job.processedRecords))
      decreases total - i
    {
      // `range(0, total_records, batch_size)` and `records[i:i + batch_size]`: the next slice starts where this one ends.
      var end := if i + BatchSize <= total then i + BatchSize else total;
      OutcomesSplit(init, records, floats, i, end);
      ghost var p, log, shown := processed, job.progressLog, job.processedRecords;
      processed, created, updated, skipped :=
        ImportBatch(job, cat, records[i..end], floats, ImportAll(init, Outcomes(records[..i], floats)), processed, created, updated, skipped);
      CheckpointsThen(old(job.progressLog), log, job.progressLog, old(job.processedRecords), shown, job.processedRecords,
        0, p, processed);
      i := end;
    }
    assert records[..total] == records;
    ImportAllCounts(init, Outcomes(records, floats));
  }

  lemma AppendThree<T>(s: seq<T>, a: T, b: T, c: T)
    ensures s + [a] + [b] + [c] == s + [a, b, c]
  {
  }

  lemma AppendAfter<T>(s: seq<T>, a: T, b: T, c: T, d: T)
    ensures s + [a] + [b, c, d] == s + [a, b, c, d]
  {
  }

  /** The final commit of a successful import: the processed count, completed, and the completion time. */
  method FinishImport(job: ImportJob, processed: nat, finishedAt: Timestamp)
    modifies job`processedRecords, job`progressLog, job`status, job`completedAt, job`statusLog
    ensures job.status == Completed && job.completedAt == Some(finishedAt) && job.processedRecords == processed
    ensures job.statusLog == old(job.statusLog) + [Completed]
    ensures job.progressLog == old(job.progressLog) + [processed]
  {
    job.processedRecords := processed;
    job.progressLog := job.progressLog + [processed];
    job.status := Completed;
    job.completedAt := Some(finishedAt);
    job.statusLog := job.statusLog + [Completed];
  }

  /**
   * The `ImportCompleted` trigger of a job. It records the status history committed at the moment
   * it fires, which is what lets a contract say that the fan-out follows a given commit.
   */
  method AnnounceCompleted(job: ImportJob, hooks: WebhookStore, loop: Dispatcher, data: Payload, selectFails: bool)
    modifies job`completionAnnounced, loop
    ensures job.completionAnnounced == Some(job.statusLog)
    ensures loop.started == old(loop.started) + (if selectFails then [] else Fanout(hooks.rows, "ImportCompleted", data))
  {
    TriggerWebhook(loop, hooks, "ImportCompleted", data, selectFails);
    job.completionAnnounced := Some(job.statusLog);
  }

  /**
   * The records imported: the batch loop, the final commit that completes the job, and then,
   * once the completed status is committed, the `ImportCompleted` fan-out.
   */
  method CompleteImport(job: ImportJob, cat: Catalogue, hooks: WebhookStore, loop: Dispatcher,
                        records: seq<Record>, floats: Floats, finishedAt: Timestamp, selectFails: bool)
    returns (processed: nat, created: nat, updated: nat, skipped: nat)
    requires cat.Valid()
    modifies job`processedRecords, job`progressLog, job`status, job`completedAt, job`statusLog, job`completionAnnounced, cat, loop
    ensures cat.Valid()
    ensures var f := ImportAll(Progress(Store(old(cat.products), old(cat.nextId)), 0, 0, 0), Outcomes(records, floats));
      created == f.created && updated == f.updated && skipped == f.skipped && Store(cat.products, cat.nextId) == f.store
    ensures processed == created + updated && processed + skipped == |records|
    ensures job.status == Completed && job.completedAt == Some(finishedAt) && job.processedRecords == processed
    ensures job.statusLog == old(job.statusLog) + [Completed]
    ensures job.completionAnnounced == Some(old(job.statusLog) + [Completed])
    ensures job.progressLog == old(job.progressLog) + Checkpoints(0, processed) + [processed]
    ensures job.errorMessage == old(job.errorMessage) && job.startedAt == old(job.startedAt)
    ensures loop.started == old(loop.started)
      + (if selectFails then [] else Fanout(hooks.rows, "ImportCompleted", ImportCompletedData(job.id, |records|, processed, created, updated)))
  {
    ghost var f := ImportAll(Progress(Store(cat.products, cat.nextId), 0, 0, 0), Outcomes(records, floats));
    processed, created, updated, skipped := ImportRecords(job, cat, records, floats);
    assert Tracks(cat, f, created, updated, skipped);
    FinishImport(job, processed, finishedAt);
    AnnounceCompleted(job, hooks, loop, ImportCompletedData(job.id, |records|, processed, created, updated), selectFails);
  }

  /**
   * The import proper, once the header passed: read the records, move the job through
   * validating to importing, and import them.
   */
  method ImportFile(job: ImportJob, cat: Catalogue, hooks: WebhookStore, loop: Dispatcher,
                    header: seq<string>, rows: seq<seq<string>>, floats: Floats,
                    finishedAt: Timestamp, selectFails: bool)
    returns (records: seq<Record>, processed: nat, created: nat, updated: nat, skipped: nat)
    requires cat.Valid()
    modifies job`totalRecords, job`processedRecords, job`progressLog, job`status, job`completedAt, job`statusLog,
      job`completionAnnounced, cat, loop
    ensures cat.Valid()
    ensures records == Records(header, rows)
    ensures var f := ImportAll(Progress(Store(old(cat.products), old(cat.nextId)), 0, 0, 0), Outcomes(records, floats));
      created == f.created && updated == f.updated && skipped == f.skipped && Store(cat.products, cat.nextId) == f.store
    ensures processed == created + updated && processed + skipped == |records|
    ensures job.status == Completed && job.completedAt == Some(finishedAt)
    ensures job.statusLog == old(job.statusLog) + [Validating, Importing, Completed]
    ensures job.completionAnnounced == Some(job.statusLog)
    ensures job.totalRecords == |records| && job.processedRecords == processed
    ensures job.progressLog == old(job.progressLog) + Checkpoints(0, processed) + [processed]
    ensures job.errorMessage == old(job.errorMessage) && job.startedAt == old(job.startedAt)
    ensures loop.started == old(loop.started)
      + (if selectFails then [] else Fanout(hooks.rows, "ImportCompleted", ImportCompletedData(job.id, |records|, processed, created, updated)))
  {
    records := ReadRecords(header, rows);
    job.totalRecords := |records|;
    job.status := Validating;
    job.statusLog := job.statusLog + [Validating];
    job.status := Importing;
    job.statusLog := job.statusLog + [Importing];
    processed, created, updated, skipped := CompleteImport(job, cat, hooks, loop, records, floats, finishedAt, selectFails);
    AppendThree(old(job.statusLog), Validating, Importing, Completed);
  }

  /** The `except` branch of `process_csv_import`: the job fails with the error's message. */
  method FailImport(job: ImportJob, message: string, finishedAt: Timestamp)
    modifies job`status, job`errorMessage, job`completedAt, job`statusLog
    ensures job.status == Failed && job.errorMessage == Some(message) && job.completedAt == Some(finishedAt)
    ensures job.statusLog == old(job.statusLog) + [Failed]
  {
    job.status := Failed;
    job.errorMessage := Some(message);
    job.completedAt := Some(finishedAt);
    job.statusLog := job.statusLog + [Failed];
  }

  /**
   * `process_csv_import` once the job is found: it moves to parsing; a file without a header
   * or without the `sku` and `name` columns fails the job with the error message; any other
   * file is imported, and the records read and the counters the worker logs are returned
   * (none and zero on failure).
   */
  method RunImport(job: ImportJob, cat: Catalogue, hooks: WebhookStore, loop: Dispatcher,
                   header: seq<string>, rows: seq<seq<string>>, floats: Floats,
                   startedAt: Timestamp, finishedAt: Timestamp, selectFails: bool)
    returns (checked: Result<seq<string>, string>, records: seq<Record>, processed: nat, created: nat, updated: nat, skipped: nat)
    requires cat.Valid()
    modifies job, cat, loop
    ensures checked == CheckHeader(header)
    ensures cat.Valid()
    ensures job.startedAt == Some(startedAt) && job.completedAt == Some(finishedAt)
    ensures checked.Err? ==>
      && job.status == Failed && job.errorMessage == Some(checked.error)
      && job.statusLog == old(job.statusLog) + [Parsing, Failed]
      && job.totalRecords == old(job.totalRecords) && job.processedRecords == old(job.processedRecords)
      && job.progressLog == old(job.progressLog)
      && job.completionAnnounced == old(job.completionAnnounced)
      && unchanged(cat) && unchanged(loop)
      && records == [] && processed == created == updated == skipped == 0
    ensures checked.Ok? ==> records == Records(header, rows)
    ensures checked.Ok? ==>
      var f := ImportAll(Progress(Store(old(cat.products), old(cat.nextId)), 0, 0, 0), Outcomes(records, floats));
      created == f.created && updated == f.updated && skipped == f.skipped && Store(cat.products, cat.nextId) == f.store
    ensures checked.Ok? ==>
      && processed == created + updated && processed + skipped == |records|
      && job.status == Completed && job.errorMessage == old(job.errorMessage)
      && job.statusLog == old(job.statusLog) + [Parsing, Validating, Importing, Completed]
      && job.completionAnnounced == Some(job.statusLog)
      && job.totalRecords == |records| && job.processedRecords == processed
      && job.progressLog == old(job.progressLog) + Checkpoints(0, processed) + [processed]
      && loop.started == old(loop.started)
        + (if selectFails then [] else Fanout(hooks.rows, "ImportCompleted", ImportCompletedData(job.id, |records|, processed, created, updated)))
  {
    ghost var message := job.errorMessage;
    job.status := Parsing;
    job.startedAt := Some(startedAt);
    job.statusLog := job.statusLog + [Parsing];
    ghost var log := job.statusLog;
    checked := CheckHeader(header);
    if checked.Err? {
      FailImport(job, checked.error, finishedAt);
      records, processed, created, updated, skipped := [], 0, 0, 0, 0;
    } else {
      records, processed, created, updated, skipped := ImportFile(job, cat, hooks, loop, header, rows, floats, finishedAt, selectFails);
      AppendAfter(old(job.statusLog), Parsing, Validating, Importing, Completed);
      assert job.errorMessage == message;
    }
  }

  /**
   * `process_csv_import(import_job_id, file_path)`: an unknown job id changes nothing; otherwise the
   * job with that id is run as `RunImport` says, and no other job is touched. The header check,
   * the records and the counters are those of `RunImport` (none and zero for an unknown id).
   */
  method ProcessCsvImport(table: JobTable, jobId: JobId, cat: Catalogue, hooks: WebhookStore, loop: Dispatcher,
                          header: seq<string>, rows: seq<seq<string>>, floats: Floats,
                          startedAt: Timestamp, finishedAt: Timestamp, selectFails: bool)
    returns (job: ImportJob?, checked: Option<Result<seq<string>, string>>, records: seq<Record>,
             processed: nat, created: nat, updated: nat, skipped: nat)
    requires cat.Valid()
    modifies (set j | j in table.jobs && j.id == jobId), cat, loop
    ensures cat.Valid()
    ensures job == null <==> forall i :: 0 <= i < |table.jobs| ==> table.jobs[i].id != jobId
    ensures job == null <==> checked.None?
    ensures job == null ==> unchanged(cat) && unchanged(loop) && records == [] && processed == created == updated == skipped == 0
    ensures job != null ==> job in table.jobs && job.id == jobId && checked == Some(CheckHeader(header))
    ensures job != null ==> job.startedAt == Some(startedAt) && job.completedAt == Some(finishedAt)
    ensures job != null && checked.value.Err? ==>
      && job.status == Failed && job.errorMessage == Some(checked.value.error)
      && job.statusLog == old(job.statusLog) + [Parsing, Failed]
      && job.totalRecords == old(job.totalRecords) && job.processedRecords == old(job.processedRecords)
      && job.progressLog == old(job.progressLog) && job.completionAnnounced == old(job.completionAnnounced)
      && unchanged(cat) && unchanged(loop)
      && records == [] && processed == created == updated == skipped == 0
    ensures job != null && checked.value.Ok? ==> records == Records(header, rows)
    ensures job != null && checked.value.Ok? ==>
      var f := ImportAll(Progress(Store(old(cat.products), old(cat.nextId)), 0, 0, 0), Outcomes(records, floats));
      created == f.created && updated == f.updated && skipped == f.skipped && Store(cat.products, cat.nextId) == f.store
    ensures job != null && checked.value.Ok? ==>
      && processed == created + updated && processed + skipped == |records|
      && job.status == Completed && job.errorMessage == old(job.errorMessage)
      && job.statusLog == old(job.statusLog) + [Parsing, Validating, Importing, Completed]
      && job.completionAnnounced == Some(job.statusLog)
      && job.totalRecords == |records| && job.processedRecords == processed
      && job.progressLog == old(job.progressLog) + Checkpoints(0, processed) + [processed]
      && loop.started == old(loop.started)
        + (if selectFails then [] else Fanout(hooks.rows, "ImportCompleted", ImportCompletedData(job.id, |records|, processed, created, updated)))
  {
    job := table.Find(jobId);
    if job == null {
      return null, None, [], 0, 0, 0, 0;
    }
    var run;
    run, records, processed, created, updated, skipped :=
      RunImport(job, cat, hooks, loop, header, rows, floats, startedAt, finishedAt, selectFails);
    checked := Some(run);
  }

  /** A job picked up while pending leaves a history that only moves forward, on both paths. */
  lemma ImportHistory(log: seq<ImportStatus>)
    requires ValidHistory(log) && log[|log| - 1] == Pending
    ensures ValidHistory(log + [Parsing, Failed])
    ensures ValidHistory(log + [Parsing, Validating, Importing, Completed])
  {
  }
}
