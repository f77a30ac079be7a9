/**
 * The pre-import de-duplicator (`app/preprocesscsv.py`, `preprocess_dedupe_csv`): it finds the
 * SKU column, pads short rows, keys every row by its trimmed, lower-cased SKU, keeps the last
 * row of each key in a keyed table (an `INSERT OR REPLACE` into a sqlite table whose primary
 * key is the normalised SKU), and writes the header followed by the surviving rows in key order.
 *
 * The file arrives already split into a header and rows of fields; writing a row to text and
 * reading it back gives the row again, so the table holds the rows themselves.
 */
module Preprocess {
  import opened Base
  import opened Text

  /** The default `sku_column_names`, in priority order. */
  const DefaultCandidates: seq<string> := ["sku", "product_sku", "id", "code"]

  /** Rows per `executemany` flush. */
  const FlushEvery: nat := 2000

  const NoSkuColumnPrefix: string := "Could not find SKU column in CSV header. Header columns: "

  // ---------------------------------------------------------------------------------------
  // The SKU column
  // ---------------------------------------------------------------------------------------

  /** `[h.strip().lower() for h in header]` */
  function NormalizeHeader(header: seq<string>): (r: seq<string>)
    ensures |r| == |header| && forall i :: 0 <= i < |header| ==> r[i] == Lower(Strip(header[i], Whitespace))
  {
    seq(|header|, i requires 0 <= i < |header| => Lower(Strip(header[i], Whitespace)))
  }

  /** `xs.index(x)`: the first position holding `x`. */
  function IndexOf(xs: seq<string>, x: string): (r: Option<nat>)
    ensures r.Some? <==> x in xs
    ensures r.Some? ==> r.value < |xs| && xs[r.value] == x && forall j :: 0 <= j < r.value ==> xs[j] != x
  {
    if xs == [] then None
    else if xs[0] == x then Some(0)
    else match IndexOf(xs[1..], x)
      case None => None
      case Some(j) => Some(j + 1)
  }

  /** The first candidate, in priority order, that the normalised header contains. */
  function FirstPresent(names: seq<string>, candidates: seq<string>): (r: Option<nat>)
    ensures r.Some? ==> r.value < |candidates| && candidates[r.value] in names
    ensures r.Some? ==> forall j :: 0 <= j < r.value ==> candidates[j] !in names
    ensures r.None? <==> forall j :: 0 <= j < |candidates| ==> candidates[j] !in names
  {
    if candidates == [] then None
    else if candidates[0] in names then Some(0)
    else match FirstPresent(names, candidates[1..])
      case None => None
      case Some(j) => Some(j + 1)
  }

  lemma FirstPresentAt(names: seq<string>, candidates: seq<string>, c: nat)
    requires c < |candidates| && candidates[c] in names
    requires forall j :: 0 <= j < c ==> candidates[j] !in names
    ensures FirstPresent(names, candidates) == Some(c)
  {
    var r := FirstPresent(names, candidates);
    assert r.Some?;
  }

  /**
   * Where the SKU column is: the first occurrence of the first candidate present, else of
   * `sku`, else nowhere.
   */
  function SkuColumn(header: seq<string>, candidates: seq<string>): (r: Option<nat>)
    ensures r.Some? ==> r.value < |header|
  {
    var names := NormalizeHeader(header);
    match FirstPresent(names, candidates)
    case Some(c) => IndexOf(names, candidates[c])
    case None => IndexOf(names, "sku")
  }

  /** The `ValueError` message when no SKU column is found: the header names as read, joined by `, `. */
  function NoSkuColumnMessage(header: seq<string>): string {
    NoSkuColumnPrefix + Join(header, ", ")
  }

  /**
   * The header scan: `for name in sku_column_names: if name in header_norm: ...; break`, then the
   * fallback to `sku`, then the `ValueError`.
   */
  method FindSkuColumn(header: seq<string>, candidates: seq<string>) returns (r: Result<nat, string>)
    ensures r.Ok? <==> SkuColumn(header, candidates).Some?
    ensures r.Ok? ==> r.value == SkuColumn(header, candidates).value
    ensures r.Err? ==> r.error == NoSkuColumnMessage(header)
  {
    var names := NormalizeHeader(header);
    var found: Option<nat> := None;
    var c := 0;
    while c < |candidates|
      invariant c <= |candidates|
      invariant forall j :: 0 <= j < c ==> candidates[j] !in names
    {
      if candidates[c] in names {
        FirstPresentAt(names, candidates, c);
        found := IndexOf(names, candidates[c]);
        break;
      }
      c := c + 1;
    }
    if found.None? {
      if "sku" in names {
        found := IndexOf(names, "sku");
      } else {
        return Err(NoSkuColumnMessage(header));
      }
    }
    return Ok(found.value);
  }

  /**
   * Column `i` of the normalised header is the one the scan picks: its name is the candidate of
   * highest priority the header holds, and no earlier column has that name.
   */
  predicate ChosenBy(names: seq<string>, candidates: seq<string>, i: nat) {
    && i < |names|
    && (exists c :: 0 <= c < |candidates| && candidates[c] == names[i] && forall d :: 0 <= d < c ==> candidates[d] !in names)
    && (forall j :: 0 <= j < i ==> names[j] != names[i])
  }

  /**
   * With the default candidates (which include `sku`) a column is found exactly when the header
   * names one of them, and it is the column of the candidate of highest priority.
   */
  lemma DefaultColumn(header: seq<string>)
    ensures SkuColumn(header, DefaultCandidates).Some? <==> exists c :: c in DefaultCandidates && c in NormalizeHeader(header)
    ensures SkuColumn(header, DefaultCandidates).Some? ==>
      ChosenBy(NormalizeHeader(header), DefaultCandidates, SkuColumn(header, DefaultCandidates).value)
  {
    var names := NormalizeHeader(header);
    var first := FirstPresent(names, DefaultCandidates);
    if first.Some? {
      var c := first.value;
      assert DefaultCandidates[c] in DefaultCandidates;
      var i := IndexOf(names, DefaultCandidates[c]).value;
      assert ChosenBy(names, DefaultCandidates, i);
    } else {
      assert "sku" == DefaultCandidates[0];
    }
  }


  /** An empty header has no SKU column. */
  lemma EmptyHeaderFails(candidates: seq<string>)
    ensures SkuColumn([], candidates).None?
  {
    var names := NormalizeHeader([]);
    assert names == [];
  }

  // ---------------------------------------------------------------------------------------
  // Rows and keys
  // ---------------------------------------------------------------------------------------

  /** `row + [''] * (len(header) - len(row))` for a row shorter than the header. */
  function Pad(row: seq<string>, width: nat): (r: seq<string>)
    ensures |r| == if |row| < width then width else |row|
    ensures r[..|row|] == row
    ensures forall i :: |row| <= i < |r| ==> r[i] == ""
  {
    if |row| < width then row + seq(width - |row|, _ => "") else row
  }

  /** `row[sku_idx].strip().lower()` */
  function SkuKey(row: seq<string>, idx: nat): string
    requires idx < |row|
  {
    Lower(Strip(row[idx], Whitespace))
  }

  /** A row kept for the table: its key and the padded row. */
  type Entry = (string, seq<string>)

  /**
   * The rows that reach the table, in file order: padded, keyed, those with an empty key
   * dropped. Each entry holds a row of at least the header's width under its own non-empty key.
   */
  function Entries(rows: seq<seq<string>>, width: nat, idx: nat): (es: seq<Entry>)
    requires idx < width
    ensures |es| <= |rows|
    ensures EntriesKeyed(es, idx)
    ensures forall i :: 0 <= i < |es| ==> width <= |es[i].1|
  {
    if rows == [] then []
    else
      Entries(rows[..|rows| - 1], width, idx) + Entry1(Pad(rows[|rows| - 1], width), idx)
  }

  /** The entry of one padded row: none when its key is empty. */
  function Entry1(row: seq<string>, idx: nat): seq<Entry>
    requires idx < |row|
  {
    var key := SkuKey(row, idx);
    if key == "" then [] else [(key, row)]
  }

  /** Each entry holds a row of at least the header's width, under that row's own non-empty key. */
  predicate EntriesKeyed(es: seq<Entry>, idx: nat) {
    forall i :: 0 <= i < |es| ==> idx < |es[i].1| && es[i].0 == SkuKey(es[i].1, idx) && es[i].0 != ""
  }

  /** `INSERT OR REPLACE` of each entry in turn: a later entry with the same key replaces an earlier one. */
  function Upserts(table: map<string, seq<string>>, es: seq<Entry>): map<string, seq<string>> {
    if es == [] then table
    else Upserts(table, es[..|es| - 1])[es[|es| - 1].0 := es[|es| - 1].1]
  }

  lemma {:induction false} UpsertsAppend(table: map<string, seq<string>>, a: seq<Entry>, b: seq<Entry>)
    ensures Upserts(table, a + b) == Upserts(Upserts(table, a), b)
    decreases |b|
  {
    if b == [] {
      assert a + b == a;
    } else {
      assert (a + b)[..|a + b| - 1] == a + b[..|b| - 1];
      UpsertsAppend(table, a, b[..|b| - 1]);
    }
  }

  lemma UpsertsSnoc(table: map<string, seq<string>>, es: seq<Entry>, e: Entry)
    ensures Upserts(table, es + [e]) == Upserts(table, es)[e.0 := e.1]
  {
    assert (es + [e])[..|es|] == es;
  }

  /**
   * Last one wins: starting from an empty table, a key ends up in the table exactly when some
   * entry has it, holding the row of the last such entry.
   */
  lemma {:induction false} UpsertsLastWins(es: seq<Entry>, k: string)
    ensures var t := Upserts(map[], es);
      && (k in t <==> exists i :: 0 <= i < |es| && es[i].0 == k)
      && (k in t ==> exists i :: 0 <= i < |es| && es[i].0 == k && t[k] == es[i].1 && LastWith(es, i))
  {
    if es != [] {
      var init, last := es[..|es| - 1], es[|es| - 1];
      UpsertsLastWins(init, k);
      var t := Upserts(map[], es);
      if last.0 == k {
        assert t[k] == last.1;
      } else {
        if exists i :: 0 <= i < |es| && es[i].0 == k {
          var i :| 0 <= i < |es| && es[i].0 == k;
          assert init[i] == es[i];
        }
        if k in t {
          var i :| 0 <= i < |init| && init[i].0 == k && Upserts(map[], init)[k] == init[i].1 && LastWith(init, i);
          assert es[i] == init[i];
          assert forall j :: i < j < |es| - 1 ==> es[j] == init[j];
          assert LastWith(es, i);
        }
      }
    }
  }

  /** No entry after the `i`-th has its key. */
  predicate LastWith(es: seq<Entry>, i: nat)
    requires i < |es|
  {
    forall j :: i < j < |es| ==> es[j].0 != es[i].0
  }

  /** Every row of the table sits under its own, non-empty key. */
  predicate Keyed(t: map<string, seq<string>>, idx: nat) {
    forall k :: k in t ==> idx < |t[k]| && SkuKey(t[k], idx) == k && k != ""
  }

  /** Every row of a table built from entries sits under its own key. */
  lemma {:induction false} UpsertsKeyed(table: map<string, seq<string>>, es: seq<Entry>, idx: nat)
    requires Keyed(table, idx)
    requires EntriesKeyed(es, idx)
    ensures Keyed(Upserts(table, es), idx)
  {
    if es != [] {
      var init := es[..|es| - 1];
      assert forall i :: 0 <= i < |init| ==> init[i] == es[i];
      UpsertsKeyed(table, init, idx);
      var last := es[|es| - 1];
      assert idx < |last.1| && last.0 == SkuKey(last.1, idx) && last.0 != "";
      var t0, t := Upserts(table, init), Upserts(table, es);
      assert t == t0[last.0 := last.1];
      forall k | k in t ensures idx < |t[k]| && SkuKey(t[k], idx) == k && k != "" {
        if k != last.0 {
          assert k in t0 && t[k] == t0[k];
        }
      }
    }
  }

  /** The sqlite table `dedupe (sku_norm TEXT PRIMARY KEY, row_text TEXT)`. */
  class DedupeTable {
    var rows: map<string, seq<string>>

    constructor ()
      ensures rows == map[]
    {
      rows := map[];
    }

    /** `cur.executemany("INSERT OR REPLACE ...", batch)` */
    method InsertOrReplace(batch: seq<Entry>)
      modifies this
      ensures rows == Upserts(old(rows), batch)
    {
      ghost var before := rows;
      for i := 0 to |batch|
        invariant rows == Upserts(before, batch[..i])
      {
        assert batch[..i + 1][..i] == batch[..i];
        rows := rows[batch[i].0 := batch[i].1];
      }
      assert batch[..|batch|] == batch;
    }
  }

  lemma EntriesStep(rows: seq<seq<string>>, width: nat, idx: nat, k: nat)
    requires idx < width && k < |rows|
    ensures Entries(rows[..k + 1], width, idx) == Entries(rows[..k], width, idx) + Entry1(Pad(rows[k], width), idx)
  {
    assert rows[..k + 1][..k] == rows[..k];
  }

  /** One more row read: its entry, if it has one, joins the pending batch. */
  lemma FillStep(t: map<string, seq<string>>, batch: seq<Entry>, rows: seq<seq<string>>, width: nat, idx: nat, k: nat)
    requires idx < width && k < |rows|
    requires Upserts(t, batch) == Upserts(map[], Entries(rows[..k], width, idx))
    ensures Upserts(t, batch + Entry1(Pad(rows[k], width), idx)) == Upserts(map[], Entries(rows[..k + 1], width, idx))
  {
    EntriesStep(rows, width, idx, k);
    var e := Entry1(Pad(rows[k], width), idx);
    UpsertsAppend(t, batch, e);
    UpsertsAppend(map[], Entries(rows[..k], width, idx), e);
  }

  /**
   * The first pass: pad each row, drop it when its key is empty, collect it in `batch`, and flush
   * the batch into the table whenever it holds 2000 rows and once more at the end. The table
   * ends up as if every row had been inserted on its own.
   */
  method FillTable(table: DedupeTable, rows: seq<seq<string>>, width: nat, idx: nat)
    requires idx < width && table.rows == map[]
    modifies table
    ensures table.rows == Upserts(map[], Entries(rows, width, idx))
  {
    var batch: seq<Entry> := [];
    for k := 0 to |rows|
      invariant Upserts(table.rows, batch) == Upserts(map[], Entries(rows[..k], width, idx))
      invariant |batch| < FlushEvery
    {
      var row := Pad(rows[k], width);
      var key := SkuKey(row, idx);
      FillStep(table.rows, batch, rows, width, idx, k);
      if key != "" {
        assert Entry1(row, idx) == [(key, row)];
        batch := batch + [(key, row)];
        if |batch| >= FlushEvery {
          table.InsertOrReplace(batch);
          assert Upserts(table.rows, []) == table.rows;
          batch := [];
        }
      } else {
        assert batch + Entry1(row, idx) == batch;
      }
    }
    assert rows[..|rows|] == rows;
    if batch != [] {
      table.InsertOrReplace(batch);
    }
  }

  // ---------------------------------------------------------------------------------------
  // Key order
  // ---------------------------------------------------------------------------------------

  /** Keys in strictly increasing order. */
  predicate Ascending(keys: seq<string>) {
    forall i, j :: 0 <= i < j < |keys| ==> Less(keys[i], keys[j])
  }

  /** `m` is below every other element of `s`. */
  predicate IsLeast(m: string, s: set<string>) {
    m in s && forall k :: k in s && k != m ==> Less(m, k)
  }

  lemma {:induction false} LeastExists(s: set<string>)
    requires s != {}
    ensures exists m :: IsLeast(m, s)
    decreases |s|
  {
    var x :| x in s;
    if s == {x} {
      assert IsLeast(x, s);
    } else {
      var rest := s - {x};
      LeastExists(rest);
      var m :| IsLeast(m, rest);
      if Less(x, m) {
        forall k | k in s && k != x ensures Less(x, k) {
          if k != m {
            LessTransitive(x, m, k);
          }
        }
        assert IsLeast(x, s);
      } else {
        LessTotal(x, m);
        assert IsLeast(m, s);
      }
    }
  }

  lemma LeastUnique(a: string, b: string, s: set<string>)
    requires IsLeast(a, s) && IsLeast(b, s)
    ensures a == b
  {
    if a != b {
      LessTransitive(a, b, a);
      LessIrreflexive(a);
    }
  }

  /** The least key of a non-empty set. */
  function Least(s: set<string>): (m: string)
    requires s != {}
    ensures IsLeast(m, s)
  {
    LeastExists(s);
    assert forall a, b :: IsLeast(a, s) && IsLeast(b, s) ==> a == b by {
      forall a, b | IsLeast(a, s) && IsLeast(b, s) ensures a == b {
        LeastUnique(a, b, s);
      }
    }
    var m :| IsLeast(m, s);
    m
  }

  /** `ORDER BY sku_norm`: the keys of the table, least first. */
  function SortedKeys(s: set<string>): (keys: seq<string>)
    ensures |keys| == |s|
    ensures forall i :: 0 <= i < |keys| ==> keys[i] in s
    decreases |s|
  {
    if s == {} then []
    else
      var m := Least(s);
      [m] + SortedKeys(s - {m})
  }

  /** The sorted keys are exactly the set's keys, each once, in strictly increasing order. */
  lemma {:induction false} SortedKeysAscending(s: set<string>)
    ensures Ascending(SortedKeys(s))
    ensures forall k :: k in s ==> k in SortedKeys(s)
    decreases |s|
  {
    if s != {} {
      var m := Least(s);
      var rest := SortedKeys(s - {m});
      SortedKeysAscending(s - {m});
      var keys := SortedKeys(s);
      assert keys == [m] + rest;
      forall i, j | 0 <= i < j < |keys| ensures Less(keys[i], keys[j]) {
        if i == 0 {
          assert keys[j] == rest[j - 1] && rest[j - 1] in s - {m};
        } else {
          assert keys[i] == rest[i - 1] && keys[j] == rest[j - 1];
        }
      }
      forall k | k in s ensures k in keys {
        if k != m {
          assert k in rest;
        }
      }
    }
  }

  /** The first key of an ascending sequence is its least. */
  lemma AscendingHead(a: seq<string>)
    requires Ascending(a) && a != []
    ensures IsLeast(a[0], set k | k in a)
  {
    forall k | k in a && k != a[0] ensures Less(a[0], k) {
      var i :| 0 <= i < |a| && a[i] == k;
    }
  }

  /** Dropping the first key of an ascending sequence leaves an ascending sequence of the other keys. */
  lemma AscendingTail(a: seq<string>)
    requires Ascending(a) && a != []
    ensures Ascending(a[1..])
    ensures forall k :: k in a[1..] <==> k in a && k != a[0]
  {
    assert forall i :: 0 <= i < |a| - 1 ==> a[1..][i] == a[i + 1];
    assert a == [a[0]] + a[1..];
    forall k | k in a[1..] ensures k != a[0] {
      var i :| 0 <= i < |a| - 1 && a[1..][i] == k;
      LessIrreflexive(a[0]);
    }
  }

  /** An ascending sequence is determined by its set of keys: no other order of them is ascending. */
  lemma {:induction false} AscendingUnique(a: seq<string>, b: seq<string>)
    requires Ascending(a) && Ascending(b)
    requires forall k :: k in a <==> k in b
    ensures a == b
    decreases |a|
  {
    if a != [] {
      assert a[0] in b;
    }
    if b != [] {
      assert b[0] in a;
    }
    if a != [] && b != [] {
      AscendingHead(a);
      AscendingHead(b);
      assert (set k | k in a) == (set k | k in b);
      LeastUnique(a[0], b[0], set k | k in a);
      AscendingTail(a);
      AscendingTail(b);
      AscendingUnique(a[1..], b[1..]);
      assert a == [a[0]] + a[1..] && b == [b[0]] + b[1..];
    }
  }

  /** `ORDER BY sku_norm` fixes the output order: the sorted keys are the only ascending listing of the set. */
  lemma SortedKeysUnique(s: set<string>, keys: seq<string>)
    requires Ascending(keys)
    requires forall k :: k in keys <==> k in s
    ensures keys == SortedKeys(s)
  {
    SortedKeysAscending(s);
    AscendingUnique(keys, SortedKeys(s));
  }

  // ---------------------------------------------------------------------------------------
  // The whole pass
  // ---------------------------------------------------------------------------------------

  /** `SELECT sku_norm, row_text FROM dedupe ORDER BY sku_norm`: the table's rows, least key first. */
  function Ordered(t: map<string, seq<string>>): (out: seq<seq<string>>)
    ensures |out| == |SortedKeys(t.Keys)|
    ensures forall i :: 0 <= i < |out| ==> out[i] == t[SortedKeys(t.Keys)[i]]
  {
    seq(|SortedKeys(t.Keys)|, i requires 0 <= i < |SortedKeys(t.Keys)| => t[SortedKeys(t.Keys)[i]])
  }

  /** The second pass: `for sku_norm, row_text in cur.execute(...): writer.writerow(row)`. */
  method WriteRows(table: DedupeTable) returns (out: seq<seq<string>>)
    ensures out == Ordered(table.rows)
  {
    var keys := SortedKeys(table.rows.Keys);
    out := [];
    for i := 0 to |keys|
      invariant |out| == i && forall j :: 0 <= j < i ==> out[j] == table.rows[keys[j]]
    {
      out := out + [table.rows[keys[i]]];
    }
  }

  /** The surviving rows, least key first: what the de-duplicator writes after the header. */
  function Deduped(rows: seq<seq<string>>, width: nat, idx: nat): seq<seq<string>>
    requires idx < width
  {
    Ordered(Upserts(map[], Entries(rows, width, idx)))
  }

  /**
   * `preprocess_dedupe_csv(input_path, output_path, sku_column_names)`: the `ValueError` when no SKU
   * column is found, or the output file's rows, the header first.
   */
  method PreprocessDedupeCsv(header: seq<string>, rows: seq<seq<string>>, candidates: seq<string>)
    returns (r: Result<seq<seq<string>>, string>)
    ensures r.Err? <==> SkuColumn(header, candidates).None?
    ensures r.Err? ==> r.error == NoSkuColumnMessage(header)
    ensures r.Ok? ==> r.value == [header] + Deduped(rows, |header|, SkuColumn(header, candidates).value)
  {
    var column := FindSkuColumn(header, candidates);
    if column.Err? {
      return Err(column.error);
    }
    var table := new DedupeTable();
    FillTable(table, rows, |header|, column.value);
    var out := WriteRows(table);
    r := Ok([header] + out);
  }

  /** Every row is wide enough to hold the SKU column. */
  predicate Wide(out: seq<seq<string>>, idx: nat) {
    forall i :: 0 <= i < |out| ==> idx < |out[i]|
  }

  /** The key of each row. */
  function KeysOf(out: seq<seq<string>>, idx: nat): (keys: seq<string>)
    requires Wide(out, idx)
    ensures |keys| == |out| && forall i :: 0 <= i < |out| ==> keys[i] == SkuKey(out[i], idx)
  {
    seq(|out|, i requires 0 <= i < |out| => SkuKey(out[i], idx))
  }

  /** `row` is the row of an entry that no later entry with the same key follows. */
  ghost predicate LastRow(es: seq<Entry>, row: seq<string>) {
    exists e :: 0 <= e < |es| && es[e].1 == row && LastWith(es, e)
  }

  /**
   * The output after its header: one row per distinct non-empty key, in strictly increasing key
   * order, each row the last (padded) row of the input with that key, and every key present.
   */
  lemma DedupedRows(rows: seq<seq<string>>, width: nat, idx: nat)
    requires idx < width
    ensures Wide(Deduped(rows, width, idx), idx)
    ensures Ascending(KeysOf(Deduped(rows, width, idx), idx))
    ensures forall i :: 0 <= i < |Deduped(rows, width, idx)| ==> LastRow(Entries(rows, width, idx), Deduped(rows, width, idx)[i])
    ensures forall e :: 0 <= e < |Entries(rows, width, idx)| ==>
      Entries(rows, width, idx)[e].0 in KeysOf(Deduped(rows, width, idx), idx)
  {
    var es := Entries(rows, width, idx);
    var t := Upserts(map[], es);
    UpsertsKeyed(map[], es, idx);
    OrderedKeys(t, idx);
    SortedKeysAscending(t.Keys);
    var keys := SortedKeys(t.Keys);
    forall i | 0 <= i < |keys| ensures LastRow(es, t[keys[i]]) {
      UpsertsLastWins(es, keys[i]);
    }
    forall e | 0 <= e < |es| ensures es[e].0 in keys {
      UpsertsLastWins(es, es[e].0);
    }
  }

  /** The rows of a keyed table, in key order, carry the sorted keys. */
  lemma OrderedKeys(t: map<string, seq<string>>, idx: nat)
    requires Keyed(t, idx)
    ensures Wide(Ordered(t), idx)
    ensures KeysOf(Ordered(t), idx) == SortedKeys(t.Keys)
  {
    var keys := SortedKeys(t.Keys);
    var out := Ordered(t);
    forall i | 0 <= i < |out| ensures idx < |out[i]| && SkuKey(out[i], idx) == keys[i] {
      assert keys[i] in t && out[i] == t[keys[i]];
    }
    assert Wide(out, idx);
    var outKeys := KeysOf(out, idx);
    assert |outKeys| == |keys|;
    assert forall i :: 0 <= i < |out| ==> outKeys[i] == keys[i];
  }

  /** Flushing every 2000 rows or after every row gives the same table: the batch size is not observable. */
  lemma BatchingInvisible(table: map<string, seq<string>>, batches: seq<seq<Entry>>, es: seq<Entry>)
    requires es == Flatten(batches)
    ensures FlushAll(table, batches) == Upserts(table, es)
    decreases |batches|
  {
    if batches != [] {
      var init := batches[..|batches| - 1];
      BatchingInvisible(table, init, Flatten(init));
      UpsertsAppend(table, Flatten(init), batches[|batches| - 1]);
    }
  }

  /** Batches laid end to end. */
  function Flatten(batches: seq<seq<Entry>>): seq<Entry> {
    if batches == [] then [] else Flatten(batches[..|batches| - 1]) + batches[|batches| - 1]
  }

  /** One `executemany` per batch, in order. */
  function FlushAll(table: map<string, seq<string>>, batches: seq<seq<Entry>>): map<string, seq<string>> {
    if batches == [] then table else Upserts(FlushAll(table, batches[..|batches| - 1]), batches[|batches| - 1])
  }
}
