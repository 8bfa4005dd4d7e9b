/**
 * `load_data`: dispatch on the path suffix, then turn the decoded file into
 * a frame.  Reading files and JSON/CSV decoding are outside the model: the
 * file arrives as what each reader would have produced from it.
 */
module Loader {
  import opened Wrappers
  import opened Series
  import Upload

  /** A decoded JSON document, as `json.load` returns it. */
  datatype Json =
    | JNull
    | JBool(b: bool)
    | JNum(n: real)
    | JStr(s: string)
    | JArr(items: seq<Json>)
    | JObj(fields: map<string, Json>)

  /**
   * What `pd.read_csv` followed by `pd.to_datetime` on the first column yields:
   * the header as read, and each row's timestamp and heartrate.
   */
  datatype CsvTable = CsvTable(header: seq<string>, rows: seq<Sample>)

  /** The file behind a path, as each reader sees it; `None` where that reader raises. */
  datatype FileContent = FileContent(csv: Option<CsvTable>, json: Option<Json>)

  /** The key under which a JSON record carries its heart-rate pairs. */
  const ValuesKey: string := "heartRateValues"

  /** Python truthiness of a decoded JSON value. */
  predicate Truthy(v: Json)
  {
    match v
    case JNull => false
    case JBool(b) => b
    case JNum(n) => n != 0.0
    case JStr(s) => s != ""
    case JArr(items) => items != []
    case JObj(fields) => |fields| != 0
  }

  /** `entry.get('heartRateValues')`, with Python's `None` as `JNull`. */
  function ValuesOf(fields: map<string, Json>): Json
  {
    if ValuesKey in fields then fields[ValuesKey] else JNull
  }

  /**
   * The record built from one `[epoch_ms, hr]` pair, when both members are numbers.
   * Otherwise `None`: where indexing or conversion raises, and also for the
   * non-numeric pairs pandas would accept (see README, "Left out").
   */
  function PairRecord(value: Json): Option<Sample>
  {
    if value.JArr? && |value.items| >= 2 && value.items[0].JNum? && value.items[1].JNum?
    then Some(Sample(value.items[0].n.Floor, value.items[1].n))
    else None
  }

  /** The records of a list of pairs, in order; `None` once any pair fails. */
  function PairsRecords(pairs: seq<Json>): Option<seq<Sample>>
  {
    if pairs == [] then Some([])
    else
      match PairsRecords(pairs[..|pairs| - 1])
      case None => None
      case Some(rs) =>
        match PairRecord(pairs[|pairs| - 1])
        case None => None
        case Some(x) => Some(rs + [x])
  }

  /** The records one JSON entry contributes; `None` where `.get` or iteration raises. */
  function EntryRecords(entry: Json): Option<seq<Sample>>
  {
    match entry
    case JObj(fields) =>
      var v := ValuesOf(fields);
      if !Truthy(v) then Some([])
      else if v.JArr? then PairsRecords(v.items)
      else None
    case _ => None
  }

  /** The records of a list of entries, entry by entry; `None` once any entry fails. */
  function EntriesRecords(entries: seq<Json>): Option<seq<Sample>>
  {
    if entries == [] then Some([])
    else
      match EntriesRecords(entries[..|entries| - 1])
      case None => None
      case Some(rs) =>
        match EntryRecords(entries[|entries| - 1])
        case None => None
        case Some(xs) => Some(rs + xs)
  }

  /**
   * The records of a whole document.  Iterating an object yields its keys and
   * iterating a string its characters; neither has `.get`, so only the empty
   * ones get through.
   */
  function FlattenJson(doc: Json): Option<seq<Sample>>
  {
    match doc
    case JArr(entries) => EntriesRecords(entries)
    case JObj(fields) => if |fields| == 0 then Some([]) else None
    case JStr(s) => if s == "" then Some([]) else None
    case _ => None
  }

  /** The JSON branch of `load_data`: `pd.DataFrame(records)` has no columns when there are no records. */
  function LoadJson(doc: Option<Json>): Option<Table>
  {
    match doc
    case None => None
    case Some(d) =>
      match FlattenJson(d)
      case None => None
      case Some(rs) => Some(Table(if rs == [] then [] else ["timestamp", "heartrate"], rs))
  }

  /** Every column named `from` renamed to `to`, as `DataFrame.rename(columns=...)` does. */
  function Rename(columns: seq<string>, from: string, to: string): (r: seq<string>)
    ensures |r| == |columns|
  {
    seq(|columns|, i requires 0 <= i < |columns| => if columns[i] == from then to else columns[i])
  }

  /**
   * The CSV branch of `load_data`: the first column is renamed to `timestamp`.
   * When that leaves a second `timestamp` column, `data['timestamp']` is a
   * two-column frame, `pd.to_datetime` raises on it, and the branch yields `None`.
   */
  function LoadCsv(csv: Option<CsvTable>): Option<Table>
  {
    match csv
    case None => None
    case Some(t) =>
      if t.header == [] then None
      else
        var cols := Rename(t.header, t.header[0], "timestamp");
        if "timestamp" in cols[1..] then None
        else Some(Table(cols, t.rows))
  }

  /** `filepath.endswith(suffix)`: case-sensitive. */
  predicate EndsWith(path: string, suffix: string)
  {
    |suffix| <= |path| && path[|path| - |suffix|..] == suffix
  }

  /** `load_data`: `None` for any other suffix and wherever the chosen reader fails. */
  function LoadData(path: string, content: FileContent): Option<Table>
  {
    if EndsWith(path, ".csv") then LoadCsv(content.csv)
    else if EndsWith(path, ".json") then LoadJson(content.json)
    else None
  }

  /** The loop of the JSON branch: entries in order, pairs in order, appending one record per pair. */
  method LoadJsonRecords(doc: Json) returns (records: Option<seq<Sample>>)
    ensures records == FlattenJson(doc)
  {
    var entries: seq<Json>;
    match doc {
      case JArr(es) =>
        entries := es;
      case JObj(fields) =>
        return if |fields| == 0 then Some([]) else None;
      case JStr(s) =>
        return if s == "" then Some([]) else None;
      case _ =>
        return None;
    }
    var acc: seq<Sample> := [];
    var i := 0;
    while i < |entries|
      invariant 0 <= i <= |entries|
      invariant EntriesRecords(entries[..i]) == Some(acc)
    {
      var entry := entries[i];
      assert entries[..i + 1][..i] == entries[..i];
      if !entry.JObj? {
        EntriesFailFrom(entries, i + 1);
        return None;
      }
      var v := ValuesOf(entry.fields);
      if Truthy(v) {
        if !v.JArr? {
          EntriesFailFrom(entries, i + 1);
          return None;
        }
        var pairs := v.items;
        var extended := AppendPairs(acc, pairs);
        if extended.None? {
          EntriesFailFrom(entries, i + 1);
          return None;
        }
        acc := extended.value;
      } else {
        assert EntryRecords(entry) == Some([]);
        assert acc + [] == acc;
      }
      i := i + 1;
    }
    assert entries[..i] == entries;
    records := Some(acc);
  }

  /** The inner loop of the JSON branch: append the record of each pair of one entry, in order. */
  method AppendPairs(acc: seq<Sample>, pairs: seq<Json>) returns (res: Option<seq<Sample>>)
    ensures res == Join(Some(acc), PairsRecords(pairs))
  {
    var out := acc;
    var j := 0;
    while j < |pairs|
      invariant 0 <= j <= |pairs|
      invariant PairsRecords(pairs[..j]).Some? && out == acc + PairsRecords(pairs[..j]).value
    {
      var value := pairs[j];
      assert pairs[..j + 1][..j] == pairs[..j];
      if !(value.JArr? && |value.items| >= 2 && value.items[0].JNum? && value.items[1].JNum?) {
        PairsFailFrom(pairs, j + 1);
        return None;
      }
      out := out + [Sample(value.items[0].n.Floor, value.items[1].n)];
      j := j + 1;
    }
    assert pairs[..j] == pairs;
    res := Some(out);
  }

  /** A failing prefix of pairs makes the whole list fail. */
  lemma {:induction false} PairsFailFrom(pairs: seq<Json>, k: int)
    requires 0 <= k <= |pairs| && PairsRecords(pairs[..k]).None?
    ensures PairsRecords(pairs).None?
    decreases |pairs| - k
  {
    if k < |pairs| {
      assert pairs[..k + 1][..k] == pairs[..k];
      PairsFailFrom(pairs, k + 1);
    } else {
      assert pairs[..k] == pairs;
    }
  }

  /** A failing prefix of entries makes the whole document fail. */
  lemma {:induction false} EntriesFailFrom(entries: seq<Json>, k: int)
    requires 0 <= k <= |entries| && EntriesRecords(entries[..k]).None?
    ensures EntriesRecords(entries).None?
    decreases |entries| - k
  {
    if k < |entries| {
      assert entries[..k + 1][..k] == entries[..k];
      EntriesFailFrom(entries, k + 1);
    } else {
      assert entries[..k] == entries;
    }
  }

  /** Both parts succeed and the results are concatenated, or the whole fails. */
  function Join(a: Option<seq<Sample>>, b: Option<seq<Sample>>): Option<seq<Sample>>
  {
    if a.Some? && b.Some? then Some(a.value + b.value) else None
  }

  /** Flattening two runs of entries flattens each and concatenates, in order. */
  lemma {:induction false} EntriesConcat(a: seq<Json>, b: seq<Json>)
    ensures EntriesRecords(a + b) == Join(EntriesRecords(a), EntriesRecords(b))
    decreases |b|
  {
    if b == [] {
      assert a + b == a;
      if EntriesRecords(a).Some? {
        assert EntriesRecords(a).value + [] == EntriesRecords(a).value;
      }
    } else {
      var b' := b[..|b| - 1];
      assert (a + b)[..|a + b| - 1] == a + b';
      assert (a + b)[|a + b| - 1] == b[|b| - 1];
      EntriesConcat(a, b');
      var last := EntryRecords(b[|b| - 1]);
      if EntriesRecords(a).Some? && EntriesRecords(b').Some? && last.Some? {
        var x, y, z := EntriesRecords(a).value, EntriesRecords(b').value, last.value;
        assert (x + y) + z == x + (y + z);
      }
    }
  }

  /** A record whose `heartRateValues` is absent or falsy contributes nothing. */
  lemma RecordWithoutValues(a: seq<Json>, entry: Json, b: seq<Json>)
    requires entry.JObj? && !Truthy(ValuesOf(entry.fields))
    ensures EntriesRecords(a + [entry] + b) == EntriesRecords(a + b)
  {
    EntriesConcat(a + [entry], b);
    EntriesConcat(a, [entry]);
    EntriesConcat(a, b);
    assert [entry][..0] == [];
    assert EntryRecords(entry) == Some([]);
    assert EntriesRecords([entry]) == Some([] + []);
    if EntriesRecords(a).Some? {
      assert EntriesRecords(a).value + [] == EntriesRecords(a).value;
    }
  }

  /** A list of pairs succeeds exactly when every pair does, and then yields one record per pair, in order. */
  lemma {:induction false} PairsSpec(pairs: seq<Json>)
    ensures PairsRecords(pairs).Some? <==> forall k :: 0 <= k < |pairs| ==> PairRecord(pairs[k]).Some?
    ensures PairsRecords(pairs).Some? ==>
              |PairsRecords(pairs).value| == |pairs| &&
              forall k :: 0 <= k < |pairs| ==> PairRecord(pairs[k]) == Some(PairsRecords(pairs).value[k])
    decreases |pairs|
  {
    if pairs != [] {
      var p := pairs[..|pairs| - 1];
      PairsSpec(p);
      assert forall k :: 0 <= k < |p| ==> p[k] == pairs[k];
    }
  }

  /** Number of pairs an entry lists under a truthy `heartRateValues`. */
  function PairCount(entry: Json): nat
  {
    if entry.JObj? && Truthy(ValuesOf(entry.fields)) && ValuesOf(entry.fields).JArr?
    then |ValuesOf(entry.fields).items|
    else 0
  }

  function TotalPairs(entries: seq<Json>): nat
  {
    if entries == [] then 0
    else TotalPairs(entries[..|entries| - 1]) + PairCount(entries[|entries| - 1])
  }

  /** A document that loads has exactly one record per listed pair. */
  lemma {:induction false} FlattenLength(entries: seq<Json>)
    requires EntriesRecords(entries).Some?
    ensures |EntriesRecords(entries).value| == TotalPairs(entries)
    decreases |entries|
  {
    if entries != [] {
      var e := entries[|entries| - 1];
      FlattenLength(entries[..|entries| - 1]);
      if e.JObj? && Truthy(ValuesOf(e.fields)) && ValuesOf(e.fields).JArr? {
        PairsSpec(ValuesOf(e.fields).items);
      }
    }
  }

  /** A list of entries loads as a frame with one row per listed pair, and with no columns exactly when no pair is listed. */
  lemma JsonFrameShape(entries: seq<Json>)
    requires LoadJson(Some(JArr(entries))).Some?
    ensures |LoadJson(Some(JArr(entries))).value.rows| == TotalPairs(entries)
    ensures LoadJson(Some(JArr(entries))).value.columns == [] <==> TotalPairs(entries) == 0
    ensures TotalPairs(entries) != 0 ==> LoadJson(Some(JArr(entries))).value.columns == ["timestamp", "heartrate"]
  {
    FlattenLength(entries);
  }

  /**
   * A CSV file loads exactly when no column after the first is named
   * `timestamp` or shares the first column's name; the frame then keeps the
   * rows, starts with `timestamp`, and has `heartrate` unless that was the
   * first column.
   */
  lemma CsvColumns(t: CsvTable)
    requires t.header != []
    ensures LoadCsv(Some(t)).Some? <==>
              forall k :: 1 <= k < |t.header| ==> t.header[k] != "timestamp" && t.header[k] != t.header[0]
    ensures LoadCsv(Some(t)).Some? ==>
              LoadCsv(Some(t)).value.rows == t.rows && LoadCsv(Some(t)).value.columns[0] == "timestamp"
    ensures LoadCsv(Some(t)).Some? ==>
              ("heartrate" in LoadCsv(Some(t)).value.columns <==> t.header[0] != "heartrate" && "heartrate" in t.header)
  {
    var cols := Rename(t.header, t.header[0], "timestamp");
    if "timestamp" in cols[1..] {
      var k :| 0 <= k < |cols| - 1 && cols[1..][k] == "timestamp";
      assert cols[k + 1] == "timestamp";
    } else {
      forall k | 1 <= k < |t.header| ensures t.header[k] != "timestamp" && t.header[k] != t.header[0] {
        assert cols[1..][k - 1] == cols[k];
      }
    }
    if forall k :: 1 <= k < |t.header| ==> t.header[k] != "timestamp" && t.header[k] != t.header[0] {
      forall k | 0 <= k < |cols| - 1 ensures cols[1..][k] != "timestamp" {
        assert cols[1..][k] == cols[k + 1];
      }
      assert LoadCsv(Some(t)) == Some(Table(cols, t.rows));
      if "heartrate" in cols {
        var k :| 0 <= k < |cols| && cols[k] == "heartrate";
        assert t.header[k] == "heartrate";
      }
      if t.header[0] != "heartrate" && "heartrate" in t.header {
        var k :| 0 <= k < |t.header| && t.header[k] == "heartrate";
        assert cols[k] == "heartrate";
      }
    }
  }

  /** A name ending in `.ext`, with a dot-free `ext`, is `stem.ext` for the stem before the suffix. */
  lemma SplitSuffix(path: string, ext: string)
    requires '.' !in ext && EndsWith(path, "." + ext)
    ensures path == path[..|path| - |ext| - 1] + "." + ext
  {
    assert path == path[..|path| - |ext| - 1] + path[|path| - |ext| - 1..];
  }

  /** A name ending in `.csv` or `.json` passes the upload filter. */
  lemma EndsWithAllowed(path: string, ext: string)
    requires ext == "csv" || ext == "json"
    requires EndsWith(path, "." + ext)
    ensures Upload.AllowedFile(path)
  {
    SplitSuffix(path, ext);
    Upload.AllowedExtension(path[..|path| - |ext| - 1], ext);
    if ext == "csv" {
      assert Upload.Lower("csv") == "csv";
    } else {
      assert Upload.Lower("json") == "json";
    }
  }

  /** Whatever `load_data` reads was also accepted by the upload filter. */
  lemma LoadedIsAllowed(path: string, content: FileContent)
    requires LoadData(path, content).Some?
    ensures Upload.AllowedFile(path)
  {
    assert EndsWith(path, ".csv") || EndsWith(path, ".json");
    if EndsWith(path, ".csv") {
      assert "." + "csv" == ".csv";
      EndsWithAllowed(path, "csv");
    } else {
      assert "." + "json" == ".json";
      EndsWithAllowed(path, "json");
    }
  }

  /** A path that ends with a suffix ends with its last character. */
  lemma EndsWithLast(path: string, suffix: string)
    requires suffix != [] && EndsWith(path, suffix)
    ensures path[|path| - 1] == suffix[|suffix| - 1]
  {
    assert path[|path| - 1] == path[|path| - |suffix|..][|suffix| - 1];
  }

  /** An upper-case `.CSV` name passes the upload filter, yet `load_data` finds no data in it. */
  lemma UpperCaseCsvNotLoaded(stem: string, content: FileContent)
    ensures Upload.AllowedFile(stem + ".CSV")
    ensures LoadData(stem + ".CSV", content).None?
  {
    var path := stem + ".CSV";
    assert path == stem + "." + "CSV";
    Upload.AllowedExtension(stem, "CSV");
    assert Upload.Lower("CSV") == "csv";
    assert path[|path| - 1] == 'V';
    if EndsWith(path, ".csv") {
      EndsWithLast(path, ".csv");
    }
    if EndsWith(path, ".json") {
      EndsWithLast(path, ".json");
    }
  }

  /** An empty JSON array loads as a frame with no columns and no rows, not as a failure. */
  lemma EmptyJsonLoads(path: string, content: FileContent)
    requires !EndsWith(path, ".csv") && EndsWith(path, ".json")
    requires content.json == Some(JArr([]))
    ensures LoadData(path, content) == Some(Table([], []))
  {
  }
}
