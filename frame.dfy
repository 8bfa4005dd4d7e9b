/**
 * The caller's frame as `check_data_quality` and `extract_2h_interval` see it:
 * both begin with `set_index('timestamp', inplace=True)`, which moves the
 * `timestamp` column into the index of the very object they were handed.
 */
module Frame {
  import opened Wrappers
  import opened Series
  import opened Resampling
  import opened Window
  import opened Loader
  import opened Quality
  import opened Extract

  /** The column names with every occurrence of `name` dropped, the others kept in order. */
  function Without(cols: seq<string>, name: string): (r: seq<string>)
    ensures forall c :: c in r <==> c in cols && c != name
    ensures |r| <= |cols|
    ensures name !in cols ==> r == cols
  {
    if cols == [] then []
    else (if cols[0] == name then [] else [cols[0]]) + Without(cols[1..], name)
  }

  /** A loaded DataFrame: its column names, its rows, and whether the timestamps now form its index. */
  class DataFrame {
    var columns: seq<string>
    var rows: seq<Sample>
    var timeIndexed: bool

    /** Once indexed, the frame no longer has a `timestamp` column. */
    predicate Valid()
      reads this
    {
      timeIndexed ==> "timestamp" !in columns
    }

    constructor (t: Table)
      ensures columns == t.columns && rows == t.rows && !timeIndexed
      ensures Valid()
    {
      columns := t.columns;
      rows := t.rows;
      timeIndexed := false;
    }

    /** The frame's columns and rows as a value. */
    function Value(): Table
      reads this
    {
      Table(columns, rows)
    }

    /**
     * `set_index('timestamp', inplace=True)`.  Without a `timestamp` column it
     * raises KeyError (`ok` false) and leaves the frame as it was; otherwise the
     * column leaves the column list and becomes the index.  Either way the frame
     * has no `timestamp` column afterwards.
     */
    method SetTimestampIndex() returns (ok: bool)
      requires Valid()
      modifies this
      ensures Valid()
      ensures ok <==> "timestamp" in old(columns)
      ensures ok ==> columns == Without(old(columns), "timestamp") && timeIndexed
      ensures !ok ==> unchanged(this)
      ensures rows == old(rows)
      ensures "timestamp" !in columns
    {
      if "timestamp" !in columns {
        return false;
      }
      columns := Without(columns, "timestamp");
      timeIndexed := true;
      return true;
    }
  }

  /**
   * `check_data_quality(data)`.  A missing frame or column gives `False` and
   * leaves the frame alone; otherwise the frame is re-indexed in place and the
   * verdict is the density criterion over its resampled rows.
   */
  method CheckDataQuality(data: DataFrame?) returns (ok: bool)
    requires data != null ==> data.Valid()
    modifies data
    ensures data == null ==> !ok
    ensures data != null ==> data.Valid() && data.rows == old(data.rows)
    ensures data != null ==> ok == DataQuality(Some(old(data.Value())))
    ensures data != null && HasSchema(old(data.Value())) ==>
              data.columns == Without(old(data.columns), "timestamp") && data.timeIndexed
    ensures data != null && !HasSchema(old(data.Value())) ==> unchanged(data)
  {
    if data == null || "timestamp" !in data.columns || "heartrate" !in data.columns {
      return false;
    }
    var _ := data.SetTimestampIndex();
    var resampled := Resample(data.rows);
    ok := Acceptable(resampled);
  }

  /**
   * `extract_2h_interval(data)`.  Without a `timestamp` column `set_index`
   * raises; otherwise the frame is re-indexed in place and the result is the
   * latest 2-hour interval of its resampled rows.
   */
  method Extract2hInterval(data: DataFrame) returns (res: Result<seq<Sample>, Fault>)
    requires data.Valid()
    modifies data
    ensures data.Valid() && data.rows == old(data.rows)
    ensures "timestamp" !in old(data.columns) ==> res == Failure(MissingTimestamp) && unchanged(data)
    ensures "timestamp" in old(data.columns) ==>
              res == LatestInterval(old(data.rows)) &&
              data.columns == Without(old(data.columns), "timestamp") && data.timeIndexed
  {
    var indexed := data.SetTimestampIndex();
    if !indexed {
      return Failure(MissingTimestamp);
    }
    res := LatestInterval(data.rows);
  }

  /**
   * `show_latest_interval(filepath)` without the HTTP layer: load, extract from
   * a fresh frame, then the minimum, maximum and mean of the interval's heart
   * rates.  No quality gate runs first.
   */
  method ShowLatestInterval(path: string, content: FileContent) returns (v: View)
    ensures v == LatestView(path, content)
  {
    var loaded := LoadData(path, content);
    if loaded.None? {
      return FailedToLoad;
    }
    var data := new DataFrame(loaded.value);
    var res := Extract2hInterval(data);
    if res.Failure? {
      return Crashed(res.error);
    }
    var iv := res.value;
    if "heartrate" !in data.columns {
      return Crashed(MissingHeartrate);
    }
    if iv == [] {
      return Crashed(EmptySeries);
    }
    var hrs := HeartRates(iv);
    v := Shown(Summary(iv, Min(hrs), Max(hrs), Mean(hrs)));
  }

  /**
   * The gate spends the frame's `timestamp` column: run on the same frame a
   * second time it always fails, and an extraction after a gate that got past
   * the schema check raises the KeyError of `set_index`.  The frame ends
   * re-indexed exactly when it had a `timestamp` column.
   */
  method GateConsumesTimestamp(t: Table) returns (first: bool, second: bool, res: Result<seq<Sample>, Fault>, indexed: bool)
    ensures first == DataQuality(Some(t))
    ensures !second
    ensures HasSchema(t) ==> res == Failure(MissingTimestamp)
    ensures !HasSchema(t) ==>
              res == (if "timestamp" in t.columns then LatestInterval(t.rows) else Failure(MissingTimestamp))
    ensures indexed <==> "timestamp" in t.columns
  {
    var data := new DataFrame(t);
    first := CheckDataQuality(data);
    second := CheckDataQuality(data);
    res := Extract2hInterval(data);
    indexed := data.timeIndexed;
  }

  /** Sixty readings two minutes apart, then one more reading six and a half hours after the first. */
  function LateReading(): (r: seq<Sample>)
    ensures |r| == 61 && r[60] == Sample(200 * BinWidth, 80.0)
    ensures Increasing(Times(r)) && OnGrid(Times(r))
  {
    var r := SteadyRun(60, 70.0) + [Sample(200 * BinWidth, 80.0)];
    assert Times(r) == Times(SteadyRun(60, 70.0)) + [200 * BinWidth];
    assert forall i :: 0 <= i < 60 ==> Times(r)[i] == i * BinWidth;
    r
  }

  /**
   * Passing the gate says nothing about the interval that is shown: this
   * series passes, yet its latest 2-hour interval is its single last reading.
   */
  lemma GateIgnoresLatestInterval()
    ensures DataQuality(Some(Table(["timestamp", "heartrate"], LateReading())))
    ensures LatestInterval(LateReading()) == Success([Sample(200 * BinWidth, 80.0)])
  {
    var r := LateReading();
    GriddedIsFixed(r);
    assert Times(r)[59] - Times(r)[0] == 59 * BinWidth;
    WindowCountBound(Times(r), 59);
    assert RollingCount(r, 59) >= MinCount;
    var iv := LabelSlice(r, r[60].t - WindowLength, r[60].t);
    WindowSliceShape(r, iv);
    SliceMembers(r, r[60].t - WindowLength, r[60].t);
    assert r[59].t < r[60].t - WindowLength;
    assert iv == r[60..];
  }
}
