/**
 * `check_data_quality` on a frame as loaded: the schema gate, then the
 * density criterion over the resampled series.
 */
module Quality {
  import opened Wrappers
  import opened Series
  import opened Resampling
  import opened Window
  import opened Loader

  /** Both required columns are present. */
  predicate HasSchema(t: Table)
  {
    "timestamp" in t.columns && "heartrate" in t.columns
  }

  /** The verdict of `check_data_quality`; a missing frame or column fails before any resampling. */
  predicate DataQuality(data: Option<Table>)
  {
    data.Some? && HasSchema(data.value) && Acceptable(Resample(data.value.rows))
  }

  /** A frame passes exactly when it has both columns and 60 consecutive 2-minute bins hold samples. */
  lemma QualityIffDense(t: Table)
    ensures DataQuality(Some(t)) <==> HasSchema(t) && exists n :: DenseEndingAt(t.rows, n)
  {
    AcceptableIffDense(t.rows);
  }

  /** More rows never turn a passing frame into a failing one. */
  lemma QualityMonotone(t: Table, rows: seq<Sample>)
    requires forall x :: x in t.rows ==> x in rows
    requires DataQuality(Some(t))
    ensures DataQuality(Some(Table(t.columns, rows)))
  {
    AcceptableMonotone(t.rows, rows);
  }

  /** Fewer than 60 rows can never pass. */
  lemma FewRowsRejected(t: Table)
    requires |t.rows| < MinCount
    ensures !DataQuality(Some(t))
  {
    ResampleSpec(t.rows);
    SparseNotAcceptable(Resample(t.rows));
  }

  /** An empty JSON array loads, but as a frame without columns, so the gate fails it. */
  lemma EmptyJsonRejected(path: string, content: FileContent)
    requires !EndsWith(path, ".csv") && EndsWith(path, ".json")
    requires content.json == Some(JArr([]))
    ensures LoadData(path, content).Some? && !DataQuality(LoadData(path, content))
  {
    EmptyJsonLoads(path, content);
  }

  /** Three readings two minutes apart, as one JSON record lists them. */
  const ThreePairs: seq<Json> :=
    [JArr([JNum(0.0), JNum(60.0)]), JArr([JNum(120000.0), JNum(65.0)]), JArr([JNum(240000.0), JNum(70.0)])]

  const ThreeRows: seq<Sample> := [Sample(0, 60.0), Sample(120000, 65.0), Sample(240000, 70.0)]

  lemma ThreePairsRecords()
    ensures PairsRecords(ThreePairs) == Some(ThreeRows)
  {
    assert PairRecord(ThreePairs[0]) == Some(ThreeRows[0]);
    assert PairRecord(ThreePairs[1]) == Some(ThreeRows[1]);
    assert PairRecord(ThreePairs[2]) == Some(ThreeRows[2]);
    PairsSpec(ThreePairs);
    assert PairsRecords(ThreePairs).value == ThreeRows;
  }

  /** One record with three pairs loads as a three-row frame with both columns. */
  lemma ThreeReadingsLoad()
    ensures LoadJson(Some(JArr([JObj(map[ValuesKey := JArr(ThreePairs)])]))) ==
            Some(Table(["timestamp", "heartrate"], ThreeRows))
  {
    var entry := JObj(map[ValuesKey := JArr(ThreePairs)]);
    ThreePairsRecords();
    assert ValuesOf(entry.fields) == JArr(ThreePairs);
    assert EntryRecords(entry) == Some(ThreeRows);
    assert [entry][..0] == [];
    assert EntriesRecords([entry]) == Some([] + ThreeRows);
    assert [] + ThreeRows == ThreeRows;
  }

  /** Those three readings resample to three points and fail the gate as too sparse. */
  lemma ThreeReadingsRejected()
    ensures |Resample(ThreeRows)| == 3
    ensures !DataQuality(Some(Table(["timestamp", "heartrate"], ThreeRows)))
  {
    assert Times(ThreeRows) == [0, 120000, 240000];
    GriddedIsFixed(ThreeRows);
    FewRowsRejected(Table(["timestamp", "heartrate"], ThreeRows));
  }

  /** A full 2-hour run: 61 readings 2 minutes apart, constant heart rate. */
  function SteadyRun(n: nat, hr: real): (r: seq<Sample>)
    ensures |r| == n
    ensures Increasing(Times(r)) && OnGrid(Times(r))
  {
    var r := seq(n, i requires 0 <= i < n => Sample(i * BinWidth, hr));
    assert forall i :: 0 <= i < n ==> Times(r)[i] == i * BinWidth;
    r
  }

  /** Sixty-one readings two minutes apart pass the gate. */
  lemma SteadyRunAccepted(hr: real)
    ensures Resample(SteadyRun(61, hr)) == SteadyRun(61, hr)
    ensures DataQuality(Some(Table(["timestamp", "heartrate"], SteadyRun(61, hr))))
  {
    var r := SteadyRun(61, hr);
    GriddedIsFixed(r);
    WindowCountBound(Times(r), 60);
    assert RollingCount(r, 60) >= MinCount;
  }
}
