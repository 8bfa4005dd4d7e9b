/**
 * `extract_2h_interval` and the statistics `show_latest_interval` reports:
 * the resampled points of the 2 hours ending at the last resampled point.
 */
module Extract {
  import opened Wrappers
  import opened Series
  import opened Resampling
  import opened Window
  import opened Loader

  /** Where the interval view raises instead of rendering. */
  datatype Fault =
    | MissingTimestamp   // KeyError from set_index('timestamp')
    | EmptySeries        // IndexError from tail(1).index[0] on an empty series
    | MissingHeartrate   // KeyError from interval_data['heartrate']

  /** `resampled_data[lo:hi]`: a label slice, both ends included. */
  function LabelSlice(r: seq<Sample>, lo: int, hi: int): seq<Sample>
  {
    if r == [] then []
    else (if lo <= r[0].t <= hi then [r[0]] else []) + LabelSlice(r[1..], lo, hi)
  }

  /**
   * The 2-hour interval ending at the last resampled timestamp.  The rolling
   * mean of the source only carries the index, so its values play no part.
   */
  function LatestInterval(rows: seq<Sample>): Result<seq<Sample>, Fault>
  {
    var r := Resample(rows);
    if r == [] then Failure(EmptySeries)
    else
      var tEnd := r[|r| - 1].t;
      Success(LabelSlice(r, tEnd - WindowLength, tEnd))
  }

  function Sum(xs: seq<real>): real
  {
    if xs == [] then 0.0 else xs[0] + Sum(xs[1..])
  }

  function Min(xs: seq<real>): real
    requires xs != []
  {
    if |xs| == 1 then xs[0]
    else
      var m := Min(xs[1..]);
      if xs[0] <= m then xs[0] else m
  }

  function Max(xs: seq<real>): real
    requires xs != []
  {
    if |xs| == 1 then xs[0]
    else
      var m := Max(xs[1..]);
      if xs[0] >= m then xs[0] else m
  }

  function Mean(xs: seq<real>): real
    requires xs != []
  {
    Sum(xs) / |xs| as real
  }

  /** What the interval page shows: the points and their min, max and mean heart rate. */
  datatype Summary = Summary(interval: seq<Sample>, min: real, max: real, mean: real)

  function Summarize(iv: seq<Sample>): Summary
    requires iv != []
  {
    var hrs := HeartRates(iv);
    Summary(iv, Min(hrs), Max(hrs), Mean(hrs))
  }

  /** The outcome of `show_latest_interval`. */
  datatype View = FailedToLoad | Crashed(fault: Fault) | Shown(summary: Summary)

  /** `show_latest_interval` without the HTTP layer: load, extract, summarise, with no quality gate before. */
  function LatestView(path: string, content: FileContent): View
  {
    match LoadData(path, content)
    case None => FailedToLoad
    case Some(t) =>
      if "timestamp" !in t.columns then Crashed(MissingTimestamp)
      else
        match LatestInterval(t.rows)
        case Failure(e) => Crashed(e)
        case Success(iv) =>
          if "heartrate" !in t.columns then Crashed(MissingHeartrate)
          // a placeholder: LatestIntervalShape shows the interval holds the last point,
          // so this branch is unreachable (pandas would give NaN statistics here)
          else if iv == [] then Crashed(EmptySeries)
          else Shown(Summarize(iv))
  }

  lemma {:induction false} SliceAll(r: seq<Sample>, lo: int, hi: int)
    requires forall j :: 0 <= j < |r| ==> lo <= r[j].t <= hi
    ensures LabelSlice(r, lo, hi) == r
    decreases |r|
  {
    if r != [] {
      SliceAll(r[1..], lo, hi);
    }
  }

  /** On increasing labels ending at or below `hi`, the slice is the suffix from the first label at least `lo`. */
  lemma {:induction false} SliceSuffix(r: seq<Sample>, lo: int, hi: int) returns (k: int)
    requires Increasing(Times(r))
    requires forall j :: 0 <= j < |r| ==> r[j].t <= hi
    ensures 0 <= k <= |r| && LabelSlice(r, lo, hi) == r[k..]
    ensures forall j :: 0 <= j < k ==> r[j].t < lo
    ensures forall j :: k <= j < |r| ==> lo <= r[j].t
    decreases |r|
  {
    if r == [] {
      k := 0;
    } else if lo <= r[0].t {
      forall j | 0 <= j < |r| ensures lo <= r[j].t {
        if j > 0 {
          assert Times(r)[0] < Times(r)[j];
        }
      }
      SliceAll(r, lo, hi);
      k := 0;
    } else {
      assert Times(r[1..]) == Times(r)[1..];
      var k' := SliceSuffix(r[1..], lo, hi);
      k := k' + 1;
      assert LabelSlice(r, lo, hi) == LabelSlice(r[1..], lo, hi);
      assert r[1..][k'..] == r[k..];
      forall j | 0 < j < k ensures r[j].t < lo {
        assert r[1..][j - 1] == r[j];
      }
    }
  }

  /** The interval is missing exactly when there are no rows at all. */
  lemma LatestIntervalDefined(rows: seq<Sample>)
    ensures LatestInterval(rows).Failure? <==> rows == []
    ensures LatestInterval(rows).Failure? ==> LatestInterval(rows).error == EmptySeries
  {
    ResampleSpec(rows);
    if rows != [] {
      var x := rows[0];
      assert Occupied(rows, BinStart(x.t));
      assert BinStart(x.t) in Times(Resample(rows));
    }
  }

  /** The last point of an increasing series carries its greatest timestamp. */
  lemma LastIsGreatest(r: seq<Sample>)
    requires Increasing(Times(r)) && r != []
    ensures forall j :: 0 <= j < |r| ==> r[j].t <= r[|r| - 1].t
  {
    forall j | 0 <= j < |r| - 1 ensures r[j].t <= r[|r| - 1].t {
      assert Times(r)[j] < Times(r)[|r| - 1];
    }
  }

  /** The window slice of an increasing series ending at its last point: a non-empty suffix starting within the window. */
  lemma {:induction false} WindowSliceSuffix(r: seq<Sample>, iv: seq<Sample>)
    requires Increasing(Times(r)) && r != []
    requires iv == LabelSlice(r, r[|r| - 1].t - WindowLength, r[|r| - 1].t)
    ensures 0 < |iv| <= |r| && iv == r[|r| - |iv|..]
    ensures r[|r| - 1].t - WindowLength <= r[|r| - |iv|].t
  {
    var n := |r|;
    LastIsGreatest(r);
    var tEnd := r[n - 1].t;
    var k := SliceSuffix(r, tEnd - WindowLength, tEnd);
    assert k < n;
  }

  /** On an increasing grid, that suffix has at most 61 points. */
  lemma WindowSliceShape(r: seq<Sample>, iv: seq<Sample>)
    requires Increasing(Times(r)) && OnGrid(Times(r)) && r != []
    requires iv == LabelSlice(r, r[|r| - 1].t - WindowLength, r[|r| - 1].t)
    ensures 0 < |iv| <= |r| && iv == r[|r| - |iv|..]
    ensures |iv| <= MinCount + 1
  {
    WindowSliceSuffix(r, iv);
    SuffixWithinWindow(r, |r| - |iv|);
  }

  /** A suffix of a strictly increasing grid series that starts within 2 hours of its end has at most 61 points. */
  lemma SuffixWithinWindow(r: seq<Sample>, k: int)
    requires Increasing(Times(r)) && OnGrid(Times(r)) && 0 <= k < |r|
    requires r[|r| - 1].t - WindowLength <= r[k].t
    ensures |r| - k <= MinCount + 1
  {
    GridSpacing(Times(r), k, |r| - 1);
    BinsInWindow(|r| - 1 - k);
  }

  /** A label slice keeps exactly the points whose labels lie in [lo, hi]. */
  lemma {:induction false} SliceMembers(r: seq<Sample>, lo: int, hi: int)
    ensures forall p :: p in LabelSlice(r, lo, hi) <==> p in r && lo <= p.t <= hi
    decreases |r|
  {
    if r != [] {
      SliceMembers(r[1..], lo, hi);
      assert r == [r[0]] + r[1..];
    }
  }

  /**
   * The interval ends at the greatest resampled timestamp, is a contiguous
   * suffix of the resampled series that contains its last point, holds exactly
   * the resampled points of the 2 hours up to and including that end, and has
   * at most 61 points.
   */
  lemma {:induction false} LatestIntervalShape(rows: seq<Sample>, iv: seq<Sample>)
    requires LatestInterval(rows) == Success(iv)
    ensures Resample(rows) != []
    ensures forall j :: 0 <= j < |Resample(rows)| ==> Resample(rows)[j].t <= Resample(rows)[|Resample(rows)| - 1].t
    ensures 0 < |iv| <= |Resample(rows)| && iv == Resample(rows)[|Resample(rows)| - |iv|..]
    ensures iv[|iv| - 1] == Resample(rows)[|Resample(rows)| - 1]
    ensures forall p :: p in iv <==>
              p in Resample(rows) &&
              Resample(rows)[|Resample(rows)| - 1].t - WindowLength <= p.t <= Resample(rows)[|Resample(rows)| - 1].t
    ensures |iv| <= MinCount + 1
  {
    var r := Resample(rows);
    ResampleOrdered(rows);
    LastIsGreatest(r);
    WindowSliceShape(r, iv);
    SliceMembers(r, r[|r| - 1].t - WindowLength, r[|r| - 1].t);
  }

  lemma {:induction false} MinMaxBounds(xs: seq<real>)
    requires xs != []
    ensures forall i :: 0 <= i < |xs| ==> Min(xs) <= xs[i] <= Max(xs)
    ensures Min(xs) in xs && Max(xs) in xs
    decreases |xs|
  {
    if |xs| > 1 {
      MinMaxBounds(xs[1..]);
      forall i | 0 < i < |xs| ensures Min(xs) <= xs[i] <= Max(xs) {
        assert xs[i] == xs[1..][i - 1];
      }
    }
  }

  lemma {:induction false} SumBounds(xs: seq<real>, lo: real, hi: real)
    requires forall i :: 0 <= i < |xs| ==> lo <= xs[i] <= hi
    ensures |xs| as real * lo <= Sum(xs) <= |xs| as real * hi
    decreases |xs|
  {
    if xs != [] {
      SumBounds(xs[1..], lo, hi);
      assert |xs| as real * lo == (|xs| - 1) as real * lo + lo;
      assert |xs| as real * hi == (|xs| - 1) as real * hi + hi;
    }
  }

  /** A quotient by a positive count lies between bounds its dividend lies between, scaled. */
  lemma QuotientBounds(a: real, n: real, lo: real, hi: real)
    requires n > 0.0 && n * lo <= a <= n * hi
    ensures lo <= a / n <= hi
  {
    var q := a / n;
    assert a == q * n;
  }

  /** Every value lies between the minimum and the maximum, both are attained, and the mean lies between them. */
  lemma StatsBounds(xs: seq<real>)
    requires xs != []
    ensures forall i :: 0 <= i < |xs| ==> Min(xs) <= xs[i] <= Max(xs)
    ensures Min(xs) in xs && Max(xs) in xs
    ensures Min(xs) <= Mean(xs) <= Max(xs)
  {
    MinMaxBounds(xs);
    MeanBetween(xs, Min(xs), Max(xs));
  }

  /** The mean of values that lie between two bounds lies between them too. */
  lemma MeanBetween(xs: seq<real>, lo: real, hi: real)
    requires xs != []
    requires forall i :: 0 <= i < |xs| ==> lo <= xs[i] <= hi
    ensures lo <= Mean(xs) <= hi
  {
    SumBounds(xs, lo, hi);
    QuotientBounds(Sum(xs), |xs| as real, lo, hi);
  }

  /**
   * A shown interval is never empty, and its reported minimum, mean and maximum
   * are ordered, with every shown heart rate between the two bounds.
   */
  lemma ShownSummaryOrdered(path: string, content: FileContent, sm: Summary)
    requires LatestView(path, content) == Shown(sm)
    ensures sm.interval != []
    ensures sm.min <= sm.mean <= sm.max
    ensures forall i :: 0 <= i < |sm.interval| ==> sm.min <= sm.interval[i].hr <= sm.max
    ensures sm.mean == Mean(HeartRates(sm.interval))
    ensures sm.min in HeartRates(sm.interval) && sm.max in HeartRates(sm.interval)
    ensures LoadData(path, content).Some? &&
            LatestInterval(LoadData(path, content).value.rows) == Success(sm.interval)
  {
    StatsBounds(HeartRates(sm.interval));
  }

  /** With every value equal, minimum, maximum and mean are that value. */
  lemma {:induction false} ConstantStats(xs: seq<real>, c: real)
    requires xs != [] && forall i :: 0 <= i < |xs| ==> xs[i] == c
    ensures Min(xs) == c && Max(xs) == c && Mean(xs) == c
  {
    StatsBounds(xs);
    SumBounds(xs, c, c);
    assert Sum(xs) == |xs| as real * c;
  }
}
