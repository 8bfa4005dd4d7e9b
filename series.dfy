/**
 * The canonical (timestamp, heartrate) series and the constants of the
 * 2-minute grid and the 2-hour window.  Timestamps are milliseconds since
 * the epoch, heart rates exact reals.
 */
module Series {

  /** Width of one resampling bin (pandas rule '2T'), in milliseconds. */
  const BinWidth: int := 120000

  /** Length of the rolling window (pandas offset '2H'), in milliseconds. */
  const WindowLength: int := 7200000

  /** The density threshold of the quality gate: points in one window. */
  const MinCount: int := 60

  /** One row of the canonical series. */
  datatype Sample = Sample(t: int, hr: real)

  /** A frame as loaded: its column names and its rows. */
  datatype Table = Table(columns: seq<string>, rows: seq<Sample>)

  /** The timestamp column of a series. */
  function Times(s: seq<Sample>): (r: seq<int>)
    ensures |r| == |s|
    ensures forall i :: 0 <= i < |s| ==> r[i] == s[i].t
  {
    seq(|s|, i requires 0 <= i < |s| => s[i].t)
  }

  /** The heart-rate column of a series. */
  function HeartRates(s: seq<Sample>): (r: seq<real>)
    ensures |r| == |s|
    ensures forall i :: 0 <= i < |s| ==> r[i] == s[i].hr
  {
    seq(|s|, i requires 0 <= i < |s| => s[i].hr)
  }

  predicate Increasing(xs: seq<int>)
  {
    forall i, j :: 0 <= i < j < |xs| ==> xs[i] < xs[j]
  }

  predicate OnGrid(xs: seq<int>)
  {
    forall i :: 0 <= i < |xs| ==> xs[i] % BinWidth == 0
  }

  /** The start of the 2-minute bin holding `t` (pandas floors, also before 1970). */
  function BinStart(t: int): (b: int)
    ensures b % BinWidth == 0
    ensures b <= t < b + BinWidth
  {
    t / BinWidth * BinWidth
  }

  /** The bin start is the only grid point at most `t` and within one bin of it. */
  lemma BinStartUnique(t: int, b: int)
    requires b % BinWidth == 0 && b <= t < b + BinWidth
    ensures b == BinStart(t)
  {
    var q := b / BinWidth;
    assert b == q * BinWidth;
    var p := t / BinWidth;
    assert p * BinWidth <= t < p * BinWidth + BinWidth;
  }

  /** Two grid points that differ differ by a whole number of bins. */
  lemma GridGap(a: int, b: int, n: int)
    requires a % BinWidth == 0 && b % BinWidth == 0
    requires a - b > (n - 1) * BinWidth
    ensures a - b >= n * BinWidth
  {
    var qa, qb := a / BinWidth, b / BinWidth;
    assert a == qa * BinWidth;
    assert b == qb * BinWidth;
    assert a - b == (qa - qb) * BinWidth;
  }

  /** On a strictly increasing grid, `j - i` positions apart means at least `j - i` bins apart. */
  lemma {:induction false} GridSpacing(xs: seq<int>, i: int, j: int)
    requires Increasing(xs) && OnGrid(xs)
    requires 0 <= i <= j < |xs|
    ensures xs[j] - xs[i] >= (j - i) * BinWidth
    decreases j - i
  {
    if i < j {
      GridSpacing(xs, i, j - 1);
      GridGap(xs[j], xs[j - 1], 1);
    }
  }

  /** A span of `d` bins fits in the 2-hour window only for `d` at most 60. */
  lemma BinsInWindow(d: int)
    requires d * BinWidth <= WindowLength
    ensures d <= MinCount
  {
  }
}
