/**
 * The density criterion: `rolling('2H').count()` over the resampled series,
 * accepted when some window holds at least 60 points.
 */
module Window {
  import opened Series
  import opened Resampling

  /** Number of values of `xs` in the right-closed range (lo, hi]. */
  function CountIn(xs: seq<int>, lo: int, hi: int): nat
  {
    if xs == [] then 0
    else (if lo < xs[0] <= hi then 1 else 0) + CountIn(xs[1..], lo, hi)
  }

  /**
   * The rolling count at point `i`: resampled points in (t - 2h, t] for its
   * timestamp t.  pandas counts only points up to `i`; on strictly increasing
   * labels no later point lies in that range, so counting over all is the same
   * (RollingCountPrefix).
   */
  function RollingCount(r: seq<Sample>, i: int): nat
    requires 0 <= i < |r|
  {
    CountIn(Times(r), r[i].t - WindowLength, r[i].t)
  }

  /** `any(window_2h['heartrate'] >= 60)`. */
  predicate Acceptable(r: seq<Sample>)
  {
    exists i :: 0 <= i < |r| && RollingCount(r, i) >= MinCount
  }

  /** Bin number `n` (the bin starting at n * 2 min) holds a raw sample. */
  predicate BinOccupied(s: seq<Sample>, n: int)
  {
    Occupied(s, n * BinWidth)
  }

  /** The 60 consecutive bins ending with bin number `n` all hold raw samples. */
  predicate DenseEndingAt(s: seq<Sample>, n: int)
  {
    forall m :: n - MinCount < m <= n ==> BinOccupied(s, m)
  }

  lemma {:induction false} CountConcat(a: seq<int>, b: seq<int>, lo: int, hi: int)
    ensures CountIn(a + b, lo, hi) == CountIn(a, lo, hi) + CountIn(b, lo, hi)
    decreases |a|
  {
    if a == [] {
      assert a + b == b;
    } else {
      assert (a + b)[1..] == a[1..] + b;
      CountConcat(a[1..], b, lo, hi);
    }
  }

  lemma {:induction false} CountAtMostLength(xs: seq<int>, lo: int, hi: int)
    ensures CountIn(xs, lo, hi) <= |xs|
    decreases |xs|
  {
    if xs != [] {
      CountAtMostLength(xs[1..], lo, hi);
    }
  }

  lemma {:induction false} CountNone(xs: seq<int>, lo: int, hi: int)
    requires forall i :: 0 <= i < |xs| ==> xs[i] <= lo || hi < xs[i]
    ensures CountIn(xs, lo, hi) == 0
    decreases |xs|
  {
    if xs != [] {
      CountNone(xs[1..], lo, hi);
    }
  }

  lemma {:induction false} CountAll(xs: seq<int>, lo: int, hi: int)
    requires forall i :: 0 <= i < |xs| ==> lo < xs[i] <= hi
    ensures CountIn(xs, lo, hi) == |xs|
    decreases |xs|
  {
    if xs != [] {
      CountAll(xs[1..], lo, hi);
    }
  }

  /** Distinct values all present in `ys` cannot outnumber those of `ys` in any range. */
  lemma {:induction false} CountSubset(xs: seq<int>, ys: seq<int>, lo: int, hi: int)
    requires forall i, j :: 0 <= i < j < |xs| ==> xs[i] != xs[j]
    requires forall x :: x in xs ==> x in ys
    ensures CountIn(xs, lo, hi) <= CountIn(ys, lo, hi)
    decreases |xs|
  {
    if xs != [] {
      assert xs[0] in xs;
      assert xs[0] in ys;
      var q :| 0 <= q < |ys| && ys[q] == xs[0];
      var rest := ys[..q] + ys[q + 1..];
      assert ys == ys[..q] + ([ys[q]] + ys[q + 1..]);
      CountConcat(ys[..q], [ys[q]] + ys[q + 1..], lo, hi);
      CountConcat(ys[..q], ys[q + 1..], lo, hi);
      forall x | x in xs[1..] ensures x in rest {
        assert x in xs;
        assert x in ys;
        var k :| 0 <= k < |ys| && ys[k] == x;
        if k < q {
          assert rest[k] == x;
        } else {
          assert k != q;
          assert rest[k - 1] == x;
        }
      }
      CountSubset(xs[1..], rest, lo, hi);
    }
  }

  /** Only the positions `a <= j < b` can lie in the range, so only they count. */
  lemma CountWithin(xs: seq<int>, a: int, b: int, lo: int, hi: int)
    requires 0 <= a <= b <= |xs|
    requires forall j :: 0 <= j < a ==> xs[j] <= lo
    requires forall j :: b <= j < |xs| ==> hi < xs[j]
    ensures CountIn(xs, lo, hi) == CountIn(xs[a..b], lo, hi)
  {
    assert xs == xs[..a] + (xs[a..b] + xs[b..]);
    CountConcat(xs[..a], xs[a..b] + xs[b..], lo, hi);
    CountConcat(xs[a..b], xs[b..], lo, hi);
    CountNone(xs[..a], lo, hi);
    CountNone(xs[b..], lo, hi);
  }

  /** On increasing labels the rolling count is the count over the points up to `i`, as pandas takes it. */
  lemma RollingCountPrefix(r: seq<Sample>, i: int)
    requires Increasing(Times(r)) && 0 <= i < |r|
    ensures RollingCount(r, i) == CountIn(Times(r)[..i + 1], r[i].t - WindowLength, r[i].t)
  {
    var xs := Times(r);
    assert xs[i] == r[i].t;
    forall j | i + 1 <= j < |xs| ensures r[i].t < xs[j] {
      assert xs[i] < xs[j];
    }
    CountWithin(xs, 0, i + 1, r[i].t - WindowLength, r[i].t);
    assert xs[0..i + 1] == xs[..i + 1];
  }

  /** On a strictly increasing grid, no point 60 or more positions back lies in the window. */
  lemma WindowStart(xs: seq<int>, i: int) returns (a: int)
    requires Increasing(xs) && OnGrid(xs) && 0 <= i < |xs|
    ensures a == (if i < MinCount - 1 then 0 else i - (MinCount - 1))
    ensures CountIn(xs, xs[i] - WindowLength, xs[i]) == CountIn(xs[a..i + 1], xs[i] - WindowLength, xs[i])
  {
    a := if i < MinCount - 1 then 0 else i - (MinCount - 1);
    forall j | 0 <= j < a ensures xs[j] <= xs[i] - WindowLength {
      GridSpacing(xs, j, i);
    }
    CountWithin(xs, a, i + 1, xs[i] - WindowLength, xs[i]);
  }

  /**
   * On a strictly increasing 2-minute grid the window ending at position `i`
   * holds at most 60 points, and holds 60 exactly when the point 59 positions
   * earlier lies exactly 59 bins earlier.
   */
  lemma WindowCountBound(xs: seq<int>, i: int)
    requires Increasing(xs) && OnGrid(xs) && 0 <= i < |xs|
    ensures CountIn(xs, xs[i] - WindowLength, xs[i]) <= MinCount
    ensures CountIn(xs, xs[i] - WindowLength, xs[i]) >= MinCount <==>
              i >= MinCount - 1 && xs[i] - xs[i - (MinCount - 1)] == (MinCount - 1) * BinWidth
  {
    var lo, hi := xs[i] - WindowLength, xs[i];
    var a := WindowStart(xs, i);
    var run := xs[a..i + 1];
    CountAtMostLength(run, lo, hi);
    if i >= MinCount - 1 {
      GridSpacing(xs, a, i);
      if xs[i] - xs[a] == (MinCount - 1) * BinWidth {
        forall k | 0 <= k < |run| ensures lo < run[k] <= hi {
          assert run[k] == xs[a + k];
        }
        CountAll(run, lo, hi);
      } else {
        GridGap(xs[i], xs[a], MinCount);
        assert run == [xs[a]] + run[1..];
        CountAtMostLength(run[1..], lo, hi);
      }
    }
  }

  /** Points whose ends are exactly as far apart as their positions are consecutive bins. */
  lemma ConsecutiveBins(xs: seq<int>, i: int, j: int)
    requires Increasing(xs) && OnGrid(xs) && 0 <= i <= j < |xs|
    requires xs[j] - xs[i] == (j - i) * BinWidth
    ensures forall k :: i <= k <= j ==> xs[k] == xs[i] + (k - i) * BinWidth
  {
    forall k | i <= k <= j ensures xs[k] == xs[i] + (k - i) * BinWidth {
      GridSpacing(xs, i, k);
      GridSpacing(xs, k, j);
    }
  }

  /** A resampled window never holds more than 60 points. */
  lemma RollingCountAtMost(s: seq<Sample>, i: int)
    requires 0 <= i < |Resample(s)|
    ensures RollingCount(Resample(s), i) <= MinCount
  {
    ResampleSpec(s);
    WindowCountBound(Times(Resample(s)), i);
  }

  /** Fewer than 60 points can never be acceptable. */
  lemma SparseNotAcceptable(r: seq<Sample>)
    requires |r| < MinCount
    ensures !Acceptable(r)
  {
    forall i | 0 <= i < |r| ensures RollingCount(r, i) < MinCount {
      CountAtMostLength(Times(r), r[i].t - WindowLength, r[i].t);
    }
  }

  /** An acceptable resampled series has 60 consecutive 2-minute bins holding raw samples. */
  lemma AcceptableIsDense(s: seq<Sample>) returns (n: int)
    requires Acceptable(Resample(s))
    ensures DenseEndingAt(s, n)
  {
    var r := Resample(s);
    var xs := Times(r);
    ResampleOrdered(s);
    ResampleLabels(s);
    var i :| 0 <= i < |r| && RollingCount(r, i) >= MinCount;
    WindowCountBound(xs, i);
    ConsecutiveBins(xs, i - (MinCount - 1), i);
    n := xs[i] / BinWidth;
    assert xs[i] == n * BinWidth;
    forall m | n - MinCount < m <= n ensures BinOccupied(s, m) {
      var k := i - (n - m);
      assert xs[k] == m * BinWidth;
      assert xs[k] in xs;
    }
  }

  /** 60 consecutive 2-minute bins holding raw samples make the resampled series acceptable. */
  lemma DenseIsAcceptable(s: seq<Sample>, n: int)
    requires DenseEndingAt(s, n)
    ensures Acceptable(Resample(s))
  {
    var r := Resample(s);
    var xs := Times(r);
    ResampleLabels(s);
    var run := seq(MinCount, k requires 0 <= k < MinCount => (n - (MinCount - 1) + k) * BinWidth);
    forall x | x in run ensures x in xs {
      var k :| 0 <= k < MinCount && run[k] == x;
      assert BinOccupied(s, n - (MinCount - 1) + k);
    }
    assert BinOccupied(s, n);
    assert n * BinWidth in xs;
    var q :| 0 <= q < |xs| && xs[q] == n * BinWidth;
    CountAll(run, n * BinWidth - WindowLength, n * BinWidth);
    CountSubset(run, xs, n * BinWidth - WindowLength, n * BinWidth);
    assert RollingCount(r, q) >= MinCount;
  }

  /** The gate is passed exactly when 60 consecutive 2-minute bins hold raw samples. */
  lemma AcceptableIffDense(s: seq<Sample>)
    ensures Acceptable(Resample(s)) <==> exists n :: DenseEndingAt(s, n)
  {
    if Acceptable(Resample(s)) {
      var n := AcceptableIsDense(s);
    }
    if n :| DenseEndingAt(s, n) {
      DenseIsAcceptable(s, n);
    }
  }

  /** Adding raw samples (or reordering them) never makes an acceptable series unacceptable. */
  lemma AcceptableMonotone(s: seq<Sample>, more: seq<Sample>)
    requires forall x :: x in s ==> x in more
    requires Acceptable(Resample(s))
    ensures Acceptable(Resample(more))
  {
    AcceptableIffDense(s);
    AcceptableIffDense(more);
    var n :| DenseEndingAt(s, n);
    forall m | n - MinCount < m <= n ensures BinOccupied(more, m) {
      assert BinOccupied(s, m);
    }
    assert DenseEndingAt(more, n);
  }
}
