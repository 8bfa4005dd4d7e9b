/**
 * The 2-minute resampler: `resample('2T').mean()` followed by `dropna()`.
 * Samples are grouped by the start of their bin; each non-empty bin becomes
 * one point labelled by its start whose value is the mean of its samples.
 */
module Resampling {
  import opened Wrappers
  import opened Series

  /** A bin under construction: its start, and the sum and number of its heart rates. */
  datatype Bin = Bin(start: int, sum: real, count: nat)

  predicate Sorted(bs: seq<Bin>)
  {
    forall i, j :: 0 <= i < j < |bs| ==> bs[i].start < bs[j].start
  }

  function Labels(bs: seq<Bin>): set<int>
  {
    set b | b in bs :: b.start
  }

  /** The bin labelled `start`, if any. */
  function Lookup(bs: seq<Bin>, start: int): Option<Bin>
  {
    if bs == [] then None
    else if bs[0].start == start then Some(bs[0])
    else Lookup(bs[1..], start)
  }

  /** A bin after one more heart rate `hr` has fallen into it. */
  function Merge(prev: Option<Bin>, start: int, hr: real): Bin
  {
    match prev
    case None => Bin(start, hr, 1)
    case Some(b) => Bin(start, b.sum + hr, b.count + 1)
  }

  /** Add one heart rate to the bin `start` of a start-sorted list of bins. */
  function AddSample(bs: seq<Bin>, start: int, hr: real): seq<Bin>
  {
    if bs == [] then [Bin(start, hr, 1)]
    else if bs[0].start == start then [Merge(Some(bs[0]), start, hr)] + bs[1..]
    else if start < bs[0].start then [Bin(start, hr, 1)] + bs
    else [bs[0]] + AddSample(bs[1..], start, hr)
  }

  /** The bins of a raw series, taking its samples in order. */
  function Bins(s: seq<Sample>): seq<Bin>
  {
    if s == [] then []
    else
      var x := s[|s| - 1];
      AddSample(Bins(s[..|s| - 1]), BinStart(x.t), x.hr)
  }

  /** Number of raw samples in the bin that starts at `start`. */
  function CountBin(s: seq<Sample>, start: int): nat
  {
    if s == [] then 0
    else CountBin(s[..|s| - 1], start) + (if BinStart(s[|s| - 1].t) == start then 1 else 0)
  }

  /** Sum of the raw heart rates in the bin that starts at `start`. */
  function SumBin(s: seq<Sample>, start: int): real
  {
    if s == [] then 0.0
    else SumBin(s[..|s| - 1], start) + (if BinStart(s[|s| - 1].t) == start then s[|s| - 1].hr else 0.0)
  }

  /** A bin is non-empty exactly when some raw sample falls into it. */
  predicate Occupied(s: seq<Sample>, start: int)
  {
    exists x :: x in s && BinStart(x.t) == start
  }

  /** The resampled series: one point per non-empty bin, valued at the mean of the bin. */
  function Resample(s: seq<Sample>): seq<Sample>
  {
    var bs := Bins(s);
    BinsSpec(s);
    seq(|bs|, i requires 0 <= i < |bs| => Sample(bs[i].start, bs[i].sum / bs[i].count as real))
  }

  lemma {:induction false} LookupSpec(bs: seq<Bin>, start: int)
    ensures Lookup(bs, start).Some? <==> start in Labels(bs)
    ensures Lookup(bs, start).Some? ==> Lookup(bs, start).value in bs && Lookup(bs, start).value.start == start
    decreases |bs|
  {
    if bs != [] {
      LookupSpec(bs[1..], start);
      assert Labels(bs) == {bs[0].start} + Labels(bs[1..]);
    }
  }

  /** In start-sorted bins, every bin is the one found under its start. */
  lemma {:induction false} LookupSorted(bs: seq<Bin>, i: int)
    requires Sorted(bs) && 0 <= i < |bs|
    ensures Lookup(bs, bs[i].start) == Some(bs[i])
    decreases i
  {
    if i > 0 {
      LookupSorted(bs[1..], i - 1);
    }
  }

  /** Adding a start smaller-than-none appends a fresh bin. */
  lemma {:induction false} AddSampleAppends(bs: seq<Bin>, start: int, hr: real)
    requires forall b :: b in bs ==> b.start < start
    ensures AddSample(bs, start, hr) == bs + [Bin(start, hr, 1)]
    decreases |bs|
  {
    if bs != [] {
      AddSampleAppends(bs[1..], start, hr);
    }
  }

  /** Adding a sample adds its bin start to the labels and at most one bin. */
  lemma {:induction false} AddSampleLabels(bs: seq<Bin>, start: int, hr: real)
    ensures Labels(AddSample(bs, start, hr)) == Labels(bs) + {start}
    ensures |AddSample(bs, start, hr)| <= |bs| + 1
    decreases |bs|
  {
    var r := AddSample(bs, start, hr);
    if bs != [] {
      assert Labels(bs) == {bs[0].start} + Labels(bs[1..]);
      if bs[0].start == start {
        assert r == [Merge(Some(bs[0]), start, hr)] + bs[1..];
        assert Labels(r) == {start} + Labels(bs[1..]);
      } else if start < bs[0].start {
        assert Labels(r) == {start} + Labels(bs);
      } else {
        AddSampleLabels(bs[1..], start, hr);
        var rest := AddSample(bs[1..], start, hr);
        assert r == [bs[0]] + rest;
        assert Labels(r) == {bs[0].start} + Labels(rest);
      }
    }
  }

  /** The tail of sorted bins is sorted, and every label in it is above the head's. */
  lemma SortedTail(bs: seq<Bin>)
    requires Sorted(bs) && bs != []
    ensures Sorted(bs[1..])
    ensures forall x :: x in Labels(bs[1..]) ==> bs[0].start < x
  {
    forall i, j | 0 <= i < j < |bs| - 1 ensures bs[1..][i].start < bs[1..][j].start {
      assert bs[1..][i] == bs[i + 1] && bs[1..][j] == bs[j + 1];
    }
    forall x | x in Labels(bs[1..]) ensures bs[0].start < x {
      var b :| b in bs[1..] && b.start == x;
      var k :| 0 <= k < |bs[1..]| && bs[1..][k] == b;
      assert bs[k + 1] == b;
    }
  }

  /** A bin below every label of sorted bins can go in front of them. */
  lemma SortedCons(b: Bin, rest: seq<Bin>)
    requires Sorted(rest)
    requires forall x :: x in Labels(rest) ==> b.start < x
    ensures Sorted([b] + rest)
  {
    var r := [b] + rest;
    forall i, j | 0 <= i < j < |r| ensures r[i].start < r[j].start {
      assert r[j] == rest[j - 1];
      if i == 0 {
        assert rest[j - 1].start in Labels(rest);
      } else {
        assert r[i] == rest[i - 1];
      }
    }
  }

  /** Adding a sample keeps the bins sorted by label. */
  lemma {:induction false} AddSampleSorted(bs: seq<Bin>, start: int, hr: real)
    requires Sorted(bs)
    ensures Sorted(AddSample(bs, start, hr))
    decreases |bs|
  {
    if bs != [] {
      SortedTail(bs);
      assert Labels(bs) == {bs[0].start} + Labels(bs[1..]);
      if bs[0].start == start {
        SortedCons(Merge(Some(bs[0]), start, hr), bs[1..]);
      } else if start < bs[0].start {
        SortedCons(Bin(start, hr, 1), bs);
      } else {
        AddSampleSorted(bs[1..], start, hr);
        AddSampleLabels(bs[1..], start, hr);
        SortedCons(bs[0], AddSample(bs[1..], start, hr));
      }
    }
  }

  /** Adding a sample to sorted bins changes only the bin of its own bin start. */
  lemma {:induction false} AddSampleLookup(bs: seq<Bin>, start: int, hr: real)
    requires Sorted(bs)
    ensures forall m :: Lookup(AddSample(bs, start, hr), m) ==
                          (if m == start then Some(Merge(Lookup(bs, start), start, hr)) else Lookup(bs, m))
    decreases |bs|
  {
    if bs == [] {
    } else if bs[0].start == start {
      assert AddSample(bs, start, hr)[1..] == bs[1..];
    } else if start < bs[0].start {
      LookupSpec(bs, start);
      assert AddSample(bs, start, hr)[1..] == bs;
    } else {
      AddSampleLookup(bs[1..], start, hr);
      assert AddSample(bs, start, hr)[1..] == AddSample(bs[1..], start, hr);
    }
  }

  /** The bins of a series are sorted, no more than its samples, and each holds the count and sum of its samples. */
  lemma {:induction false} BinsSpec(s: seq<Sample>)
    ensures Sorted(Bins(s))
    ensures |Bins(s)| <= |s|
    ensures forall m :: Lookup(Bins(s), m) ==
                          (if CountBin(s, m) == 0 then None else Some(Bin(m, SumBin(s, m), CountBin(s, m))))
    ensures forall b :: b in Bins(s) ==> b.count > 0
    decreases |s|
  {
    BinsLookup(s);
    forall b | b in Bins(s) ensures b.count > 0 {
      LookupSorted(Bins(s), IndexOf(Bins(s), b));
    }
  }

  /** Proof-splitting helper for BinsSpec: the sortedness and size part. */
  lemma {:induction false} BinsSorted(s: seq<Sample>)
    ensures Sorted(Bins(s))
    ensures |Bins(s)| <= |s|
    decreases |s|
  {
    if s != [] {
      var p := s[..|s| - 1];
      var x := s[|s| - 1];
      BinsSorted(p);
      AddSampleLabels(Bins(p), BinStart(x.t), x.hr);
      AddSampleSorted(Bins(p), BinStart(x.t), x.hr);
    }
  }

  /** An empty bin has sum zero. */
  lemma {:induction false} EmptyBinSum(s: seq<Sample>, m: int)
    requires CountBin(s, m) == 0
    ensures SumBin(s, m) == 0.0
    decreases |s|
  {
    if s != [] {
      EmptyBinSum(s[..|s| - 1], m);
    }
  }

  lemma {:induction false} BinsLookupAt(s: seq<Sample>, m: int)
    ensures Lookup(Bins(s), m) ==
              (if CountBin(s, m) == 0 then None else Some(Bin(m, SumBin(s, m), CountBin(s, m))))
    decreases |s|
  {
    if s != [] {
      var p := s[..|s| - 1];
      var x := s[|s| - 1];
      var l := BinStart(x.t);
      BinsLookupAt(p, m);
      BinsSorted(p);
      AddSampleLookup(Bins(p), l, x.hr);
      if m == l && CountBin(p, m) == 0 {
        EmptyBinSum(p, m);
      }
    }
  }

  /** Proof-splitting helper for BinsSpec: BinsLookupAt for every label at once. */
  lemma BinsLookup(s: seq<Sample>)
    ensures Sorted(Bins(s))
    ensures |Bins(s)| <= |s|
    ensures forall m :: Lookup(Bins(s), m) ==
                          (if CountBin(s, m) == 0 then None else Some(Bin(m, SumBin(s, m), CountBin(s, m))))
  {
    BinsSorted(s);
    forall m
      ensures Lookup(Bins(s), m) ==
                (if CountBin(s, m) == 0 then None else Some(Bin(m, SumBin(s, m), CountBin(s, m))))
    {
      BinsLookupAt(s, m);
    }
  }

  function IndexOf(bs: seq<Bin>, b: Bin): (i: nat)
    requires b in bs
    ensures i < |bs| && bs[i] == b
  {
    if bs[0] == b then 0 else 1 + IndexOf(bs[1..], b)
  }

  /** A bin has samples exactly when some raw sample falls into it. */
  lemma {:induction false} CountBinOccupied(s: seq<Sample>, start: int)
    ensures CountBin(s, start) > 0 <==> Occupied(s, start)
    decreases |s|
  {
    if s != [] {
      var p := s[..|s| - 1];
      CountBinOccupied(p, start);
      assert s == p + [s[|s| - 1]];
      if Occupied(s, start) && !Occupied(p, start) {
        var x :| x in s && BinStart(x.t) == start;
        assert x == s[|s| - 1];
      }
    }
  }

  /**
   * What resampling yields: strictly increasing labels on the 2-minute grid,
   * a start exactly for each non-empty bin, each value the mean of the raw heart
   * rates in its bin, and never more points than raw samples.
   */
  lemma ResampleSpec(s: seq<Sample>)
    ensures Increasing(Times(Resample(s))) && OnGrid(Times(Resample(s)))
    ensures |Resample(s)| <= |s|
    ensures forall m :: m in Times(Resample(s)) <==> Occupied(s, m)
    ensures forall i :: 0 <= i < |Resample(s)| ==>
      CountBin(s, Resample(s)[i].t) > 0 &&
      Resample(s)[i].hr == SumBin(s, Resample(s)[i].t) / CountBin(s, Resample(s)[i].t) as real
  {
    var r := Resample(s);
    var bs := Bins(s);
    BinsSpec(s);
    forall i | 0 <= i < |r|
      ensures CountBin(s, r[i].t) > 0 && r[i].hr == SumBin(s, r[i].t) / CountBin(s, r[i].t) as real
      ensures Occupied(s, r[i].t)
    {
      LookupSorted(bs, i);
      CountBinOccupied(s, r[i].t);
    }
    forall m | Occupied(s, m) ensures m in Times(r) {
      CountBinOccupied(s, m);
      LookupSpec(bs, m);
      var b := Lookup(bs, m).value;
      var i := IndexOf(bs, b);
      assert Times(r)[i] == m;
    }
    forall i | 0 <= i < |r| ensures Times(r)[i] % BinWidth == 0 {
      var x :| x in s && BinStart(x.t) == r[i].t;
    }
  }

  /** Proof-splitting projection of ResampleSpec: the labels strictly increase and lie on the 2-minute grid. */
  lemma ResampleOrdered(s: seq<Sample>)
    ensures Increasing(Times(Resample(s))) && OnGrid(Times(Resample(s)))
  {
    ResampleSpec(s);
  }

  /** Proof-splitting projection of ResampleSpec: the labels are exactly the starts of the non-empty bins. */
  lemma ResampleLabels(s: seq<Sample>)
    ensures forall m :: m in Times(Resample(s)) <==> Occupied(s, m)
  {
    ResampleSpec(s);
  }

  /** The bins of a series that is on the grid and strictly increasing: one singleton bin per sample. */
  lemma {:induction false} GriddedBins(g: seq<Sample>)
    requires Increasing(Times(g)) && OnGrid(Times(g))
    ensures Bins(g) == Singletons(g)
    decreases |g|
  {
    if g != [] {
      var p := g[..|g| - 1];
      var x := g[|g| - 1];
      assert Times(p) == Times(g)[..|g| - 1];
      GriddedBins(p);
      BinStartUnique(x.t, x.t);
      forall b | b in Bins(p) ensures b.start < x.t {
        var i :| 0 <= i < |Bins(p)| && Bins(p)[i] == b;
        assert Times(g)[i] < Times(g)[|g| - 1];
      }
      AddSampleAppends(Bins(p), x.t, x.hr);
      assert Singletons(g) == Singletons(p) + [Bin(x.t, x.hr, 1)];
    }
  }

  function Singletons(g: seq<Sample>): seq<Bin>
  {
    seq(|g|, i requires 0 <= i < |g| => Bin(g[i].t, g[i].hr, 1))
  }

  /** A series already on the grid, strictly increasing, is its own resampling. */
  lemma GriddedIsFixed(g: seq<Sample>)
    requires Increasing(Times(g)) && OnGrid(Times(g))
    ensures Resample(g) == g
  {
    GriddedBins(g);
    var r := Resample(g);
    assert |r| == |g|;
    forall i | 0 <= i < |g| ensures r[i] == g[i] {
      assert Bins(g)[i] == Bin(g[i].t, g[i].hr, 1);
      assert g[i].hr / 1 as real == g[i].hr;
    }
  }

  /** Resampling an already resampled series changes nothing. */
  lemma ResampleIdempotent(s: seq<Sample>)
    ensures Resample(Resample(s)) == Resample(s)
  {
    ResampleSpec(s);
    GriddedIsFixed(Resample(s));
  }

  /** A single raw sample resamples to exactly one point, at its bin start, with its own value. */
  lemma ResampleSingle(x: Sample)
    ensures Resample([x]) == [Sample(BinStart(x.t), x.hr)]
  {
    assert [x][..0] == [];
    assert Bins([x]) == [Bin(BinStart(x.t), x.hr, 1)];
    assert x.hr / 1 as real == x.hr;
  }
}
