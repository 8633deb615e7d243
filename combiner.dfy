/** The combination of the series of one tag set into one (index.js:490-587):
    series without points are spliced out, one cursor per remaining series
    walks its points along the bucket grid, and at each grid time the points
    exactly at that time are aggregated. */
module Combiner {
  import opened Wrappers
  import opened Series
  import opened Sequences
  import opened Filtering
  import opened BucketGrid

  // ---------------------------------------------------------------------------
  // Splicing out the empty series (index.js:500-504)
  // ---------------------------------------------------------------------------

  /** The series holding at least one point, in their order. */
  function NonEmpty(ps: seq<RawSeries>): seq<RawSeries>
  {
    if |ps| == 0 then []
    else (if |ps[0].dps| > 0 then [ps[0]] else []) + NonEmpty(ps[1..])
  }

  lemma {:induction false} NonEmptySelects(ps: seq<RawSeries>)
    ensures IsSubsequence(NonEmpty(ps), ps)
    ensures forall s :: s in NonEmpty(ps) <==> s in ps && |s.dps| > 0
    ensures |NonEmpty(ps)| <= |ps|
  {
    if |ps| > 0 {
      NonEmptySelects(ps[1..]);
      assert ps == [ps[0]] + ps[1..];
      if |ps[0].dps| > 0 {
        assert NonEmpty(ps)[1..] == NonEmpty(ps[1..]);
      } else {
        assert NonEmpty(ps) == NonEmpty(ps[1..]);
      }
    }
  }

  /** index.js:500-504: the backward loop splicing out series without points. */
  method DropEmpty(participatingTimeSeries: SeriesArray)
    modifies participatingTimeSeries
    ensures participatingTimeSeries.elems == NonEmpty(old(participatingTimeSeries.elems))
  {
    ghost var orig := participatingTimeSeries.elems;
    var p := |participatingTimeSeries.elems|;
    while p > 0
      invariant 0 <= p <= |orig|
      invariant participatingTimeSeries.elems == orig[..p] + NonEmpty(orig[p..])
    {
      p := p - 1;
      assert orig[p..][1..] == orig[p + 1..];
      assert orig[..p + 1] == orig[..p] + [orig[p]];
      if |participatingTimeSeries.elems[p].dps| == 0 {
        participatingTimeSeries.Splice(p);
      }
    }
    assert orig[..0] == [] && orig[0..] == orig;
  }

  // ---------------------------------------------------------------------------
  // Cursors (index.js:508-523)
  // ---------------------------------------------------------------------------

  /** The cursor moved on from `from` while the point under it is before `t`. */
  function Advance(dps: seq<Point>, from: nat, t: int): (j: nat)
    requires from <= |dps|
    ensures from <= j <= |dps|
    decreases |dps| - from
  {
    if from < |dps| && dps[from].time < t then Advance(dps, from + 1, t) else from
  }

  /** The cursor stops at the first point at or after `t` from where it
      was, passing only points before `t`. */
  lemma {:induction false} AdvanceStops(dps: seq<Point>, from: nat, t: int)
    requires from <= |dps|
    ensures forall k :: from <= k < Advance(dps, from, t) ==> dps[k].time < t
    ensures Advance(dps, from, t) == |dps| || dps[Advance(dps, from, t)].time >= t
    decreases |dps| - from
  {
    if from < |dps| && dps[from].time < t {
      AdvanceStops(dps, from + 1, t);
    }
  }

  /** The cursor of one series after the grid times `h`; it never passes
      the end of the points. */
  function CursorAfter(dps: seq<Point>, h: seq<int>): (c: nat)
    ensures c <= |dps|
    decreases |h|
  {
    if |h| == 0 then 0 else Advance(dps, CursorAfter(dps, h[..|h| - 1]), h[|h| - 1])
  }

  /** The value a series contributes at `t`: the point under its cursor,
      when that point is exactly at `t`. */
  function Contribution(dps: seq<Point>, c: nat, t: int): Option<real>
  {
    if c < |dps| && dps[c].time == t then Some(dps[c].value) else None
  }

  /** The cursors of all series after the grid times `h`. */
  function Cursors(series: seq<RawSeries>, h: seq<int>): (cs: seq<nat>)
    ensures |cs| == |series|
    ensures forall j :: 0 <= j < |series| ==> cs[j] == CursorAfter(series[j].dps, h)
  {
    seq(|series|, j requires 0 <= j < |series| => CursorAfter(series[j].dps, h))
  }

  /** `points` at `t`: the contributions of the first `n` series under the
      cursors `cs`, in series order. */
  function PointsAt(series: seq<RawSeries>, cs: seq<nat>, t: int, n: nat): (pts: seq<real>)
    requires |cs| == |series| && n <= |series|
    ensures |pts| <= n
    decreases n
  {
    if n == 0 then []
    else
      PointsAt(series, cs, t, n - 1) +
        (match Contribution(series[n - 1].dps, cs[n - 1], t) case Some(v) => [v] case None => [])
  }

  /** The points at the last time of `h`. */
  function Points(series: seq<RawSeries>, h: seq<int>): (pts: seq<real>)
    requires |h| > 0
    ensures |pts| <= |series|
  {
    PointsAt(series, Cursors(series, h), h[|h| - 1], |series|)
  }

  // ---------------------------------------------------------------------------
  // Aggregation (index.js:130-136, 560-577)
  // ---------------------------------------------------------------------------

  function Sum(xs: seq<real>): real
  {
    if |xs| == 0 then 0.0 else Sum(xs[..|xs| - 1]) + xs[|xs| - 1]
  }

  /** index.js:130-136. */
  method SumOf(arr: seq<real>) returns (ret: real)
    ensures ret == Sum(arr)
  {
    ret := 0.0;
    for i := 0 to |arr|
      invariant ret == Sum(arr[..i])
    {
      assert arr[..i + 1][..i] == arr[..i];
      ret := ret + arr[i];
    }
    assert arr[..|arr|] == arr;
  }

  predicate KnownAggregator(agg: string)
  {
    agg == "sum" || agg == "avg" || agg == "min" || agg == "max"
  }

  /** The value of one bucket over `n` participating series. */
  function Aggregate(agg: string, pts: seq<real>, n: nat): Result<real, QueryError>
    requires n > 0
  {
    if agg == "sum" then Ok(Sum(pts))
    else if agg == "avg" then Ok(Sum(pts) / (n as real))
    else if agg == "min" then Ok(Sum(pts))
    else if agg == "max" then Ok(Sum(pts))
    else Err(UnrecognizedAggregator(agg))
  }

  // ---------------------------------------------------------------------------
  // The combined points
  // ---------------------------------------------------------------------------

  /** The combined points after the grid times `h`: one point per time at
      which some series contributes, failing at the first such time when
      the aggregator is not recognised. */
  function Combined(series: seq<RawSeries>, agg: string, h: seq<int>): Result<seq<Point>, QueryError>
    decreases |h|
  {
    if |h| == 0 then Ok([])
    else
      var prev :- Combined(series, agg, h[..|h| - 1]);
      var pts := Points(series, h);
      if |pts| > 0 then
        var v :- Aggregate(agg, pts, |series|);
        Ok(prev + [Point(h[|h| - 1], v)])
      else Ok(prev)
  }

  /** `{t: v, ...}`: later entries overwrite earlier ones. */
  function ToMap(pts: seq<Point>): map<int, real>
  {
    if |pts| == 0 then map[] else ToMap(pts[..|pts| - 1])[pts[|pts| - 1].time := pts[|pts| - 1].value]
  }

  /** Writing one more pair into the object. */
  lemma ToMapSnoc(pts: seq<Point>, x: Point)
    ensures ToMap(pts + [x]) == ToMap(pts)[x.time := x.value]
  {
    assert (pts + [x])[..|pts|] == pts;
  }

  /** `combinedDps`: an array of pairs, or an object keyed by time. */
  function DpsOf(arrays: bool, pts: seq<Point>): Dps
  {
    if arrays then Pairs(pts) else Keyed(ToMap(pts))
  }

  function CombinedDps(series: seq<RawSeries>, agg: string, h: seq<int>, arrays: bool): Result<Dps, QueryError>
  {
    var pts :- Combined(series, agg, h);
    Ok(DpsOf(arrays, pts))
  }

  /** index.js:521-523: one cursor moved past the points before `t`. */
  method AdvanceCursor(dps: seq<Point>, from: nat, t: int) returns (c: nat)
    requires from <= |dps|
    ensures c == Advance(dps, from, t)
  {
    c := from;
    while c < |dps| && dps[c].time < t
      invariant from <= c <= |dps|
      invariant Advance(dps, c, t) == Advance(dps, from, t)
      decreases |dps| - c
    {
      c := c + 1;
    }
  }

  /** index.js:519-558: every cursor advanced to the grid time `t`,
      collecting the points exactly at `t`. */
  method CollectPoints(participatingTimeSeries: seq<RawSeries>, indices: array<nat>, t: int)
    returns (points: seq<real>)
    requires indices.Length == |participatingTimeSeries|
    requires forall j :: 0 <= j < indices.Length ==> indices[j] <= |participatingTimeSeries[j].dps|
    modifies indices
    ensures forall j :: 0 <= j < indices.Length ==>
      indices[j] == Advance(participatingTimeSeries[j].dps, old(indices[j]), t)
    ensures points == PointsAt(participatingTimeSeries, indices[..], t, |participatingTimeSeries|)
  {
    ghost var before := indices[..];
    ghost var after := seq(indices.Length, j requires 0 <= j < indices.Length =>
      Advance(participatingTimeSeries[j].dps, before[j], t));
    points := [];
    for i := 0 to indices.Length
      invariant forall j :: 0 <= j < i ==> indices[j] == after[j]
      invariant forall j :: i <= j < indices.Length ==> indices[j] == before[j]
      invariant points == PointsAt(participatingTimeSeries, after, t, i)
    {
      var dps := participatingTimeSeries[i].dps;
      var c := AdvanceCursor(dps, indices[i], t);
      indices[i] := c;
      if c < |dps| && dps[c].time == t {
        points := points + [dps[c].value];
      }
    }
    assert indices[..] == after;
  }

  /** index.js:563-579. */
  method AggregateBucket(aggregator: string, points: seq<real>, n: nat) returns (r: Result<real, QueryError>)
    requires n > 0
    ensures r == Aggregate(aggregator, points, n)
  {
    var total := SumOf(points);
    if aggregator == "sum" {
      r := Ok(total);
    } else if aggregator == "avg" {
      r := Ok(total / (n as real));
    } else if aggregator == "min" {
      r := Ok(total);
    } else if aggregator == "max" {
      r := Ok(total);
    } else {
      r := Err(UnrecognizedAggregator(aggregator));
    }
  }

  /** index.js:506-587 for the participants left after the splice and a
      positive width. The loop test `t <= end` is `t * den <= endMs` with
      the end in milliseconds. */
  method CombineParticipants(participatingTimeSeries: seq<RawSeries>, aggregator: string,
                             firstTimeStamp: int, w: nat, endMs: int, den: nat, arrays: bool)
    returns (r: Result<Dps, QueryError>)
    requires w > 0 && den > 0
    ensures r == CombinedDps(participatingTimeSeries, aggregator, Grid(firstTimeStamp, w, endMs, den), arrays)
  {
    ghost var g := Grid(firstTimeStamp, w, endMs, den);
    var pairs: seq<Point> := [];
    var keyed: map<int, real> := map[];
    ghost var emitted: seq<Point> := [];
    var indices := new nat[|participatingTimeSeries|];
    for i := 0 to indices.Length
      invariant forall j :: 0 <= j < i ==> indices[j] == 0
    {
      indices[i] := 0;
    }
    ghost var done: seq<int> := [];
    assert indices[..] == Cursors(participatingTimeSeries, done);
    var t := firstTimeStamp;
    ghost var k: nat := 0;
    while t * den <= endMs
      invariant k <= |g| && t == GridTime(firstTimeStamp, w, k) && done == g[..k]
      invariant indices[..] == Cursors(participatingTimeSeries, done)
      invariant Combined(participatingTimeSeries, aggregator, done) == Ok(emitted)
      invariant arrays ==> pairs == emitted
      invariant !arrays ==> keyed == ToMap(emitted)
      decreases |g| - k
    {
      GridAdvance(firstTimeStamp, w, endMs, den, k, done);
      var step := CombineAt(participatingTimeSeries, aggregator, indices, t, done, emitted);
      if step.Err? {
        CombinedErrExtends(participatingTimeSeries, aggregator, g, k + 1);
        return Err(step.error);
      }
      if step.value.Some? {
        var val := step.value.value;
        if arrays {
          pairs := pairs + [Point(t, val)];
        } else {
          keyed := keyed[t := val];
          ToMapSnoc(emitted, Point(t, val));
        }
        emitted := emitted + [Point(t, val)];
      }
      k := k + 1;
      t := t + w;
      done := done + [GridTime(firstTimeStamp, w, k - 1)];
    }
    GridDone(firstTimeStamp, w, endMs, den, k, done);
    r := Ok(if arrays then Pairs(pairs) else Keyed(keyed));
  }

  /** One more turn of the grid loop: the time `GridTime(first, w, k)` passed
      the loop test, so it is the next time of the grid. */
  lemma GridAdvance(first: int, w: nat, endMs: int, den: nat, k: nat, done: seq<int>)
    requires w > 0 && den > 0 && GridTime(first, w, k) * den <= endMs
    requires k <= |Grid(first, w, endMs, den)| && done == Grid(first, w, endMs, den)[..k]
    ensures k < |Grid(first, w, endMs, den)|
    ensures done + [GridTime(first, w, k)] == Grid(first, w, endMs, den)[..k + 1]
    ensures GridTime(first, w, k) + w == GridTime(first, w, k + 1)
  {
    GridCountBound(first, w, endMs, den, k);
    GridTimeNext(first, w, k);
    TakeOneMore(Grid(first, w, endMs, den), k);
  }

  /** The grid loop stops when the time fails the test: every time of the
      grid has been visited. */
  lemma GridDone(first: int, w: nat, endMs: int, den: nat, k: nat, done: seq<int>)
    requires w > 0 && den > 0 && !(GridTime(first, w, k) * den <= endMs)
    requires k <= |Grid(first, w, endMs, den)| && done == Grid(first, w, endMs, den)[..k]
    ensures done == Grid(first, w, endMs, den)
  {
    GridCountBound(first, w, endMs, den, k);
  }

  /** index.js:515-587: the body of the grid loop at the time `t` that
      follows the times `done`: the bucket's value when some series has a
      point at `t`. */
  method CombineAt(participatingTimeSeries: seq<RawSeries>, aggregator: string, indices: array<nat>,
                   t: int, ghost done: seq<int>, ghost prev: seq<Point>)
    returns (r: Result<Option<real>, QueryError>)
    requires indices.Length == |participatingTimeSeries|
    requires indices[..] == Cursors(participatingTimeSeries, done)
    requires Combined(participatingTimeSeries, aggregator, done) == Ok(prev)
    modifies indices
    ensures indices[..] == Cursors(participatingTimeSeries, done + [t])
    ensures r.Err? ==> Combined(participatingTimeSeries, aggregator, done + [t]) == Err(r.error)
    ensures r == Ok(None) ==> Combined(participatingTimeSeries, aggregator, done + [t]) == Ok(prev)
    ensures r.Ok? && r.value.Some? ==>
      Combined(participatingTimeSeries, aggregator, done + [t]) == Ok(prev + [Point(t, r.value.value)])
  {
    ghost var h := done + [t];
    assert h[..|h| - 1] == done;
    ghost var before := indices[..];
    var points := CollectPoints(participatingTimeSeries, indices, t);
    CursorsSnoc(participatingTimeSeries, h, before, indices[..]);
    CombinedSnoc(participatingTimeSeries, aggregator, h, prev);
    if |points| > 0 {
      var val :- AggregateBucket(aggregator, points, |participatingTimeSeries|);
      r := Ok(Some(val));
    } else {
      r := Ok(None);
    }
  }

  /** The cursors after one more grid time are the old ones advanced to it. */
  lemma CursorsSnoc(series: seq<RawSeries>, h: seq<int>, before: seq<nat>, after: seq<nat>)
    requires |h| > 0 && before == Cursors(series, h[..|h| - 1]) && |after| == |series|
    requires forall j :: 0 <= j < |series| ==> after[j] == Advance(series[j].dps, before[j], h[|h| - 1])
    ensures after == Cursors(series, h)
  {
  }

  /** One more grid time: a point is appended when some series contributes. */
  lemma CombinedSnoc(series: seq<RawSeries>, agg: string, h: seq<int>, prev: seq<Point>)
    requires |h| > 0 && Combined(series, agg, h[..|h| - 1]) == Ok(prev)
    ensures |Points(series, h)| == 0 ==> Combined(series, agg, h) == Ok(prev)
    ensures |Points(series, h)| > 0 ==>
      Combined(series, agg, h) ==
        match Aggregate(agg, Points(series, h), |series|)
        case Ok(v) => Ok(prev + [Point(h[|h| - 1], v)])
        case Err(e) => Err(e)
  {
  }

  /** A failure at some prefix of the grid is the failure of the whole grid. */
  lemma {:induction false} CombinedErrExtends(series: seq<RawSeries>, agg: string, h: seq<int>, m: nat)
    requires m <= |h|
    requires Combined(series, agg, h[..m]).Err?
    ensures Combined(series, agg, h) == Combined(series, agg, h[..m])
    decreases |h|
  {
    if m == |h| {
      assert h[..m] == h;
    } else {
      var p := h[..|h| - 1];
      assert p[..m] == h[..m];
      CombinedErrExtends(series, agg, p, m);
    }
  }

  // ---------------------------------------------------------------------------
  // Properties
  // ---------------------------------------------------------------------------

  /** A cursor never moves back: after a longer prefix of the grid it is at
      least where it was, and never past the end of the points. */
  lemma {:induction false} CursorMonotone(dps: seq<Point>, h: seq<int>, m: nat)
    requires m <= |h|
    ensures CursorAfter(dps, h[..m]) <= CursorAfter(dps, h) <= |dps|
    decreases |h|
  {
    if m < |h| {
      var p := h[..|h| - 1];
      assert p[..m] == h[..m];
      CursorMonotone(dps, p, m);
    } else {
      assert h[..m] == h;
    }
  }

  predicate Increasing(h: seq<int>)
  {
    forall i, j :: 0 <= i < j < |h| ==> h[i] < h[j]
  }

  predicate TimesIncreasing(dps: seq<Point>)
  {
    forall i, j :: 0 <= i < j < |dps| ==> dps[i].time < dps[j].time
  }

  /** On an increasing grid, the cursor stands on the first point at or
      after the current grid time: every point it has passed is earlier. */
  lemma {:induction false} CursorOnGrid(dps: seq<Point>, h: seq<int>)
    requires |h| > 0 && Increasing(h)
    ensures forall q :: 0 <= q < CursorAfter(dps, h) ==> dps[q].time < h[|h| - 1]
    ensures CursorAfter(dps, h) == |dps| || dps[CursorAfter(dps, h)].time >= h[|h| - 1]
    decreases |h|
  {
    var p := h[..|h| - 1];
    var t := h[|h| - 1];
    var c0 := CursorAfter(dps, p);
    AdvanceStops(dps, c0, t);
    if |p| > 0 {
      assert Increasing(p);
      CursorOnGrid(dps, p);
      assert p[|p| - 1] == h[|h| - 2] < t;
    }
  }

  /** Position of the first point at `t`, or `|dps|` when there is none. */
  function FirstAt(dps: seq<Point>, t: int): (q: nat)
    ensures q <= |dps|
    ensures q < |dps| ==> dps[q].time == t
    ensures forall p :: 0 <= p < q ==> dps[p].time != t
  {
    if |dps| == 0 then 0
    else if dps[0].time == t then 0
    else 1 + FirstAt(dps[1..], t)
  }

  /** The value of the point at `t`, if the series has one. */
  function PointAt(dps: seq<Point>, t: int): Option<real>
  {
    var q := FirstAt(dps, t);
    if q < |dps| then Some(dps[q].value) else None
  }

  /** For a series with increasing timestamps the cursor delivers, at each
      grid time, exactly the point the series has at that time, if any. */
  lemma ContributionOnSorted(dps: seq<Point>, h: seq<int>)
    requires |h| > 0 && Increasing(h) && TimesIncreasing(dps)
    ensures Contribution(dps, CursorAfter(dps, h), h[|h| - 1]) == PointAt(dps, h[|h| - 1])
  {
    var t := h[|h| - 1];
    var c := CursorAfter(dps, h);
    CursorOnGrid(dps, h);
    var q0 := FirstAt(dps, t);
    if c < |dps| && dps[c].time == t {
      assert q0 == c;
    } else {
      assert forall q :: c <= q < |dps| ==> dps[q].time > t by {
        forall q | c <= q < |dps| ensures dps[q].time > t {
          if q > c {
            assert dps[c].time < dps[q].time;
          }
        }
      }
      assert q0 == |dps|;
    }
  }

  /** Every value collected at a grid time is the value of a point of some
      series exactly at that time. */
  lemma {:induction false} PointsFromSeries(series: seq<RawSeries>, cs: seq<nat>, t: int, n: nat)
    requires |cs| == |series| && n <= |series|
    ensures forall v :: v in PointsAt(series, cs, t, n) ==>
      exists i, q :: 0 <= i < n && 0 <= q < |series[i].dps| && series[i].dps[q] == Point(t, v)
    ensures |PointsAt(series, cs, t, n)| > 0 <==>
      exists i :: 0 <= i < n && Contribution(series[i].dps, cs[i], t).Some?
    decreases n
  {
    if n > 0 {
      PointsFromSeries(series, cs, t, n - 1);
      var dps := series[n - 1].dps;
      match Contribution(dps, cs[n - 1], t)
      case Some(v) =>
        assert dps[cs[n - 1]] == Point(t, v);
      case None =>
    }
  }

  /** `min` and `max` compute the sum of the bucket, exactly as `sum` does. */
  lemma {:induction false} MinMaxAreSum(series: seq<RawSeries>, h: seq<int>)
    ensures Combined(series, "min", h) == Combined(series, "sum", h)
    ensures Combined(series, "max", h) == Combined(series, "sum", h)
    decreases |h|
  {
    if |h| > 0 {
      MinMaxAreSum(series, h[..|h| - 1]);
    }
  }

  /** The values collected at the `k`-th grid time. */
  function Bucket(series: seq<RawSeries>, h: seq<int>, k: nat): seq<real>
    requires k < |h|
  {
    Points(series, h[..k + 1])
  }

  /** A bucket depends only on the grid up to its own time. */
  lemma BucketOfPrefix(series: seq<RawSeries>, h: seq<int>, m: nat, k: nat)
    requires k < m <= |h|
    ensures Bucket(series, h[..m], k) == Bucket(series, h, k)
  {
    assert h[..m][..k + 1] == h[..k + 1];
  }

  /** The combination fails exactly when the aggregator is not one of the
      four and some grid time has a point. */
  lemma {:induction false} CombinedFails(series: seq<RawSeries>, agg: string, h: seq<int>)
    ensures Combined(series, agg, h).Err? <==>
      !KnownAggregator(agg) && exists k :: 0 <= k < |h| && |Bucket(series, h, k)| > 0
    ensures Combined(series, agg, h).Err? ==> Combined(series, agg, h) == Err(UnrecognizedAggregator(agg))
    decreases |h|
  {
    if |h| > 0 {
      var m := |h| - 1;
      var p := h[..m];
      CombinedFails(series, agg, p);
      assert Bucket(series, h, m) == Points(series, h) by {
        assert h[..m + 1] == h;
      }
      forall k | 0 <= k < m ensures Bucket(series, p, k) == Bucket(series, h, k) {
        BucketOfPrefix(series, h, m, k);
      }
    }
  }

  /** Every emitted point stands at a grid time whose bucket is not empty
      and carries the aggregate of that bucket. */
  lemma {:induction false} CombinedEmitsOnlyBuckets(series: seq<RawSeries>, agg: string, h: seq<int>)
    requires Combined(series, agg, h).Ok?
    ensures var pts := Combined(series, agg, h).value;
      forall j :: 0 <= j < |pts| ==> exists k :: (0 <= k < |h| && pts[j].time == h[k] &&
        |Bucket(series, h, k)| > 0 && Aggregate(agg, Bucket(series, h, k), |series|) == Ok(pts[j].value))
    decreases |h|
  {
    if |h| > 0 {
      var m := |h| - 1;
      var p := h[..m];
      CombinedEmitsOnlyBuckets(series, agg, p);
      assert Bucket(series, h, m) == Points(series, h) by {
        assert h[..m + 1] == h;
      }
      forall k | 0 <= k < m ensures Bucket(series, p, k) == Bucket(series, h, k) && p[k] == h[k] {
        BucketOfPrefix(series, h, m, k);
      }
    }
  }

  /** Every grid time whose bucket is not empty has its point. */
  lemma {:induction false} CombinedEmitsEveryBucket(series: seq<RawSeries>, agg: string, h: seq<int>)
    requires Combined(series, agg, h).Ok?
    ensures var pts := Combined(series, agg, h).value;
      forall k :: 0 <= k < |h| && |Bucket(series, h, k)| > 0 ==>
        exists j :: 0 <= j < |pts| && pts[j].time == h[k]
    decreases |h|
  {
    if |h| > 0 {
      var m := |h| - 1;
      var p := h[..m];
      var pts := Combined(series, agg, h).value;
      CombinedEmitsEveryBucket(series, agg, p);
      var prev := Combined(series, agg, p).value;
      assert pts[..|prev|] == prev by {
        assert Bucket(series, h, m) == Points(series, h) by {
          assert h[..m + 1] == h;
        }
      }
      forall k | 0 <= k < |h| && |Bucket(series, h, k)| > 0
        ensures exists j :: 0 <= j < |pts| && pts[j].time == h[k]
      {
        if k < m {
          BucketOfPrefix(series, h, m, k);
          var j :| 0 <= j < |prev| && prev[j].time == p[k];
          assert pts[j] == prev[j];
        } else {
          assert h[..m + 1] == h;
          assert pts[|pts| - 1].time == h[k];
        }
      }
    }
  }

  /** On an increasing grid the emitted timestamps increase. */
  lemma {:induction false} CombinedIncreasing(series: seq<RawSeries>, agg: string, h: seq<int>)
    requires Increasing(h) && Combined(series, agg, h).Ok?
    ensures var pts := Combined(series, agg, h).value;
      TimesIncreasing(pts) && forall j :: 0 <= j < |pts| ==> pts[j].time in h
    decreases |h|
  {
    if |h| > 0 {
      var p := h[..|h| - 1];
      assert Increasing(p);
      CombinedIncreasing(series, agg, p);
      var prev := Combined(series, agg, p).value;
      assert forall j :: 0 <= j < |prev| ==> prev[j].time < h[|h| - 1] by {
        forall j | 0 <= j < |prev| ensures prev[j].time < h[|h| - 1] {
          var k :| 0 <= k < |p| && p[k] == prev[j].time;
          assert h[k] == p[k];
        }
      }
      assert forall x :: x in p ==> x in h;
    }
  }

  /** With increasing timestamps the keyed form holds the same points: one
      key per emitted time, mapped to its value. */
  lemma {:induction false} ToMapOfIncreasing(pts: seq<Point>)
    requires TimesIncreasing(pts)
    ensures forall t :: t in ToMap(pts) <==> exists j :: 0 <= j < |pts| && pts[j].time == t
    ensures forall j :: 0 <= j < |pts| ==> ToMap(pts)[pts[j].time] == pts[j].value
    decreases |pts|
  {
    if |pts| > 0 {
      var p := pts[..|pts| - 1];
      assert TimesIncreasing(p);
      ToMapOfIncreasing(p);
      forall j | 0 <= j < |pts| ensures ToMap(pts)[pts[j].time] == pts[j].value {
        if j < |pts| - 1 {
          assert pts[j] == p[j];
          assert pts[j].time != pts[|pts| - 1].time;
        }
      }
      forall t | t in ToMap(pts) ensures exists j :: 0 <= j < |pts| && pts[j].time == t {
        if t != pts[|pts| - 1].time {
          assert t in ToMap(p);
          var j :| 0 <= j < |p| && p[j].time == t;
          assert pts[j] == p[j];
        }
      }
    }
  }
}
