/** The `process` functions of the expression table (index.js:682-952):
    `absolute` and `scale` rewrite the values of array-form series in place;
    `sumSeries`, `diffSeries` and `multiplySeries` go through
    `unioningFunction`, which groups the series of all metrics by their tags
    and writes one value per key of `allTimes` into the first series of each
    group. */
module SeriesFunctions {
  import opened Wrappers
  import opened Series
  import opened Sequences
  import opened Combiner
  import opened SingleMetricQuery

  // ---------------------------------------------------------------------------
  // absolute and scale (index.js:727-755)
  // ---------------------------------------------------------------------------

  /** `Math.abs`. */
  function Abs(x: real): (r: real)
    ensures r >= 0.0 && (r == x || r == -x)
  {
    if x < 0.0 then -x else x
  }

  /** What is done to each value: `Math.abs(v)` or `v *= extraArg`, the extra
      argument taken as the number it coerces to. */
  datatype ValueMap = AbsoluteValue | ScaleBy(factor: real)

  function MapValue(f: ValueMap, v: real): real
  {
    match f
    case AbsoluteValue => Abs(v)
    case ScaleBy(factor) => v * factor
  }

  /** The points with their values mapped; the times stay as they are. */
  function MapPoints(pts: seq<Point>, f: ValueMap): (r: seq<Point>)
    ensures |r| == |pts|
    ensures forall i :: 0 <= i < |pts| ==> r[i].time == pts[i].time
    ensures f.AbsoluteValue? ==> forall i :: 0 <= i < |pts| ==>
              r[i].value >= 0.0 && (r[i].value == pts[i].value || r[i].value == -pts[i].value)
  {
    seq(|pts|, i requires 0 <= i < |pts| => Point(pts[i].time, MapValue(f, pts[i].value)))
  }

  /** The inner loop of `absolute` and `scale`: `dps[p][1] = ...` for every
      point of one series, in place. */
  method MapInPlace(dps: array<Point>, f: ValueMap)
    modifies dps
    ensures dps[..] == MapPoints(old(dps[..]), f)
  {
    for p := 0 to dps.Length
      invariant forall k :: 0 <= k < p ==> dps[k] == Point(old(dps[k]).time, MapValue(f, old(dps[k]).value))
      invariant forall k :: p <= k < dps.Length ==> dps[k] == old(dps[k])
    {
      dps[p] := Point(dps[p].time, MapValue(f, dps[p].value));
    }
  }

  /** One series after the inner loop: an object-form `dps` has no `length`,
      so the loop does not run and the series is unchanged. */
  function MapSeries(s: CombinedSeries, f: ValueMap): (r: CombinedSeries)
    ensures r.metric == s.metric && r.tags == s.tags && r.aggregatedTags == s.aggregatedTags && r.tsuids == s.tsuids
    ensures r.dps.Pairs? <==> s.dps.Pairs?
    ensures s.dps.Keyed? ==> r == s
  {
    match s.dps
    case Pairs(pts) => s.(dps := Pairs(MapPoints(pts, f)))
    case Keyed(_) => s
  }

  function MapAll(jsons: seq<CombinedSeries>, f: ValueMap): (r: seq<CombinedSeries>)
    ensures |r| == |jsons|
  {
    seq(|jsons|, j requires 0 <= j < |jsons| => MapSeries(jsons[j], f))
  }

  /** The outer loop of `absolute` and `scale` over the series of the first
      metric; each `dps` array is rewritten in place. */
  method MapSeriesValues(jsons: seq<CombinedSeries>, f: ValueMap) returns (r: seq<CombinedSeries>)
    ensures r == MapAll(jsons, f)
  {
    r := [];
    for j := 0 to |jsons|
      invariant |r| == j && forall k :: 0 <= k < j ==> r[k] == MapSeries(jsons[k], f)
    {
      var s := jsons[j];
      if s.dps.Pairs? {
        var pts := s.dps.points;
        var a := new Point[|pts|](i requires 0 <= i < |pts| => pts[i]);
        assert a[..] == pts;
        MapInPlace(a, f);
        s := s.(dps := Pairs(a[..]));
      }
      r := r + [s];
    }
  }

  /** Scaling twice is scaling by the product of the factors. */
  lemma ScaleTwice(pts: seq<Point>, a: real, b: real)
    ensures MapPoints(MapPoints(pts, ScaleBy(a)), ScaleBy(b)) == MapPoints(pts, ScaleBy(a * b))
  {
    var l, r := MapPoints(MapPoints(pts, ScaleBy(a)), ScaleBy(b)), MapPoints(pts, ScaleBy(a * b));
    forall i | 0 <= i < |pts| ensures l[i] == r[i] {
      assert pts[i].value * a * b == pts[i].value * (a * b);
    }
  }

  /** `absolute` applied to its own result changes nothing. */
  lemma AbsoluteIdempotent(pts: seq<Point>)
    ensures MapPoints(MapPoints(pts, AbsoluteValue), AbsoluteValue) == MapPoints(pts, AbsoluteValue)
  {
    var once := MapPoints(pts, AbsoluteValue);
    assert forall i :: 0 <= i < |pts| ==> once[i].value >= 0.0;
  }

  // ---------------------------------------------------------------------------
  // Value providers (index.js:889-941)
  // ---------------------------------------------------------------------------

  /** `timeseries[t].dps.hasOwnProperty(time)` for an object-form `dps`. */
  predicate HasTime(s: CombinedSeries, time: int)
  {
    s.dps.Keyed? && time in s.dps.byTime
  }

  /** What one series adds (or multiplies in) at `time`: its value there, 0
      when it has none. */
  function Addend(s: CombinedSeries, time: int): real
  {
    if HasTime(s, time) then s.dps.byTime[time] else 0.0
  }

  /** The value `sumSeries` provides: the series' values at `time` added up. */
  function SumValues(time: int, ts: seq<CombinedSeries>): real
    decreases |ts|
  {
    if |ts| == 0 then 0.0 else SumValues(time, ts[..|ts| - 1]) + Addend(ts[|ts| - 1], time)
  }

  /** The value `multiplySeries` provides: the product, a missing value
      counting as 0. */
  function ProductValues(time: int, ts: seq<CombinedSeries>): real
    decreases |ts|
  {
    if |ts| == 0 then 1.0 else ProductValues(time, ts[..|ts| - 1]) * Addend(ts[|ts| - 1], time)
  }

  /** The value `diffSeries` provides: the first series minus all others. */
  function DiffValues(time: int, ts: seq<CombinedSeries>): real
    requires |ts| > 0
  {
    Addend(ts[0], time) - SumValues(time, ts[1..])
  }

  /** The `valueProvider` handed to `unioningFunction`. */
  datatype Provider = SumProvider | DiffProvider | MultiplyProvider

  function Provided(p: Provider, time: int, ts: seq<CombinedSeries>): real
    requires |ts| > 0
  {
    match p
    case SumProvider => SumValues(time, ts)
    case DiffProvider => DiffValues(time, ts)
    case MultiplyProvider => ProductValues(time, ts)
  }

  /** index.js:916-922. */
  method SumSeriesValue(time: int, timeseries: seq<CombinedSeries>) returns (value: real)
    ensures value == SumValues(time, timeseries)
  {
    value := 0.0;
    for t := 0 to |timeseries|
      invariant value == SumValues(time, timeseries[..t])
    {
      assert timeseries[..t + 1][..t] == timeseries[..t];
      if HasTime(timeseries[t], time) {
        value := value + timeseries[t].dps.byTime[time];
      }
    }
    assert timeseries[..|timeseries|] == timeseries;
  }

  /** index.js:896-906. */
  method DiffSeriesValue(time: int, timeseries: seq<CombinedSeries>) returns (value: real)
    requires |timeseries| > 0
    ensures value == DiffValues(time, timeseries)
  {
    var first := 0.0;
    if HasTime(timeseries[0], time) {
      first := timeseries[0].dps.byTime[time];
    }
    var sumOthers := 0.0;
    for t := 1 to |timeseries|
      invariant sumOthers == SumValues(time, timeseries[1..t])
    {
      assert timeseries[1..t + 1][..t - 1] == timeseries[1..t];
      if HasTime(timeseries[t], time) {
        sumOthers := sumOthers + timeseries[t].dps.byTime[time];
      }
    }
    assert timeseries[1..|timeseries|] == timeseries[1..];
    value := first - sumOthers;
  }

  /** index.js:932-941. */
  method MultiplySeriesValue(time: int, timeseries: seq<CombinedSeries>) returns (value: real)
    ensures value == ProductValues(time, timeseries)
  {
    value := 1.0;
    for t := 0 to |timeseries|
      invariant value == ProductValues(time, timeseries[..t])
    {
      assert timeseries[..t + 1][..t] == timeseries[..t];
      if HasTime(timeseries[t], time) {
        value := value * timeseries[t].dps.byTime[time];
      } else {
        value := value * 0.0;
      }
    }
    assert timeseries[..|timeseries|] == timeseries;
  }

  method ProvideValue(p: Provider, time: int, timeseries: seq<CombinedSeries>) returns (value: real)
    requires |timeseries| > 0
    ensures value == Provided(p, time, timeseries)
  {
    match p
    case SumProvider => value := SumSeriesValue(time, timeseries);
    case DiffProvider => value := DiffSeriesValue(time, timeseries);
    case MultiplyProvider => value := MultiplySeriesValue(time, timeseries);
  }

  /** The values at `time` of the series that have one, in order. */
  function PresentValues(time: int, ts: seq<CombinedSeries>): (vs: seq<real>)
    ensures |vs| <= |ts|
    decreases |ts|
  {
    if |ts| == 0 then []
    else
      var last := ts[|ts| - 1];
      PresentValues(time, ts[..|ts| - 1]) + if HasTime(last, time) then [last.dps.byTime[time]] else []
  }

  function Product(xs: seq<real>): real
  {
    if |xs| == 0 then 1.0 else Product(xs[..|xs| - 1]) * xs[|xs| - 1]
  }

  /** `sumSeries`: a series without a value at `time` contributes nothing;
      the value is the sum of the values present. */
  lemma {:induction false} SumOfPresent(time: int, ts: seq<CombinedSeries>)
    ensures SumValues(time, ts) == Sum(PresentValues(time, ts))
    decreases |ts|
  {
    if |ts| > 0 {
      var p := ts[..|ts| - 1];
      var last := ts[|ts| - 1];
      SumOfPresent(time, p);
      var vs := PresentValues(time, p);
      if HasTime(last, time) {
        assert PresentValues(time, ts) == vs + [last.dps.byTime[time]];
        assert (vs + [last.dps.byTime[time]])[..|vs|] == vs;
      } else {
        assert PresentValues(time, ts) == vs;
      }
    }
  }

  /** `multiplySeries`: one series without a value at `time` makes the
      product 0. */
  lemma {:induction false} ProductOfMissing(time: int, ts: seq<CombinedSeries>, k: nat)
    requires k < |ts| && !HasTime(ts[k], time)
    ensures ProductValues(time, ts) == 0.0
    decreases |ts|
  {
    if k < |ts| - 1 {
      var p := ts[..|ts| - 1];
      assert p[k] == ts[k];
      ProductOfMissing(time, p, k);
    }
  }

  /** `multiplySeries`: when every series has a value at `time`, the product
      of those values. */
  lemma ProductOfPresent(time: int, ts: seq<CombinedSeries>)
    requires forall k :: 0 <= k < |ts| ==> HasTime(ts[k], time)
    ensures ProductValues(time, ts) == Product(PresentValues(time, ts))
  {
    ProductOfAddends(time, ts);
    PresentAreAddends(time, ts);
  }

  /** Every series' addend at `time`, in order. */
  function Addends(time: int, ts: seq<CombinedSeries>): (r: seq<real>)
    ensures |r| == |ts|
    decreases |ts|
  {
    if |ts| == 0 then [] else Addends(time, ts[..|ts| - 1]) + [Addend(ts[|ts| - 1], time)]
  }

  /** The running product is the product of the addends. */
  lemma {:induction false} ProductOfAddends(time: int, ts: seq<CombinedSeries>)
    ensures ProductValues(time, ts) == Product(Addends(time, ts))
    decreases |ts|
  {
    if |ts| > 0 {
      ProductOfAddends(time, ts[..|ts| - 1]);
      AddendsInit(time, ts);
    }
  }

  /** Dropping the last series drops the last addend. */
  lemma AddendsInit(time: int, ts: seq<CombinedSeries>)
    requires |ts| > 0
    ensures var w := Addends(time, ts);
      w[..|w| - 1] == Addends(time, ts[..|ts| - 1]) && w[|w| - 1] == Addend(ts[|ts| - 1], time)
  {
  }

  /** With every series present, the values present are all the addends. */
  lemma {:induction false} PresentAreAddends(time: int, ts: seq<CombinedSeries>)
    requires forall k :: 0 <= k < |ts| ==> HasTime(ts[k], time)
    ensures PresentValues(time, ts) == Addends(time, ts)
    decreases |ts|
  {
    if |ts| > 0 {
      var p := ts[..|ts| - 1];
      assert forall k :: 0 <= k < |p| ==> p[k] == ts[k];
      PresentAreAddends(time, p);
      assert HasTime(ts[|ts| - 1], time);
    }
  }

  /** Summing the first series and then the others is summing them all. */
  lemma {:induction false} SumOfHead(time: int, ts: seq<CombinedSeries>)
    requires |ts| > 0
    ensures SumValues(time, ts) == Addend(ts[0], time) + SumValues(time, ts[1..])
    decreases |ts|
  {
    if |ts| > 1 {
      var p := ts[..|ts| - 1];
      SumOfHead(time, p);
      assert p[1..] == ts[1..][..|ts| - 2];
      assert ts[1..][|ts| - 2] == ts[|ts| - 1];
    } else {
      assert ts[1..] == [];
      assert ts[..0] == [];
    }
  }

  /** `diffSeries` against `sumSeries`: the first value minus the others is
      twice the first value minus the sum of all. */
  lemma DiffAgainstSum(time: int, ts: seq<CombinedSeries>)
    requires |ts| > 0
    ensures DiffValues(time, ts) == 2.0 * Addend(ts[0], time) - SumValues(time, ts)
  {
    SumOfHead(time, ts);
  }

  /** At a time no series has, every provider gives 0. */
  lemma {:induction false} ProvidedWhereNothing(p: Provider, time: int, ts: seq<CombinedSeries>)
    requires |ts| > 0 && forall k :: 0 <= k < |ts| ==> !HasTime(ts[k], time)
    ensures Provided(p, time, ts) == 0.0
  {
    ProductOfMissing(time, ts, 0);
    NothingSums(time, ts);
    NothingSums(time, ts[1..]);
  }

  lemma {:induction false} NothingSums(time: int, ts: seq<CombinedSeries>)
    requires forall k :: 0 <= k < |ts| ==> !HasTime(ts[k], time)
    ensures SumValues(time, ts) == 0.0
    decreases |ts|
  {
    if |ts| > 0 {
      var p := ts[..|ts| - 1];
      assert forall k :: 0 <= k < |p| ==> p[k] == ts[k];
      NothingSums(time, p);
    }
  }

  /** Two lists of series with the same values at `time` get the same value
      from every provider. */
  predicate AgreeAt(a: seq<CombinedSeries>, b: seq<CombinedSeries>, time: int)
  {
    |a| == |b| && forall k :: 0 <= k < |a| ==> Addend(a[k], time) == Addend(b[k], time)
  }

  lemma {:induction false} SumsAgree(a: seq<CombinedSeries>, b: seq<CombinedSeries>, time: int)
    requires AgreeAt(a, b, time)
    ensures SumValues(time, a) == SumValues(time, b) && ProductValues(time, a) == ProductValues(time, b)
    decreases |a|
  {
    if |a| > 0 {
      var pa, pb := a[..|a| - 1], b[..|b| - 1];
      assert forall k :: 0 <= k < |pa| ==> pa[k] == a[k] && pb[k] == b[k];
      SumsAgree(pa, pb, time);
    }
  }

  lemma ProvidedAgree(p: Provider, a: seq<CombinedSeries>, b: seq<CombinedSeries>, time: int)
    requires |a| > 0 && AgreeAt(a, b, time)
    ensures Provided(p, time, a) == Provided(p, time, b)
  {
    SumsAgree(a, b, time);
    assert forall k :: 0 <= k < |a| - 1 ==> a[1..][k] == a[k + 1] && b[1..][k] == b[k + 1];
    SumsAgree(a[1..], b[1..], time);
  }

  // ---------------------------------------------------------------------------
  // unioningFunction (index.js:682-725)
  // ---------------------------------------------------------------------------

  /** The series of all metrics, metric after metric. */
  function Flatten(jsons: seq<seq<CombinedSeries>>): (xs: seq<CombinedSeries>)
    ensures forall x :: x in xs <==> exists j :: 0 <= j < |jsons| && x in jsons[j]
    decreases |jsons|
  {
    if |jsons| == 0 then [] else Flatten(jsons[..|jsons| - 1]) + jsons[|jsons| - 1]
  }

  /** One more metric's series come after those of the others. */
  lemma FlattenSnoc(jsons: seq<seq<CombinedSeries>>, series: seq<CombinedSeries>)
    ensures Flatten(jsons + [series]) == Flatten(jsons) + series
  {
    assert (jsons + [series])[..|jsons|] == jsons;
  }

  /** The series whose tags are `tags`, in order: the array
      `seriesByTagSet[JSON.stringify(tags)]` ends up holding. */
  function WithTags(xs: seq<CombinedSeries>, tags: Tags): (r: seq<CombinedSeries>)
    ensures forall x :: x in r <==> x in xs && x.tags == tags
    decreases |xs|
  {
    if |xs| == 0 then []
    else WithTags(xs[..|xs| - 1], tags) + if xs[|xs| - 1].tags == tags then [xs[|xs| - 1]] else []
  }

  predicate AllKeyed(xs: seq<CombinedSeries>)
  {
    forall k :: 0 <= k < |xs| ==> xs[k].dps.Keyed?
  }

  /** A series has a key in its `dps`. */
  predicate HasPoints(s: CombinedSeries)
  {
    match s.dps
    case Pairs(pts) => |pts| > 0
    case Keyed(m) => |m| > 0
  }

  /** The keys of `allTimes`, in iteration order: the positions in the group
      of the series that have points (index.js:707-713). */
  function NonEmptyIndices(input: seq<CombinedSeries>): (r: seq<int>)
    decreases |input|
  {
    if |input| == 0 then []
    else NonEmptyIndices(input[..|input| - 1]) + if HasPoints(input[|input| - 1]) then [|input| - 1] else []
  }

  /** `series.dps[time] = valueProvider(time, input)` for each key `time`
      of `ts`, in order. */
  function Writes(input: seq<CombinedSeries>, p: Provider, ts: seq<int>): map<int, real>
    requires |input| > 0
    decreases |ts|
  {
    if |ts| == 0 then map[]
    else Writes(input, p, ts[..|ts| - 1])[ts[|ts| - 1] := Provided(p, ts[|ts| - 1], input)]
  }

  /** The writes hold one entry per key, the value provided for it. */
  lemma {:induction false} WritesAt(input: seq<CombinedSeries>, p: Provider, ts: seq<int>)
    requires |input| > 0
    ensures forall t :: t in Writes(input, p, ts) <==> t in ts
    ensures forall t :: t in Writes(input, p, ts) ==> Writes(input, p, ts)[t] == Provided(p, t, input)
    decreases |ts|
  {
    if |ts| > 0 {
      var q := ts[..|ts| - 1];
      WritesAt(input, p, q);
      assert forall t :: t in ts <==> t in q || t == ts[|ts| - 1];
    }
  }

  /** The `dps` of the group's first series after the writes: its own points,
      and the provided value at every key of `allTimes`. */
  function UnionedDps(input: seq<CombinedSeries>, p: Provider): map<int, real>
    requires |input| > 0 && input[0].dps.Keyed?
  {
    input[0].dps.byTime + Writes(input, p, NonEmptyIndices(input))
  }

  /** `series = input[0]` with the writes: what a group contributes to the
      result. */
  function UnionedSeries(input: seq<CombinedSeries>, p: Provider): CombinedSeries
    requires |input| > 0 && input[0].dps.Keyed?
  {
    input[0].(dps := Keyed(UnionedDps(input, p)))
  }

  /** What `unioningFunction(jsons, valueProvider)` returns: one series per
      distinct tags value, in order of first occurrence. */
  function Unioned(jsons: seq<seq<CombinedSeries>>, p: Provider): (ret: seq<CombinedSeries>)
    requires AllKeyed(Flatten(jsons))
    ensures |ret| == |Dedup(TagsOf(Flatten(jsons)))|
  {
    var xs := Flatten(jsons);
    var keys := Dedup(TagsOf(xs));
    DedupProperties(TagsOf(xs));
    seq(|keys|, k requires 0 <= k < |keys| =>
      GroupFacts(xs, keys[k]);
      UnionedSeries(WithTags(xs, keys[k]), p))
  }

  /** The `k`-th result is the union of the `k`-th group. */
  lemma UnionedAt(jsons: seq<seq<CombinedSeries>>, p: Provider, k: nat)
    requires AllKeyed(Flatten(jsons)) && k < |Dedup(TagsOf(Flatten(jsons)))|
    ensures var xs := Flatten(jsons); var tags := Dedup(TagsOf(xs))[k];
      tags in TagsOf(xs) && |WithTags(xs, tags)| > 0 && WithTags(xs, tags)[0].dps.Keyed? &&
      Unioned(jsons, p)[k] == UnionedSeries(WithTags(xs, tags), p)
  {
    var xs := Flatten(jsons);
    DedupProperties(TagsOf(xs));
    GroupFacts(xs, Dedup(TagsOf(xs))[k]);
  }

  /** A tags value that occurs has a group, and its series are object-form. */
  lemma GroupFacts(xs: seq<CombinedSeries>, tags: Tags)
    requires AllKeyed(xs) && tags in TagsOf(xs)
    ensures |WithTags(xs, tags)| > 0 && WithTags(xs, tags)[0].dps.Keyed?
  {
    var k := TagsOfEntry(xs, tags);
    assert xs[k] in WithTags(xs, tags);
    assert WithTags(xs, tags)[0] in xs;
  }

  lemma {:induction false} TagsOfEntries(xs: seq<CombinedSeries>)
    ensures forall k :: 0 <= k < |xs| ==> TagsOf(xs)[k] == xs[k].tags
    decreases |xs|
  {
    if |xs| > 0 {
      TagsOfEntries(xs[..|xs| - 1]);
    }
  }

  lemma TagsOfEntry(xs: seq<CombinedSeries>, tags: Tags) returns (k: nat)
    requires tags in TagsOf(xs)
    ensures k < |xs| && xs[k].tags == tags
  {
    TagsOfEntries(xs);
    k :| 0 <= k < |xs| && TagsOf(xs)[k] == tags;
  }

  lemma WithTagsSnoc(xs: seq<CombinedSeries>, x: CombinedSeries, tags: Tags)
    ensures WithTags(xs + [x], tags) == WithTags(xs, tags) + if x.tags == tags then [x] else []
  {
    assert (xs + [x])[..|xs|] == xs;
  }

  lemma {:induction false} WithTagsAbsent(xs: seq<CombinedSeries>, tags: Tags)
    requires tags !in TagsOf(xs)
    ensures WithTags(xs, tags) == []
    decreases |xs|
  {
    if |xs| > 0 {
      var q := xs[..|xs| - 1];
      assert TagsOf(xs) == TagsOf(q) + [xs[|xs| - 1].tags];
      WithTagsAbsent(q, tags);
    }
  }

  lemma DedupSnoc<T>(s: seq<T>, x: T)
    ensures Dedup(s + [x]) == if x in Dedup(s) then Dedup(s) else Dedup(s) + [x]
  {
    assert (s + [x])[..|s|] == s;
  }

  /** `seriesByTagSet` with its keys in insertion order, after the series
      `xs` have been pushed. */
  ghost predicate Grouping(xs: seq<CombinedSeries>, keys: seq<Tags>, seriesByTagSet: map<Tags, seq<CombinedSeries>>)
  {
    && keys == Dedup(TagsOf(xs))
    && (forall tags :: tags in seriesByTagSet <==> tags in keys)
    && (forall tags :: tags in seriesByTagSet ==> seriesByTagSet[tags] == WithTags(xs, tags))
  }

  /** Pushing one more series: a new tag set is appended to the keys and
      starts an empty group, then the series joins its group. */
  lemma GroupingSnoc(xs: seq<CombinedSeries>, keys: seq<Tags>, seriesByTagSet: map<Tags, seq<CombinedSeries>>,
                     x: CombinedSeries, keys': seq<Tags>, seriesByTagSet': map<Tags, seq<CombinedSeries>>)
    requires Grouping(xs, keys, seriesByTagSet)
    requires keys' == if x.tags in seriesByTagSet then keys else keys + [x.tags]
    requires forall tags :: tags in seriesByTagSet' <==> tags in seriesByTagSet || tags == x.tags
    requires forall tags :: tags in seriesByTagSet' ==>
      seriesByTagSet'[tags] == (if tags != x.tags then seriesByTagSet[tags]
                                else if x.tags in seriesByTagSet then seriesByTagSet[tags] + [x] else [x])
    ensures Grouping(xs + [x], keys', seriesByTagSet')
  {
    TagsOfSnoc(xs, x);
    DedupSnoc(TagsOf(xs), x.tags);
    InDedup(TagsOf(xs), x.tags);
    assert keys' == Dedup(TagsOf(xs + [x]));
    assert forall tags :: tags in seriesByTagSet' <==> tags in keys';
    GroupValuesSnoc(xs, seriesByTagSet, x, seriesByTagSet');
  }

  /** The two ways index.js:693-697 pushes a series, each keeping the
      grouping: onto an existing group, or onto a group created for it. */
  lemma GroupingPush(xs: seq<CombinedSeries>, keys: seq<Tags>, seriesByTagSet: map<Tags, seq<CombinedSeries>>,
                     x: CombinedSeries, pushed: seq<CombinedSeries>)
    requires Grouping(xs, keys, seriesByTagSet) && pushed == xs + [x]
    ensures x.tags in seriesByTagSet ==>
      Grouping(pushed, keys, seriesByTagSet[x.tags := seriesByTagSet[x.tags] + [x]])
    ensures x.tags !in seriesByTagSet ==>
      var created := seriesByTagSet[x.tags := []];
      Grouping(pushed, keys + [x.tags], created[x.tags := created[x.tags] + [x]])
  {
    if x.tags in seriesByTagSet {
      GroupingSnoc(xs, keys, seriesByTagSet, x, keys, seriesByTagSet[x.tags := seriesByTagSet[x.tags] + [x]]);
    } else {
      var created := seriesByTagSet[x.tags := []];
      GroupingSnoc(xs, keys, seriesByTagSet, x, keys + [x.tags], created[x.tags := created[x.tags] + [x]]);
    }
  }

  /** Membership in `Dedup(s)` is membership in `s`. */
  lemma InDedup<T>(s: seq<T>, x: T)
    ensures x in Dedup(s) <==> x in s
  {
    DedupProperties(s);
  }

  /** The groups after one push are the series with each tags value. */
  lemma GroupValuesSnoc(xs: seq<CombinedSeries>, seriesByTagSet: map<Tags, seq<CombinedSeries>>,
                        x: CombinedSeries, seriesByTagSet': map<Tags, seq<CombinedSeries>>)
    requires forall tags :: tags in seriesByTagSet ==> seriesByTagSet[tags] == WithTags(xs, tags)
    requires x.tags !in seriesByTagSet ==> x.tags !in TagsOf(xs)
    requires forall tags :: tags in seriesByTagSet' <==> tags in seriesByTagSet || tags == x.tags
    requires forall tags :: tags in seriesByTagSet' ==>
      seriesByTagSet'[tags] == (if tags != x.tags then seriesByTagSet[tags]
                                else if x.tags in seriesByTagSet then seriesByTagSet[tags] + [x] else [x])
    ensures forall tags :: tags in seriesByTagSet' ==> seriesByTagSet'[tags] == WithTags(xs + [x], tags)
  {
    if x.tags !in seriesByTagSet {
      WithTagsAbsent(xs, x.tags);
    }
    forall tags | tags in seriesByTagSet' ensures seriesByTagSet'[tags] == WithTags(xs + [x], tags) {
      WithTagsSnoc(xs, x, tags);
    }
  }

  /** index.js:693-697: one series pushed onto the array of its tags,
      created empty when the tags are new. */
  method PushOne(keys: seq<Tags>, seriesByTagSet: map<Tags, seq<CombinedSeries>>, ghost xs: seq<CombinedSeries>,
                 x: CombinedSeries, ghost pushed: seq<CombinedSeries>)
    returns (keys': seq<Tags>, seriesByTagSet': map<Tags, seq<CombinedSeries>>)
    requires Grouping(xs, keys, seriesByTagSet) && pushed == xs + [x]
    ensures Grouping(pushed, keys', seriesByTagSet')
  {
    GroupingPush(xs, keys, seriesByTagSet, x, pushed);
    keys', seriesByTagSet' := keys, seriesByTagSet;
    if x.tags !in seriesByTagSet' {
      keys' := keys' + [x.tags];
      seriesByTagSet' := seriesByTagSet'[x.tags := []];
    }
    seriesByTagSet' := seriesByTagSet'[x.tags := seriesByTagSet'[x.tags] + [x]];
  }

  /** The inner loop of index.js:691-699 over the series of one metric. */
  method PushSeries(keys: seq<Tags>, seriesByTagSet: map<Tags, seq<CombinedSeries>>, ghost xs: seq<CombinedSeries>,
                    series: seq<CombinedSeries>)
    returns (keys': seq<Tags>, seriesByTagSet': map<Tags, seq<CombinedSeries>>)
    requires Grouping(xs, keys, seriesByTagSet)
    ensures Grouping(xs + series, keys', seriesByTagSet')
  {
    keys', seriesByTagSet' := keys, seriesByTagSet;
    assert xs + series[..0] == xs;
    for t := 0 to |series|
      invariant Grouping(xs + series[..t], keys', seriesByTagSet')
    {
      var x := series[t];
      assert xs + series[..t] + [x] == xs + series[..t + 1];
      keys', seriesByTagSet' := PushOne(keys', seriesByTagSet', xs + series[..t], x, xs + series[..t + 1]);
    }
    assert series[..|series|] == series;
  }

  /** index.js:691-699: every series of every metric pushed onto the array
      of its tags. */
  method GroupByTagSet(jsons: seq<seq<CombinedSeries>>)
    returns (keys: seq<Tags>, seriesByTagSet: map<Tags, seq<CombinedSeries>>)
    ensures Grouping(Flatten(jsons), keys, seriesByTagSet)
  {
    keys, seriesByTagSet := [], map[];
    for j := 0 to |jsons|
      invariant Grouping(Flatten(jsons[..j]), keys, seriesByTagSet)
    {
      assert jsons[..j + 1][..j] == jsons[..j];
      keys, seriesByTagSet := PushSeries(keys, seriesByTagSet, Flatten(jsons[..j]), jsons[j]);
    }
    assert jsons[..|jsons|] == jsons;
  }

  /** index.js:706-713: the positions of the group's series that have points. */
  method CollectAllTimes(input: seq<CombinedSeries>) returns (allTimes: seq<int>)
    ensures allTimes == NonEmptyIndices(input)
  {
    allTimes := [];
    for t := 0 to |input|
      invariant allTimes == NonEmptyIndices(input[..t])
    {
      assert input[..t + 1][..t] == input[..t];
      if HasPoints(input[t]) {
        allTimes := allTimes + [t];
      }
    }
    assert input[..|input|] == input;
  }

  /** The keys of `allTimes` are exactly the positions of the series with
      points, in increasing order. */
  lemma {:induction false} NonEmptyIndicesProperties(input: seq<CombinedSeries>)
    ensures forall t :: t in NonEmptyIndices(input) <==> 0 <= t < |input| && HasPoints(input[t])
    ensures Increasing(NonEmptyIndices(input))
    decreases |input|
  {
    if |input| > 0 {
      var p := input[..|input| - 1];
      NonEmptyIndicesProperties(p);
      assert forall t :: 0 <= t < |p| ==> p[t] == input[t];
      var r := NonEmptyIndices(p);
      forall i | 0 <= i < |r| ensures r[i] < |p| {
        assert r[i] in r;
      }
    }
  }

  /** While `time` is not yet written, the group as the provider sees it
      agrees at `time` with the group as it was. */
  lemma AgreeWhileWriting(input: seq<CombinedSeries>, m: map<int, real>, time: int)
    requires |input| > 0 && input[0].dps.Keyed?
    requires time in m <==> time in input[0].dps.byTime
    requires time in m ==> m[time] == input[0].dps.byTime[time]
    ensures AgreeAt(input[0 := input[0].(dps := Keyed(m))], input, time)
  {
  }

  lemma MergeUpdate(a: map<int, real>, b: map<int, real>, k: int, v: real)
    ensures (a + b)[k := v] == a + b[k := v]
  {
  }

  /** index.js:716-717: the value provided at `time` written into the first
      series. The provider is handed the group as it stands, whose first
      series is the one being written; while `time` itself is unwritten that
      group gives the same value as the group as it was. */
  method WriteTime(input: seq<CombinedSeries>, p: Provider, dps: map<int, real>, time: int) returns (dps': map<int, real>)
    requires |input| > 0 && input[0].dps.Keyed?
    requires time in dps <==> time in input[0].dps.byTime
    requires time in dps ==> dps[time] == input[0].dps.byTime[time]
    ensures dps' == dps[time := Provided(p, time, input)]
  {
    var current := input[0 := input[0].(dps := Keyed(dps))];
    AgreeWhileWriting(input, dps, time);
    ProvidedAgree(p, current, input, time);
    var value := ProvideValue(p, time, current);
    dps' := dps[time := value];
  }

  /** With increasing keys, the next key has not been written yet. */
  lemma NotYetWritten(input: seq<CombinedSeries>, p: Provider, allTimes: seq<int>, k: nat)
    requires |input| > 0 && k < |allTimes| && Increasing(allTimes)
    ensures allTimes[k] !in Writes(input, p, allTimes[..k])
  {
    WritesAt(input, p, allTimes[..k]);
    assert forall j :: 0 <= j < k ==> allTimes[..k][j] < allTimes[k];
  }

  /** One more key of `allTimes` adds its write. */
  lemma WritesStep(input: seq<CombinedSeries>, p: Provider, allTimes: seq<int>, k: nat)
    requires |input| > 0 && k < |allTimes|
    ensures Writes(input, p, allTimes[..k + 1]) == Writes(input, p, allTimes[..k])[allTimes[k] := Provided(p, allTimes[k], input)]
  {
    assert allTimes[..k + 1][..k] == allTimes[..k];
  }

  /** index.js:714-720: each key of `allTimes` written into `input[0].dps`. */
  method WriteValues(input: seq<CombinedSeries>, p: Provider, allTimes: seq<int>) returns (dps: map<int, real>)
    requires |input| > 0 && input[0].dps.Keyed? && allTimes == NonEmptyIndices(input)
    ensures dps == UnionedDps(input, p)
  {
    assert Increasing(allTimes) by { NonEmptyIndicesProperties(input); }
    dps := input[0].dps.byTime;
    assert dps == input[0].dps.byTime + Writes(input, p, allTimes[..0]);
    for k := 0 to |allTimes|
      invariant dps == input[0].dps.byTime + Writes(input, p, allTimes[..k])
    {
      var time := allTimes[k];
      ghost var written := Writes(input, p, allTimes[..k]);
      NotYetWritten(input, p, allTimes, k);
      dps := WriteTime(input, p, dps, time);
      WritesStep(input, p, allTimes, k);
      MergeUpdate(input[0].dps.byTime, written, time, Provided(p, time, input));
    }
    assert allTimes[..|allTimes|] == allTimes;
  }

  /** index.js:682-725. */
  method UnioningFunction(jsons: seq<seq<CombinedSeries>>, p: Provider) returns (ret: seq<CombinedSeries>)
    requires AllKeyed(Flatten(jsons))
    ensures ret == Unioned(jsons, p)
  {
    var keys, seriesByTagSet := GroupByTagSet(jsons);
    ghost var xs := Flatten(jsons);
    ghost var u := Unioned(jsons, p);
    ret := [];
    assert |keys| == |u|;
    for k := 0 to |keys|
      invariant ret == u[..k]
    {
      GroupOfKey(jsons, p, keys, seriesByTagSet, k);
      var series := UnionGroup(seriesByTagSet[keys[k]], p);
      TakeOneMore(u, k);
      ret := ret + [series];
    }
    assert u[..|keys|] == u;
  }

  /** The group stored under the `k`-th key is the one whose union is the
      `k`-th result. */
  lemma GroupOfKey(jsons: seq<seq<CombinedSeries>>, p: Provider, keys: seq<Tags>,
                   seriesByTagSet: map<Tags, seq<CombinedSeries>>, k: nat)
    requires AllKeyed(Flatten(jsons)) && Grouping(Flatten(jsons), keys, seriesByTagSet) && k < |keys|
    ensures keys[k] in seriesByTagSet
    ensures var input := seriesByTagSet[keys[k]];
      |input| > 0 && input[0].dps.Keyed? && UnionedSeries(input, p) == Unioned(jsons, p)[k]
  {
    UnionedAt(jsons, p, k);
    assert keys[k] in keys;
  }

  /** The body of the loop of index.js:702-723 for one group. */
  method UnionGroup(input: seq<CombinedSeries>, p: Provider) returns (series: CombinedSeries)
    requires |input| > 0 && input[0].dps.Keyed?
    ensures series == UnionedSeries(input, p)
  {
    var allTimes := CollectAllTimes(input);
    var dps := WriteValues(input, p, allTimes);
    series := input[0].(dps := Keyed(dps));
  }

  // ---------------------------------------------------------------------------
  // Properties of unioningFunction
  // ---------------------------------------------------------------------------

  /** `xs[i]` is the first series with tags `tags`. */
  predicate FirstWithTags(xs: seq<CombinedSeries>, i: nat, tags: Tags)
  {
    i < |xs| && xs[i].tags == tags && forall j :: 0 <= j < i ==> xs[j].tags != tags
  }

  lemma {:induction false} GroupHead(xs: seq<CombinedSeries>, tags: Tags) returns (i: nat)
    requires tags in TagsOf(xs)
    ensures FirstWithTags(xs, i, tags) && |WithTags(xs, tags)| > 0 && WithTags(xs, tags)[0] == xs[i]
    decreases |xs|
  {
    var q := xs[..|xs| - 1];
    var x := xs[|xs| - 1];
    assert q + [x] == xs;
    TagsOfSnoc(q, x);
    WithTagsSnoc(q, x, tags);
    if tags in TagsOf(q) {
      i := GroupHead(q, tags);
    } else {
      i := |q|;
      FirstAtEnd(xs, q, x, tags, i);
    }
  }

  /** Tags absent before the last series make the last series the first with them. */
  lemma FirstAtEnd(xs: seq<CombinedSeries>, q: seq<CombinedSeries>, x: CombinedSeries, tags: Tags, i: nat)
    requires xs == q + [x] && i == |q| && tags !in TagsOf(q)
    requires tags in TagsOf(q) + [x.tags]
    requires WithTags(xs, tags) == WithTags(q, tags) + if x.tags == tags then [x] else []
    ensures FirstWithTags(xs, i, tags) && |WithTags(xs, tags)| > 0 && WithTags(xs, tags)[0] == xs[i]
  {
    WithTagsAbsent(q, tags);
    TagsOfEntries(q);
    assert forall j :: 0 <= j < i ==> xs[j] == q[j] && TagsOf(q)[j] in TagsOf(q);
  }

  /** One result per distinct tags value, in order of first occurrence, each
      the first series with those tags with only its `dps` rewritten. */
  lemma UnionedGroups(jsons: seq<seq<CombinedSeries>>, p: Provider)
    requires AllKeyed(Flatten(jsons))
    ensures TagsOf(Unioned(jsons, p)) == Dedup(TagsOf(Flatten(jsons)))
    ensures NoDuplicates(TagsOf(Unioned(jsons, p)))
    ensures forall k :: 0 <= k < |Unioned(jsons, p)| ==> UnionedFrom(Flatten(jsons), Unioned(jsons, p)[k])
  {
    var xs, ret := Flatten(jsons), Unioned(jsons, p);
    var keys := Dedup(TagsOf(xs));
    DedupProperties(TagsOf(xs));
    TagsOfEntries(ret);
    forall k | 0 <= k < |ret|
      ensures ret[k].tags == keys[k] && UnionedFrom(xs, ret[k])
    {
      UnionedAt(jsons, p, k);
      var i := GroupHead(xs, keys[k]);
    }
    assert TagsOf(ret) == keys;
  }

  /** `r` is the first series of `xs` with its tags, only `dps` rewritten
      (and object-form). */
  predicate UnionedFrom(xs: seq<CombinedSeries>, r: CombinedSeries)
  {
    r.dps.Keyed? && exists i :: 0 <= i < |xs| && FirstWithTags(xs, i, r.tags) && r == xs[i].(dps := r.dps)
  }

  /** The quirk of index.js:709-719: the values are written under the keys
      of `allTimes`, which are positions in the group, not timestamps. The
      result holds the first series' own points and, at every position `t`
      of a series with points, the value provided at time `t`. */
  lemma UnionedWritesPositions(input: seq<CombinedSeries>, p: Provider)
    requires |input| > 0 && input[0].dps.Keyed?
    ensures var dps := UnionedSeries(input, p).dps.byTime;
      && (forall t :: t in dps <==> t in input[0].dps.byTime || (0 <= t < |input| && HasPoints(input[t])))
      && (forall t :: 0 <= t < |input| && HasPoints(input[t]) ==> dps[t] == Provided(p, t, input))
      && (forall t :: t in input[0].dps.byTime && !(0 <= t < |input| && HasPoints(input[t])) ==>
            dps[t] == input[0].dps.byTime[t])
  {
    NonEmptyIndicesProperties(input);
    WritesAt(input, p, NonEmptyIndices(input));
  }

  /** With timestamps no smaller than the size of the group (as epoch times
      are), no series has a value at any key of `allTimes`: every provider
      writes 0 there, so `sumSeries`, `diffSeries` and `multiplySeries` all
      answer the first series' own points plus a 0 at each position of a
      series with points. */
  lemma UnionedIgnoresTimestamps(input: seq<CombinedSeries>, p: Provider)
    requires |input| > 0 && AllKeyed(input)
    requires forall k, t :: 0 <= k < |input| && t in input[k].dps.byTime ==> t >= |input|
    ensures var dps := UnionedSeries(input, p).dps.byTime;
      && (forall t :: t in dps <==> t in input[0].dps.byTime || (0 <= t < |input| && HasPoints(input[t])))
      && (forall t :: 0 <= t < |input| && HasPoints(input[t]) ==> dps[t] == 0.0)
  {
    UnionedWritesPositions(input, p);
    forall t | 0 <= t < |input| && HasPoints(input[t]) ensures Provided(p, t, input) == 0.0 {
      ProvidedWhereNothing(p, t, input);
    }
  }
}
