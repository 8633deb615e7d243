/** `gexpQueryImpl` (index.js:957-1165): each expression `func(args)` is
    looked up in the function table, its metric arguments scanned and queried
    one by one, the results handed to the function's `process`, renamed to
    the expression and converted to the `dps` form the request asks for. */
module GexpQuery {
  import opened Wrappers
  import opened Sequences
  import opened Series
  import opened JsStrings
  import opened Filtering
  import opened TagSets
  import opened MetricToken
  import opened BucketGrid
  import opened Combiner
  import opened SingleMetricQuery
  import opened ExprScanner
  import opened SeriesFunctions

  // ---------------------------------------------------------------------------
  // The function table (index.js:727-955)
  // ---------------------------------------------------------------------------

  datatype GexpFunction =
    | Absolute | Scale | MovingAverage | HighestMax | HighestCurrent
    | DiffSeries | SumSeries | MultiplySeries | DivideSeries

  /** The key of each entry of `gexpFunctions`. */
  function Name(f: GexpFunction): string
  {
    match f
    case Absolute => "absolute"
    case Scale => "scale"
    case MovingAverage => "movingAverage"
    case HighestMax => "highestMax"
    case HighestCurrent => "highestCurrent"
    case DiffSeries => "diffSeries"
    case SumSeries => "sumSeries"
    case MultiplySeries => "multiplySeries"
    case DivideSeries => "divideSeries"
  }

  /** `gexpFunctions[name]` when the table has an entry of that name. */
  function Lookup(name: string): (f: Option<GexpFunction>)
    ensures f.Some? ==> Name(f.value) == name
  {
    if name == "absolute" then Some(Absolute)
    else if name == "scale" then Some(Scale)
    else if name == "movingAverage" then Some(MovingAverage)
    else if name == "highestMax" then Some(HighestMax)
    else if name == "highestCurrent" then Some(HighestCurrent)
    else if name == "diffSeries" then Some(DiffSeries)
    else if name == "sumSeries" then Some(SumSeries)
    else if name == "multiplySeries" then Some(MultiplySeries)
    else if name == "divideSeries" then Some(DivideSeries)
    else None
  }

  /** Every entry is found under its own name. */
  lemma LookupName(f: GexpFunction)
    ensures Lookup(Name(f)) == Some(f)
  {
    match f
    case Absolute =>
    case Scale => assert Name(f) != "absolute";
    case MovingAverage => assert Name(f)[0] == 'm';
    case HighestMax => assert Name(f)[0] == 'h' && Name(f)[7] == 'M';
    case HighestCurrent => assert Name(f)[0] == 'h' && Name(f)[7] == 'C';
    case DiffSeries => assert Name(f)[0] == 'd' && Name(f)[1] == 'i' && Name(f)[2] == 'f';
    case SumSeries => assert Name(f)[0] == 's' && Name(f)[1] == 'u';
    case MultiplySeries => assert Name(f)[0] == 'm' && Name(f)[1] == 'u';
    case DivideSeries => assert Name(f)[0] == 'd' && Name(f)[2] == 'v';
  }

  /** `maxMetrics`: the union functions read up to 26 metrics, the others one. */
  function MaxMetrics(f: GexpFunction): nat
  {
    if f in {DiffSeries, SumSeries, MultiplySeries, DivideSeries} then 26 else 1
  }

  /** `extraArg`. */
  predicate TakesExtraArg(f: GexpFunction)
  {
    f in {Scale, MovingAverage, HighestMax, HighestCurrent}
  }

  /** `array_output`: the form in which the metrics are queried. */
  predicate ArrayOutput(f: GexpFunction)
  {
    f !in {DiffSeries, SumSeries, MultiplySeries, DivideSeries}
  }

  /** The columns of the table agree: a function reads 26 metrics exactly
      when it queries them as objects, and one as arrays otherwise; only
      array functions take an extra argument. */
  lemma TableColumns(f: GexpFunction)
    ensures MaxMetrics(f) == 26 <==> !ArrayOutput(f)
    ensures MaxMetrics(f) == 1 <==> ArrayOutput(f)
    ensures TakesExtraArg(f) ==> ArrayOutput(f)
  {
  }

  // ---------------------------------------------------------------------------
  // Querying the metrics (index.js:1127-1131)
  // ---------------------------------------------------------------------------

  /** `jsons`: the answer of `performSingleMetricQuery` for each metric, in
      order; the first failing query ends the expression. */
  function MetricResults(metrics: seq<string>, startMs: int, endMs: int, arrays: bool, ms: bool, showTsuids: bool,
                         backend: Backend, matcher: Matcher): (r: Result<seq<seq<CombinedSeries>>, QueryError>)
    ensures r.Ok? ==> |r.value| == |metrics|
    decreases |metrics|
  {
    if |metrics| == 0 then Ok([])
    else
      var prev :- MetricResults(metrics[..|metrics| - 1], startMs, endMs, arrays, ms, showTsuids, backend, matcher);
      var series :- SingleQuery(startMs, endMs, metrics[|metrics| - 1], arrays, ms, showTsuids, backend, matcher);
      Ok(prev + [series])
  }

  /** Every series of every metric has array-form `dps` exactly with `arrays`. */
  predicate InForm(jsons: seq<seq<CombinedSeries>>, arrays: bool)
  {
    forall j, k :: 0 <= j < |jsons| && 0 <= k < |jsons[j]| ==> (jsons[j][k].dps.Pairs? <==> arrays)
  }

  /** A single-metric answer has the `dps` form it was asked for. */
  lemma SingleQueryForm(startMs: int, endMs: int, m: string, arrays: bool, ms: bool, showTsuids: bool,
                        backend: Backend, matcher: Matcher)
    requires SingleQuery(startMs, endMs, m, arrays, ms, showTsuids, backend, matcher).Ok?
    ensures var ret := SingleQuery(startMs, endMs, m, arrays, ms, showTsuids, backend, matcher).value;
      forall k :: 0 <= k < |ret| ==> (ret[k].dps.Pairs? <==> arrays)
  {
    var q := ParseMetric(m).value;
    var series := ApplyFilters(backend(startMs, endMs, ms, q.downsample, q.metric, q.filters), q.filters, matcher);
    AnswersShape(series, UniqueTagSets(series, q.filters), q, BucketTimes(startMs, endMs, GridWidth(q.downsample, ms).value, ms),
                 arrays, showTsuids);
  }

  /** All metric answers have the `dps` form they were asked for. */
  lemma {:induction false} MetricResultsForm(metrics: seq<string>, startMs: int, endMs: int, arrays: bool, ms: bool,
                                             showTsuids: bool, backend: Backend, matcher: Matcher)
    requires MetricResults(metrics, startMs, endMs, arrays, ms, showTsuids, backend, matcher).Ok?
    ensures InForm(MetricResults(metrics, startMs, endMs, arrays, ms, showTsuids, backend, matcher).value, arrays)
    decreases |metrics|
  {
    if |metrics| > 0 {
      var p := metrics[..|metrics| - 1];
      MetricResultsForm(p, startMs, endMs, arrays, ms, showTsuids, backend, matcher);
      SingleQueryForm(startMs, endMs, metrics[|metrics| - 1], arrays, ms, showTsuids, backend, matcher);
    }
  }

  /** A failure among the first `m` metrics is the failure of the whole list. */
  lemma {:induction false} MetricResultsErrExtends(metrics: seq<string>, m: nat, startMs: int, endMs: int, arrays: bool,
                                                   ms: bool, showTsuids: bool, backend: Backend, matcher: Matcher)
    requires m <= |metrics|
    requires MetricResults(metrics[..m], startMs, endMs, arrays, ms, showTsuids, backend, matcher).Err?
    ensures MetricResults(metrics, startMs, endMs, arrays, ms, showTsuids, backend, matcher)
         == MetricResults(metrics[..m], startMs, endMs, arrays, ms, showTsuids, backend, matcher)
    decreases |metrics|
  {
    if m < |metrics| {
      var p := metrics[..|metrics| - 1];
      assert p[..m] == metrics[..m];
      MetricResultsErrExtends(p, m, startMs, endMs, arrays, ms, showTsuids, backend, matcher);
    } else {
      assert metrics[..m] == metrics;
    }
  }

  /** A failure of the list is the failure of one of its queries. */
  lemma {:induction false} MetricResultsFailure(metrics: seq<string>, startMs: int, endMs: int, arrays: bool, ms: bool,
                                                showTsuids: bool, backend: Backend, matcher: Matcher)
    returns (m: nat)
    requires MetricResults(metrics, startMs, endMs, arrays, ms, showTsuids, backend, matcher).Err?
    ensures m < |metrics|
    ensures SingleQuery(startMs, endMs, metrics[m], arrays, ms, showTsuids, backend, matcher)
         == Err(MetricResults(metrics, startMs, endMs, arrays, ms, showTsuids, backend, matcher).error)
    decreases |metrics|
  {
    var p := metrics[..|metrics| - 1];
    if MetricResults(p, startMs, endMs, arrays, ms, showTsuids, backend, matcher).Err? {
      m := MetricResultsFailure(p, startMs, endMs, arrays, ms, showTsuids, backend, matcher);
    } else {
      m := |metrics| - 1;
    }
  }

  /** One more metric query extends the list, or ends it with its failure. */
  lemma MetricResultsSnoc(metrics: seq<string>, m: nat, startMs: int, endMs: int, arrays: bool, ms: bool,
                          showTsuids: bool, backend: Backend, matcher: Matcher, jsons: seq<seq<CombinedSeries>>,
                          series: Result<seq<CombinedSeries>, QueryError>)
    requires m < |metrics|
    requires MetricResults(metrics[..m], startMs, endMs, arrays, ms, showTsuids, backend, matcher) == Ok(jsons)
    requires series == SingleQuery(startMs, endMs, metrics[m], arrays, ms, showTsuids, backend, matcher)
    ensures MetricResults(metrics[..m + 1], startMs, endMs, arrays, ms, showTsuids, backend, matcher)
         == if series.Err? then Err(series.error) else Ok(jsons + [series.value])
  {
    assert metrics[..m + 1][..m] == metrics[..m];
  }

  /** index.js:1127-1131. */
  method QueryMetrics(metrics: seq<string>, startMs: int, endMs: int, arrays: bool, ms: bool, showTsuids: bool,
                      backend: Backend, matcher: Matcher) returns (r: Result<seq<seq<CombinedSeries>>, QueryError>)
    ensures r == MetricResults(metrics, startMs, endMs, arrays, ms, showTsuids, backend, matcher)
  {
    var jsons: seq<seq<CombinedSeries>> := [];
    for m := 0 to |metrics|
      invariant MetricResults(metrics[..m], startMs, endMs, arrays, ms, showTsuids, backend, matcher) == Ok(jsons)
    {
      var series := SingleQuery(startMs, endMs, metrics[m], arrays, ms, showTsuids, backend, matcher);
      MetricResultsSnoc(metrics, m, startMs, endMs, arrays, ms, showTsuids, backend, matcher, jsons, series);
      if series.Err? {
        MetricResultsErrExtends(metrics, m + 1, startMs, endMs, arrays, ms, showTsuids, backend, matcher);
        return Err(series.error);
      }
      jsons := jsons + [series.value];
    }
    assert metrics[..|metrics|] == metrics;
    r := Ok(jsons);
  }

  // ---------------------------------------------------------------------------
  // Processing (index.js:1132)
  // ---------------------------------------------------------------------------

  /** All series of object-form metrics are object-form. */
  lemma KeyedFlatten(jsons: seq<seq<CombinedSeries>>)
    requires InForm(jsons, false)
    ensures AllKeyed(Flatten(jsons))
  {
    var xs := Flatten(jsons);
    forall k | 0 <= k < |xs| ensures xs[k].dps.Keyed? {
      assert xs[k] in xs;
      var j :| 0 <= j < |jsons| && xs[k] in jsons[j];
      var t :| 0 <= t < |jsons[j]| && jsons[j][t] == xs[k];
    }
  }

  /** `gexpFunctions[func].process(ms, jsons, extraArg)`: the union
      functions answer object-form series, the others array-form ones; the
      failures are the first metric missing (`jsons[0]` undefined), the
      `null` of `divideSeries` and the functions this model leaves out. */
  function Process(f: GexpFunction, jsons: seq<seq<CombinedSeries>>, extraArg: Option<string>,
                   number: string -> real): (r: Result<seq<CombinedSeries>, QueryError>)
    requires InForm(jsons, ArrayOutput(f))
    requires extraArg.Some? <==> TakesExtraArg(f)
    ensures r.Ok? ==> forall k :: 0 <= k < |r.value| ==> (r.value[k].dps.Pairs? <==> ArrayOutput(f))
    ensures r.Err? <==> (f in {Absolute, Scale} && |jsons| == 0) || f in {DivideSeries, MovingAverage, HighestMax, HighestCurrent}
    ensures r.Err? ==> r.error in {NoSeries(Name(f)), NullResult(Name(f)), UnsupportedFunction(Name(f))}
  {
    match f
    case Absolute => if |jsons| == 0 then Err(NoSeries(Name(f))) else Ok(MapAll(jsons[0], AbsoluteValue))
    case Scale => if |jsons| == 0 then Err(NoSeries(Name(f))) else Ok(MapAll(jsons[0], ScaleBy(number(extraArg.value))))
    case SumSeries => KeyedFlatten(jsons); UnionedGroups(jsons, SumProvider); Ok(Unioned(jsons, SumProvider))
    case DiffSeries => KeyedFlatten(jsons); UnionedGroups(jsons, DiffProvider); Ok(Unioned(jsons, DiffProvider))
    case MultiplySeries => KeyedFlatten(jsons); UnionedGroups(jsons, MultiplyProvider); Ok(Unioned(jsons, MultiplyProvider))
    case DivideSeries => Err(NullResult(Name(f)))
    case MovingAverage => Err(UnsupportedFunction(Name(f)))
    case HighestMax => Err(UnsupportedFunction(Name(f)))
    case HighestCurrent => Err(UnsupportedFunction(Name(f)))
  }

  method ProcessSeries(f: GexpFunction, jsons: seq<seq<CombinedSeries>>, extraArg: Option<string>,
                       number: string -> real) returns (r: Result<seq<CombinedSeries>, QueryError>)
    requires InForm(jsons, ArrayOutput(f))
    requires extraArg.Some? <==> TakesExtraArg(f)
    ensures r == Process(f, jsons, extraArg, number)
  {
    match f
    case Absolute =>
      if |jsons| == 0 { return Err(NoSeries(Name(f))); }
      var series := MapSeriesValues(jsons[0], AbsoluteValue);
      r := Ok(series);
    case Scale =>
      if |jsons| == 0 { return Err(NoSeries(Name(f))); }
      var series := MapSeriesValues(jsons[0], ScaleBy(number(extraArg.value)));
      r := Ok(series);
    case SumSeries =>
      KeyedFlatten(jsons);
      var series := UnioningFunction(jsons, SumProvider);
      r := Ok(series);
    case DiffSeries =>
      KeyedFlatten(jsons);
      var series := UnioningFunction(jsons, DiffProvider);
      r := Ok(series);
    case MultiplySeries =>
      KeyedFlatten(jsons);
      var series := UnioningFunction(jsons, MultiplyProvider);
      r := Ok(series);
    case DivideSeries => r := Err(NullResult(Name(f)));
    case MovingAverage => r := Err(UnsupportedFunction(Name(f)));
    case HighestMax => r := Err(UnsupportedFunction(Name(f)));
    case HighestCurrent => r := Err(UnsupportedFunction(Name(f)));
  }

  // ---------------------------------------------------------------------------
  // Renaming and `dps` conversion (index.js:1133-1162)
  // ---------------------------------------------------------------------------

  /** `mappedResults[m].metric = exp` for every result. */
  function Renamed(rs: seq<CombinedSeries>, exp: string): (r: seq<CombinedSeries>)
    ensures |r| == |rs|
    ensures forall k :: 0 <= k < |rs| ==> r[k].metric == exp && r[k] == rs[k].(metric := r[k].metric)
  {
    seq(|rs|, k requires 0 <= k < |rs| => rs[k].(metric := exp))
  }

  method RenameAll(mappedResults: seq<CombinedSeries>, exp: string) returns (r: seq<CombinedSeries>)
    ensures r == Renamed(mappedResults, exp)
  {
    r := mappedResults;
    for m := 0 to |r|
      invariant |r| == |mappedResults|
      invariant forall k :: 0 <= k < m ==> r[k] == mappedResults[k].(metric := exp)
      invariant forall k :: m <= k < |r| ==> r[k] == mappedResults[k]
    {
      r := r[m := r[m].(metric := exp)];
    }
  }

  /** A non-empty set of times has a greatest one. */
  lemma {:induction false} MaxKeyExists(ks: set<int>)
    requires |ks| > 0
    ensures exists k :: k in ks && forall x :: x in ks ==> x <= k
    decreases |ks|
  {
    if forall x :: x !in ks { assert false; }
    var y :| y in ks;
    var rest := ks - {y};
    var top := y;
    if |rest| > 0 {
      MaxKeyExists(rest);
      var k :| k in rest && forall x :: x in rest ==> x <= k;
      if y < k { top := k; }
    }
    assert top in ks && forall x :: x in rest ==> x <= top;
    forall x | x in ks ensures x <= top {
      if x != y { assert x in rest; }
    }
  }

  /** Appending a time after all others keeps the pairs increasing. */
  lemma SnocGreatest(front: seq<Point>, rest: map<int, real>, k: int, v: real)
    requires TimesIncreasing(front) && ToMap(front) == rest
    requires forall i :: 0 <= i < |front| ==> front[i].time in rest
    requires forall x :: x in rest ==> x < k
    ensures TimesIncreasing(front + [Point(k, v)]) && ToMap(front + [Point(k, v)]) == rest[k := v]
  {
    ToMapSnoc(front, Point(k, v));
    var r := front + [Point(k, v)];
    forall i, j | 0 <= i < j < |r| ensures r[i].time < r[j].time {
      if j == |front| {
        assert r[i] == front[i];
      } else {
        assert r[i] == front[i] && r[j] == front[j];
      }
    }
  }

  /** The pairs of an object-form `dps` by increasing time: what the
      collecting loop and `dps.sort((a, b) => a[0] - b[0])` produce. */
  function SortedPairs(m: map<int, real>): (r: seq<Point>)
    ensures TimesIncreasing(r) && ToMap(r) == m
    ensures forall i :: 0 <= i < |r| ==> r[i].time in m
    decreases |m|
  {
    if |m| == 0 then []
    else
      MaxKeyExists(m.Keys);
      var k :| k in m && forall x :: x in m ==> x <= k;
      var rest := m - {k};
      RemoveRestored(m, k);
      var front := SortedPairs(rest);
      SnocGreatest(front, rest, k, m[k]);
      front + [Point(k, m[k])]
  }

  lemma RemoveRestored(m: map<int, real>, k: int)
    requires k in m && forall x :: x in m ==> x <= k
    ensures |m - {k}| < |m| && (m - {k})[k := m[k]] == m
    ensures forall x :: x in m - {k} ==> x < k
  {
    var rest := m - {k};
    assert forall x :: x in rest ==> x in m && x != k;
    assert rest.Keys == m.Keys - {k};
    var r := rest[k := m[k]];
    assert r.Keys == m.Keys;
    assert forall x :: x in r ==> r[x] == m[x];
  }

  /** The last of increasing pairs holds the greatest time; dropping it drops that key. */
  lemma LastRemoved(a: seq<Point>)
    requires |a| > 0 && TimesIncreasing(a)
    ensures TimesIncreasing(a[..|a| - 1])
    ensures a[|a| - 1].time in ToMap(a) && ToMap(a)[a[|a| - 1].time] == a[|a| - 1].value
    ensures forall t :: t in ToMap(a) ==> t <= a[|a| - 1].time
    ensures ToMap(a[..|a| - 1]) == ToMap(a) - {a[|a| - 1].time}
  {
    var p, last := a[..|a| - 1], a[|a| - 1];
    assert TimesIncreasing(p);
    ToMapOfIncreasing(p);
    forall t | t in ToMap(p) ensures t < last.time {
      var j :| 0 <= j < |p| && p[j].time == t;
      assert a[j] == p[j];
    }
    assert ToMap(a) == ToMap(p)[last.time := last.value];
    UpdateRemoved(ToMap(p), last.time, last.value);
  }

  lemma UpdateRemoved(m: map<int, real>, t: int, v: real)
    requires t !in m
    ensures m[t := v] - {t} == m
  {
    var r := m[t := v] - {t};
    assert r.Keys == m.Keys;
    assert forall k :: k in r ==> r[k] == m[k];
  }

  /** Increasing pairs are determined by the object they make. */
  lemma {:induction false} IncreasingUnique(a: seq<Point>, b: seq<Point>)
    requires TimesIncreasing(a) && TimesIncreasing(b) && ToMap(a) == ToMap(b)
    ensures a == b
    decreases |a|
  {
    if |a| == 0 {
      if |b| > 0 {
        LastRemoved(b);
      }
    } else {
      LastRemoved(a);
      assert a[|a| - 1].time in ToMap(b);
      if |b| == 0 { assert false; }
      LastRemoved(b);
      var la, lb := a[|a| - 1], b[|b| - 1];
      assert la.time <= lb.time && lb.time <= la.time;
      IncreasingUnique(a[..|a| - 1], b[..|b| - 1]);
      assert a == a[..|a| - 1] + [la] && b == b[..|b| - 1] + [lb];
    }
  }

  /** Converting increasing pairs to an object and back gives them again. */
  lemma ArraysMappedRoundTrip(pts: seq<Point>)
    requires TimesIncreasing(pts)
    ensures SortedPairs(ToMap(pts)) == pts
  {
    IncreasingUnique(SortedPairs(ToMap(pts)), pts);
  }

  /** index.js:1151-1161: `dps[p[0]] = p[1]` for every pair; an object-form
      `dps` has no `length` and is replaced by an empty object. */
  function ArraysToMapped(d: Dps): (r: Dps)
    ensures r.Keyed?
  {
    match d
    case Pairs(pts) => Keyed(ToMap(pts))
    case Keyed(_) => Keyed(map[])
  }

  method PairsToMap(pts: seq<Point>) returns (dps: map<int, real>)
    ensures dps == ToMap(pts)
  {
    dps := map[];
    for p := 0 to |pts|
      invariant dps == ToMap(pts[..p])
    {
      assert pts[..p + 1][..p] == pts[..p];
      dps := dps[pts[p].time := pts[p].value];
    }
    assert pts[..|pts|] == pts;
  }

  /** The `dps` of one result in the form the request asks for: objects
      become pairs sorted by time, pairs become objects. */
  function ConvertedDps(d: Dps, arrays: bool, arrayOutput: bool): (r: Dps)
    requires d.Pairs? <==> arrayOutput
    ensures r.Pairs? <==> arrays
    ensures arrays == arrayOutput ==> r == d
    ensures arrays && !arrayOutput ==> TimesIncreasing(r.points) && ToMap(r.points) == d.byTime
    ensures !arrays && arrayOutput ==> r.byTime == ToMap(d.points)
  {
    if arrays && !arrayOutput then Pairs(SortedPairs(d.byTime))
    else if !arrays && arrayOutput then ArraysToMapped(d)
    else d
  }

  function Converted(rs: seq<CombinedSeries>, arrays: bool, arrayOutput: bool): (r: seq<CombinedSeries>)
    requires forall k :: 0 <= k < |rs| ==> (rs[k].dps.Pairs? <==> arrayOutput)
    ensures |r| == |rs|
    ensures forall k :: 0 <= k < |rs| ==> r[k] == rs[k].(dps := r[k].dps) && (r[k].dps.Pairs? <==> arrays)
  {
    seq(|rs|, k requires 0 <= k < |rs| => rs[k].(dps := ConvertedDps(rs[k].dps, arrays, arrayOutput)))
  }

  method ConvertAll(mappedResults: seq<CombinedSeries>, arrays: bool, arrayOutput: bool) returns (r: seq<CombinedSeries>)
    requires forall k :: 0 <= k < |mappedResults| ==> (mappedResults[k].dps.Pairs? <==> arrayOutput)
    ensures r == Converted(mappedResults, arrays, arrayOutput)
  {
    r := mappedResults;
    if arrays && !arrayOutput {
      for m := 0 to |r|
        invariant |r| == |mappedResults|
        invariant forall k :: 0 <= k < |r| ==> r[k] == if k < m then Converted(mappedResults, arrays, arrayOutput)[k] else mappedResults[k]
      {
        r := r[m := r[m].(dps := Pairs(SortedPairs(r[m].dps.byTime)))];
      }
    } else if !arrays && arrayOutput {
      for m := 0 to |r|
        invariant |r| == |mappedResults|
        invariant forall k :: 0 <= k < |r| ==> r[k] == if k < m then Converted(mappedResults, arrays, arrayOutput)[k] else mappedResults[k]
      {
        var dps: map<int, real> := map[];
        if r[m].dps.Pairs? {
          dps := PairsToMap(r[m].dps.points);
        }
        r := r[m := r[m].(dps := Keyed(dps))];
      }
    }
  }

  // ---------------------------------------------------------------------------
  // One expression (index.js:1042-1163)
  // ---------------------------------------------------------------------------

  /** What one expression contributes to the answer, or the exception it
      ends in. A name without an entry fails at `gexpFunctions[func].maxMetrics`. */
  function GexpAnswer(exp: string, startMs: int, endMs: int, arrays: bool, ms: bool, showTsuids: bool,
                      backend: Backend, matcher: Matcher, number: string -> real): Result<seq<CombinedSeries>, QueryError>
  {
    var func := FunctionName(exp);
    if Lookup(func).None? then Err(UnknownFunction(func))
    else
      var f := Lookup(func).value;
      var scanned :- Scan(exp, |func| + 1, 0, MaxMetrics(f));
      Evaluate(exp, f, scanned.0, scanned.1, startMs, endMs, arrays, ms, showTsuids, backend, matcher, number)
  }

  /** Everything after the metric arguments are read: the extra argument,
      the metric queries, `process`, renaming and conversion. */
  function Evaluate(exp: string, f: GexpFunction, metrics: seq<string>, index: nat, startMs: int, endMs: int,
                    arrays: bool, ms: bool, showTsuids: bool, backend: Backend, matcher: Matcher,
                    number: string -> real): Result<seq<CombinedSeries>, QueryError>
  {
    var extraArg := if TakesExtraArg(f) then Some(ExtraArg(exp, index)) else None;
    var jsons :- MetricResults(metrics, startMs, endMs, ArrayOutput(f), ms, showTsuids, backend, matcher);
    MetricResultsForm(metrics, startMs, endMs, ArrayOutput(f), ms, showTsuids, backend, matcher);
    var mappedResults :- Process(f, jsons, extraArg, number);
    Ok(Converted(Renamed(mappedResults, exp), arrays, ArrayOutput(f)))
  }

  /** The body of the loop of index.js:1042-1163 for one expression. */
  method GexpExpression(exp: string, startMs: int, endMs: int, arrays: bool, ms: bool, showTsuids: bool,
                        backend: Backend, matcher: Matcher, number: string -> real)
    returns (r: Result<seq<CombinedSeries>, QueryError>)
    ensures r == GexpAnswer(exp, startMs, endMs, arrays, ms, showTsuids, backend, matcher, number)
  {
    var func := FunctionName(exp);
    var entry := Lookup(func);
    if entry.None? {
      return Err(UnknownFunction(func));
    }
    var f := entry.value;
    var scanned := ScanArguments(exp, |func| + 1, MaxMetrics(f));
    if scanned.Err? {
      return Err(scanned.error);
    }
    r := EvaluateExpression(exp, f, scanned.value.0, scanned.value.1, startMs, endMs, arrays, ms, showTsuids,
                            backend, matcher, number);
  }

  /** index.js:1117-1162. */
  method EvaluateExpression(exp: string, f: GexpFunction, metrics: seq<string>, index: nat, startMs: int, endMs: int,
                            arrays: bool, ms: bool, showTsuids: bool, backend: Backend, matcher: Matcher,
                            number: string -> real) returns (r: Result<seq<CombinedSeries>, QueryError>)
    ensures r == Evaluate(exp, f, metrics, index, startMs, endMs, arrays, ms, showTsuids, backend, matcher, number)
  {
    var extraArg: Option<string> := None;
    if TakesExtraArg(f) {
      extraArg := Some(ExtraArg(exp, index));
    }
    var jsons := QueryMetrics(metrics, startMs, endMs, ArrayOutput(f), ms, showTsuids, backend, matcher);
    if jsons.Err? {
      return Err(jsons.error);
    }
    MetricResultsForm(metrics, startMs, endMs, ArrayOutput(f), ms, showTsuids, backend, matcher);
    var mappedResults := ProcessSeries(f, jsons.value, extraArg, number);
    if mappedResults.Err? {
      return Err(mappedResults.error);
    }
    var renamed := RenameAll(mappedResults.value, exp);
    var converted := ConvertAll(renamed, arrays, ArrayOutput(f));
    r := Ok(converted);
  }

  // ---------------------------------------------------------------------------
  // All expressions (index.js:957-1165)
  // ---------------------------------------------------------------------------

  /** What each expression contributes, in order. */
  function Answers(eArray: seq<string>, startMs: int, endMs: int, arrays: bool, ms: bool, showTsuids: bool,
                   backend: Backend, matcher: Matcher, number: string -> real)
    : (rs: seq<Result<seq<CombinedSeries>, QueryError>>)
    ensures |rs| == |eArray|
  {
    MapSeq(eArray, e => GexpAnswer(e, startMs, endMs, arrays, ms, showTsuids, backend, matcher, number))
  }

  /** The `a`-th answer is the answer of the `a`-th expression. */
  lemma AnswersAt(eArray: seq<string>, startMs: int, endMs: int, arrays: bool, ms: bool, showTsuids: bool,
                   backend: Backend, matcher: Matcher, number: string -> real, a: nat)
    requires a < |eArray|
    ensures Answers(eArray, startMs, endMs, arrays, ms, showTsuids, backend, matcher, number)[a]
      == GexpAnswer(eArray[a], startMs, endMs, arrays, ms, showTsuids, backend, matcher, number)
  {
    MapSeqAt(eArray, e => GexpAnswer(e, startMs, endMs, arrays, ms, showTsuids, backend, matcher, number), a);
  }

  /** `ret`: the answers of the expressions concatenated (`ret.concat`);
      the first failing expression ends the request. */
  function GexpQuery(eArray: seq<string>, startMs: int, endMs: int, arrays: bool, ms: bool, showTsuids: bool,
                     backend: Backend, matcher: Matcher, number: string -> real): Result<seq<CombinedSeries>, QueryError>
  {
    var answers :- Collected(Answers(eArray, startMs, endMs, arrays, ms, showTsuids, backend, matcher, number));
    Ok(Flatten(answers))
  }

  /** index.js:957-1165, the answer before `res.json`. */
  method GexpQueryImpl(startMs: int, endMs: int, eArray: seq<string>, arrays: bool, ms: bool, showTsuids: bool,
                       backend: Backend, matcher: Matcher, number: string -> real)
    returns (r: Result<seq<CombinedSeries>, QueryError>)
    ensures r == GexpQuery(eArray, startMs, endMs, arrays, ms, showTsuids, backend, matcher, number)
  {
    ghost var rs := Answers(eArray, startMs, endMs, arrays, ms, showTsuids, backend, matcher, number);
    ghost var answers: seq<seq<CombinedSeries>> := [];
    var ret: seq<CombinedSeries> := [];
    for a := 0 to |eArray|
      invariant Collected(rs[..a]) == Ok(answers) && ret == Flatten(answers)
    {
      var mapped := GexpExpression(eArray[a], startMs, endMs, arrays, ms, showTsuids, backend, matcher, number);
      AnswersAt(eArray, startMs, endMs, arrays, ms, showTsuids, backend, matcher, number, a);
      CollectStep(rs, a, answers, mapped);
      if mapped.Err? {
        return Err(mapped.error);
      }
      FlattenSnoc(answers, mapped.value);
      answers := answers + [mapped.value];
      ret := ret + mapped.value;
    }
    CollectedAll(rs, answers);
    r := Ok(ret);
  }

  // ---------------------------------------------------------------------------
  // Properties
  // ---------------------------------------------------------------------------

  /** Every series an expression answers carries the expression as its
      metric and the `dps` form the request asks for; the union functions'
      results converted to arrays are sorted by time. */
  lemma EvaluateShape(exp: string, f: GexpFunction, metrics: seq<string>, index: nat, startMs: int, endMs: int,
                      arrays: bool, ms: bool, showTsuids: bool, backend: Backend, matcher: Matcher,
                      number: string -> real)
    requires Evaluate(exp, f, metrics, index, startMs, endMs, arrays, ms, showTsuids, backend, matcher, number).Ok?
    ensures var ret := Evaluate(exp, f, metrics, index, startMs, endMs, arrays, ms, showTsuids, backend, matcher, number).value;
      forall k :: 0 <= k < |ret| ==>
        && ret[k].metric == exp
        && (ret[k].dps.Pairs? <==> arrays)
        && (arrays && !ArrayOutput(f) ==> TimesIncreasing(ret[k].dps.points))
  {
    var extraArg := if TakesExtraArg(f) then Some(ExtraArg(exp, index)) else None;
    var jsons := MetricResults(metrics, startMs, endMs, ArrayOutput(f), ms, showTsuids, backend, matcher).value;
    MetricResultsForm(metrics, startMs, endMs, ArrayOutput(f), ms, showTsuids, backend, matcher);
    OutputShape(Process(f, jsons, extraArg, number).value, exp, arrays, ArrayOutput(f));
  }

  lemma OutputShape(mappedResults: seq<CombinedSeries>, exp: string, arrays: bool, arrayOutput: bool)
    requires forall k :: 0 <= k < |mappedResults| ==> (mappedResults[k].dps.Pairs? <==> arrayOutput)
    ensures var ret := Converted(Renamed(mappedResults, exp), arrays, arrayOutput);
      forall k :: 0 <= k < |ret| ==>
        && ret[k].metric == exp
        && (ret[k].dps.Pairs? <==> arrays)
        && (arrays && !arrayOutput ==> TimesIncreasing(ret[k].dps.points))
  {
    var renamed := Renamed(mappedResults, exp);
    var ret := Converted(renamed, arrays, arrayOutput);
    forall k | 0 <= k < |ret|
      ensures ret[k].metric == exp
      ensures arrays && !arrayOutput ==> TimesIncreasing(ret[k].dps.points)
    {
      assert renamed[k].metric == exp;
    }
  }

  lemma GexpAnswerShape(exp: string, startMs: int, endMs: int, arrays: bool, ms: bool, showTsuids: bool,
                        backend: Backend, matcher: Matcher, number: string -> real)
    requires GexpAnswer(exp, startMs, endMs, arrays, ms, showTsuids, backend, matcher, number).Ok?
    ensures var ret := GexpAnswer(exp, startMs, endMs, arrays, ms, showTsuids, backend, matcher, number).value;
      forall k :: 0 <= k < |ret| ==>
        && ret[k].metric == exp
        && (ret[k].dps.Pairs? <==> arrays)
        && (arrays && !ArrayOutput(Lookup(FunctionName(exp)).value) ==> TimesIncreasing(ret[k].dps.points))
  {
    var func := FunctionName(exp);
    var f := Lookup(func).value;
    var scanned := Scan(exp, |func| + 1, 0, MaxMetrics(f)).value;
    EvaluateShape(exp, f, scanned.0, scanned.1, startMs, endMs, arrays, ms, showTsuids, backend, matcher, number);
  }

  /** The failures after scanning: a failing metric query or the function's own failure. */
  lemma EvaluateFailure(exp: string, f: GexpFunction, metrics: seq<string>, index: nat, startMs: int, endMs: int,
                        arrays: bool, ms: bool, showTsuids: bool, backend: Backend, matcher: Matcher,
                        number: string -> real)
    requires Evaluate(exp, f, metrics, index, startMs, endMs, arrays, ms, showTsuids, backend, matcher, number).Err?
    ensures var e := Evaluate(exp, f, metrics, index, startMs, endMs, arrays, ms, showTsuids, backend, matcher, number).error;
      || e == NoAggregatorSeparator || e.MissingTagValue? || e.WildcardTagValue?
      || e.MissingDownsampleUnit? || e.UnmodelledGrid? || e.UnrecognizedAggregator?
      || e == NoSeries(Name(f)) || e == NullResult(Name(f)) || e == UnsupportedFunction(Name(f))
  {
    var js := MetricResults(metrics, startMs, endMs, ArrayOutput(f), ms, showTsuids, backend, matcher);
    if js.Err? {
      var m := MetricResultsFailure(metrics, startMs, endMs, ArrayOutput(f), ms, showTsuids, backend, matcher);
      SingleQueryFailure(startMs, endMs, metrics[m], ArrayOutput(f), ms, showTsuids, backend, matcher);
    } else {
      MetricResultsForm(metrics, startMs, endMs, ArrayOutput(f), ms, showTsuids, backend, matcher);
    }
  }

  /** The ways an expression fails: a name without an entry (exactly then
      `UnknownFunction`), `metrics.append` in the scanner, a failing metric
      query, or the function's own failure. */
  lemma GexpAnswerFailure(exp: string, startMs: int, endMs: int, arrays: bool, ms: bool, showTsuids: bool,
                          backend: Backend, matcher: Matcher, number: string -> real)
    requires GexpAnswer(exp, startMs, endMs, arrays, ms, showTsuids, backend, matcher, number).Err?
    ensures var e := GexpAnswer(exp, startMs, endMs, arrays, ms, showTsuids, backend, matcher, number).error;
      var func := FunctionName(exp);
      && (e == UnknownFunction(func) <==> Lookup(func).None?)
      && (|| e == UnknownFunction(func) || e == MetricsAppend
          || e == NoAggregatorSeparator || e.MissingTagValue? || e.WildcardTagValue?
          || e.MissingDownsampleUnit? || e.UnmodelledGrid? || e.UnrecognizedAggregator?
          || e == NoSeries(func) || e == NullResult(func) || e == UnsupportedFunction(func))
  {
    var func := FunctionName(exp);
    if Lookup(func).Some? {
      var f := Lookup(func).value;
      var s := Scan(exp, |func| + 1, 0, MaxMetrics(f));
      if s.Ok? {
        EvaluateFailure(exp, f, s.value.0, s.value.1, startMs, endMs, arrays, ms, showTsuids, backend, matcher, number);
      }
    }
  }

  /** `absolute` answers no negative value. */
  lemma AbsoluteNonNegative(exp: string, metrics: seq<string>, index: nat, startMs: int, endMs: int, ms: bool,
                            showTsuids: bool, backend: Backend, matcher: Matcher, number: string -> real)
    requires Evaluate(exp, Absolute, metrics, index, startMs, endMs, true, ms, showTsuids, backend, matcher, number).Ok?
    ensures var ret := Evaluate(exp, Absolute, metrics, index, startMs, endMs, true, ms, showTsuids, backend, matcher, number).value;
      forall k, i :: 0 <= k < |ret| && 0 <= i < |ret[k].dps.points| ==> ret[k].dps.points[i].value >= 0.0
  {
    var jsons := MetricResults(metrics, startMs, endMs, true, ms, showTsuids, backend, matcher).value;
    MetricResultsForm(metrics, startMs, endMs, true, ms, showTsuids, backend, matcher);
    var mapped := MapAll(jsons[0], AbsoluteValue);
    var ret := Converted(Renamed(mapped, exp), true, true);
    forall k | 0 <= k < |ret| ensures ret[k].dps == mapped[k].dps {
    }
  }

  /** The example of index.js:1060-1068 as a whole expression: the name is
      `sumSeries`, found in the table, and both metric tokens are read. */
  lemma ExampleExpression(exp: string, h1: string, h2: string, g: string)
    requires h1 == "sum:cpu.percent" && h2 == "sum:ifstat.bytes" && g == "host=*"
    requires exp == "sumSeries(" + (h1 + "{" + g + "}") + "," + (h2 + "{" + g + "}") + ")"
    ensures FunctionName(exp) == "sumSeries" && Lookup(FunctionName(exp)) == Some(SumSeries)
    ensures Scan(exp, |FunctionName(exp)| + 1, 0, MaxMetrics(SumSeries))
         == Ok(([h1 + "{" + g + "}", h2 + "{" + g + "}"], |exp|))
  {
    var rest := (h1 + "{" + g + "}") + "," + (h2 + "{" + g + "}") + ")";
    assert exp == "sumSeries" + ['('] + rest;
    IndexOfAfterFree("sumSeries", '(', rest);
    assert exp[..9] == "sumSeries";
    LookupName(SumSeries);
    ExampleTrace(exp, h1, h2, g);
  }
}
