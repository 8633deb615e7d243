/** `performSingleMetricQuery` (index.js:338-619): one `m` token of a query
    is parsed, its series fetched, filtered, grouped into tag sets, and each
    tag set with participants becomes one combined series of the answer. */
module SingleMetricQuery {
  import opened Wrappers
  import opened Series
  import opened Sequences
  import opened Filtering
  import opened TagSets
  import opened MetricToken
  import opened BucketGrid
  import opened Combiner

  /** `backend.performBackendQueries(startTime, endTime, ms, downsampled, metric, filters)`. */
  type Backend = (int, int, bool, Option<string>, string, seq<Filter>) -> seq<RawSeries>

  /** A recognised downsample number left unscaled by an unknown unit: the
      JavaScript keeps the `match` array and `t += ...` concatenates strings. */
  predicate ConcatenatingGrid(m: string, ms: bool)
  {
    match ParseMetric(m)
    case Err(_) => false
    case Ok(q) =>
      match Width(q.downsample, ms)
      case Ok(Unscaled(n)) => n > 0
      case _ => false
  }

  /** The number the combination loop steps by. A recognised number with an
      unrecognised unit stays the `match` array, and `t += ...` then
      concatenates strings (index.js:483, 515): that grid is left out and
      answers `UnmodelledGrid`. An unscaled zero makes every time stamp
      `NaN`, so there are no buckets (width 0). */
  function GridWidth(downsample: Option<string>, ms: bool): (r: Result<nat, QueryError>)
    ensures (r.Err? && r.error.UnmodelledGrid?) <==>
              (Width(downsample, ms).Ok? && Width(downsample, ms).value.Unscaled? && Width(downsample, ms).value.number > 0)
    ensures Width(downsample, ms).Err? ==> r == Err(Width(downsample, ms).error)
    ensures Width(downsample, ms).Ok? && Width(downsample, ms).value.Scaled? ==> r == Ok(Width(downsample, ms).value.width)
  {
    var bw :- Width(downsample, ms);
    match bw
    case Scaled(x) => Ok(x)
    case Unscaled(n) => if n > 0 then Err(UnmodelledGrid(downsample.value)) else Ok(0)
  }

  /** The times `t` the combination loop visits: none when the first time
      stamp is `NaN` (a zero width). */
  function BucketTimes(startMs: int, endMs: int, w: nat, ms: bool): seq<int>
  {
    match FirstTimeStamp(startMs, w, ms)
    case None => []
    case Some(first) => if w > 0 then Grid(first, w, endMs, Denominator(ms)) else []
  }

  /** The `tsuid` of each participant, in order. */
  function Tsuids(ps: seq<RawSeries>): (ids: seq<string>)
    ensures |ids| == |ps|
    ensures forall i :: 0 <= i < |ps| ==> ids[i] == ps[i].tsuid
  {
    seq(|ps|, i requires 0 <= i < |ps| => ps[i].tsuid)
  }

  /** The answer for one tag set: nothing without participants, otherwise
      the combination of the participants that have points. */
  function TagSetAnswer(series: seq<RawSeries>, tagset: Tags, q: MetricQuery, h: seq<int>,
                        arrays: bool, showTsuids: bool): Result<Option<CombinedSeries>, QueryError>
  {
    var participants := SeriesForTagSet(series, tagset);
    if |participants| == 0 then Ok(None)
    else
      var dps :- CombinedDps(NonEmpty(participants), q.aggregator, h, arrays);
      Ok(Some(CombinedSeries(q.metric, tagset, AggregatedTags(participants, tagset), dps,
                             if showTsuids then Some(Tsuids(participants)) else None)))
  }

  /** The answers of the tag sets in order; the first failure ends the query. */
  function Answers(series: seq<RawSeries>, tagsets: seq<Tags>, q: MetricQuery, h: seq<int>,
                   arrays: bool, showTsuids: bool): Result<seq<CombinedSeries>, QueryError>
    decreases |tagsets|
  {
    if |tagsets| == 0 then Ok([])
    else
      var prev :- Answers(series, tagsets[..|tagsets| - 1], q, h, arrays, showTsuids);
      var a :- TagSetAnswer(series, tagsets[|tagsets| - 1], q, h, arrays, showTsuids);
      Ok(prev + if a.Some? then [a.value] else [])
  }

  /** What `performSingleMetricQuery` returns, or the exception it ends in.
      The width is the same for every tag set and there is always at least
      one, so its failure comes before any tag set's. */
  function SingleQuery(startMs: int, endMs: int, m: string, arrays: bool, ms: bool, showTsuids: bool,
                       backend: Backend, matcher: Matcher): Result<seq<CombinedSeries>, QueryError>
  {
    var q :- ParseMetric(m);
    var series := ApplyFilters(backend(startMs, endMs, ms, q.downsample, q.metric, q.filters), q.filters, matcher);
    var w :- GridWidth(q.downsample, ms);
    Answers(series, UniqueTagSets(series, q.filters), q, BucketTimes(startMs, endMs, w, ms), arrays, showTsuids)
  }

  /** index.js:492-498. */
  method CollectTsuids(participatingTimeSeries: seq<RawSeries>) returns (tsuids: seq<string>)
    ensures tsuids == Tsuids(participatingTimeSeries)
  {
    tsuids := [];
    for p := 0 to |participatingTimeSeries|
      invariant tsuids == Tsuids(participatingTimeSeries[..p])
    {
      tsuids := tsuids + [participatingTimeSeries[p].tsuid];
    }
    assert participatingTimeSeries[..|participatingTimeSeries|] == participatingTimeSeries;
  }

  /** The parsed filters are plain `literal_or` lists: building their
      predicates never throws and does not change them. */
  lemma ParsedFiltersSafe(m: string)
    requires ParseMetric(m).Ok?
    ensures var fs := ParseMetric(m).value.filters;
      FirstThrowing(fs) == |fs| && PrepareAll(fs) == fs
  {
    var fs := ParseMetric(m).value.filters;
    ParsedFiltersAreLiteral(m);
    FirstThrowingNone(fs);
  }

  /** A failure at some prefix of the tag sets is the failure of all of them. */
  lemma {:induction false} AnswersErrExtends(series: seq<RawSeries>, tagsets: seq<Tags>, q: MetricQuery,
                                             h: seq<int>, arrays: bool, showTsuids: bool, m: nat)
    requires m <= |tagsets|
    requires Answers(series, tagsets[..m], q, h, arrays, showTsuids).Err?
    ensures Answers(series, tagsets, q, h, arrays, showTsuids) == Answers(series, tagsets[..m], q, h, arrays, showTsuids)
    decreases |tagsets|
  {
    if m == |tagsets| {
      assert tagsets[..m] == tagsets;
    } else {
      var p := tagsets[..|tagsets| - 1];
      assert p[..m] == tagsets[..m];
      AnswersErrExtends(series, p, q, h, arrays, showTsuids, m);
    }
  }

  /** One more tag set: its answer, if any, is appended. */
  lemma AnswersSnoc(series: seq<RawSeries>, tagsets: seq<Tags>, k: nat, q: MetricQuery, h: seq<int>,
                    arrays: bool, showTsuids: bool, prev: seq<CombinedSeries>)
    requires k < |tagsets| && Answers(series, tagsets[..k], q, h, arrays, showTsuids) == Ok(prev)
    ensures Answers(series, tagsets[..k + 1], q, h, arrays, showTsuids) ==
      match TagSetAnswer(series, tagsets[k], q, h, arrays, showTsuids)
      case Err(e) => Err(e)
      case Ok(a) => Ok(prev + if a.Some? then [a.value] else [])
  {
    assert tagsets[..k + 1][..k] == tagsets[..k];
  }

  /** index.js:412-414: the backend's series, filtered in place, and their
      tag sets. */
  method FetchAndGroup(startMs: int, endMs: int, m: string, q: MetricQuery, ms: bool,
                       backend: Backend, matcher: Matcher)
    returns (series: seq<RawSeries>, tagsets: seq<Tags>)
    requires ParseMetric(m) == Ok(q)
    ensures series == ApplyFilters(backend(startMs, endMs, ms, q.downsample, q.metric, q.filters), q.filters, matcher)
    ensures tagsets == UniqueTagSets(series, q.filters) && |tagsets| > 0
  {
    var rawTimeSeries := new SeriesArray(backend(startMs, endMs, ms, q.downsample, q.metric, q.filters));
    var filters := new Filter[|q.filters|](i requires 0 <= i < |q.filters| => q.filters[i]);
    assert filters[..] == q.filters;
    ParsedFiltersSafe(m);
    var _ := PostBackendFiltering(rawTimeSeries, filters, matcher);
    assert q.filters[..|q.filters|] == q.filters && q.filters[|q.filters|..] == [];
    assert filters[..] == q.filters;
    series := rawTimeSeries.elems;
    tagsets := ConstructUniqueTagSets(rawTimeSeries.elems, filters[..]);
    UniqueTagSetsFallback(series, q.filters);
  }

  /** index.js:426-616 for one tag set, given the bucket width. */
  method AnswerTagSet(series: seq<RawSeries>, tagset: Tags, q: MetricQuery, w: nat,
                      startMs: int, endMs: int, ms: bool, arrays: bool, showTsuids: bool)
    returns (r: Result<Option<CombinedSeries>, QueryError>)
    ensures r == TagSetAnswer(series, tagset, q, BucketTimes(startMs, endMs, w, ms), arrays, showTsuids)
  {
    var participatingTimeSeries := RawTimeSeriesForTagSet(series, tagset);
    var aggregateTags := AggregateTags(participatingTimeSeries, tagset);
    var firstTimeStamp := FirstTimeStamp(startMs, w, ms);
    if |participatingTimeSeries| == 0 {
      return Ok(None);
    }
    var tsuids := CollectTsuids(participatingTimeSeries);
    var participants := new SeriesArray(participatingTimeSeries);
    DropEmpty(participants);
    var combinedDps: Dps;
    if w == 0 {
      combinedDps := if arrays then Pairs([]) else Keyed(map[]);
    } else {
      combinedDps :- CombineParticipants(participants.elems, q.aggregator, firstTimeStamp.value, w,
                                         endMs, Denominator(ms), arrays);
    }
    r := Ok(Some(CombinedSeries(q.metric, tagset, aggregateTags, combinedDps,
                                if showTsuids then Some(tsuids) else None)));
  }

  /** index.js:424-617: the loop over the tag sets. The width is worked out
      anew for every tag set; its failure, if any, comes at the first. */
  method AnswerTagSets(series: seq<RawSeries>, tagsets: seq<Tags>, q: MetricQuery,
                       startMs: int, endMs: int, ms: bool, arrays: bool, showTsuids: bool)
    returns (r: Result<seq<CombinedSeries>, QueryError>)
    requires |tagsets| > 0
    ensures GridWidth(q.downsample, ms).Err? ==> r == Err(GridWidth(q.downsample, ms).error)
    ensures GridWidth(q.downsample, ms).Ok? ==>
      r == Answers(series, tagsets, q, BucketTimes(startMs, endMs, GridWidth(q.downsample, ms).value, ms),
                   arrays, showTsuids)
  {
    ghost var wr := GridWidth(q.downsample, ms);
    var ret: seq<CombinedSeries> := [];
    for s := 0 to |tagsets|
      invariant s > 0 ==> wr.Ok?
      invariant wr.Ok? ==> Answers(series, tagsets[..s], q, BucketTimes(startMs, endMs, wr.value, ms),
                                   arrays, showTsuids) == Ok(ret)
    {
      var w :- GridWidth(q.downsample, ms);
      ghost var h := BucketTimes(startMs, endMs, w, ms);
      var a := AnswerTagSet(series, tagsets[s], q, w, startMs, endMs, ms, arrays, showTsuids);
      AnswersSnoc(series, tagsets, s, q, h, arrays, showTsuids, ret);
      if a.Err? {
        AnswersErrExtends(series, tagsets, q, h, arrays, showTsuids, s + 1);
        return Err(a.error);
      }
      assert wr == Ok(w);
      if a.value.Some? {
        ret := ret + [a.value.value];
      } else {
        assert ret + [] == ret;
      }
    }
    assert tagsets[..|tagsets|] == tagsets;
    r := Ok(ret);
  }

  /** index.js:338-619. The annotations, the `query` echo and the verbose
      logging are not part of the answer here. */
  method PerformSingleMetricQuery(startMs: int, endMs: int, m: string, arrays: bool, ms: bool, showTsuids: bool,
                                  backend: Backend, matcher: Matcher)
    returns (r: Result<seq<CombinedSeries>, QueryError>)
    ensures r == SingleQuery(startMs, endMs, m, arrays, ms, showTsuids, backend, matcher)
  {
    var q :- ParseMetric(m);
    var series, tagsets := FetchAndGroup(startMs, endMs, m, q, ms, backend, matcher);
    r := AnswerTagSets(series, tagsets, q, startMs, endMs, ms, arrays, showTsuids);
  }

  // ---------------------------------------------------------------------------
  // Properties
  // ---------------------------------------------------------------------------

  /** The tags of each answer, in order. */
  function TagsOf(ret: seq<CombinedSeries>): (ts: seq<Tags>)
    ensures |ts| == |ret|
  {
    if |ret| == 0 then [] else TagsOf(ret[..|ret| - 1]) + [ret[|ret| - 1].tags]
  }

  lemma TagsOfSnoc(ret: seq<CombinedSeries>, c: CombinedSeries)
    ensures TagsOf(ret + [c]) == TagsOf(ret) + [c.tags]
  {
    assert (ret + [c])[..|ret|] == ret;
  }

  /** An answer for the tag set `c.tags`: it has participants, carries the
      metric, their aggregated tags, the `dps` form the `arrays` flag asks
      for and `tsuids` exactly with `show_tsuids`. */
  predicate AnswerFor(series: seq<RawSeries>, q: MetricQuery, arrays: bool, showTsuids: bool, c: CombinedSeries)
  {
    && c.metric == q.metric
    && |SeriesForTagSet(series, c.tags)| > 0
    && c.aggregatedTags == AggregatedTags(SeriesForTagSet(series, c.tags), c.tags)
    && (c.dps.Pairs? <==> arrays)
    && (c.tsuids.Some? <==> showTsuids)
  }

  /** A tag set yields an answer exactly when it has participants. */
  lemma TagSetAnswerShape(series: seq<RawSeries>, tagset: Tags, q: MetricQuery, h: seq<int>,
                          arrays: bool, showTsuids: bool)
    requires TagSetAnswer(series, tagset, q, h, arrays, showTsuids).Ok?
    ensures var a := TagSetAnswer(series, tagset, q, h, arrays, showTsuids).value;
      (a.Some? <==> |SeriesForTagSet(series, tagset)| > 0) &&
      (a.Some? ==> a.value.tags == tagset && AnswerFor(series, q, arrays, showTsuids, a.value))
  {
  }

  /** Every answer belongs to one of the tag sets, in their order, the ones
      without participants left out. */
  lemma {:induction false} AnswersShape(series: seq<RawSeries>, tagsets: seq<Tags>, q: MetricQuery, h: seq<int>,
                                        arrays: bool, showTsuids: bool)
    requires Answers(series, tagsets, q, h, arrays, showTsuids).Ok?
    ensures var ret := Answers(series, tagsets, q, h, arrays, showTsuids).value;
      IsSubsequence(TagsOf(ret), tagsets) &&
      forall i :: 0 <= i < |ret| ==> AnswerFor(series, q, arrays, showTsuids, ret[i])
    decreases |tagsets|
  {
    var ret := Answers(series, tagsets, q, h, arrays, showTsuids).value;
    if |tagsets| == 0 {
      SubsequenceReflexive(tagsets);
    } else {
      var p := tagsets[..|tagsets| - 1];
      var last := tagsets[|tagsets| - 1];
      AnswersShape(series, p, q, h, arrays, showTsuids);
      var prev := Answers(series, p, q, h, arrays, showTsuids).value;
      FrontAndLast(tagsets);
      TagSetAnswerShape(series, last, q, h, arrays, showTsuids);
      var a := TagSetAnswer(series, last, q, h, arrays, showTsuids).value;
      SubsequenceSnoc(TagsOf(prev), p, last);
      if a.Some? {
        assert ret == prev + [a.value];
        TagsOfSnoc(prev, a.value);
      } else {
        assert ret == prev;
      }
    }
  }

  /** When every tag set has participants, there is one answer per tag set,
      in the tag sets' order. */
  lemma {:induction false} AnswersCover(series: seq<RawSeries>, tagsets: seq<Tags>, q: MetricQuery, h: seq<int>,
                                        arrays: bool, showTsuids: bool)
    requires Answers(series, tagsets, q, h, arrays, showTsuids).Ok?
    requires forall i :: 0 <= i < |tagsets| ==> |SeriesForTagSet(series, tagsets[i])| > 0
    ensures TagsOf(Answers(series, tagsets, q, h, arrays, showTsuids).value) == tagsets
    decreases |tagsets|
  {
    if |tagsets| > 0 {
      var p := tagsets[..|tagsets| - 1];
      var last := tagsets[|tagsets| - 1];
      AnswersCover(series, p, q, h, arrays, showTsuids);
      var prev := Answers(series, p, q, h, arrays, showTsuids).value;
      TagSetAnswerShape(series, last, q, h, arrays, showTsuids);
      var a := TagSetAnswer(series, last, q, h, arrays, showTsuids).value;
      assert Answers(series, tagsets, q, h, arrays, showTsuids).value == prev + [a.value];
      TagsOfSnoc(prev, a.value);
      FrontAndLast(tagsets);
    }
  }

  /** The only failure once the tag sets are formed is an unrecognised
      aggregator. */
  lemma {:induction false} AnswersFailure(series: seq<RawSeries>, tagsets: seq<Tags>, q: MetricQuery, h: seq<int>,
                                          arrays: bool, showTsuids: bool)
    requires Answers(series, tagsets, q, h, arrays, showTsuids).Err?
    ensures Answers(series, tagsets, q, h, arrays, showTsuids).error == UnrecognizedAggregator(q.aggregator)
    ensures !KnownAggregator(q.aggregator)
    decreases |tagsets|
  {
    var p := tagsets[..|tagsets| - 1];
    if Answers(series, p, q, h, arrays, showTsuids).Err? {
      AnswersFailure(series, p, q, h, arrays, showTsuids);
    } else {
      var last := tagsets[|tagsets| - 1];
      var ps := NonEmpty(SeriesForTagSet(series, last));
      CombinedFails(ps, q.aggregator, h);
    }
  }

  /** The ways a single-metric query fails: a malformed token, a downsample
      spec without a unit, a string-concatenating grid (not modelled), or an
      aggregator other than the four. */
  lemma SingleQueryFailure(startMs: int, endMs: int, m: string, arrays: bool, ms: bool, showTsuids: bool,
                           backend: Backend, matcher: Matcher)
    requires SingleQuery(startMs, endMs, m, arrays, ms, showTsuids, backend, matcher).Err?
    ensures var e := SingleQuery(startMs, endMs, m, arrays, ms, showTsuids, backend, matcher).error;
      || e == NoAggregatorSeparator || e.MissingTagValue? || e.WildcardTagValue?
      || (ParseMetric(m).Ok? && ParseMetric(m).value.downsample.Some? && e == MissingDownsampleUnit(ParseMetric(m).value.downsample.value))
      || (ParseMetric(m).Ok? && e == UnrecognizedAggregator(ParseMetric(m).value.aggregator))
      || (ConcatenatingGrid(m, ms) && e == UnmodelledGrid(ParseMetric(m).value.downsample.value))
  {
    if ParseMetric(m).Ok? {
      var q := ParseMetric(m).value;
      var series := ApplyFilters(backend(startMs, endMs, ms, q.downsample, q.metric, q.filters), q.filters, matcher);
      if GridWidth(q.downsample, ms).Ok? {
        var w := GridWidth(q.downsample, ms).value;
        AnswersFailure(series, UniqueTagSets(series, q.filters), q, BucketTimes(startMs, endMs, w, ms),
                       arrays, showTsuids);
      }
    } else {
      ParseMetricFailure(m);
    }
  }

  /** The query answers `UnmodelledGrid` exactly for a token whose
      downsample number has an unrecognised unit. */
  lemma ConcatenatingGridUnmodelled(startMs: int, endMs: int, m: string, arrays: bool, ms: bool, showTsuids: bool,
                                    backend: Backend, matcher: Matcher)
    ensures var r := SingleQuery(startMs, endMs, m, arrays, ms, showTsuids, backend, matcher);
      ConcatenatingGrid(m, ms) <==> r.Err? && r.error.UnmodelledGrid?
  {
    var r := SingleQuery(startMs, endMs, m, arrays, ms, showTsuids, backend, matcher);
    if r.Err? && r.error.UnmodelledGrid? {
      SingleQueryFailure(startMs, endMs, m, arrays, ms, showTsuids, backend, matcher);
    }
  }

  /** When every series' tags are a proper object (no key twice), each tag
      set of a non-empty filtered result has participants, so the answer
      holds one series per tag set, in the tag sets' order; with no series
      left the answer is empty. */
  lemma SingleQueryOnePerTagSet(startMs: int, endMs: int, m: string, arrays: bool, ms: bool, showTsuids: bool,
                                backend: Backend, matcher: Matcher)
    requires SingleQuery(startMs, endMs, m, arrays, ms, showTsuids, backend, matcher).Ok?
    requires var q := ParseMetric(m).value;
      var raw := backend(startMs, endMs, ms, q.downsample, q.metric, q.filters);
      forall j :: 0 <= j < |raw| ==> DistinctKeys(raw[j].tags)
    ensures var q := ParseMetric(m).value;
      var series := ApplyFilters(backend(startMs, endMs, ms, q.downsample, q.metric, q.filters), q.filters, matcher);
      var ret := SingleQuery(startMs, endMs, m, arrays, ms, showTsuids, backend, matcher).value;
      (|series| > 0 ==> TagsOf(ret) == UniqueTagSets(series, q.filters)) &&
      (|series| == 0 ==> ret == [])
  {
    var q := ParseMetric(m).value;
    var raw := backend(startMs, endMs, ms, q.downsample, q.metric, q.filters);
    var series := ApplyFilters(raw, q.filters, matcher);
    var h := BucketTimes(startMs, endMs, GridWidth(q.downsample, ms).value, ms);
    assert forall j :: 0 <= j < |series| ==> DistinctKeys(series[j].tags) by {
      ApplyFiltersSelects(raw, q.filters, matcher);
      forall j | 0 <= j < |series| ensures DistinctKeys(series[j].tags) {
        assert series[j] in raw;
      }
    }
    EveryTagSetParticipates(series, q.filters);
    if |series| > 0 {
      AnswersCover(series, UniqueTagSets(series, q.filters), q, h, arrays, showTsuids);
    } else {
      var tagsets: seq<Tags> := [[]];
      assert tagsets[..0] == [];
      assert Answers(series, tagsets, q, h, arrays, showTsuids) == Ok([]);
    }
  }

  /** With proper tag objects every tag set has participants (the lone `{}`
      of an empty result has none). */
  lemma EveryTagSetParticipates(series: seq<RawSeries>, filters: seq<Filter>)
    requires forall j :: 0 <= j < |series| ==> DistinctKeys(series[j].tags)
    ensures |series| > 0 ==> forall i :: 0 <= i < |UniqueTagSets(series, filters)| ==>
      |SeriesForTagSet(series, UniqueTagSets(series, filters)[i])| > 0
    ensures |series| == 0 ==> UniqueTagSets(series, filters) == [[]] && SeriesForTagSet(series, []) == []
  {
    if |series| > 0 {
      forall i | 0 <= i < |UniqueTagSets(series, filters)|
        ensures |SeriesForTagSet(series, UniqueTagSets(series, filters)[i])| > 0
      {
        EveryTagSetHasParticipant(series, filters, i);
      }
    } else {
      UniqueTagSetsFallback(series, filters);
    }
  }
}
