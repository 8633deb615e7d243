/** The metric-token parser at the top of `performSingleMetricQuery`
    (index.js:339-385): `agg:[rate:][downsample:]metric[{k=v|v,...}]` becomes
    an aggregator, a rate flag, a downsample spec, a metric name and a list of
    `literal_or` filters. */
module MetricToken {
  import opened Wrappers
  import opened JsStrings
  import opened Series

  /** The parsed token. `downsample` is `None` where the code leaves
      `downsampled` at `false`. */
  datatype MetricQuery = MetricQuery(
    aggregator: string,
    rate: bool,
    downsample: Option<string>,
    metric: string,
    filters: seq<Filter>)

  /** One `k=v` or `k=v1|v2` piece of the tag string (index.js:369-381). A
      one-character `indexOf(...) >= 0` is a membership test. */
  function TagFilter(piece: string): Result<Filter, QueryError>
  {
    var kv := Split(piece, '=');
    if |kv| < 2 then Err(MissingTagValue(piece))
    else if '*' in kv[1] then Err(WildcardTagValue(kv[0]))
    else if '|' in kv[1] then Ok(Filter(kv[0], LiteralOr, Values(Split(kv[1], '|')), true))
    else Ok(Filter(kv[0], LiteralOr, Values([kv[1]]), true))
  }

  /** The loop over the pieces; the first failing piece ends the parse. */
  function TagFilters(pieces: seq<string>): (r: Result<seq<Filter>, QueryError>)
    ensures r.Ok? ==> |r.value| == |pieces|
    ensures r.Err? ==> r.error.MissingTagValue? || r.error.WildcardTagValue?
    ensures r.Ok? ==> forall i :: 0 <= i < |r.value| ==>
      r.value[i].ftype == LiteralOr && r.value[i].spec.Values? && r.value[i].groupBy
  {
    if |pieces| == 0 then Ok([])
    else
      var f :- TagFilter(pieces[0]);
      var rest :- TagFilters(pieces[1..]);
      Ok([f] + rest)
  }

  /** index.js:355-383: the metric name and the filters of the last segment. */
  function MetricAndFilters(metricAndTags: string): Result<(string, seq<Filter>), QueryError>
  {
    var openCurly := IndexOf(metricAndTags, '{', 0);
    if openCurly < 0 then Ok((metricAndTags, []))
    else
      var metric := Substring(metricAndTags, 0, openCurly);
      var afterCurly := metricAndTags[openCurly + 1..];
      var tagString := Substring(afterCurly, 0, |afterCurly| - 1);
      if tagString == "" then Ok((metric, []))
      else
        var filters :- TagFilters(Split(tagString, ','));
        Ok((metric, filters))
  }

  /** index.js:339-385. */
  function ParseMetric(m: string): Result<MetricQuery, QueryError>
  {
    var cs := Split(m, ':');
    if |cs| < 2 then Err(NoAggregatorSeparator)
    else
      var rate := StartsWith(cs[1], "rate");
      var downsample :=
        if rate then (if |cs| == 4 then Some(cs[2]) else None)
        else (if |cs| == 3 then Some(cs[1]) else None);
      var mf :- MetricAndFilters(cs[|cs| - 1]);
      Ok(MetricQuery(cs[0], rate, downsample, mf.0, mf.1))
  }

  // ---------------------------------------------------------------------------
  // Properties
  // ---------------------------------------------------------------------------

  /** A malformed token fails in one of three ways: no `:` at all, a tag
      piece without `=`, or a wildcard tag value. */
  lemma ParseMetricFailure(m: string)
    requires ParseMetric(m).Err?
    ensures var e := ParseMetric(m).error;
      e == NoAggregatorSeparator || e.MissingTagValue? || e.WildcardTagValue?
  {
  }

  /** Every filter the parser builds is a `literal_or` over a value list
      with `group_by` set. */
  lemma ParsedFiltersAreLiteral(m: string)
    requires ParseMetric(m).Ok?
    ensures var fs := ParseMetric(m).value.filters;
      forall i :: 0 <= i < |fs| ==> fs[i].ftype == LiteralOr && fs[i].spec.Values? && fs[i].groupBy
  {
  }

  /** The parse fails at once iff the token has no `:`; otherwise the
      aggregator is the text before the first `:`. */
  lemma AggregatorBeforeFirstColon(m: string)
    ensures ParseMetric(m) == Err(NoAggregatorSeparator) <==> ':' !in m
    ensures ParseMetric(m).Ok? ==> 0 <= IndexOf(m, ':', 0) && ParseMetric(m).value.aggregator == m[..IndexOf(m, ':', 0)]
  {
    SplitSingle(m, ':');
    if ':' in m {
      SplitFirst(m, ':');
    }
  }

  /** The fields of a parsed token by its `:`-separated segments: the rate
      flag is whether the second segment starts with `rate`; a downsample
      spec is present exactly with four segments and a rate or three without
      one, and is then the last segment but one; the metric is the last
      segment up to its first `{` (all of it when it has none) and holds
      neither `:` nor `{`. */
  lemma ParseMetricSegments(m: string)
    requires ParseMetric(m).Ok?
    ensures var cs := Split(m, ':'); var q := ParseMetric(m).value;
      && |cs| >= 2 && q.aggregator == cs[0]
      && (q.rate <==> StartsWith(cs[1], "rate"))
      && (q.downsample.Some? <==> (q.rate && |cs| == 4) || (!q.rate && |cs| == 3))
      && (q.downsample.Some? ==> q.downsample.value == cs[|cs| - 2])
      && q.metric <= cs[|cs| - 1]
      && ':' !in q.metric && '{' !in q.metric
      && (q.metric == cs[|cs| - 1] <==> '{' !in cs[|cs| - 1])
  {
    var cs := Split(m, ':');
    assert ':' !in cs[|cs| - 1];
    MetricOfLastSegment(cs[|cs| - 1]);
  }

  /** The metric name that `MetricAndFilters` cuts from the last segment. */
  lemma MetricOfLastSegment(mt: string)
    requires MetricAndFilters(mt).Ok?
    ensures var metric := MetricAndFilters(mt).value.0;
      && metric <= mt && '{' !in metric
      && (':' !in mt ==> ':' !in metric)
      && (metric == mt <==> '{' !in mt)
  {
    var openCurly := IndexOf(mt, '{', 0);
    IndexOfFirst(mt, '{', 0);
    if openCurly >= 0 {
      assert MetricAndFilters(mt).value.0 == mt[..openCurly];
    } else {
      assert MetricAndFilters(mt).value.0 == mt;
    }
  }

  /** A tag value holding `*` ends the parse with the `allTagValues` error
      (index.js:372); a piece without `=` with the `kv[1]` error. */
  lemma TagFilterErrors(key: string, value: string)
    requires '=' !in key && '=' !in value
    ensures '*' in value ==> TagFilter(key + "=" + value) == Err(WildcardTagValue(key))
    ensures TagFilter(key) == Err(MissingTagValue(key))
  {
    SplitAfterSeparatorFree(key, value, '=');
    SplitOfSeparatorFree(value, '=');
    SplitOfSeparatorFree(key, '=');
  }

  /** `{}` yields no filters. */
  lemma EmptyBracesNoFilters(agg: string, metric: string)
    requires ':' !in agg && ':' !in metric && '{' !in metric
    ensures ParseMetric(agg + ":" + metric + "{}") ==
      Ok(MetricQuery(agg, StartsWith(metric + "{}", "rate"), None, metric, []))
  {
    var mt := metric + "{}";
    assert ':' !in mt by {
      assert forall i :: 0 <= i < |mt| ==> mt[i] == (if i < |metric| then metric[i] else "{}"[i - |metric|]);
    }
    SplitAfterSeparatorFree(agg, mt, ':');
    SplitOfSeparatorFree(mt, ':');
    assert agg + ":" + metric + "{}" == agg + [':'] + mt;
    IndexOfAfterFree(metric, '{', "}");
    assert mt == metric + ['{'] + "}";
  }

  /** A metric name starting with `rate` and no downsample reads as a rate query. */
  lemma MetricNamedRateQuirk(agg: string, metric: string)
    requires ':' !in agg && ':' !in metric && '{' !in metric
    requires StartsWith(metric, "rate")
    ensures ParseMetric(agg + ":" + metric) == Ok(MetricQuery(agg, true, None, metric, []))
  {
    SplitAfterSeparatorFree(agg, metric, ':');
    SplitOfSeparatorFree(metric, ':');
    assert agg + ":" + metric == agg + [':'] + metric;
  }

  // ---------------------------------------------------------------------------
  // Round trip
  // ---------------------------------------------------------------------------

  /** One tag key with its alternative values. */
  datatype TagSpec = TagSpec(key: string, values: seq<string>)

  function TagPiece(t: TagSpec): string
  {
    t.key + "=" + Join(t.values, '|')
  }

  function TagPieces(tags: seq<TagSpec>): (ps: seq<string>)
    ensures |ps| == |tags|
    ensures forall i :: 0 <= i < |tags| ==> ps[i] == TagPiece(tags[i])
  {
    seq(|tags|, i requires 0 <= i < |tags| => TagPiece(tags[i]))
  }

  function MetricAndTags(metric: string, tags: seq<TagSpec>): string
  {
    if |tags| == 0 then metric else metric + "{" + Join(TagPieces(tags), ',') + "}"
  }

  /** The token a client writes for these parts. */
  function FormatMetric(agg: string, rate: bool, downsample: Option<string>, metric: string, tags: seq<TagSpec>): string
  {
    Join(Segments(agg, rate, downsample, MetricAndTags(metric, tags)), ':')
  }

  /** The `:`-separated segments of a token. */
  function Segments(agg: string, rate: bool, downsample: Option<string>, mt: string): (segs: seq<string>)
    ensures |segs| == 2 + (if rate then 1 else 0) + (if downsample.Some? then 1 else 0)
    ensures segs[0] == agg && segs[|segs| - 1] == mt
    ensures rate ==> segs[1] == "rate"
    ensures downsample.Some? ==> segs[|segs| - 2] == downsample.value
  {
    [agg] + (if rate then ["rate"] else []) + (if downsample.Some? then [downsample.value] else []) + [mt]
  }

  /** The filters the parser is to produce for these tags. */
  function LiteralFilters(tags: seq<TagSpec>): (fs: seq<Filter>)
    ensures |fs| == |tags|
  {
    seq(|tags|, i requires 0 <= i < |tags| => Filter(tags[i].key, LiteralOr, Values(tags[i].values), true))
  }

  /** Parts the grammar can carry: no separator inside any part, at least one
      value per key, and no segment after the aggregator that would be
      mistaken for the `rate` segment. */
  predicate Formattable(agg: string, rate: bool, downsample: Option<string>, metric: string, tags: seq<TagSpec>)
  {
    && FreeOf(agg, {':'})
    && FreeOf(metric, {':', '{'})
    && (downsample.Some? ==> FreeOf(downsample.value, {':'}))
    && (!rate && downsample.Some? ==> !StartsWith(downsample.value, "rate"))
    && (!rate && downsample.None? ==> !StartsWith(metric, "rate"))
    && forall i :: 0 <= i < |tags| ==>
         && FreeOf(tags[i].key, {':', ',', '='})
         && |tags[i].values| >= 1
         && forall j :: 0 <= j < |tags[i].values| ==> FreeOf(tags[i].values[j], {':', ',', '=', '|', '*'})
  }

  /** Parsing a formatted token gives its parts back, each tag as a
      `literal_or` filter over its values with `group_by` set. */
  lemma ParseFormatRoundTrip(agg: string, rate: bool, downsample: Option<string>, metric: string, tags: seq<TagSpec>)
    requires Formattable(agg, rate, downsample, metric, tags)
    ensures ParseMetric(FormatMetric(agg, rate, downsample, metric, tags))
      == Ok(MetricQuery(agg, rate, downsample, metric, LiteralFilters(tags)))
  {
    var mt := MetricAndTags(metric, tags);
    MetricAndTagsShape(metric, tags);
    var cs := Segments(agg, rate, downsample, mt);
    SegmentsSplit(agg, rate, downsample, mt);
    assert StartsWith(cs[1], "rate") == rate by {
      if !rate && downsample.None? {
        NotRatePrefix(metric, tags);
      }
    }
    MetricAndFiltersRoundTrip(metric, tags);
  }

  /** Splitting the joined segments gives them back when none holds a `:`. */
  lemma SegmentsSplit(agg: string, rate: bool, downsample: Option<string>, mt: string)
    requires ':' !in agg && ':' !in mt
    requires downsample.Some? ==> ':' !in downsample.value
    ensures Split(Join(Segments(agg, rate, downsample, mt), ':'), ':') == Segments(agg, rate, downsample, mt)
  {
    var segs := Segments(agg, rate, downsample, mt);
    forall i | 0 <= i < |segs| ensures ':' !in segs[i] {
      if 0 < i < |segs| - 1 && !(rate && i == 1) {
        assert downsample.Some? && segs[i] == downsample.value;
      }
    }
    SplitOfJoin(segs, ':');
  }

  lemma MetricAndFiltersRoundTrip(metric: string, tags: seq<TagSpec>)
    requires FreeOf(metric, {':', '{'})
    requires forall i :: 0 <= i < |tags| ==>
      FreeOf(tags[i].key, {':', ',', '='}) && |tags[i].values| >= 1 &&
      forall j :: 0 <= j < |tags[i].values| ==> FreeOf(tags[i].values[j], {':', ',', '=', '|', '*'})
    ensures MetricAndFilters(MetricAndTags(metric, tags)) == Ok((metric, LiteralFilters(tags)))
  {
    var mt := MetricAndTags(metric, tags);
    MetricAndTagsShape(metric, tags);
    if |tags| > 0 {
      TagStringRoundTrip(tags);
      var ts := Join(TagPieces(tags), ',');
      var afterCurly := mt[|metric| + 1..];
      assert afterCurly == ts + "}";
      assert Substring(afterCurly, 0, |afterCurly| - 1) == ts;
      assert Substring(mt, 0, |metric|) == metric;
    } else {
      assert LiteralFilters(tags) == [];
    }
  }

  /** The last segment holds no `:`, and with tags its first `{` ends the metric. */
  lemma MetricAndTagsShape(metric: string, tags: seq<TagSpec>)
    requires FreeOf(metric, {':', '{'})
    requires forall i :: 0 <= i < |tags| ==>
      FreeOf(tags[i].key, {':', ',', '='}) &&
      forall j :: 0 <= j < |tags[i].values| ==> FreeOf(tags[i].values[j], {':', ',', '=', '|', '*'})
    ensures ':' !in MetricAndTags(metric, tags)
    ensures |tags| == 0 ==> IndexOf(MetricAndTags(metric, tags), '{', 0) == -1
    ensures |tags| > 0 ==>
      MetricAndTags(metric, tags) == metric + ['{'] + (Join(TagPieces(tags), ',') + "}") &&
      IndexOf(MetricAndTags(metric, tags), '{', 0) == |metric|
  {
    var mt := MetricAndTags(metric, tags);
    if |tags| > 0 {
      var ts := Join(TagPieces(tags), ',');
      PiecesFree(tags, ':');
      InJoin(TagPieces(tags), ',', ':');
      assert mt == metric + ['{'] + (ts + "}");
      IndexOfAfterFree(metric, '{', ts + "}");
      assert ':' !in mt by {
        assert forall i :: 0 <= i < |mt| ==>
          mt[i] == (if i < |metric| then metric[i] else if i == |metric| then '{' else if i < |mt| - 1 then ts[i - |metric| - 1] else '}');
      }
    } else {
      assert forall j :: 0 <= j < |mt| ==> mt[j] != '{';
    }
  }

  /** No piece holds `c` when no key or value does. */
  lemma PiecesFree(tags: seq<TagSpec>, c: char)
    requires c == ':' || c == ','
    requires forall i :: 0 <= i < |tags| ==>
      FreeOf(tags[i].key, {':', ',', '='}) &&
      forall j :: 0 <= j < |tags[i].values| ==> FreeOf(tags[i].values[j], {':', ',', '=', '|', '*'})
    ensures forall i :: 0 <= i < |tags| ==> c !in TagPieces(tags)[i]
  {
    forall i | 0 <= i < |tags| ensures c !in TagPieces(tags)[i] {
      var t := tags[i];
      InJoin(t.values, '|', c);
      assert c !in Join(t.values, '|');
      var p := TagPiece(t);
      assert p == t.key + ['='] + Join(t.values, '|');
      assert forall k :: 0 <= k < |p| ==>
        p[k] == (if k < |t.key| then t.key[k] else if k == |t.key| then '=' else Join(t.values, '|')[k - |t.key| - 1]);
    }
  }

  /** With no `rate` segment, the last segment does not start with `rate`. */
  lemma NotRatePrefix(metric: string, tags: seq<TagSpec>)
    requires !StartsWith(metric, "rate")
    ensures !StartsWith(MetricAndTags(metric, tags), "rate")
  {
    var mt := MetricAndTags(metric, tags);
    if |tags| > 0 {
      if |metric| >= 4 {
        assert mt[..4] == metric[..4];
      } else {
        assert mt[|metric|] == '{';
      }
    }
  }

  /** The tag string of formatted tags parses back into their filters. */
  lemma TagStringRoundTrip(tags: seq<TagSpec>)
    requires |tags| > 0
    requires forall i :: 0 <= i < |tags| ==>
      FreeOf(tags[i].key, {':', ',', '='}) && |tags[i].values| >= 1 &&
      forall j :: 0 <= j < |tags[i].values| ==> FreeOf(tags[i].values[j], {':', ',', '=', '|', '*'})
    ensures Join(TagPieces(tags), ',') != ""
    ensures TagFilters(Split(Join(TagPieces(tags), ','), ',')) == Ok(LiteralFilters(tags))
  {
    var ps := TagPieces(tags);
    PiecesFree(tags, ',');
    SplitOfJoin(ps, ',');
    assert '=' in ps[0] by {
      assert ps[0] == tags[0].key + ['='] + Join(tags[0].values, '|');
      assert ps[0][|tags[0].key|] == '=';
    }
    assert '=' in Join(ps, ',') by {
      InJoin(ps, ',', '=');
    }
    forall i | 0 <= i < |tags| ensures TagFilter(ps[i]) == Ok(LiteralFilters(tags)[i]) {
      TagPieceRoundTrip(tags[i]);
    }
    TagFiltersAll(ps, LiteralFilters(tags));
  }

  lemma TagPieceRoundTrip(t: TagSpec)
    requires FreeOf(t.key, {':', ',', '='}) && |t.values| >= 1
    requires forall j :: 0 <= j < |t.values| ==> FreeOf(t.values[j], {':', ',', '=', '|', '*'})
    ensures TagFilter(TagPiece(t)) == Ok(Filter(t.key, LiteralOr, Values(t.values), true))
  {
    var v := Join(t.values, '|');
    InJoin(t.values, '|', '=');
    InJoin(t.values, '|', '*');
    assert TagPiece(t) == t.key + ['='] + v;
    SplitAfterSeparatorFree(t.key, v, '=');
    SplitOfSeparatorFree(v, '=');
    SplitOfJoin(t.values, '|');
    if |t.values| >= 2 {
      assert v == t.values[0] + ['|'] + Join(t.values[1..], '|');
      assert v[|t.values[0]|] == '|';
    } else {
      assert v == t.values[0];
      assert [t.values[0]] == t.values;
    }
  }

  lemma {:induction false} TagFiltersAll(pieces: seq<string>, fs: seq<Filter>)
    requires |pieces| == |fs|
    requires forall i :: 0 <= i < |pieces| ==> TagFilter(pieces[i]) == Ok(fs[i])
    ensures TagFilters(pieces) == Ok(fs)
  {
    if |pieces| > 0 {
      TagFiltersAll(pieces[1..], fs[1..]);
      assert [fs[0]] + fs[1..] == fs;
    }
  }
}
