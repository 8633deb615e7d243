/** The entities the query engine passes around: raw series from the backend,
    tag filters, tag sets and the combined series it answers with. */
module Series {
  import opened Wrappers

  /** One entry of a series' `tags` object: `tagk -> {tagk, tagk_uid, tagv, tagv_uid}`
      reduced to the key and the value the engine reads (`.tagv`). */
  datatype Tag = Tag(key: string, value: string)

  /** A JavaScript object of tags, in property-insertion order. */
  type Tags = seq<Tag>

  /** One `[timestamp, value]` pair of a series' `dps`. */
  datatype Point = Point(time: int, value: real)

  /** A series as the backend returns it. */
  datatype RawSeries = RawSeries(metric: string, tags: Tags, tsuid: string, dps: seq<Point>)

  /** The `type` field of a filter; any other string is `OtherType`. */
  datatype FilterType =
    | LiteralOr | ILiteralOr | NotLiteralOr | NotILiteralOr
    | Wildcard | IWildcard | Regexp
    | OtherType(name: string)

  /** The `filter` field: an array of strings for the literal family, a plain
      string (the pattern) for the wildcard and regexp family. */
  datatype FilterSpec = Values(values: seq<string>) | Pattern(pattern: string)

  datatype Filter = Filter(tagk: string, ftype: FilterType, spec: FilterSpec, groupBy: bool)

  /** `dps` of a combined series: `[[t, v], ...]` or `{t: v, ...}`. */
  datatype Dps = Pairs(points: seq<Point>) | Keyed(byTime: map<int, real>)

  /** One element of the query answer. `tsuids` is present only with `show_tsuids`. */
  datatype CombinedSeries = CombinedSeries(
    metric: string,
    tags: Tags,
    aggregatedTags: seq<string>,
    dps: Dps,
    tsuids: Option<seq<string>>)

  /** The ways a query ends in an exception. */
  datatype QueryError =
    | NoAggregatorSeparator          // `colonSplit[1]` is undefined
    | MissingTagValue(piece: string) // `kv[1]` is undefined
    | WildcardTagValue(tagk: string) // `allTagValues` is not defined
    | FilterSetupFailed(tagk: string) // `regexp.split` on an array
    | MissingDownsampleUnit(downsample: string) // `match(...)[0]` on null
    | UnrecognizedAggregator(name: string)      // `throw "unrecognized agg: ..."`
    | UnknownFunction(name: string)  // no entry in the function table
    | UnsupportedFunction(name: string) // a function left out of this model
    | NoSeries(name: string)         // a process function given no input series
    | NullResult(name: string)       // a process function returned null
    | MetricsAppend                  // `metrics.append` is not a function
    | UnmodelledGrid(downsample: string) // a string-concatenating bucket grid, left out of this model

  /** `tags.hasOwnProperty(k)`. */
  predicate HasKey(tags: Tags, k: string)
  {
    exists i :: 0 <= i < |tags| && tags[i].key == k
  }

  /** `tags[k]` for a key the object has: its (first) entry's value. */
  function ValueOf(tags: Tags, k: string): (v: string)
    requires HasKey(tags, k)
    ensures exists i :: 0 <= i < |tags| && tags[i].key == k && tags[i].value == v
  {
    if tags[0].key == k then tags[0].value
    else
      assert forall i :: 1 <= i < |tags| ==> tags[i] == tags[1..][i - 1];
      ValueOf(tags[1..], k)
  }

  /** The keys of a tags object, in iteration order. */
  function Keys(tags: Tags): (ks: seq<string>)
    ensures |ks| == |tags|
    ensures forall i :: 0 <= i < |tags| ==> ks[i] == tags[i].key
  {
    seq(|tags|, i requires 0 <= i < |tags| => tags[i].key)
  }

  /** An object cannot hold a key twice. */
  predicate DistinctKeys(tags: Tags)
  {
    forall i, j :: 0 <= i < j < |tags| ==> tags[i].key != tags[j].key
  }

  lemma HasKeyIsKeyMember(tags: Tags, k: string)
    ensures HasKey(tags, k) <==> k in Keys(tags)
  {
    if k in Keys(tags) {
      var i :| 0 <= i < |tags| && Keys(tags)[i] == k;
      assert tags[i].key == k;
    }
  }

  /** With distinct keys, the value at any entry is what a lookup of its key gives. */
  lemma ValueOfEntry(tags: Tags, i: nat)
    requires DistinctKeys(tags) && i < |tags|
    ensures HasKey(tags, tags[i].key) && ValueOf(tags, tags[i].key) == tags[i].value
  {
    assert HasKey(tags, tags[i].key);
  }
}
