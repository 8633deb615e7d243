# A model of the nodetsdb-api query engine

`index.js` of nodetsdb-api answers OpenTSDB-style queries against a fake
backend. This project models its query engine in Dafny and proves properties
of that model. The model covers the steps of `performSingleMetricQuery` and
of the expression ("gexp") layer of `gexpQueryImpl`:

- **Filtering.** Tag filters are applied after the backend answers
  (`postBackendFiltering`). Series are spliced out of the caller's array in
  place, and the value lists of case-insensitive filters are lowercased in
  place.
- **Tag sets.** The unique tag sets are built from the `group_by` keys. A
  tag set selects its participating series, and the participants yield the
  `aggregatedTags` list.
- **Token parsing.** A metric token of the form
  `agg:[rate:][downsample:]metric[{k=v|v,...}]` is parsed.
- **Width and grid.** The bucket width comes from the downsample spec. The
  grid of bucket times starts at the start time rounded up to the width.
- **Combination.** The participants of a tag set are merged with one
  cursor per series, and each bucket is aggregated with `sum`, `avg`,
  `min` or `max`.
- **Expressions.** An expression's arguments are scanned and each metric
  is queried. The `absolute`, `scale`, `sumSeries`, `diffSeries` and
  `multiplySeries` processes are applied, via `unioningFunction` where the
  code uses it. Results are renamed to the expression text, and `dps` is
  converted between pair arrays and timestamp-keyed objects.

The model follows the code as written, quirks included:

- `min` and `max` compute the sum.
- `negate` is never applied, so `not_literal_or` behaves like `literal_or`.
- `unioningFunction` keys `allTimes` by series position, not by timestamp.
- `aggregatedTags` is left unsorted.
- The scanner reads `","` tokens after a brace-less argument.
- The tag-set key cannot tell `{"a:b": "c"}` from `{"a": "b:c"}`.

Each of these is stated as a lemma. In particular the code never sorts
`aggregatedTags`, and neither does the model.

The code's exceptions are modelled as `Err` values of `Series.QueryError`:

- an undefined `colonSplit[1]`;
- an undefined `kv[1]`;
- the undefined `allTagValues`;
- `match(...)[0]` on `null`;
- an unrecognised aggregator;
- `regexp.split` on an array;
- an unknown expression function;
- `metrics.append`;
- `jsons[0]` undefined;
- the `null` returned by `divideSeries`.

A JavaScript loop that updates state is modelled as a Dafny method. Each
method is proved equal to a specification function, and the lemmas state
the properties of that function.

Some inputs that the code gets from a library or from the environment are
parameters of the model:

- the backend's `performBackendQueries` is a function `Backend`;
- regular-expression matching is a function `Matcher` of the pattern
  source and the candidate value;
- `Number` coercion of a `scale` factor is a function `number`;
- start and end are integer milliseconds.

Modules, each in a file of its own name:

| module | holds |
|---|---|
| `Wrappers` | `Option`, `Result` and first-error collection |
| `Series` | the series, filter, tag and error entities |
| `Sequences` | sequence helpers |
| `JsStrings` | the ECMAScript string built-ins the code uses |
| `Filtering` | filtering |
| `TagSets` | tag sets |
| `MetricToken` | token parsing |
| `BucketGrid` | width and grid |
| `Combiner` | combination |
| `SingleMetricQuery` | the whole single-metric query |
| `ExprScanner` | the argument scanner |
| `SeriesFunctions` | the `process` functions |
| `GexpQuery` | the expression query |

## Model

| member | source | states |
|---|---|---|
| Series.ValueOf | index.js:236 | `tags[k].tagv` for a key the object has is the value of an entry with that key |
| Series.Keys | index.js:452 | definition: the keys of a tags object in iteration order; `TagSets.AggregatedTagsProperties` carries what the keys are used for |
| Series.HasKeyIsKeyMember | index.js:232 | `hasOwnProperty(k)` holds exactly when `k` is one of the object's keys |
| Series.ValueOfEntry | index.js:236 | with distinct keys, the lookup of an entry's key gives that entry's value |
| Sequences.FirstIndex | index.js:456-457 | the position of the first occurrence: it holds `x` and nothing before it does |
| Sequences.DedupProperties | index.js:456-457 | the deduplicated list has exactly the input's elements, each once, in the order of first occurrence |
| Sequences.SubsequenceTransitive | index.js:230-241 | an order-preserving subsequence of an order-preserving subsequence is one of the original |
| Sequences.LastIndex | index.js:278 | the position of the last occurrence: it holds `x` and nothing after it does |
| JsStrings.Split | index.js:339 | `split` never returns an empty list, no piece holds the separator, and joining the pieces gives the text back |
| JsStrings.SplitOfJoin | index.js:368 | splitting a join of separator-free pieces gives back the pieces |
| JsStrings.SplitAfterSeparatorFree | index.js:370 | a separator-free head followed by the separator splits off as the first piece |
| JsStrings.SplitFirst | index.js:339-340 | with a separator present, the first piece is the text before the first separator |
| JsStrings.SplitSingle | index.js:339 | a split has one piece exactly when the separator does not occur |
| JsStrings.InJoin | index.js:207-209 | a character other than the separator is in the join exactly when it is in some piece |
| JsStrings.Clamp | index.js:1077 | an `indexOf` or `substring` bound is clamped into `0..length`, in-range bounds unchanged |
| JsStrings.IndexOf | index.js:1046 | `indexOf` is -1 or a position at or after the clamped start that holds the character |
| JsStrings.IndexOfFirst | index.js:1046 | `indexOf` finds the first occurrence, and is -1 only when none follows the start |
| JsStrings.IndexOfIs | index.js:1073 | the first occurrence at or after the start is what `indexOf` returns |
| JsStrings.IndexOfAfterFree | index.js:1046 | in `a + c + b` with no `c` in `a`, `indexOf(c)` is the length of `a` |
| JsStrings.Substring | index.js:1051 | `substring` takes the slice between its bounds, swapped when reversed, never longer than the text |
| JsStrings.Trim | index.js:1079 | `trim` leaves neither end white space and never lengthens the text |
| JsStrings.TrimStripsEnds | index.js:1079 | what `trim` removes is white space at the two ends only |
| JsStrings.TrimOfTrimmed | index.js:1079 | a text without white space at either end is its own trim |
| JsStrings.Lower | index.js:189 | `toLowerCase` keeps the length, leaves no ASCII capital and changes no other character |
| JsStrings.LowerIdempotent | index.js:189 | lowercasing twice is lowercasing once |
| JsStrings.LeadingDigits | index.js:464 | `match(/^[0-9]+/)` is the longest run of digits that starts the text |
| JsStrings.TrailingLetters | index.js:465 | `match(/[a-zA-Z]+$/)` is the longest run of letters that ends the text |
| JsStrings.LeadingDigitsOf | index.js:464 | a run of digits followed by a non-digit is exactly the leading digits |
| JsStrings.TrailingLettersOf | index.js:465 | a run of letters after a non-letter is exactly the trailing letters |
| JsStrings.DecimalText | index.js:464 | a decimal text of digits only, whose value is the number |
| JsStrings.ReplaceAll | index.js:207-209 | `split(p).join(r)` leaves a text without `p` unchanged |
| Filtering.LowerAll | index.js:188-190 | definition: each value lowercased in its place; `Filtering.LiteralOrSemantics` states the case-insensitive matching it gives |
| Filtering.Prepared | index.js:187-191 | only the array value list of a case-insensitive literal filter changes; key, type and `group_by` are kept |
| Filtering.PrepareAll | index.js:178-191 | definition: each filter prepared in its place; `Filtering.PreparedIdempotent` and `Filtering.PostBackendFiltering` carry its properties |
| Filtering.PreparedIdempotent | index.js:187-191 | lowercasing a value list a second time changes nothing |
| Filtering.FirstThrowing | index.js:205-207 | the position of the first filter whose predicate cannot be built, and no earlier filter throws |
| Filtering.ThrowsOnSetup | index.js:205-207 | definition: a non-match-all wildcard over an array value list, where `regexp.split` is not a function; `Filtering.FirstThrowing` and `Filtering.PostBackendFiltering` carry its properties |
| Filtering.SeriesArray.Splice | index.js:233 | `splice(t, 1)` removes exactly the element at `t` |
| Filtering.LowerValues | index.js:188-190 | the loop leaves the value list lowercased element by element |
| Filtering.RemoveRejected | index.js:230-241 | the backward splice loop leaves exactly the series the filter keeps, in order |
| Filtering.PrepareFilter | index.js:185-191 | the filter at `f` is replaced by its prepared form and no other entry changes |
| Filtering.PostBackendFiltering | index.js:176-244 | success exactly when no filter throws; the series left are those the filters before the throwing one keep, and exactly those filters are prepared in place |
| Filtering.Accepts | index.js:183-227 | definition: `fn(candidateValue)` for a prepared filter; `Filtering.LiteralOrSemantics` and `Filtering.PatternFilterSemantics` state it per filter type |
| Filtering.KeepWhere | index.js:230-241 | definition: the series one filter keeps, in order; `Filtering.PostBackendFiltering` computes it in place |
| Filtering.ApplyFilters | index.js:176-244 | definition: the filters applied one after the other; `Filtering.FilterOrderIrrelevant` and `Filtering.PostBackendFiltering` carry its properties |
| Filtering.KeepWherePrepared | index.js:187-194 | filtering by a filter or by its lowercased form keeps the same series |
| Filtering.FirstThrowingAt | index.js:205-207 | the first throwing filter is found at its position |
| Filtering.KeepWhereWithoutPredicate | index.js:229 | a filter without a predicate keeps every series |
| Filtering.ApplyFiltersSnoc | index.js:178 | one more filter narrows the result of the filters before it |
| Filtering.KeepWhereIsSubsequence | index.js:230-241 | one filter leaves an order-preserving subsequence holding exactly the series it keeps |
| Filtering.Keeps | index.js:218-241 | definition: a filter without a predicate keeps a series; otherwise the series must have the tag key and the prepared predicate must accept its value; `Filtering.KeepWhereIsSubsequence` and `Filtering.ApplyFiltersSelects` carry its properties |
| Filtering.ApplyFiltersSelects | index.js:229-241 | the result is an order-preserving subsequence holding exactly the series every filter keeps; each survivor has every filtered key with an accepted value |
| Filtering.FilterOrderIrrelevant | index.js:178-243 | filters with the same members select the same series in any order |
| Filtering.KeepAllCongruent | index.js:178-243 | filter lists with the same conjunction select the same series |
| Filtering.ApplyFiltersIsKeepAll | index.js:178-243 | applying the filters one after another equals one pass keeping what all of them keep |
| Filtering.KeepAllNoFilters | index.js:178 | no filters keep every series |
| Filtering.KeepAllAfterKeepWhere | index.js:178-243 | filtering by the first filter and then by the rest is filtering by all of them |
| Filtering.MatchAllKeepsKeyHolders | index.js:199-202 | a `*` wildcard or `.*` regexp filter keeps a series exactly when it has the filter's key, whatever the matcher |
| Filtering.MatchesAll | index.js:199-200 | definition: a `*` wildcard or iwildcard, or a `.*` regexp; `Filtering.MatchAllKeepsKeyHolders` states it keeps every key holder |
| Filtering.UnknownTypeRemovesNothing | index.js:229 | filters of unrecognised type remove no series |
| Filtering.LiteralOrSemantics | index.js:183-195 | `literal_or` keeps a series exactly when it has the key and its value is in the list; `iliteral_or` compares the lowercased value with the lowercased list; the `not_` forms behave like the positive ones |
| Filtering.PatternFilterSemantics | index.js:197-226 | past the match-all case, a pattern filter keeps a series exactly when it has the key and the matcher accepts the rewritten pattern and the value, lowercased for `iwildcard` |
| Filtering.GlobToRegexp | index.js:206-210 | definition: the three `split(...).join(...)` rewrites of a glob; `Filtering.GlobWithoutMetaIsLiteral` and `Filtering.PatternFilterSemantics` carry its properties |
| Filtering.GlobWithoutMetaIsLiteral | index.js:206-210 | a glob without `.` or `*` is its own regular expression |
| TagSets.GroupByKeys | index.js:260-266 | the included keys are exactly the keys of the `group_by` filters |
| TagSets.RestrictMembers | index.js:272-280 | the tag set of a series holds exactly its included entries, in tag order |
| TagSets.Restrict | index.js:272-280 | definition: `tagSet`, the included entries of a series' tags; `TagSets.RestrictMembers` states what it holds |
| TagSets.KvStrings | index.js:277 | definition: one `k:v` string per entry; `TagSets.KvStringInjective` states that the string determines the entry |
| TagSets.Store | index.js:282 | storing into `sets` keeps the keys and values aligned |
| TagSets.Restrictions | index.js:270-280 | definition: each series' tags restricted to the included keys; `TagSets.RestrictionsSnoc` and `TagSets.UniqueTagSetsAreRestrictions` carry its properties |
| TagSets.KeysOf | index.js:281-282 | definition: one grouping key per restriction; `TagSets.KeyedByDedup` states how the keys group the restrictions |
| TagSets.IncludedKeys | index.js:260-266 | the loop collects exactly the `group_by` keys |
| TagSets.RestrictTags | index.js:272-281 | the loop builds the restriction of one series and its `k:v` strings |
| TagSets.RestrictionsSnoc | index.js:270-280 | one more series appends its restriction |
| TagSets.SetsOfSnoc | index.js:282-284 | one more series stores its restriction under its key |
| TagSets.ConstructUniqueTagSets | index.js:258-296 | the loops return the unique tag sets |
| TagSets.SetsOfKeys | index.js:270-290 | the keys of `sets` are the restrictions' keys, each once, in the order first stored |
| TagSets.SetsOf | index.js:270-290 | definition: the `sets` object after storing each restriction under its key; `TagSets.SetsOfKeys`, `TagSets.SetsOfValKeys` and `TagSets.SetsOfLastStored` carry its properties |
| TagSets.SetsOfValKeys | index.js:282-290 | under each key sits a restriction with that key |
| TagSets.SetsOfLastStored | index.js:282-284 | under each key sits the last restriction stored with it |
| TagSets.UniqueTagSetsFallback | index.js:291-295 | never empty, and exactly `[{}]` with no series or no `group_by` filter |
| TagSets.AllEmptyRestrictions | index.js:282-295 | all-empty restrictions give one empty set, or none without series |
| TagSets.UniqueTagSetsAreRestrictions | index.js:270-290 | every tag set is some series' tags restricted to the `group_by` keys |
| TagSets.UniqueTagSets | index.js:258-296 | definition: the restrictions deduplicated by their grouping key; `TagSets.UniqueTagSetsAreRestrictions`, `TagSets.KeyedByDedup` and `TagSets.ConstructUniqueTagSets` carry its properties |
| TagSets.UniqueTagSetsKeys | index.js:258-296 | no two tag sets are equal; every set's key is some series' key and every series' key is some set's; sets come in first-occurrence order |
| TagSets.KeyedByDedup | index.js:282-290 | sets keyed by a deduplicated key list are distinct, cover the keys and keep first-occurrence order |
| TagSets.TagSetKeyCollision | index.js:277-282 | two different entries with the same `k:v` string fall into one tag set holding the later series' tags |
| TagSets.CollidingEntries | index.js:277 | `{"a:b": "c"}` and `{"a": "b:c"}` differ but give the same `k:v` string |
| TagSets.RawTimeSeriesForTagSet | index.js:313-336 | the loop selects the series matching the tag set |
| TagSets.SeriesForTagSetSelects | index.js:313-336 | an order-preserving subsequence of exactly the series with every tag-set key and an equal value; an empty tag set selects every series |
| TagSets.EntriesMatch | index.js:318-330 | a series with distinct keys matches any selection of its own entries |
| TagSets.EveryTagSetHasParticipant | index.js:424-426 | with distinct keys, every tag set built from the series has a participant |
| TagSets.KvStringInjective | index.js:277 | with colon-free keys, the `k:v` string determines the entry |
| TagSets.KvString | index.js:277 | definition: `tagk + ":" + tagv`; `TagSets.KvStringInjective` states that it determines the entry for colon-free keys |
| TagSets.SameKeySameEntries | index.js:281-282 | with colon-free keys, equal grouping keys mean the same entries |
| TagSets.SetKey | index.js:281-282 | definition: `JSON.stringify(kvArray.sort())` as the multiset of the `k:v` strings; `TagSets.SameKeySameEntries` and `TagSets.TagSetKeyCollision` carry its properties |
| TagSets.SeriesMatchesItsTagSet | index.js:258-336 | with colon-free, distinct keys, each series takes part in the tag set stored under its own key |
| TagSets.SeriesForTagSet | index.js:313-336 | definition: the series whose tags match the tag set, in order; `TagSets.SeriesMatchesItsTagSet` and `TagSets.EveryTagSetHasParticipant` carry its properties |
| TagSets.KeysOutside | index.js:452-455 | exactly the keys of the tags that the tag set lacks |
| TagSets.AllKeysOutside | index.js:451-462 | exactly the participant keys the tag set lacks |
| TagSets.AddKeysOutside | index.js:452-461 | one participant's missing keys appended when not already present |
| TagSets.AggregateTags | index.js:450-462 | the loop builds `aggregateTags` |
| TagSets.AggregatedTagsProperties | index.js:450-462 | `aggregateTags` holds each participant key missing from the tag set exactly once, in first-seen order |
| TagSets.AggregatedTags | index.js:450-462 | definition: the participant keys missing from the tag set; `TagSets.AggregatedTagsProperties` states them |
| MetricToken.TagFilters | index.js:368-383 | one filter per piece, each a `literal_or` over a value list with `group_by` set; a failure is a missing value or a wildcard value |
| MetricToken.TagFilter | index.js:370-382 | definition: one `k=v` or `k=v1\|v2` piece as a `literal_or` group-by filter, failing on a missing value or a `*`; `MetricToken.TagPieceRoundTrip` and `MetricToken.TagFilterErrors` carry its properties |
| MetricToken.MetricAndFilters | index.js:355-385 | definition: the metric before the first `{` and the filters of the braced tag string; `MetricToken.MetricAndFiltersRoundTrip`, `MetricToken.EmptyBracesNoFilters` and `MetricToken.MetricAndTagsShape` carry its properties |
| MetricToken.ParseMetric | index.js:339-385 | definition: aggregator, rate flag, downsample spec, metric and `literal_or` filters of a token, or its parse failure; `MetricToken.ParseMetricSegments`, `MetricToken.ParseFormatRoundTrip` and `MetricToken.AggregatorBeforeFirstColon` carry its properties |
| MetricToken.ParseMetricFailure | index.js:339-385 | a token fails only for a missing `:`, a tag piece without `=`, or a wildcard tag value |
| MetricToken.ParsedFiltersAreLiteral | index.js:370-382 | every filter the parser builds is a `literal_or` over a value list with `group_by` set |
| MetricToken.ParseMetricSegments | index.js:339-364 | rate iff the second segment starts with `rate`; a downsample spec exactly with four segments and rate or three without, the last segment but one; the metric is the last segment up to its first `{`, free of `:` and `{` |
| MetricToken.AggregatorBeforeFirstColon | index.js:339-340 | the parse fails at once exactly when there is no `:`; otherwise the aggregator is the text before the first `:` |
| MetricToken.TagFilterErrors | index.js:370-374 | a value holding `*` fails with the `allTagValues` error; a piece without `=` fails on `kv[1]` |
| MetricToken.EmptyBracesNoFilters | index.js:359-367 | `metric{}` yields the metric and no filters |
| MetricToken.MetricNamedRateQuirk | index.js:343-344 | a metric name starting with `rate` after the aggregator reads as a rate query |
| MetricToken.TagPieces | index.js:368 | definition: one `k=v` piece per tag; `MetricToken.TagStringRoundTrip` states that parsing the pieces gives the tags back |
| MetricToken.Segments | index.js:339-355 | aggregator first, `rate` second when set, the downsample spec last but one, the metric and tags last |
| MetricToken.LiteralFilters | index.js:375-382 | one filter per tag |
| MetricToken.ParseFormatRoundTrip | index.js:339-385 | parsing a formatted token gives back its aggregator, rate flag, downsample spec and metric, and a `literal_or` filter with `group_by` per tag over its values |
| MetricToken.SegmentsSplit | index.js:339 | splitting the joined colon-free segments gives them back |
| MetricToken.MetricAndFiltersRoundTrip | index.js:355-385 | the last segment of a formatted token gives back the metric and its filters |
| MetricToken.MetricAndTagsShape | index.js:359-364 | the last segment holds no `:`, and its first `{` ends the metric |
| MetricToken.TagStringRoundTrip | index.js:367-383 | the tag string of formatted tags parses into their filters |
| MetricToken.TagPieceRoundTrip | index.js:370-382 | `k=v1\|v2` parses into a `literal_or` over `[v1, v2]` with `group_by` set |
| MetricToken.TagFiltersAll | index.js:369-383 | pieces that each parse give the list of their filters |
| BucketGrid.WidthOfSpec | index.js:464-478 | a spec `<n><unit>[-...]` gives `n` times the unit's seconds, times 1000 with `ms`; an unknown unit leaves `n` unscaled |
| BucketGrid.UnitSeconds | index.js:466-478 | definition: seconds per unit letter `s`, `m`, `h`, `d`, `w`, `y`, none for any other; `BucketGrid.WidthOfSpec` states the width it gives |
| BucketGrid.Scale | index.js:466-478 | definition: `number *= unit * msMultiplier`; `BucketGrid.WidthOfSpec` states the width it gives |
| BucketGrid.Width | index.js:464-479 | definition: the bucket width of a downsample spec, 10 seconds when absent or empty, failing without a unit; `BucketGrid.WidthOfSpec` and `BucketGrid.WidthWithoutUnit` carry its properties |
| BucketGrid.SpecParts | index.js:464-465 | the number is the leading digits and the unit the trailing letters before the first `-` |
| BucketGrid.WidthWithoutUnit | index.js:465 | a number with no unit letters fails on `match(...)[0]` |
| BucketGrid.FirstTimeStampLeast | index.js:480-483 | a first bucket exists exactly for a positive width, and it is the least multiple of the width at or after the start |
| BucketGrid.FirstTimeStamp | index.js:480-483 | definition: the first bucket time, the start kept on a multiple of the width and otherwise advanced and rounded down; `BucketGrid.FirstTimeStampLeast` states it is the least multiple at or after the start |
| BucketGrid.FirstTimeExact | index.js:482 | a start on the grid is itself the first bucket |
| BucketGrid.FirstTimeInexact | index.js:482-483 | a start between two grid times gives the later one |
| BucketGrid.DivUnique | index.js:482 | Euclidean division is fixed by quotient and remainder |
| BucketGrid.GridTimeNext | index.js:515 | successive bucket times differ by the width |
| BucketGrid.GridProperties | index.js:515 | the grid is exactly the bucket times at or before the end, `first + k*w`, strictly increasing |
| BucketGrid.Grid | index.js:515 | definition: the times `first + k*w` at or before the end; `BucketGrid.GridProperties` states they are exactly the bucket times, increasing |
| BucketGrid.GridCountBound | index.js:515 | the `k`-th bucket time is visited exactly when it is at or before the end |
| Combiner.NonEmptySelects | index.js:500-504 | the series with points, an order-preserving subsequence |
| Combiner.NonEmpty | index.js:500-504 | definition: the participants holding at least one point, in order; `Combiner.NonEmptySelects` and `Combiner.DropEmpty` carry its properties |
| Combiner.DropEmpty | index.js:500-504 | the backward splice loop leaves exactly the series with points, in order |
| Combiner.Advance | index.js:521-523 | a cursor only moves forward and stays within the points |
| Combiner.AdvanceStops | index.js:521-523 | the cursor passes only points before `t` and stops at the first point at or after `t` |
| Combiner.CursorAfter | index.js:508-523 | a cursor never passes the end of its points |
| Combiner.Cursors | index.js:508-523 | definition: one cursor per series; `Combiner.CursorOnGrid` and `Combiner.ContributionOnSorted` state where the cursors stand |
| Combiner.PointsAt | index.js:519-558 | at most one value per series |
| Combiner.SumOf | index.js:130-136 | the loop computes the sum |
| Combiner.Sum | index.js:130-136 | definition: the sum of the values; `Combiner.SumOf` computes it |
| Combiner.KnownAggregator | index.js:562-578 | definition: the aggregators the switch recognises; `Combiner.CombinedFails` states that only an unknown one fails |
| Combiner.AdvanceCursor | index.js:521-523 | the `while` loop advances one cursor |
| Combiner.CollectPoints | index.js:519-558 | every cursor advanced to `t`, collecting the values exactly at `t` |
| Combiner.AggregateBucket | index.js:563-579 | the switch computes the bucket's value or throws |
| Combiner.CombineParticipants | index.js:506-587 | the grid loop returns the combined `dps` over the grid |
| Combiner.Contribution | index.js:520-533 | definition: the value under the cursor when it is exactly at `t`; `Combiner.ContributionOnSorted` states it is the point the series has at `t` |
| Combiner.Points | index.js:519-533 | at most one point per series at the last grid time |
| Combiner.Aggregate | index.js:562-578 | definition: the switch over `sum`, `avg`, `min`, `max` (the last two sum, as written), throwing otherwise; `Combiner.AggregateBucket` computes it |
| Combiner.Combined | index.js:506-587 | definition: one point per grid time at which some series contributes; `Combiner.CombinedSnoc` and `Combiner.CombineParticipants` carry its properties |
| Combiner.CombinedDps | index.js:579-594 | definition: the combined points as pairs or as an object keyed by time; `Combiner.CombineParticipants` computes it |
| Combiner.ToMap | index.js:579-594 | definition: the object keyed by time, later pairs overwriting earlier ones; `Combiner.ToMapSnoc` and `Combiner.ToMapOfIncreasing` carry its properties |
| Combiner.DpsOf | index.js:579-594 | definition: `combinedDps` as pairs with `arrays`, otherwise as an object; `Combiner.CombineParticipants` computes it |
| Combiner.GridAdvance | index.js:515 | a time that passes the loop test is the next time of the grid, and the next time is `w` later |
| Combiner.GridDone | index.js:515 | when the loop test fails, every time of the grid has been visited |
| Combiner.ToMapSnoc | index.js:584 | writing one more pair into the object updates that one key |
| Combiner.CombineAt | index.js:515-587 | one grid step advances the cursors and emits the bucket's point, or fails |
| Combiner.CursorsSnoc | index.js:519-523 | the cursors after one more grid time are the old ones advanced |
| Combiner.CombinedSnoc | index.js:563-586 | one more grid time appends a point exactly when some series contributes |
| Combiner.CombinedErrExtends | index.js:578 | a failure on a prefix of the grid is the failure of the whole grid |
| Combiner.CursorMonotone | index.js:508-523 | a cursor never moves back and never passes the end of its points |
| Combiner.CursorOnGrid | index.js:519-523 | on an increasing grid, the cursor stands on the first point at or after the current time |
| Combiner.FirstAt | index.js:524 | the position of the first point exactly at `t` |
| Combiner.ContributionOnSorted | index.js:519-529 | for sorted points the cursor delivers exactly the point the series has at each grid time |
| Combiner.PointsFromSeries | index.js:519-558 | every collected value is a point of some series exactly at that time, and some value is collected exactly when some cursor contributes |
| Combiner.MinMaxAreSum | index.js:565-576 | `min` and `max` give exactly what `sum` gives |
| Combiner.BucketOfPrefix | index.js:515 | a bucket depends only on the grid up to its time |
| Combiner.CombinedFails | index.js:563-579 | combination fails exactly when the aggregator is not one of the four and some bucket has a point |
| Combiner.CombinedEmitsOnlyBuckets | index.js:563-586 | each emitted point stands at a grid time with a non-empty bucket and carries that bucket's aggregate: the sum for `sum`, `min` and `max`, the sum over the participant count for `avg` |
| Combiner.CombinedEmitsEveryBucket | index.js:563-586 | every grid time with a non-empty bucket has its emitted point |
| Combiner.CombinedIncreasing | index.js:515-586 | on an increasing grid the emitted times strictly increase and are grid times |
| Combiner.ToMapOfIncreasing | index.js:584 | with increasing times the keyed form holds one key per emitted time, mapped to its value |
| SingleMetricQuery.Tsuids | index.js:492-494 | definition: one `tsuid` per participant, in order; `SingleMetricQuery.TagSetAnswerShape` states when the answer carries them |
| SingleMetricQuery.CollectTsuids | index.js:492-498 | the loop collects the participants' `tsuid`s |
| SingleMetricQuery.ParsedFiltersSafe | index.js:178-195 | the parsed filters never throw and are unchanged by the lowercasing |
| SingleMetricQuery.AnswersErrExtends | index.js:424-617 | a failure at some tag set ends the query with that failure |
| SingleMetricQuery.AnswersSnoc | index.js:424-617 | one more tag set appends its answer, if any |
| SingleMetricQuery.FetchAndGroup | index.js:412-415 | the backend's series filtered in place, and their tag sets, never none |
| SingleMetricQuery.AnswerTagSet | index.js:426-616 | the body of the tag-set loop answers one tag set |
| SingleMetricQuery.AnswerTagSets | index.js:424-617 | a width failure fails the loop; otherwise the loop answers the tag sets |
| SingleMetricQuery.PerformSingleMetricQuery | index.js:338-619 | the method returns the single-metric answer or its exception, for every token |
| SingleMetricQuery.TagsOfSnoc | index.js:612 | pushing an answer appends its tags |
| SingleMetricQuery.TagSetAnswerShape | index.js:490-616 | a tag set yields an answer exactly when it has participants; the answer carries the metric, the tag set, the aggregated tags, the requested `dps` form and `tsuids` exactly with `show_tsuids` |
| SingleMetricQuery.ConcatenatingGrid | index.js:464-483 | definition: a downsample number with an unrecognised unit, whose grid index.js:515 would build by string concatenation |
| SingleMetricQuery.GridWidth | index.js:464-515 | the number the grid steps by: the width for a recognised unit, 0 for an unscaled zero, the spec's own failure without a unit, and `UnmodelledGrid` exactly for a concatenating grid |
| SingleMetricQuery.BucketTimes | index.js:480-515 | definition: the times the combination loop visits, none for a zero width; `BucketGrid.GridProperties` and `BucketGrid.FirstTimeStampLeast` state what they are |
| SingleMetricQuery.Answers | index.js:424-617 | definition: the tag sets' answers in order, the first failure ending the query; `SingleMetricQuery.AnswersShape`, `SingleMetricQuery.AnswersCover` and `SingleMetricQuery.AnswersFailure` carry its properties |
| SingleMetricQuery.TagSetAnswer | index.js:490-616 | definition: the answer for one tag set, none without participants; `SingleMetricQuery.TagSetAnswerShape` states its shape |
| SingleMetricQuery.SingleQuery | index.js:338-619 | definition: the single-metric answer or its failure; `SingleMetricQuery.SingleQueryFailure`, `SingleMetricQuery.SingleQueryOnePerTagSet` and `SingleMetricQuery.PerformSingleMetricQuery` carry its properties |
| SingleMetricQuery.ConcatenatingGridUnmodelled | index.js:464-515 | the query answers `UnmodelledGrid` exactly for a concatenating grid |
| SingleMetricQuery.AnswersShape | index.js:424-617 | every answer belongs to a tag set with participants and has the shape above |
| SingleMetricQuery.AnswersCover | index.js:424-617 | when every tag set has participants, one answer per tag set, in order |
| SingleMetricQuery.AnswersFailure | index.js:577-578 | once the tag sets are formed, the only failure is an unrecognised aggregator |
| SingleMetricQuery.SingleQueryFailure | index.js:338-619 | a query fails only for a missing `:`, a bad tag piece, a unitless downsample spec, an unknown aggregator or a string-concatenating grid (answered `UnmodelledGrid`) |
| SingleMetricQuery.SingleQueryOnePerTagSet | index.js:412-617 | with proper tag objects, a non-empty filtered result gives one answer per tag set, in order; no series gives none |
| SingleMetricQuery.EveryTagSetParticipates | index.js:415-426 | with proper tag objects every tag set has participants; an empty result has only `{}`, which has none |
| ExprScanner.NextCommaOrEnd | index.js:1054-1056 | -1 exactly when no `)` follows, otherwise at least -1 |
| ExprScanner.FunctionName | index.js:1046-1051 | the text before the first `(`, holding no `(`, and empty when there is no `(` |
| ExprScanner.StepEnd | index.js:1069-1111 | a pass ends at a position of at least -1, makes no progress, or fails on `metrics.append` |
| ExprScanner.PlainEnd | index.js:1076-1090 | a plain argument ends at the separator |
| ExprScanner.BracedEnd | index.js:1091-1110 | a braced argument ends at a position of at least -1 |
| ExprScanner.Scan | index.js:1069-1111 | at most the remaining cap of arguments are read; the only failure is `metrics.append` |
| ExprScanner.ScanArguments | index.js:1069-1111 | the loop reads the arguments from `func.length + 1` |
| ExprScanner.ScanOnce | index.js:1077-1080 | a pass that reads an argument appends its trimmed text and goes on after its end |
| ExprScanner.ScanStalls | index.js:1082-1089 | a pass without progress only advances the counter |
| ExprScanner.ScanFails | index.js:1086 | a pass that throws ends the scan with that error |
| ExprScanner.ScanStops | index.js:1069 | scanning stops at the cap, at the end of the text and at `)` |
| ExprScanner.ArgTexts | index.js:1099 | definition: one text per argument; `ExprScanner.ListLayout` and `ExprScanner.TwoArguments` state what the scan reads from a written-out list |
| ExprScanner.NextCommaOrEndIs | index.js:1054-1056 | the first `,` or `)` is found when a `)` follows |
| ExprScanner.BracedEndAt | index.js:1091-1110 | a brace group, and a second one right after it, is skipped up to the next separator |
| ExprScanner.StepEndBraced | index.js:1076-1091 | a brace before the separator takes the braced branch |
| ExprScanner.StepEndPlain | index.js:1076-1080 | a separator first and no `rate` ends the pass at the separator |
| ExprScanner.BracedStepAt | index.js:1091-1110 | a braced argument laid out by positions ends at its separator |
| ExprScanner.PlainStepAt | index.js:1076-1080 | a plain argument with a `{` after it ends at its separator |
| ExprScanner.StepAt | index.js:1072-1110 | a well-formed argument is read whole, commas in its brace groups included |
| ExprScanner.HeadStep | index.js:1069-1111 | a pass over a well-formed argument appends it and resumes after its separator |
| ExprScanner.WellFormedTrimmed | index.js:1079 | a well-formed argument is its own trim |
| ExprScanner.ScanArgumentList | index.js:1069-1111 | a written-out list of well-formed arguments is read back one for one up to the cap, stopping after the last separator read |
| ExprScanner.ListLayout | index.js:1069-1111 | definition: well-formed arguments written out from `p`, separated by commas and followed by a separator, within the cap; `ExprScanner.ScanArgumentList` states how they are read |
| ExprScanner.FirstOnly | index.js:1069 | with room for one argument, only the first is read |
| ExprScanner.ListRest | index.js:1069-1111 | with room for more, the first argument is read and then the rest of the list |
| ExprScanner.LastArgument | index.js:1069-1111 | the last argument is read and scanning ends after its separator |
| ExprScanner.ExampleTrace | index.js:1060-1068 | `sumSeries(sum:cpu.percent{host=*},sum:ifstat.bytes{host=*})` yields exactly the two metric tokens and ends at the end of the text |
| ExprScanner.TwoArguments | index.js:1069-1111 | two braced arguments after a head of any length, with a cap above two, are both read and scanning stops at the end of the text |
| ExprScanner.Repeat | index.js:1099 | definition: `n` copies of a text; `ExprScanner.RepeatsToCap` states when a scan yields them |
| ExprScanner.BracelessStep | index.js:1091-1099 | with no brace, every pass ends at the first `,` or `)` of the whole text |
| ExprScanner.RepeatsToCap | index.js:1069-1111 | a pass that ends just before where it started repeats the same text up to the cap |
| ExprScanner.BracelessArguments | index.js:1069-1111 | brace-less arguments: the first is read, then `","` up to the cap |
| ExprScanner.BracelessExample | index.js:1069-1111 | `sumSeries(sum:a,sum:b)` reads `sum:a` and then 25 `","` tokens |
| ExprScanner.ExtraArgAt | index.js:1117-1124 | the extra argument is the trimmed text up to the next `)` |
| ExprScanner.ExtraArg | index.js:1117-1124 | definition: the trimmed text after the last argument up to the next `)`; `ExprScanner.ExtraArgAt` and `ExprScanner.OneArgumentAndExtra` carry its properties |
| ExprScanner.OneArgumentAndExtra | index.js:1069-1124 | `scale(<metric>,<factor>)` reads the metric whole and the factor after it |
| SeriesFunctions.Abs | index.js:736 | `Math.abs` is non-negative and is `x` or `-x` |
| SeriesFunctions.MapPoints | index.js:735-737 | times kept, one value per point mapped; `absolute` values non-negative |
| SeriesFunctions.MapInPlace | index.js:735-737 | the inner loop rewrites each `dps[p][1]` in place |
| SeriesFunctions.MapSeries | index.js:734-738 | only the `dps` values change; an object-form `dps` is left as is |
| SeriesFunctions.MapAll | index.js:733-739 | one series out per series in |
| SeriesFunctions.MapSeriesValues | index.js:733-753 | the outer loop maps every series of the first metric |
| SeriesFunctions.ScaleTwice | index.js:750 | scaling by `a` then `b` is scaling by `a*b` |
| SeriesFunctions.AbsoluteIdempotent | index.js:736 | `absolute` of `absolute` is `absolute` |
| SeriesFunctions.SumSeriesValue | index.js:916-922 | the loop adds the values present at `time` |
| SeriesFunctions.DiffSeriesValue | index.js:896-906 | the loop gives the first value minus the others |
| SeriesFunctions.MultiplySeriesValue | index.js:932-941 | the loop gives the product, a missing value counting as 0 |
| SeriesFunctions.ProvideValue | index.js:895-941 | the method gives the chosen provider's value |
| SeriesFunctions.PresentValues | index.js:917-920 | at most one present value per series |
| SeriesFunctions.SumOfPresent | index.js:916-922 | a series without a value contributes nothing: the sum of the values present |
| SeriesFunctions.Addend | index.js:916-941 | definition: a series' value at `time`, 0 when it has none; `SeriesFunctions.SumOfPresent` and `SeriesFunctions.ProductOfAddends` carry its properties |
| SeriesFunctions.ProductOfMissing | index.js:936-938 | one series without a value makes the product 0 |
| SeriesFunctions.ProductOfPresent | index.js:932-941 | with a value in every series, the product of the values |
| SeriesFunctions.ProductOfAddends | index.js:932-941 | the loop's running product is the product of every series' value, 0 for a missing one |
| SeriesFunctions.SumOfHead | index.js:916-922 | the sum is the first addend plus the sum of the rest |
| SeriesFunctions.DiffAgainstSum | index.js:896-906 | first minus the others equals twice the first minus the sum of all |
| SeriesFunctions.ProvidedWhereNothing | index.js:895-941 | at a time no series has, every provider gives 0 |
| SeriesFunctions.SumsAgree | index.js:916-941 | groups with the same values at `time` get the same sum and product |
| SeriesFunctions.ProvidedAgree | index.js:895-941 | groups with the same values at `time` get the same provided value |
| SeriesFunctions.SumValues | index.js:914-923 | definition: the sum of the values present at `time`; `SeriesFunctions.SumSeriesValue` computes it |
| SeriesFunctions.ProductValues | index.js:930-945 | definition: the product, a missing value counting as 0; `SeriesFunctions.ProductOfPresent` and `SeriesFunctions.MultiplySeriesValue` carry its properties |
| SeriesFunctions.DiffValues | index.js:893-906 | definition: the first value minus the others; `SeriesFunctions.DiffAgainstSum` and `SeriesFunctions.DiffSeriesValue` carry its properties |
| SeriesFunctions.Provided | index.js:895-941 | definition: the chosen provider's value; `SeriesFunctions.ProvidedAgree` and `SeriesFunctions.ProvideValue` carry its properties |
| SeriesFunctions.Flatten | index.js:691-692 | exactly the series of every metric |
| SeriesFunctions.WithTags | index.js:693-697 | exactly the series with the given tags |
| SeriesFunctions.WritesAt | index.js:715-719 | one write per key of `allTimes`, the provided value |
| SeriesFunctions.Unioned | index.js:682-725 | one result per distinct tags value |
| SeriesFunctions.UnionedAt | index.js:702-722 | the `k`-th result is the union of the `k`-th group |
| SeriesFunctions.GroupFacts | index.js:693-697 | a tags value that occurs has a non-empty group of object-form series |
| SeriesFunctions.WithTagsSnoc | index.js:697 | pushing a series extends its own group only |
| SeriesFunctions.DedupSnoc | index.js:694-695 | a new key is appended, an existing one is kept |
| SeriesFunctions.GroupingSnoc | index.js:693-697 | one push keeps `seriesByTagSet` grouping the series pushed so far, in insertion order of keys |
| SeriesFunctions.GroupingPush | index.js:693-697 | pushing onto an existing group, or onto a group created empty for new tags, keeps the grouping |
| SeriesFunctions.PushOne | index.js:693-697 | one push keeps the grouping of the series pushed so far |
| SeriesFunctions.PushSeries | index.js:692-698 | the inner loop pushes one metric's series |
| SeriesFunctions.GroupByTagSet | index.js:691-699 | the loops group every series by its tags, keys in insertion order |
| SeriesFunctions.CollectAllTimes | index.js:706-713 | the loop collects the positions of the series with points |
| SeriesFunctions.NonEmptyIndicesProperties | index.js:707-713 | the keys of `allTimes` are exactly the positions of the series with points, increasing |
| SeriesFunctions.AgreeWhileWriting | index.js:714-719 | while `time` is unwritten, the group as being written agrees at `time` with the group as it was |
| SeriesFunctions.WriteTime | index.js:716-717 | writing one key: the provider, handed the group being written, gives the value the original group gives |
| SeriesFunctions.WriteValues | index.js:714-720 | the loop writes the provided value at every key of `allTimes` into `input[0].dps` |
| SeriesFunctions.UnioningFunction | index.js:682-725 | the method returns the union of the groups |
| SeriesFunctions.UnionGroup | index.js:702-722 | the loop body builds one group's series |
| SeriesFunctions.GroupHead | index.js:705-714 | the group's first series is the first series with its tags |
| SeriesFunctions.UnionedGroups | index.js:682-725 | one result per distinct tags value, in first-occurrence order, each the first series with those tags with only `dps` rewritten |
| SeriesFunctions.UnionedSeries | index.js:702-722 | definition: `input[0]` with its `dps` replaced by the written union; `SeriesFunctions.UnionedGroups` states it changes only `dps` |
| SeriesFunctions.UnionedWritesPositions | index.js:709-719 | the values are written under positions, not timestamps: the first series' own points plus the provided value at each position of a series with points |
| SeriesFunctions.NonEmptyIndices | index.js:706-713 | definition: the positions of the series with points, the keys of `allTimes`; `SeriesFunctions.CollectAllTimes` computes it |
| SeriesFunctions.Writes | index.js:714-720 | definition: the provided value at every key of `allTimes`; `SeriesFunctions.WriteValues` computes it |
| SeriesFunctions.UnionedDps | index.js:682-725 | definition: the union's `dps`; `SeriesFunctions.UnionedWritesPositions` and `SeriesFunctions.UnionedIgnoresTimestamps` state what it holds |
| SeriesFunctions.UnionedIgnoresTimestamps | index.js:709-719 | with timestamps at least the group size, every provider writes 0 at each such position |
| GexpQuery.Lookup | index.js:727-955 | a function found under a name has that name |
| GexpQuery.LookupName | index.js:727-955 | every function is found under its own name |
| GexpQuery.MaxMetrics | index.js:727-955 | definition: the `maxMetrics` column, 26 for the union functions and 1 otherwise; `GexpQuery.TableColumns` relates the columns |
| GexpQuery.TakesExtraArg | index.js:727-955 | definition: the `extraArg` column, set for `scale`, `movingAverage`, `highestMax` and `highestCurrent`; `GexpQuery.TableColumns` relates the columns |
| GexpQuery.ArrayOutput | index.js:727-955 | definition: the `array_output` column, unset for the union functions; `GexpQuery.TableColumns` and `GexpQuery.MetricResultsForm` carry its properties |
| GexpQuery.TableColumns | index.js:727-955 | a function reads 26 metrics exactly when it queries them as objects, and one as arrays otherwise; only array functions take an extra argument |
| GexpQuery.MetricResults | index.js:1127-1131 | one answer per metric, or the first failure |
| GexpQuery.SingleQueryForm | index.js:507-593 | a single-metric answer has the requested `dps` form |
| GexpQuery.MetricResultsForm | index.js:1127-1131 | every metric answer has the `dps` form the function asks for |
| Wrappers.Collected | index.js:1127-1131 | definition: the results in order, or the first failure, as a loop that stops at the first exception; `Wrappers.CollectedOk` and `Wrappers.CollectedErr` carry its properties |
| Wrappers.CollectedOk | index.js:1127-1131 | the collection succeeds exactly when every result does, and then holds their values in order |
| Wrappers.CollectedErr | index.js:1127-1131 | a failing collection fails with its first failing result, every earlier one succeeding |
| GexpQuery.MetricResultsErrExtends | index.js:1127-1131 | a failure among the first metrics is the failure of the list |
| GexpQuery.MetricResultsFailure | index.js:1127-1131 | the list's failure is the failure of one of its queries |
| GexpQuery.MetricResultsSnoc | index.js:1128-1131 | one more query extends the list or ends it with its failure |
| GexpQuery.QueryMetrics | index.js:1127-1131 | the loop queries every metric |
| GexpQuery.KeyedFlatten | index.js:1130-1132 | the series of object-form answers are all object-form |
| GexpQuery.Process | index.js:727-955 | the union functions answer object-form series, the others arrays; failure exactly for `absolute` or `scale` with no metric and for `divideSeries` and the left-out functions |
| GexpQuery.ProcessSeries | index.js:1132 | the method runs the function's `process` |
| GexpQuery.Renamed | index.js:1133-1135 | every result renamed to the expression, nothing else changed |
| GexpQuery.RenameAll | index.js:1133-1135 | the loop renames every result |
| GexpQuery.MaxKeyExists | index.js:1145-1147 | a non-empty set of times has a greatest |
| GexpQuery.SnocGreatest | index.js:1145-1147 | appending a greatest time keeps the pairs increasing |
| GexpQuery.SortedPairs | index.js:1138-1148 | the pairs of an object by strictly increasing time, giving back the same object |
| GexpQuery.LastRemoved | index.js:1145-1147 | the last of increasing pairs holds the greatest time |
| GexpQuery.IncreasingUnique | index.js:1145-1147 | increasing pairs are determined by the object they make |
| GexpQuery.ArraysMappedRoundTrip | index.js:1136-1161 | increasing pairs turned into an object and back are unchanged |
| GexpQuery.ArraysToMapped | index.js:1154-1160 | conversion to an object always gives an object |
| GexpQuery.PairsToMap | index.js:1155-1158 | the loop builds the object of the pairs, later pairs winning |
| GexpQuery.ConvertedDps | index.js:1136-1162 | the requested form; unchanged when the forms agree; sorted pairs of the same object, or the object of the pairs |
| GexpQuery.Converted | index.js:1136-1162 | one result per result, only `dps` changed, in the requested form |
| GexpQuery.ConvertAll | index.js:1136-1162 | the loops convert every result |
| GexpQuery.GexpExpression | index.js:1042-1163 | the loop body answers one expression |
| GexpQuery.EvaluateExpression | index.js:1117-1162 | the method evaluates the scanned arguments |
| GexpQuery.Answers | index.js:1009-1164 | one answer per expression |
| GexpQuery.AnswersAt | index.js:1009-1164 | the `a`-th answer is the answer of the `a`-th expression |
| GexpQuery.GexpQueryImpl | index.js:957-1165 | the loop concatenates the expressions' answers or ends with the first failure |
| GexpQuery.EvaluateShape | index.js:1132-1162 | every result carries the expression as metric and the requested `dps` form; converted union results are sorted |
| GexpQuery.OutputShape | index.js:1133-1162 | renaming and converting gives that shape |
| GexpQuery.GexpAnswerShape | index.js:1042-1163 | every series an expression answers has that shape |
| GexpQuery.Evaluate | index.js:1117-1162 | definition: the function applied to the evaluated arguments; `GexpQuery.EvaluateShape` and `GexpQuery.EvaluateFailure` carry its properties |
| GexpQuery.GexpAnswer | index.js:1042-1163 | definition: one expression scanned and evaluated; `GexpQuery.GexpAnswerShape` and `GexpQuery.GexpAnswerFailure` carry its properties |
| GexpQuery.GexpQuery | index.js:957-1165 | definition: the expressions' answers concatenated, or the first failure; `GexpQuery.GexpQueryImpl` computes it |
| GexpQuery.EvaluateFailure | index.js:1117-1162 | a failure is a metric query's failure or the function's own |
| GexpQuery.GexpAnswerFailure | index.js:1042-1163 | `UnknownFunction` exactly when the name has no entry; otherwise a scanner, query or function failure |
| GexpQuery.AbsoluteNonNegative | index.js:727-741 | `absolute` answers no negative value |
| GexpQuery.ExampleExpression | index.js:1046-1111 | the example's name is `sumSeries`, found in the table, and both metric tokens are read |

## Left out

- HTTP and Express plumbing is not modelled: the route handlers, the `!start` check, `res.json`, and the search, suggest, uid-meta, version and aggregator endpoints. They are I/O with no query logic.
- The backend is the parameter `Backend`. `performBackendQueries`, `performAnnotationsQueries`, `uidMetaFromName` and `tsuid` are foreign calls.
- Annotations and global annotations are left out, with the seeded random generator and float interval arithmetic. They only decorate the answer.
- `toDateTime` is left out: it depends on `moment` and the wall clock. Start and end are integer milliseconds.
- The `query` echo of `showQuery` and all `config.verbose` logging are not part of the answer here.
- Regular-expression matching is the parameter `Matcher` of the rewritten pattern source and the candidate value. Only the match-all short-circuit and the literal family are modelled exactly.
- `movingAverage`, `highestMax` and `highestCurrent` answer `UnsupportedFunction`. Their behaviour exists only through JavaScript string and object coercion.
- `divideSeries` answers `NullResult`, an error outcome, where the code crashes on `mappedResults.length`.
- The `scale` factor is converted by the parameter `number`. JavaScript `Number` coercion of arbitrary text is not modelled.
- Point values are `real`: floating-point rounding, NaN and Infinity are not modelled.
- Series.Tags is an association list in insertion order. JavaScript's ordering of integer-like keys first is not modelled.
- GexpQuery.SortedPairs: the mapped-to-arrays conversion pushes keys as strings, `[k, v]` with `k` a string. The model keeps integer times.
- GexpQuery.SortedPairs: the library sort is modelled by its result, pairs by increasing time. Sort stability does not matter, because the keys are distinct.
- SingleMetricQuery.SingleQuery: a downsample number whose unit is not recognised leaves `downsampleNumberComponent` a `match` array, and `t += ...` then concatenates strings (index.js:483, 515); that grid is not modelled, and the query answers `UnmodelledGrid` instead.
- SingleMetricQuery.PerformSingleMetricQuery: answers `UnmodelledGrid` for a metric whose downsample number has an unrecognised unit, as SingleMetricQuery.SingleQuery does.
- GexpQuery.MetricResults: answers `UnmodelledGrid` for a metric whose downsample number has an unrecognised unit, as SingleMetricQuery.SingleQuery does.
- GexpQuery.QueryMetrics: answers `UnmodelledGrid` for a metric whose downsample number has an unrecognised unit, as SingleMetricQuery.SingleQuery does.
- GexpQuery.Evaluate: answers `UnmodelledGrid` for a metric whose downsample number has an unrecognised unit, as SingleMetricQuery.SingleQuery does.
- GexpQuery.EvaluateExpression: answers `UnmodelledGrid` for a metric whose downsample number has an unrecognised unit, as SingleMetricQuery.SingleQuery does.
- GexpQuery.GexpAnswer: answers `UnmodelledGrid` for a metric whose downsample number has an unrecognised unit, as SingleMetricQuery.SingleQuery does.
- GexpQuery.GexpExpression: answers `UnmodelledGrid` for a metric whose downsample number has an unrecognised unit, as SingleMetricQuery.SingleQuery does.
- GexpQuery.Answers: answers `UnmodelledGrid` for a metric whose downsample number has an unrecognised unit, as SingleMetricQuery.SingleQuery does.
- GexpQuery.GexpQueryImpl: answers `UnmodelledGrid` for a metric whose downsample number has an unrecognised unit, as SingleMetricQuery.SingleQuery does.
- The interpolation branch (index.js:535-555) is not modelled. It is unreachable, because index.js:524 already demands an exact timestamp match.
- ExprScanner: lemmas about written-out argument lists assume texts shorter than `calcNextCommaOrEnd`'s stand-in 10000000 for "no comma" (`NoComma`).
- The unused `min` and `max` helpers (index.js:138-162) and the `applyOverrides` configuration merging are not used by the query engine.
- GexpQuery.Lookup: a name that is an inherited `Object.prototype` property, such as `constructor`, answers `UnknownFunction`. In JavaScript it fails differently, with a TypeError later on.
- `toLowerCase` is modelled on ASCII letters only. Unicode case mapping is not modelled.
- Tag and tag-key uids are not read by the engine and are not modelled.
- The tests in test/internals.js that target `combineTimeSeries`, `downsampleSingleTimeSeriesPoints` and `parseSearchLookupQuery`, which index.js does not define, are not modelled.
