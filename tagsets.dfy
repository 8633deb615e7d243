/** Grouping of the filtered series into tag sets (index.js:258-296), the
    selection of the series taking part in one tag set (index.js:313-336) and
    the `aggregateTags` list of one group (index.js:450-462). */
module TagSets {
  import opened Series
  import opened Sequences
  import opened JsStrings

  // ---------------------------------------------------------------------------
  // constructUniqueTagSetsFromRawResults
  // ---------------------------------------------------------------------------

  /** `tagsIncluded`: the tag keys of the `group_by` filters. */
  function GroupByKeys(filters: seq<Filter>): (ks: set<string>)
    ensures forall k :: k in ks <==> exists i :: 0 <= i < |filters| && filters[i].groupBy && filters[i].tagk == k
  {
    set i | 0 <= i < |filters| && filters[i].groupBy :: filters[i].tagk
  }

  /** `tagSet`: the entries of `tags` whose key is included, in tag order. */
  function Restrict(tags: Tags, included: set<string>): Tags
    decreases |tags|
  {
    if |tags| == 0 then []
    else
      var last := tags[|tags| - 1];
      Restrict(tags[..|tags| - 1], included) + (if last.key in included then [last] else [])
  }

  /** The restriction holds exactly the included entries, in tag order. */
  lemma {:induction false} RestrictMembers(tags: Tags, included: set<string>)
    ensures forall t :: t in Restrict(tags, included) <==> t in tags && t.key in included
    ensures IsSubsequence(Restrict(tags, included), tags)
    decreases |tags|
  {
    if |tags| > 0 {
      var p := tags[..|tags| - 1];
      var last := tags[|tags| - 1];
      RestrictMembers(p, included);
      assert p + [last] == tags;
      assert forall t :: t in tags <==> t in p || t == last;
      SubsequenceSnoc(Restrict(p, included), p, last);
      if last.key in included {
        assert Restrict(tags, included) == Restrict(p, included) + [last];
      } else {
        assert Restrict(tags, included) == Restrict(p, included);
      }
    } else {
      SubsequenceReflexive(tags);
    }
  }

  /** `tagk + ":" + tagv`. */
  function KvString(t: Tag): string
  {
    t.key + ":" + t.value
  }

  function KvStrings(r: Tags): (kvs: seq<string>)
    ensures |kvs| == |r|
    ensures forall i :: 0 <= i < |r| ==> kvs[i] == KvString(r[i])
  {
    seq(|r|, i requires 0 <= i < |r| => KvString(r[i]))
  }

  /** `JSON.stringify(kvArray.sort())`: two kv arrays give the same key iff
      they hold the same strings the same number of times, which is what a
      multiset records. */
  function SetKey(r: Tags): multiset<string>
  {
    multiset(KvStrings(r))
  }

  /** The `sets` object: its keys in insertion order and the value under each. */
  datatype KeyedSets = KeyedSets(keys: seq<multiset<string>>, vals: seq<Tags>)

  /** `sets[k] = v`: an existing key keeps its position and takes the new value. */
  function Store(s: KeyedSets, k: multiset<string>, v: Tags): (r: KeyedSets)
    requires |s.keys| == |s.vals|
    ensures |r.keys| == |r.vals|
  {
    if k in s.keys then KeyedSets(s.keys, s.vals[FirstIndex(s.keys, k) := v])
    else KeyedSets(s.keys + [k], s.vals + [v])
  }

  /** `sets` after storing each restriction under its key, in order. */
  function SetsOf(rs: seq<Tags>): (s: KeyedSets)
    ensures |s.keys| == |s.vals|
    decreases |rs|
  {
    if |rs| == 0 then KeyedSets([], [])
    else
      var last := rs[|rs| - 1];
      Store(SetsOf(rs[..|rs| - 1]), SetKey(last), last)
  }

  function Restrictions(xs: seq<RawSeries>, included: set<string>): (rs: seq<Tags>)
    ensures |rs| == |xs|
    ensures forall i :: 0 <= i < |xs| ==> rs[i] == Restrict(xs[i].tags, included)
  {
    seq(|xs|, i requires 0 <= i < |xs| => Restrict(xs[i].tags, included))
  }

  /** What `constructUniqueTagSetsFromRawResults` returns. */
  function UniqueTagSets(xs: seq<RawSeries>, filters: seq<Filter>): seq<Tags>
  {
    var vals := SetsOf(Restrictions(xs, GroupByKeys(filters))).vals;
    if |vals| == 0 then [[]] else vals
  }

  /** The grouping key of each restriction, in order. */
  function KeysOf(rs: seq<Tags>): (ks: seq<multiset<string>>)
    ensures |ks| == |rs|
    ensures forall i :: 0 <= i < |rs| ==> ks[i] == SetKey(rs[i])
  {
    seq(|rs|, i requires 0 <= i < |rs| => SetKey(rs[i]))
  }

  /** index.js:260-266. */
  method IncludedKeys(filters: seq<Filter>) returns (tagsIncluded: set<string>)
    ensures tagsIncluded == GroupByKeys(filters)
  {
    tagsIncluded := {};
    for f := 0 to |filters|
      invariant tagsIncluded == GroupByKeys(filters[..f])
    {
      if filters[f].groupBy {
        tagsIncluded := tagsIncluded + {filters[f].tagk};
      }
      assert forall i :: 0 <= i < f ==> filters[..f + 1][i] == filters[..f][i];
    }
    assert filters[..|filters|] == filters;
  }

  /** index.js:272-281: the included entries of one series and their `k:v` strings. */
  method RestrictTags(tags: Tags, tagsIncluded: set<string>) returns (kvArray: seq<string>, tagSet: Tags)
    ensures tagSet == Restrict(tags, tagsIncluded)
    ensures kvArray == KvStrings(tagSet)
  {
    kvArray := [];
    tagSet := [];
    for i := 0 to |tags|
      invariant tagSet == Restrict(tags[..i], tagsIncluded)
      invariant kvArray == KvStrings(tagSet)
    {
      assert tags[..i + 1][..i] == tags[..i];
      if tags[i].key in tagsIncluded {
        kvArray := kvArray + [KvString(tags[i])];
        tagSet := tagSet + [tags[i]];
      }
    }
    assert tags[..|tags|] == tags;
  }

  lemma RestrictionsSnoc(xs: seq<RawSeries>, t: nat, included: set<string>)
    requires t < |xs|
    ensures Restrictions(xs[..t + 1], included) == Restrictions(xs[..t], included) + [Restrict(xs[t].tags, included)]
  {
  }

  lemma SetsOfSnoc(rs: seq<Tags>, r: Tags)
    ensures SetsOf(rs + [r]) == Store(SetsOf(rs), SetKey(r), r)
  {
    assert (rs + [r])[..|rs|] == rs;
  }

  /** index.js:258-296. */
  method ConstructUniqueTagSets(rawTimeSeries: seq<RawSeries>, filters: seq<Filter>) returns (ret: seq<Tags>)
    ensures ret == UniqueTagSets(rawTimeSeries, filters)
  {
    var tagsIncluded := IncludedKeys(filters);
    var keys: seq<multiset<string>> := [];
    var vals: seq<Tags> := [];
    for t := 0 to |rawTimeSeries|
      invariant KeyedSets(keys, vals) == SetsOf(Restrictions(rawTimeSeries[..t], tagsIncluded))
    {
      var kvArray, tagSet := RestrictTags(rawTimeSeries[t].tags, tagsIncluded);
      RestrictionsSnoc(rawTimeSeries, t, tagsIncluded);
      SetsOfSnoc(Restrictions(rawTimeSeries[..t], tagsIncluded), tagSet);
      var key := multiset(kvArray);
      if key in keys {
        vals := vals[FirstIndex(keys, key) := tagSet];
      } else {
        keys := keys + [key];
        vals := vals + [tagSet];
      }
    }
    assert rawTimeSeries[..|rawTimeSeries|] == rawTimeSeries;
    ret := [];
    for u := 0 to |keys|
      invariant ret == vals[..u]
    {
      ret := ret + [vals[u]];
    }
    assert vals[..|keys|] == vals;
    if |ret| == 0 {
      ret := [[]];
    }
  }

  /** The keys of `sets` are the keys of the restrictions, each once, in the
      order they were first stored. */
  lemma {:induction false} SetsOfKeys(rs: seq<Tags>)
    ensures SetsOf(rs).keys == Dedup(KeysOf(rs))
    decreases |rs|
  {
    if |rs| > 0 {
      var p := rs[..|rs| - 1];
      SetsOfKeys(p);
      assert KeysOf(rs)[..|rs| - 1] == KeysOf(p);
    }
  }

  /** Under each key of `sets` sits a restriction with that key. */
  lemma {:induction false} SetsOfValKeys(rs: seq<Tags>)
    ensures forall i :: 0 <= i < |SetsOf(rs).keys| ==> SetKey(SetsOf(rs).vals[i]) == SetsOf(rs).keys[i]
    decreases |rs|
  {
    if |rs| > 0 {
      SetsOfValKeys(rs[..|rs| - 1]);
    }
  }

  /** Under each key of `sets` sits the last restriction stored with it. */
  lemma {:induction false} SetsOfLastStored(rs: seq<Tags>)
    ensures forall i :: 0 <= i < |SetsOf(rs).keys| ==>
      SetsOf(rs).keys[i] in KeysOf(rs) &&
      SetsOf(rs).vals[i] == rs[LastIndex(KeysOf(rs), SetsOf(rs).keys[i])]
    decreases |rs|
  {
    if |rs| > 0 {
      var p := rs[..|rs| - 1];
      var last := rs[|rs| - 1];
      var ks := KeysOf(rs);
      assert ks[..|rs| - 1] == KeysOf(p);
      SetsOfLastStored(p);
      var s := SetsOf(p);
      var r := SetsOf(rs);
      assert r == Store(s, SetKey(last), last);
      forall i | 0 <= i < |r.keys|
        ensures r.keys[i] in ks && r.vals[i] == rs[LastIndex(ks, r.keys[i])]
      {
        if i < |s.keys| && s.keys[i] != SetKey(last) {
          var k := s.keys[i];
          assert r.vals[i] == s.vals[i] && r.keys[i] == k;
          assert k in KeysOf(p);
          assert k in ks by {
            var m := LastIndex(KeysOf(p), k);
            assert ks[m] == k;
          }
          assert LastIndex(ks, k) == LastIndex(KeysOf(p), k);
          assert rs[LastIndex(ks, k)] == p[LastIndex(KeysOf(p), k)];
        } else {
          if i < |s.keys| {
            assert FirstIndex(s.keys, SetKey(last)) == i by {
              SetsOfKeys(p);
              DedupProperties(KeysOf(p));
            }
          }
          assert r.vals[i] == last && r.keys[i] == SetKey(last);
          assert ks[|rs| - 1] == SetKey(last);
        }
      }
    }
  }

  /** The result is never empty, and is `[{}]` when there are no series or no
      `group_by` filters. */
  lemma UniqueTagSetsFallback(xs: seq<RawSeries>, filters: seq<Filter>)
    ensures |UniqueTagSets(xs, filters)| >= 1
    ensures |xs| == 0 ==> UniqueTagSets(xs, filters) == [[]]
    ensures (forall i :: 0 <= i < |filters| ==> !filters[i].groupBy) ==> UniqueTagSets(xs, filters) == [[]]
  {
    var rs := Restrictions(xs, GroupByKeys(filters));
    if forall i :: 0 <= i < |filters| ==> !filters[i].groupBy {
      assert GroupByKeys(filters) == {};
      forall i | 0 <= i < |rs| ensures rs[i] == [] {
        NothingIncluded(xs[i].tags, GroupByKeys(filters));
      }
      AllEmptyRestrictions(rs);
    }
  }

  lemma NothingIncluded(tags: Tags, included: set<string>)
    requires included == {}
    ensures Restrict(tags, included) == []
  {
    var r := Restrict(tags, included);
    RestrictMembers(tags, included);
  }

  lemma {:induction false} AllEmptyRestrictions(rs: seq<Tags>)
    requires forall i :: 0 <= i < |rs| ==> rs[i] == []
    ensures |rs| > 0 ==> SetsOf(rs) == KeyedSets([multiset{}], [[]])
    ensures |rs| == 0 ==> SetsOf(rs) == KeyedSets([], [])
    decreases |rs|
  {
    if |rs| > 0 {
      AllEmptyRestrictions(rs[..|rs| - 1]);
      assert SetKey([]) == multiset{};
    }
  }

  /** The grouping keys of all series. */
  function SeriesKeys(xs: seq<RawSeries>, filters: seq<Filter>): seq<multiset<string>>
  {
    KeysOf(Restrictions(xs, GroupByKeys(filters)))
  }

  /** Each element of the result is the restriction of some series' tags to
      the `group_by` keys (or the lone fallback `{}` when there are no series). */
  lemma UniqueTagSetsAreRestrictions(xs: seq<RawSeries>, filters: seq<Filter>)
    requires |xs| > 0
    ensures forall i :: 0 <= i < |UniqueTagSets(xs, filters)| ==>
      exists j :: 0 <= j < |xs| && UniqueTagSets(xs, filters)[i] == Restrict(xs[j].tags, GroupByKeys(filters))
  {
    var rs := Restrictions(xs, GroupByKeys(filters));
    SetsOfLastStored(rs);
    SetsOfKeys(rs);
    DedupProperties(KeysOf(rs));
    assert KeysOf(rs)[0] in Dedup(KeysOf(rs));
    forall i | 0 <= i < |UniqueTagSets(xs, filters)|
      ensures exists j :: 0 <= j < |xs| && UniqueTagSets(xs, filters)[i] == Restrict(xs[j].tags, GroupByKeys(filters))
    {
      var j := LastIndex(KeysOf(rs), SetsOf(rs).keys[i]);
      assert UniqueTagSets(xs, filters)[i] == rs[j];
    }
  }

  /** No two elements of the result are equal, each element's key is some
      series' key, every series' key is some element's, and the elements come
      in the order their keys were first seen. */
  lemma UniqueTagSetsKeys(xs: seq<RawSeries>, filters: seq<Filter>)
    requires |xs| > 0
    ensures NoDuplicates(UniqueTagSets(xs, filters))
    ensures forall i :: 0 <= i < |UniqueTagSets(xs, filters)| ==> SetKey(UniqueTagSets(xs, filters)[i]) in SeriesKeys(xs, filters)
    ensures forall j :: 0 <= j < |xs| ==>
      exists i :: 0 <= i < |UniqueTagSets(xs, filters)| && SetKey(UniqueTagSets(xs, filters)[i]) == SeriesKeys(xs, filters)[j]
    ensures forall i, i' :: 0 <= i < i' < |UniqueTagSets(xs, filters)| ==>
      FirstIndex(SeriesKeys(xs, filters), SetKey(UniqueTagSets(xs, filters)[i]))
        < FirstIndex(SeriesKeys(xs, filters), SetKey(UniqueTagSets(xs, filters)[i']))
  {
    var u, ks := SetsKeyedByDedup(xs, filters);
    KeyedByDedup(u, ks);
  }

  /** With at least one series, the tag sets are keyed by the deduplicated series keys. */
  lemma SetsKeyedByDedup(xs: seq<RawSeries>, filters: seq<Filter>) returns (u: seq<Tags>, ks: seq<multiset<string>>)
    requires |xs| > 0
    ensures u == UniqueTagSets(xs, filters) && ks == SeriesKeys(xs, filters)
    ensures |ks| > 0 && |u| == |Dedup(ks)|
    ensures forall i :: 0 <= i < |u| ==> SetKey(u[i]) == Dedup(ks)[i]
  {
    var rs := Restrictions(xs, GroupByKeys(filters));
    u, ks := SetsOf(rs).vals, KeysOf(rs);
    SetsOfNonEmpty(rs);
    SetsOfKeys(rs);
    SetsOfValKeys(rs);
  }

  lemma SetsOfNonEmpty(rs: seq<Tags>)
    requires |rs| > 0
    ensures |SetsOf(rs).vals| > 0
  {
    SetsOfKeys(rs);
    DedupProperties(KeysOf(rs));
    assert KeysOf(rs)[0] in Dedup(KeysOf(rs));
  }

  /** Sets whose keys are the deduplicated `ks` are distinct, cover `ks`,
      and come in the order of first occurrence. */
  lemma KeyedByDedup(u: seq<Tags>, ks: seq<multiset<string>>)
    requires |ks| > 0 && |u| == |Dedup(ks)|
    requires forall i :: 0 <= i < |u| ==> SetKey(u[i]) == Dedup(ks)[i]
    ensures NoDuplicates(u)
    ensures forall i :: 0 <= i < |u| ==> SetKey(u[i]) in ks
    ensures forall j :: 0 <= j < |ks| ==> exists i :: 0 <= i < |u| && SetKey(u[i]) == ks[j]
    ensures forall i, i' :: 0 <= i < i' < |u| ==> FirstIndex(ks, SetKey(u[i])) < FirstIndex(ks, SetKey(u[i']))
  {
    var d := Dedup(ks);
    DedupProperties(ks);
    KeyedDistinct(u, d);
    KeyedCover(u, ks, d);
  }

  /** Sets keyed by distinct keys are distinct. */
  lemma KeyedDistinct(u: seq<Tags>, d: seq<multiset<string>>)
    requires |u| == |d| && NoDuplicates(d)
    requires forall i :: 0 <= i < |u| ==> SetKey(u[i]) == d[i]
    ensures NoDuplicates(u)
  {
    forall i, j | 0 <= i < j < |u| ensures u[i] != u[j] {
      assert SetKey(u[i]) == d[i] && SetKey(u[j]) == d[j];
    }
  }

  /** Sets keyed by the members of `d` have keys in `ks` and, when `d` holds
      every key of `ks`, cover them all. */
  lemma KeyedCover(u: seq<Tags>, ks: seq<multiset<string>>, d: seq<multiset<string>>)
    requires |u| == |d| && forall x :: x in d <==> x in ks
    requires forall i :: 0 <= i < |u| ==> SetKey(u[i]) == d[i]
    ensures forall i :: 0 <= i < |u| ==> SetKey(u[i]) in ks
    ensures forall j :: 0 <= j < |ks| ==> exists i :: 0 <= i < |u| && SetKey(u[i]) == ks[j]
  {
    forall i | 0 <= i < |u| ensures SetKey(u[i]) in ks {
      assert d[i] in d;
    }
    forall j | 0 <= j < |ks| ensures exists i :: 0 <= i < |u| && SetKey(u[i]) == ks[j] {
      assert ks[j] in d;
      var i :| 0 <= i < |d| && d[i] == ks[j];
      assert SetKey(u[i]) == ks[j];
    }
  }

  /** The grouping key cannot tell apart two different entries with the same
      `k:v` string: two single-entry series with such tags fall into one tag
      set, and only the later one's tags survive. */
  lemma TagSetKeyCollision(x: RawSeries, y: RawSeries, filters: seq<Filter>)
    requires |x.tags| == 1 && |y.tags| == 1
    requires x.tags[0] != y.tags[0] && KvString(x.tags[0]) == KvString(y.tags[0])
    requires x.tags[0].key in GroupByKeys(filters) && y.tags[0].key in GroupByKeys(filters)
    ensures UniqueTagSets([x, y], filters) == [y.tags]
    ensures Restrict(x.tags, GroupByKeys(filters)) !in UniqueTagSets([x, y], filters)
  {
    var inc := GroupByKeys(filters);
    var rs := Restrictions([x, y], inc);
    assert rs == [x.tags, y.tags] by {
      RestrictSingle(x.tags, inc);
      RestrictSingle(y.tags, inc);
      assert rs[0] == Restrict(x.tags, inc) && rs[1] == Restrict(y.tags, inc);
    }
    assert KvStrings(y.tags) == KvStrings(x.tags);
    SetsOfSameKey(x.tags, y.tags);
  }

  /** Two restrictions with one key make one set holding the later one. */
  lemma SetsOfSameKey(a: Tags, b: Tags)
    requires SetKey(a) == SetKey(b)
    ensures SetsOf([a, b]) == KeyedSets([SetKey(a)], [b])
  {
    SetsOfSnoc([], a);
    assert [] + [a] == [a];
    SetsOfSnoc([a], b);
    assert [a] + [b] == [a, b];
  }

  lemma RestrictSingle(tags: Tags, included: set<string>)
    requires |tags| == 1 && tags[0].key in included
    ensures Restrict(tags, included) == tags
  {
    assert tags[..0] == [];
    assert Restrict(tags, included) == Restrict(tags[..0], included) + [tags[0]];
  }

  /** Such entries exist: `{"a:b": "c"}` and `{"a": "b:c"}`. */
  lemma CollidingEntries()
    ensures Tag("a:b", "c") != Tag("a", "b:c") && KvString(Tag("a:b", "c")) == KvString(Tag("a", "b:c"))
  {
  }

  // ---------------------------------------------------------------------------
  // rawTimeSeriesForTagSet
  // ---------------------------------------------------------------------------

  /** The series has every key of the tag set, with an equal value. */
  predicate MatchesTagSet(s: RawSeries, tagset: Tags)
  {
    forall i :: 0 <= i < |tagset| ==> HasKey(s.tags, tagset[i].key) && ValueOf(s.tags, tagset[i].key) == tagset[i].value
  }

  /** The series matching the tag set, in input order. */
  function SeriesForTagSet(xs: seq<RawSeries>, tagset: Tags): seq<RawSeries>
    decreases |xs|
  {
    if |xs| == 0 then []
    else
      var last := xs[|xs| - 1];
      SeriesForTagSet(xs[..|xs| - 1], tagset) + (if MatchesTagSet(last, tagset) then [last] else [])
  }

  /** index.js:313-336. */
  method RawTimeSeriesForTagSet(rawTimeSeries: seq<RawSeries>, tagset: Tags) returns (ret: seq<RawSeries>)
    ensures ret == SeriesForTagSet(rawTimeSeries, tagset)
  {
    ret := [];
    for t := 0 to |rawTimeSeries|
      invariant ret == SeriesForTagSet(rawTimeSeries[..t], tagset)
    {
      var ts := rawTimeSeries[t];
      var exclude := false;
      for i := 0 to |tagset|
        invariant exclude <==> !(forall m :: 0 <= m < i ==>
          HasKey(ts.tags, tagset[m].key) && ValueOf(ts.tags, tagset[m].key) == tagset[m].value)
      {
        if !HasKey(ts.tags, tagset[i].key) {
          exclude := true;
        } else if ValueOf(ts.tags, tagset[i].key) != tagset[i].value {
          exclude := true;
        }
      }
      if !exclude {
        ret := ret + [ts];
      }
      assert rawTimeSeries[..t + 1][..t] == rawTimeSeries[..t];
    }
    assert rawTimeSeries[..|rawTimeSeries|] == rawTimeSeries;
  }

  /** In input order, exactly the series matching the tag set; an empty tag
      set selects every series. */
  lemma {:induction false} SeriesForTagSetSelects(xs: seq<RawSeries>, tagset: Tags)
    ensures IsSubsequence(SeriesForTagSet(xs, tagset), xs)
    ensures forall s :: s in SeriesForTagSet(xs, tagset) <==> s in xs && MatchesTagSet(s, tagset)
    ensures tagset == [] ==> SeriesForTagSet(xs, tagset) == xs
    decreases |xs|
  {
    if |xs| > 0 {
      var p, last := xs[..|xs| - 1], xs[|xs| - 1];
      SeriesForTagSetSelects(p, tagset);
      SelectsSnoc(xs, p, last, SeriesForTagSet(p, tagset), tagset);
    } else {
      SubsequenceReflexive(xs);
    }
  }

  /** The selection keeps its properties when one more series is considered. */
  lemma SelectsSnoc(xs: seq<RawSeries>, p: seq<RawSeries>, last: RawSeries, rp: seq<RawSeries>, tagset: Tags)
    requires |xs| > 0 && p == xs[..|xs| - 1] && last == xs[|xs| - 1]
    requires rp == SeriesForTagSet(p, tagset) && IsSubsequence(rp, p)
    requires forall s :: s in rp <==> s in p && MatchesTagSet(s, tagset)
    requires tagset == [] ==> rp == p
    ensures IsSubsequence(SeriesForTagSet(xs, tagset), xs)
    ensures forall s :: s in SeriesForTagSet(xs, tagset) <==> s in xs && MatchesTagSet(s, tagset)
    ensures tagset == [] ==> SeriesForTagSet(xs, tagset) == xs
  {
    var r, m := SeriesForTagSet(xs, tagset), MatchesTagSet(last, tagset);
    assert r == rp + (if m then [last] else []);
    assert p + [last] == xs;
    SubsequenceSnoc(rp, p, last);
    if m {
      assert r == rp + [last];
    } else {
      assert r == rp;
    }
    forall s ensures s in r <==> s in xs && MatchesTagSet(s, tagset) {
      assert s in xs <==> s in p || s == last;
    }
    if tagset == [] {
      assert m;
    }
  }

  /** A series whose tags have distinct keys matches any selection of its own entries. */
  lemma EntriesMatch(s: RawSeries, v: Tags)
    requires DistinctKeys(s.tags)
    requires forall t :: t in v ==> t in s.tags
    ensures MatchesTagSet(s, v)
  {
    forall i | 0 <= i < |v| ensures HasKey(s.tags, v[i].key) && ValueOf(s.tags, v[i].key) == v[i].value {
      assert v[i] in s.tags;
      var j :| 0 <= j < |s.tags| && s.tags[j] == v[i];
      ValueOfEntry(s.tags, j);
    }
  }

  /** Every tag set the grouping returns has at least one participating
      series, so none of the groups is dropped for having no participants. */
  lemma EveryTagSetHasParticipant(xs: seq<RawSeries>, filters: seq<Filter>, i: nat)
    requires |xs| > 0
    requires forall j :: 0 <= j < |xs| ==> DistinctKeys(xs[j].tags)
    requires i < |UniqueTagSets(xs, filters)|
    ensures |SeriesForTagSet(xs, UniqueTagSets(xs, filters)[i])| > 0
  {
    var u := UniqueTagSets(xs, filters);
    UniqueTagSetsAreRestrictions(xs, filters);
    var j :| 0 <= j < |xs| && u[i] == Restrict(xs[j].tags, GroupByKeys(filters));
    RestrictMembers(xs[j].tags, GroupByKeys(filters));
    EntriesMatch(xs[j], u[i]);
    SeriesForTagSetSelects(xs, u[i]);
    assert xs[j] in SeriesForTagSet(xs, u[i]);
  }

  /** When no tag key holds a `:`, the `k:v` strings determine the tags. */
  lemma KvStringInjective(t: Tag, u: Tag)
    requires ':' !in t.key && ':' !in u.key
    requires KvString(t) == KvString(u)
    ensures t == u
  {
    var a := KvString(t);
    assert a == t.key + [':'] + t.value && KvString(u) == u.key + [':'] + u.value;
    IndexOfAfterFree(t.key, ':', t.value);
    IndexOfAfterFree(u.key, ':', u.value);
    assert t.key == a[..|t.key|] == u.key;
    assert t.value == a[|t.key| + 1..] == u.value;
  }

  /** With colon-free keys, two tag lists with the same grouping key hold the same entries. */
  lemma SameKeySameEntries(v: Tags, r: Tags)
    requires SetKey(v) == SetKey(r)
    requires forall t :: t in v ==> ':' !in t.key
    requires forall t :: t in r ==> ':' !in t.key
    ensures forall t :: t in v ==> t in r
  {
    forall t | t in v ensures t in r {
      var m :| 0 <= m < |v| && v[m] == t;
      assert KvStrings(v)[m] == KvString(t);
      assert KvString(t) in multiset(KvStrings(v));
      assert KvString(t) in KvStrings(r);
      var n :| 0 <= n < |r| && KvStrings(r)[n] == KvString(t);
      KvStringInjective(r[n], t);
    }
  }

  /** When no tag key holds a `:`, each series takes part in the tag set
      stored under its own key. */
  lemma SeriesMatchesItsTagSet(xs: seq<RawSeries>, filters: seq<Filter>, j: nat)
    requires j < |xs|
    requires forall m :: 0 <= m < |xs| ==> DistinctKeys(xs[m].tags)
    requires forall m, n :: 0 <= m < |xs| && 0 <= n < |xs[m].tags| ==> ':' !in xs[m].tags[n].key
    ensures exists i :: (0 <= i < |UniqueTagSets(xs, filters)| &&
      SetKey(UniqueTagSets(xs, filters)[i]) == SetKey(Restrict(xs[j].tags, GroupByKeys(filters))) &&
      MatchesTagSet(xs[j], UniqueTagSets(xs, filters)[i]))
  {
    var inc := GroupByKeys(filters);
    var u := UniqueTagSets(xs, filters);
    UniqueTagSetsKeys(xs, filters);
    UniqueTagSetsAreRestrictions(xs, filters);
    var r := Restrict(xs[j].tags, inc);
    assert SeriesKeys(xs, filters)[j] == SetKey(r);
    var i :| 0 <= i < |u| && SetKey(u[i]) == SetKey(r);
    var j2 :| 0 <= j2 < |xs| && u[i] == Restrict(xs[j2].tags, inc);
    RestrictionsMatch(xs[j], xs[j2], inc, u[i]);
  }

  /** A restriction of another series' tags with the same key as this
      series' own restriction is matched by this series, when no key holds
      a `:`. */
  lemma RestrictionsMatch(x: RawSeries, y: RawSeries, inc: set<string>, v: Tags)
    requires DistinctKeys(x.tags)
    requires forall n :: 0 <= n < |x.tags| ==> ':' !in x.tags[n].key
    requires forall n :: 0 <= n < |y.tags| ==> ':' !in y.tags[n].key
    requires v == Restrict(y.tags, inc) && SetKey(v) == SetKey(Restrict(x.tags, inc))
    ensures MatchesTagSet(x, v)
  {
    var r := Restrict(x.tags, inc);
    NoColonRestricted(y.tags, inc, v);
    NoColonRestricted(x.tags, inc, r);
    SameKeySameEntries(v, r);
    RestrictMembers(x.tags, inc);
    EntriesMatch(x, v);
  }

  /** A restriction keeps only keys of the tags it restricts. */
  lemma NoColonRestricted(tags: Tags, inc: set<string>, v: Tags)
    requires forall n :: 0 <= n < |tags| ==> ':' !in tags[n].key
    requires v == Restrict(tags, inc)
    ensures forall t :: t in v ==> ':' !in t.key
  {
    RestrictMembers(tags, inc);
    forall t: Tag | t in v ensures ':' !in t.key {
      var n :| 0 <= n < |tags| && tags[n] == t;
    }
  }

  // ---------------------------------------------------------------------------
  // aggregateTags
  // ---------------------------------------------------------------------------

  /** The keys of `tags` that the tag set lacks, in tag order. */
  function KeysOutside(tags: Tags, tagset: Tags): (ks: seq<string>)
    ensures forall k :: k in ks <==> HasKey(tags, k) && !HasKey(tagset, k)
    decreases |tags|
  {
    if |tags| == 0 then []
    else
      var last := tags[|tags| - 1];
      var p := tags[..|tags| - 1];
      assert forall k :: HasKey(tags, k) <==> HasKey(p, k) || last.key == k by {
        forall k | HasKey(tags, k) ensures HasKey(p, k) || last.key == k {
          var i :| 0 <= i < |tags| && tags[i].key == k;
          if i < |p| { assert p[i].key == k; }
        }
        forall k | HasKey(p, k) ensures HasKey(tags, k) {
          var i :| 0 <= i < |p| && p[i].key == k;
          assert tags[i].key == k;
        }
      }
      KeysOutside(p, tagset) + (if HasKey(tagset, last.key) then [] else [last.key])
  }

  /** Those keys over all participants, one participant after another. */
  function AllKeysOutside(ps: seq<RawSeries>, tagset: Tags): (ks: seq<string>)
    ensures forall k :: k in ks <==> (exists p :: p in ps && HasKey(p.tags, k)) && !HasKey(tagset, k)
    decreases |ps|
  {
    if |ps| == 0 then []
    else
      var p := ps[..|ps| - 1];
      assert forall q :: q in ps <==> q in p || q == ps[|ps| - 1];
      AllKeysOutside(p, tagset) + KeysOutside(ps[|ps| - 1].tags, tagset)
  }

  /** The `aggregateTags` list the loop builds. */
  function AggregatedTags(ps: seq<RawSeries>, tagset: Tags): seq<string>
  {
    Dedup(AllKeysOutside(ps, tagset))
  }

  /** index.js:453-460 for one participant: its keys missing from the tag
      set are appended unless already present. */
  method AddKeysOutside(aggregateTags: seq<string>, ghost seen: seq<string>, tags: Tags, tagset: Tags)
    returns (r: seq<string>)
    requires aggregateTags == Dedup(seen)
    ensures r == Dedup(seen + KeysOutside(tags, tagset))
  {
    r := aggregateTags;
    assert seen + KeysOutside(tags[..0], tagset) == seen;
    for i := 0 to |tags|
      invariant r == Dedup(seen + KeysOutside(tags[..i], tagset))
    {
      var k := tags[i].key;
      ghost var before := seen + KeysOutside(tags[..i], tagset);
      assert tags[..i + 1][..i] == tags[..i];
      if !HasKey(tagset, k) {
        if k !in r {
          r := r + [k];
        }
        assert (before + [k])[..|before|] == before;
        assert seen + KeysOutside(tags[..i + 1], tagset) == before + [k];
      } else {
        assert KeysOutside(tags[..i + 1], tagset) == KeysOutside(tags[..i], tagset);
      }
    }
    assert tags[..|tags|] == tags;
  }

  /** index.js:450-462. */
  method AggregateTags(participants: seq<RawSeries>, tagset: Tags) returns (aggregateTags: seq<string>)
    ensures aggregateTags == AggregatedTags(participants, tagset)
  {
    aggregateTags := [];
    for p := 0 to |participants|
      invariant aggregateTags == Dedup(AllKeysOutside(participants[..p], tagset))
    {
      aggregateTags := AddKeysOutside(aggregateTags, AllKeysOutside(participants[..p], tagset), participants[p].tags, tagset);
      assert participants[..p + 1][..p] == participants[..p];
    }
    assert participants[..|participants|] == participants;
  }

  /** `aggregateTags` holds each participant tag key missing from the tag set
      exactly once, in the order the keys were first seen, unsorted. */
  lemma AggregatedTagsProperties(ps: seq<RawSeries>, tagset: Tags)
    ensures forall k :: k in AggregatedTags(ps, tagset) <==>
      (exists p :: p in ps && HasKey(p.tags, k)) && !HasKey(tagset, k)
    ensures NoDuplicates(AggregatedTags(ps, tagset))
    ensures forall i, j :: 0 <= i < j < |AggregatedTags(ps, tagset)| ==>
      FirstIndex(AllKeysOutside(ps, tagset), AggregatedTags(ps, tagset)[i])
        < FirstIndex(AllKeysOutside(ps, tagset), AggregatedTags(ps, tagset)[j])
  {
    DedupProperties(AllKeysOutside(ps, tagset));
  }
}
