/** Post-backend tag filtering (`postBackendFiltering`, index.js:176-244):
    each filter becomes a predicate on a tag value, and every series that
    lacks the filter's tag key or whose value fails the predicate is spliced
    out of the caller's array, scanning backward. */
module Filtering {
  import opened Series
  import opened JsStrings
  import opened Sequences

  /** `candidate.match(new RegExp(source)) != null`, including the `catch`
      that turns an invalid pattern into "no match". Regular-expression
      semantics are not modelled: the matcher is a parameter. */
  type Matcher = (string, string) -> bool

  /** The JavaScript string coercion of a `filter` field (`==` against a
      string, `new RegExp(...)`): an array becomes its comma-joined text. */
  function SpecText(spec: FilterSpec): string
  {
    match spec
    case Values(vs) => Join(vs, ',')
    case Pattern(p) => p
  }

  predicate IsLiteralFamily(t: FilterType)
  {
    t.LiteralOr? || t.ILiteralOr? || t.NotLiteralOr? || t.NotILiteralOr?
  }

  predicate IsPatternFamily(t: FilterType)
  {
    t.Wildcard? || t.IWildcard? || t.Regexp?
  }

  /** `filter.type.indexOf("iliteral") >= 0` within the literal family. */
  predicate IgnoresCase(t: FilterType)
  {
    t.ILiteralOr? || t.NotILiteralOr?
  }

  /** `fn != null`: the type is one of the seven recognised ones. */
  predicate HasPredicate(f: Filter)
  {
    IsLiteralFamily(f.ftype) || IsPatternFamily(f.ftype)
  }

  /** The short-circuit at index.js:199-200. */
  predicate MatchesAll(f: Filter)
  {
    ((f.ftype.Wildcard? || f.ftype.IWildcard?) && SpecText(f.spec) == "*")
    || (f.ftype.Regexp? && SpecText(f.spec) == ".*")
  }

  /** A wildcard filter whose `filter` is an array and is not a match-all:
      `regexp.split` is not a function on an array, so building the
      predicate throws. */
  predicate ThrowsOnSetup(f: Filter)
  {
    (f.ftype.Wildcard? || f.ftype.IWildcard?) && f.spec.Values? && !MatchesAll(f)
  }

  function LowerAll(vs: seq<string>): (r: seq<string>)
    ensures |r| == |vs|
    ensures forall i :: 0 <= i < |vs| ==> r[i] == Lower(vs[i])
  {
    seq(|vs|, i requires 0 <= i < |vs| => Lower(vs[i]))
  }

  /** The filter after index.js:187-191 lowercased its value list in place
      (only an array value list of a case-insensitive literal filter changes). */
  function Prepared(f: Filter): (g: Filter)
    ensures g.tagk == f.tagk && g.ftype == f.ftype && g.groupBy == f.groupBy
    ensures g.spec.Values? <==> f.spec.Values?
    ensures !(IgnoresCase(f.ftype) && f.spec.Values?) ==> g == f
  {
    if IgnoresCase(f.ftype) && f.spec.Values? then f.(spec := Values(LowerAll(f.spec.values))) else f
  }

  function PrepareAll(fs: seq<Filter>): (r: seq<Filter>)
    ensures |r| == |fs|
    ensures forall i :: 0 <= i < |fs| ==> r[i] == Prepared(fs[i])
  {
    seq(|fs|, i requires 0 <= i < |fs| => Prepared(fs[i]))
  }

  /** Lowercasing the value list a second time changes nothing. */
  lemma PreparedIdempotent(f: Filter)
    ensures Prepared(Prepared(f)) == Prepared(f)
  {
    if IgnoresCase(f.ftype) && f.spec.Values? {
      var vs := f.spec.values;
      forall i | 0 <= i < |vs| ensures Lower(Lower(vs[i])) == Lower(vs[i]) {
        LowerIdempotent(vs[i]);
      }
      assert LowerAll(LowerAll(vs)) == LowerAll(vs);
    }
  }

  /** The glob rewriting at index.js:206-210, as written (the replacement
      text is backslash, backslash, dot). */
  function GlobToRegexp(glob: string): string
  {
    var r1 := ReplaceAll(glob, ".", "\\\\.");
    var r2 := ReplaceAll(r1, "*", ".*");
    ReplaceAll(r2, "\\\\..*", "\\\\.")
  }

  /** A glob without `.` or `*` is its own regular expression. */
  lemma GlobWithoutMetaIsLiteral(glob: string)
    requires '.' !in glob && '*' !in glob
    ensures GlobToRegexp(glob) == glob
  {
    AbsentCharNotContained(glob, ".", 0);
    AbsentCharNotContained(glob, "*", 0);
    AbsentCharNotContained(glob, "\\\\..*", 2);
  }

  /** The regular-expression source the pattern family hands to `new RegExp`. */
  function RegexpSource(f: Filter): string
  {
    var text := SpecText(f.spec);
    var r := if f.ftype.Wildcard? || f.ftype.IWildcard? then GlobToRegexp(text) else text;
    if f.ftype.IWildcard? then Lower(r) else r
  }

  /** `fn(candidateValue)` for a filter whose value list has already been
      prepared. An array value list is searched with `indexOf` (membership); a
      string value list would be searched for a substring. */
  predicate Accepts(f: Filter, matcher: Matcher, v: string)
  {
    if IsLiteralFamily(f.ftype) then
      var w := if IgnoresCase(f.ftype) then Lower(v) else v;
      match f.spec
      case Values(vs) => w in vs
      case Pattern(p) => Contains(p, w)
    else if MatchesAll(f) then true
    else matcher(RegexpSource(f), if f.ftype.IWildcard? then Lower(v) else v)
  }

  /** Whether the backward loop of index.js:230-241 keeps series `s` for filter `f`
      (a filter without a predicate keeps everything). */
  predicate Keeps(f: Filter, matcher: Matcher, s: RawSeries)
  {
    !HasPredicate(f) ||
    (HasKey(s.tags, f.tagk) && Accepts(Prepared(f), matcher, ValueOf(s.tags, f.tagk)))
  }

  /** The series `f` keeps, in their original order. */
  function KeepWhere(xs: seq<RawSeries>, f: Filter, matcher: Matcher): seq<RawSeries>
  {
    if |xs| == 0 then []
    else (if Keeps(f, matcher, xs[0]) then [xs[0]] else []) + KeepWhere(xs[1..], f, matcher)
  }

  /** The filters applied one after the other, as the outer loop does. */
  function ApplyFilters(xs: seq<RawSeries>, fs: seq<Filter>, matcher: Matcher): seq<RawSeries>
    decreases |fs|
  {
    if |fs| == 0 then xs else ApplyFilters(KeepWhere(xs, fs[0], matcher), fs[1..], matcher)
  }

  /** Position of the first filter whose predicate cannot be built, or |fs|. */
  function FirstThrowing(fs: seq<Filter>): (k: nat)
    ensures k <= |fs|
    ensures k < |fs| ==> ThrowsOnSetup(fs[k])
    ensures forall j :: 0 <= j < k ==> !ThrowsOnSetup(fs[j])
  {
    if |fs| == 0 then 0
    else if ThrowsOnSetup(fs[0]) then 0
    else 1 + FirstThrowing(fs[1..])
  }

  // ---------------------------------------------------------------------------
  // The in-place operation
  // ---------------------------------------------------------------------------

  /** The caller's `rawTimeSeries` array, which the filtering splices in place. */
  class SeriesArray {
    var elems: seq<RawSeries>

    constructor (s: seq<RawSeries>)
      ensures elems == s
    {
      elems := s;
    }

    /** `splice(t, 1)` */
    method Splice(t: nat)
      requires t < |elems|
      modifies this
      ensures elems == old(elems[..t] + elems[t + 1..])
    {
      elems := elems[..t] + elems[t + 1..];
    }
  }

  /** index.js:187-191: every entry of the value list lowercased in place. */
  method LowerValues(vs: seq<string>) returns (r: seq<string>)
    ensures r == LowerAll(vs)
  {
    r := vs;
    var m := 0;
    while m < |r|
      invariant 0 <= m <= |r| == |vs|
      invariant forall i :: 0 <= i < m ==> r[i] == Lower(vs[i])
      invariant forall i :: m <= i < |r| ==> r[i] == vs[i]
    {
      r := r[m := Lower(r[m])];
      m := m + 1;
    }
  }

  /** index.js:230-241: the backward loop that splices out every series the
      (already prepared) filter rejects. */
  method RemoveRejected(rawTimeSeries: SeriesArray, filter: Filter, matcher: Matcher)
    requires Prepared(filter) == filter
    modifies rawTimeSeries
    ensures rawTimeSeries.elems == KeepWhere(old(rawTimeSeries.elems), filter, matcher)
  {
    ghost var cur := rawTimeSeries.elems;
    var t := |rawTimeSeries.elems| - 1;
    while t >= 0
      invariant -1 <= t < |cur|
      invariant rawTimeSeries.elems == cur[..t + 1] + KeepWhere(cur[t + 1..], filter, matcher)
    {
      ghost var rest := KeepWhere(cur[t + 1..], filter, matcher);
      ghost var kept := KeepWhere(cur[t..], filter, matcher);
      ghost var e := rawTimeSeries.elems;
      KeepStep(cur, t, filter, matcher, rest, kept);
      SpliceLayout(cur, t, e, rest);
      var ts := rawTimeSeries.elems[t];
      if !HasPredicate(filter) {
        assert Keeps(filter, matcher, ts);
      } else if !HasKey(ts.tags, filter.tagk) {
        assert !Keeps(filter, matcher, ts);
        rawTimeSeries.Splice(t);
      } else if !Accepts(filter, matcher, ValueOf(ts.tags, filter.tagk)) {
        assert !Keeps(filter, matcher, ts);
        rawTimeSeries.Splice(t);
      } else {
        assert Keeps(filter, matcher, ts);
      }
      assert rawTimeSeries.elems == cur[..t] + kept;
      t := t - 1;
    }
    assert cur[0..] == cur;
  }

  /** One more series in front: kept or not, then the rest. */
  lemma KeepStep(cur: seq<RawSeries>, t: nat, f: Filter, matcher: Matcher, rest: seq<RawSeries>, kept: seq<RawSeries>)
    requires t < |cur|
    requires rest == KeepWhere(cur[t + 1..], f, matcher) && kept == KeepWhere(cur[t..], f, matcher)
    ensures kept == (if Keeps(f, matcher, cur[t]) then [cur[t]] else []) + rest
  {
    assert cur[t..][1..] == cur[t + 1..];
  }

  /** The array while the loop stands at `t`, seen around its element `t`. */
  lemma SpliceLayout(cur: seq<RawSeries>, t: nat, e: seq<RawSeries>, rest: seq<RawSeries>)
    requires t < |cur| && e == cur[..t + 1] + rest
    ensures t < |e| && e[t] == cur[t]
    ensures e == cur[..t] + ([cur[t]] + rest)
    ensures e[..t] + e[t + 1..] == cur[..t] + rest
  {
    assert cur[..t + 1] == cur[..t] + [cur[t]];
    assert e[..t] == cur[..t] && e[t + 1..] == rest;
  }

  /** index.js:185-191: a case-insensitive literal filter's value list is
      lowercased in the caller's filter array. */
  method PrepareFilter(filters: array<Filter>, f: nat)
    requires f < filters.Length
    modifies filters
    ensures filters[f] == Prepared(old(filters[f]))
    ensures forall j :: 0 <= j < filters.Length && j != f ==> filters[j] == old(filters[j])
  {
    var filter := filters[f];
    if IsLiteralFamily(filter.ftype) && IgnoresCase(filter.ftype) && filter.spec.Values? {
      var vs := LowerValues(filter.spec.values);
      filters[f] := filter.(spec := Values(vs));
    }
  }

  /** index.js:176-244. Returns false where the JavaScript throws (a
      wildcard filter given an array pattern); the filters before it have
      already been applied and lowercased by then. */
  method PostBackendFiltering(rawTimeSeries: SeriesArray, filters: array<Filter>, matcher: Matcher)
    returns (ok: bool)
    modifies rawTimeSeries, filters
    ensures ok <==> FirstThrowing(old(filters[..])) == filters.Length
    ensures var k := FirstThrowing(old(filters[..]));
      && rawTimeSeries.elems == ApplyFilters(old(rawTimeSeries.elems), old(filters[..])[..k], matcher)
      && filters[..] == PrepareAll(old(filters[..])[..k]) + old(filters[..])[k..]
  {
    ghost var fs := filters[..];
    ghost var xs := rawTimeSeries.elems;
    var f := 0;
    while f < filters.Length
      invariant 0 <= f <= filters.Length
      invariant forall j :: 0 <= j < f ==> !ThrowsOnSetup(fs[j])
      invariant rawTimeSeries.elems == ApplyFilters(xs, fs[..f], matcher)
      invariant forall j :: 0 <= j < f ==> filters[j] == Prepared(fs[j])
      invariant forall j :: f <= j < filters.Length ==> filters[j] == fs[j]
    {
      var filter := filters[f];
      assert filter == fs[f];
      if ThrowsOnSetup(filter) {
        FirstThrowingAt(fs, f);
        assert filters[..] == PrepareAll(fs[..f]) + fs[f..];
        return false;
      }
      PrepareFilter(filters, f);
      filter := filters[f];
      PreparedIdempotent(fs[f]);
      KeepWherePrepared(rawTimeSeries.elems, fs[f], matcher);
      RemoveRejected(rawTimeSeries, filter, matcher);
      ApplyFiltersSnoc(xs, fs[..f], fs[f], matcher);
      assert fs[..f] + [fs[f]] == fs[..f + 1];
      f := f + 1;
    }
    assert fs[..f] == fs;
    FirstThrowingNone(fs);
    assert filters[..] == PrepareAll(fs[..f]) + fs[f..];
    return true;
  }

  /** Keeping by a filter or by its lowercased form is the same. */
  lemma {:induction false} KeepWherePrepared(xs: seq<RawSeries>, f: Filter, matcher: Matcher)
    ensures KeepWhere(xs, Prepared(f), matcher) == KeepWhere(xs, f, matcher)
  {
    PreparedIdempotent(f);
    if |xs| > 0 {
      KeepWherePrepared(xs[1..], f, matcher);
    }
  }

  lemma {:induction false} FirstThrowingAt(fs: seq<Filter>, k: nat)
    requires k < |fs| && ThrowsOnSetup(fs[k])
    requires forall j :: 0 <= j < k ==> !ThrowsOnSetup(fs[j])
    ensures FirstThrowing(fs) == k
  {
    if k > 0 {
      FirstThrowingAt(fs[1..], k - 1);
    }
  }

  lemma {:induction false} FirstThrowingNone(fs: seq<Filter>)
    requires forall j :: 0 <= j < |fs| ==> !ThrowsOnSetup(fs[j])
    ensures FirstThrowing(fs) == |fs|
  {
    if |fs| > 0 {
      FirstThrowingNone(fs[1..]);
    }
  }

  lemma {:induction false} KeepWhereWithoutPredicate(xs: seq<RawSeries>, f: Filter, matcher: Matcher)
    requires !HasPredicate(f)
    ensures KeepWhere(xs, f, matcher) == xs
  {
    if |xs| > 0 {
      KeepWhereWithoutPredicate(xs[1..], f, matcher);
      assert [xs[0]] + xs[1..] == xs;
    }
  }

  /** Applying one more filter after a list of them. */
  lemma {:induction false} ApplyFiltersSnoc(xs: seq<RawSeries>, fs: seq<Filter>, f: Filter, matcher: Matcher)
    ensures ApplyFilters(xs, fs + [f], matcher) == KeepWhere(ApplyFilters(xs, fs, matcher), f, matcher)
    decreases |fs|
  {
    if |fs| > 0 {
      assert (fs + [f])[1..] == fs[1..] + [f];
      ApplyFiltersSnoc(KeepWhere(xs, fs[0], matcher), fs[1..], f, matcher);
    } else {
      assert ([f])[1..] == [];
    }
  }

  // ---------------------------------------------------------------------------
  // Properties of the specification
  // ---------------------------------------------------------------------------

  /** Filters are conjunctive: the result keeps a series iff every filter keeps it. */
  predicate KeptByAll(s: RawSeries, fs: seq<Filter>, matcher: Matcher)
  {
    forall i :: 0 <= i < |fs| ==> Keeps(fs[i], matcher, s)
  }

  lemma {:induction false} KeepWhereIsSubsequence(xs: seq<RawSeries>, f: Filter, matcher: Matcher)
    ensures IsSubsequence(KeepWhere(xs, f, matcher), xs)
    ensures forall s :: s in KeepWhere(xs, f, matcher) <==> s in xs && Keeps(f, matcher, s)
  {
    if |xs| > 0 {
      KeepWhereIsSubsequence(xs[1..], f, matcher);
      var r := KeepWhere(xs, f, matcher);
      var rest := KeepWhere(xs[1..], f, matcher);
      if Keeps(f, matcher, xs[0]) {
        assert r == [xs[0]] + rest;
        assert r[0] == xs[0] && r[1..] == rest;
        assert IsSubsequence(r, xs);
      } else {
        assert r == rest;
        assert IsSubsequence(r, xs);
      }
      assert forall s :: s in xs <==> s == xs[0] || s in xs[1..];
    }
  }

  /** index.js:229-241 for every filter: the result is an order-preserving
      subsequence of the input holding exactly the series every filter keeps,
      so a survivor has each filtered tag key with a value the filter accepts. */
  lemma {:induction false} ApplyFiltersSelects(xs: seq<RawSeries>, fs: seq<Filter>, matcher: Matcher)
    ensures IsSubsequence(ApplyFilters(xs, fs, matcher), xs)
    ensures forall s :: s in ApplyFilters(xs, fs, matcher) <==> s in xs && KeptByAll(s, fs, matcher)
    ensures forall s, i :: s in ApplyFilters(xs, fs, matcher) && 0 <= i < |fs| && HasPredicate(fs[i]) ==>
              HasKey(s.tags, fs[i].tagk) && Accepts(Prepared(fs[i]), matcher, ValueOf(s.tags, fs[i].tagk))
    decreases |fs|
  {
    if |fs| > 0 {
      var ys := KeepWhere(xs, fs[0], matcher);
      KeepWhereIsSubsequence(xs, fs[0], matcher);
      ApplyFiltersSelects(ys, fs[1..], matcher);
      SubsequenceTransitive(ApplyFilters(ys, fs[1..], matcher), ys, xs);
      forall s ensures KeptByAll(s, fs, matcher) <==> Keeps(fs[0], matcher, s) && KeptByAll(s, fs[1..], matcher) {
        if Keeps(fs[0], matcher, s) && KeptByAll(s, fs[1..], matcher) {
          forall i | 0 <= i < |fs| ensures Keeps(fs[i], matcher, s) {
            if i > 0 { assert fs[i] == fs[1..][i - 1]; }
          }
        }
        if KeptByAll(s, fs, matcher) {
          forall i | 0 <= i < |fs| - 1 ensures Keeps(fs[1..][i], matcher, s) {
            assert fs[1..][i] == fs[i + 1];
          }
        }
      }
    } else {
      SubsequenceReflexive(xs);
    }
  }

  /** The order of the filters does not change the result: filters are
      conjunctive. */
  lemma FilterOrderIrrelevant(xs: seq<RawSeries>, fs: seq<Filter>, gs: seq<Filter>, matcher: Matcher)
    requires forall f :: f in fs <==> f in gs
    ensures ApplyFilters(xs, fs, matcher) == ApplyFilters(xs, gs, matcher)
  {
    ApplyFiltersIsKeepAll(xs, fs, matcher);
    ApplyFiltersIsKeepAll(xs, gs, matcher);
    forall s ensures KeptByAll(s, fs, matcher) == KeptByAll(s, gs, matcher) {
      if KeptByAll(s, fs, matcher) {
        forall i | 0 <= i < |gs| ensures Keeps(gs[i], matcher, s) {
          assert gs[i] in fs;
        }
      }
      if KeptByAll(s, gs, matcher) {
        forall i | 0 <= i < |fs| ensures Keeps(fs[i], matcher, s) {
          assert fs[i] in gs;
        }
      }
    }
    KeepAllCongruent(xs, fs, gs, matcher);
  }

  /** One pass keeping the series every filter keeps. */
  function KeepAll(xs: seq<RawSeries>, fs: seq<Filter>, matcher: Matcher): seq<RawSeries>
  {
    if |xs| == 0 then []
    else (if KeptByAll(xs[0], fs, matcher) then [xs[0]] else []) + KeepAll(xs[1..], fs, matcher)
  }

  lemma {:induction false} KeepAllCongruent(xs: seq<RawSeries>, fs: seq<Filter>, gs: seq<Filter>, matcher: Matcher)
    requires forall s :: KeptByAll(s, fs, matcher) == KeptByAll(s, gs, matcher)
    ensures KeepAll(xs, fs, matcher) == KeepAll(xs, gs, matcher)
  {
    if |xs| > 0 {
      KeepAllCongruent(xs[1..], fs, gs, matcher);
    }
  }

  lemma {:induction false} ApplyFiltersIsKeepAll(xs: seq<RawSeries>, fs: seq<Filter>, matcher: Matcher)
    ensures ApplyFilters(xs, fs, matcher) == KeepAll(xs, fs, matcher)
    decreases |fs|
  {
    if |fs| == 0 {
      KeepAllNoFilters(xs, matcher);
    } else {
      ApplyFiltersIsKeepAll(KeepWhere(xs, fs[0], matcher), fs[1..], matcher);
      KeepAllAfterKeepWhere(xs, fs, matcher);
    }
  }

  lemma {:induction false} KeepAllNoFilters(xs: seq<RawSeries>, matcher: Matcher)
    ensures KeepAll(xs, [], matcher) == xs
  {
    if |xs| > 0 {
      KeepAllNoFilters(xs[1..], matcher);
      assert [xs[0]] + xs[1..] == xs;
    }
  }

  lemma {:induction false} KeepAllAfterKeepWhere(xs: seq<RawSeries>, fs: seq<Filter>, matcher: Matcher)
    requires |fs| > 0
    ensures KeepAll(KeepWhere(xs, fs[0], matcher), fs[1..], matcher) == KeepAll(xs, fs, matcher)
  {
    if |xs| > 0 {
      KeepAllAfterKeepWhere(xs[1..], fs, matcher);
      var s := xs[0];
      assert KeptByAll(s, fs, matcher) <==> Keeps(fs[0], matcher, s) && KeptByAll(s, fs[1..], matcher) by {
        if Keeps(fs[0], matcher, s) && KeptByAll(s, fs[1..], matcher) {
          forall i | 0 <= i < |fs| ensures Keeps(fs[i], matcher, s) {
            if i > 0 { assert fs[i] == fs[1..][i - 1]; }
          }
        }
        if KeptByAll(s, fs, matcher) {
          forall i | 0 <= i < |fs| - 1 ensures Keeps(fs[1..][i], matcher, s) {
            assert fs[1..][i] == fs[i + 1];
          }
        }
      }
      var rest := KeepWhere(xs[1..], fs[0], matcher);
      if Keeps(fs[0], matcher, s) {
        assert KeepWhere(xs, fs[0], matcher) == [s] + rest;
        assert ([s] + rest)[1..] == rest;
        assert KeepAll([s] + rest, fs[1..], matcher)
          == (if KeptByAll(s, fs[1..], matcher) then [s] else []) + KeepAll(rest, fs[1..], matcher);
      } else {
        assert KeepWhere(xs, fs[0], matcher) == rest;
      }
    }
  }

  /** index.js:199-202: a `*` wildcard or `.*` regexp filter removes exactly
      the series lacking its tag key, whatever the matcher. */
  lemma MatchAllKeepsKeyHolders(f: Filter, matcher: Matcher, s: RawSeries)
    requires MatchesAll(f)
    ensures Keeps(f, matcher, s) <==> HasKey(s.tags, f.tagk)
  {
  }

  /** index.js:229: a filter of unrecognised type (fn stays null) removes nothing. */
  lemma {:induction false} UnknownTypeRemovesNothing(xs: seq<RawSeries>, fs: seq<Filter>, matcher: Matcher)
    requires forall i :: 0 <= i < |fs| ==> fs[i].ftype.OtherType?
    ensures ApplyFilters(xs, fs, matcher) == xs
    decreases |fs|
  {
    if |fs| > 0 {
      KeepWhereWithoutPredicate(xs, fs[0], matcher);
      UnknownTypeRemovesNothing(xs, fs[1..], matcher);
    }
  }

  /** index.js:183-195: `literal_or` keeps a series iff it has the key and its
      value is in the list; `iliteral_or` compares lowercased value against
      the lowercased list; the `not_` variants behave exactly like their
      positive forms, because `negate` is never used. */
  lemma LiteralOrSemantics(tagk: string, vs: seq<string>, groupBy: bool, matcher: Matcher, s: RawSeries)
    ensures Keeps(Filter(tagk, LiteralOr, Values(vs), groupBy), matcher, s)
        <==> HasKey(s.tags, tagk) && ValueOf(s.tags, tagk) in vs
    ensures Keeps(Filter(tagk, ILiteralOr, Values(vs), groupBy), matcher, s)
        <==> HasKey(s.tags, tagk) && Lower(ValueOf(s.tags, tagk)) in LowerAll(vs)
    ensures Keeps(Filter(tagk, NotLiteralOr, Values(vs), groupBy), matcher, s)
        == Keeps(Filter(tagk, LiteralOr, Values(vs), groupBy), matcher, s)
    ensures Keeps(Filter(tagk, NotILiteralOr, Values(vs), groupBy), matcher, s)
        == Keeps(Filter(tagk, ILiteralOr, Values(vs), groupBy), matcher, s)
  {
  }

  /** Past the match-all short-circuit, a pattern filter asks the matcher
      about the rewritten pattern and the (lowercased for `iwildcard`) value. */
  lemma PatternFilterSemantics(f: Filter, matcher: Matcher, s: RawSeries)
    requires IsPatternFamily(f.ftype) && !MatchesAll(f)
    ensures Keeps(f, matcher, s) <==>
      HasKey(s.tags, f.tagk) &&
      matcher(RegexpSource(f), if f.ftype.IWildcard? then Lower(ValueOf(s.tags, f.tagk)) else ValueOf(s.tags, f.tagk))
  {
  }
}
