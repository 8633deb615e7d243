/** The argument scanner of `gexpQueryImpl` (index.js:1046-1124): an
    expression `func(arg1,arg2,...)` is cut into its metric arguments by
    searching forward for commas, closing parentheses and brace groups, and
    an optional trailing extra argument. */
module ExprScanner {
  import opened Wrappers
  import opened Series
  import opened JsStrings

  /** The stand-in `calcNextCommaOrEnd` uses for "no comma". */
  const NoComma: int := 10000000

  function Min(a: int, b: int): int
  {
    if a <= b then a else b
  }

  /** `calcNextCommaOrEnd(exp, from)` (index.js:1054-1056): the first `,` or
      `)` at or after `from`, but -1 whenever no `)` follows. */
  function NextCommaOrEnd(exp: string, from: int): (r: int)
    ensures r == -1 <==> IndexOf(exp, ')', from) == -1
    ensures r >= -1
  {
    var comma := IndexOf(exp, ',', from);
    var close := IndexOf(exp, ')', from);
    if comma != -1 && comma < close then comma
    else if comma == -1 && NoComma < close then NoComma
    else close
  }

  /** The function name (index.js:1046-1051): the text before the first `(`,
      empty when there is none. */
  function FunctionName(exp: string): (f: string)
    ensures f <= exp
    ensures '(' in exp ==> '(' !in f && |f| < |exp| && exp[|f|] == '('
    ensures '(' !in exp ==> f == ""
  {
    var firstBracket := IndexOf(exp, '(', 0);
    IndexOfFirst(exp, '(', 0);
    if firstBracket == -1 then ""
    else
      assert forall j :: 0 <= j < firstBracket ==> exp[..firstBracket][j] == exp[j];
      Substring(exp, 0, firstBracket)
  }

  /** One pass of the body of the loop at index.js:1069-1111 from `index`:
      where the argument read in this pass ends (the source appends the
      trimmed text from `index` to there and resumes just after it), no
      progress (the `rate` branch whose inner test fails), or the exception
      of calling `metrics.append`. */
  function StepEnd(exp: string, index: nat): (r: Result<Option<int>, QueryError>)
    ensures r.Err? ==> r.error == MetricsAppend
    ensures r.Ok? && r.value.Some? ==> r.value.value >= -1
  {
    var nextCommaOrEnd := NextCommaOrEnd(exp, index);
    var nextBrace := IndexOf(exp, '{', index);
    if nextCommaOrEnd < nextBrace then PlainEnd(exp, index, nextCommaOrEnd, nextBrace)
    else Ok(Some(BracedEnd(exp, nextBrace)))
  }

  /** The branch of index.js:1076-1090: a separator comes before any `{`. A
      text holding `rate` is not read; instead the first separator after the
      next `:` is compared with the brace. */
  function PlainEnd(exp: string, index: nat, nextCommaOrEnd: int, nextBrace: int): (r: Result<Option<int>, QueryError>)
    requires nextCommaOrEnd >= -1
    ensures r.Err? ==> r.error == MetricsAppend
    ensures r.Ok? && r.value.Some? ==> r.value.value == nextCommaOrEnd
  {
    if !Contains(Substring(exp, index, nextCommaOrEnd), "rate") then Ok(Some(nextCommaOrEnd))
    else
      var nextColon := IndexOf(exp, ':', nextCommaOrEnd);
      if NextCommaOrEnd(exp, nextColon) < nextBrace then Err(MetricsAppend) else Ok(None)
  }

  /** The branch of index.js:1091-1110: the argument runs past the brace
      group opening at `nextBrace`, and past a second group when one opens
      before the next separator. */
  function BracedEnd(exp: string, nextBrace: int): (e: int)
    ensures e >= -1
  {
    var closeBrace := IndexOf(exp, '}', nextBrace + 1);
    var afterFirst := NextCommaOrEnd(exp, closeBrace + 1);
    var secondBrace := IndexOf(exp, '{', closeBrace + 1);
    if afterFirst < secondBrace || secondBrace == -1 then afterFirst
    else
      var secondClose := IndexOf(exp, '}', secondBrace + 1);
      NextCommaOrEnd(exp, secondClose + 1)
  }

  /** The arguments the loop reads from `index` on with its counter at `i`,
      and the index it stops at; it fails where the loop throws. */
  function Scan(exp: string, index: nat, i: nat, maxMetrics: nat): (r: Result<(seq<string>, nat), QueryError>)
    requires i <= maxMetrics
    ensures r.Err? ==> r.error == MetricsAppend
    ensures r.Ok? ==> |r.value.0| <= maxMetrics - i
    decreases maxMetrics - i
  {
    if i < maxMetrics && index < |exp| && exp[index] != ')' then
      match StepEnd(exp, index)
      case Err(e) => Err(e)
      case Ok(None) => Scan(exp, index, i + 1, maxMetrics)
      case Ok(Some(end)) => Prefixed([Trim(Substring(exp, index, end))], Scan(exp, end + 1, i + 1, maxMetrics))
    else Ok(([], index))
  }

  /** `ms` in front of the arguments of a scan that did not fail. */
  function Prefixed(ms: seq<string>, r: Result<(seq<string>, nat), QueryError>): (p: Result<(seq<string>, nat), QueryError>)
    ensures p.Err? <==> r.Err?
    ensures p.Err? ==> p.error == r.error
    ensures p.Ok? ==> |p.value.0| == |ms| + |r.value.0| && p.value.1 == r.value.1
  {
    match r
    case Err(e) => Err(e)
    case Ok(v) => Ok((ms + v.0, v.1))
  }

  /** The scanning loop of index.js:1069-1111, from `index` (`func.length + 1`). */
  method ScanArguments(exp: string, start: nat, maxMetrics: nat) returns (r: Result<(seq<string>, nat), QueryError>)
    ensures r == Scan(exp, start, 0, maxMetrics)
  {
    var metrics: seq<string> := [];
    var index: nat := start;
    var i: nat := 0;
    PrefixedNothing(Scan(exp, start, 0, maxMetrics));
    while i < maxMetrics && index < |exp| && exp[index] != ')'
      invariant i <= maxMetrics
      invariant Scan(exp, start, 0, maxMetrics) == Prefixed(metrics, Scan(exp, index, i, maxMetrics))
      decreases maxMetrics - i
    {
      var step := StepEnd(exp, index);
      if step.Err? {
        ScanFails(exp, index, i, maxMetrics);
        return Err(step.error);
      } else if step.value.None? {
        ScanStalls(exp, index, i, maxMetrics);
      } else {
        var end := step.value.value;
        var arg := Trim(Substring(exp, index, end));
        ScanOnce(exp, index, i, maxMetrics, end, end + 1);
        PrefixedTwice(metrics, [arg], Scan(exp, end + 1, i + 1, maxMetrics));
        metrics := metrics + [arg];
        index := end + 1;
      }
      i := i + 1;
    }
    ScanStops(exp, index, i, maxMetrics);
    assert metrics + [] == metrics;
    r := Ok((metrics, index));
  }

  lemma PrefixedNothing(r: Result<(seq<string>, nat), QueryError>)
    ensures Prefixed([], r) == r
  {
    if r.Ok? {
      assert [] + r.value.0 == r.value.0;
    }
  }

  lemma PrefixedOne(m: string, q: nat, s0: Result<(seq<string>, nat), QueryError>, s1: Result<(seq<string>, nat), QueryError>)
    requires s0 == Prefixed([m], s1) && s1 == Ok(([], q))
    ensures s0 == Ok(([m], q))
  {
    assert [m] + [] == [m];
  }

  lemma PrefixedTwice(ms: seq<string>, ns: seq<string>, r: Result<(seq<string>, nat), QueryError>)
    ensures Prefixed(ms, Prefixed(ns, r)) == Prefixed(ms + ns, r)
  {
    if r.Ok? {
      assert ms + (ns + r.value.0) == (ms + ns) + r.value.0;
    }
  }

  /** One pass that reads an argument: the trimmed text up to its end comes
      first, and scanning goes on after the end with the counter advanced. */
  lemma ScanOnce(exp: string, index: nat, i: nat, maxMetrics: nat, end: int, next: nat)
    requires i < maxMetrics && index < |exp| && exp[index] != ')'
    requires StepEnd(exp, index) == Ok(Some(end)) && next == end + 1
    ensures Scan(exp, index, i, maxMetrics) == Prefixed([Trim(Substring(exp, index, end))], Scan(exp, next, i + 1, maxMetrics))
  {
  }

  /** A pass that makes no progress only advances the counter. */
  lemma ScanStalls(exp: string, index: nat, i: nat, maxMetrics: nat)
    requires i < maxMetrics && index < |exp| && exp[index] != ')'
    requires StepEnd(exp, index) == Ok(None)
    ensures Scan(exp, index, i, maxMetrics) == Scan(exp, index, i + 1, maxMetrics)
  {
  }

  /** A pass that throws ends the whole scan with the same error. */
  lemma ScanFails(exp: string, index: nat, i: nat, maxMetrics: nat)
    requires i < maxMetrics && index < |exp| && exp[index] != ')'
    requires StepEnd(exp, index).Err?
    ensures Scan(exp, index, i, maxMetrics) == Err(StepEnd(exp, index).error)
  {
  }

  /** Scanning stops at the cap, at the end of the text and at a `)`. */
  lemma ScanStops(exp: string, index: nat, i: nat, maxMetrics: nat)
    requires i <= maxMetrics
    requires !(i < maxMetrics && index < |exp| && exp[index] != ')')
    ensures Scan(exp, index, i, maxMetrics) == Ok(([], index))
  {
  }

  /** The extra argument (index.js:1117-1124): the trimmed text from `index`
      up to the next `)`. */
  function ExtraArg(exp: string, index: nat): string
  {
    Trim(Substring(exp, index, IndexOf(exp, ')', index)))
  }

  // ---------------------------------------------------------------------------
  // Properties
  // ---------------------------------------------------------------------------

  /** An argument as it is written: a metric token without braces, or a token
      followed by one tag-filter group in braces and optionally a second. */
  datatype Arg =
    | Plain(text: string)
    | Braced(head: string, group: string, second: Option<string>)

  function ArgText(a: Arg): string
  {
    match a
    case Plain(t) => t
    case Braced(h, g, s) => h + "{" + g + "}" + (if s.Some? then "{" + s.value + "}" else "")
  }

  function ArgTexts(args: seq<Arg>): (ts: seq<string>)
    ensures |ts| == |args|
    ensures forall k :: 0 <= k < |args| ==> ts[k] == ArgText(args[k])
  {
    seq(|args|, k requires 0 <= k < |args| => ArgText(args[k]))
  }

  /** What the scanner reads back as written: no separator before the brace
      group, none of the group's own closing brace inside it, no `rate` in a
      plain token, and no white space at either end. Commas and parentheses
      inside a brace group are allowed. */
  predicate WellFormed(a: Arg)
  {
    match a
    case Plain(t) =>
      && |t| > 0 && FreeOf(t, {',', ')', '{'}) && !Contains(t, "rate")
      && !IsJsWhitespace(t[0]) && !IsJsWhitespace(t[|t| - 1])
    case Braced(h, g, s) =>
      && FreeOf(h, {',', ')', '{'}) && FreeOf(g, {'}'})
      && (s.Some? ==> FreeOf(s.value, {'}'}))
      && (|h| > 0 ==> !IsJsWhitespace(h[0]))
  }

  /** A `)` at or after `from`. */
  predicate CloseFollows(exp: string, from: nat)
  {
    exists j :: from <= j < |exp| && exp[j] == ')'
  }

  /** The first `,` or `)` from `from` on is found, provided a `)` follows. */
  lemma NextCommaOrEndIs(exp: string, from: nat, r: nat)
    requires |exp| <= NoComma && from <= r < |exp|
    requires exp[r] == ',' || exp[r] == ')'
    requires forall j :: from <= j < r ==> exp[j] != ',' && exp[j] != ')'
    requires CloseFollows(exp, r)
    ensures NextCommaOrEnd(exp, from) == r
  {
    var k :| r <= k < |exp| && exp[k] == ')';
    IndexOfFirst(exp, ')', from);
    IndexOfFirst(exp, ',', from);
    if exp[r] == ',' {
      IndexOfIs(exp, ',', from, r);
    } else {
      IndexOfIs(exp, ')', from, r);
    }
  }

  /** With neither `,` nor `)` up to `b`, the search ends beyond `b`. */
  lemma NextCommaOrEndBeyond(exp: string, from: nat, b: nat)
    requires |exp| <= NoComma && from <= b < |exp|
    requires forall j :: from <= j <= b ==> exp[j] != ',' && exp[j] != ')'
    requires CloseFollows(exp, from)
    ensures NextCommaOrEnd(exp, from) > b
  {
    var k :| from <= k < |exp| && exp[k] == ')';
    IndexOfFirst(exp, ')', from);
    IndexOfFirst(exp, ',', from);
  }

  lemma CloseFollowsFrom(exp: string, a: nat, b: nat)
    requires a <= b && CloseFollows(exp, b)
    ensures CloseFollows(exp, a)
  {
    var k :| b <= k < |exp| && exp[k] == ')';
  }

  lemma BracedEndSingle(exp: string, o: nat, c: nat, e: int)
    requires IndexOf(exp, '}', o + 1) == c
    requires NextCommaOrEnd(exp, c + 1) == e
    requires IndexOf(exp, '{', c + 1) == -1 || IndexOf(exp, '{', c + 1) > e
    ensures BracedEnd(exp, o) == e
  {
  }

  lemma BracedEndDouble(exp: string, o: nat, c: nat, sc: nat, e: int)
    requires IndexOf(exp, '}', o + 1) == c
    requires NextCommaOrEnd(exp, c + 1) > c + 1
    requires IndexOf(exp, '{', c + 1) == c + 1
    requires IndexOf(exp, '}', c + 2) == sc
    requires NextCommaOrEnd(exp, sc + 1) == e
    ensures BracedEnd(exp, o) == e
  {
  }

  lemma BracedEndAt(exp: string, o: nat, c: nat, e: nat)
    requires |exp| <= NoComma
    requires o < c < e < |exp|
    requires exp[c] == '}'
    requires forall j :: o < j < c ==> exp[j] != '}'
    requires e == c + 1 || (c + 1 < e - 1 && exp[c + 1] == '{' && exp[e - 1] == '}' &&
                            forall j :: c + 1 < j < e - 1 ==> exp[j] != '}')
    requires exp[e] == ',' || exp[e] == ')'
    requires CloseFollows(exp, e)
    ensures BracedEnd(exp, o) == e
  {
    IndexOfIs(exp, '}', o + 1, c);
    if e == c + 1 {
      SingleGroupFacts(exp, c, e);
      BracedEndSingle(exp, o, c, e);
    } else {
      DoubleGroupFacts(exp, c, e);
      BracedEndDouble(exp, o, c, e - 1, e);
    }
  }

  lemma SingleGroupFacts(exp: string, c: nat, e: nat)
    requires |exp| <= NoComma
    requires c < e < |exp| && e == c + 1
    requires exp[e] == ',' || exp[e] == ')'
    requires CloseFollows(exp, e)
    ensures NextCommaOrEnd(exp, c + 1) == e
    ensures IndexOf(exp, '{', c + 1) == -1 || IndexOf(exp, '{', c + 1) > e
  {
    NextCommaOrEndIs(exp, c + 1, e);
    IndexOfBeyond(exp, '{', c + 1, e);
  }

  lemma DoubleGroupFacts(exp: string, c: nat, e: nat)
    requires |exp| <= NoComma
    requires c < e < |exp|
    requires c + 1 < e - 1 && exp[c + 1] == '{' && exp[e - 1] == '}' && forall j :: c + 1 < j < e - 1 ==> exp[j] != '}'
    requires exp[e] == ',' || exp[e] == ')'
    requires CloseFollows(exp, e)
    ensures IndexOf(exp, '{', c + 1) == c + 1
    ensures NextCommaOrEnd(exp, c + 1) > c + 1
    ensures IndexOf(exp, '}', c + 2) == e - 1
    ensures NextCommaOrEnd(exp, e) == e
  {
    IndexOfIs(exp, '{', c + 1, c + 1);
    CloseFollowsFrom(exp, c + 1, e);
    NextCommaOrEndBeyond(exp, c + 1, c + 1);
    IndexOfIs(exp, '}', c + 2, e - 1);
    NextCommaOrEndIs(exp, e, e);
  }

  /** A step whose first brace comes no later than its first separator
      takes the braced branch. */
  lemma StepEndBraced(exp: string, p: nat, o: nat)
    requires IndexOf(exp, '{', p) == o
    requires NextCommaOrEnd(exp, p) >= o
    ensures StepEnd(exp, p) == Ok(Some(BracedEnd(exp, o)))
  {
  }

  /** A step whose separator comes first and whose text holds no `rate`
      ends at the separator. */
  lemma StepEndPlain(exp: string, p: nat, e: nat)
    requires NextCommaOrEnd(exp, p) == e
    requires e < IndexOf(exp, '{', p)
    requires !Contains(Substring(exp, p, e), "rate")
    ensures StepEnd(exp, p) == Ok(Some(e))
  {
  }

  lemma BracedStartFacts(exp: string, p: nat, o: nat, e: nat)
    requires |exp| <= NoComma
    requires p <= o < e < |exp|
    requires forall j :: p <= j < o ==> exp[j] != ',' && exp[j] != ')' && exp[j] != '{'
    requires exp[o] == '{'
    requires CloseFollows(exp, e)
    ensures IndexOf(exp, '{', p) == o
    ensures NextCommaOrEnd(exp, p) > o
  {
    IndexOfIs(exp, '{', p, o);
    CloseFollowsFrom(exp, p, e);
    NextCommaOrEndBeyond(exp, p, o);
  }

  /** The layout of a braced argument, by positions: the text from `p` to the
      first `{` at `o` holds no separator, the group closes at `c`, a second
      group may follow right after it, and a separator sits at `e` with a `)`
      at or after it. */
  predicate BracedAt(exp: string, p: nat, o: nat, c: nat, e: nat)
  {
    && p <= o < c < e < |exp|
    && (forall j :: p <= j < o ==> exp[j] != ',' && exp[j] != ')' && exp[j] != '{')
    && exp[o] == '{' && exp[c] == '}'
    && (forall j :: o < j < c ==> exp[j] != '}')
    && (e == c + 1 || (c + 1 < e - 1 && exp[c + 1] == '{' && exp[e - 1] == '}' &&
                       forall j :: c + 1 < j < e - 1 ==> exp[j] != '}'))
    && (exp[e] == ',' || exp[e] == ')')
    && CloseFollows(exp, e)
  }

  /** Some braced argument runs from `p` to the separator at `e`. */
  ghost predicate BracedLayout(exp: string, p: nat, e: nat)
  {
    exists o: nat, c: nat :: BracedAt(exp, p, o, c, e)
  }

  /** The step over a braced argument laid out as `BracedAt` says, wherever
      its braces sit, ends at its separator. */
  lemma BracedStepAt(exp: string, p: nat, e: nat)
    requires |exp| <= NoComma
    requires BracedLayout(exp, p, e)
    ensures StepEnd(exp, p) == Ok(Some(e))
  {
    var o: nat, c: nat :| BracedAt(exp, p, o, c, e);
    BracedStartFacts(exp, p, o, e);
    BracedEndAt(exp, o, c, e);
    StepEndBraced(exp, p, o);
  }

  lemma PlainFacts(exp: string, p: nat, e: nat)
    requires |exp| <= NoComma && p <= e < |exp|
    requires forall j :: p <= j < e ==> exp[j] != ',' && exp[j] != ')' && exp[j] != '{'
    requires exp[e] == ',' || exp[e] == ')'
    requires CloseFollows(exp, e)
    requires exists j :: e < j < |exp| && exp[j] == '{'
    ensures NextCommaOrEnd(exp, p) == e
    ensures e < IndexOf(exp, '{', p)
  {
    NextCommaOrEndIs(exp, p, e);
    var j :| e < j < |exp| && exp[j] == '{';
    IndexOfBeyond(exp, '{', p, e);
    IndexOfFirst(exp, '{', p);
  }

  /** The step over a plain argument, by positions: no separator and no `{`
      from `p` to the separator at `e`, and a `{` somewhere after it. */
  lemma PlainStepAt(exp: string, p: nat, e: nat)
    requires |exp| <= NoComma && p <= e < |exp|
    requires forall j :: p <= j < e ==> exp[j] != ',' && exp[j] != ')' && exp[j] != '{'
    requires exp[e] == ',' || exp[e] == ')'
    requires CloseFollows(exp, e)
    requires exists j :: e < j < |exp| && exp[j] == '{'
    requires !Contains(exp[p..e], "rate")
    ensures StepEnd(exp, p) == Ok(Some(e))
  {
    PlainFacts(exp, p, e);
    StepEndPlain(exp, p, e);
  }

  /** Where the braces of a braced argument sit in its text. */
  lemma BracedTextShape(a: Arg)
    requires a.Braced?
    ensures var t := ArgText(a);
            && |t| == |a.head| + |a.group| + 2 + (if a.second.Some? then |a.second.value| + 2 else 0)
            && t[..|a.head|] == a.head
            && t[|a.head|] == '{'
            && t[|a.head| + 1..|a.head| + 1 + |a.group|] == a.group
            && t[|a.head| + 1 + |a.group|] == '}'
            && (a.second.Some? ==>
                  && t[|a.head| + 2 + |a.group|] == '{'
                  && t[|a.head| + 3 + |a.group|..|t| - 1] == a.second.value
                  && t[|t| - 1] == '}')
  {
    var h := a.head;
    var g := a.group;
    var t := ArgText(a);
    var first := h + "{" + g + "}";
    assert t[..|first|] == first;
    assert first[..|h|] == h;
    assert first[|h| + 1..|h| + 1 + |g|] == g;
    if a.second.Some? {
      assert t[|first|..] == "{" + a.second.value + "}";
    }
  }

  /** The text of `exp` from `p` to its end is `x`, stated character by
      character. */
  predicate TailIs(exp: string, p: nat, x: string)
  {
    p + |x| == |exp| && exp[p..] == x
  }

  lemma TailIsConcat(pre: string, x: string)
    ensures TailIs(pre + x, |pre|, x)
  {
  }

  /** The tail from `p` is `x + y`: `x` is written at `p`, and the tail from
      `q`, just after it, is `y`. */
  lemma TailSplit(exp: string, p: nat, x: string, y: string, q: nat)
    requires TailIs(exp, p, x + y) && q == p + |x|
    ensures TailIs(exp, q, y)
    ensures exp[p..q] == x
  {
    forall j | 0 <= j < |y|
      ensures exp[q + j] == y[j]
    {
      assert (x + y)[|x| + j] == y[j];
    }
    forall j | 0 <= j < |x|
      ensures exp[p..q][j] == x[j]
    {
      assert (x + y)[j] == x[j];
    }
  }

  /** What may follow an argument: its separator first, and a `)` somewhere. */
  predicate Follower(after: string)
  {
    |after| > 0 && (after[0] == ',' || after[0] == ')') && ')' in after
  }

  /** Where the parts of a braced argument written at `p` sit in the
      expression. */
  lemma BracedArgLayout(exp: string, p: nat, a: Arg, after: string, e: nat)
    requires a.Braced? && WellFormed(a)
    requires TailIs(exp, p, ArgText(a) + after) && Follower(after)
    requires e == p + |ArgText(a)|
    ensures BracedLayout(exp, p, e)
  {
    var t := ArgText(a);
    var w := t + after;
    var o := p + |a.head|;
    var c := o + 1 + |a.group|;
    BracedTextShape(a);
    assert exp[e] == w[|t|];
    forall j | p <= j < o
      ensures exp[j] != ',' && exp[j] != ')' && exp[j] != '{'
    {
      assert exp[p + (j - p)] == w[j - p] == a.head[j - p];
    }
    assert exp[p + |a.head|] == w[|a.head|];
    assert exp[p + (c - p)] == w[c - p];
    forall j | o < j < c
      ensures exp[j] != '}'
    {
      assert exp[p + (j - p)] == w[j - p] == a.group[j - o - 1];
    }
    if a.second.Some? {
      assert exp[p + (c + 1 - p)] == w[c + 1 - p];
      assert exp[p + (e - 1 - p)] == w[e - 1 - p];
      forall j | c + 1 < j < e - 1
        ensures exp[j] != '}'
      {
        assert exp[p + (j - p)] == w[j - p] == a.second.value[j - c - 2];
      }
    }
    var k :| 0 <= k < |after| && after[k] == ')';
    assert exp[p + (|t| + k)] == w[|t| + k];
    assert BracedAt(exp, p, o, c, e);
  }

  /** Where a plain argument written at `p` ends, with a `{` after it. */
  lemma PlainArgLayout(exp: string, p: nat, a: Arg, after: string, e: nat)
    requires a.Plain? && WellFormed(a)
    requires TailIs(exp, p, ArgText(a) + after) && Follower(after) && '{' in after
    requires e == p + |ArgText(a)|
    ensures p <= e < |exp|
    ensures forall j :: p <= j < e ==> exp[j] != ',' && exp[j] != ')' && exp[j] != '{'
    ensures exp[e] == ',' || exp[e] == ')'
    ensures CloseFollows(exp, e)
    ensures exists j :: e < j < |exp| && exp[j] == '{'
    ensures !Contains(exp[p..e], "rate")
  {
    var t := a.text;
    var w := t + after;
    assert exp[p + |t|] == w[|t|];
    forall j | p <= j < e
      ensures exp[j] != ',' && exp[j] != ')' && exp[j] != '{'
    {
      assert exp[p + (j - p)] == w[j - p] == t[j - p];
    }
    TailSplit(exp, p, t, after, e);
    var k :| 0 <= k < |after| && after[k] == ')';
    assert exp[p + (|t| + k)] == w[|t| + k];
    var k' :| 0 <= k' < |after| && after[k'] == '{';
    assert exp[p + (|t| + k')] == w[|t| + k'];
  }

  /** One well-formed argument written at `p` and followed by a `,` or `)`
      is read whole, whatever commas its brace groups hold: the step ends at
      the separator, the text appended is the argument's own, and the loop
      does not stop before it. A plain argument needs a `{` somewhere after
      it. */
  lemma StepAt(exp: string, p: nat, a: Arg, after: string, e: nat)
    requires WellFormed(a) && |exp| <= NoComma
    requires TailIs(exp, p, ArgText(a) + after) && Follower(after)
    requires a.Plain? ==> '{' in after
    requires e == p + |ArgText(a)|
    ensures StepEnd(exp, p) == Ok(Some(e))
    ensures Trim(Substring(exp, p, e)) == ArgText(a)
    ensures p < |exp| && exp[p] != ')'
  {
    if a.Braced? {
      BracedArgLayout(exp, p, a, after, e);
      BracedStepAt(exp, p, e);
    } else {
      PlainArgLayout(exp, p, a, after, e);
      PlainStepAt(exp, p, e);
    }
    ArgTextAt(exp, p, a, after, e);
  }

  /** A pass of the loop over such an argument appends it and resumes just
      after its separator. */
  lemma HeadStep(exp: string, p: nat, a: Arg, after: string, i: nat, maxMetrics: nat, q: nat)
    requires i < maxMetrics && WellFormed(a) && |exp| <= NoComma
    requires TailIs(exp, p, ArgText(a) + after) && Follower(after)
    requires a.Plain? ==> '{' in after
    requires q == p + |ArgText(a)| + 1
    ensures Scan(exp, p, i, maxMetrics) == Prefixed([ArgText(a)], Scan(exp, q, i + 1, maxMetrics))
  {
    var e := p + |ArgText(a)|;
    StepAt(exp, p, a, after, e);
    ScanOnce(exp, p, i, maxMetrics, e, q);
  }

  /** The text from `p` to `e` is the argument, and it does not start with `)`. */
  lemma ArgTextAt(exp: string, p: nat, a: Arg, rest: string, e: nat)
    requires WellFormed(a)
    requires TailIs(exp, p, ArgText(a) + rest)
    requires e == p + |ArgText(a)|
    ensures Trim(Substring(exp, p, e)) == ArgText(a)
    ensures p < |exp| && exp[p] != ')'
  {
    var t := ArgText(a);
    TailSplit(exp, p, t, rest, e);
    WellFormedTrimmed(a);
    if a.Braced? {
      BracedTextShape(a);
      if |a.head| > 0 {
        assert t[0] == a.head[0];
      }
    }
    assert exp[p + 0] == (t + rest)[0] == t[0];
  }

  lemma WellFormedTrimmed(a: Arg)
    requires WellFormed(a)
    ensures Trim(ArgText(a)) == ArgText(a)
  {
    if a.Braced? {
      BracedTextShape(a);
      var t := ArgText(a);
      if |a.head| > 0 {
        assert t[0] == a.head[0];
      }
    }
    TrimOfTrimmed(ArgText(a));
  }

  /** Every argument of the list is well formed. */
  predicate AllWellFormed(args: seq<Arg>)
  {
    |args| == 0 || (WellFormed(args[0]) && AllWellFormed(args[1..]))
  }

  /** The last argument has braces, so that every plain argument has a
      braced one, and with it a `{`, somewhere after it. */
  predicate EndsBraced(args: seq<Arg>)
  {
    |args| > 0 && args[|args| - 1].Braced?
  }

  /** The arguments `args` are written from `p` on, separated by commas and
      followed by `rest`, which starts with a separator and holds a `)`. With
      room under the cap for more than the list, `rest` is the final `)`;
      `n` is how many of them the cap allows. */
  predicate ListLayout(exp: string, p: nat, args: seq<Arg>, rest: string, i: nat, maxMetrics: nat, n: nat)
  {
    && i < maxMetrics && |exp| <= NoComma
    && AllWellFormed(args) && EndsBraced(args)
    && TailIs(exp, p, Join(ArgTexts(args), ',') + rest) && Follower(rest)
    && (|args| < maxMetrics - i ==> rest == ")")
    && n == Min(|args|, maxMetrics - i)
  }

  /** An argument list written out from `p` to the end of the expression:
      its arguments are read back one for one, up to the cap, `n` of them.
      With room for all of them and the closing `)` last, every argument is
      read and scanning ends at the end of the text; with more arguments
      than the cap, the first `maxMetrics - i` are read and scanning stops
      just past the separator after the last of them. */
  lemma {:induction false} ScanArgumentList(exp: string, p: nat, args: seq<Arg>, rest: string,
                                            i: nat, maxMetrics: nat, n: nat)
    requires ListLayout(exp, p, args, rest, i, maxMetrics, n)
    ensures Scan(exp, p, i, maxMetrics) == Ok((ArgTexts(args)[..n], p + |Join(ArgTexts(args)[..n], ',')| + 1))
    decreases |args|, 1
  {
    if |args| == 1 {
      LastArgument(exp, p, args, rest, i, maxMetrics, n);
    } else if n == 1 {
      FirstOnly(exp, p, args, rest, i, maxMetrics, n);
    } else {
      ListRest(exp, p, args, rest, i, maxMetrics, n);
    }
  }

  /** A list of several arguments when the cap leaves room for the first only. */
  lemma FirstOnly(exp: string, p: nat, args: seq<Arg>, rest: string, i: nat, maxMetrics: nat, n: nat)
    requires i + 1 == maxMetrics && |exp| <= NoComma && |args| > 1 && n == 1
    requires AllWellFormed(args) && EndsBraced(args)
    requires TailIs(exp, p, Join(ArgTexts(args), ',') + rest) && Follower(rest)
    ensures Scan(exp, p, i, maxMetrics) == Ok((ArgTexts(args)[..n], p + |Join(ArgTexts(args)[..n], ',')| + 1))
  {
    var q: nat := p + |ArgText(args[0])| + 1;
    var after := ListHead(exp, p, args, rest, q);
    HeadStep(exp, p, args[0], after, i, maxMetrics, q);
    ScanStops(exp, q, i + 1, maxMetrics);
    ListCombineLast(args, p, q, n, Scan(exp, p, i, maxMetrics), Scan(exp, q, i + 1, maxMetrics));
  }

  /** A list of several arguments with room for more than the first: the
      first is read, then the rest of the list. */
  lemma {:induction false} ListRest(exp: string, p: nat, args: seq<Arg>, rest: string, i: nat, maxMetrics: nat, n: nat)
    requires i < maxMetrics && |exp| <= NoComma && |args| > 1 && n > 1
    requires AllWellFormed(args) && EndsBraced(args)
    requires TailIs(exp, p, Join(ArgTexts(args), ',') + rest) && Follower(rest)
    requires |args| < maxMetrics - i ==> rest == ")"
    requires n == Min(|args|, maxMetrics - i)
    ensures Scan(exp, p, i, maxMetrics) == Ok((ArgTexts(args)[..n], p + |Join(ArgTexts(args)[..n], ',')| + 1))
    decreases |args|, 0
  {
    var q: nat := p + |ArgText(args[0])| + 1;
    var tailArgs, next, left := args[1..], i + 1, n - 1;
    ReadHead(exp, p, args, rest, i, maxMetrics, n, q, tailArgs, next, left);
    ReadTail(exp, p, q, args, rest, i, maxMetrics, n, tailArgs, next, left);
  }

  /** Once the first argument is read, the rest of the list is read as a
      list of its own. */
  lemma {:induction false} ReadTail(exp: string, p: nat, q: nat, args: seq<Arg>, rest: string, i: nat, maxMetrics: nat, n: nat,
                                    tailArgs: seq<Arg>, next: nat, left: nat)
    requires i < maxMetrics && |args| > 1 && n > 1 && q == p + |ArgText(args[0])| + 1
    requires tailArgs == args[1..] && next == i + 1 && left == n - 1
    requires ListLayout(exp, q, tailArgs, rest, next, maxMetrics, left)
    requires Scan(exp, p, i, maxMetrics) == Prefixed([ArgText(args[0])], Scan(exp, q, next, maxMetrics))
    ensures Scan(exp, p, i, maxMetrics) == Ok((ArgTexts(args)[..n], p + |Join(ArgTexts(args)[..n], ',')| + 1))
    decreases |args| - 1, 2
  {
    ScanArgumentList(exp, q, tailArgs, rest, next, maxMetrics, left);
    ListCombine(args, tailArgs, p, q, n, left, Scan(exp, p, i, maxMetrics), Scan(exp, q, next, maxMetrics));
  }


  /** The first argument of a list of several is read, and the rest of the
      list is laid out the same way after its comma, with one argument less
      under the cap. */
  lemma ReadHead(exp: string, p: nat, args: seq<Arg>, rest: string, i: nat, maxMetrics: nat, n: nat, q: nat,
                 tailArgs: seq<Arg>, next: nat, left: nat)
    requires i < maxMetrics && |exp| <= NoComma && |args| > 1 && n > 1
    requires AllWellFormed(args) && EndsBraced(args)
    requires TailIs(exp, p, Join(ArgTexts(args), ',') + rest) && Follower(rest)
    requires |args| < maxMetrics - i ==> rest == ")"
    requires n == Min(|args|, maxMetrics - i)
    requires q == p + |ArgText(args[0])| + 1
    requires tailArgs == args[1..] && next == i + 1 && left == n - 1
    ensures Scan(exp, p, i, maxMetrics) == Prefixed([ArgText(args[0])], Scan(exp, q, next, maxMetrics))
    ensures ListLayout(exp, q, tailArgs, rest, next, maxMetrics, left)
  {
    var after := ListHead(exp, p, args, rest, q);
    HeadStep(exp, p, args[0], after, i, maxMetrics, q);
  }

  /** The last argument of a list, followed by its separator. */
  lemma LastArgument(exp: string, p: nat, args: seq<Arg>, rest: string, i: nat, maxMetrics: nat, n: nat)
    requires i < maxMetrics && |args| == 1 && |exp| <= NoComma && n == 1
    requires AllWellFormed(args) && EndsBraced(args)
    requires TailIs(exp, p, Join(ArgTexts(args), ',') + rest) && Follower(rest)
    requires 1 < maxMetrics - i ==> rest == ")"
    ensures Scan(exp, p, i, maxMetrics) == Ok((ArgTexts(args)[..n], p + |Join(ArgTexts(args)[..n], ',')| + 1))
  {
    var q: nat := p + |ArgText(args[0])| + 1;
    LastFacts(exp, p, args, rest);
    HeadStep(exp, p, args[0], rest, i, maxMetrics, q);
    ScanStops(exp, q, i + 1, maxMetrics);
    ListCombineLast(args, p, q, n, Scan(exp, p, i, maxMetrics), Scan(exp, q, i + 1, maxMetrics));
  }

  lemma LastFacts(exp: string, p: nat, args: seq<Arg>, rest: string)
    requires |args| == 1 && EndsBraced(args)
    requires TailIs(exp, p, Join(ArgTexts(args), ',') + rest)
    ensures TailIs(exp, p, ArgText(args[0]) + rest)
    ensures args[0].Braced?
    ensures ArgTexts(args)[..1] == [ArgText(args[0])]
    ensures Join(ArgTexts(args)[..1], ',') == ArgText(args[0])
  {
    var ts := ArgTexts(args);
    assert ts[..1] == ts;
    assert Join(ts, ',') == ts[0];
  }

  /** The first argument of a list of several, what follows it, and the
      rest of the list after its comma. */
  lemma ListHead(exp: string, p: nat, args: seq<Arg>, rest: string, q: nat) returns (after: string)
    requires |args| > 1 && AllWellFormed(args) && EndsBraced(args)
    requires TailIs(exp, p, Join(ArgTexts(args), ',') + rest) && Follower(rest)
    requires q == p + |ArgText(args[0])| + 1
    ensures TailIs(exp, p, ArgText(args[0]) + after) && Follower(after)
    ensures args[0].Plain? ==> '{' in after
    ensures TailIs(exp, q, Join(ArgTexts(args[1..]), ',') + rest)
    ensures WellFormed(args[0]) && AllWellFormed(args[1..]) && EndsBraced(args[1..])
  {
    var j' := Join(ArgTexts(args[1..]), ',');
    after := [','] + (j' + rest);
    ListJoinHead(args, rest);
    TailSplit(exp, p, ArgText(args[0]) + [','], j' + rest, q);
    ListHeadMarks(args, rest);
    assert args[1..][|args| - 2] == args[|args| - 1];
  }

  /** A joined list is its first text, a comma, and the join of the rest. */
  lemma ListJoinHead(args: seq<Arg>, rest: string)
    requires |args| > 1
    ensures var j' := Join(ArgTexts(args[1..]), ',');
            && Join(ArgTexts(args), ',') + rest == ArgText(args[0]) + ([','] + (j' + rest))
            && Join(ArgTexts(args), ',') + rest == (ArgText(args[0]) + [',']) + (j' + rest)
  {
    var ts := ArgTexts(args);
    var j' := Join(ArgTexts(args[1..]), ',');
    assert ArgTexts(args[1..]) == ts[1..];
    assert Join(ts, ',') == (ts[0] + [',']) + j';
    Associative(ts[0] + [','], j', rest);
    Associative(ts[0], [','], j' + rest);
  }

  lemma Associative(a: string, b: string, c: string)
    ensures (a + b) + c == a + (b + c)
  {
  }

  /** A `)` follows the first comma of a list, and so does a `{`: the one of
      the last argument. */
  lemma ListHeadMarks(args: seq<Arg>, rest: string)
    requires |args| > 1 && EndsBraced(args) && ')' in rest
    ensures var j' := Join(ArgTexts(args[1..]), ',');
            && ')' in j' + rest
            && '{' in j' + rest
  {
    var ts' := ArgTexts(args[1..]);
    var j' := Join(ts', ',');
    assert ')' in j' + rest by {
      var k :| 0 <= k < |rest| && rest[k] == ')';
      assert (j' + rest)[|j'| + k] == ')';
    }
    var last := |args| - 1;
    assert '{' in ts'[last - 1] by {
      var a := args[last];
      BracedTextShape(a);
      assert ArgText(a)[|a.head|] == '{';
    }
    InJoin(ts', ',', '{');
    assert '{' in j' + rest by {
      var k :| 0 <= k < |j'| && j'[k] == '{';
      assert (j' + rest)[k] == '{';
    }
  }

  /** The result of a scan that reads the first argument of a list and then
      `n - 1` more from the rest of the list. */
  lemma ListCombine(args: seq<Arg>, tailArgs: seq<Arg>, p: nat, q: nat, n: nat, left: nat,
                    s0: Result<(seq<string>, nat), QueryError>, s1: Result<(seq<string>, nat), QueryError>)
    requires |args| > 1 && tailArgs == args[1..] && 0 < left <= |tailArgs| && n == left + 1
    requires q == p + |ArgText(args[0])| + 1
    requires s0 == Prefixed([ArgText(args[0])], s1)
    requires s1 == Ok((ArgTexts(tailArgs)[..left], q + |Join(ArgTexts(tailArgs)[..left], ',')| + 1))
    ensures s0 == Ok((ArgTexts(args)[..n], p + |Join(ArgTexts(args)[..n], ',')| + 1))
  {
    var ts := ArgTexts(args);
    assert ArgTexts(tailArgs) == ts[1..];
    ListAlgebra(ts, p, q, left);
  }

  /** The same when nothing is read after the first argument: the list has
      no more, or the cap leaves room for the first argument only. */
  lemma ListCombineLast(args: seq<Arg>, p: nat, q: nat, n: nat,
                        s0: Result<(seq<string>, nat), QueryError>, s1: Result<(seq<string>, nat), QueryError>)
    requires |args| > 0 && q == p + |ArgText(args[0])| + 1 && n == 1
    requires s0 == Prefixed([ArgText(args[0])], s1)
    requires s1 == Ok(([], q))
    ensures s0 == Ok((ArgTexts(args)[..n], p + |Join(ArgTexts(args)[..n], ',')| + 1))
  {
    var ts := ArgTexts(args);
    if |args| > 1 {
      ListAlgebra(ts, p, q, 0);
    } else {
      assert ts[..1] == [ts[0]];
      PrefixedOne(ts[0], q, s0, s1);
    }
  }

  /** Reading the first text and then `n` more of the rest is reading
      `n + 1` of the whole list. */
  lemma ListAlgebra(ts: seq<string>, p: nat, q: nat, n: nat)
    requires |ts| > 1 && n <= |ts| - 1
    requires q == p + |ts[0]| + 1
    ensures Prefixed([ts[0]], Ok((ts[1..][..n], q + |Join(ts[1..][..n], ',')| + (if n == 0 then 0 else 1))))
            == Ok((ts[..n + 1], p + |Join(ts[..n + 1], ',')| + 1))
  {
    assert ts[..n + 1] == [ts[0]] + ts[1..][..n];
    assert ts[..n + 1][1..] == ts[1..][..n];
    if n == 0 {
      assert Join(ts[..1], ',') == ts[0];
    } else {
      assert Join(ts[..n + 1], ',') == ts[0] + [','] + Join(ts[1..][..n], ',');
    }
  }

  /** The first example the source traces (index.js:1060-1068): both
      arguments are read whole, brace groups included, and scanning ends at
      the end of the expression. */
  lemma ExampleTrace(exp: string, h1: string, h2: string, g: string)
    requires h1 == "sum:cpu.percent" && h2 == "sum:ifstat.bytes" && g == "host=*"
    requires exp == "sumSeries(" + (h1 + "{" + g + "}") + "," + (h2 + "{" + g + "}") + ")"
    ensures Scan(exp, 10, 0, 26) == Ok(([h1 + "{" + g + "}", h2 + "{" + g + "}"], |exp|))
  {
    var a, b := Braced(h1, g, None), Braced(h2, g, None);
    assert ArgText(a) == h1 + "{" + g + "}" && ArgText(b) == h2 + "{" + g + "}";
    HeadFree(h1);
    HeadFree(h2);
    assert FreeOf(g, {'}'});
    TwoArguments(exp, "sumSeries(", a, b, 10, 0, 26);
  }

  lemma HeadFree(h: string)
    requires h == "sum:cpu.percent" || h == "sum:ifstat.bytes"
    ensures FreeOf(h, {',', ')', '{'}) && h[0] == 's'
  {
  }

  /** Two braced arguments after a head such as `sumSeries(`, with room for
      both under the cap, are both read and scanning ends at the end of the
      text. */
  lemma TwoArguments(exp: string, head: string, a: Arg, b: Arg, start: nat, first: nat, cap: nat)
    requires a.Braced? && b.Braced? && WellFormed(a) && WellFormed(b)
    requires exp == head + ArgText(a) + "," + ArgText(b) + ")" && |exp| <= NoComma
    requires start == |head| && first == 0 && 2 < cap
    ensures Scan(exp, start, first, cap) == Ok(([ArgText(a), ArgText(b)], |exp|))
  {
    var count := 2;
    var args := TraceLayout(exp, head, a, b, start, first, cap, count);
    ScanArgumentList(exp, start, args, ")", first, cap, count);
    BothRead(a, b, args, start, count, |exp|, Scan(exp, start, first, cap));
  }

  lemma TraceLayout(exp: string, head: string, a: Arg, b: Arg, start: nat, first: nat, cap: nat, count: nat)
    returns (args: seq<Arg>)
    requires a.Braced? && b.Braced? && WellFormed(a) && WellFormed(b)
    requires exp == head + ArgText(a) + "," + ArgText(b) + ")" && |exp| <= NoComma
    requires start == |head| && first == 0 && 2 < cap && count == 2
    ensures args == [a, b] && start + |Join(ArgTexts(args)[..count], ',')| + 1 == |exp|
    ensures ListLayout(exp, start, args, ")", first, cap, count)
  {
    args := [a, b];
    var m1, m2 := ArgText(a), ArgText(b);
    var ts := ArgTexts(args);
    assert args[1..] == [b] && args[1..][1..] == [];
    assert ts == [m1, m2] && ts[..2] == ts && ts[1..] == [m2];
    assert Join(ts, ',') == m1 + [','] + m2;
    assert exp == head + ((m1 + [','] + m2) + ")");
    TailIsConcat(head, (m1 + [','] + m2) + ")");
  }

  lemma BothRead(a: Arg, b: Arg, args: seq<Arg>, start: nat, count: nat, e: nat, s: Result<(seq<string>, nat), QueryError>)
    requires args == [a, b] && count == 2 && start + |Join(ArgTexts(args)[..count], ',')| + 1 == e
    requires s == Ok((ArgTexts(args)[..count], start + |Join(ArgTexts(args)[..count], ',')| + 1))
    ensures s == Ok(([ArgText(a), ArgText(b)], e))
  {
    assert ArgTexts(args)[..2] == [ArgText(a), ArgText(b)];
  }

  /** `n` copies of `s`. */
  function Repeat(s: string, n: nat): (r: seq<string>)
    ensures |r| == n && forall k :: 0 <= k < n ==> r[k] == s
  {
    seq(n, _ => s)
  }

  /** With no brace anywhere in the expression, every step reads up to the
      first `,` or `)` of the whole expression, wherever it starts from. */
  lemma BracelessStep(exp: string, index: nat)
    requires '{' !in exp && '}' !in exp
    ensures StepEnd(exp, index) == Ok(Some(NextCommaOrEnd(exp, 0)))
  {
    assert IndexOf(exp, '{', index) == -1;
    assert IndexOf(exp, '}', 0) == -1;
    assert IndexOf(exp, '{', 0) == -1;
  }

  /** A step that ends just before where it started reads the same text
      without moving on, and repeats it until the cap. */
  lemma {:induction false} RepeatsToCap(exp: string, k: nat, end: nat, i: nat, maxMetrics: nat, count: nat)
    requires count == maxMetrics - i
    requires k < |exp| && exp[k] != ')' && end + 1 == k
    requires StepEnd(exp, k) == Ok(Some(end))
    ensures Scan(exp, k, i, maxMetrics) == Ok((Repeat(Trim(Substring(exp, k, end)), count), k))
    decreases count
  {
    if i < maxMetrics {
      var next, left := i + 1, count - 1;
      RepeatsToCap(exp, k, end, next, maxMetrics, left);
      ScanOnce(exp, k, i, maxMetrics, end, k);
      RepeatCons(Trim(Substring(exp, k, end)), count, left);
    }
  }

  /** One more copy in front. */
  lemma RepeatCons(s: string, n: nat, left: nat)
    requires n == left + 1
    ensures Repeat(s, n) == [s] + Repeat(s, left)
  {
    var r, t := Repeat(s, n), [s] + Repeat(s, left);
    assert |r| == |t|;
    forall j | 0 <= j < |r| ensures r[j] == t[j] {
      if j > 0 { assert t[j] == Repeat(s, left)[j - 1]; }
    }
  }

  /** Arguments without braces: the first is read, but every later one is
      replaced by a `","` token, repeated up to the cap, because the
      source's search for a closing brace restarts at the beginning of the
      expression. Here the first `,` of the whole expression is at `c`, the
      first argument starts at `p` before it, and no brace occurs. */
  lemma BracelessArguments(exp: string, p: nat, c: nat, maxMetrics: nat)
    requires maxMetrics > 0 && |exp| <= NoComma
    requires '{' !in exp && '}' !in exp
    requires p < c < |exp| && exp[c] == ','
    requires forall j :: 0 <= j < c ==> exp[j] != ',' && exp[j] != ')'
    requires CloseFollows(exp, c)
    requires exp[p] != ')' && (maxMetrics > 1 ==> exp[c + 1] != ')')
    ensures Scan(exp, p, 0, maxMetrics) == Ok(([Trim(Substring(exp, p, c))] + Repeat(",", maxMetrics - 1), c + 1))
  {
    NextCommaOrEndIs(exp, 0, c);
    BracelessStep(exp, p);
    var q: nat := c + 1;
    ScanOnce(exp, p, 0, maxMetrics, c, q);
    BracelessRest(exp, c, q, maxMetrics);
  }

  /** After the first argument, each pass reads the `,` before it again. */
  lemma BracelessRest(exp: string, c: nat, q: nat, maxMetrics: nat)
    requires maxMetrics > 0 && |exp| <= NoComma
    requires '{' !in exp && '}' !in exp
    requires c < |exp| && exp[c] == ',' && q == c + 1
    requires NextCommaOrEnd(exp, 0) == c
    requires maxMetrics > 1 ==> q < |exp| && exp[q] != ')'
    ensures Scan(exp, q, 1, maxMetrics) == Ok((Repeat(",", maxMetrics - 1), q))
  {
    if maxMetrics > 1 {
      BracelessStep(exp, q);
      assert Substring(exp, q, c) == ",";
      TrimOfTrimmed(",");
      RepeatsToCap(exp, q, c, 1, maxMetrics, maxMetrics - 1);
    } else {
      ScanStops(exp, q, 1, maxMetrics);
      assert Repeat(",", 0) == [];
    }
  }

  /** `sumSeries(sum:a,sum:b)` reads `sum:a` and then 25 `","` tokens. */
  lemma BracelessExample(exp: string, m1: string, m2: string)
    requires m1 == "sum:a" && m2 == "sum:b"
    requires exp == "sumSeries(" + m1 + "," + m2 + ")"
    ensures Scan(exp, 10, 0, 26) == Ok(([m1] + Repeat(",", 25), 16))
  {
    BracelessLayout(exp, m1, m2);
    BracelessArguments(exp, 10, 15, 26);
  }

  /** Where the separators of the braceless example sit. */
  lemma BracelessLayout(exp: string, m1: string, m2: string)
    requires m1 == "sum:a" && m2 == "sum:b"
    requires exp == "sumSeries(" + m1 + "," + m2 + ")"
    ensures |exp| <= NoComma && '{' !in exp && '}' !in exp
    ensures 15 < |exp| && exp[15] == ',' && exp[10] != ')' && exp[16] != ')'
    ensures forall j :: 0 <= j < 15 ==> exp[j] != ',' && exp[j] != ')'
    ensures CloseFollows(exp, 15)
    ensures Trim(Substring(exp, 10, 15)) == m1
  {
    assert exp[21] == ')';
    assert Substring(exp, 10, 15) == m1;
    TrimOfTrimmed(m1);
  }

  /** The extra argument read from `q`, where `x` and then a `)` follow. */
  lemma ExtraArgAt(exp: string, q: nat, x: string, after: string)
    requires ')' !in x && |after| > 0 && after[0] == ')'
    requires TailIs(exp, q, x + after)
    ensures ExtraArg(exp, q) == Trim(x)
  {
    var e := q + |x|;
    TailSplit(exp, q, x, after, e);
    assert exp[e] == (x + after)[|x|];
    forall j | q <= j < e
      ensures exp[j] != ')'
    {
      assert exp[j] == exp[q..e][j - q];
    }
    IndexOfIs(exp, ')', q, e);
  }

  /** `scale(<metric>,<factor>)` with one argument allowed: the metric written
      from `p` on is read whole, scanning stops at `q` just after its comma,
      and the factor is what follows. */
  lemma OneArgumentAndExtra(exp: string, p: nat, a: Arg, x: string, q: nat)
    requires WellFormed(a) && a.Braced? && ')' !in x && |exp| <= NoComma
    requires TailIs(exp, p, ArgText(a) + ("," + x + ")"))
    requires q == p + |ArgText(a)| + 1
    ensures Scan(exp, p, 0, 1) == Ok(([ArgText(a)], q))
    ensures ExtraArg(exp, q) == Trim(x)
  {
    OneArgumentFacts(exp, p, a, x, q);
    HeadStep(exp, p, a, "," + x + ")", 0, 1, q);
    ScanStops(exp, q, 1, 1);
    PrefixedOne(ArgText(a), q, Scan(exp, p, 0, 1), Scan(exp, q, 1, 1));
    ExtraArgAt(exp, q, x, ")");
  }

  lemma OneArgumentFacts(exp: string, p: nat, a: Arg, x: string, q: nat)
    requires TailIs(exp, p, ArgText(a) + ("," + x + ")"))
    requires q == p + |ArgText(a)| + 1
    ensures Follower("," + x + ")")
    ensures TailIs(exp, q, x + ")")
  {
    var after := "," + x + ")";
    assert ArgText(a) + after == (ArgText(a) + ",") + (x + ")");
    assert after[|x| + 1] == ')';
    TailSplit(exp, p, ArgText(a) + ",", x + ")", q);
  }
}
