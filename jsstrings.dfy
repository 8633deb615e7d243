/** The JavaScript string operations the query engine relies on, with the
    semantics of the ECMAScript built-ins (`split`, `indexOf`, `substring`,
    `trim`, `toLowerCase`, `match` against the two anchored character-class
    patterns the code uses, and `split(x).join(y)`). */
module JsStrings {

  // ---------------------------------------------------------------------------
  // split / join with a one-character separator
  // ---------------------------------------------------------------------------

  /** Pieces between separators, joined back with the separator. */
  function Join(parts: seq<string>, sep: char): string
  {
    if |parts| == 0 then ""
    else if |parts| == 1 then parts[0]
    else parts[0] + [sep] + Join(parts[1..], sep)
  }

  /** `s.split(sep)`: never empty, no piece holds the separator, and joining
      the pieces gives `s` back. */
  function Split(s: string, sep: char): (parts: seq<string>)
    ensures |parts| >= 1
    ensures forall i :: 0 <= i < |parts| ==> sep !in parts[i]
    ensures Join(parts, sep) == s
    decreases |s|
  {
    if |s| == 0 then [""]
    else if s[0] == sep then
      var rest := Split(s[1..], sep);
      assert ([""] + rest)[1..] == rest;
      [""] + rest
    else
      var rest := Split(s[1..], sep);
      var parts := [[s[0]] + rest[0]] + rest[1..];
      assert parts[1..] == rest[1..];
      assert |rest| > 1 ==> Join(rest, sep) == rest[0] + [sep] + Join(rest[1..], sep);
      assert [s[0]] + s[1..] == s;
      parts
  }

  /** Splitting a join of separator-free pieces gives the pieces back. */
  lemma {:induction false} SplitOfJoin(parts: seq<string>, sep: char)
    requires |parts| >= 1
    requires forall i :: 0 <= i < |parts| ==> sep !in parts[i]
    ensures Split(Join(parts, sep), sep) == parts
  {
    if |parts| == 1 {
      SplitOfSeparatorFree(parts[0], sep);
    } else {
      SplitOfJoin(parts[1..], sep);
      SplitAfterSeparatorFree(parts[0], Join(parts[1..], sep), sep);
      assert [parts[0]] + parts[1..] == parts;
    }
  }

  lemma {:induction false} SplitOfSeparatorFree(s: string, sep: char)
    requires sep !in s
    ensures Split(s, sep) == [s]
    decreases |s|
  {
    if |s| > 0 {
      SplitOfSeparatorFree(s[1..], sep);
      assert [s[0]] + s[1..] == s;
    }
  }

  lemma {:induction false} SplitAfterSeparatorFree(a: string, b: string, sep: char)
    requires sep !in a
    ensures Split(a + [sep] + b, sep) == [a] + Split(b, sep)
    decreases |a|
  {
    var s := a + [sep] + b;
    if |a| == 0 {
      assert s[1..] == b;
      SplitAtSeparator(s, b, sep);
    } else {
      var t := a[1..] + [sep] + b;
      assert s[1..] == t && s[0] == a[0];
      SplitAfterSeparatorFree(a[1..], b, sep);
      SplitAtOther(s, t, sep);
      var r := Split(t, sep);
      assert r[0] == a[1..] && r[1..] == Split(b, sep);
      assert [a[0]] + a[1..] == a;
    }
  }

  /** A leading separator closes an empty piece. */
  lemma SplitAtSeparator(s: string, t: string, sep: char)
    requires |s| > 0 && s[0] == sep && t == s[1..]
    ensures Split(s, sep) == [""] + Split(t, sep)
  {
  }

  /** Any other leading character joins the first piece of the rest. */
  lemma SplitAtOther(s: string, t: string, sep: char)
    requires |s| > 0 && s[0] != sep && t == s[1..]
    ensures Split(s, sep) == [[s[0]] + Split(t, sep)[0]] + Split(t, sep)[1..]
  {
  }

  /** A character other than the separator occurs in the join iff it occurs
      in one of the pieces. */
  lemma {:induction false} InJoin(parts: seq<string>, sep: char, c: char)
    requires c != sep
    ensures c in Join(parts, sep) <==> exists i :: 0 <= i < |parts| && c in parts[i]
  {
    if |parts| > 1 {
      InJoin(parts[1..], sep, c);
      assert forall i :: 1 <= i < |parts| ==> parts[i] == parts[1..][i - 1];
      assert forall i :: 0 <= i < |parts| - 1 ==> parts[1..][i] == parts[i + 1];
    }
  }

  // ---------------------------------------------------------------------------
  // indexOf / substring
  // ---------------------------------------------------------------------------

  /** The position ECMAScript clamps a `fromIndex` or `substring` bound to. */
  function Clamp(i: int, len: nat): (r: nat)
    ensures r <= len
    ensures 0 <= i <= len ==> r == i
  {
    if i < 0 then 0 else if i > len then len else i
  }

  /** The first position at or after `f` holding `c`, or -1. */
  function Find(s: string, c: char, f: nat): (r: int)
    ensures -1 <= r < |s|
    ensures r != -1 ==> f <= r && s[r] == c
    decreases |s| - f
  {
    if f >= |s| then -1
    else if s[f] == c then f
    else Find(s, c, f + 1)
  }

  /** `s.indexOf(c, from)` for a one-character search string: a negative
      `from` searches from the start, one past the end finds nothing. */
  function IndexOf(s: string, c: char, from: int): (r: int)
    ensures -1 <= r < |s|
    ensures r != -1 ==> Clamp(from, |s|) <= r && s[r] == c
  {
    Find(s, c, if from < 0 then 0 else from)
  }

  lemma {:induction false} FindFirst(s: string, c: char, f: nat)
    ensures Find(s, c, f) == -1 ==> forall j :: f <= j < |s| ==> s[j] != c
    ensures Find(s, c, f) != -1 ==> forall j :: f <= j < Find(s, c, f) ==> s[j] != c
    decreases |s| - f
  {
    if f < |s| && s[f] != c {
      FindFirst(s, c, f + 1);
    }
  }

  /** `indexOf` finds the first occurrence: nothing before it holds `c`, and
      it is -1 only when nothing from `from` on does. */
  lemma IndexOfFirst(s: string, c: char, from: int)
    ensures IndexOf(s, c, from) == -1 ==> forall j :: Clamp(from, |s|) <= j < |s| ==> s[j] != c
    ensures IndexOf(s, c, from) != -1 ==> forall j :: Clamp(from, |s|) <= j < IndexOf(s, c, from) ==> s[j] != c
  {
    FindFirst(s, c, if from < 0 then 0 else from);
  }

  /** The first `c` at or after `from` is at `r`. */
  lemma IndexOfIs(s: string, c: char, from: nat, r: nat)
    requires from <= r < |s| && s[r] == c
    requires forall j :: from <= j < r ==> s[j] != c
    ensures IndexOf(s, c, from) == r
  {
    IndexOfFirst(s, c, from);
  }

  /** No `c` from `from` to `b`: the search ends beyond `b`, if at all. */
  lemma IndexOfBeyond(s: string, c: char, from: nat, b: nat)
    requires from <= b < |s|
    requires forall j :: from <= j <= b ==> s[j] != c
    ensures IndexOf(s, c, from) == -1 || IndexOf(s, c, from) > b
  {
    IndexOfFirst(s, c, from);
  }

  /** No `c` at or after `from`. */
  lemma IndexOfNone(s: string, c: char, from: nat)
    requires from <= |s|
    requires forall j :: from <= j < |s| ==> s[j] != c
    ensures IndexOf(s, c, from) == -1
  {
  }

  /** In `a + [c] + b` with `c` not in `a`, the first `c` sits right after `a`. */
  lemma IndexOfAfterFree(a: string, c: char, b: string)
    requires c !in a
    ensures IndexOf(a + [c] + b, c, 0) == |a|
  {
    var s := a + [c] + b;
    assert s[|a|] == c;
    assert forall j :: 0 <= j < |a| ==> s[j] == a[j];
    IndexOfIs(s, c, 0, |a|);
  }

  /** The first piece of a split is the text before the first separator. */
  lemma {:induction false} SplitFirst(s: string, sep: char)
    requires sep in s
    ensures |Split(s, sep)| >= 2
    ensures 0 <= IndexOf(s, sep, 0) && Split(s, sep)[0] == s[..IndexOf(s, sep, 0)]
  {
    var parts := Split(s, sep);
    assert |parts| >= 2;
    var rest := Join(parts[1..], sep);
    assert s == parts[0] + [sep] + rest;
    IndexOfAfterFree(parts[0], sep, rest);
    assert s[..|parts[0]|] == parts[0];
  }

  /** A split has a single piece iff the separator does not occur. */
  lemma SplitSingle(s: string, sep: char)
    ensures |Split(s, sep)| == 1 <==> sep !in s
  {
    if sep !in s {
      SplitOfSeparatorFree(s, sep);
    } else {
      SplitFirst(s, sep);
    }
  }

  /** `s.substring(start, end)`: both bounds clamped, swapped when reversed. */
  function Substring(s: string, start: int, end: int): (r: string)
    ensures |r| <= |s|
    ensures 0 <= start <= end <= |s| ==> r == s[start..end]
    ensures 0 <= end <= start <= |s| ==> r == s[end..start]
  {
    var a := Clamp(start, |s|);
    var b := Clamp(end, |s|);
    if a <= b then s[a..b] else s[b..a]
  }

  /** No character of `s` is in `cs`. */
  predicate FreeOf(s: string, cs: set<char>)
  {
    forall i :: 0 <= i < |s| ==> s[i] !in cs
  }

  /** `s.indexOf(p) == 0`. */
  predicate StartsWith(s: string, p: string)
  {
    |p| <= |s| && s[..|p|] == p
  }

  /** `s.indexOf(p) >= 0`: `p` occurs somewhere in `s`. */
  predicate Contains(s: string, p: string)
    decreases |s|
  {
    StartsWith(s, p) || (|s| > 0 && Contains(s[1..], p))
  }

  /** Every character of an occurring text occurs in `s`. */
  lemma {:induction false} ContainsChars(s: string, p: string)
    requires Contains(s, p)
    ensures forall i :: 0 <= i < |p| ==> p[i] in s
    decreases |s|
  {
    if !StartsWith(s, p) {
      ContainsChars(s[1..], p);
      assert forall c :: c in s[1..] ==> c in s;
    } else {
      assert forall i :: 0 <= i < |p| ==> p[i] == s[i];
    }
  }

  /** A text holding a character that `s` lacks does not occur in `s`. */
  lemma AbsentCharNotContained(s: string, p: string, i: nat)
    requires i < |p| && p[i] !in s
    ensures !Contains(s, p)
  {
    if Contains(s, p) {
      ContainsChars(s, p);
    }
  }

  // ---------------------------------------------------------------------------
  // trim
  // ---------------------------------------------------------------------------

  /** ECMAScript WhiteSpace and LineTerminator code points (what `trim` strips). */
  predicate IsJsWhitespace(c: char)
  {
    c == '\t' || c == '\n' || c == '\U{000B}' || c == '\U{000C}' || c == '\r' ||
    c == ' ' || c == '\U{00A0}' || c == '\U{1680}' ||
    ('\U{2000}' <= c <= '\U{200A}') ||
    c == '\U{2028}' || c == '\U{2029}' || c == '\U{202F}' || c == '\U{205F}' ||
    c == '\U{3000}' || c == '\U{FEFF}'
  }

  /** Neither end of `s` is white space. */
  predicate Trimmed(s: string)
  {
    s == [] || (!IsJsWhitespace(s[0]) && !IsJsWhitespace(s[|s| - 1]))
  }

  /** `s.trim()`: white space is stripped from both ends. */
  function Trim(s: string): (r: string)
    ensures Trimmed(r) && |r| <= |s|
    decreases |s|
  {
    if |s| > 0 && IsJsWhitespace(s[0]) then Trim(s[1..])
    else if |s| > 0 && IsJsWhitespace(s[|s| - 1]) then Trim(s[..|s| - 1])
    else s
  }

  /** Everything of `s` outside `s[a..b]` is white space. */
  predicate WhiteOutside(s: string, a: nat, b: nat)
  {
    a <= b <= |s| &&
    (forall j :: 0 <= j < a ==> IsJsWhitespace(s[j])) &&
    (forall j :: b <= j < |s| ==> IsJsWhitespace(s[j]))
  }

  /** What `trim` removes is white space, from the two ends only. */
  lemma TrimStripsEnds(s: string)
    ensures exists a: nat, b: nat :: WhiteOutside(s, a, b) && Trim(s) == s[a..b]
  {
    var a, b := TrimWindow(s);
  }

  /** Where the trimmed text sits in `s`. */
  lemma {:induction false} TrimWindow(s: string) returns (a: nat, b: nat)
    ensures WhiteOutside(s, a, b) && Trim(s) == s[a..b]
    decreases |s|
  {
    if |s| > 0 && IsJsWhitespace(s[0]) {
      var a', b' := TrimWindow(s[1..]);
      a, b := a' + 1, b' + 1;
      WindowAfterFirst(s, a', b');
    } else if |s| > 0 && IsJsWhitespace(s[|s| - 1]) {
      a, b := TrimWindow(s[..|s| - 1]);
      WindowBeforeLast(s, a, b);
    } else {
      a, b := 0, |s|;
    }
  }

  lemma WindowAfterFirst(s: string, a: nat, b: nat)
    requires |s| > 0 && IsJsWhitespace(s[0]) && WhiteOutside(s[1..], a, b)
    ensures WhiteOutside(s, a + 1, b + 1) && s[1..][a..b] == s[a + 1..b + 1]
  {
    forall j | 0 < j < a + 1
      ensures IsJsWhitespace(s[j])
    {
      assert s[j] == s[1..][j - 1];
    }
    forall j | b + 1 <= j < |s|
      ensures IsJsWhitespace(s[j])
    {
      assert s[j] == s[1..][j - 1];
    }
  }

  lemma WindowBeforeLast(s: string, a: nat, b: nat)
    requires |s| > 0 && IsJsWhitespace(s[|s| - 1]) && WhiteOutside(s[..|s| - 1], a, b)
    ensures WhiteOutside(s, a, b) && s[..|s| - 1][a..b] == s[a..b]
  {
    var t := s[..|s| - 1];
    forall j | 0 <= j < a
      ensures IsJsWhitespace(s[j])
    {
      assert s[j] == t[j];
    }
    forall j | b <= j < |s|
      ensures IsJsWhitespace(s[j])
    {
      if j < |t| {
        assert s[j] == t[j];
      }
    }
  }

  /** A text that neither starts nor ends with white space is its own trim. */
  lemma TrimOfTrimmed(s: string)
    requires Trimmed(s)
    ensures Trim(s) == s
  {
  }

  // ---------------------------------------------------------------------------
  // toLowerCase (ASCII letters; see README for the rest of Unicode)
  // ---------------------------------------------------------------------------

  function LowerChar(c: char): (r: char)
    ensures !('A' <= r <= 'Z')
    ensures !('A' <= c <= 'Z') ==> r == c
  {
    if 'A' <= c <= 'Z' then (c as int + 32) as char else c
  }

  /** `s.toLowerCase()`: the result has no upper-case letter and every other
      character is kept. */
  function Lower(s: string): (r: string)
    ensures |r| == |s|
    ensures forall i :: 0 <= i < |s| ==> r[i] == LowerChar(s[i])
  {
    seq(|s|, i requires 0 <= i < |s| => LowerChar(s[i]))
  }

  lemma LowerIdempotent(s: string)
    ensures Lower(Lower(s)) == Lower(s)
  {
  }

  // ---------------------------------------------------------------------------
  // the `/^[0-9]+/` and `/[a-zA-Z]+$/` matches
  // ---------------------------------------------------------------------------

  predicate IsDigit(c: char) { '0' <= c <= '9' }

  predicate IsLetter(c: char) { ('a' <= c <= 'z') || ('A' <= c <= 'Z') }

  /** The text `s.match(/^[0-9]+/)` finds (empty when the match is null). */
  function LeadingDigits(s: string): (r: string)
    ensures r <= s
    ensures forall i :: 0 <= i < |r| ==> IsDigit(r[i])
    ensures |r| < |s| ==> !IsDigit(s[|r|])
    decreases |s|
  {
    if |s| > 0 && IsDigit(s[0]) then [s[0]] + LeadingDigits(s[1..]) else ""
  }

  /** The text `s.match(/[a-zA-Z]+$/)` finds (empty when the match is null):
      the longest run of letters that ends the string. */
  function TrailingLetters(s: string): (r: string)
    ensures |r| <= |s| && r == s[|s| - |r|..]
    ensures forall i :: 0 <= i < |r| ==> IsLetter(r[i])
    ensures |r| < |s| ==> !IsLetter(s[|s| - |r| - 1])
    decreases |s|
  {
    if |s| > 0 && IsLetter(s[|s| - 1]) then
      var init := s[..|s| - 1];
      var t := TrailingLetters(init);
      LettersSnoc(s, init, t);
      t + [s[|s| - 1]]
    else ""
  }

  /** A letter after the trailing letters of the text before it extends them. */
  lemma LettersSnoc(s: string, init: string, t: string)
    requires |s| > 0 && IsLetter(s[|s| - 1]) && init == s[..|s| - 1]
    requires |t| <= |init| && t == init[|init| - |t|..]
    requires forall i :: 0 <= i < |t| ==> IsLetter(t[i])
    requires |t| < |init| ==> !IsLetter(init[|init| - |t| - 1])
    ensures var r := t + [s[|s| - 1]];
      |r| <= |s| && r == s[|s| - |r|..] &&
      (forall i :: 0 <= i < |r| ==> IsLetter(r[i])) &&
      (|r| < |s| ==> !IsLetter(s[|s| - |r| - 1]))
  {
    var r := t + [s[|s| - 1]];
    assert r == s[|s| - |r|..];
    forall i | 0 <= i < |r| ensures IsLetter(r[i]) {
      if i < |t| { assert r[i] == t[i]; }
    }
  }

  /** The leading digits of a run of digits followed by a non-digit. */
  lemma {:induction false} LeadingDigitsOf(a: string, b: string)
    requires forall i :: 0 <= i < |a| ==> IsDigit(a[i])
    requires b == "" || !IsDigit(b[0])
    ensures LeadingDigits(a + b) == a
    decreases |a|
  {
    if |a| > 0 {
      LeadingDigitsOf(a[1..], b);
      assert (a + b)[1..] == a[1..] + b;
    } else {
      assert a + b == b;
    }
  }

  /** The trailing letters of a text ending in a run of letters after a non-letter. */
  lemma {:induction false} TrailingLettersOf(a: string, u: string)
    requires forall i :: 0 <= i < |u| ==> IsLetter(u[i])
    requires a == "" || !IsLetter(a[|a| - 1])
    ensures TrailingLetters(a + u) == u
    decreases |u|
  {
    if |u| > 0 {
      var p := u[..|u| - 1];
      var c := u[|u| - 1];
      assert a + u == (a + p) + [c];
      TrailingLettersOf(a, p);
      TrailingLettersSnoc(a + p, c);
      assert p + [c] == u;
    } else {
      assert a + u == a;
    }
  }

  lemma TrailingLettersSnoc(s: string, c: char)
    requires IsLetter(c)
    ensures TrailingLetters(s + [c]) == TrailingLetters(s) + [c]
  {
    assert (s + [c])[..|s|] == s;
  }

  /** The number a string of decimal digits denotes. */
  function DigitsValue(d: string): nat
    decreases |d|
  {
    if |d| == 0 then 0
    else DigitsValue(d[..|d| - 1]) * 10 + (if IsDigit(d[|d| - 1]) then d[|d| - 1] as int - '0' as int else 0)
  }

  /** Decimal text of a natural number, without leading zeros. */
  function DecimalText(n: nat): (d: string)
    ensures |d| >= 1
    ensures forall i :: 0 <= i < |d| ==> IsDigit(d[i])
    ensures DigitsValue(d) == n
  {
    var last := ('0' as int + n % 10) as char;
    if n < 10 then
      assert DigitsValue([last]) == DigitsValue([]) * 10 + n;
      [last]
    else
      var d := DecimalText(n / 10) + [last];
      assert d[..|d| - 1] == DecimalText(n / 10);
      d
  }

  // ---------------------------------------------------------------------------
  // s.split(pat).join(rep)
  // ---------------------------------------------------------------------------

  /** `s.split(pat).join(rep)`: every occurrence of `pat`, found left to right
      without overlap, replaced by `rep`. */
  function ReplaceAll(s: string, pat: string, rep: string): (r: string)
    requires |pat| > 0
    ensures !Contains(s, pat) ==> r == s
    decreases |s|
  {
    if |s| < |pat| then s
    else if s[..|pat|] == pat then rep + ReplaceAll(s[|pat|..], pat, rep)
    else [s[0]] + ReplaceAll(s[1..], pat, rep)
  }
}
