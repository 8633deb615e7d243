/** The bucket width a downsample spec such as `10m-avg` denotes, the first
    bucket at or after the start of the query, and the grid of bucket times
    the combination loop walks (index.js:464-483, 507). */
module BucketGrid {
  import opened Wrappers
  import opened JsStrings
  import opened Series

  /** The width the engine ends up with: a number scaled by a recognised
      unit, or, for an unrecognised unit, the bare number (`match` result
      left unmultiplied). A missing number counts as 0. */
  datatype BucketWidth = Scaled(width: nat) | Unscaled(number: nat)

  /** Seconds per unit letter; `None` for anything else. */
  function UnitSeconds(u: string): Option<nat>
  {
    if u == "s" then Some(1)
    else if u == "m" then Some(60)
    else if u == "h" then Some(3600)
    else if u == "d" then Some(86400)
    else if u == "w" then Some(7 * 86400)
    else if u == "y" then Some(365 * 86400)
    else None
  }

  function MsMultiplier(ms: bool): nat
  {
    if ms then 1000 else 1
  }

  /** Milliseconds per unit of the returned timestamps. */
  function Denominator(ms: bool): nat
  {
    if ms then 1 else 1000
  }

  /** index.js:464-479. A falsy spec (absent or empty) means 10 seconds. The
      number is the leading digits of the whole spec, the unit the trailing
      letters of its part before the first `-`; a spec without such letters
      fails on `match(...)[0]`. */
  function Width(downsample: Option<string>, ms: bool): Result<BucketWidth, QueryError>
  {
    if downsample.None? || downsample.value == "" then Ok(Scaled(10 * MsMultiplier(ms)))
    else
      var d := downsample.value;
      var unit := TrailingLetters(Split(d, '-')[0]);
      if unit == "" then Err(MissingDownsampleUnit(d))
      else
        var n := DigitsValue(LeadingDigits(d));
        match UnitSeconds(unit)
        case Some(f) => Ok(Scaled(Scale(n, f, ms)))
        case None => Ok(Unscaled(n))
  }

  /** `number *= unit * msMultiplier`. */
  function Scale(n: nat, f: nat, ms: bool): nat
  {
    var m: nat := n * f;
    m * MsMultiplier(ms)
  }

  /** A spec written as a number, a unit and an optional `-` suffix (the
      fill policy) denotes that number times the unit, in the returned
      time unit; an unrecognised unit leaves the number unscaled. */
  lemma WidthOfSpec(n: nat, unit: string, suffix: string, ms: bool)
    requires |unit| > 0 && forall i :: 0 <= i < |unit| ==> IsLetter(unit[i])
    requires suffix == "" || suffix[0] == '-'
    ensures Width(Some(DecimalText(n) + unit + suffix), ms) ==
      match UnitSeconds(unit)
      case Some(f) => Ok(Scaled(Scale(n, f, ms)))
      case None => Ok(Unscaled(n))
  {
    SpecParts(DecimalText(n), unit, suffix);
  }

  /** Where the number and the unit of such a spec are found. */
  lemma SpecParts(digits: string, unit: string, suffix: string)
    requires forall i :: 0 <= i < |digits| ==> IsDigit(digits[i])
    requires forall i :: 0 <= i < |unit| ==> IsLetter(unit[i])
    requires suffix == "" || suffix[0] == '-'
    ensures Split(digits + unit + suffix, '-')[0] == digits + unit
    ensures TrailingLetters(digits + unit) == unit
    ensures |unit| > 0 ==> LeadingDigits(digits + unit + suffix) == digits
  {
    NoDash(digits, unit);
    FirstPiece(digits + unit, suffix);
    TrailingLettersOf(digits, unit);
    if |unit| > 0 {
      DigitsBeforeLetters(digits, unit, suffix);
    }
  }

  lemma NoDash(digits: string, unit: string)
    requires forall i :: 0 <= i < |digits| ==> IsDigit(digits[i])
    requires forall i :: 0 <= i < |unit| ==> IsLetter(unit[i])
    ensures '-' !in digits + unit
  {
    var head := digits + unit;
    forall i | 0 <= i < |head| ensures head[i] != '-' {
      if i < |digits| {
        assert head[i] == digits[i];
      } else {
        assert head[i] == unit[i - |digits|];
      }
    }
  }

  lemma DigitsBeforeLetters(digits: string, unit: string, suffix: string)
    requires forall i :: 0 <= i < |digits| ==> IsDigit(digits[i])
    requires |unit| > 0 && IsLetter(unit[0])
    ensures LeadingDigits(digits + unit + suffix) == digits
  {
    var rest := unit + suffix;
    assert digits + unit + suffix == digits + rest;
    assert rest[0] == unit[0];
    LeadingDigitsOf(digits, rest);
  }

  /** A number with no unit before the first `-` fails. */
  lemma WidthWithoutUnit(n: nat, suffix: string, ms: bool)
    requires suffix == "" || suffix[0] == '-'
    ensures Width(Some(DecimalText(n) + suffix), ms) == Err(MissingDownsampleUnit(DecimalText(n) + suffix))
  {
    var digits := DecimalText(n);
    assert '-' !in digits;
    FirstPiece(digits, suffix);
    TrailingLettersOf(digits, "");
    assert digits + "" == digits;
  }

  /** The part before the first `-`. */
  lemma FirstPiece(head: string, suffix: string)
    requires '-' !in head
    requires suffix == "" || suffix[0] == '-'
    ensures Split(head + suffix, '-')[0] == head
  {
    if suffix == "" {
      assert head + suffix == head;
      SplitOfSeparatorFree(head, '-');
    } else {
      var rest := suffix[1..];
      assert head + suffix == head + ['-'] + rest by {
        assert suffix == ['-'] + rest;
      }
      SplitAfterSeparatorFree(head, rest, '-');
    }
  }

  /** index.js:480-483, with the start in milliseconds and the returned
      timestamps in units of `Denominator(ms)` milliseconds. The start is
      kept when it is a multiple of the width, and otherwise advanced by one
      width and rounded down. A zero width makes the JavaScript value NaN:
      there is no first bucket. */
  function FirstTimeStamp(startMs: int, w: nat, ms: bool): Option<int>
  {
    var den := Denominator(ms);
    if w == 0 then None
    else if startMs % (den * w) == 0 then Some(startMs / den)
    else Some(((startMs + den * w) / (den * w)) * w)
  }

  /** `a / b` rounded up. */
  function CeilDiv(a: int, b: nat): int
    requires b > 0
  {
    (a + b - 1) / b
  }

  /** The first bucket is the least multiple of the width at or after the
      start: the start divided by the width, rounded up, times the width. */
  lemma FirstTimeStampLeast(startMs: int, w: nat, ms: bool)
    ensures FirstTimeStamp(startMs, w, ms).Some? <==> w > 0
    ensures FirstTimeStamp(startMs, w, ms).Some? ==>
      var t := FirstTimeStamp(startMs, w, ms).value;
      var den := Denominator(ms);
      t == CeilDiv(startMs, den * w) * w && t * den >= startMs && (t - w) * den < startMs
  {
    if w > 0 {
      var den := Denominator(ms);
      var b := den * w;
      var q := startMs / b;
      var r := startMs % b;
      if r == 0 {
        FirstTimeExact(startMs, den, w, q);
      } else {
        FirstTimeInexact(startMs, den, w, q, r);
      }
    }
  }

  /** The start is on the grid: it is itself the first bucket. */
  lemma FirstTimeExact(startMs: int, den: nat, w: nat, q: int)
    requires den > 0 && w > 0 && startMs == q * (den * w)
    ensures startMs / den == q * w && CeilDiv(startMs, den * w) == q
    ensures (q * w) * den == startMs && (q * w - w) * den < startMs
  {
    var b := den * w;
    assert startMs == (q * w) * den;
    DivUnique(startMs, den, q * w, 0);
    DivUnique(startMs + b - 1, b, q, b - 1);
    assert (q * w - w) * den == startMs - b;
  }

  /** The start is between two grid times: the later one is the first bucket. */
  lemma FirstTimeInexact(startMs: int, den: nat, w: nat, q: int, r: int)
    requires den > 0 && w > 0 && 0 < r < den * w && startMs == q * (den * w) + r
    ensures (startMs + den * w) / (den * w) == q + 1 && CeilDiv(startMs, den * w) == q + 1
    ensures ((q + 1) * w) * den > startMs && ((q + 1) * w - w) * den < startMs
  {
    var b := den * w;
    DivUnique(startMs + b, b, q + 1, r);
    DivUnique(startMs + b - 1, b, q + 1, r - 1);
    assert ((q + 1) * w) * den == (q + 1) * b;
    assert ((q + 1) * w - w) * den == q * b;
  }

  /** Euclidean division is determined by quotient and remainder. */
  lemma DivUnique(a: int, b: nat, q: int, r: int)
    requires b > 0 && 0 <= r < b && a == q * b + r
    ensures a / b == q && a % b == r
  {
    var e := q - a / b;
    assert e * b == a % b - r;
    MulSign(e, b);
  }

  lemma MulSign(e: int, b: nat)
    ensures e >= 1 ==> e * b >= b
    ensures e <= -1 ==> e * b + b <= 0
  {
    if e >= 1 {
      MulMono(1, e, b);
    } else if e <= -1 {
      MulMono(1, -e, b);
    }
  }

  /** The `k`-th bucket time. */
  function GridTime(first: int, w: nat, k: nat): int
  {
    first + k * w
  }

  lemma GridTimeNext(first: int, w: nat, k: nat)
    ensures GridTime(first, w, k + 1) == GridTime(first, w, k) + w
  {
  }

  /** How many bucket times are at or before the end. */
  function GridCount(first: int, w: nat, endMs: int, den: nat): nat
    requires w > 0 && den > 0
  {
    if first * den > endMs then 0 else (endMs - first * den) / (w * den) + 1
  }

  /** The times `t = first, first + w, ...` with `t <= end` (index.js:515). */
  function Grid(first: int, w: nat, endMs: int, den: nat): (g: seq<int>)
    requires w > 0 && den > 0
  {
    seq(GridCount(first, w, endMs, den), k requires k >= 0 => GridTime(first, w, k))
  }

  /** Exactly the bucket times at or before the end are on the grid: every
      one of them, in increasing order, and none beyond. */
  lemma GridProperties(first: int, w: nat, endMs: int, den: nat)
    requires w > 0 && den > 0
    ensures forall k: nat :: k < |Grid(first, w, endMs, den)| <==> GridTime(first, w, k) * den <= endMs
    ensures forall k :: 0 <= k < |Grid(first, w, endMs, den)| ==>
      Grid(first, w, endMs, den)[k] == GridTime(first, w, k)
    ensures forall j, k :: 0 <= j < k < |Grid(first, w, endMs, den)| ==>
      Grid(first, w, endMs, den)[j] < Grid(first, w, endMs, den)[k]
  {
    var n := GridCount(first, w, endMs, den);
    forall k: nat
      ensures k < n <==> GridTime(first, w, k) * den <= endMs
    {
      GridCountBound(first, w, endMs, den, k);
    }
    var g := Grid(first, w, endMs, den);
    forall j, k | 0 <= j < k < |g| ensures g[j] < g[k] {
      MulStrict(j, k, w);
    }
  }

  lemma GridCountBound(first: int, w: nat, endMs: int, den: nat, k: nat)
    requires w > 0 && den > 0
    ensures k < GridCount(first, w, endMs, den) <==> GridTime(first, w, k) * den <= endMs
  {
    var b := w * den;
    assert GridTime(first, w, k) * den == first * den + k * b;
    if first * den <= endMs {
      var a := endMs - first * den;
      var q := a / b;
      assert a == q * b + a % b && 0 <= a % b < b;
      if k <= q {
        MulMono(k, q, b);
      } else {
        MulMono(q + 1, k, b);
      }
    } else {
      assert k * b >= 0;
    }
  }

  lemma MulMono(x: nat, y: nat, b: nat)
    requires x <= y
    ensures x * b <= y * b
  {
  }

  lemma MulStrict(x: nat, y: nat, b: nat)
    requires x < y && b > 0
    ensures x * b < y * b
  {
  }
}
