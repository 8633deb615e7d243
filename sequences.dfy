/** Generic facts about the "append if not yet present" loops the engine uses
    (`if (arr.indexOf(x) < 0) arr.push(x)`) and about order-preserving
    selection. */
module Sequences {

  /** No element twice. */
  predicate NoDuplicates<T(==)>(s: seq<T>)
  {
    forall i, j :: 0 <= i < j < |s| ==> s[i] != s[j]
  }

  /** Position of the first occurrence of `x` in `s`. */
  function FirstIndex<T(==)>(s: seq<T>, x: T): (i: nat)
    requires x in s
    ensures i < |s| && s[i] == x
    ensures forall j :: 0 <= j < i ==> s[j] != x
  {
    if s[0] == x then 0 else 1 + FirstIndex(s[1..], x)
  }

  /** The elements of `s`, each kept at its first occurrence only: what
      `for x of s: if (acc.indexOf(x) < 0) acc.push(x)` leaves in `acc`. */
  function Dedup<T(==)>(s: seq<T>): seq<T>
    decreases |s|
  {
    if |s| == 0 then []
    else
      var d := Dedup(s[..|s| - 1]);
      if s[|s| - 1] in d then d else d + [s[|s| - 1]]
  }

  /** Dedup holds exactly the elements of its input, each once, in the order
      of their first occurrences. */
  lemma {:induction false} DedupProperties<T>(s: seq<T>)
    ensures forall x :: x in Dedup(s) <==> x in s
    ensures NoDuplicates(Dedup(s))
    ensures forall i, j :: 0 <= i < j < |Dedup(s)| ==>
              FirstIndex(s, Dedup(s)[i]) < FirstIndex(s, Dedup(s)[j])
    decreases |s|
  {
    if |s| > 0 {
      var p := s[..|s| - 1];
      var last := s[|s| - 1];
      DedupProperties(p);
      var d := Dedup(p);
      assert s == p + [last];
      assert forall x :: x in s <==> x in p || x == last;
      forall x | x in p
        ensures FirstIndex(s, x) == FirstIndex(p, x)
      {
        FirstIndexOfPrefix(p, last, x);
      }
      if last !in d {
        assert last !in p;
        var e := d + [last];
        assert FirstIndex(s, last) == |s| - 1 by {
          forall j | 0 <= j < |s| - 1 ensures s[j] != last { assert s[j] == p[j]; }
        }
        forall i, j | 0 <= i < j < |e|
          ensures FirstIndex(s, e[i]) < FirstIndex(s, e[j])
        {
          if j < |d| {
            assert e[i] == d[i] && e[j] == d[j];
          } else {
            assert e[i] == d[i] && e[j] == last && d[i] in d;
            assert FirstIndex(s, e[i]) == FirstIndex(p, d[i]) < |p|;
          }
        }
      }
    }
  }

  lemma FirstIndexOfPrefix<T>(p: seq<T>, last: T, x: T)
    requires x in p
    ensures FirstIndex(p + [last], x) == FirstIndex(p, x)
  {
    var s := p + [last];
    var k := FirstIndex(p, x);
    assert s[k] == x;
    var m := FirstIndex(s, x);
    assert forall j :: 0 <= j < |p| ==> s[j] == p[j];
  }

  /** `a` is `b` with some elements left out, the rest in their order. */
  predicate IsSubsequence<T(==)>(a: seq<T>, b: seq<T>)
    decreases |b|
  {
    |a| == 0 ||
    (|b| > 0 && ((a[0] == b[0] && IsSubsequence(a[1..], b[1..])) || IsSubsequence(a, b[1..])))
  }

  lemma {:induction false} SubsequenceTransitive<T>(a: seq<T>, b: seq<T>, c: seq<T>)
    requires IsSubsequence(a, b) && IsSubsequence(b, c)
    ensures IsSubsequence(a, c)
    decreases |c|
  {
    if |a| > 0 {
      assert |b| > 0 && |c| > 0;
      if b[0] == c[0] && IsSubsequence(b[1..], c[1..]) {
        if a[0] == b[0] && IsSubsequence(a[1..], b[1..]) {
          SubsequenceTransitive(a[1..], b[1..], c[1..]);
        } else {
          SubsequenceTransitive(a, b[1..], c[1..]);
        }
      } else {
        SubsequenceTransitive(a, b, c[1..]);
      }
    }
  }

  lemma {:induction false} SubsequenceReflexive<T>(a: seq<T>)
    ensures IsSubsequence(a, a)
  {
    if |a| > 0 {
      SubsequenceReflexive(a[1..]);
    }
  }

  /** Extending both sequences by the same element, or only the larger one. */
  lemma {:induction false} SubsequenceSnoc<T>(a: seq<T>, b: seq<T>, x: T)
    requires IsSubsequence(a, b)
    ensures IsSubsequence(a + [x], b + [x])
    ensures IsSubsequence(a, b + [x])
    decreases |b|
  {
    if |a| == 0 {
      if |b| == 0 {
        assert (a + [x])[1..] == a;
      } else {
        SubsequenceSnoc(a, b[1..], x);
        assert (b + [x])[1..] == b[1..] + [x];
      }
    } else {
      assert (b + [x])[1..] == b[1..] + [x];
      assert (a + [x])[1..] == a[1..] + [x];
      if a[0] == b[0] && IsSubsequence(a[1..], b[1..]) {
        SubsequenceSnoc(a[1..], b[1..], x);
      } else {
        SubsequenceSnoc(a, b[1..], x);
      }
    }
  }

  /** A non-empty sequence is its front followed by its last element. */
  lemma FrontAndLast<T>(s: seq<T>)
    requires |s| > 0
    ensures s[..|s| - 1] + [s[|s| - 1]] == s
  {
  }

  /** `f` applied to every element, in order. */
  function MapSeq<A, B>(xs: seq<A>, f: A -> B): (ys: seq<B>)
    ensures |ys| == |xs|
    decreases |xs|
  {
    if |xs| == 0 then [] else MapSeq(xs[..|xs| - 1], f) + [f(xs[|xs| - 1])]
  }

  lemma {:induction false} MapSeqAt<A, B>(xs: seq<A>, f: A -> B, k: nat)
    requires k < |xs|
    ensures MapSeq(xs, f)[k] == f(xs[k])
    decreases |xs|
  {
    if k < |xs| - 1 {
      MapSeqAt(xs[..|xs| - 1], f, k);
    }
  }

  /** Taking one more element appends it. */
  lemma TakeOneMore<T>(s: seq<T>, k: nat)
    requires k < |s|
    ensures s[..k + 1] == s[..k] + [s[k]]
  {
  }

  /** Position of the last occurrence of `x` in `s`. */
  function LastIndex<T(==)>(s: seq<T>, x: T): (i: nat)
    requires x in s
    ensures i < |s| && s[i] == x
    ensures forall j :: i < j < |s| ==> s[j] != x
    decreases |s|
  {
    if s[|s| - 1] == x then |s| - 1
    else
      assert x in s[..|s| - 1] by {
        var k :| 0 <= k < |s| && s[k] == x;
        assert s[..|s| - 1][k] == x;
      }
      LastIndex(s[..|s| - 1], x)
  }
}
