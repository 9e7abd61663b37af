/** Orders and projections on integer sequences shared by the bracket
    enumeration, the permutation search and route bookkeeping. */
module Sequences {

  /** `a` comes before `b` in lexicographic order. */
  predicate LexLess(a: seq<int>, b: seq<int>) {
    exists k :: 0 <= k < |a| && k < |b| && a[..k] == b[..k] && a[k] < b[k]
  }

  /** `a` is `b` or comes before it. */
  predicate LexAtMost(a: seq<int>, b: seq<int>) {
    a == b || LexLess(a, b)
  }

  lemma {:induction false} LexTransitive(a: seq<int>, b: seq<int>, c: seq<int>)
    requires LexLess(a, b) && LexLess(b, c)
    ensures LexLess(a, c)
  {
    var i :| 0 <= i < |a| && i < |b| && a[..i] == b[..i] && a[i] < b[i];
    var j :| 0 <= j < |b| && j < |c| && b[..j] == c[..j] && b[j] < c[j];
    if i < j {
      assert b[..i] == b[..j][..i] && c[..i] == c[..j][..i];
      assert b[i] == b[..j][i] && c[i] == c[..j][i];
      assert a[..i] == c[..i] && a[i] < c[i];
    } else if j < i {
      assert a[..j] == a[..i][..j] && b[..j] == b[..i][..j];
      assert a[j] == a[..i][j] && b[j] == b[..i][j];
      assert a[..j] == c[..j] && a[j] < c[j];
    } else {
      assert a[..i] == c[..i] && a[i] < c[i];
    }
  }

  /** Two sequences of one length that agree up to `i` and differ are ordered. */
  lemma {:induction false} LexTrichotomyFrom(a: seq<int>, b: seq<int>, i: int)
    requires |a| == |b| && 0 <= i <= |a| && a[..i] == b[..i] && a != b
    ensures LexLess(a, b) || LexLess(b, a)
    decreases |a| - i
  {
    if i == |a| {
    } else if a[i] == b[i] {
      assert a[..i + 1] == a[..i] + [a[i]] && b[..i + 1] == b[..i] + [b[i]];
      LexTrichotomyFrom(a, b, i + 1);
    } else if a[i] < b[i] {
      assert LexLess(a, b);
    } else {
      assert LexLess(b, a);
    }
  }

  /** Lexicographic order is total on sequences of one length. */
  lemma {:induction false} LexTrichotomy(a: seq<int>, b: seq<int>)
    requires |a| == |b|
    ensures a == b || LexLess(a, b) || LexLess(b, a)
  {
    if a != b {
      LexTrichotomyFrom(a, b, 0);
    }
  }

  /** `s` read backwards. */
  function Reverse(s: seq<int>): (r: seq<int>)
    ensures |r| == |s|
  {
    seq(|s|, m requires 0 <= m < |s| => s[|s| - 1 - m])
  }

  /** 1, 2, ..., m */
  function Iota(m: int): seq<int>
    decreases m
  {
    if m <= 0 then [] else Iota(m - 1) + [m]
  }

  /** The positive entries, in order (the pickups of a route). */
  function Ups(s: seq<int>): seq<int> {
    if s == [] then [] else Ups(s[..|s| - 1]) + (if s[|s| - 1] > 0 then [s[|s| - 1]] else [])
  }

  /** The negated negative entries, in order (the dropoffs of a route). */
  function Downs(s: seq<int>): seq<int> {
    if s == [] then [] else Downs(s[..|s| - 1]) + (if s[|s| - 1] < 0 then [-s[|s| - 1]] else [])
  }

  lemma {:induction false} UpsDownsElements(s: seq<int>)
    ensures forall x :: x in Ups(s) ==> x > 0 && x in s
    ensures forall x :: x in Downs(s) ==> x > 0 && -x in s
  {
    if s != [] {
      UpsDownsElements(s[..|s| - 1]);
      assert forall x :: x in s[..|s| - 1] ==> x in s;
    }
  }

  /** Extending a prefix by one slot extends its pickups and dropoffs by that slot. */
  lemma {:induction false} UpsDownsStep(s: seq<int>, k: int)
    requires 0 <= k < |s|
    ensures Ups(s[..k + 1]) == Ups(s[..k]) + (if s[k] > 0 then [s[k]] else [])
    ensures Downs(s[..k + 1]) == Downs(s[..k]) + (if s[k] < 0 then [-s[k]] else [])
  {
    assert s[..k + 1][..k] == s[..k];
  }
}
