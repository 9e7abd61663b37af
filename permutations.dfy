/** `std::next_permutation` over a vector of delivery ids, and the orbit the
    re-sequencing search walks: from the route's own pickup order up to the
    lexicographically largest arrangement. */
module Permutations {
  import opened Sequences

  predicate NonIncreasing(s: seq<int>) {
    forall i, j :: 0 <= i < j < |s| ==> s[j] <= s[i]
  }

  predicate NonDecreasing(s: seq<int>) {
    forall i, j :: 0 <= i < j < |s| ==> s[i] <= s[j]
  }

  /** The largest `i < k` with `s[i] < s[i+1]`, or -1. */
  function PivotBelow(s: seq<int>, k: int): (r: int)
    requires 0 <= k < |s|
    ensures -1 <= r < k
    ensures r >= 0 ==> s[r] < s[r + 1]
    ensures forall m :: r < m < k ==> s[m + 1] <= s[m]
  {
    if k == 0 then -1 else if s[k - 1] < s[k] then k - 1 else PivotBelow(s, k - 1)
  }

  /** The pivot: the last position followed by a larger element, or -1. */
  function Pivot(s: seq<int>): (r: int)
    ensures -1 <= r && (r >= 0 ==> r + 1 < |s| && s[r] < s[r + 1])
    ensures forall m :: r < m && m + 1 < |s| ==> s[m + 1] <= s[m]
  {
    if |s| < 2 then -1 else PivotBelow(s, |s| - 1)
  }

  /** The largest `j < k` with `x < s[j]`, or -1. */
  function LastAbove(s: seq<int>, x: int, k: int): (r: int)
    requires 0 <= k <= |s|
    ensures -1 <= r < k
    ensures r >= 0 ==> x < s[r]
    ensures forall m :: r < m < k ==> s[m] <= x
  {
    if k == 0 then -1 else if x < s[k - 1] then k - 1 else LastAbove(s, x, k - 1)
  }

  datatype Next = Next(perm: seq<int>, more: bool)

  /** The next arrangement in lexicographic order and whether there was one;
      past the largest arrangement it wraps to the smallest. */
  function NextPerm(s: seq<int>): Next {
    var i := Pivot(s);
    if i < 0 then Next(Reverse(s), false)
    else
      var j := LastAbove(s, s[i], |s|);
      var t := s[i := s[j]][j := s[i]];
      Next(t[..i + 1] + Reverse(t[i + 1..]), true)
  }

  /** Reverses `a[lo..hi]` in place. */
  method ReverseRange(a: array<int>, lo: int, hi: int)
    requires 0 <= lo <= hi <= a.Length
    modifies a
    ensures a[..] == old(a[..lo]) + Reverse(old(a[lo..hi])) + old(a[hi..])
  {
    ghost var s := a[..];
    var i, j := lo, hi - 1;
    while i < j
      invariant |s| == a.Length
      invariant lo <= i <= j + 1 <= hi && i - lo == hi - 1 - j
      invariant forall m :: 0 <= m < lo || hi <= m < a.Length ==> a[m] == s[m]
      invariant forall m :: i <= m <= j ==> a[m] == s[m]
      invariant forall m :: lo <= m < i ==> a[m] == s[lo + hi - 1 - m] && a[lo + hi - 1 - m] == s[m]
    {
      a[i], a[j] := a[j], a[i];
      i, j := i + 1, j - 1;
    }
    ghost var want := s[..lo] + Reverse(s[lo..hi]) + s[hi..];
    forall m | 0 <= m < a.Length ensures a[m] == want[m] {
      if m < lo {
        assert want[m] == s[m];
      } else if m < hi {
        assert want[m] == Reverse(s[lo..hi])[m - lo] == s[lo + hi - 1 - m];
        if j < m {
          assert a[lo + hi - 1 - (lo + hi - 1 - m)] == s[lo + hi - 1 - m];
        }
      } else {
        assert want[m] == s[hi..][m - hi];
      }
    }
    assert a[..] == want;
  }

  /** The pivot search: the last `i` with `a[i] < a[i+1]`, or -1. */
  method FindPivot(a: array<int>) returns (i: int)
    ensures i == Pivot(a[..])
  {
    if a.Length < 2 {
      return -1;
    }
    i := a.Length - 2;
    while i >= 0 && a[i] >= a[i + 1]
      invariant -1 <= i <= a.Length - 2
      invariant PivotBelow(a[..], i + 1) == Pivot(a[..])
      decreases i + 1
    {
      i := i - 1;
    }
  }

  /** The last element larger than the pivot; one exists right after it. */
  method FindLastAbove(a: array<int>, i: int) returns (j: int)
    requires 0 <= i < a.Length - 1 && a[i] < a[i + 1]
    ensures j == LastAbove(a[..], a[i], a.Length) && i < j
  {
    j := a.Length - 1;
    while a[j] <= a[i]
      invariant i < j < a.Length
      invariant LastAbove(a[..], a[i], j + 1) == LastAbove(a[..], a[i], a.Length)
      decreases j
    {
      j := j - 1;
    }
  }

  /** `std::next_permutation` on the whole vector. */
  method NextPermutation(a: array<int>) returns (more: bool)
    modifies a
    ensures Next(a[..], more) == NextPerm(old(a[..]))
  {
    ghost var s := a[..];
    var i := FindPivot(a);
    if i < 0 {
      ReverseRange(a, 0, a.Length);
      assert a[..] == Reverse(s) by { assert s[..0] == [] && s[a.Length..] == [] && s[0..a.Length] == s; }
      return false;
    }
    var j := FindLastAbove(a, i);
    ghost var t := s[i := s[j]][j := s[i]];
    assert NextPerm(s) == Next(t[..i + 1] + Reverse(t[i + 1..]), true);
    a[i], a[j] := a[j], a[i];
    assert a[..] == t;
    ReverseRange(a, i + 1, a.Length);
    assert t[i + 1..a.Length] == t[i + 1..] && t[a.Length..] == [];
    return true;
  }

  // ---------------------------------------------------------------------------
  // What the successor is
  // ---------------------------------------------------------------------------

  lemma {:induction false} ReverseMultiset(s: seq<int>)
    ensures multiset(Reverse(s)) == multiset(s)
  {
    if |s| > 0 {
      assert Reverse(s) == Reverse(s[1..]) + [s[0]];
      assert s == [s[0]] + s[1..];
      ReverseMultiset(s[1..]);
    }
  }

  lemma {:induction false} ReverseOrder(s: seq<int>)
    requires NonIncreasing(s)
    ensures NonDecreasing(Reverse(s))
  {
  }

  /** Adjacent pairs in order make the whole sequence ordered. */
  lemma {:induction false} AdjacentNonIncreasing(s: seq<int>, lo: int)
    requires 0 <= lo <= |s|
    requires forall m :: lo <= m && m + 1 < |s| ==> s[m + 1] <= s[m]
    ensures NonIncreasing(s[lo..])
    decreases |s| - lo
  {
    if lo < |s| {
      AdjacentNonIncreasing(s, lo + 1);
      var u := s[lo..];
      forall i, j | 0 <= i < j < |u| ensures u[j] <= u[i] {
        if i == 0 && j > 1 {
          assert u[j] == s[lo + 1..][j - 1] && u[1] == s[lo + 1..][0];
        } else if i > 0 {
          assert u[j] == s[lo + 1..][j - 1] && u[i] == s[lo + 1..][i - 1];
        }
      }
    }
  }

  /** Equal multisets with equal prefixes have equal suffix multisets. */
  lemma {:induction false} SuffixMultiset(u: seq<int>, v: seq<int>, k: int)
    requires multiset(u) == multiset(v) && 0 <= k <= |u| && k <= |v| && u[..k] == v[..k]
    ensures multiset(u[k..]) == multiset(v[k..])
  {
    assert u == u[..k] + u[k..] && v == v[..k] + v[k..];
    assert multiset(u) == multiset(u[..k]) + multiset(u[k..]);
    assert multiset(v) == multiset(v[..k]) + multiset(v[k..]);
    forall x ensures multiset(u[k..])[x] == multiset(v[k..])[x] {
      assert multiset(u)[x] == multiset(u[..k])[x] + multiset(u[k..])[x];
      assert multiset(v)[x] == multiset(v[..k])[x] + multiset(v[k..])[x];
    }
  }

  /** An element of a suffix's multiset sits somewhere in that suffix. */
  lemma {:induction false} InSuffix(s: seq<int>, k: int, x: int)
    requires 0 <= k <= |s| && x in multiset(s[k..])
    ensures exists m :: k <= m < |s| && s[m] == x
  {
    assert x in s[k..];
    var m' :| 0 <= m' < |s[k..]| && s[k..][m'] == x;
    assert s[k + m'] == x;
  }

  /** A non-increasing arrangement precedes none of its rearrangements. */
  lemma {:induction false} LargestArrangement(u: seq<int>, t: seq<int>)
    requires NonIncreasing(u) && multiset(t) == multiset(u)
    ensures !LexLess(u, t)
  {
    if LexLess(u, t) {
      var k :| 0 <= k < |u| && k < |t| && u[..k] == t[..k] && u[k] < t[k];
      SuffixMultiset(t, u, k);
      assert t[k] in multiset(t[k..]) by { assert t[k] == t[k..][0]; }
      InSuffix(u, k, t[k]);
      assert false;
    }
  }

  /** A non-decreasing arrangement is at most each of its rearrangements. */
  lemma {:induction false} SmallestArrangement(u: seq<int>, t: seq<int>)
    requires NonDecreasing(u) && multiset(t) == multiset(u)
    ensures LexAtMost(u, t)
  {
    if LexLess(t, u) {
      var k :| 0 <= k < |t| && k < |u| && t[..k] == u[..k] && t[k] < u[k];
      SuffixMultiset(t, u, k);
      assert t[k] in multiset(t[k..]) by { assert t[k] == t[k..][0]; }
      InSuffix(u, k, t[k]);
      assert false;
    }
    assert |t| == |u| by { assert |multiset(t)| == |multiset(u)|; }
    LexTrichotomy(u, t);
  }

  /** Equal prefixes followed by ordered suffixes give ordered sequences. */
  lemma {:induction false} LexAfterPrefix(u: seq<int>, t: seq<int>, k: int)
    requires 0 <= k <= |u| && k <= |t| && u[..k] == t[..k] && LexLess(u[k..], t[k..])
    ensures LexLess(u, t)
  {
    var m :| 0 <= m < |u[k..]| && m < |t[k..]| && u[k..][..m] == t[k..][..m] && u[k..][m] < t[k..][m];
    assert u[..k + m] == u[..k] + u[k..][..m];
    assert t[..k + m] == t[..k] + t[k..][..m];
    assert u[k + m] == u[k..][m] && t[k + m] == t[k..][m];
  }

  /** The successor is a rearrangement of the same length. */
  lemma {:induction false} NextPermPermutes(s: seq<int>)
    ensures |NextPerm(s).perm| == |s|
    ensures multiset(NextPerm(s).perm) == multiset(s)
  {
    var i := Pivot(s);
    if i < 0 {
      ReverseMultiset(s);
    } else {
      var j := LastAbove(s, s[i], |s|);
      var t := s[i := s[j]][j := s[i]];
      assert multiset(t) == multiset(s);
      ReverseMultiset(t[i + 1..]);
      assert t == t[..i + 1] + t[i + 1..];
    }
  }

  /** `next_permutation` returns true exactly when the input is not the
      largest (non-increasing) arrangement; then the result is strictly larger;
      otherwise the input is the largest and the result the smallest. */
  lemma {:induction false} NextPermOrder(s: seq<int>)
    ensures NextPerm(s).more <==> !NonIncreasing(s)
    ensures NextPerm(s).more ==> LexLess(s, NextPerm(s).perm)
    ensures !NextPerm(s).more ==> NonIncreasing(s) && NonDecreasing(NextPerm(s).perm)
  {
    var i := Pivot(s);
    if i < 0 {
      AdjacentNonIncreasing(s, 0);
      assert s[0..] == s;
      ReverseOrder(s);
    } else {
      var j := LastAbove(s, s[i], |s|);
      var t := s[i := s[j]][j := s[i]];
      var r := NextPerm(s).perm;
      assert r[..i] == s[..i] && r[i] == s[j];
    }
  }

  /** The second half of the successor is in ascending order. */
  lemma {:induction false} NextPermTailAscending(s: seq<int>)
    requires Pivot(s) >= 0
    ensures var i := Pivot(s); NonDecreasing(NextPerm(s).perm[i + 1..])
  {
    var i := Pivot(s);
    var j := LastAbove(s, s[i], |s|);
    var t := s[i := s[j]][j := s[i]];
    AdjacentNonIncreasing(s, i + 1);
    var w := t[i + 1..];
    forall a, b | 0 <= a < b < |w| ensures w[b] <= w[a] {
      assert s[i + 1..][a] == s[i + 1 + a] && s[i + 1..][b] == s[i + 1 + b];
      if i + 1 + b == j {
        assert s[i + 1..][b] == s[j];
      } else if i + 1 + a == j {
        assert j < i + 1 + b;
      }
    }
    ReverseOrder(w);
    assert NextPerm(s).perm[i + 1..] == Reverse(w);
  }

  /** The successor keeps `s[..i]` and puts `s[j]` at the pivot. */
  lemma {:induction false} NextPermShape(s: seq<int>)
    requires Pivot(s) >= 0
    ensures var i := Pivot(s); var j := LastAbove(s, s[i], |s|); var r := NextPerm(s).perm;
      i < j && |r| == |s| && r[..i] == s[..i] && r[i] == s[j]
  {
  }

  /** The elements after the pivot are in descending order. */
  lemma {:induction false} AfterPivotDescending(s: seq<int>, k: int)
    requires Pivot(s) < k <= |s|
    ensures NonIncreasing(s[k..])
  {
    var i := Pivot(s);
    AdjacentNonIncreasing(s, i + 1);
    forall a, b | 0 <= a < b < |s[k..]| ensures s[k..][b] <= s[k..][a] {
      assert s[k..][b] == s[i + 1..][k - i - 1 + b] && s[k..][a] == s[i + 1..][k - i - 1 + a];
    }
  }

  /** No rearrangement first exceeds `s` after the pivot. */
  lemma {:induction false} NoLargerAfterPivot(s: seq<int>, u: seq<int>, k: int)
    requires multiset(u) == multiset(s) && Pivot(s) < k < |s| && k < |u|
    ensures !(s[..k] == u[..k] && s[k] < u[k])
  {
    if s[..k] == u[..k] && s[k] < u[k] {
      AfterPivotDescending(s, k);
      SuffixMultiset(u, s, k);
      assert LexLess(s[k..], u[k..]) by {
        assert s[k..][..0] == u[k..][..0];
        assert s[k..][0] == s[k] && u[k..][0] == u[k];
      }
      LargestArrangement(s[k..], u[k..]);
      assert false;
    }
  }

  /** A rearrangement first exceeding `s` at the pivot holds there at least
      the successor's element. */
  lemma {:induction false} AtPivotAtLeast(s: seq<int>, u: seq<int>)
    requires multiset(u) == multiset(s) && 0 <= Pivot(s) < |u|
    requires s[..Pivot(s)] == u[..Pivot(s)] && s[Pivot(s)] < u[Pivot(s)]
    ensures NextPerm(s).perm[Pivot(s)] <= u[Pivot(s)]
  {
    var i := Pivot(s);
    var j := LastAbove(s, s[i], |s|);
    NextPermShape(s);
    SuffixMultiset(u, s, i);
    assert u[i] in multiset(u[i..]) by { assert u[i] == u[i..][0]; }
    InSuffix(s, i, u[i]);
    var m :| i <= m < |s| && s[m] == u[i];
    assert m <= j;
    if m < j {
      AfterPivotDescending(s, i + 1);
      assert s[i + 1..][j - i - 1] <= s[i + 1..][m - i - 1];
    }
  }

  /** Immediate successor: no rearrangement lies strictly between `s` and its
      successor. */
  lemma {:induction false} NextPermImmediate(s: seq<int>, u: seq<int>)
    requires multiset(u) == multiset(s) && LexLess(s, u)
    ensures NextPerm(s).more && LexAtMost(NextPerm(s).perm, u)
  {
    NextPermOrder(s);
    if !NextPerm(s).more {
      LargestArrangement(s, u);
      assert false;
    }
    var i := Pivot(s);
    var k :| 0 <= k < |s| && k < |u| && s[..k] == u[..k] && s[k] < u[k];
    if k < i {
      DiffersBeforePivot(s, u, k);
    } else if k > i {
      NoLargerAfterPivot(s, u, k);
      assert false;
    } else {
      DiffersAtPivot(s, u);
    }
  }

  /** A rearrangement above `s` that first differs from it before the pivot is
      above the successor too, which keeps that prefix. */
  lemma DiffersBeforePivot(s: seq<int>, u: seq<int>, k: int)
    requires 0 <= k < Pivot(s) && k < |u| && s[..k] == u[..k] && s[k] < u[k]
    ensures LexLess(NextPerm(s).perm, u)
  {
    NextPermShape(s);
    var i := Pivot(s);
    var r := NextPerm(s).perm;
    assert r[..k] == u[..k] by { assert r[..k] == r[..i][..k]; assert s[..k] == s[..i][..k]; }
    assert r[k] == r[..i][k] && s[k] == s[..i][k];
  }

  /** A rearrangement above `s` that first differs from it at the pivot is at
      least the successor. */
  lemma DiffersAtPivot(s: seq<int>, u: seq<int>)
    requires multiset(u) == multiset(s) && 0 <= Pivot(s) < |s| && Pivot(s) < |u|
    requires s[..Pivot(s)] == u[..Pivot(s)] && s[Pivot(s)] < u[Pivot(s)]
    ensures LexAtMost(NextPerm(s).perm, u)
  {
    var i := Pivot(s);
    var r := NextPerm(s).perm;
    NextPermShape(s);
    AtPivotAtLeast(s, u);
    assert |u| == |s| by { assert |multiset(u)| == |multiset(s)|; }
    if r[i] < u[i] {
      assert r[..i] == u[..i];
      assert LexLess(r, u);
    } else {
      TailAfterPivot(s, u);
    }
  }

  /** When a rearrangement agrees with the successor up to and including the
      pivot, the successor's ascending tail is at most the rest. */
  lemma {:induction false} TailAfterPivot(s: seq<int>, u: seq<int>)
    requires multiset(u) == multiset(s) && 0 <= Pivot(s) < |u|
    requires |u| == |s| && NextPerm(s).perm[..Pivot(s)] == u[..Pivot(s)]
    requires NextPerm(s).perm[Pivot(s)] == u[Pivot(s)]
    ensures LexAtMost(NextPerm(s).perm, u)
  {
    NextPermPermutes(s);
    NextPermTailAscending(s);
    AscendingTailSmallest(NextPerm(s).perm, u, Pivot(s));
  }

  /** Among the rearrangements agreeing up to and including position `i`,
      the one whose rest is ascending is the smallest. */
  lemma AscendingTailSmallest(r: seq<int>, u: seq<int>, i: int)
    requires |r| == |u| && multiset(r) == multiset(u) && 0 <= i < |u|
    requires r[..i] == u[..i] && r[i] == u[i] && NonDecreasing(r[i + 1..])
    ensures LexAtMost(r, u)
  {
    assert r[..i + 1] == u[..i + 1] by {
      assert r[..i + 1] == r[..i] + [r[i]] && u[..i + 1] == u[..i] + [u[i]];
    }
    SuffixMultiset(u, r, i + 1);
    SmallestArrangement(r[i + 1..], u[i + 1..]);
    if r[i + 1..] == u[i + 1..] {
      assert r == r[..i + 1] + r[i + 1..] && u == u[..i + 1] + u[i + 1..];
    } else {
      LexAfterPrefix(r, u, i + 1);
    }
  }


  // ---------------------------------------------------------------------------
  // The orbit of the do-while loop
  // ---------------------------------------------------------------------------

  function MinOf(s: seq<int>): (r: int)
    requires |s| > 0
    ensures r in s && forall x :: x in s ==> r <= x
  {
    if |s| == 1 then s[0]
    else
      var m := MinOf(s[1..]);
      assert forall x :: x in s ==> x == s[0] || x in s[1..];
      if s[0] <= m then s[0] else m
  }

  function MaxOf(s: seq<int>): (r: int)
    requires |s| > 0
    ensures r in s && forall x :: x in s ==> x <= r
  {
    if |s| == 1 then s[0]
    else
      var m := MaxOf(s[1..]);
      assert forall x :: x in s ==> x == s[0] || x in s[1..];
      if m <= s[0] then s[0] else m
  }

  function Pow(b: nat, e: nat): (r: nat)
    ensures b >= 1 ==> r >= 1
  {
    if e == 0 then 1 else b * Pow(b, e - 1)
  }

  /** `s` read as a numeral in base `b` with digits `s[i] - lo`. */
  function Rank(s: seq<int>, lo: int, b: nat): int {
    if s == [] then 0 else (s[0] - lo) * Pow(b, |s| - 1) + Rank(s[1..], lo, b)
  }

  predicate Digits(s: seq<int>, lo: int, b: nat) {
    forall x :: x in s ==> lo <= x < lo + b
  }

  lemma {:induction false} RankBound(s: seq<int>, lo: int, b: nat)
    requires Digits(s, lo, b) && b >= 1
    ensures 0 <= Rank(s, lo, b) < Pow(b, |s|)
  {
    if s != [] {
      var p := Pow(b, |s| - 1);
      assert Digits(s[1..], lo, b) by { assert forall x :: x in s[1..] ==> x in s; }
      RankBound(s[1..], lo, b);
      assert s[0] in s;
      assert 0 <= (s[0] - lo) * p <= (b - 1) * p by {
        assert 0 <= s[0] - lo <= b - 1;
        MulMonotone(s[0] - lo, b - 1, p);
      }
      assert Pow(b, |s|) == (b - 1) * p + p;
    }
  }

  lemma MulMonotone(x: int, y: int, p: nat)
    requires 0 <= x <= y
    ensures 0 <= x * p <= y * p
  {
  }

  /** A smaller leading digit wins whatever follows. */
  lemma DigitStep(x: int, y: int, p: nat, ra: int, rc: int)
    requires 0 <= x < y && 0 <= ra < p && 0 <= rc
    ensures x * p + ra < y * p + rc
  {
    MulMonotone(x + 1, y, p);
    assert (x + 1) * p == x * p + p;
  }

  /** Lexicographic order is numeric order on numerals of one length. */
  lemma {:induction false} RankOrder(a: seq<int>, c: seq<int>, lo: int, b: nat)
    requires |a| == |c| && Digits(a, lo, b) && Digits(c, lo, b) && b >= 1 && LexLess(a, c)
    ensures Rank(a, lo, b) < Rank(c, lo, b)
  {
    var k :| 0 <= k < |a| && k < |c| && a[..k] == c[..k] && a[k] < c[k];
    assert Digits(a[1..], lo, b) by { assert forall x :: x in a[1..] ==> x in a; }
    assert Digits(c[1..], lo, b) by { assert forall x :: x in c[1..] ==> x in c; }
    var p := Pow(b, |a| - 1);
    assert Rank(a, lo, b) == (a[0] - lo) * p + Rank(a[1..], lo, b);
    assert Rank(c, lo, b) == (c[0] - lo) * p + Rank(c[1..], lo, b);
    if k == 0 {
      RankBound(a[1..], lo, b);
      RankBound(c[1..], lo, b);
      assert a[0] in a;
      DigitStep(a[0] - lo, c[0] - lo, p, Rank(a[1..], lo, b), Rank(c[1..], lo, b));
    } else {
      assert a[0] == a[..k][0] && c[0] == c[..k][0];
      assert LexLess(a[1..], c[1..]) by {
        assert a[1..][..k - 1] == a[..k][1..] && c[1..][..k - 1] == c[..k][1..];
        assert a[1..][k - 1] == a[k] && c[1..][k - 1] == c[k];
      }
      RankOrder(a[1..], c[1..], lo, b);
    }
  }

  /** How far `s` is from the largest numeral of its length; the loop's
      termination measure. */
  function Distance(s: seq<int>): int {
    if s == [] then 0
    else Pow(MaxOf(s) - MinOf(s) + 1, |s|) - Rank(s, MinOf(s), MaxOf(s) - MinOf(s) + 1)
  }

  lemma {:induction false} SameElements(s: seq<int>, t: seq<int>)
    requires multiset(s) == multiset(t) && |s| > 0
    ensures |t| == |s| && MinOf(t) == MinOf(s) && MaxOf(t) == MaxOf(s)
  {
    assert |multiset(s)| == |multiset(t)|;
    assert forall x :: x in s <==> x in multiset(s);
    assert forall x :: x in t <==> x in multiset(t);
    var lo, hi := MinOf(s), MaxOf(s);
    assert MinOf(t) in s && lo in t && MaxOf(t) in s && hi in t;
  }

  /** A rearrangement has the same digits as the original, in the base the
      original defines. */
  lemma {:induction false} RearrangedDigits(s: seq<int>, t: seq<int>)
    requires multiset(s) == multiset(t) && |s| > 0
    ensures |t| == |s| && MinOf(t) == MinOf(s) && MaxOf(t) == MaxOf(s)
    ensures Digits(s, MinOf(s), MaxOf(s) - MinOf(s) + 1)
    ensures Digits(t, MinOf(s), MaxOf(s) - MinOf(s) + 1)
  {
    SameElements(s, t);
    var lo, b := MinOf(s), MaxOf(s) - MinOf(s) + 1;
    forall x | x in t ensures lo <= x < lo + b {
      assert x in multiset(t);
      assert x in s;
    }
  }

  /** A lexicographically larger rearrangement is strictly closer to the end. */
  lemma {:induction false} LargerIsCloser(s: seq<int>, t: seq<int>)
    requires multiset(s) == multiset(t) && |s| > 0 && LexLess(s, t)
    ensures 0 <= Distance(t) < Distance(s)
  {
    RearrangedDigits(s, t);
    var lo, b := MinOf(s), MaxOf(s) - MinOf(s) + 1;
    RankOrder(s, t, lo, b);
    RankBound(t, lo, b);
  }

  /** The successor is strictly closer to the end. */
  lemma {:induction false} NextPermCloser(s: seq<int>)
    requires NextPerm(s).more
    ensures 0 <= Distance(NextPerm(s).perm) < Distance(s)
  {
    NextPermPermutes(s);
    NextPermOrder(s);
    LargerIsCloser(s, NextPerm(s).perm);
  }

  /** The arrangements the do-while visits starting from `s`, in order. */
  function Orbit(s: seq<int>): seq<seq<int>>
    decreases if s == [] then 0 else Distance(s), 1
  {
    [s] + OrbitAfter(s)
  }

  /** The arrangements visited after `s`: none once `s` is the largest. */
  function OrbitAfter(s: seq<int>): seq<seq<int>>
    decreases if s == [] then 0 else Distance(s), 0
  {
    var n := NextPerm(s);
    if n.more then
      NextPermCloser(s);
      Orbit(n.perm)
    else []
  }

  /** The orbit starts at `s` and ends at the largest arrangement. */
  lemma {:induction false} OrbitEnds(s: seq<int>)
    ensures var o := Orbit(s); |o| > 0 && o[0] == s && NonIncreasing(o[|o| - 1])
    decreases |Orbit(s)|
  {
    var n := NextPerm(s);
    NextPermOrder(s);
    if n.more {
      assert Orbit(s) == [s] + Orbit(n.perm);
      OrbitEnds(n.perm);
    }
  }

  /** Every arrangement on the orbit is a rearrangement of `s`. */
  lemma {:induction false} OrbitPermutes(s: seq<int>)
    ensures var o := Orbit(s); forall k :: 0 <= k < |o| ==> multiset(o[k]) == multiset(s)
    decreases |Orbit(s)|
  {
    var n := NextPerm(s);
    if n.more {
      var q := n.perm;
      var rest := Orbit(q);
      assert Orbit(s) == [s] + rest;
      OrbitPermutes(q);
      assert var o := Orbit(q); forall k :: 0 <= k < |o| ==> multiset(o[k]) == multiset(q);
      NextPermPermutes(s);
      var o := Orbit(s);
      forall k | 0 <= k < |o| ensures multiset(o[k]) == multiset(s) {
        if k > 0 { assert o[k] == rest[k - 1]; }
      }
    }
  }

  predicate Increasing(o: seq<seq<int>>) {
    forall i, j :: 0 <= i < j < |o| ==> LexLess(o[i], o[j])
  }

  lemma {:induction false} IncreasingCons(s: seq<int>, rest: seq<seq<int>>)
    requires Increasing(rest) && |rest| > 0 && LexLess(s, rest[0])
    ensures Increasing([s] + rest)
  {
    var o := [s] + rest;
    forall i, j | 0 <= i < j < |o| ensures LexLess(o[i], o[j]) {
      assert o[j] == rest[j - 1];
      if i == 0 {
        if j > 1 { LexTransitive(s, rest[0], rest[j - 1]); }
      } else {
        assert o[i] == rest[i - 1];
      }
    }
  }

  /** The orbit is strictly increasing, so no arrangement is visited twice. */
  lemma {:induction false} OrbitIncreasing(s: seq<int>)
    ensures Increasing(Orbit(s))
    decreases |Orbit(s)|
  {
    var n := NextPerm(s);
    if n.more {
      var q := n.perm;
      assert Orbit(s) == [s] + Orbit(q);
      OrbitIncreasing(q);
      OrbitEnds(q);
      NextPermOrder(s);
      IncreasingCons(s, Orbit(q));
    }
  }

  /** Completeness: every rearrangement at or after `s` is visited. */
  lemma {:induction false} OrbitComplete(s: seq<int>, u: seq<int>)
    requires multiset(u) == multiset(s) && LexAtMost(s, u)
    ensures u in Orbit(s)
    decreases |Orbit(s)|
  {
    if u != s {
      NextPermImmediate(s, u);
      var n := NextPerm(s);
      NextPermPermutes(s);
      assert Orbit(s) == [s] + Orbit(n.perm);
      OrbitComplete(n.perm, u);
    }
  }
}
