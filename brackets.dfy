/** `catalan_combinations`: every balanced sequence of `n` opens and `n`
    closes, generated by backtracking (open before close), then relabelled so
    that the j-th open becomes `j` and the j-th close becomes `-j`. */
module Brackets {
  import opened Sequences

  // ---------------------------------------------------------------------------
  // Balanced words (open = 0, close = 1, the generator's encoding)
  // ---------------------------------------------------------------------------

  /** The number of opens (zeros) among the first `k` letters. */
  function Opens(w: seq<int>, k: int): (r: int)
    requires 0 <= k <= |w|
    ensures 0 <= r <= k
  {
    if k == 0 then 0 else Opens(w, k - 1) + (if w[k - 1] == 0 then 1 else 0)
  }

  /** No prefix has more closes than opens. */
  predicate PrefixBalanced(w: seq<int>) {
    forall k :: 0 <= k <= |w| ==> k <= 2 * Opens(w, k)
  }

  predicate Binary(w: seq<int>) {
    forall k :: 0 <= k < |w| ==> w[k] == 0 || w[k] == 1
  }

  /** A Dyck word of semilength `n`. */
  predicate IsDyck(w: seq<int>, n: int) {
    |w| == 2 * n && Binary(w) && Opens(w, |w|) == n && PrefixBalanced(w)
  }

  /** A partial word the backtracking can stand at. */
  predicate Reachable(n: nat, s: seq<int>, open: nat, close: nat) {
    |s| == open + close && close <= open <= n && Binary(s) && Opens(s, |s|) == open && PrefixBalanced(s)
  }

  lemma {:induction false} OpensPrefix(w1: seq<int>, w2: seq<int>, k: int)
    requires 0 <= k <= |w1| && k <= |w2| && w1[..k] == w2[..k]
    ensures Opens(w1, k) == Opens(w2, k)
  {
    if k > 0 {
      assert w1[k - 1] == w1[..k][k - 1] && w2[k - 1] == w2[..k][k - 1];
      assert w1[..k - 1] == w1[..k][..k - 1] && w2[..k - 1] == w2[..k][..k - 1];
      OpensPrefix(w1, w2, k - 1);
    }
  }

  lemma {:induction false} OpensMonotone(w: seq<int>, j: int, k: int)
    requires 0 <= j <= k <= |w|
    ensures Opens(w, j) <= Opens(w, k)
    decreases k - j
  {
    if j < k { OpensMonotone(w, j, k - 1); }
  }

  /** One more letter keeps the backtracking reachable. */
  lemma {:induction false} ExtendReachable(n: nat, s: seq<int>, open: nat, close: nat, x: int)
    requires Reachable(n, s, open, close)
    requires (x == 0 && open < n) || (x == 1 && close < open)
    ensures x == 0 ==> Reachable(n, s + [x], open + 1, close)
    ensures x == 1 ==> Reachable(n, s + [x], open, close + 1)
  {
    var t := s + [x];
    assert t[..|s|] == s;
    forall k | 0 <= k <= |s| ensures Opens(t, k) == Opens(s, k) {
      assert t[..k] == s[..k];
      OpensPrefix(t, s, k);
    }
  }

  // ---------------------------------------------------------------------------
  // The backtracking
  // ---------------------------------------------------------------------------

  /** What `backtrack(s, open, close)` appends to the result, in order: the
      open branch's words, then the close branch's. */
  function Completions(n: nat, s: seq<int>, open: nat, close: nat): seq<seq<int>>
    requires |s| == open + close && close <= open <= n
    decreases 2 * n - |s|, 1
  {
    if |s| == 2 * n then [s]
    else OpenBranch(n, s, open, close) + CloseBranch(n, s, open, close)
  }

  /** What the call after pushing an open appends (nothing at `n` opens). */
  function OpenBranch(n: nat, s: seq<int>, open: nat, close: nat): seq<seq<int>>
    requires |s| == open + close && close <= open <= n && |s| < 2 * n
    decreases 2 * n - |s|, 0
  {
    if open < n then Completions(n, s + [0], open + 1, close) else []
  }

  /** What the call after pushing a close appends (nothing when balanced). */
  function CloseBranch(n: nat, s: seq<int>, open: nat, close: nat): seq<seq<int>>
    requires |s| == open + close && close <= open <= n && |s| < 2 * n
    decreases 2 * n - |s|, 0
  {
    if close < open then Completions(n, s + [1], open, close + 1) else []
  }

  /** The shared state of the recursive lambda: the word under construction
      (pushed and popped) and the result list it appends to. */
  class Generator {
    const n: nat
    var stack: seq<int>
    var result: seq<seq<int>>

    constructor (n: nat)
      ensures this.n == n && stack == [] && result == []
    {
      this.n := n;
      stack := [];
      result := [];
    }

    method Backtrack(open: nat, close: nat)
      requires |stack| == open + close && close <= open <= n
      modifies this
      ensures stack == old(stack)
      ensures result == old(result) + Completions(n, old(stack), open, close)
      decreases 2 * n - |stack|
    {
      if |stack| == 2 * n {
        result := result + [stack];
        return;
      }
      ghost var s := stack;
      ghost var before := result;
      if open < n {
        stack := stack + [0];
        Backtrack(open + 1, close);
        stack := stack[..|stack| - 1];
        assert stack == s;
      }
      assert result == before + OpenBranch(n, s, open, close);
      ghost var middle := result;
      if close < open {
        stack := stack + [1];
        Backtrack(open, close + 1);
        stack := stack[..|stack| - 1];
        assert stack == s;
      }
      assert result == middle + CloseBranch(n, s, open, close);
      assert before + OpenBranch(n, s, open, close) + CloseBranch(n, s, open, close)
        == before + Completions(n, s, open, close);
    }
  }

  /** A generated word went through the open branch or the close branch. */
  lemma CompletionsCases(n: nat, s: seq<int>, open: nat, close: nat, w: seq<int>)
    requires |s| == open + close && close <= open <= n && |s| < 2 * n
    requires w in Completions(n, s, open, close)
    ensures (open < n && w in Completions(n, s + [0], open + 1, close))
         || (close < open && w in Completions(n, s + [1], open, close + 1))
  {
  }

  /** A word of a branch is generated from the node above it. */
  lemma CompletionsInclude(n: nat, s: seq<int>, open: nat, close: nat, x: int, w: seq<int>)
    requires |s| == open + close && close <= open <= n && |s| < 2 * n
    requires (x == 0 && open < n && w in Completions(n, s + [0], open + 1, close))
          || (x == 1 && close < open && w in Completions(n, s + [1], open, close + 1))
    ensures w in Completions(n, s, open, close)
  {
  }

  /** The words appended to the result extend `s` to semilength `n`. */
  lemma {:induction false} CompletionsExtend(n: nat, s: seq<int>, open: nat, close: nat, w: seq<int>)
    requires |s| == open + close && close <= open <= n
    requires w in Completions(n, s, open, close)
    ensures |w| == 2 * n && |s| <= |w| && w[..|s|] == s
    decreases 2 * n - |s|
  {
    if |s| < 2 * n {
      CompletionsCases(n, s, open, close, w);
      var x := if open < n && w in Completions(n, s + [0], open + 1, close) then 0 else 1;
      if x == 0 {
        CompletionsExtend(n, s + [0], open + 1, close, w);
      } else {
        CompletionsExtend(n, s + [1], open, close + 1, w);
      }
      PrefixOfExtension(s, x, w);
    }
  }

  /** A word extending `s + [x]` extends `s`. */
  lemma PrefixOfExtension(s: seq<int>, x: int, w: seq<int>)
    requires |s| + 1 <= |w| && w[..|s| + 1] == s + [x]
    ensures w[..|s|] == s
  {
    assert w[..|s|] == w[..|s| + 1][..|s|];
  }

  /** Soundness: everything generated is a Dyck word. */
  lemma {:induction false} CompletionsSound(n: nat, s: seq<int>, open: nat, close: nat, w: seq<int>)
    requires Reachable(n, s, open, close)
    requires w in Completions(n, s, open, close)
    ensures IsDyck(w, n)
    decreases 2 * n - |s|
  {
    if |s| == 2 * n {
      assert w == s;
    } else {
      CompletionsCases(n, s, open, close, w);
      if open < n && w in Completions(n, s + [0], open + 1, close) {
        ExtendReachable(n, s, open, close, 0);
        CompletionsSound(n, s + [0], open + 1, close, w);
      } else {
        ExtendReachable(n, s, open, close, 1);
        CompletionsSound(n, s + [1], open, close + 1, w);
      }
    }
  }

  /** The next letter of a Dyck word extending a reachable prefix is one the
      backtracking may push. */
  lemma {:induction false} NextLetterAllowed(n: nat, s: seq<int>, open: nat, close: nat, w: seq<int>)
    requires Reachable(n, s, open, close)
    requires IsDyck(w, n) && |s| < |w| && w[..|s|] == s
    ensures w[..|s| + 1] == s + [w[|s|]]
    ensures (w[|s|] == 0 && open < n) || (w[|s|] == 1 && close < open)
  {
    var x := w[|s|];
    assert w[..|s| + 1] == s + [x];
    assert s[..|s|] == s;
    OpensPrefix(w, s, |s|);
    assert Opens(w, |s| + 1) == open + (if x == 0 then 1 else 0);
    if x == 0 {
      OpensMonotone(w, |s| + 1, |w|);
    } else {
      assert |s| + 1 <= 2 * Opens(w, |s| + 1);
    }
  }

  /** Completeness: every Dyck word extending `s` is generated. */
  lemma {:induction false} CompletionsComplete(n: nat, s: seq<int>, open: nat, close: nat, w: seq<int>)
    requires Reachable(n, s, open, close)
    requires IsDyck(w, n) && |s| <= |w| && w[..|s|] == s
    ensures w in Completions(n, s, open, close)
    decreases 2 * n - |s|
  {
    if |s| == 2 * n {
      assert w == w[..|s|];
    } else {
      NextLetterAllowed(n, s, open, close, w);
      var x := w[|s|];
      ExtendReachable(n, s, open, close, x);
      if x == 0 {
        CompletionsComplete(n, s + [0], open + 1, close, w);
      } else {
        CompletionsComplete(n, s + [1], open, close + 1, w);
      }
      CompletionsInclude(n, s, open, close, x, w);
    }
  }

  /** A word through the open branch precedes a word through the close branch. */
  lemma BranchesOrdered(s: seq<int>, a: seq<int>, b: seq<int>)
    requires |s| + 1 <= |a| && |s| + 1 <= |b|
    requires a[..|s| + 1] == s + [0] && b[..|s| + 1] == s + [1]
    ensures LexLess(a, b)
  {
    var k := |s|;
    assert a[..k] == a[..k + 1][..k] && b[..k] == b[..k + 1][..k];
    assert a[k] == a[..k + 1][k] && b[k] == b[..k + 1][k];
  }

  /** Strictly increasing in lexicographic order. */
  predicate Increasing(r: seq<seq<int>>) {
    forall i, j :: 0 <= i < j < |r| ==> LexLess(r[i], r[j])
  }

  /** Two increasing lists, every word of the first before every word of the
      second, concatenate to an increasing list. */
  lemma IncreasingConcat(x: seq<seq<int>>, y: seq<seq<int>>)
    requires Increasing(x) && Increasing(y)
    requires forall a, b :: a in x && b in y ==> LexLess(a, b)
    ensures Increasing(x + y)
  {
    var r := x + y;
    forall i, j | 0 <= i < j < |r| ensures LexLess(r[i], r[j]) {
      if j < |x| {
        assert r[i] == x[i] && r[j] == x[j];
      } else if i < |x| {
        assert r[i] == x[i] && r[j] == y[j - |x|];
      } else {
        assert r[i] == y[i - |x|] && r[j] == y[j - |x|];
      }
    }
  }

  /** Every word of the open branch precedes every word of the close branch. */
  lemma CrossOrdered(n: nat, s: seq<int>, open: nat, close: nat, a: seq<int>, b: seq<int>)
    requires |s| == open + close && close <= open <= n && |s| < 2 * n
    requires a in OpenBranch(n, s, open, close) && b in CloseBranch(n, s, open, close)
    ensures LexLess(a, b)
  {
    CompletionsExtend(n, s + [0], open + 1, close, a);
    CompletionsExtend(n, s + [1], open, close + 1, b);
    BranchesOrdered(s, a, b);
  }

  /** Opens are tried first: the result is strictly increasing, hence has no repeats. */
  lemma {:induction false} CompletionsOrdered(n: nat, s: seq<int>, open: nat, close: nat)
    requires |s| == open + close && close <= open <= n
    ensures Increasing(Completions(n, s, open, close))
    decreases 2 * n - |s|
  {
    if |s| < 2 * n {
      var x, y := OpenBranch(n, s, open, close), CloseBranch(n, s, open, close);
      if open < n { CompletionsOrdered(n, s + [0], open + 1, close); }
      if close < open { CompletionsOrdered(n, s + [1], open, close + 1); }
      forall a, b | a in x && b in y ensures LexLess(a, b) {
        CrossOrdered(n, s, open, close, a, b);
      }
      IncreasingConcat(x, y);
    }
  }

  // ---------------------------------------------------------------------------
  // Counting: Catalan numbers
  // ---------------------------------------------------------------------------

  /** Binomial coefficient by Pascal's rule; 0 outside 0..m. */
  function Binomial(m: nat, k: int): nat
    decreases m
  {
    if k < 0 || k > m then 0
    else if k == 0 || k == m then 1
    else Binomial(m - 1, k - 1) + Binomial(m - 1, k)
  }

  /** The n-th Catalan number, C(2n, n) - C(2n, n+1). */
  function Catalan(n: nat): int {
    Binomial(2 * n, n) - Binomial(2 * n, n + 1)
  }

  lemma {:induction false} Pascal(m: nat, k: int)
    requires m >= 1
    ensures Binomial(m, k) == Binomial(m - 1, k - 1) + Binomial(m - 1, k)
  {
  }

  lemma {:induction false} BinomialSymmetric(m: nat, k: int)
    ensures Binomial(m, k) == Binomial(m, m - k)
    decreases m
  {
    if m >= 1 && 0 < k < m {
      BinomialSymmetric(m - 1, k - 1);
      BinomialSymmetric(m - 1, k);
      Pascal(m, m - k);
    }
  }

  /** Ways to finish with `r` opens and `t` closes still to place (reflection principle). */
  function Ballot(r: nat, t: nat): int {
    Binomial(r + t, r) - Binomial(r + t, r - 1)
  }

  lemma {:induction false} BallotStep(r: nat, t: nat)
    requires r <= t && 0 < r + t
    ensures Ballot(r, t) ==
      (if r > 0 then Ballot(r - 1, t) else 0) + (if t > r then Ballot(r, t - 1) else 0)
  {
    var m := r + t;
    Pascal(m, r);
    Pascal(m, r - 1);
    if r == t {
      BinomialSymmetric(m - 1, r);
    }
  }

  lemma {:induction false} CompletionsCount(n: nat, s: seq<int>, open: nat, close: nat)
    requires |s| == open + close && close <= open <= n
    ensures |Completions(n, s, open, close)| == Ballot(n - open, n - close)
    decreases 2 * n - |s|
  {
    if |s| < 2 * n {
      BallotStep(n - open, n - close);
      if open < n { CompletionsCount(n, s + [0], open + 1, close); }
      if close < open { CompletionsCount(n, s + [1], open, close + 1); }
    }
  }

  lemma {:induction false} CatalanIsBallot(n: nat)
    ensures Catalan(n) == Ballot(n, n)
  {
    BinomialSymmetric(2 * n, n + 1);
  }

  lemma BinomialRow4()
    ensures Binomial(4, 1) == 4 && Binomial(4, 2) == 6 && Binomial(4, 3) == 4
  {
    assert Binomial(2, 1) == 2;
    assert Binomial(3, 1) == 3 && Binomial(3, 2) == 3;
  }

  lemma BinomialRow6()
    ensures Binomial(6, 2) == 15 && Binomial(6, 3) == 20 && Binomial(6, 4) == 15
  {
    BinomialRow4();
    assert Binomial(5, 1) == 5 && Binomial(5, 2) == 10 && Binomial(5, 3) == 10 && Binomial(5, 4) == 5;
  }

  lemma BinomialRow8()
    ensures Binomial(8, 4) == 70 && Binomial(8, 5) == 56
  {
    BinomialRow6();
    assert Binomial(6, 5) == 6;
    assert Binomial(7, 3) == 35 && Binomial(7, 4) == 35 && Binomial(7, 5) == 21;
  }

  lemma CatalanSmallValues()
    ensures Catalan(1) == 1 && Catalan(2) == 2 && Catalan(3) == 5 && Catalan(4) == 14
  {
    BinomialRow4();
    BinomialRow6();
    BinomialRow8();
    assert Binomial(2, 1) == 2 && Binomial(2, 2) == 1;
    assert Binomial(6, 3) == 20 && Binomial(6, 4) == 15;
  }

  // ---------------------------------------------------------------------------
  // Relabelling
  // ---------------------------------------------------------------------------

  /** The j-th open becomes `j`, the j-th close becomes `-j`. */
  function Labelled(w: seq<int>): (r: seq<int>)
    ensures |r| == |w|
  {
    seq(|w|, k requires 0 <= k < |w| => if w[k] == 0 then Opens(w, k) + 1 else -(k - Opens(w, k) + 1))
  }

  /** The relabelling loop over one combination, in place. */
  method RelabelInPlace(a: array<int>)
    modifies a
    ensures a[..] == Labelled(old(a[..]))
  {
    ghost var w := a[..];
    var openCount, closedCount := 1, 1;
    var k := 0;
    while k < a.Length
      invariant 0 <= k <= a.Length
      invariant a[..k] == Labelled(w)[..k] && a[k..] == w[k..]
      invariant openCount == Opens(w, k) + 1 && closedCount == k - Opens(w, k) + 1
    {
      assert a[k] == w[k];
      if a[k] == 0 {
        a[k] := openCount;
        openCount := openCount + 1;
      } else {
        a[k] := -closedCount;
        closedCount := closedCount + 1;
      }
      k := k + 1;
      assert a[k..] == w[k..];
    }
    assert a[..] == a[..k];
  }

  /** `catalan_combinations(n)` */
  function Combinations(n: nat): (r: seq<seq<int>>) {
    var words := Completions(n, [], 0, 0);
    seq(|words|, k requires 0 <= k < |words| => Labelled(words[k]))
  }

  method CatalanCombinations(n: nat) returns (result: seq<seq<int>>)
    ensures result == Combinations(n)
  {
    var generator := new Generator(n);
    generator.Backtrack(0, 0);
    result := generator.result;
    ghost var words := result;
    assert words == Completions(n, [], 0, 0);
    var k := 0;
    while k < |result|
      invariant 0 <= k <= |result| == |words|
      invariant forall m :: 0 <= m < k ==> result[m] == Labelled(words[m])
      invariant forall m :: k <= m < |result| ==> result[m] == words[m]
    {
      var combination := new int[|result[k]|](i requires 0 <= i < |result[k]| => result[k][i]);
      assert combination[..] == result[k];
      RelabelInPlace(combination);
      result := result[k := combination[..]];
      k := k + 1;
    }
  }

  // ---------------------------------------------------------------------------
  // What the relabelled sequences look like
  // ---------------------------------------------------------------------------

  lemma {:induction false} LabelledCounts(w: seq<int>, k: int)
    requires 0 <= k <= |w|
    ensures Ups(Labelled(w)[..k]) == Iota(Opens(w, k))
    ensures Downs(Labelled(w)[..k]) == Iota(k - Opens(w, k))
  {
    if k > 0 {
      LabelledCounts(w, k - 1);
      LabelStep(w, k - 1);
    }
  }

  /** Slot `k` of the relabelled word extends the opens or the closes read so far by the next label. */
  lemma LabelStep(w: seq<int>, k: int)
    requires 0 <= k < |w|
    requires Ups(Labelled(w)[..k]) == Iota(Opens(w, k))
    requires Downs(Labelled(w)[..k]) == Iota(k - Opens(w, k))
    ensures Ups(Labelled(w)[..k + 1]) == Iota(Opens(w, k + 1))
    ensures Downs(Labelled(w)[..k + 1]) == Iota(k + 1 - Opens(w, k + 1))
  {
    var l := Labelled(w);
    UpsDownsStep(l, k);
    var o := Opens(w, k);
    if w[k] == 0 {
      assert l[k] == o + 1 && Opens(w, k + 1) == o + 1;
      assert Iota(o + 1) == Iota(o) + [o + 1];
      assert Downs(l[..k]) + [] == Downs(l[..k]);
    } else {
      assert l[k] == -(k - o + 1) && Opens(w, k + 1) == o;
      assert Iota(k - o + 1) == Iota(k - o) + [k - o + 1];
      assert Ups(l[..k]) + [] == Ups(l[..k]);
    }
  }

  /** Some open before position `k` was the `j`-th. */
  lemma {:induction false} OpenWitness(w: seq<int>, k: int, j: int)
    requires 0 <= k <= |w| && 1 <= j <= Opens(w, k)
    ensures exists a :: 0 <= a < k && w[a] == 0 && Opens(w, a) + 1 == j
  {
    if Opens(w, k - 1) >= j {
      OpenWitness(w, k - 1, j);
    } else {
      assert w[k - 1] == 0 && Opens(w, k - 1) + 1 == j;
    }
  }

  /** After relabelling a Dyck word: the opens read 1, 2, ..., n, the closes
      read -1, -2, ..., -n (so dropoffs come in pickup order), every label is in
      1..n, and `-j` comes after `+j`. */
  lemma {:induction false} LabelledDyck(w: seq<int>, n: nat)
    requires IsDyck(w, n)
    ensures var l := Labelled(w);
      && Ups(l) == Iota(n) && Downs(l) == Iota(n)
      && (forall k :: 0 <= k < |l| ==> 1 <= l[k] <= n || 1 <= -l[k] <= n)
      && (forall k :: 0 <= k < |l| ==> (l[k] > 0 <==> w[k] == 0))
      && (forall k :: 0 <= k < |l| && l[k] < 0 ==> exists a :: 0 <= a < k && l[a] == -l[k])
  {
    var l := Labelled(w);
    LabelledCounts(w, |w|);
    assert l[..|w|] == l;
    assert Ups(l) == Iota(Opens(w, |w|)) && Downs(l) == Iota(|w| - Opens(w, |w|));
    assert Opens(w, |w|) == n && |w| - Opens(w, |w|) == n;
    assert Downs(l) == Iota(n);
    forall k | 0 <= k < |l| ensures (1 <= l[k] <= n || 1 <= -l[k] <= n) && (l[k] > 0 <==> w[k] == 0) {
      LabelRange(w, n, k);
    }
    forall k | 0 <= k < |l| && l[k] < 0 ensures exists a :: 0 <= a < k && l[a] == -l[k] {
      LabelOpenedBefore(w, n, k);
    }
  }

  /** A label of a Dyck word of semilength `n` is in `1..n` or `-n..-1`, positive exactly on the opens. */
  lemma LabelRange(w: seq<int>, n: nat, k: int)
    requires IsDyck(w, n) && 0 <= k < |w|
    ensures var l := Labelled(w); (1 <= l[k] <= n || 1 <= -l[k] <= n) && (l[k] > 0 <==> w[k] == 0)
  {
    OpensMonotone(w, k, |w|);
    OpensMonotone(w, k + 1, |w|);
    if w[k] != 0 {
      assert k + 1 <= 2 * Opens(w, k + 1);
    }
  }

  /** The open labelled `j` comes before the close labelled `-j`. */
  lemma LabelOpenedBefore(w: seq<int>, n: nat, k: int)
    requires IsDyck(w, n) && 0 <= k < |w| && Labelled(w)[k] < 0
    ensures exists a :: 0 <= a < k && Labelled(w)[a] == -Labelled(w)[k]
  {
    var l := Labelled(w);
    assert w[k] != 0;
    assert k + 1 <= 2 * Opens(w, k + 1);
    OpenWitness(w, k, k - Opens(w, k) + 1);
    var a :| 0 <= a < k && w[a] == 0 && Opens(w, a) + 1 == k - Opens(w, k) + 1;
    assert l[a] == -l[k];
  }

  /** The combinations for `n` are exactly the relabelled Dyck words, there
      are Catalan(n) of them, and they come in increasing order. */
  lemma {:induction false} CombinationsCharacterized(n: nat)
    ensures |Combinations(n)| == Catalan(n)
    ensures var words := Completions(n, [], 0, 0);
      && (forall k :: 0 <= k < |words| ==> IsDyck(words[k], n))
      && (forall w :: IsDyck(w, n) ==> w in words)
      && (forall i, j :: 0 <= i < j < |words| ==> LexLess(words[i], words[j]))
  {
    var words := Completions(n, [], 0, 0);
    assert Reachable(n, [], 0, 0);
    CompletionsCount(n, [], 0, 0);
    CatalanIsBallot(n);
    CompletionsOrdered(n, [], 0, 0);
    forall k | 0 <= k < |words| ensures IsDyck(words[k], n) {
      CompletionsSound(n, [], 0, 0, words[k]);
    }
    forall w | IsDyck(w, n) ensures w in words {
      CompletionsComplete(n, [], 0, 0, w);
    }
  }

  /** Every combination for `n` has length `2n`, labels in `1..n` or
      `-n..-1`, reads `1, ..., n` on its opens and `-1, ..., -n` on its closes,
      and has `+j` before `-j`. */
  lemma {:induction false} CombinationsLabels(n: nat)
    ensures forall m :: 0 <= m < |Combinations(n)| ==>
      var l := Combinations(n)[m];
      && |l| == 2 * n
      && Ups(l) == Iota(n) && Downs(l) == Iota(n)
      && (forall k :: 0 <= k < |l| ==> 1 <= l[k] <= n || 1 <= -l[k] <= n)
      && (forall k :: 0 <= k < |l| && l[k] < 0 ==> exists a :: 0 <= a < k && l[a] == -l[k])
  {
    var words := Completions(n, [], 0, 0);
    forall m | 0 <= m < |Combinations(n)|
      ensures var l := Combinations(n)[m];
        && |l| == 2 * n
        && Ups(l) == Iota(n) && Downs(l) == Iota(n)
        && (forall k :: 0 <= k < |l| ==> 1 <= l[k] <= n || 1 <= -l[k] <= n)
        && (forall k :: 0 <= k < |l| && l[k] < 0 ==> exists a :: 0 <= a < k && l[a] == -l[k])
    {
      assert |Combinations(n)| == |words|;
      assert Reachable(n, [], 0, 0);
      CompletionsSound(n, [], 0, 0, words[m]);
      assert Combinations(n)[m] == Labelled(words[m]);
      LabelledDyck(words[m], n);
    }
  }
}
