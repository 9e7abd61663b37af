/** Re-sequencing one courier's stops (`stack_courier_deliveries`) and every
    courier in turn (`stack_all_courier_deliveries`).

    For a courier with two to four deliveries the search scores every bracket
    pattern for every arrangement of the route's pickups, from the route's own
    pickup order up to the largest arrangement, and keeps the last candidate
    whose score is no worse than the best so far. */
module Stacking {
  import opened Times
  import opened Parameters
  import opened Solutions
  import opened Replay
  import opened Sequences
  import opened Rerouting
  import Brackets
  import Permutations

  // ---------------------------------------------------------------------------
  // Filling a pattern
  // ---------------------------------------------------------------------------

  /** The slot pattern label `l` becomes for the arrangement `perm`: `j` picks
      up `perm[j - 1]`, `-j` drops it off. */
  function Fill(perm: seq<int>, l: int): int {
    if 1 <= l <= |perm| then perm[l - 1]
    else if 1 <= -l <= |perm| then -perm[-l - 1]
    else 0
  }

  function Fills(perm: seq<int>, ls: seq<int>): (r: seq<int>)
    ensures |r| == |ls|
  {
    seq(|ls|, i requires 0 <= i < |ls| => Fill(perm, ls[i]))
  }

  /** The incumbent route: the pattern filled into the first slots, the rest empty. */
  function Candidate(perm: seq<int>, comb: seq<int>, width: nat): (r: seq<int>)
    ensures |r| == width
  {
    seq(width, i requires 0 <= i < width => if i < |comb| then Fill(perm, comb[i]) else 0)
  }

  /** The candidates of one arrangement, one per pattern. */
  function Row(perm: seq<int>, combs: seq<seq<int>>, width: nat): (r: seq<seq<int>>)
    ensures |r| == |combs|
  {
    seq(|combs|, m requires 0 <= m < |combs| => Candidate(perm, combs[m], width))
  }

  /** The candidates in the order the search scores them: arrangement by
      arrangement, and for each arrangement pattern by pattern. */
  function Candidates(perms: seq<seq<int>>, combs: seq<seq<int>>, width: nat): seq<seq<int>> {
    if perms == [] then []
    else Candidates(perms[..|perms| - 1], combs, width) + Row(perms[|perms| - 1], combs, width)
  }

  predicate Positive(perm: seq<int>) {
    forall x :: x in perm ==> x > 0
  }

  /** Labels a pattern over `n` deliveries may carry. */
  predicate Labels(ls: seq<int>, n: int) {
    forall i :: 0 <= i < |ls| ==> 1 <= ls[i] <= n || 1 <= -ls[i] <= n
  }

  /** A label in range fills with a nonzero slot of its own sign; `-j`
      fills with the negation of what `j` fills with. */
  lemma {:induction false} FillSign(u: seq<int>, l: int)
    requires Positive(u) && (1 <= l <= |u| || 1 <= -l <= |u|)
    ensures Fill(u, l) != 0 && (Fill(u, l) > 0 <==> l > 0)
    ensures l < 0 ==> Fill(u, l) == -Fill(u, -l)
  {
    if l > 0 { assert u[l - 1] in u; } else { assert u[-l - 1] in u; }
  }

  lemma {:induction false} FillsAppend(u: seq<int>, a: seq<int>, b: seq<int>)
    ensures Fills(u, a + b) == Fills(u, a) + Fills(u, b)
  {
  }

  /** The pattern's opens become the arrangement's pickups, in the same order. */
  lemma {:induction false} FillsUps(u: seq<int>, ls: seq<int>)
    requires Positive(u) && Labels(ls, |u|)
    ensures Ups(Fills(u, ls)) == Fills(u, Ups(ls))
  {
    if ls != [] {
      var n := |ls| - 1;
      var x := ls[n];
      var f := Fills(u, ls);
      assert Labels(ls[..n], |u|);
      FillsUps(u, ls[..n]);
      assert f[..n] == Fills(u, ls[..n]);
      FillSign(u, x);
      var up := if x > 0 then [x] else [];
      assert Ups(ls) == Ups(ls[..n]) + up;
      FillsAppend(u, Ups(ls[..n]), up);
      assert Ups(f) == Ups(f[..n]) + (if f[n] > 0 then [f[n]] else []);
    }
  }

  /** The pattern's closes become the matching dropoffs, in the same order. */
  lemma {:induction false} FillsDowns(u: seq<int>, ls: seq<int>)
    requires Positive(u) && Labels(ls, |u|)
    ensures Downs(Fills(u, ls)) == Fills(u, Downs(ls))
  {
    if ls != [] {
      var n := |ls| - 1;
      var x := ls[n];
      var f := Fills(u, ls);
      assert Labels(ls[..n], |u|);
      FillsDowns(u, ls[..n]);
      assert f[..n] == Fills(u, ls[..n]);
      FillSign(u, x);
      var down := if x < 0 then [-x] else [];
      assert Downs(ls) == Downs(ls[..n]) + down;
      FillsAppend(u, Downs(ls[..n]), down);
      assert Downs(f) == Downs(f[..n]) + (if f[n] < 0 then [-f[n]] else []);
    }
  }

  /** Filling `1, ..., k` reads off the arrangement's first `k` entries. */
  lemma {:induction false} FillsIota(u: seq<int>, k: int)
    requires 0 <= k <= |u|
    ensures Fills(u, Iota(k)) == u[..k]
  {
    if k > 0 {
      FillsIota(u, k - 1);
      assert Fills(u, Iota(k)) == Fills(u, Iota(k - 1)) + Fills(u, [k]);
      assert u[..k] == u[..k - 1] + [u[k - 1]];
    }
  }

  /** `r`'s first `2k` slots pick up and drop off exactly `v`'s first `k`
      ids, each in `v`'s order, with no empty slot and no delivery dropped off
      before it is picked up. */
  predicate Stacked(r: seq<int>, k: int, v: seq<int>) {
    && 0 <= k <= |v| && 2 * k <= |r|
    && (forall j :: 0 <= j < 2 * k ==> r[j] != 0)
    && Ups(r[..2 * k]) == v[..k] && Downs(r[..2 * k]) == v[..k]
    && (forall j :: 0 <= j < 2 * k && r[j] < 0 ==> exists a :: 0 <= a < j && r[a] == -r[j])
  }

  /** A pattern for `k` deliveries filled with an arrangement of at least `k`
      positive ids is stacked on the arrangement's first `k` ids. */
  lemma {:induction false} CandidateShape(u: seq<int>, comb: seq<int>, k: nat, width: nat)
    requires Positive(u) && k <= |u| && 2 * k <= width
    requires |comb| == 2 * k && Labels(comb, k) && Ups(comb) == Iota(k) && Downs(comb) == Iota(k)
    requires forall j :: 0 <= j < |comb| && comb[j] < 0 ==> exists a :: 0 <= a < j && comb[a] == -comb[j]
    ensures Stacked(Candidate(u, comb, width), k, u)
  {
    var r := Candidate(u, comb, width);
    assert r[..2 * k] == Fills(u, comb);
    assert Labels(comb, |u|);
    FillsUps(u, comb);
    FillsDowns(u, comb);
    FillsIota(u, k);
    forall j | 0 <= j < 2 * k ensures r[j] != 0 {
      FillSign(u, comb[j]);
    }
    forall j | 0 <= j < 2 * k && r[j] < 0 ensures exists a :: 0 <= a < j && r[a] == -r[j] {
      FillSign(u, comb[j]);
      var a :| 0 <= a < j && comb[a] == -comb[j];
      FillSign(u, comb[a]);
      assert r[a] == -r[j];
    }
  }

  lemma {:induction false} CandidatesLength(perms: seq<seq<int>>, combs: seq<seq<int>>, width: nat)
    ensures |Candidates(perms, combs, width)| == |perms| * |combs|
  {
    if perms != [] {
      var n := |perms| - 1;
      CandidatesLength(perms[..n], combs, width);
      assert (n + 1) * |combs| == n * |combs| + |combs|;
    }
  }

  lemma RowBound(i: int, m: int, k: int, n: int)
    requires 0 <= i < n && 0 <= m < k
    ensures 0 <= i * k + m < n * k
  {
    assert i * k + m < (i + 1) * k;
    assert (i + 1) * k <= n * k by {
      assert n * k - (i + 1) * k == (n - i - 1) * k;
    }
  }

  /** The search order: arrangement `i` with pattern `m` sits at position
      `i * |combs| + m`. */
  lemma {:induction false} CandidatesAt(perms: seq<seq<int>>, combs: seq<seq<int>>, width: nat, i: int, m: int)
    requires 0 <= i < |perms| && 0 <= m < |combs|
    ensures 0 <= i * |combs| + m < |Candidates(perms, combs, width)|
    ensures Candidates(perms, combs, width)[i * |combs| + m] == Candidate(perms[i], combs[m], width)
  {
    var n := |perms| - 1;
    var k := |combs|;
    var front := perms[..n];
    CandidatesLength(perms, combs, width);
    CandidatesLength(front, combs, width);
    RowBound(i, m, k, |perms|);
    if i < n {
      RowBound(i, m, k, n);
      CandidatesAt(front, combs, width, i, m);
      assert front[i] == perms[i];
    } else {
      assert i * k + m == n * k + m;
    }
  }

  /** Every candidate is an arrangement of `perms` paired with a pattern of `combs`. */
  lemma {:induction false} CandidatesFrom(perms: seq<seq<int>>, combs: seq<seq<int>>, width: nat, r: seq<int>)
    requires r in Candidates(perms, combs, width)
    ensures exists i, m :: 0 <= i < |perms| && 0 <= m < |combs| && r == Candidate(perms[i], combs[m], width)
  {
    var n := |perms| - 1;
    var front := perms[..n];
    if r in Candidates(front, combs, width) {
      CandidatesFrom(front, combs, width, r);
      var i, m :| 0 <= i < |front| && 0 <= m < |combs| && r == Candidate(front[i], combs[m], width);
      assert front[i] == perms[i];
    } else {
      var m :| 0 <= m < |combs| && Row(perms[n], combs, width)[m] == r;
    }
  }

  // ---------------------------------------------------------------------------
  // Keeping the best
  // ---------------------------------------------------------------------------

  /** A route with its score. */
  datatype Pick = Pick(route: seq<int>, cost: Time)

  predicate AllReplayable(p: Params, s: State, c: int, routes: seq<seq<int>>) {
    forall i :: 0 <= i < |routes| ==> Replayable(p, s, c, routes[i])
  }

  /** One comparison of the search: a candidate scoring no worse than the
      best so far replaces it. */
  function Keep(p: Params, s: State, c: int, best: Pick, route: seq<int>): Pick
    requires Replayable(p, s, c, route)
  {
    var cost := RerouteCost(p, s, c, route);
    if AtMost(cost, best.cost) then Pick(route, cost) else best
  }

  /** The comparisons over `routes` in order. */
  function KeepAll(p: Params, s: State, c: int, best: Pick, routes: seq<seq<int>>): Pick
    requires AllReplayable(p, s, c, routes)
  {
    if routes == [] then best
    else Keep(p, s, c, KeepAll(p, s, c, best, routes[..|routes| - 1]), routes[|routes| - 1])
  }

  /** The kept score is at most the starting score and at most every
      candidate's score. */
  lemma {:induction false} KeepAllBest(p: Params, s: State, c: int, best: Pick, routes: seq<seq<int>>)
    requires AllReplayable(p, s, c, routes)
    ensures var r := KeepAll(p, s, c, best, routes);
      && AtMost(r.cost, best.cost)
      && forall i :: 0 <= i < |routes| ==> AtMost(r.cost, RerouteCost(p, s, c, routes[i]))
  {
    if routes == [] {
      AtMostTotalOrder(best.cost, best.cost, best.cost);
    } else {
      var n := |routes| - 1;
      var front := routes[..n];
      var q := KeepAll(p, s, c, best, front);
      var cost := RerouteCost(p, s, c, routes[n]);
      var r := KeepAll(p, s, c, best, routes);
      KeepAllBest(p, s, c, best, front);
      AtMostTotalOrder(cost, q.cost, best.cost);
      AtMostTotalOrder(q.cost, cost, cost);
      forall i | 0 <= i < |routes| ensures AtMost(r.cost, RerouteCost(p, s, c, routes[i])) {
        if i < n {
          assert front[i] == routes[i];
          AtMostTotalOrder(cost, q.cost, RerouteCost(p, s, c, routes[i]));
        }
      }
    }
  }

  /** Ties go to the later candidate: either nothing scored at most the
      starting score and it is kept, or the kept pick is some candidate with
      its own score and every later candidate scored strictly worse. */
  lemma {:induction false} KeepAllLastWins(p: Params, s: State, c: int, best: Pick, routes: seq<seq<int>>)
    requires AllReplayable(p, s, c, routes)
    ensures var r := KeepAll(p, s, c, best, routes);
      || (r == best && forall i :: 0 <= i < |routes| ==> !AtMost(RerouteCost(p, s, c, routes[i]), best.cost))
      || (exists i :: 0 <= i < |routes| && r == Pick(routes[i], RerouteCost(p, s, c, routes[i]))
            && forall j :: i < j < |routes| ==> !AtMost(RerouteCost(p, s, c, routes[j]), r.cost))
  {
    if routes != [] {
      var n := |routes| - 1;
      var front := routes[..n];
      var q := KeepAll(p, s, c, best, front);
      var r := KeepAll(p, s, c, best, routes);
      KeepAllLastWins(p, s, c, best, front);
      if r != q {
        assert r == Pick(routes[n], RerouteCost(p, s, c, routes[n]));
      } else if AtMost(RerouteCost(p, s, c, routes[n]), q.cost) {
        assert r == Pick(routes[n], RerouteCost(p, s, c, routes[n]));
      } else if q == best && forall i :: 0 <= i < |front| ==> !AtMost(RerouteCost(p, s, c, front[i]), best.cost) {
        forall i | 0 <= i < |routes| ensures !AtMost(RerouteCost(p, s, c, routes[i]), best.cost) {
          if i < n { assert front[i] == routes[i]; }
        }
      } else {
        var i :| 0 <= i < |front| && q == Pick(front[i], RerouteCost(p, s, c, front[i]))
            && forall j :: i < j < |front| ==> !AtMost(RerouteCost(p, s, c, front[j]), q.cost);
        assert front[i] == routes[i];
        forall j | i < j < |routes| ensures !AtMost(RerouteCost(p, s, c, routes[j]), r.cost) {
          if j < n { assert front[j] == routes[j]; }
        }
      }
    }
  }

  /** The kept pick is the starting pick or one of the candidates with its score. */
  lemma {:induction false} KeepAllChoice(p: Params, s: State, c: int, best: Pick, routes: seq<seq<int>>)
    requires AllReplayable(p, s, c, routes)
    ensures var r := KeepAll(p, s, c, best, routes);
      r == best || exists i :: 0 <= i < |routes| && r == Pick(routes[i], RerouteCost(p, s, c, routes[i]))
  {
    KeepAllLastWins(p, s, c, best, routes);
  }

  /** Comparing over `a + b` is comparing over `a`, then over `b`. */
  lemma {:induction false} KeepAllAppend(p: Params, s: State, c: int, best: Pick, a: seq<seq<int>>, b: seq<seq<int>>)
    requires AllReplayable(p, s, c, a) && AllReplayable(p, s, c, b)
    ensures AllReplayable(p, s, c, a + b)
    ensures KeepAll(p, s, c, best, a + b) == KeepAll(p, s, c, KeepAll(p, s, c, best, a), b)
    decreases |b|
  {
    assert forall i :: 0 <= i < |a + b| ==> (a + b)[i] == if i < |a| then a[i] else b[i - |a|];
    if b == [] {
      assert a + b == a;
    } else {
      var n := |b| - 1;
      assert (a + b)[..|a + b| - 1] == a + b[..n];
      KeepAllAppend(p, s, c, best, a, b[..n]);
    }
  }

  // ---------------------------------------------------------------------------
  // The search over one courier
  // ---------------------------------------------------------------------------

  /** The pickups among courier `c`'s first `2 * count` slots, in route order:
      the arrangement the search starts from. */
  function StartOrder(p: Params, s: State, c: int): seq<int>
    requires Shaped(p, s) && 1 <= c <= p.courierCount
  {
    Ups(s.plan[c - 1][..2 * s.count[c - 1]])
  }

  predicate HasEmptySlot(row: seq<int>, m: int)
    requires 0 <= m <= |row|
  {
    exists j :: 0 <= j < m && row[j] == 0
  }

  /** The search runs: two to four deliveries and no empty slot among their stops. */
  predicate Searched(p: Params, s: State, c: int)
    requires Shaped(p, s) && 1 <= c <= p.courierCount
  {
    2 <= s.count[c - 1] <= 4 && !HasEmptySlot(s.plan[c - 1], 2 * s.count[c - 1])
  }

  /** What the search demands of its caller: when it runs, the courier's stops
      hold at least `count` pickups, so that every pattern label names an
      entry of the arrangement. */
  predicate CanStack(p: Params, s: State, c: int) {
    && Shaped(p, s) && 1 <= c <= p.courierCount
    && (Searched(p, s, c) ==> |StartOrder(p, s, c)| >= s.count[c - 1])
  }

  predicate Ids(p: Params, perm: seq<int>) {
    forall x :: x in perm ==> 1 <= x <= p.deliveryCount
  }

  lemma {:induction false} StartOrderIds(p: Params, s: State, c: int)
    requires Shaped(p, s) && 1 <= c <= p.courierCount
    ensures Ids(p, StartOrder(p, s, c))
  {
    var row := s.plan[c - 1][..2 * s.count[c - 1]];
    UpsDownsElements(row);
    forall x | x in StartOrder(p, s, c) ensures 1 <= x <= p.deliveryCount {
      var j :| 0 <= j < |row| && row[j] == x;
      assert row[j] == s.plan[c - 1][j];
    }
  }

  lemma {:induction false} IdsPermuted(p: Params, a: seq<int>, b: seq<int>)
    requires Ids(p, a) && multiset(a) == multiset(b)
    ensures Ids(p, b) && (Positive(a) ==> Positive(b))
  {
    forall x | x in b ensures x in a {
      assert x in multiset(b);
    }
  }

  predicate AllIds(p: Params, perms: seq<seq<int>>) {
    forall i :: 0 <= i < |perms| ==> Ids(p, perms[i])
  }

  /** Every route can be scored and, being full width with every slot in
      range, installed. */
  predicate AllFit(p: Params, s: State, c: int, routes: seq<seq<int>>) {
    forall i :: 0 <= i < |routes| ==>
      Replayable(p, s, c, routes[i]) && |routes[i]| == 2 * s.maxAssignable && RouteFits(p, routes[i], |routes[i]|)
  }

  /** A candidate of an arrangement of delivery ids is a full-width route whose
      slots are all `+d`, `-d` or empty, so it can be scored and installed. */
  lemma {:induction false} CandidateFits(p: Params, s: State, c: int, perm: seq<int>, comb: seq<int>)
    requires Shaped(p, s) && 1 <= c <= p.courierCount && Ids(p, perm)
    ensures Replayable(p, s, c, Candidate(perm, comb, 2 * s.maxAssignable))
    ensures RouteFits(p, Candidate(perm, comb, 2 * s.maxAssignable), 2 * s.maxAssignable)
  {
    var r := Candidate(perm, comb, 2 * s.maxAssignable);
    forall j | 0 <= j < |r| ensures IsSlot(p, r[j]) {
      if j < |comb| {
        var l := comb[j];
        if 1 <= l <= |perm| { assert perm[l - 1] in perm; }
        else if 1 <= -l <= |perm| { assert perm[-l - 1] in perm; }
      }
    }
  }

  lemma {:induction false} CandidatesFit(p: Params, s: State, c: int, perms: seq<seq<int>>, combs: seq<seq<int>>)
    requires Shaped(p, s) && 1 <= c <= p.courierCount
    requires AllIds(p, perms)
    ensures AllFit(p, s, c, Candidates(perms, combs, 2 * s.maxAssignable))
  {
    var routes := Candidates(perms, combs, 2 * s.maxAssignable);
    forall i | 0 <= i < |routes|
      ensures Replayable(p, s, c, routes[i]) && |routes[i]| == 2 * s.maxAssignable && RouteFits(p, routes[i], |routes[i]|)
    {
      assert routes[i] in routes;
      CandidatesFrom(perms, combs, 2 * s.maxAssignable, routes[i]);
      var a, m :| 0 <= a < |perms| && 0 <= m < |combs| && routes[i] == Candidate(perms[a], combs[m], 2 * s.maxAssignable);
      CandidateFits(p, s, c, perms[a], combs[m]);
    }
  }

  /** Every arrangement on the orbit of the start order consists of delivery ids. */
  lemma {:induction false} OrbitIds(p: Params, s: State, c: int)
    requires Shaped(p, s) && 1 <= c <= p.courierCount
    ensures AllIds(p, Permutations.Orbit(StartOrder(p, s, c)))
  {
    var start := StartOrder(p, s, c);
    var o := Permutations.Orbit(start);
    StartOrderIds(p, s, c);
    Permutations.OrbitPermutes(start);
    assert var o := Permutations.Orbit(start); forall k :: 0 <= k < |o| ==> multiset(o[k]) == multiset(start);
    forall i | 0 <= i < |o| ensures Ids(p, o[i]) {
      IdsPermuted(p, start, o[i]);
    }
  }

  /** The candidates the search scores for courier `c`. */
  function SearchSpace(p: Params, s: State, c: int): seq<seq<int>>
    requires Shaped(p, s) && 1 <= c <= p.courierCount
  {
    Candidates(Permutations.Orbit(StartOrder(p, s, c)), Brackets.Combinations(s.count[c - 1]), 2 * s.maxAssignable)
  }

  lemma {:induction false} SearchSpaceFits(p: Params, s: State, c: int)
    requires Shaped(p, s) && 1 <= c <= p.courierCount
    ensures AllFit(p, s, c, SearchSpace(p, s, c))
  {
    OrbitIds(p, s, c);
    CandidatesFit(p, s, c, Permutations.Orbit(StartOrder(p, s, c)), Brackets.Combinations(s.count[c - 1]));
  }

  /** The pick the search starts from: the current row with the courier's
      attributed time. */
  function Incumbent(p: Params, s: State, c: int): Pick
    requires Shaped(p, s) && 1 <= c <= p.courierCount
  {
    Pick(s.plan[c - 1], Finite(s.attributed[c - 1]))
  }

  /** The best route the search finds for courier `c`. */
  function Search(p: Params, s: State, c: int): Pick
    requires Shaped(p, s) && 1 <= c <= p.courierCount
  {
    SearchSpaceFits(p, s, c);
    KeepAll(p, s, c, Incumbent(p, s, c), SearchSpace(p, s, c))
  }

  /** The search's pick is the current row or a candidate, and either way it
      can be installed and keeps the solution well shaped. */
  lemma {:induction false} SearchFits(p: Params, s: State, c: int)
    requires Shaped(p, s) && 1 <= c <= p.courierCount
    ensures var b := Search(p, s, c);
      && Replayable(p, s, c, b.route)
      && |b.route| == 2 * s.maxAssignable && RouteFits(p, b.route, |b.route|)
      && (b == Incumbent(p, s, c) || b.route in SearchSpace(p, s, c))
  {
    var routes := SearchSpace(p, s, c);
    SearchSpaceFits(p, s, c);
    KeepAllChoice(p, s, c, Incumbent(p, s, c), routes);
    var b := Search(p, s, c);
    if b == Incumbent(p, s, c) {
      var row := s.plan[c - 1];
      forall j | 0 <= j < |row| ensures IsSlot(p, row[j]) {
        assert row[j] == s.plan[c - 1][j];
      }
    } else {
      var i :| 0 <= i < |routes| && b == Pick(routes[i], RerouteCost(p, s, c, routes[i]));
      assert Replayable(p, s, c, routes[i]) && |routes[i]| == 2 * s.maxAssignable && RouteFits(p, routes[i], |routes[i]|);
    }
  }

  /** The candidates are exactly the patterns filled with arrangements at or
      after the start order: each such pair is scored, and nothing else is. */
  lemma {:induction false} SearchSpaceExact(p: Params, s: State, c: int, u: seq<int>, comb: seq<int>)
    requires Shaped(p, s) && 1 <= c <= p.courierCount
    ensures var start := StartOrder(p, s, c);
      multiset(u) == multiset(start) && LexAtMost(start, u) && comb in Brackets.Combinations(s.count[c - 1])
      ==> Candidate(u, comb, 2 * s.maxAssignable) in SearchSpace(p, s, c)
    ensures forall r :: r in SearchSpace(p, s, c) ==>
      exists v, l :: && multiset(v) == multiset(StartOrder(p, s, c)) && LexAtMost(StartOrder(p, s, c), v)
                     && l in Brackets.Combinations(s.count[c - 1])
                     && r == Candidate(v, l, 2 * s.maxAssignable)
  {
    var start := StartOrder(p, s, c);
    var orbit := Permutations.Orbit(start);
    var combs := Brackets.Combinations(s.count[c - 1]);
    var width := 2 * s.maxAssignable;
    if multiset(u) == multiset(start) && LexAtMost(start, u) && comb in combs {
      Permutations.OrbitComplete(start, u);
      var i :| 0 <= i < |orbit| && orbit[i] == u;
      var m :| 0 <= m < |combs| && combs[m] == comb;
      CandidatesAt(orbit, combs, width, i, m);
      assert Candidates(orbit, combs, width)[i * |combs| + m] == Candidate(u, comb, width);
    }
    Permutations.OrbitPermutes(start);
    Permutations.OrbitIncreasing(start);
    Permutations.OrbitEnds(start);
    forall r | r in SearchSpace(p, s, c)
      ensures exists v, l :: && multiset(v) == multiset(start) && LexAtMost(start, v)
                             && l in combs && r == Candidate(v, l, width)
    {
      CandidatesFrom(orbit, combs, width, r);
      var i, m :| 0 <= i < |orbit| && 0 <= m < |combs| && r == Candidate(orbit[i], combs[m], width);
      if i > 0 { assert LexLess(orbit[0], orbit[i]); }
      assert combs[m] in combs;
    }
  }

  /** A pattern for courier `c` filled with an arrangement of its start
      order has the shape `CandidateShape` describes. */
  lemma {:induction false} ArrangementShape(p: Params, s: State, c: int, v: seq<int>, l: seq<int>)
    requires CanStack(p, s, c) && Searched(p, s, c)
    requires multiset(v) == multiset(StartOrder(p, s, c)) && l in Brackets.Combinations(s.count[c - 1])
    ensures Stacked(Candidate(v, l, 2 * s.maxAssignable), s.count[c - 1], v)
    ensures multiset(v[..s.count[c - 1]]) <= multiset(StartOrder(p, s, c))
  {
    var k := s.count[c - 1];
    ArrangementFacts(p, s, c, v);
    Brackets.CombinationsLabels(k);
    var m :| 0 <= m < |Brackets.Combinations(k)| && Brackets.Combinations(k)[m] == l;
    CandidateShape(v, l, k, 2 * s.maxAssignable);
  }

  /** An arrangement of the start order holds delivery ids, at least `count`
      of them, and its first `count` are among the start order's. */
  lemma {:induction false} ArrangementFacts(p: Params, s: State, c: int, v: seq<int>)
    requires CanStack(p, s, c) && Searched(p, s, c) && multiset(v) == multiset(StartOrder(p, s, c))
    ensures Positive(v) && s.count[c - 1] <= |v|
    ensures multiset(v[..s.count[c - 1]]) <= multiset(StartOrder(p, s, c))
  {
    var k := s.count[c - 1];
    var start := StartOrder(p, s, c);
    UpsDownsElements(s.plan[c - 1][..2 * k]);
    assert Positive(start);
    StartOrderIds(p, s, c);
    IdsPermuted(p, start, v);
    assert |v| == |start| by { assert |multiset(v)| == |multiset(start)|; }
    assert v == v[..k] + v[k..];
    assert multiset(v) == multiset(v[..k]) + multiset(v[k..]);
  }

  /** Every candidate the search can pick reorders the courier's own
      deliveries into a complete route: no empty slot among the first `2k`,
      each delivery picked up before it is dropped off, and the same deliveries
      picked up as dropped off. */
  lemma {:induction false} SearchSpaceShape(p: Params, s: State, c: int, r: seq<int>)
    requires CanStack(p, s, c) && Searched(p, s, c) && r in SearchSpace(p, s, c)
    ensures |r| == 2 * s.maxAssignable
    ensures var k := s.count[c - 1];
      && (forall j :: 0 <= j < 2 * k ==> r[j] != 0)
      && FirstEmpty(r, 2 * k) == 2 * k
      && (forall j :: 0 <= j < 2 * k && r[j] < 0 ==> exists a :: 0 <= a < j && r[a] == -r[j])
      && multiset(Ups(r[..2 * k])) == multiset(Downs(r[..2 * k]))
      && multiset(Ups(r[..2 * k])) <= multiset(StartOrder(p, s, c))
  {
    var k := s.count[c - 1];
    var start := StartOrder(p, s, c);
    SearchSpaceExact(p, s, c, [], []);
    var v, l :| && multiset(v) == multiset(start) && LexAtMost(start, v)
                && l in Brackets.Combinations(k) && r == Candidate(v, l, 2 * s.maxAssignable);
    ArrangementShape(p, s, c, v, l);
  }

  // ---------------------------------------------------------------------------
  // One courier
  // ---------------------------------------------------------------------------

  datatype Status = Done | MalformedRoute | TooManyDeliveries

  /** `stack_courier_deliveries`' effect: couriers with at most one delivery
      are left alone; an empty slot among the stops is an error, as is a count
      of five or more; otherwise the best route is installed. Errors leave the
      solution as it was. */
  function StackOutcome(p: Params, s: State, c: int): (Status, State)
    requires Shaped(p, s) && 1 <= c <= p.courierCount
  {
    var k := s.count[c - 1];
    if k <= 1 then (Done, s)
    else if HasEmptySlot(s.plan[c - 1], 2 * k) then (MalformedRoute, s)
    else if k >= 5 then (TooManyDeliveries, s)
    else
      SearchFits(p, s, c);
      (Done, Rerouted(p, s, c, Search(p, s, c).route))
  }

  /** The courier's attributed time matches a replay of its row. */
  predicate Consistent(p: Params, s: State, c: int)
    requires Shaped(p, s) && 1 <= c <= p.courierCount
  {
    s.attributed[c - 1] == DropoffSum(p, Start(p, c - 1), s.plan[c - 1], 2 * s.count[c - 1])
  }

  /** Only courier `c`'s row, attributed time and load and the total change,
      the solution stays well shaped, a courier whose attributed time matched
      its row still does, and errors change nothing. */
  lemma {:induction false} StackFrame(p: Params, s: State, c: int)
    requires Shaped(p, s) && 1 <= c <= p.courierCount
    ensures var r := StackOutcome(p, s, c).1;
      && Shaped(p, r)
      && r.count == s.count && r.assignedTo == s.assignedTo && r.feasible == s.feasible
      && r.maxAssignable == s.maxAssignable && r.maxDeliveryTime == s.maxDeliveryTime
      && (forall c' :: 0 <= c' < |s.plan| && c' != c - 1 ==>
            r.plan[c'] == s.plan[c'] && r.attributed[c'] == s.attributed[c'] && r.load[c'] == s.load[c'])
      && (Consistent(p, s, c) ==> Consistent(p, r, c))
      && (StackOutcome(p, s, c).0 != Done ==> r == s)
  {
    var k := s.count[c - 1];
    if k >= 2 && !HasEmptySlot(s.plan[c - 1], 2 * k) && k < 5 {
      SearchFits(p, s, c);
      ReroutedFrame(p, s, c, Search(p, s, c).route);
      ReroutedTotal(p, s, c, Search(p, s, c).route);
    }
  }

  /** The search never makes the courier worse: when its attributed time
      matched its row, the new attributed time is at most the old one and so is
      a finite total; a sentinel total stays the sentinel. */
  lemma {:induction false} StackNeverWorse(p: Params, s: State, c: int)
    requires CanStack(p, s, c) && Consistent(p, s, c)
    ensures var r := StackOutcome(p, s, c).1;
      && r.attributed[c - 1] <= s.attributed[c - 1]
      && (s.total.Finite? ==> r.total.Finite? && r.total.value <= s.total.value)
      && (!s.total.Finite? ==> r.total == s.total)
  {
    var k := s.count[c - 1];
    if k >= 2 && !HasEmptySlot(s.plan[c - 1], 2 * k) && k < 5 {
      SearchAttributed(p, s, c);
      var b := Search(p, s, c);
      SearchFits(p, s, c);
      ReroutedTotal(p, s, c, b.route);
    }
  }

  /** The attributed time the search installs is the kept score, which is at
      most the courier's current attributed time. */
  lemma {:induction false} SearchAttributed(p: Params, s: State, c: int)
    requires CanStack(p, s, c) && Searched(p, s, c) && Consistent(p, s, c)
    ensures Replayable(p, s, c, Search(p, s, c).route)
    ensures var b := Search(p, s, c);
      && b.cost == Finite(DropoffSum(p, Start(p, c - 1), b.route, 2 * s.count[c - 1]))
      && b.cost.value <= s.attributed[c - 1]
  {
    var routes := SearchSpace(p, s, c);
    var init := Incumbent(p, s, c);
    var b := Search(p, s, c);
    SearchFits(p, s, c);
    SearchSpaceFits(p, s, c);
    KeepAllBest(p, s, c, init, routes);
    if b != init {
      SearchSpaceShape(p, s, c, b.route);
      KeepAllChoice(p, s, c, init, routes);
      var i :| 0 <= i < |routes| && b == Pick(routes[i], RerouteCost(p, s, c, routes[i]));
      RerouteCostMeaning(p, s, c, b.route);
    }
  }

  /** The installed attributed time is at most the score of every candidate
      the search space holds: every bracket pattern filled with every
      arrangement at or after the route's pickup order. */
  lemma {:induction false} StackOptimal(p: Params, s: State, c: int, u: seq<int>, comb: seq<int>)
    requires CanStack(p, s, c) && Searched(p, s, c) && Consistent(p, s, c)
    requires multiset(u) == multiset(StartOrder(p, s, c)) && LexAtMost(StartOrder(p, s, c), u)
    requires comb in Brackets.Combinations(s.count[c - 1])
    ensures Replayable(p, s, c, Candidate(u, comb, 2 * s.maxAssignable))
    ensures AtMost(Finite(StackOutcome(p, s, c).1.attributed[c - 1]),
                   RerouteCost(p, s, c, Candidate(u, comb, 2 * s.maxAssignable)))
  {
    var routes := SearchSpace(p, s, c);
    var r := Candidate(u, comb, 2 * s.maxAssignable);
    var b := Search(p, s, c);
    SearchSpaceExact(p, s, c, u, comb);
    SearchSpaceFits(p, s, c);
    var i :| 0 <= i < |routes| && routes[i] == r;
    KeepAllBest(p, s, c, Incumbent(p, s, c), routes);
    assert AtMost(b.cost, RerouteCost(p, s, c, routes[i]));
    SearchAttributed(p, s, c);
    ReroutedTotal(p, s, c, b.route);
  }

  /** A stacked route is stacked on its own pickups. */
  lemma {:induction false} StackedOnPickups(r: seq<int>, k: int, v: seq<int>)
    requires Stacked(r, k, v)
    ensures Ups(r[..2 * k]) == v[..k] && Stacked(r, k, Ups(r[..2 * k]))
  {
    assert v[..k][..k] == v[..k];
  }

  /** The route the search picks, when it is not the incumbent, is stacked on
      its own pickups, which are some of the route's original pickups. */
  lemma {:induction false} SearchStacked(p: Params, s: State, c: int)
    requires CanStack(p, s, c) && Searched(p, s, c)
    requires Search(p, s, c) != Incumbent(p, s, c)
    ensures Replayable(p, s, c, Search(p, s, c).route)
    ensures var k := s.count[c - 1];
      var route := Search(p, s, c).route;
      && Stacked(route, k, Ups(route[..2 * k]))
      && multiset(Ups(route[..2 * k])) <= multiset(StartOrder(p, s, c))
  {
    var k := s.count[c - 1];
    var b := Search(p, s, c);
    SearchFits(p, s, c);
    SearchSpaceExact(p, s, c, [], []);
    var v, l :| && multiset(v) == multiset(StartOrder(p, s, c)) && LexAtMost(StartOrder(p, s, c), v)
                && l in Brackets.Combinations(k) && b.route == Candidate(v, l, 2 * s.maxAssignable);
    ArrangementShape(p, s, c, v, l);
    StackedOnPickups(b.route, k, v);
  }

  /** A route the search picks in place of the incumbent is installed and
      leaves the courier empty. */
  lemma {:induction false} StackInstalled(p: Params, s: State, c: int)
    requires CanStack(p, s, c) && Searched(p, s, c)
    requires Search(p, s, c) != Incumbent(p, s, c)
    ensures Replayable(p, s, c, Search(p, s, c).route)
    ensures StackOutcome(p, s, c) == (Done, Rerouted(p, s, c, Search(p, s, c).route))
    ensures Rerouted(p, s, c, Search(p, s, c).route).plan[c - 1] == Search(p, s, c).route
    ensures Rerouted(p, s, c, Search(p, s, c).route).load[c - 1] == 0
  {
    var b := Search(p, s, c);
    var k := s.count[c - 1];
    SearchStacked(p, s, c);
    assert Ups(b.route[..2 * k]) == Downs(b.route[..2 * k]);
    ReroutedBalancedLoad(p, s, c, b.route);
  }

  // ---------------------------------------------------------------------------
  // The search, as the source runs it
  // ---------------------------------------------------------------------------

  /** Writes `combination`, filled with `permutation`, over the first slots of
      `incumbent`; the slots after it must already be empty. */
  method FillIncumbent(incumbent: array<int>, permutation: array<int>, combination: seq<int>)
    requires incumbent != permutation && |combination| <= incumbent.Length
    requires Labels(combination, permutation.Length)
    requires forall j :: |combination| <= j < incumbent.Length ==> incumbent[j] == 0
    modifies incumbent
    ensures incumbent[..] == Candidate(permutation[..], combination, incumbent.Length)
  {
    ghost var perm := permutation[..];
    for i := 0 to |combination|
      invariant forall j :: 0 <= j < i ==> incumbent[j] == Fill(perm, combination[j])
      invariant forall j :: |combination| <= j < incumbent.Length ==> incumbent[j] == 0
    {
      if combination[i] > 0 {
        incumbent[i] := permutation[combination[i] - 1];
      } else {
        incumbent[i] := -permutation[-combination[i] - 1];
      }
    }
  }

  /** Patterns for `k` deliveries: `2k` labels from `1..k` and `-k..-1`. */
  predicate Patterns(combs: seq<seq<int>>, k: int) {
    forall m :: 0 <= m < |combs| ==> |combs[m]| == 2 * k && Labels(combs[m], k)
  }

  lemma {:induction false} CombinationsArePatterns(k: nat)
    ensures Patterns(Brackets.Combinations(k), k)
  {
    Brackets.CombinationsLabels(k);
  }

  /** The loop over patterns for one arrangement: fills and scores each
      pattern in turn and keeps the last one no worse than the best so far. */
  method ScorePatterns(p: Params, sol: Solution, c: int, incumbent: array<int>, permutation: array<int>,
                       combinations: seq<seq<int>>, best0: Pick)
    returns (best: Pick)
    requires Shaped(p, sol.View()) && 1 <= c <= p.courierCount
    requires incumbent != permutation && sol.Apart(incumbent) && incumbent.Length == 2 * sol.maxAssignable
    requires Ids(p, permutation[..])
    requires Patterns(combinations, sol.countAssigned[c - 1]) && sol.countAssigned[c - 1] <= permutation.Length
    requires forall j :: 2 * sol.countAssigned[c - 1] <= j < incumbent.Length ==> incumbent[j] == 0
    modifies incumbent
    ensures AllReplayable(p, sol.View(), c, Row(permutation[..], combinations, incumbent.Length))
    ensures best == KeepAll(p, sol.View(), c, best0, Row(permutation[..], combinations, incumbent.Length))
    ensures forall j :: 2 * sol.countAssigned[c - 1] <= j < incumbent.Length ==> incumbent[j] == 0
  {
    ghost var s := sol.View();
    ghost var perm := permutation[..];
    var k := sol.countAssigned[c - 1];
    var width := incumbent.Length;
    best := best0;
    for m := 0 to |combinations|
      invariant forall j :: 2 * k <= j < width ==> incumbent[j] == 0
      invariant AllReplayable(p, s, c, Row(perm, combinations[..m], width))
      invariant best == KeepAll(p, s, c, best0, Row(perm, combinations[..m], width))
    {
      assert Labels(combinations[m], permutation.Length);
      FillIncumbent(incumbent, permutation, combinations[m]);
      ghost var route := Candidate(perm, combinations[m], width);
      CandidateFits(p, s, c, perm, combinations[m]);
      var cost := DeliveryTimeOfRerouting(p, sol, c, incumbent[..]);
      if AtMost(cost, best.cost) {
        best := Pick(incumbent[..], cost);
      }
      ghost var before := Row(perm, combinations[..m], width);
      assert Row(perm, combinations[..m + 1], width) == before + [route];
      assert (before + [route])[..|before|] == before;
    }
    assert combinations[..|combinations|] == combinations;
  }

  lemma {:induction false} CandidatesSnoc(perms: seq<seq<int>>, perm: seq<int>, combs: seq<seq<int>>, width: nat)
    ensures Candidates(perms + [perm], combs, width) == Candidates(perms, combs, width) + Row(perm, combs, width)
  {
    assert (perms + [perm])[..|perms|] == perms;
  }

  /** One step of the do-while: the orbit still to visit loses its first
      arrangement, and the walk ends exactly when there is no successor. */
  lemma {:induction false} OrbitStep(orbit: seq<seq<int>>, visited: seq<seq<int>>, s: seq<int>)
    requires orbit == visited + Permutations.Orbit(s)
    ensures var n := Permutations.NextPerm(s);
      && (n.more ==> orbit == (visited + [s]) + Permutations.Orbit(n.perm)
                     && |Permutations.Orbit(n.perm)| < |Permutations.Orbit(s)|)
      && (!n.more ==> orbit == visited + [s])
  {
    var n := Permutations.NextPerm(s);
    if n.more {
      assert Permutations.Orbit(s) == [s] + Permutations.Orbit(n.perm);
      assert visited + ([s] + Permutations.Orbit(n.perm)) == (visited + [s]) + Permutations.Orbit(n.perm);
    } else {
      assert Permutations.Orbit(s) == [s];
    }
  }

  /** One pass of the do-while: scores every pattern for the current
      arrangement, then advances it with `std::next_permutation`. */
  method VisitArrangement(p: Params, sol: Solution, c: int, incumbent: array<int>, permutation: array<int>, best0: Pick)
    returns (best: Pick, more: bool)
    requires Shaped(p, sol.View()) && 1 <= c <= p.courierCount
    requires incumbent != permutation && sol.Apart(incumbent) && sol.Apart(permutation)
    requires incumbent.Length == 2 * sol.maxAssignable
    requires Ids(p, permutation[..]) && sol.countAssigned[c - 1] <= permutation.Length
    requires forall j :: 2 * sol.countAssigned[c - 1] <= j < incumbent.Length ==> incumbent[j] == 0
    modifies incumbent, permutation
    ensures AllReplayable(p, sol.View(), c,
                          Row(old(permutation[..]), Brackets.Combinations(sol.countAssigned[c - 1]), incumbent.Length))
    ensures best == KeepAll(p, sol.View(), c, best0,
                            Row(old(permutation[..]), Brackets.Combinations(sol.countAssigned[c - 1]), incumbent.Length))
    ensures Permutations.Next(permutation[..], more) == Permutations.NextPerm(old(permutation[..]))
    ensures forall j :: 2 * sol.countAssigned[c - 1] <= j < incumbent.Length ==> incumbent[j] == 0
  {
    var k := sol.countAssigned[c - 1];
    CombinationsArePatterns(k);
    var combinations := Brackets.CatalanCombinations(k);
    best := ScorePatterns(p, sol, c, incumbent, permutation, combinations, best0);
    more := Permutations.NextPermutation(permutation);
  }

  /** The do-while over arrangements: returns the pick `Search` describes. */
  method SearchBest(p: Params, sol: Solution, c: int, start: seq<int>) returns (best: Pick)
    requires CanStack(p, sol.View(), c) && Searched(p, sol.View(), c)
    requires start == StartOrder(p, sol.View(), c)
    ensures best == Search(p, sol.View(), c)
  {
    ghost var s := sol.View();
    var k := sol.countAssigned[c - 1];
    var width := 2 * sol.maxAssignable;
    ghost var combs := Brackets.Combinations(k);
    ghost var orbit := Permutations.Orbit(start);
    ghost var init := Incumbent(p, s, c);
    StartOrderIds(p, s, c);
    best := Pick(sol.routingPlan[c - 1], Finite(sol.attributedTime[c - 1]));
    var incumbent := new int[width](_ => 0);
    var permutation := new int[|start|](j requires 0 <= j < |start| => start[j]);
    assert permutation[..] == start;
    ghost var visited: seq<seq<int>> := [];
    ghost var perm := start;
    var more := true;
    while more
      invariant sol.View() == s
      invariant permutation[..] == perm && multiset(perm) == multiset(start)
      invariant more ==> orbit == visited + Permutations.Orbit(perm)
      invariant !more ==> orbit == visited
      invariant forall j :: 2 * k <= j < width ==> incumbent[j] == 0
      invariant AllReplayable(p, s, c, Candidates(visited, combs, width))
      invariant best == KeepAll(p, s, c, init, Candidates(visited, combs, width))
      decreases if more then |Permutations.Orbit(perm)| else 0
    {
      IdsPermuted(p, start, perm);
      ghost var done := Candidates(visited, combs, width);
      best, more := VisitArrangement(p, sol, c, incumbent, permutation, best);
      KeepAllAppend(p, s, c, init, done, Row(perm, combs, width));
      CandidatesSnoc(visited, perm, combs, width);
      OrbitStep(orbit, visited, perm);
      Permutations.NextPermPermutes(perm);
      visited := visited + [perm];
      perm := permutation[..];
    }
  }

  /** `stack_courier_deliveries` */
  method StackCourierDeliveries(p: Params, sol: Solution, c: int) returns (status: Status)
    requires sol.Valid() && CanStack(p, sol.View(), c)
    modifies sol, sol.routingPlan, sol.deliveryTime, sol.attributedTime, sol.currentLoad
    ensures (status, sol.View()) == StackOutcome(p, old(sol.View()), c)
  {
    ghost var s := sol.View();
    var k := sol.countAssigned[c - 1];
    if k <= 1 {
      return Done;
    }
    var row := sol.routingPlan[c - 1];
    var deliveries: seq<int> := [];
    var i := 0;
    while i < 2 * k
      invariant 0 <= i <= 2 * k && deliveries == Ups(row[..i]) && !HasEmptySlot(row, i)
      invariant sol.View() == s && row == s.plan[c - 1] && k == s.count[c - 1]
    {
      if row[i] == 0 {
        assert HasEmptySlot(row, 2 * k);
        return MalformedRoute;
      } else if row[i] > 0 {
        deliveries := deliveries + [row[i]];
      }
      UpsDownsStep(row, i);
      i := i + 1;
    }
    if k >= 5 {
      return TooManyDeliveries;
    }
    assert row[..2 * k] == row[..i];
    var best := SearchBest(p, sol, c, deliveries);
    SearchFits(p, s, c);
    ApplyRerouting(p, sol, c, best.route);
    status := Done;
  }

  // ---------------------------------------------------------------------------
  // Every courier
  // ---------------------------------------------------------------------------

  /** Stacking one courier leaves every other courier stackable. */
  lemma {:induction false} StackKeepsOthers(p: Params, s: State, c: int, c': int)
    requires CanStack(p, s, c) && CanStack(p, s, c') && c' != c
    ensures CanStack(p, StackOutcome(p, s, c).1, c')
    ensures Consistent(p, s, c') ==> Consistent(p, StackOutcome(p, s, c).1, c')
  {
    StackFrame(p, s, c);
  }

  /** `stack_all_courier_deliveries` from courier `c` on: each courier in
      turn, stopping at the first one whose stacking throws. */
  function StackAllFrom(p: Params, s: State, c: int): (Status, State)
    requires Shaped(p, s) && 1 <= c <= p.courierCount + 1
    decreases p.courierCount + 1 - c
  {
    if c > p.courierCount then (Done, s)
    else
      StackFrame(p, s, c);
      var o := StackOutcome(p, s, c);
      if o.0 != Done then o else StackAllFrom(p, o.1, c + 1)
  }

  /** Past the last courier nothing changes. */
  lemma AllFromDone(p: Params, s: State, c: int)
    requires Shaped(p, s) && c == p.courierCount + 1
    ensures StackAllFrom(p, s, c) == (Done, s)
  {
  }

  /** A courier whose stacking throws ends the pass with its outcome. */
  lemma AllFromThrow(p: Params, s: State, c: int)
    requires Shaped(p, s) && 1 <= c <= p.courierCount && StackOutcome(p, s, c).0 != Done
    ensures StackAllFrom(p, s, c) == StackOutcome(p, s, c)
  {
  }

  /** A courier stacked without error hands its outcome to the next. */
  lemma AllFromNext(p: Params, s: State, c: int)
    requires Shaped(p, s) && 1 <= c <= p.courierCount && StackOutcome(p, s, c).0 == Done
    requires Shaped(p, StackOutcome(p, s, c).1)
    ensures StackAllFrom(p, s, c) == StackAllFrom(p, StackOutcome(p, s, c).1, c + 1)
  {
  }

  /** Every courier from `c` on can be stacked. */
  predicate AllStackable(p: Params, s: State, c: int) {
    Shaped(p, s) && forall c' :: c <= c' <= p.courierCount ==> CanStack(p, s, c')
  }

  /** Every courier from `c` on has the attributed time its row replays to. */
  predicate AllConsistent(p: Params, s: State, c: int)
    requires Shaped(p, s) && 1 <= c
  {
    forall c' :: c <= c' <= p.courierCount ==> Consistent(p, s, c')
  }

  /** Stacking courier `c` keeps the couriers after it stackable and keeps
      their attributed times matching their rows. */
  lemma {:induction false} StackKeepsStackable(p: Params, s: State, c: int)
    requires AllStackable(p, s, c) && 1 <= c <= p.courierCount
    ensures AllStackable(p, StackOutcome(p, s, c).1, c + 1)
    ensures AllConsistent(p, s, c + 1) ==> AllConsistent(p, StackOutcome(p, s, c).1, c + 1)
  {
    StackFrame(p, s, c);
    var r := StackOutcome(p, s, c).1;
    forall c' | c + 1 <= c' <= p.courierCount
      ensures CanStack(p, r, c') && (Consistent(p, s, c') ==> Consistent(p, r, c'))
    {
      StackKeepsOthers(p, s, c, c');
    }
  }

  /** `r` is well shaped, has `s`'s assignment, and agrees with `s` on the
      rows, attributed times and loads of the first `n` couriers. */
  predicate Untouched(p: Params, s: State, r: State, n: int) {
    && Shaped(p, r) && |s.plan| == |s.attributed| == |s.load| == |r.plan|
    && r.count == s.count && r.assignedTo == s.assignedTo && r.feasible == s.feasible
    && r.maxAssignable == s.maxAssignable && r.maxDeliveryTime == s.maxDeliveryTime
    && (forall j :: 0 <= j < n && j < |r.plan| ==>
          r.plan[j] == s.plan[j] && r.attributed[j] == s.attributed[j] && r.load[j] == s.load[j])
  }

  lemma {:induction false} StackUntouched(p: Params, s: State, c: int)
    requires CanStack(p, s, c)
    ensures Untouched(p, s, StackOutcome(p, s, c).1, c - 1)
  {
    StackFrame(p, s, c);
  }

  lemma {:induction false} UntouchedCompose(p: Params, s: State, o: State, r: State, c: int)
    requires Shaped(p, s) && 1 <= c <= p.courierCount
    requires Untouched(p, o, r, c) && Untouched(p, s, o, c - 1)
    ensures Untouched(p, s, r, c - 1)
  {
  }

  /** Stacking all couriers keeps the solution well shaped and changes no
      assignment; couriers before `c` keep their rows and attributed times; a
      thrown error leaves the couriers stacked so far stacked. */
  lemma {:induction false} StackAllFrame(p: Params, s: State, c: int)
    requires AllStackable(p, s, c) && 1 <= c <= p.courierCount + 1
    ensures Untouched(p, s, StackAllFrom(p, s, c).1, c - 1)
    decreases p.courierCount + 1 - c, 1
  {
    if c > p.courierCount {
      AllFromDone(p, s, c);
    } else if StackOutcome(p, s, c).0 != Done {
      StackUntouched(p, s, c);
      AllFromThrow(p, s, c);
    } else {
      FrameStep(p, s, c);
    }
  }

  /** The inductive step of `StackAllFrame`. */
  lemma {:induction false} FrameStep(p: Params, s: State, c: int)
    requires AllStackable(p, s, c) && 1 <= c <= p.courierCount && StackOutcome(p, s, c).0 == Done
    ensures Untouched(p, s, StackAllFrom(p, s, c).1, c - 1)
    decreases p.courierCount + 1 - c, 0
  {
    var o := StackOutcome(p, s, c).1;
    DoneNext(p, s, c);
    StackAllFrame(p, o, c + 1);
    UntouchedCompose(p, s, o, StackAllFrom(p, o, c + 1).1, c);
  }

  /** A courier stacked without error leaves the couriers after it stackable,
      leaves the couriers before it untouched, and hands its outcome on. */
  lemma {:induction false} DoneNext(p: Params, s: State, c: int)
    requires AllStackable(p, s, c) && 1 <= c <= p.courierCount && StackOutcome(p, s, c).0 == Done
    ensures var o := StackOutcome(p, s, c).1;
      && AllStackable(p, o, c + 1) && Untouched(p, s, o, c - 1)
      && StackAllFrom(p, s, c) == StackAllFrom(p, o, c + 1)
  {
    StackKeepsStackable(p, s, c);
    StackUntouched(p, s, c);
    AllFromNext(p, s, c);
  }

  /** A courier stacked without error, when every courier from it on had
      the attributed time its row replays to, leaves the couriers after it
      so, and no courier is worse off. */
  lemma {:induction false} DoneConsistent(p: Params, s: State, c: int)
    requires AllStackable(p, s, c) && 1 <= c <= p.courierCount && AllConsistent(p, s, c)
    ensures var o := StackOutcome(p, s, c).1;
      Shaped(p, o) && AllConsistent(p, o, c + 1) && NoWorse(s, o)
  {
    StackKeepsStackable(p, s, c);
    StackFrame(p, s, c);
    StackNoWorse(p, s, c);
  }

  /** No courier's attributed time in `r` exceeds its time in `s`; a finite
      total does not grow and a sentinel total stays. */
  predicate NoWorse(s: State, r: State) {
    && |r.attributed| == |s.attributed|
    && (forall j :: 0 <= j < |s.attributed| ==> r.attributed[j] <= s.attributed[j])
    && (s.total.Finite? ==> r.total.Finite? && r.total.value <= s.total.value)
    && (!s.total.Finite? ==> r.total == s.total)
  }

  lemma {:induction false} NoWorseCompose(s: State, o: State, r: State, t: State)
    requires NoWorse(s, o) && NoWorse(o, r) && t == r
    ensures NoWorse(s, t)
  {
  }

  /** One courier's stacking is no worse for any courier. */
  lemma {:induction false} StackNoWorse(p: Params, s: State, c: int)
    requires CanStack(p, s, c) && Consistent(p, s, c)
    ensures NoWorse(s, StackOutcome(p, s, c).1)
  {
    StackFrame(p, s, c);
    StackNeverWorse(p, s, c);
    NoWorseAt(s, StackOutcome(p, s, c).1, c - 1);
  }

  /** A change confined to one courier that does not raise its time is no worse. */
  lemma {:induction false} NoWorseAt(s: State, r: State, i: int)
    requires 0 <= i < |s.attributed| == |r.attributed|
    requires forall j :: 0 <= j < |s.attributed| && j != i ==> r.attributed[j] == s.attributed[j]
    requires r.attributed[i] <= s.attributed[i]
    requires s.total.Finite? ==> r.total.Finite? && r.total.value <= s.total.value
    requires !s.total.Finite? ==> r.total == s.total
    ensures NoWorse(s, r)
  {
  }

  /** Stacking all couriers never makes one worse: every attributed time is at
      most what it was, a finite total does not grow and a sentinel total stays. */
  lemma {:induction false} StackAllNeverWorse(p: Params, s: State, c: int)
    requires AllStackable(p, s, c) && 1 <= c <= p.courierCount + 1 && AllConsistent(p, s, c)
    ensures NoWorse(s, StackAllFrom(p, s, c).1)
    decreases p.courierCount + 1 - c, 1
  {
    if c > p.courierCount {
      AllFromDone(p, s, c);
    } else if StackOutcome(p, s, c).0 != Done {
      StackFrame(p, s, c);
      AllFromThrow(p, s, c);
    } else {
      NeverWorseStep(p, s, c);
    }
  }

  /** The inductive step of `StackAllNeverWorse`. */
  lemma {:induction false} NeverWorseStep(p: Params, s: State, c: int)
    requires AllStackable(p, s, c) && 1 <= c <= p.courierCount && AllConsistent(p, s, c)
    requires StackOutcome(p, s, c).0 == Done
    ensures NoWorse(s, StackAllFrom(p, s, c).1)
    decreases p.courierCount + 1 - c, 0
  {
    var o := StackOutcome(p, s, c).1;
    DoneNext(p, s, c);
    DoneConsistent(p, s, c);
    StackAllNeverWorse(p, o, c + 1);
    NoWorseCompose(s, o, StackAllFrom(p, o, c + 1).1, StackAllFrom(p, s, c).1);
  }

  /** Stacking all couriers keeps every courier's attributed time equal to
      what its row replays to. */
  lemma StackAllConsistent(p: Params, s: State, c: int)
    requires AllStackable(p, s, c) && 1 <= c <= p.courierCount + 1 && AllConsistent(p, s, c)
    ensures Shaped(p, StackAllFrom(p, s, c).1) && AllConsistent(p, StackAllFrom(p, s, c).1, c)
  {
    StackAllFrame(p, s, c);
    forall d | c <= d <= p.courierCount ensures Consistent(p, StackAllFrom(p, s, c).1, d) {
      StackAllConsistentAt(p, s, c, d);
    }
  }

  /** A courier whose attributed time matches its row still does after all
      couriers are stacked: the others leave it alone, and its own stacking
      keeps it matching. */
  lemma {:induction false} StackAllConsistentAt(p: Params, s: State, c: int, d: int)
    requires AllStackable(p, s, c) && 1 <= c <= d <= p.courierCount && Consistent(p, s, d)
    ensures Shaped(p, StackAllFrom(p, s, c).1) && Consistent(p, StackAllFrom(p, s, c).1, d)
    decreases p.courierCount + 1 - c, 2
  {
    if StackOutcome(p, s, c).0 != Done {
      StackFrame(p, s, c);
      AllFromThrow(p, s, c);
    } else {
      ConsistentStep(p, s, c, d);
    }
  }

  /** The inductive step of `StackAllConsistentAt`. */
  lemma {:induction false} ConsistentStep(p: Params, s: State, c: int, d: int)
    requires AllStackable(p, s, c) && 1 <= c <= d <= p.courierCount && Consistent(p, s, d)
    requires StackOutcome(p, s, c).0 == Done
    ensures Shaped(p, StackAllFrom(p, s, c).1) && Consistent(p, StackAllFrom(p, s, c).1, d)
    decreases p.courierCount + 1 - c, 1
  {
    var o := StackOutcome(p, s, c).1;
    DoneNext(p, s, c);
    if d == c {
      ConsistentHere(p, s, c);
    } else {
      StackKeepsOthers(p, s, c, d);
      ConsistentLater(p, s, c, d);
    }
    ConsistentVia(p, StackAllFrom(p, o, c + 1).1, StackAllFrom(p, s, c).1, d);
  }

  /** A courier after the one just stacked is left alone by it, and the
      stacking of the rest keeps it matching. */
  lemma {:induction false} ConsistentLater(p: Params, s: State, c: int, d: int)
    requires Shaped(p, s) && 1 <= c < d <= p.courierCount && StackOutcome(p, s, c).0 == Done
    requires AllStackable(p, StackOutcome(p, s, c).1, c + 1) && Consistent(p, StackOutcome(p, s, c).1, d)
    ensures var o := StackOutcome(p, s, c).1;
      Shaped(p, StackAllFrom(p, o, c + 1).1) && Consistent(p, StackAllFrom(p, o, c + 1).1, d)
    decreases p.courierCount + 1 - c, 0
  {
    StackAllConsistentAt(p, StackOutcome(p, s, c).1, c + 1, d);
  }

  /** The courier just stacked keeps its attributed time matching its row
      through the stacking of the couriers after it. */
  lemma {:induction false} ConsistentHere(p: Params, s: State, c: int)
    requires AllStackable(p, s, c) && 1 <= c <= p.courierCount && Consistent(p, s, c)
    requires StackOutcome(p, s, c).0 == Done
    ensures var o := StackOutcome(p, s, c).1;
      Shaped(p, o) && Shaped(p, StackAllFrom(p, o, c + 1).1) && Consistent(p, StackAllFrom(p, o, c + 1).1, c)
  {
    var o := StackOutcome(p, s, c).1;
    StackFrame(p, s, c);
    StackKeepsStackable(p, s, c);
    StackAllFrame(p, o, c + 1);
    UntouchedConsistent(p, o, StackAllFrom(p, o, c + 1).1, c);
  }

  lemma ConsistentVia(p: Params, r: State, t: State, d: int)
    requires Shaped(p, r) && 1 <= d <= p.courierCount && Consistent(p, r, d) && t == r
    ensures Shaped(p, t) && Consistent(p, t, d)
  {
  }

  /** A courier whose row and attributed time are untouched stays consistent. */
  lemma UntouchedConsistent(p: Params, s: State, r: State, c: int)
    requires Shaped(p, s) && 1 <= c <= p.courierCount && Untouched(p, s, r, c) && Consistent(p, s, c)
    ensures Consistent(p, r, c)
  {
    assert r.plan[c - 1] == s.plan[c - 1] && r.attributed[c - 1] == s.attributed[c - 1];
  }

  /** `stack_all_courier_deliveries` */
  method StackAllCourierDeliveries(p: Params, sol: Solution) returns (status: Status)
    requires sol.Valid() && AllStackable(p, sol.View(), 1)
    modifies sol, sol.routingPlan, sol.deliveryTime, sol.attributedTime, sol.currentLoad
    ensures (status, sol.View()) == StackAllFrom(p, old(sol.View()), 1)
  {
    var c := 1;
    while c <= p.courierCount
      invariant 1 <= c <= p.courierCount + 1 && AllStackable(p, sol.View(), c)
      invariant StackAllFrom(p, old(sol.View()), 1) == StackAllFrom(p, sol.View(), c)
    {
      ghost var s := sol.View();
      status := StackCourierDeliveries(p, sol, c);
      StackFrame(p, s, c);
      if status != Done {
        return;
      }
      StackKeepsStackable(p, s, c);
      c := c + 1;
    }
    status := Done;
  }
}
