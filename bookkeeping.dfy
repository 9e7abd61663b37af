/** What the construction heuristic keeps true of the solution while it
    appends deliveries: every row is a run of `+d, -d` pairs followed by empty
    slots, each delivery on a row is recorded as that courier's with its
    replayed completion time, the attributed times are the rows' dropoff sums,
    the courier states are where the rows' replays end, and the total is both
    the sum of the recorded times and the sum of the attributed times. */
module Bookkeeping {
  import opened Times
  import opened Parameters
  import opened Solutions
  import opened Replay
  import opened Moves

  // ---------------------------------------------------------------------------
  // Counts and sums
  // ---------------------------------------------------------------------------

  /** The number of positive entries among the first `n`. */
  function PositiveFirst(a: seq<int>, n: nat): nat
    requires n <= |a|
  {
    if n == 0 then 0 else PositiveFirst(a, n - 1) + (if a[n - 1] > 0 then 1 else 0)
  }

  /** The number of deliveries with a courier. */
  function Assigned(a: seq<int>): nat {
    PositiveFirst(a, |a|)
  }

  lemma {:induction false} PositiveFirstBound(a: seq<int>, n: nat)
    requires n <= |a|
    ensures PositiveFirst(a, n) <= n
    ensures PositiveFirst(a, n) == n ==> forall j :: 0 <= j < n ==> a[j] > 0
  {
    if n > 0 {
      PositiveFirstBound(a, n - 1);
    }
  }

  /** Giving an unassigned delivery a courier counts one more. */
  lemma {:induction false} PositiveFirstUpdate(a: seq<int>, n: nat, d: int, v: int)
    requires n <= |a| && 0 <= d < |a| && a[d] <= 0 && v > 0
    ensures PositiveFirst(a[d := v], n) == PositiveFirst(a, n) + (if d < n then 1 else 0)
  {
    if n > 0 {
      PositiveFirstUpdate(a, n - 1, d, v);
    }
  }

  /** The value a stored time contributes to the sum of the recorded times. */
  function ValueOf(t: Time): int {
    if t.Finite? then t.value else 0
  }

  /** The sum of the finite entries among the first `n`. */
  function StoredFirst(ts: seq<Time>, n: nat): int
    requires n <= |ts|
  {
    if n == 0 then 0 else StoredFirst(ts, n - 1) + ValueOf(ts[n - 1])
  }

  function StoredSum(ts: seq<Time>): int {
    StoredFirst(ts, |ts|)
  }

  lemma {:induction false} StoredFirstUpdate(ts: seq<Time>, n: nat, d: int, t: Time)
    requires n <= |ts| && 0 <= d < |ts|
    ensures StoredFirst(ts[d := t], n)
            == StoredFirst(ts, n) + (if d < n then ValueOf(t) - ValueOf(ts[d]) else 0)
  {
    if n > 0 {
      StoredFirstUpdate(ts, n - 1, d, t);
    }
  }

  /** The sum of the first `n` entries. */
  function IntFirst(xs: seq<int>, n: nat): int
    requires n <= |xs|
  {
    if n == 0 then 0 else IntFirst(xs, n - 1) + xs[n - 1]
  }

  function IntSum(xs: seq<int>): int {
    IntFirst(xs, |xs|)
  }

  lemma {:induction false} IntFirstUpdate(xs: seq<int>, n: nat, c: int, x: int)
    requires n <= |xs| && 0 <= c < |xs|
    ensures IntFirst(xs[c := x], n) == IntFirst(xs, n) + (if c < n then x - xs[c] else 0)
  {
    if n > 0 {
      IntFirstUpdate(xs, n - 1, c, x);
    }
  }

  /** All-zero and all-sentinel delivery vectors count no assignment and sum to 0. */
  lemma {:induction false} EmptyDeliverySums(s: State, n: nat)
    requires Empty(s) && n <= |s.assignedTo| && n <= |s.deliveryTime|
    ensures PositiveFirst(s.assignedTo, n) == 0
    ensures StoredFirst(s.deliveryTime, n) == 0
  {
    if n > 0 {
      EmptyDeliverySums(s, n - 1);
    }
  }

  /** All-zero attributed times sum to 0. */
  lemma {:induction false} EmptyCourierSums(s: State, n: nat)
    requires Empty(s) && n <= |s.attributed|
    ensures IntFirst(s.attributed, n) == 0
  {
    if n > 0 {
      EmptyCourierSums(s, n - 1);
    }
  }

  // ---------------------------------------------------------------------------
  // The invariant
  // ---------------------------------------------------------------------------

  /** Slot pair `k` of courier `c` (0-based) holds `+d, -d` for a delivery
      recorded as this courier's, at its replayed completion time, and fitting
      the courier's capacity. */
  predicate PairAt(p: Params, s: State, c: int, k: int)
    requires Shaped(p, s) && 0 <= c < p.courierCount && 0 <= k < s.count[c]
  {
    var row := s.plan[c];
    var d := row[2 * k];
    && 1 <= d <= p.deliveryCount && row[2 * k + 1] == -d
    && s.assignedTo[d - 1] == c + 1
    && s.deliveryTime[d - 1] == Finite(ClockAfter(p, Start(p, c), row, 2 * k + 2).time)
    && p.deliveryCapacity[d - 1] <= p.courierCapacity[c]
  }

  /** Courier `c`'s row: pairs, then empty slots; its attributed time is the
      sum of its dropoff times. */
  predicate RowKept(p: Params, s: State, c: int)
    requires Shaped(p, s) && 0 <= c < p.courierCount
  {
    && (forall k :: 0 <= k < s.count[c] ==> PairAt(p, s, c, k))
    && (forall j :: 2 * s.count[c] <= j < |s.plan[c]| ==> s.plan[c][j] == 0)
    && s.attributed[c] == DropoffSum(p, Start(p, c), s.plan[c], 2 * s.count[c])
  }

  /** Delivery `d` (0-based) is picked up by pair `k` of the courier it is recorded for. */
  predicate HoldsAt(p: Params, s: State, d: int, k: int)
    requires Shaped(p, s) && 0 <= d < p.deliveryCount && 1 <= s.assignedTo[d] <= p.courierCount
    requires 0 <= k < s.count[s.assignedTo[d] - 1]
  {
    s.plan[s.assignedTo[d] - 1][2 * k] == d + 1
  }

  /** Delivery `d` (0-based) is unassigned with the sentinel time, or is on
      a pair of the courier it is recorded for. */
  predicate DeliveryKept(p: Params, s: State, d: int)
    requires Shaped(p, s) && 0 <= d < p.deliveryCount
  {
    var c := s.assignedTo[d];
    && 0 <= c <= p.courierCount
    && (c == 0 ==> s.deliveryTime[d] == DoubleMax)
    && (c > 0 ==> exists k :: 0 <= k < s.count[c - 1] && HoldsAt(p, s, d, k))
  }

  /** The routes and records the heuristic builds, apart from the total. */
  predicate Routes(p: Params, s: State) {
    && Shaped(p, s)
    && (forall c :: 0 <= c < p.courierCount ==> RowKept(p, s, c))
    && (forall d :: 0 <= d < p.deliveryCount ==> DeliveryKept(p, s, d))
  }

  /** Courier state `c` (0-based) is courier `c + 1` where its row's replay ends. */
  predicate StateMatches(p: Params, s: State, states: seq<CourierState>, c: int)
    requires Shaped(p, s) && |states| == p.courierCount && 0 <= c < p.courierCount
  {
    && states[c].courier == c + 1
    && ClockOf(states[c]) == ClockAfter(p, Start(p, c), s.plan[c], 2 * s.count[c])
  }

  predicate StatesMatch(p: Params, s: State, states: seq<CourierState>)
    requires Shaped(p, s)
  {
    |states| == p.courierCount && forall c :: 0 <= c < p.courierCount ==> StateMatches(p, s, states, c)
  }

  /** The total is the sum of the recorded times and the sum of the attributed times. */
  predicate Totals(s: State) {
    s.total == Finite(StoredSum(s.deliveryTime)) && s.total == Finite(IntSum(s.attributed))
  }

  /** The heuristic's invariant, with `numAssigned` the running count of assigned deliveries. */
  predicate Bookkept(p: Params, s: State, states: seq<CourierState>, numAssigned: int) {
    Routes(p, s) && StatesMatch(p, s, states) && Totals(s) && numAssigned == Assigned(s.assignedTo)
  }

  /** The courier states the heuristic starts from: each courier at its start, at time 0. */
  function InitialStates(p: Params): (states: seq<CourierState>)
    requires p.Valid()
    ensures |states| == p.courierCount
    ensures forall c :: 0 <= c < p.courierCount ==>
      states[c] == CourierState(c + 1, p.courierStart[c], 0) && ClockOf(states[c]) == Start(p, c)
  {
    seq(p.courierCount, c requires 0 <= c < p.courierCount => CourierState(c + 1, p.courierStart[c], 0))
  }

  /** A fresh solution with the total reset to 0 satisfies the invariant. */
  lemma {:induction false} EmptyBookkept(p: Params, s: State)
    requires Shaped(p, s) && Empty(s) && s.total == Finite(0)
    ensures Bookkept(p, s, InitialStates(p), 0)
  {
    EmptyDeliverySums(s, p.deliveryCount);
    EmptyCourierSums(s, p.courierCount);
    forall c | 0 <= c < p.courierCount ensures RowKept(p, s, c) && StateMatches(p, s, InitialStates(p), c) {
      assert s.count[c] == 0;
    }
  }

  // ---------------------------------------------------------------------------
  // One append keeps the invariant
  // ---------------------------------------------------------------------------

  /** What an append requires: a courier below its cap and an unassigned
      delivery that fits it (the greedy finder's and the acceptance tests). */
  predicate CanAppend(p: Params, s: State, states: seq<CourierState>, c: int, d: int) {
    && Routes(p, s) && StatesMatch(p, s, states)
    && 1 <= c <= p.courierCount && AtLocation(p, ClockOf(states[c - 1])) && 1 <= d <= p.deliveryCount
    && s.count[c - 1] < s.maxAssignable && s.assignedTo[d - 1] == 0
    && p.deliveryCapacity[d - 1] <= p.courierCapacity[c - 1]
  }

  /** The courier state after its append. */
  function Moved(p: Params, cs: CourierState, d: int): CourierState
    requires p.Valid() && AtLocation(p, ClockOf(cs)) && 1 <= d <= p.deliveryCount
  {
    cs.(location := p.dropoff[d - 1], time := AppendDeliveryTime(p, cs, d))
  }

  /** A delivery on a row is assigned, so it is not the one being appended. */
  lemma PairIsNotNew(p: Params, s: State, states: seq<CourierState>, c: int, d: int, c': int, k: int)
    requires CanAppend(p, s, states, c, d) && 0 <= c' < p.courierCount && 0 <= k < s.count[c']
    ensures PairAt(p, s, c', k) && s.plan[c'][2 * k] != d
  {
    assert RowKept(p, s, c');
  }

  /** The appending courier's row after the append. */
  lemma {:induction false} AppendKeepsOwnRow(p: Params, s: State, states: seq<CourierState>, c: int, d: int)
    requires CanAppend(p, s, states, c, d)
    ensures var r := Appended(p, s, states[c - 1], c, d);
      RowKept(p, r, c - 1) && StateMatches(p, r, states[c - 1 := Moved(p, states[c - 1], d)], c - 1)
  {
    var cs := states[c - 1];
    var r := Appended(p, s, cs, c, d);
    var k := s.count[c - 1];
    var c0 := c - 1;
    assert StateMatches(p, s, states, c0);
    assert RowKept(p, s, c0);
    AppendIsReplay(p, s, cs, c, d);
    forall k' | 0 <= k' < r.count[c0] ensures PairAt(p, r, c0, k') {
      if k' < k {
        OwnEarlierPair(p, s, states, c, d, k');
      }
    }
  }

  /** An earlier pair of the appending courier's row survives the append. */
  lemma OwnEarlierPair(p: Params, s: State, states: seq<CourierState>, c: int, d: int, k: int)
    requires CanAppend(p, s, states, c, d) && 0 <= k < s.count[c - 1]
    requires ClockAfter(p, Start(p, c - 1), s.plan[c - 1], 2 * s.count[c - 1]) == ClockOf(states[c - 1])
    ensures PairAt(p, Appended(p, s, states[c - 1], c, d), c - 1, k)
  {
    var r := Appended(p, s, states[c - 1], c, d);
    PairIsNotNew(p, s, states, c, d, c - 1, k);
    AppendIsReplay(p, s, states[c - 1], c, d);
    assert ClockAfter(p, Start(p, c - 1), r.plan[c - 1], 2 * k + 2)
        == ClockAfter(p, Start(p, c - 1), s.plan[c - 1], 2 * k + 2);
  }

  /** Another courier's row after the append. */
  lemma {:induction false} AppendKeepsOtherRow(
    p: Params, s: State, states: seq<CourierState>, c: int, d: int, c': int)
    requires CanAppend(p, s, states, c, d) && 0 <= c' < p.courierCount && c' != c - 1
    ensures var r := Appended(p, s, states[c - 1], c, d);
      RowKept(p, r, c') && StateMatches(p, r, states[c - 1 := Moved(p, states[c - 1], d)], c')
  {
    var r := Appended(p, s, states[c - 1], c, d);
    assert StateMatches(p, s, states, c');
    assert RowKept(p, s, c');
    assert r.plan[c'] == s.plan[c'] && r.count[c'] == s.count[c'] && r.attributed[c'] == s.attributed[c'];
    forall k | 0 <= k < r.count[c'] ensures PairAt(p, r, c', k) {
      PairIsNotNew(p, s, states, c, d, c', k);
    }
  }

  /** Every delivery's record after the append. */
  lemma {:induction false} AppendKeepsDeliveries(p: Params, s: State, states: seq<CourierState>, c: int, d: int)
    requires CanAppend(p, s, states, c, d)
    ensures var r := Appended(p, s, states[c - 1], c, d);
      forall e :: 0 <= e < p.deliveryCount ==> DeliveryKept(p, r, e)
  {
    var r := Appended(p, s, states[c - 1], c, d);
    forall e | 0 <= e < p.deliveryCount ensures DeliveryKept(p, r, e) {
      if e == d - 1 {
        assert HoldsAt(p, r, e, s.count[c - 1]);
      } else {
        assert DeliveryKept(p, s, e);
        var c' := s.assignedTo[e];
        if c' > 0 {
          var k :| 0 <= k < s.count[c' - 1] && HoldsAt(p, s, e, k);
          assert HoldsAt(p, r, e, k);
        }
      }
    }
  }

  /** One append, with the courier state moved to the new dropoff, keeps the
      invariant and counts one more assigned delivery. */
  lemma {:induction false} AppendKeepsBookkept(
    p: Params, s: State, states: seq<CourierState>, numAssigned: int, c: int, d: int)
    requires Bookkept(p, s, states, numAssigned) && CanAppend(p, s, states, c, d)
    ensures Bookkept(p, Appended(p, s, states[c - 1], c, d),
                     states[c - 1 := Moved(p, states[c - 1], d)], numAssigned + 1)
  {
    var cs := states[c - 1];
    var r := Appended(p, s, cs, c, d);
    var states' := states[c - 1 := Moved(p, cs, d)];
    AppendKeepsOwnRow(p, s, states, c, d);
    forall c' | 0 <= c' < p.courierCount
      ensures RowKept(p, r, c') && StateMatches(p, r, states', c')
    {
      if c' != c - 1 {
        AppendKeepsOtherRow(p, s, states, c, d, c');
      }
    }
    AppendKeepsDeliveries(p, s, states, c, d);
    PositiveFirstUpdate(s.assignedTo, |s.assignedTo|, d - 1, c);
    assert DeliveryKept(p, s, d - 1);
    StoredFirstUpdate(s.deliveryTime, |s.deliveryTime|, d - 1, r.deliveryTime[d - 1]);
    IntFirstUpdate(s.attributed, |s.attributed|, c - 1, r.attributed[c - 1]);
  }
}
