/** Scoring a candidate route for one courier (`delivery_time_of_rerouting`)
    and installing a route (`apply_rerouting`). Courier indices are 1-based,
    as the source passes them. */
module Rerouting {
  import opened Times
  import opened Parameters
  import opened Solutions
  import opened Replay
  import opened Sequences

  /** `route`'s first `2 * count` slots can be replayed for courier `c`. */
  predicate Replayable(p: Params, s: State, c: int, route: seq<int>) {
    Shaped(p, s) && 1 <= c <= p.courierCount && RouteFits(p, route, 2 * s.count[c - 1])
  }

  // ---------------------------------------------------------------------------
  // Scoring
  // ---------------------------------------------------------------------------

  /** What `delivery_time_of_rerouting` returns. */
  function RerouteCost(p: Params, s: State, c: int, route: seq<int>): Time
    requires Replayable(p, s, c, route)
  {
    RerouteCostFrom(p, p.courierCapacity[c - 1], s.maxDeliveryTime, route, 2 * s.count[c - 1],
                    0, Start(p, c - 1), 0, Finite(0))
  }

  /** The score is the max sentinel when a pickup before the first empty slot
      overloads the courier or a dropoff before it completes after the bound;
      otherwise it is the sum of the dropoff completion times before it. */
  lemma {:induction false} RerouteCostMeaning(p: Params, s: State, c: int, route: seq<int>)
    requires Replayable(p, s, c, route)
    ensures var m := 2 * s.count[c - 1];
      var e := FirstEmpty(route, m);
      var start := Start(p, c - 1);
      RerouteCost(p, s, c, route)
      == if Overloaded(p, p.courierCapacity[c - 1], route, 0, e) || Late(p, s.maxDeliveryTime, start, route, 0, e)
         then DoubleMax
         else Finite(DropoffSum(p, start, route, e))
  {
    var m := 2 * s.count[c - 1];
    RerouteCostFromCharacterized(p, p.courierCapacity[c - 1], s.maxDeliveryTime, Start(p, c - 1), route, m, 0, Finite(0));
  }

  /** Only the first `2 * count` slots are read. */
  lemma {:induction false} RerouteCostReadsPrefix(p: Params, s: State, c: int, r1: seq<int>, r2: seq<int>)
    requires Replayable(p, s, c, r1) && Replayable(p, s, c, r2)
    requires r1[..2 * s.count[c - 1]] == r2[..2 * s.count[c - 1]]
    ensures RerouteCost(p, s, c, r1) == RerouteCost(p, s, c, r2)
  {
    var m := 2 * s.count[c - 1];
    var start := Start(p, c - 1);
    var cap, bound := p.courierCapacity[c - 1], s.maxDeliveryTime;
    RerouteCostMeaning(p, s, c, r1);
    RerouteCostMeaning(p, s, c, r2);
    FirstEmptyPrefix(r1, r2, m);
    var e := FirstEmpty(r1, m);
    assert r1[..e] == r2[..e] by { assert r1[..e] == r1[..m][..e] && r2[..e] == r2[..m][..e]; }
    PrefixDetermines(p, start, r1, r2, e);
    forall j | 0 <= j < e ensures r1[j] == r2[j] && LoadAfter(p, r1, j + 1) == LoadAfter(p, r2, j + 1)
      && ClockAfter(p, start, r1, j + 1) == ClockAfter(p, start, r2, j + 1)
    {
      assert r1[j] == r1[..m][j] && r2[j] == r2[..m][j];
      assert r1[..j + 1] == r2[..j + 1] by { assert r1[..j + 1] == r1[..m][..j + 1] && r2[..j + 1] == r2[..m][..j + 1]; }
      PrefixDetermines(p, start, r1, r2, j + 1);
    }
    assert Overloaded(p, cap, r1, 0, e) == Overloaded(p, cap, r2, 0, e);
    assert Late(p, bound, start, r1, 0, e) == Late(p, bound, start, r2, 0, e);
  }

  lemma {:induction false} FirstEmptyPrefix(r1: seq<int>, r2: seq<int>, m: int)
    requires 0 <= m <= |r1| && m <= |r2| && r1[..m] == r2[..m]
    ensures FirstEmpty(r1, m) == FirstEmpty(r2, m)
  {
    if m > 0 {
      assert r1[..m - 1] == r1[..m][..m - 1] && r2[..m - 1] == r2[..m][..m - 1];
      assert r1[m - 1] == r1[..m][m - 1] && r2[m - 1] == r2[..m][m - 1];
      FirstEmptyPrefix(r1, r2, m - 1);
    }
  }

  /** `delivery_time_of_rerouting`: replays the first `2 * count` slots of
      `route` from the courier's start, as the source's loop does. */
  method DeliveryTimeOfRerouting(p: Params, sol: Solution, c: int, route: seq<int>) returns (r: Time)
    requires Replayable(p, sol.View(), c, route)
    ensures r == RerouteCost(p, sol.View(), c, route)
  {
    ghost var s := sol.View();
    var capacity := p.courierCapacity[c - 1];
    var bound := sol.maxDeliveryTime;
    var m := 2 * sol.countAssigned[c - 1];
    var attributed: Time := Finite(0);
    var time := 0;
    var location := p.courierStart[c - 1];
    var load := 0;
    var i := 0;
    while i < m
      invariant 0 <= i <= m && AtLocation(p, Clock(location, time))
      invariant RerouteCostFrom(p, capacity, bound, route, m, i, Clock(location, time), load, attributed)
                == RerouteCost(p, s, c, route)
    {
      var v := route[i];
      if v > 0 {
        load := load + p.deliveryCapacity[v - 1];
        if load > capacity {
          return DoubleMax;
        }
        time := Max(time + p.distance[location][p.pickup[v - 1]], p.releaseTime[v - 1]);
        location := p.pickup[v - 1];
      } else if v < 0 {
        load := load - p.deliveryCapacity[-v - 1];
        time := time + p.distance[location][p.dropoff[-v - 1]];
        if time > bound {
          attributed := DoubleMax;
        } else {
          attributed := Plus(attributed, time);
        }
        location := p.dropoff[-v - 1];
      } else {
        break;
      }
      i := i + 1;
    }
    return attributed;
  }

  // ---------------------------------------------------------------------------
  // Installing a route
  // ---------------------------------------------------------------------------

  /** The last `j < k` with `s[j] == v`, or -1. */
  function LastIndexOf(s: seq<int>, v: int, k: int): (r: int)
    requires 0 <= k <= |s|
    ensures -1 <= r < k && (r >= 0 ==> s[r] == v)
    ensures forall j :: r < j < k ==> s[j] != v
  {
    if k == 0 then -1 else if s[k - 1] == v then k - 1 else LastIndexOf(s, v, k - 1)
  }

  /** `times` after the dropoffs among the first `k` slots stamped their
      completion times, in slot order. */
  function Stamped(p: Params, start: Clock, route: seq<int>, k: int, times: seq<Time>): (r: seq<Time>)
    requires p.Valid() && AtLocation(p, start) && RouteFits(p, route, k) && |times| == p.deliveryCount
    ensures |r| == |times|
    decreases k
  {
    if k == 0 then times
    else
      var prev := Stamped(p, start, route, k - 1, times);
      if route[k - 1] < 0 then prev[-route[k - 1] - 1 := Finite(ClockAfter(p, start, route, k).time)] else prev
  }

  /** Each delivery's time is the completion time of its last dropoff in the
      replayed slots, and untouched when it has none there. */
  lemma {:induction false} StampedMeaning(p: Params, start: Clock, route: seq<int>, k: int, times: seq<Time>, x: int)
    requires p.Valid() && AtLocation(p, start) && RouteFits(p, route, k) && |times| == p.deliveryCount
    requires 0 <= x < |times|
    ensures var j := LastIndexOf(route, -(x + 1), k);
      Stamped(p, start, route, k, times)[x]
      == if j < 0 then times[x] else Finite(ClockAfter(p, start, route, j + 1).time)
    decreases k
  {
    if k > 0 {
      StampedMeaning(p, start, route, k - 1, times, x);
    }
  }

  /** The state `apply_rerouting` leaves: the row replaced, the courier's
      attributed time and load recomputed by replaying the first `2 * count`
      slots, the dropped deliveries' times stamped, and the total moved by the
      difference of attributed times. */
  function Rerouted(p: Params, s: State, c: int, route: seq<int>): State
    requires Replayable(p, s, c, route)
  {
    var m := 2 * s.count[c - 1];
    var start := Start(p, c - 1);
    var attributed := DropoffSum(p, start, route, m);
    s.(plan := s.plan[c - 1 := route],
       deliveryTime := Stamped(p, start, route, m, s.deliveryTime),
       attributed := s.attributed[c - 1 := attributed],
       load := s.load[c - 1 := LoadAfter(p, route, m)],
       total := Plus(Plus(s.total, -s.attributed[c - 1]), attributed))
  }

  /** One iteration of `apply_rerouting`'s loop: courier `c` serves `slot`
      from `Clock(location, time)`, its load moves by the slot's capacity
      change, and a dropoff stamps the delivery's time and adds it to the
      courier's attributed time. */
  method ReplaySlot(p: Params, sol: Solution, c: int, slot: int, location: int, time: int)
    returns (location': int, time': int)
    requires p.Valid() && sol.Valid() && IsSlot(p, slot) && AtLocation(p, Clock(location, time))
    requires 1 <= c <= sol.attributedTime.Length == sol.currentLoad.Length
    requires sol.deliveryTime.Length == p.deliveryCount
    modifies sol.deliveryTime, sol.attributedTime, sol.currentLoad
    ensures Clock(location', time') == Step(p, Clock(location, time), slot)
    ensures sol.currentLoad[..] == old(sol.currentLoad[..])[c - 1 := old(sol.currentLoad[c - 1]) + LoadDelta(p, slot)]
    ensures sol.attributedTime[..]
            == old(sol.attributedTime[..])[c - 1 := old(sol.attributedTime[c - 1]) + if slot < 0 then time' else 0]
    ensures sol.deliveryTime[..]
            == if slot < 0 then old(sol.deliveryTime[..])[-slot - 1 := Finite(time')] else old(sol.deliveryTime[..])
  {
    location', time' := location, time;
    if slot > 0 {
      sol.currentLoad[c - 1] := sol.currentLoad[c - 1] + p.deliveryCapacity[slot - 1];
      time' := Max(time + p.distance[location][p.pickup[slot - 1]], p.releaseTime[slot - 1]);
      location' := p.pickup[slot - 1];
    } else if slot < 0 {
      sol.currentLoad[c - 1] := sol.currentLoad[c - 1] - p.deliveryCapacity[-slot - 1];
      sol.deliveryTime[-slot - 1] := Finite(time + p.distance[location][p.dropoff[-slot - 1]]);
      time' := time + p.distance[location][p.dropoff[-slot - 1]];
      location' := p.dropoff[-slot - 1];
      sol.attributedTime[c - 1] := sol.attributedTime[c - 1] + time';
    }
  }

  /** `apply_rerouting` */
  method ApplyRerouting(p: Params, sol: Solution, c: int, route: seq<int>)
    requires sol.Valid() && Replayable(p, sol.View(), c, route)
    modifies sol, sol.routingPlan, sol.deliveryTime, sol.attributedTime, sol.currentLoad
    ensures sol.View() == Rerouted(p, old(sol.View()), c, route)
  {
    ghost var s := sol.View();
    ghost var start := Start(p, c - 1);
    sol.routingPlan[c - 1] := route;
    var oldAttributed := sol.attributedTime[c - 1];
    sol.attributedTime[c - 1] := 0;
    var time := 0;
    sol.currentLoad[c - 1] := 0;
    var location := p.courierStart[c - 1];
    var m := 2 * sol.countAssigned[c - 1];
    var i := 0;
    while i < m
      invariant 0 <= i <= m && m == 2 * s.count[c - 1]
      invariant Clock(location, time) == ClockAfter(p, start, route, i)
      invariant sol.routingPlan[..] == s.plan[c - 1 := route]
      invariant sol.attributedTime[..] == s.attributed[c - 1 := DropoffSum(p, start, route, i)]
      invariant sol.currentLoad[..] == s.load[c - 1 := LoadAfter(p, route, i)]
      invariant sol.deliveryTime[..] == Stamped(p, start, route, i, s.deliveryTime)
      invariant sol.countAssigned[..] == s.count && sol.assignedCourier[..] == s.assignedTo
      invariant sol.totalTime == s.total && sol.feasible == s.feasible
    {
      location, time := ReplayNext(p, sol, c, route, s, i, location, time);
      i := i + 1;
    }
    sol.totalTime := Plus(Plus(sol.totalTime, -oldAttributed), sol.attributedTime[c - 1]);
  }

  /** One pass of `apply_rerouting`'s loop: slot `i` is replayed, and the
      courier's load and attributed time and the delivery times then track the
      replay of the first `i + 1` slots. */
  method ReplayNext(p: Params, sol: Solution, c: int, route: seq<int>, ghost s: State, i: int,
                    location: int, time: int)
    returns (location': int, time': int)
    requires sol.Valid() && Replayable(p, s, c, route) && 0 <= i < 2 * s.count[c - 1]
    requires Clock(location, time) == ClockAfter(p, Start(p, c - 1), route, i)
    requires sol.attributedTime[..] == s.attributed[c - 1 := DropoffSum(p, Start(p, c - 1), route, i)]
    requires sol.currentLoad[..] == s.load[c - 1 := LoadAfter(p, route, i)]
    requires sol.deliveryTime[..] == Stamped(p, Start(p, c - 1), route, i, s.deliveryTime)
    modifies sol.deliveryTime, sol.attributedTime, sol.currentLoad
    ensures Clock(location', time') == ClockAfter(p, Start(p, c - 1), route, i + 1)
    ensures sol.attributedTime[..] == s.attributed[c - 1 := DropoffSum(p, Start(p, c - 1), route, i + 1)]
    ensures sol.currentLoad[..] == s.load[c - 1 := LoadAfter(p, route, i + 1)]
    ensures sol.deliveryTime[..] == Stamped(p, Start(p, c - 1), route, i + 1, s.deliveryTime)
  {
    ghost var start := Start(p, c - 1);
    location', time' := ReplaySlot(p, sol, c, route[i], location, time);
    assert Clock(location', time') == ClockAfter(p, start, route, i + 1);
    assert LoadAfter(p, route, i + 1) == LoadAfter(p, route, i) + LoadDelta(p, route[i]);
    assert DropoffSum(p, start, route, i + 1) == DropoffSum(p, start, route, i) + if route[i] < 0 then time' else 0;
  }

  // ---------------------------------------------------------------------------
  // What installing a route does
  // ---------------------------------------------------------------------------

  /** Only courier `c`'s row, attributed time and load, the times of the
      deliveries it drops off and the total change; a full-width route with
      slots in range keeps the state well shaped. */
  lemma {:induction false} ReroutedFrame(p: Params, s: State, c: int, route: seq<int>)
    requires Replayable(p, s, c, route)
    ensures var r := Rerouted(p, s, c, route);
      && r.plan[c - 1] == route
      && (forall c' :: 0 <= c' < |s.plan| && c' != c - 1 ==>
            r.plan[c'] == s.plan[c'] && r.attributed[c'] == s.attributed[c'] && r.load[c'] == s.load[c'])
      && r.count == s.count && r.assignedTo == s.assignedTo && r.feasible == s.feasible
      && r.maxAssignable == s.maxAssignable && r.maxDeliveryTime == s.maxDeliveryTime
      && (forall x :: 0 <= x < |s.deliveryTime| && -(x + 1) !in route[..2 * s.count[c - 1]] ==>
            r.deliveryTime[x] == s.deliveryTime[x])
      && (|route| == 2 * s.maxAssignable && RouteFits(p, route, |route|) ==> Shaped(p, r))
  {
    var m := 2 * s.count[c - 1];
    var r := Rerouted(p, s, c, route);
    forall x | 0 <= x < |s.deliveryTime| && -(x + 1) !in route[..m] ensures r.deliveryTime[x] == s.deliveryTime[x] {
      StampedMeaning(p, Start(p, c - 1), route, m, s.deliveryTime, x);
    }
  }

  /** The total moves by new minus old attributed time; a sentinel total
      stays the sentinel. */
  lemma {:induction false} ReroutedTotal(p: Params, s: State, c: int, route: seq<int>)
    requires Replayable(p, s, c, route)
    ensures var r := Rerouted(p, s, c, route);
      && r.attributed[c - 1] == DropoffSum(p, Start(p, c - 1), route, 2 * s.count[c - 1])
      && (s.total.Finite? ==> r.total == Finite(s.total.value - s.attributed[c - 1] + r.attributed[c - 1]))
      && (!s.total.Finite? ==> r.total == s.total)
  {
  }

  /** The stored time of every delivery dropped in the replayed slots is the
      completion time of its last dropoff there. */
  lemma {:induction false} ReroutedTimes(p: Params, s: State, c: int, route: seq<int>, x: int)
    requires Replayable(p, s, c, route) && 0 <= x < p.deliveryCount
    ensures var m := 2 * s.count[c - 1];
      var j := LastIndexOf(route, -(x + 1), m);
      j >= 0 ==> Rerouted(p, s, c, route).deliveryTime[x] == Finite(ClockAfter(p, Start(p, c - 1), route, j + 1).time)
  {
    StampedMeaning(p, Start(p, c - 1), route, 2 * s.count[c - 1], s.deliveryTime, x);
  }

  // ---------------------------------------------------------------------------
  // Loads
  // ---------------------------------------------------------------------------

  /** The summed capacity of a list of deliveries (1-based ids). */
  function CapSum(p: Params, xs: seq<int>): int {
    if xs == [] then 0
    else
      var x := xs[|xs| - 1];
      CapSum(p, xs[..|xs| - 1]) + CapOf(p, x)
  }

  /** The capacity one delivery id contributes. */
  function CapOf(p: Params, x: int): int {
    if 1 <= x <= |p.deliveryCapacity| then p.deliveryCapacity[x - 1] else 0
  }

  lemma {:induction false} CapSumAppend(p: Params, a: seq<int>, b: seq<int>)
    ensures CapSum(p, a + b) == CapSum(p, a) + CapSum(p, b)
    decreases |b|
  {
    if b != [] {
      var ab := a + b;
      var b' := b[..|b| - 1];
      assert ab[..|ab| - 1] == a + b';
      assert ab[|ab| - 1] == b[|b| - 1];
      CapSumAppend(p, a, b');
      assert CapSum(p, ab) == CapSum(p, a + b') + CapOf(p, b[|b| - 1]);
      assert CapSum(p, b) == CapSum(p, b') + CapOf(p, b[|b| - 1]);
    } else {
      assert a + b == a;
    }
  }

  /** The summed capacity does not depend on the order. */
  lemma {:induction false} CapSumPermutation(p: Params, a: seq<int>, b: seq<int>)
    requires multiset(a) == multiset(b)
    ensures CapSum(p, a) == CapSum(p, b)
    decreases |a|
  {
    if a != [] {
      var x := a[|a| - 1];
      var a' := a[..|a| - 1];
      assert a == a' + [x];
      assert x in multiset(b);
      var m :| 0 <= m < |b| && b[m] == x;
      var b' := b[..m] + b[m + 1..];
      assert b == b[..m] + [x] + b[m + 1..];
      assert multiset(b') == multiset(a') by {
        assert multiset(b) == multiset(b[..m]) + multiset{x} + multiset(b[m + 1..]);
        assert multiset(b') == multiset(b[..m]) + multiset(b[m + 1..]);
        assert multiset(a) == multiset(a') + multiset{x};
        forall y ensures multiset(b')[y] == multiset(a')[y] {
          assert multiset(b)[y] == multiset(b')[y] + multiset{x}[y];
          assert multiset(a)[y] == multiset(a')[y] + multiset{x}[y];
        }
      }
      CapSumPermutation(p, a', b');
      CapSumAppend(p, b[..m], [x]);
      CapSumAppend(p, b[..m] + [x], b[m + 1..]);
      CapSumAppend(p, b[..m], b[m + 1..]);
      assert CapSum(p, [x]) == CapSum(p, []) + CapOf(p, x);
    }
  }

  /** The load after `k` slots is picked-up capacity minus dropped capacity. */
  lemma {:induction false} LoadIsDifference(p: Params, route: seq<int>, k: int)
    requires p.Valid() && RouteFits(p, route, k)
    ensures LoadAfter(p, route, k) == CapSum(p, Ups(route[..k])) - CapSum(p, Downs(route[..k]))
  {
    if k > 0 {
      LoadIsDifference(p, route, k - 1);
      LoadDifferenceStep(p, route, k);
    }
  }

  /** The step of `LoadIsDifference`: slot `k - 1` adds its capacity to the
      picked-up or the dropped sum, as it adds it to the load or takes it off. */
  lemma {:induction false} LoadDifferenceStep(p: Params, route: seq<int>, k: int)
    requires p.Valid() && RouteFits(p, route, k) && 0 < k
    ensures CapSum(p, Ups(route[..k])) - CapSum(p, Downs(route[..k]))
            == CapSum(p, Ups(route[..k - 1])) - CapSum(p, Downs(route[..k - 1])) + LoadDelta(p, route[k - 1])
  {
    var v, ups, downs := route[k - 1], Ups(route[..k - 1]), Downs(route[..k - 1]);
    assert IsSlot(p, v);
    UpsDownsStep(route, k - 1);
    if v > 0 {
      assert Ups(route[..k]) == ups + [v] && Downs(route[..k]) == downs + [];
      assert downs + [] == downs;
      CapSnoc(p, ups, v);
    } else if v < 0 {
      assert Downs(route[..k]) == downs + [-v] && Ups(route[..k]) == ups + [];
      assert ups + [] == ups;
      CapSnoc(p, downs, -v);
    } else {
      assert Ups(route[..k]) == ups + [] && Downs(route[..k]) == downs + [];
      assert ups + [] == ups && downs + [] == downs;
    }
  }

  /** One more id adds its capacity to the sum. */
  lemma CapSnoc(p: Params, xs: seq<int>, x: int)
    ensures CapSum(p, xs + [x]) == CapSum(p, xs) + CapOf(p, x)
  {
    assert (xs + [x])[..|xs|] == xs;
  }

  /** A route that drops off exactly what it picks up leaves the courier empty. */
  lemma {:induction false} ReroutedBalancedLoad(p: Params, s: State, c: int, route: seq<int>)
    requires Replayable(p, s, c, route)
    requires multiset(Ups(route[..2 * s.count[c - 1]])) == multiset(Downs(route[..2 * s.count[c - 1]]))
    ensures Rerouted(p, s, c, route).load[c - 1] == 0
  {
    var m := 2 * s.count[c - 1];
    LoadIsDifference(p, route, m);
    CapSumPermutation(p, Ups(route[..m]), Downs(route[..m]));
  }
}
