/** How a courier's clock, position and load evolve along a route: the rule the
    construction heuristic, the re-routing cost, re-route application and the
    validator all apply. A slot `+d` travels to delivery `d`'s pickup and waits
    for its release time; `-d` travels to its dropoff; 0 is an empty slot. */
module Replay {
  import opened Parameters
  import Times

  datatype Clock = Clock(location: int, time: int)

  predicate IsSlot(p: Params, v: int) {
    -p.deliveryCount <= v <= p.deliveryCount
  }

  predicate AtLocation(p: Params, clk: Clock) {
    0 <= clk.location < p.locationCount
  }

  predicate RouteFits(p: Params, route: seq<int>, k: int) {
    0 <= k <= |route| && forall j :: 0 <= j < k ==> IsSlot(p, route[j])
  }

  function Max(a: int, b: int): int { if a < b then b else a }

  /** The time a pickup of delivery `d` (1-based) completes when the courier
      is at `clk`: travel there, then wait for the release time. */
  function PickupStep(p: Params, clk: Clock, d: int): (r: Clock)
    requires p.Valid() && AtLocation(p, clk) && 1 <= d <= p.deliveryCount
    ensures AtLocation(p, r) && r.location == p.pickup[d - 1]
    ensures r.time >= p.releaseTime[d - 1]
    ensures r.time >= clk.time + p.distance[clk.location][p.pickup[d - 1]]
    ensures r.time == p.releaseTime[d - 1] || r.time == clk.time + p.distance[clk.location][p.pickup[d - 1]]
  {
    var loc := p.pickup[d - 1];
    Clock(loc, Max(clk.time + p.distance[clk.location][loc], p.releaseTime[d - 1]))
  }

  /** The time a dropoff of delivery `d` (1-based) completes. */
  function DropoffStep(p: Params, clk: Clock, d: int): (r: Clock)
    requires p.Valid() && AtLocation(p, clk) && 1 <= d <= p.deliveryCount
    ensures AtLocation(p, r) && r.location == p.dropoff[d - 1]
    ensures r.time - clk.time == p.distance[clk.location][p.dropoff[d - 1]]
  {
    var loc := p.dropoff[d - 1];
    Clock(loc, clk.time + p.distance[clk.location][loc])
  }

  function Step(p: Params, clk: Clock, slot: int): (r: Clock)
    requires p.Valid() && AtLocation(p, clk) && IsSlot(p, slot)
    ensures AtLocation(p, r)
  {
    if slot > 0 then PickupStep(p, clk, slot)
    else if slot < 0 then DropoffStep(p, clk, -slot)
    else clk
  }

  /** Signed capacity change of one slot. */
  function LoadDelta(p: Params, slot: int): int
    requires p.Valid() && IsSlot(p, slot)
  {
    if slot > 0 then p.deliveryCapacity[slot - 1]
    else if slot < 0 then -p.deliveryCapacity[-slot - 1]
    else 0
  }

  /** The courier's start: its location, time 0. */
  function Start(p: Params, c: int): (r: Clock)
    requires p.Valid() && 0 <= c < p.courierCount
    ensures AtLocation(p, r) && r.time == 0
  {
    Clock(p.courierStart[c], 0)
  }

  /** The clock after the first `k` slots. */
  function ClockAfter(p: Params, start: Clock, route: seq<int>, k: int): (r: Clock)
    requires p.Valid() && AtLocation(p, start) && RouteFits(p, route, k)
    ensures AtLocation(p, r)
    decreases k
  {
    if k == 0 then start else Step(p, ClockAfter(p, start, route, k - 1), route[k - 1])
  }

  /** The load on board after the first `k` slots. */
  function LoadAfter(p: Params, route: seq<int>, k: int): int
    requires p.Valid() && RouteFits(p, route, k)
    decreases k
  {
    if k == 0 then 0 else LoadAfter(p, route, k - 1) + LoadDelta(p, route[k - 1])
  }

  /** The sum of the completion times of the dropoffs among the first `k` slots. */
  function DropoffSum(p: Params, start: Clock, route: seq<int>, k: int): int
    requires p.Valid() && AtLocation(p, start) && RouteFits(p, route, k)
    decreases k
  {
    if k == 0 then 0
    else DropoffSum(p, start, route, k - 1) + (if route[k - 1] < 0 then ClockAfter(p, start, route, k).time else 0)
  }

  /** Clock, load and dropoff sum over the first `k` slots depend on those
      slots only. */
  lemma {:induction false} PrefixDetermines(p: Params, start: Clock, r1: seq<int>, r2: seq<int>, k: int)
    requires p.Valid() && AtLocation(p, start) && RouteFits(p, r1, k) && RouteFits(p, r2, k)
    requires r1[..k] == r2[..k]
    ensures ClockAfter(p, start, r1, k) == ClockAfter(p, start, r2, k)
    ensures LoadAfter(p, r1, k) == LoadAfter(p, r2, k)
    ensures DropoffSum(p, start, r1, k) == DropoffSum(p, start, r2, k)
  {
    if k > 0 {
      assert r1[..k - 1] == r1[..k][..k - 1] && r2[..k - 1] == r2[..k][..k - 1];
      assert r1[k - 1] == r1[..k][k - 1];
      PrefixDetermines(p, start, r1, r2, k - 1);
    }
  }

  /** Two consecutive stops `+d, -d` take the clock to the dropoff at
      `max(t + travel to pickup, release) + travel pickup to dropoff`. */
  lemma {:induction false} PairStep(p: Params, start: Clock, route: seq<int>, k: int, d: int)
    requires p.Valid() && AtLocation(p, start) && RouteFits(p, route, k + 2) && 0 <= k
    requires 1 <= d <= p.deliveryCount && route[k] == d && route[k + 1] == -d
    ensures ClockAfter(p, start, route, k + 2)
            == DropoffStep(p, PickupStep(p, ClockAfter(p, start, route, k), d), d)
    ensures LoadAfter(p, route, k + 2) == LoadAfter(p, route, k)
    ensures DropoffSum(p, start, route, k + 2)
            == DropoffSum(p, start, route, k) + ClockAfter(p, start, route, k + 2).time
  {
  }

  /** `delivery_time_of_rerouting`'s loop as written, from slot `i` on, with
      the running clock, load and sum: a pickup that overloads the courier
      returns the sentinel at once, a dropoff later than `bound` turns the sum
      into the sentinel (which absorbs later additions), an empty slot stops. */
  function RerouteCostFrom(p: Params, capacity: int, bound: int, route: seq<int>, m: int,
                           i: int, clk: Clock, load: int, acc: Times.Time): Times.Time
    requires p.Valid() && AtLocation(p, clk) && RouteFits(p, route, m) && 0 <= i <= m
    decreases m - i
  {
    if i == m then acc
    else
      var v := route[i];
      if v > 0 then
        var load' := load + p.deliveryCapacity[v - 1];
        if load' > capacity then Times.DoubleMax
        else RerouteCostFrom(p, capacity, bound, route, m, i + 1, Step(p, clk, v), load', acc)
      else if v < 0 then
        var clk' := Step(p, clk, v);
        var acc' := if clk'.time > bound then Times.DoubleMax else Times.Plus(acc, clk'.time);
        RerouteCostFrom(p, capacity, bound, route, m, i + 1, clk', load - p.deliveryCapacity[-v - 1], acc')
      else acc
  }

  /** The index of the first empty slot among the first `m`, or `m`. */
  function FirstEmpty(route: seq<int>, m: int): (e: int)
    requires 0 <= m <= |route|
    ensures 0 <= e <= m
    ensures forall j :: 0 <= j < e ==> route[j] != 0
    ensures e < m ==> route[e] == 0
  {
    if m == 0 then 0
    else if FirstEmpty(route, m - 1) < m - 1 then FirstEmpty(route, m - 1)
    else if route[m - 1] == 0 then m - 1 else m
  }

  /** Some pickup among slots [lo, hi) leaves more than `capacity` on board. */
  predicate Overloaded(p: Params, capacity: int, route: seq<int>, lo: int, hi: int)
    requires p.Valid() && RouteFits(p, route, hi) && 0 <= lo
  {
    exists j :: lo <= j < hi && route[j] > 0 && LoadAfter(p, route, j + 1) > capacity
  }

  /** Some dropoff among slots [lo, hi) completes after `bound`. */
  predicate Late(p: Params, bound: int, start: Clock, route: seq<int>, lo: int, hi: int)
    requires p.Valid() && AtLocation(p, start) && RouteFits(p, route, hi) && 0 <= lo
  {
    exists j :: lo <= j < hi && route[j] < 0 && ClockAfter(p, start, route, j + 1).time > bound
  }

  lemma {:induction false} OverloadedLateStep(
    p: Params, capacity: int, bound: int, start: Clock, route: seq<int>, i: int, e: int)
    requires p.Valid() && AtLocation(p, start) && RouteFits(p, route, e) && 0 <= i < e
    ensures Overloaded(p, capacity, route, i, e) <==>
              (route[i] > 0 && LoadAfter(p, route, i + 1) > capacity) || Overloaded(p, capacity, route, i + 1, e)
    ensures Late(p, bound, start, route, i, e) <==>
              (route[i] < 0 && ClockAfter(p, start, route, i + 1).time > bound) || Late(p, bound, start, route, i + 1, e)
  {
    if Overloaded(p, capacity, route, i, e) {
      var j :| i <= j < e && route[j] > 0 && LoadAfter(p, route, j + 1) > capacity;
      if j > i { assert Overloaded(p, capacity, route, i + 1, e); }
    }
    if Late(p, bound, start, route, i, e) {
      var j :| i <= j < e && route[j] < 0 && ClockAfter(p, start, route, j + 1).time > bound;
      if j > i { assert Late(p, bound, start, route, i + 1, e); }
    }
  }

  /** The loop's result, stated without the loop: the sentinel when a pickup
      before the first empty slot overloads the courier or a dropoff before it
      is late, otherwise the sum of the dropoff times before it. */
  lemma RerouteCostFromCharacterized(
    p: Params, capacity: int, bound: int, start: Clock, route: seq<int>, m: int, i: int, acc: Times.Time)
    requires p.Valid() && AtLocation(p, start) && RouteFits(p, route, m)
    requires 0 <= i <= FirstEmpty(route, m)
    requires acc == Times.DoubleMax || acc.Finite?
    ensures
      var e := FirstEmpty(route, m);
      RerouteCostFrom(p, capacity, bound, route, m, i, ClockAfter(p, start, route, i), LoadAfter(p, route, i), acc)
      == if Overloaded(p, capacity, route, i, e) || Late(p, bound, start, route, i, e) || acc == Times.DoubleMax
         then Times.DoubleMax
         else Times.Finite(acc.value + DropoffSum(p, start, route, e) - DropoffSum(p, start, route, i))
  {
    CostFromRest(p, capacity, bound, start, route, m, i, acc);
  }

  /** The right-hand side of `RerouteCostFromCharacterized`. */
  function Rest(p: Params, capacity: int, bound: int, start: Clock, route: seq<int>, m: int, i: int, acc: Times.Time)
    : Times.Time
    requires p.Valid() && AtLocation(p, start) && RouteFits(p, route, m)
    requires 0 <= i <= FirstEmpty(route, m)
    requires acc == Times.DoubleMax || acc.Finite?
  {
    var e := FirstEmpty(route, m);
    if Overloaded(p, capacity, route, i, e) || Late(p, bound, start, route, i, e) || acc == Times.DoubleMax
    then Times.DoubleMax
    else Times.Finite(acc.value + DropoffSum(p, start, route, e) - DropoffSum(p, start, route, i))
  }

  lemma {:induction false} CostFromRest(
    p: Params, capacity: int, bound: int, start: Clock, route: seq<int>, m: int, i: int, acc: Times.Time)
    requires p.Valid() && AtLocation(p, start) && RouteFits(p, route, m)
    requires 0 <= i <= FirstEmpty(route, m)
    requires acc == Times.DoubleMax || acc.Finite?
    ensures RerouteCostFrom(p, capacity, bound, route, m, i, ClockAfter(p, start, route, i), LoadAfter(p, route, i), acc)
            == Rest(p, capacity, bound, start, route, m, i, acc)
    decreases m - i
  {
    var e := FirstEmpty(route, m);
    var clk, load := ClockAfter(p, start, route, i), LoadAfter(p, route, i);
    if i == e {
      assert !Overloaded(p, capacity, route, i, e) && !Late(p, bound, start, route, i, e);
    } else {
      var v := route[i];
      var next := ClockAfter(p, start, route, i + 1);
      var acc' := if v > 0 then acc else if next.time > bound then Times.DoubleMax else Times.Plus(acc, next.time);
      CostFromStep(p, capacity, bound, route, m, i, clk, load, acc);
      RestStep(p, capacity, bound, start, route, m, i, acc);
      if !(v > 0 && LoadAfter(p, route, i + 1) > capacity) {
        CostFromRest(p, capacity, bound, start, route, m, i + 1, acc');
      }
    }
  }

  /** One iteration of the loop: a pickup that overloads returns the
      sentinel, any other nonempty slot moves on with the stepped clock and
      load and, at a dropoff, the stepped sum. */
  lemma CostFromStep(p: Params, capacity: int, bound: int, route: seq<int>, m: int,
                     i: int, clk: Clock, load: int, acc: Times.Time)
    requires p.Valid() && AtLocation(p, clk) && RouteFits(p, route, m) && 0 <= i < m && route[i] != 0
    ensures var v, next := route[i], Step(p, clk, route[i]);
      RerouteCostFrom(p, capacity, bound, route, m, i, clk, load, acc)
      == if v > 0 && load + LoadDelta(p, v) > capacity then Times.DoubleMax
         else RerouteCostFrom(p, capacity, bound, route, m, i + 1, next, load + LoadDelta(p, v),
                              if v > 0 then acc else if next.time > bound then Times.DoubleMax else Times.Plus(acc, next.time))
  {
  }

  /** `Rest` from slot `i` in terms of `Rest` from slot `i + 1`. */
  lemma RestStep(p: Params, capacity: int, bound: int, start: Clock, route: seq<int>, m: int, i: int, acc: Times.Time)
    requires p.Valid() && AtLocation(p, start) && RouteFits(p, route, m)
    requires 0 <= i < FirstEmpty(route, m)
    requires acc == Times.DoubleMax || acc.Finite?
    ensures var v, next := route[i], ClockAfter(p, start, route, i + 1);
      && next == Step(p, ClockAfter(p, start, route, i), v)
      && LoadAfter(p, route, i + 1) == LoadAfter(p, route, i) + LoadDelta(p, v)
      && Rest(p, capacity, bound, start, route, m, i, acc)
         == if v > 0 && LoadAfter(p, route, i + 1) > capacity then Times.DoubleMax
            else Rest(p, capacity, bound, start, route, m, i + 1,
                      if v > 0 then acc else if next.time > bound then Times.DoubleMax else Times.Plus(acc, next.time))
  {
    OverloadedLateStep(p, capacity, bound, start, route, i, FirstEmpty(route, m));
  }
}
