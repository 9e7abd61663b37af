/** The validator (`is_feasible`): a read-only re-check of a solution in six
    passes (assignment, pickup-before-dropoff order, time windows, capacity,
    travel times, objective total). Once the solution's own flag is set every
    pass runs to the end, and the verdict is the conjunction of all of them. */
module Feasibility {
  import opened Times
  import opened Parameters
  import opened Solutions
  import opened Replay

  // ---------------------------------------------------------------------------
  // Comparisons on doubles
  // ---------------------------------------------------------------------------

  /** `t > x` for a stored time `t` and a finite replayed time `x`: both
      sentinels are larger than every finite time. */
  predicate Exceeds(t: Time, x: int) {
    match t
    case Finite(v) => v > x
    case _ => true
  }

  /** `std::abs(a - b) > 1e-6` on integer-valued doubles. Equal finite values
      and DBL_MAX - DBL_MAX give 0; infinity - infinity is NaN, and a NaN
      comparison is false; every other mixed pair differs by at least DBL_MAX. */
  function Differs(a: Time, b: Time): (r: bool)
    ensures r <==> a != b
  {
    match (a, b)
    case (Finite(x), Finite(y)) => x != y
    case (DoubleMax, DoubleMax) => false
    case (Infinity, Infinity) => false
    case (_, _) => true
  }

  /** The double sum `0 + ts[0] + ts[1] + ...`, left to right. */
  function SumTimes(ts: seq<Time>): Time {
    SumFirst(ts, |ts|)
  }

  /** The double sum of the first `n` terms. */
  function SumFirst(ts: seq<Time>, n: nat): Time
    requires n <= |ts|
  {
    if n == 0 then Finite(0) else Add(SumFirst(ts, n - 1), ts[n - 1])
  }

  /** The exact sum of the values, when every term is finite. */
  function SumValues(ts: seq<Time>): int
    requires forall i :: 0 <= i < |ts| ==> ts[i].Finite?
  {
    ValuesFirst(ts, |ts|)
  }

  function ValuesFirst(ts: seq<Time>, n: nat): int
    requires n <= |ts| && forall i :: 0 <= i < n ==> ts[i].Finite?
  {
    if n == 0 then 0 else ValuesFirst(ts, n - 1) + ts[n - 1].value
  }

  /** The sum is finite exactly when every term is, and is then the sum of the values. */
  lemma SumTimesMeaning(ts: seq<Time>)
    ensures SumTimes(ts).Finite? <==> forall i :: 0 <= i < |ts| ==> ts[i].Finite?
    ensures (forall i :: 0 <= i < |ts| ==> ts[i].Finite?) ==> SumTimes(ts) == Finite(SumValues(ts))
  {
    SumFirstMeaning(ts, |ts|);
  }

  lemma {:induction false} SumFirstMeaning(ts: seq<Time>, n: nat)
    requires n <= |ts|
    ensures SumFirst(ts, n).Finite? <==> forall i :: 0 <= i < n ==> ts[i].Finite?
    ensures (forall i :: 0 <= i < n ==> ts[i].Finite?) ==> SumFirst(ts, n) == Finite(ValuesFirst(ts, n))
  {
    if n > 0 {
      SumFirstMeaning(ts, n - 1);
      if !ts[n - 1].Finite? {
        assert !SumFirst(ts, n).Finite?;
      } else if !SumFirst(ts, n - 1).Finite? {
        var i :| 0 <= i < n - 1 && !ts[i].Finite?;
      }
    }
  }

  // ---------------------------------------------------------------------------
  // What each pass accepts
  // ---------------------------------------------------------------------------

  /** The reads the validator makes stay in range: with the flag set, every
      delivery names a courier `1..courier_count` (passes 2 and 3 index that
      courier's row), and the replayed prefix of delivery 1's courier has no
      empty slot (pass 3 with loop index 0 reads `delivery_delivery_time[-1]`
      at every slot equal to `-0`). */
  predicate ChecksInRange(p: Params, s: State) {
    && Shaped(p, s)
    && (s.feasible ==>
          && (forall d :: 0 <= d < |s.assignedTo| ==> 1 <= s.assignedTo[d] <= p.courierCount)
          && (|s.assignedTo| > 0 ==>
                NoEmptySlot(s.plan[s.assignedTo[0] - 1], 2 * s.count[s.assignedTo[0] - 1])))
  }

  predicate NoEmptySlot(row: seq<int>, m: int)
    requires 0 <= m <= |row|
  {
    forall j :: 0 <= j < m ==> row[j] != 0
  }

  /** Pass 1: every delivery has a positive courier id. */
  predicate AllAssigned(s: State) {
    forall d :: 0 <= d < |s.assignedTo| ==> s.assignedTo[d] > 0
  }

  /** Slot `j` of `row` is where the scan first sees `-i` with `i` still unseen. */
  predicate EarlyDrop(row: seq<int>, i: int, j: int)
    requires 0 <= j < |row|
  {
    -i in row[..j + 1] && i !in row[..j + 1]
  }

  /** Pass 2 for delivery `i` on `row`: picked up, delivered, and no slot of
      the scan has seen the dropoff without the pickup. */
  predicate InOrder(row: seq<int>, i: int) {
    i in row && -i in row && forall j :: 0 <= j < |row| ==> !EarlyDrop(row, i, j)
  }

  /** Pass 2 accepts delivery `i` exactly when `+i` and `-i` occur and every
      `-i` has a `+i` before it. */
  lemma {:induction false} InOrderMeaning(row: seq<int>, i: int)
    requires i >= 1
    ensures InOrder(row, i) <==>
      i in row && -i in row && forall j :: 0 <= j < |row| && row[j] == -i ==> i in row[..j]
  {
    if InOrder(row, i) {
      forall j | 0 <= j < |row| && row[j] == -i ensures i in row[..j] {
        assert !EarlyDrop(row, i, j);
        assert row[..j + 1] == row[..j] + [row[j]];
      }
    }
    if i in row && -i in row && forall j :: 0 <= j < |row| && row[j] == -i ==> i in row[..j] {
      forall j | 0 <= j < |row| ensures !EarlyDrop(row, i, j) {
        if -i in row[..j + 1] {
          var a :| 0 <= a <= j && row[a] == -i;
          assert row[..a] <= row[..j + 1];
          assert i in row[..a];
        }
      }
    }
  }

  /** Pass 2 for delivery `i` (1-based) on the row of its courier. */
  predicate DeliveryInOrder(p: Params, s: State, i: int)
    requires Shaped(p, s) && 1 <= i <= |s.assignedTo| && 1 <= s.assignedTo[i - 1] <= p.courierCount
  {
    InOrder(s.plan[s.assignedTo[i - 1] - 1], i)
  }

  /** Pass 2 over all deliveries, each on its courier's full row. */
  predicate OrdersOk(p: Params, s: State)
    requires ChecksInRange(p, s) && s.feasible
  {
    forall i :: 1 <= i <= |s.assignedTo| ==> DeliveryInOrder(p, s, i)
  }

  /** The replayed time after slot `j` of the row of courier `c` (1-based). */
  function ReplayTime(p: Params, s: State, c: int, j: int): int
    requires Shaped(p, s) && 1 <= c <= p.courierCount && 0 <= j < 2 * s.maxAssignable
  {
    ClockAfter(p, Start(p, c - 1), s.plan[c - 1], j + 1).time
  }

  /** Pass 3, loop index `d`, slot `j` of the courier of delivery `d + 1`: a
      dropoff's stored time is not after the replayed arrival, and a slot
      holding `-d` has replayed time exactly `delivery_delivery_time[d - 1]`. */
  predicate WindowSlotOk(p: Params, s: State, d: int, j: int)
    requires ChecksInRange(p, s) && s.feasible && 0 <= d < |s.assignedTo|
    requires 0 <= j < 2 * s.count[s.assignedTo[d] - 1]
  {
    var c := s.assignedTo[d];
    var v := s.plan[c - 1][j];
    var t := ReplayTime(p, s, c, j);
    assert d == 0 ==> NoEmptySlot(s.plan[c - 1], 2 * s.count[c - 1]);
    && (v < 0 ==> !Exceeds(s.deliveryTime[-v - 1], t))
    && (v == -d ==> Finite(t) == s.deliveryTime[d - 1])
  }

  predicate WindowsOk(p: Params, s: State)
    requires ChecksInRange(p, s) && s.feasible
  {
    forall d, j :: 0 <= d < |s.assignedTo| && 0 <= j < 2 * s.count[s.assignedTo[d] - 1] ==>
      WindowSlotOk(p, s, d, j)
  }

  /** Pass 4 for courier `c` (0-based): the running load after every slot of
      the full row is at most the courier's capacity. */
  predicate CapacityOk(p: Params, s: State, c: int)
    requires Shaped(p, s) && 0 <= c < p.courierCount
  {
    forall j :: 0 <= j < 2 * s.maxAssignable ==> LoadOk(p, s, c, j)
  }

  /** The running load after slot `j` of courier `c`'s row is within its capacity. */
  predicate LoadOk(p: Params, s: State, c: int, j: int)
    requires Shaped(p, s) && 0 <= c < p.courierCount && 0 <= j < 2 * s.maxAssignable
  {
    LoadAfter(p, s.plan[c], j + 1) <= p.courierCapacity[c]
  }

  /** Pass 5 for courier `c` (0-based): along the full row, no dropoff's
      stored time is after the replayed arrival. */
  predicate TravelOk(p: Params, s: State, c: int)
    requires Shaped(p, s) && 0 <= c < p.courierCount
  {
    forall j :: 0 <= j < 2 * s.maxAssignable ==> ArrivalOk(p, s, c, j)
  }

  /** Slot `j` of courier `c`'s row is not a dropoff whose stored time is after
      the replayed arrival. */
  predicate ArrivalOk(p: Params, s: State, c: int, j: int)
    requires Shaped(p, s) && 0 <= c < p.courierCount && 0 <= j < 2 * s.maxAssignable
  {
    s.plan[c][j] < 0 ==> !Exceeds(s.deliveryTime[-s.plan[c][j] - 1], ReplayTime(p, s, c + 1, j))
  }

  /** Pass 6: the stored times sum to the total. */
  predicate TotalOk(s: State) {
    !Differs(SumTimes(s.deliveryTime), s.total)
  }

  /** Pass 6 accepts exactly a total equal to the double sum (a NaN never compares equal). */
  lemma TotalOkMeaning(s: State)
    ensures TotalOk(s) <==> SumTimes(s.deliveryTime) == s.total
  {
  }

  /** `is_feasible`: the flag, then the conjunction of the six passes. */
  predicate Feasible(p: Params, s: State)
    requires ChecksInRange(p, s)
  {
    && s.feasible
    && AllAssigned(s)
    && OrdersOk(p, s)
    && WindowsOk(p, s)
    && (forall c :: 0 <= c < p.courierCount ==> CapacityOk(p, s, c))
    && (forall c :: 0 <= c < p.courierCount ==> TravelOk(p, s, c))
    && TotalOk(s)
  }

  /** Pass 3's arrival test repeats part of pass 5: a solution that passes 5
      passes it (pass 3 replays a prefix of the row pass 5 replays). */
  lemma {:induction false} TravelCoversWindows(p: Params, s: State, d: int, j: int)
    requires ChecksInRange(p, s) && s.feasible && 0 <= d < |s.assignedTo|
    requires 0 <= j < 2 * s.count[s.assignedTo[d] - 1]
    requires TravelOk(p, s, s.assignedTo[d] - 1)
    ensures var v := s.plan[s.assignedTo[d] - 1][j];
      v < 0 ==> !Exceeds(s.deliveryTime[-v - 1], ReplayTime(p, s, s.assignedTo[d], j))
  {
    var c := s.assignedTo[d] - 1;
    assert ArrivalOk(p, s, c, j);
  }

  /** With non-negative capacities pass 4 fails exactly when some pickup
      overloads the courier: between pickups the load only falls. */
  lemma {:induction false} CapacityOkMeaning(p: Params, s: State, c: int)
    requires Shaped(p, s) && 0 <= c < p.courierCount && p.courierCapacity[c] >= 0
    requires forall d :: 0 <= d < p.deliveryCount ==> p.deliveryCapacity[d] >= 0
    ensures CapacityOk(p, s, c) <==> !Overloaded(p, p.courierCapacity[c], s.plan[c], 0, 2 * s.maxAssignable)
  {
    var row, cap, m := s.plan[c], p.courierCapacity[c], 2 * s.maxAssignable;
    if !CapacityOk(p, s, c) {
      var j :| 0 <= j < m && !LoadOk(p, s, c, j);
      LastPickupOverloads(p, row, cap, j);
    }
    if Overloaded(p, cap, row, 0, m) {
      var j :| 0 <= j < m && row[j] > 0 && LoadAfter(p, row, j + 1) > cap;
      assert !LoadOk(p, s, c, j);
    }
  }

  /** A load above a non-negative capacity after slot `j` was reached at a
      pickup at or before `j`. */
  lemma {:induction false} LastPickupOverloads(p: Params, row: seq<int>, cap: int, j: int)
    requires p.Valid() && RouteFits(p, row, |row|) && 0 <= j < |row| && cap >= 0
    requires forall d :: 0 <= d < p.deliveryCount ==> p.deliveryCapacity[d] >= 0
    requires LoadAfter(p, row, j + 1) > cap
    ensures exists a :: 0 <= a <= j && row[a] > 0 && LoadAfter(p, row, a + 1) > cap
    decreases j
  {
    if row[j] <= 0 {
      assert LoadAfter(p, row, j) >= LoadAfter(p, row, j + 1);
      if j == 0 {
        assert false;
      } else {
        LastPickupOverloads(p, row, cap, j - 1);
      }
    }
  }

  // ---------------------------------------------------------------------------
  // The validator as evidently intended
  // ---------------------------------------------------------------------------

  /** Pass 3 slot check with the delivery's own id: slot `j` of the courier of
      delivery `d + 1` is not a dropoff stored later than its arrival, and a slot
      holding `-(d + 1)` has replayed time exactly `delivery_delivery_time[d]`. */
  predicate OwnSlotOk(p: Params, s: State, d: int, j: int)
    requires Shaped(p, s) && 0 <= d < |s.assignedTo| && 1 <= s.assignedTo[d] <= p.courierCount
    requires 0 <= j < 2 * s.count[s.assignedTo[d] - 1]
  {
    var c := s.assignedTo[d];
    var v := s.plan[c - 1][j];
    var t := ReplayTime(p, s, c, j);
    && (v < 0 ==> !Exceeds(s.deliveryTime[-v - 1], t))
    && (v == -(d + 1) ==> Finite(t) == s.deliveryTime[d])
  }

  /** The validator with both index slips corrected: defined on every well
      shaped solution, a delivery whose courier id is outside
      `1..courier_count` fails instead of indexing outside the plan, and the
      exact-time test of pass 3 compares each delivery with its own dropoff. */
  predicate Validated(p: Params, s: State)
    requires Shaped(p, s)
  {
    && s.feasible
    && (forall d :: 0 <= d < |s.assignedTo| ==> 1 <= s.assignedTo[d] <= p.courierCount)
    && (forall i :: 1 <= i <= |s.assignedTo| ==> DeliveryInOrder(p, s, i))
    && (forall d, j :: 0 <= d < |s.assignedTo| && 0 <= j < 2 * s.count[s.assignedTo[d] - 1] ==>
          OwnSlotOk(p, s, d, j))
    && (forall c :: 0 <= c < p.courierCount ==> CapacityOk(p, s, c))
    && (forall c :: 0 <= c < p.courierCount ==> TravelOk(p, s, c))
    && TotalOk(s)
  }

  /** Delivery `d + 1` is dropped within the replayed prefix of its courier's row. */
  predicate DroppedInPrefix(p: Params, s: State, d: int)
    requires Shaped(p, s) && 0 <= d < |s.assignedTo| && 1 <= s.assignedTo[d] <= p.courierCount
  {
    var c := s.assignedTo[d];
    -(d + 1) in s.plan[c - 1][..2 * s.count[c - 1]]
  }

  /** An accepted solution whose deliveries are all dropped in the replayed
      prefixes has every stored time equal to a replayed dropoff time, hence
      finite, and a finite total that is their sum. */
  lemma {:induction false} ValidatedObjective(p: Params, s: State)
    requires Shaped(p, s) && Validated(p, s)
    requires forall d :: 0 <= d < |s.assignedTo| ==> DroppedInPrefix(p, s, d)
    ensures forall d :: 0 <= d < |s.assignedTo| ==> StoredIsReplayed(p, s, d)
    ensures forall d :: 0 <= d < |s.deliveryTime| ==> s.deliveryTime[d].Finite?
    ensures s.total == Finite(SumValues(s.deliveryTime))
  {
    forall d | 0 <= d < |s.assignedTo| ensures StoredIsReplayed(p, s, d) {
      var c := s.assignedTo[d];
      var m := 2 * s.count[c - 1];
      assert DroppedInPrefix(p, s, d);
      var j :| 0 <= j < m && s.plan[c - 1][..m][j] == -(d + 1);
      assert s.plan[c - 1][j] == -(d + 1);
      assert OwnSlotOk(p, s, d, j);
      assert s.deliveryTime[d] == Finite(ReplayTime(p, s, c, j));
    }
    forall d | 0 <= d < |s.deliveryTime| ensures s.deliveryTime[d].Finite? {
      assert StoredIsReplayed(p, s, d);
    }
    SumTimesMeaning(s.deliveryTime);
  }

  /** The stored time of delivery `d + 1` is the replayed time of a slot
      dropping it within the replayed prefix of its courier's row. */
  predicate StoredIsReplayed(p: Params, s: State, d: int)
    requires Shaped(p, s) && 0 <= d < |s.assignedTo| && 1 <= s.assignedTo[d] <= p.courierCount
  {
    var c := s.assignedTo[d];
    exists j :: 0 <= j < 2 * s.count[c - 1] && s.plan[c - 1][j] == -(d + 1)
             && s.deliveryTime[d] == Finite(ReplayTime(p, s, c, j))
  }

  /** An unassigned delivery is rejected. */
  lemma {:induction false} ValidatedRejectsUnassigned(p: Params, s: State, d: int)
    requires Shaped(p, s) && 0 <= d < |s.assignedTo| && s.assignedTo[d] <= 0
    ensures !Validated(p, s)
  {
  }

  // ---------------------------------------------------------------------------
  // Inputs that show the two slips
  // ---------------------------------------------------------------------------

  /** One courier at location 0 with capacity 10; one delivery of size 1 from
      location 0 to location 1, five minutes apart, released at 0. */
  function OneDelivery(): Params {
    Params(1, [1], [0], [0], [1], 1, [10], [0], 2, [[0, 5], [5, 0]], [[1], [0]], [[1], [1]])
  }

  /** The courier serves the delivery and the plan's replay drops it at 5,
      but the stored dropoff time is `t`; the total agrees with the stored time. */
  function StaleTime(t: int): State {
    State(true, 4, 180, Finite(t), [[1, -1, 0, 0, 0, 0, 0, 0]], [1], [Finite(t)], [1], [t], [0])
  }

  /** As written, pass 3 looks for `-0` rather than `-1`, so any stored time
      before the replayed arrival goes through every pass. */
  lemma StaleTimeAccepted(t: int)
    requires t < 5
    ensures ChecksInRange(OneDelivery(), StaleTime(t)) && Feasible(OneDelivery(), StaleTime(t))
  {
    StaleTimeOrders(t);
    StaleTimeRoute(t);
    StaleTimeWindows(t);
    StaleTimeTotal(t);
    FeasibleFromPasses(OneDelivery(), StaleTime(t));
  }

  /** The verdict from the passes one by one. */
  lemma FeasibleFromPasses(p: Params, s: State)
    requires ChecksInRange(p, s) && s.feasible && AllAssigned(s) && TotalOk(s)
    requires OrdersOk(p, s) && WindowsOk(p, s)
    requires forall c :: 0 <= c < p.courierCount ==> CapacityOk(p, s, c) && TravelOk(p, s, c)
    ensures Feasible(p, s)
  {
  }

  lemma StaleTimeTotal(t: int)
    ensures TotalOk(StaleTime(t)) && AllAssigned(StaleTime(t))
  {
    var ts := StaleTime(t).deliveryTime;
    assert SumFirst(ts, 1) == Add(SumFirst(ts, 0), Finite(t)) == Finite(t);
    assert SumTimes(ts) == StaleTime(t).total;
  }

  lemma StaleTimeOrders(t: int)
    ensures ChecksInRange(OneDelivery(), StaleTime(t)) && OrdersOk(OneDelivery(), StaleTime(t))
  {
    StaleTimeShaped(t);
    StaleTimeInOrder(t);
    assert DeliveryInOrder(OneDelivery(), StaleTime(t), 1);
  }

  lemma StaleTimeWindows(t: int)
    requires t <= 5
    ensures ChecksInRange(OneDelivery(), StaleTime(t)) && WindowsOk(OneDelivery(), StaleTime(t))
  {
    var p, s := OneDelivery(), StaleTime(t);
    StaleTimeShaped(t);
    LoadsOfOneDelivery(p, s.plan[0], 1);
    LoadsOfOneDelivery(p, s.plan[0], 2);
    assert WindowSlotOk(p, s, 0, 0) && WindowSlotOk(p, s, 0, 1);
  }

  /** The stored time differs from the replayed dropoff time 5, and the
      corrected validator says so. */
  lemma StaleTimeRejected(t: int)
    requires t != 5
    ensures Shaped(OneDelivery(), StaleTime(t))
    ensures ReplayTime(OneDelivery(), StaleTime(t), 1, 1) == 5 && StaleTime(t).deliveryTime[0] == Finite(t)
    ensures !Validated(OneDelivery(), StaleTime(t))
  {
    var p, s := OneDelivery(), StaleTime(t);
    StaleTimeShaped(t);
    LoadsOfOneDelivery(p, s.plan[0], 2);
    assert !OwnSlotOk(p, s, 0, 1);
  }

  lemma StaleTimeShaped(t: int)
    ensures ChecksInRange(OneDelivery(), StaleTime(t))
  {
    var s := StaleTime(t);
    assert NoEmptySlot(s.plan[0], 2);
  }

  lemma StaleTimeInOrder(t: int)
    ensures InOrder(StaleTime(t).plan[0], 1)
  {
    var row := StaleTime(t).plan[0];
    assert row[..1] == [1];
    forall j | 0 <= j < |row| ensures !EarlyDrop(row, 1, j) {
      assert row[..j + 1][0] == 1;
    }
  }

  lemma StaleTimeRoute(t: int)
    requires t <= 5
    ensures forall c :: 0 <= c < OneDelivery().courierCount ==>
      CapacityOk(OneDelivery(), StaleTime(t), c) && TravelOk(OneDelivery(), StaleTime(t), c)
  {
    var p, s := OneDelivery(), StaleTime(t);
    StaleTimeShaped(t);
    forall j | 0 <= j < 8 ensures LoadOk(p, s, 0, j) && ArrivalOk(p, s, 0, j) {
      LoadsOfOneDelivery(p, s.plan[0], j + 1);
    }
  }

  lemma {:induction false} LoadsOfOneDelivery(p: Params, row: seq<int>, k: int)
    requires p == OneDelivery() && row == [1, -1, 0, 0, 0, 0, 0, 0] && 1 <= k <= 8
    ensures LoadAfter(p, row, k) == if k == 1 then 1 else 0
    ensures ClockAfter(p, Start(p, 0), row, k) == if k == 1 then Clock(0, 0) else Clock(1, 5)
  {
    if k > 2 {
      LoadsOfOneDelivery(p, row, k - 1);
    }
  }

  /** With the flag set and delivery 1 unassigned, pass 2 of the validator as
      written indexes row `-1` of the plan: the solution lies outside what the
      validator can check, though it is exactly what pass 1 is there to report.
      The corrected validator rejects it. */
  lemma UnassignedReadsRowMinusOne()
    ensures var s := StaleTime(5).(assignedTo := [0]);
      && Shaped(OneDelivery(), s) && s.feasible && !AllAssigned(s)
      && s.assignedTo[0] - 1 == -1
      && !ChecksInRange(OneDelivery(), s)
      && !Validated(OneDelivery(), s)
  {
    var s := StaleTime(5).(assignedTo := [0]);
    assert Shaped(OneDelivery(), s);
  }

  // ---------------------------------------------------------------------------
  // The passes as the source runs them
  // ---------------------------------------------------------------------------

  /** Pass 1. */
  method CheckAssigned(p: Params, sol: Solution) returns (ok: bool)
    requires ChecksInRange(p, sol.View())
    ensures ok == AllAssigned(sol.View())
  {
    ok := true;
    var i := 0;
    while i < p.deliveryCount
      invariant 0 <= i <= p.deliveryCount
      invariant ok == forall d :: 0 <= d < i ==> sol.assignedCourier[d] > 0
    {
      if sol.assignedCourier[i] <= 0 {
        ok := false;
      }
      i := i + 1;
    }
  }

  /** Pass 2, delivery `i`: scans the full row of its courier. */
  method CheckOrder(p: Params, sol: Solution, i: int) returns (ok: bool)
    requires ChecksInRange(p, sol.View()) && sol.feasible && 1 <= i <= p.deliveryCount
    ensures ok == DeliveryInOrder(p, sol.View(), i)
  {
    var courier := sol.assignedCourier[i - 1];
    var row := sol.routingPlan[courier - 1];
    var pickedUp, delivered := false, false;
    ok := true;
    var j := 0;
    while j < 2 * sol.maxAssignable
      invariant 0 <= j <= 2 * sol.maxAssignable == |row|
      invariant pickedUp == (i in row[..j]) && delivered == (-i in row[..j])
      invariant ok == forall j' :: 0 <= j' < j ==> !EarlyDrop(row, i, j')
    {
      assert row[..j + 1] == row[..j] + [row[j]];
      if row[j] == i {
        pickedUp := true;
      }
      if row[j] == -i {
        delivered := true;
      }
      assert EarlyDrop(row, i, j) == (delivered && !pickedUp);
      if delivered && !pickedUp {
        ok := false;
      }
      j := j + 1;
    }
    assert row[..j] == row;
    if !pickedUp {
      ok := false;
    }
    if !delivered {
      ok := false;
    }
  }

  /** Pass 2. */
  method CheckOrders(p: Params, sol: Solution) returns (ok: bool)
    requires ChecksInRange(p, sol.View()) && sol.feasible
    ensures ok == OrdersOk(p, sol.View())
  {
    ok := true;
    var i := 1;
    while i <= p.deliveryCount
      invariant 1 <= i <= p.deliveryCount + 1
      invariant ok == forall i' :: 1 <= i' < i ==> DeliveryInOrder(p, sol.View(), i')
    {
      var here := CheckOrder(p, sol, i);
      if !here {
        ok := false;
      }
      i := i + 1;
    }
  }

  /** Pass 3, one loop index `d`: replays the prefix of the courier of
      delivery `d + 1`. */
  method CheckWindow(p: Params, sol: Solution, d: int) returns (ok: bool)
    requires ChecksInRange(p, sol.View()) && sol.feasible && 0 <= d < p.deliveryCount
    ensures ok == forall j :: 0 <= j < 2 * sol.countAssigned[sol.assignedCourier[d] - 1] ==>
                  WindowSlotOk(p, sol.View(), d, j)
  {
    ghost var s := sol.View();
    var courier := sol.assignedCourier[d];
    var row := sol.routingPlan[courier - 1];
    var time := 0;
    var location := p.courierStart[courier - 1];
    assert row == s.plan[courier - 1];
    assert d == 0 ==> NoEmptySlot(row, 2 * s.count[courier - 1]);
    ok := true;
    var j := 0;
    while j < 2 * sol.countAssigned[courier - 1]
      invariant 0 <= j <= 2 * s.count[courier - 1]
      invariant Clock(location, time) == ClockAfter(p, Start(p, courier - 1), row, j)
      invariant ok == forall j' :: 0 <= j' < j ==> WindowSlotOk(p, s, d, j')
    {
      var v := row[j];
      if v > 0 {
        time := time + p.distance[location][p.pickup[v - 1]];
        if time < p.releaseTime[v - 1] {
          time := p.releaseTime[v - 1];
        }
        location := p.pickup[v - 1];
      } else if v < 0 {
        time := time + p.distance[location][p.dropoff[-v - 1]];
        if Exceeds(sol.deliveryTime[-v - 1], time) {
          ok := false;
        }
        location := p.dropoff[-v - 1];
      }
      assert Clock(location, time) == ClockAfter(p, Start(p, courier - 1), row, j + 1);
      if v == -d {
        if Finite(time) != sol.deliveryTime[d - 1] {
          ok := false;
        }
      }
      assert WindowSlotOk(p, s, d, j) <==>
        (v < 0 ==> !Exceeds(s.deliveryTime[-v - 1], time)) && (v == -d ==> Finite(time) == s.deliveryTime[d - 1]);
      j := j + 1;
    }
  }

  /** Pass 3. */
  method CheckWindows(p: Params, sol: Solution) returns (ok: bool)
    requires ChecksInRange(p, sol.View()) && sol.feasible
    ensures ok == WindowsOk(p, sol.View())
  {
    ok := true;
    var d := 0;
    while d < p.deliveryCount
      invariant 0 <= d <= p.deliveryCount
      invariant ok == forall d', j :: 0 <= d' < d && 0 <= j < 2 * sol.countAssigned[sol.assignedCourier[d'] - 1] ==>
                      WindowSlotOk(p, sol.View(), d', j)
    {
      var here := CheckWindow(p, sol, d);
      if !here {
        ok := false;
      }
      d := d + 1;
    }
  }

  /** Pass 4, courier `i` (0-based). */
  method CheckCapacity(p: Params, sol: Solution, i: int) returns (ok: bool)
    requires ChecksInRange(p, sol.View()) && 0 <= i < p.courierCount
    ensures ok == CapacityOk(p, sol.View(), i)
  {
    ghost var s := sol.View();
    var row := sol.routingPlan[i];
    var load := 0;
    ok := true;
    var j := 0;
    while j < 2 * sol.maxAssignable
      invariant 0 <= j <= 2 * sol.maxAssignable && load == LoadAfter(p, row, j)
      invariant ok == forall j' :: 0 <= j' < j ==> LoadOk(p, s, i, j')
    {
      if row[j] > 0 {
        load := load + p.deliveryCapacity[row[j] - 1];
      }
      if row[j] < 0 {
        load := load - p.deliveryCapacity[-row[j] - 1];
      }
      assert load == LoadAfter(p, row, j + 1) && row == s.plan[i];
      assert LoadOk(p, s, i, j) == (load <= p.courierCapacity[i]);
      if load > p.courierCapacity[i] {
        ok := false;
      }
      j := j + 1;
    }
  }

  /** Pass 4. */
  method CheckCapacities(p: Params, sol: Solution) returns (ok: bool)
    requires ChecksInRange(p, sol.View())
    ensures ok == forall c :: 0 <= c < p.courierCount ==> CapacityOk(p, sol.View(), c)
  {
    ok := true;
    var i := 0;
    while i < p.courierCount
      invariant 0 <= i <= p.courierCount
      invariant ok == forall c :: 0 <= c < i ==> CapacityOk(p, sol.View(), c)
    {
      var here := CheckCapacity(p, sol, i);
      if !here {
        ok := false;
      }
      i := i + 1;
    }
  }

  /** Pass 5, courier `i` (0-based). */
  method CheckCourierTravel(p: Params, sol: Solution, i: int) returns (ok: bool)
    requires ChecksInRange(p, sol.View()) && 0 <= i < p.courierCount
    ensures ok == TravelOk(p, sol.View(), i)
  {
    ghost var s := sol.View();
    var row := sol.routingPlan[i];
    var location := p.courierStart[i];
    var time := 0;
    ok := true;
    var j := 0;
    while j < 2 * sol.maxAssignable
      invariant 0 <= j <= 2 * sol.maxAssignable
      invariant Clock(location, time) == ClockAfter(p, Start(p, i), row, j)
      invariant ok == forall j' :: 0 <= j' < j ==> ArrivalOk(p, s, i, j')
    {
      if row[j] > 0 {
        var pickupLocation := p.pickup[row[j] - 1];
        time := time + p.distance[location][pickupLocation];
        if time < p.releaseTime[row[j] - 1] {
          time := p.releaseTime[row[j] - 1];
        }
        location := pickupLocation;
      }
      if row[j] < 0 {
        var dropoffLocation := p.dropoff[-row[j] - 1];
        time := time + p.distance[location][dropoffLocation];
        if Exceeds(sol.deliveryTime[-row[j] - 1], time) {
          ok := false;
        }
        location := dropoffLocation;
      }
      assert Clock(location, time) == ClockAfter(p, Start(p, i), row, j + 1) && row == s.plan[i];
      assert ArrivalOk(p, s, i, j) <==> (row[j] < 0 ==> !Exceeds(s.deliveryTime[-row[j] - 1], time));
      j := j + 1;
    }
  }

  /** Pass 5. */
  method CheckTravel(p: Params, sol: Solution) returns (ok: bool)
    requires ChecksInRange(p, sol.View())
    ensures ok == forall c :: 0 <= c < p.courierCount ==> TravelOk(p, sol.View(), c)
  {
    ok := true;
    var i := 0;
    while i < p.courierCount
      invariant 0 <= i <= p.courierCount
      invariant ok == forall c :: 0 <= c < i ==> TravelOk(p, sol.View(), c)
    {
      var here := CheckCourierTravel(p, sol, i);
      if !here {
        ok := false;
      }
      i := i + 1;
    }
  }

  /** Pass 6. */
  method CheckTotal(p: Params, sol: Solution) returns (ok: bool)
    requires ChecksInRange(p, sol.View())
    ensures ok == TotalOk(sol.View())
  {
    var total := Finite(0);
    var i := 0;
    while i < p.deliveryCount
      invariant 0 <= i <= p.deliveryCount && total == SumFirst(sol.deliveryTime[..], i)
    {
      total := Add(total, sol.deliveryTime[i]);
      i := i + 1;
    }
    ok := !Differs(total, sol.totalTime);
  }

  /** `is_feasible` */
  method IsFeasible(p: Params, sol: Solution) returns (feasibility: bool)
    requires ChecksInRange(p, sol.View())
    ensures feasibility == Feasible(p, sol.View())
  {
    feasibility := sol.feasible;
    if !feasibility {
      return;
    }
    var ok := CheckAssigned(p, sol);
    if !ok {
      feasibility := false;
    }
    ok := CheckOrders(p, sol);
    if !ok {
      feasibility := false;
    }
    ok := CheckWindows(p, sol);
    if !ok {
      feasibility := false;
    }
    ok := CheckCapacities(p, sol);
    if !ok {
      feasibility := false;
    }
    ok := CheckTravel(p, sol);
    if !ok {
      feasibility := false;
    }
    ok := CheckTotal(p, sol);
    if !ok {
      feasibility := false;
    }
  }
}
