/** What the validator makes of a solution the construction heuristic
    completed: once every delivery is on a route, the routes and records the
    heuristic kept pass every check of the validator as written and of the
    corrected validator. */
module Outcome {
  import opened Times
  import opened Parameters
  import opened Solutions
  import opened Replay
  import opened Bookkeeping
  import opened Feasibility

  /** Slot `j` of courier `c`'s row (0-based) in a kept solution: past the
      pairs it is empty; within them, an even slot picks up a delivery of this
      courier and the odd slot after it drops the same delivery. */
  lemma SlotShape(p: Params, s: State, c: int, j: int)
    requires Routes(p, s) && 0 <= c < p.courierCount && 0 <= j < |s.plan[c]|
    ensures j >= 2 * s.count[c] ==> s.plan[c][j] == 0
    ensures j < 2 * s.count[c] && j % 2 == 0 ==>
      1 <= s.plan[c][j] <= p.deliveryCount && s.assignedTo[s.plan[c][j] - 1] == c + 1
    ensures j < 2 * s.count[c] && j % 2 == 1 ==> s.plan[c][j] == -s.plan[c][j - 1] < 0
  {
    assert RowKept(p, s, c);
    if j < 2 * s.count[c] {
      assert PairAt(p, s, c, j / 2);
    }
  }

  /** A dropoff slot of a kept row lies within the pairs, drops a delivery
      recorded for this courier, and that delivery's stored time is the
      replayed time of the slot. */
  lemma DropoffSlot(p: Params, s: State, c: int, j: int)
    requires Routes(p, s) && 0 <= c < p.courierCount && 0 <= j < |s.plan[c]| && s.plan[c][j] < 0
    ensures j < 2 * s.count[c] && j % 2 == 1 && s.plan[c][j - 1] == -s.plan[c][j]
    ensures s.assignedTo[-s.plan[c][j] - 1] == c + 1
    ensures s.deliveryTime[-s.plan[c][j] - 1] == Finite(ReplayTime(p, s, c + 1, j))
  {
    SlotShape(p, s, c, j);
    assert RowKept(p, s, c);
    assert PairAt(p, s, c, j / 2);
  }

  /** The load along a kept row: the size of the delivery on board after a
      pickup slot, nothing after every other slot. */
  lemma {:induction false} RowLoad(p: Params, s: State, c: int, j: int)
    requires Routes(p, s) && 0 <= c < p.courierCount && 0 <= j <= |s.plan[c]|
    ensures j < 2 * s.count[c] && j % 2 == 1 ==>
      1 <= s.plan[c][j - 1] <= p.deliveryCount
      && LoadAfter(p, s.plan[c], j) == p.deliveryCapacity[s.plan[c][j - 1] - 1]
    ensures !(j < 2 * s.count[c] && j % 2 == 1) ==> LoadAfter(p, s.plan[c], j) == 0
  {
    if j > 0 {
      RowLoad(p, s, c, j - 1);
      SlotShape(p, s, c, j - 1);
      if j - 1 < 2 * s.count[c] && (j - 1) % 2 == 1 {
        SlotShape(p, s, c, j - 2);
      }
    }
  }

  /** A kept row never carries more than its courier's capacity, when that
      capacity is not negative. */
  lemma RowWithinCapacity(p: Params, s: State, c: int)
    requires Routes(p, s) && 0 <= c < p.courierCount && p.courierCapacity[c] >= 0
    ensures CapacityOk(p, s, c)
  {
    assert RowKept(p, s, c);
    forall j | 0 <= j < 2 * s.maxAssignable ensures LoadOk(p, s, c, j) {
      RowLoad(p, s, c, j + 1);
      if j + 1 < 2 * s.count[c] && (j + 1) % 2 == 1 {
        assert PairAt(p, s, c, j / 2);
      }
    }
  }

  /** A kept row's stored dropoff times are its replayed times. */
  lemma RowOnTime(p: Params, s: State, c: int)
    requires Routes(p, s) && 0 <= c < p.courierCount
    ensures TravelOk(p, s, c)
  {
    forall j | 0 <= j < 2 * s.maxAssignable ensures ArrivalOk(p, s, c, j) {
      if s.plan[c][j] < 0 {
        DropoffSlot(p, s, c, j);
      }
    }
  }

  /** With every delivery counted as assigned, every delivery names a courier
      and sits on one of its pairs, at a finite stored time. */
  lemma AllOnRoutes(p: Params, s: State, states: seq<Moves.CourierState>)
    requires Bookkept(p, s, states, p.deliveryCount)
    ensures forall d :: 0 <= d < p.deliveryCount ==> 1 <= s.assignedTo[d] <= p.courierCount
    ensures forall d :: 0 <= d < p.deliveryCount ==> s.deliveryTime[d].Finite?
  {
    PositiveFirstBound(s.assignedTo, p.deliveryCount);
    forall d | 0 <= d < p.deliveryCount
      ensures 1 <= s.assignedTo[d] <= p.courierCount && s.deliveryTime[d].Finite?
    {
      assert DeliveryKept(p, s, d);
      var c := s.assignedTo[d];
      var k :| 0 <= k < s.count[c - 1] && HoldsAt(p, s, d, k);
      assert RowKept(p, s, c - 1);
      assert PairAt(p, s, c - 1, k);
    }
  }

  /** In a kept row every dropoff slot comes after the pickup of the same delivery. */
  lemma PickedBefore(p: Params, s: State, c: int, j: int)
    requires Routes(p, s) && 0 <= c < p.courierCount && 0 <= j < |s.plan[c]| && s.plan[c][j] < 0
    ensures -s.plan[c][j] in s.plan[c][..j]
  {
    DropoffSlot(p, s, c, j);
    assert s.plan[c][..j][j - 1] == s.plan[c][j - 1];
  }

  /** Pass 2 on a kept solution with every delivery on a route. */
  lemma DeliveryOrdered(p: Params, s: State, states: seq<Moves.CourierState>, i: int)
    requires Bookkept(p, s, states, p.deliveryCount) && 1 <= i <= p.deliveryCount
    ensures 1 <= s.assignedTo[i - 1] <= p.courierCount && DeliveryInOrder(p, s, i)
  {
    AllOnRoutes(p, s, states);
    var c := s.assignedTo[i - 1];
    var row := s.plan[c - 1];
    assert DeliveryKept(p, s, i - 1);
    var k :| 0 <= k < s.count[c - 1] && HoldsAt(p, s, i - 1, k);
    SlotShape(p, s, c - 1, 2 * k + 1);
    assert row[2 * k] == i && row[2 * k + 1] == -i;
    forall j | 0 <= j < |row| && row[j] == -i ensures i in row[..j] {
      PickedBefore(p, s, c - 1, j);
    }
    InOrderMeaning(row, i);
  }

  /** Pass 6 on a kept solution with every delivery on a route. */
  lemma TotalAgrees(p: Params, s: State, states: seq<Moves.CourierState>)
    requires Bookkept(p, s, states, p.deliveryCount)
    ensures TotalOk(s)
  {
    AllOnRoutes(p, s, states);
    StoredFirstValues(s.deliveryTime, |s.deliveryTime|);
    SumTimesMeaning(s.deliveryTime);
  }

  /** Over finite terms the sum of the stored times is the sum of the values. */
  lemma {:induction false} StoredFirstValues(ts: seq<Time>, n: nat)
    requires n <= |ts| && forall i :: 0 <= i < n ==> ts[i].Finite?
    ensures StoredFirst(ts, n) == ValuesFirst(ts, n)
  {
    if n > 0 {
      StoredFirstValues(ts, n - 1);
    }
  }

  /** Pass 3, in both readings, on a kept solution with every delivery on a route. */
  lemma WindowsAgree(p: Params, s: State, states: seq<Moves.CourierState>)
    requires Bookkept(p, s, states, p.deliveryCount) && s.feasible
    ensures ChecksInRange(p, s) && WindowsOk(p, s)
    ensures forall d, j :: 0 <= d < |s.assignedTo| && 0 <= j < 2 * s.count[s.assignedTo[d] - 1] ==>
      OwnSlotOk(p, s, d, j)
  {
    AllOnRoutes(p, s, states);
    if p.deliveryCount > 0 {
      var c := s.assignedTo[0] - 1;
      forall j | 0 <= j < 2 * s.count[c] ensures s.plan[c][j] != 0 {
        SlotShape(p, s, c, j);
      }
    }
    forall d, j | 0 <= d < |s.assignedTo| && 0 <= j < 2 * s.count[s.assignedTo[d] - 1]
      ensures WindowSlotOk(p, s, d, j) && OwnSlotOk(p, s, d, j)
    {
      var c := s.assignedTo[d] - 1;
      SlotShape(p, s, c, j);
      if s.plan[c][j] < 0 {
        DropoffSlot(p, s, c, j);
      }
    }
  }

  /** A solution the heuristic completed, with every delivery counted as
      assigned and the flag set, is accepted by the validator as written and
      by the corrected validator, provided no courier capacity is negative. */
  lemma CompletedIsFeasible(p: Params, s: State, states: seq<Moves.CourierState>)
    requires Bookkept(p, s, states, p.deliveryCount) && s.feasible
    requires forall c :: 0 <= c < p.courierCount ==> p.courierCapacity[c] >= 0
    ensures ChecksInRange(p, s) && Feasible(p, s) && Validated(p, s)
  {
    AllOnRoutes(p, s, states);
    WindowsAgree(p, s, states);
    TotalAgrees(p, s, states);
    forall i | 1 <= i <= |s.assignedTo| ensures DeliveryInOrder(p, s, i) {
      DeliveryOrdered(p, s, states, i);
    }
    forall c | 0 <= c < p.courierCount ensures CapacityOk(p, s, c) && TravelOk(p, s, c) {
      RowWithinCapacity(p, s, c);
      RowOnTime(p, s, c);
    }
    FeasibleFromPasses(p, s);
  }
}
