/** The construction heuristic's unit step: a courier's running state, a
    proposed move, the completion time of appending a delivery to a route, and
    the in-place update of the solution that appends it. */
module Moves {
  import opened Times
  import opened Parameters
  import opened Solutions
  import opened Replay

  /** A courier during construction: its 1-based id, where it stands and the
      completion time of its last dropoff. Every time the heuristic computes
      is a sum of integer travel and release times, so it is an `int`. */
  datatype CourierState = CourierState(courier: int, location: int, time: int)

  /** A proposal to append delivery `delivery` (1-based) to courier `courier`'s
      route, completing it at `cost`. The "no move" proposal has delivery 0,
      cost infinity and `appends` false. */
  datatype CourierMove = CourierMove(courier: int, delivery: int, cost: Time, appends: bool)

  /** `apply_courier_move` either appends or throws on a non-appending move. */
  datatype MoveStatus = Applied | NotImplemented

  function ClockOf(cs: CourierState): Clock {
    Clock(cs.location, cs.time)
  }

  /** The "no move" proposal of a courier. */
  function NoMove(cs: CourierState): CourierMove {
    CourierMove(cs.courier, 0, Infinity, false)
  }

  /** `append_delivery_delivery_time`: travel to the pickup, wait for the
      release, travel to the dropoff; this is the replay rule of a pickup
      followed by its dropoff. */
  function AppendDeliveryTime(p: Params, cs: CourierState, d: int): (t: int)
    requires p.Valid() && AtLocation(p, ClockOf(cs)) && 1 <= d <= p.deliveryCount
    ensures t == DropoffStep(p, PickupStep(p, ClockOf(cs), d), d).time
    ensures t >= cs.time + p.distance[cs.location][p.pickup[d - 1]] + p.distance[p.pickup[d - 1]][p.dropoff[d - 1]]
    ensures t >= p.releaseTime[d - 1] + p.distance[p.pickup[d - 1]][p.dropoff[d - 1]]
  {
    var pick, drop := p.pickup[d - 1], p.dropoff[d - 1];
    Max(cs.time + p.distance[cs.location][pick], p.releaseTime[d - 1]) + p.distance[pick][drop]
  }

  /** The solution after appending delivery `d` to courier `c` (both
      1-based) whose state is `cs`: `+d` and `-d` in the next two free slots
      of its row, one more delivery counted, the courier and the completion
      time recorded for `d`, and the completion time added to the courier's
      attributed time and to the total. */
  function Appended(p: Params, s: State, cs: CourierState, c: int, d: int): (r: State)
    requires Shaped(p, s) && AtLocation(p, ClockOf(cs))
    requires 1 <= c <= p.courierCount && 1 <= d <= p.deliveryCount && s.count[c - 1] < s.maxAssignable
    ensures Shaped(p, r)
    ensures r.feasible == s.feasible && r.maxAssignable == s.maxAssignable
    ensures r.maxDeliveryTime == s.maxDeliveryTime && r.load == s.load
  {
    var t := AppendDeliveryTime(p, cs, d);
    var k := s.count[c - 1];
    var row := s.plan[c - 1][2 * k := d][2 * k + 1 := -d];
    s.(total := Plus(s.total, t),
       plan := s.plan[c - 1 := row],
       count := s.count[c - 1 := k + 1],
       deliveryTime := s.deliveryTime[d - 1 := Finite(t)],
       assignedTo := s.assignedTo[d - 1 := c],
       attributed := s.attributed[c - 1 := s.attributed[c - 1] + t])
  }

  /** Appending to a row whose replayed prefix ends at `cs` completes the new
      dropoff at the append time, leaves the load where it was and adds the
      append time to the row's dropoff sum; the earlier slots replay as before. */
  lemma {:induction false} AppendIsReplay(p: Params, s: State, cs: CourierState, c: int, d: int)
    requires Shaped(p, s) && AtLocation(p, ClockOf(cs))
    requires 1 <= c <= p.courierCount && 1 <= d <= p.deliveryCount && s.count[c - 1] < s.maxAssignable
    requires ClockAfter(p, Start(p, c - 1), s.plan[c - 1], 2 * s.count[c - 1]) == ClockOf(cs)
    ensures var r, k, start := Appended(p, s, cs, c, d), s.count[c - 1], Start(p, c - 1);
      && ClockAfter(p, start, r.plan[c - 1], 2 * k + 2)
         == Clock(p.dropoff[d - 1], AppendDeliveryTime(p, cs, d))
      && LoadAfter(p, r.plan[c - 1], 2 * k + 2) == LoadAfter(p, s.plan[c - 1], 2 * k)
      && DropoffSum(p, start, r.plan[c - 1], 2 * k + 2)
         == DropoffSum(p, start, s.plan[c - 1], 2 * k) + AppendDeliveryTime(p, cs, d)
      && SameReplay(p, start, r.plan[c - 1], s.plan[c - 1], 2 * k)
  {
    var r, k, start := Appended(p, s, cs, c, d), s.count[c - 1], Start(p, c - 1);
    var old_row, row := s.plan[c - 1], r.plan[c - 1];
    assert row == old_row[2 * k := d][2 * k + 1 := -d];
    forall j | 0 <= j <= 2 * k
      ensures ClockAfter(p, start, row, j) == ClockAfter(p, start, old_row, j)
      ensures LoadAfter(p, row, j) == LoadAfter(p, old_row, j)
      ensures DropoffSum(p, start, row, j) == DropoffSum(p, start, old_row, j)
    {
      assert row[..j] == old_row[..j];
      PrefixDetermines(p, start, row, old_row, j);
    }
    PairStep(p, start, row, 2 * k, d);
  }

  /** The heuristic's acceptance of a move: record the move's courier for the
      delivery, then apply the move. */
  method AssignAndApply(p: Params, sol: Solution, cs: CourierState, move: CourierMove)
    returns (cs': CourierState)
    requires sol.Valid() && Shaped(p, sol.View()) && AtLocation(p, ClockOf(cs)) && move.appends
    requires 1 <= move.courier <= p.courierCount && 1 <= move.delivery <= p.deliveryCount
    requires sol.countAssigned[move.courier - 1] < sol.maxAssignable
    modifies sol, sol.routingPlan, sol.countAssigned, sol.deliveryTime, sol.assignedCourier, sol.attributedTime
    ensures sol.View() == Appended(p, old(sol.View()), cs, move.courier, move.delivery)
    ensures cs' == cs.(location := p.dropoff[move.delivery - 1], time := AppendDeliveryTime(p, cs, move.delivery))
  {
    ghost var s := sol.View();
    MarkThenAppend(p, s, cs, move.courier, move.delivery);
    sol.assignedCourier[move.delivery - 1] := move.courier;
    assert sol.View() == s.(assignedTo := s.assignedTo[move.delivery - 1 := move.courier]);
    var _, moved := ApplyCourierMove(p, sol, cs, move);
    cs' := moved;
  }

  /** Recording the courier of the delivery before appending it, as the
      heuristic does, keeps the solution shaped and yields the same append. */
  lemma MarkThenAppend(p: Params, s: State, cs: CourierState, c: int, d: int)
    requires Shaped(p, s) && AtLocation(p, ClockOf(cs))
    requires 1 <= c <= p.courierCount && 1 <= d <= p.deliveryCount && s.count[c - 1] < s.maxAssignable
    ensures Shaped(p, s.(assignedTo := s.assignedTo[d - 1 := c]))
    ensures Appended(p, s.(assignedTo := s.assignedTo[d - 1 := c]), cs, c, d) == Appended(p, s, cs, c, d)
  {
    assert s.assignedTo[d - 1 := c][d - 1 := c] == s.assignedTo[d - 1 := c];
  }

  /** Two rows replay to the same clocks over their first `m` slots. */
  predicate SameReplay(p: Params, start: Clock, row1: seq<int>, row2: seq<int>, m: int)
    requires p.Valid() && AtLocation(p, start) && RouteFits(p, row1, m) && RouteFits(p, row2, m)
  {
    forall j :: 0 <= j <= m ==> ClockAfter(p, start, row1, j) == ClockAfter(p, start, row2, j)
  }

  /** `apply_courier_move`. */
  method ApplyCourierMove(p: Params, sol: Solution, cs: CourierState, move: CourierMove)
    returns (status: MoveStatus, cs': CourierState)
    requires sol.Valid() && Shaped(p, sol.View()) && AtLocation(p, ClockOf(cs))
    requires move.appends ==>
      && 1 <= move.courier <= p.courierCount && 1 <= move.delivery <= p.deliveryCount
      && sol.countAssigned[move.courier - 1] < sol.maxAssignable
    modifies sol, sol.routingPlan, sol.countAssigned, sol.deliveryTime, sol.assignedCourier, sol.attributedTime
    ensures status == Applied <==> move.appends
    ensures move.appends ==> sol.View() == Appended(p, old(sol.View()), cs, move.courier, move.delivery)
    ensures move.appends ==>
      cs' == cs.(location := p.dropoff[move.delivery - 1], time := AppendDeliveryTime(p, cs, move.delivery))
    ensures !move.appends ==> sol.View() == old(sol.View()) && cs' == cs
  {
    if !move.appends {
      return NotImplemented, cs;
    }
    var c, d := move.courier, move.delivery;
    var t := AppendDeliveryTime(p, cs, d);
    cs' := cs.(location := p.dropoff[d - 1], time := t);
    sol.totalTime := Plus(sol.totalTime, t);
    var k := sol.countAssigned[c - 1];
    sol.routingPlan[c - 1] := sol.routingPlan[c - 1][2 * k := d];
    sol.routingPlan[c - 1] := sol.routingPlan[c - 1][2 * k + 1 := -d];
    sol.assignedCourier[d - 1] := c;
    sol.countAssigned[c - 1] := k + 1;
    sol.deliveryTime[d - 1] := Finite(t);
    sol.attributedTime[c - 1] := sol.attributedTime[c - 1] + t;
    status := Applied;
  }
}
