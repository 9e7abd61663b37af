/** `GreedyDeliveryFinder`: one cursor per location into that location's
    nearest-delivery ranking. A courier standing at a location proposes the
    first delivery at or after the cursor that is unassigned and fits its
    capacity; deliveries skipped on the way are never looked at again from that
    location, whichever courier stands there next. */
module Greedy {
  import opened Times
  import opened Parameters
  import opened Solutions
  import opened Replay
  import opened Moves

  /** Delivery `d` (1-based) is unassigned and fits the capacity of courier `c` (1-based). */
  predicate Eligible(p: Params, s: State, c: int, d: int)
    requires Shaped(p, s) && 1 <= c <= p.courierCount && 1 <= d <= p.deliveryCount
  {
    s.assignedTo[d - 1] <= 0 && p.deliveryCapacity[d - 1] <= p.courierCapacity[c - 1]
  }

  /** The courier of `cs` stands at a location of the instance. */
  predicate Placed(p: Params, s: State, cs: CourierState) {
    Shaped(p, s) && AtLocation(p, ClockOf(cs)) && 1 <= cs.courier <= p.courierCount
  }

  /** The delivery ranked `k` from the courier's location is eligible for it. */
  predicate EligibleAt(p: Params, s: State, cs: CourierState, k: int)
    requires Placed(p, s, cs) && 0 <= k < p.deliveryCount
  {
    Eligible(p, s, cs.courier, p.nearestDelivery[cs.location][k])
  }

  /** The first rank at or after `i` whose delivery is eligible, or
      `delivery_count` when there is none. */
  function FirstEligible(p: Params, s: State, cs: CourierState, i: int): (k: int)
    requires Placed(p, s, cs) && 0 <= i <= p.deliveryCount
    ensures i <= k <= p.deliveryCount
    ensures forall j :: i <= j < k ==> !EligibleAt(p, s, cs, j)
    ensures k < p.deliveryCount ==> EligibleAt(p, s, cs, k)
    decreases p.deliveryCount - i
  {
    if i == p.deliveryCount then i
    else if EligibleAt(p, s, cs, i) then i
    else FirstEligible(p, s, cs, i + 1)
  }

  /** What `greedy_delivery_of_courier` returns and where it leaves the
      location's cursor, when the cursor stood at `i`. The proposal is either
      the "no move", or the first eligible delivery at or after the cursor, for
      a courier below its cap, at its append time, and passing the bound test
      `current_time + append time <= bound` (which counts the current time
      twice). The cursor never moves back; it stops at the proposed rank, and
      jumps to `delivery_count` when there is no move. */
  function Proposal(p: Params, s: State, cs: CourierState, i: int): (r: (CourierMove, int))
    requires Placed(p, s, cs) && 0 <= i <= p.deliveryCount
    ensures var (m, cursor) := r;
      && i <= cursor <= p.deliveryCount
      && m.courier == cs.courier
      && (m.delivery == 0 <==> !m.appends)
      && (m.delivery == 0 ==> m == NoMove(cs) && cursor == p.deliveryCount)
      && (m.delivery != 0 ==>
            && cursor == FirstEligible(p, s, cs, i) < p.deliveryCount
            && m.delivery == p.nearestDelivery[cs.location][cursor]
            && Eligible(p, s, cs.courier, m.delivery)
            && s.count[cs.courier - 1] < s.maxAssignable
            && m.cost == Finite(AppendDeliveryTime(p, cs, m.delivery))
            && cs.time + AppendDeliveryTime(p, cs, m.delivery) <= s.maxDeliveryTime)
  {
    var n := p.deliveryCount;
    if i == n then (NoMove(cs), i)
    else if s.count[cs.courier - 1] >= s.maxAssignable then (NoMove(cs), n)
    else
      var k := FirstEligible(p, s, cs, i);
      if k == n then (NoMove(cs), n)
      else
        var d := p.nearestDelivery[cs.location][k];
        var t := AppendDeliveryTime(p, cs, d);
        if cs.time + t > s.maxDeliveryTime then (NoMove(cs), n)
        else (CourierMove(cs.courier, d, Finite(t), true), k)
  }

  /** A move is proposed exactly when the courier is below its cap, some
      eligible delivery is ranked at or after the cursor, and the first such
      passes the bound test. */
  lemma {:induction false} ProposalExists(p: Params, s: State, cs: CourierState, i: int)
    requires Placed(p, s, cs) && 0 <= i <= p.deliveryCount
    ensures Proposal(p, s, cs, i).0.appends <==>
      && s.count[cs.courier - 1] < s.maxAssignable
      && (exists k :: i <= k < p.deliveryCount && EligibleAt(p, s, cs, k))
      && var d := p.nearestDelivery[cs.location][FirstEligible(p, s, cs, i)];
         cs.time + AppendDeliveryTime(p, cs, d) <= s.maxDeliveryTime
  {
    var k := FirstEligible(p, s, cs, i);
    if exists j :: i <= j < p.deliveryCount && EligibleAt(p, s, cs, j) {
      var j :| i <= j < p.deliveryCount && EligibleAt(p, s, cs, j);
      assert k <= j;
    }
  }

  /** One cursor per location, each within the ranking. */
  predicate CursorsOk(p: Params, cursors: seq<int>) {
    && |cursors| == p.locationCount
    && forall l :: 0 <= l < |cursors| ==> 0 <= cursors[l] <= p.deliveryCount
  }

  class GreedyDeliveryFinder {
    /** `count_of_already_considered_closest_deliveries_from_location` */
    var considered: seq<int>

    predicate Valid(p: Params)
      reads this
    {
      CursorsOk(p, considered)
    }

    constructor (p: Params)
      requires p.Valid()
      ensures Valid(p) && considered == seq(p.locationCount, _ => 0)
    {
      considered := seq(p.locationCount, _ => 0);
    }

    /** `greedy_delivery_of_courier`: the proposal for the courier of `cs`;
        only the cursor of its location moves. */
    method GreedyDeliveryOfCourier(p: Params, sol: Solution, cs: CourierState) returns (move: CourierMove)
      requires Valid(p) && Placed(p, sol.View(), cs)
      modifies this
      ensures Valid(p)
      ensures (move, considered[cs.location]) == Proposal(p, sol.View(), cs, old(considered[cs.location]))
      ensures considered == old(considered)[cs.location := considered[cs.location]]
    {
      ghost var s := sol.View();
      ghost var i0 := considered[cs.location];
      var loc := cs.location;
      var i := considered[loc];
      while i < p.deliveryCount
        invariant i0 <= i <= p.deliveryCount && considered == old(considered)[loc := i]
        invariant forall j :: i0 <= j < i ==> !EligibleAt(p, s, cs, j)
        invariant i0 < i ==> s.count[cs.courier - 1] < s.maxAssignable
      {
        var closest := p.nearestDelivery[loc][i];
        if sol.countAssigned[cs.courier - 1] >= sol.maxAssignable {
          considered := considered[loc := p.deliveryCount];
          assert i == i0;
          return NoMove(cs);
        } else if sol.assignedCourier[closest - 1] > 0
               || p.deliveryCapacity[closest - 1] > p.courierCapacity[cs.courier - 1] {
          considered := considered[loc := considered[loc] + 1];
        } else {
          assert EligibleAt(p, s, cs, i);
          var t := AppendDeliveryTime(p, cs, closest);
          if cs.time + t > sol.maxDeliveryTime {
            considered := considered[loc := p.deliveryCount];
            return NoMove(cs);
          }
          return CourierMove(cs.courier, closest, Finite(t), true);
        }
        i := i + 1;
      }
      return NoMove(cs);
    }
  }
}
