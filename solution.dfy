/** The solution record (`VRPPDSolution`): one per construction attempt,
    created empty and then mutated in place by the construction heuristic and
    by re-routing. */
module Solutions {
  import opened Times
  import opened Parameters

  /** A value snapshot of every field of a `Solution`; the specifications of
      the components are stated over it. */
  datatype State = State(
    feasible: bool,
    maxAssignable: int,
    maxDeliveryTime: int,
    total: Time,
    plan: seq<seq<int>>,
    count: seq<int>,
    deliveryTime: seq<Time>,
    assignedTo: seq<int>,
    attributed: seq<int>,
    load: seq<int>)

  /** The vectors have the sizes the instance gives them, per-courier counts
      stay within the cap, and every slot holds `+d`, `-d` or 0 for a delivery
      id `d` of the instance. */
  predicate Shaped(p: Params, s: State) {
    && p.Valid()
    && |s.plan| == |s.count| == |s.attributed| == |s.load| == p.courierCount
    && |s.deliveryTime| == |s.assignedTo| == p.deliveryCount
    && 0 <= s.maxAssignable
    && (forall c :: 0 <= c < |s.plan| ==> |s.plan[c]| == 2 * s.maxAssignable)
    && (forall c :: 0 <= c < |s.count| ==> 0 <= s.count[c] <= s.maxAssignable)
    && (forall c, j :: 0 <= c < |s.plan| && 0 <= j < |s.plan[c]| ==>
          -p.deliveryCount <= s.plan[c][j] <= p.deliveryCount)
  }

  class Solution {
    var feasible: bool
    const maxAssignable: int
    const maxDeliveryTime: int
    var totalTime: Time
    const routingPlan: array<seq<int>>
    const countAssigned: array<int>
    const deliveryTime: array<Time>
    const assignedCourier: array<int>
    const attributedTime: array<int>
    const currentLoad: array<int>

    /** `a` is none of the solution's integer vectors. */
    ghost predicate Apart(a: array<int>) {
      a != countAssigned && a != assignedCourier && a != attributedTime && a != currentLoad
    }

    /** The four integer vectors are distinct objects. */
    ghost predicate Valid() {
      && countAssigned != assignedCourier && countAssigned != attributedTime
      && countAssigned != currentLoad && assignedCourier != attributedTime
      && assignedCourier != currentLoad && attributedTime != currentLoad
    }

    function View(): State
      reads this, routingPlan, countAssigned, deliveryTime, assignedCourier, attributedTime, currentLoad
    {
      State(feasible, maxAssignable, maxDeliveryTime, totalTime,
            routingPlan[..], countAssigned[..], deliveryTime[..], assignedCourier[..],
            attributedTime[..], currentLoad[..])
    }

    /** The member-initialiser constructor. */
    constructor (courierCount: nat, deliveryCount: nat)
      ensures Valid()
      ensures fresh(routingPlan) && fresh(countAssigned) && fresh(deliveryTime)
      ensures fresh(assignedCourier) && fresh(attributedTime) && fresh(currentLoad)
      ensures !feasible && maxAssignable == 4 && maxDeliveryTime == 180
      ensures totalTime == DoubleMax
      ensures routingPlan.Length == courierCount
      ensures forall c :: 0 <= c < courierCount ==> routingPlan[c] == seq(2 * 4, _ => 0)
      ensures countAssigned.Length == courierCount && forall c :: 0 <= c < courierCount ==> countAssigned[c] == 0
      ensures deliveryTime.Length == deliveryCount && forall d :: 0 <= d < deliveryCount ==> deliveryTime[d] == DoubleMax
      ensures assignedCourier.Length == deliveryCount && forall d :: 0 <= d < deliveryCount ==> assignedCourier[d] == 0
      ensures attributedTime.Length == courierCount && forall c :: 0 <= c < courierCount ==> attributedTime[c] == 0
      ensures currentLoad.Length == courierCount && forall c :: 0 <= c < courierCount ==> currentLoad[c] == 0
    {
      feasible := false;
      maxAssignable := 4;
      maxDeliveryTime := 180;
      totalTime := DoubleMax;
      routingPlan := new seq<int>[courierCount](_ => seq(2 * 4, _ => 0));
      countAssigned := new int[courierCount](_ => 0);
      deliveryTime := new Time[deliveryCount](_ => DoubleMax);
      assignedCourier := new int[deliveryCount](_ => 0);
      attributedTime := new int[courierCount](_ => 0);
      currentLoad := new int[courierCount](_ => 0);
    }
  }

  /** The state right after construction: nothing assigned, every row empty. */
  predicate Empty(s: State) {
    && (forall c :: 0 <= c < |s.count| ==> s.count[c] == 0)
    && (forall c, j :: 0 <= c < |s.plan| && 0 <= j < |s.plan[c]| ==> s.plan[c][j] == 0)
    && (forall d :: 0 <= d < |s.assignedTo| ==> s.assignedTo[d] == 0)
    && (forall d :: 0 <= d < |s.deliveryTime| ==> s.deliveryTime[d] == DoubleMax)
    && (forall c :: 0 <= c < |s.attributed| ==> s.attributed[c] == 0)
  }

  /** A freshly constructed solution for an instance is shaped for it and empty. */
  lemma {:induction false} NewSolutionShaped(p: Params, sol: Solution)
    requires p.Valid()
    requires sol.routingPlan.Length == sol.countAssigned.Length == sol.attributedTime.Length
             == sol.currentLoad.Length == p.courierCount
    requires sol.deliveryTime.Length == sol.assignedCourier.Length == p.deliveryCount
    requires sol.maxAssignable == 4
    requires forall c :: 0 <= c < p.courierCount ==> sol.routingPlan[c] == seq(2 * 4, _ => 0)
    requires forall c :: 0 <= c < p.courierCount ==> sol.countAssigned[c] == 0
    requires forall d :: 0 <= d < p.deliveryCount ==> sol.deliveryTime[d] == DoubleMax
    requires forall d :: 0 <= d < p.deliveryCount ==> sol.assignedCourier[d] == 0
    requires forall c :: 0 <= c < p.courierCount ==> sol.attributedTime[c] == 0
    ensures Shaped(p, sol.View()) && Empty(sol.View())
  {
    var s := sol.View();
    forall c, j | 0 <= c < |s.plan| && 0 <= j < |s.plan[c]| ensures s.plan[c][j] == 0 {
      assert s.plan[c] == seq(2 * 4, _ => 0);
    }
  }
}
