/** `random_greedy_courier_heuristic`: rounds of proposals until every
    delivery has a courier. In each round every courier, in order, asks the
    greedy finder for its move; the moves are sorted by cost; a random draw per
    courier decides, against a threshold that grows with the number already
    assigned, which moves are accepted; an accepted move whose delivery is still
    unassigned is applied. After 10000 rounds without finishing, the solution is
    marked infeasible. */
module Construction {
  import opened Times
  import opened Parameters
  import opened Solutions
  import opened Replay
  import opened Moves
  import opened Greedy
  import opened Bookkeeping
  import Feasibility
  import Outcome

  /** The round after which the heuristic gives up. */
  const MaxIterations := 10000

  /** One state per courier, in courier order, each at a location. */
  predicate StatesPlaced(p: Params, s: State, states: seq<CourierState>) {
    && Shaped(p, s) && |states| == p.courierCount
    && forall c :: 0 <= c < |states| ==> states[c].courier == c + 1 && AtLocation(p, ClockOf(states[c]))
  }

  /** The states the invariant ties to the routes are placed. */
  lemma MatchedStatesPlaced(p: Params, s: State, states: seq<CourierState>)
    requires Routes(p, s) && StatesMatch(p, s, states)
    ensures StatesPlaced(p, s, states)
  {
    forall c | 0 <= c < |states| ensures states[c].courier == c + 1 && AtLocation(p, ClockOf(states[c])) {
      assert StateMatches(p, s, states, c);
    }
  }

  // ---------------------------------------------------------------------------
  // Proposals
  // ---------------------------------------------------------------------------

  /** `m` may be applied: an appending move of a courier below its cap, for a
      delivery fitting it. */
  predicate Proposable(p: Params, s: State, states: seq<CourierState>, m: CourierMove)
    requires StatesPlaced(p, s, states)
  {
    && 1 <= m.courier <= p.courierCount && 1 <= m.delivery <= p.deliveryCount && m.appends
    && s.count[m.courier - 1] < s.maxAssignable
    && p.deliveryCapacity[m.delivery - 1] <= p.courierCapacity[m.courier - 1]
  }

  /** The applicable move `m` costs what its append would take from the
      courier's current state, and passes the bound test. */
  predicate Priced(p: Params, s: State, states: seq<CourierState>, m: CourierMove)
    requires StatesPlaced(p, s, states) && Proposable(p, s, states, m)
  {
    && m.cost == Finite(AppendDeliveryTime(p, states[m.courier - 1], m.delivery))
    && states[m.courier - 1].time + AppendDeliveryTime(p, states[m.courier - 1], m.delivery) <= s.maxDeliveryTime
  }

  /** The moves the couriers from `c` on propose, in courier order, and the
      cursors they leave behind; a courier's proposal moves the cursor of its
      location, which the next courier standing there reads. No cursor moves back. */
  function Proposals(p: Params, s: State, states: seq<CourierState>, cursors: seq<int>, c: int)
    : (r: (seq<CourierMove>, seq<int>))
    requires StatesPlaced(p, s, states) && CursorsOk(p, cursors) && 0 <= c <= |states|
    ensures CursorsOk(p, r.1)
    ensures forall l :: 0 <= l < |cursors| ==> cursors[l] <= r.1[l]
    decreases |states| - c
  {
    if c == |states| then ([], cursors)
    else
      var cs := states[c];
      var (m, cursor) := Proposal(p, s, cs, cursors[cs.location]);
      var (rest, final) := Proposals(p, s, states, cursors[cs.location := cursor], c + 1);
      (if m.delivery > 0 then [m] + rest else rest, final)
  }

  /** Every move is applicable and priced and comes from a courier after `c`,
      and the couriers come in increasing order. */
  predicate ProposedInOrder(p: Params, s: State, states: seq<CourierState>, ms: seq<CourierMove>, c: int)
    requires StatesPlaced(p, s, states)
  {
    && (forall j :: 0 <= j < |ms| ==>
          Proposable(p, s, states, ms[j]) && Priced(p, s, states, ms[j]) && ms[j].courier > c)
    && (forall i, j :: 0 <= i < j < |ms| ==> ms[i].courier < ms[j].courier)
  }

  /** Courier `c + 1`'s proposal, when it has a delivery, is applicable. */
  lemma ProposalProposable(p: Params, s: State, states: seq<CourierState>, c: int, cursor: int)
    requires StatesPlaced(p, s, states) && 0 <= c < |states| && 0 <= cursor <= p.deliveryCount
    ensures Placed(p, s, states[c])
    ensures var m := Proposal(p, s, states[c], cursor).0;
      m.delivery > 0 ==> Proposable(p, s, states, m) && Priced(p, s, states, m) && m.courier == c + 1
  {
  }

  /** A move of courier `c + 1` before the moves of later couriers. */
  lemma ProposedCons(p: Params, s: State, states: seq<CourierState>, m: CourierMove, rest: seq<CourierMove>, c: int)
    requires StatesPlaced(p, s, states) && ProposedInOrder(p, s, states, rest, c + 1)
    requires Proposable(p, s, states, m) && Priced(p, s, states, m) && m.courier == c + 1
    ensures ProposedInOrder(p, s, states, [m] + rest, c)
  {
    var ms := [m] + rest;
    forall j | 0 < j < |ms| ensures ms[j] == rest[j - 1] {
    }
  }

  /** Every proposed move is applicable, and no courier proposes twice. */
  lemma {:induction false} ProposalsProposable(
    p: Params, s: State, states: seq<CourierState>, cursors: seq<int>, c: int)
    requires StatesPlaced(p, s, states) && CursorsOk(p, cursors) && 0 <= c <= |states|
    ensures ProposedInOrder(p, s, states, Proposals(p, s, states, cursors, c).0, c)
    decreases |states| - c
  {
    if c < |states| {
      var cs := states[c];
      ProposalProposable(p, s, states, c, cursors[cs.location]);
      var pr := Proposal(p, s, cs, cursors[cs.location]);
      var cursors' := cursors[cs.location := pr.1];
      ProposalsProposable(p, s, states, cursors', c + 1);
      var rest := Proposals(p, s, states, cursors', c + 1).0;
      if pr.0.delivery > 0 {
        ProposedCons(p, s, states, pr.0, rest, c);
      }
    }
  }

  /** The proposal loop: one finder call per courier, keeping the moves with a delivery. */
  method ProposeMoves(p: Params, sol: Solution, finder: GreedyDeliveryFinder, states: seq<CourierState>)
    returns (moves: seq<CourierMove>)
    requires finder.Valid(p) && StatesPlaced(p, sol.View(), states)
    modifies finder
    ensures finder.Valid(p)
    ensures (moves, finder.considered) == Proposals(p, sol.View(), states, old(finder.considered), 0)
  {
    ghost var s, cursors := sol.View(), finder.considered;
    moves := [];
    for c := 0 to |states|
      invariant finder.Valid(p)
      invariant moves + Proposals(p, s, states, finder.considered, c).0 == Proposals(p, s, states, cursors, 0).0
      invariant Proposals(p, s, states, finder.considered, c).1 == Proposals(p, s, states, cursors, 0).1
    {
      moves := ProposeNext(p, sol, finder, states, c, moves);
    }
    assert moves + [] == moves;
  }

  /** One pass of the proposal loop: courier `c + 1` asks the finder and its
      move, when it has a delivery, joins the list; what the list and the
      remaining couriers propose together does not change. */
  method ProposeNext(p: Params, sol: Solution, finder: GreedyDeliveryFinder, states: seq<CourierState>,
                     c: int, moves: seq<CourierMove>)
    returns (moves': seq<CourierMove>)
    requires finder.Valid(p) && StatesPlaced(p, sol.View(), states) && 0 <= c < |states|
    modifies finder
    ensures finder.Valid(p)
    ensures var before := Proposals(p, sol.View(), states, old(finder.considered), c);
      var after := Proposals(p, sol.View(), states, finder.considered, c + 1);
      moves' + after.0 == moves + before.0 && after.1 == before.1
  {
    ghost var s, before := sol.View(), finder.considered;
    var move := finder.GreedyDeliveryOfCourier(p, sol, states[c]);
    ghost var rest := Proposals(p, s, states, finder.considered, c + 1);
    assert finder.considered == before[states[c].location := finder.considered[states[c].location]];
    assert Proposals(p, s, states, before, c) == (if move.delivery > 0 then [move] + rest.0 else rest.0, rest.1);
    moves' := moves;
    if move.delivery > 0 {
      assert moves + ([move] + rest.0) == (moves + [move]) + rest.0;
      moves' := moves + [move];
    }
  }

  // ---------------------------------------------------------------------------
  // Sorting by cost
  // ---------------------------------------------------------------------------

  predicate SortedByCost(ms: seq<CourierMove>) {
    forall i, j :: 0 <= i < j < |ms| ==> AtMost(ms[i].cost, ms[j].cost)
  }

  /** No courier has two moves. */
  predicate DistinctCouriers(ms: seq<CourierMove>) {
    forall i, j :: 0 <= i < j < |ms| ==> ms[i].courier != ms[j].courier
  }

  /** `m` placed before the first move that does not cost less. */
  function InsertByCost(m: CourierMove, ms: seq<CourierMove>): (r: seq<CourierMove>)
    ensures multiset(r) == multiset(ms) + multiset{m}
  {
    if ms == [] || AtMost(m.cost, ms[0].cost) then [m] + ms
    else
      assert ms == [ms[0]] + ms[1..];
      [ms[0]] + InsertByCost(m, ms[1..])
  }

  /** The moves in non-decreasing order of cost (`std::sort` with `a.cost < b.cost`). */
  function SortByCost(ms: seq<CourierMove>): (r: seq<CourierMove>)
    ensures multiset(r) == multiset(ms)
  {
    if ms == [] then []
    else
      assert ms == [ms[0]] + ms[1..];
      InsertByCost(ms[0], SortByCost(ms[1..]))
  }

  lemma {:induction false} InsertSorted(m: CourierMove, ms: seq<CourierMove>)
    requires SortedByCost(ms)
    ensures SortedByCost(InsertByCost(m, ms))
  {
    var r := InsertByCost(m, ms);
    if ms == [] || AtMost(m.cost, ms[0].cost) {
      forall j | 0 < j < |r| ensures AtMost(m.cost, r[j].cost) {
        AtMostTotalOrder(m.cost, ms[0].cost, ms[j - 1].cost);
      }
    } else {
      var tail := InsertByCost(m, ms[1..]);
      InsertSorted(m, ms[1..]);
      AtMostTotalOrder(m.cost, ms[0].cost, m.cost);
      forall j | 0 <= j < |tail| ensures AtMost(ms[0].cost, tail[j].cost) {
        assert tail[j] in multiset(ms[1..]) + multiset{m};
        if tail[j] != m {
          var k :| 0 <= k < |ms[1..]| && ms[1..][k] == tail[j];
          assert ms[k + 1] == tail[j];
        }
      }
    }
  }

  /** The sort's result is sorted. */
  lemma {:induction false} SortSorted(ms: seq<CourierMove>)
    ensures SortedByCost(SortByCost(ms))
  {
    if ms != [] {
      SortSorted(ms[1..]);
      InsertSorted(ms[0], SortByCost(ms[1..]));
    }
  }

  lemma {:induction false} InsertDistinct(m: CourierMove, ms: seq<CourierMove>)
    requires DistinctCouriers(ms) && forall x :: x in ms ==> x.courier != m.courier
    ensures DistinctCouriers(InsertByCost(m, ms))
  {
    if ms == [] || AtMost(m.cost, ms[0].cost) {
      var r := [m] + ms;
      forall i, j | 0 <= i < j < |r| ensures r[i].courier != r[j].courier {
        if i == 0 {
          assert r[j] == ms[j - 1];
        }
      }
    } else {
      var tail := InsertByCost(m, ms[1..]);
      forall x | x in ms[1..] ensures x.courier != m.courier {
        assert x in ms;
      }
      assert DistinctCouriers(ms[1..]);
      InsertDistinct(m, ms[1..]);
      var r := [ms[0]] + tail;
      forall i, j | 0 <= i < j < |r| ensures r[i].courier != r[j].courier {
        if i == 0 {
          assert r[j] in multiset(ms[1..]) + multiset{m};
          if r[j] != m {
            var k :| 0 <= k < |ms[1..]| && ms[1..][k] == r[j];
            assert ms[k + 1] == r[j];
          } else {
            assert ms[0] in ms;
          }
        }
      }
    }
  }

  /** Sorting gives no courier a second move. */
  lemma {:induction false} SortDistinct(ms: seq<CourierMove>)
    requires DistinctCouriers(ms)
    ensures DistinctCouriers(SortByCost(ms))
  {
    if ms != [] {
      assert DistinctCouriers(ms[1..]);
      SortDistinct(ms[1..]);
      forall x | x in SortByCost(ms[1..]) ensures x.courier != ms[0].courier {
        assert x in multiset(ms[1..]);
        var k :| 0 <= k < |ms[1..]| && ms[1..][k] == x;
        assert ms[k + 1] == x;
      }
      InsertDistinct(ms[0], SortByCost(ms[1..]));
    }
  }

  // ---------------------------------------------------------------------------
  // Acceptance
  // ---------------------------------------------------------------------------

  /** The moves from `i` on may be applied, and no courier has two. */
  predicate Ready(p: Params, s: State, states: seq<CourierState>, moves: seq<CourierMove>, i: int) {
    && StatesPlaced(p, s, states) && 0 <= i <= |moves|
    && (forall j :: i <= j < |moves| ==> Proposable(p, s, states, moves[j]))
    && DistinctCouriers(moves)
  }

  /** A round's moves, sorted, are ready to be accepted. */
  lemma SortedReady(p: Params, s: State, states: seq<CourierState>, cursors: seq<int>)
    requires StatesPlaced(p, s, states) && CursorsOk(p, cursors)
    ensures Ready(p, s, states, SortByCost(Proposals(p, s, states, cursors, 0).0), 0)
    ensures SortedByCost(SortByCost(Proposals(p, s, states, cursors, 0).0))
  {
    var ms := Proposals(p, s, states, cursors, 0).0;
    var sorted := SortByCost(ms);
    ProposalsProposable(p, s, states, cursors, 0);
    assert DistinctCouriers(ms) by {
      forall i, j | 0 <= i < j < |ms| ensures ms[i].courier != ms[j].courier {
        assert ms[i].courier < ms[j].courier;
      }
    }
    SortDistinct(ms);
    SortSorted(ms);
    forall j | 0 <= j < |sorted| ensures Proposable(p, s, states, sorted[j]) {
      assert sorted[j] in multiset(ms);
    }
  }

  /** Applying move `i` leaves the later moves, from other couriers, applicable. */
  lemma ReadyAfterAppend(p: Params, s: State, states: seq<CourierState>, moves: seq<CourierMove>, i: int)
    requires Ready(p, s, states, moves, i) && i < |moves|
    ensures var (c, d) := (moves[i].courier, moves[i].delivery);
      Ready(p, Appended(p, s, states[c - 1], c, d), states[c - 1 := Moved(p, states[c - 1], d)], moves, i + 1)
  {
    var (c, d) := (moves[i].courier, moves[i].delivery);
    var s', states' := Appended(p, s, states[c - 1], c, d), states[c - 1 := Moved(p, states[c - 1], d)];
    forall j | i + 1 <= j < |moves| ensures Proposable(p, s', states', moves[j]) {
      assert moves[i].courier != moves[j].courier;
    }
  }

  /** The solution, courier states and assignment count after a round's acceptance loop. */
  datatype Round = Round(state: State, states: seq<CourierState>, assignedCount: int)

  /** `true` when a courier's squared draw is within the threshold
      `(assigned + 1) / delivery_count`. */
  predicate Drawn(p: Params, probs: seq<real>, c: int, numAssigned: int)
    requires 1 <= c <= |probs| && p.deliveryCount > 0
  {
    probs[c - 1] * probs[c - 1] <= (numAssigned + 1) as real / p.deliveryCount as real
  }

  /** Move `i` of the acceptance loop: applied and counted when the courier's
      draw passes and the delivery is still unassigned, skipped otherwise. */
  function AcceptOne(p: Params, s: State, states: seq<CourierState>, numAssigned: int,
                     moves: seq<CourierMove>, probs: seq<real>, i: int): (r: Round)
    requires Ready(p, s, states, moves, i) && i < |moves| && |probs| == p.courierCount
    ensures r.state.feasible == s.feasible
    ensures r.assignedCount == numAssigned || r.assignedCount == numAssigned + 1
  {
    var (c, d) := (moves[i].courier, moves[i].delivery);
    if Drawn(p, probs, c, numAssigned) && s.assignedTo[d - 1] == 0 then
      Round(Appended(p, s, states[c - 1], c, d), states[c - 1 := Moved(p, states[c - 1], d)], numAssigned + 1)
    else
      Round(s, states, numAssigned)
  }

  /** After move `i` the moves from `i + 1` on are still ready: no other move
      is for the courier that moved. */
  lemma AcceptOneReady(p: Params, s: State, states: seq<CourierState>, numAssigned: int,
                       moves: seq<CourierMove>, probs: seq<real>, i: int)
    requires Ready(p, s, states, moves, i) && i < |moves| && |probs| == p.courierCount
    ensures var r := AcceptOne(p, s, states, numAssigned, moves, probs, i);
      Ready(p, r.state, r.states, moves, i + 1)
  {
    ReadyAfterAppend(p, s, states, moves, i);
  }

  /** An accepted move is applied and counted. */
  lemma AcceptOneApplied(p: Params, s: State, states: seq<CourierState>, numAssigned: int,
                         moves: seq<CourierMove>, probs: seq<real>, i: int)
    requires Ready(p, s, states, moves, i) && i < |moves| && |probs| == p.courierCount
    requires Drawn(p, probs, moves[i].courier, numAssigned) && s.assignedTo[moves[i].delivery - 1] == 0
    ensures var (c, d) := (moves[i].courier, moves[i].delivery);
      AcceptOne(p, s, states, numAssigned, moves, probs, i)
      == Round(Appended(p, s, states[c - 1], c, d), states[c - 1 := Moved(p, states[c - 1], d)], numAssigned + 1)
  {
  }

  /** A move whose draw fails or whose delivery is taken changes nothing. */
  lemma AcceptOneSkipped(p: Params, s: State, states: seq<CourierState>, numAssigned: int,
                         moves: seq<CourierMove>, probs: seq<real>, i: int)
    requires Ready(p, s, states, moves, i) && i < |moves| && |probs| == p.courierCount
    requires !Drawn(p, probs, moves[i].courier, numAssigned) || s.assignedTo[moves[i].delivery - 1] != 0
    ensures AcceptOne(p, s, states, numAssigned, moves, probs, i) == Round(s, states, numAssigned)
  {
  }

  /** The acceptance loop from move `i`: it stops once every delivery is
      assigned, and otherwise takes the moves one by one. */
  function Accepted(p: Params, s: State, states: seq<CourierState>, numAssigned: int,
                    moves: seq<CourierMove>, probs: seq<real>, i: int): (r: Round)
    requires Ready(p, s, states, moves, i) && |probs| == p.courierCount
    ensures numAssigned <= r.assignedCount && r.state.feasible == s.feasible
    decreases |moves| - i
  {
    if i == |moves| || numAssigned == p.deliveryCount then Round(s, states, numAssigned)
    else
      var r := AcceptOne(p, s, states, numAssigned, moves, probs, i);
      AcceptOneReady(p, s, states, numAssigned, moves, probs, i);
      Accepted(p, r.state, r.states, r.assignedCount, moves, probs, i + 1)
  }

  /** Past the last move, or once every delivery is assigned, the loop stops. */
  lemma AcceptedDone(p: Params, s: State, states: seq<CourierState>, numAssigned: int,
                     moves: seq<CourierMove>, probs: seq<real>, i: int)
    requires Ready(p, s, states, moves, i) && |probs| == p.courierCount
    requires i == |moves| || numAssigned == p.deliveryCount
    ensures Accepted(p, s, states, numAssigned, moves, probs, i) == Round(s, states, numAssigned)
  {
  }

  /** Before every delivery is assigned, the loop takes move `i` and goes on. */
  lemma AcceptedStep(p: Params, s: State, states: seq<CourierState>, numAssigned: int,
                     moves: seq<CourierMove>, probs: seq<real>, i: int)
    requires Ready(p, s, states, moves, i) && i < |moves| && |probs| == p.courierCount
    requires numAssigned != p.deliveryCount
    ensures var r := AcceptOne(p, s, states, numAssigned, moves, probs, i);
      Accepted(p, s, states, numAssigned, moves, probs, i)
      == Accepted(p, r.state, r.states, r.assignedCount, moves, probs, i + 1)
  {
  }

  /** The acceptance loop leaves every courier placed. */
  lemma {:induction false} AcceptedPlaced(
    p: Params, s: State, states: seq<CourierState>, numAssigned: int,
    moves: seq<CourierMove>, probs: seq<real>, i: int)
    requires Ready(p, s, states, moves, i) && |probs| == p.courierCount
    ensures var r := Accepted(p, s, states, numAssigned, moves, probs, i);
      StatesPlaced(p, r.state, r.states)
    decreases |moves| - i, 1
  {
    if i < |moves| && numAssigned != p.deliveryCount {
      PlacedStep(p, s, states, numAssigned, moves, probs, i);
    } else {
      AcceptedDone(p, s, states, numAssigned, moves, probs, i);
    }
  }

  /** The inductive step of `AcceptedPlaced`. */
  lemma {:induction false} PlacedStep(
    p: Params, s: State, states: seq<CourierState>, numAssigned: int,
    moves: seq<CourierMove>, probs: seq<real>, i: int)
    requires Ready(p, s, states, moves, i) && |probs| == p.courierCount
    requires i < |moves| && numAssigned != p.deliveryCount
    ensures var r := Accepted(p, s, states, numAssigned, moves, probs, i);
      StatesPlaced(p, r.state, r.states)
    decreases |moves| - i, 0
  {
    var r := AcceptOne(p, s, states, numAssigned, moves, probs, i);
    AcceptOneReady(p, s, states, numAssigned, moves, probs, i);
    AcceptedPlaced(p, r.state, r.states, r.assignedCount, moves, probs, i + 1);
    AcceptedStep(p, s, states, numAssigned, moves, probs, i);
  }

  /** One step of the acceptance loop keeps the heuristic's invariant. */
  lemma AcceptOneKeepsBookkept(
    p: Params, s: State, states: seq<CourierState>, numAssigned: int,
    moves: seq<CourierMove>, probs: seq<real>, i: int)
    requires Ready(p, s, states, moves, i) && i < |moves| && |probs| == p.courierCount
    requires Bookkept(p, s, states, numAssigned)
    ensures var r := AcceptOne(p, s, states, numAssigned, moves, probs, i);
      Bookkept(p, r.state, r.states, r.assignedCount)
  {
    var (c, d) := (moves[i].courier, moves[i].delivery);
    if Drawn(p, probs, c, numAssigned) && s.assignedTo[d - 1] == 0 {
      AppendKeepsBookkept(p, s, states, numAssigned, c, d);
    }
  }

  /** The acceptance loop keeps the heuristic's invariant. */
  lemma {:induction false} AcceptedKeepsBookkept(
    p: Params, s: State, states: seq<CourierState>, numAssigned: int,
    moves: seq<CourierMove>, probs: seq<real>, i: int)
    requires Ready(p, s, states, moves, i) && |probs| == p.courierCount
    requires Bookkept(p, s, states, numAssigned)
    ensures var r := Accepted(p, s, states, numAssigned, moves, probs, i);
      Bookkept(p, r.state, r.states, r.assignedCount)
    decreases |moves| - i, 1
  {
    if i < |moves| && numAssigned != p.deliveryCount {
      KeptStep(p, s, states, numAssigned, moves, probs, i);
    } else {
      AcceptedDone(p, s, states, numAssigned, moves, probs, i);
    }
  }

  /** The inductive step of `AcceptedKeepsBookkept`. */
  lemma {:induction false} KeptStep(
    p: Params, s: State, states: seq<CourierState>, numAssigned: int,
    moves: seq<CourierMove>, probs: seq<real>, i: int)
    requires Ready(p, s, states, moves, i) && |probs| == p.courierCount
    requires Bookkept(p, s, states, numAssigned)
    requires i < |moves| && numAssigned != p.deliveryCount
    ensures var r := Accepted(p, s, states, numAssigned, moves, probs, i);
      Bookkept(p, r.state, r.states, r.assignedCount)
    decreases |moves| - i, 0
  {
    var r := AcceptOne(p, s, states, numAssigned, moves, probs, i);
    AcceptOneKeepsBookkept(p, s, states, numAssigned, moves, probs, i);
    AcceptOneReady(p, s, states, numAssigned, moves, probs, i);
    AcceptedKeepsBookkept(p, r.state, r.states, r.assignedCount, moves, probs, i + 1);
    AcceptedStep(p, s, states, numAssigned, moves, probs, i);
  }

  /** One move of the acceptance loop, as `AcceptOne` describes it. */
  method AcceptMove(p: Params, sol: Solution, states: seq<CourierState>, numAssigned: int,
                    moves: seq<CourierMove>, probs: seq<real>, i: int)
    returns (states': seq<CourierState>, numAssigned': int)
    requires sol.Valid() && Ready(p, sol.View(), states, moves, i) && i < |moves| && |probs| == p.courierCount
    modifies sol, sol.routingPlan, sol.countAssigned, sol.deliveryTime, sol.assignedCourier, sol.attributedTime
    ensures Round(sol.View(), states', numAssigned') == AcceptOne(p, old(sol.View()), states, numAssigned, moves, probs, i)
  {
    ghost var s := sol.View();
    states', numAssigned' := states, numAssigned;
    var move := moves[i];
    var prob := probs[move.courier - 1];
    prob := prob * prob;
    if prob <= (numAssigned + 1) as real / p.deliveryCount as real {
      if sol.assignedCourier[move.delivery - 1] == 0 {
        AcceptOneApplied(p, s, states, numAssigned, moves, probs, i);
        numAssigned' := numAssigned + 1;
        var cs := AssignAndApply(p, sol, states[move.courier - 1], move);
        states' := states[move.courier - 1 := cs];
        return;
      }
    }
    AcceptOneSkipped(p, s, states, numAssigned, moves, probs, i);
  }

  /** The acceptance loop over the sorted moves. */
  method AcceptMoves(p: Params, sol: Solution, states: seq<CourierState>, numAssigned: int,
                     moves: seq<CourierMove>, probs: seq<real>)
    returns (states': seq<CourierState>, numAssigned': int)
    requires sol.Valid() && Ready(p, sol.View(), states, moves, 0) && |probs| == p.courierCount
    modifies sol, sol.routingPlan, sol.countAssigned, sol.deliveryTime, sol.assignedCourier, sol.attributedTime
    ensures Round(sol.View(), states', numAssigned') == Accepted(p, old(sol.View()), states, numAssigned, moves, probs, 0)
  {
    states', numAssigned' := states, numAssigned;
    var i := 0;
    while i < |moves|
      invariant Ready(p, sol.View(), states', moves, i)
      invariant Accepted(p, sol.View(), states', numAssigned', moves, probs, i)
                == Accepted(p, old(sol.View()), states, numAssigned, moves, probs, 0)
      decreases |moves| - i
    {
      if numAssigned' == p.deliveryCount {
        break;
      }
      AcceptedStep(p, sol.View(), states', numAssigned', moves, probs, i);
      AcceptOneReady(p, sol.View(), states', numAssigned', moves, probs, i);
      states', numAssigned' := AcceptMove(p, sol, states', numAssigned', moves, probs, i);
      i := i + 1;
    }
  }

  // ---------------------------------------------------------------------------
  // One round
  // ---------------------------------------------------------------------------

  /** Each courier's draw of round `iteration`. */
  function Draws(draw: (int, int) -> real, iteration: int, n: nat): (probs: seq<real>)
    ensures |probs| == n && forall j :: 0 <= j < n ==> probs[j] == draw(iteration, j)
  {
    seq(n, j => draw(iteration, j))
  }

  /** `random_probability_vector`: one draw per courier. */
  method DrawAll(draw: (int, int) -> real, iteration: int, n: nat) returns (probs: seq<real>)
    ensures probs == Draws(draw, iteration, n)
  {
    probs := [];
    for i := 0 to n
      invariant |probs| == i && forall j :: 0 <= j < i ==> probs[j] == draw(iteration, j)
    {
      probs := probs + [draw(iteration, i)];
    }
  }

  /** A round of the heuristic from the cursors `cursors`: every courier
      proposes, the proposals are sorted by cost, and the acceptance loop runs
      over them with the round's draws. */
  function RoundFrom(p: Params, s: State, states: seq<CourierState>, cursors: seq<int>,
                     numAssigned: int, probs: seq<real>): Round
    requires StatesPlaced(p, s, states) && CursorsOk(p, cursors) && |probs| == p.courierCount
  {
    SortedReady(p, s, states, cursors);
    Accepted(p, s, states, numAssigned, SortByCost(Proposals(p, s, states, cursors, 0).0), probs, 0)
  }

  /** A round leaves every courier placed, never lowers the assignment count
      and keeps the heuristic's invariant. */
  lemma RoundKeeps(p: Params, s: State, states: seq<CourierState>, cursors: seq<int>,
                   numAssigned: int, probs: seq<real>)
    requires StatesPlaced(p, s, states) && CursorsOk(p, cursors) && |probs| == p.courierCount
    ensures var r := RoundFrom(p, s, states, cursors, numAssigned, probs);
      && StatesPlaced(p, r.state, r.states) && numAssigned <= r.assignedCount
      && r.state.feasible == s.feasible
      && (Bookkept(p, s, states, numAssigned) ==> Bookkept(p, r.state, r.states, r.assignedCount))
  {
    SortedReady(p, s, states, cursors);
    var moves := SortByCost(Proposals(p, s, states, cursors, 0).0);
    AcceptedPlaced(p, s, states, numAssigned, moves, probs, 0);
    if Bookkept(p, s, states, numAssigned) {
      AcceptedKeepsBookkept(p, s, states, numAssigned, moves, probs, 0);
    }
  }

  /** Lines 110-135 of one iteration of the heuristic's loop. */
  method RunRound(p: Params, sol: Solution, finder: GreedyDeliveryFinder, states: seq<CourierState>,
                  numAssigned: int, draw: (int, int) -> real, iteration: int)
    returns (states': seq<CourierState>, numAssigned': int)
    requires sol.Valid() && finder.Valid(p) && StatesPlaced(p, sol.View(), states)
    modifies finder, sol, sol.routingPlan, sol.countAssigned, sol.deliveryTime, sol.assignedCourier, sol.attributedTime
    ensures finder.Valid(p)
    ensures finder.considered == Proposals(p, old(sol.View()), states, old(finder.considered), 0).1
    ensures Round(sol.View(), states', numAssigned')
      == RoundFrom(p, old(sol.View()), states, old(finder.considered), numAssigned,
                   Draws(draw, iteration, p.courierCount))
  {
    ghost var s, cursors := sol.View(), finder.considered;
    var moves := ProposeMoves(p, sol, finder, states);
    SortedReady(p, s, states, cursors);
    moves := SortByCost(moves);
    var probs := DrawAll(draw, iteration, p.courierCount);
    states', numAssigned' := AcceptMoves(p, sol, states, numAssigned, moves, probs);
  }

  // ---------------------------------------------------------------------------
  // The heuristic
  // ---------------------------------------------------------------------------

  /** The routes and the courier states do not depend on the flag or the total. */
  lemma RoutesIgnoreFlagAndTotal(p: Params, s: State, states: seq<CourierState>, b: bool, t: Time)
    requires Routes(p, s) && StatesMatch(p, s, states)
    ensures Routes(p, s.(feasible := b, total := t)) && StatesMatch(p, s.(feasible := b, total := t), states)
  {
    var s' := s.(feasible := b, total := t);
    forall c | 0 <= c < p.courierCount ensures RowKept(p, s', c) && StateMatches(p, s', states, c) {
      assert RowKept(p, s, c) && StateMatches(p, s, states, c);
      forall k | 0 <= k < s.count[c] ensures PairAt(p, s', c, k) {
        assert PairAt(p, s, c, k);
      }
    }
    forall d | 0 <= d < p.deliveryCount ensures DeliveryKept(p, s', d) {
      assert DeliveryKept(p, s, d);
      if s.assignedTo[d] > 0 {
        var k :| 0 <= k < s.count[s.assignedTo[d] - 1] && HoldsAt(p, s, d, k);
        assert HoldsAt(p, s', d, k);
      }
    }
  }

  /** A solution kept by the heuristic with every delivery counted as
      assigned, once flagged feasible: every delivery is on a route, the total
      is the sum of the completion times and, with no negative courier
      capacity, the validator accepts it. */
  lemma Completed(p: Params, s: State, states: seq<CourierState>)
    requires Bookkept(p, s, states, p.deliveryCount)
    ensures var s' := s.(feasible := true);
      && Routes(p, s') && Feasibility.AllAssigned(s') && Totals(s')
      && ((forall c :: 0 <= c < p.courierCount ==> p.courierCapacity[c] >= 0) ==>
            Feasibility.ChecksInRange(p, s') && Feasibility.Feasible(p, s') && Feasibility.Validated(p, s'))
  {
    var s' := s.(feasible := true);
    RoutesIgnoreFlagAndTotal(p, s, states, true, s.total);
    assert s' == s.(feasible := true, total := s.total);
    PositiveFirstBound(s.assignedTo, p.deliveryCount);
    if forall c :: 0 <= c < p.courierCount ==> p.courierCapacity[c] >= 0 {
      Outcome.CompletedIsFeasible(p, s', states);
    }
  }

  /** The starting states are placed. */
  lemma InitialStatesPlaced(p: Params, s: State)
    requires Shaped(p, s)
    ensures StatesPlaced(p, s, InitialStates(p))
  {
  }

  /** The courier states the heuristic starts from. */
  method StartingStates(p: Params) returns (states: seq<CourierState>)
    requires p.Valid()
    ensures states == InitialStates(p)
  {
    states := [];
    for c := 1 to p.courierCount + 1
      invariant states == InitialStates(p)[..c - 1]
    {
      states := states + [CourierState(c, p.courierStart[c - 1], 0)];
    }
  }

  /** Giving up after too many rounds: the total becomes DBL_MAX and the flag
      is cleared; nothing else changes. */
  method GiveUp(p: Params, sol: Solution, ghost states: seq<CourierState>, ghost kept: bool)
    requires Shaped(p, sol.View())
    requires kept ==> Routes(p, sol.View()) && StatesMatch(p, sol.View(), states)
    modifies sol
    ensures sol.View() == old(sol.View()).(feasible := false, total := DoubleMax)
    ensures Shaped(p, sol.View()) && !sol.feasible && sol.totalTime == DoubleMax
    ensures kept ==> Routes(p, sol.View())
  {
    ghost var s := sol.View();
    if kept {
      RoutesIgnoreFlagAndTotal(p, s, states, false, DoubleMax);
    }
    sol.totalTime := DoubleMax;
    sol.feasible := false;
    assert sol.View() == s.(feasible := false, total := DoubleMax);
  }

  /** The loop of `random_greedy_courier_heuristic`, rounds until every
      delivery is assigned, from the starting states and a total of 0. It
      either finishes with the flag untouched and every delivery counted, or
      gives up after `MaxIterations` rounds with the flag clear and the total
      DBL_MAX; on a solution kept by the heuristic, the routes stay kept
      either way. */
  method AssignAll(p: Params, sol: Solution, finder: GreedyDeliveryFinder, draw: (int, int) -> real,
                   ghost kept: bool)
    returns (finished: bool, ghost states: seq<CourierState>)
    requires sol.Valid() && finder.Valid(p) && Shaped(p, sol.View())
    requires StatesPlaced(p, sol.View(), InitialStates(p))
    requires kept ==> Bookkept(p, sol.View(), InitialStates(p), 0)
    modifies finder, sol, sol.routingPlan, sol.countAssigned, sol.deliveryTime, sol.assignedCourier, sol.attributedTime
    ensures Shaped(p, sol.View())
    ensures finished ==> sol.feasible == old(sol.feasible)
    ensures finished && kept ==> Bookkept(p, sol.View(), states, p.deliveryCount)
    ensures !finished ==> !sol.feasible && sol.totalTime == DoubleMax
    ensures !finished && kept ==> Routes(p, sol.View())
    ensures finder.Valid(p)
    ensures forall l :: 0 <= l < p.locationCount ==> old(finder.considered)[l] <= finder.considered[l]
  {
    var courierStates := StartingStates(p);
    var iteration := 0;
    var numAssigned := 0;
    while numAssigned < p.deliveryCount
      invariant 0 <= iteration <= MaxIterations && sol.feasible == old(sol.feasible)
      invariant finder.Valid(p) && StatesPlaced(p, sol.View(), courierStates)
      invariant kept ==> Bookkept(p, sol.View(), courierStates, numAssigned)
      invariant forall l :: 0 <= l < p.locationCount ==> old(finder.considered)[l] <= finder.considered[l]
      decreases MaxIterations - iteration
    {
      iteration := iteration + 1;
      ghost var s, cursors := sol.View(), finder.considered;
      RoundKeeps(p, s, courierStates, cursors, numAssigned, Draws(draw, iteration, p.courierCount));
      courierStates, numAssigned := RunRound(p, sol, finder, courierStates, numAssigned, draw, iteration);
      if iteration > MaxIterations {
        GiveUp(p, sol, courierStates, kept);
        return false, courierStates;
      }
    }
    if kept {
      PositiveFirstBound(sol.View().assignedTo, p.deliveryCount);
    }
    return true, courierStates;
  }

  /** Setting the flag once every delivery is assigned; on a solution kept by
      the heuristic, the result passes the validator, as `Completed` states. */
  method MarkFeasible(p: Params, sol: Solution, ghost states: seq<CourierState>, ghost kept: bool)
    requires Shaped(p, sol.View())
    requires kept ==> Bookkept(p, sol.View(), states, p.deliveryCount)
    modifies sol
    ensures sol.View() == old(sol.View()).(feasible := true)
    ensures Shaped(p, sol.View())
    ensures kept ==> Routes(p, sol.View()) && Feasibility.AllAssigned(sol.View()) && Totals(sol.View())
    ensures kept && (forall c :: 0 <= c < p.courierCount ==> p.courierCapacity[c] >= 0) ==>
      Feasibility.ChecksInRange(p, sol.View()) && Feasibility.Feasible(p, sol.View())
      && Feasibility.Validated(p, sol.View())
  {
    ghost var s := sol.View();
    if kept {
      Completed(p, s, states);
    }
    sol.feasible := true;
    assert sol.View() == s.(feasible := true);
  }

  /** `random_greedy_courier_heuristic`. The draws of the random generator are
      the parameter `draw`: `draw(iteration, c)` is courier `c + 1`'s draw in
      round `iteration`. On a solution as constructed (nothing assigned), the
      routes it builds are pairs `+d, -d` with each delivery's completion time
      and courier recorded; when it sets the flag, every delivery is assigned
      and the total is the sum of the completion times, and, with no negative
      courier capacity, the validator accepts the result. When it gives up, the
      flag is clear and the total is DBL_MAX. */
  method RandomGreedyCourierHeuristic(p: Params, sol: Solution, draw: (int, int) -> real)
    requires sol.Valid() && Shaped(p, sol.View())
    modifies sol, sol.routingPlan, sol.countAssigned, sol.deliveryTime, sol.assignedCourier, sol.attributedTime
    ensures Shaped(p, sol.View())
    ensures !sol.feasible ==> sol.totalTime == DoubleMax
    ensures Empty(old(sol.View())) ==> Routes(p, sol.View())
    ensures Empty(old(sol.View())) && sol.feasible ==>
      Feasibility.AllAssigned(sol.View()) && Totals(sol.View())
    ensures Empty(old(sol.View())) && sol.feasible
            && (forall c :: 0 <= c < p.courierCount ==> p.courierCapacity[c] >= 0) ==>
      Feasibility.ChecksInRange(p, sol.View()) && Feasibility.Feasible(p, sol.View())
      && Feasibility.Validated(p, sol.View())
  {
    ghost var wasEmpty := Empty(sol.View());
    sol.totalTime := Finite(0);
    var finder := new GreedyDeliveryFinder(p);
    if wasEmpty {
      EmptyBookkept(p, sol.View());
    } else {
      InitialStatesPlaced(p, sol.View());
    }
    var finished, states := AssignAll(p, sol, finder, draw, wasEmpty);
    if finished {
      MarkFeasible(p, sol, states, wasEmpty);
    }
  }
}
