# VRPPD routing kernel, modelled and verified in Dafny

This project models the sequential core of a vehicle-routing solver for
pickup-and-delivery problems (VRPPD), written in C++. In that problem couriers
with a capacity and a start location serve deliveries. Each delivery has a
size, a release time, a pickup location and a dropoff location. The model
and its proofs cover five parts of the solver:

- **Problem parameters** (`VRPPDParameters`).
  - The constructor turns the 1-based location ids of the input into 0-based indices.
  - It precomputes two rankings for every location: the nearest other
    locations, and the deliveries ordered by the travel time to their pickup.
- **Solution record** (`VRPPDSolution`).
  - Each courier's route is a fixed-width row of `2 * 4` signed slots: `+d` picks up delivery `d`, `-d` drops it off, and `0` is empty.
  - The record also holds:
    - per-courier counts, attributed times and loads;
    - per-delivery couriers and completion times;
    - the objective total and a feasibility flag.
- **Randomised greedy construction** (`random_greedy_courier_heuristic`).
  - Each round, every courier asks a greedy finder for a move. A move is the first eligible delivery in its location's ranking.
  - The moves are sorted by cost.
  - A move is applied when its courier's squared random draw is within a threshold that grows with the number of deliveries already assigned.
  - The finder keeps one forward-only cursor per location.
- **Per-courier re-sequencing** (`stack_courier_deliveries`).
  - For a courier with two to four deliveries the search tries every balanced bracket pattern (Catalan patterns) combined with every `std::next_permutation` arrangement of the route's pickups.
  - It scores each candidate by replaying the route.
  - It keeps the last candidate that is no worse than the best so far, then installs it.
- **Validator** (`is_feasible`). A read-only re-check in six passes:
  1. assignment;
  2. pickup before dropoff;
  3. time windows and exact times;
  4. capacity;
  5. travel times;
  6. the objective total.

Times in the solver are doubles, but every finite value is a sum of integer travel times and release times. The model therefore keeps finite times as `int`. The two sentinel doubles become constructors of `Times.Time`:

- `DoubleMax`, for `std::numeric_limits<double>::max()`;
- `Infinity`, for `+infinity`.

`DoubleMax` absorbs any finite addition, and `DoubleMax + DoubleMax` overflows to `Infinity`.

Module layout follows the source:

| module | models |
|---|---|
| `Times` | double-valued times and their sentinels |
| `Parameters` | the instance and its constructor |
| `Solutions` | the solution record (a class with array fields, viewed as a `State` value) |
| `Replay` | the time and load replay shared by every component |
| `Moves` | the append step of the heuristic |
| `Greedy` | the greedy finder |
| `Bookkeeping` | the invariant the heuristic keeps |
| `Construction` | the heuristic's loop |
| `Outcome` | what the validator makes of the heuristic's result |
| `Feasibility` | the validator |
| `Brackets` | `catalan_combinations` |
| `Permutations` | `std::next_permutation` |
| `Rerouting` | `delivery_time_of_rerouting`, `apply_rerouting` |
| `Stacking` | `stack_courier_deliveries`, `stack_all_courier_deliveries` |
| `Sequences` | lexicographic order and pickup and dropoff projections |

Each imperative routine of the source is a `method` with its loops. It is proved against a function or predicate on values. The properties of the routine are then lemmas about that function.

## Model

| member | source | states |
|---|---|---|
| Times.Plus | components/heuristic_generator.cpp:45 | adding a finite time keeps a finite total finite and adds the value; the sentinels absorb the addition |
| Times.Add | components/is_feasible.cpp:137-140 | a sum of two times is finite exactly when both terms are |
| Times.AtMostTotalOrder | components/stack_courier_deliveries.cpp:147 | the `<=` the search compares scores with is reflexive, total, antisymmetric and transitive over finite times and both sentinels |
| Parameters.ReadDeliveries | components/vrppd_parameters.h:25-36 | one entry per delivery record: capacity and release time copied, pickup and dropoff location ids made 0-based by subtracting 1 |
| Parameters.ReadCouriers | components/vrppd_parameters.h:38-45 | one entry per courier record: capacity copied, start location made 0-based |
| Parameters.Swap | components/vrppd_parameters.h:55-56 | the sort's exchange step swaps two entries and keeps the multiset |
| Parameters.SortIndicesByKey | components/vrppd_parameters.h:55-56 | the in-place sort leaves the index array non-decreasing by key and a permutation of its input |
| Parameters.RankByKey | components/vrppd_parameters.h:53-56 | sorting `0..n-1` by key yields each index once, in non-decreasing key order |
| Parameters.WithoutFacts | components/vrppd_parameters.h:57 | erasing `x` removes exactly its occurrences, keeps every other element and keeps a sorted sequence sorted |
| Parameters.RangeOccursOnce | components/vrppd_parameters.h:53-54 | every index below `n` occurs once in `0..n-1`, nothing else occurs |
| Parameters.NearestLocationRow | components/vrppd_parameters.h:52-59 | a nearest-location row has length `location_count - 1`, holds every location except `i`, and is non-decreasing in travel time from `i` |
| Parameters.NearestDeliveryRow | components/vrppd_parameters.h:63-73 | a nearest-delivery row is a permutation of the 1-based ids `1..delivery_count`, non-decreasing in travel time from `i` to each delivery's pickup |
| Parameters.NearestLocationMatrix | components/vrppd_parameters.h:50-59 | one such nearest-location row per location |
| Parameters.NearestDeliveryMatrix | components/vrppd_parameters.h:61-73 | one such nearest-delivery row per location |
| Parameters.NewParameters | components/vrppd_parameters.h:24-74 | the three counts are the input sizes; every vector has its count's length; fields are copied or shifted to 0-based; both rankings hold for every location; with every location id in range the instance is valid for the other components |
| Solutions.Solution.constructor | components/vrppd_solution.h:8-26 | not feasible, a cap of 4 deliveries per courier, a bound of 180; total and every delivery time at DBL_MAX; `courier_count` rows of 8 zeros; counts, couriers, attributed times and loads all 0 |
| Solutions.NewSolutionShaped | components/vrppd_solution.h:19-26 | a record in that initial state is well shaped for its instance and empty |
| Replay.PickupStep | components/heuristic_generator.cpp:32-34 | a pickup ends at the pickup location at the later of arrival and release time |
| Replay.DropoffStep | components/heuristic_generator.cpp:35 | a dropoff ends at the dropoff location, one travel time later |
| Replay.PrefixDetermines | components/stack_courier_deliveries.cpp:56-79 | clock, load and dropoff sum after `k` slots depend only on the first `k` slots |
| Replay.PairStep | components/heuristic_generator.cpp:29-37 | the slot pair `+d, -d` moves the clock as the append cost does, leaves the load unchanged and adds the dropoff time to the sum |
| Replay.FirstEmpty | components/stack_courier_deliveries.cpp:76-78 | the index where the replay loop breaks: the first empty slot, or the end |
| Replay.OverloadedLateStep | components/stack_courier_deliveries.cpp:57-74 | an overload or a late dropoff in slots `[i, e)` is one at slot `i` or one in `[i+1, e)` |
| Replay.RerouteCostFromCharacterized | components/stack_courier_deliveries.cpp:56-80 | the scoring loop from slot `i` returns DBL_MAX when a pickup before the first empty slot overloads the courier, a dropoff there is late, or the sum is already the sentinel; otherwise it returns the running sum plus the dropoff times up to that slot |
| Rerouting.RerouteCostMeaning | components/stack_courier_deliveries.cpp:50-81 | the score of a route is DBL_MAX if a pickup before its first empty slot overloads the courier or a dropoff completes after the bound, and otherwise the sum of dropoff completion times |
| Rerouting.RerouteCostReadsPrefix | components/stack_courier_deliveries.cpp:56 | two routes that agree on the first `2 * count` slots get the same score |
| Rerouting.DeliveryTimeOfRerouting | components/stack_courier_deliveries.cpp:50-81 | the loop returns the score `RerouteCost` describes, including the early return at an overloading pickup |
| Rerouting.StampedMeaning | components/stack_courier_deliveries.cpp:101-107 | after the replay each delivery's stored time is the completion time of its last dropoff in the replayed slots, or unchanged when there is none |
| Rerouting.ReplaySlot | components/stack_courier_deliveries.cpp:93-109 | one slot: the clock steps; the courier's load moves by the slot's capacity; a dropoff stamps its delivery's time and adds it to the attributed time |
| Rerouting.ReplayNext | components/stack_courier_deliveries.cpp:92-110 | after slot `i` the arrays track the replay of the first `i + 1` slots |
| Rerouting.ApplyRerouting | components/stack_courier_deliveries.cpp:83-115 | the new state: that courier's row replaced; its attributed time and load recomputed over `2 * count` slots; its dropped deliveries' times stamped; the total moved by new minus old attributed time |
| Rerouting.ReroutedFrame | components/stack_courier_deliveries.cpp:83-115 | installing a route changes only that courier's row, attributed time and load, the times of deliveries it drops, and the total; counts, assignment, flag and the other couriers are untouched; a full-width route keeps the solution shaped |
| Rerouting.ReroutedTotal | components/stack_courier_deliveries.cpp:103-113 | the attributed time becomes the replayed dropoff sum; a finite total changes by new minus old attributed time; a sentinel total stays |
| Rerouting.ReroutedTimes | components/stack_courier_deliveries.cpp:103-105 | a delivery dropped in the replayed slots gets the completion time of its last dropoff there |
| Rerouting.CapSumPermutation | components/stack_courier_deliveries.cpp:94-102 | the summed capacity of a list of deliveries does not depend on its order |
| Rerouting.LoadIsDifference | components/stack_courier_deliveries.cpp:94-102 | the load after `k` slots is the capacity picked up minus the capacity dropped off |
| Rerouting.ReroutedBalancedLoad | components/stack_courier_deliveries.cpp:88-102 | a route that drops off exactly the deliveries it picks up leaves the courier's load at 0 |
| Brackets.Generator.constructor | components/stack_courier_deliveries.cpp:12-31 | the generator starts with an empty result and an empty stack |
| Brackets.Generator.Backtrack | components/stack_courier_deliveries.cpp:14-29 | the push/pop backtracking leaves the stack as it found it and appends exactly `Completions` of the stack to the result, opens tried first |
| Brackets.CompletionsSound | components/stack_courier_deliveries.cpp:14-29 | every generated word is a Dyck word: length `2n`, `n` opens, every prefix with at least as many opens as closes |
| Brackets.CompletionsComplete | components/stack_courier_deliveries.cpp:14-29 | every Dyck word extending the current stack is generated |
| Brackets.CompletionsOrdered | components/stack_courier_deliveries.cpp:19-28 | the words come out in strictly increasing lexicographic order, since `0` (open) is tried before `1` (close) |
| Brackets.CompletionsCount | components/stack_courier_deliveries.cpp:14-29 | the number of completions is the ballot number of the opens and closes still to place |
| Brackets.CatalanIsBallot | components/stack_courier_deliveries.cpp:11-32 | the ballot number from the empty stack is the Catalan number |
| Brackets.CatalanSmallValues | components/stack_courier_deliveries.cpp:135-138 | for the 1 to 4 deliveries the search admits there are 1, 2, 5 and 14 patterns |
| Brackets.RelabelInPlace | components/stack_courier_deliveries.cpp:34-44 | the in-place relabelling turns the `k`-th open into `k` and the `k`-th close into `-k` |
| Brackets.CatalanCombinations | components/stack_courier_deliveries.cpp:11-47 | `catalan_combinations(n)` returns the relabelled words in generation order |
| Brackets.LabelledCounts | components/stack_courier_deliveries.cpp:35-43 | after relabelling, the positive labels in any prefix are `1, 2, ...` in order, and so are the negated negative labels |
| Brackets.LabelledDyck | components/stack_courier_deliveries.cpp:34-44 | a relabelled Dyck word holds each of `1..n` once positive and once negative, positives exactly at opens, with every `-j` after its `+j` |
| Brackets.CombinationsCharacterized | components/stack_courier_deliveries.cpp:11-47 | `catalan_combinations(n)` has Catalan(n) elements; its words are exactly the Dyck words, in increasing lexicographic order |
| Brackets.CombinationsLabels | components/stack_courier_deliveries.cpp:34-46 | every returned pattern has length `2n` and opens `1..n` in order and closes `-1..-n` in order, each close after its open |
| Sequences.LexTransitive | components/stack_courier_deliveries.cpp:152 | lexicographic order is transitive |
| Sequences.LexTrichotomy | components/stack_courier_deliveries.cpp:152 | two different arrangements are ordered one way or the other |
| Permutations.ReverseRange | components/stack_courier_deliveries.cpp:152 | the suffix reversal of `std::next_permutation` reverses `a[lo..hi]` and leaves the rest |
| Permutations.FindPivot | components/stack_courier_deliveries.cpp:152 | finds the last position followed by a larger element, or -1 |
| Permutations.FindLastAbove | components/stack_courier_deliveries.cpp:152 | finds the last position after the pivot holding a larger element |
| Permutations.NextPermutation | components/stack_courier_deliveries.cpp:152 | the in-place step yields the arrangement and the flag `NextPerm` describes |
| Permutations.NextPermPermutes | components/stack_courier_deliveries.cpp:152 | the next arrangement is a permutation of the current one |
| Permutations.NextPermOrder | components/stack_courier_deliveries.cpp:152 | the flag is true exactly when the arrangement is not the largest; the next arrangement is then lexicographically larger; past the largest it wraps to the smallest |
| Permutations.NextPermImmediate | components/stack_courier_deliveries.cpp:152 | no arrangement lies strictly between an arrangement and its successor |
| Permutations.NextPermCloser | components/stack_courier_deliveries.cpp:137-152 | each step strictly decreases a bounded measure, so the do-while ends |
| Permutations.OrbitEnds | components/stack_courier_deliveries.cpp:136-152 | the visited arrangements start at the route's pickup order and end at the largest arrangement |
| Permutations.OrbitPermutes | components/stack_courier_deliveries.cpp:136-152 | every visited arrangement is a permutation of the start |
| Permutations.OrbitIncreasing | components/stack_courier_deliveries.cpp:136-152 | the arrangements are visited in strictly increasing lexicographic order, each once |
| Permutations.OrbitComplete | components/stack_courier_deliveries.cpp:136-152 | every permutation lexicographically at or after the start order is visited |
| Stacking.FillsUps | components/stack_courier_deliveries.cpp:139-145 | filling a pattern with an arrangement puts its first pickups in the arrangement's order |
| Stacking.FillsDowns | components/stack_courier_deliveries.cpp:139-145 | filling a pattern puts the matching dropoffs in the same order |
| Stacking.CandidateShape | components/stack_courier_deliveries.cpp:125-145 | a filled pattern is stacked: `2k` non-empty slots whose pickups and dropoffs both follow the arrangement, every dropoff after its pickup, empty slots after |
| Stacking.CandidatesFrom | components/stack_courier_deliveries.cpp:137-152 | every scored candidate is some visited arrangement filled into some pattern |
| Stacking.CandidatesAt | components/stack_courier_deliveries.cpp:137-152 | arrangement `i` filled into pattern `m` is scored at position `i * patterns + m` |
| Stacking.KeepAllBest | components/stack_courier_deliveries.cpp:124-150 | the kept score is at most the starting score and at most every candidate's score |
| Stacking.KeepAllLastWins | components/stack_courier_deliveries.cpp:147-150 | because the comparison is `<=`, the kept pick either is the starting pick, which nothing matched, or is a candidate that no later candidate matched |
| Stacking.KeepAllChoice | components/stack_courier_deliveries.cpp:123-150 | the kept pick is the starting route or one of the candidates with its own score |
| Stacking.KeepAllAppend | components/stack_courier_deliveries.cpp:137-152 | comparing over two runs of candidates is comparing over the first, then the second |
| Stacking.SearchSpaceExact | components/stack_courier_deliveries.cpp:136-152 | the scored candidates are exactly the patterns filled with arrangements that are permutations of the route's pickup order and lexicographically at or after it |
| Stacking.SearchFits | components/stack_courier_deliveries.cpp:123-158 | the search's pick is the current row or a scored candidate; either can be installed and keeps the solution shaped |
| Stacking.FillIncumbent | components/stack_courier_deliveries.cpp:139-145 | the incumbent buffer ends up holding the pattern filled with the arrangement, followed by empty slots |
| Stacking.ScorePatterns | components/stack_courier_deliveries.cpp:138-151 | the pattern loop's best pick is the keep-last-no-worse fold over this arrangement's candidates |
| Stacking.VisitArrangement | components/stack_courier_deliveries.cpp:137-152 | one pass of the do-while scores this arrangement's candidates, then advances it with `next_permutation` |
| Stacking.SearchBest | components/stack_courier_deliveries.cpp:136-152 | the do-while returns the pick `Search` describes |
| Stacking.StackCourierDeliveries | components/stack_courier_deliveries.cpp:117-159 | status and new state are `StackOutcome`: at most one delivery changes nothing; an empty slot among the first `2*count` is `MalformedRoute`; five or more deliveries is `TooManyDeliveries`; both errors leave the state as it was; otherwise the best route is installed |
| Stacking.StackFrame | components/stack_courier_deliveries.cpp:117-159 | stacking changes only that courier's row, attributed time and load, delivery times and the total; it keeps the solution shaped, keeps a courier consistent with its row, and an error changes nothing |
| Stacking.StackNeverWorse | components/stack_courier_deliveries.cpp:123-158 | for a courier whose attributed time matches its row, the new attributed time is at most the old one and a finite total does not grow |
| Stacking.SearchAttributed | components/stack_courier_deliveries.cpp:146-158 | the installed attributed time is the kept score, and it is finite and at most the old attributed time |
| Stacking.StackOptimal | components/stack_courier_deliveries.cpp:136-158 | the installed attributed time is at most the score of every pattern filled with every arrangement at or after the pickup order |
| Stacking.SearchStacked | components/stack_courier_deliveries.cpp:136-152 | a newly chosen route is stacked on its own pickups, drawn from the route's original pickups |
| Stacking.StackInstalled | components/stack_courier_deliveries.cpp:83-158 | a newly chosen route is installed as the courier's row and leaves its load at 0 |
| Stacking.StackKeepsOthers | components/stack_courier_deliveries.cpp:165-167 | stacking one courier leaves every other courier stackable and consistent |
| Stacking.StackAllFrame | components/stack_courier_deliveries.cpp:162-168 | the pass from courier `c` on keeps the solution shaped and keeps counts, assignment, flag, cap and bound; the couriers before `c` keep their rows, attributed times and loads |
| Stacking.StackAllNeverWorse | components/stack_courier_deliveries.cpp:162-168 | after the pass no courier's attributed time is higher, a finite total does not grow and a sentinel total stays |
| Stacking.StackAllConsistent | components/stack_courier_deliveries.cpp:162-168 | after the pass every courier's attributed time is still what its row replays to |
| Stacking.StackAllCourierDeliveries | components/stack_courier_deliveries.cpp:162-168 | the loop over couriers `1..courier_count` yields `StackAllFrom`, stopping at the first courier whose stacking throws |
| Moves.AppendDeliveryTime | components/heuristic_generator.cpp:29-37 | the append cost is the replayed completion of pickup then dropoff; it is at least the current time plus both legs, and at least the release time plus the last leg |
| Moves.AppendIsReplay | components/heuristic_generator.cpp:39-55 | appending to a row whose replay ends at the courier state completes the new dropoff at the append cost, keeps the load and earlier replays, and adds the cost to the row's dropoff sum |
| Moves.ApplyCourierMove | components/heuristic_generator.cpp:39-55 | an appending move writes `+d` at slot `2k` and `-d` at `2k+1`, increments the count, records the courier and time, adds the time to the attributed time and the total, and moves the courier state to the dropoff at that time; a non-appending move is `NotImplemented` and changes nothing |
| Moves.AssignAndApply | components/heuristic_generator.cpp:129-133 | recording the courier and then applying the move gives the same state as the append |
| Moves.MarkThenAppend | components/heuristic_generator.cpp:130-132 | recording the courier before the append keeps the solution shaped and gives the same append |
| Greedy.FirstEligible | components/heuristic_generator.cpp:67-77 | the first rank at or after the cursor whose delivery is unassigned and fits the courier, or `delivery_count` |
| Greedy.Proposal | components/heuristic_generator.cpp:65-87 | the proposal is the no-move `(0, infinity, false)` with the cursor at `delivery_count`, or the first eligible delivery from the cursor for a courier below its cap, priced at its append cost and passing `current_time + cost <= bound`, with the cursor left on it; the cursor never moves back |
| Greedy.ProposalExists | components/heuristic_generator.cpp:67-86 | a move is proposed exactly when the courier is below its cap, some eligible delivery is ranked at or after the cursor, and the first one passes the bound test |
| Greedy.GreedyDeliveryFinder.constructor | components/heuristic_generator.cpp:62-63 | one cursor per location, each at 0 |
| Greedy.GreedyDeliveryFinder.GreedyDeliveryOfCourier | components/heuristic_generator.cpp:65-87 | the move and the new cursor of the courier's location are `Proposal`; no other location's cursor moves |
| Bookkeeping.PositiveFirstBound | components/heuristic_generator.cpp:108-131 | the count of deliveries with a positive courier is at most the number looked at, and reaches it only when every one of them has a positive courier |
| Bookkeeping.EmptyBookkept | components/heuristic_generator.cpp:91-98 | a fresh solution with the total reset to 0 satisfies the heuristic's invariant with nothing assigned |
| Bookkeeping.AppendKeepsBookkept | components/heuristic_generator.cpp:39-133 | an append keeps the invariant: rows are pairs `+d, -d` of this courier within its cap and capacity; each delivery is unassigned at DBL_MAX or on one pair of its courier at its replayed time; courier states end where their rows replay to; the total is the sum of recorded times and of attributed times; the count grows by one |
| Construction.Proposals | components/heuristic_generator.cpp:111-115 | the couriers' moves in courier order, each courier reading the cursor the previous couriers left at its location; no cursor moves back |
| Construction.ProposalsProposable | components/heuristic_generator.cpp:112-114 | every proposed move can be applied, is priced at its append cost, passes the bound test, and comes from a distinct courier in increasing order |
| Construction.ProposeMoves | components/heuristic_generator.cpp:111-115 | the proposal loop yields the moves and cursors `Proposals` describes |
| Construction.ProposeNext | components/heuristic_generator.cpp:112-114 | one finder call leaves what the current and remaining couriers propose together unchanged |
| Construction.InsertSorted | components/heuristic_generator.cpp:116-117 | inserting a move keeps the moves sorted by cost |
| Construction.SortByCost | components/heuristic_generator.cpp:116-117 | sorting keeps the multiset of moves |
| Construction.SortSorted | components/heuristic_generator.cpp:116-117 | sorting yields moves in non-decreasing cost order |
| Construction.SortDistinct | components/heuristic_generator.cpp:116-117 | sorting gives no courier a second move |
| Construction.SortedReady | components/heuristic_generator.cpp:111-117 | a round's sorted moves can all be applied and belong to distinct couriers |
| Construction.ReadyAfterAppend | components/heuristic_generator.cpp:124-134 | after one move is applied, the later moves, all from other couriers, can still be applied |
| Construction.DrawAll | components/heuristic_generator.cpp:119-122 | the loop fills the vector `Draws` describes |
| Construction.AcceptOne | components/heuristic_generator.cpp:126-134 | one move adds at most one assignment and never changes the flag |
| Construction.AcceptedKeepsBookkept | components/heuristic_generator.cpp:124-135 | the acceptance loop keeps the heuristic's invariant |
| Construction.AcceptMove | components/heuristic_generator.cpp:125-134 | one iteration of the acceptance loop does what `AcceptOne` describes |
| Construction.AcceptMoves | components/heuristic_generator.cpp:124-135 | the acceptance loop does what `Accepted` describes |
| Construction.RoundKeeps | components/heuristic_generator.cpp:110-135 | a round leaves every courier placed, never lowers the assignment count, keeps the flag and keeps the invariant |
| Construction.RunRound | components/heuristic_generator.cpp:110-135 | one iteration of the loop body is the round `RoundFrom` describes, with this round's draws, and leaves the finder's cursors where the couriers' proposals, in courier order, moved them |
| Construction.Completed | components/heuristic_generator.cpp:108-142 | once the invariant holds with every delivery counted, setting the flag gives a solution whose deliveries are all on routes and whose total is the sum of completion times; with no negative courier capacity the validator accepts it |
| Construction.StartingStates | components/heuristic_generator.cpp:95-98 | the loop builds the initial courier states |
| Construction.GiveUp | components/heuristic_generator.cpp:136-140 | after more than 10000 rounds the total becomes DBL_MAX and the flag is cleared, and nothing else changes |
| Construction.AssignAll | components/heuristic_generator.cpp:100-141 | the loop either finishes with every delivery counted and, from a kept start, the invariant kept, or gives up with the flag clear and the total at DBL_MAX; across all rounds no location's cursor moves back |
| Construction.MarkFeasible | components/heuristic_generator.cpp:142 | setting the flag changes nothing else; on a kept solution every delivery is assigned, the totals agree and, with non-negative capacities, both validators accept |
| Construction.RandomGreedyCourierHeuristic | components/heuristic_generator.cpp:90-143 | a cleared flag comes with a DBL_MAX total; from an empty solution the routes are pairs `+d, -d` with recorded couriers and times; a set flag means every delivery is assigned and the total is the sum of completion times and of attributed times; with no negative capacity the validator accepts the result |
| Outcome.SlotShape | components/heuristic_generator.cpp:46-49 | a slot of a kept row is empty past the pairs, an even slot picks up a delivery of this courier, and the odd slot after it drops the same delivery |
| Outcome.RowLoad | components/is_feasible.cpp:93-101 | along a kept row the load is one delivery's size after a pickup slot and 0 after every other slot |
| Outcome.RowWithinCapacity | components/is_feasible.cpp:93-107 | a kept row passes the capacity pass when the courier's capacity is not negative |
| Outcome.RowOnTime | components/is_feasible.cpp:111-133 | a kept row passes the travel-time pass: no dropoff's stored time is after its replayed arrival |
| Outcome.DeliveryOrdered | components/is_feasible.cpp:26-53 | on a completed kept solution every delivery passes the order pass |
| Outcome.WindowsAgree | components/is_feasible.cpp:57-89 | on a completed kept solution the time-window pass holds as written and with the corrected index |
| Outcome.TotalAgrees | components/is_feasible.cpp:137-152 | on a completed kept solution the total check passes |
| Outcome.CompletedIsFeasible | components/is_feasible.cpp:8-158 | a completed kept solution with the flag set, and no negative courier capacity, is accepted by the validator as written and by the corrected one |
| Feasibility.InOrderMeaning | components/is_feasible.cpp:29-52 | the order pass accepts delivery `i` exactly when `+i` and `-i` both occur and every `-i` has a `+i` before it |
| Feasibility.TotalOkMeaning | components/is_feasible.cpp:137-152 | the total check accepts exactly a total equal to the double sum of stored times |
| Feasibility.SumTimesMeaning | components/is_feasible.cpp:137-140 | the double sum is finite exactly when every stored time is, and is then the sum of the values |
| Feasibility.CapacityOkMeaning | components/is_feasible.cpp:93-107 | with non-negative sizes and capacity, the capacity pass fails exactly when some pickup overloads the courier |
| Feasibility.LastPickupOverloads | components/is_feasible.cpp:93-107 | a load above a non-negative capacity was first reached at a pickup |
| Feasibility.TravelCoversWindows | components/is_feasible.cpp:63-133 | the arrival test of the time-window pass is implied by the travel-time pass |
| Feasibility.ValidatedObjective | components/is_feasible.cpp:57-152 | under the corrected validator, when every delivery is dropped in its courier's replayed prefix, every stored time is a replayed dropoff time and the total is their finite sum |
| Feasibility.CheckAssigned | components/is_feasible.cpp:17-22 | pass 1 is true exactly when every delivery has a positive courier id |
| Feasibility.CheckOrder | components/is_feasible.cpp:27-52 | the scan of delivery `i`'s full row decides `DeliveryInOrder` |
| Feasibility.CheckOrders | components/is_feasible.cpp:26-53 | pass 2 is true exactly when every delivery is in order |
| Feasibility.CheckWindow | components/is_feasible.cpp:59-88 | the replay of the courier of delivery `d + 1` decides every slot test of pass 3 for loop index `d`, including the `-d` comparison with `delivery_delivery_time[d - 1]` |
| Feasibility.CheckWindows | components/is_feasible.cpp:57-89 | pass 3 is true exactly when every slot test holds |
| Feasibility.CheckCapacity | components/is_feasible.cpp:94-106 | the running load of courier `i` over its full row stays within its capacity |
| Feasibility.CheckCapacities | components/is_feasible.cpp:93-107 | pass 4 is true exactly when every courier stays within capacity |
| Feasibility.CheckCourierTravel | components/is_feasible.cpp:112-132 | no dropoff of courier `i` has its stored time after the replayed arrival |
| Feasibility.CheckTravel | components/is_feasible.cpp:111-133 | pass 5 is true exactly when that holds for every courier |
| Feasibility.CheckTotal | components/is_feasible.cpp:137-152 | pass 6 is true exactly when the double sum of stored times equals the total |
| Feasibility.IsFeasible | components/is_feasible.cpp:8-158 | the result is the flag and then the conjunction of all six passes; every pass runs once the flag is set, and nothing is written |
| Feasibility.StaleTimeAccepted | components/is_feasible.cpp:80-81 | as written, a one-delivery solution whose stored time `t < 5` is earlier than the replayed dropoff time 5 passes every check |
| Feasibility.StaleTimeRejected | components/is_feasible.cpp:80-81 | the corrected validator rejects that solution for every `t != 5` |
| Feasibility.UnassignedReadsRowMinusOne | components/is_feasible.cpp:26-63 | a well-shaped one-delivery solution with the flag set and its delivery unassigned fails pass 1, yet passes 2 and 3 would index plan row `-1` for it; the corrected validator rejects it |
| Feasibility.ValidatedRejectsUnassigned | components/is_feasible.cpp:17-22 | the corrected validator rejects every solution with an unassigned delivery |

## Left out

- Reading the CSV instance files (`read_data.cpp`), the configuration reader, the solution writer, the logger and the stopwatch are input and output. The instance enters the model as an `InstanceData` value.
- `main.cpp` is not part of this model. It handles the wall-clock-bounded restart loop, its keep-best rule and its capacity pre-check.
- `std::random_device` and `std::mt19937` are replaced by the parameter `draw`: `draw(round, c)` is courier `c + 1`'s draw in that round.
- Floating point:
  - finite times are integers and the two sentinels are explicit;
  - the validator's `1e-6` tolerance is exact equality;
  - a NaN cannot arise from integer-valued inputs and is not modelled.
- Times.Plus: does not model the rounding by which a finite double grows past DBL_MAX, because every time in the solver stays far below it.
- `std::sort` promises no order among ties. The model sorts with a stable insertion sort, so it fixes one tie order, but every property proved about the sorted moves uses only their sortedness by cost and their multiset.
- `std::runtime_error` exceptions become status values: `MoveStatus.NotImplemented`, `Stacking.Status.MalformedRoute` and `Stacking.Status.TooManyDeliveries`. A thrown error in the pass over all couriers ends the pass with its status.
- The `std::cout` diagnostics are left out. The results are the booleans the source returns.
- Out-of-range reads in the source are undefined behaviour, so they are preconditions in the model rather than modelled outcomes:
  - Parameters.NewParameters: requires a square travel-time matrix and pickup ids within the locations, because the ranking reads `distance[i][pickup]`. Out-of-range dropoff or start ids only cost the conclusion `Valid()`.
  - Stacking.StackCourierDeliveries: requires that a searched route without empty slots holds at least `count` pickups (`CanStack`), because otherwise `permutation[combination[i] - 1]` reads past the permutation.
  - Feasibility.IsFeasible: requires `ChecksInRange`. With the flag set, every delivery must name a courier in `1..courier_count`, and delivery 1's courier must have no empty slot among its replayed stops. Otherwise the source reads row `-1` or `delivery_delivery_time[-1]`. Both cases are recorded under Findings, and the corrected `Validated` is total.
- Outcome.CompletedIsFeasible: states acceptance only for non-negative courier capacities. With a negative capacity the capacity pass rejects even an empty row, which the heuristic does not check.
- Construction.RandomGreedyCourierHeuristic: the invariant and the acceptance by the validator are proved only for a solution that starts empty, as the constructor leaves it. On other inputs only the shape, the flag and the sentinel total are stated.
- The double-valued `courier_current_load` and `courier_attributed_delivery_time` hold sums of integers and are modelled as `int`.
- The loop bodies of several methods are split into helper methods: `ProposeNext`, `AcceptMove`, `RunRound`, `ReplayNext`, `ScorePatterns`, `VisitArrangement` and the `Read*`/`Nearest*` methods. Each states one iteration of the source's loop.

## Findings

| source | as written | input that shows it | evidently intended | confidence | as-written member | corrected member |
|---|---|---|---|---|---|---|
| components/is_feasible.cpp:26-63 | with the flag set, passes 2 and 3 index `routing_plan[delivery_courier - 1]` before pass 1's verdict is used, so an unassigned delivery (courier 0) reads row `-1` | one courier, one delivery with `delivery_assigned_courier = [0]` and the flag set | an unassigned delivery is reported and rejected without reading outside the plan | not executed | Feasibility.UnassignedReadsRowMinusOne | Feasibility.ValidatedRejectsUnassigned |
| components/is_feasible.cpp:57-81 | the exact-time test compares the 0-based loop index with 1-based ids: it looks for `-delivery_index` and reads `delivery_delivery_time[delivery_index - 1]`. Delivery `d + 1` is therefore never compared with its own dropoff, and index 0 looks for `-0`, matching empty slots | one courier at location 0 with capacity 10; one delivery of size 1 from location 0 to location 1, 5 apart, released at 0; plan row `[1, -1, 0, ...]`; stored time and total `t = 3` | every delivery's stored time equals the replayed time of its own dropoff | not executed | Feasibility.StaleTimeAccepted | Feasibility.StaleTimeRejected |
