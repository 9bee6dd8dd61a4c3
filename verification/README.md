# V2X dispatch: a verified model

The system splits a power request (kW, positive for injection, negative for consumption)
over a fleet of electric vehicles, sends one order per vehicle, collects acknowledgments and
moves the power of the vehicles that did not answer to the others. Around that core it plans
a day ahead, publishes events, simulates vehicles and keeps daily energy figures.

This project models those parts in Dafny and proves what they guarantee, for every fleet,
every request, every interleaving and every iteration order of a map.

| file | what it models |
|---|---|
| `Totals.dfy`, `Arithmetic.dfy` | order-free sums over maps; proportional shares and halving |
| `Fleet.dfy` | vehicles, signals, effective capacity, the energy floor |
| `WaterFilling.dfy` | the reference: water filling, max-min fairness |
| `EqualDispatcher.dfy` | the equal dispatcher, with its list filtered in place |
| `Distribution.dfy`, `Backlog.dfy`, `Scheduler.dfy` | the day-ahead scheduler |
| `SmartAllocation.dfy`, `ScoredDispatch.dfy`, `ScoreShares.dfy` | the scoring dispatcher, and how it shares power out |
| `LpDispatch.dfy`, `SegmentedDispatch.dfy` | the gate around a linear program; dispatch by segment |
| `Fallback.dfy`, `BalancedFallback.dfy`, `Pipeline.dfy`, `FallbackLimits.dfy` | reallocation, dispatch followed by reallocation, and the power limits |
| `AckProtocol.dfy` | orders and acknowledgments as interleaved steps |
| `EventBus.dfy` | bounded fan-out channels under a read-write lock |
| `Simulator.dfy` | battery and simulated vehicle |
| `EcoKpi.dfy` | the daily energy store, live recording and replay |

How the model is written:

- Powers, energies and states of charge are `real`; instants and durations are integers in
  nanoseconds; a day is a UTC day.
- Code that updates things step by step is a method with loops, arrays and classes, proved
  equal to a function on values; the theorems are about that function. Where the source
  filters a slice into its own prefix (`next := list[:0]`), the method reads and writes one
  array at two indices.
- Maps are iterated by picking any remaining key, so every iteration order is covered.
- Goroutines are sequences of atomic steps. A step that is not enabled changes nothing, so a
  statement about all sequences is one about all interleavings.
- Assumed of the inputs: vehicle identifiers are distinct (discovery removes duplicates),
  and, where a contract says so, `MaxPower` is not negative, the state of charge lies in
  [0, 1] and a battery has positive capacity. Command identifiers (UUIDs) and channels are
  never reused.

What the proofs turned up about the code, each with its exact condition:

- `core/dispatch/doc.go:21` says that the equal dispatcher respects `MaxPower`. For a
  negative request it splits evenly, and respects the limits if and only if the even share is
  within every limit (`NegativeRequests`, instance `NegativeRequestExceedsLimit`).
- After a negative request the fallback counts power already assigned as additional room. The
  degraded limits then hold, whoever acknowledges, if and only if no vehicle's
  worst case exceeds its limit: its share, plus the smaller of its capacity and the shares of
  all others (`NegativeLimitsIff`, instance `NegativeFallbackExceedsLimit`).
- `core/dispatch/doc.go:38` says that power is allocated proportionally to scores. In rounds
  that saturate nobody this holds if and only if at most one candidate has a positive score;
  otherwise the earlier of two scored candidates gets strictly more power per score
  (`ProportionalIff`, `EarlierIsFavoured`, instance `EqualScoresUnequalPower`).
- The loop of `allocatePower` has no bound on its passes. Over exact numbers it ends if and
  only if the survivors cannot take more than what is left, or there is at most one survivor
  (`LoopEndsIff`). The rounds of the scoring dispatcher with `MaxRounds = 0` go on as long as
  two positively scored candidates are in play (`RoundsGoOn`), which can be for ever
  (`RoundsRepeat`).
- An acknowledgment can be lost in three ways: it arrives before `SendOrder` has registered
  the order (`EarlyAckIsLost`), the timer wins although the token is there
  (`TimerBeatsToken`), or it arrives between the timer and the removal of the entry
  (`LateAckIsLost`). A finished order is reported acknowledged if and only if `WaitForAck`
  took its token after such an acknowledgment had been processed, and as timed out if and only
  if its timer fired while it waited (`AcknowledgedIff`, `TimeoutMeans`).
- A tick of length zero, wherever it occurs, resets the power of a simulated vehicle. The
  closed form of the state of charge then holds if and only if no time follows, there was no
  power, or the battery was already empty or full (`EmptyTickStopsTheVehicle`).
- `GeneratePlan` is documented as returning one entry per vehicle and slot. A vehicle that is
  available in a slot has an entry if and only if it can take power and the first pass of
  `distribute` comes to it with more than 1e-6 kW in hand (`EntryIff`,
  `EveryVehicleHasEntryIff`, instance `PlanLeavesVehicleOut`).
- The exits "nothing changed" of the equal dispatcher, "nothing consumed" of the scoring
  dispatcher, "slot duration too long" of the scheduler and "unknown command" of
  `WaitForAck` (for orders of a dispatch) are never taken (`TopUpDrops`, `RoundSpends`,
  `GeneratePlan`, `LookUpSucceeds`).

## Model

| member | source | states |
|---|---|---|
| `WaterFilling.WaterFillingIsFair` | core/dispatch/dispatcher.go:8-53 | an allocation in which everybody gets min(limit, level) and the total is min(request, sum of limits) is max-min fair: nobody can get more unless somebody with no more than him gets less |
| `WaterFilling.WaterFillingIsFeasible` | core/dispatch/dispatcher.go:8-53 | such an allocation respects limits and request, and no feasible one has a larger total |
| `WaterFilling.FairIsWaterFilling` | core/dispatch/dispatcher.go:8-53 | every max-min fair allocation equals it |
| `WaterFilling.WaterFillingUnique` | core/dispatch/dispatcher.go:8-53 | two levels that meet the same request give the same allocation |
| `WaterFilling.LowerTotalLowerShares` | core/dispatch/dispatcher.go:8-53 | the level with the smaller total gives nobody more |
| `EqualDispatcher.SplitEqually` | core/dispatch/dispatcher.go:14-26 | the first loop establishes a partial water filling at the even share, with exactly the unsaturated vehicles listed |
| `EqualDispatcher.VisitVehicle` | core/dispatch/dispatcher.go:31-45 | one visit caps the share at the room left and keeps the vehicle exactly when it has room and power is left |
| `EqualDispatcher.TopUpInPlace` | core/dispatch/dispatcher.go:30-45 | filtering the list while reading it computes the same pass as the recursive definition |
| `EqualDispatcher.TopUpLifts` | core/dispatch/dispatcher.go:28-45 | a pass lifts everybody from the old level to min(limit, level + share) and spends exactly what it hands out |
| `EqualDispatcher.TopUpKeeps` | core/dispatch/dispatcher.go:42-44 | with power left, exactly the vehicles above the new level stay listed |
| `EqualDispatcher.TopUpDrops` | core/dispatch/dispatcher.go:46-48 | a pass always drops a vehicle, so the "nothing changed" exit is dead |
| `EqualDispatcher.ProgressStep` | core/dispatch/dispatcher.go:28-50 | every pass is again a partial water filling, at a higher level, with fewer vehicles listed |
| `EqualDispatcher.RaiseLevel` | core/dispatch/dispatcher.go:28-50 | one iteration of the outer loop keeps the invariant and shortens the list |
| `EqualDispatcher.Dispatch` | core/dispatch/dispatcher.go:8-53 | the result is the water filling of the request, for either sign, after at most one pass per vehicle |
| `EqualDispatcher.OrderDoesNotMatter` | core/dispatch/dispatcher.go:8-53 | reordering the fleet does not change the result |
| `EqualDispatcher.NegativeRequests` | core/dispatch/dispatcher.go:14-26 | a negative request is split evenly, and respects the limits if and only if the even share is within every limit |
| `EqualDispatcher.NegativeRequestExceedsLimit` | core/dispatch/dispatcher.go:19-21 | a vehicle of 1 kW asked for -5 kW is assigned -5 kW |
| `Distribution.CountActive` | core/scheduler/scheduler.go:46-51 | the first inner loop counts the vehicles above the current level |
| `Distribution.GivePass` | core/scheduler/scheduler.go:55-74 | a pass either lifts everybody to the next level or stops with at most 1e-6 left, and conserves power; somebody below his limit means progress |
| `Distribution.PassSaturates` | core/scheduler/scheduler.go:45-78 | a pass that leaves more than 1e-6 saturates a vehicle |
| `Distribution.Fill` | core/scheduler/scheduler.go:43-78 | the loop ends with an allocation below an affordable level, within 1e-6 of the target or with everybody at his limit; a vehicle has power if and only if the first pass reaches it |
| `Distribution.Distribute` | core/scheduler/scheduler.go:41-86 | the entries are exactly the positive powers of that allocation, once per vehicle, and sum to its total; the vehicle at a position has an entry if and only if the first pass reaches it |
| `Distribution.ListEntries` | core/scheduler/scheduler.go:79-84 | an entry for every vehicle with power and for no other |
| `Distribution.FirstPassServes` | core/scheduler/scheduler.go:57-74 | after the first pass the vehicle at position k has power if and only if its limit is positive and the target minus the sum over j < k of min(limit, target / active) exceeds 1e-6 |
| `Distribution.LaterPassServes` | core/scheduler/scheduler.go:45-78 | later passes change nobody from without power to with power or back |
| `Distribution.EverybodyReachedIff` | core/scheduler/scheduler.go:41-86 | all get power if and only if all limits are positive and the last in the order is reached |
| `Distribution.SecondVehicleIsLeftOut` | core/scheduler/scheduler.go:71-73 | two vehicles and a target of 1.5e-6 kW: the second gets nothing |
| `Distribution.NearlyFilledTotal` | core/scheduler/scheduler.go:41-86 | when the target fits, the total is within 1e-6 below it and nobody exceeds his limit |
| `Distribution.AgreesWithEqualDispatcher` | core/scheduler/scheduler.go:41-78 | for every vehicle the equal dispatcher gives between 0 and 1e-6 more than `distribute` |
| `Backlog.BacklogIsWorstSuffix` | core/scheduler/scheduler.go:111-137 | the backlog equals the largest excess of accrued energy over capacity among all suffixes, and one suffix attains it |
| `Backlog.ServiceTotal` | core/scheduler/scheduler.go:128-134 | energy accrued = energy served + backlog, after every slot |
| `Backlog.GreedyDominates` | core/scheduler/scheduler.go:128-134 | by every slot, no causal plan has served more than the greedy one |
| `Backlog.ServiceIsCausal` | core/scheduler/scheduler.go:128-134 | the greedy service respects capacities and never runs ahead of the accrual |
| `Backlog.FeasibleIffCausal` | core/scheduler/scheduler.go:111-141 | the backlog stays within a slack if and only if some causal plan serves all but the slack |
| `Scheduler.SlotsCoverTheDay` | core/scheduler/scheduler.go:94-98 | the slots cover the day, the last one starts within it, and there is at least one |
| `Scheduler.SlotEnergiesAddUp` | core/scheduler/scheduler.go:100-117 | the energies of the slots add up to the target |
| `Scheduler.AvailableVehicles` | core/scheduler/scheduler.go:31-39 | the loop lists, in fleet order, exactly the vehicles with one window that contains every instant of the slot |
| `Scheduler.AvailableVehiclesAre` | core/scheduler/scheduler.go:31-39 | a vehicle is listed if and only if it passes the test of vehicleAvailable, and distinctness is kept |
| `Scheduler.AvailableIffPluggedIn` | core/scheduler/scheduler.go:146-155 | the test on the ends of the slot holds if and only if one window of the vehicle contains every instant of the slot |
| `Scheduler.AvailableArePluggedIn` | core/scheduler/scheduler.go:31-39 | a vehicle takes part in a slot if and only if one of its windows contains every instant of it |
| `Scheduler.SlotsFollowEachOther` | core/scheduler/scheduler.go:94-115 | slots follow each other from the start of the day at the configured minutes, and slot hours are slot minutes over 60 |
| `Scheduler.SlotLimitsAre` | core/scheduler/scheduler.go:116-127 | the limits that count in a slot are the MaxPower of the vehicles plugged in throughout |
| `Scheduler.SortByPower` | core/scheduler/scheduler.go:42 | a rearrangement by descending power |
| `Scheduler.PlanSlot` | core/scheduler/scheduler.go:114-137 | the new backlog is max(0, backlog + accrual - capacity), and the entries list a near water filling of exactly the energy paid |
| `Scheduler.PlanDay` | core/scheduler/scheduler.go:111-139 | the day loop succeeds if and only if the day is feasible, and then returns a good plan |
| `Scheduler.GeneratePlan` | core/scheduler/scheduler.go:90-144 | each error occurs exactly under its condition; otherwise a plan is returned if and only if the backlog ends within 1e-6 and some slot had a vehicle; a plan has entries of power in (0, MaxPower] in slots of which one window of the vehicle contains every instant, no vehicle twice in a slot, total energy in [target - 1e-6(1 + slots * hours), target], and every slot lists a near water filling of the committed energy over exactly the vehicles that are reached |
| `Scheduler.PlanInWindows` | core/scheduler/scheduler.go:114-155 | for every entry of a plan one window of its vehicle contains every instant of its slot |
| `Scheduler.FeasibleIffEverySuffixFits` | core/scheduler/scheduler.go:111-141 | success is equivalent to: some slot has a vehicle, and over every suffix of the day accrual exceeds capacity by at most 1e-6 |
| `Scheduler.CommittedIsService` | core/scheduler/scheduler.go:128-134 | the energy committed to in a slot is the greedy service of the backlog recursion |
| `Scheduler.SlotDelivers` | core/scheduler/scheduler.go:114-137 | in every slot a returned plan delivers the committed energy up to 1e-6 kW |
| `Scheduler.EntryIff` | core/scheduler/scheduler.go:88-144 | in every slot of a returned plan, the order lists by descending power exactly the vehicles with a window around the whole slot, and one of them has an entry if and only if the first pass reaches it with the committed power |
| `Scheduler.EveryVehicleHasEntryIff` | core/scheduler/scheduler.go:88-144 | every vehicle available in a slot has an entry if and only if all have positive limits and the last one in the order is reached |
| `Scheduler.PlanLeavesVehicleOut` | core/scheduler/scheduler.go:88-144 | a day, two vehicles and a target for which the plan exists and one available vehicle has no entry |
| `Scheduler.NoCausalPlanIsAhead` | core/scheduler/scheduler.go:111-141 | by every slot, no causal assignment of powers to the available vehicles has delivered more than is committed |
| `Scheduler.GreedyFleetPlan` | core/scheduler/scheduler.go:111-141 | the committed energies can be delivered by the available vehicles within their limits |
| `Scheduler.FeasibleIffCausalPlanExists` | core/scheduler/scheduler.go:111-141 | success is equivalent to: some slot has a vehicle, and some causal plan of the fleet delivers the target up to 1e-6 |
| `SmartAllocation.RoundConserves` | core/dispatch/smart_dispatcher.go:212-234 | during a round the weight equals the scores in play unless the residual is 0; what is spent is what is credited, with the signal's sign |
| `SmartAllocation.RoundShrinks` | core/dispatch/smart_dispatcher.go:212-234 | a round that keeps every candidate leaves at most half of what it started with |
| `SmartAllocation.RoundSaturatesOrHalves` | core/dispatch/smart_dispatcher.go:212-234 | every round loses a candidate or at least halves the residual |
| `SmartAllocation.RoundSpends` | core/dispatch/smart_dispatcher.go:191-198 | with positive weight a round always spends, so the "nothing consumed" exit is dead |
| `SmartAllocation.RoundsConverge` | core/dispatch/smart_dispatcher.go:179-198 | after m rounds over n <= m candidates: residual 0, or no weight left, or residual <= start / 2^(m-n) |
| `SmartAllocation.RoundLedger` | core/dispatch/smart_dispatcher.go:212-234 | for each candidate, power given plus capacity left is its capacity; candidates that leave with power remaining are saturated |
| `SmartAllocation.NoWeightMeansSaturated` | core/dispatch/smart_dispatcher.go:179-198 | no weight but power left means that every positively scored candidate is at its capacity |
| `SmartAllocation.RoundsOutcome` | core/dispatch/smart_dispatcher.go:153-210 | the outcome of all rounds: signs and capacities respected, assigned + residual = request, and the three-way convergence statement |
| `ScoreShares.RoundSharesOut` | core/dispatch/smart_dispatcher.go:215-232 | in a round that saturates nobody, everybody gets his score over the weight of what is left when he is visited |
| `ScoreShares.RoundFavoursEarlier` | core/dispatch/smart_dispatcher.go:212-234 | such a round puts the earlier of two scored candidates strictly further ahead in power per score and leaves power over |
| `ScoreShares.RoundsFavourEarlier` | core/dispatch/smart_dispatcher.go:191-198 | over any number of such rounds the lead only grows |
| `ScoreShares.EarlierIsFavoured` | core/dispatch/smart_dispatcher.go:179-198 | in a dispatch that saturates nobody, for i before j with positive scores, given_i * score_j > given_j * score_i |
| `ScoreShares.ProportionalIff` | core/dispatch/smart_dispatcher.go:179-234 | power is proportional to scores if and only if at most one candidate has a positive score, when nobody is saturated |
| `ScoreShares.ProportionalWithRoomIff` | core/dispatch/smart_dispatcher.go:179-234 | the same from the inputs alone, when every capacity exceeds the request |
| `ScoreShares.EqualScoresUnequalPower` | core/dispatch/smart_dispatcher.go:219 | two candidates of score 1 and capacity 10, asked for 4 kW, get 2 kW and 1 kW in a round |
| `ScoreShares.RoundsGoOn` | core/dispatch/smart_dispatcher.go:191 | with two positively scored candidates in play after n rounds, power and weight are left, so the guard holds |
| `ScoreShares.RoundsRepeat` | core/dispatch/smart_dispatcher.go:191-198 | scores 1 and 1, capacities 2x and x, request 3x: the loop without a bound never ends |
| `ScoredDispatch.VehicleScore` | core/dispatch/smart_dispatcher.go:113-148 | a score is positive if and only if the battery has capacity and the weighted sum is positive, and is that sum then; otherwise it is 0 |
| `ScoredDispatch.EligibleAre` | core/dispatch/smart_dispatcher.go:38-63 | exactly the vehicles that pass the tests are eligible, and distinctness is kept |
| `ScoredDispatch.EligibleIff` | core/dispatch/smart_dispatcher.go:38-63 | the tests hold if and only if: SoC at least the minimum, a battery, for negative signals SoC above its own minimum and the floor, and a lone vehicle can meet the request within MaxPower and its reserve |
| `ScoredDispatch.EligibleQualify` | core/dispatch/smart_dispatcher.go:38-63 | the filter lets exactly these vehicles through |
| `ScoredDispatch.FilterBySoC` | core/dispatch/smart_dispatcher.go:38-63 | the loop keeps in order exactly the vehicles that qualify, or all without SoC constraints |
| `ScoredDispatch.PreparedAre` | core/dispatch/helpers.go:35-45 | every vehicle with positive capacity becomes a candidate with its score and capacity, and no other |
| `ScoredDispatch.CandidateCapacityIs` | core/dispatch/helpers.go:9-31 | the capacity of a candidate is the largest power up to MaxPower that leaves the battery at its own minimum, and at the floor where constraints are on; MaxPower for other signals |
| `ScoredDispatch.CandidatesIff` | core/dispatch/smart_dispatcher.go:65-68 | a vehicle is a candidate if and only if it has capacity and, with constraints on, qualifies |
| `ScoredDispatch.PrepareVehicles` | core/dispatch/helpers.go:35-45 | the loop lists those candidates in order |
| `ScoredDispatch.EnvelopeIsPhysical` | core/dispatch/helpers.go:9-31 | an assignment in the envelope has the signal's sign, is at most MaxPower, and for negative signals of positive duration leaves SoC * battery - power * hours at or above MinSoC * battery, and above the floor * battery with constraints on |
| `ScoredDispatch.EnvelopesArePhysical` | core/dispatch/helpers.go:9-31 | the same for every assignment of a dispatch |
| `ScoredDispatch.OutcomeInEnvelope` | core/dispatch/smart_dispatcher.go:153-210 | the scoring dispatcher keeps every vehicle in its envelope and never exceeds the request |
| `ScoredDispatch.VisitCandidate` | core/dispatch/smart_dispatcher.go:215-232 | one visit saturates and drops the candidate, or gives its share and keeps it with less capacity |
| `ScoredDispatch.AllocateRoundInPlace` | core/dispatch/smart_dispatcher.go:212-234 | the round that overwrites its own list computes the recursive round and reports what it consumed |
| `ScoredDispatch.RunRounds` | core/dispatch/smart_dispatcher.go:179-198 | the loop computes the rounds from the candidates, their score sum and the magnitude of the request |
| `ScoredDispatch.SmartDispatcher.Dispatch` | core/dispatch/smart_dispatcher.go:153-210 | assignments are those of MaxRounds rounds over the candidates, with the outcome above; no vehicle passes MaxPower or is drawn below its minimum or the floor; exactly the candidates' scores are stored |
| `LpDispatch.ClampSolution` | core/dispatch/lp_dispatcher.go:108-119 | each power is the solver's value clamped to [0, capacity] with the signal's sign, and the sum is their total |
| `LpDispatch.ClampedInEnvelope` | core/dispatch/lp_dispatcher.go:108-119 | clamped values are in the envelope whatever the solver answered |
| `LpDispatch.StrictIsSafe` | core/dispatch/lp_dispatcher.go:75-124 | accepted or rejected, assignments are in the envelope; an accepted non-empty one totals the request within 1e-3 |
| `LpDispatch.StrictIsDetermined` | core/dispatch/lp_dispatcher.go:75-124 | the solver's answer determines the outcome: no two outcomes meet the contract |
| `LpDispatch.SolverAnswer` | core/dispatch/lp_dispatcher.go:88-124 | the solver is asked with the vehicles' scores and capacities and the magnitude of the request; its error is passed on; value i is cut off at 0 and capacity i and given to vehicle i with the signal's sign; accepted if and only if the total is within 0.001 |
| `LpDispatch.LpDispatcher.DispatchStrict` | core/dispatch/lp_dispatcher.go:75-124 | for every solver, each outcome occurs exactly under its condition; acceptance if and only if the total is within 1e-3; exactly the candidates' scores are stored |
| `LpDispatch.LpDispatcher.Dispatch` | core/dispatch/lp_dispatcher.go:129-136 | the result is the accepted solution, or else what the scoring dispatcher assigns; either way no vehicle passes MaxPower or its reserve, and the total is at most request + 1e-3 |
| `SegmentedDispatch.PartKeepsDirection` | core/dispatch/segmented_dispatcher.go:118-125 | the parts have the signal's direction and together its magnitude |
| `SegmentedDispatch.SegmentEnvelope` | core/dispatch/segmented_dispatcher.go:109-132 | the envelope of a segment and its part is an envelope of the whole fleet and signal |
| `SegmentedDispatch.DispatchSegment` | core/dispatch/segmented_dispatcher.go:89-106 | the result is that of the configured dispatcher; every configuration stays in the envelope, with 1e-3 of overshoot only under linear programming |
| `SegmentedDispatch.SmartSegment` | core/dispatch/segmented_dispatcher.go:89-106 | a segment without linear programming is dispatched in ten rounds over exactly its vehicles with capacity, at SoC 0.1 or more, above 0.1 and their own minimum for negative signals |
| `SegmentedDispatch.NothingBelow` | core/dispatch/smart_dispatcher.go:71-87 | with the default floor every assignment leaves at least a tenth of the battery and the vehicle's own minimum |
| `SegmentedDispatch.GroupBySegment` | core/dispatch/segmented_dispatcher.go:114-117 | the groups partition the fleet by segment, each in fleet order |
| `SegmentedDispatch.SegmentAdded` | core/dispatch/segmented_dispatcher.go:119-130 | adding a segment touches none of the vehicles done and adds its part to the bound |
| `SegmentedDispatch.SegmentedDispatcher.Dispatch` | core/dispatch/segmented_dispatcher.go:109-132 | for every segment, its vehicles get exactly what its dispatcher assigns for an equal part of the signal; everybody is in his envelope, within MaxPower and left with a tenth of the battery and his own minimum, and the total is at most request + 1e-3 for each segment of the fleet configured for linear programming |
| `Fleet.EffectiveCapacity` | core/model/vehicle.go:70-96 | not negative, never past the degraded limit, zero below the minimum state of charge |
| `Fleet.EffectiveCapacityIs` | core/model/vehicle.go:70-96 | 0 below the minimum SoC (0.3 when unset), otherwise SoC times the clamped availability (1 when unset) times the room below the degraded limit; at SoC 1 and full availability exactly that room |
| `Fleet.HalfChargedVehicle` | core/model/vehicle.go:94 | 10 kW at half charge with 2 kW assigned: 4 kW |
| `Fleet.Capacity` | core/dispatch/helpers.go:9-31 | between 0 and MaxPower; for negative signals of positive duration bounded by the energy above the reserve |
| `Fleet.CapacityIsLargest` | core/dispatch/helpers.go:9-31 | for negative signals of positive duration, the largest power up to MaxPower that leaves the battery at its own minimum and, where used, at the floor |
| `Fleet.CapacityWithoutDuration` | core/dispatch/helpers.go:16-30 | without a duration: MaxPower for vehicles above their minimum and the floor, 0 for the others |
| `Fleet.StartOfDay` | core/metrics/eco/store.go:12-14 | midnight UTC at or before the instant, less than a day away |
| `Fleet.HoursAre` | core/scheduler/scheduler.go:94-117 | a duration in hours is its nanoseconds over 3600 * 10^9 |
| `Fleet.PowerLimitsIgnoreOrder` | core/dispatch/dispatcher.go:8-53 | limits by vehicle do not depend on the order of the fleet |
| `Fallback.PassConserves` | core/dispatch/balanced_fallback.go:105-131 | a pass keeps (capacity left - power left) and never overspends |
| `Fallback.PassShrinks` | core/dispatch/balanced_fallback.go:116-127 | with no more power than capacity, a pass at least halves what is left |
| `Fallback.PassSaturates` | core/dispatch/balanced_fallback.go:116-127 | with at least as much power as capacity, a pass saturates somebody |
| `Fallback.PassFinishesIffAlone` | core/dispatch/balanced_fallback.go:116-127 | with less power than capacity, a pass places everything if and only if there is one survivor |
| `Fallback.LoopEndsIff` | core/dispatch/balanced_fallback.go:107-129 | over exact numbers the loop ends if and only if what is left is at least the total capacity or there is at most one survivor |
| `Fallback.PassesConverge` | core/dispatch/balanced_fallback.go:105-131 | enough power: after one pass per survivor exactly the excess is left; too little: after n passes at most start / 2^n |
| `Fallback.PassLedger` | core/dispatch/balanced_fallback.go:105-131 | for each survivor, power added plus capacity left is its capacity; survivors that leave are saturated; nobody else changes |
| `Fallback.PassesLedger` | core/dispatch/balanced_fallback.go:105-131 | the same over all passes |
| `BalancedFallbackStrategy.VisitAlloc` | core/dispatch/balanced_fallback.go:116-127 | one visit gives the proportional share capped at the capacity |
| `BalancedFallbackStrategy.PassInPlace` | core/dispatch/balanced_fallback.go:115-128 | the pass that overwrites its own slice computes the recursive pass |
| `BalancedFallbackStrategy.AllocatePower` | core/dispatch/balanced_fallback.go:105-131 | the loop computes the passes, for any number of them |
| `BalancedFallbackStrategy.PassesReallocate` | core/dispatch/balanced_fallback.go:37-131 | in every order of the survivors the passes meet the promise of Reallocate |
| `BalancedFallbackStrategy.BalancedFallback.SetVehicles` | core/dispatch/balanced_fallback.go:26-33 | the table holds one vehicle for each identifier of the list |
| `BalancedFallbackStrategy.BalancedFallback.Withdraw` | core/dispatch/balanced_fallback.go:52-58 | failed vehicles are zeroed, and the residual is what they had been asked for, each once |
| `BalancedFallbackStrategy.BalancedFallback.AvailableCapacity` | core/dispatch/balanced_fallback.go:85-103 | the list enumerates exactly the survivors with capacity, in any order |
| `BalancedFallbackStrategy.BalancedFallback.Reallocate` | core/dispatch/balanced_fallback.go:37-78 | for either sign: failed vehicles at 0, survivors moved only towards the signal and within their capacity, total = survivors + residual - undelivered, and the exact or geometric bound on what is undelivered; the powers are those of the passes over the survivors in some order |
| `BalancedFallbackStrategy.EverybodySaturated` | core/dispatch/balanced_fallback.go:105-131 | with at least as much failed power as capacity, and a pass per survivor, every survivor ends at exactly its capacity |
| `BalancedFallbackStrategy.SurvivorsTakeOver` | core/dispatch/balanced_fallback.go:37-131 | no survivor takes over more than SoC * availability * room below the degraded limit, nothing below its minimum SoC or when unknown; with enough failed power and passes each takes exactly that and the rest is undelivered |
| `Pipeline.FailedAre` | core/dispatch/manager.go:398-406 | a vehicle failed if and only if it is not acknowledged, a missing entry included |
| `Pipeline.Unacknowledged` | core/dispatch/manager.go:398-406 | the loop lists the failed vehicles in order |
| `Pipeline.ReallocatedIsRedistributed` | core/dispatch/manager.go:236-262 | the promise of Reallocate, for assignments of the sign of the signal, means conservation and the bounds of DispatchEqual |
| `Pipeline.DispatchEqual` | core/dispatch/manager.go:236-262 | for a signal of either sign, every acknowledgment map and every number of passes: the assignments are the water filling; there is a fallback if and only if a vehicle failed, it is that of Reallocate, gives failed vehicles 0 and moves the others only towards the signal and within their capacity (for positive signals at most to max(assignment, degraded limit)), and total fallback + signed undelivered = total assigned, of magnitude at most the request |
| `FallbackLimits.PositiveLimitsIff` | core/dispatch/manager.go:236-262 | for signals that are not negative the final powers respect the degraded limits if and only if the assignments of the acknowledged vehicles do |
| `FallbackLimits.NeverBeyondWorstCase` | core/dispatch/balanced_fallback.go:37-78 | for negative signals no vehicle ends beyond its share plus the smaller of its capacity and the shares of all others |
| `FallbackLimits.WorstCaseHappens` | core/dispatch/balanced_fallback.go:37-78 | a vehicle that alone acknowledges ends exactly there after one pass |
| `FallbackLimits.NegativeLimitsIff` | core/model/vehicle.go:70-96 | for a negative signal the degraded limits hold, whoever acknowledges and for every number of passes, if and only if no worst case exceeds its limit |
| `FallbackLimits.NegativeFallbackExceedsLimit` | core/model/vehicle.go:87-96 | two vehicles of 1 kW asked for -2 kW: one fails and the other ends at -2 kW |
| `AckProtocol.PahoClient.RegisterCommand` | infra/mqtt/client.go:231-233 | keeps one command per channel and one token per channel; the command gets an empty mailbox and no other mailbox changes |
| `AckProtocol.PahoClient.OnAck` | infra/mqtt/client.go:171-180 | keeps the invariant; the mailbox of a registered command is full afterwards, however often it is acknowledged, and no other mailbox changes |
| `AckProtocol.PahoClient.LookUp` | infra/mqtt/client.go:240-247 | a channel is found if and only if the command has a mailbox; it belongs to this command alone and holds one token or none, as the mailbox says |
| `AckProtocol.PahoClient.RemoveCommand` | infra/mqtt/client.go:253-261 | keeps the invariant; the mailbox of the command is gone and no other changes |
| `AckProtocol.PahoClient.ReceiveToken` | infra/mqtt/client.go:251-252 | succeeds if and only if the mailbox was full, and empties it and no other |
| `AckProtocol.PahoClient.WaitForAck` | infra/mqtt/client.go:239-263 | without interference: true if and only if the mailbox was full and the timer did not win; otherwise "unknown command" exactly for a command without mailbox and a timeout for the rest; afterwards the mailbox is gone and no other changed |
| `AckProtocol.DispatchTally.Update` | core/dispatch/manager.go:331-361 | keeps: errors and acknowledgments exclude each other, the count is the number of acknowledged orders; only the entry of this order changes |
| `AckProtocol.RegistryOperations` | infra/mqtt/client.go:162-263 | every critical section keeps at most one token per channel and one command per channel |
| `AckProtocol.RegistryMailboxes` | infra/mqtt/client.go:162-263 | registering, acknowledging, receiving and removing act on a map of mailboxes as on a plain map, each on its own command only |
| `AckProtocol.RunsKeepInvariant` | infra/mqtt/client.go:162-263 | in every interleaving the registry holds exactly the entries of orders under way and of other dispatches |
| `AckProtocol.LookUpSucceeds` | infra/mqtt/client.go:239-247 | "unknown command" never happens to an order of a dispatch |
| `AckProtocol.AcksAreGenuine` | infra/mqtt/client.go:239-263 | in every interleaving with lost, repeated, late or unknown acknowledgments, an order is answered true only if one with its own identifier was processed while it was registered |
| `AckProtocol.TokenIffAcknowledged` | infra/mqtt/client.go:162-181 | while an order waits, a token is there if and only if such an acknowledgment has been processed |
| `AckProtocol.AcknowledgedIff` | infra/mqtt/client.go:239-263 | a finished order is reported acknowledged if and only if its receive was taken while it waited, after its acknowledgment had been processed; as timed out if and only if its timer fired while it waited |
| `AckProtocol.TimeoutMeans` | infra/mqtt/client.go:250-262 | at a timeout either no acknowledgment had been processed since registration and nothing could be received, or the token was there and the timer won |
| `AckProtocol.TimerBeatsToken` | infra/mqtt/client.go:250-262 | a run in which the acknowledgment is processed while the order waits and the select takes the timer |
| `AckProtocol.LateAckIsLost` | infra/mqtt/client.go:257-261 | a run in which the acknowledgment is processed between the timer and the removal |
| `AckProtocol.ChannelsHoldOneToken` | infra/mqtt/client.go:162-181 | at most one token per channel, and no two commands share a channel |
| `AckProtocol.DispatchCompletes` | core/dispatch/manager.go:324-395 | when all orders have finished: every order has an entry, it is acknowledged if and only if it has no error, the count is right, nothing of the dispatch is left in the registry |
| `AckProtocol.RanksFall` | core/dispatch/manager.go:362-389 | no step raises the number of steps an order has ahead, and every step of its own lowers it |
| `AckProtocol.NobodyIsStuck` | core/dispatch/manager.go:362-389 | in every reachable state an unfinished order has a step of its own that brings it closer to the end |
| `AckProtocol.DispatchCanFinish` | core/dispatch/manager.go:390 | from every reachable state all orders can finish, so the wait can return |
| `AckProtocol.ScheduleDoesNotMatter` | core/dispatch/manager.go:324-395 | schedules with the same outcome per order give the same result |
| `AckProtocol.EarlyAckIsLost` | infra/mqtt/client.go:208-236 | a run in which an acknowledgment between publishing and registering is dropped and the order times out |
| `EventBus.Broker.Publish` | internal/eventbus/eventbus.go:27-39 | keeps the bus sound; every listed buffer that is not full gets the event at its end, no other buffer changes |
| `EventBus.Broker.Subscribe` | internal/eventbus/eventbus.go:42-52 | keeps the bus sound; the new channel is empty, and open and last in the list if and only if the bus is not closed; no other channel changes |
| `EventBus.Broker.Unsubscribe` | internal/eventbus/eventbus.go:55-67 | keeps the bus sound; the channel is closed and gone from the list, every other one stays |
| `EventBus.Broker.Close` | internal/eventbus/eventbus.go:70-82 | keeps the bus sound; every listed channel is closed once and the list emptied, so no channel is open |
| `EventBus.PublishTo` | internal/eventbus/eventbus.go:33-38 | sending to the listed channels in turn reaches each buffer once, unless it is full, and no other |
| `EventBus.StepIsSafe` | internal/eventbus/eventbus.go:27-82 | every step keeps: no panic, listed channels are exactly the open ones, buffers hold at most 8 |
| `EventBus.RunsAreSafe` | internal/eventbus/eventbus.go:27-82 | in every interleaving no send hits a closed channel and no channel is closed twice |
| `EventBus.ClosedForGood` | internal/eventbus/eventbus.go:42-82 | after Close the list stays empty, and a new subscriber gets a closed channel |
| `EventBus.BufferStep` | internal/eventbus/eventbus.go:33-38 | what each step does to the buffer of a subscriber: an offer appends unless full, a receipt takes the head, nothing else touches it |
| `EventBus.DeliveryIsInOrder` | internal/eventbus/eventbus.go:27-52 | for every subscriber, received followed by buffered is exactly the offers that did not meet a full buffer, in order; the buffer holds at most 8 |
| `EventBus.PublicationReachesEverybodyOnce` | internal/eventbus/eventbus.go:27-39 | a publication that can end was offered exactly once to each listed subscriber and to nobody else |
| `EventBus.SubscribersStandStill` | internal/eventbus/eventbus.go:27-67 | while a publication runs the list does not change |
| `Simulator.TickIsPhysical` | simulator/battery.go:21-68 | a tick keeps SoC in [0, 1], the direction, the request and the rate, and conserves energy |
| `Simulator.TickAppliesAllItCan` | simulator/battery.go:30-59 | no larger part of the request is within the rate and what the battery holds or takes |
| `Simulator.TickThenDrift` | simulator/vehicle.go:268-282 | a tick followed by a drift is one drift over both times |
| `Simulator.DriftStandsStill` | simulator/battery.go:30-66 | the closed form does not move if and only if there is no time, no power, or nothing left to change |
| `Simulator.TicksFollowClosedForm` | simulator/vehicle.go:268-282 | after any positive ticks SoC = clamp(SoC0 - p T / capacity, 0, 1) |
| `Simulator.OnlyElapsedTimeMatters` | simulator/vehicle.go:268-282 | ticks of the same total length give the same SoC |
| `Simulator.EmptyTickStopsTheVehicle` | simulator/battery.go:25-28 | after a tick of length zero at any position the SoC stands still; the closed form over the whole time then holds if and only if no time follows, there was no power, or the battery was already empty and discharging, or full and charging |
| `Simulator.StepIsSound` | simulator/vehicle.go:233-282 | each order or tick keeps the limits and the energy balance |
| `Simulator.OrderTakenIff` | simulator/vehicle.go:233-266 | an order becomes the power if and only if it is within MaxPower and for some length of time the battery could apply it in full; otherwise nothing changes |
| `Simulator.RunsAreSound` | simulator/vehicle.go:233-282 | in every run SoC is in [0, 1], power within min(MaxPower, rate) either way, and stored + delivered energy is constant |
| `Simulator.Battery.ApplyPower` | simulator/battery.go:21-68 | computes the tick without the final clamps, which therefore never change anything |
| `Simulator.SimulatedVehicle.ApplyPowerOrder` | simulator/vehicle.go:233-266 | the order becomes the power if and only if it is within MaxPower and for some length of time the battery could apply it in full; otherwise the power and the battery stay as they are |
| `Simulator.SimulatedVehicle.OnTick` | simulator/vehicle.go:273-282 | one tick, with the applied power fed back, keeps the vehicle sound |
| `EcoKpi.DayOfDay` | core/metrics/eco/store.go:12-14 | the day of a day is that day |
| `EcoKpi.AddAgrees` | core/metrics/eco/memory.go:21-36 | an addition keeps the index in agreement with the raw log |
| `EcoKpi.IndexAgrees` | core/metrics/eco/memory.go:21-36 | the index has exactly the days of the log, each with the sums over the log |
| `EcoKpi.SameSumsSameIndex` | core/metrics/eco/memory.go:21-36 | logs with the same sums have the same index |
| `EcoKpi.OrderOfAddsDoesNotMatter` | core/metrics/eco/memory.go:21-36 | permuting the additions does not change the store |
| `EcoKpi.MemoryStore.Add` | core/metrics/eco/memory.go:21-36 | the in-place update is the addition to the index |
| `EcoKpi.MemoryStore.Query` | core/metrics/eco/memory.go:39-54 | strictly increasing dates, exactly one record per day in range with an addition, each the sum over the raw log |
| `EcoKpi.SortByDate` | core/metrics/eco/memory.go:52 | the same records by strictly increasing date |
| `EcoKpi.WrittenSums` | jobs/ecokpi/backfill.go:9-25 | a log written from a history in any map order has the sums and days of the history, vehicle by vehicle and day by day |
| `EcoKpi.HistoryEnergy` | jobs/ecokpi/backfill.go:12-18 | those sums are: injected, positive powers times hours; consumed, negative powers times hours, over the dispatches of the day |
| `EcoKpi.WrittenEnergy` | jobs/ecokpi/backfill.go:9-25 | writing a history adds exactly these energies to what the store held |
| `EcoKpi.AnswersReport` | core/metrics/eco/memory.go:39-54 | a query then answers with one record per day in range with a dispatch of the vehicle, with its injected and consumed energy |
| `EcoKpi.ReplayEqualsLive` | jobs/ecokpi/backfill.go:9-25 | replay and live recording of a history give the same store, in all map orders and from any common start |
| `EcoKpi.ReplayDispatch` | jobs/ecokpi/backfill.go:10-23 | one dispatch is added once per assignment, dated with its day |
| `EcoKpi.Backfill` | jobs/ecokpi/backfill.go:9-25 | what is added to the store is the history, written dispatch by dispatch, so injected and consumed energy grow by the positive and negative powers times hours |
| `EcoKpi.MetricsRows` | core/dispatch/manager.go:409-426 | one row per assignment with the start and end of the signal |
| `EcoKpi.RecordRows` | infra/metrics/eco.go:40-52 | every row is added to the store, dated with its start |
| `EcoKpi.RecordLive` | infra/metrics/eco.go:40-52 | what is added to the store is the history, written dispatch by dispatch, so injected and consumed energy grow by the positive and negative powers times hours |
| `EcoKpi.KpiReport` | core/metrics/eco/memory.go:39-54 | a query after a replay or after live recording reports, per day with a dispatch, positive powers times hours as injected and negative ones as consumed |

## Left out

- Rounding of floating point numbers, overflow of 64-bit durations, and time zones other than UTC: exact reals and unbounded integers are used.
- The simplex solver and any claim that its answer is optimal: a solver is an arbitrary function that fails or returns at least one value per capacity.
- ScoredDispatch.VehicleScore: the formula is an arbitrary function of vehicle and signal cut off at zero, which is all the allocation uses; participation history and market price enter only through it.
- ScoredDispatch.SmartDispatcher.Dispatch: with MaxRounds = 0 the loop need not end over exact reals (see RoundsGoOn and RoundsRepeat), so `cutoff` is any number of rounds, and the contract holds for each.
- BalancedFallbackStrategy.AllocatePower: the loop need not end over exact reals (see LoopEndsIff), so `passes` is any number of passes, and the contract holds for each.
- SegmentedDispatch.SegmentedDispatcher.Dispatch: the configuration of an unlisted segment is any `defaults`, not only the empty one, and weights appear as an arbitrary score function.
- Scheduler.SortByPower: the library sort works in place; here it is a sequence with the same contract, and which descending order it leaves among equals is left open.
- EcoKpi.SortByDate: likewise for the sort of query results.
- Simulator: a battery with capacity zero, or outside [0, 1] at the start, is not covered.
- MQTT connections, TLS, JSON, topics, publish retries, fleet discovery and telemetry: input and output; a publication succeeds or fails as a step.
- HTTP handlers, command line, configuration, metric exporters, gauges, loggers, and the SQLite and JSONL stores: plumbing over libraries.
- Errors of a store other than the memory store, which never fails.
- Prediction engine, market signal client and mock server, random signals, simulator availability and reconnection: randomness, clocks or thin wrappers.
- Weight tuner, vehicle filter, status store, signal conversion and the choice of dispatcher per signal type: each is settled by one branch.
- The probabilistic fallback and the typed event bus: the same loops as the balanced fallback and the bus.
