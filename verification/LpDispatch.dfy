/**
 LPDispatcher (core/dispatch/lp_dispatcher.go).  The simplex solver is an arbitrary function;
 what is proved holds whatever it answers, thanks to the clamping and the final check.
 */
module LpDispatch {
  import opened Totals
  import opened Fleet
  import opened SmartAllocation
  import opened ScoredDispatch

  const LP_TOLERANCE: real := 0.001

  datatype Solution = NoSolution | Solved(x: seq<real>)

  /** A solver gets scores, capacities and target; a solution has an entry for every capacity. */
  type Solver = f: (seq<real>, seq<real>, real) -> Solution |
    forall s, c, t :: f(s, c, t).Solved? ==> |f(s, c, t).x| >= |c|
    witness (s, c, t) => NoSolution

  datatype LpResult = Ok(assignments: map<Id, real>) | SolverFailed | Infeasible(assignments: map<Id, real>)

  ghost predicate WithinTolerance(a: map<Id, real>, power: real) {
    Abs(Signed(power, Total(a)) - Abs(power)) <= LP_TOLERANCE
  }

  /** The solution, clamped to the capacities and given the sign of the signal. */
  ghost predicate ClampedSolution(cands: seq<Candidate>, n: nat, power: real, x: seq<real>, a: map<Id, real>)
    requires n <= |cands| && |x| >= |cands|
  {
    && a.Keys == CandidateIds(cands[..n])
    && forall i :: 0 <= i < n ==>
         cands[i].v.id in a && a[cands[i].v.id] == Signed(power, Clamp(x[i], 0.0, cands[i].capacity))
  }

  lemma ClampedNext(cands: seq<Candidate>, n: nat, power: real, x: seq<real>, a: map<Id, real>)
    requires DistinctCandidates(cands) && n < |cands| <= |x| && ClampedSolution(cands, n, power, x, a)
    ensures cands[n].v.id !in a
    ensures ClampedSolution(cands, n + 1, power, x,
                            a[cands[n].v.id := Signed(power, Clamp(x[n], 0.0, cands[n].capacity))])
  {
    assert cands[..n + 1] == cands[..n] + [cands[n]];
    assert forall c :: c in cands[..n] ==> c.v.id != cands[n].v.id;
    assert CandidateIds(cands[..n + 1]) == CandidateIds(cands[..n]) + {cands[n].v.id};
  }

  /** A clamped solution is in the envelope, whatever the solver said. */
  lemma ClampedInEnvelope(st: Settings, fleet: seq<Vehicle>, signal: Signal, cands: seq<Candidate>,
                          x: seq<real>, a: map<Id, real>)
    requires |x| >= |cands| && ClampedSolution(cands, |cands|, signal.power, x, a)
    requires forall c :: c in cands ==> c.v in fleet && c.capacity == CapacityOf(st, c.v, signal) > 0.0
    ensures InEnvelope(st, fleet, signal, a)
  {
    hide CapacityOf;
    assert cands[..|cands|] == cands;
    forall id | id in a ensures exists v :: v in fleet && v.id == id && VehicleInEnvelope(st, v, signal, a[id]) {
      var c :| c in cands && c.v.id == id;
      var i :| 0 <= i < |cands| && cands[i] == c;
      assert VehicleInEnvelope(st, c.v, signal, a[id]);
    }
  }

  /** The loop that clamps and adds up the solution. */
  method ClampSolution(cands: seq<Candidate>, power: real, x: seq<real>)
    returns (assignments: map<Id, real>, sum: real)
    requires DistinctCandidates(cands) && |x| >= |cands|
    requires forall c :: c in cands ==> c.capacity > 0.0
    ensures ClampedSolution(cands, |cands|, power, x, assignments)
    ensures sum == Signed(power, Total(assignments))
  {
    hide Total, DistinctCandidates, ClampedSolution;
    assignments, sum := map[], 0.0;
    NothingGiven();
    ClampedNone(cands, power, x);
    for i := 0 to |cands|
      invariant ClampedSolution(cands, i, power, x, assignments)
      invariant sum == Signed(power, Total(assignments))
    {
      var p := x[i];
      if p < 0.0 {
        p := 0.0;
      }
      if p > cands[i].capacity {
        p := cands[i].capacity;
      }
      assert cands[i] in cands;
      ClampedNext(cands, i, power, x, assignments);
      TotalSet(assignments, cands[i].v.id, Signed(power, p));
      assignments := assignments[cands[i].v.id := Signed(power, p)];
      sum := sum + p;
    }
  }

  lemma ClampedNone(cands: seq<Candidate>, power: real, x: seq<real>)
    requires |x| >= |cands|
    ensures ClampedSolution(cands, 0, power, x, map[])
  {
  }

  function Scores(cands: seq<Candidate>): seq<real> { seq(|cands|, i requires 0 <= i < |cands| => cands[i].score) }
  function Caps(cands: seq<Candidate>): seq<real> { seq(|cands|, i requires 0 <= i < |cands| => cands[i].capacity) }

  /** What DispatchStrict promises for each of its outcomes. */
  ghost predicate StrictOutcome(st: Settings, solver: Solver, fleet: seq<Vehicle>, signal: Signal, res: LpResult) {
    var cands := Prepared(st, fleet, signal);
    var answer := solver(Scores(cands), Caps(cands), Abs(signal.power));
    if fleet == [] || signal.power == 0.0 || cands == [] then res == Ok(map[])
    else if answer == NoSolution then res == SolverFailed
    else
      && res != SolverFailed
      && |Caps(cands)| == |cands| <= |answer.x|
      && ClampedSolution(cands, |cands|, signal.power, answer.x, res.assignments)
      && (res.Ok? <==> WithinTolerance(res.assignments, signal.power))
  }

  /** Accepted or not, what DispatchStrict assigns is in the envelope; accepted, it also meets the target. */
  lemma StrictIsSafe(st: Settings, solver: Solver, fleet: seq<Vehicle>, signal: Signal, res: LpResult)
    requires StrictOutcome(st, solver, fleet, signal, res)
    ensures !res.SolverFailed? ==> InEnvelope(st, fleet, signal, res.assignments)
    ensures res.Ok? && res.assignments != map[] ==> WithinTolerance(res.assignments, signal.power)
    ensures res.Ok? ==> Signed(signal.power, Total(res.assignments)) <= Abs(signal.power) + LP_TOLERANCE
  {
    hide CapacityOf, Prepared, ClampedSolution;
    var cands := Prepared(st, fleet, signal);
    PreparedAre(st, fleet, signal);
    NothingGiven();
    if fleet != [] && signal.power != 0.0 && cands != [] && !res.SolverFailed? {
      var answer := solver(Scores(cands), Caps(cands), Abs(signal.power));
      ClampedInEnvelope(st, fleet, signal, cands, answer.x, res.assignments);
    }
  }

  /** Candidate `i` with its score and capacity, computed from its vehicle. */
  ghost predicate Describes(st: Settings, signal: Signal, cands: seq<Candidate>, scores: seq<real>, caps: seq<real>) {
    && |scores| == |caps| == |cands|
    && forall i :: 0 <= i < |cands| ==>
         scores[i] == VehicleScore(st, cands[i].v, signal) && caps[i] == CapacityOf(st, cands[i].v, signal)
  }

  /**
   What the solver is asked and what becomes of its answer, for scores and capacities read off
   the vehicles: an error is passed on, value `i` is cut off at 0 and at capacity `i` and given
   to vehicle `i` with the sign of the signal, and the result counts if it totals the request
   within 0.001 kW.
   */
  lemma SolverAnswer(st: Settings, solver: Solver, fleet: seq<Vehicle>, signal: Signal, res: LpResult,
                     cands: seq<Candidate>, scores: seq<real>, caps: seq<real>)
    requires StrictOutcome(st, solver, fleet, signal, res) && fleet != [] && signal.power != 0.0
    requires cands == Prepared(st, fleet, signal) && cands != [] && Describes(st, signal, cands, scores, caps)
    ensures var answer := solver(scores, caps, if signal.power < 0.0 then -signal.power else signal.power);
            && (answer == NoSolution <==> res == SolverFailed)
            && (answer != NoSolution ==>
                  && |answer.x| >= |cands|
                  && (forall i :: 0 <= i < |cands| ==>
                        var x := if answer.x[i] < 0.0 then 0.0 else if answer.x[i] > caps[i] then caps[i] else answer.x[i];
                        && cands[i].v.id in res.assignments
                        && res.assignments[cands[i].v.id] == if signal.power < 0.0 then -x else x)
                  && (res.Ok? <==> -0.001 <= Signed(signal.power, Total(res.assignments)) - Abs(signal.power) <= 0.001))
  {
    hide Prepared, CapacityOf, VehicleScore, Describes, Scores, Caps, Total;
    SolverInput(st, fleet, signal, cands, scores, caps);
  }

  lemma SolverInput(st: Settings, fleet: seq<Vehicle>, signal: Signal, cands: seq<Candidate>, scores: seq<real>, caps: seq<real>)
    requires cands == Prepared(st, fleet, signal) && Describes(st, signal, cands, scores, caps)
    ensures Scores(cands) == scores && Caps(cands) == caps && |caps| == |cands|
    ensures forall i :: 0 <= i < |cands| ==> caps[i] == cands[i].capacity > 0.0
  {
    hide Prepared, CapacityOf, VehicleScore;
    PreparedAre(st, fleet, signal);
    forall i | 0 <= i < |cands| ensures scores[i] == cands[i].score && caps[i] == cands[i].capacity > 0.0 {
      assert cands[i] in cands;
    }
  }

  /** The answer of the solver decides the outcome of DispatchStrict. */
  lemma StrictIsDetermined(st: Settings, solver: Solver, fleet: seq<Vehicle>, signal: Signal, a: LpResult, b: LpResult)
    requires StrictOutcome(st, solver, fleet, signal, a) && StrictOutcome(st, solver, fleet, signal, b)
    ensures a == b
  {
    hide Prepared, WithinTolerance;
    var cands := Prepared(st, fleet, signal);
    var answer := solver(Scores(cands), Caps(cands), Abs(signal.power));
    if fleet != [] && signal.power != 0.0 && cands != [] && answer != NoSolution {
      assert cands[..|cands|] == cands;
      forall id | id in a.assignments ensures id in b.assignments && a.assignments[id] == b.assignments[id] {
        var c :| c in cands && c.v.id == id;
      }
      assert a.assignments == b.assignments;
    }
  }

  /** What Dispatch returns: the accepted solution, or else what the scoring dispatcher assigns. */
  ghost predicate LpOutcome(st: Settings, solver: Solver, fleet: seq<Vehicle>, signal: Signal, cutoff: nat, a: map<Id, real>) {
    exists strict :: StrictOutcome(st, solver, fleet, signal, strict)
      && a == if strict.Ok? then strict.assignments else SmartAssignments(st, fleet, signal, cutoff)
  }

  class LpDispatcher {
    const settings: Settings
    const solver: Solver
    var scores: map<Id, real>

    constructor (st: Settings, f: Solver)
      ensures settings == st && solver == f && scores == map[]
    {
      settings, solver, scores := st, f, map[];
    }

    method DispatchStrict(fleet: seq<Vehicle>, signal: Signal) returns (res: LpResult)
      requires DistinctIds(fleet)
      modifies this
      ensures StrictOutcome(settings, solver, fleet, signal, res)
      ensures fleet == [] || signal.power == 0.0 ==> scores == old(scores)
      ensures fleet != [] && signal.power != 0.0 ==>
                var cands := Prepared(settings, fleet, signal);
                && scores.Keys == CandidateIds(cands)
                && forall c :: c in cands && c.v.id in scores ==> scores[c.v.id] == c.score
    {
      if |fleet| == 0 || signal.power == 0.0 {
        return Ok(map[]);
      }
      hide CapacityOf, VehicleScore, Prepared, DistinctIds, DistinctCandidates;
      var cands := PrepareVehicles(settings, fleet, signal);
      PreparedAre(settings, fleet, signal);
      PreparedDistinct(settings, fleet, signal);
      scores := ScoreMap(cands);
      if |cands| == 0 {
        return Ok(map[]);
      }
      var target := Abs(signal.power);
      var answer := solver(Scores(cands), Caps(cands), target);
      if answer == NoSolution {
        return SolverFailed;
      }
      var assignments, sum := ClampSolution(cands, signal.power, answer.x);
      if Abs(sum - target) > LP_TOLERANCE {
        return Infeasible(assignments);
      }
      return Ok(assignments);
    }

    /** With the Smart dispatcher as fallback the result is always safe and never overshoots by more than 1e-3. */
    method Dispatch(fleet: seq<Vehicle>, signal: Signal, cutoff: nat) returns (assignments: map<Id, real>)
      requires DistinctIds(fleet)
      modifies this
      ensures LpOutcome(settings, solver, fleet, signal, cutoff, assignments)
      ensures InEnvelope(settings, fleet, signal, assignments) && AllPhysical(settings, fleet, signal, assignments)
      ensures Signed(signal.power, Total(assignments)) <= Abs(signal.power) + LP_TOLERANCE
    {
      hide StrictOutcome, InEnvelope, AllPhysical, Total, SmartOutcome, SmartAssignments;
      var res := DispatchStrict(fleet, signal);
      StrictIsSafe(settings, solver, fleet, signal, res);
      if res.Ok? {
        EnvelopesArePhysical(settings, fleet, signal, res.assignments);
        return res.assignments;
      }
      assignments := SmartFallback(settings, fleet, signal, cutoff);
      EnvelopesArePhysical(settings, fleet, signal, assignments);
    }
  }

  /** A dispatch by a fresh SmartDispatcher with the given settings. */
  method SmartFallback(st: Settings, fleet: seq<Vehicle>, signal: Signal, cutoff: nat) returns (assignments: map<Id, real>)
    requires DistinctIds(fleet)
    ensures assignments == SmartAssignments(st, fleet, signal, cutoff)
    ensures InEnvelope(st, fleet, signal, assignments)
    ensures Signed(signal.power, Total(assignments)) <= Abs(signal.power)
  {
    hide Total, SmartOutcome, SmartAssignments;
    var smart := new SmartDispatcher(st);
    ghost var residual;
    assignments, residual := smart.Dispatch(fleet, signal, cutoff);
    if fleet == [] || signal.power == 0.0 {
      NothingGiven();
    } else {
      OutcomeInEnvelope(st, fleet, signal, RoundLimit(st, cutoff), assignments, residual);
    }
  }
}
