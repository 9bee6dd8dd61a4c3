/**
 The dispatcher that scores vehicles (core/dispatch/smart_dispatcher.go,
 core/dispatch/helpers.go): candidates, the envelope of their capacities, and the rounds.
 */
module ScoredDispatch {
  import opened Totals
  import opened Fleet
  import opened Arithmetic
  import opened SmartAllocation

  /**
   The fields of SmartDispatcher that steer an allocation.  `rawScore` stands for the weighted
   sum of vehicleScore before it is cut off at zero.
   */
  datatype Settings = Settings(
    maxRounds: int,
    socConstraints: bool,
    minSoC: real,
    safeFloor: real,
    rawScore: (Vehicle, Signal) -> real)

  /** vehicleScore: whatever the weights, a score is never negative. */
  function VehicleScore(st: Settings, v: Vehicle, signal: Signal): (score: real)
    ensures score >= 0.0
    ensures score > 0.0 <==> v.batteryKWh > 0.0 && st.rawScore(v, signal) > 0.0
    ensures score > 0.0 ==> score == st.rawScore(v, signal)
  {
    if v.batteryKWh <= 0.0 then 0.0
    else
      var score := st.rawScore(v, signal);
      if score < 0.0 then 0.0 else score
  }

  function CapacityOf(st: Settings, v: Vehicle, signal: Signal): real {
    Capacity(v, signal, st.socConstraints, st.safeFloor)
  }

  // ----- candidates

  /** The tests of filterBySoC; `alone` says that the fleet has a single vehicle. */
  predicate IsEligible(st: Settings, v: Vehicle, signal: Signal, alone: bool) {
    && v.soc >= st.minSoC && v.batteryKWh > 0.0
    && !(signal.power < 0.0 && UsableEnergy(v, true, st.safeFloor) <= 0.0)
    && !(alone && Capacity(v, signal, true, st.safeFloor) < Abs(signal.power))
  }

  function Eligible(st: Settings, vs: seq<Vehicle>, signal: Signal, alone: bool): seq<Vehicle> {
    if vs == [] then []
    else
      var n := |vs| - 1;
      Eligible(st, vs[..n], signal, alone) + if IsEligible(st, vs[n], signal, alone) then [vs[n]] else []
  }

  function Prepared(st: Settings, vs: seq<Vehicle>, signal: Signal): seq<Candidate> {
    if vs == [] then []
    else
      var n := |vs| - 1;
      var cap := CapacityOf(st, vs[n], signal);
      Prepared(st, vs[..n], signal)
      + if cap <= 0.0 then [] else [Candidate(vs[n], VehicleScore(st, vs[n], signal), cap)]
  }

  function Candidates(st: Settings, fleet: seq<Vehicle>, signal: Signal): seq<Candidate> {
    Prepared(st, if st.socConstraints then Eligible(st, fleet, signal, |fleet| == 1) else fleet, signal)
  }

  lemma {:induction false} EligibleAre(st: Settings, vs: seq<Vehicle>, signal: Signal, alone: bool)
    ensures forall v :: v in Eligible(st, vs, signal, alone) <==> v in vs && IsEligible(st, v, signal, alone)
    ensures DistinctIds(vs) ==> DistinctIds(Eligible(st, vs, signal, alone))
  {
    if vs != [] {
      var n := |vs| - 1;
      EligibleAre(st, vs[..n], signal, alone);
      assert vs == vs[..n] + [vs[n]];
      var init, all := Eligible(st, vs[..n], signal, alone), Eligible(st, vs, signal, alone);
      assert all == init || all == init + [vs[n]];
      if DistinctIds(vs) {
        forall i | 0 <= i < |init| ensures init[i].id != vs[n].id {
          assert init[i] in vs[..n];
        }
      }
    }
  }

  /** What filterBySoC asks of a vehicle, in terms of what would be left in its battery. */
  ghost predicate Qualifies(st: Settings, v: Vehicle, signal: Signal, alone: bool) {
    && v.soc >= st.minSoC && v.batteryKWh > 0.0
    && (signal.power < 0.0 ==> v.soc > v.minSoC && v.soc > st.safeFloor)
    && (alone && signal.power != 0.0 ==> Abs(signal.power) <= v.maxPower)
    && (alone && signal.power < 0.0 && signal.duration > 0 ==> KeepsReserve(v, signal, true, st.safeFloor, Abs(signal.power)))
  }

  lemma EligibleIff(st: Settings, v: Vehicle, signal: Signal, alone: bool)
    ensures IsEligible(st, v, signal, alone) <==> Qualifies(st, v, signal, alone)
  {
    if v.batteryKWh > 0.0 {
      EnergyIffAboveReserve(v, true, st.safeFloor);
      if signal.power < 0.0 && signal.duration > 0 {
        CapacityIsLargest(v, signal, true, st.safeFloor, Abs(signal.power));
      } else if signal.power < 0.0 {
        CapacityWithoutDuration(v, signal, true, st.safeFloor);
      }
    }
    hide UsableEnergy, KeepsReserve;
  }

  /** The filter lets exactly the qualified vehicles through; a lone vehicle must be able to meet the request by itself. */
  lemma EligibleQualify(st: Settings, vs: seq<Vehicle>, signal: Signal, alone: bool)
    ensures forall v :: v in Eligible(st, vs, signal, alone) <==> v in vs && Qualifies(st, v, signal, alone)
  {
    hide Qualifies, IsEligible, Eligible;
    EligibleAre(st, vs, signal, alone);
    forall v ensures IsEligible(st, v, signal, alone) <==> Qualifies(st, v, signal, alone) {
      EligibleIff(st, v, signal, alone);
    }
  }

  /** The candidates are exactly the vehicles with capacity, with their scores and capacities. */
  lemma PreparedAre(st: Settings, vs: seq<Vehicle>, signal: Signal)
    ensures Good(Prepared(st, vs, signal)) && |Prepared(st, vs, signal)| <= |vs|
    ensures forall c :: c in Prepared(st, vs, signal) ==>
              c.v in vs && c.capacity == CapacityOf(st, c.v, signal) && c.score == VehicleScore(st, c.v, signal)
    ensures forall v :: v in vs && CapacityOf(st, v, signal) > 0.0 ==>
              exists c :: c in Prepared(st, vs, signal) && c.v == v
  {
    hide Prepared, CapacityOf, VehicleScore;
    PreparedSound(st, vs, signal);
    forall v | v in vs && CapacityOf(st, v, signal) > 0.0 ensures exists c :: c in Prepared(st, vs, signal) && c.v == v {
      PreparedComplete(st, vs, signal, v);
    }
  }

  lemma {:induction false} PreparedSound(st: Settings, vs: seq<Vehicle>, signal: Signal)
    ensures Good(Prepared(st, vs, signal)) && |Prepared(st, vs, signal)| <= |vs|
    ensures forall c :: c in Prepared(st, vs, signal) ==>
              c.v in vs && c.capacity == CapacityOf(st, c.v, signal) && c.score == VehicleScore(st, c.v, signal)
  {
    hide CapacityOf, VehicleScore;
    if vs != [] {
      var n := |vs| - 1;
      PreparedSound(st, vs[..n], signal);
      assert vs == vs[..n] + [vs[n]];
    }
  }

  lemma {:induction false} PreparedComplete(st: Settings, vs: seq<Vehicle>, signal: Signal, v: Vehicle)
    requires v in vs && CapacityOf(st, v, signal) > 0.0
    ensures exists c :: c in Prepared(st, vs, signal) && c.v == v
  {
    hide CapacityOf, VehicleScore;
    var n := |vs| - 1;
    var init, all := Prepared(st, vs[..n], signal), Prepared(st, vs, signal);
    assert vs == vs[..n] + [vs[n]] && init <= all;
    if v == vs[n] {
      assert all[|all| - 1].v == v;
    } else {
      PreparedComplete(st, vs[..n], signal, v);
      var c :| c in init && c.v == v;
      assert c in all;
    }
  }

  lemma {:induction false} PreparedDistinct(st: Settings, vs: seq<Vehicle>, signal: Signal)
    requires DistinctIds(vs)
    ensures DistinctCandidates(Prepared(st, vs, signal))
  {
    hide CapacityOf, VehicleScore;
    if vs != [] {
      var n := |vs| - 1;
      PreparedDistinct(st, vs[..n], signal);
      var init := Prepared(st, vs[..n], signal);
      assert forall c :: c in init ==> c.v in vs[..n] by { PreparedAre(st, vs[..n], signal); }
      forall c | c in init ensures c.v.id != vs[n].id {
        var i :| 0 <= i < n && vs[..n][i] == c.v;
      }
      CandidatesGrow(init, Candidate(vs[n], VehicleScore(st, vs[n], signal), CapacityOf(st, vs[n], signal)));
    }
  }

  lemma CandidatesGrow(list: seq<Candidate>, c: Candidate)
    requires DistinctCandidates(list) && forall b :: b in list ==> b.v.id != c.v.id
    ensures DistinctCandidates(list + [c])
  {
  }

  /** The capacity of a candidate: the largest power up to MaxPower that keeps the reserve which the settings ask for. */
  lemma CandidateCapacityIs(st: Settings, v: Vehicle, signal: Signal, p: real)
    requires v.batteryKWh >= 0.0
    ensures signal.power >= 0.0 ==> CapacityOf(st, v, signal) == Max(0.0, v.maxPower)
    ensures signal.power < 0.0 && signal.duration > 0 ==>
              && (0.0 < p <= CapacityOf(st, v, signal) ==> KeepsReserve(v, signal, st.socConstraints, st.safeFloor, p))
              && (0.0 <= p <= v.maxPower && KeepsReserve(v, signal, st.socConstraints, st.safeFloor, p) ==>
                    p <= CapacityOf(st, v, signal))
    ensures signal.power < 0.0 && signal.duration <= 0 && v.batteryKWh > 0.0 ==>
              CapacityOf(st, v, signal)
              == if v.soc > v.minSoC && (st.socConstraints ==> v.soc > st.safeFloor) then Max(0.0, v.maxPower) else 0.0
  {
    hide KeepsReserve;
    if signal.power < 0.0 && signal.duration > 0 {
      CapacityIsLargest(v, signal, st.socConstraints, st.safeFloor, p);
    } else if signal.power < 0.0 && v.batteryKWh > 0.0 {
      CapacityWithoutDuration(v, signal, st.socConstraints, st.safeFloor);
    }
  }

  ghost predicate HasCandidate(list: seq<Candidate>, v: Vehicle) {
    exists c :: c in list && c.v == v
  }

  /** Who is a candidate: the vehicles with capacity, of those that qualify where the constraints are on. */
  lemma CandidatesIff(st: Settings, fleet: seq<Vehicle>, signal: Signal, v: Vehicle)
    ensures HasCandidate(Candidates(st, fleet, signal), v)
       <==> && v in fleet && CapacityOf(st, v, signal) > 0.0
            && (st.socConstraints ==> Qualifies(st, v, signal, |fleet| == 1))
  {
    hide Prepared, Eligible, CapacityOf, VehicleScore, Qualifies;
    EligibleQualify(st, fleet, signal, |fleet| == 1);
    PreparedAre(st, if st.socConstraints then Eligible(st, fleet, signal, |fleet| == 1) else fleet, signal);
  }

  lemma CandidatesAre(st: Settings, fleet: seq<Vehicle>, signal: Signal)
    ensures var cands := Candidates(st, fleet, signal);
            && Good(cands)
            && (DistinctIds(fleet) ==> DistinctCandidates(cands))
            && forall c :: c in cands ==> c.v in fleet && c.capacity == CapacityOf(st, c.v, signal)
  {
    hide CapacityOf, VehicleScore, IsEligible, Prepared, Eligible;
    EligibleAre(st, fleet, signal, |fleet| == 1);
    PreparedAre(st, Eligible(st, fleet, signal, |fleet| == 1), signal);
    PreparedAre(st, fleet, signal);
    if DistinctIds(fleet) {
      PreparedDistinct(st, Eligible(st, fleet, signal, |fleet| == 1), signal);
      PreparedDistinct(st, fleet, signal);
    }
  }

  method FilterBySoC(st: Settings, fleet: seq<Vehicle>, signal: Signal) returns (eligible: seq<Vehicle>)
    ensures eligible == if st.socConstraints then Eligible(st, fleet, signal, |fleet| == 1) else fleet
    ensures st.socConstraints ==> forall v :: v in eligible <==> v in fleet && Qualifies(st, v, signal, |fleet| == 1)
  {
    EligibleQualify(st, fleet, signal, |fleet| == 1);
    hide Qualifies;
    if !st.socConstraints {
      return fleet;
    }
    eligible := [];
    for i := 0 to |fleet|
      invariant eligible == Eligible(st, fleet[..i], signal, |fleet| == 1)
    {
      assert fleet[..i + 1][..i] == fleet[..i];
      var v := fleet[i];
      if v.soc < st.minSoC || v.batteryKWh <= 0.0 {
        continue;
      }
      if signal.power < 0.0 && UsableEnergy(v, true, st.safeFloor) <= 0.0 {
        continue;
      }
      if |fleet| == 1 && Capacity(v, signal, true, st.safeFloor) < Abs(signal.power) {
        continue;
      }
      eligible := eligible + [v];
    }
    assert fleet[..|fleet|] == fleet;
  }

  method PrepareVehicles(st: Settings, vs: seq<Vehicle>, signal: Signal) returns (list: seq<Candidate>)
    ensures list == Prepared(st, vs, signal)
  {
    list := [];
    for i := 0 to |vs|
      invariant list == Prepared(st, vs[..i], signal)
    {
      assert vs[..i + 1][..i] == vs[..i];
      var cap := CapacityOf(st, vs[i], signal);
      if cap <= 0.0 {
        continue;
      }
      list := list + [Candidate(vs[i], VehicleScore(st, vs[i], signal), cap)];
    }
    assert vs[..|vs|] == vs;
  }

  // ----- the safety envelope of every scoring dispatcher

  /** Every assignment has the sign of the signal and is within the capacity of its vehicle. */
  ghost predicate InEnvelope(st: Settings, fleet: seq<Vehicle>, signal: Signal, a: map<Id, real>) {
    forall id :: id in a ==> exists v :: v in fleet && v.id == id && VehicleInEnvelope(st, v, signal, a[id])
  }

  ghost predicate VehicleInEnvelope(st: Settings, v: Vehicle, signal: Signal, p: real) {
    0.0 <= Signed(signal.power, p) <= CapacityOf(st, v, signal) && CapacityOf(st, v, signal) > 0.0
  }

  /**
   What the envelope means physically: |p| <= MaxPower, the sign of the signal, and for
   negative signals of positive duration no more energy than lies above the reserve.
   */
  lemma EnvelopeIsPhysical(st: Settings, v: Vehicle, signal: Signal, p: real)
    requires VehicleInEnvelope(st, v, signal, p)
    ensures Abs(p) <= v.maxPower
    ensures if signal.power < 0.0 then p <= 0.0 else p >= 0.0
    ensures signal.power < 0.0 && signal.duration > 0 ==>
              Abs(p) * Hours(signal.duration) <= UsableEnergy(v, st.socConstraints, st.safeFloor)
    ensures Physical(st, v, signal, p)
  {
    if signal.power < 0.0 && signal.duration > 0 {
      assert Abs(p) * Hours(signal.duration) <= CapacityOf(st, v, signal) * Hours(signal.duration);
      if v.batteryKWh >= 0.0 {
        ReserveIsKept(v, signal, st.socConstraints, st.safeFloor, Abs(p));
      }
    }
    hide KeepsReserve, UsableEnergy, Hours;
  }

  lemma ReserveIsKept(v: Vehicle, signal: Signal, useFloor: bool, floor: real, p: real)
    requires signal.power < 0.0 && signal.duration > 0 && v.batteryKWh >= 0.0
    requires 0.0 <= p <= Capacity(v, signal, useFloor, floor) && Capacity(v, signal, useFloor, floor) > 0.0
    ensures KeepsReserve(v, signal, useFloor, floor, p)
  {
    hide KeepsReserve, Capacity;
    if p == 0.0 {
      var cap := Capacity(v, signal, useFloor, floor);
      CapacityIsLargest(v, signal, useFloor, floor, cap);
      LessKeepsReserve(v, signal, useFloor, floor, cap);
    } else {
      CapacityIsLargest(v, signal, useFloor, floor, p);
    }
  }

  /** Direction, MaxPower, and what is left in the battery after a negative signal. */
  ghost predicate Physical(st: Settings, v: Vehicle, signal: Signal, p: real) {
    && (if signal.power < 0.0 then p <= 0.0 else p >= 0.0)
    && Abs(p) <= v.maxPower
    && (signal.power < 0.0 && signal.duration > 0 && v.batteryKWh >= 0.0 ==>
          KeepsReserve(v, signal, st.socConstraints, st.safeFloor, Abs(p)))
  }

  lemma LessKeepsReserve(v: Vehicle, signal: Signal, useFloor: bool, floor: real, p: real)
    requires signal.duration > 0 && p >= 0.0 && KeepsReserve(v, signal, useFloor, floor, p)
    ensures KeepsReserve(v, signal, useFloor, floor, 0.0)
  {
    assert p * Hours(signal.duration) >= 0.0;
  }

  ghost predicate AllPhysical(st: Settings, fleet: seq<Vehicle>, signal: Signal, a: map<Id, real>) {
    forall id :: id in a ==> exists v :: v in fleet && v.id == id && Physical(st, v, signal, a[id])
  }

  lemma EnvelopesArePhysical(st: Settings, fleet: seq<Vehicle>, signal: Signal, a: map<Id, real>)
    requires InEnvelope(st, fleet, signal, a)
    ensures AllPhysical(st, fleet, signal, a)
  {
    hide Physical, VehicleInEnvelope;
    forall id | id in a ensures exists v :: v in fleet && v.id == id && Physical(st, v, signal, a[id]) {
      var v :| v in fleet && v.id == id && VehicleInEnvelope(st, v, signal, a[id]);
      EnvelopeIsPhysical(st, v, signal, a[id]);
    }
  }

  lemma OutcomeInEnvelope(st: Settings, fleet: seq<Vehicle>, signal: Signal, m: nat, a: map<Id, real>, residual: real)
    requires SmartOutcome(Candidates(st, fleet, signal), signal.power, m, a, residual)
    ensures InEnvelope(st, fleet, signal, a)
    ensures Signed(signal.power, Total(a)) <= Abs(signal.power)
  {
    hide CapacityOf, Candidates, Total;
    var cands := Candidates(st, fleet, signal);
    CandidatesAre(st, fleet, signal);
    forall id | id in a ensures exists v :: v in fleet && v.id == id && VehicleInEnvelope(st, v, signal, a[id]) {
      var c :| c in cands && c.v.id == id && 0.0 <= Signed(signal.power, a[id]) <= c.capacity;
      assert VehicleInEnvelope(st, c.v, signal, a[id]);
    }
  }

  // ----- SmartDispatcher

  /** How many rounds are made; with MaxRounds = 0 the loop is unbounded and `cutoff` is any point of it. */
  function RoundLimit(st: Settings, cutoff: nat): nat {
    if st.maxRounds == 0 then cutoff else if st.maxRounds < 0 then 0 else st.maxRounds
  }

  lemma NextVisit(kept: seq<Candidate>, weight: real, remaining: real, given: map<Id, real>,
                  rest: seq<Candidate>, power: real)
    requires rest != [] && remaining > 0.0 && weight > 0.0
    ensures var p := Visit(weight, remaining, given, rest[0], power);
            Resume(kept, weight, remaining, given, rest, power)
            == Resume(kept + p.kept, p.weight, p.remaining, p.given, rest[1..], power)
  {
    hide Visit;
    var p := Visit(weight, remaining, given, rest[0], power);
    var q := AllocateRound(p.weight, p.remaining, p.given, rest[1..], power);
    assert kept + (p.kept + q.kept) == kept + p.kept + q.kept;
  }

  function Resume(kept: seq<Candidate>, weight: real, remaining: real, given: map<Id, real>,
                  rest: seq<Candidate>, power: real): Round {
    var q := AllocateRound(weight, remaining, given, rest, power);
    q.(kept := kept + q.kept)
  }

  /** allocateRound on the slice: survivors are written over the part that has been read. */
  method AllocateRoundInPlace(list: array<Candidate>, count: nat, weight0: real, remaining0: real,
                              given: map<Id, real>, power: real)
    returns (next: nat, weight: real, remaining: real, consumed: real, assignments: map<Id, real>)
    requires count <= list.Length
    modifies list
    ensures next <= count
    ensures Round(list[..next], weight, remaining, assignments)
            == AllocateRound(weight0, remaining0, given, old(list[..count]), power)
    ensures consumed == remaining0 - remaining
  {
    hide Visit, AllocateRound;
    next, weight, remaining, consumed, assignments := 0, weight0, remaining0, 0.0, given;
    ghost var all := list[..count];
    ghost var goal := AllocateRound(weight0, remaining0, given, all, power);
    assert all[0..] == all;
    var r := 0;
    while r < count
      invariant 0 <= next <= r <= count
      invariant forall i :: r <= i < count ==> list[i] == all[i]
      invariant Resume(list[..next], weight, remaining, assignments, all[r..], power) == goal
      invariant consumed == remaining0 - remaining
    {
      var c := list[r];
      if remaining <= 0.0 || weight <= 0.0 {
        break;
      }
      ghost var kept := list[..next];
      assert all[r..][0] == c && all[r..][1..] == all[r + 1..];
      NextVisit(kept, weight, remaining, assignments, all[r..], power);
      var keep, c', weight', remaining';
      keep, c', weight', remaining', assignments := VisitCandidate(c, weight, remaining, assignments, power);
      consumed := consumed + (remaining - remaining');
      weight, remaining := weight', remaining';
      if keep {
        list[next] := c';
        next := next + 1;
      }
      assert list[..next] == kept + if keep then [c'] else [];
      r := r + 1;
    }
    RoundStops(weight, remaining, assignments, all[r..], power);
    assert list[..next] + [] == list[..next];
  }

  lemma RoundStops(weight: real, remaining: real, given: map<Id, real>, rest: seq<Candidate>, power: real)
    requires rest == [] || remaining <= 0.0 || weight <= 0.0
    ensures AllocateRound(weight, remaining, given, rest, power) == Round([], weight, remaining, given)
  {
  }

  /** The two branches of the loop body. */
  method VisitCandidate(c: Candidate, weight0: real, remaining0: real, given: map<Id, real>, power: real)
    returns (keep: bool, c': Candidate, weight: real, remaining: real, assignments: map<Id, real>)
    requires weight0 > 0.0
    ensures Round(if keep then [c'] else [], weight, remaining, assignments) == Visit(weight0, remaining0, given, c, power)
  {
    hide Share;
    keep, c', weight, remaining, assignments := false, c, weight0, remaining0, given;
    var share := Share(remaining, c.score, weight);
    if share >= c.capacity {
      assignments := Credit(assignments, c.v.id, power, c.capacity);
      remaining := remaining - c.capacity;
      weight := weight - c.score;
    } else {
      assignments := Credit(assignments, c.v.id, power, share);
      c' := c'.(capacity := c.capacity - share);
      remaining := remaining - share;
      keep := true;
    }
  }

  method SumScores(cands: seq<Candidate>) returns (sum: real)
    ensures sum == ScoreSum(cands)
  {
    sum := 0.0;
    for i := 0 to |cands|
      invariant sum + ScoreSum(cands[i..]) == ScoreSum(cands)
    {
      assert cands[i..][1..] == cands[i + 1..];
      sum := sum + cands[i].score;
    }
  }

  /** What the scoring dispatcher assigns. */
  ghost function SmartAssignments(st: Settings, fleet: seq<Vehicle>, signal: Signal, cutoff: nat): map<Id, real> {
    var cands := Candidates(st, fleet, signal);
    if fleet == [] || signal.power == 0.0 then map[]
    else Rounds(Round(cands, ScoreSum(cands), Abs(signal.power), map[]), signal.power, RoundLimit(st, cutoff)).given
  }

  class SmartDispatcher {
    const settings: Settings
    var scores: map<Id, real>

    constructor (st: Settings)
      ensures settings == st && scores == map[]
    {
      settings, scores := st, map[];
    }

    /** The candidates' scores are stored; the assignments are those of `Rounds` over the candidates. */
    method Dispatch(fleet: seq<Vehicle>, signal: Signal, cutoff: nat)
      returns (assignments: map<Id, real>, ghost residual: real)
      requires DistinctIds(fleet)
      modifies this
      ensures assignments == SmartAssignments(settings, fleet, signal, cutoff)
      ensures AllPhysical(settings, fleet, signal, assignments)
      ensures fleet != [] && signal.power != 0.0 ==>
                var cands := Candidates(settings, fleet, signal);
                var start := Round(cands, ScoreSum(cands), Abs(signal.power), map[]);
                && (settings.maxRounds > 0 ==> assignments == Rounds(start, signal.power, settings.maxRounds).given)
                && (settings.maxRounds == 0 ==> assignments == Rounds(start, signal.power, cutoff).given)
      ensures fleet == [] || signal.power == 0.0 ==> assignments == map[] && scores == old(scores)
      ensures fleet != [] && signal.power != 0.0 ==>
                var cands := Candidates(settings, fleet, signal);
                && SmartOutcome(cands, signal.power, RoundLimit(settings, cutoff), assignments, residual)
                && scores.Keys == CandidateIds(cands)
                && forall c :: c in cands && c.v.id in scores ==> scores[c.v.id] == c.score
    {
      assignments, residual := map[], Abs(signal.power);
      if |fleet| == 0 || signal.power == 0.0 {
        return;
      }
      var eligible := FilterBySoC(settings, fleet, signal);
      var cands := PrepareVehicles(settings, eligible, signal);
      CandidatesAre(settings, fleet, signal);
      scores := ScoreMap(cands);
      assignments, residual := RunRounds(cands, signal.power, RoundLimit(settings, cutoff));
      RoundsOutcome(cands, signal.power, RoundLimit(settings, cutoff));
      OutcomeInEnvelope(settings, fleet, signal, RoundLimit(settings, cutoff), assignments, residual);
      EnvelopesArePhysical(settings, fleet, signal, assignments);
    }
  }

  method ScoreMap(cands: seq<Candidate>) returns (scores: map<Id, real>)
    requires DistinctCandidates(cands)
    ensures scores.Keys == CandidateIds(cands)
    ensures forall c :: c in cands && c.v.id in scores ==> scores[c.v.id] == c.score
  {
    scores := map[];
    for i := 0 to |cands|
      invariant scores.Keys == CandidateIds(cands[..i])
      invariant forall j :: 0 <= j < i ==> cands[j].v.id in scores && scores[cands[j].v.id] == cands[j].score
    {
      assert cands[..i + 1] == cands[..i] + [cands[i]];
      scores := scores[cands[i].v.id := cands[i].score];
    }
    assert cands[..|cands|] == cands;
  }

  /** The loop over rounds. */
  method RunRounds(cands: seq<Candidate>, power: real, limit: nat)
    returns (assignments: map<Id, real>, ghost residual: real)
    ensures assignments == Rounds(Round(cands, ScoreSum(cands), Abs(power), map[]), power, limit).given
    ensures residual == Rounds(Round(cands, ScoreSum(cands), Abs(power), map[]), power, limit).remaining
  {
    hide AllocateRound;
    assignments := map[];
    var remaining := Abs(power);
    var weight := SumScores(cands);
    var list := new Candidate[|cands|](i requires 0 <= i < |cands| => cands[i]);
    var count := |cands|;
    assert list[..count] == cands;
    ghost var goal := Rounds(Round(cands, weight, remaining, assignments), power, limit);
    var rounds := 0;
    while remaining > 0.0 && count > 0 && weight > 0.0 && rounds < limit
      invariant 0 <= count <= list.Length && 0 <= rounds <= limit
      invariant Rounds(Round(list[..count], weight, remaining, assignments), power, limit - rounds) == goal
      decreases limit - rounds
    {
      ghost var r := Round(list[..count], weight, remaining, assignments);
      var consumed;
      count, weight, remaining, consumed, assignments :=
        AllocateRoundInPlace(list, count, weight, remaining, assignments, power);
      assert Round(list[..count], weight, remaining, assignments)
          == AllocateRound(r.weight, r.remaining, r.given, r.kept, power);
      if consumed == 0.0 {
        residual := remaining;
        return;
      }
      rounds := rounds + 1;
    }
    residual := remaining;
  }
}
