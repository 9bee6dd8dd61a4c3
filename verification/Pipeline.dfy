/**
 The dispatch-and-fallback part of DispatchManager.Dispatch (core/dispatch/manager.go:236-262)
 with the EqualDispatcher and the BalancedFallback, for whatever subset acknowledges.
 */
module Pipeline {
  import opened Totals
  import opened Fleet
  import opened Arithmetic
  import opened WaterFilling
  import Equal = EqualDispatcher
  import opened BalancedFallbackStrategy

  predicate IsAcknowledged(acks: map<Id, bool>, id: Id) { id in acks && acks[id] }

  function Failed(fleet: seq<Vehicle>, acks: map<Id, bool>): seq<Vehicle> {
    if fleet == [] then []
    else
      var n := |fleet| - 1;
      Failed(fleet[..n], acks) + if IsAcknowledged(acks, fleet[n].id) then [] else [fleet[n]]
  }

  lemma {:induction false} FailedAre(fleet: seq<Vehicle>, acks: map<Id, bool>)
    ensures forall v :: v in Failed(fleet, acks) <==> v in fleet && (v.id in acks ==> !acks[v.id])
  {
    if fleet != [] {
      var n := |fleet| - 1;
      FailedAre(fleet[..n], acks);
      assert fleet == fleet[..n] + [fleet[n]];
    }
  }

  /** `unacknowledged`: a vehicle without an entry counts as failed. */
  method Unacknowledged(fleet: seq<Vehicle>, acks: map<Id, bool>) returns (failed: seq<Vehicle>)
    ensures failed == Failed(fleet, acks)
    ensures forall v :: v in failed <==> v in fleet && (v.id in acks ==> !acks[v.id])
  {
    FailedAre(fleet, acks);
    failed := [];
    for i := 0 to |fleet|
      invariant failed == Failed(fleet[..i], acks)
    {
      assert fleet[..i + 1][..i] == fleet[..i];
      if !(fleet[i].id in acks && acks[fleet[i].id]) {
        failed := failed + [fleet[i]];
      }
    }
    assert fleet[..|fleet|] == fleet;
  }

  ghost predicate SoundFleet(fleet: seq<Vehicle>) {
    DistinctIds(fleet) && forall v :: v in fleet ==> v.maxPower >= 0.0 && 0.0 <= v.soc <= 1.0
  }

  /** For a request that is not negative, nobody is assigned a negative power. */
  lemma SharesNonnegative(limits: map<Id, real>, power: real, a: map<Id, real>, level: real)
    requires power >= 0.0 && forall id :: id in limits ==> limits[id] >= 0.0
    requires IsWaterFilling(limits, power, a, level)
    ensures forall id :: id in a ==> a[id] >= 0.0
  {
    NonnegativeTotal(limits);
    if level < 0.0 && limits != map[] {
      var zeros := map id | id in a :: 0.0;
      ZeroTotal(zeros);
      var id :| id in limits;
      TotalMonotone(a, zeros);
      assert false;
    }
  }

  /** The table that SetVehicles makes of the fleet. */
  ghost function Directory(fleet: seq<Vehicle>): map<Id, Vehicle> {
    map id | id in Ids(fleet) :: (var v :| v in fleet && v.id == id; v)
  }

  lemma DirectoryIs(fleet: seq<Vehicle>, vehicles: map<Id, Vehicle>)
    requires SoundFleet(fleet) && vehicles.Keys == Ids(fleet)
    requires forall id :: id in vehicles ==> vehicles[id] in fleet && vehicles[id].id == id
    ensures vehicles == Directory(fleet) && ValidFleet(Directory(fleet))
  {
    forall id | id in vehicles ensures vehicles[id] == Directory(fleet)[id] {
      SameIdSameVehicle(fleet, vehicles[id], Directory(fleet)[id]);
    }
  }

  lemma DirectoryIsValid(fleet: seq<Vehicle>)
    requires SoundFleet(fleet)
    ensures ValidFleet(Directory(fleet))
  {
  }

  /** What the fallback did, in terms of the fleet and the acknowledgments. */
  ghost predicate FellBack(fleet: seq<Vehicle>, acks: map<Id, bool>, assignments: map<Id, real>, power: real,
                           passes: nat, fallback: map<Id, real>, undelivered: real)
    requires SoundFleet(fleet)
  {
    DirectoryIsValid(fleet);
    var failed := Ids(Failed(fleet, acks));
    && Reallocated(Directory(fleet), assignments, failed, power, passes, fallback, undelivered)
    && PlacedByPasses(Directory(fleet), assignments, failed, power, passes, fallback, undelivered)
  }

  /** The powers after the fallback, compared with those before it, for a signal of either sign. */
  ghost predicate Redistributed(fleet: seq<Vehicle>, acks: map<Id, bool>, assignments: map<Id, real>, power: real,
                                fallback: map<Id, real>, undelivered: real)
    requires SoundFleet(fleet)
  {
    && fallback.Keys == assignments.Keys == Ids(fleet)
    && (forall v :: v in fleet && v.id in fallback && !IsAcknowledged(acks, v.id) ==> fallback[v.id] == 0.0)
    && (forall v :: v in fleet && v.id in fallback && IsAcknowledged(acks, v.id) ==>
          0.0 <= Signed(power, fallback[v.id] - assignments[v.id]) <= EffectiveCapacity(v, assignments[v.id]))
    && (power >= 0.0 ==> forall v :: v in fleet && v.id in fallback && IsAcknowledged(acks, v.id) ==>
          fallback[v.id] <= Max(assignments[v.id], DegradedLimit(v)))
    && 0.0 <= undelivered
    && Total(fallback) + Signed(power, undelivered) == Total(assignments)
  }

  ghost predicate OfSign(power: real, a: map<Id, real>) {
    forall id :: id in a ==> Signed(power, a[id]) >= 0.0
  }

  lemma FailedPlusSurvivors(current: map<Id, real>, failed: set<Id>, power: real)
    requires OfSign(power, current)
    ensures Total(Survivors(current, failed)) + Signed(power, Total(FailedPower(current, failed))) == Total(current)
  {
    hide Total;
    var s, f := Survivors(current, failed), FailedPower(current, failed);
    var raw := map id | id in f :: current[id];
    var zeros := map id | id in raw :: 0.0;
    assert s.Keys !! raw.Keys && s + raw == current;
    TotalUnion(s, raw);
    ZeroTotal(zeros);
    assert f == map id | id in raw :: Signed(power, raw[id] - zeros[id]);
    DifferenceTotal(raw, zeros, power, f);
  }

  lemma ReallocatedIsRedistributed(fleet: seq<Vehicle>, acks: map<Id, bool>, assignments: map<Id, real>,
                                   power: real, passes: nat, fallback: map<Id, real>, undelivered: real)
    requires SoundFleet(fleet) && assignments.Keys == Ids(fleet) && OfSign(power, assignments)
    requires FellBack(fleet, acks, assignments, power, passes, fallback, undelivered)
    ensures Redistributed(fleet, acks, assignments, power, fallback, undelivered)
  {
    hide Total, HalvedTimes, EffectiveCapacity, DegradedLimit, Failed, FailedPower, Survivors, SurvivorCaps,
         SurvivorCapacity, DistinctIds, IsAcknowledged, Directory, PlacedByPasses, OfSign;
    DirectoryIsValid(fleet);
    var failed, vehicles := Ids(Failed(fleet, acks)), Directory(fleet);
    FailedPlusSurvivors(assignments, failed, power);
    FailedIds(fleet, acks);
    forall v | v in fleet && IsAcknowledged(acks, v.id)
      ensures v.id in fallback && v.id in assignments
      ensures 0.0 <= Signed(power, fallback[v.id] - assignments[v.id]) <= EffectiveCapacity(v, assignments[v.id])
      ensures power >= 0.0 ==> fallback[v.id] <= Max(assignments[v.id], DegradedLimit(v))
    {
      assert v.id in assignments && v.id !in failed;
      DirectoryOf(fleet, v);
      CapacityBound(vehicles, v, assignments[v.id]);
    }
  }

  lemma DirectoryOf(fleet: seq<Vehicle>, v: Vehicle)
    requires SoundFleet(fleet) && v in fleet
    ensures v.id in Directory(fleet) && Directory(fleet)[v.id] == v
  {
    SameIdSameVehicle(fleet, v, Directory(fleet)[v.id]);
  }

  lemma CapacityBound(vehicles: map<Id, Vehicle>, v: Vehicle, current: real)
    requires ValidFleet(vehicles) && v.id in vehicles && vehicles[v.id] == v
    ensures SurvivorCapacity(vehicles, v.id, current) == EffectiveCapacity(v, current) >= 0.0
    ensures EffectiveCapacity(v, current) > 0.0 ==> current + EffectiveCapacity(v, current) <= DegradedLimit(v)
  {
    hide EffectiveCapacity, DegradedLimit;
  }

  lemma FailedIds(fleet: seq<Vehicle>, acks: map<Id, bool>)
    requires DistinctIds(fleet)
    ensures Ids(Failed(fleet, acks)) <= Ids(fleet)
    ensures forall v :: v in fleet ==> (v.id in Ids(Failed(fleet, acks)) <==> !IsAcknowledged(acks, v.id))
  {
    FailedAre(fleet, acks);
    forall v | v in fleet ensures v.id in Ids(Failed(fleet, acks)) <==> !IsAcknowledged(acks, v.id) {
      if v.id in Ids(Failed(fleet, acks)) {
        var u :| u in Failed(fleet, acks) && u.id == v.id;
        SameIdSameVehicle(fleet, u, v);
      }
    }
  }

  /** What the dispatch-and-fallback part does; without a failed vehicle there is no fallback at all. */
  ghost predicate Outcome(fleet: seq<Vehicle>, power: real, acks: map<Id, bool>, passes: nat,
                          assignments: map<Id, real>, level: real, fallback: Option<map<Id, real>>, undelivered: real)
    requires SoundFleet(fleet)
  {
    && (if fleet == [] then assignments == map[] else IsWaterFilling(PowerLimits(fleet), power, assignments, level))
    && (fallback.Some? <==> Failed(fleet, acks) != [])
    && (fallback.Some? ==> FellBack(fleet, acks, assignments, power, passes, fallback.value, undelivered))
  }

  /**
   A signal of either sign end to end, for every acknowledgment map and every number of
   reallocation passes: failed vehicles end at 0, acknowledged ones move only towards the signal
   and within their capacity, and no power appears or gets lost.
   */
  method DispatchEqual(fleet: seq<Vehicle>, signal: Signal, acks: map<Id, bool>, passes: nat)
    returns (assignments: map<Id, real>, fallback: Option<map<Id, real>>, ghost undelivered: real, ghost level: real)
    requires SoundFleet(fleet)
    ensures Outcome(fleet, signal.power, acks, passes, assignments, level, fallback, undelivered)
    ensures assignments.Keys == Ids(fleet) && OfSign(signal.power, assignments)
    ensures Abs(Total(assignments)) <= Abs(signal.power)
    ensures fallback.None? <==> forall v :: v in fleet ==> IsAcknowledged(acks, v.id)
    ensures fallback.Some? ==> Redistributed(fleet, acks, assignments, signal.power, fallback.value, undelivered)
  {
    hide Total, Redistributed, Reallocated, PlacedByPasses, EffectiveCapacity, PowerLimits, IsWaterFilling, Directory, OfSign;
    var strategy := new BalancedFallback();
    strategy.SetVehicles(fleet);
    DirectoryIs(fleet, strategy.vehicles);
    ghost var made;
    assignments, level, made := Equal.Dispatch(fleet, signal.power);
    EqualSharesSound(fleet, signal.power, assignments, level);
    var failed := Unacknowledged(fleet, acks);
    NobodyFailedIff(fleet, acks);
    undelivered := 0.0;
    if |failed| > 0 {
      var powers;
      powers, undelivered := strategy.Reallocate(failed, assignments, signal, passes);
      fallback := Some(powers);
      ReallocatedIsRedistributed(fleet, acks, assignments, signal.power, passes, powers, undelivered);
    } else {
      fallback := None;
    }
  }

  lemma NobodyFailedIff(fleet: seq<Vehicle>, acks: map<Id, bool>)
    ensures Failed(fleet, acks) == [] <==> forall v :: v in fleet ==> IsAcknowledged(acks, v.id)
  {
    FailedAre(fleet, acks);
    if Failed(fleet, acks) != [] {
      assert Failed(fleet, acks)[0] in Failed(fleet, acks);
    }
  }

  lemma EqualSharesSound(fleet: seq<Vehicle>, power: real, a: map<Id, real>, level: real)
    requires SoundFleet(fleet)
    requires if fleet == [] then a == map[] else IsWaterFilling(PowerLimits(fleet), power, a, level)
    ensures a.Keys == Ids(fleet) && OfSign(power, a) && Abs(Total(a)) <= Abs(power)
  {
    hide PowerLimits, Total;
    if fleet == [] {
      ZeroTotal(a);
      return;
    }
    var limits := PowerLimits(fleet);
    LimitKeys(fleet);
    forall id | id in limits ensures limits[id] >= 0.0 {
      var v := LimitOwner(fleet, id);
    }
    NonnegativeTotal(limits);
    if power >= 0.0 {
      SharesNonnegative(limits, power, a, level);
      NonnegativeTotal(a);
    } else {
      Equal.NegativeRequests(fleet, power, a, level);
      Equal.NegativeShare(power, |fleet|);
      forall id | id in a ensures Signed(power, a[id]) >= 0.0 {
        var v := LimitOwner(fleet, id);
      }
    }
  }
}
