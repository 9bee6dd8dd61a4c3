/**
 Whether dispatch and fallback respect the degraded power limits.  For positive signals that is
 decided by the assignments; for negative ones the fallback counts the power already assigned
 as additional room (core/model/vehicle.go:89), and the exact condition is on the fleet.
 */
module FallbackLimits {
  import opened Totals
  import opened Fleet
  import opened Arithmetic
  import opened WaterFilling
  import Equal = EqualDispatcher
  import opened Fallback
  import opened BalancedFallbackStrategy
  import opened Pipeline

  /** The powers that are in force in the end. */
  ghost function Final(assignments: map<Id, real>, fallback: Option<map<Id, real>>): map<Id, real> {
    if fallback.Some? then fallback.value else assignments
  }

  ghost predicate WithinLimits(fleet: seq<Vehicle>, a: map<Id, real>) {
    forall v :: v in fleet && v.id in a ==> Abs(a[v.id]) <= DegradedLimit(v)
  }

  lemma DegradedLimitNonnegative(v: Vehicle)
    requires v.maxPower >= 0.0
    ensures DegradedLimit(v) >= 0.0
  {
    assert 0.0 <= Clamp(v.degradation, 0.0, 1.0) <= 1.0;
  }

  /** For signals that are not negative the fallback breaks no limit that the assignment respects. */
  lemma PositiveLimitsIff(fleet: seq<Vehicle>, power: real, acks: map<Id, bool>, passes: nat,
                          a: map<Id, real>, level: real, fallback: Option<map<Id, real>>, undelivered: real)
    requires SoundFleet(fleet) && power >= 0.0 && Outcome(fleet, power, acks, passes, a, level, fallback, undelivered)
    ensures a.Keys == Ids(fleet)
    ensures WithinLimits(fleet, Final(a, fallback)) <==>
            forall v :: v in fleet && v.id in a && IsAcknowledged(acks, v.id) ==> a[v.id] <= DegradedLimit(v)
  {
    hide Total, DegradedLimit, EffectiveCapacity, PowerLimits, IsWaterFilling, FellBack;
    EqualSharesSound(fleet, power, a, level);
    NobodyFailedIff(fleet, acks);
    forall v | v in fleet ensures v.id in a && DegradedLimit(v) >= 0.0 {
      DegradedLimitNonnegative(v);
    }
    if fallback.Some? {
      ReallocatedIsRedistributed(fleet, acks, a, power, passes, fallback.value, undelivered);
    }
  }

  // ----- negative signals

  ghost function Share(fleet: seq<Vehicle>, power: real): real
    requires fleet != []
  {
    Abs(power) / |fleet| as real
  }

  /** The largest magnitude a vehicle can end with: it alone acknowledges, and takes over what it has room for. */
  ghost function WorstCase(fleet: seq<Vehicle>, power: real, v: Vehicle): real
    requires fleet != [] && 0.0 <= v.soc <= 1.0
  {
    var s := Share(fleet, power);
    s + Min(Times(|fleet| - 1, s), EffectiveCapacity(v, -s))
  }

  lemma NegativeAssignments(fleet: seq<Vehicle>, power: real, a: map<Id, real>, level: real)
    requires SoundFleet(fleet) && fleet != [] && power < 0.0 && IsWaterFilling(PowerLimits(fleet), power, a, level)
    ensures a == map id | id in Ids(fleet) :: -Share(fleet, power)
    ensures Share(fleet, power) > 0.0
  {
    hide PowerLimits, Total;
    LimitKeys(fleet);
    Equal.NegativeRequests(fleet, power, a, level);
    Equal.NegativeShare(power, |fleet|);
    forall id | id in a ensures a[id] == -Share(fleet, power) {
      var v := LimitOwner(fleet, id);
    }
  }

  /** The failed vehicles carried one share each. */
  lemma FailedShares(current: map<Id, real>, failed: set<Id>, s: real)
    requires s > 0.0 && failed <= current.Keys && forall id :: id in current ==> current[id] == -s
    ensures Total(FailedPower(current, failed)) == Times(|failed|, s)
  {
    var f := FailedPower(current, failed);
    assert f.Keys == failed && |f| == |f.Keys|;
    TotalConstant(f, s);
  }

  lemma {:induction false} TimesMonotone(m: nat, n: nat, x: real)
    requires m <= n && x >= 0.0
    ensures Times(m, x) <= Times(n, x)
    decreases n
  {
    if m < n {
      TimesMonotone(m, n - 1, x);
    }
  }

  /** Nobody is given more than all the failed vehicles had. */
  lemma AddedWithinResidual(vehicles: map<Id, Vehicle>, current: map<Id, real>, failed: set<Id>, power: real,
                            passes: nat, res: map<Id, real>, undelivered: real, id: Id)
    requires ValidFleet(vehicles) && Reallocated(vehicles, current, failed, power, passes, res, undelivered)
    requires id in current && id !in failed
    ensures Signed(power, res[id] - current[id]) <= Total(FailedPower(current, failed))
  {
    hide Total, HalvedTimes, EffectiveCapacity, FailedPower, SurvivorCapacity, SurvivorCaps;
    var added := map k | k in Survivors(current, failed) :: Signed(power, res[k] - current[k]);
    AddedTotal(current, failed, power, res, added);
    var zeros := map k | k in added :: 0.0;
    ZeroTotal(zeros);
    TotalMonotone(zeros, added);
    assert id in added;
  }

  lemma FewerThanAll(fleet: seq<Vehicle>, acks: map<Id, bool>, v: Vehicle)
    requires DistinctIds(fleet) && v in fleet && IsAcknowledged(acks, v.id)
    ensures |Ids(Failed(fleet, acks))| <= |fleet| - 1
  {
    FailedIds(fleet, acks);
    Equal.FleetSize(fleet);
    Smaller(Ids(Failed(fleet, acks)), Ids(fleet), v.id);
  }

  lemma Smaller(s: set<Id>, t: set<Id>, id: Id)
    requires s <= t && id in t && id !in s
    ensures |s| <= |t| - 1
  {
    SubsetSize(s, t - {id});
  }

  /** Whoever acknowledges, no vehicle ends beyond its worst case. */
  lemma NeverBeyondWorstCase(fleet: seq<Vehicle>, power: real, acks: map<Id, bool>, passes: nat, a: map<Id, real>,
                             level: real, fallback: Option<map<Id, real>>, undelivered: real, v: Vehicle)
    requires SoundFleet(fleet) && fleet != [] && power < 0.0 && v in fleet
    requires Outcome(fleet, power, acks, passes, a, level, fallback, undelivered)
    ensures v.id in Final(a, fallback) && Abs(Final(a, fallback)[v.id]) <= WorstCase(fleet, power, v)
  {
    hide Total, EffectiveCapacity, DegradedLimit, PowerLimits, IsWaterFilling, Reallocated, PlacedByPasses, Failed,
         DistinctIds, Directory, Share, Times, FailedPower, IsAcknowledged;
    var s := Share(fleet, power);
    NegativeAssignments(fleet, power, a, level);
    EqualSharesSound(fleet, power, a, level);
    TimesMonotone(0, |fleet| - 1, s);
    NoTimes(s);
    if fallback.Some? {
      var failed := Ids(Failed(fleet, acks));
      DirectoryIsValid(fleet);
      ReallocatedIsRedistributed(fleet, acks, a, power, passes, fallback.value, undelivered);
      if IsAcknowledged(acks, v.id) {
        FailedIds(fleet, acks);
        AddedWithinResidual(Directory(fleet), a, failed, power, passes, fallback.value, undelivered, v.id);
        FailedShares(a, failed, s);
        FewerThanAll(fleet, acks, v);
        TimesMonotone(|failed|, |fleet| - 1, s);
      }
    }
  }

  lemma NoTimes(x: real)
    ensures Times(0, x) == 0.0
  {
  }

  // ----- the worst case happens

  /** The even split is an assignment. */
  lemma EvenSplit(fleet: seq<Vehicle>, power: real) returns (a: map<Id, real>, level: real)
    requires SoundFleet(fleet) && fleet != [] && power < 0.0
    ensures IsWaterFilling(PowerLimits(fleet), power, a, level)
  {
    hide PowerLimits, Total;
    level := power / |fleet| as real;
    Equal.LimitsOfFleet(fleet);
    Equal.SharesAddUp(power, |fleet|);
    Equal.NegativeShare(power, |fleet|);
    Equal.EvenFill(PowerLimits(fleet), level, power);
    a := Filled(PowerLimits(fleet), level);
  }

  lemma OnlySurvivor(fleet: seq<Vehicle>, v: Vehicle, acks: map<Id, bool>)
    requires SoundFleet(fleet) && v in fleet && acks == map[v.id := true]
    ensures Ids(Failed(fleet, acks)) == Ids(fleet) - {v.id}
    ensures |Ids(Failed(fleet, acks))| == |fleet| - 1
    ensures Failed(fleet, acks) == [] <==> |fleet| == 1
  {
    hide Failed;
    FailedIds(fleet, acks);
    Equal.FleetSize(fleet);
    forall id | id in Ids(fleet) ensures id in Ids(Failed(fleet, acks)) <==> id != v.id {
      var u :| u in fleet && u.id == id;
    }
    assert Ids(Failed(fleet, acks)) == Ids(fleet) - {v.id};
    if Failed(fleet, acks) != [] {
      assert Failed(fleet, acks)[0].id in Ids(Failed(fleet, acks));
    } else {
      assert Ids(Failed(fleet, acks)) == {};
    }
  }

  /** One pass over a single survivor with this capacity places all it can. */
  lemma OnePassOverOne(id: Id, cap: real, residual: real, base: map<Id, real>, power: real, avail: seq<Alloc>)
    requires cap >= 0.0 && residual > 0.0 && avail == if cap > 0.0 then [Alloc(id, cap)] else []
    ensures Passes(Pass(avail, residual, base), power, 1).remaining == residual - Min(residual, cap)
  {
    hide OnePass;
    if cap > 0.0 {
      assert avail[1..] == [];
      assert CapSum(avail) == cap;
      assert Positive(avail);
      if residual < cap {
        PassFinishesIffAlone(residual, base, avail, power);
        assert Passes(Pass(avail, residual, base), power, 1) == Passes(OnePass(cap, residual, base, avail, power), power, 0);
      } else {
        PassesConverge(Pass(avail, residual, base), power, 1);
      }
    }
  }

  lemma SurvivorEnumerated(fleet: seq<Vehicle>, v: Vehicle, a: map<Id, real>, failed: set<Id>, avail: seq<Alloc>)
    requires SoundFleet(fleet) && v in fleet && a.Keys == Ids(fleet) && failed == Ids(fleet) - {v.id}
    requires ValidFleet(Directory(fleet))
    requires avail == var cap := EffectiveCapacity(v, a[v.id]); if cap > 0.0 then [Alloc(v.id, cap)] else []
    ensures Enumerates(avail, SurvivorCaps(Directory(fleet), a, failed)) && Positive(avail)
  {
    hide EffectiveCapacity, Directory;
    DirectoryOf(fleet, v);
    var caps := SurvivorCaps(Directory(fleet), a, failed);
    assert forall id :: id in caps ==> id == v.id;
  }

  /** Everybody else is zeroed, so the total is what the survivor has. */
  lemma SurvivorTotal(a: map<Id, real>, id: Id, res: map<Id, real>)
    requires id in a && res.Keys == a.Keys && forall k :: k in a && k != id ==> res[k] == 0.0
    ensures Total(res) == res[id] && Total(Survivors(a, a.Keys - {id})) == a[id]
  {
    TotalRemove(res, id);
    ZeroTotal(res - {id});
    var s := Survivors(a, a.Keys - {id});
    assert s == map[id := a[id]];
    TotalRemove(s, id);
    ZeroTotal(s - {id});
  }

  /** When `v` alone acknowledges, one pass brings it to its worst case. */
  lemma WorstCaseHappens(fleet: seq<Vehicle>, power: real, v: Vehicle)
    returns (a: map<Id, real>, level: real, fallback: Option<map<Id, real>>, undelivered: real)
    requires SoundFleet(fleet) && fleet != [] && power < 0.0 && v in fleet
    ensures Outcome(fleet, power, map[v.id := true], 1, a, level, fallback, undelivered)
    ensures v.id in Final(a, fallback) && Final(a, fallback)[v.id] == -WorstCase(fleet, power, v)
  {
    hide Total, EffectiveCapacity, PowerLimits, IsWaterFilling, Reallocated, PlacedByPasses, Failed, DistinctIds,
         Directory, Share, Times, FailedPower, Zeroed, Passes, SurvivorCaps, Enumerates, Positive;
    var s, acks := Share(fleet, power), map[v.id := true];
    a, level := EvenSplit(fleet, power);
    NegativeAssignments(fleet, power, a, level);
    OnlySurvivor(fleet, v, acks);
    if |fleet| == 1 {
      fallback, undelivered := None, 0.0;
      NoTimes(s);
    } else {
      var failed := Ids(Failed(fleet, acks));
      DirectoryIsValid(fleet);
      FailedShares(a, failed, s);
      PositiveTimes(|fleet| - 1, s);
      var cap := EffectiveCapacity(v, a[v.id]);
      var avail := if cap > 0.0 then [Alloc(v.id, cap)] else [];
      SurvivorEnumerated(fleet, v, a, failed, avail);
      var residual := Total(FailedPower(a, failed));
      var q := Passes(Pass(avail, residual, Zeroed(a, failed)), power, 1);
      PassesReallocate(Directory(fleet), a, failed, power, 1, avail);
      PassesPlaced(Directory(fleet), a, failed, power, 1, avail, q);
      OnePassOverOne(v.id, cap, residual, Zeroed(a, failed), power, avail);
      fallback, undelivered := Some(q.res), q.remaining;
      SurvivorEnds(Directory(fleet), a, failed, power, q.res, q.remaining, v.id);
    }
  }

  lemma SurvivorEnds(vehicles: map<Id, Vehicle>, a: map<Id, real>, failed: set<Id>, power: real,
                     res: map<Id, real>, undelivered: real, id: Id)
    requires ValidFleet(vehicles) && id in a && failed == a.Keys - {id}
    requires Reallocated(vehicles, a, failed, power, 1, res, undelivered)
    ensures id in res && res[id] == a[id] + Signed(power, Total(FailedPower(a, failed)) - undelivered)
  {
    hide Total, EffectiveCapacity, FailedPower, HalvedTimes, SurvivorCaps, Survivors, SurvivorCapacity;
    SurvivorTotal(a, id, res);
  }

  lemma {:induction false} PositiveTimes(n: nat, x: real)
    requires n > 0 && x > 0.0
    ensures Times(n, x) > 0.0
  {
    if n > 1 {
      PositiveTimes(n - 1, x);
    }
  }

  /**
   For a negative signal the degraded limits hold, whoever acknowledges and however many passes
   are made, if and only if no vehicle's worst case exceeds its limit.
   */
  lemma NegativeLimitsIff(fleet: seq<Vehicle>, power: real)
    requires SoundFleet(fleet) && fleet != [] && power < 0.0
    ensures (forall v :: v in fleet ==> WorstCase(fleet, power, v) <= DegradedLimit(v))
       <==> (forall acks, passes, a, level, fallback, undelivered ::
               Outcome(fleet, power, acks, passes, a, level, fallback, undelivered) ==> WithinLimits(fleet, Final(a, fallback)))
  {
    hide Outcome, WorstCase, DegradedLimit;
    if forall v :: v in fleet ==> WorstCase(fleet, power, v) <= DegradedLimit(v) {
      forall acks, passes, a, level, fallback, undelivered |
        Outcome(fleet, power, acks, passes, a, level, fallback, undelivered)
        ensures WithinLimits(fleet, Final(a, fallback))
      {
        forall v | v in fleet ensures v.id in Final(a, fallback) && Abs(Final(a, fallback)[v.id]) <= DegradedLimit(v) {
          NeverBeyondWorstCase(fleet, power, acks, passes, a, level, fallback, undelivered, v);
        }
      }
    } else {
      var v :| v in fleet && WorstCase(fleet, power, v) > DegradedLimit(v);
      var a, level, fallback, undelivered := WorstCaseHappens(fleet, power, v);
      DegradedLimitNonnegative(v);
      assert !WithinLimits(fleet, Final(a, fallback));
    }
  }

  /** Two vehicles of 1 kW asked for -2 kW: one fails, and the other is left with -2 kW. */
  lemma NegativeFallbackExceedsLimit(u: Vehicle, v: Vehicle)
    returns (a: map<Id, real>, level: real, fallback: Option<map<Id, real>>, undelivered: real)
    requires u.id != v.id && u.maxPower == v.maxPower == 1.0 && u.soc == v.soc == 1.0
    requires v.minSoC == 0.0 && v.availabilityProb == 0.0 && v.degradation == 0.0
    ensures SoundFleet([u, v]) && Outcome([u, v], -2.0, map[v.id := true], 1, a, level, fallback, undelivered)
    ensures v.id in Final(a, fallback) && Final(a, fallback)[v.id] == -2.0 && DegradedLimit(v) == 1.0
  {
    var fleet := [u, v];
    assert v in fleet;
    assert EffectiveCapacity(v, -1.0) == 2.0;
    assert Share(fleet, -2.0) == 1.0;
    assert Times(1, 1.0) == 1.0 + Times(0, 1.0);
    hide Outcome, EffectiveCapacity, DegradedLimit, Times, Share;
    a, level, fallback, undelivered := WorstCaseHappens(fleet, -2.0, v);
  }
}
