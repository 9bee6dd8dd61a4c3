/**
 Vehicles, flexibility signals and the capacity rules shared by the dispatchers
 (core/model/vehicle.go, core/model/signal.go, core/dispatch/helpers.go).
 Instants and durations are integers in nanoseconds, as in Go.
 */
module Fleet {
  import opened Totals

  /** Identifiers are only ever compared. */
  datatype Id = Id(name: string)

  const MINUTE: int := 60_000_000_000
  const HOUR: int := 60 * MINUTE
  const DAY: int := 24 * HOUR

  /** time.Duration.Hours */
  function Hours(d: int): real {
    d as real / HOUR as real
  }

  /** An hour is 3600 seconds of 10^9 nanoseconds, a minute the sixtieth part of it. */
  lemma HoursAre(d: int)
    ensures Hours(d) * 3_600_000_000_000.0 == d as real
    ensures Hours(60 * MINUTE) == 1.0 && DAY == 24 * 60 * MINUTE
  {
  }

  /** The start of the UTC day of an instant. */
  function StartOfDay(t: int): (day: int)
    ensures day <= t < day + 86_400_000_000_000 && day % 86_400_000_000_000 == 0
  {
    t - t % DAY
  }

  datatype Vehicle = Vehicle(
    id: Id,
    soc: real,
    maxPower: real,
    batteryKWh: real,
    minSoC: real,
    availabilityProb: real,
    degradation: real,
    segment: string)

  datatype Option<T> = None | Some(value: T)

  datatype Signal = Signal(power: real, duration: int, timestamp: int)

  function Min(x: real, y: real): real { if x < y then x else y }
  function Max(x: real, y: real): real { if x < y then y else x }
  function Abs(x: real): real { if x < 0.0 then -x else x }
  function Clamp(x: real, lo: real, hi: real): real { Max(lo, Min(x, hi)) }

  /** sign * x, where the sign is 1, or -1 for a signal below zero. */
  function Signed(power: real, x: real): real { if power < 0.0 then -x else x }

  /** m[id] += sign * x */
  function Credit(m: map<Id, real>, id: Id, power: real, x: real): map<Id, real> {
    m[id := Get(m, id) + Signed(power, x)]
  }

  ghost predicate DistinctIds(fleet: seq<Vehicle>) {
    forall i, j :: 0 <= i < j < |fleet| ==> fleet[i].id != fleet[j].id
  }

  ghost function Ids(fleet: seq<Vehicle>): set<Id> {
    set v | v in fleet :: v.id
  }

  /** The power limits of a fleet by vehicle, which forget the order of the fleet. */
  ghost function PowerLimits(fleet: seq<Vehicle>): map<Id, real>
    requires DistinctIds(fleet)
  {
    map id | id in Ids(fleet) :: (var v :| v in fleet && v.id == id; v.maxPower)
  }

  lemma SameIdSameVehicle(fleet: seq<Vehicle>, u: Vehicle, v: Vehicle)
    requires DistinctIds(fleet) && u in fleet && v in fleet && u.id == v.id
    ensures u == v
  {
    var i :| 0 <= i < |fleet| && fleet[i] == u;
    var j :| 0 <= j < |fleet| && fleet[j] == v;
  }

  lemma PowerLimitOf(fleet: seq<Vehicle>, v: Vehicle)
    requires DistinctIds(fleet) && v in fleet
    ensures v.id in PowerLimits(fleet) && PowerLimits(fleet)[v.id] == v.maxPower
  {
    var limits := PowerLimits(fleet);
    var u :| u in fleet && u.id == v.id && limits[v.id] == u.maxPower;
    SameIdSameVehicle(fleet, u, v);
  }

  /** The vehicle behind an entry of the limits. */
  lemma LimitOwner(fleet: seq<Vehicle>, id: Id) returns (v: Vehicle)
    requires DistinctIds(fleet) && (id in PowerLimits(fleet) || id in Ids(fleet))
    ensures v in fleet && v.id == id && id in PowerLimits(fleet) && PowerLimits(fleet)[id] == v.maxPower
  {
    v :| v in fleet && v.id == id;
    PowerLimitOf(fleet, v);
  }

  lemma LimitKeys(fleet: seq<Vehicle>)
    requires DistinctIds(fleet)
    ensures PowerLimits(fleet).Keys == Ids(fleet)
  {
  }

  /** Reordering a fleet changes neither its identifiers nor its limits. */
  lemma PowerLimitsIgnoreOrder(fleet: seq<Vehicle>, other: seq<Vehicle>)
    requires DistinctIds(fleet) && DistinctIds(other)
    requires multiset(fleet) == multiset(other)
    ensures PowerLimits(fleet) == PowerLimits(other)
  {
    forall v ensures v in fleet <==> v in other {
      assert v in fleet <==> v in multiset(fleet);
      assert v in other <==> v in multiset(other);
    }
    assert Ids(fleet) == Ids(other);
    forall id | id in Ids(fleet) ensures PowerLimits(fleet)[id] == PowerLimits(other)[id] {
      var v :| v in fleet && v.id == id;
      PowerLimitOf(fleet, v);
      PowerLimitOf(other, v);
    }
  }

  // ----- core/model/vehicle.go

  /** The power limit after degradation. */
  function DegradedLimit(v: Vehicle): real {
    v.maxPower * (1.0 - Clamp(v.degradation, 0.0, 1.0))
  }

  /**
   Power the vehicle can still take on top of `current`.  The two bounds are what the
   fallback relies on: never negative, and never more than the degraded limit leaves.
   */
  function EffectiveCapacity(v: Vehicle, current: real): (cap: real)
    requires 0.0 <= v.soc <= 1.0
    ensures 0.0 <= cap
    ensures cap > 0.0 ==> current + cap <= DegradedLimit(v)
    ensures cap > 0.0 ==> v.soc >= if v.minSoC == 0.0 then 0.3 else v.minSoC
  {
    var min := if v.minSoC == 0.0 then 0.3 else v.minSoC;
    if v.soc < min then 0.0
    else
      var avail := Clamp(if v.availabilityProb == 0.0 then 1.0 else v.availabilityProb, 0.0, 1.0);
      var headroom := DegradedLimit(v) - current;
      if headroom <= 0.0 then 0.0
      else
        Scaled(headroom, v.soc, avail)
  }

  /** The share of a vehicle's room that its availability leaves; unset means always available. */
  ghost function AvailabilityFactor(v: Vehicle): real {
    if v.availabilityProb <= 0.0 then (if v.availabilityProb == 0.0 then 1.0 else 0.0)
    else if v.availabilityProb < 1.0 then v.availabilityProb
    else 1.0
  }

  /** What is left of MaxPower after degradation, on top of the current power. */
  ghost function Headroom(v: Vehicle, current: real): real {
    var degradation := if v.degradation < 0.0 then 0.0 else if v.degradation > 1.0 then 1.0 else v.degradation;
    var left := v.maxPower - v.maxPower * degradation - current;
    if left > 0.0 then left else 0.0
  }

  /** Power a survivor takes over when there is enough of it. */
  ghost function Takes(v: Vehicle, current: real): real {
    if v.soc < (if v.minSoC == 0.0 then 0.3 else v.minSoC) then 0.0
    else v.soc * AvailabilityFactor(v) * Headroom(v, current)
  }

  /** The capacity, without the order and the cases in which it is computed. */
  lemma EffectiveCapacityIs(v: Vehicle, current: real)
    requires 0.0 <= v.soc <= 1.0
    ensures EffectiveCapacity(v, current) == Takes(v, current)
    ensures v.soc == 1.0 && (v.availabilityProb == 0.0 || v.availabilityProb == 1.0) && v.minSoC <= 1.0 ==>
              EffectiveCapacity(v, current) == Headroom(v, current) == Max(0.0, DegradedLimit(v) - current)
  {
    var d := Clamp(v.degradation, 0.0, 1.0);
    assert v.maxPower * (1.0 - d) == v.maxPower - v.maxPower * d;
    assert Headroom(v, current) == Max(0.0, DegradedLimit(v) - current);
    if Headroom(v, current) > 0.0 {
      ScaledIs(Headroom(v, current), v.soc, AvailabilityFactor(v));
    }
  }

  lemma ScaledIs(x: real, p: real, q: real)
    requires 0.0 <= x && 0.0 <= p <= 1.0 && 0.0 <= q <= 1.0
    ensures Scaled(x, p, q) == p * q * x
  {
  }

  /** A survivor of 10 kW at half charge, with 2 kW already: 4 kW more, not 8. */
  lemma HalfChargedVehicle(v: Vehicle)
    requires v.soc == 0.5 && v.minSoC == 0.2 && v.availabilityProb == 1.0 && v.degradation == 0.0 && v.maxPower == 10.0
    ensures EffectiveCapacity(v, 2.0) == 4.0
  {
  }

  function Scaled(x: real, p: real, q: real): (r: real)
    requires 0.0 <= x && 0.0 <= p <= 1.0 && 0.0 <= q <= 1.0
    ensures 0.0 <= r <= x
  {
    assert 0.0 <= p * q <= 1.0 by {
      assert p * q <= p * 1.0;
    }
    assert x * (p * q) <= x * 1.0;
    x * (p * q)
  }

  // ----- core/dispatch/helpers.go

  /** Lowest state of charge the dispatchers may leave the vehicle with. */
  function ReserveSoC(v: Vehicle, useFloor: bool, floor: real): real {
    if useFloor && floor > v.minSoC then floor else v.minSoC
  }

  function UsableEnergy(v: Vehicle, useFloor: bool, floor: real): real {
    (v.soc - ReserveSoC(v, useFloor, floor)) * v.batteryKWh
  }

  /** The second result of availableEnergyAndCapacity; the first one is UsableEnergy. */
  function Capacity(v: Vehicle, signal: Signal, useFloor: bool, floor: real): (cap: real)
    ensures 0.0 <= cap
    ensures cap <= Max(0.0, v.maxPower)
    ensures signal.power < 0.0 && signal.duration > 0 && cap > 0.0 ==>
              cap * Hours(signal.duration) <= UsableEnergy(v, useFloor, floor)
    ensures signal.power >= 0.0 ==> cap == Max(0.0, v.maxPower)
  {
    var energy := UsableEnergy(v, useFloor, floor);
    if signal.power < 0.0 && energy <= 0.0 then 0.0
    else
      var cap :=
        if signal.power < 0.0 && signal.duration > 0 then
          QuotientBound(v.maxPower, energy, Hours(signal.duration));
          Min(v.maxPower, energy / Hours(signal.duration))
        else v.maxPower;
      if cap <= 0.0 then 0.0 else cap
  }

  /** Drawing power `p` for the time of the signal leaves the state of charge `soc` in the battery. */
  ghost predicate Leaves(v: Vehicle, signal: Signal, p: real, soc: real) {
    soc * v.batteryKWh <= v.soc * v.batteryKWh - p * Hours(signal.duration)
  }

  /** What the vehicle must be left with: its own minimum, and the floor where that applies. */
  ghost predicate KeepsReserve(v: Vehicle, signal: Signal, useFloor: bool, floor: real, p: real) {
    Leaves(v, signal, p, v.minSoC) && (useFloor ==> Leaves(v, signal, p, floor))
  }

  lemma UsableEnergyIs(v: Vehicle, useFloor: bool, floor: real)
    requires v.batteryKWh >= 0.0
    ensures UsableEnergy(v, useFloor, floor) <= v.soc * v.batteryKWh - v.minSoC * v.batteryKWh
    ensures useFloor ==> UsableEnergy(v, useFloor, floor) <= v.soc * v.batteryKWh - floor * v.batteryKWh
    ensures UsableEnergy(v, useFloor, floor) == v.soc * v.batteryKWh - v.minSoC * v.batteryKWh
         || (useFloor && UsableEnergy(v, useFloor, floor) == v.soc * v.batteryKWh - floor * v.batteryKWh)
  {
    var b := v.batteryKWh;
    assert (v.soc - v.minSoC) * b == v.soc * b - v.minSoC * b;
    assert (v.soc - floor) * b == v.soc * b - floor * b;
    if floor > v.minSoC {
      assert (floor - v.minSoC) * b >= 0.0;
    } else {
      assert (v.minSoC - floor) * b >= 0.0;
    }
  }

  /** For a negative signal with a duration, no power up to the capacity goes below the reserve, and none above it keeps it. */
  lemma CapacityIsLargest(v: Vehicle, signal: Signal, useFloor: bool, floor: real, p: real)
    requires signal.power < 0.0 && signal.duration > 0 && v.batteryKWh >= 0.0
    ensures 0.0 < p <= Capacity(v, signal, useFloor, floor) ==> KeepsReserve(v, signal, useFloor, floor, p)
    ensures 0.0 <= p <= v.maxPower && KeepsReserve(v, signal, useFloor, floor, p) ==> p <= Capacity(v, signal, useFloor, floor)
  {
    UsableEnergyIs(v, useFloor, floor);
    hide UsableEnergy, ReserveSoC;
    var energy, cap, h := UsableEnergy(v, useFloor, floor), Capacity(v, signal, useFloor, floor), Hours(signal.duration);
    assert h > 0.0;
    if 0.0 < p <= cap {
      assert p * h <= cap * h;
    }
    if 0.0 <= p <= v.maxPower && KeepsReserve(v, signal, useFloor, floor, p) {
      assert p * h <= energy;
      QuotientIsLargest(p, energy, h);
    }
  }

  lemma QuotientIsLargest(p: real, energy: real, hours: real)
    requires hours > 0.0 && p * hours <= energy
    ensures p <= energy / hours && (energy <= 0.0 ==> p <= 0.0)
  {
    var q := energy / hours;
    assert q * hours == energy;
    assert (q - p) * hours >= 0.0;
  }

  /** Without a duration the reserve only decides whether the vehicle takes part at all. */
  lemma CapacityWithoutDuration(v: Vehicle, signal: Signal, useFloor: bool, floor: real)
    requires signal.power < 0.0 && signal.duration <= 0 && v.batteryKWh > 0.0
    ensures Capacity(v, signal, useFloor, floor)
         == if v.soc > v.minSoC && (useFloor ==> v.soc > floor) then Max(0.0, v.maxPower) else 0.0
  {
    EnergyIffAboveReserve(v, useFloor, floor);
    hide UsableEnergy;
  }

  lemma EnergyIffAboveReserve(v: Vehicle, useFloor: bool, floor: real)
    requires v.batteryKWh > 0.0
    ensures UsableEnergy(v, useFloor, floor) > 0.0 <==> v.soc > v.minSoC && (useFloor ==> v.soc > floor)
  {
    var x := v.soc - ReserveSoC(v, useFloor, floor);
    assert x > 0.0 ==> x * v.batteryKWh > 0.0;
    assert x <= 0.0 ==> x * v.batteryKWh <= 0.0;
  }

  lemma QuotientBound(x: real, energy: real, hours: real)
    requires hours > 0.0
    ensures Min(x, energy / hours) * hours <= energy
  {
    var q := energy / hours;
    assert q * hours == energy;
    if x < q {
      assert x * hours <= q * hours;
    }
  }
}
