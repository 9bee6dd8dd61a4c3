/**
 GeneratePlan (core/scheduler/scheduler.go): the day-ahead plan.  When it succeeds is
 characterised in terms of the queue of module Backlog, and a returned plan is shown to
 keep to the windows and limits of every vehicle and to deliver the target.
 */
module Scheduler {
  import opened Totals
  import opened Fleet
  import opened WaterFilling
  import opened Distribution
  import opened Backlog

  datatype Window = Window(start: int, end: int)

  datatype Scheduler = Scheduler(
    slotMinutes: int,
    targetEnergy: real,
    vehicles: seq<Vehicle>,
    availability: map<Id, seq<Window>>)

  datatype PlanError = SlotNotPositive | SlotTooLong | TargetNotPositive | NoVehicles | InsufficientCapacity

  datatype PlanResult = Plan(entries: seq<Entry>) | Failed(error: PlanError)

  // ----- slots and availability

  function SlotDuration(s: Scheduler): int { s.slotMinutes * MINUTE }

  function SlotHours(s: Scheduler): real { Hours(SlotDuration(s)) }

  function SlotCount(s: Scheduler): int
    requires s.slotMinutes > 0
  {
    (DAY + SlotDuration(s) - 1) / SlotDuration(s)
  }

  /** The slots cover the day and none of them starts after its end. */
  lemma SlotsCoverTheDay(s: Scheduler)
    requires s.slotMinutes > 0
    ensures SlotCount(s) >= 1
    ensures (SlotCount(s) - 1) * SlotDuration(s) < DAY <= SlotCount(s) * SlotDuration(s)
  {
    var d := SlotDuration(s);
    assert d > 0;
    assert DAY + d - 1 == SlotCount(s) * d + (DAY + d - 1) % d;
  }

  predicate VehicleAvailable(s: Scheduler, id: Id, t: int) {
    id in s.availability
    && exists w :: w in s.availability[id] && w.start <= t && t + SlotDuration(s) <= w.end
  }

  ghost predicate During(from: int, minutes: int, t: int) { from <= t < from + minutes * 60_000_000_000 }

  ghost predicate Inside(w: Window, t: int) { w.start <= t < w.end }

  /** One window of the vehicle contains every instant of the slot. */
  ghost predicate PluggedIn(s: Scheduler, id: Id, slot: int) {
    id in s.availability
    && exists w :: w in s.availability[id] && forall t :: During(slot, s.slotMinutes, t) ==> Inside(w, t)
  }

  /** The test of the code, on the ends of the slot, is about all of its instants. */
  lemma AvailableIffPluggedIn(s: Scheduler, id: Id, slot: int)
    requires s.slotMinutes > 0
    ensures VehicleAvailable(s, id, slot) <==> PluggedIn(s, id, slot)
  {
    if VehicleAvailable(s, id, slot) {
      var w :| w in s.availability[id] && w.start <= slot && slot + SlotDuration(s) <= w.end;
      assert forall t :: During(slot, s.slotMinutes, t) ==> Inside(w, t);
    }
    if PluggedIn(s, id, slot) {
      var w :| w in s.availability[id] && forall t :: During(slot, s.slotMinutes, t) ==> Inside(w, t);
      assert During(slot, s.slotMinutes, slot);
      assert During(slot, s.slotMinutes, slot + SlotDuration(s) - 1);
      assert Inside(w, slot) && Inside(w, slot + SlotDuration(s) - 1);
    }
  }

  function AvailableAmong(s: Scheduler, vs: seq<Vehicle>, t: int): seq<Vehicle> {
    if vs == [] then []
    else
      var n := |vs| - 1;
      AvailableAmong(s, vs[..n], t) + if VehicleAvailable(s, vs[n].id, t) then [vs[n]] else []
  }

  lemma {:induction false} AvailableVehiclesAre(s: Scheduler, vs: seq<Vehicle>, t: int)
    ensures forall v :: v in AvailableAmong(s, vs, t) <==> v in vs && VehicleAvailable(s, v.id, t)
    ensures DistinctIds(vs) ==> DistinctIds(AvailableAmong(s, vs, t))
  {
    if vs != [] {
      var n := |vs| - 1;
      AvailableVehiclesAre(s, vs[..n], t);
      assert vs == vs[..n] + [vs[n]];
    }
  }

  /** A vehicle takes part in a slot exactly when it is plugged in throughout. */
  lemma AvailableArePluggedIn(s: Scheduler, slot: int)
    requires s.slotMinutes > 0
    ensures forall v :: v in AvailableAmong(s, s.vehicles, slot) <==> v in s.vehicles && PluggedIn(s, v.id, slot)
  {
    hide PluggedIn, VehicleAvailable, AvailableAmong;
    AvailableVehiclesAre(s, s.vehicles, slot);
    forall v: Vehicle ensures VehicleAvailable(s, v.id, slot) <==> PluggedIn(s, v.id, slot) {
      AvailableIffPluggedIn(s, v.id, slot);
    }
  }

  method AvailableVehicles(s: Scheduler, t: int) returns (res: seq<Vehicle>)
    ensures res == AvailableAmong(s, s.vehicles, t)
    ensures s.slotMinutes > 0 ==> forall v :: v in res <==> v in s.vehicles && PluggedIn(s, v.id, t)
  {
    if s.slotMinutes > 0 {
      AvailableArePluggedIn(s, t);
    }
    hide PluggedIn;
    res := [];
    for i := 0 to |s.vehicles|
      invariant res == AvailableAmong(s, s.vehicles[..i], t)
    {
      assert s.vehicles[..i + 1][..i] == s.vehicles[..i];
      if VehicleAvailable(s, s.vehicles[i].id, t) {
        res := res + [s.vehicles[i]];
      }
    }
    assert s.vehicles[..|s.vehicles|] == s.vehicles;
  }

  ghost predicate Descending(vs: seq<Vehicle>) {
    forall i, j :: 0 <= i < j < |vs| ==> vs[i].maxPower >= vs[j].maxPower
  }

  function InsertAt(order: seq<Vehicle>, k: nat, v: Vehicle): seq<Vehicle>
    requires k <= |order|
  {
    order[..k] + [v] + order[k..]
  }

  lemma InsertedDescends(order: seq<Vehicle>, k: nat, v: Vehicle)
    requires Descending(order)
    requires k <= |order| && forall j :: 0 <= j < k ==> order[j].maxPower >= v.maxPower
    requires k == |order| || order[k].maxPower <= v.maxPower
    ensures Descending(InsertAt(order, k, v))
  {
  }

  lemma InsertedDistinct(order: seq<Vehicle>, k: nat, v: Vehicle)
    requires DistinctIds(order) && v.id !in Ids(order) && k <= |order|
    ensures DistinctIds(InsertAt(order, k, v))
  {
    forall j | 0 <= j < |order| ensures order[j].id != v.id {
      assert order[j] in order;
    }
  }

  lemma InsertedPermutes(order: seq<Vehicle>, k: nat, v: Vehicle)
    requires k <= |order|
    ensures multiset(InsertAt(order, k, v)) == multiset(order) + multiset{v}
  {
    assert order == order[..k] + order[k..];
  }

  lemma NotYetSorted(vs: seq<Vehicle>, i: nat, order: seq<Vehicle>)
    requires DistinctIds(vs) && i < |vs| && multiset(order) == multiset(vs[..i])
    ensures vs[i].id !in Ids(order)
    ensures multiset(vs[..i + 1]) == multiset(order) + multiset{vs[i]}
  {
    assert vs[..i + 1] == vs[..i] + [vs[i]];
    forall v | v in order ensures v.id != vs[i].id {
      assert v in multiset(order);
      assert v in vs[..i];
    }
  }

  /** All that is used of the library sort: the result is a descending rearrangement. */
  method SortByPower(vs: seq<Vehicle>) returns (order: seq<Vehicle>)
    requires DistinctIds(vs)
    ensures Descending(order) && multiset(order) == multiset(vs) && DistinctIds(order)
  {
    hide Descending, DistinctIds, InsertAt, Ids;
    order := [];
    assert Descending(order) && DistinctIds(order) by { NothingToSort(); }
    for i := 0 to |vs|
      invariant Descending(order) && multiset(order) == multiset(vs[..i]) && DistinctIds(order)
    {
      NotYetSorted(vs, i, order);
      var k := 0;
      while k < |order| && order[k].maxPower >= vs[i].maxPower
        invariant 0 <= k <= |order|
        invariant forall j :: 0 <= j < k ==> order[j].maxPower >= vs[i].maxPower
      {
        k := k + 1;
      }
      InsertedDescends(order, k, vs[i]);
      InsertedDistinct(order, k, vs[i]);
      InsertedPermutes(order, k, vs[i]);
      order := InsertAt(order, k, vs[i]);
    }
    assert vs[..|vs|] == vs;
  }

  lemma NothingToSort()
    ensures Descending([]) && DistinctIds([])
  {
  }

  // ----- the abstract day

  /** Energy that accrues per slot. */
  function SlotEnergy(s: Scheduler): real
    requires s.slotMinutes > 0
  {
    SlotsCoverTheDay(s);
    HoursPositive(s);
    s.targetEnergy / (SlotCount(s) as real * SlotHours(s)) * SlotHours(s)
  }

  lemma HoursPositive(s: Scheduler)
    requires s.slotMinutes > 0
    ensures SlotHours(s) > 0.0
    ensures SlotCount(s) >= 1 ==> SlotCount(s) as real * SlotHours(s) > 0.0
  {
  }

  /** The slot energies of the day add up to the target. */
  lemma SlotEnergiesAddUp(s: Scheduler)
    requires s.slotMinutes > 0
    ensures SlotCount(s) >= 1 && Times(SlotCount(s), SlotEnergy(s)) == s.targetEnergy
    ensures s.targetEnergy > 0.0 ==> SlotEnergy(s) > 0.0
  {
    SlotsCoverTheDay(s);
    HoursPositive(s);
    TimesIsProduct(SlotCount(s), SlotEnergy(s));
    PerSlot(s.targetEnergy, SlotCount(s) as real, SlotHours(s));
  }

  lemma PerSlot(target: real, n: real, h: real)
    requires n > 0.0 && h > 0.0 && n * h > 0.0
    ensures n * (target / (n * h) * h) == target
    ensures target > 0.0 ==> target / (n * h) > 0.0 && target / (n * h) * h > 0.0
  {
    var p := target / (n * h);
    assert p * (n * h) == target;
    assert n * (p * h) == p * (n * h);
  }

  function SlotStart(s: Scheduler, day: int, i: int): int { day + i * SlotDuration(s) }

  /** Slots follow each other from the start of the day, and an hour has sixty slot minutes. */
  lemma SlotsFollowEachOther(s: Scheduler, day: int, i: int)
    ensures SlotStart(s, day, 0) == day
    ensures SlotStart(s, day, i + 1) == SlotStart(s, day, i) + s.slotMinutes * 60_000_000_000
    ensures SlotHours(s) * 60.0 == s.slotMinutes as real
  {
    assert (i + 1) * SlotDuration(s) == i * SlotDuration(s) + SlotDuration(s);
  }

  /** The limits of a slot are the MaxPower of the vehicles that are plugged in throughout. */
  lemma SlotLimitsAre(s: Scheduler, day: int, i: int, v: Vehicle)
    requires DistinctIds(s.vehicles) && s.slotMinutes > 0 && v in s.vehicles
    ensures v.id in SlotLimits(s, day, i) <==> PluggedIn(s, v.id, SlotStart(s, day, i))
    ensures v.id in SlotLimits(s, day, i) ==> SlotLimits(s, day, i)[v.id] == v.maxPower
  {
    hide PluggedIn, AvailableAmong, PowerLimits;
    var slot := SlotStart(s, day, i);
    var here := AvailableAmong(s, s.vehicles, slot);
    AvailableVehiclesAre(s, s.vehicles, slot);
    AvailableArePluggedIn(s, slot);
    if v in here {
      PowerLimitOf(here, v);
    } else if v.id in PowerLimits(here) {
      var u := LimitOwner(here, v.id);
      SameIdSameVehicle(s.vehicles, u, v);
    }
  }

  ghost function SlotLimits(s: Scheduler, day: int, i: int): map<Id, real>
    requires DistinctIds(s.vehicles)
  {
    AvailableVehiclesAre(s, s.vehicles, SlotStart(s, day, i));
    PowerLimits(AvailableAmong(s, s.vehicles, SlotStart(s, day, i)))
  }

  /** Energy the vehicles of slot `i` can give. */
  ghost function SlotCapacity(s: Scheduler, day: int, i: int): real
    requires DistinctIds(s.vehicles)
  {
    Total(SlotLimits(s, day, i)) * SlotHours(s)
  }

  ghost function Capacities(s: Scheduler, day: int, n: nat): seq<real>
    requires DistinctIds(s.vehicles)
  {
    seq(n, i => SlotCapacity(s, day, i))
  }

  ghost predicate SlotServed(s: Scheduler, day: int, i: int) {
    AvailableAmong(s, s.vehicles, SlotStart(s, day, i)) != []
  }

  ghost predicate SomeSlotServed(s: Scheduler, day: int, n: int) {
    exists i :: 0 <= i < n && SlotServed(s, day, i)
  }

  ghost predicate Wellformed(s: Scheduler) {
    DistinctIds(s.vehicles) && forall v :: v in s.vehicles ==> v.maxPower >= 0.0
  }

  /** The plan can be made: the backlog at the end of the day is within the tolerance. */
  ghost predicate Feasible(s: Scheduler, day: int)
    requires DistinctIds(s.vehicles) && s.slotMinutes > 0
  {
    SlotsCoverTheDay(s);
    var n := SlotCount(s);
    After(SlotEnergy(s), Capacities(s, day, n)) <= TOLERANCE && SomeSlotServed(s, day, n)
  }

  // ----- the entries of a plan

  /** The entry keeps to its vehicle's limit and lies in a slot inside one of its windows. */
  ghost predicate Admissible(s: Scheduler, day: int, i: int, e: Entry) {
    && e.slot == SlotStart(s, day, i)
    && e.power > 0.0
    && VehicleAvailable(s, e.id, e.slot)
    && exists v :: v in s.vehicles && v.id == e.id && e.power <= v.maxPower
  }

  ghost predicate AdmissiblePlan(s: Scheduler, day: int, n: int, entries: seq<Entry>) {
    && (forall e :: e in entries ==> exists i :: 0 <= i < n && Admissible(s, day, i, e))
    && forall i, j :: 0 <= i < j < |entries| ==> (entries[i].id, entries[i].slot) != (entries[j].id, entries[j].slot)
  }

  lemma {:induction false} PowerSumConcat(a: seq<Entry>, b: seq<Entry>)
    ensures PowerSum(a + b) == PowerSum(a) + PowerSum(b)
  {
    if b == [] {
      assert a + b == a;
    } else {
      var init := b[..|b| - 1];
      PowerSumConcat(a, init);
      assert (a + b)[..|a + b| - 1] == a + init;
    }
  }

  /** Entries of one slot, as `Distribute` returns them. */
  lemma SlotEntriesAdmissible(s: Scheduler, day: int, i: int, more: seq<Entry>, d: map<Id, real>, target: real)
    requires Wellformed(s) && target <= Total(SlotLimits(s, day, i))
    requires NearlyFilled(SlotLimits(s, day, i), target, d) && Lists(more, SlotStart(s, day, i), d)
    ensures forall e :: e in more ==> Admissible(s, day, i, e)
    ensures target - TOLERANCE <= PowerSum(more) <= Max(0.0, target)
  {
    hide Total, PowerLimits, PowerSum, NearlyFilled;
    var limits := SlotLimits(s, day, i);
    var avail := AvailableAmong(s, s.vehicles, SlotStart(s, day, i));
    AvailableVehiclesAre(s, s.vehicles, SlotStart(s, day, i));
    NearlyFilledTotal(limits, target, d);
    LimitKeys(avail);
    NearlyFilledKeys(limits, target, d);
    forall e | e in more ensures Admissible(s, day, i, e) {
      var v := LimitOwner(avail, e.id);
      assert v in s.vehicles;
    }
  }

  lemma NearlyFilledKeys(limits: map<Id, real>, target: real, d: map<Id, real>)
    requires NearlyFilled(limits, target, d)
    ensures d.Keys == limits.Keys
  {
  }

  lemma PlanGrows(s: Scheduler, day: int, i: int, entries: seq<Entry>, more: seq<Entry>, d: map<Id, real>)
    requires s.slotMinutes > 0 && 0 <= i && AdmissiblePlan(s, day, i, entries)
    requires forall e :: e in more ==> Admissible(s, day, i, e)
    requires Lists(more, SlotStart(s, day, i), d)
    ensures AdmissiblePlan(s, day, i + 1, entries + more)
  {
    hide PowerSum, Total, VehicleAvailable;
    forall e | e in entries + more ensures exists k :: 0 <= k < i + 1 && Admissible(s, day, k, e) {
      if e in more {
        assert Admissible(s, day, i, e);
      }
    }
    forall e | e in entries ensures e.slot != SlotStart(s, day, i) {
      var k :| 0 <= k < i && Admissible(s, day, k, e);
      DifferentSlots(s, day, k, i);
    }
  }

  lemma DifferentSlots(s: Scheduler, day: int, k: int, i: int)
    requires s.slotMinutes > 0 && k < i
    ensures SlotStart(s, day, k) < SlotStart(s, day, i)
  {
    assert (i - k) * SlotDuration(s) > 0;
  }

  // ----- generating the plan

  /** The loop that adds up the available power. */
  method AvailablePower(vs: seq<Vehicle>) returns (total: real)
    requires DistinctIds(vs)
    ensures total == Total(PowerLimits(vs))
  {
    hide PowerLimits, Total;
    total := 0.0;
    ghost var seen: map<Id, real> := map[];
    EmptyTotal();
    for i := 0 to |vs|
      invariant seen.Keys == Ids(vs[..i])
      invariant forall id :: id in seen ==> id in PowerLimits(vs) && seen[id] == PowerLimits(vs)[id]
      invariant total == Total(seen)
    {
      assert vs[..i + 1] == vs[..i] + [vs[i]];
      PowerLimitOf(vs, vs[i]);
      TotalSet(seen, vs[i].id, vs[i].maxPower);
      seen := seen[vs[i].id := vs[i].maxPower];
      total := total + vs[i].maxPower;
    }
    assert vs[..|vs|] == vs;
    LimitKeys(vs);
    assert seen == PowerLimits(vs);
  }

  lemma EmptyTotal()
    ensures Total<Id>(map[]) == 0.0
  {
  }

  lemma NoCapacity(s: Scheduler, day: int, i: int)
    requires DistinctIds(s.vehicles) && !SlotServed(s, day, i)
    ensures SlotCapacity(s, day, i) == 0.0
  {
    assert PowerLimits([]) == map[];
    EmptyTotal();
  }

  lemma PowerOfEnergy(energy: real, power: real, h: real)
    requires h > 0.0 && 0.0 <= energy <= power * h
    ensures 0.0 <= energy / h <= power && energy / h * h == energy
  {
    var q := energy / h;
    assert q * h == energy;
    assert (power - q) * h >= 0.0;
  }

  lemma CapacityNonnegative(s: Scheduler, day: int, i: int)
    requires Wellformed(s)
    ensures Total(SlotLimits(s, day, i)) >= 0.0
    ensures s.slotMinutes > 0 ==> SlotCapacity(s, day, i) >= 0.0
  {
    hide Total, PowerLimits;
    var avail := AvailableAmong(s, s.vehicles, SlotStart(s, day, i));
    AvailableVehiclesAre(s, s.vehicles, SlotStart(s, day, i));
    forall id | id in PowerLimits(avail) ensures PowerLimits(avail)[id] >= 0.0 {
      var v := LimitOwner(avail, id);
    }
    NonnegativeTotal(PowerLimits(avail));
    if s.slotMinutes > 0 {
      HoursPositive(s);
    }
  }

  /** The entries of one slot. */
  ghost function EntriesAt(entries: seq<Entry>, slot: int): seq<Entry> {
    if entries == [] then []
    else
      var n := |entries| - 1;
      EntriesAt(entries[..n], slot) + if entries[n].slot == slot then [entries[n]] else []
  }

  lemma {:induction false} EntriesAtConcat(a: seq<Entry>, b: seq<Entry>, slot: int)
    ensures EntriesAt(a + b, slot) == EntriesAt(a, slot) + EntriesAt(b, slot)
    decreases |b|
  {
    if b == [] {
      assert a + b == a;
    } else {
      var n := |b| - 1;
      assert (a + b)[..|a| + n] == a + b[..n];
      EntriesAtConcat(a, b[..n], slot);
    }
  }

  lemma {:induction false} EntriesAllAt(entries: seq<Entry>, slot: int)
    requires forall e :: e in entries ==> e.slot == slot
    ensures EntriesAt(entries, slot) == entries
  {
    if entries != [] {
      var n := |entries| - 1;
      assert entries == entries[..n] + [entries[n]];
      EntriesAllAt(entries[..n], slot);
    }
  }

  lemma {:induction false} EntriesNoneAt(entries: seq<Entry>, slot: int)
    requires forall e :: e in entries ==> e.slot != slot
    ensures EntriesAt(entries, slot) == []
  {
    if entries != [] {
      var n := |entries| - 1;
      assert entries == entries[..n] + [entries[n]];
      EntriesNoneAt(entries[..n], slot);
    }
  }

  /** Energy that GeneratePlan commits to in slot `i`: the backlog and what accrues, up to the capacity. */
  ghost function Committed(s: Scheduler, day: int, i: nat): real
    requires DistinctIds(s.vehicles) && s.slotMinutes > 0
  {
    Min(After(SlotEnergy(s), Capacities(s, day, i)) + SlotEnergy(s), SlotCapacity(s, day, i))
  }

  lemma CommittedIsService(s: Scheduler, day: int, n: nat, i: nat)
    requires DistinctIds(s.vehicles) && s.slotMinutes > 0 && i < n
    ensures Service(SlotEnergy(s), Capacities(s, day, n))[i] == Committed(s, day, i)
  {
    hide SlotEnergy, SlotCapacity;
    assert Capacities(s, day, n)[..i] == Capacities(s, day, i);
  }

  /** The entries of slot `i` list a nearly water-filling split, over the vehicles present, of the committed energy. */
  ghost predicate SlotFilled(s: Scheduler, day: int, i: nat, entries: seq<Entry>)
    requires DistinctIds(s.vehicles) && s.slotMinutes > 0
  {
    exists power, d, order :: FilledBy(s, day, i, EntriesAt(entries, SlotStart(s, day, i)), power, d, order)
  }

  /** Who has an entry is decided by the order in which the sort left the vehicles. */
  ghost predicate FilledBy(s: Scheduler, day: int, i: nat, here: seq<Entry>, power: real, d: map<Id, real>, order: seq<Vehicle>)
    requires DistinctIds(s.vehicles) && s.slotMinutes > 0
  {
    && Product(power, SlotHours(s)) == Committed(s, day, i)
    && NearlyFilled(SlotLimits(s, day, i), power, d)
    && Lists(here, SlotStart(s, day, i), d)
    && Sorted(s, day, i, order) && Reaches(order, power, EntryIds(here))
  }

  /** The vehicles available in slot `i`, by descending power. */
  ghost predicate Sorted(s: Scheduler, day: int, i: int, order: seq<Vehicle>) {
    Descending(order) && multiset(order) == multiset(AvailableAmong(s, s.vehicles, SlotStart(s, day, i)))
  }

  ghost predicate Reaches(order: seq<Vehicle>, power: real, ids: set<Id>) {
    forall k :: 0 <= k < |order| ==> (order[k].id in ids <==> Reached(order, power, k))
  }

  /** What one slot contributes: admissible entries worth `paid` up to the tolerance, and the new backlog. */
  ghost predicate SlotDone(s: Scheduler, day: int, i: int, backlog0: real, more: seq<Entry>, backlog: real,
                           paid: real, d: map<Id, real>, order: seq<Vehicle>)
    requires DistinctIds(s.vehicles) && s.slotMinutes > 0
  {
    && backlog == Max(0.0, backlog0 + SlotEnergy(s) - SlotCapacity(s, day, i))
    && paid * SlotHours(s) == backlog0 + SlotEnergy(s) - backlog
    && paid - TOLERANCE <= PowerSum(more) <= paid
    && (forall e :: e in more ==> Admissible(s, day, i, e))
    && Lists(more, SlotStart(s, day, i), d)
    && NearlyFilled(SlotLimits(s, day, i), paid, d)
    && Sorted(s, day, i, order) && Reaches(order, paid, EntryIds(more))
  }

  lemma SlotSkipped(s: Scheduler, day: int, i: int, backlog0: real)
    requires Wellformed(s) && s.slotMinutes > 0 && s.targetEnergy > 0.0 && backlog0 >= 0.0
    requires !SlotServed(s, day, i)
    ensures SlotDone(s, day, i, backlog0, [], backlog0 + SlotEnergy(s), 0.0, map[], [])
  {
    SlotEnergiesAddUp(s);
    NoCapacity(s, day, i);
    ListsNone(SlotStart(s, day, i));
    NobodyToFill();
  }

  lemma NobodyToFill()
    ensures PowerLimits([]) == map[] && NearlyFilled(map[], 0.0, map[])
  {
    assert Filled(map[], 0.0) == map[];
    assert BelowLevel(map[], 0.0, map[], 0.0);
  }

  /** One iteration of the slot loop. */
  method PlanSlot(s: Scheduler, day: int, i: int, backlog0: real)
    returns (more: seq<Entry>, backlog: real, served: bool, ghost paid: real, ghost d: map<Id, real>,
             ghost order: seq<Vehicle>)
    requires Wellformed(s) && s.slotMinutes > 0 && s.targetEnergy > 0.0 && backlog0 >= 0.0
    ensures served == SlotServed(s, day, i)
    ensures SlotDone(s, day, i, backlog0, more, backlog, paid, d, order)
  {
    hide Total, PowerLimits, PowerSum, Lists, Admissible, NearlyFilled, Reached, EntryIds, Descending;
    var ts := SlotStart(s, day, i);
    var available := AvailableVehicles(s, ts);
    var slotEnergy := SlotEnergy(s);
    served := |available| != 0;
    if !served {
      SlotSkipped(s, day, i, backlog0);
      more, backlog, paid, d, order := [], backlog0 + slotEnergy, 0.0, map[], [];
      return;
    }
    AvailableVehiclesAre(s, s.vehicles, ts);
    var totalCap := AvailablePower(available);
    var targetEnergy := slotEnergy + backlog0;
    var maxEnergy := totalCap * SlotHours(s);
    var allocEnergy := targetEnergy;
    if allocEnergy > maxEnergy {
      allocEnergy := maxEnergy;
    }
    backlog := targetEnergy - allocEnergy;
    SlotEnergiesAddUp(s);
    CapacityNonnegative(s, day, i);
    HoursPositive(s);
    var targetPower := allocEnergy / SlotHours(s);
    PowerOfEnergy(allocEnergy, totalCap, SlotHours(s));
    paid := targetPower;
    var sorted := SortByPower(available);
    order := sorted;
    SameVehicles(available, sorted);
    PowerLimitsIgnoreOrder(available, sorted);
    more, d := Distribute(ts, sorted, targetPower);
    SlotEntriesAdmissible(s, day, i, more, d, targetPower);
  }

  lemma SameVehicles(vs: seq<Vehicle>, order: seq<Vehicle>)
    requires multiset(order) == multiset(vs)
    ensures forall v :: v in order <==> v in vs
  {
    forall v ensures v in order <==> v in vs {
      assert v in order <==> v in multiset(order);
      assert v in vs <==> v in multiset(vs);
    }
  }

  /** The slot loop after `i` slots. */
  ghost predicate Planned(s: Scheduler, day: int, i: nat, entries: seq<Entry>, backlog: real, hadAvail: bool, paid: real)
    requires DistinctIds(s.vehicles) && s.slotMinutes > 0
  {
    && AdmissiblePlan(s, day, i, entries)
    && backlog == After(SlotEnergy(s), Capacities(s, day, i))
    && hadAvail == SomeSlotServed(s, day, i)
    && paid * SlotHours(s) == Times(i, SlotEnergy(s)) - backlog
    && paid - Times(i, TOLERANCE) <= PowerSum(entries) <= paid
    && forall k :: 0 <= k < i ==> SlotFilled(s, day, k, entries)
  }

  lemma SlotsStayFilled(s: Scheduler, day: int, i: nat, entries: seq<Entry>, more: seq<Entry>, k: nat)
    requires DistinctIds(s.vehicles) && s.slotMinutes > 0 && k < i
    requires SlotFilled(s, day, k, entries) && forall e :: e in more ==> e.slot == SlotStart(s, day, i)
    ensures SlotFilled(s, day, k, entries + more)
  {
    hide FilledBy, EntriesAt;
    DifferentSlots(s, day, k, i);
    EntriesNoneAt(more, SlotStart(s, day, k));
    EntriesAtConcat(entries, more, SlotStart(s, day, k));
    assert EntriesAt(entries, SlotStart(s, day, k)) + [] == EntriesAt(entries, SlotStart(s, day, k));
  }

  lemma SlotGetsFilled(s: Scheduler, day: int, i: nat, entries: seq<Entry>, backlog0: real,
                       more: seq<Entry>, backlog: real, paid: real, d: map<Id, real>, order: seq<Vehicle>)
    requires DistinctIds(s.vehicles) && s.slotMinutes > 0
    requires AdmissiblePlan(s, day, i, entries) && backlog0 == After(SlotEnergy(s), Capacities(s, day, i))
    requires SlotDone(s, day, i, backlog0, more, backlog, paid, d, order)
    ensures SlotFilled(s, day, i, entries + more)
  {
    hide SlotEnergy, SlotCapacity, SlotLimits, Capacities, NearlyFilled, SlotHours, PowerSum, Sorted, Reaches, EntryIds;
    forall e | e in entries ensures e.slot != SlotStart(s, day, i) {
      var k :| 0 <= k < i && Admissible(s, day, k, e);
      DifferentSlots(s, day, k, i);
    }
    EntriesNoneAt(entries, SlotStart(s, day, i));
    EntriesAllAt(more, SlotStart(s, day, i));
    EntriesAtConcat(entries, more, SlotStart(s, day, i));
    assert EntriesAt(entries + more, SlotStart(s, day, i)) == [] + more == more;
    assert FilledBy(s, day, i, more, paid, d, order);
  }

  lemma PlannedNext(s: Scheduler, day: int, i: nat, entries: seq<Entry>, backlog0: real, hadAvail: bool, paid0: real,
                    more: seq<Entry>, backlog: real, served: bool, paid: real, d: map<Id, real>, order: seq<Vehicle>)
    requires DistinctIds(s.vehicles) && s.slotMinutes > 0
    requires Planned(s, day, i, entries, backlog0, hadAvail, paid0)
    requires SlotDone(s, day, i, backlog0, more, backlog, paid, d, order)
    requires served == SlotServed(s, day, i)
    ensures Planned(s, day, i + 1, entries + more, backlog, hadAvail || served, paid0 + paid)
  {
    hide SlotServed, Admissible, SlotCapacity, SlotEnergy, AdmissiblePlan, PowerSum, SlotFilled, NearlyFilled, Sorted, Reaches;
    PlanGrows(s, day, i, entries, more, d);
    PowerSumConcat(entries, more);
    var caps := Capacities(s, day, i + 1);
    assert caps[..i] == Capacities(s, day, i) && caps[..i + 1] == caps;
    AfterNext(SlotEnergy(s), caps, i);
    assert (paid0 + paid) * SlotHours(s) == paid0 * SlotHours(s) + paid * SlotHours(s);
    assert SomeSlotServed(s, day, i + 1) == (SomeSlotServed(s, day, i) || SlotServed(s, day, i));
    SlotGetsFilled(s, day, i, entries, backlog0, more, backlog, paid, d, order);
    forall k | 0 <= k < i ensures SlotFilled(s, day, k, entries + more) {
      SlotsStayFilled(s, day, i, entries, more, k);
    }
  }

  /** What is promised of a plan that is returned. */
  ghost predicate GoodPlan(s: Scheduler, day: int, entries: seq<Entry>)
    requires DistinctIds(s.vehicles) && s.slotMinutes > 0
  {
    var n, h := SlotCount(s), SlotHours(s);
    && AdmissiblePlan(s, day, n, entries)
    && s.targetEnergy - TOLERANCE * (1.0 + n as real * h) <= PowerSum(entries) * h <= s.targetEnergy
    && forall i :: 0 <= i < n ==> SlotFilled(s, day, i, entries)
  }

  lemma PlannedEnergy(s: Scheduler, day: int, i: nat, entries: seq<Entry>, backlog: real, hadAvail: bool, paid: real)
    requires DistinctIds(s.vehicles) && s.slotMinutes > 0
    requires Planned(s, day, i, entries, backlog, hadAvail, paid)
    ensures AdmissiblePlan(s, day, i, entries) && backlog >= 0.0
    ensures paid * SlotHours(s) == Times(i, SlotEnergy(s)) - backlog
    ensures paid - Times(i, TOLERANCE) <= PowerSum(entries) <= paid
    ensures forall k :: 0 <= k < i ==> SlotFilled(s, day, k, entries)
  {
  }

  lemma PlannedIsGood(s: Scheduler, day: int, entries: seq<Entry>, backlog: real, hadAvail: bool, paid: real)
    requires DistinctIds(s.vehicles) && s.slotMinutes > 0 && SlotCount(s) >= 0
    requires Planned(s, day, SlotCount(s), entries, backlog, hadAvail, paid)
    requires backlog <= TOLERANCE
    ensures GoodPlan(s, day, entries)
  {
    hide Planned, AdmissiblePlan, PowerSum, SlotCount, SlotHours, SlotEnergy, DistinctIds, Times, SlotFilled;
    PlannedEnergy(s, day, SlotCount(s), entries, backlog, hadAvail, paid);
    SlotEnergiesAddUp(s);
    TimesIsProduct(SlotCount(s), TOLERANCE);
    HoursPositive(s);
    EnergyBounds(s.targetEnergy, backlog, paid, PowerSum(entries), SlotCount(s) as real, SlotHours(s));
  }

  lemma EnergyBounds(target: real, backlog: real, paid: real, power: real, n: real, h: real)
    requires h > 0.0 && 0.0 <= backlog <= TOLERANCE
    requires paid * h == target - backlog && paid - n * TOLERANCE <= power <= paid
    ensures target - TOLERANCE * (1.0 + n * h) <= power * h <= target
  {
    assert (paid - power) * h >= 0.0;
    assert (power - (paid - n * TOLERANCE)) * h >= 0.0;
    assert (n * TOLERANCE) * h == TOLERANCE * (n * h);
  }

  method GeneratePlan(s: Scheduler, date: int) returns (res: PlanResult)
    requires Wellformed(s)
    ensures res == Failed(SlotNotPositive) <==> s.slotMinutes <= 0
    ensures res == Failed(TargetNotPositive) <==> s.slotMinutes > 0 && s.targetEnergy <= 0.0
    ensures res == Failed(NoVehicles) <==> s.slotMinutes > 0 && s.targetEnergy > 0.0 && s.vehicles == []
    ensures res != Failed(SlotTooLong)
    ensures s.slotMinutes > 0 && s.targetEnergy > 0.0 && s.vehicles != [] ==>
              (res.Plan? <==> Feasible(s, StartOfDay(date)))
    ensures res.Plan? ==> s.slotMinutes > 0 && GoodPlan(s, StartOfDay(date), res.entries)
    ensures res.Plan? ==> forall e :: e in res.entries ==> PluggedIn(s, e.id, e.slot)
  {
    if s.slotMinutes <= 0 {
      return Failed(SlotNotPositive);
    }
    var totalSlots := SlotCount(s);
    SlotsCoverTheDay(s);
    if totalSlots == 0 {
      return Failed(SlotTooLong);
    }
    HoursPositive(s);
    PerSlotSign(s.targetEnergy, totalSlots as real, SlotHours(s));
    var powerPerSlot := s.targetEnergy / (totalSlots as real * SlotHours(s));
    if powerPerSlot <= 0.0 {
      return Failed(TargetNotPositive);
    }
    if |s.vehicles| == 0 {
      return Failed(NoVehicles);
    }
    var day := StartOfDay(date);
    var entries, backlog, hadAvail := PlanDay(s, day, totalSlots);
    if backlog > TOLERANCE || !hadAvail {
      return Failed(InsufficientCapacity);
    }
    PlanInWindows(s, day, entries);
    return Plan(entries);
  }

  lemma PlanInWindows(s: Scheduler, day: int, entries: seq<Entry>)
    requires DistinctIds(s.vehicles) && s.slotMinutes > 0 && GoodPlan(s, day, entries)
    ensures forall e :: e in entries ==> PluggedIn(s, e.id, e.slot)
  {
    hide PluggedIn, VehicleAvailable, SlotFilled, PowerSum, SlotHours;
    forall e | e in entries ensures PluggedIn(s, e.id, e.slot) {
      var i :| 0 <= i < SlotCount(s) && Admissible(s, day, i, e);
      AvailableIffPluggedIn(s, e.id, e.slot);
    }
  }

  lemma PerSlotSign(target: real, n: real, h: real)
    requires n >= 1.0 && h > 0.0
    ensures n * h > 0.0 && (target / (n * h) <= 0.0 <==> target <= 0.0)
  {
    assert n * h > 0.0;
    var p := target / (n * h);
    assert p * (n * h) == target;
  }

  /** The slot loop. */
  method PlanDay(s: Scheduler, day: int, totalSlots: int) returns (entries: seq<Entry>, backlog: real, hadAvail: bool)
    requires Wellformed(s) && s.slotMinutes > 0 && s.targetEnergy > 0.0 && totalSlots == SlotCount(s)
    ensures backlog <= TOLERANCE && hadAvail <==> Feasible(s, day)
    ensures backlog <= TOLERANCE ==> GoodPlan(s, day, entries)
  {
    hide Planned, GoodPlan, SlotDone, SlotCount;
    SlotEnergiesAddUp(s);
    entries, backlog, hadAvail := [], 0.0, false;
    ghost var paid := 0.0;
    PlannedStarts(s, day);
    for i := 0 to totalSlots
      invariant Planned(s, day, i, entries, backlog, hadAvail, paid)
    {
      PlannedBacklog(s, day, i, entries, backlog, hadAvail, paid);
      var more, rest, served;
      ghost var spent, d, order;
      more, rest, served, spent, d, order := PlanSlot(s, day, i, backlog);
      PlannedNext(s, day, i, entries, backlog, hadAvail, paid, more, rest, served, spent, d, order);
      entries, backlog, hadAvail, paid := entries + more, rest, hadAvail || served, paid + spent;
    }
    PlannedBacklog(s, day, totalSlots, entries, backlog, hadAvail, paid);
    if backlog <= TOLERANCE {
      PlannedIsGood(s, day, entries, backlog, hadAvail, paid);
    }
  }

  lemma PlannedStarts(s: Scheduler, day: int)
    requires DistinctIds(s.vehicles) && s.slotMinutes > 0
    ensures Planned(s, day, 0, [], 0.0, false, 0.0)
  {
  }

  lemma PlannedBacklog(s: Scheduler, day: int, i: nat, entries: seq<Entry>, backlog: real, hadAvail: bool, paid: real)
    requires DistinctIds(s.vehicles) && s.slotMinutes > 0
    requires Planned(s, day, i, entries, backlog, hadAvail, paid)
    ensures backlog >= 0.0
    ensures backlog == After(SlotEnergy(s), Capacities(s, day, i)) && hadAvail == SomeSlotServed(s, day, i)
  {
  }

  // ----- when a plan exists, and why the greedy one is best

  /** GeneratePlan succeeds exactly when every suffix of the day has room for what accrues in it. */
  lemma FeasibleIffEverySuffixFits(s: Scheduler, day: int)
    requires DistinctIds(s.vehicles) && s.slotMinutes > 0
    ensures SlotCount(s) >= 1
    ensures var n := SlotCount(s);
            Feasible(s, day) <==>
            && SomeSlotServed(s, day, n)
            && forall k :: 0 <= k <= n ==> Excess(SlotEnergy(s), Capacities(s, day, n)[k..]) <= 0.000001
  {
    hide SlotCount, SlotEnergy, SlotCapacity, SomeSlotServed, Excess;
    SlotsCoverTheDay(s);
    var n := SlotCount(s);
    var caps := Capacities(s, day, n);
    var worst := BacklogIsWorstSuffix(SlotEnergy(s), caps, n);
    assert caps[..n] == caps;
    forall k | 0 <= k <= n ensures caps[k..n] == caps[k..] {
    }
  }

  /** Powers per slot and vehicle, kept to the windows and limits, that never run ahead of the accrual. */
  ghost predicate CausalFleetPlan(s: Scheduler, day: int, n: nat, plan: seq<map<Id, real>>)
    requires DistinctIds(s.vehicles) && s.slotMinutes > 0
  {
    && |plan| == n
    && (forall i :: 0 <= i < n ==> WithinLimits(plan[i], SlotLimits(s, day, i)))
    && forall i :: 0 <= i <= n ==> Sum(Energies(s, plan)[..i]) <= Times(i, SlotEnergy(s))
  }

  ghost predicate WithinLimits(p: map<Id, real>, limits: map<Id, real>) {
    p.Keys == limits.Keys && forall id :: id in p ==> p[id] <= limits[id]
  }

  ghost function Energies(s: Scheduler, plan: seq<map<Id, real>>): seq<real> {
    seq(|plan|, i requires 0 <= i < |plan| => Product(Total(plan[i]), SlotHours(s)))
  }

  lemma FleetPlanIsCausal(s: Scheduler, day: int, n: nat, plan: seq<map<Id, real>>)
    requires DistinctIds(s.vehicles) && s.slotMinutes > 0 && CausalFleetPlan(s, day, n, plan)
    ensures Causal(SlotEnergy(s), Capacities(s, day, n), Energies(s, plan))
  {
    hide Total, SlotLimits, SlotHours, SlotEnergy;
    HoursPositive(s);
    forall i | 0 <= i < n ensures Energies(s, plan)[i] <= SlotCapacity(s, day, i) {
      TotalMonotone(plan[i], SlotLimits(s, day, i));
      ProductMonotone(Total(plan[i]), Total(SlotLimits(s, day, i)), SlotHours(s));
    }
  }

  /** By every slot of the day, no causal plan of the fleet has delivered more than GeneratePlan commits to. */
  lemma NoCausalPlanIsAhead(s: Scheduler, day: int, n: nat, plan: seq<map<Id, real>>, i: nat)
    requires DistinctIds(s.vehicles) && s.slotMinutes > 0 && CausalFleetPlan(s, day, n, plan) && i <= n
    ensures Sum(Energies(s, plan)[..i]) <= Sum(Service(SlotEnergy(s), Capacities(s, day, n))[..i])
  {
    FleetPlanIsCausal(s, day, n, plan);
    GreedyDominates(SlotEnergy(s), Capacities(s, day, n), Energies(s, plan), i);
  }

  /** In every slot a returned plan delivers what was committed, up to the tolerance. */
  lemma SlotDelivers(s: Scheduler, day: int, entries: seq<Entry>, i: nat)
    requires Wellformed(s) && s.slotMinutes > 0 && s.targetEnergy > 0.0
    requires GoodPlan(s, day, entries) && i < SlotCount(s)
    ensures Committed(s, day, i) - Product(0.000001, SlotHours(s))
         <= Product(PowerSum(EntriesAt(entries, SlotStart(s, day, i))), SlotHours(s))
         <= Committed(s, day, i)
  {
    FilledAt(s, day, entries, i);
    hide SlotEnergy, SlotHours, SlotLimits, NearlyFilled, EntriesAt, SlotCount, PowerSum, Total, DistinctIds, Committed,
         GoodPlan, Product, Sorted, Reaches;
    var h, limits := SlotHours(s), SlotLimits(s, day, i);
    var here := EntriesAt(entries, SlotStart(s, day, i));
    var power, d, order :| FilledBy(s, day, i, here, power, d, order);
    CommittedBounds(s, day, i);
    hide Lists;
    SlotSum(Committed(s, day, i), limits, power, d, h);
    ListedSum(here, SlotStart(s, day, i), d);
  }

  ghost predicate HasEntry(entries: seq<Entry>, id: Id, slot: int) {
    exists e :: e in entries && e.id == id && e.slot == slot
  }

  lemma {:induction false} EntriesAtHas(entries: seq<Entry>, id: Id, slot: int)
    ensures HasEntry(entries, id, slot) <==> id in EntryIds(EntriesAt(entries, slot))
  {
    if entries != [] {
      var n := |entries| - 1;
      assert entries == entries[..n] + [entries[n]];
      EntriesAtHas(entries[..n], id, slot);
      assert HasEntry(entries, id, slot) <==> HasEntry(entries[..n], id, slot) || (entries[n].id == id && entries[n].slot == slot);
    }
  }

  /**
   The exact extent of "one entry per vehicle and slot": in the order in which the vehicles
   available in a slot are sorted, a vehicle has an entry if and only if it can take power and
   the first pass still has more than the tolerance in hand when it comes to it.
   */
  lemma EntryIff(s: Scheduler, day: int, entries: seq<Entry>, i: nat) returns (power: real, order: seq<Vehicle>)
    requires DistinctIds(s.vehicles) && s.slotMinutes > 0 && GoodPlan(s, day, entries) && i < SlotCount(s)
    ensures Product(power, SlotHours(s)) == Committed(s, day, i) && Sorted(s, day, i, order)
    ensures Descending(order)
    ensures forall v :: v in order <==> v in s.vehicles && PluggedIn(s, v.id, SlotStart(s, day, i))
    ensures forall k :: 0 <= k < |order| ==>
              (HasEntry(entries, order[k].id, SlotStart(s, day, i)) <==> Reached(order, power, k))
  {
    FilledAt(s, day, entries, i);
    hide GoodPlan, EntriesAt, HasEntry, EntryIds, Reached, Sorted, Committed, SlotLimits, NearlyFilled, Lists, Product, SlotCount,
         PluggedIn, Descending;
    var here := EntriesAt(entries, SlotStart(s, day, i));
    var d;
    power, d, order :| FilledBy(s, day, i, here, power, d, order);
    forall k | 0 <= k < |order|
      ensures HasEntry(entries, order[k].id, SlotStart(s, day, i)) <==> Reached(order, power, k)
    {
      EntriesAtHas(entries, order[k].id, SlotStart(s, day, i));
    }
    OrderIsPluggedIn(s, day, i, order);
  }

  lemma OrderIsPluggedIn(s: Scheduler, day: int, i: nat, order: seq<Vehicle>)
    requires s.slotMinutes > 0 && Sorted(s, day, i, order)
    ensures Descending(order)
    ensures forall v :: v in order <==> v in s.vehicles && PluggedIn(s, v.id, SlotStart(s, day, i))
  {
    hide PluggedIn, AvailableAmong, Descending;
    AvailableArePluggedIn(s, SlotStart(s, day, i));
    SameVehicles(AvailableAmong(s, s.vehicles, SlotStart(s, day, i)), order);
  }

  /** Every vehicle available in a slot has an entry exactly when all can take power and the last in the order is reached. */
  lemma EveryVehicleHasEntryIff(s: Scheduler, day: int, entries: seq<Entry>, i: nat) returns (power: real, order: seq<Vehicle>)
    requires Wellformed(s) && s.slotMinutes > 0 && GoodPlan(s, day, entries) && i < SlotCount(s)
    ensures Product(power, SlotHours(s)) == Committed(s, day, i) && Sorted(s, day, i, order)
    ensures (forall v :: v in s.vehicles && PluggedIn(s, v.id, SlotStart(s, day, i)) ==>
               HasEntry(entries, v.id, SlotStart(s, day, i)))
       <==> (forall v :: v in order ==> v.maxPower > 0.0)
            && (order != [] ==> power - HandedOut(order, power, |order| - 1) > TOLERANCE)
  {
    power, order := EntryIff(s, day, entries, i);
    var slot := SlotStart(s, day, i);
    hide GoodPlan, HasEntry, Committed, Product, SlotCount, SlotHours, HandedOut, PluggedIn, DistinctIds, Sorted;
    EverybodyReachedIff(order, power);
    InOrder(order, entries, slot);
  }

  lemma InOrder(order: seq<Vehicle>, entries: seq<Entry>, slot: int)
    ensures (forall v :: v in order ==> HasEntry(entries, v.id, slot))
       <==> (forall k :: 0 <= k < |order| ==> HasEntry(entries, order[k].id, slot))
  {
    hide HasEntry;
    if forall k :: 0 <= k < |order| ==> HasEntry(entries, order[k].id, slot) {
      forall v | v in order ensures HasEntry(entries, v.id, slot) {
        var k :| 0 <= k < |order| && order[k] == v;
      }
    }
    if forall v :: v in order ==> HasEntry(entries, v.id, slot) {
      forall k | 0 <= k < |order| ensures HasEntry(entries, order[k].id, slot) {
        assert order[k] in order;
      }
    }
  }

  /** A day in one slot, two vehicles of 1 kW available all day, and a target of 1.5e-6 kW over the day. */
  ghost function TinyTarget(a: Vehicle, b: Vehicle, day: int): Scheduler {
    Scheduler(1440, 0.000036, [a, b], map[a.id := [Window(day, day + DAY)], b.id := [Window(day, day + DAY)]])
  }

  lemma TinyTargetFacts(a: Vehicle, b: Vehicle, day: int)
    requires a.id != b.id && a.maxPower == b.maxPower == 1.0
    ensures var s := TinyTarget(a, b, day);
            && Wellformed(s) && DistinctIds(s.vehicles) && s.slotMinutes > 0 && SlotCount(s) == 1 && SlotStart(s, day, 0) == day && SlotHours(s) == 24.0
            && VehicleAvailable(s, a.id, day) && VehicleAvailable(s, b.id, day)
            && AvailableAmong(s, s.vehicles, day) == [a, b]
  {
    var s := TinyTarget(a, b, day);
    var w := Window(day, day + DAY);
    assert SlotDuration(s) == DAY;
    assert w in s.availability[a.id] && w in s.availability[b.id];
    assert s.vehicles[..1] == [a] && [a][..0] == [];
    assert AvailableAmong(s, [a], day) == [] + [a];
  }

  lemma TinyTargetCommitment(a: Vehicle, b: Vehicle, day: int)
    requires a.id != b.id && a.maxPower == b.maxPower == 1.0
    ensures var s := TinyTarget(a, b, day);
            && DistinctIds(s.vehicles) && Committed(s, day, 0) == 0.000036 && Feasible(s, day)
  {
    TinyTargetFacts(a, b, day);
    hide VehicleAvailable, AvailableAmong, Total, PowerLimits;
    var s := TinyTarget(a, b, day);
    var limits := SlotLimits(s, day, 0);
    assert limits == PowerLimits([a, b]);
    SlotLimitsNonnegative(s, day, 0);
    PowerLimitOf([a, b], a);
    var zeros := map id | id in limits :: 0.0;
    ZeroTotal(zeros);
    TotalMonotone(zeros, limits);
    assert Total(limits) >= 1.0;
    var caps := Capacities(s, day, 1);
    assert Capacities(s, day, 0) == [] && caps[..0] == [];
    assert caps[0] == Total(limits) * 24.0 >= 24.0;
    assert SlotEnergy(s) == 0.000036;
    assert After(SlotEnergy(s), caps) == 0.0;
    assert SlotServed(s, day, 0);
  }

  /** The plan exists, both vehicles are available in its only slot, and one of them has no entry. */
  lemma PlanLeavesVehicleOut(a: Vehicle, b: Vehicle, day: int, entries: seq<Entry>)
    requires a.id != b.id && a.maxPower == b.maxPower == 1.0
    requires DistinctIds([a, b]) && GoodPlan(TinyTarget(a, b, day), day, entries)
    ensures var s := TinyTarget(a, b, day);
            && Feasible(s, day) && PluggedIn(s, a.id, day) && PluggedIn(s, b.id, day)
            && !(HasEntry(entries, a.id, day) && HasEntry(entries, b.id, day))
  {
    hide GoodPlan, VehicleAvailable, PluggedIn, AvailableAmong, Committed, Feasible, HasEntry, SlotCount, SlotHours, SlotStart,
         Reached, Descending, TinyTarget, Wellformed;
    var s := TinyTarget(a, b, day);
    TinyTargetFacts(a, b, day);
    TinyTargetCommitment(a, b, day);
    AvailableIffPluggedIn(s, a.id, day);
    AvailableIffPluggedIn(s, b.id, day);
    var power, order := EntryIff(s, day, entries, 0);
    assert power == 0.0000015;
    OrderOfTwo(a, b, order);
    SecondVehicleIsLeftOut(order);
  }

  lemma OrderOfTwo(a: Vehicle, b: Vehicle, order: seq<Vehicle>)
    requires multiset(order) == multiset([a, b])
    ensures order == [a, b] || order == [b, a]
  {
    assert |order| == |multiset(order)| == |multiset([a, b])| == 2;
    SameVehicles([a, b], order);
    assert order == [order[0], order[1]];
    assert order[0] in [a, b] && order[1] in [a, b];
    assert multiset(order) == multiset{order[0], order[1]};
  }

  lemma ListedSum(entries: seq<Entry>, slot: int, d: map<Id, real>)
    requires Lists(entries, slot, d)
    ensures PowerSum(entries) == Total(d)
  {
  }

  lemma FilledAt(s: Scheduler, day: int, entries: seq<Entry>, i: nat)
    requires DistinctIds(s.vehicles) && s.slotMinutes > 0 && GoodPlan(s, day, entries) && i < SlotCount(s)
    ensures SlotFilled(s, day, i, entries)
  {
    hide SlotFilled;
  }

  lemma CommittedBounds(s: Scheduler, day: int, i: nat)
    requires Wellformed(s) && s.slotMinutes > 0 && s.targetEnergy > 0.0
    ensures SlotHours(s) > 0.0 && 0.0 <= Committed(s, day, i) <= Product(Total(SlotLimits(s, day, i)), SlotHours(s))
  {
    hide SlotEnergy, SlotHours, SlotLimits, Total, Capacities;
    HoursPositive(s);
    SlotEnergiesAddUp(s);
    CapacityNonnegative(s, day, i);
  }

  lemma SlotSum(energy: real, limits: map<Id, real>, power: real, d: map<Id, real>, h: real)
    requires h > 0.0 && Product(power, h) == energy && 0.0 <= energy <= Product(Total(limits), h) && NearlyFilled(limits, power, d)
    ensures energy - Product(TOLERANCE, h) <= Product(Total(d), h) <= energy
  {
    hide NearlyFilled, Product, Total;
    PowerWithin(energy, power, Total(limits), h);
    NearlyFilledTotal(limits, power, d);
    SumWithin(power, Total(d), h);
  }

  lemma PowerWithin(energy: real, power: real, total: real, h: real)
    requires h > 0.0 && Product(power, h) == energy && 0.0 <= energy <= Product(total, h)
    ensures 0.0 <= power <= total
  {
    assert (total - power) * h >= 0.0;
  }

  lemma SumWithin(power: real, sum: real, h: real)
    requires h > 0.0 && power - TOLERANCE <= sum <= power
    ensures Product(power, h) - Product(TOLERANCE, h) <= Product(sum, h) <= Product(power, h)
  {
    hide Product;
    ProductOfSum(power - TOLERANCE, TOLERANCE, h);
    ProductMonotone(power - TOLERANCE, sum, h);
    ProductMonotone(sum, power, h);
  }

  lemma ProductMonotone(x: real, y: real, h: real)
    requires x <= y && h > 0.0
    ensures Product(x, h) <= Product(y, h)
  {
    assert (y - x) * h >= 0.0;
  }

  /** Sharing a slot's energy in proportion to the limits stays within them. */
  lemma ProportionalPowers(limits: map<Id, real>, h: real, x: real) returns (p: map<Id, real>)
    requires h > 0.0 && (forall id :: id in limits ==> limits[id] >= 0.0) && 0.0 <= x <= Total(limits) * h
    ensures WithinLimits(p, limits) && Total(p) * h == x
  {
    hide Total;
    if Total(limits) * h == 0.0 {
      p := limits;
    } else {
      var f := Fraction(x, Total(limits), h);
      TotalScaled(limits, f);
      p := ScaledBy(limits, f);
      forall id | id in limits ensures p[id] <= limits[id] {
        Shrinks(limits[id], f);
      }
    }
  }

  lemma Fraction(x: real, total: real, h: real) returns (f: real)
    requires 0.0 <= x <= total * h && total * h != 0.0
    ensures 0.0 <= f <= 1.0 && total * f * h == x
  {
    var y := total * h;
    f := x / y;
    assert f * y == x;
    assert total * f * h == f * y;
  }

  lemma Shrinks(x: real, f: real)
    requires 0.0 <= x && 0.0 <= f <= 1.0
    ensures x * f <= x
  {
    assert x * f <= x * 1.0;
  }

  lemma ServiceOfSlot(s: Scheduler, day: int, n: nat, i: nat)
    requires Wellformed(s) && s.slotMinutes > 0 && s.targetEnergy > 0.0 && i < n
    ensures 0.0 <= Service(SlotEnergy(s), Capacities(s, day, n))[i] <= Total(SlotLimits(s, day, i)) * SlotHours(s)
  {
    hide Total, SlotLimits, SlotEnergy, SlotHours;
    SlotEnergiesAddUp(s);
    CapacityNonnegative(s, day, i);
  }

  lemma SlotLimitsNonnegative(s: Scheduler, day: int, i: nat)
    requires Wellformed(s)
    ensures forall id :: id in SlotLimits(s, day, i) ==> SlotLimits(s, day, i)[id] >= 0.0
  {
    hide PowerLimits;
    var avail := AvailableAmong(s, s.vehicles, SlotStart(s, day, i));
    AvailableVehiclesAre(s, s.vehicles, SlotStart(s, day, i));
    forall id | id in PowerLimits(avail) ensures PowerLimits(avail)[id] >= 0.0 {
      var v := LimitOwner(avail, id);
    }
  }

  lemma GreedySlot(s: Scheduler, day: int, n: nat, i: nat) returns (p: map<Id, real>)
    requires Wellformed(s) && s.slotMinutes > 0 && s.targetEnergy > 0.0 && i < n
    ensures WithinLimits(p, SlotLimits(s, day, i))
    ensures Total(p) * SlotHours(s) == Service(SlotEnergy(s), Capacities(s, day, n))[i]
  {
    hide Total, SlotLimits, SlotEnergy, SlotHours, SlotCapacity, Service, WithinLimits;
    HoursPositive(s);
    ServiceOfSlot(s, day, n, i);
    SlotLimitsNonnegative(s, day, i);
    ServiceLength(SlotEnergy(s), Capacities(s, day, n));
    p := ProportionalPowers(SlotLimits(s, day, i), SlotHours(s), Service(SlotEnergy(s), Capacities(s, day, n))[i]);
  }

  lemma ServiceLength(e: real, caps: seq<real>)
    ensures |Service(e, caps)| == |caps|
  {
  }

  lemma NoEnergies(s: Scheduler)
    ensures Energies(s, []) == []
  {
    var none: seq<map<Id, real>> := [];
    var xs := Energies(s, none);
    assert |xs| == |none| == 0;
  }

  lemma EnergiesSnoc(s: Scheduler, plan: seq<map<Id, real>>, p: map<Id, real>)
    ensures Energies(s, plan + [p]) == Energies(s, plan) + [Product(Total(p), SlotHours(s))]
  {
    hide Product, Total, SlotHours;
  }

  /** The energies GeneratePlan commits to can be delivered by the vehicles, causally. */
  lemma {:induction false} GreedyFleetPlan(s: Scheduler, day: int, n: nat, k: nat) returns (plan: seq<map<Id, real>>)
    requires Wellformed(s) && s.slotMinutes > 0 && s.targetEnergy > 0.0 && k <= n
    ensures |plan| == k
    ensures forall i :: 0 <= i < k ==> WithinLimits(plan[i], SlotLimits(s, day, i))
    ensures Energies(s, plan) == Service(SlotEnergy(s), Capacities(s, day, n))[..k]
  {
    hide Total, SlotLimits, SlotEnergy, SlotHours, WithinLimits, Energies, SlotCapacity;
    var service := Service(SlotEnergy(s), Capacities(s, day, n));
    if k == 0 {
      plan := [];
      NoEnergies(s);
    } else {
      var init := GreedyFleetPlan(s, day, n, k - 1);
      var p := GreedySlot(s, day, n, k - 1);
      plan := init + [p];
      EnergiesSnoc(s, init, p);
      assert service[..k] == service[..k - 1] + [service[k - 1]];
    }
  }

  /**
   GeneratePlan succeeds exactly when some slot has a vehicle and some causal plan of the
   fleet delivers all of the target but the tolerance.
   */
  lemma FeasibleIffCausalPlanExists(s: Scheduler, day: int)
    requires Wellformed(s) && s.slotMinutes > 0 && s.targetEnergy > 0.0
    ensures SlotCount(s) >= 1
    ensures Feasible(s, day) <==>
            && SomeSlotServed(s, day, SlotCount(s))
            && exists plan :: CausalFleetPlan(s, day, SlotCount(s), plan)
                              && s.targetEnergy - 0.000001 <= Sum(Energies(s, plan))
  {
    hide Total, SlotLimits, SlotHours, SlotEnergy, SlotCount, SomeSlotServed, WithinLimits;
    SlotEnergiesAddUp(s);
    var n, e := SlotCount(s), SlotEnergy(s);
    var caps := Capacities(s, day, n);
    var service := Service(e, caps);
    ServiceTotal(e, caps, n);
    assert service[..n] == service && caps[..n] == caps;
    forall plan | CausalFleetPlan(s, day, n, plan) ensures Sum(Energies(s, plan)) <= Sum(service) {
      NoCausalPlanIsAhead(s, day, n, plan, n);
      assert Energies(s, plan)[..n] == Energies(s, plan);
    }
    var greedy := GreedyFleetPlan(s, day, n, n);
    ServiceIsCausal(e, caps);
    assert CausalFleetPlan(s, day, n, greedy);
  }
}
