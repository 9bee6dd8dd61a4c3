/**
 `distribute` (core/scheduler/scheduler.go): a second water-filling loop, which stops
 once no more than 1e-6 kW is left.  It agrees with the EqualDispatcher up to that.
 */
module Distribution {
  import opened Totals
  import opened Fleet
  import opened WaterFilling

  const TOLERANCE: real := 0.000001

  datatype Entry = Entry(id: Id, slot: int, power: real)

  // ----- what the loop achieves

  /** `d` stays below some level that the target can pay for, and falls short of the target by the tolerance at most. */
  ghost predicate NearlyFilled(limits: map<Id, real>, target: real, d: map<Id, real>) {
    && Below(limits, target, d)
    && (forall id :: id in d ==> 0.0 <= d[id])
    && (target - Total(d) <= TOLERANCE || d == limits)
  }

  ghost predicate Below(limits: map<Id, real>, target: real, d: map<Id, real>) {
    && d.Keys == limits.Keys
    && exists level :: BelowLevel(limits, target, d, level)
  }

  ghost predicate BelowLevel(limits: map<Id, real>, target: real, d: map<Id, real>, level: real)
    requires d.Keys == limits.Keys
  {
    && (forall id :: id in d ==> d[id] <= Filled(limits, level)[id])
    && Total(Filled(limits, level)) <= Max(0.0, target)
  }

  lemma NearlyFilledTotal(limits: map<Id, real>, target: real, d: map<Id, real>)
    requires NearlyFilled(limits, target, d) && target <= Total(limits)
    ensures target - TOLERANCE <= Total(d) <= Max(0.0, target)
    ensures forall id :: id in d ==> d[id] <= limits[id]
  {
    var level :| BelowLevel(limits, target, d, level);
    TotalMonotone(d, Filled(limits, level));
  }

  /** The two loops agree on every vehicle: `distribute` gives at most 1e-6 less, and never more. */
  lemma AgreesWithEqualDispatcher(limits: map<Id, real>, target: real, d: map<Id, real>,
                                  a: map<Id, real>, level: real)
    requires target >= 0.0
    requires NearlyFilled(limits, target, d)
    requires IsWaterFilling(limits, target, a, level)
    ensures a.Keys == d.Keys
    ensures forall id :: id in d ==> 0.0 <= a[id] - d[id] <= 0.000001
  {
    var top :| BelowLevel(limits, target, d, top);
    TotalMonotone(Filled(limits, top), limits);
    LowerTotalLowerShares(limits, top, level);
    TotalMonotone(d, a);
  }

  // ----- one pass

  /** The vehicles that are not saturated at a level. */
  ghost function Active(limits: map<Id, real>, level: real): set<Id> {
    set id | id in limits && level < limits[id]
  }

  /** Adding `x` to the entries in `s`. */
  ghost function Raised(m: map<Id, real>, s: set<Id>, x: real): map<Id, real> {
    map id | id in m :: if id in s then m[id] + x else m[id]
  }

  lemma {:induction false} RaisedTotal(m: map<Id, real>, s: set<Id>, x: real)
    requires s <= m.Keys
    ensures Total(Raised(m, s, x)) == Total(m) + Times(|s|, x)
  {
    if s == {} {
      assert Raised(m, s, x) == m;
    } else {
      var id :| id in s;
      RaisedTotal(m, s - {id}, x);
      var r := Raised(m, s - {id}, x);
      TotalSet(r, id, m[id] + x);
      assert Raised(m, s, x) == r[id := m[id] + x];
    }
  }

  /**
   Raising the level by an equal share of the rest costs at most the rest, and exactly
   the rest when nobody is saturated on the way.
   */
  lemma ShareIsAffordable(limits: map<Id, real>, level: real, share: real)
    requires share > 0.0
    ensures var cost := Total(Filled(limits, level)) + Times(|Active(limits, level)|, share);
            && Total(Filled(limits, level + share)) <= cost
            && (Active(limits, level + share) == Active(limits, level) ==>
                  Total(Filled(limits, level + share)) == cost)
  {
    var raised := Raised(Filled(limits, level), Active(limits, level), share);
    RaisedTotal(Filled(limits, level), Active(limits, level), share);
    TotalMonotone(Filled(limits, level + share), raised);
    if Active(limits, level + share) == Active(limits, level) {
      forall id | id in limits ensures Filled(limits, level + share)[id] == raised[id] {
        assert id in Active(limits, level + share) <==> id in Active(limits, level);
      }
      assert Filled(limits, level + share) == raised;
    }
  }

  /** What holds when the outer loop tests its guard. */
  ghost predicate Outer(limits: map<Id, real>, target: real, remaining: real, d: map<Id, real>, level: real) {
    && d.Keys == limits.Keys
    && level >= 0.0
    && (forall id :: id in d ==> 0.0 <= d[id])
    && Total(d) + remaining == target
    && BelowLevel(limits, target, d, level)
    && (remaining > TOLERANCE ==> d == Filled(limits, level))
  }

  lemma OuterEnds(limits: map<Id, real>, target: real, remaining: real, d: map<Id, real>, level: real)
    requires Outer(limits, target, remaining, d, level)
    requires remaining <= TOLERANCE || Active(limits, level) == {}
    ensures NearlyFilled(limits, target, d)
  {
    if remaining > TOLERANCE {
      forall id | id in limits ensures d[id] == limits[id] {
        assert id !in Active(limits, level);
      }
      assert d == limits;
    }
  }

  /** A pass that leaves more than the tolerance has saturated somebody. */
  lemma PassSaturates(limits: map<Id, real>, target: real, level: real, share: real)
    requires share > 0.0
    requires Total(Filled(limits, level)) + Times(|Active(limits, level)|, share) == target
    requires Total(Filled(limits, level + share)) < target
    ensures |Active(limits, level + share)| < |Active(limits, level)|
  {
    ShareIsAffordable(limits, level, share);
    var before, after := Active(limits, level), Active(limits, level + share);
    assert after <= before;
    assert after != before;
    var id :| id in before && id !in after;
    assert after <= before - {id};
    SubsetSize(after, before - {id});
  }

  /** The array `alloc` and the map `d` hold the same powers. */
  ghost predicate Mirrors(order: seq<Vehicle>, alloc: seq<real>, d: map<Id, real>) {
    && |alloc| == |order|
    && d.Keys == Ids(order)
    && forall i :: 0 <= i < |order| ==> order[i].id in d && d[order[i].id] == alloc[i]
  }

  /** Vehicles before position `i` stand at `hi`, the others still at `lo`. */
  ghost predicate Split(order: seq<Vehicle>, alloc: seq<real>, i: nat, lo: real, hi: real)
    requires |alloc| == |order|
  {
    && (forall j :: 0 <= j < |order| && j < i ==> alloc[j] == Min(order[j].maxPower, hi))
    && (forall j :: i <= j < |order| ==> alloc[j] == Min(order[j].maxPower, lo))
  }

  lemma SplitBelow(order: seq<Vehicle>, alloc: seq<real>, i: nat, lo: real, hi: real, d: map<Id, real>)
    requires DistinctIds(order) && Mirrors(order, alloc, d) && Split(order, alloc, i, lo, hi) && lo <= hi
    ensures forall id :: id in d ==> d[id] <= Filled(PowerLimits(order), hi)[id]
    ensures i >= |order| ==> d == Filled(PowerLimits(order), hi)
    ensures i == 0 ==> d == Filled(PowerLimits(order), lo)
  {
    hide PowerLimits;
    LimitKeys(order);
    forall id | id in d
      ensures d[id] <= Filled(PowerLimits(order), hi)[id]
      ensures i >= |order| ==> d[id] == Filled(PowerLimits(order), hi)[id]
      ensures i == 0 ==> d[id] == Filled(PowerLimits(order), lo)[id]
    {
      var v := LimitOwner(order, id);
      var k :| 0 <= k < |order| && order[k] == v;
    }
  }

  lemma FilledSplits(order: seq<Vehicle>, alloc: seq<real>, d: map<Id, real>, level: real, hi: real)
    requires DistinctIds(order) && Mirrors(order, alloc, d) && d == Filled(PowerLimits(order), level)
    ensures Split(order, alloc, 0, level, hi)
  {
    forall j | 0 <= j < |order| ensures alloc[j] == Min(order[j].maxPower, level) {
      PowerLimitOf(order, order[j]);
    }
  }

  lemma MirrorsUpdate(order: seq<Vehicle>, alloc: seq<real>, d: map<Id, real>, i: nat, x: real)
    requires DistinctIds(order) && Mirrors(order, alloc, d) && i < |order|
    ensures Mirrors(order, alloc[i := x], d[order[i].id := x])
    ensures Total(d[order[i].id := x]) == Total(d) - alloc[i] + x
  {
    assert order[i] in order;
    TotalSet(d, order[i].id, x);
  }

  /** Among the first `i` vehicles, `seen` are those above the level. */
  ghost predicate Counted(order: seq<Vehicle>, i: nat, level: real, seen: set<Id>)
    requires i <= |order|
  {
    && seen <= Ids(order[..i])
    && forall j :: 0 <= j < i ==> (order[j].id in seen <==> level < order[j].maxPower)
  }

  lemma CountedNext(order: seq<Vehicle>, i: nat, level: real, seen: set<Id>)
    requires DistinctIds(order) && i < |order| && Counted(order, i, level, seen)
    ensures order[i].id !in seen
    ensures Counted(order, i + 1, level, if level < order[i].maxPower then seen + {order[i].id} else seen)
  {
    assert order[..i + 1] == order[..i] + [order[i]];
    assert order[i].id !in Ids(order[..i]);
  }

  /** The first inner loop: how many vehicles are below their limit. */
  method CountActive(order: seq<Vehicle>, alloc: array<real>, ghost d: map<Id, real>, ghost level: real)
    returns (active: nat)
    requires DistinctIds(order) && alloc.Length == |order|
    requires Mirrors(order, alloc[..], d) && d == Filled(PowerLimits(order), level)
    ensures active == |Active(PowerLimits(order), level)|
  {
    hide PowerLimits, Counted;
    FilledSplits(order, alloc[..], d, level, level);
    assert forall j :: 0 <= j < |order| ==> alloc[j] == alloc[..][j] == Min(order[j].maxPower, level);
    CountedNone(order, level);
    active := 0;
    ghost var seen: set<Id> := {};
    for i := 0 to |order|
      invariant Counted(order, i, level, seen)
      invariant active == |seen|
    {
      CountedNext(order, i, level, seen);
      if alloc[i] < order[i].maxPower {
        active := active + 1;
        seen := seen + {order[i].id};
      }
    }
    SeenIsActive(order, level, seen);
  }

  lemma CountedNone(order: seq<Vehicle>, level: real)
    ensures Counted(order, 0, level, {})
  {
  }

  lemma SeenIsActive(order: seq<Vehicle>, level: real, seen: set<Id>)
    requires DistinctIds(order) && Counted(order, |order|, level, seen)
    ensures seen == Active(PowerLimits(order), level)
  {
    hide PowerLimits;
    LimitKeys(order);
    assert order[..|order|] == order;
    forall id | id in Ids(order) ensures id in seen <==> id in Active(PowerLimits(order), level) {
      var v := LimitOwner(order, id);
      var k :| 0 <= k < |order| && order[k] == v;
    }
  }

  lemma SplitNext(order: seq<Vehicle>, alloc: seq<real>, i: nat, lo: real, hi: real, d: map<Id, real>)
    requires DistinctIds(order) && Mirrors(order, alloc, d) && Split(order, alloc, i, lo, hi) && lo <= hi
    requires i < |order|
    ensures var x := Min(order[i].maxPower, hi);
            && alloc[i] == Min(order[i].maxPower, lo)
            && (alloc[i] == x ==> Split(order, alloc, i + 1, lo, hi))
            && Split(order, alloc[i := x], i + 1, lo, hi)
  {
  }

  /** Everything the second inner loop keeps true; `d0` is where it started. */
  ghost predicate Inner(order: seq<Vehicle>, alloc: seq<real>, i: nat, lo: real, hi: real,
                        spent: real, d0: map<Id, real>, d: map<Id, real>) {
    && Mirrors(order, alloc, d)
    && Split(order, alloc, i, lo, hi)
    && Total(d) == Total(d0) + spent
    && d.Keys == d0.Keys
    && forall id :: id in d ==> d0[id] <= d[id]
  }

  lemma InnerNext(order: seq<Vehicle>, alloc: seq<real>, i: nat, lo: real, hi: real,
                  spent: real, d0: map<Id, real>, d: map<Id, real>)
    requires DistinctIds(order) && lo <= hi && i < |order|
    requires Inner(order, alloc, i, lo, hi, spent, d0, d)
    ensures var x := Min(order[i].maxPower, hi);
            && |alloc| == |order|
            && alloc[i] == Min(order[i].maxPower, lo)
            && (alloc[i] == x ==> Inner(order, alloc, i + 1, lo, hi, spent, d0, d))
            && Inner(order, alloc[i := x], i + 1, lo, hi, spent + (x - alloc[i]), d0, d[order[i].id := x])
  {
    var x := Min(order[i].maxPower, hi);
    hide Total, Split;
    SplitNext(order, alloc, i, lo, hi, d);
    MirrorsUpdate(order, alloc, d, i, x);
  }

  lemma InnerStarts(order: seq<Vehicle>, alloc: seq<real>, level: real, hi: real, d: map<Id, real>)
    requires DistinctIds(order) && Mirrors(order, alloc, d) && d == Filled(PowerLimits(order), level)
    ensures Inner(order, alloc, 0, level, hi, 0.0, d, d)
  {
    FilledSplits(order, alloc, d, level, hi);
  }

  lemma InnerEnds(order: seq<Vehicle>, alloc: seq<real>, i: nat, lo: real, hi: real,
                  spent: real, d0: map<Id, real>, d: map<Id, real>)
    requires DistinctIds(order) && lo <= hi && Inner(order, alloc, i, lo, hi, spent, d0, d)
    ensures Mirrors(order, alloc, d) && Total(d) == Total(d0) + spent
    ensures d.Keys == d0.Keys && forall id :: id in d ==> d0[id] <= d[id]
    ensures forall id :: id in d ==> d[id] <= Filled(PowerLimits(order), hi)[id]
    ensures i >= |order| ==> d == Filled(PowerLimits(order), hi)
  {
    SplitBelow(order, alloc, i, lo, hi, d);
  }

  // ----- who is reached

  /** Power that lifting the first `k` vehicles from `lo` to `hi` takes. */
  ghost function Lift(order: seq<Vehicle>, k: nat, lo: real, hi: real): real
    requires k <= |order|
  {
    if k == 0 then 0.0
    else Lift(order, k - 1, lo, hi) + (Min(order[k - 1].maxPower, hi) - Min(order[k - 1].maxPower, lo))
  }

  lemma {:induction false} LiftGrows(order: seq<Vehicle>, i: nat, k: nat, lo: real, hi: real)
    requires lo <= hi && i <= k <= |order|
    ensures Lift(order, i, lo, hi) <= Lift(order, k, lo, hi)
    decreases k
  {
    if i < k {
      LiftGrows(order, i, k - 1, lo, hi);
    }
  }

  /** The pass has come to position `i` with more than the tolerance in hand at every vehicle before it. */
  ghost predicate Walked(order: seq<Vehicle>, i: nat, lo: real, hi: real, start: real, remaining: real)
    requires i <= |order|
  {
    && remaining == start - Lift(order, i, lo, hi)
    && forall k :: 0 <= k < i ==> start - Lift(order, k, lo, hi) > TOLERANCE
  }

  lemma WalkedNext(order: seq<Vehicle>, i: nat, lo: real, hi: real, start: real, remaining: real)
    requires i < |order| && Walked(order, i, lo, hi, start, remaining) && remaining > TOLERANCE
    ensures Walked(order, i + 1, lo, hi, start,
                   remaining - (Min(order[i].maxPower, hi) - Min(order[i].maxPower, lo)))
  {
  }

  lemma WalkedNone(order: seq<Vehicle>, lo: real, hi: real, start: real)
    ensures Walked(order, 0, lo, hi, start, start)
  {
  }

  /** What a pass leaves: the vehicles before `reached` are lifted, and only a lack of power stops it early. */
  ghost predicate PassDone(order: seq<Vehicle>, alloc: seq<real>, lo: real, hi: real, start: real, remaining: real, reached: nat) {
    && |alloc| == |order| && reached <= |order|
    && Split(order, alloc, reached, lo, hi)
    && Walked(order, reached, lo, hi, start, remaining)
    && (reached < |order| ==> remaining <= TOLERANCE)
  }

  lemma PassIsDone(order: seq<Vehicle>, alloc: seq<real>, lo: real, hi: real, start: real, remaining: real, reached: nat,
                   d0: map<Id, real>, d: map<Id, real>)
    requires reached <= |order| && Inner(order, alloc, reached, lo, hi, start - remaining, d0, d)
    requires Walked(order, reached, lo, hi, start, remaining) && (reached < |order| ==> remaining <= TOLERANCE)
    ensures PassDone(order, alloc, lo, hi, start, remaining, reached)
  {
  }

  ghost function PositiveIds(order: seq<Vehicle>): set<Id> {
    set v | v in order && v.maxPower > 0.0 :: v.id
  }

  /** The share of the first pass: the target over the number of vehicles that can take any power. */
  ghost function FirstShare(order: seq<Vehicle>, target: real): (share: real)
    ensures share >= 0.0
  {
    var active := |PositiveIds(order)|;
    if active == 0 || target <= 0.0 then 0.0 else FirstShareOf(target, active)
  }

  ghost function FirstShareOf(target: real, active: nat): (share: real)
    requires active > 0 && target > 0.0
    ensures share > 0.0 && share == target / active as real
  {
    target / active as real
  }

  /** Power handed to the first `k` vehicles in the first pass. */
  ghost function HandedOut(order: seq<Vehicle>, target: real, k: nat): real
    requires k <= |order|
  {
    if k == 0 then 0.0
    else HandedOut(order, target, k - 1) + Min(order[k - 1].maxPower, FirstShare(order, target))
  }

  /** The vehicle at position `k` gets power: it can take some, and the first pass reaches it with more than the tolerance. */
  ghost predicate Reached(order: seq<Vehicle>, target: real, k: nat)
    requires k < |order|
  {
    order[k].maxPower > 0.0 && target - HandedOut(order, target, k) > TOLERANCE
  }

  ghost predicate Served(order: seq<Vehicle>, target: real, alloc: seq<real>) {
    |alloc| == |order| && forall k :: 0 <= k < |order| ==> (alloc[k] > 0.0 <==> Reached(order, target, k))
  }

  ghost predicate AllServed(order: seq<Vehicle>, alloc: seq<real>) {
    |alloc| == |order| && forall k :: 0 <= k < |order| ==> (alloc[k] > 0.0 <==> order[k].maxPower > 0.0)
  }

  ghost predicate NonnegativePowers(order: seq<Vehicle>) {
    forall v :: v in order ==> v.maxPower >= 0.0
  }

  lemma {:induction false} HandedOutIsLift(order: seq<Vehicle>, target: real, k: nat)
    requires NonnegativePowers(order) && k <= |order|
    ensures HandedOut(order, target, k) == Lift(order, k, 0.0, FirstShare(order, target))
  {
    hide FirstShare;
    if k > 0 {
      assert order[k - 1] in order;
      HandedOutIsLift(order, target, k - 1);
    }
  }

  /** After the first pass, power is where the first pass got. */
  lemma FirstPassServes(order: seq<Vehicle>, target: real, alloc: seq<real>, share: real, remaining: real, reached: nat)
    requires NonnegativePowers(order) && share == FirstShare(order, target) > 0.0
    requires PassDone(order, alloc, 0.0, share, target, remaining, reached)
    ensures Served(order, target, alloc)
    ensures remaining > TOLERANCE ==> AllServed(order, alloc)
  {
    hide FirstShare, HandedOut, Lift;
    forall k | 0 <= k < |order|
      ensures alloc[k] > 0.0 <==> Reached(order, target, k)
      ensures k < reached ==> (alloc[k] > 0.0 <==> order[k].maxPower > 0.0)
    {
      assert order[k] in order;
      HandedOutIsLift(order, target, k);
      if k >= reached {
        LiftGrows(order, reached, k, 0.0, share);
      }
    }
  }

  /** Later passes only run when everybody has been reached, and take nothing away. */
  lemma LaterPassServes(order: seq<Vehicle>, target: real, before: seq<real>, alloc: seq<real>)
    requires Served(order, target, before) && AllServed(order, before) && |alloc| == |order|
    requires forall k :: 0 <= k < |order| ==> before[k] <= alloc[k] <= order[k].maxPower
    ensures Served(order, target, alloc) && AllServed(order, alloc)
  {
    hide Reached;
  }

  lemma NoPassServes(order: seq<Vehicle>, target: real, alloc: seq<real>)
    requires NonnegativePowers(order) && |alloc| == |order| && forall k :: 0 <= k < |order| ==> alloc[k] == 0.0
    requires target <= TOLERANCE || forall v :: v in order ==> v.maxPower <= 0.0
    ensures Served(order, target, alloc)
  {
    forall k | 0 <= k < |order| ensures !Reached(order, target, k) {
      assert order[k] in order;
      HandedOutIsLift(order, target, k);
      LiftGrows(order, 0, k, 0.0, FirstShare(order, target));
    }
  }

  /** Everybody gets power exactly when everybody can take some and the last one is still reached. */
  lemma EverybodyReachedIff(order: seq<Vehicle>, target: real)
    requires NonnegativePowers(order)
    ensures (forall k :: 0 <= k < |order| ==> Reached(order, target, k))
       <==> (forall v :: v in order ==> v.maxPower > 0.0)
            && (order != [] ==> target - HandedOut(order, target, |order| - 1) > TOLERANCE)
  {
    hide FirstShare, HandedOut;
    if (forall v :: v in order ==> v.maxPower > 0.0)
       && (order != [] ==> target - HandedOut(order, target, |order| - 1) > TOLERANCE)
    {
      forall k | 0 <= k < |order| ensures Reached(order, target, k) {
        assert order[k] in order;
        HandedOutIsLift(order, target, k);
        HandedOutIsLift(order, target, |order| - 1);
        LiftGrows(order, k, |order| - 1, 0.0, FirstShare(order, target));
      }
    }
    if forall k :: 0 <= k < |order| ==> Reached(order, target, k) {
      forall v | v in order ensures v.maxPower > 0.0 {
        var k :| 0 <= k < |order| && order[k] == v;
        assert Reached(order, target, k);
      }
      if order != [] {
        assert Reached(order, target, |order| - 1);
      }
    }
  }

  /** Two vehicles and a target of 1.5e-6 kW: the first takes half, and the rest is below the tolerance. */
  lemma SecondVehicleIsLeftOut(order: seq<Vehicle>)
    requires |order| == 2 && order[0].id != order[1].id && order[0].maxPower >= 1.0 && order[1].maxPower >= 1.0
    ensures Reached(order, 0.0000015, 0) && !Reached(order, 0.0000015, 1)
  {
    assert order == [order[0], order[1]];
    assert order[0] in order && order[1] in order;
    assert PositiveIds(order) == {order[0].id, order[1].id};
    assert HandedOut(order, 0.0000015, 0) == 0.0;
    assert HandedOut(order, 0.0000015, 1) == HandedOut(order, 0.0000015, 0) + Min(order[0].maxPower, FirstShare(order, 0.0000015));
  }

  // ----- the second inner loop

  /**
   The second inner loop.  Either it stops early because the rest is within the tolerance,
   or it lifts everybody to `level + share`.
   */
  method GivePass(order: seq<Vehicle>, alloc: array<real>, share: real, remaining0: real,
                  ghost d0: map<Id, real>, ghost level: real)
    returns (remaining: real, progress: bool, ghost d: map<Id, real>, ghost reached: nat)
    requires DistinctIds(order) && alloc.Length == |order|
    requires Mirrors(order, alloc[..], d0) && d0 == Filled(PowerLimits(order), level)
    requires share > 0.0 && remaining0 > TOLERANCE
    modifies alloc
    ensures Mirrors(order, alloc[..], d)
    ensures Total(d) + remaining == Total(d0) + remaining0
    ensures d.Keys == d0.Keys && forall id :: id in d ==> d0[id] <= d[id]
    ensures forall id :: id in d ==> d[id] <= Filled(PowerLimits(order), level + share)[id]
    ensures remaining > TOLERANCE ==> d == Filled(PowerLimits(order), level + share)
    ensures Active(PowerLimits(order), level) != {} ==> progress
    ensures PassDone(order, alloc[..], level, level + share, remaining0, remaining, reached)
  {
    hide PowerLimits, Total, Mirrors, Inner, Walked, PassDone;
    reached := 0;
    remaining, progress, d := remaining0, false, d0;
    ghost var top := level + share;
    InnerStarts(order, alloc[..], level, top, d0);
    WalkedNone(order, level, top, remaining0);
    var i := 0;
    while i < |order|
      invariant 0 <= i <= |order| == alloc.Length
      invariant Inner(order, alloc[..], i, level, top, remaining0 - remaining, d0, d)
      invariant remaining > TOLERANCE
      invariant Walked(order, i, level, top, remaining0, remaining)
      invariant !progress ==> forall j :: 0 <= j < i ==> order[j].maxPower <= level
    {
      var v := order[i];
      ghost var was := alloc[..];
      InnerNext(order, was, i, level, top, remaining0 - remaining, d0, d);
      assert was[i] == alloc[i];
      WalkedNext(order, i, level, top, remaining0, remaining);
      i := i + 1;
      if alloc[i - 1] >= v.maxPower {
        continue;
      }
      var give := share;
      if alloc[i - 1] + give > v.maxPower {
        give := v.maxPower - alloc[i - 1];
      }
      if give <= 0.0 {
        continue;
      }
      alloc[i - 1] := alloc[i - 1] + give;
      remaining := remaining - give;
      progress := true;
      d := d[v.id := Min(v.maxPower, top)];
      assert alloc[..] == was[i - 1 := Min(v.maxPower, top)];
      if remaining <= TOLERANCE {
        break;
      }
    }
    reached := i;
    PassIsDone(order, alloc[..], level, top, remaining0, remaining, reached, d0, d);
    InnerEnds(order, alloc[..], i, level, top, remaining0 - remaining, d0, d);
    if !progress {
      NobodyActive(order, level);
    }
  }

  lemma NobodyActive(order: seq<Vehicle>, level: real)
    requires DistinctIds(order)
    requires forall j :: 0 <= j < |order| ==> order[j].maxPower <= level
    ensures Active(PowerLimits(order), level) == {}
  {
    forall id | id in PowerLimits(order) ensures PowerLimits(order)[id] <= level {
      var v := LimitOwner(order, id);
    }
  }

  // ----- the whole function

  lemma OuterStarts(order: seq<Vehicle>, target: real, d: map<Id, real>)
    requires DistinctIds(order) && forall v :: v in order ==> v.maxPower >= 0.0
    requires d == map id | id in Ids(order) :: 0.0
    ensures Outer(PowerLimits(order), target, target, d, 0.0)
  {
    hide PowerLimits;
    var limits := PowerLimits(order);
    LimitKeys(order);
    forall id | id in d ensures Filled(limits, 0.0)[id] == 0.0 {
      var v := LimitOwner(order, id);
    }
    assert d == Filled(limits, 0.0);
    ZeroTotal(d);
  }

  lemma EqualShare(remaining: real, active: nat)
    requires remaining > 0.0 && active > 0
    ensures remaining / active as real > 0.0
    ensures Times(active, remaining / active as real) == remaining
  {
    TimesIsProduct(active, remaining / active as real);
  }

  /** What one pass does to the outer loop: it ends the loop or shrinks the set of active vehicles. */
  lemma OuterNext(limits: map<Id, real>, target: real, remaining0: real, d0: map<Id, real>, level: real,
                  share: real, remaining: real, d: map<Id, real>)
    requires Outer(limits, target, remaining0, d0, level) && remaining0 > TOLERANCE && share > 0.0
    requires Times(|Active(limits, level)|, share) == remaining0
    requires Total(d) + remaining == target
    requires d.Keys == d0.Keys && forall id :: id in d ==> d0[id] <= d[id]
    requires forall id :: id in d ==> d[id] <= Filled(limits, level + share)[id]
    requires remaining > TOLERANCE ==> d == Filled(limits, level + share)
    ensures Outer(limits, target, remaining, d, level + share)
    ensures remaining > TOLERANCE ==> |Active(limits, level + share)| < |Active(limits, level)|
  {
    hide Total;
    ShareIsAffordable(limits, level, share);
    if remaining > TOLERANCE {
      PassSaturates(limits, target, level, share);
    }
    TotalMonotone(d0, d);
    TotalMonotone(d, Filled(limits, level + share));
    NonnegativeTotal(d0);
  }

  /** What the loop over passes keeps true. */
  ghost predicate Filling(order: seq<Vehicle>, target: real, remaining: real, alloc: seq<real>,
                          d: map<Id, real>, level: real, passes: nat)
    requires DistinctIds(order)
  {
    && Mirrors(order, alloc, d)
    && Outer(PowerLimits(order), target, remaining, d, level)
    && (passes == 0 ==> level == 0.0 && remaining == target && forall i :: 0 <= i < |alloc| ==> alloc[i] == 0.0)
    && (passes > 0 ==> Served(order, target, alloc) && (remaining > TOLERANCE ==> AllServed(order, alloc)))
  }

  lemma FillingStarts(order: seq<Vehicle>, target: real, alloc: seq<real>, d: map<Id, real>)
    requires DistinctIds(order) && NonnegativePowers(order) && d == map id | id in Ids(order) :: 0.0
    requires |alloc| == |order| && forall i :: 0 <= i < |alloc| ==> alloc[i] == 0.0
    ensures Filling(order, target, target, alloc, d, 0.0, 0)
  {
    hide Outer;
    OuterStarts(order, target, d);
    assert forall i :: 0 <= i < |order| ==> order[i] in order;
  }

  lemma FillingEnds(order: seq<Vehicle>, target: real, remaining: real, alloc: seq<real>,
                    d: map<Id, real>, level: real, passes: nat)
    requires DistinctIds(order) && NonnegativePowers(order)
    requires Filling(order, target, remaining, alloc, d, level, passes)
    requires remaining <= TOLERANCE || Active(PowerLimits(order), level) == {}
    ensures Mirrors(order, alloc, d) && NearlyFilled(PowerLimits(order), target, d) && Served(order, target, alloc)
  {
    hide Outer, NearlyFilled, Served, AllServed, Active, PowerLimits;
    OuterEnds(PowerLimits(order), target, remaining, d, level);
    if passes == 0 {
      NobodyServed(order, target, alloc, remaining);
    }
  }

  lemma FillingNext(order: seq<Vehicle>, target: real, before: real, was: seq<real>, d0: map<Id, real>, level: real,
                    passes: nat, share: real, remaining: real, alloc: seq<real>, d: map<Id, real>, reached: nat)
    requires DistinctIds(order) && NonnegativePowers(order) && before > TOLERANCE && share > 0.0
    requires Filling(order, target, before, was, d0, level, passes)
    requires |Active(PowerLimits(order), level)| > 0 && share == before / |Active(PowerLimits(order), level)| as real
    requires Mirrors(order, alloc, d) && Total(d) + remaining == Total(d0) + before
    requires d.Keys == d0.Keys && forall id :: id in d ==> d0[id] <= d[id]
    requires d.Keys == PowerLimits(order).Keys && forall id :: id in d ==> d[id] <= Filled(PowerLimits(order), level + share)[id]
    requires remaining > TOLERANCE ==> d == Filled(PowerLimits(order), level + share)
    requires PassDone(order, alloc, level, level + share, before, remaining, reached)
    ensures Filling(order, target, remaining, alloc, d, level + share, passes + 1)
    ensures remaining > TOLERANCE ==> |Active(PowerLimits(order), level + share)| < |Active(PowerLimits(order), level)|
  {
    hide PowerLimits, Outer, Served, AllServed, PassDone, Active, Total, Filled;
    var limits := PowerLimits(order);
    OuterExact(limits, target, before, d0, level);
    EqualShare(before, |Active(limits, level)|);
    OuterNext(limits, target, before, d0, level, share, remaining, d);
    PassServes(order, target, passes, was, alloc, d0, d, level, share, before, remaining, reached);
  }

  /**
   The loop over passes.  `order` is whatever order the sort by MaxPower leaves the fleet in.
   Each pass saturates a vehicle or ends the loop, and who gets any power is settled by the
   first pass.
   */
  method Fill(order: seq<Vehicle>, target: real, alloc: array<real>) returns (ghost d: map<Id, real>)
    requires DistinctIds(order) && NonnegativePowers(order)
    requires alloc.Length == |order| && forall i :: 0 <= i < alloc.Length ==> alloc[i] == 0.0
    modifies alloc
    ensures Mirrors(order, alloc[..], d)
    ensures NearlyFilled(PowerLimits(order), target, d)
    ensures Served(order, target, alloc[..])
  {
    hide PowerLimits, Total, Filling, Mirrors, NonnegativePowers, Served, NearlyFilled, PassDone;
    var remaining := target;
    ghost var level, passes := 0.0, 0;
    d := map id | id in Ids(order) :: 0.0;
    FillingStarts(order, target, alloc[..], d);
    while remaining > TOLERANCE
      invariant Filling(order, target, remaining, alloc[..], d, level, passes)
      decreases if remaining > TOLERANCE then |Active(PowerLimits(order), level)| + 1 else 0
    {
      FillingMeans(order, target, remaining, alloc[..], d, level, passes);
      var active := CountActive(order, alloc, d, level);
      if active == 0 {
        break;
      }
      var share := remaining / active as real;
      EqualShare(remaining, active);
      ghost var d0, before, was := d, remaining, alloc[..];
      var progress;
      ghost var reached;
      remaining, progress, d, reached := GivePass(order, alloc, share, remaining, d, level);
      FillingNext(order, target, before, was, d0, level, passes, share, remaining, alloc[..], d, reached);
      level, passes := level + share, passes + 1;
      if !progress {
        break;
      }
    }
    FillingEnds(order, target, remaining, alloc[..], d, level, passes);
  }

  lemma FillingMeans(order: seq<Vehicle>, target: real, remaining: real, alloc: seq<real>,
                     d: map<Id, real>, level: real, passes: nat)
    requires DistinctIds(order) && Filling(order, target, remaining, alloc, d, level, passes) && remaining > TOLERANCE
    ensures Mirrors(order, alloc, d) && d == Filled(PowerLimits(order), level)
  {
  }

  /** Nobody is active at level 0, or there is not enough power: no pass, and nobody reached. */
  lemma NobodyServed(order: seq<Vehicle>, target: real, alloc: seq<real>, remaining: real)
    requires DistinctIds(order) && NonnegativePowers(order) && remaining == target
    requires |alloc| == |order| && forall k :: 0 <= k < |order| ==> alloc[k] == 0.0
    requires remaining <= TOLERANCE || Active(PowerLimits(order), 0.0) == {}
    ensures Served(order, target, alloc)
  {
    hide PowerLimits;
    if remaining > TOLERANCE {
      forall v | v in order ensures v.maxPower <= 0.0 {
        PowerLimitOf(order, v);
        assert v.id !in Active(PowerLimits(order), 0.0);
      }
    }
    NoPassServes(order, target, alloc);
  }

  lemma ActiveAtZero(order: seq<Vehicle>)
    requires DistinctIds(order)
    ensures Active(PowerLimits(order), 0.0) == PositiveIds(order)
  {
    hide PowerLimits;
    LimitKeys(order);
    forall id ensures id in Active(PowerLimits(order), 0.0) <==> id in PositiveIds(order) {
      if id in Active(PowerLimits(order), 0.0) {
        var v := LimitOwner(order, id);
      }
      if id in PositiveIds(order) {
        var v :| v in order && v.maxPower > 0.0 && v.id == id;
        PowerLimitOf(order, v);
      }
    }
  }

  /** Every pass, the first or a later one, keeps who gets power as the first pass settles it. */
  lemma PassServes(order: seq<Vehicle>, target: real, passes: nat, was: seq<real>, alloc: seq<real>,
                   d0: map<Id, real>, d: map<Id, real>, level: real, share: real, before: real, remaining: real, reached: nat)
    requires DistinctIds(order) && NonnegativePowers(order) && share > 0.0 && before > TOLERANCE
    requires Mirrors(order, was, d0) && Mirrors(order, alloc, d)
    requires forall id :: id in d0 && id in d ==> d0[id] <= d[id]
    requires d.Keys == PowerLimits(order).Keys && forall id :: id in d ==> d[id] <= Filled(PowerLimits(order), level + share)[id]
    requires |Active(PowerLimits(order), level)| > 0 && share == before / |Active(PowerLimits(order), level)| as real
    requires PassDone(order, alloc, level, level + share, before, remaining, reached)
    requires passes == 0 ==> level == 0.0 && before == target
    requires passes > 0 ==> Served(order, target, was) && AllServed(order, was)
    ensures Served(order, target, alloc) && (remaining > TOLERANCE ==> AllServed(order, alloc))
  {
    hide PowerLimits, Served, AllServed, PassDone;
    if passes == 0 {
      ActiveAtZero(order);
      FirstPassServes(order, target, alloc, share, remaining, reached);
    } else {
      forall k | 0 <= k < |order| ensures was[k] <= alloc[k] <= order[k].maxPower {
        assert order[k] in order;
        PowerLimitOf(order, order[k]);
      }
      LaterPassServes(order, target, was, alloc);
    }
  }

  lemma OuterExact(limits: map<Id, real>, target: real, remaining: real, d: map<Id, real>, level: real)
    requires Outer(limits, target, remaining, d, level) && remaining > TOLERANCE
    ensures d == Filled(limits, level) && Total(d) + remaining == target
  {
  }

  ghost function PowerSum(entries: seq<Entry>): real {
    if entries == [] then 0.0 else PowerSum(entries[..|entries| - 1]) + entries[|entries| - 1].power
  }

  ghost function EntryIds(entries: seq<Entry>): set<Id> {
    set e | e in entries :: e.id
  }

  /** The entries are the positive powers of `d`, all of them, one per vehicle. */
  ghost predicate Lists(entries: seq<Entry>, slot: int, d: map<Id, real>) {
    && (forall e :: e in entries ==> e.slot == slot && e.id in d && e.power == d[e.id] && e.power > 0.0)
    && (forall i, j :: 0 <= i < j < |entries| ==> entries[i].id != entries[j].id)
    && PowerSum(entries) == Total(d)
    && forall id :: id in d && d[id] > 0.0 ==> id in EntryIds(entries)
  }

  lemma ListsNext(entries: seq<Entry>, slot: int, d: map<Id, real>, id: Id, x: real)
    requires Lists(entries, slot, d) && id !in d && x >= 0.0
    ensures Lists(if x > 0.0 then entries + [Entry(id, slot, x)] else entries, slot, d[id := x])
  {
    hide Total;
    TotalSet(d, id, x);
    var more := entries + [Entry(id, slot, x)];
    assert more[..|more| - 1] == entries;
    forall e | e in entries ensures e.id != id {
    }
  }

  lemma IdsGrow(order: seq<Vehicle>, i: nat)
    requires DistinctIds(order)
    ensures Ids(order[..0]) == {}
    ensures i < |order| ==> order[i].id !in Ids(order[..i]) && Ids(order[..i + 1]) == Ids(order[..i]) + {order[i].id}
  {
    if i < |order| {
      assert order[..i + 1] == order[..i] + [order[i]];
    }
  }

  /** The last loop: an entry for every vehicle with power. */
  method ListEntries(slot: int, order: seq<Vehicle>, alloc: array<real>, ghost d: map<Id, real>) returns (entries: seq<Entry>)
    requires DistinctIds(order) && Mirrors(order, alloc[..], d) && forall id :: id in d ==> 0.0 <= d[id]
    ensures Lists(entries, slot, d)
  {
    hide Lists, Total, PowerSum, DistinctIds, Ids;
    entries := [];
    ghost var seen: map<Id, real> := map[];
    ListsNone(slot);
    IdsGrow(order, 0);
    for i := 0 to |order|
      invariant seen.Keys == Ids(order[..i])
      invariant forall id :: id in seen ==> id in d && seen[id] == d[id]
      invariant Lists(entries, slot, seen)
    {
      var v := order[i];
      IdsGrow(order, i);
      assert alloc[..][i] == alloc[i];
      ListsNext(entries, slot, seen, v.id, alloc[i]);
      seen := seen[v.id := alloc[i]];
      if alloc[i] > 0.0 {
        entries := entries + [Entry(v.id, slot, alloc[i])];
      }
    }
    assert order[..|order|] == order;
    assert seen == d;
  }

  /** The entries of one slot: they list an allocation that nearly fills the target. */
  method Distribute(slot: int, order: seq<Vehicle>, target: real)
    returns (entries: seq<Entry>, ghost d: map<Id, real>)
    requires DistinctIds(order) && NonnegativePowers(order)
    ensures NearlyFilled(PowerLimits(order), target, d)
    ensures Lists(entries, slot, d)
    ensures forall e :: e in entries ==> e.slot == slot && e.power > 0.0 && e.id in Ids(order)
    ensures forall i, j :: 0 <= i < j < |entries| ==> entries[i].id != entries[j].id
    ensures forall k :: 0 <= k < |order| ==> (order[k].id in EntryIds(entries) <==> Reached(order, target, k))
  {
    hide Lists, NearlyFilled, Total, PowerLimits, PowerSum, Reached, EntryIds;
    var alloc := new real[|order|](_ => 0.0);
    d := Fill(order, target, alloc);
    NearlyFilledNonnegative(PowerLimits(order), target, d);
    entries := ListEntries(slot, order, alloc, d);
    ListsMean(entries, slot, d);
    forall k | 0 <= k < |order| ensures order[k].id in EntryIds(entries) <==> Reached(order, target, k) {
      ListsWho(entries, slot, d, order[k].id);
      assert alloc[..][k] == d[order[k].id];
    }
  }

  lemma ListsWho(entries: seq<Entry>, slot: int, d: map<Id, real>, id: Id)
    requires Lists(entries, slot, d) && id in d
    ensures id in EntryIds(entries) <==> d[id] > 0.0
  {
    hide Total, PowerSum;
  }

  lemma ListsMean(entries: seq<Entry>, slot: int, d: map<Id, real>)
    requires Lists(entries, slot, d)
    ensures forall e :: e in entries ==> e.slot == slot && e.power > 0.0 && e.id in d.Keys
    ensures forall i, j :: 0 <= i < j < |entries| ==> entries[i].id != entries[j].id
  {
  }

  lemma ListsNone(slot: int)
    ensures Lists([], slot, map[])
  {
  }

  lemma NearlyFilledNonnegative(limits: map<Id, real>, target: real, d: map<Id, real>)
    requires NearlyFilled(limits, target, d)
    ensures forall id :: id in d ==> 0.0 <= d[id]
  {
  }
}
