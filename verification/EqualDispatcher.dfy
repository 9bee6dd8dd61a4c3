/**
 EqualDispatcher.Dispatch (core/dispatch/dispatcher.go) computes the water-filling
 allocation, for every request of either sign.
 */
module EqualDispatcher {
  import opened Totals
  import opened Fleet
  import opened WaterFilling

  datatype Pass = Pass(kept: seq<Vehicle>, remaining: real, given: map<Id, real>)

  /** One iteration of the inner loop over `needMore`; `kept` holds the vehicle if it stays. */
  function Visit(remaining: real, given: map<Id, real>, v: Vehicle, share: real): Pass {
    var have := Get(given, v.id);
    var cap := v.maxPower - have;
    if cap <= 0.0 then Pass([], remaining, given)
    else
      var add := if cap < share then cap else share;
      var left := remaining - add;
      Pass(if have + add < v.maxPower && left > 0.0 then [v] else [], left, given[v.id := have + add])
  }

  /** The whole inner loop over the vehicles `rest`. */
  function TopUp(remaining: real, given: map<Id, real>, rest: seq<Vehicle>, share: real): Pass
    decreases |rest|
  {
    if rest == [] then Pass([], remaining, given)
    else
      var p := Visit(remaining, given, rest[0], share);
      var q := TopUp(p.remaining, p.given, rest[1..], share);
      q.(kept := p.kept + q.kept)
  }

  /** Vehicles that all stand at `level` and have room for it. */
  ghost predicate AtLevel(vs: seq<Vehicle>, given: map<Id, real>, level: real) {
    && DistinctIds(vs)
    && forall v :: v in vs ==> v.id in given && given[v.id] == level <= v.maxPower
  }

  /** A visit lifts one vehicle from `level` to `level + share` or its limit. */
  lemma VisitLifts(remaining: real, given: map<Id, real>, v: Vehicle, share: real, level: real)
    requires v.id in given && given[v.id] == level <= v.maxPower && share > 0.0
    ensures var p, goal := Visit(remaining, given, v, share), Min(v.maxPower, level + share);
            && p.given == given[v.id := goal]
            && p.remaining == remaining - (goal - level)
            && Total(p.given) + p.remaining == Total(given) + remaining
            && p.kept == (if level + share < v.maxPower && p.remaining > 0.0 then [v] else [])
  {
    TotalSet(given, v.id, Min(v.maxPower, level + share));
    assert given[v.id := level] == given;
  }

  lemma TailAtLevel(rest: seq<Vehicle>, given: map<Id, real>, level: real, x: real)
    requires rest != [] && AtLevel(rest, given, level)
    ensures AtLevel(rest[1..], given[rest[0].id := x], level)
    ensures rest[0].id !in Ids(rest[1..]) && Ids(rest) == {rest[0].id} + Ids(rest[1..])
  {
    var tail := rest[1..];
    assert rest == [rest[0]] + tail;
    forall v | v in tail ensures v.id != rest[0].id {
      var i :| 0 <= i < |tail| && tail[i] == v;
      assert rest[i + 1] == v;
    }
  }

  /** There is a share for each of `n` vehicles. */
  ghost predicate Affordable(remaining: real, share: real, n: nat) {
    remaining >= share * n as real
  }

  lemma NothingToAfford(remaining: real, share: real)
    requires Affordable(remaining, share, 0)
    ensures remaining >= 0.0
  {
  }

  /** After the first visit the rest of the pass starts from the same situation. */
  lemma VisitThenRest(remaining: real, given: map<Id, real>, rest: seq<Vehicle>, share: real, level: real)
    requires rest != [] && AtLevel(rest, given, level)
    requires share > 0.0 && Affordable(remaining, share, |rest|)
    ensures var p, v := Visit(remaining, given, rest[0], share), rest[0];
            && AtLevel(rest[1..], p.given, level)
            && Affordable(p.remaining, share, |rest[1..]|)
            && share * |rest[1..]| as real <= p.remaining <= remaining
            && (remaining == share * |rest| as real && level + share < v.maxPower ==>
                  p.remaining == share * |rest[1..]| as real)
            && p.kept == (if level + share < v.maxPower && p.remaining > 0.0 then [v] else [])
  {
    VisitLifts(remaining, given, rest[0], share, level);
    TailAtLevel(rest, given, level, Min(rest[0].maxPower, level + share));
    assert share * |rest| as real == share + share * |rest[1..]| as real;
  }

  ghost predicate Lifted(given: map<Id, real>, q: Pass, rest: seq<Vehicle>, goal: real) {
    && q.given.Keys == given.Keys
    && (forall id :: id in given && id !in Ids(rest) ==> q.given[id] == given[id])
    && (forall v :: v in rest && v.id in q.given ==> q.given[v.id] == Min(v.maxPower, goal))
  }

  lemma LiftedStep(given: map<Id, real>, p: Pass, q: Pass, rest: seq<Vehicle>, goal: real)
    requires rest != [] && rest[0].id in given && rest[0].id !in Ids(rest[1..])
    requires p.given == given[rest[0].id := Min(rest[0].maxPower, goal)]
    requires Lifted(p.given, q, rest[1..], goal)
    ensures Lifted(given, q, rest, goal)
  {
    assert rest == [rest[0]] + rest[1..];
  }

  /** A pass lifts everybody it visits, and spends exactly what it hands out. */
  lemma {:induction false} TopUpLifts(remaining: real, given: map<Id, real>, rest: seq<Vehicle>,
                                      share: real, level: real)
    requires AtLevel(rest, given, level)
    requires share > 0.0 && Affordable(remaining, share, |rest|)
    ensures var q := TopUp(remaining, given, rest, share);
            && Lifted(given, q, rest, level + share)
            && Total(q.given) + q.remaining == Total(given) + remaining
            && 0.0 <= q.remaining <= remaining
    decreases |rest|
  {
    hide AtLevel, Visit, Total, Ids, Affordable;
    if rest == [] {
      NothingToAfford(remaining, share);
    } else {
      var v := rest[0];
      var p := Visit(remaining, given, v, share);
      assert v.id in given && given[v.id] == level <= v.maxPower by { FirstAtLevel(rest, given, level); }
      VisitThenRest(remaining, given, rest, share, level);
      TopUpLifts(p.remaining, p.given, rest[1..], share, level);
      VisitLifts(remaining, given, v, share, level);
      TailAtLevel(rest, given, level, level);
      LiftedStep(given, p, TopUp(p.remaining, p.given, rest[1..], share), rest, level + share);
    }
  }

  lemma FirstAtLevel(rest: seq<Vehicle>, given: map<Id, real>, level: real)
    requires rest != [] && AtLevel(rest, given, level)
    ensures rest[0].id in given && given[rest[0].id] == level <= rest[0].maxPower
  {
  }

  /** With power left, exactly the vehicles above the new level are kept. */
  ghost predicate Kept(q: Pass, rest: seq<Vehicle>, goal: real) {
    && DistinctIds(q.kept)
    && (forall v :: v in q.kept ==> v in rest && goal < v.maxPower)
    && (q.remaining > 0.0 ==> forall v :: v in rest && goal < v.maxPower ==> v in q.kept)
  }

  lemma KeptStep(p: Pass, q: Pass, rest: seq<Vehicle>, goal: real)
    requires rest != [] && rest[0].id !in Ids(rest[1..])
    requires p.kept == if goal < rest[0].maxPower && p.remaining > 0.0 then [rest[0]] else []
    requires q.remaining <= p.remaining && Kept(q, rest[1..], goal)
    ensures Kept(q.(kept := p.kept + q.kept), rest, goal)
  {
    assert rest == [rest[0]] + rest[1..];
  }

  lemma {:induction false} TopUpKeeps(remaining: real, given: map<Id, real>, rest: seq<Vehicle>,
                                      share: real, level: real)
    requires AtLevel(rest, given, level)
    requires share > 0.0 && Affordable(remaining, share, |rest|)
    ensures Kept(TopUp(remaining, given, rest, share), rest, level + share)
    decreases |rest|
  {
    if rest != [] {
      var p := Visit(remaining, given, rest[0], share);
      VisitThenRest(remaining, given, rest, share, level);
      TopUpKeeps(p.remaining, p.given, rest[1..], share, level);
      TopUpLifts(p.remaining, p.given, rest[1..], share, level);
      TailAtLevel(rest, given, level, level);
      KeptStep(p, TopUp(p.remaining, p.given, rest[1..], share), rest, level + share);
    }
  }

  /** A pass whose shares add up to all of the remaining power always drops a vehicle. */
  lemma {:induction false} TopUpDrops(remaining: real, given: map<Id, real>, rest: seq<Vehicle>,
                                      share: real, level: real)
    requires AtLevel(rest, given, level)
    requires share > 0.0 && Affordable(remaining, share, |rest|)
    ensures var q := TopUp(remaining, given, rest, share);
            && |q.kept| <= |rest|
            && (rest != [] && remaining == share * |rest| as real ==> |q.kept| < |rest|)
    decreases |rest|
  {
    if rest != [] {
      var p := Visit(remaining, given, rest[0], share);
      VisitThenRest(remaining, given, rest, share, level);
      TopUpDrops(p.remaining, p.given, rest[1..], share, level);
    }
  }

  // ----- the outer loop

  /** What holds whenever the outer loop starts a pass. */
  ghost predicate Progress(fleet: seq<Vehicle>, power: real, needMore: seq<Vehicle>, remaining: real,
                           given: map<Id, real>, level: real)
    requires DistinctIds(fleet)
  {
    && given == Filled(PowerLimits(fleet), level)
    && Total(given) + remaining == power
    && remaining >= 0.0
    && DistinctIds(needMore)
    && (forall v :: v in needMore ==> v in fleet && level <= v.maxPower)
    && (remaining > 0.0 ==> forall v :: v in fleet && level < v.maxPower ==> v in needMore)
  }

  lemma ProgressAtLevel(fleet: seq<Vehicle>, power: real, needMore: seq<Vehicle>, remaining: real,
                        given: map<Id, real>, level: real)
    requires DistinctIds(fleet)
    requires Progress(fleet, power, needMore, remaining, given, level)
    ensures AtLevel(needMore, given, level)
  {
    forall v | v in needMore ensures v.id in given && given[v.id] == level {
      PowerLimitOf(fleet, v);
    }
  }

  lemma LiftedIsFilled(fleet: seq<Vehicle>, needMore: seq<Vehicle>, given: map<Id, real>, q: Pass,
                       level: real, goal: real)
    requires DistinctIds(fleet) && level <= goal
    requires given == Filled(PowerLimits(fleet), level)
    requires forall v :: v in needMore ==> v in fleet
    requires forall v :: v in fleet && level < v.maxPower ==> v in needMore
    requires Lifted(given, q, needMore, goal)
    ensures q.given == Filled(PowerLimits(fleet), goal)
  {
    hide PowerLimits;
    forall id | id in given ensures q.given[id] == Filled(PowerLimits(fleet), goal)[id] {
      var v := LimitOwner(fleet, id);
      if id in Ids(needMore) {
        var u :| u in needMore && u.id == id;
        SameIdSameVehicle(fleet, u, v);
      }
    }
  }

  /** A pass raises the level by its share and drops a vehicle, so the loop makes at most |fleet| passes. */
  lemma ProgressStep(fleet: seq<Vehicle>, power: real, needMore: seq<Vehicle>, remaining: real,
                     given: map<Id, real>, level: real, share: real)
    requires DistinctIds(fleet)
    requires Progress(fleet, power, needMore, remaining, given, level)
    requires remaining > 0.0 && needMore != [] && share == remaining / |needMore| as real
    ensures var q := TopUp(remaining, given, needMore, share);
            && Progress(fleet, power, q.kept, q.remaining, q.given, level + share)
            && |q.kept| < |needMore|
  {
    hide PowerLimits, Total, TopUp, Kept, Lifted, Filled, DistinctIds, AtLevel;
    ProgressAtLevel(fleet, power, needMore, remaining, given, level);
    assert share * |needMore| as real == remaining;
    TopUpLifts(remaining, given, needMore, share, level);
    TopUpKeeps(remaining, given, needMore, share, level);
    TopUpDrops(remaining, given, needMore, share, level);
    var q := TopUp(remaining, given, needMore, share);
    LiftedIsFilled(fleet, needMore, given, q, level, level + share);
    KeptIsProgress(fleet, power, needMore, remaining, given, level, q, level + share);
  }

  lemma KeptIsProgress(fleet: seq<Vehicle>, power: real, needMore: seq<Vehicle>, remaining: real,
                       given: map<Id, real>, level: real, q: Pass, goal: real)
    requires DistinctIds(fleet) && level <= goal && remaining > 0.0
    requires Progress(fleet, power, needMore, remaining, given, level)
    requires q.given == Filled(PowerLimits(fleet), goal) && Kept(q, needMore, goal)
    requires Total(q.given) + q.remaining == Total(given) + remaining && q.remaining >= 0.0
    ensures Progress(fleet, power, q.kept, q.remaining, q.given, goal)
  {
    hide PowerLimits, Total, Filled, DistinctIds;
  }

  lemma ProgressEnds(fleet: seq<Vehicle>, power: real, needMore: seq<Vehicle>, remaining: real,
                     given: map<Id, real>, level: real)
    requires DistinctIds(fleet)
    requires Progress(fleet, power, needMore, remaining, given, level)
    requires remaining <= 0.0 || needMore == []
    ensures IsWaterFilling(PowerLimits(fleet), power, given, level)
  {
    hide PowerLimits;
    var limits := PowerLimits(fleet);
    TotalMonotone(given, limits);
    if remaining > 0.0 {
      forall id | id in limits ensures given[id] == limits[id] {
        var v := LimitOwner(fleet, id);
      }
      assert given == limits;
    }
  }

  lemma SharesFit(limits: map<Id, real>, share: real)
    ensures Total(Filled(limits, share)) <= Times(|limits|, share)
  {
    var flat := map id | id in limits :: share;
    assert flat.Keys == limits.Keys && |flat| == |flat.Keys| && |limits| == |limits.Keys|;
    TotalConstant(flat, share);
    TotalMonotone(Filled(limits, share), flat);
  }

  lemma SharesAddUp(x: real, n: nat)
    requires n > 0
    ensures Times(n, x / n as real) == x
  {
    TimesIsProduct(n, x / n as real);
  }

  /** The first split gives everybody an equal share or his limit, which never exceeds the request. */
  lemma EqualSharesFit(fleet: seq<Vehicle>, power: real, share: real)
    requires DistinctIds(fleet) && fleet != [] && share == power / |fleet| as real
    ensures Total(Filled(PowerLimits(fleet), share)) <= power
  {
    FleetSize(fleet);
    var limits := PowerLimits(fleet);
    assert limits.Keys == Ids(fleet) && |limits| == |limits.Keys|;
    SharesFit(limits, share);
    SharesAddUp(power, |fleet|);
  }

  lemma {:induction false} FleetSize(fleet: seq<Vehicle>)
    requires DistinctIds(fleet)
    ensures |Ids(fleet)| == |fleet|
  {
    if fleet != [] {
      var init, v := fleet[..|fleet| - 1], fleet[|fleet| - 1];
      FleetSize(init);
      assert fleet == init + [v];
      assert Ids(fleet) == Ids(init) + {v.id};
      assert v.id !in Ids(init);
    }
  }

  /** The first loop after `i` vehicles; `list` are those with room for more. */
  ghost predicate FirstLoop(fleet: seq<Vehicle>, i: nat, share: real, list: seq<Vehicle>, given: map<Id, real>)
    requires i <= |fleet|
  {
    && given.Keys == Ids(fleet[..i])
    && (forall v :: v in fleet[..i] && v.id in given ==> given[v.id] == Min(v.maxPower, share))
    && DistinctIds(list)
    && (forall v :: v in list <==> v in fleet[..i] && share <= v.maxPower)
  }

  lemma FirstLoopNext(fleet: seq<Vehicle>, i: nat, share: real, list: seq<Vehicle>, given: map<Id, real>)
    requires DistinctIds(fleet) && i < |fleet| && FirstLoop(fleet, i, share, list, given)
    ensures fleet[i].id !in given
    ensures var v := fleet[i];
            FirstLoop(fleet, i + 1, share, if v.maxPower < share then list else list + [v],
                      given[v.id := Min(v.maxPower, share)])
  {
    var v := fleet[i];
    assert fleet[..i + 1] == fleet[..i] + [v];
    assert Ids(fleet[..i + 1]) == Ids(fleet[..i]) + {v.id};
    assert v.id !in given;
    ListGrows(list, given, v);
  }

  lemma ListGrows(list: seq<Vehicle>, given: map<Id, real>, v: Vehicle)
    requires DistinctIds(list) && v.id !in given && forall u :: u in list ==> u.id in given
    ensures DistinctIds(list + [v])
  {
  }

  lemma FirstSplit(fleet: seq<Vehicle>, power: real, needMore: seq<Vehicle>, remaining: real,
                   given: map<Id, real>, share: real)
    requires DistinctIds(fleet) && fleet != [] && share == power / |fleet| as real
    requires FirstLoop(fleet, |fleet|, share, needMore, given)
    requires Total(given) + remaining == power
    ensures Progress(fleet, power, needMore, remaining, given, share)
  {
    hide PowerLimits;
    assert fleet[..|fleet|] == fleet;
    LimitKeys(fleet);
    forall id | id in given ensures given[id] == Filled(PowerLimits(fleet), share)[id] {
      var v := LimitOwner(fleet, id);
    }
    assert given == Filled(PowerLimits(fleet), share);
    EqualSharesFit(fleet, power, share);
  }

  /** The first loop of Dispatch, which also collects the vehicles with room for more. */
  method SplitEqually(fleet: seq<Vehicle>, power: real, share: real, needMore: array<Vehicle>)
    returns (assignments: map<Id, real>, remaining: real, count: nat)
    requires DistinctIds(fleet) && fleet != [] && share == power / |fleet| as real
    requires needMore.Length == |fleet|
    modifies needMore
    ensures count <= |fleet|
    ensures Progress(fleet, power, needMore[..count], remaining, assignments, share)
  {
    hide Progress, FirstLoop;
    assignments, remaining, count := map[], power, 0;
    FirstLoopStarts(fleet, share, needMore[..count]);
    for i := 0 to |fleet|
      invariant 0 <= count <= i
      invariant FirstLoop(fleet, i, share, needMore[..count], assignments)
      invariant Total(assignments) + remaining == power
    {
      var v := fleet[i];
      var amount := share;
      ghost var list := needMore[..count];
      FirstLoopNext(fleet, i, share, list, assignments);
      if v.maxPower < amount {
        amount := v.maxPower;
      } else {
        needMore[count] := v;
        count := count + 1;
        assert needMore[..count] == list + [v];
      }
      TotalSet(assignments, v.id, amount);
      assignments := assignments[v.id := amount];
      remaining := remaining - amount;
    }
    FirstSplit(fleet, power, needMore[..count], remaining, assignments, share);
  }

  lemma FirstLoopStarts(fleet: seq<Vehicle>, share: real, list: seq<Vehicle>)
    requires list == []
    ensures FirstLoop(fleet, 0, share, list, map[])
  {
  }

  /** The loop of a pass, seen from the middle: `kept` went before, `v` comes now. */
  lemma TopUpNext(kept: seq<Vehicle>, remaining: real, given: map<Id, real>, rest: seq<Vehicle>, share: real)
    requires rest != []
    ensures var p := Visit(remaining, given, rest[0], share);
            Resume(kept, remaining, given, rest, share)
            == Resume(kept + p.kept, p.remaining, p.given, rest[1..], share)
  {
    var p := Visit(remaining, given, rest[0], share);
    var q := TopUp(p.remaining, p.given, rest[1..], share);
    assert kept + (p.kept + q.kept) == kept + p.kept + q.kept;
  }

  function Resume(kept: seq<Vehicle>, remaining: real, given: map<Id, real>, rest: seq<Vehicle>, share: real): Pass {
    var q := TopUp(remaining, given, rest, share);
    q.(kept := kept + q.kept)
  }

  /** The body of the inner loop; `keep` says whether the vehicle is appended to `next`. */
  method VisitVehicle(v: Vehicle, share: real, remaining0: real, given: map<Id, real>)
    returns (keep: bool, remaining: real, assignments: map<Id, real>)
    ensures Pass(if keep then [v] else [], remaining, assignments) == Visit(remaining0, given, v, share)
  {
    keep, remaining, assignments := false, remaining0, given;
    var cap := v.maxPower - Get(assignments, v.id);
    if cap <= 0.0 {
      return;
    }
    var add := share;
    if cap < add {
      add := cap;
    }
    assignments := assignments[v.id := Get(assignments, v.id) + add];
    remaining := remaining - add;
    keep := assignments[v.id] < v.maxPower && remaining > 0.0;
  }

  /** One pass of the second loop: `next := needMore[:0]` filters the array that is being read. */
  method TopUpInPlace(needMore: array<Vehicle>, count: nat, share: real, remaining0: real, given: map<Id, real>)
    returns (next: nat, remaining: real, assignments: map<Id, real>)
    requires count <= needMore.Length
    modifies needMore
    ensures next <= count
    ensures Pass(needMore[..next], remaining, assignments) == TopUp(remaining0, given, old(needMore[..count]), share)
  {
    hide Visit, TopUp;
    next, remaining, assignments := 0, remaining0, given;
    ghost var list := needMore[..count];
    assert list[0..] == list;
    for r := 0 to count
      invariant 0 <= next <= r
      invariant forall i :: r <= i < count ==> needMore[i] == list[i]
      invariant Resume(needMore[..next], remaining, assignments, list[r..], share)
                == TopUp(remaining0, given, list, share)
    {
      var v := needMore[r];
      ghost var kept := needMore[..next];
      assert list[r..][0] == v && list[r..][1..] == list[r + 1..];
      TopUpNext(kept, remaining, assignments, list[r..], share);
      var keep;
      keep, remaining, assignments := VisitVehicle(v, share, remaining, assignments);
      if keep {
        needMore[next] := v;
        next := next + 1;
      }
      assert needMore[..next] == kept + if keep then [v] else [];
    }
    TopUpStops(remaining, assignments, list[count..], share);
    assert needMore[..next] + [] == needMore[..next];
  }

  lemma TopUpStops(remaining: real, given: map<Id, real>, rest: seq<Vehicle>, share: real)
    requires rest == []
    ensures TopUp(remaining, given, rest, share) == Pass([], remaining, given)
  {
  }

  /** One iteration of the second loop: the level rises and at least one vehicle leaves. */
  method RaiseLevel(fleet: seq<Vehicle>, power: real, needMore: array<Vehicle>, count: nat,
                    remaining0: real, given: map<Id, real>, ghost level: real)
    returns (next: nat, remaining: real, assignments: map<Id, real>, ghost level': real)
    requires DistinctIds(fleet)
    requires 0 < count <= needMore.Length && remaining0 > 0.0
    requires Progress(fleet, power, needMore[..count], remaining0, given, level)
    modifies needMore
    ensures next < count
    ensures Progress(fleet, power, needMore[..next], remaining, assignments, level')
  {
    hide Progress;
    var share := remaining0 / count as real;
    ProgressStep(fleet, power, needMore[..count], remaining0, given, level, share);
    level' := level + share;
    ghost var q := TopUp(remaining0, given, needMore[..count], share);
    next, remaining, assignments := TopUpInPlace(needMore, count, share, remaining0, given);
    assert |needMore[..next]| == next;
    assert needMore[..next] == q.kept && remaining == q.remaining && assignments == q.given;
  }

  /**
   The result is the water-filling allocation of the request, whatever its sign, and the
   loop ends after at most one pass per vehicle; its "nothing changed" exit is never taken.
   */
  method Dispatch(fleet: seq<Vehicle>, power: real)
    returns (assignments: map<Id, real>, ghost level: real, ghost passes: nat)
    requires DistinctIds(fleet)
    ensures fleet == [] ==> assignments == map[]
    ensures fleet != [] ==> IsWaterFilling(PowerLimits(fleet), power, assignments, level)
    ensures passes <= |fleet|
  {
    hide Progress;
    assignments, level, passes := map[], 0.0, 0;
    if |fleet| == 0 {
      return;
    }
    var share := power / |fleet| as real;
    var needMore := new Vehicle[|fleet|];
    var remaining, count;
    assignments, remaining, count := SplitEqually(fleet, power, share, needMore);
    level := share;
    while remaining > 0.0 && count > 0
      invariant 0 <= count <= needMore.Length == |fleet|
      invariant Progress(fleet, power, needMore[..count], remaining, assignments, level)
      invariant passes + count <= |fleet|
      decreases count
    {
      var next;
      next, remaining, assignments, level :=
        RaiseLevel(fleet, power, needMore, count, remaining, assignments, level);
      passes := passes + 1;
      if next == count {
        break;
      }
      count := next;
    }
    ProgressEnds(fleet, power, needMore[..count], remaining, assignments, level);
  }

  // ----- consequences for callers

  /** The allocation does not depend on the order in which the fleet is listed. */
  lemma OrderDoesNotMatter(fleet: seq<Vehicle>, other: seq<Vehicle>, power: real,
                           a: map<Id, real>, level: real, b: map<Id, real>, level': real)
    requires DistinctIds(fleet) && DistinctIds(other) && multiset(fleet) == multiset(other)
    requires IsWaterFilling(PowerLimits(fleet), power, a, level)
    requires IsWaterFilling(PowerLimits(other), power, b, level')
    ensures a == b
  {
    PowerLimitsIgnoreOrder(fleet, other);
    WaterFillingUnique(PowerLimits(fleet), power, a, level, b, level');
  }

  ghost predicate NonnegativeLimits(fleet: seq<Vehicle>) {
    forall v :: v in fleet ==> v.maxPower >= 0.0
  }

  /**
   Requests below zero are split evenly and not clamped, so the limits hold in magnitude
   exactly when the even share already respects every one of them.
   */
  lemma NegativeRequests(fleet: seq<Vehicle>, power: real, a: map<Id, real>, level: real)
    requires DistinctIds(fleet) && fleet != [] && NonnegativeLimits(fleet) && power < 0.0
    requires IsWaterFilling(PowerLimits(fleet), power, a, level)
    ensures forall v :: v in fleet ==> v.id in a && a[v.id] == power / |fleet| as real
    ensures (forall v :: v in fleet ==> Abs(a[v.id]) <= v.maxPower)
       <==> (forall v :: v in fleet ==> Abs(power) / |fleet| as real <= v.maxPower)
  {
    hide PowerLimits;
    var limits, share := PowerLimits(fleet), power / |fleet| as real;
    LimitsOfFleet(fleet);
    SharesAddUp(power, |fleet|);
    NegativeShare(power, |fleet|);
    EvenFill(limits, share, power);
    WaterFillingUnique(limits, power, a, level, Filled(limits, share), share);
    forall v | v in fleet ensures v.id in a && a[v.id] == share {
      PowerLimitOf(fleet, v);
    }
  }

  lemma LimitsOfFleet(fleet: seq<Vehicle>)
    requires DistinctIds(fleet) && NonnegativeLimits(fleet)
    ensures |PowerLimits(fleet)| == |fleet|
    ensures forall id :: id in PowerLimits(fleet) ==> PowerLimits(fleet)[id] >= 0.0
  {
    FleetSize(fleet);
    var limits := PowerLimits(fleet);
    assert limits.Keys == Ids(fleet) && |limits| == |limits.Keys|;
    forall id | id in limits ensures limits[id] >= 0.0 {
      var v := LimitOwner(fleet, id);
    }
  }

  lemma NegativeShare(power: real, n: nat)
    requires power < 0.0 && n > 0
    ensures power / n as real < 0.0 && Abs(power / n as real) == Abs(power) / n as real
  {
  }

  lemma EvenFill(limits: map<Id, real>, share: real, power: real)
    requires forall id :: id in limits ==> limits[id] >= 0.0
    requires share < 0.0 && power < 0.0 && Times(|limits|, share) == power
    ensures IsWaterFilling(limits, power, Filled(limits, share), share)
  {
    var even := Filled(limits, share);
    assert even.Keys == limits.Keys && |even| == |even.Keys| && |limits| == |limits.Keys|;
    TotalConstant(even, share);
    NonnegativeTotal(limits);
  }

  /** One vehicle of 1 kW asked for -5 kW is assigned -5 kW. */
  lemma NegativeRequestExceedsLimit(v: Vehicle, a: map<Id, real>, level: real)
    requires v.maxPower == 1.0
    requires IsWaterFilling(PowerLimits([v]), -5.0, a, level)
    ensures v.id in a && Abs(a[v.id]) > v.maxPower
  {
    assert v in [v];
    NegativeRequests([v], -5.0, a, level);
  }
}
