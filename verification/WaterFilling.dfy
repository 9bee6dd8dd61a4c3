/**
 What an equal split under individual limits should be: the water-filling allocation.

 The definition here mentions no loop and no order.  It is characterised by max-min
 fairness in both directions, and the two loops of the repository (the EqualDispatcher
 and the scheduler's `distribute`) are proved against it.
 */
module WaterFilling {
  import opened Totals
  import opened Fleet

  /** Everybody gets the level, or his limit where that is lower. */
  ghost function Filled(limits: map<Id, real>, level: real): map<Id, real> {
    map id | id in limits :: Min(limits[id], level)
  }

  ghost predicate IsWaterFilling(limits: map<Id, real>, power: real, a: map<Id, real>, level: real) {
    && a == Filled(limits, level)
    && Total(a) == Min(power, Total(limits))
  }

  ghost predicate Feasible(limits: map<Id, real>, power: real, b: map<Id, real>) {
    && b.Keys == limits.Keys
    && (forall id :: id in b ==> b[id] <= limits[id])
    && Total(b) <= power
  }

  /** Nobody can get more unless somebody who has no more than him gets less. */
  ghost predicate MaxMinFair(limits: map<Id, real>, power: real, a: map<Id, real>) {
    && Feasible(limits, power, a)
    && forall b, v :: Feasible(limits, power, b) && v in a && b[v] > a[v] ==>
                        exists u :: u in a && b[u] < a[u] <= a[v]
  }

  /** A level whose total is no larger gives nobody more. */
  lemma LowerTotalLowerShares(limits: map<Id, real>, lo: real, hi: real)
    requires Total(Filled(limits, lo)) <= Total(Filled(limits, hi))
    ensures forall id :: id in limits ==> Filled(limits, lo)[id] <= Filled(limits, hi)[id]
  {
    if hi < lo {
      TotalSqueeze(Filled(limits, hi), Filled(limits, lo));
    }
  }

  lemma WaterFillingIsFeasible(limits: map<Id, real>, power: real, a: map<Id, real>, level: real)
    requires IsWaterFilling(limits, power, a, level)
    ensures Feasible(limits, power, a)
    ensures forall b :: Feasible(limits, power, b) ==> Total(b) <= Total(a)
  {
    forall b | Feasible(limits, power, b) ensures Total(b) <= Total(a) {
      TotalMonotone(b, limits);
    }
  }

  lemma WaterFillingIsFair(limits: map<Id, real>, power: real, a: map<Id, real>, level: real)
    requires IsWaterFilling(limits, power, a, level)
    ensures MaxMinFair(limits, power, a)
  {
    WaterFillingIsFeasible(limits, power, a, level);
    forall b, v | Feasible(limits, power, b) && v in a && b[v] > a[v]
      ensures exists u :: u in a && b[u] < a[u] <= a[v]
    {
      var u := SomeoneLoses(a, b, v);
      assert a[v] == level;
    }
  }

  /** The allocation is the only max-min fair one. */
  lemma FairIsWaterFilling(limits: map<Id, real>, power: real, a: map<Id, real>, level: real, b: map<Id, real>)
    requires IsWaterFilling(limits, power, a, level)
    requires MaxMinFair(limits, power, b)
    ensures a == b
  {
    WaterFillingIsFeasible(limits, power, a, level);
    forall v | v in a ensures a[v] <= b[v] {
      if b[v] < a[v] {
        assert false;
      }
    }
    TotalSqueeze(a, b);
  }

  lemma WaterFillingUnique(limits: map<Id, real>, power: real,
                           a: map<Id, real>, level: real, b: map<Id, real>, level': real)
    requires IsWaterFilling(limits, power, a, level)
    requires IsWaterFilling(limits, power, b, level')
    ensures a == b
  {
    WaterFillingIsFair(limits, power, b, level');
    FairIsWaterFilling(limits, power, a, level, b);
  }
}
