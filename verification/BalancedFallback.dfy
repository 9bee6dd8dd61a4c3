/** The BalancedFallback object: SetVehicles, Reallocate, availableCapacity and allocatePower. */
module BalancedFallbackStrategy {
  import opened Totals
  import opened Fleet
  import opened Arithmetic
  import opened Fallback

  // ----- allocatePower

  function Resume(kept: seq<Alloc>, total: real, remaining: real, res: map<Id, real>, rest: seq<Alloc>, power: real): Pass
    requires total > 0.0
  {
    var q := OnePass(total, remaining, res, rest, power);
    q.(kept := kept + q.kept)
  }

  lemma NextVisit(kept: seq<Alloc>, total: real, remaining: real, res: map<Id, real>, rest: seq<Alloc>, power: real)
    requires rest != [] && total > 0.0
    ensures var p := Visit(total, remaining, res, rest[0], power);
            Resume(kept, total, remaining, res, rest, power)
            == Resume(kept + p.kept, total, p.remaining, p.res, rest[1..], power)
  {
    hide Visit;
    var p := Visit(total, remaining, res, rest[0], power);
    var q := OnePass(total, p.remaining, p.res, rest[1..], power);
    assert kept + (p.kept + q.kept) == kept + p.kept + q.kept;
  }

  method VisitAlloc(a: Alloc, total: real, remaining0: real, res0: map<Id, real>, power: real)
    returns (keep: bool, a': Alloc, remaining: real, res: map<Id, real>)
    requires total > 0.0
    ensures Pass(if keep then [a'] else [], remaining, res) == Visit(total, remaining0, res0, a, power)
  {
    hide Share;
    var share := Share(remaining0, a.capacity, total);
    if share > a.capacity {
      share := a.capacity;
    }
    res := Credit(res0, a.id, power, share);
    remaining := remaining0 - share;
    a' := a.(capacity := a.capacity - share);
    keep := a'.capacity > 0.0;
  }

  /** One pass on the slice: `next := avail[:0]` writes survivors over what has been read. */
  method PassInPlace(avail: array<Alloc>, count: nat, total: real, remaining0: real, res0: map<Id, real>, power: real)
    returns (next: nat, remaining: real, res: map<Id, real>)
    requires count <= avail.Length && total > 0.0
    modifies avail
    ensures next <= count
    ensures Pass(avail[..next], remaining, res) == OnePass(total, remaining0, res0, old(avail[..count]), power)
  {
    hide Visit, OnePass;
    next, remaining, res := 0, remaining0, res0;
    ghost var all := avail[..count];
    ghost var goal := OnePass(total, remaining0, res0, all, power);
    assert all[0..] == all;
    for r := 0 to count
      invariant 0 <= next <= r
      invariant forall i :: r <= i < count ==> avail[i] == all[i]
      invariant Resume(avail[..next], total, remaining, res, all[r..], power) == goal
    {
      ghost var kept := avail[..next];
      assert all[r..][0] == avail[r] && all[r..][1..] == all[r + 1..];
      NextVisit(kept, total, remaining, res, all[r..], power);
      var keep, a';
      keep, a', remaining, res := VisitAlloc(avail[r], total, remaining, res, power);
      if keep {
        avail[next] := a';
        next := next + 1;
      }
      assert avail[..next] == kept + if keep then [a'] else [];
    }
    PassStops(total, remaining, res, all[count..], power);
    assert avail[..next] + [] == avail[..next];
  }

  lemma PassStops(total: real, remaining: real, res: map<Id, real>, rest: seq<Alloc>, power: real)
    requires rest == [] && total > 0.0
    ensures OnePass(total, remaining, res, rest, power) == Pass([], remaining, res)
  {
  }

  method SumCapacities(avail: array<Alloc>, count: nat) returns (total: real)
    requires count <= avail.Length
    ensures total == CapSum(avail[..count])
  {
    total := 0.0;
    ghost var list := avail[..count];
    for i := 0 to count
      invariant total + CapSum(list[i..]) == CapSum(list)
    {
      assert list[i..][1..] == list[i + 1..] && list[i] == avail[i];
      total := total + avail[i].capacity;
    }
  }

  /**
   The loop of allocatePower.  Over exact reals it need not end, so `passes` is any number of
   passes that have been made.
   */
  method AllocatePower(list: seq<Alloc>, res0: map<Id, real>, residual: real, power: real, passes: nat)
    returns (res: map<Id, real>, remaining: real)
    requires Positive(list)
    ensures var q := Passes(Pass(list, residual, res0), power, passes); res == q.res && remaining == q.remaining
  {
    hide OnePass;
    res, remaining := res0, residual;
    var avail := new Alloc[|list|](i requires 0 <= i < |list| => list[i]);
    var count := |list|;
    assert avail[..count] == list;
    ghost var goal := Passes(Pass(list, residual, res0), power, passes);
    var made := 0;
    while remaining > 0.0 && count > 0 && made < passes
      invariant 0 <= count <= avail.Length && 0 <= made <= passes
      invariant Positive(avail[..count])
      invariant Passes(Pass(avail[..count], remaining, res), power, passes - made) == goal
      decreases passes - made
    {
      var total := SumCapacities(avail, count);
      ghost var p := Pass(avail[..count], remaining, res);
      CapSumPositive(p.kept);
      if total == 0.0 {
        break;
      }
      PassConserves(total, remaining, res, p.kept, power);
      count, remaining, res := PassInPlace(avail, count, total, remaining, res, power);
      assert Pass(avail[..count], remaining, res) == OnePass(CapSum(p.kept), p.remaining, p.res, p.kept, power);
      made := made + 1;
    }
  }

  // ----- the object

  ghost predicate ValidFleet(vehicles: map<Id, Vehicle>) {
    forall id :: id in vehicles ==> 0.0 <= vehicles[id].soc <= 1.0
  }

  /** Capacity a survivor contributes; a vehicle the fallback does not know contributes none. */
  function SurvivorCapacity(vehicles: map<Id, Vehicle>, id: Id, current: real): real
    requires id in vehicles ==> 0.0 <= vehicles[id].soc <= 1.0
  {
    if id in vehicles then EffectiveCapacity(vehicles[id], current) else 0.0
  }

  ghost function Survivors(current: map<Id, real>, failed: set<Id>): map<Id, real> {
    map id | id in current && id !in failed :: current[id]
  }

  /** Magnitudes of what the failed vehicles had been asked for. */
  ghost function FailedPower(current: map<Id, real>, failed: set<Id>): map<Id, real> {
    map id | id in current && id in failed :: Abs(current[id])
  }

  /** The assignment with the failed vehicles set to zero, also those that had none. */
  ghost function Zeroed(current: map<Id, real>, failed: set<Id>): map<Id, real> {
    map id | id in current.Keys + failed :: if id in failed then 0.0 else current[id]
  }

  /** The capacities of the survivors that have any. */
  ghost function SurvivorCaps(vehicles: map<Id, Vehicle>, current: map<Id, real>, failed: set<Id>): map<Id, real>
    requires ValidFleet(vehicles)
  {
    map id | id in current && id !in failed && SurvivorCapacity(vehicles, id, current[id]) > 0.0
           :: SurvivorCapacity(vehicles, id, current[id])
  }

  lemma {:induction false} AllocTotals(list: seq<Alloc>, caps: map<Id, real>)
    requires Enumerates(list, caps)
    ensures CapSum(list) == Total(caps) && |list| == |caps|
    decreases |list|
  {
    if list == [] {
      assert caps == map[];
    } else {
      hide Total, Enumerates;
      EnumeratesTail(list, caps);
      var a := list[0];
      var less := caps - {a.id};
      AllocTotals(list[1..], less);
      TotalRemove(caps, a.id);
      assert |caps| == |caps.Keys| && |less| == |less.Keys|;
    }
  }

  lemma EnumeratesTail(list: seq<Alloc>, caps: map<Id, real>)
    requires list != [] && Enumerates(list, caps)
    ensures list[0].id in caps && caps[list[0].id] == list[0].capacity
    ensures (caps - {list[0].id}).Keys == caps.Keys - {list[0].id}
    ensures Enumerates(list[1..], caps - {list[0].id})
  {
    AllocTail(list);
    assert list == [list[0]] + list[1..] && list[0] in list;
  }

  /** What Reallocate promises; `undelivered` is the power it could not place. */
  ghost predicate Reallocated(vehicles: map<Id, Vehicle>, current: map<Id, real>, failed: set<Id>, power: real,
                              passes: nat, res: map<Id, real>, undelivered: real)
    requires ValidFleet(vehicles)
  {
    var residual := Total(FailedPower(current, failed));
    var caps := SurvivorCaps(vehicles, current, failed);
    && res.Keys == current.Keys + failed
    && (forall id :: id in failed ==> res[id] == 0.0)
    && (forall id :: id in current && id !in failed ==>
          0.0 <= Signed(power, res[id] - current[id]) <= SurvivorCapacity(vehicles, id, current[id]))
    && 0.0 <= undelivered
    && Total(res) == Total(Survivors(current, failed)) + Signed(power, residual - undelivered)
    && (residual >= Total(caps) && passes >= |caps| ==> undelivered == residual - Total(caps))
    && (residual < Total(caps) ==> HalvedTimes(undelivered, passes, residual))
  }

  /** Which powers they are: those of `passes` passes over the survivors in some order. */
  ghost predicate PlacedByPasses(vehicles: map<Id, Vehicle>, current: map<Id, real>, failed: set<Id>, power: real,
                                 passes: nat, res: map<Id, real>, undelivered: real)
    requires ValidFleet(vehicles)
  {
    var residual, base := Total(FailedPower(current, failed)), Zeroed(current, failed);
    if residual == 0.0 then res == base && undelivered == 0.0
    else exists avail ::
      && Enumerates(avail, SurvivorCaps(vehicles, current, failed)) && Positive(avail)
      && var q := Passes(Pass(avail, residual, base), power, passes); res == q.res && undelivered == q.remaining
  }

  /** With enough failed power and passes, every survivor ends at exactly its capacity. */
  lemma EverybodySaturated(vehicles: map<Id, Vehicle>, current: map<Id, real>, failed: set<Id>, power: real,
                           passes: nat, res: map<Id, real>, undelivered: real)
    requires ValidFleet(vehicles) && Reallocated(vehicles, current, failed, power, passes, res, undelivered)
    requires Total(FailedPower(current, failed)) >= Total(SurvivorCaps(vehicles, current, failed))
    requires passes >= |SurvivorCaps(vehicles, current, failed)|
    ensures forall id :: id in current && id !in failed ==>
              Signed(power, res[id] - current[id]) == SurvivorCapacity(vehicles, id, current[id])
  {
    hide Total, HalvedTimes, EffectiveCapacity, FailedPower, SurvivorCapacity, SurvivorCaps, Survivors, ValidFleet;
    AllPlaced(vehicles, current, failed, power, res);
  }

  /** What the survivors would take over, from their own data; a vehicle the fallback does not know takes nothing. */
  ghost function TakeOvers(vehicles: map<Id, Vehicle>, current: map<Id, real>, failed: set<Id>): map<Id, real> {
    map id | id in current && id !in failed :: if id in vehicles then Takes(vehicles[id], current[id]) else 0.0
  }

  lemma TakeOversAre(vehicles: map<Id, Vehicle>, current: map<Id, real>, failed: set<Id>)
    requires ValidFleet(vehicles)
    ensures forall id :: id in current && id !in failed ==>
              TakeOvers(vehicles, current, failed)[id] == SurvivorCapacity(vehicles, id, current[id])
    ensures Total(TakeOvers(vehicles, current, failed)) == Total(SurvivorCaps(vehicles, current, failed))
    ensures |SurvivorCaps(vehicles, current, failed)| <= |TakeOvers(vehicles, current, failed)|
  {
    hide Total, EffectiveCapacity, Takes;
    var room := TakeOvers(vehicles, current, failed);
    forall id | id in current && id !in failed && id in vehicles
      ensures Takes(vehicles[id], current[id]) == EffectiveCapacity(vehicles[id], current[id])
    {
      EffectiveCapacityIs(vehicles[id], current[id]);
    }
    assert room == map id | id in Survivors(current, failed) :: SurvivorCapacity(vehicles, id, current[id]);
    RoomTotal(vehicles, current, failed, room);
    var caps := SurvivorCaps(vehicles, current, failed);
    assert |caps| == |caps.Keys| && |room| == |room.Keys|;
    SubsetSize(caps.Keys, room.Keys);
  }

  /**
   Reallocation in terms of the vehicles themselves: a survivor never takes over more than its
   state of charge times its availability times its room below the degraded limit, nothing below
   its minimum state of charge; and with enough failed power and passes exactly that.
   */
  lemma SurvivorsTakeOver(vehicles: map<Id, Vehicle>, current: map<Id, real>, failed: set<Id>, power: real,
                          passes: nat, res: map<Id, real>, undelivered: real)
    requires ValidFleet(vehicles) && Reallocated(vehicles, current, failed, power, passes, res, undelivered)
    ensures res.Keys == current.Keys + failed
    ensures var take, residual := TakeOvers(vehicles, current, failed), Total(FailedPower(current, failed));
            && (forall id :: id in take ==> 0.0 <= Signed(power, res[id] - current[id]) <= take[id])
            && (residual >= Total(take) && passes >= |take| ==>
                  && undelivered == residual - Total(take)
                  && forall id :: id in take ==> Signed(power, res[id] - current[id]) == take[id])
            && (residual < Total(take) ==> HalvedTimes(undelivered, passes, residual))
  {
    hide Total, HalvedTimes, EffectiveCapacity, FailedPower, SurvivorCapacity, SurvivorCaps, ValidFleet, Takes, Survivors;
    TakeOversAre(vehicles, current, failed);
    var take, residual := TakeOvers(vehicles, current, failed), Total(FailedPower(current, failed));
    if residual >= Total(take) && passes >= |take| {
      EverybodySaturated(vehicles, current, failed, power, passes, res, undelivered);
    }
  }

  lemma AllPlaced(vehicles: map<Id, Vehicle>, current: map<Id, real>, failed: set<Id>, power: real, res: map<Id, real>)
    requires ValidFleet(vehicles)
    requires res.Keys == current.Keys + failed && forall id :: id in failed ==> res[id] == 0.0
    requires forall id :: id in current && id !in failed ==>
               Signed(power, res[id] - current[id]) <= SurvivorCapacity(vehicles, id, current[id])
    requires Total(res) == Total(Survivors(current, failed))
                           + Signed(power, Total(SurvivorCaps(vehicles, current, failed)))
    ensures forall id :: id in current && id !in failed ==>
              Signed(power, res[id] - current[id]) == SurvivorCapacity(vehicles, id, current[id])
  {
    hide Total, SurvivorCapacity, SurvivorCaps;
    var survivors := Survivors(current, failed);
    var added := map id | id in survivors :: Signed(power, res[id] - current[id]);
    var room := map id | id in survivors :: SurvivorCapacity(vehicles, id, current[id]);
    AddedTotal(current, failed, power, res, added);
    RoomTotal(vehicles, current, failed, room);
    TotalMonotone(added, room);
    forall id | id in current && id !in failed
      ensures Signed(power, res[id] - current[id]) == SurvivorCapacity(vehicles, id, current[id])
    {
      assert id in added && added[id] == room[id];
    }
  }

  lemma AddedTotal(current: map<Id, real>, failed: set<Id>, power: real, res: map<Id, real>, added: map<Id, real>)
    requires res.Keys == current.Keys + failed && forall id :: id in failed ==> res[id] == 0.0
    requires added == map id | id in Survivors(current, failed) :: Signed(power, res[id] - current[id])
    ensures Total(added) == Signed(power, Total(res) - Total(Survivors(current, failed)))
  {
    hide Total;
    var s := Survivors(current, failed);
    var kept := map id | id in s :: res[id];
    KeptTotal(current, failed, res, kept);
    DifferenceTotal(kept, s, power, added);
  }

  lemma KeptTotal(current: map<Id, real>, failed: set<Id>, res: map<Id, real>, kept: map<Id, real>)
    requires res.Keys == current.Keys + failed && forall id :: id in failed ==> res[id] == 0.0
    requires kept == map id | id in Survivors(current, failed) :: res[id]
    ensures Total(kept) == Total(res)
  {
    hide Total;
    var zeros := map id | id in failed :: 0.0;
    assert kept.Keys !! zeros.Keys && kept + zeros == res;
    TotalUnion(kept, zeros);
    ZeroTotal(zeros);
  }

  lemma {:induction false} DifferenceTotal(a: map<Id, real>, b: map<Id, real>, power: real, d: map<Id, real>)
    requires a.Keys == b.Keys == d.Keys && forall id :: id in a ==> d[id] == Signed(power, a[id] - b[id])
    ensures Total(d) == Signed(power, Total(a) - Total(b))
    decreases |a|
  {
    if a == map[] {
      assert b == map[] && d == map[];
    } else {
      var id :| id in a;
      SizeRemove(a, id);
      DifferenceTotal(a - {id}, b - {id}, power, d - {id});
      hide Total;
      TotalRemove(a, id);
      TotalRemove(b, id);
      TotalRemove(d, id);
    }
  }

  /** Survivors without capacity add nothing to the sum. */
  lemma RoomTotal(vehicles: map<Id, Vehicle>, current: map<Id, real>, failed: set<Id>, room: map<Id, real>)
    requires ValidFleet(vehicles)
    requires room == map id | id in Survivors(current, failed) :: SurvivorCapacity(vehicles, id, current[id])
    ensures Total(room) == Total(SurvivorCaps(vehicles, current, failed))
  {
    hide Total, EffectiveCapacity;
    var caps := SurvivorCaps(vehicles, current, failed);
    var rest := map id | id in room && id !in caps :: 0.0;
    assert caps.Keys !! rest.Keys && caps + rest == room;
    TotalUnion(caps, rest);
    ZeroTotal(rest);
  }

  lemma ZeroedTotal(current: map<Id, real>, failed: set<Id>)
    ensures Total(Zeroed(current, failed)) == Total(Survivors(current, failed))
  {
    var zeros: map<Id, real> := map id | id in failed :: 0.0;
    ZeroedSplits(current, failed, zeros);
    hide Total, Zeroed, Survivors;
    ZeroTotal(zeros);
    TotalUnion(Survivors(current, failed), zeros);
  }

  lemma ZeroedSplits(current: map<Id, real>, failed: set<Id>, zeros: map<Id, real>)
    requires zeros == map id | id in failed :: 0.0
    ensures Survivors(current, failed).Keys !! zeros.Keys
    ensures Zeroed(current, failed) == Survivors(current, failed) + zeros
  {
  }

  lemma FailedPowerNonnegative(current: map<Id, real>, failed: set<Id>)
    ensures Total(FailedPower(current, failed)) >= 0.0
  {
    NonnegativeTotal(FailedPower(current, failed));
  }

  ghost predicate Enumerates(avail: seq<Alloc>, caps: map<Id, real>) {
    && DistinctAllocs(avail) && AllocIds(avail) == caps.Keys
    && forall a :: a in avail ==> a.id in caps && a.capacity == caps[a.id]
  }

  /** From the passes to the promise, for every order in which the survivors are listed. */
  lemma PassesReallocate(vehicles: map<Id, Vehicle>, current: map<Id, real>, failed: set<Id>, power: real,
                         passes: nat, avail: seq<Alloc>)
    requires ValidFleet(vehicles) && Enumerates(avail, SurvivorCaps(vehicles, current, failed)) && Positive(avail)
    ensures var residual := Total(FailedPower(current, failed));
            var q := Passes(Pass(avail, residual, Zeroed(current, failed)), power, passes);
            Reallocated(vehicles, current, failed, power, passes, q.res, q.remaining)
  {
    hide Total, Passes, HalvedTimes, EffectiveCapacity, Ledger, Positive, CapSum, Zeroed, FailedPower, Survivors,
         SurvivorCaps, SurvivorCapacity, Enumerates, ValidFleet;
    var residual, base := Total(FailedPower(current, failed)), Zeroed(current, failed);
    var caps := SurvivorCaps(vehicles, current, failed);
    FailedPowerNonnegative(current, failed);
    ZeroedTotal(current, failed);
    LedgerStarts(vehicles, current, failed, power, avail);
    PassesPlace(caps, avail, residual, base, power, passes);
    LedgerMeans(vehicles, current, failed, power, Passes(Pass(avail, residual, base), power, passes));
  }

  lemma PassesPlaced(vehicles: map<Id, Vehicle>, current: map<Id, real>, failed: set<Id>, power: real,
                     passes: nat, avail: seq<Alloc>, q: Pass)
    requires ValidFleet(vehicles) && Enumerates(avail, SurvivorCaps(vehicles, current, failed)) && Positive(avail)
    requires Total(FailedPower(current, failed)) != 0.0
    requires q == Passes(Pass(avail, Total(FailedPower(current, failed)), Zeroed(current, failed)), power, passes)
    ensures PlacedByPasses(vehicles, current, failed, power, passes, q.res, q.remaining)
  {
    hide Total, Passes, Positive, Zeroed, FailedPower, SurvivorCaps, Enumerates, ValidFleet;
  }

  /** The passes over all survivors, in terms of their capacities alone. */
  lemma PassesPlace(caps: map<Id, real>, avail: seq<Alloc>, residual: real, base: map<Id, real>, power: real, passes: nat)
    requires Enumerates(avail, caps) && Positive(avail) && residual >= 0.0 && Ledger(caps, base, avail, base, power)
    ensures var q := Passes(Pass(avail, residual, base), power, passes);
            && Ledger(caps, base, q.kept, q.res, power)
            && 0.0 <= q.remaining
            && Total(q.res) == Total(base) + Signed(power, residual - q.remaining)
            && (residual >= Total(caps) && passes >= |caps| ==> q.remaining == residual - Total(caps))
            && (residual < Total(caps) ==> HalvedTimes(q.remaining, passes, residual))
  {
    hide Total, Passes, HalvedTimes, Ledger, Positive, CapSum, Enumerates;
    var p := Pass(avail, residual, base);
    AllocTotals(avail, caps);
    PassesConverge(p, power, passes);
    PassesLedger(caps, base, p, power, passes);
  }

  lemma LedgerStarts(vehicles: map<Id, Vehicle>, current: map<Id, real>, failed: set<Id>, power: real, avail: seq<Alloc>)
    requires ValidFleet(vehicles) && Enumerates(avail, SurvivorCaps(vehicles, current, failed)) && Positive(avail)
    ensures Ledger(SurvivorCaps(vehicles, current, failed), Zeroed(current, failed), avail, Zeroed(current, failed), power)
  {
    hide EffectiveCapacity;
  }

  lemma LedgerMeans(vehicles: map<Id, Vehicle>, current: map<Id, real>, failed: set<Id>, power: real, q: Pass)
    requires ValidFleet(vehicles)
    requires Ledger(SurvivorCaps(vehicles, current, failed), Zeroed(current, failed), q.kept, q.res, power)
    ensures q.res.Keys == current.Keys + failed
    ensures forall id :: id in failed ==> q.res[id] == 0.0
    ensures forall id :: id in current && id !in failed ==>
              0.0 <= Signed(power, q.res[id] - current[id]) <= SurvivorCapacity(vehicles, id, current[id])
  {
    hide EffectiveCapacity, DistinctAllocs, AllocIds;
    var caps, base := SurvivorCaps(vehicles, current, failed), Zeroed(current, failed);
    forall id | id in current && id !in failed
      ensures 0.0 <= Signed(power, q.res[id] - current[id]) <= SurvivorCapacity(vehicles, id, current[id])
    {
      assert base[id] == current[id];
      if id in caps {
        assert Added(base, q.res, id, power) == Signed(power, q.res[id] - current[id]);
      }
    }
  }

  class BalancedFallback {
    var vehicles: map<Id, Vehicle>

    constructor ()
      ensures vehicles == map[]
    {
      vehicles := map[];
    }

    method SetVehicles(vs: seq<Vehicle>)
      modifies this
      ensures vehicles.Keys == Ids(vs)
      ensures forall id :: id in vehicles ==> vehicles[id] in vs && vehicles[id].id == id
    {
      vehicles := map[];
      for i := 0 to |vs|
        invariant vehicles.Keys == Ids(vs[..i])
        invariant forall id :: id in vehicles ==> vehicles[id] in vs && vehicles[id].id == id
      {
        assert vs[..i + 1] == vs[..i] + [vs[i]];
        vehicles := vehicles[vs[i].id := vs[i]];
      }
      assert vs[..|vs|] == vs;
    }

    /** The loop over the failed vehicles: a repeated one counts once. */
    method Withdraw(failed: seq<Vehicle>, current: map<Id, real>) returns (res: map<Id, real>, residual: real)
      ensures res == Zeroed(current, Ids(failed))
      ensures residual == Total(FailedPower(current, Ids(failed)))
    {
      hide Total, Zeroed, FailedPower, Ids;
      res, residual := current, 0.0;
      WithdrawStarts(current);
      IdsOfPrefix(failed, 0);
      for i := 0 to |failed|
        invariant res == Zeroed(current, Ids(failed[..i]))
        invariant residual == Total(FailedPower(current, Ids(failed[..i])))
      {
        var id := failed[i].id;
        IdsOfPrefix(failed, i);
        WithdrawNext(current, Ids(failed[..i]), id);
        residual := residual + Abs(Get(res, id));
        res := res[id := 0.0];
      }
      assert failed[..|failed|] == failed;
    }

    /** availableCapacity: the survivors with capacity, listed in whatever order the map yields them. */
    method AvailableCapacity(current: map<Id, real>, failed: set<Id>, res: map<Id, real>) returns (avail: seq<Alloc>)
      requires ValidFleet(vehicles) && res == Zeroed(current, failed)
      ensures Enumerates(avail, SurvivorCaps(vehicles, current, failed)) && Positive(avail)
    {
      hide EffectiveCapacity;
      avail := [];
      var todo := current.Keys;
      while todo != {}
        invariant todo <= current.Keys
        invariant Enumerates(avail, SurvivorCaps(vehicles, current, failed + todo)) && Positive(avail)
        decreases |todo|
      {
        var id :| id in todo;
        CapsNext(vehicles, current, failed, todo, id, avail);
        todo := todo - {id};
        if id in failed {
          continue;
        }
        var cap := if id in vehicles then EffectiveCapacity(vehicles[id], res[id]) else 0.0;
        if cap > 0.0 {
          avail := avail + [Alloc(id, cap)];
        }
      }
      assert failed + todo == failed;
    }

    method Reallocate(failed: seq<Vehicle>, current: map<Id, real>, signal: Signal, passes: nat)
      returns (res: map<Id, real>, ghost undelivered: real)
      requires ValidFleet(vehicles)
      ensures Reallocated(vehicles, current, Ids(failed), signal.power, passes, res, undelivered)
      ensures PlacedByPasses(vehicles, current, Ids(failed), signal.power, passes, res, undelivered)
      ensures res.Keys == current.Keys + Ids(failed) && forall id :: id in Ids(failed) ==> res[id] == 0.0
    {
      hide Total, EffectiveCapacity, Reallocated, PlacedByPasses;
      undelivered := 0.0;
      if |failed| == 0 {
        NothingToMove(vehicles, current, {}, signal.power, passes);
        assert Ids(failed) == {};
        assert Zeroed(current, {}) == current;
        WithdrawStarts(current);
        return current, 0.0;
      }
      var residual;
      res, residual := Withdraw(failed, current);
      if residual == 0.0 {
        NothingToMove(vehicles, current, Ids(failed), signal.power, passes);
        return;
      }
      var failedIds := set v | v in failed :: v.id;
      var avail := AvailableCapacity(current, failedIds, res);
      var remaining;
      res, remaining := AllocatePower(avail, res, residual, signal.power, passes);
      undelivered := remaining;
      PassesReallocate(vehicles, current, Ids(failed), signal.power, passes, avail);
      PassesPlaced(vehicles, current, Ids(failed), signal.power, passes, avail,
                   Passes(Pass(avail, residual, Zeroed(current, Ids(failed))), signal.power, passes));
      ReallocatedKeys(vehicles, current, Ids(failed), signal.power, passes, res, undelivered);
    }
  }

  lemma ReallocatedKeys(vehicles: map<Id, Vehicle>, current: map<Id, real>, failed: set<Id>, power: real,
                        passes: nat, res: map<Id, real>, undelivered: real)
    requires ValidFleet(vehicles) && Reallocated(vehicles, current, failed, power, passes, res, undelivered)
    ensures res.Keys == current.Keys + failed && forall id :: id in failed ==> res[id] == 0.0
  {
  }

  lemma IdsOfPrefix(vs: seq<Vehicle>, i: nat)
    ensures Ids(vs[..0]) == {}
    ensures i < |vs| ==> Ids(vs[..i + 1]) == Ids(vs[..i]) + {vs[i].id}
  {
    if i < |vs| {
      assert vs[..i + 1] == vs[..i] + [vs[i]];
    }
  }

  lemma WithdrawStarts(current: map<Id, real>)
    ensures Zeroed(current, {}) == current && Total(FailedPower(current, {})) == 0.0
  {
    assert FailedPower(current, {}) == map[];
  }

  lemma WithdrawNext(current: map<Id, real>, failed: set<Id>, id: Id)
    ensures Zeroed(current, failed + {id}) == Zeroed(current, failed)[id := 0.0]
    ensures Total(FailedPower(current, failed + {id}))
         == Total(FailedPower(current, failed)) + Abs(Get(Zeroed(current, failed), id))
  {
    if id in current && id !in failed {
      TotalSet(FailedPower(current, failed), id, Abs(current[id]));
      assert FailedPower(current, failed + {id}) == FailedPower(current, failed)[id := Abs(current[id])];
    } else {
      assert FailedPower(current, failed + {id}) == FailedPower(current, failed);
    }
  }

  lemma CapsNext(vehicles: map<Id, Vehicle>, current: map<Id, real>, failed: set<Id>, todo: set<Id>, id: Id, avail: seq<Alloc>)
    requires ValidFleet(vehicles) && id in todo && id in current
    requires Enumerates(avail, SurvivorCaps(vehicles, current, failed + todo))
    ensures var cap := SurvivorCapacity(vehicles, id, current[id]);
            Enumerates(if id !in failed && cap > 0.0 then avail + [Alloc(id, cap)] else avail,
                       SurvivorCaps(vehicles, current, failed + (todo - {id})))
  {
    hide EffectiveCapacity;
    var cap := SurvivorCapacity(vehicles, id, current[id]);
    var before, after := SurvivorCaps(vehicles, current, failed + todo),
                         SurvivorCaps(vehicles, current, failed + (todo - {id}));
    if id !in failed && cap > 0.0 {
      assert after == before[id := cap];
      assert AllocIds(avail + [Alloc(id, cap)]) == AllocIds(avail) + {id};
      assert id !in AllocIds(avail);
      forall a | a in avail ensures a.id != id {
        assert a.id in AllocIds(avail);
      }
    } else {
      assert after == before;
    }
  }

  /** Without failures, or when they carried nothing, the survivors stay as they were. */
  lemma NothingToMove(vehicles: map<Id, Vehicle>, current: map<Id, real>, failed: set<Id>, power: real, passes: nat)
    requires ValidFleet(vehicles) && (failed == {} || Total(FailedPower(current, failed)) == 0.0)
    ensures Reallocated(vehicles, current, failed, power, passes, Zeroed(current, failed), 0.0)
    ensures PlacedByPasses(vehicles, current, failed, power, passes, Zeroed(current, failed), 0.0)
  {
    hide EffectiveCapacity, HalvedTimes, Total, FailedPower, Survivors, SurvivorCaps;
    if failed == {} {
      WithdrawStarts(current);
    }
    ZeroedTotal(current, failed);
    NothingLeft(passes, 0.0);
    CapsNonnegative(vehicles, current, failed);
  }

  lemma CapsNonnegative(vehicles: map<Id, Vehicle>, current: map<Id, real>, failed: set<Id>)
    requires ValidFleet(vehicles)
    ensures Total(SurvivorCaps(vehicles, current, failed)) >= 0.0
  {
    hide EffectiveCapacity;
    NonnegativeTotal(SurvivorCaps(vehicles, current, failed));
  }
}
