/**
 BalancedFallback (core/dispatch/balanced_fallback.go): the power of failed vehicles is
 spread over the others in proportion to the capacity they have left.
 */
module Fallback {
  import opened Totals
  import opened Fleet
  import opened Arithmetic

  datatype Alloc = Alloc(id: Id, capacity: real)

  datatype Pass = Pass(kept: seq<Alloc>, remaining: real, res: map<Id, real>)

  /** One iteration of the inner loop of allocatePower. */
  function Visit(total: real, remaining: real, res: map<Id, real>, a: Alloc, power: real): Pass
    requires total > 0.0
  {
    var s := Share(remaining, a.capacity, total);
    var share := if s > a.capacity then a.capacity else s;
    var left := a.capacity - share;
    Pass(if left > 0.0 then [a.(capacity := left)] else [], remaining - share, Credit(res, a.id, power, share))
  }

  function OnePass(total: real, remaining: real, res: map<Id, real>, rest: seq<Alloc>, power: real): Pass
    requires total > 0.0
    decreases |rest|
  {
    if rest == [] then Pass([], remaining, res)
    else
      var p := Visit(total, remaining, res, rest[0], power);
      var q := OnePass(total, p.remaining, p.res, rest[1..], power);
      q.(kept := p.kept + q.kept)
  }

  ghost function CapSum(list: seq<Alloc>): real {
    if list == [] then 0.0 else list[0].capacity + CapSum(list[1..])
  }

  ghost predicate Positive(list: seq<Alloc>) {
    forall a :: a in list ==> a.capacity > 0.0
  }

  /** The loop of allocatePower, at most `n` passes. */
  ghost function Passes(p: Pass, power: real, n: nat): Pass
    decreases n
  {
    if p.remaining <= 0.0 || p.kept == [] || CapSum(p.kept) <= 0.0 || n == 0 then p
    else Passes(OnePass(CapSum(p.kept), p.remaining, p.res, p.kept, power), power, n - 1)
  }

  lemma {:induction false} CapSumPositive(list: seq<Alloc>)
    requires Positive(list)
    ensures CapSum(list) >= 0.0 && (list != [] ==> CapSum(list) > 0.0)
    ensures forall a :: a in list ==> a.capacity <= CapSum(list)
    ensures |list| == 1 ==> list[0].capacity == CapSum(list)
    ensures |list| >= 2 ==> forall a :: a in list ==> a.capacity < CapSum(list)
  {
    if list != [] {
      assert list == [list[0]] + list[1..];
      assert list[0] in list;
      CapSumPositive(list[1..]);
    }
  }

  lemma {:induction false} CapSumConcat(a: seq<Alloc>, b: seq<Alloc>)
    ensures CapSum(a + b) == CapSum(a) + CapSum(b)
  {
    if a == [] {
      assert a + b == b;
    } else {
      assert (a + b)[1..] == a[1..] + b;
      CapSumConcat(a[1..], b);
    }
  }

  // ----- one pass

  lemma VisitFacts(total: real, remaining: real, res: map<Id, real>, a: Alloc, power: real)
    requires remaining >= 0.0 && 0.0 < a.capacity <= total
    ensures var p := Visit(total, remaining, res, a, power);
            var spent := remaining - p.remaining;
            && 0.0 <= p.remaining <= remaining
            && 0.0 <= spent <= a.capacity
            && p.kept == (if spent < a.capacity then [a.(capacity := a.capacity - spent)] else [])
            && CapSum(p.kept) == a.capacity - spent
            && p.res == Credit(res, a.id, power, spent)
            && Total(p.res) == Total(res) + Signed(power, spent)
            && (remaining <= total ==> spent == Share(remaining, a.capacity, total))
            && (remaining >= total ==> p.kept == [])
            && (remaining < total ==> p.kept != [])
            && (0.0 < remaining && a.capacity < total ==> p.remaining > 0.0)
  {
    ProportionalShare(remaining, a.capacity, total);
    ShareOfExcess(remaining, a.capacity, total);
    hide Share;
    var share := Min(a.capacity, Share(remaining, a.capacity, total));
    TotalSet(res, a.id, Get(res, a.id) + Signed(power, share));
  }

  /** A pass keeps (capacity left - power left) and never overspends. */
  lemma {:induction false} PassConserves(total: real, remaining: real, res: map<Id, real>, rest: seq<Alloc>, power: real)
    requires total > 0.0 && remaining >= 0.0 && Positive(rest) && CapSum(rest) <= total
    ensures var q := OnePass(total, remaining, res, rest, power);
            && 0.0 <= q.remaining <= remaining
            && Positive(q.kept) && |q.kept| <= |rest|
            && CapSum(q.kept) - q.remaining == CapSum(rest) - remaining
            && Total(q.res) == Total(res) + Signed(power, remaining - q.remaining)
    decreases |rest|
  {
    hide Total, Share, Visit, Credit;
    if rest != [] {
      var a, tail := rest[0], rest[1..];
      assert rest == [a] + tail && a in rest;
      CapSumPositive(rest);
      CapSumPositive(tail);
      VisitFacts(total, remaining, res, a, power);
      var p := Visit(total, remaining, res, a, power);
      PassConserves(total, p.remaining, p.res, tail, power);
      CapSumConcat(p.kept, OnePass(total, p.remaining, p.res, tail, power).kept);
    }
  }

  /**
   With less power than capacity nobody is saturated, and the rest at least halves.
   `served` is the capacity visited so far, `start` the power at the beginning of the pass.
   */
  lemma {:induction false} PassShrinks(total: real, remaining: real, res: map<Id, real>, rest: seq<Alloc>, power: real,
                                       served: real, start: real)
    requires Positive(rest) && served >= 0.0 && served + CapSum(rest) == total && total > 0.0
    requires 0.0 <= remaining <= total && start >= 0.0
    requires Shrunk(remaining, total, served, start)
    ensures OnePass(total, remaining, res, rest, power).remaining * 2.0 <= start
    decreases |rest|
  {
    hide Total, Visit, Credit, Shrunk, Share;
    if rest == [] {
      ShrunkEnd(remaining, total, start);
    } else {
      var a, tail := rest[0], rest[1..];
      assert rest == [a] + tail && a in rest;
      CapSumPositive(rest);
      VisitFacts(total, remaining, res, a, power);
      var p := Visit(total, remaining, res, a, power);
      ShrunkStep(remaining, a.capacity, total, served, start);
      PassShrinks(total, p.remaining, p.res, tail, power, served + a.capacity, start);
    }
  }

  /** With at least as much power as capacity, a pass saturates somebody. */
  lemma PassSaturates(remaining: real, res: map<Id, real>, list: seq<Alloc>, power: real)
    requires list != [] && Positive(list) && remaining >= CapSum(list)
    ensures CapSum(list) > 0.0
    ensures |OnePass(CapSum(list), remaining, res, list, power).kept| < |list|
  {
    hide Total, Share, Visit, Credit;
    CapSumPositive(list);
    var total, a, tail := CapSum(list), list[0], list[1..];
    assert list == [a] + tail && a in list;
    CapSumPositive(tail);
    VisitFacts(total, remaining, res, a, power);
    var p := Visit(total, remaining, res, a, power);
    PassConserves(total, p.remaining, p.res, tail, power);
  }

  /** Otherwise a pass leaves nothing exactly when there is a single survivor. */
  lemma {:induction false} PassLeavesRest(total: real, remaining: real, res: map<Id, real>, rest: seq<Alloc>, power: real)
    requires Positive(rest) && CapSum(rest) <= total && 0.0 < remaining && total > 0.0
    requires forall a :: a in rest ==> a.capacity < total
    ensures OnePass(total, remaining, res, rest, power).remaining > 0.0
    decreases |rest|
  {
    hide Total, Share, Visit, Credit;
    if rest != [] {
      var a, tail := rest[0], rest[1..];
      assert rest == [a] + tail && a in rest;
      CapSumPositive(rest);
      VisitFacts(total, remaining, res, a, power);
      var p := Visit(total, remaining, res, a, power);
      PassLeavesRest(total, p.remaining, p.res, tail, power);
    }
  }

  lemma PassFinishesIffAlone(remaining: real, res: map<Id, real>, list: seq<Alloc>, power: real)
    requires list != [] && Positive(list) && 0.0 < remaining < CapSum(list)
    ensures OnePass(CapSum(list), remaining, res, list, power).remaining == 0.0 <==> |list| == 1
  {
    CapSumPositive(list);
    if |list| == 1 {
      assert list[0] in list && list[1..] == [];
      VisitFacts(CapSum(list), remaining, res, list[0], power);
      ProportionalShare(remaining, list[0].capacity, CapSum(list));
      assert OnePass(CapSum(list), remaining, res, list, power).remaining
          == Visit(CapSum(list), remaining, res, list[0], power).remaining;
    } else {
      PassLeavesRest(CapSum(list), remaining, res, list, power);
    }
  }

  /** With less power than capacity, nobody is saturated. */
  lemma {:induction false} NobodyLeaves(total: real, remaining: real, res: map<Id, real>, rest: seq<Alloc>, power: real)
    requires Positive(rest) && CapSum(rest) <= total && 0.0 <= remaining < total
    ensures |OnePass(total, remaining, res, rest, power).kept| == |rest|
    decreases |rest|
  {
    hide Total, Share, Visit, Credit;
    if rest != [] {
      var a, tail := rest[0], rest[1..];
      assert rest == [a] + tail && a in rest;
      CapSumPositive(rest);
      VisitFacts(total, remaining, res, a, power);
      var p := Visit(total, remaining, res, a, power);
      NobodyLeaves(total, p.remaining, p.res, tail, power);
    }
  }

  // ----- all passes

  /** The loop of allocatePower has come to its end. */
  ghost predicate Ended(p: Pass) { p.remaining <= 0.0 || p.kept == [] }

  lemma {:induction false} NeverEnds(p: Pass, power: real, n: nat)
    requires Positive(p.kept) && |p.kept| >= 2 && 0.0 < p.remaining < CapSum(p.kept)
    ensures !Ended(Passes(p, power, n))
    decreases n
  {
    hide Total, OnePass;
    if n > 0 {
      var total := CapSum(p.kept);
      PassConserves(total, p.remaining, p.res, p.kept, power);
      NobodyLeaves(total, p.remaining, p.res, p.kept, power);
      PassFinishesIffAlone(p.remaining, p.res, p.kept, power);
      NeverEnds(OnePass(total, p.remaining, p.res, p.kept, power), power, n - 1);
    }
  }

  /**
   Over exact numbers the loop ends exactly when the survivors cannot take more than what
   is left, or there is at most one of them.
   */
  lemma LoopEndsIff(p: Pass, power: real)
    requires Positive(p.kept) && p.remaining > 0.0
    ensures (exists n: nat :: Ended(Passes(p, power, n))) <==> p.remaining >= CapSum(p.kept) || |p.kept| <= 1
  {
    hide OnePass, CapSum;
    CapSumPositive(p.kept);
    if p.remaining >= CapSum(p.kept) || p.kept == [] {
      PassesConverge(p, power, |p.kept|);
      assert Ended(Passes(p, power, |p.kept|));
    } else if |p.kept| == 1 {
      PassFinishesIffAlone(p.remaining, p.res, p.kept, power);
      var n := |p.kept|;
      assert Passes(p, power, n) == Passes(OnePass(CapSum(p.kept), p.remaining, p.res, p.kept, power), power, n - 1);
      assert Ended(Passes(p, power, n));
    } else {
      forall n: nat ensures !Ended(Passes(p, power, n)) {
        NeverEnds(p, power, n);
      }
    }
  }

  /**
   Enough power: everybody is saturated within one pass per survivor and exactly the excess
   is left.  Too little: every pass at least halves what is left.
   */
  lemma {:induction false} PassesConverge(p: Pass, power: real, n: nat)
    requires Positive(p.kept) && p.remaining >= 0.0
    ensures var q := Passes(p, power, n);
            && Positive(q.kept) && 0.0 <= q.remaining <= p.remaining
            && CapSum(q.kept) - q.remaining == CapSum(p.kept) - p.remaining
            && Total(q.res) == Total(p.res) + Signed(power, p.remaining - q.remaining)
            && (p.remaining >= CapSum(p.kept) && n >= |p.kept| ==>
                  q.remaining == p.remaining - CapSum(p.kept) && (q.remaining > 0.0 ==> q.kept == []))
            && (p.remaining < CapSum(p.kept) ==> HalvedTimes(q.remaining, n, p.remaining))
    decreases n
  {
    hide Total, OnePass, HalvedTimes;
    CapSumPositive(p.kept);
    if p.remaining <= 0.0 || p.kept == [] || CapSum(p.kept) <= 0.0 || n == 0 {
      NothingLeft(n, p.remaining);
      NotHalved(p.remaining, p.remaining);
    } else {
      var total := CapSum(p.kept);
      var q := OnePass(total, p.remaining, p.res, p.kept, power);
      PassConserves(total, p.remaining, p.res, p.kept, power);
      PassesConverge(q, power, n - 1);
      CapSumPositive(q.kept);
      if p.remaining < total {
        ShrunkStart(p.remaining, total);
        PassShrinks(total, p.remaining, p.res, p.kept, power, 0.0, p.remaining);
        HalvedOnceMore(Passes(q, power, n - 1).remaining, n - 1, q.remaining, p.remaining);
      } else {
        PassSaturates(p.remaining, p.res, p.kept, power);
      }
    }
  }

  // ----- who gets how much

  ghost predicate DistinctAllocs(list: seq<Alloc>) {
    forall i, j :: 0 <= i < j < |list| ==> list[i].id != list[j].id
  }

  ghost function AllocIds(list: seq<Alloc>): set<Id> {
    set a | a in list :: a.id
  }

  /** Power added to a survivor on top of `base`, as a magnitude. */
  function Added(base: map<Id, real>, res: map<Id, real>, id: Id, power: real): real {
    Signed(power, Get(res, id) - Get(base, id))
  }

  /**
   `caps` are the capacities the survivors started with.  What was added plus what is left
   is the capacity, vehicles that left the list are saturated, nobody else has changed.
   */
  ghost predicate Ledger(caps: map<Id, real>, base: map<Id, real>, list: seq<Alloc>, res: map<Id, real>, power: real) {
    && DistinctAllocs(list)
    && caps.Keys <= base.Keys == res.Keys
    && (forall id :: id in base && id !in caps ==> res[id] == base[id])
    && (forall id :: id in caps ==>
          0.0 <= Added(base, res, id, power) <= caps[id]
          && (id in AllocIds(list) || Added(base, res, id, power) == caps[id]))
    && (forall a :: a in list ==>
          a.id in caps && a.capacity > 0.0 && Added(base, res, a.id, power) + a.capacity == caps[a.id])
  }

  lemma AllocTail(rest: seq<Alloc>)
    requires rest != [] && DistinctAllocs(rest)
    ensures DistinctAllocs(rest[1..]) && rest[0].id !in AllocIds(rest[1..])
    ensures AllocIds(rest) == {rest[0].id} + AllocIds(rest[1..])
  {
    assert rest == [rest[0]] + rest[1..];
    forall a | a in rest[1..] ensures a.id != rest[0].id {
      var i :| 0 <= i < |rest[1..]| && rest[1..][i] == a;
      assert rest[i + 1] == a;
    }
  }

  lemma LedgerVisit(caps: map<Id, real>, base: map<Id, real>, kept: seq<Alloc>, rest: seq<Alloc>,
                    res: map<Id, real>, power: real, spent: real, more: seq<Alloc>)
    requires rest != [] && Ledger(caps, base, kept + rest, res, power)
    requires 0.0 <= spent <= rest[0].capacity
    requires more == if spent < rest[0].capacity then [rest[0].(capacity := rest[0].capacity - spent)] else []
    ensures Ledger(caps, base, kept + more + rest[1..], Credit(res, rest[0].id, power, spent), power)
  {
    var a, tail := rest[0], rest[1..];
    var old', new' := kept + rest, kept + more + tail;
    assert old' == kept + [a] + tail;
    assert old'[|kept|] == a && a in old';
    forall b | b in new' ensures b.id == a.id || b in old' {
    }
    forall b | b in kept || b in tail ensures b.id != a.id {
      if b in kept {
        var i :| 0 <= i < |kept| && kept[i] == b;
        assert old'[i] == b;
      } else {
        var i :| 0 <= i < |tail| && tail[i] == b;
        assert old'[|kept| + 1 + i] == b;
      }
    }
    LedgerVisitIds(kept, a, tail, spent, more);
    var res' := Credit(res, a.id, power, spent);
    assert Added(base, res', a.id, power) == Added(base, res, a.id, power) + spent;
    assert forall id :: id != a.id ==> Added(base, res', id, power) == Added(base, res, id, power);
  }

  lemma LedgerVisitIds(kept: seq<Alloc>, a: Alloc, tail: seq<Alloc>, spent: real, more: seq<Alloc>)
    requires DistinctAllocs(kept + [a] + tail)
    requires more == if spent < a.capacity then [a.(capacity := a.capacity - spent)] else []
    ensures DistinctAllocs(kept + more + tail)
    ensures forall id :: id in AllocIds(kept + [a] + tail) ==> id == a.id || id in AllocIds(kept + more + tail)
    ensures more != [] ==> a.id in AllocIds(kept + more + tail)
  {
    var old', new' := kept + [a] + tail, kept + more + tail;
    if more != [] {
      assert new'[|kept|] == more[0];
      forall i | 0 <= i < |new'| ensures new'[i].id == old'[i].id {
      }
    } else {
      forall i | 0 <= i < |new'| ensures new'[i] == old'[if i < |kept| then i else i + 1] {
      }
    }
    forall id | id in AllocIds(old') && id != a.id ensures id in AllocIds(new') {
      var b :| b in old' && b.id == id;
      assert b in kept || b in tail;
      assert b in new';
    }
  }

  /** A pass keeps the ledger; `kept` are the survivors it has already visited. */
  lemma {:induction false} PassLedger(caps: map<Id, real>, base: map<Id, real>, kept: seq<Alloc>, total: real,
                                      remaining: real, res: map<Id, real>, rest: seq<Alloc>, power: real)
    requires total > 0.0 && remaining >= 0.0 && Positive(rest) && CapSum(rest) <= total
    requires Ledger(caps, base, kept + rest, res, power)
    ensures var q := OnePass(total, remaining, res, rest, power);
            Ledger(caps, base, kept + q.kept, q.res, power)
    decreases |rest|
  {
    hide Total, Share, Visit, Credit, Ledger;
    if rest == [] {
      assert kept + rest == kept + [];
    } else {
      var a, tail := rest[0], rest[1..];
      assert rest == [a] + tail && a in rest;
      CapSumPositive(rest);
      CapSumPositive(tail);
      VisitFacts(total, remaining, res, a, power);
      var p := Visit(total, remaining, res, a, power);
      LedgerVisit(caps, base, kept, rest, res, power, remaining - p.remaining, p.kept);
      PassLedger(caps, base, kept + p.kept, total, p.remaining, p.res, tail, power);
      var q := OnePass(total, p.remaining, p.res, tail, power);
      assert kept + p.kept + q.kept == kept + (p.kept + q.kept);
    }
  }

  lemma {:induction false} PassesLedger(caps: map<Id, real>, base: map<Id, real>, p: Pass, power: real, n: nat)
    requires Positive(p.kept) && p.remaining >= 0.0 && Ledger(caps, base, p.kept, p.res, power)
    ensures var q := Passes(p, power, n); Ledger(caps, base, q.kept, q.res, power)
    decreases n
  {
    hide Total, OnePass, Ledger;
    CapSumPositive(p.kept);
    if p.remaining <= 0.0 || p.kept == [] || CapSum(p.kept) <= 0.0 || n == 0 {
    } else {
      var q := OnePass(CapSum(p.kept), p.remaining, p.res, p.kept, power);
      PassConserves(CapSum(p.kept), p.remaining, p.res, p.kept, power);
      assert [] + p.kept == p.kept && [] + q.kept == q.kept;
      PassLedger(caps, base, [], CapSum(p.kept), p.remaining, p.res, p.kept, power);
      PassesLedger(caps, base, q, power, n - 1);
    }
  }
}
