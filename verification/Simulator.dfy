/**
 The simulated vehicle (simulator/battery.go, simulator/vehicle.go): orders set the power,
 ticks apply it to the battery and feed the applied power back as the next request.
 */
module Simulator {
  import opened Fleet

  datatype Pack = Pack(capacity: real, chargeRate: real, dischargeRate: real)

  ghost predicate ValidPack(b: Pack) {
    b.capacity > 0.0 && b.chargeRate >= 0.0 && b.dischargeRate >= 0.0
  }

  /** Power and state of charge after a tick. */
  datatype Charge = Charge(soc: real, power: real)

  // Conversions between power (kW), energy (kWh) and state of charge.

  function Energy(power: real, hours: real): real { power * hours }

  function PowerOf(energy: real, hours: real): real
    requires hours > 0.0
  {
    energy / hours
  }

  function Stored(soc: real, b: Pack): real { soc * b.capacity }

  function SocOf(energy: real, b: Pack): real
    requires b.capacity > 0.0
  {
    energy / b.capacity
  }

  lemma StoredFacts(b: Pack, soc: real, e: real)
    requires b.capacity > 0.0
    ensures SocOf(Stored(soc, b), b) == soc && Stored(SocOf(e, b), b) == e
    ensures e >= 0.0 <==> SocOf(e, b) >= 0.0
    ensures e == 0.0 <==> SocOf(e, b) == 0.0
    ensures SocOf(-e, b) == -SocOf(e, b)
    ensures soc >= 0.0 ==> Stored(soc, b) >= 0.0
  {
  }

  lemma StoredAdds(b: Pack, x: real, y: real)
    requires b.capacity > 0.0
    ensures Stored(x - y, b) == Stored(x, b) - Stored(y, b)
    ensures Stored(x + y, b) == Stored(x, b) + Stored(y, b)
    ensures SocOf(x - y, b) == SocOf(x, b) - SocOf(y, b)
    ensures SocOf(x + y, b) == SocOf(x, b) + SocOf(y, b)
  {
  }

  lemma EnergyFacts(p: real, h: real, e: real)
    requires h > 0.0
    ensures PowerOf(Energy(p, h), h) == p && Energy(PowerOf(e, h), h) == e
    ensures Energy(-p, h) == -Energy(p, h) && Energy(0.0, h) == 0.0
    ensures p >= 0.0 <==> Energy(p, h) >= 0.0
    ensures e >= 0.0 <==> PowerOf(e, h) >= 0.0
    ensures PowerOf(-e, h) == -PowerOf(e, h)
  {
  }

  lemma PowerOrder(e: real, p: real, h: real)
    requires h > 0.0
    ensures e < Energy(p, h) <==> PowerOf(e, h) < p
  {
    var q := e / h;
    assert q * h == e;
    assert (p - q) * h == p * h - e;
  }

  lemma EnergyAdds(p: real, s: real, t: real)
    ensures Energy(p, s + t) == Energy(p, s) + Energy(p, t)
    ensures Energy(p, 0.0) == 0.0 && Energy(0.0, t) == 0.0
    ensures p >= 0.0 && t >= 0.0 ==> Energy(p, t) >= 0.0
    ensures p <= 0.0 && t >= 0.0 ==> Energy(p, t) <= 0.0
    ensures p != 0.0 && t > 0.0 ==> Energy(p, t) != 0.0
  {
  }

  /** ApplyPower without its final clamps. */
  function Apply(b: Pack, c: Charge, hours: real): Charge
    requires b.capacity > 0.0
  {
    if hours <= 0.0 then Charge(c.soc, 0.0)
    else if c.power > 0.0 then
      var p := if c.power > b.dischargeRate then b.dischargeRate else c.power;
      var maxEnergy := Stored(c.soc, b);
      if Energy(p, hours) > maxEnergy then Charge(c.soc - SocOf(maxEnergy, b), PowerOf(maxEnergy, hours))
      else Charge(c.soc - SocOf(Energy(p, hours), b), p)
    else if c.power < 0.0 then
      var p := if -c.power > b.chargeRate then b.chargeRate else -c.power;
      var avail := Stored(1.0 - c.soc, b);
      if Energy(p, hours) > avail then Charge(c.soc + SocOf(avail, b), -PowerOf(avail, hours))
      else Charge(c.soc + SocOf(Energy(p, hours), b), -p)
    else c
  }

  // ----- one tick

  /** A tick stays in [0, 1], keeps the direction, respects the request and the rate, and conserves energy. */
  lemma TickIsPhysical(b: Pack, c: Charge, hours: real)
    requires ValidPack(b) && 0.0 <= c.soc <= 1.0
    ensures var d := Apply(b, c, hours);
            && 0.0 <= d.soc <= 1.0
            && (c.power > 0.0 ==> 0.0 <= d.power <= Min(c.power, b.dischargeRate))
            && (c.power < 0.0 ==> -Min(-c.power, b.chargeRate) <= d.power <= 0.0)
            && (c.power == 0.0 ==> d.power == 0.0)
            && Stored(d.soc, b) + Energy(d.power, hours) == Stored(c.soc, b)
  {
    hide Energy, PowerOf, Stored, SocOf;
    EnergyAdds(0.0, 0.0, hours);
    if hours > 0.0 && c.power > 0.0 {
      Discharge(b, c, hours);
    } else if hours > 0.0 && c.power < 0.0 {
      ChargeUp(b, c, hours);
    }
  }

  lemma Discharge(b: Pack, c: Charge, hours: real)
    requires ValidPack(b) && 0.0 <= c.soc <= 1.0 && hours > 0.0 && c.power > 0.0
    ensures var d := Apply(b, c, hours);
            && 0.0 <= d.soc <= 1.0
            && 0.0 <= d.power <= Min(c.power, b.dischargeRate)
            && Stored(d.soc, b) + Energy(d.power, hours) == Stored(c.soc, b)
  {
    hide Energy, PowerOf, Stored, SocOf;
    var p := if c.power > b.dischargeRate then b.dischargeRate else c.power;
    var e := Stored(c.soc, b);
    EnergyFacts(p, hours, e);
    StoredFacts(b, c.soc, e);
    var spent := if Energy(p, hours) > e then e else Energy(p, hours);
    PowerOrder(e, p, hours);
    StoredFacts(b, c.soc, spent);
    StoredFacts(b, c.soc, e - spent);
    StoredAdds(b, e, spent);
    StoredAdds(b, c.soc, SocOf(spent, b));
  }

  lemma ChargeUp(b: Pack, c: Charge, hours: real)
    requires ValidPack(b) && 0.0 <= c.soc <= 1.0 && hours > 0.0 && c.power < 0.0
    ensures var d := Apply(b, c, hours);
            && 0.0 <= d.soc <= 1.0
            && -Min(-c.power, b.chargeRate) <= d.power <= 0.0
            && Stored(d.soc, b) + Energy(d.power, hours) == Stored(c.soc, b)
  {
    hide Energy, PowerOf, Stored, SocOf;
    var p := if -c.power > b.chargeRate then b.chargeRate else -c.power;
    var e := Stored(1.0 - c.soc, b);
    EnergyFacts(p, hours, e);
    EnergyFacts(PowerOf(e, hours), hours, e);
    StoredFacts(b, 1.0 - c.soc, e);
    var spent := if Energy(p, hours) > e then e else Energy(p, hours);
    PowerOrder(e, p, hours);
    StoredFacts(b, c.soc, spent);
    StoredFacts(b, c.soc, e - spent);
    StoredAdds(b, e, spent);
    StoredAdds(b, c.soc, SocOf(spent, b));
  }

  // ----- ticks without a new order

  /** A tick applies all it can: no larger part of the request is within the rate and what the battery holds or takes. */
  lemma TickAppliesAllItCan(b: Pack, c: Charge, hours: real, p: real)
    requires ValidPack(b) && 0.0 <= c.soc <= 1.0 && hours > 0.0 && p >= 0.0
    ensures c.power > 0.0 && p <= Min(c.power, b.dischargeRate) && Energy(p, hours) <= Stored(c.soc, b) ==>
              p <= Apply(b, c, hours).power
    ensures c.power < 0.0 && p <= Min(-c.power, b.chargeRate) && Energy(p, hours) <= Stored(1.0 - c.soc, b) ==>
              p <= -Apply(b, c, hours).power
  {
    hide Energy, PowerOf, Stored, SocOf;
    PowerOrder(Stored(c.soc, b), p, hours);
    PowerOrder(Stored(1.0 - c.soc, b), p, hours);
  }

  function Ticks(b: Pack, c: Charge, ticks: seq<real>): Charge
    requires b.capacity > 0.0
    decreases |ticks|
  {
    if ticks == [] then c else Ticks(b, Apply(b, c, ticks[0]), ticks[1..])
  }

  ghost function Elapsed(ticks: seq<real>): real {
    if ticks == [] then 0.0 else ticks[0] + Elapsed(ticks[1..])
  }

  ghost predicate AllPositive(ticks: seq<real>) {
    forall t :: t in ticks ==> t > 0.0
  }

  lemma {:induction false} ElapsedPositive(ticks: seq<real>)
    requires AllPositive(ticks)
    ensures Elapsed(ticks) >= 0.0 && (ticks != [] ==> Elapsed(ticks) > 0.0)
  {
    if ticks != [] {
      assert ticks[0] in ticks;
      assert forall t :: t in ticks[1..] ==> t in ticks;
      ElapsedPositive(ticks[1..]);
    }
  }

  /** State of charge after time `t` at constant power, cut off when the battery is empty or full. */
  ghost function Drift(b: Pack, c: Charge, t: real): real
    requires b.capacity > 0.0
  {
    Clamp(c.soc - SocOf(Energy(c.power, t), b), 0.0, 1.0)
  }

  ghost predicate Admitted(b: Pack, c: Charge) {
    0.0 <= c.soc <= 1.0 && -b.chargeRate <= c.power <= b.dischargeRate
  }

  /** First a tick and then a drift is one drift over both times. */
  lemma TickThenDrift(b: Pack, c: Charge, s: real, t: real)
    requires ValidPack(b) && Admitted(b, c) && s > 0.0 && t >= 0.0
    ensures Admitted(b, Apply(b, c, s))
    ensures Drift(b, Apply(b, c, s), t) == Drift(b, c, s + t)
  {
    hide Energy, PowerOf, Stored, SocOf;
    TickIsPhysical(b, c, s);
    if c.power > 0.0 {
      DischargeThenDrift(b, c, s, t);
    } else if c.power < 0.0 {
      ChargeThenDrift(b, c, s, t);
    } else {
      EnergyAdds(0.0, s, s + t);
      EnergyAdds(0.0, s, t);
    }
  }

  lemma DischargeThenDrift(b: Pack, c: Charge, s: real, t: real)
    requires ValidPack(b) && Admitted(b, c) && s > 0.0 && t >= 0.0 && c.power > 0.0
    ensures Drift(b, Apply(b, c, s), t) == Drift(b, c, s + t)
  {
    hide Energy, PowerOf, Stored, SocOf;
    var p, e := c.power, Stored(c.soc, b);
    EnergyAdds(p, s, t);
    StoredAdds(b, Energy(p, s), Energy(p, t));
    StoredFacts(b, c.soc, Energy(p, t));
    if Energy(p, s) > e {
      EnergyFacts(p, s, e);
      EnergyAdds(PowerOf(e, s), s, t);
      StoredFacts(b, c.soc, e);
      StoredFacts(b, c.soc, Energy(PowerOf(e, s), t));
      StoredAdds(b, Energy(p, s), e);
      StoredFacts(b, c.soc, Energy(p, s) - e);
    }
  }

  lemma ChargeThenDrift(b: Pack, c: Charge, s: real, t: real)
    requires ValidPack(b) && Admitted(b, c) && s > 0.0 && t >= 0.0 && c.power < 0.0
    ensures Drift(b, Apply(b, c, s), t) == Drift(b, c, s + t)
  {
    hide Energy, PowerOf, Stored, SocOf;
    var p, e := -c.power, Stored(1.0 - c.soc, b);
    EnergyFacts(p, s, e);
    assert -p == c.power;
    EnergyAdds(c.power, s, t);
    StoredAdds(b, Energy(c.power, s), Energy(c.power, t));
    StoredFacts(b, c.soc, Energy(p, s));
    StoredFacts(b, c.soc, -Energy(c.power, t));
    if Energy(p, s) > e {
      EnergyAdds(-PowerOf(e, s), s, t);
      StoredFacts(b, 1.0 - c.soc, e);
      StoredFacts(b, c.soc, -Energy(-PowerOf(e, s), t));
      StoredAdds(b, Energy(p, s), e);
      StoredFacts(b, c.soc, Energy(p, s) - e);
    }
  }

  /**
   However the elapsed time is cut into ticks, the state of charge is the closed form,
   although every tick replaces the request by what was applied.
   */
  lemma {:induction false} TicksFollowClosedForm(b: Pack, c: Charge, ticks: seq<real>)
    requires ValidPack(b) && Admitted(b, c) && AllPositive(ticks)
    ensures Ticks(b, c, ticks).soc == Drift(b, c, Elapsed(ticks))
    decreases |ticks|
  {
    hide Apply, Energy, SocOf;
    if ticks == [] {
      EnergyAdds(c.power, 0.0, 0.0);
      StoredFacts(b, c.soc, 0.0);
    } else {
      assert ticks[0] in ticks;
      assert forall t :: t in ticks[1..] ==> t in ticks;
      ElapsedPositive(ticks[1..]);
      TickThenDrift(b, c, ticks[0], Elapsed(ticks[1..]));
      TicksFollowClosedForm(b, Apply(b, c, ticks[0]), ticks[1..]);
    }
  }

  lemma OnlyElapsedTimeMatters(b: Pack, c: Charge, ticks: seq<real>, others: seq<real>)
    requires ValidPack(b) && Admitted(b, c) && AllPositive(ticks) && AllPositive(others)
    requires Elapsed(ticks) == Elapsed(others)
    ensures Ticks(b, c, ticks).soc == Ticks(b, c, others).soc
  {
    TicksFollowClosedForm(b, c, ticks);
    TicksFollowClosedForm(b, c, others);
  }

  // ----- ticks without elapsed time

  lemma {:induction false} TicksConcat(b: Pack, c: Charge, x: seq<real>, y: seq<real>)
    requires b.capacity > 0.0
    ensures Ticks(b, c, x + y) == Ticks(b, Ticks(b, c, x), y)
    ensures Elapsed(x + y) == Elapsed(x) + Elapsed(y)
    decreases |x|
  {
    hide Apply;
    if x == [] {
      assert x + y == y;
    } else {
      assert (x + y)[0] == x[0] && (x + y)[1..] == x[1..] + y;
      TicksConcat(b, Apply(b, c, x[0]), x[1..], y);
    }
  }

  lemma {:induction false} WithoutPowerNothingChanges(b: Pack, soc: real, ticks: seq<real>)
    requires b.capacity > 0.0
    ensures Ticks(b, Charge(soc, 0.0), ticks) == Charge(soc, 0.0)
    decreases |ticks|
  {
    if ticks != [] {
      WithoutPowerNothingChanges(b, soc, ticks[1..]);
    }
  }

  /** A drift stands still exactly when there is no power, no time, or nothing left to change. */
  lemma DriftStandsStill(b: Pack, c: Charge, s: real, t: real)
    requires ValidPack(b) && Admitted(b, c) && s >= 0.0 && t >= 0.0
    ensures Drift(b, c, s) == Drift(b, c, s + t)
       <==> t == 0.0 || c.power == 0.0 || (c.power > 0.0 && Drift(b, c, s) == 0.0) || (c.power < 0.0 && Drift(b, c, s) == 1.0)
  {
    hide Energy, PowerOf, Stored, SocOf;
    EnergyAdds(c.power, s, t);
    EnergyAdds(c.power, 0.0, s);
    var e, f := Energy(c.power, s), Energy(c.power, t);
    StoredAdds(b, e, f);
    StoredFacts(b, c.soc, e);
    StoredFacts(b, c.soc, -e);
    StoredFacts(b, c.soc, f);
    StoredFacts(b, c.soc, -f);
  }

  ghost predicate NoneNegative(ticks: seq<real>) {
    forall t :: t in ticks ==> t >= 0.0
  }

  lemma {:induction false} ElapsedNonnegative(ticks: seq<real>)
    requires NoneNegative(ticks)
    ensures Elapsed(ticks) >= 0.0
  {
    if ticks != [] {
      assert ticks[0] in ticks && forall t :: t in ticks[1..] ==> t in ticks;
      ElapsedNonnegative(ticks[1..]);
    }
  }

  /**
   A tick without elapsed time, at whatever position, resets the power to zero: the state of
   charge stands still from there on.  So the closed form over the whole time holds exactly
   when no time follows, there was no power, or the battery was already empty or full.
   */
  lemma EmptyTickStopsTheVehicle(b: Pack, c: Charge, before: seq<real>, after: seq<real>)
    requires ValidPack(b) && Admitted(b, c) && AllPositive(before) && NoneNegative(after)
    ensures var all, reached := before + [0.0] + after, Drift(b, c, Elapsed(before));
            && Ticks(b, c, all) == Charge(reached, 0.0)
            && (Ticks(b, c, all).soc == Drift(b, c, Elapsed(all)) <==>
                  || Elapsed(after) == 0.0 || c.power == 0.0
                  || (c.power > 0.0 && reached == 0.0) || (c.power < 0.0 && reached == 1.0))
  {
    hide Drift;
    var c' := Ticks(b, c, before);
    TicksFollowClosedForm(b, c, before);
    assert before + [0.0] + after == before + ([0.0] + after);
    TicksConcat(b, c, before, [0.0] + after);
    TicksConcat(b, c', [0.0], after);
    EmptyTick(b, c');
    WithoutPowerNothingChanges(b, c'.soc, after);
    ElapsedPositive(before);
    ElapsedNonnegative(after);
    DriftStandsStill(b, c, Elapsed(before), Elapsed(after));
  }

  lemma EmptyTick(b: Pack, c: Charge)
    requires b.capacity > 0.0
    ensures Ticks(b, c, [0.0]) == Charge(c.soc, 0.0) && Elapsed([0.0]) == 0.0
  {
    assert [0.0][1..] == [];
  }

  // ----- orders and ticks

  datatype State = State(pack: Pack, maxPower: real, charge: Charge)

  datatype Step = Order(power: real) | Tick(hours: real)

  /** applyPowerOrder: an order beyond the limits, or into an empty or full battery, is ignored. */
  function Obey(v: State, p: real): State {
    if p > 0.0 && (p > v.maxPower || p > v.pack.dischargeRate || v.charge.soc <= 0.0) then v
    else if p < 0.0 && (-p > v.maxPower || -p > v.pack.chargeRate || v.charge.soc >= 1.0) then v
    else v.(charge := v.charge.(power := p))
  }

  /** Within MaxPower, and for some length of time the battery could apply it in full. */
  ghost predicate CanBeApplied(v: State, p: real)
    requires v.pack.capacity > 0.0
  {
    Abs(p) <= v.maxPower && exists h :: h > 0.0 && AppliesFully(v, p, h)
  }

  ghost predicate AppliesFully(v: State, p: real, h: real)
    requires v.pack.capacity > 0.0
  {
    Apply(v.pack, Charge(v.charge.soc, p), h).power == p
  }

  /** An order becomes the power exactly when it can be applied; otherwise nothing changes. */
  lemma OrderTakenIff(v: State, p: real)
    requires Sound(v)
    ensures Obey(v, p) == if CanBeApplied(v, p) then v.(charge := Charge(v.charge.soc, p)) else v
  {
    hide Energy, PowerOf, Stored, SocOf, Apply;
    if p > 0.0 && p <= v.pack.dischargeRate && v.charge.soc > 0.0 {
      DischargesFully(v, p);
    } else if p < 0.0 && -p <= v.pack.chargeRate && v.charge.soc < 1.0 {
      ChargesFully(v, p);
    } else if p == 0.0 {
      AppliesNothing(v);
    } else {
      forall h | h > 0.0 ensures !AppliesFully(v, p, h) {
        NeverFully(v, p, h);
      }
    }
  }

  lemma AppliesNothing(v: State)
    requires v.pack.capacity > 0.0
    ensures AppliesFully(v, 0.0, 1.0)
  {
  }

  lemma DischargesFully(v: State, p: real)
    requires Sound(v) && 0.0 < p <= v.pack.dischargeRate && v.charge.soc > 0.0
    ensures exists h :: h > 0.0 && AppliesFully(v, p, h)
  {
    var stored := Stored(v.charge.soc, v.pack);
    assert stored > 0.0;
    var h := LongEnough(stored, p);
    assert AppliesFully(v, p, h);
  }

  lemma ChargesFully(v: State, p: real)
    requires Sound(v) && p < 0.0 && -p <= v.pack.chargeRate && v.charge.soc < 1.0
    ensures exists h :: h > 0.0 && AppliesFully(v, p, h)
  {
    var room := Stored(1.0 - v.charge.soc, v.pack);
    assert room > 0.0;
    var h := LongEnough(room, -p);
    assert AppliesFully(v, p, h);
  }

  lemma LongEnough(energy: real, p: real) returns (h: real)
    requires energy > 0.0 && p > 0.0
    ensures h > 0.0 && Energy(p, h) == energy
  {
    h := energy / p;
  }

  /** Beyond its rate, or empty or full, the battery applies less than it is asked for, however short the time. */
  lemma NeverFully(v: State, p: real, h: real)
    requires Sound(v) && h > 0.0
    requires (p > 0.0 && (p > v.pack.dischargeRate || v.charge.soc <= 0.0))
          || (p < 0.0 && (-p > v.pack.chargeRate || v.charge.soc >= 1.0))
    ensures !AppliesFully(v, p, h)
  {
    var c := Charge(v.charge.soc, p);
    TickIsPhysical(v.pack, c, h);
    if v.charge.soc <= 0.0 || v.charge.soc >= 1.0 {
      assert Stored(0.0, v.pack) == 0.0;
      assert (if p > 0.0 then p else -p) * h > 0.0;
    }
  }

  function Next(v: State, step: Step): State
    requires v.pack.capacity > 0.0
  {
    match step
    case Order(p) => Obey(v, p)
    case Tick(hours) => v.(charge := Apply(v.pack, v.charge, hours))
  }

  /** Energy that a step takes out of the battery. */
  function Delivered(v: State, step: Step): real
    requires v.pack.capacity > 0.0
  {
    match step
    case Order(_) => 0.0
    case Tick(hours) => Energy(Apply(v.pack, v.charge, hours).power, hours)
  }

  function Run(v: State, steps: seq<Step>): (r: State)
    requires v.pack.capacity > 0.0
    ensures r.pack == v.pack && r.maxPower == v.maxPower
    decreases |steps|
  {
    if steps == [] then v else Run(Next(v, steps[0]), steps[1..])
  }

  ghost function RunDelivered(v: State, steps: seq<Step>): real
    requires v.pack.capacity > 0.0
    decreases |steps|
  {
    if steps == [] then 0.0 else Delivered(v, steps[0]) + RunDelivered(Next(v, steps[0]), steps[1..])
  }

  ghost predicate Sound(v: State) {
    && ValidPack(v.pack) && v.maxPower >= 0.0
    && 0.0 <= v.charge.soc <= 1.0
    && -Min(v.maxPower, v.pack.chargeRate) <= v.charge.power <= Min(v.maxPower, v.pack.dischargeRate)
  }

  lemma StepIsSound(v: State, step: Step)
    requires Sound(v)
    ensures Sound(Next(v, step))
    ensures Stored(Next(v, step).charge.soc, v.pack) + Delivered(v, step) == Stored(v.charge.soc, v.pack)
  {
    hide Apply, Energy, Stored;
    if step.Tick? {
      TickIsPhysical(v.pack, v.charge, step.hours);
    }
  }

  /** In every run of orders and ticks the limits hold, and the energy in the battery plus the energy delivered is constant. */
  lemma {:induction false} RunsAreSound(v: State, steps: seq<Step>)
    requires Sound(v)
    ensures Sound(Run(v, steps))
    ensures Stored(Run(v, steps).charge.soc, v.pack) + RunDelivered(v, steps) == Stored(v.charge.soc, v.pack)
    decreases |steps|
  {
    hide Next, Delivered, Stored;
    if steps != [] {
      StepIsSound(v, steps[0]);
      NextKeepsPack(v, steps[0]);
      RunsAreSound(Next(v, steps[0]), steps[1..]);
    }
  }

  lemma NextKeepsPack(v: State, step: Step)
    requires v.pack.capacity > 0.0
    ensures Next(v, step).pack == v.pack && Next(v, step).maxPower == v.maxPower
  {
  }

  // ----- the objects

  class Battery {
    const pack: Pack
    var soc: real

    constructor (p: Pack, initial: real)
      ensures pack == p && soc == initial
    {
      pack, soc := p, initial;
    }

    /** The final clamps of the code never change anything. */
    method ApplyPower(powerKW: real, dt: int) returns (actual: real)
      requires ValidPack(pack) && 0.0 <= soc <= 1.0
      modifies this
      ensures Charge(soc, actual) == Apply(pack, Charge(old(soc), powerKW), Hours(dt))
      ensures 0.0 <= soc <= 1.0
    {
      hide Energy, PowerOf, Stored, SocOf;
      var hours := Hours(dt);
      if hours <= 0.0 {
        return 0.0;
      }
      TickIsPhysical(pack, Charge(soc, powerKW), hours);
      actual := powerKW;
      if powerKW > 0.0 {
        if powerKW > pack.dischargeRate {
          actual := pack.dischargeRate;
        }
        var maxEnergy := Stored(soc, pack);
        var needed := Energy(actual, hours);
        if needed > maxEnergy {
          needed := maxEnergy;
          actual := PowerOf(needed, hours);
        }
        soc := soc - SocOf(needed, pack);
      } else if powerKW < 0.0 {
        var p := -powerKW;
        if p > pack.chargeRate {
          p := pack.chargeRate;
        }
        var avail := Stored(1.0 - soc, pack);
        var needed := Energy(p, hours);
        if needed > avail {
          needed := avail;
          p := PowerOf(needed, hours);
        }
        soc := soc + SocOf(needed, pack);
        actual := -p;
      }
      if soc < 0.0 {
        soc := 0.0;
      }
      if soc > 1.0 {
        soc := 1.0;
      }
    }
  }

  class SimulatedVehicle {
    const battery: Battery
    const maxPower: real
    var currentPower: real

    constructor (b: Battery, limit: real)
      ensures battery == b && maxPower == limit && currentPower == 0.0
    {
      battery, maxPower, currentPower := b, limit, 0.0;
    }

    ghost function View(): State
      reads this, battery
    {
      State(battery.pack, maxPower, Charge(battery.soc, currentPower))
    }

    method ApplyPowerOrder(p: real) returns (r: real)
      modifies this
      ensures View() == Obey(old(View()), p)
      ensures r == currentPower && battery.soc == old(battery.soc)
      ensures old(Sound(View())) ==> currentPower == if old(CanBeApplied(View(), p)) then p else old(currentPower)
    {
      if Sound(View()) {
        OrderTakenIff(View(), p);
      }
      hide CanBeApplied, Sound;
      if p > 0.0 {
        if p > maxPower {
          return currentPower;
        }
        if p > battery.pack.dischargeRate {
          return currentPower;
        }
        if battery.soc <= 0.0 {
          return currentPower;
        }
      } else if p < 0.0 {
        var ap := -p;
        if ap > maxPower {
          return currentPower;
        }
        if ap > battery.pack.chargeRate {
          return currentPower;
        }
        if battery.soc >= 1.0 {
          return currentPower;
        }
      }
      currentPower := p;
      return p;
    }

    /** The tick of batteryLoop. */
    method OnTick(dt: int) returns (soc: real)
      requires Sound(View())
      modifies this, battery
      ensures View() == Next(old(View()), Tick(Hours(dt)))
      ensures Sound(View()) && soc == battery.soc
    {
      hide Apply;
      StepIsSound(View(), Tick(Hours(dt)));
      var applied := battery.ApplyPower(currentPower, dt);
      currentPower := applied;
      soc := battery.soc;
    }
  }
}
