/**
 SegmentedSmartDispatcher (core/dispatch/segmented_dispatcher.go): every behavioural segment
 gets an equal part of the signal and is dispatched on its own.
 */
module SegmentedDispatch {
  import opened Totals
  import opened Fleet
  import opened SmartAllocation
  import opened ScoredDispatch
  import opened LpDispatch

  /** `rawScore` stands for the weights of the segment. */
  datatype SegmentConfig = SegmentConfig(rawScore: (Vehicle, Signal) -> real, lp: bool, fallback: bool)

  /** NewSmartDispatcher with the weights of a segment. */
  function SegmentSettings(cfg: SegmentConfig): Settings {
    Settings(10, true, 0.1, 0.1, cfg.rawScore)
  }

  /** The part of the signal that every segment gets. */
  function Part(signal: Signal, groups: nat): Signal
    requires groups > 0
  {
    signal.(power := signal.power / groups as real)
  }

  ghost predicate SameDirection(a: real, b: real) { a < 0.0 <==> b < 0.0 }

  lemma PartKeepsDirection(signal: Signal, groups: nat)
    requires groups > 0
    ensures SameDirection(Part(signal, groups).power, signal.power)
    ensures Times(groups, Abs(Part(signal, groups).power)) == Abs(signal.power)
  {
    TimesIsProduct(groups, Abs(Part(signal, groups).power));
  }

  /** The envelope depends on the direction and duration of the signal and not on the scores. */
  lemma SegmentEnvelope(st: Settings, st': Settings, fleet: seq<Vehicle>, vs: seq<Vehicle>,
                        part: Signal, signal: Signal, a: map<Id, real>)
    requires InEnvelope(st, vs, part, a) && forall v :: v in vs ==> v in fleet
    requires st.socConstraints == st'.socConstraints && st.safeFloor == st'.safeFloor
    requires SameDirection(part.power, signal.power) && part.duration == signal.duration
    ensures InEnvelope(st', fleet, signal, a)
  {
    forall id | id in a ensures exists v :: v in fleet && v.id == id && VehicleInEnvelope(st', v, signal, a[id]) {
      var v :| v in vs && v.id == id && VehicleInEnvelope(st, v, part, a[id]);
      assert VehicleInEnvelope(st', v, signal, a[id]);
    }
  }

  /** What a segment is assigned. */
  ghost predicate SegmentOutcome(solver: Solver, vs: seq<Vehicle>, part: Signal, cfg: SegmentConfig, a: map<Id, real>) {
    if cfg.lp then LpOutcome(SegmentSettings(cfg), solver, vs, part, 0, a)
    else a == SmartAssignments(SegmentSettings(cfg), vs, part, 0)
  }

  /** dispatchSegment: both settings of `fallback` lead to the same dispatchers. */
  method DispatchSegment(solver: Solver, vs: seq<Vehicle>, part: Signal, cfg: SegmentConfig)
    returns (assignments: map<Id, real>)
    requires DistinctIds(vs)
    ensures SegmentOutcome(solver, vs, part, cfg, assignments)
    ensures InEnvelope(SegmentSettings(cfg), vs, part, assignments)
    ensures Signed(part.power, Total(assignments)) <= Abs(part.power) + if cfg.lp then LP_TOLERANCE else 0.0
  {
    hide StrictOutcome, InEnvelope, Total, SmartAssignments;
    var st := SegmentSettings(cfg);
    if cfg.lp {
      var lp := new LpDispatcher(st, solver);
      if cfg.fallback {
        var res := lp.DispatchStrict(vs, part);
        StrictIsSafe(st, solver, vs, part, res);
        if res.Ok? {
          return res.assignments;
        }
        assignments := SmartFallback(st, vs, part, 0);
        return;
      }
      assignments := lp.Dispatch(vs, part, 0);
      return;
    }
    assignments := SmartFallback(st, vs, part, 0);
  }

  /** The direction of the signal, MaxPower, and at least a tenth of the battery (and the own minimum) left. */
  ghost predicate AboveTenPercent(fleet: seq<Vehicle>, signal: Signal, a: map<Id, real>) {
    forall id :: id in a ==> exists v :: v in fleet && v.id == id && TenPercentLeft(v, signal, a[id])
  }

  ghost predicate TenPercentLeft(v: Vehicle, signal: Signal, p: real) {
    && (if signal.power < 0.0 then p <= 0.0 else p >= 0.0)
    && Abs(p) <= v.maxPower
    && (signal.power < 0.0 && signal.duration > 0 && v.batteryKWh >= 0.0 ==>
          Leaves(v, signal, Abs(p), v.minSoC) && Leaves(v, signal, Abs(p), 0.1))
  }

  lemma NothingBelow(fleet: seq<Vehicle>, signal: Signal, st: Settings, a: map<Id, real>)
    requires InEnvelope(st, fleet, signal, a) && st.socConstraints && st.safeFloor == 0.1
    ensures AboveTenPercent(fleet, signal, a)
  {
    EnvelopesArePhysical(st, fleet, signal, a);
    hide InEnvelope, Leaves;
    forall id | id in a ensures exists v :: v in fleet && v.id == id && TenPercentLeft(v, signal, a[id]) {
      var v :| v in fleet && v.id == id && Physical(st, v, signal, a[id]);
      assert TenPercentLeft(v, signal, a[id]);
    }
  }

  /** What the default settings ask of a vehicle of a segment. */
  ghost predicate TakesPart(v: Vehicle, part: Signal, alone: bool) {
    && v.soc >= 0.1 && v.batteryKWh > 0.0
    && (part.power < 0.0 ==> v.soc > 0.1 && v.soc > v.minSoC)
    && (alone && part.power != 0.0 ==> Abs(part.power) <= v.maxPower)
    && (alone && part.power < 0.0 && part.duration > 0 ==> KeepsReserve(v, part, true, 0.1, Abs(part.power)))
  }

  /** A segment without linear programming: ten rounds over exactly the vehicles with capacity that take part. */
  lemma SmartSegment(solver: Solver, vs: seq<Vehicle>, part: Signal, cfg: SegmentConfig, a: map<Id, real>)
    requires SegmentOutcome(solver, vs, part, cfg, a) && !cfg.lp && vs != [] && part.power != 0.0
    ensures var cands := Candidates(SegmentSettings(cfg), vs, part);
            && a == Rounds(Round(cands, ScoreSum(cands), Abs(part.power), map[]), part.power, 10).given
            && forall v :: HasCandidate(cands, v) <==>
                           v in vs && Capacity(v, part, true, 0.1) > 0.0 && TakesPart(v, part, |vs| == 1)
  {
    hide Rounds, Candidates, HasCandidate, TakesPart, Capacity;
    var st := SegmentSettings(cfg);
    forall v ensures HasCandidate(Candidates(st, vs, part), v) <==>
                     v in vs && Capacity(v, part, true, 0.1) > 0.0 && TakesPart(v, part, |vs| == 1) {
      CandidatesIff(st, vs, part, v);
      DefaultsQualify(cfg, v, part, |vs| == 1);
    }
  }

  lemma DefaultsQualify(cfg: SegmentConfig, v: Vehicle, part: Signal, alone: bool)
    ensures Qualifies(SegmentSettings(cfg), v, part, alone) <==> TakesPart(v, part, alone)
    ensures CapacityOf(SegmentSettings(cfg), v, part) == Capacity(v, part, true, 0.1)
  {
    hide KeepsReserve, Capacity;
  }

  // ----- grouping

  /** The vehicles of a segment, in fleet order. */
  function InSegment(fleet: seq<Vehicle>, seg: string): seq<Vehicle> {
    if fleet == [] then []
    else
      var n := |fleet| - 1;
      InSegment(fleet[..n], seg) + if fleet[n].segment == seg then [fleet[n]] else []
  }

  lemma InSegmentSnoc(fleet: seq<Vehicle>, v: Vehicle, seg: string)
    ensures InSegment(fleet + [v], seg) == InSegment(fleet, seg) + if v.segment == seg then [v] else []
  {
    assert (fleet + [v])[..|fleet|] == fleet;
  }

  ghost predicate Filters(fleet: seq<Vehicle>, groups: map<string, seq<Vehicle>>) {
    forall seg :: InSegment(fleet, seg) == if seg in groups then groups[seg] else []
  }

  lemma FiltersNext(fleet: seq<Vehicle>, v: Vehicle, groups: map<string, seq<Vehicle>>)
    requires Filters(fleet, groups)
    ensures Filters(fleet + [v], groups[v.segment := (if v.segment in groups then groups[v.segment] else []) + [v]])
  {
    hide InSegment;
    forall seg ensures InSegment(fleet + [v], seg) == InSegment(fleet, seg) + if v.segment == seg then [v] else [] {
      InSegmentSnoc(fleet, v, seg);
    }
  }

  ghost predicate Grouped(fleet: seq<Vehicle>, groups: map<string, seq<Vehicle>>) {
    && (forall v :: v in fleet ==> v.segment in groups)
    && (forall seg :: seg in groups ==> groups[seg] != [] && DistinctIds(groups[seg]))
    && (forall seg, v :: seg in groups && v in groups[seg] ==> v in fleet && v.segment == seg)
    && (forall v :: v in fleet && v.segment in groups ==> v in groups[v.segment])
  }

  lemma GroupedNext(fleet: seq<Vehicle>, v: Vehicle, groups: map<string, seq<Vehicle>>)
    requires Grouped(fleet, groups) && v.id !in Ids(fleet)
    ensures Grouped(fleet + [v], groups[v.segment := (if v.segment in groups then groups[v.segment] else []) + [v]])
  {
    var mine := if v.segment in groups then groups[v.segment] else [];
    forall u | u in mine ensures u.id != v.id {
      assert u in fleet;
    }
    assert forall u :: u in mine + [v] <==> u in mine || u == v;
  }

  method GroupBySegment(fleet: seq<Vehicle>) returns (groups: map<string, seq<Vehicle>>)
    requires DistinctIds(fleet)
    ensures Grouped(fleet, groups) && Filters(fleet, groups)
    ensures fleet != [] ==> groups != map[]
  {
    hide Grouped, Filters;
    groups := map[];
    NoGroups();
    for i := 0 to |fleet|
      invariant Grouped(fleet[..i], groups) && Filters(fleet[..i], groups)
      invariant i > 0 ==> groups != map[]
    {
      var v := fleet[i];
      assert fleet[..i + 1] == fleet[..i] + [v];
      GroupedNext(fleet[..i], v, groups);
      FiltersNext(fleet[..i], v, groups);
      groups := groups[v.segment := (if v.segment in groups then groups[v.segment] else []) + [v]];
      assert v.segment in groups;
    }
    assert fleet[..|fleet|] == fleet;
  }

  lemma NoGroups()
    ensures Grouped([], map[]) && Filters([], map[])
  {
  }

  // ----- the whole dispatch

  /** Power assigned so far is the sum over the segments done, and only their vehicles have an entry. */
  ghost predicate SegmentsDone(fleet: seq<Vehicle>, signal: Signal, part: Signal, done: set<string>, lps: nat,
                               st: Settings, a: map<Id, real>) {
    && InEnvelope(st, fleet, signal, a)
    && (forall id, v :: id in a && v in fleet && v.id == id ==> v.segment in done)
    && Signed(signal.power, Total(a)) <= Times(|done|, Abs(part.power)) + Times(lps, LP_TOLERANCE)
  }

  lemma SegmentAdded(fleet: seq<Vehicle>, signal: Signal, part: Signal, done: set<string>, lps: nat, st: Settings,
                     a: map<Id, real>, seg: string, res: map<Id, real>, isLp: bool)
    requires DistinctIds(fleet) && SegmentsDone(fleet, signal, part, done, lps, st, a) && seg !in done
    requires SameDirection(part.power, signal.power)
    requires InEnvelope(st, fleet, signal, res)
    requires forall id, v :: id in res && v in fleet && v.id == id ==> v.segment == seg
    requires Signed(part.power, Total(res)) <= Abs(part.power) + if isLp then LP_TOLERANCE else 0.0
    ensures SegmentsDone(fleet, signal, part, done + {seg}, if isLp then lps + 1 else lps, st, a + res)
  {
    hide Total, InEnvelope, Times;
    EnvelopeUnion(st, fleet, signal, a, res);
    OtherVehicles(fleet, signal, done, st, a, seg, res);
    TotalUnion(a, res);
    assert |done + {seg}| == |done| + 1;
    OneMore(|done|, Abs(part.power));
    OneMore(lps, LP_TOLERANCE);
  }

  lemma EnvelopeUnion(st: Settings, fleet: seq<Vehicle>, signal: Signal, a: map<Id, real>, b: map<Id, real>)
    requires InEnvelope(st, fleet, signal, a) && InEnvelope(st, fleet, signal, b)
    ensures InEnvelope(st, fleet, signal, a + b)
  {
    hide VehicleInEnvelope;
  }

  lemma OtherVehicles(fleet: seq<Vehicle>, signal: Signal, done: set<string>, st: Settings, a: map<Id, real>,
                      seg: string, res: map<Id, real>)
    requires InEnvelope(st, fleet, signal, a) && seg !in done
    requires forall id, v :: id in a && v in fleet && v.id == id ==> v.segment in done
    requires forall id, v :: id in res && v in fleet && v.id == id ==> v.segment == seg
    ensures a.Keys !! res.Keys
  {
    hide VehicleInEnvelope;
    forall id | id in a ensures id !in res {
      var v :| v in fleet && v.id == id && VehicleInEnvelope(st, v, signal, a[id]);
    }
  }

  lemma OneMore(n: nat, x: real)
    ensures Times(n + 1, x) == Times(n, x) + x
  {
  }

  class SegmentedDispatcher {
    const segments: map<string, SegmentConfig>
    const defaults: SegmentConfig
    const solver: Solver

    constructor (cfg: map<string, SegmentConfig>, default: SegmentConfig, f: Solver)
      ensures segments == cfg && defaults == default && solver == f
    {
      segments, defaults, solver := cfg, default, f;
    }

    /** The segments among `segs` that are configured for linear programming. */
    ghost function LpAmong(segs: set<string>): set<string> {
      set seg | seg in segs && (if seg in segments then segments[seg].lp else defaults.lp)
    }

    method LookUp(seg: string) returns (cfg: SegmentConfig)
      ensures seg in segments ==> cfg == segments[seg]
      ensures seg !in segments ==> cfg == defaults
    {
      cfg := defaults;
      if seg in segments {
        cfg := segments[seg];
      }
    }

    /** Every segment among `done` has been dispatched on its own with the given part of the signal. */
    ghost predicate EachSegment(fleet: seq<Vehicle>, part: Signal, done: set<string>, a: map<Id, real>) {
      forall seg :: seg in done ==>
        SegmentOutcome(solver, InSegment(fleet, seg), part, if seg in segments then segments[seg] else defaults,
                       Only(a, InSegment(fleet, seg)))
    }

    lemma LpNone()
      ensures LpAmong({}) == {}
    {
    }

    lemma NoSegmentYet(fleet: seq<Vehicle>, part: Signal)
      ensures EachSegment(fleet, part, {}, map[])
    {
    }

    lemma LpGrows(segs: set<string>, seg: string, cfg: SegmentConfig)
      requires seg !in segs && cfg == if seg in segments then segments[seg] else defaults
      ensures |LpAmong(segs + {seg})| == if cfg.lp then |LpAmong(segs)| + 1 else |LpAmong(segs)|
    {
      assert LpAmong(segs + {seg}) == if cfg.lp then LpAmong(segs) + {seg} else LpAmong(segs);
    }

    /** One iteration of the loop over the groups. */
    method AddSegment(fleet: seq<Vehicle>, signal: Signal, groups: map<string, seq<Vehicle>>, part: Signal,
                      ghost done: set<string>, seg: string, given: map<Id, real>)
      returns (assignments: map<Id, real>)
      requires DistinctIds(fleet) && Grouped(fleet, groups) && Filters(fleet, groups) && seg in groups && seg !in done
      requires SameDirection(part.power, signal.power) && part.duration == signal.duration
      requires SegmentsDone(fleet, signal, part, done, |LpAmong(done)|, SegmentSettings(defaults), given)
      requires EachSegment(fleet, part, done, given) && done <= groups.Keys
      ensures SegmentsDone(fleet, signal, part, done + {seg}, |LpAmong(done + {seg})|, SegmentSettings(defaults), assignments)
      ensures EachSegment(fleet, part, done + {seg}, assignments)
    {
      hide InEnvelope, Total, SegmentsDone, Grouped, Filters, DistinctIds, LpAmong, SegmentOutcome, Only, InSegment;
      var cfg := LookUp(seg);
      GroupFacts(fleet, groups, seg);
      FilteredGroup(fleet, groups, seg);
      var res := DispatchSegment(solver, groups[seg], part, cfg);
      SegmentEnvelope(SegmentSettings(cfg), SegmentSettings(defaults), fleet, groups[seg], part, signal, res);
      SegmentOwns(fleet, groups[seg], seg, part, SegmentSettings(cfg), res);
      SegmentAdded(fleet, signal, part, done, |LpAmong(done)|, SegmentSettings(defaults), given, seg, res, cfg.lp);
      LpGrows(done, seg, cfg);
      assignments := given + res;
      forall s | s in done ensures Only(assignments, InSegment(fleet, s)) == Only(given, InSegment(fleet, s)) {
        GroupFacts(fleet, groups, s);
        FilteredGroup(fleet, groups, s);
        OthersKept(fleet, InSegment(fleet, s), s, seg, given, res);
      }
      SegmentIsNew(fleet, signal, part, done, |LpAmong(done)|, SegmentSettings(defaults), SegmentSettings(cfg), given,
                   InSegment(fleet, seg), seg, res);
    }

    /** Groups are visited in any order, as Go iterates over maps. */
    method Dispatch(fleet: seq<Vehicle>, signal: Signal) returns (assignments: map<Id, real>)
      requires DistinctIds(fleet)
      ensures fleet == [] ==> assignments == map[]
      ensures var segs := set v | v in fleet :: v.segment;
              fleet != [] ==> |segs| > 0 && EachSegment(fleet, Part(signal, |segs|), segs, assignments)
      ensures InEnvelope(SegmentSettings(defaults), fleet, signal, assignments)
      ensures AboveTenPercent(fleet, signal, assignments)
      ensures Signed(signal.power, Total(assignments))
           <= Abs(signal.power) + Times(|LpAmong(set v | v in fleet :: v.segment)|, LP_TOLERANCE)
    {
      hide InEnvelope, Total, SegmentsDone, Grouped, Filters, DistinctIds, Times, LpAmong, EachSegment, AboveTenPercent;
      assignments := map[];
      SegmentsNone(fleet, signal, signal, SegmentSettings(defaults));
      if |fleet| == 0 {
        LpNone();
        NothingBelow(fleet, signal, SegmentSettings(defaults), assignments);
        assert (set v | v in fleet :: v.segment) == {};
        return;
      }
      var groups := GroupBySegment(fleet);
      assert |groups| == |groups.Keys| > 0;
      var part := Part(signal, |groups|);
      PartKeepsDirection(signal, |groups|);
      SegmentsNone(fleet, signal, part, SegmentSettings(defaults));
      var todo := groups.Keys;
      ghost var done: set<string> := {};
      LpNone();
      NoSegmentYet(fleet, part);
      while todo != {}
        invariant todo + done == groups.Keys && todo !! done
        invariant EachSegment(fleet, part, done, assignments)
        invariant SegmentsDone(fleet, signal, part, done, |LpAmong(done)|, SegmentSettings(defaults), assignments)
        decreases |todo|
      {
        var seg :| seg in todo;
        assignments := AddSegment(fleet, signal, groups, part, done, seg, assignments);
        todo, done := todo - {seg}, done + {seg};
      }
      assert done == groups.Keys;
      GroupSegments(fleet, groups);
      SegmentsEnd(fleet, signal, part, done, |LpAmong(done)|, SegmentSettings(defaults), assignments);
      NothingBelow(fleet, signal, SegmentSettings(defaults), assignments);
    }
  }

  ghost function Only(a: map<Id, real>, vs: seq<Vehicle>): map<Id, real> {
    map id | id in a && id in Ids(vs) :: a[id]
  }

  lemma OthersKept(fleet: seq<Vehicle>, vs: seq<Vehicle>, s: string, seg: string, given: map<Id, real>, res: map<Id, real>)
    requires s != seg && forall v :: v in vs ==> v in fleet && v.segment == s
    requires forall id, v :: id in res && v in fleet && v.id == id ==> v.segment == seg
    ensures Only(given + res, vs) == Only(given, vs)
  {
  }

  lemma SegmentIsNew(fleet: seq<Vehicle>, signal: Signal, part: Signal, done: set<string>, lps: nat, st: Settings,
                     st': Settings, given: map<Id, real>, vs: seq<Vehicle>, seg: string, res: map<Id, real>)
    requires SegmentsDone(fleet, signal, part, done, lps, st, given) && seg !in done
    requires InEnvelope(st', vs, part, res) && forall v :: v in vs ==> v in fleet && v.segment == seg
    ensures Only(given + res, vs) == res
  {
    hide Total, VehicleInEnvelope;
    forall id | id in res ensures id in Ids(vs) {
      var v :| v in vs && v.id == id && VehicleInEnvelope(st', v, part, res[id]);
    }
  }

  lemma SegmentsNone(fleet: seq<Vehicle>, signal: Signal, part: Signal, st: Settings)
    ensures SegmentsDone(fleet, signal, part, {}, 0, st, map[])
    ensures InEnvelope(st, fleet, signal, map[])
    ensures Signed(signal.power, Total<Id>(map[])) == 0.0 == Times(0, LP_TOLERANCE)
  {
    NothingGiven();
  }

  lemma SegmentsEnd(fleet: seq<Vehicle>, signal: Signal, part: Signal, done: set<string>, lps: nat,
                    st: Settings, a: map<Id, real>)
    requires SegmentsDone(fleet, signal, part, done, lps, st, a)
    requires Times(|done|, Abs(part.power)) == Abs(signal.power)
    ensures InEnvelope(st, fleet, signal, a)
    ensures Signed(signal.power, Total(a)) <= Abs(signal.power) + Times(lps, LP_TOLERANCE)
  {
  }

  lemma FilteredGroup(fleet: seq<Vehicle>, groups: map<string, seq<Vehicle>>, seg: string)
    requires Filters(fleet, groups) && seg in groups
    ensures groups[seg] == InSegment(fleet, seg)
  {
    hide InSegment;
  }

  lemma GroupFacts(fleet: seq<Vehicle>, groups: map<string, seq<Vehicle>>, seg: string)
    requires Grouped(fleet, groups) && seg in groups
    ensures DistinctIds(groups[seg])
    ensures forall v :: v in groups[seg] ==> v in fleet && v.segment == seg
  {
  }

  lemma GroupSegments(fleet: seq<Vehicle>, groups: map<string, seq<Vehicle>>)
    requires Grouped(fleet, groups)
    ensures groups.Keys == set v | v in fleet :: v.segment
    ensures |groups| == |set v | v in fleet :: v.segment|
  {
    forall seg | seg in groups ensures seg in (set v | v in fleet :: v.segment) {
      var v := groups[seg][0];
      assert v in groups[seg];
      assert v in fleet && v.segment == seg;
    }
    assert groups.Keys == set v | v in fleet :: v.segment;
  }

  /** A segment only assigns power to its own vehicles. */
  lemma SegmentOwns(fleet: seq<Vehicle>, vs: seq<Vehicle>, seg: string, part: Signal, st: Settings, res: map<Id, real>)
    requires DistinctIds(fleet) && InEnvelope(st, vs, part, res)
    requires forall v :: v in vs ==> v in fleet && v.segment == seg
    ensures forall id, v :: id in res && v in fleet && v.id == id ==> v.segment == seg
  {
    hide VehicleInEnvelope;
    forall id, v | id in res && v in fleet && v.id == id ensures v.segment == seg {
      var u :| u in vs && u.id == id && VehicleInEnvelope(st, u, part, res[id]);
      SameIdSameVehicle(fleet, u, v);
    }
  }
}
