/**
 SmartDispatcher (core/dispatch/smart_dispatcher.go): rounds of shares proportional to the
 scores.  Within a round the rest shrinks while the weight it is divided by does not, so
 the rounds converge geometrically instead of ending in one step.
 */
module SmartAllocation {
  import opened Totals
  import opened Fleet
  import opened Arithmetic

  datatype Candidate = Candidate(v: Vehicle, score: real, capacity: real)

  datatype Round = Round(kept: seq<Candidate>, weight: real, remaining: real, given: map<Id, real>)

  /** One iteration of the loop in allocateRound; `kept` holds the candidate if it stays. */
  function Visit(weight: real, remaining: real, given: map<Id, real>, c: Candidate, power: real): Round
    requires weight > 0.0
  {
    var share := Share(remaining, c.score, weight);
    if share >= c.capacity then
      Round([], weight - c.score, remaining - c.capacity, Credit(given, c.v.id, power, c.capacity))
    else
      Round([c.(capacity := c.capacity - share)], weight, remaining - share, Credit(given, c.v.id, power, share))
  }

  /** allocateRound over the candidates `rest`. */
  function AllocateRound(weight: real, remaining: real, given: map<Id, real>, rest: seq<Candidate>, power: real): Round
    decreases |rest|
  {
    if rest == [] || remaining <= 0.0 || weight <= 0.0 then Round([], weight, remaining, given)
    else
      var p := Visit(weight, remaining, given, rest[0], power);
      var q := AllocateRound(p.weight, p.remaining, p.given, rest[1..], power);
      q.(kept := p.kept + q.kept)
  }

  /** The outer loop of Dispatch, at most `m` rounds. */
  function Rounds(r: Round, power: real, m: nat): Round
    decreases m
  {
    if r.remaining <= 0.0 || r.kept == [] || r.weight <= 0.0 || m == 0 then r
    else
      var q := AllocateRound(r.weight, r.remaining, r.given, r.kept, power);
      if q.remaining == r.remaining then q else Rounds(q, power, m - 1)
  }

  ghost function ScoreSum(list: seq<Candidate>): real {
    if list == [] then 0.0 else list[0].score + ScoreSum(list[1..])
  }

  ghost predicate Good(list: seq<Candidate>) {
    forall c :: c in list ==> c.score >= 0.0 && c.capacity > 0.0
  }

  lemma {:induction false} ScoreSumNonnegative(list: seq<Candidate>)
    requires Good(list)
    ensures ScoreSum(list) >= 0.0
    ensures forall c :: c in list ==> c.score <= ScoreSum(list)
  {
    if list != [] {
      assert list == [list[0]] + list[1..];
      ScoreSumNonnegative(list[1..]);
    }
  }

  lemma {:induction false} ScoreSumConcat(a: seq<Candidate>, b: seq<Candidate>)
    ensures ScoreSum(a + b) == ScoreSum(a) + ScoreSum(b)
  {
    if a == [] {
      assert a + b == b;
    } else {
      assert (a + b)[1..] == a[1..] + b;
      ScoreSumConcat(a[1..], b);
    }
  }

  // ----- one round

  /** Facts about one visit, with the scores still in play counted in `weight`. */
  lemma VisitFacts(weight: real, remaining: real, given: map<Id, real>, c: Candidate, power: real)
    requires weight > 0.0 && remaining > 0.0 && 0.0 <= c.score <= weight && c.capacity > 0.0
    ensures var p := Visit(weight, remaining, given, c, power);
            && 0.0 <= p.remaining <= remaining
            && p.weight == weight - c.score + ScoreSum(p.kept) >= 0.0
            && Good(p.kept) && |p.kept| <= 1
            && p.given == Credit(given, c.v.id, power, remaining - p.remaining)
            && Total(p.given) == Total(given) + Signed(power, remaining - p.remaining)
            && (c.score > 0.0 ==> p.remaining < remaining)
            && (p.kept != [] ==> p.remaining == remaining - Share(remaining, c.score, weight) && p.weight == weight)
            && (if p.kept == [] then remaining - p.remaining == c.capacity
                else p.kept == [c.(capacity := c.capacity - (remaining - p.remaining))])
  {
    ProportionalShare(remaining, c.score, weight);
    hide Share;
    var share := Share(remaining, c.score, weight);
    TotalSet(given, c.v.id, Get(given, c.v.id) + Signed(power, Min(share, c.capacity)));
  }

  /**
   `others` are the scores of the candidates kept earlier in the same round.  The weight
   stays equal to the scores in play, the rest stays non-negative, and what is spent is
   what is credited.
   */
  lemma {:induction false} RoundConserves(weight: real, remaining: real, given: map<Id, real>,
                                          rest: seq<Candidate>, power: real, others: real)
    requires Good(rest) && others >= 0.0 && weight == others + ScoreSum(rest) && remaining >= 0.0
    ensures var q := AllocateRound(weight, remaining, given, rest, power);
            && 0.0 <= q.remaining <= remaining
            && Good(q.kept) && |q.kept| <= |rest|
            && q.weight >= 0.0
            && (q.remaining == 0.0 || q.weight == others + ScoreSum(q.kept))
            && Total(q.given) == Total(given) + Signed(power, remaining - q.remaining)
    decreases |rest|
  {
    hide Total, Share, Visit, Credit;
    ScoreSumNonnegative(rest);
    if rest != [] && remaining > 0.0 && weight > 0.0 {
      var c, tail := rest[0], rest[1..];
      assert rest == [c] + tail;
      assert c in rest;
      ScoreSumNonnegative(tail);
      var p := Visit(weight, remaining, given, c, power);
      VisitFacts(weight, remaining, given, c, power);
      ScoreSumNonnegative(p.kept);
      RoundConserves(p.weight, p.remaining, p.given, tail, power, others + ScoreSum(p.kept));
      ScoreSumConcat(p.kept, AllocateRound(p.weight, p.remaining, p.given, tail, power).kept);
    }
  }

  /**
   A round that keeps every candidate divides by the same weight all along.  `served` are
   the scores visited so far and `start` is the rest at the beginning of the round.
   */
  lemma {:induction false} RoundShrinks(weight: real, remaining: real, given: map<Id, real>,
                                        rest: seq<Candidate>, power: real, served: real, start: real)
    requires Good(rest) && served >= 0.0 && weight == served + ScoreSum(rest) && weight > 0.0 && remaining >= 0.0
    requires start >= 0.0 && Shrunk(remaining, weight, served, start)
    ensures var q := AllocateRound(weight, remaining, given, rest, power);
            |q.kept| < |rest| || q.remaining * 2.0 <= start
    decreases |rest|
  {
    hide Total, Visit, Credit, Shrunk, Share;
    ScoreSumNonnegative(rest);
    if rest == [] {
      ShrunkEnd(remaining, weight, start);
    } else if remaining > 0.0 {
      var c, tail := rest[0], rest[1..];
      assert rest == [c] + tail;
      assert c in rest;
      var p := Visit(weight, remaining, given, c, power);
      VisitFacts(weight, remaining, given, c, power);
      ScoreSumNonnegative(tail);
      if p.kept == [] {
        RoundConserves(p.weight, p.remaining, p.given, tail, power, served);
      } else {
        ShrunkStep(remaining, c.score, weight, served, start);
        RoundShrinks(p.weight, p.remaining, p.given, tail, power, served + c.score, start);
      }
    }
  }

  /** Every round loses a candidate or at least halves the rest. */
  lemma RoundSaturatesOrHalves(weight: real, remaining: real, given: map<Id, real>, list: seq<Candidate>, power: real)
    requires Good(list) && weight == ScoreSum(list) > 0.0 && remaining > 0.0
    ensures var q := AllocateRound(weight, remaining, given, list, power);
            |q.kept| < |list| || q.remaining * 2.0 <= remaining
  {
    ShrunkStart(remaining, weight);
    RoundShrinks(weight, remaining, given, list, power, 0.0, remaining);
  }

  /** A round always spends something, so the `consumed == 0` exit is never taken. */
  lemma {:induction false} RoundSpends(weight: real, remaining: real, given: map<Id, real>,
                                       rest: seq<Candidate>, power: real, others: real)
    requires Good(rest) && others >= 0.0 && weight == others + ScoreSum(rest) && remaining > 0.0
    requires ScoreSum(rest) > 0.0
    ensures AllocateRound(weight, remaining, given, rest, power).remaining < remaining
    decreases |rest|
  {
    hide Total, Share, Visit, Credit;
    ScoreSumNonnegative(rest);
    var c, tail := rest[0], rest[1..];
    assert rest == [c] + tail;
    assert c in rest;
    ScoreSumNonnegative(tail);
    var p := Visit(weight, remaining, given, c, power);
    VisitFacts(weight, remaining, given, c, power);
    ScoreSumNonnegative(p.kept);
    RoundConserves(p.weight, p.remaining, p.given, tail, power, others + ScoreSum(p.kept));
    if c.score == 0.0 {
      if p.remaining == remaining {
        RoundSpends(p.weight, p.remaining, p.given, tail, power, others + ScoreSum(p.kept));
      }
    }
  }

  // ----- all rounds

  ghost predicate Balanced(r: Round) {
    Good(r.kept) && r.remaining >= 0.0 && r.weight >= 0.0 && (r.remaining == 0.0 || r.weight == ScoreSum(r.kept))
  }

  /**
   After m rounds over n <= m candidates: nothing is left to hand out, or nobody with a
   positive score has room, or the rest has shrunk by 2^(m-n).
   */
  lemma {:induction false} RoundsConverge(r: Round, power: real, m: nat)
    requires Balanced(r)
    ensures var q := Rounds(r, power, m);
            && Balanced(q) && q.remaining <= r.remaining
            && Total(q.given) == Total(r.given) + Signed(power, r.remaining - q.remaining)
            && (m >= |r.kept| ==>
                  q.remaining == 0.0 || q.weight == 0.0 || HalvedTimes(q.remaining, m - |r.kept|, r.remaining))
    decreases m
  {
    hide Total, AllocateRound, HalvedTimes;
    if r.remaining <= 0.0 || r.kept == [] || r.weight <= 0.0 || m == 0 {
    } else {
      var q := AllocateRound(r.weight, r.remaining, r.given, r.kept, power);
      RoundConserves(r.weight, r.remaining, r.given, r.kept, power, 0.0);
      RoundSpends(r.weight, r.remaining, r.given, r.kept, power, 0.0);
      RoundSaturatesOrHalves(r.weight, r.remaining, r.given, r.kept, power);
      RoundsConverge(q, power, m - 1);
      var last := Rounds(q, power, m - 1);
      if m >= |r.kept| && last.remaining != 0.0 && last.weight != 0.0 {
        Combine(last.remaining, q.remaining, r.remaining, |q.kept|, |r.kept|, m);
      }
    }
  }

  lemma Combine(last: real, mid: real, start: real, left: nat, n: nat, m: nat)
    requires m >= 1 && left <= n <= m && 0.0 <= last <= mid <= start
    requires left < n || mid * 2.0 <= start
    requires m - 1 >= left ==> HalvedTimes(last, m - 1 - left, mid)
    ensures HalvedTimes(last, m - n, start)
  {
    hide HalvedTimes;
    if left < n {
      HalvedAtLeast(last, m - n, m - 1 - left, mid, start);
    } else if n < m {
      HalvedOnceMore(last, m - 1 - n, mid, start);
    } else {
      NotHalved(last, start);
    }
  }

  // ----- who got how much

  ghost predicate DistinctCandidates(list: seq<Candidate>) {
    forall i, j :: 0 <= i < j < |list| ==> list[i].v.id != list[j].v.id
  }

  ghost function CandidateIds(list: seq<Candidate>): set<Id> {
    set c | c in list :: c.v.id
  }

  /** Power credited to a vehicle, as a magnitude. */
  function Magnitude(given: map<Id, real>, id: Id, power: real): real { Signed(power, Get(given, id)) }

  /** Nobody has more than his capacity, and the capacities in the list are what is left. */
  ghost predicate Ledger(caps: map<Id, real>, list: seq<Candidate>, given: map<Id, real>, power: real) {
    && DistinctCandidates(list)
    && (forall id :: id in given ==> id in caps && 0.0 <= Magnitude(given, id, power) <= caps[id])
    && (forall c :: c in list ==>
          c.v.id in caps && c.capacity > 0.0 && Magnitude(given, c.v.id, power) + c.capacity == caps[c.v.id])
  }

  /** Which entries a round may change, and what became of the candidates it did not keep. */
  ghost predicate Settled(caps: map<Id, real>, rest: seq<Candidate>, given: map<Id, real>, q: Round, power: real) {
    && (forall id :: id in given ==> id in q.given)
    && (forall id :: id !in CandidateIds(rest) ==> Get(q.given, id) == Get(given, id))
    && (forall c :: c in q.kept ==> exists b :: b in rest && b.v == c.v && b.score == c.score)
    && (q.remaining > 0.0 ==>
          forall c :: c in rest && c.score > 0.0 ==>
            c.v.id in CandidateIds(q.kept) || (c.v.id in caps && Magnitude(q.given, c.v.id, power) == caps[c.v.id]))
  }

  lemma CandidateTail(rest: seq<Candidate>)
    requires rest != [] && DistinctCandidates(rest)
    ensures DistinctCandidates(rest[1..]) && rest[0].v.id !in CandidateIds(rest[1..])
    ensures CandidateIds(rest) == {rest[0].v.id} + CandidateIds(rest[1..])
  {
    assert rest == [rest[0]] + rest[1..];
    forall c | c in rest[1..] ensures c.v.id != rest[0].v.id {
      var i :| 0 <= i < |rest[1..]| && rest[1..][i] == c;
      assert rest[i + 1] == c;
    }
  }

  lemma LedgerAfterVisit(caps: map<Id, real>, weight: real, remaining: real, given: map<Id, real>,
                         rest: seq<Candidate>, power: real)
    requires rest != [] && Good(rest) && rest[0].score <= weight && weight > 0.0 && remaining > 0.0
    requires Ledger(caps, rest, given, power)
    ensures var p := Visit(weight, remaining, given, rest[0], power);
            && Ledger(caps, rest[1..], p.given, power)
            && Ledger(caps, p.kept, p.given, power)
            && DistinctCandidates(rest) && rest[0].v.id in caps
            && (p.kept == [] ==> Magnitude(p.given, rest[0].v.id, power) == caps[rest[0].v.id])
            && (p.kept != [] ==> p.kept[0].v == rest[0].v && p.kept[0].score == rest[0].score && |p.kept| == 1)
            && p.given.Keys == given.Keys + {rest[0].v.id}
            && (forall id :: id != rest[0].v.id ==> Get(p.given, id) == Get(given, id))
  {
    hide Total, Share;
    var c := rest[0];
    assert c in rest;
    CandidateTail(rest);
    VisitFacts(weight, remaining, given, c, power);
    var p := Visit(weight, remaining, given, c, power);
    var spent := remaining - p.remaining;
    assert forall b :: b in rest[1..] ==> b in rest && b.v.id in CandidateIds(rest[1..]);
    assert Magnitude(p.given, c.v.id, power) == Magnitude(given, c.v.id, power) + spent;
  }

  lemma {:induction false} RoundLedger(caps: map<Id, real>, weight: real, remaining: real, given: map<Id, real>,
                                       rest: seq<Candidate>, power: real, others: real)
    requires Good(rest) && others >= 0.0 && weight == others + ScoreSum(rest) && remaining >= 0.0
    requires Ledger(caps, rest, given, power)
    ensures var q := AllocateRound(weight, remaining, given, rest, power);
            && Ledger(caps, q.kept, q.given, power)
            && Settled(caps, rest, given, q, power)
    decreases |rest|
  {
    hide Total, Share, Visit, Credit, Ledger, Settled, Magnitude;
    ScoreSumNonnegative(rest);
    if rest == [] || remaining <= 0.0 || weight <= 0.0 {
      StoppedLedger(caps, rest, given, weight, remaining, power);
    } else {
      var c, tail := rest[0], rest[1..];
      assert rest == [c] + tail && c in rest;
      ScoreSumNonnegative(tail);
      var p := Visit(weight, remaining, given, c, power);
      VisitFacts(weight, remaining, given, c, power);
      ScoreSumNonnegative(p.kept);
      LedgerAfterVisit(caps, weight, remaining, given, rest, power);
      RoundLedger(caps, p.weight, p.remaining, p.given, tail, power, others + ScoreSum(p.kept));
      var q := AllocateRound(p.weight, p.remaining, p.given, tail, power);
      assert Visited(caps, rest, given, p, q, power);
      LedgerCombines(caps, rest, given, p, q, power);
      SettledCombines(caps, rest, given, p, q, power);
    }
  }

  lemma StoppedLedger(caps: map<Id, real>, rest: seq<Candidate>, given: map<Id, real>,
                      weight: real, remaining: real, power: real)
    requires Good(rest) && Ledger(caps, rest, given, power) && ScoreSum(rest) <= weight
    requires rest == [] || remaining <= 0.0 || weight <= 0.0
    ensures Ledger(caps, [], given, power)
    ensures Settled(caps, rest, given, Round([], weight, remaining, given), power)
  {
    ScoreSumNonnegative(rest);
  }

  /** `p` is what the visit of the first candidate left, `q` what the rest of the round left. */
  ghost predicate Visited(caps: map<Id, real>, rest: seq<Candidate>, given: map<Id, real>, p: Round, q: Round, power: real) {
    && rest != [] && DistinctCandidates(rest) && |p.kept| <= 1
    && Ledger(caps, p.kept, p.given, power)
    && (p.kept == [] ==> rest[0].v.id in caps && Magnitude(p.given, rest[0].v.id, power) == caps[rest[0].v.id])
    && (p.kept != [] ==> p.kept[0].v == rest[0].v && p.kept[0].score == rest[0].score)
    && p.given.Keys == given.Keys + {rest[0].v.id}
    && (forall id :: id != rest[0].v.id ==> Get(p.given, id) == Get(given, id))
    && Ledger(caps, q.kept, q.given, power)
    && Settled(caps, rest[1..], p.given, q, power)
  }

  lemma KeptAreOthers(caps: map<Id, real>, rest: seq<Candidate>, given: map<Id, real>, p: Round, q: Round, power: real)
    requires Visited(caps, rest, given, p, q, power)
    ensures forall c :: c in q.kept ==> c.v.id != rest[0].v.id
    ensures Get(q.given, rest[0].v.id) == Get(p.given, rest[0].v.id)
  {
    CandidateTail(rest);
    forall c | c in q.kept ensures c.v.id != rest[0].v.id {
      var b :| b in rest[1..] && b.v == c.v;
      assert b.v.id in CandidateIds(rest[1..]);
    }
  }

  lemma LedgerCombines(caps: map<Id, real>, rest: seq<Candidate>, given: map<Id, real>, p: Round, q: Round, power: real)
    requires Visited(caps, rest, given, p, q, power)
    ensures Ledger(caps, p.kept + q.kept, q.given, power)
  {
    KeptAreOthers(caps, rest, given, p, q, power);
    hide Settled, Get;
    if p.kept == [] {
      assert p.kept + q.kept == q.kept;
    } else {
      assert p.kept == [p.kept[0]] && p.kept[0] in p.kept;
    }
  }

  lemma SettledCombines(caps: map<Id, real>, rest: seq<Candidate>, given: map<Id, real>, p: Round, q: Round, power: real)
    requires Visited(caps, rest, given, p, q, power)
    ensures Settled(caps, rest, given, q.(kept := p.kept + q.kept), power)
  {
    KeptAreOthers(caps, rest, given, p, q, power);
    CandidateTail(rest);
    hide Ledger, DistinctCandidates, Get;
    assert rest == [rest[0]] + rest[1..];
    assert CandidateIds(p.kept + q.kept) == CandidateIds(p.kept) + CandidateIds(q.kept);
    if p.kept != [] {
      assert p.kept == [p.kept[0]] && p.kept[0] in p.kept;
      assert rest[0].v.id in CandidateIds(p.kept);
    }
  }

  // ----- the ledger over all rounds

  /** Every candidate with a positive score is still in play or at its capacity. */
  ghost predicate Accounted(caps: map<Id, real>, cands: seq<Candidate>, r: Round, power: real) {
    && (forall c :: c in r.kept ==> exists b :: b in cands && b.v == c.v && b.score == c.score)
    && (r.remaining > 0.0 ==>
          forall c :: c in cands && c.score > 0.0 ==>
            c.v.id in CandidateIds(r.kept) || (c.v.id in caps && Magnitude(r.given, c.v.id, power) == caps[c.v.id]))
  }

  lemma SameCandidate(cands: seq<Candidate>, a: Candidate, b: Candidate)
    requires DistinctCandidates(cands) && a in cands && b in cands && a.v.id == b.v.id
    ensures a == b
  {
    var i :| 0 <= i < |cands| && cands[i] == a;
    var j :| 0 <= j < |cands| && cands[j] == b;
  }

  /** The list's entry for a candidate still carries the candidate's score. */
  lemma InPlay(caps: map<Id, real>, cands: seq<Candidate>, r: Round, power: real, c: Candidate) returns (k: Candidate)
    requires DistinctCandidates(cands) && Accounted(caps, cands, r, power)
    requires c in cands && c.v.id in CandidateIds(r.kept)
    ensures k in r.kept && k.v == c.v && k.score == c.score
  {
    k :| k in r.kept && k.v.id == c.v.id;
    var b :| b in cands && b.v == k.v && b.score == k.score;
    SameCandidate(cands, b, c);
  }

  lemma AccountedNext(caps: map<Id, real>, cands: seq<Candidate>, r: Round, q: Round, power: real)
    requires DistinctCandidates(cands) && Accounted(caps, cands, r, power)
    requires Settled(caps, r.kept, r.given, q, power) && q.remaining <= r.remaining
    ensures Accounted(caps, cands, q, power)
  {
    hide DistinctCandidates;
    forall c | c in q.kept ensures exists b :: b in cands && b.v == c.v && b.score == c.score {
      var b :| b in r.kept && b.v == c.v && b.score == c.score;
    }
    if q.remaining > 0.0 {
      forall c | c in cands && c.score > 0.0
        ensures c.v.id in CandidateIds(q.kept) || (c.v.id in caps && Magnitude(q.given, c.v.id, power) == caps[c.v.id])
      {
        if c.v.id in CandidateIds(r.kept) {
          var k := InPlay(caps, cands, r, power, c);
        }
      }
    }
  }

  lemma {:induction false} RoundsLedger(caps: map<Id, real>, cands: seq<Candidate>, r: Round, power: real, m: nat)
    requires DistinctCandidates(cands) && Balanced(r)
    requires Ledger(caps, r.kept, r.given, power) && Accounted(caps, cands, r, power)
    ensures var q := Rounds(r, power, m);
            Ledger(caps, q.kept, q.given, power) && Accounted(caps, cands, q, power)
    decreases m
  {
    hide Ledger, Accounted, Settled, AllocateRound, DistinctCandidates, Total;
    if r.remaining <= 0.0 || r.kept == [] || r.weight <= 0.0 || m == 0 {
    } else {
      var q := AllocateRound(r.weight, r.remaining, r.given, r.kept, power);
      RoundConserves(r.weight, r.remaining, r.given, r.kept, power, 0.0);
      RoundLedger(caps, r.weight, r.remaining, r.given, r.kept, power, 0.0);
      AccountedNext(caps, cands, r, q, power);
      RoundsLedger(caps, cands, q, power, m - 1);
    }
  }

  /** When no weight is left but power is, every positively scored candidate is at its capacity. */
  lemma NoWeightMeansSaturated(caps: map<Id, real>, cands: seq<Candidate>, r: Round, power: real)
    requires DistinctCandidates(cands) && Balanced(r) && Accounted(caps, cands, r, power)
    requires r.weight == 0.0 && r.remaining > 0.0
    ensures forall c :: c in cands && c.score > 0.0 ==>
              c.v.id in caps && Magnitude(r.given, c.v.id, power) == caps[c.v.id]
  {
    ScoreSumNonnegative(r.kept);
    forall c | c in cands && c.score > 0.0
      ensures c.v.id in caps && Magnitude(r.given, c.v.id, power) == caps[c.v.id]
    {
      if c.v.id in CandidateIds(r.kept) {
        var k := InPlay(caps, cands, r, power, c);
        assert false;
      }
    }
  }

  // ----- the result of a dispatch

  ghost function CandidateCaps(cands: seq<Candidate>): map<Id, real> {
    map id | id in CandidateIds(cands) :: (var c :| c in cands && c.v.id == id; c.capacity)
  }

  lemma CandidateCap(cands: seq<Candidate>, c: Candidate)
    requires DistinctCandidates(cands) && c in cands
    ensures c.v.id in CandidateCaps(cands) && CandidateCaps(cands)[c.v.id] == c.capacity
  {
    var b :| b in cands && b.v.id == c.v.id && CandidateCaps(cands)[c.v.id] == b.capacity;
    SameCandidate(cands, b, c);
  }

  lemma CapOwner(cands: seq<Candidate>, id: Id) returns (c: Candidate)
    requires DistinctCandidates(cands) && id in CandidateCaps(cands)
    ensures c in cands && c.v.id == id && CandidateCaps(cands)[id] == c.capacity
  {
    c :| c in cands && c.v.id == id;
    CandidateCap(cands, c);
  }

  /** Within capacity, of the signal's sign, and together with the residual exactly the request. */
  ghost predicate SmartOutcome(cands: seq<Candidate>, power: real, m: nat, a: map<Id, real>, residual: real) {
    && (forall id :: id in a ==> exists c :: c in cands && c.v.id == id && 0.0 <= Signed(power, a[id]) <= c.capacity)
    && 0.0 <= residual
    && Signed(power, Total(a)) + residual == Abs(power)
    && (m >= |cands| ==>
          || residual == 0.0
          || (forall c :: c in cands && c.score > 0.0 ==> c.v.id in a && Signed(power, a[c.v.id]) == c.capacity)
          || HalvedTimes(residual, m - |cands|, Abs(power)))
  }

  lemma LedgerStarts(cands: seq<Candidate>, power: real)
    requires Good(cands) && DistinctCandidates(cands)
    ensures var r := Round(cands, ScoreSum(cands), Abs(power), map[]);
            && Balanced(r)
            && Ledger(CandidateCaps(cands), cands, r.given, power)
            && Accounted(CandidateCaps(cands), cands, r, power)
  {
    ScoreSumNonnegative(cands);
    forall c | c in cands ensures c.v.id in CandidateCaps(cands) && CandidateCaps(cands)[c.v.id] == c.capacity {
      CandidateCap(cands, c);
    }
  }

  lemma RoundsOutcome(cands: seq<Candidate>, power: real, m: nat)
    requires Good(cands) && DistinctCandidates(cands)
    ensures var q := Rounds(Round(cands, ScoreSum(cands), Abs(power), map[]), power, m);
            SmartOutcome(cands, power, m, q.given, q.remaining)
  {
    hide Ledger, Accounted, Rounds, DistinctCandidates, Total, CandidateCaps, Good, ScoreSum, HalvedTimes;
    var caps := CandidateCaps(cands);
    var r := Round(cands, ScoreSum(cands), Abs(power), map[]);
    var q := Rounds(r, power, m);
    LedgerStarts(cands, power);
    RoundsConverge(r, power, m);
    RoundsLedger(caps, cands, r, power, m);
    NothingGiven();
    LedgerBounds(cands, q.kept, q.given, power);
    if q.weight == 0.0 && q.remaining > 0.0 {
      SaturatedAssignments(cands, q, power);
    }
  }

  lemma SaturatedAssignments(cands: seq<Candidate>, q: Round, power: real)
    requires Good(cands) && DistinctCandidates(cands) && Balanced(q) && Accounted(CandidateCaps(cands), cands, q, power)
    requires q.weight == 0.0 && q.remaining > 0.0
    ensures forall c :: c in cands && c.score > 0.0 ==> c.v.id in q.given && Signed(power, q.given[c.v.id]) == c.capacity
  {
    hide Accounted, CandidateCaps, DistinctCandidates;
    NoWeightMeansSaturated(CandidateCaps(cands), cands, q, power);
    forall c | c in cands && c.score > 0.0 ensures c.v.id in q.given && Signed(power, q.given[c.v.id]) == c.capacity {
      CandidateCap(cands, c);
    }
  }

  lemma NothingGiven()
    ensures Total<Id>(map[]) == 0.0
  {
  }

  lemma LedgerBounds(cands: seq<Candidate>, list: seq<Candidate>, given: map<Id, real>, power: real)
    requires DistinctCandidates(cands) && Ledger(CandidateCaps(cands), list, given, power)
    ensures forall id :: id in given ==>
              exists c :: c in cands && c.v.id == id && 0.0 <= Signed(power, given[id]) <= c.capacity
  {
    hide CandidateCaps, DistinctCandidates;
    forall id | id in given ensures exists c :: c in cands && c.v.id == id && 0.0 <= Signed(power, given[id]) <= c.capacity {
      var c := CapOwner(cands, id);
    }
  }
}
