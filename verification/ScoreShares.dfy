/**
 How the rounds of the scoring dispatcher share power out (core/dispatch/smart_dispatcher.go):
 in proportion to the scores only when there is nothing to compare, because the residual
 shrinks within a round; and without end when two scored candidates stay in play.
 */
module ScoreShares {
  import opened Totals
  import opened Fleet
  import opened Arithmetic
  import opened SmartAllocation

  // ----- rounds that do not end

  ghost predicate AtMostOnePositive(list: seq<Candidate>) {
    forall i, j :: 0 <= i < j < |list| ==> list[i].score == 0.0 || list[j].score == 0.0
  }

  lemma ScoresPairUp(list: seq<Candidate>, i: nat, j: nat)
    requires Good(list) && i < j < |list|
    ensures list[i].score + list[j].score <= ScoreSum(list)
  {
    var a, b := list[..j], list[j..];
    assert list == a + b && list[i] == a[i] && list[j] == b[0];
    assert a[i] in a && b[0] in b;
    assert forall c :: c in a || c in b ==> c in list;
    ScoreSumConcat(a, b);
    ScoreSumNonnegative(a);
    ScoreSumNonnegative(b);
  }

  /** A visit uses the residual up only if nobody else has a positive score. */
  lemma VisitFinishes(weight: real, remaining: real, given: map<Id, real>, c: Candidate, power: real)
    requires weight > 0.0 && remaining > 0.0 && 0.0 <= c.score <= weight && c.capacity > 0.0
    ensures Visit(weight, remaining, given, c, power).remaining == 0.0 ==> c.score == weight
  {
    ProportionalShare(remaining, c.score, weight);
    hide Share;
  }

  /** `others` are the scores of the candidates kept earlier in the same round. */
  lemma {:induction false} RoundFinishes(weight: real, remaining: real, given: map<Id, real>,
                                         rest: seq<Candidate>, power: real, others: real)
    requires Good(rest) && others >= 0.0 && weight == others + ScoreSum(rest) && remaining > 0.0
    ensures var q := AllocateRound(weight, remaining, given, rest, power);
            q.remaining == 0.0 ==> others == 0.0 && AtMostOnePositive(q.kept)
    decreases |rest|
  {
    hide Total, Share, Visit, Credit;
    ScoreSumNonnegative(rest);
    if rest != [] && weight > 0.0 {
      var c, tail := rest[0], rest[1..];
      assert rest == [c] + tail && c in rest;
      ScoreSumNonnegative(tail);
      var p := Visit(weight, remaining, given, c, power);
      VisitFacts(weight, remaining, given, c, power);
      VisitFinishes(weight, remaining, given, c, power);
      ScoreSumNonnegative(p.kept);
      if p.remaining > 0.0 {
        RoundFinishes(p.weight, p.remaining, p.given, tail, power, others + ScoreSum(p.kept));
        if p.kept != [] {
          assert p.kept[0] in p.kept;
        }
      }
    }
  }

  /**
   As long as two positively scored candidates are in play the guard of the loop over rounds
   holds, so without a bound on the rounds the loop goes on.
   */
  lemma {:induction false} RoundsGoOn(r: Round, power: real, n: nat, i: nat, j: nat)
    requires Balanced(r) && r.remaining > 0.0
    requires var list := Rounds(r, power, n).kept; i < j < |list| && list[i].score > 0.0 && list[j].score > 0.0
    ensures var q := Rounds(r, power, n); q.remaining > 0.0 && q.weight > 0.0 && q.kept != []
    decreases n
  {
    hide Total, AllocateRound;
    if r.kept == [] || r.weight <= 0.0 || n == 0 {
      ScoresPairUp(r.kept, i, j);
    } else {
      var q := AllocateRound(r.weight, r.remaining, r.given, r.kept, power);
      RoundConserves(r.weight, r.remaining, r.given, r.kept, power, 0.0);
      RoundSpends(r.weight, r.remaining, r.given, r.kept, power, 0.0);
      RoundFinishes(r.weight, r.remaining, r.given, r.kept, power, 0.0);
      if q.remaining > 0.0 {
        RoundsGoOn(q, power, n - 1, i, j);
      }
    }
  }

  /** Two candidates of score 1 with capacities 2x and x, asked for 3x. */
  ghost function Repeating(a: Vehicle, b: Vehicle, x: real, given: map<Id, real>): Round {
    Round([Candidate(a, 1.0, 2.0 * x), Candidate(b, 1.0, x)], 2.0, 3.0 * x, given)
  }

  lemma RepeatingRound(a: Vehicle, b: Vehicle, x: real, given: map<Id, real>, power: real) returns (more: map<Id, real>)
    requires x > 0.0
    ensures var r := Repeating(a, b, x, given);
            AllocateRound(r.weight, r.remaining, r.given, r.kept, power) == Repeating(a, b, x / 4.0, more)
  {
    var r := Repeating(a, b, x, given);
    var p := Visit(2.0, 3.0 * x, given, r.kept[0], power);
    assert p == Round([Candidate(a, 1.0, x / 2.0)], 2.0, 3.0 * x / 2.0, p.given) by { HalfShare(3.0 * x); }
    var q := Visit(2.0, 3.0 * x / 2.0, p.given, r.kept[1], power);
    assert q == Round([Candidate(b, 1.0, x / 4.0)], 2.0, 3.0 * x / 4.0, q.given) by { HalfShare(3.0 * x / 2.0); }
    more := q.given;
    hide Visit;
    assert r.kept[1..] == [r.kept[1]] && [r.kept[1]][1..] == [];
    LastVisit(2.0, 3.0 * x / 2.0, p.given, r.kept[1], power);
    assert p.kept + q.kept == Repeating(a, b, x / 4.0, more).kept;
  }

  lemma HalfShare(left: real)
    ensures Share(left, 1.0, 2.0) == left / 2.0
  {
  }

  lemma LastVisit(weight: real, remaining: real, given: map<Id, real>, c: Candidate, power: real)
    requires weight > 0.0 && remaining > 0.0
    ensures AllocateRound(weight, remaining, given, [c], power) == Visit(weight, remaining, given, c, power)
  {
    hide Visit;
    var p := Visit(weight, remaining, given, c, power);
    assert [c][1..] == [] && p.kept + [] == p.kept;
    assert AllocateRound(p.weight, p.remaining, p.given, [], power) == Round([], p.weight, p.remaining, p.given);
  }

  /** The proportions repeat at a quarter of the size, round after round. */
  lemma {:induction false} RoundsRepeat(a: Vehicle, b: Vehicle, x: real, given: map<Id, real>, power: real, n: nat)
    requires x > 0.0
    ensures var q := Rounds(Repeating(a, b, x, given), power, n);
            q.remaining > 0.0 && q.weight > 0.0 && |q.kept| == 2
    decreases n
  {
    hide AllocateRound;
    if n > 0 {
      var more := RepeatingRound(a, b, x, given, power);
      RoundsRepeat(a, b, x / 4.0, more, power, n - 1);
    }
  }

  // ----- shares within a round

  /** What is left after `k` visits of a round that saturates nobody. */
  ghost function Left(remaining: real, rest: seq<Candidate>, weight: real, k: nat): real
    requires weight > 0.0 && k <= |rest|
    decreases k
  {
    if k == 0 then remaining
    else Left(remaining - Share(remaining, rest[0].score, weight), rest[1..], weight, k - 1)
  }

  lemma {:induction false} LeftNext(remaining: real, rest: seq<Candidate>, weight: real, k: nat)
    requires weight > 0.0 && k < |rest|
    ensures var x := Left(remaining, rest, weight, k);
            Left(remaining, rest, weight, k + 1) == x - Share(x, rest[k].score, weight)
    decreases k
  {
    hide Share;
    if k > 0 {
      LeftNext(remaining - Share(remaining, rest[0].score, weight), rest[1..], weight, k - 1);
    }
  }

  /** The residual never rises, and falls at every positive score. */
  lemma {:induction false} LeftFalls(remaining: real, rest: seq<Candidate>, weight: real, i: nat, j: nat)
    requires weight > 0.0 && remaining > 0.0 && i <= j <= |rest|
    requires forall c :: c in rest ==> 0.0 <= c.score < weight
    ensures 0.0 < Left(remaining, rest, weight, j) <= Left(remaining, rest, weight, i)
    ensures i < j && rest[i].score > 0.0 ==> Left(remaining, rest, weight, j) < Left(remaining, rest, weight, i)
    decreases j
  {
    hide Left, Share;
    if j == 0 {
      LeftAtFirst(remaining, rest, weight);
    } else {
      var x := Left(remaining, rest, weight, j - 1);
      assert rest[j - 1] in rest;
      LeftNext(remaining, rest, weight, j - 1);
      LeftFalls(remaining, rest, weight, if i < j then i else j - 1, j - 1);
      ProportionalShare(x, rest[j - 1].score, weight);
    }
  }

  lemma LeftAtFirst(remaining: real, rest: seq<Candidate>, weight: real)
    requires weight > 0.0
    ensures Left(remaining, rest, weight, 0) == remaining
  {
  }

  ghost predicate Unsaturated(caps: map<Id, real>, list: seq<Candidate>, given: map<Id, real>, power: real) {
    forall c :: c in list ==> c.v.id in caps && Magnitude(given, c.v.id, power) < caps[c.v.id]
  }

  /** The same candidates with the same scores, whatever became of their capacities. */
  ghost predicate SameScores(a: seq<Candidate>, b: seq<Candidate>) {
    |a| == |b| && forall k :: 0 <= k < |a| ==> a[k].v == b[k].v && a[k].score == b[k].score
  }

  /** A round that saturates nobody gives everybody his share of what is left when he is visited. */
  ghost predicate SharedOut(weight: real, remaining: real, given: map<Id, real>, rest: seq<Candidate>, power: real, q: Round)
    requires weight > 0.0
  {
    && SameScores(q.kept, rest) && q.weight == weight
    && q.remaining == Left(remaining, rest, weight, |rest|)
    && forall k :: 0 <= k < |rest| ==>
         Magnitude(q.given, rest[k].v.id, power)
         == Magnitude(given, rest[k].v.id, power) + Share(Left(remaining, rest, weight, k), rest[k].score, weight)
  }

  lemma SharedOutStep(weight: real, remaining: real, given: map<Id, real>, rest: seq<Candidate>, power: real, p: Round, q: Round)
    requires weight > 0.0 && rest != [] && DistinctCandidates(rest)
    requires |p.kept| == 1 && p.kept[0].v == rest[0].v && p.kept[0].score == rest[0].score
    requires p.remaining == remaining - Share(remaining, rest[0].score, weight)
    requires Magnitude(p.given, rest[0].v.id, power)
          == Magnitude(given, rest[0].v.id, power) + Share(remaining, rest[0].score, weight)
    requires forall id :: id != rest[0].v.id ==> Get(p.given, id) == Get(given, id)
    requires Get(q.given, rest[0].v.id) == Get(p.given, rest[0].v.id)
    requires SharedOut(weight, p.remaining, p.given, rest[1..], power, q)
    ensures SharedOut(weight, remaining, given, rest, power, q.(kept := p.kept + q.kept))
  {
    hide Share;
    forall k | 0 <= k < |rest|
      ensures Magnitude(q.given, rest[k].v.id, power)
           == Magnitude(given, rest[k].v.id, power) + Share(Left(remaining, rest, weight, k), rest[k].score, weight)
    {
      if k > 0 {
        assert rest[1..][k - 1] == rest[k];
        assert rest[k].v.id != rest[0].v.id;
      }
    }
  }

  lemma {:induction false} RoundSharesOut(caps: map<Id, real>, weight: real, remaining: real, given: map<Id, real>,
                                          rest: seq<Candidate>, power: real, others: real)
    requires Good(rest) && others >= 0.0 && weight == others + ScoreSum(rest) && weight > 0.0 && remaining > 0.0
    requires Ledger(caps, rest, given, power) && forall c :: c in rest ==> c.score < weight
    requires Unsaturated(caps, rest, AllocateRound(weight, remaining, given, rest, power).given, power)
    ensures SharedOut(weight, remaining, given, rest, power, AllocateRound(weight, remaining, given, rest, power))
    decreases |rest|
  {
    hide Total, Share, Visit, Credit, Ledger, SharedOut, Magnitude;
    if rest == [] {
      NothingToShare(weight, remaining, given, power);
    } else {
      var c, tail := rest[0], rest[1..];
      assert rest == [c] + tail && c in rest;
      var p := Visit(weight, remaining, given, c, power);
      ScoreSumNonnegative(tail);
      VisitFacts(weight, remaining, given, c, power);
      VisitFinishes(weight, remaining, given, c, power);
      LedgerAfterVisit(caps, weight, remaining, given, rest, power);
      CandidateTail(rest);
      ScoreSumNonnegative(p.kept);
      RoundLedger(caps, p.weight, p.remaining, p.given, tail, power, others + ScoreSum(p.kept));
      var q := AllocateRound(p.weight, p.remaining, p.given, tail, power);
      assert Get(q.given, c.v.id) == Get(p.given, c.v.id);
      SameMagnitude(q.given, p.given, c.v.id, power);
      assert p.kept != [];
      RoundSharesOut(caps, p.weight, p.remaining, p.given, tail, power, others + ScoreSum(p.kept));
      Credited(p.given, given, c.v.id, power, remaining - p.remaining);
      SharedOutStep(weight, remaining, given, rest, power, p, q);
    }
  }

  lemma NothingToShare(weight: real, remaining: real, given: map<Id, real>, power: real)
    requires weight > 0.0
    ensures SharedOut(weight, remaining, given, [], power, AllocateRound(weight, remaining, given, [], power))
  {
  }

  lemma SameMagnitude(a: map<Id, real>, b: map<Id, real>, id: Id, power: real)
    requires Get(a, id) == Get(b, id)
    ensures Magnitude(a, id, power) == Magnitude(b, id, power)
  {
  }

  lemma Credited(after: map<Id, real>, given: map<Id, real>, id: Id, power: real, x: real)
    requires after == Credit(given, id, power, x)
    ensures Magnitude(after, id, power) == Magnitude(given, id, power) + x
  {
  }

  // ----- earlier candidates are favoured

  /** How far candidate `a` is ahead of `b` in power per score, times both scores. */
  ghost function Lead(given: map<Id, real>, a: Candidate, b: Candidate, power: real): real {
    Product(Magnitude(given, a.v.id, power), b.score) - Product(Magnitude(given, b.v.id, power), a.score)
  }

  lemma UnequalShares(x: real, y: real, s: real, t: real, weight: real)
    requires x > y && s > 0.0 && t > 0.0 && weight > 0.0
    ensures Product(Share(x, s, weight), t) > Product(Share(y, t, weight), s)
  {
    var u := s / weight * t;
    assert s / weight > 0.0;
    assert u > 0.0;
    assert Product(Share(x, s, weight), t) == x * u;
    assert t / weight * s == u;
    assert Product(Share(y, t, weight), s) == y * u;
    assert (x - y) * u > 0.0;
  }

  lemma LeadGrows(given: map<Id, real>, after: map<Id, real>, a: Candidate, b: Candidate, power: real, x: real, y: real)
    requires Magnitude(after, a.v.id, power) == Magnitude(given, a.v.id, power) + x
    requires Magnitude(after, b.v.id, power) == Magnitude(given, b.v.id, power) + y
    requires Product(x, b.score) > Product(y, a.score)
    ensures Lead(after, a, b, power) > Lead(given, a, b, power)
  {
    hide Product, Magnitude;
    ProductOfSum(Magnitude(given, a.v.id, power), x, b.score);
    ProductOfSum(Magnitude(given, b.v.id, power), y, a.score);
  }

  lemma ScoresBelowWeight(list: seq<Candidate>, i: nat, j: nat)
    requires Good(list) && i < j < |list| && list[i].score > 0.0 && list[j].score > 0.0
    ensures ScoreSum(list) > 0.0 && forall c :: c in list ==> 0.0 <= c.score < ScoreSum(list)
  {
    ScoresPairUp(list, i, j);
    forall c | c in list ensures c.score < ScoreSum(list) {
      var k :| 0 <= k < |list| && list[k] == c;
      if k < i {
        ScoresPairUp(list, k, i);
      } else if i < k {
        ScoresPairUp(list, i, k);
      }
    }
  }

  /** A round that saturates nobody puts the earlier of two scored candidates further ahead, and ends nothing. */
  lemma RoundFavoursEarlier(caps: map<Id, real>, r: Round, power: real, i: nat, j: nat)
    requires Balanced(r) && r.remaining > 0.0 && Ledger(caps, r.kept, r.given, power)
    requires i < j < |r.kept| && r.kept[i].score > 0.0 && r.kept[j].score > 0.0
    requires Unsaturated(caps, r.kept, AllocateRound(r.weight, r.remaining, r.given, r.kept, power).given, power)
    ensures var q := AllocateRound(r.weight, r.remaining, r.given, r.kept, power);
            && Lead(q.given, r.kept[i], r.kept[j], power) > Lead(r.given, r.kept[i], r.kept[j], power)
            && SameScores(q.kept, r.kept) && 0.0 < q.remaining < r.remaining
  {
    var list, w, x := r.kept, r.weight, r.remaining;
    ScoresBelowWeight(list, i, j);
    hide Ledger, AllocateRound, Left, Share, Lead, Magnitude, Product, Total, Unsaturated;
    RoundSharesOut(caps, w, x, r.given, list, power, 0.0);
    RoundSpends(w, x, r.given, list, power, 0.0);
    LeftFalls(x, list, w, i, j);
    LeftFalls(x, list, w, 0, |list|);
    var left, left' := Left(x, list, w, i), Left(x, list, w, j);
    UnequalShares(left, left', list[i].score, list[j].score, w);
    LeadGrows(r.given, AllocateRound(w, x, r.given, list, power).given, list[i], list[j], power,
              Share(left, list[i].score, w), Share(left', list[j].score, w));
  }

  /** What a candidate has is never taken away. */
  lemma {:induction false} RoundGrows(weight: real, remaining: real, given: map<Id, real>, rest: seq<Candidate>,
                                      power: real, others: real, id: Id)
    requires Good(rest) && others >= 0.0 && weight == others + ScoreSum(rest) && remaining >= 0.0
    ensures Magnitude(AllocateRound(weight, remaining, given, rest, power).given, id, power) >= Magnitude(given, id, power)
    decreases |rest|
  {
    hide Total, Share, Visit;
    ScoreSumNonnegative(rest);
    if rest != [] && remaining > 0.0 && weight > 0.0 {
      var c, tail := rest[0], rest[1..];
      assert rest == [c] + tail && c in rest;
      ScoreSumNonnegative(tail);
      var p := Visit(weight, remaining, given, c, power);
      VisitFacts(weight, remaining, given, c, power);
      ScoreSumNonnegative(p.kept);
      RoundGrows(p.weight, p.remaining, p.given, tail, power, others + ScoreSum(p.kept), id);
    }
  }

  lemma {:induction false} RoundsGrow(r: Round, power: real, m: nat, id: Id)
    requires Balanced(r)
    ensures Magnitude(Rounds(r, power, m).given, id, power) >= Magnitude(r.given, id, power)
    decreases m
  {
    hide Total, AllocateRound, Magnitude;
    if r.remaining > 0.0 && r.kept != [] && r.weight > 0.0 && m > 0 {
      var q := AllocateRound(r.weight, r.remaining, r.given, r.kept, power);
      RoundConserves(r.weight, r.remaining, r.given, r.kept, power, 0.0);
      RoundGrows(r.weight, r.remaining, r.given, r.kept, power, 0.0, id);
      RoundsGrow(q, power, m - 1, id);
    }
  }

  lemma StillUnsaturated(caps: map<Id, real>, list: seq<Candidate>, q: Round, power: real, m: nat)
    requires Balanced(q) && Unsaturated(caps, list, Rounds(q, power, m).given, power)
    ensures Unsaturated(caps, list, q.given, power)
  {
    hide Rounds, Balanced, Magnitude;
    forall c | c in list ensures c.v.id in caps && Magnitude(q.given, c.v.id, power) < caps[c.v.id] {
      RoundsGrow(q, power, m, c.v.id);
    }
  }

  lemma SameCandidatesUnsaturated(caps: map<Id, real>, a: seq<Candidate>, b: seq<Candidate>, given: map<Id, real>, power: real)
    requires SameScores(a, b) && Unsaturated(caps, b, given, power)
    ensures Unsaturated(caps, a, given, power)
  {
    hide Magnitude;
    forall c | c in a ensures c.v.id in caps && Magnitude(given, c.v.id, power) < caps[c.v.id] {
      var k :| 0 <= k < |a| && a[k] == c;
      assert b[k] in b;
    }
  }

  /** Over any number of rounds in which nobody is saturated, the lead only grows. */
  lemma {:induction false} RoundsFavourEarlier(caps: map<Id, real>, r: Round, power: real, m: nat, i: nat, j: nat)
    requires Balanced(r) && r.remaining > 0.0 && Ledger(caps, r.kept, r.given, power) && m >= 1
    requires i < j < |r.kept| && r.kept[i].score > 0.0 && r.kept[j].score > 0.0
    requires Unsaturated(caps, r.kept, Rounds(r, power, m).given, power)
    ensures Lead(Rounds(r, power, m).given, r.kept[i], r.kept[j], power) > Lead(r.given, r.kept[i], r.kept[j], power)
    decreases m
  {
    hide Ledger, AllocateRound, Rounds, Lead, Good, ScoreSum, Unsaturated, Settled;
    var q := AllocateRound(r.weight, r.remaining, r.given, r.kept, power);
    FirstRound(r, power, m, i, j);
    StillUnsaturated(caps, r.kept, q, power, m - 1);
    RoundFavoursEarlier(caps, r, power, i, j);
    if m == 1 {
      NoRound(q, power);
    } else {
      RoundLedger(caps, r.weight, r.remaining, r.given, r.kept, power, 0.0);
      SameCandidatesUnsaturated(caps, q.kept, r.kept, Rounds(q, power, m - 1).given, power);
      RoundsFavourEarlier(caps, q, power, m - 1, i, j);
      SameLead(q.given, q.kept, r.kept, i, j, power);
      SameLead(Rounds(q, power, m - 1).given, q.kept, r.kept, i, j, power);
    }
  }

  lemma FirstRound(r: Round, power: real, m: nat, i: nat, j: nat)
    requires Balanced(r) && r.remaining > 0.0 && m >= 1
    requires i < j < |r.kept| && r.kept[i].score > 0.0 && r.kept[j].score > 0.0
    ensures var q := AllocateRound(r.weight, r.remaining, r.given, r.kept, power);
            Balanced(q) && Rounds(r, power, m) == Rounds(q, power, m - 1)
  {
    hide AllocateRound, Total;
    ScoresBelowWeight(r.kept, i, j);
    RoundConserves(r.weight, r.remaining, r.given, r.kept, power, 0.0);
    RoundSpends(r.weight, r.remaining, r.given, r.kept, power, 0.0);
  }

  lemma NoRound(q: Round, power: real)
    ensures Rounds(q, power, 0) == q
  {
  }

  lemma SameLead(given: map<Id, real>, a: seq<Candidate>, b: seq<Candidate>, i: nat, j: nat, power: real)
    requires SameScores(a, b) && i < |a| && j < |a|
    ensures Lead(given, a[i], a[j], power) == Lead(given, b[i], b[j], power)
  {
  }

  // ----- when power is proportional to the scores

  /** Power per score is the same for everybody, written without division. */
  ghost predicate Proportional(cands: seq<Candidate>, given: map<Id, real>, power: real) {
    forall i, j :: 0 <= i < j < |cands| ==> Lead(given, cands[i], cands[j], power) == 0.0
  }

  ghost predicate ScoreIsZero(list: seq<Candidate>, id: Id) {
    forall c :: c in list && c.v.id == id ==> c.score == 0.0
  }

  /** A candidate without a score gets nothing and keeps no score. */
  lemma {:induction false} ZeroScoreRound(weight: real, remaining: real, given: map<Id, real>, rest: seq<Candidate>,
                                          power: real, others: real, id: Id)
    requires Good(rest) && others >= 0.0 && weight == others + ScoreSum(rest) && remaining >= 0.0
    requires ScoreIsZero(rest, id)
    ensures var q := AllocateRound(weight, remaining, given, rest, power);
            Get(q.given, id) == Get(given, id) && ScoreIsZero(q.kept, id)
    decreases |rest|
  {
    hide Total, Share, Visit;
    ScoreSumNonnegative(rest);
    if rest != [] && remaining > 0.0 && weight > 0.0 {
      var c, tail := rest[0], rest[1..];
      assert rest == [c] + tail && c in rest;
      ScoreSumNonnegative(tail);
      var p := Visit(weight, remaining, given, c, power);
      VisitFacts(weight, remaining, given, c, power);
      ScoreSumNonnegative(p.kept);
      if c.v.id == id {
        ZeroScoreVisit(weight, remaining, given, c, power);
      }
      ZeroScoreRound(p.weight, p.remaining, p.given, tail, power, others + ScoreSum(p.kept), id);
    }
  }

  lemma ZeroScoreVisit(weight: real, remaining: real, given: map<Id, real>, c: Candidate, power: real)
    requires weight > 0.0 && remaining > 0.0 && c.score == 0.0 && c.capacity > 0.0
    ensures Visit(weight, remaining, given, c, power).remaining == remaining
  {
    ProportionalShare(remaining, c.score, weight);
    hide Share;
  }

  lemma {:induction false} ZeroScoreGetsNothing(r: Round, power: real, m: nat, id: Id)
    requires Balanced(r) && ScoreIsZero(r.kept, id)
    ensures Get(Rounds(r, power, m).given, id) == Get(r.given, id)
    decreases m
  {
    hide Total, AllocateRound, ScoreIsZero;
    if r.remaining > 0.0 && r.kept != [] && r.weight > 0.0 && m > 0 {
      var q := AllocateRound(r.weight, r.remaining, r.given, r.kept, power);
      RoundConserves(r.weight, r.remaining, r.given, r.kept, power, 0.0);
      ZeroScoreRound(r.weight, r.remaining, r.given, r.kept, power, 0.0, id);
      ZeroScoreGetsNothing(q, power, m - 1, id);
    }
  }

  /** The first round of a dispatch. */
  ghost function Start(cands: seq<Candidate>, power: real): Round {
    Round(cands, ScoreSum(cands), Abs(power), map[])
  }

  ghost predicate NobodySaturated(cands: seq<Candidate>, given: map<Id, real>, power: real) {
    forall c :: c in cands ==> Magnitude(given, c.v.id, power) < c.capacity
  }

  /**
   Of two scored candidates the earlier one gets more power per score, after any number of
   rounds that saturate nobody.
   */
  lemma EarlierIsFavoured(cands: seq<Candidate>, power: real, m: nat, i: nat, j: nat)
    requires Good(cands) && DistinctCandidates(cands) && power != 0.0 && m >= 1
    requires NobodySaturated(cands, Rounds(Start(cands, power), power, m).given, power)
    requires i < j < |cands| && cands[i].score > 0.0 && cands[j].score > 0.0
    ensures Lead(Rounds(Start(cands, power), power, m).given, cands[i], cands[j], power) > 0.0
  {
    hide Rounds, Ledger, Lead, Total, Accounted, Good, DistinctCandidates, CandidateCaps;
    var r := Start(cands, power);
    LedgerStarts(cands, power);
    UnsaturatedAtEnd(cands, Rounds(r, power, m).given, power);
    RoundsFavourEarlier(CandidateCaps(cands), r, power, m, i, j);
    NoLeadYet(cands[i], cands[j], power);
  }

  lemma NoLeadYet(a: Candidate, b: Candidate, power: real)
    ensures Lead(map[], a, b, power) == 0.0
  {
  }

  lemma UnsaturatedAtEnd(cands: seq<Candidate>, given: map<Id, real>, power: real)
    requires DistinctCandidates(cands) && NobodySaturated(cands, given, power)
    ensures Unsaturated(CandidateCaps(cands), cands, given, power)
  {
    hide CandidateCaps, Magnitude;
    forall c | c in cands ensures c.v.id in CandidateCaps(cands) && CandidateCaps(cands)[c.v.id] == c.capacity {
      CandidateCap(cands, c);
    }
  }

  /**
   The exact extent of "power is allocated proportionally to scores": rounds that saturate
   nobody are proportional if and only if at most one candidate has a positive score.
   */
  lemma ProportionalIff(cands: seq<Candidate>, power: real, m: nat)
    requires Good(cands) && DistinctCandidates(cands) && power != 0.0 && m >= 1
    requires NobodySaturated(cands, Rounds(Start(cands, power), power, m).given, power)
    ensures Proportional(cands, Rounds(Start(cands, power), power, m).given, power) <==> AtMostOnePositive(cands)
  {
    var given := Rounds(Start(cands, power), power, m).given;
    if AtMostOnePositive(cands) {
      forall i, j | 0 <= i < j < |cands| ensures Lead(given, cands[i], cands[j], power) == 0.0 {
        NothingToCompare(cands, power, m, i, j);
      }
    } else {
      var i, j :| 0 <= i < j < |cands| && !(cands[i].score == 0.0 || cands[j].score == 0.0);
      assert cands[i] in cands && cands[j] in cands;
      EarlierIsFavoured(cands, power, m, i, j);
    }
  }

  /** Where every candidate could take the whole request, nobody is saturated. */
  lemma NobodyIsSaturated(cands: seq<Candidate>, power: real, m: nat)
    requires Good(cands) && DistinctCandidates(cands) && forall c :: c in cands ==> c.capacity > Abs(power)
    ensures NobodySaturated(cands, Rounds(Start(cands, power), power, m).given, power)
  {
    hide Rounds, Total;
    RoundsOutcome(cands, power, m);
    var a := Rounds(Start(cands, power), power, m).given;
    var zeros := map id | id in a :: 0.0;
    ZeroTotal(zeros);
    if power < 0.0 {
      TotalMonotone(a, zeros);
    } else {
      TotalMonotone(zeros, a);
    }
  }

  /** The same from what is known before the dispatch: with room for the whole request everywhere. */
  lemma ProportionalWithRoomIff(cands: seq<Candidate>, power: real, m: nat)
    requires Good(cands) && DistinctCandidates(cands) && power != 0.0 && m >= 1
    requires forall c :: c in cands ==> c.capacity > Abs(power)
    ensures Proportional(cands, Rounds(Start(cands, power), power, m).given, power) <==> AtMostOnePositive(cands)
  {
    NobodyIsSaturated(cands, power, m);
    ProportionalIff(cands, power, m);
  }

  lemma NothingToCompare(cands: seq<Candidate>, power: real, m: nat, i: nat, j: nat)
    requires Good(cands) && DistinctCandidates(cands) && i < j < |cands|
    requires cands[i].score == 0.0 || cands[j].score == 0.0
    ensures Lead(Rounds(Start(cands, power), power, m).given, cands[i], cands[j], power) == 0.0
  {
    hide Rounds;
    var r := Start(cands, power);
    ScoreSumNonnegative(cands);
    var c := if cands[i].score == 0.0 then cands[i] else cands[j];
    forall b | b in cands && b.v.id == c.v.id ensures b == c {
      SameCandidate(cands, b, c);
    }
    ZeroScoreGetsNothing(r, power, m, c.v.id);
  }

  /** Two candidates of score 1 and capacity 10 kW, asked for 4 kW, get 2 kW and 1 kW in a round. */
  lemma EqualScoresUnequalPower(a: Vehicle, b: Vehicle)
    requires a.id != b.id
    ensures var cands := [Candidate(a, 1.0, 10.0), Candidate(b, 1.0, 10.0)];
            Rounds(Start(cands, 4.0), 4.0, 1).given == map[a.id := 2.0, b.id := 1.0]
  {
    var cands := [Candidate(a, 1.0, 10.0), Candidate(b, 1.0, 10.0)];
    HalfShare(4.0);
    HalfShare(2.0);
    hide Share;
    assert cands[1..] == [cands[1]] && [cands[1]][1..] == [];
    var p := Visit(2.0, 4.0, map[], cands[0], 4.0);
    assert p == Round([Candidate(a, 1.0, 8.0)], 2.0, 2.0, map[a.id := 2.0]);
    LastVisit(2.0, 2.0, p.given, cands[1], 4.0);
    TwoScores(cands);
    var q := AllocateRound(2.0, 4.0, map[], cands, 4.0);
    assert q.given == map[a.id := 2.0, b.id := 1.0] && q.remaining == 1.0;
    assert Rounds(Start(cands, 4.0), 4.0, 1) == Rounds(q, 4.0, 0);
  }

  lemma TwoScores(list: seq<Candidate>)
    requires |list| == 2
    ensures ScoreSum(list) == list[0].score + list[1].score
  {
    assert list[1..] == [list[1]];
    assert ScoreSum(list[1..]) == list[1].score + ScoreSum(list[1..][1..]);
    assert list[1..][1..] == [];
  }
}
