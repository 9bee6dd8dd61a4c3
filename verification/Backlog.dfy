/**
 The queue behind the day-ahead plan: every slot accrues the energy `e`, serves at most
 its capacity and carries the rest over (core/scheduler/scheduler.go:111-137).
 */
module Backlog {
  import opened Totals
  import opened Fleet

  ghost function Sum(xs: seq<real>): real {
    if xs == [] then 0.0 else Sum(xs[..|xs| - 1]) + xs[|xs| - 1]
  }

  /** Energy left over after the slots with these capacities. */
  ghost function After(e: real, caps: seq<real>): (b: real)
    ensures b >= 0.0
  {
    if caps == [] then 0.0
    else
      var n := |caps| - 1;
      Max(0.0, After(e, caps[..n]) + e - caps[n])
  }

  /** Energy accrued minus capacity over some slots. */
  ghost function Excess(e: real, caps: seq<real>): real {
    Times(|caps|, e) - Sum(caps)
  }

  /** Energy served in slot `i`. */
  ghost function Served(e: real, caps: seq<real>, i: nat): real
    requires i < |caps|
  {
    Min(After(e, caps[..i]) + e, caps[i])
  }

  ghost function Service(e: real, caps: seq<real>): seq<real> {
    seq(|caps|, i requires 0 <= i < |caps| => Served(e, caps, i))
  }

  lemma SumSnoc(xs: seq<real>, x: real)
    ensures Sum(xs + [x]) == Sum(xs) + x
  {
    assert (xs + [x])[..|xs|] == xs;
  }

  lemma SumNext(xs: seq<real>, i: nat)
    requires i < |xs|
    ensures Sum(xs[..i + 1]) == Sum(xs[..i]) + xs[i]
  {
    assert xs[..i + 1] == xs[..i] + [xs[i]];
    SumSnoc(xs[..i], xs[i]);
  }

  lemma AfterNext(e: real, caps: seq<real>, i: nat)
    requires i < |caps|
    ensures After(e, caps[..i + 1]) == Max(0.0, After(e, caps[..i]) + e - caps[i])
    ensures After(e, caps[..i + 1]) == After(e, caps[..i]) + e - Served(e, caps, i)
  {
    assert caps[..i + 1][..i] == caps[..i];
  }

  // ----- the closed form of the backlog

  lemma ExcessNext(e: real, caps: seq<real>, k: nat, i: nat)
    requires k <= i < |caps|
    ensures Excess(e, caps[k..i + 1]) == Excess(e, caps[k..i]) + e - caps[i]
  {
    assert caps[k..i + 1] == caps[k..i] + [caps[i]];
    SumSnoc(caps[k..i], caps[i]);
  }

  /** The backlog is the largest excess over all suffixes of the day, the empty one included. */
  lemma {:induction false} BacklogIsWorstSuffix(e: real, caps: seq<real>, i: nat) returns (worst: nat)
    requires i <= |caps|
    ensures forall k :: 0 <= k <= i ==> Excess(e, caps[k..i]) <= After(e, caps[..i])
    ensures worst <= i && After(e, caps[..i]) == Excess(e, caps[worst..i])
  {
    if i == 0 {
      worst := 0;
    } else {
      worst := BacklogIsWorstSuffix(e, caps, i - 1);
      AfterNext(e, caps, i - 1);
      forall k | 0 <= k <= i ensures Excess(e, caps[k..i]) <= After(e, caps[..i]) {
        if k < i {
          ExcessNext(e, caps, k, i - 1);
        }
      }
      ExcessNext(e, caps, worst, i - 1);
      if After(e, caps[..i]) == 0.0 {
        worst := i;
      }
    }
  }

  // ----- no causal plan is ahead

  /** Per-slot energies that respect the capacities and never serve energy before it accrues. */
  ghost predicate Causal(e: real, caps: seq<real>, x: seq<real>) {
    && |x| == |caps|
    && (forall i :: 0 <= i < |x| ==> x[i] <= caps[i])
    && forall i :: 0 <= i <= |x| ==> Sum(x[..i]) <= Times(i, e)
  }

  lemma {:induction false} ServiceTotal(e: real, caps: seq<real>, i: nat)
    requires i <= |caps|
    ensures Sum(Service(e, caps)[..i]) == Times(i, e) - After(e, caps[..i])
  {
    if i > 0 {
      ServiceTotal(e, caps, i - 1);
      SumNext(Service(e, caps), i - 1);
      AfterNext(e, caps, i - 1);
    }
  }

  /** By every slot, a causal plan has delivered no more than the greedy service. */
  lemma {:induction false} GreedyDominates(e: real, caps: seq<real>, x: seq<real>, i: nat)
    requires Causal(e, caps, x) && i <= |caps|
    ensures Sum(x[..i]) <= Sum(Service(e, caps)[..i])
  {
    ServiceTotal(e, caps, i);
    if i > 0 {
      GreedyDominates(e, caps, x, i - 1);
      ServiceTotal(e, caps, i - 1);
      SumNext(x, i - 1);
      AfterNext(e, caps, i - 1);
    }
  }

  lemma ServiceIsCausal(e: real, caps: seq<real>)
    ensures Causal(e, caps, Service(e, caps))
  {
    var s := Service(e, caps);
    forall i | 0 <= i <= |s| ensures Sum(s[..i]) <= Times(i, e) {
      ServiceTotal(e, caps, i);
    }
  }

  /** The backlog stays within `slack` exactly when some causal plan delivers all but `slack`. */
  lemma FeasibleIffCausal(e: real, caps: seq<real>, slack: real)
    ensures After(e, caps) <= slack
       <==> exists x :: Causal(e, caps, x) && Times(|caps|, e) - slack <= Sum(x)
  {
    var s := Service(e, caps);
    ServiceIsCausal(e, caps);
    ServiceTotal(e, caps, |caps|);
    assert s[..|caps|] == s && caps[..|caps|] == caps;
    forall x | Causal(e, caps, x) ensures Sum(x) <= Sum(s) {
      GreedyDominates(e, caps, x, |caps|);
      assert x[..|caps|] == x;
    }
  }
}
