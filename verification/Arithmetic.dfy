/** Facts about real numbers that the two proportional allocators share. */
module Arithmetic {

  function Pow2(n: nat): (r: nat)
    ensures r >= 1
  {
    if n == 0 then 1 else 2 * Pow2(n - 1)
  }

  lemma {:induction false} Pow2Monotone(m: nat, n: nat)
    requires m <= n
    ensures Pow2(m) <= Pow2(n)
  {
    if m < n {
      Pow2Monotone(m, n - 1);
    }
  }

  /** `x` is at most `start` divided by 2^n. */
  ghost predicate HalvedTimes(x: real, n: nat, start: real) {
    x * Pow2(n) as real <= start
  }

  lemma NotHalved(x: real, start: real)
    requires x <= start
    ensures HalvedTimes(x, 0, start)
  {
  }

  lemma NothingLeft(n: nat, start: real)
    requires start >= 0.0
    ensures HalvedTimes(0.0, n, start)
  {
  }

  lemma HalvedOnceMore(x: real, n: nat, mid: real, start: real)
    requires HalvedTimes(x, n, mid) && mid * 2.0 <= start
    ensures HalvedTimes(x, n + 1, start)
  {
    assert x * (2 * Pow2(n)) as real == x * Pow2(n) as real * 2.0;
  }

  lemma HalvedAtLeast(x: real, m: nat, n: nat, mid: real, start: real)
    requires 0.0 <= x && m <= n && mid <= start && HalvedTimes(x, n, mid)
    ensures HalvedTimes(x, m, start)
  {
    Pow2Monotone(m, n);
    assert x * Pow2(m) as real <= x * Pow2(n) as real;
  }

  /** The part of `left` that goes to `part` of `whole`. */
  function Share(left: real, part: real, whole: real): real
    requires whole > 0.0
  {
    left * (part / whole)
  }

  lemma ProportionalShare(left: real, part: real, whole: real)
    requires 0.0 <= left && 0.0 <= part <= whole && 0.0 < whole
    ensures 0.0 <= Share(left, part, whole) <= left
    ensures left > 0.0 && part > 0.0 ==> Share(left, part, whole) > 0.0
    ensures left > 0.0 && part < whole ==> Share(left, part, whole) < left
    ensures part == whole ==> Share(left, part, whole) == left
    ensures part == 0.0 ==> Share(left, part, whole) == 0.0
  {
    var f := part / whole;
    assert f * whole == part;
    assert 0.0 <= f <= 1.0;
    assert left * f <= left * 1.0;
    if left > 0.0 && part < whole {
      assert f < 1.0;
    }
    if part > 0.0 {
      assert f > 0.0;
    }
    if part == whole {
      assert f == 1.0;
    }
  }

  /** The share compared with the part, when `left` is compared with `whole`. */
  lemma ShareOfExcess(left: real, part: real, whole: real)
    requires 0.0 <= left && 0.0 < part <= whole
    ensures left <= whole ==> Share(left, part, whole) <= part
    ensures left >= whole ==> Share(left, part, whole) >= part
    ensures left < whole ==> Share(left, part, whole) < part
  {
    var f := part / whole;
    assert f * whole == part && f > 0.0;
    assert (whole - left) * f == part - left * f;
  }

  /**
   What is left after serving `served` of `whole` in a pass that began with `start` and
   always divides by `whole`.
   */
  ghost predicate Shrunk(left: real, whole: real, served: real, start: real) {
    left * (whole + served) <= start * whole
  }

  lemma ShrunkStart(left: real, whole: real)
    ensures Shrunk(left, whole, 0.0, left)
  {
  }

  /**
   One step of a proportional pass.  The product of what is left and (whole + served) never
   grows, because (1 - x)(1 + s + x) <= 1 + s; at the end the second factor is 2 * whole.
   */
  lemma ShrunkStep(left: real, part: real, whole: real, served: real, start: real)
    requires 0.0 <= left && 0.0 <= part <= whole && 0.0 < whole && 0.0 <= served
    requires Shrunk(left, whole, served, start)
    ensures Shrunk(left - Share(left, part, whole), whole, served + part, start)
  {
    var f := part / whole;
    assert f * whole == part;
    assert 0.0 <= f;
    var drop := f * (served + part);
    assert 0.0 <= drop;
    calc {
      (left - left * f) * (whole + served + part);
      left * ((1.0 - f) * (whole + served + part));
      { assert (1.0 - f) * (whole + served + part) == whole + served - drop; }
      left * (whole + served - drop);
      left * (whole + served) - left * drop;
    }
    assert 0.0 <= left * drop;
    assert whole + (served + part) == whole + served + part;
  }

  lemma ShrunkEnd(left: real, whole: real, start: real)
    requires 0.0 < whole && Shrunk(left, whole, whole, start)
    ensures left * 2.0 <= start
  {
    assert (start - left * 2.0) * whole >= 0.0;
  }
}
