/**
 Sums of real numbers indexed by a finite map.

 The Go code adds powers up by iterating over maps, whose iteration order is
 unspecified.  `Total` is the order-free sum, and `TotalRemove` is the reason that it
 is one: any key may be taken out first.
 */
module Totals {

  ghost function Total<K>(m: map<K, real>): real
  {
    if m == map[] then 0.0
    else
      var k :| k in m;
      m[k] + Total(m - {k})
  }

  /** The value of `m` at `k`, with Go's zero value for a missing key. */
  function Get<K>(m: map<K, real>, k: K): real {
    if k in m then m[k] else 0.0
  }

  /** The sum may be taken starting from any key. */
  lemma {:induction false} TotalRemove<K>(m: map<K, real>, k: K)
    requires k in m
    ensures Total(m) == m[k] + Total(m - {k})
    decreases |m|
  {
    var k0 :| k0 in m && Total(m) == m[k0] + Total(m - {k0});
    if k0 != k {
      var m0, mk := m - {k0}, m - {k};
      assert m.Keys - {k} == mk.Keys && m.Keys - {k0} == m0.Keys;
      TotalRemove(m0, k);
      TotalRemove(mk, k0);
      assert m0 - {k} == mk - {k0};
    }
  }

  /** Overwriting one entry changes the sum by the difference. */
  lemma TotalSet<K>(m: map<K, real>, k: K, v: real)
    ensures Total(m[k := v]) == Total(m) - Get(m, k) + v
  {
    TotalRemove(m[k := v], k);
    assert m[k := v] - {k} == m - {k};
    if k in m {
      TotalRemove(m, k);
    } else {
      assert m - {k} == m;
    }
  }

  /** Pointwise ordered maps have ordered sums, and each single gap is at most the gap of the sums. */
  lemma {:induction false} TotalMonotone<K>(a: map<K, real>, b: map<K, real>)
    requires a.Keys == b.Keys
    requires forall k :: k in a ==> a[k] <= b[k]
    ensures Total(a) <= Total(b)
    ensures forall k :: k in a ==> b[k] - a[k] <= Total(b) - Total(a)
    decreases |a|
  {
    if a != map[] {
      forall k | k in a ensures b[k] - a[k] <= Total(b) - Total(a) {
        TotalRemove(a, k);
        TotalRemove(b, k);
        assert (a - {k}).Keys == a.Keys - {k};
        TotalMonotone(a - {k}, b - {k});
      }
      var k :| k in a;
      assert b[k] - a[k] <= Total(b) - Total(a);
    }
  }

  /** Pointwise ordered maps with the same sum are equal. */
  lemma TotalSqueeze<K>(a: map<K, real>, b: map<K, real>)
    requires a.Keys == b.Keys
    requires forall k :: k in a ==> a[k] <= b[k]
    requires Total(b) <= Total(a)
    ensures a == b
  {
    TotalMonotone(a, b);
  }

  lemma UnionWithout<K>(a: map<K, real>, b: map<K, real>, k: K)
    requires a.Keys !! b.Keys && k in b
    ensures a + b - {k} == a + (b - {k})
    ensures a.Keys !! (b - {k}).Keys && |b - {k}| < |b|
  {
    assert (b - {k}).Keys == b.Keys - {k};
  }

  /** The sum over two maps that share no key. */
  lemma {:induction false} TotalUnion<K>(a: map<K, real>, b: map<K, real>)
    requires a.Keys !! b.Keys
    ensures Total(a + b) == Total(a) + Total(b)
    decreases |b|
  {
    var ab := a + b;
    if b == map[] {
      assert ab == a;
    } else {
      var k :| k in b;
      var rest := b - {k};
      UnionWithout(a, b, k);
      TotalUnion(a, rest);
      TotalRemove(ab, k);
      TotalRemove(b, k);
    }
  }

  /** If one entry of `b` exceeds `a` although `b` does not sum to more, another entry is smaller. */
  lemma SomeoneLoses<K>(a: map<K, real>, b: map<K, real>, k: K) returns (u: K)
    requires a.Keys == b.Keys && k in a
    requires a[k] < b[k] && Total(b) <= Total(a)
    ensures u in a && b[u] < a[u]
  {
    if forall u :: u in a ==> a[u] <= b[u] {
      TotalMonotone(a, b);
      assert false;
    }
    u :| u in a && b[u] < a[u];
  }

  /** `n` times `x`, as a sum. */
  ghost function Times(n: nat, x: real): real {
    if n == 0 then 0.0 else x + Times(n - 1, x)
  }

  lemma {:induction false} TimesIsProduct(n: nat, x: real)
    ensures Times(n, x) == n as real * x
  {
    if n != 0 {
      TimesIsProduct(n - 1, x);
      assert n as real * x == (n - 1) as real * x + x;
    }
  }

  lemma SizeRemove<K>(m: map<K, real>, k: K)
    requires k in m
    ensures |m - {k}| == |m| - 1
  {
    assert |m| == |m.Keys| && |m - {k}| == |(m - {k}).Keys|;
    assert (m - {k}).Keys == m.Keys - {k};
  }

  /** A map that is the same everywhere sums to its size times the value. */
  lemma {:induction false} TotalConstant<K>(m: map<K, real>, x: real)
    requires forall k :: k in m ==> m[k] == x
    ensures Total(m) == Times(|m|, x)
    decreases |m|
  {
    if m != map[] {
      var k :| k in m;
      SizeRemove(m, k);
      hide Total;
      TotalRemove(m, k);
      TotalConstant(m - {k}, x);
    }
  }

  lemma ZeroTotal<K>(m: map<K, real>)
    requires forall k :: k in m ==> m[k] == 0.0
    ensures Total(m) == 0.0
  {
    TotalConstant(m, 0.0);
    TimesIsProduct(|m|, 0.0);
  }

  lemma NonnegativeTotal<K>(m: map<K, real>)
    requires forall k :: k in m ==> 0.0 <= m[k]
    ensures 0.0 <= Total(m)
  {
    var zeros := map k | k in m :: 0.0;
    ZeroTotal(zeros);
    TotalMonotone(zeros, m);
  }

  function Product(x: real, f: real): real { x * f }

  lemma ProductOfSum(x: real, y: real, f: real)
    ensures Product(x + y, f) == Product(x, f) + Product(y, f)
  {
  }

  ghost function ScaledBy<K>(m: map<K, real>, f: real): map<K, real> {
    map k | k in m :: Product(m[k], f)
  }

  lemma {:induction false} TotalScaled<K>(m: map<K, real>, f: real)
    ensures Total(ScaledBy(m, f)) == Product(Total(m), f)
    decreases |m|
  {
    hide Product;
    var s := ScaledBy(m, f);
    assert s.Keys == m.Keys;
    if m == map[] {
      ProductOfSum(0.0, 0.0, f);
    } else {
      var k :| k in m;
      var rest := m - {k};
      assert rest.Keys == m.Keys - {k};
      TotalRemove(m, k);
      TotalRemove(s, k);
      assert s - {k} == ScaledBy(rest, f);
      TotalScaled(rest, f);
      ProductOfSum(m[k], Total(rest), f);
    }
  }

  lemma {:induction false} SubsetSize<K>(s: set<K>, t: set<K>)
    requires s <= t
    ensures |s| <= |t|
  {
    if s != {} {
      var k :| k in s;
      SubsetSize(s - {k}, t - {k});
    }
  }
}
