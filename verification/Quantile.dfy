/** The moving quantile of the adaptive filter and the order statistic it picks out. */
module Quantile {
  import opened Sorting
  import opened Vectors

  function AtMost(): (real, real) -> bool {
    (x: real, y: real) => x <= y
  }

  /** `Math.ceil`. */
  function Ceiling(x: real): (n: int)
    ensures x <= n as real < x + 1.0
  {
    -((-x).Floor)
  }

  function QuantileIndex(n: nat, quantile: real): (i: nat)
    requires n > 0
    ensures i < n
  {
    IndexAt(n, Clamp01(quantile) * n as real)
  }

  function IndexAt(n: nat, position: real): (i: nat)
    requires n > 0
    ensures i < n
  {
    var i := Ceiling(position) - 1;
    var j := if i < 0 then 0 else i;
    if n - 1 < j then n - 1 else j
  }

  function MovingQuantile(values: seq<real>, quantile: real): real {
    SortPermutes(values, AtMost());
    if values == [] then 0.0
    else Sort(values, AtMost())[QuantileIndex(|values|, quantile)]
  }

  /** How many of the values exceed `x`. */
  function Above(values: seq<real>, x: real): nat {
    if values == [] then 0 else (if values[0] > x then 1 else 0) + Above(values[1..], x)
  }

  // ---------- counting ----------

  lemma {:induction false} AboveConcat(a: seq<real>, b: seq<real>, x: real)
    ensures Above(a + b, x) == Above(a, x) + Above(b, x)
  {
    if a == [] {
      assert a + b == b;
    } else {
      assert (a + b)[1..] == a[1..] + b;
      AboveConcat(a[1..], b, x);
    }
  }

  lemma {:induction false} AboveNone(a: seq<real>, x: real)
    requires forall i | 0 <= i < |a| :: a[i] <= x
    ensures Above(a, x) == 0
  {
    if a != [] { AboveNone(a[1..], x); }
  }

  lemma {:induction false} AboveAll(a: seq<real>, x: real)
    requires forall i | 0 <= i < |a| :: a[i] > x
    ensures Above(a, x) == |a|
  {
    if a != [] { AboveAll(a[1..], x); }
  }

  lemma {:induction false} AboveAtMost(a: seq<real>, x: real)
    ensures Above(a, x) <= |a|
  {
    if a != [] { AboveAtMost(a[1..], x); }
  }

  lemma Removed(a: seq<real>, b: seq<real>, j: nat)
    requires a != [] && multiset(a) == multiset(b) && j < |b| && b[j] == a[0]
    ensures multiset(a[1..]) == multiset(b[..j] + b[j + 1..])
  {
    assert a == [a[0]] + a[1..];
    assert b == b[..j] + [b[j]] + b[j + 1..];
    assert multiset(a) == multiset{a[0]} + multiset(a[1..]);
    assert multiset(b) == multiset(b[..j]) + multiset{b[j]} + multiset(b[j + 1..]);
    assert multiset(a[1..]) == multiset(a) - multiset{a[0]};
    assert multiset(b[..j] + b[j + 1..]) == multiset(b) - multiset{a[0]};
  }

  lemma AboveWithout(b: seq<real>, j: nat, x: real)
    requires j < |b|
    ensures Above(b, x) == Above(b[..j] + b[j + 1..], x) + (if b[j] > x then 1 else 0)
  {
    var tail := [b[j]] + b[j + 1..];
    assert b == b[..j] + tail && tail[1..] == b[j + 1..];
    AboveConcat(b[..j], b[j + 1..], x);
    AboveConcat(b[..j], tail, x);
  }

  /** Counting does not see the order. */
  lemma {:induction false} AboveIgnoresOrder(a: seq<real>, b: seq<real>, x: real)
    requires multiset(a) == multiset(b)
    ensures Above(a, x) == Above(b, x)
    decreases |a|
  {
    if a == [] {
      assert |multiset(b)| == 0;
    } else {
      assert a[0] in multiset(b);
      var j :| 0 <= j < |b| && b[j] == a[0];
      Removed(a, b, j);
      AboveIgnoresOrder(a[1..], b[..j] + b[j + 1..], x);
      AboveWithout(b, j, x);
    }
  }

  lemma SortedAtMost(s: seq<real>, i: nat, x: real)
    requires i < |s| && Sorted(s, AtMost()) && x >= s[i]
    ensures Above(s, x) <= |s| - 1 - i
  {
    var l, r := s[..i + 1], s[i + 1..];
    assert s == l + r;
    AboveConcat(l, r, x);
    forall j | 0 <= j < |l| ensures l[j] <= x {
      if j < i { assert AtMost()(s[j], s[i]); }
    }
    AboveNone(l, x);
    AboveAtMost(r, x);
  }

  lemma SortedAtLeast(s: seq<real>, i: nat, x: real)
    requires i < |s| && Sorted(s, AtMost()) && x < s[i]
    ensures Above(s, x) >= |s| - i
  {
    var l, r := s[..i], s[i..];
    assert s == l + r;
    AboveConcat(l, r, x);
    forall j | 0 <= j < |r| ensures r[j] > x {
      if j > 0 { assert AtMost()(s[i], s[i + j]); }
    }
    AboveAll(r, x);
  }

  lemma IndexAtBounds(n: nat, position: real)
    requires n > 0 && 0.0 <= position <= n as real
    ensures (n - 1 - IndexAt(n, position)) as real <= n as real - position
    ensures IndexAt(n, position) > 0 ==> (n - IndexAt(n, position)) as real > n as real - position
  {
    var c := Ceiling(position);
    assert c as real < (n + 1) as real;
    assert 0 <= c <= n;
    assert IndexAt(n, position) == if c == 0 then 0 else c - 1;
  }

  /** The two roundings that make the index an exact order statistic. */
  lemma IndexBounds(n: nat, quantile: real)
    requires n > 0
    ensures (n - 1 - QuantileIndex(n, quantile)) as real <= Share(n, quantile)
    ensures QuantileIndex(n, quantile) > 0
            ==> (n - QuantileIndex(n, quantile)) as real > Share(n, quantile)
  {
    var position := Clamp01(quantile) * n as real;
    Stretch(Clamp01(quantile), n as real);
    IndexAtBounds(n, position);
    assert Share(n, quantile) == n as real - position;
  }

  lemma Stretch(q: real, m: real)
    requires 0.0 <= q <= 1.0 && m > 0.0
    ensures 0.0 <= q * m <= m
    ensures (1.0 - q) * m == m - q * m
  {
  }

  // ---------- what the quantile is ----------

  /** The part of `n` scores that a quantile leaves above itself. */
  function Share(n: nat, quantile: real): real {
    (1.0 - Clamp01(quantile)) * n as real
  }

  /** `x` is the least value that leaves no more than `share` values strictly above it. */
  ghost predicate Leaves(values: seq<real>, share: real, x: real) {
    && x in values
    && Above(values, x) as real <= share
    && forall y | y in values && y < x :: Above(values, y) as real > share
  }

  lemma OrderStatistic(values: seq<real>, i: nat, share: real)
    requires i < |values| == |Sort(values, AtMost())|
    requires (|values| - 1 - i) as real <= share
    requires i > 0 ==> (|values| - i) as real > share
    ensures Leaves(values, share, Sort(values, AtMost())[i])
  {
    var s := Sort(values, AtMost());
    SortPermutes(values, AtMost());
    SortSorts(values, AtMost());
    SortMembers(values, AtMost());
    SortedAtMost(s, i, s[i]);
    AboveIgnoresOrder(values, s, s[i]);
    assert s[i] in s;
    forall y | y in values && y < s[i] ensures Above(values, y) as real > share {
      SmallerElement(s, i, y);
      SortedAtLeast(s, i, y);
      AboveIgnoresOrder(values, s, y);
    }
  }

  lemma SmallerElement(s: seq<real>, i: nat, y: real)
    requires i < |s| && Sorted(s, AtMost()) && y in s && y < s[i]
    ensures i > 0
  {
    assert forall j | i < j < |s| :: AtMost()(s[i], s[j]);
    var j :| 0 <= j < |s| && s[j] == y;
  }

  /** The moving quantile is the least window score that leaves at most its share above it. */
  lemma QuantileExact(values: seq<real>, quantile: real)
    requires values != []
    ensures Leaves(values, Share(|values|, quantile), MovingQuantile(values, quantile))
  {
    SortPermutes(values, AtMost());
    IndexBounds(|values|, quantile);
    OrderStatistic(values, QuantileIndex(|values|, quantile), Share(|values|, quantile));
  }

  lemma LeavesUnique(a: seq<real>, b: seq<real>, share: real, x: real, y: real)
    requires multiset(a) == multiset(b)
    requires Leaves(a, share, x) && Leaves(b, share, y)
    ensures x == y
  {
    assert y in multiset(a) && x in multiset(b);
    AboveIgnoresOrder(a, b, x);
    AboveIgnoresOrder(a, b, y);
  }

  /** Only one score fits the description, so the order of the window does not matter. */
  lemma QuantileIgnoresOrder(a: seq<real>, b: seq<real>, quantile: real)
    requires multiset(a) == multiset(b)
    ensures MovingQuantile(a, quantile) == MovingQuantile(b, quantile)
  {
    assert |multiset(a)| == |a| && |multiset(b)| == |b|;
    if a != [] {
      QuantileExact(a, quantile);
      QuantileExact(b, quantile);
      LeavesUnique(a, b, Share(|a|, quantile), MovingQuantile(a, quantile), MovingQuantile(b, quantile));
    }
  }

  /** The quantile is pinned down by what it leaves above it. */
  lemma QuantileIff(values: seq<real>, quantile: real, x: real)
    requires values != []
    ensures x == MovingQuantile(values, quantile) <==> Leaves(values, Share(|values|, quantile), x)
  {
    QuantileExact(values, quantile);
    if Leaves(values, Share(|values|, quantile), x) {
      LeavesUnique(values, values, Share(|values|, quantile), x, MovingQuantile(values, quantile));
    }
  }
}
