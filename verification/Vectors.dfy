/** Cosine similarity over real vectors, shared in substance by the adaptive filter and the hopper engine. */
module Vectors {
  import opened Prelude

  type Vector = seq<real>

  /** `Math.sqrt` on the reals: any function that returns the non-negative root. */
  ghost predicate IsSqrt(sqrt: real -> real) {
    forall x | x >= 0.0 :: sqrt(x) >= 0.0 && sqrt(x) * sqrt(x) == x
  }

  function Clamp(x: real, lo: real, hi: real): real {
    var y := if x < lo then lo else x;
    if hi < y then hi else y
  }

  function Clamp01(x: real): real {
    Clamp(x, 0.0, 1.0)
  }

  function Dot(a: Vector, b: Vector): real
    requires |a| == |b|
  {
    if a == [] then 0.0
    else Dot(a[..|a| - 1], b[..|b| - 1]) + a[|a| - 1] * b[|b| - 1]
  }

  function Norm2(a: Vector): real {
    Dot(a, a)
  }

  /** The cosine before clamping; a quotient by zero is not finite and clamps to zero. */
  function Quotient(dot: real, aRoot: real, bRoot: real): real {
    if aRoot * bRoot == 0.0 then 0.0 else dot / (aRoot * bRoot)
  }

  /** The similarity that both loops compute. */
  function Cosine(sqrt: real -> real, a: Vector, b: Vector): real {
    if |a| != |b| || a == [] then 0.0
    else if Norm2(a) == 0.0 || Norm2(b) == 0.0 then 0.0
    else Clamp01(Quotient(Dot(a, b), sqrt(Norm2(a)), sqrt(Norm2(b))))
  }

  function Scale(c: real, a: Vector): (r: Vector)
    ensures |r| == |a| && forall i | 0 <= i < |a| :: r[i] == c * a[i]
  {
    seq(|a|, i requires 0 <= i < |a| => c * a[i])
  }

  function NormalizeVector(sqrt: real -> real, v: Vector): Vector {
    var norm := sqrt(Norm2(v));
    if norm == 0.0 then v else seq(|v|, i requires 0 <= i < |v| => v[i] / norm)
  }

  /** Clamping moves a value to the nearest point of the interval. */
  lemma ClampIsNearest(x: real, lo: real, hi: real)
    requires lo <= hi
    ensures lo <= Clamp(x, lo, hi) <= hi
    ensures x <= lo ==> Clamp(x, lo, hi) == lo
    ensures lo <= x <= hi ==> Clamp(x, lo, hi) == x
    ensures hi <= x ==> Clamp(x, lo, hi) == hi
  {
  }

  // ---------- scalar facts ----------

  lemma SquareNonNegative(x: real)
    ensures x * x >= 0.0
  {
  }

  /** The squared length of `p` times one vector plus `q` times another, from their products. */
  function Quadratic(p: real, q: real, aa: real, ab: real, bb: real): real {
    p * p * aa + 2.0 * p * q * ab + q * q * bb
  }

  lemma QuadraticStep(p: real, q: real, x: real, y: real, aa: real, ab: real, bb: real)
    requires Quadratic(p, q, aa, ab, bb) >= 0.0
    ensures Quadratic(p, q, aa + Times(x, x), ab + Times(x, y), bb + Times(y, y)) >= 0.0
  {
    var z := p * x + q * y;
    SquareNonNegative(z);
    assert z * z == p * p * (x * x) + 2.0 * p * q * (x * y) + q * q * (y * y);
    assert p * p * (aa + x * x) == p * p * aa + p * p * (x * x);
    assert 2.0 * p * q * (ab + x * y) == 2.0 * p * q * ab + 2.0 * p * q * (x * y);
    assert q * q * (bb + y * y) == q * q * bb + q * q * (y * y);
  }

  lemma ProductPositive(x: real, y: real)
    requires x > 0.0 && y > 0.0
    ensures x * y > 0.0
  {
  }

  function Times(x: real, y: real): real {
    x * y
  }

  lemma TimesPositive(x: real, y: real)
    requires x > 0.0 && y > 0.0
    ensures Times(x, y) > 0.0
  {
  }

  lemma SquarePositive(x: real)
    requires x != 0.0
    ensures Times(x, x) > 0.0
  {
    if x > 0.0 {
      TimesPositive(x, x);
    } else {
      TimesPositive(-x, -x);
      assert Times(x, x) == Times(-x, -x);
    }
  }

  lemma ZeroSum(s: real, x: real)
    requires s >= 0.0
    ensures s + Times(x, x) == 0.0 <==> s == 0.0 && x == 0.0
  {
    if x != 0.0 { SquarePositive(x); }
  }

  lemma ProductSign(b: real, c: real)
    requires b > 0.0 && b * c >= 0.0
    ensures c >= 0.0
  {
    if c < 0.0 { ProductPositive(b, -c); }
  }

  lemma RootsCompare(d: real, s: real)
    requires s >= 0.0 && d * d <= s * s
    ensures -s <= d <= s
  {
    assert (d - s) * (d + s) == d * d - s * s;
    if d > s { ProductPositive(d - s, d + s); }
    if d < -s { ProductPositive(s - d, -d - s); }
  }

  lemma RootUnique(r: real, s: real)
    requires r >= 0.0 && s >= 0.0 && r * r == s * s
    ensures r == s
  {
    RootsCompare(r, s);
    RootsCompare(s, r);
  }

  // ---------- Cauchy-Schwarz ----------

  lemma {:induction false} DotLast(a: Vector, b: Vector)
    requires |a| == |b| && a != []
    ensures var n := |a| - 1; Dot(a, b) == Dot(a[..n], b[..n]) + Times(a[n], b[n])
  {
  }

  lemma {:induction false} QuadraticForm(a: Vector, b: Vector, p: real, q: real)
    requires |a| == |b|
    ensures Quadratic(p, q, Norm2(a), Dot(a, b), Norm2(b)) >= 0.0
  {
    if a != [] {
      var n := |a| - 1;
      var aa, ab, bb := Norm2(a[..n]), Dot(a[..n], b[..n]), Norm2(b[..n]);
      QuadraticForm(a[..n], b[..n], p, q);
      QuadraticStep(p, q, a[n], b[n], aa, ab, bb);
      DotLast(a, a);
      DotLast(b, b);
      DotLast(a, b);
    }
  }

  lemma {:induction false} Norm2NonNegative(a: Vector)
    ensures Norm2(a) >= 0.0
  {
    if a != [] {
      Norm2NonNegative(a[..|a| - 1]);
      SquareNonNegative(a[|a| - 1]);
    }
  }

  /** A zero norm means a zero vector. */
  lemma {:induction false} ZeroNorm(a: Vector)
    ensures Norm2(a) == 0.0 <==> forall i | 0 <= i < |a| :: a[i] == 0.0
  {
    if a != [] {
      var n := |a| - 1;
      ZeroNorm(a[..n]);
      Norm2NonNegative(a[..n]);
      ZeroSum(Norm2(a[..n]), a[n]);
      assert forall i | 0 <= i < n :: a[..n][i] == a[i];
      assert Norm2(a) == Norm2(a[..n]) + Times(a[n], a[n]);
      assert Norm2(a) == 0.0 <==> Norm2(a[..n]) == 0.0 && a[n] == 0.0;
    }
  }

  lemma {:induction false} DotWithZero(a: Vector, b: Vector)
    requires |a| == |b| && forall i | 0 <= i < |b| :: b[i] == 0.0
    ensures Dot(a, b) == 0.0
  {
    if a != [] { DotWithZero(a[..|a| - 1], b[..|b| - 1]); }
  }

  /** The looped dot product never exceeds the product of the norms. */
  lemma CauchySchwarz(a: Vector, b: Vector)
    requires |a| == |b|
    ensures Dot(a, b) * Dot(a, b) <= Norm2(a) * Norm2(b)
  {
    var d, aa, bb := Dot(a, b), Norm2(a), Norm2(b);
    Norm2NonNegative(b);
    if bb == 0.0 {
      ZeroNorm(b);
      DotWithZero(a, b);
    } else {
      QuadraticForm(a, b, bb, -d);
      Discriminant(d, aa, bb);
    }
  }

  lemma Discriminant(d: real, aa: real, bb: real)
    requires bb > 0.0 && Quadratic(bb, -d, aa, d, bb) >= 0.0
    ensures d * d <= aa * bb
  {
    assert bb * (aa * bb - d * d) == Quadratic(bb, -d, aa, d, bb);
    ProductSign(bb, aa * bb - d * d);
  }

  // ---------- similarity ----------

  lemma RootPositive(sqrt: real -> real, a: Vector)
    requires IsSqrt(sqrt) && Norm2(a) != 0.0
    ensures Norm2(a) > 0.0 && sqrt(Norm2(a)) > 0.0
  {
    Norm2NonNegative(a);
  }

  lemma Quotients(d: real, ra: real, rb: real)
    requires ra > 0.0 && rb > 0.0
    ensures ra * rb > 0.0 && Quotient(d, ra, rb) * (ra * rb) == d
  {
    ProductPositive(ra, rb);
  }

  lemma QuotientBounds(d: real, ra: real, rb: real, aa: real, bb: real)
    requires ra > 0.0 && rb > 0.0 && ra * ra == aa && rb * rb == bb && d * d <= aa * bb
    ensures -1.0 <= Quotient(d, ra, rb) <= 1.0
    ensures d < 0.0 <==> Quotient(d, ra, rb) < 0.0
  {
    var root, q := ra * rb, Quotient(d, ra, rb);
    Quotients(d, ra, rb);
    assert root * root == (ra * ra) * (rb * rb);
    RootsCompare(d, root);
    FactorBounds(q, root, d);
  }

  lemma FactorBounds(q: real, root: real, d: real)
    requires root > 0.0 && q * root == d && -root <= d <= root
    ensures -1.0 <= q <= 1.0 && (d < 0.0 <==> q < 0.0)
  {
    assert (q - 1.0) * root == d - root && (-1.0 - q) * root == -root - d && (-q) * root == -d;
    if q > 1.0 { ProductPositive(q - 1.0, root); }
    if q < -1.0 { ProductPositive(-1.0 - q, root); }
    if q < 0.0 { ProductPositive(-q, root); }
    if q > 0.0 { ProductPositive(q, root); }
  }

  /** The quotient lies in [-1, 1], so clamping it to [0, 1] cuts nothing but negative cosines. */
  lemma ClampCutsOnlyNegatives(sqrt: real -> real, a: Vector, b: Vector)
    requires IsSqrt(sqrt) && |a| == |b| && Norm2(a) != 0.0 && Norm2(b) != 0.0
    ensures var q := Quotient(Dot(a, b), sqrt(Norm2(a)), sqrt(Norm2(b)));
      -1.0 <= q <= 1.0 && Cosine(sqrt, a, b) == if Dot(a, b) < 0.0 then 0.0 else q
  {
    RootPositive(sqrt, a);
    RootPositive(sqrt, b);
    CauchySchwarz(a, b);
    QuotientBounds(Dot(a, b), sqrt(Norm2(a)), sqrt(Norm2(b)), Norm2(a), Norm2(b));
  }

  lemma {:induction false} DotSymmetric(a: Vector, b: Vector)
    requires |a| == |b|
    ensures Dot(a, b) == Dot(b, a)
  {
    if a != [] { DotSymmetric(a[..|a| - 1], b[..|b| - 1]); }
  }

  lemma CosineSymmetric(sqrt: real -> real, a: Vector, b: Vector)
    ensures Cosine(sqrt, a, b) == Cosine(sqrt, b, a)
  {
    if |a| == |b| {
      DotSymmetric(a, b);
      QuotientSymmetric(Dot(a, b), sqrt(Norm2(a)), sqrt(Norm2(b)));
    }
  }

  lemma QuotientSymmetric(d: real, ra: real, rb: real)
    ensures Quotient(d, ra, rb) == Quotient(d, rb, ra)
  {
    assert ra * rb == rb * ra;
  }

  lemma {:induction false} DotScale(c: real, a: Vector, b: Vector)
    requires |a| == |b|
    ensures Dot(Scale(c, a), b) == c * Dot(a, b)
  {
    if a != [] {
      var n := |a| - 1;
      DotScale(c, a[..n], b[..n]);
      assert Scale(c, a)[..n] == Scale(c, a[..n]) by {
        forall i | 0 <= i < n ensures Scale(c, a)[..n][i] == Scale(c, a[..n])[i] {
          assert a[..n][i] == a[i];
        }
      }
      ScaleStep(c, Dot(a[..n], b[..n]), a[n], b[n]);
    }
  }

  lemma ScaleStep(c: real, d: real, x: real, y: real)
    ensures c * d + c * x * y == c * (d + x * y)
  {
  }

  lemma NormScale(sqrt: real -> real, c: real, a: Vector)
    requires IsSqrt(sqrt) && c > 0.0
    ensures Norm2(Scale(c, a)) == c * c * Norm2(a)
    ensures sqrt(Norm2(Scale(c, a))) == c * sqrt(Norm2(a))
  {
    DotScale(c, a, Scale(c, a));
    DotSymmetric(a, Scale(c, a));
    DotScale(c, a, a);
    var n := Norm2(a);
    assert Norm2(Scale(c, a)) == c * (c * n) == c * c * n;
    Norm2NonNegative(a);
    Norm2NonNegative(Scale(c, a));
    var r := sqrt(n);
    assert (c * r) * (c * r) == c * c * (r * r);
    RootUnique(sqrt(Norm2(Scale(c, a))), c * r);
  }

  lemma CancelScale(c: real, d: real, ra: real, rb: real)
    requires c > 0.0 && ra > 0.0 && rb > 0.0
    ensures Quotient(c * d, c * ra, rb) == Quotient(d, ra, rb)
  {
    var root, q, q' := ra * rb, Quotient(d, ra, rb), Quotient(c * d, c * ra, rb);
    ProductPositive(c, ra);
    Quotients(d, ra, rb);
    Quotients(c * d, c * ra, rb);
    ProductPositive(c, root);
    assert (c * ra) * rb == c * root;
    assert q' * (c * root) == c * d;
    assert q * (c * root) == c * (q * root) == c * d;
    Cancel(q, q', c * root);
  }

  lemma Cancel(x: real, y: real, r: real)
    requires r > 0.0 && x * r == y * r
    ensures x == y
  {
    assert (x - y) * r == 0.0;
    if x > y { ProductPositive(x - y, r); }
    if x < y { ProductPositive(y - x, r); }
  }

  /** Stretching a vector does not change its similarity to another. */
  lemma CosineScaleInvariant(sqrt: real -> real, c: real, a: Vector, b: Vector)
    requires IsSqrt(sqrt) && c > 0.0
    ensures Cosine(sqrt, Scale(c, a), b) == Cosine(sqrt, a, b)
  {
    if |a| == |b| && a != [] {
      NormScale(sqrt, c, a);
      DotScale(c, a, b);
      if Norm2(a) != 0.0 && Norm2(b) != 0.0 {
        RootPositive(sqrt, a);
        RootPositive(sqrt, b);
        ProductPositive(c, c);
        ProductPositive(c * c, Norm2(a));
        var s, ra, rb, d := Scale(c, a), sqrt(Norm2(a)), sqrt(Norm2(b)), Dot(a, b);
        CancelScale(c, d, ra, rb);
        assert Norm2(s) != 0.0 && Dot(s, b) == c * d && sqrt(Norm2(s)) == c * ra;
        assert Quotient(Dot(s, b), sqrt(Norm2(s)), rb) == Quotient(d, ra, rb);
      }
    }
  }

  lemma DivisionIsScaling(x: real, r: real)
    requires r > 0.0
    ensures x / r == (1.0 / r) * x
  {
    assert (x / r) * r == x && (1.0 / r) * r == 1.0;
    assert ((1.0 / r) * x) * r == ((1.0 / r) * r) * x;
    Cancel(x / r, (1.0 / r) * x, r);
  }

  /** Normalizing gives a vector of norm one, unless the vector is zero. */
  lemma NormalizeIsScale(sqrt: real -> real, v: Vector)
    requires IsSqrt(sqrt)
    ensures Norm2(v) == 0.0 ==> NormalizeVector(sqrt, v) == v
    ensures Norm2(v) != 0.0 ==> sqrt(Norm2(v)) > 0.0 && NormalizeVector(sqrt, v) == Scale(1.0 / sqrt(Norm2(v)), v)
    ensures Norm2(v) != 0.0 ==> Norm2(NormalizeVector(sqrt, v)) == 1.0
  {
    Norm2NonNegative(v);
    var r := sqrt(Norm2(v));
    assert r * r == Norm2(v);
    if Norm2(v) != 0.0 {
      var c := 1.0 / r;
      assert c * r == 1.0 && c > 0.0;
      var n := NormalizeVector(sqrt, v);
      forall i | 0 <= i < |v| ensures n[i] == Scale(c, v)[i] {
        DivisionIsScaling(v[i], r);
        assert n[i] == v[i] / r;
      }
      assert NormalizeVector(sqrt, v) == Scale(c, v);
      NormScale(sqrt, c, v);
      assert c * c * (r * r) == (c * r) * (c * r);
    }
  }

  /** Similarity does not see normalization, on either side. */
  lemma CosineOfNormalized(sqrt: real -> real, a: Vector, b: Vector)
    requires IsSqrt(sqrt)
    ensures Cosine(sqrt, NormalizeVector(sqrt, a), b) == Cosine(sqrt, a, b) == Cosine(sqrt, a, NormalizeVector(sqrt, b))
  {
    NormalizeIsScale(sqrt, a);
    NormalizeIsScale(sqrt, b);
    if Norm2(a) != 0.0 { CosineScaleInvariant(sqrt, 1.0 / sqrt(Norm2(a)), a, b); }
    if Norm2(b) != 0.0 { CosineScaleInvariant(sqrt, 1.0 / sqrt(Norm2(b)), b, a); }
    CosineSymmetric(sqrt, a, b);
    CosineSymmetric(sqrt, a, NormalizeVector(sqrt, b));
  }

  /** A vector is fully similar to itself exactly when it is not zero. */
  lemma CosineWithItself(sqrt: real -> real, a: Vector)
    requires IsSqrt(sqrt)
    ensures Cosine(sqrt, a, a) == if exists i | 0 <= i < |a| :: a[i] != 0.0 then 1.0 else 0.0
  {
    ZeroNorm(a);
    if Norm2(a) != 0.0 {
      RootPositive(sqrt, a);
      SelfQuotient(Norm2(a), sqrt(Norm2(a)));
    }
  }

  lemma DividedBySelf(x: real, y: real)
    requires x == y && y > 0.0
    ensures x / y == 1.0
  {
  }

  lemma SelfQuotient(n: real, r: real)
    requires r > 0.0 && r * r == n
    ensures Quotient(n, r, r) == 1.0
  {
    TimesPositive(r, r);
    var root := Times(r, r);
    DividedBySelf(n, root);
    assert Quotient(n, r, r) == n / root;
  }

  /** Normalizing forgets the length: it depends on the direction alone. */
  lemma NormalizeScaled(sqrt: real -> real, c: real, v: Vector)
    requires IsSqrt(sqrt) && c > 0.0
    ensures NormalizeVector(sqrt, Scale(c, v)) == NormalizeVector(sqrt, v) || Norm2(v) == 0.0
    ensures Norm2(v) == 0.0 ==> Norm2(Scale(c, v)) == 0.0
  {
    NormScale(sqrt, c, v);
    if Norm2(v) != 0.0 {
      var u, r := Scale(c, v), sqrt(Norm2(v));
      RootPositive(sqrt, v);
      ProductPositive(c, r);
      forall i | 0 <= i < |v| ensures u[i] / (c * r) == v[i] / r {
        QuotientCancels(c, v[i], r);
      }
      assert sqrt(Norm2(u)) == c * r;
    }
  }

  lemma QuotientCancels(c: real, x: real, r: real)
    requires c > 0.0 && r > 0.0 && c * r > 0.0
    ensures (c * x) / (c * r) == x / r
  {
    var q, q', cr := x / r, (c * x) / (c * r), c * r;
    assert q * r == x && q' * cr == c * x;
    assert q * cr == c * (q * r);
    Cancel(q, q', cr);
  }

  // ---------- the loops ----------

  /** The filter's version; the second vector may be missing. */
  method NormalizedCosine(sqrt: real -> real, a: Vector, b: Option<Vector>) returns (r: real)
    requires IsSqrt(sqrt)
    ensures r == if b.None? then 0.0 else Cosine(sqrt, a, b.value)
  {
    if b.None? || |a| != |b.value| || |a| == 0 { return 0.0; }
    var dot, aNorm, bNorm := 0.0, 0.0, 0.0;
    for i := 0 to |a|
      invariant dot == Dot(a[..i], b.value[..i])
      invariant aNorm == Norm2(a[..i]) && bNorm == Norm2(b.value[..i])
    {
      assert a[..i + 1][..i] == a[..i] && b.value[..i + 1][..i] == b.value[..i];
      dot := dot + a[i] * b.value[i];
      aNorm := aNorm + a[i] * a[i];
      bNorm := bNorm + b.value[i] * b.value[i];
    }
    assert a[..|a|] == a && b.value[..|a|] == b.value;
    if aNorm == 0.0 || bNorm == 0.0 { return 0.0; }
    RootPositive(sqrt, a);
    RootPositive(sqrt, b.value);
    ProductPositive(sqrt(aNorm), sqrt(bNorm));
    r := Clamp01(dot / (sqrt(aNorm) * sqrt(bNorm)));
  }

  /** The engine's version. */
  method CosineSimilarity(sqrt: real -> real, a: Vector, b: Vector) returns (r: real)
    requires IsSqrt(sqrt)
    ensures r == Cosine(sqrt, a, b)
  {
    if |a| != |b| || |a| == 0 { return 0.0; }
    var dot, aNorm, bNorm := 0.0, 0.0, 0.0;
    for index := 0 to |a|
      invariant dot == Dot(a[..index], b[..index])
      invariant aNorm == Norm2(a[..index]) && bNorm == Norm2(b[..index])
    {
      assert a[..index + 1][..index] == a[..index] && b[..index + 1][..index] == b[..index];
      dot := dot + a[index] * b[index];
      aNorm := aNorm + a[index] * a[index];
      bNorm := bNorm + b[index] * b[index];
    }
    assert a[..|a|] == a && b[..|a|] == b;
    if aNorm == 0.0 || bNorm == 0.0 { return 0.0; }
    RootPositive(sqrt, a);
    RootPositive(sqrt, b);
    ProductPositive(sqrt(aNorm), sqrt(bNorm));
    r := Clamp01(dot / (sqrt(aNorm) * sqrt(bNorm)));
  }
}
