/** Embeddings, their cosine, and the stability score averaged over it. */
module Vectors {
  import opened Collections

  type Vec = seq<real>

  /** What `math.sqrt` is over the reals. */
  ghost predicate IsSqrt(sqrt: real -> real) {
    forall x: real {:trigger sqrt(x)} :: x >= 0.0 ==> sqrt(x) >= 0.0 && sqrt(x) * sqrt(x) == x
  }

  /** A deterministic embedder with vectors of one dimension, and the square root its cosines use. */
  datatype Embedder = Embedder(embed: string -> Vec, dim: nat, sqrt: real -> real) {
    ghost predicate Valid() {
      forall text :: |embed(text)| == dim
    }
  }

  function Dot(a: Vec, b: Vec): real
    requires |a| == |b|
  {
    if a == [] then 0.0 else a[0] * b[0] + Dot(a[1..], b[1..])
  }

  function Cosine(sqrt: real -> real, a: Vec, b: Vec): real
    requires |a| == |b|
  {
    Normalised(Dot(a, b), sqrt(Dot(a, a)), sqrt(Dot(b, b)))
  }

  function Normalised(dot: real, normA: real, normB: real): real {
    if normA == 0.0 || normB == 0.0 then 0.0
    else
      assert normA * normB != 0.0;
      dot / (normA * normB)
  }

  lemma {:induction false} DotCommutes(a: Vec, b: Vec)
    requires |a| == |b|
    ensures Dot(a, b) == Dot(b, a)
  {
    if a != [] { DotCommutes(a[1..], b[1..]); }
  }

  lemma {:induction false} CosineCommutes(sqrt: real -> real, a: Vec, b: Vec)
    requires |a| == |b|
    ensures Cosine(sqrt, a, b) == Cosine(sqrt, b, a)
  {
    DotCommutes(a, b);
    NormalisedCommutes(Dot(a, b), sqrt(Dot(a, a)), sqrt(Dot(b, b)));
  }

  lemma {:induction false} NormalisedCommutes(dot: real, normA: real, normB: real)
    ensures Normalised(dot, normA, normB) == Normalised(dot, normB, normA)
  {
    assert normA * normB == normB * normA;
  }

  /** The dot product is the sum of the products of the components. */
  lemma {:induction false} DotIsTheSum(a: Vec, b: Vec, products: seq<real>)
    requires |a| == |b| == |products| && forall k :: 0 <= k < |a| ==> products[k] == a[k] * b[k]
    ensures Dot(a, b) == SumOf(products)
  {
    if a != [] {
      DotIsTheSum(a[1..], b[1..], products[1..]);
      SumFromTheFront(products[0], products[1..]);
      assert products == [products[0]] + products[1..];
    }
  }

  /** The cosine times both norms is the dot product, and it is 0 when a norm is. */
  lemma {:induction false} CosineIsTheQuotient(sqrt: real -> real, a: Vec, b: Vec)
    requires |a| == |b|
    ensures var na, nb := sqrt(Dot(a, a)), sqrt(Dot(b, b));
      if na == 0.0 || nb == 0.0 then Cosine(sqrt, a, b) == 0.0 else Cosine(sqrt, a, b) * (na * nb) == Dot(a, b)
  {
    var na, nb := sqrt(Dot(a, a)), sqrt(Dot(b, b));
    if na != 0.0 && nb != 0.0 {
      assert na * nb != 0.0;
    }
  }

  lemma {:induction false} DotSelfNonNegative(a: Vec)
    ensures Dot(a, a) >= 0.0
  {
    if a != [] {
      DotSelfNonNegative(a[1..]);
      assert a[0] * a[0] >= 0.0;
    }
  }

  // ----- Cauchy-Schwarz -----

  lemma {:induction false} PositiveProduct(x: real, y: real)
    requires x > 0.0 && y > 0.0
    ensures x * y > 0.0
  {
  }

  lemma {:induction false} SquareGreater(x: real, y: real)
    requires x > y >= 0.0
    ensures x * x > y * y
  {
    assert x * x - y * y == (x - y) * (x + y);
    PositiveProduct(x - y, x + y);
  }

  lemma {:induction false} SquareLess(x: real, y: real)
    requires y >= 0.0 && x * x <= y * y
    ensures -y <= x <= y
  {
    if x > y {
      SquareGreater(x, y);
    } else if -x > y {
      SquareGreater(-x, y);
    }
  }

  lemma {:induction false} ScaledSquares(s: real, p: real, q: real, z: real)
    requires s * s <= p * q
    ensures (s * z) * (s * z) <= p * q * (z * z)
  {
    assert z * z >= 0.0;
    var t := z * z;
    assert s * s * t <= p * q * t;
    assert (s * z) * (s * z) == s * s * t;
  }

  lemma {:induction false} GeometricBelowArithmetic(w: real, u: real, v: real)
    requires u >= 0.0 && v >= 0.0 && w * w <= u * v
    ensures 2.0 * w <= u + v
  {
    assert (u - v) * (u - v) >= 0.0;
    assert (u + v) * (u + v) == (u - v) * (u - v) + 4.0 * (u * v);
    assert (2.0 * w) * (2.0 * w) == 4.0 * (w * w);
    SquareLess(2.0 * w, u + v);
  }

  lemma {:induction false} CauchySchwarzStep(s: real, p: real, q: real, x: real, y: real, ab: real, aa: real, bb: real)
    requires p >= 0.0 && q >= 0.0 && s * s <= p * q
    requires ab == x * y + s && aa == x * x + p && bb == y * y + q
    ensures ab * ab <= aa * bb
  {
    var xx, yy, xy := x * x, y * y, x * y;
    assert xx >= 0.0 && yy >= 0.0 && xy * xy == xx * yy;
    ScaledSquares(s, p, q, xy);
    assert (s * xy) * (s * xy) <= (xx * q) * (yy * p) by {
      assert (xx * q) * (yy * p) == p * q * (xx * yy);
    }
    assert xx * q >= 0.0 && yy * p >= 0.0;
    GeometricBelowArithmetic(s * xy, xx * q, yy * p);
    assert ab * ab == xy * xy + 2.0 * (s * xy) + s * s;
    assert aa * bb == xx * yy + xx * q + yy * p + p * q;
  }

  lemma {:induction false} CauchySchwarz(a: Vec, b: Vec)
    requires |a| == |b|
    ensures Dot(a, b) * Dot(a, b) <= Dot(a, a) * Dot(b, b)
  {
    if a != [] {
      var v, w := a[1..], b[1..];
      CauchySchwarz(v, w);
      DotSelfNonNegative(v);
      DotSelfNonNegative(w);
      CauchySchwarzStep(Dot(v, w), Dot(v, v), Dot(w, w), a[0], b[0], Dot(a, b), Dot(a, a), Dot(b, b));
    }
  }

  lemma {:induction false} ScaledGreater(q: real, r: real, n: real)
    requires n > 0.0 && q > r
    ensures q * n > r * n
  {
  }

  lemma {:induction false} QuotientBound(d: real, n: real)
    requires n > 0.0 && -n <= d <= n
    ensures -1.0 <= d / n <= 1.0
  {
    var q := d / n;
    assert q * n == d;
    if q > 1.0 {
      ScaledGreater(q, 1.0, n);
    } else if q < -1.0 {
      ScaledGreater(-1.0, q, n);
    }
  }

  lemma {:induction false} ProductOfSquares(x: real, y: real)
    requires x >= 0.0 && y >= 0.0
    ensures x * y >= 0.0 && (x != 0.0 && y != 0.0 ==> x * y > 0.0)
    ensures (x * y) * (x * y) == (x * x) * (y * y)
  {
  }

  lemma {:induction false} QuotientOfEquals(p: real, q: real)
    requires p == q && q > 0.0
    ensures p / q == 1.0
  {
    assert q / q == 1.0;
  }

  lemma {:induction false} QuotientOfRoots(d: real, aa: real, bb: real, na: real, nb: real)
    requires na > 0.0 && nb > 0.0 && na * na == aa && nb * nb == bb && d * d <= aa * bb
    ensures -1.0 <= Normalised(d, na, nb) <= 1.0
  {
    ProductOfSquares(na, nb);
    SquareLess(d, na * nb);
    QuotientBound(d, na * nb);
  }

  lemma {:induction false} CosineIsBounded(sqrt: real -> real, a: Vec, b: Vec)
    requires IsSqrt(sqrt) && |a| == |b|
    ensures -1.0 <= Cosine(sqrt, a, b) <= 1.0
  {
    DotSelfNonNegative(a);
    DotSelfNonNegative(b);
    CauchySchwarz(a, b);
    var na, nb := sqrt(Dot(a, a)), sqrt(Dot(b, b));
    if na != 0.0 && nb != 0.0 {
      QuotientOfRoots(Dot(a, b), Dot(a, a), Dot(b, b), na, nb);
    }
  }

  // ----- The stability score of the retrieval controller -----

  ghost predicate SameDimension(history: seq<Vec>, dim: nat) {
    forall i :: 0 <= i < |history| ==> |history[i]| == dim
  }

  /** Sum of the cosines of one vector with each of the others. */
  function CosinesWith(sqrt: real -> real, a: Vec, others: seq<Vec>): real
    requires SameDimension(others, |a|)
  {
    if others == [] then 0.0 else Cosine(sqrt, a, others[0]) + CosinesWith(sqrt, a, others[1..])
  }

  /** Sum over every pair i < j. */
  function PairSum(sqrt: real -> real, recent: seq<Vec>, dim: nat): real
    requires SameDimension(recent, dim)
  {
    if recent == [] then 0.0
    else CosinesWith(sqrt, recent[0], recent[1..]) + PairSum(sqrt, recent[1..], dim)
  }

  function Last(history: seq<Vec>, window: nat): seq<Vec> {
    if |history| <= window then history else history[|history| - window..]
  }

  /** How many pairs n readings make: each reading pairs with every one before it. */
  function Pairs(n: nat): nat { if n == 0 then 0 else Pairs(n - 1) + (n - 1) }

  function Stability(sqrt: real -> real, history: seq<Vec>, window: nat, dim: nat): real
    requires SameDimension(history, dim)
  {
    var recent := Last(history, window);
    if |recent| < 2 then 0.0
    else PairSum(sqrt, recent, dim) / (Pairs(|recent|) as real)
  }

  lemma {:induction false} CosinesWithAreBounded(sqrt: real -> real, a: Vec, others: seq<Vec>)
    requires IsSqrt(sqrt) && SameDimension(others, |a|)
    ensures -(|others| as real) <= CosinesWith(sqrt, a, others) <= |others| as real
  {
    if others != [] {
      CosineIsBounded(sqrt, a, others[0]);
      CosinesWithAreBounded(sqrt, a, others[1..]);
    }
  }

  lemma {:induction false} PairSumIsBounded(sqrt: real -> real, recent: seq<Vec>, dim: nat)
    requires IsSqrt(sqrt) && SameDimension(recent, dim)
    ensures -(Pairs(|recent|) as real) <= PairSum(sqrt, recent, dim) <= Pairs(|recent|) as real
  {
    if recent != [] {
      CosinesWithAreBounded(sqrt, recent[0], recent[1..]);
      PairSumIsBounded(sqrt, recent[1..], dim);
    }
  }

  /** The score is a true average of cosines: it always lies in [-1, 1], and is 0 below two embeddings. */
  lemma {:induction false} StabilityIsBounded(sqrt: real -> real, history: seq<Vec>, window: nat, dim: nat)
    requires IsSqrt(sqrt) && SameDimension(history, dim) && window >= 2
    ensures -1.0 <= Stability(sqrt, history, window, dim) <= 1.0
    ensures |history| < 2 ==> Stability(sqrt, history, window, dim) == 0.0
  {
    var recent := Last(history, window);
    if |recent| >= 2 {
      PairSumIsBounded(sqrt, recent, dim);
      QuotientBound(PairSum(sqrt, recent, dim), Pairs(|recent|) as real);
    }
  }

  // ----- Which embeddings the score reads, and what it makes of them -----

  lemma {:induction false} TwicePairs(n: nat)
    ensures 2 * Pairs(n) == n * (n - 1)
  {
    if n > 0 {
      TwicePairs(n - 1);
      assert n * (n - 1) == (n - 1) * (n - 2) + 2 * (n - 1);
    }
  }

  /** The cosines of the i-th vector with every later one. */
  ghost function CosinesAfter(sqrt: real -> real, b: seq<Vec>, dim: nat, i: nat): (r: seq<real>)
    requires SameDimension(b, dim) && i < |b|
    ensures |r| == |b| - 1 - i && forall j :: i < j < |b| ==> r[j - i - 1] == Cosine(sqrt, b[i], b[j])
  {
    seq(|b| - 1 - i, k requires 0 <= k < |b| - 1 - i => Cosine(sqrt, b[i], b[i + 1 + k]))
  }

  lemma {:induction false} CosinesWithIsTheSum(sqrt: real -> real, a: Vec, others: seq<Vec>, cosines: seq<real>)
    requires SameDimension(others, |a|) && |cosines| == |others|
    requires forall k :: 0 <= k < |others| ==> cosines[k] == Cosine(sqrt, a, others[k])
    ensures CosinesWith(sqrt, a, others) == SumOf(cosines)
  {
    if others != [] {
      CosinesWithIsTheSum(sqrt, a, others[1..], cosines[1..]);
      SumFromTheFront(cosines[0], cosines[1..]);
      assert cosines == [cosines[0]] + cosines[1..];
    }
  }

  /** For each vector, the sum of its cosines with every later one. */
  ghost function RowSums(sqrt: real -> real, b: seq<Vec>, dim: nat): (r: seq<real>)
    requires SameDimension(b, dim)
    ensures |r| == |b| && forall i :: 0 <= i < |b| ==> r[i] == SumOf(CosinesAfter(sqrt, b, dim, i))
  {
    seq(|b|, i requires 0 <= i < |b| => SumOf(CosinesAfter(sqrt, b, dim, i)))
  }

  lemma {:induction false} LaterRow(sqrt: real -> real, b: seq<Vec>, dim: nat, i: nat)
    requires SameDimension(b, dim) && i + 1 < |b|
    ensures SameDimension(b[1..], dim) && CosinesAfter(sqrt, b, dim, i + 1) == CosinesAfter(sqrt, b[1..], dim, i)
  {
    var r, q := CosinesAfter(sqrt, b, dim, i + 1), CosinesAfter(sqrt, b[1..], dim, i);
    forall k | 0 <= k < |r| ensures r[k] == q[k] {
      assert r[i + 2 + k - (i + 1) - 1] == Cosine(sqrt, b[i + 1], b[i + 2 + k]);
      assert q[i + 1 + k - i - 1] == Cosine(sqrt, b[1..][i], b[1..][i + 1 + k]);
    }
  }

  lemma {:induction false} RowsFromTheFront(sqrt: real -> real, b: seq<Vec>, dim: nat)
    requires SameDimension(b, dim) && b != []
    ensures RowSums(sqrt, b, dim) == [SumOf(CosinesAfter(sqrt, b, dim, 0))] + RowSums(sqrt, b[1..], dim)
  {
    var rows, later := RowSums(sqrt, b, dim), RowSums(sqrt, b[1..], dim);
    forall i | 0 <= i < |later| ensures rows[i + 1] == later[i] { LaterRow(sqrt, b, dim, i); }
  }

  lemma {:induction false} FirstRow(sqrt: real -> real, b: seq<Vec>, dim: nat)
    requires SameDimension(b, dim) && b != []
    ensures CosinesWith(sqrt, b[0], b[1..]) == SumOf(CosinesAfter(sqrt, b, dim, 0))
  {
    var first := CosinesAfter(sqrt, b, dim, 0);
    forall k | 0 <= k < |first| ensures first[k] == Cosine(sqrt, b[0], b[1..][k]) {
      assert first[k + 1 - 0 - 1] == Cosine(sqrt, b[0], b[k + 1]);
    }
    CosinesWithIsTheSum(sqrt, b[0], b[1..], first);
  }

  lemma {:induction false} PairSumIsTheSum(sqrt: real -> real, b: seq<Vec>, dim: nat)
    requires SameDimension(b, dim)
    ensures PairSum(sqrt, b, dim) == SumOf(RowSums(sqrt, b, dim))
  {
    if b != [] {
      FirstRow(sqrt, b, dim);
      PairSumIsTheSum(sqrt, b[1..], dim);
      RowsFromTheFront(sqrt, b, dim);
      SumFromTheFront(SumOf(CosinesAfter(sqrt, b, dim, 0)), RowSums(sqrt, b[1..], dim));
    }
  }

  /** The mean of a sum over all pairs of n things, of which there are n(n - 1)/2. */
  ghost predicate IsPairMean(mean: real, sum: real, n: nat) {
    mean * ((n * (n - 1)) as real) == 2.0 * sum
  }

  lemma {:induction false} QuotientIsMean(sum: real, pairs: nat, n: nat)
    requires 2 * pairs == n * (n - 1) && pairs > 0
    ensures IsPairMean(sum / (pairs as real), sum, n)
  {
    var p := pairs as real;
    assert (n * (n - 1)) as real == 2.0 * p;
    assert sum / p * p == sum;
  }

  /**
    * Below two embeddings the score is 0; from two up to a window of them it is the mean of the cosines of all pairs.
    */
  lemma {:induction false} StabilityIsTheMean(sqrt: real -> real, b: seq<Vec>, window: nat, dim: nat)
    requires SameDimension(b, dim) && |b| <= window
    ensures var n, score := |b|, Stability(sqrt, b, window, dim);
      if n < 2 then score == 0.0 else IsPairMean(score, SumOf(RowSums(sqrt, b, dim)), n)
  {
    if |b| >= 2 {
      var n := |b|;
      TwicePairs(n);
      PairSumIsTheSum(sqrt, b, dim);
      QuotientIsMean(PairSum(sqrt, b, dim), Pairs(n), n);
    }
  }

  /** Embeddings older than a window are invisible. */
  lemma {:induction false} OlderEmbeddingsAreInvisible(sqrt: real -> real, a: seq<Vec>, b: seq<Vec>, window: nat,
                                                       dim: nat)
    requires SameDimension(a, dim) && SameDimension(b, dim) && |b| == window
    ensures Stability(sqrt, a + b, window, dim) == Stability(sqrt, b, window, dim)
  {
    assert (a + b)[|a + b| - window..] == b;
  }

  /** Under a window of two the score is the cosine of the last two embeddings. */
  lemma {:induction false} StabilityOfTheLastTwo(sqrt: real -> real, a: seq<Vec>, v: Vec, w: Vec, dim: nat)
    requires SameDimension(a, dim) && |v| == |w| == dim
    ensures Stability(sqrt, a + [v, w], 2, dim) == Cosine(sqrt, v, w)
  {
    OlderEmbeddingsAreInvisible(sqrt, a, [v, w], 2, dim);
    assert [v, w][1..] == [w] && [w][1..] == [];
    assert PairSum(sqrt, [w], dim) == 0.0;
    assert CosinesWith(sqrt, v, [w]) == Cosine(sqrt, v, w);
    assert Pairs(2) == 1;
  }

  // ----- Parallel embeddings are perfectly stable -----

  function Scale(c: real, u: Vec): (r: Vec)
    ensures |r| == |u|
  {
    if u == [] then [] else [c * u[0]] + Scale(c, u[1..])
  }

  lemma {:induction false} ScaledFront(c: real, u: Vec)
    requires u != []
    ensures Scale(c, u)[0] == c * u[0] && Scale(c, u)[1..] == Scale(c, u[1..])
  {
  }

  lemma {:induction false} DotFront(a: Vec, b: Vec, x: real, y: real, v: Vec, w: Vec)
    requires |a| == |b| && a != [] && x == a[0] && y == b[0] && v == a[1..] && w == b[1..]
    ensures Dot(a, b) == x * y + Dot(v, w)
  {
  }

  lemma {:induction false} DotOfScaled(c: real, d: real, cd: real, u: Vec)
    requires cd == c * d
    ensures Dot(Scale(c, u), Scale(d, u)) == cd * Dot(u, u)
  {
    if u == [] {
      assert Dot(u, u) == 0.0;
    } else {
      var x, v := u[0], u[1..];
      DotOfScaled(c, d, cd, v);
      ScaledFront(c, u);
      ScaledFront(d, u);
      ScaledDots(c, d, cd, u, v, Scale(c, u), Scale(d, u), Scale(c, v), Scale(d, v));
    }
  }

  lemma {:induction false} ScaledDots(c: real, d: real, cd: real, u: Vec, v: Vec, cu: Vec, du: Vec, cv: Vec, dv: Vec)
    requires u != [] && v == u[1..] && |cu| == |du| == |u| && cv == cu[1..] && dv == du[1..]
    requires cd == c * d && cu[0] == c * u[0] && du[0] == d * u[0] && Dot(cv, dv) == cd * Dot(v, v)
    ensures Dot(cu, du) == cd * Dot(u, u)
  {
    DotFront(u, u, u[0], u[0], v, v);
    DotFront(cu, du, cu[0], du[0], cv, dv);
    ScaledStep(c, d, cd, u[0], Dot(v, v), cu[0], du[0], Dot(cu, du), Dot(u, u));
  }

  lemma {:induction false} ScaledStep(c: real, d: real, cd: real, x: real, s: real, cx: real, dx: real, dot: real,
                                      uu: real)
    requires cd == c * d && cx == c * x && dx == d * x && uu == x * x + s && dot == cx * dx + cd * s
    ensures dot == cd * uu
  {
    assert cx * dx == cd * (x * x);
  }

  lemma {:induction false} RootIsUnique(x: real, y: real)
    requires x >= 0.0 && y >= 0.0 && x * x == y * y
    ensures x == y
  {
    SquareLess(x, y);
    SquareLess(y, x);
  }

  lemma {:induction false} NormOfScaled(sqrt: real -> real, c: real, u: Vec)
    requires IsSqrt(sqrt) && c > 0.0
    ensures Dot(Scale(c, u), Scale(c, u)) >= 0.0 && Dot(u, u) >= 0.0
    ensures sqrt(Dot(Scale(c, u), Scale(c, u))) == c * sqrt(Dot(u, u))
  {
    DotSelfNonNegative(u);
    DotSelfNonNegative(Scale(c, u));
    DotOfScaled(c, c, c * c, u);
    var n := sqrt(Dot(u, u));
    ProductOfSquares(c, n);
    RootIsUnique(sqrt(Dot(Scale(c, u), Scale(c, u))), c * n);
  }

  lemma {:induction false} ParallelQuotient(c: real, d: real, n: real, uu: real, nc: real, nd: real, dot: real)
    requires c > 0.0 && d > 0.0 && n > 0.0 && n * n == uu
    requires nc == c * n && nd == d * n && dot == c * d * uu
    ensures Normalised(dot, nc, nd) == 1.0
  {
    PositiveProduct(c, n);
    PositiveProduct(d, n);
    PositiveProduct(nc, nd);
    assert (c * n) * (d * n) == c * d * (n * n);
    QuotientOfEquals(dot, nc * nd);
  }

  lemma {:induction false} CosineOfParallel(sqrt: real -> real, c: real, d: real, u: Vec)
    requires IsSqrt(sqrt) && c > 0.0 && d > 0.0 && Dot(u, u) != 0.0
    ensures Cosine(sqrt, Scale(c, u), Scale(d, u)) == 1.0
  {
    DotOfScaled(c, d, c * d, u);
    var a, b := Scale(c, u), Scale(d, u);
    var n, nc, nd, dot := sqrt(Dot(u, u)), sqrt(Dot(a, a)), sqrt(Dot(b, b)), Dot(a, b);
    assert nc == c * n by { NormOfScaled(sqrt, c, u); }
    assert nd == d * n by { NormOfScaled(sqrt, d, u); }
    assert n > 0.0 && n * n == Dot(u, u) by { DotSelfNonNegative(u); }
    ParallelQuotient(c, d, n, Dot(u, u), nc, nd, dot);
  }

  ghost predicate PositiveMultiples(history: seq<Vec>, u: Vec) {
    forall i :: 0 <= i < |history| ==> exists c: real :: c > 0.0 && history[i] == Scale(c, u)
  }

  lemma {:induction false} CosinesWithParallel(sqrt: real -> real, a: Vec, others: seq<Vec>, u: Vec)
    requires IsSqrt(sqrt) && Dot(u, u) != 0.0 && |a| == |u| && SameDimension(others, |u|)
    requires PositiveMultiples([a], u) && PositiveMultiples(others, u)
    ensures CosinesWith(sqrt, a, others) == |others| as real
  {
    if others != [] {
      assert [a][0] == a;
      var c: real :| c > 0.0 && a == Scale(c, u);
      var d: real :| d > 0.0 && others[0] == Scale(d, u);
      CosineOfParallel(sqrt, c, d, u);
      CosinesWithParallel(sqrt, a, others[1..], u);
    }
  }

  lemma {:induction false} PairSumOfParallel(sqrt: real -> real, recent: seq<Vec>, u: Vec)
    requires IsSqrt(sqrt) && Dot(u, u) != 0.0 && SameDimension(recent, |u|) && PositiveMultiples(recent, u)
    ensures PairSum(sqrt, recent, |u|) == Pairs(|recent|) as real
  {
    if recent != [] {
      CosinesWithParallel(sqrt, recent[0], recent[1..], u);
      PairSumOfParallel(sqrt, recent[1..], u);
    }
  }

  /** A window of two or more embeddings that are positive multiples of one non-zero vector scores exactly 1. */
  lemma {:induction false} ParallelEmbeddingsAreStable(sqrt: real -> real, a: seq<Vec>, b: seq<Vec>, window: nat,
                                                       u: Vec)
    requires IsSqrt(sqrt) && Dot(u, u) != 0.0 && SameDimension(a, |u|) && SameDimension(b, |u|)
    requires |b| == window >= 2 || (a == [] && 2 <= |b| <= window)
    requires PositiveMultiples(b, u)
    ensures Stability(sqrt, a + b, window, |u|) == 1.0
  {
    if |b| == window {
      OlderEmbeddingsAreInvisible(sqrt, a, b, window, |u|);
    } else {
      assert a + b == b;
    }
    PairSumOfParallel(sqrt, b, u);
    QuotientOfEquals(PairSum(sqrt, b, |u|), Pairs(|b|) as real);
  }
}
