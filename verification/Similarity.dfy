/** Cosine similarity of embeddings. A square root is a non-negative number with the right square. */
module Similarity {
  predicate IsRoot(root: real, x: real) {
    root >= 0.0 && root * root == x
  }

  function Dot(a: seq<real>, b: seq<real>): real
    requires |a| == |b|
  {
    if a == [] then 0.0 else a[0] * b[0] + Dot(a[1..], b[1..])
  }

  /** A zero norm is replaced by one. */
  function NormOrOne(root: real): real {
    if root == 0.0 then 1.0 else root
  }

  /** `leftRoot` and `rightRoot` are the Euclidean norms of the two vectors. */
  function Cosine(left: seq<real>, right: seq<real>, leftRoot: real, rightRoot: real): real
    requires leftRoot >= 0.0 && rightRoot >= 0.0
  {
    if left == [] || right == [] || |left| != |right| then 0.0
    else
      ScaleIsPositive(leftRoot, rightRoot);
      Dot(left, right) / (NormOrOne(leftRoot) * NormOrOne(rightRoot))
  }

  lemma ScaleIsPositive(x: real, y: real)
    requires x >= 0.0 && y >= 0.0
    ensures NormOrOne(x) * NormOrOne(y) > 0.0
  {
    ProductPositive(NormOrOne(x), NormOrOne(y));
  }

  lemma ProductPositive(x: real, y: real)
    requires x > 0.0 && y > 0.0
    ensures x * y > 0.0
  {
  }

  // ---- Cauchy-Schwarz ----

  lemma SquareNonNegative(x: real)
    ensures x * x >= 0.0
  {
  }

  lemma {:induction false} DotSelfNonNegative(a: seq<real>)
    ensures Dot(a, a) >= 0.0
  {
    if a != [] {
      SquareNonNegative(a[0]);
      DotSelfNonNegative(a[1..]);
    }
  }

  /** The geometric mean of two non-negative numbers is at most their arithmetic mean. */
  lemma MeansInequality(p: real, q: real, z: real)
    requires p >= 0.0 && q >= 0.0 && z * z <= p * q
    ensures 2.0 * z <= p + q
  {
    SquareNonNegative(p - q);
    assert (p + q) * (p + q) == (p - q) * (p - q) + 4.0 * (p * q);
    OrderFromSquares(2.0 * z, p + q);
  }

  lemma OrderFromSquares(x: real, y: real)
    requires y >= 0.0 && x * x <= y * y
    ensures x <= y && -x <= y
  {
    LargerSquares(x, y);
    LargerSquares(-x, y);
    assert (-x) * (-x) == x * x;
  }

  lemma LargerSquares(x: real, y: real)
    requires y >= 0.0
    ensures x > y ==> x * x > y * y
  {
    if x > y {
      ProductPositive(x - y, x + y);
      assert (x - y) * (x + y) == x * x - y * y;
    }
  }

  lemma ProductMonotone(u: real, v: real, w: real)
    requires u <= v && w >= 0.0
    ensures u * w <= v * w
  {
    assert (v - u) * w >= 0.0;
  }

  /** One more component keeps the inequality. */
  lemma CauchySchwarzStep(s: real, a: real, b: real, x: real, y: real, s': real, a': real, b': real)
    requires a >= 0.0 && b >= 0.0 && s * s <= a * b
    requires s' == x * y + s && a' == x * x + a && b' == y * y + b
    ensures s' * s' <= a' * b'
  {
    var p, q, z := a * (y * y), b * (x * x), s * (x * y);
    SquareNonNegative(x);
    SquareNonNegative(y);
    SquareNonNegative(x * y);
    ProductMonotone(0.0, a, y * y);
    ProductMonotone(0.0, b, x * x);
    ProductMonotone(s * s, a * b, (x * y) * (x * y));
    assert z * z == (s * s) * ((x * y) * (x * y));
    assert p * q == (a * b) * ((x * y) * (x * y));
    MeansInequality(p, q, z);
    assert s' * s' == (x * y) * (x * y) + 2.0 * z + s * s;
    assert a' * b' == (x * y) * (x * y) + q + p + a * b;
  }

  lemma {:induction false} CauchySchwarz(a: seq<real>, b: seq<real>)
    requires |a| == |b|
    ensures Dot(a, b) * Dot(a, b) <= Dot(a, a) * Dot(b, b)
  {
    if a != [] {
      CauchySchwarz(a[1..], b[1..]);
      DotSelfNonNegative(a[1..]);
      DotSelfNonNegative(b[1..]);
      CauchySchwarzStep(Dot(a[1..], b[1..]), Dot(a[1..], a[1..]), Dot(b[1..], b[1..]), a[0], b[0],
                        Dot(a, b), Dot(a, a), Dot(b, b));
    }
  }

  lemma QuotientRange(d: real, scale: real)
    requires scale > 0.0 && d <= scale && -d <= scale
    ensures -1.0 <= d / scale <= 1.0
    ensures d >= 0.0 ==> d / scale >= 0.0
  {
    var q := d / scale;
    assert q * scale == d;
    assert q > 1.0 ==> (q - 1.0) * scale > 0.0;
    assert q < -1.0 ==> (q + 1.0) * scale < 0.0;
    assert q < 0.0 ==> q * scale < 0.0;
  }

  /** The score of any two vectors lies between -1 and 1. */
  lemma CosineRange(left: seq<real>, right: seq<real>, leftRoot: real, rightRoot: real)
    requires IsRoot(leftRoot, Dot(left, left)) && IsRoot(rightRoot, Dot(right, right))
    ensures -1.0 <= Cosine(left, right, leftRoot, rightRoot) <= 1.0
    ensures |left| == |right| && Dot(left, right) >= 0.0 ==> Cosine(left, right, leftRoot, rightRoot) >= 0.0
  {
    if left != [] && |left| == |right| {
      DotWithinRoots(left, right, leftRoot, rightRoot);
      BoundedQuotient(Dot(left, right), leftRoot, rightRoot);
    }
  }

  lemma DotWithinRoots(left: seq<real>, right: seq<real>, leftRoot: real, rightRoot: real)
    requires |left| == |right| && IsRoot(leftRoot, Dot(left, left)) && IsRoot(rightRoot, Dot(right, right))
    ensures Dot(left, right) * Dot(left, right) <= (leftRoot * leftRoot) * (rightRoot * rightRoot)
  {
    CauchySchwarz(left, right);
  }

  lemma BoundedQuotient(d: real, x: real, y: real)
    requires x >= 0.0 && y >= 0.0 && d * d <= (x * x) * (y * y)
    ensures NormOrOne(x) * NormOrOne(y) > 0.0
    ensures -1.0 <= d / (NormOrOne(x) * NormOrOne(y)) <= 1.0
    ensures d >= 0.0 ==> d / (NormOrOne(x) * NormOrOne(y)) >= 0.0
  {
    ScaleIsPositive(x, y);
    BoundedByRoots(d, x, y);
    QuotientRange(d, NormOrOne(x) * NormOrOne(y));
  }

  lemma BoundedByRoots(d: real, x: real, y: real)
    requires x >= 0.0 && y >= 0.0 && d * d <= (x * x) * (y * y)
    ensures var scale := NormOrOne(x) * NormOrOne(y); d <= scale && -d <= scale
  {
    ProductMonotone(0.0, x, y);
    assert (x * x) * (y * y) == (x * y) * (x * y);
    OrderFromSquares(d, x * y);
    if x == 0.0 || y == 0.0 {
      assert x * y == 0.0;
      ScaleIsPositive(x, y);
    }
  }

  ghost predicate NonNegative(a: seq<real>) {
    forall i :: 0 <= i < |a| ==> a[i] >= 0.0
  }

  lemma {:induction false} DotOfNonNegatives(a: seq<real>, b: seq<real>)
    requires |a| == |b| && NonNegative(a) && NonNegative(b)
    ensures Dot(a, b) >= 0.0
  {
    if a != [] {
      ProductMonotone(0.0, a[0], b[0]);
      DotOfNonNegatives(a[1..], b[1..]);
    }
  }

  /** Embeddings, whose components are never negative, score between 0 and 1. */
  lemma EmbeddingCosineRange(left: seq<real>, right: seq<real>, leftRoot: real, rightRoot: real)
    requires IsRoot(leftRoot, Dot(left, left)) && IsRoot(rightRoot, Dot(right, right))
    requires NonNegative(left) && NonNegative(right)
    ensures 0.0 <= Cosine(left, right, leftRoot, rightRoot) <= 1.0
  {
    if |left| == |right| {
      DotOfNonNegatives(left, right);
    }
    CosineRange(left, right, leftRoot, rightRoot);
  }

  /** A vector that is not zero is as similar to itself as can be. */
  lemma SelfSimilarity(a: seq<real>, root: real)
    requires a != [] && IsRoot(root, Dot(a, a)) && root > 0.0
    ensures Cosine(a, a, root, root) == 1.0
  {
    var scale := PositiveProduct(root, root);
    assert Cosine(a, a, root, root) == scale / scale;
  }

  lemma PositiveProduct(x: real, y: real) returns (product: real)
    requires x > 0.0 && y > 0.0
    ensures product == x * y && product > 0.0
  {
    product := x * y;
  }

  // ---- The hash embedding ----

  /** How many tokens fell into each bucket. */
  function Counts(buckets: seq<nat>, dimension: nat): (counts: seq<real>)
    ensures |counts| == dimension
    ensures forall i :: 0 <= i < dimension ==> counts[i] == multiset(buckets)[i] as real
  {
    seq(dimension, i requires 0 <= i < dimension => multiset(buckets)[i] as real)
  }

  function Scaled(v: seq<real>, unit: real): (r: seq<real>)
    requires unit != 0.0
    ensures |r| == |v| && forall i :: 0 <= i < |v| ==> r[i] == v[i] / unit
  {
    seq(|v|, i requires 0 <= i < |v| => v[i] / unit)
  }

  /** `buckets` are the token hashes reduced modulo the dimension; `root` is the norm of the counts. */
  method Embed(buckets: seq<nat>, dimension: nat, root: real) returns (embedding: seq<real>)
    requires forall i :: 0 <= i < |buckets| ==> buckets[i] < dimension
    requires IsRoot(root, Dot(Counts(buckets, dimension), Counts(buckets, dimension)))
    ensures embedding == Scaled(Counts(buckets, dimension), NormOrOne(root))
  {
    var vector := new real[dimension](_ => 0.0);
    for n := 0 to |buckets|
      invariant forall i :: 0 <= i < dimension ==> vector[i] == multiset(buckets[..n])[i] as real
    {
      assert buckets[..n + 1] == buckets[..n] + [buckets[n]];
      var bucket := buckets[n];
      vector[bucket] := vector[bucket] + 1.0;
    }
    assert buckets[..|buckets|] == buckets;
    var norm := NormOrOne(root);
    embedding := seq(dimension, i requires 0 <= i < dimension reads vector => vector[i] / norm);
  }

  lemma {:induction false} DotOfScaled(v: seq<real>, unit: real, square: real)
    requires unit != 0.0 && square == unit * unit
    ensures Dot(Scaled(v, unit), Scaled(v, unit)) * square == Dot(v, v)
  {
    if v != [] {
      var s := Scaled(v, unit);
      DotOfScaled(v[1..], unit, square);
      assert s[1..] == Scaled(v[1..], unit);
      assert s[0] * unit == v[0];
      ScaledStep(s[0], Dot(s[1..], s[1..]), unit, square, v[0], Dot(v[1..], v[1..]), Dot(s, s), Dot(v, v));
    }
  }

  lemma ScaledStep(q: real, d: real, unit: real, square: real, x: real, rest: real, total: real, whole: real)
    requires q * unit == x && square == unit * unit && d * square == rest
    requires total == q * q + d && whole == x * x + rest
    ensures total * square == whole
  {
    assert (q * q) * (unit * unit) == (q * unit) * (q * unit);
    assert total * square == (q * q) * square + d * square;
  }

  /** The embedding of a text is never negative, and has length one unless it has no tokens. */
  lemma EmbeddingIsUnit(buckets: seq<nat>, dimension: nat, root: real)
    requires forall i :: 0 <= i < |buckets| ==> buckets[i] < dimension
    requires IsRoot(root, Dot(Counts(buckets, dimension), Counts(buckets, dimension)))
    ensures var v := Scaled(Counts(buckets, dimension), NormOrOne(root));
            && NonNegative(v)
            && (buckets != [] ==> Dot(v, v) == 1.0)
  {
    var counts := Counts(buckets, dimension);
    ScaledNonNegative(counts, NormOrOne(root));
    if buckets != [] {
      assert buckets[0] in multiset(buckets) && counts[buckets[0]] >= 1.0;
      SomethingCounted(counts, buckets[0]);
      ScaledToUnit(counts, root);
    }
  }

  lemma ScaledNonNegative(a: seq<real>, norm: real)
    requires norm > 0.0 && NonNegative(a)
    ensures NonNegative(Scaled(a, norm))
  {
    forall i | 0 <= i < |a| ensures Scaled(a, norm)[i] >= 0.0 {
      QuotientNonNegative(a[i], norm);
    }
  }

  /** Dividing a vector by its norm gives a vector of length one. */
  lemma ScaledToUnit(a: seq<real>, root: real)
    requires IsRoot(root, Dot(a, a)) && Dot(a, a) >= 1.0
    ensures NormOrOne(root) == root && Dot(Scaled(a, root), Scaled(a, root)) == 1.0
  {
    assert root != 0.0;
    DotOfScaled(a, root, root * root);
    UnitFactor(Dot(Scaled(a, root), Scaled(a, root)), root * root);
  }

  lemma QuotientNonNegative(x: real, y: real)
    requires x >= 0.0 && y > 0.0
    ensures x / y >= 0.0
  {
    var q := x / y;
    assert q * y == x;
    assert q < 0.0 ==> q * y < 0.0;
  }

  lemma UnitFactor(x: real, y: real)
    requires x * y == y && y != 0.0
    ensures x == 1.0
  {
    assert (x - 1.0) * y == 0.0;
  }

  lemma {:induction false} SomethingCounted(a: seq<real>, i: nat)
    requires i < |a| && a[i] >= 1.0
    ensures Dot(a, a) >= 1.0
  {
    SquareNonNegative(a[0]);
    if i == 0 {
      DotSelfNonNegative(a[1..]);
      ProductMonotone(1.0, a[0], a[0]);
    } else {
      SomethingCounted(a[1..], i - 1);
    }
  }

  /** The score times both norms is the inner product; zero norms, empty and unequal vectors score nothing. */
  lemma CosineTimesNorms(left: seq<real>, right: seq<real>, leftRoot: real, rightRoot: real)
    requires leftRoot >= 0.0 && rightRoot >= 0.0
    ensures |left| != |right| ==> Cosine(left, right, leftRoot, rightRoot) == 0.0
    ensures |left| == |right| && leftRoot > 0.0 && rightRoot > 0.0 ==>
      Cosine(left, right, leftRoot, rightRoot) * (leftRoot * rightRoot) == Dot(left, right)
  {
    ScaleIsPositive(leftRoot, rightRoot);
    if left == [] && right == [] {
      assert Dot(left, right) == 0.0;
    }
  }

  /** The inner product is linear: appending a component adds the product of the two. */
  lemma {:induction false} DotOfAppended(a: seq<real>, b: seq<real>, x: real, y: real)
    requires |a| == |b|
    ensures Dot(a + [x], b + [y]) == Dot(a, b) + x * y
  {
    if a == [] {
      assert [] + [x] == [x] && [] + [y] == [y] && [x][1..] == [] && [y][1..] == [];
      assert Dot([x], [y]) == x * y + Dot([], []);
    } else {
      DotOfAppended(a[1..], b[1..], x, y);
      assert (a + [x])[1..] == a[1..] + [x] && (b + [y])[1..] == b[1..] + [y];
    }
  }
}
