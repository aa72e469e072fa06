/** Cosine similarity over the reals. */
module Similarity {
  import opened Common

  function Dot(a: seq<real>, b: seq<real>): real
    requires |a| == |b|
  {
    if a == [] then 0.0 else Dot(a[..|a| - 1], b[..|b| - 1]) + a[|a| - 1] * b[|b| - 1]
  }

  lemma {:induction false} SquaresNonNegative(a: seq<real>)
    ensures Dot(a, a) >= 0.0
  {
    if a == [] {
    } else {
      SquaresNonNegative(a[..|a| - 1]);
      SquareNonNegative(a[|a| - 1]);
    }
  }

  lemma SquareNonNegative(x: real)
    ensures x * x >= 0.0
  {
    if x < 0.0 {
      assert (-x) * (-x) > 0.0;
    }
  }

  /** The step of Cauchy-Schwarz: adding the coordinate (x, y) to vectors with squares p, q and product d. */
  lemma OneMoreCoordinate(p: real, q: real, d: real, x: real, y: real)
    requires p >= 0.0 && q >= 0.0 && d * d <= p * q
    ensures (d + x * y) * (d + x * y) <= (p + x * x) * (q + y * y)
  {
    var gap := p * (y * y) + q * (x * x) - 2.0 * (d * (x * y));
    assert (p + x * x) * (q + y * y) - (d + x * y) * (d + x * y) == (p * q - d * d) + gap by {
      Expand(p, q, x * x, y * y);
      Square(d, x * y);
      assert (x * x) * (y * y) == (x * y) * (x * y);
    }
    GapNonNegative(p, q, d, x, y);
  }

  lemma Expand(p: real, q: real, u: real, v: real)
    ensures (p + u) * (q + v) == p * q + p * v + q * u + u * v
  {}

  lemma Square(d: real, e: real)
    ensures (d + e) * (d + e) == d * d + 2.0 * (d * e) + e * e
  {}

  lemma GapNonNegative(p: real, q: real, d: real, x: real, y: real)
    requires p >= 0.0 && q >= 0.0 && d * d <= p * q
    ensures p * (y * y) + q * (x * x) - 2.0 * (d * (x * y)) >= 0.0
  {
    SquareNonNegative(x);
    if p == 0.0 {
      assert p * q == 0.0;
      SquareNotPositive(d, p * q);
      assert 0.0 * (x * y) == 0.0 && 0.0 * (y * y) == 0.0;
      ProductNonNegative(q, x * x);
    } else {
      // p times the gap is a square plus something non-negative.
      var gap := p * (y * y) + q * (x * x) - 2.0 * (d * (x * y));
      PTimesGap(p, q, d, x, y);
      SquareNonNegative(p * y - d * x);
      ProductNonNegative(p * q - d * d, x * x);
      SignOfFactor(p, gap);
    }
  }

  lemma ProductNonNegative(x: real, y: real)
    requires x >= 0.0 && y >= 0.0
    ensures x * y >= 0.0
  {}

  lemma SignOfFactor(p: real, gap: real)
    requires p > 0.0 && p * gap >= 0.0
    ensures gap >= 0.0
  {}

  lemma PositiveProduct(x: real, y: real, product: real)
    requires x > 0.0 && y > 0.0 && product == x * y
    ensures product > 0.0
  {}

  lemma SquarePositive(d: real, square: real)
    requires d != 0.0 && square == d * d
    ensures square > 0.0
  {
    if d > 0.0 {
      PositiveProduct(d, d, square);
    } else {
      var e := -d;
      assert e * e == d * d;
      PositiveProduct(e, e, square);
    }
  }

  lemma SquareNotPositive(d: real, bound: real)
    requires d * d <= bound && bound <= 0.0
    ensures d == 0.0
  {
    if d != 0.0 {
      SquarePositive(d, d * d);
    }
  }

  lemma PTimesGap(p: real, q: real, d: real, x: real, y: real)
    ensures p * (p * (y * y) + q * (x * x) - 2.0 * (d * (x * y))) ==
            (p * y - d * x) * (p * y - d * x) + (p * q - d * d) * (x * x)
  {
    Square(p * y, -(d * x));
    assert (p * y) * (p * y) == p * (p * (y * y));
    assert (d * x) * (d * x) == (d * d) * (x * x);
    assert (p * y) * (d * x) == p * (d * (x * y));
    assert (p * q) * (x * x) == p * (q * (x * x));
  }

  /** Cauchy-Schwarz, for vectors of every length. */
  lemma {:induction false} CauchySchwarz(a: seq<real>, b: seq<real>)
    requires |a| == |b|
    ensures Dot(a, b) * Dot(a, b) <= Dot(a, a) * Dot(b, b)
  {
    if a == [] {
    } else {
      var n := |a| - 1;
      CauchySchwarz(a[..n], b[..n]);
      SquaresNonNegative(a[..n]);
      SquaresNonNegative(b[..n]);
      OneMoreCoordinate(Dot(a[..n], a[..n]), Dot(b[..n], b[..n]), Dot(a[..n], b[..n]), a[n], b[n]);
    }
  }

  /** norm is the square root of the sum of squares. */
  ghost predicate IsNorm(norm: real, a: seq<real>) { norm >= 0.0 && norm * norm == Dot(a, a) }

  /** The score, given the two square roots; None for vectors of different lengths, which raise. */
  function Score(a: seq<real>, b: seq<real>, normA: real, normB: real): Option<real> {
    if |a| != |b| then None else Some(Cosine(Dot(a, b), normA, normB))
  }

  function Cosine(dot: real, normA: real, normB: real): real {
    if normA == 0.0 || normB == 0.0 then 0.0
    else
      NonZeroProduct(normA, normB);
      dot / (normA * normB)
  }

  lemma NonZeroProduct(x: real, y: real)
    requires x != 0.0 && y != 0.0
    ensures x * y != 0.0
  {}

  lemma Difference(x: real, y: real)
    ensures (x - y) * (x + y) == x * x - y * y
  {}

  lemma LargerSquare(x: real, y: real)
    requires y >= 0.0
    ensures x > y ==> x * x > y * y
  {
    Difference(x, y);
    if x > y {
      PositiveProduct(x - y, x + y, (x - y) * (x + y));
    }
  }

  lemma AbsoluteBound(d: real, n: real)
    requires n > 0.0 && d * d <= n * n
    ensures -1.0 <= d / n <= 1.0
  {
    LargerSquare(d, n);
    LargerSquare(-d, n);
    assert (-d) * (-d) == d * d;
    assert (d / n) * n == d;
  }

  /** The score lies in [-1, 1], and is 0 exactly when a norm or the product is. */
  lemma ScoreIsBounded(a: seq<real>, b: seq<real>, normA: real, normB: real)
    requires |a| == |b| && IsNorm(normA, a) && IsNorm(normB, b)
    ensures -1.0 <= Score(a, b, normA, normB).value <= 1.0
    ensures Score(a, b, normA, normB).value == 0.0 <==> normA == 0.0 || normB == 0.0 || Dot(a, b) == 0.0
  {
    if normA != 0.0 && normB != 0.0 {
      var n := normA * normB;
      assert n > 0.0;
      CauchySchwarz(a, b);
      assert n * n == (normA * normA) * (normB * normB);
      AbsoluteBound(Dot(a, b), n);
      assert (Dot(a, b) / n) * n == Dot(a, b);
    }
  }

  lemma {:induction false} DotSymmetric(a: seq<real>, b: seq<real>)
    requires |a| == |b|
    ensures Dot(a, b) == Dot(b, a)
  {
    if a == [] {
    } else {
      DotSymmetric(a[..|a| - 1], b[..|b| - 1]);
    }
  }

  lemma ScoreIsSymmetric(a: seq<real>, b: seq<real>, normA: real, normB: real)
    ensures Score(a, b, normA, normB) == Score(b, a, normB, normA)
  {
    if |a| == |b| {
      DotSymmetric(a, b);
    }
  }

  function Scaled(c: real, a: seq<real>): (s: seq<real>)
    ensures |s| == |a| && forall i | 0 <= i < |a| :: s[i] == c * a[i]
  {
    seq(|a|, i requires 0 <= i < |a| => c * a[i])
  }

  lemma {:induction false} DotScaled(c: real, a: seq<real>, b: seq<real>)
    requires |a| == |b|
    ensures Dot(Scaled(c, a), b) == c * Dot(a, b)
  {
    if a == [] {
    } else {
      var n := |a| - 1;
      DotScaled(c, a[..n], b[..n]);
      ScaledFront(c, a);
      Distribute(c, Dot(a[..n], b[..n]), a[n], b[n]);
    }
  }

  lemma ScaledFront(c: real, a: seq<real>)
    requires a != []
    ensures Scaled(c, a)[..|a| - 1] == Scaled(c, a[..|a| - 1])
  {
    var whole, front := Scaled(c, a), Scaled(c, a[..|a| - 1]);
    forall i | 0 <= i < |a| - 1 ensures whole[i] == front[i] {
      assert a[..|a| - 1][i] == a[i];
    }
    assert whole[..|a| - 1] == front;
  }

  lemma Distribute(c: real, d: real, x: real, y: real)
    ensures c * d + (c * x) * y == c * (d + x * y)
  {}

  /** Scaling a vector by a positive factor scales its norm, and leaves the score alone. */
  lemma ScoreIgnoresScale(c: real, a: seq<real>, b: seq<real>, normA: real, normB: real, normScaled: real)
    requires c > 0.0 && |a| == |b| && IsNorm(normA, a) && IsNorm(normB, b) && IsNorm(normScaled, Scaled(c, a))
    ensures normScaled == c * normA
    ensures Score(Scaled(c, a), b, normScaled, normB) == Score(a, b, normA, normB)
  {
    NormScaled(c, a, normA, normScaled);
    DotScaled(c, a, b);
    SameCosine(c, Dot(a, b), Dot(Scaled(c, a), b), normA, normScaled, normB);
  }

  lemma SameCosine(c: real, d: real, scaledD: real, m: real, scaledM: real, n: real)
    requires c > 0.0 && scaledD == c * d && scaledM == c * m
    ensures Cosine(scaledD, scaledM, n) == Cosine(d, m, n)
  {
    if m != 0.0 && n != 0.0 {
      NonZeroProduct(m, n);
      NonZeroProduct(c, m);
      CancelFactor(c, d, m * n);
      assert scaledM * n == c * (m * n);
    }
  }

  lemma NormScaled(c: real, a: seq<real>, norm: real, scaled: real)
    requires c > 0.0 && IsNorm(norm, a) && IsNorm(scaled, Scaled(c, a))
    ensures scaled == c * norm
  {
    DotScaled(c, a, Scaled(c, a));
    DotSymmetric(a, Scaled(c, a));
    DotScaled(c, a, a);
    assert (c * norm) * (c * norm) == c * (c * (norm * norm));
    SameSquare(scaled, c * norm);
  }

  lemma SameSquare(x: real, y: real)
    requires x >= 0.0 && y >= 0.0 && x * x == y * y
    ensures x == y
  {
    LargerSquare(x, y);
    LargerSquare(y, x);
  }

  lemma CancelFactor(c: real, d: real, n: real)
    requires c > 0.0 && n != 0.0
    ensures c * n != 0.0 && (c * d) / (c * n) == d / n
  {
    assert c * n != 0.0;
    assert (d / n) * (c * n) == c * ((d / n) * n) == c * d;
  }

  /** A non-zero vector scores 1 with itself, and -1 with its opposite. */
  lemma SelfScore(a: seq<real>, norm: real)
    requires IsNorm(norm, a) && norm != 0.0
    ensures Score(a, a, norm, norm) == Some(1.0)
    ensures IsNorm(norm, Scaled(-1.0, a)) && Score(Scaled(-1.0, a), a, norm, norm) == Some(-1.0)
  {
    DotScaled(-1.0, a, a);
    DotSymmetric(a, Scaled(-1.0, a));
    DotScaled(-1.0, a, Scaled(-1.0, a));
    var square := norm * norm;
    PositiveProduct(norm, norm, square);
    QuotientOfMultiple(1.0, square);
    QuotientOfMultiple(-1.0, square);
  }

  lemma QuotientOfMultiple(c: real, x: real)
    requires x != 0.0
    ensures c * x / x == c
  {}

  /** What the score says: its product with both norms is the dot product, in every direction. */
  lemma ScoreTimesNorms(a: seq<real>, b: seq<real>, normA: real, normB: real)
    requires |a| == |b| && IsNorm(normA, a) && IsNorm(normB, b) && normA != 0.0 && normB != 0.0
    ensures Score(a, b, normA, normB).Some?
    ensures Score(a, b, normA, normB).value * (normA * normB) == Dot(a, b)
  {
    var product := normA * normB;
    PositiveProduct(normA, normB, product);
    assert Dot(a, b) / product * product == Dot(a, b);
  }
}
