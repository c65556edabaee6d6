/** Small facts of real arithmetic used by the physics proofs, each stated over plain variables.
    The simplest ones the verifier proves unaided; the others are proved by a chain of single
    steps from them. */
module RealArith {

  lemma MulPos(x: real, y: real)
    requires 0.0 < x && 0.0 < y
    ensures 0.0 < x * y
  {
  }

  lemma MulNonNeg(x: real, y: real)
    requires 0.0 <= x && 0.0 <= y
    ensures 0.0 <= x * y
  {
    if x != 0.0 && y != 0.0 {
      MulPos(x, y);
    }
  }

  lemma SquarePositive(a: real)
    requires a != 0.0
    ensures 0.0 < a * a
  {
    if 0.0 < a {
      MulPos(a, a);
    } else {
      calc {
        a * a;
        (-a) * (-a);
      > { MulPos(-a, -a); }
        0.0;
      }
    }
  }

  lemma SquareNonNeg(a: real)
    ensures 0.0 <= a * a
  {
    if a != 0.0 {
      SquarePositive(a);
    }
  }

  /** A sum of two squares is positive unless both terms are zero. */
  lemma SumOfSquaresPositive(a: real, b: real)
    requires a != 0.0 || b != 0.0
    ensures 0.0 < a * a + b * b
  {
    if a != 0.0 {
      calc {
        a * a + b * b;
      >= { SquareNonNeg(b); }
        a * a;
      > { SquarePositive(a); }
        0.0;
      }
    } else {
      calc {
        a * a + b * b;
      >= { SquareNonNeg(a); }
        b * b;
      > { SquarePositive(b); }
        0.0;
      }
    }
  }

  lemma SquareStrictMono(a: real, b: real)
    requires 0.0 <= a < b
    ensures a * a < b * b
  {
    calc {
      b * b - a * a;
      (b - a) * (b + a);
    > { MulPos(b - a, b + a); }
      0.0;
    }
  }

  /** Two non-negative numbers with the same square are equal. */
  lemma SquareRootUnique(a: real, b: real)
    requires 0.0 <= a && 0.0 <= b && a * a == b * b
    ensures a == b
  {
    if a < b {
      SquareStrictMono(a, b);
    } else if b < a {
      SquareStrictMono(b, a);
    }
  }

  /** A non-negative square root of a sum of two squares is zero exactly at the origin. */
  lemma LengthZero(h: real, a: real, b: real)
    requires 0.0 <= h && h * h == a * a + b * b
    ensures h == 0.0 <==> a == 0.0 && b == 0.0
  {
    if a != 0.0 || b != 0.0 {
      calc {
        h * h;
        a * a + b * b;
      > { SumOfSquaresPositive(a, b); }
        0.0;
      }
    } else if h != 0.0 {
      calc {
        0.0;
        a * a + b * b;
        h * h;
      > { SquarePositive(h); }
        0.0;
      }
    }
  }

  lemma MulAtMost(x: real, y: real)
    requires 0.0 <= y <= 1.0
    ensures (x * x) * y <= x * x
  {
  }

  lemma MulAtMostScaled(x: real, y: real)
    requires 0.0 <= y <= 1.0
    ensures ((x * x) * y) * y <= (x * x) * y
  {
  }

  /** Scaling by a factor in [0, 1] never makes a square larger. */
  lemma ScaledSquare(v: real, f: real)
    requires 0.0 <= f <= 1.0
    ensures (v * f) * (v * f) <= v * v
  {
    calc {
      (v * f) * (v * f);
      ((v * v) * f) * f;
    <= { MulAtMostScaled(v, f); }
      (v * v) * f;
    <= { MulAtMost(v, f); }
      v * v;
    }
  }

  lemma DivMul(a: real, d: real)
    requires d != 0.0
    ensures (a / d) * d == a
  {
  }

  /** If p * d is x, then the squares agree too. */
  lemma MulSquare(p: real, d: real, x: real)
    requires p * d == x
    ensures (p * p) * (d * d) == x * x
  {
  }

  lemma MulSquarePos(x: real, d: real)
    requires 0.0 < x && d != 0.0
    ensures 0.0 < x * (d * d)
  {
  }

  /** A product with a non-zero square is zero only when the other factor is. */
  lemma ProductZero(x: real, d: real)
    requires x * (d * d) == 0.0 && d != 0.0
    ensures x == 0.0
  {
    if 0.0 < x {
      calc {
        0.0;
        x * (d * d);
      > { MulSquarePos(x, d); }
        0.0;
      }
    } else if x < 0.0 {
      calc {
        0.0;
        -(x * (d * d));
        (-x) * (d * d);
      > { MulSquarePos(-x, d); }
        0.0;
      }
    }
  }

  /** A factor that leaves a non-zero square unchanged is 1. */
  lemma FactorOne(u: real, d: real)
    requires d != 0.0 && u * (d * d) == d * d
    ensures u == 1.0
  {
    calc {
      (u - 1.0) * (d * d);
      u * (d * d) - d * d;
      0.0;
    }
    ProductZero(u - 1.0, d);
  }

  /** The unit normal: a vector divided by its (non-zero) length has length 1. */
  lemma UnitNormal(dx: real, dy: real, d: real)
    requires d != 0.0 && d * d == dx * dx + dy * dy
    ensures (dx / d) * (dx / d) + (dy / d) * (dy / d) == 1.0
  {
    DivMul(dx, d);
    DivMul(dy, d);
    UnitOfMultiples(dx / d, dy / d, dx, dy, d);
  }

  /** If (dx, dy) is d times (p, q) and has length d, then (p, q) has length 1. */
  lemma UnitOfMultiples(p: real, q: real, dx: real, dy: real, d: real)
    requires d != 0.0 && p * d == dx && q * d == dy && d * d == dx * dx + dy * dy
    ensures p * p + q * q == 1.0
  {
    calc {
      (p * p + q * q) * (d * d);
      (p * p) * (d * d) + (q * q) * (d * d);
      { MulSquare(p, d, dx); MulSquare(q, d, dy); }
      dx * dx + dy * dy;
      d * d;
    }
    FactorOne(p * p + q * q, d);
  }

  /** A unit vector scaled by s has squared length s * s. */
  lemma ScaledUnit(p: real, q: real, s: real)
    requires p * p + q * q == 1.0
    ensures (p * s) * (p * s) + (q * s) * (q * s) == s * s
  {
    calc {
      (p * s) * (p * s) + (q * s) * (q * s);
      (p * p + q * q) * (s * s);
      s * s;
    }
  }

  lemma MulDiv(q: real, m: real)
    requires m != 0.0
    ensures (q * m) / m == q
  {
  }

  /** Moving a factor a outside [0, 1] of the way from s to a larger e overshoots one end. */
  lemma BeyondTheWay(s: real, e: real, a: real)
    ensures s < e && 1.0 < a ==> s + (e - s) * a > e
    ensures s < e && a < 0.0 ==> s + (e - s) * a < s
  {
    if s < e && 1.0 < a {
      MulPos(e - s, a - 1.0);
    }
    if s < e && a < 0.0 {
      MulPos(e - s, -a);
    }
  }

  /** Moving a fraction a in [0, 1] of the way from s to e stays between them. */
  lemma FractionOfTheWay(s: real, e: real, a: real)
    ensures 0.0 <= a <= 1.0 && s <= e ==> s <= s + (e - s) * a <= e
    ensures 0.0 <= a <= 1.0 && e <= s ==> e <= s + (e - s) * a <= s
  {
    if 0.0 <= a <= 1.0 {
      MulNonNeg(if s <= e then e - s else s - e, a);
      MulNonNeg(if s <= e then e - s else s - e, 1.0 - a);
    }
  }

  /** A squared length scaled by 1 + f * f is at least as large. */
  lemma GrowsByAtLeastOne(a: real, b: real, f: real)
    ensures (a * a + b * b) * (1.0 + f * f) >= a * a + b * b
  {
    SquareNonNeg(a);
    SquareNonNeg(b);
    SquareNonNeg(f);
    calc {
      (a * a + b * b) * (1.0 + f * f);
      (a * a + b * b) + (a * a + b * b) * (f * f);
    >= { MulNonNeg(a * a + b * b, f * f); }
      a * a + b * b;
    }
  }
}
