/** Immutable 2-D points (`src/lib/point.ts`). */
module Points {

  datatype Point = Point(x: real, y: real)

  const Origin: Point := Point(0.0, 0.0)

  /** `Point.isEqual`: both coordinates are strictly equal. */
  predicate IsEqual(p: Point, q: Point) {
    q.x == p.x && q.y == p.y
  }

  /** `Math.sqrt` on the reals: a non-negative root of every non-negative
      argument.  The model takes the root function as a parameter. */
  ghost predicate IsSqrt(sqrt: real -> real) {
    forall d: real {:trigger sqrt(d)} :: 0.0 <= d ==> 0.0 <= sqrt(d) && Square(sqrt(d)) == d
  }

  /** `Math.pow(a, 2)`. */
  function Square(a: real): real {
    a * a
  }

  /** The square of `Point.distanceTo`. */
  function DistanceSq(p: Point, q: Point): real {
    Square(q.x - p.x) + Square(q.y - p.y)
  }

  /** `Point.distanceTo`: the root of the squared distance. */
  function Distance(p: Point, q: Point, sqrt: real -> real): real {
    sqrt(DistanceSq(p, q))
  }

  /** A product of two non-zero reals is non-zero. */
  lemma NonZeroProduct(u: real, v: real)
    requires u != 0.0 && v != 0.0
    ensures u * v != 0.0
  {
  }

  /** Point translated by (dx, dy). */
  function Translate(p: Point, dx: real, dy: real): (r: Point)
    ensures r.x - p.x == dx && r.y - p.y == dy
  {
    Point(p.x + dx, p.y + dy)
  }

  lemma IsEqualReflexive(p: Point)
    ensures IsEqual(p, p)
  {
  }

  lemma IsEqualSymmetric(p: Point, q: Point)
    ensures IsEqual(p, q) <==> IsEqual(q, p)
  {
  }

  /** `isEqual` is exactly structural equality of the two records. */
  lemma IsEqualIsIdentity(p: Point, q: Point)
    ensures IsEqual(p, q) <==> p == q
  {
  }

  lemma PositiveProduct(a: real, b: real)
    requires a > 0.0 && b > 0.0
    ensures a * b > 0.0
  {
  }

  /** A quotient of a part by the whole lies in [0, 1]. */
  lemma UnitQuotient(a: real, d: real)
    requires 0.0 <= a <= d && d > 0.0
    ensures 0.0 <= a / d <= 1.0
    ensures a > 0.0 ==> a / d > 0.0
  {
  }

  lemma SquarePositive(a: real)
    requires a != 0.0
    ensures Square(a) > 0.0
  {
    if a > 0.0 {
      calc { Square(a); a * a; > { assert a * a > 0.0 * a; } 0.0; }
    } else {
      var b := -a;
      calc { Square(a); b * b; > { assert b * b > 0.0 * b; } 0.0; }
    }
  }

  lemma SquareNonNegative(a: real)
    ensures Square(a) >= 0.0
  {
    if a != 0.0 {
      SquarePositive(a);
    }
  }

  /** For non-negative u, v: u > v iff u*u > v*v. */
  lemma SquaresOrdered(u: real, v: real)
    requires u >= 0.0 && v >= 0.0
    ensures u > v <==> Square(u) > Square(v)
  {
    if u > v {
      calc {
        Square(u);
        u * u;
        > { assert u * u > v * u; }
        v * u;
        >= { assert v * u >= v * v; }
        v * v;
        Square(v);
      }
    } else {
      calc {
        Square(v);
        v * v;
        >= { assert v * v >= u * v; }
        u * v;
        >= { assert u * v >= u * u; }
        u * u;
      }
    }
  }

  /** The distance is non-negative. */
  lemma DistanceNonNegative(p: Point, q: Point, sqrt: real -> real)
    requires IsSqrt(sqrt)
    ensures DistanceSq(p, q) >= 0.0 && Distance(p, q, sqrt) >= 0.0
  {
    SquareNonNegative(q.x - p.x);
    SquareNonNegative(q.y - p.y);
  }

  /** `distanceTo` is symmetric. */
  lemma DistanceSymmetric(p: Point, q: Point, sqrt: real -> real)
    ensures DistanceSq(p, q) == DistanceSq(q, p)
    ensures Distance(p, q, sqrt) == Distance(q, p, sqrt)
  {
    assert Square(q.x - p.x) == Square(p.x - q.x);
    assert Square(q.y - p.y) == Square(p.y - q.y);
  }

  /** The squared distance is zero for equal points and positive for all
      others. */
  lemma DistanceSqSign(p: Point, q: Point)
    ensures IsEqual(p, q) ==> DistanceSq(p, q) == 0.0
    ensures !IsEqual(p, q) ==> DistanceSq(p, q) > 0.0
  {
    var dx, dy := q.x - p.x, q.y - p.y;
    SquareNonNegative(dx);
    SquareNonNegative(dy);
    if dx != 0.0 {
      SquarePositive(dx);
    } else if dy != 0.0 {
      SquarePositive(dy);
    }
  }

  /** `distanceTo(p)` is zero when `isEqual(p)` and positive otherwise. */
  lemma DistanceZeroIffEqual(p: Point, q: Point, sqrt: real -> real)
    requires IsSqrt(sqrt)
    ensures IsEqual(p, q) ==> Distance(p, q, sqrt) == 0.0
    ensures !IsEqual(p, q) ==> Distance(p, q, sqrt) > 0.0
  {
    DistanceSqSign(p, q);
    var d := DistanceSq(p, q);
    var s := sqrt(d);
    assert Square(s) == d && s >= 0.0;
    SquaresOrdered(s, 0.0);
  }

  /** The root is monotone: comparing two distances from a point is
      comparing their squares, so a model may compare squares instead. */
  lemma DistanceOrder(p: Point, a: Point, b: Point, sqrt: real -> real)
    requires IsSqrt(sqrt)
    ensures Distance(p, a, sqrt) > Distance(p, b, sqrt) <==> DistanceSq(p, a) > DistanceSq(p, b)
  {
    DistanceNonNegative(p, a, sqrt);
    DistanceNonNegative(p, b, sqrt);
    var u, v := Distance(p, a, sqrt), Distance(p, b, sqrt);
    assert Square(u) == DistanceSq(p, a) && Square(v) == DistanceSq(p, b);
    SquaresOrdered(u, v);
  }
}
