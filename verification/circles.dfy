/** Line/circle intersection (`src/lib/circle.ts`). */
module Circles {
  import opened Results
  import opened Points
  import opened Lines

  datatype Circle = Circle(pos: Point, radius: real)

  /** The result object `{ a?, b? }`: at most two intersection points. */
  datatype Hits = Hits(a: Option<Point>, b: Option<Point>)

  /** Below this squared length the line counts as degenerate. */
  const Epsilon: real := 0.0000001

  /** Coefficients of |start + t*(end - start) - pos|^2 - radius^2 as a
      quadratic a*t^2 + b*t + c in t, and its discriminant. */
  function QuadA(l: Line): real {
    (l.end.x - l.start.x) * (l.end.x - l.start.x) + (l.end.y - l.start.y) * (l.end.y - l.start.y)
  }

  function QuadB(c: Circle, l: Line): real {
    2.0 * ((l.end.x - l.start.x) * (l.start.x - c.pos.x) + (l.end.y - l.start.y) * (l.start.y - c.pos.y))
  }

  function QuadC(c: Circle, l: Line): real {
    (l.start.x - c.pos.x) * (l.start.x - c.pos.x) + (l.start.y - c.pos.y) * (l.start.y - c.pos.y)
      - c.radius * c.radius
  }

  function Discriminant(c: Circle, l: Line): real {
    QuadB(c, l) * QuadB(c, l) - 4.0 * QuadA(l) * QuadC(c, l)
  }

  /** `Circle.findLineIntersections`.  A degenerate line or a negative
      discriminant gives no point; a zero discriminant gives one point, in
      field `a`; a positive one gives the +root in `a` and the -root in `b`.
      Every point returned lies on the infinite line through the segment. */
  function FindLineIntersections(c: Circle, l: Line, sqrt: real -> real): (r: Hits)
    ensures r.a.None? <==> QuadA(l) <= Epsilon || Discriminant(c, l) < 0.0
    ensures r.b.Some? <==> QuadA(l) > Epsilon && Discriminant(c, l) > 0.0
    ensures r.a.Some? ==> OnLine(l, r.a.value)
    ensures r.b.Some? ==> OnLine(l, r.b.value)
  {
    var a, b, det := QuadA(l), QuadB(c, l), Discriminant(c, l);
    if a <= Epsilon || det < 0.0 then
      Hits(None, None)
    else if det == 0.0 then
      Hits(Some(PointAt(l, -b / (2.0 * a))), None)
    else
      Hits(Some(PointAt(l, (-b + sqrt(det)) / (2.0 * a))),
           Some(PointAt(l, (-b - sqrt(det)) / (2.0 * a))))
  }

  /** A root of the quadratic formula solves the quadratic. */
  lemma RootSolves(a: real, b: real, c: real, s: real, t: real)
    requires a != 0.0
    requires s * s == b * b - 4.0 * a * c
    requires t * (2.0 * a) == -b + s || t * (2.0 * a) == -b - s
    ensures a * t * t + b * t + c == 0.0
  {
    var u := t * (2.0 * a);
    assert 4.0 * a * (a * t * t + b * t + c) == u * u + 2.0 * b * u + 4.0 * a * c;
    assert u * u + 2.0 * b * u + 4.0 * a * c == s * s - b * b + 4.0 * a * c;
    assert 4.0 * a * (a * t * t + b * t + c) == 0.0;
  }

  /** The squared distance from the centre to the point at `t`, minus the
      squared radius, is the quadratic in `t`. */
  lemma DistanceIsQuadratic(c: Circle, l: Line, t: real)
    ensures DistanceSq(c.pos, PointAt(l, t)) - c.radius * c.radius
         == QuadA(l) * t * t + QuadB(c, l) * t + QuadC(c, l)
  {
    var dx, dy := l.end.x - l.start.x, l.end.y - l.start.y;
    var ex, ey := l.start.x - c.pos.x, l.start.y - c.pos.y;
    var p := PointAt(l, t);
    assert p.x - c.pos.x == ex + t * dx && p.y - c.pos.y == ey + t * dy;
    assert (ex + t * dx) * (ex + t * dx) == ex * ex + 2.0 * t * (dx * ex) + (dx * dx) * t * t;
    assert (ey + t * dy) * (ey + t * dy) == ey * ey + 2.0 * t * (dy * ey) + (dy * dy) * t * t;
  }

  /** A root of the quadratic gives a point at distance `radius` from the
      centre. */
  lemma RootOnCircle(c: Circle, l: Line, s: real, t: real)
    requires QuadA(l) != 0.0
    requires s * s == Discriminant(c, l)
    requires t * (2.0 * QuadA(l)) == -QuadB(c, l) + s || t * (2.0 * QuadA(l)) == -QuadB(c, l) - s
    ensures DistanceSq(c.pos, PointAt(l, t)) == c.radius * c.radius
  {
    var a, b, cc := QuadA(l), QuadB(c, l), QuadC(c, l);
    assert s * s == b * b - 4.0 * a * cc;
    RootSolves(a, b, cc, s, t);
    var q := a * t * t + b * t + cc;
    assert q == 0.0;
    DistanceIsQuadratic(c, l, t);
    assert DistanceSq(c.pos, PointAt(l, t)) - c.radius * c.radius == q;
  }

  /** Every point returned lies on the circle, given a true square root. */
  lemma HitsOnCircle(c: Circle, l: Line, sqrt: real -> real)
    requires IsSqrt(sqrt)
    ensures var r := FindLineIntersections(c, l, sqrt);
            (r.a.Some? ==> DistanceSq(c.pos, r.a.value) == c.radius * c.radius) &&
            (r.b.Some? ==> DistanceSq(c.pos, r.b.value) == c.radius * c.radius)
  {
    var a, b, det := QuadA(l), QuadB(c, l), Discriminant(c, l);
    if a <= Epsilon || det < 0.0 {
    } else if det == 0.0 {
      var t := -b / (2.0 * a);
      assert t * (2.0 * a) == -b + 0.0;
      RootOnCircle(c, l, 0.0, t);
    } else {
      var s := sqrt(det);
      var t1 := (-b + s) / (2.0 * a);
      var t2 := (-b - s) / (2.0 * a);
      assert t1 * (2.0 * a) == -b + s;
      assert t2 * (2.0 * a) == -b - s;
      RootOnCircle(c, l, s, t1);
      RootOnCircle(c, l, s, t2);
    }
  }

  /** With a positive discriminant the two points differ. */
  lemma TwoHitsDistinct(c: Circle, l: Line, sqrt: real -> real)
    requires IsSqrt(sqrt)
    requires QuadA(l) > Epsilon && Discriminant(c, l) > 0.0
    ensures FindLineIntersections(c, l, sqrt).a != FindLineIntersections(c, l, sqrt).b
  {
    var a, b, det := QuadA(l), QuadB(c, l), Discriminant(c, l);
    var s := sqrt(det);
    assert Square(s) == det && s >= 0.0;
    SquaresOrdered(s, 0.0);
    var t1 := (-b + s) / (2.0 * a);
    var t2 := (-b - s) / (2.0 * a);
    assert (t1 - t2) * (2.0 * a) == 2.0 * s;
    assert t1 != t2;
    var dx, dy := l.end.x - l.start.x, l.end.y - l.start.y;
    if dx != 0.0 {
      NonZeroProduct(t1 - t2, dx);
      assert PointAt(l, t1).x - PointAt(l, t2).x == (t1 - t2) * dx;
    } else {
      NonZeroProduct(t1 - t2, dy);
      assert PointAt(l, t1).y - PointAt(l, t2).y == (t1 - t2) * dy;
    }
  }

  /** With a positive discriminant `a` is the point of the larger root
      (the one with +sqrt) and `b` that of the smaller (-sqrt): `a` lies
      further along the line's direction than `b`. */
  lemma HitsRootOrder(c: Circle, l: Line, sqrt: real -> real)
    requires IsSqrt(sqrt)
    ensures var r := FindLineIntersections(c, l, sqrt);
            r.b.Some? ==> exists t1: real, t2: real :: t1 > t2 && r.a == Some(PointAt(l, t1)) && r.b == Some(PointAt(l, t2))
  {
    var a, b, det := QuadA(l), QuadB(c, l), Discriminant(c, l);
    if a > Epsilon && det > 0.0 {
      var s := sqrt(det);
      assert Square(s) == det && s >= 0.0;
      SquaresOrdered(s, 0.0);
      var t1 := (-b + s) / (2.0 * a);
      var t2 := (-b - s) / (2.0 * a);
      assert (t1 - t2) * (2.0 * a) == 2.0 * s;
      assert t1 > t2;
      var r := FindLineIntersections(c, l, sqrt);
      assert r.a == Some(PointAt(l, t1)) && r.b == Some(PointAt(l, t2));
    }
  }

  /** Points beyond the segment are returned too: the unit circle meets the
      line through (2,0)-(3,0) at t = -1 and t = -3. */
  lemma NotClampedToSegment(sqrt: real -> real)
    requires sqrt(4.0) == 2.0
    ensures FindLineIntersections(Circle(Origin, 1.0), Line(Point(2.0, 0.0), Point(3.0, 0.0)), sqrt)
         == Hits(Some(Point(1.0, 0.0)), Some(Point(-1.0, 0.0)))
  {
    var l := Line(Point(2.0, 0.0), Point(3.0, 0.0));
    assert QuadA(l) == 1.0;
    assert QuadB(Circle(Origin, 1.0), l) == 4.0;
    assert QuadC(Circle(Origin, 1.0), l) == 3.0;
  }
}
