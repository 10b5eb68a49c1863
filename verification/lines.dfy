/** Infinite-line intersection (`src/lib/line.ts`). */
module Lines {
  import opened Results
  import opened Points

  /** A line through two points; used both as a segment and as the infinite
      line through it. */
  datatype Line = Line(start: Point, end: Point)

  /** Coefficients of the implicit equation A*x + B*y == C of the line. */
  function CoefA(l: Line): real { l.end.y - l.start.y }
  function CoefB(l: Line): real { l.start.x - l.end.x }
  function CoefC(l: Line): real { CoefA(l) * l.start.x + CoefB(l) * l.start.y }

  /** `p` satisfies the line's implicit equation. */
  predicate OnLine(l: Line, p: Point) {
    CoefA(l) * p.x + CoefB(l) * p.y == CoefC(l)
  }

  /** The point of the line at parameter `t`: start + t*(end - start). */
  function PointAt(l: Line, t: real): (p: Point)
    ensures OnLine(l, p)
  {
    var p := Point(l.start.x + t * (l.end.x - l.start.x), l.start.y + t * (l.end.y - l.start.y));
    assert CoefA(l) * p.x + CoefB(l) * p.y
        == CoefC(l) + t * ((l.end.y - l.start.y) * (l.end.x - l.start.x) - (l.end.x - l.start.x) * (l.end.y - l.start.y));
    p
  }

  function Determinant(l1: Line, l2: Line): real {
    CoefA(l1) * CoefB(l2) - CoefA(l2) * CoefB(l1)
  }

  /** `Line.getLineIntersection`: `None` when the determinant is zero
      (parallel or degenerate lines), otherwise the point given by Cramer's
      rule, which lies on both infinite lines.  Nothing clamps it to the
      segments. */
  function Intersection(l1: Line, l2: Line): (r: Option<Point>)
    ensures r.None? <==> Determinant(l1, l2) == 0.0
    ensures r.Some? ==> OnLine(l1, r.value) && OnLine(l2, r.value)
  {
    if Determinant(l1, l2) == 0.0 then None
    else Some(Cramer(CoefA(l1), CoefB(l1), CoefC(l1), CoefA(l2), CoefB(l2), CoefC(l2)))
  }

  /** Cramer's rule for a1*x + b1*y == c1, a2*x + b2*y == c2: with a
      non-zero determinant its point solves both equations. */
  function Cramer(a1: real, b1: real, c1: real, a2: real, b2: real, c2: real): (r: Point)
    requires a1 * b2 - a2 * b1 != 0.0
    ensures a1 * r.x + b1 * r.y == c1 && a2 * r.x + b2 * r.y == c2
  {
    var det := a1 * b2 - a2 * b1;
    var x := (b2 * c1 - b1 * c2) / det;
    var y := (a1 * c2 - a2 * c1) / det;
    assert x * det == b2 * c1 - b1 * c2;
    assert y * det == a1 * c2 - a2 * c1;
    assert (a1 * x + b1 * y) * det == a1 * (x * det) + b1 * (y * det);
    assert a1 * (b2 * c1 - b1 * c2) + b1 * (a1 * c2 - a2 * c1) == c1 * det;
    assert (a2 * x + b2 * y) * det == a2 * (x * det) + b2 * (y * det);
    assert a2 * (b2 * c1 - b1 * c2) + b2 * (a1 * c2 - a2 * c1) == c2 * det;
    Point(x, y)
  }

  /** A solution of a non-singular 2x2 system is the one Cramer's rule gives. */
  lemma CramerUnique(a1: real, b1: real, c1: real, a2: real, b2: real, c2: real, p: Point)
    requires a1 * b2 - a2 * b1 != 0.0
    requires a1 * p.x + b1 * p.y == c1 && a2 * p.x + b2 * p.y == c2
    ensures Cramer(a1, b1, c1, a2, b2, c2) == p
  {
    var det := a1 * b2 - a2 * b1;
    var x, y := p.x, p.y;
    assert b2 * (a1 * x + b1 * y) - b1 * (a2 * x + b2 * y) == x * det;
    assert a1 * (a2 * x + b2 * y) - a2 * (a1 * x + b1 * y) == y * det;
  }

  /** Both defining points satisfy the implicit equation, so it describes
      the infinite line through them. */
  lemma EndpointsOnLine(l: Line)
    ensures OnLine(l, l.start) && OnLine(l, l.end)
  {
    assert CoefA(l) * l.end.x + CoefB(l) * l.end.y
        == (l.end.y - l.start.y) * l.end.x + (l.start.x - l.end.x) * l.end.y;
  }

  /** With a non-zero determinant the returned point is the only point on
      both lines. */
  lemma IntersectionUnique(l1: Line, l2: Line, p: Point)
    requires Determinant(l1, l2) != 0.0
    requires OnLine(l1, p) && OnLine(l2, p)
    ensures Intersection(l1, l2) == Some(p)
  {
    CramerUnique(CoefA(l1), CoefB(l1), CoefC(l1), CoefA(l2), CoefB(l2), CoefC(l2), p);
  }

  /** Swapping the two lines yields the same answer. */
  lemma IntersectionSymmetric(l1: Line, l2: Line)
    ensures Intersection(l1, l2) == Intersection(l2, l1)
  {
    assert Determinant(l2, l1) == -Determinant(l1, l2);
    if Determinant(l1, l2) != 0.0 {
      var p := Intersection(l1, l2).value;
      IntersectionUnique(l2, l1, p);
    }
  }

  /** Two lines meet in a point iff their determinant is non-zero; in
      particular a line never meets a parallel copy of itself. */
  lemma ParallelLinesDoNotMeet(l: Line, dx: real, dy: real)
    ensures Intersection(l, Line(Translate(l.start, dx, dy), Translate(l.end, dx, dy))).None?
  {
    var m := Line(Translate(l.start, dx, dy), Translate(l.end, dx, dy));
    assert CoefA(m) == CoefA(l) && CoefB(m) == CoefB(l);
  }

  /** The base segment (0,0)-(50,0) and the diagonal (25,25)-(-25,-25) meet
      at the origin. */
  lemma CrossingDiagonalExample()
    ensures Intersection(Line(Point(0.0, 0.0), Point(50.0, 0.0)),
                         Line(Point(25.0, 25.0), Point(-25.0, -25.0)))
         == Some(Point(0.0, 0.0))
  {
    IntersectionUnique(Line(Point(0.0, 0.0), Point(50.0, 0.0)),
                       Line(Point(25.0, 25.0), Point(-25.0, -25.0)), Point(0.0, 0.0));
  }

  /** The result is not clamped to the segments: the vertical segment
      (-10,-25)-(-10,25) lies left of the base segment (0,0)-(50,0), yet the
      infinite lines meet at (-10, 0). */
  lemma NotClampedToSegments()
    ensures Intersection(Line(Point(0.0, 0.0), Point(50.0, 0.0)),
                         Line(Point(-10.0, -25.0), Point(-10.0, 25.0)))
         == Some(Point(-10.0, 0.0))
  {
    IntersectionUnique(Line(Point(0.0, 0.0), Point(50.0, 0.0)),
                       Line(Point(-10.0, -25.0), Point(-10.0, 25.0)), Point(-10.0, 0.0));
  }

  /** A segment that merely starts on the base still intersects it. */
  lemma StartingOnBaseExample()
    ensures Intersection(Line(Point(0.0, 0.0), Point(50.0, 0.0)),
                         Line(Point(25.0, 0.0), Point(25.0, 50.0)))
         == Some(Point(25.0, 0.0))
  {
    IntersectionUnique(Line(Point(0.0, 0.0), Point(50.0, 0.0)),
                       Line(Point(25.0, 0.0), Point(25.0, 50.0)), Point(25.0, 0.0));
  }
}
