/** `BoundedBlock` (`src/lib/bounded-block.ts`): a block that tracks the
    tool's XY position and refuses moves that leave the envelope
    [-width, 0] x [-height, 0].  The mutable object is a state record; every
    operation returns the next state or the error it would throw. */
module Bounded {
  import opened Results
  import opened Points
  import opened Lines
  import opened Commands
  import opened Blocks

  datatype BoundedBlock = BoundedBlock(width: real, height: real, pos: Point, block: Block)

  /** The result of `checkMove`. */
  datatype MoveCheck = MoveCheck(to: Point, corrected: bool)

  /** The message of the error thrown when a target lies outside the
      envelope yet no edge crossing was found. */
  const WhatError := "what"

  /** `new BoundedBlock(width, height)`. */
  function New(width: real, height: real): (r: BoundedBlock)
    ensures r.pos == Origin && r.block.commands == []
    ensures Inside(r, r.pos) <==> width >= 0.0 && height >= 0.0
  {
    BoundedBlock(width, height, Origin, Empty)
  }

  /** The four edges; the origin is the top-right corner. */
  function RightLine(b: BoundedBlock): Line { Line(Origin, Point(0.0, -b.height)) }
  function LeftLine(b: BoundedBlock): Line { Line(Point(-b.width, 0.0), Point(-b.width, -b.height)) }
  function TopLine(b: BoundedBlock): Line { Line(Origin, Point(-b.width, 0.0)) }
  function BottomLine(b: BoundedBlock): Line { Line(Point(0.0, -b.height), Point(-b.width, -b.height)) }

  /** `p` lies in the closed envelope. */
  predicate Inside(b: BoundedBlock, p: Point) {
    -b.width <= p.x <= 0.0 && -b.height <= p.y <= 0.0
  }

  /** The edges are the lines x = 0, x = -width, y = 0 and y = -height. */
  lemma EdgeLines(b: BoundedBlock, p: Point)
    requires b.width > 0.0 && b.height > 0.0
    ensures OnLine(RightLine(b), p) <==> p.x == 0.0
    ensures OnLine(LeftLine(b), p) <==> p.x == -b.width
    ensures OnLine(TopLine(b), p) <==> p.y == 0.0
    ensures OnLine(BottomLine(b), p) <==> p.y == -b.height
  {
    ScaledZero(-b.height, p.x);
    ScaledZero(-b.height, p.x + b.width);
    assert CoefC(LeftLine(b)) == -b.height * -b.width;
    assert CoefA(LeftLine(b)) * p.x == -b.height * (p.x + b.width) + CoefC(LeftLine(b));
    ScaledZero(b.width, p.y);
    ScaledZero(b.width, p.y + b.height);
    assert CoefC(BottomLine(b)) == b.width * -b.height;
    assert CoefB(BottomLine(b)) * p.y == b.width * (p.y + b.height) + CoefC(BottomLine(b));
  }

  /** A product with a non-zero factor is zero iff the other factor is. */
  lemma ScaledZero(k: real, u: real)
    requires k != 0.0
    ensures k * u == 0.0 <==> u == 0.0
  {
    if u != 0.0 {
      assert (k * u) / k == u;
    }
  }

  /** The crossing of the move from `pos` to `next` with the edge that
      `next.x` (resp. `next.y`) breaches, if the lines meet. */
  function CrossingX(b: BoundedBlock, next: Point): Option<Point> {
    if next.x > 0.0 then Intersection(RightLine(b), Line(b.pos, next))
    else if next.x < -b.width then Intersection(LeftLine(b), Line(b.pos, next))
    else None
  }

  function CrossingY(b: BoundedBlock, next: Point): Option<Point> {
    if next.y > 0.0 then Intersection(TopLine(b), Line(b.pos, next))
    else if next.y < -b.height then Intersection(BottomLine(b), Line(b.pos, next))
    else None
  }

  /** `getOutOfBoundPosition`: `None` for a target inside the envelope;
      otherwise the crossing with a breached edge, the one nearer to `pos`
      when both axes are breached (X on a tie), or the `what` error when no
      crossing exists.  Distances are compared through their squares, which
      `Points.DistanceOrder` shows to agree with `distanceTo`. */
  function OutOfBoundPosition(b: BoundedBlock, next: Point): (r: Result<Option<Point>>)
    ensures r.Ok? && r.value.None? <==> Inside(b, next)
    ensures r.Err? ==> r.message == WhatError && CrossingX(b, next).None? && CrossingY(b, next).None?
    ensures r.Ok? && r.value.Some? ==> r.value == CrossingX(b, next) || r.value == CrossingY(b, next)
  {
    var ox, oy := CrossingX(b, next), CrossingY(b, next);
    var outOfBounds := next.x > 0.0 || next.x < -b.width || next.y > 0.0 || next.y < -b.height;
    if ox.Some? && oy.Some? then
      Ok(Some(if DistanceSq(b.pos, ox.value) > DistanceSq(b.pos, oy.value) then oy.value else ox.value))
    else if ox.Some? || oy.Some? then
      Ok(Some(if ox.Some? then ox.value else oy.value))
    else if outOfBounds then
      Err(WhatError)
    else
      Ok(None)
  }

  /** On a two-axis breach the returned crossing is the one nearest to
      `pos`, and the X crossing wins a tie. */
  lemma NearestCrossingWins(b: BoundedBlock, next: Point)
    requires CrossingX(b, next).Some? && CrossingY(b, next).Some?
    ensures var r := OutOfBoundPosition(b, next);
            var px, py := CrossingX(b, next).value, CrossingY(b, next).value;
            r.Ok? && r.value.Some?
            && DistanceSq(b.pos, r.value.value) <= DistanceSq(b.pos, px)
            && DistanceSq(b.pos, r.value.value) <= DistanceSq(b.pos, py)
            && (DistanceSq(b.pos, px) == DistanceSq(b.pos, py) ==> r.value.value == px)
  {
  }

  /** `checkMove`: the target itself, uncorrected, when inside; otherwise
      the crossing, flagged as corrected.  Nothing of the block changes:
      the function returns no new state. */
  function CheckMove(b: BoundedBlock, to: Point): (r: Result<MoveCheck>)
    ensures r.Ok? && !r.value.corrected <==> Inside(b, to)
    ensures r.Ok? && !r.value.corrected ==> r.value.to == to
    ensures r.Err? <==> OutOfBoundPosition(b, to).Err?
    ensures r.Ok? && r.value.corrected ==> OutOfBoundPosition(b, to) == Ok(Some(r.value.to))
  {
    match OutOfBoundPosition(b, to)
    case Err(m) => Err(m)
    case Ok(None) => Ok(MoveCheck(to, false))
    case Ok(Some(p)) => Ok(MoveCheck(p, true))
  }

  /** `getNewPosition`: X and Y from the target where given, else from
      `pos`; Z plays no part. */
  function NewPosition(b: BoundedBlock, to: Xyz): (r: Point)
    ensures to.x.Some? ==> r.x == to.x.value
    ensures to.x.None? ==> r.x == b.pos.x
    ensures to.y.Some? ==> r.y == to.y.value
    ensures to.y.None? ==> r.y == b.pos.y
  {
    Point(if to.x.Some? then to.x.value else b.pos.x,
          if to.y.Some? then to.y.value else b.pos.y)
  }

  /** Once the position is updated, the same target is where the tool is. */
  lemma NewPositionIdempotent(b: BoundedBlock, to: Xyz)
    ensures NewPosition(UpdatePosition(b, to), to) == UpdatePosition(b, to).pos
  {
  }

  /** `updatePosition`. */
  function UpdatePosition(b: BoundedBlock, to: Xyz): (r: BoundedBlock)
    ensures r.pos == NewPosition(b, to)
    ensures r.width == b.width && r.height == b.height && r.block == b.block
  {
    b.(pos := NewPosition(b, to))
  }

  /** The message of `checkOutOfBounds`' error. */
  function OutOfBoundsMessage(p: Point, fmt: Fmt): string {
    "Moved out of bounds: X" + fmt.plain(p.x) + " Y" + fmt.plain(p.y)
  }

  /** The inherited `moveRapid` or `move` builder call. */
  function MotionCall(rapid: bool, to: Xyz, feedrate: Option<real>): BuilderCall {
    if rapid then MoveRapidCall(to, feedrate) else MoveCall(to, feedrate)
  }

  /** `checkOutOfBounds` followed by `updatePosition` and the inherited
      builder: errors leave the caller's state as it was; success moves
      `pos` to the new position and appends exactly the builder's command. */
  function Step(b: BoundedBlock, rapid: bool, to: Xyz, feedrate: Option<real>, fmt: Fmt): (r: Result<BoundedBlock>)
    ensures r.Ok? <==> Inside(b, NewPosition(b, to))
    ensures r.Ok? ==> r.value.pos == NewPosition(b, to)
                      && r.value.width == b.width && r.value.height == b.height
                      && r.value.block.commands == b.block.commands + [CommandOf(MotionCall(rapid, to, feedrate)).value]
    ensures r.Err? && OutOfBoundPosition(b, NewPosition(b, to)).Ok? ==>
              r.message == OutOfBoundsMessage(NewPosition(b, to), fmt)
  {
    var newPos := NewPosition(b, to);
    match OutOfBoundPosition(b, newPos)
    case Err(m) => Err(m)
    case Ok(Some(_)) => Err(OutOfBoundsMessage(newPos, fmt))
    case Ok(None) => Ok(UpdatePosition(b, to).(block := Apply(b.block, MotionCall(rapid, to, feedrate))))
  }

  /** `move(to, feedrate)`. */
  function Move(b: BoundedBlock, to: Xyz, feedrate: Option<real>, fmt: Fmt): (r: Result<BoundedBlock>)
    ensures r.Ok? <==> Inside(b, NewPosition(b, to))
    ensures r.Ok? ==> r.value.pos == NewPosition(b, to)
                      && r.value.block.commands
                         == b.block.commands + [Commands.Move(MoveArg(to.x, to.y, to.z, feedrate))]
  {
    Step(b, false, to, feedrate, fmt)
  }

  /** `moveRapid(to, feedrate)`. */
  function MoveRapid(b: BoundedBlock, to: Xyz, feedrate: Option<real>, fmt: Fmt): (r: Result<BoundedBlock>)
    ensures r.Ok? <==> Inside(b, NewPosition(b, to))
    ensures r.Ok? ==> r.value.pos == NewPosition(b, to)
                      && r.value.block.commands
                         == b.block.commands + [Commands.MoveRapid(MoveArg(to.x, to.y, to.z, feedrate))]
  {
    Step(b, true, to, feedrate, fmt)
  }

  /** One requested motion: feed or rapid, target, feedrate. */
  datatype Motion = Motion(rapid: bool, to: Xyz, feedrate: Option<real>)

  /** A sequence of motions, stopping at the first error. */
  function Run(b: BoundedBlock, ms: seq<Motion>, fmt: Fmt): Result<BoundedBlock>
    decreases |ms|
  {
    if ms == [] then Ok(b)
    else
      var m := ms[0];
      var next := if m.rapid then MoveRapid(b, m.to, m.feedrate, fmt) else Move(b, m.to, m.feedrate, fmt);
      match next
      case Err(e) => Err(e)
      case Ok(b1) => Run(b1, ms[1..], fmt)
  }

  /** Starting inside the envelope, the position stays inside through any
      run of successful moves, one command is appended per motion, and the
      envelope never changes. */
  lemma {:induction false} RunStaysInside(b: BoundedBlock, ms: seq<Motion>, fmt: Fmt)
    requires Inside(b, b.pos)
    requires Run(b, ms, fmt).Ok?
    ensures var r := Run(b, ms, fmt).value;
            Inside(r, r.pos) && r.width == b.width && r.height == b.height
            && |r.block.commands| == |b.block.commands| + |ms|
    decreases |ms|
  {
    if ms != [] {
      var m := ms[0];
      var b1 := if m.rapid then MoveRapid(b, m.to, m.feedrate, fmt).value else Move(b, m.to, m.feedrate, fmt).value;
      RunStaysInside(b1, ms[1..], fmt);
    }
  }

  /** Where the move from `p0` to `p1` (on one axis) meets `e`, with
      `e` between the two. */
  function CrossParam(p0: real, p1: real, e: real): (t: real)
    requires p0 != p1
    ensures p0 + t * (p1 - p0) == e
  {
    (e - p0) / (p1 - p0)
  }

  /** The crossing parameter of an edge between the endpoints is in [0, 1]. */
  lemma CrossParamBounds(p0: real, p1: real, e: real)
    requires p0 <= e < p1 || p1 < e <= p0
    ensures 0.0 <= CrossParam(p0, p1, e) <= 1.0
  {
    if p0 < p1 {
      UnitQuotient(e - p0, p1 - p0);
    } else {
      assert CrossParam(p0, p1, e) == (p0 - e) / (p0 - p1);
      UnitQuotient(p0 - e, p0 - p1);
    }
  }

  /** A breach of the right edge alone, from inside, meets the edge x = 0
      at a point of the move segment, and the `what` error is out of
      reach. */
  lemma RightBreach(b: BoundedBlock, next: Point)
    requires b.width > 0.0 && b.height > 0.0 && Inside(b, b.pos)
    requires next.x > 0.0 && -b.height <= next.y <= 0.0
    ensures var t := CrossParam(b.pos.x, next.x, 0.0);
            0.0 <= t <= 1.0
            && OutOfBoundPosition(b, next) == Ok(Some(PointAt(Line(b.pos, next), t)))
            && PointAt(Line(b.pos, next), t).x == 0.0
  {
    var l := Line(b.pos, next);
    var t := CrossParam(b.pos.x, next.x, 0.0);
    CrossParamBounds(b.pos.x, next.x, 0.0);
    var p := PointAt(l, t);
    EdgeLines(b, p);
    PositiveProduct(b.height, next.x - b.pos.x);
    assert Determinant(RightLine(b), l) == b.height * (next.x - b.pos.x);
    IntersectionUnique(RightLine(b), l, p);
  }

  /** A breach of the left edge alone meets x = -width on the segment. */
  lemma LeftBreach(b: BoundedBlock, next: Point)
    requires b.width > 0.0 && b.height > 0.0 && Inside(b, b.pos)
    requires next.x < -b.width && -b.height <= next.y <= 0.0
    ensures var t := CrossParam(b.pos.x, next.x, -b.width);
            0.0 <= t <= 1.0
            && OutOfBoundPosition(b, next) == Ok(Some(PointAt(Line(b.pos, next), t)))
            && PointAt(Line(b.pos, next), t).x == -b.width
  {
    var l := Line(b.pos, next);
    var t := CrossParam(b.pos.x, next.x, -b.width);
    CrossParamBounds(b.pos.x, next.x, -b.width);
    var p := PointAt(l, t);
    EdgeLines(b, p);
    PositiveProduct(b.height, b.pos.x - next.x);
    assert Determinant(LeftLine(b), l) == -(b.height * (b.pos.x - next.x));
    IntersectionUnique(LeftLine(b), l, p);
  }

  /** A breach of the top edge alone meets y = 0 on the segment. */
  lemma TopBreach(b: BoundedBlock, next: Point)
    requires b.width > 0.0 && b.height > 0.0 && Inside(b, b.pos)
    requires next.y > 0.0 && -b.width <= next.x <= 0.0
    ensures var t := CrossParam(b.pos.y, next.y, 0.0);
            0.0 <= t <= 1.0
            && OutOfBoundPosition(b, next) == Ok(Some(PointAt(Line(b.pos, next), t)))
            && PointAt(Line(b.pos, next), t).y == 0.0
  {
    var l := Line(b.pos, next);
    var t := CrossParam(b.pos.y, next.y, 0.0);
    CrossParamBounds(b.pos.y, next.y, 0.0);
    var p := PointAt(l, t);
    EdgeLines(b, p);
    PositiveProduct(b.width, next.y - b.pos.y);
    assert Determinant(TopLine(b), l) == -(b.width * (next.y - b.pos.y));
    IntersectionUnique(TopLine(b), l, p);
  }

  /** A breach of the bottom edge alone meets y = -height on the segment. */
  lemma BottomBreach(b: BoundedBlock, next: Point)
    requires b.width > 0.0 && b.height > 0.0 && Inside(b, b.pos)
    requires next.y < -b.height && -b.width <= next.x <= 0.0
    ensures var t := CrossParam(b.pos.y, next.y, -b.height);
            0.0 <= t <= 1.0
            && OutOfBoundPosition(b, next) == Ok(Some(PointAt(Line(b.pos, next), t)))
            && PointAt(Line(b.pos, next), t).y == -b.height
  {
    var l := Line(b.pos, next);
    var t := CrossParam(b.pos.y, next.y, -b.height);
    CrossParamBounds(b.pos.y, next.y, -b.height);
    var p := PointAt(l, t);
    EdgeLines(b, p);
    PositiveProduct(b.width, b.pos.y - next.y);
    assert Determinant(BottomLine(b), l) == b.width * (b.pos.y - next.y);
    IntersectionUnique(BottomLine(b), l, p);
  }

  /** From inside a proper envelope every breached axis has a crossing, so
      the `what` error is never thrown. */
  lemma WhatUnreachable(b: BoundedBlock, next: Point)
    requires b.width > 0.0 && b.height > 0.0 && Inside(b, b.pos)
    ensures OutOfBoundPosition(b, next).Ok?
  {
    var l := Line(b.pos, next);
    if next.x > 0.0 {
      PositiveProduct(b.height, next.x - b.pos.x);
      assert Determinant(RightLine(b), l) == b.height * (next.x - b.pos.x);
    } else if next.x < -b.width {
      PositiveProduct(b.height, b.pos.x - next.x);
      assert Determinant(LeftLine(b), l) == -(b.height * (b.pos.x - next.x));
    } else if next.y > 0.0 {
      PositiveProduct(b.width, next.y - b.pos.y);
      assert Determinant(TopLine(b), l) == -(b.width * (next.y - b.pos.y));
    } else if next.y < -b.height {
      PositiveProduct(b.width, b.pos.y - next.y);
      assert Determinant(BottomLine(b), l) == b.width * (b.pos.y - next.y);
    }
  }
}
