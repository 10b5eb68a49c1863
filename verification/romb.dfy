/** The "romb" front engraving (`src/job/front/front-engrave/romb.ts` and
    the earlier revision `src/job/front-engrave/romb.ts`): straight strokes
    between the k-th anchor of the upper walk and the k-th anchor of the
    lower walk, alternating direction, once leaning left and once, with
    mirrored anchors, leaning right. */
module Romb {
  import opened Results
  import opened Points
  import opened Commands
  import opened Blocks
  import opened Toolpath
  import opened Walks

  /** The front's size, the pattern width and the height multiplier. */
  datatype RombParams = RombParams(width: real, height: real, patternWidth: real, multiplier: real)

  /** A positive pattern width and multiplier: the walks then end. */
  predicate ValidParams(r: RombParams) {
    r.patternWidth > 0.0 && r.multiplier > 0.0
  }

  /** `getUpperPoints`: along X by the pattern width, then across Y by
      `getY`. */
  function UpperWalk(r: RombParams): (w: Walk)
    requires ValidParams(r)
    ensures Valid(w)
  {
    Walk(r.patternWidth, r.width, r.height, Times(r.multiplier))
  }

  /** `getLowerPoints`: along Y by `getY(patternWidth)`, then across X by
      `getX`. */
  function LowerWalk(r: RombParams): (w: Walk)
    requires ValidParams(r)
    ensures Valid(w)
  {
    PositiveProduct(r.patternWidth, r.multiplier);
    Walk(r.patternWidth * r.multiplier, r.height, r.width, Over(r.multiplier))
  }

  const Start: Pos := Pos(0.0, 0.0)

  /** The upper anchors, stored as (-x, -y). */
  function UpperPoints(r: RombParams): (ps: seq<Point>)
    requires ValidParams(r)
    ensures |ps| == |WalkFrom(UpperWalk(r), Start)|
  {
    var ws := WalkFrom(UpperWalk(r), Start);
    seq(|ws|, i requires 0 <= i < |ws| => Point(-ws[i].along, -ws[i].across))
  }

  /** The lower anchors, stored as (-x, -y). */
  function LowerPoints(r: RombParams): (ps: seq<Point>)
    requires ValidParams(r)
    ensures |ps| == |WalkFrom(LowerWalk(r), Start)|
  {
    var ws := WalkFrom(LowerWalk(r), Start);
    seq(|ws|, i requires 0 <= i < |ws| => Point(-ws[i].across, -ws[i].along))
  }

  /** The upper anchors lie on or left of x = 0 and never left of
      x = -width; with a positive width the last one is on x = -width.  All
      lie on or below y = 0. */
  lemma UpperPointsInside(r: RombParams)
    requires ValidParams(r) && r.width >= 0.0
    ensures var ps := UpperPoints(r);
            forall i :: 0 <= i < |ps| ==> -r.width <= ps[i].x <= 0.0 && ps[i].y <= 0.0
    ensures var ps := UpperPoints(r);
            r.width > 0.0 ==> |ps| >= 1 && ps[|ps| - 1].x == -r.width
  {
    var ws, ps := WalkFrom(UpperWalk(r), Start), UpperPoints(r);
    assert forall i :: 0 <= i < |ps| ==> ps[i] == Point(-ws[i].along, -ws[i].across);
    WalkRange(UpperWalk(r), Start);
    if r.width > 0.0 {
      ReachesEdge(UpperWalk(r), Start);
    }
  }

  /** The lower anchors lie between y = 0 and y = -height; with a positive
      height the last one is on y = -height.  All lie on or left of
      x = 0. */
  lemma LowerPointsInside(r: RombParams)
    requires ValidParams(r) && r.height >= 0.0
    ensures var ps := LowerPoints(r);
            forall i :: 0 <= i < |ps| ==> -r.height <= ps[i].y <= 0.0 && ps[i].x <= 0.0
    ensures var ps := LowerPoints(r);
            r.height > 0.0 ==> |ps| >= 1 && ps[|ps| - 1].y == -r.height
  {
    var ws, ps := WalkFrom(LowerWalk(r), Start), LowerPoints(r);
    assert forall i :: 0 <= i < |ps| ==> ps[i] == Point(-ws[i].across, -ws[i].along);
    WalkRange(LowerWalk(r), Start);
    if r.height > 0.0 {
      ReachesEdge(LowerWalk(r), Start);
    }
  }

  /** Each upper anchor is further left than the one before it, or at the
      same x further down, starting from the origin. */
  lemma UpperPointsAdvance(r: RombParams)
    requires ValidParams(r)
    ensures var ps := UpperPoints(r);
            forall i :: 0 < i < |ps| ==>
              (ps[i].x < ps[i - 1].x && ps[i].y <= ps[i - 1].y) || (ps[i].x == ps[i - 1].x && ps[i].y < ps[i - 1].y)
  {
    var w := UpperWalk(r);
    var ws, ps := WalkFrom(w, Start), UpperPoints(r);
    WalkAdvances(w, Start);
    forall i | 0 < i < |ps|
      ensures (ps[i].x < ps[i - 1].x && ps[i].y <= ps[i - 1].y) || (ps[i].x == ps[i - 1].x && ps[i].y < ps[i - 1].y)
    {
      assert i < |ws|;
      assert Advances(Prev(Start, ws, i), ws[i]);
      assert Prev(Start, ws, i) == ws[i - 1];
      assert ps[i] == Point(-ws[i].along, -ws[i].across);
      assert ps[i - 1] == Point(-ws[i - 1].along, -ws[i - 1].across);
    }
  }

  /** Each lower anchor is further down than the one before it and not
      to its right, or at the same y further left, starting from the
      origin. */
  lemma LowerPointsAdvance(r: RombParams)
    requires ValidParams(r)
    ensures var ps := LowerPoints(r);
            forall i :: 0 < i < |ps| ==>
              (ps[i].y < ps[i - 1].y && ps[i].x <= ps[i - 1].x) || (ps[i].y == ps[i - 1].y && ps[i].x < ps[i - 1].x)
  {
    var w := LowerWalk(r);
    var ws, ps := WalkFrom(w, Start), LowerPoints(r);
    WalkAdvances(w, Start);
    forall i | 0 < i < |ps|
      ensures (ps[i].y < ps[i - 1].y && ps[i].x <= ps[i - 1].x) || (ps[i].y == ps[i - 1].y && ps[i].x < ps[i - 1].x)
    {
      assert i < |ws|;
      assert Advances(Prev(Start, ws, i), ws[i]);
      assert Prev(Start, ws, i) == ws[i - 1];
      assert ps[i] == Point(-ws[i].across, -ws[i].along);
      assert ps[i - 1] == Point(-ws[i - 1].across, -ws[i - 1].along);
    }
  }

  /** The clamping step carries the whole overflow across without checking
      the other bound: a 15 mm pattern on a 10 mm wide, 1 mm high front
      puts the first upper anchor 5 mm down, below the front. */
  lemma UpperClampOvershoots()
    ensures var r := RombParams(10.0, 1.0, 15.0, 1.0);
            var ps := UpperPoints(r);
            |ps| >= 1 && ps[0] == Point(-10.0, -5.0) && ps[0].y < -r.height
  {
    var r := RombParams(10.0, 1.0, 15.0, 1.0);
    var w := UpperWalk(r);
    var n := Pos(10.0, 5.0);
    assert WalkFrom(w, Start) == [n] + WalkFrom(w, n);
  }

  /** `mirrorPointHorzontally` (current revision): reflect across the
      vertical centre line of the front. */
  function MirrorHorizontally(r: RombParams, p: Point): (m: Point)
    ensures m.x + p.x == -r.width && m.y == p.y
  {
    Point(-r.width - p.x, p.y)
  }

  /** `mirrorPointVertically` (earlier revision): reflect across the
      horizontal centre line of the front. */
  function MirrorVertically(r: RombParams, p: Point): (m: Point)
    ensures m.x == p.x && m.y + p.y == -r.height
  {
    Point(p.x, -r.height - p.y)
  }

  /** Both reflections are involutions and keep the front's extent. */
  lemma MirrorsInvolutive(r: RombParams, p: Point)
    ensures MirrorHorizontally(r, MirrorHorizontally(r, p)) == p
    ensures MirrorVertically(r, MirrorVertically(r, p)) == p
    ensures -r.width <= p.x <= 0.0 ==> -r.width <= MirrorHorizontally(r, p).x <= 0.0
    ensures -r.height <= p.y <= 0.0 ==> -r.height <= MirrorVertically(r, p).y <= 0.0
  {
  }

  /** Which reflection the right-leaning pass uses. */
  datatype Reflection = AcrossWidth | AcrossHeight

  function Reflect(r: RombParams, how: Reflection, p: Point): Point {
    match how
    case AcrossWidth => MirrorHorizontally(r, p)
    case AcrossHeight => MirrorVertically(r, p)
  }

  function ReflectAll(r: RombParams, how: Reflection, ps: seq<Point>): (ms: seq<Point>)
    ensures |ms| == |ps| && forall i :: 0 <= i < |ps| ==> ms[i] == Reflect(r, how, ps[i])
  {
    seq(|ps|, i requires 0 <= i < |ps| => Reflect(r, how, ps[i]))
  }

  /** How a revision moves between strokes: the safe height, the plunge
      depth and its feedrate, and the cut feedrate.  The current revision
      plunges to `-depth` and feeds at the engraving feedrate; the earlier
      one plunges to z 0 with no feedrate words. */
  datatype Style = Style(safeHeight: real, plunge: real, plungeFeed: Option<real>, cutFeed: Option<real>)

  /** The current revision: plunge to `-depth`, plunge and cut at the
      engraving feedrate. */
  function CurrentStyle(safeHeight: real, depth: real, feedrate: real): (s: Style)
    ensures s.plunge == -depth && s.plungeFeed == s.cutFeed == Some(feedrate)
  {
    Style(safeHeight, -depth, Some(feedrate), Some(feedrate))
  }

  /** The earlier revision: plunge to z 0, no feedrate words. */
  function EarlierStyle(safeHeight: real): (s: Style)
    ensures s.plunge == 0.0 && s.plungeFeed.None? && s.cutFeed.None?
  {
    Style(safeHeight, 0.0, None, None)
  }

  /** `travelToEngrave` / `travel`: lift, go over the point, plunge. */
  function Travel(s: Style, p: Point): seq<Command> {
    [MoveRapid(MoveArg(None, None, Some(s.safeHeight), None)),
     MoveRapid(MoveArg(Some(p.x), Some(p.y), None, None)),
     Move(MoveArg(None, None, Some(s.plunge), s.plungeFeed))]
  }

  /** The cut `block.move(point, feedrate)`. */
  function Cut(s: Style, p: Point): Command {
    Move(MoveArg(Some(p.x), Some(p.y), None, s.cutFeed))
  }

  /** Iteration `k` of `makeZigZag`: even iterations travel to the upper
      anchor and cut to the lower one, odd iterations the other way. */
  function Stroke(s: Style, us: seq<Point>, ls: seq<Point>, k: nat): seq<Command>
    requires k < |us| && k < |ls|
  {
    if k % 2 == 0 then Travel(s, us[k]) + [Cut(s, ls[k])]
    else Travel(s, ls[k]) + [Cut(s, us[k])]
  }

  /** The first `n` iterations. */
  function ZigZag(s: Style, us: seq<Point>, ls: seq<Point>, n: nat): (cs: seq<Command>)
    requires n <= |us| && n <= |ls|
    ensures |cs| == 4 * n
  {
    if n == 0 then [] else ZigZag(s, us, ls, n - 1) + Stroke(s, us, ls, n - 1)
  }

  function Min(a: int, b: int): int {
    if a <= b then a else b
  }

  /** `makeZigZag`: shift one anchor off each queue per iteration while both
      are non-empty, alternating which one is travelled to.  The anchors
      are passed already oriented (reflected for the right-leaning pass,
      which the source does as it shifts them). */
  method MakeZigZag(b0: Block, us: seq<Point>, ls: seq<Point>, s: Style) returns (b: Block)
    ensures b.commands == b0.commands + ZigZag(s, us, ls, Min(|us|, |ls|))
  {
    b := b0;
    var upper, lower := us, ls;
    var isUpper := true;
    ghost var k := 0;
    while |upper| > 0 && |lower| > 0
      invariant 0 <= k <= Min(|us|, |ls|)
      invariant upper == us[k..] && lower == ls[k..]
      invariant isUpper <==> k % 2 == 0
      invariant b.commands == b0.commands + ZigZag(s, us, ls, k)
      decreases |upper|
    {
      var up, lp := upper[0], lower[0];
      upper, lower := upper[1..], lower[1..];
      var next;
      if isUpper {
        next := Travel(s, up) + [Cut(s, lp)];
      } else {
        next := Travel(s, lp) + [Cut(s, up)];
      }
      assert next == Stroke(s, us, ls, k);
      b := Block(b.commands + next);
      isUpper := !isUpper;
      k := k + 1;
    }
  }

  /** `getPatternBlock` of the current revision: the left-leaning and the
      right-leaning zig-zag appended to one block; the right-leaning pass
      reflects the anchors across the width. */
  method PatternBlock(r: RombParams, safeHeight: real, depth: real, feedrate: real) returns (b: Block)
    requires ValidParams(r)
    ensures var us, ls, s := UpperPoints(r), LowerPoints(r), CurrentStyle(safeHeight, depth, feedrate);
            var n := Min(|us|, |ls|);
            b.commands == ZigZag(s, us, ls, n)
                          + ZigZag(s, ReflectAll(r, AcrossWidth, us), ReflectAll(r, AcrossWidth, ls), n)
  {
    var us, ls, s := UpperPoints(r), LowerPoints(r), CurrentStyle(safeHeight, depth, feedrate);
    b := MakeZigZag(Empty, us, ls, s);
    b := MakeZigZag(b, ReflectAll(r, AcrossWidth, us), ReflectAll(r, AcrossWidth, ls), s);
  }

  /** `getPatternBlock` of the earlier revision: two fresh blocks, the
      right-leaning one (anchors reflected across the height) merged after
      the left-leaning one. */
  method EarlierPatternBlock(r: RombParams, safeHeight: real) returns (b: Block)
    requires ValidParams(r)
    ensures var us, ls, s := UpperPoints(r), LowerPoints(r), EarlierStyle(safeHeight);
            var n := Min(|us|, |ls|);
            b.commands == ZigZag(s, us, ls, n)
                          + ZigZag(s, ReflectAll(r, AcrossHeight, us), ReflectAll(r, AcrossHeight, ls), n)
  {
    var us, ls, s := UpperPoints(r), LowerPoints(r), EarlierStyle(safeHeight);
    var left := MakeZigZag(Empty, us, ls, s);
    var right := MakeZigZag(Empty, ReflectAll(r, AcrossHeight, us), ReflectAll(r, AcrossHeight, ls), s);
    b := Merge(left, right);
  }

  /** The first `m` iterations are a prefix of the first `n`. */
  lemma {:induction false} ZigZagPrefix(s: Style, us: seq<Point>, ls: seq<Point>, m: nat, n: nat)
    requires m <= n <= |us| && n <= |ls|
    ensures ZigZag(s, us, ls, n)[..4 * m] == ZigZag(s, us, ls, m)
    decreases n
  {
    if m < n {
      ZigZagPrefix(s, us, ls, m, n - 1);
      var prev := ZigZag(s, us, ls, n - 1);
      assert ZigZag(s, us, ls, n)[..4 * m] == prev[..4 * m];
    }
  }

  /** Stroke `k` plunges at one walk's k-th anchor and cuts to the other
      walk's k-th anchor: at the cut the tool stands at the upper anchor
      on even strokes and at the lower anchor on odd ones, wherever it
      started. */
  lemma Strokes(s: Style, us: seq<Point>, ls: seq<Point>, n: nat, q: Point)
    requires n <= |us| && n <= |ls|
    ensures var cs := ZigZag(s, us, ls, n);
            forall k :: 0 <= k < n ==>
              AfterAll(q, cs[..4 * k + 3]) == (if k % 2 == 0 then us[k] else ls[k])
              && cs[4 * k + 3] == Cut(s, if k % 2 == 0 then ls[k] else us[k])
  {
    forall k | 0 <= k < n {
      StrokeAt(s, us, ls, n, q, k);
    }
  }

  lemma StrokeAt(s: Style, us: seq<Point>, ls: seq<Point>, n: nat, q: Point, k: nat)
    requires k < n <= |us| && n <= |ls|
    ensures var cs := ZigZag(s, us, ls, n);
            AfterAll(q, cs[..4 * k + 3]) == (if k % 2 == 0 then us[k] else ls[k])
            && cs[4 * k + 3] == Cut(s, if k % 2 == 0 then ls[k] else us[k])
  {
    var cs := ZigZag(s, us, ls, n);
    ZigZagPrefix(s, us, ls, k + 1, n);
    var before := ZigZag(s, us, ls, k);
    var st := Stroke(s, us, ls, k);
    var from := if k % 2 == 0 then us[k] else ls[k];
    var to := if k % 2 == 0 then ls[k] else us[k];
    assert st == Travel(s, from) + [Cut(s, to)];
    var prefix := cs[..4 * k + 4];
    assert prefix == before + st;
    assert cs[..4 * k + 3] == prefix[..4 * k + 3];
    assert cs[..4 * k + 3] == before + Travel(s, from);
    assert cs[4 * k + 3] == prefix[4 * k + 3];
    AppendTrack(q, before, Travel(s, from));
    TravelEnds(s, from, AfterAll(q, before));
  }

  /** Travelling to a point leaves the tool over it, from anywhere. */
  lemma TravelEnds(s: Style, p: Point, q: Point)
    ensures AfterAll(q, Travel(s, p)) == p
  {
    var t := Travel(s, p);
    assert t == [t[0]] + ([t[1]] + [t[2]]);
    AppendTrack(q, [t[0]], [t[1]] + [t[2]]);
    MoveTrack(q, t[0]);
    AppendTrack(After(q, t[0]), [t[1]], [t[2]]);
    MoveTrack(After(q, t[0]), t[1]);
    MoveTrack(p, t[2]);
  }
}
