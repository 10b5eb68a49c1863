/** `BoreFactory` (`src/factory/bore.ts`): a round pocket cut by concentric
    passes of four clockwise quarter arcs at each stepdown depth. */
module Bore {
  import opened Results
  import opened Points
  import opened Enums
  import opened Commands
  import opened Blocks
  import opened Tooling
  import opened Stepdown
  import opened Toolpath

  datatype BoreSpec = BoreSpec(diameter: real, depth: real)

  /** The derived values of the constructor. */
  datatype Factory = Factory(bore: BoreSpec, ctrl: ToolController,
                             boreRadius: real, toolRadius: real, maxTravel: real, stepover: real)

  /** `new BoreFactory(bore, ctrl)`: `stepover` falls back to the tool
      diameter when it is missing or zero. */
  function NewFactory(bore: BoreSpec, ctrl: ToolController): (f: Factory)
    ensures f.maxTravel == f.boreRadius - f.toolRadius
    ensures 2.0 * f.boreRadius == bore.diameter && 2.0 * f.toolRadius == ctrl.tool.diameter
    ensures Truthy(ctrl.stepover) ==> f.stepover == ctrl.stepover.value
    ensures !Truthy(ctrl.stepover) ==> f.stepover == ctrl.tool.diameter
  {
    var boreRadius := bore.diameter / 2.0;
    var toolRadius := ctrl.tool.diameter / 2.0;
    Factory(bore, ctrl, boreRadius, toolRadius, boreRadius - toolRadius,
            if Truthy(ctrl.stepover) then ctrl.stepover.value else ctrl.tool.diameter)
  }

  /** The pass count of `makeSpiral`. */
  function SpiralPasses(f: Factory): int
    requires f.stepover != 0.0
  {
    Ceil(f.boreRadius / f.stepover)
  }

  /** Command `k` of a pass before scaling: go to the top of the circle
      of radius `r`, then four clockwise quarter arcs, then (last pass
      only) a rapid back to the middle. */
  function PassCommand(r: real, feedrate: real, k: nat): Command
    requires k < 12
  {
    var f := Some(feedrate);
    match k
    case 0 => Comment("Go to the top")
    case 1 => Move(MoveArg(Some(0.0), Some(r), None, f))
    case 2 => Comment("Arc from 0 -> 90 deg")
    case 3 => Arc(ArcArg(CW, Point(r, 0.0), Point(0.0, -r), f))
    case 4 => Comment("Arc from 90 -> 180 deg")
    case 5 => Arc(ArcArg(CW, Point(0.0, -r), Point(-r, 0.0), f))
    case 6 => Comment("Arc from 180 -> 270 deg")
    case 7 => Arc(ArcArg(CW, Point(-r, 0.0), Point(0.0, r), f))
    case 8 => Comment("Arc from 270 -> 360 deg")
    case 9 => Arc(ArcArg(CW, Point(0.0, r), Point(r, 0.0), f))
    case 10 => Comment("Move to middle")
    case 11 => MoveRapid(MoveArg(Some(0.0), Some(0.0), None, None))
  }

  /** The block `b` of one pass, before scaling. */
  function Pass(r: real, lastPass: bool, feedrate: real): (cs: seq<Command>)
    ensures |cs| == if lastPass then 12 else 10
  {
    seq(if lastPass then 12 else 10, k requires 0 <= k < 12 => PassCommand(r, feedrate, k))
  }

  /** The uniform X/Y factor `{ x: s, y: s }`. */
  function Uniform(s: real): Xyz {
    Xyz(Some(s), Some(s), None)
  }

  /** Scaling one template command uniformly is the command for the scaled
      radius. */
  lemma CommandScales(r: real, feedrate: real, k: nat, s: real)
    requires s != 0.0 && k < 12
    ensures Scale(PassCommand(r, feedrate, k), Uniform(s)) == PassCommand(r * s, feedrate, k)
  {
    var f := Uniform(s);
    assert ArcFactor(f.x) == s && ArcFactor(f.y) == s;
    assert 0.0 * s == 0.0 && -r * s == -(r * s);
    if k == 1 {
      assert ScaleAxis(Some(0.0), f.x) == Some(0.0);
      assert ScaleAxis(None, f.z) == None;
      if r == 0.0 {
        assert r * s == 0.0;
        assert ScaleAxis(Some(r), f.y) == Some(r * s);
      } else {
        assert Truthy(Some(r)) && Truthy(f.y);
        assert ScaleAxis(Some(r), f.y).value == r * s;
      }
    }
  }

  /** A radius `r` scaled by `s`. */
  function Scaled(r: real, s: real): real {
    r * s
  }

  /** Scaling a pass uniformly by a non-zero factor is the pass for the
      scaled radius: the template keeps its shape. */
  lemma PassScales(r: real, lastPass: bool, feedrate: real, s: real)
    requires s != 0.0
    ensures EditScale(Block(Pass(r, lastPass, feedrate)), Uniform(s)) == Block(Pass(Scaled(r, s), lastPass, feedrate))
  {
    var l := EditScale(Block(Pass(r, lastPass, feedrate)), Uniform(s)).commands;
    var p := Pass(r * s, lastPass, feedrate);
    forall k | 0 <= k < |p|
      ensures l[k] == p[k]
    {
      CommandScales(r, feedrate, k, s);
    }
  }

  /** The arc at `k` (3, 5, 7 or 9) of the template, started where the
      previous quarter ended (`start`), is centred on the origin and stays on
      the circle of radius `r`. */
  lemma QuarterArc(r: real, feedrate: real, k: nat, start: Point)
    requires k in {3, 5, 7, 9}
    requires start == (if k == 3 then Point(0.0, r) else if k == 5 then Point(r, 0.0)
                       else if k == 7 then Point(0.0, -r) else Point(-r, 0.0))
    ensures PassCommand(r, feedrate, k).Arc?
    ensures Centre(start, PassCommand(r, feedrate, k).arc) == Origin
    ensures DistanceSq(Origin, start) == Square(r)
    ensures DistanceSq(Origin, PassCommand(r, feedrate, k).arc.end) == Square(r)
    ensures ArcConsistent(start, PassCommand(r, feedrate, k).arc)
  {
    assert Square(-r) == Square(r) && Square(0.0) == 0.0;
  }

  /** A labelled quarter: the comment at `i` leaves the tool at `from`, the
      arc at `i + 1` takes it to the arc's end. */
  lemma QuarterTrack(p: Point, cs: seq<Command>, i: nat, from: Point)
    requires i + 2 <= |cs| && cs[i].Comment? && cs[i + 1].Arc?
    requires AfterAll(p, cs[..i]) == from && ArcConsistent(from, cs[i + 1].arc)
    ensures AfterAll(p, cs[..i + 1]) == from
    ensures AfterAll(p, cs[..i + 2]) == cs[i + 1].arc.end
    ensures Consistent(p, cs[..i + 2]) <==> Consistent(p, cs[..i])
  {
    StepTrack(p, cs, i);
    StepTrack(p, cs, i + 1);
  }

  /** Wherever the previous pass left the tool, a pass goes to the top of
      its circle, every arc ends on the circle it starts on, the fourth arc
      closes the circle at the top, and the last pass returns to the
      middle. */
  lemma PassTrack(p: Point, r: real, lastPass: bool, feedrate: real)
    ensures var cs := Pass(r, lastPass, feedrate);
            Consistent(p, cs)
            && AfterAll(p, cs[..2]) == Point(0.0, r)
            && AfterAll(p, cs[..10]) == AfterAll(p, cs[..2])
            && (lastPass ==> AfterAll(p, cs) == Origin)
  {
    var cs := Pass(r, lastPass, feedrate);
    var top, right, bottom, left := Point(0.0, r), Point(r, 0.0), Point(0.0, -r), Point(-r, 0.0);
    QuarterArc(r, feedrate, 3, top);
    QuarterArc(r, feedrate, 5, right);
    QuarterArc(r, feedrate, 7, bottom);
    QuarterArc(r, feedrate, 9, left);
    assert cs[..0] == [];
    StepTrack(p, cs, 0);
    StepTrack(p, cs, 1);
    QuarterTrack(p, cs, 2, top);
    QuarterTrack(p, cs, 4, right);
    QuarterTrack(p, cs, 6, bottom);
    QuarterTrack(p, cs, 8, left);
    if lastPass {
      StepTrack(p, cs, 10);
      StepTrack(p, cs, 11);
    }
    assert cs[..|cs|] == cs;
  }

  /** Wherever the previous pass left the tool, each quarter arc is centred
      on the origin (its start plus `around` is (0, 0)) and ends on the
      circle of radius `r`. */
  lemma PassArcsCentred(p: Point, r: real, lastPass: bool, feedrate: real)
    ensures var cs := Pass(r, lastPass, feedrate);
            forall i :: 3 <= i < 10 && i % 2 == 1 ==>
              cs[i].Arc?
              && Centre(AfterAll(p, cs[..i]), cs[i].arc) == Origin
              && DistanceSq(Origin, cs[i].arc.end) == Square(r)
  {
    var cs := Pass(r, lastPass, feedrate);
    var top, right, bottom, left := Point(0.0, r), Point(r, 0.0), Point(0.0, -r), Point(-r, 0.0);
    QuarterArc(r, feedrate, 3, top);
    QuarterArc(r, feedrate, 5, right);
    QuarterArc(r, feedrate, 7, bottom);
    QuarterArc(r, feedrate, 9, left);
    assert cs[..0] == [];
    StepTrack(p, cs, 0);
    StepTrack(p, cs, 1);
    QuarterTrack(p, cs, 2, top);
    QuarterTrack(p, cs, 4, right);
    QuarterTrack(p, cs, 6, bottom);
    QuarterTrack(p, cs, 8, left);
  }

  /** Pass `i` of `passes` as merged: the template scaled by `i / passes`. */
  function ScaledPass(f: Factory, i: int, passes: int): Block
    requires passes != 0
  {
    EditScale(Block(Pass(f.maxTravel, i == passes, f.ctrl.feedrate)), Uniform(Fraction(i, passes)))
  }

  /** The factor `i / passes` of pass `i`. */
  function Fraction(i: int, passes: int): real
    requires passes != 0
  {
    i as real / passes as real
  }

  /** The `makeSpiral` loop from pass `i` on, merging each scaled pass. */
  function SpiralFrom(f: Factory, b: Block, i: int, passes: int): Block
    requires 1 <= i
    decreases passes - i + 1
  {
    if i > passes then b
    else SpiralFrom(f, Merge(b, ScaledPass(f, i, passes)), i + 1, passes)
  }

  /** `makeSpiral`. */
  function MakeSpiral(f: Factory, b: Block): Block
    requires f.stepover != 0.0
  {
    SpiralFrom(f, b, 1, SpiralPasses(f))
  }

  /** Pass `i` is the template at radius `maxTravel * i / passes`; the last
      pass lies exactly at `maxTravel` and is the only one that returns to
      the middle. */
  lemma ScaledPassRadius(f: Factory, i: int, passes: int)
    requires 1 <= i <= passes
    ensures ScaledPass(f, i, passes) == Block(Pass(Scaled(f.maxTravel, Fraction(i, passes)), i == passes, f.ctrl.feedrate))
    ensures 0.0 < Fraction(i, passes) <= 1.0
    ensures |ScaledPass(f, i, passes).commands| == if i == passes then 12 else 10
  {
    UnitQuotient(i as real, passes as real);
    PassScales(f.maxTravel, i == passes, f.ctrl.feedrate, Fraction(i, passes));
  }

  /** The last pass lies exactly at `maxTravel`. */
  lemma LastPassFull(f: Factory, passes: int)
    requires 1 <= passes
    ensures ScaledPass(f, passes, passes) == Block(Pass(f.maxTravel, true, f.ctrl.feedrate))
  {
    SelfQuotient(passes as real);
    assert Uniform(Fraction(passes, passes)) == Uniform(1.0);
    PassScales(f.maxTravel, true, f.ctrl.feedrate, 1.0);
    assert Scaled(f.maxTravel, 1.0) == f.maxTravel;
  }

  lemma SelfQuotient(x: real)
    requires x != 0.0
    ensures x / x == 1.0
  {
  }

  /** The spiral appends ten commands per pass plus the two of the final
      return to the middle, after what the block already held. */
  lemma {:induction false} SpiralLength(f: Factory, b: Block, i: int, passes: int)
    requires 1 <= i <= passes + 1 && passes >= 1
    ensures |SpiralFrom(f, b, i, passes).commands| == |b.commands| + 10 * (passes - i + 1) + (if i <= passes then 2 else 0)
    ensures SpiralFrom(f, b, i, passes).commands[..|b.commands|] == b.commands
    decreases passes - i + 1
  {
    if i <= passes {
      ScaledPassRadius(f, i, passes);
      var b1 := Merge(b, ScaledPass(f, i, passes));
      SpiralLength(f, b1, i + 1, passes);
      var r := SpiralFrom(f, b1, i + 1, passes);
      assert r.commands[..|b.commands|] == r.commands[..|b1.commands|][..|b.commands|];
    }
  }

  /** `build`: per stepdown depth a feed move to that depth followed by the
      spiral; finally a rapid to z 0. */
  function BuildFrom(f: Factory, b: Block, depths: seq<real>): Block
    requires f.stepover != 0.0
    decreases |depths|
  {
    if depths == [] then b
    else
      var b1 := Apply(b, MoveCall(Xyz(None, None, Some(depths[0])), Some(f.ctrl.feedrate)));
      BuildFrom(f, MakeSpiral(f, b1), depths[1..])
  }

  function Build(f: Factory): (b: Block)
    requires f.ctrl.stepdown > 0.0
    requires f.stepover != 0.0
  {
    var b := BuildFrom(f, Empty, Depths(f.ctrl.stepdown, f.bore.depth));
    Apply(b, MoveRapidCall(Xyz(None, None, Some(0.0)), None))
  }

  /** Each depth costs one feed move plus the spiral, and the block ends
      with the rapid to z 0. */
  lemma {:induction false} BuildFromLength(f: Factory, b: Block, depths: seq<real>)
    requires f.stepover != 0.0 && SpiralPasses(f) >= 1
    ensures |BuildFrom(f, b, depths).commands| == |b.commands| + |depths| * (10 * SpiralPasses(f) + 3)
    ensures BuildFrom(f, b, depths).commands[..|b.commands|] == b.commands
    decreases |depths|
  {
    if depths != [] {
      var k := 10 * SpiralPasses(f) + 3;
      var b1 := Apply(b, MoveCall(Xyz(None, None, Some(depths[0])), Some(f.ctrl.feedrate)));
      SpiralLength(f, b1, 1, SpiralPasses(f));
      var b2 := MakeSpiral(f, b1);
      assert |b2.commands| == |b.commands| + k;
      BuildFromLength(f, b2, depths[1..]);
      assert |depths| * k == k + |depths[1..]| * k;
      var r := BuildFrom(f, b2, depths[1..]);
      assert r.commands[..|b.commands|] == r.commands[..|b2.commands|][..|b1.commands|][..|b.commands|];
    }
  }

  /** The built block has (10 * passes + 3) commands per depth plus the
      final rapid, which is a Z-only rapid to 0. */
  lemma BuildShape(f: Factory)
    requires f.ctrl.stepdown > 0.0
    requires f.stepover != 0.0 && SpiralPasses(f) >= 1
    ensures var cs := Build(f).commands;
            |cs| == |Depths(f.ctrl.stepdown, f.bore.depth)| * (10 * SpiralPasses(f) + 3) + 1
            && cs[|cs| - 1] == MoveRapid(MoveArg(None, None, Some(0.0), None))
  {
    BuildFromLength(f, Empty, Depths(f.ctrl.stepdown, f.bore.depth));
  }

  /** A bore that does not go below the surface cuts nothing: the block is
      only the final rapid to z 0. */
  lemma ShallowBuild(f: Factory)
    requires f.ctrl.stepdown > 0.0 && f.stepover != 0.0 && f.bore.depth <= 0.0
    ensures Build(f).commands == [MoveRapid(MoveArg(None, None, Some(0.0), None))]
  {
  }
}
