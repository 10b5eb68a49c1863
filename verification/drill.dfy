/** `DrillFactory` (`src/factory/drill.ts`): peck drilling down the
    stepdown depths, retracting to z 0 after each peck. */
module Drill {
  import opened Results
  import opened Commands
  import opened Blocks
  import opened Tooling
  import opened Stepdown

  /** The default `safeHeight` of the factory. */
  const DefaultSafeHeight: real := 2.0

  /** A move of the Z axis alone. */
  function ZMove(z: real, feedrate: Option<real>): MoveArg {
    MoveArg(None, None, Some(z), feedrate)
  }

  /** The commands emitted for the depth at index `i` of `n`. */
  predicate PeckAt(cs: seq<Command>, i: nat, n: nat, depth: real, feedrate: real, safeHeight: real)
    requires i < n && |cs| == 3 * n - 1
  {
    cs[3 * i] == Move(ZMove(depth, Some(feedrate)))
    && cs[3 * i + 1] == MoveRapid(ZMove(0.0, None))
    && (i < n - 1 ==> cs[3 * i + 2] == MoveRapid(ZMove(depth + safeHeight, None)))
  }

  /** The commands of one peck: a feed move to the depth, a rapid to z 0,
      and unless it is the last peck a rapid to the depth plus `safeHeight`. */
  function Peck(depth: real, feedrate: real, safeHeight: real, last: bool): (cs: seq<Command>)
    ensures |cs| == if last then 2 else 3
  {
    [Move(ZMove(depth, Some(feedrate))), MoveRapid(ZMove(0.0, None))]
    + if last then [] else [MoveRapid(ZMove(depth + safeHeight, None))]
  }

  /** One iteration of the loop of `build`. */
  method AddPeck(b0: Block, depth: real, feedrate: real, safeHeight: real, last: bool) returns (b: Block)
    ensures b.commands == b0.commands + Peck(depth, feedrate, safeHeight, last)
  {
    b := Apply(b0, MoveCall(Xyz(None, None, Some(depth)), Some(feedrate)));
    b := Apply(b, MoveRapidCall(Xyz(None, None, Some(0.0)), None));
    if !last {
      b := Apply(b, MoveRapidCall(Xyz(None, None, Some(depth + safeHeight)), None));
    }
  }

  /** Only Z moves. */
  predicate ZOnly(c: Command) {
    (c.Move? && c.move.x.None? && c.move.y.None?)
    || (c.MoveRapid? && c.rapid.x.None? && c.rapid.y.None?)
  }

  /** The loop of `build` over given depths: per depth a feed move to the
      depth and a rapid to z 0, and between depths a rapid to the depth plus
      `safeHeight`. */
  method Pecks(depths: seq<real>, feedrate: real, safeHeight: real) returns (b: Block)
    ensures depths == [] ==> b.commands == []
    ensures depths != [] ==> |b.commands| == 3 * |depths| - 1
    ensures depths != [] ==> forall i :: 0 <= i < |depths| ==>
              PeckAt(b.commands, i, |depths|, depths[i], feedrate, safeHeight)
    ensures depths != [] ==> b.commands[|b.commands| - 1] == MoveRapid(ZMove(0.0, None))
    ensures forall i :: 0 <= i < |b.commands| ==> ZOnly(b.commands[i])
  {
    b := Empty;
    var i := 0;
    while i < |depths|
      invariant 0 <= i <= |depths|
      invariant |b.commands| == if i == 0 then 0 else 3 * i - 1 + (if i < |depths| then 1 else 0)
      invariant forall k :: 0 <= k < i ==>
                  b.commands[3 * k] == Move(ZMove(depths[k], Some(feedrate)))
                  && b.commands[3 * k + 1] == MoveRapid(ZMove(0.0, None))
                  && (k < |depths| - 1 ==> b.commands[3 * k + 2] == MoveRapid(ZMove(depths[k] + safeHeight, None)))
      invariant forall k :: 0 <= k < |b.commands| ==> ZOnly(b.commands[k])
      invariant i == |depths| && i > 0 ==> b.commands[|b.commands| - 1] == MoveRapid(ZMove(0.0, None))
    {
      var b0 := b;
      b := AddPeck(b, depths[i], feedrate, safeHeight, i == |depths| - 1);
      assert forall k :: 0 <= k < |b0.commands| ==> b.commands[k] == b0.commands[k];
      i := i + 1;
    }
  }

  /** `DrillFactory.build`: the pecks over the stepdown depths of the hole;
      nothing for a hole that does not go below the surface. */
  method Build(holeDepth: real, ctrl: ToolController, safeHeight: real := DefaultSafeHeight) returns (b: Block)
    requires ctrl.stepdown > 0.0
    ensures holeDepth <= 0.0 ==> b.commands == []
    ensures var n := |Depths(ctrl.stepdown, holeDepth)|;
            n == 0 ==> b.commands == []
    ensures var ds := Depths(ctrl.stepdown, holeDepth);
            ds != [] ==> |b.commands| == 3 * |ds| - 1
                         && (forall i :: 0 <= i < |ds| ==>
                               PeckAt(b.commands, i, |ds|, ds[i], ctrl.feedrate, safeHeight))
                         && b.commands[|b.commands| - 1] == MoveRapid(ZMove(0.0, None))
  {
    var depths := StepdownDepths(ctrl.stepdown, holeDepth);
    b := Pecks(depths, ctrl.feedrate, safeHeight);
  }
}
