/** `Block` (`src/lib/block.ts`): an append-only list of commands with
    chained builders, broadcast edits, clone and newline-joined rendering. */
module Blocks {
  import opened Results
  import opened Points
  import opened Enums
  import opened Commands
  import opened Strings

  datatype Block = Block(commands: seq<Command>)

  /** `new Block()`. */
  const Empty: Block := Block([])

  /** `getEstimatedRuntimeSec`: a fixed placeholder estimate. */
  const BlockRuntimeSec: real := 10.0

  /** The `dir` of `arcByRadius`: an angle or `'tangent'`. */
  datatype ArcDirection = Angle(degrees: real) | Tangent

  /** One call of a chained builder method, with its arguments. */
  datatype BuilderCall =
    | SetPlaneCall(plane: Plane)
    | SetAbsolutePositioningCall
    | SetRelativePositioningCall
    | SetUnitsCall(unit: Unit)
    | SetCoordinateSystemCall(system: CoordinateSystem)
    | ChangeToolCall(toolName: string, toolNumber: Option<real>)
    | CommentCall(text: string)
    | StartSpindleCall(dir: Dir, rpm: real)
    | SetLinearFeedrateCall(linearRate: real)
    | SetRapidFeedrateCall(rapidRate: real)
    | MoveRapidCall(rapidTo: Xyz, rapidFeedrate: Option<real>)
    | MoveCall(to: Xyz, feedrate: Option<real>)
    | ArcCall(arc: ArcArg)
    | ArcByRadiusCall(direction: ArcDirection, rotation: Dir, radius: real, angle: real)
    | StopSpindleCall
    | StopCall
    | ProbeCall(probe: string)
    | RawCall(raw: string)
    | EndCall

  /** The command a builder creates; `arcByRadius` creates none. */
  function CommandOf(call: BuilderCall): (c: Option<Command>)
    ensures c.None? <==> call.ArcByRadiusCall?
  {
    match call
    case SetPlaneCall(p) => Some(SetPlane(p))
    case SetAbsolutePositioningCall => Some(AbsolutePositioning)
    case SetRelativePositioningCall => Some(RelativePositioning)
    case SetUnitsCall(u) => Some(SetUnits(u))
    case SetCoordinateSystemCall(cs) => Some(SetCoordinateSystem(cs))
    case ChangeToolCall(name, number) => Some(ChangeTool(name, number))
    case CommentCall(text) => Some(Comment(text))
    case StartSpindleCall(dir, rpm) => Some(StartSpindle(dir, rpm))
    case SetLinearFeedrateCall(rate) => Some(SetLinearFeedrate(rate))
    case SetRapidFeedrateCall(rate) => Some(SetRapidFeedrate(rate))
    case MoveRapidCall(to, feedrate) => Some(MoveRapid(MoveArg(to.x, to.y, to.z, feedrate)))
    case MoveCall(to, feedrate) => Some(Move(MoveArg(to.x, to.y, to.z, feedrate)))
    case ArcCall(arg) => Some(Arc(arg))
    case ArcByRadiusCall(_, _, _, _) => None
    case StopSpindleCall => Some(StopSpindle)
    case StopCall => Some(Stop)
    case ProbeCall(arg) => Some(Probe(arg))
    case RawCall(text) => Some(Raw(text))
    case EndCall => Some(End)
  }

  /** `addCommand`: push at the end. */
  function AddCommand(b: Block, c: Command): (r: Block)
    ensures |r.commands| == |b.commands| + 1
    ensures r.commands[..|b.commands|] == b.commands && r.commands[|b.commands|] == c
  {
    Block(b.commands + [c])
  }

  /** Calling one builder method on `b`. */
  function Apply(b: Block, call: BuilderCall): Block {
    match CommandOf(call)
    case None => b
    case Some(c) => AddCommand(b, c)
  }

  /** A chain of builder calls, left to right. */
  function ApplyAll(b: Block, calls: seq<BuilderCall>): Block
    decreases |calls|
  {
    if calls == [] then b else ApplyAll(Apply(b, calls[0]), calls[1..])
  }

  /** The number of calls in a chain that create a command: every call
      does, except `arcByRadius`. */
  function CommandCount(calls: seq<BuilderCall>): (n: nat)
    ensures n <= |calls|
    ensures n == |calls| <==> forall i :: 0 <= i < |calls| ==> !calls[i].ArcByRadiusCall?
    ensures n == 0 <==> forall i :: 0 <= i < |calls| ==> calls[i].ArcByRadiusCall?
    decreases |calls|
  {
    if calls == [] then 0
    else (if calls[0].ArcByRadiusCall? then 0 else 1) + CommandCount(calls[1..])
  }

  /** Every builder but `arcByRadius` appends exactly its command at the
      end and keeps the earlier ones; `arcByRadius` changes nothing. */
  lemma ApplyAppendsOne(b: Block, call: BuilderCall)
    ensures call.ArcByRadiusCall? ==> Apply(b, call) == b
    ensures !call.ArcByRadiusCall? ==>
              Apply(b, call).commands == b.commands + [CommandOf(call).value]
  {
  }

  /** A chain of builders only appends: the old commands are a prefix and
      one command is added per call that creates one. */
  lemma {:induction false} ApplyAllAppends(b: Block, calls: seq<BuilderCall>)
    ensures |ApplyAll(b, calls).commands| == |b.commands| + CommandCount(calls)
    ensures ApplyAll(b, calls).commands[..|b.commands|] == b.commands
    decreases |calls|
  {
    if calls != [] {
      var b1 := Apply(b, calls[0]);
      ApplyAllAppends(b1, calls[1..]);
      ApplyAppendsOne(b, calls[0]);
      assert b1.commands[..|b.commands|] == b.commands;
      var r := ApplyAll(b1, calls[1..]);
      assert r.commands[..|b.commands|] == r.commands[..|b1.commands|][..|b.commands|];
    }
  }

  /** `move` and `moveRapid` store the target's axes and the feedrate as
      given, without normalising them. */
  lemma MoveStoresTarget(b: Block, to: Xyz, feedrate: Option<real>)
    ensures var m := Apply(b, MoveCall(to, feedrate)).commands[|b.commands|];
            m.Move? && m.move.x == to.x && m.move.y == to.y && m.move.z == to.z
            && m.move.feedrate == feedrate
    ensures var m := Apply(b, MoveRapidCall(to, feedrate)).commands[|b.commands|];
            m.MoveRapid? && m.rapid.x == to.x && m.rapid.y == to.y && m.rapid.z == to.z
            && m.rapid.feedrate == feedrate
  {
  }

  // ---------------------------------------------------------------------
  // Editing
  // ---------------------------------------------------------------------

  /** `editScale` (and the `scale` its callers use): every command gets the
      per-command rule, in place, order and length kept. */
  function EditScale(b: Block, f: Xyz): (r: Block)
    ensures |r.commands| == |b.commands|
    ensures forall i :: 0 <= i < |b.commands| ==> r.commands[i] == Scale(b.commands[i], f)
  {
    Block(seq(|b.commands|, i requires 0 <= i < |b.commands| => Scale(b.commands[i], f)))
  }

  /** `editMoveRelative`. */
  function EditMoveRelative(b: Block, d: Xyz): (r: Block)
    ensures |r.commands| == |b.commands|
    ensures forall i :: 0 <= i < |b.commands| ==> r.commands[i] == MoveRelative(b.commands[i], d)
  {
    Block(seq(|b.commands|, i requires 0 <= i < |b.commands| => MoveRelative(b.commands[i], d)))
  }

  /** `merge` / `addBlock`: the other block's commands, cloned, after this
      block's own. */
  function Merge(a: Block, b: Block): (r: Block)
    ensures |r.commands| == |a.commands| + |b.commands|
    ensures r.commands[..|a.commands|] == a.commands && r.commands[|a.commands|..] == b.commands
  {
    Block(a.commands + seq(|b.commands|, i requires 0 <= i < |b.commands| => Clone(b.commands[i])))
  }

  /** Scaling every command of a merged block is merging the scaled blocks. */
  lemma EditScaleMerge(a: Block, b: Block, f: Xyz)
    ensures EditScale(Merge(a, b), f) == Merge(EditScale(a, f), EditScale(b, f))
  {
    var l, r := EditScale(Merge(a, b), f), Merge(EditScale(a, f), EditScale(b, f));
    assert forall i :: 0 <= i < |a.commands| ==> l.commands[i] == r.commands[i];
    assert forall i :: |a.commands| <= i < |l.commands| ==>
      l.commands[i] == Scale(b.commands[i - |a.commands|], f) == r.commands[i];
  }

  lemma EditMoveRelativeMerge(a: Block, b: Block, d: Xyz)
    ensures EditMoveRelative(Merge(a, b), d) == Merge(EditMoveRelative(a, d), EditMoveRelative(b, d))
  {
    var l, r := EditMoveRelative(Merge(a, b), d), Merge(EditMoveRelative(a, d), EditMoveRelative(b, d));
    assert forall i :: 0 <= i < |a.commands| ==> l.commands[i] == r.commands[i];
    assert forall i :: |a.commands| <= i < |l.commands| ==>
      l.commands[i] == MoveRelative(b.commands[i - |a.commands|], d) == r.commands[i];
  }

  /** Scaling a block by a factor and then by its reciprocal restores it. */
  lemma EditScaleInverse(b: Block, f: Xyz)
    ensures EditScale(EditScale(b, f), Inverse(f)) == b
  {
    var r := EditScale(EditScale(b, f), Inverse(f));
    forall i | 0 <= i < |b.commands|
      ensures r.commands[i] == b.commands[i]
    {
      ScaleInverse(b.commands[i], f);
    }
  }

  // ---------------------------------------------------------------------
  // Clone
  // ---------------------------------------------------------------------

  /** `Block.clone`: a new block of clones of every command; equal in
      value and, values being immutable, independent of the original. */
  function CloneBlock(b: Block): (r: Block)
    ensures r == b
  {
    Block(seq(|b.commands|, i requires 0 <= i < |b.commands| => Clone(b.commands[i])))
  }

  /** `Block.clone` with the command clone as written: it throws as soon as
      the block holds a command with a `void` argument. */
  function CloneBlockAsWritten(b: Block): (r: Result<Block>)
    ensures r.Err? <==> exists i :: 0 <= i < |b.commands| && HasVoidArg(b.commands[i])
    ensures r.Ok? ==> r.value == b
    decreases |b.commands|
  {
    if b.commands == [] then Ok(b)
    else
      var last := b.commands[|b.commands| - 1];
      var prefix := Block(b.commands[..|b.commands| - 1]);
      match CloneBlockAsWritten(prefix)
      case Err(m) => Err(m)
      case Ok(p) =>
        match CloneAsWritten(last)
        case Err(m) => Err(m)
        case Ok(c) => Ok(AddCommand(p, c))
  }

  /** A typical teardown block (`stopSpindle` then `end`) cannot be cloned
      as written, although its corrected clone is just a copy. */
  lemma TeardownCloneThrows()
    ensures CloneBlockAsWritten(ApplyAll(Empty, [StopSpindleCall, EndCall])).Err?
    ensures CloneBlock(ApplyAll(Empty, [StopSpindleCall, EndCall])) == Block([StopSpindle, End])
  {
    var b := ApplyAll(Empty, [StopSpindleCall, EndCall]);
    assert b.commands == [StopSpindle, End];
    assert HasVoidArg(b.commands[1]);
  }

  // ---------------------------------------------------------------------
  // Rendering
  // ---------------------------------------------------------------------

  /** Every command rendered, or the first error. */
  function RenderAll(cs: seq<Command>, precision: nat, fmt: Fmt): (r: Result<seq<string>>)
    ensures r.Ok? ==> |r.value| == |cs|
  {
    if cs == [] then Ok([])
    else
      match Render(cs[0], precision, fmt)
      case Err(m) => Err(m)
      case Ok(line) =>
        match RenderAll(cs[1..], precision, fmt)
        case Err(m) => Err(m)
        case Ok(rest) => Ok([line] + rest)
  }

  /** Rendering a list succeeds iff every command renders, and then the
      i-th line is the i-th command's rendering. */
  lemma {:induction false} RenderAllLines(cs: seq<Command>, precision: nat, fmt: Fmt)
    ensures RenderAll(cs, precision, fmt).Ok?
        <==> forall i :: 0 <= i < |cs| ==> Render(cs[i], precision, fmt).Ok?
    ensures RenderAll(cs, precision, fmt).Ok? ==>
              forall i :: 0 <= i < |cs| ==> RenderAll(cs, precision, fmt).value[i] == Render(cs[i], precision, fmt).value
  {
    if cs != [] {
      RenderAllLines(cs[1..], precision, fmt);
      assert forall i :: 1 <= i < |cs| ==> cs[i] == cs[1..][i - 1];
      if !Render(cs[0], precision, fmt).Ok? {
      } else if !RenderAll(cs[1..], precision, fmt).Ok? {
        var i :| 0 <= i < |cs| - 1 && !Render(cs[1..][i], precision, fmt).Ok?;
        assert !Render(cs[i + 1], precision, fmt).Ok?;
      }
    }
  }

  /** `Block.toString(precision)`: the commands' renderings in insertion
      order, joined by a newline. */
  function ToString(b: Block, precision: nat, fmt: Fmt): (r: Result<string>)
    ensures r.Ok? <==> forall i :: 0 <= i < |b.commands| ==> Render(b.commands[i], precision, fmt).Ok?
    ensures b.commands == [] ==> r == Ok("")
  {
    RenderAllLines(b.commands, precision, fmt);
    match RenderAll(b.commands, precision, fmt)
    case Err(m) => Err(m)
    case Ok(lines) => Ok(Join(lines, "\n"))
  }

  /** Rendering a concatenation renders each part, in order. */
  lemma {:induction false} RenderAllAppend(a: seq<Command>, b: seq<Command>, precision: nat, fmt: Fmt)
    requires RenderAll(a, precision, fmt).Ok? && RenderAll(b, precision, fmt).Ok?
    ensures RenderAll(a + b, precision, fmt).Ok?
    ensures RenderAll(a + b, precision, fmt).value
         == RenderAll(a, precision, fmt).value + RenderAll(b, precision, fmt).value
    decreases |a|
  {
    if a == [] {
      assert a + b == b;
    } else {
      assert (a + b)[0] == a[0] && (a + b)[1..] == a[1..] + b;
      var line := Render(a[0], precision, fmt).value;
      RenderAllAppend(a[1..], b, precision, fmt);
      assert RenderAll(a, precision, fmt).value == [line] + RenderAll(a[1..], precision, fmt).value;
      assert RenderAll(a + b, precision, fmt).value == [line] + RenderAll(a[1..] + b, precision, fmt).value;
    }
  }

  /** Rendering a merged block is rendering both blocks and joining the
      two texts with one newline. */
  lemma ToStringMerge(a: Block, b: Block, precision: nat, fmt: Fmt)
    requires a.commands != [] && b.commands != []
    requires ToString(a, precision, fmt).Ok? && ToString(b, precision, fmt).Ok?
    ensures ToString(Merge(a, b), precision, fmt).Ok?
    ensures ToString(Merge(a, b), precision, fmt).value
         == ToString(a, precision, fmt).value + "\n" + ToString(b, precision, fmt).value
  {
    assert Merge(a, b).commands == a.commands + b.commands;
    RenderAllAppend(a.commands, b.commands, precision, fmt);
    JoinAppend(RenderAll(a.commands, precision, fmt).value, RenderAll(b.commands, precision, fmt).value, "\n");
  }

  /** `setUnits(INCHES)` then `setPlane(XY)` renders "G20\nG17". */
  lemma UnitsThenPlaneExample(fmt: Fmt)
    ensures ToString(ApplyAll(Empty, [SetUnitsCall(Inches), SetPlaneCall(XY)]), DefaultPrecision, fmt)
         == Ok("G20\nG17")
  {
    var b := ApplyAll(Empty, [SetUnitsCall(Inches), SetPlaneCall(XY)]);
    assert b.commands == [SetUnits(Inches), SetPlane(XY)];
    assert b.commands[1..] == [SetPlane(XY)];
    assert [SetPlane(XY)][1..] == [];
    assert RenderAll([], DefaultPrecision, fmt) == Ok([]);
    var tail := RenderAll([SetPlane(XY)], DefaultPrecision, fmt);
    assert Render(SetPlane(XY), DefaultPrecision, fmt) == Ok("G17");
    assert tail.Ok? && tail.value == ["G17"];
    assert Render(SetUnits(Inches), DefaultPrecision, fmt) == Ok("G20");
    var all := RenderAll(b.commands, DefaultPrecision, fmt);
    assert all.Ok? && all.value == ["G20", "G17"];
    assert Join(["G20", "G17"], "\n") == "G20\nG17";
  }

  /** `changeTool('Drill')` renders the tool-change comment and `M6`, with
      no tool word since no number was given. */
  lemma ChangeToolExample(fmt: Fmt)
    ensures ToString(ApplyAll(Empty, [ChangeToolCall("Drill", None)]), DefaultPrecision, fmt)
         == Ok("(Tool change: Drill)\nM6")
  {
    var b := ApplyAll(Empty, [ChangeToolCall("Drill", None)]);
    assert b.commands == [ChangeTool("Drill", None)];
    assert "(Tool change: " + "Drill" + ")\nM6" + "" == "(Tool change: Drill)\nM6";
    assert Render(ChangeTool("Drill", None), DefaultPrecision, fmt) == Ok("(Tool change: Drill)\nM6");
    assert b.commands[1..] == [];
    assert RenderAll([], DefaultPrecision, fmt) == Ok([]);
    var all := RenderAll(b.commands, DefaultPrecision, fmt);
    assert all.Ok? && all.value == ["(Tool change: Drill)\nM6"];
  }
}
