# g-code-builder core, modelled in Dafny

g-code-builder turns machining intents into G-code. It covers a bore, a drill peck, and the "fish" and "romb" front engravings. This project models the core that does that work:

- **Instruction model.** Commands are values that can be scaled, moved and cloned, and rendered with a fixed precision. A `Block` is an append-only list of commands with broadcast edits, clone, merge and newline-joined rendering. A `Program` is an ordered list of blocks.
- **Geometry.** Points, infinite-line intersection by the 2×2 determinant, and line/circle intersection by the quadratic formula.
- **Bounded block.** A block that rejects any move leaving the rectangle `[-width, 0] × [-height, 0]`. It also reports where the travel line crosses the rectangle's edge.
- **Pattern generators:**
  - stepdown partitioning (`getStepdownDepths`);
  - the drill peck (`DrillFactory.build`);
  - the spiral bore (`BoreFactory`);
  - the fish-scale engraving (both revisions);
  - the romb zig-zag engraving (both revisions).
- **`base.py`.** A standalone re-parser for G-code lines. It splits a program into blocks at operation markers, parses every line into a code plus letter arguments, scales only X/Y/I/J/K, and renders the result again.

Modules follow the source files:

| Dafny module | Source file |
|---|---|
| `Results` | JS `throw` / Python exceptions, modelled as `Result` |
| `Enums` | `enums.ts` |
| `Points` | `point.ts` |
| `Lines` | `line.ts` |
| `Circles` | `circle.ts` |
| `Commands` | `command.ts` |
| `Blocks` | `block.ts` |
| `Programs` | `program.ts` |
| `Bounded` | `bounded-block.ts` |
| `Tooling` | `job/types.ts` |
| `Stepdown` | `job/helpers.ts` |
| `Drill` | `factory/drill.ts` |
| `Bore` | `factory/bore.ts` |
| `Fish` | both fish revisions |
| `Walks`, `Romb` | both romb revisions |
| `Rescale` | `base.py` |

`Strings` holds `Join` and `StartsWith`. `Toolpath` follows the tool's XY position through a command list in absolute positioning. It checks the centre-format arc rule of the NIST RS274NGC interpreter, version 3, section 3.5.3: an arc's start and end lie on one circle around start + (I, J).

How the source's runtime behaviour is represented:

- Numbers are mathematical reals.
- JavaScript truthiness of an optional number (`if (v)` / `v || w`) is `Truthy`: present and non-zero.
- `throw` is the `Err` case of a `Result`.
- `Math.sqrt` is a parameter `sqrt` constrained by `IsSqrt`.
- `toFixed` and `String(number)` live in a formatter record `Fmt` that is left abstract.
- In `base.py`, `float()` and `'%.3f'` are the parameters `parse` and `fixed3`.

Where the source's tests and the code disagree, the model follows the code:

- `Line.getLineIntersection` intersects infinite lines (`src/lib/line.ts:29-32`). It does not clamp to the segments. For a segment that only crosses the base's extension, or that merely starts on it, it returns a point, although `src/lib/line.test.ts:54-71` expects none. `Lines.NotClampedToSegments` and `Lines.StartingOnBaseExample` state what the code returns.
- The circle test is not clamped to the segment either (`Circles.NotClampedToSegment`).
- The determinant is compared with exactly zero, not with an epsilon.

## Model

| member | source | states |
|---|---|---|
| Points.IsEqualReflexive | src/lib/point.ts:13-15 | every point equals itself |
| Points.IsEqualSymmetric | src/lib/point.ts:13-15 | `isEqual` does not depend on argument order |
| Points.IsEqualIsIdentity | src/lib/point.ts:13-15 | `isEqual` holds exactly when the two points are the same value |
| Points.IsEqual | src/lib/point.ts:13-15 | `isEqual` compares both coordinates; its meaning is stated by `Points.IsEqualIsIdentity`, `Points.IsEqualReflexive` and `Points.IsEqualSymmetric` |
| Points.DistanceNonNegative | src/lib/point.ts:7-11 | `distanceTo` is never negative |
| Points.DistanceSymmetric | src/lib/point.ts:7-11 | the distance from p to q is the distance from q to p |
| Points.DistanceSqSign | src/lib/point.ts:7-15 | the squared distance is zero for equal points and positive otherwise |
| Points.DistanceZeroIffEqual | src/lib/point.ts:7-15 | the distance is zero exactly when `isEqual` holds |
| Points.DistanceOrder | src/lib/point.ts:7-11 | comparing distances is the same as comparing squared distances, which is why the bounded block may compare squares |
| Points.Distance | src/lib/point.ts:7-11 | `distanceTo` is the root of the squared coordinate differences; its properties are stated by `Points.DistanceNonNegative`, `Points.DistanceSymmetric`, `Points.DistanceZeroIffEqual` and `Points.DistanceOrder` |
| Lines.Intersection | src/lib/line.ts:9-33 | there is no point exactly when the determinant is zero; a returned point lies on both lines |
| Lines.Cramer | src/lib/line.ts:29-32 | the two quotients solve both line equations |
| Lines.CramerUnique | src/lib/line.ts:23-32 | when the determinant is non-zero, any solution of both equations is that point |
| Lines.EndpointsOnLine | src/lib/line.ts:14-21 | the coefficients a, b, c describe a line through both end points |
| Lines.IntersectionUnique | src/lib/line.ts:9-33 | for non-parallel lines, a point on both lines is the returned point |
| Lines.IntersectionSymmetric | src/lib/line.ts:9-33 | swapping the two lines gives the same result |
| Lines.ParallelLinesDoNotMeet | src/lib/line.ts:23-27 | a line and any translate of it never yield a point |
| Lines.CrossingDiagonalExample | src/lib/line.test.ts:36-46 | the base and the diagonal meet at the origin |
| Lines.NotClampedToSegments | src/lib/line.ts:29-32 | a vertical segment left of the base still yields its point on the base's extension |
| Lines.StartingOnBaseExample | src/lib/line.test.ts:63-71 | a segment that starts on the base yields its start point |
| Circles.FindLineIntersections | src/lib/circle.ts:10-53 | no first point exactly for a degenerate line or a negative discriminant; a second point exactly for a positive discriminant; every point lies on the line |
| Circles.DistanceIsQuadratic | src/lib/circle.ts:16-25 | the coefficients a, b, c give the squared distance minus r² along the line's parametrisation |
| Circles.RootOnCircle | src/lib/circle.ts:38-52 | both roots of the quadratic lie at distance r from the centre |
| Circles.HitsOnCircle | src/lib/circle.ts:10-53 | every returned point lies on the circle |
| Circles.TwoHitsDistinct | src/lib/circle.ts:38-52 | with a positive discriminant the two points differ |
| Circles.HitsRootOrder | src/lib/circle.ts:38-52 | with a positive discriminant `a` is the point of the larger root (+√) and `b` that of the smaller (−√): both lie on the line at parameters t1 > t2 |
| Circles.NotClampedToSegment | src/lib/circle.ts:38-52 | a segment that lies wholly outside the unit circle still yields both points of its line |
| Commands.ScaleAxis | src/lib/command.ts:163-167 | an axis is multiplied only when both it and the factor are present and non-zero; otherwise it is kept; presence and zero-ness never change |
| Commands.ShiftAxis | src/lib/command.ts:169-173 | an axis is offset only when both it and the offset are present and non-zero; presence never changes |
| Commands.ScaleMove | src/lib/command.ts:163-167 | each axis is scaled on its own; the feedrate is untouched |
| Commands.ShiftMove | src/lib/command.ts:169-173 | each axis is offset on its own; the feedrate is untouched |
| Commands.ArcFactor | src/lib/command.ts:214-223 | an arc uses the factor when it is truthy and 1 otherwise, so the factor is never zero |
| Commands.ScaleArc | src/lib/command.ts:214-223 | end and centre offset are multiplied by the same per-axis factor; direction and feedrate are kept |
| Commands.ArcOffset | src/lib/command.ts:225-228 | a missing or zero offset moves nothing |
| Commands.ShiftArc | src/lib/command.ts:225-228 | only the end point moves; the relative centre offset I/J is kept |
| Commands.Scale | src/lib/command.ts:36-39 | the variant is kept; moves, rapids and arcs scale as above; every other command is unchanged |
| Commands.MoveRelative | src/lib/command.ts:36-39 | the variant is kept; moves, rapids and arcs move as above; every other command is unchanged |
| Commands.ScaleAxisInverse | src/lib/command.ts:163-167 | scaling an axis by f and then by 1/f restores it |
| Commands.ScaleMoveInverse | src/lib/command.ts:163-167 | scaling a move by f and then by 1/f restores it |
| Commands.ScaleArcInverse | src/lib/command.ts:214-223 | scaling an arc by f and then by 1/f restores it |
| Commands.ScaleInverse | src/lib/command.ts:163-223 | scaling any command by f and then by 1/f restores it |
| Commands.ZeroCoordinateIsFixed | src/lib/command.ts:163-173 | an axis written as 0 is neither scaled nor moved, because 0 is falsy |
| Commands.ShiftArcInverse | src/lib/command.ts:225-228 | moving an arc by d and then by −d restores it |
| Commands.ShiftMoveInverse | src/lib/command.ts:169-173 | moving by d and then by −d restores a move, unless an axis lands on 0 |
| Commands.ShiftMoveLosesCoordinate | src/lib/command.ts:169-173 | X1 moved by −1 becomes X0 and then stays X0: a move is not always invertible |
| Commands.EditsIgnoreSettings | src/lib/command.ts:36-39 | non-motion commands are fixed points of scale and moveRelative |
| Commands.CloneAsWritten | src/lib/command.ts:25-33 | the JSON clone fails exactly for the commands without an argument and otherwise returns an equal command |
| Commands.Clone | src/lib/command.ts:25-33 | the clone is an equal command, and agrees with the JSON clone wherever that one succeeds |
| Commands.CloneOfEndThrows | src/lib/command.ts:25-33 | cloning `End` throws as written |
| Commands.WrittenFeedrate | src/lib/command.ts:187-190 | an F word is written exactly when the feedrate is truthy |
| Commands.MoveWordsRoundTrip | src/lib/command.ts:179-193 | reading back the X/Y/Z/F words of a move gives its axes; the feedrate survives exactly when it is not 0 |
| Commands.MoveWordsOrdered | src/lib/command.ts:179-193 | the move words appear in the order X, Y, Z, F |
| Commands.MoveWordsInjective | src/lib/command.ts:179-193 | two moves without a zero feedrate that render the same words are equal |
| Commands.ArcWordsRoundTrip | src/lib/command.ts:230-243 | reading back the arc words gives its end, centre offset and written feedrate |
| Commands.ArcWordsLetters | src/lib/command.ts:230-243 | an arc always writes X Y I J, plus F when the feedrate is truthy |
| Commands.Render | src/lib/command.ts:175-200 | rendering fails exactly for a move with no axis, or a command whose text is not modelled; moves render as G1, rapids as G0, arcs as G2/G3, each followed by their words |
| Commands.RenderMotion | src/lib/command.ts:179-185 | a motion throws exactly when X, Y and Z are all missing, with the source's message |
| Commands.MnemonicsDistinct | src/lib/command.ts:49-135 | different planes, units, spindle directions and arc directions get different codes |
| Commands.ToolNumberOnlyWhenNonZero | src/lib/command.ts:105-114 | a tool change renders the comment then M6, and adds a T word exactly when the number is truthy |
| Blocks.CommandOf | src/lib/block.ts:34-128 | every builder call but `arcByRadius` creates a command |
| Blocks.AddCommand | src/lib/block.ts:157-160 | one command is appended and the existing ones are kept |
| Blocks.CommandCount | src/lib/block.ts:34-128 | a run of builder calls adds at most one command per call; it adds one per call exactly when no call is `arcByRadius`, and none exactly when every call is |
| Blocks.ApplyAppendsOne | src/lib/block.ts:34-128 | a builder call appends exactly its command; `arcByRadius` leaves the block alone |
| Blocks.ApplyAllAppends | src/lib/block.ts:34-160 | a run of builder calls keeps the existing commands and appends one per call that creates a command |
| Blocks.Apply | src/lib/block.ts:34-128 | one builder call; what it does to the block is stated by `Blocks.ApplyAppendsOne` |
| Blocks.ApplyAll | src/lib/block.ts:34-128 | a chain of builder calls, left to right; what it does is stated by `Blocks.ApplyAllAppends` |
| Blocks.MoveStoresTarget | src/lib/block.ts:74-80 | `move` and `moveRapid` store the target axes and feedrate as given |
| Blocks.EditScale | src/lib/block.ts:134-138 | every command is scaled and none is added or dropped |
| Blocks.EditMoveRelative | src/lib/block.ts:141-145 | every command is moved and none is added or dropped |
| Blocks.Merge | src/lib/block.ts:147-160 | the other block's commands follow this block's, in order |
| Blocks.EditScaleMerge | src/lib/block.ts:134-138 | scaling a merged block is merging the scaled blocks |
| Blocks.EditMoveRelativeMerge | src/lib/block.ts:141-145 | moving a merged block is merging the moved blocks |
| Blocks.EditScaleInverse | src/lib/block.ts:134-138 | scaling a block by f and then by 1/f restores it |
| Blocks.CloneBlock | src/lib/block.ts:147-155 | the clone equals the block |
| Blocks.CloneBlockAsWritten | src/lib/block.ts:147-155 | the clone as written fails exactly when some command has no argument; otherwise it equals the block |
| Blocks.TeardownCloneThrows | src/lib/block.ts:147-155 | a block built by `stopSpindle().end()` cannot be cloned as written |
| Blocks.RenderAll | src/lib/block.ts:167-171 | rendering yields one line per command |
| Blocks.RenderAllLines | src/lib/block.ts:167-171 | rendering succeeds exactly when every command renders, and line i is command i's text |
| Blocks.ToString | src/lib/block.ts:167-171 | a block's text exists exactly when every command renders; an empty block renders as the empty string |
| Blocks.RenderAllAppend | src/lib/block.ts:167-171 | the lines of two command lists are the lines of each, concatenated |
| Blocks.ToStringMerge | src/lib/block.ts:167-171 | a merged block's text is the two texts joined by a newline |
| Blocks.UnitsThenPlaneExample | src/lib/block.test.ts:46-50 | inches then the XY plane renders as `G20\nG17` |
| Blocks.ChangeToolExample | src/lib/command.ts:105-114 | a tool change with no number renders the comment then `M6` |
| Programs.AddBlock | src/lib/program.ts:10-13 | one block is appended and the earlier ones are kept |
| Programs.RenderBlocks | src/lib/program.ts:15-19 | rendering yields one text per block |
| Programs.RenderBlocksTexts | src/lib/program.ts:15-19 | rendering succeeds exactly when every block renders, and text i is block i's text |
| Programs.RenderBlocksAppend | src/lib/program.ts:15-19 | the texts of two block lists are the texts of each, concatenated |
| Programs.ToString | src/lib/program.ts:15-19 | a program's text exists exactly when every block renders |
| Programs.ToStringAddBlock | src/lib/program.ts:10-19 | adding a block appends a newline and that block's text |
| Programs.RuntimeIsPerBlock | src/lib/program.ts:21-25 | the estimated runtime is the per-block constant times the number of blocks |
| Programs.RuntimeAddBlock | src/lib/program.ts:21-25 | adding a block adds the per-block constant |
| Programs.Runtime | src/lib/program.ts:21-25 | `getEstimatedRuntimeSec` sums the per-block estimate; stated by `Programs.RuntimeIsPerBlock` and `Programs.RuntimeAddBlock` |
| Programs.FreshProgramIsEmpty | src/lib/program.ts:6-25 | a new program renders as the empty string and takes no time |
| Bounded.New | src/lib/bounded-block.ts:18-46 | a new bounded block is empty and at the origin, which lies inside exactly when both dimensions are non-negative |
| Bounded.EdgeLines | src/lib/bounded-block.ts:27-45 | the four edge lines are exactly x = 0, x = −width, y = 0 and y = −height |
| Bounded.OutOfBoundPosition | src/lib/bounded-block.ts:48-83 | no crossing exactly when the target is inside; otherwise the crossing with an X edge or a Y edge; the "what" error only when neither exists |
| Bounded.NearestCrossingWins | src/lib/bounded-block.ts:71-75 | with an X and a Y crossing, the one nearer the current position is returned, and the X crossing on a tie |
| Bounded.CheckMove | src/lib/bounded-block.ts:101-112 | a move is left uncorrected exactly when its target is inside, and then keeps its target; it errs exactly when the crossing search does; a corrected move returns exactly the crossing `getOutOfBoundPosition` found |
| Bounded.NewPosition | src/lib/bounded-block.ts:123-128 | the new position takes each given axis and keeps each missing one |
| Bounded.NewPositionIdempotent | src/lib/bounded-block.ts:123-135 | applying the same target twice changes nothing more |
| Bounded.UpdatePosition | src/lib/bounded-block.ts:131-135 | only the position changes |
| Bounded.Step | src/lib/bounded-block.ts:86-121 | a move succeeds exactly when the new position is inside; it then appends the move and updates the position; otherwise it throws, and the message is "Moved out of bounds" whenever the travel line crosses the edge |
| Bounded.Move | src/lib/bounded-block.ts:86-91 | `move` succeeds exactly when the new position is inside, and then appends a G1 to the target |
| Bounded.MoveRapid | src/lib/bounded-block.ts:94-99 | `moveRapid` succeeds exactly when the new position is inside, and then appends a G0 to the target |
| Bounded.RunStaysInside | src/lib/bounded-block.ts:86-121 | after any run of successful moves the position is still inside and there is one command per move |
| Bounded.RightBreach | src/lib/bounded-block.ts:55-57 | leaving through x = 0 reports the travel line's point on x = 0, within the travel |
| Bounded.LeftBreach | src/lib/bounded-block.ts:58-60 | leaving through x = −width reports the travel line's point on that edge |
| Bounded.TopBreach | src/lib/bounded-block.ts:63-65 | leaving through y = 0 reports the travel line's point on y = 0 |
| Bounded.BottomBreach | src/lib/bounded-block.ts:66-68 | leaving through y = −height reports the travel line's point on that edge |
| Bounded.WhatUnreachable | src/lib/bounded-block.ts:76-80 | from inside a proper rectangle the "what" error never happens |
| Stepdown.Passes | src/job/helpers.ts:7 | at least one pass for a positive depth, none for depth 0, and zero or a negative count for a depth above the surface |
| Stepdown.PerPass | src/job/helpers.ts:8 | each pass is positive, at most the stepdown, and the passes add up to the final depth |
| Stepdown.Depths | src/job/helpers.ts:10-16 | there is one depth per pass for a positive depth, and none for a depth of 0 or above the surface |
| Stepdown.StepdownDepths | src/job/helpers.ts:3-17 | the loop produces exactly the depth list `Depths`, which is empty when the final depth is not below the surface |
| Stepdown.NoPassAboveSurface | src/job/helpers.ts:7-14 | for a depth above the surface with a non-zero pass count, the pass depth is positive and the first depth already fails the loop test |
| Stepdown.PerPassBound | src/job/helpers.ts:7-8 | with at least depth/stepdown passes, a pass is no deeper than the stepdown |
| Stepdown.LastIsFinal | src/job/helpers.ts:12-14 | the last depth is exactly the final depth |
| Stepdown.EqualSteps | src/job/helpers.ts:7-14 | the first depth is one pass down and consecutive depths differ by exactly one pass |
| Stepdown.DepthsInRange | src/job/helpers.ts:12-14 | depths strictly descend and stay within [−final, 0) |
| Stepdown.TwoPassExample | src/lib/helpers.test.ts:23-31 | stepdown 10 to depth 20 gives −10, −20 |
| Stepdown.ShallowExample | src/lib/helpers.test.ts:33-37 | stepdown 10 to depth 5 gives one pass at −5 |
| Stepdown.FractionExample | src/lib/helpers.test.ts:39-43 | stepdown 5 to depth 1.5 gives one pass at −1.5 |
| Drill.Pecks | src/factory/drill.ts:19-31 | each depth is plunged to, then retracted to 0, then re-approached to depth + safe height (except after the last); only Z moves; it ends at Z0 |
| Drill.Build | src/factory/drill.ts:12-34 | the peck sequence over the stepdown depths of the hole, with 3n−1 commands, and no command for a hole that does not go below the surface; the safe height defaults to 2 |
| Bore.NewFactory | src/factory/bore.ts:17-26 | the radii are half the diameters, the maximum travel is their difference, and the stepover defaults to the tool diameter when unset or 0 |
| Bore.Pass | src/factory/bore.ts:48-84 | a pass has ten commands, and twelve on the last pass |
| Bore.CommandScales | src/factory/bore.ts:86-87 | scaling a pass command by a non-zero s gives the command of the pass with radius r·s |
| Bore.PassScales | src/factory/bore.ts:86-87 | scaling a whole pass by s is the pass of radius r·s |
| Bore.PassTrack | src/factory/bore.ts:48-84 | from wherever the tool is, a pass goes to the top of its circle, every arc ends on the circle it starts on, the four arcs close the circle at the top, and the last pass returns to the middle |
| Bore.PassArcsCentred | src/factory/bore.ts:48-78 | from wherever the tool is, every quarter arc starts where the previous command left the tool, has its centre (start + I/J) at the bore centre, and ends on the circle of radius r |
| Bore.ScaledPassRadius | src/factory/bore.ts:43-88 | pass i of n is the pass of radius maxTravel·i/n, with 0 < i/n ≤ 1 |
| Bore.LastPassFull | src/factory/bore.ts:80-87 | the last pass is at the full travel and returns to the middle |
| Bore.SpiralLength | src/factory/bore.ts:42-92 | the spiral keeps the block's commands and adds ten per pass, plus two for the last |
| Bore.BuildFromLength | src/factory/bore.ts:32-35 | each depth adds a plunge and one spiral |
| Bore.BuildShape | src/factory/bore.ts:28-40 | the bore has (10·passes + 3) commands per depth plus the final rapid to Z0 |
| Bore.ShallowBuild | src/factory/bore.ts:28-40 | a bore that does not go below the surface is only the final rapid to Z0 |
| Bore.Build | src/factory/bore.ts:28-40 | `build`; its shape is stated by `Bore.BuildShape`, `Bore.BuildFromLength` and `Bore.ShallowBuild` |
| Bore.MakeSpiral | src/factory/bore.ts:42-92 | `makeSpiral`; its passes are stated by `Bore.SpiralLength`, `Bore.ScaledPassRadius`, `Bore.LastPassFull`, `Bore.PassTrack` and `Bore.PassArcsCentred` |
| Fish.PatternSize | src/job/front/front-engrave/fish.ts:133-164 | horizontal fit: width/count wide tiles, count columns, floor(2·height/size) rows; vertical fit: the transposed statement; any other fit throws |
| Fish.PatternBlock | src/job/front/front-engrave/fish.ts:28-131 | the nested row/column loops produce exactly the setup comment followed by every cell, row by row |
| Fish.AddRow | src/job/front/front-engrave/fish.ts:48-127 | the column loop appends the row's cells in order |
| Fish.PartsPatternBlock | src/job/front-engrave/fish.ts:20-126 | the earlier revision, which builds a part per cell and adds it, yields the same commands |
| Fish.MergeRow | src/job/front-engrave/fish.ts:39-122 | appending part blocks per cell appends the same row |
| Fish.GetPatternBlock | src/job/front/front-engrave/fish.ts:28-40 | the pattern is built exactly when the fit is supported, and from its size |
| Fish.OpeningTrack | src/job/front/front-engrave/fish.ts:52-58 | the position comment and the slow plunge do not move in XY |
| Fish.HalfArcTrack | src/job/front/front-engrave/fish.ts:60-92 | the starting half arc of an offset row is a true arc that ends where the full arcs start |
| Fish.FullArcTrack | src/job/front/front-engrave/fish.ts:94-109 | each full arc is a true arc from one scale's start to the next |
| Fish.RowEndTrack | src/job/front/front-engrave/fish.ts:111-126 | the row end goes to the next row's start, or to the origin after the last row |
| Fish.CellTrack | src/job/front/front-engrave/fish.ts:48-127 | every cell is arc-consistent and ends where the next cell starts |
| Fish.RowTrack | src/job/front/front-engrave/fish.ts:48-127 | a row of cells is arc-consistent and ends at its last cell's end |
| Fish.GridTrack | src/job/front/front-engrave/fish.ts:42-128 | rows started at the origin are arc-consistent and chain one after another |
| Fish.PatternTrack | src/job/front/front-engrave/fish.ts:28-131 | every arc of the pattern is well formed, and a pattern with columns returns to the origin |
| Fish.EmptyGrid | src/job/front/front-engrave/fish.ts:42-48 | no rows or no columns give no cells |
| Walks.AcrossStep | src/job/front/front-engrave/romb.ts:111 | the step across is positive |
| Walks.WalkAdvances | src/job/front/front-engrave/romb.ts:98-123 | every point advances over the one before it, so the walk never revisits a point |
| Walks.WalkRange | src/job/front/front-engrave/romb.ts:98-123 | the walk never goes back on either axis, and never passes the along bound |
| Walks.CrossStepsBelow | src/job/front/front-engrave/romb.ts:109-117 | a step across stays below the across bound |
| Walks.StaysAtEdge | src/job/front/front-engrave/romb.ts:109-117 | once at the along bound the walk only steps across |
| Walks.ReachesEdge | src/job/front/front-engrave/romb.ts:98-123 | the walk ends on the along bound |
| Walks.WalkFrom | src/job/front/front-engrave/romb.ts:98-123 | the walk loop of `getUpperPoints` / `getLowerPoints`; its meaning is stated by `Walks.WalkAdvances`, `Walks.WalkRange`, `Walks.CrossStepsBelow`, `Walks.StaysAtEdge` and `Walks.ReachesEdge` |
| Romb.UpperWalk | src/job/front/front-engrave/romb.ts:91-126 | the upper walk steps pattern-width in X and converts with `getY` |
| Romb.LowerWalk | src/job/front/front-engrave/romb.ts:129-166 | the lower walk steps `getY(patternWidth)` in Y and converts with `getX` |
| Romb.UpperPoints | src/job/front/front-engrave/romb.ts:91-126 | one point per step of the walk |
| Romb.LowerPoints | src/job/front/front-engrave/romb.ts:129-166 | one point per step of the walk |
| Romb.UpperPointsInside | src/job/front/front-engrave/romb.ts:98-123 | upper points stay within [−width, 0] in X and below 0 in Y, and the last one reaches −width |
| Romb.LowerPointsInside | src/job/front/front-engrave/romb.ts:139-163 | lower points stay within [−height, 0] in Y and left of 0 in X, and the last one reaches −height |
| Romb.UpperPointsAdvance | src/job/front/front-engrave/romb.ts:98-123 | each upper point moves further in X (not back in Y), or further in Y alone |
| Romb.LowerPointsAdvance | src/job/front/front-engrave/romb.ts:139-163 | each lower point moves further in Y (not back in X), or further in X alone |
| Romb.UpperClampOvershoots | src/job/front/front-engrave/romb.ts:99-108 | the clamping step can carry Y past the height: width 10, height 1, pattern 15 gives (−10, −5) |
| Romb.MirrorHorizontally | src/job/front/front-engrave/romb.ts:86-89 | the mirror reflects X about −width/2 and keeps Y |
| Romb.MirrorVertically | src/job/front-engrave/romb.ts:93-96 | the mirror reflects Y about −height/2 and keeps X |
| Romb.MirrorsInvolutive | src/job/front/front-engrave/romb.ts:86-89 | mirroring twice is the identity, and a mirrored point stays inside the front |
| Romb.ReflectAll | src/job/front/front-engrave/romb.ts:42-60 | the mirrored queue is the queue with each point mirrored |
| Romb.CurrentStyle | src/job/front/front-engrave/base.ts:44-53 | the current revision plunges to −depth and cuts at the engrave feedrate |
| Romb.EarlierStyle | src/job/front-engrave/romb.ts:19-24 | the earlier revision plunges to Z0 with no feedrates |
| Romb.ZigZag | src/job/front/front-engrave/romb.ts:62-83 | four commands per stroke |
| Romb.MakeZigZag | src/job/front/front-engrave/romb.ts:33-84 | the two-queue loop with its toggle appends exactly the stroke sequence over as many points as both queues hold |
| Romb.PatternBlock | src/job/front/front-engrave/romb.ts:26-31 | the left-leaning zig-zag, then the right-leaning one mirrored across the width |
| Romb.EarlierPatternBlock | src/job/front-engrave/romb.ts:26-32 | the earlier revision mirrors across the height, plunges to Z0 and merges the right block into the left |
| Romb.Strokes | src/job/front/front-engrave/romb.ts:62-83 | stroke k travels to the upper point and cuts to the lower one when k is even, and the reverse when k is odd |
| Romb.StrokeAt | src/job/front/front-engrave/romb.ts:62-83 | the same, for one stroke |
| Romb.TravelEnds | src/job/front/front-engrave/base.ts:44-53 | `travelToEngrave` leaves the tool over the target point |
| Romb.Travel | src/job/front/front-engrave/base.ts:44-53 | `travelToEngrave` (and the earlier `travel` of `romb.ts:19-24`): lift, go over the point, plunge; where it leaves the tool is stated by `Romb.TravelEnds` |
| Rescale.TokenLength | base.py:74 | a token is the longest run of non-whitespace at the front |
| Rescale.Split | base.py:74 | `split()` yields non-empty tokens without whitespace |
| Rescale.StripLeft | base.py:56 | the result does not start with whitespace |
| Rescale.StripRight | base.py:56 | the result does not end with whitespace |
| Rescale.SplitJoin | base.py:74-86 | splitting tokens joined by spaces gives the tokens back |
| Rescale.SplitStrip | base.py:56-74 | stripping a line before splitting changes nothing |
| Rescale.ParseArg | base.py:99-105 | a token parses exactly when it is non-empty and, for X/Y/I/J/K, its rest is a number; the name is its first character |
| Rescale.ParseArgs | base.py:77-79 | all arguments parse, in order, or the first failure is reported |
| Rescale.ParseCommand | base.py:73-79 | a line parses exactly when it has a token and every later token parses; the code is the first token |
| Rescale.ScaleArg | base.py:107-111 | only X/Y/I/J/K arguments change; name and kind are kept |
| Rescale.ScaleCommand | base.py:81-83 | every argument is scaled and the code is kept |
| Rescale.ScaleArgCompose | base.py:107-111 | scaling by f then g is scaling by f·g, and scaling by 1 changes nothing |
| Rescale.ScaleCommandCompose | base.py:81-83 | the same for whole commands |
| Rescale.RenderArg | base.py:113-117 | the name followed by the raw text, or by the number in `%.3f` |
| Rescale.RenderArgs | base.py:86 | one text per argument, in order |
| Rescale.RenderCommand | base.py:85-86 | the code and a space, then the arguments; a bare code keeps its trailing space |
| Rescale.BlockTextAppend | base.py:63-64 | an empty block renders as ""; adding a command adds its text as one more line, after a newline unless it is the first |
| Rescale.BlockText | base.py:63-64 | `Block.to_string`; stated by `Rescale.BlockTextAppend` |
| Rescale.ArgRoundTrip | base.py:99-117 | an argument whose printed number parses back renders to one token that parses to the same argument |
| Rescale.CommandRoundTrip | base.py:73-86 | such a command renders to a line that parses back to itself |
| Rescale.Add | base.py:52-57 | a line starting with "(" is dropped; any other line is parsed and appended, or its parse error is raised |
| Rescale.ScaleBlock | base.py:59-61 | every command is scaled; the name is kept |
| Rescale.ScaleBlockCompose | base.py:59-61 | scaling composes and scaling by 1 changes nothing |
| Rescale.Rotate | base.py:19-21 | the current block is closed and a new empty one opened |
| Rescale.Digest | base.py:6-14 | a marker closes the current block; afterwards there is always a current block |
| Rescale.End | base.py:16-17 | the current block, if any, is closed |
| Rescale.ProgramText | base.py:36-43 | the text exists exactly when every closed block exists |
| Rescale.ToString | base.py:36-43 | `Program.to_string`; stated by `Rescale.ProgramText` |
| Rescale.DigestKeepsShape | base.py:6-31 | after digesting a line, the blocks are "Setup" first and "new" after |
| Rescale.DigestAllKeepsShape | base.py:6-31 | the same holds after any run of lines |
| Rescale.RunShape | base.py:16-43 | a non-empty input renders, with "Setup" followed by "new" blocks; an empty input fails on a missing block |
| Rescale.DigestCounts | base.py:6-14 | a digested line adds one command unless it starts with "(", and a marker opens one block |
| Rescale.DigestAllCounts | base.py:6-57 | commands held equal non-comment lines, and blocks closed equal markers |
| Rescale.RunCounts | base.py:6-57 | from a fresh program, every non-comment line becomes one command and every marker after the first line closes one block |

## Left out

- **Floating point.** Numbers are reals: there is no rounding, `Infinity` or `NaN`. In particular the stepdown loop (`depth -= perPass`) here always reaches the final depth. In IEEE doubles it can stop one pass short.
- **Number formatting and parsing.** `toFixed`, `String(number)`, Python's `float()` and `'%.3f'` are abstract parameters. Their texts are not modelled.
- **`Math.sqrt` and `Math.floor`.** `Math.sqrt` is a parameter that satisfies `IsSqrt`. `Math.floor` and `Math.ceil` are Dafny's exact floor and ceiling.
- **Unmodelled commands.** The text of `RelativePositioning`, `Stop`, `Probe` and `Raw` is not modelled, because their classes are not part of this model. `Render` reports an error for them; scale and move are no-ops for them, as in `BaseCommand`.
- **`arcByRadius`.** It is modelled as what it is in `src/lib/block.ts:92-107`: a call that adds no command.
- **`Block.merge`, `Block.addBlock` and `Block.scale`.** Callers use them, but `src/lib/block.ts` does not define them. `merge` and `addBlock` are modelled as appending the other block's commands, which `Blocks.Merge` states. `scale`, called at `src/factory/bore.ts:86`, is modelled as `Block.editScale` (`src/lib/block.ts:134-138`), which `Bore.ScaledPass` uses.
- **`getEstimatedRuntimeSec`.** It is the source's constant 10 per block; no real estimate exists.
- **Debug output.** `console.log` calls are left out.
- **Mutation and sharing.** The source's builders, `Block.merge` and `Program.addBlock` mutate their receiver and hand back the same object, and blocks are shared by reference. The model returns new values instead (`Blocks.Apply`, `Blocks.Merge`, `Programs.AddBlock`), so later changes to a shared block are not modelled; no modelled caller relies on that sharing.
- **Job scaffolding.** Program setup, teardown and chamfer blocks, and parameter defaults outside the named factories are left out.
- **`base.py` outside the classes.** The script part after line 117 (file I/O, the command line) is left out.
- **`base.py` stubs.** `repeat_block` and `Command.offset` do nothing and are not modelled.
- Stepdown.Passes: requires a positive stepdown. With a stepdown of 0 or below, the loop of `getStepdownDepths` never ends for a positive final depth. With a negative stepdown it also never ends for a final depth between the stepdown and 0: there is one pass, and its depth only grows. For the remaining final depths it returns `[]` at once, because `perPass` is `NaN` or the first depth already fails the loop test. These cases are not modelled. With a positive stepdown and a final depth of 0 or above the surface, the model returns no depths without computing `perPass`. In the source, `passes` is 0 or negative there, and one of three things holds: `perPass` is `NaN` (0/0); it is `+Infinity` (a negative depth over −0); or `passes` ≤ −1 and it is positive and finite (see `Stepdown.NoPassAboveSurface`). In each case the first loop test fails.
- Drill.Build: inherits the stepdown requirement.
- Bore.BuildShape: requires a non-zero stepover (a zero tool diameter makes the pass count infinite). It also requires at least one spiral pass.
- Fish.PatternSize: requires a repeat count of at least 1 and a non-zero fitted dimension. A count of 0 divides by zero, which gives an infinite or `NaN` size. A negative count gives a finite negative size, and a negative column count (horizontal fit) or row count (vertical fit), so no cells are cut. A zero fitted dimension gives size 0, and then `Math.floor(x / 0)` makes the other count infinite, so the pattern loops never end when the other dimension is positive. None of these cases is modelled, and neither are fractional repeat counts.
- Romb.UpperWalk: requires a positive pattern width and multiplier. Otherwise the source's `for (;;)` never ends.
- Romb.UpperClampOvershoots: the overshoot in the clamping step is modelled as written, not corrected. The authors flag it with a TODO and do not say what it should do.
- Commands.Render: states only failure and the motion commands. The texts of setting commands appear in the examples but are not characterised for all inputs.

## Findings

| source | as written | input that shows it | evidently intended | confidence | as-written member | corrected member |
|---|---|---|---|---|---|---|
| src/lib/command.ts:25-33 | `clone` copies the argument through `JSON.parse(JSON.stringify(arg))`; for the commands whose argument is `void` (absolute positioning and end, built at `src/lib/block.ts:39` and `:127`, stop spindle at `:110`, and relative positioning and stop, built with no argument at `:43` and `:114`), `JSON.stringify` returns `undefined` and `JSON.parse` throws | `new Block().stopSpindle().end().clone()` | clone returns an equal, independent command for every variant | not executed | Commands.CloneAsWritten, Commands.CloneOfEndThrows, Blocks.CloneBlockAsWritten, Blocks.TeardownCloneThrows | Commands.Clone, Blocks.CloneBlock |
