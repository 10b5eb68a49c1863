/** The tool's XY position along a command sequence in absolute positioning
    (G90), and the centre-format arc condition of RS274NGC (section 3.5.3 of
    the NIST RS274NGC interpreter, version 3): the current point and the end
    point of an arc lie at the same distance from its centre, which is the
    current point plus the I/J offset. */
module Toolpath {
  import opened Results
  import opened Points
  import opened Commands

  /** The XY position after a move to the given axes: a present axis is
      taken from the move, a missing one is kept. */
  function MoveTo(p: Point, m: MoveArg): (r: Point)
    ensures m.x.Some? ==> r.x == m.x.value
    ensures m.x.None? ==> r.x == p.x
    ensures m.y.Some? ==> r.y == m.y.value
    ensures m.y.None? ==> r.y == p.y
  {
    Point(if m.x.Some? then m.x.value else p.x, if m.y.Some? then m.y.value else p.y)
  }

  /** The XY position after command `c`, started at `p`. */
  function After(p: Point, c: Command): Point {
    match c
    case Move(m) => MoveTo(p, m)
    case MoveRapid(m) => MoveTo(p, m)
    case Arc(a) => a.end
    case _ => p
  }

  /** The XY position after all of `cs`, in order. */
  function AfterAll(p: Point, cs: seq<Command>): Point
    decreases |cs|
  {
    if cs == [] then p else AfterAll(After(p, cs[0]), cs[1..])
  }

  /** The centre of an arc started at `p`. */
  function Centre(p: Point, a: ArcArg): (c: Point)
    ensures c.x - p.x == a.around.x && c.y - p.y == a.around.y
  {
    Translate(p, a.around.x, a.around.y)
  }

  /** An arc started at `p` ends on the circle it starts on. */
  predicate ArcConsistent(p: Point, a: ArcArg) {
    DistanceSq(Centre(p, a), p) == DistanceSq(Centre(p, a), a.end)
  }

  /** Every arc of `cs`, started where the commands before it left the
      tool, ends on the circle it starts on. */
  predicate Consistent(p: Point, cs: seq<Command>)
    decreases |cs|
  {
    cs == [] || ((cs[0].Arc? ==> ArcConsistent(p, cs[0].arc)) && Consistent(After(p, cs[0]), cs[1..]))
  }

  /** Running two sequences one after the other: the position threads
      through, and the whole is consistent iff both parts are. */
  lemma {:induction false} AppendTrack(p: Point, a: seq<Command>, b: seq<Command>)
    ensures AfterAll(p, a + b) == AfterAll(AfterAll(p, a), b)
    ensures Consistent(p, a + b) <==> Consistent(p, a) && Consistent(AfterAll(p, a), b)
    decreases |a|
  {
    if a == [] {
      assert a + b == b;
    } else {
      assert (a + b)[0] == a[0] && (a + b)[1..] == a[1..] + b;
      AppendTrack(After(p, a[0]), a[1..], b);
    }
  }

  /** Extending a prefix by one command: the position moves by that
      command, and the arc condition is checked where the prefix left the
      tool. */
  lemma StepTrack(p: Point, cs: seq<Command>, i: nat)
    requires i < |cs|
    ensures AfterAll(p, cs[..i + 1]) == After(AfterAll(p, cs[..i]), cs[i])
    ensures Consistent(p, cs[..i + 1])
            <==> Consistent(p, cs[..i]) && (cs[i].Arc? ==> ArcConsistent(AfterAll(p, cs[..i]), cs[i].arc))
  {
    assert cs[..i + 1] == cs[..i] + [cs[i]];
    AppendTrack(p, cs[..i], [cs[i]]);
    assert [cs[i]][1..] == [];
  }

  /** A command that does not move in XY and is not an arc. */
  predicate Still(c: Command) {
    !c.Arc? && !(c.Move? && (c.move.x.Some? || c.move.y.Some?))
    && !(c.MoveRapid? && (c.rapid.x.Some? || c.rapid.y.Some?))
  }

  /** Commands that do not move in XY leave the position and are
      consistent from anywhere. */
  lemma {:induction false} StillTrack(p: Point, cs: seq<Command>)
    requires forall i :: 0 <= i < |cs| ==> Still(cs[i])
    ensures AfterAll(p, cs) == p && Consistent(p, cs)
    decreases |cs|
  {
    if cs != [] {
      assert Still(cs[0]);
      assert After(p, cs[0]) == p;
      StillTrack(p, cs[1..]);
    }
  }

  /** One arc started at `p`. */
  lemma ArcTrack(p: Point, a: ArcArg)
    requires ArcConsistent(p, a)
    ensures AfterAll(p, [Arc(a)]) == a.end && Consistent(p, [Arc(a)])
  {
    assert [Arc(a)][1..] == [];
  }

  /** One move started at `p`. */
  lemma MoveTrack(p: Point, c: Command)
    requires c.Move? || c.MoveRapid?
    ensures AfterAll(p, [c]) == MoveTo(p, if c.Move? then c.move else c.rapid) && Consistent(p, [c])
  {
    assert [c][1..] == [];
  }
}
