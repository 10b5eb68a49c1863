/** The closed set of G-code commands (`src/lib/command.ts`): their
    arguments, the `scale` and `moveRelative` edits, `clone`, and rendering. */
module Commands {
  import opened Results
  import opened Points
  import opened Enums

  /** `XYZ`: a partial 3-D coordinate, every axis optional. */
  datatype Xyz = Xyz(x: Option<real>, y: Option<real>, z: Option<real>)

  /** `MoveArg`: target axes plus an optional feedrate. */
  datatype MoveArg = MoveArg(x: Option<real>, y: Option<real>, z: Option<real>, feedrate: Option<real>)

  /** `ArcArg`: centre-format arc; `around` is the centre's offset from the
      arc's start point (the I/J words of RS274NGC section 3.5.3). */
  datatype ArcArg = ArcArg(dir: Dir, end: Point, around: Point, feedrate: Option<real>)

  /** One variant per command class.  `RelativePositioning`, `Stop`, `Probe`
      and `Raw` are imported by the block builder but their classes are not
      part of this model: they keep the inherited no-op edits and nothing is
      claimed about their text.  The builder constructs `RelativePositioning`
      and `Stop` with no argument, like `AbsolutePositioning`.  The probe
      argument is kept as text. */
  datatype Command =
    | SetPlane(plane: Plane)
    | AbsolutePositioning
    | RelativePositioning
    | SetUnits(unit: Unit)
    | SetCoordinateSystem(system: CoordinateSystem)
    | ChangeTool(toolName: string, toolNumber: Option<real>)
    | Comment(text: string)
    | StartSpindle(dir: Dir, rpm: real)
    | SetLinearFeedrate(linearRate: real)
    | SetRapidFeedrate(rapidRate: real)
    | Move(move: MoveArg)
    | MoveRapid(rapid: MoveArg)
    | Arc(arc: ArcArg)
    | StopSpindle
    | Stop
    | Probe(probe: string)
    | Raw(raw: string)
    | End

  /** The variants whose rendering is not part of this model. */
  predicate IsUnmodelled(c: Command) {
    c.RelativePositioning? || c.Stop? || c.Probe? || c.Raw?
  }

  /** The variants the block builder constructs with no argument at all:
      `BaseCommand<void>`, and the two unmodelled classes it builds the same
      way. */
  predicate HasVoidArg(c: Command) {
    c.AbsolutePositioning? || c.RelativePositioning? || c.StopSpindle? || c.Stop? || c.End?
  }

  /** Number formatting: `n.toFixed(digits)` and the template-literal
      conversion `${n}`.  Both are left uninterpreted. */
  datatype Fmt = Fmt(fixed: (real, nat) -> string, plain: real -> string)

  /** Default `precision` of `toString`. */
  const DefaultPrecision: nat := 4

  const MissingAxisError: string := "At least one argument is required"
  const UnmodelledRendering: string := "rendering is not part of this model"

  // ---------------------------------------------------------------------
  // scale / moveRelative
  // ---------------------------------------------------------------------

  /** One axis of `MoveCommand.scale`: multiplied only when both the factor
      and the stored value are present and non-zero.  Presence and
      non-zeroness are preserved. */
  function ScaleAxis(v: Option<real>, f: Option<real>): (r: Option<real>)
    ensures r.Some? <==> v.Some?
    ensures Truthy(r) <==> Truthy(v)
    ensures Truthy(f) && Truthy(v) ==> r.value == v.value * f.value
    ensures !(Truthy(f) && Truthy(v)) ==> r == v
  {
    if Truthy(f) && Truthy(v) then
      NonZeroProduct(v.value, f.value);
      Some(v.value * f.value)
    else v
  }

  /** One axis of `MoveCommand.moveRelative`: shifted only when both the
      offset and the stored value are present and non-zero. */
  function ShiftAxis(v: Option<real>, d: Option<real>): (r: Option<real>)
    ensures r.Some? <==> v.Some?
    ensures Truthy(d) && Truthy(v) ==> r.value - v.value == d.value
    ensures !(Truthy(d) && Truthy(v)) ==> r == v
  {
    if Truthy(d) && Truthy(v) then Some(v.value + d.value) else v
  }

  /** `MoveCommand.scale`, shared by the rapid variant. */
  function ScaleMove(a: MoveArg, f: Xyz): (r: MoveArg)
    ensures r.feedrate == a.feedrate
    ensures r.x == ScaleAxis(a.x, f.x) && r.y == ScaleAxis(a.y, f.y) && r.z == ScaleAxis(a.z, f.z)
  {
    a.(x := ScaleAxis(a.x, f.x), y := ScaleAxis(a.y, f.y), z := ScaleAxis(a.z, f.z))
  }

  /** `MoveCommand.moveRelative`. */
  function ShiftMove(a: MoveArg, d: Xyz): (r: MoveArg)
    ensures r.feedrate == a.feedrate
    ensures r.x == ShiftAxis(a.x, d.x) && r.y == ShiftAxis(a.y, d.y) && r.z == ShiftAxis(a.z, d.z)
  {
    a.(x := ShiftAxis(a.x, d.x), y := ShiftAxis(a.y, d.y), z := ShiftAxis(a.z, d.z))
  }

  /** Multiplier of one arc axis: the factor when non-zero, else 1. */
  function ArcFactor(f: Option<real>): (k: real)
    ensures k != 0.0
    ensures Truthy(f) ==> k == f.value
  {
    if Truthy(f) then f.value else 1.0
  }

  /** `ArcCommand.scale`: on each of X and Y with a non-zero factor, `end`
      and `around` are multiplied together (whatever their value); Z is
      ignored. */
  function ScaleArc(a: ArcArg, f: Xyz): (r: ArcArg)
    ensures r.dir == a.dir && r.feedrate == a.feedrate
    ensures r.end == Point(a.end.x * ArcFactor(f.x), a.end.y * ArcFactor(f.y))
    ensures r.around == Point(a.around.x * ArcFactor(f.x), a.around.y * ArcFactor(f.y))
  {
    var ex := if Truthy(f.x) then a.end.x * f.x.value else a.end.x;
    var ix := if Truthy(f.x) then a.around.x * f.x.value else a.around.x;
    var ey := if Truthy(f.y) then a.end.y * f.y.value else a.end.y;
    var iy := if Truthy(f.y) then a.around.y * f.y.value else a.around.y;
    a.(end := Point(ex, ey), around := Point(ix, iy))
  }

  /** Offset of one arc axis: the offset when non-zero, else 0. */
  function ArcOffset(d: Option<real>): (k: real)
    ensures Truthy(d) ==> k == d.value
    ensures !Truthy(d) ==> k == 0.0
  {
    if Truthy(d) then d.value else 0.0
  }

  /** `ArcCommand.moveRelative`: only `end` moves; the centre offset
      `around` is relative to the start point and stays. */
  function ShiftArc(a: ArcArg, d: Xyz): (r: ArcArg)
    ensures r.dir == a.dir && r.feedrate == a.feedrate && r.around == a.around
    ensures r.end == Translate(a.end, ArcOffset(d.x), ArcOffset(d.y))
  {
    var ex := if Truthy(d.x) then a.end.x + d.x.value else a.end.x;
    var ey := if Truthy(d.y) then a.end.y + d.y.value else a.end.y;
    a.(end := Point(ex, ey))
  }

  /** `Command.scale`: moves and arcs apply their rule; every other variant
      inherits the no-op of `BaseCommand`. */
  function Scale(c: Command, f: Xyz): (r: Command)
    ensures c.Move? <==> r.Move?
    ensures c.MoveRapid? <==> r.MoveRapid?
    ensures c.Arc? <==> r.Arc?
    ensures c.Move? ==> r.move == ScaleMove(c.move, f)
    ensures c.MoveRapid? ==> r.rapid == ScaleMove(c.rapid, f)
    ensures c.Arc? ==> r.arc == ScaleArc(c.arc, f)
    ensures !c.Move? && !c.MoveRapid? && !c.Arc? ==> r == c
  {
    match c
    case Move(a) => Move(ScaleMove(a, f))
    case MoveRapid(a) => MoveRapid(ScaleMove(a, f))
    case Arc(a) => Arc(ScaleArc(a, f))
    case _ => c
  }

  /** `Command.moveRelative`, with the same split as `Scale`. */
  function MoveRelative(c: Command, d: Xyz): (r: Command)
    ensures c.Move? <==> r.Move?
    ensures c.MoveRapid? <==> r.MoveRapid?
    ensures c.Arc? <==> r.Arc?
    ensures c.Move? ==> r.move == ShiftMove(c.move, d)
    ensures c.MoveRapid? ==> r.rapid == ShiftMove(c.rapid, d)
    ensures c.Arc? ==> r.arc == ShiftArc(c.arc, d)
    ensures !c.Move? && !c.MoveRapid? && !c.Arc? ==> r == c
  {
    match c
    case Move(a) => Move(ShiftMove(a, d))
    case MoveRapid(a) => MoveRapid(ShiftMove(a, d))
    case Arc(a) => Arc(ShiftArc(a, d))
    case _ => c
  }

  /** The reciprocal factor: undoes every multiplication `Scale` performs
      and, like the original, leaves the other axes alone. */
  function InverseAxis(f: Option<real>): (g: Option<real>)
    ensures Truthy(g) <==> Truthy(f)
    ensures Truthy(f) ==> g.value == 1.0 / f.value
  {
    if Truthy(f) then Some(1.0 / f.value) else f
  }

  function Inverse(f: Xyz): Xyz {
    Xyz(InverseAxis(f.x), InverseAxis(f.y), InverseAxis(f.z))
  }

  function NegateAxis(d: Option<real>): (e: Option<real>)
    ensures Truthy(e) <==> Truthy(d)
    ensures Truthy(d) ==> e.value == -d.value
  {
    if d.Some? then Some(-d.value) else None
  }

  function Negate(d: Xyz): Xyz {
    Xyz(NegateAxis(d.x), NegateAxis(d.y), NegateAxis(d.z))
  }

  lemma Reciprocal(k: real)
    requires k != 0.0
    ensures k * (1.0 / k) == 1.0
  {
  }

  lemma ScaleAxisInverse(v: Option<real>, f: Option<real>)
    ensures ScaleAxis(ScaleAxis(v, f), InverseAxis(f)) == v
  {
    if Truthy(f) && Truthy(v) {
      var w, g := ScaleAxis(v, f), InverseAxis(f);
      Reciprocal(f.value);
      assert w.value == v.value * f.value;
      assert g.value == 1.0 / f.value;
      assert w.value * g.value == v.value * (f.value * (1.0 / f.value));
      assert w.value * g.value == v.value;
      var back := ScaleAxis(w, g);
      assert back.value == w.value * g.value;
      assert back.value == v.value;
    }
  }

  lemma ArcFactorReciprocal(f: Option<real>)
    ensures ArcFactor(f) * ArcFactor(InverseAxis(f)) == 1.0
  {
    if Truthy(f) {
      var k := f.value;
      Reciprocal(k);
      assert ArcFactor(f) == k;
      assert ArcFactor(InverseAxis(f)) == 1.0 / k;
    }
  }

  lemma ArcFactorInverse(f: Option<real>, u: real)
    ensures u * ArcFactor(f) * ArcFactor(InverseAxis(f)) == u
  {
    ArcFactorReciprocal(f);
    assert u * ArcFactor(f) * ArcFactor(InverseAxis(f)) == u * (ArcFactor(f) * ArcFactor(InverseAxis(f)));
  }

  lemma ScaleMoveInverse(a: MoveArg, f: Xyz)
    ensures ScaleMove(ScaleMove(a, f), Inverse(f)) == a
  {
    ScaleAxisInverse(a.x, f.x);
    ScaleAxisInverse(a.y, f.y);
    ScaleAxisInverse(a.z, f.z);
  }

  lemma ScaleArcInverse(a: ArcArg, f: Xyz)
    ensures ScaleArc(ScaleArc(a, f), Inverse(f)) == a
  {
    ArcFactorInverse(f.x, a.end.x); ArcFactorInverse(f.x, a.around.x);
    ArcFactorInverse(f.y, a.end.y); ArcFactorInverse(f.y, a.around.y);
    var b := ScaleArc(ScaleArc(a, f), Inverse(f));
    assert b.end.x == a.end.x && b.end.y == a.end.y;
    assert b.around.x == a.around.x && b.around.y == a.around.y;
  }

  /** Scaling by a factor and then by its reciprocal restores every command. */
  lemma ScaleInverse(c: Command, f: Xyz)
    ensures Scale(Scale(c, f), Inverse(f)) == c
  {
    match c
    case Move(a) => ScaleMoveInverse(a, f);
    case MoveRapid(a) => ScaleMoveInverse(a, f);
    case Arc(a) => ScaleArcInverse(a, f);
    case _ =>
  }

  /** A stored coordinate of exactly 0 is never scaled nor translated. */
  lemma ZeroCoordinateIsFixed(a: MoveArg, f: Xyz)
    requires a.x == Some(0.0)
    ensures ScaleMove(a, f).x == Some(0.0)
    ensures ShiftMove(a, f).x == Some(0.0)
  {
  }

  /** An arc always translates by the non-zero offset components: undoing
      it with the negated offset restores the arc. */
  lemma ShiftArcInverse(a: ArcArg, d: Xyz)
    ensures ShiftArc(ShiftArc(a, d), Negate(d)) == a
  {
  }

  /** A move translates back to where it was unless some translated
      coordinate lands exactly on 0. */
  lemma ShiftMoveInverse(a: MoveArg, d: Xyz)
    requires Truthy(d.x) && Truthy(a.x) ==> a.x.value + d.x.value != 0.0
    requires Truthy(d.y) && Truthy(a.y) ==> a.y.value + d.y.value != 0.0
    requires Truthy(d.z) && Truthy(a.z) ==> a.z.value + d.z.value != 0.0
    ensures ShiftMove(ShiftMove(a, d), Negate(d)) == a
  {
  }

  /** ...and that exception is real: X 1 shifted by -1 lands on 0 and then
      ignores the shift by +1. */
  lemma ShiftMoveLosesCoordinate()
    ensures var a := MoveArg(Some(1.0), None, None, None);
            var d := Xyz(Some(-1.0), None, None);
            ShiftMove(ShiftMove(a, d), Negate(d)) == a.(x := Some(0.0))
  {
  }

  /** Non-geometric commands are untouched by both edits. */
  lemma EditsIgnoreSettings(c: Command, f: Xyz, d: Xyz)
    requires !c.Move? && !c.MoveRapid? && !c.Arc?
    ensures Scale(c, f) == c && MoveRelative(c, d) == c
  {
  }

  // ---------------------------------------------------------------------
  // clone
  // ---------------------------------------------------------------------

  /** `BaseCommand.clone` as written: the argument goes through
      `JSON.parse(JSON.stringify(arg))`.  For a `void` argument
      `JSON.stringify` yields `undefined`, which `JSON.parse` rejects, so
      the clone throws; that covers absolute and relative positioning, stop
      spindle, stop and end.  Every other argument here is plain data
      (strings, numbers, absent optionals) and survives the JSON round
      trip. */
  function CloneAsWritten(c: Command): (r: Result<Command>)
    ensures r.Err? <==> HasVoidArg(c)
    ensures r.Ok? ==> r.value == c
  {
    if HasVoidArg(c) then Err("JSON.parse: undefined is not valid JSON") else Ok(c)
  }

  /** The clone the method is meant to produce: an equal, independent
      command.  Values are immutable here, so later edits of the copy can
      never reach the original. */
  function Clone(c: Command): (r: Command)
    ensures r == c
    ensures CloneAsWritten(c).Ok? ==> CloneAsWritten(c).value == r
  {
    c
  }

  /** `End` is a command the builder creates and whose clone throws. */
  lemma CloneOfEndThrows()
    ensures CloneAsWritten(End).Err?
    ensures Clone(End) == End
  {
  }

  // ---------------------------------------------------------------------
  // rendering
  // ---------------------------------------------------------------------

  /** One address word of a motion line: a letter and a number. */
  datatype Word = Word(letter: char, value: real)

  /** The value of the first word with the given letter. */
  function Lookup(ws: seq<Word>, letter: char): (r: Option<real>)
    ensures r.Some? <==> exists i :: 0 <= i < |ws| && ws[i].letter == letter
  {
    if ws == [] then None
    else if ws[0].letter == letter then Some(ws[0].value)
    else Lookup(ws[1..], letter)
  }

  /** The letters of `ws`, in order. */
  function Letters(ws: seq<Word>): (s: string)
    ensures |s| == |ws|
    ensures forall i :: 0 <= i < |ws| ==> s[i] == ws[i].letter
  {
    if ws == [] then [] else [ws[0].letter] + Letters(ws[1..])
  }

  /** `s` is a subsequence of `t`. */
  predicate IsSubsequence(s: string, t: string)
    decreases |t|
  {
    if s == [] then true
    else if t == [] then false
    else if s[0] == t[0] then IsSubsequence(s[1..], t[1..])
    else IsSubsequence(s, t[1..])
  }

  /** A subsequence of `t` is a subsequence of `c` followed by `t`. */
  lemma {:induction false} SubsequenceCons(s: string, c: char, t: string)
    requires IsSubsequence(s, t)
    ensures IsSubsequence(s, [c] + t)
    decreases |t|, 1
  {
    assert ([c] + t)[0] == c && ([c] + t)[1..] == t;
    if s != [] && s[0] == c {
      SubsequenceTail(s, t);
    }
  }

  /** Dropping the first character of a subsequence keeps a subsequence. */
  lemma {:induction false} SubsequenceTail(s: string, t: string)
    requires s != [] && IsSubsequence(s, t)
    ensures IsSubsequence(s[1..], t)
    decreases |t|, 0
  {
    assert t != [];
    assert t == [t[0]] + t[1..];
    if s[0] == t[0] {
      SubsequenceCons(s[1..], t[0], t[1..]);
    } else {
      SubsequenceTail(s, t[1..]);
      SubsequenceCons(s[1..], t[0], t[1..]);
    }
  }

  lemma {:induction false} SubsequenceOfSuffix(s: string, p: string, t: string)
    requires IsSubsequence(s, t)
    ensures IsSubsequence(s, p + t)
    decreases |p|
  {
    if p == [] {
      assert p + t == t;
    } else {
      assert p + t == [p[0]] + (p[1..] + t);
      SubsequenceOfSuffix(s, p[1..], t);
      SubsequenceCons(s, p[0], p[1..] + t);
    }
  }

  lemma {:induction false} SubsequenceAppend(s1: string, t1: string, s2: string, t2: string)
    requires IsSubsequence(s1, t1) && IsSubsequence(s2, t2)
    ensures IsSubsequence(s1 + s2, t1 + t2)
    decreases |t1|
  {
    if s1 == [] {
      assert s1 + s2 == s2;
      SubsequenceOfSuffix(s2, t1, t2);
    } else {
      assert t1 != [];
      assert (t1 + t2)[0] == t1[0] && (t1 + t2)[1..] == t1[1..] + t2;
      assert (s1 + s2)[0] == s1[0] && (s1 + s2)[1..] == s1[1..] + s2;
      if s1[0] == t1[0] {
        SubsequenceAppend(s1[1..], t1[1..], s2, t2);
      } else {
        SubsequenceAppend(s1, t1[1..], s2, t2);
      }
    }
  }

  /** Feedrate as it survives rendering: only a non-zero one is written. */
  function WrittenFeedrate(f: Option<real>): (r: Option<real>)
    ensures r.Some? <==> Truthy(f)
    ensures r.Some? ==> r == f
  {
    if Truthy(f) then f else None
  }

  /** A word for a present value, nothing for an absent one. */
  function OptionalWord(letter: char, v: Option<real>): (ws: seq<Word>)
    ensures Letters(ws) == if v.Some? then [letter] else []
  {
    if v.Some? then [Word(letter, v.value)] else []
  }

  /** Looking up the letter of a leading optional word finds its value. */
  lemma LookupHit(letter: char, v: Option<real>, rest: seq<Word>)
    ensures Lookup(OptionalWord(letter, v) + rest, letter) == if v.Some? then v else Lookup(rest, letter)
  {
    if v.None? {
      assert OptionalWord(letter, v) + rest == rest;
    }
  }

  /** Looking up another letter skips a leading optional word. */
  lemma LookupSkip(letter: char, v: Option<real>, rest: seq<Word>, other: char)
    requires other != letter
    ensures Lookup(OptionalWord(letter, v) + rest, other) == Lookup(rest, other)
  {
    if v.Some? {
      assert (OptionalWord(letter, v) + rest)[1..] == rest;
    } else {
      assert OptionalWord(letter, v) + rest == rest;
    }
  }

  lemma LettersAppend(a: seq<Word>, b: seq<Word>)
    ensures Letters(a + b) == Letters(a) + Letters(b)
  {
  }

  /** The words of a linear or rapid move: present axes in X, Y, Z order,
      then F for a non-zero feedrate. */
  function MoveWords(a: MoveArg): seq<Word> {
    OptionalWord('X', a.x) + (OptionalWord('Y', a.y) + (OptionalWord('Z', a.z)
      + (OptionalWord('F', WrittenFeedrate(a.feedrate)) + [])))
  }

  /** Reading a move back from its words. */
  function DecodeMove(ws: seq<Word>): MoveArg {
    MoveArg(Lookup(ws, 'X'), Lookup(ws, 'Y'), Lookup(ws, 'Z'), Lookup(ws, 'F'))
  }

  /** The words of a move give back its axes, and its feedrate exactly when
      that is non-zero; a zero feedrate is never written. */
  lemma MoveWordsRoundTrip(a: MoveArg)
    ensures DecodeMove(MoveWords(a)) == a.(feedrate := WrittenFeedrate(a.feedrate))
    ensures DecodeMove(MoveWords(a)) == a <==> a.feedrate != Some(0.0)
  {
    var wf := OptionalWord('F', WrittenFeedrate(a.feedrate)) + [];
    var wz := OptionalWord('Z', a.z) + wf;
    var wy := OptionalWord('Y', a.y) + wz;
    var ws := OptionalWord('X', a.x) + wy;
    LookupHit('X', a.x, wy);
    LookupSkip('X', a.x, wy, 'Y'); LookupHit('Y', a.y, wz);
    LookupSkip('X', a.x, wy, 'Z'); LookupSkip('Y', a.y, wz, 'Z'); LookupHit('Z', a.z, wf);
    LookupSkip('X', a.x, wy, 'F'); LookupSkip('Y', a.y, wz, 'F'); LookupSkip('Z', a.z, wf, 'F');
    LookupHit('F', WrittenFeedrate(a.feedrate), []);
  }

  /** The letters of a move are in X, Y, Z, F order. */
  lemma MoveWordsOrdered(a: MoveArg)
    ensures IsSubsequence(Letters(MoveWords(a)), "XYZF")
  {
    var wx, wy, wz := OptionalWord('X', a.x), OptionalWord('Y', a.y), OptionalWord('Z', a.z);
    var wf := OptionalWord('F', WrittenFeedrate(a.feedrate));
    assert wf + [] == wf;
    LettersAppend(wz, wf); LettersAppend(wy, wz + wf); LettersAppend(wx, wy + (wz + wf));
    SubsequenceAppend(Letters(wz), "Z", Letters(wf), "F");
    SubsequenceAppend(Letters(wy), "Y", Letters(wz + wf), "ZF");
    SubsequenceAppend(Letters(wx), "X", Letters(wy + (wz + wf)), "YZF");
  }

  /** Two moves that write the same words are equal, unless one of them
      carries a zero feedrate. */
  lemma MoveWordsInjective(a: MoveArg, b: MoveArg)
    requires a.feedrate != Some(0.0) && b.feedrate != Some(0.0)
    requires MoveWords(a) == MoveWords(b)
    ensures a == b
  {
    MoveWordsRoundTrip(a);
    MoveWordsRoundTrip(b);
  }

  /** The words of an arc: X, Y, I, J always, then F for a non-zero
      feedrate. */
  function ArcWords(a: ArcArg): seq<Word> {
    OptionalWord('X', Some(a.end.x)) + (OptionalWord('Y', Some(a.end.y))
      + (OptionalWord('I', Some(a.around.x)) + (OptionalWord('J', Some(a.around.y))
      + (OptionalWord('F', WrittenFeedrate(a.feedrate)) + []))))
  }

  /** The words of an arc give back its end, centre offset and non-zero
      feedrate, and their letters are X Y I J, then F when written. */
  lemma ArcWordsRoundTrip(a: ArcArg)
    ensures var ws := ArcWords(a);
            Lookup(ws, 'X') == Some(a.end.x) && Lookup(ws, 'Y') == Some(a.end.y)
            && Lookup(ws, 'I') == Some(a.around.x) && Lookup(ws, 'J') == Some(a.around.y)
            && Lookup(ws, 'F') == WrittenFeedrate(a.feedrate)
  {
    var wf := OptionalWord('F', WrittenFeedrate(a.feedrate));
    var wj := OptionalWord('J', Some(a.around.y)) + (wf + []);
    var wi := OptionalWord('I', Some(a.around.x)) + wj;
    var wy := OptionalWord('Y', Some(a.end.y)) + wi;
    var ws := OptionalWord('X', Some(a.end.x)) + wy;
    LookupHit('X', Some(a.end.x), wy);
    LookupSkip('X', Some(a.end.x), wy, 'Y'); LookupHit('Y', Some(a.end.y), wi);
    LookupSkip('X', Some(a.end.x), wy, 'I'); LookupSkip('Y', Some(a.end.y), wi, 'I');
    LookupHit('I', Some(a.around.x), wj);
    LookupSkip('X', Some(a.end.x), wy, 'J'); LookupSkip('Y', Some(a.end.y), wi, 'J');
    LookupSkip('I', Some(a.around.x), wj, 'J'); LookupHit('J', Some(a.around.y), wf + []);
    LookupSkip('X', Some(a.end.x), wy, 'F'); LookupSkip('Y', Some(a.end.y), wi, 'F');
    LookupSkip('I', Some(a.around.x), wj, 'F'); LookupSkip('J', Some(a.around.y), wf + [], 'F');
    LookupHit('F', WrittenFeedrate(a.feedrate), []);
  }

  /** The letters of an arc are X Y I J, then F when a feedrate is written. */
  lemma ArcWordsLetters(a: ArcArg)
    ensures Letters(ArcWords(a)) == if Truthy(a.feedrate) then "XYIJF" else "XYIJ"
  {
    var wf := OptionalWord('F', WrittenFeedrate(a.feedrate));
    var wj := OptionalWord('J', Some(a.around.y)) + (wf + []);
    var wi := OptionalWord('I', Some(a.around.x)) + wj;
    var wy := OptionalWord('Y', Some(a.end.y)) + wi;
    assert wf + [] == wf;
    LettersAppend(OptionalWord('J', Some(a.around.y)), wf);
    LettersAppend(OptionalWord('I', Some(a.around.x)), wj);
    LettersAppend(OptionalWord('Y', Some(a.end.y)), wi);
    LettersAppend(OptionalWord('X', Some(a.end.x)), wy);
  }

  /** The text of a word list: each word as a space, its letter and the
      fixed-point value. */
  function SpellWords(ws: seq<Word>, precision: nat, fmt: Fmt): string {
    if ws == [] then ""
    else " " + [ws[0].letter] + fmt.fixed(ws[0].value, precision) + SpellWords(ws[1..], precision, fmt)
  }

  function PlaneCode(p: Plane): string {
    match p
    case XY => "G17"
    case ZX => "G18"
    case YZ => "G19"
  }

  function UnitCode(u: Unit): string {
    match u
    case Inches => "G20"
    case Millimeters => "G21"
  }

  function ArcCode(d: Dir): string {
    if d == CW then "G2" else "G3"
  }

  function SpindleCode(d: Dir): string {
    if d == CW then "M3" else "M4"
  }

  /** `Command.toString(precision)`.  Moves without any axis throw; the
      variants outside this model give `UnmodelledRendering`. */
  function Render(c: Command, precision: nat, fmt: Fmt): (r: Result<string>)
    ensures r.Err? <==> (IsUnmodelled(c)
                         || (c.Move? && c.move.x.None? && c.move.y.None? && c.move.z.None?)
                         || (c.MoveRapid? && c.rapid.x.None? && c.rapid.y.None? && c.rapid.z.None?))
    ensures c.Move? && r.Ok? ==> r.value == "G1" + SpellWords(MoveWords(c.move), precision, fmt)
    ensures c.MoveRapid? && r.Ok? ==> r.value == "G0" + SpellWords(MoveWords(c.rapid), precision, fmt)
    ensures c.Arc? ==> r == Ok(ArcCode(c.arc.dir) + SpellWords(ArcWords(c.arc), precision, fmt))
  {
    match c
    case SetPlane(p) => Ok(PlaneCode(p))
    case AbsolutePositioning => Ok("G90")
    case SetUnits(u) => Ok(UnitCode(u))
    case SetCoordinateSystem(cs) => Ok(CoordinateSystemLabel(cs))
    case ChangeTool(name, number) =>
      var tool := if Truthy(number) then " T" + fmt.plain(number.value) else "";
      Ok("(Tool change: " + name + ")\nM6" + tool)
    case Comment(text) => Ok("(" + text + ")")
    case StartSpindle(dir, rpm) => Ok(SpindleCode(dir) + " S" + fmt.plain(rpm))
    case SetRapidFeedrate(rate) => Ok("G0 F" + fmt.plain(rate))
    case SetLinearFeedrate(rate) => Ok("G1 F" + fmt.plain(rate))
    case Move(a) => RenderMotion("G1", a, precision, fmt)
    case MoveRapid(a) => RenderMotion("G0", a, precision, fmt)
    case Arc(a) => Ok(ArcCode(a.dir) + SpellWords(ArcWords(a), precision, fmt))
    case StopSpindle => Ok("M5")
    case End => Ok("M2")
    case RelativePositioning => Err(UnmodelledRendering)
    case Stop => Err(UnmodelledRendering)
    case Probe(_) => Err(UnmodelledRendering)
    case Raw(_) => Err(UnmodelledRendering)
  }

  function RenderMotion(code: string, a: MoveArg, precision: nat, fmt: Fmt): (r: Result<string>)
    ensures r.Err? <==> a.x.None? && a.y.None? && a.z.None?
    ensures r.Err? ==> r.message == MissingAxisError
  {
    if a.x.None? && a.y.None? && a.z.None? then Err(MissingAxisError)
    else Ok(code + SpellWords(MoveWords(a), precision, fmt))
  }

  /** The fixed mnemonics tell settings apart: distinct planes, units and
      spindle directions give distinct codes. */
  lemma MnemonicsDistinct(p: Plane, q: Plane, u: Unit, v: Unit, d: Dir, e: Dir)
    ensures PlaneCode(p) == PlaneCode(q) <==> p == q
    ensures UnitCode(u) == UnitCode(v) <==> u == v
    ensures SpindleCode(d) == SpindleCode(e) <==> d == e
    ensures ArcCode(d) == ArcCode(e) <==> d == e
  {
  }

  /** The tool number is appended only when it is non-zero. */
  lemma ToolNumberOnlyWhenNonZero(name: string, number: Option<real>, fmt: Fmt)
    ensures var r := Render(ChangeTool(name, number), DefaultPrecision, fmt);
            r.Ok? && r.value[..|name| + 18] == "(Tool change: " + name + ")\nM6"
            && (|r.value| == |name| + 18 <==> !Truthy(number))
  {
  }
}
