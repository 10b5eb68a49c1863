/** The stand-alone G-code re-scaler of `base.py`: it reads G-code line by
    line, cuts it into blocks at the CAM operation markers, parses each
    line into a code and letter arguments, can scale the X/Y/I/J/K
    arguments, and writes the blocks back out.  Python's `float` and the
    `%.3f` formatting are parameters (`parse`, `fixed3`); whitespace is
    that of `str.split` and `str.strip` on Python 3 strings. */
module Rescale {
  import opened Results
  import opened Strings

  /** `str.isspace` for one character: the ASCII controls TAB to CR and
      FS to US, the space, NEL, NO-BREAK SPACE, and the Unicode separators
      and spaces (Zs, Zl, Zp). */
  predicate IsSpace(c: char) {
    ('\t' <= c <= '\r') || ('\U{1C}' <= c <= ' ') || c == '\U{85}' || c == '\U{A0}'
    || c == '\U{1680}' || ('\U{2000}' <= c <= '\U{200A}') || c == '\U{2028}' || c == '\U{2029}'
    || c == '\U{202F}' || c == '\U{205F}' || c == '\U{3000}'
  }

  /** A non-empty run of non-whitespace, as `str.split` returns them. */
  predicate IsToken(t: string) {
    t != [] && forall i :: 0 <= i < |t| ==> !IsSpace(t[i])
  }

  /** The length of the token `s` starts with. */
  function TokenLength(s: string): (n: nat)
    requires s != [] && !IsSpace(s[0])
    ensures 1 <= n <= |s|
    ensures forall i :: 0 <= i < n ==> !IsSpace(s[i])
    ensures n < |s| ==> IsSpace(s[n])
    decreases |s|
  {
    if |s| == 1 || IsSpace(s[1]) then 1 else 1 + TokenLength(s[1..])
  }

  /** `str.split()` with no separator: the maximal runs of non-whitespace,
      in order. */
  function Split(s: string): (ts: seq<string>)
    ensures forall i :: 0 <= i < |ts| ==> IsToken(ts[i])
    decreases |s|
  {
    if s == [] then []
    else if IsSpace(s[0]) then Split(s[1..])
    else
      var n := TokenLength(s);
      [s[..n]] + Split(s[n..])
  }

  /** `str.strip()`: without leading and trailing whitespace. */
  function StripLeft(s: string): (r: string)
    ensures r == [] || !IsSpace(r[0])
    decreases |s|
  {
    if s != [] && IsSpace(s[0]) then StripLeft(s[1..]) else s
  }

  function StripRight(s: string): (r: string)
    ensures r == [] || !IsSpace(r[|r| - 1])
    decreases |s|
  {
    if s != [] && IsSpace(s[|s| - 1]) then StripRight(s[..|s| - 1]) else s
  }

  function Strip(s: string): string {
    StripRight(StripLeft(s))
  }

  /** A token followed by whitespace or nothing is read whole. */
  lemma TokenLengthOf(t: string, rest: string)
    requires IsToken(t) && (rest == [] || IsSpace(rest[0]))
    ensures TokenLength(t + rest) == |t|
  {
    var s := t + rest;
    assert forall i :: 0 <= i < |t| ==> s[i] == t[i];
    assert rest != [] ==> s[|t|] == rest[0];
  }

  /** Splitting the tokens joined by single spaces gives the tokens back. */
  lemma {:induction false} SplitJoin(ts: seq<string>)
    requires forall i :: 0 <= i < |ts| ==> IsToken(ts[i])
    ensures Split(Join(ts, " ")) == ts
    decreases |ts|
  {
    if |ts| == 1 {
      TokenLengthOf(ts[0], []);
      assert ts[0] + [] == ts[0];
      assert Split(ts[0]) == [ts[0][..|ts[0]|]] + Split(ts[0][|ts[0]|..]);
    } else if |ts| > 1 {
      var rest := Join(ts[1..], " ");
      var s := Join(ts, " ");
      assert s == ts[0] + (" " + rest);
      TokenLengthOf(ts[0], " " + rest);
      assert s[..|ts[0]|] == ts[0];
      assert s[|ts[0]|..] == " " + rest;
      assert Split(" " + rest) == Split(rest) by {
        assert (" " + rest)[1..] == rest;
      }
      SplitJoin(ts[1..]);
      assert ts == [ts[0]] + ts[1..];
    }
  }

  /** Leading whitespace does not change the tokens. */
  lemma {:induction false} SplitStripLeft(s: string)
    ensures Split(StripLeft(s)) == Split(s)
    decreases |s|
  {
    if s != [] && IsSpace(s[0]) {
      SplitStripLeft(s[1..]);
    }
  }

  /** One trailing whitespace character does not change the tokens. */
  lemma {:induction false} SplitDropSpace(x: string, c: char)
    requires IsSpace(c)
    ensures Split(x + [c]) == Split(x)
    decreases |x|
  {
    var s := x + [c];
    if x == [] {
      assert s[1..] == [];
    } else if IsSpace(x[0]) {
      assert s[0] == x[0] && s[1..] == x[1..] + [c];
      SplitDropSpace(x[1..], c);
    } else {
      var n := TokenLength(x);
      assert s == x[..n] + (x[n..] + [c]);
      assert (x[n..] + [c])[0] == if n < |x| then x[n] else c;
      TokenLengthOf(x[..n], x[n..] + [c]);
      assert s[..n] == x[..n] && s[n..] == x[n..] + [c];
      SplitDropSpace(x[n..], c);
    }
  }

  /** Trailing whitespace does not change the tokens. */
  lemma {:induction false} SplitStripRight(s: string)
    ensures Split(StripRight(s)) == Split(s)
    decreases |s|
  {
    if s != [] && IsSpace(s[|s| - 1]) {
      var x := s[..|s| - 1];
      assert s == x + [s[|s| - 1]];
      SplitDropSpace(x, s[|s| - 1]);
      SplitStripRight(x);
    }
  }

  /** `strip` before `split` changes nothing. */
  lemma SplitStrip(s: string)
    ensures Split(Strip(s)) == Split(s)
  {
    SplitStripRight(StripLeft(s));
    SplitStripLeft(s);
  }

  /** `Arg`: a scalable argument holds a number, any other its text. */
  datatype Arg = Scalable(name: char, value: real) | Raw(name: char, text: string)

  /** `_is_scalable`. */
  predicate IsScalable(name: char) {
    name in "XYIJK"
  }

  /** `Arg._parse`: the first character names the argument; the rest is a
      number for X/Y/I/J/K (a `float` failure is an error) and text
      otherwise.  An empty token has no first character. */
  function ParseArg(t: string, parse: string -> Option<real>): (r: Result<Arg>)
    ensures r.Ok? <==> t != [] && (IsScalable(t[0]) ==> parse(t[1..]).Some?)
    ensures r.Ok? ==> r.value.name == t[0] && (r.value.Scalable? <==> IsScalable(t[0]))
    ensures r.Ok? && r.value.Scalable? ==> Some(r.value.value) == parse(t[1..])
    ensures r.Ok? && r.value.Raw? ==> r.value.text == t[1..]
  {
    if t == [] then Err("IndexError: string index out of range")
    else if IsScalable(t[0]) then
      match parse(t[1..])
      case None => Err("ValueError: could not convert string to float")
      case Some(v) => Ok(Scalable(t[0], v))
    else Ok(Raw(t[0], t[1..]))
  }

  /** The arguments of a line, in order; the first failure is the error. */
  function ParseArgs(ts: seq<string>, parse: string -> Option<real>): (r: Result<seq<Arg>>)
    ensures r.Ok? <==> forall i :: 0 <= i < |ts| ==> ParseArg(ts[i], parse).Ok?
    ensures r.Ok? ==> |r.value| == |ts| && forall i :: 0 <= i < |ts| ==> r.value[i] == ParseArg(ts[i], parse).value
    decreases |ts|
  {
    if ts == [] then Ok([])
    else
      match ParseArg(ts[0], parse)
      case Err(e) => Err(e)
      case Ok(a) =>
        match ParseArgs(ts[1..], parse)
        case Err(e) => Err(e)
        case Ok(rest) =>
          assert forall i :: 1 <= i < |ts| ==> ts[i] == ts[1..][i - 1];
          Ok([a] + rest)
  }

  /** `Command`: the code and the arguments. */
  datatype Command = Command(code: string, args: seq<Arg>)

  /** `Command._parse` of a stripped line: the first token is the code and
      every other token an argument; a blank line has no first token. */
  function ParseCommand(line: string, parse: string -> Option<real>): (r: Result<Command>)
    ensures r.Ok? <==> Split(line) != [] && ParseArgs(Split(line)[1..], parse).Ok?
    ensures r.Ok? ==> r.value.code == Split(line)[0] && r.value.args == ParseArgs(Split(line)[1..], parse).value
  {
    var ts := Split(Strip(line));
    SplitStrip(line);
    if ts == [] then Err("IndexError: list index out of range")
    else
      match ParseArgs(ts[1..], parse)
      case Err(e) => Err(e)
      case Ok(args) => Ok(Command(ts[0], args))
  }

  /** `Arg.scale`: only the scalable arguments are multiplied. */
  function ScaleArg(a: Arg, factor: real): (r: Arg)
    ensures r.name == a.name && r.Scalable? == a.Scalable?
    ensures a.Raw? ==> r == a
  {
    match a
    case Scalable(n, v) => Scalable(n, v * factor)
    case Raw(_, _) => a
  }

  function ScaleCommand(c: Command, factor: real): (r: Command)
    ensures r.code == c.code && |r.args| == |c.args|
    ensures forall i :: 0 <= i < |c.args| ==> r.args[i] == ScaleArg(c.args[i], factor)
  {
    Command(c.code, seq(|c.args|, i requires 0 <= i < |c.args| => ScaleArg(c.args[i], factor)))
  }

  /** Scaling twice is scaling by the product; scaling by one changes
      nothing. */
  lemma ScaleArgCompose(a: Arg, f: real, g: real)
    ensures ScaleArg(ScaleArg(a, f), g) == ScaleArg(a, f * g)
    ensures ScaleArg(a, 1.0) == a
  {
    if a.Scalable? {
      assert a.value * f * g == a.value * (f * g);
    }
  }

  lemma ScaleCommandCompose(c: Command, f: real, g: real)
    ensures ScaleCommand(ScaleCommand(c, f), g) == ScaleCommand(c, f * g)
    ensures ScaleCommand(c, 1.0) == c
  {
    forall i | 0 <= i < |c.args| {
      ScaleArgCompose(c.args[i], f, g);
    }
  }

  /** `Arg.to_string`: the name, then the text or the number with three
      decimals. */
  function RenderArg(a: Arg, fixed3: real -> string): (s: string)
    ensures |s| >= 1 && s[0] == a.name
    ensures a.Raw? ==> s[1..] == a.text
    ensures a.Scalable? ==> s[1..] == fixed3(a.value)
  {
    match a
    case Scalable(n, v) => [n] + fixed3(v)
    case Raw(n, t) => [n] + t
  }

  function RenderArgs(args: seq<Arg>, fixed3: real -> string): (ss: seq<string>)
    ensures |ss| == |args| && forall i :: 0 <= i < |args| ==> ss[i] == RenderArg(args[i], fixed3)
  {
    seq(|args|, i requires 0 <= i < |args| => RenderArg(args[i], fixed3))
  }

  /** `Command.to_string`: the code, one space, and the arguments joined by
      single spaces (so a command without arguments ends in a space). */
  function RenderCommand(c: Command, fixed3: real -> string): (s: string)
    ensures c.args == [] ==> s == c.code + " "
    ensures StartsWith(s, c.code + " ")
  {
    var s := c.code + " " + Join(RenderArgs(c.args, fixed3), " ");
    assert s[..|c.code + " "|] == c.code + " ";
    s
  }

  /** An argument the formatter and the parser carry through unchanged: a
      scalable argument whose three-decimal text reads back as its value,
      or a raw one whose name is not a scalable letter; neither with
      whitespace. */
  predicate ArgSurvives(a: Arg, fixed3: real -> string, parse: string -> Option<real>) {
    !IsSpace(a.name)
    && match a
       case Scalable(n, v) =>
         IsScalable(n) && (forall i :: 0 <= i < |fixed3(v)| ==> !IsSpace(fixed3(v)[i])) && parse(fixed3(v)) == Some(v)
       case Raw(n, t) => !IsScalable(n) && forall i :: 0 <= i < |t| ==> !IsSpace(t[i])
  }

  predicate CommandSurvives(c: Command, fixed3: real -> string, parse: string -> Option<real>) {
    IsToken(c.code) && forall i :: 0 <= i < |c.args| ==> ArgSurvives(c.args[i], fixed3, parse)
  }

  lemma ArgRoundTrip(a: Arg, fixed3: real -> string, parse: string -> Option<real>)
    requires ArgSurvives(a, fixed3, parse)
    ensures IsToken(RenderArg(a, fixed3))
    ensures ParseArg(RenderArg(a, fixed3), parse) == Ok(a)
  {
    var s := RenderArg(a, fixed3);
    assert s == [a.name] + s[1..];
  }

  /** Writing a command out and reading it back gives the command. */
  lemma CommandRoundTrip(c: Command, fixed3: real -> string, parse: string -> Option<real>)
    requires CommandSurvives(c, fixed3, parse)
    ensures ParseCommand(RenderCommand(c, fixed3), parse).Ok?
    ensures ParseCommand(RenderCommand(c, fixed3), parse).value == c
  {
    var ra := RenderArgs(c.args, fixed3);
    forall i | 0 <= i < |c.args|
      ensures IsToken(ra[i]) && ParseArg(ra[i], parse) == Ok(c.args[i])
    {
      ArgRoundTrip(c.args[i], fixed3, parse);
    }
    var s := RenderCommand(c, fixed3);
    if ra == [] {
      assert s == c.code + " ";
      TokenLengthOf(c.code, " ");
      assert s[..|c.code|] == c.code && s[|c.code|..] == " ";
      assert Split(" ") == Split(" "[1..]);
      assert Split(s) == [c.code];
    } else {
      var parts := [c.code] + ra;
      assert parts[0] == c.code && parts[1..] == ra;
      assert Join(parts, " ") == s;
      SplitJoin(parts);
      assert Split(s) == parts;
    }
    assert Split(s)[1..] == ra;
    var args := ParseArgs(ra, parse);
    assert args.Ok? && args.value == c.args;
  }

  /** `Block`: a name and the parsed commands. */
  datatype Block = Block(name: string, cmds: seq<Command>)

  /** `Block.add`: a line starting with `(` (before stripping) is dropped;
      any other is parsed as a command and appended. */
  function Add(b: Block, line: string, parse: string -> Option<real>): (r: Result<Block>)
    ensures StartsWith(line, "(") ==> r == Ok(b)
    ensures !StartsWith(line, "(") ==> (r.Ok? <==> ParseCommand(line, parse).Ok?)
    ensures !StartsWith(line, "(") && r.Ok? ==> r.value.name == b.name && r.value.cmds == b.cmds + [ParseCommand(line, parse).value]
  {
    if StartsWith(line, "(") then Ok(b)
    else
      match ParseCommand(line, parse)
      case Err(e) => Err(e)
      case Ok(c) => Ok(Block(b.name, b.cmds + [c]))
  }

  /** `Block.scale`. */
  function ScaleBlock(b: Block, factor: real): (r: Block)
    ensures r.name == b.name && |r.cmds| == |b.cmds|
    ensures forall i :: 0 <= i < |b.cmds| ==> r.cmds[i] == ScaleCommand(b.cmds[i], factor)
  {
    Block(b.name, seq(|b.cmds|, i requires 0 <= i < |b.cmds| => ScaleCommand(b.cmds[i], factor)))
  }

  lemma ScaleBlockCompose(b: Block, f: real, g: real)
    ensures ScaleBlock(ScaleBlock(b, f), g) == ScaleBlock(b, f * g)
    ensures ScaleBlock(b, 1.0) == b
  {
    forall i | 0 <= i < |b.cmds| {
      ScaleCommandCompose(b.cmds[i], f, g);
    }
  }

  /** The rendered commands, one text each. */
  function RenderedLines(cmds: seq<Command>, fixed3: real -> string): (ls: seq<string>)
    ensures |ls| == |cmds|
    ensures forall i :: 0 <= i < |cmds| ==> ls[i] == RenderCommand(cmds[i], fixed3)
  {
    seq(|cmds|, i requires 0 <= i < |cmds| => RenderCommand(cmds[i], fixed3))
  }

  /** `Block.to_string`: the commands, one per line. */
  function BlockText(b: Block, fixed3: real -> string): string {
    Join(RenderedLines(b.cmds, fixed3), "\n")
  }

  /** Adding a command to a block adds one line to its text: the empty
      block has no text, and every later command follows a newline. */
  lemma BlockTextAppend(b: Block, c: Command, fixed3: real -> string)
    ensures BlockText(Block(b.name, []), fixed3) == ""
    ensures BlockText(Block(b.name, b.cmds + [c]), fixed3)
            == if b.cmds == [] then RenderCommand(c, fixed3)
               else BlockText(b, fixed3) + "\n" + RenderCommand(c, fixed3)
  {
    var lines := RenderedLines(b.cmds, fixed3);
    assert RenderedLines(b.cmds + [c], fixed3) == lines + [RenderCommand(c, fixed3)];
    if b.cmds != [] {
      JoinAppend(lines, [RenderCommand(c, fixed3)], "\n");
    }
  }

  /** `Program`: the closed blocks (`end()` can close a missing one) and
      the open block. */
  datatype Program = Program(blocks: seq<Option<Block>>, current: Option<Block>)

  const Initial: Program := Program([], None)

  const BeginMarker: string := "(Begin operation"
  const FinishMarker: string := "(Finish operation"

  predicate IsMarker(line: string) {
    StartsWith(line, BeginMarker) || StartsWith(line, FinishMarker)
  }

  /** `_rotate_block`: close the open block (even a missing one) and open
      an empty one. */
  function Rotate(p: Program, name: string): (q: Program)
    ensures q.blocks == p.blocks + [p.current] && q.current == Some(Block(name, []))
  {
    Program(p.blocks + [p.current], Some(Block(name, [])))
  }

  /** `digest`: an operation marker closes the open block and opens `new`;
      with no open block, `Setup` is opened; then the line is added. */
  function Digest(p: Program, line: string, parse: string -> Option<real>): (r: Result<Program>)
    ensures r.Ok? ==> r.value.current.Some?
    ensures r.Ok? ==> r.value.blocks == if p.current.Some? && IsMarker(line) then p.blocks + [p.current] else p.blocks
  {
    var rotated := if p.current.Some? && IsMarker(line) then Rotate(p, "new") else p;
    var open := if rotated.current.None? then Program(rotated.blocks, Some(Block("Setup", []))) else rotated;
    match Add(open.current.value, line, parse)
    case Err(e) => Err(e)
    case Ok(b) => Ok(Program(open.blocks, Some(b)))
  }

  function DigestAll(p: Program, lines: seq<string>, parse: string -> Option<real>): (r: Result<Program>)
    decreases |lines|
  {
    if lines == [] then Ok(p)
    else
      match Digest(p, lines[0], parse)
      case Err(e) => Err(e)
      case Ok(q) => DigestAll(q, lines[1..], parse)
  }

  /** `end`: close the open block; the `end` block opened is never
      written. */
  function End(p: Program): (q: Program)
    ensures q.blocks == p.blocks + [p.current]
  {
    Rotate(p, "end")
  }

  /** `to_string`: a `(Block: name)` header line, the block's text and a
      newline per closed block; a missing block has no name. */
  function ProgramText(bs: seq<Option<Block>>, fixed3: real -> string): (r: Result<string>)
    ensures r.Ok? <==> forall i :: 0 <= i < |bs| ==> bs[i].Some?
    decreases |bs|
  {
    if bs == [] then Ok("")
    else if bs[0].None? then Err("AttributeError: 'NoneType' object has no attribute 'name'")
    else
      match ProgramText(bs[1..], fixed3)
      case Err(e) =>
        assert exists i :: 1 <= i < |bs| && bs[i].None? by {
          var j :| 0 <= j < |bs[1..]| && bs[1..][j].None?;
          assert bs[j + 1].None?;
        }
        Err(e)
      case Ok(rest) =>
        assert forall i :: 1 <= i < |bs| ==> bs[i] == bs[1..][i - 1];
        Ok("(Block: " + bs[0].value.name + ")\n" + BlockText(bs[0].value, fixed3) + "\n" + rest)
  }

  function ToString(p: Program, fixed3: real -> string): Result<string> {
    ProgramText(p.blocks, fixed3)
  }

  /** The shape `digest` keeps: every closed block is present, the first
      is `Setup` and the later ones `new`; the open block is `Setup` until
      the first close and `new` after it. */
  predicate WellFormed(p: Program) {
    (forall i :: 0 <= i < |p.blocks| ==> p.blocks[i].Some?)
    && (p.blocks != [] ==> p.blocks[0].value.name == "Setup")
    && (forall i :: 1 <= i < |p.blocks| ==> p.blocks[i].value.name == "new")
    && (p.blocks != [] ==> p.current.Some? && p.current.value.name == "new")
    && (p.blocks == [] && p.current.Some? ==> p.current.value.name == "Setup")
  }

  lemma DigestKeepsShape(p: Program, line: string, parse: string -> Option<real>)
    requires WellFormed(p) && Digest(p, line, parse).Ok?
    ensures WellFormed(Digest(p, line, parse).value)
  {
  }

  lemma {:induction false} DigestAllKeepsShape(p: Program, lines: seq<string>, parse: string -> Option<real>)
    requires WellFormed(p) && DigestAll(p, lines, parse).Ok?
    ensures WellFormed(DigestAll(p, lines, parse).value)
    ensures lines != [] ==> DigestAll(p, lines, parse).value.current.Some?
    decreases |lines|
  {
    if lines != [] {
      var q := Digest(p, lines[0], parse).value;
      DigestKeepsShape(p, lines[0], parse);
      DigestAllKeepsShape(q, lines[1..], parse);
      if lines[1..] == [] {
        assert DigestAll(q, lines[1..], parse) == Ok(q);
      }
    }
  }

  /** The whole run: digest every line, then `end`, then write out. */
  function Run(lines: seq<string>, parse: string -> Option<real>, fixed3: real -> string): Result<string> {
    match DigestAll(Initial, lines, parse)
    case Err(e) => Err(e)
    case Ok(p) => ToString(End(p), fixed3)
  }

  /** Once at least one line has been digested, the output is written, its
      blocks are `Setup` and then `new` ones; with no line at all `end`
      closes a missing block and writing fails. */
  lemma RunShape(lines: seq<string>, parse: string -> Option<real>, fixed3: real -> string)
    requires DigestAll(Initial, lines, parse).Ok?
    ensures var bs := End(DigestAll(Initial, lines, parse).value).blocks;
            (lines != [] <==> Run(lines, parse, fixed3).Ok?)
            && (lines != [] ==> bs[0].value.name == "Setup" && forall i :: 1 <= i < |bs| ==> bs[i].value.name == "new")
  {
    var p := DigestAll(Initial, lines, parse).value;
    DigestAllKeepsShape(Initial, lines, parse);
    var bs := End(p).blocks;
    if lines == [] {
      assert p == Initial;
      assert bs[0].None?;
    } else {
      assert forall i :: 0 <= i < |bs| ==> bs[i].Some?;
      if p.blocks == [] {
        assert bs == [p.current];
      }
    }
  }

  /** The number of lines that are not dropped as comments. */
  function CommandLines(lines: seq<string>): nat
    decreases |lines|
  {
    if lines == [] then 0
    else (if StartsWith(lines[0], "(") then 0 else 1) + CommandLines(lines[1..])
  }

  /** The number of lines that close a block when one is open. */
  function Markers(lines: seq<string>): nat
    decreases |lines|
  {
    if lines == [] then 0
    else (if IsMarker(lines[0]) then 1 else 0) + Markers(lines[1..])
  }

  function BlockCommands(bs: seq<Option<Block>>): nat
    decreases |bs|
  {
    if bs == [] then 0
    else (if bs[0].Some? then |bs[0].value.cmds| else 0) + BlockCommands(bs[1..])
  }

  /** The commands held by a program, closed and open blocks together. */
  function Held(p: Program): nat {
    BlockCommands(p.blocks) + if p.current.Some? then |p.current.value.cmds| else 0
  }

  lemma {:induction false} BlockCommandsAppend(bs: seq<Option<Block>>, b: Option<Block>)
    ensures BlockCommands(bs + [b]) == BlockCommands(bs) + if b.Some? then |b.value.cmds| else 0
    decreases |bs|
  {
    if bs == [] {
      assert [b][1..] == [];
    } else {
      assert (bs + [b])[1..] == bs[1..] + [b];
      BlockCommandsAppend(bs[1..], b);
    }
  }

  /** One digested line adds one command unless it is a comment, and one
      block exactly when it is a marker with a block open. */
  lemma DigestCounts(p: Program, line: string, parse: string -> Option<real>)
    requires Digest(p, line, parse).Ok?
    ensures Held(Digest(p, line, parse).value) == Held(p) + if StartsWith(line, "(") then 0 else 1
    ensures |Digest(p, line, parse).value.blocks| == |p.blocks| + if p.current.Some? && IsMarker(line) then 1 else 0
  {
    if p.current.Some? && IsMarker(line) {
      BlockCommandsAppend(p.blocks, p.current);
    }
  }

  /** Every line that is not a comment becomes exactly one command, and a
      marker after the first line closes exactly one block. */
  lemma {:induction false} DigestAllCounts(p: Program, lines: seq<string>, parse: string -> Option<real>)
    requires DigestAll(p, lines, parse).Ok? && p.current.Some?
    ensures Held(DigestAll(p, lines, parse).value) == Held(p) + CommandLines(lines)
    ensures |DigestAll(p, lines, parse).value.blocks| == |p.blocks| + Markers(lines)
    decreases |lines|
  {
    if lines != [] {
      var q := Digest(p, lines[0], parse).value;
      DigestCounts(p, lines[0], parse);
      DigestAllCounts(q, lines[1..], parse);
    }
  }

  /** From the start: all command lines are held, and the closed blocks
      are the markers after the first line. */
  lemma RunCounts(lines: seq<string>, parse: string -> Option<real>)
    requires lines != [] && DigestAll(Initial, lines, parse).Ok?
    ensures Held(DigestAll(Initial, lines, parse).value) == CommandLines(lines)
    ensures |DigestAll(Initial, lines, parse).value.blocks| == Markers(lines[1..])
  {
    var q := Digest(Initial, lines[0], parse).value;
    DigestCounts(Initial, lines[0], parse);
    DigestKeepsShape(Initial, lines[0], parse);
    DigestAllCounts(q, lines[1..], parse);
  }
}
