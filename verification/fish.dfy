/** The "fish" front engraving: a grid of half-circle arcs, every other row
    shifted by half a cell (`getPatternSize` and `getPatternBlock` of
    `src/job/front/front-engrave/fish.ts`, and the earlier revision
    `src/job/front-engrave/fish.ts`, which builds one part block per cell
    and merges it). */
module Fish {
  import opened Results
  import opened Points
  import opened Enums
  import opened Commands
  import opened Blocks
  import opened Toolpath

  /** `FitDimension`: which side the repeat count is fitted to; any other
      value is rejected. */
  datatype FitDimension = Horizontal | Vertical | OtherFit(name: string)

  /** The side of one cell and the numbers of rows and columns. */
  datatype Grid = Grid(size: real, rows: int, columns: int)

  /** What a cut needs besides the grid: the arc feedrate, the safe height
      and the number formatter of the comments. */
  datatype Params = Params(feedrate: real, safeHeight: real, fmt: Fmt)

  /** `getPatternSize`: fit `count` cells across the width (rows of half a
      cell fill twice the height), or `count` rows of half a cell down the
      height (whole cells fill the width). */
  function PatternSize(width: real, height: real, fit: FitDimension, count: int): (r: Result<Grid>)
    requires count >= 1
    requires fit.Horizontal? ==> width != 0.0
    requires fit.Vertical? ==> height != 0.0
    ensures r.Err? <==> fit.OtherFit?
    ensures r.Ok? ==> r.value.size != 0.0
    ensures r.Ok? && fit.Horizontal? ==> r.value.size * count as real == width
    ensures r.Ok? && fit.Horizontal? ==>
              r.value.columns == count
              && r.value.rows as real <= height * 2.0 / r.value.size < r.value.rows as real + 1.0
    ensures r.Ok? && fit.Vertical? ==> r.value.size * count as real == 2.0 * height
    ensures r.Ok? && fit.Vertical? ==>
              r.value.rows == count
              && r.value.columns as real <= width / r.value.size < r.value.columns as real + 1.0
  {
    match fit
    case Horizontal =>
      var size := Share(width, count as real);
      Ok(Grid(size, FloorOf(height * 2.0, size), count))
    case Vertical =>
      var size := Share(height * 2.0, count as real);
      Ok(Grid(size, count, FloorOf(width, size)))
    case OtherFit(name) => Err("Unsupported fit dimension: " + name)
  }

  /** `a / c` for a positive `c`: `c` shares of it make `a`. */
  function Share(a: real, c: real): (s: real)
    requires c > 0.0
    ensures s * c == a
    ensures a != 0.0 ==> s != 0.0
  {
    a / c
  }

  /** `Math.floor(a / d)`. */
  function FloorOf(a: real, d: real): (n: int)
    requires d != 0.0
    ensures n as real <= a / d < n as real + 1.0
  {
    (a / d).Floor
  }

  /** Half a cell: the radius of every arc. */
  function Half(g: Grid): real {
    g.size / 2.0
  }

  /** Even rows are shifted by half a cell. */
  predicate IsOffset(row: int) {
    row % 2 == 0
  }

  function ColOffset(g: Grid, row: int): real {
    if IsOffset(row) then -Half(g) else 0.0
  }

  /** The Y of the full arcs of a row: rows are half a cell apart. */
  function RowY(g: Grid, row: int): real {
    -(Half(g) * (row - 1) as real)
  }

  function RowCount(g: Grid): nat {
    if g.rows > 0 then g.rows else 0
  }

  function ColumnCount(g: Grid): nat {
    if g.columns > 0 then g.columns else 0
  }

  /** The setup comment: the grid as a JSON object. */
  function SetupLabel(g: Grid, fmt: Fmt): string {
    "Pattern setup: {\"pSize\":" + fmt.plain(g.size) + ",\"rows\":" + fmt.plain(g.rows as real)
    + ",\"columns\":" + fmt.plain(g.columns as real) + "}"
  }

  function PosLabel(row: int, col: int, fmt: Fmt): string {
    "POS:" + fmt.plain(row as real) + "X" + fmt.plain(col as real)
  }

  function ZOnly(z: real): MoveArg {
    MoveArg(None, None, Some(z), None)
  }

  /** The first column of a row starts by bringing the tool down to z 0. */
  function Down(col: int): seq<Command> {
    if col == 1 then [Comment("Bring down slowly to start cutting"), Move(ZOnly(0.0))] else []
  }

  /** Offset rows open with a quarter arc in the first column and close
      with one in the last. */
  function HalfArc(g: Grid, row: int, col: int, fr: real): seq<Command> {
    if IsOffset(row) && col == 1 then
      [Comment("Make starting half arc"),
       Arc(ArcArg(CW, Point(ColOffset(g, row), RowY(g, row)), Point(0.0, Half(g)), Some(fr)))]
    else if IsOffset(row) && col == g.columns then
      [Comment("Make ending half arc"),
       Arc(ArcArg(CW, Point(-(g.size * col as real), -(Half(g) * row as real)), Point(-Half(g), 0.0), Some(fr)))]
    else []
  }

  /** The half circle of a cell, skipped in the last column of an offset
      row. */
  function FullArc(g: Grid, row: int, col: int, fr: real): seq<Command> {
    if !(col == g.columns && IsOffset(row)) then
      [Comment(if IsOffset(row) then "Full arc WITH offset" else "Full arc WITHOUT offset"),
       Arc(ArcArg(CW, Point(-(g.size * col as real) + ColOffset(g, row), RowY(g, row)), Point(-Half(g), 0.0), Some(fr)))]
    else []
  }

  /** After the last column: lift to the safe height, then go to the start
      of the next row, or to the origin after the last row. */
  function RowEnd(g: Grid, row: int, col: int, safeHeight: real): seq<Command> {
    if row == g.rows && col == g.columns then
      [Comment("All rows and cols finished, go to origin"),
       MoveRapid(ZOnly(safeHeight)),
       MoveRapid(MoveArg(Some(0.0), Some(0.0), None, None))]
    else if col == g.columns then
      [Comment("End of cols, move to next row: " + if IsOffset(row) then "no offset" else "offset"),
       MoveRapid(ZOnly(safeHeight)),
       MoveRapid(MoveArg(Some(0.0),
                         Some(-(if !IsOffset(row) then Half(g) * row as real + Half(g) else Half(g) * row as real)),
                         None, None))]
    else []
  }

  /** The commands of the cell at (`row`, `col`). */
  function Cell(g: Grid, row: int, col: int, p: Params): seq<Command> {
    [Comment(PosLabel(row, col, p.fmt))] + Down(col) + HalfArc(g, row, col, p.feedrate)
    + FullArc(g, row, col, p.feedrate) + RowEnd(g, row, col, p.safeHeight)
  }

  /** The cells of columns 1 to `n` of a row. */
  function RowPrefix(g: Grid, row: int, n: nat, p: Params): seq<Command> {
    if n == 0 then [] else RowPrefix(g, row, n - 1, p) + Cell(g, row, n, p)
  }

  /** All cells of rows 1 to `m`, row by row. */
  function GridPrefix(g: Grid, m: nat, p: Params): seq<Command> {
    if m == 0 then [] else GridPrefix(g, m - 1, p) + RowPrefix(g, m, ColumnCount(g), p)
  }

  /** The pattern block: the setup comment, then every cell in row-major
      order. */
  function PatternCommands(g: Grid, p: Params): seq<Command> {
    [Comment(SetupLabel(g, p.fmt))] + GridPrefix(g, RowCount(g), p)
  }

  /** `getPatternBlock` of the current revision: the builder calls of every
      cell go to the one pattern block.  The arc feedrate is the engraving
      tool controller's. */
  method PatternBlock(g: Grid, p: Params) returns (b: Block)
    ensures b.commands == PatternCommands(g, p)
  {
    b := Apply(Empty, CommentCall(SetupLabel(g, p.fmt)));
    var row := 1;
    while row <= g.rows
      invariant 1 <= row <= RowCount(g) + 1
      invariant b.commands == [Comment(SetupLabel(g, p.fmt))] + GridPrefix(g, row - 1, p)
    {
      var before := b.commands;
      b := AddRow(b, g, row, p);
      AppendRow(before, [Comment(SetupLabel(g, p.fmt))], g, row, p);
      row := row + 1;
    }
  }

  /** The inner loop of the current revision: the cells of one row, left
      to right. */
  method AddRow(b0: Block, g: Grid, row: int, p: Params) returns (b: Block)
    ensures b.commands == b0.commands + RowPrefix(g, row, ColumnCount(g), p)
  {
    b := b0;
    var col := 1;
    while col <= g.columns
      invariant 1 <= col <= ColumnCount(g) + 1
      invariant b.commands == b0.commands + RowPrefix(g, row, col - 1, p)
    {
      AppendCell(b.commands, b0.commands, g, row, col, p);
      b := Block(b.commands + Cell(g, row, col, p));
      col := col + 1;
    }
  }

  /** `getPatternBlock` of the earlier revision: each cell is built in a
      part block of its own and merged into the pattern block.  The arc
      feedrate is the machine's. */
  method PartsPatternBlock(g: Grid, p: Params) returns (b: Block)
    ensures b.commands == PatternCommands(g, p)
  {
    b := Apply(Empty, CommentCall(SetupLabel(g, p.fmt)));
    var row := 1;
    while row <= g.rows
      invariant 1 <= row <= RowCount(g) + 1
      invariant b.commands == [Comment(SetupLabel(g, p.fmt))] + GridPrefix(g, row - 1, p)
    {
      var before := b.commands;
      b := MergeRow(b, g, row, p);
      AppendRow(before, [Comment(SetupLabel(g, p.fmt))], g, row, p);
      row := row + 1;
    }
  }

  /** The inner loop of the earlier revision: one part block per cell,
      merged in column order. */
  method MergeRow(b0: Block, g: Grid, row: int, p: Params) returns (b: Block)
    ensures b.commands == b0.commands + RowPrefix(g, row, ColumnCount(g), p)
  {
    b := b0;
    var col := 1;
    while col <= g.columns
      invariant 1 <= col <= ColumnCount(g) + 1
      invariant b.commands == b0.commands + RowPrefix(g, row, col - 1, p)
    {
      AppendCell(b.commands, b0.commands, g, row, col, p);
      var part := Block(Cell(g, row, col, p));
      b := Merge(b, part);
      col := col + 1;
    }
  }

  /** One more row after the rows before `row`. */
  lemma AppendRow(cs: seq<Command>, setup: seq<Command>, g: Grid, row: int, p: Params)
    requires 1 <= row && cs == setup + GridPrefix(g, row - 1, p)
    ensures cs + RowPrefix(g, row, ColumnCount(g), p) == setup + GridPrefix(g, row, p)
  {
    assert GridPrefix(g, row, p) == GridPrefix(g, row - 1, p) + RowPrefix(g, row, ColumnCount(g), p);
  }

  /** One more cell after the cells of columns before `col`. */
  lemma AppendCell(cs: seq<Command>, before: seq<Command>, g: Grid, row: int, col: int, p: Params)
    requires 1 <= col && cs == before + RowPrefix(g, row, col - 1, p)
    ensures cs + Cell(g, row, col, p) == before + RowPrefix(g, row, col, p)
  {
    assert RowPrefix(g, row, col, p) == RowPrefix(g, row, col - 1, p) + Cell(g, row, col, p);
  }

  /** `getPatternBlock` including the size computation, whose error
      propagates. */
  method GetPatternBlock(width: real, height: real, fit: FitDimension, count: int, p: Params)
    returns (r: Result<Block>)
    requires count >= 1
    requires fit.Horizontal? ==> width != 0.0
    requires fit.Vertical? ==> height != 0.0
    ensures r.Err? <==> fit.OtherFit?
    ensures r.Ok? ==> r.value.commands == PatternCommands(PatternSize(width, height, fit, count).value, p)
  {
    match PatternSize(width, height, fit, count)
    case Err(m) =>
      r := Err(m);
    case Ok(g) =>
      var b := PatternBlock(g, p);
      r := Ok(b);
  }

  /** Where the tool is when the cell at (`row`, `col`) starts. */
  function Start(g: Grid, row: int, col: int): Point {
    if col == 1 then Point(0.0, if IsOffset(row) then RowY(g, row) - Half(g) else RowY(g, row))
    else ArcStart(g, row, col)
  }

  /** Where the full arc of the cell at (`row`, `col`) starts. */
  function ArcStart(g: Grid, row: int, col: int): Point {
    Point(-(g.size * (col - 1) as real) + ColOffset(g, row), RowY(g, row))
  }

  /** Where the tool is when the cell at (`row`, `col`) is done. */
  function CellEnd(g: Grid, row: int, col: int): Point {
    if col != g.columns then Start(g, row, col + 1)
    else if row == g.rows then Origin
    else Start(g, row + 1, 1)
  }

  /** The commands before and after the arcs do not move in XY. */
  lemma OpeningTrack(g: Grid, row: int, col: int, p: Params, q: Point)
    ensures AfterAll(q, [Comment(PosLabel(row, col, p.fmt))] + Down(col)) == q
    ensures Consistent(q, [Comment(PosLabel(row, col, p.fmt))] + Down(col))
  {
    var cs := [Comment(PosLabel(row, col, p.fmt))] + Down(col);
    assert forall i :: 0 <= i < |cs| ==> Still(cs[i]);
    StillTrack(q, cs);
  }

  /** The quarter arcs of offset rows end on their circle. */
  lemma HalfArcTrack(g: Grid, row: int, col: int, p: Params)
    requires 1 <= col <= g.columns
    ensures Consistent(Start(g, row, col), HalfArc(g, row, col, p.feedrate))
    ensures IsOffset(row) && col == 1 ==> AfterAll(Start(g, row, col), HalfArc(g, row, col, p.feedrate)) == ArcStart(g, row, col)
    ensures !IsOffset(row) ==> AfterAll(Start(g, row, col), HalfArc(g, row, col, p.feedrate)) == Start(g, row, col)
    ensures IsOffset(row) && 1 < col < g.columns ==> AfterAll(Start(g, row, col), HalfArc(g, row, col, p.feedrate)) == Start(g, row, col)
  {
    var h := Half(g);
    var s := Start(g, row, col);
    var arcs := HalfArc(g, row, col, p.feedrate);
    if IsOffset(row) && col == 1 {
      var a := arcs[1].arc;
      var c := Centre(s, a);
      assert c == Point(0.0, RowY(g, row));
      assert a.end.x - c.x == -h && a.end.y - c.y == 0.0;
      assert s.x - c.x == 0.0 && s.y - c.y == -h;
      assert Square(-h) == Square(h);
      assert ArcConsistent(s, a);
      ArcTrack(s, a);
      AppendTrack(s, [arcs[0]], [arcs[1]]);
      assert arcs == [arcs[0]] + [arcs[1]];
      assert ArcStart(g, row, col) == Point(-(g.size * 0 as real) - h, RowY(g, row));
    } else if IsOffset(row) && col == g.columns {
      var a := arcs[1].arc;
      assert s == ArcStart(g, row, col);
      var c := Centre(s, a);
      assert c.x == -(g.size * (col - 1) as real) - h - h;
      assert g.size * (col - 1) as real == g.size * col as real - g.size;
      assert c.x == -(g.size * col as real);
      assert c.y == RowY(g, row);
      assert a.end.y == RowY(g, row) - h;
      assert a.end.x - c.x == 0.0 && a.end.y - c.y == -h;
      assert s.x - c.x == h && s.y - c.y == 0.0;
      assert Square(-h) == Square(h);
      assert ArcConsistent(s, a);
      ArcTrack(s, a);
      AppendTrack(s, [arcs[0]], [arcs[1]]);
      assert arcs == [arcs[0]] + [arcs[1]];
    } else {
      assert arcs == [];
    }
  }

  /** The half circle of a cell ends on its circle, one cell further
      left. */
  lemma FullArcTrack(g: Grid, row: int, col: int, p: Params)
    requires 1 <= col <= g.columns && !(col == g.columns && IsOffset(row))
    ensures Consistent(ArcStart(g, row, col), FullArc(g, row, col, p.feedrate))
    ensures AfterAll(ArcStart(g, row, col), FullArc(g, row, col, p.feedrate)) == ArcStart(g, row, col + 1)
  {
    var h := Half(g);
    var s := ArcStart(g, row, col);
    var arcs := FullArc(g, row, col, p.feedrate);
    var a := arcs[1].arc;
    var c := Centre(s, a);
    assert g.size * (col - 1) as real == g.size * col as real - g.size;
    assert g.size == h + h;
    assert c.x == -(g.size * col as real) + h + ColOffset(g, row) && c.y == RowY(g, row);
    assert a.end.x - c.x == -h && a.end.y - c.y == 0.0;
    assert s.x - c.x == h && s.y - c.y == 0.0;
    assert Square(-h) == Square(h);
    assert ArcConsistent(s, a);
    ArcTrack(s, a);
    AppendTrack(s, [arcs[0]], [arcs[1]]);
    assert arcs == [arcs[0]] + [arcs[1]];
    assert a.end == ArcStart(g, row, col + 1);
  }

  /** The end of a row moves to the start of the next one. */
  lemma RowEndTrack(g: Grid, row: int, col: int, p: Params, q: Point)
    requires 1 <= row <= g.rows && 1 <= col <= g.columns
    requires col != g.columns ==> q == Start(g, row, col + 1)
    ensures Consistent(q, RowEnd(g, row, col, p.safeHeight))
    ensures AfterAll(q, RowEnd(g, row, col, p.safeHeight)) == CellEnd(g, row, col)
  {
    var cs := RowEnd(g, row, col, p.safeHeight);
    if col == g.columns {
      var h := Half(g);
      StillTrack(q, cs[..2]);
      MoveTrack(q, cs[2]);
      AppendTrack(q, cs[..2], [cs[2]]);
      assert cs == cs[..2] + [cs[2]];
      if row != g.rows {
        if IsOffset(row) {
          assert !IsOffset(row + 1);
          assert RowY(g, row + 1) == -(h * row as real);
        } else {
          assert IsOffset(row + 1);
          assert RowY(g, row + 1) - h == -(h * row as real + h);
        }
      }
    } else {
      assert cs == [];
    }
  }

  /** Every arc of a cell ends on its circle, and the cell leaves the tool
      where the next cell starts. */
  lemma CellTrack(g: Grid, row: int, col: int, p: Params)
    requires 1 <= row <= g.rows && 1 <= col <= g.columns
    ensures Consistent(Start(g, row, col), Cell(g, row, col, p))
    ensures AfterAll(Start(g, row, col), Cell(g, row, col, p)) == CellEnd(g, row, col)
  {
    var s := Start(g, row, col);
    var open := [Comment(PosLabel(row, col, p.fmt))] + Down(col);
    var half := HalfArc(g, row, col, p.feedrate);
    var full := FullArc(g, row, col, p.feedrate);
    var tail := RowEnd(g, row, col, p.safeHeight);
    assert Cell(g, row, col, p) == open + half + full + tail;
    OpeningTrack(g, row, col, p, s);
    HalfArcTrack(g, row, col, p);
    var m := AfterAll(s, half);
    AppendTrack(s, open, half);
    if !(col == g.columns && IsOffset(row)) {
      if col != 1 || !IsOffset(row) {
        assert s == ArcStart(g, row, col) by {
          if col == 1 {
            assert g.size * (col - 1) as real == 0.0;
          }
        }
      }
      assert m == ArcStart(g, row, col);
      FullArcTrack(g, row, col, p);
      AppendTrack(s, open + half, full);
      var e := AfterAll(s, open + half + full);
      assert e == ArcStart(g, row, col + 1);
      RowEndTrack(g, row, col, p, e);
      AppendTrack(s, open + half + full, tail);
    } else {
      assert full == [];
      assert open + half + full == open + half;
      RowEndTrack(g, row, col, p, m);
      AppendTrack(s, open + half, tail);
    }
  }

  /** Along a row the cells chain up: every arc ends on its circle and the
      tool ends where the last cell done leaves it. */
  lemma {:induction false} RowTrack(g: Grid, row: int, n: nat, p: Params)
    requires 1 <= row <= g.rows && 1 <= n <= g.columns
    ensures Consistent(Start(g, row, 1), RowPrefix(g, row, n, p))
    ensures AfterAll(Start(g, row, 1), RowPrefix(g, row, n, p)) == CellEnd(g, row, n)
  {
    var s := Start(g, row, 1);
    if n == 1 {
      assert RowPrefix(g, row, 1, p) == Cell(g, row, 1, p);
      CellTrack(g, row, 1, p);
    } else {
      RowTrack(g, row, n - 1, p);
      CellTrack(g, row, n, p);
      AppendTrack(s, RowPrefix(g, row, n - 1, p), Cell(g, row, n, p));
    }
  }

  /** Row after row, the arcs end on their circles and each row leaves the
      tool at the start of the next. */
  lemma {:induction false} GridTrack(g: Grid, m: nat, p: Params)
    requires 1 <= m <= g.rows && 1 <= g.columns
    ensures Consistent(Origin, GridPrefix(g, m, p))
    ensures AfterAll(Origin, GridPrefix(g, m, p)) == CellEnd(g, m, g.columns)
  {
    assert Start(g, 1, 1) == Origin;
    if m == 1 {
      assert GridPrefix(g, 1, p) == RowPrefix(g, 1, g.columns, p);
      RowTrack(g, 1, g.columns, p);
    } else {
      GridTrack(g, m - 1, p);
      assert CellEnd(g, m - 1, g.columns) == Start(g, m, 1);
      RowTrack(g, m, g.columns, p);
      AppendTrack(Origin, GridPrefix(g, m - 1, p), RowPrefix(g, m, g.columns, p));
    }
  }

  /** Started at the origin, every arc of the pattern ends on the circle it
      starts on, and the pattern leaves the tool back at the origin. */
  lemma PatternTrack(g: Grid, p: Params)
    ensures Consistent(Origin, PatternCommands(g, p))
    ensures g.columns >= 1 ==> AfterAll(Origin, PatternCommands(g, p)) == Origin
  {
    var setup := [Comment(SetupLabel(g, p.fmt))];
    StillTrack(Origin, setup);
    AppendTrack(Origin, setup, GridPrefix(g, RowCount(g), p));
    if RowCount(g) >= 1 && g.columns >= 1 {
      GridTrack(g, RowCount(g), p);
    } else {
      EmptyGrid(g, RowCount(g), p);
    }
  }

  /** With no rows or no columns there are no cells. */
  lemma {:induction false} EmptyGrid(g: Grid, m: nat, p: Params)
    requires m == 0 || g.columns < 1
    ensures GridPrefix(g, m, p) == []
  {
    if m != 0 {
      EmptyGrid(g, m - 1, p);
      assert RowPrefix(g, m, ColumnCount(g), p) == [];
    }
  }
}
