/**
 * The drawing vocabulary of the figure module: tools, the instructions a
 * frame carries, the operations the history stores, and how one operation
 * is rendered onto the buffer (figure/mod.rs:36-89).
 */
module Operations {
  import opened Pixels
  import opened Draw

  datatype Tool = Eraser | Pencil

  /** One input event, as carried by frames and chunks. */
  datatype Instruction =
    | PointerDown(at: Coord)
    | PointerMove(at: Coord)
    | PointerUp(at: Coord)
    | SetColor(color: Color)
    | SetTool(tool: Tool)
    | Clear
    | Redo
    | Undo
    | Reset

  /** A finished stroke or a clear, as kept in the history. */
  datatype Operation =
    | Pencil(path: seq<Coord>, color: Color)
    | Eraser(path: seq<Coord>, size: u8)
    | Clear

  /** Every coordinate of `path` names a grid cell. */
  predicate PathInGrid(path: seq<Coord>) {
    forall i :: 0 <= i < |path| ==> InGrid(path[i])
  }

  /** An instruction's coordinate, if it has one, names a grid cell. */
  predicate InsInGrid(ins: Instruction) {
    (ins.PointerDown? || ins.PointerMove? || ins.PointerUp?) ==> InGrid(ins.at)
  }

  predicate AllInGrid(ins: seq<Instruction>) {
    forall i :: 0 <= i < |ins| ==> InsInGrid(ins[i])
  }

  lemma AllInGridAppend(a: seq<Instruction>, b: seq<Instruction>)
    requires AllInGrid(a) && AllInGrid(b)
    ensures AllInGrid(a + b)
  {
    forall i | 0 <= i < |a + b|
      ensures InsInGrid((a + b)[i])
    {
      if i >= |a| {
        assert (a + b)[i] == b[i - |a|];
      }
    }
  }

  /**
   * What `Operation::render` demands: a stroke is never empty (the source
   * reaches `unreachable!()` otherwise) and `line` and `point` index the
   * buffer without clamping.
   */
  predicate ValidOp(op: Operation) {
    op.Clear? || (|op.path| >= 1 && PathInGrid(op.path))
  }

  /** The operation a stroke along `path` becomes with the current tool (figure/mod.rs:185-194). */
  function StrokeOp(tool: Tool, color: Color, size: u8, path: seq<Coord>): (op: Operation)
    ensures !op.Clear? && op.path == path
    ensures op.Pencil? <==> tool == Tool.Pencil
  {
    match tool
    case Eraser => Operation.Eraser(path, size)
    case Pencil => Operation.Pencil(path, color)
  }

  /** The cells of the segments `line(path[i], path[i + 1])`, for every window of two. */
  ghost function PencilCells(path: seq<Coord>): Region
    decreases |path|
  {
    if |path| < 2 then iset{}
    else PencilCells(path[..|path| - 1]) + LineRegion(path[|path| - 2], path[|path| - 1])
  }

  /** The cells of the segments `line_with_width(path[i], path[i + 1], size)`. */
  ghost function EraserCells(path: seq<Coord>, size: u8, wide: WideBody): Region
    decreases |path|
  {
    if |path| < 2 then iset{}
    else EraserCells(path[..|path| - 1], size, wide) + WideRegion(path[|path| - 2], path[|path| - 1], size, wide)
  }

  /** Every cell of the grid. */
  ghost function AllCells(): Region {
    iset p: (int, int) | 0 <= p.0 < W && 0 <= p.1 < H
  }

  /** The cells an operation paints (figure/mod.rs:70-88). */
  ghost function Cells(op: Operation, wide: WideBody): Region {
    match op
    case Pencil(path, _) =>
      if |path| == 1 then iset{(path[0].0 as int, path[0].1 as int)} else PencilCells(path)
    case Eraser(path, size) =>
      if |path| == 1 then SquareRegion(path[0], size) else EraserCells(path, size, wide)
    case Clear => AllCells()
  }

  /** The colour an operation paints with: the eraser and `Clear` paint white. */
  function Ink(op: Operation): (c: Color)
    ensures !op.Pencil? ==> c == White
  {
    if op.Pencil? then op.color else White
  }

  /** The grid after rendering `op` onto `g`. */
  ghost function ApplyOp(g: Grid, op: Operation, wide: WideBody): Grid {
    Paint(g, Cells(op, wide), Ink(op))
  }

  /** Rendering `Clear` leaves an all-white grid, whatever was there. */
  lemma ApplyClear(g: Grid, wide: WideBody)
    ensures ApplyOp(g, Operation.Clear, wide) == WhiteGrid()
  {
    GridExt(ApplyOp(g, Operation.Clear, wide), WhiteGrid());
  }

  /** The grid after rendering `ops` onto `g` in order. */
  ghost function Replay(g: Grid, ops: seq<Operation>, wide: WideBody): Grid
    decreases |ops|
  {
    if ops == [] then g else ApplyOp(Replay(g, ops[..|ops| - 1], wide), ops[|ops| - 1], wide)
  }

  /** Rendering `a + b` is rendering `a` and then `b`. */
  lemma {:induction false} ReplayAppend(g: Grid, a: seq<Operation>, b: seq<Operation>, wide: WideBody)
    ensures Replay(g, a + b, wide) == Replay(Replay(g, a, wide), b, wide)
    decreases |b|
  {
    if b != [] {
      var b', op := b[..|b| - 1], b[|b| - 1];
      assert (a + b)[..|a + b| - 1] == a + b';
      assert (a + b)[|a + b| - 1] == op;
      ReplayAppend(g, a, b', wide);
      calc {
        Replay(g, a + b, wide);
        ApplyOp(Replay(g, a + b', wide), op, wide);
        ApplyOp(Replay(Replay(g, a, wide), b', wide), op, wide);
        Replay(Replay(g, a, wide), b, wide);
      }
    } else {
      assert a + b == a;
    }
  }

  /** What was drawn before a `Clear` no longer matters. */
  lemma ReplayAfterClear(g: Grid, a: seq<Operation>, b: seq<Operation>, wide: WideBody)
    ensures Replay(g, a + [Operation.Clear] + b, wide) == Replay(WhiteGrid(), b, wide)
  {
    ReplayAppend(g, a + [Operation.Clear], b, wide);
    assert (a + [Operation.Clear])[..|a + [Operation.Clear]| - 1] == a;
    ApplyClear(Replay(g, a, wide), wide);
  }

  /** The segments of a path include the segments of each of its prefixes. */
  lemma {:induction false} PencilCellsGrow(p: seq<Coord>, q: seq<Coord>)
    ensures PencilCells(p) <= PencilCells(p + q)
    decreases |q|
  {
    if q != [] {
      var q' := q[..|q| - 1];
      var pq := p + q;
      assert pq[..|pq| - 1] == p + q';
      PencilCellsGrow(p, q');
      if |pq| >= 2 {
        assert PencilCells(pq) == PencilCells(p + q') + LineRegion(pq[|pq| - 2], pq[|pq| - 1]);
      }
    } else {
      assert p + q == p;
    }
  }

  lemma {:induction false} EraserCellsGrow(p: seq<Coord>, q: seq<Coord>, size: u8, wide: WideBody)
    ensures EraserCells(p, size, wide) <= EraserCells(p + q, size, wide)
    decreases |q|
  {
    if q != [] {
      var q' := q[..|q| - 1];
      var pq := p + q;
      assert pq[..|pq| - 1] == p + q';
      EraserCellsGrow(p, q', size, wide);
      if |pq| >= 2 {
        assert EraserCells(pq, size, wide) == EraserCells(p + q', size, wide) + WideRegion(pq[|pq| - 2], pq[|pq| - 1], size, wide);
      }
    } else {
      assert p + q == p;
    }
  }

  /** The first segment of a path of two or more points is among its segments. */
  lemma {:induction false} FirstSegment(p: seq<Coord>)
    requires |p| >= 2
    ensures PencilCells(p[..2]) <= PencilCells(p)
  {
    PencilCellsGrow(p[..2], p[2..]);
    assert p[..2] + p[2..] == p;
  }

  /**
   * A stroke's cells include the cells of the stroke along any non-empty
   * prefix of its path: the preview drawn while the pointer is down is
   * covered by the operation the stroke finally becomes.
   */
  lemma StrokeCovers(tool: Tool, color: Color, size: u8, p: seq<Coord>, q: seq<Coord>, wide: WideBody)
    requires |p| >= 1
    ensures Cells(StrokeOp(tool, color, size, p), wide) <= Cells(StrokeOp(tool, color, size, p + q), wide)
  {
    var pq := p + q;
    if |p| == 1 && |q| >= 1 {
      assert pq[..2][..1] == [p[0]];
      match tool
      case Pencil =>
        LineShape(pq[0], pq[1]);
        assert (p[0].0 as int, p[0].1 as int) in LineRegion(pq[0], pq[1]);
        FirstSegment(pq);
        assert PencilCells(pq[..2]) == PencilCells(pq[..2][..1]) + LineRegion(pq[0], pq[1]);
      case Eraser =>
        EraserCellsGrow(pq[..2], pq[2..], size, wide);
        assert pq[..2] + pq[2..] == pq;
        assert EraserCells(pq[..2], size, wide) == EraserCells(pq[..2][..1], size, wide) + WideRegion(pq[0], pq[1], size, wide);
    } else if |p| >= 2 {
      PencilCellsGrow(p, q);
      EraserCellsGrow(p, q, size, wide);
    }
  }

  /** Extending a prefix of the path by one point adds one segment. */
  lemma PencilCellsNext(path: seq<Coord>, i: int)
    requires 0 <= i < |path| - 1
    ensures PencilCells(path[..i + 2]) == PencilCells(path[..i + 1]) + LineRegion(path[i], path[i + 1])
  {
    assert path[..i + 2][..i + 1] == path[..i + 1];
  }

  lemma EraserCellsNext(path: seq<Coord>, i: int, size: u8, wide: WideBody)
    requires 0 <= i < |path| - 1
    ensures EraserCells(path[..i + 2], size, wide)
         == EraserCells(path[..i + 1], size, wide) + WideRegion(path[i], path[i + 1], size, wide)
  {
    assert path[..i + 2][..i + 1] == path[..i + 1];
  }

  /** `path.windows(2).for_each(line)` (figure/mod.rs:76): one `line` per window of two points. */
  method Segments(data: array2<Color>, path: seq<Coord>, color: Color)
    requires IsCanvas(data) && PathInGrid(path)
    modifies data
    ensures Snapshot(data) == Paint(old(Snapshot(data)), PencilCells(path), color)
  {
    ghost var g0 := Snapshot(data);
    if |path| < 2 {
      PaintNothing(g0, PencilCells(path), color);
      return;
    }
    PaintNothing(g0, PencilCells(path[..1]), color);
    for i := 0 to |path| - 1
      invariant Snapshot(data) == Paint(g0, PencilCells(path[..i + 1]), color)
    {
      Line(data, path[i], path[i + 1], color);
      PencilCellsNext(path, i);
      PaintUnion(g0, PencilCells(path[..i + 1]), LineRegion(path[i], path[i + 1]), color);
    }
    assert path[..|path|] == path;
  }

  /** `path.windows(2).for_each(line_with_width)` (figure/mod.rs:83), in white. */
  method WideSegments(data: array2<Color>, path: seq<Coord>, size: u8, wide: WideBody)
    requires IsCanvas(data) && PathInGrid(path)
    modifies data
    ensures Snapshot(data) == Paint(old(Snapshot(data)), EraserCells(path, size, wide), White)
  {
    ghost var g0 := Snapshot(data);
    if |path| < 2 {
      PaintNothing(g0, EraserCells(path, size, wide), White);
      return;
    }
    PaintNothing(g0, EraserCells(path[..1], size, wide), White);
    for i := 0 to |path| - 1
      invariant Snapshot(data) == Paint(g0, EraserCells(path[..i + 1], size, wide), White)
    {
      LineWithWidth(data, path[i], path[i + 1], size, White, wide);
      EraserCellsNext(path, i, size, wide);
      PaintUnion(g0, EraserCells(path[..i + 1], size, wide), WideRegion(path[i], path[i + 1], size, wide), White);
    }
    assert path[..|path|] == path;
  }

  /**
   * `Operation::render` (figure/mod.rs:70-88): a one-point stroke is a
   * `point` or a `fill_square`, a longer one a segment per window of two
   * points, and `Clear` whitens the buffer.
   */
  method RenderOp(data: array2<Color>, op: Operation, wide: WideBody)
    requires IsCanvas(data) && ValidOp(op)
    modifies data
    ensures Snapshot(data) == ApplyOp(old(Snapshot(data)), op, wide)
  {
    match op
    case Pencil(path, color) =>
      if |path| == 1 {
        Point(data, path[0], color);
      } else {
        Segments(data, path, color);
      }
    case Eraser(path, size) =>
      if |path| == 1 {
        FillSquare(data, path[0], size, White);
      } else {
        WideSegments(data, path, size, wide);
      }
    case Clear =>
      ghost var g0 := Snapshot(data);
      Pixels.Clear(data);
      ApplyClear(g0, wide);
  }
}
