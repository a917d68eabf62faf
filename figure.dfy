/**
 * `FigureLocal` (figure/mod.rs:143-236): the buffer, the open stroke, the
 * history and the current tool, colour and eraser size, driven by the
 * instructions of one frame at a time.
 *
 * `Fig` and the functions over it state what each instruction and each
 * render does; the class `FigureLocal` is proved against them.
 */
module Figure {
  import opened Wrappers
  import opened Pixels
  import opened Draw
  import opened Operations
  import opened Histories
  import opened Frames

  datatype Fig = Fig(grid: Grid, path: Option<seq<Coord>>, hist: Hist, color: Color, tool: Tool, size: u8)

  /** The history is valid and an open stroke is a non-empty path on the grid. */
  predicate ValidFig(f: Fig) {
    ValidHist(f.hist) && (f.path.Some? ==> |f.path.value| >= 1 && PathInGrid(f.path.value))
  }

  /** `FigureLocal::blank` (figure/mod.rs:154-163). */
  function BlankFig(): (f: Fig)
    ensures ValidFig(f) && f.grid == WhiteGrid() && f.path == None && f.hist.stack == []
    ensures f.color == Black && f.tool == Tool.Pencil && f.size == 16
  {
    Fig(WhiteGrid(), None, NewHist(), Black, Tool.Pencil, 16)
  }

  /** The operation the open stroke would become now. */
  function OpenStroke(f: Fig): (op: Operation)
    requires f.path.Some?
    ensures ValidFig(f) ==> ValidOp(op)
  {
    StrokeOp(f.tool, f.color, f.size, f.path.value)
  }

  /**
   * `FigureLocal::excute` (figure/mod.rs:172-216), with two corrections:
   * the history's push is `Pushed`, and `Clear` leaves the buffer to the
   * rendering of `Operation::Clear` instead of whitening it at once.
   */
  function Executed(f: Fig, ins: Instruction): (r: Fig)
    ensures r.size == f.size
    ensures !ins.Reset? ==> r.grid == f.grid
    ensures ins.Reset? ==> r.grid == WhiteGrid() && r.hist == NewHist()
    ensures !ins.SetColor? ==> r.color == f.color
    ensures !ins.SetTool? ==> r.tool == f.tool
    ensures r.hist.stack != f.hist.stack ==> ins.PointerUp? || ins.Clear? || ins.Reset?
  {
    match ins
    case PointerDown(c) => f.(path := Some([c]))
    case PointerMove(c) => if f.path.Some? then f.(path := Some(f.path.value + [c])) else f
    case PointerUp(c) =>
      if f.path.Some? then
        f.(path := None, hist := Pushed(f.hist, StrokeOp(f.tool, f.color, f.size, f.path.value + [c])))
      else f
    case SetColor(c) => f.(color := c)
    case SetTool(t) => f.(tool := t)
    case Clear => f.(hist := Pushed(f.hist, Operation.Clear))
    case Redo => f.(hist := Redone(f.hist))
    case Undo => f.(hist := Undone(f.hist))
    case Reset => f.(hist := Emptied(f.hist), grid := WhiteGrid())
  }

  /** `FigureLocal::excute` as written: the push of `PushedAsWritten` and the eager clear of the buffer. */
  function ExecutedAsWritten(f: Fig, ins: Instruction): (r: Fig)
    ensures !ins.Reset? ==> r.hist.beenRendered == f.hist.beenRendered
    ensures !ins.Reset? && !ins.Clear? ==> r.grid == f.grid
  {
    match ins
    case PointerUp(c) =>
      if f.path.Some? then
        f.(path := None, hist := PushedAsWritten(f.hist, StrokeOp(f.tool, f.color, f.size, f.path.value + [c])))
      else f
    case Clear => f.(grid := WhiteGrid(), hist := PushedAsWritten(f.hist, Operation.Clear))
    case _ => Executed(f, ins)
  }

  /** The instructions of a frame, executed in order. */
  function ExecutedAll(f: Fig, ins: seq<Instruction>): Fig
    decreases |ins|
  {
    if ins == [] then f else Executed(ExecutedAll(f, ins[..|ins| - 1]), ins[|ins| - 1])
  }

  function ExecutedAllAsWritten(f: Fig, ins: seq<Instruction>): Fig
    decreases |ins|
  {
    if ins == [] then f else ExecutedAsWritten(ExecutedAllAsWritten(f, ins[..|ins| - 1]), ins[|ins| - 1])
  }

  /**
   * `FigureLocal::render` (figure/mod.rs:218-236): the history is
   * rendered, then the open stroke is drawn on top as a preview. The
   * preview lands in the buffer, so the history is marked for a full
   * replay on the next render, which takes the preview out again.
   */
  ghost function Rendered(f: Fig, wide: WideBody): (r: Fig)
    requires ValidFig(f)
    ensures ValidFig(r) && Intent(r) == Intent(f)
    ensures f.path.None? ==> r.hist.beenRendered == r.hist.shouldRender
    ensures f.path.Some? ==> r.hist.beenRendered > r.hist.shouldRender
  {
    var g := RenderedGrid(f.grid, f.hist, wide);
    var h := RenderedHist(f.hist);
    if f.path.None? then f.(grid := g, hist := h)
    else f.(grid := ApplyOp(g, OpenStroke(f), wide), hist := Stale(h))
  }

  /** `FigureLocal::render` as written: the preview stays in the buffer. */
  ghost function RenderedAsWritten(f: Fig, wide: WideBody): (r: Fig)
    requires ValidFig(f)
    ensures ValidFig(r) && Intent(r) == Intent(f)
    ensures r.hist.beenRendered == r.hist.shouldRender
    ensures f.path.None? ==> r == Rendered(f, wide)
  {
    var g := RenderedGrid(f.grid, f.hist, wide);
    var h := RenderedHist(f.hist);
    if f.path.None? then f.(grid := g, hist := h)
    else f.(grid := ApplyOp(g, OpenStroke(f), wide), hist := h)
  }

  /** Instructions on the grid keep the figure valid. */
  lemma ExecuteValid(f: Fig, ins: Instruction)
    requires ValidFig(f) && InsInGrid(ins)
    ensures ValidFig(Executed(f, ins)) && ValidFig(ExecutedAsWritten(f, ins))
  {
    if ins.PointerUp? && f.path.Some? {
      var p := f.path.value + [ins.at];
      assert PathInGrid(p);
    }
    if ins.PointerMove? && f.path.Some? {
      assert PathInGrid(f.path.value + [ins.at]);
    }
  }

  lemma {:induction false} ExecuteAllValid(f: Fig, ins: seq<Instruction>)
    requires ValidFig(f) && AllInGrid(ins)
    ensures ValidFig(ExecutedAll(f, ins)) && ValidFig(ExecutedAllAsWritten(f, ins))
    decreases |ins|
  {
    if ins != [] {
      ExecuteAllValid(f, ins[..|ins| - 1]);
      ExecuteValid(ExecutedAll(f, ins[..|ins| - 1]), ins[|ins| - 1]);
      ExecuteValid(ExecutedAllAsWritten(f, ins[..|ins| - 1]), ins[|ins| - 1]);
    }
  }

  /** `FigureLocal::render_frame` (figure/mod.rs:165-170): every instruction in order, then one render. */
  ghost function FrameRendered(f: Fig, ins: seq<Instruction>, wide: WideBody): (r: Fig)
    requires ValidFig(f) && AllInGrid(ins)
    ensures ValidFig(r) && Intent(r) == Intent(ExecutedAll(f, ins))
  {
    ExecuteAllValid(f, ins);
    Rendered(ExecutedAll(f, ins), wide)
  }

  ghost function FrameRenderedAsWritten(f: Fig, ins: seq<Instruction>, wide: WideBody): (r: Fig)
    requires ValidFig(f) && AllInGrid(ins)
    ensures ValidFig(r) && Intent(r) == Intent(ExecutedAllAsWritten(f, ins))
  {
    ExecuteAllValid(f, ins);
    RenderedAsWritten(ExecutedAllAsWritten(f, ins), wide)
  }

  /**
   * What the figure should show: the live operations replayed onto a
   * white grid, and the open stroke drawn over them.
   */
  ghost function Picture(f: Fig, wide: WideBody): Grid
    requires ValidFig(f)
  {
    var live := Replay(WhiteGrid(), f.hist.stack[..f.hist.shouldRender], wide);
    if f.path.None? then live else ApplyOp(live, OpenStroke(f), wide)
  }

  ghost predicate Coherent(f: Fig, wide: WideBody) {
    Consistent(f.grid, f.hist, wide)
  }

  lemma BlankCoherent(wide: WideBody)
    ensures Coherent(BlankFig(), wide) && BlankFig().grid == Picture(BlankFig(), wide)
  {
  }

  /** Every instruction of the corrected interpreter keeps the buffer consistent with the history. */
  lemma ExecuteCoherent(f: Fig, ins: Instruction, wide: WideBody)
    requires ValidFig(f) && Coherent(f, wide)
    ensures Coherent(Executed(f, ins), wide)
  {
    match ins
    case PointerUp(c) =>
      if f.path.Some? {
        PushConsistent(f.grid, f.hist, StrokeOp(f.tool, f.color, f.size, f.path.value + [c]), wide);
      }
    case Clear => PushConsistent(f.grid, f.hist, Operation.Clear, wide);
    case Redo => RedoConsistent(f.grid, f.hist, wide);
    case Undo => UndoConsistent(f.grid, f.hist, wide);
    case _ =>
  }

  lemma {:induction false} ExecuteAllCoherent(f: Fig, ins: seq<Instruction>, wide: WideBody)
    requires ValidFig(f) && AllInGrid(ins) && Coherent(f, wide)
    ensures Coherent(ExecutedAll(f, ins), wide)
    decreases |ins|
  {
    if ins != [] {
      var f' := ExecutedAll(f, ins[..|ins| - 1]);
      ExecuteAllCoherent(f, ins[..|ins| - 1], wide);
      ExecuteAllValid(f, ins[..|ins| - 1]);
      ExecuteCoherent(f', ins[|ins| - 1], wide);
    }
  }

  /** A render from a consistent buffer shows exactly the picture, and stays consistent. */
  lemma RenderFigShows(f: Fig, wide: WideBody)
    requires ValidFig(f) && Coherent(f, wide)
    ensures ValidFig(Rendered(f, wide)) && Coherent(Rendered(f, wide), wide)
    ensures Rendered(f, wide).grid == Picture(Rendered(f, wide), wide)
  {
    RenderShowsLive(f.grid, f.hist, wide);
  }

  /**
   * The main property of the figure: after every frame, whatever its
   * instructions, the buffer shows the live operations of the history
   * with the open stroke on top, and the next frame starts consistent.
   */
  lemma FrameShowsPicture(f: Fig, ins: seq<Instruction>, wide: WideBody)
    requires ValidFig(f) && AllInGrid(ins) && Coherent(f, wide)
    ensures ValidFig(FrameRendered(f, ins, wide)) && Coherent(FrameRendered(f, ins, wide), wide)
    ensures FrameRendered(f, ins, wide).grid == Picture(FrameRendered(f, ins, wide), wide)
  {
    ExecuteAllValid(f, ins);
    ExecuteAllCoherent(f, ins, wide);
    RenderFigShows(ExecutedAll(f, ins), wide);
  }

  /** Everything of a figure but its buffer and `beenRendered`. */
  function Intent(f: Fig): (seq<Operation>, nat, Option<seq<Coord>>, Tool, Color, u8) {
    (f.hist.stack, f.hist.shouldRender, f.path, f.tool, f.color, f.size)
  }

  lemma ExecuteIntent(f1: Fig, f2: Fig, ins: Instruction)
    requires Intent(f1) == Intent(f2)
    ensures Intent(Executed(f1, ins)) == Intent(Executed(f2, ins))
  {
  }

  lemma {:induction false} ExecuteAllIntent(f1: Fig, f2: Fig, ins: seq<Instruction>)
    requires Intent(f1) == Intent(f2)
    ensures Intent(ExecutedAll(f1, ins)) == Intent(ExecutedAll(f2, ins))
    decreases |ins|
  {
    if ins != [] {
      ExecuteAllIntent(f1, f2, ins[..|ins| - 1]);
      ExecuteIntent(ExecutedAll(f1, ins[..|ins| - 1]), ExecutedAll(f2, ins[..|ins| - 1]), ins[|ins| - 1]);
    }
  }

  /**
   * The interpreter as written and the corrected one agree on everything
   * but the buffer and `beenRendered`, after any instructions.
   */
  /** One instruction: the two interpreters differ only in the buffer and `beenRendered`. */
  lemma ExecuteAgree(f: Fig, ins: Instruction)
    ensures Intent(ExecutedAsWritten(f, ins)) == Intent(Executed(f, ins))
    ensures ExecutedAsWritten(f, ins).hist.beenRendered == Executed(f, ins).hist.beenRendered || ins.PointerUp? || ins.Clear?
  {
  }

  lemma {:induction false} ExecuteAllAgree(f: Fig, ins: seq<Instruction>)
    ensures Intent(ExecutedAllAsWritten(f, ins)) == Intent(ExecutedAll(f, ins))
    decreases |ins|
  {
    if ins != [] {
      var prev, last := ins[..|ins| - 1], ins[|ins| - 1];
      ExecuteAllAgree(f, prev);
      ExecuteAgree(ExecutedAllAsWritten(f, prev), last);
      ExecuteIntent(ExecutedAllAsWritten(f, prev), ExecutedAll(f, prev), last);
    }
  }

  /** The same for whole frames, renders included. */
  lemma FrameAgree(f: Fig, ins: seq<Instruction>, wide: WideBody)
    requires ValidFig(f) && AllInGrid(ins)
    ensures Intent(FrameRenderedAsWritten(f, ins, wide)) == Intent(FrameRendered(f, ins, wide))
  {
    ExecuteAllAgree(f, ins);
  }

  lemma {:induction false} ExecuteAllAppend(f: Fig, a: seq<Instruction>, b: seq<Instruction>)
    ensures ExecutedAll(f, a + b) == ExecutedAll(ExecutedAll(f, a), b)
    decreases |b|
  {
    if b == [] {
      assert a + b == a;
    } else {
      assert (a + b)[..|a + b| - 1] == a + b[..|b| - 1];
      ExecuteAllAppend(f, a, b[..|b| - 1]);
    }
  }

  /**
   * How the instructions are cut into frames does not change the picture:
   * rendering after `a` and again after `b` leaves the same buffer as one
   * frame of `a + b`.
   */
  lemma FrameSplit(f: Fig, a: seq<Instruction>, b: seq<Instruction>, wide: WideBody)
    requires ValidFig(f) && AllInGrid(a) && AllInGrid(b) && Coherent(f, wide)
    ensures AllInGrid(a + b)
    ensures ValidFig(FrameRendered(f, a, wide))
    ensures FrameRendered(FrameRendered(f, a, wide), b, wide).grid == FrameRendered(f, a + b, wide).grid
  {
    AllInGridAppend(a, b);
    FrameShowsPicture(f, a, wide);
    var f1 := FrameRendered(f, a, wide);
    FrameShowsPicture(f1, b, wide);
    FrameShowsPicture(f, a + b, wide);
    ExecuteAllValid(f, a);
    assert Intent(f1) == Intent(ExecutedAll(f, a));
    ExecuteAllIntent(f1, ExecutedAll(f, a), b);
    ExecuteAllAppend(f, a, b);
  }

  /** `n` undo instructions. */
  function Undos(n: nat): (ins: seq<Instruction>)
    ensures |ins| == n && AllInGrid(ins)
    ensures forall i :: 0 <= i < n ==> ins[i] == Instruction.Undo
  {
    seq(n, _ => Instruction.Undo)
  }

  lemma {:induction false} UndosCursor(f: Fig, n: nat)
    ensures ExecutedAll(f, Undos(n)) == f.(hist := UndoTimes(f.hist, n))
    decreases n
  {
    if n > 0 {
      assert Undos(n)[..n - 1] == Undos(n - 1);
      UndosCursor(f, n - 1);
    }
  }

  lemma {:induction false} UndosCursorAsWritten(f: Fig, n: nat)
    ensures ExecutedAllAsWritten(f, Undos(n)) == f.(hist := UndoTimes(f.hist, n))
    decreases n
  {
    if n > 0 {
      assert Undos(n)[..n - 1] == Undos(n - 1);
      UndosCursorAsWritten(f, n - 1);
    }
  }

  /**
   * Full undo: from any consistent figure with no open stroke, a frame of
   * as many undos as there are live operations leaves an all-white buffer.
   */
  lemma UndoEverything(f: Fig, wide: WideBody)
    requires ValidFig(f) && Coherent(f, wide) && f.path.None?
    ensures FrameRendered(f, Undos(f.hist.shouldRender), wide).grid == WhiteGrid()
  {
    FrameShowsPicture(f, Undos(f.hist.shouldRender), wide);
    UndosCursor(f, f.hist.shouldRender);
    UndoTimesCursor(f.hist, f.hist.shouldRender);
  }

  /**
   * Full undo as written: a frame of as many undos as there are live
   * operations leaves an all-white buffer too, once anything was rendered
   * (the buffer is then cleared and nothing replayed) or the buffer
   * matches the history.
   */
  lemma UndoEverythingAsWritten(f: Fig, wide: WideBody)
    requires ValidFig(f) && f.path.None? && (f.hist.beenRendered >= 1 || Coherent(f, wide))
    ensures FrameRenderedAsWritten(f, Undos(f.hist.shouldRender), wide).grid == WhiteGrid()
  {
    var n := f.hist.shouldRender;
    UndosCursorAsWritten(f, n);
    UndoTimesCursor(f.hist, n);
    var e := f.(hist := UndoTimes(f.hist, n));
    assert e.hist.shouldRender == 0 && e.hist.beenRendered == f.hist.beenRendered;
    if f.hist.beenRendered == 0 {
      assert f.hist.stack[..0] == [];
    }
    assert RenderedAsWritten(e, wide).grid == RenderedGrid(f.grid, e.hist, wide);
  }

  /** `n` pointer moves along `ps`. */
  function Moves(ps: seq<Coord>): (ins: seq<Instruction>)
    ensures |ins| == |ps|
    ensures forall i :: 0 <= i < |ps| ==> ins[i] == PointerMove(ps[i])
  {
    seq(|ps|, i requires 0 <= i < |ps| => PointerMove(ps[i]))
  }

  lemma {:induction false} MovesExtend(f: Fig, p: seq<Coord>, ps: seq<Coord>)
    ensures ExecutedAll(f.(path := Some(p)), Moves(ps)) == f.(path := Some(p + ps))
    decreases |ps|
  {
    if ps == [] {
      assert p + ps == p;
    } else {
      var ps' := ps[..|ps| - 1];
      assert Moves(ps)[..|ps| - 1] == Moves(ps');
      MovesExtend(f, p, ps');
      assert p + ps' + [ps[|ps| - 1]] == p + ps;
    }
  }

  /**
   * A stroke — pointer down, moves, pointer up — pushes exactly one
   * operation, along every point in order, and leaves no stroke open.
   */
  lemma StrokeInOneFrame(f: Fig, a: Coord, ps: seq<Coord>, b: Coord)
    ensures ExecutedAll(f, [PointerDown(a)] + Moves(ps) + [PointerUp(b)])
         == f.(path := None, hist := Pushed(f.hist, StrokeOp(f.tool, f.color, f.size, [a] + ps + [b])))
  {
    var down := [PointerDown(a)];
    assert ExecutedAll(f, down) == f.(path := Some([a]));
    ExecuteAllAppend(f, down, Moves(ps));
    MovesExtend(f, [a], ps);
    ExecuteAllAppend(f, down + Moves(ps), [PointerUp(b)]);
  }

  /** The pointer instructions do what figure/mod.rs:174-198 says, and nothing else. */
  lemma PointerSteps(f: Fig, c: Coord)
    ensures Executed(f, PointerDown(c)) == f.(path := Some([c]))
    ensures f.path.None? ==> Executed(f, PointerMove(c)) == f && Executed(f, PointerUp(c)) == f
    ensures f.path.Some? ==> Executed(f, PointerUp(c)).path.None?
    ensures f.path.Some? && ValidHist(f.hist) ==>
      var h := Executed(f, PointerUp(c)).hist;
      && |h.stack| == f.hist.shouldRender + 1 == h.shouldRender
      && h.stack[..f.hist.shouldRender] == f.hist.stack[..f.hist.shouldRender]
      && h.stack[f.hist.shouldRender] == StrokeOp(f.tool, f.color, f.size, f.path.value + [c])
  {
  }

  /** `SetColor`, `SetTool`, `Redo`, `Undo` touch only the one field they name. */
  lemma SettingInstructions(f: Fig, c: Color, t: Tool)
    ensures Executed(f, SetColor(c)) == f.(color := c)
    ensures Executed(f, SetTool(t)) == f.(tool := t)
    ensures Executed(f, Instruction.Undo).hist.stack == f.hist.stack
    ensures Executed(f, Instruction.Redo).hist.stack == f.hist.stack
    ensures Executed(f, Instruction.Undo).grid == f.grid && Executed(f, Instruction.Redo).grid == f.grid
  {
  }

  /** `Reset` leaves an empty history over a white buffer, which render keeps white. */
  lemma ResetBlank(f: Fig, wide: WideBody)
    requires ValidFig(f)
    ensures Executed(f, Instruction.Reset).grid == WhiteGrid()
    ensures Executed(f, Instruction.Reset).hist == NewHist()
    ensures f.path.None? ==> FrameRendered(f, [Instruction.Reset], wide).grid == WhiteGrid()
  {
    assert ExecutedAll(f, [Instruction.Reset]) == Executed(f, Instruction.Reset);
  }

  /** `Clear` as written whitens the buffer at once and pushes `Operation::Clear`. */
  lemma ClearAsWritten(f: Fig)
    ensures ExecutedAsWritten(f, Instruction.Clear).grid == WhiteGrid()
    ensures ExecutedAsWritten(f, Instruction.Clear).hist == PushedAsWritten(f.hist, Operation.Clear)
  {
  }

  /** The corrected `Clear` whitens the buffer at the frame's render. */
  lemma ClearWhitens(f: Fig, wide: WideBody)
    requires ValidFig(f) && Coherent(f, wide) && f.path.None?
    ensures FrameRendered(f, [Instruction.Clear], wide).grid == WhiteGrid()
  {
    FrameShowsPicture(f, [Instruction.Clear], wide);
    assert ExecutedAll(f, [Instruction.Clear]) == Executed(f, Instruction.Clear);
    var h := Pushed(f.hist, Operation.Clear);
    assert h.stack[..h.shouldRender] == f.hist.stack[..f.hist.shouldRender] + [Operation.Clear];
    ApplyClear(Replay(WhiteGrid(), f.hist.stack[..f.hist.shouldRender], wide), wide);
  }

  /** A black stroke at `(0, 0)` as a tap leaves it: pointer down and up on the same cell. */
  function Tap(): Operation {
    Operation.Pencil([(0, 0), (0, 0)], Black)
  }

  lemma TapCells(g: Grid, wide: WideBody)
    ensures ApplyOp(g, Tap(), wide)[0][0] == Black
    ensures ApplyOp(g, Tap(), wide)[1][1] == g[1][1]
  {
    LineToItself((0, 0));
    assert (0, 0) in LinePoints((0, 0), (0, 0));
    assert Cells(Tap(), wide) == LineRegion((0, 0), (0, 0));
  }

  /** A tap at `(0, 0)`. */
  const TapIns: seq<Instruction> := [PointerDown((0, 0)), PointerUp((0, 0))]

  function Tapped(): Fig {
    BlankFig().(hist := Hist([Tap()], 0, 1))
  }

  ghost function TapShown(wide: WideBody): Fig {
    BlankFig().(grid := ApplyOp(WhiteGrid(), Tap(), wide), hist := Hist([Tap()], 1, 1))
  }

  lemma TapExecuted()
    ensures ExecutedAll(BlankFig(), TapIns) == Tapped()
    ensures ExecutedAllAsWritten(BlankFig(), TapIns) == Tapped()
  {
    assert TapIns[..1] == [PointerDown((0, 0))] && [PointerDown((0, 0))][..0] == [];
    assert [(0, 0)] + [(0, 0)] == [(0 as u8, 0 as u8), (0, 0)];
    assert ExecutedAll(BlankFig(), [PointerDown((0, 0))]) == BlankFig().(path := Some([(0, 0)]));
    assert ExecutedAllAsWritten(BlankFig(), [PointerDown((0, 0))]) == BlankFig().(path := Some([(0, 0)]));
  }

  lemma TapRendered(wide: WideBody)
    ensures ValidFig(Tapped())
    ensures Rendered(Tapped(), wide) == TapShown(wide)
    ensures RenderedAsWritten(Tapped(), wide) == TapShown(wide)
  {
    assert Tapped().hist.stack[0..1] == [Tap()] && [Tap()][..0] == [];
    assert Replay(WhiteGrid(), [Tap()], wide) == ApplyOp(WhiteGrid(), Tap(), wide);
  }

  /** One frame holding a tap at `(0, 0)`, rendered as written and as corrected. */
  lemma TapFrame(wide: WideBody)
    ensures AllInGrid(TapIns)
    ensures FrameRenderedAsWritten(BlankFig(), TapIns, wide) == TapShown(wide)
    ensures FrameRendered(BlankFig(), TapIns, wide) == TapShown(wide)
  {
    TapExecuted();
    TapRendered(wide);
  }

  /** `Clear`, then `Undo`. */
  const ClearUndoIns: seq<Instruction> := [Instruction.Clear, Instruction.Undo]

  lemma ClearUndoInGrid()
    ensures AllInGrid(ClearUndoIns)
  {
    assert forall i :: 0 <= i < |ClearUndoIns| ==> !ClearUndoIns[i].PointerDown? && !ClearUndoIns[i].PointerMove? && !ClearUndoIns[i].PointerUp?;
  }

  lemma ClearUndoExecuted(f: Fig)
    requires f.hist == Hist([Tap()], 1, 1)
    ensures ExecutedAllAsWritten(f, ClearUndoIns) == f.(grid := WhiteGrid(), hist := Hist([Tap(), Operation.Clear], 1, 1))
    ensures ExecutedAll(f, ClearUndoIns) == f.(hist := Hist([Tap(), Operation.Clear], 1, 1))
  {
    assert ClearUndoIns[..1] == [Instruction.Clear] && [Instruction.Clear][..0] == [];
    assert [Tap()][..1] + [Operation.Clear] == [Tap(), Operation.Clear];
  }

  lemma TapShownCoherent(wide: WideBody)
    ensures ValidFig(TapShown(wide)) && Coherent(TapShown(wide), wide)
    ensures Picture(TapShown(wide), wide) == ApplyOp(WhiteGrid(), Tap(), wide)
  {
    assert TapShown(wide).hist.stack[..1] == [Tap()] && [Tap()][..0] == [];
  }

  /** The figure after the tap frame and the executed `Clear`, `Undo`: as written, and as corrected. */
  ghost function ClearedAsWritten(wide: WideBody): Fig {
    TapShown(wide).(grid := WhiteGrid(), hist := Hist([Tap(), Operation.Clear], 1, 1))
  }

  ghost function Cleared(wide: WideBody): Fig {
    TapShown(wide).(hist := Hist([Tap(), Operation.Clear], 1, 1))
  }

  lemma ClearedRendered(wide: WideBody)
    ensures ValidFig(ClearedAsWritten(wide)) && ValidFig(Cleared(wide))
    ensures RenderedAsWritten(ClearedAsWritten(wide), wide).grid == WhiteGrid()
    ensures Picture(RenderedAsWritten(ClearedAsWritten(wide), wide), wide) == ApplyOp(WhiteGrid(), Tap(), wide)
    ensures Rendered(Cleared(wide), wide).grid == ApplyOp(WhiteGrid(), Tap(), wide)
    ensures Picture(Rendered(Cleared(wide), wide), wide) == ApplyOp(WhiteGrid(), Tap(), wide)
  {
    var st := [Tap(), Operation.Clear];
    assert st[1..1] == [] && st[..1] == [Tap()] && [Tap()][..0] == [];
  }

  /**
   * `Clear` as written, then `Undo`, in one frame after a tap: the history
   * says the tap is live again, but the buffer was whitened at once and
   * the render, seeing nothing new, leaves it white.
   */
  lemma ClearUndoAsWritten(wide: WideBody)
    ensures AllInGrid(TapIns) && AllInGrid(ClearUndoIns)
    ensures var f1 := FrameRenderedAsWritten(BlankFig(), TapIns, wide);
      && ValidFig(f1) && Coherent(f1, wide)
      && var f2 := FrameRenderedAsWritten(f1, ClearUndoIns, wide);
      && ValidFig(f2)
      && f2.grid == WhiteGrid()
      && Picture(f2, wide)[0][0] == Black
  {
    ClearUndoInGrid();
    TapFrame(wide);
    TapShownCoherent(wide);
    var f1 := TapShown(wide);
    assert ExecutedAllAsWritten(f1, ClearUndoIns) == ClearedAsWritten(wide) by {
      ClearUndoExecuted(f1);
    }
    var f2 := RenderedAsWritten(ClearedAsWritten(wide), wide);
    assert FrameRenderedAsWritten(f1, ClearUndoIns, wide) == f2;
    ClearedRendered(wide);
    assert Picture(f2, wide)[0][0] == Black by {
      TapCells(WhiteGrid(), wide);
    }
  }

  /** The corrected `Clear` in the same frames: the buffer shows the tap again. */
  lemma ClearUndo(wide: WideBody)
    ensures AllInGrid(TapIns) && AllInGrid(ClearUndoIns)
    ensures var f1 := FrameRendered(BlankFig(), TapIns, wide);
      && ValidFig(f1) && Coherent(f1, wide)
      && var f2 := FrameRendered(f1, ClearUndoIns, wide);
      && ValidFig(f2)
      && f2.grid == Picture(f2, wide) == ApplyOp(WhiteGrid(), Tap(), wide)
      && f2.grid[0][0] == Black
  {
    ClearUndoInGrid();
    TapFrame(wide);
    TapShownCoherent(wide);
    var f1 := TapShown(wide);
    assert ExecutedAll(f1, ClearUndoIns) == Cleared(wide) by {
      ClearUndoExecuted(f1);
    }
    var f2 := Rendered(Cleared(wide), wide);
    assert FrameRendered(f1, ClearUndoIns, wide) == f2;
    ClearedRendered(wide);
    assert f2.grid[0][0] == Black by {
      TapCells(WhiteGrid(), wide);
    }
  }

  /** The same tap at `(1, 1)`. */
  function TapOne(): Operation {
    Operation.Pencil([(1, 1), (1, 1)], Black)
  }

  lemma TapOneCells(g: Grid, wide: WideBody)
    ensures ApplyOp(g, TapOne(), wide)[1][1] == Black
    ensures ApplyOp(g, TapOne(), wide)[0][0] == g[0][0]
  {
    LineToItself((1, 1));
    assert (1, 1) in LinePoints((1, 1), (1, 1));
    assert Cells(TapOne(), wide) == LineRegion((1, 1), (1, 1));
  }

  /** `Undo`, then a tap at `(1, 1)`. */
  const UndoTapIns: seq<Instruction> := [Instruction.Undo, PointerDown((1, 1)), PointerUp((1, 1))]

  lemma UndoTapInGrid()
    ensures AllInGrid(UndoTapIns)
  {
    assert InGrid((1, 1));
  }

  lemma UndoTapExecuted(f: Fig)
    requires f.hist == Hist([Tap()], 1, 1) && f.path.None? && f.tool == Tool.Pencil && f.color == Black
    ensures ExecutedAllAsWritten(f, UndoTapIns) == f.(hist := Hist([TapOne()], 1, 1))
    ensures ExecutedAll(f, UndoTapIns) == f.(hist := Hist([TapOne()], 2, 1))
  {
    var undo, down := [Instruction.Undo], [Instruction.Undo, PointerDown((1, 1))];
    assert UndoTapIns[..2] == down && down[..1] == undo && undo[..0] == [];
    var h := Hist([Tap()], 1, 0);
    assert ExecutedAll(f, undo) == f.(hist := h);
    assert ExecutedAllAsWritten(f, undo) == f.(hist := h);
    assert ExecutedAll(f, down) == f.(hist := h, path := Some([(1, 1)]));
    assert ExecutedAllAsWritten(f, down) == f.(hist := h, path := Some([(1, 1)]));
    assert [(1, 1)] + [(1, 1)] == [(1 as u8, 1 as u8), (1, 1)];
    assert [Tap()][..0] == [];
  }

  /** The figure after the tap frame and the executed `Undo` and tap at `(1, 1)`: as written, and as corrected. */
  ghost function RetappedAsWritten(wide: WideBody): Fig {
    TapShown(wide).(hist := Hist([TapOne()], 1, 1))
  }

  ghost function Retapped(wide: WideBody): Fig {
    TapShown(wide).(hist := Hist([TapOne()], 2, 1))
  }

  lemma RetappedRendered(wide: WideBody)
    ensures ValidFig(RetappedAsWritten(wide)) && ValidFig(Retapped(wide))
    ensures RenderedAsWritten(RetappedAsWritten(wide), wide).grid == ApplyOp(WhiteGrid(), Tap(), wide)
    ensures Picture(RenderedAsWritten(RetappedAsWritten(wide), wide), wide) == ApplyOp(WhiteGrid(), TapOne(), wide)
    ensures Rendered(Retapped(wide), wide).grid == ApplyOp(WhiteGrid(), TapOne(), wide)
    ensures Picture(Rendered(Retapped(wide), wide), wide) == ApplyOp(WhiteGrid(), TapOne(), wide)
  {
    var st := [TapOne()];
    assert st[1..1] == [] && st[..1] == st && st[0..1] == st && st[..0] == [];
    assert Replay(WhiteGrid(), st, wide) == ApplyOp(WhiteGrid(), TapOne(), wide);
  }

  /**
   * The push as written loses an undo that shares a frame with the next
   * stroke: after a tap at `(0, 0)` and a frame of `Undo` and a tap at
   * `(1, 1)`, the history says only the second tap is live, but the
   * render draws nothing, so the buffer still shows the first tap and
   * never receives the second.
   */
  lemma PushAfterUndoAsWritten(wide: WideBody)
    ensures AllInGrid(TapIns) && AllInGrid(UndoTapIns)
    ensures var f1 := FrameRenderedAsWritten(BlankFig(), TapIns, wide);
      && ValidFig(f1) && Coherent(f1, wide)
      && var f2 := FrameRenderedAsWritten(f1, UndoTapIns, wide);
      && ValidFig(f2) && f2.hist.stack[..f2.hist.shouldRender] == [TapOne()]
      && f2.grid[0][0] == Black && f2.grid[1][1] == White
      && Picture(f2, wide)[0][0] == White && Picture(f2, wide)[1][1] == Black
  {
    UndoTapInGrid();
    TapFrame(wide);
    TapShownCoherent(wide);
    var f1 := TapShown(wide);
    var f2 := RenderedAsWritten(RetappedAsWritten(wide), wide);
    assert FrameRenderedAsWritten(f1, UndoTapIns, wide) == f2 by {
      assert ExecutedAllAsWritten(f1, UndoTapIns) == RetappedAsWritten(wide) by {
        UndoTapExecuted(f1);
      }
    }
    RetappedShownAsWritten(wide);
  }

  lemma RetappedShownAsWritten(wide: WideBody)
    ensures ValidFig(RetappedAsWritten(wide))
    ensures var f2 := RenderedAsWritten(RetappedAsWritten(wide), wide);
      && ValidFig(f2) && f2.hist.stack[..f2.hist.shouldRender] == [TapOne()]
      && f2.grid[0][0] == Black && f2.grid[1][1] == White
      && Picture(f2, wide)[0][0] == White && Picture(f2, wide)[1][1] == Black
  {
    RetappedRendered(wide);
    var f2 := RenderedAsWritten(RetappedAsWritten(wide), wide);
    assert f2.hist.stack[..f2.hist.shouldRender] == [TapOne()];
    assert f2.grid[0][0] == Black && f2.grid[1][1] == White by {
      TapCells(WhiteGrid(), wide);
    }
    assert Picture(f2, wide)[0][0] == White && Picture(f2, wide)[1][1] == Black by {
      TapOneCells(WhiteGrid(), wide);
    }
  }

  /** The corrected push in the same frames: the buffer shows exactly the second tap. */
  lemma PushAfterUndo(wide: WideBody)
    ensures AllInGrid(TapIns) && AllInGrid(UndoTapIns)
    ensures var f1 := FrameRendered(BlankFig(), TapIns, wide);
      && ValidFig(f1) && Coherent(f1, wide)
      && var f2 := FrameRendered(f1, UndoTapIns, wide);
      && ValidFig(f2)
      && f2.grid == Picture(f2, wide) == ApplyOp(WhiteGrid(), TapOne(), wide)
      && f2.grid[0][0] == White && f2.grid[1][1] == Black
  {
    UndoTapInGrid();
    TapFrame(wide);
    TapShownCoherent(wide);
    var f1 := TapShown(wide);
    var f2 := Rendered(Retapped(wide), wide);
    assert FrameRendered(f1, UndoTapIns, wide) == f2 by {
      assert ExecutedAll(f1, UndoTapIns) == Retapped(wide) by {
        UndoTapExecuted(f1);
      }
    }
    RetappedShown(wide);
  }

  lemma RetappedShown(wide: WideBody)
    ensures ValidFig(Retapped(wide))
    ensures var f2 := Rendered(Retapped(wide), wide);
      && ValidFig(f2)
      && f2.grid == Picture(f2, wide) == ApplyOp(WhiteGrid(), TapOne(), wide)
      && f2.grid[0][0] == White && f2.grid[1][1] == Black
  {
    RetappedRendered(wide);
    TapOneCells(WhiteGrid(), wide);
  }

  /** A stroke begun at `(0, 0)`, previewed at the end of its first frame. */
  function Previewed(): Fig {
    BlankFig().(path := Some([(0, 0)]))
  }

  ghost function PreviewShown(wide: WideBody, been: nat): Fig {
    Previewed().(grid := ApplyOp(WhiteGrid(), Dot(0, 0), wide), hist := Hist([], been, 0))
  }

  lemma PreviewFrame(wide: WideBody)
    ensures AllInGrid([PointerDown((0, 0))])
    ensures FrameRenderedAsWritten(BlankFig(), [PointerDown((0, 0))], wide) == PreviewShown(wide, 0)
    ensures FrameRendered(BlankFig(), [PointerDown((0, 0))], wide) == PreviewShown(wide, 1)
  {
    assert [PointerDown((0, 0))][..0] == [];
    assert ExecutedAll(BlankFig(), [PointerDown((0, 0))]) == Previewed();
    assert ExecutedAllAsWritten(BlankFig(), [PointerDown((0, 0))]) == Previewed();
    assert RenderedGrid(WhiteGrid(), NewHist(), wide) == WhiteGrid() by {
      assert NewHist().stack[0..0] == [];
    }
  }

  /** Pointer up at `(1, 1)`, then `Undo`. */
  const UpUndoIns: seq<Instruction> := [PointerUp((1, 1)), Instruction.Undo]

  function Diagonal(): Operation {
    Operation.Pencil([(0, 0), (1, 1)], Black)
  }

  lemma UpUndoExecuted(f: Fig)
    requires f.path == Some([(0, 0)]) && f.tool == Tool.Pencil && f.color == Black && f.hist.stack == []
    requires f.hist.shouldRender == 0
    ensures ExecutedAllAsWritten(f, UpUndoIns) == f.(path := None, hist := Hist([Diagonal()], f.hist.beenRendered, 0))
    ensures f.hist.beenRendered > 0 ==> ExecutedAll(f, UpUndoIns) == f.(path := None, hist := Hist([Diagonal()], 2, 0))
  {
    assert UpUndoIns[..1] == [PointerUp((1, 1))] && [PointerUp((1, 1))][..0] == [];
    assert [(0, 0)] + [(1, 1)] == [(0 as u8, 0 as u8), (1, 1)];
  }

  /**
   * The preview as written stays in the buffer: the stroke it previewed is
   * finished and undone in the next frame, nothing is live and no stroke is
   * open, yet the buffer still shows the preview's dot.
   */
  lemma PreviewPersistsAsWritten(wide: WideBody)
    ensures AllInGrid([PointerDown((0, 0))]) && AllInGrid(UpUndoIns)
    ensures var f1 := FrameRenderedAsWritten(BlankFig(), [PointerDown((0, 0))], wide);
      && ValidFig(f1)
      && var f2 := FrameRenderedAsWritten(f1, UpUndoIns, wide);
      && ValidFig(f2) && f2.path.None? && f2.hist.shouldRender == 0
      && Picture(f2, wide) == WhiteGrid()
      && f2.grid[0][0] == Black
  {
    PreviewFrame(wide);
    var f1 := PreviewShown(wide, 0);
    UpUndoExecuted(f1);
    var e := f1.(path := None, hist := Hist([Diagonal()], 0, 0));
    assert e.hist.stack[0..0] == [] && e.hist.stack[..0] == [];
    assert RenderedAsWritten(e, wide).grid == f1.grid;
    DotCells(WhiteGrid(), 0, 0, wide);
    assert Replay(WhiteGrid(), [Dot(0, 0)], wide) == ApplyOp(WhiteGrid(), Dot(0, 0), wide);
  }

  /** The corrected render in the same frames: the preview is gone. */
  lemma PreviewDropped(wide: WideBody)
    ensures AllInGrid([PointerDown((0, 0))]) && AllInGrid(UpUndoIns)
    ensures var f1 := FrameRendered(BlankFig(), [PointerDown((0, 0))], wide);
      && ValidFig(f1) && Coherent(f1, wide)
      && var f2 := FrameRendered(f1, UpUndoIns, wide);
      && f2.path.None? && f2.hist.shouldRender == 0
      && f2.grid == WhiteGrid()
  {
    PreviewFrame(wide);
    var f1 := PreviewShown(wide, 1);
    UpUndoExecuted(f1);
    var e := f1.(path := None, hist := Hist([Diagonal()], 2, 0));
    assert e.hist.stack[0..0] == [];
    assert Rendered(e, wide).grid == WhiteGrid();
  }

  /** `FigureLocal` (figure/mod.rs:143-150): the buffer and the drawing state around it. */
  class FigureLocal {
    const data: array2<Color>
    var path: Option<seq<Coord>>
    const history: History
    var color: Color
    var tool: Tool
    var size: u8
    /** The per-pixel test of `line_with_width`, which the model takes as given. */
    const wide: WideBody

    ghost function State(): Fig
      requires IsCanvas(data)
      reads this, history, data
    {
      Fig(Snapshot(data), path, history.State(), color, tool, size)
    }

    ghost predicate Valid()
      reads this, history, data
    {
      IsCanvas(data) && ValidFig(State())
    }

    /** `FigureLocal::blank` (figure/mod.rs:154-163). */
    constructor Blank(wide: WideBody)
      ensures Valid() && State() == BlankFig() && this.wide == wide
      ensures fresh(data) && fresh(history)
    {
      data := new Color[W, H]((_, _) => White);
      history := new History();
      path := None;
      color := Black;
      tool := Tool.Pencil;
      size := 16;
      this.wide := wide;
      new;
      SnapshotIs(data, WhiteGrid());
    }

    /** `FigureLocal::excute` (figure/mod.rs:172-216), with the eager clear dropped. */
    method Execute(ins: Instruction)
      requires Valid() && InsInGrid(ins)
      modifies this, history, data
      ensures Valid() && State() == Executed(old(State()), ins)
    {
      ExecuteValid(State(), ins);
      match ins
      case PointerDown(c) =>
        path := Some([c]);
      case PointerMove(c) =>
        if path.Some? {
          path := Some(path.value + [c]);
        }
      case PointerUp(c) =>
        if path.Some? {
          var p := path.value + [c];
          path := None;
          history.Push(StrokeOp(tool, color, size, p));
        }
      case SetColor(c) =>
        color := c;
      case SetTool(t) =>
        tool := t;
      case Clear =>
        history.Push(Operation.Clear);
      case Redo =>
        history.Redo();
      case Undo =>
        history.Undo();
      case Reset =>
        history.Clear();
        Pixels.Clear(data);
    }

    /**
     * `FigureLocal::render` (figure/mod.rs:218-236): the history, then the
     * open stroke as a preview, after which the history is marked stale.
     */
    method Render()
      requires Valid()
      modifies history, data
      ensures Valid() && State() == Rendered(old(State()), wide)
    {
      history.Render(data, wide);
      if path.Some? {
        RenderOp(data, StrokeOp(tool, color, size, path.value), wide);
        history.MarkStale();
      }
    }

    /** `FigureLocal::render_frame` (figure/mod.rs:165-170). */
    method RenderFrame(fr: Frame)
      requires Valid() && AllInGrid(fr.instructions)
      modifies this, history, data
      ensures Valid() && State() == FrameRendered(old(State()), fr.instructions, wide)
    {
      ghost var f0 := State();
      var i := 0;
      while i < |fr.instructions|
        invariant 0 <= i <= |fr.instructions|
        invariant Valid() && State() == ExecutedAll(f0, fr.instructions[..i])
      {
        Execute(fr.instructions[i]);
        assert fr.instructions[..i + 1][..i] == fr.instructions[..i];
        i := i + 1;
      }
      assert fr.instructions[..i] == fr.instructions;
      Render();
    }
  }
}
