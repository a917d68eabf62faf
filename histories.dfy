/**
 * The undo/redo history of a figure (figure/mod.rs:91-141): the stack of
 * finished operations, a cursor `shouldRender` of how many of them are
 * live, and `beenRendered`, how many the buffer already shows.
 *
 * `Hist` and the functions over it state what each operation does to the
 * history; `History` is the object the figure owns, proved against them.
 */
module Histories {
  import opened Pixels
  import opened Draw
  import opened Operations

  datatype Hist = Hist(stack: seq<Operation>, beenRendered: nat, shouldRender: nat)

  /** The cursor never passes the end of the stack and every stored operation can be rendered. */
  predicate ValidHist(h: Hist) {
    h.shouldRender <= |h.stack| && forall i :: 0 <= i < |h.stack| ==> ValidOp(h.stack[i])
  }

  /** `History::new` (figure/mod.rs:98-104). */
  function NewHist(): (h: Hist)
    ensures ValidHist(h) && h.stack == []
  {
    Hist([], 0, 0)
  }

  /** `History::redo` (figure/mod.rs:106-110): one more operation becomes live, if there is one. */
  function Redone(h: Hist): (r: Hist)
    ensures r.stack == h.stack && r.beenRendered == h.beenRendered
    ensures ValidHist(h) ==> ValidHist(r)
  {
    if h.shouldRender < |h.stack| then h.(shouldRender := h.shouldRender + 1) else h
  }

  /** `History::undo` (figure/mod.rs:112-116): one fewer operation is live, if any is. */
  function Undone(h: Hist): (r: Hist)
    ensures r.stack == h.stack && r.beenRendered == h.beenRendered
    ensures ValidHist(h) ==> ValidHist(r)
  {
    if h.shouldRender > 0 then h.(shouldRender := h.shouldRender - 1) else h
  }

  function Min(a: nat, b: nat): nat {
    if a < b then a else b
  }

  /**
   * `History::push` as written (figure/mod.rs:118-122): the operations past
   * the cursor are dropped, `op` is appended and becomes live.
   * `beenRendered` is left alone even when it counted dropped operations.
   */
  function PushedAsWritten(h: Hist, op: Operation): (r: Hist)
    ensures r.stack == h.stack[..Min(h.shouldRender, |h.stack|)] + [op]
    ensures r.shouldRender == h.shouldRender + 1 && r.beenRendered == h.beenRendered
  {
    Hist(h.stack[..Min(h.shouldRender, |h.stack|)] + [op], h.beenRendered, h.shouldRender + 1)
  }

  /**
   * `History::push` with the stale-pixel case closed: when operations the
   * buffer already shows are dropped, `beenRendered` is set past the
   * cursor, so the next `render` clears the buffer and replays the stack.
   */
  function Pushed(h: Hist, op: Operation): (r: Hist)
    ensures r.stack == h.stack[..Min(h.shouldRender, |h.stack|)] + [op]
    ensures r.shouldRender == h.shouldRender + 1
    ensures ValidHist(h) && ValidOp(op) ==> ValidHist(r) && r.shouldRender == |r.stack|
  {
    var kept := h.stack[..Min(h.shouldRender, |h.stack|)];
    var been := if h.beenRendered > h.shouldRender then |kept| + 2 else h.beenRendered;
    Hist(kept + [op], been, h.shouldRender + 1)
  }

  /** `History::clear` (figure/mod.rs:124-128). */
  function Emptied(h: Hist): (r: Hist)
    ensures ValidHist(r) && r.stack == [] && r.shouldRender == 0 && r.beenRendered == 0
    ensures r == NewHist()
  {
    Hist([], 0, 0)
  }

  /**
   * `History::render` (figure/mod.rs:130-140): if operations were undone
   * since the last render, the buffer is cleared and replayed from the
   * start; otherwise only the operations between `beenRendered` and the
   * cursor are drawn on top.
   */
  ghost function RenderedGrid(g: Grid, h: Hist, wide: WideBody): (r: Grid)
    requires h.shouldRender <= |h.stack|
    ensures h.beenRendered == h.shouldRender ==> r == g
    ensures h.beenRendered > h.shouldRender && h.shouldRender == 0 ==> r == WhiteGrid()
  {
    if h.beenRendered > h.shouldRender then Replay(WhiteGrid(), h.stack[0..h.shouldRender], wide)
    else Replay(g, h.stack[h.beenRendered..h.shouldRender], wide)
  }

  /** After `render` the buffer shows exactly the live operations. */
  function RenderedHist(h: Hist): (r: Hist)
    ensures r.stack == h.stack && r.shouldRender == h.shouldRender
    ensures r.beenRendered == r.shouldRender
  {
    h.(beenRendered := h.shouldRender)
  }

  /**
   * The history with the buffer marked as holding something it does not
   * record, so that the next `render` clears and replays from the start.
   */
  function Stale(h: Hist): (r: Hist)
    ensures r.stack == h.stack && r.shouldRender == h.shouldRender
    ensures ValidHist(h) ==> ValidHist(r) && r.beenRendered > r.shouldRender
  {
    h.(beenRendered := |h.stack| + 1)
  }

  /**
   * The buffer shows what the history says it shows: the first
   * `beenRendered` operations replayed onto a white grid (once
   * `beenRendered` lies past the stack, the next render starts over).
   */
  ghost predicate Consistent(g: Grid, h: Hist, wide: WideBody) {
    h.beenRendered <= |h.stack| ==> g == Replay(WhiteGrid(), h.stack[..h.beenRendered], wide)
  }

  /** One more operation rendered: the replay of `ops[lo..idx + 1]` is that of `ops[lo..idx]` and then `ops[idx]`. */
  lemma ReplayStep(g: Grid, ops: seq<Operation>, lo: nat, idx: nat, wide: WideBody)
    requires lo <= idx < |ops|
    ensures Replay(g, ops[lo..idx + 1], wide) == ApplyOp(Replay(g, ops[lo..idx], wide), ops[idx], wide)
  {
    var s := ops[lo..idx + 1];
    assert s != [] && s[..|s| - 1] == ops[lo..idx] && s[|s| - 1] == ops[idx];
    assert Replay(g, s, wide) == ApplyOp(Replay(g, s[..|s| - 1], wide), s[|s| - 1], wide);
  }

  /** The loop of `History::render`: operations `lo` to `hi` rendered onto the buffer in order. */
  method RenderRange(data: array2<Color>, ops: seq<Operation>, lo: nat, hi: nat, wide: WideBody)
    requires IsCanvas(data) && lo <= hi <= |ops|
    requires forall i :: 0 <= i < |ops| ==> ValidOp(ops[i])
    modifies data
    ensures Snapshot(data) == Replay(old(Snapshot(data)), ops[lo..hi], wide)
  {
    ghost var base := Snapshot(data);
    for idx := lo to hi
      invariant Snapshot(data) == Replay(base, ops[lo..idx], wide)
    {
      RenderOp(data, ops[idx], wide);
      ReplayStep(base, ops, lo, idx, wide);
    }
  }

  /** A fresh history over a white buffer is consistent. */
  lemma NewConsistent(wide: WideBody)
    ensures Consistent(WhiteGrid(), NewHist(), wide)
    ensures Consistent(WhiteGrid(), Emptied(NewHist()), wide)
  {
  }

  /**
   * The main property of `render`: from a consistent buffer it leaves the
   * buffer showing exactly the live operations, and consistent again.
   */
  lemma RenderShowsLive(g: Grid, h: Hist, wide: WideBody)
    requires ValidHist(h) && Consistent(g, h, wide)
    ensures RenderedGrid(g, h, wide) == Replay(WhiteGrid(), h.stack[..h.shouldRender], wide)
    ensures Consistent(RenderedGrid(g, h, wide), RenderedHist(h), wide)
  {
    var live := h.stack[..h.shouldRender];
    var rg := RenderedGrid(g, h, wide);
    if h.beenRendered > h.shouldRender {
      assert h.stack[0..h.shouldRender] == live;
      assert rg == Replay(WhiteGrid(), h.stack[0..h.shouldRender], wide);
    } else {
      var shown, added := h.stack[..h.beenRendered], h.stack[h.beenRendered..h.shouldRender];
      assert g == Replay(WhiteGrid(), shown, wide);
      assert rg == Replay(g, added, wide);
      assert shown + added == live;
      ReplayAppend(WhiteGrid(), shown, added, wide);
    }
    var r := RenderedHist(h);
    assert r.stack[..r.beenRendered] == live;
  }

  lemma UndoConsistent(g: Grid, h: Hist, wide: WideBody)
    requires Consistent(g, h, wide)
    ensures Consistent(g, Undone(h), wide)
  {
  }

  lemma StaleConsistent(g: Grid, h: Hist, wide: WideBody)
    ensures Consistent(g, Stale(h), wide)
  {
  }

  lemma RedoConsistent(g: Grid, h: Hist, wide: WideBody)
    requires Consistent(g, h, wide)
    ensures Consistent(g, Redone(h), wide)
  {
  }

  /** The corrected `push` never leaves the buffer claiming to show dropped operations. */
  lemma PushConsistent(g: Grid, h: Hist, op: Operation, wide: WideBody)
    requires ValidHist(h) && Consistent(g, h, wide)
    ensures Consistent(g, Pushed(h, op), wide)
  {
    var r := Pushed(h, op);
    if h.beenRendered <= h.shouldRender {
      assert r.stack[..r.beenRendered] == h.stack[..h.beenRendered];
    }
  }

  /** Undo then redo is no change, whenever something could be undone. */
  lemma UndoRedo(h: Hist)
    requires 0 < h.shouldRender <= |h.stack|
    ensures Redone(Undone(h)) == h
  {
  }

  /** Redo then undo is no change, whenever something could be redone. */
  lemma RedoUndo(h: Hist)
    requires h.shouldRender < |h.stack|
    ensures Undone(Redone(h)) == h
  {
  }

  function UndoTimes(h: Hist, n: nat): (r: Hist)
    ensures r.stack == h.stack && r.shouldRender <= h.shouldRender
    decreases n
  {
    if n == 0 then h else Undone(UndoTimes(h, n - 1))
  }

  function RedoTimes(h: Hist, n: nat): Hist
    decreases n
  {
    if n == 0 then h else Redone(RedoTimes(h, n - 1))
  }

  /** `n` undos move the cursor back by `n`, stopping at the bottom, and touch nothing else. */
  lemma {:induction false} UndoTimesCursor(h: Hist, n: nat)
    ensures UndoTimes(h, n) == h.(shouldRender := if n <= h.shouldRender then h.shouldRender - n else 0)
    decreases n
  {
    if n > 0 {
      UndoTimesCursor(h, n - 1);
    }
  }

  /** `n` redos move the cursor forward by `n`, stopping at the top of the stack. */
  lemma {:induction false} RedoTimesCursor(h: Hist, n: nat)
    requires h.shouldRender <= |h.stack|
    ensures RedoTimes(h, n) == h.(shouldRender := Min(h.shouldRender + n, |h.stack|))
    decreases n
  {
    if n > 0 {
      RedoTimesCursor(h, n - 1);
    }
  }

  /** Undoing `n` operations and redoing `n` restores the history, as long as `n` were live. */
  lemma UndoThenRedo(h: Hist, n: nat)
    requires ValidHist(h) && n <= h.shouldRender
    ensures RedoTimes(UndoTimes(h, n), n) == h
  {
    UndoTimesCursor(h, n);
    RedoTimesCursor(UndoTimes(h, n), n);
  }

  /** Undoing every live operation and rendering shows a white grid. */
  lemma UndoAllBlank(g: Grid, h: Hist, wide: WideBody)
    requires ValidHist(h) && Consistent(g, h, wide)
    ensures RenderedGrid(g, UndoTimes(h, h.shouldRender), wide) == WhiteGrid()
  {
    UndoTimesCursor(h, h.shouldRender);
    RenderShowsLive(g, UndoTimes(h, h.shouldRender), wide);
  }

  /** A one-pixel black stroke at `(x, y)`. */
  function Dot(x: u8, y: u8): Operation {
    Operation.Pencil([(x, y)], Black)
  }

  /** Rendering a dot blackens its one cell. */
  lemma DotCells(g: Grid, x: u8, y: u8, wide: WideBody)
    requires InGrid((x, y))
    ensures Replay(g, [Dot(x, y)], wide)[x][y] == Black
    ensures forall i, j :: 0 <= i < W && 0 <= j < H && (i, j) != (x as int, y as int) ==>
      Replay(g, [Dot(x, y)], wide)[i][j] == g[i][j]
  {
    assert Replay(g, [Dot(x, y)], wide) == ApplyOp(g, Dot(x, y), wide);
  }

  /** The history a figure owns (figure/mod.rs:91-95). */
  class History {
    var stack: seq<Operation>
    var beenRendered: nat
    var shouldRender: nat

    ghost function State(): Hist
      reads this
    {
      Hist(stack, beenRendered, shouldRender)
    }

    ghost predicate Valid()
      reads this
    {
      ValidHist(State())
    }

    /** `History::new` (figure/mod.rs:98-104). */
    constructor ()
      ensures State() == NewHist() && Valid()
    {
      stack := [];
      beenRendered := 0;
      shouldRender := 0;
    }

    /** `History::redo` (figure/mod.rs:106-110). */
    method Redo()
      modifies this
      ensures State() == Redone(old(State()))
    {
      if shouldRender < |stack| {
        shouldRender := shouldRender + 1;
      }
    }

    /** `History::undo` (figure/mod.rs:112-116). */
    method Undo()
      modifies this
      ensures State() == Undone(old(State()))
    {
      if shouldRender > 0 {
        shouldRender := shouldRender - 1;
      }
    }

    /** `History::push` (figure/mod.rs:118-122), with the stale-pixel case closed. */
    method Push(op: Operation)
      modifies this
      ensures State() == Pushed(old(State()), op)
    {
      stack := stack[..Min(shouldRender, |stack|)];
      if beenRendered > shouldRender {
        beenRendered := |stack| + 2;
      }
      stack := stack + [op];
      shouldRender := shouldRender + 1;
    }

    /** `History::clear` (figure/mod.rs:124-128). */
    method Clear()
      modifies this
      ensures State() == Emptied(old(State()))
    {
      shouldRender := 0;
      beenRendered := 0;
      stack := [];
    }

    /** Marks the buffer as holding pixels the history does not record. */
    method MarkStale()
      modifies this
      ensures State() == Stale(old(State()))
    {
      beenRendered := |stack| + 1;
    }

    /** `History::render` (figure/mod.rs:130-140). */
    method Render(data: array2<Color>, wide: WideBody)
      requires Valid() && IsCanvas(data)
      modifies this, data
      ensures Snapshot(data) == RenderedGrid(old(Snapshot(data)), old(State()), wide)
      ensures State() == RenderedHist(old(State()))
    {
      if beenRendered > shouldRender {
        Pixels.Clear(data);
        beenRendered := 0;
      }
      RenderRange(data, stack, beenRendered, shouldRender, wide);
      beenRendered := shouldRender;
    }
  }
}
