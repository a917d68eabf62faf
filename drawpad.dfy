/**
 * The drawpad controller (drawpad/mod.rs): pointer and key events become
 * instructions in the current frame; on every tick one frame is rendered,
 * taken either from the local frame or from the chunks received, and in
 * push mode handed to the chunk loader; server events switch the stream
 * mode. The canvas, its offsets, the timer, the websocket and `bincode`
 * are outside the model: offsets and decoded chunks are parameters, the
 * chunk to send and the packed image are results.
 */
module Drawpad {
  import opened Wrappers
  import opened Pixels
  import opened Draw
  import opened Operations
  import opened Histories
  import opened Frames
  import opened Figure
  import opened Chunks

  /** `StreamMode` (drawpad/mod.rs:31-36). */
  datatype StreamMode = Push | Receive | Offline

  datatype PointerAction = Down | Up | Move

  /** `DrawpadReq`, the requests of the console. */
  datatype DrawpadReq = SetTool(tool: Tool) | SetColor(color: Color) | SetStreamMode(mode: StreamMode) | Clear

  /**
   * The server responses the drawpad reacts to. A chunk carries what
   * `bincode` made of its bytes: `None` when they do not decode.
   */
  datatype Resp = Chunk(decoded: Option<seq<seq<Instruction>>>) | Topic | GameStart | TurnEnd | GameEnd | MarkEnd | Other

  // ---------------------------------------------------------------------
  // Coordinates (drawpad/mod.rs:255-258)
  // ---------------------------------------------------------------------

  function ClampInt(v: int, lo: int, hi: int): (r: int)
    requires lo <= hi
    ensures lo <= r <= hi
    ensures lo <= v <= hi ==> r == v
  {
    if v < lo then lo else if v > hi then hi else v
  }

  /** `((c - offset).clamp(0, 512) / 4) as u8`, as written (drawpad/mod.rs:257-258). */
  function MapCoordAsWritten(c: int, offset: int): (r: u8)
    ensures r <= 128
  {
    ClampInt(c - offset, 0, 512) / 4
  }

  /** The mapping as written reaches 128, one past the last column that `point` and `line` may index. */
  lemma MapCoordEdge()
    ensures MapCoordAsWritten(512, 0) == 128
    ensures !InGrid((MapCoordAsWritten(512, 0), 0))
  {
  }

  /** The corrected mapping clamps to the last screen pixel of the grid, 511. */
  function MapCoord(c: int, offset: int): (r: u8)
    ensures r < W && r < H
    ensures 0 <= c - offset < 512 ==> r == (c - offset) / 4
    ensures c - offset < 512 ==> r == MapCoordAsWritten(c, offset)
  {
    ClampInt(c - offset, 0, 511) / 4
  }

  /** The corrected mapping is monotone and moves by the grid's scale: four screen pixels per cell. */
  lemma MapCoordScale(c: int, offset: int)
    ensures MapCoord(c + 4, offset) <= MapCoord(c, offset) + 1
    ensures MapCoord(c, offset) <= MapCoord(c + 1, offset)
    ensures 0 <= c - offset && c + 4 - offset < 512 ==> MapCoord(c + 4, offset) == MapCoord(c, offset) + 1
  {
  }

  // ---------------------------------------------------------------------
  // Pointer events (drawpad/mod.rs:251-295)
  // ---------------------------------------------------------------------

  /** The primary (1) or the secondary (2) button alone. */
  predicate MainButton(b: u16) {
    b == 1 || b == 2
  }

  /**
   * The tool a press draws with: the selected tool with the primary
   * button, the other one with the secondary button.
   */
  function ChosenTool(tool: Tool, b: u16): (t: Tool)
    requires MainButton(b)
    ensures b == 1 ==> t == tool
    ensures b == 2 ==> t != tool
  {
    match tool
    case Pencil => if b == 1 then Tool.Pencil else Tool.Eraser
    case Eraser => if b == 1 then Tool.Eraser else Tool.Pencil
  }

  /**
   * The instructions of a pointer press (drawpad/mod.rs:260-279): none
   * without a main button; otherwise at most three, ending in the press,
   * with the drawpad's colour set exactly when the pencil is chosen.
   */
  function DownInstructions(tool: Tool, color: Color, buttons: u16, at: Coord): (ins: seq<Instruction>)
    ensures ins == [] <==> !MainButton(buttons)
    ensures |ins| <= 3
    ensures ins != [] ==> ins[|ins| - 1] == PointerDown(at)
    ensures ins != [] ==> (Instruction.SetColor(color) in ins <==> ChosenTool(tool, buttons) == Tool.Pencil)
  {
    if (tool == Tool.Pencil && buttons == 1) || (tool == Tool.Eraser && buttons == 2) then
      [Instruction.SetColor(color), Instruction.SetTool(Tool.Pencil), PointerDown(at)]
    else if (tool == Tool.Pencil && buttons == 2) || (tool == Tool.Eraser && buttons == 1) then
      [Instruction.SetTool(Tool.Eraser), PointerDown(at)]
    else
      assert tool == Tool.Pencil || tool == Tool.Eraser;
      []
  }

  /**
   * The instructions one pointer event adds to the frame: `recorded` is
   * the button state recorded at the last press, `buttons` the event's.
   */
  function PointerInstructions(tool: Tool, color: Color, action: PointerAction, recorded: u16, buttons: u16, at: Coord): (ins: seq<Instruction>)
    ensures ins == [] <==> !MainButton(if action.Up? then recorded else buttons)
    ensures |ins| <= 3
    ensures ins != [] ==> ins[|ins| - 1] == (match action
      case Down => PointerDown(at)
      case Up => PointerUp(at)
      case Move => PointerMove(at))
  {
    match action
    case Down => DownInstructions(tool, color, buttons, at)
    case Up => if MainButton(recorded) then [PointerUp(at)] else []
    case Move => if MainButton(buttons) then [PointerMove(at)] else []
  }

  /** The button state recorded after a pointer event. */
  function RecordedButtons(action: PointerAction, recorded: u16, buttons: u16): (r: u16)
    ensures action.Down? ==> r == buttons
    ensures action.Up? ==> r == 0
    ensures action.Move? ==> r == recorded
  {
    match action
    case Down => buttons
    case Up => 0
    case Move => recorded
  }

  /**
   * What a press adds: with a main button, the chosen tool is set, with
   * the pencil the drawpad's colour first, then the stroke is opened at
   * the pointer; with any other buttons, nothing.
   */
  lemma DownShape(tool: Tool, color: Color, b: u16, at: Coord)
    ensures var ins := DownInstructions(tool, color, b, at);
      && (!MainButton(b) ==> ins == [])
      && (MainButton(b) ==>
        && ins[|ins| - 1] == PointerDown(at)
        && (ChosenTool(tool, b) == Tool.Pencil ==> ins[..|ins| - 1] == [Instruction.SetColor(color), Instruction.SetTool(Tool.Pencil)])
        && (ChosenTool(tool, b) == Tool.Eraser ==> ins[..|ins| - 1] == [Instruction.SetTool(Tool.Eraser)]))
  {
  }

  /** Every instruction a pointer event adds names a grid cell when the pointer does. */
  lemma PointerInGrid(tool: Tool, color: Color, action: PointerAction, recorded: u16, buttons: u16, at: Coord)
    requires InGrid(at)
    ensures AllInGrid(PointerInstructions(tool, color, action, recorded, buttons, at))
  {
  }

  /** The moves a drag with button state `b` adds along `ps`. */
  function DragInstructions(tool: Tool, color: Color, recorded: u16, b: u16, ps: seq<Coord>): (ins: seq<Instruction>)
    decreases |ps|
  {
    if ps == [] then []
    else DragInstructions(tool, color, recorded, b, ps[..|ps| - 1]) + PointerInstructions(tool, color, Move, recorded, b, ps[|ps| - 1])
  }

  lemma {:induction false} DragIsMoves(tool: Tool, color: Color, recorded: u16, b: u16, ps: seq<Coord>)
    requires MainButton(b)
    ensures DragInstructions(tool, color, recorded, b, ps) == Moves(ps)
    decreases |ps|
  {
    if ps != [] {
      DragIsMoves(tool, color, recorded, b, ps[..|ps| - 1]);
      assert Moves(ps) == Moves(ps[..|ps| - 1]) + [PointerMove(ps[|ps| - 1])];
    }
  }

  /** What a press with a main button sets before it opens the stroke. */
  function DownSetup(tool: Tool, color: Color, b: u16): seq<Instruction>
    requires MainButton(b)
  {
    if ChosenTool(tool, b) == Tool.Pencil then [Instruction.SetColor(color), Instruction.SetTool(Tool.Pencil)]
    else [Instruction.SetTool(Tool.Eraser)]
  }

  /**
   * A press with a main button selects the chosen tool and, for the
   * pencil, the drawpad's colour, then opens the stroke at the pointer.
   */
  lemma DownSelects(f: Fig, tool: Tool, color: Color, b: u16, at: Coord)
    requires MainButton(b)
    ensures DownInstructions(tool, color, b, at) == DownSetup(tool, color, b) + [PointerDown(at)]
    ensures var t := ChosenTool(tool, b);
      ExecutedAll(f, DownSetup(tool, color, b)) == f.(tool := t, color := if t == Tool.Pencil then color else f.color)
  {
    var t := ChosenTool(tool, b);
    var pre := DownSetup(tool, color, b);
    if t == Tool.Pencil {
      var sc := [Instruction.SetColor(color)];
      assert pre == sc + [Instruction.SetTool(Tool.Pencil)];
      assert sc == [] + [Instruction.SetColor(color)];
      assert ExecutedAll(f, sc) == f.(color := color) by {
        SettingInstructions(f, color, t);
      }
      SettingInstructions(f.(color := color), color, t);
    } else {
      assert pre == [] + [Instruction.SetTool(Tool.Eraser)];
      SettingInstructions(f, color, t);
    }
  }

  /** The instructions of a press at `at`, a drag along `ps` and a release at `to`, all with button state `b`. */
  function PressInstructions(tool: Tool, color: Color, b: u16, at: Coord, ps: seq<Coord>, to: Coord): seq<Instruction> {
    DownInstructions(tool, color, b, at)
    + DragInstructions(tool, color, b, b, ps)
    + PointerInstructions(tool, color, Up, RecordedButtons(Down, 0, b), 0, to)
  }

  lemma PressSplits(tool: Tool, color: Color, b: u16, at: Coord, ps: seq<Coord>, to: Coord)
    requires MainButton(b)
    ensures PressInstructions(tool, color, b, at, ps, to)
         == DownSetup(tool, color, b) + ([PointerDown(at)] + Moves(ps) + [PointerUp(to)])
  {
    DownSelects(BlankFig(), tool, color, b, at);
    DragIsMoves(tool, color, b, b, ps);
  }

  /**
   * Press, drag and release with a main button, executed by the figure:
   * exactly one stroke is pushed, through every point the pointer visited
   * in order, drawn with the chosen tool (and, for the pencil, the
   * drawpad's colour), and no stroke is left open.
   */
  lemma PressDragRelease(f: Fig, tool: Tool, color: Color, b: u16, at: Coord, ps: seq<Coord>, to: Coord)
    requires MainButton(b)
    ensures var t := ChosenTool(tool, b);
      var c := if t == Tool.Pencil then color else f.color;
      ExecutedAll(f, PressInstructions(tool, color, b, at, ps, to))
        == f.(tool := t, color := c, path := None, hist := Pushed(f.hist, StrokeOp(t, c, f.size, [at] + ps + [to])))
  {
    var pre := DownSetup(tool, color, b);
    var stroke := [PointerDown(at)] + Moves(ps) + [PointerUp(to)];
    PressSplits(tool, color, b, at, ps, to);
    var t := ChosenTool(tool, b);
    var f0 := f.(tool := t, color := if t == Tool.Pencil then color else f.color);
    assert ExecutedAll(f, pre + stroke) == ExecutedAll(f0, stroke) by {
      DownSelects(f, tool, color, b, at);
      ExecuteAllAppend(f, pre, stroke);
    }
    StrokeInOneFrame(f0, at, ps, to);
  }

  /** A release without a recorded main button adds nothing, and every release clears the record. */
  lemma ReleaseWithoutPress(tool: Tool, color: Color, recorded: u16, buttons: u16, at: Coord)
    requires !MainButton(recorded)
    ensures PointerInstructions(tool, color, Up, recorded, buttons, at) == []
    ensures RecordedButtons(Up, recorded, buttons) == 0
  {
  }

  // ---------------------------------------------------------------------
  // Keys (drawpad/mod.rs:296-298, 361-367)
  // ---------------------------------------------------------------------

  /** `HotKeyE`: the other tool. */
  function Toggled(t: Tool): (r: Tool)
    ensures r != t
  {
    match t
    case Eraser => Tool.Pencil
    case Pencil => Tool.Eraser
  }

  lemma ToggleTwice(t: Tool)
    ensures Toggled(Toggled(t)) == t
  {
  }

  // ---------------------------------------------------------------------
  // Received chunks (drawpad/mod.rs:342-349)
  // ---------------------------------------------------------------------

  function ClampCoord(c: Coord): (r: Coord)
    ensures InGrid(r)
    ensures InGrid(c) ==> r == c
  {
    (if c.0 < W then c.0 else W - 1, if c.1 < H then c.1 else H - 1)
  }

  function ClampInstruction(ins: Instruction): (r: Instruction)
    ensures InsInGrid(r)
    ensures InsInGrid(ins) ==> r == ins
  {
    match ins
    case PointerDown(c) => PointerDown(ClampCoord(c))
    case PointerMove(c) => PointerMove(ClampCoord(c))
    case PointerUp(c) => PointerUp(ClampCoord(c))
    case _ => ins
  }

  /** Every coordinate of one frame clamped into the grid. */
  function ClampFrame(fr: seq<Instruction>): (r: seq<Instruction>)
    ensures |r| == |fr| && AllInGrid(r)
    ensures forall j :: 0 <= j < |fr| ==> r[j] == ClampInstruction(fr[j])
    ensures AllInGrid(fr) ==> r == fr
  {
    seq(|fr|, j requires 0 <= j < |fr| => ClampInstruction(fr[j]))
  }

  /** Every coordinate of the received frames clamped into the grid. */
  function ClampFrames(fs: seq<seq<Instruction>>): (r: seq<seq<Instruction>>)
    ensures |r| == |fs| && FramesInGrid(r)
    ensures forall i :: 0 <= i < |fs| ==> r[i] == ClampFrame(fs[i])
    ensures FramesInGrid(fs) ==> r == fs
  {
    seq(|fs|, i requires 0 <= i < |fs| => ClampFrame(fs[i]))
  }

  /** The frames waiting to be unloaded after a chunk arrives, as written: appended as decoded. */
  function ReceivedAsWritten(mode: StreamMode, toUnload: seq<seq<Instruction>>, decoded: Option<seq<seq<Instruction>>>): (r: seq<seq<Instruction>>)
    ensures mode != Receive || decoded.None? ==> r == toUnload
    ensures |toUnload| <= |r| && r[..|toUnload|] == toUnload
  {
    if mode == Receive && decoded.Some? then toUnload + decoded.value else toUnload
  }

  /**
   * The frames waiting after a chunk arrives, with coordinates from the
   * network clamped into the grid before they reach the renderer.
   */
  function Received(mode: StreamMode, toUnload: seq<seq<Instruction>>, decoded: Option<seq<seq<Instruction>>>): (r: seq<seq<Instruction>>)
    ensures FramesInGrid(toUnload) ==> FramesInGrid(r)
    ensures mode != Receive || decoded.None? ==> r == toUnload
  {
    if mode == Receive && decoded.Some? then
      var c := ClampFrames(decoded.value);
      assert FramesInGrid(toUnload) ==> FramesInGrid(toUnload + c) by {
        if FramesInGrid(toUnload) {
          forall i | 0 <= i < |toUnload + c|
            ensures AllInGrid((toUnload + c)[i])
          {
            if i >= |toUnload| {
              assert (toUnload + c)[i] == c[i - |toUnload|];
            }
          }
        }
      }
      toUnload + c
    else toUnload
  }

  /** On well-formed chunks the correction changes nothing. */
  lemma ReceivedAgrees(mode: StreamMode, toUnload: seq<seq<Instruction>>, decoded: Option<seq<seq<Instruction>>>)
    requires decoded.Some? ==> FramesInGrid(decoded.value)
    ensures Received(mode, toUnload, decoded) == ReceivedAsWritten(mode, toUnload, decoded)
  {
  }

  /**
   * As written, a chunk from the network whose frame presses at column
   * 200 is queued unchanged; once rendered, its stroke's preview is a
   * `point` at column 200 of a buffer 128 wide.
   */
  lemma ReceivedOffGrid()
    ensures var q := ReceivedAsWritten(Receive, [], Some([[PointerDown((200, 0))]]));
      && q == [[PointerDown((200, 0))]]
      && !AllInGrid(q[0])
      && !ValidFig(Executed(BlankFig(), q[0][0]))
    ensures Received(Receive, [], Some([[PointerDown((200, 0))]])) == [[PointerDown((127, 0))]]
  {
    var fr := [[PointerDown((200, 0))]];
    assert [] + fr == fr;
    assert !InsInGrid(fr[0][0]);
    var f1 := Executed(BlankFig(), PointerDown((200, 0)));
    assert f1.path == Some([(200, 0)]);
    assert !InGrid(f1.path.value[0]);
    var c := ClampFrames([[PointerDown((200, 0))]]);
    assert c[0][0] == PointerDown((127, 0));
    assert c[0] == [PointerDown((127, 0))];
    assert c == [[PointerDown((127, 0))]];
    assert [] + c == c;
    assert Received(Receive, [], Some([[PointerDown((200, 0))]])) == [] + c;
  }

  // ---------------------------------------------------------------------
  // Image packing (drawpad/mod.rs:105-120)
  // ---------------------------------------------------------------------

  /** Byte `j` of the RGBA image of `g`: pixels row by row, four bytes each, alpha opaque. */
  ghost function PackedByte(g: Grid, j: int): (b: u8)
    requires 0 <= j < W * H * 4
    ensures j % 4 == 3 ==> b == 0xff
  {
    var p := j / 4;
    var c := g[p % W][p / W];
    var k := j % 4;
    if k == 0 then c.r else if k == 1 then c.g else if k == 2 then c.b else 0xff
  }

  /** The layout of the image: byte `4 * (y * W + x) + k` is channel `k` of the pixel at `(x, y)`. */
  lemma PackedLayout(g: Grid, x: int, y: int)
    requires 0 <= x < W && 0 <= y < H
    ensures 0 <= 4 * (y * W + x) && 4 * (y * W + x) + 3 < W * H * 4
    ensures PackedByte(g, 4 * (y * W + x)) == g[x][y].r
    ensures PackedByte(g, 4 * (y * W + x) + 1) == g[x][y].g
    ensures PackedByte(g, 4 * (y * W + x) + 2) == g[x][y].b
    ensures PackedByte(g, 4 * (y * W + x) + 3) == 0xff
  {
    var p := y * 128 + x;
    assert (4 * p) / 4 == p && (4 * p + 1) / 4 == p && (4 * p + 2) / 4 == p && (4 * p + 3) / 4 == p;
    assert (4 * p) % 4 == 0 && (4 * p + 1) % 4 == 1 && (4 * p + 2) % 4 == 2 && (4 * p + 3) % 4 == 3;
    assert p % 128 == x && p / 128 == y;
  }

  /** The first `n` bytes of `image` are those of the image of `g`. */
  ghost predicate PackedPrefix(image: seq<u8>, g: Grid, n: int) {
    0 <= n <= |image| && n <= W * H * 4 && forall j :: 0 <= j < n ==> image[j] == PackedByte(g, j)
  }

  /** Writing the four bytes of the pixel at `(x, y)` extends the packed prefix by one pixel. */
  lemma PackStep(before: seq<u8>, after: seq<u8>, g: Grid, x: int, y: int)
    requires 0 <= x < W && 0 <= y < H
    requires PackedPrefix(before, g, 4 * (y * W + x))
    requires |after| == |before| && 4 * (y * W + x) + 4 <= |after|
    requires forall j :: 0 <= j < 4 * (y * W + x) ==> after[j] == before[j]
    requires var i := 4 * (y * W + x);
      after[i] == g[x][y].r && after[i + 1] == g[x][y].g && after[i + 2] == g[x][y].b && after[i + 3] == 0xff
    ensures PackedPrefix(after, g, 4 * (y * W + x) + 4)
  {
    PackedLayout(g, x, y);
  }

  /**
   * The packing loop of `sync_figure` (drawpad/mod.rs:109-118): every byte
   * of a `W * H * 4` image is written once, in order, with the pixel it
   * belongs to.
   */
  method PackPixels(data: array2<Color>) returns (image: array<u8>)
    requires IsCanvas(data)
    ensures fresh(image) && image.Length == W * H * 4
    ensures forall j :: 0 <= j < image.Length ==> image[j] == PackedByte(Snapshot(data), j)
  {
    image := new u8[W * H * 4];
    ghost var g := Snapshot(data);
    SnapshotAt(data);
    var idx := 0;
    for y := 0 to H
      invariant idx == 4 * (y * 128)
      invariant PackedPrefix(image[..], g, idx)
    {
      for x := 0 to W
        invariant idx == 4 * (y * 128 + x)
        invariant PackedPrefix(image[..], g, idx)
      {
        var c := data[x, y];
        ghost var before := image[..];
        image[idx] := c.r;
        image[idx + 1] := c.g;
        image[idx + 2] := c.b;
        image[idx + 3] := 0xff;
        PackStep(before, image[..], g, x, y);
        idx := idx + 4;
      }
    }
    assert forall j :: 0 <= j < image.Length ==> image[..][j] == image[j];
  }

  // ---------------------------------------------------------------------
  // The component (drawpad/mod.rs:37-60, 128-139, 249-368)
  // ---------------------------------------------------------------------

  class Pad {
    var color: Color
    var tool: Tool
    var buttons: u16
    const figure: FigureLocal
    var frame: Frame
    var chunkToUnload: seq<seq<Instruction>>
    const unloader: ChunkUnloader
    const loader: ChunkLoader
    var streamMode: StreamMode

    /**
     * The figure is valid, the loader holds chunks of fifteen, and every
     * frame on its way to the renderer names only grid cells.
     */
    ghost predicate Valid()
      reads this, figure, figure.history, figure.data, frame, unloader, loader
    {
      && figure.Valid() && unloader.Valid() && loader.Valid() && loader.size == PadChunkSize
      && AllInGrid(frame.instructions) && FramesInGrid(chunkToUnload) && FramesInGrid(unloader.chunk)
    }

    /** `Drawpad::create` (drawpad/mod.rs:147-170). */
    constructor (wide: WideBody)
      ensures Valid() && figure.State() == BlankFig() && figure.wide == wide
      ensures frame.instructions == [] && chunkToUnload == [] && streamMode == Offline
      ensures unloader.State() == NewUnloading() && loader.chunk == None
      ensures color == Black && tool == Tool.Pencil && buttons == 0
    {
      color := Black;
      tool := Tool.Pencil;
      buttons := 0;
      figure := new FigureLocal.Blank(wide);
      frame := new Frame();
      chunkToUnload := [];
      streamMode := Offline;
      loader := new ChunkLoader(PadChunkSize);
      unloader := new ChunkUnloader();
    }

    /** `take_frame` (drawpad/mod.rs:128-132): the frame is swapped for an empty one. */
    method TakeFrame() returns (fr: Frame)
      modifies this
      ensures fr == old(frame) && fr.instructions == old(frame.instructions)
      ensures fresh(frame) && frame.instructions == []
      ensures color == old(color) && tool == old(tool) && buttons == old(buttons)
      ensures chunkToUnload == old(chunkToUnload) && streamMode == old(streamMode)
    {
      fr := frame;
      frame := new Frame();
    }

    /** `push_instruction` (drawpad/mod.rs:136-139). */
    method PushInstruction(ins: Instruction)
      modifies frame
      ensures frame.instructions == old(frame.instructions) + [ins]
    {
      frame.Push(ins);
    }

    /**
     * A pointer event (drawpad/mod.rs:251-295). `offset` is the canvas's
     * position on the page, `None` when there is no canvas.
     */
    method Pointer(coor: (int, int), offset: Option<(int, int)>, action: PointerAction, buttons: u16)
      requires Valid()
      modifies this, frame
      ensures Valid()
      ensures offset.None? ==> frame.instructions == old(frame.instructions) && this.buttons == old(this.buttons)
      ensures offset.Some? ==>
        var at := (MapCoord(coor.0, offset.value.0), MapCoord(coor.1, offset.value.1));
        && frame.instructions == old(frame.instructions) + PointerInstructions(tool, color, action, old(this.buttons), buttons, at)
        && this.buttons == RecordedButtons(action, old(this.buttons), buttons)
      ensures frame == old(frame) && color == old(color) && tool == old(tool)
      ensures chunkToUnload == old(chunkToUnload) && streamMode == old(streamMode)
    {
      if offset.Some? {
        var x := MapCoord(coor.0, offset.value.0);
        var y := MapCoord(coor.1, offset.value.1);
        PointerInGrid(tool, color, action, this.buttons, buttons, (x, y));
        match action
        case Down =>
          if (tool == Tool.Pencil && buttons == 1) || (tool == Tool.Eraser && buttons == 2) {
            PushInstruction(Instruction.SetColor(color));
            PushInstruction(Instruction.SetTool(Tool.Pencil));
            PushInstruction(PointerDown((x, y)));
          } else if (tool == Tool.Pencil && buttons == 2) || (tool == Tool.Eraser && buttons == 1) {
            PushInstruction(Instruction.SetTool(Tool.Eraser));
            PushInstruction(PointerDown((x, y)));
          }
          this.buttons := buttons;
        case Up =>
          if this.buttons == 1 || this.buttons == 2 {
            PushInstruction(PointerUp((x, y)));
          }
          this.buttons := 0;
        case Move =>
          if buttons == 1 || buttons == 2 {
            PushInstruction(PointerMove((x, y)));
          }
        AllInGridAppend(old(frame.instructions), PointerInstructions(tool, color, action, old(this.buttons), buttons, (x, y)));
      }
    }

    /** `CtrlY` (drawpad/mod.rs:296). */
    method CtrlY()
      requires Valid()
      modifies frame
      ensures Valid() && frame.instructions == old(frame.instructions) + [Instruction.Redo]
    {
      AllInGridAppend(frame.instructions, [Instruction.Redo]);
      PushInstruction(Instruction.Redo);
    }

    /** `CtrlZ` (drawpad/mod.rs:297). */
    method CtrlZ()
      requires Valid()
      modifies frame
      ensures Valid() && frame.instructions == old(frame.instructions) + [Instruction.Undo]
    {
      AllInGridAppend(frame.instructions, [Instruction.Undo]);
      PushInstruction(Instruction.Undo);
    }

    /** `CtrlX` (drawpad/mod.rs:298). */
    method CtrlX()
      requires Valid()
      modifies frame
      ensures Valid() && frame.instructions == old(frame.instructions) + [Instruction.Clear]
    {
      AllInGridAppend(frame.instructions, [Instruction.Clear]);
      PushInstruction(Instruction.Clear);
    }

    /** `HotKeyE` (drawpad/mod.rs:361-367). */
    method HotKeyE()
      modifies this
      ensures tool == Toggled(old(tool))
      ensures color == old(color) && buttons == old(buttons) && frame == old(frame)
      ensures chunkToUnload == old(chunkToUnload) && streamMode == old(streamMode)
    {
      match tool
      case Eraser => tool := Tool.Pencil;
      case Pencil => tool := Tool.Eraser;
    }

    /** A request of the console (drawpad/mod.rs:332-339). */
    method Req(req: DrawpadReq)
      requires Valid()
      modifies this, frame
      ensures Valid() && frame == old(frame) && buttons == old(buttons) && chunkToUnload == old(chunkToUnload)
      ensures tool == (if req.SetTool? then req.tool else old(tool))
      ensures color == (if req.SetColor? then req.color else old(color))
      ensures streamMode == (if req.SetStreamMode? then req.mode else old(streamMode))
      ensures frame.instructions == old(frame.instructions) + (if req.Clear? then [Instruction.Clear] else [])
    {
      match req
      case SetTool(t) => tool := t;
      case SetColor(c) => color := c;
      case SetStreamMode(m) => streamMode := m;
      case Clear =>
        AllInGridAppend(frame.instructions, [Instruction.Clear]);
        PushInstruction(Instruction.Clear);
    }

    /** A server response (drawpad/mod.rs:340-360), with received coordinates clamped into the grid. */
    method Ws(resp: Resp)
      requires Valid()
      modifies this, frame
      ensures Valid() && frame == old(frame) && buttons == old(buttons) && tool == old(tool) && color == old(color)
      ensures chunkToUnload == (if resp.Chunk? then Received(old(streamMode), old(chunkToUnload), resp.decoded) else old(chunkToUnload))
      ensures streamMode == (match resp
        case Topic => Push
        case GameStart => Receive
        case TurnEnd => Receive
        case GameEnd => Offline
        case _ => old(streamMode))
      ensures frame.instructions == old(frame.instructions)
        + (if resp.GameStart? || resp.TurnEnd? || resp.MarkEnd? then [Instruction.Reset] else [])
    {
      match resp
      case Chunk(decoded) =>
        if streamMode == Receive && decoded.Some? {
          chunkToUnload := chunkToUnload + ClampFrames(decoded.value);
        }
      case Topic => streamMode := Push;
      case GameStart =>
        AllInGridAppend(frame.instructions, [Instruction.Reset]);
        PushInstruction(Instruction.Reset);
        streamMode := Receive;
      case TurnEnd =>
        AllInGridAppend(frame.instructions, [Instruction.Reset]);
        PushInstruction(Instruction.Reset);
        streamMode := Receive;
      case GameEnd => streamMode := Offline;
      case MarkEnd =>
        AllInGridAppend(frame.instructions, [Instruction.Reset]);
        PushInstruction(Instruction.Reset);
      case Other =>
    }

    /**
     * A `Frame` tick (drawpad/mod.rs:299-331): in receive mode the next
     * frame comes from the unloader, otherwise the local frame is taken;
     * the figure renders it; in push mode it goes on to the loader, and a
     * completed chunk is returned to be sent. The figure's buffer is
     * returned packed as an RGBA image.
     */
    method Tick() returns (sent: Option<seq<seq<Instruction>>>, image: array<u8>)
      requires Valid()
      modifies this, figure, figure.history, figure.data, unloader, loader
      ensures Valid() && streamMode == old(streamMode)
      ensures color == old(color) && tool == old(tool) && buttons == old(buttons)
      ensures old(streamMode) == Receive ==>
        var incoming := if old(chunkToUnload) == [] then None else Some(old(chunkToUnload));
        && chunkToUnload == []
        && unloader.State() == UnloadedState(old(unloader.State()), incoming)
        && figure.State() == FrameRendered(old(figure.State()), UnloadedFrame(old(unloader.State()), incoming), figure.wide)
        && frame == old(frame) && frame.instructions == old(frame.instructions)
        && sent == None && loader.chunk == old(loader.chunk)
      ensures old(streamMode) != Receive ==>
        && figure.State() == FrameRendered(old(figure.State()), old(frame.instructions), figure.wide)
        && frame.instructions == []
        && chunkToUnload == old(chunkToUnload) && unloader.State() == old(unloader.State())
      ensures old(streamMode) == Push ==>
        && sent == LoadedOut(PadChunkSize, old(loader.chunk), old(frame.instructions))
        && loader.chunk == LoadedHeld(PadChunkSize, old(loader.chunk), old(frame.instructions))
      ensures old(streamMode) == Offline ==> sent == None && loader.chunk == old(loader.chunk)
      ensures fresh(image) && image.Length == W * H * 4
      ensures forall j :: 0 <= j < image.Length ==> image[j] == PackedByte(Snapshot(figure.data), j)
    {
      var fr: Frame;
      if streamMode == Receive {
        if chunkToUnload == [] {
          fr := unloader.Unload(None);
        } else {
          var chunk := chunkToUnload;
          chunkToUnload := [];
          fr := unloader.Unload(Some(chunk));
        }
      } else {
        fr := TakeFrame();
      }
      figure.RenderFrame(fr);
      sent := None;
      if streamMode == Push {
        sent := loader.Load(fr);
      }
      image := PackPixels(figure.data);
    }
  }
}
