# dng-yew drawpad engine, modelled in Dafny

This project models the drawing engine of the dng-yew drawpad, a
pictionary-style shared canvas written in Rust with Yew. It also proves
properties of that engine.

The engine has five parts:

- **Instruction interpreter and undo/redo history** (`figure/mod.rs`). A
  frame's instructions (pointer down/move/up, set colour, set tool, clear,
  undo, redo, reset) act on a 128 × 128 colour buffer, an open stroke, a
  stack of finished operations, and two counters. The counter
  `shouldRender` is the undo/redo cursor. The counter `beenRendered`
  counts the operations already painted.
- **Integer rasteriser** (`figure/draw.rs`). Its parts are Bresenham's
  `line`, `point`, the clamping writer `set_color_safe`, `fill_square` and
  the eraser's `line_with_width`.
- **Frame batching** (`chunk.rs`, `frame.rs`). The pushing side groups
  frames into chunks of fifteen. The receiving side hands them back out,
  one frame per tick.
- **Drawpad controller** (`drawpad/mod.rs`). Pointer and key events become
  instructions. Screen coordinates are mapped onto the grid. Each tick
  renders one frame, local or received, and the server's events switch
  the stream mode. The figure is packed into an RGBA byte image.
- **Colour parser** (`utils.rs`). It turns `#rrggbb` into a colour.

## How the model is built

Each stateful part has two layers:

- **Values.** A datatype holds the state (`Hist`, `Fig`, `Unloading`, a
  loader's held chunk), and a function gives the state after each
  operation.
- **A class.** It has the fields of the Rust struct. Each method is proved
  to leave its state as that function says, for example
  `State() == Executed(old(State()), ins)`.

The properties of the engine are lemmas about the functions: the
invariants, the round trips, conservation of instructions, and "the buffer
shows what the history says". The buffer is an `array2<Color>`, and
`Snapshot` reads it as a `Grid`.

The classes implement the **corrected** definitions (see "## Findings").
Each as-written behaviour is kept as its own function, and a lemma shows
on a concrete input where it goes wrong.

## Model

| member | source | states |
|---|---|---|
| Pixels.Clear | src/components/drawpad/figure/mod.rs:14-16 | after `clear`, every cell of the buffer is white |
| Pixels.PaintUnion | src/components/drawpad/figure/mod.rs:76 | painting two regions one after the other in one colour, as consecutive segments of a stroke are, is painting their union |
| Pixels.PaintCovered | src/components/drawpad/figure/mod.rs:218-236 | a region painted over by a larger one leaves no trace, as a preview under its finished stroke |
| Draw.StartOnTrack | src/components/drawpad/figure/draw.rs:21-30 | Bresenham's setup starts on the error track with the whole horizontal and vertical distance still to go |
| Draw.StepProgress | src/components/drawpad/figure/draw.rs:37-44 | each step of the loop stays on the error track, moves x and y by at most one each, and shortens the remaining distance, so the loop ends |
| Draw.WalkShape | src/components/drawpad/figure/draw.rs:33-45 | the walk starts at the pen, ends at the end point, stays in the bounding box, moves between 8-adjacent cells, and has between max(dx,dy)+1 and dx+dy+1 points |
| Draw.WalkDistinct | src/components/drawpad/figure/draw.rs:33-45 | the walk never visits a cell twice |
| Draw.LineShape | src/components/drawpad/figure/draw.rs:8-46 | `line(c0, c1)` paints c0 first and c1 last, only cells inside their bounding box, consecutive cells 8-adjacent, no cell twice, and between max(dx,dy)+1 and dx+dy+1 cells |
| Draw.LineToItself | src/components/drawpad/figure/draw.rs:34-37 | `line(c, c)` paints exactly the cell c |
| Draw.LineInGrid | src/components/drawpad/figure/draw.rs:34 | from in-grid end points, every cell `line` indexes is inside the grid |
| Draw.Line | src/components/drawpad/figure/draw.rs:8-46 | the loop terminates, and the buffer afterwards is the old buffer with exactly the line's cells set to the colour |
| Draw.TrackFitsI16 | src/components/drawpad/figure/draw.rs:9-44 | for grid end points, the error term stays within ±16200 and `2 * err` and `err - dy + dx` fit an i16, so the source's i16 arithmetic never overflows, and the pen stays on the grid |
| Draw.Point | src/components/drawpad/figure/draw.rs:107-111 | for an in-grid cell, exactly that cell changes |
| Draw.Clamp | src/components/drawpad/figure/draw.rs:131-132 | the result lies in 0..127 and is the input itself when the input already does |
| Draw.SetColorSafe | src/components/drawpad/figure/draw.rs:127-134 | for any i16 input, exactly the cell (clamp(x), clamp(y)) changes, and no index goes out of bounds |
| Draw.SquareCoversImage | src/components/drawpad/figure/draw.rs:113-124 | the clamped image of every (x, y) in the half-open square [cx−w/2, cx+w/2) × [cy−w/2, cy+w/2) is painted |
| Draw.SquareWithinImage | src/components/drawpad/figure/draw.rs:113-124 | every painted cell is the clamped image of some (x, y) in that square |
| Draw.SquareInside | src/components/drawpad/figure/draw.rs:113-124 | a square that fits on the grid is painted unclipped: exactly the half-open square of side 2·(w/2) |
| Draw.NarrowSquareEmpty | src/components/drawpad/figure/draw.rs:115-120 | a width w ≤ 1 paints nothing |
| Draw.FillSquare | src/components/drawpad/figure/draw.rs:113-124 | the buffer afterwards is the old one with exactly the square's region set to the colour |
| Draw.LineWithWidth | src/components/drawpad/figure/draw.rs:48-105 | a `fill_square` at both end points and the cells of the abstract body are painted, and nothing else |
| Operations.StrokeOp | src/components/drawpad/figure/mod.rs:182-198 | the operation a finished stroke becomes keeps its path, and it is a pencil stroke exactly when the tool is the pencil |
| Operations.Ink | src/components/drawpad/figure/mod.rs:69-89 | the eraser and `Clear` paint white |
| Operations.ApplyClear | src/components/drawpad/figure/mod.rs:86 | rendering `Operation::Clear` leaves an all-white grid, whatever was there |
| Operations.ReplayAppend | src/components/drawpad/figure/mod.rs:130-140 | rendering a + b is rendering a and then b |
| Operations.ReplayAfterClear | src/components/drawpad/figure/mod.rs:86 | everything rendered before a `Clear` is gone after it |
| Operations.StrokeCovers | src/components/drawpad/figure/mod.rs:218-236 | the preview of an open stroke paints only cells that the finished stroke, with more points, paints too |
| Operations.PencilCellsNext | src/components/drawpad/figure/mod.rs:76 | each window of two path points adds exactly that segment's `line` cells |
| Operations.EraserCellsNext | src/components/drawpad/figure/mod.rs:83 | each window of two path points adds exactly that segment's `line_with_width` cells |
| Operations.Segments | src/components/drawpad/figure/mod.rs:72-78 | drawing the windows of a pencil path paints exactly the union of its segments |
| Operations.WideSegments | src/components/drawpad/figure/mod.rs:79-85 | erasing along a path whitens exactly the union of its wide segments |
| Operations.RenderOp | src/components/drawpad/figure/mod.rs:69-89 | `Operation::render` leaves the buffer as the operation's cells in its ink over the old buffer; a valid operation never reaches `unreachable!()` |
| Histories.NewHist | src/components/drawpad/figure/mod.rs:98-104 | the new history is empty and valid |
| Histories.Redone | src/components/drawpad/figure/mod.rs:106-110 | redo changes only the cursor and keeps 0 ≤ shouldRender ≤ len(stack) |
| Histories.Undone | src/components/drawpad/figure/mod.rs:112-116 | undo changes only the cursor and keeps 0 ≤ shouldRender ≤ len(stack) |
| Histories.PushedAsWritten | src/components/drawpad/figure/mod.rs:118-122 | push as written: the stack is truncated at the cursor and the operation appended, the cursor moves one up, and beenRendered is unchanged |
| Histories.Pushed | src/components/drawpad/figure/mod.rs:118-122 | the corrected push has the same stack and cursor; the new length is the old cursor + 1, the entries below it are kept, and shouldRender == len(stack) |
| Histories.Emptied | src/components/drawpad/figure/mod.rs:124-128 | clear empties the stack and sets both counters to 0, which is a new history |
| Histories.RenderedGrid | src/components/drawpad/figure/mod.rs:130-140 | render leaves the buffer alone when nothing is new, and leaves it white when the cursor moved back to 0 |
| Histories.RenderedHist | src/components/drawpad/figure/mod.rs:130-140 | after render, beenRendered == shouldRender, and nothing else changes |
| Histories.Stale | src/components/drawpad/figure/mod.rs:130-134 | the marked history keeps its stack and cursor and forces the next render to clear and replay |
| Histories.ReplayStep | src/components/drawpad/figure/mod.rs:135-137 | rendering one more operation of a range extends its replay by that operation |
| Histories.RenderRange | src/components/drawpad/figure/mod.rs:135-137 | the render loop paints operations lo..hi onto the buffer in order |
| Histories.NewConsistent | src/components/drawpad/figure/mod.rs:98-104 | a new or cleared history over a white buffer is consistent with it |
| Histories.RenderShowsLive | src/components/drawpad/figure/mod.rs:130-140 | from a consistent buffer, render leaves exactly the live operations replayed onto white, whichever branch it takes, and consistency holds again |
| Histories.UndoConsistent | src/components/drawpad/figure/mod.rs:112-116 | undo keeps the buffer consistent with the history |
| Histories.RedoConsistent | src/components/drawpad/figure/mod.rs:106-110 | redo keeps the buffer consistent with the history |
| Histories.StaleConsistent | src/components/drawpad/figure/mod.rs:130-134 | a history marked stale is consistent with any buffer |
| Histories.PushConsistent | src/components/drawpad/figure/mod.rs:118-122 | the corrected push keeps the buffer consistent, even when it drops painted operations |
| Histories.UndoRedo | src/components/drawpad/figure/mod.rs:106-116 | undo then redo restores the history whenever something was live |
| Histories.RedoUndo | src/components/drawpad/figure/mod.rs:106-116 | redo then undo restores the history whenever something was undone |
| Histories.UndoTimes | src/components/drawpad/figure/mod.rs:112-116 | repeated undos never change the stack and never move the cursor up |
| Histories.UndoTimesCursor | src/components/drawpad/figure/mod.rs:112-116 | n undos move the cursor down by n, saturating at 0, and change nothing else |
| Histories.RedoTimesCursor | src/components/drawpad/figure/mod.rs:106-110 | n redos move the cursor up by n, saturating at the stack length |
| Histories.UndoThenRedo | src/components/drawpad/figure/mod.rs:106-116 | n undos followed by n redos restore the history when n operations were live |
| Histories.UndoAllBlank | src/components/drawpad/figure/mod.rs:112-116 | undoing every live operation and rendering leaves an all-white buffer |
| Histories.DotCells | src/components/drawpad/figure/mod.rs:74 | a one-point pencil stroke blackens its cell and nothing else |
| Histories.History.constructor | src/components/drawpad/figure/mod.rs:98-104 | the object starts as the new history |
| Histories.History.Redo | src/components/drawpad/figure/mod.rs:106-110 | the object moves as `Redone` says |
| Histories.History.Undo | src/components/drawpad/figure/mod.rs:112-116 | the object moves as `Undone` says |
| Histories.History.Push | src/components/drawpad/figure/mod.rs:118-122 | the object moves as the corrected `Pushed` says |
| Histories.History.Clear | src/components/drawpad/figure/mod.rs:124-128 | the object moves as `Emptied` says |
| Histories.History.MarkStale | src/components/drawpad/figure/mod.rs:218-236 | the corrected render's marker: the object moves as `Stale` says, so the next render clears the buffer and replays the stack |
| Histories.History.Render | src/components/drawpad/figure/mod.rs:130-140 | the buffer becomes `RenderedGrid` of the old buffer and history: a clear and a full replay if the cursor moved back, otherwise only the new operations; then beenRendered == shouldRender |
| Figure.BlankFig | src/components/drawpad/figure/mod.rs:154-163 | a blank figure is white, has no stroke and no history, and draws black, with the pencil, at size 16 |
| Figure.OpenStroke | src/components/drawpad/figure/mod.rs:218-236 | the operation an open stroke previews as is always renderable |
| Figure.Executed | src/components/drawpad/figure/mod.rs:172-216 | only Reset touches the buffer, and it leaves a white buffer and a new history; only SetColor and SetTool change the colour and the tool; the size never changes; only PointerUp, Clear and Reset change the stack |
| Figure.ExecutedAsWritten | src/components/drawpad/figure/mod.rs:172-216 | as written, no instruction but Reset changes beenRendered, and only Clear and Reset touch the buffer |
| Figure.ExecuteAgree | src/components/drawpad/figure/mod.rs:172-216 | the two interpreters agree on everything but the buffer and beenRendered, which differ only on PointerUp and Clear |
| Figure.ExecuteAllAgree | src/components/drawpad/figure/mod.rs:165-170 | the two interpreters agree on everything but the buffer and beenRendered after any instructions |
| Figure.Rendered | src/components/drawpad/figure/mod.rs:218-236 | render keeps the figure valid and changes only the buffer and beenRendered; with no open stroke the buffer is up to date afterwards, with one it is marked for a full replay |
| Figure.RenderedAsWritten | src/components/drawpad/figure/mod.rs:218-236 | render as written changes only the buffer and beenRendered, always marks the buffer up to date, and is the corrected render when no stroke is open |
| Figure.FrameRendered | src/components/drawpad/figure/mod.rs:165-170 | a frame keeps the figure valid and leaves the history, path, tool, colour and size that its instructions set |
| Figure.FrameRenderedAsWritten | src/components/drawpad/figure/mod.rs:165-170 | the same for the interpreter as written |
| Figure.FrameAgree | src/components/drawpad/figure/mod.rs:165-170 | after any frame the two interpreters agree on everything but the buffer and beenRendered |
| Figure.ExecuteValid | src/components/drawpad/figure/mod.rs:172-216 | an in-grid instruction keeps the figure valid, so every pushed or previewed path is non-empty |
| Figure.ExecuteAllValid | src/components/drawpad/figure/mod.rs:165-170 | a frame of in-grid instructions keeps the figure valid |
| Figure.BlankCoherent | src/components/drawpad/figure/mod.rs:154-163 | a blank figure shows its picture |
| Figure.ExecuteCoherent | src/components/drawpad/figure/mod.rs:172-216 | every corrected instruction keeps the buffer consistent with the history |
| Figure.ExecuteAllCoherent | src/components/drawpad/figure/mod.rs:165-170 | so does every frame of them |
| Figure.RenderFigShows | src/components/drawpad/figure/mod.rs:218-236 | render from a consistent figure shows the live operations with the open stroke on top, and it stays consistent |
| Figure.FrameShowsPicture | src/components/drawpad/figure/mod.rs:165-170 | after any frame of in-grid instructions, the buffer shows the live operations with the open stroke on top |
| Figure.ExecuteIntent | src/components/drawpad/figure/mod.rs:172-216 | what an instruction does to a figure does not depend on its buffer or beenRendered |
| Figure.ExecuteAllIntent | src/components/drawpad/figure/mod.rs:165-170 | the same holds for a frame |
| Figure.ExecuteAllAppend | src/components/drawpad/figure/mod.rs:165-170 | executing a + b is executing a and then b |
| Figure.FrameSplit | src/components/drawpad/figure/mod.rs:165-170 | how instructions are cut into frames does not change the final buffer |
| Figure.Undos | src/components/drawpad/figure/mod.rs:208-210 | a list of n undo instructions |
| Figure.UndosCursor | src/components/drawpad/figure/mod.rs:208-210 | n undo instructions act as n `History::undo`s |
| Figure.UndoEverything | src/components/drawpad/figure/mod.rs:208-210 | full undo: with no stroke open, a frame of as many undos as live operations leaves the grid white |
| Figure.UndosCursorAsWritten | src/components/drawpad/figure/mod.rs:208-210 | n undo instructions act as n `History::undo`s in the interpreter as written too |
| Figure.UndoEverythingAsWritten | src/components/drawpad/figure/mod.rs:208-210 | full undo as written: with no stroke open, and either something rendered before or the buffer consistent, a frame of as many undos as live operations leaves the grid white |
| Figure.Moves | src/components/drawpad/figure/mod.rs:179-181 | a list of pointer moves along the given points |
| Figure.MovesExtend | src/components/drawpad/figure/mod.rs:179-181 | moves extend the open path by their points in order |
| Figure.StrokeInOneFrame | src/components/drawpad/figure/mod.rs:174-198 | down, moves, up pushes exactly one operation along every point in order and closes the stroke |
| Figure.PointerSteps | src/components/drawpad/figure/mod.rs:174-198 | down opens the path [c]; move and up with no open path change nothing; up with an open path pushes path + [c] and closes the stroke |
| Figure.SettingInstructions | src/components/drawpad/figure/mod.rs:199-210 | SetColor and SetTool change only the colour and the tool; Undo and Redo keep the stack and the buffer |
| Figure.ResetBlank | src/components/drawpad/figure/mod.rs:211-214 | Reset empties the history and whitens the grid, and render keeps it white |
| Figure.ClearAsWritten | src/components/drawpad/figure/mod.rs:201-204 | Clear as written whitens the buffer at once and pushes `Operation::Clear` |
| Figure.ClearWhitens | src/components/drawpad/figure/mod.rs:201-204 | the corrected Clear whitens the buffer by the end of its frame |
| Figure.TapCells | src/components/drawpad/figure/mod.rs:74 | a tap at (0, 0) blackens cell (0, 0) |
| Figure.TapExecuted | src/components/drawpad/figure/mod.rs:174-198 | the tap frame's state, for both interpreters |
| Figure.TapRendered | src/components/drawpad/figure/mod.rs:218-236 | the tap frame's render, for both interpreters |
| Figure.TapFrame | src/components/drawpad/figure/mod.rs:165-170 | the tap frame rendered, for both interpreters |
| Figure.ClearUndoInGrid | src/components/drawpad/figure/mod.rs:201-210 | the Clear-then-Undo frame names only grid cells |
| Figure.ClearUndoExecuted | src/components/drawpad/figure/mod.rs:201-210 | Clear then Undo after the tap, for both interpreters |
| Figure.TapShownCoherent | src/components/drawpad/figure/mod.rs:165-170 | after the tap frame the figure is consistent and shows the tap |
| Figure.ClearedRendered | src/components/drawpad/figure/mod.rs:218-236 | rendering after Clear then Undo: white as written while the picture holds the tap; the tap again when corrected |
| Figure.ClearUndoAsWritten | src/components/drawpad/figure/mod.rs:201-204 | as written, Clear then Undo in one frame leaves a white buffer although the tap is live again |
| Figure.ClearUndo | src/components/drawpad/figure/mod.rs:201-204 | corrected, the same frames show the tap again |
| Figure.TapOneCells | src/components/drawpad/figure/mod.rs:74 | a tap at (1, 1) blackens cell (1, 1) and leaves (0, 0) alone |
| Figure.UndoTapInGrid | src/components/drawpad/figure/mod.rs:174-210 | the frame of Undo and a tap at (1, 1) names only grid cells |
| Figure.UndoTapExecuted | src/components/drawpad/figure/mod.rs:174-210 | Undo and a tap at (1, 1) after the tap at (0, 0): the history as written keeps the old beenRendered, the corrected one marks a full replay |
| Figure.RetappedRendered | src/components/drawpad/figure/mod.rs:218-236 | the render after that frame: as written it keeps the old buffer while the picture is the new tap; corrected it draws exactly the new tap |
| Figure.RetappedShownAsWritten | src/components/drawpad/figure/mod.rs:218-236 | as written, after that render (0, 0) is black and (1, 1) white, while the picture has (0, 0) white and (1, 1) black |
| Figure.RetappedShown | src/components/drawpad/figure/mod.rs:218-236 | corrected, after that render the buffer is the picture, with (0, 0) white and (1, 1) black |
| Figure.PushAfterUndoAsWritten | src/components/drawpad/figure/mod.rs:118-122 | as written, a tap, then Undo and a second tap in one frame, leave the first tap on screen and never draw the second |
| Figure.PushAfterUndo | src/components/drawpad/figure/mod.rs:118-122 | corrected, the same frames show exactly the second tap |
| Figure.PreviewFrame | src/components/drawpad/figure/mod.rs:218-236 | a frame that opens a stroke at (0, 0) previews it, for both renders |
| Figure.UpUndoExecuted | src/components/drawpad/figure/mod.rs:182-210 | pointer up and then Undo, for both interpreters |
| Figure.PreviewPersistsAsWritten | src/components/drawpad/figure/mod.rs:218-236 | as written, a preview whose stroke ends and is undone in the next frame stays on screen although nothing is live |
| Figure.PreviewDropped | src/components/drawpad/figure/mod.rs:218-236 | corrected, the same frames leave the grid white |
| Figure.FigureLocal.Blank | src/components/drawpad/figure/mod.rs:154-163 | the object starts as `BlankFig` |
| Figure.FigureLocal.Execute | src/components/drawpad/figure/mod.rs:172-216 | the object moves as the corrected `Executed` says |
| Figure.FigureLocal.Render | src/components/drawpad/figure/mod.rs:218-236 | the object moves as the corrected `Rendered` says |
| Figure.FigureLocal.RenderFrame | src/components/drawpad/figure/mod.rs:165-170 | the frame's instructions run in order, followed by exactly one render |
| Frames.Frame.Of | src/components/drawpad/frame.rs:4-7 | a frame built from a list of instructions, as deserialising one gives, holds exactly that list |
| Frames.Frame.constructor | src/components/drawpad/frame.rs:10-14 | a new frame has no instructions |
| Frames.Frame.Push | src/components/drawpad/frame.rs:15-17 | push appends: one longer, the new instruction last, the earlier ones unchanged and in order |
| Chunks.ConcatAppend | src/components/drawpad/chunk.rs:18-25 | joining distributes over appending |
| Chunks.NewUnloading | src/components/drawpad/chunk.rs:10-15 | a new unloader is valid and has nothing pending |
| Chunks.UnloadedState | src/components/drawpad/chunk.rs:17-36 | unload keeps frame_idx ≤ len(chunk), and keeps in-grid frames in the grid |
| Chunks.UnloadedFrame | src/components/drawpad/chunk.rs:17-36 | the frame handed out is on the grid when the chunk is |
| Chunks.UnloadConserves | src/components/drawpad/chunk.rs:17-36 | one call loses and duplicates nothing: the returned frame followed by what is still pending is the old pending, followed by the new chunk |
| Chunks.UnloadExhausted | src/components/drawpad/chunk.rs:32-34 | an exhausted unloader returns an empty frame and changes no state |
| Chunks.UnloadNext | src/components/drawpad/chunk.rs:27-31 | with no new chunk, the next frame is returned, its slot emptied and the index moved past it |
| Chunks.UnloadedAll | src/components/drawpad/chunk.rs:17-36 | any sequence of calls keeps the unloader valid |
| Chunks.UnloadedFrames | src/components/drawpad/chunk.rs:17-36 | a sequence of calls returns one frame per call |
| Chunks.UnloadAllConserves | src/components/drawpad/chunk.rs:17-36 | conservation over any sequence of calls: the instructions handed out, then those still pending, are those pending at the start, then those of every chunk supplied, in order |
| Chunks.ChunkUnloader.constructor | src/components/drawpad/chunk.rs:10-15 | the object starts as `NewUnloading` |
| Chunks.ChunkUnloader.Unload | src/components/drawpad/chunk.rs:17-36 | the returned frame and the new state are those of `UnloadedFrame` and `UnloadedState` |
| Chunks.LoadedHeld | src/components/drawpad/chunk.rs:51-67 | the loader keeps nothing exactly when it hands a chunk out; otherwise it keeps the held frames followed by the new one |
| Chunks.LoadedOut | src/components/drawpad/chunk.rs:51-67 | a chunk handed out is the held frames followed by the new one, of length SIZE, and is handed out exactly when SIZE − 1 frames were held |
| Chunks.LoadStep | src/components/drawpad/chunk.rs:51-67 | for SIZE ≥ 2, a chunk is returned exactly when SIZE−1 frames were held; it holds them followed by the new frame, has length SIZE, and leaves nothing held; otherwise the frame joins the held ones, which stay between 1 and SIZE−1 |
| Chunks.SizeOneNeverEmits | src/components/drawpad/chunk.rs:53-65 | with SIZE == 1 no call ever returns a chunk |
| Chunks.FeedStep | src/components/drawpad/chunk.rs:51-67 | one more call keeps every chunk handed out of length SIZE and the frames in submission order |
| Chunks.FeedAllShape | src/components/drawpad/chunk.rs:51-67 | after any calls, the chunks handed out followed by the held frames are exactly the frames submitted, in order, each chunk of SIZE and fewer than SIZE held |
| Chunks.EveryFifteenthCall | src/components/drawpad/mod.rs:49 | the drawpad's loader, after n calls, has handed out n / 15 chunks and holds n % 15 frames |
| Chunks.FifteenthCallEmits | src/components/drawpad/mod.rs:49 | call n + 1 returns a chunk exactly when n + 1 is a multiple of 15 |
| Chunks.ChunkLoader.constructor | src/components/drawpad/chunk.rs:45-50 | a new loader holds nothing and is valid |
| Chunks.ChunkLoader.Load | src/components/drawpad/chunk.rs:51-67 | the result and the held chunk are those of `LoadedOut` and `LoadedHeld`, and the loader stays valid: a held chunk is never empty and, for SIZE ≥ 2, is shorter than SIZE |
| Utils.FromStrRadix16 | src/utils.rs:7 | a parsed value is below 2^32; digits alone, with a value below 2^32, parse to that value; a string ending in a non-digit fails |
| Utils.ParseColor | src/utils.rs:3-12 | only a 7-byte string starting with `#` can parse |
| Utils.ParseSixDigits | src/utils.rs:6-8 | `#` followed by six hex digits, in either case, gives r, g and b from digit pairs 1–2, 3–4 and 5–6 |
| Utils.PlusAccepted | src/utils.rs:7 | a leading `+` is accepted as `from_str_radix` does: `#+fffff` is 0x0fffff |
| Utils.BadDigitRejected | src/utils.rs:7-11 | any non-digit after `#`, except a leading `+`, makes the parse fail |
| Utils.ParseFormat | src/utils.rs:3-12 | round trip: every colour written as `#rrggbb`, in either case, parses back to itself |
| Drawpad.MapCoordAsWritten | src/components/drawpad/mod.rs:257-258 | the mapping as written lies in 0..128 |
| Drawpad.MapCoordEdge | src/components/drawpad/mod.rs:257-258 | the mapping as written gives 128 at screen offset 512, a column outside the grid |
| Drawpad.MapCoord | src/components/drawpad/mod.rs:257-258 | the corrected mapping always lands in the grid, is (c − offset) / 4 inside the canvas, and agrees with the written one below 512 |
| Drawpad.MapCoordScale | src/components/drawpad/mod.rs:257-258 | the corrected mapping is monotone, four screen pixels per cell |
| Drawpad.ChosenTool | src/components/drawpad/mod.rs:260-279 | button 1 draws with the selected tool, button 2 with the other one |
| Drawpad.RecordedButtons | src/components/drawpad/mod.rs:260-290 | a press records its buttons, a release resets them to 0, a move keeps them |
| Drawpad.DownInstructions | src/components/drawpad/mod.rs:260-279 | a press adds nothing without a main button; otherwise at most three instructions, ending with the press, and the colour is set exactly when the pencil is chosen |
| Drawpad.PointerInstructions | src/components/drawpad/mod.rs:251-290 | an event adds instructions exactly when its buttons (the recorded ones for a release) are a main button; at most three, ending with the PointerDown, PointerUp or PointerMove of its kind at the event's cell |
| Drawpad.DownShape | src/components/drawpad/mod.rs:260-279 | (Pencil,1) or (Eraser,2) adds SetColor, SetTool(Pencil), PointerDown; (Pencil,2) or (Eraser,1) adds SetTool(Eraser), PointerDown; any other pair adds nothing |
| Drawpad.PointerInGrid | src/components/drawpad/mod.rs:251-295 | a pointer event at an in-grid cell adds only in-grid instructions |
| Drawpad.DragIsMoves | src/components/drawpad/mod.rs:286-290 | a drag with a main button adds one PointerMove per point, in order |
| Drawpad.DownSelects | src/components/drawpad/mod.rs:260-279 | a main-button press selects the chosen tool, and for the pencil the drawpad's colour, then opens the stroke |
| Drawpad.PressSplits | src/components/drawpad/mod.rs:251-295 | the instructions of press, drag and release, in order |
| Drawpad.PressDragRelease | src/components/drawpad/mod.rs:251-295 | press, drag and release with a main button push exactly one stroke with the chosen tool (and colour), through every visited point in order, and leave no stroke open |
| Drawpad.ReleaseWithoutPress | src/components/drawpad/mod.rs:280-285 | a release without a recorded main button adds nothing and clears the record |
| Drawpad.Toggled | src/components/drawpad/mod.rs:361-367 | HotKeyE always switches to the other tool |
| Drawpad.ToggleTwice | src/components/drawpad/mod.rs:361-367 | HotKeyE twice restores the tool |
| Drawpad.ClampFrames | src/components/drawpad/mod.rs:342-349 | clamps every received coordinate into the grid, and is the identity on frames already in the grid |
| Drawpad.Received | src/components/drawpad/mod.rs:342-349 | received frames are added only in Receive mode and only when they decode; the queue stays in the grid |
| Drawpad.ReceivedAsWritten | src/components/drawpad/mod.rs:342-349 | as written, the queue is unchanged outside Receive mode or when decoding fails, and otherwise only grows at its end |
| Drawpad.ReceivedAgrees | src/components/drawpad/mod.rs:342-349 | on in-grid chunks, the corrected queue is the one as written |
| Drawpad.ReceivedOffGrid | src/components/drawpad/mod.rs:342-349 | as written, a received press at column 200 is queued and breaks the figure's invariant; corrected, it becomes column 127 |
| Drawpad.PackedByte | src/components/drawpad/mod.rs:109-118 | every fourth byte of the image, the alpha byte, is 0xff |
| Drawpad.PackedLayout | src/components/drawpad/mod.rs:109-118 | byte 4·(y·W+x)+k of the image is r, g, b of pixel (x, y) for k = 0, 1, 2, and 0xff for k = 3 |
| Drawpad.PackStep | src/components/drawpad/mod.rs:113-116 | writing one pixel's four bytes extends the packed prefix by that pixel |
| Drawpad.PackPixels | src/components/drawpad/mod.rs:109-118 | the loop fills a W·H·4 image, every byte with the value its index calls for |
| Drawpad.Pad.constructor | src/components/drawpad/mod.rs:147-170 | a new drawpad is blank and offline, with empty frames and queues, a fifteen-frame loader, a black pencil and no buttons |
| Drawpad.Pad.TakeFrame | src/components/drawpad/mod.rs:128-132 | the old frame is returned, an empty one takes its place, and nothing else changes |
| Drawpad.Pad.PushInstruction | src/components/drawpad/mod.rs:136-139 | the instruction is appended to the current frame |
| Drawpad.Pad.Pointer | src/components/drawpad/mod.rs:251-295 | the frame gains exactly the event's instructions at the corrected grid position, and the recorded buttons are updated; with no canvas nothing happens |
| Drawpad.Pad.CtrlY | src/components/drawpad/mod.rs:296 | appends Redo |
| Drawpad.Pad.CtrlZ | src/components/drawpad/mod.rs:297 | appends Undo |
| Drawpad.Pad.CtrlX | src/components/drawpad/mod.rs:298 | appends Clear |
| Drawpad.Pad.HotKeyE | src/components/drawpad/mod.rs:361-367 | switches to the other tool and changes nothing else |
| Drawpad.Pad.Req | src/components/drawpad/mod.rs:332-339 | SetTool, SetColor and SetStreamMode set their field; Clear appends a Clear instruction |
| Drawpad.Pad.Ws | src/components/drawpad/mod.rs:340-360 | a chunk joins the queue only in Receive mode and when it decodes; Topic sets Push; GameStart and TurnEnd add Reset and set Receive; GameEnd sets Offline; MarkEnd adds Reset; other responses change nothing |
| Drawpad.Pad.Tick | src/components/drawpad/mod.rs:299-331 | in Receive mode the frame comes from the unloader, with the queue passed in when non-empty and then emptied, and the local frame is not taken; otherwise the local frame is taken; the figure renders that frame; only Push mode feeds the loader, and a finished chunk is returned; the image is the packed buffer |

## Left out

- The body of `line_with_width` (draw.rs:54-104) is not modelled. It decides cells by `f32` `sqrt`/`powi` thresholds. The model takes it as a given function `WideBody` of the end points, the width and the cell. Only the two end squares are modelled exactly.
- The canvas, the DOM and `web_sys` calls are left out. This covers `get_context`, `rendered`, `view`, `ImageData` and `put_image_data`. The canvas offsets are plain integer inputs. `get_canvas` returning `None` is an `Option` argument of `Pad.Pointer`.
- The `gloo_timers` interval and its 17 ms period are left out. A tick is one call of `Pad.Tick`.
- `bincode` serialisation is a foreign library and is left out. A received chunk carries what decoding produced, an arbitrary `Option`. The chunk to send is returned by `Pad.Tick` instead of being serialised and sent.
- The websocket client, the async channels and the yew_agent buses (`ws/*`, `drawpad/agent.rs`, `console/agent.rs`) are message plumbing and are left out.
- The console, colour picker, player list, localisation tables, layout and allocator are presentation glue and are not modelled.
- `sync_figure`'s `MaybeUninit` buffer is left out, and so is any unsafe part of it. Only the index arithmetic of its packing loop is modelled, by `PackPixels`.
- `src/consts.rs` is not part of this model. W = H = 128 follows from the `clamp(0, 127)` of draw.rs:131-132 and the `/ 4` of a 512-pixel canvas.
- Drawpad.MapCoord: the i32 subtraction `c - offset` is taken over unbounded integers. Browser coordinates do not come near its overflow.
- Chunks.ChunkLoader.constructor: requires SIZE ≥ 1, because `SIZE - 1` underflows at SIZE == 0. The drawpad instantiates only SIZE == 15.
- Chunks.EveryFifteenthCall: the quotient and remainder facts are stated for the drawpad's SIZE of 15. `FeedAllShape` covers every SIZE ≥ 2.
- Frames inside chunks, and the unloader's slots, are held as instruction sequences rather than `Frame` objects. Each side owns its chunk outright, so no aliasing arises.
- `Vec::with_capacity` and other allocation details are left out.
- The `unreachable!()` branches for empty paths are excluded by the figure's invariant `ValidFig`. `ExecuteValid` proves that this invariant holds.
- The scenario lemmas of "## Findings" (`PushAfterUndo…`, `ClearUndo…`, `Preview…`, `ReceivedOffGrid`) are stated for their concrete inputs only.
- The classes `History`, `FigureLocal` and `Pad` run the corrected definitions. The behaviour as written is covered only by the pure functions with the `AsWritten` suffix.

## Findings

| source | as written | input that shows it | evidently intended | confidence | as-written member | corrected member |
|---|---|---|---|---|---|---|
| src/components/drawpad/figure/mod.rs:118-122 | `push` truncates the stack at the cursor but leaves `been_rendered` alone, so an undo followed by a new stroke before the next render leaves `been_rendered == should_render` | a frame tapping (0,0), then a frame of Undo and a tap at (1,1): the buffer keeps (0,0) black and never draws (1,1) | the next render clears and replays when painted operations were dropped | not executed | Figure.PushAfterUndoAsWritten | Figure.PushAfterUndo |
| src/components/drawpad/figure/mod.rs:201-204 | `Clear` whitens the buffer at once without telling the history, so an Undo in the same frame brings the previous stroke back into the history but not onto the screen | a tap at (0,0), then Clear and Undo in one frame: the buffer is white while the tap is live | the buffer shows the live operations after every frame | not executed | Figure.ClearUndoAsWritten | Figure.ClearUndo |
| src/components/drawpad/figure/mod.rs:218-236 | the preview of an open stroke is drawn into the buffer and is never taken out again, so it survives when the stroke is undone before any later render replays | pointer down at (0,0) and a render, then pointer up at (1,1) and Undo in one frame: nothing is live, yet (0,0) stays black | a preview lasts only until the next render | not executed | Figure.PreviewPersistsAsWritten | Figure.PreviewDropped |
| src/components/drawpad/mod.rs:257-258 | `(c - offset).clamp(0, 512) / 4` gives 128 for an offset of 512 or more, outside the 0..127 columns that `point` and `line` index unclamped; offset 511 is the last pixel of a 512-wide canvas, so this needs a pointer event past its edge, which a canvas laid out wider than 512 pixels would deliver | a pointer at offset 512 from the canvas origin | a clamp to 0..511, so the result stays in 0..127 | not executed | Drawpad.MapCoordEdge | Drawpad.MapCoord |
| src/components/drawpad/mod.rs:342-349 | frames from the network are queued as decoded, so their coordinates reach `point` and `line` unchecked | a received chunk holding the frame [PointerDown((200, 0))]: its preview indexes column 200 of a 128-wide buffer | received coordinates are clamped into the grid, as local ones are | not executed | Drawpad.ReceivedOffGrid | Drawpad.Received |
