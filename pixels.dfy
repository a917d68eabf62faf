/**
 * The colour grid every drawing primitive writes into: `Color`, the
 * fixed `W x H` buffer and the `clear` helper of the figure module.
 */
module Pixels {

  /** Rust's `u8`, `u16` and `i16`. */
  type u8 = x: int | 0 <= x < 0x100
  type u16 = x: int | 0 <= x < 0x1_0000
  type i16 = x: int | -0x8000 <= x < 0x8000

  /** Width and height of the drawing grid. */
  const W: nat := 128
  const H: nat := 128

  datatype Color = Color(r: u8, g: u8, b: u8)

  const White: Color := Color(0xff, 0xff, 0xff)
  const Black: Color := Color(0, 0, 0)

  /** A grid position as carried by instructions: a pair of `u8`. */
  type Coord = (u8, u8)

  predicate InGrid(c: Coord) {
    c.0 < W && c.1 < H
  }

  predicate IsGrid(g: seq<seq<Color>>) {
    |g| == W && forall x :: 0 <= x < |g| ==> |g[x]| == H
  }

  /** The value of a grid, indexed `g[x][y]` like the source's `data[x][y]`. */
  type Grid = g: seq<seq<Color>> | IsGrid(g) witness seq(W, _ => seq(H, _ => White))

  /** A set of cells that a primitive paints; cells outside the grid are ignored. */
  type Region = iset<(int, int)>

  function WhiteGrid(): Grid {
    seq(W, _ => seq(H, _ => White))
  }

  /** `g` with every cell of `cells` set to `c` and every other cell unchanged. */
  ghost function Paint(g: Grid, cells: Region, c: Color): Grid {
    seq(W, x requires 0 <= x < W => seq(H, y requires 0 <= y < H => if (x, y) in cells then c else g[x][y]))
  }

  predicate IsCanvas(a: array2<Color>) {
    a.Length0 == W && a.Length1 == H
  }

  /** The grid value currently held by a buffer. */
  ghost function Snapshot(a: array2<Color>): Grid
    requires IsCanvas(a)
    reads a
  {
    seq(W, x requires 0 <= x < W reads a => seq(H, y requires 0 <= y < H reads a => a[x, y]))
  }

  /** Reading a cell of the snapshot reads the buffer. */
  lemma SnapshotAt(a: array2<Color>)
    requires IsCanvas(a)
    ensures forall x, y :: 0 <= x < W && 0 <= y < H ==> Snapshot(a)[x][y] == a[x, y]
  {
  }

  /** Two grids that agree on every cell are equal. */
  lemma GridExt(g1: Grid, g2: Grid)
    requires forall x, y :: 0 <= x < W && 0 <= y < H ==> g1[x][y] == g2[x][y]
    ensures g1 == g2
  {
    forall x | 0 <= x < W
      ensures g1[x] == g2[x]
    {
      assert forall y :: 0 <= y < H ==> g1[x][y] == g2[x][y];
    }
  }

  /** A buffer whose cells match `g` holds exactly `g`. */
  lemma SnapshotIs(a: array2<Color>, g: Grid)
    requires IsCanvas(a)
    requires forall x, y :: 0 <= x < W && 0 <= y < H ==> a[x, y] == g[x][y]
    ensures Snapshot(a) == g
  {
    GridExt(Snapshot(a), g);
  }

  /** A buffer that differs from `g` exactly on the cells listed in `pts`, all set to `c`. */
  lemma SnapshotPaintedList(a: array2<Color>, g: Grid, pts: seq<(int, int)>, c: Color)
    requires IsCanvas(a)
    requires forall x, y :: 0 <= x < W && 0 <= y < H ==> a[x, y] == if (x, y) in pts then c else g[x][y]
    ensures Snapshot(a) == Paint(g, (iset p | p in pts), c)
  {
    SnapshotIs(a, Paint(g, (iset p | p in pts), c));
  }

  /** Painting twice in one colour paints the union. */
  lemma PaintUnion(g: Grid, a: Region, b: Region, c: Color)
    ensures Paint(Paint(g, a, c), b, c) == Paint(g, a + b, c)
  {
    GridExt(Paint(Paint(g, a, c), b, c), Paint(g, a + b, c));
  }

  /** Painting a region that holds no cell of the grid changes nothing. */
  lemma PaintNothing(g: Grid, a: Region, c: Color)
    requires forall x, y :: 0 <= x < W && 0 <= y < H ==> (x, y) !in a
    ensures Paint(g, a, c) == g
  {
    GridExt(Paint(g, a, c), g);
  }

  /** Painting a region over a larger one in the same colour hides it (the second paint wins). */
  lemma PaintCovered(g: Grid, a: Region, b: Region, c1: Color, c2: Color)
    requires a <= b
    ensures Paint(Paint(g, a, c1), b, c2) == Paint(g, b, c2)
  {
    GridExt(Paint(Paint(g, a, c1), b, c2), Paint(g, b, c2));
  }

  /**
   * `clear` (figure/mod.rs:14-16): every column is filled with white.
   */
  method Clear(data: array2<Color>)
    requires IsCanvas(data)
    modifies data
    ensures Snapshot(data) == WhiteGrid()
  {
    for x := 0 to W
      invariant forall i, j :: 0 <= i < x && 0 <= j < H ==> data[i, j] == White
    {
      for y := 0 to H
        invariant forall j :: 0 <= j < y ==> data[x, j] == White
        invariant forall i, j :: 0 <= i < x && 0 <= j < H ==> data[i, j] == White
      {
        data[x, y] := White;
      }
    }
    SnapshotIs(data, WhiteGrid());
  }
}
