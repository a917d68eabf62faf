/**
 * The integer rasteriser of draw.rs: Bresenham's `line`, `point`,
 * `fill_square`, the clamping writer `set_color_safe`, and
 * `line_with_width`, whose floating-point body is abstracted by a painter
 * function (see `WideBody`).
 *
 * The model computes with unbounded integers; `TrackFitsI16` shows that
 * for grid coordinates every value of the source's `i16` arithmetic in
 * `line` stays inside the `i16` range.
 */
module Draw {
  import opened Pixels

  /** Rust's `/ 2` on a signed integer, which truncates towards zero. */
  function Half(v: int): int {
    if v >= 0 then v / 2 else -((-v) / 2)
  }

  /** What `line` computes once before its loop (draw.rs:9-30). */
  datatype LineSetup = LineSetup(x1: int, y1: int, dx: int, dy: int, sx: int, sy: int, err0: int)

  /** What the loop of `line` changes: the current pixel and the error term. */
  datatype Pen = Pen(x: int, y: int, err: int)

  function Setup(c0: Coord, c1: Coord): LineSetup {
    var x0: int, y0: int, x1: int, y1: int := c0.0, c0.1, c1.0, c1.1;
    var dx := if x0 > x1 then x0 - x1 else x1 - x0;
    var dy := if y0 > y1 then y0 - y1 else y1 - y0;
    var sx := if x0 < x1 then 1 else -1;
    var sy := if y0 < y1 then 1 else -1;
    LineSetup(x1, y1, dx, dy, sx, sy, Half(if dx > dy then dx else -dy))
  }

  function Start(c0: Coord, c1: Coord): Pen {
    Pen(c0.0, c0.1, Setup(c0, c1).err0)
  }

  /** How far the pen still is from the end point, along each axis. */
  function RemX(p: Pen, s: LineSetup): int {
    if s.sx == 1 then s.x1 - p.x else p.x - s.x1
  }

  function RemY(p: Pen, s: LineSetup): int {
    if s.sy == 1 then s.y1 - p.y else p.y - s.y1
  }

  predicate AtEnd(p: Pen, s: LineSetup) {
    p.x == s.x1 && p.y == s.y1
  }

  /**
   * The loop invariant of Bresenham's algorithm in this variant: the pen
   * never passes the end point on either axis, and the error term is the
   * initial error corrected by the distance still to go.
   */
  ghost predicate OnTrack(p: Pen, s: LineSetup) {
    && s.dx >= 0 && s.dy >= 0
    && (s.sx == 1 || s.sx == -1) && (s.sy == 1 || s.sy == -1)
    && s.err0 == (if s.dx > s.dy then s.dx / 2 else -(s.dy / 2))
    && 0 <= RemX(p, s) <= s.dx && 0 <= RemY(p, s) <= s.dy
    && p.err == s.err0 + s.dy * RemX(p, s) - s.dx * RemY(p, s)
  }

  /** One pass of the loop after the end test (draw.rs:40-44). */
  function Step(p: Pen, s: LineSetup): Pen {
    var e2 := 2 * p.err;
    var p1 := if e2 > -s.dx then Pen(p.x + s.sx, p.y, p.err - s.dy) else p;
    if e2 < s.dy then Pen(p1.x, p1.y + s.sy, p1.err + s.dx) else p1
  }

  lemma MulAtLeast(k: int, n: int)
    requires k >= 0 && n >= 1
    ensures k * n >= k
  {
  }

  lemma StartOnTrack(c0: Coord, c1: Coord)
    ensures OnTrack(Start(c0, c1), Setup(c0, c1))
    ensures RemX(Start(c0, c1), Setup(c0, c1)) == Setup(c0, c1).dx
    ensures RemY(Start(c0, c1), Setup(c0, c1)) == Setup(c0, c1).dy
  {
  }

  /**
   * The arithmetic behind `StepProgress`, on plain integers: with the
   * invariant's error term, the loop's two tests step along an axis only
   * while that axis still has distance to go, and step along at least one.
   */
  lemma StepArithmetic(dx: int, dy: int, err0: int, a: int, b: int, err: int)
    requires dx >= 0 && dy >= 0 && err0 == (if dx > dy then dx / 2 else -(dy / 2))
    requires 0 <= a <= dx && 0 <= b <= dy && (a != 0 || b != 0)
    requires err == err0 + dy * a - dx * b
    ensures 2 * err > -dx || 2 * err < dy
    ensures 2 * err > -dx ==> a >= 1
    ensures 2 * err < dy ==> b >= 1
    ensures err - dy == err0 + dy * (a - 1) - dx * b
    ensures err + dx == err0 + dy * a - dx * (b - 1)
    ensures err - dy + dx == err0 + dy * (a - 1) - dx * (b - 1)
  {
    var A, B := dy * a, dx * b;
    assert a >= 1 ==> A >= dy by {
      if a >= 1 {
        MulAtLeast(dy, a);
      }
    }
    assert b >= 1 ==> B >= dx by {
      if b >= 1 {
        MulAtLeast(dx, b);
      }
    }
    assert dy * (a - 1) == A - dy;
    assert dx * (b - 1) == B - dx;
  }

  /**
   * A step never overshoots the end point on either axis, moves the pen by
   * at most one on each axis, and always moves it.
   */
  lemma StepProgress(p: Pen, s: LineSetup)
    requires OnTrack(p, s) && !AtEnd(p, s)
    ensures OnTrack(Step(p, s), s)
    ensures RemX(Step(p, s), s) <= RemX(p, s) && RemY(Step(p, s), s) <= RemY(p, s)
    ensures RemX(Step(p, s), s) + RemY(Step(p, s), s) < RemX(p, s) + RemY(p, s)
    ensures RemX(p, s) - 1 <= RemX(Step(p, s), s) && RemY(p, s) - 1 <= RemY(Step(p, s), s)
  {
    StepArithmetic(s.dx, s.dy, s.err0, RemX(p, s), RemY(p, s), p.err);
  }

  lemma MulBound(a: int, b: int, n: int)
    requires 0 <= a <= n && 0 <= b <= n
    ensures a * b <= n * n
  {
    assert a * b <= a * n;
  }

  /**
   * For end points on the grid, the error term of a pen on the track is
   * at most 16200 in size, so `err`, `2 * err` and `err - dy + dx`
   * (draw.rs:40-44) all fit an `i16`, and the pen stays on the grid.
   */
  lemma TrackFitsI16(c0: Coord, c1: Coord, p: Pen)
    requires InGrid(c0) && InGrid(c1) && OnTrack(p, Setup(c0, c1))
    ensures -16200 <= p.err <= 16200
    ensures -0x8000 <= 2 * p.err < 0x8000
    ensures -0x8000 <= p.err - Setup(c0, c1).dy + Setup(c0, c1).dx < 0x8000
    ensures 0 <= p.x < W && 0 <= p.y < H
  {
    var s := Setup(c0, c1);
    assert s.dx <= 127 && s.dy <= 127;
    ErrorBound(s.dx, s.dy, s.err0, RemX(p, s), RemY(p, s), p.err);
  }

  lemma ErrorBound(dx: int, dy: int, err0: int, a: int, b: int, err: int)
    requires 0 <= dx <= 127 && 0 <= dy <= 127 && -63 <= err0 <= 63
    requires 0 <= a <= dx && 0 <= b <= dy && err == err0 + dy * a - dx * b
    ensures -16200 <= err <= 16200
  {
    MulBound(dy, a, 127);
    MulBound(dx, b, 127);
    assert 0 <= dy * a && 0 <= dx * b;
  }

  /** The pixels `line` paints from pen `p`, in painting order. */
  ghost function Walk(p: Pen, s: LineSetup): seq<(int, int)>
    requires OnTrack(p, s)
    decreases RemX(p, s) + RemY(p, s)
  {
    if AtEnd(p, s) then [(p.x, p.y)]
    else
      StepProgress(p, s);
      [(p.x, p.y)] + Walk(Step(p, s), s)
  }

  /** The pixels `line(c0, c1)` paints, in painting order. */
  ghost function LinePoints(c0: Coord, c1: Coord): seq<(int, int)> {
    StartOnTrack(c0, c1);
    Walk(Start(c0, c1), Setup(c0, c1))
  }

  ghost function LineRegion(c0: Coord, c1: Coord): Region {
    iset p | p in LinePoints(c0, c1)
  }

  predicate Between(v: int, a: int, b: int) {
    (a <= v <= b) || (b <= v <= a)
  }

  /** Chebyshev distance one: the two pixels are 8-neighbours. */
  predicate Adjacent(p: (int, int), q: (int, int)) {
    p != q && -1 <= q.0 - p.0 <= 1 && -1 <= q.1 - p.1 <= 1
  }

  lemma {:induction false} WalkShape(p: Pen, s: LineSetup)
    requires OnTrack(p, s)
    ensures Walk(p, s)[0] == (p.x, p.y)
    ensures Walk(p, s)[|Walk(p, s)| - 1] == (s.x1, s.y1)
    ensures forall i :: 0 <= i < |Walk(p, s)| ==>
      Between(Walk(p, s)[i].0, p.x, s.x1) && Between(Walk(p, s)[i].1, p.y, s.y1)
    ensures forall i :: 0 <= i < |Walk(p, s)| - 1 ==> Adjacent(Walk(p, s)[i], Walk(p, s)[i + 1])
    ensures 1 + (if RemX(p, s) > RemY(p, s) then RemX(p, s) else RemY(p, s)) <= |Walk(p, s)|
    ensures |Walk(p, s)| <= 1 + RemX(p, s) + RemY(p, s)
    decreases RemX(p, s) + RemY(p, s)
  {
    if !AtEnd(p, s) {
      StepProgress(p, s);
      var q := Step(p, s);
      WalkShape(q, s);
      var w := Walk(p, s);
      assert w == [(p.x, p.y)] + Walk(q, s);
      forall i | 0 <= i < |w|
        ensures Between(w[i].0, p.x, s.x1) && Between(w[i].1, p.y, s.y1)
      {
        if i > 0 {
          assert w[i] == Walk(q, s)[i - 1];
        }
      }
      forall i | 0 <= i < |w| - 1
        ensures Adjacent(w[i], w[i + 1])
      {
        if i > 0 {
          assert w[i] == Walk(q, s)[i - 1];
        }
      }
    }
  }

  /** Every pixel of a walk is strictly closer to the end point than the ones before it. */
  lemma {:induction false} WalkDistinct(p: Pen, s: LineSetup)
    requires OnTrack(p, s)
    ensures forall i, j :: 0 <= i < j < |Walk(p, s)| ==> Walk(p, s)[i] != Walk(p, s)[j]
    ensures forall i :: 0 <= i < |Walk(p, s)| ==>
      Between(Walk(p, s)[i].0, p.x, s.x1) && Between(Walk(p, s)[i].1, p.y, s.y1)
    ensures forall i :: 0 < i < |Walk(p, s)| ==> Walk(p, s)[i] != (p.x, p.y)
    decreases RemX(p, s) + RemY(p, s)
  {
    WalkShape(p, s);
    if !AtEnd(p, s) {
      StepProgress(p, s);
      var q := Step(p, s);
      WalkDistinct(q, s);
      WalkShape(q, s);
      var w := Walk(p, s);
      assert w == [(p.x, p.y)] + Walk(q, s);
      forall i | 0 < i < |w|
        ensures w[i] != (p.x, p.y)
      {
        assert w[i] == Walk(q, s)[i - 1];
        // the rest of the walk lies between q and the end point, and q is past p
      }
      forall i, j | 0 <= i < j < |w|
        ensures w[i] != w[j]
      {
        if i > 0 {
          assert w[i] == Walk(q, s)[i - 1] && w[j] == Walk(q, s)[j - 1];
        }
      }
    }
  }

  /** What the source promises of `line(c0, c1)`, proved of the pixels it paints. */
  lemma LineShape(c0: Coord, c1: Coord)
    ensures var pts := LinePoints(c0, c1);
      && pts[0] == (c0.0, c0.1)
      && pts[|pts| - 1] == (c1.0, c1.1)
      && (forall i :: 0 <= i < |pts| ==> Between(pts[i].0, c0.0, c1.0) && Between(pts[i].1, c0.1, c1.1))
      && (forall i :: 0 <= i < |pts| - 1 ==> Adjacent(pts[i], pts[i + 1]))
      && (forall i, j :: 0 <= i < j < |pts| ==> pts[i] != pts[j])
      && |pts| <= 1 + Setup(c0, c1).dx + Setup(c0, c1).dy
      && 1 + Setup(c0, c1).dx <= |pts| && 1 + Setup(c0, c1).dy <= |pts|
  {
    StartOnTrack(c0, c1);
    WalkShape(Start(c0, c1), Setup(c0, c1));
    WalkDistinct(Start(c0, c1), Setup(c0, c1));
  }

  /** `line(c, c)` paints the single pixel `c`. */
  lemma LineToItself(c: Coord)
    ensures LinePoints(c, c) == [(c.0, c.1)]
  {
  }

  /** Every pixel `line` paints lies on the grid when both end points do. */
  lemma LineInGrid(c0: Coord, c1: Coord)
    requires InGrid(c0) && InGrid(c1)
    ensures forall p :: p in LinePoints(c0, c1) ==> 0 <= p.0 < W && 0 <= p.1 < H
  {
    LineShape(c0, c1);
  }

  /** One pass of `line`'s loop keeps the pen on its walk and between the end points. */
  lemma LineAdvance(c0: Coord, c1: Coord, pen: Pen, painted: seq<(int, int)>)
    requires OnTrack(pen, Setup(c0, c1)) && !AtEnd(pen, Setup(c0, c1))
    requires Between(pen.x, c0.0, c1.0) && Between(pen.y, c0.1, c1.1)
    requires painted + Walk(pen, Setup(c0, c1)) == LinePoints(c0, c1)
    ensures OnTrack(Step(pen, Setup(c0, c1)), Setup(c0, c1))
    ensures Between(Step(pen, Setup(c0, c1)).x, c0.0, c1.0) && Between(Step(pen, Setup(c0, c1)).y, c0.1, c1.1)
    ensures (painted + [(pen.x, pen.y)]) + Walk(Step(pen, Setup(c0, c1)), Setup(c0, c1)) == LinePoints(c0, c1)
    ensures RemX(Step(pen, Setup(c0, c1)), Setup(c0, c1)) + RemY(Step(pen, Setup(c0, c1)), Setup(c0, c1))
      < RemX(pen, Setup(c0, c1)) + RemY(pen, Setup(c0, c1))
  {
    var s := Setup(c0, c1);
    var q := Step(pen, s);
    StepProgress(pen, s);
    assert Walk(pen, s) == [(pen.x, pen.y)] + Walk(q, s);
    assert painted + ([(pen.x, pen.y)] + Walk(q, s)) == (painted + [(pen.x, pen.y)]) + Walk(q, s);
  }

  /**
   * `line` (draw.rs:8-46): paints exactly the pixels of `LinePoints(c0, c1)`.
   * The source indexes `data[x0][y0]` without clamping, so both end
   * points must lie on the grid.
   */
  method Line(data: array2<Color>, c0: Coord, c1: Coord, color: Color)
    requires IsCanvas(data) && InGrid(c0) && InGrid(c1)
    modifies data
    ensures Snapshot(data) == Paint(old(Snapshot(data)), LineRegion(c0, c1), color)
  {
    var s := Setup(c0, c1);
    var pen := Start(c0, c1);
    ghost var g0 := Snapshot(data);
    ghost var painted: seq<(int, int)> := [];
    StartOnTrack(c0, c1);
    while true
      invariant OnTrack(pen, s)
      invariant Between(pen.x, c0.0, c1.0) && Between(pen.y, c0.1, c1.1)
      invariant painted + Walk(pen, s) == LinePoints(c0, c1)
      invariant forall i, j :: 0 <= i < W && 0 <= j < H ==>
        data[i, j] == if (i, j) in painted then color else g0[i][j]
      decreases RemX(pen, s) + RemY(pen, s)
    {
      data[pen.x, pen.y] := color;
      if AtEnd(pen, s) {
        painted := painted + [(pen.x, pen.y)];
        assert painted == LinePoints(c0, c1);
        break;
      }
      LineAdvance(c0, c1, pen, painted);
      painted := painted + [(pen.x, pen.y)];
      pen := Step(pen, s);
    }
    SnapshotPaintedList(data, g0, painted, color);
  }

  /** `point` (draw.rs:107-111): paints the one pixel `c`, which must lie on the grid. */
  method Point(data: array2<Color>, c: Coord, color: Color)
    requires IsCanvas(data) && InGrid(c)
    modifies data
    ensures Snapshot(data) == Paint(old(Snapshot(data)), iset{(c.0 as int, c.1 as int)}, color)
  {
    ghost var g0 := Snapshot(data);
    data[c.0, c.1] := color;
    SnapshotIs(data, Paint(g0, iset{(c.0 as int, c.1 as int)}, color));
  }

  /** `i16::clamp(0, 127)` as `set_color_safe` applies it. */
  function Clamp(v: int): (r: int)
    ensures 0 <= r <= 127
    ensures 0 <= v <= 127 ==> r == v
  {
    if v < 0 then 0 else if v > 127 then 127 else v
  }

  /**
   * `set_color_safe` (draw.rs:127-134): clamps both coordinates into the
   * grid and paints that one cell, so no `i16` input indexes out of bounds.
   */
  method SetColorSafe(data: array2<Color>, x: i16, y: i16, color: Color)
    requires IsCanvas(data)
    modifies data
    ensures Snapshot(data) == Paint(old(Snapshot(data)), iset{(Clamp(x), Clamp(y))}, color)
  {
    ghost var g0 := Snapshot(data);
    var y' := Clamp(y);
    var x' := Clamp(x);
    data[x', y'] := color;
    SnapshotIs(data, Paint(g0, iset{(Clamp(x), Clamp(y))}, color));
  }

  /** `k` is the clamped image of some `v` with `lo <= v < hi`. */
  predicate InClampedRange(k: int, lo: int, hi: int) {
    lo < hi && Clamp(lo) <= k <= Clamp(hi - 1)
  }

  lemma ClampedRangeHasImage(v: int, lo: int, hi: int)
    requires lo <= v < hi
    ensures InClampedRange(Clamp(v), lo, hi)
  {
  }

  /** A value of `[lo, hi)` whose clamped image is `k`. */
  function Preimage(k: int, lo: int, hi: int): int {
    if k == Clamp(lo) then lo else if k == Clamp(hi - 1) then hi - 1 else k
  }

  lemma ClampedRangeWitness(k: int, lo: int, hi: int)
    requires InClampedRange(k, lo, hi)
    ensures lo <= Preimage(k, lo, hi) < hi && Clamp(Preimage(k, lo, hi)) == k
  {
  }

  /** Growing the range by one value adds exactly that value's clamped image. */
  lemma ClampedRangeStep(lo: int, v: int)
    requires lo <= v
    ensures forall k :: InClampedRange(k, lo, v + 1) <==> InClampedRange(k, lo, v) || k == Clamp(v)
  {
    forall k
      ensures InClampedRange(k, lo, v + 1) <==> InClampedRange(k, lo, v) || k == Clamp(v)
    {
      ClampedRangeStepAt(lo, v, k);
    }
  }

  lemma ClampedRangeStepAt(lo: int, v: int, k: int)
    requires lo <= v
    ensures InClampedRange(k, lo, v + 1) <==> InClampedRange(k, lo, v) || k == Clamp(v)
  {
    if lo < v {
      assert Clamp(v - 1) <= Clamp(v) <= Clamp(v - 1) + 1;
      assert Clamp(lo) <= Clamp(v);
    }
  }

  /**
   * The cells `fill_square(c, w)` paints: the clamped images of
   * `[c.0 - w/2, c.0 + w/2) x [c.1 - w/2, c.1 + w/2)`, `w/2` rounded down.
   */
  ghost function SquareRegion(c: Coord, w: u8): Region {
    var h := w / 2;
    iset p: (int, int) | InClampedRange(p.0, c.0 - h, c.0 + h) && InClampedRange(p.1, c.1 - h, c.1 + h)
  }

  /** Every cell of the half-open square lands, clamped, in `SquareRegion`. */
  lemma SquareCoversImage(c: Coord, w: u8, x: int, y: int)
    requires c.0 - w / 2 <= x < c.0 + w / 2 && c.1 - w / 2 <= y < c.1 + w / 2
    ensures (Clamp(x), Clamp(y)) in SquareRegion(c, w)
  {
    ClampedRangeHasImage(x, c.0 - w / 2, c.0 + w / 2);
    ClampedRangeHasImage(y, c.1 - w / 2, c.1 + w / 2);
  }

  /** Every cell of `SquareRegion` is the clamped image of a cell of the half-open square. */
  lemma SquareWithinImage(c: Coord, w: u8, p: (int, int))
    requires p in SquareRegion(c, w)
    ensures var x, y := Preimage(p.0, c.0 - w / 2, c.0 + w / 2), Preimage(p.1, c.1 - w / 2, c.1 + w / 2);
      c.0 - w / 2 <= x < c.0 + w / 2 && c.1 - w / 2 <= y < c.1 + w / 2 && (Clamp(x), Clamp(y)) == p
  {
    ClampedRangeWitness(p.0, c.0 - w / 2, c.0 + w / 2);
    ClampedRangeWitness(p.1, c.1 - w / 2, c.1 + w / 2);
  }

  /** A square that fits on the grid is painted unclipped, with side `2 * (w / 2)`. */
  lemma SquareInside(c: Coord, w: u8)
    requires w / 2 <= c.0 && c.0 + w / 2 <= W && w / 2 <= c.1 && c.1 + w / 2 <= H
    ensures forall x, y :: (x, y) in SquareRegion(c, w) <==>
      c.0 - w / 2 <= x < c.0 + w / 2 && c.1 - w / 2 <= y < c.1 + w / 2
  {
  }

  /** `fill_square` with `w <= 1` paints nothing, since `w / 2 == 0`. */
  lemma NarrowSquareEmpty(c: Coord, w: u8)
    requires w <= 1
    ensures forall p :: p !in SquareRegion(c, w)
  {
  }

  /** `fill_square` (draw.rs:113-124): paints exactly `SquareRegion(c, w)`. */
  method FillSquare(data: array2<Color>, c: Coord, w: u8, color: Color)
    requires IsCanvas(data)
    modifies data
    ensures Snapshot(data) == Paint(old(Snapshot(data)), SquareRegion(c, w), color)
  {
    var left: int := c.0 - w / 2;
    var right: int := c.0 + w / 2;
    var top: int := c.1 - w / 2;
    var bottom: int := c.1 + w / 2;
    ghost var g0 := Snapshot(data);
    for x := left to right
      invariant forall i, j :: 0 <= i < W && 0 <= j < H ==>
        data[i, j] == if InClampedRange(i, left, x) && InClampedRange(j, top, bottom) then color else g0[i][j]
    {
      for y := top to bottom
        invariant forall i, j :: 0 <= i < W && 0 <= j < H ==>
          data[i, j] == if (InClampedRange(i, left, x) && InClampedRange(j, top, bottom))
                           || (i == Clamp(x) && InClampedRange(j, top, y))
                        then color else g0[i][j]
      {
        SetColorSafe(data, x, y, color);
        SnapshotAt(data);
        ClampedRangeStep(top, y);
      }
      ClampedRangeStep(left, x);
    }
    SnapshotIs(data, Paint(g0, SquareRegion(c, w), color));
  }

  /**
   * The cells of `line_with_width` beyond its two end squares. Its body
   * (draw.rs:54-104) decides them by `f32` distance thresholds; the model
   * takes them as a given function of the end points and the width.
   */
  type WideBody = (Coord, Coord, u8, int, int) -> bool

  ghost function WideRegion(c0: Coord, c1: Coord, w: u8, wide: WideBody): Region {
    SquareRegion(c0, w) + SquareRegion(c1, w) + iset p: (int, int) | wide(c0, c1, w, p.0, p.1)
  }

  /**
   * `line_with_width` (draw.rs:48-105): a `fill_square` at each end point
   * (draw.rs:52-53), then the cells of the abstract body.
   */
  method LineWithWidth(data: array2<Color>, c0: Coord, c1: Coord, w: u8, color: Color, wide: WideBody)
    requires IsCanvas(data) && InGrid(c0) && InGrid(c1)
    modifies data
    ensures Snapshot(data) == Paint(old(Snapshot(data)), WideRegion(c0, c1, w, wide), color)
  {
    ghost var g0 := Snapshot(data);
    FillSquare(data, c0, w, color);
    FillSquare(data, c1, w, color);
    PaintUnion(g0, SquareRegion(c0, w), SquareRegion(c1, w), color);
    ghost var g1 := Snapshot(data);
    forall i, j | 0 <= i < W && 0 <= j < H && wide(c0, c1, w, i, j) {
      data[i, j] := color;
    }
    ghost var body := iset p: (int, int) | wide(c0, c1, w, p.0, p.1);
    SnapshotIs(data, Paint(g1, body, color));
    PaintUnion(g0, SquareRegion(c0, w) + SquareRegion(c1, w), body, color);
  }
}
