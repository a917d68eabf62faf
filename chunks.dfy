/**
 * Batching of frames for the network (chunk.rs): the pushing side gathers
 * frames into chunks of `SIZE`, the receiving side hands the frames of the
 * chunks it gets back out, one per tick.
 *
 * A chunk travels serialized and both sides own their frames outright, so
 * a frame inside a chunk is held as its instruction sequence.
 */
module Chunks {
  import opened Wrappers
  import opened Operations
  import opened Frames

  /** The elements of `xss`, in order. */
  function Concat<T>(xss: seq<seq<T>>): seq<T>
    decreases |xss|
  {
    if xss == [] then [] else Concat(xss[..|xss| - 1]) + xss[|xss| - 1]
  }

  lemma {:induction false} ConcatAppend<T>(a: seq<seq<T>>, b: seq<seq<T>>)
    ensures Concat(a + b) == Concat(a) + Concat(b)
    decreases |b|
  {
    if b == [] {
      assert a + b == a;
    } else {
      assert (a + b)[..|a + b| - 1] == a + b[..|b| - 1];
      ConcatAppend(a, b[..|b| - 1]);
    }
  }

  /** `Concat` of one sequence in front of others. */
  lemma ConcatCons<T>(x: seq<T>, xss: seq<seq<T>>)
    ensures Concat([x] + xss) == x + Concat(xss)
  {
    ConcatAppend([x], xss);
  }

  /** Every frame's coordinates name grid cells. */
  predicate FramesInGrid(fs: seq<seq<Instruction>>) {
    forall i :: 0 <= i < |fs| ==> AllInGrid(fs[i])
  }

  lemma {:induction false} ConcatInGrid(fs: seq<seq<Instruction>>)
    requires FramesInGrid(fs)
    ensures AllInGrid(Concat(fs))
    decreases |fs|
  {
    if fs != [] {
      ConcatInGrid(fs[..|fs| - 1]);
      AllInGridAppend(Concat(fs[..|fs| - 1]), fs[|fs| - 1]);
    }
  }

  // ---------------------------------------------------------------------
  // ChunkUnloader (chunk.rs:3-37)
  // ---------------------------------------------------------------------

  datatype Unloading = Unloading(chunk: seq<seq<Instruction>>, frameIdx: nat)

  predicate ValidUnloading(u: Unloading) {
    u.frameIdx <= |u.chunk|
  }

  /** The instructions of the frames not handed out yet. */
  function Pending(u: Unloading): seq<Instruction>
    requires ValidUnloading(u)
  {
    Concat(u.chunk[u.frameIdx..])
  }

  /** `ChunkUnloader::new` (chunk.rs:10-15). */
  function NewUnloading(): (u: Unloading)
    ensures ValidUnloading(u) && Pending(u) == []
  {
    Unloading([], 0)
  }

  /**
   * The state after `ChunkUnloader::unload` (chunk.rs:17-36): a new chunk
   * replaces the old one; otherwise the next frame's slot is emptied and
   * the index moves past it, if there is a next frame.
   */
  function UnloadedState(u: Unloading, incoming: Option<seq<seq<Instruction>>>): (r: Unloading)
    requires ValidUnloading(u)
    ensures ValidUnloading(r)
    ensures FramesInGrid(u.chunk) && (incoming.Some? ==> FramesInGrid(incoming.value)) ==> FramesInGrid(r.chunk)
  {
    match incoming
    case Some(c) => Unloading(c, 0)
    case None =>
      if u.frameIdx < |u.chunk| then Unloading(u.chunk[u.frameIdx := []], u.frameIdx + 1) else u
  }

  /**
   * The frame `ChunkUnloader::unload` returns: every pending frame joined
   * into one when a new chunk arrives, otherwise the next frame, or an
   * empty frame once the chunk is used up.
   */
  function UnloadedFrame(u: Unloading, incoming: Option<seq<seq<Instruction>>>): (fr: seq<Instruction>)
    requires ValidUnloading(u)
    ensures FramesInGrid(u.chunk) ==> AllInGrid(fr)
  {
    match incoming
    case Some(_) =>
      assert FramesInGrid(u.chunk) ==> AllInGrid(Concat(u.chunk[u.frameIdx..])) by {
        if FramesInGrid(u.chunk) {
          forall i | 0 <= i < |u.chunk[u.frameIdx..]|
            ensures AllInGrid(u.chunk[u.frameIdx..][i])
          {
            assert u.chunk[u.frameIdx..][i] == u.chunk[u.frameIdx + i];
          }
          ConcatInGrid(u.chunk[u.frameIdx..]);
        }
      }
      Concat(u.chunk[u.frameIdx..])
    case None => if u.frameIdx < |u.chunk| then u.chunk[u.frameIdx] else []
  }

  /**
   * One call loses and duplicates nothing: what it returns followed by what
   * is still pending is what was pending, followed by the new chunk.
   */
  lemma UnloadConserves(u: Unloading, incoming: Option<seq<seq<Instruction>>>)
    requires ValidUnloading(u)
    ensures incoming.None? ==>
      UnloadedFrame(u, incoming) + Pending(UnloadedState(u, incoming)) == Pending(u)
    ensures incoming.Some? ==>
      && UnloadedFrame(u, incoming) == Pending(u)
      && Pending(UnloadedState(u, incoming)) == Concat(incoming.value)
  {
    if incoming.None? && u.frameIdx < |u.chunk| {
      var r := UnloadedState(u, incoming);
      assert u.chunk[u.frameIdx..] == [u.chunk[u.frameIdx]] + r.chunk[r.frameIdx..];
      ConcatCons(u.chunk[u.frameIdx], r.chunk[r.frameIdx..]);
    }
    if incoming.Some? {
      assert incoming.value[0..] == incoming.value;
    }
  }

  /** A used-up unloader hands out empty frames and stays as it is. */
  lemma UnloadExhausted(u: Unloading)
    requires ValidUnloading(u) && u.frameIdx == |u.chunk|
    ensures UnloadedFrame(u, None) == [] && UnloadedState(u, None) == u
  {
  }

  /** A call of `unload` with no new chunk hands out the next frame. */
  lemma UnloadNext(u: Unloading)
    requires ValidUnloading(u) && u.frameIdx < |u.chunk|
    ensures UnloadedFrame(u, None) == u.chunk[u.frameIdx]
    ensures UnloadedState(u, None).frameIdx == u.frameIdx + 1
    ensures UnloadedState(u, None).chunk[u.frameIdx] == []
  {
  }

  /** The state after a sequence of calls. */
  function UnloadedAll(u: Unloading, calls: seq<Option<seq<seq<Instruction>>>>): (r: Unloading)
    requires ValidUnloading(u)
    ensures ValidUnloading(r)
    decreases |calls|
  {
    if calls == [] then u else UnloadedState(UnloadedAll(u, calls[..|calls| - 1]), calls[|calls| - 1])
  }

  /** The frames a sequence of calls returns, in order. */
  function UnloadedFrames(u: Unloading, calls: seq<Option<seq<seq<Instruction>>>>): (fs: seq<seq<Instruction>>)
    requires ValidUnloading(u)
    ensures |fs| == |calls|
    decreases |calls|
  {
    if calls == [] then []
    else UnloadedFrames(u, calls[..|calls| - 1]) + [UnloadedFrame(UnloadedAll(u, calls[..|calls| - 1]), calls[|calls| - 1])]
  }

  /** The instructions of every chunk supplied to a sequence of calls, in order. */
  function Supplied(calls: seq<Option<seq<seq<Instruction>>>>): seq<Instruction>
    decreases |calls|
  {
    if calls == [] then []
    else
      var last := calls[|calls| - 1];
      Supplied(calls[..|calls| - 1]) + (if last.Some? then Concat(last.value) else [])
  }

  /**
   * Conservation over any sequence of calls: the instructions handed out,
   * followed by those still pending, are those pending at the start
   * followed by those of every chunk supplied, in order.
   */
  lemma {:induction false} UnloadAllConserves(u: Unloading, calls: seq<Option<seq<seq<Instruction>>>>)
    requires ValidUnloading(u)
    ensures Concat(UnloadedFrames(u, calls)) + Pending(UnloadedAll(u, calls)) == Pending(u) + Supplied(calls)
    decreases |calls|
  {
    if calls != [] {
      var prev, last := calls[..|calls| - 1], calls[|calls| - 1];
      var v := UnloadedAll(u, prev);
      UnloadAllConserves(u, prev);
      UnloadConserves(v, last);
      ConcatAppend(UnloadedFrames(u, prev), [UnloadedFrame(v, last)]);
      assert Concat(UnloadedFrames(u, calls)) == Concat(UnloadedFrames(u, prev)) + UnloadedFrame(v, last);
      if last.Some? {
        assert Supplied(calls) == Supplied(prev) + Concat(last.value);
      } else {
        assert Supplied(calls) == Supplied(prev);
      }
    }
  }

  class ChunkUnloader {
    var chunk: seq<seq<Instruction>>
    var frameIdx: nat

    function State(): Unloading
      reads this
    {
      Unloading(chunk, frameIdx)
    }

    predicate Valid()
      reads this
    {
      ValidUnloading(State())
    }

    /** `ChunkUnloader::new` (chunk.rs:10-15). */
    constructor ()
      ensures Valid() && State() == NewUnloading()
    {
      chunk := [];
      frameIdx := 0;
    }

    /** `ChunkUnloader::unload` (chunk.rs:17-36). */
    method Unload(incoming: Option<seq<seq<Instruction>>>) returns (fr: Frame)
      requires Valid()
      modifies this
      ensures fresh(fr) && fr.instructions == UnloadedFrame(old(State()), incoming)
      ensures Valid() && State() == UnloadedState(old(State()), incoming)
    {
      if incoming.Some? {
        ghost var c0 := chunk;
        var start := frameIdx;
        var instructions := [];
        for idx := start to |chunk|
          invariant |chunk| == |c0|
          invariant instructions == Concat(c0[start..idx])
          invariant forall j :: idx <= j < |chunk| ==> chunk[j] == c0[j]
        {
          assert start <= idx < |c0|;
          assert c0[start..idx + 1][..idx - start] == c0[start..idx];
          instructions := instructions + chunk[idx];
          chunk := chunk[idx := []];
        }
        assert c0[start..|c0|] == c0[start..];
        chunk := incoming.value;
        frameIdx := 0;
        fr := new Frame.Of(instructions);
      } else if frameIdx < |chunk| {
        var taken := chunk[frameIdx];
        chunk := chunk[frameIdx := []];
        frameIdx := frameIdx + 1;
        fr := new Frame.Of(taken);
      } else {
        fr := new Frame();
      }
    }
  }

  // ---------------------------------------------------------------------
  // ChunkLoader<SIZE> (chunk.rs:39-68)
  // ---------------------------------------------------------------------

  /** How many frames a loader holds. */
  function HeldCount(held: Option<seq<seq<Instruction>>>): nat {
    if held.None? then 0 else |held.value|
  }

  function HeldFrames(held: Option<seq<seq<Instruction>>>): seq<seq<Instruction>> {
    if held.None? then [] else held.value
  }

  /**
   * What `ChunkLoader::load` keeps (chunk.rs:51-67): a held chunk one
   * short of `size` is completed and handed out, any other held chunk
   * grows by `f`, and with nothing held a chunk of `f` alone is started.
   */
  function LoadedHeld(size: nat, held: Option<seq<seq<Instruction>>>, f: seq<Instruction>): (r: Option<seq<seq<Instruction>>>)
    requires size >= 1
    ensures r.None? <==> LoadedOut(size, held, f).Some?
    ensures r.Some? ==> HeldFrames(r) == HeldFrames(held) + [f]
  {
    match held
    case Some(c) => if |c| == size - 1 then None else Some(c + [f])
    case None => Some([f])
  }

  /** What `ChunkLoader::load` returns: the held frames and `f`, once `size` of them are together. */
  function LoadedOut(size: nat, held: Option<seq<seq<Instruction>>>, f: seq<Instruction>): (r: Option<seq<seq<Instruction>>>)
    requires size >= 1
    ensures r.Some? ==> r.value == HeldFrames(held) + [f] && |r.value| == size
    ensures r.Some? <==> held.Some? && HeldCount(held) + 1 == size
  {
    match held
    case Some(c) => if |c| == size - 1 then Some(c + [f]) else None
    case None => None
  }

  /** A held chunk is never empty and, for `size >= 2`, always short of `size`. */
  predicate ValidHeld(size: nat, held: Option<seq<seq<Instruction>>>) {
    held.Some? ==> 1 <= |held.value| < size
  }

  /**
   * One call: for `size >= 2` a chunk is handed out exactly when `size - 1`
   * frames were held; it is those frames followed by `f`, of length `size`,
   * and the loader is left empty. Otherwise `f` joins the held frames.
   * Either way no frame is lost or duplicated.
   */
  lemma LoadStep(size: nat, held: Option<seq<seq<Instruction>>>, f: seq<Instruction>)
    requires size >= 2 && ValidHeld(size, held)
    ensures ValidHeld(size, LoadedHeld(size, held, f))
    ensures LoadedOut(size, held, f).Some? <==> HeldCount(held) == size - 1
    ensures LoadedOut(size, held, f).Some? ==>
      && LoadedOut(size, held, f).value == HeldFrames(held) + [f]
      && |LoadedOut(size, held, f).value| == size
      && LoadedHeld(size, held, f) == None
    ensures LoadedOut(size, held, f).None? ==>
      HeldFrames(LoadedHeld(size, held, f)) == HeldFrames(held) + [f]
  {
  }

  /** With `SIZE == 1` the first call starts a chunk of one, and no call ever hands one out. */
  lemma SizeOneNeverEmits(held: Option<seq<seq<Instruction>>>, f: seq<Instruction>)
    requires held.None? || |held.value| >= 1
    ensures LoadedOut(1, held, f).None?
    ensures |LoadedHeld(1, held, f).value| >= 1
  {
  }

  /** The loader's state and the chunks handed out so far. */
  datatype Loading = Loading(held: Option<seq<seq<Instruction>>>, sent: seq<seq<seq<Instruction>>>)

  function Feed(size: nat, l: Loading, f: seq<Instruction>): Loading
    requires size >= 1
  {
    var out := LoadedOut(size, l.held, f);
    Loading(LoadedHeld(size, l.held, f), if out.Some? then l.sent + [out.value] else l.sent)
  }

  /** A fresh loader (chunk.rs:45-50) fed the frames `fs`, one call each. */
  function FeedAll(size: nat, fs: seq<seq<Instruction>>): Loading
    requires size >= 1
    decreases |fs|
  {
    if fs == [] then Loading(None, []) else Feed(size, FeedAll(size, fs[..|fs| - 1]), fs[|fs| - 1])
  }

  /**
   * After any sequence of calls, for `size >= 2`: every chunk handed out
   * has `size` frames; the chunks handed out, followed by the frames held,
   * are exactly the frames submitted, in order; and fewer than `size`
   * frames are held, so the number of chunks handed out and of frames held
   * are the quotient and the remainder of the number of calls by `size`.
   */
  lemma FeedStep(size: nat, l: Loading, f: seq<Instruction>)
    requires size >= 2 && ValidHeld(size, l.held)
    requires forall j :: 0 <= j < |l.sent| ==> |l.sent[j]| == size
    ensures var l' := Feed(size, l, f);
      && ValidHeld(size, l'.held)
      && (forall j :: 0 <= j < |l'.sent| ==> |l'.sent[j]| == size)
      && Concat(l'.sent) + HeldFrames(l'.held) == Concat(l.sent) + HeldFrames(l.held) + [f]
      && size * |l'.sent| + HeldCount(l'.held) == size * |l.sent| + HeldCount(l.held) + 1
  {
    LoadStep(size, l.held, f);
    var out := LoadedOut(size, l.held, f);
    if out.Some? {
      ConcatAppend(l.sent, [out.value]);
      assert size * (|l.sent| + 1) == size * |l.sent| + size;
    }
  }

  lemma {:induction false} FeedAllShape(size: nat, fs: seq<seq<Instruction>>)
    requires size >= 2
    ensures var l := FeedAll(size, fs);
      && ValidHeld(size, l.held)
      && (forall j :: 0 <= j < |l.sent| ==> |l.sent[j]| == size)
      && Concat(l.sent) + HeldFrames(l.held) == fs
      && |fs| == size * |l.sent| + HeldCount(l.held)
    decreases |fs|
  {
    if fs != [] {
      var prev, f := fs[..|fs| - 1], fs[|fs| - 1];
      FeedAllShape(size, prev);
      var l0 := FeedAll(size, prev);
      FeedStep(size, l0, f);
      var l1 := FeedAll(size, fs);
      assert l1 == Feed(size, l0, f);
      assert Concat(l1.sent) + HeldFrames(l1.held) == fs by {
        assert prev + [f] == fs;
      }
      var n0, n1 := size * |l0.sent|, size * |l1.sent|;
      assert n1 + HeldCount(l1.held) == n0 + HeldCount(l0.held) + 1;
      assert |fs| == n1 + HeldCount(l1.held);
    }
  }

  /** The loader of the drawpad holds chunks of fifteen frames (mod.rs:49). */
  const PadChunkSize: nat := 15

  /**
   * The drawpad's loader hands out a chunk on exactly every fifteenth
   * call: after `n` calls it has handed out `n / 15` chunks and holds
   * `n % 15` frames.
   */
  lemma EveryFifteenthCall(fs: seq<seq<Instruction>>)
    ensures |FeedAll(PadChunkSize, fs).sent| == |fs| / 15
    ensures HeldCount(FeedAll(PadChunkSize, fs).held) == |fs| % 15
    ensures ValidHeld(PadChunkSize, FeedAll(PadChunkSize, fs).held)
  {
    FeedAllShape(PadChunkSize, fs);
    var l := FeedAll(PadChunkSize, fs);
    DivModUnique(|fs|, |l.sent|, HeldCount(l.held));
  }

  lemma DivModUnique(n: nat, q: nat, r: nat)
    requires n == 15 * q + r && r < 15
    ensures q == n / 15 && r == n % 15
  {
  }

  /** Call `n + 1` of the drawpad's loader hands out a chunk exactly when `n + 1` is a multiple of fifteen. */
  lemma FifteenthCallEmits(fs: seq<seq<Instruction>>, f: seq<Instruction>)
    ensures LoadedOut(PadChunkSize, FeedAll(PadChunkSize, fs).held, f).Some? <==> (|fs| + 1) % 15 == 0
  {
    var held := FeedAll(PadChunkSize, fs).held;
    var n := |fs|;
    assert LoadedOut(PadChunkSize, held, f).Some? <==> HeldCount(held) == 14 by {
      EveryFifteenthCall(fs);
      LoadStep(PadChunkSize, held, f);
    }
    assert HeldCount(held) == n % 15 by {
      EveryFifteenthCall(fs);
    }
    ModFifteenStep(n);
  }

  lemma ModFifteenStep(n: nat)
    ensures (n + 1) % 15 == 0 <==> n % 15 == 14
  {
  }

  class ChunkLoader {
    const size: nat
    var chunk: Option<seq<seq<Instruction>>>

    /** A held chunk is never empty, and for `SIZE >= 2` it is short of `SIZE` (`ValidHeld`). */
    predicate Valid()
      reads this
    {
      && size >= 1
      && (chunk.Some? ==> |chunk.value| >= 1)
      && (size >= 2 ==> ValidHeld(size, chunk))
    }

    /** `ChunkLoader::new` (chunk.rs:45-50); `SIZE - 1` underflows for `SIZE == 0`. */
    constructor (size: nat)
      requires size >= 1
      ensures this.size == size && chunk == None && Valid()
    {
      this.size := size;
      chunk := None;
    }

    /** `ChunkLoader::load` (chunk.rs:51-67). */
    method Load(f: Frame) returns (out: Option<seq<seq<Instruction>>>)
      requires Valid()
      modifies this
      ensures out == LoadedOut(size, old(chunk), f.instructions)
      ensures chunk == LoadedHeld(size, old(chunk), f.instructions)
      ensures Valid()
    {
      if chunk.Some? {
        if |chunk.value| == size - 1 {
          chunk := Some(chunk.value + [f.instructions]);
          out := chunk;
          chunk := None;
        } else {
          chunk := Some(chunk.value + [f.instructions]);
          out := None;
        }
      } else {
        chunk := Some([f.instructions]);
        out := None;
      }
    }
  }
}
