/** A frame: the instructions gathered during one tick (frame.rs). */
module Frames {
  import opened Operations

  class Frame {
    var instructions: seq<Instruction>

    /** `Frame::new` (frame.rs:10-14). */
    constructor ()
      ensures instructions == []
    {
      instructions := [];
    }

    /** A frame holding `ins`, as a decoded chunk delivers it. */
    constructor Of(ins: seq<Instruction>)
      ensures instructions == ins
    {
      instructions := ins;
    }

    /** `Frame::push` (frame.rs:15-17): `ins` is appended after every earlier instruction. */
    method Push(ins: Instruction)
      modifies this
      ensures instructions == old(instructions) + [ins]
    {
      instructions := instructions + [ins];
    }
  }
}
