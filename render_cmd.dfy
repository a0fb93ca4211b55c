/**
 * The render command queue (render_cmd_system.cpp): the engine appends commands at the back
 * of a deque, the renderer pops them from the front, and an atomic counter holds the number
 * of frames in flight: adding an END_FRAME command raises it, deleting one lowers it.
 */
module RenderCmd {

  const UINT32_MODULUS := 0x1_0000_0000

  datatype RenderCommand =
    | EMPTY | BEGIN_FRAME | END_FRAME | DRAW_VIEW | DRAW_UI | ENTITY_ADDED | ENTITY_REMOVED
    | ASSET_ADDED | ASSET_REMOVED | SCREENSHOT | IMPL_SCREENSHOT | IMPL_DRAW_ON_MESH

  /** RCmd_s: a command type and its payload (a pointer or shared reference, 0 for none). */
  datatype Cmd = Cmd(kind: RenderCommand, payload: nat)

  /** RCmd_s{ EMPTY, {} }: what popNextCmd returns on an empty queue. */
  const EmptyCmd := Cmd(EMPTY, 0)

  /** The number of END_FRAME commands in a command list. */
  function EndFrames(l: seq<Cmd>): (n: nat)
    ensures n <= |l|
  {
    if l == [] then 0 else EndFrames(l[..|l| - 1]) + (if l[|l| - 1].kind == END_FRAME then 1 else 0)
  }

  lemma EndFramesAppend(l: seq<Cmd>, c: Cmd)
    ensures EndFrames(l + [c]) == EndFrames(l) + (if c.kind == END_FRAME then 1 else 0)
  {
    assert (l + [c])[..|l|] == l;
  }

  lemma {:induction false} EndFramesFront(l: seq<Cmd>)
    requires l != []
    ensures EndFrames(l) == (if l[0].kind == END_FRAME then 1 else 0) + EndFrames(l[1..])
  {
    if |l| > 1 {
      EndFramesFront(l[..|l| - 1]);
      assert l[..|l| - 1][1..] == l[1..][..|l| - 2];
    }
  }

  /** Stepping a 32-bit counter by one commutes with the wrap-around. */
  lemma CounterStep(a: int, f: int, d: int, b: int)
    requires d == 1 || d == -1
    requires f == a % UINT32_MODULUS && b == a + d
    ensures (f + d) % UINT32_MODULUS == b % UINT32_MODULUS
  {
    var q := a / UINT32_MODULUS;
    assert a == q * UINT32_MODULUS + a % UINT32_MODULUS;
    ModShift(a % UINT32_MODULUS + d, q);
  }

  /** Adding a multiple of the modulus does not change the remainder. */
  lemma ModShift(b: int, q: int)
    ensures (b + q * UINT32_MODULUS) % UINT32_MODULUS == b % UINT32_MODULUS
  {
    var r := b % UINT32_MODULUS;
    var p := b / UINT32_MODULUS;
    assert b + q * UINT32_MODULUS == (p + q) * UINT32_MODULUS + r;
  }

  /** Queueing an END_FRAME raises the wrapped count of frames in flight by one. */
  lemma EndFrameCounted(l: seq<Cmd>, popped: nat, deleted: nat, f: int)
    requires f == (EndFrames(l) + popped - deleted) % UINT32_MODULUS
    ensures (f + 1) % UINT32_MODULUS == (EndFrames(l + [Cmd(END_FRAME, 0)]) + popped - deleted) % UINT32_MODULUS
  {
    EndFramesAppend(l, Cmd(END_FRAME, 0));
    CounterStep(EndFrames(l) + popped - deleted, f, 1, EndFrames(l + [Cmd(END_FRAME, 0)]) + popped - deleted);
  }

  class RenderCmdSystem {
    var cmdList: seq<Cmd>
    var frames: nat
    /** END_FRAME commands popped so far, and deleted so far. */
    ghost var popped: nat
    ghost var deleted: nat

    /**
     * mFrames is the count of END_FRAME commands added and not yet deleted (queued, or popped
     * and still being rendered), as a 32-bit unsigned counter.
     */
    ghost predicate Valid()
      reads this
    {
      frames == (EndFrames(cmdList) + popped - deleted) % UINT32_MODULUS
    }

    constructor ()
      ensures Valid() && cmdList == [] && frames == 0
    {
      cmdList, frames := [], 0;
      popped, deleted := 0, 0;
    }

    /** addCmd, through the add*Cmd wrappers for every command except END_FRAME. */
    method AddCmd(c: Cmd)
      requires Valid() && c.kind != END_FRAME
      modifies `cmdList
      ensures Valid() && cmdList == old(cmdList) + [c]
    {
      EndFramesAppend(cmdList, c);
      cmdList := cmdList + [c];
    }

    /** addEndFrameCmd: queue END_FRAME and count one more frame in flight. */
    method AddEndFrameCmd()
      requires Valid()
      modifies `cmdList, `frames
      ensures Valid() && cmdList == old(cmdList) + [Cmd(END_FRAME, 0)]
      ensures frames == (old(frames) + 1) % UINT32_MODULUS
    {
      EndFrameCounted(cmdList, popped, deleted, frames);
      cmdList := cmdList + [Cmd(END_FRAME, 0)];
      frames := (frames + 1) % UINT32_MODULUS;
    }

    /** nextCmd: whether a command is waiting. */
    function NextCmd(): (r: bool)
      reads this
      ensures r <==> |cmdList| > 0
    {
      cmdList != []
    }

    /** popNextCmd: the oldest command, or EMPTY when there is none. */
    method PopNextCmd() returns (c: Cmd)
      requires Valid()
      modifies `cmdList, `popped
      ensures Valid()
      ensures old(cmdList) == [] ==> c == EmptyCmd && cmdList == []
      ensures old(cmdList) != [] ==> c == old(cmdList)[0] && cmdList == old(cmdList)[1..]
    {
      if cmdList != [] {
        c := cmdList[0];
        EndFramesFront(cmdList);
        cmdList := cmdList[1..];
        if c.kind == END_FRAME {
          popped := popped + 1;
        }
      } else {
        c := EmptyCmd;
      }
    }

    /** deleteCmd: frees the payload; deleting END_FRAME counts a frame as finished. */
    method DeleteCmd(c: Cmd)
      requires Valid()
      modifies `frames, `deleted
      ensures Valid()
      ensures frames == if c.kind == END_FRAME then (old(frames) - 1) % UINT32_MODULUS else old(frames)
    {
      if c.kind == END_FRAME {
        CounterStep(EndFrames(cmdList) + popped - deleted, frames, -1, EndFrames(cmdList) + popped - (deleted + 1));
        frames := (frames - 1) % UINT32_MODULUS;
        deleted := deleted + 1;
      }
    }
  }
}
