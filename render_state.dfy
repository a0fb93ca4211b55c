/**
 * The render state stack of the rasterization pipeline (rvk parts/pipeline_rasterize.cpp):
 * one global render state that new pipelines copy, and a stack where callers save it before
 * changing it and restore it afterwards. The state itself (polygon mode, blending, viewport
 * and the rest of render_state_s) is a type parameter: only whole copies of it move.
 */
module RenderStateStack {
  /** A change to the global render state: save it, restore it, or overwrite it. */
  datatype Op<S> = Push | Pop | Set(state: S)

  datatype States<S> = States(global: S, stack: seq<S>)

  /** pushRenderState and popRenderState on values; Set stands for any assignment to the global state. */
  function Step<S>(op: Op<S>, s: States<S>): (r: States<S>)
    ensures op == Push ==> r.stack == s.stack + [s.global] && r.global == s.global
    ensures op == Pop && s.stack == [] ==> r == s
    ensures op == Pop && s.stack != [] ==> r.global == s.stack[|s.stack| - 1] && r.stack == s.stack[..|s.stack| - 1]
    ensures op.Set? ==> r == States(op.state, s.stack)
  {
    match op
    case Push => States(s.global, s.stack + [s.global])
    case Pop => if s.stack == [] then s else States(s.stack[|s.stack| - 1], s.stack[..|s.stack| - 1])
    case Set(g) => States(g, s.stack)
  }

  /** The states after a sequence of operations, applied first to last. */
  function Run<S>(ops: seq<Op<S>>, s: States<S>): States<S>
  {
    if ops == [] then s else Step(ops[|ops| - 1], Run(ops[..|ops| - 1], s))
  }

  /** Pushes minus pops. */
  function Depth<S>(ops: seq<Op<S>>): int
  {
    if ops == [] then 0
    else Depth(ops[..|ops| - 1]) + (match ops[|ops| - 1] case Push => 1 case Pop => -1 case Set(_) => 0)
  }

  /** No prefix of the sequence pops more than it pushed: every pop has a matching push. */
  predicate NeverBelow<S>(ops: seq<Op<S>>)
  {
    forall k :: 0 <= k <= |ops| ==> Depth(ops[..k]) >= 0
  }

  /**
   * Without an unmatched pop, the stack only grows above what it held before: the old stack
   * stays below the saved states, and there are Depth of those.
   */
  lemma {:induction false} RunKeepsStack<S>(ops: seq<Op<S>>, s: States<S>)
    requires NeverBelow(ops)
    ensures |Run(ops, s).stack| == |s.stack| + Depth(ops)
    ensures s.stack <= Run(ops, s).stack
  {
    if ops != [] {
      var init := ops[..|ops| - 1];
      assert NeverBelow(init) by {
        forall k | 0 <= k <= |init|
          ensures Depth(init[..k]) >= 0
        {
          assert init[..k] == ops[..k];
        }
      }
      RunKeepsStack(init, s);
      assert ops[..|ops|] == ops;
      var before := Run(init, s);
      if ops[|ops| - 1] == Pop {
        assert |before.stack| > |s.stack|;
        assert before.stack[..|before.stack| - 1][..|s.stack|] == before.stack[..|s.stack|];
      } else if ops[|ops| - 1] == Push {
        assert (before.stack + [before.global])[..|s.stack|] == before.stack[..|s.stack|];
      }
    }
  }

  /**
   * A push, then any operations with every pop matched and as many pops as pushes, then a pop
   * restore both the global render state and the stack exactly.
   */
  lemma PushBalancedPopRestores<S>(ops: seq<Op<S>>, s: States<S>)
    requires NeverBelow(ops) && Depth(ops) == 0
    ensures Run([Push] + ops + [Pop], s) == s
  {
    var all := [Push] + ops + [Pop];
    var pushed := Step(Push, s);
    assert Run([Push], s) == pushed;
    RunAfter([Push], ops, s);
    RunKeepsStack(ops, pushed);
    var mid := Run(ops, pushed);
    assert mid.stack == pushed.stack;
    assert all[..|all| - 1] == [Push] + ops;
  }

  /** Running a concatenation runs the second part from where the first left off. */
  lemma {:induction false} RunAfter<S>(first: seq<Op<S>>, second: seq<Op<S>>, s: States<S>)
    ensures Run(first + second, s) == Run(second, Run(first, s))
  {
    if second != [] {
      var all := first + second;
      assert all[..|all| - 1] == first + second[..|second| - 1];
      RunAfter(first, second[..|second| - 1], s);
    } else {
      assert first + second == first;
    }
  }

  /** RPipeline's static render state: the global state and the deque of saved states. */
  class RenderStates<S> {
    var global: S
    var stack: seq<S>

    constructor (initial: S)
      ensures global == initial && stack == []
    {
      global := initial;
      stack := [];
    }

    function Snapshot(): States<S>
      reads this
    {
      States(global, stack)
    }

    /** pushRenderState: a copy of the global state goes on top of the stack; one more entry. */
    method PushRenderState()
      modifies this`stack
      ensures Snapshot() == Step(Push, old(Snapshot()))
      ensures |stack| == |old(stack)| + 1 && stack[|stack| - 1] == global
    {
      stack := stack + [global];
    }

    /**
     * popRenderState: on an empty stack nothing happens; otherwise the top entry becomes the
     * global state and is removed, one entry fewer.
     */
    method PopRenderState()
      modifies this
      ensures Snapshot() == Step(Pop, old(Snapshot()))
      ensures old(stack) == [] ==> global == old(global) && stack == []
      ensures old(stack) != [] ==> |stack| == |old(stack)| - 1 && global == old(stack)[|old(stack)| - 1]
    {
      if stack != [] {
        global := stack[|stack| - 1];
        stack := stack[..|stack| - 1];
      }
    }
  }
}
