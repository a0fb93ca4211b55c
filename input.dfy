/**
 * The engine's input handling (input.cpp, input.hpp): the EventSystem keeps a ring buffer of
 * MAX_QUED_EVENTS events between a head and a tail counter, drops the oldest event when it is
 * full, and once per frame drains it into the InputSystem, which tracks for every key whether
 * it is down and whether it was pressed or released during the frame, and the mouse state.
 */
module Input {
  import opened PublicUtil
  import opened Numeric

  const MAX_QUED_EVENTS := 256

  /** Input::NONE and Input::LAST_KEY: mKeys has one entry per key code below LAST_KEY. */
  const INPUT_NONE := 0
  const LAST_KEY := 96

  datatype EventType = NONE | KEY | MOUSE_DELTA | MOUSE_WHEEL_DELTA | MOUSE_ABSOLUTE | MOUSE_LEAVE | ACTION

  datatype Event = Event(kind: EventType, input: int, value: int, x: real, y: real, message: string)

  /** Event{}: what getEvent returns when the queue is empty. */
  const DefaultEvent := Event(NONE, INPUT_NONE, -1, -1.0, -1.0, "")

  predicate IsKeyDown(e: Event)
  {
    e.value != 0
  }

  /** A key event names one of the keys: processEvent indexes mKeys with it unchecked. */
  predicate WellFormed(e: Event)
  {
    e.kind == KEY ==> 0 <= e.input < LAST_KEY
  }

  datatype Key = Key(down: bool, released: bool, pressed: bool)

  const ResetKey := Key(false, false, false)

  /** The InputSystem's state as a value. */
  datatype InputState = InputState(keys: seq<Key>, mouseAbsolute: Vec2, mouseRelative: Vec2, wheelRelative: Vec2)

  /** A key event: pressed is raised on an up-to-down change, released on a down-to-up change. */
  function KeyStep(k: Key, isDown: bool): Key
  {
    if !k.down && isDown then Key(isDown, k.released, true)
    else if k.down && !isDown then Key(isDown, true, k.pressed)
    else Key(isDown, k.released, k.pressed)
  }

  /** pressed becomes set exactly on an up-to-down change, and released never at the same time. */
  lemma KeyStepPressed(k: Key, isDown: bool)
    ensures KeyStep(k, isDown).down == isDown
    ensures !k.pressed ==> (KeyStep(k, isDown).pressed <==> !k.down && isDown)
    ensures !k.released ==> (KeyStep(k, isDown).released <==> k.down && !isDown)
    ensures k.pressed ==> KeyStep(k, isDown).pressed
    ensures k.released ==> KeyStep(k, isDown).released
    ensures !k.pressed && !k.released ==> !(KeyStep(k, isDown).pressed && KeyStep(k, isDown).released)
  {
  }

  /** The callbacks registered per event type and input; a callback is known by an id. */
  type Callbacks = map<EventType, map<int, nat>>

  /** Whether a registered callback takes the event; `run` stands for calling it. */
  predicate Handled(cbs: Callbacks, run: (nat, Event) -> bool, e: Event)
  {
    e.kind in cbs && e.input in cbs[e.kind] && run(cbs[e.kind][e.input], e)
  }

  /** processEvent on the input state. ACTION events only call into the engine. */
  function Process(s: InputState, cbs: Callbacks, run: (nat, Event) -> bool, e: Event): (r: InputState)
    requires |s.keys| == LAST_KEY && WellFormed(e)
    ensures |r.keys| == LAST_KEY
    ensures Handled(cbs, run, e) ==> r == s
    ensures e.kind != KEY ==> r.keys == s.keys
  {
    if Handled(cbs, run, e) then s
    else
      match e.kind
      case KEY => s.(keys := s.keys[e.input := KeyStep(s.keys[e.input], IsKeyDown(e))])
      case MOUSE_ABSOLUTE => s.(mouseAbsolute := Vec2(e.x, e.y))
      case MOUSE_DELTA => s.(mouseRelative := Vec2(s.mouseRelative.x + e.x, s.mouseRelative.y + e.y))
      case MOUSE_WHEEL_DELTA => s.(wheelRelative := Vec2(s.wheelRelative.x + e.x, s.wheelRelative.y + e.y))
      case MOUSE_LEAVE => s.(mouseAbsolute := Vec2(-1.0, -1.0))
      case _ => s
  }

  predicate AllWellFormed(es: seq<Event>)
  {
    forall i :: 0 <= i < |es| ==> WellFormed(es[i])
  }

  /** Processing a sequence of events in order. */
  function Drain(s: InputState, cbs: Callbacks, run: (nat, Event) -> bool, es: seq<Event>): (r: InputState)
    requires |s.keys| == LAST_KEY && AllWellFormed(es)
    ensures |r.keys| == LAST_KEY
  {
    if es == [] then s
    else Process(Drain(s, cbs, run, es[..|es| - 1]), cbs, run, es[|es| - 1])
  }

  /** What eventLoop clears before draining: the relative deltas and every pressed/released flag. */
  function FrameStart(s: InputState): (r: InputState)
    ensures |r.keys| == |s.keys|
    ensures forall k :: 0 <= k < |s.keys| ==> r.keys[k] == Key(s.keys[k].down, false, false)
  {
    InputState(seq(|s.keys|, k requires 0 <= k < |s.keys| => Key(s.keys[k].down, false, false)),
               s.mouseAbsolute, Vec2(0.0, 0.0), Vec2(0.0, 0.0))
  }

  /** An event that reaches key k's state: an unhandled key event for k. */
  predicate TouchesKey(cbs: Callbacks, run: (nat, Event) -> bool, e: Event, k: int)
  {
    e.kind == KEY && e.input == k && !Handled(cbs, run, e)
  }

  /** A key that no drained event touches keeps its state. */
  lemma {:induction false} DrainUntouchedKey(s: InputState, cbs: Callbacks, run: (nat, Event) -> bool, es: seq<Event>, k: nat)
    requires |s.keys| == LAST_KEY && AllWellFormed(es) && k < LAST_KEY
    requires forall i :: 0 <= i < |es| ==> !TouchesKey(cbs, run, es[i], k)
    ensures Drain(s, cbs, run, es).keys[k] == s.keys[k]
  {
    if es != [] {
      DrainUntouchedKey(s, cbs, run, es[..|es| - 1], k);
    }
  }

  /**
   * After a frame a key reads as pressed only if some drained event touched it: a key with no
   * events is neither pressed nor released.
   */
  lemma FrameWithoutKeyEvents(s: InputState, cbs: Callbacks, run: (nat, Event) -> bool, es: seq<Event>, k: nat)
    requires |s.keys| == LAST_KEY && AllWellFormed(es) && k < LAST_KEY
    requires forall i :: 0 <= i < |es| ==> !TouchesKey(cbs, run, es[i], k)
    ensures var r := Drain(FrameStart(s), cbs, run, es).keys[k];
            !r.pressed && !r.released && r.down == s.keys[k].down
  {
    DrainUntouchedKey(FrameStart(s), cbs, run, es, k);
  }

  /** The number of leading events that are not NONE: eventLoop stops at the first NONE. */
  function LeadingEvents(es: seq<Event>): (n: nat)
    ensures n <= |es|
    ensures forall i :: 0 <= i < n ==> es[i].kind != NONE
    ensures n < |es| ==> es[n].kind == NONE
  {
    if es == [] || es[0].kind == NONE then 0 else 1 + LeadingEvents(es[1..])
  }

  /** The events eventLoop takes from the queue: the leading ones and the NONE that stops it. */
  function Taken(es: seq<Event>): (n: nat)
    ensures n <= |es|
  {
    if LeadingEvents(es) < |es| then LeadingEvents(es) + 1 else |es|
  }

  /** Queueing onto a queue of contents c: the oldest event is dropped when it is full. */
  function Pushed(c: seq<Event>, e: Event): (r: seq<Event>)
    requires |c| <= MAX_QUED_EVENTS
    ensures 0 < |r| <= MAX_QUED_EVENTS && r[|r| - 1] == e
  {
    if |c| == MAX_QUED_EVENTS then c[1..] + [e] else c + [e]
  }

  /** The queue holds the newest MAX_QUED_EVENTS events: queueing keeps that window. */
  function Newest(es: seq<Event>): (r: seq<Event>)
    ensures |r| <= MAX_QUED_EVENTS
  {
    if |es| <= MAX_QUED_EVENTS then es else es[|es| - MAX_QUED_EVENTS..]
  }

  lemma PushedKeepsNewest(history: seq<Event>, e: Event)
    ensures Pushed(Newest(history), e) == Newest(history + [e])
  {
    var h := history + [e];
    if |history| >= MAX_QUED_EVENTS {
      assert Newest(history)[1..] + [e] == h[|h| - MAX_QUED_EVENTS..];
    }
  }

  /** The events of a ring buffer q between tail and head, oldest first. */
  function Ring(q: seq<Event>, tail: int, head: int): (c: seq<Event>)
    requires |q| == MAX_QUED_EVENTS && 0 <= tail <= head
    ensures |c| == head - tail
  {
    seq(head - tail, i requires 0 <= i < head - tail => q[(tail + i) % MAX_QUED_EVENTS])
  }

  /** Writing at head and advancing it (and the tail, when full) pushes onto the ring. */
  lemma RingPush(q: seq<Event>, tail: int, head: int, e: Event)
    requires |q| == MAX_QUED_EVENTS && 0 <= tail <= head <= tail + MAX_QUED_EVENTS
    ensures var t := if head - tail >= MAX_QUED_EVENTS then tail + 1 else tail;
            Ring(q[head % MAX_QUED_EVENTS := e], t, head + 1) == Pushed(Ring(q, tail, head), e)
  {
    var t := if head - tail >= MAX_QUED_EVENTS then tail + 1 else tail;
    var slot := head % MAX_QUED_EVENTS;
    var r := Pushed(Ring(q, tail, head), e);
    var before, after := Ring(q, tail, head), Ring(q[slot := e], t, head + 1);
    forall i | 0 <= i < head + 1 - t
      ensures after[i] == r[i]
    {
      if i < head - t {
        SlotsApart(t + i, head);
        assert after[i] == q[(t + i) % MAX_QUED_EVENTS];
        assert r[i] == before[t - tail + i];
      }
    }
  }

  /** Positions fewer than MAX_QUED_EVENTS apart occupy different slots of the ring. */
  lemma SlotsApart(a: int, b: int)
    requires 0 <= a < b < a + MAX_QUED_EVENTS
    ensures a % MAX_QUED_EVENTS != b % MAX_QUED_EVENTS
  {
    assert a == (a / MAX_QUED_EVENTS) * MAX_QUED_EVENTS + a % MAX_QUED_EVENTS;
    assert b == (b / MAX_QUED_EVENTS) * MAX_QUED_EVENTS + b % MAX_QUED_EVENTS;
  }

  class InputSystem {
    const keys: array<Key>
    var mouseAbsolute: Vec2
    var mouseRelative: Vec2
    var wheelRelative: Vec2

    predicate Valid()
      reads this
    {
      keys.Length == LAST_KEY
    }

    function State(): (s: InputState)
      reads this, keys
      requires Valid()
      ensures |s.keys| == LAST_KEY
    {
      InputState(keys[..], mouseAbsolute, mouseRelative, wheelRelative)
    }

    constructor ()
      ensures Valid() && fresh(keys)
      ensures State() == InputState(seq(LAST_KEY, _ => ResetKey), Vec2(0.0, 0.0), Vec2(0.0, 0.0), Vec2(0.0, 0.0))
    {
      keys := new Key[LAST_KEY](_ => ResetKey);
      mouseAbsolute, mouseRelative, wheelRelative := Vec2(0.0, 0.0), Vec2(0.0, 0.0), Vec2(0.0, 0.0);
    }

    /** wasPressed with the range check the key array needs (see KeyGuard). */
    function WasPressed(i: int): (b: bool)
      reads this, keys
      requires Valid()
      ensures b ==> 0 <= i < LAST_KEY
    {
      KeyGuard(i) && keys[i].pressed
    }

    function IsDown(i: int): (b: bool)
      reads this, keys
      requires Valid()
      ensures b ==> 0 <= i < LAST_KEY
    {
      KeyGuard(i) && keys[i].down
    }

    function WasReleased(i: int): (b: bool)
      reads this, keys
      requires Valid()
      ensures b ==> 0 <= i < LAST_KEY
    {
      KeyGuard(i) && keys[i].released
    }
  }

  /**
   * The range check of wasPressed/isDown/wasReleased as written: inBounds(NONE, LAST_KEY, input)
   * includes LAST_KEY itself.
   */
  predicate KeyGuardAsWritten(i: int)
  {
    InBounds(INPUT_NONE, LAST_KEY, i)
  }

  /** The guard as written admits LAST_KEY, one past the last entry of mKeys. */
  lemma KeyGuardAsWrittenAdmitsLastKey()
    ensures KeyGuardAsWritten(LAST_KEY) && !(0 <= LAST_KEY < LAST_KEY)
  {
  }

  /** The intended guard: inBounds(NONE, LAST_KEY - 1, input). */
  predicate KeyGuard(i: int)
  {
    InBounds(INPUT_NONE, LAST_KEY - 1, i)
  }

  /** The corrected guard admits exactly the indices of mKeys. */
  lemma KeyGuardExact(i: int)
    ensures KeyGuard(i) <==> 0 <= i < LAST_KEY
    ensures KeyGuard(i) <==> KeyGuardAsWritten(i) && i != LAST_KEY
  {
  }

  class EventSystem {
    const input: InputSystem
    const queue: array<Event>
    var head: int
    var tail: int
    var callbacks: Callbacks

    predicate Valid()
      reads this, input, queue
    {
      input.Valid() && queue.Length == MAX_QUED_EVENTS
      && 0 <= tail <= head <= tail + MAX_QUED_EVENTS
      && forall i :: 0 <= i < MAX_QUED_EVENTS ==> WellFormed(queue[i])
    }

    /** The queued events, oldest first. */
    function Contents(): (c: seq<Event>)
      reads this, input, queue
      requires Valid()
      ensures |c| == head - tail && AllWellFormed(c)
    {
      Ring(queue[..], tail, head)
    }

    constructor (input: InputSystem)
      requires input.Valid()
      ensures Valid() && this.input == input && fresh(queue)
      ensures Contents() == [] && callbacks == map[]
    {
      this.input := input;
      queue := new Event[MAX_QUED_EVENTS](_ => DefaultEvent);
      head, tail := 0, 0;
      callbacks := map[];
    }

    /** queueEvent: write at head, dropping the oldest event when the queue is full. */
    method QueueEvent(e: Event)
      requires Valid() && WellFormed(e)
      modifies this`head, this`tail, queue
      ensures Valid() && Contents() == Pushed(old(Contents()), e)
    {
      var slot := head % MAX_QUED_EVENTS;
      RingPush(queue[..], tail, head, e);
      if head - tail >= MAX_QUED_EVENTS {
        tail := tail + 1;
      }
      head := head + 1;
      queue[slot] := e;
    }

    /** getEvent: the oldest event, or Event{} when the queue is empty. */
    method GetEvent() returns (e: Event)
      requires Valid()
      modifies this`tail
      ensures Valid()
      ensures old(Contents()) == [] ==> e == DefaultEvent && tail == old(tail)
      ensures old(Contents()) != [] ==> e == old(Contents())[0] && Contents() == old(Contents())[1..]
    {
      if head > tail {
        ghost var c := Contents();
        tail := tail + 1;
        e := queue[(tail - 1) % MAX_QUED_EVENTS];
        assert Contents() == c[1..] by {
          forall i | 0 <= i < head - tail
            ensures Contents()[i] == c[1..][i]
          {
            assert c[i + 1] == queue[(tail + i) % MAX_QUED_EVENTS];
          }
        }
      } else {
        e := DefaultEvent;
      }
    }

    /** clearEventQueue */
    method ClearEventQueue()
      requires Valid()
      modifies this`head, this`tail
      ensures Valid() && Contents() == []
    {
      head, tail := 0, 0;
    }

    /** setCallback: std::map::insert keeps a callback already registered for the pair. */
    method SetCallback(kind: EventType, i: int, callback: nat)
      modifies this`callbacks
      ensures kind in callbacks && i in callbacks[kind]
      ensures kind in old(callbacks) && i in old(callbacks)[kind] ==> callbacks == old(callbacks)
      ensures !(kind in old(callbacks) && i in old(callbacks)[kind]) ==> callbacks[kind][i] == callback
      ensures forall t :: t != kind ==> (t in callbacks <==> t in old(callbacks)) && (t in callbacks ==> callbacks[t] == old(callbacks)[t])
    {
      var inner := if kind in callbacks then callbacks[kind] else map[];
      if i !in inner {
        callbacks := callbacks[kind := inner[i := callback]];
      }
    }

    /** processEvent: a callback that takes the event stops it; otherwise it updates the input state. */
    method ProcessEvent(e: Event, run: (nat, Event) -> bool)
      requires Valid() && WellFormed(e)
      modifies input, input.keys
      ensures Valid() && input.State() == Process(old(input.State()), callbacks, run, e)
    {
      if Handled(callbacks, run, e) {
        return;
      }
      match e.kind
      case KEY =>
        var k := input.keys[e.input];
        input.keys[e.input] := KeyStep(k, IsKeyDown(e));
      case MOUSE_ABSOLUTE =>
        input.mouseAbsolute := Vec2(e.x, e.y);
      case MOUSE_DELTA =>
        input.mouseRelative := Vec2(input.mouseRelative.x + e.x, input.mouseRelative.y + e.y);
      case MOUSE_WHEEL_DELTA =>
        input.wheelRelative := Vec2(input.wheelRelative.x + e.x, input.wheelRelative.y + e.y);
      case MOUSE_LEAVE =>
        input.mouseAbsolute := Vec2(-1.0, -1.0);
      case _ =>
    }

    /** reset: every key and both relative deltas back to zero. */
    method Reset()
      requires Valid()
      modifies input, input.keys
      ensures Valid()
      ensures input.State() == InputState(seq(LAST_KEY, _ => ResetKey), old(input.mouseAbsolute), Vec2(0.0, 0.0), Vec2(0.0, 0.0))
    {
      input.mouseRelative, input.wheelRelative := Vec2(0.0, 0.0), Vec2(0.0, 0.0);
      var k := 0;
      while k < LAST_KEY
        invariant 0 <= k <= LAST_KEY
        invariant forall j :: 0 <= j < k ==> input.keys[j] == ResetKey
        modifies input.keys
      {
        input.keys[k] := ResetKey;
        k := k + 1;
      }
      assert input.keys[..] == seq(LAST_KEY, _ => ResetKey);
    }

    /** The start of eventLoop: clear the deltas and the pressed/released flags. */
    method StartFrame()
      requires Valid()
      modifies input, input.keys
      ensures Valid() && input.State() == FrameStart(old(input.State()))
    {
      input.mouseRelative, input.wheelRelative := Vec2(0.0, 0.0), Vec2(0.0, 0.0);
      var k := 0;
      while k < LAST_KEY
        invariant 0 <= k <= LAST_KEY
        invariant forall j :: 0 <= j < k ==> input.keys[j] == Key(old(input.keys[j]).down, false, false)
        modifies input.keys
        invariant forall j :: k <= j < LAST_KEY ==> input.keys[j] == old(input.keys[j])
      {
        input.keys[k] := Key(input.keys[k].down, false, false);
        k := k + 1;
      }
      assert input.keys[..] == FrameStart(old(input.State())).keys;
    }

    /**
     * eventLoop: after StartFrame, pop and process events until getEvent yields a NONE event;
     * an empty queue yields one, and so does a queued NONE event, which ends the frame early.
     */
    method EventLoop(run: (nat, Event) -> bool)
      requires Valid()
      modifies this`tail, input, input.keys
      ensures Valid()
      ensures var c := old(Contents());
              Contents() == c[Taken(c)..]
              && input.State() == Drain(FrameStart(old(input.State())), callbacks, run, c[..LeadingEvents(c)])
    {
      ghost var c := Contents();
      StartFrame();
      ghost var s0 := input.State();
      ghost var p := 0;
      while true
        invariant Valid() && p <= LeadingEvents(c)
        invariant Contents() == c[p..]
        invariant input.State() == Drain(s0, callbacks, run, c[..p])
        decreases head - tail
      {
        var done := DrainStep(run, c, s0, p);
        if done {
          break;
        }
        p := p + 1;
      }
    }

    /**
     * One pass of eventLoop's loop after p of the frame's events c: the next event is taken;
     * a NONE (or an empty queue) ends the loop with the taken events gone, anything else is
     * processed.
     */
    method DrainStep(run: (nat, Event) -> bool, ghost c: seq<Event>, ghost s0: InputState, ghost p: nat)
      returns (done: bool)
      requires Valid() && AllWellFormed(c) && |s0.keys| == LAST_KEY
      requires p <= LeadingEvents(c) && Contents() == c[p..]
      requires input.State() == Drain(s0, callbacks, run, c[..p])
      modifies this`tail, input, input.keys
      ensures Valid() && head == old(head)
      ensures done ==> p == LeadingEvents(c) && Contents() == c[Taken(c)..]
      ensures done ==> input.State() == old(input.State())
      ensures !done ==> p < LeadingEvents(c) && Contents() == c[p + 1..] && tail == old(tail) + 1
      ensures !done ==> input.State() == Drain(s0, callbacks, run, c[..p + 1])
    {
      var e := GetEvent();
      if e.kind == NONE {
        return true;
      }
      ProcessEvent(e, run);
      assert c[..p + 1][..p] == c[..p];
      return false;
    }
  }
}
