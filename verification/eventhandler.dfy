/** The event-capability bitmask of a layer: one bit per kind of pointer
    event, set when at least one drawing of the layer handles that kind. */
module EventHandler {

  /** The kinds of pointer event a drawing may handle. */
  datatype Event = MouseUp | MouseDown | MouseMove | MouseEnter | MouseLeave | Wheel | Click

  const EvtNone: bv16 := 0
  const EvtAll: bv16 := 0xFFFF

  /** The `evt_*` flag of an event kind. */
  function Bit(e: Event): bv16 {
    match e
    case MouseUp => 0x01
    case MouseDown => 0x02
    case MouseMove => 0x04
    case MouseEnter => 0x08
    case MouseLeave => 0x10
    case Wheel => 0x20
    case Click => 0x40
  }

  /** Every flag is a single bit inside `evt_All`, and distinct kinds have
      disjoint flags. */
  lemma FlagsAreDistinctBits(e: Event, f: Event)
    ensures Bit(e) != 0 && Bit(e) & (Bit(e) - 1) == 0
    ensures Bit(e) & EvtAll == Bit(e)
    ensures e != f ==> Bit(e) & Bit(f) == 0
  {
  }

  /** The OR of the flags of the given handlers. */
  function OrBits(handlers: set<Event>): bv16 {
    (if MouseUp in handlers then Bit(MouseUp) else 0)
    | (if MouseDown in handlers then Bit(MouseDown) else 0)
    | (if MouseMove in handlers then Bit(MouseMove) else 0)
    | (if MouseEnter in handlers then Bit(MouseEnter) else 0)
    | (if MouseLeave in handlers then Bit(MouseLeave) else 0)
    | (if Wheel in handlers then Bit(Wheel) else 0)
    | (if Click in handlers then Bit(Click) else 0)
  }

  lemma {:induction false} OrBitsAt(handlers: set<Event>, e: Event)
    ensures Has(OrBits(handlers), e) <==> e in handlers
  {
    match e
    case MouseUp =>
    case MouseDown =>
    case MouseMove =>
    case MouseEnter =>
    case MouseLeave =>
    case Wheel =>
    case Click =>
  }

  /** The flags of the handlers one drawing defines. */
  function BitsOf(handlers: set<Event>): (b: bv16)
    ensures forall e :: Has(b, e) <==> e in handlers
  {
    assert forall e :: Has(OrBits(handlers), e) <==> e in handlers by {
      forall e
        ensures Has(OrBits(handlers), e) <==> e in handlers
      {
        OrBitsAt(handlers, e);
      }
    }
    OrBits(handlers)
  }

  /** Some bit of `m` is set in the mask. */
  predicate HasMask(mask: bv16, m: bv16) {
    mask & m != 0
  }

  /** The flag of `ev` is set in the mask. */
  predicate Has(mask: bv16, ev: Event) {
    HasMask(mask, Bit(ev))
  }

  /** A masked bit of `a | b` is set iff it is set in `a` or in `b`. */
  lemma OrMask(a: bv16, b: bv16, m: bv16)
    ensures HasMask(a | b, m) <==> HasMask(a, m) || HasMask(b, m)
  {
    assert (a | b) & m == (a & m) | (b & m);
  }

  lemma OrHas(a: bv16, b: bv16, ev: Event)
    ensures Has(a | b, ev) <==> Has(a, ev) || Has(b, ev)
  {
    OrMask(a, b, Bit(ev));
  }

  /** Some drawing of the stack handles `ev`. */
  ghost predicate Handles(stack: seq<set<Event>>, ev: Event) {
    exists i :: 0 <= i < |stack| && ev in stack[i]
  }

  lemma HandlesSnoc(stack: seq<set<Event>>, ev: Event)
    requires |stack| > 0
    ensures Handles(stack, ev) <==> Handles(stack[..|stack| - 1], ev) || ev in stack[|stack| - 1]
  {
    var front := stack[..|stack| - 1];
    if Handles(front, ev) {
      var i :| 0 <= i < |front| && ev in front[i];
      assert stack[i] == front[i];
    }
    if Handles(stack, ev) {
      var i :| 0 <= i < |stack| && ev in stack[i];
      if i < |front| {
        assert front[i] == stack[i];
      }
    }
  }

  /** HandledEvents: the OR of the handler flags over the drawing stack,
      taken in stack order. */
  function HandledEvents(stack: seq<set<Event>>): (e: bv16)
    ensures forall ev :: Has(e, ev) <==> Handles(stack, ev)
  {
    if |stack| == 0 then EvtNone
    else
      var e0 := HandledEvents(stack[..|stack| - 1]);
      var b := BitsOf(stack[|stack| - 1]);
      var r := e0 | b;
      forall ev
        ensures Has(r, ev) <==> Handles(stack, ev)
      {
        OrHas(e0, b, ev);
        HandlesSnoc(stack, ev);
      }
      r
  }

  /** An empty stack handles nothing. */
  lemma EmptyStackHandlesNothing()
    ensures HandledEvents([]) == EvtNone
  {
  }

  lemma OrKeeps(a: bv16, b: bv16)
    ensures (a | b) & a == a
  {
  }

  /** Pushing a drawing ORs its flags into the mask. */
  lemma PushOrsFlags(stack: seq<set<Event>>, handlers: set<Event>)
    ensures HandledEvents(stack + [handlers]) == HandledEvents(stack) | BitsOf(handlers)
  {
    assert (stack + [handlers])[..|stack|] == stack;
  }

  /** Adding a drawing never clears a flag: the fold is a monotone OR. */
  lemma AddingNeverClears(stack: seq<set<Event>>, handlers: set<Event>)
    ensures HandledEvents(stack + [handlers]) & HandledEvents(stack) == HandledEvents(stack)
  {
    PushOrsFlags(stack, handlers);
    OrKeeps(HandledEvents(stack), BitsOf(handlers));
  }
}
