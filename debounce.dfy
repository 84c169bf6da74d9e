/** The button interrupt handler `readButtons`, as a step on the state it
    keeps: the pending-press flag, the identified button and the time of the
    last interrupt. */
module Debounce {
  import opened Bytes

  /** Interrupts closer together than this many milliseconds are bounces. */
  const DEBOUNCE_MS: nat := 200

  /** `buttonPressed`, `currentButton` and the static `lastInterruptTime`. */
  datatype Debounced = Debounced(pressed: bool, button: byte, last: u32)

  /** One interrupt at time `now`, with the three button pins as read. */
  datatype RawEdge = RawEdge(time: u32, menuPin: Level, plusPin: Level, minusPin: Level)

  /** One interrupt: when more than 200 ms (in unsigned 32-bit arithmetic)
      have passed since the previous interrupt, a press is flagged and each
      pin reading LOW overwrites the button, Menu then Plus then Minus; the
      interrupt time is recorded whether or not the press was accepted. */
  function Step(d: Debounced, e: RawEdge): (r: Debounced)
    ensures r.last == e.time
    ensures r.pressed == (d.pressed || Elapsed(d.last, e.time) > DEBOUNCE_MS)
    ensures Elapsed(d.last, e.time) > DEBOUNCE_MS ==>
      r.button == if e.minusPin == Low then 2 else if e.plusPin == Low then 1 else if e.menuPin == Low then 0 else d.button
    ensures Elapsed(d.last, e.time) <= DEBOUNCE_MS ==> r.button == d.button
  {
    if Elapsed(d.last, e.time) > DEBOUNCE_MS then
      var b0 := if e.menuPin == Low then 0 else d.button;
      var b1 := if e.plusPin == Low then 1 else b0;
      var b2 := if e.minusPin == Low then 2 else b1;
      Debounced(true, b2, e.time)
    else
      d.(last := e.time)
  }

  /** The state after a train of interrupts. */
  function Steps(d: Debounced, edges: seq<RawEdge>): Debounced
    decreases |edges|
  {
    if edges == [] then d else Steps(Step(d, edges[0]), edges[1..])
  }

  /** Every interrupt of the train comes at most 200 ms after the one
      before it (the first one measured from `last`). */
  predicate Bouncing(last: u32, edges: seq<RawEdge>)
    decreases |edges|
  {
    edges == [] || (Elapsed(last, edges[0].time) <= DEBOUNCE_MS && Bouncing(edges[0].time, edges[1..]))
  }

  /** A train of bounces registers nothing, however long it lasts in total:
      because the timer restarts on every interrupt, rejected ones included,
      the pending flag and the button are exactly as before and only the
      recorded time moves to the last interrupt. */
  lemma {:induction false} BouncesRegisterNothing(d: Debounced, edges: seq<RawEdge>)
    requires Bouncing(d.last, edges)
    ensures Steps(d, edges) == d.(last := if edges == [] then d.last else edges[|edges| - 1].time)
    decreases |edges|
  {
    if edges != [] {
      BouncesRegisterNothing(Step(d, edges[0]), edges[1..]);
    }
  }

  /** Two interrupts for the same button 50 ms apart give one press: once
      the first is taken by `handleInput`, the second flags nothing. Two
      interrupts 250 ms apart give two presses. */
  lemma DoubleTap(d: Debounced, t: u32, pins: RawEdge)
    requires Elapsed(d.last, t) > DEBOUNCE_MS && t + 250 < U32_RANGE
    ensures var first := Step(d, pins.(time := t));
      && first.pressed
      && !Step(first.(pressed := false), pins.(time := t + 50)).pressed
      && Step(first.(pressed := false), pins.(time := t + 250)).pressed
  {
  }

  /** The 32-bit counter wraps after about 49.7 days; an interrupt 250 ms
      after one taken just before the wrap is still accepted. */
  lemma AcceptedAcrossWrap(d: Debounced, e: RawEdge)
    requires d.last == U32_RANGE - 100 && e.time == 150
    ensures Step(d, e).pressed
  {
  }
}
