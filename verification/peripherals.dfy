/**
 The observable outputs of the firmware's core, in the order they happen:
 a full redraw of the OLED display with one line of text, a 25-word frame
 pushed to the WS2812 matrix, or a level driven on an indicator LED pin.
 */
module Peripherals {

  datatype Effect =
    | Show(text: string)
    | Strip(words: seq<bv32>)
    | Drive(pin: nat, level: bool)

  /** Whether `e` drives `pin`. */
  predicate Drives(e: Effect, pin: nat)
  {
    e.Drive? && e.pin == pin
  }

  /** The level a pin has after `out`, starting from level `init`. */
  function PinLevel(out: seq<Effect>, pin: nat, init: bool): bool
  {
    if out == [] then init
    else PinLevel(out[1..], pin, if Drives(out[0], pin) then out[0].level else init)
  }

  /** The level after two output runs is that of the second run started from the first. */
  lemma {:induction false} PinLevelAppend(xs: seq<Effect>, ys: seq<Effect>, pin: nat, init: bool)
    ensures PinLevel(xs + ys, pin, init) == PinLevel(ys, pin, PinLevel(xs, pin, init))
    decreases |xs|
  {
    if xs == [] {
      assert xs + ys == ys;
    } else {
      assert (xs + ys)[1..] == xs[1..] + ys;
      var next := if Drives(xs[0], pin) then xs[0].level else init;
      PinLevelAppend(xs[1..], ys, pin, next);
    }
  }

  /** Outputs that never drive `pin` leave its level alone. */
  lemma {:induction false} PinLevelUntouched(out: seq<Effect>, pin: nat, init: bool)
    requires forall i :: 0 <= i < |out| ==> !Drives(out[i], pin)
    ensures PinLevel(out, pin, init) == init
    decreases |out|
  {
    if out != [] {
      PinLevelUntouched(out[1..], pin, init);
    }
  }
}
