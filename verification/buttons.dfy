/**
 The debounced button interrupt (`gpio_callback`).

 Each button channel keeps an indicator LED state, the timestamp of its last
 accepted edge and a pending flag for the main loop. An edge on a channel is
 accepted when strictly more than DEBOUNCE_DELAY_US microseconds have passed
 since the last accepted one; it then flips the LED, drives the LED pin,
 records the time and raises the flag. Otherwise nothing changes. The
 interrupt is modelled as one atomic step.
 */
module Buttons {
  import opened Peripherals

  const DebounceDelayUs: nat := 300000
  const BtnAPin: nat := 5
  const BtnBPin: nat := 6
  const LedGreenPin: nat := 11
  const LedBluePin: nat := 12

  const Two64: int := 0x1_0000_0000_0000_0000

  /** A value of the firmware's uint64_t microsecond clock. */
  type U64 = x: int | 0 <= x < Two64

  /** `now - last` in uint64_t arithmetic (wraps modulo 2^64). */
  function Elapsed(now: U64, last: U64): (d: U64)
    ensures last <= now ==> d == now - last
    ensures now < last ==> d == now - last + Two64
  {
    (now - last) % Two64
  }

  /** One button's share of the state touched by the interrupt. */
  datatype Channel = Channel(led: bool, last: U64, pending: bool)

  /** The indicator LED of each button: A's green one and B's blue one. */
  datatype Led = GreenLed | BlueLed

  /** The button pin whose edges toggle `l`. */
  function ButtonPin(l: Led): nat
  {
    if l == GreenLed then BtnAPin else BtnBPin
  }

  /** The output pin that lights `l`. */
  function LedPin(l: Led): nat
  {
    if l == GreenLed then LedGreenPin else LedBluePin
  }

  /** The two channels: A drives the green LED, B the blue one. */
  datatype Shared = Shared(a: Channel, b: Channel) {
    /** The channel whose button toggles `l`. */
    function Of(l: Led): Channel
    {
      if l == GreenLed then a else b
    }
  }

  /** Power-on values: LEDs off, timestamps 0, no pending event. */
  const Init: Shared := Shared(Channel(false, 0, false), Channel(false, 0, false))

  /** A state change together with the outputs it produced. */
  datatype Step = Step(state: Shared, out: seq<Effect>)

  /** Whether an edge at `now` gets past the debounce filter of `c`. */
  predicate Accepts(c: Channel, now: U64)
  {
    Elapsed(now, c.last) > DebounceDelayUs
  }

  /**
   The debounce decision for one channel: an accepted edge flips the LED,
   records `now` and raises the flag; a suppressed one changes nothing.
   */
  function OnEdge(c: Channel, now: U64): (c': Channel)
    ensures c' != c <==> Accepts(c, now)
    ensures c' != c ==> c'.led == !c.led && c'.last == now && c'.pending
    ensures c.last <= now ==> (c' == c <==> now - c.last <= DebounceDelayUs)
  {
    if Accepts(c, now) then Channel(!c.led, now, true) else c
  }

  /**
   gpio_callback: an edge on `gpio` at time `now`. Only pins 5 (A) and 6 (B)
   are handled; an accepted edge also drives the channel's LED pin to its
   new state.
   */
  function GpioCallback(s: Shared, gpio: nat, now: U64): (r: Step)
    ensures gpio != BtnAPin && gpio != BtnBPin ==> r == Step(s, [])
    ensures gpio == BtnAPin ==> r.state.b == s.b
    ensures gpio == BtnBPin ==> r.state.a == s.a
    ensures gpio == BtnAPin && Accepts(s.a, now) ==>
              r.state.a == Channel(!s.a.led, now, true) && r.out == [Drive(LedGreenPin, !s.a.led)]
    ensures gpio == BtnBPin && Accepts(s.b, now) ==>
              r.state.b == Channel(!s.b.led, now, true) && r.out == [Drive(LedBluePin, !s.b.led)]
    ensures gpio == BtnAPin && !Accepts(s.a, now) ==> r == Step(s, [])
    ensures gpio == BtnBPin && !Accepts(s.b, now) ==> r == Step(s, [])
  {
    if gpio == BtnAPin then
      var a := OnEdge(s.a, now);
      if a != s.a then Step(s.(a := a), [Drive(LedGreenPin, a.led)]) else Step(s, [])
    else if gpio == BtnBPin then
      var b := OnEdge(s.b, now);
      if b != s.b then Step(s.(b := b), [Drive(LedBluePin, b.led)]) else Step(s, [])
    else
      Step(s, [])
  }

  /** From power-on, no edge in the first 300000 microseconds is accepted. */
  lemma EarlyEdgeSuppressed(gpio: nat, now: U64)
    requires now <= DebounceDelayUs
    ensures GpioCallback(Init, gpio, now) == Step(Init, [])
  {
  }

  /**
   After an accepted edge on a channel, an edge within the debounce window
   is suppressed and one strictly after it is accepted again.
   */
  lemma DebounceWindow(c: Channel, t1: U64, t2: U64)
    requires Accepts(c, t1) && t1 <= t2
    ensures !Accepts(OnEdge(c, t1), t2) <==> t2 - t1 <= DebounceDelayUs
  {
  }
}
