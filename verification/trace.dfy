/**
 Executions of the firmware as traces of atomic events: a button edge
 handled by the interrupt, or one iteration of the main loop. The interrupt
 never runs in the middle of an iteration in this model.
 */
module Trace {
  import opened Peripherals
  import opened Ws2812
  import opened Buttons
  import opened MainLoop

  datatype Event = Edge(gpio: nat, now: U64) | Tick(poll: Poll)

  /** Whether `e` is an edge on pin `gpio`. */
  predicate FiresOn(e: Event, gpio: nat)
  {
    e.Edge? && e.gpio == gpio
  }

  function StepOf(s: Shared, numbers: seq<seq<bool>>, e: Event): Step
    requires ValidTable(numbers)
  {
    match e
    case Edge(gpio, now) => GpioCallback(s, gpio, now)
    case Tick(p) => MainLoop.Tick(s, numbers, p)
  }

  /** The final state and all outputs of running `events` from `s`. */
  function Run(s: Shared, numbers: seq<seq<bool>>, events: seq<Event>): Step
    requires ValidTable(numbers)
    decreases |events|
  {
    if events == [] then Step(s, [])
    else
      var first := StepOf(s, numbers, events[0]);
      var rest := Run(first.state, numbers, events[1..]);
      Step(rest.state, first.out + rest.out)
  }

  /** A one-event run is that event's step. */
  lemma RunOne(s: Shared, numbers: seq<seq<bool>>, e: Event)
    requires ValidTable(numbers)
    ensures Run(s, numbers, [e]) == StepOf(s, numbers, e)
  {
  }

  /** A two-event run is the second step after the first. */
  lemma RunTwo(s: Shared, numbers: seq<seq<bool>>, e1: Event, e2: Event)
    requires ValidTable(numbers)
    ensures var r1 := StepOf(s, numbers, e1);
            var r2 := StepOf(r1.state, numbers, e2);
            Run(s, numbers, [e1, e2]) == Step(r2.state, r1.out + r2.out)
  {
    assert [e1, e2][1..] == [e2];
    RunOne(StepOf(s, numbers, e1).state, numbers, e2);
  }

  /** Running two traces back to back is running their concatenation. */
  lemma {:induction false} RunAppend(s: Shared, numbers: seq<seq<bool>>, xs: seq<Event>, ys: seq<Event>)
    requires ValidTable(numbers)
    ensures var r1 := Run(s, numbers, xs);
            var r2 := Run(r1.state, numbers, ys);
            Run(s, numbers, xs + ys) == Step(r2.state, r1.out + r2.out)
    decreases |xs|
  {
    if xs == [] {
      assert xs + ys == ys;
    } else {
      assert (xs + ys)[0] == xs[0];
      assert (xs + ys)[1..] == xs[1..] + ys;
      var first := StepOf(s, numbers, xs[0]);
      RunAppend(first.state, numbers, xs[1..], ys);
      var r1 := Run(first.state, numbers, xs[1..]);
      var r2 := Run(r1.state, numbers, ys);
      assert first.out + (r1.out + r2.out) == (first.out + r1.out) + r2.out;
    }
  }

  /** Every edge in `events` is at or after `t`, in non-decreasing order. */
  ghost predicate EdgesFrom(events: seq<Event>, t: int)
    decreases |events|
  {
    events == [] ||
    match events[0]
    case Edge(_, now) => t <= now && EdgesFrom(events[1..], now)
    case Tick(_) => EdgesFrom(events[1..], t)
  }

  /** The time of the last edge in `events`, or `t` if there is none. */
  function LastEdgeTime(events: seq<Event>, t: int): int
    decreases |events|
  {
    if events == [] then t
    else LastEdgeTime(events[1..], if events[0].Edge? then events[0].now else t)
  }

  /**
   With a monotonic clock the debounce timestamps never move backwards, and
   never past the time of the last edge.
   */
  lemma {:induction false} TimestampsMonotone(s: Shared, numbers: seq<seq<bool>>, events: seq<Event>, t: U64)
    requires ValidTable(numbers)
    requires s.a.last <= t && s.b.last <= t
    requires EdgesFrom(events, t)
    ensures var r := Run(s, numbers, events).state;
            s.a.last <= r.a.last && s.b.last <= r.b.last &&
            r.a.last <= LastEdgeTime(events, t) && r.b.last <= LastEdgeTime(events, t)
    decreases |events|
  {
    if events != [] {
      var first := StepOf(s, numbers, events[0]);
      match events[0]
      case Edge(gpio, now) =>
        TimestampsMonotone(first.state, numbers, events[1..], now);
      case Tick(_) =>
        TimestampsMonotone(first.state, numbers, events[1..], t);
    }
  }

  /**
   Whatever happened before, an iteration of the main loop leaves both
   flags clear: every raised flag has been drained once.
   */
  lemma FlagsClearAfterTick(s: Shared, numbers: seq<seq<bool>>, events: seq<Event>, p: Poll)
    requires ValidTable(numbers)
    ensures var r := Run(s, numbers, events + [Tick(p)]).state;
            !r.a.pending && !r.b.pending
  {
    RunAppend(s, numbers, events, [Tick(p)]);
    RunOne(Run(s, numbers, events).state, numbers, Tick(p));
  }

  /** Each indicator pin always shows its channel's LED state. */
  lemma {:induction false} PinsMirrorLeds(s: Shared, numbers: seq<seq<bool>>, events: seq<Event>)
    requires ValidTable(numbers)
    ensures var r := Run(s, numbers, events);
            PinLevel(r.out, LedGreenPin, s.a.led) == r.state.a.led &&
            PinLevel(r.out, LedBluePin, s.b.led) == r.state.b.led
    decreases |events|
  {
    if events != [] {
      var first := StepOf(s, numbers, events[0]);
      var rest := Run(first.state, numbers, events[1..]);
      PinsMirrorLeds(first.state, numbers, events[1..]);
      PinLevelAppend(first.out, rest.out, LedGreenPin, s.a.led);
      PinLevelAppend(first.out, rest.out, LedBluePin, s.b.led);
      if events[0].Tick? {
        PinLevelUntouched(first.out, LedGreenPin, s.a.led);
        PinLevelUntouched(first.out, LedBluePin, s.b.led);
      }
    }
  }

  /** Number of status lines about `l` in `out`. */
  function Reports(out: seq<Effect>, l: Led): nat
  {
    if out == [] then 0
    else (if out[0] == Show(StatusLine(l, true)) || out[0] == Show(StatusLine(l, false)) then 1 else 0)
         + Reports(out[1..], l)
  }

  /** Number of times `out` drives the pin of `l`. */
  function Toggles(out: seq<Effect>, l: Led): nat
  {
    if out == [] then 0
    else (if Drives(out[0], LedPin(l)) then 1 else 0) + Toggles(out[1..], l)
  }

  /** Both counts distribute over concatenation. */
  lemma {:induction false} CountsAppend(xs: seq<Effect>, ys: seq<Effect>, l: Led)
    ensures Reports(xs + ys, l) == Reports(xs, l) + Reports(ys, l)
    ensures Toggles(xs + ys, l) == Toggles(xs, l) + Toggles(ys, l)
    decreases |xs|
  {
    if xs == [] {
      assert xs + ys == ys;
    } else {
      assert (xs + ys)[1..] == xs[1..] + ys;
      CountsAppend(xs[1..], ys, l);
    }
  }

  /**
   A button's events are never reported more often than they are accepted:
   its flag holds at most one unreported toggle, so toggles between two
   iterations merge into one status line.
   */
  lemma {:induction false} ReportsBounded(s: Shared, numbers: seq<seq<bool>>, events: seq<Event>, l: Led)
    requires ValidTable(numbers)
    ensures var r := Run(s, numbers, events);
            Reports(r.out, l) + (if r.state.Of(l).pending then 1 else 0)
              <= Toggles(r.out, l) + (if s.Of(l).pending then 1 else 0)
    decreases |events|
  {
    if events != [] {
      var first := StepOf(s, numbers, events[0]);
      var rest := Run(first.state, numbers, events[1..]);
      ReportsBounded(first.state, numbers, events[1..], l);
      CountsAppend(first.out, rest.out, l);
      match events[0]
      case Edge(gpio, now) =>
        assert Reports(first.out, l) == 0;
      case Tick(p) =>
        TickReports(s, numbers, p, l);
    }
  }

  /** An iteration shows one status line about `l` exactly when its flag was raised. */
  lemma TickReports(s: Shared, numbers: seq<seq<bool>>, p: Poll, l: Led)
    requires ValidTable(numbers)
    ensures Reports(MainLoop.Tick(s, numbers, p).out, l) == (if s.Of(l).pending then 1 else 0)
  {
    var out := MainLoop.Tick(s, numbers, p).out;
    var serial := SerialStep(numbers, p);
    var outA := Drain(s.a, StatusLine(GreenLed, s.a.led)).1;
    var outB := Drain(s.b, StatusLine(BlueLed, s.b.led)).1;
    assert out == serial + outA + outB;
    CountsAppend(serial + outA, outB, l);
    CountsAppend(serial, outA, l);
    if p.Received? {
      MessagesIdentifyEvent(p.c, '\0', l, l, true, false);
      MessagesIdentifyEvent(p.c, '\0', l, l, false, true);
      assert Reports(serial[1..], l) == 0;
    }
    if s.a.pending {
      MessagesIdentifyEvent('\0', '\0', GreenLed, l, s.a.led, true);
      MessagesIdentifyEvent('\0', '\0', GreenLed, l, s.a.led, false);
      assert Reports(outA[1..], l) == 0;
    }
    if s.b.pending {
      MessagesIdentifyEvent('\0', '\0', BlueLed, l, s.b.led, true);
      MessagesIdentifyEvent('\0', '\0', BlueLed, l, s.b.led, false);
      assert Reports(outB[1..], l) == 0;
    }
  }

  /**
   Channel independence over a whole run: if the button of `l` never fires,
   its LED state and timestamp survive every event, its flag can only be
   cleared, and its LED pin is never driven.
   */
  lemma {:induction false} SilentChannelUnchanged(s: Shared, numbers: seq<seq<bool>>, events: seq<Event>, l: Led)
    requires ValidTable(numbers)
    requires forall i :: 0 <= i < |events| ==> !FiresOn(events[i], ButtonPin(l))
    ensures var r := Run(s, numbers, events);
            r.state.Of(l).led == s.Of(l).led && r.state.Of(l).last == s.Of(l).last &&
            (r.state.Of(l).pending ==> s.Of(l).pending) &&
            forall i :: 0 <= i < |r.out| ==> !Drives(r.out[i], LedPin(l))
    decreases |events|
  {
    if events != [] {
      var first := StepOf(s, numbers, events[0]);
      assert forall i :: 0 <= i < |events[1..]| ==> events[1..][i] == events[i + 1];
      SilentChannelUnchanged(first.state, numbers, events[1..], l);
    }
  }

  /** From power-on, edges in the first 300000 microseconds do nothing at all. */
  lemma {:induction false} EarlyEdgesIgnored(numbers: seq<seq<bool>>, events: seq<Event>)
    requires ValidTable(numbers)
    requires forall i :: 0 <= i < |events| ==> events[i].Edge? && events[i].now <= DebounceDelayUs
    ensures Run(Init, numbers, events) == Step(Init, [])
    decreases |events|
  {
    if events != [] {
      EarlyEdgeSuppressed(events[0].gpio, events[0].now);
      assert forall i :: 0 <= i < |events[1..]| ==> events[1..][i] == events[i + 1];
      EarlyEdgesIgnored(numbers, events[1..]);
    }
  }

  /**
   Two edges on button A, the first accepted: within the debounce window the
   LED flips once and one event is pending; beyond it the LED flips twice.
   */
  lemma TwoEdges(s: Shared, numbers: seq<seq<bool>>, t1: U64, t2: U64)
    requires ValidTable(numbers)
    requires Accepts(s.a, t1) && t1 <= t2
    ensures var r := Run(s, numbers, [Edge(BtnAPin, t1), Edge(BtnAPin, t2)]);
            if t2 - t1 <= DebounceDelayUs then
              r.out == [Drive(LedGreenPin, !s.a.led)] && r.state.a == Channel(!s.a.led, t1, true)
            else
              r.out == [Drive(LedGreenPin, !s.a.led), Drive(LedGreenPin, s.a.led)] &&
              r.state.a == Channel(s.a.led, t2, true)
  {
    DebounceWindow(s.a, t1, t2);
    RunTwo(s, numbers, Edge(BtnAPin, t1), Edge(BtnAPin, t2));
  }

  /** Receiving '7' echoes it and draws glyph 7 in the digit colour. */
  lemma ReceiveSeven(s: Shared, numbers: seq<seq<bool>>)
    requires ValidTable(numbers)
    requires !s.a.pending && !s.b.pending
    ensures Run(s, numbers, [Tick(Received('7'))]).out ==
            [Show("Recebido: 7"), Strip(DisplayNumber(numbers[7], 0, 180, 200))]
  {
    RunOne(s, numbers, Tick(Received('7')));
    assert DigitValue('7') == 7;
    assert ReceivedMessage('7') == "Recebido: 7";
  }

  /** Receiving 'x' echoes it and blanks the matrix. */
  lemma ReceiveLetter(s: Shared, numbers: seq<seq<bool>>)
    requires ValidTable(numbers)
    requires !s.a.pending && !s.b.pending
    ensures Run(s, numbers, [Tick(Received('x'))]).out == [Show("Recebido: x"), Strip(Blank())]
  {
    RunOne(s, numbers, Tick(Received('x')));
    assert ReceivedMessage('x') == "Recebido: x";
  }

  /**
   Pressing A once after the debounce window from power-on lights the green
   LED, and the next iteration reports it and clears the flag.
   */
  lemma PressGreenFromPowerOn(numbers: seq<seq<bool>>, t: U64)
    requires ValidTable(numbers)
    requires t > DebounceDelayUs
    ensures Run(Init, numbers, [Edge(BtnAPin, t), Tick(Timeout)]) ==
            Step(Shared(Channel(true, t, false), Init.b), [Drive(LedGreenPin, true), Show("LED Verde ligado")])
  {
    RunTwo(Init, numbers, Edge(BtnAPin, t), Tick(Timeout));
    assert StatusLine(GreenLed, true) == "LED Verde ligado";
  }

  /**
   An accepted edge on A is reported by the very next iteration with the
   LED's new state, and the flag is then clear again.
   */
  lemma AcceptedEdgeReported(s: Shared, numbers: seq<seq<bool>>, t: U64, p: Poll)
    requires ValidTable(numbers)
    requires Accepts(s.a, t)
    ensures var r := Run(s, numbers, [Edge(BtnAPin, t), Tick(p)]);
            Show(StatusLine(GreenLed, !s.a.led)) in r.out && r.out[0] == Drive(LedGreenPin, !s.a.led) &&
            !r.state.a.pending && r.state.a.led == !s.a.led
  {
    RunTwo(s, numbers, Edge(BtnAPin, t), Tick(p));
    var mid := GpioCallback(s, BtnAPin, t);
    var tick := MainLoop.Tick(mid.state, numbers, p);
    assert tick.out[|SerialStep(numbers, p)|] == Show(StatusLine(GreenLed, !s.a.led));
  }
}
