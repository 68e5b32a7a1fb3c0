/**
 One iteration of the firmware's `while (true)` loop in `main`.

 The iteration polls the serial port once without waiting. A received
 character is echoed on the display as "Recebido: c"; a digit then draws
 its glyph in colour (0, 180, 200) and any other character blanks the
 matrix. Afterwards the pending flag of button A and then that of button B
 is drained, each drain clearing its flag and showing the channel's LED
 state. The digit glyph table is a parameter: its contents are not part of
 this model.
 */
module MainLoop {
  import opened Peripherals
  import opened Ws2812
  import opened Buttons

  /** Result of getchar_timeout_us(0): nothing yet, or one character. */
  datatype Poll = Timeout | Received(c: char)

  /** Size of the `msg` buffer every status line is formatted into. */
  const MsgBufferSize: nat := 50

  /** Colour used to draw digits. */
  const DigitRed: bv8 := 0
  const DigitGreen: bv8 := 180
  const DigitBlue: bv8 := 200

  /** The word a lit digit pixel puts on the strip. */
  lemma DigitColourWord()
    ensures Urgb(DigitRed, DigitGreen, DigitBlue) == 0xB4_00C8
    ensures PutPixel(Urgb(DigitRed, DigitGreen, DigitBlue)) == 0xB400_C800
  {
  }

  /** A glyph table: ten masks of 25 pixels, one per digit. */
  predicate ValidTable(numbers: seq<seq<bool>>)
  {
    |numbers| == 10 && forall d :: 0 <= d < 10 ==> |numbers[d]| == NumPixels
  }

  predicate IsDigit(c: char)
  {
    '0' <= c <= '9'
  }

  /** `c - '0'` for a digit character. */
  function DigitValue(c: char): (d: nat)
    requires IsDigit(c)
    ensures d < 10
    ensures '0' as int + d == c as int
  {
    c as int - '0' as int
  }

  /**
   The text sprintf("Recebido: %c", c) leaves in `msg`, read as a C string:
   a NUL character ends the string right after the prefix.
   */
  function ReceivedMessage(c: char): (msg: string)
    ensures |msg| < MsgBufferSize
    ensures |msg| >= 10 && msg[..10] == "Recebido: "
    ensures c != '\0' <==> |msg| == 11
    ensures c != '\0' ==> msg[10] == c
    ensures c == '\0' ==> msg == "Recebido: "
  {
    if c == '\0' then "Recebido: " else "Recebido: " + [c]
  }

  function OnOff(on: bool): string
  {
    if on then "ligado" else "desligado"
  }

  /** The name of an indicator LED in its status line. */
  function LedName(l: Led): string
  {
    match l
    case GreenLed => "Verde"
    case BlueLed => "Azul"
  }

  /** The status line "LED <name> ligado|desligado" shown when a flag is drained. */
  function StatusLine(l: Led, on: bool): (msg: string)
    ensures |msg| < MsgBufferSize
    ensures msg == match (l, on)
                   case (GreenLed, true) => "LED Verde ligado"
                   case (GreenLed, false) => "LED Verde desligado"
                   case (BlueLed, true) => "LED Azul ligado"
                   case (BlueLed, false) => "LED Azul desligado"
  {
    "LED " + LedName(l) + " " + OnOff(on)
  }

  /**
   Every display line tells exactly what happened: the received character,
   or which LED changed and to which state.
   */
  lemma MessagesIdentifyEvent(c: char, c': char, l: Led, l': Led, x: bool, y: bool)
    ensures c != '\0' && c' != '\0' && ReceivedMessage(c) == ReceivedMessage(c') ==> c == c'
    ensures StatusLine(l, x) == StatusLine(l', y) ==> l == l' && x == y
    ensures StatusLine(l, x) != ReceivedMessage(c)
  {
  }

  /** The frame for a received character: its digit's glyph, or dark. */
  function FrameFor(numbers: seq<seq<bool>>, c: char): (ws: seq<bv32>)
    requires ValidTable(numbers)
    ensures |ws| == NumPixels
    ensures IsDigit(c) ==> forall i :: 0 <= i < NumPixels ==>
              ws[i] == (if numbers[DigitValue(c)][i] then PutPixel(Urgb(DigitRed, DigitGreen, DigitBlue)) else 0)
    ensures !IsDigit(c) ==> forall i :: 0 <= i < NumPixels ==> ws[i] == 0
  {
    if IsDigit(c) then DisplayNumber(numbers[DigitValue(c)], DigitRed, DigitGreen, DigitBlue)
    else Blank()
  }

  /** The serial half of an iteration: echo, then draw. */
  function SerialStep(numbers: seq<seq<bool>>, p: Poll): (out: seq<Effect>)
    requires ValidTable(numbers)
    ensures p.Timeout? <==> out == []
    ensures p.Received? ==> out == [Show(ReceivedMessage(p.c)), Strip(FrameFor(numbers, p.c))]
  {
    match p
    case Timeout => []
    case Received(c) => [Show(ReceivedMessage(c)), Strip(FrameFor(numbers, c))]
  }

  /** Drain one channel's flag, reporting `report` if it was raised. */
  function Drain(c: Channel, report: string): (r: (Channel, seq<Effect>))
    ensures !r.0.pending
    ensures r.0.led == c.led && r.0.last == c.last
    ensures |r.1| <= 1
    ensures r.1 != [] <==> c.pending
    ensures r.1 != [] ==> r.1[0] == Show(report)
  {
    if c.pending then (c.(pending := false), [Show(report)]) else (c, [])
  }

  /**
   One loop iteration: serial poll, then drain A, then drain B. The LEDs and
   timestamps are untouched, both flags end cleared, and each raised flag
   yields one status line, A's before B's.
   */
  function Tick(s: Shared, numbers: seq<seq<bool>>, p: Poll): (r: Step)
    requires ValidTable(numbers)
    ensures r.state == Shared(s.a.(pending := false), s.b.(pending := false))
    ensures |r.out| == |SerialStep(numbers, p)| + (if s.a.pending then 1 else 0) + (if s.b.pending then 1 else 0)
    ensures r.out[..|SerialStep(numbers, p)|] == SerialStep(numbers, p)
    ensures s.a.pending ==> r.out[|SerialStep(numbers, p)|] == Show(StatusLine(GreenLed, s.a.led))
    ensures s.b.pending ==> r.out[|r.out| - 1] == Show(StatusLine(BlueLed, s.b.led))
    ensures forall i :: 0 <= i < |r.out| ==> !r.out[i].Drive?
  {
    var serial := SerialStep(numbers, p);
    var (a, outA) := Drain(s.a, StatusLine(GreenLed, s.a.led));
    var (b, outB) := Drain(s.b, StatusLine(BlueLed, s.b.led));
    Step(Shared(a, b), serial + outA + outB)
  }

  /** An iteration with nothing received and nothing pending does nothing. */
  lemma IdleTick(s: Shared, numbers: seq<seq<bool>>)
    requires ValidTable(numbers)
    requires !s.a.pending && !s.b.pending
    ensures Tick(s, numbers, Timeout) == Step(s, [])
  {
  }

  /** A second iteration with no edge in between reports nothing. */
  lemma DrainIdempotent(s: Shared, numbers: seq<seq<bool>>, p: Poll)
    requires ValidTable(numbers)
    ensures var s' := Tick(s, numbers, p).state;
            Tick(s', numbers, Timeout) == Step(s', [])
  {
  }
}
