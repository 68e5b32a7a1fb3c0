# comunicacao-serial: a verified model of the firmware core

The firmware runs on a Raspberry Pi Pico. It reads single characters from
the serial port, draws digits 0-9 on a 5x5 WS2812 LED matrix and prints status
lines on an SSD1306 OLED display. Two push buttons toggle a green and a blue
LED through a debounced GPIO interrupt.

This project models the logic of `comunicacao-serial.c` in Dafny:

- `Ws2812` (ws2812.dfy): `urgb_u32` packs a colour into a GRB word. `put_pixel`
  shifts that word left by 8 in 32-bit arithmetic. `display_number` emits 25
  words in pixel order. Words are `bv32`, so the C shifts and their truncation
  are modelled exactly.
- `Buttons` (buttons.dfy): `gpio_callback`. Each channel keeps an LED state,
  a `uint64_t` timestamp and a pending flag. An edge is accepted only when
  `current_time - last` is strictly greater than 300000 µs. The subtraction
  wraps modulo 2^64, as it does in C.
- `MainLoop` (main_loop.dfy): one iteration of `while (true)` in `main`. It
  polls the serial port once, echoes "Recebido: c", and then draws the digit
  glyph or blanks the matrix. It then drains flag A and then flag B, each
  drain showing "LED Verde/Azul ligado/desligado".
- `Trace` (trace.dfy): runs of the firmware as sequences of events. An
  `Edge(gpio, now)` event is one interrupt and a `Tick(poll)` event is one loop
  iteration. For each of the two buttons, the trace lemmas cover
  channel independence, monotone and bounded timestamps, an indicator pin
  that mirrors the LED state, and at most one report per toggle. They also
  cover flags cleared by every iteration and the end-to-end scenarios.
- `Peripherals` (peripherals.dfy): the observable outputs. These are display
  redraws, 25-word strip frames and LED pin writes.

The interrupt handler is treated as one atomic step that happens between loop
iterations. Hardware calls are replaced by output values: `ssd1306_*` becomes
`Show(text)`, the `pio_sm_put_blocking` calls become one `Strip(words)`, and
`gpio_put` becomes `Drive(pin, level)`. `time_us_64()` becomes the time of
each edge event. `getchar_timeout_us(0)` becomes the `Poll` value of a tick.
The digit table `numbers` from `algarismos.h` is not part of this model, so it
is a parameter. It must hold ten masks of 25 pixels (`ValidTable`).

Some details of the source that the model keeps:

- The displayed texts are the Portuguese strings of comunicacao-serial.c:152,173,180:
  "Recebido: c", "LED Verde ligado", "LED Verde desligado", "LED Azul ligado"
  and "LED Azul desligado".
- A non-digit character is blanked by 25 `put_pixel(0)` calls
  (comunicacao-serial.c:163-166), not by `display_number`.
  `Ws2812.BlankIsDarkMask` proves that both give the same words as
  `display_number` with the all-dark mask.
- `sprintf("Recebido: %c", c)` with the NUL character ends the C string right
  after the prefix. The shown text is then "Recebido: " (`MainLoop.ReceivedMessage`).

## Model

| member | source | states |
|---|---|---|
| Ws2812.Urgb | comunicacao-serial.c:46-49 | the packed word is below 2^24, and shift-and-mask recovers g from bits 16-23, r from bits 8-15 and b from bits 0-7 |
| Ws2812.UrgbInjective | comunicacao-serial.c:46-49 | two triples that pack to the same word are the same triple |
| Ws2812.UrgbOfChannels | comunicacao-serial.c:46-49 | every word below 2^24 is the packing of the channels read back from it |
| Ws2812.PutPixel | comunicacao-serial.c:40-43 | the transmitted word has a zero low byte and carries the low 24 bits of the colour above it; for a 24-bit colour it is zero exactly when the colour is black |
| Ws2812.Frame | comunicacao-serial.c:55-58 | one word per mask entry, in index order; the word is the transmitted colour when the entry is lit and zero otherwise |
| Ws2812.DisplayNumber | comunicacao-serial.c:52-59 | exactly 25 words; word i is the transmitted packed colour if buffer[i] and 0 otherwise |
| Ws2812.FrameLowByteZero | comunicacao-serial.c:52-59 | every word of a digit frame has its low 8 bits clear |
| Ws2812.Blank | comunicacao-serial.c:163-166 | the 25 put_pixel(0) words of the blanking loop are all zero |
| Ws2812.FrameShowsMask | comunicacao-serial.c:52-59 | for a non-black colour, reading which words are non-zero gives back the first 25 mask entries |
| Ws2812.FrameCarriesColour | comunicacao-serial.c:52-59 | every lit word, shifted back by 8, unpacks to the requested r, g and b |
| Ws2812.BlankIsDarkMask | comunicacao-serial.c:161-167 | blanking gives the same words as drawing the all-dark mask in any colour |
| Buttons.Elapsed | comunicacao-serial.c:76 | the uint64 difference equals now - last when now >= last, and wraps by 2^64 otherwise |
| Buttons.OnEdge | comunicacao-serial.c:76-82 | the channel changes if and only if the edge passes the debounce test; a change flips the LED, records now and raises the flag; under now >= last, a gap of at most 300000 µs changes nothing |
| Buttons.GpioCallback | comunicacao-serial.c:70-94 | pins other than 5 and 6 change nothing and output nothing; an edge on A never touches B and the reverse; an accepted edge sets the new channel value and drives exactly its LED pin to the new state; a suppressed edge changes nothing |
| Buttons.EarlyEdgeSuppressed | comunicacao-serial.c:27-35 | from the power-on values, an edge on any pin at time at most 300000 µs changes nothing |
| Buttons.DebounceWindow | comunicacao-serial.c:76-81 | after an accepted edge at t1, a later edge at t2 is suppressed if and only if t2 - t1 <= 300000 |
| MainLoop.DigitValue | comunicacao-serial.c:156-158 | for a digit character, c - '0' is below 10 and '0' plus it gives back c |
| MainLoop.ReceivedMessage | comunicacao-serial.c:152 | the echo fits the 50-byte msg buffer and starts with "Recebido: "; it has 11 characters ending in c exactly when c is not NUL, and is exactly "Recebido: " for NUL |
| MainLoop.StatusLine | comunicacao-serial.c:173-180 | the status line is "LED Verde ligado", "LED Verde desligado", "LED Azul ligado" or "LED Azul desligado" according to the LED and its state, and fits the 50-byte msg buffer |
| MainLoop.MessagesIdentifyEvent | comunicacao-serial.c:152-180 | distinct non-NUL characters give distinct echoes; a status line determines both the LED and its state; no status line equals an echo |
| MainLoop.DigitColourWord | comunicacao-serial.c:159 | the digit colour (0,180,200) packs to 0xB400C8 and is transmitted as 0xB400C800 |
| MainLoop.FrameFor | comunicacao-serial.c:156-167 | 25 words; a digit draws numbers[c-'0'] in the digit colour and any other character gives all-zero words |
| MainLoop.SerialStep | comunicacao-serial.c:148-168 | no character gives no output; a character gives the echo on the display followed by its frame on the strip |
| MainLoop.Drain | comunicacao-serial.c:170-176 | the flag ends cleared and the LED state and timestamp are kept; exactly one status line is shown if and only if the flag was raised |
| MainLoop.Tick | comunicacao-serial.c:146-185 | both flags end cleared and LED states and timestamps are unchanged; the output is the serial part, then A's line if A was pending, then B's line if B was pending; no pin is driven |
| MainLoop.IdleTick | comunicacao-serial.c:148-183 | an iteration with no character and no raised flag changes nothing and outputs nothing |
| MainLoop.DrainIdempotent | comunicacao-serial.c:170-183 | a second iteration with no edge and no character in between outputs nothing |
| Trace.TimestampsMonotone | comunicacao-serial.c:76-90 | if edge times never decrease, neither timestamp ever decreases over a run, and neither exceeds the time of the last edge |
| Trace.FlagsClearAfterTick | comunicacao-serial.c:170-183 | after any run that ends with an iteration of the main loop, both pending flags are clear |
| Trace.PinsMirrorLeds | comunicacao-serial.c:78-89 | after any run, the last level driven on the green (blue) pin equals the green (blue) LED state |
| Trace.ReportsBounded | comunicacao-serial.c:170-183 | for either LED, over any run, its status lines plus a still-raised flag never exceed its pin toggles plus the flag raised at the start, so toggles between two iterations merge into one report |
| Trace.TickReports | comunicacao-serial.c:170-183 | for either LED, one iteration shows exactly one status line about it if its flag was raised and none otherwise |
| Trace.SilentChannelUnchanged | comunicacao-serial.c:74-93 | for either button, in a run with no edge on its pin, its LED state and timestamp are unchanged, its flag can only be cleared, and its LED pin is never driven |
| Trace.EarlyEdgesIgnored | comunicacao-serial.c:29-35 | from power-on, any run of edges all at times up to 300000 µs leaves the state at power-on and outputs nothing |
| Trace.TwoEdges | comunicacao-serial.c:74-83 | two A edges with the first accepted: within the window there is one flip and one pending event; beyond it there are two flips |
| Trace.ReceiveSeven | comunicacao-serial.c:148-160 | receiving '7' shows "Recebido: 7" and draws numbers[7] in (0,180,200) |
| Trace.ReceiveLetter | comunicacao-serial.c:148-167 | receiving 'x' shows "Recebido: x" and sends 25 zero words |
| Trace.PressGreenFromPowerOn | comunicacao-serial.c:74-83 | from power-on, an A edge after 300000 µs followed by an iteration lights green, shows "LED Verde ligado" and leaves the flag clear |
| Trace.AcceptedEdgeReported | comunicacao-serial.c:170-176 | an accepted A edge drives green to the new state, and the next iteration reports that state and clears the flag |

## Left out

- `setup` (comunicacao-serial.c:97-130) and the PIO and I2C bring-up in `main` (comunicacao-serial.c:135-141) only configure hardware. They are left out. The power-on values of the shared variables are modelled as `Buttons.Init`.
- The `ssd1306_*` driver, `pio_sm_put_blocking` and `gpio_put` are foreign driver code. They are modelled as output values only. `update_display_message` is one `Show` event, because each call redraws the whole frame.
- The digit table `numbers` from `algarismos.h` is not part of this model. It is a parameter of the loop.
- `printf` console logging (comunicacao-serial.c:154,175,182) is only observability, so it is left out.
- `sleep_ms(50)` and `time_us_64()` are real-time behaviour. Time is an input of each edge event.
- Preemption and `volatile` memory visibility are not modelled. An interrupt is an atomic step between two loop iterations, never inside one.
- The `events` argument of `gpio_callback` is never read by the source, so the model does not carry it.
- A received character is a Dafny `char` and is not narrowed to the byte range that `getchar_timeout_us` returns.
