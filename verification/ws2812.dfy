/**
 Colour packing and frame emission for the 5x5 WS2812 matrix.

 A colour is packed into a 24-bit GRB word (green in bits 16..23, red in
 bits 8..15, blue in bits 0..7). Every word handed to the strip's state
 machine is that colour shifted left by 8, in 32-bit arithmetic, so the
 low byte of every transmitted word is zero. A frame is the 25 transmitted
 words of one `display_number` call, in pixel-index order.
 */
module Ws2812 {

  /** Number of pixels in the matrix (NUM_PIXELS). */
  const NumPixels: nat := 25

  /** Mask of the low 24 bits: the part of a word that holds a GRB colour. */
  const ColourMask: bv32 := 0xFF_FFFF

  /** Shift-and-mask extraction of the three channels of a packed colour. */
  function Green(w: bv32): bv8 { ((w >> 16) & 0xFF) as bv8 }
  function Red(w: bv32): bv8 { ((w >> 8) & 0xFF) as bv8 }
  function Blue(w: bv32): bv8 { (w & 0xFF) as bv8 }

  /** urgb_u32: packs an RGB triple into a GRB word. */
  function Urgb(r: bv8, g: bv8, b: bv8): (w: bv32)
    ensures w <= ColourMask
    ensures Green(w) == g && Red(w) == r && Blue(w) == b
  {
    (r as bv32 << 8) | (g as bv32 << 16) | (b as bv32)
  }

  /** Packing is injective: distinct triples give distinct colours. */
  lemma UrgbInjective(r: bv8, g: bv8, b: bv8, r': bv8, g': bv8, b': bv8)
    requires Urgb(r, g, b) == Urgb(r', g', b')
    ensures r == r' && g == g' && b == b'
  {
  }

  /** Every 24-bit word is the packing of the channels read back from it. */
  lemma UrgbOfChannels(w: bv32)
    requires w <= ColourMask
    ensures Urgb(Red(w), Green(w), Blue(w)) == w
  {
  }

  /** put_pixel: the word actually sent to the strip for a colour. */
  function PutPixel(pixelGrb: bv32): (w: bv32)
    ensures w & 0xFF == 0
    ensures w >> 8 == pixelGrb & ColourMask
    ensures pixelGrb <= ColourMask ==> (w == 0 <==> pixelGrb == 0)
  {
    pixelGrb << 8
  }

  /**
   The words put on the strip for `buffer`, one per entry in order: the
   shifted colour for a lit entry, a zero word for a dark one.
   */
  function Frame(buffer: seq<bool>, colour: bv32): (ws: seq<bv32>)
    ensures |ws| == |buffer|
    ensures forall i :: 0 <= i < |buffer| ==>
              ws[i] == (if buffer[i] then PutPixel(colour) else 0)
  {
    if buffer == [] then []
    else
      assert PutPixel(0) == 0;
      [PutPixel(if buffer[0] then colour else 0)] + Frame(buffer[1..], colour)
  }

  /**
   display_number: the 25 words sent for the first 25 entries of `buffer`
   in colour (r, g, b).
   */
  function DisplayNumber(buffer: seq<bool>, r: bv8, g: bv8, b: bv8): (ws: seq<bv32>)
    requires |buffer| >= NumPixels
    ensures |ws| == NumPixels
    ensures forall i :: 0 <= i < NumPixels ==>
              ws[i] == (if buffer[i] then PutPixel(Urgb(r, g, b)) else 0)
  {
    Frame(buffer[..NumPixels], Urgb(r, g, b))
  }

  /** Every word of a frame has a zero low byte. */
  lemma FrameLowByteZero(buffer: seq<bool>, r: bv8, g: bv8, b: bv8, i: nat)
    requires |buffer| >= NumPixels && i < NumPixels
    ensures DisplayNumber(buffer, r, g, b)[i] & 0xFF == 0
  {
  }

  /** The 25 words of the main loop's blanking loop, each put_pixel(0). */
  function Blank(): (ws: seq<bv32>)
    ensures |ws| == NumPixels
    ensures forall i :: 0 <= i < NumPixels ==> ws[i] == 0
  {
    seq(NumPixels, i => PutPixel(0))
  }

  /** The mask a frame shows: which of its pixels are lit. */
  function LitPixels(ws: seq<bv32>): (mask: seq<bool>)
    ensures |mask| == |ws|
  {
    seq(|ws|, i requires 0 <= i < |ws| => ws[i] != 0)
  }

  /**
   Reading the lit pixels back from a frame gives the mask it was drawn
   from, as long as the colour is not black.
   */
  lemma FrameShowsMask(buffer: seq<bool>, r: bv8, g: bv8, b: bv8)
    requires |buffer| >= NumPixels
    requires Urgb(r, g, b) != 0
    ensures LitPixels(DisplayNumber(buffer, r, g, b)) == buffer[..NumPixels]
  {
  }

  /** Each lit pixel carries exactly the requested red, green and blue. */
  lemma FrameCarriesColour(buffer: seq<bool>, r: bv8, g: bv8, b: bv8, i: nat)
    requires |buffer| >= NumPixels
    requires i < NumPixels && buffer[i]
    ensures var c := DisplayNumber(buffer, r, g, b)[i] >> 8;
            Red(c) == r && Green(c) == g && Blue(c) == b
  {
  }

  /** Blanking is drawing the all-dark mask, whatever the colour. */
  lemma BlankIsDarkMask(r: bv8, g: bv8, b: bv8)
    ensures Blank() == DisplayNumber(seq(NumPixels, i => false), r, g, b)
  {
  }
}
