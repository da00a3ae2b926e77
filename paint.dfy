/**
 * The per-cell colour rule and glyph placement that paintEvent and
 * save_current_frame_png share (ascii_camera.py lines 169-226).
 */
module Paint {
  import opened Pipeline

  const Black := Rgb(0, 0, 0)
  const White := Rgb(255, 255, 255)

  /** The canvas fill: white exactly when inverting (lines 169 and 200). */
  function Background(invert: bool): (c: Rgb)
    ensures c == White <==> invert
    ensures c == Black <==> !invert
  {
    if invert then White else Black
  }

  /** Channel-wise 255 - c. */
  function InvertColor(c: Rgb): Rgb {
    Rgb(255 - c.r, 255 - c.g, 255 - c.b)
  }

  /** Inverting twice gives back the colour. */
  lemma InvertInvolutive(c: Rgb)
    ensures InvertColor(InvertColor(c)) == c
  {
  }

  /**
   * The pen colour of one cell: the cell's RGB or its grey byte on all three
   * channels, then inverted when `invert` is set.
   */
  function CellColor(useColor: bool, invert: bool, rgb: Rgb, gray: Byte): (c: Rgb)
    ensures !useColor ==> c.r == c.g == c.b
    ensures !useColor ==> c.r == (if invert then 255 - gray else gray)
    ensures useColor ==> c == (if invert then InvertColor(rgb) else rgb)
  {
    var base := if useColor then rgb else Rgb(gray, gray, gray);
    if invert then InvertColor(base) else base
  }

  /** Toggling invert on and off again restores every cell colour exactly. */
  lemma InvertToggleRoundTrip(useColor: bool, rgb: Rgb, gray: Byte)
    ensures InvertColor(CellColor(useColor, true, rgb, gray)) == CellColor(useColor, false, rgb, gray)
    ensures InvertColor(CellColor(useColor, false, rgb, gray)) == CellColor(useColor, true, rgb, gray)
  {
  }

  /** One drawText call: the glyph's origin, the glyph and the pen colour. */
  datatype Glyph = Glyph(x: int, y: int, ch: char, pen: Rgb)

  /** What the painting depends on besides the frame. */
  datatype Style = Style(useColor: bool, invert: bool, charW: int, lineH: int, fontSize: int)

  /** The glyph of cell (y, x): placed at (x*char_w, y*line_h + font_size). */
  function CellGlyph(f: Frame, s: Style, y: int, x: int): Glyph
    requires Shaped(f) && 0 <= y < |f.symbols| && 0 <= x < |f.symbols[y]|
  {
    Glyph(x * s.charW, y * s.lineH + s.fontSize, f.symbols[y][x],
          CellColor(s.useColor, s.invert, f.colors[y][x], f.gray[y][x]))
  }

  function RowGlyphs(f: Frame, s: Style, y: int): (r: seq<Glyph>)
    requires Shaped(f) && 0 <= y < |f.symbols|
    ensures |r| == |f.symbols[y]|
  {
    seq(|f.symbols[y]|, x requires 0 <= x < |f.symbols[y]| => CellGlyph(f, s, y, x))
  }

  /** The glyphs of the first k rows, row by row and left to right. */
  function GlyphsUpTo(f: Frame, s: Style, k: int): seq<Glyph>
    requires Shaped(f) && 0 <= k <= |f.symbols|
  {
    if k == 0 then [] else GlyphsUpTo(f, s, k - 1) + RowGlyphs(f, s, k - 1)
  }

  /** Everything the two nested loops draw, in drawing order. */
  function FrameGlyphs(f: Frame, s: Style): seq<Glyph>
    requires Shaped(f)
  {
    GlyphsUpTo(f, s, |f.symbols|)
  }

  /** Every row of the glyph grid holds w glyphs (numpy arrays are rectangular). */
  predicate Rectangular<T>(g: Grid<T>, w: int) {
    forall y | 0 <= y < |g| :: |g[y]| == w
  }

  lemma MulStep(k: int, w: int)
    requires k >= 1 && w >= 0
    ensures (k - 1) * w + w == k * w
  {
  }

  /**
   * On a rectangular frame, the drawing holds h*w glyphs and the one at
   * position y*w + x is cell (y, x)'s.
   */
  lemma {:induction false} GlyphAt(f: Frame, s: Style, w: int, k: int, y: int, x: int)
    requires Shaped(f) && w >= 0 && Rectangular(f.symbols, w) && 0 <= k <= |f.symbols|
    requires 0 <= y < k && 0 <= x < w
    ensures |GlyphsUpTo(f, s, k)| == k * w
    ensures y * w + x < k * w
    ensures GlyphsUpTo(f, s, k)[y * w + x] == CellGlyph(f, s, y, x)
  {
    var prev := GlyphsUpTo(f, s, k - 1);
    MulStep(k, w);
    if y < k - 1 {
      GlyphAt(f, s, w, k - 1, y, x);
    } else {
      if k - 1 > 0 {
        GlyphAt(f, s, w, k - 1, 0, 0);
      } else {
        assert |prev| == 0;
      }
      assert |prev| == y * w;
    }
  }
}
