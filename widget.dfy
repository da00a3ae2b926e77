/**
 * ASCIICameraWidget and the sizing part of MainWindow (ascii_camera.py):
 * the widget's parameters and last frame, the parameter update, the frame
 * update, the two painting loops, the text export and check_orientation.
 *
 * Qt painting is modelled by the list of drawText calls it receives; the
 * camera, the Lanczos resize, the font metrics and file writes are inputs.
 */
module Widget {
  import opened Results
  import opened Pipeline
  import CharSets
  import opened Params
  import opened Paint
  import opened Text
  import Orientation

  /** What paintEvent draws on the widget: a fill, then the glyphs. */
  datatype Painting = Painting(background: Rgb, glyphs: seq<Glyph>)

  /** The QImage save_current_frame_png paints: its size, fill and glyphs. */
  datatype Raster = Raster(width: int, height: int, background: Rgb, glyphs: seq<Glyph>)

  /** The glyph grid of a frame as text rows: "".join(row) is the row itself. */
  predicate GlyphsNoLineBreak(f: Frame) {
    NoLineBreaks(f.symbols)
  }

  class CameraWidget {
    const renderer: Renderer
    /** Qt font metrics of Courier New at a point size: horizontalAdvance("W") and height(). */
    const advanceOf: int -> int
    const heightOf: int -> int

    var asciiW: int
    var asciiH: int
    var contrast: real
    var fontSize: int
    var useColor: bool
    var invert: bool
    var autoContrast: bool
    var charSetName: string

    var charW: int
    var lineH: int
    /** ascii_symbols, colors and gray of the last successful render; None before the first. */
    var frame: Option<Frame>
    /** A repaint has been requested with update(). */
    var repaintRequested: bool
    /** The number of glyphs per row of the last frame: ascii_w when it was rendered. */
    ghost var frameW: int

    ghost predicate Valid()
      reads this, renderer
    {
      && renderer.Valid()
      && renderer.chars.Some? && CharSets.IsCharSet(renderer.chars.value)
      && (frame.Some? ==>
            && Shaped(frame.value) && GlyphsNoLineBreak(frame.value)
            && 0 <= frameW && Rectangular(frame.value.symbols, frameW))
    }

    /** The eight user parameters. */
    function Snapshot(): Params
      reads this
    {
      Params(asciiW, asciiH, contrast, fontSize, useColor, invert, autoContrast, charSetName)
    }

    function CurrentStyle(): Style
      reads this
    {
      Style(useColor, invert, charW, lineH, fontSize)
    }

    /** __init__: defaults, the Detailed set installed, no frame yet (lines 72-94). */
    constructor (advanceOf: int -> int, heightOf: int -> int)
      ensures Valid() && fresh(renderer)
      ensures Snapshot() == Defaults
      ensures charW == 8 && lineH == 14 && frame == None
      ensures renderer.chars == Some(CharSets.Detailed)
      ensures this.advanceOf == advanceOf && this.heightOf == heightOf
    {
      var r := new Renderer();
      r.SetChars(CharSets.Detailed);
      renderer := r;
      this.advanceOf := advanceOf;
      this.heightOf := heightOf;
      asciiW, asciiH, contrast, fontSize := 60, 34, 1.2, 10;
      useColor, invert, autoContrast, charSetName := true, false, false, "Detailed";
      charW, lineH := 8, 14;
      frame := None;
      repaintRequested := false;
      frameW := 0;
    }

    /** setattr for one of the eight parameters. */
    method SetAttr(a: Arg)
      requires FieldOf(a).Some?
      modifies this
      ensures Snapshot() == Write(old(Snapshot()), a)
      ensures charW == old(charW) && lineH == old(lineH) && frame == old(frame) && frameW == old(frameW)
      ensures repaintRequested == old(repaintRequested)
    {
      match a
      case SetAsciiW(w) => asciiW := w;
      case SetAsciiH(h) => asciiH := h;
      case SetContrast(c) => contrast := c;
      case SetFontSize(pt) => fontSize := pt;
      case SetUseColor(b) => useColor := b;
      case SetInvert(b) => invert := b;
      case SetAutoContrast(b) => autoContrast := b;
      case SetCharSetName(n) => charSetName := n;
    }

    /** update_metrics: the cell size of the current font, then a repaint (lines 129-134). */
    method UpdateMetrics()
      modifies this
      ensures Snapshot() == old(Snapshot()) && frame == old(frame) && frameW == old(frameW)
      ensures charW == advanceOf(fontSize) && lineH == heightOf(fontSize) + 2
      ensures repaintRequested
    {
      charW := advanceOf(fontSize);
      lineH := heightOf(fontSize) + 2;
      repaintRequested := true;
    }

    /**
     * The loop of update_params (lines 109-119): writes every named parameter
     * whose value differs and raises the two flags.
     */
    method WriteArgs(kw: seq<Arg>) returns (changed: bool, redraw: bool)
      modifies this
      ensures Snapshot() == ApplyAll(old(Snapshot()), kw)
      ensures changed == Changed(old(Snapshot()), kw)
      ensures redraw == Redraw(old(Snapshot()), kw)
      ensures charW == old(charW) && lineH == old(lineH) && frame == old(frame) && frameW == old(frameW)
      ensures repaintRequested == old(repaintRequested)
    {
      ghost var p := Snapshot();
      changed, redraw := false, false;
      var i := 0;
      while i < |kw|
        invariant 0 <= i <= |kw|
        invariant Snapshot() == ApplyAll(p, kw[..i])
        invariant changed == Changed(p, kw[..i])
        invariant redraw == Redraw(p, kw[..i])
        invariant charW == old(charW) && lineH == old(lineH) && frame == old(frame) && frameW == old(frameW)
        invariant repaintRequested == old(repaintRequested)
      {
        var a := kw[i];
        assert kw[..i + 1][..i] == kw[..i];
        if Differs(Snapshot(), a) {
          SetAttr(a);
          changed := true;
          if a.SetCharSetName? {
            redraw := true;
          }
        }
        i := i + 1;
      }
      assert kw[..|kw|] == kw;
    }

    /**
     * update_params (lines 108-127). Writes every named parameter whose value
     * differs, re-installs the named character set (an unknown name raises
     * after the parameters were written, and nothing further happens), then
     * refreshes the metrics when anything changed.
     */
    method UpdateParams(kw: seq<Arg>) returns (changed: bool, redraw: bool, err: Option<string>)
      requires Valid() && WellFormed(kw)
      modifies this, renderer
      ensures Valid()
      ensures Snapshot() == ApplyAll(old(Snapshot()), kw)
      ensures changed == Changed(old(Snapshot()), kw)
      ensures redraw == Redraw(old(Snapshot()), kw)
      ensures frame == old(frame) && frameW == old(frameW)
      ensures err.Some? <==> CharSetArg(kw).Some? && CharSets.Lookup(CharSetArg(kw).value).None?
      ensures err.Some? ==> err == CharSetArg(kw)
      ensures CharSetArg(kw).Some? && err.None? ==> renderer.chars == CharSets.Lookup(CharSetArg(kw).value)
      ensures CharSetArg(kw).None? || err.Some? ==> renderer.chars == old(renderer.chars)
      ensures err.None? && changed ==>
        charW == advanceOf(fontSize) && lineH == heightOf(fontSize) + 2 && repaintRequested
      ensures err.Some? || !changed ==>
        charW == old(charW) && lineH == old(lineH) && repaintRequested == old(repaintRequested)
    {
      ghost var p := Snapshot();
      changed, redraw := WriteArgs(kw);
      err := None;
      var name := CharSetArg(kw);
      if name.Some? {
        var chars := CharSets.Lookup(name.value);
        if chars.None? {
          err := name;
          return;
        }
        renderer.SetChars(chars.value);
      }
      if changed {
        UpdateMetrics();
      }
      if redraw {
        repaintRequested := true;
      }
      RedrawImpliesChanged(p, kw);
    }

    /**
     * update_frame (lines 136-158). With no captured frame nothing happens;
     * otherwise the resized capture is rendered with the current parameters,
     * a failed render keeps the previous frame, and a repaint is requested.
     * The capture arrives already resized to ascii_h rows of ascii_w pixels,
     * as the resize of line 53 delivers it.
     */
    method UpdateFrame(captured: bool, resized: Grid<Rgb>)
      requires Valid()
      requires captured ==> 0 <= asciiW && |resized| == asciiH && Rectangular(resized, asciiW)
      modifies this
      ensures Valid() && Snapshot() == old(Snapshot())
      ensures charW == old(charW) && lineH == old(lineH)
      ensures !captured ==> frame == old(frame) && repaintRequested == old(repaintRequested)
      ensures captured ==> repaintRequested
      ensures captured ==>
        var r := RenderFrame(renderer.chars, resized, contrast, autoContrast);
        frame == if r.Success? then Some(r.value) else old(frame)
      ensures captured && frame != old(frame) ==>
        |frame.value.symbols| == asciiH && frameW == asciiW && Rectangular(frame.value.symbols, asciiW)
    {
      if !captured {
        return;
      }
      var r := renderer.Render(resized, contrast, autoContrast);
      if r.Success? {
        forall y | 0 <= y < |r.value.symbols|
          ensures '\n' !in r.value.symbols[y]
        {
          CharSets.CharSetWellFormed(renderer.chars.value);
        }
        frame := Some(r.value);
        frameW := asciiW;
      }
      repaintRequested := true;
    }

    /**
     * paintEvent (lines 160-191): nothing without a frame; otherwise the
     * background fill and one glyph per cell, row by row.
     */
    method PaintEvent() returns (painting: Option<Painting>)
      requires Valid()
      ensures frame.None? ==> painting == None
      ensures frame.Some? ==>
        painting == Some(Painting(Background(invert), FrameGlyphs(frame.value, CurrentStyle())))
    {
      if frame.None? {
        return None;
      }
      var glyphs := DrawCells(frame.value);
      painting := Some(Painting(Background(invert), glyphs));
    }

    /** The nested row and column loops shared by the screen and the PNG paths. */
    method DrawCells(f: Frame) returns (glyphs: seq<Glyph>)
      requires Shaped(f)
      ensures glyphs == FrameGlyphs(f, CurrentStyle())
    {
      var s := CurrentStyle();
      glyphs := [];
      var y := 0;
      while y < |f.symbols|
        invariant 0 <= y <= |f.symbols|
        invariant glyphs == GlyphsUpTo(f, s, y)
      {
        var x := 0;
        while x < |f.symbols[y]|
          invariant 0 <= x <= |f.symbols[y]|
          invariant glyphs == GlyphsUpTo(f, s, y) + RowGlyphs(f, s, y)[..x]
        {
          var pen := if useColor then f.colors[y][x] else Rgb(f.gray[y][x], f.gray[y][x], f.gray[y][x]);
          if invert {
            pen := InvertColor(pen);
          }
          glyphs := glyphs + [Glyph(x * charW, y * lineH + fontSize, f.symbols[y][x], pen)];
          assert RowGlyphs(f, s, y)[..x + 1] == RowGlyphs(f, s, y)[..x] + [CellGlyph(f, s, y, x)];
          x := x + 1;
        }
        assert RowGlyphs(f, s, y)[..x] == RowGlyphs(f, s, y);
        y := y + 1;
      }
    }

    /**
     * save_current_frame_png (lines 193-230): False without a frame;
     * otherwise a canvas of ascii_w*char_w by ascii_h*line_h painted exactly
     * as the screen is, and the result of the PNG encoder.
     */
    method SaveCurrentFramePng(encoderOk: bool) returns (ok: bool, image: Option<Raster>)
      requires Valid()
      ensures frame.None? ==> !ok && image == None
      ensures frame.Some? ==> ok == encoderOk
      ensures frame.Some? ==> image == Some(Raster(asciiW * charW, asciiH * lineH, Background(invert),
                                                  FrameGlyphs(frame.value, CurrentStyle())))
    {
      if frame.None? {
        return false, None;
      }
      var fill := if !invert then Black else White;
      var glyphs := DrawCells(frame.value);
      image := Some(Raster(asciiW * charW, asciiH * lineH, fill, glyphs));
      ok := encoderOk;
    }

    /** get_text_ascii (lines 250-254): "" without a frame, else the rows joined by line breaks. */
    function GetTextAscii(): (text: string)
      reads this, renderer
      requires Valid()
      ensures frame.None? ==> text == ""
      ensures frame.Some? && |frame.value.symbols| == 0 ==> text == ""
      ensures frame.Some? && |frame.value.symbols| >= 1 ==>
        && SplitLines(text) == frame.value.symbols
        && |text| == |frame.value.symbols| * frameW + |frame.value.symbols| - 1
    {
      if frame.None? then ""
      else
        var rows := frame.value.symbols;
        if |rows| >= 1 then SplitJoin(rows); JoinLength(rows, frameW); JoinLines(rows) else JoinLines(rows)
    }

    /**
     * save_current_frame_txt (lines 232-248): False without a frame;
     * otherwise the lines built row by row, joined, and the writer's result.
     * `written` is the text handed to the file.
     */
    method SaveCurrentFrameTxt(writeOk: bool) returns (ok: bool, written: string)
      requires Valid()
      ensures frame.None? ==> !ok && written == ""
      ensures frame.Some? ==> ok == writeOk && written == GetTextAscii()
    {
      if frame.None? {
        return false, "";
      }
      var rows := frame.value.symbols;
      var lines: seq<string> := [];
      var i := 0;
      while i < |rows|
        invariant 0 <= i <= |rows|
        invariant lines == rows[..i]
      {
        lines := lines + [rows[i]];
        i := i + 1;
      }
      assert rows[..|rows|] == rows;
      written := JoinLines(lines);
      ok := writeOk;
    }
  }

  /** The sizing part of MainWindow. */
  class MainWindow {
    const widget: CameraWidget

    constructor (widget: CameraWidget)
      ensures this.widget == widget
    {
      this.widget := widget;
    }

    /**
     * check_orientation (lines 436-458): from the screen geometry and the
     * current height, a target size that is applied through update_params
     * only past the hysteresis threshold.
     */
    method CheckOrientation(screenW: int, screenH: int)
      requires widget.Valid()
      modifies widget, widget.renderer
      ensures widget.Valid() && widget.frame == old(widget.frame) && widget.frameW == old(widget.frameW)
      ensures
        var landscape := screenW > screenH;
        var th := Orientation.TargetHeight(old(widget.asciiH));
        var tw := Orientation.TargetWidth(th, landscape);
        widget.Snapshot() ==
          if Orientation.ShouldApply(old(widget.asciiW), old(widget.asciiH), landscape)
          then old(widget.Snapshot()).(asciiW := tw, asciiH := th)
          else old(widget.Snapshot())
      ensures widget.renderer.chars == old(widget.renderer.chars)
      ensures Orientation.ShouldApply(old(widget.asciiW), old(widget.asciiH), screenW > screenH) ==>
        && widget.charW == widget.advanceOf(widget.fontSize)
        && widget.lineH == widget.heightOf(widget.fontSize) + 2
        && widget.repaintRequested
      ensures !Orientation.ShouldApply(old(widget.asciiW), old(widget.asciiH), screenW > screenH) ==>
        && widget.charW == old(widget.charW) && widget.lineH == old(widget.lineH)
        && widget.repaintRequested == old(widget.repaintRequested)
    {
      var landscape := screenW > screenH;
      var newH := Orientation.TargetHeight(widget.asciiH);
      var newW := Orientation.TargetWidth(newH, landscape);
      if Orientation.Abs(newW - widget.asciiW) > 5 || Orientation.Abs(newH - widget.asciiH) > 3 {
        var kw := [SetAsciiW(newW), SetAsciiH(newH)];
        ghost var p := widget.Snapshot();
        ApplySize(p, newW, newH);
        ChangedIffParamsDiffer(p, kw);
        var _, _, _ := widget.UpdateParams(kw);
      }
    }
  }
}
