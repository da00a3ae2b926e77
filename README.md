# ASCII camera core, modelled in Dafny

This project models the deterministic core of `ascii_camera.py`, a Qt app that
turns live camera frames into coloured ASCII art. It covers:

* the glyph pipeline of `ASCIIRenderer`. It computes BT.601 luma on the resized
  RGB grid, normalises it by manual contrast around 128 or by a min–max
  auto-contrast stretch, and quantises each cell to an index into the active
  character string (`pipeline.dfy`, `charsets.dfy`);
* the per-cell pen colour, the background rule and the glyph placement that the
  screen painter and the PNG export share (`paint.dfy`);
* the text export: rows joined by line breaks (`text.dfy`);
* the change-detecting `update_params`, stated as a fold over the keyword
  arguments (`params.dfy`);
* the sizing rule of `check_orientation` (`orientation.dfy`);
* the widget and window state that ties these together, as classes with
  fields and methods (`widget.dfy`).

Brightness arithmetic is over exact reals. numpy's `astype(int)` is truncation
toward zero (`Pipeline.Trunc`). `astype(np.uint8)` is `floor` on values already
in [0, 255]. numpy's `clip` is `minimum(maximum(x, lo), hi)`, so with an empty
character string every index is -1. Indexing an empty array at -1 raises, so
`RenderFrame` fails with `IndexOutOfRange` whenever the grid has a cell. The
portrait ratio 1.4 is the exact rational 7/5, which is an idealisation of the
double the source multiplies by.

Painting is modelled by the list of `drawText` calls it makes (`Paint.Glyph`:
origin, glyph, pen colour) and the fill colour. The screen path
(`PaintEvent`) and the PNG path (`SaveCurrentFramePng`) are both proved to
draw `Paint.FrameGlyphs` of the same frame and style, so they paint identical
glyphs in identical colours.

## Model

| member | source | states |
|---|---|---|
| Pipeline.Luma | ascii_camera.py:56 | BT.601 luma of a pixel lies in [0, 255] (the weights sum to 1) and equals the channel value on a grey pixel |
| Pipeline.LumaGrid | ascii_camera.py:56 | the luma grid has the image's shape, every cell is that pixel's luma, all in [0, 255] |
| Pipeline.Clip | ascii_camera.py:63 | numpy clip: within [lo, hi] when lo <= hi, identity inside the range, hi when lo > hi |
| Pipeline.ManualContrast | ascii_camera.py:63 | manual contrast output is always in [0, 255]; contrast 1.0 is the identity on luma in [0, 255] |
| Pipeline.ManualContrastMonotone | ascii_camera.py:63 | for a non-negative gain a brighter cell never comes out darker |
| Pipeline.MinOf | ascii_camera.py:59 | gray.min(): a cell value no greater than any cell |
| Pipeline.MaxOf | ascii_camera.py:59 | gray.max(): a cell value no smaller than any cell |
| Pipeline.Stretch | ascii_camera.py:61 | the min–max stretch 255(g - g_min)/(g_max - g_min), defined only when g_max > g_min; StretchBounds proves it maps [g_min, g_max] onto [0, 255] |
| Pipeline.StretchBounds | ascii_camera.py:61 | the min–max stretch keeps [g_min, g_max] inside [0, 255], sending g_min to 0 and g_max to 255 |
| Pipeline.Normalize | ascii_camera.py:58-63 | the normalised grid keeps the luma grid's shape; NormalizeInRange and the AutoContrast lemmas prove what each of its three branches yields |
| Pipeline.NormalizeInRange | ascii_camera.py:58-63 | whichever branch runs, normalised brightness stays in [0, 255] |
| Pipeline.AutoContrastExtremes | ascii_camera.py:58-61 | when g_max > g_min, every darkest cell becomes 0 and every brightest cell 255 |
| Pipeline.AutoContrastFullRange | ascii_camera.py:58-61 | a grid with two distinct values is stretched to reach both 0 and 255 |
| Pipeline.AutoContrastFlatField | ascii_camera.py:60 | when all cells are equal, auto-contrast leaves the grid unchanged (no division) |
| Pipeline.AutoContrastEmptyGrid | ascii_camera.py:58 | an empty grid with auto-contrast on takes the manual branch |
| Pipeline.Trunc | ascii_camera.py:65 | astype(int) truncates toward zero on both signs |
| Pipeline.QuantIndex | ascii_camera.py:65 | with n >= 1 glyphs the index lies in [0, n-1]; with none it is -1 |
| Pipeline.QuantIndexMonotone | ascii_camera.py:65 | the index is non-decreasing in normalised brightness |
| Pipeline.QuantIndexEnds | ascii_camera.py:65 | brightness 0 selects the first glyph and 255 the last |
| Pipeline.QuantIndexFloor | ascii_camera.py:65 | on [0, 255] the clamp is inactive and the index is floor(g(n-1)/255) |
| Pipeline.Symbols | ascii_camera.py:66 | chars[indices] keeps the grid's shape and every glyph comes from the character string |
| Pipeline.GrayBytes | ascii_camera.py:68 | the grey bytes are the floor of each normalised cell |
| Pipeline.RenderFrame | ascii_camera.py:48-68 | fails when no set is installed or when an empty set meets a non-empty grid; otherwise glyph = chars[QuantIndex(normalised luma)], colours = the resized pixels, grey = floor of normalised luma, all of one shape |
| Pipeline.Renderer.constructor | ascii_camera.py:40-42 | a new renderer has no character set |
| Pipeline.Renderer.SetChars | ascii_camera.py:44-46 | installs the string and its length |
| Pipeline.Renderer.Render | ascii_camera.py:48-68 | returns RenderFrame of the installed string |
| CharSets.Lookup | ascii_camera.py:16-20 | CHAR_SETS[name] is defined exactly for Detailed, Newspaper and Block |
| CharSets.CharSetWellFormed | ascii_camera.py:16-20 | every character set is non-empty (70, 9 and 4 glyphs) and has no line break |
| Params.CharSetArg | ascii_camera.py:121-122 | kwargs['char_set_name'] is present exactly when an argument names it, and is that argument's value |
| Params.Write | ascii_camera.py:116 | setattr of one of the eight parameters; WriteEffect proves it sets that field and keeps the others |
| Params.Apply | ascii_camera.py:113-117 | one loop step: writes only when the argument names a field whose value differs; NoDifferenceNoWrite and PrefixAgrees prove what each step sees and does |
| Params.ApplyAll | ascii_camera.py:112-119 | the parameters after the loop over kwargs in order; ApplyAllEffect proves the named fields end up with their values and the others are kept |
| Params.Changed | ascii_camera.py:109-117 | the changed flag after the loop; ChangedIffParamsDiffer proves it is raised iff the parameters end up different |
| Params.Redraw | ascii_camera.py:110-119 | the redraw flag after the loop; RedrawIffCharSetChanges proves it is raised iff char_set_name names a different set |
| Params.WriteEffect | ascii_camera.py:116 | setattr stores the value in its field and leaves every other field alone |
| Params.UnnamedFieldUnchanged | ascii_camera.py:112-119 | a parameter no argument names keeps its value |
| Params.NamedFieldWritten | ascii_camera.py:112-119 | a parameter an argument names ends up holding that argument's value |
| Params.ApplyAllEffect | ascii_camera.py:112-119 | the update writes exactly the named parameters with their values and keeps all others |
| Params.PrefixAgrees | ascii_camera.py:113-115 | the comparison old != v sees the original value, since keys are distinct |
| Params.ChangedMeansSomeDiffers | ascii_camera.py:109-117 | changed is true iff some argument names an existing field whose value differs |
| Params.NoDifferenceNoWrite | ascii_camera.py:112-117 | when no argument differs nothing is written |
| Params.ChangedIffParamsDiffer | ascii_camera.py:109-117 | changed is true iff the parameters end up different from before |
| Params.ReapplyIsNoOp | ascii_camera.py:108-127 | applying the same update again writes nothing and reports no change |
| Params.RedrawIffCharSetChanges | ascii_camera.py:110-119 | redraw is flagged iff a char_set_name argument names a different set |
| Params.RedrawImpliesChanged | ascii_camera.py:115-119 | a redraw is only flagged together with a change |
| Params.ApplySize | ascii_camera.py:456 | the two-argument update of check_orientation sets exactly width and height |
| Paint.Background | ascii_camera.py:169-170 | the fill is white iff invert, black otherwise |
| Paint.InvertColor | ascii_camera.py:183-184 | the channel-wise 255 - c of the invert option; InvertInvolutive proves it is its own inverse |
| Paint.InvertInvolutive | ascii_camera.py:183-184 | 255-c applied twice restores the colour |
| Paint.CellColor | ascii_camera.py:176-184 | without colour all channels equal the grey byte (or 255 minus it under invert); with colour the pen is the pixel or its channel-wise inverse |
| Paint.InvertToggleRoundTrip | ascii_camera.py:176-184 | toggling invert on then off restores every pen colour exactly |
| Paint.CellGlyph | ascii_camera.py:175-191 | the drawText call for cell (y, x): origin (x*char_w, y*line_h+font_size), the cell's glyph and CellColor's pen; GlyphAt proves it is the call made at position y*W+x |
| Paint.RowGlyphs | ascii_camera.py:174-191 | one glyph per cell of the row |
| Paint.GlyphsUpTo | ascii_camera.py:173-191 | the calls of the first k rows in drawing order; GlyphAt proves there are k*W of them on a frame W wide |
| Paint.FrameGlyphs | ascii_camera.py:172-191 | every drawText call of the two nested loops; DrawCells, PaintEvent and SaveCurrentFramePng are proved to produce exactly this list |
| Paint.GlyphAt | ascii_camera.py:172-191 | on an H x W frame the painter gets H*W glyphs and the one at y*W+x is cell (y,x) at (x*char_w, y*line_h+font_size) |
| Text.JoinLines | ascii_camera.py:236-239 | "\n".join of the rows; SplitJoin proves splitting it gives back the rows and JoinLength gives its length |
| Text.SplitJoin | ascii_camera.py:250-254 | splitting the export on line breaks gives back the rows, as no glyph is a line break |
| Text.JoinLength | ascii_camera.py:236-239 | H >= 1 rows of W glyphs export to exactly H*W + H - 1 characters: the glyphs and one break between each two rows |
| Text.JoinExample | ascii_camera.py:254 | rows "ab" and "cd" export as "ab\ncd" |
| Orientation.Ratio | ascii_camera.py:444-447 | 2.0 in landscape and 1.4 in portrait; TargetWidthOfHeight proves the widths they give |
| Orientation.TargetHeight | ascii_camera.py:450 | the target height is the current height clamped to [20, 40] |
| Orientation.TargetWidth | ascii_camera.py:451-452 | the truncated height times the ratio, clamped to [20, 120]; TargetWidthOfHeight proves it is 2h or floor(7h/5) on every target height |
| Orientation.ShouldApply | ascii_camera.py:455 | the hysteresis test; SettledAfterApply, TurningResizes, HysteresisKeepsSize and HeightOutsideBandApplies prove when it holds |
| Orientation.TargetWidthOfHeight | ascii_camera.py:444-452 | the target width is 2h in landscape and floor(7h/5) in portrait, so its [20, 120] clamp never binds |
| Orientation.SettledAfterApply | ascii_camera.py:450-456 | once a target is applied, the next check changes nothing |
| Orientation.TurningResizes | ascii_camera.py:441-456 | a grid at one orientation's target is always resized when the other orientation is detected |
| Orientation.HysteresisKeepsSize | ascii_camera.py:455 | a width within 5 of the target with a height in [20, 40] is kept |
| Orientation.HeightOutsideBandApplies | ascii_camera.py:455 | a height outside [17, 43] always triggers a resize |
| Widget.CameraWidget.constructor | ascii_camera.py:72-94 | the widget starts with DEFAULTS, an 8x14 cell, no frame and the Detailed set installed |
| Widget.CameraWidget.SetAttr | ascii_camera.py:116 | setattr changes exactly the named parameter |
| Widget.CameraWidget.UpdateMetrics | ascii_camera.py:129-134 | the cell size becomes the font's advance and height + 2, and a repaint is requested |
| Widget.CameraWidget.WriteArgs | ascii_camera.py:109-119 | the loop leaves the parameters at ApplyAll and the flags at Changed and Redraw |
| Widget.CameraWidget.UpdateParams | ascii_camera.py:108-127 | parameters as ApplyAll; the named set is re-installed, or a KeyError leaves the fields written and nothing else done; metrics refreshed iff changed |
| Widget.CameraWidget.UpdateFrame | ascii_camera.py:136-158 | no capture changes nothing; otherwise a successful render replaces the frame, a failed one keeps the previous, and a repaint is requested; the new frame has ascii_h rows of ascii_w glyphs, as the resize to (ascii_w, ascii_h) delivers |
| Widget.CameraWidget.DrawCells | ascii_camera.py:172-191 | the nested row and column loops draw exactly FrameGlyphs of the frame |
| Widget.CameraWidget.PaintEvent | ascii_camera.py:160-191 | nothing without a frame; otherwise the background fill and FrameGlyphs |
| Widget.CameraWidget.SaveCurrentFramePng | ascii_camera.py:193-230 | False without a frame; otherwise an ascii_w*char_w by ascii_h*line_h canvas with the same fill and glyphs as the screen |
| Widget.CameraWidget.GetTextAscii | ascii_camera.py:250-254 | "" without a frame or with no rows; otherwise text whose line-break split is the glyph rows and whose length is H*W + H - 1 |
| Widget.CameraWidget.SaveCurrentFrameTxt | ascii_camera.py:232-248 | False without a frame; otherwise the lines built row by row, joined, equal the clipboard text |
| Widget.MainWindow.CheckOrientation | ascii_camera.py:436-458 | the widget gets the clamped target size iff the hysteresis threshold is passed, and then the cell size is refreshed from the font and a repaint requested; otherwise the parameters, cell size and repaint flag are all unchanged |

## Left out

- Camera capture, its settings and the frame timer (lines 96-106, 137-139): device I/O. `UpdateFrame` takes whether a frame was read and the resized grid as inputs.
- The Lanczos resize through PIL (lines 52-54): a foreign library. `RenderFrame` starts from the resized `out_h x out_w` RGB grid.
- Qt font metrics (lines 130-133): `advanceOf` and `heightOf` are given functions of the point size.
- `QPainter.drawText` and `QImage` rendering: only the fill colour, the canvas size and the glyph origins and pens are modelled.
- File writes, directory creation, the clipboard and message boxes (lines 229-230, 241-248, 483-500): the writer's and the encoder's success are inputs. An OSError from `os.makedirs` is not modelled.
- The FPS moving average (line 142): floating-point telemetry with no behaviour depending on it.
- `ControlPanel`, the fullscreen toggle, the status bar and the dark theme (lines 263-384, 460-534): UI construction.
- Widget.MainWindow.CheckOrientation: the slider `setValue` calls after the update (lines 457-458), and the `update_params` call their change signal echoes back, are UI wiring and are not modelled.
- Widget.CameraWidget.UpdateParams: keys naming widget attributes other than the eight parameters (which `hasattr` would also accept), and values of another type than the field's, are not modelled. The callers pass only the eight parameters with their own types.
- Pipeline.RenderFrame: the source works in IEEE doubles; the model works over exact reals and does not reproduce double rounding.
- Orientation.TargetWidthOfHeight: the portrait ratio is the exact rational 7/5, not the double nearest to 1.4.
- Widget.CameraWidget.UpdateFrame: the "Render error" print is not modelled. The resize is taken to deliver ascii_h rows of ascii_w pixels, so the errors PIL raises for a negative size are not modelled either.
- Widget.CameraWidget.PaintEvent: Qt's clearing of the pending-repaint flag after a paint is not modelled; `repaintRequested` only records that `update()` was called.
