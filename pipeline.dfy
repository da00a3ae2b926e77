/**
 * The post-resize arithmetic of ASCIIRenderer (ascii_camera.py): BT.601 luma,
 * manual or automatic contrast, quantisation of each cell to an index into the
 * active character string, and the Renderer object that holds that string.
 *
 * The floating-point arithmetic of the source is modelled over exact reals.
 */
module Pipeline {
  import opened Results

  /** An 8-bit channel value, as numpy's uint8. */
  type Byte = x: int | 0 <= x < 256

  datatype Rgb = Rgb(r: Byte, g: Byte, b: Byte)

  /** A row-major grid: the resized frame has out_h rows of out_w cells. */
  type Grid<T> = seq<seq<T>>

  /** numpy's `size > 0`: the grid holds at least one cell. */
  predicate HasCells<T>(g: Grid<T>) {
    exists y | 0 <= y < |g| :: |g[y]| > 0
  }

  /** Two grids have the same number of rows and the same length row by row. */
  predicate SameShape<T, U>(a: Grid<T>, b: Grid<U>) {
    |a| == |b| && forall y | 0 <= y < |a| :: |a[y]| == |b[y]|
  }

  lemma SameShapeCells<T, U>(a: Grid<T>, b: Grid<U>)
    requires SameShape(a, b)
    ensures HasCells(a) <==> HasCells(b)
  {
    if HasCells(a) {
      var y :| 0 <= y < |a| && |a[y]| > 0;
      assert |b[y]| > 0;
    }
    if HasCells(b) {
      var y :| 0 <= y < |b| && |b[y]| > 0;
      assert |a[y]| > 0;
    }
  }

  /** Every cell of a real-valued grid lies in [0, 255]. */
  predicate InByteRange(g: Grid<real>) {
    forall y, x | 0 <= y < |g| && 0 <= x < |g[y]| :: 0.0 <= g[y][x] <= 255.0
  }

  /** The cells of a grid in row-major order. */
  function Flatten<T>(g: Grid<T>): (s: seq<T>)
  {
    if |g| == 0 then [] else Flatten(g[..|g| - 1]) + g[|g| - 1]
  }

  lemma {:induction false} FlattenContains<T>(g: Grid<T>, y: int, x: int)
    requires 0 <= y < |g| && 0 <= x < |g[y]|
    ensures g[y][x] in Flatten(g)
  {
    if y < |g| - 1 {
      FlattenContains(g[..|g| - 1], y, x);
    }
  }

  lemma {:induction false} FlattenMember<T>(g: Grid<T>, v: T)
    requires v in Flatten(g)
    ensures exists y, x :: 0 <= y < |g| && 0 <= x < |g[y]| && g[y][x] == v
  {
    var init := g[..|g| - 1];
    if v in Flatten(init) {
      FlattenMember(init, v);
      var y, x :| 0 <= y < |init| && 0 <= x < |init[y]| && init[y][x] == v;
      assert g[y][x] == v;
    } else {
      var x :| 0 <= x < |g[|g| - 1]| && g[|g| - 1][x] == v;
    }
  }

  lemma {:induction false} FlattenNonEmpty<T>(g: Grid<T>)
    ensures |Flatten(g)| > 0 <==> HasCells(g)
  {
    if |Flatten(g)| > 0 {
      FlattenMember(g, Flatten(g)[0]);
    }
    if HasCells(g) {
      var y :| 0 <= y < |g| && |g[y]| > 0;
      FlattenContains(g, y, 0);
    }
  }

  // ---------------------------------------------------------------- luma

  /** ITU-R BT.601 luma of one pixel (ascii_camera.py line 56). */
  function Luma(p: Rgb): (l: real)
    ensures 0.0 <= l <= 255.0
    ensures p.r == p.g == p.b ==> l == p.r as real
  {
    0.299 * p.r as real + 0.587 * p.g as real + 0.114 * p.b as real
  }

  function LumaGrid(img: Grid<Rgb>): (gray: Grid<real>)
    ensures SameShape(img, gray) && InByteRange(gray)
    ensures forall y, x | 0 <= y < |img| && 0 <= x < |img[y]| :: gray[y][x] == Luma(img[y][x])
  {
    seq(|img|, y requires 0 <= y < |img| => seq(|img[y]|, x requires 0 <= x < |img[y]| => Luma(img[y][x])))
  }

  // ---------------------------------------------------------------- contrast

  function Min(a: real, b: real): real { if a <= b then a else b }
  function Max(a: real, b: real): real { if a >= b then a else b }

  /** numpy's clip: minimum(maximum(x, lo), hi), so hi wins when lo > hi. */
  function Clip(x: real, lo: real, hi: real): (r: real)
    ensures lo <= hi ==> lo <= r <= hi
    ensures lo <= x <= hi ==> r == x
    ensures lo > hi ==> r == hi
  {
    Min(Max(x, lo), hi)
  }

  lemma MulMonotone(a: real, b: real, k: real)
    requires a <= b && k >= 0.0
    ensures a * k <= b * k
  {
  }

  lemma ClipMonotone(x1: real, x2: real, lo: real, hi: real)
    requires x1 <= x2
    ensures Clip(x1, lo, hi) <= Clip(x2, lo, hi)
  {
  }

  /** Manual contrast around the mid-grey 128, clamped to [0, 255] (line 63). */
  function ManualContrast(g: real, contrast: real): (r: real)
    ensures 0.0 <= r <= 255.0
    ensures contrast == 1.0 && 0.0 <= g <= 255.0 ==> r == g
  {
    Clip(128.0 + (g - 128.0) * contrast, 0.0, 255.0)
  }

  /** For a non-negative gain, a brighter cell never comes out darker. */
  lemma ManualContrastMonotone(g1: real, g2: real, contrast: real)
    requires g1 <= g2 && contrast >= 0.0
    ensures ManualContrast(g1, contrast) <= ManualContrast(g2, contrast)
  {
    MulMonotone(g1 - 128.0, g2 - 128.0, contrast);
    ClipMonotone(128.0 + (g1 - 128.0) * contrast, 128.0 + (g2 - 128.0) * contrast, 0.0, 255.0);
  }

  /** The smallest cell value (numpy's min). */
  function MinOf(s: seq<real>): (m: real)
    requires |s| > 0
    ensures m in s && forall v | v in s :: m <= v
  {
    if |s| == 1 then s[0]
    else
      assert forall v | v in s :: v in s[..|s| - 1] || v == s[|s| - 1];
      Min(MinOf(s[..|s| - 1]), s[|s| - 1])
  }

  /** The largest cell value (numpy's max). */
  function MaxOf(s: seq<real>): (m: real)
    requires |s| > 0
    ensures m in s && forall v | v in s :: v <= m
  {
    if |s| == 1 then s[0]
    else
      assert forall v | v in s :: v in s[..|s| - 1] || v == s[|s| - 1];
      Max(MaxOf(s[..|s| - 1]), s[|s| - 1])
  }

  /** The min-max stretch of one cell (line 61). */
  function Stretch(g: real, lo: real, hi: real): real
    requires lo < hi
  {
    255.0 * (g - lo) / (hi - lo)
  }

  lemma StretchBounds(g: real, lo: real, hi: real)
    requires lo <= g <= hi && lo < hi
    ensures 0.0 <= Stretch(g, lo, hi) <= 255.0
    ensures g == lo ==> Stretch(g, lo, hi) == 0.0
    ensures g == hi ==> Stretch(g, lo, hi) == 255.0
  {
    var d := hi - lo;
    assert 0.0 <= (g - lo) / d <= 1.0 by {
      assert (g - lo) <= d;
    }
    assert Stretch(g, lo, hi) == 255.0 * ((g - lo) / d);
  }

  /**
   * Brightness normalisation of lines 58-63: a min-max stretch when
   * auto-contrast is on and the grid has cells (left as it is when all cells
   * are equal), the manual contrast otherwise.
   */
  function Normalize(gray: Grid<real>, contrast: real, auto: bool): (n: Grid<real>)
    ensures SameShape(gray, n)
  {
    var cells := Flatten(gray);
    if auto && |cells| > 0 then
      var lo := MinOf(cells);
      var hi := MaxOf(cells);
      if hi > lo then
        seq(|gray|, y requires 0 <= y < |gray| =>
          seq(|gray[y]|, x requires 0 <= x < |gray[y]| => Stretch(gray[y][x], lo, hi)))
      else
        gray
    else
      seq(|gray|, y requires 0 <= y < |gray| =>
        seq(|gray[y]|, x requires 0 <= x < |gray[y]| => ManualContrast(gray[y][x], contrast)))
  }

  /** Normalised brightness always lies in [0, 255] when the luma does. */
  lemma NormalizeInRange(gray: Grid<real>, contrast: real, auto: bool)
    requires InByteRange(gray)
    ensures InByteRange(Normalize(gray, contrast, auto))
  {
    var cells := Flatten(gray);
    var n := Normalize(gray, contrast, auto);
    if auto && |cells| > 0 {
      var lo, hi := MinOf(cells), MaxOf(cells);
      if hi > lo {
        forall y, x | 0 <= y < |n| && 0 <= x < |n[y]|
          ensures 0.0 <= n[y][x] <= 255.0
        {
          FlattenContains(gray, y, x);
          StretchBounds(gray[y][x], lo, hi);
        }
      }
    }
  }

  /** Auto-contrast sends every darkest cell to 0 and every brightest cell to 255. */
  lemma AutoContrastExtremes(gray: Grid<real>, contrast: real, y: int, x: int)
    requires 0 <= y < |gray| && 0 <= x < |gray[y]|
    requires |Flatten(gray)| > 0 && MinOf(Flatten(gray)) < MaxOf(Flatten(gray))
    ensures gray[y][x] == MinOf(Flatten(gray)) ==> Normalize(gray, contrast, true)[y][x] == 0.0
    ensures gray[y][x] == MaxOf(Flatten(gray)) ==> Normalize(gray, contrast, true)[y][x] == 255.0
  {
    FlattenContains(gray, y, x);
    StretchBounds(gray[y][x], MinOf(Flatten(gray)), MaxOf(Flatten(gray)));
  }

  /** With two distinct values present, the stretched grid reaches both 0 and 255. */
  lemma AutoContrastFullRange(gray: Grid<real>, contrast: real)
    requires exists y1, x1, y2, x2 | 0 <= y1 < |gray| && 0 <= x1 < |gray[y1]| && 0 <= y2 < |gray| && 0 <= x2 < |gray[y2]|
      :: gray[y1][x1] != gray[y2][x2]
    ensures exists y, x | 0 <= y < |gray| && 0 <= x < |gray[y]| :: Normalize(gray, contrast, true)[y][x] == 0.0
    ensures exists y, x | 0 <= y < |gray| && 0 <= x < |gray[y]| :: Normalize(gray, contrast, true)[y][x] == 255.0
  {
    var y1, x1, y2, x2 :| 0 <= y1 < |gray| && 0 <= x1 < |gray[y1]| && 0 <= y2 < |gray| && 0 <= x2 < |gray[y2]|
      && gray[y1][x1] != gray[y2][x2];
    var cells := Flatten(gray);
    FlattenContains(gray, y1, x1);
    FlattenContains(gray, y2, x2);
    var lo, hi := MinOf(cells), MaxOf(cells);
    assert lo < hi;
    FlattenMember(gray, lo);
    var ya, xa :| 0 <= ya < |gray| && 0 <= xa < |gray[ya]| && gray[ya][xa] == lo;
    AutoContrastExtremes(gray, contrast, ya, xa);
    FlattenMember(gray, hi);
    var yb, xb :| 0 <= yb < |gray| && 0 <= xb < |gray[yb]| && gray[yb][xb] == hi;
    AutoContrastExtremes(gray, contrast, yb, xb);
  }

  /** A flat field under auto-contrast is passed through: there is no division by zero. */
  lemma AutoContrastFlatField(gray: Grid<real>, contrast: real, c: real)
    requires forall y, x | 0 <= y < |gray| && 0 <= x < |gray[y]| :: gray[y][x] == c
    requires HasCells(gray)
    ensures Normalize(gray, contrast, true) == gray
  {
    var cells := Flatten(gray);
    FlattenNonEmpty(gray);
    FlattenMember(gray, MinOf(cells));
    FlattenMember(gray, MaxOf(cells));
  }

  /** An empty grid under auto-contrast takes the manual branch. */
  lemma AutoContrastEmptyGrid(gray: Grid<real>, contrast: real)
    requires !HasCells(gray)
    ensures Normalize(gray, contrast, true) == Normalize(gray, contrast, false)
  {
    FlattenNonEmpty(gray);
  }

  // ---------------------------------------------------------------- quantisation

  /** numpy's astype(int): truncation toward zero. */
  function Trunc(x: real): (i: int)
    ensures x >= 0.0 ==> i == x.Floor
    ensures x < 0.0 ==> i == -((-x).Floor)
  {
    if x >= 0.0 then x.Floor else -((-x).Floor)
  }

  /**
   * The index into a character string of n glyphs (line 65). With no glyphs
   * numpy's clip(x, 0, -1) yields -1 for every cell.
   */
  function QuantIndex(g: real, n: nat): (i: int)
    ensures n >= 1 ==> 0 <= i < n
    ensures n == 0 ==> i == -1
  {
    Trunc(Clip(Scale(g, n), 0.0, (n - 1) as real))
  }

  /** The brightness as a fraction of full white, times the largest index. */
  function Scale(g: real, n: nat): real
  {
    g / 255.0 * (n - 1) as real
  }

  lemma ScaleMonotone(g1: real, g2: real, n: nat)
    requires g1 <= g2 && n >= 1
    ensures Scale(g1, n) <= Scale(g2, n)
  {
    MulMonotone(g1 / 255.0, g2 / 255.0, (n - 1) as real);
  }

  lemma TruncMonotone(a: real, b: real)
    requires 0.0 <= a <= b
    ensures Trunc(a) <= Trunc(b)
  {
  }

  /** Brighter cells never get a lower index. */
  lemma QuantIndexMonotone(g1: real, g2: real, n: nat)
    requires g1 <= g2
    ensures QuantIndex(g1, n) <= QuantIndex(g2, n)
  {
    if n >= 1 {
      var k := (n - 1) as real;
      ScaleMonotone(g1, g2, n);
      ClipMonotone(Scale(g1, n), Scale(g2, n), 0.0, k);
      TruncMonotone(Clip(Scale(g1, n), 0.0, k), Clip(Scale(g2, n), 0.0, k));
    }
  }

  /** Black maps to the first glyph and full white to the last. */
  lemma QuantIndexEnds(n: nat)
    requires n >= 1
    ensures QuantIndex(0.0, n) == 0
    ensures QuantIndex(255.0, n) == n - 1
  {
  }

  /** On [0, 255] the clamp is inactive: the index is floor(g * (n-1) / 255). */
  lemma QuantIndexFloor(g: real, n: nat)
    requires n >= 1 && 0.0 <= g <= 255.0
    ensures QuantIndex(g, n) == (g * (n - 1) as real / 255.0).Floor
  {
    var k := (n - 1) as real;
    assert Scale(g, n) == g / 255.0 * k;
    assert 0.0 <= g / 255.0 <= 1.0;
    assert 0.0 <= g / 255.0 * k <= k by {
      assert (1.0 - g / 255.0) * k >= 0.0;
    }
    assert g / 255.0 * k == g * k / 255.0;
  }

  /** The glyph grid: every cell looks up its quantised index (line 66). */
  function Symbols(norm: Grid<real>, chars: string): (s: Grid<char>)
    requires |chars| > 0 || !HasCells(norm)
    ensures SameShape(norm, s)
    ensures forall y, x | 0 <= y < |s| && 0 <= x < |s[y]| :: s[y][x] in chars
  {
    seq(|norm|, y requires 0 <= y < |norm| =>
      seq(|norm[y]|, x requires 0 <= x < |norm[y]| => chars[QuantIndex(norm[y][x], |chars|)]))
  }

  /** astype(np.uint8) on brightness that is already in [0, 255]. */
  function GrayBytes(norm: Grid<real>): (b: Grid<Byte>)
    requires InByteRange(norm)
    ensures SameShape(norm, b)
    ensures forall y, x | 0 <= y < |b| && 0 <= x < |b[y]| :: b[y][x] as real <= norm[y][x] < b[y][x] as real + 1.0
  {
    seq(|norm|, y requires 0 <= y < |norm| =>
      seq(|norm[y]|, x requires 0 <= x < |norm[y]| => norm[y][x].Floor as Byte))
  }

  // ---------------------------------------------------------------- renderer

  datatype RenderError =
    | CharSetNotInitialized   // ValueError raised before any work (line 50)
    | IndexOutOfRange         // chars[-1] on an empty character array (line 66)

  /** What render returns: glyphs, the resized colours and the brightness bytes. */
  datatype Frame = Frame(symbols: Grid<char>, colors: Grid<Rgb>, gray: Grid<Byte>)

  /** The three grids of a frame have the glyph grid's shape. */
  predicate Shaped(f: Frame) {
    SameShape(f.symbols, f.colors) && SameShape(f.symbols, f.gray)
  }

  /**
   * render, from the resized grid on (lines 49-68). Fails when no string is
   * installed, or when the installed string is empty and the grid has a cell;
   * otherwise each glyph is the string's entry at the quantised normalised
   * luma, the colours are the resized pixels and the grey bytes the floor of
   * the normalised luma.
   */
  function RenderFrame(chars: Option<string>, img: Grid<Rgb>, contrast: real, auto: bool): (r: Result<Frame, RenderError>)
    ensures chars.None? ==> r == Failure(CharSetNotInitialized)
    ensures chars.Some? ==> (r.Failure? <==> |chars.value| == 0 && HasCells(img))
    ensures r.Success? ==>
      var norm := Normalize(LumaGrid(img), contrast, auto);
      && Shaped(r.value) && SameShape(img, r.value.symbols)
      && r.value.colors == img
      && InByteRange(norm)
      && (forall y, x | 0 <= y < |img| && 0 <= x < |img[y]| ::
            && QuantIndex(norm[y][x], |chars.value|) < |chars.value|
            && r.value.symbols[y][x] == chars.value[QuantIndex(norm[y][x], |chars.value|)]
            && r.value.gray[y][x] == norm[y][x].Floor)
  {
    if chars.None? then Failure(CharSetNotInitialized)
    else
      var norm := Normalize(LumaGrid(img), contrast, auto);
      NormalizeInRange(LumaGrid(img), contrast, auto);
      SameShapeCells(img, norm);
      if |chars.value| == 0 && HasCells(img) then Failure(IndexOutOfRange)
      else Success(Frame(Symbols(norm, chars.value), img, GrayBytes(norm)))
  }

  class Renderer {
    var chars: Option<string>
    var n: nat

    ghost predicate Valid()
      reads this
    {
      n == if chars.Some? then |chars.value| else 0
    }

    constructor ()
      ensures Valid() && chars == None
    {
      chars := None;
      n := 0;
    }

    /** set_chars: installs a new character string. */
    method SetChars(s: string)
      modifies this
      ensures Valid() && chars == Some(s) && n == |s|
    {
      chars := Some(s);
      n := |s|;
    }

    /** render, from the resized grid on, with the installed string. */
    method Render(img: Grid<Rgb>, contrast: real, auto: bool) returns (r: Result<Frame, RenderError>)
      requires Valid()
      ensures r == RenderFrame(chars, img, contrast, auto)
    {
      r := RenderFrame(chars, img, contrast, auto);
    }
  }
}
