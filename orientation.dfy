/**
 * The sizing rule of MainWindow.check_orientation (ascii_camera.py lines
 * 436-458): a target grid size from the orientation and the current height,
 * applied only past a hysteresis threshold.
 */
module Orientation {
  import Pipeline

  function Abs(v: int): nat {
    if v < 0 then -v else v
  }

  /** Width per row of height: 2.0 in landscape, 1.4 (exactly 7/5 here) in portrait. */
  function Ratio(landscape: bool): real {
    if landscape then 2.0 else 1.4
  }

  function Min(a: int, b: int): int {
    if a < b then a else b
  }

  function Max(a: int, b: int): int {
    if a < b then b else a
  }

  /** The current height pulled into [20, 40]. */
  function TargetHeight(h: int): (t: int)
    ensures 20 <= t <= 40
    ensures 20 <= h <= 40 ==> t == h
    ensures h < 20 ==> t == 20
    ensures h > 40 ==> t == 40
  {
    Min(40, Max(20, h))
  }

  /** The height times the ratio, truncated, then pulled into [20, 120]. */
  function TargetWidth(h: int, landscape: bool): int {
    Max(20, Min(120, Pipeline.Trunc(h as real * Ratio(landscape))))
  }

  /** The hysteresis test: the width is off by more than 5 or the height by more than 3. */
  predicate ShouldApply(curW: int, curH: int, landscape: bool) {
    var th := TargetHeight(curH);
    Abs(TargetWidth(th, landscape) - curW) > 5 || Abs(th - curH) > 3
  }

  /**
   * For every target height the width is twice it in landscape and
   * floor(7h/5) in portrait, so the [20, 120] clamp never binds.
   */
  lemma TargetWidthOfHeight(h: int, landscape: bool)
    requires 20 <= h <= 40
    ensures landscape ==> TargetWidth(h, landscape) == 2 * h
    ensures !landscape ==> TargetWidth(h, landscape) == (7 * h) / 5
    ensures 28 <= TargetWidth(h, landscape) <= 80
  {
    var x := h as real * Ratio(landscape);
    if !landscape {
      var q := (7 * h) / 5;
      assert x == (7 * h) as real / 5.0;
      assert q as real <= x < q as real + 1.0;
    }
  }

  /** Once applied, the target is a fixed point: the next check changes nothing. */
  lemma SettledAfterApply(curW: int, curH: int, landscape: bool)
    ensures !ShouldApply(TargetWidth(TargetHeight(curH), landscape), TargetHeight(curH), landscape)
  {
  }

  /** Turning the device always resizes a grid that sits at the other orientation's target. */
  lemma TurningResizes(h: int, landscape: bool)
    requires 20 <= h <= 40
    ensures ShouldApply(TargetWidth(h, landscape), h, !landscape)
  {
    TargetWidthOfHeight(h, landscape);
    TargetWidthOfHeight(h, !landscape);
  }

  /** Small drifts are ignored: a width within 5 of the target and a height in [20, 40] stay. */
  lemma HysteresisKeepsSize(curW: int, curH: int, landscape: bool)
    requires 20 <= curH <= 40
    requires Abs(TargetWidth(curH, landscape) - curW) <= 5
    ensures !ShouldApply(curW, curH, landscape)
  {
  }

  /** A height outside [17, 43] is always pulled back into [20, 40]. */
  lemma HeightOutsideBandApplies(curW: int, curH: int, landscape: bool)
    requires curH < 17 || curH > 43
    ensures ShouldApply(curW, curH, landscape)
  {
  }
}
