/**
 * The change-detecting parameter update of ASCIICameraWidget.update_params
 * (ascii_camera.py lines 108-127), stated as a fold over the keyword
 * arguments, and what the fold promises.
 */
module Params {
  import opened Results

  /** The eight user parameters of the widget. */
  datatype Params = Params(
    asciiW: int, asciiH: int, contrast: real, fontSize: int,
    useColor: bool, invert: bool, autoContrast: bool, charSetName: string)

  /** DEFAULTS (lines 22-31). */
  const Defaults := Params(60, 34, 1.2, 10, true, false, false, "Detailed")

  datatype Field = AsciiW | AsciiH | Contrast | FontSize | UseColor | Invert | AutoContrast | CharSetName

  /**
   * One keyword argument of update_params. Unknown stands for a key that
   * names no attribute of the widget, which hasattr skips.
   */
  datatype Arg =
    | SetAsciiW(w: int)
    | SetAsciiH(h: int)
    | SetContrast(c: real)
    | SetFontSize(pt: int)
    | SetUseColor(useColor: bool)
    | SetInvert(invert: bool)
    | SetAutoContrast(auto: bool)
    | SetCharSetName(name: string)
    | Unknown(key: string)

  function FieldName(f: Field): string {
    match f
    case AsciiW => "ascii_w"
    case AsciiH => "ascii_h"
    case Contrast => "contrast"
    case FontSize => "font_size"
    case UseColor => "use_color"
    case Invert => "invert"
    case AutoContrast => "auto_contrast"
    case CharSetName => "char_set_name"
  }

  /** The attribute an argument names, if the widget has it. */
  function FieldOf(a: Arg): Option<Field> {
    match a
    case SetAsciiW(_) => Some(AsciiW)
    case SetAsciiH(_) => Some(AsciiH)
    case SetContrast(_) => Some(Contrast)
    case SetFontSize(_) => Some(FontSize)
    case SetUseColor(_) => Some(UseColor)
    case SetInvert(_) => Some(Invert)
    case SetAutoContrast(_) => Some(AutoContrast)
    case SetCharSetName(_) => Some(CharSetName)
    case Unknown(_) => None
  }

  function KeyName(a: Arg): string {
    match FieldOf(a)
    case Some(f) => FieldName(f)
    case None => a.key
  }

  /** kwargs is a dict: its keys are distinct, and an unknown key names no parameter. */
  predicate WellFormed(kw: seq<Arg>) {
    && (forall i, j | 0 <= i < j < |kw| :: KeyName(kw[i]) != KeyName(kw[j]))
    && (forall i | 0 <= i < |kw| :: kw[i].Unknown? ==> forall f: Field :: kw[i].key != FieldName(f))
  }

  /** The parameter an argument names already holds the argument's value. */
  predicate Holds(p: Params, a: Arg) {
    match a
    case SetAsciiW(w) => p.asciiW == w
    case SetAsciiH(h) => p.asciiH == h
    case SetContrast(c) => p.contrast == c
    case SetFontSize(pt) => p.fontSize == pt
    case SetUseColor(b) => p.useColor == b
    case SetInvert(b) => p.invert == b
    case SetAutoContrast(b) => p.autoContrast == b
    case SetCharSetName(n) => p.charSetName == n
    case Unknown(_) => false
  }

  /** Two parameter records agree on one field. */
  predicate Agree(p: Params, q: Params, f: Field) {
    match f
    case AsciiW => p.asciiW == q.asciiW
    case AsciiH => p.asciiH == q.asciiH
    case Contrast => p.contrast == q.contrast
    case FontSize => p.fontSize == q.fontSize
    case UseColor => p.useColor == q.useColor
    case Invert => p.invert == q.invert
    case AutoContrast => p.autoContrast == q.autoContrast
    case CharSetName => p.charSetName == q.charSetName
  }

  /** Stores the argument's value in the attribute it names. */
  function Write(p: Params, a: Arg): Params
    requires FieldOf(a).Some?
  {
    match a
    case SetAsciiW(w) => p.(asciiW := w)
    case SetAsciiH(h) => p.(asciiH := h)
    case SetContrast(c) => p.(contrast := c)
    case SetFontSize(pt) => p.(fontSize := pt)
    case SetUseColor(b) => p.(useColor := b)
    case SetInvert(b) => p.(invert := b)
    case SetAutoContrast(b) => p.(autoContrast := b)
    case SetCharSetName(n) => p.(charSetName := n)
  }

  /** The argument names an existing attribute whose current value is different. */
  predicate Differs(p: Params, a: Arg) {
    FieldOf(a).Some? && !Holds(p, a)
  }

  /** One iteration of the loop of lines 112-119: write only a differing value. */
  function Apply(p: Params, a: Arg): Params {
    if Differs(p, a) then Write(p, a) else p
  }

  /** The parameters after the loop over kwargs, in order. */
  function ApplyAll(p: Params, kw: seq<Arg>): Params {
    if |kw| == 0 then p else Apply(ApplyAll(p, kw[..|kw| - 1]), kw[|kw| - 1])
  }

  /** The `changed` flag after the loop. */
  predicate Changed(p: Params, kw: seq<Arg>) {
    |kw| > 0 && (Changed(p, kw[..|kw| - 1]) || Differs(ApplyAll(p, kw[..|kw| - 1]), kw[|kw| - 1]))
  }

  /** The `redraw_needed` flag after the loop: raised only by a char_set_name write. */
  predicate Redraw(p: Params, kw: seq<Arg>) {
    |kw| > 0 &&
      (Redraw(p, kw[..|kw| - 1]) ||
        (kw[|kw| - 1].SetCharSetName? && Differs(ApplyAll(p, kw[..|kw| - 1]), kw[|kw| - 1])))
  }

  /** The value of the char_set_name argument, when there is one. */
  function CharSetArg(kw: seq<Arg>): (r: Option<string>)
    ensures r.Some? <==> exists i | 0 <= i < |kw| :: kw[i].SetCharSetName?
    ensures r.Some? ==> exists i | 0 <= i < |kw| :: kw[i] == SetCharSetName(r.value)
  {
    if |kw| == 0 then None
    else if kw[0].SetCharSetName? then Some(kw[0].name)
    else
      var r := CharSetArg(kw[1..]);
      assert forall i | 1 <= i < |kw| :: kw[i] == kw[1..][i - 1];
      r
  }

  // ---------------------------------------------------------------- lemmas

  lemma WriteEffect(p: Params, a: Arg)
    requires FieldOf(a).Some?
    ensures Holds(Write(p, a), a)
    ensures forall f: Field | Some(f) != FieldOf(a) :: Agree(Write(p, a), p, f)
  {
  }

  lemma HoldsAgree(p: Params, q: Params, a: Arg)
    requires FieldOf(a).Some? && Agree(p, q, FieldOf(a).value)
    ensures Holds(p, a) <==> Holds(q, a)
  {
  }

  lemma AgreeEverywhere(p: Params, q: Params)
    requires forall f: Field :: Agree(p, q, f)
    ensures p == q
  {
    assert Agree(p, q, AsciiW) && Agree(p, q, AsciiH) && Agree(p, q, Contrast) && Agree(p, q, FontSize);
    assert Agree(p, q, UseColor) && Agree(p, q, Invert) && Agree(p, q, AutoContrast) && Agree(p, q, CharSetName);
  }

  /** Arguments with distinct keys name distinct fields. */
  lemma DistinctFields(a: Arg, b: Arg)
    requires FieldOf(a).Some? && KeyName(a) != KeyName(b)
    ensures FieldOf(a) != FieldOf(b)
  {
  }

  /** A field that no argument names keeps its old value. */
  lemma {:induction false} UnnamedFieldUnchanged(p: Params, kw: seq<Arg>, f: Field)
    requires forall i | 0 <= i < |kw| :: FieldOf(kw[i]) != Some(f)
    ensures Agree(ApplyAll(p, kw), p, f)
  {
    if |kw| > 0 {
      var init := kw[..|kw| - 1];
      UnnamedFieldUnchanged(p, init, f);
      var q := ApplyAll(p, init);
      if Differs(q, kw[|kw| - 1]) {
        WriteEffect(q, kw[|kw| - 1]);
      }
    }
  }

  /** A field that an argument names ends up holding that argument's value. */
  lemma {:induction false} NamedFieldWritten(p: Params, kw: seq<Arg>, i: int)
    requires WellFormed(kw) && 0 <= i < |kw| && FieldOf(kw[i]).Some?
    ensures Holds(ApplyAll(p, kw), kw[i])
  {
    var init := kw[..|kw| - 1];
    var last := kw[|kw| - 1];
    var q := ApplyAll(p, init);
    if i == |kw| - 1 {
      if Differs(q, last) {
        WriteEffect(q, last);
      }
    } else {
      assert WellFormed(init);
      NamedFieldWritten(p, init, i);
      DistinctFields(kw[i], last);
      if Differs(q, last) {
        WriteEffect(q, last);
        HoldsAgree(Write(q, last), q, kw[i]);
      }
    }
  }

  /** Before an argument is reached, its field still holds the original value. */
  lemma PrefixAgrees(p: Params, kw: seq<Arg>, i: int)
    requires WellFormed(kw) && 0 <= i < |kw| && FieldOf(kw[i]).Some?
    ensures Differs(ApplyAll(p, kw[..i]), kw[i]) <==> Differs(p, kw[i])
  {
    forall j | 0 <= j < i
      ensures FieldOf(kw[..i][j]) != Some(FieldOf(kw[i]).value)
    {
      DistinctFields(kw[i], kw[j]);
    }
    UnnamedFieldUnchanged(p, kw[..i], FieldOf(kw[i]).value);
    HoldsAgree(ApplyAll(p, kw[..i]), p, kw[i]);
  }

  /** The loop's flag is raised exactly when some argument differs from the original value. */
  lemma {:induction false} ChangedMeansSomeDiffers(p: Params, kw: seq<Arg>)
    requires WellFormed(kw)
    ensures Changed(p, kw) <==> exists i | 0 <= i < |kw| :: Differs(p, kw[i])
  {
    if |kw| > 0 {
      var init := kw[..|kw| - 1];
      assert WellFormed(init);
      ChangedMeansSomeDiffers(p, init);
      assert init == kw[..|kw| - 1];
      if FieldOf(kw[|kw| - 1]).Some? {
        PrefixAgrees(p, kw, |kw| - 1);
      }
      if exists i | 0 <= i < |kw| :: Differs(p, kw[i]) {
        var i :| 0 <= i < |kw| && Differs(p, kw[i]);
        if i < |kw| - 1 {
          assert Differs(p, init[i]);
        }
      }
      if exists i | 0 <= i < |init| :: Differs(p, init[i]) {
        var i :| 0 <= i < |init| && Differs(p, init[i]);
        assert Differs(p, kw[i]);
      }
    }
  }

  /** When no argument differs, the loop writes nothing. */
  lemma {:induction false} NoDifferenceNoWrite(p: Params, kw: seq<Arg>)
    requires forall i | 0 <= i < |kw| :: !Differs(p, kw[i])
    ensures ApplyAll(p, kw) == p
  {
    if |kw| > 0 {
      NoDifferenceNoWrite(p, kw[..|kw| - 1]);
    }
  }

  /**
   * update_params reports a change exactly when the parameters end up
   * different from what they were.
   */
  lemma ChangedIffParamsDiffer(p: Params, kw: seq<Arg>)
    requires WellFormed(kw)
    ensures Changed(p, kw) <==> ApplyAll(p, kw) != p
  {
    ChangedMeansSomeDiffers(p, kw);
    if exists i | 0 <= i < |kw| :: Differs(p, kw[i]) {
      var i :| 0 <= i < |kw| && Differs(p, kw[i]);
      NamedFieldWritten(p, kw, i);
    } else {
      NoDifferenceNoWrite(p, kw);
    }
  }

  /**
   * Every parameter an argument names holds that argument's value afterwards,
   * and every other parameter keeps its value.
   */
  lemma ApplyAllEffect(p: Params, kw: seq<Arg>, f: Field)
    requires WellFormed(kw)
    ensures forall i | 0 <= i < |kw| && FieldOf(kw[i]).Some? :: Holds(ApplyAll(p, kw), kw[i])
    ensures (forall i | 0 <= i < |kw| :: FieldOf(kw[i]) != Some(f)) ==> Agree(ApplyAll(p, kw), p, f)
  {
    forall i | 0 <= i < |kw| && FieldOf(kw[i]).Some?
      ensures Holds(ApplyAll(p, kw), kw[i])
    {
      NamedFieldWritten(p, kw, i);
    }
    if forall i | 0 <= i < |kw| :: FieldOf(kw[i]) != Some(f) {
      UnnamedFieldUnchanged(p, kw, f);
    }
  }

  /** Re-applying the same update writes nothing and reports no change. */
  lemma ReapplyIsNoOp(p: Params, kw: seq<Arg>)
    requires WellFormed(kw)
    ensures ApplyAll(ApplyAll(p, kw), kw) == ApplyAll(p, kw)
    ensures !Changed(ApplyAll(p, kw), kw)
  {
    var q := ApplyAll(p, kw);
    forall i | 0 <= i < |kw|
      ensures !Differs(q, kw[i])
    {
      if FieldOf(kw[i]).Some? {
        NamedFieldWritten(p, kw, i);
      }
    }
    NoDifferenceNoWrite(q, kw);
    ChangedMeansSomeDiffers(q, kw);
  }

  /** A redraw is flagged exactly when a char_set_name argument names a different set. */
  lemma {:induction false} RedrawIffCharSetChanges(p: Params, kw: seq<Arg>)
    requires WellFormed(kw)
    ensures Redraw(p, kw) <==>
      exists i | 0 <= i < |kw| :: kw[i].SetCharSetName? && kw[i].name != p.charSetName
  {
    if |kw| > 0 {
      var init := kw[..|kw| - 1];
      assert WellFormed(init);
      RedrawIffCharSetChanges(p, init);
      if FieldOf(kw[|kw| - 1]).Some? {
        PrefixAgrees(p, kw, |kw| - 1);
      }
      if exists i | 0 <= i < |kw| :: kw[i].SetCharSetName? && kw[i].name != p.charSetName {
        var i :| 0 <= i < |kw| && kw[i].SetCharSetName? && kw[i].name != p.charSetName;
        if i < |kw| - 1 {
          assert init[i] == kw[i];
        }
      }
      if exists i | 0 <= i < |init| :: init[i].SetCharSetName? && init[i].name != p.charSetName {
        var i :| 0 <= i < |init| && init[i].SetCharSetName? && init[i].name != p.charSetName;
        assert kw[i] == init[i];
      }
    }
  }

  /** A redraw is only ever flagged together with a change. */
  lemma {:induction false} RedrawImpliesChanged(p: Params, kw: seq<Arg>)
    ensures Redraw(p, kw) ==> Changed(p, kw)
  {
    if |kw| > 0 {
      RedrawImpliesChanged(p, kw[..|kw| - 1]);
    }
  }

  /** The two-argument update check_orientation sends sets exactly width and height. */
  lemma ApplySize(p: Params, w: int, h: int)
    ensures WellFormed([SetAsciiW(w), SetAsciiH(h)])
    ensures ApplyAll(p, [SetAsciiW(w), SetAsciiH(h)]) == p.(asciiW := w, asciiH := h)
  {
    var kw := [SetAsciiW(w), SetAsciiH(h)];
    assert kw[..1] == [SetAsciiW(w)] && kw[..1][..0] == [];
    var q := Apply(p, SetAsciiW(w));
    assert q == p.(asciiW := w);
    assert ApplyAll(p, kw[..1]) == q;
    assert ApplyAll(p, kw) == Apply(q, SetAsciiH(h));
  }
}
