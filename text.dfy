/**
 * The text export of get_text_ascii and save_current_frame_txt
 * (ascii_camera.py lines 236-239 and 250-254): rows joined by line breaks.
 */
module Text {

  /** No string of the sequence holds a line break. */
  predicate NoLineBreaks(rows: seq<string>) {
    forall y | 0 <= y < |rows| :: '\n' !in rows[y]
  }

  /** The rows with one line break between each two of them. */
  function JoinLines(rows: seq<string>): string
  {
    if |rows| == 0 then ""
    else if |rows| == 1 then rows[0]
    else rows[0] + "\n" + JoinLines(rows[1..])
  }

  /** The position of the first line break. */
  function FirstBreak(s: string): (i: nat)
    requires '\n' in s
    ensures i < |s| && s[i] == '\n' && '\n' !in s[..i]
  {
    if s[0] == '\n' then 0
    else
      assert '\n' in s[1..];
      var j := FirstBreak(s[1..]);
      assert s[..j + 1] == [s[0]] + s[1..][..j];
      j + 1
  }

  /** Python's split on the line break: the pieces between breaks, one more than there are breaks. */
  function SplitLines(s: string): (parts: seq<string>)
    decreases |s|
  {
    if '\n' !in s then [s]
    else
      var i := FirstBreak(s);
      [s[..i]] + SplitLines(s[i + 1..])
  }

  /** Splitting the export on line breaks gives back the rows. */
  lemma {:induction false} SplitJoin(rows: seq<string>)
    requires |rows| >= 1 && NoLineBreaks(rows)
    ensures SplitLines(JoinLines(rows)) == rows
  {
    if |rows| == 1 {
    } else {
      var rest := JoinLines(rows[1..]);
      var s := rows[0] + "\n" + rest;
      var n := |rows[0]|;
      assert s[n] == '\n';
      assert s[..n] == rows[0];
      var i := FirstBreak(s);
      assert i == n;
      assert s[i + 1..] == rest;
      assert NoLineBreaks(rows[1..]);
      SplitJoin(rows[1..]);
      assert rows == [rows[0]] + rows[1..];
    }
  }

  /** H rows of W glyphs export to H*W glyphs and H-1 line breaks, with none trailing. */
  lemma {:induction false} JoinLength(rows: seq<string>, w: nat)
    requires |rows| >= 1 && forall y | 0 <= y < |rows| :: |rows[y]| == w
    ensures |JoinLines(rows)| == |rows| * w + |rows| - 1
  {
    if |rows| > 1 {
      JoinLength(rows[1..], w);
      assert |rows| * w == w + (|rows| - 1) * w;
    }
  }

  /** The literal export of a 2x2 grid. */
  lemma JoinExample()
    ensures JoinLines(["ab", "cd"]) == "ab\ncd"
  {
    assert ["ab", "cd"][1..] == ["cd"];
  }
}
