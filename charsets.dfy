/** The named character strings of CHAR_SETS (ascii_camera.py lines 16-20). */
module CharSets {
  import opened Results

  /** Seventy glyphs from sparse to dense, written in rows of ten. */
  const Detailed: string :=
    " .'`^\",:;I" + "l!i><~+_-?" + "][}{1)(|\\/" + "tfjrxnuvcz" + "XYUJCLQ0OZ" + "mwqpdbkhao" + "*#MW&8%B@$"
  const Newspaper: string := "@#%+=-:. "
  /** Full block, medium shade, light shade and a space. */
  const Block: string := "\U{2588}\U{2592}\U{2591} "

  /** One of the three strings of CHAR_SETS. */
  predicate IsCharSet(s: string) {
    s == Detailed || s == Newspaper || s == Block
  }

  /** The character string of a set name; None (a KeyError in the source) for every other name. */
  function Lookup(name: string): (r: Option<string>)
    ensures r.Some? <==> name == "Detailed" || name == "Newspaper" || name == "Block"
    ensures r.Some? ==> IsCharSet(r.value)
  {
    if name == "Detailed" then Some(Detailed)
    else if name == "Newspaper" then Some(Newspaper)
    else if name == "Block" then Some(Block)
    else None
  }

  /** Every installed string is non-empty and holds no line break. */
  lemma CharSetWellFormed(s: string)
    requires IsCharSet(s)
    ensures |s| > 0 && '\n' !in s
    ensures s == Detailed ==> |s| == 70
    ensures s == Newspaper ==> |s| == 9
    ensures s == Block ==> |s| == 4
  {
  }
}
