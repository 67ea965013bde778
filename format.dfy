/**
 * The padding part of Python's format mini-language for strings,
 * `format(text, "{fill}{align}{width}")`: a field of `width` characters,
 * `text` placed according to `align`, the rest filled with `fill` (a space
 * when `fill` is empty). Text at least as wide as the field is neither
 * padded nor truncated.
 */
module Format {
  import opened Text

  /** The alignment characters `<`, `^` and `>`. */
  datatype Align = Left | Center | Right

  /** The padding character: the given one, or a space when none is given. */
  function FillChar(fill: string): char
    requires |fill| <= 1
  {
    if fill == [] then ' ' else fill[0]
  }

  /** How many padding characters go before the text. Centring puts the
      smaller half (the floor) on the left. */
  function LeftPadLen(t: string, align: Align, width: int): nat
  {
    if |t| >= width then 0
    else
      match align
      case Left => 0
      case Center => (width - |t|) / 2
      case Right => width - |t|
  }

  /** `format(t, fill + align + str(width))`. A fill of more than one
      character, or a negative width, makes Python reject the format
      specification, hence the precondition. */
  function Pad(t: string, fill: string, align: Align, width: int): (r: string)
    requires |fill| <= 1 && width >= 0
    ensures |r| == if |t| < width then width else |t|
  {
    if |t| >= width then t
    else
      var c, d := FillChar(fill), width - |t|;
      match align
      case Left => t + Repeat(c, d)
      case Center => Repeat(c, d / 2) + t + Repeat(c, d - d / 2)
      case Right => Repeat(c, d) + t
  }

  /** What padding means: the field is `max(|t|, width)` wide, `t` sits
      intact after `LeftPadLen` characters, and every other character is the
      fill character. */
  lemma PadLayout(t: string, fill: string, align: Align, width: int)
    requires |fill| <= 1 && width >= 0
    ensures var r, L := Pad(t, fill, align, width), LeftPadLen(t, align, width);
      && L + |t| <= |r|
      && r[L..L + |t|] == t
      && forall i :: 0 <= i < |r| && !(L <= i < L + |t|) ==> r[i] == FillChar(fill)
  {
  }

  /** The padded field as three runs: `LeftPadLen` fill characters, the
      text, and fill characters up to the field width. */
  lemma PadRuns(t: string, fill: string, align: Align, width: int)
    requires |fill| <= 1 && width >= 0
    ensures var r, L := Pad(t, fill, align, width), LeftPadLen(t, align, width);
      && L + |t| <= |r|
      && r == Repeat(FillChar(fill), L) + t + Repeat(FillChar(fill), |r| - L - |t|)
  {
    var c := FillChar(fill);
    if |t| >= width {
      assert Repeat(c, 0) + t + Repeat(c, 0) == t;
    } else {
      var d := width - |t|;
      match align
      case Left => assert Repeat(c, 0) + t == t;
      case Center =>
      case Right => assert Repeat(c, d) + t + Repeat(c, 0) == Repeat(c, d) + t;
    }
  }
}
