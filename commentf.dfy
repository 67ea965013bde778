/**
 * The comment-banner formatter of `commentf_command.py`: `get_indent`,
 * `convert` (one comment line per line of text) and `to_comment` (a single
 * "line" comment, or a "block" whose body is framed by two header rules).
 *
 * A line of output is `LINE = "{indent}{symbol} {text:{fill}{align}{width}}"`
 * with its trailing whitespace removed, where `indent` is the indent of the
 * first kept line of text, `text` is the line with that indent deleted once
 * and one separating space added, and `width` is what is left of the
 * requested total width after the indent, the symbol and the space.
 */
module Commentf {
  import opened Wrappers
  import opened Text
  import opened Format

  /** `SYMBOLS`: the line-comment symbol per editor syntax name. The HTML
      entry is one literal prefix, not a begin/end pair. */
  const Symbols: map<string, string> := map[
    "C" := "//",
    "C#" := "//",
    "C++" := "//",
    "HTML" := "<!--|-->",
    "Java" := "//",
    "JSON" := "//",
    "Python" := "#"
  ]

  /** `SYMBOLS.get(syntax, "#")`, the lookup the command makes. */
  function SymbolFor(syntax: string): (symbol: string)
    ensures symbol == "//" <==> syntax in {"C", "C#", "C++", "Java", "JSON"}
    ensures symbol == "<!--|-->" <==> syntax == "HTML"
    ensures symbol == "#" <==> syntax !in {"C", "C#", "C++", "Java", "JSON", "HTML"}
  {
    if syntax in Symbols then Symbols[syntax] else "#"
  }

  /** A symbol is a usable line prefix when it is one line long and neither
      begins nor ends with whitespace. */
  predicate IsToken(symbol: string) {
    |symbol| >= 1 && !IsSpace(symbol[0]) && !IsSpace(symbol[|symbol| - 1]) && '\n' !in symbol
  }

  /** Every symbol the command can pick is a usable token. */
  lemma SymbolsAreTokens(syntax: string)
    ensures IsToken(SymbolFor(syntax))
  {
  }

  /** `get_indent`: the maximal leading whitespace run (`^(\s*)`). */
  function GetIndent(t: string): (indent: string)
    ensures |indent| <= |t| && indent == t[..|indent|]
    ensures forall i :: 0 <= i < |indent| ==> IsSpace(indent[i])
    ensures |indent| == |t| || !IsSpace(t[|indent|])
  {
    t[..SpanLen(t, IsSpace)]
  }

  /** The indent of whitespace followed by a non-whitespace character is that
      whitespace. */
  lemma IndentOfPrefix(ws: string, rest: string)
    requires forall i :: 0 <= i < |ws| ==> IsSpace(ws[i])
    requires rest != [] && !IsSpace(rest[0])
    ensures GetIndent(ws + rest) == ws
  {
    var t := ws + rest;
    assert forall i :: 0 <= i < |ws| ==> IsSpace(t[i]);
    assert !IsSpace(t[|ws|]);
    assert t[..|ws|] == ws;
  }

  /** The indent of an all-whitespace string is the whole string. */
  lemma IndentOfBlank(ws: string)
    requires forall i :: 0 <= i < |ws| ==> IsSpace(ws[i])
    ensures GetIndent(ws) == ws
  {
  }

  /** The segments among the first `n` that `convert` processes: all of them
      when `empty` holds, otherwise all but the zero-length ones
      (`if not each and not empty: continue`). */
  function Kept(segments: seq<string>, empty: bool, n: nat): (kept: seq<string>)
    requires n <= |segments|
    ensures |kept| <= n
  {
    if n == 0 then []
    else Kept(segments, empty, n - 1) + (if empty || segments[n - 1] != [] then [segments[n - 1]] else [])
  }

  /** With `empty`, every segment is kept. */
  lemma {:induction false} KeptAll(segments: seq<string>, n: nat)
    requires n <= |segments|
    ensures Kept(segments, true, n) == segments[..n]
  {
    if n > 0 {
      KeptAll(segments, n - 1);
      assert segments[..n] == segments[..n - 1] + [segments[n - 1]];
    }
  }

  /** Number of zero-length segments among the first `n`. */
  function CountEmpty(segments: seq<string>, n: nat): nat
    requires n <= |segments|
  {
    if n == 0 then 0 else CountEmpty(segments, n - 1) + (if segments[n - 1] == [] then 1 else 0)
  }

  /** Without `empty`, exactly the zero-length segments are dropped: nothing
      kept is empty, every non-empty segment (whitespace-only ones included)
      is kept, and the count drops by the number of empty segments. */
  lemma {:induction false} KeptDropsOnlyZeroLength(segments: seq<string>, n: nat)
    requires n <= |segments|
    ensures forall s :: s in Kept(segments, false, n) ==> s != []
    ensures forall i :: 0 <= i < n && segments[i] != [] ==> segments[i] in Kept(segments, false, n)
    ensures |Kept(segments, false, n)| == n - CountEmpty(segments, n)
  {
    if n > 0 {
      KeptDropsOnlyZeroLength(segments, n - 1);
    }
  }

  /** The segments kept among the first `n` are a prefix of those kept among
      the first `m >= n`. */
  lemma {:induction false} KeptPrefix(segments: seq<string>, empty: bool, n: nat, m: nat)
    requires n <= m <= |segments|
    ensures var k := Kept(segments, empty, n);
      |k| <= |Kept(segments, empty, m)| && k == Kept(segments, empty, m)[..|k|]
    decreases m - n
  {
    if n < m {
      KeptPrefix(segments, empty, n, m - 1);
    }
  }

  /** Once some segment is kept, the first one kept stays first. */
  lemma KeptFirst(segments: seq<string>, empty: bool, n: nat)
    requires n <= |segments| && Kept(segments, empty, n) != []
    ensures var all := Kept(segments, empty, |segments|);
      all != [] && all[0] == Kept(segments, empty, n)[0]
  {
    KeptPrefix(segments, empty, n, |segments|);
  }

  /** Every kept segment is one of the segments. */
  lemma {:induction false} KeptIn(segments: seq<string>, empty: bool, n: nat, i: nat)
    requires n <= |segments| && i < |Kept(segments, empty, n)|
    ensures Kept(segments, empty, n)[i] in segments
  {
    if i < |Kept(segments, empty, n - 1)| {
      KeptIn(segments, empty, n - 1, i);
    }
  }

  /** `tmp_width`: the field width left for the padded text. */
  function FieldWidth(blockIndent: string, symbol: string, width: int): int
  {
    width - (|blockIndent| + |symbol| + 1)
  }

  /** The one separating space `convert` adds to non-empty text. */
  function Decorate(each: string, align: Align): string
  {
    if each == [] then []
    else
      match align
      case Left => each + " "
      case Center => " " + each + " "
      case Right => " " + each
  }

  /** `LINE.format(...)` followed by `re.sub("\s+$", "", line)`, for text
      `c` whose block indent has already been removed. */
  function FormatLine(c: string, blockIndent: string, symbol: string, fill: string, align: Align, width: int): (line: string)
    requires |fill| <= 1 && FieldWidth(blockIndent, symbol, width) >= 0
    ensures Trimmed(line)
  {
    RStrip(blockIndent + symbol + " " + Pad(Decorate(c, align), fill, align, FieldWidth(blockIndent, symbol, width)))
  }

  /** One output line of `convert` for segment `each`, given the block indent
      captured from the first kept segment. */
  function RenderLine(each: string, blockIndent: string, symbol: string, fill: string, align: Align, width: int): string
    requires |fill| <= 1 && FieldWidth(blockIndent, symbol, width) >= 0
  {
    FormatLine(ReplaceFirst(each, blockIndent), blockIndent, symbol, fill, align, width)
  }

  /** The kept segments of `text`. */
  function KeptSegments(text: string, empty: bool): seq<string>
  {
    var segments := Split(text, '\n');
    Kept(segments, empty, |segments|)
  }

  /** What `convert` needs in order not to raise: a fill of at most one
      character and, if any segment is kept, a non-negative field width. */
  predicate ConvertDefined(text: string, symbol: string, fill: string, width: int, empty: bool)
  {
    var kept := KeptSegments(text, empty);
    |fill| <= 1 && (kept == [] || FieldWidth(GetIndent(kept[0]), symbol, width) >= 0)
  }

  /** Every segment rendered against one block indent, in order. */
  function RenderAll(kept: seq<string>, blockIndent: string, symbol: string, fill: string, align: Align, width: int): (lines: seq<string>)
    requires |fill| <= 1 && FieldWidth(blockIndent, symbol, width) >= 0
    ensures |lines| == |kept|
  {
    if kept == [] then []
    else [RenderLine(kept[0], blockIndent, symbol, fill, align, width)]
         + RenderAll(kept[1..], blockIndent, symbol, fill, align, width)
  }

  /** The i-th rendered line renders the i-th segment. */
  lemma {:induction false} RenderAllAt(kept: seq<string>, blockIndent: string, symbol: string, fill: string, align: Align, width: int, i: nat)
    requires |fill| <= 1 && FieldWidth(blockIndent, symbol, width) >= 0
    requires i < |kept|
    ensures RenderAll(kept, blockIndent, symbol, fill, align, width)[i] == RenderLine(kept[i], blockIndent, symbol, fill, align, width)
  {
    var head := [RenderLine(kept[0], blockIndent, symbol, fill, align, width)];
    var rest := RenderAll(kept[1..], blockIndent, symbol, fill, align, width);
    assert RenderAll(kept, blockIndent, symbol, fill, align, width) == head + rest;
    if i > 0 {
      RenderAllAt(kept[1..], blockIndent, symbol, fill, align, width, i - 1);
      assert kept[1..][i - 1] == kept[i];
      assert (head + rest)[i] == rest[i - 1];
    }
  }

  /** Lines that render the segments one by one are their rendering. */
  lemma RenderAllPointwise(lines: seq<string>, kept: seq<string>, blockIndent: string, symbol: string, fill: string, align: Align, width: int)
    requires |fill| <= 1 && FieldWidth(blockIndent, symbol, width) >= 0
    requires |lines| == |kept|
    requires forall j :: 0 <= j < |kept| ==> lines[j] == RenderLine(kept[j], blockIndent, symbol, fill, align, width)
    ensures lines == RenderAll(kept, blockIndent, symbol, fill, align, width)
  {
    forall j | 0 <= j < |kept|
      ensures lines[j] == RenderAll(kept, blockIndent, symbol, fill, align, width)[j]
    {
      RenderAllAt(kept, blockIndent, symbol, fill, align, width, j);
    }
  }

  /** Rendering one more segment appends one more line. */
  lemma RenderAllSnoc(kept: seq<string>, each: string, blockIndent: string, symbol: string, fill: string, align: Align, width: int)
    requires |fill| <= 1 && FieldWidth(blockIndent, symbol, width) >= 0
    ensures RenderAll(kept + [each], blockIndent, symbol, fill, align, width)
         == RenderAll(kept, blockIndent, symbol, fill, align, width) + [RenderLine(each, blockIndent, symbol, fill, align, width)]
  {
    var lines := RenderAll(kept, blockIndent, symbol, fill, align, width) + [RenderLine(each, blockIndent, symbol, fill, align, width)];
    var all := kept + [each];
    forall j | 0 <= j < |all|
      ensures lines[j] == RenderLine(all[j], blockIndent, symbol, fill, align, width)
    {
      if j < |kept| {
        RenderAllAt(kept, blockIndent, symbol, fill, align, width, j);
      }
    }
    RenderAllPointwise(lines, all, blockIndent, symbol, fill, align, width);
  }

  /** The lines `convert` yields, as a value: one per kept segment, in order,
      all sharing the first kept segment's indent. */
  function ConvertLines(text: string, symbol: string, fill: string, align: Align, width: int, empty: bool): (lines: seq<string>)
    requires ConvertDefined(text, symbol, fill, width, empty)
    ensures |lines| == |KeptSegments(text, empty)|
  {
    var kept := KeptSegments(text, empty);
    if kept == [] then [] else RenderAll(kept, GetIndent(kept[0]), symbol, fill, align, width)
  }

  /** The body of `convert`'s loop for one kept segment: delete the block
      indent once, add the separating space, format, strip. */
  method RenderSegment(each: string, blockIndent: string, symbol: string, fill: string, align: Align, width: int)
    returns (line: string)
    requires |fill| <= 1 && FieldWidth(blockIndent, symbol, width) >= 0
    ensures line == RenderLine(each, blockIndent, symbol, fill, align, width)
  {
    var tmpWidth := width - (|blockIndent| + |symbol| + 1);
    var text := ReplaceFirst(each, blockIndent);
    if text != [] {
      match align
      case Left => text := text + " ";
      case Center => text := " " + text + " ";
      case Right => text := " " + text;
    }
    line := blockIndent + symbol + " " + Pad(text, fill, align, tmpWidth);
    line := RStrip(line);
  }

  /** What holds after `convert` has looked at some of the segments, of
      which it has kept `kept` (`all` are those it keeps in the end):
      `block_indent` is unset exactly while nothing has been kept, and
      otherwise it is the first kept segment's indent and the lines yielded so
      far render the kept segments against it. */
  ghost predicate ConvertInv(all: seq<string>, kept: seq<string>, symbol: string, fill: string, align: Align, width: int,
                             blockIndent: Option<string>, lines: seq<string>)
  {
    && |fill| <= 1
    && (all != [] ==> FieldWidth(GetIndent(all[0]), symbol, width) >= 0)
    && (kept == [] ==> blockIndent.None? && lines == [])
    && (kept != [] ==>
          && all != []
          && blockIndent == Some(GetIndent(all[0]))
          && lines == RenderAll(kept, GetIndent(all[0]), symbol, fill, align, width))
  }

  /** A kept segment fixes the block indent if it is not fixed yet; the
      field width is then the one `ConvertDefined` vouches for. */
  lemma ConvertWidth(all: seq<string>, kept: seq<string>, each: string, symbol: string, fill: string, align: Align,
                     width: int, blockIndent: Option<string>, lines: seq<string>, bi: string)
    requires ConvertInv(all, kept, symbol, fill, align, width, blockIndent, lines)
    requires all != [] && all[0] == (kept + [each])[0]
    requires bi == if blockIndent.None? then GetIndent(each) else blockIndent.value
    ensures FieldWidth(bi, symbol, width) >= 0 && bi == GetIndent(all[0])
  {
  }

  /** A kept segment adds its rendering to the lines. */
  lemma ConvertKeep(all: seq<string>, kept: seq<string>, each: string, symbol: string, fill: string, align: Align,
                    width: int, blockIndent: Option<string>, lines: seq<string>, bi: string, line: string)
    requires ConvertInv(all, kept, symbol, fill, align, width, blockIndent, lines)
    requires all != [] && bi == GetIndent(all[0]) && FieldWidth(bi, symbol, width) >= 0
    requires line == RenderLine(each, bi, symbol, fill, align, width)
    ensures ConvertInv(all, kept + [each], symbol, fill, align, width, Some(bi), lines + [line])
  {
    RenderAllSnoc(kept, each, bi, symbol, fill, align, width);
  }

  /** A kept segment is appended to those kept before it, and the first
      segment kept in the end is the first of those. */
  lemma KeptSnoc(segments: seq<string>, empty: bool, i: nat)
    requires i < |segments| && (segments[i] != [] || empty)
    ensures Kept(segments, empty, i + 1) == Kept(segments, empty, i) + [segments[i]]
    ensures var all := Kept(segments, empty, |segments|);
      all != [] && all[0] == (Kept(segments, empty, i) + [segments[i]])[0]
  {
    KeptFirst(segments, empty, i + 1);
  }

  /** One pass of `convert`'s loop over segment `i`: skip it, or fix the
      block indent if it is not fixed yet and yield its line. */
  method ConvertStep(segments: seq<string>, symbol: string, fill: string, align: Align, width: int, empty: bool,
                     i: nat, blockIndent: Option<string>, lines: seq<string>)
    returns (blockIndent': Option<string>, lines': seq<string>)
    requires i < |segments|
    requires ConvertInv(Kept(segments, empty, |segments|), Kept(segments, empty, i), symbol, fill, align, width, blockIndent, lines)
    ensures ConvertInv(Kept(segments, empty, |segments|), Kept(segments, empty, i + 1), symbol, fill, align, width, blockIndent', lines')
  {
    ghost var all, kept := Kept(segments, empty, |segments|), Kept(segments, empty, i);
    var each := segments[i];
    if each == [] && !empty {
      assert Kept(segments, empty, i + 1) == kept + [];
      assert kept + [] == kept;
      return blockIndent, lines;
    }
    KeptSnoc(segments, empty, i);
    var indent := GetIndent(each);
    blockIndent' := blockIndent;
    if blockIndent'.None? {
      blockIndent' := Some(indent);
    }
    var bi := blockIndent'.value;
    ConvertWidth(all, kept, each, symbol, fill, align, width, blockIndent, lines, bi);
    var line := RenderSegment(each, bi, symbol, fill, align, width);
    ConvertKeep(all, kept, each, symbol, fill, align, width, blockIndent, lines, bi, line);
    lines' := lines + [line];
  }

  /** `convert`: split the text at newlines and run the generator loop over
      the segments, collecting what it yields. */
  method Convert(text: string, symbol: string, fill: string, align: Align, width: int, empty: bool)
    returns (lines: seq<string>)
    requires ConvertDefined(text, symbol, fill, width, empty)
    ensures lines == ConvertLines(text, symbol, fill, align, width, empty)
  {
    var segments := Split(text, '\n');
    lines := ConvertSegments(segments, symbol, fill, align, width, empty);
  }

  /** The generator loop of `convert` over the segments: the lines yielded
      render the kept segments against the first kept segment's indent. */
  method ConvertSegments(segments: seq<string>, symbol: string, fill: string, align: Align, width: int, empty: bool)
    returns (lines: seq<string>)
    requires |fill| <= 1
    requires var all := Kept(segments, empty, |segments|);
      all != [] ==> FieldWidth(GetIndent(all[0]), symbol, width) >= 0
    ensures var all := Kept(segments, empty, |segments|);
      && (all == [] ==> lines == [])
      && (all != [] ==> lines == RenderAll(all, GetIndent(all[0]), symbol, fill, align, width))
  {
    ghost var all := Kept(segments, empty, |segments|);
    var blockIndent: Option<string> := None;
    lines := [];
    var i := 0;
    while i < |segments|
      invariant 0 <= i <= |segments|
      invariant ConvertInv(all, Kept(segments, empty, i), symbol, fill, align, width, blockIndent, lines)
    {
      blockIndent, lines := ConvertStep(segments, symbol, fill, align, width, empty, i, blockIndent, lines);
      i := i + 1;
    }
  }

  /** Every line rendered against one block indent is empty or ends in a
      non-whitespace character. */
  lemma RenderAllClean(kept: seq<string>, bi: string, symbol: string, fill: string, align: Align, width: int)
    requires |fill| <= 1 && FieldWidth(bi, symbol, width) >= 0
    ensures var lines := RenderAll(kept, bi, symbol, fill, align, width);
      forall i :: 0 <= i < |lines| ==> Trimmed(lines[i])
  {
    var lines := RenderAll(kept, bi, symbol, fill, align, width);
    forall i | 0 <= i < |lines|
      ensures Trimmed(lines[i])
    {
      RenderAllAt(kept, bi, symbol, fill, align, width, i);
      RenderLineClean(kept[i], bi, symbol, fill, align, width);
    }
  }

  /** A rendered line does not end in whitespace. */
  lemma RenderLineClean(each: string, blockIndent: string, symbol: string, fill: string, align: Align, width: int)
    requires |fill| <= 1 && FieldWidth(blockIndent, symbol, width) >= 0
    ensures var line := RenderLine(each, blockIndent, symbol, fill, align, width);
      Trimmed(line)
  {
    var line := FormatLine(ReplaceFirst(each, blockIndent), blockIndent, symbol, fill, align, width);
    assert Trimmed(line);
    assert RenderLine(each, blockIndent, symbol, fill, align, width) == line;
  }

  /** No line `convert` yields ends in whitespace (`re.sub("\s+$", "", line)`). */
  lemma ConvertNoTrailingSpace(text: string, symbol: string, fill: string, align: Align, width: int, empty: bool)
    requires ConvertDefined(text, symbol, fill, width, empty)
    ensures var lines := ConvertLines(text, symbol, fill, align, width, empty);
      forall i :: 0 <= i < |lines| ==> Trimmed(lines[i])
  {
    var kept := KeptSegments(text, empty);
    if kept != [] {
      var bi := GetIndent(kept[0]);
      assert ConvertLines(text, symbol, fill, align, width, empty) == RenderAll(kept, bi, symbol, fill, align, width);
      RenderAllClean(kept, bi, symbol, fill, align, width);
    }
  }

  /** With `empty`, `convert` is defined exactly when the first segment's
      indent leaves a non-negative field width, and it yields one line per
      `"\n"`-separated segment, the i-th line rendering the i-th segment. */
  lemma ConvertOneLinePerSegment(text: string, symbol: string, fill: string, align: Align, width: int)
    requires |fill| <= 1
    ensures ConvertDefined(text, symbol, fill, width, true)
        <==> FieldWidth(GetIndent(Split(text, '\n')[0]), symbol, width) >= 0
    ensures ConvertDefined(text, symbol, fill, width, true) ==>
      var segments := Split(text, '\n');
      var lines := ConvertLines(text, symbol, fill, align, width, true);
      && |lines| == |segments| == CountChar(text, '\n') + 1
      && forall i :: 0 <= i < |segments| ==>
           lines[i] == RenderLine(segments[i], GetIndent(segments[0]), symbol, fill, align, width)
  {
    var segments := Split(text, '\n');
    KeptAll(segments, |segments|);
    assert segments[..|segments|] == segments;
    assert KeptSegments(text, true) == segments;
    SplitCount(text, '\n');
    if ConvertDefined(text, symbol, fill, width, true) {
      var bi := GetIndent(segments[0]);
      forall i | 0 <= i < |segments|
        ensures ConvertLines(text, symbol, fill, align, width, true)[i] == RenderLine(segments[i], bi, symbol, fill, align, width)
      {
        RenderAllAt(segments, bi, symbol, fill, align, width, i);
      }
    }
  }

  /** Every line starts with the block indent followed by the symbol when the
      symbol does not end in whitespace: stripping stops after it. */
  lemma LinePrefix(c: string, blockIndent: string, symbol: string, fill: string, align: Align, width: int)
    requires |fill| <= 1 && FieldWidth(blockIndent, symbol, width) >= 0
    requires symbol != [] && !IsSpace(symbol[|symbol| - 1])
    ensures StartsWith(FormatLine(c, blockIndent, symbol, fill, align, width), blockIndent + symbol)
  {
    var p := Pad(Decorate(c, align), fill, align, FieldWidth(blockIndent, symbol, width));
    var full := (blockIndent + symbol) + (" " + p);
    assert full == blockIndent + symbol + " " + p;
    var k := |blockIndent + symbol| - 1;
    assert full[k] == symbol[|symbol| - 1];
    RStripKeeps(full, k);
    assert full[..k + 1] == blockIndent + symbol;
  }

  /** Every line `convert` yields starts with the indent of the first kept
      segment followed by the symbol. */
  lemma ConvertLinePrefix(text: string, symbol: string, fill: string, align: Align, width: int, empty: bool)
    requires ConvertDefined(text, symbol, fill, width, empty)
    requires symbol != [] && !IsSpace(symbol[|symbol| - 1])
    ensures var kept := KeptSegments(text, empty);
      var lines := ConvertLines(text, symbol, fill, align, width, empty);
      forall i :: 0 <= i < |lines| ==> StartsWith(lines[i], GetIndent(kept[0]) + symbol)
  {
    var kept := KeptSegments(text, empty);
    var lines := ConvertLines(text, symbol, fill, align, width, empty);
    forall i | 0 <= i < |lines|
      ensures StartsWith(lines[i], GetIndent(kept[0]) + symbol)
    {
      var bi := GetIndent(kept[0]);
      RenderAllAt(kept, bi, symbol, fill, align, width, i);
      LinePrefix(ReplaceFirst(kept[i], bi), bi, symbol, fill, align, width);
    }
  }

  /** Left alignment with a visible fill character: the text, one space, then
      fill up to the field width, so the line is exactly `width` long. */
  lemma LeftAlignedLine(c: string, blockIndent: string, symbol: string, f: char, width: int)
    requires !IsSpace(f)
    requires c != [] && |c| + 1 < FieldWidth(blockIndent, symbol, width)
    ensures var w := FieldWidth(blockIndent, symbol, width);
      var line := FormatLine(c, blockIndent, symbol, [f], Left, width);
      line == blockIndent + symbol + " " + c + " " + Repeat(f, w - |c| - 1) && |line| == width
  {
    var w := FieldWidth(blockIndent, symbol, width);
    var t := c + " ";
    assert Decorate(c, Left) == t;
    assert Pad(t, [f], Left, w) == t + Repeat(f, w - |t|);
    var s := blockIndent + symbol + " " + c + " " + Repeat(f, w - |c| - 1);
    assert s == blockIndent + symbol + " " + Pad(t, [f], Left, w);
    assert s[|s| - 1] == f;
    RStripClean(s);
  }

  /** Centring with a visible fill character: with `d = w - |c| - 2` spare
      places, `floor(d / 2)` fill characters go before `" c "` and the rest
      after it, so the line is exactly `width` long. */
  lemma CenteredLine(c: string, blockIndent: string, symbol: string, f: char, width: int)
    requires !IsSpace(f)
    requires c != [] && |c| + 2 < FieldWidth(blockIndent, symbol, width)
    ensures var w := FieldWidth(blockIndent, symbol, width);
      var d := w - |c| - 2;
      var line := FormatLine(c, blockIndent, symbol, [f], Center, width);
      line == blockIndent + symbol + " " + Repeat(f, d / 2) + " " + c + " " + Repeat(f, d - d / 2)
      && |line| == width
  {
    var w := FieldWidth(blockIndent, symbol, width);
    var d := w - |c| - 2;
    var s := blockIndent + symbol + " " + Repeat(f, d / 2) + " " + c + " " + Repeat(f, d - d / 2);
    assert FormatLine(c, blockIndent, symbol, [f], Center, width) == RStrip(s) by {
      var t := " " + c + " ";
      assert Decorate(c, Center) == t;
      assert Pad(t, [f], Center, w) == Repeat(f, d / 2) + t + Repeat(f, d - d / 2);
      assert s == blockIndent + symbol + " " + Pad(t, [f], Center, w);
    }
    assert s[|s| - 1] == f;
    RStripClean(s);
  }

  /** Right alignment: all the fill comes before `" c"`; when the text itself
      does not end in whitespace the line is exactly `width` long. */
  lemma RightAlignedLine(c: string, blockIndent: string, symbol: string, f: char, width: int)
    requires c != [] && |c| + 1 <= FieldWidth(blockIndent, symbol, width)
    ensures var w := FieldWidth(blockIndent, symbol, width);
      var line := FormatLine(c, blockIndent, symbol, [f], Right, width);
      && line == RStrip(blockIndent + symbol + " " + Repeat(f, w - |c| - 1) + " " + c)
      && (!IsSpace(c[|c| - 1]) ==> |line| == width)
  {
    var w := FieldWidth(blockIndent, symbol, width);
    var t := " " + c;
    assert Decorate(c, Right) == t;
    assert Pad(t, [f], Right, w) == Repeat(f, w - |t|) + t;
    var s := blockIndent + symbol + " " + Repeat(f, w - |c| - 1) + " " + c;
    assert s == blockIndent + symbol + " " + Pad(t, [f], Right, w);
    if !IsSpace(c[|c| - 1]) {
      assert s[|s| - 1] == c[|c| - 1];
      RStripClean(s);
    }
  }

  /** Text at least as wide as the field is neither padded nor truncated:
      the line holds the text after its separating space and no fill
      character (the space after left-aligned text is stripped). */
  lemma WideTextLine(c: string, blockIndent: string, symbol: string, fill: string, align: Align, width: int)
    requires |fill| <= 1 && FieldWidth(blockIndent, symbol, width) >= 0
    requires c != [] && !IsSpace(c[|c| - 1])
    requires |Decorate(c, align)| >= FieldWidth(blockIndent, symbol, width)
    ensures FormatLine(c, blockIndent, symbol, fill, align, width)
         == blockIndent + symbol + " " + (if align == Left then c else " " + c)
  {
    var prefix := blockIndent + symbol + " ";
    var t := Decorate(c, align);
    assert Pad(t, fill, align, FieldWidth(blockIndent, symbol, width)) == t;
    var kept := if align == Left then c else " " + c;
    assert kept[|kept| - 1] == c[|c| - 1];
    if align == Right {
      assert prefix + t == prefix + kept;
    } else {
      assert t == kept + " ";
      assert prefix + t == (prefix + kept) + " ";
      RStripBlankTail(prefix + kept, " ");
    }
    RStripClean(prefix + kept);
  }

  /** A block comment's header rule: the indent, the symbol and a full field
      of fill; just the indent and the symbol when the fill is invisible or
      the field is empty. */
  function Header(blockIndent: string, symbol: string, fill: string, width: int): string
    requires |fill| <= 1
  {
    var w := FieldWidth(blockIndent, symbol, width);
    if w > 0 && !IsSpace(FillChar(fill)) then blockIndent + symbol + " " + Repeat(FillChar(fill), w)
    else blockIndent + symbol
  }

  /** A segment that is empty once the indent is removed renders as the
      header rule; with no visible fill that is exactly the block indent and
      the symbol, because the trailing space is stripped. */
  lemma EmptyTextLine(blockIndent: string, symbol: string, fill: string, align: Align, width: int)
    requires |fill| <= 1 && FieldWidth(blockIndent, symbol, width) >= 0
    requires symbol != [] && !IsSpace(symbol[|symbol| - 1])
    ensures FormatLine([], blockIndent, symbol, fill, align, width) == Header(blockIndent, symbol, fill, width)
  {
    var w := FieldWidth(blockIndent, symbol, width);
    var c := FillChar(fill);
    var s := blockIndent + symbol + " " + Repeat(c, w);
    assert Decorate([], align) == [];
    assert Pad([], fill, align, w) == Repeat(c, w);
    if w > 0 && !IsSpace(c) {
      assert s[|s| - 1] == c;
      RStripClean(s);
    } else {
      assert s == blockIndent + symbol + (" " + Repeat(c, w));
      RStripBlankTail(blockIndent + symbol, " " + Repeat(c, w));
      RStripClean(blockIndent + symbol);
    }
  }

  /** With no fill (the body lines of `to_comment`), a line is the block
      indent, the symbol, a run of spaces and the text, right-stripped: no
      fill character appears in it. */
  lemma BlankFillLine(c: string, blockIndent: string, symbol: string, align: Align, width: int)
    requires FieldWidth(blockIndent, symbol, width) >= 0
    ensures var t, w := Decorate(c, align), FieldWidth(blockIndent, symbol, width);
      FormatLine(c, blockIndent, symbol, [], align, width) ==
        RStrip(blockIndent + symbol + " " + Repeat(' ', LeftPadLen(t, align, w)) + t)
  {
    var t, w := Decorate(c, align), FieldWidth(blockIndent, symbol, width);
    var p, L := Pad(t, [], align, w), LeftPadLen(t, align, w);
    PadRuns(t, [], align, w);
    BlankPadding(blockIndent + symbol + " ", Repeat(' ', L), t, Repeat(' ', |p| - L - |t|));
  }

  /** Trailing blank padding is stripped off again. */
  lemma BlankPadding(pre: string, lead: string, t: string, trail: string)
    requires forall i :: 0 <= i < |trail| ==> IsSpace(trail[i])
    ensures RStrip(pre + (lead + t + trail)) == RStrip(pre + lead + t)
  {
    assert pre + (lead + t + trail) == pre + lead + t + trail;
    RStripBlankTail(pre + lead + t, trail);
  }

  /** Indent removal is `str.replace(indent, "", 1)`, not a prefix strip: it
      deletes the first occurrence wherever it is, here between `a` and `b`. */
  lemma IndentRemovalIsFirstOccurrence()
    ensures ReplaceFirst("a  b", "  ") == "ab"
  {
    assert "a  b"[0] == 'a';
    assert !OccursAt("a  b", "  ", 0);
    assert OccursAt("a  b", "  ", 1);
    ReplaceFirstCutsLeftmost("a  b", "  ", 1);
  }

  /** The fill `to_comment` passes to the body: none for multi-line text or
      a block comment. */
  function BodyFill(text: string, fill: string, addHeaders: bool): string
  {
    if '\n' in text || addHeaders then [] else fill
  }

  /** What `to_comment` needs in order not to raise: `convert` defined on the
      body and, with headers, at least one kept line (otherwise the block
      indent is still `None`) and `convert` defined on the header. */
  predicate ToCommentDefined(text: string, symbol: string, fill: string, align: Align, width: int, empty: bool, addHeaders: bool)
  {
    && |fill| <= 1
    && ConvertDefined(text, symbol, BodyFill(text, fill, addHeaders), width, empty)
    && (addHeaders ==>
          var lines := ConvertLines(text, symbol, BodyFill(text, fill, addHeaders), align, width, empty);
          lines != [] && ConvertDefined(GetIndent(lines[0]), symbol, fill, width, true))
  }

  /** `to_comment` as a value. */
  function ToCommentText(text: string, symbol: string, fill: string, align: Align, width: int, empty: bool, addHeaders: bool): string
    requires ToCommentDefined(text, symbol, fill, align, width, empty, addHeaders)
  {
    var lines := ConvertLines(text, symbol, BodyFill(text, fill, addHeaders), align, width, empty);
    var body := Join(lines, '\n');
    if addHeaders then
      var header := ConvertLines(GetIndent(lines[0]), symbol, fill, align, width, true)[0];
      header + "\n" + body + "\n" + header
    else body
  }

  /** The first line `convert` yields for a text, with `empty` set (there
      always is one); `to_comment` takes it and breaks out of the loop. */
  method FirstLine(text: string, symbol: string, fill: string, align: Align, width: int) returns (line: string)
    requires ConvertDefined(text, symbol, fill, width, true)
    ensures ConvertLines(text, symbol, fill, align, width, true) != []
    ensures line == ConvertLines(text, symbol, fill, align, width, true)[0]
  {
    KeptAll(Split(text, '\n'), |Split(text, '\n')|);
    var lines := Convert(text, symbol, fill, align, width, true);
    line := "";
    if |lines| > 0 {
      line := lines[0];
    }
  }

  /** `to_comment`'s loop over the lines of `convert`: it appends each line
      and takes the block indent from the first. */
  method CollectLines(lines: seq<string>) returns (collected: seq<string>, blockIndent: Option<string>)
    ensures collected == lines
    ensures blockIndent.None? <==> lines == []
    ensures blockIndent.Some? ==> blockIndent.value == GetIndent(lines[0])
  {
    blockIndent := None;
    collected := [];
    var i := 0;
    while i < |lines|
      invariant 0 <= i <= |lines|
      invariant collected == lines[..i]
      invariant blockIndent == if i == 0 then None else Some(GetIndent(lines[0]))
    {
      if blockIndent.None? {
        blockIndent := Some(GetIndent(lines[i]));
      }
      collected := collected + [lines[i]];
      i := i + 1;
    }
    assert lines[..i] == lines;
  }

  /** `to_comment`: the lines of `convert` joined by newlines, framed, when
      headers are asked for, by the first line of a second `convert` over
      the block indent. */
  method ToComment(text: string, symbol: string, fill: string, align: Align, width: int, empty: bool, addHeaders: bool)
    returns (comment: string)
    requires ToCommentDefined(text, symbol, fill, align, width, empty, addHeaders)
    ensures comment == ToCommentText(text, symbol, fill, align, width, empty, addHeaders)
  {
    var blockFill := fill;
    if '\n' in text || addHeaders {
      blockFill := "";
    }
    var lines := Convert(text, symbol, blockFill, align, width, empty);
    var collected, blockIndent := CollectLines(lines);
    comment := Join(collected, '\n');
    if addHeaders {
      var header := FirstLine(blockIndent.value, symbol, fill, align, width);
      comment := header + "\n" + comment + "\n" + header;
    }
  }

  /** A line formatted from newline-free parts holds no newline. */
  lemma LineNoNewline(c: string, blockIndent: string, symbol: string, fill: string, align: Align, width: int)
    requires |fill| <= 1 && FieldWidth(blockIndent, symbol, width) >= 0
    requires '\n' !in c && '\n' !in blockIndent && '\n' !in symbol && '\n' !in fill
    ensures '\n' !in FormatLine(c, blockIndent, symbol, fill, align, width)
  {
    var t, w := Decorate(c, align), FieldWidth(blockIndent, symbol, width);
    assert '\n' !in t;
    var p := Pad(t, fill, align, w);
    PadLayout(t, fill, align, w);
    var L := LeftPadLen(t, align, w);
    forall i | 0 <= i < |p|
      ensures p[i] != '\n'
    {
      if L <= i < L + |t| {
        assert p[i] == p[L..L + |t|][i - L] == t[i - L];
      } else {
        assert fill != [] ==> fill[0] in fill;
      }
    }
    var full := blockIndent + symbol + " " + p;
    assert '\n' !in full;
  }

  /** With a newline-free symbol and fill, every line `convert` yields is one
      line of text. */
  lemma ConvertLinesNoNewline(text: string, symbol: string, fill: string, align: Align, width: int, empty: bool)
    requires ConvertDefined(text, symbol, fill, width, empty)
    requires '\n' !in symbol && '\n' !in fill
    ensures var lines := ConvertLines(text, symbol, fill, align, width, empty);
      forall i :: 0 <= i < |lines| ==> '\n' !in lines[i]
  {
    var segments := Split(text, '\n');
    var kept := KeptSegments(text, empty);
    var lines := ConvertLines(text, symbol, fill, align, width, empty);
    if kept != [] {
      var bi := GetIndent(kept[0]);
      KeptIn(segments, empty, |segments|, 0);
      assert '\n' !in kept[0];
      assert '\n' !in bi by {
        assert forall k :: 0 <= k < |bi| ==> bi[k] == kept[0][k];
      }
      forall i | 0 <= i < |lines|
        ensures '\n' !in lines[i]
      {
        RenderAllAt(kept, bi, symbol, fill, align, width, i);
        KeptIn(segments, empty, |segments|, i);
        ReplaceFirstNotIn(kept[i], bi, '\n');
        LineNoNewline(ReplaceFirst(kept[i], bi), bi, symbol, fill, align, width);
      }
    }
  }

  /** A line's own indent is its block indent, because a token symbol
      starts with non-whitespace. */
  lemma LineIndent(c: string, blockIndent: string, symbol: string, fill: string, align: Align, width: int)
    requires |fill| <= 1 && FieldWidth(blockIndent, symbol, width) >= 0
    requires IsToken(symbol) && forall k :: 0 <= k < |blockIndent| ==> IsSpace(blockIndent[k])
    ensures GetIndent(FormatLine(c, blockIndent, symbol, fill, align, width)) == blockIndent
  {
    LinePrefix(c, blockIndent, symbol, fill, align, width);
    var line := FormatLine(c, blockIndent, symbol, fill, align, width);
    assert line[..|blockIndent + symbol|] == blockIndent + symbol;
    assert line == blockIndent + line[|blockIndent|..];
    assert line[|blockIndent|] == symbol[0];
    IndentOfPrefix(blockIndent, line[|blockIndent|..]);
  }

  /** The indent `to_comment` reads back from the first line of `convert` is
      the block indent. */
  lemma FirstLineIndent(text: string, symbol: string, fill: string, align: Align, width: int, empty: bool)
    requires ConvertDefined(text, symbol, fill, width, empty)
    requires IsToken(symbol)
    ensures var kept := KeptSegments(text, empty);
      var lines := ConvertLines(text, symbol, fill, align, width, empty);
      lines != [] ==> GetIndent(lines[0]) == GetIndent(kept[0])
  {
    var kept := KeptSegments(text, empty);
    if kept != [] {
      var bi := GetIndent(kept[0]);
      RenderAllAt(kept, bi, symbol, fill, align, width, 0);
      LineIndent(ReplaceFirst(kept[0], bi), bi, symbol, fill, align, width);
    }
  }

  /** The header rule: the first line `convert` yields for a block indent
      `bi` (whitespace, no newline) is `Header`, since deleting `bi` from
      itself leaves no text. */
  lemma HeaderLine(bi: string, symbol: string, fill: string, align: Align, width: int)
    requires |fill| <= 1 && FieldWidth(bi, symbol, width) >= 0
    requires IsToken(symbol)
    requires '\n' !in bi && forall k :: 0 <= k < |bi| ==> IsSpace(bi[k])
    ensures ConvertDefined(bi, symbol, fill, width, true)
    ensures ConvertLines(bi, symbol, fill, align, width, true) == [Header(bi, symbol, fill, width)]
  {
    SplitNoSep(bi, '\n');
    KeptAll([bi], 1);
    assert KeptSegments(bi, true) == [bi];
    IndentOfBlank(bi);
    ReplaceFirstPrefix(bi, bi);
    assert ReplaceFirst(bi, bi) == [];
    EmptyTextLine(bi, symbol, fill, align, width);
    assert RenderAll([bi], bi, symbol, fill, align, width)
        == [RenderLine(bi, bi, symbol, fill, align, width)] + RenderAll([], bi, symbol, fill, align, width);
  }

  /** Left-aligned text with invisible fill (the body of a block comment)
      comes out as the indent, the symbol, one space and the text: the
      padding is stripped again. */
  lemma LeftAlignedPlainLine(c: string, blockIndent: string, symbol: string, fill: string, width: int)
    requires |fill| <= 1 && FieldWidth(blockIndent, symbol, width) >= 0
    requires IsSpace(FillChar(fill))
    requires c != [] && !IsSpace(c[|c| - 1])
    ensures FormatLine(c, blockIndent, symbol, fill, Left, width) == blockIndent + symbol + " " + c
  {
    var w := FieldWidth(blockIndent, symbol, width);
    var t := c + " ";
    assert Decorate(c, Left) == t;
    var x := blockIndent + symbol + " " + c;
    var tail := if |t| >= w then " " else " " + Repeat(FillChar(fill), w - |t|);
    assert Pad(t, fill, Left, w) == t + (if |t| >= w then [] else Repeat(FillChar(fill), w - |t|));
    assert blockIndent + symbol + " " + Pad(t, fill, Left, w) == x + tail;
    RStripBlankTail(x, tail);
    assert x[|x| - 1] == c[|c| - 1];
    RStripClean(x);
  }

  /** The header rule is one line of text when the fill is not a newline. */
  lemma HeaderNoNewline(blockIndent: string, symbol: string, fill: string, width: int)
    requires |fill| <= 1 && FillChar(fill) != '\n'
    requires '\n' !in blockIndent && '\n' !in symbol
    ensures '\n' !in Header(blockIndent, symbol, fill, width)
  {
  }

  /** A block comment (`add_headers`): the header rule, the body lines of
      `convert` with no fill, and the header rule again, one per line. The
      header is `Header` over the indent of the first kept segment. */
  lemma BlockShape(text: string, symbol: string, fill: string, align: Align, width: int, empty: bool)
    requires ToCommentDefined(text, symbol, fill, align, width, empty, true)
    requires IsToken(symbol) && '\n' !in fill
    ensures KeptSegments(text, empty) != []
    ensures var lines := ConvertLines(text, symbol, [], align, width, empty);
      var header := Header(GetIndent(KeptSegments(text, empty)[0]), symbol, fill, width);
      && ToCommentText(text, symbol, fill, align, width, empty, true) == header + "\n" + Join(lines, '\n') + "\n" + header
      && Split(ToCommentText(text, symbol, fill, align, width, empty, true), '\n') == [header] + lines + [header]
  {
    var segments := Split(text, '\n');
    var kept := KeptSegments(text, empty);
    var lines := ConvertLines(text, symbol, [], align, width, empty);
    var bi := GetIndent(kept[0]);
    FirstLineIndent(text, symbol, [], align, width, empty);
    KeptIn(segments, empty, |segments|, 0);
    assert '\n' !in bi by {
      assert forall k :: 0 <= k < |bi| ==> bi[k] == kept[0][k];
    }
    HeaderLine(bi, symbol, fill, align, width);
    var header := Header(bi, symbol, fill, width);
    ConvertLinesNoNewline(text, symbol, [], align, width, empty);
    assert fill != [] ==> fill[0] in fill;
    HeaderNoNewline(bi, symbol, fill, width);
    SplitFramed(header, lines, '\n');
  }

  /** A line comment (no `add_headers`) has one line of text per line
      `convert` kept, in order, when the symbol and the fill are one line
      long. */
  lemma LineCommentShape(text: string, symbol: string, fill: string, align: Align, width: int, empty: bool)
    requires ToCommentDefined(text, symbol, fill, align, width, empty, false)
    requires '\n' !in symbol && '\n' !in fill
    ensures var lines := ConvertLines(text, symbol, BodyFill(text, fill, false), align, width, empty);
      && ToCommentText(text, symbol, fill, align, width, empty, false) == Join(lines, '\n')
      && (lines != [] ==> Split(ToCommentText(text, symbol, fill, align, width, empty, false), '\n') == lines)
  {
    var bodyFill := BodyFill(text, fill, false);
    assert '\n' !in bodyFill by {
      if bodyFill != [] {
        assert bodyFill == fill;
      }
    }
    var lines := ConvertLines(text, symbol, bodyFill, align, width, empty);
    ConvertLinesNoNewline(text, symbol, bodyFill, align, width, empty);
    if lines != [] {
      SplitJoin(lines, '\n');
    }
  }

  /** A single line of text yields a single line: the text with its own
      indent removed, formatted against that indent. */
  lemma ConvertSingleLine(text: string, symbol: string, fill: string, align: Align, width: int, empty: bool)
    requires '\n' !in text && (text != [] || empty)
    requires |fill| <= 1 && FieldWidth(GetIndent(text), symbol, width) >= 0
    ensures ConvertDefined(text, symbol, fill, width, empty)
    ensures ConvertLines(text, symbol, fill, align, width, empty)
         == [FormatLine(text[|GetIndent(text)|..], GetIndent(text), symbol, fill, align, width)]
  {
    SplitNoSep(text, '\n');
    assert Kept([text], empty, 1) == [text];
    assert KeptSegments(text, empty) == [text];
    var bi := GetIndent(text);
    ReplaceFirstPrefix(text, bi);
    assert RenderAll([text], bi, symbol, fill, align, width)
        == [RenderLine(text, bi, symbol, fill, align, width)] + RenderAll([], bi, symbol, fill, align, width);
  }

  /** A single line without headers keeps the requested fill. */
  lemma SingleLineKeepsFill(text: string, symbol: string, fill: string, align: Align, width: int, empty: bool)
    requires '\n' !in text && (text != [] || empty)
    requires |fill| <= 1 && FieldWidth(GetIndent(text), symbol, width) >= 0
    ensures ToCommentDefined(text, symbol, fill, align, width, empty, false)
    ensures ToCommentText(text, symbol, fill, align, width, empty, false)
         == FormatLine(text[|GetIndent(text)|..], GetIndent(text), symbol, fill, align, width)
  {
    assert BodyFill(text, fill, false) == fill;
    ConvertSingleLine(text, symbol, fill, align, width, empty);
  }

  /** Multi-line text without headers ignores the requested fill: the body
      is always formatted with none. */
  lemma MultiLineIgnoresFill(text: string, symbol: string, fill: string, fill': string, align: Align, width: int, empty: bool)
    requires '\n' in text && |fill| <= 1 && |fill'| <= 1
    ensures ToCommentDefined(text, symbol, fill, align, width, empty, false)
        <==> ToCommentDefined(text, symbol, fill', align, width, empty, false)
    ensures ToCommentDefined(text, symbol, fill, align, width, empty, false) ==>
      ToCommentText(text, symbol, fill, align, width, empty, false)
        == ToCommentText(text, symbol, fill', align, width, empty, false)
  {
  }

  /** Text with no indent is its own text once the (empty) indent is
      removed. */
  lemma NoIndent(text: string)
    requires text != [] && !IsSpace(text[0])
    ensures GetIndent(text) == [] && text[|GetIndent(text)|..] == text
  {
    IndentOfPrefix([], text);
    assert [] + text == text;
  }

  /** The line of the single-line example below. */
  lemma ExampleLine(text: string, symbol: string, fill: string)
    requires text == "foo" && symbol == "#" && fill == "-"
    ensures FormatLine(text, [], symbol, fill, Left, 20) == "# foo --------------"
  {
    LeftAlignedLine(text, [], symbol, '-', 20);
    assert fill == ['-'];
    ExampleDashes(Repeat('-', 14));
    ExampleText(text, symbol, Repeat('-', 14));
  }

  /** Fourteen fill characters. */
  lemma ExampleDashes(dashes: string)
    requires dashes == Repeat('-', 14)
    ensures dashes == "--------------"
  {
  }

  /** The pieces of the single-line example. */
  lemma ExampleText(text: string, symbol: string, dashes: string)
    requires text == "foo" && symbol == "#" && dashes == "--------------"
    ensures [] + symbol + " " + text + " " + dashes == "# foo --------------"
  {
  }

  /** The body line of the block example below. */
  lemma ExampleBodyLine(text: string, symbol: string)
    requires text == "foo" && symbol == "#"
    ensures FormatLine(text, [], symbol, [], Left, 20) == "# foo"
  {
    LeftAlignedPlainLine(text, [], symbol, [], 20);
  }

  /** `to_comment("foo", "#", width=20, add_headers=False)`: the text, a
      space, and dashes up to column 20. */
  lemma ExampleSingleLine(text: string, symbol: string, fill: string)
    requires text == "foo" && symbol == "#" && fill == "-"
    ensures ToCommentDefined(text, symbol, fill, Left, 20, true, false)
    ensures ToCommentText(text, symbol, fill, Left, 20, true, false) == "# foo --------------"
  {
    NoIndent(text);
    SingleLineKeepsFill(text, symbol, fill, Left, 20, true);
    ExampleLine(text, symbol, fill);
  }

  /** The header rule of the block example below. */
  lemma ExampleHeader(symbol: string, fill: string)
    requires symbol == "#" && fill == "-"
    ensures Header([], symbol, fill, 20) == "# ------------------"
  {
    assert Repeat('-', 18) == "------------------";
  }

  /** The block example below, assembled. */
  lemma ExampleBlockText(h: string, body: string)
    requires h == "# ------------------" && body == "# foo"
    ensures h + "\n" + body + "\n" + h == "# ------------------\n# foo\n# ------------------"
  {
  }

  /** `to_comment("foo", "#", width=20)`: a block framed by two rules of
      dashes, the body left unpadded. */
  lemma ExampleBlock(text: string, symbol: string, fill: string)
    requires text == "foo" && symbol == "#" && fill == "-"
    ensures ToCommentDefined(text, symbol, fill, Left, 20, true, true)
    ensures ToCommentText(text, symbol, fill, Left, 20, true, true)
         == "# ------------------\n# foo\n# ------------------"
  {
    NoIndent(text);
    ConvertSingleLine(text, symbol, [], Left, 20, true);
    ExampleBodyLine(text, symbol);
    var lines := ConvertLines(text, symbol, [], Left, 20, true);
    assert lines == ["# foo"];
    assert GetIndent(lines[0]) == [] by {
      NoIndent(lines[0]);
    }
    HeaderLine([], symbol, fill, Left, 20);
    ExampleHeader(symbol, fill);
    assert ToCommentDefined(text, symbol, fill, Left, 20, true, true);
    var h := "# ------------------";
    assert Join(lines, '\n') == "# foo";
    assert ToCommentText(text, symbol, fill, Left, 20, true, true) == h + "\n" + "# foo" + "\n" + h;
    ExampleBlockText(h, "# foo");
  }
}
