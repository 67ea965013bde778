# Comment banners and docstring templates for a Sublime Text plugin set

This project models the text-producing core of two Sublime Text plugins
and proves properties of that model.

- **`commentf_command.py`** turns the text of the current line into a
  comment. It has two styles:
  - a "line" comment: the text, padded with a fill character to a fixed
    width;
  - a "block": unpadded body lines framed by two header rules.

  The two copies of this file, `main/python/commentf_command.py` and
  `python/sublime/plugins/commentf_command.py`, are identical. One model
  covers both.
- **`pydoc_command.py`** reads the signature line under the cursor and
  writes a docstring template. It exists in two revisions:
  - the older `BaseDoc`/`SphinxDoc` pair;
  - the main `Docstringer`/`Sphinx_Docstringer` pair.

The Dafny modules follow the program's structure:

| file | module | models |
|---|---|---|
| `wrappers.dfy` | `Wrappers` | `Option` |
| `text.dfy` | `Text` | the `str` and `re` operations the plugins use: `\s`/`\w`, `split`/`join`, `rstrip`/`strip`, `replace(old, new, 1)`, `os.path.basename` |
| `format.dfy` | `Format` | the padding part of the format mini-language, `{text:{fill}{align}{width}}` |
| `commentf.dfy` | `Commentf` | `SYMBOLS`, `get_indent`, `convert`, `to_comment` |
| `signature.dfy` | `SignatureMatch` | the two signature regular expressions, `^(\s*)(\w+) (\w+)\((.*)\)` and `^( *)(\w+) (\w+)\((.*)\):`, as a scanner |
| `pydoc_legacy.dfy` | `PydocLegacy` | `BLOCK_BEGIN_END`, `BaseDoc`, `SphinxDoc` |
| `docstringer.dfy` | `Docstrings` | `Docstringer`, `Sphinx_Docstringer`, the `DOC_*` templates |

How each kind of code is modelled:

- **Generator and accumulating loops become methods.** This covers
  `convert`, `to_comment`, both `func_doc` versions and
  `SphinxDoc.get_func_doc`. Each method is proved equal to a function that
  states the result as a value (`ConvertLines`, `ToCommentText`,
  `FuncText`, `ParamFields`). The lemmas then state what the source
  promises about that value.
- **Each base class and its subclass become one Dafny class.** The
  subclass overrides only some getters, so a constant `sphinx` records
  which of the two the object is.
- **The `syntax` setter of `BaseDoc` updates fields in place.**
- **`Docstringer.func_doc` changes `_parameters`.** It replaces the raw
  parameter text with its comma-separated pieces, so the method is
  modelled with that state change. A second call then raises, because a
  list has no `split`. That error is the `None` result of `FuncText`.

Facts about the code that the model follows closely:

- **Indent removal.** The block indent is removed with a first-occurrence
  `str.replace(indent, "", 1)`, wherever it occurs in the line
  (`Commentf.IndentRemovalIsFirstOccurrence`).
- **Negative field width.** A field width below zero makes the format
  specification invalid, and Python raises. `ConvertDefined` is therefore
  a precondition of `convert`.
- **Comment symbols.** In the comment formatter, the C-family symbol is
  `//`. HTML uses the single literal prefix `<!--|-->`.
- **The `foo` line.** `to_comment("foo", "#", "-", "<", 20, …)` without
  headers yields `"# foo --------------"`: 14 dashes, 20 characters in all
  (`Commentf.ExampleSingleLine`).
- **A second `func_doc` raises.** The first call replaced `_parameters` by
  a list, which has no `split` (`Docstrings.FuncTextAgain`).

## Model

| member | source | states |
|---|---|---|
| Commentf.SymbolFor | main/python/commentf_command.py:22-30 | `SYMBOLS.get(syntax, "#")`: `//` exactly for C, C#, C++, Java and JSON, the literal `<!--|-->` exactly for HTML, `#` for everything else |
| Commentf.SymbolsAreTokens | python/sublime/plugins/commentf_command.py:22-30 | every symbol the lookup can return is non-empty, one line long, and neither starts nor ends with whitespace |
| Commentf.GetIndent | main/python/commentf_command.py:36-42 | `get_indent` returns the maximal leading whitespace run: a prefix of the text, all whitespace, and followed by a non-whitespace character or the end |
| Commentf.IndentOfPrefix | main/python/commentf_command.py:36-42 | the indent of whitespace followed by a non-whitespace character is exactly that whitespace |
| Commentf.IndentOfBlank | main/python/commentf_command.py:36-42 | the indent of an all-whitespace text is the whole text |
| Commentf.NoIndent | main/python/commentf_command.py:36-42 | text starting with a non-whitespace character has the empty indent |
| Commentf.Kept | main/python/commentf_command.py:47-49 | the segments `convert` processes among the first `n` are at most `n` |
| Commentf.KeptAll | main/python/commentf_command.py:47-49 | with `empty=True` every segment is processed, in order |
| Commentf.KeptDropsOnlyZeroLength | main/python/commentf_command.py:47-49 | with `empty=False`, no kept segment is empty, every non-empty segment (whitespace-only ones included) is kept, and the count drops by the number of zero-length segments |
| Commentf.KeptPrefix | main/python/commentf_command.py:47-53 | segments kept earlier stay a prefix of those kept later |
| Commentf.KeptFirst | main/python/commentf_command.py:51-53 | once a segment has been kept, the first kept segment (the one that fixes `block_indent`) never changes |
| Commentf.KeptIn | main/python/commentf_command.py:47-49 | every kept segment is one of the `"\n"`-separated segments |
| Commentf.KeptSnoc | main/python/commentf_command.py:47-53 | keeping segment `i` appends it to those kept before, and the final first kept segment is the first of those |
| Commentf.FormatLine | main/python/commentf_command.py:66-74 | the formatted line never ends in whitespace |
| Commentf.RenderLine | main/python/commentf_command.py:55-74 | one pass of `convert` for a segment: first-occurrence removal of the block indent, the alignment space, `LINE.format` and the right strip; its meaning is stated by `RenderLineClean`, `LinePrefix`, `LineIndent`, `LineNoNewline` and the aligned-line lemmas (`LeftAlignedLine`, `CenteredLine`, `RightAlignedLine`, `WideTextLine`, `EmptyTextLine`, `BlankFillLine`) |
| Commentf.RenderAll | main/python/commentf_command.py:47-75 | one output line per kept segment |
| Commentf.RenderAllAt | main/python/commentf_command.py:55-75 | the i-th output line renders the i-th kept segment against the shared block indent |
| Commentf.RenderAllPointwise | main/python/commentf_command.py:55-75 | any lines that render the kept segments one by one, in order, are the output |
| Commentf.RenderAllSnoc | main/python/commentf_command.py:66-75 | rendering one more segment yields exactly one more line at the end |
| Commentf.ConvertLines | main/python/commentf_command.py:45-75 | `convert` yields as many lines as it keeps segments |
| Commentf.RenderSegment | main/python/commentf_command.py:55-74 | the loop body (width, first-occurrence indent removal, separating space by alignment, padding, stripping) computes `RenderLine` |
| Commentf.ConvertWidth | main/python/commentf_command.py:51-55 | the block indent in use is the first kept segment's indent, and the field width it leaves is non-negative |
| Commentf.ConvertKeep | main/python/commentf_command.py:51-75 | a kept segment fixes `block_indent` if unset and appends its rendering, preserving the loop invariant |
| Commentf.ConvertStep | main/python/commentf_command.py:47-75 | one loop pass (skip a zero-length segment unless `empty`, otherwise fix the indent and yield) preserves the invariant: `block_indent` unset exactly while nothing is kept, the lines yielded render the kept segments |
| Commentf.ConvertSegments | main/python/commentf_command.py:46-75 | the generator loop over the segments yields nothing when nothing is kept, otherwise the rendering of all kept segments against the first one's indent |
| Commentf.Convert | main/python/commentf_command.py:45-75 | `convert` yields exactly `ConvertLines` |
| Commentf.RenderLineClean | main/python/commentf_command.py:74 | a rendered line does not end in whitespace |
| Commentf.RenderAllClean | main/python/commentf_command.py:74-75 | no rendered line ends in whitespace |
| Commentf.ConvertNoTrailingSpace | main/python/commentf_command.py:74-75 | no line `convert` yields ends in whitespace |
| Commentf.ConvertOneLinePerSegment | main/python/commentf_command.py:47-75 | with `empty=True`: defined exactly when the first segment's indent leaves a non-negative field width; then one line per segment (newline count + 1), the i-th rendering the i-th segment against the first segment's indent |
| Commentf.LinePrefix | main/python/commentf_command.py:66-74 | a formatted line starts with the block indent and the symbol when the symbol does not end in whitespace |
| Commentf.ConvertLinePrefix | main/python/commentf_command.py:51-68 | every line `convert` yields starts with the first kept segment's indent followed by the symbol |
| Commentf.LeftAlignedLine | main/python/commentf_command.py:55-73 | left align, visible fill `f`, `\|c\|+1 < w`: the line is `indent + symbol + " " + c + " " + f×(w−\|c\|−1)` and exactly `width` long |
| Commentf.CenteredLine | main/python/commentf_command.py:61-73 | centre align, visible fill, `d = w−\|c\|−2 > 0`: `floor(d/2)` fill characters before `" c "`, `d−floor(d/2)` after, line exactly `width` long |
| Commentf.RightAlignedLine | main/python/commentf_command.py:63-73 | right align: all `w−\|c\|−1` fill characters before `" c"`; exactly `width` long when `c` does not end in whitespace |
| Commentf.WideTextLine | python/sublime/plugins/commentf_command.py:66-73 | text at least as wide as the field is neither padded nor truncated: the line is the prefix and the text (after its leading space for centre/right), with no fill character |
| Commentf.EmptyTextLine | python/sublime/plugins/commentf_command.py:57-74 | an empty remainder (the block indent alone) renders exactly as the header rule that frames a block |
| Commentf.BlankFillLine | main/python/commentf_command.py:80-85 | with no fill a line is the prefix, spaces up to the text's place, and the text, right-stripped: no fill character appears |
| Commentf.LeftAlignedPlainLine | main/python/commentf_command.py:80-85 | left-aligned body text with invisible fill comes out as `indent + symbol + " " + c` |
| Commentf.IndentRemovalIsFirstOccurrence | python/sublime/plugins/commentf_command.py:57 | indent removal deletes the first occurrence anywhere: removing `"  "` from `"a  b"` gives `"ab"` |
| Commentf.Header | main/python/commentf_command.py:93-96 | the header rule, the first line of `convert(block_indent, symbol, fill, ...)`; `HeaderLine` proves it is exactly that line, `EmptyTextLine` that it is the rendering of an empty remainder, `HeaderNoNewline` that it is one line, `ExampleHeader` gives a value |
| Commentf.LineNoNewline | main/python/commentf_command.py:66-74 | a line formatted from newline-free parts holds no newline |
| Commentf.ConvertLinesNoNewline | main/python/commentf_command.py:47-75 | with a newline-free symbol and fill every line `convert` yields is one line of text |
| Commentf.LineIndent | main/python/commentf_command.py:86-87 | the indent `to_comment` reads back from a line is its block indent, for a symbol that starts with non-whitespace |
| Commentf.FirstLineIndent | main/python/commentf_command.py:85-87 | the indent read from the first line of `convert` is the first kept segment's indent |
| Commentf.HeaderLine | main/python/commentf_command.py:91-96 | `convert` on the block indent alone is defined and yields exactly one line, the header rule |
| Commentf.HeaderNoNewline | main/python/commentf_command.py:94-97 | the header rule is one line of text when the fill is not a newline |
| Commentf.ToCommentText | main/python/commentf_command.py:78-99 | `to_comment` as a value; its shape is stated by `BlockShape` (with headers), `LineCommentShape` (without), `SingleLineKeepsFill`, `MultiLineIgnoresFill` and the `Example*` lemmas |
| Commentf.CollectLines | main/python/commentf_command.py:84-89 | the collecting loop keeps every line in order and sets `block_indent` from the first line exactly when there is one |
| Commentf.FirstLine | main/python/commentf_command.py:93-96 | the break loop over `convert(..., empty=True)` always finds a first line and returns it |
| Commentf.ToComment | main/python/commentf_command.py:78-99 | `to_comment` returns exactly `ToCommentText`: the body lines joined by newlines, framed by the header when `add_headers` |
| Commentf.BlockShape | main/python/commentf_command.py:91-97 | with headers some segment is kept, and the result is the header rule over the first kept segment's indent, the body lines `convert` yields with no fill joined by newlines, and the header rule again; it splits back into exactly those lines |
| Commentf.LineCommentShape | python/sublime/plugins/commentf_command.py:85-89 | without headers the result is the body lines joined, and splits back into exactly the lines `convert` kept |
| Commentf.ConvertSingleLine | main/python/commentf_command.py:45-75 | a single line of text yields a single line: the text with its own indent removed, formatted against that indent |
| Commentf.SingleLineKeepsFill | python/sublime/plugins/commentf_command.py:80-82 | single-line text without headers keeps the caller's fill |
| Commentf.MultiLineIgnoresFill | python/sublime/plugins/commentf_command.py:80-82 | text containing `"\n"` gets the same result whatever the fill |
| Commentf.ExampleLine | main/python/commentf_command.py:66-74 | `"foo"` with `#`, `-` fill, left align, width 20 formats as `"# foo --------------"` |
| Commentf.ExampleBodyLine | main/python/commentf_command.py:66-74 | the same text with no fill formats as `"# foo"` |
| Commentf.ExampleHeader | main/python/commentf_command.py:91-96 | the header rule for no indent, `#`, `-`, width 20 is `"# ------------------"` |
| Commentf.ExampleSingleLine | python/sublime/plugins/commentf_command.py:78-99 | `to_comment("foo", "#", "-", "<", 20, add_headers=False)` is `"# foo --------------"` |
| Commentf.ExampleBlock | main/python/commentf_command.py:78-99 | `to_comment("foo", "#", "-", "<", 20)` is `"# ------------------\n# foo\n# ------------------"` |
| Format.Pad | main/python/commentf_command.py:19 | the padded field is `max(\|t\|, width)` wide |
| Format.PadLayout | main/python/commentf_command.py:19 | the text sits intact after `LeftPadLen` characters (0, `floor(d/2)` or `d`) and every other character is the fill character (a space when none is given) |
| Format.PadRuns | main/python/commentf_command.py:19 | the field is three runs: fill, the text, fill |
| Text.RStrip | main/python/commentf_command.py:74 | `re.sub("\s+$", "", s)` is a prefix of `s`, does not end in whitespace, and only whitespace was removed |
| Text.RStripKeeps | main/python/commentf_command.py:74 | stripping never reaches a non-whitespace character |
| Text.RStripClean | main/python/commentf_command.py:74 | a text not ending in whitespace is left unchanged |
| Text.RStripBlankTail | main/python/commentf_command.py:74 | a whitespace-only tail disappears |
| Text.Split | main/python/commentf_command.py:47 | `split` yields at least one piece and no piece holds the separator |
| Text.SplitCount | main/python/commentf_command.py:47 | one piece more than separators |
| Text.Join | main/python/commentf_command.py:89 | `"\n".join(comment)`; `JoinSplit` and `SplitJoin` prove it is the inverse of `Split` |
| Text.JoinSplit | main/python/commentf_command.py:89 | joining the pieces of a split gives the text back |
| Text.SplitJoin | main/python/commentf_command.py:89 | splitting the join of separator-free pieces gives the pieces back |
| Text.SplitFramed | main/python/commentf_command.py:97 | `BLOCK.format(...)` with separator-free header and lines splits into header, lines, header |
| Text.FindFromLeftmost | main/python/commentf_command.py:57 | the search returns the leftmost occurrence, or none when there is none |
| Text.ReplaceFirst | main/python/commentf_command.py:57 | `replace(pat, "", 1)`; stated by `ReplaceFirstCutsLeftmost`, `ReplaceFirstAbsent` and `ReplaceFirstPrefix` (with `FindFromLeftmost`) |
| Text.ReplaceFirstCutsLeftmost | main/python/commentf_command.py:57 | `replace(pat, "", 1)` cuts out the leftmost occurrence and keeps every other character in order |
| Text.ReplaceFirstAbsent | main/python/commentf_command.py:57 | with no occurrence nothing is deleted |
| Text.ReplaceFirstPrefix | main/python/commentf_command.py:57 | when the pattern is a prefix, the replacement strips that prefix |
| Text.RemoveChar | python/sublime/plugins/pydoc_command.py:133 | `text.replace("\n", "")` leaves no newline and is shorter by the number of newlines |
| Text.RemoveCharAppend | python/sublime/plugins/pydoc_command.py:133 | deletion distributes over concatenation: every character other than the deleted one is kept, in order |
| Text.RemoveCharAbsent | python/sublime/plugins/pydoc_command.py:133 | deleting an absent character changes nothing |
| Text.Strip | main/python/pydoc_command.py:170 | `strip()` leaves no whitespace at either end |
| Text.StripBlank | main/python/pydoc_command.py:170 | an all-whitespace piece (the blank piece after a trailing comma) strips to the empty name |
| Text.StripExact | main/python/pydoc_command.py:170 | whitespace around a text without surrounding whitespace is stripped and the text kept |
| Text.AfterLast | main/python/pydoc_command.py:131 | `os.path.basename`: a separator-free suffix, preceded by the separator when shorter than the path |
| Text.BeforeFirst | main/python/pydoc_command.py:169 | `split('=')[0]`: a prefix without the separator, followed by it when shorter than the text |
| Text.TerminatedAppend | main/python/pydoc_command.py:155-177 | docstrings built with `+= "...\n"` concatenate line by line |
| SignatureMatch.LastFrom | python/sublime/plugins/pydoc_command.py:134 | finds the last occurrence of the closer at or before a position, or none |
| SignatureMatch.FindLast | python/sublime/plugins/pydoc_command.py:134 | the greedy `.*` stops at the last closer |
| SignatureMatch.IndentLen | python/sublime/plugins/pydoc_command.py:134 | the indent group is the maximal run of indent characters |
| SignatureMatch.WordThenExact | python/sublime/plugins/pydoc_command.py:134 | `(\w+)` followed by a non-word separator reads back exactly the word and the rest |
| SignatureMatch.ParamsThenSound | python/sublime/plugins/pydoc_command.py:134 | the parameter group holds no newline and, with the closer, is a prefix of what follows `(` |
| SignatureMatch.ParamsThenComplete | python/sublime/plugins/pydoc_command.py:134 | any newline-free group followed by the closer is matched, and the group found is at least as long (greedy) |
| SignatureMatch.IndentLenExact | main/python/pydoc_command.py:71 | an indent run in front of a word character is read back exactly |
| SignatureMatch.MatchHeader | main/python/pydoc_command.py:111 | `re.search` of the signature pattern (also `python/sublime/plugins/pydoc_command.py:134` with `\s` indent and closer `)`); stated by `MatchShape`, `MatchSound`, `MatchComplete`, `MatchExact` and `GreedyExample` |
| SignatureMatch.MatchShape | main/python/pydoc_command.py:71 | a match has the group shapes the pattern allows: indent characters, non-empty word keyword and name |
| SignatureMatch.MatchSound | main/python/pydoc_command.py:111 | a match's groups, reassembled with the literal parts, are a prefix of the line |
| SignatureMatch.MatchComplete | main/python/pydoc_command.py:111 | every line that starts with well-shaped groups and the literal parts matches, with the same indent, keyword and name and a group at least as long |
| SignatureMatch.MatchExact | main/python/pydoc_command.py:111-117 | when the closer does not recur after the group, the match is exactly the given groups |
| SignatureMatch.GreedyExample | main/python/pydoc_command.py:71 | `def f(a=g(1)):` matches with parameter group `a=g(1)`: closers inside the group are taken |
| PydocLegacy.BlockSymbols | python/sublime/plugins/pydoc_command.py:20-28 | `BLOCK_BEGIN_END.get(value, ("***", "***"))`: `/* */` exactly for the C family and JSON, `<!-- -->` for HTML, triple quotes for Python, `***` exactly for unknown syntaxes |
| PydocLegacy.BaseDoc.SetSyntax | python/sublime/plugins/pydoc_command.py:87-102 | the setter stores the syntax and sets `_block_begin`/`_block_end` from the table; fill and width unchanged |
| PydocLegacy.BaseDoc.constructor | python/sublime/plugins/pydoc_command.py:55-74 | `__init__` stores syntax, fill and width, and the block symbols are those of the syntax |
| PydocLegacy.StripDefaults | python/sublime/plugins/pydoc_command.py:142 | `re.sub("\s\|=[^,]+", "", s)` leaves no whitespace and never lengthens |
| PydocLegacy.StripDefaultsKeepsCommas | python/sublime/plugins/pydoc_command.py:140-143 | no comma is deleted, so the parameter count is kept |
| PydocLegacy.StripDefaultsPlain | python/sublime/plugins/pydoc_command.py:142 | text with no whitespace and no `=` passes through unchanged |
| PydocLegacy.StripDefaultsSpace | python/sublime/plugins/pydoc_command.py:142 | whitespace is deleted |
| PydocLegacy.StripDefaultsValue | python/sublime/plugins/pydoc_command.py:142 | `=` and its default value up to the next comma are deleted |
| PydocLegacy.StripDefaultsLoneEquals | python/sublime/plugins/pydoc_command.py:142 | a lone `=` directly before a comma or at the end is kept, since `[^,]+` needs one character |
| PydocLegacy.ParseText | python/sublime/plugins/pydoc_command.py:104-144 | `parse_text`; stated by `ParseTextNoMatch`, `ParseTextMatch`, `ParseTextHeader` and `ParseTextExample`, with `StripDefaults*` for the default-stripping step |
| PydocLegacy.ParseTextNoMatch | python/sublime/plugins/pydoc_command.py:125-135 | text that does not match gives `indent=""`, `keyword=""`, `name=""`, `parameters=[]`, and only such text gives an empty keyword |
| PydocLegacy.ParseTextMatch | python/sublime/plugins/pydoc_command.py:134-143 | on a match the groups are returned; no parameters exactly when the group is empty; otherwise one name per comma plus one, none holding whitespace or a comma |
| PydocLegacy.ParseTextHeader | python/sublime/plugins/pydoc_command.py:133-143 | a newline-free signature ending in `):` parses into its own groups, the parameters being the group stripped of defaults and split at commas (`self` is kept) |
| PydocLegacy.ParseTextExample | python/sublime/plugins/pydoc_command.py:110-118 | `'    def log(message, level="warning"):'` parses to `'    '`, `'def'`, `'log'`, `['message', 'level']` |
| PydocLegacy.ParamLines | python/sublime/plugins/pydoc_command.py:367-370 | two lines per parameter |
| PydocLegacy.ParamLinesAt | python/sublime/plugins/pydoc_command.py:367-370 | the i-th parameter's `:param` and `:type` lines are lines 2i and 2i+1 |
| PydocLegacy.ParamLinesStep | python/sublime/plugins/pydoc_command.py:368-370 | one loop pass appends the parameter's `:param` and `:type` lines |
| PydocLegacy.SphinxParams | python/sublime/plugins/pydoc_command.py:367-372 | the loop builds the pairs in parameter order followed by `:return:` and `:rtype:`, each line ending in a newline |
| PydocLegacy.BaseDoc.OpenLine | python/sublime/plugins/pydoc_command.py:236 | `{block_begin:{fill}<{width}}`; laid out by `OpenCloseLayout` |
| PydocLegacy.BaseDoc.CloseLine | python/sublime/plugins/pydoc_command.py:238 | `{block_end:{fill}>{width}}`; laid out by `OpenCloseLayout` |
| PydocLegacy.BaseDoc.ModuleDoc | python/sublime/plugins/pydoc_command.py:198-219 | `get_module_doc` (and the Sphinx override at lines 320-344): `ModuleTemplate` over the object's opening and closing lines; lines stated by `ModuleTemplateLines` |
| PydocLegacy.BaseDoc.ClassDoc | python/sublime/plugins/pydoc_command.py:251-275 | `get_class_doc` (and the Sphinx override at lines 386-413): `ClassTemplate` over the object's opening and closing lines; lines stated by `ClassTemplateLines` |
| PydocLegacy.ModuleTemplate | python/sublime/plugins/pydoc_command.py:207-210 | the module template (Sphinx version at lines 329-335); lines stated by `ModuleTemplateLines` |
| PydocLegacy.FuncTemplate | python/sublime/plugins/pydoc_command.py:234-238 | the function template (Sphinx version at lines 360-384); lines stated by `FuncTemplateLines` and `SphinxFuncLines` |
| PydocLegacy.ClassTemplate | python/sublime/plugins/pydoc_command.py:262-265 | the class template (Sphinx version at lines 397-403); lines stated by `ClassTemplateLines` |
| PydocLegacy.BaseDoc.FuncDoc | python/sublime/plugins/pydoc_command.py:221-249 | `get_func_doc` (base, or the Sphinx override at lines 346-384) returns the function template over the object's opening and closing lines |
| PydocLegacy.OpenCloseLayout | python/sublime/plugins/pydoc_command.py:236-238 | the opening line is `block_begin` left-aligned and the closing line `block_end` right-aligned in `max(width, \|symbol\|)` characters of fill; the bare symbol when the width is no larger |
| PydocLegacy.FuncTemplateLines | python/sublime/plugins/pydoc_command.py:234-249 | the function docstring starts with an empty line, then the indented opening line and description, (Sphinx: an empty line, each parameter's pair in order, the return fields,) then the indented closing line; the base template ignores the parameters |
| PydocLegacy.SphinxFuncLines | python/sublime/plugins/pydoc_command.py:360-384 | the Sphinx function docstring's lines, in order |
| PydocLegacy.ModuleTemplateLines | python/sublime/plugins/pydoc_command.py:207-219 | the module docstring is the opening line, the module name, (Sphinx, lines 330-344: an empty line, `Description:` and the description line,) and the closing line, each followed by a newline |
| PydocLegacy.ClassTemplateLines | python/sublime/plugins/pydoc_command.py:262-275 | the class docstring's lines: an empty line, the indented opening line and class description, (Sphinx, lines 397-413: an empty line and the public attributes section,) then the indented closing line |
| Docstrings.TabSize | main/python/pydoc_command.py:88-91 | the tab size is the requested one exactly when that is positive and divisible by 4, otherwise 4 |
| Docstrings.Docstringer.constructor | main/python/pydoc_command.py:73-100 | `__init__` keeps the line, sets `_tab` to `_tab_size` spaces and stores what `__analyze` finds |
| Docstrings.Analyze | main/python/pydoc_command.py:102-117 | `__analyze`; stated by `AnalyzeSound`, `AnalyzeMatch` and `AnalyzeExample` |
| Docstrings.AnalyzeSound | main/python/pydoc_command.py:102-117 | a keyword is found exactly on a match; then `_indent` is the leading spaces plus `_tab`, keyword and name are words, and the groups with `(` and `):` are a prefix of the line |
| Docstrings.AnalyzeMatch | main/python/pydoc_command.py:111-117 | a match is stored as read, the tab appended to the indent |
| Docstrings.AnalyzeExample | main/python/pydoc_command.py:111-117 | `    def run(self, edit):` with a tab of four gives indent of eight spaces, `def`, `run`, raw `self, edit` |
| Docstrings.BaseName | main/python/pydoc_command.py:129-131 | a file name containing the separator is reduced to the separator-free part after its last separator; one without is kept whole; a missing file name prints as `None` |
| Docstrings.ModuleText | main/python/pydoc_command.py:119-145 | `module_doc` as a value; stated by `ModuleTextQuoted`, `ModuleTextLines` and `BaseName` |
| Docstrings.Docstringer.ModuleDoc | main/python/pydoc_command.py:119-145 | `module_doc` of the object: `ModuleText` of its line and the file name |
| Docstrings.ModuleTextQuoted | main/python/pydoc_command.py:134-135 | `module_doc` returns `""` exactly when the line starts with three single or three double quotes |
| Docstrings.ModuleTextLines | main/python/pydoc_command.py:129-145 | otherwise its lines are: an extra empty line after a `#!` line, the quotes, the base name, an empty line, `Description:`, the tab-indented description, the quotes |
| Docstrings.ParamName | main/python/pydoc_command.py:169-170 | `p.split('=')[0].strip()` holds no `=` and no surrounding whitespace |
| Docstrings.SpacedName | main/python/pydoc_command.py:169-170 | a name after a space, without default, is read as the name |
| Docstrings.ParamNames | main/python/pydoc_command.py:166-171 | at most one name per piece |
| Docstrings.ParamNamesSnoc | main/python/pydoc_command.py:166-171 | one more piece adds its name, or nothing for a piece exactly `self` |
| Docstrings.ParamNamesCount | main/python/pydoc_command.py:166-168 | the names are as many as the pieces less the pieces exactly equal to `self` |
| Docstrings.ParamNamesAll | main/python/pydoc_command.py:166-171 | without a `self` piece the k-th name is the k-th piece's name |
| Docstrings.SpacedSelfKept | main/python/pydoc_command.py:166-168 | only a piece exactly `self` is skipped: `" self"` (after `", "`) is written |
| Docstrings.EntryLines | main/python/pydoc_command.py:171 | one entry line per name (two for Sphinx) |
| Docstrings.BaseEntriesAt | main/python/pydoc_command.py:171 | the k-th base entry is `indent + name_k + ":"` |
| Docstrings.SphinxEntriesAt | main/python/pydoc_command.py:261-262 | the k-th name's `:param` and `:type` lines are entries 2k and 2k+1 |
| Docstrings.SelfStep | main/python/pydoc_command.py:167-168 | a `self` piece writes nothing |
| Docstrings.BaseStep | main/python/pydoc_command.py:169-171 | any other piece writes its name and a colon |
| Docstrings.SphinxStep | main/python/pydoc_command.py:259-262 | any other piece writes its `:param` and `:type` lines |
| Docstrings.ParamEntries | main/python/pydoc_command.py:166-171 | the loop writes the entry lines of the names of the non-`self` pieces, in order |
| Docstrings.HeadText | main/python/pydoc_command.py:158-159 | the first two statements write the empty line, the quotes and the description line, and an empty line |
| Docstrings.SectionText | main/python/pydoc_command.py:162-164 | the Parameters heading and underline come before the entries |
| Docstrings.BaseTailText | main/python/pydoc_command.py:174-177 | the Returns section is written with the literal `-------\nn`, putting an `n` before the `value` line |
| Docstrings.SphinxTailText | main/python/pydoc_command.py:265-267 | the return fields then the closing quotes |
| Docstrings.BaseFuncDoc | main/python/pydoc_command.py:155-178 | `Docstringer.func_doc` past its keyword test writes `StandardDoc(false, ...)`, the Parameters section only for a non-empty parameter text |
| Docstrings.SphinxFuncDoc | main/python/pydoc_command.py:249-268 | `Sphinx_Docstringer.func_doc` past its special names writes `StandardDoc(true, ...)` |
| Docstrings.StandardFuncDoc | main/python/pydoc_command.py:147-178 | dispatches to the base or Sphinx builder |
| Docstrings.SpecialText | main/python/pydoc_command.py:242-247 | a fixed template exists exactly for `_build_ui`, `_initialize_ui` and `_connect_signals` |
| Docstrings.SpecialDocLines | main/python/pydoc_command.py:37-59 | a `DOC_*` template is: empty line, quotes, description, the indent alone, `:return: n/a`, `:rtype: n/a`, quotes |
| Docstrings.StandardDocLines | main/python/pydoc_command.py:155-178 | the standard docstring is its lines, one per line of text, then the indented closing quotes |
| Docstrings.DefDocLines | main/python/pydoc_command.py:147-178 | for a `def` header without a special name `func_doc` returns the standard docstring of the names of the comma-separated pieces, line by line |
| Docstrings.Docstringer.FuncDoc | main/python/pydoc_command.py:147-178 | `func_doc` (and its Sphinx override at lines 229-268): `""` unless the keyword is `def`; otherwise `FuncText` and `_parameters` replaced by its pieces when a non-empty text |
| Docstrings.FuncText | main/python/pydoc_command.py:147-178 | `func_doc` for a `def` line as a value (Sphinx version at lines 229-268), `None` where it raises; stated by `DefDocLines`, `SpecialDocLines`, `StandardDocLines` and `FuncTextAgain` |
| Docstrings.FuncTextAgain | main/python/pydoc_command.py:165 | a second `func_doc` raises exactly when the first split a non-empty parameter text (or raised); otherwise it returns the same text |
| Docstrings.WordRepr | main/python/pydoc_command.py:189-190 | `repr` of a word-character name: the name in single quotes, as used by `ClassTextLines` |
| Docstrings.ClassText | main/python/pydoc_command.py:180-191 | `class_doc` as a value (Sphinx version at lines 270-285); lines stated by `ClassTextLines` |
| Docstrings.Docstringer.ClassDoc | main/python/pydoc_command.py:180-191 | `class_doc` of the object: `""` unless the keyword is `class`, otherwise `ClassText` |
| Docstrings.ClassTextLines | main/python/pydoc_command.py:180-191 | the class docstring is one description line with the name in `repr` quotes between empty lines, or the Sphinx lines (lines 270-285) and the closing quotes |
| Docstrings.Docstringer.GetDoc | main/python/pydoc_command.py:193-207 | `get_doc` returns `func_doc()` for `def`, leaving `_parameters` as `func_doc` leaves it (so a second call raises after a split), `class_doc()` for `class`, `""` otherwise (including no match), the state unchanged in the last two cases |

## Left out

- The Sublime command classes are left out: `CommentfCommand.run`,
  `PydocCommand.run` and `_get_signature` (view, selection, region, erase
  and insert calls). So is deriving the syntax name from the settings path
  with `os.path.basename`: the lookups take the syntax name as input.
- `get_copyright_public` and `get_copyright_private` are left out. They
  read the clock and are not part of the docstring templates.
- The unused `DOC_MODUE` template is left out, and so is the `commenter`
  property, which refers to an undefined `COMMENTERS`.
- No general regular-expression or `str.format` engine is modelled. Only
  the patterns and format specifications the plugins use are written out.
  `\s` and `\w` are ASCII: `\s` is 0x09-0x0D, 0x1C-0x1F and the space;
  `\w` is letters, digits and `_`. Python 3 would also accept non-ASCII
  whitespace and letters.
- `os.sep` is `/`, as on a POSIX system.
- `repr` is modelled only for names made of word characters. Those are
  the only names the signature pattern can capture.
- Attributes that `Docstringer` starts as `0` or `None` start as the
  empty string. They are only read after a match has set them.
- The format specification `{fill}{align}{width}` is modelled only for
  these cases:
  - `align` is one of `<`, `^`, `>`;
  - the fill is at most one character;
  - the field width is non-negative.

  The model states these conditions as preconditions (`ConvertDefined`,
  `ToCommentDefined`, `BaseDoc.Formattable`) instead of modelling what
  Python does outside them.
  - A negative width raises, and so does a fill of two or more
    characters.
  - `align` values other than the three and the empty text make the
    specification invalid for strings, and Python raises.
- An empty `align` is not modelled. `convert` tests `align in "<"`, and
  `"" in "<"` holds, so `""` takes the left-align branch.
  - With an empty fill, the specification is the bare width, and Python
    left-aligns the text as for `<`.
  - With a one-character fill, the character is read as a different
    option: a digit changes the width, `.` starts a precision, and a sign
    or grouping character raises for strings.
- With headers and no kept segment, `to_comment` passes `None` to
  `convert` and raises. That case is excluded by `ToCommentDefined`.
- Docstrings.ParamNames: the contract states only the bound on the number
  of names. The exact count and the names themselves are stated by
  `ParamNamesCount`, `ParamNamesAll` and `ParamNamesSnoc`.
- Commentf.Kept: the contract states only the bound on the number of kept
  segments. Which segments are kept is stated by `KeptAll`,
  `KeptDropsOnlyZeroLength` and `KeptPrefix`.
