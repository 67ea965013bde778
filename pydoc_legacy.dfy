/**
 * The older docstring generator of `python/sublime/plugins/pydoc_command.py`:
 * block-comment symbols chosen by syntax, a signature parser, and the
 * templates of `BaseDoc` and of its Sphinx-style subclass `SphinxDoc`.
 *
 * The two classes differ only in which template each getter uses, so they
 * are one class here whose constant `sphinx` says which one an object is.
 * Every template line but the last ends in a newline; a template is written
 * as `Terminated(lines)` (each line followed by `\n`) plus its last line.
 */
module PydocLegacy {
  import opened Wrappers
  import opened Text
  import opened Format
  import opened SignatureMatch

  /** `BLOCK_BEGIN_END`: block comment symbols per syntax. */
  const BlockBeginEnd: map<string, (string, string)> := map[
    "C" := ("/*", "*/"),
    "C#" := ("/*", "*/"),
    "C++" := ("/*", "*/"),
    "HTML" := ("<!--", "-->"),
    "Java" := ("/*", "*/"),
    "JSON" := ("/*", "*/"),
    "Python" := ("\"\"\"", "\"\"\"")
  ]

  /** The symbols the `syntax` setter picks: the table's entry, or `***`
      for both when the syntax is not in the table. */
  function BlockSymbols(syntax: string): (symbols: (string, string))
    ensures symbols == ("/*", "*/") <==> syntax in {"C", "C#", "C++", "Java", "JSON"}
    ensures symbols == ("<!--", "-->") <==> syntax == "HTML"
    ensures symbols == ("\"\"\"", "\"\"\"") <==> syntax == "Python"
    ensures symbols == ("***", "***") <==> syntax !in BlockBeginEnd
  {
    if syntax in BlockBeginEnd then BlockBeginEnd[syntax] else ("***", "***")
  }

  /** What `parse_text` returns: the signature's indent, keyword, name and
      parameter names. */
  datatype Tokens = Tokens(indent: string, keyword: string, name: string, parameters: seq<string>)

  /** What `parse_text` returns when the text is not a signature. */
  const NoTokens := Tokens("", "", "", [])

  predicate NotComma(c: char) {
    c != ','
  }

  /** `re.sub("\s|=[^,]+", "", s)`: every whitespace character is deleted,
      and so is every `=` together with the run of non-commas after it (the
      default value), provided that run is not empty. */
  function StripDefaults(s: string): (r: string)
    ensures NoSpace(r)
    ensures |r| <= |s|
    decreases |s|
  {
    if s == [] then []
    else if IsSpace(s[0]) then StripDefaults(s[1..])
    else if s[0] == '=' && |s| > 1 && s[1] != ',' then
      StripDefaults(s[1 + SpanLen(s[1..], NotComma)..])
    else [s[0]] + StripDefaults(s[1..])
  }

  /** `=[^,]+` needs at least one character after `=`: a lone `=` before a
      comma or at the end is kept. */
  lemma StripDefaultsLoneEquals(b: string)
    requires b == [] || b[0] == ','
    ensures StripDefaults("=" + b) == "=" + StripDefaults(b)
  {
    assert ("=" + b)[1..] == b;
  }

  /** Deleting defaults never deletes a comma, so the parameter count is
      kept. */
  lemma {:induction false} StripDefaultsKeepsCommas(s: string)
    ensures CountChar(StripDefaults(s), ',') == CountChar(s, ',')
    decreases |s|
  {
    if s == [] {
    } else if IsSpace(s[0]) {
      StripDefaultsKeepsCommas(s[1..]);
    } else if s[0] == '=' && |s| > 1 && s[1] != ',' {
      var n := 1 + SpanLen(s[1..], NotComma);
      StripDefaultsKeepsCommas(s[n..]);
      assert s == s[..n] + s[n..];
      CountCharAppend(s[..n], s[n..], ',');
      CountCharNone(s[..n], ',');
    } else {
      StripDefaultsKeepsCommas(s[1..]);
      assert [s[0]] + StripDefaults(s[1..]) == StripDefaults(s);
      CountCharAppend([s[0]], StripDefaults(s[1..]), ',');
      CountCharAppend([s[0]], s[1..], ',');
      assert s == [s[0]] + s[1..];
    }
  }

  /** A character that does not occur is counted zero times. */
  lemma {:induction false} CountCharNone(s: string, c: char)
    requires c !in s
    ensures CountChar(s, c) == 0
  {
    if s != [] {
      assert s[0] in s;
      assert forall x :: x in s[1..] ==> x in s;
      CountCharNone(s[1..], c);
    }
  }

  /** `parse_text`: newlines are removed, the text is matched against
      `^(\s*)(\w+) (\w+)\((.*)\)`, and a non-empty parameter group is
      stripped of whitespace and defaults and split at commas. */
  function ParseText(text: string): Tokens
  {
    match MatchHeader(RemoveChar(text, '\n'), false, ")")
    case None => NoTokens
    case Some(sig) =>
      var parameters := if sig.params == [] then [] else Split(StripDefaults(sig.params), ',');
      Tokens(sig.indent, sig.keyword, sig.name, parameters)
  }

  /** Text that is not a signature gives the defaults, and only such text
      gives an empty keyword. */
  lemma ParseTextNoMatch(text: string)
    ensures var m := MatchHeader(RemoveChar(text, '\n'), false, ")");
      && (m.None? ==> ParseText(text) == NoTokens)
      && (ParseText(text).keyword == [] <==> m.None?)
  {
    MatchShape(RemoveChar(text, '\n'), false, ")");
  }

  /** On a signature: the groups are returned as matched; there are no
      parameter names exactly when the group is empty; otherwise there is
      one name per comma plus one, and no name holds whitespace or a
      comma. */
  lemma ParseTextMatch(text: string)
    ensures var m := MatchHeader(RemoveChar(text, '\n'), false, ")");
      var t := ParseText(text);
      m.Some? ==>
        && t.indent == m.value.indent
        && t.keyword == m.value.keyword
        && t.name == m.value.name
        && (t.parameters == [] <==> m.value.params == [])
        && (m.value.params != [] ==> |t.parameters| == CountChar(m.value.params, ',') + 1)
        && (forall i :: 0 <= i < |t.parameters| ==> NoSpace(t.parameters[i]) && ',' !in t.parameters[i])
  {
    var m := MatchHeader(RemoveChar(text, '\n'), false, ")");
    if m.Some? && m.value.params != [] {
      var c := StripDefaults(m.value.params);
      var ps := Split(c, ',');
      SplitCount(c, ',');
      StripDefaultsKeepsCommas(m.value.params);
      SplitChars(c, ',');
    }
  }

  /** Text with no whitespace and no `=` passes through unchanged, and
      processing goes on after it. */
  lemma {:induction false} StripDefaultsPlain(a: string, b: string)
    requires NoSpace(a) && '=' !in a
    ensures StripDefaults(a + b) == a + StripDefaults(b)
  {
    if a != [] {
      assert a[0] in a && (a + b)[1..] == a[1..] + b;
      StripDefaultsPlain(a[1..], b);
      assert a == [a[0]] + a[1..];
    } else {
      assert a + b == b;
    }
  }

  /** Whitespace is deleted. */
  lemma StripDefaultsSpace(c: char, b: string)
    requires IsSpace(c)
    ensures StripDefaults([c] + b) == StripDefaults(b)
  {
    assert ([c] + b)[1..] == b;
  }

  /** A default value running to the next comma (or the end) is deleted
      with its `=`. */
  lemma StripDefaultsValue(d: string, b: string)
    requires d != [] && ',' !in d
    requires b == [] || b[0] == ','
    ensures StripDefaults("=" + d + b) == StripDefaults(b)
  {
    var s := "=" + d + b;
    assert s[1..] == d + b && s[1] == d[0];
    assert forall i :: 0 <= i < |d| ==> (d + b)[i] == d[i];
    SpanLenExact(d + b, NotComma, |d|);
    assert s[1 + |d|..] == b;
  }

  /** A newline-free signature line whose closing parenthesis is followed
      only by a colon parses into its own groups. */
  lemma ParseTextHeader(text: string, sig: Signature)
    requires WellShaped(sig, false) && '\n' !in text
    requires text == HeaderText(sig, ")") + ":"
    ensures ParseText(text) == Tokens(sig.indent, sig.keyword, sig.name,
      if sig.params == [] then [] else Split(StripDefaults(sig.params), ','))
  {
    RemoveCharAbsent(text, '\n');
    assert forall j :: 0 < j ==> !OccursAt(")" + ":", ")", j) by {
      assert (")" + ":")[1..2] == ":";
    }
    MatchExact(text, false, ")", sig, ":");
  }

  /** The example of the `parse_text` documentation: the default value is
      dropped and the two parameter names are kept. */
  lemma ParseTextExample(text: string, message: string, level: string)
    requires message == "message" && level == "level"
    requires text == "    " + "def" + " " + "log" + "(" + (message + ", " + level + "=\"warning\"") + ")" + ":"
    ensures ParseText(text) == Tokens("    ", "def", "log", [message, level])
  {
    var ps := message + ", " + level + "=\"warning\"";
    var sig := Signature("    ", "def", "log", ps);
    LogNoNewline(text, ps);
    LogShape(ps, sig);
    assert text == HeaderText(sig, ")") + ":";
    ParseTextHeader(text, sig);
    StripExample(ps, message, level);
    SplitExample(message + "," + level, message, level);
  }

  lemma LogNoNewline(text: string, ps: string)
    requires ps == "message" + ", " + "level" + "=\"warning\""
    requires text == "    " + "def" + " " + "log" + "(" + ps + ")" + ":"
    ensures '\n' !in text
  {
  }

  lemma LogShape(ps: string, sig: Signature)
    requires ps == "message" + ", " + "level" + "=\"warning\""
    requires sig == Signature("    ", "def", "log", ps)
    ensures WellShaped(sig, false)
  {
  }

  lemma StripExample(ps: string, message: string, level: string)
    requires message == "message" && level == "level"
    requires ps == message + ", " + level + "=\"warning\""
    ensures StripDefaults(ps) == message + "," + level
  {
    var d := "\"warning\"";
    var value := "=" + d + [];
    var after := level + value;
    assert ps == (message + ",") + ([' '] + after);
    ExampleWords(message, level);
    StripDefaultsPlain(message + ",", [' '] + after);
    StripDefaultsSpace(' ', after);
    StripDefaultsPlain(level, value);
    ExampleDefault(d);
    StripDefaultsValue(d, []);
    assert level + [] == level;
  }

  /** The example's parameter words hold no space and no `=`. */
  lemma ExampleWords(message: string, level: string)
    requires message == "message" && level == "level"
    ensures NoSpace(message + ",") && '=' !in message + ","
    ensures NoSpace(level) && '=' !in level
  {
  }

  /** The example's default value holds no comma. */
  lemma ExampleDefault(d: string)
    requires d == "\"warning\""
    ensures d != [] && ',' !in d
  {
  }

  lemma SplitExample(c: string, message: string, level: string)
    requires message == "message" && level == "level"
    requires c == message + "," + level
    ensures Split(c, ',') == [message, level]
  {
    assert c == message + [','] + level;
    SplitAppend(message, level, ',');
    SplitNoSep(message, ',');
    SplitNoSep(level, ',');
  }

  /** The `:param`/`:type` line pair `SphinxDoc.get_func_doc` writes for
      each parameter, in order. */
  function ParamLines(indent: string, parameters: seq<string>): (lines: seq<string>)
    ensures |lines| == 2 * |parameters|
  {
    if parameters == [] then []
    else
      var p := parameters[|parameters| - 1];
      ParamLines(indent, parameters[..|parameters| - 1])
        + [indent + ":param " + p + ":", indent + ":type " + p + ":"]
  }

  /** The `i`-th parameter's pair sits at lines `2i` and `2i + 1`. */
  lemma {:induction false} ParamLinesAt(indent: string, parameters: seq<string>, i: nat)
    requires i < |parameters|
    ensures ParamLines(indent, parameters)[2 * i] == indent + ":param " + parameters[i] + ":"
    ensures ParamLines(indent, parameters)[2 * i + 1] == indent + ":type " + parameters[i] + ":"
  {
    var n := |parameters| - 1;
    if i < n {
      ParamLinesAt(indent, parameters[..n], i);
    }
  }

  /** The lines after the parameter pairs. */
  function ReturnLines(indent: string): seq<string> {
    [indent + ":return:", indent + ":rtype:"]
  }

  /** A `BaseDoc` (`sphinx` false) or a `SphinxDoc` (`sphinx` true). */
  class BaseDoc {
    const sphinx: bool
    var syntax: string
    var blockBegin: string
    var blockEnd: string
    var fill: string
    var width: int

    /** `__init__`: the block symbols start empty, assigning the syntax picks
        them, then the fill and the width are stored. */
    constructor (syntax: string, fill: string, width: int, sphinx: bool)
      ensures this.sphinx == sphinx && this.syntax == syntax
      ensures (blockBegin, blockEnd) == BlockSymbols(syntax)
      ensures this.fill == fill && this.width == width
    {
      this.sphinx := sphinx;
      blockBegin, blockEnd := "", "";
      new;
      SetSyntax(syntax);
      this.fill := fill;
      this.width := width;
    }

    /** The `syntax` setter: stores the syntax and picks the block symbols
        for it. */
    method SetSyntax(value: string)
      modifies this
      ensures syntax == value && (blockBegin, blockEnd) == BlockSymbols(value)
      ensures fill == old(fill) && width == old(width)
    {
      syntax := value;
      blockBegin, blockEnd := BlockSymbols(value).0, BlockSymbols(value).1;
    }

    /** Python accepts the format specification `{fill}<{width}` only for a
        fill of at most one character and a non-negative width. */
    predicate Formattable()
      reads this
    {
      |fill| <= 1 && width >= 0
    }

    /** `{block_begin:{fill}<{width}}` */
    function OpenLine(): string
      reads this
      requires Formattable()
    {
      Pad(blockBegin, fill, Left, width)
    }

    /** `{block_end:{fill}>{width}}` */
    function CloseLine(): string
      reads this
      requires Formattable()
    {
      Pad(blockEnd, fill, Right, width)
    }

    /** `get_module_doc` */
    function ModuleDoc(name: string): string
      reads this
      requires Formattable()
    {
      ModuleTemplate(sphinx, OpenLine(), CloseLine(), name)
    }

    /** `get_func_doc`; the Sphinx version builds its parameter fields in a
        loop. */
    method FuncDoc(indent: string, name: string, parameters: seq<string>) returns (doc: string)
      requires Formattable()
      ensures doc == FuncTemplate(sphinx, OpenLine(), CloseLine(), indent, name, parameters)
    {
      var head := ["", indent + OpenLine(), indent + "Description of callable < " + name + " >"];
      if sphinx {
        var params := SphinxParams(indent, parameters);
        doc := Terminated(head + [""], '\n') + params + indent + CloseLine();
      } else {
        doc := Terminated(head, '\n') + indent + CloseLine();
      }
    }

    /** `get_class_doc` */
    function ClassDoc(indent: string, name: string): string
      reads this
      requires Formattable()
    {
      ClassTemplate(sphinx, OpenLine(), CloseLine(), indent, name)
    }
  }

  /** The module docstring template around the given opening and closing
      lines: the opening line, the name, (for Sphinx an empty line and a
      description,) the closing line; every line ends in a newline. */
  function ModuleTemplate(sphinx: bool, open: string, close: string, name: string): string {
    if sphinx then
      Terminated([open, name, "", "Description:", "    description of module < " + name + " >", close], '\n')
    else
      Terminated([open, name, close], '\n')
  }

  /** The function docstring template: a newline, then the indented opening
      line and description, (for Sphinx an empty line and the parameter
      fields,) and the indented closing line with no newline after it. The
      base template does not use `parameters`. */
  function FuncTemplate(sphinx: bool, open: string, close: string, indent: string, name: string, parameters: seq<string>): string {
    var head := ["", indent + open, indent + "Description of callable < " + name + " >"];
    if sphinx then
      Terminated(head + [""], '\n') + ParamFields(indent, parameters) + indent + close
    else
      Terminated(head, '\n') + indent + close
  }

  /** The class docstring template: like the function one with a class
      description; the Sphinx version adds a public attributes section in
      place of the parameter fields. */
  function ClassTemplate(sphinx: bool, open: string, close: string, indent: string, name: string): string {
    var head := ["", indent + open, indent + "Description of class < " + name + " >"];
    if sphinx then
      Terminated(head + ["", indent + "Public Attributes:", indent + "    attr1:"], '\n') + indent + close
    else
      Terminated(head, '\n') + indent + close
  }

  /** The parameter fields of the Sphinx function docstring: a pair of lines
      per parameter, then the return fields, every line ending in a
      newline. */
  function ParamFields(indent: string, parameters: seq<string>): string {
    Terminated(ParamLines(indent, parameters) + ReturnLines(indent), '\n')
  }

  /** The loop of `SphinxDoc.get_func_doc` that builds the parameter
      fields. */
  method SphinxParams(indent: string, parameters: seq<string>) returns (params: string)
    ensures params == ParamFields(indent, parameters)
  {
    params := "";
    for i := 0 to |parameters|
      invariant params == Terminated(ParamLines(indent, parameters[..i]), '\n')
    {
      var p := parameters[i];
      ParamLinesStep(indent, parameters, i);
      params := params + indent + ":param " + p + ":\n";
      params := params + indent + ":type " + p + ":\n";
    }
    assert parameters[..|parameters|] == parameters;
    params := params + indent + ":return:\n";
    params := params + indent + ":rtype:\n";
    TerminatedAppend(ParamLines(indent, parameters), ReturnLines(indent), '\n');
    TerminatedPair(ReturnLines(indent), '\n');
  }

  /** One more parameter appends its pair of lines. */
  lemma ParamLinesStep(indent: string, parameters: seq<string>, i: nat)
    requires i < |parameters|
    ensures var p := parameters[i];
      Terminated(ParamLines(indent, parameters[..i + 1]), '\n')
        == Terminated(ParamLines(indent, parameters[..i]), '\n') + indent + ":param " + p + ":\n" + indent + ":type " + p + ":\n"
  {
    var p := parameters[i];
    var pair := [indent + ":param " + p + ":", indent + ":type " + p + ":"];
    assert parameters[..i + 1][..i] == parameters[..i];
    assert ParamLines(indent, parameters[..i + 1]) == ParamLines(indent, parameters[..i]) + pair;
    TerminatedAppend(ParamLines(indent, parameters[..i]), pair, '\n');
    TerminatedPair(pair, '\n');
  }

  /** Newline-free indent and parameters give newline-free parameter
      lines. */
  lemma {:induction false} ParamLinesSingle(indent: string, parameters: seq<string>)
    requires '\n' !in indent && SingleLines(parameters, '\n')
    ensures SingleLines(ParamLines(indent, parameters), '\n')
  {
    if parameters != [] {
      var n := |parameters| - 1;
      assert SingleLines(parameters[..n], '\n') by {
        assert forall i :: 0 <= i < n ==> parameters[..n][i] == parameters[i];
      }
      ParamLinesSingle(indent, parameters[..n]);
      assert parameters[n] == parameters[n];
    }
  }

  /** The opening and closing lines are `max(width, |symbol|)` wide: the
      opening line starts with the opening symbol, the closing line ends with
      the closing symbol, and everything else is the fill character; a
      width no larger than the symbol (the command uses width 0) leaves the
      bare symbol. Neither line holds a newline unless a symbol or the fill
      does. */
  lemma OpenCloseLayout(d: BaseDoc)
    requires d.Formattable()
    ensures var open, bb := d.OpenLine(), d.blockBegin;
      && |open| == (if |bb| < d.width then d.width else |bb|)
      && open[..|bb|] == bb
      && (forall i :: |bb| <= i < |open| ==> open[i] == FillChar(d.fill))
      && (d.width <= |bb| ==> open == bb)
    ensures var close, be := d.CloseLine(), d.blockEnd;
      && |close| == (if |be| < d.width then d.width else |be|)
      && close[|close| - |be|..] == be
      && (forall i :: 0 <= i < |close| - |be| ==> close[i] == FillChar(d.fill))
      && (d.width <= |be| ==> close == be)
    ensures '\n' !in d.blockBegin + d.blockEnd + d.fill ==> '\n' !in d.OpenLine() && '\n' !in d.CloseLine()
  {
    PadLayout(d.blockBegin, d.fill, Left, d.width);
    PadLayout(d.blockEnd, d.fill, Right, d.width);
    if '\n' !in d.blockBegin + d.blockEnd + d.fill {
      assert FillChar(d.fill) != '\n' by {
        if d.fill != [] {
          assert d.fill[0] == (d.blockBegin + d.blockEnd + d.fill)[|d.blockBegin + d.blockEnd|];
        }
      }
      assert forall i :: 0 <= i < |d.blockBegin| ==> d.blockBegin[i] == (d.blockBegin + d.blockEnd + d.fill)[i];
      assert forall i :: 0 <= i < |d.blockEnd| ==> d.blockEnd[i] == (d.blockBegin + d.blockEnd + d.fill)[|d.blockBegin| + i];
    }
  }

  /** The lines of the function docstring: an empty first line (the
      docstring goes after the signature line), the indented opening line
      and description, then for Sphinx an empty line, each parameter's
      `:param`/`:type` pair in order and the return fields, and last the
      indented closing line, with no newline after it. */
  lemma FuncTemplateLines(sphinx: bool, open: string, close: string, indent: string, name: string, parameters: seq<string>)
    requires '\n' !in open && '\n' !in close
    requires '\n' !in indent && '\n' !in name && SingleLines(parameters, '\n')
    ensures var head := ["", indent + open, indent + "Description of callable < " + name + " >"];
      Split(FuncTemplate(sphinx, open, close, indent, name, parameters), '\n')
        == if sphinx then head + [""] + ParamLines(indent, parameters) + ReturnLines(indent) + [indent + close]
           else head + [indent + close]
  {
    var head := ["", indent + open, indent + "Description of callable < " + name + " >"];
    var last := indent + close;
    if sphinx {
      SphinxFuncLines(open, close, indent, name, parameters);
    } else {
      assert FuncTemplate(sphinx, open, close, indent, name, parameters) == Terminated(head, '\n') + last;
      SplitTerminated(head, last, '\n');
      SplitNoSep(last, '\n');
    }
  }

  lemma SphinxFuncLines(open: string, close: string, indent: string, name: string, parameters: seq<string>)
    requires '\n' !in open && '\n' !in close
    requires '\n' !in indent && '\n' !in name && SingleLines(parameters, '\n')
    ensures var head := ["", indent + open, indent + "Description of callable < " + name + " >"];
      Split(FuncTemplate(true, open, close, indent, name, parameters), '\n')
        == head + [""] + ParamLines(indent, parameters) + ReturnLines(indent) + [indent + close]
  {
    var head := ["", indent + open, indent + "Description of callable < " + name + " >"];
    var last := indent + close;
    var pl := ParamLines(indent, parameters);
    var all := head + [""] + pl + ReturnLines(indent);
    assert SingleLines(all, '\n') by {
      ParamLinesSingle(indent, parameters);
      assert forall i :: 0 <= i < |pl| ==> all[4 + i] == pl[i];
    }
    assert FuncTemplate(true, open, close, indent, name, parameters) == Terminated(all, '\n') + last by {
      TerminatedAppend(head + [""], pl + ReturnLines(indent), '\n');
      assert head + [""] + (pl + ReturnLines(indent)) == all;
    }
    SplitTerminated(all, last, '\n');
    SplitNoSep(last, '\n');
  }

  /** The lines of the module docstring; it ends in a newline, hence the
      empty last piece. */
  lemma ModuleTemplateLines(sphinx: bool, open: string, close: string, name: string)
    requires '\n' !in open && '\n' !in close && '\n' !in name
    ensures Split(ModuleTemplate(sphinx, open, close, name), '\n')
      == if sphinx then [open, name, "", "Description:", "    description of module < " + name + " >", close, ""]
         else [open, name, close, ""]
  {
    var lines := if sphinx then [open, name, "", "Description:", "    description of module < " + name + " >", close]
      else [open, name, close];
    assert ModuleTemplate(sphinx, open, close, name) == Terminated(lines, '\n') + [];
    SplitTerminated(lines, [], '\n');
  }

  /** The lines of the class docstring. */
  lemma ClassTemplateLines(sphinx: bool, open: string, close: string, indent: string, name: string)
    requires '\n' !in open && '\n' !in close
    requires '\n' !in indent && '\n' !in name
    ensures var head := ["", indent + open, indent + "Description of class < " + name + " >"];
      Split(ClassTemplate(sphinx, open, close, indent, name), '\n')
        == if sphinx then head + ["", indent + "Public Attributes:", indent + "    attr1:"] + [indent + close]
           else head + [indent + close]
  {
    var head := ["", indent + open, indent + "Description of class < " + name + " >"];
    var lines := if sphinx then head + ["", indent + "Public Attributes:", indent + "    attr1:"] else head;
    assert SingleLines(lines, '\n') by {
      ClassLiterals();
    }
    assert ClassTemplate(sphinx, open, close, indent, name) == Terminated(lines, '\n') + (indent + close);
    SplitTemplate(lines, indent + close, '\n');
  }

  /** The fixed parts of the class templates have no newline, stated apart
      so that `ClassTemplateLines` does not unfold the literals itself. */
  lemma ClassLiterals()
    ensures '\n' !in "Description of class < " && '\n' !in " >"
    ensures '\n' !in "Public Attributes:" && '\n' !in "    attr1:"
  {
  }
}
