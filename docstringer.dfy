/**
 * The docstring generator of `main/python/pydoc_command.py`: a
 * `Docstringer` reads one line of Python, matches it against
 * `^( *)(\w+) (\w+)\((.*)\):`, and produces a module, function or class
 * docstring; a `Sphinx_Docstringer` overrides the function and class
 * docstrings with Sphinx fields and has fixed docstrings for three method
 * names.
 *
 * The two classes are one class here whose constant `sphinx` says which one
 * an object is. The attributes the source starts as `0` or `None` start as
 * the empty string: they are only read after a match has set them, and a
 * keyword compares unequal to `def` and `class` either way.
 */
module Docstrings {
  import opened Wrappers
  import opened Text
  import opened SignatureMatch

  /** Three double quotes, which open and close every docstring. */
  const Quotes := "\"\"\""

  /** `os.sep` on a POSIX system. */
  const PathSep := '/'

  /** The body lines of `DOC_BUILD_UI`, `DOC_INITIALIZE_UI` and
      `DOC_CONNECT_SIGNALS`. */
  const BuildUiText := "Defines all ui elements"
  const InitializeUiText := "Initializes all ui elements " + "to their default state"
  const ConnectSignalsText := "Defines all " + "SIGNAL/SLOT connections"

  /** The fixed Sphinx description for the method names the templates are
      for, and none for any other name. */
  function SpecialText(name: string): (text: Option<string>)
    ensures text.Some? <==> name in {"_build_ui", "_initialize_ui", "_connect_signals"}
  {
    if name == "_build_ui" then Some(BuildUiText)
    else if name == "_initialize_ui" then Some(InitializeUiText)
    else if name == "_connect_signals" then Some(ConnectSignalsText)
    else None
  }

  /** The lines of a `DOC_*` template before its closing quotes; the line
      between the description and the fields holds the indent alone. */
  function SpecialLines(indent: string, text: string): seq<string> {
    ["", indent + Quotes, indent + text, indent, indent + ":return: n/a", indent + ":rtype: n/a"]
  }

  /** A `DOC_*` template formatted with `indent`. */
  function SpecialDoc(indent: string, text: string): string {
    Terminated(SpecialLines(indent, text), '\n') + indent + Quotes
  }

  /** The tab width the constructor keeps: the requested one when it is a
      positive multiple of four, otherwise four. */
  function TabSize(requested: int): (size: nat)
    ensures size > 0 && size % 4 == 0
    ensures size == requested <==> requested > 0 && requested % 4 == 0
    ensures !(requested > 0 && requested % 4 == 0) ==> size == 4
  {
    if requested > 0 && requested % 4 == 0 then requested else 4
  }

  /** `_parameters`: the raw parameter text of the match, or the list
      `func_doc` replaces it with when it splits it at commas. */
  datatype Params = Raw(text: string) | Names(pieces: seq<string>)

  /** What `__analyze` stores. */
  datatype Analysis = Analysis(indent: string, keyword: string, name: string, parameters: Params)

  /** `__analyze`: on a match, the docstring indent is the line's indent
      plus one tab, and keyword, name and raw parameter text are the groups;
      otherwise every attribute keeps its initial (empty) value. */
  function Analyze(line: string, tab: string): Analysis
  {
    match MatchHeader(line, true, "):")
    case None => Analysis("", "", "", Raw(""))
    case Some(sig) => Analysis(sig.indent + tab, sig.keyword, sig.name, Raw(sig.params))
  }

  /** The analysis finds a keyword exactly when the line is a header; then
      the docstring indent is the header's run of spaces followed by the
      tab, and indent, keyword, name, raw parameters and `):` are a prefix
      of the line. */
  lemma AnalyzeSound(line: string, tab: string)
    ensures var a := Analyze(line, tab);
      && (a.keyword != [] <==> MatchHeader(line, true, "):").Some?)
      && (a.keyword != [] ==>
            var k := |a.indent| - |tab|;
            && k >= 0 && a.indent[k..] == tab
            && (forall i :: 0 <= i < k ==> a.indent[i] == ' ')
            && AllWord(a.keyword) && AllWord(a.name) && a.name != []
            && a.parameters.Raw? && '\n' !in a.parameters.text
            && StartsWith(line, a.indent[..k] + a.keyword + " " + a.name + "(" + a.parameters.text + "):"))
  {
    MatchSound(line, true, "):");
    var m := MatchHeader(line, true, "):");
    if m.Some? {
      var sig := m.value;
      assert (sig.indent + tab)[..|sig.indent|] == sig.indent;
      assert (sig.indent + tab)[|sig.indent|..] == tab;
    }
  }

  /** `p.split('=')[0].strip()`: the parameter name without its default. */
  function ParamName(p: string): (name: string)
    ensures '=' !in name
    ensures name == [] || (!IsSpace(name[0]) && !IsSpace(name[|name| - 1]))
  {
    var n := Strip(BeforeFirst(p, '='));
    StripNotIn(BeforeFirst(p, '='), '=');
    n
  }

  /** The names `func_doc` writes for the comma-separated pieces, in order;
      a piece that is exactly `self` is skipped. */
  function ParamNames(pieces: seq<string>): (names: seq<string>)
    ensures |names| <= |pieces|
  {
    if pieces == [] then []
    else
      var p := pieces[|pieces| - 1];
      ParamNames(pieces[..|pieces| - 1]) + (if p == "self" then [] else [ParamName(p)])
  }

  /** The docstring lines written for one parameter name. */
  function Entry(sphinx: bool, indent: string, name: string): seq<string> {
    if sphinx then [indent + ":param " + name + ":", indent + ":type " + name + ":"]
    else [indent + name + ":"]
  }

  /** The docstring lines written for the names, in order. */
  function EntryLines(sphinx: bool, indent: string, names: seq<string>): (lines: seq<string>)
    ensures |lines| == (if sphinx then 2 else 1) * |names|
  {
    if names == [] then []
    else EntryLines(sphinx, indent, names[..|names| - 1]) + Entry(sphinx, indent, names[|names| - 1])
  }

  /** The lines of the standard function docstring before its closing
      quotes. `names` is `None` when the parameter text is empty: the base
      docstring then has no Parameters section. The base Returns section is
      written with the literal `-------\nn`, which puts an `n` in front of
      the `value` line. */
  function StandardLines(sphinx: bool, indent: string, name: string, names: Option<seq<string>>): seq<string> {
    var head := ["", indent + Quotes, indent + "Description of callable <" + name + ">", ""];
    if sphinx then
      head
        + (if names.Some? then EntryLines(true, indent, names.value) else [])
        + [indent + ":return:", indent + ":rtype:"]
    else
      head
        + (if names.Some? then [indent + "Parameters", indent + "----------"] + EntryLines(false, indent, names.value) else [])
        + ["", indent + "Returns", indent + "-------", "n" + indent + "value"]
  }

  /** The standard function docstring. */
  function StandardDoc(sphinx: bool, indent: string, name: string, names: Option<seq<string>>): string {
    Terminated(StandardLines(sphinx, indent, name, names), '\n') + indent + Quotes
  }

  /** What `func_doc` returns for a `def` line, given `_parameters`: `None`
      stands for the `AttributeError` raised when the parameters were
      already split by an earlier call (a list has no `split`). */
  function FuncText(sphinx: bool, indent: string, name: string, params: Params): Option<string> {
    if sphinx && SpecialText(name).Some? then Some(SpecialDoc(indent, SpecialText(name).value))
    else
      match params
      case Raw(text) =>
        Some(StandardDoc(sphinx, indent, name, if text == [] then None else Some(ParamNames(Split(text, ',')))))
      case Names(pieces) =>
        if pieces == [] then Some(StandardDoc(sphinx, indent, name, None)) else None
  }

  /** `_parameters` after `func_doc` on a `def` line: a non-empty raw text is
      replaced by its comma-separated pieces. */
  function ParamsAfter(sphinx: bool, name: string, params: Params): Params {
    if sphinx && SpecialText(name).Some? then params
    else
      match params
      case Raw(text) => if text == [] then params else Names(Split(text, ','))
      case Names(_) => params
  }

  /** `repr` of a name made of word characters: the name in single
      quotes. */
  function WordRepr(name: string): string {
    "'" + name + "'"
  }

  /** The lines of the Sphinx class docstring before its closing quotes. */
  function SphinxClassLines(indent: string, tab: string, name: string): seq<string> {
    ["", indent + Quotes, indent + "Description of <class " + WordRepr(name) + ">", "",
     indent + "Public Attributes:", indent + tab + "attr1:"]
  }

  /** The file name `module_doc` writes: the part after the last path
      separator of a name that has one, and `None` formatted for a buffer
      without a file. */
  function BaseName(filename: Option<string>): (name: string)
    ensures filename.None? ==> name == "None"
    ensures filename.Some? ==> PathSep !in name
    ensures filename.Some? ==> |name| <= |filename.value| && name == filename.value[|filename.value| - |name|..]
    ensures filename.Some? && PathSep !in filename.value ==> name == filename.value
    ensures filename.Some? && PathSep in filename.value ==>
      |name| < |filename.value| && filename.value[|filename.value| - |name| - 1] == PathSep
  {
    match filename
    case None => "None"
    case Some(f) => if f != [] && PathSep in f then AfterLast(f, PathSep) else f
  }

  /** The class docstring for a `class` header: Sphinx lines, or one line
      holding the description between the quotes. */
  function ClassText(sphinx: bool, indent: string, tab: string, name: string): string {
    if sphinx then Terminated(SphinxClassLines(indent, tab, name), '\n') + indent + Quotes
    else "\n" + indent + Quotes + " Description of <class " + WordRepr(name) + "> " + Quotes + "\n"
  }

  /** The docstring text of `module_doc`, given the line and the file name
      (`None` when the buffer has no file). */
  function ModuleText(line: string, filename: Option<string>): string {
    var name := BaseName(filename);
    if StartsWith(line, "'''") || StartsWith(line, Quotes) then ""
    else
      (if StartsWith(line, "#!") then "\n" + Quotes + "\n" else Quotes + "\n")
        + name + "\n\n" + "Description:\n" + "\tModule description\n" + Quotes
  }

  /** A `Docstringer` (`sphinx` false) or a `Sphinx_Docstringer` (`sphinx`
      true) for one line. */
  class Docstringer {
    const sphinx: bool
    const line: string
    const tabSize: nat
    const tab: string
    const indent: string
    const keyword: string
    const objName: string
    var parameters: Params

    /** `__init__`: keeps the line, settles the tab, and stores what
        `__analyze` finds in the line. */
    constructor (line: string, tabSize: int, sphinx: bool)
      ensures this.sphinx == sphinx && this.line == line
      ensures this.tabSize == TabSize(tabSize) && tab == Repeat(' ', this.tabSize)
      ensures Analysis(indent, keyword, objName, parameters) == Analyze(line, tab)
    {
      this.sphinx := sphinx;
      this.line := line;
      this.tabSize := TabSize(tabSize);
      var t := Repeat(' ', TabSize(tabSize));
      this.tab := t;
      var a := Analyze(line, t);
      indent, keyword, objName, parameters := a.indent, a.keyword, a.name, a.parameters;
    }

    /** `module_doc` */
    function ModuleDoc(filename: Option<string>): string
      reads this
    {
      ModuleText(line, filename)
    }

    /** `func_doc`: the empty text unless the line is a `def` header; then
        the docstring (or `None` when it raises), and `_parameters` split at
        commas when it was a non-empty raw text. */
    method FuncDoc() returns (doc: Option<string>)
      modifies this
      ensures keyword != "def" ==> doc == Some("") && parameters == old(parameters)
      ensures keyword == "def" ==> doc == FuncText(sphinx, indent, objName, old(parameters))
      ensures keyword == "def" ==> parameters == ParamsAfter(sphinx, objName, old(parameters))
    {
      if keyword != "def" {
        return Some("");
      }
      if sphinx {
        var special := SpecialText(objName);
        if special.Some? {
          return Some(SpecialDoc(indent, special.value));
        }
      }
      match parameters
      case Names(pieces) =>
        if pieces != [] {
          return None;
        }
        var d := StandardFuncDoc(sphinx, indent, objName, None);
        doc := Some(d);
      case Raw(text) =>
        var pieces: Option<seq<string>> := None;
        if text != [] {
          pieces := Some(Split(text, ','));
          parameters := Names(pieces.value);
        }
        var d := StandardFuncDoc(sphinx, indent, objName, pieces);
        doc := Some(d);
    }

    /** `class_doc`: the empty text unless the line is a `class` header. */
    function ClassDoc(): string
      reads this
    {
      if keyword != "class" then "" else ClassText(sphinx, indent, tab, objName)
    }

    /** `get_doc`: the function docstring for a `def` line, the class
        docstring for a `class` line, otherwise the empty text. */
    method GetDoc() returns (doc: Option<string>)
      modifies this
      ensures keyword == "def" ==> doc == FuncText(sphinx, indent, objName, old(parameters))
      ensures keyword == "def" ==> parameters == ParamsAfter(sphinx, objName, old(parameters))
      ensures keyword == "class" ==> doc == Some(ClassDoc()) && parameters == old(parameters)
      ensures keyword != "def" && keyword != "class" ==> doc == Some("") && parameters == old(parameters)
    {
      if keyword == "def" {
        doc := FuncDoc();
      } else if keyword == "class" {
        doc := Some(ClassDoc());
      } else {
        doc := Some("");
      }
    }
  }

  /** The standard function docstring, built as `func_doc` builds it. */
  method StandardFuncDoc(sphinx: bool, indent: string, name: string, pieces: Option<seq<string>>) returns (doc: string)
    ensures doc == StandardDoc(sphinx, indent, name, if pieces.None? then None else Some(ParamNames(pieces.value)))
  {
    if sphinx {
      doc := SphinxFuncDoc(indent, name, pieces);
    } else {
      doc := BaseFuncDoc(indent, name, pieces);
    }
  }

  /** `Docstringer.func_doc` past its keyword test. */
  method BaseFuncDoc(indent: string, name: string, pieces: Option<seq<string>>) returns (doc: string)
    ensures doc == StandardDoc(false, indent, name, if pieces.None? then None else Some(ParamNames(pieces.value)))
  {
    ghost var head := ["", indent + Quotes, indent + "Description of callable <" + name + ">", ""];
    doc := "\n" + indent + Quotes + "\n";
    doc := doc + indent + "Description of callable <" + name + ">\n\n";
    HeadText(head, doc, indent, name);
    ghost var section: seq<string> := [];
    assert head + section == head;
    if pieces.Some? {
      doc := doc + indent + "Parameters\n";
      doc := doc + indent + "----------\n";
      var entries := ParamEntries(false, indent, pieces.value);
      doc := doc + entries;
      section := [indent + "Parameters", indent + "----------"] + EntryLines(false, indent, ParamNames(pieces.value));
      SectionText(head, indent, EntryLines(false, indent, ParamNames(pieces.value)));
    }
    ghost var tail := ["", indent + "Returns", indent + "-------", "n" + indent + "value"];
    doc := doc + "\n" + indent + "Returns\n";
    doc := doc + indent + "-------\nn";
    doc := doc + indent + "value\n";
    doc := doc + indent + Quotes;
    BaseTailText(head + section, indent);
    assert StandardLines(false, indent, name, if pieces.None? then None else Some(ParamNames(pieces.value)))
      == head + section + tail;
  }

  /** `Sphinx_Docstringer.func_doc` past its keyword test and special
      names. */
  method SphinxFuncDoc(indent: string, name: string, pieces: Option<seq<string>>) returns (doc: string)
    ensures doc == StandardDoc(true, indent, name, if pieces.None? then None else Some(ParamNames(pieces.value)))
  {
    ghost var head := ["", indent + Quotes, indent + "Description of callable <" + name + ">", ""];
    doc := "\n" + indent + Quotes + "\n";
    doc := doc + indent + "Description of callable <" + name + ">\n\n";
    HeadText(head, doc, indent, name);
    ghost var section: seq<string> := [];
    assert head + section == head;
    if pieces.Some? {
      var entries := ParamEntries(true, indent, pieces.value);
      doc := doc + entries;
      section := EntryLines(true, indent, ParamNames(pieces.value));
      TerminatedAppend(head, section, '\n');
    }
    doc := doc + indent + ":return:\n";
    doc := doc + indent + ":rtype:\n";
    doc := doc + indent + Quotes;
    SphinxTailText(head + section, indent);
    assert StandardLines(true, indent, name, if pieces.None? then None else Some(ParamNames(pieces.value)))
      == head + section + [indent + ":return:", indent + ":rtype:"];
  }

  /** The Parameters heading and the entries follow the first lines. */
  lemma SectionText(head: seq<string>, indent: string, entries: seq<string>)
    ensures Terminated(head + ([indent + "Parameters", indent + "----------"] + entries), '\n')
      == Terminated(head, '\n') + indent + "Parameters\n" + indent + "----------\n" + Terminated(entries, '\n')
  {
    var a, b := indent + "Parameters", indent + "----------";
    TerminatedAppend(head, [a, b] + entries, '\n');
    TerminatedAppend([a, b], entries, '\n');
    TerminatedPair([a, b], '\n');
    SectionString(Terminated(head, '\n'), Terminated(entries, '\n'), indent, a, b);
  }

  /** The literal text of the Parameters heading. */
  lemma SectionString(t: string, e: string, indent: string, a: string, b: string)
    requires a == indent + "Parameters" && b == indent + "----------"
    ensures t + (a + ['\n'] + b + ['\n'] + e) == t + indent + "Parameters\n" + indent + "----------\n" + e
  {
  }

  /** The Returns section and the closing quotes of the base docstring. */
  lemma BaseTailText(lines: seq<string>, indent: string)
    ensures Terminated(lines + ["", indent + "Returns", indent + "-------", "n" + indent + "value"], '\n') + indent + Quotes
      == Terminated(lines, '\n') + "\n" + indent + "Returns\n" + indent + "-------\nn" + indent + "value\n" + indent + Quotes
  {
    var tail := ["", indent + "Returns", indent + "-------", "n" + indent + "value"];
    TerminatedAppend(lines, tail, '\n');
    BaseTailLines(indent);
    BaseTailString(Terminated(lines, '\n'), Terminated(tail, '\n'), indent);
  }

  /** The literal text of the closing part of the base docstring. */
  lemma BaseTailString(t: string, r: string, indent: string)
    requires r == "\n" + indent + "Returns\n" + indent + "-------\nn" + indent + "value\n"
    ensures t + r + indent + Quotes
      == t + "\n" + indent + "Returns\n" + indent + "-------\nn" + indent + "value\n" + indent + Quotes
  {
  }

  /** The four lines of the base Returns section, terminated. */
  lemma BaseTailLines(indent: string)
    ensures Terminated(["", indent + "Returns", indent + "-------", "n" + indent + "value"], '\n')
      == "\n" + indent + "Returns\n" + indent + "-------\nn" + indent + "value\n"
  {
    Terminated4("", indent + "Returns", indent + "-------", "n" + indent + "value", '\n');
  }

  /** Four lines, terminated. */
  lemma Terminated4(a: string, b: string, c: string, d: string, sep: char)
    ensures Terminated([a, b, c, d], sep) == a + [sep] + b + [sep] + c + [sep] + d + [sep]
  {
    TerminatedPair([a, b], sep);
    TerminatedPair([c, d], sep);
    TerminatedAppend([a, b], [c, d], sep);
    assert [a, b] + [c, d] == [a, b, c, d];
  }

  /** The return fields and the closing quotes of the Sphinx docstring. */
  lemma SphinxTailText(lines: seq<string>, indent: string)
    ensures Terminated(lines + [indent + ":return:", indent + ":rtype:"], '\n') + indent + Quotes
      == Terminated(lines, '\n') + indent + ":return:\n" + indent + ":rtype:\n" + indent + Quotes
  {
    var a, b := indent + ":return:", indent + ":rtype:";
    TerminatedAppend(lines, [a, b], '\n');
    TerminatedPair([a, b], '\n');
    SphinxTailString(Terminated(lines, '\n'), indent, a, b);
  }

  /** The literal text of the closing part of the Sphinx docstring. */
  lemma SphinxTailString(t: string, indent: string, a: string, b: string)
    requires a == indent + ":return:" && b == indent + ":rtype:"
    ensures t + (a + ['\n'] + b + ['\n']) + indent + Quotes
      == t + indent + ":return:\n" + indent + ":rtype:\n" + indent + Quotes
  {
  }

  /** The loop over the comma-separated pieces: skips a piece that is
      exactly `self`, and writes the entry lines of every other piece's
      name. */
  method ParamEntries(sphinx: bool, indent: string, pieces: seq<string>) returns (entries: string)
    ensures entries == Terminated(EntryLines(sphinx, indent, ParamNames(pieces)), '\n')
  {
    entries := "";
    for i := 0 to |pieces|
      invariant entries == Terminated(EntryLines(sphinx, indent, ParamNames(pieces[..i])), '\n')
    {
      var p := pieces[i];
      assert pieces[..i + 1] == pieces[..i] + [p];
      if p == "self" {
        SelfStep(sphinx, indent, pieces[..i]);
        continue;
      }
      var pName := ParamName(p);
      if sphinx {
        SphinxStep(indent, pieces[..i], p);
        entries := entries + indent + ":param " + pName + ":\n";
        entries := entries + indent + ":type " + pName + ":\n";
      } else {
        BaseStep(indent, pieces[..i], p);
        entries := entries + indent + pName + ":\n";
      }
    }
    assert pieces[..|pieces|] == pieces;
  }

  /** A `self` piece writes nothing. */
  lemma SelfStep(sphinx: bool, indent: string, init: seq<string>)
    ensures Terminated(EntryLines(sphinx, indent, ParamNames(init + ["self"])), '\n')
      == Terminated(EntryLines(sphinx, indent, ParamNames(init)), '\n')
  {
    ParamNamesSnoc(init, "self");
    assert ParamNames(init) + [] == ParamNames(init);
  }

  /** Any other piece writes its name's `:param` and `:type` lines. */
  lemma SphinxStep(indent: string, init: seq<string>, p: string)
    requires p != "self"
    ensures Terminated(EntryLines(true, indent, ParamNames(init + [p])), '\n')
      == Terminated(EntryLines(true, indent, ParamNames(init)), '\n')
        + indent + ":param " + ParamName(p) + ":\n" + indent + ":type " + ParamName(p) + ":\n"
  {
    var names := ParamNames(init);
    ParamNamesSnoc(init, p);
    EntryLinesSnoc(true, indent, names, ParamName(p));
    EntryTerminated(true, indent, EntryLines(true, indent, names), ParamName(p));
  }

  /** Any other piece writes its name followed by a colon. */
  lemma BaseStep(indent: string, init: seq<string>, p: string)
    requires p != "self"
    ensures Terminated(EntryLines(false, indent, ParamNames(init + [p])), '\n')
      == Terminated(EntryLines(false, indent, ParamNames(init)), '\n') + indent + ParamName(p) + ":\n"
  {
    var names := ParamNames(init);
    ParamNamesSnoc(init, p);
    EntryLinesSnoc(false, indent, names, ParamName(p));
    EntryTerminated(false, indent, EntryLines(false, indent, names), ParamName(p));
  }

  /** One more name appends its entry lines. */
  lemma EntryLinesSnoc(sphinx: bool, indent: string, names: seq<string>, n: string)
    ensures EntryLines(sphinx, indent, names + [n]) == EntryLines(sphinx, indent, names) + Entry(sphinx, indent, n)
  {
    assert (names + [n])[..|names|] == names;
  }

  /** Terminating the entry lines of a name after earlier lines. */
  lemma EntryTerminated(sphinx: bool, indent: string, prior: seq<string>, n: string)
    ensures sphinx ==> (Terminated(prior + Entry(sphinx, indent, n), '\n')
      == Terminated(prior, '\n') + indent + ":param " + n + ":\n" + indent + ":type " + n + ":\n")
    ensures !sphinx ==> (Terminated(prior + Entry(sphinx, indent, n), '\n')
      == Terminated(prior, '\n') + indent + n + ":\n")
  {
    var t := Terminated(prior, '\n');
    if sphinx {
      var a, b := indent + ":param " + n + ":", indent + ":type " + n + ":";
      TerminatedAppend(prior, [a, b], '\n');
      TerminatedPair([a, b], '\n');
      SphinxEntryString(t, indent, n, a, b);
    } else {
      var a := indent + n + ":";
      TerminatedSnoc(prior, a, '\n');
      BaseEntryString(t, indent, n, a);
    }
  }

  /** The literal text of a Sphinx entry. */
  lemma SphinxEntryString(t: string, indent: string, n: string, a: string, b: string)
    requires a == indent + ":param " + n + ":" && b == indent + ":type " + n + ":"
    ensures t + (a + ['\n'] + b + ['\n']) == t + indent + ":param " + n + ":\n" + indent + ":type " + n + ":\n"
  {
  }

  /** The literal text of a base entry. */
  lemma BaseEntryString(t: string, indent: string, n: string, a: string)
    requires a == indent + n + ":"
    ensures t + a + ['\n'] == t + indent + n + ":\n"
  {
  }

  /** The first two statements of `func_doc` write the first four lines. */
  lemma HeadText(lines: seq<string>, doc: string, indent: string, name: string)
    requires lines == ["", indent + Quotes, indent + "Description of callable <" + name + ">", ""]
    requires doc == "\n" + indent + Quotes + "\n" + indent + "Description of callable <" + name + ">\n\n"
    ensures doc == Terminated(lines, '\n')
  {
    var open, title := indent + Quotes, indent + "Description of callable <" + name + ">";
    Terminated4("", open, title, "", '\n');
    HeadString(doc, open, title, indent, name);
  }

  /** The literal text of the first four lines. */
  lemma HeadString(doc: string, open: string, title: string, indent: string, name: string)
    requires open == indent + Quotes && title == indent + "Description of callable <" + name + ">"
    requires doc == "\n" + indent + Quotes + "\n" + indent + "Description of callable <" + name + ">\n\n"
    ensures doc == "" + ['\n'] + open + ['\n'] + title + ['\n'] + "" + ['\n']
  {
  }

  /** Every piece other than a `self` piece gives one name: the count of
      names is the count of pieces less the `self` pieces. */
  lemma {:induction false} ParamNamesCount(pieces: seq<string>)
    ensures |ParamNames(pieces)| == |pieces| - multiset(pieces)["self"]
  {
    if pieces != [] {
      var init := pieces[..|pieces| - 1];
      assert pieces == init + [pieces[|pieces| - 1]];
      ParamNamesCount(init);
    }
  }

  /** Without a `self` piece, the names are the pieces' names, in order. */
  lemma {:induction false} ParamNamesAll(pieces: seq<string>)
    requires forall k :: 0 <= k < |pieces| ==> pieces[k] != "self"
    ensures |ParamNames(pieces)| == |pieces|
    ensures forall k :: 0 <= k < |pieces| ==> ParamNames(pieces)[k] == ParamName(pieces[k])
  {
    if pieces != [] {
      var init := pieces[..|pieces| - 1];
      ParamNamesAll(init);
      var names := ParamNames(pieces);
      assert names == ParamNames(init) + [ParamName(pieces[|pieces| - 1])];
      forall k | 0 <= k < |pieces|
        ensures names[k] == ParamName(pieces[k])
      {
        if k < |init| {
          assert names[k] == ParamNames(init)[k];
        }
      }
    }
  }

  /** A parameter name holds only characters of its piece. */
  lemma ParamNameChars(p: string, c: char)
    requires c !in p
    ensures c !in ParamName(p)
  {
    var b := BeforeFirst(p, '=');
    assert forall i :: 0 <= i < |b| ==> b[i] == p[i];
    StripNotIn(b, c);
  }

  /** Names of pieces without a newline have no newline. */
  lemma {:induction false} ParamNamesSingle(pieces: seq<string>)
    requires forall k :: 0 <= k < |pieces| ==> '\n' !in pieces[k]
    ensures forall k :: 0 <= k < |ParamNames(pieces)| ==> '\n' !in ParamNames(pieces)[k]
  {
    if pieces != [] {
      var init := pieces[..|pieces| - 1];
      ParamNamesSingle(init);
      ParamNameChars(pieces[|pieces| - 1], '\n');
    }
  }

  /** The pieces of a parameter text without a newline have none. */
  lemma PiecesSingle(text: string)
    requires '\n' !in text
    ensures forall k :: 0 <= k < |Split(text, ',')| ==> '\n' !in Split(text, ',')[k]
  {
    SplitChars(text, ',');
  }

  /** The Sphinx entries: the `:param` and `:type` lines of the k-th name
      are lines 2k and 2k+1. */
  lemma {:induction false} SphinxEntriesAt(indent: string, names: seq<string>)
    ensures forall k :: 0 <= k < |names| ==>
      && EntryLines(true, indent, names)[2 * k] == indent + ":param " + names[k] + ":"
      && EntryLines(true, indent, names)[2 * k + 1] == indent + ":type " + names[k] + ":"
  {
    if names != [] {
      var init := names[..|names| - 1];
      SphinxEntriesAt(indent, init);
    }
  }

  /** The base entries: line k is the k-th name and a colon. */
  lemma {:induction false} BaseEntriesAt(indent: string, names: seq<string>)
    ensures forall k :: 0 <= k < |names| ==> EntryLines(false, indent, names)[k] == indent + names[k] + ":"
  {
    if names != [] {
      var init := names[..|names| - 1];
      BaseEntriesAt(indent, init);
    }
  }

  /** Entry lines of names without a newline have none. */
  lemma {:induction false} EntryLinesSingle(sphinx: bool, indent: string, names: seq<string>)
    requires '\n' !in indent
    requires forall k :: 0 <= k < |names| ==> '\n' !in names[k]
    ensures SingleLines(EntryLines(sphinx, indent, names), '\n')
  {
    if names != [] {
      var init := names[..|names| - 1];
      EntryLinesSingle(sphinx, indent, init);
      EntryLiterals();
    }
  }

  // The `*Literal(s)` lemmas, `TwoTabs` and the `*String` lemmas state facts
  // about fixed strings in lemmas of their own: stated inside a larger proof,
  // such facts make the solver unfold every string literal in scope, which
  // is far more costly than citing them.

  /** The fixed parts of the entry lines have no newline. */
  lemma EntryLiterals()
    ensures '\n' !in ":param " && '\n' !in ":type " && '\n' !in ":"
  {
  }

  /** The fixed parts of the standard docstring have no newline. */
  lemma StandardLiterals()
    ensures '\n' !in Quotes && '\n' !in "Description of callable <" && '\n' !in ">"
    ensures '\n' !in "Parameters" && '\n' !in "----------"
    ensures '\n' !in "Returns" && '\n' !in "-------" && '\n' !in "n" && '\n' !in "value"
    ensures '\n' !in ":return:" && '\n' !in ":rtype:"
  {
  }

  /** The standard function docstring is its lines, one per line of
      text, followed by the indented closing quotes, when the indent, the
      name and the parameter names have no newline. */
  lemma StandardDocLines(sphinx: bool, indent: string, name: string, names: Option<seq<string>>)
    requires '\n' !in indent && '\n' !in name
    requires names.Some? ==> forall k :: 0 <= k < |names.value| ==> '\n' !in names.value[k]
    ensures Split(StandardDoc(sphinx, indent, name, names), '\n')
      == StandardLines(sphinx, indent, name, names) + [indent + Quotes]
  {
    var lines := StandardLines(sphinx, indent, name, names);
    StandardSingle(sphinx, indent, name, names);
    StandardLiterals();
    assert StandardDoc(sphinx, indent, name, names) == Terminated(lines, '\n') + (indent + Quotes);
    SplitTemplate(lines, indent + Quotes, '\n');
  }

  /** No line of the standard docstring holds a newline. */
  lemma StandardSingle(sphinx: bool, indent: string, name: string, names: Option<seq<string>>)
    requires '\n' !in indent && '\n' !in name
    requires names.Some? ==> forall k :: 0 <= k < |names.value| ==> '\n' !in names.value[k]
    ensures SingleLines(StandardLines(sphinx, indent, name, names), '\n')
  {
    StandardLiterals();
    var head := ["", indent + Quotes, indent + "Description of callable <" + name + ">", ""];
    var entries := if names.Some? then EntryLines(sphinx, indent, names.value) else [];
    if names.Some? {
      EntryLinesSingle(sphinx, indent, names.value);
    }
    var section := if sphinx || names.None? then entries else [indent + "Parameters", indent + "----------"] + entries;
    var tail := if sphinx then [indent + ":return:", indent + ":rtype:"]
      else ["", indent + "Returns", indent + "-------", "n" + indent + "value"];
    assert SingleLines(head, '\n');
    assert SingleLines(section, '\n') by {
      if !(sphinx || names.None?) {
        SingleLinesAppend([indent + "Parameters", indent + "----------"], entries, '\n');
      }
    }
    assert SingleLines(tail, '\n');
    SingleLinesAppend(head, section, '\n');
    SingleLinesAppend(head + section, tail, '\n');
    assert StandardLines(sphinx, indent, name, names) == head + section + tail;
  }

  /** A `DOC_*` template is its lines followed by the indented closing
      quotes when the indent has no newline. */
  lemma SpecialDocLines(indent: string, name: string)
    requires '\n' !in indent && SpecialText(name).Some?
    ensures Split(SpecialDoc(indent, SpecialText(name).value), '\n')
      == SpecialLines(indent, SpecialText(name).value) + [indent + Quotes]
  {
    var text := SpecialText(name).value;
    var lines := SpecialLines(indent, text);
    SpecialLiterals();
    assert '\n' !in text;
    assert SingleLines(lines, '\n');
    assert SpecialDoc(indent, text) == Terminated(lines, '\n') + (indent + Quotes);
    SplitTemplate(lines, indent + Quotes, '\n');
  }

  /** The fixed parts of the `DOC_*` templates have no newline. */
  lemma SpecialLiterals()
    ensures '\n' !in Quotes && '\n' !in ":return: n/a" && '\n' !in ":rtype: n/a"
    ensures '\n' !in BuildUiText && '\n' !in InitializeUiText && '\n' !in ConnectSignalsText
  {
    BuildUiLiteral();
    InitializeUiLiteral();
    ConnectSignalsLiteral();
  }

  /** The descriptions of the `DOC_*` templates have no newline. */
  lemma BuildUiLiteral()
    ensures '\n' !in BuildUiText
  {
  }

  lemma InitializeUiLiteral()
    ensures '\n' !in InitializeUiText
  {
  }

  lemma ConnectSignalsLiteral()
    ensures '\n' !in ConnectSignalsText
  {
  }

  /** A second `func_doc` on the same object raises exactly when the first
      one split a non-empty parameter text (or had raised already);
      otherwise it returns the same text. */
  lemma FuncTextAgain(sphinx: bool, indent: string, name: string, params: Params)
    ensures var again := FuncText(sphinx, indent, name, ParamsAfter(sphinx, name, params));
      && (again.None? <==> (FuncText(sphinx, indent, name, params).None?
            || (params.Raw? && params.text != [] && !(sphinx && SpecialText(name).Some?))))
      && (again.Some? ==> again == FuncText(sphinx, indent, name, params))
  {
  }

  /** For a `def` header without a special name, `func_doc` writes the
      standard docstring of the names of the comma-separated parameter
      pieces, one line of text per line. */
  lemma DefDocLines(line: string, tab: string, sphinx: bool)
    requires '\n' !in tab
    requires Analyze(line, tab).keyword == "def"
    requires !(sphinx && SpecialText(Analyze(line, tab).name).Some?)
    ensures var a := Analyze(line, tab);
      var names := if a.parameters.text == [] then None else Some(ParamNames(Split(a.parameters.text, ',')));
      && FuncText(sphinx, a.indent, a.name, a.parameters) == Some(StandardDoc(sphinx, a.indent, a.name, names))
      && Split(StandardDoc(sphinx, a.indent, a.name, names), '\n')
           == StandardLines(sphinx, a.indent, a.name, names) + [a.indent + Quotes]
  {
    var a := Analyze(line, tab);
    AnalyzeSound(line, tab);
    var k := |a.indent| - |tab|;
    assert a.indent == a.indent[..k] + tab;
    assert '\n' !in a.indent[..k];
    assert '\n' !in a.name;
    if a.parameters.text != [] {
      PiecesSingle(a.parameters.text);
      ParamNamesSingle(Split(a.parameters.text, ','));
    }
    StandardDocLines(sphinx, a.indent, a.name,
      if a.parameters.text == [] then None else Some(ParamNames(Split(a.parameters.text, ','))));
  }

  /** `module_doc` writes nothing exactly when the line opens a docstring
      already. */
  lemma ModuleTextQuoted(line: string, filename: Option<string>)
    ensures ModuleText(line, filename) == [] <==> StartsWith(line, "'''") || StartsWith(line, Quotes)
  {
  }

  /** Otherwise the module docstring is, line by line: an empty line first
      after a shebang, the opening quotes, the base name, an empty line,
      the description heading and its tab-indented text, and the closing
      quotes. */
  lemma ModuleTextLines(line: string, filename: Option<string>)
    requires !StartsWith(line, "'''") && !StartsWith(line, Quotes)
    requires filename.Some? ==> '\n' !in filename.value
    ensures Split(ModuleText(line, filename), '\n')
      == (if StartsWith(line, "#!") then ["", Quotes] else [Quotes])
        + [BaseName(filename), "", "Description:", "\tModule description", Quotes]
  {
    var name := BaseName(filename);
    assert '\n' !in name by {
      if filename.Some? {
        var f := filename.value;
        assert forall i :: 0 <= i < |name| ==> name[i] == f[|f| - |name| + i];
      }
    }
    var pre := if StartsWith(line, "#!") then ["", Quotes] else [Quotes];
    var prefix := if StartsWith(line, "#!") then "\n" + Quotes + "\n" else Quotes + "\n";
    ModulePrefix(pre, prefix, StartsWith(line, "#!"));
    ModuleShape(pre, prefix, name);
    assert ModuleText(line, filename) == prefix + name + "\n\n" + "Description:\n" + "\tModule description\n" + Quotes;
  }

  /** The text before the base name is the opening-quote lines. */
  lemma ModulePrefix(pre: seq<string>, prefix: string, shebang: bool)
    requires pre == (if shebang then ["", Quotes] else [Quotes])
    requires prefix == (if shebang then "\n" + Quotes + "\n" else Quotes + "\n")
    ensures Terminated(pre, '\n') == prefix && SingleLines(pre, '\n')
  {
    SpecialLiterals();
    if shebang {
      TerminatedPair(pre, '\n');
    } else {
      assert pre[1..] == [];
    }
  }

  /** The module docstring after its opening lines. */
  lemma ModuleShape(pre: seq<string>, prefix: string, name: string)
    requires Terminated(pre, '\n') == prefix && SingleLines(pre, '\n') && '\n' !in name
    ensures Split(prefix + name + "\n\n" + "Description:\n" + "\tModule description\n" + Quotes, '\n')
      == pre + [name, "", "Description:", "\tModule description", Quotes]
  {
    var body := [name, "", "Description:", "\tModule description"];
    ModuleLiterals();
    Terminated4(name, "", "Description:", "\tModule description", '\n');
    TerminatedAppend(pre, body, '\n');
    SingleLinesAppend(pre, body, '\n');
    ModuleBodyText(prefix, name);
    SplitTemplate(pre + body, Quotes, '\n');
  }

  /** The fixed lines of the module docstring have no newline. */
  lemma ModuleLiterals()
    ensures '\n' !in Quotes && '\n' !in "Description:" && '\n' !in "\tModule description"
  {
  }

  /** The module docstring's literal text is its body lines, terminated. */
  lemma ModuleBodyText(prefix: string, name: string)
    ensures prefix + name + "\n\n" + "Description:\n" + "\tModule description\n" + Quotes
      == prefix + (name + ['\n'] + "" + ['\n'] + "Description:" + ['\n'] + "\tModule description" + ['\n']) + Quotes
  {
  }

  /** The class docstring, line by line: the Sphinx lines then the closing
      quotes, or one description line between two empty ones. */
  lemma ClassTextLines(sphinx: bool, indent: string, tab: string, name: string)
    requires '\n' !in indent && '\n' !in tab && '\n' !in name
    ensures sphinx ==> (Split(ClassText(sphinx, indent, tab, name), '\n')
      == SphinxClassLines(indent, tab, name) + [indent + Quotes])
    ensures !sphinx ==> (Split(ClassText(sphinx, indent, tab, name), '\n')
      == ["", indent + Quotes + " Description of <class " + WordRepr(name) + "> " + Quotes, ""])
  {
    ClassLiterals();
    if sphinx {
      var lines := SphinxClassLines(indent, tab, name);
      assert SingleLines(lines, '\n');
      assert ClassText(sphinx, indent, tab, name) == Terminated(lines, '\n') + (indent + Quotes);
      SplitTemplate(lines, indent + Quotes, '\n');
    } else {
      var mid := indent + Quotes + " Description of <class " + WordRepr(name) + "> " + Quotes;
      var lines := ["", mid];
      TerminatedPair(lines, '\n');
      assert ClassText(sphinx, indent, tab, name) == Terminated(lines, '\n') + "";
      SplitTemplate(lines, "", '\n');
    }
  }

  /** The fixed parts of the class docstrings have no newline. */
  lemma ClassLiterals()
    ensures '\n' !in Quotes && '\n' !in "Description of <class " && '\n' !in ">" && '\n' !in "> "
    ensures '\n' !in " Description of <class " && '\n' !in "'"
    ensures '\n' !in "Public Attributes:" && '\n' !in "attr1:"
  {
  }

  /** A method header indented by four spaces, with a tab of four: the
      docstring indent is eight spaces and the parameter text is kept
      raw. */
  lemma AnalyzeExample(line: string, params: string)
    requires params == "self, edit"
    requires line == "    " + "def" + " " + "run" + "(" + params + "):"
    ensures Analyze(line, "    ") == Analysis("        ", "def", "run", Raw(params))
  {
    var sig := Signature("    ", "def", "run", params);
    ExampleShape(params);
    ExampleHeader(line, sig);
    CloserOnce("):");
    MatchExact(line, true, "):", sig, "");
    AnalyzeMatch(line, "    ", sig);
    TwoTabs("    ");
  }

  /** Four spaces and four spaces make eight (kept apart from
      `AnalyzeExample`, see the note before `EntryLiterals`). */
  lemma TwoTabs(tab: string)
    requires tab == "    "
    ensures tab + tab == "        "
  {
  }

  /** A match is stored as it was read, the tab added to the indent. */
  lemma AnalyzeMatch(line: string, tab: string, sig: Signature)
    requires MatchHeader(line, true, "):") == Some(sig)
    ensures Analyze(line, tab) == Analysis(sig.indent + tab, sig.keyword, sig.name, Raw(sig.params))
  {
  }

  /** The example line is the header text of its groups. */
  lemma ExampleHeader(line: string, sig: Signature)
    requires line == "    " + "def" + " " + "run" + "(" + sig.params + "):"
    requires sig.indent == "    " && sig.keyword == "def" && sig.name == "run"
    ensures line == HeaderText(sig, "):") + ""
  {
  }

  /** `):` does not occur again after its own start. */
  lemma CloserOnce(closer: string)
    requires closer == "):"
    ensures forall j :: 0 < j ==> !OccursAt(closer + "", closer, j)
  {
    assert closer + "" == closer;
  }

  /** The example header is well shaped. */
  lemma ExampleShape(params: string)
    requires params == "self, edit"
    ensures WellShaped(Signature("    ", "def", "run", params), true)
  {
  }

  /** One more piece gives one more name, or none for `self`. */
  lemma ParamNamesSnoc(init: seq<string>, p: string)
    ensures ParamNames(init + [p]) == ParamNames(init) + (if p == "self" then [] else [ParamName(p)])
  {
    assert (init + [p])[..|init|] == init;
  }

  /** Only a piece that is exactly `self` is skipped: a `self` piece that
      follows a comma and a space is written as a name. */
  lemma SpacedSelfKept(init: seq<string>, self: string)
    requires self == "self"
    ensures ParamNames(init + [" " + self]) == ParamNames(init) + [self]
    ensures ParamNames(init + [self]) == ParamNames(init)
  {
    ParamNamesSnoc(init, " " + self);
    ParamNamesSnoc(init, self);
    assert |" " + self| != |"self"|;
    SpacedName(" " + self, self);
  }

  /** A name after one space, without a default, is read as the name. */
  lemma SpacedName(p: string, name: string)
    requires p == " " + name && name != [] && '=' !in name
    requires !IsSpace(name[0]) && !IsSpace(name[|name| - 1])
    ensures ParamName(p) == name
  {
    assert '=' !in p;
    assert BeforeFirst(p, '=') == p;
    StripExact(" ", name, "");
    assert " " + name + "" == p;
  }
}
