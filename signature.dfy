/**
 * The signature patterns both revisions of `pydoc_command.py` match a
 * source line against, written out as a scanner:
 *
 *   `^(\s*)(\w+) (\w+)\((.*)\)`   (the older `BaseDoc.parse_text`)
 *   `^( *)(\w+) (\w+)\((.*)\):`   (the main `Docstringer.PATTERN`)
 *
 * Both have the form: an indent run, a keyword, exactly one space, a name,
 * `(`, a greedy `.*`, and a closer (`)` or `):`). The indent class and the
 * word class are disjoint, so the indent, the keyword and the name are the
 * maximal runs at their places; the greedy `.*` stops at the last closer
 * before the first newline (`.` does not match a newline).
 */
module SignatureMatch {
  import opened Wrappers
  import opened Text

  /** The four groups of a successful match. */
  datatype Signature = Signature(indent: string, keyword: string, name: string, params: string)

  /** The indent class: `\s` in the older pattern, a plain space in the main one. */
  predicate IsIndentChar(c: char, spacesOnly: bool) {
    if spacesOnly then c == ' ' else IsSpace(c)
  }

  /** Every character is a word character. */
  predicate AllWord(s: string) {
    forall i :: 0 <= i < |s| ==> IsWord(s[i])
  }

  /** The largest `j <= k` at which `pat` occurs in `s`. */
  function LastFrom(s: string, pat: string, k: nat): (r: Option<nat>)
    ensures r.Some? ==> r.value <= k && OccursAt(s, pat, r.value)
    ensures r.Some? ==> forall j :: r.value < j <= k ==> !OccursAt(s, pat, j)
    ensures r.None? ==> forall j :: 0 <= j <= k ==> !OccursAt(s, pat, j)
  {
    if OccursAt(s, pat, k) then Some(k)
    else if k == 0 then None
    else LastFrom(s, pat, k - 1)
  }

  /** The last occurrence of `pat` in `s`, where a greedy `.*` followed by
      `pat` stops. */
  function FindLast(s: string, pat: string): (r: Option<nat>)
    ensures r.Some? ==> OccursAt(s, pat, r.value)
    ensures r.Some? ==> forall j :: r.value < j ==> !OccursAt(s, pat, j)
    ensures r.None? ==> forall j :: !OccursAt(s, pat, j)
  {
    LastFrom(s, pat, |s|)
  }

  /** Length of the indent run at the start of `line` (greedy). */
  function IndentLen(line: string, spacesOnly: bool): (n: nat)
    ensures n <= |line|
    ensures forall i :: 0 <= i < n ==> IsIndentChar(line[i], spacesOnly)
    ensures n == |line| || !IsIndentChar(line[n], spacesOnly)
  {
    SpanLen(line, c => IsIndentChar(c, spacesOnly))
  }

  /** `(\w+)` followed by the literal `sep`: the word and what follows. */
  function WordThen(s: string, sep: char): Option<(string, string)>
  {
    var b := SpanLen(s, IsWord);
    if b == 0 || b == |s| || s[b] != sep then None else Some((s[..b], s[b + 1..]))
  }

  /** `(.*)` followed by `closer`: everything before the last `closer` that
      comes before the first newline. */
  function ParamsThen(s: string, closer: string): Option<string>
  {
    var line := BeforeFirst(s, '\n');
    match FindLast(line, closer)
    case None => None
    case Some(k) => Some(line[..k])
  }

  /** `re.search(pattern, line)` for the pattern with the given indent class
      and closer. */
  function MatchHeader(line: string, spacesOnly: bool, closer: string): Option<Signature>
  {
    var a := IndentLen(line, spacesOnly);
    match WordThen(line[a..], ' ')
    case None => None
    case Some((keyword, afterKeyword)) =>
      match WordThen(afterKeyword, '(')
      case None => None
      case Some((name, afterParen)) =>
        match ParamsThen(afterParen, closer)
        case None => None
        case Some(params) => Some(Signature(line[..a], keyword, name, params))
  }

  /** The groups have the shapes the pattern allows. */
  predicate WellShaped(sig: Signature, spacesOnly: bool) {
    && (forall i :: 0 <= i < |sig.indent| ==> IsIndentChar(sig.indent[i], spacesOnly))
    && sig.keyword != [] && AllWord(sig.keyword)
    && sig.name != [] && AllWord(sig.name)
    && '\n' !in sig.params
  }

  /** The text the whole pattern matches, given its groups. */
  function HeaderText(sig: Signature, closer: string): string {
    sig.indent + sig.keyword + " " + sig.name + "(" + sig.params + closer
  }

  /** A word followed by a non-word separator is read back exactly. */
  lemma WordThenExact(s: string, sep: char, w: string, rest: string)
    requires !IsWord(sep)
    ensures WordThen(s, sep) == Some((w, rest)) <==> (w != [] && AllWord(w) && s == w + [sep] + rest)
  {
    var b := SpanLen(s, IsWord);
    if w != [] && AllWord(w) && s == w + [sep] + rest {
      assert s[|w|] == sep;
      assert s[..b] == w;
      assert s[b + 1..] == rest;
    }
    if WordThen(s, sep) == Some((w, rest)) {
      assert s == s[..b] + [s[b]] + s[b + 1..];
    }
  }

  /** The parameter group and the closer are a prefix of the text, and the
      group holds no newline. */
  lemma ParamsThenSound(s: string, closer: string)
    ensures var r := ParamsThen(s, closer);
      r.Some? ==> '\n' !in r.value && StartsWith(s, r.value + closer)
  {
    var line := BeforeFirst(s, '\n');
    var r := ParamsThen(s, closer);
    if r.Some? {
      var k := FindLast(line, closer).value;
      assert r.value == line[..k];
      assert '\n' !in r.value by {
        assert forall i :: 0 <= i < k ==> r.value[i] == line[i];
      }
      assert line[k..k + |closer|] == closer;
      assert line[..k] + closer == line[..k + |closer|] == s[..k + |closer|];
    }
  }

  /** Any newline-free group followed by the closer is found, and the group
      found is at least as long (greedy). */
  lemma ParamsThenComplete(s: string, closer: string, ps: string)
    requires '\n' !in ps && '\n' !in closer
    requires StartsWith(s, ps + closer)
    ensures var r := ParamsThen(s, closer);
      r.Some? && |ps| <= |r.value|
  {
    var line := BeforeFirst(s, '\n');
    var pc := ps + closer;
    assert line[|ps|..|ps| + |closer|] == closer by {
      assert line[..|pc|] == s[..|pc|] == pc;
    }
    assert OccursAt(line, closer, |ps|);
  }

  /** The indent run in front of a word character is read back exactly. */
  lemma IndentLenExact(line: string, spacesOnly: bool, ind: string)
    requires forall i :: 0 <= i < |ind| ==> IsIndentChar(ind[i], spacesOnly)
    requires |ind| < |line| && line[..|ind|] == ind && IsWord(line[|ind|])
    ensures IndentLen(line, spacesOnly) == |ind|
  {
    var a := IndentLen(line, spacesOnly);
  }

  /** The groups of a match have the shapes the pattern allows. */
  lemma MatchShape(line: string, spacesOnly: bool, closer: string)
    ensures var m := MatchHeader(line, spacesOnly, closer);
      m.Some? ==> WellShaped(m.value, spacesOnly)
  {
    var m := MatchHeader(line, spacesOnly, closer);
    if m.Some? {
      var sig := m.value;
      var a := IndentLen(line, spacesOnly);
      var (kw, r2) := WordThen(line[a..], ' ').value;
      var (nm, r3) := WordThen(r2, '(').value;
      assert forall i :: 0 <= i < a ==> IsIndentChar(sig.indent[i], spacesOnly) by {
        assert forall i :: 0 <= i < a ==> sig.indent[i] == line[i];
      }
      WordThenExact(line[a..], ' ', kw, r2);
      WordThenExact(r2, '(', nm, r3);
      ParamsThenSound(r3, closer);
    }
  }

  /** Soundness: a match gives well-shaped groups that, put back together
      with the literal parts, are a prefix of the line. */
  lemma MatchSound(line: string, spacesOnly: bool, closer: string)
    ensures var m := MatchHeader(line, spacesOnly, closer);
      m.Some? ==> WellShaped(m.value, spacesOnly) && StartsWith(line, HeaderText(m.value, closer))
  {
    var m := MatchHeader(line, spacesOnly, closer);
    if m.Some? {
      MatchShape(line, spacesOnly, closer);
      var a := IndentLen(line, spacesOnly);
      var (kw, r2) := WordThen(line[a..], ' ').value;
      var (nm, r3) := WordThen(r2, '(').value;
      MatchPrefix(line, a, kw, r2, nm, r3, m.value.params, closer);
    }
  }

  /** The groups read one after the other, put back together with the
      literal parts, are a prefix of the line. */
  lemma MatchPrefix(line: string, a: nat, kw: string, r2: string, nm: string, r3: string, ps: string, closer: string)
    requires a <= |line|
    requires WordThen(line[a..], ' ') == Some((kw, r2))
    requires WordThen(r2, '(') == Some((nm, r3))
    requires ParamsThen(r3, closer) == Some(ps)
    ensures StartsWith(line, HeaderText(Signature(line[..a], kw, nm, ps), closer))
  {
    var sig := Signature(line[..a], kw, nm, ps);
    assert line[a..] == kw + [' '] + r2 by {
      WordThenExact(line[a..], ' ', kw, r2);
    }
    assert r2 == nm + ['('] + r3 by {
      WordThenExact(r2, '(', nm, r3);
    }
    ParamsThenSound(r3, closer);
    var n := |ps + closer|;
    var tail := r3[n..];
    assert r3 == ps + closer + tail by {
      assert r3 == r3[..n] + tail;
    }
    Reassemble(line, a, sig, r2, r3, closer, tail);
  }

  /** The pieces of a match, put back together. */
  lemma Reassemble(line: string, a: nat, sig: Signature, r2: string, r3: string, closer: string, tail: string)
    requires a <= |line| && sig.indent == line[..a]
    requires line[a..] == sig.keyword + [' '] + r2
    requires r2 == sig.name + ['('] + r3
    requires r3 == sig.params + closer + tail
    ensures line == HeaderText(sig, closer) + tail
    ensures StartsWith(line, HeaderText(sig, closer))
  {
    assert line == line[..a] + line[a..];
    var h := HeaderText(sig, closer);
    assert line == h + tail;
    assert line[..|h|] == h;
  }

  /** Completeness: when a prefix of the line is made of well-shaped groups
      and the literal parts, the pattern matches with the same indent,
      keyword and name, and a parameter group at least as long (the `.*` is
      greedy). */
  lemma MatchComplete(line: string, spacesOnly: bool, closer: string, sig: Signature)
    requires WellShaped(sig, spacesOnly) && '\n' !in closer
    requires StartsWith(line, HeaderText(sig, closer))
    ensures var m := MatchHeader(line, spacesOnly, closer);
      && m.Some?
      && m.value.indent == sig.indent
      && m.value.keyword == sig.keyword
      && m.value.name == sig.name
      && |sig.params| <= |m.value.params|
  {
    var ind, kw, nm, ps := sig.indent, sig.keyword, sig.name, sig.params;
    var rest := line[|HeaderText(sig, closer)|..];
    var r3 := ps + closer + rest;
    var r2 := nm + ['('] + r3;
    var r1 := kw + [' '] + r2;
    assert line == ind + r1 by {
      assert line == HeaderText(sig, closer) + rest;
    }
    assert line[|ind|] == kw[0];
    IndentLenExact(line, spacesOnly, ind);
    assert line[|ind|..] == r1;
    WordThenExact(r1, ' ', kw, r2);
    WordThenExact(r2, '(', nm, r3);
    ParamsThenComplete(r3, closer, ps);
  }

  /** When the closer does not occur again after the one that ends the
      parameter group, the match is exactly the given groups. */
  lemma MatchExact(line: string, spacesOnly: bool, closer: string, sig: Signature, tail: string)
    requires WellShaped(sig, spacesOnly) && '\n' !in closer
    requires line == HeaderText(sig, closer) + tail
    requires forall j :: 0 < j ==> !OccursAt(closer + tail, closer, j)
    ensures MatchHeader(line, spacesOnly, closer) == Some(sig)
  {
    assert StartsWith(line, HeaderText(sig, closer)) by {
      assert line[..|HeaderText(sig, closer)|] == HeaderText(sig, closer);
    }
    MatchComplete(line, spacesOnly, closer, sig);
    MatchSound(line, spacesOnly, closer);
    SameGroups(line, closer, sig, MatchHeader(line, spacesOnly, closer).value, tail);
  }

  /** Two readings of the line with the same head, the second one's group
      at least as long, are the same when the closer does not recur. */
  lemma SameGroups(line: string, closer: string, sig: Signature, m: Signature, tail: string)
    requires line == HeaderText(sig, closer) + tail
    requires StartsWith(line, HeaderText(sig, closer)) && StartsWith(line, HeaderText(m, closer))
    requires m.indent == sig.indent && m.keyword == sig.keyword && m.name == sig.name
    requires |sig.params| <= |m.params|
    requires forall j :: 0 < j ==> !OccursAt(closer + tail, closer, j)
    ensures m == sig
  {
    var p := |sig.indent| + |sig.keyword| + |sig.name| + 2;
    HeaderRest(line, sig, closer);
    HeaderRest(line, m, closer);
    GroupExact(line[p..], sig.params, m.params, closer, tail);
  }

  /** After the fixed head of a header, the line goes on with the parameter
      group and the closer. */
  lemma HeaderRest(line: string, sig: Signature, closer: string)
    requires StartsWith(line, HeaderText(sig, closer))
    ensures var p := |sig.indent| + |sig.keyword| + |sig.name| + 2;
      p <= |line| && StartsWith(line[p..], sig.params + closer)
      && line[p..] == sig.params + closer + line[|HeaderText(sig, closer)|..]
  {
    var h := HeaderText(sig, closer);
    var p := |sig.indent| + |sig.keyword| + |sig.name| + 2;
    assert h == (sig.indent + sig.keyword + " " + sig.name + "(") + (sig.params + closer);
    assert line == h + line[|h|..];
  }

  /** A group at least as long as `ps`, followed by the closer, that starts
      where `ps` does, is `ps` itself when the closer does not recur. */
  lemma GroupExact(rest: string, ps: string, mp: string, closer: string, tail: string)
    requires rest == ps + closer + tail
    requires |ps| <= |mp| && StartsWith(rest, mp + closer)
    requires forall j :: 0 < j ==> !OccursAt(closer + tail, closer, j)
    ensures mp == ps
  {
    if |mp| > |ps| {
      var j := |mp| - |ps|;
      assert (closer + tail)[j..j + |closer|] == rest[|mp|..|mp| + |closer|] == closer;
      assert OccursAt(closer + tail, closer, j);
    }
    assert mp == rest[..|mp|];
  }

  /** `.*` is greedy: everything between the parenthesis and the LAST closer
      on the line is taken, closers inside included. */
  lemma GreedyExample(line: string)
    requires line == "def f(a=g(1)):"
    ensures MatchHeader(line, true, "):") == Some(Signature("", "def", "f", "a=g(1)"))
  {
    var sig := Signature("", "def", "f", "a=g(1)");
    assert line == HeaderText(sig, "):") + "";
    MatchExact(line, true, "):", sig, "");
  }
}
