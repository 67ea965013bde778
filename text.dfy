/**
 * String primitives that the plugins take from Python's `str` type and its
 * `re` module: the `\s` and `\w` character classes, `split`/`join` on one
 * separator character, `rstrip`/`strip`, `startswith` and the
 * first-occurrence `replace(old, new, 1)`.
 */
module Text {
  import opened Wrappers

  /** Python's `\s` (and `str.isspace`) restricted to ASCII: the controls
      0x09-0x0D, the separators 0x1C-0x1F and the space. */
  predicate IsSpace(c: char) {
    ('\t' <= c <= '\r') || ('\U{1C}' <= c <= '\U{1F}') || c == ' '
  }

  /** Python's `\w` restricted to ASCII: letters, digits and underscore. */
  predicate IsWord(c: char) {
    ('a' <= c <= 'z') || ('A' <= c <= 'Z') || ('0' <= c <= '9') || c == '_'
  }

  /** True when no character of `s` is whitespace. */
  predicate NoSpace(s: string) {
    forall i :: 0 <= i < |s| ==> !IsSpace(s[i])
  }

  /** `c * n` */
  function Repeat(c: char, n: nat): (r: string)
    ensures |r| == n
    ensures forall i :: 0 <= i < n ==> r[i] == c
  {
    if n == 0 then [] else [c] + Repeat(c, n - 1)
  }

  /** Length of the longest prefix of `s` whose characters all satisfy `p`
      (what a greedy `p*` matches at the start of `s`). */
  function SpanLen(s: string, p: char -> bool): (n: nat)
    ensures n <= |s|
    ensures forall i :: 0 <= i < n ==> p(s[i])
    ensures n == |s| || !p(s[n])
  {
    if s == [] || !p(s[0]) then 0 else 1 + SpanLen(s[1..], p)
  }

  /** A run of `k` characters satisfying `p`, followed by the end or by one
      that does not, is exactly what `SpanLen` measures. */
  lemma {:induction false} SpanLenExact(s: string, p: char -> bool, k: nat)
    requires k <= |s|
    requires forall i :: 0 <= i < k ==> p(s[i])
    requires k == |s| || !p(s[k])
    ensures SpanLen(s, p) == k
  {
    if k > 0 {
      SpanLenExact(s[1..], p, k - 1);
    }
  }

  /** `s.startswith(prefix)` */
  predicate StartsWith(s: string, prefix: string) {
    |prefix| <= |s| && s[..|prefix|] == prefix
  }

  /** `s` does not end in whitespace. */
  predicate Trimmed(s: string) {
    s == [] || !IsSpace(s[|s| - 1])
  }

  /** `s.rstrip()`, equivalently `re.sub("\s+$", "", s)`. */
  function RStrip(s: string): (r: string)
    ensures |r| <= |s| && r == s[..|r|]
    ensures Trimmed(r)
    ensures forall i :: |r| <= i < |s| ==> IsSpace(s[i])
    decreases |s|
  {
    if s != [] && IsSpace(s[|s| - 1]) then RStrip(s[..|s| - 1]) else s
  }

  /** Removing trailing whitespace never reaches a non-whitespace character. */
  lemma RStripKeeps(s: string, k: nat)
    requires k < |s| && !IsSpace(s[k])
    ensures |RStrip(s)| > k && RStrip(s)[..k + 1] == s[..k + 1]
  {
  }

  /** A string whose last character is not whitespace is left as it is. */
  lemma RStripClean(s: string)
    requires s != [] && !IsSpace(s[|s| - 1])
    ensures RStrip(s) == s
  {
  }

  /** A whitespace-only tail disappears under `rstrip`. */
  lemma {:induction false} RStripBlankTail(x: string, y: string)
    requires forall i :: 0 <= i < |y| ==> IsSpace(y[i])
    ensures RStrip(x + y) == RStrip(x)
  {
    if y != [] {
      var y' := y[..|y| - 1];
      assert (x + y)[..|x + y| - 1] == x + y';
      RStripBlankTail(x, y');
    } else {
      assert x + y == x;
    }
  }

  /** `s.strip()` */
  function Strip(s: string): (r: string)
    ensures r == [] || (!IsSpace(r[0]) && !IsSpace(r[|r| - 1]))
  {
    var k := SpanLen(s, IsSpace);
    RStrip(s[k..])
  }

  /** Whitespace around a text that neither starts nor ends with
      whitespace is stripped, and the text is kept. */
  lemma StripExact(pre: string, mid: string, post: string)
    requires forall i :: 0 <= i < |pre| ==> IsSpace(pre[i])
    requires forall i :: 0 <= i < |post| ==> IsSpace(post[i])
    requires mid != [] && !IsSpace(mid[0]) && !IsSpace(mid[|mid| - 1])
    ensures Strip(pre + mid + post) == mid
  {
    var s := pre + mid + post;
    SpanLenExact(s, IsSpace, |pre|);
    assert s[|pre|..] == mid + post;
    RStripBlankTail(mid, post);
    RStripClean(mid);
  }

  /** An all-whitespace text strips to the empty text. */
  lemma StripBlank(s: string)
    requires forall i :: 0 <= i < |s| ==> IsSpace(s[i])
    ensures Strip(s) == []
  {
    SpanLenExact(s, IsSpace, |s|);
  }

  /** Stripping never introduces a character. */
  lemma StripNotIn(s: string, x: char)
    requires x !in s
    ensures x !in Strip(s)
  {
    var k := SpanLen(s, IsSpace);
    var r := RStrip(s[k..]);
    forall i | 0 <= i < |r|
      ensures r[i] != x
    {
      assert r[i] == s[k + i];
    }
  }

  /** Number of occurrences of `c` in `s`. */
  function CountChar(s: string, c: char): nat
  {
    if s == [] then 0 else (if s[0] == c then 1 else 0) + CountChar(s[1..], c)
  }

  /** `s.split(sep)` for a one-character separator: never empty, and no
      piece contains the separator. */
  function Split(s: string, sep: char): (r: seq<string>)
    ensures |r| >= 1
    ensures forall i :: 0 <= i < |r| ==> sep !in r[i]
  {
    if s == [] then [[]]
    else
      var rest := Split(s[1..], sep);
      if s[0] == sep then [[]] + rest else [[s[0]] + rest[0]] + rest[1..]
  }

  /** Every character of every piece comes from `s`. */
  lemma {:induction false} SplitChars(s: string, sep: char)
    ensures forall i, j :: 0 <= i < |Split(s, sep)| && 0 <= j < |Split(s, sep)[i]| ==> Split(s, sep)[i][j] in s
  {
    if s != [] {
      SplitChars(s[1..], sep);
      var rest := Split(s[1..], sep);
      var r := Split(s, sep);
      forall i, j | 0 <= i < |r| && 0 <= j < |r[i]|
        ensures r[i][j] in s
      {
        if s[0] == sep {
          assert r[i][j] == rest[i - 1][j];
        } else if i == 0 && j == 0 {
          assert r[i][j] == s[0];
        } else if i == 0 {
          assert r[i][j] == rest[0][j - 1];
        } else {
          assert r[i][j] == rest[i][j];
        }
        assert forall x :: x in s[1..] ==> x in s;
      }
    }
  }

  /** `s.replace(c, "")`: every occurrence of `c` deleted. */
  function RemoveChar(s: string, c: char): (r: string)
    ensures c !in r
    ensures |r| == |s| - CountChar(s, c)
  {
    if s == [] then []
    else if s[0] == c then RemoveChar(s[1..], c)
    else [s[0]] + RemoveChar(s[1..], c)
  }

  /** Deleting a character that does not occur changes nothing. */
  lemma {:induction false} RemoveCharAbsent(s: string, c: char)
    requires c !in s
    ensures RemoveChar(s, c) == s
  {
    if s != [] {
      assert s[0] in s;
      RemoveCharAbsent(s[1..], c);
      assert s == [s[0]] + s[1..];
    }
  }

  /** Deletion works piece by piece: the characters other than `c` are
      kept, in order. */
  lemma {:induction false} RemoveCharAppend(s1: string, s2: string, c: char)
    ensures RemoveChar(s1 + s2, c) == RemoveChar(s1, c) + RemoveChar(s2, c)
  {
    if s1 == [] {
      assert s1 + s2 == s2;
    } else {
      assert (s1 + s2)[0] == s1[0];
      assert (s1 + s2)[1..] == s1[1..] + s2;
      RemoveCharAppend(s1[1..], s2, c);
    }
  }

  /** Counting splits over concatenation. */
  lemma {:induction false} CountCharAppend(a: string, b: string, c: char)
    ensures CountChar(a + b, c) == CountChar(a, c) + CountChar(b, c)
  {
    if a == [] {
      assert a + b == b;
    } else {
      assert (a + b)[1..] == a[1..] + b;
      CountCharAppend(a[1..], b, c);
    }
  }

  /** Lines each followed by `sep`, concatenated: how a template built with
      `+= "...\n"` lays its lines out. */
  function Terminated(lines: seq<string>, sep: char): (s: string)
    ensures |s| >= |lines|
  {
    if lines == [] then [] else lines[0] + [sep] + Terminated(lines[1..], sep)
  }

  /** Terminated lines concatenate. */
  lemma {:induction false} TerminatedAppend(a: seq<string>, b: seq<string>, sep: char)
    ensures Terminated(a + b, sep) == Terminated(a, sep) + Terminated(b, sep)
  {
    if a != [] {
      assert (a + b)[1..] == a[1..] + b;
      TerminatedAppend(a[1..], b, sep);
    } else {
      assert a + b == b;
    }
  }

  /** Two terminated lines. */
  lemma TerminatedPair(pair: seq<string>, sep: char)
    requires |pair| == 2
    ensures Terminated(pair, sep) == pair[0] + [sep] + pair[1] + [sep]
  {
    var rest := pair[1..];
    assert rest[0] == pair[1] && rest[1..] == [];
    assert Terminated(rest, sep) == pair[1] + [sep] + [];
  }

  /** One more terminated line. */
  lemma TerminatedSnoc(lines: seq<string>, line: string, sep: char)
    ensures Terminated(lines + [line], sep) == Terminated(lines, sep) + line + [sep]
  {
    TerminatedAppend(lines, [line], sep);
    assert [line][1..] == [];
  }

  /** No line holds the separator. */
  predicate SingleLines(lines: seq<string>, sep: char) {
    forall i :: 0 <= i < |lines| ==> sep !in lines[i]
  }

  /** Lines without the separator, concatenated, have none. */
  lemma SingleLinesAppend(a: seq<string>, b: seq<string>, sep: char)
    requires SingleLines(a, sep) && SingleLines(b, sep)
    ensures SingleLines(a + b, sep)
  {
    forall i | 0 <= i < |a + b|
      ensures sep !in (a + b)[i]
    {
      if i >= |a| {
        assert (a + b)[i] == b[i - |a|];
      }
    }
  }

  /** Splitting terminated lines followed by a last piece gives the lines
      back, then the pieces of the last one. */
  lemma {:induction false} SplitTerminated(lines: seq<string>, last: string, sep: char)
    requires SingleLines(lines, sep)
    ensures Split(Terminated(lines, sep) + last, sep) == lines + Split(last, sep)
  {
    if lines == [] {
      assert Terminated(lines, sep) + last == last;
    } else {
      var head, rest := lines[0], Terminated(lines[1..], sep);
      var tail := rest + last;
      calc {
        Split(Terminated(lines, sep) + last, sep);
        { assert Terminated(lines, sep) + last == head + [sep] + tail; }
        Split(head + [sep] + tail, sep);
        { SplitAppend(head, tail, sep); SplitNoSep(head, sep); }
        [head] + Split(tail, sep);
        { SplitTerminated(lines[1..], last, sep); }
        [head] + (lines[1..] + Split(last, sep));
        { assert lines == [head] + lines[1..]; }
        lines + Split(last, sep);
      }
    }
  }

  /** A template of separator-free lines, each terminated, then a last
      separator-free line, splits back into those lines. */
  lemma SplitTemplate(lines: seq<string>, last: string, sep: char)
    requires SingleLines(lines, sep) && sep !in last
    ensures Split(Terminated(lines, sep) + last, sep) == lines + [last]
  {
    SplitTerminated(lines, last, sep);
    SplitNoSep(last, sep);
  }

  /** `sep.join(parts)` */
  function Join(parts: seq<string>, sep: char): string
  {
    if |parts| == 0 then []
    else if |parts| == 1 then parts[0]
    else parts[0] + [sep] + Join(parts[1..], sep)
  }

  /** `s.split(sep)` followed by `sep.join(...)` gives back `s`. */
  lemma {:induction false} JoinSplit(s: string, sep: char)
    ensures Join(Split(s, sep), sep) == s
  {
    if s != [] {
      JoinSplit(s[1..], sep);
      var rest := Split(s[1..], sep);
      if s[0] == sep {
        assert [[]] + rest == [[]] + rest;
        assert Join([[]] + rest, sep) == [] + [sep] + Join(rest, sep);
      } else {
        var r := [[s[0]] + rest[0]] + rest[1..];
        if |rest| == 1 {
          assert r == [[s[0]] + rest[0]];
        } else {
          assert r[1..] == rest[1..];
          assert Join(rest, sep) == rest[0] + [sep] + Join(rest[1..], sep);
        }
      }
    }
  }

  /** One more piece than separators. */
  lemma {:induction false} SplitCount(s: string, sep: char)
    ensures |Split(s, sep)| == CountChar(s, sep) + 1
  {
    if s != [] {
      SplitCount(s[1..], sep);
    }
  }

  /** Splitting a string that has a separator at a known place splits the two
      sides independently. */
  lemma {:induction false} SplitAppend(a: string, b: string, sep: char)
    ensures Split(a + [sep] + b, sep) == Split(a, sep) + Split(b, sep)
  {
    if a == [] {
      assert [sep] + b == [] + [sep] + b;
      assert ([sep] + b)[1..] == b;
    } else {
      var ab := a + [sep] + b;
      assert ab[0] == a[0];
      assert ab[1..] == a[1..] + [sep] + b;
      SplitAppend(a[1..], b, sep);
    }
  }

  /** Splitting a string with no separator gives it back whole. */
  lemma {:induction false} SplitNoSep(s: string, sep: char)
    requires sep !in s
    ensures Split(s, sep) == [s]
  {
    if s != [] {
      assert s[0] in s && sep !in s[1..];
      SplitNoSep(s[1..], sep);
      assert s == [s[0]] + s[1..];
    }
  }

  /** Joining pieces free of the separator and splitting again gives back
      the pieces. */
  lemma {:induction false} SplitJoin(parts: seq<string>, sep: char)
    requires |parts| >= 1
    requires forall i :: 0 <= i < |parts| ==> sep !in parts[i]
    ensures Split(Join(parts, sep), sep) == parts
  {
    if |parts| == 1 {
      SplitNoSep(parts[0], sep);
    } else {
      SplitJoin(parts[1..], sep);
      SplitAppend(parts[0], Join(parts[1..], sep), sep);
      SplitNoSep(parts[0], sep);
      assert parts == [parts[0]] + parts[1..];
    }
  }

  /** Lines framed by a separator-free rule above and below split back into
      the rule, the lines and the rule. */
  lemma SplitFramed(rule: string, parts: seq<string>, sep: char)
    requires sep !in rule && |parts| >= 1
    requires forall i :: 0 <= i < |parts| ==> sep !in parts[i]
    ensures Split(rule + [sep] + Join(parts, sep) + [sep] + rule, sep) == [rule] + parts + [rule]
  {
    var body := Join(parts, sep);
    SplitJoin(parts, sep);
    SplitNoSep(rule, sep);
    SplitAppend(body, rule, sep);
    SplitAppend(rule, body + [sep] + rule, sep);
    assert rule + [sep] + body + [sep] + rule == rule + [sep] + (body + [sep] + rule);
  }

  /** `pat` occurs in `s` starting at index `i`. */
  predicate OccursAt(s: string, pat: string, i: int) {
    0 <= i && i + |pat| <= |s| && s[i..i + |pat|] == pat
  }

  /** `s.find(pat)` from index `from` on, as an option. */
  function FindFrom(s: string, pat: string, from: nat): (r: Option<nat>)
    requires from <= |s|
    ensures r.Some? ==> from <= r.value && r.value + |pat| <= |s|
    decreases |s| - from
  {
    if from + |pat| > |s| then None
    else if s[from..from + |pat|] == pat then Some(from)
    else if from == |s| then None
    else FindFrom(s, pat, from + 1)
  }

  /** `find` returns the leftmost occurrence at or after `from`, or nothing
      when there is none. */
  lemma {:induction false} FindFromLeftmost(s: string, pat: string, from: nat)
    requires from <= |s|
    ensures var r := FindFrom(s, pat, from);
      && (r.Some? ==> from <= r.value && OccursAt(s, pat, r.value))
      && (r.Some? ==> forall j :: from <= j < r.value ==> !OccursAt(s, pat, j))
      && (r.None? ==> forall j :: from <= j ==> !OccursAt(s, pat, j))
    decreases |s| - from
  {
    if from + |pat| <= |s| && s[from..from + |pat|] != pat && from < |s| {
      FindFromLeftmost(s, pat, from + 1);
    }
  }

  /** `s.replace(pat, "", 1)`: deletes the first occurrence of `pat`,
      wherever it is, and leaves `s` unchanged when there is none. */
  function ReplaceFirst(s: string, pat: string): (r: string)
  {
    match FindFrom(s, pat, 0)
    case None => s
    case Some(i) => s[..i] + s[i + |pat|..]
  }

  /** Deleting the first occurrence: the result is `s` with the leftmost copy
      of `pat` cut out, and every other character kept in order. */
  lemma ReplaceFirstCutsLeftmost(s: string, pat: string, i: nat)
    requires OccursAt(s, pat, i)
    requires forall j :: 0 <= j < i ==> !OccursAt(s, pat, j)
    ensures ReplaceFirst(s, pat) == s[..i] + s[i + |pat|..]
    ensures s == ReplaceFirst(s, pat)[..i] + pat + ReplaceFirst(s, pat)[i..]
  {
    FindFromLeftmost(s, pat, 0);
    assert FindFrom(s, pat, 0) == Some(i);
    var r := s[..i] + s[i + |pat|..];
    assert r[..i] == s[..i];
    assert r[i..] == s[i + |pat|..];
    assert s == s[..i] + s[i..i + |pat|] + s[i + |pat|..];
  }

  /** With no occurrence, nothing is deleted. */
  lemma ReplaceFirstAbsent(s: string, pat: string)
    requires forall j :: !OccursAt(s, pat, j)
    ensures ReplaceFirst(s, pat) == s
  {
    FindFromLeftmost(s, pat, 0);
  }

  /** Deleting never introduces a character. */
  lemma ReplaceFirstNotIn(s: string, pat: string, x: char)
    requires x !in s
    ensures x !in ReplaceFirst(s, pat)
  {
    match FindFrom(s, pat, 0)
    case None =>
    case Some(i) =>
      var r := s[..i] + s[i + |pat|..];
      forall k | 0 <= k < |r|
        ensures r[k] != x
      {
        if k < i {
          assert r[k] == s[k];
        } else {
          assert r[k] == s[k + |pat|];
        }
      }
  }

  /** When `pat` is a prefix of `s` the first occurrence is at the start, so
      the replacement strips that prefix. */
  lemma ReplaceFirstPrefix(s: string, pat: string)
    requires StartsWith(s, pat)
    ensures ReplaceFirst(s, pat) == s[|pat|..]
  {
    assert OccursAt(s, pat, 0);
    ReplaceFirstCutsLeftmost(s, pat, 0);
  }

  /** The text after the last `sep` (`os.path.basename` with `sep` as the
      path separator); all of `s` when there is no separator. */
  function AfterLast(s: string, sep: char): (r: string)
    ensures sep !in r
    ensures |r| <= |s| && r == s[|s| - |r|..]
    ensures |r| < |s| ==> s[|s| - |r| - 1] == sep
  {
    if s == [] then []
    else if s[|s| - 1] == sep then []
    else AfterLast(s[..|s| - 1], sep) + [s[|s| - 1]]
  }

  /** The text before the first `sep` (`s.split(sep)[0]`). */
  function BeforeFirst(s: string, sep: char): (r: string)
    ensures sep !in r
    ensures |r| <= |s| && r == s[..|r|]
    ensures |r| < |s| ==> s[|r|] == sep
  {
    if s == [] || s[0] == sep then [] else [s[0]] + BeforeFirst(s[1..], sep)
  }
}
