// The assembler's line tokenizer (asm/asm.py): `_split`, which trims a line
// and splits it on whitespace, and `split`, which also keeps a quoted string
// as one token and drops a `;` comment. Strings are Python `str` values, that
// is sequences of code points.
module AsmText {

  /** Python's `str.isspace`, the characters `strip()` and `split()` treat as whitespace. */
  predicate IsSpace(c: char) {
    '\t' <= c <= '\r' || '\U{1c}' <= c <= ' ' || c == '\U{85}' || c == '\U{a0}' || c == '\U{1680}' ||
    '\U{2000}' <= c <= '\U{200a}' || c == '\U{2028}' || c == '\U{2029}' || c == '\U{202f}' ||
    c == '\U{205f}' || c == '\U{3000}'
  }

  predicate NoSpace(s: string) {
    forall i :: 0 <= i < |s| ==> !IsSpace(s[i])
  }

  /** The length of the run of non-space characters at the start of `s`. */
  function WordLen(s: string): (n: nat)
    ensures n <= |s| && NoSpace(s[..n])
    ensures n < |s| ==> IsSpace(s[n])
    ensures s != [] && !IsSpace(s[0]) ==> n >= 1
  {
    if s == [] || IsSpace(s[0]) then 0
    else
      var n := 1 + WordLen(s[1..]);
      assert s[..n] == [s[0]] + s[1..][..n - 1];
      n
  }

  /** Python's `str.split()` with no separator: the maximal runs of non-space characters, in order. */
  function Words(s: string): seq<string>
    decreases |s|
  {
    if s == [] then []
    else if IsSpace(s[0]) then Words(s[1..])
    else
      var n := WordLen(s);
      [s[..n]] + Words(s[n..])
  }

  /** Every word is non-empty and holds no whitespace. */
  lemma {:induction false} WordsAreWords(s: string)
    ensures forall w :: w in Words(s) ==> w != [] && NoSpace(w)
    decreases |s|
  {
    if s != [] {
      if IsSpace(s[0]) {
        WordsAreWords(s[1..]);
      } else {
        WordsAreWords(s[WordLen(s)..]);
      }
    }
  }

  /** A non-space character in front of `y` either starts a word of its own or joins `y`'s first word. */
  lemma ConsWord(c: char, y: string)
    requires !IsSpace(c)
    ensures Words([c] + y) ==
      if y == [] || IsSpace(y[0]) then [[c]] + Words(y)
      else [[c] + Words(y)[0]] + Words(y)[1..]
  {
    var s := [c] + y;
    assert s[0] == c && s[1..] == y;
    var m := WordLen(y);
    assert WordLen(s) == 1 + m;
    assert s[..1 + m] == [c] + y[..m];
    assert s[1 + m..] == y[m..];
    assert Words(s) == [[c] + y[..m]] + Words(y[m..]);
    if y != [] && !IsSpace(y[0]) {
      assert Words(y) == [y[..m]] + Words(y[m..]);
    } else {
      assert m == 0 && y[..m] == [] && y[m..] == y;
    }
  }

  /** A whitespace character in front of `y` changes nothing. */
  lemma SpaceCons(c: char, y: string)
    requires IsSpace(c)
    ensures Words([c] + y) == Words(y)
  {
    assert ([c] + y)[1..] == y;
  }

  /** A whitespace character after `s` changes nothing. */
  lemma {:induction false} SpaceSnoc(s: string, c: char)
    requires IsSpace(c)
    ensures Words(s + [c]) == Words(s)
    decreases |s|
  {
    if s == [] {
      SpaceCons(c, []);
    } else {
      assert s + [c] == [s[0]] + (s[1..] + [c]);
      assert s == [s[0]] + s[1..];
      SpaceSnoc(s[1..], c);
      if IsSpace(s[0]) {
        SpaceCons(s[0], s[1..] + [c]);
        SpaceCons(s[0], s[1..]);
      } else {
        ConsWord(s[0], s[1..] + [c]);
        ConsWord(s[0], s[1..]);
      }
    }
  }

  /** `str.lstrip()`. */
  function StripLeft(s: string): (r: string)
    ensures |r| <= |s| && (r != [] ==> !IsSpace(r[0]))
    ensures Words(r) == Words(s)
  {
    if s != [] && IsSpace(s[0]) then
      SpaceCons(s[0], s[1..]);
      assert s == [s[0]] + s[1..];
      StripLeft(s[1..])
    else s
  }

  /** `str.rstrip()`. */
  function StripRight(s: string): (r: string)
    ensures |r| <= |s| && (r != [] ==> !IsSpace(r[|r| - 1]))
    ensures Words(r) == Words(s)
  {
    if s != [] && IsSpace(s[|s| - 1]) then
      SpaceSnoc(s[..|s| - 1], s[|s| - 1]);
      assert s == s[..|s| - 1] + [s[|s| - 1]];
      StripRight(s[..|s| - 1])
    else s
  }

  /** `str.strip()`. */
  function Strip(s: string): string {
    StripRight(StripLeft(s))
  }

  /** `str.replace("\t", " ")`. */
  function ReplaceTabs(s: string): (r: string)
    ensures |r| == |s| && forall i :: 0 <= i < |s| ==> r[i] == if s[i] == '\t' then ' ' else s[i]
  {
    seq(|s|, i requires 0 <= i < |s| => if s[i] == '\t' then ' ' else s[i])
  }

  /** Two strings with whitespace in the same places and the same other characters have the same words. */
  lemma {:induction false} SameSpacing(s: string, t: string)
    requires |s| == |t|
    requires forall i :: 0 <= i < |s| ==> IsSpace(s[i]) == IsSpace(t[i]) && (!IsSpace(s[i]) ==> s[i] == t[i])
    ensures Words(s) == Words(t)
    decreases |s|
  {
    if s != [] {
      assert s == [s[0]] + s[1..] && t == [t[0]] + t[1..];
      SameSpacing(s[1..], t[1..]);
      if IsSpace(s[0]) {
        SpaceCons(s[0], s[1..]);
        SpaceCons(t[0], t[1..]);
      } else {
        ConsWord(s[0], s[1..]);
        ConsWord(t[0], t[1..]);
      }
    }
  }

  /** One pass of `str.replace("  ", " ")`: each pair of spaces, scanning left to right, becomes one. */
  function ReplaceDouble(s: string): (r: string)
    ensures |r| <= |s| && (|r| == |s| ==> r == s)
    ensures r == [] <==> s == []
    ensures s != [] ==> r[0] == s[0]
  {
    if |s| >= 2 && s[0] == ' ' && s[1] == ' ' then [' '] + ReplaceDouble(s[2..])
    else if s == [] then []
    else [s[0]] + ReplaceDouble(s[1..])
  }

  lemma {:induction false} ReplaceDoubleKeepsWords(s: string)
    ensures Words(ReplaceDouble(s)) == Words(s)
    decreases |s|
  {
    if |s| >= 2 && s[0] == ' ' && s[1] == ' ' {
      ReplaceDoubleKeepsWords(s[2..]);
      SpaceCons(' ', ReplaceDouble(s[2..]));
      assert s == [' '] + ([' '] + s[2..]);
      SpaceCons(' ', [' '] + s[2..]);
      SpaceCons(' ', s[2..]);
    } else if s != [] {
      ReplaceDoubleKeepsWords(s[1..]);
      assert s == [s[0]] + s[1..];
      if IsSpace(s[0]) {
        SpaceCons(s[0], ReplaceDouble(s[1..]));
        SpaceCons(s[0], s[1..]);
      } else {
        ConsWord(s[0], ReplaceDouble(s[1..]));
        ConsWord(s[0], s[1..]);
      }
    }
  }

  predicate NoDoubleSpace(s: string) {
    forall i :: 0 <= i < |s| - 1 ==> !(s[i] == ' ' && s[i + 1] == ' ')
  }

  /** A pass that changes nothing found no pair of spaces. */
  lemma {:induction false} UnchangedHasNoDoubleSpace(s: string)
    requires ReplaceDouble(s) == s
    ensures NoDoubleSpace(s)
    decreases |s|
  {
    if s != [] && !(|s| >= 2 && s[0] == ' ' && s[1] == ' ') {
      assert ReplaceDouble(s[1..]) == s[1..];
      UnchangedHasNoDoubleSpace(s[1..]);
      assert forall i :: 1 <= i < |s| - 1 ==> s[i] == s[1..][i - 1];
    }
  }

  /** `_merge_spaces`: replace until nothing changes. */
  function MergeSpaces(s: string): (r: string)
    ensures NoDoubleSpace(r)
    decreases |s|
  {
    var merged := ReplaceDouble(s);
    if merged != s then MergeSpaces(merged)
    else
      UnchangedHasNoDoubleSpace(s);
      s
  }

  lemma {:induction false} MergeSpacesKeepsWords(s: string)
    ensures Words(MergeSpaces(s)) == Words(s)
    decreases |s|
  {
    ReplaceDoubleKeepsWords(s);
    if ReplaceDouble(s) != s {
      MergeSpacesKeepsWords(ReplaceDouble(s));
    }
  }

  /** `clean` inside `_split`: strip, tabs to spaces, runs of spaces merged. */
  function Clean(line: string): (c: string)
    ensures NoDoubleSpace(c)
  {
    MergeSpaces(ReplaceTabs(Strip(line)))
  }

  /** `_split`: the cleaned line split on whitespace, or no tokens when the cleaned line is empty. */
  function CleanSplit(line: string): seq<string> {
    var c := Clean(line);
    if c != "" then Words(c) else []
  }

  /** However it cleans the line first, `_split` returns exactly the whitespace-separated words of the line. */
  lemma CleanSplitIsWords(line: string)
    ensures CleanSplit(line) == Words(line)
  {
    var s := Strip(line);
    SameSpacing(s, ReplaceTabs(s));
    MergeSpacesKeepsWords(ReplaceTabs(s));
  }

  // --- split ---------------------------------------------------------------

  /** The characters that open a quoted token. */
  predicate IsQuote(c: char) {
    c == '\'' || c == '"' || c == '`'
  }

  /** The quote states a matching character closes: a backquote opens a quote that never closes. */
  predicate Closes(q: char) {
    q == '"' || q == '\''
  }

  /** A character `split` acts on outside quotes. */
  predicate Special(c: char) {
    IsQuote(c) || c == '\\' || c == ';'
  }

  predicate Plain(s: string) {
    forall i :: 0 <= i < |s| ==> !Special(s[i])
  }

  /** `state`: 0 outside quotes, or the quote character that opened the current token. */
  datatype Mode = Outside | Inside(q: char)

  /** The tokens of `split(line)`. */
  function Split(line: string): seq<string>
    decreases |line|, |line| + 2
  {
    Scan(line, 0, Outside, 0)
  }

  /**
   * The while loop of `split` from position `ix` on, in `mode`, with the
   * current quote opened at `start`: outside quotes a quote character opens
   * a token, a backslash skips the next character and `;` ends the line; a
   * closing quote makes one token of the quoted text and splits both sides
   * again. At the end of the line the whole line goes to `_split`.
   */
  function Scan(line: string, ix: nat, mode: Mode, start: nat): seq<string>
    requires start <= ix && start <= |line|
    requires mode.Inside? ==> start < ix
    decreases |line|, |line| + 1 - ix
  {
    if ix >= |line| then CleanSplit(line)
    else match mode
      case Outside =>
        if IsQuote(line[ix]) then Scan(line, ix + 1, Inside(line[ix]), ix)
        else if line[ix] == '\\' then Scan(line, ix + 2, Outside, start)
        else if line[ix] == ';' then Split(line[..ix])
        else Scan(line, ix + 1, Outside, start)
      case Inside(q) =>
        if Closes(q) && line[ix] == q then Split(line[..start]) + [line[start..ix + 1]] + Split(line[ix + 1..])
        else Scan(line, ix + 1, mode, start)
  }

  /** `split`, the loop as written. */
  method SplitLine(line: string) returns (tokens: seq<string>)
    ensures tokens == Split(line)
    decreases |line|
  {
    var mode := Outside;
    var ix := 0;
    var start := 0;
    while ix < |line|
      invariant start <= ix <= |line| + 1 && start <= |line| && (mode.Inside? ==> start < ix)
      invariant Scan(line, ix, mode, start) == Split(line)
      decreases |line| + 1 - ix
    {
      if mode == Outside {
        if IsQuote(line[ix]) {
          start := ix;
          mode := Inside(line[ix]);
        } else if line[ix] == '\\' {
          ix := ix + 1;
        } else if line[ix] == ';' {
          tokens := SplitLine(line[..ix]);
          return;
        }
      } else if Closes(mode.q) && line[ix] == mode.q {
        var left := SplitLine(line[..start]);
        var right := SplitLine(line[ix + 1..]);
        tokens := left + [line[start..ix + 1]] + right;
        return;
      }
      ix := ix + 1;
    }
    tokens := CleanSplit(line);
  }

  /** Outside quotes, a stretch with no special character is read past. */
  lemma {:induction false} ScanPastPlain(line: string, ix: nat, k: nat, start: nat)
    requires start <= ix <= k <= |line| && Plain(line[ix..k])
    ensures Scan(line, ix, Outside, start) == Scan(line, k, Outside, start)
    decreases k - ix
  {
    if ix < k {
      assert line[ix..k][0] == line[ix];
      assert line[ix + 1..k] == line[ix..k][1..];
      ScanPastPlain(line, ix + 1, k, start);
    }
  }

  /** Inside a quote, a stretch without the closing character is read past. */
  lemma {:induction false} ScanPastQuoted(line: string, ix: nat, k: nat, q: char, start: nat)
    requires start < ix <= k <= |line|
    requires forall i :: ix <= i < k ==> !(Closes(q) && line[i] == q)
    ensures Scan(line, ix, Inside(q), start) == Scan(line, k, Inside(q), start)
    decreases k - ix
  {
    if ix < k {
      ScanPastQuoted(line, ix + 1, k, q, start);
    }
  }

  /** A line without quotes, backslashes or `;` is split on whitespace, as `_split` would. */
  lemma PlainLineIsWords(line: string)
    requires Plain(line)
    ensures Split(line) == Words(line)
  {
    assert line[0..|line|] == line;
    ScanPastPlain(line, 0, |line|, 0);
    CleanSplitIsWords(line);
  }

  /** A `;` outside quotes ends the line: what follows it is dropped. */
  lemma CommentIsDropped(a: string, b: string)
    requires Plain(a)
    ensures Split(a + ";" + b) == Words(a)
  {
    var line := a + ";" + b;
    assert line[0..|a|] == a && line[|a|] == ';' && line[..|a|] == a;
    ScanPastPlain(line, 0, |a|, 0);
    PlainLineIsWords(a);
  }

  /**
   * A string in matching single or double quotes is one token, quotes
   * included, whatever it holds; the text before it is split on whitespace
   * and the text after it is split again.
   */
  lemma QuotedStringIsOneToken(a: string, q: char, body: string, b: string)
    requires Plain(a) && Closes(q) && q !in body
    ensures Split(a + [q] + body + [q] + b) == Words(a) + [[q] + body + [q]] + Split(b)
  {
    var line := a + [q] + body + [q] + b;
    var k := |a| + 1 + |body|;
    assert line[0..|a|] == a && line[|a|] == q && line[k] == q;
    ScanPastPlain(line, 0, |a|, 0);
    forall i | |a| + 1 <= i < k
      ensures !(Closes(q) && line[i] == q)
    {
      assert line[i] == body[i - |a| - 1];
    }
    ScanPastQuoted(line, |a| + 1, k, q, |a|);
    assert line[..|a|] == a && line[|a|..k + 1] == [q] + body + [q] && line[k + 1..] == b;
    PlainLineIsWords(a);
  }

  /** A quote that is never closed is no error: the whole line, quote included, is split on whitespace. */
  lemma UnclosedQuoteIsSplitOnSpaces(a: string, q: char, rest: string)
    requires Plain(a) && IsQuote(q) && q !in rest
    ensures Split(a + [q] + rest) == Words(a + [q] + rest)
  {
    var line := a + [q] + rest;
    assert line[0..|a|] == a && line[|a|] == q;
    ScanPastPlain(line, 0, |a|, 0);
    forall i | |a| + 1 <= i < |line|
      ensures !(Closes(q) && line[i] == q)
    {
      assert line[i] == rest[i - |a| - 1];
    }
    ScanPastQuoted(line, |a| + 1, |line|, q, |a|);
    CleanSplitIsWords(line);
  }

  /** A backquote opens a quote nothing closes: the rest of the line is never examined, `;` included. */
  lemma BackquoteSwallowsTheLine(a: string, rest: string)
    requires Plain(a)
    ensures Split(a + ['`'] + rest) == Words(a + ['`'] + rest)
  {
    var line := a + ['`'] + rest;
    assert line[0..|a|] == a && line[|a|] == '`';
    ScanPastPlain(line, 0, |a|, 0);
    ScanPastQuoted(line, |a| + 1, |line|, '`', |a|);
    CleanSplitIsWords(line);
  }

  /** Outside quotes a backslash keeps the next character from opening a quote or a comment; both stay in the token. */
  lemma BackslashEscapesOneCharacter(a: string, c: char, b: string)
    requires Plain(a) && Plain(b)
    ensures Split(a + ['\\', c] + b) == Words(a + ['\\', c] + b)
  {
    var line := a + ['\\', c] + b;
    assert line[0..|a|] == a && line[|a|] == '\\' && line[|a| + 2..|line|] == b;
    ScanPastPlain(line, 0, |a|, 0);
    ScanPastPlain(line, |a| + 2, |line|, 0);
    CleanSplitIsWords(line);
  }
}
