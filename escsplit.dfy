// The escape-aware tokenizer (asm/split/__init__.py). It works like the
// assembler's `split` but keeps a stack of states: inside a quoted string a
// backslash is taken out of the line and the character after it is
// translated, and a quote still open at the end of the line is an error.
module EscapeSplit {
  import opened Wrappers
  import opened AsmText

  /** The ValueError raised for a quote left open at the end of the line. */
  datatype SplitError = MismatchedQuote(quote: char)

  /** The escape translation inside quotes: n, t and b stand for newline, tab and backspace; any other character stands for itself. */
  function Translate(c: char): char {
    if c == 'n' then '\n' else if c == 't' then '\t' else if c == 'b' then '\U{8}' else c
  }

  /** The quoted token between the split left side and the split right side; the left side's error comes first. */
  function Around(left: Result<seq<string>, SplitError>, token: string,
                  right: Result<seq<string>, SplitError>): (r: Result<seq<string>, SplitError>)
    ensures r.Success? <==> left.Success? && right.Success?
    ensures r.Success? ==> r.value == left.value + [token] + right.value
    ensures left.Failure? ==> r == left
    ensures left.Success? && right.Failure? ==> r == right
  {
    if left.Failure? then left
    else if right.Failure? then right
    else Success(left.value + [token] + right.value)
  }

  /** `split(line)`: the tokens, or the mismatched-quote error. */
  function ESplit(line: string): Result<seq<string>, SplitError>
    decreases |line|, |line| + 2
  {
    Scan(line, 0, [], 0)
  }

  /**
   * The while loop of `split` from position `ix` on, with the state stack
   * `states` (top first) and the current quote opened at `start`. The line
   * itself is rewritten inside quotes: a backslash is removed, and the
   * character it escapes is replaced by its translation.
   */
  function Scan(line: string, ix: nat, states: seq<char>, start: nat): Result<seq<string>, SplitError>
    requires start <= ix <= |line| + 1 && start <= |line|
    requires states != [] ==> start < ix
    decreases |line|, |line| + 1 - ix
  {
    if ix >= |line| then
      if states != [] && Closes(states[0]) then Failure(MismatchedQuote(states[0]))
      else Success(CleanSplit(line))
    else
      var ch := line[ix];
      if states == [] then
        if IsQuote(ch) then Scan(line, ix + 1, [ch], ix)
        else if ch == '\\' then Scan(line, ix + 2, [], start)
        else if ch == ';' then ESplit(line[..ix])
        else Scan(line, ix + 1, [], start)
      else if states[0] == '\\' then
        Scan(line[..ix] + [Translate(ch)] + line[ix + 1..], ix + 1, states[1..], start)
      else if Closes(states[0]) && ch == states[0] then
        Around(ESplit(line[..start]), line[start..ix + 1], ESplit(line[ix + 1..]))
      else if Closes(states[0]) && ch == '\\' then
        Scan(line[..ix] + line[ix + 1..], ix, ['\\'] + states, start)
      else Scan(line, ix + 1, states, start)
  }

  /** `split`, the loop as written, rewriting its own copy of the line. */
  method SplitLine(line0: string) returns (r: Result<seq<string>, SplitError>)
    ensures r == ESplit(line0)
    decreases |line0|
  {
    var line := line0;
    var states: seq<char> := [];
    var ix := 0;
    var start := 0;
    while ix < |line|
      invariant start <= ix <= |line| + 1 && start <= |line| && |line| <= |line0|
      invariant states != [] ==> start < ix
      invariant Scan(line, ix, states, start) == ESplit(line0)
      decreases |line|, |line| + 1 - ix
    {
      var ch := line[ix];
      if states == [] {
        if IsQuote(ch) {
          assert Scan(line, ix + 1, [ch], ix) == ESplit(line0);
          start := ix;
          states := [ch];
        } else if ch == '\\' {
          assert Scan(line, ix + 2, [], start) == ESplit(line0);
          ix := ix + 1;
        } else if ch == ';' {
          r := SplitLine(line[..ix]);
          return;
        } else {
          assert Scan(line, ix + 1, [], start) == ESplit(line0);
        }
      } else if states[0] == '\\' {
        assert Scan(line[..ix] + [Translate(ch)] + line[ix + 1..], ix + 1, states[1..], start) == ESplit(line0);
        line := line[..ix] + [Translate(ch)] + line[ix + 1..];
        states := states[1..];
      } else if Closes(states[0]) {
        if ch == states[0] {
          var left := SplitLine(line[..start]);
          if left.Failure? {
            return left;
          }
          var right := SplitLine(line[ix + 1..]);
          if right.Failure? {
            return right;
          }
          return Success(left.value + [line[start..ix + 1]] + right.value);
        } else if ch == '\\' {
          assert Scan(line[..ix] + line[ix + 1..], ix, ['\\'] + states, start) == ESplit(line0);
          line := line[..ix] + line[ix + 1..];
          ix := ix - 1;
          states := ['\\'] + states;
        } else {
          assert Scan(line, ix + 1, states, start) == ESplit(line0);
        }
      } else {
        assert Scan(line, ix + 1, states, start) == ESplit(line0);
      }
      ix := ix + 1;
    }
    if states != [] && Closes(states[0]) {
      r := Failure(MismatchedQuote(states[0]));
    } else {
      r := Success(CleanSplit(line));
    }
  }

  // --- quoted text -----------------------------------------------------------

  /** The text after an opening quote `q`: characters other than `q` and backslash, or a backslash and any character. */
  predicate WellEscaped(raw: string, q: char)
    decreases |raw|
  {
    raw == [] ||
    (raw[0] == '\\' && |raw| >= 2 && WellEscaped(raw[2..], q)) ||
    (raw[0] != '\\' && raw[0] != q && WellEscaped(raw[1..], q))
  }

  /** What the quoted text becomes once each backslash pair is replaced by its translation. */
  function Unescape(raw: string): (s: string)
    ensures |s| <= |raw|
    decreases |raw|
  {
    if raw == [] then []
    else if raw[0] == '\\' && |raw| >= 2 then [Translate(raw[1])] + Unescape(raw[2..])
    else [raw[0]] + Unescape(raw[1..])
  }

  /** Text without backslashes is its own unescaped form. */
  lemma {:induction false} UnescapeWithoutBackslash(raw: string)
    requires '\\' !in raw
    ensures Unescape(raw) == raw
    decreases |raw|
  {
    if raw != [] {
      assert raw[0] in raw && raw[1..] == raw[1..];
      assert forall c :: c in raw[1..] ==> c in raw;
      UnescapeWithoutBackslash(raw[1..]);
    }
  }

  /** Outside quotes, a stretch with no special character is read past. */
  lemma {:induction false} ScanPastPlain(line: string, ix: nat, k: nat, start: nat)
    requires start <= ix <= k <= |line| && Plain(line[ix..k])
    ensures Scan(line, ix, [], start) == Scan(line, k, [], start)
    decreases k - ix
  {
    if ix < k {
      assert line[ix..k][0] == line[ix];
      assert line[ix + 1..k] == line[ix..k][1..];
      ScanPastPlain(line, ix + 1, k, start);
    }
  }

  /** Inside a quote, a backslash and the character after it become that character's translation. */
  lemma QuotedEscape(p: string, raw: string, tail: string, q: char, start: nat)
    requires Closes(q) && start < |p| && |raw| >= 2 && raw[0] == '\\'
    ensures Scan(p + raw + tail, |p|, [q], start) ==
            Scan((p + [Translate(raw[1])]) + raw[2..] + tail, |p + [Translate(raw[1])]|, [q], start)
  {
    var line := p + raw + tail;
    var removed := p + raw[1..] + tail;
    assert line[|p|] == '\\' && line[..|p|] + line[|p| + 1..] == removed;
    assert removed[|p|] == raw[1];
    assert removed[..|p|] + [Translate(raw[1])] + removed[|p| + 1..] == (p + [Translate(raw[1])]) + raw[2..] + tail;
  }

  /** Inside a quote, a character other than the quote and backslash is read past. */
  lemma QuotedPlain(p: string, raw: string, tail: string, q: char, start: nat)
    requires Closes(q) && start < |p| && raw != [] && raw[0] != '\\' && raw[0] != q
    ensures Scan(p + raw + tail, |p|, [q], start) == Scan((p + [raw[0]]) + raw[1..] + tail, |p + [raw[0]]|, [q], start)
  {
    assert (p + raw + tail)[|p|] == raw[0];
    assert p + raw + tail == (p + [raw[0]]) + raw[1..] + tail;
  }

  /** Unescaping a leading backslash pair after `p`. */
  lemma UnescapePair(p: string, raw: string)
    requires |raw| >= 2 && raw[0] == '\\'
    ensures (p + [Translate(raw[1])]) + Unescape(raw[2..]) == p + Unescape(raw)
  {
  }

  /** Unescaping a leading ordinary character after `p`. */
  lemma UnescapeSingle(p: string, raw: string)
    requires raw != [] && !(raw[0] == '\\' && |raw| >= 2)
    ensures (p + [raw[0]]) + Unescape(raw[1..]) == p + Unescape(raw)
  {
  }

  /**
   * Reading well-escaped text inside a quote rewrites it to its unescaped
   * form in the line and leaves the scan just after it, still inside the
   * quote.
   */
  lemma {:induction false} ReadQuoted(p: string, raw: string, tail: string, q: char, start: nat)
    requires Closes(q) && WellEscaped(raw, q) && start < |p|
    ensures Scan(p + raw + tail, |p|, [q], start) ==
            Scan(p + Unescape(raw) + tail, |p + Unescape(raw)|, [q], start)
    decreases |raw|
  {
    if raw != [] {
      if raw[0] == '\\' {
        QuotedEscape(p, raw, tail, q, start);
        ReadQuoted(p + [Translate(raw[1])], raw[2..], tail, q, start);
        UnescapePair(p, raw);
      } else {
        QuotedPlain(p, raw, tail, q, start);
        ReadQuoted(p + [raw[0]], raw[1..], tail, q, start);
        UnescapeSingle(p, raw);
      }
    }
  }

  /** The scan up to the opening quote of a line `a`, quote, rest, where `a` has no special character. */
  lemma OpenQuote(a: string, q: char, rest: string)
    requires Plain(a) && IsQuote(q)
    ensures ESplit(a + [q] + rest) == Scan(a + [q] + rest, |a| + 1, [q], |a|)
  {
    var line := a + [q] + rest;
    assert line[0..|a|] == a && line[|a|] == q;
    ScanPastPlain(line, 0, |a|, 0);
  }

  /** A line without quotes, backslashes or `;` is split on whitespace, as `_split` would. */
  lemma PlainLineIsWords(line: string)
    requires Plain(line)
    ensures ESplit(line) == Success(Words(line))
  {
    assert line[0..|line|] == line;
    ScanPastPlain(line, 0, |line|, 0);
    CleanSplitIsWords(line);
  }

  /** A `;` outside quotes ends the line: what follows it is dropped. */
  lemma CommentIsDropped(a: string, b: string)
    requires Plain(a)
    ensures ESplit(a + ";" + b) == Success(Words(a))
  {
    var line := a + ";" + b;
    assert line[0..|a|] == a && line[|a|] == ';' && line[..|a|] == a;
    ScanPastPlain(line, 0, |a|, 0);
    PlainLineIsWords(a);
  }

  /** The closing quote: the token runs from the opening quote to it, and both sides are split again. */
  lemma CloseQuote(line: string, k: nat, q: char, start: nat)
    requires Closes(q) && start < k < |line| && line[k] == q
    ensures Scan(line, k, [q], start) == Around(ESplit(line[..start]), line[start..k + 1], ESplit(line[k + 1..]))
  {
  }

  /**
   * A quoted string is one token running from its opening to its closing
   * quote, its escapes translated; the text before it is split on
   * whitespace and the text after it is split again.
   */
  lemma QuotedStringIsOneToken(a: string, q: char, raw: string, b: string)
    requires Plain(a) && Closes(q) && WellEscaped(raw, q)
    ensures ESplit(a + [q] + raw + [q] + b) ==
            Around(Success(Words(a)), [q] + Unescape(raw) + [q], ESplit(b))
  {
    var p, u, tail := a + [q], Unescape(raw), [q] + b;
    QuotedLine(a, q, raw, b, u);
    OpenQuote(a, q, raw + tail);
    ReadQuoted(p, raw, tail, q, |a|);
    CloseQuote(p + u + tail, |p + u|, q, |a|);
    PlainLineIsWords(a);
  }

  /** How the line of QuotedStringIsOneToken regroups, and its pieces once `raw` is rewritten to `u`. */
  lemma QuotedLine(a: string, q: char, raw: string, b: string, u: string)
    ensures a + [q] + raw + [q] + b == a + [q] + (raw + ([q] + b)) == (a + [q]) + raw + ([q] + b)
    ensures var line, k := (a + [q]) + u + ([q] + b), |(a + [q]) + u|;
      |a| + 1 == |a + [q]| && |a| < k < |line| && line[k] == q &&
      line[..|a|] == a && line[|a|..k + 1] == [q] + u + [q] && line[k + 1..] == b
  {
    var line, k := (a + [q]) + u + ([q] + b), |(a + [q]) + u|;
    assert line[..|a|] == a;
    assert line[|a|..k + 1] == [q] + u + [q];
    assert line[k + 1..] == b;
  }

  /** A quote still open at the end of the line is an error, also when its closing quote was escaped. */
  lemma UnclosedQuoteIsAnError(a: string, q: char, raw: string)
    requires Plain(a) && Closes(q) && WellEscaped(raw, q)
    ensures ESplit(a + [q] + raw) == Failure(MismatchedQuote(q))
  {
    OpenQuote(a, q, raw);
    assert a + [q] + raw == (a + [q]) + raw + [];
    ReadQuoted(a + [q], raw, [], q, |a|);
  }

  /**
   * A backslash as the last character inside a quote is no error: it is
   * removed, the quote is left open, and the rewritten line goes to
   * `_split`.
   */
  lemma TrailingEscapeIsNoError(a: string, q: char, raw: string)
    requires Plain(a) && Closes(q) && WellEscaped(raw, q)
    ensures ESplit(a + [q] + raw + ['\\']) == Success(Words(a + [q] + Unescape(raw)))
  {
    OpenQuote(a, q, raw + ['\\']);
    assert a + [q] + (raw + ['\\']) == (a + [q]) + raw + ['\\'];
    ReadQuoted(a + [q], raw, ['\\'], q, |a|);
    EscapeAtEnd(a + [q] + Unescape(raw), q, |a|);
    CleanSplitIsWords(a + [q] + Unescape(raw));
  }

  /** A backslash at the very end inside a quote is removed, and the state it pushes is not a quote. */
  lemma EscapeAtEnd(p: string, q: char, start: nat)
    requires Closes(q) && start < |p|
    ensures Scan(p + ['\\'], |p|, [q], start) == Success(CleanSplit(p))
  {
    var line := p + ['\\'];
    assert line[|p|] == '\\' && line[..|p|] + line[|p| + 1..] == p;
  }

  /** Outside quotes a backslash keeps the next character from opening a quote or a comment. */
  lemma BackslashEscapesOneCharacter(a: string, c: char, b: string)
    requires Plain(a) && Plain(b)
    ensures ESplit(a + ['\\', c] + b) == Success(Words(a + ['\\', c] + b))
  {
    var line := a + ['\\', c] + b;
    assert line[0..|a|] == a && line[|a|] == '\\' && line[|a| + 2..|line|] == b;
    ScanPastPlain(line, 0, |a|, 0);
    ScanPastPlain(line, |a| + 2, |line|, 0);
    CleanSplitIsWords(line);
  }

  /** A backquote opens a state nothing closes and nothing acts in: the rest of the line is split on whitespace, unchanged. */
  lemma {:induction false} InBackquote(line: string, ix: nat, start: nat)
    requires start < ix <= |line| + 1
    ensures Scan(line, ix, ['`'], start) == Success(CleanSplit(line))
    decreases |line| + 1 - ix
  {
    if ix < |line| {
      InBackquote(line, ix + 1, start);
    }
  }

  lemma BackquoteSwallowsTheLine(a: string, rest: string)
    requires Plain(a)
    ensures ESplit(a + ['`'] + rest) == Success(Words(a + ['`'] + rest))
  {
    OpenQuote(a, '`', rest);
    InBackquote(a + ['`'] + rest, |a| + 1, |a|);
    CleanSplitIsWords(a + ['`'] + rest);
  }

  lemma DbWords()
    ensures Plain("db ") && Words("db ") == ["db"] && ESplit("") == Success([])
  {
    assert WordLen(" ") == 0 && WordLen("b ") == 1 && WordLen("db ") == 2;
    assert "db "[..2] == "db" && "db "[2..] == " " && " "[1..] == "";
  }

  /** The module's self-test: an escaped n in quotes is a newline. */
  lemma SelfTestNewline()
    ensures ESplit("db '\\n'") == Success(["db", "'\n'"])
  {
    DbWords();
    assert "\\n"[2..] == [] && WellEscaped("\\n", '\'') && Unescape("\\n") == "\n";
    QuotedStringIsOneToken("db ", '\'', "\\n", "");
    assert "db " + ['\''] + "\\n" + ['\''] + "" == "db '\\n'";
    assert ['\''] + "\n" + ['\''] == "'\n'";
    assert ["db"] + ["'\n'"] + [] == ["db", "'\n'"];
  }

  /** The self-test: an escaped character without a translation stands for itself. */
  lemma SelfTestPlainEscape()
    ensures ESplit("db '\\d'") == Success(["db", "'d'"])
  {
    DbWords();
    assert "\\d"[2..] == [] && WellEscaped("\\d", '\'') && Unescape("\\d") == "d";
    QuotedStringIsOneToken("db ", '\'', "\\d", "");
    assert "db " + ['\''] + "\\d" + ['\''] + "" == "db '\\d'";
    assert ['\''] + "d" + ['\''] == "'d'";
    assert ["db"] + ["'d'"] + [] == ["db", "'d'"];
  }

  /** The self-test: an escaped backslash is one backslash. */
  lemma SelfTestBackslash()
    ensures ESplit("db '\\\\'") == Success(["db", "'\\'"])
  {
    DbWords();
    assert "\\\\"[2..] == [] && WellEscaped("\\\\", '\'') && Unescape("\\\\") == "\\";
    QuotedStringIsOneToken("db ", '\'', "\\\\", "");
    assert "db " + ['\''] + "\\\\" + ['\''] + "" == "db '\\\\'";
    assert ['\''] + "\\" + ['\''] == "'\\'";
    assert ["db"] + ["'\\'"] + [] == ["db", "'\\'"];
  }

  /** The self-test: an unterminated quote, and a quote whose closing quote is escaped, raise the error. */
  lemma SelfTestMismatched()
    ensures ESplit("db 'jan") == Failure(MismatchedQuote('\''))
    ensures ESplit("db '\\'") == Failure(MismatchedQuote('\''))
  {
    DbWords();
    UnclosedQuoteIsAnError("db ", '\'', "jan");
    assert "db " + ['\''] + "jan" == "db 'jan";
    UnclosedQuoteIsAnError("db ", '\'', "\\'");
    assert "db " + ['\''] + "\\'" == "db '\\'";
  }

  // --- agreement with the assembler's own split ----------------------------------

  /** The state stack of a line without backslashes and the mode of the assembler's scan. */
  function ModeOf(states: seq<char>): Mode {
    if states == [] then Outside else Inside(states[0])
  }

  /**
   * On a line without backslashes, wherever this scan succeeds it yields
   * the assembler's tokens: the two tokenizers differ only in escapes and
   * in the mismatched-quote error.
   */
  lemma {:induction false} ScanAgrees(line: string, ix: nat, states: seq<char>, start: nat)
    requires start <= ix <= |line| + 1 && start <= |line| && (states != [] ==> start < ix)
    requires '\\' !in line && |states| <= 1 && (states != [] ==> IsQuote(states[0]))
    requires Scan(line, ix, states, start).Success?
    ensures Scan(line, ix, states, start).value == AsmText.Scan(line, ix, ModeOf(states), start)
    decreases |line|, |line| + 1 - ix
  {
    if ix < |line| {
      var ch := line[ix];
      assert ch in line;
      if states == [] {
        if IsQuote(ch) {
          ScanAgrees(line, ix + 1, [ch], ix);
        } else if ch == ';' {
          assert forall c :: c in line[..ix] ==> c in line;
          ESplitAgrees(line[..ix]);
        } else {
          ScanAgrees(line, ix + 1, [], start);
        }
      } else if Closes(states[0]) && ch == states[0] {
        assert forall c :: c in line[..start] ==> c in line;
        assert forall c :: c in line[ix + 1..] ==> c in line;
        ESplitAgrees(line[..start]);
        ESplitAgrees(line[ix + 1..]);
      } else {
        ScanAgrees(line, ix + 1, states, start);
      }
    }
  }

  lemma {:induction false} ESplitAgrees(line: string)
    requires '\\' !in line && ESplit(line).Success?
    ensures ESplit(line).value == AsmText.Split(line)
    decreases |line|, |line| + 2
  {
    ScanAgrees(line, 0, [], 0);
  }
}
