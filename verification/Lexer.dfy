/**
 The configuration lexer (framework/config/lexer/lexer.go, parse.go).

 The specification splits the scanner's single loop by phase: blanks and comments before a
 token, an unquoted token, a quoted token. Each phase works on the input still to be read.
 */
module Lexer {
  import opened Common

  /** `unicode.IsSpace`. */
  predicate IsSpace(c: char) {
    || '\U{09}' <= c <= '\U{0D}' || c == ' ' || c == '\U{85}' || c == '\U{A0}' || c == '\U{1680}'
    || '\U{2000}' <= c <= '\U{200A}' || c == '\U{2028}' || c == '\U{2029}' || c == '\U{202F}'
    || c == '\U{205F}' || c == '\U{3000}'
  }

  const BOM := '\U{FEFF}'

  datatype Token = Token(file: string, line: nat, text: string)

  function Newline(c: char): nat { if c == '\n' then 1 else 0 }

  /** Number of line breaks in a text. */
  function Breaks(s: string): nat {
    if s == "" then 0 else Newline(s[0]) + Breaks(s[1..])
  }

  lemma {:induction false} BreaksConcat(a: string, b: string)
    ensures Breaks(a + b) == Breaks(a) + Breaks(b)
  {
    if a == "" {
      assert a + b == b;
    } else {
      BreaksConcat(a[1..], b);
      assert (a + b)[1..] == a[1..] + b;
    }
  }

  /**
   What one successful call of `next` yields: the token, the input as it stood at the token's
   first and just after its last character, the input left to read, and the line reached.
   */
  datatype Lexed = Lexed(token: Token, atStart: string, atEnd: string, rest: string, line: nat)

  /** Looking for the start of a token. */
  function Skip(s: string, line: nat, comment: bool): (r: Option<Lexed>)
    ensures r.Some? ==> |r.value.rest| < |s|
    decreases |s|
  {
    if s == "" then None
    else if IsSpace(s[0]) then Skip(s[1..], line + Newline(s[0]), comment && s[0] != '\n')
    else if s[0] == '#' || comment then Skip(s[1..], line, true)
    else if s[0] == '"' then Quoted(s[1..], line, s, line, "", false)
    else Plain(s[1..], line, s, [s[0]], false)
  }

  /** Inside an unquoted token; `\r` is dropped, `#` starts a comment that hides the rest of the word. */
  function Plain(s: string, line: nat, atStart: string, val: string, comment: bool): (r: Option<Lexed>)
    ensures r.Some? && |r.value.rest| <= |s|
    decreases |s|
  {
    if s == "" then Some(Lexed(Token("", line, val), atStart, "", "", line))
    else if s[0] == '\r' then Plain(s[1..], line, atStart, val, comment)
    else if IsSpace(s[0]) then
      Some(Lexed(Token("", line, val), atStart, s, s[1..], line + Newline(s[0])))
    else if s[0] == '#' || comment then Plain(s[1..], line, atStart, val, true)
    else Plain(s[1..], line, atStart, val + [s[0]], false)
  }

  /** The text that one character inside quotes contributes. */
  function QuotedChar(c: char, escaped: bool): string {
    if escaped && c != '"' then ['\\', c] else [c]
  }

  /** Inside a quoted token; a backslash only escapes a quote. */
  function Quoted(s: string, line: nat, atStart: string, tokLine: nat, val: string, escaped: bool): (r: Option<Lexed>)
    ensures r.Some? ==> |r.value.rest| <= |s|
    decreases |s|
  {
    if s == "" then
      if val == "" then None else Some(Lexed(Token("", tokLine, val), atStart, "", "", line))
    else if !escaped && s[0] == '\\' then Quoted(s[1..], line, atStart, tokLine, val, true)
    else if !escaped && s[0] == '"' then
      Some(Lexed(Token("", tokLine, val), atStart, s[1..], s[1..], line))
    else Quoted(s[1..], line + Newline(s[0]), atStart, tokLine, val + QuotedChar(s[0], escaped), false)
  }

  /** All tokens of the rest of an input. */
  function LexAll(s: string, line: nat): seq<Lexed>
    decreases |s|
  {
    match Skip(s, line, false)
    case None => []
    case Some(x) => [x] + LexAll(x.rest, x.line)
  }

  function TokensOf(xs: seq<Lexed>): (ts: seq<Token>)
    ensures |ts| == |xs| && forall i :: 0 <= i < |xs| ==> ts[i] == xs[i].token
  {
    if xs == [] then [] else [xs[0].token] + TokensOf(xs[1..])
  }

  /** The input after the byte order mark, if there is one. */
  function AfterBom(input: string): string {
    if input != "" && input[0] == BOM then input[1..] else input
  }

  function Tokens(input: string): seq<Token> {
    TokensOf(LexAll(AfterBom(input), 1))
  }

  // ---------------------------------------------------------------------------
  // The scanner itself
  // ---------------------------------------------------------------------------

  class Scanner {
    var reader: string  // what is still to be read
    var token: Token
    var line: nat

    /** `load`: a byte order mark is discarded. */
    constructor Load(input: string)
      ensures reader == AfterBom(input) && line == 1
    {
      reader := if input != "" && input[0] == BOM then input[1..] else input;
      token := Token("", 0, "");
      line := 1;
    }

    method Next() returns (ok: bool)
      modifies this
      ensures ok == Skip(old(reader), old(line), false).Some?
      ensures ok ==> var x := Skip(old(reader), old(line), false).value;
                     token == x.token && reader == x.rest && line == x.line
      ensures !ok ==> reader == ""
    {
      var val := "";
      var comment, quoted, escaped := false, false, false;
      ghost var atStart := "";
      ghost var goal := Skip(reader, line, false);
      while reader != ""
        invariant goal == if quoted then Quoted(reader, line, atStart, token.line, val, escaped)
                          else if val == "" then Skip(reader, line, comment)
                          else Plain(reader, line, atStart, val, comment)
        invariant !quoted && val != "" ==> token.line == line
        invariant escaped ==> quoted
        invariant quoted || val != "" ==> token.file == ""
        decreases |reader|
      {
        var ch := reader[0];
        ghost var before := reader;
        reader := reader[1..];
        if quoted {
          if !escaped && ch == '\\' {
            escaped := true;
            continue;
          } else if !escaped && ch == '"' {
            token := token.(text := val);
            return true;
          }
          if ch == '\n' {
            line := line + 1;
          }
          if escaped && ch != '"' {
            assert val + ['\\'] + [ch] == val + ['\\', ch];
            val := val + ['\\'];
          }
          val := val + [ch];
          escaped := false;
          continue;
        }
        if IsSpace(ch) {
          if ch == '\r' {
            continue;
          }
          if ch == '\n' {
            line := line + 1;
            comment := false;
          }
          if |val| > 0 {
            token := token.(text := val);
            return true;
          }
          continue;
        }
        if ch == '#' {
          comment := true;
        }
        if comment {
          continue;
        }
        if |val| == 0 {
          token := Token("", line, "");
          atStart := before;
          assert val + [ch] == [ch];
          if ch == '"' {
            quoted := true;
            continue;
          }
        }
        val := val + [ch];
      }
      if |val| > 0 {
        token := token.(text := val);
        return true;
      }
      return false;
    }
  }

  /** `allTokens`. */
  method AllTokens(input: string) returns (tokens: seq<Token>)
    ensures tokens == Tokens(input)
  {
    var l := new Scanner.Load(input);
    tokens := [];
    var ok := l.Next();
    ghost var s, n := AfterBom(input), 1;
    while ok
      invariant ok == Skip(s, n, false).Some?
      invariant ok ==> var x := Skip(s, n, false).value; l.token == x.token && l.reader == x.rest && l.line == x.line
      invariant Tokens(input) == tokens + TokensOf(LexAll(s, n))
      decreases |s|
    {
      tokens := tokens + [l.token];
      s, n := l.reader, l.line;
      ok := l.Next();
    }
  }

  // ---------------------------------------------------------------------------
  // Lines
  // ---------------------------------------------------------------------------

  /** `s` without its tail `t`. */
  function Before(s: string, t: string): string
    requires |t| <= |s|
  {
    s[..|s| - |t|]
  }

  predicate Suffix(s: string, t: string) {
    |t| <= |s| && s[|s| - |t|..] == t
  }

  lemma {:induction false} SuffixStep(s: string, t: string)
    requires s != "" && Suffix(s[1..], t)
    ensures Suffix(s, t)
    ensures Breaks(Before(s, t)) == Newline(s[0]) + Breaks(Before(s[1..], t))
  {
    assert Before(s, t) == [s[0]] + Before(s[1..], t);
  }

  lemma {:induction false} SuffixTrans(s: string, t: string, u: string)
    requires Suffix(s, t) && Suffix(t, u)
    ensures Suffix(s, u)
    ensures Before(s, u) == Before(s, t) + Before(t, u)
  {}

  lemma {:induction false} OneCharBefore(s: string)
    requires s != ""
    ensures Suffix(s, s[1..]) && Breaks(Before(s, s[1..])) == Newline(s[0])
  {}

  lemma {:induction false} PlainLines(s: string, line: nat, atStart: string, val: string, comment: bool)
    ensures var x := Plain(s, line, atStart, val, comment).value;
            && x.atStart == atStart && x.token.line == line && Suffix(s, x.atEnd) && Suffix(x.atEnd, x.rest)
            && x.line == line + Breaks(Before(x.atEnd, x.rest))
            && Breaks(x.token.text) == Breaks(val)
    decreases |s|
  {
    if s == "" {
    } else if s[0] == '\r' {
      PlainLines(s[1..], line, atStart, val, comment);
    } else if IsSpace(s[0]) {
      OneCharBefore(s);
    } else if s[0] == '#' || comment {
      PlainLines(s[1..], line, atStart, val, true);
    } else {
      PlainLines(s[1..], line, atStart, val + [s[0]], false);
      BreaksConcat(val, [s[0]]);
    }
  }

  lemma {:induction false} QuotedBreaks(val: string, c: char, escaped: bool)
    ensures Breaks(val + QuotedChar(c, escaped)) == Breaks(val) + Newline(c)
  {
    BreaksConcat(val, QuotedChar(c, escaped));
    assert ['\\', c][1..] == [c] && Breaks([c]) == Newline(c);
  }

  lemma {:induction false} QuotedLines(s: string, line: nat, atStart: string, tokLine: nat, val: string, escaped: bool)
    requires line == tokLine + Breaks(val)
    requires Quoted(s, line, atStart, tokLine, val, escaped).Some?
    ensures var x := Quoted(s, line, atStart, tokLine, val, escaped).value;
            && x.atStart == atStart && x.token.line == tokLine && Suffix(s, x.atEnd) && x.atEnd == x.rest
            && x.line == tokLine + Breaks(x.token.text)
    decreases |s|
  {
    hide Breaks, QuotedChar;
    if s == "" {
    } else if !escaped && s[0] == '\\' {
      QuotedLines(s[1..], line, atStart, tokLine, val, true);
    } else if !escaped && s[0] == '"' {
    } else {
      QuotedBreaks(val, s[0], escaped);
      QuotedLines(s[1..], line + Newline(s[0]), atStart, tokLine, val + QuotedChar(s[0], escaped), false);
    }
  }

  /** The parts of the input, and the lines of the token and after it. */
  predicate LinesAdd(s: string, line: nat, x: Lexed) {
    && Suffix(s, x.atStart) && Suffix(x.atStart, x.atEnd) && Suffix(x.atEnd, x.rest)
    && x.token.line == line + Breaks(Before(s, x.atStart))
    && x.line == x.token.line + Breaks(x.token.text) + Breaks(Before(x.atEnd, x.rest))
  }

  lemma {:induction false} StartsQuoted(s: string, line: nat)
    requires s != "" && Quoted(s[1..], line, s, line, "", false).Some?
    ensures LinesAdd(s, line, Quoted(s[1..], line, s, line, "", false).value)
  {
    hide Quoted;
    QuotedLines(s[1..], line, s, line, "", false);
    var x := Quoted(s[1..], line, s, line, "", false).value;
    assert Before(x.atEnd, x.rest) == "" && Before(s, s) == "";
  }

  lemma {:induction false} StartsPlain(s: string, line: nat)
    requires s != "" && !IsSpace(s[0])
    ensures LinesAdd(s, line, Plain(s[1..], line, s, [s[0]], false).value)
  {
    assert s[0] != '\n' && Breaks([s[0]]) == 0;
    hide Plain, IsSpace;
    PlainLines(s[1..], line, s, [s[0]], false);
    assert Before(s, s) == "";
  }

  lemma {:induction false} LinesAddOn(s: string, line: nat, x: Lexed)
    requires s != "" && LinesAdd(s[1..], line + Newline(s[0]), x)
    ensures LinesAdd(s, line, x)
  {
    hide Breaks;
    SuffixStep(s, x.atStart);
  }

  /** Line bookkeeping of one call: unquoted breaks before, quoted breaks inside, unquoted breaks after. */
  lemma {:induction false} SkipLines(s: string, line: nat, comment: bool)
    requires Skip(s, line, comment).Some?
    ensures LinesAdd(s, line, Skip(s, line, comment).value)
    decreases |s|
  {
    hide Plain, Quoted, IsSpace, LinesAdd;
    if IsSpace(s[0]) {
      SkipLines(s[1..], line + Newline(s[0]), comment && s[0] != '\n');
      LinesAddOn(s, line, Skip(s, line, comment).value);
    } else if s[0] == '#' || comment {
      SkipLines(s[1..], line, true);
      NoNewline(s[0]);
      LinesAddOn(s, line, Skip(s, line, comment).value);
    } else if s[0] == '"' {
      StartsQuoted(s, line);
    } else {
      StartsPlain(s, line);
    }
  }

  lemma {:induction false} NoNewline(c: char)
    requires !IsSpace(c)
    ensures Newline(c) == 0
  {}

  /** The raw input between the end of one token and the start of the next. */
  function Gap(a: Lexed, b: Lexed): string
    requires |b.atStart| <= |a.atEnd|
  {
    Before(a.atEnd, b.atStart)
  }

  /**
   The line of the next token is the line of this one, plus its embedded breaks, plus the
   unquoted breaks that separate the two.
   */
  lemma {:induction false} ConsecutiveLines(s: string, line: nat, i: nat)
    requires i + 1 < |LexAll(s, line)|
    ensures var a, b := LexAll(s, line)[i], LexAll(s, line)[i + 1];
            && Suffix(a.atEnd, b.atStart)
            && b.token.line == a.token.line + Breaks(a.token.text) + Breaks(Gap(a, b))
    decreases |s|
  {
    var x := Skip(s, line, false).value;
    if i == 0 {
      var b := LexAll(s, line)[1];
      assert Skip(x.rest, x.line, false) == Some(b);
      SkipLines(s, line, false);
      SkipLines(x.rest, x.line, false);
      SuffixTrans(x.atEnd, x.rest, b.atStart);
      BreaksConcat(Before(x.atEnd, x.rest), Before(x.rest, b.atStart));
    } else {
      ConsecutiveLines(x.rest, x.line, i - 1);
    }
  }
}
