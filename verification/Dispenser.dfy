/** The token dispenser (framework/config/lexer/dispenser.go). */
module Dispensing {
  import opened Lexer

  /** A next token exists. */
  predicate NextOk(ts: seq<Token>, cursor: int) { cursor < |ts| - 1 }

  /** The next token exists and continues the current line. */
  predicate ArgOk(ts: seq<Token>, cursor: int) {
    || cursor < 0
    || (&& cursor < |ts| - 1
        && ts[cursor].file == ts[cursor + 1].file
        && ts[cursor].line + Breaks(ts[cursor].text) == ts[cursor + 1].line)
  }

  /** The next token exists and starts a later line. */
  predicate LineOk(ts: seq<Token>, cursor: int) {
    || cursor < 0
    || (&& cursor < |ts| - 1
        && (|| ts[cursor].file != ts[cursor + 1].file
            || ts[cursor].line + Breaks(ts[cursor].text) < ts[cursor + 1].line))
  }

  function Val(ts: seq<Token>, cursor: int): string {
    if 0 <= cursor < |ts| then ts[cursor].text else ""
  }

  class Dispenser {
    const tokens: seq<Token>
    var cursor: int

    constructor (tokens: seq<Token>)
      ensures this.tokens == tokens && cursor == -1
    {
      this.tokens := tokens;
      cursor := -1;
    }

    method Next() returns (ok: bool)
      modifies this
      ensures ok == NextOk(tokens, old(cursor))
      ensures cursor == if ok then old(cursor) + 1 else old(cursor)
    {
      if cursor < |tokens| - 1 {
        cursor := cursor + 1;
        return true;
      }
      return false;
    }

    method NextArg() returns (ok: bool)
      modifies this
      ensures ok == ArgOk(tokens, old(cursor))
      ensures cursor == if ok then old(cursor) + 1 else old(cursor)
      ensures old(cursor) < 0 ==> ok
      ensures ok && old(cursor) >= -1 ==> (cursor < |tokens| <==> tokens != [])
    {
      if cursor < 0 {
        cursor := cursor + 1;
        return true;
      }
      if cursor >= |tokens| {
        return false;
      }
      if cursor < |tokens| - 1 && tokens[cursor].file == tokens[cursor + 1].file {
        var breaks := NumLineBreaks(cursor);
        if tokens[cursor].line + breaks == tokens[cursor + 1].line {
          cursor := cursor + 1;
          return true;
        }
      }
      return false;
    }

    method NextLine() returns (ok: bool)
      modifies this
      ensures ok == LineOk(tokens, old(cursor))
      ensures cursor == if ok then old(cursor) + 1 else old(cursor)
      ensures old(cursor) < 0 ==> ok
      ensures ok && old(cursor) >= -1 ==> (cursor < |tokens| <==> tokens != [])
    {
      if cursor < 0 {
        cursor := cursor + 1;
        return true;
      }
      if cursor >= |tokens| {
        return false;
      }
      if cursor < |tokens| - 1 {
        var breaks := NumLineBreaks(cursor);
        if tokens[cursor].file != tokens[cursor + 1].file || tokens[cursor].line + breaks < tokens[cursor + 1].line {
          cursor := cursor + 1;
          return true;
        }
      }
      return false;
    }

    method NumLineBreaks(i: int) returns (n: nat)
      ensures n == Breaks(Val(tokens, i))
    {
      if i < 0 || i >= |tokens| {
        return 0;
      }
      var text := tokens[i].text;
      n := 0;
      for k := 0 to |text|
        invariant n + Breaks(text[k..]) == Breaks(text)
      {
        if text[k] == '\n' {
          n := n + 1;
        }
        assert text[k..][1..] == text[k + 1..];
      }
    }
  }

  lemma {:induction false} NoBreaks(s: string)
    ensures Breaks(s) == 0 <==> '\n' !in s
  {
    if s != "" {
      NoBreaks(s[1..]);
      assert s == [s[0]] + s[1..];
    }
  }

  /**
   On every lexed input, wherever the cursor is loaded and a next token exists, exactly one of
   `NextArg` and `NextLine` can advance, and `NextArg` can exactly when no unquoted newline
   separates the two tokens.
   */
  lemma {:induction false} ExactlyOneAdvances(input: string, cursor: nat)
    requires cursor + 1 < |Tokens(input)|
    ensures var ts, xs := Tokens(input), LexAll(AfterBom(input), 1);
            && ArgOk(ts, cursor) != LineOk(ts, cursor)
            && Suffix(xs[cursor].atEnd, xs[cursor + 1].atStart)
            && (ArgOk(ts, cursor) <==> '\n' !in Gap(xs[cursor], xs[cursor + 1]))
  {
    var ts, xs := Tokens(input), LexAll(AfterBom(input), 1);
    ConsecutiveLines(AfterBom(input), 1, cursor);
    NoBreaks(Gap(xs[cursor], xs[cursor + 1]));
    NoFiles(AfterBom(input), 1, cursor);
    NoFiles(AfterBom(input), 1, cursor + 1);
  }

  lemma {:induction false} NoFiles(s: string, line: nat, i: nat)
    requires i < |LexAll(s, line)|
    ensures LexAll(s, line)[i].token.file == ""
    decreases |s|
  {
    var x := Skip(s, line, false).value;
    if i == 0 {
      NoFile(s, line, false);
    } else {
      NoFiles(x.rest, x.line, i - 1);
    }
  }

  lemma NoFile(s: string, line: nat, comment: bool)
    requires Skip(s, line, comment).Some?
    ensures Skip(s, line, comment).value.token.file == ""
    decreases |s|
  {
    if IsSpace(s[0]) {
      NoFile(s[1..], line + Newline(s[0]), comment && s[0] != '\n');
    } else if s[0] == '#' || comment {
      NoFile(s[1..], line, true);
    } else if s[0] == '"' {
      QuotedNoFile(s[1..], line, s, line, "", false);
    } else {
      PlainNoFile(s[1..], line, s, [s[0]], false);
    }
  }

  lemma {:induction false} QuotedNoFile(s: string, line: nat, atStart: string, tokLine: nat, val: string, escaped: bool)
    requires Quoted(s, line, atStart, tokLine, val, escaped).Some?
    ensures Quoted(s, line, atStart, tokLine, val, escaped).value.token.file == ""
    decreases |s|
  {
    if s != "" && (escaped || (s[0] != '\\' && s[0] != '"')) {
      QuotedNoFile(s[1..], line + Newline(s[0]), atStart, tokLine, val + QuotedChar(s[0], escaped), false);
    } else if s != "" && s[0] == '\\' {
      QuotedNoFile(s[1..], line, atStart, tokLine, val, true);
    }
  }

  lemma {:induction false} PlainNoFile(s: string, line: nat, atStart: string, val: string, comment: bool)
    ensures Plain(s, line, atStart, val, comment).value.token.file == ""
    decreases |s|
  {
    if s == "" {
    } else if s[0] == '\r' {
      PlainNoFile(s[1..], line, atStart, val, comment);
    } else if IsSpace(s[0]) {
    } else if s[0] == '#' || comment {
      PlainNoFile(s[1..], line, atStart, val, true);
    } else {
      PlainNoFile(s[1..], line, atStart, val + [s[0]], false);
    }
  }
}
