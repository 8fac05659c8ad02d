/**
 What the lexer makes of any input: which characters it passes over, and what the text of a token is
 in terms of the characters it stands for (framework/config/lexer/lexer.go:86-178).
 */
module LexerMeaning {
  import opened Lexer
  import opened Quoting

  // ---------------------------------------------------------------------------
  // What is passed over
  // ---------------------------------------------------------------------------

  /** A `#` stands at or before the position, on the same line; `comment` if one stands before the text. */
  predicate InComment(g: string, i: nat, comment: bool)
    requires i <= |g|
  {
    || (comment && '\n' !in g[..i])
    || exists j :: 0 <= j < i && g[j] == '#' && '\n' !in g[j..i]
  }

  /** Only blanks and comments. */
  predicate Ignorable(g: string, comment: bool) {
    forall i :: 0 <= i < |g| ==> IsSpace(g[i]) || g[i] == '#' || InComment(g, i, comment)
  }

  lemma {:induction false} InCommentCons(c: char, g: string, i: nat, comment: bool)
    requires i <= |g|
    ensures InComment([c] + g, i + 1, comment) <==> InComment(g, i, c == '#' || (comment && c != '\n'))
    ensures InComment([c] + g, 0, comment) == comment
  {
    var h := [c] + g;
    assert h[..i + 1] == [c] + g[..i];
    if c == '#' { assert h[0..i + 1] == [c] + g[..i] && h[0] == '#'; }
    forall j | 0 <= j < i ensures h[j + 1..i + 1] == g[j..i] {}
    if exists j :: 0 <= j < i && g[j] == '#' && '\n' !in g[j..i] {
      var j :| 0 <= j < i && g[j] == '#' && '\n' !in g[j..i];
      assert h[j + 1] == '#' && h[j + 1..i + 1] == g[j..i];
    }
    if exists j :: 0 <= j < i + 1 && h[j] == '#' && '\n' !in h[j..i + 1] {
      var j :| 0 <= j < i + 1 && h[j] == '#' && '\n' !in h[j..i + 1];
      if j > 0 { assert g[j - 1] == '#' && g[j - 1..i] == h[j..i + 1]; }
    }
  }

  lemma {:induction false} IgnorableCons(c: char, g: string, comment: bool)
    requires IsSpace(c) || c == '#' || comment
    requires Ignorable(g, c == '#' || (comment && c != '\n'))
    ensures Ignorable([c] + g, comment)
  {
    var h := [c] + g;
    forall i | 0 <= i < |h| ensures IsSpace(h[i]) || h[i] == '#' || InComment(h, i, comment) {
      InCommentCons(c, g, if i == 0 then 0 else i - 1, comment);
    }
  }

  /** Passing over blanks and comments only counts lines. */
  lemma {:induction false} SkipIgnorable(g: string, more: string, line: nat, comment: bool)
    requires Ignorable(g, comment)
    ensures Skip(g + more, line, comment) == Skip(more, line + Breaks(g), InComment(g, |g|, comment))
    decreases |g|
  {
    hide Skip, Ignorable, InComment, IsSpace;
    if g == "" {
      NothingBefore(g, comment);
      assert g + more == more;
    } else {
      var c := g[0] == '#' || (comment && g[0] != '\n');
      IgnorableTail(g, comment);
      SkipIgnorable(g[1..], more, line + Newline(g[0]), c);
      assert (g + more)[1..] == g[1..] + more && (g + more)[0] == g[0];
      SkipOne(g + more, line, comment);
      assert g == [g[0]] + g[1..];
      InCommentCons(g[0], g[1..], |g| - 1, comment);
    }
  }

  lemma {:induction false} NothingBefore(g: string, comment: bool)
    requires g == ""
    ensures InComment(g, |g|, comment) == comment
  {
    assert g[..0] == "";
  }

  /** One character that is passed over. */
  lemma {:induction false} SkipOne(s: string, line: nat, comment: bool)
    requires s != "" && (IsSpace(s[0]) || s[0] == '#' || comment)
    ensures Skip(s, line, comment)
            == Skip(s[1..], line + Newline(s[0]), s[0] == '#' || (comment && s[0] != '\n'))
  {}

  lemma {:induction false} IgnorableTail(g: string, comment: bool)
    requires g != "" && Ignorable(g, comment)
    ensures IsSpace(g[0]) || g[0] == '#' || comment
    ensures Ignorable(g[1..], g[0] == '#' || (comment && g[0] != '\n'))
  {
    assert g == [g[0]] + g[1..];
    InCommentCons(g[0], g[1..], 0, comment);
    forall i | 0 <= i < |g[1..]|
      ensures IsSpace(g[1..][i]) || g[1..][i] == '#'
              || InComment(g[1..], i, g[0] == '#' || (comment && g[0] != '\n'))
    {
      InCommentCons(g[0], g[1..], i, comment);
      assert g[1..][i] == g[i + 1];
    }
  }

  /** What stands before the first character that is not passed over. */
  predicate Leads(s: string, g: string, t: string, comment: bool) {
    && s == g + t && Ignorable(g, comment) && !InComment(g, |g|, comment)
    && t != "" && !IsSpace(t[0]) && t[0] != '#'
  }

  lemma {:induction false} LeadsCons(c: char, g: string, t: string, comment: bool)
    requires IsSpace(c) || c == '#' || comment
    requires Leads(g + t, g, t, c == '#' || (comment && c != '\n'))
    ensures Leads([c] + (g + t), [c] + g, t, comment)
  {
    IgnorableCons(c, g, comment);
    InCommentCons(c, g, |g|, comment);
    assert [c] + (g + t) == ([c] + g) + t;
  }

  /** An input is all blanks and comments, or these lead to a first other character. */
  lemma {:induction false} LeadIn(s: string, comment: bool) returns (g: string, t: string)
    ensures s == g + t
    ensures if t == "" then Ignorable(s, comment) else Leads(s, g, t, comment)
    decreases |s|
  {
    if s == "" {
      g, t := "", "";
    } else if IsSpace(s[0]) || s[0] == '#' || comment {
      assert s == [s[0]] + s[1..];
      g, t := LeadIn(s[1..], s[0] == '#' || (comment && s[0] != '\n'));
      if t == "" { IgnorableCons(s[0], s[1..], comment); } else { LeadsCons(s[0], g, t, comment); }
      g := [s[0]] + g;
    } else {
      g, t := "", s;
      assert s == g + t && g[..0] == "";
    }
  }

  // ---------------------------------------------------------------------------
  // Unquoted text
  // ---------------------------------------------------------------------------

  /** The text before its first `#`. */
  function CutAtHash(t: string): string {
    if t == "" || t[0] == '#' then "" else [t[0]] + CutAtHash(t[1..])
  }

  function WithoutReturns(t: string): string {
    if t == "" then "" else (if t[0] == '\r' then "" else [t[0]]) + WithoutReturns(t[1..])
  }

  predicate EndsWord(c: char) { IsSpace(c) && c != '\r' }

  /** `raw` is all of `s` up to the first character that ends a word. */
  predicate WordOf(s: string, raw: string) {
    && raw <= s
    && (forall i :: 0 <= i < |raw| ==> !EndsWord(raw[i]))
    && (|raw| < |s| ==> EndsWord(s[|raw|]))
  }

  lemma {:induction false} PlainOne(s: string, line: nat, atStart: string, val: string, comment: bool)
    requires s != "" && !EndsWord(s[0])
    ensures var c := s[0] == '#' || comment;
            Plain(s, line, atStart, val, comment)
            == Plain(s[1..], line, atStart, if s[0] == '\r' || c then val else val + [s[0]], c)
  {}

  lemma {:induction false} PlainEnds(s: string, line: nat, atStart: string, val: string, comment: bool)
    requires s == "" || EndsWord(s[0])
    ensures var x := Plain(s, line, atStart, val, comment).value;
            && x.token == Token("", line, val) && x.atStart == atStart && x.atEnd == s
            && (s == "" ==> x.rest == "" && x.line == line)
            && (s != "" ==> x.rest == s[1..] && x.line == line + Newline(s[0]))
  {}

  /** What a raw word stands for: the part before the first `#`, without carriage returns. */
  function WordText(raw: string): string { WithoutReturns(CutAtHash(raw)) }

  lemma {:induction false} WordTextCons(c: char, raw: string)
    ensures WordText([c] + raw) == if c == '#' then "" else (if c == '\r' then "" else [c]) + WordText(raw)
  {
    assert ([c] + raw)[1..] == raw;
    assert c != '#' ==> CutAtHash([c] + raw)[1..] == CutAtHash(raw);
  }

  lemma {:induction false} WordOfCons(s: string, raw: string)
    requires s != "" && !EndsWord(s[0]) && WordOf(s[1..], raw)
    ensures WordOf(s, [s[0]] + raw)
  {}

  /** A word one character longer. */
  lemma {:induction false} LongerWord(s: string, t: string)
    requires s != "" && !EndsWord(s[0]) && Suffix(s[1..], t) && WordOf(s[1..], Before(s[1..], t))
    ensures Suffix(s, t) && WordOf(s, Before(s, t))
    ensures var rest := WordText(Before(s[1..], t));
            WordText(Before(s, t)) == if s[0] == '#' then "" else if s[0] == '\r' then rest else [s[0]] + rest
  {
    hide WordText, WordOf, EndsWord;
    var raw := Before(s[1..], t);
    assert Before(s, t) == [s[0]] + raw;
    WordOfCons(s, raw);
    WordTextCons(s[0], raw);
  }

  lemma {:induction false} PlainText(s: string, line: nat, atStart: string, val: string, comment: bool)
    ensures var x := Plain(s, line, atStart, val, comment).value;
            && Suffix(s, x.atEnd) && WordOf(s, Before(s, x.atEnd))
            && x.token.text == val + if comment then "" else WordText(Before(s, x.atEnd))
    decreases |s|
  {
    hide Plain, EndsWord, WordText, WordOf, Before, Suffix;
    if s == "" || EndsWord(s[0]) {
      PlainEnds(s, line, atStart, val, comment);
      EmptyWord(s);
    } else {
      var c := s[0] == '#' || comment;
      var v := if s[0] == '\r' || c then val else val + [s[0]];
      PlainOne(s, line, atStart, val, comment);
      PlainText(s[1..], line, atStart, v, c);
      LongerWord(s, Plain(s, line, atStart, val, comment).value.atEnd);
    }
  }

  lemma {:induction false} EmptyWord(s: string)
    requires s == "" || EndsWord(s[0])
    ensures Suffix(s, s) && Before(s, s) == "" == WordText(Before(s, s)) && WordOf(s, Before(s, s))
  {}

  // ---------------------------------------------------------------------------
  // Quoted text
  // ---------------------------------------------------------------------------

  /** Every quote is escaped, and the last backslash escapes something. */
  predicate Enclosed(t: string) {
    || t == ""
    || (t[0] == '\\' && |t| > 1 && Enclosed(t[2..]))
    || (t[0] != '\\' && t[0] != '"' && Enclosed(t[1..]))
  }

  /** Only an escaped quote loses its backslash. */
  function Unescape(t: string): string
    requires Enclosed(t)
  {
    if t == "" then ""
    else if t[0] != '\\' then [t[0]] + Unescape(t[1..])
    else (if t[1] == '"' then "\"" else t[..2]) + Unescape(t[2..])
  }

  /** An escaped or an ordinary character in front. */
  predicate Unit(u: string) {
    || (|u| == 2 && u[0] == '\\')
    || (|u| == 1 && u[0] != '\\' && u[0] != '"')
  }

  function UnitText(u: string): string
    requires Unit(u)
  {
    if u == "\\\"" then "\"" else u
  }

  lemma {:induction false} EnclosedCons(u: string, t: string)
    requires Unit(u) && Enclosed(t)
    ensures Enclosed(u + t) && Unescape(u + t) == UnitText(u) + Unescape(t)
  {
    assert (u + t)[|u|..] == t && (u + t)[..|u|] == u;
    assert u == if |u| == 2 then [u[0], u[1]] else [u[0]];
  }

  lemma {:induction false} QuotedUnit(
    u: string, s: string, line: nat, atStart: string, tokLine: nat, val: string)
    requires Unit(u)
    ensures Quoted(u + s, line, atStart, tokLine, val, false)
            == Quoted(s, line + Newline(u[|u| - 1]), atStart, tokLine, val + UnitText(u), false)
  {
    if |u| == 1 {
      assert (u + s)[1..] == s && u == [u[0]];
    } else {
      assert u == [u[0], u[1]];
      var s1 := [u[1]] + s;
      assert (u + s)[1..] == s1 && s1[1..] == s;
      QuotedStep(u + s, line, atStart, tokLine, val, false);
      QuotedStep(s1, line, atStart, tokLine, val, true);
    }
  }

  /** How a quoted text ends: at a bare quote, or with the input. */
  predicate Closes(s: string, inner: string, atEnd: string) {
    || s == inner + "\"" + atEnd
    || (atEnd == "" && (s == inner || s == inner + "\\"))
  }

  /** The text of a quoted token is its enclosed text without the escaping of quotes. */
  lemma {:induction false} QuotedText(s: string, line: nat, atStart: string, tokLine: nat, val: string)
    returns (inner: string)
    ensures Enclosed(inner)
    ensures var r := Quoted(s, line, atStart, tokLine, val, false);
            && (r.None? <==> val == "" && (s == "" || s == "\\"))
            && (r.Some? ==> r.value.token.text == val + Unescape(inner) && Closes(s, inner, r.value.atEnd))
    decreases |s|
  {
    var r := Quoted(s, line, atStart, tokLine, val, false);
    inner := "";
    if s == "" || s[0] == '"' {
      QuotedEnds(s, line, atStart, tokLine, val);
    } else if s == "\\" {
      QuotedDangles(line, atStart, tokLine, val);
    } else {
      var n := if s[0] == '\\' then 2 else 1;
      var u, t := s[..n], s[n..];
      assert s == u + t;
      hide Quoted, Unescape, Enclosed;
      QuotedUnit(u, t, line, atStart, tokLine, val);
      var i := QuotedText(t, line + Newline(u[|u| - 1]), atStart, tokLine, val + UnitText(u));
      EnclosedCons(u, i);
      inner := u + i;
      if r.Some? { ClosesCons(u, t, i, r.value.atEnd); }
    }
  }

  lemma {:induction false} ClosesCons(u: string, s: string, inner: string, atEnd: string)
    requires Closes(s, inner, atEnd)
    ensures Closes(u + s, u + inner, atEnd)
  {
    assert u + (inner + "\"" + atEnd) == u + inner + "\"" + atEnd;
    assert u + (inner + "\\") == u + inner + "\\";
  }

  lemma {:induction false} QuotedEnds(s: string, line: nat, atStart: string, tokLine: nat, val: string)
    requires s == "" || s[0] == '"'
    ensures var r := Quoted(s, line, atStart, tokLine, val, false);
            && (r.None? <==> s == "" && val == "")
            && (r.Some? ==> r.value.token.text == val && Closes(s, "", r.value.atEnd))
  {
    if s != "" { assert s == "" + "\"" + s[1..]; }
  }

  lemma {:induction false} QuotedDangles(line: nat, atStart: string, tokLine: nat, val: string)
    ensures var r := Quoted("\\", line, atStart, tokLine, val, false);
            && (r.None? <==> val == "")
            && (r.Some? ==> r.value.token.text == val && r.value.atEnd == "")
  {
    QuotedStep("\\", line, atStart, tokLine, val, false);
    assert "\\"[1..] == "";
  }

  // ---------------------------------------------------------------------------
  // A whole input
  // ---------------------------------------------------------------------------

  /** The raw input of a token stands for its text. */
  ghost predicate StandsFor(x: Lexed) {
    && x.atStart != "" && Suffix(x.atStart, x.atEnd)
    && if x.atStart[0] == '"' then
         && x.rest == x.atEnd
         && exists inner :: Enclosed(inner) && x.token.text == Unescape(inner) && Closes(x.atStart[1..], inner, x.atEnd)
       else
         && x.rest == (if x.atEnd == "" then "" else x.atEnd[1..])
         && WordOf(x.atStart, Before(x.atStart, x.atEnd))
         && x.token.text == WordText(Before(x.atStart, x.atEnd))
  }

  /** The first token of an input: blanks and comments lead to it. */
  ghost predicate IsFirst(s: string, x: Lexed) {
    && Suffix(s, x.atStart) && Leads(s, Before(s, x.atStart), x.atStart, false) && StandsFor(x)
  }

  /** No token is left: blanks and comments, then at most a quote that encloses nothing and is not closed. */
  ghost predicate NoToken(s: string) {
    || Ignorable(s, false)
    || exists g, t :: Leads(s, g, t, false) && (t == "\"" || t == "\"\\")
  }

  lemma {:induction false} SkipLead(s: string, g: string, t: string, line: nat)
    requires Leads(s, g, t, false)
    ensures Skip(s, line, false) == if t[0] == '"' then Quoted(t[1..], line + Breaks(g), t, line + Breaks(g), "", false)
                                    else Plain(t[1..], line + Breaks(g), t, [t[0]], false)
  {
    SkipIgnorable(g, t, line, false);
  }

  lemma {:induction false} UnquotedStandsFor(t: string, line: nat)
    requires t != "" && !IsSpace(t[0]) && t[0] != '#' && t[0] != '"'
    ensures var x := Plain(t[1..], line, t, [t[0]], false).value;
            x.atStart == t && StandsFor(x)
  {
    hide WordText, WordOf, Plain, Before, Suffix, Breaks;
    PlainText(t[1..], line, t, [t[0]], false);
    PlainLines(t[1..], line, t, [t[0]], false);
    PlainRest(t[1..], line, t, [t[0]], false);
    LongerWord(t, Plain(t[1..], line, t, [t[0]], false).value.atEnd);
  }

  lemma {:induction false} PlainRest(s: string, line: nat, atStart: string, val: string, comment: bool)
    ensures var x := Plain(s, line, atStart, val, comment).value;
            x.rest == if x.atEnd == "" then "" else x.atEnd[1..]
    decreases |s|
  {
    if s != "" && !EndsWord(s[0]) {
      var c := s[0] == '#' || comment;
      PlainRest(s[1..], line, atStart, if s[0] == '\r' || c then val else val + [s[0]], c);
    }
  }

  lemma {:induction false} QuotedStandsFor(t: string, line: nat)
    requires t != "" && t[0] == '"'
    ensures var r := Quoted(t[1..], line, t, line, "", false);
            && (r.None? <==> t == "\"" || t == "\"\\")
            && (r.Some? ==> r.value.atStart == t && StandsFor(r.value))
  {
    hide Quoted, Unescape, Enclosed, Closes;
    var inner := QuotedText(t[1..], line, t, line, "");
    var r := Quoted(t[1..], line, t, line, "", false);
    assert t == "\"" + t[1..];
    if r.Some? {
      QuotedLines(t[1..], line, t, line, "", false);
      var x := r.value;
      assert Suffix(t, x.atEnd) by { SuffixStep(t, x.atEnd); }
      assert "" + Unescape(inner) == Unescape(inner);
    }
  }

  /** One call of `next`: there is no token, or the token is the first one of the input. */
  lemma {:induction false} NextMeaning(s: string, line: nat)
    ensures Skip(s, line, false).None? <==> NoToken(s)
    ensures Skip(s, line, false).Some? ==> IsFirst(s, Skip(s, line, false).value)
  {
    hide *;
    var g, t := LeadIn(s, false);
    if t == "" {
      AllIgnored(s, line);
    } else {
      LedTo(s, g, t, line);
    }
  }

  lemma {:induction false} AllIgnored(s: string, line: nat)
    requires Ignorable(s, false)
    ensures Skip(s, line, false).None? && NoToken(s)
  {
    hide Ignorable;
    assert s + "" == s;
    SkipIgnorable(s, "", line, false);
  }

  lemma {:induction false} LeadNotLonger(s: string, g: string, t: string, h: string, u: string)
    requires Leads(s, g, t, false) && Leads(s, h, u, false)
    ensures |h| <= |g|
  {
    if |g| < |h| {
      assert h[|g|] == s[|g|] == t[0];
      assert h[..|g|] == s[..|g|] == g;
      InCommentPrefix(h, g);
    }
  }

  lemma {:induction false} LeadIsUnique(s: string, g: string, t: string, h: string, u: string)
    requires Leads(s, g, t, false) && Leads(s, h, u, false)
    ensures t == u
  {
    LeadNotLonger(s, g, t, h, u);
    LeadNotLonger(s, h, u, g, t);
    assert t == s[|g|..] && u == s[|h|..];
  }

  lemma {:induction false} InCommentPrefix(h: string, g: string)
    requires g <= h
    ensures InComment(h, |g|, false) == InComment(g, |g|, false)
  {
    forall j | 0 <= j < |g| ensures h[j] == g[j] && h[j..|g|] == g[j..|g|] {}
  }

  /** Whether an input has a token depends on what the blanks and comments lead to. */
  lemma {:induction false} LedToNone(s: string, g: string, t: string)
    requires Leads(s, g, t, false)
    ensures NoToken(s) <==> t == "\"" || t == "\"\\"
  {
    hide Leads, Ignorable;
    NotAllIgnored(s, g, t);
    if exists h, u :: Leads(s, h, u, false) && (u == "\"" || u == "\"\\") {
      var h, u :| Leads(s, h, u, false) && (u == "\"" || u == "\"\\");
      LeadIsUnique(s, g, t, h, u);
    }
  }

  lemma {:induction false} LedTo(s: string, g: string, t: string, line: nat)
    requires Leads(s, g, t, false)
    ensures Skip(s, line, false).None? <==> NoToken(s)
    ensures Skip(s, line, false).Some? ==> IsFirst(s, Skip(s, line, false).value)
  {
    hide Skip, Quoted, Plain, StandsFor, Ignorable, IsSpace, InComment, NoToken;
    var l := line + Breaks(g);
    SkipLead(s, g, t, line);
    LedToNone(s, g, t);
    LeadSplits(s, g, t);
    if t[0] == '"' { QuotedStandsFor(t, l); } else { UnquotedStandsFor(t, l); }
  }

  lemma {:induction false} LeadSplits(s: string, g: string, t: string)
    requires Leads(s, g, t, false)
    ensures Suffix(s, t) && Before(s, t) == g
  {}

  lemma {:induction false} NotAllIgnored(s: string, g: string, t: string)
    requires Leads(s, g, t, false)
    ensures !Ignorable(s, false)
  {
    assert s[|g|] == t[0];
    InCommentPrefix(s, g);
  }

  /** What is left to read for token `i`. */
  function Left(s: string, xs: seq<Lexed>, i: nat): string
    requires i <= |xs|
  {
    if i == 0 then s else xs[i - 1].rest
  }

  /**
   The tokens of an input are its words and quoted texts in order, each found after blanks and comments
   in what the one before it has left, and nothing is left after the last.
   */
  lemma {:induction false} TokensMeaning(s: string, line: nat)
    ensures var xs := LexAll(s, line);
            && (forall i :: 0 <= i < |xs| ==> IsFirst(Left(s, xs, i), xs[i]))
            && NoToken(Left(s, xs, |xs|))
    decreases |s|
  {
    hide IsFirst, NoToken, Skip;
    NextMeaning(s, line);
    if Skip(s, line, false).Some? {
      var x := Skip(s, line, false).value;
      TokensMeaning(x.rest, x.line);
      var xs, ys := LexAll(s, line), LexAll(x.rest, x.line);
      assert xs == [x] + ys;
      forall i | 0 < i <= |xs| ensures Left(s, xs, i) == Left(x.rest, ys, i - 1) {}
    }
  }
}
