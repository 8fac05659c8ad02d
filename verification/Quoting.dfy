/**
 Writing texts so that the lexer reads them back: double quotes around each text, inner quotes
 escaped, blanks between texts. The round trip holds exactly for the texts in which no odd run
 of backslashes stands before a quote or at the end.
 */
module Quoting {
  import opened Common
  import opened Lexer

  function EscapeQuotes(t: string): string {
    if t == "" then ""
    else (if t[0] == '"' then "\\\"" else [t[0]]) + EscapeQuotes(t[1..])
  }

  function InQuotes(t: string): string {
    "\"" + EscapeQuotes(t) + "\""
  }

  /** Length of the run of backslashes that ends just before index `i`. */
  function RunBefore(t: string, i: nat): nat
    requires i <= |t|
  {
    if i == 0 || t[i - 1] != '\\' then 0 else 1 + RunBefore(t, i - 1)
  }

  /** No odd run of backslashes stands before a quote at `k` or later, or at the end. */
  predicate NoOddRun(t: string, k: nat)
    requires k <= |t|
  {
    forall i :: k <= i <= |t| && (i == |t| || t[i] == '"') ==> RunBefore(t, i) % 2 == 0
  }

  predicate Quotable(t: string) { NoOddRun(t, 0) }

  /** A text to write after some blanks. */
  datatype Item = Item(sep: string, text: string)

  predicate Blank(s: string) { forall i :: 0 <= i < |s| ==> IsSpace(s[i]) }

  predicate BlankSeparated(items: seq<Item>) {
    forall i :: 0 <= i < |items| ==> Blank(items[i].sep)
  }

  predicate AllQuotable(items: seq<Item>) {
    forall i :: 0 <= i < |items| ==> Quotable(items[i].text)
  }

  function Render(items: seq<Item>): string {
    if items == [] then ""
    else items[0].sep + InQuotes(items[0].text) + Render(items[1..])
  }

  function Texts(items: seq<Item>): seq<string> {
    if items == [] then [] else [items[0].text] + Texts(items[1..])
  }

  function TokenTexts(ts: seq<Token>): seq<string> {
    if ts == [] then [] else [ts[0].text] + TokenTexts(ts[1..])
  }

  /** The tokens the items stand for, with their lines. */
  function Laid(items: seq<Item>, line: nat): seq<Token> {
    if items == [] then []
    else
      var l := line + Breaks(items[0].sep);
      [Token("", l, items[0].text)] + Laid(items[1..], l + Breaks(items[0].text))
  }

  // ---------------------------------------------------------------------------
  // One quoted text
  // ---------------------------------------------------------------------------

  /** `Quotable` as the scanner meets it: `odd` says that an odd run of backslashes is pending. */
  predicate QuotableFrom(t: string, odd: bool) {
    if t == "" then !odd
    else if t[0] == '"' then !odd && QuotableFrom(t[1..], false)
    else QuotableFrom(t[1..], t[0] == '\\' && !odd)
  }

  lemma {:induction false} QuotableFromIndex(t: string, k: nat)
    requires k <= |t|
    ensures QuotableFrom(t[k..], RunBefore(t, k) % 2 == 1) <==> NoOddRun(t, k)
    decreases |t| - k
  {
    if k < |t| {
      QuotableFromIndex(t, k + 1);
      assert t[k..][1..] == t[k + 1..] && t[k..][0] == t[k];
      assert RunBefore(t, k + 1) == if t[k] == '\\' then 1 + RunBefore(t, k) else 0;
    }
  }

  lemma {:induction false} QuotableIsQuotableFrom(t: string)
    ensures Quotable(t) <==> QuotableFrom(t, false)
  {
    QuotableFromIndex(t, 0);
    assert t[0..] == t && RunBefore(t, 0) == 0;
  }

  /** The pending backslash, if any, belongs to the text read so far. */
  function Pending(odd: bool): string { if odd then "\\" else "" }

  /** The quoted phase over the escaped form of `t`, a closing quote and more input. */
  function QuotedOn(
    t: string, more: string, line: nat, atStart: string, tokLine: nat, val: string, odd: bool): Option<Lexed>
  {
    Quoted(EscapeQuotes(t) + "\"" + more, line, atStart, tokLine, val, odd)
  }

  lemma {:induction false} QuotedOnChar(
    t: string, more: string, line: nat, atStart: string, tokLine: nat, val: string, odd: bool)
    requires t != "" && t[0] != '"'
    ensures QuotedOn(t, more, line, atStart, tokLine, val, odd) ==
            if t[0] == '\\' && !odd then QuotedOn(t[1..], more, line, atStart, tokLine, val, true)
            else QuotedOn(t[1..], more, line + Newline(t[0]), atStart, tokLine, val + QuotedChar(t[0], odd), false)
  {
    var s := EscapeQuotes(t) + "\"" + more;
    assert s[0] == t[0] && s[1..] == EscapeQuotes(t[1..]) + "\"" + more;
    hide EscapeQuotes;
  }

  lemma {:induction false} QuotedStep(s: string, line: nat, atStart: string, tokLine: nat, val: string, escaped: bool)
    requires s != ""
    ensures !escaped && s[0] == '\\' ==>
              Quoted(s, line, atStart, tokLine, val, escaped) == Quoted(s[1..], line, atStart, tokLine, val, true)
    ensures !escaped && s[0] == '"' ==>
              Quoted(s, line, atStart, tokLine, val, escaped)
              == Some(Lexed(Token("", tokLine, val), atStart, s[1..], s[1..], line))
    ensures escaped ==>
              Quoted(s, line, atStart, tokLine, val, escaped)
              == Quoted(s[1..], line + Newline(s[0]), atStart, tokLine, val + QuotedChar(s[0], true), false)
  {}

  lemma {:induction false} QuotedOnQuote(
    t: string, more: string, line: nat, atStart: string, tokLine: nat, val: string, odd: bool)
    requires t != "" && t[0] == '"'
    ensures !odd ==> QuotedOn(t, more, line, atStart, tokLine, val, odd)
                     == QuotedOn(t[1..], more, line, atStart, tokLine, val + ['"'], false)
    ensures odd ==> var r := QuotedOn(t, more, line, atStart, tokLine, val, odd);
                    r.Some? && r.value.token.text == val + ['\\', '\\']
  {
    var s2 := EscapeQuotes(t[1..]) + "\"" + more;
    var s1 := ['"'] + s2;
    var s := ['\\'] + s1;
    assert s == EscapeQuotes(t) + "\"" + more;
    assert s[1..] == s1 && s1[1..] == s2;
    QuotedStep(s, line, atStart, tokLine, val, odd);
    if odd {
      QuotedStep(s1, line, atStart, tokLine, val + ['\\', '\\'], false);
    } else {
      QuotedStep(s1, line, atStart, tokLine, val, true);
    }
  }

  /** A quotable text is read back, together with exactly the line breaks it holds. */
  lemma {:induction false} QuotedReadsBack(
    t: string, more: string, line: nat, atStart: string, tokLine: nat, val: string, odd: bool)
    requires QuotableFrom(t, odd)
    ensures QuotedOn(t, more, line, atStart, tokLine, val, odd)
            == Some(Lexed(Token("", tokLine, val + Pending(odd) + t), atStart, more, more, line + Breaks(t)))
  {
    if t == "" {
      var s := EscapeQuotes(t) + "\"" + more;
      assert s[0] == '"' && s[1..] == more;
      assert val + Pending(odd) + t == val;
    } else if t[0] == '"' {
      QuotedOnQuote(t, more, line, atStart, tokLine, val, odd);
      QuotedReadsBack(t[1..], more, line, atStart, tokLine, val + ['"'], false);
      assert val + ['"'] + Pending(false) + t[1..] == val + Pending(odd) + t;
    } else {
      QuotedOnChar(t, more, line, atStart, tokLine, val, odd);
      if t[0] == '\\' && !odd {
        QuotedReadsBack(t[1..], more, line, atStart, tokLine, val, true);
        assert val + Pending(true) + t[1..] == val + Pending(odd) + t;
      } else {
        var v := val + QuotedChar(t[0], odd);
        QuotedReadsBack(t[1..], more, line + Newline(t[0]), atStart, tokLine, v, false);
        assert v + Pending(false) + t[1..] == val + Pending(odd) + t;
      }
    }
  }

  /** Text already read stays at the front of the token. */
  lemma {:induction false} QuotedKeepsPrefix(
    s: string, line: nat, atStart: string, tokLine: nat, val: string, escaped: bool)
    ensures var r := Quoted(s, line, atStart, tokLine, val, escaped);
            r.Some? ==> |val| <= |r.value.token.text| && r.value.token.text[..|val|] == val
    decreases |s|
  {
    if s == "" {
    } else if !escaped && s[0] == '\\' {
      QuotedKeepsPrefix(s[1..], line, atStart, tokLine, val, true);
    } else if !escaped && s[0] == '"' {
    } else {
      var v := val + QuotedChar(s[0], escaped);
      QuotedKeepsPrefix(s[1..], line + Newline(s[0]), atStart, tokLine, v, false);
      var r := Quoted(s, line, atStart, tokLine, val, escaped);
      if r.Some? {
        assert r.value.token.text[..|val|] == r.value.token.text[..|v|][..|val|];
      }
    }
  }

  /** An odd run at the end swallows the closing quote. */
  lemma {:induction false} OddEndGarbles(more: string, line: nat, atStart: string, tokLine: nat, val: string)
    ensures var r := QuotedOn("", more, line, atStart, tokLine, val, true);
            r.Some? ==> r.value.token.text != val + "\\"
  {
    var s := ['"'] + more;
    assert EscapeQuotes("") + "\"" + more == s;
    var v := val + ['"'];
    assert s[1..] == more;
    QuotedStep(s, line, atStart, tokLine, val, true);
    QuotedKeepsPrefix(more, line, atStart, tokLine, v, false);
    var r := Quoted(more, line, atStart, tokLine, v, false);
    if r.Some? {
      var text := r.value.token.text;
      assert text[|val|] == text[..|v|][|val|] == '"';
      assert (val + "\\")[|val|] == '\\';
    }
  }

  /** A text that is not quotable is never read back. */
  lemma {:induction false} QuotedGarbles(
    t: string, more: string, line: nat, atStart: string, tokLine: nat, val: string, odd: bool)
    requires !QuotableFrom(t, odd)
    ensures var r := QuotedOn(t, more, line, atStart, tokLine, val, odd);
            r.Some? ==> r.value.token.text != val + Pending(odd) + t
  {
    hide QuotedOn;
    var goal := val + Pending(odd) + t;
    if t == "" {
      OddEndGarbles(more, line, atStart, tokLine, val);
      assert goal == val + "\\";
    } else if t[0] == '"' {
      QuotedOnQuote(t, more, line, atStart, tokLine, val, odd);
      if odd {
        assert goal[|val| + 1] == '"';
        assert (val + ['\\', '\\'])[|val| + 1] == '\\';
      } else {
        QuotedGarbles(t[1..], more, line, atStart, tokLine, val + ['"'], false);
        assert val + ['"'] + Pending(false) + t[1..] == goal;
      }
    } else {
      QuotedOnChar(t, more, line, atStart, tokLine, val, odd);
      if t[0] == '\\' && !odd {
        QuotedGarbles(t[1..], more, line, atStart, tokLine, val, true);
        assert val + Pending(true) + t[1..] == goal;
      } else {
        var v := val + QuotedChar(t[0], odd);
        QuotedGarbles(t[1..], more, line + Newline(t[0]), atStart, tokLine, v, false);
        assert v + Pending(false) + t[1..] == goal;
      }
    }
  }

  // ---------------------------------------------------------------------------
  // A whole rendering
  // ---------------------------------------------------------------------------

  lemma {:induction false} SkipBlanks(sep: string, more: string, line: nat)
    requires Blank(sep)
    ensures Skip(sep + more, line, false) == Skip(more, line + Breaks(sep), false)
  {
    if sep == "" {
      assert sep + more == more;
    } else {
      var s := sep + more;
      assert s[0] == sep[0] && s[1..] == sep[1..] + more;
      SkipBlanks(sep[1..], more, line + Newline(sep[0]));
    }
  }

  lemma {:induction false} SkipToQuote(s: string, line: nat)
    requires s != "" && s[0] == '"'
    ensures Skip(s, line, false) == Quoted(s[1..], line, s, line, "", false)
  {}

  /** The quoted phase that reads the first text of a rendering. */
  function FirstQuoted(items: seq<Item>, line: nat): Option<Lexed>
    requires items != []
  {
    var t, more, l := items[0].text, Render(items[1..]), line + Breaks(items[0].sep);
    QuotedOn(t, more, l, InQuotes(t) + more, l, "", false)
  }

  lemma {:induction false} FirstToken(items: seq<Item>, line: nat)
    requires items != [] && BlankSeparated(items)
    ensures Skip(Render(items), line, false) == FirstQuoted(items, line)
  {
    hide Skip, Quoted, Breaks, EscapeQuotes;
    var t, more := items[0].text, Render(items[1..]);
    var s := InQuotes(t) + more;
    assert Render(items) == items[0].sep + s;
    SkipBlanks(items[0].sep, s, line);
    assert s[0] == '"' && s[1..] == EscapeQuotes(t) + "\"" + more;
    SkipToQuote(s, line + Breaks(items[0].sep));
  }

  lemma {:induction false} LexAllHead(s: string, line: nat, x: Lexed)
    requires Skip(s, line, false) == Some(x)
    ensures LexAll(s, line) == [x] + LexAll(x.rest, x.line)
  {}

  /** A quotable first text becomes the first token, and what is left to lex is the other items. */
  lemma {:induction false} FirstTokenReadsBack(items: seq<Item>, line: nat)
    requires items != [] && BlankSeparated(items) && Quotable(items[0].text)
    ensures var l := line + Breaks(items[0].sep);
            var s := LexAll(Render(items), line);
            && s != [] && s[0].token == Token("", l, items[0].text)
            && s[1..] == LexAll(Render(items[1..]), l + Breaks(items[0].text))
  {
    var t, more, l := items[0].text, Render(items[1..]), line + Breaks(items[0].sep);
    hide Skip, Quoted, QuotedOn, Render, InQuotes, Breaks, Quotable, QuotableFrom, LexAll;
    FirstToken(items, line);
    QuotableIsQuotableFrom(t);
    QuotedReadsBack(t, more, l, InQuotes(t) + more, l, "", false);
    assert "" + Pending(false) + t == t;
    LexAllHead(Render(items), line,
               Lexed(Token("", l, t), InQuotes(t) + more, more, more, l + Breaks(t)));
  }

  lemma {:induction false} LaidHead(items: seq<Item>, line: nat)
    requires items != []
    ensures var l := line + Breaks(items[0].sep);
            Laid(items, line) == [Token("", l, items[0].text)] + Laid(items[1..], l + Breaks(items[0].text))
  {}

  /** Lexing a rendering of quotable texts gives the texts back, on the lines the blanks put them. */
  lemma {:induction false} RenderingLexes(items: seq<Item>, line: nat)
    requires BlankSeparated(items) && AllQuotable(items)
    ensures TokensOf(LexAll(Render(items), line)) == Laid(items, line)
    decreases |items|
  {
    hide *;
    if items == [] {
      NothingToLex(line);
    } else {
      OtherItems(items);
      FirstTokenReadsBack(items, line);
      LaidHead(items, line);
      RenderingLexes(items[1..], line + Breaks(items[0].sep) + Breaks(items[0].text));
    }
  }

  lemma {:induction false} NothingToLex(line: nat)
    ensures TokensOf(LexAll(Render([]), line)) == Laid([], line)
  {}

  lemma {:induction false} OtherItems(items: seq<Item>)
    requires items != [] && BlankSeparated(items)
    ensures BlankSeparated(items[1..])
    ensures AllQuotable(items) ==> Quotable(items[0].text) && AllQuotable(items[1..])
  {}

  lemma {:induction false} LaidTexts(items: seq<Item>, line: nat)
    ensures TokenTexts(Laid(items, line)) == Texts(items)
    decreases |items|
  {
    if items != [] {
      LaidTexts(items[1..], line + Breaks(items[0].sep) + Breaks(items[0].text));
    }
  }

  /** Two lists of texts that differ in the head or in the tail differ. */
  lemma {:induction false} TextsDiffer(xs: seq<Lexed>, items: seq<Item>)
    requires xs != [] && items != []
    requires xs[0].token.text != items[0].text || TokenTexts(TokensOf(xs[1..])) != Texts(items[1..])
    ensures TokenTexts(TokensOf(xs)) != Texts(items)
  {
    var ts := TokensOf(xs);
    assert ts[1..] == TokensOf(xs[1..]);
    assert TokenTexts(ts)[0] == xs[0].token.text && Texts(items)[0] == items[0].text;
    assert TokenTexts(ts)[1..] == TokenTexts(ts[1..]) && Texts(items)[1..] == Texts(items[1..]);
  }

  lemma {:induction false} FirstQuotedGarbled(items: seq<Item>, line: nat)
    requires items != [] && !Quotable(items[0].text)
    ensures FirstQuoted(items, line).Some? ==> FirstQuoted(items, line).value.token.text != items[0].text
  {
    hide QuotedOn, Render, InQuotes, Breaks, Quotable, QuotableFrom;
    var t, more, l := items[0].text, Render(items[1..]), line + Breaks(items[0].sep);
    QuotableIsQuotableFrom(t);
    QuotedGarbles(t, more, l, InQuotes(t) + more, l, "", false);
    assert "" + Pending(false) + t == t;
  }

  lemma {:induction false} FirstTokenGarbled(items: seq<Item>, line: nat)
    requires items != [] && BlankSeparated(items) && !Quotable(items[0].text)
    ensures var s := LexAll(Render(items), line);
            s != [] ==> s[0].token.text != items[0].text
  {
    hide *;
    FirstToken(items, line);
    FirstQuotedGarbled(items, line);
    LexAllFirst(Render(items), line);
  }

  lemma {:induction false} LexAllFirst(s: string, line: nat)
    ensures LexAll(s, line) != [] ==> Skip(s, line, false) == Some(LexAll(s, line)[0])
  {}

  lemma {:induction false} NoTexts(items: seq<Item>)
    requires items != []
    ensures TokenTexts(TokensOf([])) != Texts(items)
  {}

  /** If some text is not quotable, lexing does not give the texts back. */
  lemma {:induction false} UnquotableTextsAreLost(items: seq<Item>, line: nat, k: nat)
    requires BlankSeparated(items)
    requires k < |items| && !Quotable(items[k].text)
    ensures TokenTexts(TokensOf(LexAll(Render(items), line))) != Texts(items)
    decreases |items|
  {
    hide *;
    OtherItems(items);
    var xs := LexAll(Render(items), line);
    if Quotable(items[0].text) {
      var l := line + Breaks(items[0].sep) + Breaks(items[0].text);
      FirstTokenReadsBack(items, line);
      assert xs[1..] == LexAll(Render(items[1..]), l);
      UnquotableTextsAreLost(items[1..], l, k - 1);
      TextsDiffer(xs, items);
    } else if xs != [] {
      FirstTokenGarbled(items, line);
      TextsDiffer(xs, items);
    } else {
      NoTexts(items);
    }
  }

  lemma {:induction false} RenderHasNoBom(items: seq<Item>)
    requires BlankSeparated(items)
    ensures AfterBom(Render(items)) == Render(items)
  {}

  /** Lexing undoes quoting, exactly on the quotable texts. */
  lemma {:induction false} LexingUndoesQuoting(items: seq<Item>)
    requires BlankSeparated(items)
    ensures TokenTexts(Tokens(Render(items))) == Texts(items)
            <==> AllQuotable(items)
  {
    RenderHasNoBom(items);
    if AllQuotable(items) {
      RenderingLexes(items, 1);
      LaidTexts(items, 1);
    } else {
      var k :| 0 <= k < |items| && !Quotable(items[k].text);
      UnquotableTextsAreLost(items, 1, k);
    }
  }
}
