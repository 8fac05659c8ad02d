/**
 Writing tokens as a configuration file has them: bare words and quoted texts, apart by blanks and
 comments. The lexer reads exactly the words back and nothing of the comments.
 */
module Words {
  import opened Lexer
  import opened Quoting
  import opened LexerMeaning

  /** A text with what stands before it. */
  datatype Word = Word(gap: string, text: string, quoted: bool)

  predicate IsBare(t: string) {
    t != "" && t[0] != '"' && forall i :: 0 <= i < |t| ==> !IsSpace(t[i]) && t[i] != '#'
  }

  /** The text can be spelled the way it is to be written. */
  predicate Spellable(w: Word) {
    if w.quoted then Quotable(w.text) else IsBare(w.text)
  }

  function Spelled(w: Word): string {
    if w.quoted then InQuotes(w.text) else w.text
  }

  function Written(ws: seq<Word>, tail: string): string {
    if ws == [] then tail else ws[0].gap + (Spelled(ws[0]) + Written(ws[1..], tail))
  }

  /** Blanks and whole comments. */
  predicate Between(g: string) {
    Ignorable(g, false) && !InComment(g, |g|, false)
  }

  /** What directly follows a bare word ends it. */
  predicate Apart(g: string) { g != "" ==> EndsWord(g[0]) }

  /** Words apart by blanks and comments; `bare` if a bare word stands before them. */
  predicate Writable(ws: seq<Word>, tail: string, bare: bool) {
    if ws == [] then
      Ignorable(tail, false) && (bare ==> Apart(tail))
    else
      && Between(ws[0].gap) && Spellable(ws[0])
      && (bare ==> ws[0].gap != "" && Apart(ws[0].gap))
      && Writable(ws[1..], tail, !ws[0].quoted)
  }

  function Items(ws: seq<Word>): seq<Item> {
    if ws == [] then [] else [Item(ws[0].gap, ws[0].text)] + Items(ws[1..])
  }

  lemma {:induction false} ApartAfterBare(ws: seq<Word>, tail: string)
    requires Writable(ws, tail, true)
    ensures Apart(Written(ws, tail))
  {}

  // ---------------------------------------------------------------------------
  // One word
  // ---------------------------------------------------------------------------

  lemma {:induction false} PlainReadsBack(
    t: string, more: string, line: nat, atStart: string, val: string)
    requires Apart(more) && forall i :: 0 <= i < |t| ==> !IsSpace(t[i]) && t[i] != '#'
    ensures var x := Plain(t + more, line, atStart, val, false).value;
            && x.token == Token("", line, val + t)
            && (more == "" ==> x.rest == "" && x.line == line)
            && (more != "" ==> x.rest == more[1..] && x.line == line + Newline(more[0]))
    decreases |t|
  {
    hide Plain;
    if t == "" {
      assert t + more == more && val + t == val;
      PlainEnds(more, line, atStart, val, false);
    } else {
      assert (t + more)[1..] == t[1..] + more && val + [t[0]] + t[1..] == val + t;
      PlainOne(t + more, line, atStart, val, false);
      PlainReadsBack(t[1..], more, line, atStart, val + [t[0]]);
    }
  }

  lemma {:induction false} LexAllSkip(s: string, line: nat, t: string, l: nat)
    requires Skip(s, line, false) == Skip(t, l, false)
    ensures LexAll(s, line) == LexAll(t, l)
  {}

  /** The character that ends a word is passed over like any blank. */
  lemma {:induction false} RestAfterBare(more: string, line: nat)
    requires more != "" && EndsWord(more[0])
    ensures LexAll(more[1..], line + Newline(more[0])) == LexAll(more, line)
  {
    SkipOne(more, line, false);
    LexAllSkip(more, line, more[1..], line + Newline(more[0]));
  }

  lemma {:induction false} SkipToBare(t: string, more: string, line: nat)
    requires IsBare(t)
    ensures Skip(t + more, line, false) == Plain(t[1..] + more, line, t + more, [t[0]], false)
  {
    assert (t + more)[0] == t[0] && (t + more)[1..] == t[1..] + more;
  }

  lemma {:induction false} BareReadsBack(t: string, more: string, line: nat)
    requires IsBare(t) && Apart(more)
    ensures var xs := LexAll(t + more, line);
            xs != [] && xs[0].token == Token("", line, t) && xs[1..] == LexAll(more, line)
  {
    hide Skip, Plain, LexAll;
    SkipToBare(t, more, line);
    PlainReadsBack(t[1..], more, line, t + more, [t[0]]);
    assert [t[0]] + t[1..] == t;
    LexAllHead(t + more, line, Plain(t[1..] + more, line, t + more, [t[0]], false).value);
    if more != "" { RestAfterBare(more, line); }
  }

  lemma {:induction false} QuotedWordReadsBack(t: string, more: string, line: nat)
    requires Quotable(t)
    ensures var xs := LexAll(InQuotes(t) + more, line);
            && xs != [] && xs[0].token == Token("", line, t)
            && xs[1..] == LexAll(more, line + Breaks(t))
  {
    hide Skip, LexAll, Quotable, QuotableFrom, Breaks, EscapeQuotes;
    var s := InQuotes(t) + more;
    assert s[0] == '"' && s[1..] == EscapeQuotes(t) + "\"" + more;
    SkipToQuote(s, line);
    QuotableIsQuotableFrom(t);
    QuotedReadsBack(t, more, line, s, line, "", false);
    assert "" + Pending(false) + t == t;
    LexAllHead(s, line, Lexed(Token("", line, t), s, more, more, line + Breaks(t)));
  }

  lemma {:induction false} NoBreaks(t: string)
    requires forall i :: 0 <= i < |t| ==> !IsSpace(t[i])
    ensures Breaks(t) == 0
  {
    if t != "" { NoBreaks(t[1..]); }
  }

  lemma {:induction false} WordReadsBack(w: Word, more: string, line: nat)
    requires Between(w.gap) && Spellable(w) && (!w.quoted ==> Apart(more))
    ensures var xs, l := LexAll(w.gap + (Spelled(w) + more), line), line + Breaks(w.gap);
            && xs != [] && xs[0].token == Token("", l, w.text)
            && xs[1..] == LexAll(more, l + Breaks(w.text))
  {
    hide Skip, LexAll, Ignorable, InComment, Quotable, Breaks, Apart;
    var s, l := Spelled(w) + more, line + Breaks(w.gap);
    SkipIgnorable(w.gap, s, line, false);
    LexAllSkip(w.gap + s, line, s, l);
    if w.quoted {
      QuotedWordReadsBack(w.text, more, l);
    } else {
      BareReadsBack(w.text, more, l);
      NoBreaks(w.text);
    }
  }

  // ---------------------------------------------------------------------------
  // All words
  // ---------------------------------------------------------------------------

  lemma {:induction false} TokensHead(xs: seq<Lexed>, t: Token, ts: seq<Token>)
    requires xs != [] && xs[0].token == t && TokensOf(xs[1..]) == ts
    ensures TokensOf(xs) == [t] + ts
  {}

  /** The words after the first. */
  lemma {:induction false} OtherWords(ws: seq<Word>, tail: string, bare: bool)
    requires ws != [] && Writable(ws, tail, bare)
    ensures Between(ws[0].gap) && Spellable(ws[0]) && Writable(ws[1..], tail, !ws[0].quoted)
    ensures !ws[0].quoted ==> Apart(Written(ws[1..], tail))
    ensures Written(ws, tail) == ws[0].gap + (Spelled(ws[0]) + Written(ws[1..], tail))
  {
    if !ws[0].quoted { ApartAfterBare(ws[1..], tail); }
  }

  lemma {:induction false} LaidWords(ws: seq<Word>, line: nat)
    requires ws != []
    ensures var l := line + Breaks(ws[0].gap);
            Laid(Items(ws), line) == [Token("", l, ws[0].text)] + Laid(Items(ws[1..]), l + Breaks(ws[0].text))
  {
    assert Items(ws)[1..] == Items(ws[1..]);
    LaidHead(Items(ws), line);
  }

  /** Words written apart are read back in order, each on its line, and comments give no token. */
  lemma {:induction false} WordsReadBack(ws: seq<Word>, tail: string, bare: bool, line: nat)
    requires Writable(ws, tail, bare)
    ensures TokensOf(LexAll(Written(ws, tail), line)) == Laid(Items(ws), line)
    decreases |ws|
  {
    hide *;
    if ws == [] {
      NoWords(tail, bare, line);
    } else {
      var w, more, l := ws[0], Written(ws[1..], tail), line + Breaks(ws[0].gap);
      OtherWords(ws, tail, bare);
      WordReadsBack(w, more, line);
      WordsReadBack(ws[1..], tail, !w.quoted, l + Breaks(w.text));
      TokensHead(LexAll(Written(ws, tail), line), Token("", l, w.text), Laid(Items(ws[1..]), l + Breaks(w.text)));
      LaidWords(ws, line);
    }
  }

  lemma {:induction false} NoWords(tail: string, bare: bool, line: nat)
    requires Writable([], tail, bare)
    ensures TokensOf(LexAll(Written([], tail), line)) == Laid(Items([]), line)
  {
    hide Skip, Ignorable;
    AllIgnored(tail, line);
  }

  /** The same for a whole file, with or without a byte order mark. */
  lemma {:induction false} FileOfWordsReadsBack(ws: seq<Word>, tail: string)
    requires Writable(ws, tail, false)
    ensures Tokens([BOM] + Written(ws, tail)) == Laid(Items(ws), 1)
    ensures !([BOM] <= Written(ws, tail)) ==> Tokens(Written(ws, tail)) == Laid(Items(ws), 1)
  {
    hide LexAll, Writable, Laid, Written;
    var s := Written(ws, tail);
    WordsReadBack(ws, tail, false, 1);
    assert ([BOM] + s)[1..] == s;
    assert s != "" && s[0] == BOM ==> [BOM] <= s;
  }

  // ---------------------------------------------------------------------------
  // A comment that starts inside a word
  // ---------------------------------------------------------------------------

  function FirstLine(s: string): string {
    if s == "" || s[0] == '\n' then "" else [s[0]] + FirstLine(s[1..])
  }

  function FromBreak(s: string): string {
    if s == "" || s[0] == '\n' then s else FromBreak(s[1..])
  }

  lemma {:induction false} LineSplits(s: string)
    ensures s == FirstLine(s) + FromBreak(s) && '\n' !in FirstLine(s)
    ensures FromBreak(s) != "" ==> FromBreak(s)[0] == '\n'
  {
    if s != "" && s[0] != '\n' { LineSplits(s[1..]); }
  }

  lemma {:induction false} PlainHides(h: string, more: string, line: nat, atStart: string, val: string)
    requires Apart(more) && forall i :: 0 <= i < |h| ==> !EndsWord(h[i])
    ensures Plain(h + more, line, atStart, val, true) == Plain(more, line, atStart, val, true)
    decreases |h|
  {
    if h == "" {
      assert h + more == more;
    } else {
      assert (h + more)[1..] == h[1..] + more;
      PlainOne(h + more, line, atStart, val, true);
      PlainHides(h[1..], more, line, atStart, val);
    }
  }

  lemma {:induction false} NotReturn(c: char)
    requires !IsSpace(c)
    ensures !EndsWord(c) && c != '\r'
  {}

  /** The part of a word from a `#` on is not read; lexing goes on right behind the word. */
  lemma {:induction false} PlainCuts(t: string, h: string, more: string, line: nat, atStart: string, val: string)
    requires Apart(more) && forall i :: 0 <= i < |t| ==> !IsSpace(t[i]) && t[i] != '#'
    requires h != "" && h[0] == '#' && forall i :: 0 <= i < |h| ==> !EndsWord(h[i])
    ensures Plain(t + (h + more), line, atStart, val, false) == Plain(more, line, atStart, val + t, true)
    decreases |t|
  {
    hide Plain, IsSpace;
    if t == "" {
      assert t + (h + more) == h + more && val + t == val;
      assert (h + more)[1..] == h[1..] + more;
      PlainOne(h + more, line, atStart, val, false);
      PlainHides(h[1..], more, line, atStart, val);
    } else {
      NotReturn(t[0]);
      assert (t + (h + more))[1..] == t[1..] + (h + more) && val + [t[0]] + t[1..] == val + t;
      PlainOne(t + (h + more), line, atStart, val, false);
      PlainCuts(t[1..], h, more, line, atStart, val + [t[0]]);
    }
  }

  lemma {:induction false} HashEndsWord(t: string, h: string, more: string, line: nat)
    requires IsBare(t) && Apart(more)
    requires h != "" && h[0] == '#' && forall i :: 0 <= i < |h| ==> !EndsWord(h[i])
    ensures var xs := LexAll(t + (h + more), line);
            xs != [] && xs[0].token == Token("", line, t) && xs[1..] == LexAll(more, line)
  {
    hide Skip, Plain, LexAll;
    SkipToBare(t, h + more, line);
    PlainCuts(t[1..], h, more, line, t + (h + more), [t[0]]);
    assert [t[0]] + t[1..] == t;
    PlainEnds(more, line, t + (h + more), t, true);
    LexAllHead(t + (h + more), line, Plain(more, line, t + (h + more), t, true).value);
    if more != "" { RestAfterBare(more, line); }
  }

  lemma {:induction false} IgnorablePrefix(s: string, g: string)
    requires g <= s && Ignorable(s, false)
    ensures Ignorable(g, false)
  {
    forall i | 0 <= i < |g| ensures IsSpace(g[i]) || g[i] == '#' || InComment(g, i, false) {
      assert g[i] == s[i] && g[..i] <= g && g[..i] <= s;
      InCommentPrefix(g, g[..i]);
      InCommentPrefix(s, g[..i]);
    }
  }

  /** If the first line is blanks and at most a comment, lexing may as well start behind it. */
  lemma {:induction false} LineIsSkipped(s: string, line: nat)
    requires Ignorable(FirstLine(s), false)
    ensures LexAll(s, line) == LexAll(FromBreak(s), line)
  {
    hide Skip, Ignorable, FirstLine, FromBreak, InComment, LexAll;
    LineSplits(s);
    var g, t := FirstLine(s), FromBreak(s);
    SkipIgnorable(g, t, line, false);
    OneLine(g);
    SkipAtBreak(t, line, InComment(g, |g|, false));
    LexAllSkip(s, line, t, line);
  }

  lemma {:induction false} OneLine(g: string)
    requires '\n' !in g
    ensures Breaks(g) == 0
  {
    if g != "" { OneLine(g[1..]); }
  }

  lemma {:induction false} SkipAtBreak(s: string, line: nat, comment: bool)
    requires s == "" || s[0] == '\n'
    ensures Skip(s, line, comment) == Skip(s, line, false)
  {}

  /** An input without a token has none in or behind its first line. */
  lemma {:induction false} NothingBehind(s: string, line: nat)
    requires NoToken(s)
    ensures LexAll(s, line) == LexAll(FromBreak(s), line)
  {
    hide Skip, Ignorable, FirstLine, FromBreak, InComment, LexAll, IsSpace;
    LineSplits(s);
    if Ignorable(s, false) {
      IgnorablePrefix(s, FirstLine(s));
      LineIsSkipped(s, line);
    } else {
      var g, t :| Leads(s, g, t, false) && (t == "\"" || t == "\"\\");
      if |FirstLine(s)| <= |g| {
        assert FirstLine(s) == s[..|FirstLine(s)|] == g[..|FirstLine(s)|];
        IgnorablePrefix(g, FirstLine(s));
        LineIsSkipped(s, line);
      } else {
        assert FromBreak(s) == s[|FirstLine(s)|..] == t[|FirstLine(s)| - |g|..];
        LastCharIsNoBreak(t, |FirstLine(s)| - |g|);
        assert FromBreak(s) == "";
        NextMeaning(s, line);
        NothingLeft(s, line);
      }
    }
  }

  lemma {:induction false} LastCharIsNoBreak(t: string, k: nat)
    requires (t == "\"" || t == "\"\\") && k <= |t|
    ensures t[k..] != "" ==> t[k..][0] != '\n'
  {}

  lemma {:induction false} NothingLeft(s: string, line: nat)
    requires Skip(s, line, false).None?
    ensures LexAll(s, line) == [] == LexAll("", line)
  {}

  /** A token that starts in the first line is not read from behind it. */
  lemma {:induction false} TokenInLine(s: string, line: nat)
    requires !Ignorable(FirstLine(s), false) && !NoToken(s)
    ensures LexAll(s, line) != LexAll(FromBreak(s), line)
  {
    hide Ignorable, FirstLine, FromBreak, InComment, IsSpace, NoToken, StandsFor;
    LineSplits(s);
    NextMeaning(s, line);
    NextMeaning(FromBreak(s), line);
    hide Skip;
    var x := Skip(s, line, false).value;
    var g := Before(s, x.atStart);
    assert LexAll(s, line)[0] == x;
    if |FirstLine(s)| <= |g| {
      assert FirstLine(s) == s[..|FirstLine(s)|] == g[..|FirstLine(s)|];
      IgnorablePrefix(g, FirstLine(s));
    }
    assert |x.atStart| > |FromBreak(s)|;
    if Skip(FromBreak(s), line, false).Some? {
      var y := Skip(FromBreak(s), line, false).value;
      assert LexAll(FromBreak(s), line)[0] == y;
      assert |y.atStart| <= |FromBreak(s)|;
    }
  }

  /**
   The comment on the lexer says that a `#` hides the rest of the line. Behind a `#` inside a word that is
   so exactly when the rest of the line, behind the word, is blank or a comment anyway, or no token follows.
   */
  lemma {:induction false} HashHidesLineIff(t: string, h: string, more: string, line: nat)
    requires IsBare(t) && Apart(more)
    requires h != "" && h[0] == '#' && forall i :: 0 <= i < |h| ==> !EndsWord(h[i])
    ensures var xs := LexAll(t + (h + more), line);
            && xs != []
            && (xs[1..] == LexAll(FromBreak(more), line)
                <==> Ignorable(FirstLine(more), false) || NoToken(more))
  {
    hide *;
    HashEndsWord(t, h, more, line);
    if Ignorable(FirstLine(more), false) {
      LineIsSkipped(more, line);
    } else if NoToken(more) {
      NothingBehind(more, line);
    } else {
      TokenInLine(more, line);
    }
  }

  /** `a#b c` has the tokens `a` and `c`. */
  lemma {:induction false} HashHidesOneWord()
    ensures TokensOf(LexAll("a#b c", 1)) == [Token("", 1, "a"), Token("", 1, "c")]
  {
    hide LexAll, Breaks;
    assert "a#b c" == "a" + ("#b" + " c");
    HashEndsWord("a", "#b", " c", 1);
    SkipOne(" c", 1, false);
    assert " c"[1..] == "c" + "";
    LexAllSkip(" c", 1, "c", 1);
    BareReadsBack("c", "", 1);
    NothingLeft("", 1);
    var xs := LexAll("a#b c", 1);
    TokensHead(xs[1..], Token("", 1, "c"), []);
    TokensHead(xs, Token("", 1, "a"), [Token("", 1, "c")]);
  }
}
