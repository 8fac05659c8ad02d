/**
 Printing a configuration tree one directive per line and reading it back.
 */
module ConfigPrinting {
  import opened Common
  import opened Lexer
  import opened Quoting
  import opened Dispensing
  import opened ConfigTree
  import opened ConfigParser

  // ---------------------------------------------------------------------------
  // The printer
  // ---------------------------------------------------------------------------

  /** A text to print, on a new line or after a space. */
  datatype Piece = OnNewLine(text: string) | OnSameLine(text: string)

  /** The pieces as texts with the blanks before them. */
  function ToItems(ps: seq<Piece>): (r: seq<Item>)
    ensures |r| == |ps|
    ensures forall i :: 0 <= i < |r| ==> r[i] == Item(if ps[i].OnNewLine? then "\n" else " ", ps[i].text)
  {
    if ps == [] then []
    else [Item(if ps[0].OnNewLine? then "\n" else " ", ps[0].text)] + ToItems(ps[1..])
  }

  function PrintArgs(args: seq<string>): (r: seq<Piece>)
    ensures |r| == |args| && forall i :: 0 <= i < |r| ==> r[i] == OnSameLine(args[i])
  {
    if args == [] then [] else [OnSameLine(args[0])] + PrintArgs(args[1..])
  }

  function PrintHeader(n: Node): seq<Piece> { [OnNewLine(n.name)] + PrintArgs(n.args) }

  function PrintBlock(c: Children): seq<Piece>
    decreases c, 0
  {
    match c
    case Absent => []
    case Block(ns) => [OnSameLine("{")] + Print(ns) + [OnNewLine("}")]
  }

  function PrintNode(n: Node): seq<Piece>
    decreases n, 0
  {
    PrintHeader(n) + PrintBlock(n.children)
  }

  function Print(ns: seq<Node>): seq<Piece>
    decreases ns, 0
  {
    if ns == [] then [] else PrintNode(ns[0]) + Print(ns[1..])
  }

  // ---------------------------------------------------------------------------
  // Which trees can be printed
  // ---------------------------------------------------------------------------

  /** Braces, parentheses, dollar signs, quotes and backslashes are not letters or digits. */
  predicate SaneClasses(env: Env) {
    forall c :: c in {'{', '}', '(', '$', '"', '\\'} ==> !env.isLetter(c) && !env.isDigit(c)
  }

  predicate PrintableArgs(args: seq<string>) {
    && "{" !in args
    && !EndsWith(args, "}") && !EndsWith(args, "\\")
    && forall i :: 0 <= i < |args| ==> !Contains(args[i], "$(")
  }

  /** A plain directive with at most `depth` further levels of blocks inside. */
  predicate Printable(env: Env, n: Node, depth: nat)
    decreases n, 0
  {
    && !n.snippet && !n.isMacro && ValidName(env, n.name) && PrintableArgs(n.args)
    && (n.children.Block? ==> depth > 0 && PrintableAll(env, n.children.nodes, depth - 1))
  }

  predicate PrintableAll(env: Env, ns: seq<Node>, depth: nat)
    decreases ns, 0
  {
    ns == [] || (Printable(env, ns[0], depth) && PrintableAll(env, ns[1..], depth))
  }

  lemma {:induction false} PrintableIsMacroFree(env: Env, n: Node, depth: nat)
    requires SaneClasses(env) && Printable(env, n, depth)
    ensures MacroFree(n)
    decreases n, 1
  {
    if n.children.Block? {
      PrintableAllIsMacroFree(env, n.children.nodes, depth - 1);
    }
  }

  lemma {:induction false} PrintableAllIsMacroFree(env: Env, ns: seq<Node>, depth: nat)
    requires SaneClasses(env) && PrintableAll(env, ns, depth)
    ensures MacroFreeAll(ns)
    decreases ns, 0
  {
    if ns != [] {
      PrintableIsMacroFree(env, ns[0], depth);
      PrintableAllIsMacroFree(env, ns[1..], depth);
    }
  }

  // ---------------------------------------------------------------------------
  // Token lists that carry a printed layout
  // ---------------------------------------------------------------------------

  predicate NextLineNumber(ts: seq<Token>, items: seq<Piece>, i: nat)
    requires i + 1 < |ts| == |items|
  {
    ts[i + 1].line == ts[i].line + Breaks(ts[i].text) + NewLines(items[i + 1])
  }

  /** The tokens have the pieces' texts, and a new line exactly where a piece starts one. */
  predicate Carries(ts: seq<Token>, items: seq<Piece>) {
    && |ts| == |items|
    && (forall i :: 0 <= i < |ts| ==> ts[i].text == items[i].text && ts[i].file == "")
    && (forall i :: 0 <= i < |ts| - 1 ==> NextLineNumber(ts, items, i))
  }

  /** Putting one more laid-out piece in front keeps the layout. */
  lemma {:induction false} CarriesCons(ts: seq<Token>, ps: seq<Piece>)
    requires |ts| == |ps| && ts != [] && Carries(ts[1..], ps[1..])
    requires ts[0].text == ps[0].text && ts[0].file == ""
    requires |ts| > 1 ==> NextLineNumber(ts, ps, 0)
    ensures Carries(ts, ps)
  {
    forall i | 0 <= i < |ts| - 1
      ensures NextLineNumber(ts, ps, i)
    {
      if i > 0 {
        assert NextLineNumber(ts[1..], ps[1..], i - 1);
      }
    }
    forall i | 0 <= i < |ts|
      ensures ts[i].text == ps[i].text && ts[i].file == ""
    {
      if i > 0 {
        assert ts[1..][i - 1] == ts[i] && ps[1..][i - 1] == ps[i];
      }
    }
  }

  function NewLines(p: Piece): nat { if p.OnNewLine? then 1 else 0 }

  lemma {:induction false} LaidPieces(ps: seq<Piece>, line: nat)
    requires ps != []
    ensures var l := line + NewLines(ps[0]);
            Laid(ToItems(ps), line)
            == [Token("", l, ps[0].text)] + Laid(ToItems(ps[1..]), l + Breaks(ps[0].text))
  {
    assert ToItems(ps)[1..] == ToItems(ps[1..]);
    LaidHead(ToItems(ps), line);
  }

  lemma {:induction false} LaidCarries(ps: seq<Piece>, line: nat)
    ensures Carries(Laid(ToItems(ps), line), ps) && |Laid(ToItems(ps), line)| == |ps|
    ensures ps != [] ==> Laid(ToItems(ps), line)[0].line == line + NewLines(ps[0])
    decreases |ps|
  {
    if ps != [] {
      hide Carries, Laid, ToItems, Breaks;
      LaidPieces(ps, line);
      LaidCarries(ps[1..], line + NewLines(ps[0]) + Breaks(ps[0].text));
      var ts := Laid(ToItems(ps), line);
      assert ts[1..] == Laid(ToItems(ps[1..]), line + NewLines(ps[0]) + Breaks(ps[0].text));
      CarriesCons(ts, ps);
    }
  }

  /** Where the layout starts a new line, and only there, the dispenser does. */
  lemma {:induction false} CarriedLines(ts: seq<Token>, items: seq<Piece>, cursor: int)
    requires Carries(ts, items) && 0 <= cursor
    ensures ArgOk(ts, cursor) <==> cursor + 1 < |items| && items[cursor + 1].OnSameLine?
    ensures LineOk(ts, cursor) <==> cursor + 1 < |items| && items[cursor + 1].OnNewLine?
  {
    if cursor + 1 < |items| {
      assert NextLineNumber(ts, items, cursor);
    }
  }

  /** `part` is printed right after position `at`. */
  predicate PrintedAt(items: seq<Piece>, at: int, part: seq<Piece>) {
    -1 <= at && at + 1 + |part| <= |items| && items[at + 1..at + 1 + |part|] == part
  }

  lemma {:induction false} PrintedAtSplit(items: seq<Piece>, at: int, a: seq<Piece>, b: seq<Piece>)
    requires PrintedAt(items, at, a + b)
    ensures PrintedAt(items, at, a) && PrintedAt(items, at + |a|, b)
  {
    var w := items[at + 1..at + 1 + |a| + |b|];
    assert w[..|a|] == a && w[|a|..] == b;
    assert items[at + 1..at + 1 + |a|] == w[..|a|];
    assert items[at + |a| + 1..at + |a| + 1 + |b|] == w[|a|..];
  }

  /** Nothing follows position `at` on its line. */
  predicate LineEnds(items: seq<Piece>, at: int) {
    -1 <= at < |items| && (at + 1 < |items| ==> items[at + 1].OnNewLine?)
  }

  // ---------------------------------------------------------------------------
  // Reading back
  // ---------------------------------------------------------------------------

  /** The first of some items printed after the cursor is the next token. */
  lemma {:induction false} NextToken(ts: seq<Token>, items: seq<Piece>, at: int, first: Piece, rest: seq<Piece>)
    requires Carries(ts, items) && PrintedAt(items, at, [first] + rest)
    ensures NextOk(ts, at) && Val(ts, at + 1) == first.text && PrintedAt(items, at + 1, rest)
    ensures at >= 0 ==> ArgOk(ts, at) == (first.OnSameLine?) && LineOk(ts, at) == (first.OnNewLine?)
  {
    PrintedAtSplit(items, at, [first], rest);
    if at >= 0 {
      CarriedLines(ts, items, at);
    }
  }

  lemma {:induction false} FirstArgAt(ts: seq<Token>, items: seq<Piece>, c: nat, args: seq<string>)
    requires Carries(ts, items) && PrintedAt(items, c, PrintArgs(args)) && args != []
    ensures ArgOk(ts, c) && Val(ts, c + 1) == args[0] && PrintedAt(items, c + 1, PrintArgs(args[1..]))
  {
    NextToken(ts, items, c, OnSameLine(args[0]), PrintArgs(args[1..]));
  }

  /** Reading printed arguments moves the cursor over them and collects them. */
  lemma {:induction false} ArgsReadBack(
    env: Env, ts: seq<Token>, items: seq<Piece>, st: State, done: seq<string>, args: seq<string>)
    requires Carries(ts, items) && st.cursor >= 0 && PrintedAt(items, st.cursor, PrintArgs(args)) && "{" !in args
    ensures ReadArgs(env, ts, st, done, Absent, false)
            == ReadArgs(env, ts, st.(cursor := st.cursor + |args|), done + args, Absent, false)
    decreases |args|
  {
    hide *;
    if args == [] {
      assert done + args == done;
    } else {
      FirstArgAt(ts, items, st.cursor, args);
      ArgStep(env, ts, st, done);
      ArgsReadBack(env, ts, items, st.(cursor := st.cursor + 1), done + [args[0]], args[1..]);
      assert done + [args[0]] + args[1..] == done + args;
    }
  }

  lemma {:induction false} PrintableMakes(env: Env, n: Node, depth: nat)
    requires SaneClasses(env) && Printable(env, n, depth)
    ensures MakeNode(env, n.name, n.args, n.children) == Ok(n)
    ensures n.name != "{" && n.name != "}" && "{" !in n.args
  {}

  /** Where the parts of a printed node stand. */
  lemma {:induction false} NodeLayout(ts: seq<Token>, items: seq<Piece>, c: nat, n: Node)
    requires Carries(ts, items) && PrintedAt(items, c - 1, PrintNode(n))
    ensures Val(ts, c) == n.name
    ensures PrintedAt(items, c, PrintArgs(n.args)) && PrintedAt(items, c + |n.args|, PrintBlock(n.children))
    ensures |PrintNode(n)| == 1 + |n.args| + |PrintBlock(n.children)|
  {
    var args, block := PrintArgs(n.args), PrintBlock(n.children);
    assert PrintNode(n) == [OnNewLine(n.name)] + (args + block);
    hide *;
    NextToken(ts, items, c - 1, OnNewLine(n.name), args + block);
    PrintedAtSplit(items, c, args, block);
  }

  /** A printed node is read back, and the cursor ends on its last token. */
  lemma {:induction false} NodeReadsBack(env: Env, ts: seq<Token>, items: seq<Piece>, st: State, n: Node)
    requires SaneClasses(env) && Carries(ts, items) && 0 <= st.nesting <= 256
    requires Printable(env, n, 256 - st.nesting)
    requires st.cursor >= 0 && PrintedAt(items, st.cursor - 1, PrintNode(n))
    requires LineEnds(items, st.cursor - 1 + |PrintNode(n)|)
    ensures ReadNode(env, ts, st) == Ok((n, st.(cursor := st.cursor - 1 + |PrintNode(n)|)))
    decreases n, 1
  {
    hide *;
    NodeLayout(ts, items, st.cursor, n);
    PrintableMakes(env, n, 256 - st.nesting);
    ArgsReadBack(env, ts, items, st, [], n.args);
    assert [] + n.args == n.args;
    var st1 := st.(cursor := st.cursor + |n.args|);
    BlockReadsBack(env, ts, items, st1, n);
    NodeFromHeader(env, ts, st, n, st1.(cursor := st1.cursor + |PrintBlock(n.children)|));
  }

  /** The block of a node, if it has one, with the cursor on the last token of the header. */
  lemma {:induction false} BlockReadsBack(env: Env, ts: seq<Token>, items: seq<Piece>, st: State, n: Node)
    requires SaneClasses(env) && Carries(ts, items) && 0 <= st.nesting <= 256
    requires Printable(env, n, 256 - st.nesting)
    requires st.cursor >= 0 && PrintedAt(items, st.cursor, PrintBlock(n.children))
    requires LineEnds(items, st.cursor + |PrintBlock(n.children)|)
    ensures ReadArgs(env, ts, st, n.args, Absent, false)
            == Ok((n.args, n.children, st.(cursor := st.cursor + |PrintBlock(n.children)|)))
    decreases n, 0
  {
    hide ReadArgs, EndOfLine, ReadNodes, ReadNode, ReadLines, Carries, SaneClasses, ArgOk, Val;
    hide LinesAt, PrintedAt, AfterLines;
    if n.children.Absent? {
      NoBlockReadsBack(env, ts, items, st, n);
    } else {
      var ns, inside := n.children.nodes, st.(cursor := st.cursor + 1, nesting := st.nesting + 1);
      var after := AfterLines(inside, ns, true);
      BlockOpens(env, ts, items, st, n);
      LinesReadBack(env, ts, items, inside, [], false, ns, true);
      assert [] + ns == ns;
      BlockOfLines(env, ts, st.(cursor := st.cursor + 1), ns, after);
      ArgsBlock(env, ts, st, n.args, ns, after);
    }
  }

  /** The brace that opens a printed block, and the lines after it. */
  lemma {:induction false} BlockOpens(env: Env, ts: seq<Token>, items: seq<Piece>, st: State, n: Node)
    requires Carries(ts, items) && 0 <= st.nesting <= 256 && Printable(env, n, 256 - st.nesting) && n.children.Block?
    requires st.cursor >= 0 && PrintedAt(items, st.cursor, PrintBlock(n.children))
    ensures var ns, inside := n.children.nodes, st.(cursor := st.cursor + 1, nesting := st.nesting + 1);
            && st.nesting <= 255 && LinesAt(env, items, inside, ns, true) && !EndsWith(n.args, "\\")
            && ArgOk(ts, st.cursor) && Val(ts, st.cursor + 1) == "{"
            && AfterLines(inside, ns, true) == st.(cursor := st.cursor + |PrintBlock(n.children)|)
  {
    hide Carries, ArgOk, Val;
    var lines := Print(n.children.nodes) + Closing(true);
    assert PrintBlock(n.children) == [OnSameLine("{")] + lines;
    NextToken(ts, items, st.cursor, OnSameLine("{"), lines);
  }

  lemma {:induction false} NoBlockReadsBack(env: Env, ts: seq<Token>, items: seq<Piece>, st: State, n: Node)
    requires Carries(ts, items) && PrintableArgs(n.args) && n.children.Absent?
    requires st.cursor >= 0 && LineEnds(items, st.cursor)
    ensures ReadArgs(env, ts, st, n.args, Absent, false) == Ok((n.args, Absent, st))
  {
    hide ReadArgs, EndOfLine;
    CarriedLines(ts, items, st.cursor);
    ArgsEnd(env, ts, st, n.args);
  }

  /** What follows a printed list of nodes: the closing brace of the block, or nothing. */
  function Closing(inBlock: bool): seq<Piece> { if inBlock then [OnNewLine("}")] else [] }

  /** The state after the last line of a block, or of the input, has been read. */
  function AfterLines(st: State, ns: seq<Node>, inBlock: bool): State {
    st.(cursor := st.cursor + |Print(ns)| + |Closing(inBlock)|,
        nesting := if inBlock then st.nesting - 1 else st.nesting)
  }

  /** Lines printed after the cursor, inside a block or up to the end of the input. */
  predicate LinesAt(env: Env, items: seq<Piece>, st: State, ns: seq<Node>, inBlock: bool) {
    && 0 <= st.nesting <= 256 && (inBlock ==> st.nesting > 0)
    && PrintableAll(env, ns, 256 - st.nesting)
    && PrintedAt(items, st.cursor, Print(ns) + Closing(inBlock))
    && (!inBlock ==> st.cursor + 1 + |Print(ns)| == |items|)
  }

  /** Printed lines are read back, up to the closing brace of the block or the end of the input. */
  lemma {:induction false} LinesReadBack(
    env: Env, ts: seq<Token>, items: seq<Piece>, st: State, res: seq<Node>, needLine: bool,
    ns: seq<Node>, inBlock: bool)
    requires SaneClasses(env) && Carries(ts, items) && LinesAt(env, items, st, ns, inBlock)
    requires needLine ==> st.cursor >= 0
    ensures ReadLines(env, ts, st, res, needLine) == Ok((res + ns, AfterLines(st, ns, inBlock)))
    decreases ns, 2
  {
    hide *;
    if ns == [] {
      NoMoreLines(env, ts, items, st, res, needLine, inBlock);
      assert res + ns == res;
    } else {
      FirstLineReadsBack(env, ts, items, st, res, needLine, ns, inBlock);
      var st' := st.(cursor := st.cursor + |PrintNode(ns[0])|);
      LinesReadBack(env, ts, items, st', res + [ns[0]], true, ns[1..], inBlock);
      assert res + [ns[0]] + ns[1..] == res + ns;
      AfterFirstLine(st, ns, inBlock);
    }
  }

  lemma {:induction false} AfterFirstLine(st: State, ns: seq<Node>, inBlock: bool)
    requires ns != []
    ensures AfterLines(st, ns, inBlock)
            == AfterLines(st.(cursor := st.cursor + |PrintNode(ns[0])|), ns[1..], inBlock)
  {}

  lemma {:induction false} NoMoreLines(
    env: Env, ts: seq<Token>, items: seq<Piece>, st: State, res: seq<Node>, needLine: bool, inBlock: bool)
    requires Carries(ts, items) && LinesAt(env, items, st, [], inBlock)
    requires needLine ==> st.cursor >= 0
    ensures ReadLines(env, ts, st, res, needLine) == Ok((res, AfterLines(st, [], inBlock)))
  {
    hide *;
    OnlyClosing(env, items, st, inBlock);
    if inBlock {
      ClosingAhead(ts, items, st, needLine);
      LinesClose(env, ts, st, res, needLine);
    } else {
      CarriesAll(ts, items);
      LinesEnd(env, ts, st, res, needLine);
    }
  }

  lemma {:induction false} ClosingAhead(ts: seq<Token>, items: seq<Piece>, st: State, needLine: bool)
    requires Carries(ts, items) && PrintedAt(items, st.cursor, [OnNewLine("}")] + []) && (needLine ==> st.cursor >= 0)
    ensures Advances(ts, st, needLine) && Val(ts, st.cursor + 1) == "}"
  {
    hide Carries, PrintedAt, NextOk, LineOk, ArgOk, Val;
    NextToken(ts, items, st.cursor, OnNewLine("}"), []);
  }

  lemma {:induction false} CarriesAll(ts: seq<Token>, items: seq<Piece>)
    requires Carries(ts, items)
    ensures |ts| == |items|
  {}

  /** After the last line of a block or of the input. */
  lemma {:induction false} OnlyClosing(env: Env, items: seq<Piece>, st: State, inBlock: bool)
    requires LinesAt(env, items, st, [], inBlock)
    ensures inBlock ==>
              && st.nesting > 0 && PrintedAt(items, st.cursor, [OnNewLine("}")] + [])
              && AfterLines(st, [], inBlock) == st.(cursor := st.cursor + 1, nesting := st.nesting - 1)
    ensures !inBlock ==> st.cursor == |items| - 1 && AfterLines(st, [], inBlock) == st
  {}

  /** The first printed line contributes its node and leaves the rest to be read. */
  lemma {:induction false} FirstLineReadsBack(
    env: Env, ts: seq<Token>, items: seq<Piece>, st: State, res: seq<Node>, needLine: bool,
    ns: seq<Node>, inBlock: bool)
    requires SaneClasses(env) && Carries(ts, items) && LinesAt(env, items, st, ns, inBlock)
    requires ns != [] && (needLine ==> st.cursor >= 0)
    ensures var st' := st.(cursor := st.cursor + |PrintNode(ns[0])|);
            && LinesAt(env, items, st', ns[1..], inBlock) && st'.cursor >= 0
            && ReadLines(env, ts, st, res, needLine) == ReadLines(env, ts, st', res + [ns[0]], true)
    decreases ns, 1
  {
    hide *;
    var n := ns[0];
    var st' := st.(cursor := st.cursor + |PrintNode(n)|);
    FirstLineAt(env, items, st, ns, inBlock);
    PrintableMakes(env, n, 256 - st.nesting);
    FirstLineStarts(ts, items, st, n, needLine);
    NodeReadsBack(env, ts, items, st.(cursor := st.cursor + 1), n);
    PrintableTaken(env, st', n, 256 - st.nesting);
    LineStep(env, ts, st, res, needLine, n, st');
  }

  lemma {:induction false} FirstLineStarts(ts: seq<Token>, items: seq<Piece>, st: State, n: Node, needLine: bool)
    requires Carries(ts, items) && PrintedAt(items, st.cursor, PrintNode(n)) && (needLine ==> st.cursor >= 0)
    ensures Advances(ts, st, needLine) && Val(ts, st.cursor + 1) == n.name && |PrintNode(n)| > 0
  {
    var p := PrintNode(n);
    assert p == [OnNewLine(n.name)] + p[1..];
    NextToken(ts, items, st.cursor, OnNewLine(n.name), p[1..]);
  }

  lemma {:induction false} PrintableTaken(env: Env, st: State, n: Node, depth: nat)
    requires SaneClasses(env) && Printable(env, n, depth)
    ensures TakeNode(env, st, n) == Ok(Taken([n], st, false))
  {
    PrintableIsMacroFree(env, n, depth);
    MacroFreeUnchanged(env, st.macros, n);
  }

  /** Where the first of several lines stands and ends, and where the others stand. */
  lemma {:induction false} FirstLineAt(env: Env, items: seq<Piece>, st: State, ns: seq<Node>, inBlock: bool)
    requires LinesAt(env, items, st, ns, inBlock) && ns != []
    ensures 0 <= st.nesting <= 256 && -1 <= st.cursor && Printable(env, ns[0], 256 - st.nesting)
    ensures PrintedAt(items, st.cursor, PrintNode(ns[0])) && LineEnds(items, st.cursor + |PrintNode(ns[0])|)
    ensures LinesAt(env, items, st.(cursor := st.cursor + |PrintNode(ns[0])|), ns[1..], inBlock)
  {
    hide Print, PrintNode, Closing;
    var p, rest := PrintNode(ns[0]), Print(ns[1..]) + Closing(inBlock);
    PrintCons(ns, inBlock);
    PrintedAtSplit(items, st.cursor, p, rest);
    RestStartsALine(items, st.cursor + |p|, ns[1..], inBlock);
  }

  lemma {:induction false} PrintCons(ns: seq<Node>, inBlock: bool)
    requires ns != []
    ensures Print(ns) + Closing(inBlock) == PrintNode(ns[0]) + (Print(ns[1..]) + Closing(inBlock))
    ensures |Print(ns)| == |PrintNode(ns[0])| + |Print(ns[1..])|
  {}

  lemma {:induction false} RestStartsALine(items: seq<Piece>, at: int, ns: seq<Node>, inBlock: bool)
    requires -1 <= at < |items| && PrintedAt(items, at, Print(ns) + Closing(inBlock))
    requires !inBlock ==> at + 1 + |Print(ns)| == |items|
    ensures LineEnds(items, at)
  {}

  /**
   Printing any printable tree and reading its tokens gives the tree back, with absent and
   empty blocks kept apart, and declares no macro and no snippet.
   */
  lemma {:induction false} TokensReadBack(env: Env, ns: seq<Node>, line: nat)
    requires SaneClasses(env) && PrintableAll(env, ns, 256)
    ensures var ts := Laid(ToItems(Print(ns)), line);
            ReadNodes(env, ts, INITIAL) == Ok((ns, State(|ts| - 1, 0, map[], map[])))
  {
    hide *;
    var ps := Print(ns);
    var ts := Laid(ToItems(ps), line);
    LaidCarries(ps, line);
    WholeInput(env, ns);
    LinesReadBack(env, ts, ps, INITIAL.(nesting := 0), [], false, ns, false);
    assert [] + ns == ns;
    BlockOfLines(env, ts, INITIAL, ns, State(|ps| - 1, 0, map[], map[]));
  }

  lemma {:induction false} WholeInput(env: Env, ns: seq<Node>)
    requires PrintableAll(env, ns, 256)
    ensures INITIAL == State(-1, -1, map[], map[])
    ensures LinesAt(env, Print(ns), INITIAL.(nesting := 0), ns, false)
    ensures AfterLines(INITIAL.(nesting := 0), ns, false) == State(|Print(ns)| - 1, 0, map[], map[])
  {}
}
