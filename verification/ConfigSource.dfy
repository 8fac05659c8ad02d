/**
 The configuration language as it is written: directives with blocks, macros and snippets, in every layout
 that the reader allows. Reading a source gives what it means (framework/cfgparser/parse.go:106-349,
 framework/cfgparser/imports.go:114-147).
 */
module ConfigSource {
  import opened Common
  import opened Lexer
  import opened Quoting
  import opened Dispensing
  import opened ConfigTree
  import opened ConfigParser
  import opened ConfigPrinting

  // ---------------------------------------------------------------------------
  // What is written
  // ---------------------------------------------------------------------------

  /** An argument: text, or a reference to a macro. */
  datatype Value = Text(text: string) | MacroUse(name: string)

  /** `wrapped` says that a backslash ends the line before the argument. */
  datatype Arg = Arg(value: Value, wrapped: bool)

  datatype Line =
    | Directive(name: string, args: seq<Arg>, body: Body)
    | MacroLine(name: string, args: seq<Arg>)
    | SnippetLine(name: string, body: Body)

  /**
   `hugs` says that the first directive stands on the line of the opening brace, `tight` that the closing
   brace stands behind the last directive, or right behind the opening brace.
   */
  datatype Body = NoBody | Body(lines: seq<Line>, hugs: bool, tight: bool)

  function ArgText(v: Value): string { if v.Text? then v.text else "$(" + v.name + ")" }

  function LayArg(a: Arg): seq<Piece> {
    if a.wrapped then [OnSameLine("\\"), OnNewLine(ArgText(a.value))] else [OnSameLine(ArgText(a.value))]
  }

  function LayArgs(args: seq<Arg>): seq<Piece> {
    if args == [] then [] else LayArg(args[0]) + LayArgs(args[1..])
  }

  /** The first word of a line. */
  function Head(l: Line): string {
    match l
    case Directive(name, _, _) => name
    case MacroLine(name, _) => "$(" + name + ")"
    case SnippetLine(name, _) => "(" + name + ")"
  }

  function HeadArgs(l: Line): seq<Arg> {
    match l
    case Directive(_, args, _) => args
    case MacroLine(_, args) => [Arg(Text("="), false)] + args
    case SnippetLine(_, _) => []
  }

  function BodyOf(l: Line): Body {
    match l
    case Directive(_, _, body) => body
    case MacroLine(_, _) => NoBody
    case SnippetLine(_, body) => body
  }

  function LayHead(l: Line, hug: bool): Piece { if hug then OnSameLine(Head(l)) else OnNewLine(Head(l)) }

  /** What follows a list of lines: a closing brace, the end of the input, or anything else that starts a line. */
  datatype Closer = OwnLine | SameLine | AtEnd | Cut(more: seq<Piece>, top: bool)

  predicate Top(c: Closer) { c.AtEnd? || (c.Cut? && c.top) }

  predicate Ends(c: Closer) { c.AtEnd? || c.Cut? }

  function LayCloser(c: Closer): seq<Piece> {
    match c
    case OwnLine => [OnNewLine("}")]
    case SameLine => [OnSameLine("}")]
    case AtEnd => []
    case Cut(more, _) => more
  }

  function CloserOf(tight: bool): Closer { if tight then SameLine else OwnLine }

  function LayBody(b: Body): seq<Piece>
    decreases b, 0
  {
    match b
    case NoBody => []
    case Body(lines, hugs, tight) => [OnSameLine("{")] + (LayLines(lines, hugs) + LayCloser(CloserOf(tight)))
  }

  /** A line behind its first word. */
  function LayTail(l: Line): seq<Piece>
    decreases l, 1
  {
    LayArgs(HeadArgs(l)) + (if l.MacroLine? then [] else LayBody(l.body))
  }

  function LayLines(lines: seq<Line>, hug: bool): seq<Piece>
    decreases lines, 0
  {
    if lines == [] then [] else ([LayHead(lines[0], hug)] + LayTail(lines[0])) + LayLines(lines[1..], false)
  }

  // ---------------------------------------------------------------------------
  // What it means
  // ---------------------------------------------------------------------------

  /** A macro stands for the arguments it was given last, and an undefined one for none. */
  function Meant(macros: Macros, args: seq<Arg>): seq<string> {
    if args == [] then []
    else
      var v := args[0].value;
      (if v.Text? then [v.text] else if v.name in macros then macros[v.name] else []) + Meant(macros, args[1..])
  }

  datatype Program = Program(nodes: seq<Node>, macros: Macros, snippets: Snippets)

  function MeantBody(macros: Macros, b: Body): Children
    decreases b, 0
  {
    match b
    case NoBody => Absent
    case Body(lines, _, _) => Block(Meaning(lines, macros, map[]).nodes)
  }

  /** The directives with macros in place of their uses, and the declarations made on the way. */
  function Meaning(lines: seq<Line>, macros: Macros, snippets: Snippets): Program
    decreases lines, 0
  {
    if lines == [] then Program([], macros, snippets)
    else
      match lines[0]
      case Directive(name, args, body) =>
        var n := Node(name, Meant(macros, args), MeantBody(macros, body), false, false);
        var rest := Meaning(lines[1..], macros, snippets);
        rest.(nodes := [n] + rest.nodes)
      case MacroLine(name, args) =>
        Meaning(lines[1..], macros[name := Meant(macros, args)], snippets)
      case SnippetLine(name, body) =>
        var c := MeantBody(macros, body);
        Meaning(lines[1..], macros, snippets[name := if c.Block? then c.nodes else []])
  }

  // ---------------------------------------------------------------------------
  // What can be written
  // ---------------------------------------------------------------------------

  predicate ArgOkay(a: Arg) {
    ArgText(a.value) != "{" && (a.value.Text? ==> !Contains(a.value.text, "$("))
  }

  predicate ArgsOkay(args: seq<Arg>) {
    && (forall i :: 0 <= i < |args| ==> ArgOkay(args[i]))
    && (args != [] ==> ArgText(args[|args| - 1].value) !in {"}", "\\"})
  }

  /** Macros and snippets are declared on the outermost level only. */
  predicate LineOkay(env: Env, l: Line, depth: nat, top: bool)
    decreases l, 1
  {
    && ArgsOkay(HeadArgs(l)) && (!l.MacroLine? ==> BodyOkay(env, l.body, depth))
    && match l
       case Directive(name, _, _) => ValidName(env, name)
       case MacroLine(name, args) => top && name != "" && !MacroRef(name) && args != []
       case SnippetLine(name, _) => top && !HasPrefix(name, "$(")
  }

  /** A closing brace on the same line needs a last directive without a block. */
  predicate BodyOkay(env: Env, b: Body, depth: nat)
    decreases b, 0
  {
    b.Body? ==>
      && depth > 0 && LinesOkay(env, b.lines, depth - 1, false)
      && (b.tight && b.lines != [] ==> BodyOf(b.lines[|b.lines| - 1]).NoBody?)
  }

  predicate LinesOkay(env: Env, lines: seq<Line>, depth: nat, top: bool)
    decreases lines, 0
  {
    lines == [] || (LineOkay(env, lines[0], depth, top) && LinesOkay(env, lines[1..], depth, top))
  }

  /** No value of a macro looks like the use of another one. */
  predicate PlainMacros(macros: Macros) {
    forall m, i :: m in macros && 0 <= i < |macros[m]| ==> !Contains(macros[m][i], "$(")
  }

  // ---------------------------------------------------------------------------
  // Macros in place of their uses
  // ---------------------------------------------------------------------------

  function ArgTexts(args: seq<Arg>): (ts: seq<string>)
    ensures |ts| == |args| && forall i :: 0 <= i < |args| ==> ts[i] == ArgText(args[i].value)
  {
    if args == [] then [] else [ArgText(args[0].value)] + ArgTexts(args[1..])
  }

  predicate PlainTexts(ts: seq<string>) { forall i :: 0 <= i < |ts| ==> !Contains(ts[i], "$(") }

  lemma {:induction false} UseIsRef(name: string)
    ensures MacroRef("$(" + name + ")") && MacroName("$(" + name + ")") == name
  {
    var s := "$(" + name + ")";
    assert s[..2] == "$(" && s[|s| - 1..] == ")" && s[2..|s| - 1] == name;
  }

  lemma {:induction false} PlainIsNoRef(t: string)
    requires !Contains(t, "$(")
    ensures !MacroRef(t)
  {
    if MacroRef(t) { assert OccursAt(t, "$(", 0); }
  }

  lemma {:induction false} ArgExpands(env: Env, macros: Macros, a: Arg)
    requires ArgOkay(a)
    ensures ExpandArg(env, macros, ArgText(a.value)) == Ok(Meant(macros, [a]))
  {
    assert Meant(macros, [a][1..]) == [] && forall ts: seq<string> :: ts + [] == ts;
    match a.value
    case Text(t) => PlainIsNoRef(t);
    case MacroUse(name) => UseIsRef(name);
  }

  lemma {:induction false} ArgsExpand(env: Env, macros: Macros, args: seq<Arg>)
    requires forall i :: 0 <= i < |args| ==> ArgOkay(args[i])
    ensures ExpandArgs(env, macros, ArgTexts(args)) == Ok(Meant(macros, args))
  {
    hide ArgOkay, ExpandArg;
    if args != [] {
      ArgExpands(env, macros, args[0]);
      ArgsExpand(env, macros, args[1..]);
      assert ArgTexts(args)[1..] == ArgTexts(args[1..]);
      MeantHead(macros, args);
    }
  }

  lemma {:induction false} MeantHead(macros: Macros, args: seq<Arg>)
    requires args != []
    ensures Meant(macros, args) == Meant(macros, [args[0]]) + Meant(macros, args[1..])
  {
    assert [args[0]][1..] == [];
  }

  lemma {:induction false} MeantIsPlain(macros: Macros, args: seq<Arg>)
    requires PlainMacros(macros) && forall i :: 0 <= i < |args| ==> ArgOkay(args[i])
    ensures PlainTexts(Meant(macros, args))
  {
    if args != [] { MeantIsPlain(macros, args[1..]); }
  }

  /** What lines mean has no uses of macros left. */
  lemma {:induction false} MeaningIsMacroFree(
    env: Env, lines: seq<Line>, macros: Macros, snippets: Snippets, depth: nat, top: bool)
    requires SaneClasses(env) && LinesOkay(env, lines, depth, top) && PlainMacros(macros)
    ensures MacroFreeAll(Meaning(lines, macros, snippets).nodes)
    decreases lines, 0
  {
    if lines != [] {
      var l := lines[0];
      match l {
        case Directive(name, args, body) =>
          BodyIsMacroFree(env, body, macros, depth);
          MeantIsPlain(macros, args);
          MeaningIsMacroFree(env, lines[1..], macros, snippets, depth, top);
          NodeIsMacroFree(env, name, Meant(macros, args), MeantBody(macros, body));
        case MacroLine(name, args) =>
          PlainStays(macros, name, args);
          MeaningIsMacroFree(env, lines[1..], macros[name := Meant(macros, args)], snippets, depth, top);
        case SnippetLine(name, body) =>
          var c := MeantBody(macros, body);
          MeaningIsMacroFree(
            env, lines[1..], macros, snippets[name := if c.Block? then c.nodes else []], depth, top);
      }
    }
  }

  lemma {:induction false} PlainStays(macros: Macros, name: string, args: seq<Arg>)
    requires PlainMacros(macros) && ArgsOkay([Arg(Text("="), false)] + args)
    ensures PlainMacros(macros[name := Meant(macros, args)])
  {
    var given := [Arg(Text("="), false)] + args;
    forall i | 0 <= i < |args| ensures ArgOkay(args[i]) { assert given[i + 1] == args[i]; }
    MeantIsPlain(macros, args);
  }

  lemma {:induction false} NodeIsMacroFree(env: Env, name: string, args: seq<string>, children: Children)
    requires SaneClasses(env) && ValidName(env, name) && PlainTexts(args)
    requires children.Block? ==> MacroFreeAll(children.nodes)
    ensures MacroFree(Node(name, args, children, false, false))
  {}

  lemma {:induction false} BodyIsMacroFree(env: Env, b: Body, macros: Macros, depth: nat)
    requires SaneClasses(env) && BodyOkay(env, b, depth) && PlainMacros(macros)
    ensures MeantBody(macros, b).Block? ==> MacroFreeAll(MeantBody(macros, b).nodes)
    decreases b, 0
  {
    if b.Body? { MeaningIsMacroFree(env, b.lines, macros, map[], depth - 1, false); }
  }

  // ---------------------------------------------------------------------------
  // Reading the words of a line
  // ---------------------------------------------------------------------------

  lemma {:induction false} WrapStep(env: Env, ts: seq<Token>, st: State, args: seq<string>)
    requires ArgOk(ts, st.cursor) && Val(ts, st.cursor + 1) == "\\"
    requires !ArgOk(ts, st.cursor + 1) && LineOk(ts, st.cursor + 1) && Val(ts, st.cursor + 2) != "{"
    ensures ReadArgs(env, ts, st, args, Absent, false)
            == ReadArgs(env, ts, st.(cursor := st.cursor + 2), args + [Val(ts, st.cursor + 2)], Absent, false)
  {
    var st1 := st.(cursor := st.cursor + 1);
    var more := args + ["\\"];
    assert more[..|more| - 1] == args;
    ArgStep(env, ts, st, args);
    assert ReadArgs(env, ts, st1, more, Absent, false) == ReadArgs(env, ts, st1, args, Absent, true);
  }

  lemma {:induction false} ArgIsRead(
    env: Env, ts: seq<Token>, items: seq<Piece>, st: State, done: seq<string>, a: Arg, more: seq<Piece>)
    requires Carries(ts, items) && st.cursor >= 0 && ArgText(a.value) != "{"
    requires PrintedAt(items, st.cursor, LayArg(a) + more)
    ensures PrintedAt(items, st.cursor + |LayArg(a)|, more)
    ensures ReadArgs(env, ts, st, done, Absent, false)
            == ReadArgs(env, ts, st.(cursor := st.cursor + |LayArg(a)|), done + [ArgText(a.value)], Absent, false)
  {
    hide Carries, PrintedAt, ArgOk, LineOk, ReadArgs, Val, ArgText, NextOk;
    var t := ArgText(a.value);
    if a.wrapped {
      assert LayArg(a) + more == [OnSameLine("\\")] + ([OnNewLine(t)] + more);
      NextToken(ts, items, st.cursor, OnSameLine("\\"), [OnNewLine(t)] + more);
      NextToken(ts, items, st.cursor + 1, OnNewLine(t), more);
      WrapStep(env, ts, st, done);
    } else {
      NextToken(ts, items, st.cursor, OnSameLine(t), more);
      ArgStep(env, ts, st, done);
    }
  }

  /** Arguments are read in order, wherever lines are wrapped. */
  lemma {:induction false} ArgsAreRead(
    env: Env, ts: seq<Token>, items: seq<Piece>, st: State, done: seq<string>, args: seq<Arg>, more: seq<Piece>)
    requires Carries(ts, items) && st.cursor >= 0 && forall i :: 0 <= i < |args| ==> ArgText(args[i].value) != "{"
    requires PrintedAt(items, st.cursor, LayArgs(args) + more)
    ensures PrintedAt(items, st.cursor + |LayArgs(args)|, more)
    ensures ReadArgs(env, ts, st, done, Absent, false)
            == ReadArgs(env, ts, st.(cursor := st.cursor + |LayArgs(args)|), done + ArgTexts(args), Absent, false)
    decreases |args|
  {
    hide Carries, PrintedAt, ReadArgs, ArgText, LayArg;
    if args == [] {
      assert LayArgs(args) + more == more && done + ArgTexts(args) == done;
    } else {
      var rest := LayArgs(args[1..]) + more;
      assert LayArgs(args) + more == LayArg(args[0]) + rest;
      ArgIsRead(env, ts, items, st, done, args[0], rest);
      ArgsAreRead(env, ts, items, st.(cursor := st.cursor + |LayArg(args[0])|), done + [ArgText(args[0].value)],
                  args[1..], more);
      assert done + [ArgText(args[0].value)] + ArgTexts(args[1..]) == done + ArgTexts(args);
    }
  }

  // ---------------------------------------------------------------------------
  // From words to nodes
  // ---------------------------------------------------------------------------

  /** A brace on the line of the directive that it follows. */
  function LayTight(tight: bool): seq<Piece> { if tight then [OnSameLine("}")] else [] }

  function TightText(tight: bool): seq<string> { if tight then ["}"] else [] }

  /** The node that reading a line gives, before macros are put in. */
  function Raw(l: Line, children: Children, tight: bool): Node {
    match l
    case Directive(name, args, _) => Node(name, ArgTexts(args) + TightText(tight), children, false, false)
    case MacroLine(name, args) => Node(name, ArgTexts(args), children, false, true)
    case SnippetLine(name, _) => Node(name, [], children, true, false)
  }

  lemma {:induction false} DirectiveIsMade(env: Env, l: Line, children: Children, tight: bool)
    requires SaneClasses(env) && l.Directive? && ValidName(env, l.name)
    ensures Head(l) != "{" && Head(l) != "}"
    ensures MakeNode(env, Head(l), ArgTexts(HeadArgs(l)) + TightText(tight), children) == Ok(Raw(l, children, tight))
  {
    assert NameChar(env, l.name[0]);
  }

  lemma {:induction false} MacroIsMade(env: Env, l: Line, children: Children)
    requires l.MacroLine? && l.name != "" && l.args != []
    ensures Head(l) != "{" && Head(l) != "}"
    ensures MakeNode(env, Head(l), ArgTexts(HeadArgs(l)) + TightText(false), children) == Ok(Raw(l, children, false))
  {
    UseIsRef(l.name);
    var texts := ArgTexts(HeadArgs(l));
    assert HeadArgs(l)[1..] == l.args;
    assert texts + TightText(false) == texts == ["="] + ArgTexts(l.args);
    assert texts[1..] == ArgTexts(l.args);
    assert Head(l)[0] == '$' && Head(l)[..1] == "$";
  }

  lemma {:induction false} SnippetIsMade(env: Env, l: Line, children: Children)
    requires l.SnippetLine? && !HasPrefix(l.name, "$(")
    ensures Head(l) != "{" && Head(l) != "}"
    ensures MakeNode(env, Head(l), ArgTexts(HeadArgs(l)) + TightText(false), children) == Ok(Raw(l, children, false))
  {
    var h := Head(l);
    assert h[..1] == "(" && h[|h| - 1..] == ")" && h[1..|h| - 1] == l.name;
    assert SnippetName(h);
    assert ArgTexts(HeadArgs(l)) + TightText(false) == [];
  }

  lemma {:induction false} LineIsMade(env: Env, l: Line, children: Children, tight: bool, depth: nat, top: bool)
    requires SaneClasses(env) && LineOkay(env, l, depth, top) && (tight ==> l.Directive?)
    ensures Head(l) != "{" && Head(l) != "}"
    ensures MakeNode(env, Head(l), ArgTexts(HeadArgs(l)) + TightText(tight), children) == Ok(Raw(l, children, tight))
  {
    hide MakeNode, Head, Raw, HeadArgs;
    match l
    case Directive(_, _, _) => DirectiveIsMade(env, l, children, tight);
    case MacroLine(_, _) => MacroIsMade(env, l, children);
    case SnippetLine(_, _) => SnippetIsMade(env, l, children);
  }

  /** The tables after a line, and the brace that it closes. */
  function AfterLine(st: State, l: Line, tight: bool): State {
    var p := Meaning([l], st.macros, st.snippets);
    st.(macros := p.macros, snippets := p.snippets, nesting := if tight then st.nesting - 1 else st.nesting)
  }

  lemma {:induction false} MeaningOne(l: Line, macros: Macros, snippets: Snippets)
    ensures var p := Meaning([l], macros, snippets);
      match l
      case Directive(name, args, body) =>
        p == Program([Node(name, Meant(macros, args), MeantBody(macros, body), false, false)], macros, snippets)
      case MacroLine(name, args) => p == Program([], macros[name := Meant(macros, args)], snippets)
      case SnippetLine(name, body) =>
        var c := MeantBody(macros, body);
        p == Program([], macros, snippets[name := if c.Block? then c.nodes else []])
  {
    assert [l][1..] == [];
  }

  lemma {:induction false} LastText(args: seq<Arg>, tight: bool)
    requires ArgsOkay(args)
    ensures EndsWith(ArgTexts(args) + TightText(tight), "}") == tight
    ensures !EndsWith(ArgTexts(args) + TightText(tight), "\\")
  {}

  lemma {:induction false} DirectiveIsTaken(env: Env, st: State, l: Line, tight: bool, depth: nat, top: bool)
    requires SaneClasses(env) && l.Directive? && LineOkay(env, l, depth, top) && PlainMacros(st.macros)
    requires tight ==> st.nesting > 0
    ensures TakeNode(env, st, Raw(l, MeantBody(st.macros, BodyOf(l)), tight))
            == Ok(Taken(Meaning([l], st.macros, st.snippets).nodes, AfterLine(st, l, tight), tight))
  {
    var children, args := MeantBody(st.macros, l.body), Meant(st.macros, l.args);
    MeaningOne(l, st.macros, st.snippets);
    LastText(l.args, tight);
    ArgsExpand(env, st.macros, l.args);
    BodyIsMacroFree(env, l.body, st.macros, depth);
    MeantIsPlain(st.macros, l.args);
    NodeIsMacroFree(env, l.name, args, children);
    if children.Block? { MacroFreeAllUnchanged(env, st.macros, children.nodes); }
    var raw := Raw(l, children, tight);
    assert tight ==> raw.args[..|raw.args| - 1] == ArgTexts(l.args);
    assert !tight ==> raw.args == ArgTexts(l.args);
    hide Meaning, MeantBody, Meant, ExpandArgs, ExpandMacrosAll, MacroFreeAll, ValidName, SaneClasses;
    assert ExpandMacros(env, st.macros, Node(l.name, ArgTexts(l.args), children, false, false))
        == Ok(Node(l.name, args, children, false, false));
  }

  lemma {:induction false} MacroIsTaken(env: Env, st: State, l: Line, depth: nat)
    requires l.MacroLine? && LineOkay(env, l, depth, true) && st.nesting == 0
    ensures TakeNode(env, st, Raw(l, Absent, false))
            == Ok(Taken(Meaning([l], st.macros, st.snippets).nodes, AfterLine(st, l, false), false))
  {
    MeaningOne(l, st.macros, st.snippets);
    var given := HeadArgs(l);
    forall i | 0 <= i < |l.args| ensures ArgOkay(l.args[i]) { assert given[i + 1] == l.args[i]; }
    assert given[|given| - 1] == l.args[|l.args| - 1];
    LastText(l.args, false);
    assert ArgTexts(l.args) + TightText(false) == ArgTexts(l.args);
    ArgsExpand(env, st.macros, l.args);
    hide Meaning, Meant, ExpandArgs;
  }

  lemma {:induction false} SnippetIsTaken(env: Env, st: State, l: Line)
    requires l.SnippetLine? && st.nesting == 0
    ensures TakeNode(env, st, Raw(l, MeantBody(st.macros, l.body), false))
            == Ok(Taken(Meaning([l], st.macros, st.snippets).nodes, AfterLine(st, l, false), false))
  {
    MeaningOne(l, st.macros, st.snippets);
    hide Meaning, MeantBody;
  }

  lemma {:induction false} LineIsTaken(env: Env, st: State, l: Line, tight: bool, depth: nat, top: bool)
    requires SaneClasses(env) && LineOkay(env, l, depth, top) && PlainMacros(st.macros)
    requires (tight ==> st.nesting > 0 && l.Directive?) && (top ==> st.nesting == 0)
    ensures TakeNode(env, st, Raw(l, MeantBody(st.macros, BodyOf(l)), tight))
            == Ok(Taken(Meaning([l], st.macros, st.snippets).nodes, AfterLine(st, l, tight), tight))
  {
    hide TakeNode, Raw, Meaning, AfterLine;
    match l
    case Directive(_, _, _) => DirectiveIsTaken(env, st, l, tight, depth, top);
    case MacroLine(_, _) => MacroIsTaken(env, st, l, depth);
    case SnippetLine(_, _) => SnippetIsTaken(env, st, l);
  }

  // ---------------------------------------------------------------------------
  // Reading lines
  // ---------------------------------------------------------------------------

  lemma {:induction false} NodeFrom(
    env: Env, ts: seq<Token>, st: State, args: seq<string>, children: Children, n: Node, st': State)
    requires Val(ts, st.cursor) != "{" && ReadArgs(env, ts, st, [], Absent, false) == Ok((args, children, st'))
    requires MakeNode(env, Val(ts, st.cursor), args, children) == Ok(n)
    ensures ReadNode(env, ts, st) == Ok((n, st'))
  {}

  lemma {:induction false} LineFrom(
    env: Env, ts: seq<Token>, st: State, res: seq<Node>, needLine: bool, n: Node, st1: State, taken: Taken)
    requires Advances(ts, st, needLine) && Val(ts, st.cursor + 1) != "}"
    requires ReadNode(env, ts, st.(cursor := st.cursor + 1)) == Ok((n, st1)) && TakeNode(env, st1, n) == Ok(taken)
    ensures ReadLines(env, ts, st, res, needLine)
            == if taken.stop then Ok((res + taken.nodes, taken.st))
               else ReadLines(env, ts, taken.st, res + taken.nodes, true)
  {
    hide ReadNode, TakeNode;
  }

  /** One line after another. */
  lemma {:induction false} MeaningCons(lines: seq<Line>, macros: Macros, snippets: Snippets)
    requires lines != []
    ensures var p := Meaning([lines[0]], macros, snippets);
            var q := Meaning(lines[1..], p.macros, p.snippets);
            Meaning(lines, macros, snippets) == Program(p.nodes + q.nodes, q.macros, q.snippets)
  {
    MeaningOne(lines[0], macros, snippets);
  }

  /** Lines inside a block declare nothing. */
  lemma {:induction false} InsideDeclaresNothing(
    env: Env, lines: seq<Line>, macros: Macros, snippets: Snippets, depth: nat)
    requires LinesOkay(env, lines, depth, false)
    ensures var p := Meaning(lines, macros, snippets);
            && p.macros == macros && p.snippets == snippets && p.nodes == Meaning(lines, macros, map[]).nodes
    decreases |lines|
  {
    if lines != [] { InsideDeclaresNothing(env, lines[1..], macros, snippets, depth); }
  }

  /** The lines stand behind the cursor, in a block or up to the end of the input. */
  predicate SourceAt(env: Env, items: seq<Piece>, st: State, lines: seq<Line>, hug: bool, close: Closer) {
    var part := LayLines(lines, hug) + LayCloser(close);
    && 0 <= st.nesting <= 256 && PlainMacros(st.macros) && (Top(close) <==> st.nesting == 0)
    && LinesOkay(env, lines, 256 - st.nesting, Top(close))
    && (close.SameLine? && lines != [] ==> BodyOf(lines[|lines| - 1]).NoBody?)
    && PrintedAt(items, st.cursor, part) && LineEnds(items, st.cursor + |part|)
    && (Ends(close) ==> st.cursor + |part| == |items| - 1)
    && (close.Cut? && close.more != [] ==> close.more[0].OnNewLine?)
  }

  /** The state behind the lines and their closing brace. */
  function AfterSource(st: State, lines: seq<Line>, hug: bool, close: Closer): State {
    var p := Meaning(lines, st.macros, st.snippets);
    State(st.cursor + |LayLines(lines, hug)| + |LayCloser(close)|,
          if Ends(close) then st.nesting else st.nesting - 1, p.macros, p.snippets)
  }

  /** The block of a line, or the end of the line, behind its arguments. */
  lemma {:induction false} BodyIsRead(
    env: Env, ts: seq<Token>, items: seq<Piece>, st: State, texts: seq<string>, b: Body, tight: bool)
    requires SaneClasses(env) && Carries(ts, items) && st.cursor >= 0 && 0 <= st.nesting <= 256
    requires PlainMacros(st.macros) && BodyOkay(env, b, 256 - st.nesting) && (tight ==> b.NoBody?)
    requires PrintedAt(items, st.cursor, LayBody(b) + LayTight(tight))
    requires LineEnds(items, st.cursor + |LayBody(b)| + |LayTight(tight)|)
    requires !EndsWith(texts + TightText(tight), "\\")
    ensures ReadArgs(env, ts, st, texts, Absent, false)
            == Ok((texts + TightText(tight), MeantBody(st.macros, b),
                   st.(cursor := st.cursor + |LayBody(b)| + |LayTight(tight)|)))
    decreases b, 1
  {
    hide *;
    if b.NoBody? {
      NoBodyIsRead(env, ts, items, st, texts, tight);
      NoBodyMeans(st.macros);
    } else {
      var inside := st.(cursor := st.cursor + 1, nesting := st.nesting + 1);
      var close := CloserOf(b.tight);
      BodyOpens(env, ts, items, st, b, tight);
      LinesAreRead(env, ts, items, inside, [], false, b.lines, b.hugs, close);
      BodyEnds(env, st, inside, b);
      var ns, after := Meaning(b.lines, st.macros, st.snippets).nodes, AfterSource(inside, b.lines, b.hugs, close);
      assert [] + ns == ns;
      NotTight(texts, tight);
      BlockOfLines(env, ts, st.(cursor := st.cursor + 1), ns, after);
      ArgsBlock(env, ts, st, texts, ns, after);
    }
  }

  lemma {:induction false} NoBodyMeans(macros: Macros)
    ensures MeantBody(macros, NoBody) == Absent && LayBody(NoBody) == []
  {}

  lemma {:induction false} NotTight(texts: seq<string>, tight: bool)
    requires !tight
    ensures texts + TightText(tight) == texts && LayTight(tight) == []
  {}

  lemma {:induction false} NoBodyIsRead(
    env: Env, ts: seq<Token>, items: seq<Piece>, st: State, texts: seq<string>, tight: bool)
    requires Carries(ts, items) && st.cursor >= 0
    requires PrintedAt(items, st.cursor, LayBody(NoBody) + LayTight(tight))
    requires LineEnds(items, st.cursor + |LayBody(NoBody)| + |LayTight(tight)|)
    requires !EndsWith(texts + TightText(tight), "\\")
    ensures ReadArgs(env, ts, st, texts, Absent, false)
            == Ok((texts + TightText(tight), Absent,
                   st.(cursor := st.cursor + |LayBody(NoBody)| + |LayTight(tight)|)))
  {
    hide ReadArgs, Carries, ArgOk, LineOk;
    if tight {
      assert LayBody(NoBody) + LayTight(tight) == [OnSameLine("}")] + [];
      NextToken(ts, items, st.cursor, OnSameLine("}"), []);
      ArgStep(env, ts, st, texts);
      CarriedLines(ts, items, st.cursor + 1);
      ArgsEnd(env, ts, st.(cursor := st.cursor + 1), texts + ["}"]);
    } else {
      NotTight(texts, tight);
      CarriedLines(ts, items, st.cursor);
      ArgsEnd(env, ts, st, texts);
    }
  }

  lemma {:induction false} BodyOpens(
    env: Env, ts: seq<Token>, items: seq<Piece>, st: State, b: Body, tight: bool)
    requires Carries(ts, items) && st.cursor >= 0 && 0 <= st.nesting <= 256 && b.Body? && !tight
    requires PlainMacros(st.macros) && BodyOkay(env, b, 256 - st.nesting)
    requires PrintedAt(items, st.cursor, LayBody(b) + LayTight(tight))
    requires LineEnds(items, st.cursor + |LayBody(b)| + |LayTight(tight)|)
    ensures ArgOk(ts, st.cursor) && Val(ts, st.cursor + 1) == "{" && st.nesting <= 255
    ensures SourceAt(env, items, st.(cursor := st.cursor + 1, nesting := st.nesting + 1), b.lines, b.hugs,
                     CloserOf(b.tight))
    ensures !CloserOf(b.tight).Cut?
  {
    hide Carries, ArgOk, LineOk, LinesOkay, Val, PlainMacros;
    var part := LayLines(b.lines, b.hugs) + LayCloser(CloserOf(b.tight));
    assert LayBody(b) + LayTight(tight) == [OnSameLine("{")] + part;
    NextToken(ts, items, st.cursor, OnSameLine("{"), part);
  }

  lemma {:induction false} BodyEnds(env: Env, st: State, inside: State, b: Body)
    requires b.Body? && 0 <= st.nesting <= 256 && BodyOkay(env, b, 256 - st.nesting)
    requires inside == st.(cursor := st.cursor + 1, nesting := st.nesting + 1)
    ensures AfterSource(inside, b.lines, b.hugs, CloserOf(b.tight)) == st.(cursor := st.cursor + |LayBody(b)|)
    ensures MeantBody(st.macros, b) == Block(Meaning(b.lines, st.macros, st.snippets).nodes)
  {
    InsideDeclaresNothing(env, b.lines, st.macros, st.snippets, 256 - st.nesting - 1);
    hide Meaning, LinesOkay, LayLines;
  }

  /** A line is read, with the cursor on its first word. */
  lemma {:induction false} LineIsRead(
    env: Env, ts: seq<Token>, items: seq<Piece>, st: State, l: Line, tight: bool, top: bool)
    requires SaneClasses(env) && Carries(ts, items) && st.cursor >= 0 && 0 <= st.nesting <= 256
    requires PlainMacros(st.macros) && LineOkay(env, l, 256 - st.nesting, top)
    requires tight ==> l.Directive? && BodyOf(l).NoBody?
    requires Val(ts, st.cursor) == Head(l) && PrintedAt(items, st.cursor, LayTail(l) + LayTight(tight))
    requires LineEnds(items, st.cursor + |LayTail(l)| + |LayTight(tight)|)
    ensures ReadNode(env, ts, st)
            == Ok((Raw(l, MeantBody(st.macros, BodyOf(l)), tight),
                   st.(cursor := st.cursor + |LayTail(l)| + |LayTight(tight)|)))
    decreases l, 2
  {
    hide *;
    var args, b, children := HeadArgs(l), BodyOf(l), MeantBody(st.macros, BodyOf(l));
    TailParts(env, l, tight, 256 - st.nesting, top);
    ArgsAreRead(env, ts, items, st, [], args, LayBody(b) + LayTight(tight));
    assert [] + ArgTexts(args) == ArgTexts(args);
    var st1 := st.(cursor := st.cursor + |LayArgs(args)|);
    if l.MacroLine? {
      MacroHasNoBody(l);
      NoBodyIsRead(env, ts, items, st1, ArgTexts(args), tight);
      NoBodyMeans(st.macros);
    } else {
      HasItsBody(l);
      BodyIsRead(env, ts, items, st1, ArgTexts(args), l.body, tight);
    }
    LineIsMade(env, l, children, tight, 256 - st.nesting, top);
    NodeFrom(env, ts, st, ArgTexts(args) + TightText(tight), children, Raw(l, children, tight),
             st.(cursor := st.cursor + |LayTail(l)| + |LayTight(tight)|));
  }

  lemma {:induction false} MacroHasNoBody(l: Line)
    requires l.MacroLine?
    ensures BodyOf(l) == NoBody
  {}

  lemma {:induction false} HasItsBody(l: Line)
    requires !l.MacroLine?
    ensures BodyOf(l) == l.body
  {}

  lemma {:induction false} TailParts(env: Env, l: Line, tight: bool, depth: nat, top: bool)
    requires LineOkay(env, l, depth, top)
    ensures LayTail(l) + LayTight(tight) == LayArgs(HeadArgs(l)) + (LayBody(BodyOf(l)) + LayTight(tight))
    ensures |LayTail(l)| == |LayArgs(HeadArgs(l))| + |LayBody(BodyOf(l))|
    ensures forall i :: 0 <= i < |HeadArgs(l)| ==> ArgText(HeadArgs(l)[i].value) != "{"
    ensures !EndsWith(ArgTexts(HeadArgs(l)) + TightText(tight), "\\")
    ensures BodyOkay(env, BodyOf(l), depth)
  {
    LastText(HeadArgs(l), tight);
  }

  /** Where the first line stands, and the others. */
  lemma {:induction false} FirstOf(
    env: Env, ts: seq<Token>, items: seq<Piece>, st: State, lines: seq<Line>, hug: bool, close: Closer, tight: bool)
    requires Carries(ts, items) && SourceAt(env, items, st, lines, hug, close) && lines != []
    requires tight == (close.SameLine? && |lines| == 1)
    ensures
      var l, part := lines[0], LayTail(lines[0]) + LayTight(tight);
      && NextOk(ts, st.cursor) && Val(ts, st.cursor + 1) == Head(l)
      && (!hug && st.cursor >= 0 ==> LineOk(ts, st.cursor))
      && PrintedAt(items, st.cursor + 1, part) && LineEnds(items, st.cursor + 1 + |part|)
      && LineOkay(env, l, 256 - st.nesting, Top(close)) && (tight ==> l.Directive? && BodyOf(l).NoBody?)
      && |LayLines(lines, hug)| == 1 + |LayTail(l)| + |LayLines(lines[1..], false)|
  {
    hide *;
    var l, rest := lines[0], LayLines(lines[1..], false) + LayCloser(close);
    FirstOkay(env, items, st, lines, hug, close, tight);
    HeadPiece(l, hug);
    LayFirst(lines, hug, close, tight);
    NextToken(ts, items, st.cursor, LayHead(l, hug), LayTail(l) + rest);
    if !tight {
      PrintedAtSplit(items, st.cursor + 1, LayTail(l), rest);
      RestStarts(items, st.cursor + 1 + |LayTail(l)|, lines[1..], close);
    }
  }

  lemma {:induction false} HeadPiece(l: Line, hug: bool)
    ensures LayHead(l, hug).text == Head(l) && LayHead(l, hug).OnNewLine? == !hug
  {}

  /** A list of lines begins with its first one. */
  lemma {:induction false} LayFirst(lines: seq<Line>, hug: bool, close: Closer, tight: bool)
    requires lines != [] && tight == (close.SameLine? && |lines| == 1)
    ensures var l, rest := lines[0], LayLines(lines[1..], false) + LayCloser(close);
            && LayLines(lines, hug) + LayCloser(close) == [LayHead(l, hug)] + (LayTail(l) + rest)
            && |LayLines(lines, hug)| == 1 + |LayTail(l)| + |LayLines(lines[1..], false)|
            && LayTail(l) + LayTight(tight) == (if tight then LayTail(l) + rest else LayTail(l))
            && (tight ==> |rest| == 1 && lines[1..] == [])
  {
    hide LayTail, LayHead;
    if tight { assert lines[1..] == [] && LayLines([], false) + LayCloser(close) == LayTight(tight); }
  }

  lemma {:induction false} FirstOkay(
    env: Env, items: seq<Piece>, st: State, lines: seq<Line>, hug: bool, close: Closer, tight: bool)
    requires SourceAt(env, items, st, lines, hug, close) && lines != []
    requires tight == (close.SameLine? && |lines| == 1)
    ensures LineOkay(env, lines[0], 256 - st.nesting, Top(close))
    ensures tight ==> lines[0].Directive? && BodyOf(lines[0]).NoBody?
    ensures var part := LayLines(lines, hug) + LayCloser(close);
            && PrintedAt(items, st.cursor, part) && LineEnds(items, st.cursor + |part|) && -1 <= st.cursor
            && st.cursor + |part| < |items| && (Ends(close) ==> st.cursor + |part| == |items| - 1)
    ensures |LayLines(lines, hug) + LayCloser(close)| == |LayLines(lines, hug)| + |LayCloser(close)|
    ensures close.Cut? && close.more != [] ==> close.more[0].OnNewLine?
    ensures Ends(close) ==> !close.SameLine?
  {
    hide LayLines;
  }

  lemma {:induction false} RestStarts(items: seq<Piece>, at: int, lines: seq<Line>, close: Closer)
    requires PrintedAt(items, at, LayLines(lines, false) + LayCloser(close)) && -1 <= at < |items|
    requires close.SameLine? ==> lines != []
    requires Ends(close) ==> at + |LayLines(lines, false) + LayCloser(close)| == |items| - 1
    requires close.Cut? && close.more != [] ==> close.more[0].OnNewLine?
    ensures LineEnds(items, at)
  {
    var part := LayLines(lines, false) + LayCloser(close);
    if part != [] { assert items[at + 1] == part[0]; }
  }

  /** The state behind the first line. */
  function Next(st: State, l: Line): State {
    AfterLine(st, l, false).(cursor := st.cursor + 1 + |LayTail(l)|)
  }

  lemma {:induction false} OthersPrinted(
    env: Env, items: seq<Piece>, st: State, lines: seq<Line>, hug: bool, close: Closer)
    requires SourceAt(env, items, st, lines, hug, close) && lines != []
    ensures
      var at, part := st.cursor + 1 + |LayTail(lines[0])|, LayLines(lines[1..], false) + LayCloser(close);
      && PrintedAt(items, at, part) && LineEnds(items, at + |part|)
      && (Ends(close) ==> at + |part| == |items| - 1)
  {
    hide *;
    var l, rest := lines[0], LayLines(lines[1..], false) + LayCloser(close);
    var tight := close.SameLine? && |lines| == 1;
    FirstOkay(env, items, st, lines, hug, close, tight);
    LayFirst(lines, hug, close, tight);
    var first := [LayHead(l, hug)] + LayTail(l);
    assert [LayHead(l, hug)] + (LayTail(l) + rest) == first + rest;
    PrintedAtSplit(items, st.cursor, first, rest);
  }

  lemma {:induction false} OthersOkay(
    env: Env, items: seq<Piece>, st: State, lines: seq<Line>, hug: bool, close: Closer)
    requires SourceAt(env, items, st, lines, hug, close) && lines != []
    ensures LinesOkay(env, lines[1..], 256 - st.nesting, Top(close))
    ensures LineOkay(env, lines[0], 256 - st.nesting, Top(close))
    ensures close.SameLine? && lines[1..] != [] ==> BodyOf(lines[1..][|lines[1..]| - 1]).NoBody?
    ensures close.Cut? && close.more != [] ==> close.more[0].OnNewLine?
  {
    hide LayLines, LineOkay;
  }

  /** The lines after the first stand behind it. */
  lemma {:induction false} OthersAt(
    env: Env, items: seq<Piece>, st: State, lines: seq<Line>, hug: bool, close: Closer)
    requires SourceAt(env, items, st, lines, hug, close) && lines != []
    ensures SourceAt(env, items, Next(st, lines[0]), lines[1..], false, close)
  {
    hide *;
    OthersOkay(env, items, st, lines, hug, close);
    NestingOf(env, items, st, lines, hug, close);
    OthersPrinted(env, items, st, lines, hug, close);
    StaysPlain(env, lines[0], st, 256 - st.nesting, Top(close));
    NextIs(st, lines[0]);
    SourceParts(env, items, Next(st, lines[0]), lines[1..], false, close);
  }

  lemma {:induction false} SourceParts(
    env: Env, items: seq<Piece>, st: State, lines: seq<Line>, hug: bool, close: Closer)
    requires 0 <= st.nesting <= 256 && PlainMacros(st.macros) && (Top(close) <==> st.nesting == 0)
    requires LinesOkay(env, lines, 256 - st.nesting, Top(close))
    requires close.SameLine? && lines != [] ==> BodyOf(lines[|lines| - 1]).NoBody?
    requires var part := LayLines(lines, hug) + LayCloser(close);
             && PrintedAt(items, st.cursor, part) && LineEnds(items, st.cursor + |part|)
             && (Ends(close) ==> st.cursor + |part| == |items| - 1)
    requires close.Cut? && close.more != [] ==> close.more[0].OnNewLine?
    ensures SourceAt(env, items, st, lines, hug, close)
  {
    hide LinesOkay, LayLines, PlainMacros, PrintedAt, LineEnds;
  }

  lemma {:induction false} OthersMean(st: State, lines: seq<Line>, hug: bool, close: Closer)
    requires lines != []
    ensures
      var next := Next(st, lines[0]);
      && AfterSource(next, lines[1..], false, close) == AfterSource(st, lines, hug, close)
      && Meaning(lines, st.macros, st.snippets).nodes
         == Meaning([lines[0]], st.macros, st.snippets).nodes + Meaning(lines[1..], next.macros, next.snippets).nodes
  {
    hide LayTail, LayLines, Meaning;
    LayFirst(lines, hug, close, close.SameLine? && |lines| == 1);
    MeaningCons(lines, st.macros, st.snippets);
  }

  lemma {:induction false} StaysPlain(env: Env, l: Line, st: State, depth: nat, top: bool)
    requires LineOkay(env, l, depth, top) && PlainMacros(st.macros)
    ensures PlainMacros(AfterLine(st, l, false).macros)
  {
    MeaningOne(l, st.macros, st.snippets);
    if l.MacroLine? { PlainStays(st.macros, l.name, l.args); }
  }

  /** Lines are read as what they mean, up to the closing brace or the end of the input. */
  lemma {:induction false} LinesAreRead(
    env: Env, ts: seq<Token>, items: seq<Piece>, st: State, res: seq<Node>, needLine: bool,
    lines: seq<Line>, hug: bool, close: Closer)
    requires SaneClasses(env) && Carries(ts, items) && SourceAt(env, items, st, lines, hug, close)
    requires !close.Cut? && (needLine ==> st.cursor >= 0 && !hug && (close.SameLine? ==> lines != []))
    ensures ReadLines(env, ts, st, res, needLine)
            == Ok((res + Meaning(lines, st.macros, st.snippets).nodes, AfterSource(st, lines, hug, close)))
    decreases lines, 3
  {
    hide *;
    if lines == [] {
      NoLinesAreRead(env, ts, items, st, res, needLine, hug, close);
    } else {
      var l, tight := lines[0], close.SameLine? && |lines| == 1;
      FirstIsRead(env, ts, items, st, res, needLine, lines, hug, close, tight);
      if !tight {
        var next, more := Next(st, l), Meaning([l], st.macros, st.snippets).nodes;
        OthersAt(env, items, st, lines, hug, close);
        OthersMean(st, lines, hug, close);
        NestingOf(env, items, st, lines, hug, close);
        NextIs(st, l);
        LinesAreRead(env, ts, items, next, res + more, true, lines[1..], false, close);
        assert res + more + Meaning(lines[1..], next.macros, next.snippets).nodes
            == res + (more + Meaning(lines[1..], next.macros, next.snippets).nodes);
      }
    }
  }

  lemma {:induction false} NextIs(st: State, l: Line)
    ensures var next, later := Next(st, l), AfterLine(st, l, false);
            && next.cursor == st.cursor + 1 + |LayTail(l)| && next.nesting == st.nesting
            && next.macros == later.macros && next.snippets == later.snippets
  {
    hide Meaning;
  }

  lemma {:induction false} NothingAt(env: Env, items: seq<Piece>, st: State, hug: bool, close: Closer)
    requires SourceAt(env, items, st, [], hug, close)
    ensures Meaning([], st.macros, st.snippets).nodes == []
    ensures close.AtEnd? ==> st.cursor == |items| - 1 && AfterSource(st, [], hug, close) == st
    ensures close.OwnLine? || close.SameLine? ==>
              && PrintedAt(items, st.cursor, [if close.OwnLine? then OnNewLine("}") else OnSameLine("}")] + [])
              && AfterSource(st, [], hug, close) == st.(cursor := st.cursor + 1, nesting := st.nesting - 1)
              && st.nesting > 0
  {
    assert LayLines([], hug) == [] && [] + LayCloser(close) == LayCloser(close);
    if close.OwnLine? {
      assert LayCloser(close) == [OnNewLine("}")] + [];
    } else if close.SameLine? {
      assert LayCloser(close) == [OnSameLine("}")] + [];
    }
    hide PrintedAt, LineEnds, PlainMacros;
  }

  lemma {:induction false} NoLinesAreRead(
    env: Env, ts: seq<Token>, items: seq<Piece>, st: State, res: seq<Node>, needLine: bool, hug: bool, close: Closer)
    requires Carries(ts, items) && SourceAt(env, items, st, [], hug, close)
    requires !close.Cut? && (needLine ==> st.cursor >= 0 && !close.SameLine?)
    ensures ReadLines(env, ts, st, res, needLine)
            == Ok((res + Meaning([], st.macros, st.snippets).nodes, AfterSource(st, [], hug, close)))
  {
    hide *;
    NothingAt(env, items, st, hug, close);
    assert res + [] == res;
    if close.AtEnd? {
      CarriesAll(ts, items);
      LinesEnd(env, ts, st, res, needLine);
    } else {
      NextToken(ts, items, st.cursor, if close.OwnLine? then OnNewLine("}") else OnSameLine("}"), []);
      Starts(ts, st, needLine);
      LinesClose(env, ts, st, res, needLine);
    }
  }

  /** The first line, which closes the block if the brace follows it. */
  lemma {:induction false} FirstIsRead(
    env: Env, ts: seq<Token>, items: seq<Piece>, st: State, res: seq<Node>, needLine: bool,
    lines: seq<Line>, hug: bool, close: Closer, tight: bool)
    requires SaneClasses(env) && Carries(ts, items) && SourceAt(env, items, st, lines, hug, close) && lines != []
    requires (needLine ==> st.cursor >= 0 && !hug) && tight == (close.SameLine? && |lines| == 1)
    ensures
      var more := Meaning([lines[0]], st.macros, st.snippets).nodes;
      var next := Next(st, lines[0]);
      ReadLines(env, ts, st, res, needLine)
      == if tight then Ok((res + Meaning(lines, st.macros, st.snippets).nodes, AfterSource(st, lines, hug, close)))
         else ReadLines(env, ts, next, res + more, true)
    decreases lines, 2
  {
    hide *;
    var l := lines[0];
    var here := st.(cursor := st.cursor + 1);
    var st1 := here.(cursor := st.cursor + 1 + |LayTail(l)| + |LayTight(tight)|);
    FirstOf(env, ts, items, st, lines, hug, close, tight);
    NestingOf(env, items, st, lines, hug, close);
    LineIsRead(env, ts, items, here, l, tight, Top(close));
    LineIsTaken(env, st1, l, tight, 256 - st.nesting, Top(close));
    LineIsMade(env, l, Absent, tight, 256 - st.nesting, Top(close));
    Starts(ts, st, needLine);
    LineFrom(env, ts, st, res, needLine, Raw(l, MeantBody(st.macros, BodyOf(l)), tight), st1,
             Taken(Meaning([l], st.macros, st.snippets).nodes, AfterLine(st1, l, tight), tight));
    LineLeaves(st, st1, lines, hug, close, tight);
  }

  lemma {:induction false} Starts(ts: seq<Token>, st: State, needLine: bool)
    requires NextOk(ts, st.cursor) && (needLine ==> LineOk(ts, st.cursor))
    ensures Advances(ts, st, needLine)
  {}

  lemma {:induction false} NestingOf(
    env: Env, items: seq<Piece>, st: State, lines: seq<Line>, hug: bool, close: Closer)
    requires SourceAt(env, items, st, lines, hug, close)
    ensures 0 <= st.nesting <= 256 && PlainMacros(st.macros) && (Top(close) <==> st.nesting == 0) && st.cursor >= -1
    ensures close.SameLine? ==> st.nesting > 0
  {}

  lemma {:induction false} LineLeaves(
    st: State, st1: State, lines: seq<Line>, hug: bool, close: Closer, tight: bool)
    requires lines != [] && tight == (close.SameLine? && |lines| == 1)
    requires st1 == st.(cursor := st.cursor + 1 + |LayTail(lines[0])| + |LayTight(tight)|)
    ensures tight ==>
              && AfterLine(st1, lines[0], tight) == AfterSource(st, lines, hug, close)
              && Meaning(lines, st.macros, st.snippets) == Meaning([lines[0]], st.macros, st.snippets)
    ensures !tight ==> AfterLine(st1, lines[0], tight) == Next(st, lines[0])
  {
    hide Meaning, LayTail;
    if tight {
      assert lines == [lines[0]];
      assert LayLines(lines, hug) == [LayHead(lines[0], hug)] + LayTail(lines[0]) + LayLines([], false);
    }
  }

  /** A whole source is read as what it means: its directives, its macros and its snippets. */
  lemma {:induction false} SourceIsRead(env: Env, lines: seq<Line>, line: nat)
    requires SaneClasses(env) && LinesOkay(env, lines, 256, true)
    ensures var ts, p := Laid(ToItems(LayLines(lines, false)), line), Meaning(lines, map[], map[]);
            ReadNodes(env, ts, INITIAL) == Ok((p.nodes, State(|ts| - 1, 0, p.macros, p.snippets)))
  {
    hide *;
    var items := LayLines(lines, false);
    var ts := Laid(ToItems(items), line);
    LaidCarries(items, line);
    SourceFills(env, lines);
    LinesAreRead(env, ts, items, INITIAL.(nesting := 0), [], false, lines, false, AtEnd);
    WholeSource(env, ts, lines, line);
  }

  lemma {:induction false} SourceFills(env: Env, lines: seq<Line>)
    requires LinesOkay(env, lines, 256, true)
    ensures SourceAt(env, LayLines(lines, false), INITIAL.(nesting := 0), lines, false, AtEnd)
  {
    hide LinesOkay, LayLines;
    var items := LayLines(lines, false);
    assert items + LayCloser(AtEnd) == items && items[0..|items|] == items;
  }

  lemma {:induction false} WholeSource(env: Env, ts: seq<Token>, lines: seq<Line>, line: nat)
    requires ts == Laid(ToItems(LayLines(lines, false)), line) && |ts| == |LayLines(lines, false)|
    requires ReadLines(env, ts, INITIAL.(nesting := 0), [], false)
             == Ok(([] + Meaning(lines, INITIAL.macros, INITIAL.snippets).nodes,
                    AfterSource(INITIAL.(nesting := 0), lines, false, AtEnd)))
    ensures var p := Meaning(lines, map[], map[]);
            ReadNodes(env, ts, INITIAL) == Ok((p.nodes, State(|ts| - 1, 0, p.macros, p.snippets)))
  {
    hide ReadLines, Meaning, LayLines, Laid;
    var p := Meaning(lines, map[], map[]);
    assert [] + p.nodes == p.nodes;
    BlockOfLines(env, ts, INITIAL, p.nodes, State(|ts| - 1, 0, p.macros, p.snippets));
  }

  // ---------------------------------------------------------------------------
  // Up to a place in the middle of a source
  // ---------------------------------------------------------------------------

  /** The state behind the lines. */
  function Behind(st: State, lines: seq<Line>, hug: bool): State {
    var p := Meaning(lines, st.macros, st.snippets);
    State(st.cursor + |LayLines(lines, hug)|, st.nesting, p.macros, p.snippets)
  }

  /** After some lines reading goes on with what follows. */
  lemma {:induction false} LinesThen(
    env: Env, ts: seq<Token>, items: seq<Piece>, st: State, res: seq<Node>, needLine: bool,
    lines: seq<Line>, hug: bool, close: Closer)
    requires SaneClasses(env) && Carries(ts, items) && SourceAt(env, items, st, lines, hug, close)
    requires close.Cut? && (needLine ==> st.cursor >= 0 && !hug)
    ensures ReadLines(env, ts, st, res, needLine)
            == ReadLines(env, ts, Behind(st, lines, hug), res + Meaning(lines, st.macros, st.snippets).nodes,
                         needLine || lines != [])
    decreases |lines|
  {
    hide *;
    if lines == [] {
      BehindNothing(st, res, hug);
    } else {
      var l := lines[0];
      FirstIsRead(env, ts, items, st, res, needLine, lines, hug, close, false);
      var next, more := Next(st, l), Meaning([l], st.macros, st.snippets).nodes;
      OthersAt(env, items, st, lines, hug, close);
      OthersMean(st, lines, hug, close);
      NestingOf(env, items, st, lines, hug, close);
      NextIs(st, l);
      LinesThen(env, ts, items, next, res + more, true, lines[1..], false, close);
      BehindFirst(st, lines, hug);
      assert res + more + Meaning(lines[1..], next.macros, next.snippets).nodes
          == res + (more + Meaning(lines[1..], next.macros, next.snippets).nodes);
    }
  }

  lemma {:induction false} BehindNothing(st: State, res: seq<Node>, hug: bool)
    ensures Behind(st, [], hug) == st && res + Meaning([], st.macros, st.snippets).nodes == res
  {}

  lemma {:induction false} BehindFirst(st: State, lines: seq<Line>, hug: bool)
    requires lines != []
    ensures Behind(Next(st, lines[0]), lines[1..], false) == Behind(st, lines, hug)
  {
    hide LayTail, LayLines, Meaning;
    LayFirst(lines, hug, AtEnd, false);
    MeaningCons(lines, st.macros, st.snippets);
  }
}
