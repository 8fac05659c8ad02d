/**
 Sources that the configuration reader refuses, and the error it reports, however deep in blocks the fault
 stands and whatever comes before it (framework/cfgparser/parse.go:106-349).
 */
module ConfigErrors {
  import opened Common
  import opened Lexer
  import opened Quoting
  import opened Dispensing
  import opened ConfigTree
  import opened ConfigParser
  import opened ConfigPrinting
  import opened ConfigSource
  import opened Imports

  /** A block that has been opened: the lines before it, and its header. */
  datatype Level = Level(before: seq<Line>, name: string, args: seq<Arg>, hugs: bool)

  function LayOpen(level: Level, hug: bool): seq<Piece> {
    [LayHead(Directive(level.name, level.args, NoBody), hug)] + (LayArgs(level.args) + [OnSameLine("{")])
  }

  /** Blocks opened one in another, some lines, and more. */
  function LayPath(path: seq<Level>, lines: seq<Line>, hug: bool, more: seq<Piece>): seq<Piece>
    decreases |path|
  {
    if path == [] then LayLines(lines, hug) + more
    else LayLines(path[0].before, hug) + LayInside(path, lines, hug, more)
  }

  /** The same from the header of the first block on. */
  function LayInside(path: seq<Level>, lines: seq<Line>, hug: bool, more: seq<Piece>): seq<Piece>
    requires path != []
    decreases |path|, 0
  {
    LayOpen(path[0], hug && path[0].before == []) + LayPath(path[1..], lines, path[0].hugs, more)
  }

  predicate LevelsOkay(env: Env, path: seq<Level>, lines: seq<Line>, nesting: nat)
    decreases |path|
  {
    if path == [] then nesting <= 256 && LinesOkay(env, lines, 256 - nesting, nesting == 0)
    else
      && nesting <= 255 && LinesOkay(env, path[0].before, 256 - nesting, nesting == 0)
      && ValidName(env, path[0].name) && ArgsOkay(path[0].args) && LevelsOkay(env, path[1..], lines, nesting + 1)
  }

  type Lines = Result<(seq<Node>, ConfigParser.State), Error>

  /** Reading ends with the given error or, if none is given, with some error or inside a block. */
  predicate Bad(ts: seq<Token>, r: Lines, want: Option<Error>) {
    match want
    case Some(e) => r == Err(e)
    case None => r.Err? || (r.value.1.nesting > 0 && r.value.1.cursor == |ts| - 1)
  }

  /** Whatever was read before, reading ends badly from this place on, this deep. */
  ghost predicate BadAt(env: Env, ts: seq<Token>, at: int, nesting: int, want: Option<Error>) {
    forall st: ConfigParser.State, res: seq<Node>, needLine: bool ::
      st.cursor == at && st.nesting == nesting && PlainMacros(st.macros) ==>
        Bad(ts, ReadLines(env, ts, st, res, needLine), want)
  }

  // ---------------------------------------------------------------------------
  // One step at a time
  // ---------------------------------------------------------------------------

  lemma {:induction false} BlockFails(
    env: Env, ts: seq<Token>, st: ConfigParser.State, args: seq<string>, want: Option<Error>)
    requires ArgOk(ts, st.cursor) && Val(ts, st.cursor + 1) == "{" && st.nesting <= 255 && !EndsWith(args, "\\")
    requires Bad(ts, ReadLines(env, ts, st.(cursor := st.cursor + 1, nesting := st.nesting + 1), [], false), want)
    ensures
      var r := ReadArgs(env, ts, st, args, Absent, false);
      match want
      case Some(e) => r == Err(e)
      case None =>
        r.Err? || (r.value.0 == args && r.value.1.Block? && r.value.2.nesting > 0 && r.value.2.cursor == |ts| - 1)
  {
    hide ReadLines;
    var inside := st.(cursor := st.cursor + 1);
    assert ReadNodes(env, ts, inside) == ReadLines(env, ts, inside.(nesting := st.nesting + 1), [], false);
    hide ReadNodes;
  }

  lemma {:induction false} LineFails(
    env: Env, ts: seq<Token>, st: ConfigParser.State, res: seq<Node>, needLine: bool, e: Error)
    requires Advances(ts, st, needLine) && Val(ts, st.cursor + 1) != "}"
    requires
      var r := ReadNode(env, ts, st.(cursor := st.cursor + 1));
      r == Err(e) || (r.Ok? && TakeNode(env, r.value.1, r.value.0) == Err(e))
    ensures ReadLines(env, ts, st, res, needLine) == Err(e)
  {
    hide ReadNode, TakeNode;
  }

  lemma {:induction false} HeaderFails(env: Env, ts: seq<Token>, st: ConfigParser.State, e: Error)
    requires || (Val(ts, st.cursor) == "{" && e == MissingHeader)
             || (Val(ts, st.cursor) != "{" && ReadArgs(env, ts, st, [], Absent, false) == Err(e))
    ensures ReadNode(env, ts, st) == Err(e)
  {
    hide ReadArgs;
  }

  /** At the end of the input, inside a block, reading stays where it is. */
  lemma {:induction false} EndInside(
    env: Env, ts: seq<Token>, st: ConfigParser.State, res: seq<Node>, needLine: bool)
    requires st.cursor == |ts| - 1 && st.nesting > 0 && (needLine ==> st.cursor >= 0)
    ensures ReadLines(env, ts, st, res, needLine) == Ok((res, st))
  {}

  lemma {:induction false} TakeStays(env: Env, st: ConfigParser.State, n: Node)
    requires !EndsWith(n.args, "}") && !n.isMacro && !n.snippet
    ensures var r := TakeNode(env, st, n);
            r.Ok? ==> r.value.st == st && !r.value.stop
  {
    hide ExpandMacros;
  }

  // ---------------------------------------------------------------------------
  // Out of the blocks
  // ---------------------------------------------------------------------------

  /** The header of a block, behind the cursor, whose inside ends badly. */
  lemma {:induction false} HeaderOfBad(
    env: Env, ts: seq<Token>, items: seq<Piece>, st: ConfigParser.State, level: Level, rest: seq<Piece>,
    want: Option<Error>)
    requires SaneClasses(env) && Carries(ts, items) && st.cursor >= 0 && 0 <= st.nesting <= 255
    requires ArgsOkay(level.args) && PrintedAt(items, st.cursor, LayArgs(level.args) + ([OnSameLine("{")] + rest))
    requires
      var inside := st.(cursor := st.cursor + |LayArgs(level.args)| + 1, nesting := st.nesting + 1);
      Bad(ts, ReadLines(env, ts, inside, [], false), want)
    ensures
      var r := ReadArgs(env, ts, st, [], Absent, false);
      match want
      case Some(e) => r == Err(e)
      case None =>
        r.Err? || (&& r.value.0 == ArgTexts(level.args) && r.value.1.Block?
                   && r.value.2.nesting > 0 && r.value.2.cursor == |ts| - 1)
  {
    hide *;
    NoBraces(level.args);
    ArgsAreRead(env, ts, items, st, [], level.args, [OnSameLine("{")] + rest);
    assert [] + ArgTexts(level.args) == ArgTexts(level.args);
    var st1 := st.(cursor := st.cursor + |LayArgs(level.args)|);
    NextToken(ts, items, st1.cursor, OnSameLine("{"), rest);
    BlockFails(env, ts, st1, ArgTexts(level.args), want);
  }

  lemma {:induction false} NoBraces(args: seq<Arg>)
    requires ArgsOkay(args)
    ensures forall i :: 0 <= i < |args| ==> ArgText(args[i].value) != "{"
    ensures !EndsWith(ArgTexts(args), "\\") && !EndsWith(ArgTexts(args), "}")
  {
    LastText(args, false);
    assert ArgTexts(args) + TightText(false) == ArgTexts(args);
  }

  /** A directive whose block stays open. */
  lemma {:induction false} OpenNode(
    env: Env, ts: seq<Token>, st: ConfigParser.State, res: seq<Node>, needLine: bool, level: Level, ns: seq<Node>,
    st1: ConfigParser.State)
    requires SaneClasses(env) && Advances(ts, st, needLine) && Val(ts, st.cursor + 1) == level.name
    requires ValidName(env, level.name) && ArgsOkay(level.args)
    requires ReadArgs(env, ts, st.(cursor := st.cursor + 1), [], Absent, false)
             == Ok((ArgTexts(level.args), Block(ns), st1))
    requires st1.nesting > 0 && st1.cursor == |ts| - 1 && st1.cursor >= 0
    ensures Bad(ts, ReadLines(env, ts, st, res, needLine), None)
  {
    var n := Node(level.name, ArgTexts(level.args), Block(ns), false, false);
    var l := Directive(level.name, level.args, NoBody);
    DirectiveIsMade(env, l, Block(ns), false);
    assert ArgTexts(level.args) + TightText(false) == ArgTexts(level.args);
    NoBraces(level.args);
    TakeStays(env, st1, n);
    hide ReadArgs, ReadLines, ReadNode, TakeNode, MakeNode, Advances;
    NodeFrom(env, ts, st.(cursor := st.cursor + 1), ArgTexts(level.args), Block(ns), n, st1);
    var r := TakeNode(env, st1, n);
    if r.Err? {
      LineFails(env, ts, st, res, needLine, r.error);
    } else {
      LineFrom(env, ts, st, res, needLine, n, st1, r.value);
      EndInside(env, ts, st1, res + r.value.nodes, true);
    }
  }

  lemma {:induction false} OpenIsBad(
    env: Env, ts: seq<Token>, items: seq<Piece>, st: ConfigParser.State, res: seq<Node>, needLine: bool, level: Level,
    hug: bool, rest: seq<Piece>, want: Option<Error>)
    requires SaneClasses(env) && Carries(ts, items) && st.cursor >= -1 && 0 <= st.nesting <= 255
    requires (needLine ==> st.cursor >= 0 && !hug) && ValidName(env, level.name) && ArgsOkay(level.args)
    requires PrintedAt(items, st.cursor, LayOpen(level, hug) + rest)
    requires
      var inside := st.(cursor := st.cursor + |LayOpen(level, hug)|, nesting := st.nesting + 1);
      Bad(ts, ReadLines(env, ts, inside, [], false), want)
    ensures Bad(ts, ReadLines(env, ts, st, res, needLine), want)
  {
    hide *;
    var here, l := st.(cursor := st.cursor + 1), Directive(level.name, level.args, NoBody);
    OpenParts(env, level, hug, rest);
    NextToken(ts, items, st.cursor, LayHead(l, hug), LayArgs(level.args) + ([OnSameLine("{")] + rest));
    Starts(ts, st, needLine);
    HeaderOfBad(env, ts, items, here, level, rest, want);
    var r := ReadArgs(env, ts, here, [], Absent, false);
    if r.Err? {
      HeaderFails(env, ts, here, r.error);
      LineFails(env, ts, st, res, needLine, r.error);
      BadError(ts, r.error, want);
    } else {
      CarriesAll(ts, items);
      WantsNone(ts, items, st.cursor, [LayHead(l, hug)] + (LayArgs(level.args) + ([OnSameLine("{")] + rest)));
      OpenNode(env, ts, st, res, needLine, level, r.value.1.nodes, r.value.2);
    }
  }

  lemma {:induction false} BadError(ts: seq<Token>, e: Error, want: Option<Error>)
    requires want.Some? ==> want.value == e
    ensures Bad(ts, Err(e), want)
  {}

  lemma {:induction false} WantsNone(ts: seq<Token>, items: seq<Piece>, at: int, part: seq<Piece>)
    requires |ts| == |items| && PrintedAt(items, at, part) && part != []
    ensures |ts| > 0
  {}

  lemma {:induction false} OpenParts(env: Env, level: Level, hug: bool, rest: seq<Piece>)
    requires SaneClasses(env) && ValidName(env, level.name)
    ensures var l := Directive(level.name, level.args, NoBody);
            && LayOpen(level, hug) + rest == [LayHead(l, hug)] + (LayArgs(level.args) + ([OnSameLine("{")] + rest))
            && |LayOpen(level, hug)| == |LayArgs(level.args)| + 2
            && LayHead(l, hug).text == level.name && LayHead(l, hug).OnNewLine? == !hug
            && level.name != "{" && level.name != "}"
  {
    DirectiveIsMade(env, Directive(level.name, level.args, NoBody), Absent, false);
    hide LayArgs;
  }

  // ---------------------------------------------------------------------------
  // Any number of open blocks
  // ---------------------------------------------------------------------------

  /** The blocks stand behind the cursor, and the input ends with what follows them. */
  predicate PathAt(
    env: Env, items: seq<Piece>, st: ConfigParser.State, path: seq<Level>, lines: seq<Line>, hug: bool,
    more: seq<Piece>)
  {
    && 0 <= st.nesting && PlainMacros(st.macros) && LevelsOkay(env, path, lines, st.nesting)
    && PrintedAt(items, st.cursor, LayPath(path, lines, hug, more))
    && st.cursor + |LayPath(path, lines, hug, more)| == |items| - 1
    && (more != [] ==> more[0].OnNewLine?)
  }

  /** Some lines and then more, in a block or on the outermost level. */
  lemma {:induction false} CutAt(
    env: Env, items: seq<Piece>, st: ConfigParser.State, lines: seq<Line>, hug: bool, more: seq<Piece>)
    requires 0 <= st.nesting <= 256 && PlainMacros(st.macros)
    requires LinesOkay(env, lines, 256 - st.nesting, st.nesting == 0)
    requires PrintedAt(items, st.cursor, LayLines(lines, hug) + more)
    requires st.cursor + |LayLines(lines, hug) + more| == |items| - 1 && (more != [] ==> more[0].OnNewLine?)
    ensures SourceAt(env, items, st, lines, hug, Cut(more, st.nesting == 0))
    ensures Behind(st, lines, hug).cursor == |items| - 1 - |more| && Behind(st, lines, hug).nesting == st.nesting
    ensures Behind(st, lines, hug).macros == Meaning(lines, st.macros, st.snippets).macros
    ensures st.cursor >= -1
  {
    hide LinesOkay, LayLines, PlainMacros, Meaning;
    SourceParts(env, items, st, lines, hug, Cut(more, st.nesting == 0));
  }

  /** What ends badly inside ends badly at every level above. */
  lemma {:induction false} PathIsBad(
    env: Env, ts: seq<Token>, items: seq<Piece>, st: ConfigParser.State, res: seq<Node>, needLine: bool,
    path: seq<Level>, lines: seq<Line>, hug: bool, more: seq<Piece>, want: Option<Error>)
    requires SaneClasses(env) && Carries(ts, items) && PathAt(env, items, st, path, lines, hug, more)
    requires (needLine ==> st.cursor >= 0 && !hug)
    requires BadAt(env, ts, |items| - 1 - |more|, st.nesting + |path|, want)
    ensures Bad(ts, ReadLines(env, ts, st, res, needLine), want)
    decreases |path|
  {
    hide *;
    if path == [] {
      PathEnds(env, items, st, lines, hug, more);
      CutAt(env, items, st, lines, hug, more);
      PlainThrough(env, lines, st.macros, st.snippets, 256 - st.nesting, st.nesting == 0);
      LinesThen(env, ts, items, st, res, needLine, lines, hug, Cut(more, st.nesting == 0));
      IsBad(env, ts, |items| - 1 - |more|, st.nesting, want, Behind(st, lines, hug),
            res + Meaning(lines, st.macros, st.snippets).nodes, needLine || lines != []);
    } else {
      var before, inside := path[0].before, LayInside(path, lines, hug, more);
      PathStarts(env, items, st, path, lines, hug, more);
      if before == [] {
        BlockIsBad(env, ts, items, st, res, needLine, path, lines, hug, more, want);
      } else {
        var st1, res1 := Behind(st, before, hug), res + Meaning(before, st.macros, st.snippets).nodes;
        CutAt(env, items, st, before, hug, inside);
        LinesThen(env, ts, items, st, res, needLine, before, hug, Cut(inside, st.nesting == 0));
        BlockIsBad(env, ts, items, st1, res1, true, path, lines, hug, more, want);
      }
    }
  }

  lemma {:induction false} IsBad(
    env: Env, ts: seq<Token>, at: int, nesting: int, want: Option<Error>, st: ConfigParser.State, res: seq<Node>,
    needLine: bool)
    requires BadAt(env, ts, at, nesting, want) && st.cursor == at && st.nesting == nesting && PlainMacros(st.macros)
    ensures Bad(ts, ReadLines(env, ts, st, res, needLine), want)
  {
    hide ReadLines, Bad;
  }

  lemma {:induction false} PathEnds(
    env: Env, items: seq<Piece>, st: ConfigParser.State, lines: seq<Line>, hug: bool, more: seq<Piece>)
    requires PathAt(env, items, st, [], lines, hug, more)
    ensures 0 <= st.nesting <= 256 && PlainMacros(st.macros)
    ensures LinesOkay(env, lines, 256 - st.nesting, st.nesting == 0)
    ensures PrintedAt(items, st.cursor, LayLines(lines, hug) + more)
    ensures st.cursor + |LayLines(lines, hug) + more| == |items| - 1 && (more != [] ==> more[0].OnNewLine?)
  {
    hide LinesOkay, LayLines, PlainMacros, PrintedAt;
  }

  /** Where the lines before the first block stand, and what follows them. */
  lemma {:induction false} PathStarts(
    env: Env, items: seq<Piece>, st: ConfigParser.State, path: seq<Level>, lines: seq<Line>, hug: bool,
    more: seq<Piece>)
    requires path != [] && PathAt(env, items, st, path, lines, hug, more)
    ensures
      var before, inside := path[0].before, LayInside(path, lines, hug, more);
      && 0 <= st.nesting <= 255 && PlainMacros(st.macros) && st.cursor >= -1
      && LinesOkay(env, before, 256 - st.nesting, st.nesting == 0)
      && PrintedAt(items, st.cursor, LayLines(before, hug) + inside)
      && st.cursor + |LayLines(before, hug) + inside| == |items| - 1
      && inside != [] && (before != [] ==> inside[0].OnNewLine?)
      && (before == [] ==> InsideAt(env, items, st, path, lines, hug, more))
      && (before != [] ==> InsideAt(env, items, Behind(st, before, hug), path, lines, hug, more))
      && (before != [] ==> Behind(st, before, hug).cursor >= 0)
  {
    hide LinesOkay, LayPath, PlainMacros, PrintedAt, LevelsOkay, Meaning, LayLines, LayInside;
    Unfold(env, path, lines, hug, more, st.nesting);
    var before, inside := path[0].before, LayInside(path, lines, hug, more);
    PrintedAtSplit(items, st.cursor, LayLines(before, hug), inside);
    FrontIs(items, st.cursor, LayLines(before, hug) + inside);
    PlainThrough(env, before, st.macros, st.snippets, 256 - st.nesting, st.nesting == 0);
    FrontLength(before, hug);
  }

  lemma {:induction false} FrontLength(lines: seq<Line>, hug: bool)
    ensures LayLines(lines, hug) == [] <==> lines == []
  {}

  lemma {:induction false} FrontIs(items: seq<Piece>, at: int, part: seq<Piece>)
    requires PrintedAt(items, at, part)
    ensures at >= -1
  {}

  lemma {:induction false} Unfold(
    env: Env, path: seq<Level>, lines: seq<Line>, hug: bool, more: seq<Piece>, nesting: nat)
    requires path != [] && LevelsOkay(env, path, lines, nesting)
    ensures LayPath(path, lines, hug, more) == LayLines(path[0].before, hug) + LayInside(path, lines, hug, more)
    ensures nesting <= 255 && LinesOkay(env, path[0].before, 256 - nesting, nesting == 0)
    ensures ValidName(env, path[0].name) && ArgsOkay(path[0].args) && LevelsOkay(env, path[1..], lines, nesting + 1)
    ensures LayInside(path, lines, hug, more)
            == LayOpen(path[0], hug && path[0].before == []) + LayPath(path[1..], lines, path[0].hugs, more)
    ensures LayInside(path, lines, hug, more) != []
    ensures path[0].before != [] ==> LayInside(path, lines, hug, more)[0].OnNewLine?
  {}

  lemma {:induction false} PlainThrough(
    env: Env, lines: seq<Line>, macros: Macros, snippets: Snippets, depth: nat, top: bool)
    requires LinesOkay(env, lines, depth, top) && PlainMacros(macros)
    ensures PlainMacros(Meaning(lines, macros, snippets).macros)
    decreases |lines|
  {
    hide PlainMacros, LineOkay;
    if lines != [] {
      var st := ConfigParser.State(0, 0, macros, snippets);
      StaysPlain(env, lines[0], st, depth, top);
      MeaningCons(lines, macros, snippets);
      var p := Meaning([lines[0]], macros, snippets);
      PlainThrough(env, lines[1..], p.macros, p.snippets, depth, top);
    }
  }

  /** The header of the first block stands behind the cursor. */
  predicate InsideAt(
    env: Env, items: seq<Piece>, st: ConfigParser.State, path: seq<Level>, lines: seq<Line>, hug: bool,
    more: seq<Piece>)
  {
    && path != [] && 0 <= st.nesting && st.cursor >= -1 && PlainMacros(st.macros)
    && LevelsOkay(env, path, lines, st.nesting)
    && PrintedAt(items, st.cursor, LayInside(path, lines, hug, more))
    && st.cursor + |LayInside(path, lines, hug, more)| == |items| - 1
    && (more != [] ==> more[0].OnNewLine?)
  }

  lemma {:induction false} BlockIsBad(
    env: Env, ts: seq<Token>, items: seq<Piece>, st: ConfigParser.State, res: seq<Node>, needLine: bool,
    path: seq<Level>, lines: seq<Line>, hug: bool, more: seq<Piece>, want: Option<Error>)
    requires path != []
    requires SaneClasses(env) && Carries(ts, items) && InsideAt(env, items, st, path, lines, hug, more)
    requires needLine ==> st.cursor >= 0 && !(hug && path[0].before == [])
    requires BadAt(env, ts, |items| - 1 - |more|, st.nesting + |path|, want)
    ensures Bad(ts, ReadLines(env, ts, st, res, needLine), want)
    decreases |path|, 0
  {
    hide *;
    var level, first := path[0], hug && path[0].before == [];
    var rest := LayPath(path[1..], lines, level.hugs, more);
    var inside := st.(cursor := st.cursor + |LayOpen(level, first)|, nesting := st.nesting + 1);
    InsideParts(env, items, st, path, lines, hug, more);
    PathIsBad(env, ts, items, inside, [], false, path[1..], lines, level.hugs, more, want);
    OpenIsBad(env, ts, items, st, res, needLine, level, first, rest, want);
  }

  lemma {:induction false} InsideParts(
    env: Env, items: seq<Piece>, st: ConfigParser.State, path: seq<Level>, lines: seq<Line>, hug: bool,
    more: seq<Piece>)
    requires InsideAt(env, items, st, path, lines, hug, more)
    ensures
      var level, first := path[0], hug && path[0].before == [];
      var inside := st.(cursor := st.cursor + |LayOpen(level, first)|, nesting := st.nesting + 1);
      && 0 <= st.nesting <= 255 && st.cursor >= -1 && ValidName(env, level.name) && ArgsOkay(level.args)
      && PrintedAt(items, st.cursor, LayOpen(level, first) + LayPath(path[1..], lines, level.hugs, more))
      && PathAt(env, items, inside, path[1..], lines, level.hugs, more)
  {
    hide LinesOkay, LayPath, PlainMacros, PrintedAt, LevelsOkay, LayLines, LayInside, LayOpen, ValidName, ArgsOkay;
    Unfold(env, path, lines, hug, more, st.nesting);
    PrintedAtSplit(items, st.cursor, LayOpen(path[0], hug && path[0].before == []),
                   LayPath(path[1..], lines, path[0].hugs, more));
  }

  // ---------------------------------------------------------------------------
  // What is refused
  // ---------------------------------------------------------------------------

  /** A source that ends badly at some place is refused: the error is reported, or the block is not closed. */
  lemma {:induction false} BadSourceIsRefused(
    env: Env, ts: seq<Token>, path: seq<Level>, lines: seq<Line>, more: seq<Piece>, want: Option<Error>, line: nat)
    requires SaneClasses(env) && LevelsOkay(env, path, lines, 0) && (more != [] ==> more[0].OnNewLine?)
    requires ts == Laid(ToItems(LayPath(path, lines, false, more)), line)
    requires BadAt(env, ts, |ts| - 1 - |more|, |path|, want)
    ensures Bad(ts, ReadNodes(env, ts, INITIAL), want)
  {
    var items, st := LayPath(path, lines, false, more), INITIAL.(nesting := 0);
    LaidCarries(items, line);
    assert PathAt(env, items, st, path, lines, false, more) by {
      hide LevelsOkay, LayPath;
      assert items[0..|items|] == items;
    }
    hide ReadLines, LevelsOkay, LayPath, Laid, Carries, Bad, BadAt, SaneClasses, PathAt;
    PathIsBad(env, ts, items, st, [], false, path, lines, false, more, want);
  }

  /** The place where a source goes wrong. */
  lemma {:induction false} PlaceOf(path: seq<Level>, lines: seq<Line>, hug: bool, more: seq<Piece>)
    ensures var items := LayPath(path, lines, hug, more);
            |more| <= |items| && items[|items| - |more|..] == more
    decreases |path|
  {
    if path != [] {
      PlaceOf(path[1..], lines, path[0].hugs, more);
      var rest := LayPath(path[1..], lines, path[0].hugs, more);
      var items := LayPath(path, lines, hug, more);
      assert items[|items| - |rest|..] == rest;
      assert items[|items| - |more|..] == rest[|rest| - |more|..];
    }
  }

  lemma {:induction false} PrintedThere(path: seq<Level>, lines: seq<Line>, more: seq<Piece>, line: nat)
    ensures var items := LayPath(path, lines, false, more);
            var ts := Laid(ToItems(items), line);
            && Carries(ts, items) && |ts| == |items| && |more| <= |ts|
            && PrintedAt(items, |ts| - 1 - |more|, more)
  {
    hide LayPath, Carries, Laid;
    var items := LayPath(path, lines, false, more);
    LaidCarries(items, line);
    PlaceOf(path, lines, false, more);
  }

  /** The tokens of blocks opened one in another, some lines, and more. */
  function TokensOfPath(path: seq<Level>, lines: seq<Line>, more: seq<Piece>, line: nat): seq<Token> {
    Laid(ToItems(LayPath(path, lines, false, more)), line)
  }

  /** What goes wrong behind the blocks and lines goes wrong for the whole source. */
  lemma {:induction false} RefusedThere(
    env: Env, path: seq<Level>, lines: seq<Line>, more: seq<Piece>, want: Option<Error>, line: nat)
    requires SaneClasses(env) && LevelsOkay(env, path, lines, 0) && (more != [] ==> more[0].OnNewLine?)
    requires
      var ts := TokensOfPath(path, lines, more, line);
      BadAt(env, ts, |ts| - 1 - |more|, |path|, want)
    ensures
      var ts := TokensOfPath(path, lines, more, line);
      Bad(ts, ReadNodes(env, ts, INITIAL), want)
  {
    hide ReadNodes, Laid, LayPath, LevelsOkay, BadAt, Bad;
    BadSourceIsRefused(env, TokensOfPath(path, lines, more, line), path, lines, more, want, line);
  }

  lemma {:induction false} StrayBrace(env: Env, ts: seq<Token>, items: seq<Piece>, at: int, rest: seq<Piece>)
    requires Carries(ts, items) && at >= -1 && PrintedAt(items, at, [OnNewLine("}")] + rest)
    ensures BadAt(env, ts, at, 0, Some(UnexpectedBrace))
  {
    hide Carries, PrintedAt;
    NextToken(ts, items, at, OnNewLine("}"), rest);
  }

  lemma {:induction false} BareBlock(
    env: Env, ts: seq<Token>, items: seq<Piece>, at: int, nesting: int, rest: seq<Piece>)
    requires Carries(ts, items) && at >= -1 && PrintedAt(items, at, [OnNewLine("{")] + rest)
    ensures BadAt(env, ts, at, nesting, Some(MissingHeader))
  {
    hide Carries, PrintedAt, ReadLines, ReadNode;
    NextToken(ts, items, at, OnNewLine("{"), rest);
    forall st: ConfigParser.State, res: seq<Node>, needLine: bool | st.cursor == at && st.nesting == nesting
      ensures Bad(ts, ReadLines(env, ts, st, res, needLine), Some(MissingHeader))
    {
      HeaderFails(env, ts, st.(cursor := at + 1), MissingHeader);
      LineFails(env, ts, st, res, needLine, MissingHeader);
    }
  }

  lemma {:induction false} BlockTooDeep(env: Env, ts: seq<Token>, st: ConfigParser.State, args: seq<string>)
    requires ArgOk(ts, st.cursor) && Val(ts, st.cursor + 1) == "{" && st.nesting > 255
    ensures ReadArgs(env, ts, st, args, Absent, false) == Err(NestingLimit)
  {}

  lemma {:induction false} TooDeepHere(
    env: Env, ts: seq<Token>, items: seq<Piece>, st: ConfigParser.State, res: seq<Node>, needLine: bool, level: Level,
    rest: seq<Piece>)
    requires SaneClasses(env) && Carries(ts, items) && st.cursor >= -1 && st.nesting > 255
    requires ValidName(env, level.name) && ArgsOkay(level.args)
    requires PrintedAt(items, st.cursor, LayOpen(level, false) + rest)
    ensures ReadLines(env, ts, st, res, needLine) == Err(NestingLimit)
  {
    hide *;
    var l, here := Directive(level.name, level.args, NoBody), st.(cursor := st.cursor + 1);
    var brace := [OnSameLine("{")] + rest;
    OpenParts(env, level, false, rest);
    NextToken(ts, items, st.cursor, LayHead(l, false), LayArgs(level.args) + brace);
    BeforeAll(ts, st.cursor);
    Starts(ts, st, needLine);
    NoBraces(level.args);
    ArgsAreRead(env, ts, items, here, [], level.args, brace);
    NextToken(ts, items, here.cursor + |LayArgs(level.args)|, OnSameLine("{"), rest);
    BlockTooDeep(env, ts, here.(cursor := here.cursor + |LayArgs(level.args)|), [] + ArgTexts(level.args));
    HeaderFails(env, ts, here, NestingLimit);
    LineFails(env, ts, st, res, needLine, NestingLimit);
  }

  lemma {:induction false} TooDeep(
    env: Env, ts: seq<Token>, items: seq<Piece>, at: int, nesting: int, level: Level, rest: seq<Piece>)
    requires SaneClasses(env) && Carries(ts, items) && at >= -1 && nesting > 255
    requires ValidName(env, level.name) && ArgsOkay(level.args) && PrintedAt(items, at, LayOpen(level, false) + rest)
    ensures BadAt(env, ts, at, nesting, Some(NestingLimit))
  {
    hide SaneClasses, Carries, ValidName, ArgsOkay, PrintedAt, ReadLines, LayOpen;
    forall st: ConfigParser.State, res: seq<Node>, needLine: bool | st.cursor == at && st.nesting == nesting
      ensures ReadLines(env, ts, st, res, needLine) == Err(NestingLimit)
    {
      TooDeepHere(env, ts, items, st, res, needLine, level, rest);
    }
  }

  lemma {:induction false} BeforeAll(ts: seq<Token>, at: int)
    ensures at < 0 ==> LineOk(ts, at)
  {}

  lemma {:induction false} DeclaredHere(
    env: Env, ts: seq<Token>, items: seq<Piece>, st: ConfigParser.State, res: seq<Node>, needLine: bool, l: Line,
    rest: seq<Piece>)
    requires SaneClasses(env) && Carries(ts, items) && st.cursor >= -1 && 0 < st.nesting <= 256
    requires PlainMacros(st.macros) && !l.Directive? && LineOkay(env, l, 256 - st.nesting, true)
    requires PrintedAt(items, st.cursor, [LayHead(l, false)] + (LayTail(l) + rest))
    requires st.cursor + 1 + |LayTail(l)| + |rest| == |items| - 1 && (rest != [] ==> rest[0].OnNewLine?)
    ensures ReadLines(env, ts, st, res, needLine) == Err(if l.MacroLine? then NestedMacro else NestedSnippet)
  {
    hide *;
    var here, children := st.(cursor := st.cursor + 1), MeantBody(st.macros, BodyOf(l));
    HeadPiece(l, false);
    NextToken(ts, items, st.cursor, LayHead(l, false), LayTail(l) + rest);
    BeforeAll(ts, st.cursor);
    Starts(ts, st, needLine);
    LineEndsThere(items, here.cursor, LayTail(l), rest);
    LineIsRead(env, ts, items, here, l, false, true);
    LineIsMade(env, l, children, false, 256 - st.nesting, true);
    DeclarationFails(
      env, l, children, here.(cursor := here.cursor + |LayTail(l)| + |LayTight(false)|), 256 - st.nesting);
    LineFails(env, ts, st, res, needLine, if l.MacroLine? then NestedMacro else NestedSnippet);
  }

  lemma {:induction false} DeclaredInside(
    env: Env, ts: seq<Token>, items: seq<Piece>, at: int, nesting: int, l: Line, rest: seq<Piece>)
    requires SaneClasses(env) && Carries(ts, items) && at >= -1 && 0 < nesting <= 256
    requires !l.Directive? && LineOkay(env, l, 256 - nesting, true)
    requires PrintedAt(items, at, [LayHead(l, false)] + (LayTail(l) + rest))
    requires at + 1 + |LayTail(l)| + |rest| == |items| - 1 && (rest != [] ==> rest[0].OnNewLine?)
    ensures BadAt(env, ts, at, nesting, Some(if l.MacroLine? then NestedMacro else NestedSnippet))
  {
    hide SaneClasses, Carries, LineOkay, PrintedAt, ReadLines, LayHead, LayTail, PlainMacros;
    forall st: ConfigParser.State, res: seq<Node>, needLine: bool
      | st.cursor == at && st.nesting == nesting && PlainMacros(st.macros)
      ensures ReadLines(env, ts, st, res, needLine) == Err(if l.MacroLine? then NestedMacro else NestedSnippet)
    {
      DeclaredHere(env, ts, items, st, res, needLine, l, rest);
    }
  }

  lemma {:induction false} LineEndsThere(items: seq<Piece>, at: int, part: seq<Piece>, rest: seq<Piece>)
    requires PrintedAt(items, at, part + rest) && at + |part| + |rest| == |items| - 1
    requires rest != [] ==> rest[0].OnNewLine?
    ensures PrintedAt(items, at, part + LayTight(false)) && LineEnds(items, at + |part| + |LayTight(false)|)
    ensures LayTight(false) == []
  {
    PrintedAtSplit(items, at, part, rest);
    assert part + LayTight(false) == part;
    if rest != [] { assert items[at + |part| + 1..at + |part| + 1 + |rest|][0] == rest[0]; }
  }

  lemma {:induction false} DeclarationFails(
    env: Env, l: Line, children: Children, st: ConfigParser.State, depth: nat)
    requires !l.Directive? && st.nesting > 0 && LineOkay(env, l, depth, true)
    ensures TakeNode(env, st, Raw(l, children, false)) == Err(if l.MacroLine? then NestedMacro else NestedSnippet)
  {
    if l.MacroLine? {
      var given := HeadArgs(l);
      assert given[|given| - 1] == l.args[|l.args| - 1];
      assert Raw(l, children, false).args[|l.args| - 1] == ArgText(l.args[|l.args| - 1].value);
    }
    hide ExpandMacros;
  }

  lemma {:induction false} OpenAtEnd(env: Env, ts: seq<Token>, nesting: int)
    requires nesting > 0 && ts != []
    ensures BadAt(env, ts, |ts| - 1, nesting, None)
  {}

  // ---------------------------------------------------------------------------
  // The theorems
  // ---------------------------------------------------------------------------

  /** A closing brace on the outermost level is refused, after whatever lines. */
  lemma {:induction false} StrayBraceIsRefused(env: Env, lines: seq<Line>, rest: seq<Piece>, line: nat)
    requires SaneClasses(env) && LinesOkay(env, lines, 256, true)
    ensures ReadNodes(env, TokensOfPath([], lines, [OnNewLine("}")] + rest, line), INITIAL) == Err(UnexpectedBrace)
  {
    hide ReadNodes, Laid, LayPath, LinesOkay, Carries, PrintedAt, BadAt;
    var more := [OnNewLine("}")] + rest;
    PrintedThere([], lines, more, line);
    var items, ts := LayPath([], lines, false, more), TokensOfPath([], lines, more, line);
    StrayBrace(env, ts, items, |ts| - 1 - |more|, rest);
    RefusedThere(env, [], lines, more, Some(UnexpectedBrace), line);
  }

  /** A block without a header is refused, at any depth. */
  lemma {:induction false} BareBlockIsRefused(
    env: Env, path: seq<Level>, lines: seq<Line>, rest: seq<Piece>, line: nat)
    requires SaneClasses(env) && LevelsOkay(env, path, lines, 0)
    ensures ReadNodes(env, TokensOfPath(path, lines, [OnNewLine("{")] + rest, line), INITIAL) == Err(MissingHeader)
  {
    hide ReadNodes, Laid, LayPath, LevelsOkay, Carries, PrintedAt, BadAt;
    var more := [OnNewLine("{")] + rest;
    PrintedThere(path, lines, more, line);
    var items, ts := LayPath(path, lines, false, more), TokensOfPath(path, lines, more, line);
    BareBlock(env, ts, items, |ts| - 1 - |more|, |path|, rest);
    RefusedThere(env, path, lines, more, Some(MissingHeader), line);
  }

  /** A block inside 256 others is refused; inside 255 it is read (`ConfigSource.SourceIsRead`). */
  lemma {:induction false} TooDeepIsRefused(
    env: Env, path: seq<Level>, lines: seq<Line>, level: Level, rest: seq<Piece>, line: nat)
    requires SaneClasses(env) && |path| == 256 && LevelsOkay(env, path, lines, 0)
    requires ValidName(env, level.name) && ArgsOkay(level.args)
    ensures ReadNodes(env, TokensOfPath(path, lines, LayOpen(level, false) + rest, line), INITIAL) == Err(NestingLimit)
  {
    hide ReadNodes, Laid, LayPath, LevelsOkay, Carries, PrintedAt, BadAt, ValidName, ArgsOkay, LayArgs;
    var more := LayOpen(level, false) + rest;
    PrintedThere(path, lines, more, line);
    var items, ts := LayPath(path, lines, false, more), TokensOfPath(path, lines, more, line);
    TooDeep(env, ts, items, |ts| - 1 - |more|, |path|, level, rest);
    RefusedThere(env, path, lines, more, Some(NestingLimit), line);
  }

  /** A macro or a snippet declared inside a block is refused, at any depth. */
  lemma {:induction false} DeclarationInsideIsRefused(
    env: Env, path: seq<Level>, lines: seq<Line>, l: Line, rest: seq<Piece>, line: nat)
    requires SaneClasses(env) && 0 < |path| <= 256 && LevelsOkay(env, path, lines, 0)
    requires !l.Directive? && LineOkay(env, l, 256 - |path|, true) && (rest != [] ==> rest[0].OnNewLine?)
    ensures ReadNodes(env, TokensOfPath(path, lines, [LayHead(l, false)] + (LayTail(l) + rest), line), INITIAL)
            == Err(if l.MacroLine? then NestedMacro else NestedSnippet)
  {
    hide ReadNodes, Laid, LayPath, LevelsOkay, Carries, PrintedAt, BadAt, LineOkay, LayTail;
    var more := [LayHead(l, false)] + (LayTail(l) + rest);
    PrintedThere(path, lines, more, line);
    var items, ts := LayPath(path, lines, false, more), TokensOfPath(path, lines, more, line);
    DeclaredInside(env, ts, items, |ts| - 1 - |more|, |path|, l, rest);
    RefusedThere(env, path, lines, more, Some(if l.MacroLine? then NestedMacro else NestedSnippet), line);
  }

  /** A file that ends inside a block is refused. */
  lemma {:induction false} UnclosedIsRefused(
    env: Env, path: seq<Level>, lines: seq<Line>, line: nat, location: string, depth: nat)
    requires SaneClasses(env) && path != [] && LevelsOkay(env, path, lines, 0)
    ensures ReadTree(env, TokensOfPath(path, lines, [], line), location, depth).Err?
  {
    hide ReadNodes, Laid, LayPath, LevelsOkay, BadAt, ExpandImports, PrintedAt, Carries;
    PrintedThere(path, lines, [], line);
    var ts := TokensOfPath(path, lines, [], line);
    PathIsLong(path, lines, false, []);
    OpenAtEnd(env, ts, |path|);
    RefusedThere(env, path, lines, [], None, line);
  }

  lemma {:induction false} PathIsLong(path: seq<Level>, lines: seq<Line>, hug: bool, more: seq<Piece>)
    requires path != []
    ensures LayPath(path, lines, hug, more) != []
  {}
}
