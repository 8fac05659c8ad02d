/**
 The recursive-descent configuration reader (framework/cfgparser/parse.go).

 The functions say what reading computes from a token list and a cursor; the class carries the
 cursor, the nesting level and the two tables, and is proved against them. Both terminate on
 every token list: each token consumed lowers `2 * remaining + |args|` even though an argument
 is gained, and a lone backslash lowers it by removing an argument.
 */
module ConfigParser {
  import opened Common
  import opened Lexer
  import opened Dispensing
  import opened ConfigTree

  datatype State = State(cursor: int, nesting: int, macros: Macros, snippets: Snippets)

  /** Tokens not yet passed by the cursor. */
  function Remaining(ts: seq<Token>, cursor: int): nat {
    if cursor < |ts| then |ts| - cursor else 0
  }

  predicate SnippetName(s: string) { HasPrefix(s, "(") && HasSuffix(s, ")") && |s| >= 2 }

  /** The name and arguments of a macro declaration; the empty name stands for "not a macro". */
  function ParseAsMacro(name: string, args: seq<string>): Result<(string, seq<string>), Error> {
    if !HasPrefix(name, "$(") then Ok(("", []))
    else if !HasSuffix(name, ")") then Err(MalformedMacro)
    else if |args| < 2 then Err(MalformedMacro)
    else if args[0] != "=" then Err(MalformedMacro)
    else Ok((MacroName(name), args[1..]))
  }

  /** What `readNode` makes of a header and a block once they are read. */
  function MakeNode(env: Env, written: string, args: seq<string>, children: Children): Result<Node, Error> {
    var snippet := SnippetName(written);
    var name := if snippet then written[1..|written| - 1] else written;
    match ParseAsMacro(name, args)
    case Err(e) => Err(e)
    case Ok((macroName, macroArgs)) =>
      if macroName != "" then Ok(Node(macroName, macroArgs, children, snippet, true))
      else if !snippet && !ValidName(env, name) then Err(NameError(env, name))
      else Ok(Node(name, args, children, snippet, false))
  }

  type Header = (seq<string>, Children, State)

  /** Whether the arguments end in the given word. */
  predicate EndsWith(args: seq<string>, word: string) { args != [] && args[|args| - 1] == word }

  function ReadNode(env: Env, ts: seq<Token>, st: State): (r: Result<(Node, State), Error>)
    ensures r.Ok? ==> r.value.1.cursor >= st.cursor
    decreases 2 * Remaining(ts, st.cursor), 2
  {
    if Val(ts, st.cursor) == "{" then Err(MissingHeader)
    else
      match ReadArgs(env, ts, st, [], Absent, false)
      case Err(e) => Err(e)
      case Ok((args, children, st')) =>
        match MakeNode(env, Val(ts, st.cursor), args, children)
        case Err(e) => Err(e)
        case Ok(n) => Ok((n, st'))
  }

  /** The arguments and the block of a node, from the cursor on. */
  function ReadArgs(
    env: Env, ts: seq<Token>, st: State, args: seq<string>, children: Children,
    continued: bool): (r: Result<Header, Error>)
    ensures r.Ok? ==> r.value.2.cursor >= st.cursor
    decreases 2 * Remaining(ts, st.cursor) + |args|, 1
  {
    if ArgOk(ts, st.cursor) || (continued && LineOk(ts, st.cursor)) then
      var st' := st.(cursor := st.cursor + 1);
      if Val(ts, st'.cursor) == "{" then
        match ReadNodes(env, ts, st')
        case Err(e) => Err(e)
        case Ok((ns, st'')) => EndOfLine(env, ts, st'', args, Block(ns))
      else ReadArgs(env, ts, st', args + [Val(ts, st'.cursor)], children, false)
    else EndOfLine(env, ts, st, args, children)
  }

  /** A lone backslash as the last argument continues the node on the next line. */
  function EndOfLine(
    env: Env, ts: seq<Token>, st: State, args: seq<string>, children: Children): (r: Result<Header, Error>)
    ensures r.Ok? ==> r.value.2.cursor >= st.cursor
    decreases 2 * Remaining(ts, st.cursor) + |args|, 0
  {
    if EndsWith(args, "\\") then ReadArgs(env, ts, st, args[..|args| - 1], children, true)
    else Ok((args, children, st))
  }

  /** A block, with the cursor on its opening brace. */
  function ReadNodes(env: Env, ts: seq<Token>, st: State): (r: Result<(seq<Node>, State), Error>)
    ensures r.Ok? ==> r.value.1.cursor >= st.cursor
    decreases 2 * Remaining(ts, st.cursor), 4
  {
    if st.nesting > 255 then Err(NestingLimit)
    else ReadLines(env, ts, st.(nesting := st.nesting + 1), [], false)
  }

  /** The logical lines of a block; `needLine` says that the next one must start a new line. */
  function ReadLines(
    env: Env, ts: seq<Token>, st: State, res: seq<Node>, needLine: bool): (r: Result<(seq<Node>, State), Error>)
    ensures r.Ok? ==> r.value.1.cursor >= st.cursor
    decreases 2 * Remaining(ts, st.cursor), 3
  {
    if needLine && !LineOk(ts, st.cursor) then
      if NextOk(ts, st.cursor) then Err(NewlineRequired) else Ok((res, st))
    else if !needLine && !NextOk(ts, st.cursor) then Ok((res, st))
    else
      var st1 := st.(cursor := st.cursor + 1);
      if Val(ts, st1.cursor) == "}" then
        if st1.nesting - 1 < 0 then Err(UnexpectedBrace)
        else Ok((res, st1.(nesting := st1.nesting - 1)))
      else
        match ReadNode(env, ts, st1)
        case Err(e) => Err(e)
        case Ok((n, st2)) =>
          match TakeNode(env, st2, n)
          case Err(e) => Err(e)
          case Ok(t) =>
            var res' := res + t.nodes;
            if t.stop then Ok((res', t.st)) else ReadLines(env, ts, t.st, res', true)
  }

  /** What a line contributes: at most one node, the tables after it, and whether it closes the block. */
  datatype Taken = Taken(nodes: seq<Node>, st: State, stop: bool)

  /** A closing brace as the last argument, then macro and snippet declarations, then plain nodes. */
  function TakeNode(env: Env, st: State, n: Node): (r: Result<Taken, Error>)
    ensures r.Ok? ==> r.value.st.cursor == st.cursor
  {
    var closes := EndsWith(n.args, "}");
    if closes && st.nesting - 1 < 0 then Err(UnexpectedBrace)
    else
      var st' := if closes then st.(nesting := st.nesting - 1) else st;
      var n' := if closes then n.(args := n.args[..|n.args| - 1]) else n;
      if n'.isMacro then
        if st'.nesting != 0 then Err(NestedMacro)
        else
          match ExpandMacros(env, st'.macros, n')
          case Err(e) => Err(e)
          case Ok(m) => Ok(Taken([], st'.(macros := st'.macros[m.name := m.args]), false))
      else if n'.snippet then
        if st'.nesting != 0 then Err(NestedSnippet)
        else if n'.args != [] then Err(SnippetArguments)
        else
          var body := if n'.children.Block? then n'.children.nodes else [];
          Ok(Taken([], st'.(snippets := st'.snippets[n'.name := body]), false))
      else
        match ExpandMacros(env, st'.macros, n')
        case Err(e) => Err(e)
        case Ok(m) => Ok(Taken([m], st', closes))
  }

  const INITIAL := State(-1, -1, map[], map[])

  // ---------------------------------------------------------------------------
  // One step of reading at a time
  // ---------------------------------------------------------------------------

  lemma {:induction false} ArgStep(env: Env, ts: seq<Token>, st: State, args: seq<string>)
    requires ArgOk(ts, st.cursor) && Val(ts, st.cursor + 1) != "{"
    ensures ReadArgs(env, ts, st, args, Absent, false)
            == ReadArgs(env, ts, st.(cursor := st.cursor + 1), args + [Val(ts, st.cursor + 1)], Absent, false)
  {}

  lemma {:induction false} ArgsEnd(env: Env, ts: seq<Token>, st: State, args: seq<string>)
    requires !ArgOk(ts, st.cursor) && !EndsWith(args, "\\")
    ensures ReadArgs(env, ts, st, args, Absent, false) == Ok((args, Absent, st))
  {}

  lemma {:induction false} ArgsBlock(env: Env, ts: seq<Token>, st: State, args: seq<string>, ns: seq<Node>, st': State)
    requires ArgOk(ts, st.cursor) && Val(ts, st.cursor + 1) == "{" && !EndsWith(args, "\\")
    requires ReadNodes(env, ts, st.(cursor := st.cursor + 1)) == Ok((ns, st'))
    ensures ReadArgs(env, ts, st, args, Absent, false) == Ok((args, Block(ns), st'))
  {}

  lemma {:induction false} BlockOfLines(env: Env, ts: seq<Token>, st: State, ns: seq<Node>, st': State)
    requires st.nesting <= 255
    requires ReadLines(env, ts, st.(nesting := st.nesting + 1), [], false) == Ok((ns, st'))
    ensures ReadNodes(env, ts, st) == Ok((ns, st'))
  {}

  lemma {:induction false} NodeFromHeader(env: Env, ts: seq<Token>, st: State, n: Node, st': State)
    requires Val(ts, st.cursor) == n.name && n.name != "{"
    requires ReadArgs(env, ts, st, [], Absent, false) == Ok((n.args, n.children, st'))
    requires MakeNode(env, n.name, n.args, n.children) == Ok(n)
    ensures ReadNode(env, ts, st) == Ok((n, st'))
  {}

  /** The next logical line can be started. */
  predicate Advances(ts: seq<Token>, st: State, needLine: bool) {
    if needLine then LineOk(ts, st.cursor) else NextOk(ts, st.cursor)
  }

  lemma {:induction false} LineStep(
    env: Env, ts: seq<Token>, st: State, res: seq<Node>, needLine: bool, n: Node, st': State)
    requires Advances(ts, st, needLine) && Val(ts, st.cursor + 1) != "}"
    requires ReadNode(env, ts, st.(cursor := st.cursor + 1)) == Ok((n, st'))
    requires TakeNode(env, st', n) == Ok(Taken([n], st', false))
    ensures ReadLines(env, ts, st, res, needLine) == ReadLines(env, ts, st', res + [n], true)
  {}

  lemma {:induction false} LinesClose(env: Env, ts: seq<Token>, st: State, res: seq<Node>, needLine: bool)
    requires Advances(ts, st, needLine) && Val(ts, st.cursor + 1) == "}" && st.nesting > 0
    ensures ReadLines(env, ts, st, res, needLine)
            == Ok((res, st.(cursor := st.cursor + 1, nesting := st.nesting - 1)))
  {}

  lemma {:induction false} LinesEnd(env: Env, ts: seq<Token>, st: State, res: seq<Node>, needLine: bool)
    requires st.cursor == |ts| - 1 && (needLine ==> st.cursor >= 0)
    ensures ReadLines(env, ts, st, res, needLine) == Ok((res, st))
  {}

  // ---------------------------------------------------------------------------
  // The reader itself
  // ---------------------------------------------------------------------------

  class ParseContext {
    const env: Env
    const input: Dispenser
    var nesting: int
    var macros: Macros
    var snippets: Snippets

    constructor (env: Env, tokens: seq<Token>)
      ensures this.env == env && input.tokens == tokens && fresh(input) && Now() == INITIAL
    {
      this.env := env;
      input := new Dispenser(tokens);
      nesting := -1;
      macros, snippets := map[], map[];
    }

    function Now(): State
      reads this, input
    {
      State(input.cursor, nesting, macros, snippets)
    }

    method ReadNodeHere() returns (r: Result<Node, Error>)
      modifies this, input
      ensures r.Ok? ==> ReadNode(env, input.tokens, old(Now())) == Ok((r.value, Now()))
      ensures r.Err? ==> ReadNode(env, input.tokens, old(Now())) == Err(r.error)
      decreases 2 * Remaining(input.tokens, input.cursor), 2
    {
      var written := Val(input.tokens, input.cursor);
      if written == "{" {
        return Err(MissingHeader);
      }
      var args: seq<string> := [];
      var children: Children := Absent;
      var continueOnLF := false;
      ghost var goal := ReadArgs(env, input.tokens, Now(), [], Absent, false);
      var reading := true;
      while reading
        invariant input.cursor >= old(input.cursor)
        invariant reading ==> goal == ReadArgs(env, input.tokens, Now(), args, children, continueOnLF)
        invariant !reading ==> goal == Ok((args, children, Now()))
        decreases reading, 2 * Remaining(input.tokens, input.cursor) + |args|
      {
        var more := input.NextArg();
        if !more && continueOnLF {
          more := input.NextLine();
        }
        if more {
          continueOnLF := false;
          if Val(input.tokens, input.cursor) != "{" {
            args := args + [Val(input.tokens, input.cursor)];
            continue;
          }
          var block := ReadBlock();
          if block.Err? {
            return Err(block.error);
          }
          children := Block(block.value);
        }
        if |args| != 0 && args[|args| - 1] == "\\" {
          args := args[..|args| - 1];
          continueOnLF := true;
          continue;
        }
        reading := false;
      }
      return MakeNode(env, written, args, children);
    }

    method ReadBlock() returns (r: Result<seq<Node>, Error>)
      modifies this, input
      ensures r.Ok? ==> ReadNodes(env, input.tokens, old(Now())) == Ok((r.value, Now()))
      ensures r.Err? ==> ReadNodes(env, input.tokens, old(Now())) == Err(r.error)
      decreases 2 * Remaining(input.tokens, input.cursor), 4
    {
      hide ReadNode, TakeNode, ArgOk;
      if nesting > 255 {
        return Err(NestingLimit);
      }
      nesting := nesting + 1;
      var res: seq<Node> := [];
      var requireNewLine := false;
      ghost var goal := ReadLines(env, input.tokens, Now(), [], false);
      while true
        invariant input.cursor >= old(input.cursor)
        invariant goal == ReadLines(env, input.tokens, Now(), res, requireNewLine)
        decreases Remaining(input.tokens, input.cursor)
      {
        if requireNewLine {
          var line := input.NextLine();
          if !line {
            var next := input.Next();
            if next {
              return Err(NewlineRequired);
            }
            return Ok(res);
          }
        } else {
          var next := input.Next();
          if !next {
            return Ok(res);
          }
        }
        if Val(input.tokens, input.cursor) == "}" {
          nesting := nesting - 1;
          if nesting < 0 {
            return Err(UnexpectedBrace);
          }
          return Ok(res);
        }
        var node := ReadNodeHere();
        if node.Err? {
          return Err(node.error);
        }
        requireNewLine := true;
        var taken := Take(node.value);
        if taken.Err? {
          return Err(taken.error);
        }
        res := res + taken.value.0;
        if taken.value.1 {
          return Ok(res);
        }
      }
      return Ok(res);
    }

    /** The part of the loop body that follows `readNode`. */
    method Take(read: Node) returns (r: Result<(seq<Node>, bool), Error>)
      modifies this
      ensures r.Ok? ==> TakeNode(env, old(Now()), read) == Ok(Taken(r.value.0, Now(), r.value.1))
      ensures r.Err? ==> TakeNode(env, old(Now()), read) == Err(r.error)
    {
      var node := read;
      var shouldStop := false;
      if |node.args| != 0 && node.args[|node.args| - 1] == "}" {
        if nesting - 1 < 0 {
          return Err(UnexpectedBrace);
        }
        nesting := nesting - 1;
        node := node.(args := node.args[..|node.args| - 1]);
        shouldStop := true;
      }
      if node.isMacro {
        if nesting != 0 {
          return Err(NestedMacro);
        }
        var m := ExpandMacros(env, macros, node);
        if m.Err? {
          return Err(m.error);
        }
        macros := macros[m.value.name := m.value.args];
        return Ok(([], false));
      }
      if node.snippet {
        if nesting != 0 {
          return Err(NestedSnippet);
        }
        if |node.args| != 0 {
          return Err(SnippetArguments);
        }
        snippets := snippets[node.name := if node.children.Block? then node.children.nodes else []];
        return Ok(([], false));
      }
      var m := ExpandMacros(env, macros, node);
      if m.Err? {
        return Err(m.error);
      }
      return Ok(([m.value], shouldStop));
    }
  }
}
