/** Configuration nodes, directive names and macro expansion (framework/cfgparser). */
module ConfigTree {
  import opened Common

  datatype Error =
    | EmptyName | NameStartsWithDigit | BadNameCharacter
    | MacroAsName | MalformedMacro | MultiValueMacro
    | MissingHeader | NestingLimit | NewlineRequired | UnexpectedBrace | UnclosedBlock
    | NestedMacro | NestedSnippet | SnippetArguments
    | ImportLimit | ImportArguments | UnknownImport | UnreadableImport

  /** A directive without a block is told apart from one with an empty block. */
  datatype Children = Absent | Block(nodes: seq<Node>)

  datatype Node = Node(name: string, args: seq<string>, children: Children, snippet: bool, isMacro: bool)

  type Macros = map<string, seq<string>>
  type Snippets = map<string, seq<Node>>

  /**
   What the parser takes from outside: Unicode classes, expansion of macros embedded in a
   longer argument (a regular-expression rewrite), path joining and the file system.
   */
  datatype Env = Env(
    isLetter: char -> bool,
    isDigit: char -> bool,
    expandEmbedded: (Macros, string) -> Result<string, Error>,
    join: (string, string) -> string,
    open: string -> FileStatus)

  datatype FileStatus = Missing | Unreadable | Readable(content: string)

  predicate NameChar(env: Env, c: char) {
    env.isLetter(c) || env.isDigit(c) || c == '.' || c == '-' || c == '_'
  }

  /** `validateNodeName` accepts the name. */
  predicate ValidName(env: Env, s: string) {
    s != "" && !env.isDigit(s[0]) && forall i :: 0 <= i < |s| ==> NameChar(env, s[i])
  }

  /** What is wrong with a name that is not valid. */
  function NameError(env: Env, s: string): Error {
    if s == "" then EmptyName else if env.isDigit(s[0]) then NameStartsWithDigit else BadNameCharacter
  }

  method ValidateNodeName(env: Env, s: string) returns (r: Result<(), Error>)
    ensures r.Ok? <==> ValidName(env, s)
    ensures r.Err? ==> r.error == NameError(env, s)
    ensures r == Err(EmptyName) <==> s == ""
    ensures r == Err(NameStartsWithDigit) <==> s != "" && env.isDigit(s[0])
  {
    if |s| == 0 {
      return Err(EmptyName);
    }
    if env.isDigit(s[0]) {
      return Err(NameStartsWithDigit);
    }
    for i := 0 to |s|
      invariant forall j :: 0 <= j < i ==> NameChar(env, s[j])
    {
      var ch := s[i];
      if !env.isLetter(ch) && !env.isDigit(ch) && ch !in {'.', '-', '_'} {
        assert !NameChar(env, s[i]);
        return Err(BadNameCharacter);
      }
    }
    return Ok(());
  }

  // ---------------------------------------------------------------------------
  // Macros
  // ---------------------------------------------------------------------------

  /** `$(name)`. */
  predicate MacroRef(s: string) {
    HasPrefix(s, "$(") && HasSuffix(s, ")")
  }

  lemma {:induction false} MacroRefLength(s: string)
    requires MacroRef(s)
    ensures |s| >= 3
  {
    assert s[1] == s[..2][1] == '(';
    assert s[|s| - 1] == s[|s| - 1..][0] == ')';
  }

  function MacroName(s: string): string
    requires MacroRef(s)
  {
    MacroRefLength(s);
    s[2..|s| - 1]
  }

  /** The arguments one written argument stands for; an undefined macro stands for none. */
  function ExpandArg(env: Env, macros: Macros, arg: string): Result<seq<string>, Error> {
    if MacroRef(arg) then
      Ok(if MacroName(arg) in macros then macros[MacroName(arg)] else [])
    else if Contains(arg, "$(") && Contains(arg, ")") then
      match env.expandEmbedded(macros, arg)
      case Err(e) => Err(e)
      case Ok(a) => Ok([a])
    else Ok([arg])
  }

  function ExpandArgs(env: Env, macros: Macros, args: seq<string>): Result<seq<string>, Error> {
    if args == [] then Ok([])
    else
      match ExpandArg(env, macros, args[0])
      case Err(e) => Err(e)
      case Ok(a) =>
        match ExpandArgs(env, macros, args[1..])
        case Err(e) => Err(e)
        case Ok(rest) => Ok(a + rest)
  }

  /** `expandMacros`. */
  function ExpandMacros(env: Env, macros: Macros, n: Node): Result<Node, Error>
    decreases n, 1
  {
    if MacroRef(n.name) then Err(MacroAsName)
    else
      match ExpandArgs(env, macros, n.args)
      case Err(e) => Err(e)
      case Ok(args) =>
        if n.children.Absent? then Ok(n.(args := args))
        else
          match ExpandMacrosAll(env, macros, n.children.nodes)
          case Err(e) => Err(e)
          case Ok(ch) => Ok(n.(args := args, children := Block(ch)))
  }

  function ExpandMacrosAll(env: Env, macros: Macros, ns: seq<Node>): Result<seq<Node>, Error>
    decreases ns, 0
  {
    if ns == [] then Ok([])
    else
      match ExpandMacros(env, macros, ns[0])
      case Err(e) => Err(e)
      case Ok(n) =>
        match ExpandMacrosAll(env, macros, ns[1..])
        case Err(e) => Err(e)
        case Ok(rest) => Ok([n] + rest)
  }

  /** No argument in the tree mentions a macro and no name is a macro reference. */
  predicate MacroFree(n: Node)
    decreases n, 1
  {
    && !MacroRef(n.name)
    && (forall i :: 0 <= i < |n.args| ==> !Contains(n.args[i], "$("))
    && (n.children.Block? ==> MacroFreeAll(n.children.nodes))
  }

  predicate MacroFreeAll(ns: seq<Node>)
    decreases ns, 0
  {
    ns == [] || (MacroFree(ns[0]) && MacroFreeAll(ns[1..]))
  }

  lemma {:induction false} PlainArgsExpandToThemselves(env: Env, macros: Macros, args: seq<string>)
    requires forall i :: 0 <= i < |args| ==> !Contains(args[i], "$(")
    ensures ExpandArgs(env, macros, args) == Ok(args)
  {
    if args != [] {
      PlainArgsExpandToThemselves(env, macros, args[1..]);
      if |args[0]| >= 2 {
        assert OccursAt(args[0], "$(", 0) == HasPrefix(args[0], "$(");
      }
      assert [args[0]] + args[1..] == args;
    }
  }

  /** Macro expansion leaves a macro-free tree as it is, with absent and empty blocks kept apart. */
  lemma {:induction false} MacroFreeUnchanged(env: Env, macros: Macros, n: Node)
    requires MacroFree(n)
    ensures ExpandMacros(env, macros, n) == Ok(n)
    decreases n, 1
  {
    PlainArgsExpandToThemselves(env, macros, n.args);
    if n.children.Block? {
      MacroFreeAllUnchanged(env, macros, n.children.nodes);
    }
  }

  lemma {:induction false} MacroFreeAllUnchanged(env: Env, macros: Macros, ns: seq<Node>)
    requires MacroFreeAll(ns)
    ensures ExpandMacrosAll(env, macros, ns) == Ok(ns)
    decreases ns, 0
  {
    if ns != [] {
      MacroFreeUnchanged(env, macros, ns[0]);
      MacroFreeAllUnchanged(env, macros, ns[1..]);
      assert [ns[0]] + ns[1..] == ns;
    }
  }
}
