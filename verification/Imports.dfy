/**
 Import expansion (framework/cfgparser/imports.go) and the reading of a whole file
 (`readTree` in framework/cfgparser/parse.go).

 Expansion terminates for every snippet table and every file system: each call lowers
 (levels left before the limit, size of the tree), also when it makes another pass over its own
 result and when it reads another file.
 */
module Imports {
  import opened Common
  import opened Lexer
  import opened ConfigTree
  import opened ConfigParser

  datatype Context = Context(snippets: Snippets, macros: Macros, location: string)

  const IMPORT := "import"

  /** Expansion levels left before the limit. */
  function Room(depth: nat): nat { if depth < 256 then 256 - depth else 0 }

  function ExpandImports(env: Env, ctx: Context, n: Node, depth: nat): (r: Result<(Node, Context), Error>)
    ensures r.Ok? ==> r.value.0 == n.(children := r.value.0.children)
    ensures r.Ok? ==> r.value.0.children.Block? == n.children.Block?
    decreases 2 * Room(depth), n, 1
  {
    if n.children.Absent? then Ok((n, ctx))
    else
      match ExpandChildren(env, ctx, n.children.nodes, depth)
      case Err(e) => Err(e)
      case Ok(p) =>
        var n' := n.(children := Block(p.nodes));
        // Another pass expands the imports that the snippets brought in.
        if p.found then ExpandImports(env, p.ctx, n', depth + 1) else Ok((n', p.ctx))
  }

  /** One pass over the children: the new children, whether there was an import, the tables after it. */
  datatype Pass = Pass(nodes: seq<Node>, found: bool, ctx: Context)

  function ExpandChildren(env: Env, ctx: Context, ns: seq<Node>, depth: nat): (r: Result<Pass, Error>)
    ensures r.Ok? && r.value.found ==> depth <= 255
    decreases 2 * Room(depth), ns, 0
  {
    if ns == [] then Ok(Pass([], false, ctx))
    else
      match ExpandImports(env, ctx, ns[0], depth + 1)
      case Err(e) => Err(e)
      case Ok((child, ctx1)) =>
        match ExpandChild(env, ctx1, child, depth)
        case Err(e) => Err(e)
        case Ok((nodes, ctx2)) =>
          match ExpandChildren(env, ctx2, ns[1..], depth)
          case Err(e) => Err(e)
          case Ok(p) => Ok(Pass(nodes + p.nodes, child.name == IMPORT || p.found, p.ctx))
  }

  /** What stands in place of a child whose own children are already expanded. */
  function ExpandChild(env: Env, ctx: Context, child: Node, depth: nat): (r: Result<(seq<Node>, Context), Error>)
    ensures r.Ok? && child.name == IMPORT ==> depth <= 255
    decreases 2 * Room(depth) - 1, 1
  {
    if child.name != IMPORT then Ok(([child], ctx))
    else if depth > 255 then Err(ImportLimit)
    else if |child.args| != 1 then Err(ImportArguments)
    else ResolveImport(env, ctx, child.args[0], depth)
  }

  function ResolveImport(env: Env, ctx: Context, name: string, depth: nat): Result<(seq<Node>, Context), Error>
    requires depth <= 255
    decreases 2 * Room(depth) - 1, 0
  {
    if name in ctx.snippets then Ok((ctx.snippets[name], ctx))
    else
      var file := env.join(ctx.location, name);
      match OpenImport(env, file)
      case Missing => Err(UnknownImport)
      case Unreadable => Err(UnreadableImport)
      case Readable(content) =>
        match ReadTree(env, Tokens(content), file, depth + 1)
        case Err(e) => Err(e)
        case Ok((nodes, ctx')) =>
          Ok((nodes, ctx.(snippets := ctx.snippets + ctx'.snippets, macros := ctx.macros + ctx'.macros)))
  }

  /** A missing file is looked for once more with the `.conf` suffix. */
  function OpenImport(env: Env, file: string): FileStatus {
    if env.open(file).Missing? then env.open(file + ".conf") else env.open(file)
  }

  function ReadTree(env: Env, ts: seq<Token>, location: string, depth: nat): Result<(seq<Node>, Context), Error>
    decreases 2 * Room(depth)
  {
    match ReadNodes(env, ts, INITIAL)
    case Err(e) => Err(e)
    case Ok((ns, st)) =>
      if st.nesting > 0 then Err(UnclosedBlock)
      else
        match ExpandImports(env, Context(st.snippets, st.macros, location), Root(ns), depth)
        case Err(e) => Err(e)
        case Ok((root, ctx)) => Ok((root.children.nodes, ctx))
  }

  function Root(ns: seq<Node>): Node { Node("", [], Block(ns), false, false) }

  // ---------------------------------------------------------------------------
  // No import is left, and expanding again changes nothing
  // ---------------------------------------------------------------------------

  predicate ImportFree(n: Node)
    decreases n, 1
  {
    n.name != IMPORT && ImportFreeBelow(n)
  }

  predicate ImportFreeBelow(n: Node)
    decreases n, 0
  {
    n.children.Block? ==> ImportFreeAll(n.children.nodes)
  }

  predicate ImportFreeAll(ns: seq<Node>)
    decreases ns, 0
  {
    ns == [] || (ImportFree(ns[0]) && ImportFreeAll(ns[1..]))
  }

  /** Whenever expansion succeeds, no directive named `import` is left anywhere below the root. */
  lemma {:induction false} NoImportRemains(env: Env, ctx: Context, n: Node, depth: nat)
    requires ExpandImports(env, ctx, n, depth).Ok?
    ensures ImportFreeBelow(ExpandImports(env, ctx, n, depth).value.0)
    decreases 2 * Room(depth), n, 1
  {
    if n.children.Block? {
      var p := ExpandChildren(env, ctx, n.children.nodes, depth).value;
      if p.found {
        NoImportRemains(env, p.ctx, n.(children := Block(p.nodes)), depth + 1);
      } else {
        PassWithoutImport(env, ctx, n.children.nodes, depth);
      }
    }
  }

  lemma {:induction false} PassWithoutImport(env: Env, ctx: Context, ns: seq<Node>, depth: nat)
    requires ExpandChildren(env, ctx, ns, depth).Ok? && !ExpandChildren(env, ctx, ns, depth).value.found
    ensures ImportFreeAll(ExpandChildren(env, ctx, ns, depth).value.nodes)
    decreases 2 * Room(depth), ns, 0
  {
    if ns != [] {
      NoImportRemains(env, ctx, ns[0], depth + 1);
      var (child, ctx1) := ExpandImports(env, ctx, ns[0], depth + 1).value;
      PassWithoutImport(env, ctx1, ns[1..], depth);
      var rest := ExpandChildren(env, ctx1, ns[1..], depth).value.nodes;
      assert ([child] + rest)[1..] == rest;
    }
  }

  /** An import-free tree expands to itself, at every depth and with every table. */
  lemma {:induction false} ImportFreeExpandsToItself(env: Env, ctx: Context, n: Node, depth: nat)
    requires ImportFreeBelow(n)
    ensures ExpandImports(env, ctx, n, depth) == Ok((n, ctx))
    decreases n, 1
  {
    if n.children.Block? {
      ImportFreePass(env, ctx, n.children.nodes, depth);
    }
  }

  lemma {:induction false} ImportFreePass(env: Env, ctx: Context, ns: seq<Node>, depth: nat)
    requires ImportFreeAll(ns)
    ensures ExpandChildren(env, ctx, ns, depth) == Ok(Pass(ns, false, ctx))
    decreases ns, 0
  {
    if ns != [] {
      ImportFreeExpandsToItself(env, ctx, ns[0], depth + 1);
      ImportFreePass(env, ctx, ns[1..], depth);
      assert [ns[0]] + ns[1..] == ns;
    }
  }

  /** Expanding a result again, at any depth and with any table, returns it unchanged. */
  lemma {:induction false} ExpansionIsIdempotent(
    env: Env, ctx: Context, n: Node, depth: nat, ctx': Context, depth': nat)
    requires ExpandImports(env, ctx, n, depth).Ok?
    ensures var t := ExpandImports(env, ctx, n, depth).value.0;
            ExpandImports(env, ctx', t, depth') == Ok((t, ctx'))
  {
    NoImportRemains(env, ctx, n, depth);
    ImportFreeExpandsToItself(env, ctx', ExpandImports(env, ctx, n, depth).value.0, depth');
  }

  // ---------------------------------------------------------------------------
  // A smaller starting depth gives the same tree
  // ---------------------------------------------------------------------------

  /** If expansion succeeds from some depth, it gives the same tree and tables from every smaller one. */
  lemma {:induction false} ShallowerGivesSame(env: Env, ctx: Context, n: Node, depth: nat, less: nat)
    requires less <= depth && ExpandImports(env, ctx, n, depth).Ok?
    ensures ExpandImports(env, ctx, n, less) == ExpandImports(env, ctx, n, depth)
    decreases 2 * Room(depth), n, 1
  {
    if n.children.Block? {
      ShallowerPass(env, ctx, n.children.nodes, depth, less);
      var p := ExpandChildren(env, ctx, n.children.nodes, depth).value;
      if p.found {
        ShallowerGivesSame(env, p.ctx, n.(children := Block(p.nodes)), depth + 1, less + 1);
      }
    }
  }

  lemma {:induction false} ShallowerPass(env: Env, ctx: Context, ns: seq<Node>, depth: nat, less: nat)
    requires less <= depth && ExpandChildren(env, ctx, ns, depth).Ok?
    ensures ExpandChildren(env, ctx, ns, less) == ExpandChildren(env, ctx, ns, depth)
    decreases 2 * Room(depth), ns, 0
  {
    if ns != [] {
      ShallowerGivesSame(env, ctx, ns[0], depth + 1, less + 1);
      var (child, ctx1) := ExpandImports(env, ctx, ns[0], depth + 1).value;
      ShallowerChild(env, ctx1, child, depth, less);
      var (nodes, ctx2) := ExpandChild(env, ctx1, child, depth).value;
      ShallowerPass(env, ctx2, ns[1..], depth, less);
    }
  }

  lemma {:induction false} ShallowerChild(env: Env, ctx: Context, child: Node, depth: nat, less: nat)
    requires less <= depth && ExpandChild(env, ctx, child, depth).Ok?
    ensures ExpandChild(env, ctx, child, less) == ExpandChild(env, ctx, child, depth)
    decreases 2 * Room(depth) - 1, 1
  {
    if child.name == IMPORT && child.args[0] !in ctx.snippets {
      var file := env.join(ctx.location, child.args[0]);
      ShallowerFile(env, Tokens(OpenImport(env, file).content), file, depth + 1, less + 1);
    }
  }

  lemma {:induction false} ShallowerFile(env: Env, ts: seq<Token>, location: string, depth: nat, less: nat)
    requires less <= depth && ReadTree(env, ts, location, depth).Ok?
    ensures ReadTree(env, ts, location, less) == ReadTree(env, ts, location, depth)
    decreases 2 * Room(depth)
  {
    var (ns, st) := ReadNodes(env, ts, INITIAL).value;
    ShallowerGivesSame(env, Context(st.snippets, st.macros, location), Root(ns), depth, less);
  }
}
