/**
 What importing a file contributes (framework/cfgparser/imports.go:77-112): its directives in place of the
 import, with everything the file itself imports, and its snippets and macros for what follows.
 */
module ImportFiles {
  import opened Common
  import opened Lexer
  import opened ConfigTree
  import opened ConfigPrinting
  import opened Imports
  import opened ImportMeaning

  function ImportOf(name: string): Node { Node(IMPORT, [name], Absent, false, false) }

  /** The content is found under the name of the file, or there is no such file and it is found under `.conf`. */
  predicate HasContent(env: Env, file: string, content: string) {
    || env.open(file) == Readable(content)
    || (env.open(file).Missing? && env.open(file + ".conf") == Readable(content))
  }

  /** The name is no snippet, and the file of that name next to the importing one reads as these nodes and tables. */
  predicate FileGives(
    env: Env, ctx: Context, name: string, depth: nat, nodes: seq<Node>, inner: Context, content: string)
  {
    && name !in ctx.snippets && HasContent(env, env.join(ctx.location, name), content)
    && ReadTree(env, Tokens(content), env.join(ctx.location, name), depth) == Ok((nodes, inner))
  }

  /** The tables after the import: entries of the file replace those that were there. */
  predicate TablesJoined(before: Context, inner: Context, later: Context) {
    && later.location == before.location
    && later.snippets.Keys == before.snippets.Keys + inner.snippets.Keys
    && later.macros.Keys == before.macros.Keys + inner.macros.Keys
    && (forall k :: k in later.snippets ==>
          later.snippets[k] == if k in inner.snippets then inner.snippets[k] else before.snippets[k])
    && (forall k :: k in later.macros ==>
          later.macros[k] == if k in inner.macros then inner.macros[k] else before.macros[k])
  }

  lemma {:induction false} FileIsRead(
    env: Env, ctx: Context, name: string, depth: nat, nodes: seq<Node>, inner: Context, content: string)
    requires depth <= 255 && FileGives(env, ctx, name, depth + 1, nodes, inner, content)
    ensures ResolveImport(env, ctx, name, depth).Ok?
    ensures var (ns, later) := ResolveImport(env, ctx, name, depth).value;
            ns == nodes && TablesJoined(ctx, inner, later)
    ensures ImportFreeAll(nodes)
  {
    hide ReadTree, Tokens;
    TreeIsImportFree(env, Tokens(content), env.join(ctx.location, name), depth + 1);
    assert OpenImport(env, env.join(ctx.location, name)) == Readable(content);
  }

  /** What a file reads as has no imports left. */
  lemma {:induction false} TreeIsImportFree(env: Env, ts: seq<Token>, location: string, depth: nat)
    requires ReadTree(env, ts, location, depth).Ok?
    ensures ImportFreeAll(ReadTree(env, ts, location, depth).value.0)
  {
    var (ns, st) := ConfigParser.ReadNodes(env, ts, ConfigParser.INITIAL).value;
    hide ConfigParser.ReadNodes, ExpandImports;
    NoImportRemains(env, Context(st.snippets, st.macros, location), Root(ns), depth);
  }

  lemma {:induction false} PassOverOne(env: Env, ctx: Context, n: Node, rest: seq<Node>, depth: nat)
    requires ImportFree(n) && ExpandChildren(env, ctx, rest, depth).Ok?
    ensures var p := ExpandChildren(env, ctx, rest, depth).value;
            ExpandChildren(env, ctx, [n] + rest, depth) == Ok(Pass([n] + p.nodes, p.found, p.ctx))
  {
    ImportFreeExpandsToItself(env, ctx, n, depth + 1);
    hide ExpandImports;
    assert ([n] + rest)[1..] == rest;
    assert n.name != IMPORT;
  }

  /** A pass leaves nodes without imports where they are. */
  lemma {:induction false} PassOver(env: Env, ctx: Context, a: seq<Node>, rest: seq<Node>, depth: nat)
    requires ImportFreeAll(a) && ExpandChildren(env, ctx, rest, depth).Ok?
    ensures var p := ExpandChildren(env, ctx, rest, depth).value;
            ExpandChildren(env, ctx, a + rest, depth) == Ok(Pass(a + p.nodes, p.found, p.ctx))
    decreases |a|
  {
    hide ExpandChildren, ImportFree;
    var p := ExpandChildren(env, ctx, rest, depth).value;
    if a == [] {
      assert a + rest == rest && a + p.nodes == p.nodes;
    } else {
      PassOver(env, ctx, a[1..], rest, depth);
      PassOverOne(env, ctx, a[0], a[1..] + rest, depth);
      assert [a[0]] + (a[1..] + rest) == a + rest;
      assert [a[0]] + (a[1..] + p.nodes) == a + p.nodes;
    }
  }

  /** A pass puts what an import resolves to in its place, and goes on with the tables it gives. */
  lemma {:induction false} PassImports(env: Env, ctx: Context, name: string, rest: seq<Node>, depth: nat)
    requires depth <= 255 && ResolveImport(env, ctx, name, depth).Ok?
    requires ExpandChildren(env, ResolveImport(env, ctx, name, depth).value.1, rest, depth).Ok?
    ensures var (nodes, ctx1) := ResolveImport(env, ctx, name, depth).value;
            var p := ExpandChildren(env, ctx1, rest, depth).value;
            ExpandChildren(env, ctx, [ImportOf(name)] + rest, depth) == Ok(Pass(nodes + p.nodes, true, p.ctx))
  {
    hide ResolveImport;
    assert ([ImportOf(name)] + rest)[1..] == rest;
    assert ExpandImports(env, ctx, ImportOf(name), depth + 1) == Ok((ImportOf(name), ctx));
  }

  lemma {:induction false} ImportFreeConcat(a: seq<Node>, b: seq<Node>)
    requires ImportFreeAll(a) && ImportFreeAll(b)
    ensures ImportFreeAll(a + b)
  {
    if a == [] {
      assert a + b == b;
    } else {
      ImportFreeConcat(a[1..], b);
      assert (a + b)[1..] == a[1..] + b && (a + b)[0] == a[0];
    }
  }

  /** After a pass whose result has no imports, expansion is over. */
  lemma {:induction false} OnePass(env: Env, ctx: Context, ns: seq<Node>, p: Pass, depth: nat)
    requires ExpandChildren(env, ctx, ns, depth) == Ok(p) && ImportFreeAll(p.nodes)
    ensures ExpandImports(env, ctx, Root(ns), depth) == Ok((Root(p.nodes), p.ctx))
  {
    ImportFreeExpandsToItself(env, p.ctx, Root(p.nodes), depth + 1);
    hide ExpandChildren;
  }

  /**
   A file that can be read contributes, in place of the import and among whatever other directives, what it
   reads as on its own one level deeper, and its snippets and macros.
   */
  lemma {:induction false} FileIsSpliced(
    env: Env, ctx: Context, a: seq<Node>, name: string, b: seq<Node>, depth: nat, nodes: seq<Node>, inner: Context,
    content: string)
    requires ImportFreeAll(a) && ImportFreeAll(b) && depth <= 255
    requires FileGives(env, ctx, name, depth + 1, nodes, inner, content)
    ensures exists later :: TablesJoined(ctx, inner, later) &&
              ExpandImports(env, ctx, Root(a + ([ImportOf(name)] + b)), depth) == Ok((Root(a + (nodes + b)), later))
  {
    hide *;
    FileIsRead(env, ctx, name, depth, nodes, inner, content);
    var later := ResolveImport(env, ctx, name, depth).value.1;
    ImportFreePass(env, later, b, depth);
    PassImports(env, ctx, name, b, depth);
    PassOver(env, ctx, a, [ImportOf(name)] + b, depth);
    ImportFreeConcat(nodes, b);
    ImportFreeConcat(a, nodes + b);
    OnePass(env, ctx, a + ([ImportOf(name)] + b), Pass(a + (nodes + b), true, later), depth);
  }

  /** A snippet contributes its body, and leaves the tables as they are. */
  lemma {:induction false} SnippetIsSpliced(
    env: Env, ctx: Context, a: seq<Node>, name: string, b: seq<Node>, depth: nat)
    requires ImportFreeAll(a) && ImportFreeAll(b) && depth <= 255
    requires name in ctx.snippets && ImportFreeAll(ctx.snippets[name])
    ensures ExpandImports(env, ctx, Root(a + ([ImportOf(name)] + b)), depth)
            == Ok((Root(a + (ctx.snippets[name] + b)), ctx))
  {
    assert ResolveImport(env, ctx, name, depth) == Ok((ctx.snippets[name], ctx));
    hide *;
    var body := ctx.snippets[name];
    ImportFreePass(env, ctx, b, depth);
    PassImports(env, ctx, name, b, depth);
    PassOver(env, ctx, a, [ImportOf(name)] + b, depth);
    ImportFreeConcat(body, b);
    ImportFreeConcat(a, body + b);
    OnePass(env, ctx, a + ([ImportOf(name)] + b), Pass(a + (body + b), true, ctx), depth);
  }

  /** Past the limit an import fails, whatever it is of; and it takes exactly one argument. */
  lemma {:induction false} ImportRefused(env: Env, ctx: Context, child: Node, rest: seq<Node>, depth: nat)
    requires child.name == IMPORT && child.children.Absent? && (depth > 255 || |child.args| != 1)
    ensures ExpandImports(env, ctx, Root([child] + rest), depth)
            == Err(if depth > 255 then ImportLimit else ImportArguments)
  {
    var e := if depth > 255 then ImportLimit else ImportArguments;
    assert ExpandImports(env, ctx, child, depth + 1) == Ok((child, ctx));
    assert ExpandChild(env, ctx, child, depth) == Err(e);
    hide *;
    PassFails(env, ctx, child, rest, depth, e);
    RootFails(env, ctx, [child] + rest, depth, e);
  }

  lemma {:induction false} PassFails(env: Env, ctx: Context, child: Node, rest: seq<Node>, depth: nat, e: Error)
    requires ExpandImports(env, ctx, child, depth + 1) == Ok((child, ctx))
    requires ExpandChild(env, ctx, child, depth) == Err(e)
    ensures ExpandChildren(env, ctx, [child] + rest, depth) == Err(e)
  {
    hide ExpandImports, ExpandChild;
  }

  lemma {:induction false} RootFails(env: Env, ctx: Context, ns: seq<Node>, depth: nat, e: Error)
    requires ExpandChildren(env, ctx, ns, depth) == Err(e)
    ensures ExpandImports(env, ctx, Root(ns), depth) == Err(e)
  {
    hide ExpandChildren;
  }

  /** A snippet that an imported file declares can be imported after the file. */
  lemma {:induction false} SnippetOfFile(
    env: Env, ctx: Context, name: string, snippet: string, depth: nat, nodes: seq<Node>, inner: Context,
    content: string)
    requires depth <= 255 && FileGives(env, ctx, name, depth + 1, nodes, inner, content)
    requires snippet in inner.snippets && ImportFreeAll(inner.snippets[snippet])
    ensures exists later :: TablesJoined(ctx, inner, later) &&
              ExpandImports(env, ctx, Root([ImportOf(name)] + ([ImportOf(snippet)] + [])), depth)
              == Ok((Root(nodes + (inner.snippets[snippet] + [])), later))
  {
    FileIsRead(env, ctx, name, depth, nodes, inner, content);
    var later, body := ResolveImport(env, ctx, name, depth).value.1, inner.snippets[snippet];
    assert later.snippets[snippet] == body;
    assert ResolveImport(env, later, snippet, depth) == Ok((body, later));
    hide *;
    ImportFreePass(env, later, [], depth) by { NoNodes(); }
    PassImports(env, later, snippet, [], depth);
    PassImports(env, ctx, name, [ImportOf(snippet)] + [], depth);
    NoNodes();
    ImportFreeConcat(body, []);
    ImportFreeConcat(nodes, body + []);
    OnePass(env, ctx, [ImportOf(name)] + ([ImportOf(snippet)] + []), Pass(nodes + (body + []), true, later), depth);
  }

  lemma {:induction false} NoNodes()
    ensures ImportFreeAll([])
  {}

  /** A file written from a tree contributes that tree, and leaves the tables as they are. */
  lemma {:induction false} WrittenFileIsSpliced(
    env: Env, ctx: Context, a: seq<Node>, name: string, b: seq<Node>, depth: nat, ns: seq<Node>)
    requires ImportFreeAll(a) && ImportFreeAll(b) && depth <= 255 && name !in ctx.snippets
    requires HasContent(env, env.join(ctx.location, name), PrintFile(ns))
    requires SaneClasses(env) && PrintableAll(env, ns, 256) && QuotableTrees(ns) && ImportFreeAll(ns)
    ensures ExpandImports(env, ctx, Root(a + ([ImportOf(name)] + b)), depth) == Ok((Root(a + (ns + b)), ctx))
  {
    hide PrintableAll, QuotableTrees, ImportFreeAll, SaneClasses, ReadTree, ExpandImports, PrintFile;
    var file := env.join(ctx.location, name);
    FileReadsBack(env, ns, file, depth + 1);
    FileIsSpliced(env, ctx, a, name, b, depth, ns, Context(map[], map[], file), PrintFile(ns));
    var later :| TablesJoined(ctx, Context(map[], map[], file), later) &&
      ExpandImports(env, ctx, Root(a + ([ImportOf(name)] + b)), depth) == Ok((Root(a + (ns + b)), later));
    assert later.snippets == ctx.snippets && later.macros == ctx.macros;
  }

  /** An import fails if there is neither a snippet nor a file, or the file cannot be opened or read as a tree. */
  lemma {:induction false} ImportFails(env: Env, ctx: Context, name: string, rest: seq<Node>, depth: nat)
    requires name !in ctx.snippets && depth <= 255
    ensures
      var file, r := env.join(ctx.location, name), ExpandImports(env, ctx, Root([ImportOf(name)] + rest), depth);
      && (env.open(file).Missing? && env.open(file + ".conf").Missing? ==> r == Err(UnknownImport))
      && (env.open(file).Unreadable? || (env.open(file).Missing? && env.open(file + ".conf").Unreadable?) ==>
            r == Err(UnreadableImport))
      && forall content :: HasContent(env, file, content) && ReadTree(env, Tokens(content), file, depth + 1).Err? ==>
           r == Err(ReadTree(env, Tokens(content), file, depth + 1).error)
  {
    hide ReadTree, ExpandChildren;
    var r := ResolveImport(env, ctx, name, depth);
    assert ExpandImports(env, ctx, ImportOf(name), depth + 1) == Ok((ImportOf(name), ctx));
    if r.Err? {
      PassFails(env, ctx, ImportOf(name), rest, depth, r.error);
      RootFails(env, ctx, [ImportOf(name)] + rest, depth, r.error);
    }
  }
}
