/**
 What import expansion means: it fails on a snippet that reaches itself, and otherwise it is the
 recursive replacement of every import by the body of its snippet, as long as that fits under the
 depth limit. This is stated for a fixed snippet table, that is, for trees and snippets none of
 whose imports is served from a file; what files there are otherwise does not matter.
 */
module ImportMeaning {
  import opened Common
  import opened Lexer
  import opened Quoting
  import opened ConfigTree
  import opened ConfigPrinting
  import opened Imports
  import opened ImportSubstitution

  // ---------------------------------------------------------------------------
  // Imports served from the table
  // ---------------------------------------------------------------------------

  /** The name is that of a snippet, or no file can be read under it. */
  predicate Serves(env: Env, ctx: Context, name: string) {
    name in ctx.snippets || !OpenImport(env, env.join(ctx.location, name)).Readable?
  }

  /** No import in the nodes, at any nesting, is served from a file. */
  predicate ServesAll(env: Env, ctx: Context, ns: seq<Node>)
    decreases ns
  {
    ns == []
    || (&& (ns[0].name == IMPORT && |ns[0].args| == 1 ==> Serves(env, ctx, ns[0].args[0]))
        && (ns[0].children.Block? ==> ServesAll(env, ctx, ns[0].children.nodes))
        && ServesAll(env, ctx, ns[1..]))
  }

  predicate ServesBodies(env: Env, ctx: Context) {
    forall s :: s in ctx.snippets ==> ServesAll(env, ctx, ctx.snippets[s])
  }

  /** Neither the nodes nor the snippets import a file. */
  predicate FromTable(env: Env, ctx: Context, ns: seq<Node>) { ServesAll(env, ctx, ns) && ServesBodies(env, ctx) }

  /** The same environment, except that every file that could be read is missing. */
  function Blind(env: Env): Env {
    env.(open := f => if env.open(f).Readable? then Missing else env.open(f))
  }

  lemma {:induction false} ServesConcat(env: Env, ctx: Context, a: seq<Node>, b: seq<Node>)
    requires ServesAll(env, ctx, a) && ServesAll(env, ctx, b)
    ensures ServesAll(env, ctx, a + b)
  {
    if a == [] {
      assert a + b == b;
    } else {
      ServesConcat(env, ctx, a[1..], b);
      assert (a + b)[1..] == a[1..] + b;
    }
  }

  lemma {:induction false} ImportFreeServes(env: Env, ctx: Context, ns: seq<Node>)
    requires ImportFreeAll(ns)
    ensures ServesAll(env, ctx, ns)
    decreases ns
  {
    if ns != [] {
      assert ImportFree(ns[0]) && ImportFreeBelow(ns[0]);
      if ns[0].children.Block? { ImportFreeServes(env, ctx, ns[0].children.nodes); }
      ImportFreeServes(env, ctx, ns[1..]);
    }
  }

  lemma {:induction false} SameChildBlind(env: Env, ctx: Context, child: Node, depth: nat)
    requires child.name == IMPORT && |child.args| == 1 ==> Serves(env, ctx, child.args[0])
    ensures ExpandChild(env, ctx, child, depth) == ExpandChild(Blind(env), ctx, child, depth)
  {}

  /** A pass that imports no file leaves nodes that import none. */
  lemma {:induction false} PassServes(env: Env, ctx: Context, ns: seq<Node>, depth: nat)
    requires FromTable(env, ctx, ns) && ExpandChildren(Blind(env), ctx, ns, depth).Ok?
    ensures ServesAll(env, ctx, ExpandChildren(Blind(env), ctx, ns, depth).value.nodes)
    decreases |ns|
  {
    if ns != [] {
      var blind := Blind(env);
      KeepsTable(blind, ctx, ns[0], depth + 1);
      var child := ExpandImports(blind, ctx, ns[0], depth + 1).value.0;
      ChildFromTable(blind, ctx, child, depth);
      var nodes := ExpandChild(blind, ctx, child, depth).value.0;
      if child.name != IMPORT {
        NoImportRemains(blind, ctx, ns[0], depth + 1);
        assert ImportFree(child) && [child][1..] == [];
        ImportFreeServes(env, ctx, [child]);
      }
      PassServes(env, ctx, ns[1..], depth);
      ServesConcat(env, ctx, nodes, ExpandChildren(blind, ctx, ns[1..], depth).value.nodes);
    }
  }

  /** Files that are not imported do not matter. */
  lemma {:induction false} SameBlind(env: Env, ctx: Context, n: Node, depth: nat)
    requires n.children.Block? ==> FromTable(env, ctx, n.children.nodes)
    ensures ExpandImports(env, ctx, n, depth) == ExpandImports(Blind(env), ctx, n, depth)
    decreases 2 * Room(depth), n, 1
  {
    if n.children.Block? {
      var ns, blind := n.children.nodes, Blind(env);
      SamePassBlind(env, ctx, ns, depth);
      var r := ExpandChildren(blind, ctx, ns, depth);
      if r.Ok? && r.value.found {
        PassKeepsTable(blind, ctx, ns, depth);
        PassServes(env, ctx, ns, depth);
        SameBlind(env, ctx, n.(children := Block(r.value.nodes)), depth + 1);
      }
    }
  }

  lemma {:induction false} SamePassBlind(env: Env, ctx: Context, ns: seq<Node>, depth: nat)
    requires FromTable(env, ctx, ns)
    ensures ExpandChildren(env, ctx, ns, depth) == ExpandChildren(Blind(env), ctx, ns, depth)
    decreases 2 * Room(depth), ns, 0
  {
    if ns != [] {
      var blind := Blind(env);
      SameBlind(env, ctx, ns[0], depth + 1);
      var r := ExpandImports(blind, ctx, ns[0], depth + 1);
      if r.Ok? {
        KeepsTable(blind, ctx, ns[0], depth + 1);
        SameChildBlind(env, ctx, r.value.0, depth);
        var c := ExpandChild(blind, ctx, r.value.0, depth);
        if c.Ok? {
          ChildFromTable(blind, ctx, r.value.0, depth);
          SamePassBlind(env, ctx, ns[1..], depth);
        }
      }
    }
  }

  // ---------------------------------------------------------------------------
  // What expansion does
  // ---------------------------------------------------------------------------

  /** Expansion leaves the tables as they are. */
  lemma {:induction false} TableIsFixed(env: Env, ctx: Context, n: Node, depth: nat)
    requires n.children.Block? ==> FromTable(env, ctx, n.children.nodes)
    requires ExpandImports(env, ctx, n, depth).Ok?
    ensures ExpandImports(env, ctx, n, depth).value.1 == ctx
  {
    SameBlind(env, ctx, n, depth);
    KeepsTable(Blind(env), ctx, n, depth);
  }

  /** Where expansion succeeds, its result is the substitution. */
  lemma {:induction false} ExpansionIsSubstitution(env: Env, ctx: Context, n: Node, depth: nat, levels: nat)
    requires n.children.Block? && FromTable(env, ctx, n.children.nodes)
    requires ExpandImports(env, ctx, n, depth).Ok? && levels >= Room(depth)
    ensures Substituted(ctx.snippets, n.children.nodes, levels)
            == Some(ExpandImports(env, ctx, n, depth).value.0.children.nodes)
  {
    SameBlind(env, ctx, n, depth);
    ExpandsToSubstitution(Blind(env), ctx, n, depth, levels);
  }

  /** Expansion fails for another reason than the limit only if there is no substitution at all. */
  lemma {:induction false} FailureMeansUndefined(env: Env, ctx: Context, n: Node, depth: nat, levels: nat)
    requires n.children.Block? && FromTable(env, ctx, n.children.nodes)
    requires ExpandImports(env, ctx, n, depth).Err? && ExpandImports(env, ctx, n, depth).error != ImportLimit
    ensures Substituted(ctx.snippets, n.children.nodes, levels).None?
  {
    SameBlind(env, ctx, n, depth);
    FailsUndefined(Blind(env), ctx, n, depth, levels);
  }

  /**
   What expansion does is decided by the substitution and by how deep it goes: where the
   substitution is defined with any number of levels, expansion gives it if its need fits under the
   limit, and the limit is reported if not.
   */
  lemma {:induction false} SubstitutionDecides(env: Env, ctx: Context, n: Node, depth: nat, levels: nat)
    requires n.children.Block? && FromTable(env, ctx, n.children.nodes)
    ensures
      var ns := n.children.nodes;
      var sub := Substituted(ctx.snippets, ns, levels);
      sub.Some? ==>
        ExpandImports(env, ctx, n, depth) ==
        if Fits(Need(ctx.snippets, ns, levels), depth) then Ok((n.(children := Block(sub.value)), ctx))
        else Err(ImportLimit)
  {
    var ns := n.children.nodes;
    if Substituted(ctx.snippets, ns, levels).Some? {
      SameBlind(env, ctx, n, depth);
      ExpandsIffFits(Blind(env), ctx, n, depth, levels);
      if ExpandImports(env, ctx, n, depth).Ok? {
        TableIsFixed(env, ctx, n, depth);
        var most := Max(levels, Room(depth));
        ExpansionIsSubstitution(env, ctx, n, depth, most);
        MoreLevels(ctx.snippets, ns, levels, most);
      } else if ExpandImports(env, ctx, n, depth).error != ImportLimit {
        FailureMeansUndefined(env, ctx, n, depth, levels);
      }
    }
  }

  /** Expansion succeeds exactly when there is a substitution within the levels left, and its need fits. */
  lemma {:induction false} ExpandsIff(env: Env, ctx: Context, n: Node, depth: nat)
    requires n.children.Block? && FromTable(env, ctx, n.children.nodes)
    ensures
      var ns, room := n.children.nodes, Room(depth);
      ExpandImports(env, ctx, n, depth).Ok? <==>
      Substituted(ctx.snippets, ns, room).Some? && Fits(Need(ctx.snippets, ns, room), depth)
  {
    SubstitutionDecides(env, ctx, n, depth, Room(depth));
    if ExpandImports(env, ctx, n, depth).Ok? { ExpansionIsSubstitution(env, ctx, n, depth, Room(depth)); }
  }

  // ---------------------------------------------------------------------------
  // A snippet that reaches itself
  // ---------------------------------------------------------------------------

  /** A tree that mentions a snippet of a set whose members all mention the set never expands. */
  lemma {:induction false} EndlessNeverExpands(env: Env, ctx: Context, n: Node, depth: nat, names: set<string>)
    requires n.children.Block? && FromTable(env, ctx, n.children.nodes)
    requires Endless(ctx.snippets, names) && Mentions(n.children.nodes, names)
    ensures ExpandImports(env, ctx, n, depth).Err?
  {
    SameBlind(env, ctx, n, depth);
    EndlessFails(Blind(env), ctx, n, depth, names);
  }

  /** Each name of the path is a snippet that imports the next, at some nesting. */
  predicate ImportPath(table: Snippets, path: seq<string>) {
    forall i :: 0 <= i < |path| - 1 ==> ImportsNext(table, path, i)
  }

  predicate ImportsNext(table: Snippets, path: seq<string>, i: nat)
    requires i + 1 < |path|
  {
    path[i] in table && Mentions(table[path[i]], {path[i + 1]})
  }

  /**
   A snippet that reaches itself through imports can never be expanded: every tree that imports
   it, at any nesting, makes the expansion fail from every depth.
   */
  lemma {:induction false} RecursiveSnippetNeverExpands(env: Env, ctx: Context, path: seq<string>, n: Node, depth: nat)
    requires n.children.Block? && FromTable(env, ctx, n.children.nodes)
    requires |path| >= 2 && path[0] == path[|path| - 1] && ImportPath(ctx.snippets, path)
    requires Mentions(n.children.nodes, {path[0]})
    ensures ExpandImports(env, ctx, n, depth).Err?
  {
    var names := set i | 0 <= i < |path| :: path[i];
    forall s | s in names
      ensures s in ctx.snippets && Mentions(ctx.snippets[s], names)
    {
      var j :| 0 <= j < |path| && path[j] == s;
      var i := if j == |path| - 1 then 0 else j;
      assert ImportsNext(ctx.snippets, path, i);
      MentionsMore(ctx.snippets[s], {path[i + 1]}, names);
    }
    MentionsMore(n.children.nodes, {path[0]}, names);
    EndlessNeverExpands(env, ctx, n, depth, names);
  }

  // ---------------------------------------------------------------------------
  // A whole file: print, lex, parse, expand
  // ---------------------------------------------------------------------------

  predicate QuotableTree(n: Node)
    decreases n, 1
  {
    && (forall i :: 0 <= i < |n.args| ==> Quotable(n.args[i]))
    && (n.children.Block? ==> QuotableTrees(n.children.nodes))
  }

  predicate QuotableTrees(ns: seq<Node>)
    decreases ns, 0
  {
    ns == [] || (QuotableTree(ns[0]) && QuotableTrees(ns[1..]))
  }

  predicate QuotablePieces(ps: seq<Piece>) {
    forall i :: 0 <= i < |ps| ==> Quotable(ps[i].text)
  }

  lemma {:induction false} PrintedIsQuotable(env: Env, ns: seq<Node>, depth: nat)
    requires SaneClasses(env) && PrintableAll(env, ns, depth) && QuotableTrees(ns)
    ensures QuotablePieces(Print(ns))
    decreases ns, 0
  {
    if ns != [] {
      PrintedNodeIsQuotable(env, ns[0], depth);
      PrintedIsQuotable(env, ns[1..], depth);
    }
  }

  lemma {:induction false} PrintedNodeIsQuotable(env: Env, n: Node, depth: nat)
    requires SaneClasses(env) && Printable(env, n, depth) && QuotableTree(n)
    ensures QuotablePieces(PrintNode(n))
    decreases n, 1
  {
    if n.children.Block? {
      PrintedIsQuotable(env, n.children.nodes, depth - 1);
    }
  }

  /** The text of a configuration file that holds the given directives. */
  function PrintFile(ns: seq<Node>): string { Render(ToItems(Print(ns))) }

  /**
   Writing a tree to a file and reading the file gives the tree back: lexer, parser and import
   expansion together undo the printer.
   */
  lemma {:induction false} FileReadsBack(env: Env, ns: seq<Node>, location: string, depth: nat)
    requires SaneClasses(env) && PrintableAll(env, ns, 256) && QuotableTrees(ns) && ImportFreeAll(ns)
    ensures ReadTree(env, Tokens(PrintFile(ns)), location, depth)
            == Ok((ns, Context(map[], map[], location)))
  {
    var items := ToItems(Print(ns));
    PrintedIsQuotable(env, ns, 256);
    assert BlankSeparated(items) && AllQuotable(items);
    RenderHasNoBom(items);
    RenderingLexes(items, 1);
    TokensReadBack(env, ns, 1);
    ImportFreeExpandsToItself(env, Context(map[], map[], location), Root(ns), depth);
  }
}
