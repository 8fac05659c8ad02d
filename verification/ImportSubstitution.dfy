/**
 Import expansion from a fixed snippet table: which trees can never be expanded, what an expansion
 computes, and how deep it goes. Everything here is for an environment in which no file can be
 read; `ImportMeaning` carries it over to trees whose imports are not served from files.
 */
module ImportSubstitution {
  import opened Common
  import opened ConfigTree
  import opened Imports

  /** No file can be read, so the snippet table never changes. */
  ghost predicate NoFiles(env: Env) {
    forall f :: !env.open(f).Readable?
  }

  lemma {:induction false} KeepsTable(env: Env, ctx: Context, n: Node, depth: nat)
    requires NoFiles(env) && ExpandImports(env, ctx, n, depth).Ok?
    ensures ExpandImports(env, ctx, n, depth).value.1 == ctx
    decreases 2 * Room(depth), n, 1
  {
    if n.children.Block? {
      PassKeepsTable(env, ctx, n.children.nodes, depth);
      var p := ExpandChildren(env, ctx, n.children.nodes, depth).value;
      if p.found {
        KeepsTable(env, p.ctx, n.(children := Block(p.nodes)), depth + 1);
      }
    }
  }

  lemma {:induction false} PassKeepsTable(env: Env, ctx: Context, ns: seq<Node>, depth: nat)
    requires NoFiles(env) && ExpandChildren(env, ctx, ns, depth).Ok?
    ensures ExpandChildren(env, ctx, ns, depth).value.ctx == ctx
    decreases 2 * Room(depth), ns, 0
  {
    if ns != [] {
      KeepsTable(env, ctx, ns[0], depth + 1);
      var (child, _) := ExpandImports(env, ctx, ns[0], depth + 1).value;
      ChildFromTable(env, ctx, child, depth);
      PassKeepsTable(env, ctx, ns[1..], depth);
    }
  }

  /** Without files, an import can only be served from the table. */
  lemma {:induction false} ChildFromTable(env: Env, ctx: Context, child: Node, depth: nat)
    requires NoFiles(env)
    ensures
      var r, name := ExpandChild(env, ctx, child, depth), if child.args == [] then "" else child.args[0];
      && (r.Ok? ==> child.name == IMPORT ==> |child.args| == 1 && name in ctx.snippets)
      && (r.Ok? ==> r.value == (if child.name == IMPORT then ctx.snippets[name] else [child], ctx))
      && (r.Err? && r.error != ImportLimit ==> child.name == IMPORT && (|child.args| != 1 || name !in ctx.snippets))
  {}

  // ---------------------------------------------------------------------------
  // A snippet that reaches itself
  // ---------------------------------------------------------------------------

  /** Some import of a name in `names` occurs in the nodes, at any nesting. */
  predicate Mentions(ns: seq<Node>, names: set<string>)
    decreases ns, 0
  {
    ns != []
    && (|| (ns[0].name == IMPORT && |ns[0].args| == 1 && ns[0].args[0] in names)
        || (ns[0].children.Block? && Mentions(ns[0].children.nodes, names))
        || Mentions(ns[1..], names))
  }

  lemma {:induction false} MentionsConcat(a: seq<Node>, b: seq<Node>, names: set<string>)
    ensures Mentions(a + b, names) == (Mentions(a, names) || Mentions(b, names))
  {
    if a == [] {
      assert a + b == b;
    } else {
      MentionsConcat(a[1..], b, names);
      assert (a + b)[1..] == a[1..] + b;
    }
  }

  lemma {:induction false} MentionsMore(ns: seq<Node>, few: set<string>, many: set<string>)
    requires few <= many && Mentions(ns, few)
    ensures Mentions(ns, many)
    decreases ns, 0
  {
    if ns[0].children.Block? && Mentions(ns[0].children.nodes, few) {
      MentionsMore(ns[0].children.nodes, few, many);
    } else if Mentions(ns[1..], few) {
      MentionsMore(ns[1..], few, many);
    }
  }

  /** Every snippet in `names` imports a snippet in `names`. */
  predicate Endless(table: Snippets, names: set<string>) {
    forall s :: s in names ==> s in table && Mentions(table[s], names)
  }

  lemma {:induction false} EndlessFails(env: Env, ctx: Context, n: Node, depth: nat, names: set<string>)
    requires NoFiles(env) && Endless(ctx.snippets, names)
    requires n.children.Block? && Mentions(n.children.nodes, names)
    ensures ExpandImports(env, ctx, n, depth).Err?
    decreases 2 * Room(depth), n, 1
  {
    var r := ExpandChildren(env, ctx, n.children.nodes, depth);
    if r.Ok? {
      MentionSurvivesPass(env, ctx, n.children.nodes, depth, names);
      PassKeepsTable(env, ctx, n.children.nodes, depth);
      EndlessFails(env, ctx, n.(children := Block(r.value.nodes)), depth + 1, names);
    }
  }

  /** A pass that succeeds replaces a mention by another mention. */
  lemma {:induction false} MentionSurvivesPass(env: Env, ctx: Context, ns: seq<Node>, depth: nat, names: set<string>)
    requires NoFiles(env) && Endless(ctx.snippets, names)
    requires Mentions(ns, names) && ExpandChildren(env, ctx, ns, depth).Ok?
    ensures var p := ExpandChildren(env, ctx, ns, depth).value;
            p.found && Mentions(p.nodes, names)
    decreases 2 * Room(depth), ns, 0
  {
    if ns[0].children.Block? && Mentions(ns[0].children.nodes, names) {
      EndlessFails(env, ctx, ns[0], depth + 1, names);
    }
    KeepsTable(env, ctx, ns[0], depth + 1);
    var (child, _) := ExpandImports(env, ctx, ns[0], depth + 1).value;
    ChildFromTable(env, ctx, child, depth);
    var nodes := ExpandChild(env, ctx, child, depth).value.0;
    var rest := ExpandChildren(env, ctx, ns[1..], depth).value.nodes;
    if Mentions(ns[1..], names) {
      MentionSurvivesPass(env, ctx, ns[1..], depth, names);
    }
    MentionsConcat(nodes, rest, names);
  }

  // ---------------------------------------------------------------------------
  // Expansion is substitution
  // ---------------------------------------------------------------------------

  /**
   Every import replaced by the body of its snippet, with the imports in that body replaced in
   turn, up to `levels` snippets deep. This is a single recursive substitution: no passes, no
   depth counting.
   */
  function Substituted(table: Snippets, ns: seq<Node>, levels: nat): Option<seq<Node>>
    decreases levels, ns, 0
  {
    if ns == [] then Some([])
    else
      var first := SubstitutedNode(table, ns[0], levels);
      var rest := Substituted(table, ns[1..], levels);
      if first.Some? && rest.Some? then Some(first.value + rest.value) else None
  }

  function SubstitutedNode(table: Snippets, n: Node, levels: nat): Option<seq<Node>>
    decreases levels, n, 1
  {
    if n.name == IMPORT then
      if |n.args| != 1 || n.args[0] !in table || levels == 0 then None
      else if n.children.Block? && Substituted(table, n.children.nodes, levels).None? then None
      else Substituted(table, table[n.args[0]], levels - 1)
    else if n.children.Absent? then Some([n])
    else
      var ch := Substituted(table, n.children.nodes, levels);
      if ch.Some? then Some([n.(children := Block(ch.value))]) else None
  }

  lemma {:induction false} SubstitutedConcat(table: Snippets, a: seq<Node>, b: seq<Node>, levels: nat)
    ensures var x, y := Substituted(table, a, levels), Substituted(table, b, levels);
            Substituted(table, a + b, levels) == if x.Some? && y.Some? then Some(x.value + y.value) else None
    decreases |a|
  {
    var x, y := Substituted(table, a, levels), Substituted(table, b, levels);
    if a == [] {
      assert a + b == b;
      assert y.Some? ==> x.value + y.value == y.value;
    } else {
      SubstitutedConcat(table, a[1..], b, levels);
      assert (a + b)[0] == a[0] && (a + b)[1..] == a[1..] + b;
      var f, x' := SubstitutedNode(table, a[0], levels), Substituted(table, a[1..], levels);
      if f.Some? && x'.Some? && y.Some? {
        assert f.value + (x'.value + y.value) == (f.value + x'.value) + y.value;
      }
    }
  }

  lemma {:induction false} ImportFreeSubstitutes(table: Snippets, ns: seq<Node>, levels: nat)
    requires ImportFreeAll(ns)
    ensures Substituted(table, ns, levels) == Some(ns)
    decreases ns, 0
  {
    if ns != [] {
      ImportFreeNodeSubstitutes(table, ns[0], levels);
      ImportFreeSubstitutes(table, ns[1..], levels);
      assert [ns[0]] + ns[1..] == ns;
    }
  }

  lemma {:induction false} ImportFreeNodeSubstitutes(table: Snippets, n: Node, levels: nat)
    requires ImportFree(n)
    ensures SubstitutedNode(table, n, levels) == Some([n])
    decreases n, 1
  {
    if n.children.Block? {
      ImportFreeSubstitutes(table, n.children.nodes, levels);
    }
  }

  /** Where expansion succeeds, its result is the substitution. */
  lemma {:induction false} ExpandsToSubstitution(env: Env, ctx: Context, n: Node, depth: nat, levels: nat)
    requires NoFiles(env) && ExpandImports(env, ctx, n, depth).Ok? && n.children.Block? && levels >= Room(depth)
    ensures Substituted(ctx.snippets, n.children.nodes, levels)
            == Some(ExpandImports(env, ctx, n, depth).value.0.children.nodes)
    decreases 2 * Room(depth), n, 1
  {
    var ns := n.children.nodes;
    var p := ExpandChildren(env, ctx, ns, depth).value;
    PassKeepsTable(env, ctx, ns, depth);
    if p.found {
      ExpandsToSubstitution(env, ctx, n.(children := Block(p.nodes)), depth + 1, levels - 1);
      PassSubstitutes(env, ctx, ns, depth, levels, levels - 1);
    } else {
      PassWithoutImport(env, ctx, ns, depth);
      ImportFreeSubstitutes(ctx.snippets, p.nodes, levels);
      PassSubstitutes(env, ctx, ns, depth, levels, levels);
    }
  }

  /** A pass keeps the meaning, using up one level for the imports it replaces. */
  lemma {:induction false} PassSubstitutes(env: Env, ctx: Context, ns: seq<Node>, depth: nat, levels: nat, after: nat)
    requires NoFiles(env) && ExpandChildren(env, ctx, ns, depth).Ok? && levels >= Room(depth)
    requires ExpandChildren(env, ctx, ns, depth).value.found ==> after + 1 == levels
    requires Substituted(ctx.snippets, ExpandChildren(env, ctx, ns, depth).value.nodes, after).Some?
    ensures Substituted(ctx.snippets, ns, levels)
            == Substituted(ctx.snippets, ExpandChildren(env, ctx, ns, depth).value.nodes, after)
    decreases 2 * Room(depth), ns, 0
  {
    if ns != [] {
      KeepsTable(env, ctx, ns[0], depth + 1);
      var (child, _) := ExpandImports(env, ctx, ns[0], depth + 1).value;
      ChildFromTable(env, ctx, child, depth);
      var nodes := ExpandChild(env, ctx, child, depth).value.0;
      var rest := ExpandChildren(env, ctx, ns[1..], depth).value.nodes;
      SubstitutedConcat(ctx.snippets, nodes, rest, after);
      ChildSubstitutes(env, ctx, ns[0], depth, levels, after);
      PassSubstitutes(env, ctx, ns[1..], depth, levels, after);
    }
  }

  lemma {:induction false} ChildSubstitutes(env: Env, ctx: Context, n: Node, depth: nat, levels: nat, after: nat)
    requires NoFiles(env) && levels >= Room(depth)
    requires ExpandImports(env, ctx, n, depth + 1).Ok?
    requires ExpandChild(env, ctx, ExpandImports(env, ctx, n, depth + 1).value.0, depth).Ok?
    requires n.name == IMPORT ==> after + 1 == levels
    ensures var child := ExpandImports(env, ctx, n, depth + 1).value.0;
            SubstitutedNode(ctx.snippets, n, levels)
            == Substituted(ctx.snippets, ExpandChild(env, ctx, child, depth).value.0, after)
    decreases 2 * Room(depth), n, 2
  {
    var child := ExpandImports(env, ctx, n, depth + 1).value.0;
    ChildFromTable(env, ctx, child, depth);
    if n.children.Block? {
      ExpandsToSubstitution(env, ctx, n, depth + 1, levels);
    }
    if n.name != IMPORT {
      NoImportRemains(env, ctx, n, depth + 1);
      assert ImportFree(child) && [child][1..] == [];
      ImportFreeSubstitutes(ctx.snippets, [child], after);
    }
  }

  /** More levels change nothing once the substitution is defined. */
  lemma {:induction false} MoreLevels(table: Snippets, ns: seq<Node>, levels: nat, more: nat)
    requires levels <= more && Substituted(table, ns, levels).Some?
    ensures Substituted(table, ns, more) == Substituted(table, ns, levels)
    decreases levels, ns, 0
  {
    if ns != [] {
      MoreLevelsNode(table, ns[0], levels, more);
      MoreLevels(table, ns[1..], levels, more);
    }
  }

  lemma {:induction false} MoreLevelsNode(table: Snippets, n: Node, levels: nat, more: nat)
    requires levels <= more && SubstitutedNode(table, n, levels).Some?
    ensures SubstitutedNode(table, n, more) == SubstitutedNode(table, n, levels)
    decreases levels, n, 1
  {
    if n.children.Block? && (n.name != IMPORT || levels > 0) {
      MoreLevels(table, n.children.nodes, levels, more);
    }
    if n.name == IMPORT {
      MoreLevels(table, table[n.args[0]], levels - 1, more - 1);
    }
  }

  /** A pass does not make a substitution undefined. */
  lemma {:induction false} PassKeepsDefined(env: Env, ctx: Context, ns: seq<Node>, depth: nat, levels: nat)
    requires NoFiles(env) && ExpandChildren(env, ctx, ns, depth).Ok? && Substituted(ctx.snippets, ns, levels).Some?
    ensures Substituted(ctx.snippets, ExpandChildren(env, ctx, ns, depth).value.nodes, levels).Some?
    decreases |ns|
  {
    if ns != [] {
      KeepsTable(env, ctx, ns[0], depth + 1);
      var (child, _) := ExpandImports(env, ctx, ns[0], depth + 1).value;
      ChildFromTable(env, ctx, child, depth);
      var nodes := ExpandChild(env, ctx, child, depth).value.0;
      PassKeepsDefined(env, ctx, ns[1..], depth, levels);
      SubstitutedConcat(ctx.snippets, nodes, ExpandChildren(env, ctx, ns[1..], depth).value.nodes, levels);
      if child.name == IMPORT {
        MoreLevels(ctx.snippets, nodes, levels - 1, levels);
      } else {
        NoImportRemains(env, ctx, ns[0], depth + 1);
        assert ImportFree(child) && [child][1..] == [];
        ImportFreeSubstitutes(ctx.snippets, [child], levels);
      }
    }
  }

  /** Expansion fails for another reason than the limit only if there is no substitution at all. */
  lemma {:induction false} FailsUndefined(env: Env, ctx: Context, n: Node, depth: nat, levels: nat)
    requires NoFiles(env) && ExpandImports(env, ctx, n, depth).Err?
      && ExpandImports(env, ctx, n, depth).error != ImportLimit
    ensures n.children.Block? && Substituted(ctx.snippets, n.children.nodes, levels).None?
    decreases 2 * Room(depth), n, 1
  {
    var ns := n.children.nodes;
    if ExpandChildren(env, ctx, ns, depth).Err? {
      FailedPass(env, ctx, ns, depth, levels);
    } else {
      var p := ExpandChildren(env, ctx, ns, depth).value;
      PassKeepsTable(env, ctx, ns, depth);
      FailsUndefined(env, ctx, n.(children := Block(p.nodes)), depth + 1, levels);
      if Substituted(ctx.snippets, ns, levels).Some? { PassKeepsDefined(env, ctx, ns, depth, levels); }
    }
  }

  lemma {:induction false} FailedPass(env: Env, ctx: Context, ns: seq<Node>, depth: nat, levels: nat)
    requires NoFiles(env) && ExpandChildren(env, ctx, ns, depth).Err?
      && ExpandChildren(env, ctx, ns, depth).error != ImportLimit
    ensures Substituted(ctx.snippets, ns, levels).None?
    decreases 2 * Room(depth), ns, 0
  {
    if ExpandImports(env, ctx, ns[0], depth + 1).Err? {
      FailsUndefined(env, ctx, ns[0], depth + 1, levels);
    } else {
      KeepsTable(env, ctx, ns[0], depth + 1);
      var (child, _) := ExpandImports(env, ctx, ns[0], depth + 1).value;
      if ExpandChild(env, ctx, child, depth).Ok? {
        ChildFromTable(env, ctx, child, depth);
        FailedPass(env, ctx, ns[1..], depth, levels);
      } else {
        ChildFromTable(env, ctx, child, depth);
        assert SubstitutedNode(ctx.snippets, ns[0], levels).None?;
      }
    }
  }

  // ---------------------------------------------------------------------------
  // How deep an expansion goes
  // ---------------------------------------------------------------------------

  function Max(a: nat, b: nat): nat { if a < b then b else a }

  /**
   The levels that expanding the nodes takes: none without imports, one more than the block below
   that needs most, and one more than the body of an imported snippet.
   */
  function Need(table: Snippets, ns: seq<Node>, levels: nat): nat
    decreases levels, ns, 0
  {
    if ns == [] then 0 else Max(NeedNode(table, ns[0], levels), Need(table, ns[1..], levels))
  }

  function NeedNode(table: Snippets, n: Node, levels: nat): nat
    decreases levels, n, 2
  {
    var inside := NeedInside(table, n, levels);
    Max(if inside > 0 then 1 + inside else 0, if n.name == IMPORT then 1 + NeedBody(table, n, levels) else 0)
  }

  function NeedInside(table: Snippets, n: Node, levels: nat): nat
    decreases levels, n, 1
  {
    if n.children.Absent? then 0 else Need(table, n.children.nodes, levels)
  }

  /** What the body of the snippet needs that the node imports, if it imports one. */
  function NeedBody(table: Snippets, n: Node, levels: nat): nat
    decreases levels, n, 1
  {
    if n.name == IMPORT && |n.args| == 1 && n.args[0] in table && levels > 0
    then Need(table, table[n.args[0]], levels - 1) else 0
  }

  predicate Fits(need: nat, depth: nat) { need == 0 || depth + need <= 256 }

  lemma {:induction false} NeedConcat(table: Snippets, a: seq<Node>, b: seq<Node>, levels: nat)
    ensures Need(table, a + b, levels) == Max(Need(table, a, levels), Need(table, b, levels))
    decreases |a|
  {
    if a == [] {
      assert a + b == b;
    } else {
      NeedConcat(table, a[1..], b, levels);
      assert (a + b)[1..] == a[1..] + b;
    }
  }

  lemma {:induction false} ImportFreeNeedsNothing(table: Snippets, ns: seq<Node>, levels: nat)
    requires ImportFreeAll(ns)
    ensures Need(table, ns, levels) == 0
    decreases ns, 0
  {
    if ns != [] {
      assert ImportFree(ns[0]) && ImportFreeBelow(ns[0]);
      if ns[0].children.Block? { ImportFreeNeedsNothing(table, ns[0].children.nodes, levels); }
      assert NeedInside(table, ns[0], levels) == 0 && NeedNode(table, ns[0], levels) == 0;
      ImportFreeNeedsNothing(table, ns[1..], levels);
    }
  }

  /** Once the substitution is defined, the need does not depend on the levels. */
  lemma {:induction false} NeedStable(table: Snippets, ns: seq<Node>, levels: nat, more: nat)
    requires levels <= more && Substituted(table, ns, levels).Some?
    ensures Need(table, ns, more) == Need(table, ns, levels)
    decreases levels, ns, 0
  {
    if ns != [] {
      var n := ns[0];
      if n.children.Block? { NeedStable(table, n.children.nodes, levels, more); }
      if n.name == IMPORT { NeedStable(table, table[n.args[0]], levels - 1, more - 1); }
      assert NeedInside(table, n, more) == NeedInside(table, n, levels);
      assert NeedBody(table, n, more) == NeedBody(table, n, levels);
      NeedStable(table, ns[1..], levels, more);
    }
  }

  predicate HasImport(ns: seq<Node>) { ns != [] && (ns[0].name == IMPORT || HasImport(ns[1..])) }

  /** What a pass leaves to be done: the bodies that it has put in. */
  function NeedBodies(table: Snippets, ns: seq<Node>, levels: nat): nat {
    if ns == [] then 0 else Max(NeedBody(table, ns[0], levels), NeedBodies(table, ns[1..], levels))
  }

  predicate PassFits(table: Snippets, ns: seq<Node>, depth: nat, levels: nat) {
    ns == [] || (&& Fits(NeedInside(table, ns[0], levels), depth + 1) && (ns[0].name == IMPORT ==> depth <= 255)
                 && PassFits(table, ns[1..], depth, levels))
  }

  /** The need fits if and only if the first pass does, and then what that pass leaves. */
  lemma {:induction false} FitsPassByPass(table: Snippets, ns: seq<Node>, depth: nat, levels: nat)
    ensures Fits(Need(table, ns, levels), depth) <==>
            && PassFits(table, ns, depth, levels)
            && (HasImport(ns) ==> Fits(NeedBodies(table, ns, levels), depth + 1))
    ensures !HasImport(ns) ==> NeedBodies(table, ns, levels) == 0
  {
    if ns != [] { FitsPassByPass(table, ns[1..], depth, levels); }
  }

  /** A pass over defined nodes succeeds if and only if it fits, and leaves the bodies it put in. */
  lemma {:induction false} PassNeeds(env: Env, ctx: Context, ns: seq<Node>, depth: nat, levels: nat)
    requires NoFiles(env) && Substituted(ctx.snippets, ns, levels).Some?
    ensures
      var r := ExpandChildren(env, ctx, ns, depth);
      && (r.Ok? <==> PassFits(ctx.snippets, ns, depth, levels))
      && (r.Ok? ==> r.value.found == HasImport(ns)
                    && Need(ctx.snippets, r.value.nodes, levels) == NeedBodies(ctx.snippets, ns, levels))
    decreases 2 * Room(depth), ns, 0
  {
    if ns != [] {
      var n := ns[0];
      ExpandsIffFits(env, ctx, n, depth + 1, levels);
      if ExpandImports(env, ctx, n, depth + 1).Ok? {
        KeepsTable(env, ctx, n, depth + 1);
        NodeNeeds(env, ctx, n, depth, levels);
        PassNeeds(env, ctx, ns[1..], depth, levels);
        var (child, _) := ExpandImports(env, ctx, n, depth + 1).value;
        var r, rest := ExpandChild(env, ctx, child, depth), ExpandChildren(env, ctx, ns[1..], depth);
        if r.Ok? && rest.Ok? { NeedConcat(ctx.snippets, r.value.0, rest.value.nodes, levels); }
      }
    }
  }

  /** What stands in place of a node whose block was expanded, and what it still needs. */
  lemma {:induction false} NodeNeeds(env: Env, ctx: Context, n: Node, depth: nat, levels: nat)
    requires NoFiles(env) && SubstitutedNode(ctx.snippets, n, levels).Some? && ExpandImports(env, ctx, n, depth + 1).Ok?
    ensures
      var r := ExpandChild(env, ctx, ExpandImports(env, ctx, n, depth + 1).value.0, depth);
      && (r.Ok? <==> (n.name == IMPORT ==> depth <= 255))
      && (r.Ok? ==> r.value.1 == ctx && Need(ctx.snippets, r.value.0, levels) == NeedBody(ctx.snippets, n, levels))
  {
    var child := ExpandImports(env, ctx, n, depth + 1).value.0;
    if n.name == IMPORT {
      NeedStable(ctx.snippets, ctx.snippets[n.args[0]], levels - 1, levels);
    } else {
      NoImportRemains(env, ctx, n, depth + 1);
      assert ImportFree(child) && [child][1..] == [];
      ImportFreeNeedsNothing(ctx.snippets, [child], levels);
    }
  }

  /** Where the substitution is defined, expansion succeeds if and only if the need fits. */
  lemma {:induction false} ExpandsIffFits(env: Env, ctx: Context, n: Node, depth: nat, levels: nat)
    requires NoFiles(env) && (n.children.Block? ==> Substituted(ctx.snippets, n.children.nodes, levels).Some?)
    ensures ExpandImports(env, ctx, n, depth).Ok? <==> Fits(NeedInside(ctx.snippets, n, levels), depth)
    decreases 2 * Room(depth), n, 1
  {
    if n.children.Block? {
      var ns := n.children.nodes;
      PassNeeds(env, ctx, ns, depth, levels);
      FitsPassByPass(ctx.snippets, ns, depth, levels);
      var r := ExpandChildren(env, ctx, ns, depth);
      if r.Ok? && r.value.found {
        PassKeepsTable(env, ctx, ns, depth);
        PassKeepsDefined(env, ctx, ns, depth, levels);
        ExpandsIffFits(env, ctx, n.(children := Block(r.value.nodes)), depth + 1, levels);
      }
    }
  }
}
