/**
 Registering the blocks of a configuration under their names (framework/module/instances.go:30-75 and
 `RegisterModules` in cmd/sirrmeshd/cmd/mail.go). Whether a module is known and what its factory answers is
 part of a block.
 */
module Registration {
  import opened Common

  datatype Block = Block(endpoint: bool, known: bool, made: bool, name: string, args: seq<string>)

  datatype Error = FactoryFailed | UnknownModule | NameTaken | NoEndpoint

  function InstName(b: Block): string { if b.args == [] then b.name else b.args[0] }

  function AliasesOf(b: Block): seq<string> { if b.args == [] then [] else b.args[1..] }

  /** The block is to be found under the name. Aliases of a block with an empty name lead nowhere. */
  predicate GoesBy(b: Block, name: string) {
    !b.endpoint && (name == InstName(b) || (InstName(b) != "" && name in AliasesOf(b)))
  }

  /** No block before the `k`-th goes by the name. */
  predicate Free(blocks: seq<Block>, k: nat, name: string) {
    forall i :: 0 <= i < |blocks| && i < k ==> !GoesBy(blocks[i], name)
  }

  /** The names of the block are new. */
  predicate NamesAreNew(blocks: seq<Block>, k: nat)
    requires k < |blocks|
  {
    var name, aliases := InstName(blocks[k]), AliasesOf(blocks[k]);
    && Free(blocks, k, name)
    && forall j :: 0 <= j < |aliases| ==> AliasIsNew(blocks, k, name, aliases, j)
  }

  predicate AliasIsNew(blocks: seq<Block>, k: nat, name: string, aliases: seq<string>, j: nat)
    requires j < |aliases|
  {
    Free(blocks, k, aliases[j]) && aliases[j] != name && (name != "" ==> aliases[j] !in aliases[..j])
  }

  predicate BlockOk(blocks: seq<Block>, k: nat)
    requires k < |blocks|
  {
    blocks[k].made && (blocks[k].endpoint || (blocks[k].known && NamesAreNew(blocks, k)))
  }

  type Instances = map<string, nat>     // the index of the block
  type Aliases = map<string, string>

  predicate IsAlias(aliases: Aliases, name: string) { name in aliases && aliases[name] != "" }

  /** The block that `GetInstance` would use. */
  function Lookup(instances: Instances, aliases: Aliases, name: string): Option<nat> {
    var inst := if IsAlias(aliases, name) then aliases[name] else name;
    if inst in instances then Some(instances[inst]) else None
  }

  /** Aliases stand for registered names that are not aliases themselves. */
  predicate Proper(instances: Instances, aliases: Aliases) {
    forall a :: a in aliases && aliases[a] != "" ==> aliases[a] in instances && !IsAlias(aliases, aliases[a])
  }

  /** The blocks before the `k`-th are found under their names, and nothing else is. */
  ghost predicate Found(instances: Instances, aliases: Aliases, blocks: seq<Block>, k: nat) {
    forall n, i: nat :: Lookup(instances, aliases, n) == Some(i) <==> i < k && i < |blocks| && GoesBy(blocks[i], n)
  }

  /** The same, and the `k`-th block is found under its name and some of its aliases. */
  ghost predicate FoundWith(
    instances: Instances, aliases: Aliases, blocks: seq<Block>, k: nat, name: string, given: seq<string>)
  {
    && Proper(instances, aliases) && name in instances && instances[name] == k && !IsAlias(aliases, name)
    && forall n, i: nat :: Lookup(instances, aliases, n) == Some(i) <==>
         || (i < k && i < |blocks| && GoesBy(blocks[i], n))
         || (i == k && (n == name || (name != "" && n in given)))
  }

  lemma {:induction false} FreeIff(instances: Instances, aliases: Aliases, blocks: seq<Block>, k: nat, name: string)
    requires k < |blocks| && Found(instances, aliases, blocks, k)
    ensures Lookup(instances, aliases, name).None? <==> Free(blocks, k, name)
  {
    hide GoesBy;
    if Lookup(instances, aliases, name).Some? {
      var i := Lookup(instances, aliases, name).value;
      assert GoesBy(blocks[i], name);
    } else {
      forall i | 0 <= i < |blocks| && i < k ensures !GoesBy(blocks[i], name) {
        assert Lookup(instances, aliases, name) != Some(i);
      }
    }
  }

  lemma {:induction false} AliasFreeIff(
    instances: Instances, aliases: Aliases, blocks: seq<Block>, k: nat, name: string, given: seq<string>, j: nat)
    requires k < |blocks| && j < |given| && FoundWith(instances, aliases, blocks, k, name, given[..j])
    ensures Lookup(instances, aliases, given[j]).None? <==> AliasIsNew(blocks, k, name, given, j)
  {
    hide GoesBy;
    var a := given[j];
    if Lookup(instances, aliases, a).Some? {
      var i := Lookup(instances, aliases, a).value;
      if i != k { assert GoesBy(blocks[i], a); }
    } else {
      assert Lookup(instances, aliases, a) != Some(k);
      forall i | 0 <= i < |blocks| && i < k ensures !GoesBy(blocks[i], a) {
        assert Lookup(instances, aliases, a) != Some(i);
      }
    }
  }

  lemma {:induction false} NameIsFound(
    instances: Instances, aliases: Aliases, blocks: seq<Block>, k: nat, name: string)
    requires Proper(instances, aliases) && Found(instances, aliases, blocks, k)
    requires Lookup(instances, aliases, name).None?
    ensures FoundWith(instances[name := k], aliases, blocks, k, name, [])
  {
    hide GoesBy;
    var later := instances[name := k];
    forall n ensures Lookup(later, aliases, n) == if n == name then Some(k) else Lookup(instances, aliases, n) {}
  }

  lemma {:induction false} AliasIsFound(
    instances: Instances, aliases: Aliases, blocks: seq<Block>, k: nat, name: string, given: seq<string>,
    alias: string)
    requires FoundWith(instances, aliases, blocks, k, name, given) && Lookup(instances, aliases, alias).None?
    ensures FoundWith(instances, aliases[alias := name], blocks, k, name, given + [alias])
  {
    hide GoesBy;
    var later := aliases[alias := name];
    assert alias != name && forall n :: n in given + [alias] <==> n in given || n == alias;
    forall n ensures Lookup(instances, later, n) ==
      if n == alias && name != "" then Some(k) else Lookup(instances, aliases, n) {}
  }

  lemma {:induction false} BlockIsFound(instances: Instances, aliases: Aliases, blocks: seq<Block>, k: nat)
    requires k < |blocks| && !blocks[k].endpoint
    requires FoundWith(instances, aliases, blocks, k, InstName(blocks[k]), AliasesOf(blocks[k]))
    ensures Found(instances, aliases, blocks, k + 1)
  {}

  class Registry {
    var instances: Instances
    var aliases: Aliases

    constructor ()
      ensures instances == map[] && aliases == map[]
    {
      instances, aliases := map[], map[];
    }

    method HasInstance(name: string) returns (has: bool)
      ensures has == Lookup(instances, aliases, name).Some?
    {
      var n := name;
      if name in aliases && aliases[name] != "" { n := aliases[name]; }
      has := n in instances;
    }

    /** One block that is not an endpoint: its name, then its aliases. */
    method RegisterBlock(blocks: seq<Block>, k: nat) returns (r: Result<(), Error>)
      requires k < |blocks| && !blocks[k].endpoint
      requires Proper(instances, aliases) && Found(instances, aliases, blocks, k)
      modifies this
      ensures r.Ok? <==> BlockOk(blocks, k)
      ensures r == Err(UnknownModule) <==> !blocks[k].known
      ensures r == Err(FactoryFailed) <==>
        blocks[k].known && Free(blocks, k, InstName(blocks[k])) && !blocks[k].made
      ensures r.Err? ==> r.error in {UnknownModule, FactoryFailed, NameTaken}
      ensures r.Ok? ==> Proper(instances, aliases) && Found(instances, aliases, blocks, k + 1)
    {
      hide Found, FoundWith, Lookup, Free, AliasIsNew;
      var name, given := InstName(blocks[k]), AliasesOf(blocks[k]);
      if !blocks[k].known { return Err(UnknownModule); }
      var taken := HasInstance(name);
      FreeIff(instances, aliases, blocks, k, name);
      if taken { return Err(NameTaken); }
      if !blocks[k].made { return Err(FactoryFailed); }
      NameIsFound(instances, aliases, blocks, k, name);
      instances := instances[name := k];
      for j := 0 to |given|
        invariant FoundWith(instances, aliases, blocks, k, name, given[..j])
        invariant forall m :: 0 <= m < j ==> AliasIsNew(blocks, k, name, given, m)
      {
        taken := HasInstance(given[j]);
        AliasFreeIff(instances, aliases, blocks, k, name, given, j);
        if taken { return Err(NameTaken); }
        AliasIsFound(instances, aliases, blocks, k, name, given[..j], given[j]);
        aliases := aliases[given[j] := name];
        assert given[..j + 1] == given[..j] + [given[j]];
      }
      assert given[..|given|] == given;
      StillProper(instances, aliases, blocks, k, name, given);
      BlockIsFound(instances, aliases, blocks, k);
      return Ok(());
    }

    /**
     `RegisterModules` succeeds if and only if there is an endpoint, everything is known and can be made, and no
     name is given twice. Then every block is found under its names, no other name leads anywhere, and every
     alias gives the same as the name that it stands for.
     */
    method RegisterModules(blocks: seq<Block>) returns (r: Result<(seq<nat>, seq<nat>), Error>)
      requires instances == map[] && aliases == map[]
      modifies this
      ensures r.Ok? <==>
        && (forall k :: 0 <= k < |blocks| ==> BlockOk(blocks, k))
        && (exists k :: 0 <= k < |blocks| && blocks[k].endpoint)
      ensures r == Err(NoEndpoint) <==>
        && (forall k :: 0 <= k < |blocks| ==> BlockOk(blocks, k))
        && (forall k :: 0 <= k < |blocks| ==> !blocks[k].endpoint)
      ensures r.Ok? ==> Found(instances, aliases, blocks, |blocks|)
      ensures r.Ok? ==> forall a :: a in aliases && aliases[a] != "" ==>
        Lookup(instances, aliases, a) == Lookup(instances, aliases, aliases[a])
      ensures r.Ok? ==> Listed(blocks, |blocks|, r.value.0, true) && Listed(blocks, |blocks|, r.value.1, false)
    {
      hide NamesAreNew, Found, Listed;
      NothingFound(blocks);
      var endpoints: seq<nat>, mods: seq<nat> := [], [];
      for k := 0 to |blocks|
        invariant Proper(instances, aliases) && Found(instances, aliases, blocks, k)
        invariant forall i :: 0 <= i < k ==> BlockOk(blocks, i)
        invariant Listed(blocks, k, endpoints, true) && Listed(blocks, k, mods, false)
      {
        ListedNext(blocks, k, endpoints, true);
        ListedNext(blocks, k, mods, false);
        if blocks[k].endpoint {
          if !blocks[k].made {
            assert !BlockOk(blocks, k);
            return Err(FactoryFailed);
          }
          EndpointHasNoName(instances, aliases, blocks, k);
          endpoints := endpoints + [k];
        } else {
          var done := RegisterBlock(blocks, k);
          if done.Err? { return Err(done.error); }
          mods := mods + [k];
        }
      }
      ListedSome(blocks, endpoints);
      if endpoints == [] { return Err(NoEndpoint); }
      return Ok((endpoints, mods));
    }
  }

  lemma {:induction false} StillProper(
    instances: Instances, aliases: Aliases, blocks: seq<Block>, k: nat, name: string, given: seq<string>)
    requires FoundWith(instances, aliases, blocks, k, name, given)
    ensures Proper(instances, aliases)
  {}

  lemma {:induction false} EndpointHasNoName(instances: Instances, aliases: Aliases, blocks: seq<Block>, k: nat)
    requires k < |blocks| && blocks[k].endpoint && Found(instances, aliases, blocks, k)
    ensures Found(instances, aliases, blocks, k + 1)
  {}

  lemma {:induction false} NothingFound(blocks: seq<Block>)
    ensures Found(map[], map[], blocks, 0) && Listed(blocks, 0, [], true) && Listed(blocks, 0, [], false)
  {}

  lemma {:induction false} ListedSome(blocks: seq<Block>, list: seq<nat>)
    requires Listed(blocks, |blocks|, list, true)
    ensures list != [] <==> exists k :: 0 <= k < |blocks| && blocks[k].endpoint
  {
    if list != [] { assert list[0] in list; }
    forall k | 0 <= k < |blocks| && blocks[k].endpoint ensures list != [] { assert k in list; }
  }

  /** The list holds the first `k` blocks of one kind, in order. */
  ghost predicate Listed(blocks: seq<Block>, k: nat, list: seq<nat>, endpoint: bool) {
    && (forall i: nat :: i in list <==> i < k && i < |blocks| && blocks[i].endpoint == endpoint)
    && (forall i, j :: 0 <= i < j < |list| ==> list[i] < list[j])
  }

  lemma {:induction false} ListedNext(blocks: seq<Block>, k: nat, list: seq<nat>, endpoint: bool)
    requires k < |blocks| && Listed(blocks, k, list, endpoint)
    ensures Listed(blocks, k + 1, if blocks[k].endpoint == endpoint then list + [k] else list, endpoint)
  {
    forall i | 0 <= i < |list| ensures list[i] < k { assert list[i] in list; }
  }
}
