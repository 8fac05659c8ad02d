/**
 Each object is initialised at most once, and shutdown closes every closable object that lies on no
 cycle of references strictly before everything it reaches.
 */
module ShutdownOrder {
  import opened Common
  import opened Modules
  import opened ModuleGraph

  // ---------------------------------------------------------------------------
  // Unused blocks
  // ---------------------------------------------------------------------------

  lemma {:induction false} FirstUnusedMeaning(cfg: Config, st: State, i: nat)
    requires i <= |cfg.blocks|
    ensures FirstUnused(cfg, st, i).None? <==> forall k :: i <= k < |cfg.blocks| ==> cfg.blocks[k] in st.initialized
    ensures FirstUnused(cfg, st, i).Some? ==>
              FirstUnused(cfg, st, i).value in cfg.blocks[i..] && FirstUnused(cfg, st, i).value !in st.initialized
    decreases |cfg.blocks| - i
  {
    if i < |cfg.blocks| {
      FirstUnusedMeaning(cfg, st, i + 1);
      assert cfg.blocks[i..] == [cfg.blocks[i]] + cfg.blocks[i + 1..];
    }
  }

  /**
   When the endpoints initialise, an unused block is reported exactly when some registered block
   is unreachable from them, and the block reported is such a block.
   */
  lemma {:induction false} UnusedIffUnreachable(cfg: Config)
    requires InitEndpoints(cfg, INITIAL, 0).Ok?
    ensures InitModules(cfg).Unused? <==> exists b :: b in cfg.blocks && !Used(cfg, b)
    ensures InitModules(cfg).Unused? ==> InitModules(cfg).block in cfg.blocks && !Used(cfg, InitModules(cfg).block)
    ensures !InitModules(cfg).Unused? ==> InitModules(cfg) == Started(InitEndpoints(cfg, INITIAL, 0).value)
  {
    var st := InitEndpoints(cfg, INITIAL, 0).value;
    FirstUnusedMeaning(cfg, st, 0);
    assert cfg.blocks[0..] == cfg.blocks;
    forall b | b in cfg.blocks
      ensures b in st.initialized <==> Used(cfg, b)
    {
      InitializedIffUsed(cfg, b);
    }
  }

  // ---------------------------------------------------------------------------
  // At most once
  // ---------------------------------------------------------------------------

  /** `d` is `u` or an inline module nested in it. */
  predicate Within(d: Obj, u: Obj) { d == u || (d.Anon? && Within(d.owner, u)) }

  /** `d` stands below one of the inline references of `u` from the `i`-th on. */
  predicate Below(d: Obj, u: Obj, i: nat) {
    d.Anon? && ((d.owner == u && d.index >= i) || Below(d.owner, u, i))
  }

  function RootOf(d: Obj): Obj { if d.Anon? then RootOf(d.owner) else d }

  function Depth(d: Obj): nat { if d.Anon? then 1 + Depth(d.owner) else 0 }

  lemma {:induction false} WithinFacts(d: Obj, u: Obj)
    requires Within(d, u)
    ensures RootOf(d) == RootOf(u) && Depth(d) >= Depth(u)
  {
    if d != u {
      WithinFacts(d.owner, u);
    }
  }

  lemma {:induction false} BelowFacts(d: Obj, u: Obj, i: nat)
    requires Below(d, u, i)
    ensures RootOf(d) == RootOf(u) && Depth(d) > Depth(u) && Within(d, u)
  {
    if !(d.owner == u && d.index >= i) {
      BelowFacts(d.owner, u, i);
    }
  }

  lemma {:induction false} WithinIsBelow(d: Obj, u: Obj, i: nat)
    requires Within(d, Anon(u, i))
    ensures Below(d, u, i) && !Below(d, u, i + 1)
  {
    if d == Anon(u, i) {
      if Below(u, u, i + 1) {
        BelowFacts(u, u, i + 1);
      }
    } else {
      WithinIsBelow(d.owner, u, i);
      WithinFacts(d.owner, Anon(u, i));
    }
  }

  lemma {:induction false} BelowLater(d: Obj, u: Obj, i: nat)
    requires Below(d, u, i + 1)
    ensures Below(d, u, i)
  {
    if d.owner != u {
      BelowLater(d.owner, u, i);
    } else if d.index < i + 1 {
      BelowLater(d.owner, u, i);
    }
  }

  /** `d` belongs to a block that was initialised in between. */
  predicate NewRoot(d: Obj, before: State, after: State) {
    RootOf(d).Named? && RootOf(d).name in after.initialized - before.initialized
  }

  /** The block that `u` belongs to is already marked as initialised. */
  predicate RootMarked(u: Obj, st: State) { RootOf(u).Named? ==> RootOf(u).name in st.initialized }

  /** A log of distinct objects, each inside `u` or inside a newly initialised block. */
  predicate BatchIn(s: seq<Obj>, u: Obj, before: State, after: State) {
    Distinct(s) && forall k :: 0 <= k < |s| ==> Within(s[k], u) || NewRoot(s[k], before, after)
  }

  /** The same for the references of `u` from the `i`-th on. */
  predicate BatchBelow(s: seq<Obj>, u: Obj, i: nat, before: State, after: State) {
    Distinct(s) && forall k :: 0 <= k < |s| ==> Below(s[k], u, i) || NewRoot(s[k], before, after)
  }

  lemma {:induction false} JoinBatches(a: seq<Obj>, b: seq<Obj>, u: Obj, i: nat, s0: State, s1: State, s2: State)
    requires s0.initialized <= s1.initialized <= s2.initialized && RootMarked(u, s0)
    requires BatchIn(a, Anon(u, i), s0, s1) && BatchBelow(b, u, i + 1, s1, s2)
    ensures BatchBelow(a + b, u, i, s0, s2)
  {
    forall k | 0 <= k < |a|
      ensures Below(a[k], u, i) || NewRoot(a[k], s0, s2)
    {
      if Within(a[k], Anon(u, i)) {
        WithinIsBelow(a[k], u, i);
      }
    }
    forall k | 0 <= k < |b|
      ensures Below(b[k], u, i) || NewRoot(b[k], s0, s2)
    {
      if Below(b[k], u, i + 1) {
        BelowLater(b[k], u, i);
      }
    }
    forall k, l | 0 <= k < |a| && 0 <= l < |b|
      ensures a[k] != b[l]
    {
      if Below(b[l], u, i + 1) {
        BelowFacts(b[l], u, i + 1);
        if Within(a[k], Anon(u, i)) {
          WithinIsBelow(a[k], u, i);
        }
      } else if Within(a[k], Anon(u, i)) {
        WithinFacts(a[k], Anon(u, i));
      }
    }
  }

  lemma {:induction false} CloseBatch(s: seq<Obj>, u: Obj, before: State, after: State)
    requires BatchBelow(s, u, 0, before, after) && RootMarked(u, before)
    ensures BatchIn(s + [u], u, before, after) && BatchIn([u] + s, u, before, after)
  {
    forall k | 0 <= k < |s|
      ensures s[k] != u && (Within(s[k], u) || NewRoot(s[k], before, after))
    {
      if Below(s[k], u, 0) {
        BelowFacts(s[k], u, 0);
      }
    }
  }

  /** What was appended to a log. */
  function Added(before: seq<Obj>, after: seq<Obj>): seq<Obj> {
    if before <= after then after[|before|..] else after
  }

  lemma {:induction false} AddedTwice(a: seq<Obj>, b: seq<Obj>, c: seq<Obj>)
    requires a <= b <= c
    ensures a <= c && Added(a, c) == Added(a, b) + Added(b, c)
  {}

  lemma {:induction false} ObjectOnce(cfg: Config, st: State, obj: Obj, m: Mod)
    requires InitObject(cfg, st, obj, m).Ok? && RootMarked(obj, st)
    ensures var st' := InitObject(cfg, st, obj, m).value;
            && st.done <= st'.done && BatchIn(Added(st.done, st'.done), obj, st, st')
            && st.begun <= st'.begun && BatchIn(Added(st.begun, st'.begun), obj, st, st')
    decreases Uninitialized(cfg, st), 1, m, 1
  {
    var st1 := st.(begun := st.begun + [obj]);
    var st2 := InitRefs(cfg, st1, obj, m.refs, 0).value;
    var st' := InitObject(cfg, st, obj, m).value;
    RefsOnce(cfg, st1, obj, m.refs, 0);
    CloseBatch(Added(st1.done, st2.done), obj, st1, st2);
    CloseBatch(Added(st1.begun, st2.begun), obj, st1, st2);
    assert Added(st.done, st'.done) == Added(st1.done, st2.done) + [obj];
    assert Added(st.begun, st'.begun) == [obj] + Added(st1.begun, st2.begun);
  }

  lemma {:induction false} RefsOnce(cfg: Config, st: State, obj: Obj, rest: seq<Ref>, i: nat)
    requires InitRefs(cfg, st, obj, rest, i).Ok? && RootMarked(obj, st)
    ensures var st' := InitRefs(cfg, st, obj, rest, i).value;
            && st.done <= st'.done && BatchBelow(Added(st.done, st'.done), obj, i, st, st')
            && st.begun <= st'.begun && BatchBelow(Added(st.begun, st'.begun), obj, i, st, st')
    decreases Uninitialized(cfg, st), 1, rest, 0
  {
    if rest != [] {
      var st1 := InitRef(cfg, st, obj, rest[0], i).value;
      var st2 := InitRefs(cfg, st, obj, rest, i).value;
      RefOnce(cfg, st, obj, rest[0], i);
      RefsOnce(cfg, st1, obj, rest[1..], i + 1);
      hide *;
      AddedTwice(st.done, st1.done, st2.done);
      AddedTwice(st.begun, st1.begun, st2.begun);
      JoinBatches(Added(st.done, st1.done), Added(st1.done, st2.done), obj, i, st, st1, st2);
      JoinBatches(Added(st.begun, st1.begun), Added(st1.begun, st2.begun), obj, i, st, st1, st2);
    }
  }

  lemma {:induction false} RefOnce(cfg: Config, st: State, obj: Obj, ref: Ref, i: nat)
    requires InitRef(cfg, st, obj, ref, i).Ok? && RootMarked(obj, st)
    ensures var st' := InitRef(cfg, st, obj, ref, i).value;
            && st.done <= st'.done && BatchIn(Added(st.done, st'.done), Anon(obj, i), st, st')
            && st.begun <= st'.begun && BatchIn(Added(st.begun, st'.begun), Anon(obj, i), st, st')
            && st.initialized <= st'.initialized && RootMarked(obj, st')
    decreases Uninitialized(cfg, st), 1, ref, 2
  {
    match ref
    case Inline(m, _) =>
      ObjectOnce(cfg, st, Anon(obj, i), m);
    case ByName(name, _) =>
      NamedOnce(cfg, st, name, Anon(obj, i));
  }

  lemma {:induction false} NamedOnce(cfg: Config, st: State, name: string, u: Obj)
    requires GetInstance(cfg, st, name).Ok?
    ensures var st' := GetInstance(cfg, st, name).value;
            && st.done <= st'.done && BatchIn(Added(st.done, st'.done), u, st, st')
            && st.begun <= st'.begun && BatchIn(Added(st.begun, st'.begun), u, st, st')
    decreases Uninitialized(cfg, st), 0
  {
    var inst := Resolve(cfg, name);
    if inst !in st.initialized {
      assert inst in Uninitialized(cfg, st);
      var st1 := st.(initialized := st.initialized + {inst});
      ObjectOnce(cfg, st1, Named(inst), cfg.instances[inst]);
      var st' := InitObject(cfg, st1, Named(inst), cfg.instances[inst]).value;
      NamedBatch(Added(st.done, st'.done), inst, u, st, st1, st');
      NamedBatch(Added(st.begun, st'.begun), inst, u, st, st1, st');
    }
  }

  /** Everything logged while a named block initialises belongs to a newly initialised block. */
  lemma {:induction false} NamedBatch(s: seq<Obj>, inst: string, u: Obj, st: State, st1: State, st': State)
    requires inst !in st.initialized && st1.initialized == st.initialized + {inst} && st1.initialized <= st'.initialized
    requires BatchIn(s, Named(inst), st1, st')
    ensures BatchIn(s, u, st, st')
  {
    forall k | 0 <= k < |s|
      ensures NewRoot(s[k], st, st')
    {
      if Within(s[k], Named(inst)) {
        WithinFacts(s[k], Named(inst));
      }
    }
  }

  /** A log of distinct objects that belong to initialised blocks or to the first `i` endpoints. */
  predicate CleanLog(s: seq<Obj>, st: State, i: nat) {
    Distinct(s) && forall k :: 0 <= k < |s| ==>
      (RootOf(s[k]).Named? && RootOf(s[k]).name in st.initialized)
      || (RootOf(s[k]).Endpoint? && RootOf(s[k]).index < i)
  }

  lemma {:induction false} LogGrows(a: seq<Obj>, c: seq<Obj>, i: nat, st: State, st': State)
    requires a <= c && CleanLog(a, st, i) && BatchIn(Added(a, c), Endpoint(i), st, st')
      && st.initialized <= st'.initialized
    ensures CleanLog(c, st', i + 1)
  {
    var b := Added(a, c);
    assert c == a + b;
    forall k | 0 <= k < |b|
      ensures NewRoot(b[k], st, st') || RootOf(b[k]) == Endpoint(i)
    {
      if Within(b[k], Endpoint(i)) {
        WithinFacts(b[k], Endpoint(i));
      }
    }
    forall k, l | 0 <= k < |a| && 0 <= l < |b|
      ensures a[k] != b[l]
    {
      assert NewRoot(b[l], st, st') || RootOf(b[l]) == Endpoint(i);
    }
  }

  lemma {:induction false} EndpointsOnce(cfg: Config, st: State, i: nat)
    requires i <= |cfg.endpoints| && InitEndpoints(cfg, st, i).Ok?
    requires CleanLog(st.done, st, i) && CleanLog(st.begun, st, i)
    ensures var st' := InitEndpoints(cfg, st, i).value;
            CleanLog(st'.done, st', |cfg.endpoints|) && CleanLog(st'.begun, st', |cfg.endpoints|)
    decreases |cfg.endpoints| - i
  {
    if i < |cfg.endpoints| {
      var st1 := InitObject(cfg, st, Endpoint(i), cfg.endpoints[i]).value;
      ObjectOnce(cfg, st, Endpoint(i), cfg.endpoints[i]);
      LogGrows(st.done, st1.done, i, st, st1);
      LogGrows(st.begun, st1.begun, i, st, st1);
      hide CleanLog, InitObject;
      EndpointsOnce(cfg, st1, i + 1);
    }
  }

  /** No object is initialised twice, circular references or not. */
  lemma {:induction false} InitializedAtMostOnce(cfg: Config)
    requires InitEndpoints(cfg, INITIAL, 0).Ok?
    ensures var st := InitEndpoints(cfg, INITIAL, 0).value;
            Distinct(st.begun) && Distinct(st.done)
  {
    EndpointsOnce(cfg, INITIAL, 0);
  }

  // ---------------------------------------------------------------------------
  // Shutdown
  // ---------------------------------------------------------------------------

  /** `u` occurs exactly once in `s`, at `i`. */
  predicate OnlyAt(s: seq<Obj>, u: Obj, i: nat) {
    i < |s| && s[i] == u && forall k :: 0 <= k < |s| && s[k] == u ==> k == i
  }

  /** Filtering keeps the order of two closable objects and keeps occurrences single. */
  lemma {:induction false} FilterKeepsOrder(cfg: Config, s: seq<Obj>, a: nat, b: nat) returns (i: nat, j: nat)
    requires Distinct(s) && a < b < |s| && Closable(cfg, s[a]) && Closable(cfg, s[b])
    ensures var f := ClosableOnly(cfg, s);
            i < j && OnlyAt(f, s[a], i) && OnlyAt(f, s[b], j)
    decreases |s|
  {
    var p, last := s[..|s| - 1], s[|s| - 1];
    var f := ClosableOnly(cfg, p);
    if b < |s| - 1 {
      i, j := FilterKeepsOrder(cfg, p, a, b);
      assert p[a] == s[a] && p[b] == s[b];
    } else {
      i := FilterKeepsOne(cfg, p, a);
      j := |f|;
      FilterDropsAbsent(cfg, p, last);
    }
  }

  lemma {:induction false} FilterKeepsOne(cfg: Config, s: seq<Obj>, a: nat) returns (i: nat)
    requires Distinct(s) && a < |s| && Closable(cfg, s[a])
    ensures OnlyAt(ClosableOnly(cfg, s), s[a], i)
    decreases |s|
  {
    var p, last := s[..|s| - 1], s[|s| - 1];
    if a < |s| - 1 {
      i := FilterKeepsOne(cfg, p, a);
      assert p[a] == s[a];
    } else {
      i := |ClosableOnly(cfg, p)|;
      FilterDropsAbsent(cfg, p, last);
    }
  }

  lemma {:induction false} FilterDropsAbsent(cfg: Config, s: seq<Obj>, u: Obj)
    requires forall k :: 0 <= k < |s| ==> s[k] != u
    ensures forall k :: 0 <= k < |ClosableOnly(cfg, s)| ==> ClosableOnly(cfg, s)[k] != u
    decreases |s|
  {
    if s != [] {
      FilterDropsAbsent(cfg, s[..|s| - 1], u);
    }
  }

  /** The closing order of a started server. */
  function ClosingOrder(st: State): seq<Obj> { Reversed(st.hooks) }

  /** `u` and `v` are closed once each, `u` first. */
  ghost predicate ClosedFirst(order: seq<Obj>, u: Obj, v: Obj) {
    exists i, j :: 0 <= i < j && OnlyAt(order, u, i) && OnlyAt(order, v, j)
  }

  ghost predicate Running(cfg: Config, u: Obj) {
    exists e: nat :: e < |cfg.endpoints| && Reaches(cfg, Endpoint(e), u)
  }

  /**
   A server that started closes every closable object that lies on no cycle of references exactly
   once and strictly before every closable object that it reaches, whatever cycles there are
   elsewhere.
   */
  lemma {:induction false} ClosedBeforeWhatItReaches(cfg: Config, u: Obj, v: Obj)
    requires InitModules(cfg).Started? && Running(cfg, u) && ReachesBeyond(cfg, u, v) && OnNoCycle(cfg, u)
    requires Closable(cfg, u) && Closable(cfg, v)
    ensures ClosedFirst(ClosingOrder(InitModules(cfg).st), u, v)
  {
    hide *;
    StartedFacts(cfg);
    var st := InitModules(cfg).st;
    IsFinished(cfg, st, u);
    var y, x := FinishedEarlier(cfg, st.done, u, v);
    NotItself(cfg, u, v);
    FinishesFirstIff(cfg, st, u, v, x, y);
  }

  lemma {:induction false} NotItself(cfg: Config, u: Obj, v: Obj)
    requires ReachesBeyond(cfg, u, v) && OnNoCycle(cfg, u)
    ensures u != v
  {}

  /** When `u` begins, a path leads from it to `v` through blocks that have not begun. */
  ghost predicate LeadsTo(cfg: Config, begun: seq<Obj>, u: Obj, v: Obj) {
    exists b :: 0 <= b < |begun| && begun[b] == u && White(cfg, begun[..b], u, v)
  }

  predicate BeginsBefore(begun: seq<Obj>, u: Obj, v: Obj) {
    exists i, j :: 0 <= i < j < |begun| && begun[i] == u && begun[j] == v
  }

  /** Of two objects, the one that begins first finishes last if and only if it leads to the other. */
  lemma {:induction false} FinishesLastIff(
    cfg: Config, begun: seq<Obj>, done: seq<Obj>, bu: nat, bv: nat, ku: nat, kv: nat)
    requires Distinct(begun) && Distinct(done) && Nested(cfg, begun, done)
    requires bu < bv < |begun| && ku < |done| && kv < |done| && begun[bu] == done[ku] && begun[bv] == done[kv]
    ensures kv < ku <==> LeadsTo(cfg, begun, done[ku], done[kv])
  {
    hide White;
    assert EnclosesAt(cfg, begun, done, ku);
    var u, v := done[ku], done[kv];
    assert v !in begun[..bu];
    assert v in done[..ku + 1] <==> White(cfg, begun[..bu], u, v);
    if kv < ku { assert done[..ku + 1][kv] == v; }
    if v in done[..ku + 1] {
      var k :| 0 <= k < ku + 1 && done[k] == v;
      assert k == kv && kv != ku;
    }
  }

  /**
   Which of two objects is closed first, cycles or not: `u` is closed before `v` exactly when it
   begins first and leads to `v` through blocks that have not begun by then, or begins second and
   `v` does not lead to it in this sense.
   */
  lemma {:induction false} ClosedFirstIff(cfg: Config, u: Obj, v: Obj)
    requires InitModules(cfg).Started? && Running(cfg, u) && Running(cfg, v) && u != v
    requires Closable(cfg, u) && Closable(cfg, v)
    ensures var st := InitModules(cfg).st;
            ClosedFirst(ClosingOrder(st), u, v) <==>
              if BeginsBefore(st.begun, u, v) then LeadsTo(cfg, st.begun, u, v) else !LeadsTo(cfg, st.begun, v, u)
  {
    hide *;
    StartedFacts(cfg);
    var st := InitModules(cfg).st;
    var bu, ku := Positions(cfg, st, u);
    var bv, kv := Positions(cfg, st, v);
    FinishesFirstIff(cfg, st, u, v, ku, kv);
    BeginsBeforeIff(st.begun, u, v, bu, bv);
    if bu < bv { FinishesLastIff(cfg, st.begun, st.done, bu, bv, ku, kv); }
    else { FinishesLastIff(cfg, st.begun, st.done, bv, bu, kv, ku); }
  }

  /** Where a running object stands in the logs. */
  lemma {:induction false} Positions(cfg: Config, st: State, u: Obj) returns (b: nat, k: nat)
    requires Accounted(cfg, st, []) && Running(cfg, u) && (forall x :: x in st.done ==> x in st.begun)
    requires forall e :: 0 <= e < |cfg.endpoints| ==> Endpoint(e) in st.done
    ensures b < |st.begun| && k < |st.done| && st.begun[b] == u && st.done[k] == u
  {
    IsFinished(cfg, st, u);
    b :| 0 <= b < |st.begun| && st.begun[b] == u;
    k :| 0 <= k < |st.done| && st.done[k] == u;
  }

  lemma {:induction false} BeginsBeforeIff(begun: seq<Obj>, u: Obj, v: Obj, bu: nat, bv: nat)
    requires Distinct(begun) && bu < |begun| && bv < |begun| && begun[bu] == u && begun[bv] == v && u != v
    ensures bu != bv && (BeginsBefore(begun, u, v) <==> bu < bv)
  {}

  /** What finishes last is closed first. */
  lemma {:induction false} FinishesFirstIff(cfg: Config, st: State, u: Obj, v: Obj, ku: nat, kv: nat)
    requires st.hooks == ClosableOnly(cfg, st.done) && Distinct(st.done) && u != v
    requires ku < |st.done| && kv < |st.done| && st.done[ku] == u && st.done[kv] == v
    requires Closable(cfg, u) && Closable(cfg, v)
    ensures ku != kv && (ClosedFirst(ClosingOrder(st), u, v) <==> kv < ku)
  {
    hide Closable, ClosableOnly, Distinct;
    if kv < ku {
      var fv, fu := FilterKeepsOrder(cfg, st.done, kv, ku);
      ReversedOrder(st.hooks, u, v, fu, fv);
    } else {
      var fu, fv := FilterKeepsOrder(cfg, st.done, ku, kv);
      ReversedOrder(st.hooks, v, u, fv, fu);
      assert !ClosedFirst(ClosingOrder(st), u, v);
    }
  }

  /** Without reference cycles the whole closing order is topological. */
  lemma {:induction false} AcyclicClosesInOrder(cfg: Config, u: Obj, v: Obj)
    requires Acyclic(cfg) && InitModules(cfg).Started? && Running(cfg, u) && ReachesBeyond(cfg, u, v)
    requires Closable(cfg, u) && Closable(cfg, v)
    ensures ClosedFirst(ClosingOrder(InitModules(cfg).st), u, v)
  {
    hide InitModules, Running, Closable, ClosedFirst, ClosingOrder;
    ClosedBeforeWhatItReaches(cfg, u, v);
  }

  lemma {:induction false} IsFinished(cfg: Config, st: State, u: Obj)
    requires Accounted(cfg, st, []) && Running(cfg, u)
    requires forall e :: 0 <= e < |cfg.endpoints| ==> Endpoint(e) in st.done
    ensures u in st.done
  {
    var e: nat :| e < |cfg.endpoints| && Reaches(cfg, Endpoint(e), u);
    var p :| IsPath(cfg, p) && p[0] == Endpoint(e) && p[|p| - 1] == u;
    PathIsDone(cfg, st, p, |p| - 1);
  }

  lemma {:induction false} FinishedEarlier(cfg: Config, done: seq<Obj>, u: Obj, v: Obj) returns (y: nat, x: nat)
    requires PostOrdered(cfg, done) && u in done && OnNoCycle(cfg, u) && ReachesBeyond(cfg, u, v)
    ensures y < x < |done| && done[x] == u && done[y] == v
  {
    x :| 0 <= x < |done| && done[x] == u;
    assert v in done[..x];
    y :| 0 <= y < x && done[..x][y] == v;
  }

  lemma {:induction false} ReversedOrder(s: seq<Obj>, u: Obj, v: Obj, fi: nat, fj: nat)
    requires fj < fi && OnlyAt(s, u, fi) && OnlyAt(s, v, fj)
    ensures ClosedFirst(Reversed(s), u, v)
  {
    ReversedOnlyAt(s, u, fi);
    ReversedOnlyAt(s, v, fj);
  }

  /** What is known of the logs of a server that started. */
  lemma {:induction false} StartedFacts(cfg: Config)
    requires InitModules(cfg).Started?
    ensures var st := InitModules(cfg).st;
            && st.hooks == ClosableOnly(cfg, st.done) && PostOrdered(cfg, st.done) && Distinct(st.done)
            && Accounted(cfg, st, []) && Nested(cfg, st.begun, st.done) && Distinct(st.begun)
            && (forall x :: x in st.done ==> x in st.begun)
            && forall e :: 0 <= e < |cfg.endpoints| ==> Endpoint(e) in st.done
  {
    assert Sound(cfg, INITIAL, []);
    hide InitEndpoints, PostOrdered, Nested, Accounted;
    EndpointsOrdered(cfg, INITIAL, 0);
    InitializedAtMostOnce(cfg);
  }

  lemma {:induction false} ReversedOnlyAt(s: seq<Obj>, u: Obj, i: nat)
    requires OnlyAt(s, u, i)
    ensures OnlyAt(Reversed(s), u, |s| - 1 - i)
  {}

  // ---------------------------------------------------------------------------
  // On a cycle
  // ---------------------------------------------------------------------------

  /** The endpoint refers to the block `a`, which has two inline modules; the first refers back to `a`. */
  function Looped(): Config {
    var u, v := Mod([ByName("a", true)], true, true), Mod([], true, true);
    var a := Mod([Inline(u, true), Inline(v, true)], true, false);
    Config(map["a" := a], map[], [Mod([ByName("a", true)], true, false)], ["a"])
  }

  const A := Named("a")
  const U := Anon(A, 0)
  const V := Anon(A, 1)

  lemma {:induction false} LoopedEdges()
    ensures Edge(Looped(), Endpoint(0), A) && Edge(Looped(), A, U) && Edge(Looped(), A, V) && Edge(Looped(), U, A)
    ensures |Looped().endpoints| == 1 && forall x :: !Edge(Looped(), V, x)
  {
    EdgeOf(Looped(), Endpoint(0), 0);
    EdgeOf(Looped(), A, 0);
    EdgeOf(Looped(), A, 1);
    EdgeOf(Looped(), U, 0);
  }

  lemma {:induction false} LoopedReaches()
    ensures Running(Looped(), U) && ReachesBeyond(Looped(), U, V) && !ReachesBeyond(Looped(), V, U)
  {
    hide Edge, Looped;
    LoopedEdges();
    var cfg, e := Looped(), Endpoint(0);
    assert IsPath(cfg, [U]) && IsPath(cfg, [e]);
    PathSnoc(cfg, [U], A);
    PathSnoc(cfg, [U] + [A], V);
    PathSnoc(cfg, [e], A);
    PathSnoc(cfg, [e] + [A], U);
    assert Reaches(cfg, e, U);
    forall p | IsPath(cfg, p) && |p| >= 2 ensures p[0] != V { assert Step(cfg, p, 0); }
  }

  /** How an object with at most two references initialises. */
  lemma {:induction false} FewRefs(cfg: Config, st: State, obj: Obj, m: Mod, st1: State, st2: State)
    requires |m.refs| <= 2 && m.initOk
    requires var begun := st.(begun := st.begun + [obj]);
             && (m.refs == [] ==> st2 == begun)
             && (|m.refs| == 1 ==> InitRef(cfg, begun, obj, m.refs[0], 0) == Ok(st2))
             && (|m.refs| == 2 ==> InitRef(cfg, begun, obj, m.refs[0], 0) == Ok(st1)
                                   && InitRef(cfg, st1, obj, m.refs[1], 1) == Ok(st2))
    ensures InitObject(cfg, st, obj, m) ==
            Ok(st2.(done := st2.done + [obj], hooks := if m.closable then st2.hooks + [obj] else st2.hooks))
  {
    var begun := st.(begun := st.begun + [obj]);
    hide InitRef;
    if |m.refs| == 1 {
      assert m.refs[1..] == [];
    } else if |m.refs| == 2 {
      assert m.refs[1..] == [m.refs[1]] && m.refs[1..][1..] == [];
      assert InitRefs(cfg, st1, obj, [m.refs[1]], 1) == Ok(st2);
    }
    assert InitRefs(cfg, begun, obj, m.refs, 0) == Ok(st2);
  }

  lemma {:induction false} NameRef(cfg: Config, st: State, obj: Obj, name: string, i: nat)
    requires name in cfg.instances && cfg.aliases == map[]
    ensures name in st.initialized ==> InitRef(cfg, st, obj, ByName(name, true), i) == Ok(st)
    ensures name !in st.initialized ==>
              InitRef(cfg, st, obj, ByName(name, true), i) ==
              InitObject(cfg, st.(initialized := st.initialized + {name}), Named(name), cfg.instances[name])
  {
    hide InitObject;
  }

  /** The first inline module finds `a` under way, so it finishes before the second. */
  lemma {:induction false} LoopedBlock()
    ensures InitObject(Looped(), State({"a"}, [], [Endpoint(0)], []), A, Looped().instances["a"]) ==
            Ok(State({"a"}, [U, V], [Endpoint(0), A, U, V], [U, V, A]))
  {
    var cfg, e := Looped(), Endpoint(0);
    var a := cfg.instances["a"];
    hide InitObject;
    assert [e] + [A] == [e, A] && [e, A] + [U] == [e, A, U] && [e, A, U] + [V] == [e, A, U, V];
    assert [] + [U] == [U] && [U] + [V] == [U, V] && [U, V] + [A] == [U, V, A];
    var s1, s2 := State({"a"}, [], [e, A], []), State({"a"}, [U], [e, A, U], [U]);
    NameRef(cfg, s1.(begun := [e, A, U]), U, "a", 0);
    FewRefs(cfg, s1, U, a.refs[0].mod, s1, s1.(begun := [e, A, U]));
    FewRefs(cfg, s2, V, a.refs[1].mod, s2, s2.(begun := [e, A, U, V]));
    FewRefs(cfg, State({"a"}, [], [e], []), A, a, s2, State({"a"}, [U, V], [e, A, U, V], [U, V]));
  }

  lemma {:induction false} LoopedCloses()
    ensures InitModules(Looped()).Started? && Closable(Looped(), U) && Closable(Looped(), V)
    ensures ClosingOrder(InitModules(Looped()).st) == [V, U]
  {
    hide InitObject, InitRef;
    var cfg, e := Looped(), Endpoint(0);
    var s0, s1 := State({}, [], [e], []), State({"a"}, [U, V], [e, A, U, V], [U, V, A]);
    assert {} + {"a"} == {"a"} && [] + [e] == [e];
    LoopedBlock();
    NameRef(cfg, s0, e, "a", 0);
    FewRefs(cfg, INITIAL, e, cfg.endpoints[0], s0, s1);
    assert InitEndpoints(cfg, INITIAL, 0) == Ok(s1.(done := s1.done + [e]));
  }

  /**
   An object on a cycle may be closed after one that it reaches and that does not reach it, although
   the opposite order would do.
   */
  lemma {:induction false} OnACycleClosedLate()
    ensures InitModules(Looped()).Started? && Running(Looped(), U) && Closable(Looped(), U) && Closable(Looped(), V)
    ensures ReachesBeyond(Looped(), U, V) && !ReachesBeyond(Looped(), V, U)
    ensures ClosingOrder(InitModules(Looped()).st) == [V, U] && !ClosedFirst([V, U], U, V)
  {
    LoopedReaches();
    LoopedCloses();
  }
}
