/**
 What initialisation does on the reference graph: it initialises exactly what the endpoints reach,
 circular references or not, and an object on no cycle finishes after everything it reaches.
 */
module ModuleGraph {
  import opened Common
  import opened Modules

  // ---------------------------------------------------------------------------
  // The reference graph
  // ---------------------------------------------------------------------------

  /** The module behind an object, if the configuration has it. */
  function ModOf(cfg: Config, u: Obj): Option<Mod> {
    match u
    case Endpoint(i) => if i < |cfg.endpoints| then Some(cfg.endpoints[i]) else None
    case Named(n) => if n in cfg.instances then Some(cfg.instances[n]) else None
    case Anon(o, i) =>
      match ModOf(cfg, o)
      case None => None
      case Some(m) => if i < |m.refs| && m.refs[i].Inline? then Some(m.refs[i].mod) else None
  }

  /** The object that the `i`-th reference of `u` leads to. */
  function Target(cfg: Config, u: Obj, ref: Ref, i: nat): Obj {
    match ref
    case ByName(name, _) => Named(Resolve(cfg, name))
    case Inline(_, _) => Anon(u, i)
  }

  predicate EdgeAt(cfg: Config, u: Obj, v: Obj, i: nat) {
    ModOf(cfg, u).Some? && i < |ModOf(cfg, u).value.refs|
    && Target(cfg, u, ModOf(cfg, u).value.refs[i], i) == v
  }

  predicate Edge(cfg: Config, u: Obj, v: Obj) {
    ModOf(cfg, u).Some? && exists i :: 0 <= i < |ModOf(cfg, u).value.refs| && EdgeAt(cfg, u, v, i)
  }

  predicate IsPath(cfg: Config, p: seq<Obj>) {
    p != [] && forall k :: 0 <= k < |p| - 1 ==> Step(cfg, p, k)
  }

  predicate Step(cfg: Config, p: seq<Obj>, k: nat)
    requires k + 1 < |p|
  {
    Edge(cfg, p[k], p[k + 1])
  }

  ghost predicate Reaches(cfg: Config, u: Obj, v: Obj) {
    exists p :: IsPath(cfg, p) && p[0] == u && p[|p| - 1] == v
  }

  /** No object is reachable from itself through at least one reference. */
  ghost predicate Acyclic(cfg: Config) {
    forall p :: IsPath(cfg, p) && |p| >= 2 ==> p[0] != p[|p| - 1]
  }

  lemma {:induction false} PathSnoc(cfg: Config, p: seq<Obj>, v: Obj)
    requires IsPath(cfg, p) && Edge(cfg, p[|p| - 1], v)
    ensures IsPath(cfg, p + [v])
  {
    var q := p + [v];
    forall k | 0 <= k < |q| - 1
      ensures Step(cfg, q, k)
    {
      if k < |p| - 1 {
        assert Step(cfg, p, k);
      }
    }
  }

  lemma {:induction false} PathDrop(cfg: Config, p: seq<Obj>, k: nat)
    requires IsPath(cfg, p) && k < |p|
    ensures IsPath(cfg, p[k..])
  {
    var q := p[k..];
    forall j | 0 <= j < |q| - 1
      ensures Step(cfg, q, j)
    {
      assert Step(cfg, p, k + j);
    }
  }

  lemma {:induction false} EdgeOf(cfg: Config, u: Obj, i: nat)
    requires ModOf(cfg, u).Some? && i < |ModOf(cfg, u).value.refs|
    ensures Edge(cfg, u, Target(cfg, u, ModOf(cfg, u).value.refs[i], i))
  {
    assert EdgeAt(cfg, u, Target(cfg, u, ModOf(cfg, u).value.refs[i], i), i);
  }

  // ---------------------------------------------------------------------------
  // References of an object
  // ---------------------------------------------------------------------------

  /** `rest` are the references of `obj` from the `i`-th on. */
  predicate RestOf(cfg: Config, obj: Obj, rest: seq<Ref>, i: nat) {
    ModOf(cfg, obj).Some? && i <= |ModOf(cfg, obj).value.refs| && rest == ModOf(cfg, obj).value.refs[i..]
  }

  lemma {:induction false} RestStep(cfg: Config, obj: Obj, rest: seq<Ref>, i: nat)
    requires RestOf(cfg, obj, rest, i) && rest != []
    ensures i < |ModOf(cfg, obj).value.refs| && rest[0] == ModOf(cfg, obj).value.refs[i]
    ensures RestOf(cfg, obj, rest[1..], i + 1)
    ensures Edge(cfg, obj, Target(cfg, obj, rest[0], i))
    ensures rest[0].Inline? ==> ModOf(cfg, Anon(obj, i)) == Some(rest[0].mod)
  {
    EdgeOf(cfg, obj, i);
  }

  // ---------------------------------------------------------------------------
  // Exactly what is reachable is initialised, in post-order
  // ---------------------------------------------------------------------------

  predicate Known(st: State, v: Obj) {
    if v.Named? then v.name in st.initialized else v in st.done
  }

  predicate TargetsKnown(cfg: Config, st: State, u: Obj) {
    ModOf(cfg, u).Some?
    && forall i :: 0 <= i < |ModOf(cfg, u).value.refs| ==> Known(st, Target(cfg, u, ModOf(cfg, u).value.refs[i], i))
  }

  function NameOf(obj: Obj): set<string> { if obj.Named? then {obj.name} else {} }

  /** `v` is reached from `u` through at least one reference. */
  ghost predicate ReachesBeyond(cfg: Config, u: Obj, v: Obj) {
    exists p :: IsPath(cfg, p) && |p| >= 2 && p[0] == u && p[|p| - 1] == v
  }

  ghost predicate OnNoCycle(cfg: Config, u: Obj) { !ReachesBeyond(cfg, u, u) }

  /** Everything the object reaches is in the log. */
  ghost predicate AllReachedIn(cfg: Config, u: Obj, done: seq<Obj>) {
    forall v :: ReachesBeyond(cfg, u, v) ==> v in done
  }

  /** An object on no cycle finishes after everything it reaches. */
  ghost predicate PostOrdered(cfg: Config, done: seq<Obj>) {
    forall k :: 0 <= k < |done| && OnNoCycle(cfg, done[k]) ==> AllReachedIn(cfg, done[k], done[..k])
  }

  lemma {:induction false} PostOrderedSnoc(cfg: Config, done: seq<Obj>, u: Obj)
    requires PostOrdered(cfg, done) && (OnNoCycle(cfg, u) ==> AllReachedIn(cfg, u, done))
    ensures PostOrdered(cfg, done + [u])
  {
    hide AllReachedIn, OnNoCycle;
    var d := done + [u];
    forall k | 0 <= k < |d| && OnNoCycle(cfg, d[k])
      ensures AllReachedIn(cfg, d[k], d[..k])
    {
      if k < |done| {
        assert d[..k] == done[..k];
      } else {
        assert d[..k] == done;
      }
    }
  }

  /** Finished objects have known targets, and initialised names are finished or under way. */
  predicate Accounted(cfg: Config, st: State, stack: seq<Obj>) {
    && (forall u :: u in st.done ==> TargetsKnown(cfg, st, u) && NameOf(u) <= st.initialized)
    && (forall n :: n in st.initialized ==> Named(n) in st.done || Named(n) in stack)
  }

  /** Some endpoint reaches the named block. */
  ghost predicate Used(cfg: Config, name: string) {
    exists e :: 0 <= e < |cfg.endpoints| && Reaches(cfg, Endpoint(e), Named(name))
  }

  predicate Closable(cfg: Config, u: Obj) { ModOf(cfg, u).Some? && ModOf(cfg, u).value.closable }

  function ClosableOnly(cfg: Config, s: seq<Obj>): seq<Obj> {
    if s == [] then []
    else
      var p := ClosableOnly(cfg, s[..|s| - 1]);
      if Closable(cfg, s[|s| - 1]) then p + [s[|s| - 1]] else p
  }

  /** The hooks are the closable finished objects, in the order in which they finished. */
  predicate HooksFollowDone(cfg: Config, st: State) { st.hooks == ClosableOnly(cfg, st.done) }

  ghost predicate AllUsed(cfg: Config, st: State) { forall n :: n in st.initialized ==> Used(cfg, n) }

  /** After its first object, the path leads through blocks that had not begun. */
  ghost predicate WhitePath(cfg: Config, before: seq<Obj>, p: seq<Obj>) {
    IsPath(cfg, p) && forall k :: 1 <= k < |p| && p[k].Named? ==> p[k] !in before
  }

  ghost predicate White(cfg: Config, before: seq<Obj>, u: Obj, v: Obj) {
    exists p :: WhitePath(cfg, before, p) && p[0] == u && p[|p| - 1] == v
  }

  /** What has finished once `u` has: what such a path leads to, and otherwise only what had begun. */
  ghost predicate Encloses(cfg: Config, before: seq<Obj>, u: Obj, done: seq<Obj>) {
    && (forall v :: White(cfg, before, u, v) ==> v in done)
    && (forall v :: v in done ==> v in before || White(cfg, before, u, v))
  }

  ghost predicate EnclosesAt(cfg: Config, begun: seq<Obj>, done: seq<Obj>, k: nat)
    requires k < |done|
  {
    exists b :: 0 <= b < |begun| && begun[b] == done[k] && Encloses(cfg, begun[..b], done[k], done[..k + 1])
  }

  ghost predicate Nested(cfg: Config, begun: seq<Obj>, done: seq<Obj>) {
    forall k :: 0 <= k < |done| ==> EnclosesAt(cfg, begun, done, k)
  }

  ghost predicate Ordered(cfg: Config, st: State) {
    PostOrdered(cfg, st.done) && Nested(cfg, st.begun, st.done) && AllUsed(cfg, st) && HooksFollowDone(cfg, st)
  }

  /** What is under way or finished has begun, and exactly the blocks that have begun are marked, or `next` is. */
  ghost predicate Logged(st: State, stack: seq<Obj>, next: Option<Obj>) {
    && (forall u :: u in st.done || u in stack ==> u in st.begun)
    && (forall n :: n in st.initialized ==> Named(n) in st.begun || next == Some(Named(n)))
    && (forall u :: u in st.begun ==> NameOf(u) <= st.initialized)
  }

  ghost predicate Sound(cfg: Config, st: State, stack: seq<Obj>) {
    Ordered(cfg, st) && Accounted(cfg, st, stack) && Logged(st, stack, None)
  }

  /** The same when `obj` is about to begin. */
  ghost predicate Entering(cfg: Config, st: State, stack: seq<Obj>, obj: Obj) {
    && Ordered(cfg, st) && Accounted(cfg, st, stack + [obj]) && Logged(st, stack, Some(obj))
    && NameOf(obj) <= st.initialized
  }

  /** The initialisations under way, from an endpoint on, each one reference further. */
  predicate Stack(cfg: Config, stack: seq<Obj>) {
    IsPath(cfg, stack) && stack[0].Endpoint? && stack[0].index < |cfg.endpoints|
  }

  lemma {:induction false} PathConcat(cfg: Config, p: seq<Obj>, q: seq<Obj>)
    requires IsPath(cfg, p) && IsPath(cfg, q) && p[|p| - 1] == q[0]
    ensures IsPath(cfg, p + q[1..])
  {
    var r := p + q[1..];
    forall k | 0 <= k < |r| - 1 ensures Step(cfg, r, k) {
      if k < |p| - 1 { assert Step(cfg, p, k); } else { assert Step(cfg, q, k - |p| + 1); }
    }
  }

  lemma {:induction false} PathTake(cfg: Config, p: seq<Obj>, k: nat)
    requires IsPath(cfg, p) && k < |p|
    ensures IsPath(cfg, p[..k + 1])
  {
    var q := p[..k + 1];
    forall j | 0 <= j < k ensures Step(cfg, q, j) { assert Step(cfg, p, j); }
  }

  /** Reaching something on the stack of initialisations under way closes a cycle. */
  lemma {:induction false} BackToTheStack(cfg: Config, stack: seq<Obj>, p: seq<Obj>)
    requires IsPath(cfg, stack) && IsPath(cfg, p) && |p| >= 2
    requires p[0] == stack[|stack| - 1] && p[|p| - 1] in stack
    ensures !OnNoCycle(cfg, p[0])
  {
    var m :| 0 <= m < |stack| && stack[m] == p[|p| - 1];
    PathDrop(cfg, stack, m);
    PathConcat(cfg, p, stack[m..]);
    var r := p + stack[m..][1..];
    assert r[0] == p[0] && r[|r| - 1] == p[0];
  }

  /** A path from an object on no cycle leads to something finished, or through what has not begun. */
  lemma {:induction false} FinishedOrWhite(cfg: Config, st: State, stack: seq<Obj>, obj: Obj, p: seq<Obj>, k: nat)
    requires IsPath(cfg, stack + [obj]) && Entering(cfg, st, stack, obj) && OnNoCycle(cfg, obj)
    requires IsPath(cfg, p) && p[0] == obj && k < |p|
    ensures p[k] in st.done || WhitePath(cfg, st.begun, p[..k + 1])
    decreases k
  {
    hide Ordered, OnNoCycle;
    PathTake(cfg, p, k);
    if k > 0 {
      FinishedOrWhite(cfg, st, stack, obj, p, k - 1);
      if p[k].Named? && p[k].name in st.initialized && p[k] !in st.done {
        BackToTheStack(cfg, stack + [obj], p[..k + 1]);
      }
      if p[k - 1] in st.done {
        assert TargetsKnown(cfg, st, p[k - 1]) && Step(cfg, p, k - 1);
        var i :| 0 <= i < |ModOf(cfg, p[k - 1]).value.refs| && EdgeAt(cfg, p[k - 1], p[k], i);
        assert Known(st, p[k]);
      } else {
        var q := p[..k + 1];
        forall j | 1 <= j < |q| && q[j].Named? && p[k] !in st.done ensures q[j] !in st.begun {
          if j < k { assert p[..k][j] == q[j]; } else { assert NameOf(q[j]) == {q[j].name}; }
        }
      }
    }
  }

  /** What a white path leads to has finished when the object has. */
  lemma {:induction false} WhiteHasFinished(
    cfg: Config, before: seq<Obj>, st: State, stack: seq<Obj>, p: seq<Obj>, k: nat)
    requires Accounted(cfg, st, stack) && (forall u :: u in stack ==> u in before)
    requires WhitePath(cfg, before, p) && p[0] in st.done && k < |p|
    ensures p[k] in st.done
    decreases k
  {
    if k > 0 {
      WhiteHasFinished(cfg, before, st, stack, p, k - 1);
      assert TargetsKnown(cfg, st, p[k - 1]) && Step(cfg, p, k - 1);
      var i :| 0 <= i < |ModOf(cfg, p[k - 1]).value.refs| && EdgeAt(cfg, p[k - 1], p[k], i);
      assert Known(st, p[k]);
    }
  }

  /** An object on no cycle finishes after everything it reaches. */
  lemma {:induction false} ReachedHasFinished(cfg: Config, st: State, stack: seq<Obj>, obj: Obj, done: seq<Obj>)
    requires IsPath(cfg, stack + [obj]) && Entering(cfg, st, stack, obj) && OnNoCycle(cfg, obj)
    requires (forall u :: u in st.done ==> u in done) && Encloses(cfg, st.begun, obj, done + [obj])
    ensures AllReachedIn(cfg, obj, done)
  {
    hide Entering;
    forall v | ReachesBeyond(cfg, obj, v) ensures v in done {
      var p :| IsPath(cfg, p) && |p| >= 2 && p[0] == obj && p[|p| - 1] == v;
      FinishedOrWhite(cfg, st, stack, obj, p, |p| - 1);
      assert p[..|p|] == p;
      assert v in st.done || White(cfg, st.begun, obj, v);
    }
  }

  lemma {:induction false} WhiteLess(cfg: Config, before: seq<Obj>, more: seq<Obj>, u: Obj, v: Obj)
    requires White(cfg, more, u, v) && before <= more
    ensures White(cfg, before, u, v)
  {
    var p :| WhitePath(cfg, more, p) && p[0] == u && p[|p| - 1] == v;
    assert WhitePath(cfg, before, p);
  }

  lemma {:induction false} WhiteCons(cfg: Config, before: seq<Obj>, u: Obj, w: Obj, v: Obj)
    requires White(cfg, before, w, v) && Edge(cfg, u, w) && (w.Named? ==> w !in before)
    ensures White(cfg, before, u, v)
  {
    var p :| WhitePath(cfg, before, p) && p[0] == w && p[|p| - 1] == v;
    var q := [u] + p;
    forall k | 0 <= k < |q| - 1 ensures Step(cfg, q, k) {
      if k > 0 { assert Step(cfg, p, k - 1); }
    }
    assert WhitePath(cfg, before, q);
  }

  lemma {:induction false} WhiteItself(cfg: Config, before: seq<Obj>, u: Obj)
    ensures White(cfg, before, u, u)
  {
    assert WhitePath(cfg, before, [u]);
  }

  /** What has begun since was led to by a white path. */
  ghost predicate NewAreWhite(cfg: Config, before: seq<Obj>, later: seq<Obj>, u: Obj) {
    before <= later && forall v :: v in later ==> v in before || White(cfg, before, u, v)
  }

  lemma {:induction false} NewAreWhiteTrans(cfg: Config, a: seq<Obj>, b: seq<Obj>, c: seq<Obj>, u: Obj)
    requires NewAreWhite(cfg, a, b, u) && NewAreWhite(cfg, b, c, u)
    ensures NewAreWhite(cfg, a, c, u)
  {
    hide White;
    forall v | v in c ensures v in a || White(cfg, a, u, v) {
      if v !in b { WhiteLess(cfg, a, b, u, v); }
    }
  }

  lemma {:induction false} NestedMore(cfg: Config, begun: seq<Obj>, later: seq<Obj>, done: seq<Obj>)
    requires Nested(cfg, begun, done) && begun <= later
    ensures Nested(cfg, later, done)
  {
    hide Encloses;
    forall k | 0 <= k < |done| ensures EnclosesAt(cfg, later, done, k) {
      assert EnclosesAt(cfg, begun, done, k);
      var b :| 0 <= b < |begun| && begun[b] == done[k] && Encloses(cfg, begun[..b], done[k], done[..k + 1]);
      assert later[..b] == begun[..b];
    }
  }

  lemma {:induction false} NestedSnoc(cfg: Config, begun: seq<Obj>, done: seq<Obj>, b: nat)
    requires Nested(cfg, begun, done) && b < |begun| && Encloses(cfg, begun[..b], begun[b], done + [begun[b]])
    ensures Nested(cfg, begun, done + [begun[b]])
  {
    hide Encloses;
    var d := done + [begun[b]];
    forall k | 0 <= k < |d| ensures EnclosesAt(cfg, begun, d, k) {
      if k < |done| {
        assert EnclosesAt(cfg, begun, done, k);
        assert d[..k + 1] == done[..k + 1];
      } else {
        assert d[..k + 1] == d;
      }
    }
  }

  lemma {:induction false} AccountedDone(cfg: Config, st: State, st': State, stack: seq<Obj>, obj: Obj)
    requires Accounted(cfg, st, stack + [obj]) && TargetsKnown(cfg, st, obj) && NameOf(obj) <= st.initialized
    requires st'.initialized == st.initialized && st'.done == st.done + [obj]
    ensures Accounted(cfg, st', stack)
  {
    forall u | u in st'.done ensures TargetsKnown(cfg, st', u) { assert TargetsKnown(cfg, st, u); }
  }

  lemma {:induction false} Begins(cfg: Config, st: State, stack: seq<Obj>, obj: Obj)
    requires Entering(cfg, st, stack, obj)
    ensures Sound(cfg, st.(begun := st.begun + [obj]), stack + [obj])
  {
    hide PostOrdered;
    var st' := st.(begun := st.begun + [obj]);
    NestedMore(cfg, st.begun, st'.begun, st.done);
    forall u | u in st'.done ensures TargetsKnown(cfg, st', u) { assert TargetsKnown(cfg, st, u); }
  }

  lemma {:induction false} StackSnoc(cfg: Config, stack: seq<Obj>, v: Obj)
    requires Stack(cfg, stack) && Edge(cfg, stack[|stack| - 1], v)
    ensures stack != [] && Stack(cfg, stack + [v])
  {
    PathSnoc(cfg, stack, v);
  }

  lemma {:induction false} StackIsUsed(cfg: Config, stack: seq<Obj>, name: string)
    requires Stack(cfg, stack + [Named(name)]) && stack != []
    ensures Used(cfg, name)
  {
    assert Reaches(cfg, (stack + [Named(name)])[0], Named(name));
  }

  /** The object encloses exactly what white paths lead to. */
  lemma {:induction false} EnclosesWhite(cfg: Config, before: seq<Obj>, st: State, stack: seq<Obj>, obj: Obj)
    requires Accounted(cfg, st, stack) && obj in st.done && (forall u :: u in stack ==> u in before)
    requires NewAreWhite(cfg, before, st.begun, obj) && forall u :: u in st.done ==> u in st.begun
    ensures Encloses(cfg, before, obj, st.done)
  {
    hide Accounted;
    forall v | White(cfg, before, obj, v) ensures v in st.done {
      var p :| WhitePath(cfg, before, p) && p[0] == obj && p[|p| - 1] == v;
      WhiteHasFinished(cfg, before, st, stack, p, |p| - 1);
    }
  }

  /** The end of an initialisation. */
  lemma {:induction false} Ends(cfg: Config, st: State, st2: State, stack: seq<Obj>, obj: Obj, m: Mod)
    requires IsPath(cfg, stack + [obj]) && Entering(cfg, st, stack, obj) && ModOf(cfg, obj) == Some(m)
    requires Sound(cfg, st2, stack + [obj]) && TargetsKnown(cfg, st2, obj) && st.done <= st2.done
    requires st.begun + [obj] <= st2.begun && NewAreWhite(cfg, st.begun, st2.begun, obj)
    ensures
      var hooks := if m.closable then st2.hooks + [obj] else st2.hooks;
      && Sound(cfg, st2.(done := st2.done + [obj], hooks := hooks), stack)
      && Encloses(cfg, st.begun, obj, st2.done + [obj])
  {
    hide PostOrdered, Accounted, TargetsKnown, AllReachedIn, OnNoCycle, Encloses, Nested, NewAreWhite;
    var st' := st2.(done := st2.done + [obj], hooks := if m.closable then st2.hooks + [obj] else st2.hooks);
    assert obj in st2.begun;
    AccountedDone(cfg, st2, st', stack, obj);
    EnclosesWhite(cfg, st.begun, st', stack, obj);
    assert st2.begun[..|st.begun|] == st.begun && st2.begun[|st.begun|] == obj;
    NestedSnoc(cfg, st2.begun, st2.done, |st.begun|);
    if OnNoCycle(cfg, obj) { ReachedHasFinished(cfg, st, stack, obj, st2.done); }
    PostOrderedSnoc(cfg, st2.done, obj);
    assert (st2.done + [obj])[..|st2.done|] == st2.done;
  }

  /**
   An initialisation that succeeds finishes exactly what had finished and what paths lead to through
   blocks that had not begun; everything stays in order.
   */
  lemma {:induction false} ObjectOrdered(cfg: Config, st: State, obj: Obj, m: Mod, stack: seq<Obj>)
    requires ModOf(cfg, obj) == Some(m) && InitObject(cfg, st, obj, m).Ok?
    requires Stack(cfg, stack + [obj]) && Entering(cfg, st, stack, obj)
    ensures var st' := InitObject(cfg, st, obj, m).value;
            && Sound(cfg, st', stack) && st.done <= st'.done && obj in st'.done
            && NewAreWhite(cfg, st.begun, st'.begun, obj) && Encloses(cfg, st.begun, obj, st'.done)
    decreases Uninitialized(cfg, st), 1, m, 1
  {
    hide Entering, Sound, NewAreWhite, IsPath, Encloses;
    assert m.refs[0..] == m.refs;
    var st1 := st.(begun := st.begun + [obj]);
    Begins(cfg, st, stack, obj);
    RefsOrdered(cfg, st1, obj, m.refs, 0, stack + [obj]);
    var st2 := InitRefs(cfg, st1, obj, m.refs, 0).value;
    NewWithItself(cfg, st.begun, st2.begun, obj);
    Ends(cfg, st, st2, stack, obj, m);
  }

  lemma {:induction false} NewWithItself(cfg: Config, before: seq<Obj>, later: seq<Obj>, obj: Obj)
    requires NewAreWhite(cfg, before + [obj], later, obj)
    ensures before + [obj] <= later && NewAreWhite(cfg, before, later, obj)
  {
    hide White;
    forall v | v in later ensures v in before || White(cfg, before, obj, v) {
      if v == obj {
        WhiteItself(cfg, before, obj);
      } else if v !in before {
        WhiteLess(cfg, before, before + [obj], obj, v);
      }
    }
  }

  lemma {:induction false} RefsOrdered(cfg: Config, st: State, obj: Obj, rest: seq<Ref>, i: nat, stack: seq<Obj>)
    requires RestOf(cfg, obj, rest, i) && InitRefs(cfg, st, obj, rest, i).Ok?
    requires Stack(cfg, stack) && stack[|stack| - 1] == obj && Sound(cfg, st, stack)
    requires forall j :: 0 <= j < i ==> Known(st, Target(cfg, obj, ModOf(cfg, obj).value.refs[j], j))
    ensures var st' := InitRefs(cfg, st, obj, rest, i).value;
            && Sound(cfg, st', stack) && st.done <= st'.done && TargetsKnown(cfg, st', obj)
            && NewAreWhite(cfg, st.begun, st'.begun, obj)
    decreases Uninitialized(cfg, st), 1, rest, 0
  {
    hide Sound, Stack, Target, InitRef, NewAreWhite;
    if rest == [] {
      NothingNew(cfg, st.begun, obj);
    } else {
      RestStep(cfg, obj, rest, i);
      RefOrdered(cfg, st, obj, rest, i, stack);
      var st1 := InitRef(cfg, st, obj, rest[0], i).value;
      RefsOrdered(cfg, st1, obj, rest[1..], i + 1, stack);
      NewAreWhiteTrans(cfg, st.begun, st1.begun, InitRefs(cfg, st, obj, rest, i).value.begun, obj);
    }
  }

  lemma {:induction false} NothingNew(cfg: Config, before: seq<Obj>, obj: Obj)
    ensures NewAreWhite(cfg, before, before, obj)
  {}

  lemma {:induction false} NewThrough(cfg: Config, before: seq<Obj>, later: seq<Obj>, obj: Obj, v: Obj)
    requires NewAreWhite(cfg, before, later, v) && Edge(cfg, obj, v) && (v.Named? ==> v !in before)
    ensures NewAreWhite(cfg, before, later, obj)
  {
    hide White;
    forall w | w in later ensures w in before || White(cfg, before, obj, w) {
      if w !in before { WhiteCons(cfg, before, obj, v, w); }
    }
  }

  lemma {:induction false} RefOrdered(cfg: Config, st: State, obj: Obj, rest: seq<Ref>, i: nat, stack: seq<Obj>)
    requires RestOf(cfg, obj, rest, i) && rest != [] && InitRef(cfg, st, obj, rest[0], i).Ok?
    requires Stack(cfg, stack) && stack[|stack| - 1] == obj && Sound(cfg, st, stack)
    ensures var st' := InitRef(cfg, st, obj, rest[0], i).value;
            && Sound(cfg, st', stack) && st.done <= st'.done && Known(st', Target(cfg, obj, rest[0], i))
            && NewAreWhite(cfg, st.begun, st'.begun, obj)
    decreases Uninitialized(cfg, st), 1, rest[0], 2
  {
    hide Sound, Entering, Stack, IsPath, Edge, InitObject, NewAreWhite;
    RestStep(cfg, obj, rest, i);
    var v := Target(cfg, obj, rest[0], i);
    StackSnoc(cfg, stack, v);
    NothingNew(cfg, st.begun, obj);
    if rest[0].Inline? {
      EntersInline(cfg, st, stack, v);
      ObjectOrdered(cfg, st, v, rest[0].mod, stack);
      NewThrough(cfg, st.begun, InitObject(cfg, st, v, rest[0].mod).value.begun, obj, v);
    } else if v.name !in st.initialized {
      assert v.name in Uninitialized(cfg, st);
      EntersBlock(cfg, st, stack, v.name);
      var st1 := st.(initialized := st.initialized + {v.name});
      ObjectOrdered(cfg, st1, v, cfg.instances[v.name], stack);
      NewThrough(cfg, st.begun, InitObject(cfg, st1, v, cfg.instances[v.name]).value.begun, obj, v);
    }
  }

  lemma {:induction false} EntersInline(cfg: Config, st: State, stack: seq<Obj>, v: Obj)
    requires Sound(cfg, st, stack) && !v.Named?
    ensures Entering(cfg, st, stack, v)
  {
    hide Ordered;
  }

  /** A name is marked before its block initialises; it is used, because the stack leads to it. */
  lemma {:induction false} EntersBlock(cfg: Config, st: State, stack: seq<Obj>, name: string)
    requires Sound(cfg, st, stack) && Stack(cfg, stack + [Named(name)]) && stack != [] && name !in st.initialized
    ensures Entering(cfg, st.(initialized := st.initialized + {name}), stack, Named(name)) && Named(name) !in st.begun
  {
    hide PostOrdered, Nested, IsPath, Used;
    StackIsUsed(cfg, stack, name);
    var st' := st.(initialized := st.initialized + {name});
    forall u | u in st'.done ensures TargetsKnown(cfg, st', u) { assert TargetsKnown(cfg, st, u); }
    assert NameOf(Named(name)) == {name};
  }

  lemma {:induction false} EndpointsOrdered(cfg: Config, st: State, i: nat)
    requires i <= |cfg.endpoints| && InitEndpoints(cfg, st, i).Ok? && Sound(cfg, st, [])
    ensures var st' := InitEndpoints(cfg, st, i).value;
            && Sound(cfg, st', []) && st.done <= st'.done
            && forall e :: i <= e < |cfg.endpoints| ==> Endpoint(e) in st'.done
    decreases |cfg.endpoints| - i
  {
    hide Sound, Entering, NewAreWhite, InitObject, InitRefs;
    if i < |cfg.endpoints| {
      assert [] + [Endpoint(i)] == [Endpoint(i)];
      EntersInline(cfg, st, [], Endpoint(i));
      ObjectOrdered(cfg, st, Endpoint(i), cfg.endpoints[i], []);
      EndpointsOrdered(cfg, InitObject(cfg, st, Endpoint(i), cfg.endpoints[i]).value, i + 1);
    }
  }

  /** In a closed state, every object on a path from a finished one is finished. */
  lemma {:induction false} PathIsDone(cfg: Config, st: State, p: seq<Obj>, k: nat)
    requires Accounted(cfg, st, []) && IsPath(cfg, p) && p[0] in st.done && k < |p|
    ensures p[k] in st.done
    decreases k
  {
    if k > 0 {
      PathIsDone(cfg, st, p, k - 1);
      assert Step(cfg, p, k - 1) && TargetsKnown(cfg, st, p[k - 1]);
      var i :| 0 <= i < |ModOf(cfg, p[k - 1]).value.refs| && EdgeAt(cfg, p[k - 1], p[k], i);
      assert Known(st, p[k]);
    }
  }

  /**
   Whenever the endpoints initialise, the initialised instances are exactly those reachable from
   them, circular references or not.
   */
  lemma {:induction false} InitializedIffUsed(cfg: Config, name: string)
    requires InitEndpoints(cfg, INITIAL, 0).Ok?
    ensures name in InitEndpoints(cfg, INITIAL, 0).value.initialized <==> Used(cfg, name)
  {
    assert Sound(cfg, INITIAL, []);
    hide Ordered, Accounted, InitEndpoints, Used;
    EndpointsOrdered(cfg, INITIAL, 0);
    if Used(cfg, name) { UsedIsInitialized(cfg, InitEndpoints(cfg, INITIAL, 0).value, name); }
  }

  lemma {:induction false} UsedIsInitialized(cfg: Config, st: State, name: string)
    requires Accounted(cfg, st, []) && Used(cfg, name)
    requires forall e :: 0 <= e < |cfg.endpoints| ==> Endpoint(e) in st.done
    ensures name in st.initialized
  {
    var e :| 0 <= e < |cfg.endpoints| && Reaches(cfg, Endpoint(e), Named(name));
    var p :| IsPath(cfg, p) && p[0] == Endpoint(e) && p[|p| - 1] == Named(name);
    PathIsDone(cfg, st, p, |p| - 1);
    assert NameOf(Named(name)) <= st.initialized;
  }
}
