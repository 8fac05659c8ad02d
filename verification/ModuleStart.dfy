/**
 When a configuration starts at all: exactly when everything that the endpoints reach exists, fits where it
 is used and initialises (framework/module/instances.go, framework/config/module/modconfig.go).
 */
module ModuleStart {
  import opened Common
  import opened Modules
  import opened ModuleGraph

  /** The object exists, all it refers to fits, and its own initialisation succeeds. */
  predicate Good(cfg: Config, u: Obj) {
    && ModOf(cfg, u).Some? && ModOf(cfg, u).value.initOk
    && forall i :: 0 <= i < |ModOf(cfg, u).value.refs| ==> ModOf(cfg, u).value.refs[i].fits
  }

  ghost predicate AllGood(cfg: Config, u: Obj) { forall v :: Reaches(cfg, u, v) ==> Good(cfg, v) }

  lemma {:induction false} ReachesSelf(cfg: Config, u: Obj)
    ensures Reaches(cfg, u, u)
  {
    assert IsPath(cfg, [u]);
  }

  lemma {:induction false} ReachesThrough(cfg: Config, u: Obj, v: Obj, w: Obj)
    requires Edge(cfg, u, v) && Reaches(cfg, v, w)
    ensures Reaches(cfg, u, w)
  {
    var p :| IsPath(cfg, p) && p[0] == v && p[|p| - 1] == w;
    var q := [u] + p;
    forall k | 0 <= k < |q| - 1 ensures Step(cfg, q, k) {
      if k > 0 { assert Step(cfg, p, k - 1); }
    }
    assert IsPath(cfg, q) && q[0] == u && q[|q| - 1] == w;
  }

  lemma {:induction false} AllGoodNext(cfg: Config, u: Obj, v: Obj)
    requires AllGood(cfg, u) && Edge(cfg, u, v)
    ensures AllGood(cfg, v) && Good(cfg, v)
  {
    hide Good, Reaches, Edge;
    forall w | Reaches(cfg, v, w) ensures Good(cfg, w) { ReachesThrough(cfg, u, v, w); }
    ReachesSelf(cfg, v);
  }

  // ---------------------------------------------------------------------------
  // Nothing goes wrong with good objects
  // ---------------------------------------------------------------------------

  lemma {:induction false} GoodInits(cfg: Config, st: State, obj: Obj, m: Mod)
    requires ModOf(cfg, obj) == Some(m) && AllGood(cfg, obj)
    ensures InitObject(cfg, st, obj, m).Ok?
    decreases Uninitialized(cfg, st), 1, m, 1
  {
    hide Edge, Reaches;
    ReachesSelf(cfg, obj);
    GoodRefsInit(cfg, st.(begun := st.begun + [obj]), obj, m.refs, 0);
  }

  lemma {:induction false} GoodRefsInit(cfg: Config, st: State, obj: Obj, rest: seq<Ref>, i: nat)
    requires RestOf(cfg, obj, rest, i) && AllGood(cfg, obj)
    ensures InitRefs(cfg, st, obj, rest, i).Ok?
    decreases Uninitialized(cfg, st), 1, rest, 0
  {
    hide AllGood, InitRef, RestOf;
    if rest != [] {
      GoodRefInits(cfg, st, obj, rest, i);
      RestStep(cfg, obj, rest, i);
      GoodRefsInit(cfg, InitRef(cfg, st, obj, rest[0], i).value, obj, rest[1..], i + 1);
    }
  }

  lemma {:induction false} GoodRefInits(cfg: Config, st: State, obj: Obj, rest: seq<Ref>, i: nat)
    requires RestOf(cfg, obj, rest, i) && rest != [] && AllGood(cfg, obj)
    ensures InitRef(cfg, st, obj, rest[0], i).Ok?
    decreases Uninitialized(cfg, st), 1, rest[0], 2
  {
    hide AllGood, Edge, InitObject;
    RestStep(cfg, obj, rest, i);
    SelfIsGood(cfg, obj);
    var v := Target(cfg, obj, rest[0], i);
    AllGoodNext(cfg, obj, v);
    if rest[0].Inline? {
      GoodInits(cfg, st, v, rest[0].mod);
    } else if v.name !in st.initialized {
      assert v.name in Uninitialized(cfg, st);
      GoodInits(cfg, st.(initialized := st.initialized + {v.name}), v, cfg.instances[v.name]);
    }
  }

  lemma {:induction false} SelfIsGood(cfg: Config, u: Obj)
    requires AllGood(cfg, u)
    ensures Good(cfg, u)
  {
    ReachesSelf(cfg, u);
  }

  // ---------------------------------------------------------------------------
  // What has been initialised was good
  // ---------------------------------------------------------------------------

  predicate DoneGood(cfg: Config, st: State) { forall u :: u in st.done ==> Good(cfg, u) }

  lemma {:induction false} InitMeansGood(cfg: Config, st: State, obj: Obj, m: Mod)
    requires ModOf(cfg, obj) == Some(m) && InitObject(cfg, st, obj, m).Ok? && DoneGood(cfg, st)
    ensures DoneGood(cfg, InitObject(cfg, st, obj, m).value)
    decreases Uninitialized(cfg, st), 1, m, 1
  {
    var st1 := st.(begun := st.begun + [obj]);
    RefsMeanGood(cfg, st1, obj, m.refs, 0);
    var st2 := InitRefs(cfg, st1, obj, m.refs, 0).value;
    hide InitRefs;
    assert Good(cfg, obj);
    assert forall u :: u in st2.done + [obj] <==> u in st2.done || u == obj;
  }

  lemma {:induction false} RefsMeanGood(cfg: Config, st: State, obj: Obj, rest: seq<Ref>, i: nat)
    requires RestOf(cfg, obj, rest, i) && InitRefs(cfg, st, obj, rest, i).Ok? && DoneGood(cfg, st)
    ensures DoneGood(cfg, InitRefs(cfg, st, obj, rest, i).value)
    ensures forall k :: 0 <= k < |rest| ==> rest[k].fits
    decreases Uninitialized(cfg, st), 1, rest, 0
  {
    hide DoneGood, InitRef, RestOf;
    if rest != [] {
      RefMeansGood(cfg, st, obj, rest, i);
      RestStep(cfg, obj, rest, i);
      RefsMeanGood(cfg, InitRef(cfg, st, obj, rest[0], i).value, obj, rest[1..], i + 1);
      assert forall k :: 0 < k < |rest| ==> rest[k] == rest[1..][k - 1];
    }
  }

  lemma {:induction false} RefMeansGood(cfg: Config, st: State, obj: Obj, rest: seq<Ref>, i: nat)
    requires RestOf(cfg, obj, rest, i) && rest != [] && InitRef(cfg, st, obj, rest[0], i).Ok? && DoneGood(cfg, st)
    ensures DoneGood(cfg, InitRef(cfg, st, obj, rest[0], i).value) && rest[0].fits
    decreases Uninitialized(cfg, st), 1, rest[0], 2
  {
    hide DoneGood, Edge, InitObject;
    RestStep(cfg, obj, rest, i);
    var v := Target(cfg, obj, rest[0], i);
    if rest[0].Inline? {
      InitMeansGood(cfg, st, v, rest[0].mod);
    } else if v.name !in st.initialized {
      assert v.name in Uninitialized(cfg, st);
      var st1 := st.(initialized := st.initialized + {v.name});
      assert DoneGood(cfg, st1) by { SameDone(cfg, st, st1); }
      InitMeansGood(cfg, st1, v, cfg.instances[v.name]);
    }
  }

  lemma {:induction false} SameDone(cfg: Config, st: State, st': State)
    requires DoneGood(cfg, st) && st'.done == st.done
    ensures DoneGood(cfg, st')
  {}

  lemma {:induction false} EndpointsMeanGood(cfg: Config, st: State, i: nat)
    requires i <= |cfg.endpoints| && InitEndpoints(cfg, st, i).Ok? && DoneGood(cfg, st)
    ensures DoneGood(cfg, InitEndpoints(cfg, st, i).value)
    decreases |cfg.endpoints| - i
  {
    hide DoneGood, InitObject;
    if i < |cfg.endpoints| {
      InitMeansGood(cfg, st, Endpoint(i), cfg.endpoints[i]);
      EndpointsMeanGood(cfg, InitObject(cfg, st, Endpoint(i), cfg.endpoints[i]).value, i + 1);
    }
  }

  lemma {:induction false} GoodEndpointsInit(cfg: Config, st: State, i: nat)
    requires i <= |cfg.endpoints| && forall e :: i <= e < |cfg.endpoints| ==> AllGood(cfg, Endpoint(e))
    ensures InitEndpoints(cfg, st, i).Ok?
    decreases |cfg.endpoints| - i
  {
    hide AllGood, InitObject;
    if i < |cfg.endpoints| {
      GoodInits(cfg, st, Endpoint(i), cfg.endpoints[i]);
      GoodEndpointsInit(cfg, InitObject(cfg, st, Endpoint(i), cfg.endpoints[i]).value, i + 1);
    }
  }

  /**
   The endpoints initialise if and only if every object that one of them reaches exists, fits wherever it is
   referred to, and itself initialises; circular references are no obstacle.
   */
  lemma {:induction false} StartsIff(cfg: Config)
    ensures InitEndpoints(cfg, INITIAL, 0).Ok? <==>
            forall e :: 0 <= e < |cfg.endpoints| ==> AllGood(cfg, Endpoint(e))
  {
    if InitEndpoints(cfg, INITIAL, 0).Ok? {
      StartedIsGood(cfg);
    } else if forall e :: 0 <= e < |cfg.endpoints| ==> AllGood(cfg, Endpoint(e)) {
      hide AllGood, InitEndpoints;
      GoodEndpointsInit(cfg, INITIAL, 0);
    }
  }

  lemma {:induction false} StartedIsGood(cfg: Config)
    requires InitEndpoints(cfg, INITIAL, 0).Ok?
    ensures forall e :: 0 <= e < |cfg.endpoints| ==> AllGood(cfg, Endpoint(e))
  {
    StartIsSound(cfg);
    hide Ordered, InitEndpoints, Good, Accounted, Logged, Reaches, DoneGood;
    EndpointsOrdered(cfg, INITIAL, 0);
    EndpointsMeanGood(cfg, INITIAL, 0);
    var st := InitEndpoints(cfg, INITIAL, 0).value;
    forall e, v | 0 <= e < |cfg.endpoints| && Reaches(cfg, Endpoint(e), v) ensures Good(cfg, v) {
      ReachedIsDone(cfg, st, Endpoint(e), v);
      DoneIsGood(cfg, st, v);
    }
  }

  lemma {:induction false} ReachedIsDone(cfg: Config, st: State, u: Obj, v: Obj)
    requires Accounted(cfg, st, []) && u in st.done && Reaches(cfg, u, v)
    ensures v in st.done
  {
    hide Accounted;
    var p :| IsPath(cfg, p) && p[0] == u && p[|p| - 1] == v;
    PathIsDone(cfg, st, p, |p| - 1);
  }

  lemma {:induction false} StartIsSound(cfg: Config)
    ensures Sound(cfg, INITIAL, []) && DoneGood(cfg, INITIAL)
  {}

  lemma {:induction false} DoneIsGood(cfg: Config, st: State, u: Obj)
    requires DoneGood(cfg, st) && u in st.done
    ensures Good(cfg, u)
  {}

  // ---------------------------------------------------------------------------
  // Aliases
  // ---------------------------------------------------------------------------

  /** The name is an alias that stands for another one. */
  predicate IsAlias(cfg: Config, name: string) { name in cfg.aliases && cfg.aliases[name] !in {"", name} }

  /** A name that is no alias leads to the block of that name, and nowhere if there is none. */
  lemma {:induction false} NameLeadsToItsBlock(cfg: Config, st: State, name: string)
    requires !IsAlias(cfg, name)
    ensures name !in cfg.instances ==> GetInstance(cfg, st, name) == Err(UnknownBlock)
    ensures name in cfg.instances && name in st.initialized ==> GetInstance(cfg, st, name) == Ok(st)
    ensures name in cfg.instances && GetInstance(cfg, st, name).Ok? ==>
              name in GetInstance(cfg, st, name).value.initialized
  {}

  /**
   A registered alias is promised to give the same as the name it stands for. It does, in every state, if and
   only if that name is not itself an alias, or neither of the two blocks exists.
   */
  lemma {:induction false} AliasIsSameIff(cfg: Config, name: string)
    requires name in cfg.aliases && cfg.aliases[name] != ""
    ensures
      var inst := cfg.aliases[name];
      (forall st :: GetInstance(cfg, st, name) == GetInstance(cfg, st, inst)) <==>
        || !IsAlias(cfg, inst)
        || (inst !in cfg.instances && cfg.aliases[inst] !in cfg.instances)
  {
    var inst := cfg.aliases[name];
    if IsAlias(cfg, inst) && (inst in cfg.instances || cfg.aliases[inst] in cfg.instances) {
      var other := cfg.aliases[inst];
      var st := State({if inst in cfg.instances then inst else other}, [], [], []);
      AliasesDiffer(cfg, st, name, inst, other);
      assert GetInstance(cfg, st, name) != GetInstance(cfg, st, inst);
    }
  }

  lemma {:induction false} AliasesDiffer(cfg: Config, st: State, name: string, inst: string, other: string)
    requires name in cfg.aliases && cfg.aliases[name] == inst != ""
    requires inst in cfg.aliases && cfg.aliases[inst] == other != "" && other != inst
    requires (inst in cfg.instances || other in cfg.instances)
    requires st == State({if inst in cfg.instances then inst else other}, [], [], [])
    ensures GetInstance(cfg, st, name) != GetInstance(cfg, st, inst)
  {
    hide InitObject;
    if inst in cfg.instances && other in cfg.instances {
      var r := GetInstance(cfg, st, inst);
      if r.Ok? { assert other in r.value.initialized && other !in st.initialized; }
    }
  }
}
