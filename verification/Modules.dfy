/**
 Module instances, their initialisation and the shutdown hooks (framework/module/instances.go,
 framework/config/module/modconfig.go, framework/hooks/hooks.go and `initModules` in
 cmd/sirrmeshd/cmd/mail.go).

 A module's `Init` is reduced to what matters here: the module references it resolves, in
 order, and whether it then succeeds.
 */
module Modules {
  import opened Common

  /**
   A reference in a configuration block: `&name`, or an inline definition. `fits` says that the
   referenced object can be created and has the interface asked for.
   */
  datatype Ref = ByName(name: string, fits: bool) | Inline(mod: Mod, fits: bool)

  datatype Mod = Mod(refs: seq<Ref>, initOk: bool, closable: bool)

  /** `blocks` lists the names of the registered blocks in the order of the configuration. */
  datatype Config = Config(
    instances: map<string, Mod>,
    aliases: map<string, string>,
    endpoints: seq<Mod>,
    blocks: seq<string>)

  datatype Error = UnknownBlock | DoesNotFit | InitFailed

  /** The objects that get initialised: endpoints, named blocks, and inline modules by position. */
  datatype Obj = Endpoint(index: nat) | Named(name: string) | Anon(owner: Obj, index: nat)

  /** `hooks` holds the shutdown hooks; `begun` and `done` record the starts and ends of `Init`. */
  datatype State = State(initialized: set<string>, hooks: seq<Obj>, begun: seq<Obj>, done: seq<Obj>)

  const INITIAL := State({}, [], [], [])

  /** The instance name an alias stands for. */
  function Resolve(cfg: Config, name: string): string {
    if name in cfg.aliases && cfg.aliases[name] != "" then cfg.aliases[name] else name
  }

  function Uninitialized(cfg: Config, st: State): set<string> { cfg.instances.Keys - st.initialized }

  /** `GetInstance`. */
  function GetInstance(cfg: Config, st: State, name: string): (r: Result<State, Error>)
    ensures r.Ok? ==> st.initialized <= r.value.initialized
    decreases Uninitialized(cfg, st), 0
  {
    var inst := Resolve(cfg, name);
    if inst !in cfg.instances then Err(UnknownBlock)
    else if inst in st.initialized then Ok(st)
    else
      assert inst in Uninitialized(cfg, st);
      InitObject(cfg, st.(initialized := st.initialized + {inst}), Named(inst), cfg.instances[inst])
  }

  /** `Init`, and a shutdown hook if the object can be closed. */
  function InitObject(cfg: Config, st: State, obj: Obj, m: Mod): (r: Result<State, Error>)
    ensures r.Ok? ==> st.initialized <= r.value.initialized
    decreases Uninitialized(cfg, st), 1, m, 1
  {
    match InitRefs(cfg, st.(begun := st.begun + [obj]), obj, m.refs, 0)
    case Err(e) => Err(e)
    case Ok(st') =>
      if !m.initOk then Err(InitFailed)
      else Ok(st'.(done := st'.done + [obj], hooks := if m.closable then st'.hooks + [obj] else st'.hooks))
  }

  /** The references of `obj` from the `i`-th on. */
  function InitRefs(cfg: Config, st: State, obj: Obj, rest: seq<Ref>, i: nat): (r: Result<State, Error>)
    ensures r.Ok? ==> st.initialized <= r.value.initialized
    decreases Uninitialized(cfg, st), 1, rest, 0
  {
    if rest == [] then Ok(st)
    else
      match InitRef(cfg, st, obj, rest[0], i)
      case Err(e) => Err(e)
      case Ok(st') => InitRefs(cfg, st', obj, rest[1..], i + 1)
  }

  /** `ModuleFromNode`. */
  function InitRef(cfg: Config, st: State, obj: Obj, ref: Ref, i: nat): (r: Result<State, Error>)
    ensures r.Ok? ==> st.initialized <= r.value.initialized
    decreases Uninitialized(cfg, st), 1, ref, 2
  {
    match ref
    case ByName(name, fits) =>
      (match GetInstance(cfg, st, name)
       case Err(e) => Err(e)
       case Ok(st') => if fits then Ok(st') else Err(DoesNotFit))
    case Inline(m, fits) =>
      if !fits then Err(DoesNotFit) else InitObject(cfg, st, Anon(obj, i), m)
  }

  /** The endpoints from the `i`-th on. */
  function InitEndpoints(cfg: Config, st: State, i: nat): Result<State, Error>
    requires i <= |cfg.endpoints|
    decreases |cfg.endpoints| - i
  {
    if i == |cfg.endpoints| then Ok(st)
    else
      match InitObject(cfg, st, Endpoint(i), cfg.endpoints[i])
      case Err(e) => Err(e)
      case Ok(st') => InitEndpoints(cfg, st', i + 1)
  }

  datatype Outcome = Started(st: State) | Unused(block: string) | Failed(error: Error)

  /** The first registered block, from the `i`-th on, that nothing initialised. */
  function FirstUnused(cfg: Config, st: State, i: nat): Option<string>
    requires i <= |cfg.blocks|
    decreases |cfg.blocks| - i
  {
    if i == |cfg.blocks| then None
    else if cfg.blocks[i] in st.initialized then FirstUnused(cfg, st, i + 1)
    else Some(cfg.blocks[i])
  }

  function InitModules(cfg: Config): Outcome {
    match InitEndpoints(cfg, INITIAL, 0)
    case Err(e) => Failed(e)
    case Ok(st) =>
      match FirstUnused(cfg, st, 0)
      case Some(b) => Unused(b)
      case None => Started(st)
  }

  function Reversed<T>(s: seq<T>): (r: seq<T>)
    ensures |r| == |s| && forall i :: 0 <= i < |s| ==> r[i] == s[|s| - 1 - i]
  {
    if s == [] then [] else Reversed(s[1..]) + [s[0]]
  }

  // ---------------------------------------------------------------------------
  // The registry itself
  // ---------------------------------------------------------------------------

  datatype Event = EventShutdown | EventReload | EventLogRotate

  class Hooks {
    var hooks: map<Event, seq<Obj>>

    constructor ()
      ensures hooks == map[]
    {
      hooks := map[];
    }

    function Of(event: Event): seq<Obj>
      reads this
    {
      if event in hooks then hooks[event] else []
    }

    method AddHook(event: Event, f: Obj)
      modifies this
      ensures Of(event) == old(Of(event)) + [f]
      ensures forall e :: e != event ==> Of(e) == old(Of(e))
    {
      hooks := hooks[event := Of(event) + [f]];
    }

    /** Runs the hooks of an event; the result lists them in the order they ran. */
    method RunHooks(event: Event) returns (ran: seq<Obj>)
      ensures ran == Reversed(Of(event))
    {
      var toRun := Of(event);
      ran := [];
      var i := |toRun| - 1;
      while i >= 0
        invariant -1 <= i < |toRun|
        invariant |ran| == |toRun| - 1 - i
        invariant forall k :: 0 <= k < |ran| ==> ran[k] == toRun[|toRun| - 1 - k]
      {
        ran := ran + [toRun[i]];
        i := i - 1;
      }
    }
  }

  class Registry {
    const cfg: Config
    const hooks: Hooks
    var initialized: set<string>
    var begun: seq<Obj>
    var done: seq<Obj>

    constructor (cfg: Config)
      ensures this.cfg == cfg && fresh(hooks) && Now() == INITIAL
    {
      this.cfg := cfg;
      hooks := new Hooks();
      initialized, begun, done := {}, [], [];
    }

    function Now(): State
      reads this, hooks
    {
      State(initialized, hooks.Of(EventShutdown), begun, done)
    }

    method Get(name: string) returns (r: Result<(), Error>)
      modifies this, hooks
      ensures r.Ok? ==> GetInstance(cfg, old(Now()), name) == Ok(Now())
      ensures r.Err? ==> GetInstance(cfg, old(Now()), name) == Err(r.error)
      decreases Uninitialized(cfg, Now()), 0
    {
      var inst := name;
      if name in cfg.aliases && cfg.aliases[name] != "" {
        inst := cfg.aliases[name];
      }
      if inst !in cfg.instances {
        return Err(UnknownBlock);
      }
      if inst in initialized {
        return Ok(());
      }
      assert inst in Uninitialized(cfg, Now());
      initialized := initialized + {inst};
      r := Init(Named(inst), cfg.instances[inst]);
    }

    method Init(obj: Obj, m: Mod) returns (r: Result<(), Error>)
      modifies this, hooks
      ensures r.Ok? ==> InitObject(cfg, old(Now()), obj, m) == Ok(Now())
      ensures r.Err? ==> InitObject(cfg, old(Now()), obj, m) == Err(r.error)
      decreases Uninitialized(cfg, Now()), 1, m, 1
    {
      begun := begun + [obj];
      ghost var goal := InitRefs(cfg, Now(), obj, m.refs, 0);
      for i := 0 to |m.refs|
        invariant old(initialized) <= initialized
        invariant goal == InitRefs(cfg, Now(), obj, m.refs[i..], i)
      {
        ghost var rest := m.refs[i..];
        assert rest[0] == m.refs[i] && rest[1..] == m.refs[i + 1..];
        var one := Reference(obj, m.refs[i], i);
        if one.Err? {
          return Err(one.error);
        }
      }
      if !m.initOk {
        return Err(InitFailed);
      }
      done := done + [obj];
      if m.closable {
        hooks.AddHook(EventShutdown, obj);
      }
      return Ok(());
    }

    method Reference(obj: Obj, ref: Ref, i: nat) returns (r: Result<(), Error>)
      modifies this, hooks
      ensures r.Ok? ==> InitRef(cfg, old(Now()), obj, ref, i) == Ok(Now())
      ensures r.Err? ==> InitRef(cfg, old(Now()), obj, ref, i) == Err(r.error)
      decreases Uninitialized(cfg, Now()), 1, ref, 2
    {
      match ref {
        case ByName(name, fits) =>
          r := Get(name);
          if r.Ok? && !fits {
            return Err(DoesNotFit);
          }
        case Inline(m, fits) =>
          if !fits {
            return Err(DoesNotFit);
          }
          r := Init(Anon(obj, i), m);
      }
    }

    method InitAll() returns (r: Outcome)
      requires Now() == INITIAL
      modifies this, hooks
      ensures r == InitModules(cfg)
      ensures r.Started? ==> Now() == r.st
    {
      ghost var goal := InitEndpoints(cfg, INITIAL, 0);
      for i := 0 to |cfg.endpoints|
        invariant goal == InitEndpoints(cfg, Now(), i)
      {
        var one := Init(Endpoint(i), cfg.endpoints[i]);
        if one.Err? {
          return Failed(one.error);
        }
      }
      for i := 0 to |cfg.blocks|
        invariant goal == Ok(Now())
        invariant FirstUnused(cfg, Now(), 0) == FirstUnused(cfg, Now(), i)
      {
        if cfg.blocks[i] !in initialized {
          return Unused(cfg.blocks[i]);
        }
      }
      return Started(Now());
    }

    /** The order in which a started server closes its modules. */
    method Shutdown() returns (closed: seq<Obj>)
      ensures closed == Reversed(Now().hooks)
    {
      closed := hooks.RunHooks(EventShutdown);
    }
  }
}
