/**
 Many SMTP sessions sharing one group of limiters, as a step system
 (internal/endpoint/smtp/session.go, internal/limits and internal/limits/limiters).

 Every atomic action is a step: one channel operation of a limiter, one locked region of a
 bucket set, or a stretch of session code that touches nothing shared. A session that is inside
 a command holds its own lock, so only its next step can follow; steps of different sessions
 interleave in any way.
 */
module Sessions {
  import opened Common

  // ---------------------------------------------------------------------------
  // Limiters
  // ---------------------------------------------------------------------------

  datatype Kind = Concurrency(max: nat) | Rate(burst: nat)

  datatype Scope = All | Ip | Source

  /** One limiter: the `index`-th of a scope, in the bucket of `key` (the global scope has one bucket). */
  datatype Unit = Unit(scope: Scope, key: string, index: nat)

  /** The configured limiters of each scope; a scope without limiters has no bucket set. */
  datatype Limits = Limits(global: seq<Kind>, ip: seq<Kind>, source: seq<Kind>, maxBuckets: nat)

  function Kinds(l: Limits, scope: Scope): seq<Kind> {
    match scope
    case All => l.global
    case Ip => l.ip
    case Source => l.source
  }

  /** A semaphore of capacity zero lets everything through, and so does an empty token bucket. */
  predicate NoOp(k: Kind) {
    match k
    case Concurrency(max) => max == 0
    case Rate(burst) => burst == 0
  }

  /** Whether taking the limiter occupies a slot that has to be given back. */
  predicate Occupies(l: Limits, u: Unit) {
    u.index < |Kinds(l, u.scope)| && Kinds(l, u.scope)[u.index].Concurrency? && !NoOp(Kinds(l, u.scope)[u.index])
  }

  /** The first `n` limiters of a scope, in the order in which they are taken. */
  function FirstUnits(scope: Scope, key: string, n: nat): (r: seq<Unit>)
    ensures |r| == n && forall i :: 0 <= i < n ==> r[i] == Unit(scope, key, i)
  {
    if n == 0 then [] else FirstUnits(scope, key, n - 1) + [Unit(scope, key, n - 1)]
  }

  /** The keys under which a message is limited. */
  datatype Keys = Keys(ip: string, source: string)

  function KeyIn(keys: Keys, scope: Scope): string {
    match scope
    case All => ""
    case Ip => keys.ip
    case Source => keys.source
  }

  function ScopeUnits(l: Limits, keys: Keys, scope: Scope): seq<Unit> {
    FirstUnits(scope, KeyIn(keys, scope), |Kinds(l, scope)|)
  }

  /** Everything `ReleaseMsg` gives back, in its order. */
  function MsgUnits(l: Limits, keys: Keys): seq<Unit> {
    ScopeUnits(l, keys, All) + ScopeUnits(l, keys, Ip) + ScopeUnits(l, keys, Source)
  }

  /** What has been taken when `TakeMsg` turns to the given scope. */
  function TakenBefore(l: Limits, keys: Keys, scope: Scope): seq<Unit> {
    match scope
    case All => []
    case Ip => ScopeUnits(l, keys, All)
    case Source => ScopeUnits(l, keys, All) + ScopeUnits(l, keys, Ip)
  }

  /**
   What is given back when the `i`-th limiter of a scope cannot be taken: first the limiters of
   the same bucket, by `MultiLimit`, then the scopes before it, by `TakeMsg`.
   */
  function Undo(l: Limits, keys: Keys, scope: Scope, i: nat): seq<Unit> {
    FirstUnits(scope, KeyIn(keys, scope), i) + TakenBefore(l, keys, scope)
  }

  // ---------------------------------------------------------------------------
  // Sessions
  // ---------------------------------------------------------------------------

  /** Calls made on a delivery object; deliveries of a session are numbered. */
  datatype Call =
    | AddRcpt(id: nat) | Body(id: nat, ok: bool) | BodyNonAtomic(id: nat) | Commit(id: nat) | Abort(id: nat)

  /** What happens once pending limiters are given back. */
  datatype Then = FailStart | Clean | Leave

  /** The point a session has reached. */
  datatype Point =
    | Resting
    | Opening(scope: Scope)                  // `BucketSet.take` comes next
    | Taking(scope: Scope, i: nat)           // the `i`-th limiter of the scope comes next
    | Starting                               // limits are taken, `pipeline.Start` comes next
    | Releasing(pending: seq<Unit>, next: Then)
    | Gone

  /**
   `clean` and `keys` are the local variables of `startDelivery`; `inMail` tells whether it was
   called by `Mail` or by `Rcpt`; `raw` is the argument of `Mail`.
   */
  datatype Session = Session(
    at: Point, ip: string, mailFrom: string, delivery: Option<nat>, failed: bool,
    clean: string, keys: Keys, inMail: bool, raw: string,
    started: nat, calls: seq<Call>)

  /**
   The endpoint's settings, the normalisation of addresses and the domain of an address (any
   functions will do), and the keys that may occur.
   */
  datatype Env = Env(
    limits: Limits, deferred: bool, lmtp: bool,
    cleanDomain: string -> Option<string>, splitDomain: string -> Option<string>,
    ipKeys: set<string>, sourceKeys: set<string>)

  /** `units` is the content of the semaphores' channels; a bucket exists once its key was used. */
  datatype State = State(
    units: multiset<Unit>, ipBuckets: set<string>, sourceBuckets: set<string>, panicked: bool, sessions: seq<Session>)

  const INITIAL := State(multiset{}, {}, {}, false, [])

  /** The domain of a sender; the null sender has the empty domain. */
  function SenderDomain(env: Env, from: string): Option<string> {
    if from == "" then Some("") else env.splitDomain(from)
  }

  /** `CleanDomain` is not applied to the null sender. */
  function Cleaned(env: Env, from: string): Option<string> {
    if from == "" then Some("") else env.cleanDomain(from)
  }

  function NewSession(ip: string): Session {
    Session(Resting, ip, "", None, false, "", Keys(ip, ""), false, "", 0, [])
  }

  // ---------------------------------------------------------------------------
  // Session code that touches nothing shared
  // ---------------------------------------------------------------------------

  /** `startDelivery` up to `TakeMsg`; `precheck` stands for the message ID and SMTPUTF8 checks. */
  function StartDelivery(env: Env, s: Session, from: string, precheck: bool, inMail: bool): Session {
    var clean := Cleaned(env, from);
    if !precheck || clean.None? || SenderDomain(env, clean.value).None? then
      if inMail then s else s.(failed := true)
    else
      s.(at := Taking(All, 0), clean := clean.value, keys := Keys(s.ip, SenderDomain(env, clean.value).value),
         inMail := inMail)
  }

  /** `releaseLimits`: the domain is taken from the stored sender, and nothing is released if it has none. */
  function ReleaseLimits(env: Env, s: Session, next: Then): Session {
    var domain := SenderDomain(env, s.mailFrom);
    s.(at := Releasing(if domain.None? then [] else MsgUnits(env.limits, Keys(s.ip, domain.value)), next))
  }

  /** `cleanSession`, after the limits are released. */
  function Cleared(s: Session, at: Point): Session {
    s.(at := at, mailFrom := "", delivery := None, failed := false)
  }

  datatype DataOutcome = PrepareFails | LoopFound | BodyFails | Committed

  /** `Data` and `LMTPData`. */
  function RunData(env: Env, s: Session, outcome: DataOutcome): Session
    requires s.delivery.Some?
  {
    var d := s.delivery.value;
    match outcome
    case PrepareFails => s
    case LoopFound => ReleaseLimits(env, s, Clean)
    case BodyFails =>
      if env.lmtp then ReleaseLimits(env, s.(calls := s.calls + [BodyNonAtomic(d), Commit(d)]), Clean)
      else ReleaseLimits(env, s.(calls := s.calls + [Body(d, false)]), Clean)
    case Committed =>
      if env.lmtp then ReleaseLimits(env, s.(calls := s.calls + [BodyNonAtomic(d), Commit(d)]), Clean)
      else ReleaseLimits(env, s.(calls := s.calls + [Body(d, true), Commit(d)]), Clean)
  }

  /** `Reset` and `Logout` abort an open delivery. */
  function AbortOpen(env: Env, s: Session, next: Then): Session
    requires s.delivery.Some?
  {
    ReleaseLimits(env, s.(calls := s.calls + [Abort(s.delivery.value)]), next)
  }

  /**
   The end of a successful `startDelivery`, and the rest of the command that called it; `valid`
   tells whether the recipient can be normalised.
   */
  function DeliveryStarted(s: Session, valid: bool): Session {
    if s.inMail then
      s.(at := Resting, delivery := Some(s.started), started := s.started + 1, mailFrom := s.raw)
    else
      s.(at := Resting, delivery := Some(s.started), started := s.started + 1, mailFrom := s.clean,
         calls := if valid then s.calls + [AddRcpt(s.started)] else s.calls)
  }

  /** Where `TakeMsg` goes after the last limiter of a scope. */
  function NextPoint(l: Limits, scope: Scope): Point {
    if scope.All? && l.ip != [] then Opening(Ip)
    else if !scope.Source? && l.source != [] then Opening(Source)
    else Starting
  }

  // ---------------------------------------------------------------------------
  // Steps
  // ---------------------------------------------------------------------------

  datatype Action =
    | Mail(from: string, precheck: bool)
    | Rcpt(precheck: bool, valid: bool)
    | Data(outcome: DataOutcome)
    | Reset
    | Logout
    | OpenBucket
    | TakeOk
    | TakeFails
    | ScopeDone
    | StartOk(valid: bool)
    | StartFails
    | ReleaseOne
    | ReleaseDone

  datatype Event = Connect(ip: string) | Act(s: nat, action: Action)

  /** What one step needs; `Mail` only outside a transaction, and only known keys. */
  predicate Enabled(env: Env, st: State, e: Event) {
    match e
    case Connect(ip) => ip in env.ipKeys
    case Act(i, a) => i < |st.sessions| && ActionEnabled(env, st, st.sessions[i], a)
  }

  predicate KnownSender(env: Env, from: string) {
    Cleaned(env, from).Some? && SenderDomain(env, Cleaned(env, from).value).Some?
    ==> SenderDomain(env, Cleaned(env, from).value).value in env.sourceKeys
  }

  predicate ActionEnabled(env: Env, st: State, s: Session, a: Action) {
    match a
    case Mail(from, _) => s.at.Resting? && s.delivery.None? && KnownSender(env, from)
    case Rcpt(_, _) => s.at.Resting?
    case Data(_) => s.at.Resting? && s.delivery.Some?
    case Reset => s.at.Resting?
    case Logout => s.at.Resting?
    case OpenBucket => s.at.Opening?
    case TakeOk => s.at.Taking? && s.at.i < |Kinds(env.limits, s.at.scope)| && CanTake(env, st, NextUnit(s))
    case TakeFails => s.at.Taking? && s.at.i < |Kinds(env.limits, s.at.scope)|
      && !NoOp(Kinds(env.limits, s.at.scope)[s.at.i])
    case ScopeDone => s.at.Taking? && s.at.i >= |Kinds(env.limits, s.at.scope)|
    case StartOk(_) => s.at.Starting?
    case StartFails => s.at.Starting?
    case ReleaseOne => s.at.Releasing? && s.at.pending != []
    case ReleaseDone => s.at.Releasing? && s.at.pending == []
  }

  function NextUnit(s: Session): Unit
    requires s.at.Taking?
  {
    Unit(s.at.scope, KeyIn(s.keys, s.at.scope), s.at.i)
  }

  /** A semaphore accepts a unit while it has a free slot; a token bucket may or may not have a token. */
  predicate CanTake(env: Env, st: State, u: Unit) {
    Occupies(env.limits, u) ==> st.units[u] < Kinds(env.limits, u.scope)[u.index].max
  }

  predicate BucketExists(st: State, u: Unit) {
    match u.scope
    case All => true
    case Ip => u.key in st.ipBuckets
    case Source => u.key in st.sourceBuckets
  }

  function Apply(env: Env, st: State, e: Event): State
    requires Enabled(env, st, e)
  {
    match e
    case Connect(ip) => st.(sessions := st.sessions + [NewSession(ip)])
    case Act(i, a) =>
      var s := st.sessions[i];
      match a
      case OpenBucket =>
        var full := BucketsFull(env, st, s.at.scope);
        if full then st.(panicked := true)   // a nil limiter is used
        else
          var s' := s.(at := Taking(s.at.scope, 0));
          Opened(st, s.at.scope, KeyIn(s.keys, s.at.scope)).(sessions := st.sessions[i := s'])
      case TakeOk =>
        var u := NextUnit(s);
        st.(units := if Occupies(env.limits, u) then st.units + multiset{u} else st.units,
            sessions := st.sessions[i := s.(at := Taking(s.at.scope, s.at.i + 1))])
      case TakeFails =>
        // Giving back the source scope goes through the per-IP bucket set even if there is none.
        if s.at.scope.Source? && env.limits.ip == [] then st.(panicked := true)
        else
          var undo := Undo(env.limits, s.keys, s.at.scope, s.at.i);
          st.(sessions := st.sessions[i := s.(at := Releasing(undo, FailStart))])
      case ReleaseOne =>
        var u := s.at.pending[0];
        var s' := s.(at := s.at.(pending := s.at.pending[1..]));
        if !BucketExists(st, u) || !Occupies(env.limits, u) then st.(sessions := st.sessions[i := s'])
        else if u !in st.units then st.(panicked := true)   // mismatched release
        else st.(units := st.units - multiset{u}, sessions := st.sessions[i := s'])
      case _ => st.(sessions := st.sessions[i := Local(env, s, a)])
  }

  /** Steps that change the session only. */
  function Local(env: Env, s: Session, a: Action): Session {
    match a
    case Mail(from, precheck) =>
      if env.deferred then s.(mailFrom := from)
      else StartDelivery(env, s.(raw := from), from, precheck, true)
    case Rcpt(precheck, valid) =>
      if s.delivery.Some? then (if valid then s.(calls := s.calls + [AddRcpt(s.delivery.value)]) else s)
      else if s.failed then s
      else StartDelivery(env, s, s.mailFrom, precheck, false)
    case Data(outcome) => if s.delivery.Some? then RunData(env, s, outcome) else s
    case Reset => if s.delivery.Some? then AbortOpen(env, s, Clean) else s
    case Logout => if s.delivery.Some? then AbortOpen(env, s, Leave) else s.(at := Gone)
    case ScopeDone => if s.at.Taking? then s.(at := NextPoint(env.limits, s.at.scope)) else s
    case StartOk(valid) => DeliveryStarted(s, valid)
    case StartFails => s.(at := Releasing(MsgUnits(env.limits, s.keys), FailStart))
    case ReleaseDone =>
      if !s.at.Releasing? then s
      else if s.at.next.FailStart? then s.(at := Resting, failed := if s.inMail then s.failed else true)
      else if s.at.next.Clean? then Cleared(s, Resting)
      else Cleared(s, Gone)
    case _ => s
  }

  /** With a clock that does not run backwards no bucket is ever dropped, so a full set stays full. */
  predicate BucketsFull(env: Env, st: State, scope: Scope) {
    match scope
    case All => false
    case Ip => |st.ipBuckets| > env.limits.maxBuckets
    case Source => |st.sourceBuckets| > env.limits.maxBuckets
  }

  function Opened(st: State, scope: Scope, key: string): State {
    match scope
    case All => st
    case Ip => st.(ipBuckets := st.ipBuckets + {key})
    case Source => st.(sourceBuckets := st.sourceBuckets + {key})
  }

  /** A run is a sequence of enabled steps from the initial state. */
  predicate IsRun(env: Env, events: seq<Event>)
    decreases |events|, 0
  {
    events == [] || (IsRun(env, events[..|events| - 1])
                     && !After(env, events[..|events| - 1]).panicked
                     && Enabled(env, After(env, events[..|events| - 1]), events[|events| - 1]))
  }

  function After(env: Env, events: seq<Event>): State
    requires IsRun(env, events)
    decreases |events|, 1
  {
    if events == [] then INITIAL
    else Apply(env, After(env, events[..|events| - 1]), events[|events| - 1])
  }
}
