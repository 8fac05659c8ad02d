/**
 Exact accounting of limiter units over every interleaving of sessions.

 It holds in deferred-reject mode. Without deferred reject, `Mail` stores the sender as the
 client wrote it after the limits were taken under the normalised one, so there it holds exactly
 when normalisation does not change the domain under which a sender is limited.
 */
module SessionAccounting {
  import opened Common
  import opened Sessions

  // ---------------------------------------------------------------------------
  // Holdings
  // ---------------------------------------------------------------------------

  /** The units a session is entitled to, read off the point it has reached. */
  function Held(env: Env, s: Session): seq<Unit> {
    match s.at
    case Opening(scope) => TakenBefore(env.limits, s.keys, scope)
    case Taking(scope, i) => TakenBefore(env.limits, s.keys, scope) + FirstUnits(scope, KeyIn(s.keys, scope), i)
    case Starting => MsgUnits(env.limits, s.keys)
    case Releasing(pending, _) => pending
    case _ =>
      if s.delivery.None? || SenderDomain(env, s.mailFrom).None? then []
      else MsgUnits(env.limits, Keys(s.ip, SenderDomain(env, s.mailFrom).value))
  }

  /** The slots that a list of limiters occupies. */
  function Slots(l: Limits, us: seq<Unit>): multiset<Unit> {
    if us == [] then multiset{}
    else (if Occupies(l, us[0]) then multiset{us[0]} else multiset{}) + Slots(l, us[1..])
  }

  lemma {:induction false} SlotsConcat(l: Limits, a: seq<Unit>, b: seq<Unit>)
    ensures Slots(l, a + b) == Slots(l, a) + Slots(l, b)
  {
    if a == [] {
      assert a + b == b;
    } else {
      assert (a + b)[1..] == a[1..] + b;
      SlotsConcat(l, a[1..], b);
    }
  }

  lemma {:induction false} SlotsOne(l: Limits, u: Unit)
    ensures Slots(l, [u]) == if Occupies(l, u) then multiset{u} else multiset{}
  {}

  function HeldSlots(env: Env, s: Session): multiset<Unit> { Slots(env.limits, Held(env, s)) }

  /** The slots held by all sessions together. */
  function Total(env: Env, ss: seq<Session>): multiset<Unit> {
    if ss == [] then multiset{} else Total(env, ss[..|ss| - 1]) + HeldSlots(env, ss[|ss| - 1])
  }

  lemma {:induction false} AddToBoth<T(!new)>(
    a: multiset<T>, b: multiset<T>, c: multiset<T>, d: multiset<T>, x: multiset<T>)
    requires a + b == c + d
    ensures a + x + b == c + x + d
  {
    assert a + x + b == (a + b) + x;
    assert c + x + d == (c + d) + x;
  }

  lemma {:induction false} SameAfterMove<T(!new)>(
    units: multiset<T>, units': multiset<T>, total': multiset<T>, h: multiset<T>, h': multiset<T>)
    requires units' + h == units + h' && total' + h == units + h'
    ensures units' == total'
  {
    forall x: T
      ensures units'[x] == total'[x]
    {
      assert (units' + h)[x] == (total' + h)[x];
    }
  }

  lemma {:induction false} TotalUpdate(env: Env, ss: seq<Session>, i: nat, s: Session)
    requires i < |ss|
    ensures Total(env, ss[i := s]) + HeldSlots(env, ss[i]) == Total(env, ss) + HeldSlots(env, s)
    decreases |ss|
  {
    hide HeldSlots;
    var n := |ss| - 1;
    if i < n {
      TotalUpdate(env, ss[..n], i, s);
      assert ss[i := s][..n] == ss[..n][i := s];
      AddToBoth(Total(env, ss[..n][i := s]), HeldSlots(env, ss[i]), Total(env, ss[..n]), HeldSlots(env, s),
        HeldSlots(env, ss[n]));
    } else {
      assert ss[i := s][..n] == ss[..n];
    }
  }

  lemma {:induction false} TotalIncludes(env: Env, ss: seq<Session>, i: nat)
    requires i < |ss|
    ensures HeldSlots(env, ss[i]) <= Total(env, ss)
    decreases |ss|
  {
    hide HeldSlots;
    if i < |ss| - 1 {
      TotalIncludes(env, ss[..|ss| - 1], i);
    }
  }

  // ---------------------------------------------------------------------------
  // The invariant
  // ---------------------------------------------------------------------------

  /** Normalising a sender leaves the domain under which it is limited alone. */
  ghost predicate KeysStable(env: Env) {
    forall from :: Accepted(env, from) && KnownSender(env, from) ==>
      SenderDomain(env, from) == SenderDomain(env, Cleaned(env, from).value)
  }

  /** `startDelivery` gets as far as taking limits for this sender. */
  predicate Accepted(env: Env, from: string) {
    Cleaned(env, from).Some? && SenderDomain(env, Cleaned(env, from).value).Some?
  }

  /** No limiter of the source scope can refuse. */
  predicate SourceNeverFails(l: Limits) { forall k :: k in l.source ==> NoOp(k) }

  /** The settings under which the accounting is claimed. */
  ghost predicate Proper(env: Env) {
    && (env.deferred || KeysStable(env))
    && (env.limits.ip != [] || SourceNeverFails(env.limits))
    && |env.ipKeys| <= env.limits.maxBuckets && |env.sourceKeys| <= env.limits.maxBuckets
    && "" in env.sourceKeys
  }

  predicate BucketsExist(st: State, us: seq<Unit>) {
    forall k :: 0 <= k < |us| ==> BucketExists(st, us[k])
  }

  /** The local variables of `startDelivery` agree with the sender that will be stored. */
  predicate LocalsOk(env: Env, s: Session) {
    && s.delivery.None? && s.keys.ip == s.ip && s.keys.source in env.sourceKeys
    && SenderDomain(env, if s.inMail then s.raw else s.clean) == Some(s.keys.source)
  }

  predicate PointOk(env: Env, st: State, s: Session) {
    match s.at
    case Resting =>
      (s.delivery.Some? ==> SenderDomain(env, s.mailFrom).Some?) && (s.delivery.None? ==> KnownSender(env, s.mailFrom))
    case Opening(scope) => LocalsOk(env, s) && !scope.All?
    case Taking(scope, i) =>
      && LocalsOk(env, s) && i <= |Kinds(env.limits, scope)|
      && BucketExists(st, Unit(scope, KeyIn(s.keys, scope), 0))
    case Starting => LocalsOk(env, s)
    case Releasing(_, next) => next.FailStart? ==> s.delivery.None? && KnownSender(env, s.mailFrom)
    case Gone => s.delivery.None?
  }

  predicate SessionOk(env: Env, st: State, s: Session) {
    && s.ip in env.ipKeys
    && PointOk(env, st, s)
    && BucketsExist(st, Held(env, s))
    && (s.at.Opening? || s.at.Taking? || s.at.Starting? ==> KnownSender(env, s.mailFrom))
  }

  predicate WithinCapacity(env: Env, units: multiset<Unit>) {
    forall u :: u in units ==> Occupies(env.limits, u) && units[u] <= Kinds(env.limits, u.scope)[u.index].max
  }

  /** The semaphores contain exactly the slots the sessions hold. */
  predicate Inv(env: Env, st: State) {
    && !st.panicked
    && st.units == Total(env, st.sessions)
    && WithinCapacity(env, st.units)
    && st.ipBuckets <= env.ipKeys && st.sourceBuckets <= env.sourceKeys
    && (forall i :: 0 <= i < |st.sessions| ==> SessionOk(env, st, st.sessions[i]))
  }

  /** A step that replaces one session keeps the invariant if it moves exactly the slots it says. */
  lemma {:induction false} StepKeepsInv(env: Env, st: State, st': State, i: nat, s: Session)
    requires Inv(env, st) && i < |st.sessions| && st'.sessions == st.sessions[i := s] && !st'.panicked
    requires st.ipBuckets <= st'.ipBuckets <= env.ipKeys && st.sourceBuckets <= st'.sourceBuckets <= env.sourceKeys
    requires st'.units + HeldSlots(env, st.sessions[i]) == st.units + HeldSlots(env, s)
    requires WithinCapacity(env, st'.units) && SessionOk(env, st', s)
    ensures Inv(env, st')
  {
    hide HeldSlots, SessionOk, Occupies, Total;
    TotalUpdate(env, st.sessions, i, s);
    SameAfterMove(st.units, st'.units, Total(env, st'.sessions), HeldSlots(env, st.sessions[i]), HeldSlots(env, s));
    forall j | 0 <= j < |st'.sessions|
      ensures SessionOk(env, st', st'.sessions[j])
    {
      if j != i {
        MoreBuckets(env, st, st', st.sessions[j]);
      }
    }
  }

  lemma {:induction false} MoreBuckets(env: Env, st: State, st': State, s: Session)
    requires SessionOk(env, st, s) && st.ipBuckets <= st'.ipBuckets && st.sourceBuckets <= st'.sourceBuckets
    ensures SessionOk(env, st', s)
  {}

  lemma {:induction false} BucketsExistConcat(st: State, a: seq<Unit>, b: seq<Unit>)
    ensures BucketsExist(st, a + b) <==> BucketsExist(st, a) && BucketsExist(st, b)
  {
    if BucketsExist(st, a + b) {
      forall k | 0 <= k < |a| ensures BucketExists(st, a[k]) { assert (a + b)[k] == a[k]; }
      forall k | 0 <= k < |b| ensures BucketExists(st, b[k]) { assert (a + b)[|a| + k] == b[k]; }
    }
  }

  // ---------------------------------------------------------------------------
  // Steps that move no slot
  // ---------------------------------------------------------------------------

  /** Steps of the session's own code leave its holdings as they are. */
  lemma {:induction false} LocalKeepsHoldings(env: Env, st: State, s: Session, a: Action)
    requires Proper(env) && SessionOk(env, st, s) && ActionEnabled(env, st, s, a)
    requires !a.OpenBucket? && !a.TakeOk? && !a.TakeFails? && !a.ReleaseOne?
    ensures Held(env, Local(env, s, a)) == Held(env, s)
    ensures SessionOk(env, st, Local(env, s, a))
  {
    hide MsgUnits, TakenBefore, SenderDomain;
    match a
    case ScopeDone => ScopeDoneKeepsHoldings(env, st, s);
    case ReleaseDone => NullSender(env);
    case Mail(from, precheck) =>
      if !env.deferred {
        StartTakesNothingYet(env, st, s.(raw := from), from, precheck, true);
      }
    case Rcpt(precheck, _) =>
      if s.delivery.None? {
        StartTakesNothingYet(env, st, s, s.mailFrom, precheck, false);
      }
    case _ =>
  }

  lemma {:induction false} NullSender(env: Env)
    requires Proper(env)
    ensures KnownSender(env, "")
  {}

  lemma {:induction false} StartTakesNothingYet(
    env: Env, st: State, s: Session, from: string, precheck: bool, inMail: bool)
    requires s.at.Resting? && s.ip in env.ipKeys && s.delivery.None? && KnownSender(env, s.mailFrom)
      && KnownSender(env, from)
    requires inMail ==> KeysStable(env) && from == s.raw
    ensures var s' := StartDelivery(env, s, from, precheck, inMail);
            Held(env, s') == [] && SessionOk(env, st, s')
  {}

  lemma {:induction false} ScopeDoneKeepsHoldings(env: Env, st: State, s: Session)
    requires SessionOk(env, st, s) && ActionEnabled(env, st, s, ScopeDone)
    ensures Held(env, Local(env, s, ScopeDone)) == Held(env, s)
    ensures SessionOk(env, st, Local(env, s, ScopeDone))
  {
    hide SenderDomain, KnownSender, TakenBefore, MsgUnits, ScopeUnits, FirstUnits;
    SkippedScopes(env.limits, s.keys);
    WholeScope(env.limits, s.keys, s.at.scope, s.at.i);
  }

  lemma {:induction false} WholeScope(l: Limits, keys: Keys, scope: Scope, i: nat)
    ensures i == |Kinds(l, scope)| ==> FirstUnits(scope, KeyIn(keys, scope), i) == ScopeUnits(l, keys, scope)
  {}

  /** What `TakeMsg` has taken when it leaves out the scopes that are not configured. */
  lemma {:induction false} SkippedScopes(l: Limits, keys: Keys)
    ensures TakenBefore(l, keys, All) + ScopeUnits(l, keys, All) == TakenBefore(l, keys, Ip)
    ensures TakenBefore(l, keys, Ip) + ScopeUnits(l, keys, Ip) == TakenBefore(l, keys, Source)
    ensures TakenBefore(l, keys, Source) + ScopeUnits(l, keys, Source) == MsgUnits(l, keys)
    ensures l.ip == [] ==> TakenBefore(l, keys, Ip) == TakenBefore(l, keys, Source)
    ensures l.source == [] ==> TakenBefore(l, keys, Source) == MsgUnits(l, keys)
  {}

  // ---------------------------------------------------------------------------
  // Steps on the shared limiters
  // ---------------------------------------------------------------------------

  lemma {:induction false} SubsetSize<T>(a: set<T>, b: set<T>)
    requires a <= b
    ensures |a| <= |b|
  {
    assert b == a + (b - a);
  }

  lemma {:induction false} OpenMoves(env: Env, st: State, s: Session)
    requires Proper(env) && SessionOk(env, st, s) && s.at.Opening?
    requires st.ipBuckets <= env.ipKeys && st.sourceBuckets <= env.sourceKeys
    ensures
      var st', s' := Opened(st, s.at.scope, KeyIn(s.keys, s.at.scope)), s.(at := Taking(s.at.scope, 0));
      && !BucketsFull(env, st, s.at.scope) && HeldSlots(env, s') == HeldSlots(env, s) && SessionOk(env, st', s')
      && st.ipBuckets <= st'.ipBuckets <= env.ipKeys && st.sourceBuckets <= st'.sourceBuckets <= env.sourceKeys
  {
    hide SenderDomain, KnownSender, TakenBefore, Slots;
    SubsetSize(st.ipBuckets, env.ipKeys);
    SubsetSize(st.sourceBuckets, env.sourceKeys);
    var st', s' := Opened(st, s.at.scope, KeyIn(s.keys, s.at.scope)), s.(at := Taking(s.at.scope, 0));
    MoreBuckets(env, st, st', s);
    assert Held(env, s') == Held(env, s);
  }

  lemma {:induction false} TakeOkMoves(env: Env, st: State, s: Session)
    requires SessionOk(env, st, s) && WithinCapacity(env, st.units) && ActionEnabled(env, st, s, TakeOk)
    ensures
      var u, s' := NextUnit(s), s.(at := Taking(s.at.scope, s.at.i + 1));
      var taken := if Occupies(env.limits, u) then multiset{u} else multiset{};
      && HeldSlots(env, s') == HeldSlots(env, s) + taken && WithinCapacity(env, st.units + taken)
      && SessionOk(env, st, s')
  {
    hide SenderDomain, KnownSender, TakenBefore, Slots;
    var u, s' := NextUnit(s), s.(at := Taking(s.at.scope, s.at.i + 1));
    assert Held(env, s') == Held(env, s) + [u];
    SlotsConcat(env.limits, Held(env, s), [u]);
    SlotsOne(env.limits, u);
    BucketsExistConcat(st, Held(env, s), [u]);
  }

  /** What is given back after a failed take is what was taken, in another order. */
  lemma {:induction false} UndoIsTaken(env: Env, st: State, s: Session)
    requires s.at.Taking? && BucketsExist(st, Held(env, s))
    ensures var undo := Undo(env.limits, s.keys, s.at.scope, s.at.i);
            Slots(env.limits, undo) == HeldSlots(env, s) && BucketsExist(st, undo)
  {
    var a, b := FirstUnits(s.at.scope, KeyIn(s.keys, s.at.scope), s.at.i), TakenBefore(env.limits, s.keys, s.at.scope);
    SlotsConcat(env.limits, a, b);
    SlotsConcat(env.limits, b, a);
    BucketsExistConcat(st, a, b);
    BucketsExistConcat(st, b, a);
  }

  lemma {:induction false} TakeFailsMoves(env: Env, st: State, s: Session)
    requires SessionOk(env, st, s) && s.at.Taking?
    ensures
      var s' := s.(at := Releasing(Undo(env.limits, s.keys, s.at.scope, s.at.i), FailStart));
      HeldSlots(env, s') == HeldSlots(env, s) && SessionOk(env, st, s')
  {
    hide SenderDomain, KnownSender, TakenBefore, Slots;
    UndoIsTaken(env, st, s);
  }

  /** A pending release always finds its unit in the semaphore. */
  lemma {:induction false} ReleaseFindsUnit(env: Env, st: State, i: nat, u: Unit, rest: seq<Unit>)
    requires i < |st.sessions| && st.units == Total(env, st.sessions)
    requires BucketsExist(st, [u] + rest) && Held(env, st.sessions[i]) == [u] + rest
    ensures BucketExists(st, u) && (Occupies(env.limits, u) ==> u in st.units)
  {
    hide Total, Held;
    TotalIncludes(env, st.sessions, i);
    assert BucketExists(st, ([u] + rest)[0]);
    PendingSlots(env.limits, u, rest);
  }

  lemma {:induction false} PendingSlots(l: Limits, u: Unit, rest: seq<Unit>)
    ensures Slots(l, [u] + rest) == (if Occupies(l, u) then multiset{u} else multiset{}) + Slots(l, rest)
  {}

  lemma {:induction false} ReleaseMoves(env: Env, st: State, i: nat)
    requires i < |st.sessions| && st.units == Total(env, st.sessions) && SessionOk(env, st, st.sessions[i])
    requires st.sessions[i].at.Releasing? && st.sessions[i].at.pending != []
    ensures
      var s := st.sessions[i];
      var u, s' := s.at.pending[0], s.(at := s.at.(pending := s.at.pending[1..]));
      && HeldSlots(env, s) == (if Occupies(env.limits, u) then multiset{u} else multiset{}) + HeldSlots(env, s')
      && BucketExists(st, u) && (Occupies(env.limits, u) ==> u in st.units) && SessionOk(env, st, s')
  {
    hide SenderDomain, KnownSender, Slots, Total, Occupies;
    var s := st.sessions[i];
    var u, rest := s.at.pending[0], s.at.pending[1..];
    assert s.at.pending == [u] + rest;
    ReleaseFindsUnit(env, st, i, u, rest);
    PendingSlots(env.limits, u, rest);
    BucketsExistConcat(st, [u], rest);
  }

  lemma {:induction false} CapacityShrinks(env: Env, units: multiset<Unit>, u: Unit)
    requires WithinCapacity(env, units)
    ensures WithinCapacity(env, units - multiset{u})
  {}

  /** Taking a unit, opening a bucket for it, or giving up. */
  lemma {:induction false} TakingKeepsInv(env: Env, st: State, i: nat, a: Action)
    requires Proper(env) && Inv(env, st) && Enabled(env, st, Act(i, a)) && (a.OpenBucket? || a.TakeOk? || a.TakeFails?)
    ensures Inv(env, Apply(env, st, Act(i, a)))
  {
    hide Held, KnownSender, Total, Slots, SessionOk, WithinCapacity, Occupies, Undo;
    var s, st' := st.sessions[i], Apply(env, st, Act(i, a));
    assert SessionOk(env, st, s);
    var s' := st'.sessions[i];
    if a.OpenBucket? {
      OpenMoves(env, st, s);
      MoreBuckets(env, Opened(st, s.at.scope, KeyIn(s.keys, s.at.scope)), st', s');
    } else {
      if a.TakeOk? { TakeOkMoves(env, st, s); } else { TakeFailsMoves(env, st, s); }
      MoreBuckets(env, st, st', s');
    }
    StepKeepsInv(env, st, st', i, s');
  }

  /** Giving a unit back, and the session's own code. */
  lemma {:induction false} OtherKeepsInv(env: Env, st: State, i: nat, a: Action)
    requires Proper(env) && Inv(env, st) && Enabled(env, st, Act(i, a)) && !a.OpenBucket? && !a.TakeOk? && !a.TakeFails?
    ensures Inv(env, Apply(env, st, Act(i, a)))
  {
    hide Local, Held, KnownSender, Total, Slots, SessionOk, WithinCapacity, Occupies;
    var s, st' := st.sessions[i], Apply(env, st, Act(i, a));
    assert SessionOk(env, st, s);
    var s' := st'.sessions[i];
    if a.ReleaseOne? {
      ReleaseMoves(env, st, i);
      CapacityShrinks(env, st.units, s.at.pending[0]);
    } else {
      LocalKeepsHoldings(env, st, s, a);
    }
    MoreBuckets(env, st, st', s');
    StepKeepsInv(env, st, st', i, s');
  }

  lemma {:induction false} NewSessionOk(env: Env, st: State, ip: string)
    requires Proper(env) && ip in env.ipKeys
    ensures SessionOk(env, st, NewSession(ip)) && HeldSlots(env, NewSession(ip)) == multiset{}
  {
    hide TakenBefore, MsgUnits;
  }

  lemma {:induction false} ConnectKeepsInv(env: Env, st: State, ip: string)
    requires Proper(env) && Inv(env, st) && ip in env.ipKeys
    ensures Inv(env, Apply(env, st, Connect(ip)))
  {
    hide Proper, HeldSlots, SessionOk, NewSession, Occupies;
    var s := NewSession(ip);
    var ss := st.sessions + [s];
    assert ss[..|ss| - 1] == st.sessions;
    var st' := st.(sessions := ss);
    NewSessionOk(env, st', ip);
    forall j | 0 <= j < |ss|
      ensures SessionOk(env, st', ss[j])
    {
      if j < |st.sessions| {
        MoreBuckets(env, st, st', st.sessions[j]);
      }
    }
  }

  lemma {:induction false} EveryStepKeepsInv(env: Env, st: State, e: Event)
    requires Proper(env) && Inv(env, st) && Enabled(env, st, e)
    ensures Inv(env, Apply(env, st, e))
  {
    hide Inv, Apply;
    match e
    case Connect(ip) => ConnectKeepsInv(env, st, ip);
    case Act(i, a) =>
      if a.OpenBucket? || a.TakeOk? || a.TakeFails? {
        TakingKeepsInv(env, st, i, a);
      } else {
        OtherKeepsInv(env, st, i, a);
      }
  }

  // ---------------------------------------------------------------------------
  // Runs
  // ---------------------------------------------------------------------------

  /**
   In every reachable state of every run, the semaphores of all three scopes contain exactly the
   units held by sessions with an open delivery or part-way through taking or releasing, no
   semaphore is over its capacity, and no mismatched release has occurred.
   */
  lemma {:induction false} AccountingIsExact(env: Env, events: seq<Event>)
    requires Proper(env) && IsRun(env, events)
    ensures Inv(env, After(env, events))
    decreases |events|
  {
    if events == [] {
      assert Inv(env, INITIAL);
    } else {
      var before := events[..|events| - 1];
      AccountingIsExact(env, before);
      EveryStepKeepsInv(env, After(env, before), events[|events| - 1]);
    }
  }

  /** The mismatched-release panic, and every other one in the model, is unreachable. */
  lemma {:induction false} NeverPanics(env: Env, events: seq<Event>)
    requires Proper(env) && IsRun(env, events)
    ensures !After(env, events).panicked
  {
    AccountingIsExact(env, events);
  }

  predicate Idle(s: Session) { (s.at.Resting? || s.at.Gone?) && s.delivery.None? }

  /** Nothing leaks: when no session has a delivery or a command under way, all semaphores are empty. */
  lemma {:induction false} NothingLeaks(env: Env, events: seq<Event>)
    requires Proper(env) && IsRun(env, events)
    requires forall i :: 0 <= i < |After(env, events).sessions| ==> Idle(After(env, events).sessions[i])
    ensures After(env, events).units == multiset{}
  {
    AccountingIsExact(env, events);
    IdleTotal(env, After(env, events).sessions);
  }

  lemma {:induction false} IdleTotal(env: Env, ss: seq<Session>)
    requires forall i :: 0 <= i < |ss| ==> Idle(ss[i])
    ensures Total(env, ss) == multiset{}
    decreases |ss|
  {
    if ss != [] {
      IdleTotal(env, ss[..|ss| - 1]);
    }
  }
}
