/**
 When the limits do not work. Without deferred reject, `Mail` overwrites the normalised sender with
 the one the client wrote (internal/endpoint/smtp/session.go:309), so what was taken under one key is
 released under another. For every sender whose domain normalisation changes, a single MAIL and RSET leave
 its source slots taken for ever. And with source limits but no IP limits, a refused source limiter
 is a panic (internal/limits/limits.go:191).
 */
module SessionLeaks {
  import opened Common
  import opened Sessions
  import opened SessionAccounting

  ghost predicate Reached(env: Env, st: State) { exists events :: IsRun(env, events) && After(env, events) == st }

  lemma {:induction false} ReachedStep(env: Env, st: State, e: Event)
    requires Reached(env, st) && !st.panicked && Enabled(env, st, e)
    ensures Reached(env, Apply(env, st, e))
  {
    hide Apply, Enabled;
    var events :| IsRun(env, events) && After(env, events) == st;
    assert (events + [e])[..|events|] == events;
    assert IsRun(env, events + [e]);
  }

  /** One session, and nothing else. */
  function Alone(s: Session, units: multiset<Unit>, ips: set<string>, sources: set<string>): State {
    State(units, ips, sources, false, [s])
  }

  lemma {:induction false} NotTakenYet(l: Limits, scope: Scope, key: string, i: nat)
    ensures Unit(scope, key, i) !in Slots(l, FirstUnits(scope, key, i))
  {
    SlotsOnlyListed(l, FirstUnits(scope, key, i), Unit(scope, key, i));
  }

  lemma {:induction false} SlotsOnlyListed(l: Limits, us: seq<Unit>, u: Unit)
    ensures u in Slots(l, us) ==> u in us && Occupies(l, u)
    decreases |us|
  {
    if us != [] { SlotsOnlyListed(l, us[1..], u); }
  }

  ghost predicate NoneOf(units: multiset<Unit>, scope: Scope) { forall u :: u in units ==> u.scope != scope }

  function OneSlot(l: Limits, u: Unit): multiset<Unit> { if Occupies(l, u) then multiset{u} else multiset{} }

  lemma {:induction false} OneMoreSlot(l: Limits, scope: Scope, key: string, i: nat)
    ensures Slots(l, FirstUnits(scope, key, i + 1)) ==
      Slots(l, FirstUnits(scope, key, i)) + OneSlot(l, Unit(scope, key, i))
  {
    SlotsConcat(l, FirstUnits(scope, key, i), [Unit(scope, key, i)]);
    SlotsOne(l, Unit(scope, key, i));
  }

  lemma {:induction false} TakesOne(
    env: Env, s: Session, scope: Scope, i: nat, held: multiset<Unit>, ips: set<string>, sources: set<string>)
    requires i < |Kinds(env.limits, scope)| && Unit(scope, KeyIn(s.keys, scope), i) !in held
    requires Reached(env, Alone(s.(at := Taking(scope, i)), held, ips, sources))
    ensures
      var u := Unit(scope, KeyIn(s.keys, scope), i);
      Reached(env, Alone(s.(at := Taking(scope, i + 1)), held + OneSlot(env.limits, u), ips, sources))
  {
    hide Reached;
    var u := Unit(scope, KeyIn(s.keys, scope), i);
    var st := Alone(s.(at := Taking(scope, i)), held, ips, sources);
    ReachedStep(env, st, Act(0, TakeOk));
    assert Apply(env, st, Act(0, TakeOk)) ==
      Alone(s.(at := Taking(scope, i + 1)), held + OneSlot(env.limits, u), ips, sources);
  }

  lemma {:induction false} EndsScope(
    env: Env, s: Session, scope: Scope, i: nat, held: multiset<Unit>, ips: set<string>, sources: set<string>)
    requires i == |Kinds(env.limits, scope)| && Reached(env, Alone(s.(at := Taking(scope, i)), held, ips, sources))
    ensures Reached(env, Alone(s.(at := NextPoint(env.limits, scope)), held, ips, sources))
  {
    hide Reached;
    var st := Alone(s.(at := Taking(scope, i)), held, ips, sources);
    ReachedStep(env, st, Act(0, ScopeDone));
    assert Apply(env, st, Act(0, ScopeDone)) == Alone(s.(at := NextPoint(env.limits, scope)), held, ips, sources);
  }

  /** The only session takes limiters of a scope, one by one. */
  lemma {:induction false} TakesUpTo(
    env: Env, s: Session, scope: Scope, i: nat, units: multiset<Unit>, ips: set<string>, sources: set<string>)
    requires i <= |Kinds(env.limits, scope)| && NoneOf(units, scope)
    requires
      var taken := Slots(env.limits, FirstUnits(scope, KeyIn(s.keys, scope), 0));
      Reached(env, Alone(s.(at := Taking(scope, 0)), units + taken, ips, sources))
    ensures
      var taken := Slots(env.limits, FirstUnits(scope, KeyIn(s.keys, scope), i));
      Reached(env, Alone(s.(at := Taking(scope, i)), units + taken, ips, sources))
    decreases i
  {
    hide Reached, Slots, FirstUnits, Occupies;
    if i > 0 {
      var key := KeyIn(s.keys, scope);
      TakesUpTo(env, s, scope, i - 1, units, ips, sources);
      var u, held := Unit(scope, key, i - 1), units + Slots(env.limits, FirstUnits(scope, key, i - 1));
      NotTakenYet(env.limits, scope, key, i - 1);
      TakesOne(env, s, scope, i - 1, held, ips, sources);
      OneMoreSlot(env.limits, scope, key, i - 1);
      assert held + OneSlot(env.limits, u) == units + Slots(env.limits, FirstUnits(scope, key, i));
    }
  }

  /** It takes all of them and goes on. */
  lemma {:induction false} TakesScope(
    env: Env, s: Session, scope: Scope, units: multiset<Unit>, ips: set<string>, sources: set<string>)
    requires NoneOf(units, scope)
    requires
      var taken := Slots(env.limits, FirstUnits(scope, KeyIn(s.keys, scope), 0));
      Reached(env, Alone(s.(at := Taking(scope, 0)), units + taken, ips, sources))
    ensures
      var taken := Slots(env.limits, ScopeUnits(env.limits, s.keys, scope));
      Reached(env, Alone(s.(at := NextPoint(env.limits, scope)), units + taken, ips, sources))
  {
    hide Reached, Slots, FirstUnits, NextPoint;
    var n := |Kinds(env.limits, scope)|;
    TakesUpTo(env, s, scope, n, units, ips, sources);
    EndsScope(env, s, scope, n, units + Slots(env.limits, FirstUnits(scope, KeyIn(s.keys, scope), n)), ips, sources);
  }

  lemma {:induction false} OpensBucket(
    env: Env, s: Session, scope: Scope, held: multiset<Unit>, ips: set<string>, sources: set<string>)
    requires !scope.All? && Reached(env, Alone(s.(at := Opening(scope)), held, ips, sources))
    requires |ips| <= env.limits.maxBuckets && |sources| <= env.limits.maxBuckets
    ensures
      var units := held + Slots(env.limits, FirstUnits(scope, KeyIn(s.keys, scope), 0));
      var ips' := if scope.Ip? then ips + {s.keys.ip} else ips;
      var sources' := if scope.Source? then sources + {s.keys.source} else sources;
      Reached(env, Alone(s.(at := Taking(scope, 0)), units, ips', sources'))
  {
    hide Reached;
    assert held + Slots(env.limits, FirstUnits(scope, KeyIn(s.keys, scope), 0)) == held;
    var st := Alone(s.(at := Opening(scope)), held, ips, sources);
    ReachedStep(env, st, Act(0, OpenBucket));
    assert Apply(env, st, Act(0, OpenBucket)) ==
      Alone(s.(at := Taking(scope, 0)), held,
            if scope.Ip? then ips + {s.keys.ip} else ips, if scope.Source? then sources + {s.keys.source} else sources);
  }

  // ---------------------------------------------------------------------------
  // One MAIL
  // ---------------------------------------------------------------------------

  /** The settings of a deployment without deferred reject, with a semaphore among its source limits. */
  predicate Immediate(env: Env) {
    && !env.deferred && InBounds(env)
    && exists i: nat :: i < |env.limits.source| && Occupies(env.limits, Unit(Source, "", i))
  }

  /** Somebody may connect, and there are no more keys than buckets. */
  predicate InBounds(env: Env) {
    && env.ipKeys != {} && "" in env.sourceKeys
    && |env.ipKeys| <= env.limits.maxBuckets && |env.sourceKeys| <= env.limits.maxBuckets
  }

  /** The session of a client that sends MAIL, while it takes limits. */
  function Mailing(env: Env, ip: string, from: string): Session
    requires Accepted(env, from)
  {
    StartDelivery(env, NewSession(ip).(raw := from), from, true, true)
  }

  lemma {:induction false} StartsTaking(env: Env, ip: string, from: string)
    requires Immediate(env) && ip in env.ipKeys && Accepted(env, from) && KnownSender(env, from)
    ensures Mailing(env, ip, from).at == Taking(All, 0)
    ensures Reached(env, Alone(Mailing(env, ip, from), multiset{} + Slots(env.limits, FirstUnits(All, "", 0)), {}, {}))
  {
    assert IsRun(env, []) && After(env, []) == INITIAL;
    assert Reached(env, INITIAL);
    hide Reached;
    ReachedStep(env, INITIAL, Connect(ip));
    assert Apply(env, INITIAL, Connect(ip)) == Alone(NewSession(ip), multiset{}, {}, {});
    ReachedStep(env, Alone(NewSession(ip), multiset{}, {}, {}), Act(0, Mail(from, true)));
    assert Apply(env, Alone(NewSession(ip), multiset{}, {}, {}), Act(0, Mail(from, true))) ==
      Alone(Mailing(env, ip, from), multiset{}, {}, {});
    assert multiset{} + Slots(env.limits, FirstUnits(All, "", 0)) == multiset{};
  }

  lemma {:induction false} SlotScopes(l: Limits, keys: Keys, scope: Scope, other: Scope)
    requires scope != other
    ensures NoneOf(Slots(l, ScopeUnits(l, keys, scope)), other)
  {
    forall u | u in Slots(l, ScopeUnits(l, keys, scope)) ensures u.scope != other {
      SlotsOnlyListed(l, ScopeUnits(l, keys, scope), u);
    }
  }

  function Taken(env: Env, keys: Keys): multiset<Unit> {
    Slots(env.limits, ScopeUnits(env.limits, keys, All)) + Slots(env.limits, ScopeUnits(env.limits, keys, Ip))
    + Slots(env.limits, ScopeUnits(env.limits, keys, Source))
  }

  lemma {:induction false} TakesEverything(env: Env, ip: string, from: string)
    requires Immediate(env) && env.limits.ip != [] && ip in env.ipKeys && Accepted(env, from) && KnownSender(env, from)
    ensures
      var s := Mailing(env, ip, from);
      Reached(env, Alone(s.(at := Starting), Taken(env, s.keys), {ip}, {s.keys.source}))
  {
    hide Reached, Slots, ScopeUnits, FirstUnits, Occupies;
    StartsTaking(env, ip, from);
    var s := Mailing(env, ip, from);
    var l := env.limits;
    assert s.(at := Taking(All, 0)) == s && s.keys.ip == ip;
    var all, ips := Slots(l, ScopeUnits(l, s.keys, All)), Slots(l, ScopeUnits(l, s.keys, Ip));
    SlotScopes(l, s.keys, All, Ip);
    SlotScopes(l, s.keys, All, Source);
    SlotScopes(l, s.keys, Ip, Source);
    TakesScope(env, s, All, multiset{}, {}, {});
    assert multiset{} + all == all;
    OpensBucket(env, s, Ip, all, {}, {});
    TakesScope(env, s, Ip, all, {} + {ip}, {});
    OpensBucket(env, s, Source, all + ips, {} + {ip}, {});
    TakesScope(env, s, Source, all + ips, {} + {ip}, {} + {s.keys.source});
    assert {} + {ip} == {ip} && {} + {s.keys.source} == {s.keys.source};
  }

  // ---------------------------------------------------------------------------
  // RSET
  // ---------------------------------------------------------------------------

  /** What RSET will give back. */
  function GivenBack(env: Env, ip: string, from: string): seq<Unit> {
    if SenderDomain(env, from).None? then [] else MsgUnits(env.limits, Keys(ip, SenderDomain(env, from).value))
  }

  /** The session once RSET has aborted the delivery. */
  function Resetting(env: Env, ip: string, from: string, pending: seq<Unit>): Session
    requires Accepted(env, from)
  {
    Mailing(env, ip, from).(
      at := Releasing(pending, Clean), delivery := Some(0), started := 1, mailFrom := from, calls := [Abort(0)])
  }

  lemma {:induction false} StartsReleasing(
    env: Env, ip: string, from: string, held: multiset<Unit>, ips: set<string>, sources: set<string>)
    requires Accepted(env, from) && Reached(env, Alone(Mailing(env, ip, from).(at := Starting), held, ips, sources))
    ensures Reached(env, Alone(Resetting(env, ip, from, GivenBack(env, ip, from)), held, ips, sources))
  {
    hide Reached, MsgUnits;
    var s := Mailing(env, ip, from);
    var st, st' := Alone(s.(at := Starting), held, ips, sources), Alone(DeliveryStarted(s, true), held, ips, sources);
    ReachedStep(env, st, Act(0, StartOk(true)));
    assert Apply(env, st, Act(0, StartOk(true))) == st';
    ReachedStep(env, st', Act(0, Reset));
    assert [] + [Abort(0)] == [Abort(0)];
    assert Apply(env, st', Act(0, Reset)) ==
      Alone(Resetting(env, ip, from, GivenBack(env, ip, from)), held, ips, sources);
  }

  lemma {:induction false} ReleasesOne(
    env: Env, s: Session, u: Unit, rest: seq<Unit>, held: multiset<Unit>, ips: set<string>, sources: set<string>)
    requires u.scope.All? || (u.scope.Ip? && u.key in ips)
    requires Reached(env, Alone(s.(at := Releasing([u] + rest, Clean)), OneSlot(env.limits, u) + held, ips, sources))
    ensures Reached(env, Alone(s.(at := Releasing(rest, Clean)), held, ips, sources))
  {
    hide Reached, Occupies;
    var units := OneSlot(env.limits, u) + held;
    var st := Alone(s.(at := Releasing([u] + rest, Clean)), units, ips, sources);
    assert ([u] + rest)[1..] == rest && ([u] + rest)[0] == u;
    ReachedStep(env, st, Act(0, ReleaseOne));
    assert (if Occupies(env.limits, u) then units - multiset{u} else units) == held;
    assert Apply(env, st, Act(0, ReleaseOne)) == Alone(s.(at := Releasing(rest, Clean)), held, ips, sources);
  }

  /** Units whose bucket exists are given back. */
  lemma {:induction false} ReleasesTaken(
    env: Env, s: Session, q: seq<Unit>, rest: seq<Unit>, kept: multiset<Unit>, ips: set<string>, sources: set<string>)
    requires Reached(env, Alone(s.(at := Releasing(q + rest, Clean)), Slots(env.limits, q) + kept, ips, sources))
    requires forall u :: u in q ==> u.scope.All? || (u.scope.Ip? && u.key in ips)
    ensures Reached(env, Alone(s.(at := Releasing(rest, Clean)), kept, ips, sources))
    decreases |q|
  {
    hide Reached;
    if q == [] {
      assert q + rest == rest && Slots(env.limits, q) + kept == kept;
    } else {
      assert q + rest == [q[0]] + (q[1..] + rest) && q[0] in q;
      hide Occupies;
      assert Slots(env.limits, q) + kept ==
        OneSlot(env.limits, q[0]) + (Slots(env.limits, q[1..]) + kept);
      ReleasesOne(env, s, q[0], q[1..] + rest, Slots(env.limits, q[1..]) + kept, ips, sources);
      ReleasesTaken(env, s, q[1..], rest, kept, ips, sources);
    }
  }

  /** A unit whose bucket does not exist is passed over. */
  lemma {:induction false} PassesOver(
    env: Env, s: Session, rest: seq<Unit>, held: multiset<Unit>, ips: set<string>, sources: set<string>)
    requires Reached(env, Alone(s.(at := Releasing(rest, Clean)), held, ips, sources))
    requires forall u :: u in rest ==> u.scope.Source? && u.key !in sources
    ensures Reached(env, Alone(s.(at := Releasing([], Clean)), held, ips, sources))
    decreases |rest|
  {
    hide Reached;
    if rest != [] {
      var st := Alone(s.(at := Releasing(rest, Clean)), held, ips, sources);
      assert rest[0] in rest;
      ReachedStep(env, st, Act(0, ReleaseOne));
      assert Apply(env, st, Act(0, ReleaseOne)) == Alone(s.(at := Releasing(rest[1..], Clean)), held, ips, sources);
      PassesOver(env, s, rest[1..], held, ips, sources);
    }
  }

  lemma {:induction false} Finishes(env: Env, s: Session, held: multiset<Unit>, ips: set<string>, sources: set<string>)
    requires Reached(env, Alone(s.(at := Releasing([], Clean)), held, ips, sources))
    ensures Reached(env, Alone(Cleared(s, Resting), held, ips, sources))
  {
    hide Reached;
    var st := Alone(s.(at := Releasing([], Clean)), held, ips, sources);
    ReachedStep(env, st, Act(0, ReleaseDone));
    assert Apply(env, st, Act(0, ReleaseDone)) == Alone(Cleared(s, Resting), held, ips, sources);
  }

  /** After MAIL and RSET of a sender whose domain is changed by normalisation, its slots are still taken. */
  lemma {:induction false} MailAndResetLeak(env: Env, ip: string, from: string)
    requires Immediate(env) && env.limits.ip != [] && ip in env.ipKeys && Accepted(env, from) && KnownSender(env, from)
    requires SenderDomain(env, from) != SenderDomain(env, Cleaned(env, from).value)
    ensures
      var s := Mailing(env, ip, from);
      exists left, s' :: Reached(env, Alone(s', left, {ip}, {s.keys.source})) && Idle(s')
        && Slots(env.limits, ScopeUnits(env.limits, s.keys, Source)) <= left
  {
    TakesEverything(env, ip, from);
    var s, l := Mailing(env, ip, from), env.limits;
    var held := Taken(env, s.keys);
    var s' := Resetting(env, ip, from, []);
    StartsReleasing(env, ip, from, held, {ip}, {s.keys.source});
    if SenderDomain(env, from).None? {
      Finishes(env, s', held, {ip}, {s.keys.source});
      assert Idle(Cleared(s', Resting));
    } else {
      ReleasesOthers(env, ip, from);
      Finishes(env, s', Slots(l, ScopeUnits(l, s.keys, Source)), {ip}, {s.keys.source});
      assert Idle(Cleared(s', Resting));
    }
  }

  lemma {:induction false} ReleasesOthers(env: Env, ip: string, from: string)
    requires Accepted(env, from) && SenderDomain(env, from).Some?
    requires SenderDomain(env, from) != SenderDomain(env, Cleaned(env, from).value)
    requires
      var s, s' := Mailing(env, ip, from), Resetting(env, ip, from, GivenBack(env, ip, from));
      Reached(env, Alone(s', Taken(env, s.keys), {ip}, {s.keys.source}))
    ensures
      var s := Mailing(env, ip, from);
      var left := Slots(env.limits, ScopeUnits(env.limits, s.keys, Source));
      Reached(env, Alone(Resetting(env, ip, from, []), left, {ip}, {s.keys.source}))
  {
    hide Reached, Slots;
    var s, l, keys := Mailing(env, ip, from), env.limits, Keys(ip, SenderDomain(env, from).value);
    var q := ScopeUnits(l, s.keys, All) + ScopeUnits(l, s.keys, Ip);
    var rest, kept := ScopeUnits(l, keys, Source), Slots(l, ScopeUnits(l, s.keys, Source));
    assert GivenBack(env, ip, from) == q + rest;
    SlotsConcat(l, ScopeUnits(l, s.keys, All), ScopeUnits(l, s.keys, Ip));
    var s' := Resetting(env, ip, from, []);
    assert s'.(at := Releasing(q + rest, Clean)) == Resetting(env, ip, from, q + rest);
    assert keys.source != s.keys.source;
    ReleasesTaken(env, s', q, rest, kept, {ip}, {s.keys.source});
    PassesOver(env, s', rest, kept, {ip}, {s.keys.source});
  }

  // ---------------------------------------------------------------------------
  // Exactly when it works
  // ---------------------------------------------------------------------------

  /** No run panics, and whenever no session has anything under way all semaphores are empty. */
  ghost predicate Sound(env: Env) {
    forall st :: Reached(env, st) ==> !st.panicked && (AllIdle(st) ==> st.units == multiset{})
  }

  predicate AllIdle(st: State) { forall i :: 0 <= i < |st.sessions| ==> Idle(st.sessions[i]) }

  lemma {:induction false} SomethingTaken(l: Limits, keys: Keys, i: nat)
    requires i < |l.source| && Occupies(l, Unit(Source, "", i))
    ensures Slots(l, ScopeUnits(l, keys, Source)) != multiset{}
  {
    var us := ScopeUnits(l, keys, Source);
    assert us == us[..i] + [us[i]] + us[i + 1..];
    SlotsConcat(l, us[..i] + [us[i]], us[i + 1..]);
    SlotsConcat(l, us[..i], [us[i]]);
    SlotsOne(l, us[i]);
    assert us[i] in Slots(l, us);
  }

  lemma {:induction false} ProperIsSound(env: Env)
    requires Proper(env)
    ensures Sound(env)
  {
    hide Proper;
    forall st | Reached(env, st) ensures !st.panicked && (AllIdle(st) ==> st.units == multiset{}) {
      var events :| IsRun(env, events) && After(env, events) == st;
      NeverPanics(env, events);
      if AllIdle(st) { NothingLeaks(env, events); }
    }
  }

  /**
   With deferred reject the limits work exactly when there are IP limits or no source limiter can
   refuse: giving back what was taken before a refused source limiter goes through the IP limits
   even if there are none.
   */
  lemma {:induction false} SoundIffIpLimits(env: Env)
    requires env.deferred && InBounds(env)
    ensures Sound(env) <==> env.limits.ip != [] || SourceNeverFails(env.limits)
  {
    hide Sound;
    if env.limits.ip != [] || SourceNeverFails(env.limits) {
      ProperIsSound(env);
    } else {
      RefusedSourcePanics(env);
    }
  }

  /**
   Without deferred reject, and with a semaphore among the source limits, the limits work exactly
   when there are IP limits and normalisation leaves the domain of every sender alone.
   */
  lemma {:induction false} SoundIffKeysStable(env: Env)
    requires Immediate(env)
    ensures Sound(env) <==> KeysStable(env) && env.limits.ip != []
  {
    hide Sound;
    if env.limits.ip == [] {
      var i: nat :| i < |env.limits.source| && Occupies(env.limits, Unit(Source, "", i));
      assert env.limits.source[i] in env.limits.source;
      RefusedSourcePanics(env);
    } else if KeysStable(env) {
      ProperIsSound(env);
    } else {
      UnstableLeaks(env);
    }
  }

  // ---------------------------------------------------------------------------
  // A refused source limiter without IP limits
  // ---------------------------------------------------------------------------

  /** A client that sends RCPT first: the delivery is started for the null sender. */
  function NullSending(env: Env, ip: string): Session {
    StartDelivery(env, NewSession(ip), "", true, false)
  }

  lemma {:induction false} NullStartsTaking(env: Env, ip: string)
    requires ip in env.ipKeys
    ensures NullSending(env, ip).at == Taking(All, 0) && NullSending(env, ip).keys == Keys(ip, "")
    ensures Reached(env, Alone(NullSending(env, ip), multiset{} + Slots(env.limits, FirstUnits(All, "", 0)), {}, {}))
  {
    assert IsRun(env, []) && After(env, []) == INITIAL;
    assert Reached(env, INITIAL);
    hide Reached;
    ReachedStep(env, INITIAL, Connect(ip));
    assert Apply(env, INITIAL, Connect(ip)) == Alone(NewSession(ip), multiset{}, {}, {});
    ReachedStep(env, Alone(NewSession(ip), multiset{}, {}, {}), Act(0, Rcpt(true, true)));
    assert Apply(env, Alone(NewSession(ip), multiset{}, {}, {}), Act(0, Rcpt(true, true))) ==
      Alone(NullSending(env, ip), multiset{}, {}, {});
    assert multiset{} + Slots(env.limits, FirstUnits(All, "", 0)) == multiset{};
  }

  lemma {:induction false} RefusedSourcePanics(env: Env)
    requires InBounds(env) && env.limits.ip == [] && !SourceNeverFails(env.limits)
    ensures !Sound(env)
  {
    var ip :| ip in env.ipKeys;
    var kind :| kind in env.limits.source && !NoOp(kind);
    var j: nat :| j < |env.limits.source| && env.limits.source[j] == kind;
    hide Reached, Slots, ScopeUnits, FirstUnits, Occupies, NoOp;
    NullStartsTaking(env, ip);
    var s, l := NullSending(env, ip), env.limits;
    assert s.(at := Taking(All, 0)) == s;
    var all := Slots(l, ScopeUnits(l, s.keys, All));
    SlotScopes(l, s.keys, All, Source);
    TakesScope(env, s, All, multiset{}, {}, {});
    assert multiset{} + all == all;
    OpensBucket(env, s, Source, all, {}, {});
    TakesUpTo(env, s, Source, j, all, {}, {} + {""});
    var held := all + Slots(l, FirstUnits(Source, "", j));
    RefusalPanics(env, s, j, held, {}, {} + {""});
  }

  lemma {:induction false} RefusalPanics(
    env: Env, s: Session, j: nat, held: multiset<Unit>, ips: set<string>, sources: set<string>)
    requires env.limits.ip == [] && j < |env.limits.source| && !NoOp(env.limits.source[j])
    requires Reached(env, Alone(s.(at := Taking(Source, j)), held, ips, sources))
    ensures !Sound(env)
  {
    hide Reached;
    var st := Alone(s.(at := Taking(Source, j)), held, ips, sources);
    ReachedStep(env, st, Act(0, TakeFails));
    assert Apply(env, st, Act(0, TakeFails)).panicked;
  }

  lemma {:induction false} UnstableLeaks(env: Env)
    requires Immediate(env) && env.limits.ip != [] && !KeysStable(env)
    ensures !Sound(env)
  {
    var from :| Accepted(env, from) && KnownSender(env, from)
      && SenderDomain(env, from) != SenderDomain(env, Cleaned(env, from).value);
    var ip :| ip in env.ipKeys;
    var i: nat :| i < |env.limits.source| && Occupies(env.limits, Unit(Source, "", i));
    MailAndResetLeak(env, ip, from);
    var s := Mailing(env, ip, from);
    SomethingTaken(env.limits, s.keys, i);
    var left, s' :| Reached(env, Alone(s', left, {ip}, {s.keys.source})) && Idle(s')
      && Slots(env.limits, ScopeUnits(env.limits, s.keys, Source)) <= left;
    assert AllIdle(Alone(s', left, {ip}, {s.keys.source}));
  }
}
