/**
 What the limits are for: in no run are there more transactions open at once than a concurrency
 limit allows, in total, from one client address, or from one sender domain; and as long as there is
 room a session gets its slot.
 */
module SessionLimits {
  import opened Common
  import opened Sessions
  import opened SessionAccounting

  /** The session has an open transaction that a limiter of the scope counts under the key. */
  predicate CountsUnder(env: Env, s: Session, scope: Scope, key: string) {
    s.at.Resting? && s.delivery.Some? &&
    match scope
    case All => key == ""
    case Ip => key == s.ip
    case Source => SenderDomain(env, s.mailFrom) == Some(key)
  }

  function Open(env: Env, ss: seq<Session>, scope: Scope, key: string): nat {
    if ss == [] then 0
    else
      var n := |ss| - 1;
      Open(env, ss[..n], scope, key) + if CountsUnder(env, ss[n], scope, key) then 1 else 0
  }

  lemma {:induction false} SlotsOf(l: Limits, us: seq<Unit>, k: nat)
    requires k < |us| && Occupies(l, us[k])
    ensures us[k] in Slots(l, us)
    decreases |us|
  {
    if k > 0 { SlotsOf(l, us[1..], k - 1); }
  }

  lemma {:induction false} UnitAmongAll(l: Limits, keys: Keys, u: Unit)
    requires u.key == KeyIn(keys, u.scope) && u.index < |Kinds(l, u.scope)|
    ensures var k := |TakenBefore(l, keys, u.scope)| + u.index;
            k < |MsgUnits(l, keys)| && MsgUnits(l, keys)[k] == u
  {
    var all, ips := ScopeUnits(l, keys, All), ScopeUnits(l, keys, Ip);
    match u.scope
    case All => assert MsgUnits(l, keys)[u.index] == all[u.index];
    case Ip => assert MsgUnits(l, keys)[|all| + u.index] == ips[u.index];
    case Source => assert MsgUnits(l, keys)[|all| + |ips| + u.index] == ScopeUnits(l, keys, Source)[u.index];
  }

  /** An open transaction holds a slot of every semaphore that counts it. */
  lemma {:induction false} OpenHoldsSlot(env: Env, s: Session, u: Unit)
    requires CountsUnder(env, s, u.scope, u.key) && SenderDomain(env, s.mailFrom).Some? && Occupies(env.limits, u)
    ensures u in HeldSlots(env, s)
  {
    hide MsgUnits, Slots, TakenBefore, SenderDomain;
    var keys := Keys(s.ip, SenderDomain(env, s.mailFrom).value);
    UnitAmongAll(env.limits, keys, u);
    SlotsOf(env.limits, MsgUnits(env.limits, keys), |TakenBefore(env.limits, keys, u.scope)| + u.index);
  }

  lemma {:induction false} OpenAtMostTotal(env: Env, st: State, n: nat, u: Unit)
    requires n <= |st.sessions| && Occupies(env.limits, u)
    requires forall i :: 0 <= i < |st.sessions| ==> SessionOk(env, st, st.sessions[i])
    ensures Open(env, st.sessions[..n], u.scope, u.key) <= Total(env, st.sessions[..n])[u]
    decreases n
  {
    if n > 0 {
      hide HeldSlots, Occupies;
      OpenAtMostTotal(env, st, n - 1, u);
      assert st.sessions[..n][..n - 1] == st.sessions[..n - 1];
      var s := st.sessions[n - 1];
      assert SessionOk(env, st, s);
      if CountsUnder(env, s, u.scope, u.key) { OpenHoldsSlot(env, s, u); }
    }
  }

  /** The limit is kept in every state of every run. */
  lemma {:induction false} ConcurrencyIsLimited(env: Env, events: seq<Event>, scope: Scope, key: string, index: nat)
    requires Proper(env) && IsRun(env, events)
    requires index < |Kinds(env.limits, scope)| && Kinds(env.limits, scope)[index].Concurrency?
    requires Kinds(env.limits, scope)[index].max > 0
    ensures Open(env, After(env, events).sessions, scope, key) <= Kinds(env.limits, scope)[index].max
  {
    AccountingIsExact(env, events);
    var st, u := After(env, events), Unit(scope, key, index);
    OpenAtMostTotal(env, st, |st.sessions|, u);
    assert st.sessions[..|st.sessions|] == st.sessions;
  }

  /** The slots of a limiter that transactions hold or sessions are about to. */
  function InUse(env: Env, ss: seq<Session>, u: Unit): nat { Total(env, ss)[u] }

  /** A session that is up for a slot gets it exactly when not all are in use, and no other session notices. */
  lemma {:induction false} RoomMeansSlot(env: Env, events: seq<Event>, i: nat)
    requires Proper(env) && IsRun(env, events) && i < |After(env, events).sessions|
    requires
      var s := After(env, events).sessions[i];
      s.at.Taking? && s.at.i < |Kinds(env.limits, s.at.scope)| && Kinds(env.limits, s.at.scope)[s.at.i].Concurrency?
    ensures
      var st := After(env, events);
      var s := st.sessions[i];
      var max := Kinds(env.limits, s.at.scope)[s.at.i].max;
      var u := Unit(s.at.scope, KeyIn(s.keys, s.at.scope), s.at.i);
      Enabled(env, st, Act(i, TakeOk)) <==> max == 0 || InUse(env, st.sessions, u) < max
  {
    hide Total, SessionOk, WithinCapacity, Apply;
    AccountingIsExact(env, events);
  }
}
