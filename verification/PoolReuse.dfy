/**
 When the pool reuses a connection, when it keeps one and when it throws one away
 (internal/smtpconn/pool/pool.go:88-211), over all runs. `StateAt(.., k)` is the state before event `k`.
 */
module PoolReuse {
  import opened Common
  import opened Pool
  import opened PoolInvariant
  import opened PoolConservation

  lemma {:induction false} PrefixIsRun(cfg: Config, start: int, events: seq<Event>, k: nat)
    requires IsRun(cfg, start, events) && k <= |events|
    ensures IsRun(cfg, start, events[..k])
    decreases |events|
  {
    if k == |events| {
      assert events[..k] == events;
    } else {
      var front := events[..|events| - 1];
      PrefixIsRun(cfg, start, front, k);
      assert front[..k] == events[..k];
    }
  }

  ghost function StateAt(cfg: Config, start: int, events: seq<Event>, k: nat): State
    requires IsRun(cfg, start, events) && k <= |events|
  {
    PrefixIsRun(cfg, start, events, k);
    After(cfg, start, events[..k])
  }

  lemma {:induction false} StepAt(cfg: Config, start: int, events: seq<Event>, k: nat)
    requires IsRun(cfg, start, events) && k < |events|
    ensures Inv(StateAt(cfg, start, events, k)) && Enabled(cfg, StateAt(cfg, start, events, k), events[k])
    ensures StateAt(cfg, start, events, k + 1) == Apply(cfg, StateAt(cfg, start, events, k), events[k])
  {
    hide Inv, Apply, Enabled;
    PrefixIsRun(cfg, start, events, k);
    PrefixIsRun(cfg, start, events, k + 1);
    RunsKeepInv(cfg, start, events[..k]);
    assert events[..k + 1][..k] == events[..k] && events[..k + 1][k] == events[k];
  }

  /** The event is this thread's action. */
  predicate Does(events: seq<Event>, k: nat, t: nat, a: Action) { k < |events| && events[k] == Act(t, a) }

  /** Only this thread has moved on. */
  predicate OthersWait(st: State, st': State, t: nat) {
    |st'.threads| == |st.threads| && t < |st.threads| && forall u :: 0 <= u < |st.threads| && u != t ==>
      st'.threads[u] == st.threads[u]
  }

  predicate HasKey(st: State, key: string) { st.keys.Some? && key in st.keys.value }

  /** The bucket of the key. */
  function SlotOf(st: State, key: string): Slot
    requires HasKey(st, key)
  {
    st.keys.value[key]
  }

  /** The connections that wait in the bucket of the key. */
  function Waiting(st: State, key: string): seq<nat>
    requires HasKey(st, key)
  {
    if SlotOf(st, key).ch < |st.chans| then st.chans[SlotOf(st, key).ch].buf else []
  }

  lemma {:induction false} HasChan(st: State, key: string)
    requires Inv(st) && HasKey(st, key)
    ensures SlotOf(st, key).ch < |st.chans| && st.chans[SlotOf(st, key).ch].key == key
    ensures st.lock.None? ==> !st.chans[SlotOf(st, key).ch].closed
  {
    assert key in KeySet(st) && Bucket(st, key) == Some(SlotOf(st, key));
    if st.lock.None? {
      forall t: nat | t < |st.threads| ensures !st.threads[t].Emptying? { assert !Locked(st.threads[t]); }
      OpenWhileUnlocked(st, key);
    }
  }

  // ---------------------------------------------------------------------------
  // Get
  // ---------------------------------------------------------------------------

  /** A bucket that is young enough for `Get`. */
  predicate Young(cfg: Config, st: State, key: string)
    requires HasKey(st, key)
  {
    st.now - SlotOf(st, key).lastUse <= cfg.maxConnLifetime
  }

  /** What `cfg.New` gives goes to the caller. */
  predicate OnlyMade(st: State, st': State, made: Option<nat>) {
    && st'.chans == st.chans && st'.keys == st.keys
    && st'.place == (if made.Some? then st.place[made.value := WithCaller] else st.place)
    && (made.Some? ==> made.value !in st.place)
  }

  /**
   What `Get` decides under the lock. Without a bucket it makes a connection. A bucket that is at most
   the lifetime old is left alone and read from next. An older one is closed and removed, with the
   connections in it, and emptied next.
   */
  lemma {:induction false} GetDecides(
    cfg: Config, start: int, events: seq<Event>, k: nat, t: nat, key: string, made: Option<nat>)
    requires IsRun(cfg, start, events) && Does(events, k, t, Get(key, made))
    ensures
      var st, st' := StateAt(cfg, start, events, k), StateAt(cfg, start, events, k + 1);
      && OthersWait(st, st', t) && st'.lock == st.lock == None
      && (!HasKey(st, key) ==> OnlyMade(st, st', made) && st'.threads[t] == Idle)
      && (HasKey(st, key) && Young(cfg, st, key) ==>
            && st'.chans == st.chans && st'.keys == st.keys && st'.place == st.place
            && st'.threads[t] == Receiving(key, SlotOf(st, key).ch))
      && (HasKey(st, key) && !Young(cfg, st, key) ==>
            && var ch := SlotOf(st, key).ch;
            && ch < |st.chans| && st'.chans == st.chans[ch := st.chans[ch].(closed := true)] && st'.place == st.place
            && st'.keys == Some(st.keys.value - {key}) && st'.threads[t] == Draining(key, ch))
  {
    StepAt(cfg, start, events, k);
    var st := StateAt(cfg, start, events, k);
    if HasKey(st, key) { HasChan(st, key); }
  }

  /**
   While it reads a bucket, `Get` takes the first connection: one that is usable and was itself last used at
   most the lifetime ago goes to the caller and ends the call, another one is closed. It makes a connection
   only when the bucket is empty.
   */
  lemma {:induction false} ReceivingTakesFirst(cfg: Config, start: int, events: seq<Event>, k: nat, t: nat)
    requires IsRun(cfg, start, events) && k < |events| && events[k].Act? && events[k].t == t
    requires var st := StateAt(cfg, start, events, k); t < |st.threads| && st.threads[t].Receiving?
    ensures
      var st, st' := StateAt(cfg, start, events, k), StateAt(cfg, start, events, k + 1);
      var ch, a := st.threads[t].ch, events[k].action;
      && ch < |st.chans| && OthersWait(st, st', t) && st'.keys == st.keys
      && (st.chans[ch].buf != [] ==>
            && a.GetReceives?
            && var c, good := st.chans[ch].buf[0], a.usable && st.now - a.lastUse <= cfg.maxConnLifetime;
            && st'.chans == st.chans[ch := st.chans[ch].(buf := st.chans[ch].buf[1..])]
            && st'.place == st.place[c := if good then WithCaller else Closed]
            && st'.threads[t] == (if good then Idle else st.threads[t]))
      && (st.chans[ch].buf == [] ==> a.GetGivesUp? && OnlyMade(st, st', a.made) && st'.threads[t] == Idle)
  {
    StepAt(cfg, start, events, k);
    var st := StateAt(cfg, start, events, k);
    assert ThreadOk(st, st.threads[t]);
  }

  /** While it empties a bucket, `Get` closes the first connection, and at the end it makes a new one. */
  lemma {:induction false} DrainingHandsNoneOut(cfg: Config, start: int, events: seq<Event>, k: nat, t: nat)
    requires IsRun(cfg, start, events) && k < |events| && events[k].Act? && events[k].t == t
    requires var st := StateAt(cfg, start, events, k); t < |st.threads| && st.threads[t].Draining?
    ensures
      var st, st' := StateAt(cfg, start, events, k), StateAt(cfg, start, events, k + 1);
      var ch, a := st.threads[t].ch, events[k].action;
      && ch < |st.chans| && OthersWait(st, st', t) && st'.keys == st.keys
      && (st.chans[ch].buf != [] ==>
            && a.DrainOne? && st'.chans == st.chans[ch := st.chans[ch].(buf := st.chans[ch].buf[1..])]
            && st'.place == st.place[st.chans[ch].buf[0] := Closed] && st'.threads[t] == st.threads[t])
      && (st.chans[ch].buf == [] ==> a.DrainEnds? && OnlyMade(st, st', a.made) && st'.threads[t] == Idle)
  {
    StepAt(cfg, start, events, k);
    var st := StateAt(cfg, start, events, k);
    assert ThreadOk(st, st.threads[t]);
  }

  lemma {:induction false} OneMore(cfg: Config, start: int, events: seq<Event>, e: Event)
    requires IsRun(cfg, start, events) && Enabled(cfg, After(cfg, start, events), e)
    ensures IsRun(cfg, start, events + [e])
    ensures After(cfg, start, events + [e]) == Apply(cfg, After(cfg, start, events), e)
  {
    hide Apply, Enabled;
    NeverPanics(cfg, start, events);
    assert (events + [e])[..|events|] == events;
  }

  /**
   A connection that waits in a bucket which is at most the lifetime old is reused: after any run an idle
   thread can call `Get`, receive, and has the first connection of the bucket.
   */
  lemma {:induction false} YoungIsReused(
    cfg: Config, start: int, events: seq<Event>, t: nat, key: string, lastUse: int)
    requires IsRun(cfg, start, events)
    requires var st := After(cfg, start, events);
             && t < |st.threads| && st.threads[t].Idle? && st.lock.None?
             && HasKey(st, key) && Young(cfg, st, key) && Waiting(st, key) != []
             && lastUse >= st.now - cfg.maxConnLifetime
    ensures
      var st := After(cfg, start, events);
      var got := events + [Act(t, Get(key, None))] + [Act(t, GetReceives(true, lastUse))];
      && IsRun(cfg, start, got)
      && var st' := After(cfg, start, got);
      && var c := Waiting(st, key)[0];
      && c in st.place && st.place[c].InChannel? && st'.place == st.place[c := WithCaller]
      && HasKey(st', key) && SlotOf(st', key) == SlotOf(st, key) && Waiting(st', key) == Waiting(st, key)[1..]
      && st'.threads == st.threads
  {
    var st := After(cfg, start, events);
    RunsKeepInv(cfg, start, events);
    HasChan(st, key);
    var ch := SlotOf(st, key).ch;
    assert Held(st, ch) && st.chans[ch].buf[0] in st.chans[ch].buf;
    OneMore(cfg, start, events, Act(t, Get(key, None)));
    var mid := events + [Act(t, Get(key, None))];
    hide IsRun;
    assert After(cfg, start, mid) == Go(st, t, Receiving(key, ch));
    OneMore(cfg, start, mid, Act(t, GetReceives(true, lastUse)));
    assert st.threads[t := Receiving(key, ch)][t := Idle] == st.threads;
  }

  /** The thread has not reached the end of its drain loop. */
  predicate StillDrains(events: seq<Event>, i: nat, j: nat, t: nat) {
    forall k :: i <= k < j && k < |events| && events[k].Act? && events[k].t == t ==> !events[k].action.DrainEnds?
  }

  /**
   A bucket that is older is thrown away: until the call of `Get` that found it has emptied it, the call does
   nothing else, whatever others do, and the channel stays closed and out of the map.
   */
  lemma {:induction false} OldIsThrownAway(
    cfg: Config, start: int, events: seq<Event>, i: nat, j: nat, t: nat, key: string, made: Option<nat>)
    requires IsRun(cfg, start, events) && Does(events, i, t, Get(key, made)) && i < j <= |events|
    requires var st := StateAt(cfg, start, events, i); HasKey(st, key) && !Young(cfg, st, key)
    requires StillDrains(events, i, j, t)
    ensures
      var ch, st' := SlotOf(StateAt(cfg, start, events, i), key).ch, StateAt(cfg, start, events, j);
      && t < |st'.threads| && st'.threads[t] == Draining(key, ch)
      && ch < |st'.chans| && st'.chans[ch].closed
      && forall k :: HasKey(st', k) ==> SlotOf(st', k).ch != ch
    decreases j
  {
    hide Inv, Young, IsRun, StateAt, ApplyAction, ActionEnabled;
    var ch := SlotOf(StateAt(cfg, start, events, i), key).ch;
    if j == i + 1 {
      GetDecides(cfg, start, events, i, t, key, made);
    } else {
      OldIsThrownAway(cfg, start, events, i, j - 1, t, key, made);
      StepAt(cfg, start, events, j - 1);
      DrainingStays(cfg, StateAt(cfg, start, events, j - 1), events[j - 1], t);
    }
    StateIsOk(cfg, start, events, j);
    DrainingIsOut(StateAt(cfg, start, events, j), t);
  }

  lemma {:induction false} StateIsOk(cfg: Config, start: int, events: seq<Event>, k: nat)
    requires IsRun(cfg, start, events) && k <= |events|
    ensures Inv(StateAt(cfg, start, events, k))
  {
    PrefixIsRun(cfg, start, events, k);
    RunsKeepInv(cfg, start, events[..k]);
  }

  lemma {:induction false} DrainingStays(cfg: Config, st: State, e: Event, t: nat)
    requires Enabled(cfg, st, e) && t < |st.threads| && st.threads[t].Draining?
    requires e.Act? && e.t == t ==> !e.action.DrainEnds?
    ensures var st' := Apply(cfg, st, e); t < |st'.threads| && st'.threads[t] == st.threads[t]
  {
    hide ApplyAction;
    if e.Act? {
      OthersStay(cfg, st, e.t, e.action);
      if e.t == t { DrainsOn(cfg, st, t); }
    }
  }

  lemma {:induction false} DrainsOn(cfg: Config, st: State, t: nat)
    requires t < |st.threads| && ActionEnabled(st, st.threads[t], DrainOne)
    ensures ApplyAction(cfg, st, t, DrainOne).threads == st.threads
  {
    hide GetStep, ReturnStep, SweepStep, InsertStep;
  }

  /** An action of one thread does not move another. */
  lemma {:induction false} OthersStay(cfg: Config, st: State, t: nat, a: Action)
    requires t < |st.threads| && ActionEnabled(st, st.threads[t], a)
    ensures OthersWait(st, ApplyAction(cfg, st, t, a), t)
  {
    hide GetStep, ReturnStep, SweepStep, InsertStep;
    match a
    case Get(key, made) => GetAlone(cfg, st, t, key, made);
    case Return(key, conn) => ReturnAlone(cfg, st, t, key, conn);
    case SweepKey(key) => SweepAlone(cfg, st, t, key);
    case Insert => InsertAlone(cfg, st, t, st.threads[t].key, st.threads[t].conn);
    case _ =>
  }

  lemma {:induction false} GetAlone(cfg: Config, st: State, t: nat, key: string, made: Option<nat>)
    requires t < |st.threads|
    ensures OthersWait(st, GetStep(cfg, st, t, key, made), t)
  {}

  lemma {:induction false} ReturnAlone(cfg: Config, st: State, t: nat, key: string, conn: nat)
    requires t < |st.threads|
    ensures OthersWait(st, ReturnStep(cfg, st, t, key, conn), t)
  {}

  lemma {:induction false} SweepAlone(cfg: Config, st: State, t: nat, key: string)
    requires t < |st.threads| && st.threads[t].Sweeping?
    ensures OthersWait(st, SweepStep(cfg, st, t, key), t)
  {}

  lemma {:induction false} InsertAlone(cfg: Config, st: State, t: nat, key: string, conn: nat)
    requires t < |st.threads|
    ensures OthersWait(st, InsertStep(cfg, st, t, key, conn), t)
  {}

  /** The call that threw a bucket away hands out no connection that there was, only one it makes at the end. */
  lemma {:induction false} OldNeverHandedOut(
    cfg: Config, start: int, events: seq<Event>, i: nat, j: nat, t: nat, key: string, made: Option<nat>, c: nat)
    requires IsRun(cfg, start, events) && Does(events, i, t, Get(key, made)) && i < j < |events|
    requires var st := StateAt(cfg, start, events, i); HasKey(st, key) && !Young(cfg, st, key)
    requires StillDrains(events, i, j, t) && events[j].Act? && events[j].t == t
    requires c in StateAt(cfg, start, events, j).place
    ensures var st, st' := StateAt(cfg, start, events, j), StateAt(cfg, start, events, j + 1);
            c in st'.place && (st'.place[c] == st.place[c] || st'.place[c] == Closed)
  {
    hide IsRun, StateAt, Young;
    OldIsThrownAway(cfg, start, events, i, j, t, key, made);
    DrainingHandsNoneOut(cfg, start, events, j, t);
  }

  lemma {:induction false} DrainingIsOut(st: State, t: nat)
    requires Inv(st) && t < |st.threads| && st.threads[t].Draining?
    ensures var ch := st.threads[t].ch;
            && ch < |st.chans| && st.chans[ch].closed && forall k :: HasKey(st, k) ==> SlotOf(st, k).ch != ch
  {
    var ch := st.threads[t].ch;
    assert ThreadOk(st, st.threads[t]);
    forall k | HasKey(st, k) ensures SlotOf(st, k).ch != ch {
      HasChan(st, k);
      assert Bucket(st, k) == Some(SlotOf(st, k));
    }
  }

  // ---------------------------------------------------------------------------
  // Return
  // ---------------------------------------------------------------------------

  /**
   What `Return` decides under the lock: a closed pool drops the connection; otherwise buckets are swept first
   exactly if the key is new and the number of keys is the configured one.
   */
  lemma {:induction false} ReturnDecides(
    cfg: Config, start: int, events: seq<Event>, k: nat, t: nat, key: string, conn: nat)
    requires IsRun(cfg, start, events) && Does(events, k, t, Return(key, conn))
    ensures
      var st, st' := StateAt(cfg, start, events, k), StateAt(cfg, start, events, k + 1);
      && OthersWait(st, st', t) && st'.chans == st.chans && st'.keys == st.keys
      && st'.returnedUnder == st.returnedUnder[conn := key]
      && (st.keys.None? ==>
            st'.place == st.place[conn := Dropped] && st'.threads[t] == Idle && st'.lock.None?)
      && (st.keys.Some? ==> st'.place == st.place[conn := InReturn] && st'.lock == Some(t))
      && (st.keys.Some? && (HasKey(st, key) || |st.keys.value| != cfg.maxKeys) ==>
            st'.threads[t] == Inserting(key, conn))
      && (st.keys.Some? && !HasKey(st, key) && |st.keys.value| == cfg.maxKeys ==>
            st'.threads[t] == Sweeping(ReturnJob(key, conn), st.keys.value.Keys))
  {
    StepAt(cfg, start, events, k);
  }

  /**
   The end of `Return`: a key without a bucket gets one, used now; a bucket that is there keeps its time of
   use. The connection becomes the last one of the bucket exactly if there is room, and is closed if not.
   */
  lemma {:induction false} KeptIffRoom(cfg: Config, start: int, events: seq<Event>, k: nat, t: nat)
    requires IsRun(cfg, start, events) && Does(events, k, t, Insert)
    ensures
      var st, st' := StateAt(cfg, start, events, k), StateAt(cfg, start, events, k + 1);
      && OthersWait(st, st', t) && st.threads[t].Inserting? && st'.threads[t] == Idle && st'.lock.None?
      && var key, conn := st.threads[t].key, st.threads[t].conn;
      && var before := if HasKey(st, key) then Waiting(st, key) else [];
      && HasKey(st', key)
      && (HasKey(st, key) ==> st'.keys == st.keys && |st'.chans| == |st.chans|)
      && (!HasKey(st, key) ==>
            && st.keys.Some? && |st'.chans| == |st.chans| + 1
            && st'.keys == Some(st.keys.value[key := Slot(|st.chans|, st.now)]))
      && (if |before| < cfg.maxConnsPerKey then
            Waiting(st', key) == before + [conn] && st'.place == st.place[conn := InChannel(SlotOf(st', key).ch)]
          else
            Waiting(st', key) == before && st'.place == st.place[conn := Closed])
      && forall ch :: 0 <= ch < |st.chans| && (HasKey(st, key) ==> ch != SlotOf(st, key).ch) ==>
           st'.chans[ch] == st.chans[ch]
  {
    StepAt(cfg, start, events, k);
    var st := StateAt(cfg, start, events, k);
    InsertIs(cfg, st, t);
  }

  lemma {:induction false} InsertOpen(st: State, t: nat)
    requires Inv(st) && t < |st.threads| && st.threads[t].Inserting? && HasKey(st, st.threads[t].key)
    ensures var ch := SlotOf(st, st.threads[t].key).ch; ch < |st.chans| && !st.chans[ch].closed
  {
    assert ThreadOk(st, st.threads[t]) && st.lock == Some(t);
    forall u: nat | u < |st.threads| ensures !st.threads[u].Emptying? { assert Locked(st.threads[u]) ==> u == t; }
    assert Bucket(st, st.threads[t].key).Some?;
    OpenWhileUnlocked(st, st.threads[t].key);
  }

  lemma {:induction false} InsertIs(cfg: Config, st: State, t: nat)
    requires Inv(st) && t < |st.threads| && st.threads[t].Inserting?
    ensures st.keys.Some?
    ensures
      var key, conn := st.threads[t].key, st.threads[t].conn;
      var st1 := if HasKey(st, key) then st else WithBucket(st, key);
      && HasKey(st1, key)
      && var ch := SlotOf(st1, key).ch;
      && ch < |st1.chans| && st1.place == st.place
      && ApplyAction(cfg, st, t, Insert) ==
           if |st1.chans[ch].buf| < cfg.maxConnsPerKey then
             Go(st1, t, Idle).(
               lock := None, chans := st1.chans[ch := st1.chans[ch].(buf := st1.chans[ch].buf + [conn])],
               place := st.place[conn := InChannel(ch)])
           else Go(st1, t, Idle).(lock := None, place := st.place[conn := Closed])
  {
    assert ThreadOk(st, st.threads[t]);
    if HasKey(st, st.threads[t].key) { InsertOpen(st, t); }
  }

  // ---------------------------------------------------------------------------
  // CleanUp, Close and the sweep of Return
  // ---------------------------------------------------------------------------

  /** The thread sweeps for the job: it looks at the keys in `todo` next, `busy` is being emptied. */
  predicate Sweeps(th: Thread, job: Job) { (th.Sweeping? || th.Emptying?) && th.job == job }

  function Busy(th: Thread): set<string> { if th.Emptying? then {th.key} else {} }

  /** The bucket was old enough at the time for the job to remove it. */
  predicate Old(cfg: Config, job: Job, slot: Slot, now: int) {
    job.CloseJob? || slot.lastUse + cfg.staleKeyLifetime <= now
  }

  /** The bucket is left as it was. */
  predicate Left(st0: State, st: State, key: string) {
    HasKey(st0, key) && HasKey(st, key) && SlotOf(st, key) == SlotOf(st0, key)
  }

  /** How far a sweep that started in `st0` has come. */
  ghost predicate Swept(cfg: Config, st0: State, st: State, th: Thread, job: Job) {
    && Sweeps(th, job) && st0.now <= st.now
    && (forall key :: HasKey(st, key) ==> Left(st0, st, key))
    && (forall key :: key in th.todo ==> HasKey(st, key))
    && (forall key :: key in Busy(th) ==>
          HasKey(st0, key) && Old(cfg, job, SlotOf(st0, key), st.now) && (job.ReturnJob? ==> !HasKey(st, key)))
    && (forall key :: HasKey(st, key) && key !in th.todo && key !in Busy(th) ==>
          !Old(cfg, job, SlotOf(st0, key), st0.now))
    && (forall key :: HasKey(st0, key) && !HasKey(st, key) ==> Old(cfg, job, SlotOf(st0, key), st.now))
  }

  /** The thread has not reached the end of its sweep. */
  predicate StillSweeps(events: seq<Event>, i: nat, j: nat, t: nat) {
    forall k :: i < k < j && k < |events| && events[k].Act? && events[k].t == t ==> !events[k].action.SweepEnds?
  }

  lemma {:induction false} OthersKeepKeys(cfg: Config, st: State, e: Event, t: nat)
    requires Inv(st) && Enabled(cfg, st, e) && t < |st.threads| && Locked(st.threads[t])
    requires e.Act? ==> e.t != t
    ensures var st' := Apply(cfg, st, e);
            && st'.keys == st.keys && t < |st'.threads| && st'.threads[t] == st.threads[t] && st.now <= st'.now
  {
    if e.Act? {
      assert st.lock == Some(t) && !Locked(st.threads[e.t]);
      hide Inv;
    }
  }

  lemma {:induction false} SweepEmpties(cfg: Config, st: State, t: nat, key: string)
    requires Inv(st) && t < |st.threads| && st.threads[t].Sweeping? && key in st.threads[t].todo
    ensures
      var st', th := ApplyAction(cfg, st, t, SweepKey(key)), st.threads[t];
      && HasKey(st, key) && st'.now == st.now && st'.place == st.place && t < |st'.threads|
      && var ch := SlotOf(st, key).ch;
      && ch < |st.chans|
      && (Old(cfg, th.job, SlotOf(st, key), st.now) ==>
            && st'.threads[t] == Emptying(th.job, th.todo - {key}, key, ch)
            && st'.chans == st.chans[ch := st.chans[ch].(closed := true)]
            && st'.keys == (if th.job.ReturnJob? then Some(st.keys.value - {key}) else st.keys))
      && (!Old(cfg, th.job, SlotOf(st, key), st.now) ==>
            st'.threads[t] == Sweeping(th.job, th.todo - {key}) && st'.chans == st.chans && st'.keys == st.keys)
  {
    assert ThreadOk(st, st.threads[t]) && st.lock == Some(t);
    assert key in KeySet(st) && Bucket(st, key) == Some(SlotOf(st, key));
    HasChan(st, key);
    SweptOpen(st, t, key);
  }

  lemma {:induction false} SweptOpen(st: State, t: nat, key: string)
    requires Inv(st) && t < |st.threads| && st.threads[t].Sweeping? && HasKey(st, key)
    ensures SlotOf(st, key).ch < |st.chans| && !st.chans[SlotOf(st, key).ch].closed
  {
    assert st.lock == Some(t);
    forall u: nat | u < |st.threads| ensures !st.threads[u].Emptying? { assert Locked(st.threads[u]) ==> u == t; }
    assert Bucket(st, key).Some?;
    OpenWhileUnlocked(st, key);
  }

  lemma {:induction false} SweptOne(cfg: Config, st0: State, st: State, t: nat, key: string, job: Job)
    requires Inv(st) && t < |st.threads| && ActionEnabled(st, st.threads[t], SweepKey(key))
    requires Swept(cfg, st0, st, st.threads[t], job)
    ensures var st' := ApplyAction(cfg, st, t, SweepKey(key));
            t < |st'.threads| && Swept(cfg, st0, st', st'.threads[t], job)
  {
    hide ApplyAction, Inv, HasKey, SlotOf;
    SweepLooks(cfg, st, t, key);
  }

  /** What looking at one key does to the map. */
  lemma {:induction false} SweepLooks(cfg: Config, st: State, t: nat, key: string)
    requires Inv(st) && t < |st.threads| && st.threads[t].Sweeping? && key in st.threads[t].todo
    ensures
      var st', th := ApplyAction(cfg, st, t, SweepKey(key)), st.threads[t];
      && HasKey(st, key) && st'.now == st.now && t < |st'.threads|
      && var due := Old(cfg, th.job, SlotOf(st, key), st.now);
      && st'.threads[t] == (if due then Emptying(th.job, th.todo - {key}, key, SlotOf(st, key).ch)
                            else Sweeping(th.job, th.todo - {key}))
      && (forall k :: HasKey(st', k) <==> HasKey(st, k) && !(k == key && due && th.job.ReturnJob?))
      && (forall k :: HasKey(st', k) ==> SlotOf(st', k) == SlotOf(st, k))
  {
    hide ApplyAction, Inv;
    SweepEmpties(cfg, st, t, key);
  }

  lemma {:induction false} BusyEnds(cfg: Config, st: State, t: nat)
    requires Inv(st) && t < |st.threads| && ActionEnabled(st, st.threads[t], EmptyEnds)
    ensures
      var st', th := ApplyAction(cfg, st, t, EmptyEnds), st.threads[t];
      && st'.now == st.now && t < |st'.threads| && st'.threads[t] == Sweeping(th.job, th.todo) && th.key !in th.todo
      && (forall key :: HasKey(st', key) <==> HasKey(st, key) && (key == th.key ==> th.job.ReturnJob?))
      && (forall key :: HasKey(st', key) ==> SlotOf(st', key) == SlotOf(st, key))
  {
    assert ThreadOk(st, st.threads[t]);
  }

  lemma {:induction false} SweptBusy(cfg: Config, st0: State, st: State, t: nat, job: Job)
    requires Inv(st) && t < |st.threads| && ActionEnabled(st, st.threads[t], EmptyEnds)
    requires Swept(cfg, st0, st, st.threads[t], job)
    ensures var st' := ApplyAction(cfg, st, t, EmptyEnds);
            t < |st'.threads| && Swept(cfg, st0, st', st'.threads[t], job)
  {
    hide Inv, ApplyAction, HasKey, SlotOf, Old;
    BusyEnds(cfg, st, t);
    var st', key := ApplyAction(cfg, st, t, EmptyEnds), st.threads[t].key;
    assert key in Busy(st.threads[t]);
  }

  lemma {:induction false} SweptBySelf(cfg: Config, st0: State, st: State, t: nat, a: Action, job: Job)
    requires Inv(st) && t < |st.threads| && ActionEnabled(st, st.threads[t], a) && !a.SweepEnds?
    requires Swept(cfg, st0, st, st.threads[t], job)
    ensures var st' := ApplyAction(cfg, st, t, a);
            t < |st'.threads| && Swept(cfg, st0, st', st'.threads[t], job)
  {
    hide Inv, GetStep, ReturnStep, SweepStep, InsertStep;
    match a
    case SweepKey(key) => SweptOne(cfg, st0, st, t, key, job);
    case EmptyEnds => SweptBusy(cfg, st0, st, t, job);
    case EmptyOne =>
  }

  /** A sweep has removed only old buckets, and of those it has looked at all the old ones. */
  lemma {:induction false} SweepSoFar(
    cfg: Config, start: int, events: seq<Event>, i: nat, j: nat, t: nat, job: Job)
    requires IsRun(cfg, start, events) && i < j <= |events| && events[i].Act? && events[i].t == t
    requires var st, st' := StateAt(cfg, start, events, i), StateAt(cfg, start, events, i + 1);
             t < |st.threads| && st.threads[t].Idle? && t < |st'.threads| && Sweeps(st'.threads[t], job)
    requires StillSweeps(events, i, j, t)
    ensures var st, st' := StateAt(cfg, start, events, i), StateAt(cfg, start, events, j);
            t < |st'.threads| && Swept(cfg, st, st', st'.threads[t], job)
    decreases j
  {
    hide Inv, IsRun, StateAt, Swept, ApplyAction, ActionEnabled;
    var st := StateAt(cfg, start, events, i);
    if j == i + 1 {
      StepAt(cfg, start, events, i);
      SweepStarts(cfg, st, t, events[i].action, job);
    } else {
      SweepSoFar(cfg, start, events, i, j - 1, t, job);
      StepAt(cfg, start, events, j - 1);
      SweptStep(cfg, st, StateAt(cfg, start, events, j - 1), events[j - 1], t, job);
    }
  }

  lemma {:induction false} SweptStep(cfg: Config, st0: State, st: State, e: Event, t: nat, job: Job)
    requires Inv(st) && Enabled(cfg, st, e) && t < |st.threads| && Swept(cfg, st0, st, st.threads[t], job)
    requires e.Act? && e.t == t ==> !e.action.SweepEnds?
    ensures var st' := Apply(cfg, st, e); t < |st'.threads| && Swept(cfg, st0, st', st'.threads[t], job)
  {
    hide Inv, ApplyAction, ActionEnabled;
    if e.Act? && e.t == t {
      SweptBySelf(cfg, st0, st, t, e.action, job);
    } else {
      OthersKeepKeys(cfg, st, e, t);
      SweptByOther(cfg, st0, st, Apply(cfg, st, e), t, job);
    }
  }

  lemma {:induction false} SweepStarts(cfg: Config, st: State, t: nat, a: Action, job: Job)
    requires t < |st.threads| && st.threads[t].Idle? && ActionEnabled(st, st.threads[t], a)
    requires var st' := ApplyAction(cfg, st, t, a); t < |st'.threads| && Sweeps(st'.threads[t], job)
    ensures var st' := ApplyAction(cfg, st, t, a); Swept(cfg, st, st', st'.threads[t], job)
  {
    hide Swept, InsertStep, SweepStep, GetStep;
    if a.Get? { GetDoesNotSweep(cfg, st, t, a.key, a.made); }
    var st' := ApplyAction(cfg, st, t, a);
    assert st'.keys == st.keys && st'.now == st.now && st'.threads[t] == Sweeping(job, KeySet(st));
    SweepBegins(cfg, st, st', t, job);
  }

  lemma {:induction false} GetDoesNotSweep(cfg: Config, st: State, t: nat, key: string, made: Option<nat>)
    requires t < |st.threads| && st.threads[t].Idle?
    ensures var st' := GetStep(cfg, st, t, key, made);
            t < |st'.threads| && !st'.threads[t].Sweeping? && !st'.threads[t].Emptying?
  {}

  lemma {:induction false} SweepBegins(cfg: Config, st: State, st': State, t: nat, job: Job)
    requires st'.keys == st.keys && st'.now == st.now
    requires t < |st'.threads| && st'.threads[t] == Sweeping(job, KeySet(st))
    ensures Swept(cfg, st, st', st'.threads[t], job)
  {}

  lemma {:induction false} SweptByOther(cfg: Config, st0: State, st: State, st': State, t: nat, job: Job)
    requires t < |st.threads| && Swept(cfg, st0, st, st.threads[t], job)
    requires st'.keys == st.keys && t < |st'.threads| && st'.threads[t] == st.threads[t] && st.now <= st'.now
    ensures Swept(cfg, st0, st', st'.threads[t], job)
  {}

  /**
   Whoever sweeps, and whatever other threads do meanwhile: when the sweep is over, a bucket that was old at
   its start is gone, one that is not even old at its end is as it was, and there is no other bucket. The
   sweep of `Close` leaves none.
   */
  lemma {:induction false} SweepRemovesOld(
    cfg: Config, start: int, events: seq<Event>, i: nat, j: nat, t: nat, job: Job, key: string)
    requires IsRun(cfg, start, events) && i < j && Does(events, j, t, SweepEnds)
    requires events[i].Act? && events[i].t == t && StillSweeps(events, i, j, t)
    requires var st, st' := StateAt(cfg, start, events, i), StateAt(cfg, start, events, i + 1);
             t < |st.threads| && st.threads[t].Idle? && t < |st'.threads| && Sweeps(st'.threads[t], job)
    ensures
      var st, st' := StateAt(cfg, start, events, i), StateAt(cfg, start, events, j + 1);
      && (HasKey(st', key) ==> Left(st, st', key))
      && (HasKey(st, key) && Old(cfg, job, SlotOf(st, key), st.now) ==> !HasKey(st', key))
      && (HasKey(st, key) && !Old(cfg, job, SlotOf(st, key), st'.now) ==> HasKey(st', key))
      && (job.CloseJob? ==> st'.keys.None?)
      && t < |st'.threads|
      && st'.threads[t] == if job.ReturnJob? then Inserting(job.key, job.conn) else Idle
  {
    hide Inv, IsRun, StateAt, ApplyAction, Old, Swept;
    SweepSoFar(cfg, start, events, i, j, t, job);
    StepAt(cfg, start, events, j);
    var mid := StateAt(cfg, start, events, j);
    SweepIsOver(cfg, mid, t);
    SweptAll(cfg, StateAt(cfg, start, events, i), mid, StateAt(cfg, start, events, j + 1), mid.threads[t], job, key);
  }

  lemma {:induction false} SweptAll(
    cfg: Config, st0: State, st: State, st': State, th: Thread, job: Job, key: string)
    requires Swept(cfg, st0, st, th, job) && th.Sweeping? && th.todo == {} && st'.now == st.now
    requires st'.keys == if th.job.CloseJob? then None else st.keys
    ensures th.job == job
    ensures HasKey(st', key) ==> Left(st0, st', key)
    ensures HasKey(st0, key) && Old(cfg, job, SlotOf(st0, key), st0.now) ==> !HasKey(st', key)
    ensures HasKey(st0, key) && !Old(cfg, job, SlotOf(st0, key), st'.now) ==> HasKey(st', key)
  {
    assert HasKey(st, key) ==> Left(st0, st, key);
    assert HasKey(st', key) ==> HasKey(st, key) && SlotOf(st', key) == SlotOf(st, key);
  }

  lemma {:induction false} SweepIsOver(cfg: Config, st: State, t: nat)
    requires t < |st.threads| && ActionEnabled(st, st.threads[t], SweepEnds)
    ensures
      var st', job := ApplyAction(cfg, st, t, SweepEnds), st.threads[t].job;
      && st'.now == st.now && st'.keys == (if job.CloseJob? then None else st.keys) && t < |st'.threads|
      && st'.threads[t] == if job.ReturnJob? then Inserting(job.key, job.conn) else Idle
  {
    hide GetStep, ReturnStep, SweepStep, InsertStep;
  }

  /** `CleanUp` and `Close` look at all keys. */
  lemma {:induction false} SweepLooksAtAll(cfg: Config, start: int, events: seq<Event>, k: nat, t: nat)
    requires IsRun(cfg, start, events) && (Does(events, k, t, CleanUp) || Does(events, k, t, Close))
    ensures
      var st, st' := StateAt(cfg, start, events, k), StateAt(cfg, start, events, k + 1);
      && OthersWait(st, st', t) && st'.lock == Some(t)
      && st'.chans == st.chans && st'.keys == st.keys && st'.place == st.place
      && st'.threads[t] == Sweeping(if events[k].action.Close? then CloseJob else CleanUpJob,
                                    if st.keys.Some? then st.keys.value.Keys else {})
  {
    StepAt(cfg, start, events, k);
  }

  /** Emptying a bucket in a sweep closes the first connection in it, and ends when there is none. */
  lemma {:induction false} EmptyingClosesAll(cfg: Config, start: int, events: seq<Event>, k: nat, t: nat)
    requires IsRun(cfg, start, events) && k < |events| && events[k].Act? && events[k].t == t
    requires var st := StateAt(cfg, start, events, k); t < |st.threads| && st.threads[t].Emptying?
    ensures
      var st, st' := StateAt(cfg, start, events, k), StateAt(cfg, start, events, k + 1);
      var th, a := st.threads[t], events[k].action;
      && th.ch < |st.chans| && OthersWait(st, st', t)
      && (st.chans[th.ch].buf != [] ==>
            && a.EmptyOne? && st'.chans == st.chans[th.ch := st.chans[th.ch].(buf := st.chans[th.ch].buf[1..])]
            && st'.place == st.place[st.chans[th.ch].buf[0] := Closed] && st'.threads[t] == th && st'.keys == st.keys)
      && (st.chans[th.ch].buf == [] ==>
            && a.EmptyEnds? && st'.chans == st.chans && st'.place == st.place
            && st'.keys == (if th.job.ReturnJob? || st.keys.None? then st.keys else Some(st.keys.value - {th.key}))
            && st'.threads[t] == Sweeping(th.job, th.todo))
  {
    StepAt(cfg, start, events, k);
    var st := StateAt(cfg, start, events, k);
    assert ThreadOk(st, st.threads[t]);
  }

  // ---------------------------------------------------------------------------
  // The age of a bucket
  // ---------------------------------------------------------------------------

  /** Buckets are as they were, or gone, or made just now with a new channel. */
  ghost predicate AgesKept(st: State, st': State) {
    && |st.chans| <= |st'.chans|
    && forall key :: HasKey(st', key) ==> Left(st, st', key) || SlotOf(st', key) == Slot(|st.chans|, st.now)
  }

  lemma {:induction false} StepKeepsAges(cfg: Config, st: State, e: Event)
    requires Inv(st) && Enabled(cfg, st, e)
    ensures AgesKept(st, Apply(cfg, st, e))
  {
    if e.Act? {
      var t, th := e.t, st.threads[e.t];
      hide Inv, GetStep, ReturnStep, SweepStep, InsertStep;
      match e.action
      case Get(key, made) => GetKeepsAges(cfg, st, t, key, made);
      case Return(key, conn) => ReturnKeepsAges(cfg, st, t, key, conn);
      case SweepKey(key) => SweepKeepsAges(cfg, st, t, key);
      case Insert => InsertKeepsAges(cfg, st, t, th.key, th.conn);
      case _ =>
    }
  }

  lemma {:induction false} GetKeepsAges(cfg: Config, st: State, t: nat, key: string, made: Option<nat>)
    requires t < |st.threads|
    ensures AgesKept(st, GetStep(cfg, st, t, key, made))
  {}

  lemma {:induction false} ReturnKeepsAges(cfg: Config, st: State, t: nat, key: string, conn: nat)
    requires t < |st.threads|
    ensures AgesKept(st, ReturnStep(cfg, st, t, key, conn))
  {}

  lemma {:induction false} SweepKeepsAges(cfg: Config, st: State, t: nat, key: string)
    requires t < |st.threads| && st.threads[t].Sweeping?
    ensures AgesKept(st, SweepStep(cfg, st, t, key))
  {}

  lemma {:induction false} InsertKeepsAges(cfg: Config, st: State, t: nat, key: string, conn: nat)
    requires t < |st.threads|
    ensures AgesKept(st, InsertStep(cfg, st, t, key, conn))
  {}

  /**
   The time of use of a bucket is the time at which it was made: returning a connection to it later does not
   move it, because `Return` sets it in a copy (internal/smtpconn/pool/pool.go:190). So the bucket is thrown
   away when that time is too long ago, however often it has been used since.
   */
  lemma {:induction false} BucketKeepsItsAge(cfg: Config, start: int, events: seq<Event>, i: nat, j: nat, key: string)
    requires IsRun(cfg, start, events) && i <= j <= |events|
    ensures
      var st, st' := StateAt(cfg, start, events, i), StateAt(cfg, start, events, j);
      && |st.chans| <= |st'.chans|
      && (HasKey(st', key) && SlotOf(st', key).ch < |st.chans| ==> Left(st, st', key))
    decreases j
  {
    hide IsRun, StateAt, Inv, Apply, Enabled;
    if i < j {
      BucketKeepsItsAge(cfg, start, events, i, j - 1, key);
      StepAt(cfg, start, events, j - 1);
      StepKeepsAges(cfg, StateAt(cfg, start, events, j - 1), events[j - 1]);
    }
  }
}
