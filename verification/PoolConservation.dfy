/**
 What the pool guarantees over whole runs (internal/smtpconn/pool/pool.go:88-211).
 */
module PoolConservation {
  import opened Common
  import opened Pool
  import opened PoolInvariant

  // ---------------------------------------------------------------------------
  // Every step keeps the invariant
  // ---------------------------------------------------------------------------

  lemma {:induction false} GetKeeps(cfg: Config, st: State, t: nat, key: string, made: Option<nat>)
    requires Inv(st) && t < |st.threads| && ActionEnabled(st, st.threads[t], Get(key, made))
    ensures Inv(GetStep(cfg, st, t, key, made))
  {
    hide Inv;
    if Bucket(st, key).None? {
      KeepNew(st, made);
    } else {
      var slot := Bucket(st, key).value;
      assert Threads(st) && Keys(st) by { Parts(st); }
      assert key in KeySet(st);
      if st.now - slot.lastUse > cfg.maxConnLifetime {
        KeepRemove(st, t, key, Draining(key, slot.ch));
      } else {
        KeepGo(st, t, Receiving(key, slot.ch), None);
      }
    }
  }

  lemma {:induction false} Parts(st: State)
    requires Inv(st)
    ensures Threads(st) && Keys(st) && Chans(st) && Conns(st) && !st.panicked
    ensures forall t: nat :: t < |st.threads| ==> ThreadOk(st, st.threads[t])
  {}

  lemma {:induction false} ReturnKeeps(cfg: Config, st: State, t: nat, key: string, conn: nat)
    requires Inv(st) && t < |st.threads| && ActionEnabled(st, st.threads[t], Return(key, conn))
    ensures Inv(ReturnStep(cfg, st, t, key, conn))
  {
    hide Inv;
    if st.keys.None? {
      KeepHandOver(st, key, conn, Dropped);
    } else {
      KeepHandOver(st, key, conn, InReturn);
      var given := st.(place := st.place[conn := InReturn], returnedUnder := st.returnedUnder[conn := key]);
      if Bucket(st, key).None? && |st.keys.value| == cfg.maxKeys {
        KeepGo(given, t, Sweeping(ReturnJob(key, conn), KeySet(st)), Some(t));
      } else {
        KeepGo(given, t, Inserting(key, conn), Some(t));
      }
    }
  }

  lemma {:induction false} SweepKeeps(cfg: Config, st: State, t: nat, key: string)
    requires Inv(st) && t < |st.threads| && ActionEnabled(st, st.threads[t], SweepKey(key))
    ensures Inv(SweepStep(cfg, st, t, key))
  {
    hide Inv;
    Parts(st);
    var th := st.threads[t];
    var job, todo := th.job, th.todo - {key};
    assert key in KeySet(st) && Bucket(st, key).Some?;
    var slot := Bucket(st, key).value;
    assert th.todo == todo + {key};
    if !Stale(cfg, st, job, slot) {
      KeepGo(st, t, Sweeping(job, todo), st.lock);
    } else if job.ReturnJob? {
      KeepRemove(st, t, key, Emptying(job, todo, key, slot.ch));
    } else {
      KeepSeal(st, t, key);
    }
  }

  lemma {:induction false} EmptyEndsKeeps(cfg: Config, st: State, t: nat)
    requires Inv(st) && t < |st.threads| && ActionEnabled(st, st.threads[t], EmptyEnds)
    ensures Inv(ApplyAction(cfg, st, t, EmptyEnds))
  {
    hide Inv;
    Parts(st);
    var th := st.threads[t];
    assert ThreadOk(st, th);
    if th.job.ReturnJob? { KeepGo(st, t, Sweeping(th.job, th.todo), st.lock); } else { KeepDelete(st, t); }
  }

  lemma {:induction false} SweepEndsKeeps(cfg: Config, st: State, t: nat)
    requires Inv(st) && t < |st.threads| && ActionEnabled(st, st.threads[t], SweepEnds)
    ensures Inv(ApplyAction(cfg, st, t, SweepEnds))
  {
    hide Inv;
    Parts(st);
    var th := st.threads[t];
    assert ThreadOk(st, th) && st.lock == Some(t);
    match th.job
    case ReturnJob(key, conn) => KeepGo(st, t, Inserting(key, conn), st.lock);
    case CleanUpJob => KeepGo(st, t, Idle, None);
    case CloseJob => KeepShut(st, t);
  }

  lemma {:induction false} InsertKeeps(cfg: Config, st: State, t: nat)
    requires Inv(st) && t < |st.threads| && st.threads[t].Inserting?
    ensures Inv(ApplyAction(cfg, st, t, Insert))
  {
    hide Inv;
    Parts(st);
    var key, conn := st.threads[t].key, st.threads[t].conn;
    assert ThreadOk(st, st.threads[t]);
    if Bucket(st, key).Some? {
      KeepSend(cfg, st, t);
    } else {
      KeepMake(st, t, key);
      KeepSend(cfg, WithBucket(st, key), t);
    }
  }

  lemma {:induction false} GetLoopKeeps(cfg: Config, st: State, t: nat, a: Action)
    requires Inv(st) && t < |st.threads| && ActionEnabled(st, st.threads[t], a)
    requires a.GetReceives? || a.GetGivesUp? || a.DrainOne? || a.DrainEnds? || a.EmptyOne?
    ensures Inv(ApplyAction(cfg, st, t, a))
  {
    hide Inv;
    Parts(st);
    var th := st.threads[t];
    assert ThreadOk(st, th) && (Locked(th) <==> st.lock == Some(t));
    match a
    case GetReceives(usable, lastUse) =>
      var good := Reusable(cfg, st, usable, lastUse);
      KeepReceive(st, th.ch, if good then WithCaller else Closed);
      if good { KeepGo(Receive(st, th.ch, WithCaller), t, Idle, st.lock); }
    case GetGivesUp(made) => KeepNew(st, made); KeepGo(New(st, made), t, Idle, st.lock);
    case DrainOne => KeepReceive(st, th.ch, Closed);
    case DrainEnds(made) => KeepNew(st, made); KeepGo(New(st, made), t, Idle, st.lock);
    case EmptyOne => KeepReceive(st, th.ch, Closed);
  }

  lemma {:induction false} SpawnKeeps(st: State)
    requires Inv(st)
    ensures Inv(st.(threads := st.threads + [Idle]))
  {
    var st' := st.(threads := st.threads + [Idle]);
    assert Threads(st') by {
      forall u: nat | u < |st'.threads|
        ensures ThreadOk(st', st'.threads[u]) && (Locked(st'.threads[u]) <==> st'.lock == Some(u))
      {
        if u < |st.threads| { assert ThreadOk(st, st.threads[u]); }
      }
    }
    assert Chans(st') by {
      forall i: nat | i < |st'.chans| ensures ChanOk(st', i) {
        assert ChanOk(st, i);
        if Drained(st, i) {
          var u: nat :| u < |st.threads| && Drains(st.threads[u], i);
          assert Drains(st'.threads[u], i);
        }
      }
    }
    SameKeys(st, st');
    SameConns(st, st');
  }

  lemma {:induction false} TickKeeps(st: State, later: int)
    requires Inv(st)
    ensures Inv(st.(now := later))
  {
    hide Inv;
    KeepOutside(st, st.(now := later));
  }

  lemma {:induction false} StepKeeps(cfg: Config, st: State, e: Event)
    requires Inv(st) && Enabled(cfg, st, e)
    ensures Inv(Apply(cfg, st, e))
  {
    hide Inv;
    match e
    case Spawn => SpawnKeeps(st);
    case Tick(later) => TickKeeps(st, later);
    case Act(t, a) =>
      match a {
        case Get(key, made) => GetKeeps(cfg, st, t, key, made);
        case Return(key, conn) => ReturnKeeps(cfg, st, t, key, conn);
        case CleanUp => KeepGo(st, t, Sweeping(CleanUpJob, KeySet(st)), Some(t));
        case Close => KeepGo(st, t, Sweeping(CloseJob, KeySet(st)), Some(t));
        case SweepKey(key) => SweepKeeps(cfg, st, t, key);
        case EmptyEnds => EmptyEndsKeeps(cfg, st, t);
        case SweepEnds => SweepEndsKeeps(cfg, st, t);
        case Insert => InsertKeeps(cfg, st, t);
        case _ => GetLoopKeeps(cfg, st, t, a);
      }
  }

  lemma {:induction false} RunsKeepInv(cfg: Config, start: int, events: seq<Event>)
    requires IsRun(cfg, start, events)
    ensures Inv(After(cfg, start, events))
  {
    if events != [] {
      hide Inv;
      RunsKeepInv(cfg, start, events[..|events| - 1]);
      StepKeeps(cfg, After(cfg, start, events[..|events| - 1]), events[|events| - 1]);
    }
  }

  // ---------------------------------------------------------------------------
  // The guarantees
  // ---------------------------------------------------------------------------

  /** No channel is closed twice, and none is sent to after it was closed. */
  lemma {:induction false} NeverPanics(cfg: Config, start: int, events: seq<Event>)
    requires IsRun(cfg, start, events)
    ensures !After(cfg, start, events).panicked
  {
    RunsKeepInv(cfg, start, events);
  }

  /**
   A connection occurs in the channels exactly where the books say it is: in one position of one
   channel, whose key is the one it was last returned under; or nowhere, when it is with a caller,
   in the hands of a `Return`, or closed.
   */
  lemma {:induction false} InOneChannelOfItsKey(cfg: Config, start: int, events: seq<Event>, c: nat, ch: nat, i: nat)
    requires IsRun(cfg, start, events)
    ensures
      var st := After(cfg, start, events);
      ch < |st.chans| && i < |st.chans[ch].buf| && st.chans[ch].buf[i] == c ==>
        && c in st.returnedUnder && st.returnedUnder[c] == st.chans[ch].key
        && c in st.place && st.place[c] == InChannel(ch)
        && forall ch': nat, j: nat :: ch' < |st.chans| && j < |st.chans[ch'].buf| && st.chans[ch'].buf[j] == c ==>
          ch' == ch && j == i
    ensures
      var st := After(cfg, start, events);
      c in st.place && st.place[c].InChannel? ==> st.place[c].ch < |st.chans| && c in st.chans[st.place[c].ch].buf
  {
    RunsKeepInv(cfg, start, events);
    var st := After(cfg, start, events);
    if c in st.place { assert Filed(st, c); }
    if ch < |st.chans| && i < |st.chans[ch].buf| && st.chans[ch].buf[i] == c {
      assert Held(st, ch);
      forall ch': nat, j: nat | ch' < |st.chans| && j < |st.chans[ch'].buf| && st.chans[ch'].buf[j] == c
        ensures ch' == ch && j == i
      {
        assert Held(st, ch');
      }
    }
  }

  /**
   None is stranded: connections in a channel that is no longer its key's bucket are about to be
   closed by a thread which is emptying that channel; and once `Close` is over and every thread
   has finished its call, every channel is empty.
   */
  lemma {:induction false} NoneStranded(cfg: Config, start: int, events: seq<Event>, ch: nat)
    requires IsRun(cfg, start, events) && ch < |After(cfg, start, events).chans|
    requires After(cfg, start, events).chans[ch].buf != []
    ensures
      var st := After(cfg, start, events);
      && (Current(st, ch) || (st.chans[ch].closed && Drained(st, ch)))
      && (st.keys.None? ==> exists t: nat :: t < |st.threads| && !st.threads[t].Idle?)
  {
    RunsKeepInv(cfg, start, events);
    var st := After(cfg, start, events);
    assert ChanOk(st, ch);
    if st.keys.None? {
      var t: nat :| t < |st.threads| && Drains(st.threads[t], ch);
      assert !st.threads[t].Idle?;
    }
  }

  /** `Get` hands out a connection of the pool only for the key it was last returned under. */
  lemma {:induction false} HandedOutUnderItsKey(cfg: Config, start: int, events: seq<Event>, t: nat, lastUse: int)
    requires IsRun(cfg, start, events) && Enabled(cfg, After(cfg, start, events), Act(t, GetReceives(true, lastUse)))
    requires lastUse >= After(cfg, start, events).now - cfg.maxConnLifetime
    ensures
      var st := After(cfg, start, events);
      var st' := Apply(cfg, st, Act(t, GetReceives(true, lastUse)));
      var c := st.chans[st.threads[t].ch].buf[0];
      && c in st.place && st.place[c].InChannel? && c in st.returnedUnder && st.returnedUnder[c] == st.threads[t].key
      && c in st'.place && st'.place[c] == WithCaller
      && forall ch: nat :: ch < |st'.chans| ==> c !in st'.chans[ch].buf
  {
    RunsKeepInv(cfg, start, events);
    var st := After(cfg, start, events);
    var ch := st.threads[t].ch;
    var c := st.chans[ch].buf[0];
    assert ThreadOk(st, st.threads[t]) && Held(st, ch) && c in st.chans[ch].buf && Filed(st, c);
    var st' := Apply(cfg, st, Act(t, GetReceives(true, lastUse)));
    StepKeeps(cfg, st, Act(t, GetReceives(true, lastUse)));
    forall i: nat | i < |st'.chans| ensures c !in st'.chans[i].buf { assert Held(st', i); }
  }

  /** How one step may move a connection. */
  predicate Moves(before: Place, later: Place) {
    || before == later
    || (before.WithCaller? && (later.InReturn? || later.Dropped?))
    || (before.InReturn? && (later.InChannel? || later.Closed?))
    || (before.InChannel? && (later.WithCaller? || later.Closed?))
  }

  /**
   A step moves a connection only from the one that has it: a caller's connection leaves it by
   `Return` only, and a closed connection is never given out, sent or closed again.
   */
  lemma {:induction false} MovesInOrder(cfg: Config, start: int, events: seq<Event>, e: Event, c: nat)
    requires IsRun(cfg, start, events) && Enabled(cfg, After(cfg, start, events), e)
    requires c in After(cfg, start, events).place
    ensures
      var st := After(cfg, start, events);
      var st' := Apply(cfg, st, e);
      c in st'.place && Moves(st.place[c], st'.place[c])
      && (st'.place[c] != st.place[c] && st.place[c].WithCaller? ==> e.Act? && e.action.Return? && e.action.conn == c)
  {
    hide Inv, Keys, Chans, Threads, Conns, Filed, Current, Drained;
    hide GetStep, ReturnStep, SweepStep, InsertStep, Receive, Moves;
    RunsKeepInv(cfg, start, events);
    var st := After(cfg, start, events);
    assert Moves(st.place[c], st.place[c]) by { MovesNowhere(st.place[c]); }
    if e.Act? {
      var th := st.threads[e.t];
      Parts(st);
      assert ThreadOk(st, th);
      match e.action
      case GetReceives(usable, lastUse) =>
        ReceiveMoves(st, th.ch, if Reusable(cfg, st, usable, lastUse) then WithCaller else Closed, c);
      case DrainOne => ReceiveMoves(st, th.ch, Closed, c);
      case EmptyOne => ReceiveMoves(st, th.ch, Closed, c);
      case Insert => InsertMoves(cfg, st, e.t, c);
      case _ => OtherMoves(cfg, st, e.t, e.action, c);
    }
  }

  ghost predicate MovesWell(st: State, st': State, c: nat) {
    c in st.place ==> c in st'.place && Moves(st.place[c], st'.place[c])
  }

  lemma {:induction false} ReceiveMoves(st: State, ch: nat, to: Place, c: nat)
    requires Conns(st) && HasConn(st, ch) && (to.WithCaller? || to.Closed?)
    ensures MovesWell(st, Receive(st, ch, to), c)
    ensures c in st.place && st.place[c].WithCaller? ==> Receive(st, ch, to).place[c] == st.place[c]
  {
    assert Held(st, ch) && st.chans[ch].buf[0] in st.chans[ch].buf;
  }

  lemma {:induction false} InsertMoves(cfg: Config, st: State, t: nat, c: nat)
    requires t < |st.threads| && st.threads[t].Inserting? && BeingReturned(st, st.threads[t].key, st.threads[t].conn)
    ensures MovesWell(st, ApplyAction(cfg, st, t, Insert), c)
    ensures c in st.place && st.place[c].WithCaller? ==> ApplyAction(cfg, st, t, Insert).place[c] == st.place[c]
  {}

  /** The steps that do not touch a connection in a channel. */
  lemma {:induction false} OtherMoves(cfg: Config, st: State, t: nat, a: Action, c: nat)
    requires t < |st.threads| && ActionEnabled(st, st.threads[t], a)
    requires !a.GetReceives? && !a.DrainOne? && !a.EmptyOne? && !a.Insert?
    ensures MovesWell(st, ApplyAction(cfg, st, t, a), c)
    ensures c in st.place && st.place[c].WithCaller? && !(a.Return? && a.conn == c) ==>
      ApplyAction(cfg, st, t, a).place[c] == st.place[c]
  {}

  lemma {:induction false} MovesNowhere(p: Place)
    ensures Moves(p, p)
  {}
}
