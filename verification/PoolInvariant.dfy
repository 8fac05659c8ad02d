/**
 Conservation of connections over every interleaving of `Get`, `Return`, `CleanUp` and `Close`
 (internal/smtpconn/pool/pool.go): no channel is closed twice or sent to after it was closed, a
 connection in the pool is in exactly one channel, once, under the key it was returned with, and
 none is stranded in a channel that was removed.
 */
module PoolInvariant {
  import opened Common
  import opened Pool

  // ---------------------------------------------------------------------------
  // The invariant
  // ---------------------------------------------------------------------------

  /** The thread is in a stretch of code that holds the lock. */
  predicate Locked(th: Thread) { th.Sweeping? || th.Emptying? || th.Inserting? }

  /** The thread is in a loop that empties the channel until it ends. */
  predicate Drains(th: Thread, ch: nat) { (th.Draining? || th.Emptying?) && th.ch == ch }

  predicate Drained(st: State, ch: nat) { exists t: nat :: t < |st.threads| && Drains(st.threads[t], ch) }

  predicate OfKey(st: State, ch: nat, key: string) { ch < |st.chans| && st.chans[ch].key == key }

  /** The connection is in the hands of a `Return` for the key. */
  predicate BeingReturned(st: State, key: string, conn: nat) {
    && st.keys.Some? && conn in st.place && st.place[conn] == InReturn
    && conn in st.returnedUnder && st.returnedUnder[conn] == key
  }

  predicate JobOk(st: State, job: Job) {
    && (job.ReturnJob? ==> BeingReturned(st, job.key, job.conn))
    && (job.CloseJob? ==> st.keys.Some?)
  }

  predicate ThreadOk(st: State, th: Thread) {
    match th
    case Idle => true
    case Receiving(key, ch) => OfKey(st, ch, key)
    case Draining(key, ch) => OfKey(st, ch, key) && st.chans[ch].closed && !Current(st, ch)
    case Sweeping(job, todo) => JobOk(st, job) && todo <= KeySet(st) && (job.CloseJob? ==> KeySet(st) <= todo)
    case Emptying(job, todo, key, ch) =>
      && JobOk(st, job) && todo <= KeySet(st) && key !in todo && (job.CloseJob? ==> KeySet(st) <= todo + {key})
      && OfKey(st, ch, key) && st.chans[ch].closed && Current(st, ch) == !job.ReturnJob?
    case Inserting(key, conn) => BeingReturned(st, key, conn)
  }

  predicate Threads(st: State) {
    && (st.lock.Some? ==> st.lock.value < |st.threads|)
    && forall t: nat :: t < |st.threads| ==>
         ThreadOk(st, st.threads[t]) && (Locked(st.threads[t]) <==> st.lock == Some(t))
  }

  predicate Keys(st: State) {
    forall key :: key in KeySet(st) ==> OfKey(st, Bucket(st, key).value.ch, key)
  }

  /** An open channel is some key's bucket; a closed one is empty or being emptied. */
  predicate ChanOk(st: State, ch: nat)
    requires ch < |st.chans|
  {
    if st.chans[ch].closed then Drained(st, ch) || (!Current(st, ch) && st.chans[ch].buf == [])
    else Current(st, ch)
  }

  predicate Chans(st: State) { forall ch: nat :: ch < |st.chans| ==> ChanOk(st, ch) }

  /** What a channel holds, and what is recorded as being in it, are the same connections. */
  predicate Held(st: State, ch: nat)
    requires ch < |st.chans|
  {
    && Distinct(st.chans[ch].buf)
    && forall c :: c in st.chans[ch].buf ==> c in st.place && st.place[c] == InChannel(ch)
  }

  predicate Filed(st: State, c: nat)
    requires c in st.place
  {
    st.place[c].InChannel? ==>
      && st.place[c].ch < |st.chans| && c in st.chans[st.place[c].ch].buf
      && c in st.returnedUnder && st.returnedUnder[c] == st.chans[st.place[c].ch].key
  }

  predicate Conns(st: State) {
    && (forall ch: nat :: ch < |st.chans| ==> Held(st, ch))
    && (forall c :: c in st.place ==> Filed(st, c))
  }

  predicate Inv(st: State) { !st.panicked && Threads(st) && Keys(st) && Chans(st) && Conns(st) }

  // ---------------------------------------------------------------------------
  // Every step keeps it
  // ---------------------------------------------------------------------------

  lemma {:induction false} OpenWhileUnlocked(st: State, key: string)
    requires Inv(st) && Bucket(st, key).Some? && forall t: nat :: t < |st.threads| ==> !st.threads[t].Emptying?
    ensures OfKey(st, Bucket(st, key).value.ch, key) && !st.chans[Bucket(st, key).value.ch].closed
  {
    assert key in KeySet(st);
    var ch := Bucket(st, key).value.ch;
    assert ChanOk(st, ch);
  }

  // Frames: what a step that leaves something alone need not prove again.

  predicate OthersSame(st: State, st': State, t: nat) {
    && t < |st.threads| == |st'.threads|
    && forall u: nat :: u < |st.threads| && u != t ==> st'.threads[u] == st.threads[u]
  }

  /** Nothing about the channel changes that its invariant depends on. */
  predicate SameStanding(st: State, st': State, t: nat, i: nat)
    requires i < |st.chans| && i < |st'.chans| && t < |st.threads| && t < |st'.threads|
  {
    && st'.chans[i].closed == st.chans[i].closed && Current(st', i) == Current(st, i)
    && (st.chans[i].closed && st.chans[i].buf == [] ==> st'.chans[i].buf == [])
    && (Drains(st.threads[t], i) ==> Drains(st'.threads[t], i))
  }

  /** Only one thread and, at most, the standing of one channel change. */
  lemma {:induction false} ChansKept(st: State, st': State, t: nat, ch: nat)
    requires Chans(st) && |st'.chans| == |st.chans| && OthersSame(st, st', t)
    requires forall i: nat :: i < |st.chans| && i != ch ==> SameStanding(st, st', t, i)
    requires ch < |st.chans| ==> ChanOk(st', ch)
    ensures Chans(st')
  {
    hide Current;
    forall i: nat | i < |st'.chans| ensures ChanOk(st', i) {
      if i != ch {
        assert ChanOk(st, i) && SameStanding(st, st', t, i);
      }
    }
  }

  /** Closing channels and moving threads moves no connection. */
  lemma {:induction false} SameConns(st: State, st': State)
    requires Conns(st) && |st'.chans| == |st.chans| && st'.place == st.place && st'.returnedUnder == st.returnedUnder
    requires forall i :: 0 <= i < |st.chans| ==>
      st'.chans[i].buf == st.chans[i].buf && st'.chans[i].key == st.chans[i].key
    ensures Conns(st')
  {
    forall i: nat | i < |st'.chans| ensures Held(st', i) { assert Held(st, i); }
    forall c | c in st'.place ensures Filed(st', c) { assert Filed(st, c); }
  }

  lemma {:induction false} SameKeys(st: State, st': State)
    requires Keys(st) && st'.keys == st.keys && |st'.chans| == |st.chans|
    requires forall i :: 0 <= i < |st.chans| ==> st'.chans[i].key == st.chans[i].key
    ensures Keys(st')
    ensures forall i: nat :: i < |st.chans| ==> Current(st', i) == Current(st, i)
  {
    forall key | key in KeySet(st') ensures OfKey(st', Bucket(st', key).value.ch, key) {
      assert key in KeySet(st) && Bucket(st, key) == Bucket(st', key);
    }
  }

  /** The connection stays where it is if it is in the pool or in the hands of a `Return`. */
  predicate SamePlace(st: State, st': State, c: nat) {
    && (c in st.place && (st.place[c].InChannel? || st.place[c].InReturn?) ==>
          && c in st'.place && st'.place[c] == st.place[c]
          && (c in st.returnedUnder ==> c in st'.returnedUnder && st'.returnedUnder[c] == st.returnedUnder[c]))
    && (c in st'.place && st'.place[c].InChannel? ==> c in st.place && st.place[c] == st'.place[c])
  }

  /** A step that only moves connections outside the pool. */
  lemma {:induction false} KeepOutside(st: State, st': State)
    requires Inv(st) && st'.(place := st.place, returnedUnder := st.returnedUnder, now := st.now) == st
    requires forall c :: SamePlace(st, st', c)
    ensures Inv(st')
  {
    SameKeys(st, st');
    assert Threads(st') by {
      forall t: nat | t < |st'.threads|
        ensures ThreadOk(st', st'.threads[t]) && (Locked(st'.threads[t]) <==> st'.lock == Some(t))
      {
        assert ThreadOk(st, st.threads[t]);
        OutsideThread(st, st', st.threads[t]);
      }
    }
    assert Chans(st') by {
      forall i: nat | i < |st'.chans| ensures ChanOk(st', i) {
        assert ChanOk(st, i);
        if Drained(st, i) { assert Drained(st', i); }
      }
    }
    OutsideConns(st, st');
  }

  lemma {:induction false} OutsideThread(st: State, st': State, th: Thread)
    requires ThreadOk(st, th) && st'.(place := st.place, returnedUnder := st.returnedUnder, now := st.now) == st
    requires forall c :: SamePlace(st, st', c)
    ensures ThreadOk(st', th)
  {
    if (th.Sweeping? || th.Emptying?) && th.job.ReturnJob? { assert SamePlace(st, st', th.job.conn); }
    if th.Inserting? { assert SamePlace(st, st', th.conn); }
  }

  lemma {:induction false} OutsideConns(st: State, st': State)
    requires Conns(st) && st'.(place := st.place, returnedUnder := st.returnedUnder, now := st.now) == st
    requires forall c :: SamePlace(st, st', c)
    ensures Conns(st')
  {
    forall i: nat | i < |st'.chans| ensures Held(st', i) {
      assert Held(st, i);
      forall c | c in st'.chans[i].buf ensures c in st'.place && st'.place[c] == InChannel(i) {
        assert SamePlace(st, st', c);
      }
    }
    forall c | c in st'.place ensures Filed(st', c) {
      assert SamePlace(st, st', c);
      if c in st.place { assert Filed(st, c); }
    }
  }

  lemma {:induction false} KeepNew(st: State, made: Option<nat>)
    requires Inv(st) && FreshConn(st, made)
    ensures Inv(New(st, made))
  {
    hide Inv;
    forall c ensures SamePlace(st, New(st, made), c) {}
    KeepOutside(st, New(st, made));
  }

  /** A caller hands over a connection it had, which is not in any channel. */
  lemma {:induction false} KeepHandOver(st: State, key: string, conn: nat, to: Place)
    requires Inv(st) && conn in st.place && st.place[conn] == WithCaller && !to.InChannel?
    ensures Inv(st.(place := st.place[conn := to], returnedUnder := st.returnedUnder[conn := key]))
  {
    hide Inv;
    var st' := st.(place := st.place[conn := to], returnedUnder := st.returnedUnder[conn := key]);
    forall c ensures SamePlace(st, st', c) {}
    KeepOutside(st, st');
  }

  lemma {:induction false} ReceiveConns(st: State, ch: nat, to: Place)
    requires Conns(st) && HasConn(st, ch) && !to.InChannel?
    ensures Conns(Receive(st, ch, to))
  {
    var st', buf := Receive(st, ch, to), st.chans[ch].buf;
    assert Held(st, ch);
    forall i: nat | i < |st'.chans| ensures Held(st', i) {
      assert Held(st, i);
      if i == ch {
        forall c | c in buf[1..] ensures c in st.place && c != buf[0] && st.place[c] == InChannel(ch) {}
      } else {
        forall c | c in st.chans[i].buf ensures c in st.place && c != buf[0] && st.place[c] == InChannel(i) {}
      }
    }
    forall c | c in st'.place ensures Filed(st', c) {
      if c != buf[0] { assert Filed(st, c); }
    }
  }

  lemma {:induction false} KeepReceive(st: State, ch: nat, to: Place)
    requires Inv(st) && HasConn(st, ch) && !to.InChannel?
    ensures Inv(Receive(st, ch, to))
  {
    var st' := Receive(st, ch, to);
    ReceiveConns(st, ch, to);
    SameKeys(st, st');
    forall t: nat | t < |st'.threads|
      ensures ThreadOk(st', st'.threads[t]) && (Locked(st'.threads[t]) <==> st'.lock == Some(t))
    {
      assert ThreadOk(st, st.threads[t]);
      assert Held(st, ch) && st.place[st.chans[ch].buf[0]] == InChannel(ch);
    }
    forall i: nat | i < |st'.chans| ensures ChanOk(st', i) {
      assert ChanOk(st, i);
      if Drained(st, i) { assert Drained(st', i); }
    }
  }

  /** A thread moves on, the lock with it, and nothing else changes. */
  lemma {:induction false} KeepGo(st: State, t: nat, next: Thread, lock: Option<nat>)
    requires Inv(st) && t < |st.threads| && ThreadOk(st, next)
    requires forall ch: nat :: ch < |st.chans| && Drains(st.threads[t], ch) && !Drains(next, ch) ==>
      st.chans[ch].buf == [] && !Current(st, ch)
    requires forall u: nat :: u < |st.threads| && u != t ==> (lock == Some(u) <==> st.lock == Some(u))
    requires (Locked(next) <==> lock == Some(t)) && (lock.None? || lock == Some(t) || lock == st.lock)
    ensures Inv(Go(st, t, next).(lock := lock))
  {
    var st' := Go(st, t, next).(lock := lock);
    SameKeys(st, st');
    SameConns(st, st');
    assert Threads(st') by {
      forall u: nat | u < |st'.threads|
        ensures ThreadOk(st', st'.threads[u]) && (Locked(st'.threads[u]) <==> st'.lock == Some(u))
      {
        assert ThreadOk(st, st.threads[u]);
      }
    }
    var th := st.threads[t];
    var left := if (th.Draining? || th.Emptying?) && !Drains(next, th.ch) then th.ch else |st.chans|;
    if left < |st.chans| { assert ChanOk(st, left); }
    ChansKept(st, st', t, left);
  }

  /** `Get` or `Return` removes a bucket, closes its channel and goes on to empty it. */
  lemma {:induction false} KeepRemove(st: State, t: nat, key: string, next: Thread)
    requires Inv(st) && t < |st.threads| && Bucket(st, key).Some?
    requires Drains(next, Bucket(st, key).value.ch) && next.key == key
    requires forall u: nat :: u < |st.threads| ==> !st.threads[u].Emptying?
    requires
      || (next.Draining? && st.lock.None? && st.threads[t].Idle?)
      || (next.Emptying? && next.job.ReturnJob? && st.threads[t] == Sweeping(next.job, next.todo + {key})
          && key !in next.todo)
    ensures
      var ch := Bucket(st, key).value.ch;
      ch < |st.chans| && Inv(Go(CloseChan(DropKey(st, key), ch), t, next))
  {
    OpenWhileUnlocked(st, key);
    var ch := Bucket(st, key).value.ch;
    var st' := Go(CloseChan(DropKey(st, key), ch), t, next);
    assert ThreadOk(st, st.threads[t]);
    RemoveKeepsBuckets(st, st', key, ch);
    SameConns(st, st');
    assert Threads(st') by {
      forall u: nat | u < |st'.threads|
        ensures ThreadOk(st', st'.threads[u]) && (Locked(st'.threads[u]) <==> st'.lock == Some(u))
      {
        assert ThreadOk(st, st.threads[u]) && (Locked(st.threads[u]) <==> st.lock == Some(u));
      }
    }
    assert Drains(st'.threads[t], ch);
    ChansKept(st, st', t, ch);
  }

  lemma {:induction false} RemoveKeepsBuckets(st: State, st': State, key: string, ch: nat)
    requires Keys(st) && OfKey(st, ch, key) && Bucket(st, key).Some? && Bucket(st, key).value.ch == ch
    requires st'.keys == DropKey(st, key).keys && st'.chans == st.chans[ch := st.chans[ch].(closed := true)]
    ensures Keys(st')
    ensures forall i: nat :: i < |st.chans| ==> (Current(st', i) <==> Current(st, i) && i != ch)
  {
    forall k | k in KeySet(st') ensures OfKey(st', Bucket(st', k).value.ch, k) {
      assert k in KeySet(st) && Bucket(st, k) == Bucket(st', k);
    }
  }

  /** `CleanUp` or `Close` closes the channel of a bucket which stays in the map until it is empty. */
  lemma {:induction false} KeepSeal(st: State, t: nat, key: string)
    requires Inv(st) && t < |st.threads| && Bucket(st, key).Some?
    requires st.threads[t].Sweeping? && !st.threads[t].job.ReturnJob? && key in st.threads[t].todo
    ensures
      var ch, job, todo := Bucket(st, key).value.ch, st.threads[t].job, st.threads[t].todo - {key};
      ch < |st.chans| && Inv(Go(CloseChan(st, ch), t, Emptying(job, todo, key, ch)))
  {
    OpenWhileUnlocked(st, key);
    var ch, job, todo := Bucket(st, key).value.ch, st.threads[t].job, st.threads[t].todo - {key};
    var st' := Go(CloseChan(st, ch), t, Emptying(job, todo, key, ch));
    assert ThreadOk(st, st.threads[t]);
    SameKeys(st, st');
    SameConns(st, st');
    assert Threads(st') by {
      forall u: nat | u < |st'.threads|
        ensures ThreadOk(st', st'.threads[u]) && (Locked(st'.threads[u]) <==> st'.lock == Some(u))
      {
        assert ThreadOk(st, st.threads[u]) && (Locked(st.threads[u]) <==> st.lock == Some(u));
      }
    }
    assert Drains(st'.threads[t], ch);
    ChansKept(st, st', t, ch);
  }

  /** `CleanUp` or `Close` deletes the bucket whose channel it has emptied. */
  lemma {:induction false} KeepDelete(st: State, t: nat)
    requires Inv(st) && t < |st.threads| && st.threads[t].Emptying? && !st.threads[t].job.ReturnJob?
    requires st.threads[t].ch < |st.chans| && st.chans[st.threads[t].ch].buf == []
    ensures
      var th := st.threads[t];
      Inv(Go(DropKey(st, th.key), t, Sweeping(th.job, th.todo)))
  {
    var th := st.threads[t];
    var key, ch := th.key, th.ch;
    var st' := Go(DropKey(st, key), t, Sweeping(th.job, th.todo));
    assert ThreadOk(st, th) && Current(st, ch) && st.lock == Some(t);
    assert st.chans == st.chans[ch := st.chans[ch].(closed := true)];
    RemoveKeepsBuckets(st, st', key, ch);
    SameConns(st, st');
    assert Threads(st') by {
      forall u: nat | u < |st'.threads|
        ensures ThreadOk(st', st'.threads[u]) && (Locked(st'.threads[u]) <==> st'.lock == Some(u))
      {
        assert ThreadOk(st, st.threads[u]) && (Locked(st.threads[u]) <==> st.lock == Some(u));
      }
    }
    ChansKept(st, st', t, ch);
  }

  /** The end of `Close`: the map is empty by then, and there is none from here on. */
  lemma {:induction false} KeepShut(st: State, t: nat)
    requires Inv(st) && t < |st.threads| && st.threads[t] == Sweeping(CloseJob, {})
    ensures Inv(Go(st, t, Idle).(lock := None, keys := None))
  {
    var st' := Go(st, t, Idle).(lock := None, keys := None);
    assert ThreadOk(st, st.threads[t]) && st.lock == Some(t) && KeySet(st) == {};
    assert forall key :: Bucket(st, key).None? by {
      forall key ensures Bucket(st, key).None? { assert key !in KeySet(st); }
    }
    SameConns(st, st');
    assert Threads(st') by {
      forall u: nat | u < |st'.threads|
        ensures ThreadOk(st', st'.threads[u]) && (Locked(st'.threads[u]) <==> st'.lock == Some(u))
      {
        assert ThreadOk(st, st.threads[u]) && (Locked(st.threads[u]) <==> st.lock == Some(u));
      }
    }
    ChansKept(st, st', t, |st.chans|);
  }

  /** `Return` makes a bucket for a key that has none. */
  lemma {:induction false} KeepMake(st: State, t: nat, key: string)
    requires Inv(st) && t < |st.threads| && st.threads[t].Inserting? && st.keys.Some? && Bucket(st, key).None?
    ensures Inv(WithBucket(st, key))
  {
    var st' := WithBucket(st, key);
    assert key !in KeySet(st);
    assert Keys(st') by {
      forall k | k in KeySet(st') ensures OfKey(st', Bucket(st', k).value.ch, k) {
        if k != key { assert k in KeySet(st) && Bucket(st, k) == Bucket(st', k); }
      }
    }
    assert forall i: nat :: i < |st.chans| ==> (Current(st', i) <==> Current(st, i));
    assert Threads(st') by {
      forall u: nat | u < |st'.threads|
        ensures ThreadOk(st', st'.threads[u]) && (Locked(st'.threads[u]) <==> st'.lock == Some(u))
      {
        assert ThreadOk(st, st.threads[u]) && (Locked(st.threads[u]) <==> st.lock == Some(u));
      }
    }
    assert Chans(st') by {
      forall i: nat | i < |st'.chans| ensures ChanOk(st', i) {
        if i < |st.chans| {
          assert ChanOk(st, i);
          if Drained(st, i) { assert Drained(st', i); }
        }
      }
    }
    assert Conns(st') by {
      forall i: nat | i < |st'.chans| ensures Held(st', i) { if i < |st.chans| { assert Held(st, i); } }
      forall c | c in st'.place ensures Filed(st', c) { assert Filed(st, c); }
    }
  }

  /** `Return` sends the connection to its key's channel, or closes it. */
  lemma {:induction false} KeepSend(cfg: Config, st: State, t: nat)
    requires Inv(st) && t < |st.threads| && st.threads[t].Inserting? && Bucket(st, st.threads[t].key).Some?
    ensures Inv(InsertStep(cfg, st, t, st.threads[t].key, st.threads[t].conn))
  {
    var key, conn := st.threads[t].key, st.threads[t].conn;
    var st' := InsertStep(cfg, st, t, key, conn);
    OpenWhileUnlocked(st, key);
    assert ThreadOk(st, st.threads[t]) && st.lock == Some(t);
    var ch := Bucket(st, key).value.ch;
    SendConns(cfg, st, t, ch);
    SameKeys(st, st');
    assert Threads(st') by {
      forall u: nat | u < |st'.threads|
        ensures ThreadOk(st', st'.threads[u]) && (Locked(st'.threads[u]) <==> st'.lock == Some(u))
      {
        assert ThreadOk(st, st.threads[u]) && (Locked(st.threads[u]) <==> st.lock == Some(u));
      }
    }
    ChansKept(st, st', t, |st.chans|);
  }

  lemma {:induction false} SendConns(cfg: Config, st: State, t: nat, ch: nat)
    requires Conns(st) && t < |st.threads| && st.threads[t].Inserting?
    requires Bucket(st, st.threads[t].key).Some? && Bucket(st, st.threads[t].key).value.ch == ch
    requires OfKey(st, ch, st.threads[t].key) && !st.chans[ch].closed
    requires BeingReturned(st, st.threads[t].key, st.threads[t].conn)
    ensures Conns(InsertStep(cfg, st, t, st.threads[t].key, st.threads[t].conn))
  {
    var conn := st.threads[t].conn;
    var st' := InsertStep(cfg, st, t, st.threads[t].key, conn);
    forall i: nat | i < |st'.chans| ensures Held(st', i) {
      assert Held(st, i);
      assert conn !in st.chans[i].buf;
    }
    forall c | c in st'.place ensures Filed(st', c) { if c != conn { assert Filed(st, c); } }
  }
}
