/**
 The connection pool as a step system (internal/smtpconn/pool/pool.go).

 A key's bucket is a channel. `Get` gives up the lock before it receives, so other threads can
 close and drain the same channel under it; every receive, every iteration of a drain loop and
 every stretch of code under the lock is a step of its own.
 */
module Pool {
  import opened Common

  datatype Chan = Chan(key: string, buf: seq<nat>, closed: bool)

  datatype Slot = Slot(ch: nat, lastUse: int)

  datatype Config = Config(maxKeys: nat, maxConnsPerKey: nat, maxConnLifetime: int, staleKeyLifetime: int)

  /** Who sweeps the buckets while holding the lock. */
  datatype Job = CleanUpJob | ReturnJob(key: string, conn: nat) | CloseJob

  datatype Thread =
    | Idle
    | Receiving(key: string, ch: nat)                                  // `Get`, in its receive loop, without the lock
    | Draining(key: string, ch: nat)                                   // `Get`, emptying a bucket, without the lock
    | Sweeping(job: Job, todo: set<string>)                            // between two buckets, with the lock
    | Emptying(job: Job, todo: set<string>, key: string, ch: nat)      // emptying one bucket, with the lock
    | Inserting(key: string, conn: nat)                                // `Return`, about to send, with the lock

  /** Where a connection is. */
  datatype Place = InChannel(ch: nat) | WithCaller | InReturn | Closed | Dropped

  /**
   `keys` is `None` once the pool is closed. `place` records who has each connection, and
   `returnedUnder` the key it was last returned under.
   */
  datatype State = State(
    chans: seq<Chan>, keys: Option<map<string, Slot>>, lock: Option<nat>, threads: seq<Thread>,
    place: map<nat, Place>, returnedUnder: map<nat, string>, now: int, panicked: bool)

  function Initial(now: int): State { State([], Some(map[]), None, [], map[], map[], now, false) }

  function Bucket(st: State, key: string): Option<Slot> {
    if st.keys.Some? && key in st.keys.value then Some(st.keys.value[key]) else None
  }

  /** The channel is the current bucket of its key. */
  predicate Current(st: State, ch: nat)
    requires ch < |st.chans|
  {
    Bucket(st, st.chans[ch].key).Some? && Bucket(st, st.chans[ch].key).value.ch == ch
  }

  // ---------------------------------------------------------------------------
  // Pieces of steps
  // ---------------------------------------------------------------------------

  function Go(st: State, t: nat, next: Thread): State
    requires t < |st.threads|
  {
    st.(threads := st.threads[t := next])
  }

  /** `cfg.New`: a new connection for the caller, or none. */
  function New(st: State, conn: Option<nat>): State {
    if conn.None? then st else st.(place := st.place[conn.value := WithCaller])
  }

  /** Closing a channel; closing it twice panics. */
  function CloseChan(st: State, ch: nat): State
    requires ch < |st.chans|
  {
    if st.chans[ch].closed then st.(panicked := true)
    else st.(chans := st.chans[ch := st.chans[ch].(closed := true)])
  }

  /** Receiving the first connection of a channel, which then is at the given place. */
  function Receive(st: State, ch: nat, to: Place): State
    requires ch < |st.chans| && st.chans[ch].buf != []
  {
    st.(chans := st.chans[ch := st.chans[ch].(buf := st.chans[ch].buf[1..])],
        place := st.place[st.chans[ch].buf[0] := to])
  }

  function DropKey(st: State, key: string): State {
    if st.keys.None? then st else st.(keys := Some(st.keys.value - {key}))
  }

  /** The state with a new bucket for the key. */
  function WithBucket(st: State, key: string): State
    requires st.keys.Some?
  {
    st.(chans := st.chans + [Chan(key, [], false)], keys := Some(st.keys.value[key := Slot(|st.chans|, st.now)]))
  }

  function KeySet(st: State): set<string> { if st.keys.Some? then st.keys.value.Keys else {} }

  predicate Stale(cfg: Config, st: State, job: Job, slot: Slot) {
    job.CloseJob? || slot.lastUse + cfg.staleKeyLifetime <= st.now
  }

  // ---------------------------------------------------------------------------
  // Steps
  // ---------------------------------------------------------------------------

  datatype Action =
    | Get(key: string, made: Option<nat>)
    | GetReceives(usable: bool, lastUse: int)
    | GetGivesUp(made: Option<nat>)
    | DrainOne
    | DrainEnds(made: Option<nat>)
    | Return(key: string, conn: nat)
    | CleanUp
    | Close
    | SweepKey(key: string)
    | EmptyOne
    | EmptyEnds
    | SweepEnds
    | Insert

  datatype Event = Spawn | Tick(later: int) | Act(t: nat, action: Action)

  /** A connection that `cfg.New` may return has never been seen before. */
  predicate FreshConn(st: State, conn: Option<nat>) { conn.None? || conn.value !in st.place }

  predicate Enabled(cfg: Config, st: State, e: Event) {
    match e
    case Spawn => true
    case Tick(later) => later >= st.now
    case Act(t, a) => t < |st.threads| && ActionEnabled(st, st.threads[t], a)
  }

  /** A caller only returns a connection it has; a second `Close` blocks for ever. */
  predicate ActionEnabled(st: State, th: Thread, a: Action) {
    match a
    case Get(_, made) => th.Idle? && st.lock.None? && FreshConn(st, made)
    case GetReceives(_, _) => th.Receiving? && HasConn(st, th.ch)
    case GetGivesUp(made) => th.Receiving? && th.ch < |st.chans| && st.chans[th.ch].buf == [] && FreshConn(st, made)
    case DrainOne => th.Draining? && HasConn(st, th.ch)
    case DrainEnds(made) => th.Draining? && th.ch < |st.chans| && st.chans[th.ch].buf == [] && FreshConn(st, made)
    case Return(_, conn) => th.Idle? && st.lock.None? && conn in st.place && st.place[conn] == WithCaller
    case CleanUp => th.Idle? && st.lock.None?
    case Close => th.Idle? && st.lock.None? && st.keys.Some?
    case SweepKey(key) => th.Sweeping? && key in th.todo
    case EmptyOne => th.Emptying? && HasConn(st, th.ch)
    case EmptyEnds => th.Emptying? && th.ch < |st.chans| && st.chans[th.ch].buf == []
    case SweepEnds => th.Sweeping? && th.todo == {}
    case Insert => th.Inserting?
  }

  predicate HasConn(st: State, ch: nat) { ch < |st.chans| && st.chans[ch].buf != [] }

  /** `Get`, under the lock. */
  function GetStep(cfg: Config, st: State, t: nat, key: string, made: Option<nat>): State
    requires t < |st.threads|
  {
    match Bucket(st, key)
    case None => New(st, made)
    case Some(slot) =>
      if slot.ch >= |st.chans| then st.(panicked := true)
      else if st.now - slot.lastUse > cfg.maxConnLifetime then
        Go(CloseChan(DropKey(st, key), slot.ch), t, Draining(key, slot.ch))
      else Go(st, t, Receiving(key, slot.ch))
  }

  /** The start of `Return`, up to the send. */
  function ReturnStep(cfg: Config, st: State, t: nat, key: string, conn: nat): State
    requires t < |st.threads|
  {
    var st' := st.(returnedUnder := st.returnedUnder[conn := key]);
    if st.keys.None? then st'.(place := st.place[conn := Dropped])
    else
      var locked := st'.(lock := Some(t), place := st.place[conn := InReturn]);
      if Bucket(st, key).None? && |st.keys.value| == cfg.maxKeys
      then Go(locked, t, Sweeping(ReturnJob(key, conn), KeySet(st)))
      else Go(locked, t, Inserting(key, conn))
  }

  /** The end of `Return`: create the bucket if there is none, then send or close the connection. */
  function InsertStep(cfg: Config, st: State, t: nat, key: string, conn: nat): State
    requires t < |st.threads|
  {
    var st1 :=
      if Bucket(st, key).Some? || st.keys.None? then st
      else WithBucket(st, key);
    var unlocked := Go(st1, t, Idle).(lock := None);
    match Bucket(st1, key)
    case None => unlocked.(panicked := true)
    case Some(slot) =>
      // A send on a closed channel panics.
      if slot.ch >= |st1.chans| || st1.chans[slot.ch].closed then unlocked.(panicked := true)
      else if |st1.chans[slot.ch].buf| < cfg.maxConnsPerKey then
        unlocked.(chans := st1.chans[slot.ch := st1.chans[slot.ch].(buf := st1.chans[slot.ch].buf + [conn])],
                  place := st.place[conn := InChannel(slot.ch)])
      else unlocked.(place := st.place[conn := Closed])
  }

  /** One key of a sweep: skip it, or close its channel and start emptying it. */
  function SweepStep(cfg: Config, st: State, t: nat, key: string): State
    requires t < |st.threads| && st.threads[t].Sweeping?
  {
    var job, todo := st.threads[t].job, st.threads[t].todo - {key};
    match Bucket(st, key)
    case None => st.(panicked := true)
    case Some(slot) =>
      if slot.ch >= |st.chans| then st.(panicked := true)
      else if !Stale(cfg, st, job, slot) then Go(st, t, Sweeping(job, todo))
      else
        var st1 := if job.ReturnJob? then DropKey(st, key) else st;
        Go(CloseChan(st1, slot.ch), t, Emptying(job, todo, key, slot.ch))
  }

  /** A received connection is good if it says so, and its own last use is not too long ago. */
  predicate Reusable(cfg: Config, st: State, usable: bool, lastUse: int) {
    usable && !(lastUse + cfg.maxConnLifetime < st.now)
  }

  function Apply(cfg: Config, st: State, e: Event): State
    requires Enabled(cfg, st, e)
  {
    match e
    case Spawn => st.(threads := st.threads + [Idle])
    case Tick(later) => st.(now := later)
    case Act(t, a) => ApplyAction(cfg, st, t, a)
  }

  function ApplyAction(cfg: Config, st: State, t: nat, a: Action): State
    requires t < |st.threads| && ActionEnabled(st, st.threads[t], a)
  {
    var th := st.threads[t];
    match a
    case Get(key, made) => GetStep(cfg, st, t, key, made)
    case GetReceives(usable, lastUse) =>
      if Reusable(cfg, st, usable, lastUse) then Go(Receive(st, th.ch, WithCaller), t, Idle)
      else Receive(st, th.ch, Closed)
    case GetGivesUp(made) => Go(New(st, made), t, Idle)
    case DrainOne => Receive(st, th.ch, Closed)
    case DrainEnds(made) => Go(New(st, made), t, Idle)
    case Return(key, conn) => ReturnStep(cfg, st, t, key, conn)
    case CleanUp => Go(st.(lock := Some(t)), t, Sweeping(CleanUpJob, KeySet(st)))
    case Close => Go(st.(lock := Some(t)), t, Sweeping(CloseJob, KeySet(st)))
    case SweepKey(key) => SweepStep(cfg, st, t, key)
    case EmptyOne => Receive(st, th.ch, Closed)
    case EmptyEnds =>
      Go(if th.job.ReturnJob? then st else DropKey(st, th.key), t, Sweeping(th.job, th.todo))
    case SweepEnds =>
      (match th.job
       case ReturnJob(key, conn) => Go(st, t, Inserting(key, conn))
       case CleanUpJob => Go(st, t, Idle).(lock := None)
       case CloseJob => Go(st, t, Idle).(lock := None, keys := None))
    case Insert => InsertStep(cfg, st, t, th.key, th.conn)
  }

  predicate IsRun(cfg: Config, start: int, events: seq<Event>)
    decreases |events|, 0
  {
    events == [] || (&& IsRun(cfg, start, events[..|events| - 1])
                     && !After(cfg, start, events[..|events| - 1]).panicked
                     && Enabled(cfg, After(cfg, start, events[..|events| - 1]), events[|events| - 1]))
  }

  function After(cfg: Config, start: int, events: seq<Event>): State
    requires IsRun(cfg, start, events)
    decreases |events|, 1
  {
    if events == [] then Initial(start)
    else Apply(cfg, After(cfg, start, events[..|events| - 1]), events[|events| - 1])
  }
}
