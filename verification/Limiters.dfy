/**
 The keyed bucket set and the token bucket (internal/limits/limiters/bucket.go and rate.go).
 */
module Limiters {
  import opened Common

  // ---------------------------------------------------------------------------
  // BucketSet
  // ---------------------------------------------------------------------------

  /** A limiter, identified by a number, and the time its bucket was last used. */
  datatype Bucket = Bucket(limiter: nat, lastUse: int)

  /** The map of buckets, with times read from a clock that never runs backwards. */
  class BucketSet {
    const reapInterval: nat
    const maxBuckets: nat
    var m: map<string, Bucket>
    var nextLimiter: nat
    ghost var clock: int

    ghost predicate Valid()
      reads this
    {
      && (forall k :: k in m ==> m[k].lastUse <= clock && m[k].limiter < nextLimiter)
      && (forall k, l :: k in m && l in m && k != l ==> m[k].limiter != m[l].limiter)
    }

    constructor (reapInterval: nat, maxBuckets: nat, now: int)
      ensures Valid() && m == map[] && clock == now
      ensures this.reapInterval == reapInterval && this.maxBuckets == maxBuckets
    {
      this.reapInterval, this.maxBuckets := reapInterval, maxBuckets;
      m := map[];
      nextLimiter := 0;
      clock := now;
    }

    /**
     The search for stale buckets compares the times the wrong way round: with a clock that does
     not run backwards it never drops a bucket.
     */
    method DropStale(now: int)
      requires Valid() && clock <= now
      modifies this`m
      ensures m == old(m)
    {
      var stale := set k | k in m && m[k].lastUse - now > reapInterval;
      assert stale == {};
      m := m - stale;
    }

    /**
     `take`: the limiter of a key, created on first use; nothing when the set is over-full. A
     key keeps its limiter, and an over-full set stays over-full.
     */
    method Take(key: string, now: int) returns (r: Option<nat>)
      requires Valid() && clock <= now
      modifies this
      ensures Valid() && clock == now
      ensures old(|m|) > maxBuckets ==> r == None && m == old(m)
      ensures old(|m|) <= maxBuckets ==>
                && r.Some? && m == old(m)[key := Bucket(r.value, now)]
                && r.value == if key in old(m) then old(m)[key].limiter else old(nextLimiter)
    {
      if |m| > maxBuckets {
        DropStale(now);
        if |m| > maxBuckets {
          clock := now;
          return None;
        }
      }
      clock := now;
      if key !in m {
        m := m[key := Bucket(nextLimiter, now)];
        nextLimiter := nextLimiter + 1;
      }
      m := m[key := m[key].(lastUse := now)];
      return Some(m[key].limiter);
    }
  }

  // ---------------------------------------------------------------------------
  // Rate
  // ---------------------------------------------------------------------------

  /** The refill goroutine: waiting for the timer, about to add the `i`-th token of a round, or gone. */
  datatype Filler = Waiting | Filling(i: nat) | Stopped

  /** Tokens in the channel, the channel's closed flag and the flag of the `stop` channel. */
  datatype RateState = RateState(tokens: nat, closed: bool, stopping: bool, filler: Filler)

  datatype RateStep =
    | TakeOk      // a taker receives a token
    | TakeClosed  // a taker finds the channel closed and empty
    | Tick        // the timer fires and a refill round begins
    | Put         // one token is added
    | RoundFull   // the bucket is full, the round ends early
    | RoundDone   // the round ends
    | Close       // `Close`
    | Stop        // the refill goroutine notices `Close` and closes the channel

  function Fresh(burst: nat): RateState { RateState(burst, false, false, Waiting) }

  predicate RateEnabled(burst: nat, r: RateState, step: RateStep) {
    match step
    case TakeOk => r.tokens > 0
    case TakeClosed => r.closed && r.tokens == 0
    case Tick => r.filler.Waiting?
    case Put => r.filler.Filling? && r.filler.i < burst && r.tokens < burst
    case RoundFull => r.filler.Filling? && r.filler.i < burst && r.tokens >= burst
    case RoundDone => r.filler.Filling? && r.filler.i >= burst
    case Close => !r.stopping
    case Stop => r.filler.Waiting? && r.stopping
  }

  function RateApply(burst: nat, r: RateState, step: RateStep): RateState
    requires RateEnabled(burst, r, step)
  {
    match step
    case TakeOk => r.(tokens := r.tokens - 1)
    case TakeClosed => r
    case Tick => r.(filler := Filling(0))
    case Put => r.(tokens := r.tokens + 1, filler := Filling(r.filler.i + 1))
    case RoundFull => r.(filler := Waiting)
    case RoundDone => r.(filler := Waiting)
    case Close => r.(stopping := true)
    case Stop => r.(closed := true, filler := Stopped)
  }

  predicate RateRun(burst: nat, r: RateState, steps: seq<RateStep>)
    decreases |steps|
  {
    steps == [] || (RateEnabled(burst, r, steps[0]) && RateRun(burst, RateApply(burst, r, steps[0]), steps[1..]))
  }

  function RateAfter(burst: nat, r: RateState, steps: seq<RateStep>): RateState
    requires RateRun(burst, r, steps)
    decreases |steps|
  {
    if steps == [] then r else RateAfter(burst, RateApply(burst, r, steps[0]), steps[1..])
  }

  /** How often a step occurs. */
  function Count(steps: seq<RateStep>, which: RateStep): nat {
    if steps == [] then 0 else (if steps[0] == which then 1 else 0) + Count(steps[1..], which)
  }

  /** Never more than `burst` tokens, and a round in progress has added at most that many. */
  predicate RateOk(burst: nat, r: RateState) {
    r.tokens <= burst && (r.filler.Filling? ==> r.filler.i <= burst)
  }

  lemma {:induction false} RateStaysOk(burst: nat, r: RateState, steps: seq<RateStep>)
    requires RateOk(burst, r) && RateRun(burst, r, steps)
    ensures RateOk(burst, RateAfter(burst, r, steps))
    decreases |steps|
  {
    if steps != [] {
      RateStaysOk(burst, RateApply(burst, r, steps[0]), steps[1..]);
    }
  }

  /** In every run the bucket holds at most `burst` tokens. */
  lemma {:induction false} NeverOverfull(burst: nat, steps: seq<RateStep>)
    requires burst > 0 && RateRun(burst, Fresh(burst), steps)
    ensures RateAfter(burst, Fresh(burst), steps).tokens <= burst
  {
    RateStaysOk(burst, Fresh(burst), steps);
  }

  /** Refill rounds that overlap a stretch: one already in progress, and those that begin in it. */
  function Rounds(r: RateState, steps: seq<RateStep>): nat {
    (if r.filler.Filling? then 1 else 0) + Count(steps, Tick)
  }

  /** Tokens that the rounds overlapping the stretch can still add. */
  function Budget(burst: nat, r: RateState, steps: seq<RateStep>): int {
    burst * Count(steps, Tick) + (if r.filler.Filling? then burst - r.filler.i else 0)
  }

  lemma {:induction false} TakesBounded(burst: nat, r: RateState, steps: seq<RateStep>)
    requires RateOk(burst, r) && RateRun(burst, r, steps)
    ensures Count(steps, TakeOk) <= r.tokens + Budget(burst, r, steps)
    decreases |steps|
  {
    if steps != [] {
      var r' := RateApply(burst, r, steps[0]);
      TakesBounded(burst, r', steps[1..]);
      var n := Count(steps[1..], Tick);
      if steps[0] == Tick {
        assert burst * (1 + n) == burst + burst * n;
      }
    } else {
      assert burst * 0 == 0;
    }
  }

  /**
   In any stretch of any run that overlaps `k` refill rounds, at most `burst * (k + 1)` takes
   succeed, whatever the interleaving of takers, timer and `Close`.
   */
  lemma {:induction false} RateLimitsTakes(burst: nat, before: seq<RateStep>, stretch: seq<RateStep>)
    requires burst > 0 && RateRun(burst, Fresh(burst), before)
    requires RateRun(burst, RateAfter(burst, Fresh(burst), before), stretch)
    ensures var r := RateAfter(burst, Fresh(burst), before);
            Count(stretch, TakeOk) <= burst * (Rounds(r, stretch) + 1)
  {
    var r := RateAfter(burst, Fresh(burst), before);
    RateStaysOk(burst, Fresh(burst), before);
    TakesBounded(burst, r, stretch);
    var n := Count(stretch, Tick);
    assert burst * (n + 1) == burst * n + burst;
    assert burst * (n + 2) == burst * n + burst + burst;
  }

  /** The bound is reached: after `k` full rounds, all `burst * (k + 1)` tokens can be taken. */
  function Drain(n: nat): seq<RateStep> { if n == 0 then [] else [TakeOk] + Drain(n - 1) }

  function Refill(n: nat): seq<RateStep> { if n == 0 then [] else [Put] + Refill(n - 1) }

  function Cycles(burst: nat, k: nat): seq<RateStep> {
    if k == 0 then Drain(burst)
    else Drain(burst) + (Round(burst) + Cycles(burst, k - 1))
  }

  lemma {:induction false} RunConcat(burst: nat, r: RateState, a: seq<RateStep>, b: seq<RateStep>)
    requires RateRun(burst, r, a) && RateRun(burst, RateAfter(burst, r, a), b)
    ensures RateRun(burst, r, a + b) && RateAfter(burst, r, a + b) == RateAfter(burst, RateAfter(burst, r, a), b)
    decreases |a|
  {
    if a == [] {
      assert a + b == b;
    } else {
      assert (a + b)[1..] == a[1..] + b;
      RunConcat(burst, RateApply(burst, r, a[0]), a[1..], b);
    }
  }

  lemma {:induction false} CountConcat(a: seq<RateStep>, b: seq<RateStep>, which: RateStep)
    ensures Count(a + b, which) == Count(a, which) + Count(b, which)
  {
    if a == [] {
      assert a + b == b;
    } else {
      assert (a + b)[1..] == a[1..] + b;
      CountConcat(a[1..], b, which);
    }
  }

  lemma {:induction false} DrainRuns(burst: nat, r: RateState, n: nat)
    requires r.tokens >= n
    ensures RateRun(burst, r, Drain(n)) && RateAfter(burst, r, Drain(n)) == r.(tokens := r.tokens - n)
    ensures Count(Drain(n), TakeOk) == n && Count(Drain(n), Tick) == 0
    decreases n
  {
    if n > 0 {
      DrainRuns(burst, r.(tokens := r.tokens - 1), n - 1);
      assert Drain(n)[1..] == Drain(n - 1);
    }
  }

  lemma {:induction false} RefillRuns(burst: nat, r: RateState, n: nat)
    requires r.filler.Filling? && r.filler.i + n == burst && r.tokens + n <= burst
    ensures RateRun(burst, r, Refill(n))
    ensures RateAfter(burst, r, Refill(n)) == r.(tokens := r.tokens + n, filler := Filling(burst))
    ensures Count(Refill(n), TakeOk) == 0 && Count(Refill(n), Tick) == 0
    decreases n
  {
    if n > 0 {
      RefillRuns(burst, r.(tokens := r.tokens + 1, filler := Filling(r.filler.i + 1)), n - 1);
      assert Refill(n)[1..] == Refill(n - 1);
    }
  }

  /** One round from an empty bucket: the timer fires, `burst` tokens are added, the round ends. */
  function Round(burst: nat): seq<RateStep> { [Tick] + (Refill(burst) + [RoundDone]) }

  lemma {:induction false} RoundRuns(burst: nat, r: RateState)
    requires r.tokens == 0 && r.filler.Waiting?
    ensures RateRun(burst, r, Round(burst)) && RateAfter(burst, r, Round(burst)) == r.(tokens := burst)
    ensures Count(Round(burst), TakeOk) == 0 && Count(Round(burst), Tick) == 1
  {
    var r1 := r.(filler := Filling(0));
    RefillRuns(burst, r1, burst);
    var end: seq<RateStep> := [RoundDone];
    var r2 := RateAfter(burst, r1, Refill(burst));
    assert end[1..] == [] && RateRun(burst, r2, end);
    RunConcat(burst, r1, Refill(burst), end);
    CountConcat(Refill(burst), end, TakeOk);
    CountConcat(Refill(burst), end, Tick);
    assert Round(burst)[1..] == Refill(burst) + end;
  }

  lemma {:induction false} BoundIsReached(burst: nat, r: RateState, k: nat)
    requires r.tokens == burst && r.filler.Waiting?
    ensures RateRun(burst, r, Cycles(burst, k))
    ensures Count(Cycles(burst, k), Tick) == k && Count(Cycles(burst, k), TakeOk) == burst * (k + 1)
  {
    hide RateRun, RateAfter, Count, Drain, Round;
    DrainRuns(burst, r, burst);
    var empty := r.(tokens := 0);
    if k > 0 {
      var rest := Cycles(burst, k - 1);
      RoundRuns(burst, empty);
      BoundIsReached(burst, r, k - 1);
      RunConcat(burst, empty, Round(burst), rest);
      RunConcat(burst, r, Drain(burst), Round(burst) + rest);
      CountConcat(Round(burst), rest, TakeOk);
      CountConcat(Round(burst), rest, Tick);
      CountConcat(Drain(burst), Round(burst) + rest, TakeOk);
      CountConcat(Drain(burst), Round(burst) + rest, Tick);
      assert burst * (k + 1) == burst * k + burst;
    }
  }

  // ---------------------------------------------------------------------------
  // Close
  // ---------------------------------------------------------------------------

  /** Tokens are conserved, and the flags say which of `Close` and its effect have happened. */
  lemma {:induction false} FlagsAndTokens(burst: nat, r: RateState, steps: seq<RateStep>)
    requires RateRun(burst, r, steps)
    ensures
      var r' := RateAfter(burst, r, steps);
      && r'.tokens == r.tokens + Count(steps, Put) - Count(steps, TakeOk)
      && (r'.closed <==> r.closed || Count(steps, Stop) > 0)
      && (r'.stopping <==> r.stopping || Count(steps, Close) > 0)
    decreases |steps|
  {
    if steps != [] { FlagsAndTokens(burst, RateApply(burst, r, steps[0]), steps[1..]); }
  }

  /** Once the refill goroutine has gone, nothing is added any more. */
  lemma {:induction false} NothingAdded(burst: nat, r: RateState, steps: seq<RateStep>)
    requires r.filler.Stopped? && RateRun(burst, r, steps)
    ensures RateAfter(burst, r, steps).filler.Stopped? && Count(steps, Put) == 0
    decreases |steps|
  {
    if steps != [] { NothingAdded(burst, RateApply(burst, r, steps[0]), steps[1..]); }
  }

  /** The channel is closed by the refill goroutine as it goes, and only after `Close`. */
  lemma {:induction false} ClosedIsStopped(burst: nat, r: RateState, steps: seq<RateStep>)
    requires RateRun(burst, r, steps) && (r.closed <==> r.filler.Stopped?) && (r.closed ==> r.stopping)
    ensures var r' := RateAfter(burst, r, steps);
            (r'.closed <==> r'.filler.Stopped?) && (r'.closed ==> r'.stopping)
    decreases |steps|
  {
    if steps != [] { ClosedIsStopped(burst, RateApply(burst, r, steps[0]), steps[1..]); }
  }

  /**
   `Close` is described as making waiting takes fail. In any run: takes fail only after `Close`; after the refill
   goroutine has noticed it, as many takes as there are tokens left still succeed and no more, and then every
   take fails at once.
   */
  lemma {:induction false} CloseEndsTakes(burst: nat, before: seq<RateStep>, later: seq<RateStep>)
    requires RateRun(burst, Fresh(burst), before)
    requires RateRun(burst, RateAfter(burst, Fresh(burst), before), later)
    ensures
      var r := RateAfter(burst, Fresh(burst), before);
      var r' := RateAfter(burst, r, later);
      && (RateEnabled(burst, r, TakeClosed) ==> Count(before, Close) > 0)
      && (Count(before, Stop) > 0 ==>
            && Count(later, TakeOk) <= r.tokens && r'.tokens == r.tokens - Count(later, TakeOk)
            && (RateEnabled(burst, r', TakeOk) <==> Count(later, TakeOk) < r.tokens)
            && (RateEnabled(burst, r', TakeClosed) <==> Count(later, TakeOk) == r.tokens))
  {
    var r := RateAfter(burst, Fresh(burst), before);
    FlagsAndTokens(burst, Fresh(burst), before);
    FlagsAndTokens(burst, r, later);
    ClosedIsStopped(burst, Fresh(burst), before);
    if Count(before, Stop) > 0 { NothingAdded(burst, r, later); }
  }
}
