/**
 Check states made on demand and brought up to date (internal/msgpipeline/check_runner.go).

 What a check answers, and whether a state can be made for it, is arbitrary. The goroutines of a
 round run in any order; a goroutine's test and its call on the state are one step, because
 nothing it does in between is visible to another.
 */
module CheckRunner {
  import opened Common
  import opened CheckMerging
  import opened CheckCalls
  import opened Dmarc
  import opened DmarcOutcome

  function Seen(seen: map<nat, set<string>>, s: nat): set<string> { if s in seen then seen[s] else {} }

  /** The marks of a state say which recipients it was called for. */
  predicate LogOk(log: seq<Call>, seen: set<string>) {
    && RcptsOnce(log)
    && (forall c :: c in log && c.Rcpt? ==> c.to in seen)
    && (forall to :: to in seen ==> Rcpt(to) in log)
  }

  ghost predicate LogsOk(logs: map<nat, seq<Call>>, seen: map<nat, set<string>>, made: nat) {
    && (forall s :: s in logs ==> s < made && LogOk(logs[s], Seen(seen, s)))
    && (forall s :: s in seen ==> s in logs)
  }

  /** Every check has its own state, which was opened. */
  ghost predicate StatesOk(states: map<nat, nat>, logs: map<nat, seq<Call>>) {
    && (forall c :: c in states ==> states[c] in logs && Opened(logs[states[c]]))
    && (forall c, c' :: c in states && c' in states && c != c' ==> states[c] != states[c'])
  }

  /** The logs after a round, by how often each state takes part in it. */
  ghost predicate RoundOf(before: map<nat, seq<Call>>, later: map<nat, seq<Call>>, call: Call, list: multiset<nat>) {
    later.Keys == before.Keys && forall s :: s in before ==> later[s] == Received(before[s], call, list[s])
  }

  lemma {:induction false} ReceivedOnce(log: seq<Call>, call: Call, times: nat)
    ensures Received(Received(log, call, times), call, 1) == Received(log, call, times + 1)
    ensures Received(log, call, 0) == log
  {}

  /** One goroutine of a round. */
  lemma {:induction false} OneOfRound(
    before: map<nat, seq<Call>>, logs: map<nat, seq<Call>>, later: map<nat, seq<Call>>, call: Call, part: multiset<nat>,
    s: nat)
    requires RoundOf(before, logs, call, part) && s in logs && later == logs[s := Received(logs[s], call, 1)]
    ensures RoundOf(before, later, call, part + multiset{s})
  {
    hide Received;
    ReceivedOnce(before[s], call, part[s]);
  }

  lemma {:induction false} LogsStayOk(
    logs: map<nat, seq<Call>>, seen: map<nat, set<string>>, made: nat, s: nat, call: Call)
    requires LogsOk(logs, seen, made) && s in logs
    ensures
      var seen' := if call.Rcpt? then seen[s := Seen(seen, s) + {call.to}] else seen;
      LogsOk(logs[s := Received(logs[s], call, 1)], seen', made)
  {}

  /** What is merged is the outcome of all rounds so far. */
  ghost predicate Accounted(merged: Merged, rounds: seq<seq<CheckResult>>, schedules: seq<seq<nat>>) {
    && |rounds| == |schedules| && AllComplete(rounds, schedules)
    && merged == Rounds(Merged([], false), rounds, schedules).1
  }

  lemma {:induction false} AccountedOneMore(
    merged: Merged, rounds: seq<seq<CheckResult>>, schedules: seq<seq<nat>>, results: seq<CheckResult>,
    schedule: seq<nat>)
    requires Accounted(merged, rounds, schedules) && Complete(results, schedule)
    ensures |rounds| == |schedules|
    ensures Accounted(Merge(merged, results, schedule).1, rounds + [results], schedules + [schedule])
  {}

  // ---------------------------------------------------------------------------
  // Steps of `checkStates`
  // ---------------------------------------------------------------------------

  /** Nothing that was received is forgotten, and opened states stay opened. */
  ghost predicate Extends(before: map<nat, seq<Call>>, later: map<nat, seq<Call>>) {
    forall s :: s in before ==> s in later && before[s] <= later[s] && (Opened(before[s]) ==> Opened(later[s]))
  }

  /** The logs after the states of the list were shown the recipients. */
  ghost predicate Replayed(
    before: map<nat, seq<Call>>, later: map<nat, seq<Call>>, list: seq<nat>, rcpts: seq<string>)
  {
    later.Keys == before.Keys && forall s :: s in before ==>
      later[s] == if s in list then Replay(before[s], rcpts) else before[s]
  }

  lemma {:induction false} ReplayedOneMore(
    before: map<nat, seq<Call>>, logs: map<nat, seq<Call>>, later: map<nat, seq<Call>>, list: seq<nat>,
    rcpts: seq<string>, n: nat)
    requires n < |rcpts| && Replayed(before, logs, list, rcpts[..n])
      && RoundOf(logs, later, Rcpt(rcpts[n]), multiset(list))
    ensures Replayed(before, later, list, rcpts[..n + 1])
  {
    assert rcpts[..n + 1][..n] == rcpts[..n];
    forall s | s in before ensures later[s] == if s in list then Replay(before[s], rcpts[..n + 1]) else before[s] {
      assert s in list <==> multiset(list)[s] > 0;
    }
  }

  lemma {:induction false} ReplayedExtends(
    before: map<nat, seq<Call>>, later: map<nat, seq<Call>>, list: seq<nat>, rcpts: seq<string>)
    requires Replayed(before, later, list, rcpts) && forall s :: s in before ==> RcptsOnce(before[s])
    ensures Extends(before, later)
  {
    hide Opened, RcptsOnce, Replay;
    forall s | s in before ensures before[s] <= later[s] && (Opened(before[s]) ==> Opened(later[s])) {
      ReplayMeaning(before[s], rcpts);
      if Opened(before[s]) { ReplayKeepsOpened(before[s], rcpts); }
    }
  }

  lemma {:induction false} CountDistinct(list: seq<nat>, s: nat)
    requires Distinct(list)
    ensures multiset(list)[s] == if s in list then 1 else 0
  {
    if list != [] {
      var n := |list| - 1;
      assert list == list[..n] + [list[n]];
      CountDistinct(list[..n], s);
    }
  }

  /** `CheckConnection` and `CheckSender` for new states only. */
  lemma {:induction false} TwoRounds(
    before: map<nat, seq<Call>>, logs: map<nat, seq<Call>>, later: map<nat, seq<Call>>, list: seq<nat>, from: string)
    requires Distinct(list) && (forall s :: s in list ==> s in before && before[s] == [])
    requires RoundOf(before, logs, Connection, multiset(list)) && RoundOf(logs, later, Sender(from), multiset(list))
    ensures later.Keys == before.Keys
    ensures forall s :: s in before ==> later[s] == if s in list then [Connection, Sender(from)] else before[s]
  {
    forall s | s in before ensures later[s] == if s in list then [Connection, Sender(from)] else before[s] {
      CountDistinct(list, s);
      ReceivedOnce(before[s], Connection, 0);
      ReceivedOnce(logs[s], Sender(from), 0);
      assert later[s] == Received(logs[s], Sender(from), multiset(list)[s]);
    }
  }

  /** The states that a message has for a list of checks, and those of them that are new. */
  datatype Made = Made(list: seq<nat>, fresher: seq<nat>, added: map<nat, nat>)

  /** New states have received nothing, and no other state is touched. */
  ghost predicate FreshOk(before: map<nat, seq<Call>>, logs: map<nat, seq<Call>>, m: Made) {
    && (forall s :: s in before ==> s in logs && logs[s] == before[s])
    && Distinct(m.fresher) && (forall s :: s in m.fresher ==> s !in before && s in logs && logs[s] == [] && s in m.list)
    && (forall s :: s in logs ==> s in before || s in m.fresher)
  }

  ghost predicate ListOk(checks: seq<nat>, states: map<nat, nat>, m: Made) {
    |m.list| == |checks| && forall i :: 0 <= i < |checks| ==>
      if checks[i] in states then m.list[i] == states[checks[i]] else m.list[i] in m.fresher && checks[i] in m.added
  }

  ghost predicate AddedOk(checks: seq<nat>, states: map<nat, nat>, m: Made) {
    && (forall c :: c in m.added ==> c in checks && c !in states && m.added[c] in m.fresher)
    && (forall c, c' :: c in m.added && c' in m.added && c != c' ==> m.added[c] != m.added[c'])
  }

  /** With a duplicate-free list of checks, what is listed is what gets installed. */
  ghost predicate Matching(checks: seq<nat>, states: map<nat, nat>, m: Made) {
    |m.list| == |checks| && (Distinct(checks) ==> forall i :: 0 <= i < |checks| && checks[i] !in states ==>
      checks[i] in m.added && m.list[i] == m.added[checks[i]])
  }

  ghost predicate MadeOk(
    checks: seq<nat>, states: map<nat, nat>, before: map<nat, seq<Call>>, logs: map<nat, seq<Call>>, m: Made)
  {
    FreshOk(before, logs, m) && ListOk(checks, states, m) && AddedOk(checks, states, m) && Matching(checks, states, m)
  }

  lemma {:induction false} MadeOneMoreOld(
    checks: seq<nat>, check: nat, states: map<nat, nat>, before: map<nat, seq<Call>>, logs: map<nat, seq<Call>>,
    m: Made)
    requires MadeOk(checks, states, before, logs, m) && check in states
    ensures MadeOk(checks + [check], states, before, logs, m.(list := m.list + [states[check]]))
  {
    if Distinct(checks + [check]) { DistinctPrefix(checks, check); }
  }

  lemma {:induction false} DistinctPrefix(list: seq<nat>, x: nat)
    requires Distinct(list + [x])
    ensures Distinct(list) && x !in list
  {
    var all := list + [x];
    forall i | 0 <= i < |list| ensures list[i] != x { assert all[i] != all[|list|]; }
    forall i, j | 0 <= i < j < |list| ensures list[i] != list[j] { assert all[i] != all[j]; }
  }

  lemma {:induction false} FreshOneMore(
    before: map<nat, seq<Call>>, logs: map<nat, seq<Call>>, m: Made, check: nat, s: nat)
    requires FreshOk(before, logs, m) && s !in logs
    ensures FreshOk(before, logs[s := []], Made(m.list + [s], m.fresher + [s], m.added[check := s]))
    ensures s !in m.fresher
  {}

  lemma {:induction false} ListOneMore(checks: seq<nat>, check: nat, states: map<nat, nat>, m: Made, s: nat)
    requires ListOk(checks, states, m) && check !in states
    ensures ListOk(checks + [check], states, Made(m.list + [s], m.fresher + [s], m.added[check := s]))
  {}

  lemma {:induction false} AddedOneMore(checks: seq<nat>, check: nat, states: map<nat, nat>, m: Made, s: nat)
    requires AddedOk(checks, states, m) && check !in states && s !in m.fresher
    ensures AddedOk(checks + [check], states, Made(m.list + [s], m.fresher + [s], m.added[check := s]))
  {}

  lemma {:induction false} MatchingOneMore(checks: seq<nat>, check: nat, states: map<nat, nat>, m: Made, s: nat)
    requires Matching(checks, states, m)
    ensures Matching(checks + [check], states, Made(m.list + [s], m.fresher + [s], m.added[check := s]))
  {
    if Distinct(checks + [check]) {
      DistinctPrefix(checks, check);
      forall i | 0 <= i < |checks| ensures checks[i] != check { assert checks[i] in checks; }
    }
  }

  lemma {:induction false} MadeOneMoreNew(
    checks: seq<nat>, check: nat, states: map<nat, nat>, before: map<nat, seq<Call>>, logs: map<nat, seq<Call>>,
    m: Made, s: nat)
    requires MadeOk(checks, states, before, logs, m) && check !in states && s !in logs
    ensures MadeOk(checks + [check], states, before, logs[s := []],
      Made(m.list + [s], m.fresher + [s], m.added[check := s]))
  {
    hide FreshOk, ListOk, AddedOk, Matching;
    FreshOneMore(before, logs, m, check, s);
    ListOneMore(checks, check, states, m, s);
    AddedOneMore(checks, check, states, m, s);
    MatchingOneMore(checks, check, states, m, s);
  }

  lemma {:induction false} MadeNone(states: map<nat, nat>, logs: map<nat, seq<Call>>)
    ensures MadeOk([], states, logs, logs, Made([], [], map[]))
  {}

  lemma {:induction false} LogsOkNew(
    logs: map<nat, seq<Call>>, seen: map<nat, set<string>>, states: map<nat, nat>, made: nat)
    requires LogsOk(logs, seen, made) && StatesOk(states, logs)
    ensures made !in logs && LogsOk(logs[made := []], seen, made + 1) && StatesOk(states, logs[made := []])
  {}

  lemma {:induction false} StatesStayOk(states: map<nat, nat>, before: map<nat, seq<Call>>, later: map<nat, seq<Call>>)
    requires StatesOk(states, before) && Extends(before, later)
    ensures StatesOk(states, later)
  {}

  lemma {:induction false} ExtendsTrans(a: map<nat, seq<Call>>, b: map<nat, seq<Call>>, c: map<nat, seq<Call>>)
    requires Extends(a, b) && Extends(b, c)
    ensures Extends(a, c)
  {}

  lemma {:induction false} MadeExtends(
    checks: seq<nat>, states: map<nat, nat>, before: map<nat, seq<Call>>, logs: map<nat, seq<Call>>, m: Made)
    requires MadeOk(checks, states, before, logs, m)
    ensures Extends(before, logs) && forall s :: s in m.fresher ==> s in logs
  {}

  /** A state is installed for every check of the list, and no state that was there changes. */
  ghost predicate StatesGrow(checks: seq<nat>, before: map<nat, nat>, states: map<nat, nat>, list: seq<nat>) {
    && (forall c :: c in states <==> c in before || c in checks)
    && (forall c :: c in before ==> c in states && states[c] == before[c])
    && (forall c :: c in checks ==> c in states && states[c] in list)
    && (Distinct(checks) ==> |list| == |checks| && forall i :: 0 <= i < |checks| ==>
      checks[i] in states && list[i] == states[checks[i]])
  }

  /** A newly installed state was made now, and was opened and shown all recipients so far. */
  ghost predicate NewReplayed(
    before: map<nat, nat>, states: map<nat, nat>, initial: map<nat, seq<Call>>, logs: map<nat, seq<Call>>, from: string,
    rcpts: seq<string>)
  {
    forall c :: c in states && c !in before ==>
      states[c] !in initial && states[c] in logs && logs[states[c]] == Replay([Connection, Sender(from)], rcpts)
  }

  /** A state that existed is shown what it missed, if anything was installed. */
  ghost predicate OldReplayed(
    initial: map<nat, seq<Call>>, logs: map<nat, seq<Call>>, list: seq<nat>, replay: bool, rcpts: seq<string>)
  {
    forall s :: s in initial ==>
      s in logs && logs[s] == if replay && s in list then Replay(initial[s], rcpts) else initial[s]
  }

  /** What a successful `checkStates` has done, in terms of the calls that states received. */
  ghost predicate Installed(
    checks: seq<nat>, before: map<nat, nat>, states: map<nat, nat>, initial: map<nat, seq<Call>>,
    logs: map<nat, seq<Call>>,
    list: seq<nat>, from: string, rcpts: seq<string>)
  {
    && StatesGrow(checks, before, states, list) && (forall s :: s in list ==> s in logs)
    && NewReplayed(before, states, initial, logs, from, rcpts)
    && OldReplayed(initial, logs, list, states != before, rcpts)
  }

  /** The logs once the new states are opened. */
  ghost predicate OpenedNew(logs: map<nat, seq<Call>>, later: map<nat, seq<Call>>, list: seq<nat>, from: string) {
    later.Keys == logs.Keys && forall s :: s in logs ==>
      later[s] == if s in list then [Connection, Sender(from)] else logs[s]
  }

  lemma {:induction false} NothingToInstall(
    checks: seq<nat>, states: map<nat, nat>, initial: map<nat, seq<Call>>, logs: map<nat, seq<Call>>, m: Made,
    from: string, rcpts: seq<string>)
    requires MadeOk(checks, states, initial, logs, m) && m.fresher == [] && StatesOk(states, logs)
    ensures Installed(checks, states, states, initial, logs, m.list, from, rcpts)
  {}

  lemma {:induction false} MadeParts(
    checks: seq<nat>, states: map<nat, nat>, initial: map<nat, seq<Call>>, logs: map<nat, seq<Call>>, m: Made)
    requires MadeOk(checks, states, initial, logs, m) && StatesOk(states, initial)
    ensures Distinct(m.fresher) && (forall s :: s in m.fresher ==> s in logs && logs[s] == [])
      && forall s :: s in m.list ==> s in logs
  {}

  lemma {:induction false} SomethingAdded(
    checks: seq<nat>, states: map<nat, nat>, initial: map<nat, seq<Call>>, logs: map<nat, seq<Call>>, m: Made)
    requires MadeOk(checks, states, initial, logs, m) && StatesOk(states, initial) && m.fresher != []
    ensures states + m.added != states
  {
    hide Opened;
    var s := m.fresher[0];
    assert s in m.fresher && s in m.list;
    var i :| 0 <= i < |m.list| && m.list[i] == s;
    assert checks[i] !in states && checks[i] in states + m.added;
  }

  lemma {:induction false} OpeningExtends(logs: map<nat, seq<Call>>, later: map<nat, seq<Call>>, list: seq<nat>)
    requires later.Keys == logs.Keys && forall s :: s in logs ==>
      if s in list then logs[s] == [] else later[s] == logs[s]
    ensures Extends(logs, later)
  {}

  lemma {:induction false} InstalledOk(
    checks: seq<nat>, states: map<nat, nat>, initial: map<nat, seq<Call>>, made: map<nat, seq<Call>>,
    logs: map<nat, seq<Call>>,
    m: Made, from: string, rcpts: seq<string>)
    requires StatesOk(states, initial) && Extends(initial, logs) && MadeOk(checks, states, initial, made, m)
    requires Installed(checks, states, states + m.added, initial, logs, m.list, from, rcpts)
    ensures StatesOk(states + m.added, logs)
  {
    var states', log := states + m.added, [Connection, Sender(from)];
    hide Opened, Replay, FreshOk, ListOk, Matching;
    assert Opened(log) by { TwoCallsOpen(from); }
    ReplayKeepsOpened(log, rcpts);
    forall c, c' | c in states' && c' in states' && c != c' ensures states'[c] != states'[c'] {
      assert c in states ==> states'[c] == states[c] && states[c] in initial;
      assert c' in states ==> states'[c'] == states[c'] && states[c'] in initial;
      assert c !in states ==> states'[c] == m.added[c] && states'[c] !in initial;
      assert c' !in states ==> states'[c'] == m.added[c'] && states'[c'] !in initial;
    }
  }

  lemma {:induction false} TwoCallsOpen(from: string)
    ensures Opened([Connection, Sender(from)])
  {}

  lemma {:induction false} GrowsBy(
    checks: seq<nat>, states: map<nat, nat>, initial: map<nat, seq<Call>>, made: map<nat, seq<Call>>, m: Made)
    requires MadeOk(checks, states, initial, made, m)
    ensures StatesGrow(checks, states, states + m.added, m.list)
  {}

  lemma {:induction false} InstallsThem(
    checks: seq<nat>, states: map<nat, nat>, initial: map<nat, seq<Call>>, made: map<nat, seq<Call>>,
    ready: map<nat, seq<Call>>,
    logs: map<nat, seq<Call>>, m: Made, from: string, rcpts: seq<string>)
    requires MadeOk(checks, states, initial, made, m) && StatesOk(states, initial) && m.fresher != []
    requires OpenedNew(made, ready, m.fresher, from) && Replayed(ready, logs, m.list, rcpts)
    ensures Installed(checks, states, states + m.added, initial, logs, m.list, from, rcpts)
  {
    hide Opened, Replay, Replayed, OpenedNew, ListOk, Matching, FreshOk, AddedOk, StatesGrow, StatesOk, Distinct,
      NewReplayed, OldReplayed;
    MadeParts(checks, states, initial, made, m);
    SomethingAdded(checks, states, initial, made, m);
    GrowsBy(checks, states, initial, made, m);
    NewOnes(checks, states, initial, made, ready, logs, m, from, rcpts);
    OldOnes(initial, made, ready, logs, m, from, rcpts);
    assert logs.Keys == made.Keys by { SameKeys(made, ready, logs, m.fresher, m.list, from, rcpts); }
  }

  lemma {:induction false} SameKeys(
    made: map<nat, seq<Call>>, ready: map<nat, seq<Call>>, logs: map<nat, seq<Call>>, fresher: seq<nat>, list: seq<nat>,
    from: string, rcpts: seq<string>)
    requires OpenedNew(made, ready, fresher, from) && Replayed(ready, logs, list, rcpts)
    ensures logs.Keys == made.Keys
  {}

  lemma {:induction false} NewOnes(
    checks: seq<nat>, states: map<nat, nat>, initial: map<nat, seq<Call>>, made: map<nat, seq<Call>>,
    ready: map<nat, seq<Call>>,
    logs: map<nat, seq<Call>>, m: Made, from: string, rcpts: seq<string>)
    requires FreshOk(initial, made, m) && AddedOk(checks, states, m)
    requires OpenedNew(made, ready, m.fresher, from) && Replayed(ready, logs, m.list, rcpts)
    ensures NewReplayed(states, states + m.added, initial, logs, from, rcpts)
  {}

  lemma {:induction false} OldOnes(
    initial: map<nat, seq<Call>>, made: map<nat, seq<Call>>, ready: map<nat, seq<Call>>,
    logs: map<nat, seq<Call>>, m: Made, from: string, rcpts: seq<string>)
    requires FreshOk(initial, made, m) && OpenedNew(made, ready, m.fresher, from)
      && Replayed(ready, logs, m.list, rcpts)
    ensures OldReplayed(initial, logs, m.list, true, rcpts)
  {}

  lemma {:induction false} RoundExtends(
    before: map<nat, seq<Call>>, later: map<nat, seq<Call>>, call: Call, list: seq<nat>)
    requires RoundOf(before, later, call, multiset(list)) && (call.Rcpt? || call.Body?)
    ensures Extends(before, later)
    ensures forall s :: s in before && s in list ==> s in later && call in later[s]
  {
    hide Opened, Received, RcptsOnce;
    forall s | s in before
      ensures before[s] <= later[s] && (Opened(before[s]) ==> Opened(later[s])) && (s in list ==> call in later[s])
    {
      ReceivedKeeps(before[s], call, multiset(list)[s]);
      if s in list && call.Body? { BodyReceived(before[s], multiset(list)[s]); }
    }
  }

  lemma {:induction false} StatesHaveLogs(states: map<nat, nat>, logs: map<nat, seq<Call>>)
    requires StatesOk(states, logs)
    ensures forall c :: c in states ==> states[c] in logs
  {}

  /** The round that ends a `checkRcpt` or a `checkBody`. */
  lemma {:induction false} AfterRound(
    initial: map<nat, seq<Call>>, between: map<nat, seq<Call>>, logs: map<nat, seq<Call>>, states: map<nat, nat>,
    call: Call, list: seq<nat>)
    requires Extends(initial, between) && StatesOk(states, between) && RoundOf(between, logs, call, multiset(list))
      && (call.Rcpt? || call.Body?)
    ensures Extends(initial, logs) && StatesOk(states, logs)
    ensures forall s :: s in between ==> s in logs && between[s] <= logs[s] && (s in list ==> call in logs[s])
  {
    hide RoundOf, StatesOk, Opened;
    RoundExtends(between, logs, call, list);
    ExtendsTrans(initial, between, logs);
    StatesStayOk(states, between, logs);
  }

  lemma {:induction false} BodyReceived(log: seq<Call>, times: nat)
    requires times > 0
    ensures Body in Received(log, Body, times)
  {
    assert Received(log, Body, times)[|log|] == Body;
  }

  class Runner {
    var mailFrom: string
    var mailFromReceived: bool
    var checkedRcpts: seq<string>
    var seen: map<nat, set<string>>      // checkedRcptsPerCheck
    var states: map<nat, nat>            // the installed state of each check
    var merged: Merged
    var quarantined: bool                // the flag of the message itself
    var logs: map<nat, seq<Call>>        // the calls that every state made so far has received
    var made: nat
    ghost var rounds: seq<seq<CheckResult>>   // the results of every round so far,
    ghost var schedules: seq<seq<nat>>        // and the order in which they were merged

    ghost predicate Valid()
      reads this
    {
      LogsOk(logs, seen, made) && StatesOk(states, logs) && Accounted(merged, rounds, schedules)
    }

    constructor ()
      ensures Valid() && !mailFromReceived && checkedRcpts == [] && states == map[] && logs == map[]
      ensures merged == Merged([], false) && !quarantined && rounds == []
    {
      mailFrom, mailFromReceived, checkedRcpts, seen, states := "", false, [], map[], map[];
      merged, quarantined, logs, made := Merged([], false), false, map[], 0;
      rounds, schedules := [], [];
    }

    /** What a goroutine does to its state: a recipient that the state has seen is skipped. */
    method CallState(s: nat, call: Call) returns (res: CheckResult)
      requires LogsOk(logs, seen, made) && s in logs
      modifies this`logs, this`seen
      ensures LogsOk(logs, seen, made) && logs == old(logs)[s := Received(old(logs)[s], call, 1)]
    {
      hide Opened, RcptsOnce;
      LogsStayOk(logs, seen, made, s, call);
      assert LogOk(logs[s], Seen(seen, s));
      if call.Rcpt? && call.to in Seen(seen, s) {
        assert s in seen && Seen(seen, s) + {call.to} == seen[s];
        assert seen[s := seen[s]] == seen && logs[s := logs[s]] == logs;
        return CheckResult([], false, false, None);
      }
      assert Received(logs[s], call, 1) == logs[s] + [call];
      if call.Rcpt? { seen := seen[s := Seen(seen, s) + {call.to}]; }
      logs := logs[s := logs[s] + [call]];
      res := *;
    }

    /** The calls of a round, in any order. */
    method CallAll(list: seq<nat>, call: Call) returns (answers: seq<CheckResult>)
      requires LogsOk(logs, seen, made) && forall s :: s in list ==> s in logs
      modifies this`logs, this`seen
      ensures LogsOk(logs, seen, made) && RoundOf(old(logs), logs, call, multiset(list)) && |answers| == |list|
    {
      var left := multiset(list);
      answers := [];
      ghost var part: multiset<nat> := multiset{};
      assert RoundOf(logs, logs, call, part) by {
        forall s | s in logs ensures logs[s] == Received(logs[s], call, 0) { ReceivedOnce(logs[s], call, 0); }
      }
      hide LogsOk, Received;
      while left != multiset{}
        invariant part + left == multiset(list) && |answers| + |left| == |list|
        invariant LogsOk(logs, seen, made) && RoundOf(old(logs), logs, call, part)
        decreases |left|
      {
        var s :| s in left;
        assert s in multiset(list);
        OneOfRound(old(logs), logs, logs[s := Received(logs[s], call, 1)], call, part, s);
        var res := CallState(s, call);
        left, part := left - multiset{s}, part + multiset{s};
        answers := answers + [res];
      }
    }

    /** `runAndMergeResults`. */
    method RunAndMerge(list: seq<nat>, call: Call) returns (err: Option<string>)
      requires LogsOk(logs, seen, made) && Accounted(merged, rounds, schedules) && forall s :: s in list ==> s in logs
      modifies this`logs, this`seen, this`merged, this`rounds, this`schedules
      ensures LogsOk(logs, seen, made) && RoundOf(old(logs), logs, call, multiset(list))
        && Accounted(merged, rounds, schedules)
      ensures |rounds| == |schedules| == |old(rounds)| + 1 && rounds[..|old(rounds)|] == old(rounds)
      ensures |rounds[|old(rounds)|]| == |list|
      ensures (err, merged) == Merge(old(merged), rounds[|old(rounds)|], schedules[|old(rounds)|])
    {
      hide LogsOk, RoundOf, Steps, Merge, Accounted;
      var answers := CallAll(list, call);
      InOrderFinishes(answers, Begin([], |answers|), |answers|);
      assert Complete(answers, InOrder(|answers|));
      var turns :| Complete(answers, turns);
      AccountedOneMore(merged, rounds, schedules, answers, turns);
      var outcome := Merge(merged, answers, turns);
      err, merged := outcome.0, outcome.1;
      rounds, schedules := rounds + [answers], schedules + [turns];
    }

    /** The first loop of `checkStates`; a check may fail to make a state. */
    method MakeStates(checks: seq<nat>) returns (ok: bool, m: Made)
      requires Valid()
      modifies this`logs, this`made
      ensures Valid() && exists n: nat :: n <= |checks| && MadeOk(checks[..n], states, old(logs), logs, m)
      ensures ok ==> MadeOk(checks, states, old(logs), logs, m)
    {
      hide LogsOk, StatesOk, MadeOk, Accounted;
      m := Made([], [], map[]);
      MadeNone(states, logs);
      for i := 0 to |checks|
        invariant Valid() && MadeOk(checks[..i], states, old(logs), logs, m)
      {
        var check := checks[i];
        assert checks[..i + 1] == checks[..i] + [check];
        if check in states {
          MadeOneMoreOld(checks[..i], check, states, old(logs), logs, m);
          m := m.(list := m.list + [states[check]]);
        } else {
          ok := *;
          if !ok { return false, m; }
          LogsOkNew(logs, seen, states, made);
          MadeOneMoreNew(checks[..i], check, states, old(logs), logs, m, made);
          logs := logs[made := []];
          m := Made(m.list + [made], m.fresher + [made], m.added[check := made]);
          made := made + 1;
        }
      }
      ok := true;
      assert checks[..|checks|] == checks;
    }

    /** `CheckConnection` and `CheckSender` for states that were just made. */
    method OpenStates(list: seq<nat>) returns (ok: bool)
      requires LogsOk(logs, seen, made) && Accounted(merged, rounds, schedules)
      requires Distinct(list) && forall s :: s in list ==> s in logs && logs[s] == []
      modifies this`logs, this`seen, this`merged, this`rounds, this`schedules
      ensures LogsOk(logs, seen, made) && Accounted(merged, rounds, schedules) && logs.Keys == old(logs).Keys
      ensures forall s :: s in logs && s !in list ==> logs[s] == old(logs)[s]
      ensures ok ==> forall s :: s in list ==> logs[s] == [Connection, Sender(mailFrom)]
    {
      hide LogsOk, Accounted, Merge, Distinct;
      var err := RunAndMerge(list, Connection);
      ghost var between := logs;
      if err.Some? { return false; }
      err := RunAndMerge(list, Sender(mailFrom));
      TwoRounds(old(logs), between, logs, list, mailFrom);
      ok := err.None?;
    }

    /** Showing the states of the list all recipients checked so far. */
    method ReplayRcpts(list: seq<nat>) returns (ok: bool)
      requires LogsOk(logs, seen, made) && Accounted(merged, rounds, schedules) && forall s :: s in list ==> s in logs
      modifies this`logs, this`seen, this`merged, this`rounds, this`schedules
      ensures LogsOk(logs, seen, made) && Accounted(merged, rounds, schedules) && Extends(old(logs), logs)
      ensures logs.Keys == old(logs).Keys
      ensures ok ==> Replayed(old(logs), logs, list, checkedRcpts)
    {
      assert forall s :: s in logs ==> RcptsOnce(logs[s]) by {
        assert forall s :: s in logs ==> LogOk(logs[s], Seen(seen, s));
      }
      assert Replayed(logs, logs, list, []);
      hide LogsOk, Accounted, Merge, RoundOf, RcptsOnce, Extends;
      for i := 0 to |checkedRcpts|
        invariant LogsOk(logs, seen, made) && Accounted(merged, rounds, schedules)
        invariant Replayed(old(logs), logs, list, checkedRcpts[..i])
      {
        ghost var before := logs;
        var err := RunAndMerge(list, Rcpt(checkedRcpts[i]));
        ReplayedOneMore(old(logs), before, logs, list, checkedRcpts, i);
        if err.Some? {
          ReplayedExtends(old(logs), logs, list, checkedRcpts[..i + 1]);
          return false;
        }
      }
      assert checkedRcpts[..|checkedRcpts|] == checkedRcpts;
      ReplayedExtends(old(logs), logs, list, checkedRcpts);
      ok := true;
    }

    /** `checkStates`. */
    method CheckStates(checks: seq<nat>) returns (ok: bool, list: seq<nat>)
      requires Valid() && mailFromReceived
      modifies this`logs, this`made, this`seen, this`merged, this`rounds, this`schedules, this`states
      ensures Valid() && Extends(old(logs), logs)
      ensures ok ==> Installed(checks, old(states), states, old(logs), logs, list, mailFrom, checkedRcpts)
      ensures !ok ==> states == old(states)
    {
      hide LogsOk, StatesOk, MadeOk, Extends, Accounted, Replayed, Installed;
      var m;
      ok, m := MakeStates(checks);
      ghost var n: nat :| n <= |checks| && MadeOk(checks[..n], states, old(logs), logs, m);
      MadeExtends(checks[..n], states, old(logs), logs, m);
      list := m.list;
      if !ok { return; }
      if m.fresher == [] {
        NothingToInstall(checks, states, old(logs), logs, m, mailFrom, checkedRcpts);
        return;
      }
      ghost var first := logs;
      MadeParts(checks, states, old(logs), logs, m);
      if mailFromReceived {
        ok := OpenStates(m.fresher);
        OpeningExtends(first, logs, m.fresher);
        ExtendsTrans(old(logs), first, logs);
        StatesStayOk(states, old(logs), logs);
        if !ok { return; }
      }
      ghost var second := logs;
      ok := ReplayRcpts(m.list);
      ExtendsTrans(old(logs), second, logs);
      StatesStayOk(states, old(logs), logs);
      if !ok { return; }
      InstallsThem(checks, states, old(logs), first, second, logs, m, mailFrom, checkedRcpts);
      InstalledOk(checks, states, old(logs), first, logs, m, mailFrom, checkedRcpts);
      states := states + m.added;
    }

    /** `checkConnSender`. */
    method CheckConnSender(checks: seq<nat>, from: string) returns (ok: bool, ghost list: seq<nat>)
      requires Valid()
      modifies this
      ensures Valid() && Extends(old(logs), logs) && checkedRcpts == old(checkedRcpts)
        && quarantined == old(quarantined)
      ensures mailFrom == from && mailFromReceived
      ensures ok ==> Installed(checks, old(states), states, old(logs), logs, list, from, checkedRcpts)
      ensures !ok ==> states == old(states)
    {
      hide LogsOk, StatesOk, Extends, Accounted, Installed;
      mailFrom, mailFromReceived := from, true;
      ok, list := CheckStates(checks);
    }

    /**
     `checkRcpt`. Whether the recipient counts as checked depends on the states only: a recipient
     that some check rejects is replayed to states made later, like any other.
     */
    method CheckRcpt(checks: seq<nat>, to: string) returns (ok: bool, ghost ready: bool)
      requires Valid() && mailFromReceived
      modifies this`logs, this`made, this`seen, this`merged, this`rounds, this`schedules, this`states, this`checkedRcpts
      ensures Valid() && Extends(old(logs), logs)
      ensures ok ==> ready
      ensures checkedRcpts == if ready then old(checkedRcpts) + [to] else old(checkedRcpts)
      ensures forall c :: c in old(states) ==> c in states && states[c] == old(states)[c]
      ensures ready ==> forall c :: c in checks ==> c in states && Rcpt(to) in logs[states[c]]
      ensures ready ==> forall c :: c in states && c !in old(states) ==>
        Replay([Connection, Sender(mailFrom)], old(checkedRcpts)) <= logs[states[c]]
    {
      hide LogsOk, StatesOk, Extends, Accounted, RoundOf, Merge, OldReplayed, Replay, Distinct;
      var list;
      ok, list := CheckStates(checks);
      ready := ok;
      if !ok { return; }
      ghost var between := logs;
      assert forall c :: c in states ==> states[c] in logs by { StatesHaveLogs(states, logs); }
      var err := RunAndMerge(list, Rcpt(to));
      AfterRound(old(logs), between, logs, states, Rcpt(to), list);
      checkedRcpts := checkedRcpts + [to];
      ok := err.None?;
    }

    /** `checkBody`, without the start of the DMARC lookup. */
    method CheckBody(checks: seq<nat>) returns (ok: bool, ghost ready: bool)
      requires Valid() && mailFromReceived
      modifies this`logs, this`made, this`seen, this`merged, this`rounds, this`schedules, this`states
      ensures Valid() && Extends(old(logs), logs)
      ensures ok ==> ready
      ensures forall c :: c in old(states) ==> c in states && states[c] == old(states)[c]
      ensures ready ==> forall c :: c in checks ==> c in states && Body in logs[states[c]]
      ensures ready ==> forall c :: c in states && c !in old(states) ==>
        Replay([Connection, Sender(mailFrom)], checkedRcpts) <= logs[states[c]]
    {
      hide LogsOk, StatesOk, Extends, Accounted, RoundOf, Merge, OldReplayed, Replay, Distinct;
      var list;
      ok, list := CheckStates(checks);
      ready := ok;
      if !ok { return; }
      ghost var between := logs;
      assert forall c :: c in states ==> states[c] in logs by { StatesHaveLogs(states, logs); }
      var err := RunAndMerge(list, Body);
      AfterRound(old(logs), between, logs, states, Body, list);
      ok := err.None?;
    }

    /** `applyResults`, up to the header fields it adds; `dmarc` is what the policy lookup found. */
    method ApplyResults(d: Domains, dmarc: Option<Fetched>, draw: int) returns (refused: Option<int>)
      modifies this`quarantined, this`merged
      ensures refused == Dispose(d, dmarc, draw, old(merged)).refused
      ensures quarantined == (old(quarantined) || Dispose(d, dmarc, draw, old(merged)).quarantine)
      ensures merged.quarantine == old(merged).quarantine
      ensures merged.auth == old(merged).auth + Reported(d, dmarc, draw, old(merged).auth)
    {
      hide ApplyPolicy;
      if merged.quarantine { quarantined := true; }
      refused := None;
      if dmarc.Some? {
        var value, policy := Apply(d, dmarc.value, draw, merged.auth);
        merged := merged.(auth := merged.auth + [DmarcResult(value)]);
        if policy == RejectMail {
          refused := Some(if value == TempError then 450 else 550);
        } else if policy == QuarantineMail {
          quarantined := true;
        }
      }
    }
  }

  /**
   Two runs in which every round has the same results, delivered and merged in any two orders, come
   to the same end.
   */
  lemma {:induction false} RunnersAgree(a: Runner, b: Runner, d: Domains, dmarc: Option<Fetched>, draw: int)
    requires a.Valid() && b.Valid() && SameRounds(a.rounds, b.rounds)
    requires forall i :: 0 <= i < |a.rounds| ==> Reasoned(a.rounds[i])
    requires OneSpfProduced(Merged([], false), a.rounds)
    ensures Dispose(d, dmarc, draw, a.merged) == Dispose(d, dmarc, draw, b.merged)
  {
    hide Rounds, AllComplete, Reasoned, OneSpfProduced, Dispose, LogsOk, StatesOk;
    OutcomeIgnoresSchedules(d, dmarc, draw, Merged([], false), a.rounds, b.rounds, a.schedules, b.schedules);
  }
}
