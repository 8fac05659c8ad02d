/**
 Merging the results of checks that run side by side
 (internal/msgpipeline/check_runner.go:161-237).

 Every check has a goroutine of its own, which first appends its authentication results and then
 claims the quarantine or the reject slot; a slot belongs to the first goroutine that claims it.
 A schedule says whose turn it is; a goroutine that has finished lets its turn pass.
 */
module CheckMerging {
  import opened Common

  datatype Value = Unset | NoneValue | Pass | Fail | SoftFail | Neutral | TempError | PermError | Policy

  datatype AuthResult =
    | Dkim(value: Value, domain: string)
    | Spf(value: Value, from: string, helo: string)
    | DmarcResult(value: Value)
    | Other(name: string)

  datatype CheckResult = CheckResult(auth: seq<AuthResult>, quarantine: bool, reject: bool, reason: Option<string>)

  /** What the runner has merged so far for the message. */
  datatype Merged = Merged(auth: seq<AuthResult>, quarantine: bool)

  datatype Progress = Ran | Appended | Finished

  /** A slot is a `sync.Once` with the reason it stored; the reason may be missing. */
  datatype Round = Round(
    auth: seq<AuthResult>, quarantined: Option<Option<string>>, rejected: Option<Option<string>>, at: seq<Progress>)

  datatype Slot = QuarantineSlot | RejectSlot

  /** A result that asks for both is quarantined. */
  predicate Claims(which: Slot, r: CheckResult) {
    match which
    case QuarantineSlot => r.quarantine
    case RejectSlot => r.reject && !r.quarantine
  }

  function Begin(auth: seq<AuthResult>, n: nat): Round { Round(auth, None, None, seq(n, _ => Ran)) }

  function Claim(slot: Option<Option<string>>, reason: Option<string>): Option<Option<string>> {
    if slot.None? then Some(reason) else slot
  }

  function Step(results: seq<CheckResult>, m: Round, g: nat): Round {
    if g >= |results| || g >= |m.at| then m
    else
      var r := results[g];
      match m.at[g]
      case Ran => m.(auth := m.auth + r.auth, at := m.at[g := Appended])
      case Appended =>
        m.(quarantined := if Claims(QuarantineSlot, r) then Claim(m.quarantined, r.reason) else m.quarantined,
           rejected := if Claims(RejectSlot, r) then Claim(m.rejected, r.reason) else m.rejected,
           at := m.at[g := Finished])
      case Finished => m
  }

  function Steps(results: seq<CheckResult>, m: Round, schedule: seq<nat>): Round {
    if schedule == [] then m else Step(results, Steps(results, m, schedule[..|schedule| - 1]), schedule[|schedule| - 1])
  }

  predicate AllFinished(m: Round) { forall g :: 0 <= g < |m.at| ==> m.at[g] == Finished }

  /** A schedule under which every goroutine gets to finish. */
  predicate Complete(results: seq<CheckResult>, schedule: seq<nat>) {
    AllFinished(Steps(results, Begin([], |results|), schedule))
  }

  /** `runAndMergeResults`: the error it returns, and what is merged afterwards. */
  function Merge(before: Merged, results: seq<CheckResult>, schedule: seq<nat>): (Option<string>, Merged) {
    var m := Steps(results, Begin(before.auth, |results|), schedule);
    if m.rejected.Some? && m.rejected.value.Some? then (m.rejected.value, before.(auth := m.auth))
    else (None, Merged(m.auth, before.quarantine || (m.quarantined.Some? && m.quarantined.value.Some?)))
  }

  // ---------------------------------------------------------------------------
  // What every schedule keeps
  // ---------------------------------------------------------------------------

  /** All the authentication results of those goroutines that have appended theirs. */
  function Contributed(results: seq<CheckResult>, at: seq<Progress>): multiset<AuthResult>
    requires |at| == |results|
  {
    if results == [] then multiset{}
    else Contributed(results[..|results| - 1], at[..|at| - 1]) +
         (if at[|at| - 1].Ran? then multiset{} else multiset(results[|results| - 1].auth))
  }

  lemma {:induction false} ContributedGrows(results: seq<CheckResult>, at: seq<Progress>, g: nat, p: Progress)
    requires |at| == |results| && g < |at| && !p.Ran?
    ensures Contributed(results, at[g := p]) ==
      Contributed(results, at) + (if at[g].Ran? then multiset(results[g].auth) else multiset{})
  {
    var n := |results| - 1;
    if g < n {
      ContributedGrows(results[..n], at[..n], g, p);
      assert at[g := p][..n] == at[..n][g := p];
    } else {
      assert at[g := p][..n] == at[..n];
    }
  }

  lemma {:induction false} NothingContributed(results: seq<CheckResult>)
    ensures Contributed(results, seq(|results|, _ => Ran)) == multiset{}
  {
    if results != [] {
      NothingContributed(results[..|results| - 1]);
      assert seq(|results|, _ => Ran)[..|results| - 1] == seq(|results| - 1, _ => Ran);
    }
  }

  /** A slot is claimed once one of its claimants has finished, and holds a claimant's reason. */
  ghost predicate SlotOk(results: seq<CheckResult>, at: seq<Progress>, slot: Option<Option<string>>, which: Slot)
    requires |at| == |results|
  {
    && (slot.None? ==> forall g :: 0 <= g < |at| && at[g].Finished? ==> !Claims(which, results[g]))
    && (slot.Some? ==>
      exists g :: 0 <= g < |at| && at[g].Finished? && Claims(which, results[g]) && results[g].reason == slot.value)
  }

  ghost predicate RoundOk(auth: seq<AuthResult>, results: seq<CheckResult>, m: Round) {
    && |m.at| == |results|
    && multiset(m.auth) == multiset(auth) + Contributed(results, m.at)
    && SlotOk(results, m.at, m.quarantined, QuarantineSlot)
    && SlotOk(results, m.at, m.rejected, RejectSlot)
  }

  lemma {:induction false} ClaimKeeps(
    results: seq<CheckResult>, at: seq<Progress>, slot: Option<Option<string>>, which: Slot, g: nat)
    requires |at| == |results| && g < |at| && at[g].Appended? && SlotOk(results, at, slot, which)
    ensures
      var slot' := if Claims(which, results[g]) then Claim(slot, results[g].reason) else slot;
      SlotOk(results, at[g := Finished], slot', which)
  {}

  lemma {:induction false} AppendKeeps(
    results: seq<CheckResult>, at: seq<Progress>, slot: Option<Option<string>>, which: Slot, g: nat)
    requires |at| == |results| && g < |at| && at[g].Ran? && SlotOk(results, at, slot, which)
    ensures SlotOk(results, at[g := Appended], slot, which)
  {}

  lemma {:induction false} StepKeeps(auth: seq<AuthResult>, results: seq<CheckResult>, m: Round, g: nat)
    requires RoundOk(auth, results, m)
    ensures RoundOk(auth, results, Step(results, m, g))
  {
    hide SlotOk, Contributed;
    if g < |results| {
      if m.at[g].Ran? {
        AppendKeeps(results, m.at, m.quarantined, QuarantineSlot, g);
        AppendKeeps(results, m.at, m.rejected, RejectSlot, g);
        ContributedGrows(results, m.at, g, Appended);
        assert multiset(m.auth + results[g].auth) == multiset(m.auth) + multiset(results[g].auth);
      } else if m.at[g].Appended? {
        ClaimKeeps(results, m.at, m.quarantined, QuarantineSlot, g);
        ClaimKeeps(results, m.at, m.rejected, RejectSlot, g);
        ContributedGrows(results, m.at, g, Finished);
      }
    }
  }

  lemma {:induction false} StepsKeep(auth: seq<AuthResult>, results: seq<CheckResult>, schedule: seq<nat>)
    ensures RoundOk(auth, results, Steps(results, Begin(auth, |results|), schedule))
  {
    if schedule == [] {
      NothingContributed(results);
    } else {
      hide RoundOk, Step;
      StepsKeep(auth, results, schedule[..|schedule| - 1]);
      var before := Steps(results, Begin(auth, |results|), schedule[..|schedule| - 1]);
      StepKeeps(auth, results, before, schedule[|schedule| - 1]);
    }
  }

  /** Only the merged results depend on what was merged before the round. */
  lemma {:induction false} SameProgress(
    auth: seq<AuthResult>, auth': seq<AuthResult>, results: seq<CheckResult>, schedule: seq<nat>)
    ensures
      var m, m' := Steps(results, Begin(auth, |results|), schedule), Steps(results, Begin(auth', |results|), schedule);
      m.at == m'.at && m.quarantined == m'.quarantined && m.rejected == m'.rejected
  {
    if schedule != [] { SameProgress(auth, auth', results, schedule[..|schedule| - 1]); }
  }

  // ---------------------------------------------------------------------------
  // Independence from the schedule
  // ---------------------------------------------------------------------------

  function AllAuth(results: seq<CheckResult>): multiset<AuthResult> {
    if results == [] then multiset{} else AllAuth(results[..|results| - 1]) + multiset(results[|results| - 1].auth)
  }

  lemma {:induction false} AllContributed(results: seq<CheckResult>, at: seq<Progress>)
    requires |at| == |results| && forall g :: 0 <= g < |at| ==> at[g] == Finished
    ensures Contributed(results, at) == AllAuth(results)
  {
    if results != [] { AllContributed(results[..|results| - 1], at[..|at| - 1]); }
  }

  /** Of those results that claim a slot, all carry a reason or none does. */
  ghost predicate Uniform(results: seq<CheckResult>, which: Slot) {
    forall r, r' :: r in results && r' in results && Claims(which, r) && Claims(which, r') ==>
      r.reason.Some? == r'.reason.Some?
  }

  ghost predicate Effective(results: seq<CheckResult>, which: Slot) {
    exists r :: r in results && Claims(which, r) && r.reason.Some?
  }

  /** A slot, at the end of a round, takes effect for exactly the reasons below. */
  lemma {:induction false} SlotAtEnd(
    results: seq<CheckResult>, at: seq<Progress>, slot: Option<Option<string>>, which: Slot)
    requires |at| == |results| && SlotOk(results, at, slot, which) && forall g :: 0 <= g < |at| ==> at[g] == Finished
    ensures slot.Some? && slot.value.Some? ==> Effective(results, which)
    ensures Uniform(results, which) && Effective(results, which) ==> slot.Some? && slot.value.Some?
  {}

  /** Rejection is settled, or the round cannot be rejected and quarantine is settled. */
  ghost predicate Settled(before: Merged, results: seq<CheckResult>) {
    && Uniform(results, RejectSlot)
    && (Effective(results, RejectSlot) || before.quarantine || Uniform(results, QuarantineSlot))
  }

  /** What a settled round comes to, said without any schedule. */
  ghost predicate MergesTo(before: Merged, results: seq<CheckResult>, err: Option<string>, merged: Merged) {
    && multiset(merged.auth) == multiset(before.auth) + AllAuth(results)
    && (err.Some? <==> Effective(results, RejectSlot))
    && (merged.quarantine <==> before.quarantine || (err.None? && Effective(results, QuarantineSlot)))
  }

  lemma {:induction false} AtEnd(before: Merged, results: seq<CheckResult>, schedule: seq<nat>)
    requires Complete(results, schedule)
    ensures
      var m := Steps(results, Begin(before.auth, |results|), schedule);
      && multiset(m.auth) == multiset(before.auth) + AllAuth(results)
      && |m.at| == |results| && (forall g :: 0 <= g < |m.at| ==> m.at[g] == Finished)
      && SlotOk(results, m.at, m.quarantined, QuarantineSlot) && SlotOk(results, m.at, m.rejected, RejectSlot)
  {
    hide SlotOk, Steps, Contributed;
    var m := Steps(results, Begin(before.auth, |results|), schedule);
    StepsKeep(before.auth, results, schedule);
    SameProgress(before.auth, [], results, schedule);
    assert AllFinished(m);
    AllContributed(results, m.at);
  }

  lemma {:induction false} SettledMerges(before: Merged, results: seq<CheckResult>, schedule: seq<nat>)
    requires Complete(results, schedule) && Settled(before, results)
    ensures MergesTo(before, results, Merge(before, results, schedule).0, Merge(before, results, schedule).1)
  {
    hide SlotOk, Steps, Uniform, Effective, AllAuth, Complete;
    AtEnd(before, results, schedule);
    var m := Steps(results, Begin(before.auth, |results|), schedule);
    SlotAtEnd(results, m.at, m.quarantined, QuarantineSlot);
    SlotAtEnd(results, m.at, m.rejected, RejectSlot);
  }

  /** Under every complete schedule, the error returned is the reason of a result that rejects. */
  lemma {:induction false} ErrorIsAReason(before: Merged, results: seq<CheckResult>, schedule: seq<nat>)
    requires Complete(results, schedule)
    ensures var err := Merge(before, results, schedule).0;
            err.Some? ==> exists r :: r in results && r.reject && !r.quarantine && r.reason == err
    ensures (forall r :: r in results ==> !(r.reject && !r.quarantine)) ==> Merge(before, results, schedule).0.None?
  {
    hide Steps, Complete, AllAuth;
    AtEnd(before, results, schedule);
    var m := Steps(results, Begin(before.auth, |results|), schedule);
    if m.rejected.Some? {
      var g :|
        0 <= g < |m.at| && m.at[g].Finished? && Claims(RejectSlot, results[g]) && results[g].reason == m.rejected.value;
      assert results[g] in results;
    }
  }

  // ---------------------------------------------------------------------------
  // Exactly when the schedule does not matter
  // ---------------------------------------------------------------------------

  function InOrder(n: nat): (schedule: seq<nat>) { if n == 0 then [] else InOrder(n - 1) + [n - 1, n - 1] }

  lemma {:induction false} StepsConcat(results: seq<CheckResult>, m: Round, s: seq<nat>, t: seq<nat>)
    ensures Steps(results, m, s + t) == Steps(results, Steps(results, m, s), t)
  {
    if t == [] {
      assert s + t == s;
    } else {
      assert (s + t)[..|s + t| - 1] == s + t[..|t| - 1];
      StepsConcat(results, m, s, t[..|t| - 1]);
    }
  }

  /** The two turns of a goroutine that nobody else gets in between of. */
  lemma {:induction false} TwoTurns(results: seq<CheckResult>, m: Round, g: nat)
    requires |m.at| == |results| && g < |results|
    ensures
      var m' := Steps(results, m, [g, g]);
      && |m'.at| == |results| && m'.at[g] == Finished
      && (forall i :: 0 <= i < |m.at| && m.at[i] == Finished ==> m'.at[i] == Finished)
      && forall which :: (SlotOf(m, which).Some? ==> SlotOf(m', which) == SlotOf(m, which))
           && (SlotOf(m, which).None? && m.at[g] == Ran && Claims(which, results[g]) ==>
                 SlotOf(m', which) == Some(results[g].reason))
  {
    assert Steps(results, m, [g, g]) == Step(results, Step(results, m, g), g) by {
      assert [g, g][..1] == [g] && [g][..0] == [];
      assert Steps(results, m, []) == m && Steps(results, m, [g]) == Step(results, m, g);
    }
  }

  function SlotOf(m: Round, which: Slot): Option<Option<string>> {
    match which case QuarantineSlot => m.quarantined case RejectSlot => m.rejected
  }

  lemma {:induction false} InOrderFinishes(results: seq<CheckResult>, m: Round, n: nat)
    requires |m.at| == |results| && n <= |results|
    ensures
      var m' := Steps(results, m, InOrder(n));
      && |m'.at| == |results| && (forall i :: 0 <= i < n ==> m'.at[i] == Finished)
      && (forall i :: 0 <= i < |m.at| && m.at[i] == Finished ==> m'.at[i] == Finished)
      && forall which :: SlotOf(m, which).Some? ==> SlotOf(m', which) == SlotOf(m, which)
  {
    if n > 0 {
      InOrderFinishes(results, m, n - 1);
      StepsConcat(results, m, InOrder(n - 1), [n - 1, n - 1]);
      TwoTurns(results, Steps(results, m, InOrder(n - 1)), n - 1);
    }
  }

  /** There is a complete schedule under which the given goroutine finishes before all others start. */
  lemma {:induction false} FirstToFinish(auth: seq<AuthResult>, results: seq<CheckResult>, g: nat, which: Slot)
    requires g < |results| && Claims(which, results[g])
    ensures
      var schedule := [g, g] + InOrder(|results|);
      && Complete(results, schedule)
      && SlotOf(Steps(results, Begin(auth, |results|), schedule), which) == Some(results[g].reason)
  {
    hide Steps, Step;
    var schedule, n := [g, g] + InOrder(|results|), |results|;
    var m := Begin(auth, n);
    TwoTurns(results, m, g);
    InOrderFinishes(results, Steps(results, m, [g, g]), n);
    StepsConcat(results, m, [g, g], InOrder(n));
    SameProgress(auth, [], results, schedule);
  }

  /** The same verdict, the same flag and the same authentication results in some order. */
  ghost predicate SameMerge(a: (Option<string>, Merged), b: (Option<string>, Merged)) {
    a.0.Some? == b.0.Some? && a.1.quarantine == b.1.quarantine && multiset(a.1.auth) == multiset(b.1.auth)
  }

  ghost predicate AnyOrder(before: Merged, results: seq<CheckResult>) {
    forall s, t :: Complete(results, s) && Complete(results, t) ==>
      SameMerge(Merge(before, results, s), Merge(before, results, t))
  }

  /** Two results that claim one slot, of which only the first carries a reason. */
  lemma {:induction false} Clash(results: seq<CheckResult>, which: Slot) returns (g: nat, g': nat)
    requires !Uniform(results, which)
    ensures g < |results| && g' < |results| && Claims(which, results[g]) && Claims(which, results[g'])
    ensures results[g].reason.Some? && results[g'].reason.None?
  {
    var r, r' :| r in results && r' in results && Claims(which, r) && Claims(which, r')
      && r.reason.Some? != r'.reason.Some?;
    var i :| 0 <= i < |results| && results[i] == r;
    var j :| 0 <= j < |results| && results[j] == r';
    if r.reason.Some? { return i, j; } else { return j, i; }
  }

  lemma {:induction false} UnsettledDiffers(
    before: Merged, results: seq<CheckResult>) returns (s: seq<nat>, t: seq<nat>)
    requires !Settled(before, results)
    ensures Complete(results, s) && Complete(results, t)
    ensures !SameMerge(Merge(before, results, s), Merge(before, results, t))
  {
    hide Steps, Complete, SlotOk, Uniform, Effective;
    var which := if !Uniform(results, RejectSlot) then RejectSlot else QuarantineSlot;
    var g, g' := Clash(results, which);
    s, t := [g, g] + InOrder(|results|), [g', g'] + InOrder(|results|);
    FirstToFinish(before.auth, results, g, which);
    FirstToFinish(before.auth, results, g', which);
    if which.QuarantineSlot? {
      AtEnd(before, results, s);
      AtEnd(before, results, t);
      var m, m' := Steps(results, Begin(before.auth, |results|), s), Steps(results, Begin(before.auth, |results|), t);
      SlotAtEnd(results, m.at, m.rejected, RejectSlot);
      SlotAtEnd(results, m'.at, m'.rejected, RejectSlot);
    }
  }

  /**
   The finishing order of the checks is irrelevant to what a round comes to exactly when every
   result that rejects carries a reason, or none does, and the same holds for quarantine unless
   the flag cannot change.
   */
  lemma {:induction false} AnyOrderIffSettled(before: Merged, results: seq<CheckResult>)
    ensures AnyOrder(before, results) <==> Settled(before, results)
  {
    hide Settled, Merge, Complete, AllAuth, Effective;
    if Settled(before, results) {
      forall s, t | Complete(results, s) && Complete(results, t)
        ensures SameMerge(Merge(before, results, s), Merge(before, results, t))
      {
        SettledMerges(before, results, s);
        SettledMerges(before, results, t);
      }
    } else {
      var s, t := UnsettledDiffers(before, results);
    }
  }
}
