/**
 What becomes of a message, and that it does not depend on the order in which checks finished
 (internal/dmarc/verifier.go:129-174, internal/msgpipeline/check_runner.go:291-326).
 */
module DmarcOutcome {
  import opened Common
  import opened CheckMerging
  import opened Dmarc

  // ---------------------------------------------------------------------------
  // The verdict and the order of the results
  // ---------------------------------------------------------------------------

  ghost predicate Permutation(a: seq<AuthResult>, b: seq<AuthResult>) { multiset(a) == multiset(b) }

  /** The value that every SPF result of the list has, in the given sense. */
  predicate AllSpf(results: seq<AuthResult>, value: Value) { forall r :: r in results && r.Spf? ==> r.value == value }

  predicate NoSpf(results: seq<AuthResult>, value: Value) { forall r :: r in results && r.Spf? ==> r.value != value }

  /** When which SPF result comes last makes no difference. */
  predicate OrderSettled(d: Domains, from: string, rec: Record, results: seq<AuthResult>) {
    || !HasDkim(results)
    || AllSpf(results, Unset)
    || (&& NoSpf(results, Unset)
        && (|| DkimPasses(d, from, rec, results)
            || (DkimUnsure(d, from, rec, results) && !SpfPasses(d, from, rec, results))
            || AllSpf(results, TempError) || NoSpf(results, TempError)))
  }

  ghost predicate AnyOrderVerdict(d: Domains, from: string, rec: Record, results: seq<AuthResult>) {
    forall p :: Permutation(p, results) ==> Verdict(d, from, rec, p) == Verdict(d, from, rec, results)
  }

  lemma {:induction false} SameMembers(a: seq<AuthResult>, b: seq<AuthResult>)
    requires Permutation(a, b)
    ensures forall r :: r in a <==> r in b
  {
    forall r ensures r in a <==> r in b { assert r in multiset(a) <==> r in multiset(b); }
  }

  lemma {:induction false} SamePredicates(d: Domains, from: string, rec: Record, a: seq<AuthResult>, b: seq<AuthResult>)
    requires Permutation(a, b)
    ensures HasDkim(a) == HasDkim(b) && DkimPasses(d, from, rec, a) == DkimPasses(d, from, rec, b)
    ensures DkimUnsure(d, from, rec, a) == DkimUnsure(d, from, rec, b)
      && SpfPasses(d, from, rec, a) == SpfPasses(d, from, rec, b)
    ensures forall v :: AllSpf(a, v) == AllSpf(b, v) && NoSpf(a, v) == NoSpf(b, v)
  {
    SameMembers(a, b);
  }

  lemma {:induction false} LastSpfIsOneOfThem(results: seq<AuthResult>)
    ensures if exists r :: r in results && r.Spf? then LastSpf(results) in results
      else LastSpf(results) == Spf(Unset, "", "")
  {
    if results != [] {
      var n := |results| - 1;
      LastSpfIsOneOfThem(results[..n]);
      assert results[n] in results && forall r :: r in results <==> r in results[..n] || r == results[n];
    }
  }

  function MoveLast(results: seq<AuthResult>, i: nat): seq<AuthResult>
    requires i < |results|
  {
    results[..i] + results[i + 1..] + [results[i]]
  }

  lemma {:induction false} MovedLast(results: seq<AuthResult>, i: nat)
    requires i < |results| && results[i].Spf?
    ensures Permutation(MoveLast(results, i), results) && LastSpf(MoveLast(results, i)) == results[i]
  {
    assert results == results[..i] + [results[i]] + results[i + 1..];
  }

  lemma {:induction false} SettledGivesSame(
    d: Domains, from: string, rec: Record, a: seq<AuthResult>, b: seq<AuthResult>)
    requires Permutation(a, b) && OrderSettled(d, from, rec, b)
    ensures Verdict(d, from, rec, a) == Verdict(d, from, rec, b)
  {
    SameMembers(a, b);
    SamePredicates(d, from, rec, a, b);
    LastSpfIsOneOfThem(a);
    LastSpfIsOneOfThem(b);
  }

  lemma {:induction false} UnsettledDiffers(
    d: Domains, from: string, rec: Record, results: seq<AuthResult>)
    returns (p: seq<AuthResult>, q: seq<AuthResult>)
    requires !OrderSettled(d, from, rec, results)
    ensures Permutation(p, results) && Permutation(q, results)
    ensures Verdict(d, from, rec, p) != Verdict(d, from, rec, q)
  {
    var value := if NoSpf(results, Unset) then TempError else Unset;
    var r :| r in results && r.Spf? && r.value == value;
    var r' :| r' in results && r'.Spf? && r'.value != value;
    var i :| 0 <= i < |results| && results[i] == r;
    var j :| 0 <= j < |results| && results[j] == r';
    p, q := MoveLast(results, i), MoveLast(results, j);
    MovedLast(results, i);
    MovedLast(results, j);
    SamePredicates(d, from, rec, p, results);
    SamePredicates(d, from, rec, q, results);
    assert p[|p| - 1] == r && q[|q| - 1] == r';
  }

  /** The verdict is the same for every order of the results exactly when it is settled. */
  lemma {:induction false} VerdictIgnoresOrderIff(d: Domains, from: string, rec: Record, results: seq<AuthResult>)
    ensures AnyOrderVerdict(d, from, rec, results) <==> OrderSettled(d, from, rec, results)
  {
    hide OrderSettled, Verdict, Permutation;
    if OrderSettled(d, from, rec, results) {
      forall p | Permutation(p, results) ensures Verdict(d, from, rec, p) == Verdict(d, from, rec, results) {
        SettledGivesSame(d, from, rec, p, results);
      }
    } else {
      var p, q := UnsettledDiffers(d, from, rec, results);
    }
  }

  /** No two different SPF results. */
  predicate OneSpf(results: seq<AuthResult>) {
    forall r, r' :: r in results && r' in results && r.Spf? && r'.Spf? ==> r == r'
  }

  lemma {:induction false} OneSpfSettles(d: Domains, from: string, rec: Record, results: seq<AuthResult>)
    requires OneSpf(results)
    ensures OrderSettled(d, from, rec, results)
  {}

  // ---------------------------------------------------------------------------
  // Applying the policy
  // ---------------------------------------------------------------------------

  /** What the policy lookup came back with. */
  datatype Fetched =
    | LookupFailed(temporary: bool)
    | NoRecord
    | Found(policyDomain: string, from: string, rec: Record)

  /** `Verifier.Apply`: the value for the Authentication-Results field and the policy to apply. */
  function ApplyPolicy(d: Domains, data: Fetched, draw: int, results: seq<AuthResult>): (Value, Action) {
    match data
    case LookupFailed(temporary) => if temporary then (TempError, RejectMail) else (PermError, NoAction)
    case NoRecord => (NoneValue, NoAction)
    case Found(policyDomain, from, rec) =>
      var value := Verdict(d, from, rec, results);
      if value == Pass || value == NoneValue then (value, NoAction)
      else if rec.percent.Some? && draw > rec.percent.value then (value, NoAction)
      else if !d.equalFold(policyDomain, from) && rec.subdomainPolicy.Some? then (value, rec.subdomainPolicy.value)
      else (value, rec.policy)
  }

  /** `Verifier.Apply` itself. */
  method Apply(d: Domains, data: Fetched, draw: int, results: seq<AuthResult>) returns (value: Value, policy: Action)
    ensures (value, policy) == ApplyPolicy(d, data, draw, results)
  {
    hide Verdict;
    match data {
      case LookupFailed(temporary) =>
        value, policy := if temporary then TempError else PermError, if temporary then RejectMail else NoAction;
      case NoRecord => value, policy := NoneValue, NoAction;
      case Found(policyDomain, from, rec) =>
        var result := EvaluateAlignment(d, from, rec, results);
        value, policy := result.value, rec.policy;
        if value == Pass || value == NoneValue || (rec.percent.Some? && draw > rec.percent.value) {
          policy := NoAction;
        } else if !d.equalFold(policyDomain, from) && rec.subdomainPolicy.Some? {
          policy := rec.subdomainPolicy.value;
        }
    }
  }

  /** What `applyResults` decides: the SMTP code of a refusal, and whether the message is quarantined. */
  datatype Disposition = Disposition(refused: Option<int>, quarantine: bool)

  /** `dmarc` is `None` when DMARC evaluation is off. */
  function Dispose(d: Domains, dmarc: Option<Fetched>, draw: int, merged: Merged): Disposition {
    if dmarc.None? then Disposition(None, merged.quarantine)
    else
      var (value, policy) := ApplyPolicy(d, dmarc.value, draw, merged.auth);
      match policy
      case RejectMail => Disposition(Some(if value == TempError then 450 else 550), merged.quarantine)
      case QuarantineMail => Disposition(None, true)
      case NoAction => Disposition(None, merged.quarantine)
  }

  /** Both mechanisms were checked. */
  predicate Enough(results: seq<AuthResult>) {
    HasDkim(results) && exists r :: r in results && r.Spf? && r.value != Unset
  }

  predicate SomethingAligned(d: Domains, from: string, rec: Record, results: seq<AuthResult>) {
    DkimPasses(d, from, rec, results) || SpfPasses(d, from, rec, results)
  }

  predicate StillUnsure(d: Domains, from: string, rec: Record, results: seq<AuthResult>) {
    DkimUnsure(d, from, rec, results) || exists r :: r in results && r.Spf? && r.value == TempError
  }

  /** The policy that the record asks for mail from its domain. */
  predicate Asks(d: Domains, data: Fetched, draw: int, policy: Action)
    requires data.Found?
  {
    && (data.rec.percent.None? || draw <= data.rec.percent.value)
    && policy == if !d.equalFold(data.policyDomain, data.from) && data.rec.subdomainPolicy.Some?
                 then data.rec.subdomainPolicy.value else data.rec.policy
  }

  lemma {:induction false} VerdictMeaning(d: Domains, from: string, rec: Record, results: seq<AuthResult>)
    requires OneSpf(results)
    ensures
      var v := Verdict(d, from, rec, results);
      && (v == NoneValue <==> !Enough(results))
      && (v == Pass <==> Enough(results) && SomethingAligned(d, from, rec, results))
      && (v == TempError <==>
        Enough(results) && !SomethingAligned(d, from, rec, results) && StillUnsure(d, from, rec, results))
      && (v == Fail <==>
        Enough(results) && !SomethingAligned(d, from, rec, results) && !StillUnsure(d, from, rec, results))
  {
    LastSpfIsOneOfThem(results);
    var spf := LastSpf(results);
    assert forall r :: r in results && r.Spf? ==> r == spf;
  }

  /**
   A message is refused exactly when the policy lookup failed for the time being, or both
   mechanisms were checked, neither found an aligned identifier, and the record asks to reject;
   the refusal is temporary exactly when the lookup or an authentication result is.
   */
  lemma {:induction false} RefusedIff(d: Domains, dmarc: Option<Fetched>, draw: int, merged: Merged)
    requires OneSpf(merged.auth)
    ensures
      var out := Dispose(d, dmarc, draw, merged);
      var temporary := dmarc.Some? && dmarc.value == LookupFailed(true);
      var failed := dmarc.Some? && dmarc.value.Found? && Asks(d, dmarc.value, draw, RejectMail)
                    && Enough(merged.auth) && !SomethingAligned(d, dmarc.value.from, dmarc.value.rec, merged.auth);
      && (out.refused.Some? <==> temporary || failed)
      && (out.refused == Some(450) <==>
        temporary || (failed && StillUnsure(d, dmarc.value.from, dmarc.value.rec, merged.auth)))
      && (out.refused.Some? ==> out.refused.value == 450 || out.refused.value == 550)
  {
    hide Verdict, Enough, SomethingAligned, StillUnsure, OneSpf;
    if dmarc.Some? && dmarc.value.Found? { VerdictMeaning(d, dmarc.value.from, dmarc.value.rec, merged.auth); }
  }

  lemma {:induction false} DisposeIgnoresOrder(d: Domains, dmarc: Option<Fetched>, draw: int, a: Merged, b: Merged)
    requires OneSpf(a.auth) && Permutation(a.auth, b.auth) && a.quarantine == b.quarantine
    ensures Dispose(d, dmarc, draw, a) == Dispose(d, dmarc, draw, b)
  {
    hide Verdict, OrderSettled, OneSpf;
    if dmarc.Some? && dmarc.value.Found? {
      OneSpfSettles(d, dmarc.value.from, dmarc.value.rec, a.auth);
      SettledGivesSame(d, dmarc.value.from, dmarc.value.rec, b.auth, a.auth);
    }
  }

  /**
   A message is quarantined exactly when a check asked for it, or both mechanisms were checked,
   neither found an aligned identifier, and the record asks to quarantine.
   */
  lemma {:induction false} QuarantinedIff(d: Domains, dmarc: Option<Fetched>, draw: int, merged: Merged)
    requires OneSpf(merged.auth)
    ensures
      Dispose(d, dmarc, draw, merged).quarantine <==>
      || merged.quarantine
      || (&& dmarc.Some? && dmarc.value.Found? && Asks(d, dmarc.value, draw, QuarantineMail)
          && Enough(merged.auth) && !SomethingAligned(d, dmarc.value.from, dmarc.value.rec, merged.auth))
  {
    hide Verdict, Enough, SomethingAligned, StillUnsure, OneSpf;
    if dmarc.Some? && dmarc.value.Found? { VerdictMeaning(d, dmarc.value.from, dmarc.value.rec, merged.auth); }
  }

  /** The result that is added to the message's authentication results. */
  function Reported(d: Domains, dmarc: Option<Fetched>, draw: int, results: seq<AuthResult>): seq<AuthResult> {
    if dmarc.None? then [] else [DmarcResult(ApplyPolicy(d, dmarc.value, draw, results).0)]
  }

  /**
   What is reported, whatever the policy: pass exactly for mail with an aligned identifier, fail only
   for mail that certainly has none; none without a record or without both mechanisms.
   */
  lemma {:induction false} ReportedMeaning(d: Domains, data: Fetched, draw: int, results: seq<AuthResult>)
    requires OneSpf(results)
    ensures
      var aligned := data.Found? && Enough(results) && SomethingAligned(d, data.from, data.rec, results);
      var unaligned := data.Found? && Enough(results) && !SomethingAligned(d, data.from, data.rec, results);
      exists v :: Reported(d, Some(data), draw, results) == [DmarcResult(v)]
        && (v == Pass <==> aligned)
        && (v == Fail <==> unaligned && !StillUnsure(d, data.from, data.rec, results))
        && (v == TempError <==>
            data == LookupFailed(true) || (unaligned && StillUnsure(d, data.from, data.rec, results)))
        && (v == PermError <==> data == LookupFailed(false))
        && (v == NoneValue <==> data.NoRecord? || (data.Found? && !Enough(results)))
  {
    hide Verdict, Enough, SomethingAligned, StillUnsure, OneSpf;
    if data.Found? { VerdictMeaning(d, data.from, data.rec, results); }
    var v := ApplyPolicy(d, data, draw, results).0;
    assert Reported(d, Some(data), draw, results) == [DmarcResult(v)];
  }

  // ---------------------------------------------------------------------------
  // A whole message
  // ---------------------------------------------------------------------------

  /** The errors of the rounds of checks run for a message, and what is merged at the end. */
  function Rounds(
    before: Merged, rounds: seq<seq<CheckResult>>, schedules: seq<seq<nat>>): (seq<Option<string>>, Merged)
    requires |rounds| == |schedules|
  {
    if rounds == [] then ([], before)
    else
      var n := |rounds| - 1;
      var (errs, merged) := Rounds(before, rounds[..n], schedules[..n]);
      var (err, merged') := Merge(merged, rounds[n], schedules[n]);
      (errs + [err], merged')
  }

  predicate AllComplete(rounds: seq<seq<CheckResult>>, schedules: seq<seq<nat>>)
    requires |rounds| == |schedules|
  {
    forall i :: 0 <= i < |rounds| ==> Complete(rounds[i], schedules[i])
  }

  /** Every result that rejects or quarantines carries a reason. */
  predicate Reasoned(results: seq<CheckResult>) {
    forall r :: r in results && (r.reject || r.quarantine) ==> r.reason.Some?
  }

  lemma {:induction false} ReasonedSettles(before: Merged, results: seq<CheckResult>)
    requires Reasoned(results)
    ensures Settled(before, results)
  {}

  /** Rejected or not, round by round. */
  predicate SameErrors(a: seq<Option<string>>, b: seq<Option<string>>) {
    |a| == |b| && forall i :: 0 <= i < |a| ==> a[i].Some? == b[i].Some?
  }

  function Without<T>(s: seq<T>, i: nat): (r: seq<T>)
    requires i < |s|
    ensures |r| == |s| - 1
  {
    s[..i] + s[i + 1..]
  }

  lemma {:induction false} WithoutOne<T(!new)>(s: seq<T>, i: nat)
    requires i < |s|
    ensures multiset(Without(s, i)) == multiset(s) - multiset{s[i]}
  {
    assert s == s[..i] + [s[i]] + s[i + 1..];
  }

  /** Two lists with the same elements have a common one to take out, unless they are empty. */
  lemma {:induction false} CommonOne<T(!new)>(a: seq<T>, b: seq<T>) returns (i: nat)
    requires multiset(a) == multiset(b) && a != []
    ensures i < |b| && b[i] == a[0] && multiset(Without(a, 0)) == multiset(Without(b, i))
  {
    assert a[0] in multiset(b);
    i :| 0 <= i < |b| && b[i] == a[0];
    WithoutOne(a, 0);
    WithoutOne(b, i);
  }

  lemma {:induction false} WithoutInFront<T>(s: seq<T>, i: nat)
    requires i < |s| - 1
    ensures Without(s, i) == Without(s[..|s| - 1], i) + [s[|s| - 1]]
  {}

  /** Taking one result out of a list takes its authentication results out. */
  lemma {:induction false} AllAuthWithout(results: seq<CheckResult>, i: nat)
    requires i < |results|
    ensures AllAuth(results) == AllAuth(Without(results, i)) + multiset(results[i].auth)
    decreases |results|
  {
    var n := |results| - 1;
    var front, last := results[..n], results[n];
    assert results == front + [last];
    if i < n {
      hide AllAuth, Without;
      AllAuthWithout(front, i);
      WithoutInFront(results, i);
    } else {
      assert Without(results, i) == front;
    }
  }

  lemma {:induction false} NothingIn<T(!new)>(a: seq<T>)
    requires multiset(a) == multiset{}
    ensures a == []
  {
    assert |multiset(a)| == 0;
  }

  lemma {:induction false} AllAuthPermuted(a: seq<CheckResult>, b: seq<CheckResult>)
    requires multiset(a) == multiset(b)
    ensures AllAuth(a) == AllAuth(b)
    decreases |a|
  {
    hide AllAuth, Without;
    if a == [] {
      NothingIn(b);
    } else {
      var i := CommonOne(a, b);
      AllAuthPermuted(Without(a, 0), Without(b, i));
      AllAuthWithout(a, 0);
      AllAuthWithout(b, i);
    }
  }

  /** The same results, in whatever order the goroutines delivered them. */
  ghost predicate SameResults(a: seq<CheckResult>, b: seq<CheckResult>) { multiset(a) == multiset(b) }

  ghost predicate SameRounds(a: seq<seq<CheckResult>>, b: seq<seq<CheckResult>>) {
    |a| == |b| && forall i :: 0 <= i < |a| ==> SameResults(a[i], b[i])
  }

  lemma {:induction false} SameResultsMembers(a: seq<CheckResult>, b: seq<CheckResult>)
    requires SameResults(a, b)
    ensures forall r :: r in a <==> r in b
    ensures Reasoned(a) ==> Reasoned(b)
    ensures forall which :: Effective(a, which) == Effective(b, which)
  {
    forall r ensures r in a <==> r in b { assert r in multiset(a) <==> r in multiset(b); }
  }

  lemma {:induction false} MergeFromEquals(
    before: Merged, before': Merged, results: seq<CheckResult>, results': seq<CheckResult>, s: seq<nat>, t: seq<nat>)
    requires Permutation(before.auth, before'.auth) && before.quarantine == before'.quarantine
    requires SameResults(results, results') && Complete(results, s) && Complete(results', t) && Reasoned(results)
    ensures SameMerge(Merge(before, results, s), Merge(before', results', t))
  {
    hide Merge, Complete, AllAuth, Effective, Settled, Reasoned;
    SameResultsMembers(results, results');
    AllAuthPermuted(results, results');
    ReasonedSettles(before, results);
    ReasonedSettles(before', results');
    SettledMerges(before, results, s);
    SettledMerges(before', results', t);
  }

  lemma {:induction false} RoundsIgnoreSchedules(
    before: Merged, rounds: seq<seq<CheckResult>>, rounds': seq<seq<CheckResult>>, s: seq<seq<nat>>, t: seq<seq<nat>>)
    requires SameRounds(rounds, rounds') && |s| == |rounds| == |t| && AllComplete(rounds, s) && AllComplete(rounds', t)
    requires forall i :: 0 <= i < |rounds| ==> Reasoned(rounds[i])
    ensures
      var a, b := Rounds(before, rounds, s), Rounds(before, rounds', t);
      SameErrors(a.0, b.0) && a.1.quarantine == b.1.quarantine && Permutation(a.1.auth, b.1.auth)
  {
    hide Merge, Complete, Reasoned, SameResults;
    if rounds != [] {
      var n := |rounds| - 1;
      RoundsIgnoreSchedules(before, rounds[..n], rounds'[..n], s[..n], t[..n]);
      var a, b := Rounds(before, rounds[..n], s[..n]).1, Rounds(before, rounds'[..n], t[..n]).1;
      MergeFromEquals(a, b, rounds[n], rounds'[n], s[n], t[n]);
    }
  }

  /** An authentication result that was there before or that a check of some round produced. */
  predicate Produced(before: Merged, rounds: seq<seq<CheckResult>>, r: AuthResult) {
    r in before.auth || exists i :: 0 <= i < |rounds| && ProducedIn(rounds[i], r)
  }

  /** No two different SPF results were produced. */
  ghost predicate OneSpfProduced(before: Merged, rounds: seq<seq<CheckResult>>) {
    forall r, r' :: Produced(before, rounds, r) && Produced(before, rounds, r') && r.Spf? && r'.Spf? ==> r == r'
  }

  predicate ProducedIn(results: seq<CheckResult>, r: AuthResult) { exists res :: res in results && r in res.auth }

  lemma {:induction false} AllAuthProduced(results: seq<CheckResult>, r: AuthResult)
    requires r in AllAuth(results)
    ensures ProducedIn(results, r)
  {
    var n := |results| - 1;
    if r in results[n].auth { assert results[n] in results; } else { AllAuthProduced(results[..n], r); }
  }

  lemma {:induction false} MergedIsProduced(
    before: Merged, rounds: seq<seq<CheckResult>>, s: seq<seq<nat>>, r: AuthResult)
    requires |s| == |rounds| && AllComplete(rounds, s) && r in Rounds(before, rounds, s).1.auth
    ensures Produced(before, rounds, r)
  {
    if rounds != [] {
      hide Merge, Complete, ProducedIn;
      var n := |rounds| - 1;
      var merged := Rounds(before, rounds[..n], s[..n]).1;
      MergeAppends(merged, rounds[n], s[n]);
      assert r in multiset(Merge(merged, rounds[n], s[n]).1.auth);
      if r in merged.auth {
        MergedIsProduced(before, rounds[..n], s[..n], r);
        if r !in before.auth {
          var i :| 0 <= i < n && ProducedIn(rounds[..n][i], r);
          assert ProducedIn(rounds[i], r);
        }
      } else {
        AllAuthProduced(rounds[n], r);
      }
    }
  }

  lemma {:induction false} MergeAppends(before: Merged, results: seq<CheckResult>, schedule: seq<nat>)
    requires Complete(results, schedule)
    ensures multiset(Merge(before, results, schedule).1.auth) == multiset(before.auth) + AllAuth(results)
  {
    hide Steps, Complete, AllAuth, SlotOk;
    AtEnd(before, results, schedule);
  }

  /**
   For every order in which the goroutines of every round run and finish: the same commands are
   rejected, and the message is accepted, quarantined or refused with the same code.
   */
  lemma {:induction false} OutcomeIgnoresSchedules(
    d: Domains, dmarc: Option<Fetched>, draw: int, before: Merged,
    rounds: seq<seq<CheckResult>>, rounds': seq<seq<CheckResult>>, s: seq<seq<nat>>, t: seq<seq<nat>>)
    requires SameRounds(rounds, rounds') && |s| == |rounds| == |t| && AllComplete(rounds, s) && AllComplete(rounds', t)
    requires forall i :: 0 <= i < |rounds| ==> Reasoned(rounds[i])
    requires OneSpfProduced(before, rounds)
    ensures SameErrors(Rounds(before, rounds, s).0, Rounds(before, rounds', t).0)
    ensures Dispose(d, dmarc, draw, Rounds(before, rounds, s).1) ==
      Dispose(d, dmarc, draw, Rounds(before, rounds', t).1)
  {
    assert |rounds| == |rounds'|;
    hide SameRounds, SameErrors, Rounds, AllComplete, Reasoned, Produced, SameResults, Dispose;
    RoundsIgnoreSchedules(before, rounds, rounds', s, t);
    var a, b := Rounds(before, rounds, s).1, Rounds(before, rounds', t).1;
    assert OneSpf(a.auth) by {
      forall r | r in a.auth ensures Produced(before, rounds, r) { MergedIsProduced(before, rounds, s, r); }
    }
    DisposeIgnoresOrder(d, dmarc, draw, a, b);
  }
}
