/**
 DMARC evaluation (internal/dmarc/evaluate.go, internal/dmarc/verifier.go) and what the pipeline
 does with it (internal/msgpipeline/check_runner.go:291-326). Comparing domains needs the public
 suffix list, so it is a parameter.
 */
module Dmarc {
  import opened Common
  import opened CheckMerging

  datatype Mode = Relaxed | Strict

  datatype Action = NoAction | QuarantineMail | RejectMail

  datatype Record = Record(
    dkimMode: Mode, spfMode: Mode, percent: Option<int>, policy: Action, subdomainPolicy: Option<Action>)

  datatype Domains = Domains(aligned: (string, string, Mode) -> bool, equalFold: (string, string) -> bool)

  datatype Why = NotEnough | DkimTemporary | SpfTemporary | Unaligned | Fine

  datatype Evaluation = Evaluation(
    value: Value, why: Why, spf: AuthResult, spfAligned: bool, dkim: AuthResult, dkimAligned: bool)

  // ---------------------------------------------------------------------------
  // What the verdict is, said without a loop
  // ---------------------------------------------------------------------------

  predicate AlignedDkim(d: Domains, from: string, rec: Record, r: AuthResult) {
    r.Dkim? && d.aligned(from, r.domain, rec.dkimMode)
  }

  /** SPF authenticates the MAIL FROM domain, or the HELO domain when that is empty. */
  predicate AlignedSpf(d: Domains, from: string, rec: Record, r: AuthResult) {
    r.Spf? && d.aligned(from, if r.from == "" then r.helo else r.from, rec.spfMode)
  }

  predicate HasDkim(results: seq<AuthResult>) { exists r :: r in results && r.Dkim? }

  predicate DkimPasses(d: Domains, from: string, rec: Record, results: seq<AuthResult>) {
    exists r :: r in results && AlignedDkim(d, from, rec, r) && r.value == Pass
  }

  predicate DkimUnsure(d: Domains, from: string, rec: Record, results: seq<AuthResult>) {
    exists r :: r in results && AlignedDkim(d, from, rec, r) && r.value == TempError
  }

  predicate SpfPasses(d: Domains, from: string, rec: Record, results: seq<AuthResult>) {
    exists r :: r in results && AlignedSpf(d, from, rec, r) && r.value == Pass
  }

  /** The last SPF result counts; without one it is the zero value. */
  function LastSpf(results: seq<AuthResult>): (r: AuthResult)
    ensures r.Spf?
  {
    if results == [] then Spf(Unset, "", "")
    else if results[|results| - 1].Spf? then results[|results| - 1]
    else LastSpf(results[..|results| - 1])
  }

  function Verdict(d: Domains, from: string, rec: Record, results: seq<AuthResult>): Value {
    var spf := LastSpf(results).value;
    if !HasDkim(results) || spf == Unset then NoneValue
    else if DkimPasses(d, from, rec, results) then Pass
    else if DkimUnsure(d, from, rec, results) && !SpfPasses(d, from, rec, results) then TempError
    else if spf == TempError then TempError
    else if SpfPasses(d, from, rec, results) then Pass
    else Fail
  }

  /** The results from the last aligned DKIM result on, or all of them when none is aligned. */
  function SinceAligned(d: Domains, from: string, rec: Record, results: seq<AuthResult>): seq<AuthResult> {
    if results == [] then []
    else
      var n := |results| - 1;
      if AlignedDkim(d, from, rec, results[n]) then [results[n]]
      else SinceAligned(d, from, rec, results[..n]) + [results[n]]
  }

  /** All of the results, or those from an aligned one on, after which none is aligned. */
  predicate FromLastAligned(
    d: Domains, from: string, rec: Record, results: seq<AuthResult>, since: seq<AuthResult>)
  {
    && |since| <= |results| && since == results[|results| - |since|..]
    && (forall i :: 1 <= i < |since| ==> !AlignedDkim(d, from, rec, since[i]))
    && (since != results ==> since != [] && AlignedDkim(d, from, rec, since[0]))
  }

  lemma {:induction false} FromLastAlignedSnoc(
    d: Domains, from: string, rec: Record, results: seq<AuthResult>, since: seq<AuthResult>, r: AuthResult)
    requires FromLastAligned(d, from, rec, results, since)
    ensures FromLastAligned(d, from, rec, results + [r], if AlignedDkim(d, from, rec, r) then [r] else since + [r])
  {
    hide AlignedDkim;
    var all := results + [r];
    if AlignedDkim(d, from, rec, r) {
      assert all[|results|..] == [r];
    } else {
      var k := |results| - |since|;
      assert all[k..] == results[k..] + [r];
      assert since == results ==> since + [r] == all;
    }
  }

  lemma {:induction false} SinceAlignedMeaning(d: Domains, from: string, rec: Record, results: seq<AuthResult>)
    ensures FromLastAligned(d, from, rec, results, SinceAligned(d, from, rec, results))
  {
    if results == [] {
      SinceNothing(d, from, rec);
    } else {
      hide AlignedDkim, SinceAligned, FromLastAligned;
      var front, last := results[..|results| - 1], results[|results| - 1];
      assert results == front + [last];
      SinceAlignedMeaning(d, from, rec, front);
      SinceAlignedSnoc(d, from, rec, front, last);
      FromLastAlignedSnoc(d, from, rec, front, SinceAligned(d, from, rec, front), last);
    }
  }

  lemma {:induction false} SinceNothing(d: Domains, from: string, rec: Record)
    ensures FromLastAligned(d, from, rec, [], SinceAligned(d, from, rec, []))
  {}

  function FirstDkim(results: seq<AuthResult>): (r: Option<AuthResult>)
    ensures r.Some? ==> r.value.Dkim?
  {
    if results == [] then None else if results[0].Dkim? then Some(results[0]) else FirstDkim(results[1..])
  }

  function FirstWithValue(results: seq<AuthResult>): Option<AuthResult> {
    if results == [] then None
    else if results[0].Dkim? && results[0].value != Unset then Some(results[0])
    else FirstWithValue(results[1..])
  }

  function LastDkim(results: seq<AuthResult>): AuthResult {
    if results == [] then Dkim(Unset, "")
    else if results[|results| - 1].Dkim? then results[|results| - 1]
    else LastDkim(results[..|results| - 1])
  }

  /** The first DKIM result that has a value, or the last one when none has. */
  function Shown(results: seq<AuthResult>): AuthResult {
    if FirstWithValue(results).Some? then FirstWithValue(results).value else LastDkim(results)
  }

  lemma {:induction false} FirstWithValueSnoc(results: seq<AuthResult>, r: AuthResult)
    ensures FirstWithValue(results + [r]) ==
            if FirstWithValue(results).Some? then FirstWithValue(results)
            else if r.Dkim? && r.value != Unset then Some(r) else None
    ensures FirstWithValue(results).Some? ==>
              FirstWithValue(results).value.Dkim? && FirstWithValue(results).value.value != Unset
  {
    if results != [] {
      assert (results + [r])[1..] == results[1..] + [r];
      FirstWithValueSnoc(results[1..], r);
    } else {
      assert [r][1..] == [];
    }
  }

  lemma {:induction false} LastDkimHasNoValue(results: seq<AuthResult>)
    ensures LastDkim(results).Dkim? && (FirstWithValue(results).None? ==> LastDkim(results).value == Unset)
  {
    if results != [] {
      var n := |results| - 1;
      assert results == results[..n] + [results[n]];
      FirstWithValueSnoc(results[..n], results[n]);
      LastDkimHasNoValue(results[..n]);
    }
  }

  /** Which DKIM result the loop keeps after one more result. */
  lemma {:induction false} ShownSnoc(results: seq<AuthResult>, r: AuthResult)
    ensures Shown(results).Dkim?
    ensures Shown(results + [r]) == if r.Dkim? && Shown(results).value == Unset then r else Shown(results)
  {
    FirstWithValueSnoc(results, r);
    LastDkimHasNoValue(results);
    assert (results + [r])[..|results|] == results;
  }

  /**
   The description of the field promises the aligned result, or the first one. That is what is shown
   if and only if it has a value, or no result from it on has one and it is the last.
   */
  lemma {:induction false} ShownIsFirstIff(results: seq<AuthResult>)
    requires FirstDkim(results).Some?
    ensures var first := FirstDkim(results).value;
            Shown(results) == first <==>
              first.value != Unset || (FirstWithValue(results).None? && LastDkim(results) == first)
  {
    FirstWithValueSnoc(results, results[0]);
    FirstHasValue(results);
  }

  lemma {:induction false} FirstHasValue(results: seq<AuthResult>)
    requires FirstDkim(results).Some?
    ensures FirstDkim(results).value.value != Unset ==> FirstWithValue(results) == FirstDkim(results)
  {
    if !results[0].Dkim? { FirstHasValue(results[1..]); }
  }

  // ---------------------------------------------------------------------------
  // The loop
  // ---------------------------------------------------------------------------

  lemma {:induction false} OneMore(d: Domains, from: string, rec: Record, before: seq<AuthResult>, r: AuthResult)
    ensures
      var results := before + [r];
      && HasDkim(results) == (HasDkim(before) || r.Dkim?)
      && DkimPasses(d, from, rec, results) ==
        (DkimPasses(d, from, rec, before) || (AlignedDkim(d, from, rec, r) && r.value == Pass))
      && DkimUnsure(d, from, rec, results) ==
        (DkimUnsure(d, from, rec, before) || (AlignedDkim(d, from, rec, r) && r.value == TempError))
      && SpfPasses(d, from, rec, results) ==
        (SpfPasses(d, from, rec, before) || (AlignedSpf(d, from, rec, r) && r.value == Pass))
      && LastSpf(results) == (if r.Spf? then r else LastSpf(before))
  {}

  lemma {:induction false} SinceAlignedSnoc(
    d: Domains, from: string, rec: Record, before: seq<AuthResult>, r: AuthResult)
    ensures SinceAligned(d, from, rec, before + [r]) ==
            if AlignedDkim(d, from, rec, r) then [r] else SinceAligned(d, from, rec, before) + [r]
  {
    assert (before + [r])[..|before|] == before;
  }

  lemma {:induction false} NoResults(d: Domains, from: string, rec: Record)
    ensures !HasDkim([]) && !DkimPasses(d, from, rec, []) && !DkimUnsure(d, from, rec, [])
    ensures !SpfPasses(d, from, rec, [])
    ensures LastSpf([]) == Spf(Unset, "", "") && Shown(SinceAligned(d, from, rec, [])) == Dkim(Unset, "")
    ensures Shown([]) == Dkim(Unset, "")
  {}

  method EvaluateAlignment(d: Domains, from: string, rec: Record, results: seq<AuthResult>) returns (e: Evaluation)
    ensures e.value == Verdict(d, from, rec, results)
    ensures e.dkimAligned == DkimPasses(d, from, rec, results) && e.spfAligned == SpfPasses(d, from, rec, results)
    ensures e.why == Fine <==> e.value == Pass
    ensures e.why == NotEnough <==> e.value == NoneValue
    ensures e.why == Unaligned <==> e.value == Fail
    ensures e.value == TempError ==>
      e.why == if DkimUnsure(d, from, rec, results) && !e.spfAligned then DkimTemporary else SpfTemporary
    ensures e.spf == LastSpf(results)
    ensures e.dkim == Shown(SinceAligned(d, from, rec, results))
  {
    hide HasDkim, DkimPasses, DkimUnsure, SpfPasses, LastSpf, Shown, SinceAligned;
    NoResults(d, from, rec);
    var spfAligned, spf := false, Spf(Unset, "", "");
    var dkimAligned, dkim, dkimPresent, dkimTempFail := false, Dkim(Unset, ""), false, false;
    for i := 0 to |results|
      invariant dkimPresent == HasDkim(results[..i]) && dkimAligned == DkimPasses(d, from, rec, results[..i])
      invariant dkimTempFail == DkimUnsure(d, from, rec, results[..i])
      invariant spfAligned == SpfPasses(d, from, rec, results[..i]) && spf == LastSpf(results[..i])
      invariant dkim == Shown(SinceAligned(d, from, rec, results[..i]))
    {
      var res := results[i];
      assert results[..i + 1] == results[..i] + [res];
      OneMore(d, from, rec, results[..i], res);
      SinceAlignedSnoc(d, from, rec, results[..i], res);
      ShownSnoc(SinceAligned(d, from, rec, results[..i]), res);
      ShownSnoc([], res);
      assert [] + [res] == [res];
      if res.Dkim? {
        dkimPresent := true;
        if dkim.value == Unset { dkim := res; }
        if d.aligned(from, res.domain, rec.dkimMode) {
          dkim := res;
          if res.value == Pass { dkimAligned := true; } else if res.value == TempError { dkimTempFail := true; }
        }
      }
      if res.Spf? {
        spf := res;
        var aligned;
        if res.from == "" {
          aligned := d.aligned(from, res.helo, rec.spfMode);
        } else {
          aligned := d.aligned(from, res.from, rec.spfMode);
        }
        if aligned && res.value == Pass { spfAligned := true; }
      }
    }
    assert results[..|results|] == results;
    var value, why;
    if !dkimPresent || spf.value == Unset {
      value, why := NoneValue, NotEnough;
    } else if dkimTempFail && !dkimAligned && !spfAligned {
      value, why := TempError, DkimTemporary;
    } else if !dkimAligned && spf.value == TempError {
      value, why := TempError, SpfTemporary;
    } else if dkimAligned || spfAligned {
      value, why := Pass, Fine;
    } else {
      value, why := Fail, Unaligned;
    }
    e := Evaluation(value, why, spf, spfAligned, dkim, dkimAligned);
  }
}
