/**
 Which domains are aligned, which results count when there are several, and what the verdict is for any list
 of results (internal/dmarc/evaluate.go:118-229).
 */
module DmarcAlignment {
  import opened Common
  import opened CheckMerging
  import opened Dmarc

  // ---------------------------------------------------------------------------
  // Alignment of two domains
  // ---------------------------------------------------------------------------

  /** Case folding, the public suffix of a domain, and its organisational domain if there is one. */
  datatype Suffixes = Suffixes(
    fold: string -> string, publicSuffix: string -> string, organisational: string -> Option<string>)

  predicate Same(s: Suffixes, a: string, b: string) { s.fold(a) == s.fold(b) }

  /** `isAligned`. */
  function IsAligned(s: Suffixes, from: string, auth: string, mode: Mode): bool {
    if mode == Strict then Same(s, from, auth)
    else if Same(s, from, s.publicSuffix(from)) then Same(s, from, auth)
    else if s.organisational(from).None? then false
    else if s.organisational(auth).None? then false
    else Same(s, s.organisational(from).value, s.organisational(auth).value)
  }

  /** The list of suffixes knows no case, and a public suffix has no organisational domain. */
  ghost predicate Sane(s: Suffixes) {
    && (forall a, b :: Same(s, a, b) ==> SameSuffix(s, a, b) && SameOrganisation(s, a, b))
    && (forall a :: Same(s, a, s.publicSuffix(a)) ==> s.organisational(a).None?)
  }

  predicate SameSuffix(s: Suffixes, a: string, b: string) { Same(s, s.publicSuffix(a), s.publicSuffix(b)) }

  /** Both have an organisational domain, and it is the same, or neither has one. */
  predicate SameOrganisation(s: Suffixes, a: string, b: string) {
    match s.organisational(a)
    case None => s.organisational(b).None?
    case Some(x) => s.organisational(b).Some? && Same(s, x, s.organisational(b).value)
  }

  /** It does not matter which of the two is the domain of the From field. */
  lemma {:induction false} AlignmentIsSymmetric(s: Suffixes, a: string, b: string, mode: Mode)
    requires Sane(s)
    ensures IsAligned(s, a, b, mode) <==> IsAligned(s, b, a, mode)
  {
    if Same(s, a, b) { assert SameSuffix(s, a, b); }
  }

  /**
   Strict alignment is meant to be the narrower one (section 3.1 of RFC 7489). It is, except for a domain that
   is neither a public suffix nor has an organisational domain: relaxed alignment aligns such a domain with
   nothing, not even with itself.
   */
  lemma {:induction false} StrictIsNarrowerIff(s: Suffixes, a: string, b: string)
    requires Sane(s) && IsAligned(s, a, b, Strict)
    ensures IsAligned(s, a, b, Relaxed) <==> Same(s, a, s.publicSuffix(a)) || s.organisational(a).Some?
  {
    assert SameOrganisation(s, a, b);
  }

  // ---------------------------------------------------------------------------
  // Which results count
  // ---------------------------------------------------------------------------

  /** `i` is the place of the last SPF result. */
  predicate LastSpfAt(results: seq<AuthResult>, i: int) {
    && -1 <= i < |results| && (i >= 0 ==> results[i].Spf?)
    && forall j :: i < j < |results| ==> !results[j].Spf?
  }

  lemma {:induction false} LastSpfIsLast(results: seq<AuthResult>, i: int)
    requires LastSpfAt(results, i)
    ensures LastSpf(results) == if i >= 0 then results[i] else Spf(Unset, "", "")
  {
    if results != [] {
      var n := |results| - 1;
      if i < n { LastSpfIsLast(results[..n], i); }
    }
  }

  lemma {:induction false} LastDkimIsLast(results: seq<AuthResult>, i: nat)
    requires i < |results| && results[i].Dkim? && forall j :: i < j < |results| ==> !results[j].Dkim?
    ensures LastDkim(results) == results[i]
  {
    var n := |results| - 1;
    if i < n { LastDkimIsLast(results[..n], i); }
  }

  lemma {:induction false} FirstWithValueIsFirst(results: seq<AuthResult>, i: nat)
    requires i < |results| && results[i].Dkim? && results[i].value != Unset
    requires forall j :: 0 <= j < i ==> !(results[j].Dkim? && results[j].value != Unset)
    ensures FirstWithValue(results) == Some(results[i])
  {
    if i > 0 { FirstWithValueIsFirst(results[1..], i - 1); }
  }

  lemma {:induction false} NoneWithValue(results: seq<AuthResult>)
    requires forall j :: 0 <= j < |results| ==> !(results[j].Dkim? && results[j].value != Unset)
    ensures FirstWithValue(results).None?
  {
    if results != [] { NoneWithValue(results[1..]); }
  }

  /**
   The DKIM result that is shown stands at `i` exactly if it is the first one with a value, or none has a
   value and it is the last one; counted from the last aligned one on.
   */
  lemma {:induction false} ShownIsAt(
    d: Domains, from: string, rec: Record, results: seq<AuthResult>, start: nat, i: nat)
    requires start <= i < |results| && results[i].Dkim?
    requires start > 0 ==> AlignedDkim(d, from, rec, results[start])
    requires forall j :: start < j < |results| ==> !AlignedDkim(d, from, rec, results[j])
    requires if results[i].value != Unset
             then forall j :: start <= j < i ==> !(results[j].Dkim? && results[j].value != Unset)
             else forall j :: start <= j < |results| ==>
               !(results[j].Dkim? && results[j].value != Unset) && (j > i ==> !results[j].Dkim?)
    ensures Shown(SinceAligned(d, from, rec, results)) == results[i]
  {
    hide AlignedDkim, SinceAligned, Shown;
    SinceIs(d, from, rec, results, start);
    ShownWithin(results[start..], i - start);
  }

  /** The first DKIM result with a value, or the last one if none has a value. */
  lemma {:induction false} ShownWithin(since: seq<AuthResult>, i: nat)
    requires i < |since| && since[i].Dkim?
    requires if since[i].value != Unset
             then forall j :: 0 <= j < i ==> !(since[j].Dkim? && since[j].value != Unset)
             else forall j :: 0 <= j < |since| ==>
               !(since[j].Dkim? && since[j].value != Unset) && (j > i ==> !since[j].Dkim?)
    ensures Shown(since) == since[i]
  {
    hide FirstWithValue, LastDkim;
    if since[i].value != Unset {
      FirstWithValueIsFirst(since, i);
    } else {
      NoneWithValue(since);
      LastDkimIsLast(since, i);
    }
  }

  lemma {:induction false} SinceIs(d: Domains, from: string, rec: Record, results: seq<AuthResult>, start: nat)
    requires start < |results| && (start > 0 ==> AlignedDkim(d, from, rec, results[start]))
    requires forall j :: start < j < |results| ==> !AlignedDkim(d, from, rec, results[j])
    ensures SinceAligned(d, from, rec, results) == results[start..]
  {
    hide AlignedDkim, SinceAligned;
    SinceStarts(d, from, rec, results, start);
    SinceAlignedMeaning(d, from, rec, results);
  }

  lemma {:induction false} SinceStarts(d: Domains, from: string, rec: Record, results: seq<AuthResult>, start: nat)
    requires start < |results| && (start > 0 ==> AlignedDkim(d, from, rec, results[start]))
    requires forall j :: start < j < |results| ==> !AlignedDkim(d, from, rec, results[j])
    ensures |SinceAligned(d, from, rec, results)| == |results| - start
  {
    var n := |results| - 1;
    if start < n {
      SinceStarts(d, from, rec, results[..n], start);
    } else if start == 0 {
      assert results[..n] == [];
    }
  }

  // ---------------------------------------------------------------------------
  // The verdict for any list of results
  // ---------------------------------------------------------------------------

  /** A DKIM result of that value whose domain is aligned with the From domain. */
  predicate HasAlignedDkim(d: Domains, from: string, rec: Record, results: seq<AuthResult>, value: Value) {
    exists j :: 0 <= j < |results| && results[j].Dkim? && results[j].value == value
                && d.aligned(from, results[j].domain, rec.dkimMode)
  }

  /** An SPF result that passes for an aligned MAIL FROM domain, or HELO name if there is none. */
  predicate HasAlignedSpf(d: Domains, from: string, rec: Record, results: seq<AuthResult>) {
    exists j :: 0 <= j < |results| && results[j].Spf? && results[j].value == Pass
                && d.aligned(from, if results[j].from != "" then results[j].from else results[j].helo, rec.spfMode)
  }

  /**
   The verdict, whatever the results: the last SPF result decides whether SPF was checked and whether it is
   still unsure, any aligned DKIM pass settles the matter, and an aligned SPF pass does unless the last SPF
   result is a temporary error.
   */
  lemma {:induction false} VerdictOfAny(d: Domains, from: string, rec: Record, results: seq<AuthResult>, i: int)
    requires LastSpfAt(results, i)
    ensures
      var v := Verdict(d, from, rec, results);
      var enough := (exists j :: 0 <= j < |results| && results[j].Dkim?) && i >= 0 && results[i].value != Unset;
      var dkim, spf := HasAlignedDkim(d, from, rec, results, Pass), HasAlignedSpf(d, from, rec, results);
      var unsure := HasAlignedDkim(d, from, rec, results, TempError);
      && (v == NoneValue <==> !enough)
      && (v == Pass <==> enough && (dkim || (spf && results[i].value != TempError)))
      && (v == TempError <==> enough && !dkim && (results[i].value == TempError || (unsure && !spf)))
      && (v == Fail <==> enough && !dkim && !spf && !unsure && results[i].value != TempError)
  {
    LastSpfIsLast(results, i);
    IndexedPredicates(d, from, rec, results);
    hide HasDkim, DkimPasses, DkimUnsure, SpfPasses, LastSpf, HasAlignedDkim, HasAlignedSpf;
  }

  lemma {:induction false} IndexedPredicates(d: Domains, from: string, rec: Record, results: seq<AuthResult>)
    ensures HasDkim(results) <==> exists j :: 0 <= j < |results| && results[j].Dkim?
    ensures DkimPasses(d, from, rec, results) <==> HasAlignedDkim(d, from, rec, results, Pass)
    ensures DkimUnsure(d, from, rec, results) <==> HasAlignedDkim(d, from, rec, results, TempError)
    ensures SpfPasses(d, from, rec, results) <==> HasAlignedSpf(d, from, rec, results)
  {
    forall j | 0 <= j < |results| ensures results[j] in results {}
  }
}
