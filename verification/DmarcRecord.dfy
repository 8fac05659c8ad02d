/**
 Finding the DMARC record of a message (internal/dmarc/evaluate.go:37-86). What the DNS answers, the
 organisational domain and the parser of records are parameters.
 */
module DmarcRecord {
  import opened Common
  import opened Dmarc
  import opened DmarcOutcome

  /** The TXT records under `_dmarc.` of a domain; a name that does not exist has none. */
  datatype Answer = Failure(temporary: bool) | Texts(txts: seq<string>)

  datatype Dns = Dns(
    lookup: string -> Answer, organisational: string -> Option<string>, parse: string -> Option<Record>)

  const VERSION := "v=DMARC1"

  predicate IsPolicy(txt: string) { HasPrefix(txt, VERSION) }

  function Policies(txts: seq<string>): (ps: seq<string>)
    ensures forall p :: p in ps <==> p in txts && IsPolicy(p)
  {
    if txts == [] then []
    else
      var n := |txts| - 1;
      assert txts == txts[..n] + [txts[n]];
      if IsPolicy(txts[n]) then Policies(txts[..n]) + [txts[n]] else Policies(txts[..n])
  }

  /** What the policies of a domain come to: more than one is as good as none. */
  function Single(dns: Dns, policyDomain: string, from: string, ps: seq<string>): Fetched {
    if |ps| != 1 then NoRecord
    else if dns.parse(ps[0]).None? then LookupFailed(false)
    else Found(policyDomain, from, dns.parse(ps[0]).value)
  }

  /** What the organisational domain publishes for mail from the domain. */
  function OfOrganisation(dns: Dns, from: string): Fetched {
    match dns.organisational(from)
    case None => LookupFailed(false)
    case Some(org) =>
      match dns.lookup(org)
      case Failure(temporary) => LookupFailed(temporary)
      case Texts(txts) => Single(dns, org, from, Policies(txts))
  }

  /** Section 6.6.3 of RFC 7489: the organisational domain is asked if the domain itself has no policy. */
  function ByTheRfc(dns: Dns, from: string): Fetched {
    match dns.lookup(from)
    case Failure(temporary) => LookupFailed(temporary)
    case Texts(txts) =>
      if Policies(txts) == [] then OfOrganisation(dns, from) else Single(dns, from, from, Policies(txts))
  }

  /** The domain has TXT records, but none of them is a policy. */
  predicate OnlyOtherTexts(dns: Dns, from: string) {
    dns.lookup(from).Texts? && dns.lookup(from).txts != [] && forall t :: t in dns.lookup(from).txts ==> !IsPolicy(t)
  }

  /**
   `FetchRecord` does what the RFC says if and only if the domain has a policy or no TXT records at all, or
   the RFC's way would find no record either: it does not ask the organisational domain of a domain that has
   other TXT records under the name.
   */
  method FetchRecord(dns: Dns, from: string) returns (r: Fetched)
    ensures r == ByTheRfc(dns, from) <==> !OnlyOtherTexts(dns, from) || ByTheRfc(dns, from) == NoRecord
    ensures OnlyOtherTexts(dns, from) ==> r == NoRecord
    ensures dns.lookup(from).Failure? ==> r == LookupFailed(dns.lookup(from).temporary)
  {
    var policyDomain := from;
    var first := dns.lookup(from);
    if first.Failure? { return LookupFailed(first.temporary); }
    var txts := first.txts;
    if |txts| == 0 {
      if dns.organisational(from).None? { return LookupFailed(false); }
      policyDomain := dns.organisational(from).value;
      var second := dns.lookup(policyDomain);
      if second.Failure? { return LookupFailed(second.temporary); }
      txts := second.txts;
      if |txts| == 0 { return NoRecord; }
    }
    var records: seq<string> := [];
    for i := 0 to |txts|
      invariant records == Policies(txts[..i])
    {
      assert txts[..i + 1][..i] == txts[..i];
      if HasPrefix(txts[i], VERSION) { records := records + [txts[i]]; }
    }
    assert txts[..|txts|] == txts;
    if |records| > 1 || |records| == 0 { return NoRecord; }
    assert records[0] in Policies(txts) && Policies([]) == [];
    var rec := dns.parse(records[0]);
    return if rec.None? then LookupFailed(false) else Found(policyDomain, from, rec.value);
  }

  lemma {:induction false} NoPolicy(txts: seq<string>)
    requires forall j :: 0 <= j < |txts| ==> !IsPolicy(txts[j])
    ensures Policies(txts) == []
  {
    if txts != [] { NoPolicy(txts[..|txts| - 1]); }
  }

  lemma {:induction false} OnlyPolicy(txts: seq<string>, i: nat)
    requires i < |txts| && IsPolicy(txts[i]) && forall j :: 0 <= j < |txts| && j != i ==> !IsPolicy(txts[j])
    ensures Policies(txts) == [txts[i]]
  {
    var n := |txts| - 1;
    if i < n { OnlyPolicy(txts[..n], i); } else { NoPolicy(txts[..n]); }
  }

  lemma {:induction false} TwoPolicies(txts: seq<string>, i: nat, j: nat)
    requires i < j < |txts| && IsPolicy(txts[i]) && IsPolicy(txts[j])
    ensures |Policies(txts)| >= 2
  {
    var n := |txts| - 1;
    if j < n {
      TwoPolicies(txts[..n], i, j);
    } else {
      assert txts[..n][i] in txts[..n];
      assert Policies(txts[..n]) != [];
    }
  }

  /** What TXT records of a domain, of which the `i`-th is a policy, come to for mail from another or the same. */
  predicate CountsFor(dns: Dns, domain: string, from: string, txts: seq<string>, i: nat, r: Fetched)
    requires i < |txts|
  {
    if exists j :: 0 <= j < |txts| && j != i && IsPolicy(txts[j]) then r == NoRecord
    else if dns.parse(txts[i]).None? then r == LookupFailed(false)
    else r == Found(domain, from, dns.parse(txts[i]).value)
  }

  lemma {:induction false} SingleCounts(dns: Dns, domain: string, from: string, txts: seq<string>, i: nat)
    requires i < |txts| && IsPolicy(txts[i])
    ensures CountsFor(dns, domain, from, txts, i, Single(dns, domain, from, Policies(txts)))
  {
    if exists j :: 0 <= j < |txts| && j != i && IsPolicy(txts[j]) {
      var j :| 0 <= j < |txts| && j != i && IsPolicy(txts[j]);
      if i < j { TwoPolicies(txts, i, j); } else { TwoPolicies(txts, j, i); }
    } else {
      OnlyPolicy(txts, i);
    }
  }

  /**
   Of a domain that has a policy, one policy is the record, whatever else there is, and several are none; for a
   domain without TXT records the organisational domain counts in the same way.
   */
  lemma {:induction false} PolicyCounts(dns: Dns, from: string, domain: string, i: nat)
    requires dns.lookup(domain).Texts? && i < |dns.lookup(domain).txts| && IsPolicy(dns.lookup(domain).txts[i])
    requires domain == from || (dns.lookup(from) == Texts([]) && dns.organisational(from) == Some(domain))
    ensures CountsFor(dns, domain, from, dns.lookup(domain).txts, i, ByTheRfc(dns, from))
  {
    SingleCounts(dns, domain, from, dns.lookup(domain).txts, i);
    assert Policies([]) == [] && dns.lookup(domain).txts[i] in dns.lookup(domain).txts;
  }

  /** One policy at the organisational domain that mail from a subdomain with another TXT record does not get. */
  lemma {:induction false} OtherTextHidesPolicy(dns: Dns, from: string, org: string, other: string, policy: string)
    requires dns.organisational(from) == Some(org) && !IsPolicy(other) && IsPolicy(policy)
    requires dns.lookup(from) == Texts([other]) && dns.lookup(org) == Texts([policy]) && dns.parse(policy).Some?
    ensures OnlyOtherTexts(dns, from) && ByTheRfc(dns, from) == Found(org, from, dns.parse(policy).value)
  {
    NoPolicy([other]);
    OnlyPolicy([policy], 0);
  }
}
