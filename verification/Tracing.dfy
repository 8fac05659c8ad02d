/**
 Tracing recipients through rewriting (internal/msgpipeline/msgpipeline.go:341-376, 438-449): which recipient
 an address is traced back to, and when that is the one the address was accepted for.
 */
module Tracing {
  /** Rewriting the recipient that the client presented led to the address. */
  datatype Traced = Traced(original: string, address: string)

  /** The delivery to one target: `accepted[i]` was accepted on behalf of `recipients[i]`. */
  datatype Delivery = Delivery(recipients: seq<string>, accepted: seq<string>, offered: set<string>)

  /** Who is told about the address: the last recipient that was rewritten to it, or the address itself. */
  function Name(trace: seq<Traced>, address: string): string {
    if trace == [] then address
    else
      var last := trace[|trace| - 1];
      if last.address == address && last.original != address then last.original else Name(trace[..|trace| - 1], address)
  }

  predicate Leads(trace: seq<Traced>, address: string) { exists p :: p in trace && p.address == address }

  /** No two recipients led to the same address. */
  predicate Unambiguous(trace: seq<Traced>) {
    forall p, q :: p in trace && q in trace && p.address == q.address ==> p.original == q.original
  }

  /**
   The recipient is the one that a status for the address names: no other one was rewritten to the
   address after it, or at all if it is the address itself.
   */
  predicate Uppermost(trace: seq<Traced>, rcpt: string, address: string) {
    if rcpt == address then forall p :: p in trace && p.address == address ==> p.original == address
    else exists j :: 0 <= j < |trace| && trace[j] == Traced(rcpt, address) && NoOtherAfter(trace, rcpt, address, j)
  }

  predicate NoOtherAfter(trace: seq<Traced>, rcpt: string, address: string, j: nat) {
    forall l :: j < l < |trace| && trace[l].address == address ==>
      trace[l].original == rcpt || trace[l].original == address
  }

  /** A status for an address that a target accepted names the recipient it accepted the address for. */
  predicate Exact(deliveries: map<nat, Delivery>, trace: seq<Traced>) {
    forall t, i :: t in deliveries && 0 <= i < |deliveries[t].accepted| && i < |deliveries[t].recipients| ==>
      Name(trace, deliveries[t].accepted[i]) == deliveries[t].recipients[i]
  }

  /** The recipient named for an address that rewriting led to is one whose rewriting led there. */
  lemma {:induction false} NameLeadsThere(trace: seq<Traced>, address: string)
    ensures if Leads(trace, address) then Traced(Name(trace, address), address) in trace
      else Name(trace, address) == address
  {
    if trace != [] {
      var n := |trace| - 1;
      NameLeadsThere(trace[..n], address);
      assert trace[n] in trace && forall p :: p in trace <==> p in trace[..n] || p == trace[n];
      if trace[n].address == address && trace[n].original == address && Name(trace[..n], address) == address {
        assert trace[n] == Traced(address, address);
      }
    }
  }

  lemma {:induction false} NamedIffUppermost(trace: seq<Traced>, rcpt: string, address: string)
    ensures Name(trace, address) == rcpt <==> Uppermost(trace, rcpt, address)
  {
    if trace != [] {
      var n := |trace| - 1;
      var front, last := trace[..n], trace[n];
      NamedIffUppermost(front, rcpt, address);
      assert forall p :: p in trace <==> p in front || p == last;
      if rcpt != address {
        if Uppermost(trace, rcpt, address) && Name(trace, address) != last.original {
          var j :| 0 <= j < |trace| && trace[j] == Traced(rcpt, address) && NoOtherAfter(trace, rcpt, address, j);
          assert front[j] == Traced(rcpt, address) && NoOtherAfter(front, rcpt, address, j);
        }
        if Uppermost(front, rcpt, address) && Name(trace, address) == Name(front, address) {
          var j :| 0 <= j < n && front[j] == Traced(rcpt, address) && NoOtherAfter(front, rcpt, address, j);
          assert trace[j] == Traced(rcpt, address) && NoOtherAfter(trace, rcpt, address, j);
        }
        if last == Traced(rcpt, address) { assert NoOtherAfter(trace, rcpt, address, n); }
      }
    }
  }

  /**
   Statuses name exactly the recipients that addresses were accepted for, whatever targets report, if
   and only if nobody else was rewritten to an accepted address after its recipient, or at all if the
   recipient is the address itself.
   */
  lemma {:induction false} ExactIff(deliveries: map<nat, Delivery>, trace: seq<Traced>)
    ensures Exact(deliveries, trace) <==>
            forall t, i :: t in deliveries && 0 <= i < |deliveries[t].accepted| && i < |deliveries[t].recipients| ==>
              Uppermost(trace, deliveries[t].recipients[i], deliveries[t].accepted[i])
  {
    forall t, i | t in deliveries && 0 <= i < |deliveries[t].accepted| && i < |deliveries[t].recipients|
      ensures Name(trace, deliveries[t].accepted[i]) == deliveries[t].recipients[i] <==>
              Uppermost(trace, deliveries[t].recipients[i], deliveries[t].accepted[i])
    {
      NamedIffUppermost(trace, deliveries[t].recipients[i], deliveries[t].accepted[i]);
    }
  }

  /** In particular they do if no two recipients led to one address. */
  lemma {:induction false} UnambiguousIsExact(deliveries: map<nat, Delivery>, trace: seq<Traced>)
    requires Unambiguous(trace) && forall t :: t in deliveries ==> DeliveryOk(deliveries[t], trace)
    ensures Exact(deliveries, trace)
  {
    forall t, i | t in deliveries && 0 <= i < |deliveries[t].accepted| && i < |deliveries[t].recipients|
      ensures Name(trace, deliveries[t].accepted[i]) == deliveries[t].recipients[i]
    {
      assert Traced(deliveries[t].recipients[i], deliveries[t].accepted[i]) in trace;
      NameLeadsThere(trace, deliveries[t].accepted[i]);
    }
  }

  /**
   Two recipients rewritten to one address, which a target accepts for both: the first is never
   named. If the target refuses the address the first time, all is well.
   */
  lemma {:induction false} LastOneIsNamed(a: string, b: string, x: string)
    requires a != b && a != x && b != x
    ensures var trace, both := [Traced(a, x), Traced(b, x)], Delivery([a, b], [x, x], {x});
            && DeliveryOk(both, trace) && !Exact(map[0 := both], trace)
            && forall i :: 0 <= i < |both.accepted| ==> Name(trace, both.accepted[i]) == b
    ensures var trace, second := [Traced(a, x), Traced(b, x)], Delivery([b], [x], {x});
            DeliveryOk(second, trace) && Exact(map[0 := second], trace) && !Unambiguous(trace)
  {
    var trace := [Traced(a, x), Traced(b, x)];
    assert Name(trace, x) == b && trace[0] in trace && trace[1] in trace && Leads(trace, x);
    var both := map[0 := Delivery([a, b], [x, x], {x})];
    assert Name(trace, both[0].accepted[0]) != both[0].recipients[0];
  }

  /** `statusCollector`: translating an address back. */
  function Translate(originalRcpts: map<string, string>, address: string): string {
    if address in originalRcpts then originalRcpts[address] else address
  }

  ghost predicate MapOk(originalRcpts: map<string, string>, trace: seq<Traced>) {
    forall a :: Translate(originalRcpts, a) == Name(trace, a)
  }

  lemma {:induction false} MapStaysOk(originalRcpts: map<string, string>, trace: seq<Traced>, p: Traced)
    requires MapOk(originalRcpts, trace)
    ensures
      var later := if p.original != p.address then originalRcpts[p.address := p.original] else originalRcpts;
      MapOk(later, trace + [p])
  {
    var later := if p.original != p.address then originalRcpts[p.address := p.original] else originalRcpts;
    forall a ensures Translate(later, a) == Name(trace + [p], a) {
      assert Translate(originalRcpts, a) == Name(trace, a);
    }
  }

  ghost predicate DeliveryOk(d: Delivery, trace: seq<Traced>) {
    && |d.accepted| == |d.recipients|
    && (forall i :: 0 <= i < |d.recipients| ==> Traced(d.recipients[i], d.accepted[i]) in trace)
    && (forall a :: a in d.offered ==> Leads(trace, a))
  }

  lemma {:induction false} DeliveryStaysOk(d: Delivery, trace: seq<Traced>, more: seq<Traced>)
    requires DeliveryOk(d, trace)
    ensures DeliveryOk(d, trace + more)
  {}

  lemma {:induction false} OfferedOk(d: Delivery, trace: seq<Traced>, original: string, to: string)
    requires DeliveryOk(d, trace) && Traced(original, to) in trace
    ensures DeliveryOk(d.(offered := d.offered + {to}), trace)
    ensures DeliveryOk(Delivery(d.recipients + [original], d.accepted + [to], d.offered + {to}), trace)
  {}

  /** Deliveries are never dropped and only gain recipients. */
  ghost predicate Kept(before: map<nat, Delivery>, later: map<nat, Delivery>) {
    forall t :: t in before ==>
      && t in later && before[t].offered <= later[t].offered
      && before[t].recipients <= later[t].recipients && before[t].accepted <= later[t].accepted
  }

  lemma {:induction false} KeptStart(before: map<nat, Delivery>, later: map<nat, Delivery>)
    requires forall t :: t in before ==> t in later && later[t] == before[t]
    ensures Kept(before, later)
  {}

  lemma {:induction false} KeptOne(
    before: map<nat, Delivery>, later: map<nat, Delivery>, tgt: nat, original: string, to: string)
    requires Kept(before, later) && tgt in later
    ensures
      var d := later[tgt];
      && Kept(before, later[tgt := d.(offered := d.offered + {to})])
      && Kept(before, later[tgt := Delivery(d.recipients + [original], d.accepted + [to], d.offered + {to})])
  {}

  lemma {:induction false} KeptTrans(a: map<nat, Delivery>, b: map<nat, Delivery>, c: map<nat, Delivery>)
    requires Kept(a, b) && Kept(b, c)
    ensures Kept(a, c)
  {}
}
