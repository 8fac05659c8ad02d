/**
 Where rewriting a recipient leads and what its targets make of it
 (internal/msgpipeline/msgpipeline.go:280-376).

 Modifiers, checks, routing and targets are arbitrary: each may fail at any point, and a modifier may turn an
 address into any list of addresses.
 */
module Offers {
  import opened Common
  import opened Tracing

  // ---------------------------------------------------------------------------
  // Where rewriting leads
  // ---------------------------------------------------------------------------

  /** The addresses that the modifiers of a recipient's block came up with, and the block's targets. */
  datatype Route = Route(newTo: seq<string>, targets: seq<nat>)

  /**
   What is answered while one recipient is added: by the global modifiers, by the source's modifiers for each
   address that comes from those, and by routing, checks and the block's modifiers for each address after
   that, where `None` is a refusal or an error; whether a target can be started, and whether the `j`-th target
   of the `i`-th lead accepts its address. The number is the place of the address in its list.
   */
  datatype Answers = Answers(
    global: string -> Option<seq<string>>, source: (nat, string) -> Option<seq<string>>,
    route: (nat, string) -> Option<Route>, starts: nat -> bool, accepts: (nat, nat) -> bool)

  /** The answers from routing on, for the addresses at hand. */
  datatype Replies = Replies(route: nat -> Option<Route>, starts: nat -> bool, accepts: (nat, nat) -> bool)

  function RepliesFor(a: Answers, tos: seq<string>): Replies {
    Replies(i => if 0 <= i < |tos| then a.route(i, tos[i]) else None, a.starts, a.accepts)
  }

  /** An address at the end of rewriting, and the targets it is for. */
  datatype Lead = Lead(address: string, targets: seq<nat>)

  /** What the source's modifiers make of the first `n` addresses. */
  function Sourced(a: Answers, tos: seq<string>, n: nat): seq<string>
    requires n <= |tos|
  {
    if n == 0 then []
    else
      var more := a.source(n - 1, tos[n - 1]);
      Sourced(a, tos, n - 1) + if more.Some? then more.value else []
  }

  /** The addresses come in the order of those that they were made from. */
  lemma {:induction false} SourcedInOrder(a: Answers, tos: seq<string>, i: nat, n: nat)
    requires i < n <= |tos| && a.source(i, tos[i]).Some?
    ensures Sourced(a, tos, i) + a.source(i, tos[i]).value <= Sourced(a, tos, n)
  {
    if i + 1 < n { SourcedInOrder(a, tos, i, n - 1); }
  }

  function RouteLeads(r: Route): seq<Lead> {
    seq(|r.newTo|, i requires 0 <= i < |r.newTo| => Lead(r.newTo[i], r.targets))
  }

  /** Where the first `n` routed addresses lead. */
  function Routed(a: Replies, n: nat): seq<Lead> {
    if n == 0 then [] else Routed(a, n - 1) + (if a.route(n - 1).Some? then RouteLeads(a.route(n - 1).value) else [])
  }

  /** The addresses to route. */
  function Rewritten(a: Answers, to: string): seq<string> {
    match a.global(to)
    case None => []
    case Some(tos) => Sourced(a, tos, |tos|)
  }

  function RepliesTo(a: Answers, to: string): Replies { RepliesFor(a, Rewritten(a, to)) }

  /** Where rewriting a recipient leads if nothing fails. */
  function AllLeads(a: Answers, to: string): seq<Lead> { Routed(RepliesTo(a, to), |Rewritten(a, to)|) }

  /** Nothing was refused and no modifier failed. */
  predicate Unrefused(a: Answers, to: string) {
    && a.global(to).Some? && SourceOk(a, a.global(to).value)
    && RoutesOk(RepliesTo(a, to), |Rewritten(a, to)|)
  }

  predicate SourceOk(a: Answers, tos: seq<string>) {
    forall i :: 0 <= i < |tos| ==> a.source(i, tos[i]).Some?
  }

  predicate RoutesOk(a: Replies, n: nat) { forall i: nat :: i < n ==> a.route(i).Some? }

  /** Where no delivery to it exists yet the target can be started, and it accepts the address. */
  predicate WillingAt(deliveries: map<nat, Delivery>, a: Replies, tgt: nat, i: nat, j: nat) {
    (tgt in deliveries || a.starts(tgt)) && a.accepts(i, j)
  }

  /** All targets of the lead are willing; it is the `i`-th one. */
  predicate Willing(deliveries: map<nat, Delivery>, a: Replies, lead: Lead, i: nat) {
    forall j :: 0 <= j < |lead.targets| ==> WillingAt(deliveries, a, lead.targets[j], i, j)
  }

  predicate WillingAll(deliveries: map<nat, Delivery>, a: Replies, leads: seq<Lead>, n: nat) {
    forall i :: 0 <= i < |leads| ==> Willing(deliveries, a, leads[i], n + i)
  }

  /** Deliveries that were added are to targets that could be started. */
  ghost predicate StartedOnly(before: map<nat, Delivery>, later: map<nat, Delivery>, a: Replies) {
    && (forall t :: t in before ==> t in later)
    && (forall t :: t in later ==> t in before || a.starts(t))
  }

  function TraceOf(original: string, leads: seq<Lead>): (trace: seq<Traced>)
    ensures |trace| == |leads| && forall i :: 0 <= i < |leads| ==> trace[i] == Traced(original, leads[i].address)
  {
    seq(|leads|, i requires 0 <= i < |leads| => Traced(original, leads[i].address))
  }

  /** The recipient was traced to exactly these leads. */
  ghost predicate TracedTo(before: seq<Traced>, later: seq<Traced>, original: string, leads: seq<Lead>) {
    later == before + TraceOf(original, leads)
  }

  /** The recipient was traced to the first of these leads, if any. */
  ghost predicate TracedInto(before: seq<Traced>, later: seq<Traced>, original: string, leads: seq<Lead>) {
    before <= later <= before + TraceOf(original, leads)
  }

  lemma {:induction false} RoutedGrows(a: Replies, i: nat, n: nat)
    requires i <= n
    ensures Routed(a, i) <= Routed(a, n)
  {
    if i < n { RoutedGrows(a, i, n - 1); }
  }

  lemma {:induction false} RoutedNext(a: Replies, i: nat, n: nat)
    requires i < n && a.route(i).Some?
    ensures Routed(a, i + 1) == Routed(a, i) + RouteLeads(a.route(i).value) <= Routed(a, n)
  {
    RoutedGrows(a, i + 1, n);
  }

  lemma {:induction false} TracedBefore(
    base: seq<Traced>, trace: seq<Traced>, original: string, a: Replies, i: nat, n: nat)
    requires TracedTo(base, trace, original, Routed(a, i)) && i <= n
    ensures TracedInto(base, trace, original, Routed(a, n))
  {
    RoutedGrows(a, i, n);
  }

  /** One more route. */
  lemma {:induction false} TracedNext(
    base: seq<Traced>, before: seq<Traced>, trace: seq<Traced>, original: string, a: Replies, i: nat, n: nat)
    requires TracedTo(base, before, original, Routed(a, i)) && i < n && a.route(i).Some?
    requires TracedInto(before, trace, original, RouteLeads(a.route(i).value))
    ensures TracedInto(base, trace, original, Routed(a, n))
    ensures TracedTo(before, trace, original, RouteLeads(a.route(i).value)) ==>
      TracedTo(base, trace, original, Routed(a, i + 1))
  {
    var leads := RouteLeads(a.route(i).value);
    hide Routed, RouteLeads;
    assert Routed(a, i + 1) == Routed(a, i) + leads;
    RoutedGrows(a, i + 1, n);
    assert before + TraceOf(original, leads) == base + TraceOf(original, Routed(a, i + 1));
  }

  lemma {:induction false} StartedThen(
    x: map<nat, Delivery>, y: map<nat, Delivery>, z: map<nat, Delivery>, a: Replies)
    requires StartedOnly(x, y, a) && StartedOnly(y, z, a)
    ensures StartedOnly(x, z, a)
  {}

  /** Deliveries started on the way do not change who is willing. */
  lemma {:induction false} StillWilling(
    before: map<nat, Delivery>, later: map<nat, Delivery>, a: Replies, lead: Lead, i: nat)
    requires StartedOnly(before, later, a)
    ensures Willing(before, a, lead, i) <==> Willing(later, a, lead, i)
  {
    forall t, j ensures WillingAt(before, a, t, i, j) <==> WillingAt(later, a, t, i, j) {}
  }

  /** The target accepted the address on behalf of the recipient. */
  predicate Accepts(d: Delivery, original: string, address: string) {
    exists i :: 0 <= i < |d.recipients| && i < |d.accepted| && d.recipients[i] == original && d.accepted[i] == address
  }

  /** All targets of the lead accepted its address on behalf of the recipient. */
  predicate Delivers(deliveries: map<nat, Delivery>, original: string, lead: Lead) {
    forall t :: t in lead.targets ==> t in deliveries && Accepts(deliveries[t], original, lead.address)
  }

  predicate DeliversAll(deliveries: map<nat, Delivery>, original: string, leads: seq<Lead>) {
    forall lead :: lead in leads ==> Delivers(deliveries, original, lead)
  }

  lemma {:induction false} KeptDelivers(
    before: map<nat, Delivery>, later: map<nat, Delivery>, original: string, leads: seq<Lead>)
    requires Kept(before, later) && DeliversAll(before, original, leads)
    ensures DeliversAll(later, original, leads)
  {
    forall lead, t | lead in leads && t in lead.targets
      ensures t in later && Accepts(later[t], original, lead.address)
    {
      assert Delivers(before, original, lead);
    }
  }

  // ---------------------------------------------------------------------------
  // What an accepted recipient adds to the deliveries
  // ---------------------------------------------------------------------------

  function DeliveryTo(deliveries: map<nat, Delivery>, tgt: nat): Delivery {
    if tgt in deliveries then deliveries[tgt] else Delivery([], [], {})
  }

  function Give(deliveries: map<nat, Delivery>, original: string, to: string, tgt: nat): map<nat, Delivery> {
    var d := DeliveryTo(deliveries, tgt);
    deliveries[tgt := Delivery(d.recipients + [original], d.accepted + [to], d.offered + {to})]
  }

  function GiveLead(deliveries: map<nat, Delivery>, original: string, lead: Lead): map<nat, Delivery>
    decreases |lead.targets|
  {
    var n := |lead.targets|;
    if n == 0 then deliveries
    else Give(GiveLead(deliveries, original, Lead(lead.address, lead.targets[..n - 1])), original, lead.address,
              lead.targets[n - 1])
  }

  function GiveAll(deliveries: map<nat, Delivery>, original: string, leads: seq<Lead>): map<nat, Delivery> {
    var n := |leads|;
    if n == 0 then deliveries else GiveLead(GiveAll(deliveries, original, leads[..n - 1]), original, leads[n - 1])
  }

  lemma {:induction false} GiveToStarted(
    before: map<nat, Delivery>, started: map<nat, Delivery>, original: string, to: string, tgt: nat)
    requires started == if tgt in before then before else before[tgt := Delivery([], [], {})]
    ensures Give(before, original, to, tgt) == Give(started, original, to, tgt)
  {}

  lemma {:induction false} GiveIs(
    started: map<nat, Delivery>, later: map<nat, Delivery>, original: string, to: string, tgt: nat)
    requires tgt in started
    requires var d := started[tgt];
             later == started[tgt := Delivery(d.recipients + [original], d.accepted + [to], d.offered + {to})]
    ensures later == Give(started, original, to, tgt)
  {}

  lemma {:induction false} GiveAllConcat(
    deliveries: map<nat, Delivery>, original: string, xs: seq<Lead>, ys: seq<Lead>)
    ensures GiveAll(deliveries, original, xs + ys) == GiveAll(GiveAll(deliveries, original, xs), original, ys)
    decreases |ys|
  {
    if ys == [] {
      assert xs + ys == xs;
    } else {
      var n := |ys| - 1;
      assert (xs + ys)[..|xs| + n] == xs + ys[..n] && (xs + ys)[|xs| + n] == ys[n];
      GiveAllConcat(deliveries, original, xs, ys[..n]);
    }
  }

  function Times<T>(x: T, n: nat): seq<T> { seq(n, i => x) }

  function Occurrences(targets: seq<nat>, tgt: nat): nat { multiset(targets)[tgt] }

  /** The addresses that the leads have for the target, in order. */
  function AddressesFor(leads: seq<Lead>, tgt: nat): seq<string> {
    if leads == [] then []
    else
      var n := |leads| - 1;
      AddressesFor(leads[..n], tgt) + Times(leads[n].address, Occurrences(leads[n].targets, tgt))
  }

  lemma {:induction false} TimesOneMore<T>(x: T, n: nat)
    ensures Times(x, n + 1) == Times(x, n) + [x]
  {}

  lemma {:induction false} TimesSum<T>(x: T, m: nat, n: nat)
    ensures Times(x, m + n) == Times(x, m) + Times(x, n)
  {}

  /** The delivery to the target has gained these addresses, all on behalf of the recipient. */
  predicate Gains(before: Delivery, later: Delivery, original: string, addresses: seq<string>) {
    && later.accepted == before.accepted + addresses
    && later.recipients == before.recipients + Times(original, |addresses|)
    && later.offered == before.offered + set a | a in addresses
  }

  lemma {:induction false} GainsThen(
    a: Delivery, b: Delivery, c: Delivery, original: string, xs: seq<string>, ys: seq<string>)
    requires Gains(a, b, original, xs) && Gains(b, c, original, ys)
    ensures Gains(a, c, original, xs + ys)
  {
    TimesSum(original, |xs|, |ys|);
    assert forall x :: x in xs + ys <==> x in xs || x in ys;
  }

  lemma {:induction false} OccurrencesLast(targets: seq<nat>, tgt: nat)
    requires targets != []
    ensures var n := |targets| - 1;
            && Occurrences(targets, tgt) == Occurrences(targets[..n], tgt) + (if targets[n] == tgt then 1 else 0)
            && (tgt in targets <==> tgt in targets[..n] || tgt == targets[n])
  {
    var n := |targets| - 1;
    assert targets == targets[..n] + [targets[n]];
  }

  lemma {:induction false} LeadGains(deliveries: map<nat, Delivery>, original: string, lead: Lead, tgt: nat)
    ensures var later := GiveLead(deliveries, original, lead);
            && Gains(DeliveryTo(deliveries, tgt), DeliveryTo(later, tgt), original,
                     Times(lead.address, Occurrences(lead.targets, tgt)))
            && (tgt in later <==> tgt in deliveries || tgt in lead.targets)
    decreases |lead.targets|
  {
    var n := |lead.targets|;
    if n == 0 {
      NoGain(DeliveryTo(deliveries, tgt), original, lead.address);
    } else {
      hide Gains, Times, Occurrences;
      var front, last := Lead(lead.address, lead.targets[..n - 1]), lead.targets[n - 1];
      LeadGains(deliveries, original, front, tgt);
      var mid := GiveLead(deliveries, original, front);
      OccurrencesLast(lead.targets, tgt);
      if last == tgt {
        TimesOneMore(lead.address, Occurrences(front.targets, tgt));
        OneGain(mid, original, lead.address, tgt);
        GainsThen(DeliveryTo(deliveries, tgt), DeliveryTo(mid, tgt),
                  DeliveryTo(Give(mid, original, lead.address, tgt), tgt), original,
                  Times(lead.address, Occurrences(front.targets, tgt)), [lead.address]);
      }
    }
  }

  lemma {:induction false} NoGain(d: Delivery, original: string, to: string)
    ensures Gains(d, d, original, Times(to, 0)) && Gains(d, d, original, [])
  {
    assert Times(original, 0) == [];
  }

  lemma {:induction false} OneGain(deliveries: map<nat, Delivery>, original: string, to: string, tgt: nat)
    ensures Gains(DeliveryTo(deliveries, tgt), DeliveryTo(Give(deliveries, original, to, tgt), tgt), original, [to])
  {
    assert Times(original, 1) == [original];
  }

  /**
   What an accepted recipient adds: every target gains exactly the addresses that the leads have for it,
   in order and as often as it is listed, all on behalf of that recipient, and no other target is started.
   */
  lemma {:induction false} AcceptedGains(
    deliveries: map<nat, Delivery>, original: string, leads: seq<Lead>, tgt: nat)
    ensures var later := GiveAll(deliveries, original, leads);
            && Gains(DeliveryTo(deliveries, tgt), DeliveryTo(later, tgt), original, AddressesFor(leads, tgt))
            && (tgt in later <==> tgt in deliveries || exists lead :: lead in leads && tgt in lead.targets)
    decreases |leads|
  {
    hide GiveLead, Gains, Times, Occurrences, DeliveryTo;
    if leads == [] {
      NoGain(DeliveryTo(deliveries, tgt), original, "");
    } else {
      var n := |leads| - 1;
      AcceptedGains(deliveries, original, leads[..n], tgt);
      var mid := GiveAll(deliveries, original, leads[..n]);
      LeadGains(mid, original, leads[n], tgt);
      GainsThen(DeliveryTo(deliveries, tgt), DeliveryTo(mid, tgt), DeliveryTo(GiveLead(mid, original, leads[n]), tgt),
                original, AddressesFor(leads[..n], tgt),
                Times(leads[n].address, Occurrences(leads[n].targets, tgt)));
      assert forall lead :: lead in leads <==> lead in leads[..n] || lead == leads[n];
    }
  }

  /** The leads, of which the first is the `n`-th, have all been offered and accepted. */
  ghost predicate Placed(
    before: map<nat, Delivery>, later: map<nat, Delivery>, original: string, leads: seq<Lead>, a: Replies, n: nat)
  {
    && Kept(before, later) && StartedOnly(before, later, a) && WillingAll(before, a, leads, n)
    && DeliversAll(later, original, leads) && later == GiveAll(before, original, leads)
  }

  /** Some lead has not been accepted. */
  ghost predicate Stopped(
    before: map<nat, Delivery>, later: map<nat, Delivery>, leads: seq<Lead>, a: Replies, n: nat)
  {
    Kept(before, later) && StartedOnly(before, later, a) && !WillingAll(before, a, leads, n)
  }

  lemma {:induction false} PlacedNone(deliveries: map<nat, Delivery>, original: string, a: Replies, n: nat)
    ensures Placed(deliveries, deliveries, original, [], a, n)
  {}

  /** The lead, which is the `n`-th, has been offered to all of its targets and accepted. */
  ghost predicate PlacedLead(
    before: map<nat, Delivery>, later: map<nat, Delivery>, original: string, lead: Lead, a: Replies, n: nat)
  {
    && Kept(before, later) && StartedOnly(before, later, a) && Willing(before, a, lead, n)
    && Delivers(later, original, lead) && later == GiveLead(before, original, lead)
  }

  lemma {:induction false} PlacedOne(
    before: map<nat, Delivery>, later: map<nat, Delivery>, original: string, lead: Lead, a: Replies, n: nat)
    requires PlacedLead(before, later, original, lead, a, n)
    ensures Placed(before, later, original, [lead], a, n)
  {
    hide Kept, StartedOnly, Willing, Delivers, GiveLead;
    assert [lead][..0] == [] && GiveAll(before, original, []) == before;
  }

  lemma {:induction false} PlacedNowhere(
    deliveries: map<nat, Delivery>, original: string, lead: Lead, a: Replies, n: nat)
    requires lead.targets == []
    ensures PlacedLead(deliveries, deliveries, original, lead, a, n)
  {}

  lemma {:induction false} DeliversOneMore(
    before: map<nat, Delivery>, later: map<nat, Delivery>, original: string, lead: Lead, tgt: nat)
    requires Kept(before, later) && Delivers(before, original, lead)
    requires tgt in later && Accepts(later[tgt], original, lead.address)
    ensures Delivers(later, original, Lead(lead.address, lead.targets + [tgt]))
  {
    assert lead in [lead];
    KeptDelivers(before, later, original, [lead]);
  }

  /** One more target of a lead has accepted its address. */
  lemma {:induction false} PlacedOneMore(
    d0: map<nat, Delivery>, d1: map<nat, Delivery>, d2: map<nat, Delivery>, original: string, lead: Lead,
    tgt: nat, a: Replies, n: nat)
    requires PlacedLead(d0, d1, original, lead, a, n) && Kept(d1, d2) && WillingAt(d1, a, tgt, n, |lead.targets|)
    requires d2 == Give(d1, original, lead.address, tgt) && tgt in d2 && Accepts(d2[tgt], original, lead.address)
    ensures PlacedLead(d0, d2, original, Lead(lead.address, lead.targets + [tgt]), a, n)
  {
    hide Kept, Delivers, Accepts;
    KeptTrans(d0, d1, d2);
    DeliversOneMore(d1, d2, original, lead, tgt);
    assert (lead.targets + [tgt])[..|lead.targets|] == lead.targets;
  }

  /** A target refuses, or cannot be started. */
  lemma {:induction false} StoppedAt(
    d0: map<nat, Delivery>, d1: map<nat, Delivery>, d2: map<nat, Delivery>, original: string, lead: Lead,
    a: Replies, n: nat, j: nat)
    requires j < |lead.targets| && PlacedLead(d0, d1, original, Lead(lead.address, lead.targets[..j]), a, n)
    requires Kept(d1, d2) && StartedOnly(d1, d2, a) && !WillingAt(d1, a, lead.targets[j], n, j)
    ensures Stopped(d0, d2, [lead], a, n)
  {
    hide Kept, Delivers, GiveLead;
    KeptTrans(d0, d1, d2);
    assert !WillingAt(d0, a, lead.targets[j], n, j);
    assert !Willing(d0, a, [lead][0], n + 0);
  }

  lemma {:induction false} WillingConcat(
    before: map<nat, Delivery>, later: map<nat, Delivery>, a: Replies, xs: seq<Lead>, ys: seq<Lead>, n: nat)
    requires StartedOnly(before, later, a)
    ensures WillingAll(before, a, xs + ys, n)
            <==> WillingAll(before, a, xs, n) && WillingAll(later, a, ys, n + |xs|)
  {
    hide Willing, StartedOnly;
    var zs := xs + ys;
    forall k | 0 <= k < |ys|
      ensures Willing(later, a, ys[k], n + |xs| + k) <==> Willing(before, a, zs[|xs| + k], n + (|xs| + k))
    {
      StillWilling(before, later, a, ys[k], n + |xs| + k);
      assert n + |xs| + k == n + (|xs| + k);
    }
    if WillingAll(before, a, zs, n) {
      forall k | 0 <= k < |xs| ensures Willing(before, a, xs[k], n + k) { assert zs[k] == xs[k]; }
    }
  }

  lemma {:induction false} PlacedMore(
    d0: map<nat, Delivery>, d1: map<nat, Delivery>, d2: map<nat, Delivery>, original: string,
    xs: seq<Lead>, ys: seq<Lead>, a: Replies, n: nat)
    requires Placed(d0, d1, original, xs, a, n) && Placed(d1, d2, original, ys, a, n + |xs|)
    ensures Placed(d0, d2, original, xs + ys, a, n)
  {
    hide Kept, StartedOnly, Willing, WillingAll, Delivers, GiveAll;
    KeptTrans(d0, d1, d2);
    StartedThen(d0, d1, d2, a);
    WillingConcat(d0, d1, a, xs, ys, n);
    KeptDelivers(d1, d2, original, xs);
    GiveAllConcat(d0, original, xs, ys);
  }

  lemma {:induction false} PlacedKeeps(
    before: map<nat, Delivery>, later: map<nat, Delivery>, original: string, leads: seq<Lead>, a: Replies, n: nat)
    requires Placed(before, later, original, leads, a, n)
    ensures Kept(before, later)
  {}

  lemma {:induction false} StoppedThere(
    d0: map<nat, Delivery>, d1: map<nat, Delivery>, d2: map<nat, Delivery>, original: string,
    xs: seq<Lead>, ys: seq<Lead>, zs: seq<Lead>, a: Replies, n: nat)
    requires Placed(d0, d1, original, xs, a, n) && Stopped(d1, d2, ys, a, n + |xs|) && xs + ys <= zs
    ensures Stopped(d0, d2, zs, a, n)
  {
    hide Kept, StartedOnly, Willing, WillingAll, Delivers, GiveAll;
    KeptTrans(d0, d1, d2);
    StartedThen(d0, d1, d2, a);
    WillingConcat(d0, d1, a, xs, ys, n);
    WillingConcat(d0, d1, a, xs + ys, zs[|xs + ys|..], n);
    assert zs == (xs + ys) + zs[|xs + ys|..];
  }

  /** The first `n` addresses have been routed, and all they led to has been traced and accepted. */
  ghost predicate Arrived(
    t0: seq<Traced>, t1: seq<Traced>, d0: map<nat, Delivery>, d1: map<nat, Delivery>, to: string, a: Replies, n: nat)
  {
    RoutesOk(a, n) && TracedTo(t0, t1, to, Routed(a, n)) && Placed(d0, d1, to, Routed(a, n), a, 0)
  }

  /** One of the first `n` addresses has no route, or something they lead to has not been accepted. */
  ghost predicate Missed(d0: map<nat, Delivery>, d1: map<nat, Delivery>, a: Replies, n: nat) {
    Kept(d0, d1) && !(RoutesOk(a, n) && WillingAll(d0, a, Routed(a, n), 0))
  }

  lemma {:induction false} ArrivedNowhere(trace: seq<Traced>, deliveries: map<nat, Delivery>, to: string, a: Replies)
    ensures Arrived(trace, trace, deliveries, deliveries, to, a, 0)
  {
    hide Placed;
    PlacedNone(deliveries, to, a, 0);
  }

  lemma {:induction false} ArrivedTraced(
    t0: seq<Traced>, t1: seq<Traced>, d0: map<nat, Delivery>, d1: map<nat, Delivery>, to: string, a: Replies, n: nat)
    requires Arrived(t0, t1, d0, d1, to, a, n)
    ensures TracedInto(t0, t1, to, Routed(a, n))
  {
    TracedBefore(t0, t1, to, a, n, n);
  }

  lemma {:induction false} ArrivedNext(
    t0: seq<Traced>, t1: seq<Traced>, t2: seq<Traced>, d0: map<nat, Delivery>, d1: map<nat, Delivery>,
    d2: map<nat, Delivery>, to: string, a: Replies, i: nat)
    requires Arrived(t0, t1, d0, d1, to, a, i) && a.route(i).Some?
    requires var leads := RouteLeads(a.route(i).value);
             && TracedInto(t1, t2, to, leads) && TracedTo(t1, t2, to, leads)
             && Placed(d1, d2, to, leads, a, |Routed(a, i)|)
    ensures Arrived(t0, t2, d0, d2, to, a, i + 1)
  {
    hide Placed, TracedTo, TracedInto, RouteLeads, Routed;
    RoutedNext(a, i, i + 1);
    TracedNext(t0, t1, t2, to, a, i, i + 1);
    PlacedMore(d0, d1, d2, to, Routed(a, i), RouteLeads(a.route(i).value), a, 0);
  }

  lemma {:induction false} MissedRoute(
    t0: seq<Traced>, t1: seq<Traced>, d0: map<nat, Delivery>, d1: map<nat, Delivery>, to: string, a: Replies,
    i: nat, n: nat)
    requires Arrived(t0, t1, d0, d1, to, a, i) && i < n && a.route(i).None?
    ensures Missed(d0, d1, a, n) && TracedInto(t0, t1, to, Routed(a, n))
  {
    hide TracedTo, TracedInto, Routed, Kept, WillingAll;
    PlacedKeeps(d0, d1, to, Routed(a, i), a, 0);
    TracedBefore(t0, t1, to, a, i, n);
  }

  lemma {:induction false} MissedLead(
    t0: seq<Traced>, t1: seq<Traced>, t2: seq<Traced>, d0: map<nat, Delivery>, d1: map<nat, Delivery>,
    d2: map<nat, Delivery>, to: string, a: Replies, i: nat, n: nat)
    requires Arrived(t0, t1, d0, d1, to, a, i) && i < n && a.route(i).Some?
    requires var leads := RouteLeads(a.route(i).value);
             TracedInto(t1, t2, to, leads) && Stopped(d1, d2, leads, a, |Routed(a, i)|)
    ensures Missed(d0, d2, a, n) && TracedInto(t0, t2, to, Routed(a, n))
  {
    hide Placed, TracedTo, TracedInto, RouteLeads, Routed, Kept, WillingAll, StartedOnly;
    RoutedNext(a, i, n);
    TracedNext(t0, t1, t2, to, a, i, n);
    StoppedThere(d0, d1, d2, to, Routed(a, i), RouteLeads(a.route(i).value), Routed(a, n), a, 0);
  }

  lemma {:induction false} LastAccepted(d: Delivery, trace: seq<Traced>, original: string, to: string)
    requires DeliveryOk(d, trace)
    ensures Accepts(Delivery(d.recipients + [original], d.accepted + [to], d.offered + {to}), original, to)
  {
    var i := |d.recipients|;
    assert (d.recipients + [original])[i] == original && (d.accepted + [to])[i] == to;
  }
}
