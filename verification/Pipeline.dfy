/**
 One message on its way through the pipeline: its recipients, its deliveries and its statuses
 (internal/msgpipeline/msgpipeline.go:280-376, 438-502, 619-636).
 */
module Pipeline {
  import opened Common
  import opened Tracing
  import opened Offers
  import opened Statuses

  class PipelineDelivery {
    var originalRcpts: map<string, string>
    var deliveries: map<nat, Delivery>
    ghost var presented: seq<string>
    ghost var trace: seq<Traced>

    ghost predicate Valid()
      reads this
    {
      && MapOk(originalRcpts, trace)
      && (forall p :: p in trace ==> p.original in presented)
      && (forall t :: t in deliveries ==> DeliveryOk(deliveries[t], trace))
    }

    constructor ()
      ensures Valid() && presented == [] && trace == [] && deliveries == map[] && originalRcpts == map[]
    {
      originalRcpts, deliveries, presented, trace := map[], map[], [], [];
    }

    /** `getDelivery`: starting a delivery to a target that has none may fail. */
    method GetDelivery(tgt: nat, starts: bool) returns (ok: bool)
      requires Valid()
      modifies this`deliveries
      ensures Valid() && (ok <==> tgt in old(deliveries) || starts)
      ensures ok ==> deliveries == if tgt in old(deliveries) then old(deliveries)
        else old(deliveries)[tgt := Delivery([], [], {})]
      ensures !ok ==> tgt !in deliveries && deliveries == old(deliveries)
    {
      if tgt in deliveries { return true; }
      ok := starts;
      if ok { deliveries := deliveries[tgt := Delivery([], [], {})]; }
    }

    /** Offering one address to one target. */
    method OfferTo(original: string, to: string, tgt: nat, a: Replies, n: nat, j: nat) returns (ok: bool)
      requires Valid() && Traced(original, to) in trace
      modifies this`deliveries
      ensures Valid() && Kept(old(deliveries), deliveries) && StartedOnly(old(deliveries), deliveries, a)
      ensures ok <==> WillingAt(old(deliveries), a, tgt, n, j)
      ensures ok ==> tgt in deliveries && Accepts(deliveries[tgt], original, to)
      ensures ok ==> deliveries == Give(old(deliveries), original, to, tgt)
    {
      hide MapOk, DeliveryOk, Kept, Accepts, Give;
      ok := GetDelivery(tgt, a.starts(tgt));
      KeptStart(old(deliveries), deliveries);
      if !ok { return; }
      var d := deliveries[tgt];
      ghost var started := deliveries;
      OfferedOk(d, trace, original, to);
      KeptOne(old(deliveries), deliveries, tgt, original, to);
      GiveToStarted(old(deliveries), started, original, to, tgt);
      deliveries := deliveries[tgt := d.(offered := d.offered + {to})];
      ok := a.accepts(n, j);
      if !ok { return; }
      deliveries := deliveries[tgt := Delivery(d.recipients + [original], d.accepted + [to], d.offered + {to})];
      GiveIs(started, deliveries, original, to, tgt);
      LastAccepted(d, trace, original, to);
    }

    /** The innermost loop of `AddRcpt`: offering one address to the targets of its block. */
    method Offer(original: string, lead: Lead, a: Replies, n: nat) returns (ok: bool)
      requires Valid() && Traced(original, lead.address) in trace
      modifies this`deliveries
      ensures Valid()
      ensures if ok then Placed(old(deliveries), deliveries, original, [lead], a, n)
              else Stopped(old(deliveries), deliveries, [lead], a, n)
    {
      hide MapOk, DeliveryOk, Accepts, Kept, PlacedLead, Placed, Stopped, Give, WillingAt;
      var targets := lead.targets;
      PlacedNowhere(deliveries, original, Lead(lead.address, targets[..0]), a, n);
      for i := 0 to |targets|
        invariant Valid() && PlacedLead(old(deliveries), deliveries, original, Lead(lead.address, targets[..i]), a, n)
      {
        ghost var before := deliveries;
        ok := OfferTo(original, lead.address, targets[i], a, n, i);
        if !ok {
          StoppedAt(old(deliveries), before, deliveries, original, lead, a, n, i);
          return;
        }
        PlacedOneMore(
          old(deliveries), before, deliveries, original, Lead(lead.address, targets[..i]), targets[i], a, n);
        assert targets[..i + 1] == targets[..i] + [targets[i]];
      }
      ok := true;
      assert targets[..|targets|] == targets;
      PlacedOne(old(deliveries), deliveries, original, lead, a, n);
    }

    /** Recording where rewriting a recipient has led. */
    method Record(original: string, to: string)
      requires Valid() && original in presented
      modifies this`originalRcpts, this`trace
      ensures Valid() && trace == old(trace) + [Traced(original, to)]
    {
      hide MapOk, DeliveryOk;
      MapStaysOk(originalRcpts, trace, Traced(original, to));
      forall t | t in deliveries ensures DeliveryOk(deliveries[t], trace + [Traced(original, to)]) {
        DeliveryStaysOk(deliveries[t], trace, [Traced(original, to)]);
      }
      if original != to { originalRcpts := originalRcpts[to := original]; }
      trace := trace + [Traced(original, to)];
    }

    /** One address that a block's modifiers came up with. */
    method OfferLead(original: string, lead: Lead, a: Replies, n: nat) returns (ok: bool)
      requires Valid() && original in presented
      modifies this`originalRcpts, this`trace, this`deliveries
      ensures Valid() && trace == old(trace) + [Traced(original, lead.address)]
      ensures if ok then Placed(old(deliveries), deliveries, original, [lead], a, n)
              else Stopped(old(deliveries), deliveries, [lead], a, n)
    {
      hide MapOk, DeliveryOk, Placed, Stopped;
      Record(original, lead.address);
      assert trace[|trace| - 1] == Traced(original, lead.address);
      ok := Offer(original, lead, a, n);
    }

    /** The middle loop of `AddRcpt`: the addresses that a block's modifiers came up with. */
    method OfferAll(original: string, leads: seq<Lead>, a: Replies, n: nat) returns (ok: bool)
      requires Valid() && original in presented
      modifies this`originalRcpts, this`trace, this`deliveries
      ensures Valid() && TracedInto(old(trace), trace, original, leads)
      ensures if ok then
                && TracedTo(old(trace), trace, original, leads)
                && Placed(old(deliveries), deliveries, original, leads, a, n)
              else Stopped(old(deliveries), deliveries, leads, a, n)
    {
      hide MapOk, DeliveryOk, Placed, Stopped;
      PlacedNone(deliveries, original, a, n);
      for i := 0 to |leads|
        invariant Valid() && trace == old(trace) + TraceOf(original, leads[..i])
        invariant Placed(old(deliveries), deliveries, original, leads[..i], a, n)
      {
        ghost var before := deliveries;
        ok := OfferLead(original, leads[i], a, n + i);
        assert trace == old(trace) + TraceOf(original, leads[..i + 1]);
        assert leads[..i + 1] == leads[..i] + [leads[i]];
        if !ok {
          StoppedThere(old(deliveries), before, deliveries, original, leads[..i], [leads[i]], leads, a, n);
          return;
        }
        PlacedMore(old(deliveries), before, deliveries, original, leads[..i], [leads[i]], a, n);
      }
      ok := true;
      assert leads[..|leads|] == leads;
    }

    /** The first loop of `AddRcpt`: the source's modifiers. */
    method ApplySource(a: Answers, resultTo: seq<string>) returns (ok: bool, newTo: seq<string>)
      ensures ok <==> SourceOk(a, resultTo)
      ensures ok ==> newTo == Sourced(a, resultTo, |resultTo|)
    {
      newTo := [];
      for i := 0 to |resultTo|
        invariant newTo == Sourced(a, resultTo, i) && forall j :: 0 <= j < i ==> a.source(j, resultTo[j]).Some?
      {
        var tempTo := a.source(i, resultTo[i]);
        if tempTo.None? { return false, newTo; }
        newTo := newTo + tempTo.value;
      }
      ok := true;
    }

    /** The outer loop of `AddRcpt`: routing `n` addresses. */
    method OfferRoutes(to: string, a: Replies, n: nat) returns (ok: bool)
      requires Valid() && to in presented
      modifies this`originalRcpts, this`trace, this`deliveries
      ensures Valid() && TracedInto(old(trace), trace, to, Routed(a, n))
      ensures if ok then Arrived(old(trace), trace, old(deliveries), deliveries, to, a, n)
              else Missed(old(deliveries), deliveries, a, n)
    {
      hide MapOk, DeliveryOk, Arrived, Missed, Stopped, Placed, TracedTo, TracedInto, RouteLeads, Routed;
      ArrivedNowhere(trace, deliveries, to, a);
      for i := 0 to n
        invariant Valid() && Arrived(old(trace), trace, old(deliveries), deliveries, to, a, i)
      {
        ghost var before, traced := deliveries, trace;
        if a.route(i).None? {
          MissedRoute(old(trace), trace, old(deliveries), deliveries, to, a, i, n);
          return false;
        }
        ok := OfferAll(to, RouteLeads(a.route(i).value), a, |Routed(a, i)|);
        if !ok {
          MissedLead(old(trace), traced, trace, old(deliveries), before, deliveries, to, a, i, n);
          return;
        }
        ArrivedNext(old(trace), traced, trace, old(deliveries), before, deliveries, to, a, i);
      }
      ok := true;
      ArrivedTraced(old(trace), trace, old(deliveries), deliveries, to, a, n);
    }

    /**
     `AddRcpt` succeeds exactly if nothing is refused and all targets are willing. Then the recipient is
     traced to exactly the addresses that rewriting leads to, in order, and every target of each has accepted
     it once more; otherwise it is traced to the first of them.
     */
    method AddRcpt(to: string, a: Answers) returns (ok: bool)
      requires Valid()
      modifies this
      ensures Valid() && presented == old(presented) + [to] && Kept(old(deliveries), deliveries)
      ensures TracedInto(old(trace), trace, to, AllLeads(a, to))
      ensures ok <==> Unrefused(a, to) && WillingAll(old(deliveries), RepliesTo(a, to), AllLeads(a, to), 0)
      ensures ok ==> TracedTo(old(trace), trace, to, AllLeads(a, to)) && DeliversAll(deliveries, to, AllLeads(a, to))
      ensures ok ==> deliveries == GiveAll(old(deliveries), to, AllLeads(a, to))
    {
      hide MapOk, DeliveryOk, Kept, DeliversAll, Sourced, Routed, TraceOf, GiveAll, StartedOnly, WillingAll;
      KeptStart(deliveries, deliveries);
      presented := presented + [to];
      assert presented[|presented| - 1] == to;
      var resultTo := a.global(to);
      if resultTo.None? { return false; }
      var newTo;
      ok, newTo := ApplySource(a, resultTo.value);
      if !ok { return; }
      ok := OfferRoutes(to, RepliesFor(a, newTo), |newTo|);
    }

    /** One delivery's share of `BodyNonAtomic`. */
    method DeliverTo(tgt: nat, o: Outcome) returns (statuses: seq<Status>)
      requires Valid() && tgt in deliveries
      ensures statuses == Says(deliveries[tgt], trace, o)
    {
      var d := deliveries[tgt];
      hide DeliveryOk;
      match o
      case Partial(reports) =>
        statuses := [];
        for i := 0 to |reports|
          invariant |statuses| == i && forall j :: 0 <= j < i ==>
            statuses[j] == Status(Name(trace, reports[j].rcpt), reports[j].failed)
        {
          statuses := statuses + [Status(Translate(originalRcpts, reports[i].rcpt), reports[i].failed)];
        }
      case Whole(true) =>
        statuses := [];
      case Whole(false) =>
        statuses := AllFailed(d.recipients);
    }

    /** Reporting one error for every recipient of every delivery. */
    method SetStatusAll() returns (statuses: seq<Status>, ghost order: seq<nat>)
      requires Valid()
      ensures Visits(deliveries, order)
      ensures statuses == Heard(deliveries, trace, order, t => Whole(false))
      ensures forall st ::
        st in statuses <==> exists t :: t in deliveries && st.failed && st.rcpt in deliveries[t].recipients
    {
      hide MapOk, DeliveryOk;
      statuses, order := [], [];
      var left := deliveries.Keys;
      while left != {}
        invariant left <= deliveries.Keys && forall t :: t in order <==> t in deliveries && t !in left
        invariant Distinct(order)
        invariant statuses == Heard(deliveries, trace, order, t => Whole(false))
        decreases |left|
      {
        var t :| t in left;
        var all := AllFailed(deliveries[t].recipients);
        assert all == Says(deliveries[t], trace, Whole(false));
        assert (order + [t])[..|order|] == order;
        statuses, left, order := statuses + all, left - {t}, order + [t];
      }
      AllHearFailure(deliveries, trace, order);
    }

    /** `BodyNonAtomic`: `complete` says that checks and body modifiers let the message get to the targets. */
    method BodyNonAtomic(complete: bool, answer: nat -> Outcome)
      returns (statuses: seq<Status>, ghost order: seq<nat>)
      requires Valid()
      ensures Visits(deliveries, order)
      ensures complete ==> statuses == Heard(deliveries, trace, order, answer)
      ensures complete ==> forall st ::
        st in statuses <==> exists t :: t in deliveries && ComesFrom(deliveries[t], trace, answer(t), st)
      ensures !complete ==> statuses == Heard(deliveries, trace, order, t => Whole(false))
      ensures Honest(deliveries, answer) || !complete ==>
        forall st :: st in statuses ==> Told(deliveries, trace, st.rcpt) && st.rcpt in presented
    {
      hide MapOk, DeliveryOk, Says;
      if !complete {
        statuses, order := SetStatusAll();
      } else {
        statuses, order := [], [];
        var left := deliveries.Keys;
        while left != {}
          invariant left <= deliveries.Keys && forall t :: t in order <==> t in deliveries && t !in left
          invariant Distinct(order)
          invariant statuses == Heard(deliveries, trace, order, answer)
          decreases |left|
        {
          var t :| t in left;
          var more := DeliverTo(t, answer(t));
          assert (order + [t])[..|order|] == order;
          statuses, left, order := statuses + more, left - {t}, order + [t];
        }
      }
      HeardFromVisited(deliveries, trace, order, answer);
      HeardIsTold(deliveries, trace, presented, order, if complete then answer else t => Whole(false));
    }

    /**
     The loop of `Body` and `Commit` over the deliveries, which stops at the first one that fails: `called` are the
     deliveries that were called.
     */
    method InTurn(answer: nat -> bool) returns (ok: bool, ghost called: seq<nat>)
      ensures ok <==> forall t :: t in deliveries ==> answer(t)
      ensures Distinct(called) && forall t :: t in called ==> t in deliveries
      ensures if ok then Visits(deliveries, called) else called != [] && !answer(called[|called| - 1])
      ensures forall i :: 0 <= i < |called| - 1 ==> answer(called[i])
    {
      called := [];
      var left := deliveries.Keys;
      while left != {}
        invariant left <= deliveries.Keys && forall t :: t in called <==> t in deliveries && t !in left
        invariant Distinct(called) && forall t :: t in called ==> answer(t)
        decreases |left|
      {
        var t :| t in left;
        left, called := left - {t}, called + [t];
        if !answer(t) {
          forall i | 0 <= i < |called| - 1 ensures answer(called[i]) { assert called[i] in called[..|called| - 1]; }
          return false, called;
        }
      }
      return true, called;
    }

    /** `Body`: `complete` says that checks and body modifiers let the message get to the targets. */
    method Body(complete: bool, answer: nat -> bool) returns (ok: bool, ghost called: seq<nat>)
      ensures ok <==> complete && forall t :: t in deliveries ==> answer(t)
      ensures called != [] ==> complete
      ensures Distinct(called) && forall t :: t in called ==> t in deliveries
      ensures if ok then Visits(deliveries, called) else complete ==> called != [] && !answer(called[|called| - 1])
      ensures forall i :: 0 <= i < |called| - 1 ==> answer(called[i])
    {
      if !complete { return false, []; }
      ok, called := InTurn(answer);
    }

    /** `Commit`: after a failure the other deliveries are left as they are. */
    method Commit(answer: nat -> bool) returns (ok: bool, ghost called: seq<nat>)
      ensures ok <==> forall t :: t in deliveries ==> answer(t)
      ensures Distinct(called) && forall t :: t in called ==> t in deliveries
      ensures if ok then Visits(deliveries, called) else called != [] && !answer(called[|called| - 1])
      ensures forall i :: 0 <= i < |called| - 1 ==> answer(called[i])
    {
      ok, called := InTurn(answer);
    }

    /** `Abort`: every delivery is aborted, whatever the others answer. */
    method Abort(answer: nat -> bool) returns (ok: bool, ghost called: seq<nat>)
      ensures ok <==> forall t :: t in deliveries ==> answer(t)
      ensures Visits(deliveries, called)
    {
      ok, called := true, [];
      var left := deliveries.Keys;
      while left != {}
        invariant left <= deliveries.Keys && forall t :: t in called <==> t in deliveries && t !in left
        invariant Distinct(called) && (ok <==> forall t :: t in called ==> answer(t))
        decreases |left|
      {
        var t :| t in left;
        left, called := left - {t}, called + [t];
        if !answer(t) { ok := false; }
      }
    }
  }
}
