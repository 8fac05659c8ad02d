/**
 What the client hears when the body has been handed to the targets
 (internal/msgpipeline/msgpipeline.go:438-502). A target may report on any address.
 */
module Statuses {
  import opened Common
  import opened Tracing

  datatype Status = Status(rcpt: string, failed: bool)

  /** What a target makes of the body: it reports on addresses by itself, or takes or refuses the body as a whole. */
  datatype Outcome = Partial(reports: seq<Status>) | Whole(ok: bool)

  /** What the client hears of one target. */
  function Says(d: Delivery, trace: seq<Traced>, o: Outcome): seq<Status> {
    match o
    case Partial(reports) =>
      seq(|reports|, i requires 0 <= i < |reports| => Status(Name(trace, reports[i].rcpt), reports[i].failed))
    case Whole(ok) =>
      if ok then []
      else seq(|d.recipients|, i requires 0 <= i < |d.recipients| => Status(d.recipients[i], true))
  }

  /** What the client hears of the targets in order. */
  function Heard(
    deliveries: map<nat, Delivery>, trace: seq<Traced>, order: seq<nat>, answer: nat -> Outcome): seq<Status>
    requires forall t :: t in order ==> t in deliveries
  {
    if order == [] then []
    else
      var n := |order| - 1;
      Heard(deliveries, trace, order[..n], answer) + Says(deliveries[order[n]], trace, answer(order[n]))
  }

  /** The order visits every delivery once. */
  ghost predicate Visits(deliveries: map<nat, Delivery>, order: seq<nat>) {
    (forall t :: t in order <==> t in deliveries) && Distinct(order)
  }

  /** Targets report on addresses that they were given. */
  ghost predicate Honest(deliveries: map<nat, Delivery>, answer: nat -> Outcome) {
    forall t, st :: t in deliveries && answer(t).Partial? && st in answer(t).reports ==>
      st.rcpt in deliveries[t].offered
  }

  /** The status comes from this target. */
  ghost predicate ComesFrom(d: Delivery, trace: seq<Traced>, o: Outcome, st: Status) {
    if o.Partial? then exists r :: r in o.reports && st == Status(Name(trace, r.rcpt), r.failed)
    else !o.ok && st.failed && st.rcpt in d.recipients
  }

  lemma {:induction false} SaysMeaning(d: Delivery, trace: seq<Traced>, o: Outcome, st: Status)
    ensures st in Says(d, trace, o) <==> ComesFrom(d, trace, o, st)
  {
    var says := Says(d, trace, o);
    if ComesFrom(d, trace, o, st) {
      if o.Partial? {
        var i :| 0 <= i < |o.reports| && st == Status(Name(trace, o.reports[i].rcpt), o.reports[i].failed);
        assert says[i] == st;
      } else {
        var i :| 0 <= i < |d.recipients| && d.recipients[i] == st.rcpt;
        assert says[i] == st;
      }
    }
    if st in says {
      var i :| 0 <= i < |says| && says[i] == st;
      if o.Partial? { assert o.reports[i] in o.reports; }
    }
  }

  /**
   The client hears of a failure of a whole target for each of its recipients, of every report of a target
   that reports by itself, under the name of the recipient, and of nothing else.
   */
  lemma {:induction false} HeardMeaning(
    deliveries: map<nat, Delivery>, trace: seq<Traced>, order: seq<nat>, answer: nat -> Outcome, st: Status)
    requires forall t :: t in order ==> t in deliveries
    ensures st in Heard(deliveries, trace, order, answer)
            <==> exists t :: t in order && ComesFrom(deliveries[t], trace, answer(t), st)
  {
    hide Says, ComesFrom;
    if order != [] {
      var n := |order| - 1;
      assert forall t :: t in order <==> t in order[..n] || t == order[n];
      HeardMeaning(deliveries, trace, order[..n], answer, st);
      SaysMeaning(deliveries[order[n]], trace, answer(order[n]), st);
    }
  }

  lemma {:induction false} HeardFromVisited(
    deliveries: map<nat, Delivery>, trace: seq<Traced>, order: seq<nat>, answer: nat -> Outcome)
    requires Visits(deliveries, order)
    ensures forall st :: st in Heard(deliveries, trace, order, answer) <==>
              exists t :: t in deliveries && ComesFrom(deliveries[t], trace, answer(t), st)
  {
    hide Heard, ComesFrom;
    forall st ensures st in Heard(deliveries, trace, order, answer) <==>
                exists t :: t in deliveries && ComesFrom(deliveries[t], trace, answer(t), st) {
      HeardMeaning(deliveries, trace, order, answer, st);
    }
  }

  /** If everything failed, exactly the recipients of the deliveries hear of it. */
  lemma {:induction false} AllHearFailure(deliveries: map<nat, Delivery>, trace: seq<Traced>, order: seq<nat>)
    requires Visits(deliveries, order)
    ensures forall st :: st in Heard(deliveries, trace, order, t => Whole(false)) <==>
              exists t :: t in deliveries && st.failed && st.rcpt in deliveries[t].recipients
  {
    hide Heard;
    HeardFromVisited(deliveries, trace, order, t => Whole(false));
  }

  lemma {:induction false} HeardLast(
    deliveries: map<nat, Delivery>, trace: seq<Traced>, order: seq<nat>, answer: nat -> Outcome)
    requires order != [] && forall t :: t in order ==> t in deliveries
    ensures var n := |order| - 1;
            multiset(Heard(deliveries, trace, order, answer))
            == multiset(Heard(deliveries, trace, order[..n], answer))
               + multiset(Says(deliveries[order[n]], trace, answer(order[n])))
  {
    hide Says;
  }

  lemma {:induction false} HeardWithout(
    deliveries: map<nat, Delivery>, trace: seq<Traced>, order: seq<nat>, answer: nat -> Outcome, k: nat)
    requires k < |order| && forall t :: t in order ==> t in deliveries
    ensures var others := order[..k] + order[k + 1..];
            && (forall t :: t in others ==> t in deliveries)
            && multiset(Heard(deliveries, trace, order, answer))
               == multiset(Heard(deliveries, trace, others, answer))
                  + multiset(Says(deliveries[order[k]], trace, answer(order[k])))
  {
    hide Says, Heard;
    var n := |order| - 1;
    var others := order[..k] + order[k + 1..];
    HeardLast(deliveries, trace, order, answer);
    if k == n {
      assert others == order[..n];
    } else {
      HeardWithout(deliveries, trace, order[..n], answer, k);
      assert others[..n - 1] == order[..n][..k] + order[..n][k + 1..] && others[n - 1] == order[n];
      HeardLast(deliveries, trace, others, answer);
    }
  }

  /** Permutations stay permutations without the last element of one, wherever it stands in the other. */
  lemma {:induction false} PermutedWithout<T(!new)>(xs: seq<T>, ys: seq<T>) returns (k: nat)
    requires xs != [] && multiset(xs) == multiset(ys)
    ensures k < |ys| && ys[k] == xs[|xs| - 1] && multiset(xs[..|xs| - 1]) == multiset(ys[..k] + ys[k + 1..])
  {
    var n := |xs| - 1;
    assert xs == xs[..n] + [xs[n]];
    assert xs[n] in multiset(ys);
    k :| 0 <= k < |ys| && ys[k] == xs[n];
    var others := ys[..k] + ys[k + 1..];
    assert ys == ys[..k] + [ys[k]] + ys[k + 1..];
    assert multiset(ys) == multiset(others) + multiset{ys[k]};
    assert multiset(xs) == multiset(xs[..n]) + multiset{xs[n]};
    forall x ensures multiset(xs[..n])[x] == multiset(others)[x] {
      assert multiset(xs)[x] == multiset(ys)[x];
    }
  }

  lemma {:induction false} HeardPermuted(
    deliveries: map<nat, Delivery>, trace: seq<Traced>, xs: seq<nat>, ys: seq<nat>, answer: nat -> Outcome)
    requires multiset(xs) == multiset(ys)
    requires (forall t :: t in xs ==> t in deliveries) && (forall t :: t in ys ==> t in deliveries)
    ensures multiset(Heard(deliveries, trace, xs, answer)) == multiset(Heard(deliveries, trace, ys, answer))
    decreases |xs|
  {
    if xs == [] {
      assert |multiset(ys)| == |ys|;
    } else {
      hide Says, Heard;
      var k := PermutedWithout(xs, ys);
      HeardLast(deliveries, trace, xs, answer);
      HeardWithout(deliveries, trace, ys, answer, k);
      HeardPermuted(deliveries, trace, xs[..|xs| - 1], ys[..k] + ys[k + 1..], answer);
    }
  }

  lemma {:induction false} VisitsOnce(xs: seq<nat>, t: nat)
    requires Distinct(xs)
    ensures multiset(xs)[t] == if t in xs then 1 else 0
  {
    if xs != [] {
      var n := |xs| - 1;
      VisitsOnce(xs[..n], t);
      assert xs == xs[..n] + [xs[n]];
    }
  }

  /** In whatever order the targets are visited, the client hears the same, equally often. */
  lemma {:induction false} HeardInAnyOrder(
    deliveries: map<nat, Delivery>, trace: seq<Traced>, xs: seq<nat>, ys: seq<nat>, answer: nat -> Outcome)
    requires Visits(deliveries, xs) && Visits(deliveries, ys)
    ensures multiset(Heard(deliveries, trace, xs, answer)) == multiset(Heard(deliveries, trace, ys, answer))
  {
    forall t ensures multiset(xs)[t] == multiset(ys)[t] {
      VisitsOnce(xs, t);
      VisitsOnce(ys, t);
    }
    HeardPermuted(deliveries, trace, xs, ys, answer);
  }

  lemma {:induction false} HonestIsTold(
    deliveries: map<nat, Delivery>, trace: seq<Traced>, t: nat, answer: nat -> Outcome, st: Status)
    requires t in deliveries && DeliveryOk(deliveries[t], trace) && Honest(deliveries, answer)
    requires ComesFrom(deliveries[t], trace, answer(t), st)
    ensures Told(deliveries, trace, st.rcpt)
  {
    if answer(t).Partial? {
      var r :| r in answer(t).reports && st == Status(Name(trace, r.rcpt), r.failed);
      NameLeadsThere(trace, r.rcpt);
    }
    assert Names(deliveries, trace, t, st.rcpt);
  }

  lemma {:induction false} HeardIsTold(
    deliveries: map<nat, Delivery>, trace: seq<Traced>, presented: seq<string>, order: seq<nat>,
    answer: nat -> Outcome)
    requires Visits(deliveries, order) && forall t :: t in deliveries ==> DeliveryOk(deliveries[t], trace)
    requires forall p :: p in trace ==> p.original in presented
    ensures Honest(deliveries, answer) ==> forall st :: st in Heard(deliveries, trace, order, answer) ==>
              Told(deliveries, trace, st.rcpt) && st.rcpt in presented
  {
    hide DeliveryOk, Told, Honest, ComesFrom, Heard;
    if Honest(deliveries, answer) {
      forall st | st in Heard(deliveries, trace, order, answer)
        ensures Told(deliveries, trace, st.rcpt) && st.rcpt in presented
      {
        HeardMeaning(deliveries, trace, order, answer, st);
        var t :| t in order && ComesFrom(deliveries[t], trace, answer(t), st);
        HonestIsTold(deliveries, trace, t, answer, st);
        ToldIsPresented(deliveries, trace, presented, st.rcpt);
      }
    }
  }

  /** The target was given an address which this recipient led to, or which it accepted for this recipient. */
  ghost predicate Names(deliveries: map<nat, Delivery>, trace: seq<Traced>, tgt: nat, rcpt: string) {
    && tgt in deliveries
    && (rcpt in deliveries[tgt].recipients || exists a :: a in deliveries[tgt].offered && Traced(rcpt, a) in trace)
  }

  ghost predicate Told(deliveries: map<nat, Delivery>, trace: seq<Traced>, rcpt: string) {
    exists t :: t in deliveries && Names(deliveries, trace, t, rcpt)
  }

  lemma {:induction false} ToldIsPresented(
    deliveries: map<nat, Delivery>, trace: seq<Traced>, presented: seq<string>, rcpt: string)
    requires Told(deliveries, trace, rcpt) && forall t :: t in deliveries ==> DeliveryOk(deliveries[t], trace)
    requires forall p :: p in trace ==> p.original in presented
    ensures rcpt in presented
  {}

  /** The loop that reports an error for a list of recipients. */
  method AllFailed(recipients: seq<string>) returns (statuses: seq<Status>)
    ensures |statuses| == |recipients| && forall i :: 0 <= i < |recipients| ==>
      statuses[i] == Status(recipients[i], true)
    ensures forall st :: st in statuses ==> st.failed && st.rcpt in recipients
    ensures forall r :: r in recipients ==> Status(r, true) in statuses
  {
    statuses := [];
    for i := 0 to |recipients|
      invariant |statuses| == i && forall j :: 0 <= j < i ==> statuses[j] == Status(recipients[j], true)
    {
      statuses := statuses + [Status(recipients[i], true)];
    }
    forall r | r in recipients ensures Status(r, true) in statuses {
      var i :| 0 <= i < |recipients| && recipients[i] == r;
      assert statuses[i] == Status(r, true);
    }
  }
}
