/**
 The life of a delivery object under every sequence of commands and every interleaving.
 */
module SessionCalls {
  import opened Common
  import opened Sessions

  predicate Ends(c: Call) { c.Commit? || c.Abort? }

  /** Nothing is called on a delivery that was committed or aborted. */
  predicate NothingAfterEnd(calls: seq<Call>) {
    forall i, j :: 0 <= i < j < |calls| && Ends(calls[i]) ==> calls[j].id != calls[i].id
  }

  /** The call that comes before a commit: a body that succeeded, or in LMTP the per-recipient body, however it went. */
  predicate Delivered(c: Call, lmtp: bool) { if lmtp then c.BodyNonAtomic? else c.Body? && c.ok }

  predicate CommitsAfterBody(calls: seq<Call>, lmtp: bool) {
    forall j :: 0 <= j < |calls| && calls[j].Commit? ==> BodyBefore(calls, lmtp, j)
  }

  predicate BodyBefore(calls: seq<Call>, lmtp: bool, j: nat)
    requires j < |calls|
  {
    exists i :: 0 <= i < j && calls[i].id == calls[j].id && Delivered(calls[i], lmtp)
  }

  predicate IsOpen(calls: seq<Call>, d: nat) {
    forall i :: 0 <= i < |calls| && Ends(calls[i]) ==> calls[i].id != d
  }

  predicate KnownIds(calls: seq<Call>, started: nat) {
    forall i :: 0 <= i < |calls| ==> calls[i].id < started
  }

  /** Whatever can be committed was. */
  predicate BodiesCommitted(calls: seq<Call>, lmtp: bool) {
    forall c :: c in calls && Delivered(c, lmtp) ==> Commit(c.id) in calls
  }

  predicate LogOk(env: Env, s: Session) {
    && NothingAfterEnd(s.calls) && CommitsAfterBody(s.calls, env.lmtp) && BodiesCommitted(s.calls, env.lmtp)
    && KnownIds(s.calls, s.started)
  }

  /** A session's log is fine, and the delivery it can still use is open. */
  predicate CallsOk(env: Env, s: Session) {
    && LogOk(env, s)
    && (s.delivery.Some? ==> s.delivery.value < s.started)
    && (s.delivery.Some? && s.at.Resting? ==> IsOpen(s.calls, s.delivery.value))
    && (s.at.Releasing? && s.at.next.FailStart? ==> s.delivery.None?)
    && (s.at.Opening? || s.at.Taking? || s.at.Starting? ==> s.delivery.None?)
  }

  lemma {:induction false} CallOnOpen(calls: seq<Call>, c: Call, lmtp: bool)
    requires NothingAfterEnd(calls) && CommitsAfterBody(calls, lmtp) && IsOpen(calls, c.id)
    requires c.Commit? ==> exists i :: 0 <= i < |calls| && calls[i].id == c.id && Delivered(calls[i], lmtp)
    ensures NothingAfterEnd(calls + [c]) && CommitsAfterBody(calls + [c], lmtp)
    ensures BodiesCommitted(calls, lmtp) && !Delivered(c, lmtp) ==> BodiesCommitted(calls + [c], lmtp)
    ensures !Ends(c) ==> IsOpen(calls + [c], c.id)
  {
    var l := calls + [c];
    forall j | 0 <= j < |l| && l[j].Commit?
      ensures BodyBefore(l, lmtp, j)
    {
      if j < |calls| {
        assert BodyBefore(calls, lmtp, j);
        var i :| 0 <= i < j && calls[i].id == calls[j].id && Delivered(calls[i], lmtp);
        assert l[i].id == l[j].id;
      } else {
        var i :| 0 <= i < |calls| && calls[i].id == c.id && Delivered(calls[i], lmtp);
        assert l[i].id == l[j].id;
      }
    }
  }

  /** A body call of the kind that a commit needs, then the commit. */
  lemma {:induction false} BodyThenCommit(calls: seq<Call>, body: Call, lmtp: bool)
    requires NothingAfterEnd(calls) && CommitsAfterBody(calls, lmtp) && BodiesCommitted(calls, lmtp)
    requires IsOpen(calls, body.id) && Delivered(body, lmtp)
    ensures NothingAfterEnd(calls + [body, Commit(body.id)]) && CommitsAfterBody(calls + [body, Commit(body.id)], lmtp)
    ensures BodiesCommitted(calls + [body, Commit(body.id)], lmtp)
  {
    CallOnOpen(calls, body, lmtp);
    var l := calls + [body];
    assert l[|calls|].id == body.id;
    CallOnOpen(l, Commit(body.id), lmtp);
    assert l + [Commit(body.id)] == calls + [body, Commit(body.id)];
  }

  lemma {:induction false} KnownIdsMore(calls: seq<Call>, more: seq<Call>, started: nat)
    requires KnownIds(calls, started) && KnownIds(more, started)
    ensures KnownIds(calls + more, started)
  {}

  lemma {:induction false} KnownIdsOf(d: nat, started: nat)
    requires d < started
    ensures KnownIds([Body(d, false)], started) && KnownIds([Body(d, true), Commit(d)], started)
    ensures KnownIds([BodyNonAtomic(d), Commit(d)], started)
  {}

  lemma {:induction false} DataCallsOk(env: Env, s: Session, outcome: DataOutcome)
    requires CallsOk(env, s) && s.at.Resting? && s.delivery.Some?
    ensures CallsOk(env, RunData(env, s, outcome))
  {
    hide NothingAfterEnd, CommitsAfterBody, BodiesCommitted, KnownIds, IsOpen, MsgUnits, SenderDomain;
    var d := s.delivery.value;
    KnownIdsOf(d, s.started);
    if env.lmtp {
      BodyThenCommit(s.calls, BodyNonAtomic(d), env.lmtp);
      KnownIdsMore(s.calls, [BodyNonAtomic(d), Commit(d)], s.started);
    } else {
      BodyThenCommit(s.calls, Body(d, true), env.lmtp);
      CallOnOpen(s.calls, Body(d, false), env.lmtp);
      KnownIdsMore(s.calls, [Body(d, true), Commit(d)], s.started);
      KnownIdsMore(s.calls, [Body(d, false)], s.started);
    }
  }

  lemma {:induction false} LocalCallsOk(env: Env, s: Session, a: Action)
    requires CallsOk(env, s) && (a.Data? || a.Reset? || a.Logout? || a.Mail? || a.Rcpt? ==> s.at.Resting?)
    requires a.StartOk? || a.StartFails? ==> s.at.Starting?
    requires a.Mail? ==> s.delivery.None?
    ensures CallsOk(env, Local(env, s, a))
  {
    hide NothingAfterEnd, CommitsAfterBody, BodiesCommitted, MsgUnits, SenderDomain, Cleaned;
    match a
    case Rcpt(_, _) =>
      if s.delivery.Some? {
        CallOnOpen(s.calls, AddRcpt(s.delivery.value), env.lmtp);
      }
    case Data(outcome) =>
      if s.delivery.Some? {
        DataCallsOk(env, s, outcome);
      }
    case Reset =>
      if s.delivery.Some? {
        CallOnOpen(s.calls, Abort(s.delivery.value), env.lmtp);
      }
    case Logout =>
      if s.delivery.Some? {
        CallOnOpen(s.calls, Abort(s.delivery.value), env.lmtp);
      }
    case StartOk(_) => CallOnOpen(s.calls, AddRcpt(s.started), env.lmtp);
    case _ =>
  }

  predicate AllCallsOk(env: Env, st: State) {
    forall i :: 0 <= i < |st.sessions| ==> CallsOk(env, st.sessions[i])
  }

  lemma {:induction false} StepCallsOk(env: Env, st: State, e: Event)
    requires AllCallsOk(env, st) && Enabled(env, st, e)
    ensures AllCallsOk(env, Apply(env, st, e))
  {
    hide LogOk, IsOpen, Local, MsgUnits, Undo, SenderDomain, Cleaned;
    match e
    case Connect(ip) => FreshLogOk(env, ip);
    case Act(i, a) =>
      assert CallsOk(env, st.sessions[i]);
      if !a.OpenBucket? && !a.TakeOk? && !a.TakeFails? && !a.ReleaseOne? {
        LocalCallsOk(env, st.sessions[i], a);
      }
      SharedStepCallsOk(env, st, i, a);
  }

  lemma {:induction false} FreshLogOk(env: Env, ip: string)
    ensures CallsOk(env, NewSession(ip))
  {}

  lemma {:induction false} MovingIsOk(env: Env, s: Session, at: Point)
    requires CallsOk(env, s) && !at.Resting?
    requires s.delivery.None? || (s.at.Releasing? && at.Releasing? && at.next == s.at.next)
    ensures CallsOk(env, s.(at := at))
  {}

  /** Steps on the limiters make no calls. */
  lemma {:induction false} SharedStepCallsOk(env: Env, st: State, i: nat, a: Action)
    requires Enabled(env, st, Act(i, a)) && CallsOk(env, st.sessions[i])
    requires a.OpenBucket? || a.TakeOk? || a.TakeFails? || a.ReleaseOne? || CallsOk(env, Local(env, st.sessions[i], a))
    ensures var st' := Apply(env, st, Act(i, a));
            |st'.sessions| == |st.sessions| && CallsOk(env, st'.sessions[i])
            && forall j :: 0 <= j < |st.sessions| && j != i ==> st'.sessions[j] == st.sessions[j]
  {
    var s := st.sessions[i];
    hide LogOk, IsOpen, Undo, Local, Occupies, CanTake;
    match a
    case OpenBucket => MovingIsOk(env, s, Taking(s.at.scope, 0));
    case TakeOk => MovingIsOk(env, s, Taking(s.at.scope, s.at.i + 1));
    case TakeFails => MovingIsOk(env, s, Releasing(Undo(env.limits, s.keys, s.at.scope, s.at.i), FailStart));
    case ReleaseOne => MovingIsOk(env, s, s.at.(pending := s.at.pending[1..]));
    case _ =>
  }

  /**
   In every run, each delivery gets at most one commit or abort and no call after it, and a commit
   only after its own body call, which succeeded unless the endpoint speaks LMTP.
   */
  lemma {:induction false} DeliveryLifecycle(env: Env, events: seq<Event>)
    requires IsRun(env, events)
    ensures AllCallsOk(env, After(env, events))
    decreases |events|
  {
    if events != [] {
      var before := events[..|events| - 1];
      DeliveryLifecycle(env, before);
      StepCallsOk(env, After(env, before), events[|events| - 1]);
    }
  }

  /** A delivery is committed exactly when its body was delivered, and never in the other mode's way. */
  lemma {:induction false} CommittedIffDelivered(env: Env, events: seq<Event>, i: nat, id: nat)
    requires IsRun(env, events) && i < |After(env, events).sessions|
    ensures var calls := After(env, events).sessions[i].calls;
            if env.lmtp then BodyNonAtomic(id) in calls <==> Commit(id) in calls
            else Body(id, true) in calls <==> Commit(id) in calls
  {
    DeliveryLifecycle(env, events);
    var s := After(env, events).sessions[i];
    assert CallsOk(env, s);
    if Commit(id) in s.calls {
      var j :| 0 <= j < |s.calls| && s.calls[j] == Commit(id);
      assert BodyBefore(s.calls, env.lmtp, j);
    }
    if env.lmtp && BodyNonAtomic(id) in s.calls { assert Delivered(BodyNonAtomic(id), true); }
    if !env.lmtp && Body(id, true) in s.calls { assert Delivered(Body(id, true), false); }
  }

  // ---------------------------------------------------------------------------
  // What each command does
  // ---------------------------------------------------------------------------

  /** The calls that a command makes on the open delivery `d`. */
  function CallsOf(lmtp: bool, a: Action, d: nat): seq<Call> {
    match a
    case Rcpt(_, valid) => if valid then [AddRcpt(d)] else []
    case Data(BodyFails) => if lmtp then [BodyNonAtomic(d), Commit(d)] else [Body(d, false)]
    case Data(Committed) => if lmtp then [BodyNonAtomic(d), Commit(d)] else [Body(d, true), Commit(d)]
    case Reset => [Abort(d)]
    case Logout => [Abort(d)]
    case _ => []
  }

  /**
   On an open delivery: RSET and QUIT abort it, a valid RCPT adds the recipient, DATA hands over the
   body and commits if that succeeds; only RCPT and a DATA that cannot be read leave it open.
   */
  lemma {:induction false} CommandsOnOpen(env: Env, st: State, i: nat, a: Action)
    requires Enabled(env, st, Act(i, a)) && st.sessions[i].at.Resting? && st.sessions[i].delivery.Some?
    ensures
      var s, st' := st.sessions[i], Apply(env, st, Act(i, a));
      && |st'.sessions| == |st.sessions| && st'.units == st.units && st'.panicked == st.panicked
      && (forall j :: 0 <= j < |st.sessions| && j != i ==> st'.sessions[j] == st.sessions[j])
      && st'.sessions[i].calls == s.calls + CallsOf(env.lmtp, a, s.delivery.value)
      && (a.Rcpt? || a == Data(PrepareFails) <==> st'.sessions[i].at.Resting?)
      && (a.Reset? || (a.Data? && !a.outcome.PrepareFails?) ==> Ending(st'.sessions[i], Clean))
      && (a.Logout? ==> Ending(st'.sessions[i], Leave))
  {
    hide MsgUnits, SenderDomain;
    assert st.sessions[i].calls + [] == st.sessions[i].calls;
  }

  /** The limits are being given back, after which the session is as described. */
  predicate Ending(s: Session, next: Then) { s.at.Releasing? && s.at.next == next }

  /** Once the limits are given back the transaction is over: nothing of it is left in the session. */
  lemma {:induction false} TransactionEnds(env: Env, st: State, i: nat)
    requires Enabled(env, st, Act(i, ReleaseDone)) && !st.sessions[i].at.next.FailStart?
    ensures
      var s, s' := st.sessions[i], Apply(env, st, Act(i, ReleaseDone)).sessions[i];
      && s'.at == (if s.at.next.Clean? then Resting else Gone) && s'.calls == s.calls && s'.started == s.started
      && s'.mailFrom == "" && s'.delivery.None? && !s'.failed && s'.ip == s.ip
  {}

  /**
   The first RCPT of a transaction starts the delivery of the sender that MAIL named, under the
   client's address and the normalised sender's domain; if that fails, it stays failed until the
   transaction ends, without another attempt.
   */
  lemma {:induction false} FirstRcptStarts(env: Env, st: State, i: nat, valid: bool)
    requires Enabled(env, st, Act(i, Rcpt(true, valid))) && st.sessions[i].delivery.None?
    ensures
      var s, s' := st.sessions[i], Apply(env, st, Act(i, Rcpt(true, valid))).sessions[i];
      var clean := if s.mailFrom == "" then Some("") else env.cleanDomain(s.mailFrom);
      var domain := if clean.None? then None else if clean.value == "" then Some("") else env.splitDomain(clean.value);
      if s.failed then s' == s
      else if domain.None? then s' == s.(failed := true)
      else s' == s.(at := Taking(All, 0), clean := clean.value, keys := Keys(s.ip, domain.value), inMail := false)
  {}

  /** What MAIL does: with deferred reject it only notes the sender, otherwise it starts the delivery. */
  lemma {:induction false} MailNotesSender(env: Env, st: State, i: nat, from: string)
    requires Enabled(env, st, Act(i, Mail(from, true)))
    ensures
      var s, s' := st.sessions[i], Apply(env, st, Act(i, Mail(from, true))).sessions[i];
      && (env.deferred ==> s' == s.(mailFrom := from))
      && (!env.deferred && s'.at.Taking? ==>
            && s'.raw == from && s'.inMail && s'.at == Taking(All, 0) && s'.keys.ip == s.ip
            && Cleaned(env, from).Some? && SenderDomain(env, Cleaned(env, from).value) == Some(s'.keys.source))
      && (!env.deferred && !s'.at.Taking? ==>
            Cleaned(env, from).None? || SenderDomain(env, Cleaned(env, from).value).None?)
  {}

  /** Starting the delivery opens a new one; what RCPT was called with is added to it. */
  lemma {:induction false} StartOpens(env: Env, st: State, i: nat, valid: bool)
    requires Enabled(env, st, Act(i, StartOk(valid)))
    ensures
      var s, s' := st.sessions[i], Apply(env, st, Act(i, StartOk(valid))).sessions[i];
      && s'.at.Resting? && s'.delivery == Some(s.started) && s'.started == s.started + 1
      && s'.calls == s.calls + (if s.inMail || !valid then [] else [AddRcpt(s.started)])
      && s'.mailFrom == (if s.inMail then s.raw else s.clean)
  {
    assert st.sessions[i].calls + [] == st.sessions[i].calls;
  }

  /** A start that failed: everything taken is given back, and RCPT remembers the failure. */
  lemma {:induction false} FailedStartRests(env: Env, st: State, i: nat)
    requires Enabled(env, st, Act(i, ReleaseDone)) && st.sessions[i].at.next.FailStart?
    ensures
      var s, s' := st.sessions[i], Apply(env, st, Act(i, ReleaseDone)).sessions[i];
      s' == s.(at := Resting, failed := s.failed || !s.inMail)
  {}
}
