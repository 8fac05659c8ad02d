/**
 The calls that the state of one check receives for a message
 (internal/msgpipeline/check_runner.go:70-159, 239-289).
 */
module CheckCalls {
  datatype Call = Connection | Sender(from: string) | Rcpt(to: string) | Body

  /** `CheckConnection` and `CheckSender` came first, in this order, and never again. */
  predicate Opened(log: seq<Call>) {
    && |log| >= 2 && log[0] == Connection && log[1].Sender?
    && forall i :: 2 <= i < |log| ==> log[i].Rcpt? || log[i].Body?
  }

  /** No recipient was checked twice. */
  predicate RcptsOnce(log: seq<Call>) {
    forall i, j :: 0 <= i < j < |log| && log[i].Rcpt? ==> log[i] != log[j]
  }

  /** What one round leaves in the log of a state that takes part in it `times` times. */
  function Received(log: seq<Call>, call: Call, times: nat): seq<Call> {
    if !call.Rcpt? then log + seq(times, _ => call)
    else if times == 0 || call in log then log
    else log + [call]
  }

  /** Replaying recipients, leaving out those the state has seen. */
  function Replay(log: seq<Call>, rcpts: seq<string>): (replayed: seq<Call>) {
    if rcpts == [] then log
    else Received(Replay(log, rcpts[..|rcpts| - 1]), Rcpt(rcpts[|rcpts| - 1]), 1)
  }

  lemma {:induction false} ReceivedKeeps(log: seq<Call>, call: Call, times: nat)
    ensures log <= Received(log, call, times)
    ensures RcptsOnce(log) ==> RcptsOnce(Received(log, call, times))
    ensures Opened(log) && (call.Rcpt? || call.Body?) ==> Opened(Received(log, call, times))
    ensures call.Rcpt? && times > 0 ==> call in Received(log, call, times)
  {}

  /**
   After a replay the state has seen exactly the recipients it had seen before and those of the
   list, each of them once; what it received before is still there, and new calls are recipients.
   */
  lemma {:induction false} ReplayMeaning(log: seq<Call>, rcpts: seq<string>)
    requires RcptsOnce(log)
    ensures
      var log' := Replay(log, rcpts);
      && log <= log' && RcptsOnce(log')
      && (forall to :: Rcpt(to) in log' <==> Rcpt(to) in log || to in rcpts)
      && (forall i :: |log| <= i < |log'| ==> log'[i].Rcpt? && log'[i].to in rcpts)
  {
    if rcpts != [] {
      var n := |rcpts| - 1;
      ReplayMeaning(log, rcpts[..n]);
      ReceivedKeeps(Replay(log, rcpts[..n]), Rcpt(rcpts[n]), 1);
      assert forall to :: to in rcpts <==> to in rcpts[..n] || to == rcpts[n];
    }
  }

  /** A replay shows a new state the recipients in the order in which they were first checked. */
  lemma {:induction false} ReplayOrder(log: seq<Call>, rcpts: seq<string>, i: nat, j: nat)
    requires RcptsOnce(log) && i < j < |Replay(log, rcpts)| && i >= |log|
    ensures
      var log' := Replay(log, rcpts);
      log'[i].Rcpt? && log'[j].Rcpt?
      && exists p, q ::
           && 0 <= p < q < |rcpts| && rcpts[p] == log'[i].to && rcpts[q] == log'[j].to
           && log'[j].to !in rcpts[..q]
  {
    var n := |rcpts| - 1;
    ReplayMeaning(log, rcpts);
    ReplayMeaning(log, rcpts[..n]);
    var before, after := Replay(log, rcpts[..n]), Replay(log, rcpts);
    if j < |before| {
      ReplayOrder(log, rcpts[..n], i, j);
      var p, q :| 0 <= p < q < n && rcpts[..n][p] == before[i].to && rcpts[..n][q] == before[j].to
        && before[j].to !in rcpts[..n][..q];
      assert rcpts[..n][..q] == rcpts[..q];
      assert rcpts[p] == after[i].to && rcpts[q] == after[j].to;
    } else {
      assert after == before + [Rcpt(rcpts[n])] && i < |before|;
      var p :| 0 <= p < n && rcpts[..n][p] == before[i].to;
      assert rcpts[p] == after[i].to && rcpts[n] == after[j].to && rcpts[n] !in rcpts[..n];
    }
  }

  lemma {:induction false} ReplayKeepsOpened(log: seq<Call>, rcpts: seq<string>)
    requires Opened(log)
    ensures Opened(Replay(log, rcpts))
  {
    if rcpts != [] {
      ReplayKeepsOpened(log, rcpts[..|rcpts| - 1]);
      ReceivedKeeps(Replay(log, rcpts[..|rcpts| - 1]), Rcpt(rcpts[|rcpts| - 1]), 1);
    }
  }
}
