/** How runs end (src/xpc/service.rs): once each, with one transaction and the messages their cause
    demands, under every schedule of RunOwnership. */
module RunEndings {
  import opened RunOwnership

  /** Each run is taken at most once and shut down at most once, and a run that no thread owns
      any more was taken once, shut down once and closed out once. It sent the reply and
      `stopped(requested)` to the client that asked if a request took it, `error` and
      `stopped(failed)` to whoever was the peer if its monitor did, and nothing if its client had
      gone; until then it sent the first part of that. */
  lemma EachRunEndsOnce(s: State, i: nat)
    requires Reachable(s) && i < |s.runs|
    ensures var r := s.runs[i];
            && r.shutdowns <= r.taken <= 1 && (r.taken == 0 <==> r.cause.Untaken?)
            && SentInOrder(r, |r.sends|)
            && (!Open(s, i) ==>
                  r.taken == 1 && r.shutdowns == 1 && r.ended == 1 && |r.sends| == |Messages(r.cause)|)
  {
    ReachableKeepsInv(s);
    assert RunOk(s.runs[i], i, s.run, s.handler, s.caller);
  }

  /** In every schedule a monitor takes only the run it was spawned for. */
  lemma MonitorsTakeOwnRuns(s: State, i: nat, j: nat)
    requires Reachable(s) && MonitorReady(s, i) && j < |s.runs|
    requires |MonitorMoves(s, i).runs| == |s.runs| && MonitorMoves(s, i).runs[j].taken != s.runs[j].taken
    ensures i == j && s.run == Some(i)
  {
    ReachableKeepsInv(s);
    MonitorMovesItself(s, i);
  }

  /** One transaction is begun for each run that started, so a failed start begins none; those not
      ended are exactly the runs held or taken and not yet closed out. */
  lemma TransactionsBalance(s: State)
    requires Reachable(s)
    ensures s.begun == |s.runs|
    ensures s.begun - s.ended == |set i: nat | i < |s.runs| && Open(s, i)|
  {
    ReachableKeepsInv(s);
    forall i: nat | i < |s.runs|
      ensures Open(s, i) <==> s.runs[i].ended == 0
    {
      assert RunOk(s.runs[i], i, s.run, s.handler, s.caller);
    }
    OpenCountIsCardinality(s.runs);
    assert (set i: nat | i < |s.runs| && Open(s, i)) == OpenRuns(s.runs);
  }

  function OpenRuns(runs: seq<Run>): set<nat> {
    set i: nat | i < |runs| && runs[i].ended == 0
  }

  lemma OneMoreRun(runs: seq<Run>)
    requires |runs| > 0
    ensures var n := |runs| - 1;
            OpenRuns(runs) == OpenRuns(runs[..n]) + if runs[n].ended == 0 then {n} else {}
  {
    assert forall i :: 0 <= i < |runs| - 1 ==> runs[..|runs| - 1][i] == runs[i];
  }

  lemma {:induction false} OpenCountIsCardinality(runs: seq<Run>)
    ensures OpenCount(runs) == |OpenRuns(runs)|
    decreases |runs|
  {
    if |runs| > 0 {
      OpenCountIsCardinality(runs[..|runs| - 1]);
      OneMoreRun(runs);
    }
  }

  /** No thread ever holds both locks, and the handler joins a monitor holding neither. */
  lemma NoThreadHoldsBothLocks(s: State, who: Holder)
    requires Reachable(s) && who != Nobody
    ensures !(s.runLock == who && s.peerLock == who)
    ensures s.handler.EndJoin? ==> s.runLock != Handler && s.peerLock != Handler
  {
    ReachableKeepsInv(s);
    if who.Monitor? && s.runLock == who {
      assert MonitorLocksOk(s.runs[who.run].monitor, who.run, s.runLock, s.peerLock);
    }
  }

  /** The reply to a request and the event of a requested stop go to the client that asked,
      whose connection has not closed. */
  lemma RequestedStopReachesAsker(s: State)
    requires Reachable(s) && (s.handler.ReplySend? || s.handler.EventSend?)
    ensures s.handler.to == s.peer == Some(s.caller) && s.caller in s.open
  {
    ReachableKeepsInv(s);
  }
}
