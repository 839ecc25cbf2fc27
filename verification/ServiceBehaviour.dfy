/** What the service does for its clients (src/xpc/service.rs): whom it accepts, what a start, a stop
    and a failure do, and who is told. Each statement holds in every reachable state of
    RunOwnership. */
module ServiceBehaviour {
  import opened RunOwnership

  // ---------- Clients ----------

  /** With no connection open and no call in progress, the peer is free unless one is being
      activated, and no engine runs. */
  lemma NothingLastsWithoutClient(s: State)
    requires Reachable(s) && s.handler.Idle? && s.open == {}
    ensures !s.acceptor.Activating? ==> s.peer == None
    ensures s.run == None
  {
    ReachableKeepsInv(s);
  }

  /** A new peer is refused exactly while a connection is open or its last call has not finished;
      refusing changes nothing for the connected client. */
  lemma PeersAreRefusedExactly(s: State)
    requires Reachable(s) && s.acceptor.HoldPeer?
    ensures Enabled(s, AcceptorStep)
    ensures var t := Apply(s, AcceptorStep);
            && t.handler == s.handler && t.open == s.open && t.run == s.run && t.runs == s.runs
            && if s.open != {} || !s.handler.Idle? then t.acceptor == Waiting && t.peer == s.peer
               else t.acceptor == Activating(s.connections) && t.peer == Some(s.connections)
  {
    ReachableKeepsInv(s);
  }

  /** Once the last client's closing call has finished, the next peer that arrives is served. */
  lemma NextPeerIsServed(s: State) returns (t: State)
    requires Reachable(s) && s.handler.Idle? && s.open == {} && s.acceptor.Waiting? && s.peerLock.Nobody?
    ensures Reachable(t) && t.open == {s.connections} && t.peer == Some(s.connections)
    ensures t.acceptor.Waiting? && t.handler.Idle? && t.peerLock.Nobody?
    ensures ValidRun(s, [ArrivePeer, AcceptorStep, AcceptorStep, AcceptorStep])
    ensures t == Final(s, [ArrivePeer, AcceptorStep, AcceptorStep, AcceptorStep])
  {
    NothingLastsWithoutClient(s);
    var s1 := StepFrom(s, ArrivePeer);
    var s2 := StepFrom(s1, AcceptorStep);
    var s3 := StepFrom(s2, AcceptorStep);
    t := StepFrom(s3, AcceptorStep);
    assert [AcceptorStep, AcceptorStep, AcceptorStep][1..] == [AcceptorStep, AcceptorStep];
    assert [AcceptorStep, AcceptorStep][1..] == [AcceptorStep] && [AcceptorStep][1..] == [];
    assert [ArrivePeer, AcceptorStep, AcceptorStep, AcceptorStep][1..] == [AcceptorStep, AcceptorStep, AcceptorStep];
  }

  /** Every request is answered exactly once, in order, to the client that sent it. */
  lemma EveryRequestIsAnswered(s: State)
    requires Reachable(s)
    ensures |s.answered| <= |s.asked| <= |s.answered| + 1
    ensures s.handler.Idle? ==> |s.answered| == |s.asked|
    ensures forall k :: 0 <= k < |s.answered| ==> s.answered[k] == Some(s.asked[k])
  {
    ReachableKeepsInv(s);
  }

  // ---------- Start ----------

  /** A start request that finds no run and whose engine starts leaves exactly one new run held, with
      its monitor polling and one transaction begun; any other start changes nothing. */
  lemma StartTakesEffect(s: State, c: nat, ok: bool) returns (t: State)
    requires Reachable(s) && s.handler.Idle? && c in s.open && s.runLock.Nobody?
    ensures Reachable(t) && t.handler == ReplyLock(Nothing) && t.caller == c && t.runLock.Nobody?
    ensures if s.run == None && ok
            then && t.run == Some(|s.runs|) && |t.runs| == |s.runs| + 1 && t.runs[..|s.runs|] == s.runs
                 && t.runs[|s.runs|].monitor == FirstCheck && !t.runs[|s.runs|].stop && t.begun == s.begun + 1
            else t.run == s.run && t.runs == s.runs && t.begun == s.begun
  {
    t := StepFrom(s, ArriveStart(c));
    t := StepFrom(t, HandlerStep(ok));
    ReachableKeepsInv(t);
    t := StepFrom(t, HandlerStep(ok));
    if s.run == None && ok {
      t := StepFrom(t, HandlerStep(true));
      t := StepFrom(t, HandlerStep(true));
      t := StepFrom(t, HandlerStep(true));
    }
  }

  // ---------- Stop and close ----------

  /** Ending a run takes whatever is held: its stop flag is set before the join, and the cause is
      the caller's request or its departure. */
  lemma EndTakesTheRun(s: State, silent: bool) returns (t: State)
    requires Reachable(s) && s.handler == EndHold(silent)
    ensures Reachable(t) && t.run == None && t.runLock.Nobody?
    ensures match s.run
            case None => t.handler == (if silent then ClearLock else ReplyLock(Nothing)) && t.runs == s.runs
            case Some(i) =>
              && i < |s.runs| == |t.runs| && t.handler == EndJoin(silent, i) && t.runs[i].stop
              && t.runs[i].cause == (if silent then ClientGone else Requested(s.caller))
  {
    ReachableKeepsInv(s);
    t := StepFrom(s, HandlerStep(true));
    if s.run.Some? {
      t := StepFrom(t, HandlerStep(true));
    }
  }

  ghost predicate BusyUntilEnd(s: State, events: seq<Event>)
    requires ValidRun(s, events)
    decreases |events|
  {
    |events| == 0 || (!s.handler.Idle? && BusyUntilEnd(Apply(s, events[0]), events[1..]))
  }

  /** The call is ending what is held, or nothing is held any more. */
  predicate Ending(s: State) {
    s.handler.EndLock? || s.handler.EndHold? || (s.run.None? && !InStart(s.handler))
  }

  lemma StepKeepsEnding(s: State, e: Event)
    requires HandlerOk(s) && Ending(s) && Enabled(s, e) && !s.handler.Idle?
    ensures Ending(Apply(s, e))
  {
  }

  lemma {:induction false} EndingLeavesNothing(s: State, events: seq<Event>)
    requires Inv(s) && Ending(s) && ValidRun(s, events) && BusyUntilEnd(s, events)
    ensures Ending(Final(s, events))
    decreases |events|
  {
    if |events| > 0 {
      StepKeepsInv(s, events[0]);
      StepKeepsEnding(s, events[0]);
      EndingLeavesNothing(Apply(s, events[0]), events[1..]);
    }
  }

  /** Under every schedule, when a stop request or a closing event has been served no engine is held. */
  lemma StopLeavesNothingHeld(s: State, e: Event, events: seq<Event>)
    requires Reachable(s) && Enabled(s, e) && (e.ArriveStop? || e.ArriveClose?)
    requires ValidRun(Apply(s, e), events) && BusyUntilEnd(Apply(s, e), events)
    ensures Final(Apply(s, e), events).handler.Idle? ==> Final(Apply(s, e), events).run == None
  {
    var t := StepFrom(s, e);
    ReachableKeepsInv(t);
    EndingLeavesNothing(t, events);
  }

  /** The closing call is under way with its connection gone, or it is over and the peer is free. */
  predicate Leaving(s: State) {
    s.open == {} && (Closing(s.handler) || (s.handler.Idle? && s.peer == None))
  }

  lemma StepKeepsLeaving(s: State, e: Event)
    requires PeerOk(s) && Leaving(s) && Enabled(s, e) && !s.handler.Idle?
    ensures Leaving(Apply(s, e))
  {
  }

  lemma {:induction false} LeavingEnds(s: State, events: seq<Event>)
    requires Inv(s) && Leaving(s) && ValidRun(s, events) && BusyUntilEnd(s, events)
    ensures Leaving(Final(s, events))
    decreases |events|
  {
    if |events| > 0 {
      StepKeepsInv(s, events[0]);
      StepKeepsLeaving(s, events[0]);
      LeavingEnds(Apply(s, events[0]), events[1..]);
    }
  }

  /** Under every schedule, when the closing event of a client has been served its connection is gone
      and the peer is free for the next one. */
  lemma CloseFreesThePeer(s: State, c: nat, events: seq<Event>)
    requires Reachable(s) && Enabled(s, ArriveClose(c))
    requires ValidRun(Apply(s, ArriveClose(c)), events) && BusyUntilEnd(Apply(s, ArriveClose(c)), events)
    ensures var t := Final(Apply(s, ArriveClose(c)), events);
            t.open == {} && (t.handler.Idle? ==> t.peer == None && t.run == None)
  {
    ReachableKeepsInv(s);
    var t := StepFrom(s, ArriveClose(c));
    assert t.open == {} by {
      assert forall d :: d in s.open ==> d == c;
    }
    ReachableKeepsInv(t);
    LeavingEnds(t, events);
    StopLeavesNothingHeld(s, ArriveClose(c), events);
  }

  // ---------- Failure ----------

  /** A monitor that finds its run takes it exactly when the engine stopped itself. */
  lemma FailureIsTakenExactly(s: State, i: nat)
    requires Reachable(s) && i < |s.runs| && s.runs[i].monitor.HoldRun? && s.run.Some?
    ensures s.run == Some(i) && Enabled(s, MonitorStep(i))
    ensures var t := Apply(s, MonitorStep(i));
            && t.runLock.Nobody? && |t.runs| == |s.runs|
            && if s.runs[i].engineStopped
               then t.run == None && t.runs[i].cause == Failed && t.runs[i].monitor == ErrorLock
               else t.run == s.run && t.runs[i].cause == Untaken && t.runs[i].monitor == FirstCheck
  {
    ReachableKeepsInv(s);
    MonitorFindsItsOwnRun(s, i);
    assert RunOk(s.runs[i], i, s.run, s.handler, s.caller);
  }

  /** Whoever is connected when a failed run's monitor looks for the peer is sent the event. */
  lemma FailureReachesTheClient(s: State, i: nat, c: nat) returns (t: State)
    requires Reachable(s) && i < |s.runs| && c in s.open
    requires s.runs[i].monitor.ErrorHold? || s.runs[i].monitor.StoppedHold?
    ensures Reachable(t) && |t.runs| == |s.runs|
    ensures t.runs[i].sends == s.runs[i].sends +
                               [Send(if s.runs[i].monitor.ErrorHold? then ErrorEvent else StoppedFailed, Some(c))]
  {
    ReachableKeepsInv(s);
    t := StepFrom(s, MonitorStep(i));
    t := StepFrom(t, MonitorStep(i));
  }

  /** With nobody connected, activating or being served, the event is sent to nobody. */
  lemma FailureWithoutClient(s: State, i: nat) returns (t: State)
    requires Reachable(s) && i < |s.runs| && s.open == {} && s.handler.Idle? && !s.acceptor.Activating?
    requires s.runs[i].monitor.ErrorHold? || s.runs[i].monitor.StoppedHold?
    ensures Reachable(t) && |t.runs| == |s.runs|
    ensures t.runs[i].sends == s.runs[i].sends +
                               [Send(if s.runs[i].monitor.ErrorHold? then ErrorEvent else StoppedFailed, None)]
  {
    NothingLastsWithoutClient(s);
    t := StepFrom(s, MonitorStep(i));
    t := StepFrom(t, MonitorStep(i));
  }
}
