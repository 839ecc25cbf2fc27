/** No handler call of the service hangs (src/xpc/service.rs): some thread can always move, and the
    number of thread steps is bounded, under every schedule of RunOwnership. */
module CallCompletion {
  import opened RunOwnership

  // ---------- Calls complete ----------

  const MONITOR_WORK: nat := 13

  /** Steps the handler can still make, with those of a monitor it is about to spawn. */
  function HandlerWork(h: HandlerAt): nat {
    match h
    case Idle => 0
    case StartLock => 12 + MONITOR_WORK
    case StartHold => 11 + MONITOR_WORK
    case StartBegun(_) => 10 + MONITOR_WORK
    case StartSpawned(_) => 9
    case StartStored(_) => 8
    case EndLock(_) => 12
    case EndHold(_) => 11
    case EndFlag(_, _) => 10
    case EndJoin(_, _) => 9
    case EndShutdown(_, _) => 8
    case ReplyLock(_) => 7
    case ReplyHold(_) => 6
    case ReplySend(_, _) => 5
    case EventLock(_) => 4
    case EventHold(_) => 3
    case EventSend(_, _) => 2
    case EventClose(_) => 1
    case SilentClose(_) => 3
    case ClearLock => 2
    case ClearHold => 1
  }

  /** Steps a monitor can still make if it never again finds its run in good health. */
  function MonitorWork(m: MonitorAt): nat {
    match m
    case Unspawned => 0
    case FirstCheck => MONITOR_WORK
    case Sleeping => 12
    case SecondCheck => 11
    case LockRun => 10
    case HoldRun => 9
    case ErrorLock => 8
    case ErrorHold => 7
    case ErrorSend(_) => 6
    case Ending => 5
    case StoppedLock => 4
    case StoppedHold => 3
    case StoppedSend(_) => 2
    case CloseOut => 1
    case Exited => 0
  }

  const PEER_WORK: nat := 3
  const POLL_WORK: nat := 5

  function AcceptorWork(a: AcceptorAt): nat {
    match a
    case Waiting => 0
    case WantPeer => PEER_WORK
    case HoldPeer => 2
    case Activating(_) => 1
  }

  function TotalWork(runs: seq<Run>): nat {
    if |runs| == 0 then 0 else TotalWork(runs[..|runs| - 1]) + MonitorWork(runs[|runs| - 1].monitor)
  }

  function Work(s: State): nat {
    HandlerWork(s.handler) + AcceptorWork(s.acceptor) + TotalWork(s.runs)
  }

  /** The step in which a monitor finds its run in good health and goes back to sleep. */
  predicate PollsAgain(s: State, e: Event)
    requires Enabled(s, e)
  {
    && e.MonitorStep? && s.runs[e.run].monitor.HoldRun?
    && s.run.Some? && !s.runs[s.run.value].engineStopped
  }

  lemma {:induction false} TotalWorkUpdate(runs: seq<Run>, i: nat, r: Run)
    requires i < |runs|
    ensures TotalWork(runs[i := r]) + MonitorWork(runs[i].monitor) == TotalWork(runs) + MonitorWork(r.monitor)
    decreases |runs|
  {
    var n := |runs| - 1;
    if i == n {
      assert runs[i := r][..n] == runs[..n];
    } else {
      TotalWorkUpdate(runs[..n], i, r);
      assert runs[i := r][..n] == runs[..n][i := r];
    }
  }

  lemma {:induction false} SameMonitorsSameWork(a: seq<Run>, b: seq<Run>)
    requires |a| == |b| && forall k :: 0 <= k < |a| ==> a[k].monitor == b[k].monitor
    ensures TotalWork(a) == TotalWork(b)
    decreases |a|
  {
    if |a| > 0 {
      SameMonitorsSameWork(a[..|a| - 1], b[..|b| - 1]);
    }
  }

  lemma TotalWorkAppend(runs: seq<Run>, r: Run)
    ensures TotalWork(runs + [r]) == TotalWork(runs) + MonitorWork(r.monitor)
  {
    assert (runs + [r])[..|runs|] == runs;
  }

  lemma HandlerAdvances(s: State, ok: bool)
    requires HandlerReady(s)
    ensures var t := HandlerMoves(s, ok);
            && t.acceptor == s.acceptor
            && HandlerWork(t.handler) + (if s.handler.StartBegun? then MONITOR_WORK else 0) < HandlerWork(s.handler)
  {
  }

  lemma HandlerLeavesMonitors(s: State, ok: bool)
    requires HandlerReady(s) && !s.handler.StartBegun? && !s.handler.StartHold?
    ensures var t := HandlerMoves(s, ok);
            |t.runs| == |s.runs| && forall k :: 0 <= k < |s.runs| ==> t.runs[k].monitor == s.runs[k].monitor
  {
  }

  lemma HandlerMovesMonitors(s: State, ok: bool)
    requires HandlerReady(s) && (s.handler.StartBegun? ==> s.runs[s.handler.run].monitor.Unspawned?)
    ensures TotalWork(HandlerMoves(s, ok).runs) ==
            TotalWork(s.runs) + if s.handler.StartBegun? then MONITOR_WORK else 0
  {
    var t := HandlerMoves(s, ok);
    match s.handler {
      case StartBegun(i) => TotalWorkUpdate(s.runs, i, t.runs[i]);
      case StartHold => TotalWorkAppend(s.runs, Run(false, false, Unspawned, Untaken, 0, 0, 0, []));
      case _ =>
        HandlerLeavesMonitors(s, ok);
        SameMonitorsSameWork(s.runs, t.runs);
    }
  }

  lemma HandlerWorks(s: State, ok: bool)
    requires RunsOk(s) && HandlerReady(s)
    ensures Work(HandlerMoves(s, ok)) < Work(s)
  {
    if s.handler.StartBegun? {
      assert RunOk(s.runs[s.handler.run], s.handler.run, s.run, s.handler, s.caller);
    }
    HandlerAdvances(s, ok);
    HandlerMovesMonitors(s, ok);
  }

  /** A monitor step makes its own remaining work smaller, unless it polls again. */
  lemma MonitorAdvances(s: State, i: nat)
    requires MonitorReady(s, i) && (s.runs[i].monitor.HoldRun? && s.run.Some? ==> s.run == Some(i))
    ensures var t := MonitorMoves(s, i);
            && |t.runs| == |s.runs| && t.acceptor == s.acceptor
            && MonitorWork(t.runs[i].monitor) <
               MonitorWork(s.runs[i].monitor) + if PollsAgain(s, MonitorStep(i)) then POLL_WORK else 0
  {
  }

  lemma MonitorWorks(s: State, i: nat)
    requires Inv(s) && MonitorReady(s, i)
    ensures Work(MonitorMoves(s, i)) < Work(s) + if PollsAgain(s, MonitorStep(i)) then POLL_WORK else 0
  {
    MonitorMovesItself(s, i);
    if s.runs[i].monitor.HoldRun? && s.run.Some? {
      MonitorFindsItsOwnRun(s, i);
    }
    MonitorAdvances(s, i);
    TotalWorkUpdate(s.runs, i, MonitorMoves(s, i).runs[i]);
  }

  /** While a handler call is in progress some thread can always move: no deadlock, wherever the
      call stands, and in particular while it waits for a lock or joins a monitor. */
  lemma CallsAreNeverStuck(s: State) returns (e: Event)
    requires Reachable(s) && !s.handler.Idle?
    ensures ThreadStep(e) && Enabled(s, e)
  {
    ReachableKeepsInv(s);
    if HandlerReady(s) {
      return HandlerStep(true);
    }
    if s.peerLock.Acceptor? {
      return AcceptorStep;
    }
    if s.peerLock.Monitor? {
      assert MonitorLocksOk(s.runs[s.peerLock.run].monitor, s.peerLock.run, s.runLock, s.peerLock);
      return MonitorStep(s.peerLock.run);
    }
    if s.runLock.Monitor? {
      assert MonitorLocksOk(s.runs[s.runLock.run].monitor, s.runLock.run, s.runLock, s.peerLock);
      return MonitorStep(s.runLock.run);
    }
    var i := Subject(s.handler).value;
    assert RunOk(s.runs[i], i, s.run, s.handler, s.caller);
    return MonitorStep(i);
  }

  ghost predicate NeverIdle(s: State, events: seq<Event>)
    requires ValidRun(s, events)
    decreases |events|
  {
    !s.handler.Idle? && (|events| > 0 ==> NeverIdle(Apply(s, events[0]), events[1..]))
  }

  function ThreadSteps(events: seq<Event>): nat {
    if |events| == 0 then 0 else (if ThreadStep(events[0]) then 1 else 0) + ThreadSteps(events[1..])
  }

  function PeerArrivals(events: seq<Event>): nat {
    if |events| == 0 then 0 else (if events[0].ArrivePeer? then 1 else 0) + PeerArrivals(events[1..])
  }

  function Polls(s: State, events: seq<Event>): nat
    requires ValidRun(s, events)
    decreases |events|
  {
    if |events| == 0 then 0
    else (if PollsAgain(s, events[0]) then 1 else 0) + Polls(Apply(s, events[0]), events[1..])
  }

  lemma StepWorks(s: State, e: Event)
    requires Inv(s) && Enabled(s, e) && !s.handler.Idle?
    ensures Work(Apply(s, e)) + (if ThreadStep(e) then 1 else 0) <=
            Work(s) + (if e.ArrivePeer? then PEER_WORK else 0) + (if PollsAgain(s, e) then POLL_WORK else 0)
  {
    match e
    case HandlerStep(ok) => HandlerWorks(s, ok);
    case MonitorStep(i) => MonitorWorks(s, i);
    case EngineStops(i) => TotalWorkUpdate(s.runs, i, Apply(s, e).runs[i]);
    case _ =>
  }

  lemma {:induction false} CallsAreBounded(s: State, events: seq<Event>)
    requires Inv(s) && ValidRun(s, events) && NeverIdle(s, events)
    ensures ThreadSteps(events) <= Work(s) + PEER_WORK * PeerArrivals(events) + POLL_WORK * Polls(s, events)
    ensures Polls(s, events) <= ThreadSteps(events)
    decreases |events|
  {
    if |events| > 0 {
      var e := events[0];
      StepKeepsInv(s, e);
      StepWorks(s, e);
      CallsAreBounded(Apply(s, e), events[1..]);
    }
  }

  /** However the threads are scheduled, a handler call finishes within a bounded number of thread
      steps, paying three for every peer that arrives meanwhile and five for every time a monitor
      finds its run in good health. Only that polling can hold a call up without bound, when the
      run lock is handed to the monitor every time the handler waits for it. */
  lemma CallCompletes(s: State, events: seq<Event>)
    requires Reachable(s) && ValidRun(s, events) && NeverIdle(s, events)
    ensures ThreadSteps(events) <= Work(s) + PEER_WORK * PeerArrivals(events) + POLL_WORK * Polls(s, events)
    ensures Polls(s, events) <= ThreadSteps(events)
  {
    ReachableKeepsInv(s);
    CallsAreBounded(s, events);
  }

  /** The run has been taken, or there was none, and no start is under way. */
  predicate NothingHeld(s: State) {
    s.run.None? && !InStart(s.handler)
  }

  lemma StepKeepsNothingHeld(s: State, e: Event)
    requires HandlerOk(s) && NothingHeld(s) && Enabled(s, e) && !s.handler.Idle?
    ensures NothingHeld(Apply(s, e)) && !PollsAgain(s, e)
  {
  }

  lemma {:induction false} NothingToPoll(s: State, events: seq<Event>)
    requires Inv(s) && ValidRun(s, events) && NeverIdle(s, events) && NothingHeld(s)
    ensures Polls(s, events) == 0
    decreases |events|
  {
    if |events| > 0 {
      var e := events[0];
      StepKeepsInv(s, e);
      StepKeepsNothingHeld(s, e);
      NothingToPoll(Apply(s, e), events[1..]);
    }
  }

  /** Once a stop has taken the run, no polling delays it any more. */
  lemma StopCompletes(s: State, events: seq<Event>)
    requires Reachable(s) && ValidRun(s, events) && NeverIdle(s, events) && NothingHeld(s)
    ensures ThreadSteps(events) <= Work(s) + PEER_WORK * PeerArrivals(events)
  {
    ReachableKeepsInv(s);
    CallsAreBounded(s, events);
    NothingToPoll(s, events);
  }

  // ---------- Polling can hold a stop up ----------

  /** One healthy run is held, its monitor is about to look at it, and nobody holds a lock. */
  predicate HealthyRun(s: State) {
    && |s.runs| == 1 && s.run == Some(0) && s.runLock.Nobody? && s.peerLock.Nobody?
    && !s.runs[0].stop && !s.runs[0].engineStopped && s.runs[0].monitor.FirstCheck?
  }

  lemma ConnectOnePeer() returns (s: State)
    ensures Reachable(s) && s.open == {0} && s.handler.Idle? && s.run.None? && s.runs == []
    ensures s.runLock.Nobody? && s.peerLock.Nobody?
  {
    s := State(Nobody, Nobody, None, None, {}, 0, 0, [], Idle, Waiting, 0, 0, [], []);
    assert Initial(s) && ValidRun(s, []) && Final(s, []) == s;
    s := StepFrom(s, ArrivePeer);
    s := StepFrom(s, AcceptorStep);
    s := StepFrom(s, AcceptorStep);
    s := StepFrom(s, AcceptorStep);
  }

  lemma StartOneRun(s0: State) returns (s: State)
    requires Reachable(s0) && s0.open == {0} && s0.handler.Idle? && s0.run.None? && s0.runs == []
    requires s0.runLock.Nobody? && s0.peerLock.Nobody?
    ensures Reachable(s) && s.open == {0} && s.handler.Idle? && HealthyRun(s)
  {
    s := StepFrom(s0, ArriveStart(0));
    s := StepFrom(s, HandlerStep(true));
    s := StepFrom(s, HandlerStep(true));
    s := StepFrom(s, HandlerStep(true));
    s := StepFrom(s, HandlerStep(true));
    s := StepFrom(s, HandlerStep(true));
    s := StepFrom(s, HandlerStep(true));
    s := StepFrom(s, HandlerStep(true));
    s := StepFrom(s, HandlerStep(true));
  }

  lemma Prepend(s: State, e: Event, rest: seq<Event>)
    requires !s.handler.Idle? && Enabled(s, e) && ValidRun(Apply(s, e), rest) && NeverIdle(Apply(s, e), rest)
    ensures ValidRun(s, [e] + rest) && NeverIdle(s, [e] + rest)
    ensures Final(s, [e] + rest) == Final(Apply(s, e), rest)
    ensures Polls(s, [e] + rest) == Polls(Apply(s, e), rest) + if PollsAgain(s, e) then 1 else 0
    ensures ThreadSteps([e] + rest) == ThreadSteps(rest) + if ThreadStep(e) then 1 else 0
    ensures PeerArrivals([e] + rest) == PeerArrivals(rest) + if e.ArrivePeer? then 1 else 0
  {
    assert ([e] + rest)[1..] == rest;
  }

  /** A poll: five steps of the monitor that end where they began. */
  lemma PollReturns(s: State)
    requires HealthyRun(s)
    ensures var e := MonitorStep(0);
            && Enabled(s, e)
            && var s1 := Apply(s, e);
            && Enabled(s1, e) && !PollsAgain(s, e) && s1.handler == s.handler
            && var s2 := Apply(s1, e);
            && Enabled(s2, e) && !PollsAgain(s1, e) && s2.handler == s.handler
            && var s3 := Apply(s2, e);
            && Enabled(s3, e) && !PollsAgain(s2, e) && s3.handler == s.handler
            && var s4 := Apply(s3, e);
            && Enabled(s4, e) && !PollsAgain(s3, e) && s4.handler == s.handler
            && PollsAgain(s4, e) && Apply(s4, e) == s
  {
    var e := MonitorStep(0);
    var t := Apply(Apply(Apply(Apply(Apply(s, e), e), e), e), e);
    assert t.runs == s.runs;
  }

  lemma PrependPoll(s: State, rest: seq<Event>) returns (events: seq<Event>)
    requires HealthyRun(s) && !s.handler.Idle? && ValidRun(s, rest) && NeverIdle(s, rest)
    ensures ValidRun(s, events) && NeverIdle(s, events) && Final(s, events) == Final(s, rest)
    ensures Polls(s, events) == Polls(s, rest) + 1 && ThreadSteps(events) == ThreadSteps(rest) + 5
    ensures PeerArrivals(events) == PeerArrivals(rest)
  {
    PollReturns(s);
    var e := MonitorStep(0);
    var s1 := Apply(s, e);
    var s2 := Apply(s1, e);
    var s3 := Apply(s2, e);
    var s4 := Apply(s3, e);
    events := [e] + rest;
    Prepend(s4, e, rest);
    Prepend(s3, e, events);
    events := [e] + events;
    Prepend(s2, e, events);
    events := [e] + events;
    Prepend(s1, e, events);
    events := [e] + events;
    Prepend(s, e, events);
    events := [e] + events;
  }

  /** The polling term of the bound is needed: for every `n` a stop can wait for the run lock while
      the monitor takes it `n` times, in five steps each, with no peer arriving. */
  lemma StopCanWaitForPolls(n: nat) returns (s: State, events: seq<Event>)
    ensures Reachable(s) && s.handler == EndLock(false) && ValidRun(s, events) && NeverIdle(s, events)
    ensures PeerArrivals(events) == 0 && Polls(s, events) == n && ThreadSteps(events) == 5 * n
    ensures Final(s, events) == s
  {
    s := ConnectOnePeer();
    s := StartOneRun(s);
    s := StepFrom(s, ArriveStop(0));
    events := [];
    var k := 0;
    while k < n
      invariant 0 <= k <= n && ValidRun(s, events) && NeverIdle(s, events) && Final(s, events) == s
      invariant PeerArrivals(events) == 0 && Polls(s, events) == k && ThreadSteps(events) == 5 * k
    {
      events := PrependPoll(s, events);
      k := k + 1;
    }
  }
}
