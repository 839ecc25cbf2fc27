/** Who ends an engine run (src/xpc/service.rs).

    The peer connection's handler, one monitor thread per run and the listener that
    accepts peers share two mutexes, one over the run and one over the peer. Taking
    a lock, taking the run, setting the stop flag, joining, shutting the engine down,
    capturing the peer, sending and closing the transaction are separate steps, so a
    schedule is any interleaving of them. Connection handler calls are serial, and
    nothing arrives on a connection after its closing event.

    The counters and the log of sends inside `Run` are bookkeeping; no step branches
    on them. `App::shutdown` and `App::new_headless` are single steps that return. */
module RunOwnership {

  /** A run or a connection, if there is one. */
  datatype Maybe = None | Some(value: nat)

  /** Who holds a lock. */
  datatype Holder = Nobody | Handler | Monitor(run: nat) | Acceptor

  /** The messages that belong to one run. */
  datatype Message = StopReply | StoppedRequested | ErrorEvent | StoppedFailed

  /** A message and the peer it was sent to. With no peer at the moment of sending, nobody gets it. */
  datatype Send = Send(message: Message, to: Maybe)

  /** Where the monitor of one run stands. `Polling` states loop; the `Err`, `Ending` and `Stop`
      states belong to a monitor that has taken its run. */
  datatype MonitorAt =
    | Unspawned
    | FirstCheck | Sleeping | SecondCheck | LockRun | HoldRun
    | ErrorLock | ErrorHold | ErrorSend(to: Maybe)
    | Ending
    | StoppedLock | StoppedHold | StoppedSend(to: Maybe)
    | CloseOut
    | Exited

  /** Why a run was taken, if it was. */
  datatype Cause = Untaken | Requested(asker: nat) | ClientGone | Failed

  datatype Run = Run(stop: bool, engineStopped: bool, monitor: MonitorAt,
                     cause: Cause, taken: nat, shutdowns: nat, ended: nat, sends: seq<Send>)

  /** What follows the reply of a request. */
  datatype After = Nothing | Stopped(run: nat)

  datatype HandlerAt =
    | Idle
    | StartLock | StartHold | StartBegun(run: nat) | StartSpawned(run: nat) | StartStored(run: nat)
    | EndLock(silent: bool) | EndHold(silent: bool)
    | EndFlag(silent: bool, run: nat) | EndJoin(silent: bool, run: nat) | EndShutdown(silent: bool, run: nat)
    | ReplyLock(after: After) | ReplyHold(after: After) | ReplySend(after: After, to: Maybe)
    | EventLock(run: nat) | EventHold(run: nat) | EventSend(run: nat, to: Maybe) | EventClose(run: nat)
    | SilentClose(run: nat)
    | ClearLock | ClearHold

  datatype AcceptorAt = Waiting | WantPeer | HoldPeer | Activating(connection: nat)

  /** `open` holds the activated connections that have not closed; `caller` is the one whose event
      the handler is serving, or served last. */
  datatype State = State(runLock: Holder, peerLock: Holder,
                         run: Maybe, peer: Maybe, open: set<nat>, caller: nat, connections: nat,
                         runs: seq<Run>, handler: HandlerAt, acceptor: AcceptorAt,
                         begun: nat, ended: nat, asked: seq<nat>, answered: seq<Maybe>)

  predicate Initial(s: State) {
    && s.runLock.Nobody? && s.peerLock.Nobody? && s.run.None? && s.peer.None? && s.open == {}
    && s.handler.Idle? && s.acceptor.Waiting? && |s.runs| == 0
    && s.caller == s.connections == s.begun == s.ended == 0 && |s.asked| == |s.answered| == 0
  }

  // ---------- Steps ----------

  datatype Event =
    | ArriveStart(from: nat) | ArriveStop(from: nat) | ArriveOther(from: nat) | ArriveClose(from: nat)
    | ArrivePeer
    | EngineStops(run: nat)
    | HandlerStep(startSucceeds: bool)
    | MonitorStep(run: nat)
    | AcceptorStep

  predicate ThreadStep(e: Event) {
    e.HandlerStep? || e.MonitorStep? || e.AcceptorStep?
  }

  predicate HandlerReady(s: State) {
    match s.handler
    case Idle => false
    case StartLock => s.runLock.Nobody?
    case EndLock(_) => s.runLock.Nobody?
    case EndJoin(_, i) => i < |s.runs| && s.runs[i].monitor.Exited?
    case EndFlag(_, i) => i < |s.runs|
    case EndShutdown(_, i) => i < |s.runs|
    case StartBegun(i) => i < |s.runs|
    case ReplyLock(_) => s.peerLock.Nobody?
    case ReplySend(after, _) => after.Stopped? ==> after.run < |s.runs|
    case EventLock(_) => s.peerLock.Nobody?
    case EventSend(i, _) => i < |s.runs|
    case EventClose(i) => i < |s.runs|
    case SilentClose(i) => i < |s.runs|
    case ClearLock => s.peerLock.Nobody?
    case EndHold(_) => s.run.Some? ==> s.run.value < |s.runs|
    case _ => true
  }

  predicate MonitorReady(s: State, i: nat) {
    && i < |s.runs|
    && match s.runs[i].monitor
       case Unspawned => false
       case Exited => false
       case LockRun => s.runLock.Nobody?
       case HoldRun => s.run.Some? ==> s.run.value < |s.runs|
       case ErrorLock => s.peerLock.Nobody?
       case StoppedLock => s.peerLock.Nobody?
       case _ => true
  }

  predicate Enabled(s: State, e: Event) {
    match e
    case ArriveStart(from) => s.handler.Idle? && from in s.open
    case ArriveStop(from) => s.handler.Idle? && from in s.open
    case ArriveOther(from) => s.handler.Idle? && from in s.open
    case ArriveClose(from) => s.handler.Idle? && from in s.open
    case ArrivePeer => s.acceptor.Waiting?
    case EngineStops(i) => i < |s.runs|
    case HandlerStep(_) => HandlerReady(s)
    case MonitorStep(i) => MonitorReady(s, i)
    case AcceptorStep => !s.acceptor.Waiting? && (s.acceptor.WantPeer? ==> s.peerLock.Nobody?)
  }

  function Apply(s: State, e: Event): State
    requires Enabled(s, e)
  {
    match e
    case ArriveStart(from) => s.(caller := from, asked := s.asked + [from], handler := StartLock)
    case ArriveStop(from) => s.(caller := from, asked := s.asked + [from], handler := EndLock(false))
    case ArriveOther(from) => s.(caller := from, asked := s.asked + [from], handler := ReplyLock(Nothing))
    case ArriveClose(from) => s.(caller := from, handler := EndLock(true), open := s.open - {from})
    case ArrivePeer => s.(acceptor := WantPeer)
    case EngineStops(i) => s.(runs := s.runs[i := s.runs[i].(engineStopped := true)])
    case HandlerStep(ok) => HandlerMoves(s, ok)
    case MonitorStep(i) => MonitorMoves(s, i)
    case AcceptorStep => AcceptorMoves(s)
  }

  /** `accept_peer`: a second peer is refused while one is connected. */
  function AcceptorMoves(s: State): State
    requires Enabled(s, AcceptorStep)
  {
    match s.acceptor
    case Waiting => s
    case WantPeer => s.(peerLock := Acceptor, acceptor := HoldPeer)
    case HoldPeer =>
      if s.peer.Some? then s.(peerLock := Nobody, acceptor := Waiting)
      else s.(peerLock := Nobody, peer := Some(s.connections), connections := s.connections + 1,
              acceptor := Activating(s.connections))
    case Activating(c) => s.(open := s.open + {c}, acceptor := Waiting)
  }

  function WithRun(s: State, i: nat, r: Run): State
    requires i < |s.runs|
  {
    s.(runs := s.runs[i := r])
  }

  function HandlerMoves(s: State, startSucceeds: bool): State
    requires HandlerReady(s)
  {
    match s.handler
    case Idle => s
    // start
    case StartLock => s.(runLock := Handler, handler := StartHold)
    case StartHold =>
      if s.run.Some? || !startSucceeds then s.(runLock := Nobody, handler := ReplyLock(Nothing))
      else s.(begun := s.begun + 1, runs := s.runs + [Run(false, false, Unspawned, Untaken, 0, 0, 0, [])],
              handler := StartBegun(|s.runs|))
    case StartBegun(i) => WithRun(s, i, s.runs[i].(monitor := FirstCheck)).(handler := StartSpawned(i))
    case StartSpawned(i) => s.(run := Some(i), handler := StartStored(i))
    case StartStored(_) => s.(runLock := Nobody, handler := ReplyLock(Nothing))
    // end_run
    case EndLock(silent) => s.(runLock := Handler, handler := EndHold(silent))
    case EndHold(silent) =>
      if s.run.None? then s.(runLock := Nobody, handler := if silent then ClearLock else ReplyLock(Nothing))
      else
        var i := s.run.value;
        WithRun(s, i, s.runs[i].(taken := s.runs[i].taken + 1, 
                                cause := if silent then ClientGone else Requested(s.caller)))
          .(run := None, runLock := Nobody, handler := EndFlag(silent, i))
    case EndFlag(silent, i) => WithRun(s, i, s.runs[i].(stop := true)).(handler := EndJoin(silent, i))
    case EndJoin(silent, i) => s.(handler := EndShutdown(silent, i))
    case EndShutdown(silent, i) =>
      WithRun(s, i, s.runs[i].(shutdowns := s.runs[i].shutdowns + 1))
        .(handler := if silent then SilentClose(i) else ReplyLock(Stopped(i)))
    // reply, then the event of a requested stop
    case ReplyLock(after) => s.(peerLock := Handler, handler := ReplyHold(after))
    case ReplyHold(after) => s.(peerLock := Nobody, handler := ReplySend(after, s.peer))
    case ReplySend(after, to) =>
      var t := s.(answered := s.answered + [to]);
      (match after
       case Nothing => t.(handler := Idle)
       case Stopped(i) => WithRun(t, i, t.runs[i].(sends := t.runs[i].sends + [Send(StopReply, to)])).(handler := EventLock(i)))
    case EventLock(i) => s.(peerLock := Handler, handler := EventHold(i))
    case EventHold(i) => s.(peerLock := Nobody, handler := EventSend(i, s.peer))
    case EventSend(i, to) =>
      WithRun(s, i, s.runs[i].(sends := s.runs[i].sends + [Send(StoppedRequested, to)])).(handler := EventClose(i))
    case EventClose(i) =>
      WithRun(s, i, s.runs[i].(ended := s.runs[i].ended + 1)).(ended := s.ended + 1, handler := Idle)
    // a client that has gone
    case SilentClose(i) =>
      WithRun(s, i, s.runs[i].(ended := s.runs[i].ended + 1)).(ended := s.ended + 1, handler := ClearLock)
    case ClearLock => s.(peerLock := Handler, handler := ClearHold)
    case ClearHold => s.(peerLock := Nobody, peer := None, handler := Idle)
  }

  function MonitorMoves(s: State, i: nat): State
    requires MonitorReady(s, i)
  {
    var r := s.runs[i];
    match r.monitor
    case Unspawned => s
    case Exited => s
    case FirstCheck => WithRun(s, i, r.(monitor := if r.stop then Exited else Sleeping))
    case Sleeping => WithRun(s, i, r.(monitor := SecondCheck))
    case SecondCheck => WithRun(s, i, r.(monitor := if r.stop then Exited else LockRun))
    case LockRun => WithRun(s, i, r.(monitor := HoldRun)).(runLock := Monitor(i))
    case HoldRun =>
      if s.run.None? then WithRun(s, i, r.(monitor := Exited)).(runLock := Nobody)
      else if !s.runs[s.run.value].engineStopped then WithRun(s, i, r.(monitor := FirstCheck)).(runLock := Nobody)
      else
        var j := s.run.value;
        var counted := s.runs[j := s.runs[j].(taken := s.runs[j].taken + 1, cause := Failed)];
        s.(runs := counted[i := counted[i].(monitor := ErrorLock)], run := None, runLock := Nobody)
    case ErrorLock => WithRun(s, i, r.(monitor := ErrorHold)).(peerLock := Monitor(i))
    case ErrorHold => WithRun(s, i, r.(monitor := ErrorSend(s.peer))).(peerLock := Nobody)
    case ErrorSend(to) => WithRun(s, i, r.(monitor := Ending, sends := r.sends + [Send(ErrorEvent, to)]))
    case Ending => WithRun(s, i, r.(monitor := StoppedLock, shutdowns := r.shutdowns + 1))
    case StoppedLock => WithRun(s, i, r.(monitor := StoppedHold)).(peerLock := Monitor(i))
    case StoppedHold => WithRun(s, i, r.(monitor := StoppedSend(s.peer))).(peerLock := Nobody)
    case StoppedSend(to) => WithRun(s, i, r.(monitor := CloseOut, sends := r.sends + [Send(StoppedFailed, to)]))
    case CloseOut => WithRun(s, i, r.(monitor := Exited, ended := r.ended + 1)).(ended := s.ended + 1)
  }

  predicate ValidRun(s: State, events: seq<Event>)
    decreases |events|
  {
    |events| == 0 || (Enabled(s, events[0]) && ValidRun(Apply(s, events[0]), events[1..]))
  }

  function Final(s: State, events: seq<Event>): State
    requires ValidRun(s, events)
    decreases |events|
  {
    if |events| == 0 then s else Final(Apply(s, events[0]), events[1..])
  }

  // ---------- Who owns a run ----------

  predicate Polling(m: MonitorAt) {
    m.FirstCheck? || m.Sleeping? || m.SecondCheck? || m.LockRun? || m.HoldRun?
  }

  predicate MonitorOwns(m: MonitorAt) {
    m.ErrorLock? || m.ErrorHold? || m.ErrorSend? || m.Ending? || m.StoppedLock? || m.StoppedHold? || m.StoppedSend? || m.CloseOut?
  }

  /** The run the handler is busy with. */
  function Subject(h: HandlerAt): Maybe {
    match h
    case StartBegun(i) => Some(i)
    case StartSpawned(i) => Some(i)
    case StartStored(i) => Some(i)
    case EndFlag(_, i) => Some(i)
    case EndJoin(_, i) => Some(i)
    case EndShutdown(_, i) => Some(i)
    case ReplyLock(Stopped(i)) => Some(i)
    case ReplyHold(Stopped(i)) => Some(i)
    case ReplySend(Stopped(i), _) => Some(i)
    case EventLock(i) => Some(i)
    case EventHold(i) => Some(i)
    case EventSend(i, _) => Some(i)
    case EventClose(i) => Some(i)
    case SilentClose(i) => Some(i)
    case _ => None
  }

  /** The handler begun run `i` and has not stored it yet. */
  predicate Starting(h: HandlerAt, i: nat) {
    (h.StartBegun? || h.StartSpawned?) && h.run == i
  }

  /** The handler took run `i` and has not closed it out. */
  predicate HandlerOwns(h: HandlerAt, i: nat) {
    Subject(h) == Some(i) && !h.StartBegun? && !h.StartSpawned? && !h.StartStored?
  }

  /** Run `i` still has an open transaction. */
  predicate Open(s: State, i: nat)
    requires i < |s.runs|
  {
    Starting(s.handler, i) || s.run == Some(i) || HandlerOwns(s.handler, i) || MonitorOwns(s.runs[i].monitor)
  }

  // ---------- Invariant ----------

  /** Ownership decides everything about a run. */
  predicate RunOk(r: Run, i: nat, held: Maybe, h: HandlerAt, caller: nat) {
    if Starting(h, i) then
      && held == None && r.taken == 0 && Fresh(r)
      && (if h.StartBegun? then r.monitor.Unspawned? else Polling(r.monitor) && !r.monitor.HoldRun?)
    else if held == Some(i) then
      r.taken == 0 && Fresh(r) && Polling(r.monitor)
    else if HandlerOwns(h, i) then
      && r.taken == 1 && r.ended == 0 && held == None
      && r.cause == (if Closing(h) then ClientGone else Requested(caller)) && HandlerOwnedOk(r, h)
    else if MonitorOwns(r.monitor) then
      r.taken == 1 && r.ended == 0 && r.cause.Failed? && MonitorOwnedOk(r)
    else
      && r.taken == 1 && r.ended == 1 && r.shutdowns == 1 && r.monitor.Exited?
      && !r.cause.Untaken? && SentInOrder(r, |Messages(r.cause)|)
  }

  predicate Fresh(r: Run) {
    !r.stop && r.cause.Untaken? && r.shutdowns == 0 && r.ended == 0 && r.sends == []
  }

  predicate HandlerOwnedOk(r: Run, h: HandlerAt) {
    && (h.EndFlag? || h.EndJoin? ==> Polling(r.monitor) || r.monitor.Exited?)
    && (h.EndJoin? ==> r.stop)
    && (!h.EndFlag? && !h.EndJoin? ==> r.monitor.Exited?)
    && r.shutdowns == (if h.EndFlag? || h.EndJoin? || h.EndShutdown? then 0 else 1)
    && SentInOrder(r, if h.EventClose? then 2 else if h.EventLock? || h.EventHold? || h.EventSend? then 1 else 0)
  }

  predicate MonitorOwnedOk(r: Run) {
    var m := r.monitor;
    && r.shutdowns == (if m.ErrorLock? || m.ErrorHold? || m.ErrorSend? || m.Ending? then 0 else 1)
    && SentInOrder(r, if m.ErrorLock? || m.ErrorHold? || m.ErrorSend? then 0 else if m.CloseOut? then 2 else 1)
  }

  /** What an ended run has sent, by the cause of its end. */
  function Messages(cause: Cause): seq<Message> {
    match cause
    case Requested(_) => [StopReply, StoppedRequested]
    case Failed => [ErrorEvent, StoppedFailed]
    case _ => []
  }

  /** The run has sent the first `n` of its messages, to the client that asked if one did. */
  predicate SentInOrder(r: Run, n: nat) {
    && |r.sends| == n <= |Messages(r.cause)|
    && forall k :: 0 <= k < n ==>
         && r.sends[k].message == Messages(r.cause)[k]
         && (r.cause.Requested? ==> r.sends[k].to == Some(r.cause.asker))
  }

  predicate HandlerHoldsRunLock(h: HandlerAt) {
    h.StartHold? || h.StartBegun? || h.StartSpawned? || h.StartStored? || h.EndHold?
  }

  predicate HandlerHoldsPeerLock(h: HandlerAt) {
    h.ReplyHold? || h.EventHold? || h.ClearHold?
  }

  predicate MonitorHoldsPeerLock(m: MonitorAt) {
    m.ErrorHold? || m.StoppedHold?
  }

  /** Each lock is held by exactly the thread whose position says so. */
  ghost predicate LocksOk(s: State) {
    && HandlerLocksOk(s)
    && forall i :: 0 <= i < |s.runs| ==> MonitorLocksOk(s.runs[i].monitor, i, s.runLock, s.peerLock)
  }

  predicate HandlerLocksOk(s: State) {
    && (s.runLock == Handler <==> HandlerHoldsRunLock(s.handler))
    && (s.peerLock == Handler <==> HandlerHoldsPeerLock(s.handler))
    && (s.peerLock == Acceptor <==> s.acceptor.HoldPeer?)
    && s.runLock != Acceptor
    && (s.runLock.Monitor? ==> s.runLock.run < |s.runs|)
    && (s.peerLock.Monitor? ==> s.peerLock.run < |s.runs|)
  }

  predicate MonitorLocksOk(m: MonitorAt, i: nat, runLock: Holder, peerLock: Holder) {
    && (runLock == Monitor(i) <==> m.HoldRun?)
    && (peerLock == Monitor(i) <==> MonitorHoldsPeerLock(m))
  }

  predicate HandlerOk(s: State) {
    && (s.run.Some? ==> s.run.value < |s.runs|)
    && (Subject(s.handler).Some? ==> Subject(s.handler).value < |s.runs|)
    && (s.handler.ClearLock? || s.handler.ClearHold? ==> s.run.None?)
    && (Subject(s.handler).Some? ==> s.run == if s.handler.StartStored? then Subject(s.handler) else None)
  }

  /** The handler is serving a closing event. */
  predicate Closing(h: HandlerAt) {
    match h
    case EndLock(silent) => silent
    case EndHold(silent) => silent
    case EndFlag(silent, _) => silent
    case EndJoin(silent, _) => silent
    case EndShutdown(silent, _) => silent
    case SilentClose(_) => true
    case ClearLock => true
    case ClearHold => true
    case _ => false
  }

  /** Only the peer's connection is open, and what the handler serves came from it. A peer is held
      only for an open connection, one being activated or one whose event is being served. */
  predicate PeerOk(s: State) {
    && HeldForClient(s)
    && (forall c :: c in s.open ==> s.peer == Some(c))
    && (!s.handler.Idle? ==> s.peer == Some(s.caller))
    && (!s.handler.Idle? && !Closing(s.handler) ==> s.caller in s.open)
    && (Closing(s.handler) ==> s.caller !in s.open)
    && (s.acceptor.Activating? ==> s.peer == Some(s.acceptor.connection) && s.handler.Idle? && s.open == {})
    && SendsToPeer(s.handler, s.peer)
  }

  predicate HeldForClient(s: State) {
    && (s.peer.Some? ==> s.open != {} || s.acceptor.Activating? || !s.handler.Idle?)
    && (s.run.Some? ==> s.open != {} || !s.handler.Idle?)
  }

  /** The request being served has not been answered yet. */
  predicate AwaitsReply(h: HandlerAt) {
    InStart(h) || (InEnd(h) && !Closing(h)) || InReply(h)
  }

  /** Every request but the one being served has been answered, to the client that asked. */
  predicate AnswersOk(s: State) {
    && |s.asked| == |s.answered| + (if AwaitsReply(s.handler) then 1 else 0)
    && (forall k :: 0 <= k < |s.answered| ==> s.answered[k] == Some(s.asked[k]))
    && (AwaitsReply(s.handler) ==> s.asked[|s.asked| - 1] == s.caller)
  }

  predicate SendsToPeer(h: HandlerAt, peer: Maybe) {
    (h.ReplySend? ==> h.to == peer) && (h.EventSend? ==> h.to == peer)
  }

  function OpenCount(runs: seq<Run>): nat {
    if |runs| == 0 then 0
    else OpenCount(runs[..|runs| - 1]) + if runs[|runs| - 1].ended == 0 then 1 else 0
  }

  ghost predicate RunsOk(s: State) {
    forall i :: 0 <= i < |s.runs| ==> RunOk(s.runs[i], i, s.run, s.handler, s.caller)
  }

  ghost predicate Inv(s: State) {
    && HandlerOk(s) && LocksOk(s) && RunsOk(s) && PeerOk(s)
    && Balanced(s) && AnswersOk(s)
  }

  // ---------- Counting open transactions ----------

  lemma {:induction false} OpenCountUpdate(runs: seq<Run>, i: nat, r: Run)
    requires i < |runs|
    ensures OpenCount(runs[i := r]) + (if runs[i].ended == 0 then 1 else 0)
         == OpenCount(runs) + (if r.ended == 0 then 1 else 0)
    decreases |runs|
  {
    var n := |runs| - 1;
    if i == n {
      assert runs[i := r][..n] == runs[..n];
    } else {
      OpenCountUpdate(runs[..n], i, r);
      assert runs[i := r][..n] == runs[..n][i := r];
    }
  }

  lemma OpenCountAppend(runs: seq<Run>, r: Run)
    ensures OpenCount(runs + [r]) == OpenCount(runs) + if r.ended == 0 then 1 else 0
  {
    assert (runs + [r])[..|runs|] == runs;
  }

  // ---------- Preservation ----------

  predicate Arrival(e: Event) {
    e.ArriveStart? || e.ArriveStop? || e.ArriveOther? || e.ArriveClose?
  }

  lemma ArrivalKeepsRuns(s: State, e: Event)
    requires RunsOk(s) && Enabled(s, e) && Arrival(e)
    ensures RunsOk(Apply(s, e))
  {
    forall k | 0 <= k < |s.runs|
      ensures RunOk(s.runs[k], k, s.run, Apply(s, e).handler, Apply(s, e).caller)
    {
      assert RunOk(s.runs[k], k, s.run, s.handler, s.caller);
    }
  }

  lemma ArrivalKeepsPeer(s: State, e: Event)
    requires PeerOk(s) && Enabled(s, e) && Arrival(e)
    ensures PeerOk(Apply(s, e))
  {
  }

  /** A request or a closing event arrives. */
  lemma ArrivalKeepsInv(s: State, e: Event)
    requires Inv(s) && Enabled(s, e) && Arrival(e)
    ensures Inv(Apply(s, e))
  {
    ArrivalKeepsRuns(s, e);
    ArrivalKeepsPeer(s, e);
    ArrivalKeepsAnswers(s, e);
  }

  lemma ArrivalKeepsAnswers(s: State, e: Event)
    requires AnswersOk(s) && Enabled(s, e) && Arrival(e)
    ensures AnswersOk(Apply(s, e))
  {
  }

  lemma NewPeerKeepsInv(s: State)
    requires Inv(s) && s.acceptor.Waiting?
    ensures Inv(Apply(s, ArrivePeer))
  {
    assert RunsOk(Apply(s, ArrivePeer)) && LocksOk(Apply(s, ArrivePeer));
  }

  lemma EngineStopKeepsInv(s: State, i: nat)
    requires Inv(s) && i < |s.runs|
    ensures Inv(Apply(s, EngineStops(i)))
  {
    var t := Apply(s, EngineStops(i));
    OpenCountUpdate(s.runs, i, t.runs[i]);
    forall k | 0 <= k < |t.runs|
      ensures RunOk(t.runs[k], k, t.run, t.handler, t.caller)
      ensures MonitorLocksOk(t.runs[k].monitor, k, t.runLock, t.peerLock)
    {
      assert RunOk(s.runs[k], k, s.run, s.handler, s.caller);
      assert MonitorLocksOk(s.runs[k].monitor, k, s.runLock, s.peerLock);
    }
  }

  lemma AcceptorKeepsLocks(s: State)
    requires LocksOk(s) && Enabled(s, AcceptorStep)
    ensures LocksOk(AcceptorMoves(s))
  {
    var t := AcceptorMoves(s);
    forall k | 0 <= k < |t.runs|
      ensures MonitorLocksOk(t.runs[k].monitor, k, t.runLock, t.peerLock)
    {
      assert MonitorLocksOk(s.runs[k].monitor, k, s.runLock, s.peerLock);
    }
  }

  lemma AcceptorKeepsPeer(s: State)
    requires PeerOk(s) && Enabled(s, AcceptorStep)
    ensures PeerOk(AcceptorMoves(s))
  {
  }

  lemma AcceptorKeepsInv(s: State)
    requires Inv(s) && Enabled(s, AcceptorStep)
    ensures Inv(AcceptorMoves(s))
  {
    AcceptorKeepsLocks(s);
    AcceptorKeepsPeer(s);
    assert RunsOk(AcceptorMoves(s));
  }

  predicate InStart(h: HandlerAt) {
    h.StartLock? || h.StartHold? || h.StartBegun? || h.StartSpawned? || h.StartStored?
  }

  predicate InEnd(h: HandlerAt) {
    h.EndLock? || h.EndHold? || h.EndFlag? || h.EndJoin? || h.EndShutdown?
  }

  predicate InReply(h: HandlerAt) {
    h.ReplyLock? || h.ReplyHold? || h.ReplySend?
  }

  predicate InEvent(h: HandlerAt) {
    h.EventLock? || h.EventHold? || h.EventSend? || h.EventClose?
  }

  predicate InClear(h: HandlerAt) {
    h.SilentClose? || h.ClearLock? || h.ClearHold?
  }

  lemma StartStepKeepsRun(s: State, ok: bool, k: nat)
    requires HandlerOk(s) && RunsOk(s) && HandlerReady(s) && InStart(s.handler)
    requires k < |HandlerMoves(s, ok).runs|
    ensures var t := HandlerMoves(s, ok); RunOk(t.runs[k], k, t.run, t.handler, t.caller)
  {
    if k < |s.runs| {
      assert RunOk(s.runs[k], k, s.run, s.handler, s.caller);
    }
  }

  lemma EndStepKeepsRun(s: State, ok: bool, k: nat)
    requires HandlerOk(s) && RunsOk(s) && HandlerReady(s) && InEnd(s.handler)
    requires k < |HandlerMoves(s, ok).runs|
    ensures var t := HandlerMoves(s, ok); RunOk(t.runs[k], k, t.run, t.handler, t.caller)
  {
    if k < |s.runs| {
      assert RunOk(s.runs[k], k, s.run, s.handler, s.caller);
    }
  }

  lemma ReplyStepKeepsRun(s: State, ok: bool, k: nat)
    requires HandlerOk(s) && RunsOk(s) && PeerOk(s) && HandlerReady(s) && InReply(s.handler)
    requires k < |HandlerMoves(s, ok).runs|
    ensures var t := HandlerMoves(s, ok); RunOk(t.runs[k], k, t.run, t.handler, t.caller)
  {
    if k < |s.runs| {
      assert RunOk(s.runs[k], k, s.run, s.handler, s.caller);
    }
  }

  lemma EventStepKeepsRun(s: State, ok: bool, k: nat)
    requires HandlerOk(s) && RunsOk(s) && PeerOk(s) && HandlerReady(s) && InEvent(s.handler)
    requires k < |HandlerMoves(s, ok).runs|
    ensures var t := HandlerMoves(s, ok); RunOk(t.runs[k], k, t.run, t.handler, t.caller)
  {
    if k < |s.runs| {
      assert RunOk(s.runs[k], k, s.run, s.handler, s.caller);
    }
  }

  lemma ClearStepKeepsRun(s: State, ok: bool, k: nat)
    requires HandlerOk(s) && RunsOk(s) && HandlerReady(s) && InClear(s.handler)
    requires k < |HandlerMoves(s, ok).runs|
    ensures var t := HandlerMoves(s, ok); RunOk(t.runs[k], k, t.run, t.handler, t.caller)
  {
    if k < |s.runs| {
      assert RunOk(s.runs[k], k, s.run, s.handler, s.caller);
    }
  }

  lemma HandlerKeepsMonitorLocks(s: State, ok: bool, k: nat)
    requires HandlerOk(s) && HandlerReady(s) && LocksOk(s)
    requires !InStart(s.handler)
    requires k < |HandlerMoves(s, ok).runs|
    ensures var t := HandlerMoves(s, ok); MonitorLocksOk(t.runs[k].monitor, k, t.runLock, t.peerLock)
  {
    assert MonitorLocksOk(s.runs[k].monitor, k, s.runLock, s.peerLock);
  }

  lemma StartKeepsMonitorLocks(s: State, ok: bool, k: nat)
    requires HandlerOk(s) && HandlerReady(s) && LocksOk(s) && RunsOk(s)
    requires InStart(s.handler)
    requires k < |HandlerMoves(s, ok).runs|
    ensures var t := HandlerMoves(s, ok); MonitorLocksOk(t.runs[k].monitor, k, t.runLock, t.peerLock)
  {
    if k < |s.runs| {
      assert MonitorLocksOk(s.runs[k].monitor, k, s.runLock, s.peerLock) && RunOk(s.runs[k], k, s.run, s.handler, s.caller);
    }
  }

  lemma StartKeepsOwnLocks(s: State, ok: bool)
    requires HandlerOk(s) && HandlerReady(s) && HandlerLocksOk(s) && InStart(s.handler)
    ensures HandlerLocksOk(HandlerMoves(s, ok))
  {
  }

  lemma EndKeepsOwnLocks(s: State, ok: bool)
    requires HandlerOk(s) && HandlerReady(s) && HandlerLocksOk(s) && InEnd(s.handler)
    ensures HandlerLocksOk(HandlerMoves(s, ok))
  {
  }

  lemma AnswerKeepsOwnLocks(s: State, ok: bool)
    requires HandlerOk(s) && HandlerReady(s) && HandlerLocksOk(s) && !InStart(s.handler) && !InEnd(s.handler)
    ensures HandlerLocksOk(HandlerMoves(s, ok))
  {
  }

  lemma HandlerKeepsPeer(s: State, ok: bool)
    requires HandlerOk(s) && PeerOk(s) && HandlerReady(s)
    ensures HandlerOk(HandlerMoves(s, ok)) && PeerOk(HandlerMoves(s, ok))
  {
    HandlerKeepsSubject(s, ok);
    HandlerKeepsHeld(s, ok);
    HandlerKeepsClient(s, ok);
  }

  lemma HandlerKeepsHeld(s: State, ok: bool)
    requires HandlerOk(s) && PeerOk(s) && HandlerReady(s)
    ensures HeldForClient(HandlerMoves(s, ok))
  {
  }

  lemma HandlerKeepsClient(s: State, ok: bool)
    requires PeerOk(s) && HandlerReady(s) && HeldForClient(HandlerMoves(s, ok))
    ensures PeerOk(HandlerMoves(s, ok))
  {
  }

  lemma HandlerKeepsSubject(s: State, ok: bool)
    requires HandlerOk(s) && HandlerReady(s)
    ensures HandlerOk(HandlerMoves(s, ok))
  {
  }

  lemma HandlerKeepsInv(s: State, ok: bool)
    requires Inv(s) && HandlerReady(s)
    ensures Inv(HandlerMoves(s, ok))
  {
    var t := HandlerMoves(s, ok);
    forall k | 0 <= k < |t.runs|
      ensures RunOk(t.runs[k], k, t.run, t.handler, t.caller)
    {
      if InStart(s.handler) {
        StartStepKeepsRun(s, ok, k);
      } else if InEnd(s.handler) {
        EndStepKeepsRun(s, ok, k);
      } else if InReply(s.handler) {
        ReplyStepKeepsRun(s, ok, k);
      } else if InEvent(s.handler) {
        EventStepKeepsRun(s, ok, k);
      } else {
        ClearStepKeepsRun(s, ok, k);
      }
    }
    forall k | 0 <= k < |t.runs|
      ensures MonitorLocksOk(t.runs[k].monitor, k, t.runLock, t.peerLock)
    {
      if InStart(s.handler) {
        StartKeepsMonitorLocks(s, ok, k);
      } else {
        HandlerKeepsMonitorLocks(s, ok, k);
      }
    }
    if InStart(s.handler) {
      StartKeepsOwnLocks(s, ok);
    } else if InEnd(s.handler) {
      EndKeepsOwnLocks(s, ok);
    } else {
      AnswerKeepsOwnLocks(s, ok);
    }
    HandlerKeepsPeer(s, ok);
    HandlerKeepsBalance(s, ok);
    HandlerKeepsAnswers(s, ok);
  }

  lemma HandlerKeepsAnswers(s: State, ok: bool)
    requires AnswersOk(s) && PeerOk(s) && HandlerReady(s)
    ensures AnswersOk(HandlerMoves(s, ok))
  {
    if s.handler.ReplySend? {
      AnswerArrives(s, ok);
    } else {
      AnswersUntouched(s, ok);
    }
  }

  lemma AnswerArrives(s: State, ok: bool)
    requires AnswersOk(s) && PeerOk(s) && HandlerReady(s) && s.handler.ReplySend?
    ensures AnswersOk(HandlerMoves(s, ok))
  {
    assert s.handler.to == Some(s.caller);
  }

  lemma AnswersUntouched(s: State, ok: bool)
    requires HandlerReady(s) && !s.handler.ReplySend?
    ensures var t := HandlerMoves(s, ok);
            && t.asked == s.asked && t.answered == s.answered && t.caller == s.caller
            && AwaitsReply(t.handler) == AwaitsReply(s.handler)
  {
  }

  ghost predicate Balanced(s: State) {
    s.begun == |s.runs| == s.ended + OpenCount(s.runs)
  }

  /** Replacing one run keeps the balance if its transaction ends together with the count. */
  lemma UpdateKeepsBalance(s: State, t: State, i: nat, r: Run)
    requires Balanced(s) && i < |s.runs| && t.runs == s.runs[i := r] && t.begun == s.begun
    requires s.runs[i].ended == 0 || r.ended > 0
    requires t.ended == s.ended + if s.runs[i].ended == 0 && r.ended > 0 then 1 else 0
    ensures Balanced(t)
  {
    OpenCountUpdate(s.runs, i, r);
  }

  lemma StartKeepsBalance(s: State, ok: bool)
    requires Balanced(s) && HandlerReady(s) && s.handler.StartHold?
    ensures Balanced(HandlerMoves(s, ok))
  {
    OpenCountAppend(s.runs, Run(false, false, Unspawned, Untaken, 0, 0, 0, []));
  }

  lemma HandlerKeepsBalance(s: State, ok: bool)
    requires Balanced(s) && HandlerOk(s) && RunsOk(s) && HandlerReady(s)
    ensures Balanced(HandlerMoves(s, ok))
  {
    var t := HandlerMoves(s, ok);
    if s.handler.StartHold? {
      StartKeepsBalance(s, ok);
    } else if s.handler.EndHold? {
      if s.run.Some? {
        UpdateKeepsBalance(s, t, s.run.value, t.runs[s.run.value]);
      }
    } else if s.handler.EventClose? || s.handler.SilentClose? {
      assert RunOk(s.runs[s.handler.run], s.handler.run, s.run, s.handler, s.caller);
      UpdateKeepsBalance(s, t, s.handler.run, t.runs[s.handler.run]);
    } else if Subject(s.handler).Some? {
      SubjectStaysOpen(s, ok);
      UpdateKeepsBalance(s, t, Subject(s.handler).value, t.runs[Subject(s.handler).value]);
    }
  }

  lemma SubjectStaysOpen(s: State, ok: bool)
    requires HandlerOk(s) && HandlerReady(s) && Subject(s.handler).Some?
    requires !s.handler.EventClose? && !s.handler.SilentClose?
    ensures var t, i := HandlerMoves(s, ok), Subject(s.handler).value;
            |t.runs| == |s.runs| && t.runs == s.runs[i := t.runs[i]] && t.runs[i].ended == s.runs[i].ended
            && t.begun == s.begun && t.ended == s.ended
  {
  }

  /** A monitor that holds the run lock and finds a run finds the one it was spawned for. */
  lemma MonitorFindsItsOwnRun(s: State, i: nat)
    requires Inv(s) && i < |s.runs| && s.runs[i].monitor.HoldRun? && s.run.Some?
    ensures s.run == Some(i)
  {
    assert RunOk(s.runs[i], i, s.run, s.handler, s.caller);
    assert MonitorLocksOk(s.runs[i].monitor, i, s.runLock, s.peerLock);
  }

  /** A monitor step changes its own run, and frees the held run only by taking its own. */
  lemma MonitorMovesItself(s: State, i: nat)
    requires Inv(s) && MonitorReady(s, i)
    ensures var t := MonitorMoves(s, i);
            && |t.runs| == |s.runs| && t.runs == s.runs[i := t.runs[i]] && t.handler == s.handler
            && (t.run == s.run || (s.runs[i].monitor.HoldRun? && s.run == Some(i) && t.run == None))
  {
    if s.runs[i].monitor.HoldRun? && s.run.Some? {
      MonitorFindsItsOwnRun(s, i);
    }
  }

  lemma PollingKeepsOwnRun(s: State, i: nat)
    requires MonitorReady(s, i) && Polling(s.runs[i].monitor)
    requires RunOk(s.runs[i], i, s.run, s.handler, s.caller)
    requires s.runs[i].monitor.HoldRun? && s.run.Some? ==> s.run == Some(i)
    requires HandlerOk(s)
    requires s.runs[i].monitor.LockRun? || s.runs[i].monitor.HoldRun? ==> !HandlerHoldsRunLock(s.handler)
    ensures var t := MonitorMoves(s, i); RunOk(t.runs[i], i, t.run, t.handler, t.caller)
  {
  }

  lemma EndingKeepsOwnRun(s: State, i: nat)
    requires MonitorReady(s, i) && !Polling(s.runs[i].monitor)
    requires RunOk(s.runs[i], i, s.run, s.handler, s.caller)
    ensures var t := MonitorMoves(s, i); RunOk(t.runs[i], i, t.run, t.handler, t.caller)
  {
  }

  /** The handler does not hold the run lock when a monitor holds it or can take it. */
  lemma OneRunLockHolder(s: State, i: nat)
    requires LocksOk(s) && MonitorReady(s, i) && (s.runs[i].monitor.LockRun? || s.runs[i].monitor.HoldRun?)
    ensures !HandlerHoldsRunLock(s.handler)
  {
    assert MonitorLocksOk(s.runs[i].monitor, i, s.runLock, s.peerLock);
  }

  lemma MonitorKeepsRun(s: State, i: nat, k: nat)
    requires Inv(s) && MonitorReady(s, i) && k < |s.runs|
    ensures var t := MonitorMoves(s, i);
            |t.runs| == |s.runs| && RunOk(t.runs[k], k, t.run, t.handler, t.caller)
  {
    MonitorMovesItself(s, i);
    assert RunOk(s.runs[k], k, s.run, s.handler, s.caller);
    if k == i {
      if s.runs[i].monitor.LockRun? || s.runs[i].monitor.HoldRun? {
        OneRunLockHolder(s, i);
      }
      if s.runs[i].monitor.HoldRun? && s.run.Some? {
        MonitorFindsItsOwnRun(s, i);
      }
      if Polling(s.runs[i].monitor) {
        PollingKeepsOwnRun(s, i);
      } else {
        EndingKeepsOwnRun(s, i);
      }
    }
  }

  lemma MonitorKeepsLocks(s: State, i: nat, k: nat)
    requires Inv(s) && MonitorReady(s, i) && k < |s.runs|
    ensures var t := MonitorMoves(s, i); MonitorLocksOk(t.runs[k].monitor, k, t.runLock, t.peerLock)
  {
    assert MonitorLocksOk(s.runs[k].monitor, k, s.runLock, s.peerLock);
    assert MonitorLocksOk(s.runs[i].monitor, i, s.runLock, s.peerLock);
    if s.runs[i].monitor.HoldRun? && s.run.Some? {
      MonitorFindsItsOwnRun(s, i);
    }
  }

  lemma MonitorKeepsRest(s: State, i: nat)
    requires Inv(s) && MonitorReady(s, i)
    ensures var t := MonitorMoves(s, i); HandlerLocksOk(t) && HandlerOk(t) && PeerOk(t)
  {
    assert MonitorLocksOk(s.runs[i].monitor, i, s.runLock, s.peerLock);
    MonitorKeepsHandlerLocks(s, i);
    if s.runs[i].monitor.HoldRun? && s.run.Some? {
      MonitorFindsItsOwnRun(s, i);
    }
  }

  lemma MonitorKeepsHandlerLocks(s: State, i: nat)
    requires HandlerLocksOk(s) && MonitorReady(s, i)
    requires MonitorLocksOk(s.runs[i].monitor, i, s.runLock, s.peerLock)
    ensures HandlerLocksOk(MonitorMoves(s, i))
  {
  }

  lemma MonitorKeepsAnswers(s: State, i: nat)
    requires AnswersOk(s) && MonitorReady(s, i)
    ensures AnswersOk(MonitorMoves(s, i))
  {
  }

  lemma MonitorKeepsRuns(s: State, i: nat)
    requires Inv(s) && MonitorReady(s, i)
    ensures RunsOk(MonitorMoves(s, i))
  {
    var t := MonitorMoves(s, i);
    forall k | 0 <= k < |t.runs| ensures RunOk(t.runs[k], k, t.run, t.handler, t.caller) {
      MonitorMovesItself(s, i);
      MonitorKeepsRun(s, i, k);
    }
  }

  lemma MonitorKeepsAllLocks(s: State, i: nat)
    requires Inv(s) && MonitorReady(s, i)
    ensures LocksOk(MonitorMoves(s, i))
  {
    var t := MonitorMoves(s, i);
    MonitorKeepsRest(s, i);
    forall k | 0 <= k < |t.runs| ensures MonitorLocksOk(t.runs[k].monitor, k, t.runLock, t.peerLock) {
      MonitorMovesItself(s, i);
      MonitorKeepsLocks(s, i, k);
    }
  }

  lemma MonitorKeepsInv(s: State, i: nat)
    requires Inv(s) && MonitorReady(s, i)
    ensures Inv(MonitorMoves(s, i))
  {
    MonitorKeepsRest(s, i);
    MonitorKeepsRuns(s, i);
    MonitorKeepsAllLocks(s, i);
    MonitorKeepsBalance(s, i);
    MonitorKeepsAnswers(s, i);
  }

  lemma MonitorKeepsBalance(s: State, i: nat)
    requires Inv(s) && MonitorReady(s, i)
    ensures Balanced(MonitorMoves(s, i))
  {
    var t := MonitorMoves(s, i);
    MonitorMovesItself(s, i);
    assert RunOk(s.runs[i], i, s.run, s.handler, s.caller);
    UpdateKeepsBalance(s, t, i, t.runs[i]);
  }

  lemma {:induction false} ReachableInv(s: State, events: seq<Event>)
    requires Inv(s) && ValidRun(s, events)
    ensures Inv(Final(s, events))
    decreases |events|
  {
    if |events| > 0 {
      StepKeepsInv(s, events[0]);
      ReachableInv(Apply(s, events[0]), events[1..]);
    }
  }

  lemma StepKeepsInv(s: State, e: Event)
    requires Inv(s) && Enabled(s, e)
    ensures Inv(Apply(s, e))
  {
    match e
    case HandlerStep(ok) => HandlerKeepsInv(s, ok);
    case MonitorStep(i) => MonitorKeepsInv(s, i);
    case AcceptorStep => AcceptorKeepsInv(s);
    case EngineStops(i) => EngineStopKeepsInv(s, i);
    case ArrivePeer => NewPeerKeepsInv(s);
    case _ => ArrivalKeepsInv(s, e);
  }

  // ---------- Reachable states ----------

  ghost predicate Reachable(s: State) {
    exists s0, events :: Initial(s0) && ValidRun(s0, events) && Final(s0, events) == s
  }

  lemma ReachableKeepsInv(s: State)
    requires Reachable(s)
    ensures Inv(s)
  {
    var s0, events :| Initial(s0) && ValidRun(s0, events) && Final(s0, events) == s;
    InitialIsOk(s0);
    ReachableInv(s0, events);
  }

  lemma InitialIsOk(s: State)
    requires Initial(s)
    ensures Inv(s)
  {
  }

  lemma {:induction false} RunExtends(s: State, events: seq<Event>, e: Event)
    requires ValidRun(s, events) && Enabled(Final(s, events), e)
    ensures ValidRun(s, events + [e]) && Final(s, events + [e]) == Apply(Final(s, events), e)
    decreases |events|
  {
    if |events| == 0 {
      assert (events + [e])[1..] == [];
    } else {
      RunExtends(Apply(s, events[0]), events[1..], e);
      assert (events + [e])[1..] == events[1..] + [e];
    }
  }

  lemma StepFrom(s: State, e: Event) returns (t: State)
    requires Reachable(s) && Enabled(s, e)
    ensures t == Apply(s, e) && Reachable(t)
  {
    var s0, events :| Initial(s0) && ValidRun(s0, events) && Final(s0, events) == s;
    RunExtends(s0, events, e);
    t := Apply(s, e);
  }
}
