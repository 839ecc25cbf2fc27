/** Reporting why the engine stopped (src/app.rs).

    Stream error callbacks store the message under a mutex and clear `keep_running`
    afterwards; other threads may clear it too; the host polls `engine_failure`, which loads
    the flag first and takes the message second. `first`, `requested` and `polls` record
    what happened. */
module StreamFailure {
  /** The recorded stream error, if there is one. */
  datatype Recorded = NoError | Error(message: string)

  datatype Failure = StillRunning | StreamFailed(message: string) | EngineStopped

  datatype State = State(running: bool, error: Recorded, failing: nat, poll: bool,
                         first: Recorded, requested: bool, polls: seq<Failure>)

  const INITIAL := State(true, NoError, 0, false, NoError, false, [])

  datatype Event =
    | Store(message: string)   // a callback records its error, unless one is recorded
    | Clear                    // ... and then clears the flag
    | Request                  // something else asks for shutdown
    | Load                     // the host sees the flag cleared
    | Take                     // ... and takes the message

  predicate Enabled(s: State, e: Event) {
    match e
    case Store(message) => true
    case Clear => s.failing > 0
    case Request => true
    case Load => !s.running && !s.poll
    case Take => s.poll
  }

  function OrElse(known: Recorded, message: string): Recorded {
    if known.NoError? then Error(message) else known
  }

  function Apply(s: State, e: Event): State
    requires Enabled(s, e)
  {
    match e
    case Store(message) =>
      s.(error := OrElse(s.error, message), first := OrElse(s.first, message), failing := s.failing + 1)
    case Clear => s.(running := false, failing := s.failing - 1)
    case Request => s.(running := false, requested := true)
    case Load => s.(poll := true)
    case Take =>
      var report := match s.error case Error(message) => StreamFailed(message) case NoError => EngineStopped;
      s.(poll := false, error := NoError, polls := s.polls + [report])
  }

  predicate ValidRun(s: State, events: seq<Event>)
    decreases |events|
  {
    |events| == 0 || (Enabled(s, events[0]) && ValidRun(Apply(s, events[0]), events[1..]))
  }

  function Final(s: State, events: seq<Event>): State
    requires ValidRun(s, events)
    decreases |events|
  {
    if |events| == 0 then s else Final(Apply(s, events[0]), events[1..])
  }

  /** Until a poll takes it, the recorded error is the first; and it is recorded before the flag falls. */
  predicate Inv(s: State) {
    && (s.failing > 0 ==> s.first.Error?)
    && (s.error.Error? ==> s.first.Error?)
    && (!s.running ==> s.requested || s.first.Error?)
    && (s.poll ==> !s.running)
    && (|s.polls| == 0 ==> s.error == s.first)
    && (|s.polls| > 0 && !s.requested ==> s.first.Error? && s.polls[0] == StreamFailed(s.first.message))
  }

  lemma {:induction false} RunKeepsInv(s: State, events: seq<Event>)
    requires Inv(s) && ValidRun(s, events)
    ensures Inv(Final(s, events))
    ensures s.first.Error? ==> Final(s, events).first == s.first
    decreases |events|
  {
    if |events| > 0 {
      RunKeepsInv(Apply(s, events[0]), events[1..]);
    }
  }

  /** However callbacks and polls interleave, an engine stopped by stream errors alone reports the
      first of them, never a stop without a reason. */
  lemma FirstErrorIsReported(events: seq<Event>)
    requires ValidRun(INITIAL, events)
    ensures var s := Final(INITIAL, events);
            |s.polls| > 0 && !s.requested ==> s.first.Error? && s.polls[0] == StreamFailed(s.first.message)
  {
    RunKeepsInv(INITIAL, events);
  }

  /** Once the first error is stored, no later one replaces it. */
  lemma LaterErrorsNeverReplaceFirst(before: seq<Event>, message: string, after: seq<Event>)
    requires ValidRun(INITIAL, before) && Final(INITIAL, before).first == NoError
    requires ValidRun(Apply(Final(INITIAL, before), Store(message)), after)
    ensures Final(Apply(Final(INITIAL, before), Store(message)), after).first == Error(message)
    ensures var s := Final(Apply(Final(INITIAL, before), Store(message)), after);
            |s.polls| > 0 && !s.requested ==> s.polls[0] == StreamFailed(message)
  {
    RunKeepsInv(INITIAL, before);
    RunKeepsInv(Apply(Final(INITIAL, before), Store(message)), after);
  }

  function Stores(events: seq<Event>): nat {
    if |events| == 0 then 0 else (if events[0].Store? then 1 else 0) + Stores(events[1..])
  }

  function Named(polls: seq<Failure>): nat {
    if |polls| == 0 then 0
    else Named(polls[..|polls| - 1]) + if polls[|polls| - 1].StreamFailed? then 1 else 0
  }

  lemma {:induction false} RunKeepsNamed(s: State, events: seq<Event>)
    requires ValidRun(s, events)
    ensures var t := Final(s, events);
            Named(t.polls) + (if t.error.Error? then 1 else 0) <=
            Named(s.polls) + (if s.error.Error? then 1 else 0) + Stores(events)
    decreases |events|
  {
    if |events| > 0 {
      var t := Apply(s, events[0]);
      if events[0].Take? {
        assert t.polls[..|s.polls|] == s.polls;
      }
      RunKeepsNamed(t, events[1..]);
    }
  }

  /** No error is reported twice: polls name at most as many errors as callbacks stored. */
  lemma ErrorsAreReportedOnce(events: seq<Event>)
    requires ValidRun(INITIAL, events)
    ensures Named(Final(INITIAL, events).polls) <= Stores(events)
  {
    RunKeepsNamed(INITIAL, events);
  }

  /** The shared state, whose calls run these steps. `history` is where the steps stand. */
  class AppState {
    var keepRunning: bool
    var hardwareStreamError: Recorded
    ghost var history: State

    ghost predicate Valid()
      reads this
    {
      && keepRunning == history.running && hardwareStreamError == history.error
      && history.failing == 0 && !history.poll && Inv(history)
    }

    constructor ()
      ensures Valid() && keepRunning && history == INITIAL
    {
      keepRunning, hardwareStreamError, history := true, NoError, INITIAL;
    }

    /** Runs `Store` and then `Clear`. Until a poll takes it, the recorded error stays the run's first. */
    method FailHardwareStream(message: string)
      requires Valid()
      modifies this
      ensures Valid() && history == Apply(Apply(old(history), Store(message)), Clear)
      ensures history.polls == [] ==> hardwareStreamError == Error(OrElse(old(history.first), message).message)
    {
      if hardwareStreamError.NoError? {
        hardwareStreamError := Error(message);
      }
      keepRunning := false;
      history := Apply(Apply(history, Store(message)), Clear);
    }

    /** Somebody other than a failing stream stops the engine. */
    method RequestStop()
      requires Valid()
      modifies this
      ensures Valid() && !keepRunning && history == Apply(old(history), Request)
    {
      keepRunning := false;
      history := Apply(history, Request);
    }

    /** Runs `Load` and then `Take`. The first poll of an engine stopped by stream errors alone names
        the first of them. */
    method EngineFailure() returns (failure: Failure)
      requires Valid()
      modifies this
      ensures Valid() && keepRunning == old(keepRunning)
      ensures keepRunning ==> failure == StillRunning && history == old(history)
      ensures !keepRunning ==> history == Apply(Apply(old(history), Load), Take) && history.polls == old(history.polls) + [failure]
      ensures !keepRunning ==> hardwareStreamError == NoError
      ensures !keepRunning && old(hardwareStreamError) == NoError ==> failure == EngineStopped
      ensures !keepRunning && old(history.polls) == [] && !history.requested ==>
                history.first.Error? && failure == StreamFailed(history.first.message)
    {
      if keepRunning {
        return StillRunning;
      }
      match hardwareStreamError {
        case Error(message) =>
          hardwareStreamError := NoError;
          failure := StreamFailed(message);
        case NoError =>
          failure := EngineStopped;
      }
      history := Apply(Apply(history, Load), Take);
    }
  }
}
