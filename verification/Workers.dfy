/** Worker ownership, bounded joins, start-up with rollback and shutdown
    (src/worker.rs, src/bootstrap.rs, src/app.rs).

    Clock readings and what a thread does are inputs. Times are nanoseconds. */
module Workers {
  import opened StreamFailure

  const MS: nat := 1_000_000
  const SHUTDOWN_POLL: nat := 10 * MS

  datatype Kind = Generator | Analyser | Mapper | MidiInput | WebSocket | Osc | FrameWriter

  /** The grace period of `WorkerKind::spec`. */
  function Timeout(kind: Kind): nat {
    match kind
    case Generator => 250 * MS
    case Analyser => 1_000 * MS
    case Mapper => 1_000 * MS
    case MidiInput => 250 * MS
    case WebSocket => 1_500 * MS
    case Osc => 1_500 * MS
    case FrameWriter => 1_000 * MS
  }

  datatype Outcome = Joined | TimedOut | Panicked

  // ---------- One bounded join ----------

  /** What one join meets: its clock readings in order, the answer of each `is_finished` check in
      order, and how the thread ends if it does. */
  datatype World = World(clock: nat -> nat, finished: nat -> bool, panics: bool)

  function Least(a: nat, b: nat): nat {
    if a < b then a else b
  }

  /** Time does not run backwards, and a sleep between readings `k` and `k + 1` lasts at least as
      long as asked. Reading 0 sets the deadline; no sleep lies between it and reading 1. */
  ghost predicate SleepsFully(w: World, timeout: nat) {
    && w.clock(0) <= w.clock(1)
    && forall k: nat :: 1 <= k && w.clock(k) < w.clock(0) + timeout ==>
         w.clock(k) + Least(w.clock(0) + timeout - w.clock(k), SHUTDOWN_POLL) <= w.clock(k + 1)
  }

  /** The most checks a join can make. */
  function MostChecks(timeout: nat): nat {
    (timeout + SHUTDOWN_POLL - 1) / SHUTDOWN_POLL + 1
  }

  /** What an outcome means: a join returns at the first check that finds the thread finished, and
      gives up only after its whole grace period. */
  ghost predicate Explains(outcome: Outcome, checks: nat, w: World, timeout: nat) {
    && 0 < checks
    && (forall k: nat :: k + 1 < checks ==> !w.finished(k))
    && match outcome
       case TimedOut => !w.finished(checks - 1) && w.clock(0) + timeout <= w.clock(checks)
       case Joined => w.finished(checks - 1) && !w.panics
       case Panicked => w.finished(checks - 1) && w.panics
  }

  /** `join_with_timeout`. */
  method JoinWithTimeout(timeout: nat, w: World) returns (outcome: Outcome, checks: nat)
    requires SleepsFully(w, timeout)
    ensures Explains(outcome, checks, w, timeout) && checks <= MostChecks(timeout)
  {
    var deadline := w.clock(0) + timeout;
    checks := 0;
    while true
      invariant forall k: nat :: k < checks ==> !w.finished(k)
      invariant checks > 0 ==> checks * SHUTDOWN_POLL < timeout + SHUTDOWN_POLL
      invariant deadline <= w.clock(checks + 1) || w.clock(0) + checks * SHUTDOWN_POLL <= w.clock(checks + 1)
      decreases timeout + SHUTDOWN_POLL - checks * SHUTDOWN_POLL
    {
      checks := checks + 1;
      assert checks <= MostChecks(timeout) by {
        FewChecks(checks, timeout);
      }
      if w.finished(checks - 1) {
        return if w.panics then Panicked else Joined, checks;
      }
      var now := w.clock(checks);
      if deadline <= now {
        return TimedOut, checks;
      }
      // Sleeps for the rest of the grace period, but no longer than one poll interval.
    }
  }

  /** The grace periods in milliseconds, and the most checks each allows. */
  lemma GracePeriods()
    ensures MS == 1_000_000
    ensures Timeout(Generator) == 250 * MS == Timeout(MidiInput)
    ensures Timeout(Analyser) == 1_000 * MS == Timeout(Mapper) == Timeout(FrameWriter)
    ensures Timeout(WebSocket) == 1_500 * MS == Timeout(Osc)
    ensures MostChecks(250 * MS) == 26 && MostChecks(1_000 * MS) == 101 && MostChecks(1_500 * MS) == 151
  {
  }

  lemma FewChecks(checks: nat, timeout: nat)
    requires checks == 1 || (checks - 1) * SHUTDOWN_POLL < timeout + SHUTDOWN_POLL
    ensures checks <= MostChecks(timeout)
  {
  }

  /** The bound is met: with sleeps of exactly the length asked for and a thread that never
      finishes, every check before the last possible one still finds time left. */
  lemma BoundIsTight(timeout: nat, checks: nat, outcome: Outcome)
    requires timeout > 0
    requires Explains(outcome, checks, Stubborn(timeout), timeout)
    ensures SleepsFully(Stubborn(timeout), timeout) && outcome == TimedOut && checks >= MostChecks(timeout)
  {
  }

  /** A thread that never finishes, met by a clock that advances only by sleeping. */
  function Stubborn(timeout: nat): World {
    World((k: nat) => if k == 0 then 0 else Least((k - 1) * SHUTDOWN_POLL, timeout), k => false, false)
  }

  // ---------- Worker ownership ----------

  datatype Worker = Worker(kind: Kind, handle: nat)

  /** How one handle left the collection. */
  datatype End = End(handle: nat, outcome: Outcome, checks: nat)

  ghost predicate EndOk(end: End, worker: Worker, world: World) {
    && end.handle == worker.handle && end.checks <= MostChecks(Timeout(worker.kind))
    && Explains(end.outcome, end.checks, world, Timeout(worker.kind))
  }

  class WorkerThreads {
    var registered: seq<Worker>

    /** Each thread's conduct, by handle. */
    const worlds: nat -> World

    /** Every worker ever registered, and every end so far. */
    ghost var started: seq<Worker>
    ghost var ended: seq<End>

    /** Workers end in registration order, each at most once, and those still registered have not. */
    ghost predicate Valid()
      reads this
    {
      && |started| == |ended| + |registered|
      && started[|ended|..] == registered
      && (forall i :: 0 <= i < |ended| ==> EndOk(ended[i], started[i], worlds(started[i].handle)))
      && (forall i, j :: 0 <= i < j < |started| ==> started[i].handle != started[j].handle)
      && forall i :: 0 <= i < |started| ==> SleepsFully(worlds(started[i].handle), Timeout(started[i].kind))
    }

    constructor (worlds: nat -> World)
      ensures Valid() && registered == [] && started == [] && ended == [] && this.worlds == worlds
    {
      this.worlds := worlds;
      registered, started, ended := [], [], [];
    }

    /** Takes ownership of a thread just spawned. */
    method Register(kind: Kind, handle: nat)
      requires Valid() && SleepsFully(worlds(handle), Timeout(kind))
      requires forall i :: 0 <= i < |started| ==> started[i].handle != handle
      modifies this
      ensures Valid() && ended == old(ended)
      ensures registered == old(registered) + [Worker(kind, handle)]
      ensures started == old(started) + [Worker(kind, handle)]
    {
      registered := registered + [Worker(kind, handle)];
      started := started + [Worker(kind, handle)];
    }

    /** Joins or detaches every worker in registration order; a second call finds none. */
    method Shutdown(state: AppState) returns (checks: nat)
      requires Valid() && !state.keepRunning
      modifies this
      ensures Valid() && registered == [] && started == old(started)
      ensures old(ended) <= ended && |ended| == |started|
      ensures old(registered) == [] ==> ended == old(ended)
      ensures checks <= TotalChecks(old(registered))
    {
      checks := 0;
      while registered != []
        invariant Valid() && started == old(started) && old(ended) <= ended
        invariant old(registered) == [] ==> ended == old(ended)
        invariant checks + TotalChecks(registered) <= TotalChecks(old(registered))
        decreases |registered|
      {
        var n := EndFirst();
        checks := checks + n;
      }
    }

    /** `drain`: takes the first worker out and joins it. */
    method EndFirst() returns (checks: nat)
      requires Valid() && registered != []
      modifies this
      ensures Valid() && started == old(started)
      ensures registered == old(registered)[1..] && |ended| == |old(ended)| + 1 && old(ended) <= ended
      ensures checks <= MostChecks(Timeout(old(registered)[0].kind))
    {
      var worker := registered[0];
      assert worker == started[|ended|];
      var outcome;
      outcome, checks := JoinWithTimeout(Timeout(worker.kind), worlds(worker.handle));
      registered := registered[1..];
      ended := ended + [End(worker.handle, outcome, checks)];
    }
  }

  function TotalChecks(workers: seq<Worker>): nat {
    if |workers| == 0 then 0 else MostChecks(Timeout(workers[0].kind)) + TotalChecks(workers[1..])
  }

  // ---------- Start-up and shutdown ----------

  /** A configured output, and whether it starts. */
  datatype Output = Output(kind: Kind, starts: bool)

  datatype Plan = Plan(calibration: bool, streamStarts: bool, midi: bool, outputs: seq<Output>)

  datatype Boot = Ready | InputFailed | OutputFailed(at: nat)

  function FirstFailure(outputs: seq<Output>): (at: nat)
    ensures at <= |outputs| && (at < |outputs| ==> !outputs[at].starts)
    ensures forall k :: 0 <= k < at ==> outputs[k].starts
  {
    if |outputs| == 0 || !outputs[0].starts then 0 else 1 + FirstFailure(outputs[1..])
  }

  /** Shutdown order: inputs and pipeline first, then the outputs that started, as configured. */
  function JoinOrder(plan: Plan): seq<Kind> {
    PipelineOrder(plan) + OutputKinds(plan.outputs[..FirstFailure(plan.outputs)])
  }

  function PipelineOrder(plan: Plan): seq<Kind> {
    (if plan.calibration then [Generator] else []) + [Analyser, Mapper] + (if plan.midi then [MidiInput] else [])
  }

  function OutputKinds(outputs: seq<Output>): seq<Kind> {
    seq(|outputs|, i requires 0 <= i < |outputs| => outputs[i].kind)
  }

  function Kinds(workers: seq<Worker>): seq<Kind> {
    seq(|workers|, i requires 0 <= i < |workers| => workers[i].kind)
  }

  class App {
    var inputDevice: bool
    const state: AppState
    const workers: WorkerThreads
    var shutdownStarted: bool
    var threadsSpawned: nat

    ghost predicate Valid()
      reads this, state, workers
    {
      && workers.Valid() && state.Valid() && threadsSpawned == |workers.started|
      && (forall i :: 0 <= i < |workers.started| ==> workers.started[i].handle == i)
      && (shutdownStarted ==> Stopped())
    }

    /** Nothing runs any more: each worker that ever started was joined or detached once. */
    ghost predicate Stopped()
      reads this, state, workers
    {
      !inputDevice && !state.keepRunning && workers.registered == []
    }

    constructor (worlds: nat -> World)
      ensures Valid() && inputDevice && state.keepRunning && !shutdownStarted
      ensures fresh(state) && fresh(workers) && workers.worlds == worlds && workers.started == []
    {
      inputDevice, shutdownStarted, threadsSpawned := true, false, 0;
      state := new AppState();
      workers := new WorkerThreads(worlds);
    }

    /** Starts the plan. When an output fails at any position, everything started before it is
        shut down in the same order a full shutdown would use. */
    method Bootstrap(plan: Plan) returns (boot: Boot)
      requires Valid() && inputDevice && state.keepRunning && workers.started == [] && !shutdownStarted
      requires AllSleepFully()
      modifies this, state, workers
      ensures Valid()
      ensures !plan.calibration && !plan.streamStarts <==> boot == InputFailed
      ensures boot.InputFailed? ==> workers.started == []
      ensures !boot.InputFailed? ==>
                && Order() == JoinOrder(plan)
                && boot == (if FirstFailure(plan.outputs) < |plan.outputs|
                            then OutputFailed(FirstFailure(plan.outputs)) else Ready)
      ensures boot.Ready? ==> inputDevice && state.keepRunning && workers.registered == workers.started
      ensures boot.OutputFailed? ==> Stopped()
    {
      if !plan.calibration && !plan.streamStarts {
        return InputFailed;
      }
      SpawnPipeline(plan);
      var started := SpawnOutputs(plan.outputs);
      assert Order() == JoinOrder(plan);
      if started < |plan.outputs| {
        Abandon();
        return OutputFailed(started);
      }
      return Ready;
    }

    /** What start-up does when an output fails: no `App` exists yet, so it stops everything itself. */
    method Abandon()
      requires Valid() && !shutdownStarted
      modifies this`inputDevice, state, workers
      ensures Valid() && Stopped() && workers.started == old(workers.started)
    {
      inputDevice := false;
      state.RequestStop();
      var _ := workers.Shutdown(state);
    }

    ghost predicate AllSleepFully()
      reads this
    {
      forall handle, kind :: SleepsFully(workers.worlds(handle), Timeout(kind))
    }

    /** The kinds started so far, in order. */
    ghost function Order(): seq<Kind>
      reads this, workers
    {
      Kinds(workers.started)
    }

    method SpawnPipeline(plan: Plan)
      requires Valid() && workers.started == [] && !shutdownStarted && AllSleepFully()
      modifies this`threadsSpawned, workers
      ensures Valid() && workers.ended == old(workers.ended) && Order() == PipelineOrder(plan)
    {
      assert Order() == [];
      if plan.calibration {
        Spawn(Generator);
      }
      SpawnAnalysis();
      if plan.midi {
        Spawn(MidiInput);
      }
    }

    method SpawnAnalysis()
      requires Valid() && !shutdownStarted && AllSleepFully()
      modifies this`threadsSpawned, workers
      ensures Valid() && workers.ended == old(workers.ended)
      ensures Order() == old(Order()) + [Analyser, Mapper]
    {
      Spawn(Analyser);
      Spawn(Mapper);
    }

    method Spawn(kind: Kind)
      requires Valid() && !shutdownStarted && AllSleepFully()
      modifies this`threadsSpawned, workers
      ensures Valid() && workers.ended == old(workers.ended)
      ensures Order() == old(Order()) + [kind]
    {
      workers.Register(kind, threadsSpawned);
      threadsSpawned := threadsSpawned + 1;
    }

    /** `spawn_outputs`: registers each output as it starts and stops at the first that fails. */
    method SpawnOutputs(outputs: seq<Output>) returns (at: nat)
      requires Valid() && !shutdownStarted && AllSleepFully()
      modifies this`threadsSpawned, workers
      ensures Valid() && workers.ended == old(workers.ended) && at == FirstFailure(outputs)
      ensures Order() == old(Order()) + OutputKinds(outputs[..at])
    {
      at := 0;
      while at < |outputs|
        invariant 0 <= at <= FirstFailure(outputs) && Valid() && workers.ended == old(workers.ended)
        invariant Order() == old(Order()) + OutputKinds(outputs[..at])
      {
        if !outputs[at].starts {
          return;
        }
        Spawn(outputs[at].kind);
        assert OutputKinds(outputs[..at + 1]) == OutputKinds(outputs[..at]) + [outputs[at].kind];
        at := at + 1;
      }
    }

    /** Idempotent: a second call, such as the one on drop, changes nothing. */
    method Shutdown()
      requires Valid()
      modifies this, state, workers
      ensures Valid() && Stopped() && shutdownStarted && workers.started == old(workers.started)
      ensures old(workers.ended) <= workers.ended
      ensures old(shutdownStarted) ==>
                && inputDevice == old(inputDevice) && state.keepRunning == old(state.keepRunning)
                && workers.ended == old(workers.ended)
    {
      if shutdownStarted {
        return;
      }
      shutdownStarted := true;
      inputDevice := false;
      state.RequestStop();
      var _ := workers.Shutdown(state);
    }
  }
}
