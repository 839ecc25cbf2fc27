/** The MIDI atomics under concurrent readers (src/managers/midi.rs, src/managers/mapper.rs,
    src/managers/frame_writer.rs).

    Each atomic access is one step, and the listener, the mapper and the frame writer
    interleave freely. `bytes` is everything the listener has begun to record and `log`
    is where its transport events are. An event's number counts transport events from one;
    numbers, byte positions and the lists of reports are bookkeeping that no step reads. */
module MidiSnapshots {
  import opened Midi
  import opened Words

  /** A transport atomic: its code, and the number of the event that wrote it. */
  datatype Cell = Cell(code: Code, number: nat)

  const EMPTY: Cell := Cell(NoEvent, 0)

  datatype Writer =
    | Idle
    | StoreLast(code: Code)
    | StoreLatest(code: Code)
    | AddCount

  /** `read_midi_snapshot` swaps first and loads the steps second. */
  datatype Mapper = Away | Swapped(taken: Cell)

  /** The frame writer loads steps, then the count, then the latest code. */
  datatype Framer = Between | HasSteps(steps: nat, at: nat) | HasCount(steps: nat, at: nat, count: nat, counted: nat)

  /** `at` is how many bytes had been recorded when the steps were read. */
  datatype Report = Report(transport: Cell, steps: nat, at: nat)

  /** `done` is how many bytes had been recorded when the latest code was read. */
  datatype FrameMidi = FrameMidi(steps: nat, at: nat, count: nat, counted: nat, latest: Cell, done: nat)

  datatype State = State(bytes: seq<Byte>, log: seq<nat>, writer: Writer, ticks: nat,
                         last: Cell, latest: Cell, count: nat, steps: nat,
                         mapper: Mapper, reports: seq<Report>, framer: Framer, frames: seq<FrameMidi>)

  const INITIAL := State([], [], Idle, 0, EMPTY, EMPTY, 0, 0, Away, [], Between, [])

  datatype Event =
    | Receive(b: Byte)     // up to and including the steps access of that byte
    | Record               // the listener's next transport access
    | Swap | LoadSteps     // the mapper
    | FrameSteps | FrameCount | FrameLatest

  predicate Enabled(s: State, e: Event) {
    match e
    case Receive(b) => s.writer.Idle?
    case Record => !s.writer.Idle?
    case Swap => s.mapper.Away?
    case LoadSteps => s.mapper.Swapped?
    case FrameSteps => s.framer.Between?
    case FrameCount => s.framer.HasSteps?
    case FrameLatest => s.framer.HasCount?
  }

  function Apply(s: State, e: Event): State
    requires Enabled(s, e)
  {
    match e
    case Receive(b) => Received(s, b)
    case Record => Recorded(s)
    case Swap => s.(mapper := Swapped(s.last), last := EMPTY)
    case LoadSteps =>
      s.(mapper := Away, reports := s.reports + [Report(s.mapper.taken, s.steps, |s.bytes|)])
    case FrameSteps => s.(framer := HasSteps(s.steps, |s.bytes|))
    case FrameCount => s.(framer := HasCount(s.framer.steps, s.framer.at, s.count, Completed(s)))
    case FrameLatest =>
      var f := s.framer;
      s.(framer := Between, frames := s.frames + [FrameMidi(f.steps, f.at, f.count, f.counted, s.latest, |s.bytes|)])
  }

  function Received(s: State, b: Byte): State {
    var t := s.(bytes := s.bytes + [b], log := s.log + if IsTransport(b) then [|s.bytes|] else []);
    if b == START then t.(ticks := 0, steps := 0, writer := StoreLast(Started))
    else if b == STOP then t.(writer := StoreLast(Stopped))
    else if b == CONTINUE then t.(writer := StoreLast(Continued))
    else if b == TIMING_CLOCK then
      if s.ticks + 1 >= CLOCK_TICKS_PER_STEP then t.(ticks := 0, steps := Next(s.steps))
      else t.(ticks := s.ticks + 1)
    else t
  }

  function Recorded(s: State): State
    requires !s.writer.Idle?
  {
    match s.writer
    case StoreLast(code) => s.(last := Cell(code, Begun(s)), writer := StoreLatest(code))
    case StoreLatest(code) => s.(latest := Cell(code, Begun(s)), writer := AddCount)
    case AddCount => s.(count := Next(s.count), writer := Idle)
  }

  function Begun(s: State): nat {
    |s.log|
  }

  /** Events whose count has been added. */
  function Completed(s: State): nat {
    if s.writer.Idle? || Begun(s) == 0 then Begun(s) else Begun(s) - 1
  }

  predicate ValidRun(s: State, events: seq<Event>)
    decreases |events|
  {
    |events| == 0 || (Enabled(s, events[0]) && ValidRun(Apply(s, events[0]), events[1..]))
  }

  function Final(s: State, events: seq<Event>): State
    requires ValidRun(s, events)
    decreases |events|
  {
    if |events| == 0 then s else Final(Apply(s, events[0]), events[1..])
  }

  // ---------- What the step counter means at every moment ----------

  predicate StepsOk(s: State) {
    && s.steps == StepCount(s.bytes)
    && s.ticks == TickRemainder(ClocksSinceStart(s.bytes))
  }

  /** Steps read when `at` bytes had been recorded. */
  predicate ReadAt(steps: nat, at: nat, bytes: seq<Byte>) {
    at <= |bytes| && steps == StepCount(bytes[..at])
  }

  predicate ReadingsOk(s: State) {
    && (forall k :: 0 <= k < |s.reports| ==> ReadAt(s.reports[k].steps, s.reports[k].at, s.bytes))
    && (forall k :: 0 <= k < |s.frames| ==> ReadAt(s.frames[k].steps, s.frames[k].at, s.bytes))
    && (!s.framer.Between? ==> ReadAt(s.framer.steps, s.framer.at, s.bytes))
  }

  // ---------- What the transport cells mean at every moment ----------

  predicate LogOk(s: State) {
    s.log == Transports(s.bytes)
  }

  predicate LogInside(s: State) {
    forall k :: 0 <= k < |s.log| ==> s.log[k] < |s.bytes|
  }

  /** The code in a cell is that of the event with its number. */
  predicate CellOk(cell: Cell, s: State)
    requires LogInside(s)
  {
    && cell.number <= |s.log|
    && cell.code == (if cell.number == 0 then NoEvent else CodeOf(s.bytes[s.log[cell.number - 1]]))
  }

  predicate WriterOk(s: State)
    requires LogInside(s)
  {
    && (s.writer.StoreLast? || s.writer.StoreLatest? ==>
          Begun(s) > 0 && CellOk(Cell(s.writer.code, Begun(s)), s))
    && (s.writer.AddCount? ==> Begun(s) > 0)
  }

  predicate CellsOk(s: State) {
    && LogInside(s) && WriterOk(s)
    && CellOk(s.last, s) && CellOk(s.latest, s)
    && (s.mapper.Swapped? ==> CellOk(s.mapper.taken, s))
    && (forall k :: 0 <= k < |s.reports| ==> ReportOk(s.reports[k], s))
    && (forall k :: 0 <= k < |s.frames| ==> CellOk(s.frames[k].latest, s))
  }

  /** The report's event was received before its steps were read. */
  predicate ReportOk(r: Report, s: State)
    requires LogInside(s)
  {
    CellOk(r.transport, s) && (r.transport.number > 0 ==> s.log[r.transport.number - 1] < r.at)
  }

  /** The latest code is written before its event is counted. */
  predicate CountsOk(s: State) {
    && s.count == Wrapped(Completed(s))
    && s.latest.number == (if s.writer.StoreLast? || s.writer.StoreLatest? then Begun(s) - 1 else Begun(s))
    && (s.framer.HasCount? ==> CountedOk(s.framer.count, s.framer.counted, s.latest.number))
    && forall k :: 0 <= k < |s.frames| ==>
         CountedOk(s.frames[k].count, s.frames[k].counted, s.frames[k].latest.number)
  }

  predicate CountedOk(count: nat, counted: nat, latest: nat) {
    count == Wrapped(counted) && counted <= latest
  }

  /** The newest event number handed to the mapper so far. */
  function Newest(s: State): nat {
    if s.mapper.Swapped? && s.mapper.taken.number > 0 then s.mapper.taken.number else NewestReported(s.reports)
  }

  function NewestReported(reports: seq<Report>): nat {
    if |reports| == 0 then 0
    else if reports[|reports| - 1].transport.number > 0 then reports[|reports| - 1].transport.number
    else NewestReported(reports[..|reports| - 1])
  }

  /** Events stored where the mapper can see them. */
  function Visible(s: State): nat {
    if s.writer.StoreLast? && Begun(s) > 0 then Begun(s) - 1 else Begun(s)
  }

  /** The pending event is newer than all handed over; with none pending, the newest was handed over. */
  predicate HandoverOk(s: State) {
    && (s.mapper.Swapped? && s.mapper.taken.number > 0 ==> NewestReported(s.reports) < s.mapper.taken.number)
    && (if s.last.number == 0 then Newest(s) == Visible(s) else Newest(s) < s.last.number == Visible(s))
    && Ascending(s.reports)
  }

  predicate Ascending(reports: seq<Report>) {
    forall j, k :: 0 <= j < k < |reports| && reports[j].transport.number > 0 && reports[k].transport.number > 0
      ==> reports[j].transport.number < reports[k].transport.number
  }

  predicate Inv(s: State) {
    StepsOk(s) && ReadingsOk(s) && LogOk(s) && CellsOk(s) && CountsOk(s) && HandoverOk(s)
  }

  // ---------- Preservation ----------

  lemma ReceiveKeepsSteps(s: State, b: Byte)
    requires StepsOk(s)
    ensures StepsOk(Received(s, b))
  {
    var clocks := ClocksSinceStart(s.bytes);
    ClocksAppend(s.bytes, b);
    NextTick(clocks);
    if b == TIMING_CLOCK {
      assert ClocksSinceStart(s.bytes + [b]) == clocks + 1;
    } else if b == START {
      assert ClocksSinceStart(s.bytes + [b]) == 0;
    } else {
      assert ClocksSinceStart(s.bytes + [b]) == clocks;
    }
  }

  lemma ReadingExtends(steps: nat, at: nat, bytes: seq<Byte>, b: Byte)
    requires ReadAt(steps, at, bytes)
    ensures ReadAt(steps, at, bytes + [b])
  {
    assert (bytes + [b])[..at] == bytes[..at];
  }

  lemma ReceiveKeepsReadings(s: State, b: Byte)
    requires ReadingsOk(s)
    ensures ReadingsOk(Received(s, b))
  {
    forall k | 0 <= k < |s.reports| ensures ReadAt(s.reports[k].steps, s.reports[k].at, s.bytes + [b]) {
      ReadingExtends(s.reports[k].steps, s.reports[k].at, s.bytes, b);
    }
    forall k | 0 <= k < |s.frames| ensures ReadAt(s.frames[k].steps, s.frames[k].at, s.bytes + [b]) {
      ReadingExtends(s.frames[k].steps, s.frames[k].at, s.bytes, b);
    }
    if !s.framer.Between? {
      ReadingExtends(s.framer.steps, s.framer.at, s.bytes, b);
    }
  }

  lemma StepsKeepReadings(s: State, e: Event)
    requires StepsOk(s) && ReadingsOk(s) && Enabled(s, e)
    ensures ReadingsOk(Apply(s, e))
  {
    if e.Receive? {
      ReceiveKeepsReadings(s, e.b);
    } else {
      assert s.bytes[..|s.bytes|] == s.bytes;
      assert ReadAt(s.steps, |s.bytes|, s.bytes);
    }
  }

  lemma CellExtends(cell: Cell, s: State, b: Byte)
    requires LogInside(s) && CellOk(cell, s)
    ensures LogInside(Received(s, b)) && CellOk(cell, Received(s, b))
  {
  }

  lemma ReceiveKeepsCells(s: State, b: Byte)
    requires s.writer.Idle? && CellsOk(s)
    ensures CellsOk(Received(s, b))
  {
    var t := Received(s, b);
    CellExtends(s.last, s, b);
    CellExtends(s.latest, s, b);
    if s.mapper.Swapped? {
      CellExtends(s.mapper.taken, s, b);
    }
    forall k | 0 <= k < |s.reports| ensures ReportOk(s.reports[k], t) {
      CellExtends(s.reports[k].transport, s, b);
    }
    forall k | 0 <= k < |s.frames| ensures CellOk(s.frames[k].latest, t) {
      CellExtends(s.frames[k].latest, s, b);
    }
    assert WriterOk(t);
  }

  lemma OthersKeepCells(s: State, e: Event)
    requires CellsOk(s) && Enabled(s, e) && !e.Receive?
    ensures CellsOk(Apply(s, e))
  {
    var t := Apply(s, e);
    assert forall cell :: CellOk(cell, s) ==> CellOk(cell, t);
    assert forall r :: ReportOk(r, s) ==> ReportOk(r, t);
  }

  lemma ReceiveKeepsCounts(s: State, b: Byte)
    requires s.writer.Idle? && CountsOk(s)
    ensures CountsOk(Received(s, b))
  {
  }

  lemma OthersKeepCounts(s: State, e: Event)
    requires CellsOk(s) && CountsOk(s) && Enabled(s, e) && !e.Receive?
    ensures CountsOk(Apply(s, e))
  {
    if s.writer.AddCount? {
      NextWraps(Begun(s) - 1);
    }
  }

  lemma LoadStepsKeepsHandover(s: State)
    requires HandoverOk(s) && s.mapper.Swapped?
    ensures HandoverOk(Apply(s, LoadSteps))
  {
    assert Apply(s, LoadSteps).reports[..|s.reports|] == s.reports;
    NewestIsLargest(s.reports);
  }

  lemma ReceiveKeepsHandover(s: State, b: Byte)
    requires HandoverOk(s) && s.writer.Idle?
    ensures HandoverOk(Received(s, b))
  {
  }

  lemma RecordKeepsHandover(s: State)
    requires CellsOk(s) && HandoverOk(s) && !s.writer.Idle?
    ensures HandoverOk(Recorded(s))
  {
  }

  lemma SwapKeepsHandover(s: State)
    requires HandoverOk(s) && s.mapper.Away?
    ensures HandoverOk(Apply(s, Swap))
  {
  }

  lemma FramerKeepsHandover(s: State, e: Event)
    requires HandoverOk(s) && Enabled(s, e) && (e.FrameSteps? || e.FrameCount? || e.FrameLatest?)
    ensures HandoverOk(Apply(s, e))
  {
  }

  lemma StepKeepsHandover(s: State, e: Event)
    requires CellsOk(s) && HandoverOk(s) && Enabled(s, e)
    ensures HandoverOk(Apply(s, e))
  {
    match e
    case LoadSteps => LoadStepsKeepsHandover(s);
    case Swap => SwapKeepsHandover(s);
    case Receive(b) => ReceiveKeepsHandover(s, b);
    case Record => RecordKeepsHandover(s);
    case _ => FramerKeepsHandover(s, e);
  }

  /** The newest reported event is the largest number reported. */
  lemma {:induction false} NewestIsLargest(reports: seq<Report>)
    requires Ascending(reports)
    ensures forall k :: 0 <= k < |reports| ==> reports[k].transport.number <= NewestReported(reports)
  {
    if |reports| > 0 {
      NewestIsLargest(reports[..|reports| - 1]);
    }
  }

  lemma ReceiveKeepsLog(s: State, b: Byte)
    requires LogOk(s)
    ensures LogOk(Received(s, b))
  {
    TransportsAppend(s.bytes, b);
  }

  lemma StepKeepsSteps(s: State, e: Event)
    requires StepsOk(s) && LogOk(s) && Enabled(s, e)
    ensures StepsOk(Apply(s, e)) && LogOk(Apply(s, e))
  {
    if e.Receive? {
      ReceiveKeepsSteps(s, e.b);
      ReceiveKeepsLog(s, e.b);
    }
  }

  lemma StepKeepsInv(s: State, e: Event)
    requires Inv(s) && Enabled(s, e)
    ensures Inv(Apply(s, e))
  {
    StepKeepsSteps(s, e);
    StepsKeepReadings(s, e);
    if e.Receive? {
      ReceiveKeepsCells(s, e.b);
      ReceiveKeepsCounts(s, e.b);
    } else {
      OthersKeepCells(s, e);
      OthersKeepCounts(s, e);
    }
    StepKeepsHandover(s, e);
  }

  lemma {:induction false} RunKeepsInv(s: State, events: seq<Event>)
    requires Inv(s) && ValidRun(s, events)
    ensures Inv(Final(s, events))
    decreases |events|
  {
    if |events| > 0 {
      StepKeepsInv(s, events[0]);
      RunKeepsInv(Apply(s, events[0]), events[1..]);
    }
  }

  // ---------- Theorems over every interleaving ----------

  ghost predicate Reachable(s: State) {
    exists events :: ValidRun(INITIAL, events) && Final(INITIAL, events) == s
  }

  lemma ReachableKeepsInv(s: State)
    requires Reachable(s)
    ensures Inv(s)
  {
    var events :| ValidRun(INITIAL, events) && Final(INITIAL, events) == s;
    assert Inv(INITIAL);
    RunKeepsInv(INITIAL, events);
  }

  /** The mapper reports each transport event at most once and in the order received. */
  lemma EventsReportedOnceInOrder(s: State, j: nat, k: nat)
    requires Reachable(s) && j < k < |s.reports|
    requires s.reports[j].transport.number > 0 && s.reports[k].transport.number > 0
    ensures s.reports[j].transport.number < s.reports[k].transport.number <= |Transports(s.bytes)|
    ensures s.reports[k].transport.code == CodeOf(s.bytes[Transports(s.bytes)[s.reports[k].transport.number - 1]])
  {
    ReachableKeepsInv(s);
    ReportsAscend(s, j, k);
  }

  lemma ReportsAscend(s: State, j: nat, k: nat)
    requires CellsOk(s) && HandoverOk(s) && j < k < |s.reports|
    requires s.reports[j].transport.number > 0 && s.reports[k].transport.number > 0
    ensures s.reports[j].transport.number < s.reports[k].transport.number <= |s.log|
    ensures s.log[s.reports[k].transport.number - 1] < |s.bytes|
    ensures s.reports[k].transport.code == CodeOf(s.bytes[s.log[s.reports[k].transport.number - 1]])
  {
    assert ReportOk(s.reports[k], s);
  }

  /** The newest event is never lost: once recorded, it is pending or has been handed to the mapper. */
  lemma NewestEventIsNotLost(s: State)
    requires Reachable(s) && s.writer.Idle?
    ensures s.last.number == |Transports(s.bytes)| || (s.last == EMPTY && Newest(s) == |Transports(s.bytes)|)
  {
    ReachableKeepsInv(s);
  }

  /** A snapshot that says "start" counts its steps from that Start or a later one. */
  lemma StartSnapshotsCountFromStart(s: State, k: nat) returns (start: nat, at: nat)
    requires Reachable(s) && k < |s.reports| && s.reports[k].transport.code == Started
    ensures at == s.reports[k].at && start < at <= |s.bytes| && s.bytes[start] == START
    ensures 0 < s.reports[k].transport.number <= |Transports(s.bytes)|
    ensures start == Transports(s.bytes)[s.reports[k].transport.number - 1]
    ensures s.reports[k].steps == StepCount(s.bytes[start + 1..at])
  {
    ReachableKeepsInv(s);
    start, at := StartOf(s, k);
    StepsAfterStart(s.bytes, start, at);
  }

  lemma StartOf(s: State, k: nat) returns (start: nat, at: nat)
    requires CellsOk(s) && ReadingsOk(s) && k < |s.reports| && s.reports[k].transport.code == Started
    ensures 0 < s.reports[k].transport.number <= |s.log| && start == s.log[s.reports[k].transport.number - 1]
    ensures at == s.reports[k].at && start < at <= |s.bytes| && s.bytes[start] == START
    ensures s.reports[k].steps == StepCount(s.bytes[..at])
  {
    var r := s.reports[k];
    assert ReportOk(r, s) && ReadAt(r.steps, r.at, s.bytes);
    start, at := s.log[r.transport.number - 1], r.at;
  }

  lemma StepsAfterStart(bytes: seq<Byte>, start: nat, at: nat)
    requires start < at <= |bytes| && bytes[start] == START
    ensures StepCount(bytes[..at]) == StepCount(bytes[start + 1..at])
  {
    StartForgets(bytes[..start], bytes[start + 1..at]);
    assert bytes[..at] == bytes[..start] + [START] + bytes[start + 1..at];
  }

  /** A frame's latest code is that of an event at least as recent as those its count includes,
      and its steps are those of some earlier moment. */
  lemma FrameLatestCoversCount(s: State, k: nat)
    requires Reachable(s) && k < |s.frames|
    ensures var f := s.frames[k];
            && f.count == f.counted % WORD32 && f.counted <= f.latest.number <= |Transports(s.bytes)|
            && (f.latest.number > 0 ==> f.latest.code == CodeOf(s.bytes[Transports(s.bytes)[f.latest.number - 1]]))
            && f.at <= |s.bytes| && f.steps == StepCount(s.bytes[..f.at])
  {
    ReachableKeepsInv(s);
    assert CellOk(s.frames[k].latest, s) && ReadAt(s.frames[k].steps, s.frames[k].at, s.bytes);
  }

  lemma {:induction false} RunExtends(s: State, events: seq<Event>, e: Event)
    requires ValidRun(s, events) && Enabled(Final(s, events), e)
    ensures ValidRun(s, events + [e]) && Final(s, events + [e]) == Apply(Final(s, events), e)
    decreases |events|
  {
    if |events| == 0 {
      assert (events + [e])[1..] == [];
    } else {
      RunExtends(Apply(s, events[0]), events[1..], e);
      assert (events + [e])[1..] == events[1..] + [e];
    }
  }

  lemma StepFrom(s: State, e: Event) returns (t: State)
    requires Reachable(s) && Enabled(s, e)
    ensures t == Apply(s, e) && Reachable(t)
  {
    var events :| ValidRun(INITIAL, events) && Final(INITIAL, events) == s;
    RunExtends(INITIAL, events, e);
    t := Apply(s, e);
  }

  /** A frame reads its steps first, so they may predate the Start it reports: here it says
      "start" with the one step counted before that Start, where the Start's own count is zero. */
  lemma FrameStepsMayPredateStart() returns (s: State)
    ensures Reachable(s) && |s.frames| == 1
    ensures s.frames[0].latest == Cell(Started, 1) && s.frames[0].counted == 1 && s.frames[0].steps == 1
    ensures |s.log| == 1 && s.frames[0].at <= s.log[0]
  {
    s := INITIAL;
    assert ValidRun(INITIAL, []) && Final(INITIAL, []) == INITIAL;
    var n := 0;
    while n < 6
      invariant 0 <= n <= 6 && Reachable(s) && |s.bytes| == n && s.log == [] && s.frames == []
      invariant s.writer.Idle? && s.framer.Between?
      invariant if n < 6 then s.ticks == n && s.steps == 0 else s.steps == 1
    {
      s := StepFrom(s, Receive(TIMING_CLOCK));
      n := n + 1;
    }
    s := StepFrom(s, FrameSteps);
    s := StepFrom(s, Receive(START));
    s := StepFrom(s, Record);
    s := StepFrom(s, Record);
    s := StepFrom(s, Record);
    s := StepFrom(s, FrameCount);
    s := StepFrom(s, FrameLatest);
  }
}
