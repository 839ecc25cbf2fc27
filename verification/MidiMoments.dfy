/** When the three MIDI fields of a frame belong together (src/managers/frame_writer.rs).

    The frame writer loads steps, count and latest code one after the other, so a frame
    need not describe any single moment of the listener. These lemmas say exactly when it
    does, for every interleaving. A moment is matched by identity: the same events counted
    and latest, and no store to the step counter in between. Equal values alone would not do;
    two Stops look alike. */
module MidiMoments {
  import opened Midi
  import opened Words
  import opened MidiSnapshots

  // ---------- Writes to the step counter ----------

  /** Receiving `b` after `bytes` stores to the step counter. */
  predicate WritesSteps(bytes: seq<Byte>, b: Byte) {
    b == START || (b == TIMING_CLOCK && TickRemainder(ClocksSinceStart(bytes)) + 1 >= CLOCK_TICKS_PER_STEP)
  }

  function StepWrites(bytes: seq<Byte>): nat {
    if |bytes| == 0 then 0
    else
      var before := bytes[..|bytes| - 1];
      StepWrites(before) + if WritesSteps(before, bytes[|bytes| - 1]) then 1 else 0
  }

  /** The listener stores to the step counter exactly when this count goes up: zero for a Start, the
      next value for a sixth clock. */
  lemma StepsChangeByWrites(s: State, b: Byte)
    requires StepsOk(s)
    ensures StepWrites(s.bytes + [b]) == StepWrites(s.bytes) + if WritesSteps(s.bytes, b) then 1 else 0
    ensures Received(s, b).steps ==
            if !WritesSteps(s.bytes, b) then s.steps else if b == START then 0 else Next(s.steps)
  {
    assert (s.bytes + [b])[..|s.bytes|] == s.bytes;
  }

  /** Between equal numbers of writes the step counter does not change. */
  lemma {:induction false} WritesOrderMoments(bytes: seq<Byte>, a: nat, b: nat)
    requires a <= b <= |bytes|
    ensures StepWrites(bytes[..a]) <= StepWrites(bytes[..b])
    ensures StepWrites(bytes[..a]) == StepWrites(bytes[..b]) ==> StepCount(bytes[..a]) == StepCount(bytes[..b])
    decreases b
  {
    if a < b {
      WritesOrderMoments(bytes, a, b - 1);
      OneByte(bytes[..b - 1], bytes[b - 1]);
      assert bytes[..b] == bytes[..b - 1] + [bytes[b - 1]];
    }
  }

  lemma OneByte(bytes: seq<Byte>, b: Byte)
    ensures StepWrites(bytes + [b]) == StepWrites(bytes) + if WritesSteps(bytes, b) then 1 else 0
    ensures !WritesSteps(bytes, b) ==> StepCount(bytes + [b]) == StepCount(bytes)
  {
    assert (bytes + [b])[..|bytes|] == bytes;
    ClocksAppend(bytes, b);
    NextTick(ClocksSinceStart(bytes));
  }

  // ---------- The moments of a frame's loads ----------

  /** How far the listener is: bytes begun, where their events are, how many of them were made the
      latest and how many were counted. */
  datatype Progress = Progress(length: nat, log: seq<nat>, latest: nat, counted: nat)

  function ProgressOf(s: State): Progress {
    Progress(|s.bytes|, s.log, s.latest.number, Completed(s))
  }

  /** The count and the latest event's number while `at` bytes had been recorded. */
  datatype Moment = Moment(at: nat, counted: nat, latest: nat)

  function Now(p: Progress): Moment {
    Moment(p.length, p.counted, p.latest)
  }

  /** From the load of the steps over the load of the count to the load of the code, with every
      moment in between. */
  datatype Span = Span(start: Progress, middle: Progress, end: Progress, moments: set<Moment>)

  /** The loads under way, and those of each finished frame. */
  datatype Tracker = Tracker(span: Span, spans: seq<Span>)

  function Opened(p: Progress): Span {
    Span(p, p, p, {Now(p)})
  }

  function Extended(x: Span, p: Progress): Span {
    x.(end := p, moments := x.moments + {Now(p)})
  }

  /** Event `e` led to a state with progress `p`. */
  function Track(k: Tracker, e: Event, p: Progress): Tracker {
    match e
    case FrameSteps => k.(span := Opened(p))
    case FrameCount => k.(span := Extended(k.span, p).(middle := p))
    case FrameLatest => Tracker(Extended(k.span, p), k.spans + [Extended(k.span, p)])
    case _ => k.(span := Extended(k.span, p))
  }

  function Follow(k: Tracker, s: State, events: seq<Event>): Tracker
    requires ValidRun(s, events)
    decreases |events|
  {
    if |events| == 0 then k
    else
      var t := Apply(s, events[0]);
      Follow(Track(k, events[0], ProgressOf(t)), t, events[1..])
  }

  /** The loads of every frame of a run. */
  function Spans(events: seq<Event>): seq<Span>
    requires ValidRun(INITIAL, events)
  {
    Follow(Tracker(Opened(ProgressOf(INITIAL)), []), INITIAL, events).spans
  }

  /** The frame holds what the three atomics held at that moment: the same count, the same event as
      latest, and the step count nobody had stored to in between. */
  predicate Describes(f: FrameMidi, m: Moment, bytes: seq<Byte>) {
    && m.counted == f.counted && m.latest == f.latest.number
    && m.at <= |bytes| && f.at <= |bytes| && StepWrites(bytes[..m.at]) == StepWrites(bytes[..f.at])
  }

  // ---------- The listener's progress ----------

  /** At most one event is being recorded, and it is the last byte. */
  predicate ProgressOk(p: Progress) {
    && p.counted <= p.latest <= |p.log| <= p.counted + 1
    && (|p.log| > p.counted ==> p.log[p.counted] + 1 == p.length)
    && forall k :: 0 <= k < |p.log| ==> p.log[k] < p.length
  }

  /** A byte arrives while nothing is being recorded. */
  function Arrived(p: Progress, transport: bool): Progress {
    p.(length := p.length + 1, log := p.log + if transport then [p.length] else [])
  }

  predicate Advances(p: Progress, q: Progress) {
    || q == p
    || (p.counted == |p.log| && (q == Arrived(p, true) || q == Arrived(p, false)))
    || (p.latest == p.counted < |p.log| && q == p.(latest := p.latest + 1))
    || (p.latest == p.counted + 1 && q == p.(counted := p.counted + 1))
  }

  /** While an event is being recorded it is the last byte. */
  predicate WriterTimely(s: State) {
    !s.writer.Idle? ==> |s.log| > 0 && s.log[|s.log| - 1] + 1 == |s.bytes|
  }

  lemma StepAdvances(s: State, e: Event)
    requires WriterTimely(s) && CountsOk(s) && Enabled(s, e)
    ensures WriterTimely(Apply(s, e)) && Advances(ProgressOf(s), ProgressOf(Apply(s, e)))
  {
  }

  lemma StateProgress(s: State)
    requires WriterTimely(s) && LogInside(s) && CountsOk(s)
    ensures ProgressOk(ProgressOf(s))
  {
  }

  /** `q` is the same or later: its new events came after `p`. */
  predicate Reached(p: Progress, q: Progress) {
    && p.length <= q.length && p.latest <= q.latest && p.counted <= q.counted
    && p.log <= q.log && forall i :: |p.log| <= i < |q.log| ==> p.length <= q.log[i]
  }

  lemma AdvanceReaches(p: Progress, q: Progress, r: Progress)
    requires Reached(p, q) && Advances(q, r)
    ensures Reached(p, r)
  {
  }

  // ---------- Invariant ----------

  /** What a moment can be. */
  predicate MomentOk(m: Moment, p: Progress) {
    && m.at <= p.length && m.counted <= m.latest <= m.counted + 1 && m.latest <= |p.log|
    && (m.latest > 0 ==> p.log[m.latest - 1] < m.at)
  }

  ghost predicate AllPossible(seen: set<Moment>, p: Progress) {
    forall m :: m in seen ==> MomentOk(m, p)
  }

  /** Every event made the latest, or counted, since `p` has left its moment. */
  predicate AllThere(seen: set<Moment>, p: Progress, q: Progress) {
    && Now(p) in seen
    && (forall i :: p.latest <= i < q.latest <= |q.log| ==> BecameLatest(seen, q.log, i))
    && (forall i :: p.counted <= i < q.counted <= |q.log| ==> WasCounted(seen, q.log, i))
  }

  /** The moment event `i + 1` became the latest, and the moment it was counted. */
  predicate BecameLatest(seen: set<Moment>, log: seq<nat>, i: nat)
    requires i < |log|
  {
    Moment(log[i] + 1, i, i + 1) in seen
  }

  predicate WasCounted(seen: set<Moment>, log: seq<nat>, i: nat)
    requires i < |log|
  {
    Moment(log[i] + 1, i + 1, i + 1) in seen
  }

  lemma AdvanceKeepsAllThere(seen: set<Moment>, p: Progress, q: Progress, r: Progress)
    requires AllThere(seen, p, q) && ProgressOk(q) && Advances(q, r)
    ensures AllThere(seen + {Now(r)}, p, r)
  {
    forall i | p.latest <= i < r.latest <= |r.log| ensures BecameLatest(seen + {Now(r)}, r.log, i) {
      assert i < q.latest ==> BecameLatest(seen, q.log, i);
    }
    forall i | p.counted <= i < r.counted <= |r.log| ensures WasCounted(seen + {Now(r)}, r.log, i) {
      assert i < q.counted ==> WasCounted(seen, q.log, i);
    }
  }

  lemma MomentStaysOk(m: Moment, p: Progress, q: Progress)
    requires MomentOk(m, p) && Advances(p, q)
    ensures MomentOk(m, q)
  {
  }

  lemma AdvanceKeepsAllPossible(seen: set<Moment>, p: Progress, q: Progress)
    requires ProgressOk(q) && Advances(p, q) && AllPossible(seen, p)
    ensures AllPossible(seen + {Now(q)}, q)
  {
    forall m | m in seen ensures MomentOk(m, q) {
      MomentStaysOk(m, p, q);
    }
  }

  ghost predicate SpanOk(x: Span) {
    && ProgressOk(x.start) && ProgressOk(x.middle) && ProgressOk(x.end)
    && Reached(x.start, x.middle) && Reached(x.middle, x.end)
    && AllThere(x.moments, x.start, x.end) && AllPossible(x.moments, x.end)
  }

  lemma OpenedIsOk(p: Progress)
    requires ProgressOk(p)
    ensures SpanOk(Opened(p))
  {
  }

  lemma ExtendedIsOk(x: Span, p: Progress)
    requires SpanOk(x) && ProgressOk(p) && Advances(x.end, p)
    ensures SpanOk(Extended(x, p))
  {
    AdvanceReaches(x.middle, x.end, p);
    AdvanceKeepsAllThere(x.moments, x.start, x.end, p);
    AdvanceKeepsAllPossible(x.moments, x.end, p);
  }

  lemma Through(p: Progress, q: Progress, r: Progress)
    requires Reached(p, q) && Reached(q, r)
    ensures Reached(p, r)
  {
  }

  lemma MiddleIsOk(x: Span)
    requires SpanOk(x)
    ensures SpanOk(x.(middle := x.end))
  {
    Through(x.start, x.middle, x.end);
  }

  /** These are the loads of that frame. */
  ghost predicate SpanOf(f: FrameMidi, x: Span, p: Progress) {
    && SpanOk(x) && Reached(x.end, p)
    && f.at == x.start.length && f.counted == x.middle.counted
    && f.latest.number == x.end.latest && f.done == x.end.length
  }

  ghost predicate SpansOk(frames: seq<FrameMidi>, spans: seq<Span>, p: Progress) {
    |spans| == |frames| && forall i :: 0 <= i < |frames| ==> SpanOf(frames[i], spans[i], p)
  }

  lemma SpansStayOk(frames: seq<FrameMidi>, spans: seq<Span>, p: Progress, q: Progress)
    requires SpansOk(frames, spans, p) && Advances(p, q)
    ensures SpansOk(frames, spans, q)
  {
    forall i | 0 <= i < |frames| ensures SpanOf(frames[i], spans[i], q) {
      AdvanceReaches(spans[i].end, p, q);
    }
  }

  /** The loads under way began and read what the frame writer remembers. */
  predicate Remembers(framer: Framer, x: Span) {
    && (!framer.Between? ==> framer.at == x.start.length)
    && (framer.HasCount? ==> framer.counted == x.middle.counted)
  }

  ghost predicate TrackOk(k: Tracker, s: State) {
    && WriterTimely(s) && SpanOk(k.span) && k.span.end == ProgressOf(s)
    && Remembers(s.framer, k.span) && SpansOk(s.frames, k.spans, ProgressOf(s))
  }

  // ---------- Preservation ----------

  lemma NewFrameHasSpan(k: Tracker, s: State)
    requires TrackOk(k, s) && SpanOk(Extended(k.span, ProgressOf(s))) && s.framer.HasCount?
    ensures SpanOf(Apply(s, FrameLatest).frames[|s.frames|], Extended(k.span, ProgressOf(s)), ProgressOf(s))
  {
  }

  lemma SpanFollows(k: Tracker, s: State, e: Event)
    requires SpanOk(k.span) && k.span.end == ProgressOf(s) && Enabled(s, e)
    requires ProgressOk(ProgressOf(Apply(s, e))) && Advances(ProgressOf(s), ProgressOf(Apply(s, e)))
    ensures var x := Track(k, e, ProgressOf(Apply(s, e))).span; SpanOk(x) && x.end == ProgressOf(Apply(s, e))
  {
    var p := ProgressOf(Apply(s, e));
    OpenedIsOk(p);
    ExtendedIsOk(k.span, p);
    MiddleIsOk(Extended(k.span, p));
  }

  lemma FramerRemembers(k: Tracker, s: State, e: Event)
    requires Remembers(s.framer, k.span) && Enabled(s, e)
    ensures Remembers(Apply(s, e).framer, Track(k, e, ProgressOf(Apply(s, e))).span)
  {
  }

  lemma NewSpanIsOk(k: Tracker, s: State)
    requires TrackOk(k, s) && s.framer.HasCount?
    ensures var t := Apply(s, FrameLatest);
            SpansOk(t.frames, k.spans + [Extended(k.span, ProgressOf(s))], ProgressOf(s))
  {
    ExtendedIsOk(k.span, ProgressOf(s));
    NewFrameHasSpan(k, s);
  }

  lemma SpansFollow(k: Tracker, s: State, e: Event)
    requires TrackOk(k, s) && Enabled(s, e) && Advances(ProgressOf(s), ProgressOf(Apply(s, e)))
    ensures SpansOk(Apply(s, e).frames, Track(k, e, ProgressOf(Apply(s, e))).spans, ProgressOf(Apply(s, e)))
  {
    if e.FrameLatest? {
      NewSpanIsOk(k, s);
    } else {
      SpansStayOk(s.frames, k.spans, ProgressOf(s), ProgressOf(Apply(s, e)));
    }
  }

  lemma StepKeepsTrack(k: Tracker, s: State, e: Event)
    requires Enabled(s, e) && TrackOk(k, s) && CountsOk(s) && LogInside(Apply(s, e)) && CountsOk(Apply(s, e))
    ensures TrackOk(Track(k, e, ProgressOf(Apply(s, e))), Apply(s, e))
  {
    StepAdvances(s, e);
    StateProgress(Apply(s, e));
    SpanFollows(k, s, e);
    FramerRemembers(k, s, e);
    SpansFollow(k, s, e);
  }

  lemma {:induction false} RunKeepsTrack(k: Tracker, s: State, events: seq<Event>)
    requires Inv(s) && ValidRun(s, events) && TrackOk(k, s)
    ensures Inv(Final(s, events)) && TrackOk(Follow(k, s, events), Final(s, events))
    decreases |events|
  {
    if |events| > 0 {
      var e := events[0];
      StepKeepsInv(s, e);
      StepKeepsTrack(k, s, e);
      RunKeepsTrack(Track(k, e, ProgressOf(Apply(s, e))), Apply(s, e), events[1..]);
    }
  }

  lemma SpansOfRun(events: seq<Event>)
    requires ValidRun(INITIAL, events)
    ensures var s := Final(INITIAL, events); Inv(s) && SpansOk(s.frames, Spans(events), ProgressOf(s))
  {
    OpenedIsOk(ProgressOf(INITIAL));
    RunKeepsTrack(Tracker(Opened(ProgressOf(INITIAL)), []), INITIAL, events);
  }

  // ---------- Theorems over every interleaving ----------

  /** A frame that says "start" counts its steps from that Start exactly when it read them after
      receiving it, that is, unless the Start arrived between the first and the last of the
      frame writer's loads; then its steps are those from before the Start. */
  lemma FrameCountsFromItsStart(events: seq<Event>, k: nat)
    requires ValidRun(INITIAL, events) && k < |Final(INITIAL, events).frames|
    requires Final(INITIAL, events).frames[k].latest.code == Started
    ensures var s := Final(INITIAL, events);
            var number := s.frames[k].latest.number;
            0 < number <= |Transports(s.bytes)| && CountsFromStart(s.frames[k], s.bytes, Transports(s.bytes)[number - 1])
  {
    SpansOfRun(events);
    StartOfFrame(Final(INITIAL, events), Spans(events)[k], k);
  }

  predicate CountsFromStart(f: FrameMidi, bytes: seq<Byte>, start: nat) {
    && start < f.done <= |bytes| && f.at <= |bytes| && bytes[start] == START
    && (start < f.at <==> !(f.at <= start < f.done))
    && (start < f.at ==> f.steps == StepCount(bytes[start + 1..f.at]))
    && (f.at <= start ==> f.steps == StepCount(bytes[..f.at]))
  }

  lemma StartOfFrame(s: State, x: Span, k: nat)
    requires CellsOk(s) && ReadingsOk(s) && k < |s.frames| && s.frames[k].latest.code == Started
    requires SpanOf(s.frames[k], x, ProgressOf(s))
    ensures var f := s.frames[k];
            0 < f.latest.number <= |s.log| && CountsFromStart(f, s.bytes, s.log[f.latest.number - 1])
  {
    var f := s.frames[k];
    assert CellOk(f.latest, s) && ReadAt(f.steps, f.at, s.bytes);
    var start := s.log[f.latest.number - 1];
    assert start == x.end.log[f.latest.number - 1];
    if start < f.at {
      StepsAfterStart(s.bytes, start, f.at);
    }
  }

  /** When frame `k` describes one moment between its own first and last load. */
  ghost predicate OneMoment(events: seq<Event>, k: nat)
    requires ValidRun(INITIAL, events) && k < |Spans(events)| && k < |Final(INITIAL, events).frames|
  {
    exists m :: m in Spans(events)[k].moments && Describes(Final(INITIAL, events).frames[k], m, Final(INITIAL, events).bytes)
  }

  /** At most one event lies between the count and the latest code, and the step count was not
      stored to after the frame read it, up to and including the arrival of the latest event. */
  predicate Together(f: FrameMidi, bytes: seq<Byte>, log: seq<nat>)
    requires forall i :: 0 <= i < |log| ==> log[i] < |bytes|
  {
    && f.at <= |bytes| && f.latest.number <= |log| && f.latest.number <= f.counted + 1
    && (f.latest.number > 0 ==>
          StepWrites(bytes[..log[f.latest.number - 1] + 1]) <= StepWrites(bytes[..f.at]))
  }

  /** A frame's steps, count and latest code are those of one moment during its own loads if and only
      if they belong together. */
  lemma FrameIsOneMomentExactly(events: seq<Event>, k: nat)
    requires ValidRun(INITIAL, events) && k < |Final(INITIAL, events).frames|
    ensures var s := Final(INITIAL, events);
            && |Spans(events)| == |s.frames|
            && (OneMoment(events, k) <==> Together(s.frames[k], s.bytes, Transports(s.bytes)))
  {
    SpansOfRun(events);
    var s := Final(INITIAL, events);
    var f, x := s.frames[k], Spans(events)[k];
    assert SpanOf(f, x, ProgressOf(s));
    if Together(f, s.bytes, s.log) {
      var m := MomentOf(s.bytes, s.log, f, x);
    }
    forall m | m in x.moments && Describes(f, m, s.bytes) ensures Together(f, s.bytes, s.log) {
      assert MomentOk(m, x.end);
      MomentTells(s.bytes, s.log, f, x.end, m);
    }
  }

  lemma MomentTells(bytes: seq<Byte>, log: seq<nat>, f: FrameMidi, end: Progress, m: Moment)
    requires (forall i :: 0 <= i < |log| ==> log[i] < |bytes|) && end.log <= log
    requires MomentOk(m, end) && Describes(f, m, bytes)
    ensures Together(f, bytes, log)
  {
    if m.latest > 0 {
      WritesOrderMoments(bytes, log[m.latest - 1] + 1, m.at);
    }
  }

  /** An event in the log of the end that had not been counted at the start arrived no earlier than
      the steps were read. */
  lemma LateEvent(p: Progress, q: Progress, i: nat)
    requires ProgressOk(p) && Reached(p, q) && p.counted <= i < |q.log|
    ensures p.length <= q.log[i] + 1
  {
    if i < |p.log| {
      assert q.log[i] == p.log[i];
    }
  }

  /** The count and the latest event changed between the loads in the way the frame shows. */
  predicate ChangedDuring(c: nat, n: nat, start: Progress) {
    (n == c + 1 && start.latest <= c) || (n == c && start.counted < c)
  }

  /** Otherwise they were already so when the steps were read. */
  lemma SettledAtStart(x: Span, c: nat, n: nat)
    requires ProgressOk(x.start) && ProgressOk(x.middle) && Reached(x.start, x.middle) && Reached(x.middle, x.end)
    requires c == x.middle.counted && n == x.end.latest && n <= c + 1 && !ChangedDuring(c, n, x.start)
    ensures x.start.counted == c && x.start.latest == n
  {
  }

  lemma MomentAtEvent(x: Span, c: nat, n: nat) returns (m: Moment)
    requires ProgressOk(x.start) && ProgressOk(x.end) && Reached(x.start, x.end) && AllThere(x.moments, x.start, x.end)
    requires n == x.end.latest && c <= x.end.counted && ChangedDuring(c, n, x.start)
    ensures 0 < n <= |x.end.log| && m == Moment(x.end.log[n - 1] + 1, c, n)
    ensures m in x.moments && x.start.length <= m.at
  {
    LateEvent(x.start, x.end, n - 1);
    assert if n == c then WasCounted(x.moments, x.end.log, n - 1) else BecameLatest(x.moments, x.end.log, n - 1);
    m := Moment(x.end.log[n - 1] + 1, c, n);
  }

  lemma MomentOf(bytes: seq<Byte>, log: seq<nat>, f: FrameMidi, x: Span) returns (m: Moment)
    requires (forall i :: 0 <= i < |log| ==> log[i] < |bytes|) && x.end.log <= log && Together(f, bytes, log)
    requires ProgressOk(x.start) && ProgressOk(x.middle) && ProgressOk(x.end)
    requires Reached(x.start, x.middle) && Reached(x.middle, x.end) && AllThere(x.moments, x.start, x.end)
    requires f.at == x.start.length && f.counted == x.middle.counted && f.latest.number == x.end.latest
    ensures m in x.moments && Describes(f, m, bytes)
  {
    var c, n := f.counted, f.latest.number;
    if ChangedDuring(c, n, x.start) {
      Through(x.start, x.middle, x.end);
      m := MomentAtEvent(x, c, n);
      SameMoment(bytes, f.at, m.at);
    } else {
      SettledAtStart(x, c, n);
      m := Now(x.start);
    }
  }

  lemma SameMoment(bytes: seq<Byte>, a: nat, b: nat)
    requires a <= b <= |bytes| && StepWrites(bytes[..b]) <= StepWrites(bytes[..a])
    ensures StepWrites(bytes[..b]) == StepWrites(bytes[..a])
  {
    WritesOrderMoments(bytes, a, b);
  }

  /** The step counter held the frame's own step count at that moment. */
  lemma DescribedStepsMatch(events: seq<Event>, k: nat, m: Moment)
    requires ValidRun(INITIAL, events) && k < |Final(INITIAL, events).frames|
    requires Describes(Final(INITIAL, events).frames[k], m, Final(INITIAL, events).bytes)
    ensures Final(INITIAL, events).frames[k].steps == StepCount(Final(INITIAL, events).bytes[..m.at])
  {
    SpansOfRun(events);
    var s := Final(INITIAL, events);
    var f := s.frames[k];
    assert ReadAt(f.steps, f.at, s.bytes);
    if m.at <= f.at {
      WritesOrderMoments(s.bytes, m.at, f.at);
    } else {
      WritesOrderMoments(s.bytes, f.at, m.at);
    }
  }

  /** For a frame that says "start" this is one comparison: the steps were read after the Start
      arrived, and no further event separates the code from the count. */
  lemma StartFrameIsOneMomentExactly(events: seq<Event>, k: nat)
    requires ValidRun(INITIAL, events) && k < |Final(INITIAL, events).frames|
    requires Final(INITIAL, events).frames[k].latest.code == Started
    ensures var s := Final(INITIAL, events);
            var f := s.frames[k];
            && |Spans(events)| == |s.frames| && 0 < f.latest.number <= |Transports(s.bytes)|
            && (OneMoment(events, k) <==>
                  f.latest.number <= f.counted + 1 && Transports(s.bytes)[f.latest.number - 1] < f.at)
  {
    FrameIsOneMomentExactly(events, k);
    FrameCountsFromItsStart(events, k);
    var s := Final(INITIAL, events);
    var f := s.frames[k];
    StartWrites(s.bytes, Transports(s.bytes)[f.latest.number - 1], f.at);
  }

  /** A Start stores to the step counter, so steps read later are at least as recent and steps read
      earlier are not. */
  lemma StartWrites(bytes: seq<Byte>, start: nat, at: nat)
    requires start < |bytes| && at <= |bytes| && bytes[start] == START
    ensures StepWrites(bytes[..start + 1]) <= StepWrites(bytes[..at]) <==> start < at
  {
    OneByte(bytes[..start], START);
    assert bytes[..start + 1] == bytes[..start] + [START];
    if start < at {
      WritesOrderMoments(bytes, start + 1, at);
    } else {
      WritesOrderMoments(bytes, at, start);
    }
  }
}
