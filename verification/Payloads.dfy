/** The recycled payload buffers between the analyser and the mapper
    (src/managers/analyser.rs, src/managers/mapper.rs).

    Each side overwrites a buffer in place, swaps it with the one in its watch cell and
    gets the previous one back. The two threads interleave; a swap and a copy made under
    the cell's lock are one step each. `published` and `frames` record what was sent. */
module Payloads {
  import opened Analyser
  import V = Vocoder

  type Payload = seq<Level>

  /** What a display frame says about MIDI; `Off` when MIDI is disabled. */
  datatype Midi = Off | Snapshot(transport: nat, steps: nat)

  datatype Display = Display(channels: Payload, midi: Midi)

  /** The result of writing into a buffer of possibly wrong shape. */
  datatype Write = Done(buffer: Payload) | Panicked

  /** `analyse`: every channel's peak and bins are copied over whatever the buffer holds. */
  function Overwrite(buffer: Payload, analysis: Payload, ch: nat): Write
    decreases |analysis| - ch
  {
    if ch >= |analysis| then Done(buffer)
    else if ch >= |buffer| || |buffer[ch].bins| != |analysis[ch].bins| then Panicked
    else Overwrite(buffer[ch := Level(analysis[ch].peak, analysis[ch].bins)], analysis, ch + 1)
  }

  /** `channels.copy_from_slice`. */
  function CopyFrom(buffer: Payload, source: Payload): Write {
    if |buffer| == |source| then Done(source) else Panicked
  }

  /** Overwriting a buffer of the right shape succeeds and leaves nothing of its old contents. */
  lemma {:induction false} OverwriteForgets(buffer: Payload, analysis: Payload, ch: nat)
    requires |buffer| == |analysis| && ch <= |analysis|
    requires forall k :: 0 <= k < ch ==> buffer[k] == analysis[k]
    requires forall k :: 0 <= k < |buffer| ==> |buffer[k].bins| == |analysis[k].bins|
    ensures Overwrite(buffer, analysis, ch) == Done(analysis)
    decreases |analysis| - ch
  {
    if ch == |analysis| {
      assert buffer == analysis;
    } else {
      OverwriteForgets(buffer[ch := Level(analysis[ch].peak, analysis[ch].bins)], analysis, ch + 1);
    }
  }

  datatype Mapper = Waiting | Running(available: bool) | Gone

  /** One display frame as published: its channels and MIDI, and the raw version it was copied from. */
  datatype Frame = Frame(display: Display, version: nat)

  datatype State = State(local: Payload, cell: Payload, version: nat, published: seq<Payload>,
                         mapper: Mapper, seen: nat, writer: bool, display: Display, shown: Display, frames: seq<Frame>,
                         panicked: bool)

  function Zeroed(channels: nat): Payload {
    seq(channels, i => SILENCE)
  }

  /** `writer` says whether a frame writer also listens to the raw cell. */
  function Initial(channels: nat, writer: bool): State {
    var blank := Display(Zeroed(channels), Off);
    State(Zeroed(channels), Zeroed(channels), 0, [], Waiting, 0, writer, blank, blank, [], false)
  }

  datatype Event =
    | Analyse(analysis: Payload)   // the analyser finishes one chunk
    | Look                         // the mapper sees a changed raw cell
    | Tick(midi: Midi)             // the broadcast timer fires
    | Exit                         // the mapper ends and drops its receiver
    | WriterExit                   // the frame writer ends and drops its receiver

  predicate Enabled(channels: nat, s: State, e: Event) {
    && !s.panicked
    && match e
       case Analyse(analysis) => Shaped(analysis, channels)
       case Look => !s.mapper.Gone? && s.seen != s.version
       case Tick(midi) => s.mapper.Running?
       case Exit => !s.mapper.Gone?
       case WriterExit => s.writer
  }

  function Apply(s: State, e: Event): State {
    match e
    case Analyse(analysis) => Analysed(s, Overwrite(s.local, analysis, 0))
    case Look => s.(mapper := Looked(s.mapper, s.cell), seen := s.version)
    case Tick(midi) => if s.mapper == Running(true) then Ticked(s, midi) else s
    case Exit => s.(mapper := Gone)
    case WriterExit => s.(writer := false)
  }

  /** The first loop ends on a non-empty payload; the second only remembers whether it is one. */
  function Looked(mapper: Mapper, cell: Payload): Mapper {
    if mapper.Waiting? && |cell| == 0 then Waiting else Running(|cell| > 0)
  }

  /** A watch cell is closed once its last receiver is gone; no further value is sent. */
  predicate Closed(mapper: Mapper, writer: bool) {
    mapper.Gone? && !writer
  }

  function Analysed(s: State, write: Write): State {
    match write
    case Panicked => s.(panicked := true)
    case Done(buffer) =>
      if Closed(s.mapper, s.writer) then s.(local := buffer)
      else s.(local := s.cell, cell := buffer, version := s.version + 1, published := s.published + [buffer])
  }

  function Ticked(s: State, midi: Midi): State {
    match CopyFrom(s.display.channels, s.cell)
    case Panicked => s.(panicked := true)
    case Done(channels) =>
      var next := Display(channels, midi);
      s.(display := s.shown, shown := next, seen := s.version, frames := s.frames + [Frame(next, s.version)])
  }

  predicate ValidRun(channels: nat, s: State, events: seq<Event>)
    decreases |events|
  {
    |events| == 0 || (Enabled(channels, s, events[0]) && ValidRun(channels, Apply(s, events[0]), events[1..]))
  }

  function Final(channels: nat, s: State, events: seq<Event>): State
    requires ValidRun(channels, s, events)
    decreases |events|
  {
    if |events| == 0 then s else Final(channels, Apply(s, events[0]), events[1..])
  }

  /** Every buffer in circulation keeps its full shape. */
  predicate BuffersOk(channels: nat, s: State) {
    && !s.panicked
    && Shaped(s.local, channels) && Shaped(s.cell, channels)
    && |s.display.channels| == channels && |s.shown.channels| == channels
  }

  predicate CellOk(channels: nat, s: State) {
    && |s.published| == s.version
    && s.cell == (if s.version == 0 then Zeroed(channels) else s.published[s.version - 1])
    && s.seen <= s.version && (s.mapper.Running? ==> 0 < s.seen)
  }

  predicate FramesOk(s: State) {
    && FrameListOk(s.frames, s.published, s.seen)
    && (|s.frames| > 0 ==> s.shown == s.frames[|s.frames| - 1].display)
  }

  /** Each frame is one published payload the mapper has seen, and they come in order. */
  predicate FrameListOk(frames: seq<Frame>, published: seq<Payload>, seen: nat) {
    && (forall k :: 0 <= k < |frames| ==> FrameOk(frames[k], published) && frames[k].version <= seen)
    && forall j, k :: 0 <= j <= k < |frames| ==> frames[j].version <= frames[k].version
  }

  predicate FrameOk(f: Frame, published: seq<Payload>) {
    0 < f.version <= |published| && f.display.channels == published[f.version - 1]
  }

  lemma AppendFrame(frames: seq<Frame>, published: seq<Payload>, seen: nat, f: Frame)
    requires FrameListOk(frames, published, seen) && seen <= f.version && FrameOk(f, published)
    ensures FrameListOk(frames + [f], published, f.version)
  {
  }

  predicate Inv(channels: nat, s: State) {
    BuffersOk(channels, s) && CellOk(channels, s) && FramesOk(s)
  }

  lemma FramesStayOk(frames: seq<Frame>, published: seq<Payload>, seen: nat, next: Payload)
    requires FrameListOk(frames, published, seen)
    ensures FrameListOk(frames, published + [next], seen)
  {
  }

  lemma AnalyseKeepsInv(channels: nat, s: State, analysis: Payload)
    requires Inv(channels, s) && Shaped(analysis, channels)
    ensures Inv(channels, Analysed(s, Done(analysis)))
  {
    FramesStayOk(s.frames, s.published, s.seen, analysis);
  }

  lemma TickKeepsFrames(channels: nat, s: State, midi: Midi)
    requires Inv(channels, s) && s.mapper == Running(true)
    ensures Ticked(s, midi).frames == s.frames + [Frame(Display(s.cell, midi), s.version)]
    ensures FramesOk(Ticked(s, midi))
  {
    AppendFrame(s.frames, s.published, s.seen, Frame(Display(s.cell, midi), s.version));
  }

  lemma TickKeepsInv(channels: nat, s: State, midi: Midi)
    requires Inv(channels, s) && s.mapper == Running(true)
    ensures Inv(channels, Ticked(s, midi))
    ensures Ticked(s, midi).frames == s.frames + [Frame(Display(s.cell, midi), s.version)]
  {
    TickKeepsFrames(channels, s, midi);
  }

  lemma StepKeepsInv(channels: nat, s: State, e: Event)
    requires Inv(channels, s) && Enabled(channels, s, e)
    ensures Inv(channels, Apply(s, e))
    ensures e.Analyse? ==> Apply(s, e) == Analysed(s, Done(e.analysis))
  {
    match e
    case Analyse(analysis) =>
      OverwriteForgets(s.local, analysis, 0);
      AnalyseKeepsInv(channels, s, analysis);
    case Tick(midi) =>
      if s.mapper == Running(true) {
        TickKeepsInv(channels, s, midi);
      }
    case _ =>
  }

  lemma {:induction false} RunKeepsInv(channels: nat, s: State, events: seq<Event>)
    requires Inv(channels, s) && ValidRun(channels, s, events)
    ensures Inv(channels, Final(channels, s, events))
    decreases |events|
  {
    if |events| > 0 {
      StepKeepsInv(channels, s, events[0]);
      RunKeepsInv(channels, Apply(s, events[0]), events[1..]);
    }
  }

  /** What the run's analyses and ticks say, with no buffers at all: the analyses made while
      somebody listened, and for each display frame the latest of them and its own MIDI. */
  datatype Account = Account(published: seq<Payload>, frames: seq<Frame>, mapper: Mapper, seen: nat, writer: bool)

  function Told(a: Account, e: Event): Account {
    match e
    case Analyse(analysis) => if a.mapper.Gone? && !a.writer then a else a.(published := a.published + [analysis])
    case Look => a.(mapper := Running(true), seen := |a.published|)
    case Tick(midi) =>
      if a.mapper == Running(true) && |a.published| > 0 then
        a.(frames := a.frames + [Frame(Display(a.published[|a.published| - 1], midi), |a.published|)],
           seen := |a.published|)
      else a
    case Exit => a.(mapper := Gone)
    case WriterExit => a.(writer := false)
  }

  function ToldAll(a: Account, events: seq<Event>): Account
    decreases |events|
  {
    if |events| == 0 then a else ToldAll(Told(a, events[0]), events[1..])
  }

  function AccountOf(s: State): Account {
    Account(s.published, s.frames, s.mapper, s.seen, s.writer)
  }

  lemma TickFollowsAccount(channels: nat, s: State, midi: Midi)
    requires Inv(channels, s) && (s.mapper.Running? ==> s.mapper.available)
    requires Enabled(channels, s, Tick(midi))
    ensures AccountOf(Apply(s, Tick(midi))) == Told(AccountOf(s), Tick(midi))
  {
    TickKeepsInv(channels, s, midi);
  }

  lemma AnalyseFollowsAccount(channels: nat, s: State, analysis: Payload)
    requires Inv(channels, s) && Enabled(channels, s, Analyse(analysis))
    ensures AccountOf(Apply(s, Analyse(analysis))) == Told(AccountOf(s), Analyse(analysis))
  {
    OverwriteForgets(s.local, analysis, 0);
  }

  lemma LookFollowsAccount(channels: nat, s: State)
    requires channels > 0 && Inv(channels, s) && Enabled(channels, s, Look)
    ensures AccountOf(Apply(s, Look)) == Told(AccountOf(s), Look) && Apply(s, Look).mapper == Running(true)
  {
  }

  lemma StepFollowsAccount(channels: nat, s: State, e: Event)
    requires channels > 0 && Inv(channels, s) && Enabled(channels, s, e)
    requires s.mapper.Running? ==> s.mapper.available
    ensures AccountOf(Apply(s, e)) == Told(AccountOf(s), e)
    ensures Apply(s, e).mapper.Running? ==> Apply(s, e).mapper.available
  {
    match e
    case Analyse(analysis) =>
      AnalyseFollowsAccount(channels, s, analysis);
      OverwriteForgets(s.local, analysis, 0);
    case Look => LookFollowsAccount(channels, s);
    case Tick(midi) => TickFollowsAccount(channels, s, midi);
    case _ =>
  }

  lemma {:induction false} RunFollowsAccount(channels: nat, s: State, events: seq<Event>)
    requires channels > 0 && Inv(channels, s) && ValidRun(channels, s, events)
    requires s.mapper.Running? ==> s.mapper.available
    ensures AccountOf(Final(channels, s, events)) == ToldAll(AccountOf(s), events)
    decreases |events|
  {
    if |events| > 0 {
      StepKeepsInv(channels, s, events[0]);
      StepFollowsAccount(channels, s, events[0]);
      RunFollowsAccount(channels, Apply(s, events[0]), events[1..]);
    }
  }

  /** Recycling is unobservable: a run with recycled buffers publishes exactly what the account
      without buffers says, and no write ever meets a buffer of the wrong shape. */
  lemma RecyclingIsInvisible(channels: nat, writer: bool, events: seq<Event>)
    requires channels > 0 && ValidRun(channels, Initial(channels, writer), events)
    ensures var s := Final(channels, Initial(channels, writer), events);
            && BuffersOk(channels, s)
            && AccountOf(s) == ToldAll(Account([], [], Waiting, 0, writer), events)
  {
    RunKeepsInv(channels, Initial(channels, writer), events);
    RunFollowsAccount(channels, Initial(channels, writer), events);
  }

  /** Every display frame is one raw payload whole, none is from before the first analysis, and
      none is older than the frame before it. */
  lemma DisplayNeverGoesBack(channels: nat, writer: bool, events: seq<Event>, j: nat, k: nat)
    requires ValidRun(channels, Initial(channels, writer), events)
    requires j <= k < |Final(channels, Initial(channels, writer), events).frames|
    ensures var s := Final(channels, Initial(channels, writer), events);
            && 0 < s.frames[j].version <= s.frames[k].version <= |s.published|
            && s.frames[k].display.channels == s.published[s.frames[k].version - 1]
  {
    RunKeepsInv(channels, Initial(channels, writer), events);
    assert FrameOk(Final(channels, Initial(channels, writer), events).frames[k],
                   Final(channels, Initial(channels, writer), events).published);
  }
}
