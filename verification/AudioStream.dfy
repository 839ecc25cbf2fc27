/** From the capture callback through the ring to the analyser
    (src/managers/audio.rs, src/managers/generator.rs, src/managers/analyser.rs).

    The producer and the analyser thread run concurrently. The `All` path and the
    generator make a whole slice visible at once; the `Selected` path makes samples
    visible one by one, so the analyser can pop in the middle of a frame. Either side
    may see stale, conservative occupancy. `offered`, `kept` and `committed` record
    what happened; no step branches on them. */
module AudioStream {
  import opened Floats
  import opened Arithmetic

  type Frame = seq<Float>

  // ---------- Frames as samples ----------

  function Flatten(frames: seq<Frame>): seq<Float> {
    if |frames| == 0 then [] else Flatten(frames[..|frames| - 1]) + frames[|frames| - 1]
  }

  predicate ValidSelection(selection: seq<nat>, hw: nat) {
    |selection| > 0 && forall k :: 0 <= k < |selection| ==> selection[k] < hw
  }

  /** The selected hardware channels of one frame, in selection order. */
  function Select(frame: Frame, selection: seq<nat>): (out: Frame)
    requires ValidSelection(selection, |frame|)
    ensures |out| == |selection|
  {
    seq(|selection|, k requires 0 <= k < |selection| => frame[selection[k]])
  }

  function Identity(hw: nat): (selection: seq<nat>)
    ensures |selection| == hw
  {
    seq(hw, k => k)
  }

  lemma SelectIdentity(frame: Frame)
    requires |frame| > 0
    ensures ValidSelection(Identity(|frame|), |frame|) && Select(frame, Identity(|frame|)) == frame
  {
  }

  lemma FlattenOne(frames: seq<Frame>, last: Frame)
    ensures Flatten(frames + [last]) == Flatten(frames) + last
  {
    assert (frames + [last])[..|frames|] == frames;
  }

  lemma Associate(x: seq<Float>, y: seq<Float>, z: seq<Float>)
    ensures x + y + z == x + (y + z)
  {
  }

  lemma {:induction false} FlattenAppend(a: seq<Frame>, b: seq<Frame>)
    ensures Flatten(a + b) == Flatten(a) + Flatten(b)
    decreases |b|
  {
    if |b| == 0 {
      assert a + b == a;
    } else {
      var init, last := b[..|b| - 1], b[|b| - 1];
      FlattenAppend(a, init);
      assert a + b == (a + init) + [last] && b == init + [last];
      FlattenOne(a + init, last);
      FlattenOne(init, last);
      Associate(Flatten(a), Flatten(init), last);
    }
  }

  /** In a flattened stream of equally long frames, sample `q * c + r` is sample `r` of frame `q`. */
  lemma {:induction false} FlattenAt(frames: seq<Frame>, c: nat, q: nat, r: nat)
    requires forall k :: 0 <= k < |frames| ==> |frames[k]| == c
    requires q < |frames| && r < c
    ensures |Flatten(frames)| == |frames| * c
    ensures 0 <= q * c + r < |frames| * c && Flatten(frames)[q * c + r] == frames[q][r]
    decreases |frames|
  {
    var n := |frames| - 1;
    FlattenLength(frames[..n], c);
    assert (n + 1) * c == n * c + c;
    if q < n {
      FlattenAt(frames[..n], c, q, r);
    }
  }

  lemma {:induction false} FlattenLength(frames: seq<Frame>, c: nat)
    requires forall k :: 0 <= k < |frames| ==> |frames[k]| == c
    ensures |Flatten(frames)| == |frames| * c
    decreases |frames|
  {
    if |frames| > 0 {
      FlattenLength(frames[..|frames| - 1], c);
      assert |frames| * c == (|frames| - 1) * c + c;
    }
  }

  // ---------- The concurrent stream ----------

  /** The fixed facts of one stream. `selection` is the identity in the `All` path. */
  datatype Config = Config(hw: nat, selection: seq<nat>, whole: bool, capacity: nat, buffer: nat)

  predicate ValidConfig(g: Config) {
    && ValidSelection(g.selection, g.hw)
    && (g.whole ==> g.selection == Identity(g.hw))
    && |g.selection| <= g.buffer
  }

  datatype Producer =
    | Quiet
    | Admitted(frames: seq<Frame>, count: nat)
    | Framing(frames: seq<Frame>, next: nat)
    | Pushing(frames: seq<Frame>, next: nat, pushed: nat)

  datatype Consumer =
    | Carrying(pending: seq<Float>)
    | Filled(total: seq<Float>)

  datatype State = State(ring: seq<Float>, producer: Producer, consumer: Consumer,
                         analysed: seq<Float>, chunks: nat,
                         offered: seq<Frame>, kept: seq<nat>, committed: seq<Float>)

  const INITIAL := State([], Quiet, Carrying([]), [], 0, [], [], [])

  datatype Event =
    | OfferWhole(frames: seq<Frame>, seen: nat)   // vacancy is checked once, then one slice is pushed
    | CommitWhole
    | OfferSelected(frames: seq<Frame>)
    | CheckFrame(seen: nat)                       // per-frame vacancy check
    | PushSample
    | Pop(count: nat)
    | Process

  predicate FramesOf(frames: seq<Frame>, hw: nat) {
    forall k :: 0 <= k < |frames| ==> |frames[k]| == hw
  }

  predicate Enabled(g: Config, s: State, e: Event) {
    match e
    case OfferWhole(frames, seen) =>
      g.whole && s.producer.Quiet? && FramesOf(frames, g.hw) && |s.ring| + seen <= g.capacity
    case CommitWhole => s.producer.Admitted? && s.producer.count <= |s.producer.frames| <= |s.offered|
    case OfferSelected(frames) => !g.whole && s.producer.Quiet? && FramesOf(frames, g.hw)
    case CheckFrame(seen) => s.producer.Framing? && |s.ring| + seen <= g.capacity
    case PushSample =>
      && s.producer.Pushing? && s.producer.next < |s.producer.frames| <= |s.offered|
      && |s.producer.frames[s.producer.next]| == g.hw && s.producer.pushed < |g.selection|
    case Pop(count) => s.consumer.Carrying? && 0 < count <= |s.ring| && |s.consumer.pending| + count <= g.buffer
    case Process => s.consumer.Filled?
  }

  function Min(a: nat, b: nat): nat {
    if a < b then a else b
  }

  function Apply(g: Config, s: State, e: Event): State
    requires ValidConfig(g) && Enabled(g, s, e)
  {
    match e
    case OfferWhole(frames, seen) => Offered(s, frames, Admitted(frames, Min(|frames|, seen / g.hw)))
    case OfferSelected(frames) => Offered(s, frames, if |frames| == 0 then Quiet else Framing(frames, 0))
    case CommitWhole => Committed(s, s.producer.frames, s.producer.count)
    case CheckFrame(seen) => Checked(g, s, seen)
    case PushSample => Pushed(g, s)
    case Pop(count) => Popped(s, count)
    case Process => Processed(s, |s.consumer.total| - |s.consumer.total| % |g.selection|, |s.consumer.total| / |g.selection|)
  }

  function Offered(s: State, frames: seq<Frame>, next: Producer): State {
    s.(producer := next, offered := s.offered + frames)
  }

  function Committed(s: State, frames: seq<Frame>, count: nat): State
    requires count <= |frames| <= |s.offered|
  {
    var slice := Flatten(frames[..count]);
    var first := |s.offered| - |frames|;
    s.(ring := s.ring + slice, committed := s.committed + slice, producer := Quiet,
       kept := s.kept + Consecutive(first, count))
  }

  function Consecutive(first: nat, count: nat): (indices: seq<nat>)
    ensures |indices| == count && forall k :: 0 <= k < count ==> indices[k] == first + k
  {
    seq(count, k => first + k)
  }

  function Checked(g: Config, s: State, seen: nat): State
    requires s.producer.Framing?
  {
    var p := s.producer;
    if seen < |g.selection| then s.(producer := AfterFrame(p.frames, p.next))
    else s.(producer := Pushing(p.frames, p.next, 0))
  }

  function Pushed(g: Config, s: State): State
    requires ValidConfig(g) && Enabled(g, s, PushSample)
  {
    var p := s.producer;
    var sample := p.frames[p.next][g.selection[p.pushed]];
    var t := s.(ring := s.ring + [sample], committed := s.committed + [sample]);
    if p.pushed + 1 < |g.selection| then t.(producer := Pushing(p.frames, p.next, p.pushed + 1))
    else t.(producer := AfterFrame(p.frames, p.next), kept := s.kept + [|s.offered| - |p.frames| + p.next])
  }

  function Popped(s: State, count: nat): State
    requires s.consumer.Carrying? && count <= |s.ring|
  {
    s.(ring := s.ring[count..], consumer := Filled(s.consumer.pending + s.ring[..count]))
  }

  /** `State::process`: analyse the whole-frame prefix and carry the rest. */
  function Processed(s: State, aligned: nat, frames: nat): State
    requires s.consumer.Filled? && aligned <= |s.consumer.total|
  {
    s.(analysed := s.analysed + s.consumer.total[..aligned], chunks := s.chunks + frames,
       consumer := Carrying(s.consumer.total[aligned..]))
  }

  function AfterFrame(frames: seq<Frame>, next: nat): Producer {
    if next + 1 < |frames| then Framing(frames, next + 1) else Quiet
  }

  predicate ValidRun(g: Config, s: State, events: seq<Event>)
    requires ValidConfig(g)
    decreases |events|
  {
    |events| == 0 || (Enabled(g, s, events[0]) && ValidRun(g, Apply(g, s, events[0]), events[1..]))
  }

  function Final(g: Config, s: State, events: seq<Event>): State
    requires ValidConfig(g) && ValidRun(g, s, events)
    decreases |events|
  {
    if |events| == 0 then s else Final(g, Apply(g, s, events[0]), events[1..])
  }

  // ---------- Invariant ----------

  function Held(c: Consumer): seq<Float> {
    match c
    case Carrying(pending) => pending
    case Filled(total) => total
  }

  ghost predicate KeptOk(g: Config, offered: seq<Frame>, kept: seq<nat>) {
    && FramesOf(offered, g.hw)
    && (forall q :: 0 <= q < |kept| ==> kept[q] < |offered|)
    && forall p, q :: 0 <= p < q < |kept| ==> kept[p] < kept[q]
  }

  /** The selected samples of the kept frames, frame by frame. */
  function Picked(g: Config, offered: seq<Frame>, kept: seq<nat>): (frames: seq<Frame>)
    requires ValidConfig(g) && FramesOf(offered, g.hw)
    requires forall q :: 0 <= q < |kept| ==> kept[q] < |offered|
    ensures |frames| == |kept| && FramesOf(frames, |g.selection|)
  {
    seq(|kept|, q requires 0 <= q < |kept| => Select(offered[kept[q]], g.selection))
  }

  /** What an unfinished `Selected` frame has already made visible. */
  function Partial(g: Config, p: Producer): seq<Float>
    requires ValidConfig(g)
    requires p.Pushing? ==>
               p.next < |p.frames| && |p.frames[p.next]| == g.hw && p.pushed <= |g.selection|
  {
    if p.Pushing? then Select(p.frames[p.next], g.selection)[..p.pushed] else []
  }

  /** The current offer is the tail of everything offered, and its frames from the next one on
      are still undecided. */
  ghost predicate ProducerOk(g: Config, s: State) {
    match s.producer
    case Quiet => true
    case Admitted(frames, count) =>
      TailOf(frames, s.offered) && count <= |frames| && KeptBelow(s.kept, |s.offered| - |frames|) && g.whole
    case Framing(frames, next) =>
      TailOf(frames, s.offered) && next < |frames| && KeptBelow(s.kept, |s.offered| - |frames| + next)
    case Pushing(frames, next, pushed) =>
      && TailOf(frames, s.offered) && next < |frames| && KeptBelow(s.kept, |s.offered| - |frames| + next)
      && pushed < |g.selection|
  }

  ghost predicate TailOf(frames: seq<Frame>, offered: seq<Frame>) {
    |frames| <= |offered| && offered[|offered| - |frames|..] == frames
  }

  ghost predicate KeptBelow(kept: seq<nat>, bound: int) {
    forall q :: 0 <= q < |kept| ==> kept[q] < bound
  }

  /** Room for everything admitted is still there. */
  predicate RoomOk(g: Config, s: State) {
    && |s.ring| <= g.capacity
    && (s.producer.Admitted? ==> |s.ring| + s.producer.count * g.hw <= g.capacity)
    && (s.producer.Pushing? ==> |s.ring| + |g.selection| <= g.capacity + s.producer.pushed)
  }

  predicate ChunksOk(g: Config, s: State) {
    && (s.consumer.Carrying? ==> |s.consumer.pending| < |g.selection|)
    && |s.analysed| == s.chunks * |g.selection|
  }

  ghost predicate PickedOk(g: Config, s: State)
    requires ValidConfig(g)
  {
    && KeptOk(g, s.offered, s.kept) && ProducerOk(g, s)
    && s.committed == Flatten(Picked(g, s.offered, s.kept)) + Partial(g, s.producer)
  }

  ghost predicate Conserved(s: State) {
    s.committed == s.analysed + Held(s.consumer) + s.ring
  }

  ghost predicate Inv(g: Config, s: State)
    requires ValidConfig(g)
  {
    RoomOk(g, s) && ChunksOk(g, s) && PickedOk(g, s) && Conserved(s)
  }

  // ---------- Preservation ----------

  lemma OfferKeepsPicked(g: Config, s: State, frames: seq<Frame>, next: Producer)
    requires ValidConfig(g) && PickedOk(g, s) && s.producer.Quiet? && FramesOf(frames, g.hw)
    requires ProducerOk(g, Offered(s, frames, next)) && !next.Pushing?
    ensures PickedOk(g, Offered(s, frames, next))
  {
    assert Picked(g, s.offered + frames, s.kept) == Picked(g, s.offered, s.kept);
  }

  lemma OfferKeepsInv(g: Config, s: State, frames: seq<Frame>, next: Producer)
    requires ValidConfig(g) && Inv(g, s) && s.producer.Quiet? && FramesOf(frames, g.hw)
    requires next == Quiet || (next == Framing(frames, 0) && |frames| > 0) ||
             (next.Admitted? && next.frames == frames && next.count <= |frames| && g.whole &&
              |s.ring| + next.count * g.hw <= g.capacity)
    ensures Inv(g, Offered(s, frames, next))
  {
    assert (s.offered + frames)[|s.offered|..] == frames;
    OfferKeepsPicked(g, s, frames, next);
  }

  /** Rounding the seen vacancy down to whole frames leaves it within the vacancy. */
  lemma AdmittedFits(frames: nat, seen: nat, hw: nat)
    requires hw > 0
    ensures Min(frames, seen / hw) * hw <= seen
  {
    Euclid(seen, hw);
    MulMono(Min(frames, seen / hw), seen / hw, hw);
  }

  /** In the `All` path selecting keeps every frame as it is. */
  lemma PickedWhole(g: Config, offered: seq<Frame>, at: seq<nat>, slice: seq<Frame>)
    requires ValidConfig(g) && g.whole && FramesOf(offered, g.hw) && |at| == |slice|
    requires forall k :: 0 <= k < |at| ==> at[k] < |offered| && offered[at[k]] == slice[k]
    ensures Picked(g, offered, at) == slice
  {
    forall k | 0 <= k < |at|
      ensures Select(offered[at[k]], g.selection) == slice[k]
    {
      SelectIdentity(offered[at[k]]);
    }
  }

  lemma PickedConcat(g: Config, offered: seq<Frame>, a: seq<nat>, b: seq<nat>)
    requires ValidConfig(g) && FramesOf(offered, g.hw)
    requires (forall q :: 0 <= q < |a| ==> a[q] < |offered|) && forall q :: 0 <= q < |b| ==> b[q] < |offered|
    ensures Flatten(Picked(g, offered, a + b)) == Flatten(Picked(g, offered, a)) + Flatten(Picked(g, offered, b))
  {
    assert Picked(g, offered, a + b) == Picked(g, offered, a) + Picked(g, offered, b);
    FlattenAppend(Picked(g, offered, a), Picked(g, offered, b));
  }

  /** The committed frames are the next ones of the current offer, after all kept before. */
  lemma CommitKeepsOrder(g: Config, offered: seq<Frame>, kept: seq<nat>, frames: seq<Frame>, count: nat)
    requires KeptOk(g, offered, kept) && TailOf(frames, offered) && count <= |frames|
    requires KeptBelow(kept, |offered| - |frames|)
    ensures var added := Consecutive(|offered| - |frames|, count);
            && KeptOk(g, offered, kept + added) && FramesOf(frames[..count], g.hw)
            && forall k :: 0 <= k < count ==> added[k] < |offered| && offered[added[k]] == frames[..count][k]
  {
    var first := |offered| - |frames|;
    assert forall k :: 0 <= k < count ==> offered[first..][k] == frames[k];
  }

  lemma CommitFlattens(g: Config, offered: seq<Frame>, kept: seq<nat>, frames: seq<Frame>, count: nat)
    requires ValidConfig(g) && g.whole && KeptOk(g, offered, kept) && TailOf(frames, offered) && count <= |frames|
    requires KeptBelow(kept, |offered| - |frames|)
    ensures var all := kept + Consecutive(|offered| - |frames|, count);
            && KeptOk(g, offered, all) && FramesOf(frames[..count], g.hw)
            && Flatten(Picked(g, offered, all)) == Flatten(Picked(g, offered, kept)) + Flatten(frames[..count])
  {
    var added := Consecutive(|offered| - |frames|, count);
    CommitKeepsOrder(g, offered, kept, frames, count);
    PickedWhole(g, offered, added, frames[..count]);
    PickedConcat(g, offered, kept, added);
  }

  lemma CommitKeepsPicked(g: Config, s: State, frames: seq<Frame>, count: nat)
    requires ValidConfig(g) && PickedOk(g, s) && s.producer == Admitted(frames, count)
    ensures |frames| <= |s.offered| && count <= |frames| && PickedOk(g, Committed(s, frames, count))
    ensures FramesOf(frames[..count], g.hw)
  {
    CommitFlattens(g, s.offered, s.kept, frames, count);
  }

  lemma CommitKeepsInv(g: Config, s: State, frames: seq<Frame>, count: nat)
    requires ValidConfig(g) && Inv(g, s) && s.producer == Admitted(frames, count)
    ensures |frames| <= |s.offered| && Inv(g, Committed(s, frames, count))
  {
    CommitKeepsPicked(g, s, frames, count);
    FlattenLength(frames[..count], g.hw);
  }

  lemma CheckKeepsInv(g: Config, s: State, seen: nat)
    requires ValidConfig(g) && Inv(g, s) && s.producer.Framing? && |s.ring| + seen <= g.capacity
    ensures Inv(g, Checked(g, s, seen))
  {
    assert s.offered[|s.offered| - |s.producer.frames|..][s.producer.next] == s.producer.frames[s.producer.next];
  }

  lemma PushInFrameKeepsPicked(g: Config, s: State)
    requires ValidConfig(g) && PickedOk(g, s) && Enabled(g, s, PushSample)
    requires s.producer.pushed + 1 < |g.selection|
    ensures PickedOk(g, Pushed(g, s))
  {
    var p := s.producer;
    var whole := Select(p.frames[p.next], g.selection);
    assert whole[..p.pushed] + [whole[p.pushed]] == whole[..p.pushed + 1];
  }

  lemma PickedAppend(g: Config, offered: seq<Frame>, kept: seq<nat>, at: nat)
    requires ValidConfig(g) && KeptOk(g, offered, kept) && at < |offered|
    ensures KeptOk(g, offered, kept) && FramesOf(offered, g.hw)
    ensures Flatten(Picked(g, offered, kept + [at])) ==
            Flatten(Picked(g, offered, kept)) + Select(offered[at], g.selection)
  {
    assert Picked(g, offered, kept + [at]) == Picked(g, offered, kept) + [Select(offered[at], g.selection)];
    FlattenOne(Picked(g, offered, kept), Select(offered[at], g.selection));
  }

  lemma LastPushKeepsOrder(g: Config, s: State)
    requires ValidConfig(g) && KeptOk(g, s.offered, s.kept) && ProducerOk(g, s) && Enabled(g, s, PushSample)
    requires s.producer.pushed + 1 == |g.selection|
    ensures KeptOk(g, s.offered, Pushed(g, s).kept) && ProducerOk(g, Pushed(g, s))
  {
  }

  /** The frame being pushed is one of those offered. */
  lemma PushedFrame(s: State)
    requires (s.producer.Framing? || s.producer.Pushing?)
    requires TailOf(s.producer.frames, s.offered) && s.producer.next < |s.producer.frames|
    ensures s.offered[|s.offered| - |s.producer.frames| + s.producer.next] == s.producer.frames[s.producer.next]
  {
    var p := s.producer;
    assert s.offered[|s.offered| - |p.frames|..][p.next] == p.frames[p.next];
  }

  lemma LastPushFlattens(g: Config, offered: seq<Frame>, kept: seq<nat>, at: nat)
    requires ValidConfig(g) && KeptOk(g, offered, kept) && at < |offered|
    ensures KeptOk(g, offered, kept) && |offered[at]| == g.hw
    ensures var whole := Select(offered[at], g.selection);
            Flatten(Picked(g, offered, kept)) + whole[..|whole| - 1] + [whole[|whole| - 1]] ==
            Flatten(Picked(g, offered, kept + [at]))
  {
    PickedAppend(g, offered, kept, at);
    LastSample(Flatten(Picked(g, offered, kept)), Select(offered[at], g.selection));
  }

  lemma LastPushKeepsPicked(g: Config, s: State)
    requires ValidConfig(g) && PickedOk(g, s) && Enabled(g, s, PushSample)
    requires s.producer.pushed + 1 == |g.selection|
    ensures PickedOk(g, Pushed(g, s))
  {
    LastPushKeepsOrder(g, s);
    PushedFrame(s);
    LastPushFlattens(g, s.offered, s.kept, |s.offered| - |s.producer.frames| + s.producer.next);
  }

  lemma LastSample(before: seq<Float>, whole: Frame)
    requires |whole| > 0
    ensures before + whole[..|whole| - 1] + [whole[|whole| - 1]] == before + whole
  {
  }

  lemma PopKeepsInv(g: Config, s: State, count: nat)
    requires ValidConfig(g) && Inv(g, s) && Enabled(g, s, Pop(count))
    ensures Inv(g, Popped(s, count))
  {
    assert s.ring == s.ring[..count] + s.ring[count..];
  }

  lemma ProcessKeepsChunks(g: Config, s: State, aligned: nat, frames: nat)
    requires ChunksOk(g, s) && s.consumer.Filled?
    requires aligned == frames * |g.selection| && aligned <= |s.consumer.total| < aligned + |g.selection|
    ensures ChunksOk(g, Processed(s, aligned, frames))
  {
    Distribute(s.chunks, frames, |g.selection|);
  }

  lemma ProcessConserves(s: State, aligned: nat, frames: nat)
    requires Conserved(s) && s.consumer.Filled? && aligned <= |s.consumer.total|
    ensures Conserved(Processed(s, aligned, frames))
  {
    assert s.consumer.total == s.consumer.total[..aligned] + s.consumer.total[aligned..];
  }

  lemma ProcessKeepsPicked(g: Config, s: State, aligned: nat, frames: nat)
    requires ValidConfig(g) && PickedOk(g, s) && RoomOk(g, s) && s.consumer.Filled? && aligned <= |s.consumer.total|
    ensures PickedOk(g, Processed(s, aligned, frames)) && RoomOk(g, Processed(s, aligned, frames))
  {
  }

  lemma ProcessKeepsInv(g: Config, s: State, aligned: nat, frames: nat)
    requires ValidConfig(g) && Inv(g, s) && s.consumer.Filled?
    requires aligned == frames * |g.selection| && aligned <= |s.consumer.total| < aligned + |g.selection|
    ensures Inv(g, Processed(s, aligned, frames))
  {
    ProcessKeepsChunks(g, s, aligned, frames);
    ProcessConserves(s, aligned, frames);
    ProcessKeepsPicked(g, s, aligned, frames);
  }

  lemma PushKeepsRest(g: Config, s: State)
    requires ValidConfig(g) && Inv(g, s) && Enabled(g, s, PushSample)
    ensures RoomOk(g, Pushed(g, s)) && ChunksOk(g, Pushed(g, s)) && Conserved(Pushed(g, s))
  {
  }

  lemma StepKeepsInv(g: Config, s: State, e: Event)
    requires ValidConfig(g) && Inv(g, s) && Enabled(g, s, e)
    ensures Inv(g, Apply(g, s, e))
  {
    match e
    case OfferWhole(frames, seen) =>
      AdmittedFits(|frames|, seen, g.hw);
      OfferKeepsInv(g, s, frames, Admitted(frames, Min(|frames|, seen / g.hw)));
    case OfferSelected(frames) => OfferKeepsInv(g, s, frames, if |frames| == 0 then Quiet else Framing(frames, 0));
    case CommitWhole => CommitKeepsInv(g, s, s.producer.frames, s.producer.count);
    case CheckFrame(seen) => CheckKeepsInv(g, s, seen);
    case PushSample =>
      if s.producer.pushed + 1 < |g.selection| {
        PushInFrameKeepsPicked(g, s);
      } else {
        LastPushKeepsPicked(g, s);
      }
      PushKeepsRest(g, s);
    case Pop(count) => PopKeepsInv(g, s, count);
    case Process =>
      Euclid(|s.consumer.total|, |g.selection|);
      ProcessKeepsInv(g, s, |s.consumer.total| - |s.consumer.total| % |g.selection|, |s.consumer.total| / |g.selection|);
  }

  lemma {:induction false} RunKeepsInv(g: Config, s: State, events: seq<Event>)
    requires ValidConfig(g) && Inv(g, s) && ValidRun(g, s, events)
    ensures Inv(g, Final(g, s, events))
    decreases |events|
  {
    if |events| > 0 {
      var e := events[0];
      StepKeepsInv(g, s, e);
      RunKeepsInv(g, Apply(g, s, e), events[1..]);
    }
  }

  // ---------- Theorems over every interleaving ----------

  ghost predicate Reachable(g: Config, s: State)
    requires ValidConfig(g)
  {
    exists events :: ValidRun(g, INITIAL, events) && Final(g, INITIAL, events) == s
  }

  lemma {:induction false} RunExtends(g: Config, s: State, events: seq<Event>, e: Event)
    requires ValidConfig(g) && ValidRun(g, s, events) && Enabled(g, Final(g, s, events), e)
    ensures ValidRun(g, s, events + [e]) && Final(g, s, events + [e]) == Apply(g, Final(g, s, events), e)
    decreases |events|
  {
    if |events| == 0 {
      assert (events + [e])[1..] == [];
    } else {
      RunExtends(g, Apply(g, s, events[0]), events[1..], e);
      assert (events + [e])[1..] == events[1..] + [e];
    }
  }

  lemma StepStaysReachable(g: Config, s: State, e: Event)
    requires ValidConfig(g) && Reachable(g, s) && Enabled(g, s, e)
    ensures Reachable(g, Apply(g, s, e))
  {
    var events :| ValidRun(g, INITIAL, events) && Final(g, INITIAL, events) == s;
    RunExtends(g, INITIAL, events, e);
  }

  lemma ReachableKeepsInv(g: Config, s: State)
    requires ValidConfig(g) && Reachable(g, s)
    ensures Inv(g, s)
  {
    var events :| ValidRun(g, INITIAL, events) && Final(g, INITIAL, events) == s;
    assert Picked(g, [], []) == [];
    RunKeepsInv(g, INITIAL, events);
  }

  /** No sample is lost, repeated or reordered between the ring and the analyser, the ring never
      overflows, a frame once admitted always finds room for its next sample, and what is carried
      between chunks is less than a frame. */
  lemma StreamIsConserved(g: Config, s: State)
    requires ValidConfig(g) && Reachable(g, s)
    ensures s.committed == s.analysed + Held(s.consumer) + s.ring
    ensures |s.ring| <= g.capacity && (s.producer.Pushing? ==> |s.ring| < g.capacity)
    ensures s.consumer.Carrying? ==> |s.consumer.pending| < |g.selection|
  {
    ReachableKeepsInv(g, s);
  }

  /** The analysed stream is whole frames: sample `q * c + r` is output channel `r` of the `q`-th
      kept hardware frame, and frames are kept in the order they were offered. */
  lemma StreamIsAligned(g: Config, s: State, q: nat, r: nat)
    requires ValidConfig(g) && Reachable(g, s)
    requires q < s.chunks && r < |g.selection|
    ensures |s.analysed| == s.chunks * |g.selection|
    ensures q * |g.selection| + r < |s.analysed| && q < |s.kept| && s.kept[q] < |s.offered|
    ensures |s.offered[s.kept[q]]| == g.hw && g.selection[r] < g.hw
    ensures s.analysed[q * |g.selection| + r] == s.offered[s.kept[q]][g.selection[r]]
    ensures q + 1 < |s.kept| ==> s.kept[q] < s.kept[q + 1]
  {
    ReachableKeepsInv(g, s);
    var c := |g.selection|;
    var picked := Picked(g, s.offered, s.kept);
    RowIndex(s.chunks, c, q, r);
    FlattenLength(picked, c);
    WholeMultiples(|picked|, s.chunks, |Partial(g, s.producer)|, c);
    FlattenAt(picked, c, q, r);
    assert s.committed[q * c + r] == s.analysed[q * c + r];
  }

  // ---------- Nothing is dropped while there is room ----------

  /** Every vacancy check saw room for what was offered. */
  predicate RoomSeen(g: Config, events: seq<Event>) {
    forall k :: 0 <= k < |events| ==>
      && (events[k].OfferWhole? ==> |events[k].frames| * g.hw <= events[k].seen)
      && (events[k].CheckFrame? ==> |g.selection| <= events[k].seen)
  }

  /** How many offered frames have been decided about. */
  function Decided(s: State): int {
    match s.producer
    case Quiet => |s.offered|
    case Admitted(frames, _) => |s.offered| - |frames|
    case Framing(frames, next) => |s.offered| - |frames| + next
    case Pushing(frames, next, _) => |s.offered| - |frames| + next
  }

  predicate AllKept(s: State) {
    && Decided(s) >= 0 && s.kept == Consecutive(0, Decided(s))
    && (s.producer.Admitted? ==> s.producer.count == |s.producer.frames|)
  }

  lemma StepKeepsAll(g: Config, s: State, e: Event)
    requires ValidConfig(g) && Inv(g, s) && AllKept(s) && Enabled(g, s, e) && RoomSeen(g, [e])
    ensures AllKept(Apply(g, s, e))
  {
    assert [e][0] == e;
    match e
    case OfferWhole(frames, seen) => QuotientAtLeast(seen, g.hw, |frames|);
    case CommitWhole => CommitKeepsAll(s);
    case PushSample => PushKeepsAll(g, s);
    case _ =>
  }

  lemma CommitKeepsAll(s: State)
    requires AllKept(s) && s.producer.Admitted? && |s.producer.frames| <= |s.offered|
    ensures AllKept(Committed(s, s.producer.frames, s.producer.count))
  {
    var n := |s.producer.frames|;
    assert Consecutive(0, |s.offered| - n) + Consecutive(|s.offered| - n, n) == Consecutive(0, |s.offered|);
  }

  lemma PushKeepsAll(g: Config, s: State)
    requires ValidConfig(g) && AllKept(s) && ProducerOk(g, s) && Enabled(g, s, PushSample)
    ensures AllKept(Pushed(g, s))
  {
    assert Consecutive(0, Decided(s)) + [Decided(s)] == Consecutive(0, Decided(s) + 1);
  }

  lemma {:induction false} RunKeepsAll(g: Config, s: State, events: seq<Event>)
    requires ValidConfig(g) && Inv(g, s) && AllKept(s) && ValidRun(g, s, events) && RoomSeen(g, events)
    ensures AllKept(Final(g, s, events))
    decreases |events|
  {
    if |events| > 0 {
      StepKeepsInv(g, s, events[0]);
      StepKeepsAll(g, s, events[0]);
      RunKeepsAll(g, Apply(g, s, events[0]), events[1..]);
    }
  }

  /** Frames are dropped for want of room and for nothing else: in a run whose every vacancy check saw
      enough, each offered frame is kept, in both paths and however the analyser interleaves. */
  lemma NothingIsDroppedWithRoom(g: Config, events: seq<Event>)
    requires ValidConfig(g) && ValidRun(g, INITIAL, events) && RoomSeen(g, events)
    ensures var s := Final(g, INITIAL, events);
            && s.producer.Quiet? ==> |s.kept| == |s.offered| && forall k :: 0 <= k < |s.kept| ==> s.kept[k] == k
  {
    assert Picked(g, [], []) == [];
    assert AllKept(INITIAL);
    RunKeepsAll(g, INITIAL, events);
  }

  /** A frame whose check saw too little room is passed over, and nothing of it is committed. */
  lemma ShortFramesArePassedOver(g: Config, s: State, seen: nat)
    requires ValidConfig(g) && Enabled(g, s, CheckFrame(seen)) && s.producer.next < |s.producer.frames|
    ensures var t, p := Apply(g, s, CheckFrame(seen)), s.producer;
            && t.ring == s.ring && t.committed == s.committed && t.kept == s.kept && t.offered == s.offered
            && (seen < |g.selection| ==>
                  t.producer == if p.next + 1 < |p.frames| then Framing(p.frames, p.next + 1) else Quiet)
            && (|g.selection| <= seen ==> t.producer == Pushing(p.frames, p.next, 0))
  {
  }
}
