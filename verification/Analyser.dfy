/** The analyser thread's state (src/managers/analyser.rs) and its buffer sizing
    (src/managers/audio.rs). */
module Analyser {
  import opened Floats
  import opened Arithmetic
  import opened Words
  import opened StreamSink
  import opened AudioStream
  import V = Vocoder

  const CHUNK_SIZE_MS: nat := 10

  datatype Level = Level(peak: Float, bins: seq<Float>)

  const SILENCE: Level := Level(ZERO, seq(BAND_COUNT, b => ZERO))

  /** What a payload holds before the first analysis. */
  lemma SilenceIsZero()
    ensures SILENCE.peak == Fin(0.0) && |SILENCE.bins| == 32 && forall b :: 0 <= b < 32 ==> SILENCE.bins[b] == Fin(0.0)
  {
  }

  /** Every channel is present, with all its bands. */
  predicate Shaped(payload: seq<Level>, channels: nat) {
    |payload| == channels && forall k :: 0 <= k < |payload| ==> |payload[k].bins| == BAND_COUNT
  }

  // ---------- Sizing ----------

  function SamplesForMs(sampleRate: nat, channels: nat, ms: nat): nat {
    sampleRate * channels * ms / 1000
  }

  /** `samples_for_ms` rounded up to whole frames. */
  function FrameAlignedSamples(sampleRate: nat, channels: nat, ms: nat): nat
    requires channels > 0
  {
    (SamplesForMs(sampleRate, channels, ms) + channels - 1) / channels * channels
  }

  /** What a number of milliseconds amounts to: the samples that fit into them, and the least whole
      number of frames that holds those. */
  lemma SizesAreExact(sampleRate: nat, channels: nat, ms: nat)
    requires channels > 0
    ensures var n := SamplesForMs(sampleRate, channels, ms);
            1000 * n <= sampleRate * channels * ms < 1000 * (n + 1)
    ensures var n, a := SamplesForMs(sampleRate, channels, ms), FrameAlignedSamples(sampleRate, channels, ms);
            a % channels == 0 && n <= a < n + channels
    ensures CHUNK_SIZE_MS == 10
  {
    var n := SamplesForMs(sampleRate, channels, ms);
    assert sampleRate * channels * ms >= 0;
    var q := (n + channels - 1) / channels;
    Euclid(n + channels - 1, channels);
    UniqueQuotient(q * channels, channels, q, 0);
  }

  /** The transfer buffer is whole frames; it has room for a frame exactly when the stream carries
      at least a hundred samples per second, and is empty otherwise. */
  lemma TransferBufferHasRoom(sampleRate: nat, channels: nat) returns (frames: nat)
    requires channels > 0
    ensures FrameAlignedSamples(sampleRate, channels, CHUNK_SIZE_MS) == frames * channels
    ensures frames > 0 <==> sampleRate * channels >= 100
    ensures frames > 0 ==> frames * channels >= channels
  {
    var n := SamplesForMs(sampleRate, channels, CHUNK_SIZE_MS);
    frames := (n + channels - 1) / channels;
    assert n > 0 <==> sampleRate * channels >= 100;
    if n > 0 {
      assert 1 * channels <= n + channels - 1;
      QuotientAtLeast(n + channels - 1, channels, 1);
      MulMono(1, frames, channels);
    } else {
      UniqueQuotient(channels - 1, channels, 0, channels - 1);
    }
  }

  /** Once producers stop, every pop takes something from a non-empty ring exactly when the stream
      carries at least a hundred samples per second; below that the transfer buffer is empty and
      the shutdown loop would never end. */
  lemma DrainAlwaysProgresses(sampleRate: nat, channels: nat)
    requires channels > 0
    ensures sampleRate * channels >= 100 <==>
            forall ring: nat, pending: nat {:trigger Taken(ring, FrameAlignedSamples(sampleRate, channels, CHUNK_SIZE_MS), pending)} ::
              ring > 0 && pending < channels && pending <= FrameAlignedSamples(sampleRate, channels, CHUNK_SIZE_MS)
              ==> Taken(ring, FrameAlignedSamples(sampleRate, channels, CHUNK_SIZE_MS), pending) > 0
  {
    var frames := TransferBufferHasRoom(sampleRate, channels);
    assert Taken(1, FrameAlignedSamples(sampleRate, channels, CHUNK_SIZE_MS), 0) <= frames * channels;
    if frames == 0 {
      assert Taken(1, FrameAlignedSamples(sampleRate, channels, CHUNK_SIZE_MS), 0) == 0;
    }
  }

  /** How much one pop behind `pending` carried samples takes from the ring. */
  function Taken(ring: nat, buffer: nat, pending: nat): nat
    requires pending <= buffer
  {
    Min(ring, buffer - pending)
  }

  // ---------- Peaks ----------

  /** The largest magnitude so far, as the comparison of the source decides it. */
  function PeakFold(peak: Float, samples: seq<Float>): Float
    decreases |samples|
  {
    if |samples| == 0 then peak
    else PeakFold(if Greater(Abs(samples[0]), peak) then Abs(samples[0]) else peak, samples[1..])
  }

  /** What the peak is, in plain numbers: never NaN, at least the starting peak, a bound on every
      finite sample from both sides, attained by some sample or its negative unless it is the
      starting peak, and infinite exactly when the start or some sample is. */
  lemma {:induction false} PeakIsLargest(peak: Float, samples: seq<Float>)
    requires peak.PosInf? || (peak.Fin? && peak.v >= 0.0)
    ensures var p := PeakFold(peak, samples);
            && (p.PosInf? || (p.Fin? && p.v >= 0.0))
            && (p.Fin? && peak.Fin? ==> peak.v <= p.v)
            && (forall k :: 0 <= k < |samples| && samples[k].Fin? ==> p.PosInf? || -p.v <= samples[k].v <= p.v)
            && (p.Fin? && p != peak ==> exists k :: 0 <= k < |samples| && (samples[k] == Fin(p.v) || samples[k] == Fin(-p.v)))
            && (p.PosInf? <==> peak.PosInf? || exists k :: 0 <= k < |samples| && (samples[k].PosInf? || samples[k].NegInf?))
    decreases |samples|
  {
    if |samples| > 0 {
      var next := if Greater(Abs(samples[0]), peak) then Abs(samples[0]) else peak;
      var rest := samples[1..];
      PeakIsLargest(next, rest);
      assert forall k :: 1 <= k < |samples| ==> samples[k] == rest[k - 1];
      assert forall k :: 0 <= k < |rest| ==> rest[k] == samples[k + 1];
    }
  }

  /** `interleaved_peak`: strides through one channel of the buffer. */
  method InterleavedPeak(buffer: seq<Float>, channel: nat, channels: nat) returns (peak: Float)
    requires channels > 0
    ensures peak == PeakFold(ZERO, V.Strided(buffer, channel, channels))
    ensures forall k :: 0 <= k < |V.Strided(buffer, channel, channels)| && V.Strided(buffer, channel, channels)[k].Fin? ==>
              peak.PosInf? || (peak.Fin? && -peak.v <= V.Strided(buffer, channel, channels)[k].v <= peak.v)
  {
    PeakIsLargest(ZERO, V.Strided(buffer, channel, channels));
    peak := ZERO;
    var i := channel;
    while i < |buffer|
      invariant PeakFold(peak, V.Strided(buffer, i, channels)) == PeakFold(ZERO, V.Strided(buffer, channel, channels))
      decreases |buffer| - i
    {
      assert V.Strided(buffer, i, channels)[1..] == V.Strided(buffer, i + channels, channels);
      var magnitude := Abs(buffer[i]);
      if Greater(magnitude, peak) {
        peak := magnitude;
      }
      i := i + channels;
    }
  }

  // ---------- The raw payload cell ----------

  /** The watch channel to the mapper: the latest value and how often it was replaced. */
  class RawCell {
    var value: seq<Level>
    var version: nat
    var closed: bool

    constructor (channels: nat)
      ensures value == seq(channels, i => SILENCE) && version == 0 && !closed
    {
      value := seq(channels, i => SILENCE);
      version := 0;
      closed := false;
    }

    method SendReplace(next: seq<Level>) returns (previous: seq<Level>)
      modifies this
      ensures value == next && previous == old(value) && version == old(version) + 1 && closed == old(closed)
    {
      previous := value;
      value := next;
      version := version + 1;
    }
  }

  // ---------- The analyser state ----------

  /** Two filter banks share no state. */
  ghost predicate Apart(a: V.VocoderAnalyser, b: V.VocoderAnalyser) {
    && a.filters != b.filters && a.bins != b.bins
    && a.envelopes != b.envelopes && a.envelopes != b.bins && a.bins != b.envelopes
  }

  class AnalyserState {
    const channels: nat
    const transferBuffer: array<Float>
    const rawTx: RawCell
    const analysers: seq<V.VocoderAnalyser>
    var pending: nat
    var frameData: seq<Level>

    /** Everything analysed so far. */
    ghost var analysed: seq<Float>

    ghost function Cells(): set<object> {
      (set a | a in analysers :: a.filters as object) + (set a | a in analysers :: a.envelopes as object)
      + (set a | a in analysers :: a.bins as object)
    }

    ghost predicate Separate() {
      && |analysers| == channels
      && (forall k :: 0 <= k < channels ==> analysers[k].Valid())
      && (forall k :: 0 <= k < channels ==>
            analysers[k].envelopes != transferBuffer && analysers[k].bins != transferBuffer)
      && forall j, k :: 0 <= j < channels && 0 <= k < channels && j != k ==> Apart(analysers[j], analysers[k])
    }

    /** Every band is in the state of its own fold over everything its channel was given. */
    ghost predicate BandsOk()
      requires Separate() && channels > 0
      reads this`analysed, Cells()
    {
      forall ch :: 0 <= ch < channels ==> Folded(ch, analysed)
    }

    ghost predicate Folded(ch: nat, stream: seq<Float>)
      requires Separate() && ch < channels
      reads analysers[ch].filters, analysers[ch].envelopes, analysers[ch].bins
    {
      forall b :: 0 <= b < BAND_COUNT ==>
        analysers[ch].BandAt(b) ==
        V.BandFold(analysers[ch].tunings[b], V.FRESH, V.Strided(stream, ch, channels))
    }

    ghost predicate Valid()
      reads this, rawTx, Cells()
    {
      && channels > 0 && Separate()
      && pending < channels && pending <= transferBuffer.Length
      && V.WholeFrames(analysed, channels)
      && Shaped(frameData, channels) && Shaped(rawTx.value, channels)
      && BandsOk()
    }

    constructor (sampleRate: nat, channels: nat, rawTx: RawCell, tunings: seq<V.Tuning>)
      requires channels > 0 && |tunings| == BAND_COUNT && Shaped(rawTx.value, channels)
      ensures Valid() && this.channels == channels && this.rawTx == rawTx && analysed == [] && pending == 0
      ensures fresh(transferBuffer) && fresh(Cells())
      ensures transferBuffer.Length == FrameAlignedSamples(sampleRate, channels, CHUNK_SIZE_MS)
      ensures forall k :: 0 <= k < channels ==> analysers[k].tunings == tunings
    {
      var buffer := new Float[FrameAlignedSamples(sampleRate, channels, CHUNK_SIZE_MS)](i => ZERO);
      this.transferBuffer := buffer;
      var built: seq<V.VocoderAnalyser> := [];
      while |built| < channels
        invariant |built| <= channels
        invariant forall k :: 0 <= k < |built| ==>
                    && built[k].Valid() && built[k].tunings == tunings
                    && fresh(built[k].filters) && fresh(built[k].envelopes) && fresh(built[k].bins)
                    && built[k].envelopes != buffer && built[k].bins != buffer
                    && forall b :: 0 <= b < BAND_COUNT ==> built[k].BandAt(b) == V.FRESH
        invariant forall j, k :: 0 <= j < |built| && 0 <= k < |built| && j != k ==> Apart(built[j], built[k])
      {
        var next := new V.VocoderAnalyser(tunings);
        built := built + [next];
      }
      this.channels, this.rawTx, this.analysers := channels, rawTx, built;
      pending, analysed := 0, [];
      assert V.Product(0, channels) == 0;
      frameData := seq(channels, i => SILENCE);
    }

    /** The samples of a partial frame carried to the next chunk. */
    ghost function Carried(): seq<Float>
      requires pending <= transferBuffer.Length
      reads this, transferBuffer
    {
      transferBuffer[..pending]
    }

    /** One loop iteration: pop behind the carried samples, then process. What leaves the ring
        enters the stream in order, whatever the pop's size. */
    method DrainOnce(consumer: Ring) returns (popped: nat)
      requires Valid() && consumer.Valid()
      modifies this, transferBuffer, rawTx, consumer, Cells()
      ensures Valid() && consumer.Valid()
      ensures popped == Taken(|old(consumer.items)|, transferBuffer.Length, old(pending))
      ensures consumer.items == old(consumer.items)[popped..]
      ensures analysed + Carried() == old(analysed) + old(Carried()) + old(consumer.items)[..popped]
      ensures old(analysed) <= analysed
    {
      ghost var items := consumer.items;
      var samples := consumer.PopSlice(transferBuffer.Length - pending);
      popped := |samples|;
      ghost var carried := transferBuffer[..pending];
      forall k | 0 <= k < popped {
        transferBuffer[pending + k] := samples[k];
      }
      assert transferBuffer[..pending] == carried;
      assert transferBuffer[..pending + popped] == carried + samples;
      if popped > 0 {
        Process(popped);
      } else {
        assert samples == [];
      }
    }

    /** The analyser is where the concurrent machine has it: same carry, same analysed stream, and
        the ring holds what the machine's ring holds. */
    ghost predicate Follows(g: Config, m: State, ring: seq<Float>)
      requires pending <= transferBuffer.Length
      reads this, transferBuffer
    {
      && |g.selection| == channels && g.buffer == transferBuffer.Length
      && m.ring == ring && m.consumer == Carrying(Carried()) && m.analysed == analysed
    }

    /** A loop iteration is the machine's `Pop` and `Process`, or nothing when nothing was popped, so
        the analyser follows the machine through every interleaving with the producer. */
    method DrainStep(consumer: Ring, ghost g: Config, ghost m: State) returns (popped: nat, ghost next: State)
      requires Valid() && consumer.Valid() && ValidConfig(g) && Follows(g, m, consumer.items)
      modifies this, transferBuffer, rawTx, consumer, Cells()
      ensures Valid() && consumer.Valid() && Follows(g, next, consumer.items)
      ensures popped == Taken(|old(consumer.items)|, transferBuffer.Length, old(pending))
      ensures Drained(g, m, popped, next)
      ensures Reachable(g, m) ==> Reachable(g, next)
    {
      ghost var carried, before := Carried(), analysed;
      popped := DrainOnce(consumer);
      next := m;
      if popped > 0 {
        DrainIsPopAndProcess(g, m, popped, analysed, Carried());
        next := AfterDrain(g, m, popped);
        if Reachable(g, m) {
          DrainStaysReachable(g, m, popped);
        }
      } else {
        assert analysed + Carried() == before + carried;
        SameSplit(before, carried, analysed, Carried(), channels);
      }
    }

    /** The loop after shutdown was requested and the producers stopped: it empties the ring. */
    method DrainAll(consumer: Ring)
      requires Valid() && consumer.Valid() && channels <= transferBuffer.Length
      modifies this, transferBuffer, rawTx, consumer, Cells()
      ensures Valid() && consumer.Valid() && consumer.items == []
      ensures analysed + Carried() == old(analysed) + old(Carried()) + old(consumer.items)
    {
      ghost var entered := old(analysed) + old(Carried()) + old(consumer.items);
      while consumer.items != []
        invariant Valid() && consumer.Valid()
        invariant analysed + Carried() + consumer.items == entered
        decreases |consumer.items|
      {
        label before:
        ghost var was, items := analysed + Carried(), consumer.items;
        var popped := DrainOnce(consumer);
        assert items == items[..popped] + items[popped..];
        assert analysed + Carried() + consumer.items == was + items[..popped] + items[popped..];
      }
    }

    /** Analyses the whole-frame prefix and carries the trailing partial frame to the front. */
    method Process(popped: nat)
      requires Valid() && pending + popped <= transferBuffer.Length
      modifies this, transferBuffer, rawTx, Cells()
      ensures Valid()
      ensures analysed + Carried() == old(analysed) + old(transferBuffer[..pending + popped])
      ensures old(analysed) <= analysed
    {
      var total := pending + popped;
      var aligned := total - total % channels;
      ghost var whole := transferBuffer[..total];
      AlignedIsWhole(total, aligned, channels);
      if aligned > 0 {
        Analyse(aligned);
      }
      assert transferBuffer[..total] == whole && transferBuffer[..aligned] == whole[..aligned];
      Carry(aligned, total);
      assert whole == whole[..aligned] + whole[aligned..];
    }

    /** `copy_within(aligned..total, 0)`. */
    method Carry(aligned: nat, total: nat)
      requires Valid() && aligned <= total <= transferBuffer.Length && total - aligned < channels
      modifies this`pending, transferBuffer
      ensures Valid() && Carried() == old(transferBuffer[aligned..total])
    {
      forall k | aligned <= k < total {
        transferBuffer[k - aligned] := transferBuffer[k];
      }
      pending := total - aligned;
    }

    /** Runs peak and vocoder over the first `count` samples and publishes the result. The payload
        depends on this chunk and the band states alone, never on the recycled buffer. */
    method Analyse(count: nat)
      requires Valid() && count <= transferBuffer.Length && V.WholeFrames(transferBuffer[..count], channels)
      modifies this`frameData, this`analysed, rawTx, Cells()
      ensures Valid()
      ensures analysed == old(analysed) + transferBuffer[..count]
      ensures rawTx.closed == old(rawTx.closed)
      ensures rawTx.closed ==> rawTx.value == old(rawTx.value) && rawTx.version == old(rawTx.version)
      ensures !rawTx.closed ==>
                && rawTx.version == old(rawTx.version) + 1 && frameData == old(rawTx.value)
                && Fresh(rawTx.value, transferBuffer[..count])
    {
      var active := transferBuffer[..count];
      AnalyseChannels(active);
      WholeAppend(analysed, active, channels);
      analysed := analysed + active;
      if rawTx.closed {
        return;
      }
      frameData := rawTx.SendReplace(frameData);
    }

    /** The payload holds the levels of this chunk in every channel. */
    ghost predicate Fresh(payload: seq<Level>, active: seq<Float>)
      requires channels > 0 && Separate() && Shaped(payload, channels)
      reads Cells()
    {
      forall ch :: 0 <= ch < channels ==> LevelOf(payload[ch], active, ch)
    }

    method AnalyseChannels(active: seq<Float>)
      requires Valid() && V.WholeFrames(active, channels)
      modifies this`frameData, Cells()
      ensures Shaped(frameData, channels) && Fresh(frameData, active)
      ensures forall ch :: 0 <= ch < channels ==> Folded(ch, analysed + active)
    {
      var ch := 0;
      while ch < channels
        invariant 0 <= ch <= channels && Shaped(frameData, channels)
        invariant forall k :: 0 <= k < ch ==> LevelOf(frameData[k], active, k)
        invariant forall k :: 0 <= k < ch ==> Folded(k, analysed + active)
        invariant forall k :: ch <= k < channels ==> Folded(k, analysed)
      {
        AnalyseChannel(active, ch);
        ch := ch + 1;
      }
    }

    /** Every published bin is finite and is what a lone band would hold after that channel's
        samples of everything analysed so far. */
    lemma BinsFollowTheStream(payload: seq<Level>, active: seq<Float>, ch: nat, b: nat)
      requires Valid() && Shaped(payload, channels) && Fresh(payload, active)
      requires ch < channels && b < BAND_COUNT
      ensures payload[ch].bins[b] ==
              V.BandFold(analysers[ch].tunings[b], V.FRESH, V.Strided(analysed, ch, channels)).bin
      ensures payload[ch].bins[b].IsFinite()
    {
      assert LevelOf(payload[ch], active, ch) && Folded(ch, analysed);
      assert analysers[ch].BandAt(b).bin == payload[ch].bins[b];
      V.FoldStaysSound(analysers[ch].tunings[b], V.FRESH, V.Strided(analysed, ch, channels));
    }

    /** What a published bin means, over every interleaving: the fold of a lone band over hardware
        channel `g.selection[ch]` of the frames kept so far, one sample each, in order. */
    lemma PublishedBinsFoldHardware(g: Config, m: State, ring: seq<Float>, payload: seq<Level>, active: seq<Float>,
                                    ch: nat, b: nat)
      requires Valid() && ValidConfig(g) && Reachable(g, m) && Follows(g, m, ring)
      requires Shaped(payload, channels) && Fresh(payload, active) && ch < channels && b < BAND_COUNT
      ensures var heard := V.Strided(analysed, ch, channels);
              && payload[ch].bins[b] == V.BandFold(analysers[ch].tunings[b], V.FRESH, heard).bin
              && payload[ch].bins[b].IsFinite() && |heard| == m.chunks
              && forall q :: 0 <= q < |heard| ==> HeardAt(g, m, heard[q], ch, q)
    {
      BinsFollowTheStream(payload, active, ch, b);
      BandsHearAllFrames(g, m, ch);
    }

    ghost predicate LevelOf(level: Level, active: seq<Float>, ch: nat)
      requires Separate() && ch < channels
      reads analysers[ch].bins
    {
      && level.peak == PeakFold(ZERO, V.Strided(active, ch, channels))
      && level.bins == analysers[ch].bins[..]
    }

    method AnalyseChannel(active: seq<Float>, ch: nat)
      requires channels > 0 && Separate() && ch < channels && Shaped(frameData, channels)
      requires Folded(ch, analysed) && V.WholeFrames(analysed, channels)
      modifies this`frameData, analysers[ch].filters, analysers[ch].envelopes, analysers[ch].bins
      ensures Shaped(frameData, channels) && LevelOf(frameData[ch], active, ch)
      ensures forall k :: 0 <= k < channels && k != ch ==> frameData[k] == old(frameData[k])
      ensures forall k :: 0 <= k < channels && k != ch ==>
                unchanged(analysers[k].filters, analysers[k].envelopes, analysers[k].bins)
      ensures Folded(ch, analysed + active)
    {
      var peak := InterleavedPeak(active, ch, channels);
      analysers[ch].ProcessInterleaved(active, ch, channels);
      frameData := frameData[ch := Level(peak, analysers[ch].bins[..])];
      forall b | 0 <= b < BAND_COUNT
        ensures analysers[ch].BandAt(b) ==
                V.BandFold(analysers[ch].tunings[b], V.FRESH, V.Strided(analysed + active, ch, channels))
      {
        FoldAfterChunk(analysers[ch].tunings[b], analysed, active, channels, ch);
      }
    }
  }

  /** Folding the next chunk continues the fold over everything before it. */
  lemma FoldAfterChunk(t: V.Tuning, before: seq<Float>, active: seq<Float>, c: nat, ch: nat)
    requires c > 0 && ch < c && V.WholeFrames(before, c)
    ensures V.BandFold(t, V.BandFold(t, V.FRESH, V.Strided(before, ch, c)), V.Strided(active, ch, c)) ==
            V.BandFold(t, V.FRESH, V.Strided(before + active, ch, c))
  {
    var frames: nat :| |before| == V.Product(frames, c);
    V.StridedConcat(before, active, c, ch, frames);
    V.FoldConcat(t, V.FRESH, V.Strided(before, ch, c), V.Strided(active, ch, c));
  }

  lemma WholeAppend(a: seq<Float>, b: seq<Float>, c: nat)
    requires V.WholeFrames(a, c) && V.WholeFrames(b, c)
    ensures V.WholeFrames(a + b, c)
  {
    var m: nat, n: nat :| |a| == V.Product(m, c) && |b| == V.Product(n, c);
    assert (m + n) * c == m * c + n * c;
    assert |a + b| == V.Product(m + n, c);
  }

  lemma AlignedIsWhole(total: nat, aligned: int, c: nat)
    requires c > 0 && aligned == total - total % c
    ensures 0 <= aligned <= total < aligned + c
    ensures forall s: seq<Float> :: |s| == aligned ==> V.WholeFrames(s, c)
  {
    Euclid(total, c);
    assert aligned == V.Product(total / c, c);
  }

  // ---------- Refining the concurrent machine ----------

  function AfterDrain(g: Config, m: State, popped: nat): State
    requires ValidConfig(g) && Enabled(g, m, Pop(popped))
  {
    Apply(g, Apply(g, m, Pop(popped)), Process)
  }

  lemma DrainStaysReachable(g: Config, m: State, popped: nat)
    requires ValidConfig(g) && Reachable(g, m) && Enabled(g, m, Pop(popped))
    ensures Reachable(g, AfterDrain(g, m, popped))
  {
    StepStaysReachable(g, m, Pop(popped));
    StepStaysReachable(g, Apply(g, m, Pop(popped)), Process);
  }

  /** The machine's steps for one iteration that popped that much. */
  ghost predicate Drained(g: Config, m: State, popped: nat, next: State)
    requires ValidConfig(g)
  {
    if popped == 0 then next == m else Enabled(g, m, Pop(popped)) && next == AfterDrain(g, m, popped)
  }

  /** A whole-frame extension followed by less than a frame can only be cut in one place. */
  lemma WholeExtension(before: seq<Float>, after: seq<Float>, carried: seq<Float>, total: seq<Float>, c: nat)
    requires c > 0 && V.WholeFrames(before, c) && V.WholeFrames(after, c) && before <= after && |carried| < c
    requires after + carried == before + total
    ensures var aligned := |total| - |total| % c;
            0 <= aligned <= |total| && after == before + total[..aligned] && carried == total[aligned..]
  {
    var m: nat, n: nat :| |before| == V.Product(m, c) && |after| == V.Product(n, c);
    WholeMultiples(n, m, 0, c);
    Distribute(m, n - m, c);
    UniqueQuotient(|total|, c, n - m, |carried|);
    assert (after + carried)[|before|..] == total;
    assert total == after[|before|..] + carried;
  }

  lemma DrainIsPopAndProcess(g: Config, m: State, popped: nat, after: seq<Float>, carried: seq<Float>)
    requires ValidConfig(g) && Enabled(g, m, Pop(popped))
    requires V.WholeFrames(m.analysed, |g.selection|) && V.WholeFrames(after, |g.selection|)
    requires m.analysed <= after && |carried| < |g.selection|
    requires after + carried == m.analysed + m.consumer.pending + m.ring[..popped]
    ensures var next := AfterDrain(g, m, popped);
            next.analysed == after && next.consumer == Carrying(carried) && next.ring == m.ring[popped..]
  {
    var total := m.consumer.pending + m.ring[..popped];
    assert after + carried == m.analysed + total;
    WholeExtension(m.analysed, after, carried, total, |g.selection|);
  }

  lemma SameSplit(before: seq<Float>, pending: seq<Float>, after: seq<Float>, carried: seq<Float>, c: nat)
    requires c > 0 && V.WholeFrames(before, c) && V.WholeFrames(after, c) && before <= after
    requires |pending| < c && |carried| < c && after + carried == before + pending
    ensures after == before && carried == pending
  {
    WholeExtension(before, after, carried, pending, c);
    UniqueQuotient(|pending|, c, 0, |pending|);
  }

  /** The producer's steps only add to the ring, so an analyser that followed the machine still does. */
  lemma ProducerLeavesAnalyser(g: Config, m: State, e: Event)
    requires ValidConfig(g) && Enabled(g, m, e) && !e.Pop? && !e.Process?
    ensures var next := Apply(g, m, e);
            next.consumer == m.consumer && next.analysed == m.analysed && m.ring <= next.ring
  {
  }

  /** `sample` is hardware channel `g.selection[ch]` of the `q`-th kept frame. */
  predicate HeardAt(g: Config, m: State, sample: Float, ch: nat, q: nat) {
    && q < |m.kept| && m.kept[q] < |m.offered| && ch < |g.selection|
    && g.selection[ch] < |m.offered[m.kept[q]]| && sample == m.offered[m.kept[q]][g.selection[ch]]
  }

  lemma BandsHearAllFrames(g: Config, m: State, ch: nat)
    requires ValidConfig(g) && Reachable(g, m) && ch < |g.selection|
    ensures |V.Strided(m.analysed, ch, |g.selection|)| == m.chunks
    ensures forall q :: 0 <= q < m.chunks ==> HeardAt(g, m, V.Strided(m.analysed, ch, |g.selection|)[q], ch, q)
  {
    ReachableKeepsInv(g, m);
    var heard := V.Strided(m.analysed, ch, |g.selection|);
    if m.chunks == 0 {
      assert m.analysed == [];
    } else {
      BandsHearTheirChannel(g, m, ch, 0);
    }
    forall q | 0 <= q < m.chunks ensures HeardAt(g, m, heard[q], ch, q) {
      BandsHearTheirChannel(g, m, ch, q);
    }
  }

  /** From the callback to the filter bank, over every interleaving: sample `q` that the bands of
      output channel `ch` fold is hardware channel `g.selection[ch]` of the `q`-th kept frame, and
      they fold one sample of each analysed frame. */
  lemma BandsHearTheirChannel(g: Config, s: State, ch: nat, q: nat)
    requires ValidConfig(g) && Reachable(g, s) && ch < |g.selection| && q < s.chunks
    ensures |V.Strided(s.analysed, ch, |g.selection|)| == s.chunks
    ensures q < |s.kept| && s.kept[q] < |s.offered| && g.selection[ch] < |s.offered[s.kept[q]]|
    ensures V.Strided(s.analysed, ch, |g.selection|)[q] == s.offered[s.kept[q]][g.selection[ch]]
  {
    StreamIsAligned(g, s, q, ch);
    V.StridedAt(s.analysed, s.chunks, |g.selection|, ch, q);
  }
}
