/** The calibration generator: frames filled in place and committed whole
    (src/managers/generator.rs). The oscillator is arbitrary. */
module Generator {
  import opened Floats
  import opened Arithmetic
  import opened AudioStream
  import opened StreamSink

  /** Phase and LFO phase. */
  datatype Phases = Phases(phase: Float, lfo: Float)

  /** One frame's sample, and the phases after it. */
  type Oscillator = Phases -> (Float, Phases)

  function After(osc: Oscillator, p: Phases, frames: nat): Phases {
    if frames == 0 then p else osc(After(osc, p, frames - 1)).1
  }

  /** Frame `k` holds its one sample in every channel. */
  function Tone(osc: Oscillator, p: Phases, channels: nat, k: nat): (frame: Frame)
    ensures |frame| == channels
  {
    seq(channels, ch => osc(After(osc, p, k)).0)
  }

  function Tones(osc: Oscillator, p: Phases, channels: nat, n: nat): (frames: seq<Frame>)
    ensures |frames| == n && FramesOf(frames, channels)
  {
    seq(n, k requires 0 <= k < n => Tone(osc, p, channels, k))
  }

  /** A chunk that starts from the phases an earlier chunk left goes on with the frames that would
      have come next, so the signal does not depend on the chunk length. */
  lemma {:induction false} ChunksContinue(osc: Oscillator, p: Phases, channels: nat, m: nat, n: nat)
    ensures After(osc, After(osc, p, m), n) == After(osc, p, m + n)
    ensures Tones(osc, p, channels, m) + Tones(osc, After(osc, p, m), channels, n) == Tones(osc, p, channels, m + n)
  {
    if n > 0 {
      ChunksContinue(osc, p, channels, m, n - 1);
      var all := Tones(osc, p, channels, m + n);
      assert Tones(osc, After(osc, p, m), channels, n) ==
             Tones(osc, After(osc, p, m), channels, n - 1) + [Tone(osc, After(osc, p, m), channels, n - 1)];
      assert all == Tones(osc, p, channels, m + n - 1) + [Tone(osc, p, channels, m + n - 1)];
    }
  }

  lemma RoomForFrame(f: nat, frames: nat, channels: nat)
    requires 0 < channels && f * channels < frames * channels
    ensures f < frames && f * channels + channels <= frames * channels
  {
    if frames <= f {
      MulMono(frames, f, channels);
    } else {
      MulMono(f + 1, frames, channels);
      assert (f + 1) * channels == f * channels + channels;
    }
  }

  lemma NoFrameLeft(f: nat, frames: nat, channels: nat)
    requires 0 < channels && f <= frames && f * channels >= frames * channels
    ensures f == frames
  {
    if f < frames {
      assert (f + 1) * channels == f * channels + channels;
      MulMono(f + 1, frames, channels);
    }
  }

  /** `fill_buffer`: strides over the frames and writes each sample to every channel. */
  method FillBuffer(buffer: array<Float>, p: Phases, osc: Oscillator, channels: nat, ghost frames: nat)
    returns (q: Phases)
    requires channels > 0 && buffer.Length == frames * channels
    modifies buffer
    ensures q == After(osc, p, frames) && buffer[..] == Flatten(Tones(osc, p, channels, frames))
  {
    q := p;
    var i := 0;
    ghost var f := 0;
    while i < buffer.Length
      invariant 0 <= f <= frames && i == f * channels <= buffer.Length && q == After(osc, p, f)
      invariant buffer[..i] == Flatten(Tones(osc, p, channels, f))
      decreases buffer.Length - i
    {
      RoomForFrame(f, frames, channels);
      var sample := osc(q).0;
      WriteFrame(buffer, i, channels, sample);
      assert Tone(osc, p, channels, f) == seq(channels, ch => sample);
      assert Tones(osc, p, channels, f + 1) == Tones(osc, p, channels, f) + [Tone(osc, p, channels, f)];
      FlattenOne(Tones(osc, p, channels, f), Tone(osc, p, channels, f));
      assert (f + 1) * channels == f * channels + channels;
      q := osc(q).1;
      i := i + channels;
      f := f + 1;
    }
    NoFrameLeft(f, frames, channels);
    assert buffer[..i] == buffer[..];
  }

  method WriteFrame(buffer: array<Float>, i: nat, channels: nat, sample: Float)
    requires i + channels <= buffer.Length
    modifies buffer
    ensures buffer[..i + channels] == old(buffer[..i]) + seq(channels, ch => sample)
  {
    var ch := 0;
    while ch < channels
      invariant 0 <= ch <= channels && buffer[..i] == old(buffer[..i])
      invariant forall j :: i <= j < i + ch ==> buffer[j] == sample
    {
      buffer[i + ch] := sample;
      ch := ch + 1;
    }
  }

  /** Rounding the vacancy down to whole frames and capping it by the chunk admits exactly the
      frames that fit. */
  lemma WritableSamples(frames: nat, vacant: nat, channels: nat)
    requires channels > 0
    ensures 0 <= vacant / channels * channels <= vacant && frames * channels >= 0
    ensures var m := Fitting(frames, vacant, channels);
            Min(frames * channels, vacant / channels * channels) == m * channels
  {
    Euclid(vacant, channels);
    CompareProducts(frames, vacant / channels, channels);
  }

  /** One pass of the generator loop. What the ring cannot take is lost, but only whole frames of
      the chunk are committed, and the signal moves on by the whole chunk either way. */
  method Produce(buffer: array<Float>, tx: Ring, p: Phases, osc: Oscillator, channels: nat, ghost frames: nat)
    returns (q: Phases)
    requires channels > 0 && buffer.Length == frames * channels && tx.Valid()
    modifies buffer, tx
    ensures tx.Valid() && q == After(osc, p, frames)
    ensures var m := Fitting(frames, old(tx.VacantLen()), channels);
            tx.items == old(tx.items) + Flatten(Tones(osc, p, channels, m))
  {
    q := FillBuffer(buffer, p, osc, channels, frames);
    Commit(buffer, tx, channels, frames, Tones(osc, p, channels, frames));
    FirstTones(osc, p, channels, frames, Fitting(frames, old(tx.VacantLen()), channels));
  }

  lemma FirstTones(osc: Oscillator, p: Phases, channels: nat, frames: nat, m: nat)
    requires m <= frames
    ensures Tones(osc, p, channels, frames)[..m] == Tones(osc, p, channels, m)
  {
  }

  /** Pushes the whole frames of a filled buffer that fit. */
  method Commit(buffer: array<Float>, tx: Ring, channels: nat, ghost frames: nat, ghost content: seq<Frame>)
    requires channels > 0 && buffer.Length == frames * channels && tx.Valid()
    requires |content| == frames && FramesOf(content, channels) && buffer[..] == Flatten(content)
    modifies tx
    ensures tx.Valid()
    ensures tx.items == old(tx.items) + Flatten(content[..Fitting(frames, old(tx.VacantLen()), channels)])
  {
    var writable := tx.VacantLen() / channels * channels;
    WritableSamples(frames, tx.VacantLen(), channels);
    var n := Min(buffer.Length, writable);
    FlattenPrefix(content, channels, Fitting(frames, tx.VacantLen(), channels));
    tx.PushSlice(buffer[..n]);
    assert buffer[..n] == buffer[..][..n] && buffer[..n][..n] == buffer[..n];
  }

  /** The first `m` frames are the first `m * channels` samples. */
  lemma FlattenPrefix(frames: seq<Frame>, channels: nat, m: nat)
    requires m <= |frames| && FramesOf(frames, channels)
    ensures 0 <= m * channels <= |Flatten(frames)| && Flatten(frames[..m]) == Flatten(frames)[..m * channels]
  {
    assert frames == frames[..m] + frames[m..];
    FlattenAppend(frames[..m], frames[m..]);
    FlattenLength(frames[..m], channels);
  }
}
