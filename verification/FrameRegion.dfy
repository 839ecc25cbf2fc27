/** The byte layout of the frame region and its single-threaded behaviour
    (src/frames.rs, docs/xpc.md "Frame Region").

    The mapping is an array of bytes. Header and payload words are little-endian
    cells addressed by offset, exactly as the source computes the offsets. */
module FrameRegion {
  import SequenceLock
  import opened Arithmetic
  import opened Words

  const FRAME_MAGIC: U32 := 0x5246_3450      // "P4FR", little endian
  const FRAME_LAYOUT_VERSION: U32 := 1
  const FRAME_HEADER_BYTES: nat := 64
  const WORD_BYTES: nat := 4
  const CHANNEL_RECORD_BYTES: nat := (1 + BAND_COUNT) * WORD_BYTES
  const MIDI_FLAG_CONFIGURED: U32 := 1

  // ---------- Layout ----------

  datatype Field =
    | Magic | LayoutVersion | Sequence | PublishedNs | ChannelCount | BandCount | SampleRate
    | MidiFlags | MidiSteps | MidiTransportCount | MidiTransportLast
    | Peak(channel: nat)
    | Bin(channel: nat, band: nat)

  function FrameBytes(channels: nat): nat {
    FRAME_HEADER_BYTES + channels * CHANNEL_RECORD_BYTES
  }

  function RecordOffset(channel: nat): nat {
    FRAME_HEADER_BYTES + channel * CHANNEL_RECORD_BYTES
  }

  function Offset(f: Field): nat {
    match f
    case Magic => 0
    case LayoutVersion => 4
    case Sequence => 8
    case PublishedNs => 16
    case ChannelCount => 24
    case BandCount => 28
    case SampleRate => 32
    case MidiFlags => 36
    case MidiSteps => 40
    case MidiTransportCount => 44
    case MidiTransportLast => 48
    case Peak(c) => RecordOffset(c)
    case Bin(c, b) => RecordOffset(c) + WORD_BYTES + b * WORD_BYTES
  }

  function Width(f: Field): nat {
    if f.Sequence? || f.PublishedNs? then 8 else 4
  }

  predicate InLayout(f: Field, channels: nat) {
    match f
    case Peak(c) => c < channels
    case Bin(c, b) => c < channels && b < BAND_COUNT
    case _ => true
  }

  /** The fields the contract marks Once. */
  predicate WrittenOnce(f: Field) {
    f.Magic? || f.LayoutVersion? || f.ChannelCount? || f.BandCount? || f.SampleRate? || f.MidiFlags?
  }

  /** `frame_bytes` rounded up to a whole number of pages. */
  function MappedLength(channels: nat, page: nat): nat
    requires page > 0
  {
    (FrameBytes(channels) + page - 1) / page * page
  }

  /** The offsets of the published contract, byte for byte (docs/xpc.md, "Frame Region"). */
  lemma LayoutIsTheContracts(c: nat, b: nat)
    ensures Offset(Magic) == 0 && Offset(LayoutVersion) == 4 && Offset(Sequence) == 8 && Offset(PublishedNs) == 16
    ensures Offset(ChannelCount) == 24 && Offset(BandCount) == 28 && Offset(SampleRate) == 32
    ensures Offset(MidiFlags) == 36 && Offset(MidiSteps) == 40
    ensures Offset(MidiTransportCount) == 44 && Offset(MidiTransportLast) == 48
    ensures Offset(Peak(c)) == 64 + c * 132 && Offset(Bin(c, b)) == 64 + c * 132 + 4 + 4 * b
    ensures FrameBytes(c) == 64 + c * 132
    ensures Width(Sequence) == Width(PublishedNs) == 8 && Width(MidiSteps) == Width(Peak(c)) == Width(Bin(c, b)) == 4
    ensures BAND_COUNT == 32 && FRAME_LAYOUT_VERSION == 1 && MIDI_FLAG_CONFIGURED == 1
    ensures Encode(FRAME_MAGIC, 4) == ['P' as nat, '4' as nat, 'F' as nat, 'R' as nat]
  {
    MagicSpells();
  }

  lemma MagicSpells()
    ensures Encode(FRAME_MAGIC, 4) == ['P' as nat, '4' as nat, 'F' as nat, 'R' as nat]
  {
    assert Encode(0x52, 1) == ['R' as nat] by {
      assert Encode(0, 0) == [];
    }
    assert Encode(0x5246, 2) == ['F' as nat, 'R' as nat];
    assert Encode(0x5246_34, 3) == ['4' as nat, 'F' as nat, 'R' as nat];
  }

  /** Every cell is aligned to its own width. */
  lemma CellsAligned(f: Field)
    ensures Offset(f) % Width(f) == 0
  {
    match f
    case Peak(c) => FourTimes(16 + c * 33, Offset(f));
    case Bin(c, b) => FourTimes(16 + c * 33 + 1 + b, Offset(f));
    case _ =>
  }

  lemma FourTimes(n: nat, offset: nat)
    requires offset == 4 * n
    ensures offset % 4 == 0
  {
  }

  /** Every cell lies inside the bytes the layout uses. */
  lemma CellsInside(f: Field, channels: nat)
    requires InLayout(f, channels)
    ensures Offset(f) + Width(f) <= FrameBytes(channels)
  {
    match f
    case Peak(c) => assert (c + 1) * 132 <= channels * 132;
    case Bin(c, b) => assert (c + 1) * 132 <= channels * 132;
    case _ =>
  }

  /** Distinct cells share no byte, and no cell touches the reserved header bytes. */
  lemma CellsDisjoint(f: Field, g: Field, channels: nat)
    requires InLayout(f, channels) && InLayout(g, channels) && f != g
    ensures Offset(f) + Width(f) <= Offset(g) || Offset(g) + Width(g) <= Offset(f)
    ensures Offset(f) + Width(f) <= 52 || FRAME_HEADER_BYTES <= Offset(f)
  {
    if (f.Peak? || f.Bin?) && (g.Peak? || g.Bin?) {
      if f.channel < g.channel {
        assert (f.channel + 1) * 132 <= g.channel * 132;
      } else if g.channel < f.channel {
        assert (g.channel + 1) * 132 <= f.channel * 132;
      }
    }
  }

  /** The mapping is whole pages, covers the layout and wastes less than one page. */
  lemma MappingCovers(channels: nat, page: nat)
    requires page > 0
    ensures MappedLength(channels, page) % page == 0
    ensures FrameBytes(channels) <= MappedLength(channels, page) < FrameBytes(channels) + page
  {
    var n := FrameBytes(channels) + page - 1;
    Euclid(n, page);
    UniqueQuotient(n / page * page, page, n / page, 0);
  }

  // ---------- Little-endian cells ----------

  function Encode(value: nat, width: nat): (bytes: seq<Byte>)
    ensures |bytes| == width
  {
    if width == 0 then [] else [value % 256] + Encode(value / 256, width - 1)
  }

  function Decode(bytes: seq<Byte>): nat {
    if bytes == [] then 0 else bytes[0] + 256 * Decode(bytes[1..])
  }

  function Limit(width: nat): nat {
    if width == 0 then 1 else 256 * Limit(width - 1)
  }

  lemma {:induction false} DecodeEncode(value: nat, width: nat)
    requires value < Limit(width)
    ensures Decode(Encode(value, width)) == value
    decreases width
  {
    if width > 0 {
      DecodeEncode(value / 256, width - 1);
      assert Encode(value, width)[1..] == Encode(value / 256, width - 1);
    }
  }

  function Load(mem: seq<Byte>, f: Field): nat
    requires Offset(f) + Width(f) <= |mem|
  {
    Decode(mem[Offset(f)..Offset(f) + Width(f)])
  }

  // ---------- Frames ----------

  /** An IEEE 754 binary32 value by its bits; finite when the exponent is not all ones. */
  predicate IsFinite(bits: U32) {
    bits / 0x80_0000 % 256 != 255
  }

  /** The bits are sign, exponent and fraction; all ones in the exponent are infinities and NaNs. */
  lemma FiniteByExponent(sign: nat, exponent: nat, fraction: nat)
    requires sign < 2 && exponent < 256 && fraction < 0x80_0000
    ensures sign * 0x8000_0000 + exponent * 0x80_0000 + fraction < WORD32
    ensures IsFinite(sign * 0x8000_0000 + exponent * 0x80_0000 + fraction) <==> exponent != 255
  {
    var bits := sign * 0x8000_0000 + exponent * 0x80_0000 + fraction;
    assert bits / 0x80_0000 == sign * 256 + exponent;
  }

  datatype Level = Level(peak: U32, bins: seq<U32>)
  type ChannelLevel = l: Level | |l.bins| == BAND_COUNT witness Level(0, seq(BAND_COUNT, i => 0))

  datatype FrameMidi = FrameMidi(steps: U32, transportCount: U32, transportLast: U32)
  datatype Frame = Frame(sequence: U64, publishedNs: U64, midi: FrameMidi, channels: seq<ChannelLevel>)
  datatype Option<T> = None | Some(value: T)

  predicate AllFinite(channels: seq<ChannelLevel>) {
    forall c :: 0 <= c < |channels| ==>
      IsFinite(channels[c].peak) && forall b :: 0 <= b < BAND_COUNT ==> IsFinite(channels[c].bins[b])
  }

  /** The word a frame holds in each cell that every publication rewrites. */
  function FrameWord(frame: Frame, f: Field): nat
    requires InLayout(f, |frame.channels|) && !WrittenOnce(f)
  {
    match f
    case Sequence => frame.sequence
    case PublishedNs => frame.publishedNs
    case MidiSteps => frame.midi.steps
    case MidiTransportCount => frame.midi.transportCount
    case MidiTransportLast => frame.midi.transportLast
    case Peak(c) => frame.channels[c].peak
    case Bin(c, b) => frame.channels[c].bins[b]
  }

  /** The position of a payload cell in the order `publish` stores them. */
  function StoreOrder(f: Field): nat
    requires !WrittenOnce(f) && !f.Sequence?
  {
    match f
    case PublishedNs => 0
    case MidiSteps => 1
    case MidiTransportCount => 2
    case MidiTransportLast => 3
    case Peak(c) => 4 + 33 * c
    case Bin(c, b) => 4 + 33 * c + 1 + b
  }

  /** The header of a region whose layout is valid for `channels` channels. */
  predicate HeaderFor(mem: seq<Byte>, channels: nat) {
    && FrameBytes(channels) <= |mem|
    && Load(mem, Magic) == FRAME_MAGIC
    && Load(mem, LayoutVersion) == FRAME_LAYOUT_VERSION
    && Load(mem, ChannelCount) == channels
    && Load(mem, BandCount) == BAND_COUNT
  }

  /** The cells of `mem` hold exactly `frame`. */
  ghost predicate Holds(mem: seq<Byte>, frame: Frame) {
    && FrameBytes(|frame.channels|) <= |mem|
    && forall f :: InLayout(f, |frame.channels|) && !WrittenOnce(f) ==>
         Offset(f) + Width(f) <= |mem| && Load(mem, f) == FrameWord(frame, f)
  }

  lemma LimitsOfWidths()
    ensures Limit(4) == WORD32 && Limit(8) == WORD64
  {
    assert Limit(4) == 256 * Limit(3) && Limit(3) == 256 * Limit(2) && Limit(2) == 256 * Limit(1);
    assert Limit(8) == 256 * Limit(7) && Limit(7) == 256 * Limit(6) && Limit(6) == 256 * Limit(5);
    assert Limit(5) == 256 * Limit(4);
  }

  /** Stores one word into its cell, byte by byte, and touches nothing else. */
  method StoreWord(mem: array<Byte>, f: Field, value: nat, ghost channels: nat)
    requires InLayout(f, channels) && FrameBytes(channels) <= mem.Length
    requires value < Limit(Width(f))
    modifies mem
    ensures Offset(f) + Width(f) <= mem.Length && Load(mem[..], f) == value
    ensures forall i :: 0 <= i < mem.Length && !(Offset(f) <= i < Offset(f) + Width(f)) ==> mem[i] == old(mem[i])
  {
    CellsInside(f, channels);
    var at, bytes := Offset(f), Encode(value, Width(f));
    forall i | 0 <= i < |bytes| {
      mem[at + i] := bytes[i];
    }
    SliceIs(mem[..], at, bytes);
    DecodeEncode(value, Width(f));
  }

  /** A store into one cell leaves every other cell, and the reserved bytes, as they were. */
  lemma StoreKeepsOthers(before: seq<Byte>, after: seq<Byte>, f: Field, channels: nat)
    requires InLayout(f, channels) && FrameBytes(channels) <= |before| == |after|
    requires forall i :: 0 <= i < |before| && !(Offset(f) <= i < Offset(f) + Width(f)) ==> after[i] == before[i]
    ensures forall g :: InLayout(g, channels) && g != f ==>
              Offset(g) + Width(g) <= |before| && Load(after, g) == Load(before, g)
    ensures forall i :: 52 <= i < FRAME_HEADER_BYTES || FrameBytes(channels) <= i < |before| ==> after[i] == before[i]
  {
    CellsInside(f, channels);
    forall g | InLayout(g, channels) && g != f
      ensures Offset(g) + Width(g) <= |before| && Load(after, g) == Load(before, g)
    {
      CellsInside(g, channels);
      CellsDisjoint(f, g, channels);
      SameSlice(before, after, Offset(g), Offset(g) + Width(g));
    }
    var g := if f == Magic then Sequence else Magic;
    CellsDisjoint(f, g, channels);
  }

  lemma SliceIs(mem: seq<Byte>, at: nat, bytes: seq<Byte>)
    requires at + |bytes| <= |mem| && forall i :: at <= i < at + |bytes| ==> mem[i] == bytes[i - at]
    ensures mem[at..at + |bytes|] == bytes
  {
  }

  lemma SameSlice(before: seq<Byte>, after: seq<Byte>, low: nat, high: nat)
    requires low <= high <= |before| == |after|
    requires forall i :: low <= i < high ==> after[i] == before[i]
    ensures after[low..high] == before[low..high]
  {
  }

  /** Reads the latest frame out of a mapping nobody is writing to. The client's mapping can be
      anything, so every header check of the source is made. */
  method ReadFrame(mem: array<Byte>, len: nat) returns (r: Option<Frame>)
    requires len <= mem.Length
    ensures r.Some? <==>
              exists n :: HeaderFor(mem[..len], n) && Load(mem[..len], Sequence) != 0 && Load(mem[..len], Sequence) % 2 == 0
    ensures r.Some? ==> HeaderFor(mem[..len], |r.value.channels|) && Holds(mem[..len], r.value)
  {
    r := None;
    ghost var bytes := mem[..len];
    if len < FRAME_HEADER_BYTES {
      return;
    }
    var magic := LoadWord(mem, len, Magic);
    var version := LoadWord(mem, len, LayoutVersion);
    var count := LoadWord(mem, len, ChannelCount);
    var bands := LoadWord(mem, len, BandCount);
    if magic != FRAME_MAGIC || version != FRAME_LAYOUT_VERSION || bands != BAND_COUNT || len < FrameBytes(count) {
      return;
    }
    assert HeaderFor(bytes, count);
    LimitsOfWidths();
    for attempt := 0 to SequenceLock.READ_ATTEMPTS
      invariant attempt > 0 ==> Load(bytes, Sequence) % 2 != 0
    {
      var before := LoadWord(mem, len, Sequence);
      if before == 0 {
        return;
      }
      if before % 2 != 0 {
        continue;
      }
      var frame := CopyFrame(mem, len, before, count);
      var after := LoadWord(mem, len, Sequence);
      if after == before {
        return Some(frame);
      }
    }
  }

  method LoadWord(mem: array<Byte>, len: nat, f: Field) returns (value: nat)
    requires Offset(f) + Width(f) <= len <= mem.Length
    ensures value == Load(mem[..len], f) && value < Limit(Width(f))
  {
    var cell := mem[..len][Offset(f)..Offset(f) + Width(f)];
    value := Decode(cell);
    DecodeBounded(cell);
  }

  lemma {:induction false} DecodeBounded(bytes: seq<Byte>)
    ensures Decode(bytes) < Limit(|bytes|)
    decreases |bytes|
  {
    if bytes != [] {
      DecodeBounded(bytes[1..]);
    }
  }

  method CopyFrame(mem: array<Byte>, len: nat, sequence: U64, count: nat) returns (frame: Frame)
    requires FrameBytes(count) <= len <= mem.Length
    requires sequence == Load(mem[..len], Sequence)
    ensures |frame.channels| == count && Holds(mem[..len], frame)
  {
    LimitsOfWidths();
    ghost var bytes := mem[..len];
    var publishedNs := LoadWord(mem, len, PublishedNs);
    var steps := LoadWord(mem, len, MidiSteps);
    var transportCount := LoadWord(mem, len, MidiTransportCount);
    var transportLast := LoadWord(mem, len, MidiTransportLast);
    var channels: seq<ChannelLevel> := [];
    for c := 0 to count
      invariant |channels| == c
      invariant forall k :: 0 <= k < c ==> RecordHolds(bytes, k, channels[k])
    {
      var level := CopyRecord(mem, len, c, count);
      channels := channels + [level];
    }
    frame := Frame(sequence, publishedNs, FrameMidi(steps, transportCount, transportLast), channels);
    forall f | InLayout(f, count) && !WrittenOnce(f)
      ensures Offset(f) + Width(f) <= len && Load(bytes, f) == FrameWord(frame, f)
    {
      CellsInside(f, count);
      if f.Peak? || f.Bin? {
        assert RecordHolds(bytes, f.channel, channels[f.channel]);
      }
    }
  }

  /** The record cells of channel `c` hold `level`. */
  ghost predicate RecordHolds(bytes: seq<Byte>, c: nat, level: ChannelLevel) {
    && RecordOffset(c) + CHANNEL_RECORD_BYTES <= |bytes|
    && Load(bytes, Peak(c)) == level.peak
    && forall b :: 0 <= b < BAND_COUNT ==> Load(bytes, Bin(c, b)) == level.bins[b]
  }

  method CopyRecord(mem: array<Byte>, len: nat, c: nat, ghost count: nat) returns (level: ChannelLevel)
    requires c < count && FrameBytes(count) <= len <= mem.Length
    ensures RecordHolds(mem[..len], c, level)
  {
    LimitsOfWidths();
    CellsInside(Peak(c), count);
    var peak := LoadWord(mem, len, Peak(c));
    var bins: seq<U32> := [];
    for b := 0 to BAND_COUNT
      invariant |bins| == b
      invariant forall k :: 0 <= k < b ==>
                  Offset(Bin(c, k)) + 4 <= len && Load(mem[..len], Bin(c, k)) == bins[k]
    {
      CellsInside(Bin(c, b), count);
      var bin := LoadWord(mem, len, Bin(c, b));
      bins := bins + [bin];
    }
    level := Level(peak, bins);
    assert (c + 1) * CHANNEL_RECORD_BYTES <= count * CHANNEL_RECORD_BYTES;
  }

  /** The single writer's view of a mapped region. */
  class Region {
    const mem: array<Byte>
    const channelCount: nat
    const sampleRate: U32
    const midiFlags: U32

    /** The Once fields hold what `new` wrote, the reserved and slack bytes are zero, and no
        publication is half done. */
    ghost predicate Valid()
      reads this, mem
    {
      ValidBytes(mem[..])
    }

    ghost predicate ValidBytes(bytes: seq<Byte>) {
      && HeaderFor(bytes, channelCount)
      && Load(bytes, SampleRate) == sampleRate
      && Load(bytes, MidiFlags) == midiFlags
      && (forall i :: 52 <= i < FRAME_HEADER_BYTES || FrameBytes(channelCount) <= i < |bytes| ==> bytes[i] == 0)
      && Load(bytes, Sequence) % 2 == 0
    }

    lemma ValidAfterFrame(before: seq<Byte>, after: seq<Byte>, frame: Frame)
      requires ValidBytes(before) && |before| == |after| && Kept(before, after)
      requires |frame.channels| == channelCount && Holds(after, frame) && frame.sequence % 2 == 0
      ensures ValidBytes(after)
    {
      assert FrameWord(frame, Sequence) == frame.sequence;
      assert forall f :: WrittenOnce(f) ==> Load(after, f) == Load(before, f);
    }

    /** Maps a zeroed region and writes the fields marked Once. */
    constructor (channelCount: nat, sampleRate: U32, midiConfigured: bool, page: nat)
      requires page > 0
      requires channelCount < WORD32
      ensures Valid() && fresh(mem) && mem.Length == MappedLength(channelCount, page)
      ensures this.channelCount == channelCount && this.sampleRate == sampleRate
      ensures midiFlags == if midiConfigured then MIDI_FLAG_CONFIGURED else 0
      ensures Load(mem[..], Sequence) == 0
    {
      MappingCovers(channelCount, page);
      this.channelCount := channelCount;
      this.sampleRate := sampleRate;
      this.midiFlags := if midiConfigured then MIDI_FLAG_CONFIGURED else 0;
      mem := new Byte[MappedLength(channelCount, page)](i => 0);
      new;
      ZeroedSequence(mem[..]);
      WriteOnceFields();
    }

    method WriteOnceFields()
      requires FrameBytes(channelCount) <= mem.Length && channelCount < WORD32
      modifies mem
      ensures HeaderFor(mem[..], channelCount)
      ensures Load(mem[..], SampleRate) == sampleRate && Load(mem[..], MidiFlags) == midiFlags
      ensures Load(mem[..], Sequence) == old(Load(mem[..], Sequence))
      ensures forall i :: 52 <= i < FRAME_HEADER_BYTES || FrameBytes(channelCount) <= i < mem.Length ==>
                mem[i] == old(mem[i])
    {
      LimitsOfWidths();
      Store(Magic, FRAME_MAGIC);
      Store(LayoutVersion, FRAME_LAYOUT_VERSION);
      Store(ChannelCount, channelCount);
      Store(BandCount, BAND_COUNT);
      Store(SampleRate, sampleRate);
      Store(MidiFlags, midiFlags);
    }

    /** One relaxed word store, framed by the layout. */
    method Store(f: Field, value: nat)
      requires InLayout(f, channelCount) && FrameBytes(channelCount) <= mem.Length && value < Limit(Width(f))
      modifies mem
      ensures Offset(f) + Width(f) <= mem.Length && Load(mem[..], f) == value
      ensures forall g :: InLayout(g, channelCount) && g != f ==>
                Offset(g) + Width(g) <= mem.Length && Load(mem[..], g) == old(Load(mem[..], g))
      ensures forall i :: 52 <= i < FRAME_HEADER_BYTES || FrameBytes(channelCount) <= i < mem.Length ==>
                mem[i] == old(mem[i])
    {
      ghost var before := mem[..];
      StoreWord(mem, f, value, channelCount);
      StoreKeepsOthers(before, mem[..], f, channelCount);
    }

    /** Publishes one frame. A non-finite peak or bin publishes nothing. Otherwise every cell
        the contract rewrites holds the new frame, under the next even sequence. */
    method Publish(channels: seq<ChannelLevel>, midi: FrameMidi, publishedNs: U64) returns (published: bool)
      requires Valid() && |channels| == channelCount
      modifies mem
      ensures Valid()
      ensures published == AllFinite(channels)
      ensures published <==>
                forall c :: 0 <= c < |channels| ==>
                  && channels[c].peak / 0x80_0000 % 256 != 255
                  && forall b :: 0 <= b < 32 ==> channels[c].bins[b] / 0x80_0000 % 256 != 255
      ensures !published ==> mem[..] == old(mem[..])
      ensures published ==>
                Holds(mem[..], Frame((old(Load(mem[..], Sequence)) + 2) % WORD64, publishedNs, midi, channels))
    {
      published := AllFinite(channels);
      if !published {
        return;
      }
      ghost var before := mem[..];
      var stable := LoadWord(mem, mem.Length, Sequence);
      assert mem[..mem.Length] == mem[..];
      NextSequenceIsEven(stable);
      var frame := Frame((stable + 2) % WORD64, publishedNs, midi, channels);
      StoreFrame(frame, (stable + 1) % WORD64, before);
      ValidAfterFrame(before, mem[..], frame);
    }

    /** The stores of one publication: the odd sequence, the payload in order, the even one. */
    method StoreFrame(frame: Frame, odd: U64, ghost before: seq<Byte>)
      requires |frame.channels| == channelCount && FrameBytes(channelCount) <= mem.Length
      requires before == mem[..]
      modifies mem
      ensures Holds(mem[..], frame) && Kept(before, mem[..])
    {
      LimitsOfWidths();
      Store(Sequence, odd);
      StoreNext(frame, PublishedNs, before);
      StoreNext(frame, MidiSteps, before);
      StoreNext(frame, MidiTransportCount, before);
      StoreNext(frame, MidiTransportLast, before);
      var c := 0;
      while c < channelCount
        invariant 0 <= c <= channelCount
        invariant StoredUpTo(frame, 4 + 33 * c) && Kept(before, mem[..])
      {
        StoreRecord(frame, c, before);
        c := c + 1;
      }
      CommitSequence(frame, before);
    }

    /** Stores the next payload word of `frame`. */
    method StoreNext(frame: Frame, f: Field, ghost before: seq<Byte>)
      requires |frame.channels| == channelCount && FrameBytes(channelCount) <= mem.Length == |before|
      requires InLayout(f, channelCount) && !WrittenOnce(f) && !f.Sequence?
      requires StoredUpTo(frame, StoreOrder(f)) && Kept(before, mem[..])
      modifies mem
      ensures StoredUpTo(frame, StoreOrder(f) + 1) && Kept(before, mem[..])
    {
      LimitsOfWidths();
      Store(f, FrameWord(frame, f));
      forall g | InLayout(g, channelCount) && !WrittenOnce(g) && !g.Sequence? && StoreOrder(g) == StoreOrder(f)
        ensures g == f
      {
        StoreOrderIsInjective(f, g, channelCount);
      }
    }

    /** Stores one channel record: the peak, then every bin. */
    method StoreRecord(frame: Frame, c: nat, ghost before: seq<Byte>)
      requires |frame.channels| == channelCount && FrameBytes(channelCount) <= mem.Length == |before|
      requires c < channelCount
      requires StoredUpTo(frame, 4 + 33 * c) && Kept(before, mem[..])
      modifies mem
      ensures StoredUpTo(frame, 4 + 33 * (c + 1)) && Kept(before, mem[..])
    {
      StoreNext(frame, Peak(c), before);
      var b := 0;
      while b < BAND_COUNT
        invariant 0 <= b <= BAND_COUNT
        invariant StoredUpTo(frame, 4 + 33 * c + 1 + b) && Kept(before, mem[..])
      {
        StoreNext(frame, Bin(c, b), before);
        b := b + 1;
      }
    }

    /** The releasing store that makes the sequence even again. */
    method CommitSequence(frame: Frame, ghost before: seq<Byte>)
      requires |frame.channels| == channelCount && FrameBytes(channelCount) <= mem.Length == |before|
      requires StoredUpTo(frame, 4 + 33 * channelCount) && Kept(before, mem[..])
      modifies mem
      ensures Holds(mem[..], frame) && Kept(before, mem[..])
    {
      LimitsOfWidths();
      Store(Sequence, frame.sequence);
    }

    /** The first `k` payload cells, in the order they are stored, hold `frame`. */
    ghost predicate StoredUpTo(frame: Frame, k: nat)
      requires |frame.channels| == channelCount && FrameBytes(channelCount) <= mem.Length
      reads this, mem
    {
      forall f :: InLayout(f, channelCount) && !WrittenOnce(f) && !f.Sequence? && StoreOrder(f) < k ==>
        Offset(f) + Width(f) <= mem.Length && Load(mem[..], f) == FrameWord(frame, f)
    }

    /** The Once fields, the reserved bytes and the slack are as they were. */
    ghost predicate Kept(before: seq<Byte>, after: seq<Byte>)
      requires FrameBytes(channelCount) <= |before| == |after|
    {
      && (forall f :: WrittenOnce(f) ==> Load(after, f) == Load(before, f))
      && (forall i :: 52 <= i < FRAME_HEADER_BYTES || FrameBytes(channelCount) <= i < |before| ==>
            after[i] == before[i])
    }
  }

  lemma StoreOrderIsInjective(f: Field, g: Field, channels: nat)
    requires InLayout(f, channels) && !WrittenOnce(f) && !f.Sequence?
    requires InLayout(g, channels) && !WrittenOnce(g) && !g.Sequence?
    requires StoreOrder(f) == StoreOrder(g)
    ensures f == g
  {
    if (f.Peak? || f.Bin?) && (g.Peak? || g.Bin?) {
      assert f.channel == g.channel;
    }
  }

  lemma NextSequenceIsEven(stable: nat)
    requires stable % 2 == 0
    ensures (stable + 2) % WORD64 % 2 == 0
  {
  }

  lemma ZeroedSequence(bytes: seq<Byte>)
    requires FRAME_HEADER_BYTES <= |bytes| && forall i :: 0 <= i < |bytes| ==> bytes[i] == 0
    ensures Load(bytes, Sequence) == 0
  {
    DecodeZeros(bytes[8..16]);
  }

  lemma {:induction false} DecodeZeros(bytes: seq<Byte>)
    requires forall i :: 0 <= i < |bytes| ==> bytes[i] == 0
    ensures Decode(bytes) == 0
    decreases |bytes|
  {
    if bytes != [] {
      DecodeZeros(bytes[1..]);
    }
  }

  /** `FrameRegion::new`: refuses a channel count that does not fit the header. */
  method NewRegion(channelCount: nat, sampleRate: U32, midiConfigured: bool, page: nat) returns (region: Region?)
    requires page > 0
    ensures region == null <==> channelCount >= WORD32
    ensures region != null ==>
              && fresh(region) && fresh(region.mem) && region.Valid() && region.channelCount == channelCount
              && region.mem.Length == MappedLength(channelCount, page) && Load(region.mem[..], Sequence) == 0
              && Load(region.mem[..], SampleRate) == sampleRate
              && Load(region.mem[..], MidiFlags) == if midiConfigured then 1 else 0
  {
    if channelCount >= WORD32 {
      return null;
    }
    region := new Region(channelCount, sampleRate, midiConfigured, page);
  }

  /** Publishing and then reading in peace gives back exactly what was published, except when
      the sequence wraps to zero, which readers take for an empty region. */
  method PublishThenRead(region: Region, channels: seq<ChannelLevel>, midi: FrameMidi, publishedNs: U64)
    returns (r: Option<Frame>)
    requires region.Valid() && |channels| == region.channelCount && AllFinite(channels)
    modifies region.mem
    ensures var next := (old(Load(region.mem[..], Sequence)) + 2) % WORD64;
            r == if next == 0 then None else Some(Frame(next, publishedNs, midi, channels))
  {
    ghost var next := (Load(region.mem[..], Sequence) + 2) % WORD64;
    var published := region.Publish(channels, midi, publishedNs);
    ghost var expected := Frame(next, publishedNs, midi, channels);
    r := ReadFrame(region.mem, region.mem.Length);
    assert region.mem[..region.mem.Length] == region.mem[..];
    assert FrameWord(expected, Sequence) == next;
    if r.Some? {
      HoldsDetermines(region.mem[..], r.value, expected);
    }
  }

  /** The cells determine the frame. */
  lemma HoldsDetermines(mem: seq<Byte>, a: Frame, b: Frame)
    requires Holds(mem, a) && Holds(mem, b) && |a.channels| == |b.channels|
    ensures a == b
  {
    forall f | InLayout(f, |a.channels|) && !WrittenOnce(f)
      ensures FrameWord(a, f) == FrameWord(b, f)
    {
      assert Load(mem, f) == FrameWord(a, f);
    }
    CellsDetermineFrame(a, b);
  }

  lemma CellsDetermineFrame(a: Frame, b: Frame)
    requires |a.channels| == |b.channels|
    requires forall f :: InLayout(f, |a.channels|) && !WrittenOnce(f) ==> FrameWord(a, f) == FrameWord(b, f)
    ensures a == b
  {
    assert FrameWord(a, Sequence) == FrameWord(b, Sequence);
    assert FrameWord(a, PublishedNs) == FrameWord(b, PublishedNs);
    assert FrameWord(a, MidiSteps) == FrameWord(b, MidiSteps);
    assert FrameWord(a, MidiTransportCount) == FrameWord(b, MidiTransportCount);
    assert FrameWord(a, MidiTransportLast) == FrameWord(b, MidiTransportLast);
    forall c | 0 <= c < |a.channels|
      ensures a.channels[c] == b.channels[c]
    {
      assert FrameWord(a, Peak(c)) == FrameWord(b, Peak(c));
      forall i | 0 <= i < BAND_COUNT
        ensures a.channels[c].bins[i] == b.channels[c].bins[i]
      {
        assert FrameWord(a, Bin(c, i)) == FrameWord(b, Bin(c, i));
      }
    }
  }

  // ---------- The words the sequence lock copies ----------

  function PayloadLength(channels: nat): nat {
    4 + 33 * channels
  }

  /** The cell stored, and copied, at position `k`. */
  function CellAt(k: nat): Field {
    if k == 0 then PublishedNs
    else if k == 1 then MidiSteps
    else if k == 2 then MidiTransportCount
    else if k == 3 then MidiTransportLast
    else if (k - 4) % 33 == 0 then Peak((k - 4) / 33)
    else Bin((k - 4) / 33, (k - 4) % 33 - 1)
  }

  /** The positions below `PayloadLength` are exactly the payload cells. */
  lemma CellsAreEnumerated(f: Field, k: nat, channels: nat)
    ensures k < PayloadLength(channels) ==>
              InLayout(CellAt(k), channels) && !WrittenOnce(CellAt(k)) && !CellAt(k).Sequence? && StoreOrder(CellAt(k)) == k
    ensures InLayout(f, channels) && !WrittenOnce(f) && !f.Sequence? ==>
              StoreOrder(f) < PayloadLength(channels) && CellAt(StoreOrder(f)) == f
  {
  }

  /** The payload of a frame as the sequence of words one publication stores. */
  function PayloadWords(frame: Frame): (words: seq<nat>)
    ensures |words| == PayloadLength(|frame.channels|)
  {
    seq(PayloadLength(|frame.channels|), k requires 0 <= k < PayloadLength(|frame.channels|) =>
      (CellsAreEnumerated(Sequence, k, |frame.channels|); FrameWord(frame, CellAt(k))))
  }

  /** A copy that equals a publication word for word is that whole frame: its time, its MIDI
      state and all of its channel records. */
  lemma PayloadWordsDetermineFrame(a: Frame, b: Frame)
    requires |a.channels| == |b.channels| && a.sequence == b.sequence
    requires PayloadWords(a) == PayloadWords(b)
    ensures a == b
  {
    forall f | InLayout(f, |a.channels|) && !WrittenOnce(f)
      ensures FrameWord(a, f) == FrameWord(b, f)
    {
      if !f.Sequence? {
        CellsAreEnumerated(f, 0, |a.channels|);
        assert PayloadWords(a)[StoreOrder(f)] == PayloadWords(b)[StoreOrder(f)];
      }
    }
    CellsDetermineFrame(a, b);
  }
}
