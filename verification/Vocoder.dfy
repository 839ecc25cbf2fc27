/** The filter bank of one channel (src/dsp/vocoder.rs).

    Every statement here holds for arbitrary sample arithmetic: `add`, `sub` and `mul`
    may round, flush denormals or overflow in any way. */
module Vocoder {
  import opened Floats
  import opened Arithmetic
  import opened Words

  /** How the machine adds, subtracts and multiplies samples. */
  datatype Machine = Machine(add: (Float, Float) -> Float, sub: (Float, Float) -> Float, mul: (Float, Float) -> Float)

  datatype Coefficients = Coefficients(a1: Float, a2: Float, b0: Float, b1: Float, b2: Float)

  /** Everything about a band that does not change while it runs. */
  datatype Tuning = Tuning(machine: Machine, coefficients: Coefficients, attack: Float, release: Float)

  /** Direct form 1 state. */
  datatype Filter = Filter(x1: Float, x2: Float, y1: Float, y2: Float)

  const SILENT: Filter := Filter(ZERO, ZERO, ZERO, ZERO)

  /** One band: its filter, its envelope follower and its published bin. */
  datatype Band = Band(filter: Filter, envelope: Float, bin: Float)

  const FRESH: Band := Band(SILENT, ZERO, ZERO)

  function Output(t: Tuning, f: Filter, x: Float): Float {
    var m, c := t.machine, t.coefficients;
    var forward := m.add(m.add(m.mul(c.b0, x), m.mul(c.b1, f.x1)), m.mul(c.b2, f.x2));
    m.sub(m.sub(forward, m.mul(c.a1, f.y1)), m.mul(c.a2, f.y2))
  }

  function Shift(f: Filter, x: Float, y: Float): Filter {
    Filter(x, f.x1, y, f.y1)
  }

  /** `EnvelopeFollower::process_sample`. */
  function Follow(t: Tuning, envelope: Float, rectified: Float): Float {
    var m := t.machine;
    var coefficient := if Greater(rectified, envelope) then t.attack else t.release;
    m.add(envelope, m.mul(coefficient, m.sub(rectified, envelope)))
  }

  // ---------- One band on its own ----------

  /** The band's next state if nothing overflows. */
  function Advance(t: Tuning, b: Band, x: Float): Band {
    var y := Output(t, b.filter, x);
    var e := Follow(t, b.envelope, Abs(y));
    Band(Shift(b.filter, x, y), e, e)
  }

  predicate Overflows(t: Tuning, b: Band, x: Float) {
    !Output(t, b.filter, x).IsFinite() || !Advance(t, b, x).bin.IsFinite()
  }

  function BandStep(t: Tuning, b: Band, x: Float): Band {
    if !x.IsFinite() then b
    else if Overflows(t, b, x) then FRESH
    else Advance(t, b, x)
  }

  function BandFold(t: Tuning, b: Band, samples: seq<Float>): Band
    decreases |samples|
  {
    if |samples| == 0 then b else BandFold(t, BandStep(t, b, samples[0]), samples[1..])
  }

  lemma FoldFirst(t: Tuning, b: Band, x: Float, rest: seq<Float>)
    ensures BandFold(t, b, [x] + rest) == BandFold(t, BandStep(t, b, x), rest)
  {
    assert ([x] + rest)[1..] == rest;
  }

  lemma {:induction false} FoldConcat(t: Tuning, b: Band, s: seq<Float>, rest: seq<Float>)
    ensures BandFold(t, b, s + rest) == BandFold(t, BandFold(t, b, s), rest)
    decreases |s|
  {
    if |s| == 0 {
      assert s + rest == rest;
    } else {
      assert (s + rest)[1..] == s[1..] + rest;
      FoldConcat(t, BandStep(t, b, s[0]), s[1..], rest);
    }
  }

  /** Every bin is finite and is its envelope's state, and the filter holds finite values. */
  predicate Sound(b: Band) {
    && b.bin.IsFinite() && b.bin == b.envelope
    && b.filter.x1.IsFinite() && b.filter.x2.IsFinite() && b.filter.y1.IsFinite() && b.filter.y2.IsFinite()
  }

  lemma {:induction false} FoldStaysSound(t: Tuning, b: Band, samples: seq<Float>)
    requires Sound(b)
    ensures Sound(BandFold(t, b, samples))
    decreases |samples|
  {
    if |samples| > 0 {
      FoldStaysSound(t, BandStep(t, b, samples[0]), samples[1..]);
    }
  }

  function FiniteOnly(samples: seq<Float>): seq<Float> {
    if |samples| == 0 then []
    else (if samples[0].IsFinite() then [samples[0]] else []) + FiniteOnly(samples[1..])
  }

  /** Non-finite samples change nothing. */
  lemma {:induction false} NonFiniteSamplesAreSkipped(t: Tuning, b: Band, samples: seq<Float>)
    ensures BandFold(t, b, samples) == BandFold(t, b, FiniteOnly(samples))
    decreases |samples|
  {
    if |samples| > 0 {
      NonFiniteSamplesAreSkipped(t, BandStep(t, b, samples[0]), samples[1..]);
      if samples[0].IsFinite() {
        assert FiniteOnly(samples)[1..] == FiniteOnly(samples[1..]);
      } else {
        assert FiniteOnly(samples) == FiniteOnly(samples[1..]);
      }
    }
  }

  /** A band that overflows goes on exactly like a fresh band fed the remaining samples. */
  lemma OverflowRecovers(t: Tuning, b: Band, before: seq<Float>, x: Float, after: seq<Float>)
    requires x.IsFinite() && Overflows(t, BandFold(t, b, before), x)
    ensures BandFold(t, b, before + [x] + after) == BandFold(t, FRESH, after)
  {
    FoldConcat(t, b, before + [x], after);
    FoldConcat(t, b, before, [x]);
    assert [x][1..] == [];
    assert BandFold(t, BandFold(t, b, before), [x]) == FRESH;
  }

  // ---------- De-interleaving ----------

  /** The samples at `start`, `start + stride`, and so on. */
  function Strided(buffer: seq<Float>, start: nat, stride: nat): seq<Float>
    requires stride > 0
    decreases |buffer| - start
  {
    if start >= |buffer| then [] else [buffer[start]] + Strided(buffer, start + stride, stride)
  }

  /** Position `k` of a stride. */
  function At(start: nat, k: nat, stride: nat): nat
    decreases k
  {
    if k == 0 then start else At(start + stride, k - 1, stride)
  }

  lemma {:induction false} AtIsProduct(start: nat, k: nat, stride: nat)
    ensures k * stride >= 0 && At(start, k, stride) == start + k * stride
    decreases k
  {
    if k > 0 {
      LessOne(k, stride);
      AtIsProduct(start + stride, k - 1, stride);
    }
  }

  lemma {:induction false} AtIsLater(start: nat, k: nat, stride: nat)
    ensures At(start, k, stride) >= start
    decreases k
  {
    if k > 0 {
      AtIsLater(start + stride, k - 1, stride);
    }
  }

  lemma {:induction false} StridedIndex(buffer: seq<Float>, start: nat, stride: nat, k: nat)
    requires stride > 0 && k < |Strided(buffer, start, stride)|
    ensures At(start, k, stride) < |buffer| && Strided(buffer, start, stride)[k] == buffer[At(start, k, stride)]
    decreases k
  {
    if k > 0 {
      assert Strided(buffer, start, stride)[1..] == Strided(buffer, start + stride, stride);
      StridedIndex(buffer, start + stride, stride, k - 1);
    }
  }

  lemma {:induction false} StridedLength(buffer: seq<Float>, start: nat, c: nat, ch: nat, left: nat)
    requires ch < c && At(start, left, c) == |buffer| + ch
    ensures |Strided(buffer, start, c)| == left
    decreases left
  {
    if left > 0 {
      AtIsLater(start + c, left - 1, c);
      StridedLength(buffer, start + c, c, ch, left - 1);
    }
  }

  /** In a buffer of `n` whole frames, channel `ch` holds one sample of each frame, in order;
      no other channel's sample occurs. */
  lemma StridedAt(buffer: seq<Float>, n: nat, c: nat, ch: nat, k: nat)
    requires c > 0 && |buffer| == n * c && ch < c && k < n
    ensures |Strided(buffer, ch, c)| == n
    ensures 0 <= k * c + ch < |buffer| && Strided(buffer, ch, c)[k] == buffer[k * c + ch]
  {
    RowIndex(n, c, k, ch);
    AtIsProduct(ch, n, c);
    StridedLength(buffer, ch, c, ch, n);
    AtIsProduct(ch, k, c);
    StridedIndex(buffer, ch, c, k);
  }

  /** Cutting a stream after a whole frame cuts every channel at the same place. */
  lemma StridedConcat(a: seq<Float>, b: seq<Float>, c: nat, ch: nat, n: nat)
    requires c > 0 && ch < c && |a| == n * c
    ensures Strided(a + b, ch, c) == Strided(a, ch, c) + Strided(b, ch, c)
  {
    AtIsProduct(ch, n, c);
    StridedConcatFrom(a, b, c, ch, ch, n);
  }

  lemma {:induction false} StridedConcatFrom(a: seq<Float>, b: seq<Float>, c: nat, ch: nat, start: nat, left: nat)
    requires ch < c && At(start, left, c) == |a| + ch
    ensures Strided(a + b, start, c) == Strided(a, start, c) + Strided(b, ch, c)
    decreases left
  {
    if left == 0 {
      StridedSuffix(a, b, ch, c);
      assert Strided(a, start, c) == [];
    } else {
      AtIsLater(start + c, left - 1, c);
      StridedConcatFrom(a, b, c, ch, start + c, left - 1);
      assert (a + b)[start] == a[start];
    }
  }

  lemma {:induction false} StridedSuffix(a: seq<Float>, b: seq<Float>, start: nat, stride: nat)
    requires stride > 0
    ensures Strided(a + b, |a| + start, stride) == Strided(b, start, stride)
    decreases |b| - start
  {
    if start < |b| {
      StridedSuffix(a, b, start + stride, stride);
    }
  }

  // ---------- Chunking is invisible ----------

  function Joined(chunks: seq<seq<Float>>): seq<Float> {
    if |chunks| == 0 then [] else chunks[0] + Joined(chunks[1..])
  }

  /** The band after analysing channel `ch` of each chunk in turn. */
  function ChunkFold(t: Tuning, b: Band, chunks: seq<seq<Float>>, ch: nat, c: nat): Band
    requires c > 0
    decreases |chunks|
  {
    if |chunks| == 0 then b else ChunkFold(t, BandFold(t, b, Strided(chunks[0], ch, c)), chunks[1..], ch, c)
  }

  ghost predicate WholeFrames(chunk: seq<Float>, c: nat) {
    exists n: nat :: |chunk| == Product(n, c)
  }

  function Product(n: nat, c: nat): nat {
    n * c
  }

  /** However a stream is split into whole-frame chunks, the band ends in the state of a single
      fold over that channel's samples. */
  lemma {:induction false} ChunkingIsInvisible(t: Tuning, b: Band, chunks: seq<seq<Float>>, ch: nat, c: nat)
    requires c > 0 && ch < c && forall k :: 0 <= k < |chunks| ==> WholeFrames(chunks[k], c)
    ensures ChunkFold(t, b, chunks, ch, c) == BandFold(t, b, Strided(Joined(chunks), ch, c))
    decreases |chunks|
  {
    if |chunks| > 0 {
      var n: nat :| |chunks[0]| == Product(n, c);
      ChunkingIsInvisible(t, BandFold(t, b, Strided(chunks[0], ch, c)), chunks[1..], ch, c);
      StridedConcat(chunks[0], Joined(chunks[1..]), c, ch, n);
      FoldConcat(t, b, Strided(chunks[0], ch, c), Strided(Joined(chunks[1..]), ch, c));
    }
  }

  // ---------- The analyser, sample by sample over all bands ----------

  class VocoderAnalyser {
    const tunings: seq<Tuning>
    const filters: array<Filter>
    const envelopes: array<Float>
    const bins: array<Float>

    ghost predicate Valid() {
      && |tunings| == BAND_COUNT
      && filters.Length == envelopes.Length == bins.Length == BAND_COUNT
      && envelopes != bins
    }

    ghost function BandAt(b: nat): Band
      requires Valid() && b < BAND_COUNT
      reads filters, envelopes, bins
    {
      Band(filters[b], envelopes[b], bins[b])
    }

    constructor (tunings: seq<Tuning>)
      requires |tunings| == BAND_COUNT
      ensures Valid() && this.tunings == tunings && fresh(filters) && fresh(envelopes) && fresh(bins)
      ensures forall b :: 0 <= b < BAND_COUNT ==> BandAt(b) == FRESH
    {
      this.tunings := tunings;
      filters := new Filter[BAND_COUNT](i => SILENT);
      envelopes := new Float[BAND_COUNT](i => ZERO);
      bins := new Float[BAND_COUNT](i => ZERO);
    }

    /** Feeds one channel of an interleaved buffer to every band. The loop runs sample by sample
        over all bands; each band ends where its own fold over the channel's samples ends. */
    method ProcessInterleaved(buffer: seq<Float>, channel: nat, total: nat)
      requires Valid() && total > 0
      modifies filters, envelopes, bins
      ensures forall b :: 0 <= b < BAND_COUNT ==>
                BandAt(b) == BandFold(tunings[b], old(BandAt(b)), Strided(buffer, channel, total))
    {
      var i := channel;
      while i < |buffer|
        invariant forall b :: 0 <= b < BAND_COUNT ==>
                    BandFold(tunings[b], BandAt(b), Strided(buffer, i, total)) ==
                    BandFold(tunings[b], old(BandAt(b)), Strided(buffer, channel, total))
        decreases |buffer| - i
      {
        label before:
        ghost var rest := Strided(buffer, i + total, total);
        Absorb(buffer[i]);
        forall b | 0 <= b < BAND_COUNT
          ensures BandFold(tunings[b], BandAt(b), rest) ==
                  BandFold(tunings[b], old(BandAt(b)), Strided(buffer, channel, total))
        {
          FoldFirst(tunings[b], old@before(BandAt(b)), buffer[i], rest);
        }
        i := i + total;
      }
    }

    /** A non-finite sample leaves every band alone. */
    method Absorb(x: Float)
      requires Valid()
      modifies filters, envelopes, bins
      ensures forall b :: 0 <= b < BAND_COUNT ==> BandAt(b) == BandStep(tunings[b], old(BandAt(b)), x)
    {
      if x.IsFinite() {
        ProcessSample(x);
      }
    }

    method ProcessSample(x: Float)
      requires Valid() && x.IsFinite()
      modifies filters, envelopes, bins
      ensures forall b :: 0 <= b < BAND_COUNT ==> BandAt(b) == BandStep(tunings[b], old(BandAt(b)), x)
    {
      var b := 0;
      while b < BAND_COUNT
        invariant 0 <= b <= BAND_COUNT
        invariant forall k :: 0 <= k < b ==> BandAt(k) == BandStep(tunings[k], old(BandAt(k)), x)
        invariant forall k :: b <= k < BAND_COUNT ==> BandAt(k) == old(BandAt(k))
      {
        ProcessBand(b, x);
        b := b + 1;
      }
    }

    /** Runs one filter and its follower; a non-finite result clears this band only. */
    method ProcessBand(b: nat, x: Float)
      requires Valid() && b < BAND_COUNT && x.IsFinite()
      modifies filters, envelopes, bins
      ensures BandAt(b) == BandStep(tunings[b], old(BandAt(b)), x)
      ensures forall k :: 0 <= k < BAND_COUNT && k != b ==> BandAt(k) == old(BandAt(k))
    {
      var t := tunings[b];
      var filtered := Output(t, filters[b], x);
      filters[b] := Shift(filters[b], x, filtered);
      if !filtered.IsFinite() {
        ClearBand(b);
        return;
      }
      envelopes[b] := Follow(t, envelopes[b], Abs(filtered));
      bins[b] := envelopes[b];
      if !bins[b].IsFinite() {
        ClearBand(b);
      }
    }

    method ClearBand(b: nat)
      requires Valid() && b < BAND_COUNT
      modifies filters, envelopes, bins
      ensures BandAt(b) == FRESH
      ensures forall k :: 0 <= k < BAND_COUNT && k != b ==> BandAt(k) == old(BandAt(k))
    {
      filters[b] := SILENT;
      envelopes[b] := ZERO;
      bins[b] := ZERO;
    }

    method Reset()
      requires Valid()
      modifies filters, envelopes, bins
      ensures forall b :: 0 <= b < BAND_COUNT ==> BandAt(b) == FRESH
    {
      var b := 0;
      while b < BAND_COUNT
        invariant 0 <= b <= BAND_COUNT
        invariant forall k :: 0 <= k < b ==> BandAt(k) == FRESH
      {
        ClearBand(b);
        b := b + 1;
      }
    }
  }

  /** From construction on, whatever is fed in whatever chunks, every bin is finite and equals its
      envelope. */
  lemma BinsStaySound(t: Tuning, chunks: seq<seq<Float>>, ch: nat, c: nat)
    requires c > 0 && ch < c && forall k :: 0 <= k < |chunks| ==> WholeFrames(chunks[k], c)
    ensures Sound(ChunkFold(t, FRESH, chunks, ch, c))
  {
    ChunkingIsInvisible(t, FRESH, chunks, ch, c);
    FoldStaysSound(t, FRESH, Strided(Joined(chunks), ch, c));
  }
}
