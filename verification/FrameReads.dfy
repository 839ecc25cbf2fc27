/** The sequence lock and the byte layout together: what a reader's copy means. */
module FrameReads {
  import L = SequenceLock
  import R = FrameRegion

  /** The writer published exactly these frames, each of `channels` channels. */
  ghost predicate Published(history: seq<L.Words>, frames: seq<R.Frame>, channels: nat) {
    && |history| == |frames|
    && forall k :: 0 <= k < |frames| ==>
         |frames[k].channels| == channels && history[k] == R.PayloadWords(frames[k])
  }

  /** In every interleaving with fewer than 2^63 publications, the frame a reader decodes from
      an accepted copy is one published frame in full, under twice its publication number, and
      it is at least as new as every publication completed before the call. */
  lemma DecodedFrameWasPublished(channels: nat, readers: nat, run: seq<L.Event>, frames: seq<R.Frame>,
                                 who: nat, call: nat, decoded: R.Frame)
    requires L.ValidRun(L.Initial(R.PayloadLength(channels), readers), run)
    requires var s := L.Final(L.Initial(R.PayloadLength(channels), readers), run);
             && Published(s.history, frames, channels)
             && 2 * |s.history| + 1 < L.SEQUENCE_WRAP
             && who < |s.readers| && call < |s.readers[who].log|
             && var r := s.readers[who].log[call];
                && r.outcome.Frame? && |decoded.channels| == channels
                && r.outcome.sequence == decoded.sequence && r.outcome.words == R.PayloadWords(decoded)
    ensures var s := L.Final(L.Initial(R.PayloadLength(channels), readers), run);
            var k := decoded.sequence / 2;
            && decoded.sequence == 2 * k && 1 <= k <= |frames| && s.readers[who].log[call].begun <= k
            && decoded == frames[k - 1].(sequence := decoded.sequence)
  {
    L.FramesOfShortRuns(R.PayloadLength(channels), readers, run, who, call);
    MatchingFrame(decoded, frames[decoded.sequence / 2 - 1], channels);
  }

  /** Frames with the same payload words differ at most in their sequence. */
  lemma MatchingFrame(decoded: R.Frame, frame: R.Frame, channels: nat)
    requires |decoded.channels| == |frame.channels| == channels && R.PayloadWords(decoded) == R.PayloadWords(frame)
    ensures decoded == frame.(sequence := decoded.sequence)
  {
    var original := frame.(sequence := decoded.sequence);
    forall i | 0 <= i < R.PayloadLength(channels)
      ensures R.PayloadWords(original)[i] == R.PayloadWords(frame)[i]
    {
      R.CellsAreEnumerated(R.Sequence, i, channels);
    }
    assert R.PayloadWords(original) == R.PayloadWords(frame);
    R.PayloadWordsDetermineFrame(decoded, original);
  }

  /** The bound on publications is exact for every region: two frames of any channel count that
      differ in their time and in anything else leave a reader with one frame's time and the
      other's MIDI and channels, which nobody published. */
  lemma TornFrameAfterFullWrap(channels: nat, a: R.Frame, b: R.Frame, half: nat)
    returns (run: seq<L.Event>, torn: R.Frame)
    requires 2 * half == L.SEQUENCE_WRAP && |a.channels| == |b.channels| == channels
    requires a.publishedNs != b.publishedNs && (a.midi != b.midi || a.channels != b.channels)
    ensures L.ValidRun(L.Initial(R.PayloadLength(channels), 1), run)
    ensures torn == b.(sequence := 2, publishedNs := a.publishedNs)
    ensures var s := L.Final(L.Initial(R.PayloadLength(channels), 1), run);
            && Published(s.history, [a] + seq(half, i => b), channels)
            && |s.readers| == 1 && |s.readers[0].log| == 1
            && s.readers[0].log[0].outcome == L.Frame(2, R.PayloadWords(torn))
            && R.PayloadWords(torn) !in s.history
  {
    torn := b.(sequence := 2, publishedNs := a.publishedNs);
    WordsDiffer(a, b, channels);
    TornWords(a, b, torn, channels);
    run := L.TornAfterFullWrap(R.PayloadWords(a), R.PayloadWords(b), half);
  }

  lemma WordsDiffer(a: R.Frame, b: R.Frame, channels: nat)
    requires |a.channels| == |b.channels| == channels
    requires a.publishedNs != b.publishedNs && (a.midi != b.midi || a.channels != b.channels)
    ensures R.PayloadWords(a)[0] != R.PayloadWords(b)[0] && R.PayloadWords(a)[1..] != R.PayloadWords(b)[1..]
  {
    var a' := a.(sequence := b.sequence, publishedNs := b.publishedNs);
    TornWords(b, a, a', channels);
    if R.PayloadWords(a)[1..] == R.PayloadWords(b)[1..] {
      assert R.PayloadWords(b) == [R.PayloadWords(b)[0]] + R.PayloadWords(b)[1..];
      R.PayloadWordsDetermineFrame(a', b);
    }
  }

  /** The time is the first payload word; every other word is independent of it. */
  lemma TornWords(a: R.Frame, b: R.Frame, torn: R.Frame, channels: nat)
    requires |a.channels| == |b.channels| == channels
    requires torn == b.(sequence := torn.sequence, publishedNs := a.publishedNs)
    ensures R.PayloadWords(torn) == [R.PayloadWords(a)[0]] + R.PayloadWords(b)[1..]
  {
    forall i | 1 <= i < R.PayloadLength(channels)
      ensures R.PayloadWords(torn)[i] == R.PayloadWords(b)[i]
    {
      R.CellsAreEnumerated(R.Sequence, i, channels);
      assert !R.CellAt(i).PublishedNs?;
    }
  }
}
