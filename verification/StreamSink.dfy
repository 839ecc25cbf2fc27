/** The capture callback's sink with a quiet consumer (src/managers/audio.rs). */
module StreamSink {
  import opened Floats
  import opened AudioStream
  import opened Arithmetic

  /** A bounded SPSC ring. */
  class Ring {
    const capacity: nat
    var items: seq<Float>

    predicate Valid()
      reads this
    {
      |items| <= capacity
    }

    constructor (capacity: nat)
      ensures Valid() && this.capacity == capacity && items == []
    {
      this.capacity := capacity;
      items := [];
    }

    function VacantLen(): nat
      requires Valid()
      reads this
    {
      capacity - |items|
    }

    /** Pushes as much of `data` as fits. */
    method PushSlice(data: seq<Float>)
      requires Valid()
      modifies this
      ensures Valid() && items == old(items) + data[..Min(|data|, old(VacantLen()))]
    {
      items := items + data[..Min(|data|, VacantLen())];
    }

    method TryPush(sample: Float) returns (pushed: bool)
      requires Valid()
      modifies this
      ensures Valid() && pushed == (old(VacantLen()) > 0)
      ensures items == if pushed then old(items) + [sample] else old(items)
    {
      pushed := VacantLen() > 0;
      if pushed {
        items := items + [sample];
      }
    }

    /** Pops as much as fits into `room` samples. */
    method PopSlice(room: nat) returns (popped: seq<Float>)
      requires Valid()
      modifies this
      ensures Valid() && popped == old(items)[..Min(|old(items)|, room)]
      ensures items == old(items)[|popped|..]
    {
      var n := Min(|items|, room);
      popped := items[..n];
      items := items[n..];
    }
  }

  datatype ChannelMode = All | Selected(indices: seq<nat>)

  function Selection(mode: ChannelMode, hw: nat): seq<nat> {
    match mode
    case All => Identity(hw)
    case Selected(indices) => indices
  }

  /** The whole frames of `data`; a trailing partial frame is left out. */
  function Chunks(data: seq<Float>, hw: nat): (frames: seq<Frame>)
    requires hw > 0
    ensures |frames| == |data| / hw && FramesOf(frames, hw)
  {
    seq(|data| / hw, k requires 0 <= k < |data| / hw => Chunk(data, hw, k))
  }

  function Chunk(data: seq<Float>, hw: nat, k: nat): (frame: Frame)
    requires hw > 0 && k < |data| / hw
    ensures |frame| == hw
  {
    ChunkInside(|data|, hw, k);
    data[k * hw..k * hw + hw]
  }

  lemma ChunkInside(len: nat, hw: nat, k: nat)
    requires hw > 0 && k < len / hw
    ensures 0 <= k * hw <= k * hw + hw <= len
  {
    Euclid(len, hw);
    MulMono(k + 1, len / hw, hw);
    assert (k + 1) * hw == k * hw + hw;
  }

  function SelectAll(frames: seq<Frame>, hw: nat, selection: seq<nat>): (out: seq<Frame>)
    requires ValidSelection(selection, hw) && FramesOf(frames, hw)
    ensures |out| == |frames| && FramesOf(out, |selection|)
  {
    seq(|frames|, k requires 0 <= k < |frames| => Select(frames[k], selection))
  }

  /** How many of the offered frames fit into the vacancy. */
  function Fitting(frames: nat, vacant: nat, perFrame: nat): (m: nat)
    requires perFrame > 0
    ensures m <= frames
  {
    Min(frames, vacant / perFrame)
  }

  lemma {:induction false} ChunksFlatten(data: seq<Float>, hw: nat, m: nat)
    requires hw > 0 && m <= |data| / hw
    ensures 0 <= m * hw <= |data| && Flatten(Chunks(data, hw)[..m]) == data[..m * hw]
    decreases m
  {
    Euclid(|data|, hw);
    MulMono(m, |data| / hw, hw);
    if m > 0 {
      ChunksFlatten(data, hw, m - 1);
      ChunkInside(|data|, hw, m - 1);
      assert m * hw == (m - 1) * hw + hw;
      var frames := Chunks(data, hw);
      assert frames[..m][..m - 1] == frames[..m - 1];
      assert frames[..m][m - 1] == data[(m - 1) * hw..m * hw];
      assert data[..(m - 1) * hw] + data[(m - 1) * hw..m * hw] == data[..m * hw];
    }
  }

  lemma SelectAllIdentity(frames: seq<Frame>, hw: nat)
    requires hw > 0 && FramesOf(frames, hw)
    ensures ValidSelection(Identity(hw), hw) && SelectAll(frames, hw, Identity(hw)) == frames
  {
    forall k | 0 <= k < |frames|
      ensures ValidSelection(Identity(hw), hw) && Select(frames[k], Identity(hw)) == frames[k]
    {
      SelectIdentity(frames[k]);
    }
  }

  /** Admitting frames until one does not fit admits exactly as many as fit. */
  lemma AdmittedAreFitting(frames: nat, vacant: nat, perFrame: nat, j: nat)
    requires perFrame > 0 && j <= frames && 0 <= j * perFrame <= vacant
    requires j == frames || vacant - j * perFrame < perFrame
    ensures j == Fitting(frames, vacant, perFrame)
  {
    Euclid(vacant, perFrame);
    if vacant - j * perFrame < perFrame {
      UniqueQuotient(vacant, perFrame, j, vacant - j * perFrame);
    } else {
      QuotientAtLeast(vacant, perFrame, j);
    }
  }

  lemma SelectNext(frames: seq<Frame>, f: nat, hw: nat, selection: seq<nat>)
    requires ValidSelection(selection, hw) && FramesOf(frames, hw) && f < |frames|
    ensures Flatten(SelectAll(frames[..f + 1], hw, selection)) ==
            Flatten(SelectAll(frames[..f], hw, selection)) + Select(frames[f], selection)
  {
    FlattenOne(SelectAll(frames[..f], hw, selection), Select(frames[f], selection));
    assert SelectAll(frames[..f + 1], hw, selection) ==
           SelectAll(frames[..f], hw, selection) + [Select(frames[f], selection)];
  }

  class Sink {
    const tx: Ring
    const mode: ChannelMode

    constructor (tx: Ring, mode: ChannelMode)
      ensures this.tx == tx && this.mode == mode
    {
      this.tx := tx;
      this.mode := mode;
    }

    /** Pushes one callback's data. Both modes commit the same thing: the selected channels of
        the first whole frames that fit, and nothing of any other frame. */
    method Push(data: seq<Float>, hw: nat) returns (dropped: bool)
      requires tx.Valid() && hw > 0 && ValidSelection(Selection(mode, hw), hw)
      modifies tx
      ensures tx.Valid()
      ensures var selection := Selection(mode, hw);
              var frames := Chunks(data, hw);
              var m := Fitting(|frames|, old(tx.VacantLen()), |selection|);
              && tx.items == old(tx.items) + Flatten(SelectAll(frames[..m], hw, selection))
              && dropped == (m < |frames|)
    {
      match mode
      case All => dropped := PushWhole(data, hw);
      case Selected(indices) => dropped := PushSelected(data, hw, indices);
    }

    method PushWhole(data: seq<Float>, hw: nat) returns (dropped: bool)
      requires tx.Valid() && hw > 0
      modifies tx
      ensures tx.Valid() && ValidSelection(Identity(hw), hw)
      ensures var frames := Chunks(data, hw);
              var m := Fitting(|frames|, old(tx.VacantLen()), hw);
              && tx.items == old(tx.items) + Flatten(SelectAll(frames[..m], hw, Identity(hw)))
              && dropped == (m < |frames|)
    {
      var len := |data| / hw * hw;
      var writable := tx.VacantLen() / hw * hw;
      var n := Min(len, writable);
      ghost var a, b := |data| / hw, tx.VacantLen() / hw;
      Euclid(|data|, hw);
      Euclid(tx.VacantLen(), hw);
      CompareProducts(a, b, hw);
      ChunksFlatten(data, hw, Min(a, b));
      SelectAllIdentity(Chunks(data, hw)[..Min(a, b)], hw);
      assert data[..n][..n] == data[..n];
      tx.PushSlice(data[..n]);
      dropped := n < len;
    }

    method PushSelected(data: seq<Float>, hw: nat, indices: seq<nat>) returns (dropped: bool)
      requires tx.Valid() && hw > 0 && ValidSelection(indices, hw)
      modifies tx
      ensures tx.Valid()
      ensures var frames := Chunks(data, hw);
              var m := Fitting(|frames|, old(tx.VacantLen()), |indices|);
              && tx.items == old(tx.items) + Flatten(SelectAll(frames[..m], hw, indices))
              && dropped == (m < |frames|)
    {
      var frames := Chunks(data, hw);
      ghost var j;
      dropped, j := PushFrames(frames, hw, indices);
      AdmittedAreFitting(|frames|, old(tx.VacantLen()), |indices|, j);
    }

    /** The per-frame loop. A quiet consumer frees nothing, so a frame that does not fit is
        followed only by frames that do not fit. */
    method PushFrames(frames: seq<Frame>, hw: nat, indices: seq<nat>) returns (dropped: bool, ghost j: nat)
      requires tx.Valid() && hw > 0 && ValidSelection(indices, hw) && FramesOf(frames, hw)
      modifies tx
      ensures tx.Valid() && j <= |frames| && dropped == (j < |frames|)
      ensures tx.items == old(tx.items) + Flatten(SelectAll(frames[..j], hw, indices))
      ensures tx.VacantLen() == old(tx.VacantLen()) - j * |indices|
      ensures j < |frames| ==> tx.VacantLen() < |indices|
    {
      dropped, j := false, 0;
      var f := 0;
      while f < |frames|
        invariant 0 <= j <= f <= |frames| && tx.Valid()
        invariant tx.items == old(tx.items) + Flatten(SelectAll(frames[..j], hw, indices))
        invariant if dropped then j < f && tx.VacantLen() < |indices| else j == f
      {
        if tx.VacantLen() < |indices| {
          dropped := true;
        } else {
          PushFrame(frames[f], hw, indices);
          SelectNext(frames, f, hw, indices);
          j := j + 1;
        }
        f := f + 1;
      }
      FlattenLength(SelectAll(frames[..j], hw, indices), |indices|);
    }

    /** Pushes the selected samples of an admitted frame one at a time; none can fail. */
    method PushFrame(frame: Frame, hw: nat, indices: seq<nat>)
      requires tx.Valid() && |frame| == hw && ValidSelection(indices, hw) && |indices| <= tx.VacantLen()
      modifies tx
      ensures tx.Valid() && tx.items == old(tx.items) + Select(frame, indices)
    {
      var k := 0;
      while k < |indices|
        invariant 0 <= k <= |indices| && tx.Valid()
        invariant tx.items == old(tx.items) + Select(frame, indices)[..k]
      {
        var pushed := tx.TryPush(frame[indices[k]]);
        assert pushed && Select(frame, indices)[..k] + [frame[indices[k]]] == Select(frame, indices)[..k + 1];
        k := k + 1;
      }
      assert Select(frame, indices)[..k] == Select(frame, indices);
    }
  }

  /** Comparing rounded sample counts is comparing frame counts. */
  lemma CompareProducts(a: nat, b: nat, c: nat)
    requires c > 0
    ensures 0 <= a * c && 0 <= b * c && Min(a * c, b * c) == Min(a, b) * c
    ensures Min(a * c, b * c) < a * c <==> Min(a, b) < a
  {
    if a <= b {
      MulMono(a, b, c);
    } else {
      MulMono(b + 1, a, c);
      assert (b + 1) * c == b * c + c;
    }
  }
}
