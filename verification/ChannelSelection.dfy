/** From the requested channel list to a selection the capture callback can rely on
    (src/config/resolve.rs, src/bootstrap.rs, src/managers/audio.rs). */
module ChannelSelection {
  import opened AudioStream
  import opened StreamSink

  const INDEX_LIMIT: nat := 0x1_0000

  /** A 16-bit channel index or count. */
  type Index = n: nat | n < 0x1_0000

  datatype Request = AnyChannels | Listed(indices: seq<Index>)

  datatype Normal = Unselected | Chosen(indices: seq<Index>) | EmptySelection

  predicate Ascending(s: seq<Index>) {
    forall j, k :: 0 <= j < k < |s| ==> s[j] < s[k]
  }

  predicate Sorted(s: seq<Index>) {
    forall j, k :: 0 <= j < k < |s| ==> s[j] <= s[k]
  }

  predicate SameSet(s: seq<Index>, t: seq<Index>) {
    (forall x :: x in s ==> x in t) && (forall x :: x in t ==> x in s)
  }

  // ---------- Sorting and removing duplicates ----------

  function Insert(x: Index, s: seq<Index>): (t: seq<Index>)
    requires Sorted(s)
    ensures Sorted(t) && |t| == |s| + 1
    ensures t[0] == (if |s| == 0 || x <= s[0] then x else s[0])
    ensures forall y :: y in t <==> y == x || y in s
  {
    if |s| == 0 || x <= s[0] then [x] + s
    else
      var rest := Insert(x, s[1..]);
      assert s[0] <= rest[0];
      [s[0]] + rest
  }

  /** What `sort_unstable` leaves behind; for numbers the order is unique. */
  function Sort(s: seq<Index>): (t: seq<Index>)
    ensures Sorted(t) && |t| == |s| && SameSet(t, s)
  {
    if |s| == 0 then [] else Insert(s[0], Sort(s[1..]))
  }

  /** `dedup`: drops each element equal to its predecessor. */
  method Dedup(s: seq<Index>) returns (t: seq<Index>)
    requires Sorted(s)
    ensures Ascending(t) && SameSet(t, s)
  {
    t := [];
    var i := 0;
    while i < |s|
      invariant 0 <= i <= |s| && Ascending(t) && SameSet(t, s[..i])
      invariant if i == 0 then t == [] else |t| > 0 && t[|t| - 1] == s[i - 1]
      invariant forall k :: 0 <= k < |t| ==> t[k] in s[..i]
    {
      assert s[..i + 1] == s[..i] + [s[i]];
      if i == 0 || s[i] != s[i - 1] {
        assert forall k :: 0 <= k < |t| ==> t[k] <= t[|t| - 1];
        t := t + [s[i]];
      }
      i := i + 1;
    }
    assert s[..i] == s;
  }

  /** `normalise_channel_selection`. */
  method Normalise(request: Request) returns (normal: Normal)
    ensures request.AnyChannels? <==> normal.Unselected?
    ensures request == Listed([]) <==> normal.EmptySelection?
    ensures normal.Chosen? ==>
              |normal.indices| > 0 && Ascending(normal.indices) && SameSet(normal.indices, request.indices)
  {
    if request.AnyChannels? {
      return Unselected;
    }
    if |request.indices| == 0 {
      return EmptySelection;
    }
    var sorted := Sort(request.indices);
    var unique := Dedup(sorted);
    assert request.indices[0] in unique;
    return Chosen(unique);
  }

  /** The normal form is unique: order and repetition in the request do not matter. */
  lemma {:induction false} NormalFormIsUnique(s: seq<Index>, t: seq<Index>)
    requires Ascending(s) && Ascending(t) && SameSet(s, t)
    ensures s == t
    decreases |s|
  {
    HasMember(s);
    HasMember(t);
    if |s| > 0 && |t| > 0 {
      assert t[0] in s && s[0] in t;
      SmallestFirst(s, t[0]);
      SmallestFirst(t, s[0]);
      TailsMatch(s, t);
      NormalFormIsUnique(s[1..], t[1..]);
      assert s == [s[0]] + s[1..] && t == [t[0]] + t[1..];
    }
  }

  lemma SmallestFirst(s: seq<Index>, x: Index)
    requires Ascending(s) && x in s
    ensures s[0] <= x
  {
  }

  lemma HasMember(s: seq<Index>)
    ensures |s| > 0 ==> exists x :: x in s
  {
    if |s| > 0 {
      assert s[0] in s;
    }
  }

  lemma TailsMatch(s: seq<Index>, t: seq<Index>)
    requires |s| > 0 && |t| > 0 && Ascending(s) && Ascending(t) && SameSet(s, t) && s[0] == t[0]
    ensures Ascending(s[1..]) && Ascending(t[1..]) && SameSet(s[1..], t[1..])
  {
    forall x | x in s[1..] ensures x in t[1..] {
      assert x in s && x > s[0];
      assert x in t;
    }
    forall x | x in t[1..] ensures x in s[1..] {
      assert x in t && x > t[0];
      assert x in s;
    }
  }

  // ---------- Range check ----------

  datatype Check = InRange | OutOfRange(index: Index, channels: Index)

  /** `validate_channel_selection`: the largest index decides. */
  method Validate(normal: Normal, channels: Index) returns (check: Check)
    ensures !normal.Chosen? ==> check == InRange
    ensures normal.Chosen? ==> (check.InRange? <==> forall k :: 0 <= k < |normal.indices| ==> normal.indices[k] < channels)
    ensures check.OutOfRange? ==>
              && check.index in normal.indices && check.index >= channels && check.channels == channels
              && forall k :: 0 <= k < |normal.indices| ==> normal.indices[k] <= check.index
  {
    if !normal.Chosen? || |normal.indices| == 0 {
      return InRange;
    }
    var largest := normal.indices[0];
    var k := 1;
    while k < |normal.indices|
      invariant 1 <= k <= |normal.indices| && largest in normal.indices
      invariant forall j :: 0 <= j < k ==> normal.indices[j] <= largest
    {
      if normal.indices[k] >= largest {
        largest := normal.indices[k];
      }
      k := k + 1;
    }
    return if largest >= channels then OutOfRange(largest, channels) else InRange;
  }

  // ---------- How long a selection can be ----------

  /** Element `k` of a strictly ascending list is at least `k`. */
  lemma {:induction false} AscendingGrows(s: seq<Index>, k: nat)
    requires Ascending(s) && k < |s|
    ensures s[k] >= k
  {
    if k > 0 {
      AscendingGrows(s, k - 1);
    }
  }

  /** Distinct indices below `n` are at most `n`. */
  lemma AscendingIsShort(s: seq<Index>, n: nat)
    requires Ascending(s) && forall k :: 0 <= k < |s| ==> s[k] < n
    ensures |s| <= n
  {
    if |s| > 0 {
      AscendingGrows(s, |s| - 1);
    }
  }

  /** `as u16`. */
  function ToIndex(n: nat): Index {
    n % INDEX_LIMIT
  }

  /** Without the range check one normalised selection would be miscounted, and only one: the
      cast loses the length exactly when all 65,536 indices are listed. */
  lemma CastLosesOnlyTheFullSelection(s: seq<Index>)
    requires Ascending(s)
    ensures ToIndex(|s|) != |s| <==> |s| == INDEX_LIMIT && forall k: nat :: k < INDEX_LIMIT ==> s[k] == k
  {
    AscendingIsShort(s, INDEX_LIMIT);
    if |s| == INDEX_LIMIT {
      forall k: nat | k < INDEX_LIMIT ensures s[k] == k {
        AscendingGrows(s, k);
        NeverAhead(s, k);
      }
    }
  }

  lemma {:induction false} NeverAhead(s: seq<Index>, k: nat)
    requires Ascending(s) && |s| == INDEX_LIMIT && k < INDEX_LIMIT
    ensures s[k] <= k
    decreases INDEX_LIMIT - k
  {
    if k + 1 < INDEX_LIMIT {
      NeverAhead(s, k + 1);
    }
  }

  // ---------- The whole chain ----------

  datatype Specs = Specs(channels: Index, sampleRate: nat)

  /** `ChannelMode::resolve`. */
  method Resolve(normal: Normal, hardware: Specs) returns (mode: ChannelMode, analyser: Specs)
    requires !normal.EmptySelection?
    ensures analyser.sampleRate == hardware.sampleRate
    ensures mode == (if normal.Chosen? then Selected(normal.indices) else All)
    ensures analyser.channels == (if normal.Chosen? then ToIndex(|normal.indices|) else hardware.channels)
  {
    match normal {
      case Chosen(indices) =>
        var counts: seq<nat> := indices;
        return Selected(counts), hardware.(channels := ToIndex(|indices|));
      case Unselected =>
        return All, hardware;
    }
  }

  datatype Prepared = Prepared(mode: ChannelMode, analyser: Specs) | Rejected(check: Check) | NothingListed

  /** Normalise, check the range, resolve. What comes out is a selection every push accepts, the
      analyser's channel count is its true length, and it lists exactly the requested channels. */
  method Prepare(request: Request, hardware: Specs) returns (p: Prepared)
    requires hardware.channels > 0
    ensures p.NothingListed? <==> request == Listed([])
    ensures p.Rejected? <==> request.Listed? && exists x :: x in request.indices && x >= hardware.channels
    ensures p.Prepared? && request.AnyChannels? ==> p.mode == All && p.analyser == hardware
    ensures p.Prepared? && request.Listed? ==> p.mode.Selected?
    ensures p.Prepared? ==> p.analyser.sampleRate == hardware.sampleRate
    ensures p.Rejected? ==>
              && p.check.OutOfRange? && p.check.channels == hardware.channels && p.check.index in request.indices
              && forall x :: x in request.indices ==> x <= p.check.index
    ensures p.Prepared? ==>
              var selection := Selection(p.mode, hardware.channels);
              && ValidSelection(selection, hardware.channels)
              && 0 < |selection| == p.analyser.channels <= hardware.channels
              && (forall j, k :: 0 <= j < k < |selection| ==> selection[j] < selection[k])
              && (request.Listed? ==> forall x: Index :: x in selection <==> x in request.indices)
  {
    var normal := Normalise(request);
    if normal.EmptySelection? {
      return NothingListed;
    }
    var check := Validate(normal, hardware.channels);
    if check.OutOfRange? {
      return Rejected(check);
    }
    if normal.Chosen? {
      AscendingIsShort(normal.indices, hardware.channels);
    }
    var mode, analyser := Resolve(normal, hardware);
    return Prepared(mode, analyser);
  }
}
