/** The OSC bin bundle: its packet table, encoding, size limit and in-place update
    (src/managers/osc.rs). The encoding is that of the OSC Messages and OSC Bundles
    sections of the Open Sound Control 1.0 Specification; a float argument is its 32-bit
    pattern. */
module Osc {
  import opened Words

  const PAYLOAD_LIMIT: nat := 65_507
  const SLASH: Byte := 47

  /** One bin message: its address and its float argument. */
  datatype Message = Message(addr: seq<Byte>, value: U32)

  // ---------- Addresses ----------

  /** Decimal digits. */
  function Digits(n: nat): (s: seq<Byte>)
    ensures |s| > 0 && forall k :: 0 <= k < |s| ==> 48 <= s[k] < 58
  {
    if n < 10 then [48 + n] else Digits(n / 10) + [48 + n % 10]
  }

  const CH: seq<Byte> := [47, 99, 104, 47]         // "/ch/"
  const BIN: seq<Byte> := [47, 98, 105, 110, 47]   // "/bin/"

  function Address(ch: nat, bin: nat): (s: seq<Byte>)
    ensures forall k :: 0 <= k < |s| ==> s[k] != 0
  {
    CH + Digits(ch) + BIN + Digits(bin)
  }

  lemma {:induction false} DigitsDetermine(m: nat, n: nat)
    requires Digits(m) == Digits(n)
    ensures m == n
    decreases m
  {
    var s, t := Digits(m), Digits(n);
    if m >= 10 && n >= 10 {
      assert s[..|s| - 1] == Digits(m / 10) && t[..|t| - 1] == Digits(n / 10);
      DigitsDetermine(m / 10, n / 10);
      assert s[|s| - 1] == 48 + m % 10 && t[|t| - 1] == 48 + n % 10;
    } else if m < 10 && n < 10 {
      assert s[0] == 48 + m && t[0] == 48 + n;
    }
  }

  /** The channel's digits end at the next slash. */
  lemma AddressParts(ch: nat, bin: nat)
    ensures var s := Address(ch, bin);
            var n := |Digits(ch)|;
            && |s| == 4 + n + 5 + |Digits(bin)|
            && s[4..4 + n] == Digits(ch) && s[4 + n] == SLASH && s[4 + n + 5..] == Digits(bin)
            && forall k :: 4 <= k < 4 + n ==> s[k] != SLASH
  {
    var s, n := Address(ch, bin), |Digits(ch)|;
    assert s[4..4 + n] == Digits(ch);
    assert forall k :: 4 <= k < 4 + n ==> s[k] == Digits(ch)[k - 4];
  }

  function Decimal(s: seq<Byte>): int {
    if |s| == 0 then 0 else 10 * Decimal(s[..|s| - 1]) + s[|s| - 1] - 48
  }

  /** The digits are the number's decimal numeral, without leading zeros. */
  lemma {:induction false} DigitsAreDecimal(n: nat)
    ensures Decimal(Digits(n)) == n && (n > 0 ==> Digits(n)[0] != 48)
  {
    if n >= 10 {
      DigitsAreDecimal(n / 10);
      assert Digits(n)[..|Digits(n)| - 1] == Digits(n / 10);
    } else {
      assert [48 + n][..0] == [];
    }
  }

  /** An address reads "/ch/", the channel, "/bin/", the bin. */
  lemma AddressReads(ch: nat, bin: nat)
    ensures Address(ch, bin) ==
            ['/' as int, 'c' as int, 'h' as int, '/' as int] + Digits(ch)
            + ['/' as int, 'b' as int, 'i' as int, 'n' as int, '/' as int] + Digits(bin)
  {
  }

  /** Different channels or bins have different addresses. */
  lemma AddressesAreUnique(ch: nat, bin: nat, ch': nat, bin': nat)
    requires Address(ch, bin) == Address(ch', bin')
    ensures ch == ch' && bin == bin'
  {
    AddressParts(ch, bin);
    AddressParts(ch', bin');
    var m, n := |Digits(ch)|, |Digits(ch')|;
    assert m >= n;
    assert n >= m;
    DigitsDetermine(ch, ch');
    DigitsDetermine(bin, bin');
  }

  // ---------- Encoding ----------

  function Zeros(n: nat): (s: seq<Byte>)
    ensures |s| == n && forall k :: 0 <= k < n ==> s[k] == 0
  {
    seq(n, i => 0)
  }

  /** An OSC string: terminated, then padded to a multiple of four. */
  function Padding(length: nat): (n: nat)
    ensures 1 <= n <= 4 && (length + n) % 4 == 0
  {
    4 - length % 4
  }

  function OscString(s: seq<Byte>): (b: seq<Byte>)
    ensures |b| == |s| + Padding(|s|)
  {
    s + Zeros(Padding(|s|))
  }

  function BigEndian(w: U32): (b: seq<Byte>)
    ensures |b| == 4
  {
    [w / 0x100_0000, w / 0x1_0000 % 0x100, w / 0x100 % 0x100, w % 0x100]
  }

  function FromBigEndian(b: seq<Byte>): U32
    requires |b| == 4
  {
    b[0] as int * 0x100_0000 + b[1] as int * 0x1_0000 + b[2] as int * 0x100 + b[3] as int
  }

  lemma BigEndianRoundTrip(w: U32)
    ensures FromBigEndian(BigEndian(w)) == w
  {
    var q := w / 0x100;
    var p := q / 0x100;
    assert w == q * 0x100 + w % 0x100 && q == p * 0x100 + q % 0x100 && p == p / 0x100 * 0x100 + p % 0x100;
    assert w / 0x1_0000 == p && w / 0x100_0000 == p / 0x100;
  }

  const TYPE_TAG: seq<Byte> := [44, 102, 0, 0]     // ",f"

  function EncodeMessage(m: Message): (b: seq<Byte>)
    ensures |b| == |m.addr| + Padding(|m.addr|) + 8
  {
    OscString(m.addr) + TYPE_TAG + BigEndian(m.value)
  }

  function EncodeElements(messages: seq<Message>): seq<Byte>
    requires Sendable(messages)
  {
    if |messages| == 0 then []
    else
      var b := EncodeMessage(messages[0]);
      BigEndian(|b|) + b + EncodeElements(messages[1..])
  }

  /** Addresses hold no terminator, and each message's size fits its length word. */
  predicate Sendable(messages: seq<Message>) {
    forall k :: 0 <= k < |messages| ==> SendableMessage(messages[k])
  }

  predicate SendableMessage(m: Message) {
    |m.addr| < 0x1000_0000 && forall i :: 0 <= i < |m.addr| ==> m.addr[i] != 0
  }

  /** "#bundle", then the immediate time tag. */
  const HEADER: seq<Byte> := [35, 98, 117, 110, 100, 108, 101, 0, 0, 0, 0, 0, 0, 0, 0, 1]

  function EncodeBundle(messages: seq<Message>): seq<Byte>
    requires Sendable(messages)
  {
    HEADER + EncodeElements(messages)
  }

  // ---------- Decoding ----------

  datatype Parsed<T> = Parsed(value: T) | Malformed

  function UntilZero(b: seq<Byte>): (n: nat)
    ensures n <= |b|
  {
    if |b| == 0 || b[0] == 0 then 0 else 1 + UntilZero(b[1..])
  }

  function DecodeMessage(b: seq<Byte>): Parsed<Message> {
    var n := UntilZero(b);
    var at := n + Padding(n);
    if |b| == at + 8 && b[n..at] == Zeros(at - n) && b[at..at + 4] == TYPE_TAG
    then Parsed(Message(b[..n], FromBigEndian(b[at + 4..])))
    else Malformed
  }

  function DecodeElements(b: seq<Byte>): Parsed<seq<Message>>
    decreases |b|
  {
    if |b| == 0 then Parsed([])
    else if |b| < 4 then Malformed
    else
      var size := FromBigEndian(b[..4]);
      if |b| < 4 + size then Malformed
      else
        match (DecodeMessage(b[4..4 + size]), DecodeElements(b[4 + size..]))
        case (Parsed(m), Parsed(rest)) => Parsed([m] + rest)
        case _ => Malformed
  }

  function DecodeBundle(b: seq<Byte>): Parsed<seq<Message>> {
    if |b| < 16 || b[..16] != HEADER then Malformed else DecodeElements(b[16..])
  }

  lemma {:induction false} UntilZeroStops(s: seq<Byte>, rest: seq<Byte>)
    requires (forall i :: 0 <= i < |s| ==> s[i] != 0) && |rest| > 0 && rest[0] == 0
    ensures UntilZero(s + rest) == |s|
  {
    if |s| == 0 {
      assert s + rest == rest;
    } else {
      assert (s + rest)[1..] == s[1..] + rest;
      UntilZeroStops(s[1..], rest);
    }
  }

  lemma MessageRoundTrip(m: Message)
    requires SendableMessage(m)
    ensures DecodeMessage(EncodeMessage(m)) == Parsed(m)
  {
    var b, n := EncodeMessage(m), |m.addr|;
    var at := n + Padding(n);
    var rest := Zeros(Padding(n)) + TYPE_TAG + BigEndian(m.value);
    assert b == m.addr + rest;
    UntilZeroStops(m.addr, rest);
    assert b[n..at] == Zeros(Padding(n)) && b[at..at + 4] == TYPE_TAG && b[at + 4..] == BigEndian(m.value);
    BigEndianRoundTrip(m.value);
  }

  lemma {:induction false} ElementsRoundTrip(messages: seq<Message>)
    requires Sendable(messages)
    ensures DecodeElements(EncodeElements(messages)) == Parsed(messages)
  {
    if |messages| > 0 {
      var b, rest := EncodeMessage(messages[0]), EncodeElements(messages[1..]);
      var all := EncodeElements(messages);
      assert all[..4] == BigEndian(|b|) && all[4..4 + |b|] == b && all[4 + |b|..] == rest;
      BigEndianRoundTrip(|b|);
      MessageRoundTrip(messages[0]);
      ElementsRoundTrip(messages[1..]);
      assert [messages[0]] + messages[1..] == messages;
    }
  }

  /** A receiver following the specification gets back every address with its value, in order. */
  lemma BundleRoundTrip(messages: seq<Message>)
    requires Sendable(messages)
    ensures DecodeBundle(EncodeBundle(messages)) == Parsed(messages)
  {
    var b := EncodeBundle(messages);
    assert b[..16] == HEADER && b[16..] == EncodeElements(messages);
    ElementsRoundTrip(messages);
  }

  /** The fixed parts of a datagram in characters: "#bundle", the immediate time tag, and the type tag
      of one float. */
  lemma WireConstants()
    ensures HEADER == ['#' as int, 'b' as int, 'u' as int, 'n' as int, 'd' as int, 'l' as int, 'e' as int, 0]
                      + [0, 0, 0, 0, 0, 0, 0, 1]
    ensures TYPE_TAG == [',' as int, 'f' as int, 0, 0]
  {
  }

  /** One whole datagram: channel 0, bin 0, the float 1.0. */
  lemma KnownDatagram()
    ensures Sendable([Message(Address(0, 0), 0x3F80_0000)])
    ensures EncodeBundle([Message(Address(0, 0), 0x3F80_0000)]) ==
            [35, 98, 117, 110, 100, 108, 101, 0, 0, 0, 0, 0, 0, 0, 0, 1]
            + [0, 0, 0, 20]
            + [47, 99, 104, 47, 48, 47, 98, 105, 110, 47, 48, 0]
            + [44, 102, 0, 0] + [0x3F, 0x80, 0, 0]
  {
    var m := Message(Address(0, 0), 0x3F80_0000);
    assert Address(0, 0) == [47, 99, 104, 47, 48, 47, 98, 105, 110, 47, 48];
    assert Zeros(1) == [0];
    assert EncodeMessage(m) == [47, 99, 104, 47, 48, 47, 98, 105, 110, 47, 48, 0] + [44, 102, 0, 0] + [0x3F, 0x80, 0, 0];
    assert [m][1..] == [];
    assert BigEndian(20) == [0, 0, 0, 20];
  }

  // ---------- The packet table ----------

  /** Message `i` of the table belongs to channel `i / 32`, bin `i % 32`. */
  predicate Addressed(messages: seq<Message>, channels: nat) {
    && |messages| == channels * BAND_COUNT
    && forall i :: 0 <= i < |messages| ==> messages[i].addr == Address(i / BAND_COUNT, i % BAND_COUNT)
  }

  lemma IndexParts(ch: nat, bin: nat)
    requires bin < BAND_COUNT
    ensures (ch * BAND_COUNT + bin) / BAND_COUNT == ch && (ch * BAND_COUNT + bin) % BAND_COUNT == bin
  {
  }

  /** `build_packets`. */
  method BuildPackets(channels: nat) returns (packets: seq<Message>)
    ensures Addressed(packets, channels)
    ensures forall i :: 0 <= i < |packets| ==> packets[i].value == 0
  {
    packets := [];
    for ch := 0 to channels
      invariant Addressed(packets, ch) && forall i :: 0 <= i < |packets| ==> packets[i].value == 0
    {
      for bin := 0 to BAND_COUNT
        invariant |packets| == ch * BAND_COUNT + bin
        invariant forall i :: 0 <= i < |packets| ==>
                    packets[i] == Message(Address(i / BAND_COUNT, i % BAND_COUNT), 0)
      {
        IndexParts(ch, bin);
        packets := packets + [Message(Address(ch, bin), 0)];
      }
    }
  }

  /** No two messages of a table share an address. */
  lemma TableAddressesAreUnique(messages: seq<Message>, channels: nat, i: nat, j: nat)
    requires Addressed(messages, channels) && i < |messages| && j < |messages|
    requires messages[i].addr == messages[j].addr
    ensures i == j
  {
    AddressesAreUnique(i / BAND_COUNT, i % BAND_COUNT, j / BAND_COUNT, j % BAND_COUNT);
  }

  // ---------- Encoded size ----------

  function Sum(sizes: seq<nat>): nat {
    if |sizes| == 0 then 0 else Sum(sizes[..|sizes| - 1]) + sizes[|sizes| - 1]
  }

  /** One element of the bundle: its length word and its message. */
  function ElementSize(addr: nat): nat {
    4 + addr + Padding(addr) + 8
  }

  /** One channel's messages: ten bins with one digit and twenty-two with two. */
  function ChannelSize(ch: nat): nat {
    10 * ElementSize(|Digits(ch)| + 10) + 22 * ElementSize(|Digits(ch)| + 11)
  }

  function BundleSize(channels: nat): nat {
    16 + Sum(ChannelSizes(channels))
  }

  function ChannelSizes(channels: nat): seq<nat> {
    seq(channels, ch requires 0 <= ch => ChannelSize(ch))
  }

  lemma {:induction false} ElementsAppend(a: seq<Message>, b: seq<Message>)
    requires Sendable(a) && Sendable(b)
    ensures Sendable(a + b) && EncodeElements(a + b) == EncodeElements(a) + EncodeElements(b)
  {
    if |a| == 0 {
      assert a + b == b;
    } else {
      assert (a + b)[1..] == a[1..] + b;
      ElementsAppend(a[1..], b);
    }
  }

  function Repeated(n: nat, size: nat): nat {
    if n == 0 then 0 else size + Repeated(n - 1, size)
  }

  lemma {:induction false} RepeatedIsProduct(n: nat, size: nat)
    ensures Repeated(n, size) == n * size
  {
    if n > 0 {
      RepeatedIsProduct(n - 1, size);
      assert n * size == (n - 1) * size + size;
    }
  }

  lemma FirstElement(messages: seq<Message>)
    requires Sendable(messages) && |messages| > 0
    ensures Sendable(messages[1..])
    ensures |EncodeElements(messages)| == ElementSize(|messages[0].addr|) + |EncodeElements(messages[1..])|
  {
  }

  /** Messages of two sizes. */
  lemma {:induction false} TwoSizes(messages: seq<Message>, few: nat, short: nat, long: nat)
    requires Sendable(messages) && few <= |messages|
    requires forall b :: 0 <= b < |messages| ==> ElementSize(|messages[b].addr|) == if b < few then short else long
    ensures |EncodeElements(messages)| == Repeated(few, short) + Repeated(|messages| - few, long)
    decreases |messages|
  {
    if |messages| > 0 {
      FirstElement(messages);
      TwoSizes(messages[1..], if few > 0 then few - 1 else 0, short, long);
    }
  }

  lemma OneChannel(messages: seq<Message>, ch: nat)
    requires Sendable(messages) && |messages| == BAND_COUNT
    requires forall b :: 0 <= b < BAND_COUNT ==> messages[b].addr == Address(ch, b)
    ensures |EncodeElements(messages)| == ChannelSize(ch)
  {
    var d := |Digits(ch)|;
    forall b | 0 <= b < BAND_COUNT ensures |messages[b].addr| == if b < 10 then d + 10 else d + 11 {
      AddressParts(ch, b);
    }
    TwoSizes(messages, 10, ElementSize(d + 10), ElementSize(d + 11));
    RepeatedIsProduct(10, ElementSize(d + 10));
    RepeatedIsProduct(22, ElementSize(d + 11));
  }

  lemma LastAddresses(messages: seq<Message>, ch: nat, b: nat)
    requires Addressed(messages, ch + 1) && b < BAND_COUNT
    ensures messages[ch * BAND_COUNT + b].addr == Address(ch, b)
  {
    var i := ch * BAND_COUNT + b;
    assert i / BAND_COUNT == ch && i % BAND_COUNT == b;
  }

  lemma EarlierChannels(messages: seq<Message>, ch: nat)
    requires Addressed(messages, ch + 1)
    ensures Addressed(messages[..ch * BAND_COUNT], ch)
  {
  }

  lemma LastChannel(messages: seq<Message>, before: seq<Message>, last: seq<Message>, ch: nat)
    requires messages == before + last && Sendable(messages) && |before| == ch * BAND_COUNT && |last| == BAND_COUNT
    requires forall b :: 0 <= b < BAND_COUNT ==> last[b].addr == Address(ch, b)
    ensures Sendable(before) && |EncodeElements(messages)| == |EncodeElements(before)| + ChannelSize(ch)
  {
    assert forall k :: 0 <= k < |before| ==> before[k] == messages[k];
    assert forall k :: 0 <= k < |last| ==> last[k] == messages[|before| + k];
    ElementsAppend(before, last);
    OneChannel(last, ch);
  }

  lemma {:induction false} TableSizeIsExact(messages: seq<Message>, channels: nat)
    requires Sendable(messages) && Addressed(messages, channels)
    ensures |EncodeElements(messages)| == Sum(ChannelSizes(channels))
    decreases channels
  {
    if channels > 0 {
      var ch := channels - 1;
      var before, last := messages[..ch * BAND_COUNT], messages[ch * BAND_COUNT..];
      forall b | 0 <= b < BAND_COUNT ensures last[b].addr == Address(ch, b) {
        LastAddresses(messages, ch, b);
      }
      EarlierChannels(messages, ch);
      LastChannel(messages, before, last, ch);
      TableSizeIsExact(before, ch);
      assert ChannelSizes(channels)[..channels - 1] == ChannelSizes(channels - 1);
    }
  }

  lemma {:induction false} SumGrows(sizes: seq<nat>, m: nat, least: nat)
    requires m <= |sizes| && forall k :: 0 <= k < |sizes| ==> sizes[k] >= least
    ensures Sum(sizes[..m]) + Repeated(|sizes| - m, least) <= Sum(sizes)
    decreases |sizes|
  {
    if m == |sizes| {
      assert sizes[..m] == sizes;
    } else {
      var before := sizes[..|sizes| - 1];
      assert before[..m] == sizes[..m];
      SumGrows(before, m, least);
    }
  }

  lemma {:induction false} SumOfTwoSizes(sizes: seq<nat>)
    requires forall k :: 0 <= k < |sizes| ==> sizes[k] == if k < 10 then 856 else 896
    ensures Sum(sizes) == if |sizes| <= 10 then 856 * |sizes| else 8_560 + 896 * (|sizes| - 10)
    decreases |sizes|
  {
    if |sizes| > 0 {
      SumOfTwoSizes(sizes[..|sizes| - 1]);
    }
  }

  lemma ChannelSizeValue(ch: nat)
    ensures ChannelSize(ch) >= 856
    ensures ch < 10 ==> ChannelSize(ch) == 856
    ensures 10 <= ch < 100 ==> ChannelSize(ch) == 896
  {
    assert ch < 10 ==> |Digits(ch)| == 1;
    assert 10 <= ch < 100 ==> |Digits(ch)| == 2;
    SizeValue(|Digits(ch)|);
  }

  lemma SizeValue(digits: nat)
    requires digits >= 1
    ensures ElementSize(digits + 10) >= 24 && ElementSize(digits + 11) >= 28
    ensures digits == 1 ==> ElementSize(digits + 10) == 24 && ElementSize(digits + 11) == 28
    ensures digits == 2 ==> ElementSize(digits + 10) == 28 && ElementSize(digits + 11) == 28
  {
  }

  lemma ChannelsAreLarge(n: nat)
    ensures forall ch :: 0 <= ch < n ==> ChannelSizes(n)[ch] >= 856
  {
    forall ch | 0 <= ch < n ensures ChannelSizes(n)[ch] >= 856 {
      ChannelSizeValue(ch);
    }
  }

  lemma FewerChannels(m: nat, n: nat)
    requires m <= n
    ensures ChannelSizes(n)[..m] == ChannelSizes(m)
  {
  }

  lemma FirstChannelSizes(n: nat)
    requires n <= 100
    ensures forall ch :: 0 <= ch < n ==> ChannelSizes(n)[ch] == if ch < 10 then 856 else 896
  {
    forall ch | 0 <= ch < n ensures ChannelSizes(n)[ch] == if ch < 10 then 856 else 896 {
      ChannelSizeValue(ch);
    }
  }

  lemma BundleSizeGrows(m: nat, n: nat)
    requires m <= n
    ensures BundleSize(m) + 856 * (n - m) <= BundleSize(n)
  {
    ChannelsAreLarge(n);
    FewerChannels(m, n);
    SumGrows(ChannelSizes(n), m, 856);
    RepeatedIsProduct(n - m, 856);
  }

  lemma FirstBundleSizes(n: nat)
    requires 10 <= n <= 100
    ensures BundleSize(n) == 8_576 + 896 * (n - 10)
  {
    FirstChannelSizes(n);
    SumOfTwoSizes(ChannelSizes(n));
  }

  /** Each channel makes the bundle larger, and it fits one datagram exactly up to 73 channels. */
  lemma SizeLimitIsExact(m: nat, n: nat)
    requires m < n
    ensures BundleSize(m) < BundleSize(n)
    ensures BundleSize(m) <= 65_507 <==> m <= 73
  {
    BundleSizeGrows(m, n);
    FirstBundleSizes(73);
    FirstBundleSizes(74);
    if m <= 73 {
      BundleSizeGrows(m, 73);
    } else {
      BundleSizeGrows(74, m);
    }
  }

  /** The encoding's length is the bundle size, whatever the floats. */
  lemma EncodedSizeIsExact(messages: seq<Message>, channels: nat)
    requires Sendable(messages) && Addressed(messages, channels)
    ensures |EncodeBundle(messages)| == BundleSize(channels)
  {
    TableSizeIsExact(messages, channels);
  }

  /** A table for any 16-bit channel count can be encoded. */
  lemma TablesAreSendable(messages: seq<Message>, channels: nat)
    requires Addressed(messages, channels) && channels < 0x1_0000
    ensures Sendable(messages)
  {
    forall i | 0 <= i < |messages| ensures |messages[i].addr| < 0x1000_0000 {
      AddressParts(i / BAND_COUNT, i % BAND_COUNT);
      FewDigits(i / BAND_COUNT);
      FewDigits(i % BAND_COUNT);
    }
  }

  lemma {:induction false} FewDigits(n: nat)
    ensures |Digits(n)| <= n + 1
  {
    if n >= 10 {
      FewDigits(n / 10);
    }
  }

  // ---------- Start-up and the frame update ----------

  datatype Prepared = Prepared(bundle: seq<Message>, scratch: seq<Byte>) | TooLarge(size: nat)

  /** `prepare_bin_bundle`. */
  method PrepareBinBundle(channels: nat) returns (p: Prepared)
    requires channels < 0x1_0000
    ensures p.Prepared? <==> channels <= 73
    ensures p.Prepared? ==>
              && Addressed(p.bundle, channels) && Sendable(p.bundle) && p.scratch == EncodeBundle(p.bundle)
              && |p.scratch| == BundleSize(channels)
    ensures p.TooLarge? ==> p.size == BundleSize(channels) > 65_507
  {
    var bundle := BuildPackets(channels);
    TablesAreSendable(bundle, channels);
    var scratch := EncodeBundle(bundle);
    EncodedSizeIsExact(bundle, channels);
    SizeLimitIsExact(channels, channels + 1);
    return if |scratch| <= PAYLOAD_LIMIT then Prepared(bundle, scratch) else TooLarge(|scratch|);
  }

  class OscRuntime {
    const binBundle: array<Message>
    const channels: nat

    ghost predicate Valid()
      reads this, binBundle
    {
      Addressed(binBundle[..], channels) && channels <= 73
    }

    /** Built only from a bundle that start-up accepted. */
    constructor (bundle: seq<Message>, channels: nat)
      requires Addressed(bundle, channels) && channels <= 73
      ensures Valid() && fresh(binBundle) && binBundle[..] == bundle && this.channels == channels
    {
      binBundle := new Message[|bundle|](i requires 0 <= i < |bundle| => bundle[i]);
      this.channels := channels;
      new;
      assert binBundle[..] == bundle;
    }

    /** One frame's datagram. A receiver decodes it to the whole table, with the payload's values at
        their addresses, and it never exceeds the datagram limit. */
    method SendFrame(payload: seq<seq<U32>>) returns (datagram: seq<Byte>)
      requires Valid()
      modifies binBundle
      ensures Valid() && |datagram| == BundleSize(channels) <= 65_507
      ensures DecodeBundle(datagram) == Parsed(binBundle[..])
      ensures forall ch, bin :: 0 <= ch < channels && ch < |payload| && 0 <= bin < BAND_COUNT && bin < |payload[ch]| ==>
                0 <= ch * BAND_COUNT + bin < binBundle.Length &&
                binBundle[ch * BAND_COUNT + bin] == Message(Address(ch, bin), payload[ch][bin])
    {
      Update(payload);
      TablesAreSendable(binBundle[..], channels);
      datagram := EncodeBundle(binBundle[..]);
      EncodedSizeIsExact(binBundle[..], channels);
      SizeLimitIsExact(channels, 74);
      BundleRoundTrip(binBundle[..]);
      forall ch, bin | 0 <= ch < channels && ch < |payload| && 0 <= bin < BAND_COUNT && bin < |payload[ch]|
        ensures 0 <= ch * BAND_COUNT + bin < binBundle.Length
        ensures binBundle[ch * BAND_COUNT + bin] == Message(Address(ch, bin), payload[ch][bin])
      {
        var i := ch * BAND_COUNT + bin;
        assert i / BAND_COUNT == ch && i % BAND_COUNT == bin && binBundle[..][i] == binBundle[i];
      }
    }

    /** The in-place update: each channel the payload has overwrites the values of its own bins, as
        many as it has, and nothing else changes. */
    method Update(payload: seq<seq<U32>>)
      requires Valid()
      modifies binBundle
      ensures Valid()
      ensures forall i :: 0 <= i < binBundle.Length ==>
                binBundle[i].addr == old(binBundle[i].addr) &&
                binBundle[i].value ==
                if i / BAND_COUNT < |payload| && i % BAND_COUNT < |payload[i / BAND_COUNT]|
                then payload[i / BAND_COUNT][i % BAND_COUNT] else old(binBundle[i].value)
    {
      var ch := 0;
      while ch < channels && ch < |payload|
        invariant 0 <= ch <= channels && ch <= |payload| && binBundle.Length == channels * BAND_COUNT
        invariant forall i :: 0 <= i < binBundle.Length ==>
                    binBundle[i] == Updated(old(binBundle[i]), i, payload[..ch])
      {
        UpdateChannel(ch, payload[ch]);
        ch := ch + 1;
      }
    }

    method UpdateChannel(ch: nat, bins: seq<U32>)
      requires ch < channels && binBundle.Length == channels * BAND_COUNT
      modifies binBundle
      ensures forall i :: 0 <= i < binBundle.Length ==>
                binBundle[i] ==
                if i / BAND_COUNT == ch && i % BAND_COUNT < |bins|
                then old(binBundle[i]).(value := bins[i % BAND_COUNT]) else old(binBundle[i])
    {
      var bin := 0;
      while bin < BAND_COUNT && bin < |bins|
        invariant 0 <= bin <= BAND_COUNT && bin <= |bins|
        invariant forall i :: 0 <= i < binBundle.Length ==>
                    binBundle[i] ==
                    if i / BAND_COUNT == ch && i % BAND_COUNT < bin
                    then old(binBundle[i]).(value := bins[i % BAND_COUNT]) else old(binBundle[i])
      {
        var i := ch * BAND_COUNT + bin;
        binBundle[i] := binBundle[i].(value := bins[bin]);
        bin := bin + 1;
      }
    }
  }

  /** Message `i` after the channels in `payload` have been written. */
  function Updated(m: Message, i: nat, payload: seq<seq<U32>>): Message {
    var ch, bin := i / BAND_COUNT, i % BAND_COUNT;
    if ch < |payload| && bin < |payload[ch]| then m.(value := payload[ch][bin]) else m
  }
}
