/** MIDI System Real Time bytes and the counters kept from them (src/managers/midi.rs).
    The four status bytes are those of the MIDI 1.0 Detailed Specification. */
module Midi {
  import opened Words

  const TIMING_CLOCK: Byte := 0xF8
  const START: Byte := 0xFA
  const CONTINUE: Byte := 0xFB
  const STOP: Byte := 0xFC

  const CLOCK_TICKS_PER_STEP: nat := 6

  datatype Code = NoEvent | Started | Stopped | Continued

  // ---------- What a byte stream means ----------

  predicate IsTransport(b: Byte) {
    b == START || b == STOP || b == CONTINUE
  }

  function CodeOf(b: Byte): Code {
    if b == START then Started
    else if b == STOP then Stopped
    else if b == CONTINUE then Continued
    else NoEvent
  }

  /** Timing clocks after the last Start, or after the beginning if there is none. */
  function ClocksSinceStart(bytes: seq<Byte>): nat {
    if |bytes| == 0 || bytes[|bytes| - 1] == START then 0
    else ClocksSinceStart(bytes[..|bytes| - 1]) + if bytes[|bytes| - 1] == TIMING_CLOCK then 1 else 0
  }

  /** Six ticks make a step; the counter is a 32-bit word. */
  function StepCount(bytes: seq<Byte>): nat {
    Wrapped(ClocksSinceStart(bytes) / CLOCK_TICKS_PER_STEP)
  }

  function Wrapped(n: nat): nat {
    n % WORD32
  }

  /** The number that stands for a code in the shared atomics and in a frame. */
  function CodeNumber(code: Code): nat {
    match code
    case NoEvent => 0
    case Started => 1
    case Stopped => 2
    case Continued => 3
  }

  datatype Name = Unnamed | Named(text: string)

  /** `transport_code_to_str`. */
  function TransportName(number: nat): Name {
    if number == CodeNumber(Started) then Named("start")
    else if number == CodeNumber(Stopped) then Named("stop")
    else if number == CodeNumber(Continued) then Named("continue")
    else Unnamed
  }

  /** From the byte on the wire to the name a display frame carries, and the number a shared-memory
      frame carries (docs/xpc.md, "Frame Region"). */
  lemma BytesAndNames(b: Byte)
    ensures TransportName(CodeNumber(CodeOf(b))) ==
            if b == 0xFA then Named("start") else if b == 0xFC then Named("stop")
            else if b == 0xFB then Named("continue") else Unnamed
    ensures CodeNumber(CodeOf(b)) == if b == 0xFA then 1 else if b == 0xFC then 2 else if b == 0xFB then 3 else 0
  {
  }

  /** Where the transport events are, in order. */
  function Transports(bytes: seq<Byte>): (at: seq<nat>)
    ensures forall k :: 0 <= k < |at| ==> at[k] < |bytes| && IsTransport(bytes[at[k]])
  {
    if |bytes| == 0 then []
    else
      var before := Transports(bytes[..|bytes| - 1]);
      if IsTransport(bytes[|bytes| - 1]) then before + [|bytes| - 1] else before
  }

  /** The list holds every Start, Continue and Stop, once, in order, and nothing else. */
  lemma {:induction false} TransportsAreAll(bytes: seq<Byte>)
    ensures forall p :: 0 <= p < |bytes| && (bytes[p] == 0xFA || bytes[p] == 0xFB || bytes[p] == 0xFC) ==> p in Transports(bytes)
    ensures forall k :: 0 <= k < |Transports(bytes)| ==>
              bytes[Transports(bytes)[k]] == 0xFA || bytes[Transports(bytes)[k]] == 0xFB || bytes[Transports(bytes)[k]] == 0xFC
    ensures forall j, k :: 0 <= j < k < |Transports(bytes)| ==> Transports(bytes)[j] < Transports(bytes)[k]
  {
    if |bytes| > 0 {
      var before := bytes[..|bytes| - 1];
      TransportsAreAll(before);
      assert forall p :: 0 <= p < |before| ==> before[p] == bytes[p];
    }
  }

  lemma TransportsAppend(bytes: seq<Byte>, b: Byte)
    ensures Transports(bytes + [b]) == Transports(bytes) + if IsTransport(b) then [|bytes|] else []
  {
    assert (bytes + [b])[..|bytes|] == bytes;
  }

  lemma ClocksAppend(bytes: seq<Byte>, b: Byte)
    ensures ClocksSinceStart(bytes + [b]) ==
            if b == START then 0 else ClocksSinceStart(bytes) + if b == TIMING_CLOCK then 1 else 0
  {
    assert (bytes + [b])[..|bytes|] == bytes;
  }

  /** After a Start, whatever came before it no longer matters. */
  lemma {:induction false} StartForgets(before: seq<Byte>, after: seq<Byte>)
    ensures ClocksSinceStart(before + [START] + after) == ClocksSinceStart(after)
    decreases |after|
  {
    if |after| == 0 {
      assert before + [START] + after == before + [START];
      ClocksAppend(before, START);
    } else {
      var last := after[|after| - 1];
      StartForgets(before, after[..|after| - 1]);
      assert before + [START] + after == (before + [START] + after[..|after| - 1]) + [last];
      ClocksAppend(before + [START] + after[..|after| - 1], last);
    }
  }

  lemma {:induction false} WithoutStart(bytes: seq<Byte>)
    requires START !in bytes
    ensures ClocksSinceStart(bytes) == multiset(bytes)[TIMING_CLOCK]
  {
    if |bytes| > 0 {
      WithoutStart(bytes[..|bytes| - 1]);
      assert bytes == bytes[..|bytes| - 1] + [bytes[|bytes| - 1]];
    }
  }

  /** The step counter is the number of clocks after the last Start, six to a step, modulo 2^32. */
  lemma StepsSinceLastStart(before: seq<Byte>, after: seq<Byte>)
    requires 0xFA !in after
    ensures StepCount(before + [0xFA] + after) == multiset(after)[0xF8] / 6 % 0x1_0000_0000
    ensures StepCount(after) == multiset(after)[0xF8] / 6 % 0x1_0000_0000
  {
    StartForgets(before, after);
    WithoutStart(after);
  }

  // ---------- Counters ----------

  /** `fetch_add(1)` on a 32-bit word. */
  function Next(word: nat): nat {
    if word + 1 == WORD32 then 0 else word + 1
  }

  lemma NextWraps(n: nat)
    ensures Next(Wrapped(n)) == Wrapped(n + 1)
  {
    if n % WORD32 + 1 == WORD32 {
      assert (n + 1) % WORD32 == 0;
    } else {
      assert (n + 1) % WORD32 == n % WORD32 + 1;
    }
  }

  /** The ticks of an unfinished step. */
  function TickRemainder(clocks: nat): nat {
    clocks % CLOCK_TICKS_PER_STEP
  }

  /** Counting to six and then incrementing the step word is dividing. */
  lemma NextTick(clocks: nat)
    ensures TickRemainder(clocks) + 1 < CLOCK_TICKS_PER_STEP ==>
              && TickRemainder(clocks + 1) == TickRemainder(clocks) + 1
              && Wrapped((clocks + 1) / CLOCK_TICKS_PER_STEP) == Wrapped(clocks / CLOCK_TICKS_PER_STEP)
    ensures TickRemainder(clocks) + 1 >= CLOCK_TICKS_PER_STEP ==>
              && TickRemainder(clocks + 1) == 0
              && Wrapped((clocks + 1) / CLOCK_TICKS_PER_STEP) == Next(Wrapped(clocks / CLOCK_TICKS_PER_STEP))
  {
    var q := clocks / CLOCK_TICKS_PER_STEP;
    if TickRemainder(clocks) + 1 < CLOCK_TICKS_PER_STEP {
      assert (clocks + 1) / CLOCK_TICKS_PER_STEP == q;
    } else {
      assert (clocks + 1) / CLOCK_TICKS_PER_STEP == q + 1;
      NextWraps(q);
    }
  }

  // ---------- The listener ----------

  class Listener {
    var lastTransport: Code
    var transportLatest: Code
    var transportCount: nat
    var steps: nat
    var ticksSinceStep: nat

    /** Every byte received so far. */
    ghost var received: seq<Byte>

    ghost predicate Valid()
      reads this
    {
      && steps == StepCount(received)
      && ticksSinceStep == TickRemainder(ClocksSinceStart(received))
      && transportCount == Wrapped(|Transports(received)|)
      && transportLatest == LatestOf(received)
    }

    constructor ()
      ensures Valid() && received == [] && lastTransport == NoEvent
    {
      lastTransport, transportLatest, transportCount := NoEvent, NoEvent, 0;
      steps, ticksSinceStep, received := 0, 0, [];
    }

    /** `record_byte`. */
    method RecordByte(b: Byte)
      requires Valid()
      modifies this
      ensures Valid() && received == old(received) + [b]
      ensures lastTransport == if IsTransport(b) then CodeOf(b) else old(lastTransport)
    {
      ClocksAppend(received, b);
      TransportsAppend(received, b);
      if b == START {
        ticksSinceStep := 0;
        steps := 0;
        RecordTransport(Started);
      } else if b == STOP {
        RecordTransport(Stopped);
      } else if b == CONTINUE {
        RecordTransport(Continued);
      } else if b == TIMING_CLOCK {
        RecordTick(ClocksSinceStart(received));
      }
      received := received + [b];
    }

    /** Counts one timing clock after `clocks` of them. */
    method RecordTick(ghost clocks: nat)
      requires steps == Wrapped(clocks / CLOCK_TICKS_PER_STEP) && ticksSinceStep == TickRemainder(clocks)
      modifies this`steps, this`ticksSinceStep
      ensures steps == Wrapped((clocks + 1) / CLOCK_TICKS_PER_STEP) && ticksSinceStep == TickRemainder(clocks + 1)
    {
      NextTick(clocks);
      ticksSinceStep := ticksSinceStep + 1;
      if ticksSinceStep >= CLOCK_TICKS_PER_STEP {
        ticksSinceStep := 0;
        steps := Next(steps);
      }
    }

    method RecordTransport(code: Code)
      requires transportCount == Wrapped(|Transports(received)|)
      modifies this`lastTransport, this`transportLatest, this`transportCount
      ensures lastTransport == transportLatest == code
      ensures transportCount == Wrapped(|Transports(received)| + 1)
    {
      NextWraps(|Transports(received)|);
      lastTransport := code;
      transportLatest := code;
      transportCount := Next(transportCount);
    }

    /** The device callback: one message of any length. Only the concatenation of all messages
        matters, never how it was split. */
    method Callback(message: seq<Byte>)
      requires Valid()
      modifies this
      ensures Valid() && received == old(received) + message
      ensures lastTransport == LastCode(message, old(lastTransport))
    {
      var i := 0;
      while i < |message|
        invariant 0 <= i <= |message| && Valid() && received == old(received) + message[..i]
        invariant lastTransport == LastCode(message[..i], old(lastTransport))
      {
        assert message[..i + 1] == message[..i] + [message[i]];
        LastCodeAppend(message[..i], message[i], old(lastTransport));
        RecordByte(message[i]);
        i := i + 1;
      }
      assert message[..i] == message;
    }
  }

  /** The code of the last transport event, or `otherwise` if there is none. */
  function LastCode(bytes: seq<Byte>, otherwise: Code): Code {
    if Transports(bytes) == [] then otherwise else LatestOf(bytes)
  }

  lemma LastCodeAppend(bytes: seq<Byte>, b: Byte, otherwise: Code)
    ensures LastCode(bytes + [b], otherwise) == if IsTransport(b) then CodeOf(b) else LastCode(bytes, otherwise)
  {
    TransportsAppend(bytes, b);
  }

  function LatestOf(bytes: seq<Byte>): Code {
    var at := Transports(bytes);
    if |at| == 0 then NoEvent else CodeOf(bytes[at[|at| - 1]])
  }
}
