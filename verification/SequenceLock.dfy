/** The frame region's sequence lock as a step machine (src/frames.rs).

    One writer and any number of readers share a 64-bit sequence word and a block
    of payload words. Every step performs at most one atomic load or store, so a
    run is an arbitrary interleaving at single-word granularity. The fences of the
    source are taken as enforcing program order.

    `history` records the completed publications and each reader keeps a log of its
    finished calls; both are bookkeeping that no step branches on. The *epoch* is
    the sequence number without its wrap-around at 2^64. */
module SequenceLock {

  const SEQUENCE_WRAP: nat := 0x1_0000_0000_0000_0000
  const READ_ATTEMPTS: nat := 3

  type Words = seq<nat>

  // ---------- State ----------

  /** Where `publish` stands. `stable` is the sequence it loaded. */
  datatype Writer =
    | Resting
    | Loaded(frame: Words, stable: nat)
    | Storing(frame: Words, stable: nat, next: nat)

  /** One pass of the retry loop: the epochs at its first and its last sequence load. */
  datatype Attempt = Attempt(first: nat, last: nat)

  datatype Outcome = NoFrame | Frame(sequence: nat, words: Words)

  /** A finished `read_frame` call. `begun` counts the publications completed before it. */
  datatype Read = Read(begun: nat, attempts: seq<Attempt>, outcome: Outcome)

  datatype Phase =
    | Away
    | Loading(begun: nat, attempts: seq<Attempt>)
    | Copying(begun: nat, attempts: seq<Attempt>, first: nat, before: nat, copy: Words)

  datatype Reader = Reader(phase: Phase, log: seq<Read>)

  datatype State = State(sequence: nat, words: Words, writer: Writer, history: seq<Words>, readers: seq<Reader>)

  function Epoch(s: State): nat {
    2 * |s.history| + if s.writer.Storing? then 1 else 0
  }

  /** A zeroed region of `width` payload words with idle readers. */
  function Initial(width: nat, readers: nat): State {
    State(0, seq(width, i => 0), Resting, [], seq(readers, i => Reader(Away, [])))
  }

  // ---------- Steps ----------

  datatype Event =
    | LoadStable(frame: Words)
    | StoreOdd
    | StoreWord
    | StoreEven
    | BeginRead(who: nat)
    | LoadSequence(who: nat)
    | LoadWord(who: nat)
    | Recheck(who: nat)

  predicate Enabled(s: State, e: Event) {
    match e
    case LoadStable(frame) => s.writer.Resting? && |frame| == |s.words|
    case StoreOdd => s.writer.Loaded?
    case StoreWord => s.writer.Storing? && s.writer.next < |s.words| && s.writer.next < |s.writer.frame|
    case StoreEven => s.writer.Storing? && s.writer.next == |s.words|
    case BeginRead(i) => i < |s.readers| && s.readers[i].phase.Away?
    case LoadSequence(i) => i < |s.readers| && s.readers[i].phase.Loading?
    case LoadWord(i) => i < |s.readers| && s.readers[i].phase.Copying? && |s.readers[i].phase.copy| < |s.words|
    case Recheck(i) => i < |s.readers| && s.readers[i].phase.Copying? && |s.readers[i].phase.copy| == |s.words|
  }

  function Apply(s: State, e: Event): State
    requires Enabled(s, e)
  {
    match e
    case LoadStable(frame) => s.(writer := Loaded(frame, s.sequence))
    case StoreOdd =>
      s.(sequence := (s.writer.stable + 1) % SEQUENCE_WRAP, writer := Storing(s.writer.frame, s.writer.stable, 0))
    case StoreWord =>
      s.(words := s.words[s.writer.next := s.writer.frame[s.writer.next]],
         writer := s.writer.(next := s.writer.next + 1))
    case StoreEven =>
      s.(sequence := (s.writer.stable + 2) % SEQUENCE_WRAP, writer := Resting, history := s.history + [s.writer.frame])
    case BeginRead(i) => s.(readers := s.readers[i := s.readers[i].(phase := Loading(|s.history|, []))])
    case LoadSequence(i) => s.(readers := s.readers[i := AfterLoad(s.readers[i], s.sequence, Epoch(s))])
    case LoadWord(i) =>
      var p := s.readers[i].phase;
      s.(readers := s.readers[i := s.readers[i].(phase := p.(copy := p.copy + [s.words[|p.copy|]]))])
    case Recheck(i) => s.(readers := s.readers[i := AfterRecheck(s.readers[i], s.sequence, Epoch(s))])
  }

  /** The first sequence load of an attempt: zero gives up, odd spends the attempt. */
  function AfterLoad(r: Reader, sequence: nat, epoch: nat): Reader
    requires r.phase.Loading?
  {
    var p := r.phase;
    if sequence == 0 then
      Finish(r, p.begun, p.attempts + [Attempt(epoch, epoch)], NoFrame)
    else if sequence % 2 != 0 then
      Retry(r, p.begun, p.attempts + [Attempt(epoch, epoch)])
    else
      r.(phase := Copying(p.begun, p.attempts, epoch, sequence, []))
  }

  /** The second sequence load: unchanged accepts the copy, changed spends the attempt. */
  function AfterRecheck(r: Reader, sequence: nat, epoch: nat): Reader
    requires r.phase.Copying?
  {
    var p := r.phase;
    var attempts := p.attempts + [Attempt(p.first, epoch)];
    if sequence == p.before then
      Finish(r, p.begun, attempts, Frame(p.before, p.copy))
    else
      Retry(r, p.begun, attempts)
  }

  function Retry(r: Reader, begun: nat, attempts: seq<Attempt>): Reader {
    if |attempts| < READ_ATTEMPTS then r.(phase := Loading(begun, attempts))
    else Finish(r, begun, attempts, NoFrame)
  }

  function Finish(r: Reader, begun: nat, attempts: seq<Attempt>, outcome: Outcome): Reader {
    Reader(Away, r.log + [Read(begun, attempts, outcome)])
  }

  predicate ValidRun(s: State, run: seq<Event>)
    decreases |run|
  {
    |run| == 0 || (Enabled(s, run[0]) && ValidRun(Apply(s, run[0]), run[1..]))
  }

  function Final(s: State, run: seq<Event>): State
    requires ValidRun(s, run)
    decreases |run|
  {
    if |run| == 0 then s else Final(Apply(s, run[0]), run[1..])
  }

  // ---------- Invariant ----------

  ghost predicate WriterInv(s: State) {
    && s.sequence == Epoch(s) % SEQUENCE_WRAP
    && (forall k :: 0 <= k < |s.history| ==> |s.history[k]| == |s.words|)
    && match s.writer
       case Resting => Stable(s)
       case Loaded(frame, stable) => Stable(s) && |frame| == |s.words| && stable == s.sequence
       case Storing(frame, stable, next) =>
         && |frame| == |s.words| && next <= |s.words|
         && stable == 2 * |s.history| % SEQUENCE_WRAP
         && s.words[..next] == frame[..next]
  }

  /** Between publications the payload is the last published frame. */
  ghost predicate Stable(s: State) {
    |s.history| > 0 ==> s.words == s.history[|s.history| - 1]
  }

  /** The reader saw the sequence odd, or saw it change. */
  predicate Overlapped(a: Attempt) {
    a.first % 2 == 1 || a.first % SEQUENCE_WRAP != a.last % SEQUENCE_WRAP
  }

  /** The attempts of one call happened one after the other, from `floor` on and up to `now`. */
  ghost predicate Chained(attempts: seq<Attempt>, floor: nat, now: nat) {
    && floor <= now
    && (forall k :: 0 <= k < |attempts| ==> floor <= attempts[k].first <= attempts[k].last <= now)
    && (forall j, k :: 0 <= j < k < |attempts| ==> attempts[j].last <= attempts[k].first)
  }

  ghost predicate AllOverlapped(attempts: seq<Attempt>) {
    forall k :: 0 <= k < |attempts| ==> Overlapped(attempts[k])
  }

  /** What an accepted attempt guarantees, as long as the sequence did not wrap all the
      way round inside it. */
  ghost predicate Accepted(a: Attempt, sequence: nat, words: Words, history: seq<Words>) {
    && a.first % 2 == 0 && sequence == a.first % SEQUENCE_WRAP == a.last % SEQUENCE_WRAP && sequence != 0
    && (a.last - a.first < SEQUENCE_WRAP ==>
          a.last == a.first && 0 < a.first / 2 <= |history| && words == history[a.first / 2 - 1])
  }

  ghost predicate ReadOk(r: Read, history: seq<Words>, now: nat) {
    && 1 <= |r.attempts| <= READ_ATTEMPTS
    && Chained(r.attempts, 2 * r.begun, now)
    && AllOverlapped(r.attempts[..|r.attempts| - 1])
    && var a := r.attempts[|r.attempts| - 1];
       match r.outcome
       case NoFrame => a.first % SEQUENCE_WRAP == 0 || (|r.attempts| == READ_ATTEMPTS && Overlapped(a))
       case Frame(sequence, words) => Accepted(a, sequence, words, history)
  }

  function LastEpoch(r: Read): nat {
    if |r.attempts| == 0 then 0 else r.attempts[|r.attempts| - 1].last
  }

  ghost predicate LogOk(log: seq<Read>, history: seq<Words>, now: nat) {
    && (forall k :: 0 <= k < |log| ==> ReadOk(log[k], history, now))
    && (forall j, k :: 0 <= j < k < |log| ==> LastEpoch(log[j]) <= log[k].attempts[0].first)
  }

  /** The attempts of the call in progress, after every logged call. */
  ghost predicate PendingOk(log: seq<Read>, begun: nat, attempts: seq<Attempt>, now: nat) {
    && |attempts| < READ_ATTEMPTS
    && Chained(attempts, 2 * begun, now)
    && AllOverlapped(attempts)
    && (|attempts| > 0 ==> forall j :: 0 <= j < |log| ==> LastEpoch(log[j]) <= attempts[0].first)
  }

  ghost predicate ReaderInv(r: Reader, s: State) {
    && LogOk(r.log, s.history, Epoch(s))
    && match r.phase
       case Away => true
       case Loading(begun, attempts) => PendingOk(r.log, begun, attempts, Epoch(s))
       case Copying(begun, attempts, first, before, copy) =>
         && PendingOk(r.log, begun, attempts, Epoch(s))
         && Chained(attempts + [Attempt(first, first)], 2 * begun, Epoch(s))
         && (forall j :: 0 <= j < |r.log| ==> LastEpoch(r.log[j]) <= first)
         && first % 2 == 0 && before == first % SEQUENCE_WRAP && before != 0
         && |copy| <= |s.words|
         && (Epoch(s) == first ==> copy == s.words[..|copy|])
  }

  ghost predicate Inv(s: State) {
    && WriterInv(s)
    && forall i :: 0 <= i < |s.readers| ==> ReaderInv(s.readers[i], s)
  }

  // ---------- Preservation ----------

  /** Later publications do not disturb what a finished call already reported. */
  lemma ReadStaysOk(r: Read, history: seq<Words>, now: nat, history': seq<Words>, now': nat)
    requires ReadOk(r, history, now)
    requires history <= history' && now <= now'
    ensures ReadOk(r, history', now')
  {
  }

  lemma LogStaysOk(log: seq<Read>, history: seq<Words>, now: nat, history': seq<Words>, now': nat)
    requires LogOk(log, history, now)
    requires history <= history' && now <= now'
    ensures LogOk(log, history', now')
  {
    forall k | 0 <= k < |log|
      ensures ReadOk(log[k], history', now')
    {
      ReadStaysOk(log[k], history, now, history', now');
    }
  }

  lemma PendingStaysOk(log: seq<Read>, begun: nat, attempts: seq<Attempt>, now: nat, now': nat)
    requires PendingOk(log, begun, attempts, now)
    requires now <= now'
    ensures PendingOk(log, begun, attempts, now')
  {
  }

  /** A writer store moves the epoch on whenever it moves a payload word. */
  lemma WriterStepKeepsReader(s: State, e: Event, r: Reader)
    requires Enabled(s, e)
    requires e.LoadStable? || e.StoreOdd? || e.StoreWord? || e.StoreEven?
    requires ReaderInv(r, s)
    ensures ReaderInv(r, Apply(s, e))
  {
    var t := Apply(s, e);
    LogStaysOk(r.log, s.history, Epoch(s), t.history, Epoch(t));
    if r.phase.Copying? {
      PendingStaysOk(r.log, r.phase.begun, r.phase.attempts, Epoch(s), Epoch(t));
      assert (r.phase.attempts + [Attempt(r.phase.first, r.phase.first)])[|r.phase.attempts|].first == r.phase.first;
      assert Epoch(t) == r.phase.first ==> Epoch(s) == r.phase.first && t.words == s.words;
    }
  }

  lemma WriterStepKeepsWriter(s: State, e: Event)
    requires WriterInv(s) && Enabled(s, e)
    requires e.LoadStable? || e.StoreOdd? || e.StoreWord? || e.StoreEven?
    ensures WriterInv(Apply(s, e))
  {
    if e.StoreOdd? {
      ResidueOfSum(2 * |s.history|, 1);
    } else if e.StoreEven? {
      ResidueOfSum(2 * |s.history|, 2);
      assert s.words[..s.writer.next] == s.words && s.writer.frame[..s.writer.next] == s.writer.frame;
    }
  }

  lemma WriterStepKeepsInv(s: State, e: Event)
    requires Inv(s) && Enabled(s, e)
    requires e.LoadStable? || e.StoreOdd? || e.StoreWord? || e.StoreEven?
    ensures Inv(Apply(s, e))
  {
    WriterStepKeepsWriter(s, e);
    forall i | 0 <= i < |s.readers|
      ensures ReaderInv(s.readers[i], Apply(s, e))
    {
      WriterStepKeepsReader(s, e, s.readers[i]);
    }
  }

  /** A call that ends joins the log in order. */
  lemma FinishKeepsInv(r: Reader, s: State, begun: nat, attempts: seq<Attempt>, outcome: Outcome)
    requires LogOk(r.log, s.history, Epoch(s))
    requires ReadOk(Read(begun, attempts, outcome), s.history, Epoch(s))
    requires forall j :: 0 <= j < |r.log| ==> LastEpoch(r.log[j]) <= attempts[0].first
    ensures ReaderInv(Finish(r, begun, attempts, outcome), s)
  {
  }

  lemma RetryKeepsInv(r: Reader, s: State, begun: nat, attempts: seq<Attempt>)
    requires LogOk(r.log, s.history, Epoch(s))
    requires 1 <= |attempts| <= READ_ATTEMPTS
    requires Chained(attempts, 2 * begun, Epoch(s)) && AllOverlapped(attempts)
    requires forall j :: 0 <= j < |r.log| ==> LastEpoch(r.log[j]) <= attempts[0].first
    ensures ReaderInv(Retry(r, begun, attempts), s)
  {
    if |attempts| == READ_ATTEMPTS {
      FinishKeepsInv(r, s, begun, attempts, NoFrame);
    }
  }

  lemma LogBelowNow(r: Reader, s: State)
    requires LogOk(r.log, s.history, Epoch(s))
    ensures forall j :: 0 <= j < |r.log| ==> LastEpoch(r.log[j]) <= Epoch(s)
  {
    forall j | 0 <= j < |r.log|
      ensures LastEpoch(r.log[j]) <= Epoch(s)
    {
      assert ReadOk(r.log[j], s.history, Epoch(s));
    }
  }

  lemma LoadKeepsReader(s: State, r: Reader)
    requires s.sequence == Epoch(s) % SEQUENCE_WRAP
    requires ReaderInv(r, s) && r.phase.Loading?
    ensures ReaderInv(AfterLoad(r, s.sequence, Epoch(s)), s)
  {
    var p, now := r.phase, Epoch(s);
    var attempts := p.attempts + [Attempt(now, now)];
    LogBelowNow(r, s);
    SameParity(now);
    assert Chained(attempts, 2 * p.begun, now);
    assert attempts[..|attempts| - 1] == p.attempts;
    if s.sequence == 0 {
      FinishKeepsInv(r, s, p.begun, attempts, NoFrame);
    } else if s.sequence % 2 != 0 {
      RetryKeepsInv(r, s, p.begun, attempts);
    }
  }

  /** The attempt in progress ends now. */
  lemma AttemptEnds(attempts: seq<Attempt>, first: nat, floor: nat, now: nat)
    requires Chained(attempts + [Attempt(first, first)], floor, now)
    ensures first <= now && Chained(attempts + [Attempt(first, now)], floor, now)
  {
    var sketch, ended := attempts + [Attempt(first, first)], attempts + [Attempt(first, now)];
    assert sketch[|attempts|].first == first;
    assert forall k :: 0 <= k < |ended| ==> ended[k].first == sketch[k].first;
    assert forall k :: 0 <= k < |attempts| ==> ended[k].last == sketch[k].last;
  }

  /** An unchanged sequence without a full wrap means the epoch is unchanged, so the copy is the
      stable payload. */
  lemma CopyIsPublished(s: State, r: Reader)
    requires WriterInv(s) && ReaderInv(r, s) && r.phase.Copying? && |r.phase.copy| == |s.words|
    requires s.sequence == r.phase.before && r.phase.first <= Epoch(s)
    ensures Accepted(Attempt(r.phase.first, Epoch(s)), r.phase.before, r.phase.copy, s.history)
  {
    var p := r.phase;
    if Epoch(s) - p.first < SEQUENCE_WRAP {
      SameResidue(p.first, Epoch(s));
      assert s.words[..|s.words|] == s.words;
    }
  }

  lemma RecheckKeepsReader(s: State, r: Reader)
    requires Inv(s) && ReaderInv(r, s) && r.phase.Copying? && |r.phase.copy| == |s.words|
    ensures ReaderInv(AfterRecheck(r, s.sequence, Epoch(s)), s)
  {
    var p := r.phase;
    var now := Epoch(s);
    var attempts := p.attempts + [Attempt(p.first, now)];
    AttemptEnds(p.attempts, p.first, 2 * p.begun, now);
    assert attempts[..|attempts| - 1] == p.attempts;
    if s.sequence == p.before {
      CopyIsPublished(s, r);
      FinishKeepsInv(r, s, p.begun, attempts, Frame(p.before, p.copy));
    } else {
      RetryKeepsInv(r, s, p.begun, attempts);
    }
  }

  /** The wrap-around is even, so the sequence is odd exactly while a frame is being stored. */
  lemma SameParity(epoch: nat)
    ensures epoch % SEQUENCE_WRAP % 2 == epoch % 2
  {
  }

  lemma ResidueOfSum(epoch: nat, more: nat)
    ensures (epoch % SEQUENCE_WRAP + more) % SEQUENCE_WRAP == (epoch + more) % SEQUENCE_WRAP
  {
  }

  /** Two epochs less than a full wrap apart with the same sequence are the same. */
  lemma SameResidue(first: nat, last: nat)
    requires first <= last < first + SEQUENCE_WRAP
    requires first % SEQUENCE_WRAP == last % SEQUENCE_WRAP
    ensures first == last
  {
  }

  lemma ReaderStepKeepsReader(s: State, e: Event)
    requires Inv(s) && Enabled(s, e)
    requires e.BeginRead? || e.LoadSequence? || e.LoadWord? || e.Recheck?
    ensures ReaderInv(Apply(s, e).readers[e.who], s)
  {
    var r := s.readers[e.who];
    assert ReaderInv(r, s);
    match e
    case BeginRead(_) =>
    case LoadSequence(_) => LoadKeepsReader(s, r);
    case LoadWord(_) =>
    case Recheck(_) => RecheckKeepsReader(s, r);
  }

  lemma ReaderStepKeepsInv(s: State, e: Event)
    requires Inv(s) && Enabled(s, e)
    requires e.BeginRead? || e.LoadSequence? || e.LoadWord? || e.Recheck?
    ensures Inv(Apply(s, e))
  {
    ReaderStepKeepsReader(s, e);
    var t := Apply(s, e);
    assert t.readers == s.readers[e.who := t.readers[e.who]];
    forall i | 0 <= i < |t.readers|
      ensures ReaderInv(t.readers[i], t)
    {
      SameSharedStateKeepsReader(s, t, t.readers[i]);
    }
  }

  lemma SameSharedStateKeepsReader(s: State, t: State, r: Reader)
    requires t == s.(readers := t.readers)
    requires ReaderInv(r, s)
    ensures ReaderInv(r, t)
  {
  }

  lemma {:induction false} RunKeepsInv(s: State, run: seq<Event>)
    requires Inv(s) && ValidRun(s, run)
    ensures Inv(Final(s, run))
    decreases |run|
  {
    if |run| > 0 {
      var e := run[0];
      if e.LoadStable? || e.StoreOdd? || e.StoreWord? || e.StoreEven? {
        WriterStepKeepsInv(s, e);
      } else {
        ReaderStepKeepsInv(s, e);
      }
      RunKeepsInv(Apply(s, e), run[1..]);
    }
  }

  lemma InitialInv(width: nat, readers: nat)
    ensures Inv(Initial(width, readers))
  {
  }

  // ---------- Theorems over every run ----------

  /** No torn frame. In every interleaving, a frame that `read_frame` returns is word for
      word the frame of one publication `k`, its sequence is `2k` modulo the wrap, and `k`
      is no older than the publications completed when the call began; as long as fewer
      than 2^63 publications completed inside the accepting attempt. */
  lemma AcceptedFrameWasPublished(width: nat, readers: nat, run: seq<Event>, who: nat, call: nat)
    requires ValidRun(Initial(width, readers), run)
    requires who < |Final(Initial(width, readers), run).readers|
    requires call < |Final(Initial(width, readers), run).readers[who].log|
    ensures var s := Final(Initial(width, readers), run);
            var r := s.readers[who].log[call];
            r.outcome.Frame? ==>
              && |r.attempts| > 0
              && var a := r.attempts[|r.attempts| - 1];
                 a.last < a.first + SEQUENCE_WRAP ==>
                   var k := a.first / 2;
                   && r.begun <= k && 1 <= k <= |s.history|
                   && r.outcome.sequence == 2 * k % SEQUENCE_WRAP
                   && r.outcome.words == s.history[k - 1]
  {
    InitialInv(width, readers);
    RunKeepsInv(Initial(width, readers), run);
    var s := Final(Initial(width, readers), run);
    assert ReaderInv(s.readers[who], s);
    assert ReadOk(s.readers[who].log[call], s.history, Epoch(s));
  }

  /** The same without the side condition, for runs of fewer than 2^63 publications. */
  lemma FramesOfShortRuns(width: nat, readers: nat, run: seq<Event>, who: nat, call: nat)
    requires ValidRun(Initial(width, readers), run)
    requires 2 * |Final(Initial(width, readers), run).history| + 1 < SEQUENCE_WRAP
    requires who < |Final(Initial(width, readers), run).readers|
    requires call < |Final(Initial(width, readers), run).readers[who].log|
    ensures var s := Final(Initial(width, readers), run);
            var r := s.readers[who].log[call];
            r.outcome.Frame? ==>
              && r.outcome.sequence % 2 == 0
              && var k := r.outcome.sequence / 2;
                 r.begun <= k && 1 <= k <= |s.history| && r.outcome.words == s.history[k - 1]
  {
    InitialInv(width, readers);
    RunKeepsInv(Initial(width, readers), run);
    var s := Final(Initial(width, readers), run);
    assert ReaderInv(s.readers[who], s);
    if s.readers[who].log[call].outcome.Frame? {
      ShortRunFrame(s.readers[who].log[call], s.history, Epoch(s));
    }
  }

  lemma ShortRunFrame(r: Read, history: seq<Words>, now: nat)
    requires ReadOk(r, history, now) && now < SEQUENCE_WRAP && r.outcome.Frame?
    ensures r.outcome.sequence % 2 == 0
    ensures var k := r.outcome.sequence / 2;
            r.begun <= k && 1 <= k <= |history| && r.outcome.words == history[k - 1]
  {
    SequenceIsEpoch(r, history, now);
  }

  /** While the epoch stays below the wrap, a returned sequence is the epoch of its attempt. */
  lemma SequenceIsEpoch(r: Read, history: seq<Words>, now: nat)
    requires ReadOk(r, history, now) && now < SEQUENCE_WRAP && r.outcome.Frame?
    ensures r.outcome.sequence == LastEpoch(r)
    ensures r.attempts[0].first <= r.outcome.sequence
  {
  }

  /** Successive calls of one reader never go back in time. */
  lemma SequencesNeverDecrease(width: nat, readers: nat, run: seq<Event>, who: nat, earlier: nat, later: nat)
    requires ValidRun(Initial(width, readers), run)
    requires 2 * |Final(Initial(width, readers), run).history| + 1 < SEQUENCE_WRAP
    requires who < |Final(Initial(width, readers), run).readers|
    requires earlier < later < |Final(Initial(width, readers), run).readers[who].log|
    ensures var log := Final(Initial(width, readers), run).readers[who].log;
            log[earlier].outcome.Frame? && log[later].outcome.Frame? ==>
              log[earlier].outcome.sequence <= log[later].outcome.sequence
  {
    InitialInv(width, readers);
    RunKeepsInv(Initial(width, readers), run);
    var s := Final(Initial(width, readers), run);
    var log := s.readers[who].log;
    assert ReaderInv(s.readers[who], s);
    assert LogOk(log, s.history, Epoch(s));
    if log[earlier].outcome.Frame? && log[later].outcome.Frame? {
      SequenceIsEpoch(log[earlier], s.history, Epoch(s));
      SequenceIsEpoch(log[later], s.history, Epoch(s));
    }
  }

  /** A call that returns nothing either found the sequence at zero, or every one of its
      three attempts overlapped a write: it saw the sequence odd or saw it change. */
  lemma NoFrameMeansOverlap(width: nat, readers: nat, run: seq<Event>, who: nat, call: nat)
    requires ValidRun(Initial(width, readers), run)
    requires who < |Final(Initial(width, readers), run).readers|
    requires call < |Final(Initial(width, readers), run).readers[who].log|
    ensures var r := Final(Initial(width, readers), run).readers[who].log[call];
            r.outcome.NoFrame? ==>
              || (|r.attempts| > 0 && r.attempts[|r.attempts| - 1].first % SEQUENCE_WRAP == 0)
              || (|r.attempts| == 3 && AllOverlapped(r.attempts))
  {
    InitialInv(width, readers);
    RunKeepsInv(Initial(width, readers), run);
    var s := Final(Initial(width, readers), run);
    assert ReaderInv(s.readers[who], s);
    var r := s.readers[who].log[call];
    assert ReadOk(r, s.history, Epoch(s));
    if |r.attempts| == READ_ATTEMPTS && Overlapped(r.attempts[|r.attempts| - 1]) {
      forall k | 0 <= k < |r.attempts|
        ensures Overlapped(r.attempts[k])
      {
        assert k < |r.attempts| - 1 ==> r.attempts[..|r.attempts| - 1][k] == r.attempts[k];
      }
    }
  }

  /** In runs of fewer than 2^63 publications, once a publication was complete before the call
      began, an empty answer means that all three attempts overlapped a write. */
  lemma EmptyAnswersMeanContention(width: nat, readers: nat, run: seq<Event>, who: nat, call: nat)
    requires ValidRun(Initial(width, readers), run)
    requires 2 * |Final(Initial(width, readers), run).history| + 1 < SEQUENCE_WRAP
    requires who < |Final(Initial(width, readers), run).readers|
    requires call < |Final(Initial(width, readers), run).readers[who].log|
    ensures var r := Final(Initial(width, readers), run).readers[who].log[call];
            r.outcome.NoFrame? && r.begun > 0 ==> |r.attempts| == 3 && AllOverlapped(r.attempts)
  {
    NoFrameMeansOverlap(width, readers, run, who, call);
    InitialInv(width, readers);
    RunKeepsInv(Initial(width, readers), run);
    var s := Final(Initial(width, readers), run);
    assert ReaderInv(s.readers[who], s);
    var r := s.readers[who].log[call];
    if r.outcome.NoFrame? && r.begun > 0 {
      LateAttemptsSeeFrames(r, s.history, Epoch(s));
    }
  }

  /** After a publication and before the wrap, no attempt loads a zero sequence. */
  lemma LateAttemptsSeeFrames(r: Read, history: seq<Words>, now: nat)
    requires ReadOk(r, history, now) && now < SEQUENCE_WRAP && r.begun > 0
    ensures r.attempts[|r.attempts| - 1].first % SEQUENCE_WRAP != 0
  {
  }

  // ---------- Freshness from the start of the call ----------

  lemma {:induction false} RunsSplit(s: State, a: seq<Event>, b: seq<Event>)
    requires ValidRun(s, a + b)
    ensures ValidRun(s, a) && ValidRun(Final(s, a), b) && Final(s, a + b) == Final(Final(s, a), b)
    decreases |a|
  {
    if |a| == 0 {
      assert a + b == b;
    } else {
      assert (a + b)[1..] == a[1..] + b;
      RunsSplit(Apply(s, a[0]), a[1..], b);
    }
  }

  /** The call that follows `n` finished ones began after `h` publications, whether it is still under
      way or finished. */
  predicate CallBegan(r: Reader, n: nat, h: nat) {
    || (|r.log| == n && !r.phase.Away? && r.phase.begun == h)
    || (|r.log| > n && r.log[n].begun == h)
  }

  lemma StepKeepsBegin(s: State, e: Event, who: nat, n: nat, h: nat)
    requires Enabled(s, e) && who < |s.readers| && CallBegan(s.readers[who], n, h)
    ensures |Apply(s, e).readers| == |s.readers| && CallBegan(Apply(s, e).readers[who], n, h)
  {
  }

  lemma {:induction false} RunKeepsBegin(s: State, run: seq<Event>, who: nat, n: nat, h: nat)
    requires ValidRun(s, run) && who < |s.readers| && CallBegan(s.readers[who], n, h)
    ensures |Final(s, run).readers| == |s.readers| && CallBegan(Final(s, run).readers[who], n, h)
    decreases |run|
  {
    if |run| > 0 {
      StepKeepsBegin(s, run[0], who, n, h);
      RunKeepsBegin(Apply(s, run[0]), run[1..], who, n, h);
    }
  }

  lemma {:induction false} ReadersStay(s: State, run: seq<Event>)
    requires ValidRun(s, run)
    ensures |Final(s, run).readers| == |s.readers|
    decreases |run|
  {
    if |run| > 0 {
      ReadersStay(Apply(s, run[0]), run[1..]);
    }
  }

  /** A read that begins after `before` never returns a frame older than the last one published by
      then, whatever happens afterwards. */
  lemma ReadsAreFresh(width: nat, readers: nat, before: seq<Event>, who: nat, after: seq<Event>)
    requires ValidRun(Initial(width, readers), before + ([BeginRead(who)] + after))
    requires 2 * |Final(Initial(width, readers), before + ([BeginRead(who)] + after)).history| + 1 < SEQUENCE_WRAP
    ensures ValidRun(Initial(width, readers), before)
    ensures var published := |Final(Initial(width, readers), before).history|;
            var s := Final(Initial(width, readers), before + ([BeginRead(who)] + after));
            && who < |Final(Initial(width, readers), before).readers| == |s.readers|
            && var call := |Final(Initial(width, readers), before).readers[who].log|;
               && (call < |s.readers[who].log| && s.readers[who].log[call].outcome.Frame? ==>
                     s.readers[who].log[call].outcome.sequence / 2 >= published)
  {
    var s0, rest := Initial(width, readers), [BeginRead(who)] + after;
    RunsSplit(s0, before, rest);
    var s1 := Final(s0, before);
    assert rest[0] == BeginRead(who) && rest[1..] == after;
    var s2 := Apply(s1, BeginRead(who));
    var call, h := |s1.readers[who].log|, |s1.history|;
    assert CallBegan(s2.readers[who], call, h);
    RunKeepsBegin(s2, after, who, call, h);
    var s := Final(s2, after);
    if call < |s.readers[who].log| {
      FramesOfShortRuns(width, readers, before + rest, who, call);
    }
  }

  // ---------- The wrap bound is exact ----------

  lemma {:induction false} RunExtends(s: State, run: seq<Event>, e: Event)
    requires ValidRun(s, run) && Enabled(Final(s, run), e)
    ensures ValidRun(s, run + [e]) && Final(s, run + [e]) == Apply(Final(s, run), e)
    decreases |run|
  {
    if |run| == 0 {
      assert (run + [e])[1..] == [];
    } else {
      RunExtends(Apply(s, run[0]), run[1..], e);
      assert (run + [e])[1..] == run[1..] + [e];
    }
  }

  ghost predicate Reaches(s: State, run: seq<Event>, t: State) {
    ValidRun(s, run) && Final(s, run) == t
  }

  lemma Step(s: State, run: seq<Event>, t: State, e: Event) returns (run': seq<Event>)
    requires Reaches(s, run, t) && Enabled(t, e)
    ensures Reaches(s, run', Apply(t, e))
  {
    RunExtends(s, run, e);
    run' := run + [e];
  }

  /** The state after one publication nobody interrupts. */
  function Published(t: State, frame: Words): State {
    t.(sequence := (t.sequence + 2) % SEQUENCE_WRAP, words := frame, history := t.history + [frame])
  }

  lemma StoreAll(s: State, run: seq<Event>, t: State) returns (run': seq<Event>)
    requires Reaches(s, run, t) && t.writer.Storing? && t.writer.next == 0 && |t.writer.frame| == |t.words|
    ensures Reaches(s, run', Stored(t, |t.words|))
  {
    run' := run;
    assert Stored(t, 0) == t;
    var n := 0;
    while n < |t.words|
      invariant 0 <= n <= |t.words| && Reaches(s, run', Stored(t, n))
    {
      run' := Step(s, run', Stored(t, n), StoreWord);
      StoreOne(t, n);
      n := n + 1;
    }
  }

  /** The first `n` words of the frame are stored. */
  function Stored(t: State, n: nat): State
    requires t.writer.Storing? && |t.writer.frame| == |t.words| && n <= |t.words|
  {
    t.(words := t.writer.frame[..n] + t.words[n..], writer := t.writer.(next := n))
  }

  lemma StoreOne(t: State, n: nat)
    requires t.writer.Storing? && |t.writer.frame| == |t.words| && n < |t.words|
    ensures Enabled(Stored(t, n), StoreWord) && Apply(Stored(t, n), StoreWord) == Stored(t, n + 1)
  {
    var frame := t.writer.frame;
    assert (frame[..n] + t.words[n..])[n := frame[n]] == frame[..n + 1] + t.words[n + 1..];
  }

  lemma PublishOnce(s: State, run: seq<Event>, t: State, frame: Words) returns (run': seq<Event>)
    requires Reaches(s, run, t) && t.writer.Resting? && |frame| == |t.words|
    ensures Reaches(s, run', Published(t, frame))
  {
    run' := Step(s, run, t, LoadStable(frame));
    var u := Apply(t, LoadStable(frame));
    run' := Step(s, run', u, StoreOdd);
    u := Apply(u, StoreOdd);
    run' := StoreAll(s, run', u);
    u := Stored(u, |frame|);
    assert u.words == frame;
    run' := Step(s, run', u, StoreEven);
    assert Apply(u, StoreEven) == Published(t, frame);
  }

  lemma PublishMany(s: State, run: seq<Event>, t: State, frame: Words, n: nat) returns (run': seq<Event>, u: State)
    requires Reaches(s, run, t) && t.writer.Resting? && |frame| == |t.words| && n > 0 && t.sequence < SEQUENCE_WRAP
    ensures Reaches(s, run', u) && u.writer.Resting? && u.readers == t.readers && u.words == frame
    ensures u.sequence == (t.sequence + 2 * n) % SEQUENCE_WRAP
    ensures u.history == t.history + seq(n, i => frame)
  {
    run', u := run, t;
    var k := 0;
    while k < n
      invariant 0 <= k <= n && Reaches(s, run', u) && u.writer.Resting? && u.readers == t.readers
      invariant |u.words| == |frame| && (k > 0 ==> u.words == frame)
      invariant u.sequence == (t.sequence + 2 * k) % SEQUENCE_WRAP
      invariant u.history == t.history + seq(k, i => frame)
    {
      run' := PublishOnce(s, run', u, frame);
      ResidueOfSum(t.sequence + 2 * k, 2);
      u := Published(u, frame);
      assert seq(k + 1, i => frame) == seq(k, i => frame) + [frame];
      k := k + 1;
    }
  }

  /** Copies every word but the first and rechecks a sequence that came back. */
  lemma FinishCopy(s: State, run: seq<Event>, t: State) returns (run': seq<Event>, u: State)
    requires Reaches(s, run, t) && |t.readers| == 1 && t.readers[0].phase.Copying? && t.readers[0].log == []
    requires |t.readers[0].phase.copy| == 1 <= |t.words| && t.sequence == t.readers[0].phase.before
    ensures Reaches(s, run', u) && u.history == t.history
    ensures |u.readers| == 1 && |u.readers[0].log| == 1
    ensures u.readers[0].log[0].outcome == Frame(t.sequence, t.readers[0].phase.copy + t.words[1..])
  {
    run', u := run, t;
    var p := t.readers[0].phase;
    var n := 1;
    assert p.copy + t.words[1..1] == p.copy && t.readers == [Reader(p, [])];
    while n < |t.words|
      invariant 1 <= n <= |t.words| && Reaches(s, run', u)
      invariant u == t.(readers := [Reader(p.(copy := p.copy + t.words[1..n]), [])])
    {
      run' := Step(s, run', u, LoadWord(0));
      u := Apply(u, LoadWord(0));
      assert t.words[1..n] + [t.words[n]] == t.words[1..n + 1];
      assert p.copy + t.words[1..n] + [t.words[n]] == p.copy + t.words[1..n + 1];
      n := n + 1;
    }
    assert t.words[1..n] == t.words[1..];
    run' := Step(s, run', u, Recheck(0));
    u := Apply(u, Recheck(0));
  }

  /** Begins a read in a resting state with a frame and copies the first word. */
  lemma BeginCopy(s: State, run: seq<Event>, t: State) returns (run': seq<Event>, u: State)
    requires Reaches(s, run, t) && |t.readers| == 1 && t.readers[0] == Reader(Away, [])
    requires |t.words| >= 1 && t.sequence == 2
    ensures Reaches(s, run', u)
    ensures u == t.(readers := [Reader(Copying(|t.history|, [], Epoch(t), 2, [t.words[0]]), [])])
  {
    run' := Step(s, run, t, BeginRead(0));
    u := Apply(t, BeginRead(0));
    run' := Step(s, run', u, LoadSequence(0));
    u := Apply(u, LoadSequence(0));
    run' := Step(s, run', u, LoadWord(0));
    u := Apply(u, LoadWord(0));
    assert u.readers[0].phase.copy == [t.words[0]];
  }

  /** 2^63 publications inside one attempt bring the sequence back to where it was, and the
      reader accepts a frame that was never published. Any width of at least two words will
      do, and any two frames that differ in the first word and in some other. */
  lemma TornAfterFullWrap(a: Words, b: Words, half: nat) returns (run: seq<Event>)
    requires 2 * half == SEQUENCE_WRAP
    requires |a| == |b| >= 2 && a[0] != b[0] && a[1..] != b[1..]
    ensures ValidRun(Initial(|a|, 1), run)
    ensures var s := Final(Initial(|a|, 1), run);
            && s.history == [a] + seq(half, i => b) && |s.readers| == 1 && |s.readers[0].log| == 1
            && var outcome := s.readers[0].log[0].outcome;
               outcome == Frame(2, [a[0]] + b[1..]) && outcome.words !in s.history
  {
    var s0 := Initial(|a|, 1);
    run := PublishOnce(s0, [], s0, a);
    var t := Published(s0, a);
    run, t := BeginCopy(s0, run, t);
    run, t := PublishMany(s0, run, t, b, half);
    run, t := FinishCopy(s0, run, t);
    var torn := [a[0]] + b[1..];
    assert torn[0] != b[0] && torn[1..] != a[1..];
    assert torn != a && torn != b;
  }
}
