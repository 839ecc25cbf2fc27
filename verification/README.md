# Phase4 verification

Phase4 is a real-time audio pipeline. A capture callback or a calibration generator fills a
ring, an analyser thread turns it into per-channel peaks and 32-band envelopes, a mapper
publishes display frames at 60 Hz, and WebSocket, OSC and shared-memory outputs carry them to
clients. This project models the protocols and streaming algorithms of that pipeline and proves
what they keep in every run.

`dafny verify dfyconfig.toml` checks everything.

## Modules

- **SequenceLock**, **FrameRegion**, **FrameReads**: the shared-memory frame region. The lock is a
  step machine with one atomic word per step; the region is a byte array with its layout, its writer
  and its reader; the third module joins them.
- **RunOwnership**, **RunEndings**, **CallCompletion**, **ServiceBehaviour**: who ends an engine run in
  the XPC service, with every lock, take, flag, join and send a separate step; how each run ends, why
  no call hangs, and what the service does for clients, starts, stops and failures.
- **AudioStream**, **StreamSink**, **Generator**, **Analyser**, **Payloads**: samples on their way from
  the callback to display frames. `AudioStream` is the concurrent machine; the others are the mutating
  code of each side.
- **Vocoder**, **Stability**: the filter bank over arbitrary sample arithmetic, and over exact reals.
- **Midi**, **MidiSnapshots**, **MidiMoments**: the MIDI byte listener, its atomics under concurrent
  readers, and when the fields of one frame belong together.
- **Broadcast**: the lazy WebSocket serialiser, refresh on admission and the client limit.
- **Osc**: packet table, encoding and decoding, the exact size limit and the in-place update.
- **Workers**, **StreamFailure**, **ChannelSelection**: bounded joins, start-up with rollback, shutdown,
  the first stream error, and channel selections.
- **Floats**, **Words**, **Arithmetic**: sample values, machine words, and facts about products and
  quotients.

The state machines are run over event lists of any length, so each theorem over a run or a reachable
state holds for every interleaving. Fields that only record what happened are named in each module's
opening comment; no step branches on them. A float is a real, an infinity or a NaN.

## Assumptions

- Fences and acquire/release pairs enforce program order, and atomic accesses interleave: nothing
  weaker is modelled.
- XPC connection handler calls are serial, and nothing arrives on a connection after its closing event.
  `App::new_headless` and `App::shutdown` return.
- In the join loop, sleeping never returns early and the monotonic clock does not run backwards.
- Swapping or copying a watch value under its lock is one step. The JSON encoder is an arbitrary
  function that may refuse a payload.

## Findings

- The sequence lock's bound is exact for every channel count: 2^63 publications inside one read
  attempt bring the sequence back, and the reader returns a frame that was never published
  (`TornFrameAfterFullWrap`).
- `docs/xpc.md:185` says a frame's MIDI fields hold the state at the moment of publication. The code
  loads them one after the other, steps first, so a frame can report a Start with a step count from
  before it (`FrameStepsMayPredateStart`). It does so exactly when the Start arrives between the
  first and the last of the three loads (`FrameCountsFromItsStart`). The three fields describe one
  moment during those loads if and only if at most one event separates the code from the count and
  the step count was not stored to after the frame read it, up to the arrival of the latest event
  (`FrameIsOneMomentExactly`). A moment is matched by which events were counted and latest and by
  the last store to the step count, not by value: two Stops have the same code, so a frame that mixes
  moments can still show values that once stood together. The mapper's snapshots always count from
  their Start (`StartSnapshotsCountFromStart`).
- A handler call of the XPC service can never deadlock, but only polling monitors bound how long it
  waits: while a run is healthy its monitor may win the run lock again and again, as often as one
  likes (`StopCanWaitForPolls`). From the moment a stop has taken the run, nothing polls and the stop
  completes in a bounded number of steps (`CallsAreNeverStuck`, `CallCompletes`, `StopCompletes`).
- The analyser's shutdown drain ends exactly when `sample_rate * channels >= 100`. Below that its
  transfer buffer is empty and a non-empty ring never drains (`DrainAlwaysProgresses`).
- A published frame reads back exactly, except the one whose sequence wraps to zero, which readers
  take for an empty region (`PublishThenRead`).
- Without the range check, the cast of a selection's length to 16 bits would lose it for one
  selection only, the one that lists all 65,536 indices (`CastLosesOnlyTheFullSelection`).

## Model

| member | source | states |
|---|---|---|
| SequenceLock.AcceptedFrameWasPublished | src/frames.rs:351-401 | in every interleaving a returned frame is word for word one publication, no older than those completed before the call, under twice its number modulo 2^64, if fewer than 2^63 publications fell inside the accepting attempt |
| SequenceLock.FramesOfShortRuns | src/frames.rs:351-401 | the same without side condition for runs of fewer than 2^63 publications, with the sequence exactly twice the publication number |
| SequenceLock.SequencesNeverDecrease | src/frames.rs:361-395 | one reader's returned sequences never decrease |
| SequenceLock.ReadsAreFresh | src/frames.rs:351-401 | in every interleaving a read that begins after some run never returns a frame older than the last one published by then |
| SequenceLock.NoFrameMeansOverlap | src/frames.rs:361-400 | an empty answer means the sequence was zero or exactly three attempts were made and each overlapped a write |
| SequenceLock.EmptyAnswersMeanContention | src/frames.rs:361-400 | in runs of fewer than 2^63 publications, an empty answer to a call begun after a publication means all three attempts overlapped a write |
| SequenceLock.TornAfterFullWrap | src/frames.rs:271-291 | at any width of two words or more, 2^63 publications inside one attempt make a reader accept a copy that mixes two frames and was never published, so the bound cannot be raised |
| SequenceLock.RunKeepsInv | src/frames.rs:252-293 | writer, words and every reader's partial copy stay consistent at every single-word step |
| FrameRegion.CellsAligned | src/frames.rs:34-50 | every word cell is aligned to its own width |
| FrameRegion.LayoutIsTheContracts | src/frames.rs:19-50 | offsets, sizes, version and the magic bytes "P4FR" are those of docs/xpc.md, number by number |
| FrameRegion.FiniteByExponent | src/frames.rs:258-263 | a word counts as finite exactly when its IEEE 754 exponent field is not all ones, whatever its sign and fraction |
| FrameRegion.CellsInside | src/frames.rs:99-101 | every cell of any channel count lies inside the frame |
| FrameRegion.CellsDisjoint | src/frames.rs:136-138 | different cells never overlap, and none touches the reserved header bytes |
| FrameRegion.MappingCovers | src/frames.rs:179-180 | the mapping is a whole number of pages, covers the frame and wastes less than a page |
| FrameRegion.StoreKeepsOthers | src/frames.rs:119-138 | storing one cell changes no other cell, reserved byte or slack byte |
| FrameRegion.ReadFrame | src/frames.rs:326-401 | on any mapping, a frame is returned exactly when the header is valid, long enough and the sequence even and non-zero, and it is what the cells hold |
| FrameRegion.Region.constructor | src/frames.rs:172-224 | a new region has a valid header, its write-once fields and sequence zero |
| FrameRegion.NewRegion | src/frames.rs:172-224 | a channel count that does not fit the header is refused, any other gets a valid empty region with the given sample rate and MIDI flag |
| FrameRegion.Region.Publish | src/frames.rs:252-293 | a non-finite frame changes no byte; any other rewrites every cell under the next even sequence and keeps the write-once fields |
| FrameRegion.PublishThenRead | src/frames.rs:252-299 | a quiescent read returns exactly what was published, except when the sequence wraps to zero |
| FrameRegion.HoldsDetermines | src/frames.rs:372-398 | a region's cells determine the frame they hold |
| FrameRegion.CellsAreEnumerated | src/frames.rs:274-288 | the writer's store order visits each payload cell exactly once |
| FrameRegion.PayloadWordsDetermineFrame | src/frames.rs:372-398 | a copy that matches word for word is the whole frame: time, MIDI and all records |
| FrameReads.DecodedFrameWasPublished | src/frames.rs:351-401 | in every interleaving the decoded frame is one published frame in full, from a single publish call |
| FrameReads.TornFrameAfterFullWrap | src/frames.rs:271-291 | for every channel count, any two frames that differ in their time and in anything else can be torn that way: one's time with the other's MIDI and channels |
| RunEndings.EachRunEndsOnce | src/xpc/service.rs:319-385 | each run is taken and shut down at most once; a closed run was taken, shut down and closed out once and sent, in order, reply and stopped(requested) to the client that asked, error and stopped(failed) to whoever was the peer at each send, or nothing, according to whether a request, its monitor or a departed client ended it |
| RunOwnership.MonitorFindsItsOwnRun | src/xpc/service.rs:360-369 | a live monitor holding the run lock only ever sees the run it was spawned for |
| RunEndings.MonitorsTakeOwnRuns | src/xpc/service.rs:360-369 | in every schedule a monitor takes only its own run |
| RunEndings.TransactionsBalance | src/xpc/service.rs:248-297 | one transaction is begun for each run that started and none for a failed start; begun minus ended is the number of runs held or taken and not closed out |
| RunEndings.NoThreadHoldsBothLocks | src/xpc/service.rs:319-332 | no thread holds both locks, and the joiner holds neither |
| RunEndings.RequestedStopReachesAsker | src/xpc/service.rs:158-165 | a reply and its stopped(requested) go to the connection the request came from, which is the peer and has not closed |
| CallCompletion.CallsAreNeverStuck | src/xpc/service.rs:240-339 | while any handler call is in progress, wherever it waits, some thread can move |
| CallCompletion.CallCompletes | src/xpc/service.rs:240-369 | under every schedule a handler call finishes within a bounded number of thread steps, plus three for each peer that arrives and five for each time a monitor finds its run healthy and polls again |
| CallCompletion.StopCanWaitForPolls | src/xpc/service.rs:349-369 | for every n there is a reachable stop waiting for the run lock and a schedule without new peers in which the monitor takes the lock n times in five steps each and the stop still waits, so the polling term cannot be dropped |
| CallCompletion.StopCompletes | src/xpc/service.rs:319-332 | once the run has been taken, or there is none, no polling is left and the bound grows only with arriving peers |
| RunOwnership.StepKeepsInv | src/xpc/service.rs:99-385 | ownership, locks, peer, transactions and answers stay consistent after every step of every thread; a peer or a run is held only for an open or served client |
| ServiceBehaviour.NothingLastsWithoutClient | src/xpc/service.rs:126-134 | with no connection open and no call in progress the peer is free unless one is being activated, and no engine runs |
| ServiceBehaviour.PeersAreRefusedExactly | src/xpc/service.rs:99-119 | a new peer is refused exactly while a connection is open or its last call has not finished |
| ServiceBehaviour.NextPeerIsServed | src/xpc/service.rs:106-118 | after a closing call has finished the next peer that arrives becomes the peer and its connection is opened |
| ServiceBehaviour.CloseFreesThePeer | src/xpc/service.rs:130-134 | under every schedule a served closing event leaves no connection, no peer and no run |
| ServiceBehaviour.EveryRequestIsAnswered | src/xpc/service.rs:141-166 | every request is answered exactly once, in order, to the client that sent it |
| ServiceBehaviour.StartTakesEffect | src/xpc/service.rs:240-305 | a start that finds no run and whose engine starts leaves one new run held with its monitor polling and one transaction begun; any other changes nothing |
| ServiceBehaviour.EndTakesTheRun | src/xpc/service.rs:319-332 | ending takes whatever run is held, sets its stop flag before the join and records why |
| ServiceBehaviour.StopLeavesNothingHeld | src/xpc/service.rs:307-332 | under every schedule, when a stop or a closing event has been served no run is held |
| ServiceBehaviour.FailureIsTakenExactly | src/xpc/service.rs:360-372 | a monitor takes its run if and only if the engine stopped itself |
| ServiceBehaviour.FailureReachesTheClient | src/xpc/service.rs:374-383 | a failed run's events go to the client that is connected when they are sent |
| ServiceBehaviour.FailureWithoutClient | src/xpc/service.rs:403-408 | with nobody connected or served they go to nobody |
| AudioStream.StreamIsConserved | src/managers/analyser.rs:112-122 | in every interleaving committed samples are analysed ++ carried ++ ring, the ring never overflows, an admitted frame's next push always has room, and the carry is shorter than a frame |
| AudioStream.StreamIsAligned | src/managers/audio.rs:174-203 | sample q*c+r of the analysed stream is output channel r of the q-th kept hardware frame, and frames keep their order |
| AudioStream.NothingIsDroppedWithRoom | src/managers/audio.rs:174-203 | in every interleaving whose vacancy checks saw room for what was offered, both paths keep every frame |
| AudioStream.ShortFramesArePassedOver | src/managers/audio.rs:189-195 | a frame whose check saw too little is passed over whole, and only such a frame |
| AudioStream.FlattenAt | src/managers/audio.rs:189-199 | position q*c+r of a stream of whole frames is sample r of frame q |
| AudioStream.StepKeepsInv | src/managers/audio.rs:174-203 | every producer and consumer step keeps room, alignment, order and conservation, even with stale occupancy |
| StreamSink.Sink.Push | src/managers/audio.rs:174-203 | both modes commit exactly the selected channels of the first whole frames that fit, and report a drop exactly when one did not |
| StreamSink.Sink.PushWhole | src/managers/audio.rs:176-184 | the fast path commits what the identity selection would |
| StreamSink.Sink.PushFrames | src/managers/audio.rs:185-202 | the per-frame loop commits a prefix of the frames, each whole |
| StreamSink.AdmittedAreFitting | src/managers/audio.rs:189-195 | admitting until one frame does not fit admits as many as rounding the vacancy down does |
| StreamSink.ChunksFlatten | src/managers/audio.rs:180-182 | the first m frames of a callback are its first m*channels samples |
| StreamSink.SelectAllIdentity | src/managers/audio.rs:113-125 | selecting every channel in order changes no frame |
| Generator.FillBuffer | src/managers/generator.rs:36-73 | the strided fill writes each frame's one sample to every channel and returns the phases after exactly those frames |
| Generator.ChunksContinue | src/managers/generator.rs:101-109 | the signal does not depend on where chunks end |
| Generator.Produce | src/managers/generator.rs:101-117 | only whole frames of the chunk are committed, as many as fit, and the phases move on by the whole chunk |
| Analyser.TransferBufferHasRoom | src/managers/audio.rs:84-87 | the transfer buffer is whole frames, with room for one exactly at 100 samples per second or more |
| Analyser.SilenceIsZero | src/dsp/payload.rs:30-38 | before the first analysis every peak and each of the 32 bins is zero |
| Analyser.SizesAreExact | src/managers/audio.rs:69-87 | the samples that fit into so many milliseconds, and the least whole number of frames that holds them |
| Analyser.DrainAlwaysProgresses | src/managers/analyser.rs:219-232 | every pop takes something from a non-empty ring if and only if sample_rate * channels >= 100 |
| Analyser.PeakIsLargest | src/managers/analyser.rs:40-50 | in plain numbers: the peak is no NaN, bounds every finite sample from both sides, is some sample or its negative unless it is the start, and is infinite exactly when a sample is |
| Analyser.InterleavedPeak | src/managers/analyser.rs:40-50 | the strided loop computes the peak of one channel's own samples, which lie between it and its negative |
| Analyser.AnalyserState.DrainOnce | src/managers/analyser.rs:219-232 | one iteration moves a prefix of the ring into the stream in order, whatever its size, and keeps every band in the state of its own fold |
| Analyser.AnalyserState.DrainAll | src/managers/analyser.rs:219-232 | after shutdown the loop ends with an empty ring and loses nothing |
| Analyser.AnalyserState.Process | src/managers/analyser.rs:112-122 | the whole-frame prefix is analysed and the rest carried to the front |
| Analyser.AnalyserState.Analyse | src/managers/analyser.rs:126-159 | the published payload holds this chunk's levels in every channel whatever the recycled buffer held, and nothing is published once every receiver is gone |
| Analyser.AnalyserState.BinsFollowTheStream | src/managers/analyser.rs:129-139 | each published bin is finite and is what a lone band holds after that channel's samples of everything analysed so far |
| Analyser.BandsHearTheirChannel | src/managers/analyser.rs:129-133 | over every interleaving, sample q that the bands of output channel ch fold is hardware channel selection[ch] of the q-th kept frame, one for each analysed frame |
| Analyser.AnalyserState.DrainStep | src/managers/analyser.rs:219-232 | an analyser that follows the concurrent machine still does after one iteration, which is that machine's pop and process or nothing, so it stays among the reachable states |
| Analyser.DrainIsPopAndProcess | src/managers/analyser.rs:112-122 | analysing whole frames and carrying less than one leaves no choice: it is the machine's step |
| Analyser.AnalyserState.PublishedBinsFoldHardware | src/managers/analyser.rs:126-139 | over every interleaving each published bin is finite and is a lone band's fold over hardware channel selection[ch] of the kept frames, one sample each, in order |
| Analyser.AnalyserState.constructor | src/managers/analyser.rs:87-107 | every channel starts with its own fresh filter bank and nothing carried |
| Payloads.OverwriteForgets | src/managers/analyser.rs:129-139 | writing an analysis into a recycled buffer succeeds and leaves nothing of the old contents |
| Payloads.RecyclingIsInvisible | src/managers/mapper.rs:64-104 | every run publishes what an account without buffers says, all buffers keep every channel, and no copy panics |
| Payloads.DisplayNeverGoesBack | src/managers/mapper.rs:79-104 | each display frame is one raw payload, never from before the first analysis and never older than the previous one |
| Vocoder.VocoderAnalyser.ProcessInterleaved | src/dsp/vocoder.rs:185-216 | the sample-major loop leaves each band where its own fold over that channel's samples ends |
| Vocoder.VocoderAnalyser.ProcessBand | src/dsp/vocoder.rs:192-213 | an overflow clears that band only |
| Vocoder.VocoderAnalyser.Reset | src/dsp/vocoder.rs:229-237 | every band becomes a fresh one |
| Vocoder.ChunkingIsInvisible | src/dsp/vocoder.rs:185-216 | every split into whole-frame chunks ends in the state of one fold over the channel's samples |
| Vocoder.StridedAt | src/dsp/vocoder.rs:186-189 | a channel's stream holds one sample of each frame in order and no other channel's |
| Vocoder.FoldStaysSound | src/dsp/vocoder.rs:185-216 | after any samples every bin is finite and equals its envelope, for any arithmetic |
| Vocoder.BinsStaySound | src/dsp/vocoder.rs:185-216 | the same from construction over any chunks |
| Vocoder.NonFiniteSamplesAreSkipped | src/dsp/vocoder.rs:188-191 | non-finite samples change nothing |
| Vocoder.OverflowRecovers | src/dsp/vocoder.rs:194-199 | after an overflow a band goes on like a fresh band fed the remaining samples |
| Stability.JuryIsExact | src/dsp/vocoder.rs:117-121 | the Jury conditions on two reals hold exactly when both roots are strictly inside the unit circle |
| Stability.StabilityCheckIsExact | src/dsp/vocoder.rs:106-122 | the check on stored coefficients accepts exactly the finite ones whose poles are inside the unit circle, whatever the feedforward taps |
| Stability.EveryQuadraticHasRoots | src/dsp/vocoder.rs:117-121 | every coefficient pair is that of two such roots, given its discriminant's square root |
| Stability.EveryRootInside | src/dsp/vocoder.rs:117-121 | any complex root of an accepted quadratic is inside the unit circle |
| Stability.EnergyStep | src/dsp/vocoder.rs:97-99 | along the zero-input recurrence the energy changes by exactly minus a square |
| Stability.EnergyIsPositive | src/dsp/vocoder.rs:97-99 | for accepted coefficients the energy bounds the squared outputs from above |
| Stability.EnergyNeverRises | src/dsp/vocoder.rs:97-99 | the energy never rises, for all time |
| Stability.SilenceClearsInputs | src/dsp/vocoder.rs:193-193 | two silent samples empty the input history of any sound band |
| Stability.SilentTail | src/dsp/vocoder.rs:193-193 | over silence the modelled filter follows the zero-input recurrence |
| Stability.SilentOutputsStayBounded | src/dsp/vocoder.rs:193-193 | from any sound band, a silent tail of an accepted filter stays within a bound fixed by its state two samples into the silence, for all time |
| Stability.FilterIsDifferenceEquation | src/dsp/vocoder.rs:194-194 | on exact arithmetic a band's outputs satisfy the difference equation of its five coefficients over all samples, from silence |
| Stability.BinFollowsRectifiedOutput | src/dsp/vocoder.rs:204-208 | on exact arithmetic the bin is the envelope follower over the magnitudes of those outputs, from zero |
| Stability.FollowerIsReal | src/dsp/vocoder.rs:36-44 | on exact arithmetic the modelled follower is the real recurrence over any input |
| Stability.NeverOvershoots | src/dsp/vocoder.rs:36-44 | one step moves strictly towards the target and never past it |
| Stability.EnvelopeStaysInRange | src/dsp/vocoder.rs:36-44 | the envelope lies between zero and the largest rectified input since reset |
| Stability.ErrorShrinksGeometrically | src/dsp/vocoder.rs:36-44 | under a constant target the error after n samples is (1-c)^n times the first |
| Midi.StepsSinceLastStart | src/managers/midi.rs:87-107 | the step count is the 0xF8 bytes after the last 0xFA, six to a step, modulo 2^32, whatever came before |
| Midi.TransportsAreAll | src/managers/midi.rs:112-116 | the transport list holds every 0xFA, 0xFB and 0xFC once, in order, and nothing else |
| Midi.BytesAndNames | src/managers/mapper.rs:123-130 | from each byte on the wire to the number in a frame and the name in a display frame |
| Midi.NextTick | src/managers/midi.rs:99-105 | counting to six and then adding one to a 32-bit word is dividing by six |
| Midi.Listener.RecordByte | src/managers/midi.rs:87-116 | after any bytes, steps, count and latest code are those of the whole history |
| Midi.Listener.Callback | src/managers/midi.rs:264-268 | only the concatenation of messages matters, never how bytes were split |
| MidiSnapshots.EventsReportedOnceInOrder | src/managers/mapper.rs:109-121 | in every interleaving each transport event is reported at most once, in order, with its own code |
| MidiSnapshots.NewestEventIsNotLost | src/managers/midi.rs:112-116 | the newest recorded event is pending or has been handed to the mapper |
| MidiSnapshots.StartSnapshotsCountFromStart | src/managers/mapper.rs:109-121 | a snapshot that says start counts its steps, as of its own load, from that Start or a later one |
| MidiSnapshots.FrameLatestCoversCount | src/managers/frame_writer.rs:52-56 | a frame's latest code is at least as recent as the events its count includes, and its steps are those after the bytes received when it loaded them |
| MidiSnapshots.FrameStepsMayPredateStart | src/managers/frame_writer.rs:52-56 | a reachable run in which a frame says start with a step counted before that Start |
| MidiMoments.FrameCountsFromItsStart | src/managers/frame_writer.rs:52-56 | a frame that says start counts its steps from that Start exactly when it read them after the Start arrived, that is, unless the Start arrived between its first and last load; otherwise they are those from before |
| MidiMoments.FrameIsOneMomentExactly | src/managers/frame_writer.rs:52-56 | a frame's steps, count and latest code are, by events and stores rather than by value, those of one moment between its own first and last load if and only if at most one event separates code and count and the step count was not stored to between its load and the arrival of the latest event |
| MidiMoments.StartFrameIsOneMomentExactly | src/managers/frame_writer.rs:52-56 | for a frame that says start that is: at most one event apart, and steps read after the Start arrived |
| MidiMoments.DescribedStepsMatch | src/managers/frame_writer.rs:52-56 | at such a moment the step counter held the frame's own value |
| MidiMoments.StepsChangeByWrites | src/managers/midi.rs:87-107 | receiving a byte changes the step counter exactly when it is counted as a store: to zero for a Start, to the next value for a sixth clock |
| MidiMoments.WritesOrderMoments | src/managers/midi.rs:87-107 | stores to the step counter only accumulate, and between two prefixes with equally many of them it keeps its value |
| MidiSnapshots.StepKeepsInv | src/managers/midi.rs:87-116 | the meaning of every atomic holds between any two accesses |
| Broadcast.OnlyFiniteTextsAreSent | src/managers/server.rs:185-248 | every text sent encodes an all-finite payload or is the empty fallback |
| Broadcast.TextsArriveInOrder | src/managers/server.rs:543-599 | no version is sent twice to a client, and texts come in the order of their payloads |
| Broadcast.AdmittedClientsStartFresh | src/managers/server.rs:407-423 | a client admitted after a refresh that could encode a payload starts from that payload or a newer one |
| Broadcast.ClientsAreBounded | src/managers/server.rs:407-423 | live clients never exceed the limit, and no slot is free exactly when that many are connected |
| Broadcast.AdmissionIsExact | src/managers/server.rs:407-412 | a client is turned away exactly when as many are connected as the limit allows; otherwise it takes a slot and a refresh is asked for |
| Broadcast.SlotsFollowClients | src/managers/server.rs:414-423 | an admitted client is connected with nothing sent yet, and one that leaves frees its slot |
| Broadcast.RefreshReadsTheNewest | src/managers/server.rs:485-501 | a refresh reads the newest payload, publishes its text only if that changed, and tells the admission exactly when it is finite and encodable |
| Broadcast.FirstTextIsTheFirstPayloads | src/managers/server.rs:240-248 | the seed is the first payload's encoding, or the empty fallback if that is not finite or refused |
| Broadcast.PayloadsWakeTheSerialiser | src/managers/server.rs:456-471 | after a pass the serialiser sleeps until the next payload, which wakes it |
| Broadcast.ConnectedClientsAreServed | src/managers/server.rs:471-496 | while a client is connected every finite, encodable payload the serialiser sees becomes the newest text, which the client has been sent or is sent next; with nobody connected and no refresh nothing is encoded |
| Broadcast.RefreshNeverHangs | src/managers/server.rs:92-97 | the accept loop's refresh always has a step that brings it closer, even when the serialiser is gone |
| Broadcast.StepKeepsInv | src/managers/server.rs:448-504 | texts, clients, slots and refreshes stay consistent after every step |
| Workers.JoinWithTimeout | src/worker.rs:158-188 | at most ceil(timeout/10 ms)+1 checks; joins at the first check that finds the thread finished, detaches only after the whole grace period |
| Workers.BoundIsTight | src/worker.rs:158-188 | a clock that only sleeps and a thread that never ends reach that number of checks |
| Workers.GracePeriods | src/worker.rs:17-38 | the grace periods in milliseconds, and 26, 101 or 151 checks at most |
| Workers.WorkerThreads.Register | src/worker.rs:133-135 | a worker joins the end of the shutdown sequence |
| Workers.WorkerThreads.Shutdown | src/worker.rs:141-145 | each handle is joined or detached exactly once in registration order, within the summed bounds; a second call does nothing |
| Workers.App.Bootstrap | src/bootstrap.rs:119-191 | workers start in shutdown order; an output failing at any position stops everything started before it |
| Workers.App.SpawnOutputs | src/bootstrap.rs:238-295 | outputs are registered as configured up to the first that fails |
| Workers.App.Shutdown | src/app.rs:327-343 | everything ever started has ended once, and a second call changes nothing |
| StreamFailure.AppState.FailHardwareStream | src/app.rs:94-100 | runs the two steps in order, and until a host takes it the recorded error is the first of the run |
| StreamFailure.AppState.EngineFailure | src/app.rs:228-236 | runs the two steps of a poll; the first poll of an engine stopped by stream errors alone names the first error of the run, and a poll with none recorded reports a plain stop |
| StreamFailure.FirstErrorIsReported | src/app.rs:94-110 | however callbacks and polls interleave, an engine stopped by stream errors alone reports the first of them |
| StreamFailure.LaterErrorsNeverReplaceFirst | src/app.rs:94-100 | once stored, the first error is the one reported |
| StreamFailure.ErrorsAreReportedOnce | src/app.rs:102-110 | polls name at most as many errors as callbacks stored, so none is reported twice |
| ChannelSelection.Normalise | src/config/resolve.rs:217-232 | strictly ascending with the same set of indices; an empty list is an error, an absent one passes |
| ChannelSelection.NormalFormIsUnique | src/config/resolve.rs:228-231 | order and repetition in the request do not matter |
| ChannelSelection.Validate | src/bootstrap.rs:305-315 | accepted exactly when every index is below the channel count, otherwise the largest index is named |
| ChannelSelection.AscendingIsShort | src/bootstrap.rs:305-315 | a range-checked selection is no longer than the hardware channel count |
| ChannelSelection.CastLosesOnlyTheFullSelection | src/managers/audio.rs:134-141 | the 16-bit cast loses a normalised length exactly for the list of all 65,536 indices |
| ChannelSelection.Prepare | src/bootstrap.rs:116-119 | an absent request keeps every channel; a listed one becomes a selection every push accepts, counted exactly, of the requested channels at the hardware rate; what fails names the largest index |
| Osc.AddressesAreUnique | src/managers/osc.rs:155-166 | different channels or bins have different addresses |
| Osc.AddressReads | src/managers/osc.rs:155-166 | an address reads "/ch/", the channel, "/bin/", the bin |
| Osc.DigitsAreDecimal | src/managers/osc.rs:159-159 | the digits are the number's decimal numeral without leading zeros |
| Osc.TableAddressesAreUnique | src/managers/osc.rs:155-166 | no two messages of the table share an address |
| Osc.BuildPackets | src/managers/osc.rs:155-166 | message i has the address of channel i/32, bin i mod 32 |
| Osc.BundleRoundTrip | src/managers/osc.rs:173-178 | decoding by the specification gives back every address and value in order |
| Osc.KnownDatagram | src/managers/osc.rs:173-178 | one whole datagram byte by byte, as the specification spells it |
| Osc.WireConstants | src/managers/osc.rs:173-178 | the bundle header with its immediate time tag, and the type tag of one float |
| Osc.EncodedSizeIsExact | src/managers/osc.rs:137-149 | the encoded length depends on the channel count alone |
| Osc.SizeLimitIsExact | src/managers/osc.rs:137-149 | the size strictly increases and is at most 65,507 bytes exactly up to 73 channels |
| Osc.PrepareBinBundle | src/managers/osc.rs:137-149 | start-up succeeds exactly up to 73 channels and reports the size otherwise |
| Osc.OscRuntime.Update | src/managers/osc.rs:270-291 | each bin the payload has replaces its own message's value; addresses and other values stay |
| Osc.OscRuntime.SendFrame | src/managers/osc.rs:270-301 | a receiver decodes the datagram to the table with the payload's values at their addresses, within the limit |

## Left out

- Memory orders weaker than program order: fences are taken as enforcing it, as stated under Assumptions.
- `mmap`, page size errors, the system clock, libxpc, logging and log latches: foreign calls or output only. The page size, the publication time and clock readings are inputs.
- Stability.JuryIsExact: over exact reals; rounding of stored coefficients, denormal flushing, `exp`, `ln` and `sin` are not modelled. The envelope coefficients are taken in (0, 1].
- Stability.SilentOutputsStayBounded: over exact reals, for the reason above. Vocoder needs no such restriction.
- Workers.App.Bootstrap: device resolution and validation before the first thread starts are inputs, and a thread that cannot be spawned (a panic) is not modelled.
- ChannelSelection.Normalise: the library's in-place sort is modelled by an insertion sort on values, which gives the same list.
- Analyser.AnalyserState.DrainAll: producers have stopped; while they run, the loop's interleavings are those of AudioStream. The arrays behind a payload are values here, and Payloads models their recycling.
- FrameRegion.Region.Publish: a channel count other than the region's panics in the original and is a precondition here.
- Ring capacity as the next power of two: any capacity is allowed.
- The WebSocket handshake, origin policy, control frames, close codes and write deadlines: a client may leave at any step instead.
- The OSC MIDI messages and send failures; the mapper's timer cadence; the generator's deadline and its sine.
- Fairness of the two mutexes and of the scheduler: which waiting thread gets a lock is left open, and the bounds are stated for every choice.
- A frame published between a refresh and the receiver clone can be skipped until the next update, a refresh that reads a non-finite payload keeps the older text, and a failed run's last events may reach a later client: the code promises no more.
- Configuration precedence, single-value range checks, command line, device listing and the terminal controller: each is settled by reading one branch.
