# Proofs about the media core

This project models four parts of the library and proves what they are for.

**The H.264 passthrough send path** (`src/video.rs`, `src/video_passthrough.c`).
An application pushes encoded access units into a bounded queue. A capture
device, on one clock, copies the front of the queue into a frame without
removing it; the encoder, on another clock, takes what is in the frame, reports
it consumed, and sends it if a keyframe gate lets it through. Ids and source
epochs are 32-bit numbers that wrap and skip zero. The point of the code is a
property of all of it together: whatever the threads do and in whatever order,
the receiver gets only what it can decode.

- `WireNumbers.dfy`: the wrapping numbers against unbounded counts.
- `SourceStream.dfy`: the queue, counted without wrapping, with the history of
  every unit that was given an id; `QueueRuns.dfy`: its whole runs;
  `QueueIds.dfy`: whole runs of the deque with its wrapping ids.
- `EncoderGate.dfy`: the keyframe gate; `ManyCodecs.dfy`: what the gate alone
  guarantees with any number of codecs.
- `SendPath.dfy`: the send path as a system of atomic steps (one for each
  section of code under one lock, or between two) and what holds in every run;
  `StepEffects.dfy`: what each step does to the whole state, and when;
  `Decoding.dfy`: when what is sent can be decoded; `SendPathExact.dfy`: that
  this condition is exact.
- `ClearPromise.dfy`, `ClearScripts.dfy`: what `clear` promises, and exactly when
  it holds; `Polls.dfy`: the same for `capture_peek`.
- `VptState.dfy`, `VideoQueue.dfy`, `VideoCodec.dfy`: the same code as classes
  over 32-bit numbers, byte buffers and fields that are updated in place. What a
  method does under one lock, or between two, is proved to be the step of the
  send path that it stands for, from any state. `CallEffects.dfy`: what a call of
  the encoder does and puts out, and that asking for more sends a unit whole.

**The Annex-B scanners** (`AnnexB.dfy`): the two loops of
`src/video_passthrough.c` against the byte-stream format of section B.1 of ITU-T
H.264, a definition of its NAL units by position, and a serialiser.

**The trace headers** (`TraceHeaders.dfy`, `TraceLines.dfy`): the printer in
`src/trace_module.c`, which fills a bounded buffer, and the parser in
`src/event.rs`, which joins repeated names as section 7.3.1 of RFC 3261 allows,
down to the characters of names and lines.

**The life of a `CustomPort`** (`CustomPort.dfy`, `PortCalls.dfy`): the reference counting
between its owner and the audio thread in `src/media_port.rs`.

`Options.dfy` and `Sequences.dfy` hold a datatype and three facts about
concatenation that several of these use.

## How to read the send path

A unit has two numbers: its id, the position in `issued`, and `idx`, its place
among everything the source pushed that passed the size test. Unit b *links* to
unit a when b is a keyframe or the source made nothing between them. An event
log is *decodable* when it starts with a keyframe and everything sent links to
what was sent just before, or repeats it from a codec opened since.

Opening a closed gate for a keyframe is *safe* when what the port and the queue
hold next links to it. `Decoding.SentIsDecodable` says that with only safe
openings all that is sent is decodable, and `SendPathExact.SafetyIsExact` that an
opening is safe if and only if no continuation can spoil the stream. For the
application, `ClearScripts.ClearsExactly` says the same of its own calls: they can
be scheduled into an undecodable stream if and only if the first push after some
clear is not a keyframe, though a keyframe was pushed before that clear and
something else in between.

Where the code and its documentation disagree, the model follows the code:

- `clear` and `pjrs_vpt_source_restarted` are documented to send nothing until
  the source's next keyframe (`src/video.rs:429-430`,
  `src/video_passthrough.h:130-132`). A keyframe of the old stream that is in
  the capture frame or in the encoder's hand at that moment still opens the gate
  of the new epoch. `ClearPromise.ClearSilencesExactly` says exactly when something
  is sent before that next keyframe, whatever else is pushed,
  `ClearPromise.PolledKeyframeIsSent` gives a state where it is,
  `ClearScripts.ClearsExactly` which calls are safe all the same,
  and `ClearScripts.ClearCanSpoil` gives four calls that are not.
- `capture_peek` is documented to return the same unit until it is consumed
  (`src/video_passthrough.h:59-63`). `Polls.SamePollExactly` says exactly when it
  does, and `Polls.PollMovesOn` gives two polls between which nothing was
  consumed and the unit changed.
- `remove_from_conference` is documented to leave the port to `Drop`
  (`src/media_port.rs:147-151`). When PJSIP refuses the removal, the bridge's
  reference is never given back, and the next add forgets the pool of the first:
  `PortCalls.FreedByCalls` and `PortCalls.ReleasedByCalls` give the exact
  conditions over the calls, `CustomPorts.RefusedRemovalLeaks` a run.

## Model

| member | source | states |
|---|---|---|
| WireNumbers.WireSuccessor | src/video.rs:401-402 | the wrapping successor that skips zero is the image of the next count |
| WireNumbers.WireInjective | src/video_passthrough.c:556-558 | ids of units fewer than 2^32-1 apart are equal only for the same unit, so the repeat test is right |
| WireNumbers.WireDistance | src/video.rs:265-272 | the wrapping distance between two ids any number of units apart, with one more when it crosses the skipped zero |
| WireNumbers.WireOrder | src/video.rs:265-272 | within 2^31-2 units either way, the signed wrapping comparison of ids orders the units |
| WireNumbers.WireOrderExact | src/video.rs:269 | exactly the distances, of all, at which that comparison is right wherever the first id lies in the cycle |
| SourceStream.NewestKey | src/video.rs:379 | the position of the last keyframe, with none after it, or -1 when there is none |
| SourceStream.PushPolicy | src/video.rs:368-408 | when a push is accepted, refused, or refused with a keyframe request; what is issued, and exactly which units are lost to overflow and why |
| SourceStream.PushInv | src/video.rs:364-409 | a push keeps the queue gap-free: neighbours link, a lost unit is followed by a lost unit or a keyframe, and the queue is empty while it waits for a keyframe |
| SourceStream.ConsumeInv | src/video.rs:265-272 | consumption through any id, handled or not, keeps the same |
| SourceStream.ClearInv | src/video.rs:434-439 | a clear keeps the same for the next source epoch, in which nothing old is queued |
| SourceStream.PushKeeps | src/video.rs:375-408 | whatever followed a unit at or before the front properly still does after a push, overflowing or not |
| SourceStream.FrontFollows | src/video.rs:364-409 | what comes after the queue's front, queued or yet to be pushed, links to it |
| QueueRuns.RunInv | src/video.rs:364-439 | the queue's invariant holds after every run of pushes with any capacities, consumptions of any ids, and clears |
| QueueRuns.GapFree | src/video.rs:364-409 | in every run, of two surviving units of one epoch with none between them, the later is a keyframe or the source made nothing in between |
| QueueRuns.EmptyWhileWaiting | src/video.rs:368-398 | in every run, while the queue waits for a keyframe it is empty |
| QueueIds.IdsAccounted | src/video.rs:265-272 | in every run of the deque, with any 32-bit numbers reported as consumed, the ids popped, thrown out, cleared and still queued are together just the ids given out, which go round the cycle from 1 |
| QueueIds.EachIdInOnePlace | src/video.rs:364-439 | until the ids come round, each one given out is in exactly one of those places, once, and no other number is in any |
| QueueIds.DoMoves | src/video.rs:265-272 | each operation takes frames off the front and notes their ids in one place: a consumption the longest prefix at or before the id, a clear all, a push what it throws out; only an accepted push gives out an id |
| QueueRuns.History | src/video.rs:364-439 | no operation revises an issued unit or the fate of a departed one, so each id is in one class for good |
| QueueRuns.PushLength | src/video.rs:375-408 | a push leaves at most the capacity queued, or what was queued before if that was more |
| QueueRuns.LengthBound | src/video.rs:416-427 | however the capacity moves, the queue never outgrows the largest one that a push saw |
| EncoderGate.GateExactly | src/video_passthrough.c:575-600 | exactly what passes the gate, in either mode, and what the codec remembers: a keyframe, or anything once one of this epoch went out, unless in mode 0 it does not fit |
| ManyCodecs.EncodeExactly | src/video_passthrough.c:575-602 | exactly which units of which codec are let through, under which epoch, which are dropped for size, and what is pending |
| ManyCodecs.SettleExactly | src/video_passthrough.c:459-486 | the locked section of a keyframe claims its epoch, that of a drop withdraws the claim, and either is recorded |
| ManyCodecs.RunInv | src/video_passthrough.c:569-602 | with any codecs opening, closing and encoding and restarts at any time, every claim to have sent a keyframe of an epoch is backed by one |
| ManyCodecs.FirstUnitIsKeyframe | src/video_passthrough.c:569-602 | the first unit that any codec lets through under each source epoch is a keyframe |
| ManyCodecs.NothingBeforeASentKeyframe | src/video_passthrough.c:579-597 | until a keyframe of the epoch was sent, not just let through and dropped for size, only keyframes get through |
| ManyCodecs.KeyedIsEarned | src/video_passthrough.c:459-486 | when `keyed_epoch` equals `source_epoch`, a keyframe went out under this epoch and nothing was dropped for size since the last commit |
| SendPath.RunBase | src/video_passthrough.c:529-605 | in every run the queue is gap-free, what is in the port, taken or consumed came off the front in order, the codec's memory of the gate agrees with the shared one, and what is past the gate is newer than what that codec let through before |
| SendPath.KeyframeFirstAndAfterDrop | src/video_passthrough.c:466-486 | in every run, the first unit ever sent is a keyframe, and so is the next one sent after a unit is dropped, for its size or half-way |
| SendPath.SentInOrderAndOnce | src/video_passthrough.c:547-562 | in every run, units are sent in order, and no codec sends one twice |
| SendPath.GateAgrees | src/video_passthrough.c:569-602 | in every run, a codec that saw the current epoch thinks a keyframe went out exactly when `keyed_epoch` equals `source_epoch`, wherever restarts land |
| SendPath.ConsumedWasTaken | src/video_passthrough.c:556-564 | in every run, only units a codec took leave as consumed, and one codec takes strictly newer ones |
| SendPath.FitsExactly | src/video_passthrough.c:595-600 | a unit fits exactly when no NAL unit of it, as defined by position, is over the MTU |
| SendPath.WholeOrNotAtAll | src/video_passthrough.c:592-600 | in every run, in mode 0 no packet goes out of a unit with a NAL unit over the MTU, and none is on its way |
| SendPath.SentFits | src/video_passthrough.c:592-600 | in every run, no NAL unit that was sent in mode 0 was over the MTU of the codec that sent it |
| SendPath.SizesAgree | src/video_passthrough.c:1083-1089 | in every run, whatever configurations are asked for, the queue's limit, the device's and the codec's buffer are of one size, every unit is within it, and the device's frame has room for it exactly when its length with the header does not wrap |
| SendPath.ReportTakesOnlyTheHandled | src/video_passthrough.c:563-564 | in every run, a report takes the unit in hand off the queue if it is still there, and no other |
| StepEffects.ConsumeExactly | src/video.rs:265-272 | consumption through an id takes every queued unit up to it, no other, and revises nothing |
| StepEffects.ClearExactly | src/video.rs:434-439 | a clear takes everything queued, ends the wait for a keyframe and the epoch, and leaves all else |
| StepEffects.PushExactly | src/video.rs:364-409 | a push that the policy lets in is issued with the source's count and the current epoch; the count goes up either way, and nothing but the queue changes |
| StepEffects.PeekExactly | src/video.rs:488-514 | the port gets the queue's front if there is one and it may be copied, else nothing |
| StepEffects.ReconfigureExactly | src/video_passthrough.c:1076-1119 | which field values are taken over, given the codec manager's answers, and when the capacity follows |
| StepEffects.TakeExactly | src/video_passthrough.c:547-562 | a unit in the port other than the codec's last one is taken, and otherwise nothing happens |
| StepEffects.ReadExactly | src/video_passthrough.c:569-604 | with the two memories of the gate in agreement, exactly which units are held back, dropped, about to be committed or on their way, in either mode, by the lengths of their NAL units |
| StepEffects.CommitExactly | src/video_passthrough.c:459-486 | a drop withdraws the shared claim and is logged; a keyframe makes it for the epoch that was read |
| StepEffects.PacketExactly | src/video_passthrough.c:515-525 | a unit is logged as sent when its last byte went out, and not before |
| StepEffects.FailExactly | src/video_passthrough.c:503-513 | a failure closes the codec's gate and drops the unit |
| StepEffects.OpenExactly | src/video_passthrough.c:386-396 | a new codec has the mode and the MTU that were negotiated, no handled unit, a closed gate and a buffer of the frame size |
| Decoding.RunInv | src/video_passthrough.c:529-605 | while the gate is open the unit sent last is the one taken last and what lies ahead links to it, in runs with safe openings, and across clears in runs without a breaking push |
| Decoding.SentIsDecodable | src/video_passthrough.c:529-605 | in every interleaving of pushes, overflows, polls, encoder calls, packets, failures, clears, reconfigurations and reopenings in which the gate is opened only safely, all that is sent can be decoded |
| Decoding.SentIsDecodableWithoutStale | src/video_passthrough.c:579-582 | the same whenever no keyframe peeked before a clear opens the gate after it |
| SendPathExact.Pass | src/video_passthrough.c:569-604 | a unit that the gate lets through can be sent whole, and that is all that changes |
| SendPathExact.EncodePort | src/video_passthrough.c:552-604 | a new unit in the port is taken, reported and sent, in either mode, if the gate is open or it is a keyframe, and it fits where that matters |
| SendPathExact.UnsafeSpoils | src/video_passthrough.c:579-602 | from an unsafe opening there is a continuation that sends what cannot be decoded |
| SendPathExact.SafetyIsExact | src/video_passthrough.c:569-602 | after any safely opened run, all continuations from a reading of the epochs are decodable if and only if that reading is safe |
| ClearPromise.QuietRun | src/video.rs:434-439 | from a closed gate with no keyframe queued or in hand, nothing is sent until a keyframe is pushed, whatever else is pushed, cleared, polled, encoded, reconfigured or reopened |
| ClearPromise.OnItsWaySends | src/video_passthrough.c:569-604 | a unit past the gate at a clear, or a keyframe in hand or in the port, can still be sent after it |
| ClearPromise.ClearSilencesExactly | src/video.rs:429-439 | the documented promise, exactly: after a clear, and until the source's next keyframe, something can be sent if and only if such a unit was on its way |
| ClearPromise.PolledKeyframeIsSent | src/video.rs:429-439 | with a keyframe pushed and polled, the promise fails |
| ClearScripts.UnbrokenIsDecodable | src/video.rs:429-439 | an application whose calls contain no breaking push has a decodable stream under every schedule |
| ClearScripts.BreaksSpoils | src/video.rs:429-439 | calls with a breaking push have a schedule with an undecodable stream |
| ClearScripts.ClearsExactly | src/video.rs:429-439 | the calls of an application can be scheduled into an undecodable stream if and only if the first push after some clear is not a keyframe, though a keyframe was pushed before that clear and something in between |
| ClearScripts.KeyframeAfterEveryClear | src/video.rs:429-433 | an application that pushes a keyframe first after every clear is safe, whatever the other threads do |
| ClearScripts.ClearCanSpoil | src/video.rs:429-439 | a keyframe, another unit, a clear and a unit that is no keyframe can be scheduled into an undecodable stream |
| Polls.FrontIsYielded | src/video.rs:496-502 | a queue that is not empty always yields its front: no unit is too large for the frame |
| Polls.SamePollExactly | src/video.rs:488-514 | in every run, a later poll never yields an older unit, and yields the same one if and only if no clear came, no report of that unit and no push that met a full queue |
| Polls.PollMovesOn | src/video.rs:375-398 | two polls yield different units though no codec took anything |
| VptState.WireEpochInjective | src/video_passthrough.c:572-577 | epochs fewer than 2^32-1 restarts apart have different 32-bit forms, and none is 0 |
| VptState.Vpt.Init | src/video_passthrough.c:967-1074 | every refusal, by field values, every failure and its status, after which neither lock nor pool is held; on success epoch 1, no keyframe sent, and the frame length in 32 bits |
| VptState.Vpt.Destroy | src/video_passthrough.c:850-862 | lock and pool are gone and the module is ready for another init |
| VptState.Vpt.SourceRestarted | src/video_passthrough.c:1197-1206 | the epoch moves on by one, whatever its 32-bit form, or nothing happens before init |
| VptState.Vpt.SetKeyed | src/video_passthrough.c:459-464 | the keyed epoch becomes the one that was read, and nothing else changes |
| VptState.Vpt.ReadEpochs | src/video_passthrough.c:571-574 | what is read tells whether a keyframe of this very epoch went out |
| VptState.Vpt.Reconfigure | src/video_passthrough.c:1076-1119 | every refusal, by field values, and its status; frame size and payload type never change; the configuration is replaced exactly when the factory could be unregistered |
| VideoQueue.IdsAreConsecutive | src/video.rs:400-407 | queued ids are never zero, follow each other in the cycle, and end just before the next id |
| VideoQueue.PoppedInWindow | src/video.rs:265-272 | popping while the wrapping comparison holds pops exactly the units up to the one named, when it is in the window |
| VideoQueue.PassthroughQueue.constructor | src/video.rs:311-325 | an empty queue, with a capacity of at least one |
| VideoQueue.PassthroughQueue.PushFrame | src/video.rs:364-409 | refuses empty and oversized frames without trace, and otherwise does to the counted queue what a push does, and to the deque, the next id and the flag what the code does |
| VideoQueue.PassthroughQueue.Admit | src/video.rs:368-408 | the same past the size test, for the fields alone |
| VideoQueue.PushStands | src/video.rs:368-408 | a push of the deque with wrapping ids is one of the counted queue, with the same answer and request |
| VideoQueue.PassthroughQueue.MakeRoom | src/video.rs:375-398 | the overflow: all before the newest keyframe goes, or everything, and the queue then waits for a keyframe unless one arrives |
| VideoQueue.PassthroughQueue.NewestKeyframe | src/video.rs:379 | the backward search finds the newest keyframe |
| VideoQueue.PassthroughQueue.ConsumeThrough | src/video.rs:265-272 | for any id, pops the frames the comparison names; for a unit's id in the window, consumes just the units up to that one |
| VideoQueue.PassthroughQueue.PopThrough | src/video.rs:266-271 | the loop pops the longest prefix whose ids the comparison accepts |
| VideoQueue.PassthroughQueue.CaptureConsumed | src/video.rs:516-525 | the report of a unit consumes the units up to it |
| VideoQueue.PassthroughQueue.Clear | src/video.rs:434-439 | the queue is emptied and the source epoch moves, as one step |
| VideoQueue.PassthroughQueue.Reconfigure | src/video.rs:416-427 | the capacity changes exactly when the C side took the configuration over and registered it, to at least one; the queued frames stay |
| VideoQueue.PassthroughQueue.CapturePeek | src/video.rs:488-514 | the front's bytes, flag and id come out if they fit the buffer, nothing past them is written, and nothing leaves the queue |
| VideoCodec.GetFrame | src/video_passthrough.c:750-782 | the poll step: the capture frame is filled with the front of the queue, byte for byte, or marked empty, or refused when too small |
| VideoCodec.AuFrame.constructor | src/video_passthrough.c:43-51 | a fresh frame holds no unit |
| VideoCodec.VptCodec.constructor | src/video_passthrough.c:386-396 | the opening step: a codec starts without a handled id, with its gate closed and a buffer of the frame size |
| VideoCodec.VptCodec.TakeInput | src/video_passthrough.c:547-562 | the taking step from any state: by its header fields, a frame is taken exactly when it holds a whole unit other than the one handled last |
| VideoCodec.SeenExactly | src/video_passthrough.c:547-555 | of a frame that holds a unit the encoder sees it, with its id, bytes and flag, exactly when the header says that the frame is whole |
| VideoCodec.VptCodec.Report | src/video_passthrough.c:563-564 | the report step from any state, on the wrapping ids |
| VideoCodec.VptCodec.PassGate | src/video_passthrough.c:569-600 | the gate step from any state: after it the codec is as the step says, and a unit that passed is in its buffer byte for byte |
| VideoCodec.VptCodec.Decide | src/video_passthrough.c:575-600 | the gate, the copy and the size check decide as the gate of the model, whose decisions `GateExactly` gives |
| VideoCodec.VptCodec.OpenGate | src/video_passthrough.c:575-584 | a unit may go if it is a keyframe or one of this epoch went out, by the codec's memory of this epoch or else by the shared one |
| VideoCodec.VptCodec.Load | src/video_passthrough.c:586-589 | the copy stays within the buffer and changes nothing about the unit |
| VideoCodec.VptCodec.CheckSize | src/video_passthrough.c:595-600 | a unit is dropped if and only if the codec is in mode 0 and some NAL unit in the buffer, as defined by position, is over the MTU |
| VideoCodec.VptCodec.Forget | src/video_passthrough.c:474-475 | a drop empties the buffer and closes the codec's gate |
| VideoCodec.VptCodec.DropOversized | src/video_passthrough.c:476-485 | the locked step of a drop: the shared claim that a keyframe went out is withdrawn |
| VideoCodec.VptCodec.CommitKey | src/video_passthrough.c:601-602 | the locked step of a keyframe, with the epoch that was read, even if a restart came since |
| VideoCodec.VptCodec.EncodeMore | src/video_passthrough.c:488-527 | a packet step or a failure and its drop, from any state in which a unit is being sent, with the output that `OutputSays` gives; nothing when no unit is |
| VideoCodec.VptCodec.TakeAndReport | src/video_passthrough.c:547-564 | the first two steps of a call, on wrapping ids: `ReportedTakes` says what they do |
| CallEffects.ReportedTakes | src/video_passthrough.c:547-564 | a new unit in the port is taken and consumed, of either kind; otherwise nothing changes |
| VideoCodec.VptCodec.GateAndStart | src/video_passthrough.c:569-604 | the gate step and what follows it, for any first answer of the packetizer |
| VideoCodec.VptCodec.Proceed | src/video_passthrough.c:595-604 | what follows the gate: a drop, a commit, a first packet or a failure |
| VideoCodec.VptCodec.EncodeBegin | src/video_passthrough.c:529-605 | one whole call on wrapping numbers and buffers does what its steps do one after the other, on the very bytes that were pushed: `CallTakes`, `CallSends` and `CallSays` say what that is |
| VideoCodec.CallIsRun | src/video_passthrough.c:529-605 | a whole call is a run of the send path, which for a new unit begins with its taking, its report and the reading of the epochs |
| CallEffects.CallTakes | src/video_passthrough.c:552-564 | every call takes and consumes the new unit in the port, whatever becomes of it, and touches nothing else but the gate's memories and the log |
| CallEffects.CallSends | src/video_passthrough.c:569-604 | exactly when a call holds the unit back, drops it, has it on its way after the first packet, or has sent it, and what the gate then remembers |
| CallEffects.OutputSays | src/video_passthrough.c:503-525 | a packet comes out with its size and the unit's key flag, and `has_more` is set exactly when the unit is still on its way; else it is sent |
| CallEffects.CallSays | src/video_passthrough.c:529-605 | a call puts out a packet exactly when a new unit may go, fits and could be packetized, and the same holds of its fields |
| CallEffects.AskedExactly | src/video_passthrough.c:488-527 | however a unit is cut into packets, asking while there is more gets each of them in order, and sends the unit, once, when its end is reached and not before |
| CallEffects.UnitIsSent | src/video_passthrough.c:488-605 | a call with a new unit that may go and fits, and requests for more while there is more, send the unit whole |
| VideoCodec.ApartInRuns | src/video_passthrough.c:556-577 | in every run the numbers a call compares are close enough, given fewer than 2^31 ids since the port's unit and fewer than 2^32-1 restarts |
| VideoCodec.HoldsOn | src/video_passthrough.c:19-24 | a frame holds its unit whatever any thread does afterwards |
| VideoCodec.AtOn | src/video_passthrough.c:529-605 | pushes, clears, reconfigurations and polls in between leave the codec the one that is open in the state they lead to |
| AnnexB.IsKeyframe | src/video_passthrough.c:105-119 | true exactly when some start code is followed by a header of type 5 or 7; the skip loses none |
| AnnexB.AtStartCode | src/video_passthrough.c:131-142 | at a start code, the unit in hand is ended and the longest so far is right again |
| AnnexB.LargestNal | src/video_passthrough.c:124-147 | the longest of the NAL units the byte string splits into |
| AnnexB.SplitByPosition | src/video_passthrough.c:121-147 | the split lists exactly the NAL units as defined by their positions between start codes |
| AnnexB.LargestIsExact | src/video_passthrough.c:124-147 | on every byte string, no NAL unit is longer than the result, and one is that long unless it is zero |
| AnnexB.RefreshIsUnit | src/video_passthrough.c:105-119 | the keyframe test looks for a NAL unit of type 5 or 7 among those the string splits into |
| AnnexB.RefreshExactly | src/video_passthrough.c:105-119 | byte by byte: what the keyframe test looks for is 0, 0, 1 and a byte with 5 or 7 in its low five bits |
| AnnexB.RoundTrip | src/video_passthrough.c:124-147 | NAL units serialised behind start codes of three bytes or more split back into the same units, in order |
| AnnexB.ScannersOnSerialised | src/video_passthrough.c:105-147 | on a serialised list, the two scanners see its longest payload and whether one has type 5 or 7 |
| TraceHeaders.HdrIsTraced | src/trace_module.c:63-75 | true exactly for the listed names, whatever their case |
| TraceLines.TracedExactly | src/trace_module.c:63-75 | the five names, letter by letter in either case, and no others, are traced |
| TraceHeaders.ExtractHeaders | src/trace_module.c:82-104 | the buffer holds the whole lines of just the headers chosen, in order; nothing is written past it, for any size |
| TraceHeaders.PrintLine | src/trace_module.c:95-100 | one header with its newline, or no trace of one that does not fit |
| TraceHeaders.Blocks | src/trace_module.c:87-101 | a header's line is added exactly when it is listed and fits the room left at its turn; stopping when there is no room loses nothing |
| TraceHeaders.KeptAreTraced | src/trace_module.c:87-92 | only listed headers of the message go out |
| TraceLines.LastHeader | src/trace_module.c:87-101 | a header goes out after those before it if and only if it is traced and its line and newline fit in the room they leave |
| TraceHeaders.ParseTraceHeaders | src/event.rs:544-568 | for every name, the values of its lines in order, joined with a comma and a space; no other names. What a line is, and which lines are headers, the next five rows give |
| TraceLines.ParsesExactly | src/event.rs:547-557 | a line is a header if and only if there is something other than white space before its first colon |
| TraceLines.LineWithColon | src/event.rs:551-558 | its name and value are then the parts around that colon without the white space at their ends, and with nothing else taken off |
| TraceLines.LineWithoutColon | src/event.rs:551-553 | a line without a colon, empty or not, is skipped |
| TraceLines.LineByLine | src/event.rs:546-547 | a block is read line by line, each giving one header or none |
| TraceLines.LastLine | src/event.rs:546-547 | the last line is read whether or not a newline ends it |
| TraceHeaders.BlocksJoin | src/event.rs:538-568 | parsing takes the concatenation of newline-ended blocks to the joining of what each gives |
| TraceHeaders.LineRoundTrip | src/event.rs:547-558 | the line of a clean name and value parses as that name and value |
| TraceHeaders.BlockRoundTrip | src/event.rs:546-567 | a printed block parses as its headers, in order |
| TraceHeaders.TraceRoundTrip | src/event.rs:538-568 | parsing what was printed of a message gives, per name, the values that went out in message order, joined |
| CustomPorts.RunInv | src/media_port.rs:174-209 | in every run the reference count is the owner's, the queued removals', the refused removals' and the bridge's references, and every pool is released at most once |
| CustomPorts.NeverFreedEarly | src/media_port.rs:174-209 | whatever PJSIP answers and whenever removals run, port and context are freed at most once, and not while the owner or a removal may use them |
| CustomPorts.FreedOnceExactly | src/media_port.rs:174-209 | after the drop, with no removal pending, port and context were freed exactly once if no removal that was asked for was refused, and otherwise never |
| CustomPorts.PoolsReleasedExactly | src/media_port.rs:152-160 | after the drop, a pool was released exactly once, or never if and only if an add was made while the port, out of the bridge, still held it |
| CustomPorts.NoRefusalNoLeak | src/media_port.rs:152-160 | with no removal refused every pool was released |
| CustomPorts.RefusedRemovalLeaks | src/media_port.rs:152-160 | a run in which a refused removal leaks the port, the context and a pool |
| PortCalls.Tracked | src/media_port.rs:134-160 | what the calls and PJSIP's answers say of the slot and the pool that the owner holds is what the port has |
| PortCalls.FreedByCalls | src/media_port.rs:174-209 | over the calls: after the drop, with no removal pending, port and context were freed exactly once if and only if no removal from the bridge was refused |
| PortCalls.ReleasedByCalls | src/media_port.rs:134-160 | over the calls: after the drop a pool was released exactly once, or never if and only if an add brought another one while every removal since its own add had been refused |
| PortCalls.AskedAgain | src/media_port.rs:152-160 | after two removals in a row no pool is held, whatever was answered, and the next add loses none |
| CustomPorts.CustomPort.New | src/media_port.rs:88-132 | a new port is in no conference and owns its context; when its information cannot be set the raw port is freed and there is no context |
| CustomPorts.CustomPort.AddToConference | src/media_port.rs:134-143 | an add takes the step of the protocol and answers with the slot, or an error when already added or refused |
| CustomPorts.CustomPort.RemoveFromConference | src/media_port.rs:145-160 | a removal takes the step of the protocol, and a refusal is reported with the pool unreleased |
| CustomPorts.CustomPort.DropPort | src/media_port.rs:174-209 | the drop takes the step of the protocol: removal, pool, then the owner's reference |
| CustomPorts.Pjsip.TrampolineOnDestroy | src/media_port.rs:274-302 | the context is freed if it is still there, and the port |
| CustomPorts.Pjsip.ConfAddPort | src/pjsua_app.rs:853-872 | a slot and an unreleased pool, or an error with the pool released |
| CustomPorts.Pjsip.ConfRemovePort | src/pjsua_app.rs:875-880 | a removal is queued or refused |

## Left out

- Decodability for several sending codecs open at once: a second codec inherits `keyed_epoch`, so what its receiver can decode depends on the keyframe it asks for; `ManyCodecs` has what holds with any number of them.
- Codecs opening or closing during an encoder call: PJMEDIA is assumed to open and close them between calls, and to ask for all packets of a unit before the next one.
- Settings out of range: `max_queue` up to 2^31-2 is assumed where ids are compared, and `max_frame_size` up to 2^32-17 where the device fills its frame and where the scanners count, so that neither wraps.
- Frames refused by the size test: they count as not made by the source, since the code does not wait for a keyframe after one.
- Part of a unit that was dropped half-way: the packets that went out before the failure are not in the log; what is sent next is a keyframe.
- VideoCodec.VptCodec.EncodeMore: a packet over the output buffer is an error to the caller, though the unit goes on and counts as sent; packets are within the MTU, which the buffer is assumed to hold.
- VideoCodec.VptCodec.EncodeBegin: stated for calls with no other thread's step in between; the methods it is made of are stated for any state, which is what interleavings need.
- The packetizer itself: a packet ends past where it began and within the unit, or packetizing fails.
- The copy of the capture frame that the video port hands to the encoder: the frame is modelled as one object that does not change during a call.
- VideoQueue.PassthroughQueue.Clear: the C call is made with the queue locked, as in the source, so it is one step of `SendPath`; a reader of the epoch alone may still come before or after it.
- VptState.Vpt.Init: what PJSIP keeps of the registrations, and its undoing when a later one fails, is not part of the model.
- Source epochs further apart than 2^32-2 restarts, and units further apart than the window: the 32-bit comparisons are then wrong, and `WireOrderExact` says from where on.
- TraceHeaders.ExtractHeaders: which header PJSIP can print in which room is a parameter, except that a printed line is not empty and stays in its room.
- TraceHeaders.TraceRoundTrip: characters are code points; decoding the buffer as UTF-8, lossily, is not modelled.
- CustomPorts.Pjsip.PortDestroy: PJSIP's group lock is assumed to count as the comment in `drop` says.
- The decoder, the render device, keyframe requests and the open and close notifications: they do not touch the send path's state, but for the requests that a flush makes, which `PushPolicy` has.
- SDP negotiation, RTP, timestamps, logging, poisoned locks and panics.
- The wrappers in `src/pjsua_app.rs`, `src/tonegen.rs`, `src/types.rs`, `src/config.rs`, `src/error.rs` and the other callbacks of `src/event.rs`: they would add easy members only.
