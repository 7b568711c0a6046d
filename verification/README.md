# The data path of a source-measure-unit server

This project models the server's data path and control state and proves properties of
it for every input, every run and every interleaving. Samples arrive in bulk transfers,
enter a ring buffer, and are read by listeners that decimate them or wait for triggers;
frames go into a bounded per-client queue; waveform sources produce the output samples;
capture commands change a device's state and are announced to every attached client.

| file | what it models |
|---|---|
| `Common.dfy`, `Samples.dfy` | options, results, facts about remainders; sample values with NaN |
| `RingBuffer.dfy` | the sample ring of a device, against the full history of every stream |
| `Sources.dfy` | output waveforms, the arbitrary-waveform walker, phase zero, phase hand-over |
| `ListenerModel.dfy`, `Listeners.dfy` | what a listener does, as functions; and the listener object that does it |
| `Packetisation.dfy`, `RingRoom.dfy`, `LiveCapture.dfy` | untriggered delivery does not depend on packets; how large the ring must be; the ring and listener objects running together |
| `Sweeps.dfy`, `SweepLimits.dfy`, `RearmWrap.dfy` | repeating triggers over whole runs, and how sharp the conditions on them are |
| `CaptureResets.dfy` | the same for runs in which the capture is reset |
| `OneWindow.dfy` | counted listeners that do not repeat |
| `TriggerRoom.dfy`, `LiveTriggers.dfy` | the data of triggered sweeps, the ring room they need; the objects running together with a trigger or a count |
| `EdgeScan.dfy`, `Witnesses.dfy` | what the edge scan can miss; device states on which conditions fail |
| `Frames.dfy` | binary and JSON updates |
| `ClientQueue.dfy`, `Deliveries.dfy`, `EndToEnd.dfy` | back-pressure under every interleaving; what becomes of every frame; from samples to received frames |
| `Transfers.dfy`, `M1kCodec.dfy`, `CeeCodec.dfy` | bulk transfers of the two USB devices |
| `ReadBack.dfy` | what their conversions to and from counts mean, and that they undo each other |
| `LeadResync.dfy`, `LeadRuns.dfy` | re-anchoring of the M1K output counter, and whole runs of its transfers |
| `Requests.dfy` | building a listener from a `listen` command |
| `Capture.dfy` | capture state machine, outputs, gains, and each client's picture of its device |
| `Ownership.dfy` | which client and which listener belongs to which device |

Conventions. A `Device` of module RingBuffer and a `StreamingDevice` of module Capture
are the two halves of one structure in the program: sample data, and control state.
Fields that the program updates in place are fields of classes here, and every method of
such a class is proved against a function or a ghost history. 32-bit floats are reals
with a NaN, counters are unbounded naturals. The ghost `history` of a stream is every
sample put to it since the last reset; `Snapshot` is what a reader sees of a device.
The sine of a whole number of turns is a parameter. The state of a REST response stream
(closed, or failing to write) is a parameter of each call, and so is whether a USB
interface could be claimed.

Where the code and its comments differ, the model follows the code: a binary frame
carries the sample index of its first sample always, although its layout comment calls
that field valid only when `idx` is 0. The queue comment promises that the backlog stays
at its limit. The client handle alone does not ensure it: two simultaneous senders of
binary frames could exceed it (`ClientQueue.LimitHoldsExactlyForOneSender`). The program
respects it, because binary frames are sent under the lock of a device
(src/listener.rs:159) and all listeners of a client are on one device
(`Ownership.ServerState.BacklogWithinLimit`).

Findings about the code, each stated as a lemma or in a method's contract:

- an in-stream trigger edge exactly at the sample where a scan restarts is lost
  (`EdgeScan.EdgeLostAtRestart`; `EdgeScan.SilentExactlyForRestartEdges` says that no
  other is);
- the first frame of a sweep forced out of an out-source trigger is never marked as
  forced, because the test of the mark asks for a cursor beyond the forced position and
  such a sweep starts at it (`ListenerModel.MarkedForced`);
- a periodic square wave with a negative phase is high at every sample before its time
  zero, and its phase zero passes over the boundary that follows such a sample, unless
  the sample is on one itself (`Sources.PeriodicExact`, `Sources.SquareWavePhaseZero`);
- a negative holdoff with an offset that is not negative, which the constructor accepts,
  can make a call loop for ever or sweeps overlap
  (`SweepLimits.TerminatesExactlyUnderProgress`, `SweepLimits.DisjointExactlyWhenApart`);
- a negative holdoff can also make the re-arm after a forced in-stream sweep wrap below
  sample zero, to an index near 2^64 (`RearmWrap.RearmsNeverWrapBetweenResets`,
  `RearmWrap.ApartMayWrap`);
- a capture reset leaves the trigger latch of a listener set, so that a restarted capture
  delivers a sweep from sample zero marked as triggered, on a signal that never triggers
  (`CaptureResets.QuietRestart`); with a holdoff below minus the length of a sweep that
  sweep's re-arm wraps, for a trigger of either kind
  (`CaptureResets.RearmsNeverWrapExactly`, `CaptureResets.ResetMayWrap`);
- after a capture reset the first trigger of a listener with a negative offset can reach
  below sample zero, however late the listener was started
  (`CaptureResets.TriggersNeverWrapExactly`);
- the input task of an M1K stops as soon as the submitted transfers cover a finite capture
  and never handles the last of them, so that a capture longer than one transfer is not
  completed by one start (`LeadRuns.FiniteCompletesExactly`);
- an M1K `configure` keeps the lead baseline, so that a later correction can drive the
  output counter below zero (`LeadRuns.StaleBaselineGoesNegative`,
  `LeadRuns.SafeExactlyWhenSecure`);
- a USB device that restarts a finished capture moves the start samples of its outputs
  without telling its clients (`Capture.StreamingDevice.StartCapture` says exactly when,
  `Capture.StartSampleGoesStale` is a run that does it);
- the `setCurrentLimit` command changes the current limit of a CEE without telling its
  clients, so `Promised` drops it from a client's picture
  (`Capture.StreamingDevice.SetCurrentLimit` says exactly when a complete picture goes
  wrong, `Capture.LimitGoesStale` is a run that does it).

## Model

| member | source | states |
|---|---|---|
| `Samples.MeanIsNaN` | src/streaming.rs:199-214 | a mean over a window is NaN exactly when the window is empty or one of its samples is unavailable |
| `Samples.MeanAverages` | src/streaming.rs:210-213 | a mean times the number of its samples is their total |
| `Samples.TotalJoin` | src/streaming.rs:210-212 | the totals of two adjacent windows add up to the total of both |
| `Samples.AverageBetween` | src/streaming.rs:213 | an average lies between any bounds of the samples, so that a constant window has that constant as its average |
| `RingBuffer.ReadExact` | src/streaming.rs:182-195 | whatever the mode and moment, a slot that passes the availability test holds the sample of that index, except index 0 while the sample that first fills the ring is being put |
| `RingBuffer.AgreesPut` | src/streaming.rs:170-179 | storing a sample keeps a buffer in agreement with the history: in a continuous ring only the oldest sample gives way, a full one-shot buffer does not change |
| `RingBuffer.Device.Configure` | src/streaming.rs:658-711 | two channels of two streams, each with a buffer of exactly `samples`, empty histories, counters at zero |
| `RingBuffer.Device.Put` | src/streaming.rs:170-179 | one slot of one stream changes, and only when the capture still stores; the buffers keep agreeing with the histories |
| `RingBuffer.Device.SampleDone` | src/streaming.rs:224-226 | every history grows by the sample that was pending for its stream |
| `RingBuffer.Device.ResetCapture` | src/streaming.rs:275-281 | counters at zero and no index readable, although the stored data is left in place: no sample from before the reset can be read |
| `RingBuffer.Device.Get` | src/streaming.rs:182-195 | the sample of the history when it is available, else NaN; a one-shot overshoot index shows the sample its wrapped slot holds |
| `RingBuffer.Device.Resample` | src/streaming.rs:199-214 | testing the two ends of a window is enough: the result is missing exactly when a single read of the window returns a missing sample, or there is none, and otherwise times the window length it is the total of what the reads return |
| `LiveCapture.SnapshotIsView` | src/streaming.rs:182-195 | between samples of a continuous capture a reader sees exactly the available part of every history |
| `LiveCapture.BoundarySlotIsReused` | src/streaming.rs:189-190 | the slot a pending sample takes over is that of the index at the boundary of the availability test, which the `<=` excludes |
| `LiveCapture.ResampleIsHistoryMean` | src/streaming.rs:199-214 | resampling is the average of the window of the history, in a continuous capture or while the buffer has not overflowed, and NaN exactly when the window is not wholly available |
| `LiveCapture.ViewGrows` | src/streaming.rs:182-195 | samples that come later do not change what a reader saw |
| `LiveCapture.RunGrows` | src/listener.rs:138-212 | samples that come later do not change what was delivered |
| `LiveCapture.HandleByStreams` | src/listener.rs:138-212 | an untriggered unlimited listener depends on the streams and the counter alone |
| `LiveCapture.Packet` | src/streaming.rs:229-272 | putting a packet and calling the listener object keeps it on the course that the packetisation theorems describe |
| `LiveCapture.Stream` | src/streaming.rs:229-272 | after any sequence of packets the listener object has sent exactly the ideal decimated means of the captured histories, up to the delivered count |
| `Sources.MakeAdvSquare` | src/source.rs:98-124 | an error exactly when the period is zero; otherwise the wave described |
| `Sources.MakeArb` | src/source.rs:126-166 | an error, for the first thing wrong, exactly when the points are empty, do not start at zero, go back in time, or repeat with period zero; otherwise a source ready to walk the points |
| `Sources.TriangleInRange` | src/source.rs:209-217 | a triangle stays within offset plus or minus amplitude at every sample |
| `Sources.FirstAtResidueLeast` | src/source.rs:334-346 | the rounding formula yields the least number at or after a sample with a given residue |
| `Sources.PhaseZeroNotBefore` | src/source.rs:310-348 | phase zero is at or after the queried sample, for every kind of source, also after rounding |
| `Sources.SquarePhaseZeroIsFirstRise` | src/source.rs:327-337 | for a square wave with both segments it is the first sample that is high after a low one |
| `Sources.SquareZeroTurnsHigh` | src/source.rs:231-238 | at phase zero the value of a square wave with two values is the high one and just before it the low one, and this holds at no earlier sample from the query on |
| `Sources.SlidingPhaseZeroLeast` | src/source.rs:324-326 | for sine and triangle it is the least real position at or after the sample that is a whole number of periods |
| `Sources.SquareWavePhaseZero` | src/source.rs:313-323 | for a periodic square it is the first whole sample at or after a period boundary strictly after the queried sample: the next boundary, exactly unless the sample is before time zero of the wave and off a boundary, and then the one after it |
| `Sources.ArbPhaseZeroIsPassStart` | src/source.rs:338-346 | for the object of a repeating arbitrary waveform, after its initialization and any evaluations, phase zero is the first sample at which a pass begins, and the waveform has the value of the beginning of a pass there |
| `Sources.WalkFrom` | src/source.rs:249-304 | the forward walk terminates from any valid position and returns the reference value, never visiting a point after the query |
| `Sources.WalkEnds` | src/source.rs:255-304 | where the walk stops, the segment found is the one the reference function interpolates in |
| `Sources.InterpolateExact` | src/source.rs:294-303 | between two points the value is on the straight line through them, at a point it is that of the point, and after the last point it stays |
| `Sources.PeriodicExact` | src/source.rs:199-222 | the value of a sine, triangle or square wave, given how far the sample is into its period; a square is high throughout before its time zero |
| `Sources.OutputSource.GetValue` | src/source.rs:188-306 | for non-decreasing queries every result is the waveform as a function of the sample number alone, which evaluation never changes; a constant has its value, an advanced square is low for the first `lowSamples` of its period and high after them |
| `Sources.OutputSource.Initialize` | src/source.rs:352-426 | replacing a source: the new phase continues the old one for relative phases, and is only normalised otherwise; a waveform with a negative phase starts now, a single pass at its phase, and a repeating one in the same whole period as the sample, as far into it as the phase is |
| `Sources.HeldBeforeStart` | src/source.rs:248-249 | up to that start an arbitrary waveform holds the value it begins with |
| `Sources.OutputSource.HandOverPhase` | src/source.rs:354-379 | the new fraction of a turn is the old source's fraction plus the requested phase, modulo whole turns |
| `Sources.CarryTurns` | src/source.rs:366-378 | the arithmetic of the hand-over, over the reals |
| `Sources.CarriedPositionKeepsFraction` | src/source.rs:387-403 | a square wave's carried position is within half a sample of the exact fraction, and exact for equal periods |
| `Sources.SquareHandOver` | src/source.rs:400-405 | the adjusted phase puts the sample at the requested phase plus the carried position |
| `ListenerModel.FirstEdgeExact` | src/listener.rs:91-107 | one scan reports the first rising edge after its start, NaN counting as not above, or correctly reports none |
| `ListenerModel.ReachedZero` | src/listener.rs:115-124 | an out-source trigger fires at a position between the cursor and the samples already output, which is next to the phase zero of the source |
| `ListenerModel.OutSourceFires` | src/listener.rs:114-130 | with z the phase zero after the cursor and n the sample next to z, the trigger fires exactly when the output has reached n; the window then starts at n plus the offset and n plus the subsample error is z; otherwise it fires at the forced position, exactly when that is collected |
| `ListenerModel.InStreamFires` | src/listener.rs:91-113 | an in-stream trigger fires at the first edge past the cursor plus the offset, and without one exactly when a force is set and the scan has passed the forced position, where the scan stopped |
| `ListenerModel.AvailableExact` | src/listener.rs:66-83 | no chunk while the next one is not followed by another sample; then all that are collected, or all that the count has left |
| `ListenerModel.MarkedForced` | src/listener.rs:229-235 | which sweeps are marked as forced: all those of in-stream triggers that were, none of out-source triggers that were, and of the others those that start past the forced position |
| `ListenerModel.DeliverRearms` | src/listener.rs:189-208 | a re-arm happens only after a whole sweep, all of it collected |
| `ListenerModel.RearmExact` | src/listener.rs:200-208 | a re-armed listener starts over at `holdoff` after the end of the sweep, with the forced position counted from there |
| `ListenerModel.DeliverExact` | src/listener.rs:146-210 | one delivery sends one frame of all available chunks from the cursor and moves past them; it re-arms exactly at the end of a repeating sweep, and the listener leaves exactly with the last chunk of a count that is not repeated, or on a REST stream that cannot be written |
| `ListenerModel.RearmAdvances` | src/listener.rs:200-208 | under `Progress` every re-arm leaves strictly less distance to cover, so a call ends |
| `ListenerModel.RearmStaysAhead` | src/listener.rs:200-208 | after any re-arm of a guarded listener the offset of the next trigger cannot reach below sample zero |
| `ListenerModel.HandleTurn` | src/listener.rs:138-212 | one turn of the loop followed by the rest of the call is the call |
| `ListenerModel.CallMarked` | src/listener.rs:224-238 | in every call of any listener the first frame of a sweep and no other is marked as triggered, and exactly the frame that completes a count that is not repeated is marked as done |
| `ListenerModel.NeverReadsAhead` | src/listener.rs:60-84 | no listener of any kind delivers a sample that has not been collected |
| `Listeners.Listener.ScanEdge` | src/listener.rs:91-107 | the stepping scan finds exactly the first edge, and otherwise stops past the collected samples |
| `Listeners.Listener.FindTrigger` | src/listener.rs:88-134 | the object finds and latches the trigger that the model defines, forced triggers and subsample error included; for every phase zero z and the sample n next to it, an out-source trigger fires as `ListenerModel.OutSourceFires` says |
| `Listeners.Listener.HowManySamples` | src/listener.rs:60-84 | the number of deliverable chunks, the chunk touching the newest sample withheld, a count never exceeded |
| `Listeners.Listener.BinaryFrame` | src/listener.rs:224-263 | the buffer filled in place is the encoding of the frame: every header field and every sample |
| `Listeners.Listener.JsonUpdate` | src/listener.rs:265-303 | the JSON update has the fields of the same frame |
| `Listeners.Listener.CsvRows` | src/listener.rs:167-187 | one row per chunk with one resampled value per stream: row k has the averages of chunk k, in the order of the streams |
| `Listeners.Listener.HandleNewData` | src/listener.rs:138-212 | the loop terminates, and the cursor, the messages sent and whether the listener stays are those of the model |
| `Listeners.Listener.Reset` | src/listener.rs:55-58 | a reset rewinds the cursor and leaves the trigger latch |
| `Packetisation.RunDelivers` | src/listener.rs:138-212 | the invariant of every steady run: the cursor stands at the end of an ideal prefix, at most one window behind the newest sample |
| `Packetisation.DeliveryIsIdealPrefix` | src/listener.rs:60-84 | the joined output of every stream is the ideal decimated-mean stream up to the complete windows, less at most a last one that ends at the newest sample; calling again without new data sends nothing |
| `Packetisation.PacketsDoNotMatter` | src/listener.rs:138-212 | two ways of cutting the same samples into packets deliver the same output up to one withheld chunk |
| `Packetisation.ChunksAreWindows` | src/listener.rs:243-261 | chunks read from a readable cursor are the next ideal means: nothing overwritten is ever delivered when a window and a packet fit the ring |
| `Packetisation.WindowMeanAverages` | src/streaming.rs:199-214 | such an ideal mean is the average of the window of the history, between any bounds of its samples |
| `RingRoom.RoomIsExact` | src/streaming.rs:202-208 | in a continuous capture an untriggered unlimited listener delivers only ideal means, whatever the packets up to a size, if and only if a window and a packet fit the ring together |
| `RingRoom.TooLittleRoom` | src/listener.rs:66-70 | otherwise a listener still waiting for its first window is overtaken by the next packet and delivers an overwritten window |
| `Sweeps.HoldoffKeepsApart` | src/listener.rs:361-364 | with the constructor's guard a non-negative holdoff keeps sweeps apart, and sweeps that stay apart make progress |
| `Sweeps.FindStaysBeyond` | src/listener.rs:88-134 | looking for a trigger never moves the next window before the end of the last |
| `Sweeps.CallExtends` | src/listener.rs:138-212 | one call, however many sweeps it delivers, extends a well-linked log of frames |
| `Sweeps.SweepsNeverOverlap` | src/listener.rs:193-208 | over any run between resets every completed sweep is exactly `count` chunks of one contiguous window, and each window starts at or beyond the end of the one before |
| `SweepLimits.ClearRuns` | src/listener.rs:101-119 | once triggered, or started far enough from sample zero, every call up to the next capture reset can be made: no later trigger's offset reaches below sample zero |
| `RearmWrap.RearmsNeverWrapBetweenResets` | src/listener.rs:200-208 | in every run between capture resets, from every start, each re-arm continues exactly `holdoff` after the end of its sweep, without wrapping, if and only if `HoldoffFits` holds, a condition on the listener's settings alone |
| `RearmWrap.RunStaysExact` | src/listener.rs:200-208 | the same for a run from any cursor whose sweep in progress ends far enough from zero |
| `RearmWrap.ForcedRearmWraps` | src/listener.rs:109-112 | without the condition two calls on a signal that never triggers make a re-arm wrap |
| `RearmWrap.ApartMayWrap` | src/listener.rs:361-364 | settings that the constructor accepts, that make progress and keep sweeps apart, and still re-arm 997 below 2^64 |
| `CaptureResets.RearmsNeverWrapExactly` | src/streaming.rs:275-293 | over runs with any calls and any capture resets, each re-arm continues exactly `holdoff` after the end of its sweep, without wrapping, if and only if `count * decimate + holdoff` is not negative |
| `CaptureResets.ResetRearmWraps` | src/listener.rs:55-58 | otherwise a reset between a trigger of either kind and its sweep makes the re-arm wrap |
| `CaptureResets.ResetMayWrap` | src/listener.rs:361-364 | settings that the constructor accepts, that never wrap between resets, and still re-arm 999 below 2^64 after one |
| `CaptureResets.TriggersNeverWrapExactly` | src/listener.rs:101-119 | over such runs, from a start far enough from sample zero, no trigger's offset reaches below sample zero if and only if the offset is at least -1 (in-stream) or 0 (out-source) |
| `CaptureResets.QuietRestart` | src/listener.rs:55-58 | on a signal that never triggers, a restarted capture sends a frame if and only if the listener was latched when it was reset; it starts at sample zero and is marked as triggered |
| `SweepLimits.SweepsNeverOverlapFromStart` | src/listener.rs:193-208 | the sweep theorem from any start at least `-offset - 1` (in-stream) or `-offset` (out-source), with no assumption about later triggers |
| `SweepLimits.TerminatesExactlyUnderProgress` | src/listener.rs:138-212 | the loop of one call ends on every device state and cursor if and only if `Progress` holds, a condition on the listener's settings alone |
| `SweepLimits.ProgressLeaves` | src/listener.rs:200-208 | under `Progress` re-arming leads out of any set of cursors |
| `SweepLimits.InStreamLoops` | src/listener.rs:361-364 | without it some device state sends an in-stream listener back to the very cursor it came from |
| `SweepLimits.OutSourceLoops` | src/listener.rs:361-364 | the same for an out-source listener whose sweep, offset and holdoff do not pass the phase zero that fired it |
| `SweepLimits.ForcedLoops` | src/listener.rs:120-124 | forced triggers that do not advance and phase zeros that do keep the cursor in a band for ever |
| `SweepLimits.DisjointExactlyWhenApart` | src/listener.rs:193-208 | for configurations that make progress, sweeps are disjoint on all runs if and only if `Apart` holds |
| `SweepLimits.EdgeOverlaps` | src/listener.rs:91-112 | outside `Apart` an in-stream run of two calls overlaps, once the samples up to the re-arm position are overwritten |
| `SweepLimits.ZeroOverlaps` | src/listener.rs:113-119 | sweeps at consecutive phase zeros overlap when offset and holdoff together are negative |
| `SweepLimits.ForcedOverlaps` | src/listener.rs:120-124 | forced sweeps overlap when force and holdoff together are negative |
| `OneWindow.CountIsExact` | src/listener.rs:189-208 | whatever the packets, the samples and the trigger, a counted listener that does not repeat sends the beginning of one contiguous window, stays exactly as long as fewer than `count` chunks are out, and leaves nothing behind but a chunk that touches the newest sample |
| `OneWindow.WindowMeans` | src/listener.rs:60-84 | what that window is: chunk k is sent k-th, and `done` is on the last frame of a complete window and on no other |
| `TriggerRoom.CallFaithful` | src/listener.rs:138-212 | one call of an untriggered or in-stream listener that has lost nothing it wants sends only means of the history, however many sweeps, and leaves nothing behind |
| `TriggerRoom.CallAtEdges` | src/listener.rs:91-112 | without forced triggers and with a holdoff that is not negative, every sweep starts `offset` after a rising edge of the captured signal |
| `TriggerRoom.RoomIsExact` | src/streaming.rs:202-208 | in a ring with the room of an untriggered listener, an in-stream listener never delivers an overwritten sample, whatever the packets up to a size, if and only if a packet and the reach of a negative offset fit the ring together |
| `TriggerRoom.LittleRoom` | src/listener.rs:101-104 | otherwise an edge right behind the newest sample of a full packet gives a sweep that begins overwritten |
| `LiveTriggers.Sweeps` | src/streaming.rs:229-272 | after any packets the listener object with a repeating in-stream trigger has sent whole disjoint sweeps, every chunk the mean of its window of the captured histories, every unforced sweep `offset` after an edge |
| `LiveTriggers.Window` | src/streaming.rs:229-272 | the object with a count that does not repeat has sent one run of means of the captured histories, from its start or `offset` after an edge, and leaves with the chunk that completes the count and not before |
| `EdgeScan.WaitingCall` | src/listener.rs:91-112 | a call whose scan reports nothing sends nothing, stays untriggered and resumes where the scan stopped; any other call triggers |
| `EdgeScan.SilentWhileWaiting` | src/listener.rs:138-212 | over any calls the listener sends nothing and stays untriggered if and only if no scan reports an edge, and its index is then where the next scan restarts |
| `EdgeScan.SkippedEdgesAreAtRestarts` | src/listener.rs:91-112 | over a whole series of scans that report nothing every edge lies exactly at a position where a scan restarted |
| `EdgeScan.WaitsExactlyForRestartEdges` | src/listener.rs:91-112 | a series of scans reports nothing if and only if every edge of the signal falls where a scan restarts |
| `EdgeScan.SilentExactlyForRestartEdges` | src/listener.rs:138-212 | over any calls, with packets smaller than the ring, a listener stays silent and untriggered if and only if every edge of its trigger stream falls where a call resumed the scan |
| `EdgeScan.EdgeLostAtRestart` | src/listener.rs:94-99 | such an edge is really lost, at any level: a signal that triggers a listener when it comes in one packet does not when it comes one sample a packet |
| `Frames.LittleEndianRoundTrip` | src/listener.rs:243-249 | a field of any width reads back as the value modulo its width, for negative values too |
| `Frames.FrameRoundTrip` | src/listener.rs:214-263 | decoding a binary frame by its layout returns every header field modulo its width and the whole data matrix |
| `Frames.BinaryAndJsonAgree` | src/listener.rs:224-303 | the binary frame and the JSON update of the same delivery carry the same fields and data, and the same subsample error when there is one |
| `ClientQueue.StepKeepsInvariant` | src/device.rs:60-99 | every atomic step of every sender and of the receiver keeps the accounting, the order and the drop rule; the unsigned subtraction never underflows |
| `ClientQueue.Accounting` | src/device.rs:60-99 | under every interleaving: the counter is the bytes queued plus those between add and push plus those between pop and subtract; JSON is never dropped or reordered; what was kept is received or still queued, in order; every drop saw too full a backlog; one binary sender never exceeds the limit; a sender past the load can do exactly one thing |
| `ClientQueue.TwoSendersOverrun` | src/device.rs:64-80 | with two or more binary senders, which the handle does not exclude, some run exceeds the limit |
| `ClientQueue.LimitHoldsExactlyForOneSender` | src/device.rs:64-80 | the limit holds in every run if and only if there is at most one sender of binary frames |
| `ClientQueue.DrainedQueueAccepts` | src/device.rs:64-80 | when everything is drained the counter is zero and the next frame within the limit is accepted |
| `ClientQueue.Client.SendBinary` | src/device.rs:64-80 | a frame that finds no room leaves queue and counter alone and sets the dropping flag, any other is queued, counted and clears it; these are the steps load, then drop, or add and push |
| `ClientQueue.Client.TryRecv` | src/device.rs:92-98 | the oldest message, its bytes taken off the counter |
| `Deliveries.FramesConserved` | src/device.rs:64-80 | in every run with any number of senders each frame handed over is kept or dropped once, or still with its sender |
| `Deliveries.DecidedInOrder` | src/device.rs:64-80 | with one sender the i-th decision is about the i-th frame handed over |
| `Deliveries.DroppedExactlyWhenFull` | src/device.rs:64-71 | in every run a decided frame was dropped if and only if, at the step that handed it over, the backlog and the frame exceeded the limit |
| `Deliveries.DroppingIsLast` | src/device.rs:67-76 | the dropping flag tells whether the last decision was to drop |
| `EndToEnd.RunFrames` | src/listener.rs:224-263 | every frame of a steady run describes itself: `sampleIndex = start + idx * decimate`, and its data is the resampled history of its own range; the ranges tile the output |
| `EndToEnd.ReceivedFramesDescribeThemselves` | src/device.rs:64-80 | whatever the queue drops of the listener's frames handed to it, the frames that arrive are the listener's own in order with disjoint increasing ranges, and none of them was dropped, and the gaps are exactly the dropped frames |
| `LeadResync.MinLeadShifts` | src/usb/m1k.rs:790-806 | shifting every lead of a window shifts its minimum |
| `LeadResync.MinLeadIsLead` | src/usb/m1k.rs:790-792 | the minimum is one of the leads |
| `LeadResync.LeadTracker.AfterInTransfer` | src/usb/m1k.rs:783-812 | the tracked minimum is that of the current window; the counter is corrected as the model says |
| `LeadResync.CorrectionIsExact` | src/usb/m1k.rs:783-812 | the counter moves only when a window closes with a drift above half a chunk, and then by exactly the drift: the window's leads, shifted, have the baseline as their minimum; the input counter and a baseline stay |
| `LeadResync.FedWindows` | src/usb/m1k.rs:783-809 | over any run of transfers: the first 16 leads settle, every later one belongs to one window of 64, and the minimum of the first complete window is the baseline for good |
| `LeadResync.CorrectedOncePerWindow` | src/usb/m1k.rs:783-812 | so the counter is corrected exactly at the end of a later window whose minimum is more than half a chunk off that of the first, by the difference |
| `LeadRuns.CounterNeverNegative` | src/usb/m1k.rs:810-812 | over any transfers, starts and pauses, and transfers of tasks that outlive a pause, from creation or a reset up to the next configure, the counter cast back to unsigned is never negative |
| `LeadRuns.SafeExactlyWhenSecure` | src/usb/m1k.rs:783-812 | from any state of a capture that is not empty, no run of whole transfers, as many per start as the tasks handle, without a configure makes the counter negative if and only if the capture is finished, or the baseline (before there is one, every lead that may become it) added to the input counter is not negative |
| `LeadRuns.ConfigureKeepsSecureIff` | src/usb/m1k.rs:272-292 | when a configure keeps that guarantee: exactly when the capture is finished or no lead it leaves behind is negative |
| `LeadRuns.StaleBaselineGoesNegative` | src/usb/m1k.rs:272-292 | a run of full transfers of a continuous capture, with a configure in it, after which the counter is -3584 |
| `LeadRuns.FiniteCompletesExactly` | src/usb/m1k.rs:574-598 | the transfers of one start complete a finite capture from sample zero if and only if it fits into a single transfer |
| `Transfers.PutQuad` | src/usb/m1k.rs:716-767 | one sample of every stream goes in together |
| `Transfers.ReceivedJoin` | src/usb/m1k.rs:693-768 | what two stretches of a transfer add to the streams, joined |
| `M1kCodec.HandleInTransfer` | src/usb/m1k.rs:686-768 | the complete packets of a transfer, decoded in either layout and converted, are appended to the four streams in order; a short buffer ends the transfer |
| `M1kCodec.InTransfer` | src/usb/m1k.rs:692-813 | the same for a running capture, followed by the pause of a finite capture that has its samples and by the resync step, with the output counter still a natural number |
| `M1kCodec.LayoutsAgree` | src/usb/m1k.rs:699-714 | any number of packets sent in either layout decodes to the same samples |
| `M1kCodec.PacketRoundTrip` | src/usb/m1k.rs:699-714 | decoding a packed packet is the identity in both layouts |
| `M1kCodec.SourcedVoltageReadsBack` | src/usb/m1k.rs:815-840 | an ideally calibrated channel reads back a sourced voltage to within one count |
| `ReadBack.M1kEncodesVoltage` | src/usb/m1k.rs:815-840 | the code of a voltage is the whole part of the calibrated volts over a range of five, held within sixteen bits |
| `ReadBack.M1kEncodesCurrent` | src/usb/m1k.rs:827-840 | the code of a current is 0.4 of the range at zero amps and 0.32 of it more or less at the limits of 0.2 amps, beyond which it stays |
| `ReadBack.M1kMeasures` | src/usb/m1k.rs:730-766 | what a count of each kind stands for, before and after calibration |
| `ReadBack.M1kCurrentReadsBack` | src/usb/m1k.rs:737-840 | when the measuring calibration undoes the different ranges of the converters, a sourced current reads back to within one count |
| `M1kCodec.FillFromSources` | src/usb/m1k.rs:855-892 | a transfer decodes to both sources' encoded values at consecutive sample numbers from the output counter, which advances past them |
| `M1kCodec.FillOutTransfer` | src/usb/m1k.rs:844-897 | without a source on each channel the transfer is all zero and the counter stays |
| `M1kCodec.AppendPacket` | src/usb/m1k.rs:855-892 | one more packet of a transfer continues both encoded waveforms |
| `M1kCodec.OutPipeline` | src/usb/m1k.rs:603-644 | successive transfers carry the waveforms without gap or repeat, and stop only when they cover a finite capture |
| `CeeCodec.OrDisjoint` | src/usb/cee.rs:172-175 | combining fields that do not overlap adds them |
| `CeeCodec.InBijection` | src/usb/cee.rs:153-177 | six-byte input samples and quadruples of signed 12-bit values correspond one to one |
| `CeeCodec.OutRoundTrip` | src/usb/cee.rs:180-186 | a three-byte output sample carries both values exactly when both fit in twelve bits |
| `ReadBack.CeeEncodes` | src/usb/cee.rs:697-711 | the code of a voltage is the whole part of its share of five volts; that of a current has 1.25 volts as zero and is held at the current limit |
| `ReadBack.CeeMeasures` | src/usb/cee.rs:656-683 | what a count of each kind stands for; a disabled channel measures no current, whatever its counts |
| `ReadBack.CeeVoltageReadsBack` | src/usb/cee.rs:656-711 | an ideal channel reads back a sourced voltage to within a code and a count |
| `ReadBack.CeeCurrentReadsBack` | src/usb/cee.rs:661-711 | an enabled ideal channel reads back a sourced current within the limit to within a code and a count of its amplifier |
| `CeeCodec.HandleInTransfer` | src/usb/cee.rs:613-690 | the complete packets' samples are appended to the streams in order; a drop is announced exactly when a packet other than the first of a capture reports one |
| `CeeCodec.CompleteJoined` | src/usb/cee.rs:638-643 | packets placed end to end are found again, whatever short tail follows |
| `CeeCodec.FillPacket` | src/usb/cee.rs:732-752 | one packet: the two modes, then ten samples of both sources |
| `CeeCodec.FillFromSources` | src/usb/cee.rs:724-754 | a transfer decodes to both sources' encoded values at consecutive sample numbers, every packet headed by the modes |
| `CeeCodec.AppendPacket` | src/usb/cee.rs:729-752 | one more packet of a transfer continues both encoded waveforms, headed by the modes |
| `CeeCodec.FillOutTransfer` | src/usb/cee.rs:713-757 | without a source on each channel the transfer is all zero and the counter stays |
| `CeeCodec.OutPipeline` | src/usb/cee.rs:556-593 | four transfers at once and one more per completion carry the waveforms without gap or repeat, every packet headed by the modes |
| `Requests.ChannelById` | src/streaming.rs:429-431 | the first channel with the id, or none has it |
| `Requests.FindStream` | src/streaming.rs:433-441 | the first stream with the id in the first channel with the id, or the error for what is missing: a property, the channel, or the stream in it |
| `Requests.FindStreamExact` | src/streaming.rs:433-441 | a stream is found exactly when the request names one |
| `Requests.ResolveStart` | src/listener.rs:392-404 | negative starts count back from the next sample to come, never below zero |
| `Requests.MakeStreamListener` | src/listener.rs:306-371 | exactly the acceptable requests are accepted, any other with the error for the first thing that is wrong; the listener reads the streams and has the trigger that the request names, with the default of every omitted property, decimates by at least one, has a sound cursor and satisfies the guard |
| `Requests.MakeRestListener` | src/listener.rs:374-390 | an untriggered listener of every stream of one channel that does not repeat |
| `Requests.GuardedRequestsProgress` | src/listener.rs:361-364 | every accepted request whose holdoff is not negative re-arms forward; the guard alone suffices when the offset is negative |
| `Capture.MirrorStep` | src/streaming.rs:487-532 | a client whose picture matched a device state still matches it after any message about a change of that state |
| `Capture.ExactStep` | src/streaming.rs:487-532 | a client whose picture is complete keeps it complete under any change that a message describes |
| `Capture.StartSampleGoesStale` | src/usb/m1k.rs:494-499 | an M1K run after which a client's picture is wrong: an output set before the start, a finite capture that completes, and a second start |
| `Capture.RetainedDistinct` | src/streaming.rs:266-272 | listeners that stay after new data are still distinct by client and id |
| `Capture.RetainedOwned` | src/streaming.rs:266-272 | and still belong to attached clients and read existing streams |
| `Capture.RetainedExact` | src/streaming.rs:266-272 | the listeners that stay are those whose outcome says so, each once, in their order and with its own new cursor |
| `Capture.StreamingDevice.StartCapture` | src/streaming.rs:283-293 | no effect when running; otherwise one start hook, a reset first when done, and exactly these messages to every client; a complete picture stays complete if and only if the start does not reset a finished capture of a USB device with an output that did not start at zero |
| `Capture.StreamingDevice.PauseCapture` | src/streaming.rs:295-302 | no effect when paused; otherwise one pause hook and one message |
| `Capture.StreamingDevice.DoneCapture` | src/streaming.rs:304-312 | done and not running, the pause hook only when it was running |
| `Capture.StreamingDevice.ResetCapture` | src/streaming.rs:275-281 | counters at zero, listeners rewound, a message that says nothing about the flags |
| `Capture.StreamingDevice.PacketDone` | src/streaming.rs:229-234 | a finite capture that has its samples is done at the packet boundary |
| `Capture.StreamingDevice.Packet` | src/streaming.rs:229-234 | a packet of any size: the listeners' outcome, completion with its hook, then every output the input has passed becomes effective and keeps mode and start; a channel is announced to every client exactly when its output was not effective and the input has passed its start |
| `Capture.StreamingDevice.CheckOutputEffective` | src/streaming.rs:417-425 | the output becomes effective exactly when the input has passed its start, with mode and start unchanged; it is announced exactly when it was not effective and the input has passed its start |
| `Capture.NewsExact` | src/streaming.rs:417-425 | the announcements of a packet, channel by channel |
| `Capture.NewsInOrder` | src/usb/m1k.rs:773-775 | at most one a channel, in the order of the channels |
| `Capture.StreamingDevice.SetOutput` | src/streaming.rs:396-413 | the new output, not yet effective, starting one sample later on USB hardware |
| `Capture.StreamingDevice.SetGain` | src/streaming.rs:365-385 | which gains each backend takes, and when it reports |
| `Capture.StreamingDevice.GainReadsBack` | src/streaming.rs:365-385 | the internal gain is the whole number nearest to the gain times the normal gain; a gain of one is the normal gain, and a gain that is represented exactly reads back |
| `Capture.StreamingDevice.SetCurrentLimit` | src/usb/cee.rs:423-437 | only a CEE takes a limit, one of three; nobody is told, so a complete picture of a client stays complete if and only if the limit does not change |
| `Capture.LimitGoesStale` | src/streaming.rs:616-619 | a CEE run after which a client's picture has the wrong current limit |
| `Capture.StreamingDevice.Configure` | src/streaming.rs:342-361 | new channels, no listeners, counters at zero, a complete snapshot to every client; the done flag survives |
| `Capture.ConfiguredAnew` | src/usb/cee.rs:340-420 | what a configure makes: channels a and b with streams v and i, disabled outputs, and the gains that a CEE carries over |
| `Capture.StreamingDevice.OnClientAttach` | src/streaming.rs:536-542 | the client joins with a complete snapshot |
| `Capture.StreamingDevice.OnClientDetach` | src/streaming.rs:544-547 | the client and all its listeners leave, nobody else |
| `Capture.OrphanedExact` | src/streaming.rs:546 | the listeners left by a detaching client are all others, each once and in order |
| `Capture.ExceptExact` | src/streaming.rs:545 | and so are the clients |
| `Capture.StreamingDevice.CancelListen` | src/streaming.rs:250-254 | the one listener of that client and id goes, no other; the rest keep their order |
| `Capture.StreamingDevice.Listen` | src/streaming.rs:581-586 | the listener of that id goes, even when the new request is refused; an accepted one that its first delivery does not finish comes last, as the request asks for it; refused exactly when not acceptable, with the error for the first thing that is wrong |
| `Capture.StreamingDevice.ProcessMessage` | src/streaming.rs:557-624 | every command keeps the invariant and has its own effect and no other; an error changes nothing but a listener already cancelled |
| `Ownership.ServerState.ListenersBelongToAttachedClients` | src/streaming.rs:544-547 | every client's listener belongs to exactly one open connection, attached to that device once, and reads streams that exist |
| `Ownership.ServerState.DevicesDisjoint` | src/ws.rs:39-45 | two devices never share a client |
| `Ownership.ServerState.ListenersShareDevice` | src/ws.rs:39-45 | all listeners of one client are on one device |
| `Ownership.ServerState.OneBinarySender` | src/listener.rs:159 | so at most one device sends a client binary frames |
| `Ownership.ServerState.BacklogWithinLimit` | src/device.rs:64-80 | with the binary senders there are at one moment, the client's backlog stays within its limit in every run from an empty queue, however that sender interleaves with the JSON senders and the receiver |
| `Ownership.ServerState.Connect` | src/ws.rs:17-30 | a new connection has a client id of its own and no device |
| `Ownership.ServerState.AddDevice` | src/device.rs:233-236 | a new device without clients joins the list |
| `Ownership.ServerState.SelectDevice` | src/ws.rs:39-45 | after selecting, and re-selecting, the client is on that device and on no other |
| `Ownership.ServerState.OnClose` | src/ws.rs:99-103 | a closed connection leaves no client and no listener behind |
| `Ownership.ServerState.OnCommand` | src/ws.rs:71-82 | a command reaches only the selected device and its clients; ownership is kept over all devices |
| `Ownership.ServerState.OnPacket` | src/streaming.rs:229-234 | so is it by packets |
| `Ownership.ServerState.RemoveDevice` | src/device.rs:238-245 | an unplugged device cannot be selected, its listeners go, its clients are told and stay attached to it |
| `Ownership.ServerState.DeviceById` | src/device.rs:204-220 | the exact id, or the first of a model for a trailing star, or none |

## Left out

- Integer widths of counters: index sums and differences beyond 64 bits (a huge `start`, `force` or `decimateFactor`) overflow in the program; here counters are unbounded, and only the signed trigger additions wrap.
- Floating point: rounding, infinities and the sine are outside the model; samples are reals with a NaN, and a gain or current gain of zero is excluded where the program would divide by it.
- Segment sums of a square wave beyond 32 bits and periodic sources with a period that is not positive: excluded by `WellFormed`, as the program does not check them.
- The sample and control halves of a device: they are two classes, so the listener cursors held by module Capture change by given outcomes, while module LiveCapture lets the real listener object do it for one listener.
- Capture.StreamingDevice.PacketDone: what each listener does with the new data is given as its outcome; `Listeners.Listener.HandleNewData` proves what it is.
- Capture.StreamingDevice.Packet: the same for the listeners of a whole packet.
- Capture.StreamingDevice.Listen: the same for the first delivery of a new listener.
- Capture.StreamingDevice.ProcessMessage: the commands of one device only (front-end switches, LEDs, GPIO, EEPROM) and the refusal of a malformed waveform are not among its commands; `Sources.MakeAdvSquare` and `Sources.MakeArb` state the latter.
- Capture.StreamingDevice.SetOutput: records mode, start and the effective flag; the waveform hand-over it starts is proved on `Sources.OutputSource.Initialize`.
- Ownership.ServerState.BacklogWithinLimit: counts the senders of one moment; a client's change of device in the middle of a run, and the device lock that puts the last frame of the old device before the first of the new one, are not part of the run.
- M1kCodec.InTransfer: the delivery to the listeners, the notifications and the output checks between storing and resync are `Capture.StreamingDevice.Packet`.
- M1kCodec.OutPipeline: input transfers between the output transfers, whose resync can move the output counter, are not interleaved with it; neither is the error of a transfer.
- CeeCodec.OutPipeline: nor are they here, where no resync exists.
- CeeCodec.HandleInTransfer: the completion of a capture and the output checks that end the handler are `Capture.StreamingDevice.Packet`.
- M1K front-end switches, LEDs, GPIO, calibration commands and EEPROM images: hardware effects and fixed-size byte copies.
- LeadRuns.SafeExactlyWhenSecure: an empty capture (zero samples) is excluded, since its first transfer ends it; and a transfer of a stray task after the capture is finished.
- TriggerRoom.RoomIsExact: in-stream triggers only. An out-source trigger that waits does not move its cursor, so the phase zero it finds can be arbitrarily old.
- The walker on an output counter that moves backwards (reset, resync, restart): non-decreasing queries are its stated precondition.
- A first trigger whose negative offset reaches below sample zero: the wrapped cursor is excluded by the precondition `Fits`; the offset of no later trigger can wrap, unless the capture is reset (`CaptureResets.TriggersNeverWrapExactly`).
- Runs with capture resets: a reset returns the cursor to zero, so the theorems about sweeps are about runs between resets; `CaptureResets.dfy` has what a reset does to triggering and re-arming.
- EndToEnd.ReceivedFramesDescribeThemselves: the frames that a run hands to the queue are given as a prefix of the listener's log; the thread that hands them over is not modelled.
- CEE stream contents in a non-zero mode, which has no channels: transfers assume two channels of two streams.
- Non-streaming bootloader devices, the device list messages and hot-plug detection.
- HTTP routing, request parsing, CSV text, origin checks and JSON text: only the fields named above are modelled.
