# Verified model of the US-122MKII audio driver

This project models the real-time audio path of the US-122MKII macOS driver, and the reference
programs beside it, as small state machines, and proves what links them. Sound goes from a Core
Audio plugin through a shared-memory ring to a daemon that resamples it into isochronous USB
transfers, and comes back the other way; two unsynchronised clocks meet in the middle.

`dafny verify dfyconfig.toml` checks everything.

| file | what it models |
|---|---|
| `Numbers`, `Sequences`, `Circular` | 32-bit wrap, products of reals, slices, positions modulo a buffer size |
| `DeviceFrames` | 24-bit device samples, packing, the interpolating mix |
| `Pacing` | the packet clock shared by every playback path |
| `ShmRing` | the shared ring as a class over its array and wrapped counters |
| `RingProtocol` | producer and consumer interleaved load by load, copy by copy |
| `Resampler`, `PlaybackPump`, `PlaybackRun` | the specification of a fill, both daemons' fills, and whole runs against a one-pass reference |
| `PumpRefinement` | the resampler inside the load-by-load protocol, and the proof that its runs are playback runs |
| `Regulation`, `PlaybackLoop`, `PlaybackSupply` | the closed control loop of the low-latency daemon, the proof that fills and playback runs are that loop, and that nothing is refused or silent in it |
| `BusScheduler` | bus-frame scheduling with re-anchoring |
| `PacketLayout` | tight and strided buffer layouts |
| `TransferLifecycle`, `LowLatencyCallbacks`, `DeviceSession` | transfers, error cutoffs, resources of the two daemons |
| `CapturePath`, `CaptureRun` | capture callbacks and the capture path end to end, the plugin reading among the packets |
| `PluginIo`, `ZeroTimestamp`, `ControlPlane` | the plugin's I/O and clock, and the flags it shares with app and daemons |
| `LinuxDriver`, `WavPlayer`, `MeasuredRate` | the Linux reference driver, the WAV player, the in-process engine's pacing |

Code that changes state in place is a class or a method with loops, proved against specification
functions; theorems over runs are lemmas about those functions. Ghost fields hold the unbounded
history (every frame ever accepted, how many were taken), so that the wrapped counters can be
related to it. Where a source loop is long its body is a method of its own.

Results that are not what the code or its comments suggest:

- The interpolated sample stays between its neighbours although the C code truncates toward zero
  and then drops a byte, because device samples are multiples of 256.
- `JitterTolerance` is an equivalence: 29 frames of delay is exactly what a pool of 32 tolerates.
- The low-latency daemon does not clear a stale presence flag before it starts acquiring
  (`LlPresentIff`, `StaleFlagPersists`); the libusb daemon does.
- The low-latency callbacks ignore the outcome of a resubmission, so a refused pool leaves a
  session that no error count can end; that is exactly the case in which a dead device goes
  unnoticed (`UnnoticedIffAllRefused`).
- The libusb playback callback keeps resubmitting during a drain, so only the wall clock ends it
  (`PlaybackOutlastsDrain`); `DrainEmptiesIff` says when it does empty.
- The WAV reader's end test wraps for data chunks of 2^32 - 4 bytes or more
  (`StopsAtChunkEndIff`).
- A capture discard that overlaps a consume can make the ring report more than its size
  (`OverlappingDiscardOverfills`).
- The sample rate can be set while the plugin's clock runs; its sample time never goes back across
  the change exactly when the rate is not lowered (`RateChangeIff`).
- The daemon starts on an empty ring, far outside its control band; `FillSettles` says how many
  transfers it takes to get in, for any drift below 1%.

## Model

| member | source | states |
|---|---|---|
| `ShmRing.Ring.Produce` | src/daemon/shmring.h:107-117 | accepts exactly the longest prefix of the source that fits; the readable stream gains that prefix and nothing in it changes, across the 2^32 wrap of head |
| `ShmRing.Ring.Consume` | src/daemon/shmring.h:120-130 | hands out exactly the oldest min(n, fill) frames in order, removes those and no others, touches no other byte of the destination |
| `ShmRing.Ring.ConsumeZeroFill` | src/daemon/shmring.h:134-138 | the oldest frames in order, then silence up to n, then the untouched rest |
| `ShmRing.Ring.Fill` | src/daemon/shmring.h:97-101 | unsigned subtraction of the wrapped counters is the true number of readable frames |
| `ShmRing.Ring.Space` | src/daemon/shmring.h:102-104 | the free slots, exactly |
| `ShmRing.Ring.Discard` | src/daemon/us122d_ll.c:257-261 | setting tail to head empties the ring and accepts or alters nothing |
| `ShmRing.FillOfWrapped` | src/daemon/shmring.h:97-101 | for every pair of unbounded counters at most a ring apart, the 32-bit difference is the unbounded one |
| `ShmRing.PlaceIsSlot` | src/daemon/shmring.h:112 | masking the wrapped counter plus i selects the slot of the unbounded counter plus i |
| `ShmRing.SlotsDiffer` | src/daemon/shmring.h:48-51 | frames less than a ring apart never share a slot |
| `ShmRing.Ring.SlotsHoldStream` | src/daemon/shmring.h:123-128 | the slots from tail on hold the untaken end of the stream, in order |
| `RingProtocol.EveryStepKeepsInv` | src/daemon/shmring.h:97-130 | the protocol invariant survives every single load, frame copy and publication of either side, in any interleaving |
| `RingProtocol.RingSafety` | src/daemon/shmring.h:97-130 | in every state of every run: 0 <= produced - taken <= 131072, the wrapped difference is the true fill, and what ring_consume delivered is an in-order selection of the accepted frames, exactly their prefix if nothing else removed any |
| `RingProtocol.ConsumeDelivers` | src/daemon/shmring.h:120-130 | a whole ring_consume, however the producer interleaves, delivers the oldest min(want, readable when it loaded head) frames, no fewer |
| `RingProtocol.ProduceAppends` | src/daemon/shmring.h:107-117 | a whole ring_produce, however the consumer interleaves, appends the longest prefix that fits behind tail as it read it |
| `RingProtocol.WritesOnlyFreeSlots` | src/daemon/shmring.h:107-117 | a producer's copy step never hits a slot that is readable, whatever the consumer has done since the producer sized its copy |
| `RingProtocol.PumpReadsStream` | src/daemon/us122d_ll.c:148-178 | any slot the resampler reads below its snapshot holds the published frame of that stream position, not yet reused, however far the producer has run on |
| `RingProtocol.ConsumePublishStep` | src/daemon/shmring.h:128 | publishing tail extends the delivery log by the next stream positions and keeps the invariant |
| `RingProtocol.OverlappingDiscardOverfills` | src/daemon/us122d_ll.c:257-261 | why the discard must not overlap a consume: after an unguarded discard, a whole ring_produce of m frames and the consumer's publication of n, run step by step, the ring reports 131072 + m - n, over its size exactly when m > n |
| `DeviceFrames.PackUnpack` | src/daemon/us122d_ll.c:108-113 | every device sample survives unpacking to a 32-bit word and repacking |
| `DeviceFrames.UnpackPack` | src/daemon/us122d_ll.c:108-113 | packing a word and unpacking it clears its low byte and nothing else |
| `DeviceFrames.MixBetween` | src/daemon/us122d_ll.c:179-184 | an interpolated sample, after C truncation and loss of the low byte, still lies between its two neighbours, and equals the first on a whole position or between equal samples |
| `DeviceFrames.MixInterpolates` | src/daemon/us122d_ll.c:179-184 | the mix is linear interpolation: the point (1 - mu) a + mu b, truncated toward zero as C does, its low byte then cut off |
| `DeviceFrames.InterpolationIsUnique` | src/daemon/us122d_ll.c:179-184 | a device sample interpolates in that sense if and only if it is the mix |
| `Pacing.PacingIsExact` | src/daemon/us122d_ll.c:159-164 | for any rate up to 104000: k packets carry exactly floor((accum + k*rate)/8000) frames and leave the remainder in the accumulator |
| `Pacing.AnySecondIsExact` | src/daemon/us122d_ll.c:159-164 | any 8000 consecutive packets carry exactly `rate` frames |
| `Pacing.ClampIdleIff` | src/daemon/us122d_ll.c:160-164 | over all rates that cannot wrap the word, the 78-byte clamp is idle for the first second if and only if rate <= 104000 |
| `Pacing.DueIsExact` | src/daemon/us122d_ll.c:160-162 | the same bookkeeping before the clamp, for every rate that cannot wrap the accumulator |
| `Resampler.SilenceIsSuffix` | src/daemon/us122d_ll.c:166-186 | silence is always a suffix of a transfer, sounding frames are spaced exactly one ratio apart, and the position ends (sounding frames) x ratio further on |
| `Resampler.NeverPassesSnapshot` | src/daemon/us122d_ll.c:194-195 | the position a transfer ends on is inside its snapshot, so the `consumed > avail` clamp is never taken |
| `Resampler.SampleBetween` | src/daemon/us122d_ll.c:175-184 | each output channel is the linear interpolation of the same channel of the two stream frames around the position and lies between them; equal neighbours pass unchanged |
| `Resampler.RenderedIsResampled` | src/daemon/us122d_ll.c:166-186 | the i-th frame of a transfer is the snapshot linearly interpolated, per channel, at frac + i x ratio, or six zero bytes when that is past its end |
| `Resampler.LowLatencyRatio` | src/daemon/us122d_ll.c:149-152 | the memoryless ratio stays within 1% of nominal for every fill and setpoint |
| `Resampler.LowLatencySetpoint` | src/daemon/us122d_ll.c:144-147 | the setpoint is at least one frame for every buffer_ms and rate, the 64-bit product cut to 32 bits |
| `Resampler.SetpointIsWhole` | src/daemon/us122d_ll.c:144-147 | the setpoint is the whole frames of buffer_ms milliseconds, of 512 when it is below 100 |
| `Resampler.SlewedRatio` | src/daemon/us122d.c:194-204 | the slewed ratio never leaves [0.99, 1.01] once inside, whatever the fill |
| `Resampler.SlewLawIff` | src/daemon/us122d.c:199-203 | a ratio is the slewed one if and only if it has moved a twentieth of the way to 1.01, to 0.99, or to one plus 0.15 of the relative error in between |
| `Resampler.FullerIsFaster` | src/daemon/us122d.c:194-204 | a fuller ring is never read at a smaller ratio |
| `Resampler.ClampedSetpoint` | src/daemon/us122d.c:705-715 | the libusb daemon's setpoint is positive and below 45% of the ring for every buffer_ms |
| `Resampler.ClampedSetpointIs` | src/daemon/us122d.c:705-715 | it is exactly buffer_ms milliseconds, held between 100 and 2000 and at 45% of the ring |
| `PlaybackPump.Pump.FillPb` | src/daemon/us122d_ll.c:138-201 | a whole fill, the plugin producing between its packets: ratio from this snapshot alone; packet list = paced counts; buffer = the snapshot linearly interpolated in steps of the ratio, packed contiguously; tail + remainder moves by exactly the distance read; underruns = silent frames; dev_frames grows by the frames clocked; the stream gains exactly what fitted |
| `PlaybackPump.Pump.FillPlayback` | src/daemon/us122d.c:206-260 | the same for the libusb daemon's 16 packets at its slewed ratio |
| `PlaybackPump.Pump.UpdateRatio` | src/daemon/us122d.c:194-204 | the ratio moves by the slewed law of the current fill: faster when too full, slower when too empty, a twentieth of the way at a time |
| `PlaybackPump.Pump.SetRatio` | src/daemon/us122d_ll.c:144-152 | the ratio is the control law of the current fill and setpoint |
| `PlaybackPump.Pump.RenderTransfer` | src/daemon/us122d_ll.c:155-192 | after all packets buffer, packet list, accumulator, position and underrun count are those of the specification functions, and the buffer is the snapshot linearly interpolated in steps of the ratio, then silence |
| `PlaybackPump.Pump.Publish` | src/daemon/us122d_ll.c:194-198 | tail + fraction is conserved: it grows by exactly the position reached, and the fraction stays in [0, 1) |
| `PlaybackRun.BatchedIsOneShot` | src/daemon/us122d_ll.c:154-200 | for every interleaving of transfers and producer: the k-th sounding frame of all transfers joined is the produced stream linearly interpolated, per channel, at the k-th absolute position; tail + frac equals the start plus the sum of the ratios; clocked = sound + silence |
| `PlaybackRun.FinishAlwaysEnabled` | src/daemon/us122d_ll.c:194-198 | in every run a transfer in progress can publish, within its snapshot |
| `PlaybackRun.ConstantStreamPasses` | src/daemon/us122d_ll.c:179-184 | a stream of one repeated frame comes out as that frame only, through any number of transfers and ratio changes |
| `PlaybackRun.RenderedIsStream` | src/daemon/us122d_ll.c:167-185 | the i-th sounding frame of a transfer is the stream linearly interpolated at tail + frac + i x ratio, both of its neighbours being inside the stream |
| `PumpRefinement.EveryMoveSimulates` | src/daemon/us122d_ll.c:148-198 | every load, slot read, rendered frame and publication, and every step of ring_produce in between, is a step of the playback run or invisible to it |
| `PumpRefinement.RunRefines` | src/daemon/us122d_ll.c:148-198 | every load-by-load run of resampler and ring_produce is a playback run with the same stream, position, sound and counts, each transfer beginning where head is loaded |
| `PumpRefinement.PlayedIsOneShot` | src/daemon/us122d_ll.c:148-198 | so the sound of the two processes, interleaved load by load, is linear interpolation of what was published, frame by frame, and tail + frac is the start plus the sum of the ratios |
| `Regulation.TurnStaysInBand` | src/daemon/us122d_ll.c:149-200 | one transfer never pushes the fill, corrected for the producer's lead, out of the band, whatever the drift up to 1% and whether or not it ran dry |
| `Regulation.FillNeverRunsAway` | src/daemon/us122d_ll.c:141-200 | from any start the fill stays as near the setpoint as it started, or as the band edge, plus burst and one frame, for ever |
| `Regulation.FillIsRegulated` | src/daemon/us122d_ll.c:141-200 | started in the band, the fill at every snapshot of every run is within 0.04 S + 2B + 1 of the setpoint S, for supply within B of a clock at most 1% off |
| `Regulation.NoSilenceNoRefusal` | src/daemon/us122d_ll.c:166-186 | if that band leaves room for one transfer on either side, no run emits a silent frame and the producer never finds the ring full |
| `Regulation.TransferIsSmall` | src/daemon/us122d_ll.c:144-147 | the daemon's own sizes satisfy the regulation hypotheses at every supported rate and every buffer_ms whose setpoint fits the ring |
| `Regulation.TurnApproaches` | src/daemon/us122d_ll.c:149-200 | outside the band a transfer of n frames closes in by at least n(0.01 - d) against drift up to d, whether or not it runs dry, unless it lands in the band |
| `Regulation.FillSettles` | src/daemon/us122d_ll.c:141-200 | from any start, an empty ring included, the fill is within the band after (distance)/(n(0.01 - d)) transfers and at every later one |
| `Regulation.SettledIsQuiet` | src/daemon/us122d_ll.c:166-186 | and from then on no frame is silent and none is refused |
| `PlaybackLoop.FillIsTransfer` | src/daemon/us122d_ll.c:138-201 | the imperative fill of either daemon, with whatever the plugin produces between its packets, is exactly one transfer of the playback run: same stream, tail and remainder, sound as the run adds it, silence behind it, underruns as the run counts them |
| `PlaybackLoop.NextLevel` | src/daemon/us122d_ll.c:148-200 | in any run whose transfers read at the control law's ratio, the level one transfer snapshots leads to the next one's by one step of the loop, wherever the frames in between arrived |
| `PlaybackLoop.RunFollowsLoop` | src/daemon/us122d_ll.c:138-201 | over whole playback runs, the level at every transfer is the regulated loop's after as many turns |
| `PlaybackLoop.RunIsRegulated` | src/daemon/us122d_ll.c:141-200 | so in every such run that starts in the band with a bounded lead, the fill at every transfer stays in the band |
| `PlaybackLoop.RunIsAllSound` | src/daemon/us122d_ll.c:166-186 | and the run never emits a frame of silence |
| `PlaybackSupply.OffersAreTurns` | src/daemon/shmring.h:107-117 | in a controlled run that starts in the band, whose producer's offers keep to its clock, everything offered up to any transfer was accepted, although ring_produce takes only what fits |
| `PlaybackSupply.NothingRefused` | src/plugin/US122.driver/Contents/MacOS/US122.c:639-643 | so no frame is ever refused up to the last transfer begun, calls that loaded tail any time since the last transfer began included |
| `PlaybackSupply.NothingSilent` | src/daemon/us122d_ll.c:166-186 | and none is silent, the only assumption being on what the producer offers |
| `PlaybackSupply.LoadsAreAllSound` | src/daemon/us122d_ll.c:148-198 | nor in any load-by-load run of the two processes under the control law |
| `PlaybackLoop.RunSettles` | src/daemon/us122d_ll.c:141-200 | and a run from any start is in the band at every transfer once enough have closed in |
| `BusScheduler.Scheduler.NextSched` | src/daemon/us122d_ll.c:211-224 | the frame handed out, six past the bus on a lead below three and the counter otherwise, the counter left behind it and the re-anchor count, for a clock that may fail |
| `BusScheduler.ScheduleIsOrdered` | src/daemon/us122d_ll.c:211-224 | for arbitrary delays: frames strictly increase, lead the bus by 3 or more when it can be read, and skip exactly at a re-anchor, by at least four, to six past the bus |
| `BusScheduler.ScheduleIs` | src/daemon/us122d_ll.c:211-224 | the whole schedule in closed form: the bus frame read by the last re-anchor plus six plus the calls since, or the start plus the calls |
| `BusScheduler.NoLaterAnchor` | src/daemon/us122d_ll.c:216-221 | that re-anchor is the last one |
| `BusScheduler.LeadIsBounded` | src/daemon/us122d_ll.c:211-224 | so a frame is never further ahead of the furthest the bus has been than six plus the calls since the last re-anchor |
| `BusScheduler.ReanchorsAreSpaced` | src/daemon/us122d_ll.c:216-221 | between two re-anchors with k transfers in between the bus advances at least 5 + k frames |
| `BusScheduler.JitterTolerance` | src/daemon/us122d_ll.c:211-224 | with 32 transfers in flight completing in order: no re-anchor ever happens if and only if every completion of frame f is serviced by f + 29, and then the flight is always 32 consecutive frames |
| `BusScheduler.TwentyNineIsTheLimit` | src/daemon/us122d_ll.c:405-428 | behind a consecutive pool, one service is on time exactly when it does not re-anchor |
| `PacketLayout.TightRoundTrip` | tools/us122_pack.c:96-119 | decoding by prefix sums returns exactly the frames packed tightly, for all lengths, data and old buffer contents |
| `PacketLayout.StridedRoundTripsIff` | tools/us122_pack.c:108-116 | the 78-byte strided layout decodes correctly for all data if and only if every non-empty packet's prefix sum is its stride |
| `PacketLayout.MisalignedLosesAFrame` | docs/07-stage0-findings-and-stage1-plan.md:91-108 | a concrete payload that a misaligned strided packet loses |
| `PacketLayout.Packer.FillPlayback` | tools/us122_pack.c:96-119 | either layout: lengths follow the pacing clock, the buffer is the packed tone, continued from the last transfer |
| `PacketLayout.Packer.FramesThisPacket` | tools/us122_pack.c:88-94 | six frames in constant mode, else the clock's due |
| `PacketLayout.LengthsFollowClock` | tools/us122_pack.c:88-106 | six frames a packet in constant mode; otherwise k packets carry floor((accum + 48000 k) / 8000) |
| `TransferLifecycle.AccountingIsExact` | src/daemon/us122d.c:290-396 | in every state of every session before a timed-out drain, g_active equals the transfers libusb holds; nothing in flight is freed; a timed-out teardown frees nothing |
| `TransferLifecycle.CallbackOutcome` | src/daemon/us122d.c:290-396 | which callbacks put their transfer back in flight, count or clear errors, and raise which flag, for every status, outcome and flag |
| `TransferLifecycle.StreamStaysFullIff` | src/daemon/us122d.c:290-396 | over whole runs: until the process stops, a streaming session has all 32 transfers in flight and is not flagged exactly as long as nothing was refused or cancelled and no 65 completions in a row failed |
| `TransferLifecycle.Daemon.PlaybackCb` | src/daemon/us122d.c:290-331 | the callback's effect on counter, errors, flags and flight, for every status and resubmission outcome; an accepted success changes nothing but clears the errors |
| `TransferLifecycle.Daemon.CaptureCb` | src/daemon/us122d.c:335-396 | the same for capture, which also looks at the session flag |
| `TransferLifecycle.Daemon.SubmitAll` | src/daemon/us122d.c:788-791 | exactly the transfers before the first refusal are out and counted, and a refusal flags the session |
| `TransferLifecycle.Daemon.Teardown` | src/daemon/us122d.c:850-887 | whatever comes back within the budget, all memory is freed if and only if nothing is left in flight |
| `TransferLifecycle.DeadDeviceStops` | src/daemon/us122d.c:308-331 | when every completion of a fresh 16 + 16 session is an error, at most 96 callbacks run, and once nothing is in flight the session is flagged and the counter is 0 |
| `TransferLifecycle.NinetySixIsExact` | src/daemon/us122d.c:308-331 | with every resubmission accepted the pool is empty after the 96th callback and not before |
| `TransferLifecycle.PlaybackOutlastsDrain` | src/daemon/us122d.c:308-331 | a device that keeps completing one playback transfer keeps the drain from ever finishing: the callback does not look at the session flag |
| `TransferLifecycle.DrainShrinks` | src/daemon/us122d.c:861-870 | exactly which completions take a transfer out of flight during a drain; every other goes straight back |
| `TransferLifecycle.DrainEmptiesIff` | src/daemon/us122d.c:861-878 | a whole drain empties the flight if and only if as many of its completions leave as transfers were out |
| `TransferLifecycle.DrainLeaves` | src/daemon/us122d.c:861-870 | what a drain leaves in flight, for any completions whatever, counted off the completions and the error count alone |
| `TransferLifecycle.CancelledDrainEmptiesIff` | src/daemon/us122d.c:850-878 | cancellations alone empty the flight if and only if there are at least as many as transfers out |
| `LowLatencyCallbacks.LowLatency.PbCb` | src/daemon/us122d_ll.c:226-246 | an admitted transfer is refilled from the ring while the plugin produces, counted in dev_frames and rescheduled on the next bus frame; any other leaves ring, pump, buffer and schedule alone |
| `LowLatencyCallbacks.LowLatency.CapCb` | src/daemon/us122d_ll.c:248-280 | an admitted transfer's packets reach the ring (or empty it when full), the transfer is re-armed and rescheduled; any other leaves ring and schedule alone |
| `LowLatencyCallbacks.LowLatency.Admit` | src/daemon/us122d_ll.c:237-243 | the shared error cutoff: only a playback success clears it, the 65th consecutive error ends the session |
| `LowLatencyCallbacks.EndsAt65` | src/daemon/us122d_ll.c:226-255 | over any completions the session ends exactly when 65 errors of either direction have come with no playback success among them |
| `LowLatencyCallbacks.DeadStreamEnds` | src/daemon/us122d_ll.c:226-255 | when every completion of a fresh session is an error at most 128 callbacks run, and the session ends exactly with the 65th |
| `LowLatencyCallbacks.UnnoticedIffAllRefused` | src/daemon/us122d_ll.c:226-280 | the outcome of a resubmission is ignored: when a failing run leaves nothing in flight, the session has not ended if and only if every resubmission was refused |
| `LowLatencyCallbacks.RefusedPoolStalls` | src/daemon/us122d_ll.c:237-246 | and that run exists: a pool that fails and is refused throughout leaves the session not ended with nothing in flight |
| `DeviceSession.Session.SessionStart` | src/daemon/us122d_ll.c:379-440 | for every combination of failing calls: what is held is exactly what the system has handed out, and a start that did not get as far as submitting holds nothing |
| `DeviceSession.Session.GrantedIsAll` | src/daemon/us122d_ll.c:379-426 | a start gets as far as submitting if and only if every call it makes before that succeeds |
| `DeviceSession.Session.SessionCleanup` | src/daemon/us122d_ll.c:361-376 | from any state a start can leave, everything is returned, each reference once; it may be repeated |
| `DeviceSession.Session.AcquireOnce` | src/daemon/us122d_ll.c:489-530 | start and the cleanups after it leave no live device, interface, source or buffer; streaming happened iff every call was granted and some playback transfer was taken |
| `DeviceSession.Session.AllocateSlot` | src/daemon/us122d_ll.c:410-420 | of the four buffers exactly those before the first that cannot be had are held, and other slots are untouched |
| `CapturePath.Capture.Collect` | src/daemon/us122d_ll.c:256-272 | a callback on a full ring empties it and adds nothing; on any other it adds, packet by packet, as much as there is room for at that moment, with the plugin consuming before and inside each packet |
| `CapturePath.Capture.PushPackets` | src/daemon/us122d_ll.c:263-271 | the ring after eight packets is the specification's, for every amount consumed around each |
| `CapturePath.Capture.PushPacket` | src/daemon/us122d_ll.c:264-270 | one packet: cut to the room seen when sizing, published whole although the plugin may consume in between |
| `CapturePath.PacketHolds` | src/daemon/us122d_ll.c:264-269 | a packet's frames are the whole frames of its received bytes, each from its place in the packet's 78-byte slot |
| `CapturePath.QuietIsLongestPrefix` | src/daemon/us122d_ll.c:263-272 | with no consumer about, the packets add exactly the longest prefix of the transfer's frames that fits |
| `CapturePath.CaptureTransfer.Rearm` | src/daemon/us122d_ll.c:273-277 | every packet asks for 78 bytes again with its received count cleared |
| `CaptureRun.DeliveredInOrder` | src/daemon/us122d_ll.c:248-280 | in every run, with reads falling anywhere among a callback's packets and between sizing and publishing one, the frames delivered to the plugin are an in-order subsequence of the device's frames |
| `CaptureRun.NothingLost` | src/daemon/us122d_ll.c:263-272 | as long as every packet finds room when it is sized, delivered and readable frames together are all the device ever sent |
| `CaptureRun.CallbackRefines` | src/daemon/us122d_ll.c:263-272 | a whole callback of the machine, reads in between, queues exactly the positions of the frames that are readable in the ring after the callback's code |
| `CaptureRun.FullCallbackRefines` | src/daemon/us122d_ll.c:257-261 | a callback on a full ring leaves nothing readable, in the machine as in the code, and its frames are lost |
| `CaptureRun.PublishRefines` | src/daemon/us122d_ll.c:269 | publishing a packet sized at n puts its first n frames behind the readable ones |
| `CaptureRun.ReadRefines` | src/daemon/shmring.h:120-130 | a read moves the oldest positions, and their frames, to the delivery log |
| `PluginIo.Plugin.ReadInput` | src/plugin/US122.driver/Contents/MacOS/US122.c:605-626 | every requested frame is filled: place j of chunk k is the chunk's j-th ring frame converted, in FIFO order, or a zero behind the last; no chunk has zeros before all that was readable at the start has been handed over; frames may arrive between chunks |
| `PluginIo.PouredIsLaid` | src/plugin/US122.driver/Contents/MacOS/US122.c:605-621 | a buffer poured from chunks of 256 holds each frame, converted, at its place |
| `PluginIo.Plugin.WriteMix` | src/plugin/US122.driver/Contents/MacOS/US122.c:628-649 | the ring gains the client's frames in order, missing only the ends of chunks, and a chunk is cut only if by then all the room there was at the start has been filled; with a quiet daemon exactly the longest prefix that fits goes in |
| `PluginIo.LongestPrefix` | src/plugin/US122.driver/Contents/MacOS/US122.c:632-645 | chunked pushing into s free slots keeps exactly the first s frames |
| `PluginIo.Plugin.PushChunk` | src/plugin/US122.driver/Contents/MacOS/US122.c:638-643 | the retry loop gives up only on a full ring, whatever the daemon takes between two attempts |
| `ZeroTimestamp.SampleIsLastBoundary` | src/plugin/US122.driver/Contents/MacOS/US122.c:556-558 | the sample time is the largest multiple of 2048 not after the elapsed time |
| `ZeroTimestamp.StampsAreMonotone` | src/plugin/US122.driver/Contents/MacOS/US122.c:542-568 | at a fixed rate and anchor, sample and host time never go back |
| `ZeroTimestamp.HostIsFunctionOfSample` | src/plugin/US122.driver/Contents/MacOS/US122.c:560-562 | two calls report the same boundary if and only if they report the same host time, once a period lasts a tick |
| `ZeroTimestamp.HostIsRecent` | src/plugin/US122.driver/Contents/MacOS/US122.c:554-562 | anchor <= host <= now, and now - host is less than one period + 1 ns + 1 tick, for every timebase ratio |
| `ZeroTimestamp.RateChangeIff` | src/plugin/US122.driver/Contents/MacOS/US122.c:495-508 | the rate may be set while the clock runs: sample time never goes back across the change, whenever the calls come, if and only if the rate is not lowered |
| `ZeroTimestamp.LoweredRate` | src/plugin/US122.driver/Contents/MacOS/US122.c:556-558 | for every timebase, an instant at which a lower supported rate reports an earlier sample time |
| `ControlPlane.CallKeepsClientInv` | src/plugin/US122.driver/Contents/MacOS/US122.c:495-538 | no plugin entry point raises the running flag without a client running I/O and a supported rate stored |
| `ControlPlane.NextOperationResumes` | src/plugin/US122.driver/Contents/MacOS/US122.c:597-603 | after any clear the next I/O operation restores running, at the client's rate, iff a client is running |
| `ControlPlane.FirstClientAsks` | src/plugin/US122.driver/Contents/MacOS/US122.c:511-528 | the first client to start requests its rate and a cleared device clock, if there is a segment; later ones only count |
| `ControlPlane.LastClientWithdraws` | src/plugin/US122.driver/Contents/MacOS/US122.c:529-538 | the last client to stop lowers the request, and no other does |
| `ControlPlane.RateWaitsForRequest` | src/plugin/US122.driver/Contents/MacOS/US122.c:495-508 | setting a rate takes over the four listed ones and stores nothing until the next request; watching only attaches |
| `ControlPlane.AppStores` | src/daemon/shmring.h:70-80 | the app's two flags are what it last stored |
| `ControlPlane.CutoffEndsStream` | src/daemon/us122d.c:314-319 | the error cutoff while streaming ends the session and lowers the request, and does nothing anywhere else |
| `ControlPlane.ShownMeansHeld` | src/daemon/us122d.c:577-945 | in every interleaving, error cutoffs in callbacks included, from the libusb daemon's first store on: a device the plugin shows is open, claimed and configured |
| `ControlPlane.AppOpenAcquires` | src/daemon/us122d.c:577-645 | left alone with the app open, the libusb daemon opens, claims, configures and then shows the device |
| `ControlPlane.AppShows` | src/daemon/us122d.c:577-645 | which an attached plugin then shows exactly unless the app hides it; with the app closed it does not |
| `ControlPlane.AppWakes` | src/daemon/us122d.c:584-593 | a parked daemon waits for the app and no longer |
| `ControlPlane.AppClosedStopsWaiting` | src/daemon/us122d.c:602-624 | one that waits for the device parks when the app closes |
| `ControlPlane.RequestStreams` | src/daemon/us122d.c:663-815 | a request leads to streaming at the stored rate, or at 48000 if that is none of the four |
| `ControlPlane.StreamFollowsRequest` | src/daemon/us122d.c:814-918 | the stream goes on while the request stands, and ends with it, the device kept |
| `ControlPlane.AppOpenKeeps` | src/daemon/us122d.c:663-694 | an idle daemon keeps the device while the app is open |
| `ControlPlane.AppClosedReleases` | src/daemon/us122d.c:663-925 | and withdraws, closes it and parks once the app closes |
| `ControlPlane.FailureStartsOver` | src/daemon/us122d.c:602-752 | where every failing call leads: back to polling, to the top with the device closed, or to withdrawing it |
| `ControlPlane.StopIsHeeded` | src/daemon/us122d.c:577-945 | told to stop, the daemon exits within ten of its own steps whatever the calls return and the others do |
| `ControlPlane.RequestsAreReal` | src/daemon/us122d.c:697-698 | running = 1 implies a client runs I/O, and the daemon that saw it streams at exactly the stored, supported rate |
| `ControlPlane.LlPresentIff` | src/daemon/us122d_ll.c:479-531 | for the low-latency daemon presence means a configured device throughout a run if and only if the flag found in the segment was down |
| `ControlPlane.StaleFlagPersists` | src/daemon/us122d_ll.c:489-498 | a stale flag survives any number of failed acquisitions |
| `ControlPlane.LlAppOpenStreams` | src/daemon/us122d_ll.c:490-499 | left alone with the app open, the low-latency daemon streams at the stored rate, or at 48000, and shows the device |
| `ControlPlane.LlAppClosedParks` | src/daemon/us122d_ll.c:481-486 | with the app closed it withdraws the device and waits for the app, no longer |
| `ControlPlane.LlStreamGoesOn` | src/daemon/us122d_ll.c:506-515 | it streams on exactly while the app is open, the session goes on and no other supported rate is stored |
| `ControlPlane.LlStartsOver` | src/daemon/us122d_ll.c:493-531 | a failed start is tried again, and a withdrawn device closed before the next |
| `ControlPlane.LlStopIsHeeded` | src/daemon/us122d_ll.c:479-536 | told to stop, it exits within eight of its own steps and leaves the flag down |
| `ControlPlane.Driver.Start` | src/plugin/US122.driver/Contents/MacOS/US122.c:511-528 | first client: attach, then rate, counter and flag; later ones only count |
| `ControlPlane.Driver.Stop` | src/plugin/US122.driver/Contents/MacOS/US122.c:529-538 | the last client to stop clears the flag |
| `ControlPlane.Driver.Resync` | src/plugin/US122.driver/Contents/MacOS/US122.c:597-603 | the store happens only when a client runs and the flag is down |
| `ControlPlane.Driver.ChooseRate` | src/plugin/US122.driver/Contents/MacOS/US122.c:495-508 | exactly the four listed rates are accepted |
| `LinuxDriver.TwoSegments` | reference/linux-reference/us122mkii.c:148-171 | for any buffer, position and packet no longer than the buffer, the two-segment copy equals the copy at (hw_ptr + f) mod buffer_size |
| `LinuxDriver.RecordKeepsHolds` | reference/linux-reference/us122mkii.c:222-247 | writing a packet in two segments keeps the buffer equal to the last buffer_size captured frames at their modular places |
| `LinuxDriver.Loopback` | reference/linux-reference/us122mkii.c:157-161 | captured frames replayed through playback from the same buffer come back byte for byte |
| `LinuxDriver.NarrowWiden` | reference/linux-reference/us122mkii.c:229-233 | shifting three bytes up and reading them back at 8, 16, 24 is the identity |
| `LinuxDriver.NarrowWidenFrame` | reference/linux-reference/us122mkii.c:229-233 | a captured frame is stored as its samples' 32-bit values, each in its channel, and narrowing undoes it |
| `LinuxDriver.CopyOut` | reference/linux-reference/us122mkii.c:151-171 | the two copy loops produce the modular copy |
| `LinuxDriver.CopyIn` | reference/linux-reference/us122mkii.c:222-243 | the two copy loops overwrite exactly the packet's modular slots |
| `LinuxDriver.Advance` | reference/linux-reference/us122mkii.c:173-175 | one conditional subtraction keeps hw_ptr equal to total mod size and in range |
| `LinuxDriver.Card.PlaybackComplete` | reference/linux-reference/us122mkii.c:106-185 | a refilled URB carries the paced counts and, packet after packet, the stream from where it was, without a gap; hw_ptr tracks the total; a killed or stopped one is left alone and leaves the flight |
| `LinuxDriver.Card.CaptureComplete` | reference/linux-reference/us122mkii.c:187-263 | all whole frames of all packets join the capture and hw_ptr tracks it; lengths are re-armed; a URB that is not resubmitted leaves the flight |
| `LinuxDriver.Card.SetRate` | reference/linux-reference/us122mkii.c:63-104 | refused while running, invalid for any fifth rate, and changed only when the device took it, with the accumulator cleared |
| `LinuxDriver.Card.PreparePlayback` | reference/linux-reference/us122mkii.c:325-337 | position 0 in the new buffer; the accumulator is cleared only when no stream runs |
| `LinuxDriver.Card.PrepareCapture` | reference/linux-reference/us122mkii.c:325-337 | position 0 and an empty capture |
| `LinuxDriver.Card.Start` | reference/linux-reference/us122mkii.c:346-370 | the stream runs iff it already did or all eight submissions were accepted; USB is left holding exactly the URBs submitted before the first refusal |
| `LinuxDriver.Card.Close` | reference/linux-reference/us122mkii.c:295-317 | the transfers stop exactly when both substreams are closed |
| `LinuxDriver.Card.Pointer` | reference/linux-reference/us122mkii.c:388-395 | the pointer reported is the total moved since prepare, modulo the buffer size |
| `Circular.PlaceAhead` | reference/linux-reference/us122mkii.c:173-175 | position arithmetic modulo any size by one conditional subtraction |
| `WavPlayer.Sample24IsIdentity` | tools/us122_wavplay.c:191-201 | 24-bit file samples reach the device unchanged |
| `WavPlayer.Sample16IsHighBytes` | tools/us122_wavplay.c:186-190 | 16-bit file samples fill the two high bytes over a zero byte |
| `WavPlayer.WireBytes` | tools/us122_wavplay.c:172-206 | the k-th frame of a 24-bit file is its six bytes as they stand |
| `WavPlayer.WireBytes16` | tools/us122_wavplay.c:186-190 | that of a 16-bit file has its four bytes over zero bytes, left before right |
| `WavPlayer.FramesToAt` | tools/us122_wavplay.c:179-204 | frame i of what the reader yields is the file's i-th frame |
| `WavPlayer.Wav.ReadFrames` | tools/us122_wavplay.c:172-206 | yields the next frames of the file in order, fewer than asked only when the next one cannot be read |
| `WavPlayer.StopsAtChunkEndIff` | tools/us122_wavplay.c:179 | the reader stops at the end of the data chunk if and only if the chunk is shorter than 2^32 - 4 bytes; otherwise its 32-bit counter wraps past the test |
| `WavPlayer.ReaderTotal` | tools/us122_wavplay.c:178-181 | for every such chunk the frames produced are exactly the whole frames that chunk and file share |
| `WavPlayer.MutexRing.Write` | tools/us122_wavplay.c:79-90 | the longest prefix that fits goes in behind what was there |
| `WavPlayer.MutexRing.Read` | tools/us122_wavplay.c:94-110 | the oldest frames in order, silence behind them, and an underrun counted iff the shortfall is before the end of the file |
| `WavPlayer.MutexRing.Drained` | tools/us122_wavplay.c:112-117 | true iff the file has ended and everything written has been read |
| `WavPlayer.Prefill` | tools/us122_wavplay.c:317-327 | terminates with no consumer; leaves the ring three quarters full of the file's first frames, or at its end |
| `WavPlayer.DeliveredIsPrefix` | tools/us122_wavplay.c:274-287 | in every interleaving the frames delivered are a prefix of what the reader yields, and all of it once the file has ended and the ring is empty |
| `WavPlayer.WholeFileDelivered` | tools/us122_wavplay.c:274-287 | what a real reader and ring in step with a run, fresh or prefilled, have handed out is a prefix of the converted file, and the whole of it once the ring is drained |
| `WavPlayer.FreshPlays` | tools/us122_wavplay.c:69-75 | a fresh reader and ring are the machine's start |
| `WavPlayer.PrefilledPlays` | tools/us122_wavplay.c:317-330 | a reader and ring that went through the prefill can start a run: nothing read is missing, and the end of the file is marked only when it is reached |
| `WavPlayer.ReadChunk` | tools/us122_wavplay.c:276-280 | the producer's read, on the real reader, is the machine's step: the next slice of the converted file, short of a chunk only at its end |
| `WavPlayer.PushChunk` | tools/us122_wavplay.c:281-286 | the producer's write, on the real ring, is the machine's step, and takes all that fits |
| `WavPlayer.PullPacket` | tools/us122_wavplay.c:94-110 | the consumer's read, on the real ring, is the machine's step: the next frames of the file, as many as there are, then silence |
| `MeasuredRate.Engine.Measure` | reference/v2-abandoned/V2-US122.driver/Contents/MacOS/V2-usbengine.c:454-464 | the guarded, smoothed update of the measured rate, kept in [30000000, 200000000] |
| `MeasuredRate.SmoothedIs` | reference/v2-abandoned/V2-US122.driver/Contents/MacOS/V2-usbengine.c:454-464 | a measurement outside the guard changes nothing, the first inside is taken over to the nearest thousandth, later ones weigh three tenths up to the truncation |
| `MeasuredRate.FillOwes` | reference/v2-abandoned/V2-US122.driver/Contents/MacOS/V2-usbengine.c:269-270 | a fill owes eight packets of the measured rate, or of the nominal one until there is one |
| `MeasuredRate.Engine.FillTransfer` | reference/v2-abandoned/V2-US122.driver/Contents/MacOS/V2-usbengine.c:262-286 | eight packets paced by the measured rate, nominal until there is one: lengths, slots filled with the oldest readable frames and silence, and the counts of frames read and missed, the plugin writing between packets |
| `MeasuredRate.FeedIsInOrder` | reference/v2-abandoned/V2-US122.driver/Contents/MacOS/V2-usbengine.c:271-286 | frames leave the ring in order, none lost or played twice, whatever is written between packets, and never more than the packets are due |
| `MeasuredRate.QuietFeed` | reference/v2-abandoned/V2-US122.driver/Contents/MacOS/V2-usbengine.c:271-286 | with nothing written meanwhile a transfer plays all it is due or all there is |
| `MeasuredRate.SlotsPlay` | reference/v2-abandoned/V2-US122.driver/Contents/MacOS/V2-usbengine.c:280-284 | each packet's slot holds exactly the frames that left the ring for it, then silence |
| `MeasuredRate.PacketAdds` | reference/v2-abandoned/V2-US122.driver/Contents/MacOS/V2-usbengine.c:280-284 | they are the ones the packet adds to those played, and as many as it is due or there are |
| `MeasuredRate.RateStaysSane` | reference/v2-abandoned/V2-US122.driver/Contents/MacOS/V2-usbengine.c:454-464 | for any measurements and transfers: rate unset or in its guard, accumulator below 8000000 without overflow, and never more sent than owed |
| `MeasuredRate.OnceSetStaysSet` | reference/v2-abandoned/V2-US122.driver/Contents/MacOS/V2-usbengine.c:456-463 | a measured rate never falls back to unset and stays in its guard |
| `MeasuredRate.TotalsAreExact` | reference/v2-abandoned/V2-US122.driver/Contents/MacOS/V2-usbengine.c:270-284 | while the pace is at most 104000000, total frames are exactly the whole part of the sum of all paces over 8000000, although the pace changes between transfers |
| `MeasuredRate.PacketBalance` | reference/v2-abandoned/V2-US122.driver/Contents/MacOS/V2-usbengine.c:272-279 | a packet loses frames to the clamp exactly when accumulator + pace reaches 112000000; the 32-bit sum never wraps |
| `MeasuredRate.FilterContracts` | reference/v2-abandoned/V2-US122.driver/Contents/MacOS/V2-usbengine.c:461 | a steady measurement draws the smoothed rate to within 7/10 of its distance, plus the truncation |

## Left out

Modelling decisions:

- Buffers are arrays of 6-byte frames: every offset the source uses there is a multiple of 6 bytes.
- C doubles are Dafny reals; rounding of the read position, ratio, setpoint, timestamps and measured rate is not modelled.
- Acquire/release atomics are sequentially consistent single steps; each plugin entry point is one step of the control plane.
- The signed right shifts and double-to-int casts are modelled as arithmetic shift and truncation toward zero.
- 64-bit counters (bus frames, host ticks times the timebase numerator, dev_frames) do not wrap.
- The conversion between floats and device frames is a parameter of the plugin model: single-precision rounding at full scale is not representable over reals.
- Calls into IOKit, libusb, ALSA, CFRunLoop, shm_open and mmap are reduced to their outcomes; retries, sleeps, status text, logging and thread priorities are absent.

Members stated weaker than the source, or under a condition:

- Regulation.FillIsRegulated: assumes a setpoint larger than one transfer, which TransferIsSmall derives for every buffer_ms whose setpoint fits the ring; the daemon itself puts no upper bound on buffer_ms.
- Resampler.SlewedRatio: the libusb daemon's law is pinned step by step (SlewLawIff, FullerIsFaster); the convergence of its second-order loop is not proved.
- RingProtocol.EveryStepKeepsInv: the discard step requires that neither side is inside a call; OverlappingDiscardOverfills shows what an overlap does.
- TransferLifecycle.AccountingIsExact: says nothing of the counter after a drain that timed out, when the daemon zeroes it with transfers still out.
- ZeroTimestamp.StampsAreMonotone: fixed rate and anchor, and a host clock that does not run backwards; RateChangeIff is about the sample time alone, the host time of the last boundary differs from rate to rate.
- ControlPlane.RequestsAreReal: the segment is found with running clear; a plugin host that dies while running is not modelled.
- ControlPlane.LlPresentIff: without the debugging override that ignores the app flag.
- LowLatencyCallbacks.LowLatency.PbCb: the callback counters and gap statistics are not part of the state.
- CapturePath.Capture.Collect: the discard of a full ring is one step with no consume in flight, as the source needs it to be.
- CaptureRun.DeliveredInOrder: a read is one step, at its publication; the loads and copies inside it are RingProtocol's.
- PlaybackLoop.RunIsAllSound: for runs that start in the band; RunSettles is for the others.
- WavPlayer.WholeFileDelivered: data chunks below 2^32 - 4 bytes, which StopsAtChunkEndIff shows to be the exact range.
- LinuxDriver.Card.PlaybackComplete: the application may rewrite the ALSA buffer between callbacks but not during one.
- LinuxDriver.Card.Close: the URBs it kills leave the flight through their completion handlers; which of them are anchored is not modelled.
- WavPlayer.MutexRing.Read: the mutex makes each call one step; the flag store that stops the player is left out.
- DeviceSession.Session.SessionStart: pipe policies, pipe resets and the configuration request, whose outcomes the source ignores, are left out, as are the pre-fills of the allocated transfers.
- MeasuredRate.Engine.FillTransfer: the engine's ring, the shared ring's code with 8192 slots, is a queue of its readable frames here.
- PlaybackSupply.NothingRefused: up to the last transfer begun; nothing is assumed, and so nothing said, of what is offered after it.

Not modelled:

- Core Audio property tables and COM plumbing of the plugin, the presence watcher's notifications.
- The sampling-frequency request payloads: four constants.
- The libusb daemon's priming wait, ring flush between sessions, set_rate retries, activity watchdog and context recycling, beyond their effect on the flags.
- WAV header parsing, the WAV player's USB pump (its pacing is Pacing, its ring reads are MutexRing.Read) and its exit sequence.
- The in-process engine's format modes, polling thread and device bring-up.
- The menu app beyond the two flags it owns, installer, descriptor dump and low-latency tone tools.
