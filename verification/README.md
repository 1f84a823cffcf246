# Verified models of an Android hardware abstraction layer

The project models the stateful kernels of an Android HAL for i.MX boards and proves what they keep
over whole runs. `dafny verify dfyconfig.toml` checks everything. Drivers, the operating system, codecs
and effects are parameters: functions that say what a call answers, universally quantified in every
result.

**Camera** (`mx5x/libcamera`). A handful of DMA buffers circulates between the capture, preview and encode
threads, the application, the native window and the V4L2 driver queue. `CameraProtocol` cuts each thread
into its atomic steps; a run is any interleaving from `CameraHALPreviewStart` on. `CameraInvariant` proves
an inductive invariant over all of them, `CameraTheorems` what follows: reference counts are ownership,
no referenced buffer is with the driver, the second `getBufferCount` finds its first reference, the
capture queue never holds more messages than the driver holds buffers, the circulation goes on, and what
`mEnqueuedBufs` counts. It also shows that this needs a window that gives buffers back in the order it got
them. `CameraHal` is the imperative side: the thread functions over the shared fields, with other threads
running at every scheduling point, each proved to take exactly its own steps of the protocol. `MessageQueue`
is the queue between them, `SlotAllocator` the allocator of the buffers, `YuvResize` the scaler of the JPEG
encoder.

**Audio, mx5x** (`mx5x/audio`). `StreamStandby` is the standby/active machine of the two streams with the
rate-group rule and SCO routing, `LockOrder` the three-mutex protocol and its freedom from deadlock,
`WriteThrottle` the sleep loop and the moving threshold of `out_write`, `MonoProvider` the capture buffer
provider with its in-place stereo-to-mono loop, `MixerRoute` the mixer paths and the dirty-tracking cache.

**Audio, tinyalsa** (`alsa`). `CapturePipeline` is the three-layer capture path with an effect that may
consume and produce as it likes.

**Sensors** (`libsensors`). `EventRing` is the input ring with its overflow half, `EventConsumer` the
resumable delivery of two drivers on top of it, `AccelArbiter` the reference counting around the
accelerometer.

**GPS and Bluetooth** (`libgps`, `libbt-ath3k`). `NmeaFraming` and `NmeaTokens` go from bytes to satellite
lists, `HciTransport` reads HCI events and sends firmware patches.

`Common.dfy` holds what several models share.

## What turned out to be conditional

Some properties the code is meant to have hold only under a condition. The condition is proved exact.

- An NMEA line of exactly 84 bytes sets the overflow flag on its own newline and takes the next line with
  it (`NmeaFraming.OneByteTooLong`). The parsed lines are all the lines exactly if every line has at most
  83 bytes (`NmeaFraming.OnlyWholeLines`).
- The accelerometer's batch mode follows its rule after every run exactly if the recorded timeout does not
  start positive; the constructor of the poll context leaves `mBatchParameter` as the allocation left it
  (`AccelArbiter.ArbitratedThroughout`).
- The shared user counts come apart exactly when a sensor that is off is disabled while another one is on
  (`AccelArbiter.BalancedExactlyIfFair`, `AccelArbiter.DisablingWhatIsOff`).
- Writing only changed mixer controls equals writing all of them exactly if every control left alone has
  one value throughout; the cache reads only value 0 of a control (`MixerRoute.SameAsWritingAll`,
  `MixerRoute.NotWrittenAll`). Over any number of routes a control ends as the last one says exactly if it
  started uniform or some route asked for another first value (`MixerRoute.OnlyTheLastRouteMatters`).
- `path_apply` writes past the end of its table exactly if a setting names a control that is not in the list
  (`MixerRoute.AudioRoute.PathApply`, `MixerRoute.UnknownControl`).
- A failed `realloc` in `path_add_setting` or `path_create` leaves `size` larger than the array: the invariant
  holds afterwards exactly if the call succeeded or met a duplicate (`MixerRoute.MixerPath.AddSetting`,
  `MixerRoute.PathList.Create`, `MixerRoute.NoMemoryForASetting`, `MixerRoute.NoMemoryForAPath`).
- `process_frames` loses frames exactly when a read error strikes a `read_frames` call that has already taken
  some: on an open PCM, with frames in the read buffer at its start or a first `pcm_read` that delivered. It
  loses what that call took (`CapturePipeline.StreamIn.ProcessFrames`, `CapturePipeline.ErrorInMidRead`).
- A second `startPreview` clears `mEnqueuedBufs` although the preview runs, so the counter is right exactly if
  nothing is taken off it (`CameraTheorems.EnqueuedIsDepthPlusHeld`, `CameraTheorems.NeverCleared`). Ownership,
  order, tokens and the second reference survive any number of such calls, but the window may then keep that
  many frames more. Some thread goes on as long as there are more buffers than the window may keep, the
  application holds and the encode thread dropped (`CameraTheorems.CirculationGoesOn`); with four buffers and
  one such call the circulation can stop for good (`CameraTheorems.StartedTwiceAndStuck`).
- A stream start does not ask whether `pcm_open` gave NULL or `create_resampler` failed; the active streams
  have what they need throughout a run exactly if no start met either (`StreamStandby.EquippedExactly`,
  `StreamStandby.StartedWithoutPcm`).
- A GSV sentence writes past the satellite list exactly if it announces more than 32 satellites while more
  than 28 are in the list (`NmeaTokens.WhenThereIsRoom`, `NmeaTokens.OneTooManyAnnounced`). `read_hci_event`
  overruns a buffer of one or two bytes exactly if it finds a packet type (`HciTransport.Fd.ReadHciEvent`,
  `HciTransport.TwoBytesAreTooFew`).
- `yuv_resize` succeeds exactly for a destination of at least two by two pixels and no larger than the
  source, odd sizes included; a destination one pixel wide or high gets its luma plane and then an error.
- The pmem allocator searches all 64 slots whatever `mBufCount` is. The next buffer lies in the mapping
  exactly if one of the first `mBufCount` slots is free (`SlotAllocator.NextIsAmongFirst`), and
  `deAllocate` recovers a slot exactly if its offset fits 32 bits (`SlotAllocator.SlotIsRecovered`). It takes
  any address inside a slot, and frees one under its holder exactly if the address is not the slot's first
  (`SlotAllocator.DeAllocateKeepsMatched`, `SlotAllocator.FreedUnderItsHolder`).
- Patch commands carry consecutive indices exactly up to 65536 commands
  (`HciTransport.IndicesAreConsecutive`, `HciTransport.OneCommandTooMany`).
- The comment in `out_write` speaks of steps of a quarter of the buffer size; the code steps a quarter
  period, and the model follows the code.

## Model

| member | source | states |
|---|---|---|
| CameraInvariant.StepKeepsInv | mx5x/libcamera/CameraHal.cpp:1932-1973 | every atomic step of every thread, a second startPreview included, keeps the invariant: one place per buffer, counts are ownership, lines without repeats, window depth, token and counter accounts |
| CameraInvariant.InitHolds | mx5x/libcamera/CameraHal.cpp:1908-1930 | the state CameraHALPreviewStart starts from satisfies the invariant |
| CameraInvariant.RunKeepsInv | mx5x/libcamera/CameraHal.cpp:1993-2285 | the invariant holds after every interleaving |
| CameraTheorems.CountsAreOwnership | mx5x/libcamera/CameraHal.cpp:1967-1973 | refCount is preview-side plus encode-side ownership; a buffer at the driver has none |
| CameraTheorems.EveryBufferIsSomewhere | mx5x/libcamera/CameraHal.cpp:1932-1965 | each buffer is in exactly one place: driver, just dequeued, being put, lost, or owned |
| CameraTheorems.PutIsSafe | mx5x/libcamera/CameraHal.cpp:1932-1965 | a put finds a count of at least one; a buffer handed to the driver has count zero, no owner and is not already there |
| CameraTheorems.ReturnedOnce | mx5x/libcamera/CameraHal.cpp:1946-1959 | between two returns of a buffer to the driver lies a dequeue of it |
| CameraTheorems.DequeueFindsABuffer | mx5x/libcamera/CameraHal.cpp:1999-2019 | queued messages plus the one in hand never exceed the buffers at the driver, equal when no thread is mid-step; mQueuedBufNum is their number |
| CameraTheorems.SecondReferenceFindsTheFirst | mx5x/libcamera/CameraHal.cpp:2018-2024 | before the second getBufferCount the buffer is still on the preview side with count one, away from the driver, its lock free |
| CameraTheorems.EnqueuedIsDepthPlusHeld | mx5x/libcamera/CameraHal.cpp:2151-2157 | at rest mEnqueuedBufs shows the window depth plus the returned buffers the encode side still holds, less what was taken off it, in 32 bits; it is right exactly if nothing was |
| CameraTheorems.StartingPreviewAgain | mx5x/libcamera/CameraHal.cpp:999-1006 | a second startPreview, which clears mEnqueuedBufs before it looks whether the preview runs, takes the window depth and the held buffers off it |
| CameraTheorems.NeverCleared | mx5x/libcamera/CameraHal.cpp:999-1006 | nothing else in any run takes anything off |
| CameraTheorems.PreviewStartedTwice | mx5x/libcamera/CameraHal.cpp:999-1006 | an example: one frame in the window, and the counter shows none |
| CameraTheorems.WindowKeepsTwo | mx5x/libcamera/CameraHal.cpp:2153-2157 | the window holds at most three frames and what was taken off the counter, and at least two while the encode side holds a returned one |
| CameraTheorems.CirculationGoesOn | mx5x/libcamera/CameraHal.cpp:1993-2285 | with more buffers than two, those taken off the counter, those lent and those dropped, some thread always has a step of its own to take |
| CameraTheorems.StartedTwiceAndStuck | mx5x/libcamera/CameraHal.cpp:2151-2157 | an example: after a second startPreview all four buffers end in the window, and in no continuation has any thread a step of its own to take |
| CameraTheorems.OutOfCirculation | mx5x/libcamera/CameraHal.cpp:1946-1963 | after any run a buffer is out of circulation exactly if in some step its frame was not lent or its count reached zero before mCaptureRunning |
| CameraTheorems.NeverComesBack | mx5x/libcamera/CameraHal.cpp:1946-1963 | such a buffer never reaches the driver again |
| CameraTheorems.UsingIsLent | mx5x/libcamera/CameraHal.cpp:2248-2264 | in every reachable state mVideoBufferUsing marks exactly the frames the application holds, from the start of recording on; before it the application holds none |
| CameraTheorems.WhatAPutDoes | mx5x/libcamera/CameraHal.cpp:1939-1946 | without recording a marked frame with two references loses both and its mark; otherwise the count goes down by one and nothing else changes |
| CameraTheorems.QueuesAreFifo | mx5x/libcamera/CameraHal.cpp:1993-2285 | over any run each message queue and the window hold what was put in and not yet taken out, in order: frames are shown, given back and encoded in the order of their capture |
| CameraTheorems.NewestFirstWindowIsUnsafe | mx5x/libcamera/CameraHal.cpp:2018-2024 | with a window that gave back its newest frame, a reachable state returns a buffer the capture thread is about to reference |
| CameraHal.CameraHal.CaptureFrameThread | mx5x/libcamera/CameraHal.cpp:1993-2027 | whatever the other threads do at its scheduling points, the capture thread takes exactly its steps of the protocol, in order; it waits only on an empty queue; the frame goes to the encoder if recording ran before, and only if it runs in the end |
| CameraHal.CameraHal.PreviewShowFrameThread | mx5x/libcamera/CameraHal.cpp:2106-2188 | the same for the preview thread, with the branch on mEnqueuedBufs and the put |
| CameraHal.CameraHal.EncodeFrameThread | mx5x/libcamera/CameraHal.cpp:2226-2267 | the same for the encode thread; a frame taken is lent, marked in mVideoBufferUsing and handed over, exactly if the message is enabled, since recording runs whenever there is one |
| CameraHal.CameraHal.ReleaseRecordingFrame | mx5x/libcamera/CameraHal.cpp:1114-1127 | the same for the application's release of a lent frame; at the end the buffer's lock is not held, so at count zero the buffer has gone to the driver or left circulation |
| CameraHal.CameraHal.StartRecording | mx5x/libcamera/CameraHal.cpp:1073-1094 | recording starts once, with every using flag cleared |
| CameraHal.CameraHal.StartPreview | mx5x/libcamera/CameraHal.cpp:1926-1930 | one message per buffer is posted, then mCaptureRunning is set |
| CameraHal.CameraHal.StartPreviewAgain | mx5x/libcamera/CameraHal.cpp:999-1006 | clears mEnqueuedBufs while the preview runs, as the protocol's step does |
| CameraHal.CameraHal.GetBufferCount | mx5x/libcamera/CameraHal.cpp:1967-1973 | takes one reference as the protocol's step does |
| CameraHal.CameraHal.Decrement | mx5x/libcamera/CameraHal.cpp:1939-1947 | reclaims an unreleased recording frame, counts down, and tells whether zero was reached |
| CameraHal.CameraHal.ReturnToDriver | mx5x/libcamera/CameraHal.cpp:1947-1963 | at zero: queue to the driver, mEnqueuedBufs down, message posted, in this order and under the buffer's lock, which is given up at the end |
| CameraHal.CameraHal.DevDequeue | mx5x/libcamera/V4l2CapDeviceBase.cpp:626-645 | the driver always has a buffer to give when it is reached |
| CameraHal.CameraHal.Requeue | mx5x/libcamera/V4l2CapDeviceBase.cpp:647-666 | the buffer joins the driver queue and mQueuedBufNum goes up, if the capture is running |
| CameraHal.CameraHal.V4l2Prepare | mx5x/libcamera/V4l2CapDeviceBase.cpp:588-608 | every buffer is queued and counted once |
| CameraHal.RunsJoin | mx5x/libcamera/CameraHal.cpp:1993-2285 | the steps of a thread in two runs one after the other are its steps in the joined run |
| CameraHal.OthersDoNotMove | mx5x/libcamera/CameraHal.cpp:1932-1973 | no thread moves another thread's program point or takes a lock it holds |
| MessageQueue.CMessageQueue.WaitMessage | mx5x/libcamera/messageQueue.cpp:72-111 | the call ends at the first point, over any activity of other threads during its sleeps, at which the queue has an offer, and takes it; it times out exactly at its deadline without one; to the history it adds what the others did and at most one delivery |
| MessageQueue.CMessageQueue.TakeOffer | mx5x/libcamera/messageQueue.cpp:81-97 | quit before stop before the oldest data message, which leaves the queue; one delivery in the history, or nothing |
| MessageQueue.DeliveryIsFifo | mx5x/libcamera/messageQueue.cpp:72-111 | delivered data messages are posted ones in posting order, each at most once |
| MessageQueue.EveryPostCounts | mx5x/libcamera/messageQueue.cpp:135-141 | every message posted enters the queue, whatever else was requested |
| MessageQueue.OfferIsNextPosted | mx5x/libcamera/messageQueue.cpp:81-97 | the message offered is the oldest one not yet delivered or cleared |
| MessageQueue.NothingSkipped | mx5x/libcamera/messageQueue.cpp:113-141 | without clearMessage the delivered ones are the first posted ones |
| MessageQueue.ClearForgets | mx5x/libcamera/messageQueue.cpp:64-70 | clearMessage empties the queue, takes back a stop and keeps a quit request; no message posted before it is delivered after it |
| MessageQueue.InTurnAfterAClear | mx5x/libcamera/messageQueue.cpp:64-111 | between two calls of clearMessage the messages are delivered in turn, from the first one posted after the call |
| MessageQueue.QuitIsSticky | mx5x/libcamera/messageQueue.cpp:64-70 | a quit request outlives everything, clearMessage included |
| MessageQueue.StopLastsUntilCleared | mx5x/libcamera/messageQueue.cpp:126-133 | a stop request lasts until the next clearMessage |
| StreamStandby.AnyCallsKeep | mx5x/audio/audio_hw.c:203-384 | every sequence of writes, reads, standbys and routings keeps the invariant |
| StreamStandby.FromOpenOn | mx5x/audio/audio_hw.c:203-384 | from open on: active iff not in standby, rates in one group, SCO configuration iff routed to SCO, every opened PCM open or closed exactly once; all active streams have PCM and resampler throughout iff no start came without one |
| StreamStandby.EquippedExactly | mx5x/audio/audio_hw.c:278-310 | whatever the state, active streams stay equipped over a run exactly if no start in it got NULL from pcm_open or missed a resampler it needs |
| StreamStandby.StartedWithoutPcm | mx5x/audio/audio_hw.c:278-310 | an example: a first write that gets NULL from pcm_open leaves the output active without a PCM |
| StreamStandby.WriteWins | mx5x/audio/audio_hw.c:246-313 | starting the output leaves it active unless its PCM is not ready, and the input running exactly if the rates agree |
| StreamStandby.ReadWins | mx5x/audio/audio_hw.c:316-384 | the same for starting the input |
| StreamStandby.RoutedLast | mx5x/audio/audio_hw.c:546-565 | after any run each device word is the last nonempty one routed to its side, or the initial one |
| StreamStandby.RoutingStandsBy | mx5x/audio/audio_hw.c:555-563 | a nonempty word is kept; the output is in standby afterwards exactly if it was, or if the two words differ on a SCO bit; nothing else changes |
| StreamStandby.RoutingInStandsBy | mx5x/audio/audio_hw.c:851-870 | the same for the input |
| StreamStandby.StandbyGivesBack | mx5x/audio/audio_hw.c:203-243 | standby closes the PCM of an active stream and only that, and leaves the other stream alone |
| StreamStandby.WhatAStartGives | mx5x/audio/audio_hw.c:246-313 | what a started output has: its configuration, a PCM never opened before unless pcm_open gave NULL, resampler and buffer exactly if routed to SCO |
| StreamStandby.WhatAStartOfInputGives | mx5x/audio/audio_hw.c:316-384 | the same for the input, whose resampler depends on the rate asked for |
| StreamStandby.AudioDevice.StartOutputStream | mx5x/audio/audio_hw.c:246-313 | configuration, conflict standby, open, the failed start, a NULL PCM and a failed create_resampler, as the state function says |
| StreamStandby.AudioDevice.StartInputStream | mx5x/audio/audio_hw.c:316-384 | the same for the input stream |
| StreamStandby.AudioDevice.DoOutStandby | mx5x/audio/audio_hw.c:203-222 | closes the PCM and releases resampler and buffer, once |
| StreamStandby.AudioDevice.DoInStandby | mx5x/audio/audio_hw.c:224-243 | the same for the input stream |
| StreamStandby.AudioDevice.OutSetParameters | mx5x/audio/audio_hw.c:546-565 | the new word is kept, and the output goes into standby exactly if a SCO bit toggles; the invariant is kept |
| StreamStandby.AudioDevice.InSetParameters | mx5x/audio/audio_hw.c:851-870 | the same for the input |
| StreamStandby.AudioDevice.OutWrite | mx5x/audio/audio_hw.c:623-636 | starts the stream if it is in standby, and keeps the invariant |
| StreamStandby.AudioDevice.InRead | mx5x/audio/audio_hw.c:903-910 | the same for in_read |
| LockOrder.NoDeadlock | mx5x/audio/audio_hw.c:169-173 | in every state that keeps the lock order some unfinished thread can step |
| LockOrder.RunsFinish | mx5x/audio/audio_hw.c:169-173 | a run is never longer than the work there is, and one that takes it all ends with every mutex free |
| LockOrder.EveryRunCanFinish | mx5x/audio/audio_hw.c:169-173 | whatever has happened, the threads can all be driven to the end |
| LockOrder.CallsAreDisciplined | mx5x/audio/audio_hw.c:517-565 | each call of the HAL keeps the lock order on every path |
| LockOrder.HeldWhereNeeded | mx5x/audio/audio_hw.c:517-565 | where each call works it holds the mutexes the source takes there, and none at the end |
| LockOrder.HalNeverDeadlocks | mx5x/audio/audio_hw.c:623-636 | any number of threads making any calls never deadlock, in any interleaving |
| LockOrder.StreamFirstDeadlocks | mx5x/audio/audio_hw.c:169-173 | a thread that takes its stream mutex first can block another for ever |
| WriteThrottle.Throttle | mx5x/audio/audio_hw.c:679-710 | each sleep is the excess over the threshold cut to what is left of MAX_WRITE_SLEEP_US, the loop runs at most MAX/MIN+1 times, and it stops only for the reasons the source gives |
| WriteThrottle.SleepLength | mx5x/audio/audio_hw.c:694-696 | the sleep is the whole microseconds that 44100 frames a second need for the excess |
| WriteThrottle.WorthASleep | mx5x/audio/audio_hw.c:691-698 | a fill is slept on exactly from 89 frames above the threshold on; the bound is 23219 microseconds |
| WriteThrottle.PeriodsAboveRoundsUp | mx5x/audio/audio_hw.c:731 | the unsigned arithmetic of the reset rounds up to the next period, for negative fills too |
| WriteThrottle.NeverOvershoots | mx5x/audio/audio_hw.c:719-728 | the threshold moves towards the target, a quarter period at most, and never past it |
| WriteThrottle.ResetLandsBetween | mx5x/audio/audio_hw.c:729-734 | a reset happens only at the target after a depletion and lands strictly between fill and target |
| WriteThrottle.WhenItResets | mx5x/audio/audio_hw.c:729-734 | at the target the threshold is reset exactly if the fill is more than 1024 frames below, to a quarter period above the next whole period |
| WriteThrottle.LastFillIs | mx5x/audio/audio_hw.c:685-691 | the fill that decides is that of the last answer that was no failure, or the one before the call |
| WriteThrottle.ReachesTarget | mx5x/audio/audio_hw.c:719-734 | with a stable target the threshold arrives after exactly distance over quarter, rounded up, writes |
| WriteThrottle.StreamOut.AdaptBufferType | mx5x/audio/audio_hw.c:638-653 | a change of buffer type sets the target, and the threshold too when the stream leaves standby; nothing changes while routed to SCO |
| WriteThrottle.StreamOut.Write | mx5x/audio/audio_hw.c:679-734 | target and threshold after a write, and its sleeps; neither changes nor sleeps while routed to SCO |
| MonoProvider.MonoAt | mx5x/audio/audio_hw.c:415-421 | in the mono stream, frame i of the period that call k of pcm_read delivers follows all frames of the calls before and is the first sample of that frame; without errors before it, it is frame k * n + i |
| MonoProvider.StreamIn.Compact | mx5x/audio/audio_hw.c:415-421 | the in-place loop yields buffer[i] == old(buffer[2i]) and touches nothing else |
| MonoProvider.StreamIn.GetNextBuffer | mx5x/audio/audio_hw.c:386-430 | grants the next frames of the mono stream, at most what was asked; pcm_read is called exactly when nothing is held; the error cases |
| MonoProvider.StreamIn.ReleaseBuffer | mx5x/audio/audio_hw.c:432-444 | takes the released frames off, never below zero |
| MonoProvider.StreamIn.ReadFrames | mx5x/audio/audio_hw.c:448-482 | what is handed over is the mono stream of the answers of pcm_read, in order for any splitting; the result is the number of frames or the error of the call that failed; no period is read early |
| MixerRoute.MixerPath.AddSetting | mx5x/audio/audio_route.c:156-189 | duplicates refused, growth by doubling, contents appended; when the array stops matching size |
| MixerRoute.NoMemoryForASetting | mx5x/audio/audio_route.c:166-181 | an example: no memory for the first setting leaves size eight over an array of none |
| MixerRoute.MixerPath.AddPath | mx5x/audio/audio_route.c:191-200 | nesting takes over exactly the settings before the first repeated control |
| MixerRoute.PathList.Create | mx5x/audio/audio_route.c:99-136 | a new name is appended exactly if it is new and there is memory |
| MixerRoute.NoMemoryForAPath | mx5x/audio/audio_route.c:107-120 | an example: no memory for the first path leaves size eight over an array of none |
| MixerRoute.AudioRoute.PathApply | mx5x/audio/audio_route.c:211-231 | new_value becomes what the settings make of it; the table is left exactly if a setting names a control that is not in the list |
| MixerRoute.UnknownControl | mx5x/audio/audio_route.c:219-227 | an example: a setting of a control that is not in the list |
| MixerRoute.LastWins | mx5x/audio/audio_route.c:211-231 | that is the last setting of each control, or its old value |
| MixerRoute.LastPathWins | mx5x/audio/audio_route.c:211-231 | of several paths the last one that sets a control decides it |
| MixerRoute.AppliedInTurn | mx5x/audio/audio_route.c:211-231 | applying two paths in turn is applying their settings together |
| MixerRoute.AudioRoute.UpdateMixerState | mx5x/audio/audio_route.c:345-361 | exactly the changed controls are written, all their values, in order; the cache agrees with the hardware afterwards |
| MixerRoute.AudioRoute.ResetMixerState | mx5x/audio/audio_route.c:374-382 | new_value becomes reset_value |
| MixerRoute.AudioRoute.SaveMixerState | mx5x/audio/audio_route.c:363-372 | reset_value becomes value 0 of each control |
| MixerRoute.AudioRoute.Route | mx5x/audio/audio_hw.c:187-197 | reset, paths, update: the cache holds the reset values overlaid by the paths, only changed controls were written |
| MixerRoute.AudioRoute.SelectDevices | mx5x/audio/audio_hw.c:177-201 | the same for the three paths of select_devices, in its order |
| MixerRoute.WhichDeviceWins | mx5x/audio/audio_hw.c:177-201 | for each control: the main-mic path before the headphone path before the speaker path, each only while its device is on and the path exists, and the reset value last |
| MixerRoute.SameAsWritingAll | mx5x/audio/audio_route.c:345-361 | writing the changed controls equals writing all exactly if the others are uniform |
| MixerRoute.NotWrittenAll | mx5x/audio/audio_route.c:345-361 | an example: a control with values 0 and 1 that is to become 0 |
| MixerRoute.OnlyTheLastRouteMatters | mx5x/audio/audio_hw.c:187-197 | after any number of routes every value of a control is what the last one says, exactly if the control started uniform or some route asked for another first value |
| CapturePipeline.StreamIn.GetNextBuffer | alsa/tinyalsa_hal.c:2044-2091 | grants from the read buffer, calling pcm_read exactly when it is empty, into a buffer grown if need be; the error cases |
| CapturePipeline.StreamIn.ReadFrames | alsa/tinyalsa_hal.c:2109-2143 | the frames put into the buffer are the next ones of the captured stream; it fails exactly on a closed PCM or at the first error of pcm_read, having taken frames exactly if some were there or the first call delivered |
| CapturePipeline.StreamIn.Consume | alsa/tinyalsa_hal.c:2217-2225 | the frames the effect left move to the front of the input buffer |
| CapturePipeline.StreamIn.ProcessFrames | alsa/tinyalsa_hal.c:2148-2241 | call i of the effect is its answer to the captured stream from where call i - 1 stopped, at least the frames asked for; captured is what pcm_read delivered, in order; output within the request; when it fails, with what code and which frames are lost |
| CapturePipeline.OutputOfCall | alsa/tinyalsa_hal.c:2210-2240 | call i of the effect contributes the frames it produced, or as many as there was room for, right behind those of the calls before; the room is what those left of the request |
| CapturePipeline.NothingProducedIsLost | alsa/tinyalsa_hal.c:2232-2240 | when no call overfills its room the output is everything produced, in call order |
| CapturePipeline.CallsInTurn | alsa/tinyalsa_hal.c:2155-2225 | each call starts where those before it stopped consuming, sees what they left and at least the frames asked for |
| CapturePipeline.FrameAt | alsa/tinyalsa_hal.c:2044-2091 | frame i of the period that call k of pcm_read delivers is frame (k - lo) * period + i of the captured stream |
| CapturePipeline.ErrorInMidRead | alsa/tinyalsa_hal.c:2109-2143 | an example: a period of two frames and then an error, with three frames asked for, loses the two |
| CapturePipeline.ErrorAtOnce | alsa/tinyalsa_hal.c:2109-2143 | an error at the first call loses nothing |
| CapturePipeline.StreamIn.ConservedMeans | alsa/tinyalsa_hal.c:2148-2241 | conservation means consumed, then waiting, then the read buffer's rest are the captured stream |
| CapturePipeline.StreamIn.Start | alsa/tinyalsa_hal.c:1711-1714 | a started stream conserves |
| EventRing.InputEventCircularReader.Fill | libsensors/InputEventReader.cpp:49-72 | what was read is appended to the unread events, over the end and from the aliased empty ring too; a partial read is refused as a whole |
| EventRing.HoldsTheUnread | libsensors/InputEventReader.cpp:49-88 | after every run of fills and guarded nexts the ring holds exactly the events read and not yet consumed, in order, within its room |
| EventRing.WhatAFillAdds | libsensors/InputEventReader.cpp:49-72 | a fill adds exactly the events of a whole read, if there was room for any |
| EventRing.InputEventCircularReader.WrapAround | libsensors/InputEventReader.cpp:63-67 | the copy from the overflow half overwrites no unread event |
| EventRing.InputEventCircularReader.ReadEvent | libsensors/InputEventReader.cpp:74-79 | the oldest unread event, if there is one |
| EventRing.InputEventCircularReader.Next | libsensors/InputEventReader.cpp:81-88 | takes the oldest event off |
| EventConsumer.SensorDriver.ReadEvents | libsensors/PressSensor.cpp:122-161 | hands over the first events of what is due, leaves something unread only for lack of room; the error cases with their codes |
| EventConsumer.SensorDriver.HandleEvent | libsensors/MagSensor.cpp:165-188 | one event: a SYN whose flush is cut short stays at the head |
| EventConsumer.SensorDriver.Flush | libsensors/PressSensor.cpp:142-152 | the loop over the sensors sends a first part of the reports and leaves the rest pending, for lack of room only |
| EventConsumer.SensorDriver.ProcessEvent | libsensors/MagSensor.cpp:194-228 | the pending event and mask bits of each input code |
| EventConsumer.PendingIsLatest | libsensors/MagSensor.cpp:194-228 | after any input each field of a pending event is the value of the last data event with its code, or what it was; its mask bit is set exactly if one came since the last SYN |
| EventConsumer.WhatIsDelivered | libsensors/MagSensor.cpp:165-188 | a SYN delivers one event for each enabled sensor with news, sensor 0 first, with its time and the latest values; nothing else delivers any |
| EventConsumer.DeliverInTwoParts | libsensors/PressSensor.cpp:133-158 | delivering input in two parts is delivering it at once |
| EventConsumer.ChunkingDoesNotMatter | libsensors/PressSensor.cpp:122-161 | the outputs of any sequence of calls are the first events of one delivery of all the input |
| EventConsumer.NothingIsLeftBehind | libsensors/PressSensor.cpp:122-161 | all of them, if the last call had room to spare |
| AccelArbiter.PollContext.Activate | libsensors/sensors.cpp:209-242 | the drivers and magRunTimes after activate, and when it succeeds |
| AccelArbiter.PollContext.Batch | libsensors/sensors.cpp:300-324 | the same for batch, dry runs included |
| AccelArbiter.AccelSensor.SetEnable | libsensors/AccelSensor.cpp:71-100 | the two counters, clamped at zero, and the value written |
| AccelArbiter.AccelSensor.Batch | libsensors/AccelSensor.cpp:449-468 | the batch bit and the fifo parameters, or the dry-run answer |
| AccelArbiter.MagSensor.SetEnable | libsensors/MagSensor.cpp:80-104 | the two counters and the value written |
| AccelArbiter.ArbitratedThroughout | libsensors/sensors.cpp:209-324 | over all runs batch mode is on iff no magnetic sensor is in use and the last accelerometer request that was no dry run, or the initial parameter, has a positive timeout, exactly if the initial timeout is not positive |
| AccelArbiter.RecordedIsLastRequest | libsensors/sensors.cpp:300-324 | after any run the recorded parameter of a handle is that of its last batch call that was no dry run, or the initial one |
| AccelArbiter.FifoIsAsWanted | libsensors/sensors.cpp:209-324 | after any run the fifo holds the parameters the calls gave it in turn, from the last requests of the three handles, and the delay is its period |
| AccelArbiter.CountersCount | libsensors/AccelSensor.cpp:71-100 | after any run every counter is the enables and disables of its handles, clamped at zero, and each attribute is on exactly if one of its counters is positive |
| AccelArbiter.CountsAreOutstanding | libsensors/sensors.cpp:219-236 | if no handle is disabled more often than enabled, every counter is enables minus disables and the two enable attributes follow |
| AccelArbiter.WhenTheCountsComeApart | libsensors/sensors.cpp:219-236 | one activate breaks the balance exactly by disabling a sensor that is off while another is on |
| AccelArbiter.BalancedExactlyIfFair | libsensors/sensors.cpp:219-236 | over any run from the start the shared counters add up after every call exactly if no call disables a sensor that is off while another one is on |
| AccelArbiter.DisablingWhatIsOff | libsensors/sensors.cpp:219-236 | an example: the magnetometer on, the accelerometer off |
| YuvResize.YuvResize | mx5x/libcamera/JpegEncoderSoftware.cpp:599-654 | when it succeeds, the three planes it writes, nothing else, each pixel once |
| YuvResize.ResizePlane | mx5x/libcamera/JpegEncoderSoftware.cpp:622-636 | one plane: exactly the scaled source plane |
| YuvResize.FromInPlane | mx5x/libcamera/JpegEncoderSoftware.cpp:611-630 | every pixel read lies in the source plane |
| YuvResize.FromAt | mx5x/libcamera/JpegEncoderSoftware.cpp:626-632 | pixel (x, y) comes from (x times the ratio plus the margin, likewise y) |
| YuvResize.ScaledAt | mx5x/libcamera/JpegEncoderSoftware.cpp:611-636 | pixel (x, y) of the scaled plane is the source pixel at (x times the ratio plus the left margin, y times the ratio plus the top one) |
| YuvResize.Pixel | mx5x/libcamera/JpegEncoderSoftware.cpp:626-632 | the pointer arithmetic of the loops computes these positions |
| YuvResize.SameSizeIsCopy | mx5x/libcamera/JpegEncoderSoftware.cpp:599-654 | equal sizes copy the whole 4:2:0 image |
| NmeaFraming.NmeaReader.AddC | libgps/athr_gps.c:905-929 | one byte of the framing machine |
| NmeaFraming.ParsedLines | libgps/athr_gps.c:905-929 | the parser is given exactly the arriving lines, whole and in order, and the rest is kept |
| NmeaFraming.OnlyWholeLines | libgps/athr_gps.c:905-929 | for every byte stream: only whole lines of at most 83 bytes, and all lines iff all fit |
| NmeaFraming.OneByteTooLong | libgps/athr_gps.c:915-919 | a line of exactly 84 bytes takes the next one with it, a longer one does not |
| NmeaFraming.SplitAndJoin | libgps/athr_gps.c:905-929 | every stream is lines and an incomplete last one |
| NmeaTokens.NmeaTokenizer.Init | libgps/athr_gps.c:227-270 | the tokens are the first 32 fields of the text without dollar, newline and checksum |
| NmeaTokens.StrippedBody | libgps/athr_gps.c:227-250 | exactly a leading dollar, a newline with or without carriage return, and a checksum of three characters are taken off, each only if it is there |
| NmeaTokens.TokensJoinBack | libgps/athr_gps.c:227-270 | up to 32 tokens joined with commas give the text back but for a final comma; no token holds a comma |
| NmeaTokens.GetJoined | libgps/athr_gps.c:272-283 | every field that was joined is read back, an empty last one too |
| NmeaTokens.Str2Int | libgps/athr_gps.c:286-313 | -1 for anything but digits, otherwise their value in 32-bit arithmetic |
| NmeaTokens.WhatIsRead | libgps/athr_gps.c:286-313 | that is -1 exactly for text that is empty or holds anything but digits, otherwise the decimal value cut to 32 bits |
| NmeaTokens.ReadsBack | libgps/athr_gps.c:286-313 | a decimal number below 2^31 is read back |
| NmeaTokens.NmeaReader.ParseGsa | libgps/athr_gps.c:718-747 | the mask and flags after a GSA sentence |
| NmeaTokens.GsaArrives | libgps/athr_gps.c:718-747 | from the text of a GSA sentence: with a fix the mask has exactly the bits of the satellites it names and both flags are set if there is one; without one mask and flag are cleared if there was a fix |
| NmeaTokens.WhenItIsAFix | libgps/athr_gps.c:718-724 | a sentence counts as a fix unless its mode is missing or starts with 1 |
| NmeaTokens.NmeaReader.ParseGsv | libgps/athr_gps.c:748-794 | the list, count and flag after a GSV sentence, and exactly when it writes past the end of the list |
| NmeaTokens.WhatAGsvDoes | libgps/athr_gps.c:748-794 | one sentence appends up to four satellites and no more than announced, the first one starting anew; the flag says whether it was the last |
| NmeaTokens.WhenThereIsRoom | libgps/athr_gps.c:768-783 | a sentence has room exactly if at most 32 satellites are announced or at most 28 are in the list |
| NmeaTokens.OneTooManyAnnounced | libgps/athr_gps.c:768-783 | an example: 32 satellites in the list and a sentence of 33 |
| NmeaTokens.BurstArrives | libgps/athr_gps.c:748-794 | from the text of a whole burst: all satellites in order, the count and the changed flag, whatever was known before |
| HciTransport.Fd.ReadHciEvent | libbt-ath3k/src/hardware_QCA3002.c:178-219 | however read splits the stream, the result is its first event cut to the buffer, or an error; a buffer of one or two bytes is overrun exactly if there is a packet type to find |
| HciTransport.TwoBytesAreTooFew | libbt-ath3k/src/hardware_QCA3002.c:184-199 | an example: a buffer of two bytes and a stream that starts an event |
| HciTransport.EventArrives | libbt-ath3k/src/hardware_QCA3002.c:178-219 | an event with room for it is read as sent with the stream right behind it; with less room it is cut to size, its three header bytes aside, and leaves its rest in the stream |
| HciTransport.EventCutShort | libbt-ath3k/src/hardware_QCA3002.c:178-219 | an event whose bytes end before what would be read of it is none |
| HciTransport.LoadHciPsHdr | libbt-ath3k/src/hardware_QCA3002.c:344-357 | the seven header bytes |
| HciTransport.CommandBytes | libbt-ath3k/src/hardware_QCA3002.c:344-357 | the bytes of a command: 0x0B, 0xFC, the length plus four, the operation, the index with its low byte first, the length, the data |
| HciTransport.CommandIsReceived | libbt-ath3k/src/hardware_QCA3002.c:344-357 | decoding a command gives opcode 0xFC0B, length plus four, the index modulo 65536 and the data |
| HciTransport.PsPatchDownload | libbt-ath3k/src/hardware_QCA3002.c:1033-1065 | the commands sent, also when the patch is shorter than announced or a command is refused: exactly those before the first chunk that is cut short or refused; when it succeeds, the enabling command at the end |
| HciTransport.PatchReassembles | libbt-ath3k/src/hardware_QCA3002.c:1033-1060 | the payloads put together are the patch, as far as it was sent |
| HciTransport.CommandAt | libbt-ath3k/src/hardware_QCA3002.c:1033-1060 | index, opcode and length of each command; all but the last carry 244 bytes |
| HciTransport.IndicesAreConsecutive | libbt-ath3k/src/hardware_QCA3002.c:1053-1059 | the indices count up from zero iff there are at most 65536 commands |
| HciTransport.OneCommandTooMany | libbt-ath3k/src/hardware_QCA3002.c:1053-1059 | an example: a patch of 65537 commands repeats an index |
| SlotAllocator.PmemAllocator.constructor | mx5x/libcamera/Camera_pmem.cpp:44-100 | the slot size rounded up and cut to 32 bits, for any size asked for, exactly when there is a mapping, and when its slots are of use |
| SlotAllocator.PmemAllocator.Allocate | mx5x/libcamera/Camera_pmem.cpp:122-145 | the first free slot becomes taken, and the buffer has its two addresses and the slot size; exactly when it fails; inside the mapping if fewer than mBufCount are out and the mapping does not wrap around |
| SlotAllocator.PmemAllocator.DeAllocate | mx5x/libcamera/Camera_pmem.cpp:147-163 | frees the slot the address falls into, if it is taken |
| SlotAllocator.SlotIsRecovered | mx5x/libcamera/Camera_pmem.cpp:154 | division recovers the slot iff its offset fits 32 bits |
| SlotAllocator.AllSlotsFit | mx5x/libcamera/Camera_pmem.cpp:72-74 | all count slots lie in the mapping iff its size did not wrap around |
| SlotAllocator.NextIsAmongFirst | mx5x/libcamera/Camera_pmem.cpp:131-143 | the next slot is among the first n iff one of them is free, so with fewer than n taken |
| SlotAllocator.RunKeepsMatched | mx5x/libcamera/Camera_pmem.cpp:122-163 | over any run of allocate and deAllocate(address) in which callers give back what they hold, the buffers held are in one-to-one correspondence with the taken slots |
| SlotAllocator.BuffersAreDisjoint | mx5x/libcamera/Camera_pmem.cpp:131-158 | after such a run the buffers held lie page-aligned, pairwise disjoint and inside the first limit slots, virtual and physical, and the address of each names its slot by division |
| SlotAllocator.DeAllocateKeepsMatched | mx5x/libcamera/Camera_pmem.cpp:147-163 | deAllocate keeps the correspondence exactly if the address is that of a buffer held or of no taken slot |
| SlotAllocator.FreedUnderItsHolder | mx5x/libcamera/Camera_pmem.cpp:147-163 | an example: an address one byte into the only taken slot frees it while its buffer is held |
| SlotAllocator.OneTooMany | mx5x/libcamera/Camera_pmem.cpp:131-143 | with the first count slots taken the next one is number count, past the mapping |

## Left out

- Camera stopRecording, stopPreview, stop and error branches: there the code drops references without
  returning buffers, so ownership is not what it keeps.
- Camera error answers of the window and of V4L2 ioctls, and SearchBuffer: a buffer is its index.
- Camera fields written without a lock (`mEnqueuedBufs`, `mQueuedBufNum`, `mRecordRunning`): each read or
  update is one atomic step of the model; a torn read-modify-write between two cores is not modelled.
- CameraHal.CameraHal.constructor: the schedule, the progress of a lock holder and the driver's choices are
  functions of the state and a step number, all universally quantified; fairness is assumed only of the
  holder of a buffer's lock. `mVideoBufferUsing` starts as whatever was there; what it marks before recording
  starts means nothing.
- CameraHal.CameraHal.StartRecording: the loop over `mVideoBufferUsing` is one step, as under `mEncodeLock`.
- MessageQueue.CMessageQueue.WaitMessage: the deadline is a number of sleeps, not a clock.
- StreamStandby.AudioDevice.StartOutputStream: what tinyalsa does when it is handed a NULL PCM.
- StreamStandby: a device word is the set of its one bits.
- WriteThrottle.StreamOut.Write: dropping a channel, resampling and pcm_write.
- MonoProvider.StreamIn.ReadFrames: the resampler; this HAL only calls read_frames with one.
- MixerRoute.AudioRoute.PathApply: what a write past the end of the table hits; a control that refuses or
  clamps a value.
- MixerRoute: XML parsing, and the case of a nested path that does not exist.
- CapturePipeline.StreamIn.ProcessFrames: resampler, echo reference and auxiliary channels; the overlapping
  `memcpy` of the left-over frames is a forward copy; an effect that never progresses loops for ever in the
  source and runs out of rounds here.
- alsa: the list of effects, the ESAI channel order, streams other than capture.
- EventConsumer.SensorDriver.ReadEvents: conversion of raw values to floating point; pending flush
  meta-events of the magnetic sensor; enabling a sensor between two calls of a sequence.
- libsensors: the accelerometer's hardware FIFO copy-out, light and proximity drivers, poll loop.
- YuvResize.YuvResize: negative sizes.
- NmeaTokens.NmeaReader.ParseGsv: what a write past the end of the list hits; elevation, azimuth and signal
  strength stay text.
- libgps: dispatch on the sentence name, position and time sentences, `td3020c.c`, network-initiated requests.
- HciTransport.PsPatchDownload: hexadecimal text and location lines of the patch file, configuration files,
  reset and baud-rate commands.
- HciTransport.Fd.ReadHciEvent: what follows the overrun of a buffer of one or two bytes.
- SlotAllocator.PmemAllocator.constructor: signed overflow of the rounded size, which is taken to wrap around;
  the slots of a mapping whose slot size came out zero or negative.
- Lights, hardware composer, power, codecs, camera parameters and JPEG headers.
