# Camera and audio pipeline: a verified model

The repository is a ball detector for the Raspberry Pi camera together with the camera library and
the multimedia components it links. This project models its four stateful clusters and proves
properties of every run of them.

* **Audio renderer.** A queue of partly played headers, drained by the track's pull callback; a
  32-bit byte counter that a send and the callback update at other moments than the queue; and a
  Stopped / Paused / Running machine that steers an external track. `AudioStream` describes one call
  on values, by a function that plays whole headers and never re-queues one. `AudioInterleaving` is
  the concurrent machine, in which a lock section, a queue operation, a copy and a call to the client
  are each one step; `AudioCalls` shows that calls made one after the other are runs of it.
  `AudioControl` is the state machine and `AudioLatency` the integer arithmetic of the time stamp.
  `AudioRender` is the component itself, in place: its methods are proved to make exactly the steps
  of the other modules.
* **Frame ring and workers.** `Ring` says which slot an add overwrites and which a get takes,
  `RingRuns` and `RingDeliveries` reason about whole runs of one producer and any number of workers,
  `CircularBuffer` is the array changed in place by scanning loops, `MainLoop` the capture loop
  that feeds it, and `Threads` the worker pool with the per-worker data set up and torn down for it.
* **Video camera.** `FrameGrab` is the hand-over of frames between the driver's callback and
  grabbing clients, `HeaderPool` the circulation of buffer headers, `VideoCapture` the callback and
  capture start in place, and `VideoSettings` the write-through settings cache.
* **Still camera.** `StillCapture` reassembles a chunked stream into bounded memory, and
  `StillSettings` is the cache with a changed mark.

`Common`, `CameraTypes`, `Alignment` and `CvProperties` hold the arithmetic these share: rotation, rounding
sizes up to a power of two by masking, and the scaled properties.

What the program takes from outside - the clock, the answers of the platform and the driver, the
moments at which signals arrive - is a parameter of the operation that uses it. Runs are sequences
of steps, and `Reaches` or `Run` ties a state to the run that leads to it.

## Where the code differs from its own description

* `getElementCount` is documented as the number of unprocessed slots (`src/RC_CircularBuffer.hpp:76-82`).
  It already is not on a new ring; `RingRuns.AvailableIsPendingIff` says when it is.
* A full ring replaces the slot with the *largest* stamp, although the scan calls it `oldest`
  (`src/RC_CircularBuffer.cpp:37-45`).
* The capture loop takes `count + 1` frames, where the help text promises `count`
  (`src/RC_Main.cpp:86`, `src/RC_Main.cpp:338`); see `MainLoop.CaptureLoop`.
* Committing another format on a playing port leaves the state at Running with a silent track, which
  further clock events at normal speed do not repair (`AudioControl.CommitKeepsMirrorIff`,
  `AudioControl.SilentWhileRunning`).
* Enabling the port can succeed without a track: a format is configured before its track is made, so
  after a failed creation the next attempt finds nothing to do (`AudioControl.EnableTwice`,
  `AudioControl.EnableHasTrackIff`). A data header sent then meets a null track.
* A worker that starts late sets the loop flag again, so that a stop can be lost and the join then
  never ends (`Threads.StopCanBeLostIff`).
* With several grabbing clients a wakeup can be lost: a client that asks again before another has
  tested clears the flag both were woken for (`raspicam/src/private/threadcondition.cpp:56-58`), so
  that the other may starve (`FrameGrab.WakeupKeptIff`, `FrameGrab.ClientCanStarve`).
* The latency of compressed audio is computed from a sum that wraps at 32 bits, so it can fall while
  more bytes are queued (`AudioRender.LatencyNeverFallsIff`).
* Setting the shutter of the video camera before or after opening it can make a difference to the
  exposure mode (`VideoSettings.SettersBeforeOrAfterOpen`).
* The bytes of a still image do not depend on how the stream is cut, but the report that it is
  complete does (`StillCapture.ReportDependsOnChunking`): it is not made after an overflow in an
  earlier chunk, and `takePicture` then waits for it without end.
* After an initialization that failed late, a retry leaves the new still camera without its settings
  until something is set (`StillSettings.RetryAgreesIff`).
* The JPEG quality is sent only with a commit made after the encoder's port exists
  (`StillSettings.QualityAtCapture`), so the initial quality is sent only if some setter runs after
  initialization.
* The still camera reduces a brightness above 100 modulo 100, where the video camera clamps it
  (`raspicam/src/private_still/private_still_impl.cpp:457-462`).

## Model

| member | source | states |
|---|---|---|
| AudioStream.DrainBytes | raspicam/dependencies/mmal/components/aaf_audio_render.cpp:175-202 | a pull delivers exactly min(space, pending) bytes, and these followed by what stays pending are what was pending |
| AudioStream.DrainHeaders | raspicam/dependencies/mmal/components/aaf_audio_render.cpp:189-201 | a pull hands emptied headers back in queue order; with those still queued they are the headers queued before |
| AudioStream.DrainPrefix | raspicam/dependencies/mmal/components/aaf_audio_render.cpp:181-187 | what the track receives is a prefix of the pending bytes |
| AudioStream.FlushReturnsAll | raspicam/dependencies/mmal/components/aaf_audio_render.cpp:337-338 | a flush hands back every queued header in order and plays none of its bytes |
| AudioStream.FlushEmpties | raspicam/dependencies/mmal/components/aaf_audio_render.cpp:337-342 | a flush leaves an empty queue and the counter at 0, with every queued header handed back and nothing more delivered |
| AudioStream.EventsHandedBack | raspicam/dependencies/mmal/components/aaf_audio_render.cpp:374-381 | over every run event headers are handed back each once, in the order sent, and by nothing but their send |
| AudioStream.CounterIsPending | raspicam/dependencies/mmal/components/aaf_audio_render.cpp:204-206 | over every run of calls, flushes included, the counter is the number of pending bytes modulo 2^32 |
| AudioStream.HeadersConserved | raspicam/dependencies/mmal/components/aaf_audio_render.cpp:331-424 | over every run, flushes included, the headers handed back followed by those queued are the headers sent, each once, in send order |
| AudioStream.BytesConserved | raspicam/dependencies/mmal/components/aaf_audio_render.cpp:148-207 | between two flushes, for any sends and pulls of any sizes, bytes delivered followed by bytes pending are the payloads sent |
| AudioInterleaving.EveryInterleaving | raspicam/dependencies/mmal/components/aaf_audio_render.cpp:175-206 | in every interleaving of sends and the callback: the counter is queued + held + counted but not queued + copied but not subtracted bytes; bytes and headers are conserved in order; every put has queued its header and every event header sent has been handed back, whatever the callback was doing; an end-of-stream event comes when all bytes up to and including its header's have been delivered; and a header handed back is flagged exactly if such an event is the callback's last one before |
| AudioInterleaving.SendsDecide | raspicam/dependencies/mmal/components/aaf_audio_render.cpp:374-421 | between any two states of a run, the headers counted, queued and discarded are what the sends' own steps make them, and one is queued per put |
| AudioInterleaving.CallDelivers | raspicam/dependencies/mmal/components/aaf_audio_render.cpp:165-206 | whatever is sent meanwhile, a call delivers no more than asked for and no less than was queued when it began, or all asked for if that is less; it lowers the counter by what it delivered |
| AudioInterleaving.EmptyCallDoesNothing | raspicam/dependencies/mmal/components/aaf_audio_render.cpp:169-173 | a call on an empty queue may begin and does nothing |
| AudioInterleaving.CounterNeverUnderflows | raspicam/dependencies/mmal/components/aaf_audio_render.cpp:409-421 | with fewer than 2^32 bytes in flight the subtraction never underflows, and at rest the counter is the queue's total |
| AudioInterleaving.StepKeepsCounter | raspicam/dependencies/mmal/components/aaf_audio_render.cpp:409-417 | every step of a send or of the callback keeps the counter exact |
| AudioInterleaving.EmptyIsDelivered | raspicam/dependencies/mmal/components/aaf_audio_render.cpp:189-201 | when the first header not yet handed back is empty, all bytes up to and including its own have been delivered |
| AudioInterleaving.AnnounceKeepsOrder | raspicam/dependencies/mmal/components/aaf_audio_render.cpp:196-198 | an end of stream may be sent for an empty, flagged header: all earlier bytes and its own are out, and the headers before it are back |
| AudioInterleaving.ReturnKeepsOrder | raspicam/dependencies/mmal/components/aaf_audio_render.cpp:200-201 | an empty header may be handed back once its end of stream, if any, is the callback's last event; event headers handed back by sends in between do not matter |
| AudioInterleaving.CallbackEnds | raspicam/dependencies/mmal/components/aaf_audio_render.cpp:175-202 | from every reachable state on, a call of the callback takes a bounded number of steps, plus four for each header queued meanwhile, can always go on until it is over, and holds up no send |
| AudioCalls.LoopIsDrain | raspicam/dependencies/mmal/components/aaf_audio_render.cpp:175-206 | undisturbed, the loop that takes headers out and puts them back computes the function that never re-queues |
| AudioStream.RunSinceFlush | raspicam/dependencies/mmal/components/aaf_audio_render.cpp:331-342 | every run of calls goes on, after its last flush, like a run from the start |
| AudioCalls.CallsAreRuns | raspicam/dependencies/mmal/components/aaf_audio_render.cpp:148-207 | any calls made one after the other are, from their last flush on, a run of the concurrent machine |
| AudioCalls.CallsKeepEosInOrder | raspicam/dependencies/mmal/components/aaf_audio_render.cpp:196-198 | hence in every run of calls the end-of-stream events since the last flush are in their place |
| AudioCalls.DiscardMayComeBetween | raspicam/dependencies/mmal/components/aaf_audio_render.cpp:374-381 | a run in which a send hands an event header back between an end of stream and its header |
| AudioLatency.LatencyError | raspicam/dependencies/mmal/components/aaf_audio_render.cpp:413-414 | the queued-audio term is never above the exact play time and below it by less than one sample period and a microsecond |
| AudioLatency.WholeSamples | raspicam/dependencies/mmal/components/aaf_audio_render.cpp:413-414 | the term is the whole microseconds of the whole samples in the bytes |
| AudioLatency.LatencyMonotone | raspicam/dependencies/mmal/components/aaf_audio_render.cpp:413-414 | the term never falls when more bytes are queued |
| AudioRender.LatencyIsPlayTime | raspicam/dependencies/mmal/components/aaf_audio_render.cpp:386-414 | the latency is the device's own plus the exact play time of the bytes ahead, as 32 bits count them, less than one sample period and a microsecond too small, for PCM and for compressed audio, E-AC-3 up to 48 kHz at four times its rate |
| AudioRender.EnhancedLikePlain | raspicam/dependencies/mmal/components/aaf_audio_render.cpp:399-401 | E-AC-3 up to 48 kHz has the latency of AC-3 at four times its rate, and above that of AC-3 at its own |
| AudioRender.LatencyNeverFallsIff | raspicam/dependencies/mmal/components/aaf_audio_render.cpp:386-414 | with more bytes queued the bytes ahead are more, and the latency no smaller, exactly if they do not wrap on the way; if they do, they are fewer and the latency is no larger |
| AudioRender.LatencyFallsAtWrap | raspicam/dependencies/mmal/components/aaf_audio_render.cpp:413 | a case in which it does fall |
| AudioControl.ApplyKeepsInv | raspicam/dependencies/mmal/components/aaf_audio_render.cpp:209-249 | every event, formats only while disabled, keeps the state a mirror of the track and moves it to the one computed from enabling and the clock |
| AudioControl.UpdateFollowsClock | raspicam/dependencies/mmal/components/aaf_audio_render.cpp:214-248 | an update of a mirrored track leaves it playing exactly at normal speed on an enabled port, paused at any other speed and stopped on a disabled one, and touches nothing else |
| AudioControl.EveryRunMirrors | raspicam/dependencies/mmal/components/aaf_audio_render.cpp:209-364 | in every run of a new component whose formats change only while disabled, the state is Running exactly when the track plays; after an update it plays exactly if the port is enabled and the clock runs at normal speed, and is Paused exactly if the port is enabled and the clock does not |
| AudioControl.DisableStops | raspicam/dependencies/mmal/components/aaf_audio_render.cpp:355-364 | disabling leaves the port disabled and any track stopped, whatever came before |
| AudioControl.CommitKeepsMirrorIff | raspicam/dependencies/mmal/components/aaf_audio_render.cpp:272-310 | a format commit loses the mirror exactly when it makes a new track while the state is Running |
| AudioControl.CommitWhileRunningLosesMirror | raspicam/dependencies/mmal/components/aaf_audio_render.cpp:107-146 | a concrete run in which that happens |
| AudioControl.SilentWhileRunning | raspicam/dependencies/mmal/components/aaf_audio_render.cpp:225-226 | after it, clock events at normal speed change nothing, over any run of them |
| AudioRender.TurnFills | raspicam/dependencies/mmal/components/aaf_audio_render.cpp:181-201 | one turn of the loop, whether it re-queues or retires, does not change the state the loop will end in |
| AudioRender.BufferHeader.CopyOut | raspicam/dependencies/mmal/components/aaf_audio_render.cpp:181-187 | copies as many bytes as fit behind those already there, touches no other memory, and steps over them |
| AudioRender.AudioRenderer.TakeTurn | raspicam/dependencies/mmal/components/aaf_audio_render.cpp:177-201 | one turn on the real queue, header and memory; a header that is used up leaves the queue empty and with its offset reset |
| AudioRender.AudioRenderer.Fill | raspicam/dependencies/mmal/components/aaf_audio_render.cpp:175-202 | the loop terminates and ends in the state the re-queue-free function gives; the headers that left are the first of the queue, empty and reset |
| AudioRender.AudioRenderer.TrackCallback | raspicam/dependencies/mmal/components/aaf_audio_render.cpp:148-207 | a request for data makes the stream's step: the track's memory holds the first min(space, pending) bytes and is otherwise untouched, and the headers handed back are the first of the queue, empty and with their offset reset; other events change nothing |
| AudioRender.AudioRenderer.TrackDestroy | raspicam/dependencies/mmal/components/aaf_audio_render.cpp:96-105 | drops the track and nothing else |
| AudioRender.AudioRenderer.TrackCreate | raspicam/dependencies/mmal/components/aaf_audio_render.cpp:107-146 | replaces the track by a new silent one, or by none with an error |
| AudioRender.AudioRenderer.StateUpdate | raspicam/dependencies/mmal/components/aaf_audio_render.cpp:209-249 | moves track and state as the state machine's update does |
| AudioRender.AudioRenderer.SetFormat | raspicam/dependencies/mmal/components/aaf_audio_render.cpp:272-310 | the error answered, and the format and track left behind, in every case |
| AudioControl.SetFormatAnswers | raspicam/dependencies/mmal/components/aaf_audio_render.cpp:276-309 | exactly when a commit succeeds, refuses the format or fails, and the format and track it leaves in each case |
| AudioRender.AudioRenderer.Enable | raspicam/dependencies/mmal/components/aaf_audio_render.cpp:313-328 | without a track commits the format first, which may make one, and enables unless that answered an error |
| AudioControl.EnableHasTrackIff | raspicam/dependencies/mmal/components/aaf_audio_render.cpp:307-328 | an enabling that succeeds leaves a track exactly if there was one or the client's format is not the configured one; one that fails leaves none and changes nothing else of the port |
| AudioControl.EnableTwice | raspicam/dependencies/mmal/components/aaf_audio_render.cpp:276-328 | after a failed creation the next enabling succeeds without a track |
| AudioControl.TracklessRun | raspicam/dependencies/mmal/components/aaf_audio_render.cpp:276-352 | and no further enabling, flushing or clock event makes one, until another format is committed |
| AudioControl.EveryEnabledHasTrack | raspicam/dependencies/mmal/components/aaf_audio_render.cpp:272-328 | if tracks can be made and the client never asks for the format configured at first, an enabled port has a track in every run, as a send requires |
| AudioRender.AudioRenderer.Flush | raspicam/dependencies/mmal/components/aaf_audio_render.cpp:331-352 | leaves the queue empty and the counter at 0, hands back the whole queue, silences and restarts the track |
| AudioRender.AudioRenderer.Disable | raspicam/dependencies/mmal/components/aaf_audio_render.cpp:355-364 | always ends with an empty queue, counter 0 and, if there is a track, that track stopped |
| AudioRender.AudioRenderer.ClockEvent | raspicam/dependencies/mmal/components/aaf_audio_render.cpp:426-444 | only a change of scale updates the state |
| AudioRender.AudioRenderer.ComputeLatency | raspicam/dependencies/mmal/components/aaf_audio_render.cpp:386-415 | the latency for PCM and for the two compressed encodings, from the wrapped byte count |
| AudioRender.AudioRenderer.Send | raspicam/dependencies/mmal/components/aaf_audio_render.cpp:366-424 | queues a data header last, raises the counter and sets the media time; hands an event header back at once, emptied; uses a missing track exactly when a data header meets none |
| Ring.WalkVisitsOnce | src/RC_CircularBuffer.cpp:39-40 | the scan from nextIndex visits every slot once |
| Ring.GoingRoundIsModulo | src/RC_CircularBuffer.cpp:40-62 | going round is what the remainders compute |
| Ring.VictimIsNewest | src/RC_CircularBuffer.cpp:36-49 | an add takes nextIndex if processed, else the unprocessed slot with the largest stamp, first in circular order on ties, and no other slot |
| Ring.AddEffect | src/RC_CircularBuffer.cpp:46-65 | the frame goes to the chosen slot alone, nextIndex right behind it modulo N; the available count, the skip count and the answer |
| Ring.FoundIff | src/RC_CircularBuffer.cpp:71-82 | a get succeeds exactly if something counts as available and a slot is fresh, and takes the first fresh one in circular order |
| Ring.GetEffect | src/RC_CircularBuffer.cpp:71-83 | a get answers the element of the first fresh slot of the walk, marks that slot alone and takes over its stamp, or answers nothing and changes nothing |
| Ring.CreatedEffect | src/RC_CircularBuffer.cpp:12-25 | a new ring: every slot a pending placeholder with the creation stamp, all counts 0 |
| Ring.StaysWellFormed | src/RC_CircularBuffer.cpp:60-64 | nextIndex stays below N and availableElements at most N |
| RingRuns.FalseAddOverwrites | src/RC_CircularBuffer.cpp:33-66 | an add answers false exactly when it overwrites a pending frame |
| RingRuns.Ledger | src/RC_CircularBuffer.cpp:33-84 | over every run the number of unprocessed slots grows by the true adds and falls by the true gets |
| RingRuns.LedgerFromCreated | src/RC_CircularBuffer.cpp:12-25 | from a new ring it is N + true adds - true gets, so true gets - N <= true adds <= true gets |
| RingRuns.AddsGoRound | src/RC_CircularBuffer.cpp:36-64 | in every run in which no add overwrites a pending frame, the adds fill the slots in turn and none is skipped |
| RingRuns.AvailableIsPendingIff | src/RC_CircularBuffer.hpp:76-82 | availableElements is the number of unprocessed slots exactly when overwrites below the cap exceed true adds at the cap by N |
| RingRuns.AvailableIsNotPending | src/RC_CircularBuffer.hpp:76-82 | on a new ring it is 0 while all N slots are unprocessed |
| RingRuns.GetAfterAddIff | src/RC_CircularBuffer.cpp:57-82 | under any clock, when a get right after an add succeeds |
| RingRuns.GetAfterAddSucceeds | src/RC_CircularBuffer.cpp:57-82 | under a clock that never goes back it always does, in every reachable state |
| RingRuns.BurstKeepsOthers | src/RC_CircularBuffer.cpp:36-62 | a burst of any number of adds to a full ring, the first later than all frames and the clock not going back, replaces one and the same slot; the other N - 1 frames survive |
| RingRuns.SecondAddSameSlotIff | src/RC_CircularBuffer.cpp:36-62 | a second add replaces the frame of the first exactly if no other pending frame has that one's stamp, which counts whole seconds |
| RingRuns.TiedBurst | src/RC_CircularBuffer.cpp:41-57 | on a full ring of equal stamps, k <= N adds with that stamp replace the k slots from nextIndex on |
| RingDeliveries.EveryRunDelivers | src/RC_CircularBuffer.cpp:53-82 | over every run and any clock: nothing is answered twice by gets, each answer is the last value written to its slot with that write's stamp or the slot's initial placeholder, stamps never decrease |
| RingDeliveries.SlotHoldsLastWrite | src/RC_CircularBuffer.cpp:53-57 | a slot holds the value of the last add that chose it |
| RingDeliveries.AgeOfLastDelivery | src/RC_CircularBuffer.cpp:79 | maxAge is the stamp of the last delivery, or the ring's creation time |
| RingDeliveries.StaleIsNeverDelivered | src/RC_CircularBuffer.cpp:75-79 | a slot once older than maxAge is never delivered until an add rewrites it |
| CircularBuffer.CircularBuffer.constructor | src/RC_CircularBuffer.cpp:12-25 | the downward modular loop makes every slot a pending placeholder with the creation stamp |
| CircularBuffer.CircularBuffer.AddElement | src/RC_CircularBuffer.cpp:33-66 | the scanning loop over the array makes exactly the ring's add |
| CircularBuffer.CircularBuffer.GetElement | src/RC_CircularBuffer.cpp:69-84 | the scanning loop makes exactly the ring's get, and leaves the caller's variable alone on failure |
| MainLoop.CaptureLoop | src/RC_Main.cpp:338-361 | the loop advances once for every true answer, ends exactly after count + 1 of them or at the first test that sees a signal, and never by itself for count 0 |
| MainLoop.AnswersAreAdds | src/RC_Camera.cpp:8-16 | the true answers the producer gets are the ring's true adds; a missing frame answers false |
| MainLoop.AnswersNeverOutrunWorkers | src/RC_Camera.cpp:8-16 | no prefix of the ring's answers has more true ones than the workers have taken elements |
| MainLoop.LoopNeverOutrunsWorkers | src/RC_Main.cpp:338-361 | at every moment of every run of the ring, the capture loop fed with its answers has completed no more iterations than the workers have taken elements, and while it waits is at most N behind |
| Threads.EveryRunIsSafe | src/RC_DetectorFactory.cpp:28-109 | any number of workers, any interleaving: each makes init, funcs, cleanup in turn, its objects exist from the one to the other, and whenever a callback is about to run the data is there |
| Threads.WorkersKeepWorking | src/RC_Threads.cpp:32-37 | until a stop is made no worker leaves its loop or is held up, and every second of its steps calls func, in every run |
| Threads.StopIsPermanent | src/RC_Threads.cpp:32-51 | for every run from the start to a stop made once all workers have stored the flag, the stop lasts, each makes at most one more func call, and after an exactly counted number of steps all are joined and the array is deleted |
| Threads.StopCanBeLostIff | src/RC_Threads.cpp:32-50 | a stop made in a reachable state can come to where the join never ends, exactly when some worker has not yet stored the flag |
| Threads.LostForever | src/RC_Threads.cpp:34-50 | once the flag is set again while the controller joins, a worker still in its loop never leaves it, over every run |
| Threads.LostStop | src/RC_Threads.cpp:32-46 | a run with one worker in which that happens |
| FrameGrab.EveryRun | raspicam/src/private/private_impl.h:63-79 | any number of clients, spurious wakeups included: after the first request exactly one of wantToGrab and ready holds, and every grab returned a non-empty frame captured after its request; no client is kept from entering, waking or testing |
| FrameGrab.NextFrameWakesAll | raspicam/src/private/private_impl.cpp:513-549 | in every reachable state the next non-empty frame leaves every waiting client awake, and a frame ready that is fresh for all of them |
| FrameGrab.WakeupKeptIff | raspicam/src/private/threadcondition.cpp:56-69 | a woken client returns the frame it was woken for at its next test, exactly if no client has asked again before; otherwise it returns a later frame or sleeps again |
| FrameGrab.ClientCanStarve | raspicam/src/private/threadcondition.cpp:56-58 | for every k, a run of two requests and k rounds in which both clients are woken, of which the first gets k frames and the second none |
| FrameGrab.BufferStaysUntilRequest | raspicam/src/private/private_impl.cpp:513-529 | once a grab can return, the buffer stays as it is until some client asks again |
| FrameGrab.OneClientOwnsBuffer | raspicam/src/private/private_impl.cpp:169-183 | with one client, outside a grab the buffer is the frame it grabbed last |
| FrameGrab.BufferKeptIff | raspicam/src/private/private_impl.cpp:519-526 | with any number of clients the buffer of a reachable state is the same at the end of a run exactly if no callback brought a frame while a request was out |
| FrameGrab.TwoClientsShareBuffer | raspicam/src/private/private_impl.cpp:177-183 | a run in which the second client's request replaces the first one's frame while that one holds it |
| HeaderPool.HeadersConserved | raspicam/src/private/private_impl.cpp:131-165 | over every run, callbacks during capture start included, the headers in the three places are those of the pool; while capturing between callbacks all are at the port |
| HeaderPool.EachInOnePlace | raspicam/src/private/private_impl.cpp:531-545 | each header is in exactly one of pool queue, port and running callback, and camera, callback and capture start can always go on |
| HeaderPool.DisabledPortKeepsPool | raspicam/src/private/private_impl.cpp:533-545 | headers handed back by a disabled port stay in the pool, in order |
| VideoCapture.Capture.BeginWait | raspicam/src/private/private_impl.h:63-71 | sets the flags as the hand-over's request does |
| VideoCapture.Capture.StartCapture | raspicam/src/private/private_impl.cpp:131-143 | sends all queued headers to the port in order, as the pool's steps allow |
| VideoCapture.Capture.VideoBufferCallback | raspicam/src/private/private_impl.cpp:513-551 | copies the frame if one is wanted and notifies exactly then, changing nothing otherwise; releases the header and resends the first of the pool; as the two machines' steps do |
| VideoCapture.SwappedAt | raspicam/src/private/private_impl.cpp:841-847 | where each byte of a pixel goes |
| VideoCapture.SwappedTwice | raspicam/src/private/private_impl.cpp:841-847 | swapping twice gives the image back |
| VideoCapture.ConvertBGR2RGB | raspicam/src/private/private_impl.cpp:841-851 | swaps every pixel that begins within the size, in place, then copies that many bytes; nothing else changes |
| VideoSettings.CommitFollowsChange | raspicam/src/private/private_impl.cpp:575-670 | the one parameter a setter commits is all that the device needs to follow it |
| VideoSettings.SetterStores | raspicam/src/private/private_impl.cpp:575-670 | each setter stores the nearest value in its range, or the value, and leaves all other settings alone |
| VideoSettings.EncodeIff | raspicam/src/private/private_impl.cpp:355-485 | the parameters sent are the only ones that follow the settings, each described by its meaning |
| VideoSettings.EventsDecide | raspicam/src/private/private_impl.cpp:98-165 | the camera is open exactly after an open not followed by a release; only setters and an opening with a shutter speed change settings; nothing reaches the device of a closed camera |
| VideoSettings.EveryRunCoherent | raspicam/src/private/private_impl.cpp:98-115 | in every reachable state the settings are in range and, while open, every device parameter is the encoding of its setting, the shutter once it has been committed; before that it is automatic; and parameters follow the settings by their meaning |
| VideoSettings.SettersBeforeOrAfterOpen | raspicam/src/private/private_impl.cpp:459-480 | for every closed camera, exactly when setters before and after open give the same device; a shutter speed stored before counts, since opening with it switches the exposure mode |
| VideoSettings.StoredShutterMatters | raspicam/src/private/private_impl.cpp:465-470 | a camera with a stored speed that is set back to automatic: before open it keeps its mode, after it does not |
| VideoSettings.VideoCamera.CommitParameters | raspicam/src/private/private_impl.cpp:459-480 | sends the encoding of every setting, switching the exposure mode if a shutter speed is set |
| VideoSettings.VideoCamera.Open | raspicam/src/private/private_impl.cpp:98-115 | refuses when open; otherwise the device follows the settings |
| VideoSettings.VideoCamera.ChangeRotation | raspicam/src/private/private_impl.cpp:595-602 | stores the residue of the angle and writes it through if open |
| VideoSettings.VideoCamera.SetShutterSpeed | raspicam/src/private/private_impl.cpp:585-590 | cuts to 330000 and writes through if open |
| VideoSettings.VideoCamera.OnFrame | raspicam/src/private/private_impl.cpp:547-548 | renews the shutter speed only in the fixed-frame-rate mode |
| VideoSettings.VideoCamera.SetBrightness | raspicam/src/private/private_impl.cpp:580-584 | cuts to 100 and writes through if open |
| VideoSettings.VideoCamera.SetContrast | raspicam/src/private/private_impl.cpp:616-621 | cuts to [-100, 100] and writes through if open |
| VideoSettings.VideoCamera.SetSaturation | raspicam/src/private/private_impl.cpp:623-628 | cuts to [-100, 100] and writes through if open |
| VideoSettings.VideoCamera.SetISO | raspicam/src/private/private_impl.cpp:604-607 | writes through if open, unclamped and as an unsigned number |
| VideoSettings.VideoCamera.ChangeExposure | raspicam/src/private/private_impl.cpp:636-639 | writes the mode's code through if open |
| VideoSettings.VideoCamera.SetHorizontalFlip | raspicam/src/private/private_impl.cpp:662-665 | writes the mirror through if open, both flips together |
| StillCapture.AnyChunking | raspicam/src/private_still/private_still_impl.cpp:71-95 | for any split of the stream the written region is the stripped stream cut to the room, nothing else is touched, and the overflow mark is set exactly if the stripped stream is longer than the room |
| StillCapture.BitmapArrives | raspicam/src/private_still/private_still_impl.cpp:78-95 | of an image of 54 bytes of header and its pixels, RGB leaves the pixels in the caller's memory and any other format the whole, however cut and as far as there is room |
| StillCapture.AdvertisedSizeSuffices | raspicam/src/private_still/private_still_impl.cpp:386-388 | a buffer of the advertised size receives the whole bitmap of three bytes a pixel, or its pixels, without overflow |
| StillCapture.FeedCopies | raspicam/src/private_still/private_still_impl.cpp:78-95 | the byte-by-byte loop computes that closed form for every stream |
| StillCapture.ReportedIff | raspicam/src/private_still/private_still_impl.cpp:97-107 | completion is reported exactly if the chunks before the last one fit |
| StillCapture.ReportDependsOnChunking | raspicam/src/private_still/private_still_impl.cpp:73-107 | two splits of one stream of which only one is reported |
| StillCapture.UserData.constructor | raspicam/src/private_still/private_still_impl.cpp:390-400 | a capture starts at the caller's offset with nothing stored |
| StillCapture.UserData.BufferCallback | raspicam/src/private_still/private_still_impl.cpp:71-108 | one chunk is fed byte by byte into the caller's memory; the end is reported unless the board pointer was already cleared |
| StillSettings.CaptureAgrees | raspicam/src/private_still/private_still_impl.cpp:406-409 | if the first initialization succeeds, at every capture the device agrees with all camera-side fields and the encoding, and what it was sent follows, by its meaning, what the setters have made of the settings |
| StillSettings.SetterStores | raspicam/src/private_still/private_still_impl.cpp:442-539 | each setter stores the value, cut or reduced to its range, and leaves all other settings alone |
| StillSettings.SettersDecide | raspicam/src/private_still/private_still_impl.cpp:335-434 | nothing but setters changes a setting, over every run |
| StillSettings.EncodeIff | raspicam/src/private_still/private_still_impl.cpp:145-178 | the parameters sent are the only ones that follow the settings, the fixed ones included |
| StillSettings.EncodingsAreKept | raspicam/src/private_still/private_still_impl.cpp:686-702 | plain RGB is taken from a bitmap, each listed format is its own, no other is encoded |
| StillSettings.RetryAgreesIff | raspicam/src/private_still/private_still_impl.cpp:335-356 | after any failed attempts, at every capture the device agrees exactly if the mark was still set when the successful attempt began or something has been set since |
| StillSettings.RetryForgetsSettings | raspicam/src/private_still/private_still_impl.cpp:237-271 | a late failure followed by a plain retry leaves the new camera without settings |
| StillSettings.QualityAtCapture | raspicam/src/private_still/private_still_impl.cpp:611-614 | at a capture, whatever attempts failed before, the port has the quality exactly if some setter ran since the successful one, and otherwise none |
| StillSettings.StillCamera.CommitParameters | raspicam/src/private_still/private_still_impl.cpp:145-186 | sends everything, the fixed parameters too, and clears the mark, or nothing if it is clear; quality and encoding only if the port exists |
| StillSettings.StillCamera.CreateCamera | raspicam/src/private_still/private_still_impl.cpp:199-274 | commits in between, so a late failure destroys the camera but keeps the mark cleared |
| StillSettings.StillCamera.Initialize | raspicam/src/private_still/private_still_impl.cpp:335-356 | does nothing when done; otherwise makes camera and encoder port, whose encoding it sets |
| StillSettings.StillCamera.SetBrightness | raspicam/src/private_still/private_still_impl.cpp:457-462 | reduces modulo 100 above 100, stores and marks, sends nothing |
| StillSettings.StillCamera.SetQuality | raspicam/src/private_still/private_still_impl.cpp:464-469 | cuts to 100, stores and marks, sends nothing |
| StillSettings.StillCamera.SetRotation | raspicam/src/private_still/private_still_impl.cpp:471-478 | stores the residue of the angle and marks, sends nothing |
| CameraTypes.NormalizeRotation | raspicam/src/private/private_impl.cpp:595-600 | the loop ends with the residue of the angle modulo 360, negative angles included |
| CameraTypes.QuarterTurnFloor | raspicam/src/private/private_impl.cpp:362-367 | the committed rotation is one of the four quarter turns, the largest not above the angle |
| CameraTypes.ListedModesAreKept | raspicam/src/private/private_impl.cpp:676-795 | a listed mode is sent as itself, any other code as the default |
| CameraTypes.FlipsAreKept | raspicam/src/private/private_impl.cpp:438-450 | the device mirrors each way exactly if that flip is set |
| Alignment.AlignUpIsLeastMultiple | raspicam/dependencies/vcos/vcos_types.h:203-204 | for every word width and power of two the mask gives the least multiple at or above p |
| Alignment.MaskDropsRemainder | raspicam/dependencies/vcos/vcos_types.h:203 | masking drops the remainder |
| Alignment.BytesPerPixel | raspicam/src/private/private_impl.cpp:205-214 | one byte a pixel in grey, row by row, three in colour |
| Alignment.PlanarBytes | raspicam/src/private/private_impl.cpp:202-204 | in YUV 4:2:0 one byte a pixel and two for every four pixels of the even columns |
| Alignment.EvenPlanarBytes | raspicam/src/private/private_impl.cpp:202-204 | that is half as many again as pixels if both sides are even |
| Alignment.RequestedSizeFits | raspicam/src/private/private_impl.cpp:200-215 | an image of the requested size never needs more bytes than one of the size rounded up to 32 and 16 |
| CvProperties.Scaler.Apply | raspicam/src/scaler.h:20-39 | the stored coefficients give the line through the two end points, cut off at both ends |
| CvProperties.ScaleInverse | raspicam/src/scaler.h:34-44 | scaling back undoes scaling, up to the cut, for all proper ranges |
| CvProperties.PropertySets | raspicam/src/raspicam_cv.cpp:150-170 | the value each property stores, in the camera's units, and that all other settings are left alone; exposure outside (0, 100] goes back to the automatic mode |
| CvProperties.PropertyReads | raspicam/src/raspicam_cv.cpp:102-114 | the value each property reads from settings in range |
| CvProperties.NewCameraReads | raspicam/src/private/private_impl.cpp:67-97 | a new camera reads as halfway in every range, with automatic exposure |
| CvProperties.BrightnessRoundTrip | raspicam/src/raspicam_cv.cpp:102-152 | brightness comes back cut to [0, 100] with its fraction dropped |
| CvProperties.ContrastRoundTrip | raspicam/src/raspicam_cv.cpp:104-107 | contrast and saturation come back cut to [0, 100], within half a unit and integers exactly |
| CvProperties.GainRoundTrip | raspicam/src/raspicam_cv.cpp:109-110 | gain comes back cut to [0, 100], at most an eighth too small and integers exactly |
| CvProperties.ExposureRoundTrip | raspicam/src/raspicam_cv.cpp:111-114 | exposure comes back as -1 exactly outside [1/3300, 100]; otherwise less than 1/3300 too small, integers 1 to 100 exactly |
| CvProperties.CvCamera.Set | raspicam/src/raspicam_cv.cpp:150-170 | the settings a property leaves behind, and that setting it keeps the device coherent |

## Left out

- AudioInterleaving.EveryInterleaving: no flush takes part; a flush between the two halves of a send, or during the callback, is not covered.
- AudioRender.AudioRenderer.Send: the clock port's own failure and the component's status field are not modelled; when a data header meets no track the model stops at the null dereference, and `AudioControl.EnableHasTrackIff` says when a port is enabled like that; zero channels, sample widths below a byte and a zero rate are excluded.
- AudioRender.AudioRenderer.ComputeLatency: zero channels, sample widths below a byte and a zero rate are excluded, as the code divides by them; the 64-bit latency is unbounded.
- CircularBuffer.CircularBuffer.constructor: a ring of no slots is excluded, as the code divides by its size.
- CircularBuffer.CircularBuffer.AddElement: indices and the skip count do not wrap at 32 bits, elements are copied as values, and the mutex is the atomicity of the call.
- MainLoop.CaptureLoop: the two counters do not wrap at 32 bits; the elapsed-time output is left out.
- Threads.StopIsPermanent: asks that the workers have passed their store of the flag; without that a stop can be lost, as Threads.StopCanBeLostIff proves.
- Threads.EveryRunIsSafe: all three callbacks are set, as the detector factory does; a pool without them, thread names and starting the pool twice are left out.
- FrameGrab.NextFrameWakesAll: does not promise that the woken clients return that frame; FrameGrab.WakeupKeptIff says exactly when they do.
- FrameGrab.EveryRun: grab on a camera that is not capturing, which returns at once, and releasing a camera while a client waits are left out.
- HeaderPool.HeadersConserved: sends to an enabled port succeed, and the pool exists.
- VideoCapture.ConvertBGR2RGB: the image's last pixel lies within the array, and the two images are different arrays.
- VideoSettings.EveryRunCoherent: device sets succeed, no control-callback events change the device, negative white-balance gains and gains beyond 32 bits are excluded, and the three outputs are one.
- StillSettings.CaptureAgrees: a failure to create the encoder after its port was assigned, and a failure to connect the ports, are left out.
- StillCapture.UserData.BufferCallback: positions do not wrap at 32 bits, the encoding does not change during a capture, and the pool traffic, which is the video camera's, is left out.
- Alignment.RequestedSizeFits: image sizes do not wrap; the word is wide enough for the rounded size.
- CvProperties.Scaler.Apply: arithmetic is over the reals, so float rounding is not captured; the two coefficients no member reads are left out.
- CvProperties.CvCamera.Set: frame size, rate and format pass through to fields the settings model does not have and are left out; a negative brightness, whose conversion C leaves undefined, becomes 0.
- The three protocols Threads, FrameGrab and HeaderPool and the audio interleaving are state machines on values, since their subject is what concurrent callers can observe.
- The remaining setters of the two cameras are in the value models only; as methods they would repeat the ones shown.
- Image processing, the web server, the preview window, the video writer, daemon and signal plumbing and command-line parsing.
