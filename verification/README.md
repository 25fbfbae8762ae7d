# Verified model of the vendor HAL wrappers

A Dafny 4.11 model of the stateful wrappers in this repository, with proofs. The
core is the camera capture path, which sits between a HAL that works one frame at
a time and a framework that submits bursts; smaller modules cover the camera
provider, the one-shot sensor, the DAC's custom filter, the vibrator and the
radio's network types. `dafny verify dfyconfig.toml` checks everything.

## What is modelled

**Result batcher.** `InflightBatchModel` has one in-flight batch as a value and the
work done on it under its own lock: queue a shutter or a result, send shutters,
buffers and metadata. `BatcherProtocol` puts batches, the deque, the removal flags,
the batcher's lock and any number of threads into one state machine. A step is one
critical section, and a thread carries the batch it looked up from one step to the
next, so the batch may have left the deque in between. `acted` is the history of
what the HAL handed over and `log` the calls made on the callback.
`InflightBatchProofs` accounts for every item one operation moves;
`BatcherInvariants`, `BatcherConservation` and `BatcherTheorems` lift that to every
run; `BatcherCompletion` says what each last event of a batch releases, and when a batch is
complete and leaves; `BatcherTransport` the shape and order of the calls made;
`BatcherGuards` exactly when each operation still does right if the HAL breaks its order. `ResultBatcher` is the object itself, with its loops, proved
against the protocol, and `BatcherCalls` carries the guarantees over to it.
`MetadataQueue` and `BatcherFraming` are the metadata framing on the message queue
and the reader on the other end.

**Session.** `StreamCaches` is stream configuration with its two ways of freeing
deleted streams, and the imported-buffer caches. `CaptureTables` is the three
in-flight tables over histories of events; its theorems compare them with
definitions that look only at the history. `CaptureSession` is the session as a
value and what each call does to it, `RequestOutcomes` the exact status of every request
and configuration, `CameraDeviceSession` the object, and
`DeviceLifecycle` the device that opens sessions and loses its camera. `CapturePath`
joins session and batcher: a buffer's way from its request to the framework.

**Smaller cores.** `CameraProvider` (the device directory and its names, over
`Decimal`), `OneShotSensor` (clients and poll loop as interleaved steps),
`DacFilter`, `Vibrator`, `RadioBitmap`.

Classes refine functions on values: a method's `ensures` gives its whole new state
as such a function of the old one, and the theorems are about the functions.

## Assumptions

The code relies on the following without checking it. The batcher's are the guards of
`BatcherProtocol.Promised`:

- Each batched stream returns at most one buffer per result, in frame order, skipping
  no frame of a batch (aidl/camera/device/CameraDeviceSession.h:262-264).
- No metadata of partial index at most p comes after the last frame's result p, and
  partial indices lie between 1 and the partial count.
- No shutter of a batch comes after the shutter of its last frame.
- A batch is registered before anything of it arrives. Registration follows submission
  in the code (aidl/camera/device/CameraDeviceSession.cpp:1157-1167); `RegistrationFreshIff`
  shows that this is all that has to be promised of a registration when the client's
  frames grow, as next.
- Batches are contiguous, increasing and stay below 2^32.
- The batched streams are distinct and change only with no batch in flight.
- No batch leaves the deque between an error's lookup and its flushing. The two are
  separate steps, and everything else interleaves with them.

`BatcherGuards` proves exactly when an operation still does right if the first three or the
last fail. Further:

- Requests name configured streams (`NamesStreams`; `ImportKeepsKeysIff` and
  `RecordedKeysIff` show what an import and a recorded request do otherwise). For the
  pair accounts, requests carry new frames (`NewFrames`, `FreshRequests`); `RunConserved` derives the
  order of the history from that.
- One call on a session runs at a time; a callback on a session or provider likewise.
- The HAL's, the module's and the importer's answers, which queue writes succeed, which
  amplifiers respond and which property writes fail are arguments, so the theorems
  hold for all of them. Writes to sysfs nodes and calls on the callback succeed, and
  the callback's lock is obtained.
- Results enter the framing with zero sizes, which `BatcherFraming` proves of
  everything the batcher makes itself; `UnframedNeedsZero` shows the need.
- `DirectoryIsExact` has the id list exact while the provider's callback, once set, stays
  set; `ListExactRunIff` is the exact condition for runs that take it away.
- An addition that overflows 32 bits wraps around.

Where the code falls short of what one would expect, the exact condition is proved:
`FailureLeavesNothingIff` and `CountIsAdmitted` (bad physical camera settings leave
in-flight entries), `CloseFreesIff` and `DisconnectKeepsHandles` (a disconnect frees no
buffer; only the client's own cache removals do afterwards), `ErrorSentIff` (an error of
an unbatched frame overtakes earlier batches), `PhysicalSentIff` and `PhysicalsSentAre`
(a batch in flight swallows physical camera metadata), `FailedOpenClosesIff` (no session
object means no close, though only an override of `createSession` could make none),
`SecondIsLeft` (a check removes one finished batch, however many there are),
`ShapeStableIff` (shapes above 4 shift each time they are set), `ModesDifferOnFailure`,
`ListExactRunIff` (a camera gone while heard and back while nobody listens stays unlisted),
`EveryActuatorHearsTheWave` (an index byte shared beyond 256 actuators).

## Model

| member | source | states |
|---|---|---|
| `BatcherTheorems.BatchingRefinesPassThrough` | aidl/camera/device/CameraDeviceSession.cpp:547-857 | In every run of registrations, results, shutters and errors, on every channel (a stream's buffers with their frame numbers, one partial metadata of a frame, a frame's shutters, its input buffers), what the callback was sent followed by what is still queued is exactly what the HAL handed over, in order |
| `BatcherTheorems.AllSentWhenIdle` | aidl/camera/device/CameraDeviceSession.cpp:669-857 | Once the deque is empty the callback has been sent everything the HAL handed over, channel by channel and in order |
| `BatcherTheorems.RemovalDropsNothing` | aidl/camera/device/CameraDeviceSession.cpp:686-707 | When a batch is marked removed, by completion or by an error flush, all shutters and metadata of its frames handed over so far have been sent exactly once and in order |
| `BatcherTheorems.RemovalDropsNoBuffer` | aidl/camera/device/CameraDeviceSession.cpp:624-659 | And so have all stream buffers of its frames, at the same position of their stream as they came |
| `BatcherTheorems.QueuedFramesAreLive` | aidl/camera/device/CameraDeviceSession.cpp:583-601 | Every buffer still queued carries, after relabelling, a frame of a batch that is not removed |
| `BatcherTheorems.InDequeIffNotRemoved` | aidl/camera/device/CameraDeviceSession.cpp:465-481 | Seen with the batcher's lock free, a batch is in the deque exactly when its removed flag is false |
| `BatcherTheorems.RunEvolves` | aidl/camera/device/CameraDeviceSession.cpp:709-723 | Over any run a removed batch is never changed again, so nothing is ever appended to it; partial-result progress never decreases and intervals never move |
| `BatcherTheorems.LookupIsExact` | aidl/camera/device/CameraDeviceSession.cpp:431-463 | In every run the deque is the tail of the registration order with increasing disjoint intervals; a lookup answers a position exactly when the batch there contains the frame and NOT_BATCHED exactly when none does |
| `BatcherTheorems.ShuttersInOneCall` | aidl/camera/device/CameraDeviceSession.cpp:483-497 | The step that delivers a batch's shutters makes one notify call carrying every shutter of the batch handed over so far, and no other call ever carried one |
| `BatcherTheorems.ErrorAfterItsBatches` | aidl/camera/device/CameraDeviceSession.cpp:686-705 | When an error's flush is over, every batch starting no later than its frame has left the deque |
| `BatcherTheorems.ErrorSentIff` | aidl/camera/device/CameraDeviceSession.cpp:669-707 | For every run from an error's lookup to the step that sends it, others interleaving, the error is the last call made, and every batch starting no later than its frame has left the deque if and only if at the lookup a batch in the deque contained the frame, or at the sending the front of the deque starts after it |
| `BatcherTheorems.UnbatchedErrorOvertakes` | aidl/camera/device/CameraDeviceSession.cpp:679-684 | With frames 1 to 4 in flight as a batch, an error for frame 10 goes up while that batch is still in the deque |
| `BatcherTheorems.InitInv` | aidl/camera/device/CameraDeviceSession.cpp:396-398 | The batcher starts inside the invariant the run theorems rest on |
| `BatcherTheorems.StepInv` | aidl/camera/device/CameraDeviceSession.cpp:669-857 | Each critical section, by any thread, in any order, keeps that invariant: deque shape, removal flags, batch contents, channel conservation, no shutter sent early |
| `BatcherTheorems.RunInv` | aidl/camera/device/CameraDeviceSession.cpp:669-857 | Every run of steps keeps it |
| `BatcherCompletion.LastShutterDelivers` | aidl/camera/device/CameraDeviceSession.cpp:709-727 | In every run, once the shutter of a batch's last frame has been handled, its flag is set and every shutter of its frames handed over so far is in the log |
| `BatcherCompletion.LastResultDelivers` | aidl/camera/device/CameraDeviceSession.cpp:838-843 | In every run, once a result of a batch's last frame with partial index p has been handled, all metadata of its frames with index at most p handed over so far is in the log |
| `BatcherCompletion.LastBufferDelivers` | aidl/camera/device/CameraDeviceSession.cpp:844-848 | In every run, once a batched stream's buffer of a batch's last frame has been handled, every buffer of its frames on that stream handed over so far is in the log, at its own position |
| `BatcherCompletion.CompleteIffFinished` | aidl/camera/device/CameraDeviceSession.cpp:400-413 | In every run a batch not removed counts as delivered if and only if its last shutter, its last result with the last partial index and every stream's last buffer have been handled |
| `BatcherCompletion.CheckRemovesIff` | aidl/camera/device/CameraDeviceSession.cpp:465-481 | In every run a check marks and pops the front batch if and only if it is finished, and otherwise changes nothing |
| `BatcherCompletion.LastFrameChecks` | aidl/camera/device/CameraDeviceSession.cpp:853-856 | A thread goes on to check exactly when what it handled was of the last frame of a batch not removed |
| `BatcherCompletion.FinishedFrontIsChecked` | aidl/camera/device/CameraDeviceSession.cpp:465-481 | Whenever a batch is finished while at the front of the deque, some thread is about to check it until it is removed |
| `BatcherCompletion.SecondIsLeft` | aidl/camera/device/CameraDeviceSession.cpp:465-481 | With the two front batches finished, one check leaves the second at the front, finished and with no thread to check it |
| `BatcherTransport.ResultCalls` | aidl/camera/device/CameraDeviceSession.cpp:804-850 | The calls for a batched result, in order: unbatched buffers and input exactly if there are any, then at the last frame metadata, then batched buffers; metadata and buffers never in one result, the queue used exactly by calls without batched buffers |
| `BatcherTransport.FlushCallsAre` | aidl/camera/device/CameraDeviceSession.cpp:691-695 | The calls of a flush, in order and once each at most: shutters exactly if not sent before, buffers, metadata exactly if the last partial was not reached |
| `BatcherTransport.MetadataInOrder` | aidl/camera/device/CameraDeviceSession.cpp:626-659 | One send of metadata goes through the partial indices in increasing order, up to the one asked for |
| `BatcherTransport.NothingElseGoesUp` | aidl/camera/device/CameraDeviceSession.cpp:547-857 | In every run each call is a notification, a result passed on as it came, or made of what a batch held in the shape above |
| `BatcherInvariants.GetBatchExact` | aidl/camera/device/CameraDeviceSession.cpp:444-463 | The min/max shortcut of the lookup loses nothing: position i is the answer exactly when the i-th batch contains the frame |
| `BatcherInvariants.StepKeepsShape` | aidl/camera/device/CameraDeviceSession.cpp:465-481 | Each step keeps the deque a suffix of the registration order, intervals disjoint, flags equal to absence from the deque, and the lock with one holder |
| `BatcherInvariants.StepEvolves` | aidl/camera/device/CameraDeviceSession.cpp:641-656 | Each step moves progress forwards only and leaves removed batches alone |
| `BatcherConservation.StepKeepsContents` | aidl/camera/device/CameraDeviceSession.cpp:547-659 | Each step keeps every removed batch empty and every live one within its size, its frames and its partial indices, and keeps the link between queue lengths and the frames already returned |
| `InflightBatchProofs.SendShuttersAccount` | aidl/camera/device/CameraDeviceSession.cpp:483-497 | Sending shutters: what is sent followed by what stays queued is what was queued, on every channel |
| `InflightBatchProofs.SendBuffersAccount` | aidl/camera/device/CameraDeviceSession.cpp:547-622 | Sending buffers row by row with rebuilt frame numbers: sent followed by still queued is what was queued, on every channel, whichever streams are named |
| `InflightBatchProofs.SendMetadataAccount` | aidl/camera/device/CameraDeviceSession.cpp:624-659 | Sending metadata up to an index: sent followed by still queued is what was queued, on every channel |
| `InflightBatchProofs.QueueResultAccount` | aidl/camera/device/CameraDeviceSession.cpp:804-850 | Handling a batched result: sent followed by queued is what was queued followed by the result's own items |
| `InflightBatchProofs.QueueShutterAccount` | aidl/camera/device/CameraDeviceSession.cpp:719-722 | Handling a batched shutter: sent followed by queued is what was queued followed by the shutter |
| `InflightBatchProofs.FlushAccount` | aidl/camera/device/CameraDeviceSession.cpp:691-701 | An error flush sends exactly what a batch had queued and leaves nothing |
| `InflightBatchProofs.AllDeliveredIsEmpty` | aidl/camera/device/CameraDeviceSession.cpp:400-413 | A batch that counts as delivered holds nothing back on any channel |
| `BatcherGuards.FrameRebuiltIff` | aidl/camera/device/CameraDeviceSession.cpp:583-603 | A result's buffers for a batched stream keep their frame number exactly when there is none, or one and the queue is as long as the frame's offset in the batch |
| `BatcherGuards.ShuttersSentIff` | aidl/camera/device/CameraDeviceSession.cpp:485-496 | Sending shutters sends all that are queued exactly when none came after the batch's shutters had gone out |
| `BatcherGuards.MetadataSentIff` | aidl/camera/device/CameraDeviceSession.cpp:626-639 | Sending metadata up to an index sends all queued under an index exactly when that index is within it and nothing as late had been sent, or nothing is queued |
| `BatcherGuards.StaleLookupIff` | aidl/camera/device/CameraDeviceSession.cpp:679-703 | Wherever a run has a thread between an error's lookup and its flushing, the flushing would stay inside the deque and take exactly the batches starting no later than the error's frame if and only if no batch has left the deque since the lookup |
| `BatcherGuards.BatchedSendsNoPhysical` | aidl/camera/device/CameraDeviceSession.cpp:804-850 | Nothing sent on behalf of a batched result carries physical camera metadata, whatever the result carried |
| `BatcherGuards.PhysicalSentIff` | aidl/camera/device/CameraDeviceSession.cpp:787-802 | Handling a result with physical camera metadata hands that metadata to the framework if and only if no batch still in the deque contains its frame |
| `BatcherGuards.PhysicalsSentAre` | aidl/camera/device/CameraDeviceSession.cpp:787-857 | In every run the physical metadata the framework was sent is, in order, exactly that of the results handed over while no batch in flight contained their frame |
| `BatcherGuards.PhysicalDropped` | aidl/camera/device/CameraDeviceSession.cpp:804-850 | A run in which a batched result's physical metadata is dropped |
| `ResultBatcher.Batcher.RegisterBatch` | aidl/camera/device/CameraDeviceSession.cpp:431-442 | Appends a new batch to the deque and to nothing else: the whole new state is the protocol's registration step |
| `ResultBatcher.Batcher.SetBatchedStreams` | aidl/camera/device/CameraDeviceSession.cpp:420-423 | Replaces the batched streams and nothing else |
| `ResultBatcher.Batcher.FindBatch` | aidl/camera/device/CameraDeviceSession.cpp:444-463 | Returns the position and object of the batch holding a frame, or NOT_BATCHED and null, as the protocol's lookup |
| `ResultBatcher.Batcher.SendBatchBuffers` | aidl/camera/device/CameraDeviceSession.cpp:547-622 | The two nested loops compute the row-by-row results of the send operation and leave the named streams delivered and empty |
| `ResultBatcher.Batcher.SendBatchMetadata` | aidl/camera/device/CameraDeviceSession.cpp:624-659 | The loop over the queued partials computes the send operation's results in increasing partial index and drops exactly those queues |
| `ResultBatcher.Batcher.SendBatchShutterCbs` | aidl/camera/device/CameraDeviceSession.cpp:483-497 | One notify with all queued shutters, once |
| `ResultBatcher.Batcher.SortBuffers` | aidl/camera/device/CameraDeviceSession.cpp:811-824 | Splits a result's buffers into queues, filled streams and the rest, as the specification functions do |
| `ResultBatcher.Batcher.QueueResultLocked` | aidl/camera/device/CameraDeviceSession.cpp:804-850 | The section under a batch's lock refines the value-level operation the accounts are proved of |
| `ResultBatcher.InflightBatch.AllDeliveredNow` | aidl/camera/device/CameraDeviceSession.cpp:400-413 | The early-exit loop decides exactly that shutters, last partial and all batched streams are delivered |
| `ResultBatcher.Batcher.CheckAndRemoveFirstBatch` | aidl/camera/device/CameraDeviceSession.cpp:465-481 | Marks and pops the front batch exactly when it is complete: the protocol's mark step and pop step |
| `ResultBatcher.Batcher.HandleShutter` | aidl/camera/device/CameraDeviceSession.cpp:669-729 | An uninterrupted shutter notification takes the protocol through lookup, queueing and removal |
| `ResultBatcher.Batcher.ProcessCaptureResult` | aidl/camera/device/CameraDeviceSession.cpp:787-857 | An uninterrupted result takes the protocol through lookup, queueing and removal |
| `ResultBatcher.Batcher.HandleError` | aidl/camera/device/CameraDeviceSession.cpp:686-707 | An error flushes and pops every batch up to the failing one, then goes up itself: the protocol's flushing run |
| `ResultBatcher.Batcher.Notify` | aidl/camera/device/CameraDeviceSession.cpp:669-729 | Dispatch between the two |
| `BatcherCalls.HandleRunInv` | aidl/camera/device/CameraDeviceSession.cpp:787-857 | A shutter or result in the HAL's order, handled by the object, keeps every guarantee above |
| `BatcherCalls.ErrorRunInv` | aidl/camera/device/CameraDeviceSession.cpp:686-707 | So does an error |
| `BatcherCalls.HandleRunLeaves` | aidl/camera/device/CameraDeviceSession.cpp:787-857 | After an uninterrupted shutter or result the front batch is gone if and only if the event was of a last frame and the front batch is now finished; outside every batch the event went straight up |
| `BatcherCalls.ErrorRunLeaves` | aidl/camera/device/CameraDeviceSession.cpp:669-707 | After an uninterrupted error it is the last call made, and exactly the batches up to the one containing its frame are gone, none if none does |
| `MetadataQueue.FramingRoundTrip` | aidl/camera/device/CameraDeviceSession.cpp:731-776 | For results entering with zero sizes and any accept/reject pattern of queue writes, a reader following the sizes recovers all result and physical metadata of every callback from the queue, whatever is written afterwards |
| `MetadataQueue.UnframedNeedsZero` | aidl/camera/device/CameraDeviceSession.cpp:740-746 | Without framing a result reads back as itself exactly when its own size entered as zero |
| `MetadataQueue.FramingForgetsIff` | aidl/camera/device/CameraDeviceSession.cpp:740-766 | A result is framed as if its sizes had entered as zero exactly unless it has no metadata and yet a size |
| `MetadataQueue.FramedReadsBack` | aidl/camera/device/CameraDeviceSession.cpp:740-766 | So a framed result, whatever its sizes, reads back with them cleared |
| `MetadataQueue.TriesAre` | aidl/camera/device/CameraDeviceSession.cpp:740-766 | One write is tried per nonempty result metadata and per physical camera metadata |
| `MetadataQueue.ResultSender.Invoke` | aidl/camera/device/CameraDeviceSession.cpp:731-776 | The in-place loop over the results performs the framing and makes one callback with them |
| `BatcherFraming.FrameworkReadsEverything` | aidl/camera/device/CameraDeviceSession.cpp:731-776 | End to end: in every batcher run whose results come in with zero sizes, the framework reads back every result the batcher sent and the queue holds nothing else |
| `StreamCaches.ConfigureKeepsKeys` | aidl/camera/device/CameraDeviceSession.cpp:958-1081 | However a configuration ends, streams and buffer caches are about the same ids |
| `StreamCaches.ModesAgreeOnSuccess` | aidl/camera/device/CameraDeviceSession.cpp:1005-1050 | When the HAL accepts, early and late freeing reach the same state, with exactly the requested streams and the same handles freed |
| `StreamCaches.ModesAgreeOnRejection` | aidl/camera/device/CameraDeviceSession.cpp:984-990 | When the wrapper itself rejects, both modes end alike and nothing is freed |
| `StreamCaches.ModesDifferOnFailure` | aidl/camera/device/CameraDeviceSession.cpp:1063-1081 | When the HAL refuses, late mode frees nothing; early mode differs exactly by having freed and emptied the caches of streams not requested |
| `StreamCaches.ImportKeepsKeysIff` | aidl/camera/device/CameraDeviceSession.cpp:306-320 | An import keeps streams and caches about the same ids exactly when its stream is configured |
| `StreamCaches.ConfigureAccounts` | aidl/camera/device/CameraDeviceSession.cpp:930-936 | Configuring keeps the account: imported and not freed is exactly cached, each handle in one slot, none freed twice |
| `StreamCaches.ImportAccounts` | aidl/camera/device/CameraDeviceSession.cpp:294-321 | Importing keeps the account and returns a live handle, the one cached under that id |
| `StreamCaches.RemoveAllAccounts` | aidl/camera/device/CameraDeviceSession.cpp:938-956 | Cache removals keep the account |
| `StreamCaches.FreeAllAccounts` | aidl/camera/device/CameraDeviceSession.cpp:1374-1383 | Closing keeps the account and leaves no live handle |
| `StreamCaches.TakenInIff` | aidl/camera/device/CameraDeviceSession.cpp:972-1003 | A configuration is taken in if and only if every request keeps type, size and physical camera of the stream of its id, configured or requested before it; then each requested stream is recorded as last requested and the others stay |
| `StreamCaches.RejectionStops` | aidl/camera/device/CameraDeviceSession.cpp:984-990 | A rejected configuration stops at the first request that does not agree and keeps what those before it recorded |
| `StreamCaches.ConfiguredExactly` | aidl/camera/device/CameraDeviceSession.cpp:1025-1050 | After a success, in either mode: exactly the requested streams as last requested, their cached buffers kept, and exactly the other streams' buffers freed |
| `StreamCaches.ImportIs` | aidl/camera/device/CameraDeviceSession.cpp:294-321 | When an import finds, imports, passes an empty buffer or refuses, and that it adds exactly its own slot |
| `CaptureTables.InflightConserved` | aidl/camera/device/CameraDeviceSession.cpp:1229-1254 | After any orderly history a (stream, frame) pair is in flight exactly when submitted and neither rolled back nor returned, and never both |
| `CaptureTables.AcceptedIff` | aidl/camera/device/CameraDeviceSession.cpp:1425-1442 | After any orderly history a result is accepted if and only if all its pairs were submitted and neither rolled back nor returned |
| `CaptureTables.SecondReturnRefused` | aidl/camera/device/CameraDeviceSession.cpp:1425-1442 | A result returning a pair already returned, rolled back or never submitted is refused and changes nothing |
| `CaptureTables.TranslationHidesCancel` | aidl/camera/device/CameraDeviceSession.cpp:201-236 | An old HAL never sees the cancel trigger; a request is translated exactly when it asks for it, the lock is forced on exactly when possible and not already set, all other tags stay |
| `CaptureTables.OverridesAreLive` | aidl/camera/device/CameraDeviceSession.cpp:1257-1263 | After any history override entries exist exactly for frames overridden and since neither rejected, finished nor errored, and each is the entry that request made |
| `CaptureTables.ResultShowsCancel` | aidl/camera/device/CameraDeviceSession.cpp:1484-1501 | Every metadata result of such a frame, the final one included, shows cancel again and the lock off exactly when it was forced on; other tags are the HAL's, but for a derived boost |
| `CaptureTables.ResultUntouched` | aidl/camera/device/CameraDeviceSession.cpp:1484-1502 | Any other frame's metadata is the HAL's, but for a derived boost |
| `CaptureTables.BoostTracksFrames` | aidl/camera/device/CameraDeviceSession.cpp:1455-1466 | With partials of many frames interleaved anyhow, the tracking map holds exactly the frames begun and unfinished, each with whether a partial carried the key |
| `CaptureTables.DefaultBoostExactly` | aidl/camera/device/CameraDeviceSession.cpp:1468-1478 | The default boost goes into the final partial only, exactly when no partial of the frame carried the key |
| `CaptureTables.CompletedFrameShowsBoost` | aidl/camera/device/CameraDeviceSession.cpp:1450-1482 | Every completed frame showed the boost key in at least one partial sent up |
| `CaptureSession.RunAccounts` | aidl/camera/device/CameraDeviceSession.cpp:1349-1388 | Over any run of calls from a new session the handle account holds, a session closed without disconnect has no live handle, and the HAL device is closed exactly once if the session is closed, else never |
| `CaptureSession.CallInv` | aidl/camera/device/CameraDeviceSession.cpp:859-1388 | Each call keeps that |
| `CaptureSession.CloseFreesIff` | aidl/camera/device/CameraDeviceSession.cpp:1349-1388 | However an open session is ended and whatever calls follow, it is left without a live handle if and only if it was ended by a close, or the calls after the disconnect removed every buffer cached at that point |
| `CaptureSession.DisconnectKeepsHandles` | aidl/camera/device/CameraDeviceSession.cpp:184-192 | After any calls that follow a disconnect, closes among them, a handle is live exactly when it was cached at the disconnect in a slot none of those calls removed |
| `CaptureSession.ClosedRunCached` | aidl/camera/device/CameraDeviceSession.cpp:938-956 | Over any calls on a closed session a slot stays cached exactly unless one of the calls removes it; nothing new is cached |
| `CaptureSession.DisconnectedExamples` | aidl/camera/device/CameraDeviceSession.cpp:1349-1352 | One handle cached: disconnect and close leave it live; with its removal from the cache in between it is freed |
| `CaptureSession.RecordedKeysIff` | aidl/camera/device/CameraDeviceSession.cpp:1232-1254 | A recorded request keeps streams and caches about the same ids if and only if each stream it names is configured or gets a cached buffer from it |
| `CaptureSession.FailureLeavesNothingIff` | aidl/camera/device/CameraDeviceSession.cpp:1276-1343 | A request that goes through adds exactly its pairs; one that fails leaves the tables as they were, exactly unless it fails on physical camera settings, which leaves its pairs behind |
| `CaptureSession.ProcessOneHistory` | aidl/camera/device/CameraDeviceSession.cpp:1172-1347 | Processing a request moves the tables through the history events the table theorems speak of |
| `CaptureSession.RunHistory` | aidl/camera/device/CameraDeviceSession.cpp:1150-1170 | Whatever is called on a new session, its tables are those after a history of the requests, results and errors of the calls, so the table theorems hold of every run |
| `CaptureSession.RunConserved` | aidl/camera/device/CameraDeviceSession.cpp:1150-1254 | Whatever is called on a new session, as long as no two requests carry the same frame: the calls make an orderly history, a pair is in flight exactly when submitted and neither rolled back nor returned, and none is both or was never submitted |
| `CaptureSession.AbandonedExample` | aidl/camera/device/CameraDeviceSession.cpp:1276-1309 | One request with a physical setting that does not convert: refused and not counted, yet its buffer stays in flight and the session refuses every configuration from then on |
| `CaptureSession.CountIsAdmitted` | aidl/camera/device/CameraDeviceSession.cpp:1150-1170 | processCaptureRequest returning n means exactly the first n requests were admitted, with OK exactly when that is all; beyond their pairs the tables gained those of request n exactly when it was abandoned on its physical camera settings |
| `CaptureSession.ConfigureOnlyWhenAllBack` | aidl/camera/device/CameraDeviceSession.cpp:863-884 | The guards let a configuration through exactly when every pair submitted is back, no override is live and no frame is half returned; otherwise it is refused with no change |
| `RequestOutcomes.RequestStatus` | aidl/camera/device/CameraDeviceSession.cpp:1172-1347 | A request goes through if and only if the session is usable, it is well formed, with settings if it is the first since a configuration, all its buffers can be had with good fences, its physical settings are good and the HAL accepts; and exactly when it is an illegal argument or meets a lost camera |
| `RequestOutcomes.ImportBuffersAs` | aidl/camera/device/CameraDeviceSession.cpp:322-387 | Importing goes well exactly if each buffer is cached, repeated, empty where allowed or taken by the importer, and otherwise ends as its first bad buffer tells |
| `RequestOutcomes.PairsOfRequest` | aidl/camera/device/CameraDeviceSession.cpp:1212-1253 | A request's pairs are its frame with each output's stream, and the input's if that names a stream and a buffer |
| `RequestOutcomes.NullSettingsRefusedIff` | aidl/camera/device/CameraDeviceSession.cpp:1205-1208 | Over any calls on a new session the next request counts as the first if and only if a configuration succeeded and no request was accepted since, and one without settings is refused or taken accordingly |
| `RequestOutcomes.UsableIff` | aidl/camera/device/CameraDeviceSession.cpp:160-182 | Over any calls a session is usable exactly if it initialized and was neither closed nor disconnected, and tells of a lost camera exactly if it initialized and was disconnected |
| `RequestOutcomes.ConfigureStatus` | aidl/camera/device/CameraDeviceSession.cpp:859-927 | A configuration succeeds if and only if nothing is in flight, the session is usable, every request agrees with its stream and the HAL takes it; and exactly when it is an illegal argument or meets a lost camera |
| `RequestOutcomes.ConfigureLeaves` | aidl/camera/device/CameraDeviceSession.cpp:859-927 | A success leaves exactly the requested streams with the buffers they had and makes the next request the first; a failure in late mode keeps every buffer and frees none |
| `RequestOutcomes.VideoIdsAre` | aidl/camera/device/CameraDeviceSession.cpp:1053-1060 | The batched streams are those requested for output with the video encoder's usage |
| `RequestOutcomes.BatchedStreamsAre` | aidl/camera/device/CameraDeviceSession.cpp:1053-1060 | Over any calls the batched streams are those of the last configuration that succeeded |
| `CapturePath.EveryBufferComesUp` | aidl/camera/device/CameraDeviceSession.cpp:1628-1668 | Over any calls on a new session with distinct frames and any guarded batcher run that handled its accepted results: a pair's buffer was sent up under the pair's frame, or waits in a batch, if and only if the pair was submitted, not rolled back, is not in flight and did not come back in a result dropped for its physical cameras |
| `CapturePath.AllUpWhenIdle` | aidl/camera/device/CameraDeviceSession.cpp:1628-1668 | With nothing in flight, nothing dropped and an empty deque, the framework holds exactly the pairs submitted and not rolled back |
| `CapturePath.AcceptedOnce` | aidl/camera/device/CameraDeviceSession.cpp:1425-1442 | No pair is returned by two accepted results |
| `CapturePath.RegistrationFreshIff` | aidl/camera/device/CameraDeviceSession.cpp:1157-1167 | With consecutive frames in a call, growing from call to call, a batch the session registers meets what the batcher demands if and only if its frames are 32-bit and the HAL has handed over none of them yet |
| `CameraDeviceSession.CameraDeviceSession.constructor` | aidl/camera/device/CameraDeviceSession.cpp:86-147 | A new session, with the HAL device closed at once when it does not initialize |
| `CameraDeviceSession.CameraDeviceSession.CleanupBuffers` | aidl/camera/device/CameraDeviceSession.cpp:930-936 | The loop frees every handle of one stream once and drops its cache |
| `CameraDeviceSession.CameraDeviceSession.PreProcessConfiguration` | aidl/camera/device/CameraDeviceSession.cpp:958-1023 | Takes in the requested streams, stopping at an incompatible one, and in early mode frees the others' buffers |
| `CameraDeviceSession.CameraDeviceSession.PostProcessConfiguration` | aidl/camera/device/CameraDeviceSession.cpp:1025-1061 | Erases the streams not requested, in late mode with their buffers, and tracks the video streams |
| `CameraDeviceSession.CameraDeviceSession.PostProcessConfigurationFailure` | aidl/camera/device/CameraDeviceSession.cpp:1063-1081 | In early mode brings the emptied caches back |
| `CameraDeviceSession.CameraDeviceSession.ConfigureStreams` | aidl/camera/device/CameraDeviceSession.cpp:859-927 | The whole call, with its guards and statuses, does what the session value's configuration does |
| `CameraDeviceSession.CameraDeviceSession.ImportBuffer` | aidl/camera/device/CameraDeviceSession.cpp:294-321 | Finds, imports or refuses a buffer as specified |
| `CameraDeviceSession.CameraDeviceSession.HandleAePrecaptureCancelRequest` | aidl/camera/device/CameraDeviceSession.cpp:201-236 | Computes the translated settings and the override |
| `CameraDeviceSession.CameraDeviceSession.AddInflight` | aidl/camera/device/CameraDeviceSession.cpp:1231-1254 | Records exactly the request's pairs and enters the unknown streams among those it names |
| `CameraDeviceSession.CameraDeviceSession.ProcessOneCaptureRequest` | aidl/camera/device/CameraDeviceSession.cpp:1172-1347 | Every early return and the roll-back do what the value-level request does |
| `CameraDeviceSession.CameraDeviceSession.UpdateBufferCaches` | aidl/camera/device/CameraDeviceSession.cpp:938-956 | The loop removes and frees exactly the named cached buffers |
| `CameraDeviceSession.CameraDeviceSession.ProcessCaptureRequest` | aidl/camera/device/CameraDeviceSession.cpp:1150-1170 | Status, count and state of the value-level call; a batch is to be registered exactly when all of several requests went through |
| `CameraDeviceSession.CameraDeviceSession.ConstructCaptureResult` | aidl/camera/device/CameraDeviceSession.cpp:1414-1566 | Accepts exactly the results whose buffers are in flight, computes the metadata sent up, and brings the three tables up to date |
| `CameraDeviceSession.CameraDeviceSession.NotifyError` | aidl/camera/device/CameraDeviceSession.cpp:1676-1704 | Drops errors naming unknown streams; the fatal kinds end the tracking of their frame |
| `CameraDeviceSession.CameraDeviceSession.Close` | aidl/camera/device/CameraDeviceSession.cpp:1349-1388 | Closes the HAL device once and frees every cached handle |
| `CameraDeviceSession.CameraDeviceSession.Disconnect` | aidl/camera/device/CameraDeviceSession.cpp:184-192 | Closes the HAL device once and touches no buffer |
| `CameraDeviceSession.CameraDeviceSession.Destroy` | aidl/camera/device/CameraDeviceSession.cpp:153-158 | The destructor leaves the session closed |
| `DeviceLifecycle.HalLifecycle` | aidl/camera/device/CameraDevice.cpp:273-331 | Over any run of opens, calls, closes, connection changes and destructions: no HAL device is closed twice, a session's exactly when the session is closed, a destroyed session's always; never two unclosed sessions |
| `DeviceLifecycle.RunInv` | aidl/camera/device/CameraDevice.cpp:250-335 | The invariant behind it holds over every run |
| `DeviceLifecycle.FailedOpenClosesIff` | aidl/camera/device/CameraDevice.cpp:291-327 | A failed open gives the HAL device back exactly unless no session object could be created |
| `DeviceLifecycle.OpenAnswers` | aidl/camera/device/CameraDevice.cpp:250-335 | A session is handed out if and only if there is a callback, the camera is there, no session of the device is unclosed, and module and session do their part; each refusal has its own condition and leaves nothing open |
| `DeviceLifecycle.LostCameraIsClosed` | aidl/camera/device/CameraDevice.cpp:121-134 | In every run, while the camera is gone no session of the device is unclosed and nothing can be opened, and plugging in leaves every session as it was |
| `DeviceLifecycle.DisconnectedIsLast` | aidl/camera/device/CameraDevice.cpp:121-123 | Whether the camera is there is what it was last told to be |
| `DeviceLifecycle.SessionHearsItsOwn` | aidl/camera/device/CameraDevice.cpp:121-134 | Over any run of the device a session's state is what its own calls, its destruction and an unplugging while it is the current one make of it |
| `DeviceLifecycle.Camera.Open` | aidl/camera/device/CameraDevice.cpp:250-335 | Status and whole new device state, sessions and HAL devices included, are those of the value-level open, for every outcome of its steps; a session is handed out exactly on success |
| `DeviceLifecycle.Camera.SetConnectionStatus` | aidl/camera/device/CameraDevice.cpp:121-134 | The whole new device state is that of the value-level connection change: only an unplug reaches the live session, as a disconnect |
| `DeviceLifecycle.Camera.Called` | aidl/camera/device/CameraDevice.cpp:328-333 | A call on a session handed out earlier, seen from the device, is the value-level call on that session and nothing else |
| `DeviceLifecycle.Camera.Release` | aidl/camera/device/CameraDeviceSession.cpp:153-158 | When the last reference to a session goes, the device state is that after its destruction, and the weak reference expires exactly if it was to that session |
| `OneShotSensor.OneEventPerActivation` | sensors/Sensor.cpp:303-331 | In every interleaving of clients and the poll loop, events posted plus one if on or still polling never exceed off-to-on activations |
| `OneShotSensor.HardwareFollowsFlag` | sensors/Sensor.cpp:271-292 | After the first activation, with the lock free, the last written hardware enable equals the flag |
| `OneShotSensor.PollAlwaysWakes` | sensors/Sensor.cpp:303-338 | A thread polling while disabled, or in data injection with no mode change half done, always has a byte in the pipe |
| `OneShotSensor.WaiterIsNotified` | sensors/Sensor.cpp:182-188 | Whenever a waiting thread could go on with the lock free, it has been notified |
| `OneShotSensor.EventsNeedActivations` | sensors/Sensor.cpp:323-325 | After posting its event the sensor is off and later events are bounded by later activations |
| `OneShotSensor.EventsAreFiringPolls` | sensors/Sensor.cpp:314-326 | In every interleaving the events posted, plus one while firing, are as many as the polls that came back well with the node ready and found it reading true |
| `OneShotSensor.PollTurnEffect` | sensors/Sensor.cpp:303-331 | A whole poll turn: an event exactly for a good poll with the node ready and true, which switches the sensor off; else a byte taken; then done, polling or waiting exactly as stop, flag and mode say |
| `OneShotSensor.WakeUpEffect` | sensors/Sensor.cpp:303-312 | A waiting thread goes on exactly if it is to stop or the sensor is on in normal mode |
| `OneShotSensor.ActivateEffect` | sensors/Sensor.cpp:271-296 | The steps of an uninterrupted activate amount to one change of flag, hardware, pipe and notification, or none |
| `OneShotSensor.SetModeEffect` | sensors/Sensor.cpp:298-301 | Those of a mode change to one change of the mode, a byte, and a notification if the mode is new |
| `OneShotSensor.RunInv` | sensors/Sensor.cpp:271-338 | The invariant behind these holds over every run |
| `OneShotSensor.SysfsPollingOneShotSensor.Activate` | sensors/Sensor.cpp:271-296 | An uninterrupted activate takes the protocol through its client steps |
| `OneShotSensor.SysfsPollingOneShotSensor.SetOperationMode` | sensors/Sensor.cpp:298-301 | An uninterrupted mode change is the protocol's two steps |
| `OneShotSensor.SysfsPollingOneShotSensor.HandlePoll` | sensors/Sensor.cpp:314-328 | The loop body after poll is the protocol's reaction, for every combination of readiness |
| `Decimal.RoundTrip` | aidl/camera/provider/CameraProvider.cpp:67 | A camera number reads back from its own text |
| `CameraProvider.MatchesSplit` | aidl/camera/provider/CameraProvider.cpp:45-62 | Scanning finds the version and id whenever the expression splits the string that way |
| `CameraProvider.MatchSplits` | aidl/camera/provider/CameraProvider.cpp:45-62 | And whenever scanning succeeds the expression splits the string that way |
| `CameraProvider.MatchInvertsName` | aidl/camera/provider/CameraProvider.cpp:48-62 | Matching inverts name building on every nonempty one-line id |
| `CameraProvider.MatchInvertsNumber` | aidl/camera/provider/CameraProvider.cpp:178-180 | In particular on the text of every camera number |
| `CameraProvider.NamesDiffer` | aidl/camera/provider/CameraProvider.cpp:178-180 | Different ids have different device names |
| `CameraProvider.DirectoryIsExact` | aidl/camera/provider/CameraProvider.cpp:212-301 | After a successful start and any status changes and callbacks: device names are exactly the generated names of the listed ids and no blacklisted camera is listed; if the callback is never taken away, the id list is exactly the present legacy cameras |
| `CameraProvider.RunInv` | aidl/camera/provider/CameraProvider.cpp:102-148 | The invariant behind it holds over every such run |
| `CameraProvider.RunNames` | aidl/camera/provider/CameraProvider.cpp:102-148 | The names stay exact over every run, whether or not the callback is taken away |
| `CameraProvider.StatusChangeInv` | aidl/camera/provider/CameraProvider.cpp:102-148 | A status change keeps it |
| `CameraProvider.SetCallbackInv` | aidl/camera/provider/CameraProvider.cpp:408-425 | Setting or replacing the callback keeps it |
| `CameraProvider.ListExactIff` | aidl/camera/provider/CameraProvider.cpp:436-452 | The id list is exact if and only if every present legacy camera is still listed |
| `CameraProvider.PresentWithoutCallback` | aidl/camera/provider/CameraProvider.cpp:121-125 | Without a callback, a legacy camera reported present keeps the list exact exactly when its id is still listed |
| `CameraProvider.ListExactRunIff` | aidl/camera/provider/CameraProvider.cpp:102-148 | After a successful start and any status changes and callbacks, taken away or not, the id list is exact if and only if no legacy camera whose last status is PRESENT was heard to go by some callback and not heard to come back since |
| `CameraProvider.StartIs` | aidl/camera/provider/CameraProvider.cpp:212-301 | A start succeeds if and only if no camera off the blacklist ends it, and then the legacy cameras are exactly those off the blacklist that the module describes, all listed and PRESENT, with nothing reported |
| `CameraProvider.StatusReports` | aidl/camera/provider/CameraProvider.cpp:118-146 | A status change is reported with the camera's generated name and that status only: twice when a listed camera goes, once otherwise when listed or newly so, else not at all |
| `CameraProvider.CallbackHears` | aidl/camera/provider/CameraProvider.cpp:408-425 | A new callback hears of each external camera that is not absent, once, by name and status, and exactly those are listed besides |
| `CameraProvider.Provider.InitializeFrom` | aidl/camera/provider/CameraProvider.cpp:254-300 | The start-up loop with its skips and its two ways of giving up |
| `CameraProvider.Provider.LegacyCameraIdMap` | aidl/camera/provider/CameraProvider.cpp:189-210 | The loop lays the readable remapping entries over the identity |
| `CameraProvider.Provider.Start` | aidl/camera/provider/CameraProvider.cpp:212-301 | The whole start of a new provider, from the number of cameras on |
| `CameraProvider.Provider.CameraDeviceStatusChange` | aidl/camera/provider/CameraProvider.cpp:102-148 | Reports, adds or removes as specified, in all cases |
| `CameraProvider.Provider.SetCallbackTo` | aidl/camera/provider/CameraProvider.cpp:408-425 | The loop over the status map adds and reports every external camera that is not absent |
| `CameraProvider.Provider.GetCameraIdList` | aidl/camera/provider/CameraProvider.cpp:436-452 | The filtering loop returns exactly the specified names |
| `DacFilter.RenderRoundTrip` | interfaces/hardware/audio/dac/control/2.0/default/DacControl.cpp:486-503 | The written text reads back as the integers it was made of |
| `DacFilter.RenderInjective` | interfaces/hardware/audio/dac/control/2.0/default/DacControl.cpp:486-503 | Rendering is injective over all integer shapes, symmetries and coefficients |
| `DacFilter.DriverHoldsLastSuccess` | interfaces/hardware/audio/dac/control/2.0/default/DacControl.cpp:505-586 | Over any run of setters and resets the driver holds, and reads back as, the integers stored at the last successful one |
| `DacFilter.StoreChangesOne` | interfaces/hardware/audio/dac/control/2.0/default/DacControl.cpp:515-524 | A successful setter changes exactly its own one of the sixteen integers |
| `DacFilter.ResetZeroesCoeffs` | interfaces/hardware/audio/dac/control/2.0/default/DacControl.cpp:575-583 | A successful reset zeroes the coefficients and leaves shape and symmetry |
| `DacFilter.ShapeStableIff` | interfaces/hardware/audio/dac/control/2.0/default/DacControl.cpp:514-518 | Setting the 32-bit shape just read leaves it alone exactly when it is at most 4 |
| `DacFilter.SetShapeStores` | interfaces/hardware/audio/dac/control/2.0/default/DacControl.cpp:505-526 | A shape is stored exactly on supported devices with a successful write, as itself up to 4 and as the next above |
| `DacFilter.SetSymmetryStores` | interfaces/hardware/audio/dac/control/2.0/default/DacControl.cpp:528-544 | So is a symmetry, as itself |
| `DacFilter.SetCoeffStores` | interfaces/hardware/audio/dac/control/2.0/default/DacControl.cpp:546-563 | A coefficient changes its own integer alone; an index outside the fourteen throws |
| `DacFilter.ResetStores` | interfaces/hardware/audio/dac/control/2.0/default/DacControl.cpp:565-586 | A reset zeroes the coefficients up to the first failed write and tells the driver only when all succeeded |
| `DacFilter.StoredIsLastWritten` | interfaces/hardware/audio/dac/control/2.0/default/DacControl.cpp:505-586 | Over any run each of the sixteen integers is the one last written to it, or as at first |
| `DacFilter.DacControl.ParseUpdatedCustomFilterData` | interfaces/hardware/audio/dac/control/2.0/default/DacControl.cpp:486-503 | The appending loop renders the sixteen stored integers |
| `DacFilter.DacControl.SetCustomFilterShape` | interfaces/hardware/audio/dac/control/2.0/default/DacControl.cpp:505-526 | Refusals, the shifted shape, 32 bits wide, and the driver write, as specified |
| `DacFilter.DacControl.SetCustomFilterSymmetry` | interfaces/hardware/audio/dac/control/2.0/default/DacControl.cpp:528-544 | Refusals and the driver write, as specified |
| `DacFilter.DacControl.SetCustomFilterCoeff` | interfaces/hardware/audio/dac/control/2.0/default/DacControl.cpp:546-563 | Refusals, the throw on a bad index, and the driver write, as specified |
| `DacFilter.DacControl.ResetCustomFilterCoeffs` | interfaces/hardware/audio/dac/control/2.0/default/DacControl.cpp:565-586 | The loop stops at the first failed property write, leaving the driver alone |
| `Vibrator.EveryActuatorHearsTheWave` | aidl/vibrator/Vibrator.cpp:95-127 | For every duration and actuator count: exactly one amp enable per full four messages, and under an actuator's index byte the full waveform and fewer than 40 zeros, exactly when the waveform is empty or no other actuator shares the byte |
| `Vibrator.AllHeard` | aidl/vibrator/Vibrator.cpp:106-127 | What goes out under an index byte is the padded waveform once for each actuator with that byte |
| `Vibrator.RunHeard` | aidl/vibrator/Vibrator.cpp:107-126 | What one actuator's messages contribute, headers stripped, and how often it is enabled |
| `Vibrator.DurationFitsIff` | aidl/vibrator/Vibrator.cpp:83-85 | The size of the buffer is a 32-bit number and not negative exactly for durations from 0 to 261569262 |
| `Vibrator.RefusalEnds` | aidl/vibrator/Vibrator.cpp:106-129 | Driving fails only once an amplifier is asked: those before the first unwilling one are driven in full, that one gets four messages and one try, and nothing goes to the others |
| `Vibrator.RunFramed` | aidl/vibrator/Vibrator.cpp:107-126 | Every message to an actuator has the 43 bytes and the header of its index byte, 8 and 40; all n are sent unless its amplifier refuses |
| `Vibrator.OffAsks` | aidl/vibrator/Vibrator.cpp:69-79 | Switching off asks each amplifier in turn up to and including the first that fails |
| `Vibrator.VibratorDevice.On` | aidl/vibrator/Vibrator.cpp:81-130 | Switches everything off, then sends every actuator its messages, ended by the first amplifier that refuses |
| `Vibrator.VibratorDevice.Split` | aidl/vibrator/Vibrator.cpp:95-104 | The row-and-column filling cuts the waveform into rows of 40, zero-padded |
| `Vibrator.VibratorDevice.Pack` | aidl/vibrator/Vibrator.cpp:108-115 | Header and row of one message |
| `Vibrator.VibratorDevice.Drive` | aidl/vibrator/Vibrator.cpp:107-126 | The messages to one actuator with an enable after every fourth |
| `Vibrator.VibratorDevice.Off` | aidl/vibrator/Vibrator.cpp:69-79 | Disables amplifiers in turn up to the first failure |
| `Vibrator.VibratorDevice.Perform` | aidl/vibrator/Vibrator.cpp:150-186 | Plays an effect at its strength and restores the client's amplitude |
| `RadioBitmap.GroupsAreFamilies` | hidl/radio/Helpers.h:18-31 | The five groups and the TD-SCDMA bit are the unions of their access families |
| `RadioBitmap.ClosureIsLeast` | hidl/radio/Radio.cpp:873-877 | The completed bitmap is the least one that covers the request and holds every group wholly or not at all |
| `RadioBitmap.ClosureIdempotent` | hidl/radio/Radio.cpp:873-877 | Completing twice is completing once |
| `RadioBitmap.AnyOrder` | hidl/radio/Radio.cpp:873-877 | Every order of the group tests, with or without repeats, ends at the same bitmap |
| `RadioBitmap.UpThenDown` | hidl/radio/RadioResponse.cpp:373-446 | Each legacy type comes back as itself, except GSM_WCDMA, which comes back as its automatic variant |
| `RadioBitmap.DownThenUp` | hidl/radio/Radio.cpp:869-951 | For every 32-bit bitmap, down to the legacy type and back yields its group closure when some legacy type stands for it, and the LTE, CDMA, EVDO, GSM and WCDMA union otherwise |
| `RadioBitmap.Downgrade` | hidl/radio/Radio.cpp:869-951 | The updates on the local bitmap and the switch choose the type that reads back as the request's group closure if any does, the one for everything but TD-SCDMA otherwise, and never GSM_WCDMA |
| `RadioBitmap.LegacyType` | hidl/radio/Radio.cpp:879-949 | The statement-level switch agrees with the type the round trip is proved of |

## Left out

- BatcherTheorems.BatchingRefinesPassThrough: says nothing about the order between channels, such as a frame's shutter and its buffers, because grouping changes that order on purpose.
- CameraProvider.Provider.SetCallbackTo: counts the reports made to a new callback and does not order them among several cameras; those of one status change are all alike, as `StatusReports` says.
- Vibrator.VibratorDevice.On: leaves out the durations `DurationFitsIff` excludes, negative ones above all, and negative actuator counts: the code would declare an array of negative size, which the language leaves undefined.
- Binder, HIDL and service start-up, logging and tracing: transport only.
- Native handles, fences and moved-from objects: a buffer's handle is an opaque number, a fence only valid or not.
- `popBufferId` and `mBufferIdMaps`: nothing in the repository fills the map, so every lookup answers "no buffer".
- The one-second timeout after which the callback drops results (aidl/camera/device/CameraDeviceSession.cpp:733-739): the lock is assumed to be obtained.
- `sShrinkCaptureResult` and the lookup of physical camera ids in `sProcessCaptureResult`: pointer copies with no state; which results it drops is an argument of `EveryBufferComesUp`.
- `signalStreamFlush`, the stream configuration counter, `flush`, default request settings and torch: forwarding to the module.
- Copying of converted settings through the request queue: whether settings convert is an argument of a request.
- Iteration order of hash maps and sorted vectors: sets and maps are visited in any order.
- Two buffers of one stream in one batched result, outside the queue itself: excluded by the ordering guard. `FrameRebuiltIff` says what they do to the queue; the code would then also list the stream twice among those to send.
- Camera vendor tags, device version checks and camera info beyond their verdicts.
- Construction and destruction races of the sensor thread: the model starts from a running thread that waits.
- A full wait pipe: the pipe holds any number of bytes here, while the code's write would block, in `activate` with the lock held.
- The sensor's readings themselves: an event is counted, not filled in.
- Property values longer than the property system allows, and how its library reads text that is not a plain decimal integer.
- The other DAC controls, and the volume and balance settings: single writes.
- The sine and the rounding of the waveform's samples: the sample of an amplitude at an index is an arbitrary byte; the number of samples is 8.21 times the duration, rounded to the nearest, over the reals.
- `setAmplitude` and the supported-effects list of the vibrator: single-branch facts.
- The pass-through methods of the radio, its response and indication wrappers.
- Lights, live display, touch, fingerprint, amplifier and the DAC panel: I/O wrappers.
- Liveness (that the HAL answers, that threads are scheduled): the theorems are about what every run keeps.
