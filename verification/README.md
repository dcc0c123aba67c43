# Verified model of the realme 7 device code

This project models four pieces of the device tree in Dafny and proves what they promise.

- **The sensors multi-HAL proxy.** Sub-HALs post batches of sensor events from their own threads. The proxy writes them to one
  fast message queue (FMQ), or queues what does not fit for a writer thread that gives up the lock during its blocking write.
  A reference-counted wake lock, shared with a second thread, keeps the device awake while wake-up events are under way.
  `ProxyMachine.dfy` is the state machine: a run is any sequence of enabled steps of posters, writer thread, wake-lock thread,
  token holders, stop and re-initialise. `HalProxyObject.dfy` is the object itself, with one method for each stretch of code that
  runs without giving up its lock; each method is proved against the step functions that the machine uses.
- **Registration and routing.** Loading static sensors, the single owner of direct channels, dynamic sensors, and switching
  all sub-HALs between operation modes.
- **Ambient-light correction.** The throttled, cached hysteresis state machine that subtracts the light of the screen, and the
  padded pixel sum that tells it the screen's colour.
- **`reorder-libs.py`.** The hand-written path comparator, the stable sort that uses it, and the whole-file rewrite.

Files, from the bottom up: `Handles`, `SensorTypes`, `EventQueue`, `EventQueueSafety`, `QueueLaws`, `Draining`, `WakeLock`,
`WakeLedger`, `ProxyMachine`, `RunDraining`, `FailedWrites`, `WakeBalance`, `WakeExamples`, `Registration`, `DynamicSensors`,
`OperationModes`, `HalProxyObject`, `SensorLaws`; `Picture`, `AreaCapture`, `AlsCorrection`, `AlsStability`, `AlsLaws`;
`Lexicographic`, `PathOrder`, `LineOrder`, `LineSort`, `LineLaws`, `TextFile`, `FileRewrite`, `TextLaws`. The files named "laws" say
what the step functions do in terms that do not use them: fields, bits, literal numbers, and texts and pictures put together rather
than taken apart. Check all files with `dafny verify dfyconfig.toml`.

## What the model takes as given

- A 32-bit handle is its top byte and its low 24 bits; a flag word is the set of its one bits. The flag values WAKE_UP (0x1),
  MASK_DIRECT_REPORT (0x380) and MASK_DIRECT_CHANNEL (0xC00) are those of the android.hardware.sensors@1.0 interface.
- The limit on pending events, the capacity of the FMQ and the wake-lock timeout are parameters, because `HalProxy.h` is not
  part of this model. What the FMQ can take, whether a write succeeds, what the clock says, what the framework acknowledges,
  and how sub-HALs answer are arbitrary inputs of the steps.
- A `ScopedWakelock` adds one reference when it is taken, keeps the time it was taken at, and takes the reference back when it
  is dropped. Its header is not part of this model.
- Re-initialising is quiescent: both threads have been joined and no poster is inside the queue code.
- A post holds the queue's lock from start to end, and its wake-lock part touches nothing of the queue, so it is one step.
- The inverse gain, the calibration gain and the maximum brightness are positive, so that nothing is divided by zero; other
  configuration values are arbitrary, and what else a property needs of them is in its hypotheses.
- Text is what Python hands to the script after reading, with newline translation done.
- Floats are reals; the 2.2 power is any function that maps [0,1] to [0,1].
- `log` (every event posted and its fate), `fmq` (every event written) and `actions` (the acquire and release calls) are history.
- `strcoll` in the "C" locale is code-point order. `list.sort` keeps the lines whatever the comparator is, and sorts them
  stably where the comparator is an order; on tangled lines it may leave them in any order.
- Every sub-HAL is in NORMAL mode when it is loaded; what mode its own `initialize` leaves it in is an input.

## Results worth knowing

- The reference count is compared with a ledger that never looks at a clock: the set of live tokens taken since the last reset,
  and a number of references that no token gives back. The count never exceeds the ledger. It equals the ledger in every state
  of a run if and only if no acknowledgement or failed write asks for more than is owed while a newer token is live. A reset
  must read a time strictly later than every live token's; at equal times a stale token cancels a newer reference
  (`EqualTimesCancelNewer`).
- The remainder of a batch is queued with the wake-up count of the whole batch. A failed chunk asks for exactly what it drops
  if and only if more chunks follow or no wake-up event of the batch was written or offered before it; with the last chunk the
  excess is the number of those (`FailedWriteReleases`). Over a run in which every pending write fails, that adds up to the
  counts of all entries plus the wake-up events of all chunks but the last of each (`FailedRunOverReleases`).
- Between two resets the reference count is at least a balance of totals: the newer tokens plus the wake-up events that are
  queued, delivered or overflowed, minus what was acknowledged and the excess of failed writes. It equals the balance if and
  only if no step asks for more than the count holds or drops a newer token at count zero (`CountFollowsEvents`). A positive
  balance keeps the wake lock held; it is released exactly when the balance and what such steps were short of add up to zero
  (`ReleasedIff`). Because of the excess it can be released under a live scoped wakelock (`OverReleaseExample`) and while a
  wake-up event is still queued (`ReleasedWhileQueued`). A timeout starts the balance anew, but acknowledgements carry no time,
  so a late one releases the lock while a newer wake-up event is queued (`AwakeAfterTimeout`, `LateAcknowledgement`).
- In every run without a re-initialise, the writer thread takes exactly the FMQ-sized chunks of the queued entries off the
  queue, in order, whatever comes in between (`RunTakesChunks`), and has emptied the queue exactly when it has gone through the
  sum of the entries' ceilings (`RunEmptiesQueue`).
- While the threads are stopped a reset moves the reset time but not the count, so a restart carries the count over
  (`RestartCarriesCount`).
- The path comparator is a total preorder on a set of lines if and only if the set has no slash-less `p`, extension of `p` by a
  character below the slash, and path in a subdirectory of `p`: `p`, `p-` and `p/q/x` go round in a circle (`CircularExample`).
- After an accepted correction, repeating the reading is served from the cache if and only if it lies in the bucket of the
  corrected value, or, in lux at the new gain, between 10 and 5 / 0.07 (`RepeatedReadingNeedsCapture`). The window is scaled with
  the base gain whatever the automatic gain is (`LowGainEscapes`, `QuietReadingIsServed`). With the base gain the condition is that
  the corrected value is 0 or the reading is at least 1 lux: the bucket above darkness starts at 1 (`HalfLuxEscapes`).
- Routing back from a loaded handle needs at most 128 sub-HALs, and keys are distinct for at most 256.

## Model

| member | source | states |
|---|---|---|
| Handles.RoutingRoundTrip | sensors/MT6785/HalProxy.cpp:57-70 | setting, then extracting and clearing the sub-HAL index gives back handle and index; the index exactly when it is below 128 |
| Handles.TaggedHandlesCollide | sensors/MT6785/HalProxy.cpp:57-59 | tagged handles are equal exactly when the sub-HALs' handles are and the indices agree modulo 256 |
| SensorTypes.WakeCountSplit | sensors/MT6785/HalProxy.cpp:748-757 | the wake-up count of a batch is the count of a prefix plus that of the rest, so it is monotone over suffixes |
| SensorTypes.LookupsKeepWakeHandles | sensors/MT6785/HalProxy.cpp:748-757 | looking handles up in `mSensors` may insert defaults but changes no sensor and no wake-up flag |
| EventQueueSafety.PostKeepsInv | sensors/MT6785/HalProxy.cpp:662-691 | a post keeps size, phase and history invariants, whatever part is written, queued or dropped |
| EventQueueSafety.PostRecordsBatch | sensors/MT6785/HalProxy.cpp:662-691 | a post puts its whole batch on record, in order, after everything posted before |
| EventQueueSafety.WriteBeginKeepsInv | sensors/MT6785/HalProxy.cpp:581-585 | taking the front entry keeps the invariants and leaves it queued |
| EventQueueSafety.WriteDoneKeepsInv | sensors/MT6785/HalProxy.cpp:585-600 | the unlocked write keeps the invariants whether it succeeds or times out |
| EventQueueSafety.WriteEndKeepsInv | sensors/MT6785/HalProxy.cpp:601-610 | popping keeps the invariants and the size subtraction never underflows |
| EventQueueSafety.ClearKeepsInv | sensors/MT6785/HalProxy.cpp:223-225 | clearing on re-initialise keeps the invariants |
| EventQueueSafety.FirstInFirstOut | sensors/MT6785/HalProxy.cpp:573-613 | written events followed by those not yet offered are the posted sequence without the dropped slices |
| QueueLaws.PostOutcome | sensors/MT6785/HalProxy.cpp:662-691 | with nothing pending and a write that succeeds, as many events as the FMQ has room for are written, otherwise none; the rest is queued whole with the batch's count when it fits, or dropped whole; nothing else changes |
| QueueLaws.WriteOutcome | sensors/MT6785/HalProxy.cpp:581-600 | a pending write hands over the first events of the front entry, as many as the FMQ holds, if it succeeds; the entry stays queued |
| QueueLaws.RoundOutcome | sensors/MT6785/HalProxy.cpp:581-610 | after a round those events are gone from the queue, and the rest of the entry keeps its place and its count |
| QueueLaws.ClearOutcome | sensors/MT6785/HalProxy.cpp:223-225 | clearing leaves nothing pending and no event waiting, and leaves FMQ and lifetime maximum alone |
| QueueLaws.MarkSettlesOldest | sensors/MT6785/HalProxy.cpp:585-600 | a write settles the oldest queued events and no others |
| QueueLaws.WakeCountIsCardinality | sensors/MT6785/HalProxy.cpp:748-757 | the count of a batch is the number of its positions with a wake-up handle |
| QueueLaws.WakeHandlesByFlag | sensors/MT6785/HalProxy.cpp:752 | a wake-up handle is one whose sensor has flag bit 0 |
| Draining.ChunksAreExact | sensors/MT6785/HalProxy.cpp:581-584 | an entry of n events is cut into ceil(n/Q) non-empty chunks of at most Q whose concatenation is the entry |
| Draining.RoundTakesOneChunk | sensors/MT6785/HalProxy.cpp:581-610 | a writer round offers the first remaining chunk and leaves the others, success or not |
| Draining.RoundsAreCeilings | sensors/MT6785/HalProxy.cpp:581-584 | the number of chunks of a queue is the sum over its entries of ceil(n/Q) |
| Draining.DrainIsExact | sensors/MT6785/HalProxy.cpp:577-612 | k rounds offer the first k chunks in order; the queue is empty exactly when all have been offered |
| Draining.DrainEmpties | sensors/MT6785/HalProxy.cpp:577-612 | with no further posts the queue empties after the sum of the entries' ceilings, whatever the outcomes |
| RunDraining.RunTakesChunks | sensors/MT6785/HalProxy.cpp:577-612 | in every run without a re-initialise, the slices taken off the queue followed by the chunks still pending are the chunks of what was pending and has been queued, in order |
| RunDraining.RunEmptiesQueue | sensors/MT6785/HalProxy.cpp:577-612 | such a run has no more rounds than the sum of the entries' ceilings, and the queue is empty exactly when it has had that many |
| WakeLock.IncrementKeepsHeld | sensors/MT6785/HalProxy.cpp:693-707 | an increment keeps "held iff count positive" and alternation unless it adds nothing to a zero count |
| WakeLock.DecrementKeepsHeld | sensors/MT6785/HalProxy.cpp:709-723 | every decrement keeps "held iff count positive" and the alternation of acquire and release |
| WakeLock.ResetKeepsHeld | sensors/MT6785/HalProxy.cpp:656-660 | a reset keeps them and empties the count only while the threads run |
| WakeLedger.StepKeepsTokens | sensors/MT6785/HalProxy.cpp:717-718 | the time comparison tells exactly the tokens taken since the last reset |
| WakeLedger.ResetNeedsStrictClock | sensors/MT6785/HalProxy.cpp:656-660 | it goes on doing so after a reset exactly when the reset is later than every live token |
| WakeLedger.StepKeepsBound | sensors/MT6785/HalProxy.cpp:693-723 | no step makes the count exceed live new tokens plus owed references |
| WakeLedger.StepKeepsExact | sensors/MT6785/HalProxy.cpp:693-723 | the count stays equal to them exactly when the step does not overdraw |
| WakeLedger.DropTokenEffect | sensors/MT6785/HalProxy.cpp:709-723 | a token from before the reset cancels nothing when dropped, a newer one takes back one reference |
| WakeLedger.StepKeepsHeld | sensors/MT6785/HalProxy.cpp:693-723 | "held iff count positive" survives a step exactly when it is not a lock without wake-up events at count zero |
| WakeLedger.RunIsExact | sensors/MT6785/HalProxy.cpp:619-660 | exactness in every state of a run, if and only if no settlement overdraws |
| WakeLedger.RunIsHeld | sensors/MT6785/HalProxy.cpp:693-723 | held iff count positive in every state of a run, if and only if it has no empty lock |
| WakeLedger.EqualTimesCancelNewer | sensors/MT6785/HalProxy.cpp:717-718 | with a reset at the same time as a token, dropping the token cancels a newer reference |
| WakeLedger.RestartCarriesCount | sensors/MT6785/HalProxy.cpp:656-660 | stop and restart leave the count and the kernel lock as they were |
| WakeLedger.TimeoutMeansIdle | sensors/MT6785/HalProxy.cpp:644-654 | a timeout is reported exactly when the last lock of the run is longer ago than the limit |
| ProxyMachine.RunIsFifo | sensors/MT6785/HalProxy.cpp:573-691 | in every interleaving, FMQ writes and remaining events are the posted batches minus settled losses, in order |
| ProxyMachine.StepFates | sensors/MT6785/HalProxy.cpp:590-691 | an event's fate is settled once, by the one step that can settle it so; overflow only at a batch's end and only when it does not fit |
| ProxyMachine.SingleWriter | sensors/MT6785/HalProxy.cpp:581-679 | while a pending write is under way no post writes to the FMQ, and the entry stays queued |
| ProxyMachine.RunSizes | sensors/MT6785/HalProxy.cpp:681-690 | the size counter is the number of pending events within the limit, no entry is empty, and the maximum is the lifetime maximum |
| FailedWrites.FailedWriteReleases | sensors/MT6785/HalProxy.cpp:590-600 | in every run the entry whose write fails is the rest of a posted batch and asks for at least what is dropped; for exactly that if and only if more chunks follow or no wake-up event of the batch was gone before, whose number is the excess in the last chunk |
| FailedWrites.WholeBatchReleasesExactly | sensors/MT6785/HalProxy.cpp:595-598 | a batch queued whole that fits in one chunk gives back exactly its own count |
| FailedWrites.FailedEntryOverReleases | sensors/MT6785/HalProxy.cpp:592-598 | failing all chunks of an entry asks for the batch's count plus the earlier chunks' wake-up events |
| FailedWrites.FailingRunAsks | sensors/MT6785/HalProxy.cpp:585-610 | while every pending write fails, what the failed writes of a run have asked for and what the queue has still to ask for are what the queue had to ask for at first and what the queued posts added |
| FailedWrites.FailedRunOverReleases | sensors/MT6785/HalProxy.cpp:585-610 | in every run whose pending writes have all failed and whose queue has run empty, the writer thread has asked for the counts of all queued entries plus the wake-up events of all their chunks but the last |
| WakeExamples.OverReleaseExample | sensors/MT6785/HalProxy.cpp:685 | a run: two events, FMQ of one, both writes failing; the wake lock is released while the scoped wakelock is live |
| WakeBalance.OutstandingFollowsPosts | sensors/MT6785/HalProxy.cpp:585-691 | over a run the queued, delivered and overflowed wake-up events grow by the posted ones less those dropped with failed chunks |
| WakeBalance.CountFollowsEvents | sensors/MT6785/HalProxy.cpp:585-723 | over every run between two resets, from any running state, the reference count is at least the balance of tokens, wake-up events by fate, acknowledgements and excess; equal if and only if no step clamps; the difference is what clamps cut off |
| WakeBalance.ReleasedIff | sensors/MT6785/HalProxy.cpp:709-723 | a positive balance keeps the wake lock held; it is released exactly when balance and shortfall add up to zero, without a clamp exactly when the balance is zero |
| WakeBalance.AwakeWhileQueued | sensors/MT6785/HalProxy.cpp:662-707 | from the start up to a timeout the lock is held while a wake-up event is queued, as long as the totals of acknowledgements and excess stay within tokens, delivered and overflowed events |
| WakeBalance.AwakeAfterTimeout | sensors/MT6785/HalProxy.cpp:622-637 | a timeout releases the lock whatever is queued; after it the lock is held while newer tokens and newer posts exceed what is acknowledged and asked for, and without a clamp exactly then |
| WakeBalance.HonestNeverClamps | sensors/MT6785/HalProxy.cpp:632-637 | if acknowledgements never exceed what was delivered and failed writes ask only for what they drop, no step clamps |
| WakeExamples.ReleasedWhileQueued | sensors/MT6785/HalProxy.cpp:685 | a run: both chunks of a batch fail, and the lock is released while the wake-up event of the next batch waits |
| WakeExamples.LateAcknowledgement | sensors/MT6785/HalProxy.cpp:630-637 | a run: an event delivered before a timeout is acknowledged after it, and the lock is released while a newer wake-up event waits |
| ProxyMachine.RunHoldsIffReferenced | sensors/MT6785/HalProxy.cpp:693-723 | in every state of every run that keeps the callback's contract, the lock is held iff the count is positive |
| ProxyMachine.RunAccounts | sensors/MT6785/HalProxy.cpp:619-723 | over every run with a forward clock the count is bounded by the ledger, and exact throughout iff nothing overdraws |
| ProxyMachine.WakeThreadSteps | sensors/MT6785/HalProxy.cpp:619-660 | a timeout returns all references and makes live tokens stale, an acknowledgement returns what it says, a restart keeps the count |
| ProxyMachine.TimeoutFiresOnlyWhenIdle | sensors/MT6785/HalProxy.cpp:622-627 | the timeout reset happens only when nobody has locked for longer than the limit |
| HalProxyObject.HalProxy.IncrementRefCountAndMaybeAcquireWakelock | sensors/MT6785/HalProxy.cpp:693-707 | the wake lock takes the increment step; refused and unchanged while the threads are stopped |
| HalProxyObject.HalProxy.DecrementRefCountAndMaybeReleaseWakelock | sensors/MT6785/HalProxy.cpp:709-723 | the wake lock takes the decrement step, with stale and stopped calls ignored |
| HalProxyObject.HalProxy.ResetSharedWakelock | sensors/MT6785/HalProxy.cpp:656-660 | the wake lock takes the reset step |
| HalProxyObject.HalProxy.SharedWakelockDidTimeout | sensors/MT6785/HalProxy.cpp:644-654 | says whether the limit has passed, and otherwise how much of it is left |
| HalProxyObject.HalProxy.HandleWakelocksBeforeRead | sensors/MT6785/HalProxy.cpp:622-629 | resets on timeout, otherwise leaves the wake lock alone |
| HalProxyObject.HalProxy.HandleWakelocksAfterRead | sensors/MT6785/HalProxy.cpp:630-637 | an acknowledgement is a decrement that is never stale |
| HalProxyObject.HalProxy.CreateScopedWakelock | sensors/MT6785/HalProxyCallback.cpp:60-63 | takes one reference and its time, unless the threads are stopped |
| HalProxyObject.HalProxy.DropScopedWakelock | sensors/MT6785/HalProxy.cpp:709-718 | a dropped locked wakelock is a decrement by one with its own creation time |
| HalProxyObject.HalProxy.SensorAt | sensors/MT6785/HalProxy.cpp:751-752 | indexing `mSensors` inserts a default sensor for an unknown handle |
| HalProxyObject.HalProxy.CountNumWakeupEvents | sensors/MT6785/HalProxy.cpp:748-757 | counts the wake-up events of a prefix, as the batch count does |
| HalProxyObject.HalProxy.ProcessEvents | sensors/MT6785/HalProxyCallback.cpp:65-82 | tags every event (and the inner handle of dynamic-sensor events) and counts the wake-up events of the result |
| HalProxyObject.HalProxy.WriteOrQueue | sensors/MT6785/HalProxy.cpp:664-690 | the queue part of a post: written, queued behind what is pending, or dropped, as the post step says |
| HalProxyObject.HalProxy.PostEventsToMessageQueue | sensors/MT6785/HalProxy.cpp:662-691 | queue and wake lock take the post and increment steps |
| HalProxyObject.HalProxy.PostEvents | sensors/MT6785/HalProxyCallback.cpp:41-58 | posts the tagged batch with its own wake-up count, or nothing when the batch is empty or the threads are stopped |
| HalProxyObject.HalProxy.HandlePendingWritesBegin | sensors/MT6785/HalProxy.cpp:581-585 | takes the size of the next write from front entry and FMQ capacity |
| HalProxyObject.HalProxy.GiveBackDropped | sensors/MT6785/HalProxy.cpp:591-599 | a failed write is a decrement by what the failed chunk asks for |
| HalProxyObject.HalProxy.HandlePendingWritesDone | sensors/MT6785/HalProxy.cpp:586-600 | a success hands the slice to the FMQ; a failure drops it and gives back what the failed chunk asks for |
| HalProxyObject.HalProxy.HandlePendingWritesEnd | sensors/MT6785/HalProxy.cpp:601-610 | removes the offered slice, or the entry with it, and subtracts its size without wrap-around |
| HalProxyObject.HalProxy.StopThreads | sensors/MT6785/HalProxy.cpp:534-555 | stopping changes the running flag and nothing else of the wake lock |
| HalProxyObject.HalProxy.InitializeCommon | sensors/MT6785/HalProxy.cpp:210-272 | after both threads are joined: resets the wake lock, clears queue and dynamic sensors, restarts, takes the sub-HALs' modes as they are after their own `initialize`, mode NORMAL |
| HalProxyObject.HalProxy.SetDirectChannelFlags | sensors/MT6785/HalProxy.cpp:725-738 | the first supporting sub-HAL becomes the owner; others lose their direct flags |
| HalProxyObject.HalProxy.InitializeSensorList | sensors/MT6785/HalProxy.cpp:486-509 | the nested loops load what the lists' specification says, and every sub-HAL starts in NORMAL mode |
| HalProxyObject.HalProxy.Route | sensors/MT6785/HalProxy.cpp:158-164 | a call goes to the sub-HAL of the handle's index with the cleared handle, or nowhere |
| HalProxyObject.HalProxy.OnDynamicSensorsConnected | sensors/MT6785/HalProxy.cpp:393-411 | updates the map and reports as the specification says |
| HalProxyObject.HalProxy.OnDynamicSensorsDisconnected | sensors/MT6785/HalProxy.cpp:413-433 | updates the map and reports as the specification says |
| HalProxyObject.HalProxy.SetOperationMode | sensors/MT6785/HalProxy.cpp:135-156 | switches all sub-HALs, or asks those before the first refusal to go back; succeeds iff all agree |
| HalProxyObject.EventsCarryLoadedKeys | sensors/MT6785/HalProxyCallback.cpp:69-76 | a sub-HAL's event carries the key under which its sensor was loaded and routes back to it |
| SensorLaws.TagIsBitwise | sensors/MT6785/HalProxy.cpp:57-59 | tagging sets bits of the top byte and no others |
| SensorLaws.RouteIs | sensors/MT6785/HalProxy.cpp:744-765 | a handle goes to the sub-HAL of its top byte, cleared; a negative one goes nowhere |
| SensorLaws.TaggedEventIs | sensors/MT6785/HalProxyCallback.cpp:69-76 | an event gets the index on its handle, and a dynamic-sensor event on its inner handle too; nothing else changes |
| SensorLaws.LoadedSensorIs | sensors/MT6785/HalProxy.cpp:486-509 | the last sensor listed under a handle is loaded under that handle with the index on top: its fields, flag bits and type, one by one |
| SensorLaws.ConnectedSensorIs | sensors/MT6785/HalProxy.cpp:393-411 | a connected sensor is there afterwards, unchanged but for the index on top of its handle |
| SensorLaws.DisconnectedHandleIsGone | sensors/MT6785/HalProxy.cpp:413-433 | a disconnected handle is gone afterwards, and told of if it was there |
| Registration.LoadListsDescribes | sensors/MT6785/HalProxy.cpp:486-509 | every key holds the last well-formed report for it, published for the first supporting sub-HAL |
| Registration.OwnerIsLowest | sensors/MT6785/HalProxy.cpp:725-738 | the direct-channel owner is the lowest-index sub-HAL with a well-formed supporting sensor, if there is one |
| Registration.OneDirectChannelOwner | sensors/MT6785/HalProxy.cpp:725-738 | sensors that still carry a direct flag belong to the owner; all other flag bits are unchanged |
| Registration.LoadedKeysRouteBack | sensors/MT6785/HalProxy.cpp:740-765 | with at most 128 sub-HALs every loaded key routes to the reporting sub-HAL with the handle it reported |
| Registration.EverySensorHasItsOwnKey | sensors/MT6785/HalProxy.cpp:489-500 | every well-formed sensor is loaded, and with at most 256 sub-HALs no two share a key |
| DynamicSensors.MapIsLastWord | sensors/MT6785/HalProxy.cpp:393-433 | the map holds exactly the keys whose last report was "connected", with that report's sensor |
| DynamicSensors.DisconnectIsExact | sensors/MT6785/HalProxy.cpp:413-433 | a disconnect removes what it mentions and reports exactly what of it was connected |
| DynamicSensors.DisconnectReportsOnce | sensors/MT6785/HalProxy.cpp:419-428 | a handle listed twice is reported once |
| DynamicSensors.ConnectReportsAll | sensors/MT6785/HalProxy.cpp:398-409 | the framework is told of every well-formed connected sensor, tagged and in order |
| DynamicSensors.CallsAreIsolated | sensors/MT6785/HalProxy.cpp:393-433 | a sub-HAL cannot touch keys whose top byte is not its index modulo 256 |
| OperationModes.FirstRefusal | sensors/MT6785/HalProxy.cpp:138-145 | the index at which the first loop stops: all before it succeeded, it refused |
| OperationModes.AllOrNothing | sensors/MT6785/HalProxy.cpp:135-156 | all sub-HALs agree with the current mode after the call exactly when refusals keep it and rollbacks return to it |
| OperationModes.SwitchesStayInStep | sensors/MT6785/HalProxy.cpp:135-156 | they agree after every sequence of such calls |
| AreaCapture.PixelInBuffer | als/default/AreaCapture.cpp:86-90 | no index leaves the buffer when rows are at least as wide as the picture |
| AreaCapture.SumColours | als/default/AreaCapture.cpp:84-92 | the nested loops give each channel's 32-bit sum |
| AreaCapture.GetAreaBrightness | als/default/AreaCapture.cpp:80-97 | for every picture that the buffer holds, row after row with any padding, the mean is each colour's 32-bit total over the picture's pixels, divided by their number |
| AreaCapture.HoldsSomePicture | als/default/AreaCapture.cpp:80-83 | every buffer of the right size holds a picture |
| AreaCapture.SumOfPicture | als/default/AreaCapture.cpp:85-92 | the sum over the buffer is the total over the picture |
| Picture.BufferAt | als/default/AreaCapture.cpp:88-90 | where a buffer that is put together from rows and padding holds a colour of a pixel |
| AreaCapture.SumIgnoresPadding | als/default/AreaCapture.cpp:85-92 | buffers that hold pictures of the same colours give the same sums, whatever stride, padding and fourth bytes |
| AreaCapture.SumsFit | als/default/AreaCapture.cpp:85 | the 32-bit sums are exact for up to 16843009 pixels |
| AreaCapture.WhiteFitsIff | als/default/AreaCapture.cpp:85 | an all-white picture is summed exactly if and only if it has no more pixels than that |
| AreaCapture.MeanIsBetween | als/default/AreaCapture.cpp:94-97 | the mean lies between the region's bounds, hence in [0,255] |
| AlsCorrection.Corrector.ScaleRanges | sensors/AlsCorrection.cpp:149-153 | every bucket's limits are divided by the calibrated gain; the first starts at -1 |
| AlsCorrection.Corrector.constructor | sensors/AlsCorrection.cpp:49-76 | the initial state forces an update, with an empty window |
| AlsCorrection.Corrector.TakeTime | sensors/AlsCorrection.cpp:177-193 | the clock part: first call, forcing after three seconds, throttle at 100 ms |
| AlsCorrection.Corrector.Evaluate | sensors/AlsCorrection.cpp:216-220 | the coefficient loop evaluates the polynomial |
| AlsCorrection.Corrector.Recompute | sensors/AlsCorrection.cpp:208-274 | after a capture: accepted corrections set window, gain and cache, rejected ones report the cache |
| AlsCorrection.Corrector.Estimate | sensors/AlsCorrection.cpp:208-232 | the screen's light: polynomials per channel, scaled, at most full white and at least the gamma estimate |
| AlsCorrection.Corrector.ChooseGain | sensors/AlsCorrection.cpp:237-250 | the gain of the last calibration point that the estimate exceeds, above the threshold |
| AlsCorrection.Corrector.ChooseWindow | sensors/AlsCorrection.cpp:258-264 | the window of the first bucket whose middle is not below the value |
| AlsCorrection.Corrector.Process | sensors/AlsCorrection.cpp:165-279 | state and event after one call are those of the specification: throttle, forcing, capture, correction, cache |
| AlsLaws.ScreenIs | sensors/AlsCorrection.cpp:208-230 | the estimate is the positive cubics of red, green and blue less the cubic of white, at the display's share of its brightness, at most full white and at least the gamma share of it |
| AlsLaws.ScreenIsMonotone | sensors/AlsCorrection.cpp:215-230 | larger parts of the colours never lower the estimate, and a larger part of white never raises it |
| AlsLaws.ReadingIs | sensors/AlsCorrection.cpp:170-256 | what is left of a reading without offset and screen, never negative, and its value in lux |
| AlsLaws.ExceedsIs | sensors/AlsCorrection.cpp:239-246 | when a gain estimate lies above a calibration point, by products instead of quotients |
| AlsLaws.GainIs | sensors/AlsCorrection.cpp:133-250 | up to 800 lux at the base gain that gain counts; above, the last point that the estimate lies above |
| AlsLaws.WindowIs | sensors/AlsCorrection.cpp:49-63 | the window that each value sets, in lux |
| AlsLaws.CallIs | sensors/AlsCorrection.cpp:165-279 | what one call does: dropped when within 100 ms or the capture failed; captured when pending or news; used unless unbelievable; reported less 14; otherwise the last value |
| AlsLaws.StateKnowsPasses | sensors/AlsCorrection.cpp:177-193 | over every run the state knows the last of the calls that came at least 100 ms after the one before |
| AlsLaws.StateKnowsForcings | sensors/AlsCorrection.cpp:177-185 | and the last of those with the display on that came more than three seconds after the one before |
| AlsLaws.ThrottledIff | sensors/AlsCorrection.cpp:186-191 | an event is throttled exactly when it comes less than 100 ms after the last one that was not |
| AlsLaws.DarkDisplayReports | sensors/AlsCorrection.cpp:165-269 | with the display off and up to 800 lux, a captured reading is reported as its value in lux less 14 |
| AlsStability.ScreenIsBounded | sensors/AlsCorrection.cpp:208-232 | the estimate lies between 0 and full white for every colour |
| AlsStability.GrayIsGray | sensors/AlsCorrection.cpp:208-213 | the gray value of a colour, divided by 255, lies in [0,1] |
| AlsStability.BucketBounds | sensors/AlsCorrection.cpp:49-63 | the chosen bucket reaches up to the value, and down to it except between 0 and 1 |
| AlsStability.WindowContainsReading | sensors/AlsCorrection.cpp:256-264 | with any automatic gain the window contains the reading exactly when the reading lies in the bucket of the value; a higher gain never puts it above, a lower one puts it below exactly under 1 lux |
| AlsStability.WindowAfterCorrection | sensors/AlsCorrection.cpp:195-264 | the same of the state that an accepted correction leaves |
| AlsStability.RepeatedReadingNeedsCapture | sensors/AlsCorrection.cpp:195-198 | with any gain, repeating the reading unforced needs a capture exactly when the reading lies neither in the bucket of the value nor in the quiet band |
| AlsStability.RepeatedReadingIsStable | sensors/AlsCorrection.cpp:195-198 | with the base gain it needs none exactly when the value is 0 or the reading at least 1 lux |
| AlsStability.SecondCallReusesCache | sensors/AlsCorrection.cpp:165-279 | of two equal readings, the second past the throttle and unforced, the second reports what the first did under exactly that condition, with any gain; otherwise it is dropped or corrected anew |
| AlsStability.HalfLuxEscapes | sensors/AlsCorrection.cpp:51-52 | from the initial state, half a lux with the display off is corrected, and captured again when it is repeated |
| AlsStability.LowGainEscapes | sensors/AlsCorrection.cpp:237-264 | from the initial state, 1000 lux with a tenth of the base gain are corrected, and captured again when they are repeated |
| AlsStability.QuietReadingIsServed | sensors/AlsCorrection.cpp:195-198 | from the initial state, with a twentieth of the base gain, they lie outside the window and are served from the cache all the same |
| AlsStability.StateCachesLastCorrection | sensors/AlsCorrection.cpp:253-274 | the cached value is the last correction of the run; until there is one an update stays forced |
| AlsStability.OutputIsLastCorrection | sensors/AlsCorrection.cpp:253-278 | over every run an event that is not dropped carries the most recent correction, and there is one |
| AlsStability.PassesAreApart | sensors/AlsCorrection.cpp:177-193 | calls that get past the throttle are at least 100 ms apart |
| AlsStability.FailedCaptureKeepsCache | sensors/AlsCorrection.cpp:200-205 | a failed capture drops the event and leaves window, gain, cached value and force flag alone |
| AlsStability.ForcingRefreshes | sensors/AlsCorrection.cpp:181-204 | after three seconds with the display on, the next unthrottled call captures the screen and is dropped or accepted |
| AlsStability.GainIsLastExceeded | sensors/AlsCorrection.cpp:237-249 | the gain is that of the last calibration point the estimate exceeds, or the base gain |
| AlsStability.HornerIsCubic | sensors/AlsCorrection.cpp:216-220 | the loop evaluates the cubic polynomial |
| AlsStability.MeansAreColours | als/default/AreaCapture.cpp:94-97 | the means that the capture service returns are what the correction expects |
| PathOrder.ComparatorIsTreeOrder | reorder-libs.py:23-56 | the comparator is the tree order (subdirectories before files, then code points) except on inverted pairs, where it is the opposite |
| PathOrder.PathsAntisymmetric | reorder-libs.py:23-56 | comparing the other way round negates the result; only equal paths compare equal |
| LineOrder.LinesAreTotal | reorder-libs.py:31-56 | any two non-empty lines compare, and are equal only up to one leading hyphen |
| LineOrder.TangledIsCycle | reorder-libs.py:47-56 | three tangled paths go round in a circle |
| LineOrder.CycleIsTangled | reorder-libs.py:47-56 | a circle through an inverted pair is a tangled triple |
| LineOrder.IntransitiveIsTangled | reorder-libs.py:23-56 | the comparator fails to be transitive on three paths only if they are tangled |
| LineOrder.PreorderIffUntangled | reorder-libs.py:23-56 | on non-empty lines the comparator is a total preorder if and only if no three of them are tangled |
| LineOrder.CircularExample | reorder-libs.py:23-56 | `p`, `p-` and `p/q/x` go round in a circle |
| LineLaws.HyphenIsIgnored | reorder-libs.py:31-33 | one leading hyphen on either line does not matter: the paths behind are compared |
| LineLaws.TiesAreHyphens | reorder-libs.py:31-56 | two lines tie exactly when they are equal or one is the other behind a hyphen |
| LineLaws.HyphensKeepOrder | reorder-libs.py:87 | a line and its hyphened form keep their order |
| LineLaws.FilesByName | reorder-libs.py:43-45 | files of one directory compare by name |
| LineLaws.SubdirectoriesFirst | reorder-libs.py:47-53 | what lies in a subdirectory comes before the files of the directory |
| LineLaws.NameAgainstItsDirectory | reorder-libs.py:40-53 | a name without a directory comes before the files of the directory of that name and after its subdirectories |
| LineLaws.UnrelatedByString | reorder-libs.py:55-56 | files whose directories do not lie in one another compare as strings |
| LineLaws.UnrelatedName | reorder-libs.py:55-56 | so do a name and a file in an unrelated directory |
| LineLaws.LineExamples | reorder-libs.py:23-56 | two pairs of lines, as they are encoded |
| LineSort.SortSorts | reorder-libs.py:87 | sorting untangled lines sorts them |
| LineSort.SortKeepsLines | reorder-libs.py:87 | sorting keeps every line as often as it occurs |
| LineSort.SortIsStable | reorder-libs.py:87 | lines that differ only by a leading hyphen keep their order |
| LineSort.StableSortIsUnique | reorder-libs.py:87 | any two sorted stable arrangements of the same lines are equal |
| LineSort.ListSortIsUnique | reorder-libs.py:87 | on untangled lines whatever `list.sort` may give is the one sorted stable arrangement |
| LineSort.SortStringsSorts | reorder-libs.py:93-94 | sorting sections orders them and keeps each |
| TextFile.LinesConcat | reorder-libs.py:84 | every line break separates lines |
| TextLaws.BreaksAre | reorder-libs.py:84 | the line breaks, one by one |
| TextLaws.SpacesAre | reorder-libs.py:84 | the white space, one by one |
| TextLaws.IndentationIsDropped | reorder-libs.py:84 | white space around a line is taken off and the line is kept |
| TextLaws.BlankIsDropped | reorder-libs.py:84 | a line of white space alone is dropped |
| TextLaws.OneSection | reorder-libs.py:78 | a text without a blank line is one section |
| TextLaws.FirstBlankLineCuts | reorder-libs.py:78 | a text is cut at its first two newlines in a row, and after them again |
| TextLaws.JoinedOneByOne | reorder-libs.py:90-98 | lines are joined by one newline, sections by two |
| TextLaws.WrittenIsTrimmed | reorder-libs.py:98 | what is written ends in one newline and has no other white space at its ends |
| TextLaws.RewriteKeepsInk | reorder-libs.py:75-98 | every character that is not white space is kept, as often as it occurs, for every text and however `list.sort` arranges tangled lines |
| TextFile.LinesRoundTrip | reorder-libs.py:84-90 | splitting joined clean lines gives them back |
| TextFile.SectionsRoundTrip | reorder-libs.py:77-98 | splitting the written file at blank lines gives back the lines of the sections that were joined |
| TextFile.SplitThenJoin | reorder-libs.py:77-98 | joining the sections of a text gives the text back |
| FileRewrite.RewriteFile | reorder-libs.py:75-98 | the loop over sections writes one of the texts that the specification allows for the way `list.sort` arranges lines |
| FileRewrite.OrderlyRewriteIsUnique | reorder-libs.py:75-98 | on texts with untangled sections there is exactly one such text |
| FileRewrite.RewriteIsIdempotent | reorder-libs.py:75-98 | on untangled sections, whatever may be written for what may have been written is that text again, with or without section sorting |
| FileRewrite.RewriteIsSorted | reorder-libs.py:75-98 | what is read back has sorted sections, themselves in order when asked for |
| FileRewrite.RewriteKeepsLines | reorder-libs.py:75-98 | the multiset of stripped non-blank lines is kept, for every text and however `list.sort` arranges tangled lines |
| FileRewrite.RewriteKeepsSections | reorder-libs.py:75-98 | without section sorting, for every text, the sections read back are those of the text in place, each with its own lines as arranged, up to empty sections at the ends |

## Left out

- FMQ, binder, `dlopen`, event flags, condition-variable wake-ups, `debug` dumps and real clocks: their outcomes are inputs.
- `activate`, `batch`, `flush` and `injectSensorData` beyond the index check and the handle translation that they share.
- `configDirectReport`, `registerDirectChannel` and the two sensor-list getters: thin calls that add no property.
- Unbounded growth of 64-bit counters: the reference count and the size counter are not wrapped on addition; the subtraction is.
- The `ALOG_ASSERT` contract of `postEvents` is compiled out of release builds; it is the hypothesis `Contract` of the run lemmas.
- Property and sysfs reading in `AlsCorrection::init`, and the display maxima it derives: parameters of the configuration.
- IEEE rounding, infinities and NaN, apart from the unbounded last bucket, an infinite gain estimate, and the mean of an empty region.
- HalProxyObject.HalProxy.StopThreads: does not drain the event FMQ or join the threads; `InitializeCommon` starts after the join.
- HalProxyObject.HalProxy.InitializeCommon: does not deactivate the sensors, which changes nothing of the proxy, and takes what the sub-HALs' `initialize` does to their modes as an input.
- FileRewrite.RewriteIsIdempotent: asks that every section be untangled, because elsewhere the comparator is no order and `list.sort` promises no particular result.
- `reorder-libs.py`: the prompt, file access and the exception for strings with a NUL character.
- The wrappers, touch, power, lights, init, apps and build files: tables and thin calls with no logic of this depth.
