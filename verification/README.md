# DELTA-V flight software: a verified model

DELTA-V is a small flight-software framework: components joined by lock-free queues, hubs that
route commands, telemetry and events, framing for two links, a fault supervisor, schedulers, and a
generator that turns a topology file into the wiring. This project models its core in Dafny and
proves what the code promises, over every input, every run and every interleaving.

The modules follow the source:

| file | models |
|---|---|
| `Port.dfy`, `SpscQueue.dfy` | the ring buffer, used by one thread and, one atomic load or store at a time, by a producer and a consumer |
| `Hubs.dfy` | the telemetry and event hubs |
| `Lfsr.dfy`, `Words.dfy`, `Serializer.dfy` | cyclic codes over bit registers of any width, machine words and bytes, packets, CRC-16 and frames, flight and ground |
| `Cobs.dfy`, `Kiss.dfy` | the two framings, as in-place array algorithms and as functions |
| `TelemetryBridge.dfy` | the uplink: byte parser, frame checks, anti-replay with restarts |
| `ParamDb.dfy`, `ParamDbConcurrent.dfy` | the parameter table with its CRC-32, sequentially and under any number of threads |
| `TimeService.dfy` | the compare-and-swap loop that keeps UTC monotone |
| `TmrStore.dfy`, `MissionFsm.dfy`, `Watchdog.dfy`, `WatchdogComponent.dfy` | voted stores, command gate, supervisor (specification with its run theorems, and class) |
| `CommandHub.dfy`, `FlightSystem.dfy` | the command router, and router and supervisor interleaved |
| `CommandSequencer.dfy`, `AtsRts.dfy`, `RateGroup.dfy` | the three schedulers |
| `Topology.dfy`, `Autocoder.dfy`, `AutocoderCorrect.dfy` | the generator: validation, the compiler to wiring statements with their meaning, its correctness |
| `Calls.dfy` | histories of concurrent calls: which operation served which call |
| `Health.dfy` | the error counter and event port of a component |
| `Counting.dfy`, `Wrappers.dfy` | shared helpers |

How it is stated. Code that updates fields or arrays is a class or a method with loops, and its
contract equates the new state with a function of the old one; the theorems are about those
functions. Threads are state machines whose steps are single loads, stores, compare-and-swaps and
mutex operations, taken as sequentially consistent. Bytes and words are bounded integers and
counters wrap explicitly; error counters of supervised components are kept unwrapped and read
modulo 2^32. Battery levels and float arguments are reals, a float argument that is not finite is
None. Clocks, outcomes of sends, free room in queues, persistence and errors recorded by other
threads are inputs.

Where the code does less than its comments or design promise, the model follows the code, and a
lemma says exactly when the promise holds: a zero inside a COBS block is not rejected
(`src/Cobs.hpp:101`; `ZeroRejectedIff`), the ground delivers frames cut short without checking them
(`GroundAcceptsIff`), a restart that finds stale storage admits the last number again
(`RestartRefusesLastIff`; `RestartSafeIff` is about the order of the accepted epoch pairs), a
sequencer delay above 2^31 ms is due at once (`NeverEarlyIff`), the slow tier of the threaded
executive gains a tick when its cycle counter wraps (`SlowRunsExactly`), a null or empty `op_class`
passes validation and its registration does not compile (`RegistrationsCompileIff`), the emitted
`verify` can fail on tables that are too small or on custom lines that send a checked output
elsewhere (`VerifyHoldsIff`), a step of an event hub with a source that is also a listener need not
end (`StepEndsIff`), and SAFE_MODE for a restarted component can be lifted in the step that entered
it, for a parameter mismatch in the next (`RecoveryExactly`).

Check everything with `dafny verify dfyconfig.toml`.

## Model

| member | source | states |
|---|---|---|
| `Port.RingBuffer.Push` | src/Port.hpp:29-40 | The circular array behaves as a bounded FIFO: the item is appended when there is room, otherwise only the overflow count rises |
| `Port.RingBuffer.Pop` | src/Port.hpp:42-50 | The oldest item leaves the queue; an empty queue is left alone |
| `Port.RingBuffer.Size` | src/Port.hpp:61-68 | The index arithmetic gives the number of queued items in both wrap cases |
| `Port.RingBuffer.IsFull` | src/Port.hpp:56-59 | True exactly when the capacity is used up |
| `Port.RingBuffer.DrainOverflowCount` | src/Port.hpp:70-72 | Hands over the count and clears it, items untouched |
| `Port.PushAllKeepsPrefix` | src/Port.hpp:29-40 | Of any batch the queue keeps the longest prefix that fits and counts the rest, modulo 2^32 |
| `SpscQueue.NextInv` | src/Port.hpp:29-50 | Each single load or store, by either thread, keeps the invariant that ties indices, slots and history together |
| `SpscQueue.NoDataRace` | src/Port.hpp:33-35 | When the producer may write and the consumer may read, they hold different slots |
| `SpscQueue.IndicesInRange` | src/Port.hpp:35-48 | No step of a run indexes outside the buffer |
| `SpscQueue.StepRefines` | src/Port.hpp:29-50 | Each step changes the abstract queue by exactly the operation that takes effect there, if any, and legally |
| `SpscQueue.Linearizable` | src/Port.hpp:29-50 | Over every interleaving of one producer and one consumer the operations form a legal history of a sequential bounded FIFO, and every call that returns was served by exactly one of them, between its first and last step, with its item and its result |
| `SpscQueue.PoppedIsPrefix` | src/Port.hpp:29-76 | Popped items are always a prefix of accepted ones, at most Capacity are outstanding, and attempts equal accepted plus overflows (drained and current, modulo 2^32) |
| `SpscQueue.UninterruptedPush` | src/Port.hpp:29-40 | The atomic steps of one push, run alone, are the sequential push |
| `Hubs.TelemHub.Step` | src/TelemHub.hpp:24-35 | One step empties every input and broadcasts their concatenation in registration order |
| `Hubs.TelemHub.ConnectInput` | src/TelemHub.hpp:37-46 | The next free input index, or an error when all are used |
| `Hubs.TelemHub.RegisterListener` | src/TelemHub.hpp:48-63 | A null listener and one too many are refused and cost an error |
| `Hubs.EventHub.Step` | src/EventHub.hpp:36-48 | Draining source by source, every event to every listener, for every step that ends: no source that holds events comes before, or is, a source that listens |
| `Hubs.EventHub.RegisterEventSource` | src/EventHub.hpp:51-59 | The next source; one past the limit is dropped and, unlike in the other hub, costs no error |
| `Hubs.EventHub.RegisterListener` | src/EventHub.hpp:62-71 | The next listener, null or not; one past the limit is dropped without an error |
| `Hubs.FeedbackNeverEnds` | src/EventHub.hpp:36-48 | A source that listens and holds an event when its turn comes is emptied by no number of turns of the drain loop |
| `Hubs.StepEndsIff` | src/EventHub.hpp:36-48 | Which steps end, told from the queues before the step: exactly those in which no source that holds events comes before, or is, a source that listens; any other step reaches a source that no number of turns empties |
| `Hubs.FeedbackExample` | src/EventHub.hpp:36-48 | A hub whose only source, holding one event, is its only listener never ends its step |
| `Hubs.DrainedIsBroadcast` | src/EventHub.hpp:36-48 | A step that ends has the effect of one broadcast of all gathered events over emptied sources, and leaves every source empty that does not listen |
| `Hubs.FanOutAllAtPort` | src/TelemHub.hpp:24-35 | Every port receives the items in order, each as often as the port is registered, keeping the longest prefix that fits; other ports are untouched |
| `Hubs.FanOutAllErrors` | src/TelemHub.hpp:28-32 | For any registrations, repeated and unconnected ones included: every copy is queued in a registered port or dropped, and the error count of the hub grows by exactly the number of dropped copies |
| `Hubs.QueuedIsRoom` | src/TelemHub.hpp:24-35 | The queues grow by exactly what fits: no copy is dropped while its port has room |
| `Serializer.PackRoundTrip` | src/Serializer.hpp:35-56 | Unpacking a packed packet of each of the three kinds gives it back |
| `Serializer.UnpackRoundTrip` | src/Serializer.hpp:35-56 | Packing unpacked bytes gives the bytes back |
| `Serializer.FlightCrc16` | src/Serializer.hpp:63-74 | The loop with a 32-bit variable masked after every bit computes the bit-serial CRC of section 4.1.6 of CCSDS 132.0-B |
| `Serializer.GroundCrc16` | gds/gds_dash.py:79-86 | The Python loop, which masks once per byte, computes the same CRC on every byte string |
| `Serializer.BuildFrame` | src/TelemetryBridge.hpp:702-722 | Header, payload and CRC high byte first |
| `Serializer.GroundReceive` | gds/gds_dash.py:299-311 | The receive loop, with Python slices clamped at the end of the datagram, computes the ground parser |
| `Serializer.FrameRoundTrip` | src/TelemetryBridge.hpp:702-722 | The ground recovers exactly the APID and payload of every frame the flight side builds, for every length below 2^16 |
| `Serializer.AcceptedIffResidueZero` | src/Serializer.hpp:63-74 | Payload and CRC agree exactly when they leave the register at zero |
| `Serializer.BurstErrorBreaksCrc` | src/Serializer.hpp:63-74 | No nonzero error within 16 consecutive bits of payload and CRC goes unnoticed, for every payload length |
| `Serializer.BurstErrorRejected` | gds/gds_dash.py:306-311 | So the ground rejects every frame hit by such an error |
| `Serializer.GroundAcceptsIff` | gds/gds_dash.py:299-311 | Exactly which datagrams the ground delivers, for any bytes: behind a good header those whose CRC matches and those too short to be checked |
| `Serializer.TruncatedFrameUnchecked` | gds/gds_dash.py:308-311 | A frame cut anywhere behind its twelfth byte is delivered unchecked, the payload or the part of it that arrived; cut earlier it is ignored |
| `Cobs.Encode` | src/Cobs.hpp:50-79 | The in-place encoder writes the specified blocks and delimiter and nothing behind them, or writes nothing when the buffer is below the bound |
| `Cobs.Decode` | src/Cobs.hpp:92-114 | The in-place decoder computes the specified decoding with its framing errors |
| `Cobs.RoundTrip` | src/Cobs.hpp:50-114 | Decoding an encoded payload gives it back for every length, exactly when the output holds it |
| `Cobs.BlocksZeroFree` | src/Cobs.hpp:5-12 | No byte before the delimiter is zero |
| `Cobs.EncodedSize` | src/Cobs.hpp:34-36 | The exact frame length, which respects the bound, and attains it on every zero-free payload |
| `Cobs.EncodeOfDecoded` | src/Cobs.hpp:92-114 | On zero-free input the encoder is the only inverse of the decoder, up to the empty block after a full last block |
| `Cobs.DecodedIff` | src/Cobs.hpp:92-114 | On any bytes, zeros or not: exactly the strings whose codes are nonzero and stay inside decode, into exactly the buffers that hold the result |
| `Cobs.ZeroInsideBlockAccepted` | src/Cobs.hpp:100-107 | A zero inside a block is not the framing error that the comment announces |
| `Cobs.ZeroRejectedIff` | src/Cobs.hpp:92-114 | Exactly when it is: a byte of a frame that turns zero is noticed if and only if it was a code |
| `Cobs.StreamRecovered` | src/Cobs.hpp:5-12 | Cutting a stream of frames at zeros and decoding the pieces recovers the payload list |
| `Cobs.StreamRecoveredAfterNoise` | src/Cobs.hpp:5-12 | After a lost tail of any zero-free bytes the first delimiter resynchronises the receiver |
| `Cobs.CobsFrame.constructor` | src/Cobs.hpp:131-135 | The fixed buffer holds the encoding of any payload of up to 22 bytes, and length 0 for a longer one |
| `Cobs.CobsFrame.Recover` | src/Cobs.hpp:137-150 | Succeeds exactly on a delimited frame that decodes, the empty payload included; a length beyond the buffer is refused |
| `Cobs.FrameRoundTrip` | src/Cobs.hpp:127-151 | The frame of every payload, the empty one too, is accepted and gives it back |
| `Kiss.PushEscaped` | src/TelemetryBridge.hpp:779-805 | One byte, escaped as section PROTOCOL of RFC 1055 says, or nothing when it does not fit |
| `Kiss.EncodeFrame` | src/TelemetryBridge.hpp:807-829 | The encoder writes the escaped frame, and returns 0 exactly when there is none or it does not fit |
| `Kiss.WireBound` | src/TelemetryBridge.hpp:87-94 | Every downlink frame fits MAX_KISS_WIRE_FRAME, which only a frame of 48 special bytes fills |
| `Kiss.FeedFrame` | src/TelemetryBridge.hpp:843-892 | From any parser state the bytes of one encoded frame deliver at most one leftover and then the frame, or drop it whole when it is too long |
| `Kiss.Resynchronises` | src/TelemetryBridge.hpp:843-892 | From any parser state a concatenation of encoded frames delivers at most one leftover and then exactly the frames that fit, in order |
| `Kiss.CollectedAll` | src/TelemetryBridge.hpp:843-892 | When all fit, the delivered list is the sent list |
| `TelemetryBridge.Component.ProcessSerialByte` | src/TelemetryBridge.hpp:843-892 | The byte parser with its fixed buffer computes the specified step of parser, replay state and counters |
| `TelemetryBridge.Component.ProcessDecodedKissFrame` | src/TelemetryBridge.hpp:831-841 | Short frames and frames that are not data frames are rejected |
| `TelemetryBridge.Component.ProcessIncomingFrame` | src/TelemetryBridge.hpp:966-1021 | Checks, replay window, delivery and persistence in this order; the whole new state |
| `TelemetryBridge.Component.constructor` | src/TelemetryBridge.hpp:610-652 | Replay state loaded from storage; a value out of range counts an error and leaves the first-frame exemption open |
| `TelemetryBridge.FreshByDistance` | src/TelemetryBridge.hpp:987-998 | Exactly which forward distances on the 16-bit circle are accepted |
| `TelemetryBridge.NextNumbersAccepted` | src/TelemetryBridge.hpp:987-1021 | With room in the queue every well-formed frame 1 to 255 ahead is accepted, over the wrap too |
| `TelemetryBridge.Distance256CanBeRejected` | src/TelemetryBridge.hpp:987-998 | And 255 is the largest distance of which that holds |
| `TelemetryBridge.AcceptedStrictlyIncrease` | src/TelemetryBridge.hpp:966-1021 | Over every run with any wraps and restarts, accepted (epoch, sequence) pairs strictly increase, as long as each restart finds a stored number that is not behind the last accepted one |
| `TelemetryBridge.RestartUnsafe` | src/TelemetryBridge.hpp:610-652 | The converse, from every state: after any other restart the pair accepted last is accepted once more |
| `TelemetryBridge.RestartSafeIff` | src/TelemetryBridge.hpp:610-652 | So a restart keeps the epoch pairs in order against every next frame if and only if storage is not behind |
| `TelemetryBridge.RestartRefusesLastIff` | src/TelemetryBridge.hpp:610-652 | The number accepted last is refused after a restart if and only if storage is not behind it and it does not look like a wrap from what storage holds |
| `TelemetryBridge.LastNeverRepeated` | src/TelemetryBridge.hpp:966-1021 | Over every run whose restarts meet that condition no number is accepted twice in succession, in whatever epochs, and the last one is always refused |
| `TelemetryBridge.SkippedWriteReplays` | src/TelemetryBridge.hpp:610-652 | From power-on: one skipped write and a restart, and the same frame is accepted twice in one epoch |
| `TelemetryBridge.SkippedWrapReplays` | src/TelemetryBridge.hpp:610-652 | From power-on: a skipped write of a wrap leaves storage ahead, and still the same frame is accepted twice, in two epochs |
| `TelemetryBridge.RejectedLeavesState` | src/TelemetryBridge.hpp:966-1009 | A frame that is not accepted is counted, as an error too when the queue was full, and changes neither the parser nor the judgement of any later frame |
| `TelemetryBridge.RestartGuardsLast` | src/TelemetryBridge.hpp:610-652 | After a restart a number is refused, in whatever epoch, if and only if storage holds one that is not behind it and from which it does not look like a wrap |
| `TelemetryBridge.SerialIsFrames` | src/TelemetryBridge.hpp:831-892 | From any state, the bytes of encoded frames have the effect on the whole component of receiving what the parser had collected and then the frames one after the other, those too long being dropped |
| `TelemetryBridge.SerialUplinkDelivers` | src/TelemetryBridge.hpp:831-1021 | From any state, and whatever queue and storage do at each byte: encoded command frames in sequence reach the command hub all, once and in order, except those whose last byte meets a full queue; these may be sent again, and are counted as rejected like every frame in the stream that is too long, empty or malformed |
| `ParamDb.ComputeCrc32` | src/ParamDb.hpp:67-76 | The reflected loop with its mask computes the CRC-32 of section 8 of RFC 1952 |
| `ParamDb.WordChangeDetected` | src/ParamDb.hpp:67-76 | Two messages that differ in four adjacent bytes have different CRC-32s |
| `ParamDb.CorruptionChangesChecksum` | src/ParamDb.hpp:313-322 | For a table of any size, changing one value or one id changes the checksum |
| `ParamDb.VerifyAfterCorruption` | src/ParamDb.hpp:141-144 | So verifyIntegrity returns false after such a change to a consistent table |
| `ParamDb.Table.GetParam` | src/ParamDb.hpp:83-109 | Look up, or insert the default while there is room, as an operation on a map |
| `ParamDb.Table.SetParam` | src/ParamDb.hpp:111-127 | Assign or insert while there is room |
| `ParamDb.Table.VerifyIntegrity` | src/ParamDb.hpp:141-144 | Succeeds on every state that the operations of the table leave |
| `ParamDb.Table.CalculateCurrentChecksum` | src/ParamDb.hpp:313-322 | CRC over the image of the published entries, 0 for none |
| `ParamDbConcurrent.NextInv` | src/ParamDb.hpp:83-144 | Every atomic step of any thread keeps ids distinct, the mutex exclusive and the checksum current outside the critical section |
| `ParamDbConcurrent.TableNext` | src/ParamDb.hpp:83-127 | Ids stay distinct and in place, and the count stays within 256 and never decreases |
| `ParamDbConcurrent.StepRefines` | src/ParamDb.hpp:83-144 | Each step changes the abstract map exactly as its effect says, and legally |
| `ParamDbConcurrent.Linearizable` | src/ParamDb.hpp:83-144 | Any number of threads, any interleaving: lookups, insertions, assignments and checks form a legal history of a map of at most 256 ids, and every call that returns was served by exactly one of them, between its first and last step, on its id and value and with its result |
| `ParamDbConcurrent.IntegrityNeverFails` | src/ParamDb.hpp:141-144 | From power-on no call of verifyIntegrity returns false without corruption from outside |
| `ParamDbConcurrent.IndicesInRange` | src/ParamDb.hpp:83-127 | No access of any thread lies outside the table |
| `TimeService.GetUtcUnixMs` | src/TimeService.hpp:77-95 | The retry loop returns the larger of its own raw time and what it last saw in the cell |
| `TimeService.CellNeverDecreases` | src/TimeService.hpp:85-93 | No step of any thread, with offsets set at will and spurious failures, lowers the committed time |
| `TimeService.UtcIsMonotone` | src/TimeService.hpp:66-95 | Commits never decrease, each is the larger of raw time and the commit before it, each call returns its commit, and a call begun after another returned never returns less |
| `TmrStore.VoteIsMajority` | src/TmrStore.hpp:175-181 | The vote is the majority when there is one and the first copy when there is none |
| `TmrStore.SingleUpsetHealed` | src/TmrStore.hpp:175-181 | Any corruption of any one copy is outvoted |
| `TmrStore.Store.Write` | src/TmrStore.hpp:125-128 | All three copies take the value |
| `TmrStore.Store.Read` | src/TmrStore.hpp:130-135 | Returns the vote and heals the copies to it |
| `TmrStore.Store.Scrub` | src/TmrStore.hpp:142-148 | Heals to the vote |
| `TmrStore.Registry.Register` | src/TmrStore.hpp:37-53 | Incomplete, repeated and surplus registrations are ignored |
| `TmrStore.Registry.Unregister` | src/TmrStore.hpp:55-70 | Swap-with-last removal removes exactly that store |
| `TmrStore.Registry.ScrubAll` | src/TmrStore.hpp:79-87 | Every registered store ends healed to its own vote |
| `MissionFsm.PolicyByClass` | src/MissionFsm.hpp:68-84 | The gate class by class: which states admit housekeeping, operational and restricted commands |
| `MissionFsm.GateClosesWithSeverity` | src/MissionFsm.hpp:68-84 | After BOOT, getting worse never opens the gate |
| `WatchdogComponent.Component.Step` | src/WatchdogComponent.hpp:134-159 | The whole step, on fields and heap stores, is the specified one |
| `WatchdogComponent.Component.ProcessBattery` | src/WatchdogComponent.hpp:189-211 | Thresholds, last level, reports and escalation of one battery sample |
| `WatchdogComponent.Component.CheckBattery` | src/WatchdogComponent.hpp:182-187 | The drain loop is that for each sample in order |
| `WatchdogComponent.Component.CurrentBatteryThresholds` | src/WatchdogComponent.hpp:271-306 | The voted thresholds when set and sane, the defaults otherwise, with the fault latch and the healing of the stores |
| `WatchdogComponent.Component.CheckSubsystems` | src/WatchdogComponent.hpp:213-241 | The supervision loop over all slots and the escalation after it |
| `WatchdogComponent.Component.HandleCritical` | src/WatchdogComponent.hpp:308-342 | Restart within the budget, EMERGENCY beyond it, a report only for a component without a thread |
| `WatchdogComponent.Component.AllNominal` | src/WatchdogComponent.hpp:250-259 | The poll that stops at the first slot that is not nominal |
| `WatchdogComponent.Component.TryRecoverNominal` | src/WatchdogComponent.hpp:244-269 | Recovery from DEGRADED or SAFE_MODE |
| `WatchdogComponent.Component.PeriodicChecks` | src/WatchdogComponent.hpp:141-150 | Every thirtieth cycle the parameter check and the scrub, in this order |
| `WatchdogComponent.Component.Escalate` | src/WatchdogComponent.hpp:344-354 | The state only gets more severe, and a change is reported |
| `WatchdogComponent.Component.ReportHealth` | src/Component.hpp:47-53 | Health from the error counter read modulo 2^32 |
| `WatchdogComponent.Component.RegisterSubsystem` | src/WatchdogComponent.hpp:74-80 | The next slot with a fresh budget; ignored when all 32 are used |
| `WatchdogComponent.Component.Init` | src/WatchdogComponent.hpp:65-72 | NOMINAL with a full battery assumed |
| `Watchdog.BatterySafety` | src/WatchdogComponent.hpp:182-211 | For all stored thresholds, sane or not: after a step that consumed samples the state is at least as severe as the last sample demands of the thresholds in force |
| `Watchdog.EverySampleCounts` | src/WatchdogComponent.hpp:182-211 | Every sample of the step counts, not only the last: the state is at least as severe as it demands unless the step recovers, and EMERGENCY in any case |
| `Watchdog.RecoveryExactly` | src/WatchdogComponent.hpp:134-150 | What a step ends in, exactly: what its checks found is lifted if and only if it was DEGRADED or SAFE_MODE, every polled slot is nominal and the last level is above min(degraded + 2, 100); a failed parameter check then raises it; NOMINAL in no other way |
| `Watchdog.EmergencyIsFinal` | src/WatchdogComponent.hpp:344-354 | No run leaves EMERGENCY |
| `Watchdog.RestartBudget` | src/WatchdogComponent.hpp:321-341 | Over every run each slot is restarted at most three times, and an error counter falls only if a slot of a component with a thread was charged for it |
| `Watchdog.BudgetSpentIsEmergency` | src/WatchdogComponent.hpp:321-340 | A critical report of a component with a thread whose budget is spent leaves the step in EMERGENCY |
| `Watchdog.PassiveFaultBlocksNominal` | src/WatchdogComponent.hpp:213-269 | Once a monitored component without a thread has three errors, no later step of any run ends in NOMINAL, as long as its counter does not wrap |
| `Watchdog.ParamFaultIsSafeMode` | src/WatchdogComponent.hpp:141-150 | A failed parameter check leaves the step at least in SAFE_MODE, whatever recovery did before it |
| `Watchdog.ThresholdsSurviveUpsets` | src/WatchdogComponent.hpp:271-299 | One upset copy of each threshold store changes neither the thresholds in force nor what the stores heal to |
| `Watchdog.FaultReportedOnce` | src/WatchdogComponent.hpp:285-298 | A configuration fault or its repair is reported once: reading again changes nothing |
| `Watchdog.ParamFaultLiftedNextStep` | src/WatchdogComponent.hpp:134-150 | SAFE_MODE entered for a parameter mismatch can be lifted by the next step |
| `Watchdog.RestartedComponentRecoversAtOnce` | src/WatchdogComponent.hpp:213-269 | SAFE_MODE entered for a restarted component can be lifted in the same step |
| `CommandHub.Hub.RegisterRoute` | src/CommandHub.hpp:58-76 | A null port, a repeated component and a full table are refused and cost an error |
| `CommandHub.Hub.RegisterCommandPolicy` | src/CommandHub.hpp:78-97 | The first policy stays; a differing repetition, target 0 and a full table cost an error |
| `CommandHub.Hub.ClassifyCommand` | src/CommandHub.hpp:113-122 | The class of the first matching policy, OPERATIONAL without one |
| `CommandHub.Hub.DispatchCommand` | src/CommandHub.hpp:124-168 | Ports, acknowledgement queue, error counter and record after one command, in each of the four endings |
| `CommandHub.Hub.Step` | src/CommandHub.hpp:51-56 | The drain loop dispatches the queued commands in order |
| `CommandHub.WithPolicyLookup` | src/CommandHub.hpp:78-97 | One registration changes the class of no command but its own, and that only if it had none |
| `CommandHub.FirstRegisteredWins` | src/CommandHub.hpp:78-122 | After any list of registrations that fits, each command has the class it was first registered with |
| `CommandHub.DistinctRoutesRegistered` | src/CommandHub.hpp:58-76 | Routes to distinct components all go in, in order |
| `CommandHub.DeliveredIff` | src/CommandHub.hpp:124-168 | A command is delivered exactly when its class is allowed, a route exists and the queue has room; then it is the last item there and no other queue changed |
| `FlightSystem.CommandsAccountedFor` | src/CommandHub.hpp:51-168 | Over every interleaving with the watchdog: accepted commands are the recorded ones followed by the queued ones, delivered ones were allowed in the state they were judged in, each port received its deliveries once and in order, and errors equal undelivered commands plus failed acknowledgements |
| `FlightSystem.NothingDeliveredInEmergency` | src/CommandHub.hpp:126-138 | Once EMERGENCY is entered every later command is blocked |
| `FlightSystem.HubFailuresBlockNominal` | src/CommandHub.hpp:142-167 | After three failures of the hub no later supervision step ends in NOMINAL while the hub is monitored and its counter does not wrap |
| `CommandSequencer.DueIff` | src/CommandSequencerComponent.hpp:168-171 | Over any number of clock wraps the 32-bit comparison agrees with the unbounded clock, for delays up to 2^31 ms and scans less than 2^31 ms late |
| `CommandSequencer.NeverEarlyIff` | src/CommandSequencerComponent.hpp:84-171 | A commit is never released early if and only if its delay is at most 2^31 ms |
| `CommandSequencer.AttemptedOnceOnTime` | src/CommandSequencerComponent.hpp:48-90 | Over every run each command with such a delay is attempted by the first scan at or after its due time, or was cleared before, or no scan has reached its due time |
| `CommandSequencer.FinalSettles` | src/CommandSequencerComponent.hpp:53-67 | A fate once settled never changes: no command is attempted twice or after a clear |
| `CommandSequencer.CommitsConserved` | src/CommandSequencerComponent.hpp:48-116 | Committed = sent + failed + cleared + queued |
| `CommandSequencer.ErrorsExplained` | src/CommandSequencerComponent.hpp:48-175 | Over every run the error counter equals failed attempts + refused commits + unknown commands + telemetry frames and reports not taken, modulo 2^32; and each command, refused commit and attempt is reported once |
| `CommandSequencer.Sequencer.ScheduleCommandInMs` | src/CommandSequencerComponent.hpp:77-90 | The first free slot; refusal exactly when there is none, which costs an error and a report |
| `CommandSequencer.Sequencer.ClearQueue` | src/CommandSequencerComponent.hpp:112-116 | Every slot is free afterwards and every waiting command is cleared |
| `CommandSequencer.Sequencer.HandleCommand` | src/CommandSequencerComponent.hpp:118-156 | The five opcodes on the staged command and the queue, with what each reports; any other costs an error |
| `CommandSequencer.Sequencer.Scan` | src/CommandSequencerComponent.hpp:54-67 | Due slots are released in slot order, the others kept; each attempt is reported, a failed one costs an error |
| `CommandSequencer.Sequencer.Step` | src/CommandSequencerComponent.hpp:48-75 | Commands first, each at its own clock reading, then the scan, then a telemetry frame with the number of queued commands |
| `AtsRts.DispatchedOnceOnTime` | src/AtsRtsSequencerComponent.hpp:149-227 | Over every run, whatever the clocks do, an entry is dispatched by the first armed pass that finds its time come; a relative one counts from the first matching event processed while armed; while pending no armed pass found it due |
| `AtsRts.NeverEarly` | src/AtsRtsSequencerComponent.hpp:174-227 | Never while disarmed, never before its trigger, a relative entry never without a matching event and its delay |
| `AtsRts.FinalSettles` | src/AtsRtsSequencerComponent.hpp:182-207 | An entry dispatched or cleared is never touched again |
| `AtsRts.CommitsConserved` | src/AtsRtsSequencerComponent.hpp:149-243 | Commits = dispatched + cleared + active |
| `AtsRts.ErrorsExplained` | src/AtsRtsSequencerComponent.hpp:65-243 | Over every run the error counter equals failed dispatches + refused commits + unknown commands + telemetry frames and reports not taken, modulo 2^32; and each command that stages nothing, each started entry and each dispatch is reported once |
| `AtsRts.Sequencer.CommitEntry` | src/AtsRtsSequencerComponent.hpp:149-172 | The first free entry takes the staged command, trigger and time word; a full table costs an error; both are reported |
| `AtsRts.Sequencer.OnEvent` | src/AtsRtsSequencerComponent.hpp:210-227 | Matching relative entries become absolute, and only while armed; each is reported |
| `AtsRts.Sequencer.ExecuteDueEntries` | src/AtsRtsSequencerComponent.hpp:174-208 | Due entries leave, the others stay, and nothing happens while disarmed; each dispatch is reported, a failed one costs an error |
| `AtsRts.Sequencer.ClearAll` | src/AtsRtsSequencerComponent.hpp:239-243 | All entries blank |
| `AtsRts.Sequencer.HandleCommand` | src/AtsRtsSequencerComponent.hpp:104-147 | The eleven opcodes, with what each reports; any other costs an error |
| `AtsRts.Sequencer.Step` | src/AtsRtsSequencerComponent.hpp:65-84 | Commands, then events, then due entries, then a telemetry frame with the number of active entries |
| `RateGroup.RegisteredOnce` | src/RateGroupExecutive.hpp:79-121 | No sequence of registrations puts a component in two places, and each adds no component but its own |
| `RateGroup.Executive.IsRegistered` | src/RateGroupExecutive.hpp:310-336 | True exactly for the components in some place |
| `RateGroup.Executive.RegisterIn` | src/RateGroupExecutive.hpp:79-104 | Null, duplicate and surplus registrations are refused |
| `RateGroup.Executive.RegisterComponent` | src/RateGroupExecutive.hpp:106-121 | A component with a thread goes to the active list, another to the normal tier |
| `RateGroup.Executive.RunCooperative` | src/RateGroupExecutive.hpp:159-183 | The dividers produce the specified step sequence for any number of turns |
| `RateGroup.StepsPerComponent` | src/RateGroupExecutive.hpp:159-183 | In n turns a component steps n, n/10 or n/100 times by its tier, n/10 on the active list, and never if it has a thread but was put in a tier |
| `RateGroup.RunTier` | src/RateGroupExecutive.hpp:407-425 | Deadlines, frame drops and slow ticks of the threaded loops after any clock readings |
| `RateGroup.DeadlinesKeepRate` | src/RateGroupExecutive.hpp:407-425 | The k-th deadline is start + k periods + total lateness at overruns |
| `RateGroup.DeadlinesApart` | src/RateGroupExecutive.hpp:407-425 | Two deadlines are at least as many periods apart as there are turns between them |
| `RateGroup.SlowRunsExactly` | src/RateGroupExecutive.hpp:232-236 | How often the slow tier runs in n turns of the normal loop, exactly, over wraps of the 32-bit cycle counter |
| `RateGroup.SlowEveryTenth` | src/RateGroupExecutive.hpp:232-236 | Every tenth turn below 2^32 turns, and one time too many at 2^32 |
| `Topology.Validate` | tools/autocoder.py:53-100 | Reports nothing exactly on topologies with complete components, distinct ids, known targets, distinct opcodes per target and known classes |
| `Autocoder.RenderTopo` | tools/autocoder.py:260-532 | The loops emit the specified wiring statements and checks |
| `Autocoder.RenderDict` | tools/autocoder.py:131-138 | The loop builds the specified command dictionary |
| `AutocoderCorrect.CommandsClassified` | tools/autocoder.py:386-390 | Executing the emitted wiring makes the hub classify every declared command as declared |
| `AutocoderCorrect.OnlyDeclaredClassified` | tools/autocoder.py:386-390 | And gives no class to any other command |
| `AutocoderCorrect.RoutesInstalled` | tools/autocoder.py:373-384 | The route table is exactly the targeted applications, in order |
| `AutocoderCorrect.CommandsRouted` | tools/autocoder.py:373-384 | Every command for an application finds a route whose port is connected to that application's command input |
| `AutocoderCorrect.DeployableExists` | tools/autocoder.py:53-100 | A small topology meets the conditions of the theorems about deployable ones |
| `AutocoderCorrect.VerifyHoldsIff` | tools/autocoder.py:399-508 | When the emitted verify() returns true, exactly: the tables are large enough, the custom lines set the sources that are checked for, and the last custom line on every checked output agrees with the generated connection |
| `AutocoderCorrect.VerifyHolds` | tools/autocoder.py:399-422 | A topology whose tables fit, with the sources set and without custom lines on generated outputs, passes its own checks |
| `AutocoderCorrect.ListenerTables` | tools/autocoder.py:299-306 | Radio and recorder listen to both hubs, followed by the ports that the custom lines name, in order and no others |
| `AutocoderCorrect.DictionaryAgrees` | tools/autocoder.py:131-138 | Under every command name the ground dictionary has the target, the opcode and the class that the hub enforces |
| `AutocoderCorrect.RegistrationsCompileIff` | tools/autocoder.py:84-96 | Of an accepted topology the emitted registrations name existing classes if and only if every op_class is absent or a non-empty text |
| `AutocoderCorrect.NullClassAccepted` | tools/autocoder.py:84-96 | A null op_class passes validation, and its registration does not compile |
| `AutocoderCorrect.RepeatedInstanceAccepted` | tools/autocoder.py:53-100 | Validation accepts two components with one instance name |
| `AutocoderCorrect.LinkFixed` | src/Port.hpp:114-117 | An output that all connections send to the same input ends up connected to it, in whatever order they run |

## Left out

- Weak memory: atomics are sequentially consistent steps; `memory_order` arguments are not modelled.
- SpscQueue: does not model several producers on one queue, because the ring buffer is written for one; the generated wiring gives `cmd_hub.cmd_input` four.
- Floats: rounding and the ordering of NaN and infinity are not modelled; battery claims are over reals, so NaN thresholds (which pass the sanity test) are outside them.
- Event texts and standard output: of the events of hub and watchdog only whether they find room in their queue is modelled; those of the two sequencers are modelled as severity and message.
- I/O: sockets, serial lines, files, non-volatile storage, environment variables and the trusted-source test of the UDP receiver.
- The limit of 20 frames per tick in `receiveCommandsSerial`, which drops the rest of a read chunk: serial claims are about the byte parser.
- Replay state: whether a write reaches storage is an input; `RestartSafeIff` says which restarts keep the order of the pairs, `RestartRefusesLastIff` which refuse the last number.
- Hubs.EventHub.Step: requires `Quiet`, because a method must end; `StepEndsIff` shows that exactly these steps end, and `FeedbackNeverEnds` what happens in the others.
- TmrStore.Registry.ScrubAll: in a watchdog step the scrub reaches the three threshold stores together or not at all, as an input says.
- Watchdog: errors recorded while a pass runs are added before the report they affect; thresholds are written or upset between steps only, not inside one.
- WatchdogComponent.Component: components are positions in a table of error counters, not objects; starting and joining threads is left out, and so are `pollSchedulerHealth` and `pollPortOverflow`, which only report and count an error.
- ParamDb: loading, saving and the string wrappers with their hash; UTC arithmetic is unbounded, so int64 overflow is left out.
- CommandSequencer.DueIff: needs scans less than 2^31 ms apart, because the 32-bit clock cannot tell more; AtsRts times are unbounded where the code has 64 bits.
- RateGroup: the fast and normal threads are one loop with a period each; metrics, watchdog timer calls and thread start-up of the executive are left out.
- Topology: instance names and numbers are those of YAML values of the right type, and a class is absent, null or a text; a missing opcode and stripping of blanks are left out, and custom lines count only as far as the emitted checks depend on them.
- Autocoder.RenderTopo: models the wiring and `verify`; file headers, includes, member declarations and the rate-group and FDIR registration lines are left out, and that the C++ members named by the wiring exist is assumed. A repeated instance name, which validation accepts, is so not seen as a member declared twice.
- Autocoder.RenderDict: models the commands; the header, component and parameter parts of the dictionary and `render_types` are left out.
- OtaComponent, CfdpComponent, FileTransferComponent, LimitCheckerComponent, ModeManagerComponent, MemoryDwellComponent, PlaybackComponent, the IMU and power drivers, HeapGuard and the other tools: tables, cursors, hardware and file plumbing that would add only easier members.
