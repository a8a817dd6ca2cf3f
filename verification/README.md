# coact: a verified model

coact is a single-dispatcher active-object framework. This project models the parts of it whose
correctness spans many steps or many threads, and proves what they promise, for every input,
every schedule and every reachable state.

Open it with `dafny verify dfyconfig.toml`.

## What is modelled

- **Submit, dispatch and stop** (`protocol.dfy`). Any number of submissions, one dispatcher and
  one stopper share the staging cells, the wake latch, the sticky dispatcher signal, the execution
  leases, the pending counters, the arrival gates and the admission word. Every shared access is
  one step, a schedule is any sequence of steps, and `Run` is the state it leads to.
  `accounting.dfy` proves who owns each event and what each counter counts, `spacing.dfy` that
  accepted arrivals keep their distance, `episodes.dfy` exactly when an arrival is refused,
  `wakeup.dfy` that no wakeup is lost, `stop.dfy` and `stop_leaks.dfy` what a stop leaves behind.
- **Arrival gate** (`gate.dfy`, `arrival_gate.dfy`). The gate as a value, and the gate and
  reservation objects proved against it.
- **Hierarchical state machine** (`topology.dfy`, `hsm.dfy`, `machine.dfy`). Table validation,
  parent chains and the least common ancestor; the declarative rules of one dispatch; the machine
  object, whose loops are proved against those rules.
- **Circuit breaker** (`breaker.dfy`, `breaker_word.dfy`, `cas_loop.dfy`, `recovery.dfy`,
  `degradation.dfy`). The packed word, as a number and bit by bit, the transitions, the
  compare-and-swap retry loop under any interleaving, exactly which inputs change the level, and
  exactly when the breaker returns to Normal.
- **Rejection ring** (`ring.dfy`). Writers and readers one atomic access at a time.
- **Token bucket** (`bucket.dfy`).
- **Serial link** (`crc.dfy`, `frames.dfy`, `parser.dfy`, `frame_parser.dfy`). The table-driven
  CRC, the frame builder, the byte parser, and streams of intact and damaged frames. The generator
  polynomial is that of section 2 of ITU-T V.41.
- **Firmware transfer** (`ota.dfy`, `ota_erase.dfy`, `ota_safety.dfy`, `ota_progress.dfy`,
  `ota_device.dfy`, `ota_host.dfy`, `ota_session.dfy`). Host and device as objects, both together
  over a channel that may lose any frame in either direction, and the transfer that loses none.
- **Register cache** (`bitfield.dfy`, `reg_cache.dfy`).

## Promises the code does not keep

- **Stop conservation.** `drain_queued_on_stop` (`include/coact/dispatcher.hpp:218-242`) reads the
  queues first and the submission count second. A producer that publishes and leaves between the
  two reads leaves its event behind. `Stop.SourceGuardLeaks` is such a run.
  `StopLeaks.StopLeaksIffClaimable` says exactly when a stop request can lead to one, in terms of
  what the producers are doing when admission closes; `Stop.QuiescedStopConserves` is the case of
  producers joined first. `Stop.GuardLeaksIffAtRisk` says the same at the second read, and
  `Stop.AtomicGuardConserves` shows that taking both reads in one step removes the fault.
- **Deferred register writes.** Leaving a `BypassGuard` copies the hardware over the shadow, so a
  write deferred under `cache_only` and not yet synced is dropped. `RegCache.WindowLosesDeferredWrite`
  shows it, `RegCache.WindowIsWriteThroughIff` says exactly when it matters, and
  `RegCache.CleanWindowIsWriteThrough` what a caller can look at.
- **Frame buffer check.** `BuildFrame` computes the payload length in 16 bits, so for 65534 or 65535
  bytes of data its check compares the wrong size. `Frames.CheckFails` is such a call,
  `Frames.CheckSufficesIff` says that there are no others.
- **Host payload buffer.** `SendChunks` copies a chunk into a 256-byte buffer without a check.
  `Ota.ChunkOverruns` is an overrun, `Ota.ChunksFitIff` the exact condition; the theorems on the
  transfer are about the sessions that meet it.
- **Erase before a transfer.** For a start inside a sector the erase loop may stop one sector short.
  `OtaErase.EraseMissesLastSector` is such a case, `OtaErase.EraseCoversIff` the exact condition.

## Model

| member | source | states |
|---|---|---|
| Accounting.PendingAccounting | include/coact/coordinator.hpp:249-289 | along every schedule each event is in exactly one place, each pending counter equals the number of its target's events that are queued, held by the dispatcher or between increment and enqueue or undo, and with an admission policy it stays within the 16-bit ceiling and a nonzero cap |
| Accounting.DecrementsFindPending | include/coact/ao.hpp:102-106 | no decrement, by a submission or by the dispatcher, ever finds the counter at zero |
| Accounting.OneThreadPerTarget | include/coact/ao.hpp:34-60 | at most one thread is inside a target's state machine, and the lease state is the one its release expects |
| Accounting.SoundStep | include/coact/coordinator.hpp:107-308 | every step of every thread keeps ownership, exact pending counts, exact in-flight counts, single execution and the backlog bound |
| Accounting.IncrementsBelowCap | include/coact/ao.hpp:78-92 | a step raises a pending counter under an admission policy only where the cap and the ceiling leave room |
| Accounting.CountedPositive | include/coact/dispatcher.hpp:190-211 | an event that still counts makes its target's counter positive |
| Spacing.AcceptedArrivalsApart | include/coact/coordinator.hpp:182-293 | any two submissions to a gated target that returned Direct or Queued carry committed timestamps at least the minimum interval apart, for every schedule |
| Spacing.GatesStep | include/coact/admission.hpp:183-245 | every step keeps each gate equal to its ledger of live and committed arrivals, those arrivals spaced out, and each submission's reservation in its life cycle |
| Spacing.ReserveExact | include/coact/admission.hpp:183-201 | a reservation the gate admits keeps the gate exact and all live and committed timestamps apart |
| Spacing.EndExact | include/coact/admission.hpp:205-218 | a commit or rollback, in any order, keeps the gate exact |
| Spacing.QuietGateIsItsCommits | include/coact/admission.hpp:158-174 | once the last hold has left, the gate depends only on the set of committed timestamps |
| Episodes.RefusedExactly | include/coact/admission.hpp:183-201 | at every point of every run a submission is refused for its arrival if and only if the holds are saturated, or the newest reservation of the current overlap episode, or without an episode some committed arrival, lies less than the interval before it |
| Episodes.RunEpisode | include/coact/admission.hpp:152-174 | on every run the reservations taken since the holds last left zero are empty exactly when nothing is held, contain every holder, are spaced out in order, and the gate's hold is the timestamp of the newest, rolled back or not |
| Episodes.ReservationEndsOnce | include/coact/admission.hpp:266-314 | on every run a submission reserves at most once, and one that has returned has ended its reservation exactly once, by a commit if accepted and by a rollback if refused |
| Wakeup.NoLostWakeup | include/coact/dispatcher.hpp:139-168 | while the dispatcher is blocked without timeout every ready event has its wake request still to come or a signal pending or about to be raised, and so has a requested stop |
| Wakeup.DeferredNeedsNoTimeout | include/coact/dispatcher.hpp:90-138 | while the dispatcher waits with a slot that lost the lease, a direct run owns the lease, or its finisher has the wake ahead, or a signal is pending or about to be raised |
| Wakeup.CoveredStep | include/coact/staging.hpp:345-385 | every step keeps the invariants behind both wakeup theorems: latch, scan, cells, deferred slot and stop |
| Stop.AtomicGuardConserves | include/coact/dispatcher.hpp:170-242 | with the guard's two reads in one step, whenever `run` has returned every admitted event has been released exactly once, no cell holds one and every pending counter is zero |
| Stop.GuardLeaksIffAtRisk | include/coact/dispatcher.hpp:218-242 | from a reachable state between the two reads of the guard, some continuation leaves an event behind if and only if a cell holds one or a submission can still publish one |
| Stop.SourceGuardLeaks | include/coact/dispatcher.hpp:220-220 | a concrete run that returns with an event still queued, unreleased, and its pending counter at one |
| StopLeaks.StopLeaksIffClaimable | include/coact/dispatcher.hpp:183-242 | with at least one cell, at every point of every run before a stop, closing admission now can lose an event if and only if some submission can still claim a cell: it is between admission and its cell, or at the lease CAS with the lease taken, a rival, or an event of its target the dispatcher can still run |
| Stop.UnclaimableStopConserves | include/coact/dispatcher.hpp:183-242 | a stop requested when no submission can claim a cell any more conserves every event, with either guard |
| Stop.QuiescedStopConserves | include/coact/dispatcher.hpp:183-187 | a stop requested with no submission in flight conserves every event, with either guard |
| ArrivalGates.ArrivalGate.TryReserve | include/coact/admission.hpp:183-201 | admits exactly when the interval rule and the hold count allow, and changes nothing otherwise |
| ArrivalGates.ArrivalGate.CommitAt | include/coact/admission.hpp:205-212 | the gate becomes its committed value: latest commit kept, one hold released |
| ArrivalGates.ArrivalGate.RollBack | include/coact/admission.hpp:215-218 | only one hold is released |
| ArrivalGates.ArrivalGate.Release | include/coact/admission.hpp:238-245 | one hold less; the last one clears the barrier; none is not an error |
| ArrivalGates.ArrivalReservation.Confirm | include/coact/admission.hpp:294-299 | commits once and leaves the handle inert |
| ArrivalGates.ArrivalReservation.Cancel | include/coact/admission.hpp:301-306 | rolls back once and leaves the handle inert |
| ArrivalGates.ArrivalReservation.Hold | include/coact/admission.hpp:280-289 | taking over a reservation first hands back what was held |
| ArrivalGates.ReserveWindow | include/coact/admission.hpp:440-457 | inert handle without a rule, no handle after a refusal, otherwise exactly the one new reservation, with any previous one handed back |
| Topology.ValidateTopology | include/coact/hsm.hpp:99-119 | accepts a table if and only if it has at most 128 states, its parent relation is a forest and every initial child is a direct child |
| Topology.WalkToRoot | include/coact/hsm.hpp:110-117 | the bounded walk fails only on tables that are no forest and otherwise gives the length of the walk |
| Topology.ChainBounded | include/coact/hsm.hpp:176-183 | a parent chain visits distinct states, so it is no longer than the table |
| Topology.ChainDepth | include/coact/hsm.hpp:176-183 | the number of states on the parent chain |
| Topology.AncestorAtDepth | include/coact/hsm.hpp:186-193 | the ancestor whose chain is the last `depth` states of the chain |
| Topology.FindLca | include/coact/hsm.hpp:196-215 | the deepest state on both chains, or -1 exactly when they share none |
| Hsm.OutcomeUnique | include/coact/hsm.hpp:133-155 | the declarative rules allow at most one outcome per event |
| Hsm.TransitionKeepsConfiguration | include/coact/hsm.hpp:233-289 | every transition, fired from any ancestor, turns the parent chain of the old leaf into that of the new one, leaving only the innermost active state and entering only directly below it |
| Hsm.InitConfigures | include/coact/hsm.hpp:122-130 | init enters exactly the parent chain of the initial leaf |
| Hsm.ConfiguredBalance | include/coact/hsm.hpp:233-332 | in a configured machine entries minus exits is one on the parent chain of the current state and zero elsewhere |
| Hsm.RunsStayBalanced | include/coact/hsm.hpp:122-155 | after init and any dispatches over any valid table, entries minus exits is one for exactly the states on the parent chain of the current state |
| Hsm.BoundaryAbove | include/coact/hsm.hpp:265-277 | the boundary of a transition is an ancestor of both the leaf and the target, or none |
| Machine.FindTransition | include/coact/hsm.hpp:218-230 | the first row of the state whose signal matches and whose guard passes, or none exists |
| Machine.FindFiring | include/coact/hsm.hpp:133-155 | the innermost ancestor within the depth bound that has such a row, or no ancestor has one |
| Machine.ExitTo | include/coact/hsm.hpp:292-300 | exits from the leaf up to, not including, the boundary, innermost first |
| Machine.ExitThrough | include/coact/hsm.hpp:245-254 | exits from the leaf up to and including the source |
| Machine.EnterPath | include/coact/hsm.hpp:303-312 | enters the states below the boundary down to the target, outermost first |
| Machine.EnterInitial | include/coact/hsm.hpp:315-332 | enters the initial descendants in order; fails exactly when there are more than the depth bound, after entering that many |
| Machine.FindBoundary | include/coact/hsm.hpp:269-276 | the least common ancestor, or its parent when that is the source or the target |
| Machine.Execute | include/coact/hsm.hpp:233-289 | makes exactly the calls and reaches exactly the state of the declarative transition, or fails exactly where the source asserts |
| Machine.EnterFromRoot | include/coact/hsm.hpp:127-129 | enters the path from the root and the initial descendants of the initial state |
| Machine.StateMachine.Init | include/coact/hsm.hpp:122-130 | the calls and the state of the first init, nothing for an initial state outside the table, and a configured machine |
| Machine.StateMachine.Dispatch | include/coact/hsm.hpp:133-155 | unhandled exactly when every ancestor in reach ignores the event, else the one transition of the first row of the innermost accepting ancestor; a configured machine stays configured |
| Breaker.UnpackOfPack | include/coact/monitor.hpp:137-158 | unpacking a packed state gives the state back whenever its fields fit their bits |
| BreakerWord.PackBitsIsPack | include/coact/monitor.hpp:137-146 | the bitwise join of the shifted fields has the packed number as its value |
| BreakerWord.UnpackBitsIsUnpack | include/coact/monitor.hpp:149-158 | shifting and masking any word reads the fields that the unpacked number has |
| BreakerWord.BitsRoundTrip | include/coact/monitor.hpp:137-158 | bit by bit, unpacking a packed state gives it back whenever its fields fit |
| Breaker.ReachableSane | include/coact/monitor.hpp:221-400 | every state the inputs reach fits its bits, has no cooldown at Normal, and no probe or window outside Recovering |
| Breaker.SequentialIsApply | include/coact/monitor.hpp:169-179 | inputs applied to packed words do what they do to states |
| Breaker.ReachableWords | include/coact/monitor.hpp:418-427 | under any interleaving the word packs the state its effective inputs reach in order; healthy_window_passed holds exactly at Normal; Normal has no cooldown |
| CasLoop.UpdatesAreSequential | include/coact/monitor.hpp:167-179 | for any number of threads and any interleaving of the retry loop, the word is the result of applying the effective inputs one after the other, each returned call exactly once |
| CasLoop.ReturnedBeforeCalled | include/coact/monitor.hpp:167-179 | the order of effects respects real time |
| Recovery.ReturnToNormal | include/coact/monitor.hpp:182-400 | every return to Normal comes from Recovering, with the configured number of cycles since the last entry to L1, L2 or Safe, and since Recovering began three distinct probe-then-cycle windows closed after the cooldown and no bad input |
| Recovery.ReturnsExactly | include/coact/monitor.hpp:349-363 | a recovering breaker returns to Normal at an input if and only if three distinct probe-then-cycle windows, closed after the cooldown, lie between its entry to Recovering and that input, which closes the third |
| Recovery.SafeLeavesByRestore | include/coact/monitor.hpp:384-390 | Safe is left only by the external restore, to Recovering |
| Recovery.CooldownSince | include/coact/monitor.hpp:349-353 | away from Normal the cooldown is exactly what the cycles since the last degradation leave of it |
| Recovery.WindowsSince | include/coact/monitor.hpp:349-372 | in Recovering every counted window and the probe flag have their inputs, and no bad input has come |
| Degradation.LevelChangesExactly | include/coact/monitor.hpp:220-390 | L1, L2, Safe and Recovering are each entered if and only if the inputs seen so far call for it: third direct timeout in a row at Normal; overflow, third dispatcher timeout or third high watermark in a row at Normal or L1, or a bad input while recovering; exhausted reserve or watchdog; restore, or third low watermark in a row after the cooldown |
| Degradation.CountersAreStreaks | include/coact/monitor.hpp:160-165 | every counter of every run holds the number of its inputs since the last one that cleared it or the last level entry, up to three |
| Ring.LookupsAreWhole | include/coact/monitor.hpp:697-756 | a successful lookup returns exactly the fields of the record that was given its number; that record was published, not dropped, and had not left the ring when the count was read |
| Ring.StepOk | include/coact/monitor.hpp:697-756 | every access of every writer and reader keeps one owner per slot, whole published slots and sound readers |
| Ring.RecordsFrom | include/coact/monitor.hpp:699-700 | the n-th record of a run is the one numbered n, for good |
| Ring.QuietLookupFinds | include/coact/monitor.hpp:723-756 | an undisturbed lookup succeeds with the whole slot whenever the slot still shows the number asked for |
| TokenBucket.BurstBound | include/coact/policy.hpp:72-107 | between any two points of any call sequence admissions are at most capacity plus rate for every whole interval the bucket's clock has moved, even when the 64-bit product wraps |
| TokenBucket.AdmissionsBound | include/coact/policy.hpp:72-107 | admissions plus tokens left never exceed tokens at the start plus what the clock has produced |
| TokenBucket.NoRefillBound | include/coact/policy.hpp:88-90 | without an interval admissions plus tokens left are constant |
| TokenBucket.RefillExact | include/coact/policy.hpp:87-107 | a refill whose product fits 64 bits adds exactly rate times whole intervals up to the capacity and leaves less than one interval unaccounted |
| TokenBucket.Limiter.constructor | include/coact/policy.hpp:64-68 | a full bucket at the given time |
| TokenBucket.Limiter.Refill | include/coact/policy.hpp:87-107 | the bucket refilled up to now, clamped to its capacity |
| TokenBucket.Limiter.Acquire | include/coact/policy.hpp:72-82 | admits exactly when disabled or a token is left after the refill, and takes one |
| Crc.MakeTable | examples/serial_ota/protocol.hpp:91-105 | entry i is eight bit steps of i in the upper byte |
| Crc.MakeEntry | examples/serial_ota/protocol.hpp:96-100 | the inner loop makes eight bit steps |
| Crc.BitStepsXor | examples/serial_ota/protocol.hpp:97-99 | the division is linear |
| Crc.BitStepsInjective | examples/serial_ota/protocol.hpp:97-99 | the division loses nothing |
| Crc.LookupIsTakeByte | examples/serial_ota/protocol.hpp:113-113 | one table lookup equals eight bit steps on the byte |
| Crc.CalcCrc16 | examples/serial_ota/protocol.hpp:110-116 | the table-driven loop computes the bitwise CRC |
| Crc.OneByteDetected | examples/serial_ota/protocol.hpp:110-116 | changing any one byte changes the CRC |
| Frames.BuildFrame | examples/serial_ota/protocol.hpp:175-200 | for every data length and buffer: a buffer that fails the check is untouched; otherwise the bytes of the frame, with the 16-bit payload length, are written and nothing else changes, or the write leaves the buffer |
| Frames.CheckSufficesIff | examples/serial_ota/protocol.hpp:176-190 | every buffer that passes the check has room for what is written if and only if the data are not 65534 or 65535 bytes long |
| Frames.CheckFails | examples/serial_ota/protocol.hpp:176-190 | with 65534 bytes of data a buffer of 7 bytes passes and 65542 bytes are written |
| Frames.SendableIsBuilt | examples/serial_ota/protocol.hpp:175-200 | for every message whose payload length fits 16 bits the check passes exactly when the frame fits, and what is written is its wire form |
| Frames.WriteBody | examples/serial_ota/protocol.hpp:182-192 | header, length and payload, nothing behind them changed |
| Frames.WriteEnd | examples/serial_ota/protocol.hpp:194-197 | the CRC of the payload, low byte first, and the tail |
| Parsing.FeedFrame | examples/serial_ota/parser.hpp:92-233 | a whole frame with any payload and checksum ends in the tail state with that payload and checksum, so it is judged by the checksum alone |
| Parsing.ChecksumTells | examples/serial_ota/main.cpp:138-158 | the received checksum matches the received payload if and only if nothing between class byte and last CRC byte was changed |
| Parsing.FlippedBitIsDamage | examples/serial_ota/main.cpp:150-151 | the channel noise of the demo, one flipped bit in a covered byte, is damage in the sense of the stream theorem |
| Parsing.StreamRoundTrip | examples/serial_ota/parser.hpp:92-233 | of any stream of frames, each intact or with one covered byte changed, exactly the intact ones are delivered in order, each changed one counts one CRC error, no other error counts, and the parser ends in Idle |
| FrameParsing.FrameParser.constructor | examples/serial_ota/parser.hpp:243-258 | an idle parser with empty statistics |
| FrameParsing.FrameParser.HandleIdle | examples/serial_ota/parser.hpp:92-107 | the idle transition: a header opens a frame, anything else is a sync error |
| FrameParsing.FrameParser.HandleLength | examples/serial_ota/parser.hpp:109-135 | the two length transitions with the length check |
| FrameParsing.FrameParser.HandleCommand | examples/serial_ota/parser.hpp:137-164 | the class and command transitions |
| FrameParsing.FrameParser.HandleData | examples/serial_ota/parser.hpp:166-181 | the data transition, inside both buffers |
| FrameParsing.FrameParser.HandleCrc | examples/serial_ota/parser.hpp:183-203 | the two checksum transitions |
| FrameParsing.FrameParser.HandleTail | examples/serial_ota/parser.hpp:205-233 | the tail transition: deliver, or count a tail or CRC error |
| FrameParsing.FrameParser.PutByte | examples/serial_ota/parser.hpp:270-274 | one byte does what the transition of the current phase says; the buffer invariant holds for every byte, so no access leaves a buffer |
| FrameParsing.FrameParser.PutData | examples/serial_ota/parser.hpp:276-280 | feeding a span is feeding its bytes in order |
| FrameParsing.FrameParser.Reset | examples/serial_ota/parser.hpp:282-282 | back to Idle, nothing else changed |
| OtaSafety.FlashHoldsPrefix | examples/serial_ota/device.hpp:142-196 | at every point of every run after the start arrived, received is at most the total and the flash holds that prefix of the firmware; in Verifying and Complete it holds all of it and the checksums agree |
| OtaSafety.VerifiedMeansWritten | examples/serial_ota/host.hpp:239-273 | a host that has received a verification was told of success and the whole image is in the flash |
| OtaProgress.FairTransferCompletes | examples/serial_ota/host.hpp:90-359 | with a nonzero chunk size and a flash of whole sectors every schedule without losses in which both sides get all their turns 3 times per byte and 15 times more ends with a successful verification and the whole image in the flash |
| OtaProgress.NothingGoesWrong | examples/serial_ota/host.hpp:136-236 | along every schedule without losses, fair or not, every reply is an acceptance and no tick fails |
| Ota.ChunksFitIff | examples/serial_ota/host.hpp:164-172 | every chunk fits the host's 256-byte payload buffer behind its header if and only if the smaller of chunk size and image size is at most 250 |
| Ota.ChunkOverruns | examples/serial_ota/host.hpp:164-172 | a chunk size of 251 and an image of 251 bytes overrun that buffer by one byte |
| OtaErase.EraseSucceeds | examples/serial_ota/device.hpp:142-153 | erasing succeeds wherever an image fits a flash of whole sectors |
| OtaErase.ErasedExactly | examples/serial_ota/device.hpp:46-52 | a successful erase fills whole sectors from the one that holds the start, one per step of the loop, and touches nothing else |
| OtaErase.EraseCoversIff | examples/serial_ota/device.hpp:142-153 | the range of the image is erased whatever the flash held if and only if the offset of the start in its sector plus the size reaches no further than the sectors of the loop |
| OtaErase.EraseMissesLastSector | examples/serial_ota/device.hpp:145-145 | with sectors of 4 bytes an image of 4 bytes at address 1 leaves byte 4 as it was |
| OtaSession.RunSession | examples/serial_ota/host.hpp:281-359 | a session of the host object and the device object, with ticks, deliveries and losses in any order, leaves the received prefix in the flash array, and the whole image if a verification has come back |
| OtaSession.Advance | examples/serial_ota/host.hpp:318-359 | one tick, delivery or loss moves the fields of the host object, the device object and its flash array as the step of the modelled system, of which all safety theorems speak |
| OtaSafety.StepOk | examples/serial_ota/host.hpp:318-359 | ticks, deliveries and losses keep the invariants of device, host and both directions of the channel |
| OtaSafety.TickKeeps | examples/serial_ota/host.hpp:90-273 | whatever the host sends is honest and timely: chunks of the image at their own offset, end and verify only after a start was acknowledged |
| OtaSafety.DeviceStep | examples/serial_ota/device.hpp:419-477 | handling any request on the way keeps the prefix and answers soundly |
| OtaDevice.Flash.Write | examples/serial_ota/device.hpp:39-44 | exactly the bytes at the address change, or nothing when they do not fit |
| OtaDevice.Flash.EraseSector | examples/serial_ota/device.hpp:46-52 | the aligned sector becomes all ones, or nothing changes when it does not fit |
| OtaDevice.Flash.EraseRange | examples/serial_ota/device.hpp:142-153 | the array erased sector by sector until the end or the first failure; `OtaErase.ErasedExactly` says which bytes that fills |
| OtaDevice.Flash.Checksum | examples/serial_ota/device.hpp:54-58 | the CRC of the range, or zero when it does not fit |
| OtaDevice.DeviceHandler.HandleStart | examples/serial_ota/device.hpp:125-162 | a start taken in Idle opens the session and erases; elsewhere it changes nothing |
| OtaDevice.DeviceHandler.HandleChunk | examples/serial_ota/device.hpp:165-185 | a chunk in Receiving is written and counted, or ends in Error when it does not fit |
| OtaDevice.DeviceHandler.HandleEnd | examples/serial_ota/device.hpp:187-202 | the end in Receiving computes the checksum and enters Verifying |
| OtaDevice.DeviceHandler.HandleVerify | examples/serial_ota/device.hpp:205-215 | Complete or Error by the checksum |
| OtaDevice.DeviceHandler.HandleOta | examples/serial_ota/device.hpp:419-477 | the device and its answer for every request, including rejected offsets and sizes |
| OtaHost.Upgrade.TickOnce | examples/serial_ota/host.hpp:90-273 | a tick sends at most one request, and only one that is called for: the start once and first, chunks of the image at their own offset after an acknowledged start, the end when everything is sent, the verify after an acknowledged end; phases keep their order |
| BitField.WriteReadsBack | include/coact/bitfield.hpp:28-41 | a field write reads back as the low bits of its value and moves no bit outside the field |
| BitField.DisjointFieldsIndependent | include/coact/bitfield.hpp:47-50 | writes of fields that pass the disjointness check do not show in each other and commute |
| RegCache.DeferredIsWriteThrough | include/coact/reg_cache.hpp:46-123 | from agreeing copies with nothing dirty, any word and field writes under cache_only leave the hardware alone, and clearing the flag and syncing gives both copies the write-through values |
| RegCache.GuardedNeverDrifts | include/coact/reg_cache.hpp:141-155 | with bypass only through the guard, outside a window the copies differ only at dirty registers, after any steps |
| RegCache.WindowIsWriteThroughIff | include/coact/reg_cache.hpp:46-155 | deferring any writes, running a bypass window with any writes and syncing equals writing all of them through if and only if on every register the writes of the window make the same of the deferred and of the stored value |
| RegCache.CleanWindowIsWriteThrough | include/coact/reg_cache.hpp:141-155 | with no register dirty when the guard is entered nothing is lost |
| RegCache.WholeWriteOverrides | include/coact/reg_cache.hpp:46-51 | a whole-word write inside the window settles its register whatever is pending there |
| RegCache.WindowLosesDeferredWrite | include/coact/reg_cache.hpp:141-147 | one deferred write of a register followed by a window that writes nothing: after the sync neither copy has it |
| RegCache.PeriphRegCache.Apply | include/coact/reg_cache.hpp:46-86 | both write entries under the three-flag protocol |
| RegCache.PeriphRegCache.Commit | include/coact/reg_cache.hpp:110-123 | refused while deferring, else every dirty register is committed and cleaned |
| RegCache.PeriphRegCache.FullRepush | include/coact/reg_cache.hpp:97-101 | the hardware becomes the shadow |
| RegCache.PeriphRegCache.LeaveBypass | include/coact/reg_cache.hpp:144-147 | the flag is cleared and the shadow becomes the hardware |

## Left out

- Memory orders: all concurrency is proved under interleaving (sequentially consistent) semantics; the C++ acquire, release and relaxed orders are not modelled.
- Platform layer: the dispatcher signal is one sticky bit, the clock an arbitrary timestamp, and a wait may end at any time.
- Coordinator, dispatcher and lease objects: modelled as the steps of their threads, not as classes, because their content is the interleaving.
- Queues: a cell is free, being written or ready, scans read one cell per step, enqueue claims any free cell or fails at any time, and dequeue takes any ready cell, so priority order, Low aging and the free lists are not modelled.
- Pool and reclaimer: a release is one step; batching is not modelled.
- Pending counter without an admission policy: unbounded here; the pool bounds it, and the assertion at the 16-bit ceiling is not modelled.
- Overload guard and policy hook in submit: any verdict may come at any time.
- Breaker bank, monitor counters, registry lookup, `Expected`, `Span`, merge cell, runtime and coroutine layers: they would add only easy members.
- Rule table validation and index of the admission policy: the limits are arbitrary functions of the target.
- Application context of the state machine: guards read an arbitrary context, actions are recorded in order and what they do to the context is theirs.
- Ring.LookupsAreWhole: sequence numbers are unbounded; the shift wraps after 2^63 records.
- Frames.BuildFrame: what happens to memory behind an overrun buffer is not modelled; the call ends as an overrun.
- Parsing.StreamRoundTrip: statistics are unbounded counters, and damage to header, length or tail bytes is not covered.
- OtaSafety.FlashHoldsPrefix: requests and replies are values; the byte layout of their headers is not modelled, and sizes and addresses do not wrap.
- Firmware transfer: no liveness under losses; the retry limit may end a transfer. Sent-byte and retry statistics, SYS and SPI commands are not modelled.
- Demos, shell, timers and tools: not modelled.
