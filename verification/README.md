# Verified models of the RS4xx Radeon driver and its source checks

This project models the parts of the Radeon driver for RS4xx devices, and of the scripts that
audit its source, whose correctness depends on more than one function: protocols between tasks,
encodings, decisions over packed data, and searches. The properties hold for every input, every
interleaving and every environment; where a promise of the code or of its documentation does not
hold in full, a lemma gives an input on which it fails and another one the exact condition.

| file | what it models |
|---|---|
| `HardwareAdmission.dfy`, `HardwareAdmissionSafety.dfy`, `HardwareAdmissionAlone.dfy` | admission of transactions and readers, lifecycle transitions, the parked latch, its publisher and its work item, step by step over any number of tasks; what every interleaving keeps, and what one call comes to when nobody else steps |
| `ResetMaskClaim.dfy` | the one-shot claim of the reset-mask selector: any number of claimers against a writer |
| `CpMeDump.dfy` | the CP microengine RAM dump: `seq_file` callbacks under arbitrary flag changes and record replay |
| `FenceSequence.dfy` | publication of fence sequence numbers from 32-bit hardware samples by any number of agents |
| `IrqReferences.dfy`, `IrqWakeups.dfy` | the interrupt references of fences and sequence waiters, what a wake of the fence queue leaves behind, and that no wake is lost |
| `CombiosTables.dfy`, `CombiosDriver.dfy` | the command tables of a COMBIOS image: the ROM script's and the driver's walks, an encoder, image admission, and the table interpreter |
| `TclBypassVtx.dfy`, `BitMasks.dfy` | the TCL-bypass vertex-width decision over packed element halves |
| `FeatureGraph.dfy` | the dependency search over build features, and the compiled and runtime profiles |
| `PlanCoverage.dfy` | the exact cover of plan mechanisms by features |
| `SourceScan.dfy` | brace matching, controlled statements, direct statements, forward jumps and conditional groups in stripped C code |
| `Packet0.dfy` | command-stream packets, the admission of a type-0 packet and the safe-register bitmap |
| `CommandStream.dfy` | the checker's walk over a command buffer, with the relocations and vertical-line waits its checks take |
| `GemCreate.dfy`, `CsIoctl.dfy` | the retries of buffer creation and the release order of a command submission |

`dafny verify dfyconfig.toml` verifies the whole project.

## How the models are built

Concurrent protocols are state machines. One step is one access to shared memory, or one decision
of a lock's holder between two accesses others can observe; a run is any sequence of steps. Atomics
are sequentially consistent. History variables (`demand`, `history`, `installed`, `acquired`) record
what happened and decide nothing.

- Admission: an activity is one call of one driver function by one task. Nested use of a reader
  inside a transaction, or of either inside a transition, is covered by letting several activities
  carry the same task in any order. `wait_event` is a step that is enabled once its condition holds.
  A transition is ended to PARKED only once the latch is set, as wherever the driver does so.
- Fences: where the code reads the terminal state and the published number one after the other
  under the fence queue's lock, the model reads both at once. Both only ever rise, so the pair
  decides as one of the two moments would. `dma_fence` calls the enable callback at most once per
  fence and signals the fence when it returns false; this is the fence core's own contract.
- The dump: the kernel's sequence-file core may take back a record that does not fit and present it
  again, and may deliver its buffer between any two records. Reads are sequential.
- The command stream: what a register check or a type-3 checker decides is arbitrary, and so is how
  many relocations and waits it takes; which dwords it takes is read from the buffer as the code
  reads them. A wait packet's register field keeps an earlier value when its type is not 0.

Code that mutates local or object state is a method against a specification: the `seq_file`
callbacks, the publication loop, the BIOS reads, preflights and interpreter, the vertex walk, the
depth-first search, the coverage tables, the scanners, the packet walk, buffer creation, and the
ioctl, whose callees state in their preconditions the state in which they must be called.

Fields of 32-bit words are read by division and remainder instead of shifts and masks, and setting a
clear bit of a mask is an addition; on unsigned words these are the same values. Register arithmetic
in `Packet0` and sample extension in `FenceSequence` wrap at 2^32 as the code does. The compiled
tables of split plan rows are written out in `PlanCoverage.Split`.

## Where the code and its promises differ

- A parked device is documented to refuse ordinary callers with -EIO. A caller can count on that
  exactly if the latch is set when it begins (`HardwareAdmissionSafety.ParkedRefusalIsEioIff`). From
  any unlatched state a reader can be refused on a parked device with the errno of the state it began
  in, -EALREADY if that was RUNNING (`ReaderMeetsLatch`, `ParkedReaderCanGetEalready`), and a
  transaction likewise, -EBUSY if it was RUNNING (`TransactionMeetsLatch`).
- A command stream that passes has one register check for each checked register of the packets its
  loop takes, but the packet behind a vertical-line wait is skipped unseen: only its extent is looked
  at, not its type (`CommandStream.PacketBehindWaitCanBeUnchecked`; exactly when:
  `OnlyWaitsUncheckedIff`). If that packet is a one-dword filler in the buffer's last place, the check
  reads one dword behind the buffer (`FillerBehindWaitOverruns`; exactly when:
  `OverrunsBehindFillerIff`, and for one wait `VlineOverrunsIff`).
- The dump's schema line is documented as one record, but every data record shown into an empty
  buffer repeats it (`CpMeDump.SchemaLineCanRepeat`; exactly when: `OneSchemaLineIff`).
- Extending a 32-bit fence sample can pass the hardware's number when 2^32 or more fences are in
  flight (`FenceSequence.OvershootIsPossible`; exactly when: `OvershootsIff`).
- Packet-0 admission adds in 32 bits and can wrap for register offsets no header can express
  (`Packet0.WrapIsPossible`; exactly when: `AdmissionIsEnoughIff`; never for parsed packets:
  `ParsedNeverOverruns`).
- Resetting an interrupt count that is not zero loses references; the code only warns
  (`IrqReferences.ResetCanLoseReferences`; exactly when: `ResetKeepsCountIff`). What stays true on
  every run, and what holds until such a reset, is `CountIsExact`.
- A fence wait that ends early takes its fence out of the wait queue although other callbacks may
  still wait on it; such a fence misses a complete wake (`IrqReferences.AbandonedFenceMissesItsWake`;
  exactly when: `EnabledFencesAreWatchedIff`).
- The driver treats a header slot beyond the header's size byte as an absent table where the ROM
  script rejects the ROM (`CombiosDriver.SmallHeaderPassesPreflight`; exactly when:
  `ScriptIsPreflightIff`).

## Model

| member | source | states |
|---|---|---|
| HardwareAdmissionSafety.StepKeepsInv | drivers/gpu/drm/radeon/radeon_device.c:53-520 | every step of every call, whatever the others are doing, keeps the whole invariant: exact counters, lock ownership, drain exclusion, visible park, assured publication |
| HardwareAdmissionSafety.CountersExact | drivers/gpu/drm/radeon/radeon_device.c:188-255 | in every reachable state both counters equal the number of calls between increment and decrement, and the underflow warnings of the release functions never fire |
| HardwareAdmissionSafety.ParkedDrainIsPermanent | drivers/gpu/drm/radeon/radeon_device.c:475-500 | once a publisher has latched the park and then found the transaction and the reader counter at zero, no transaction or reader is admitted in that state or in any later state of the run |
| HardwareAdmissionSafety.TransitionIsExclusive | drivers/gpu/drm/radeon/radeon_device.c:278-426 | from the end of a transition's waits until it clears the owner field, when it fails or ends, every admitted transaction and reader belongs to its task, and no second transition owns the hardware |
| HardwareAdmissionSafety.ParkIsTerminal | drivers/gpu/drm/radeon/radeon_device.c:428-453 | a park, once latched, is never lost: whatever transition was running or ends later, the device shows a terminal state and stays closed |
| HardwareAdmissionSafety.ParkedCallerGetsEio | docs/rs4xx-failed-reset-hardware-containment.md:54-67 | a reader or ordinary transaction that begins on a latched device is refused with -EIO and nothing else, in every continuation of the run |
| HardwareAdmissionSafety.ParkedRefusalIsEioIff | docs/rs4xx-failed-reset-hardware-containment.md:54-67 | in every reachable state a reader or ordinary transaction about to begin is sure to be refused on a parked device with -EIO only, in every continuation of the run, exactly if the latch is set when it begins |
| HardwareAdmissionSafety.ParkedStateIsLatched | drivers/gpu/drm/radeon/radeon_device.c:2555-2559 | in every reachable state the lifecycle state shows PARKED only if the latch is set |
| HardwareAdmissionSafety.ReaderMeetsLatch | drivers/gpu/drm/radeon/radeon_device.c:108-130 | a reader about to begin on any reachable unlatched device has a continuation that refuses it on a parked device with the errno of the state it began in, -EALREADY if RUNNING |
| HardwareAdmissionSafety.TransactionMeetsLatch | drivers/gpu/drm/radeon/radeon_device.c:188-221 | the same for a transaction: -EBUSY if it began on a RUNNING device |
| HardwareAdmissionSafety.ParkedReaderCanGetEalready | drivers/gpu/drm/radeon/radeon_device.c:108-130 | a run from the initial state that ends so: a refused reader on a parked device returns -EALREADY |
| HardwareAdmissionSafety.RunningRollbackMeansParked | drivers/gpu/drm/radeon/radeon_device.c:108-130 | in every run a reader ends with -EALREADY exactly when it is rolled back after reading RUNNING, and then only on a parked device |
| HardwareAdmissionSafety.PublicationIsNotLost | drivers/gpu/drm/radeon/radeon_device.c:74-83 | a requested publication that has not begun is never forgotten: with no transaction open, no queue check in flight and the work item idle, it is queued |
| HardwareAdmissionAlone.AloneIsARun | drivers/gpu/drm/radeon/radeon_device.c:188-255 | every run can be continued by one call stepping alone, so the outcomes below are ends of runs from any reachable state |
| HardwareAdmissionAlone.TransactionOutcome | drivers/gpu/drm/radeon/radeon_device.c:188-221 | a transaction that meets no other step is admitted, with the counter one higher and nothing else changed, exactly on an unlatched device that is RUNNING and open or in its own task's transition; otherwise it changes nothing and returns the errno documented for the state, -EIO if latched and -EBUSY if RUNNING and closing |
| HardwareAdmissionAlone.ReaderOutcome | drivers/gpu/drm/radeon/radeon_device.c:108-130 | the same for a reader, which a closing gate does not stop |
| HardwareAdmissionAlone.TransactionEnd | drivers/gpu/drm/radeon/radeon_device.c:244-255 | the end of an admitted transaction takes back its count and succeeds; the last one queues a pending publication unless the work item is running |
| HardwareAdmissionAlone.TransactionRolledBack | drivers/gpu/drm/radeon/radeon_device.c:205-221 | a transaction that finds the device closed, latched or in a foreign transition after it counted itself takes the count back and returns the state's errno, -EBUSY for RUNNING |
| HardwareAdmissionAlone.ReaderRolledBack | drivers/gpu/drm/radeon/radeon_device.c:118-130 | the same for a reader, -EALREADY for RUNNING |
| HardwareAdmissionAlone.TransactionRoundTrip | drivers/gpu/drm/radeon/radeon_device.c:188-255 | begin and end on an open device leave it exactly as it was |
| HardwareAdmissionAlone.TransitionOutcome | drivers/gpu/drm/radeon/radeon_device.c:278-392 | a transition that meets no other step is held, with the gate closed, its task as owner and its target shown, exactly if it is the shutdown or the device is unlatched and in the expected state; otherwise it changes nothing and returns -EIO or the errno of the state found |
| HardwareAdmissionAlone.TransitionEnd | drivers/gpu/drm/radeon/radeon_device.c:394-426 | its end frees locks and owner and shows the final state, or PARKED if the device was latched meanwhile and is not shut down; the gate is open after an end to RUNNING and closed after one to PARKED |
| HardwareAdmissionAlone.TransitionRoundTrip | drivers/gpu/drm/radeon/radeon_device.c:278-426 | a reset begun and ended on an open device leaves it as it was, open |
| HardwareAdmissionAlone.ShutdownOutcome | drivers/gpu/drm/radeon/radeon_device.c:372-426 | a shutdown that meets no other step leaves the device in SHUTDOWN, closed, unowned and unlocked, latched or not |
| HardwareAdmissionAlone.TransitionFails | drivers/gpu/drm/radeon/radeon_device.c:296-305 | a latch found behind the wait for transactions ends the transition with -EIO, the terminal state shown and the lock free |
| HardwareAdmissionAlone.TransitionAborts | drivers/gpu/drm/radeon/radeon_device.c:333-342 | a latch found behind the wait for readers does so too, and clears the owner |
| HardwareAdmissionAlone.TransitionMismatch | drivers/gpu/drm/radeon/radeon_device.c:313-321 | an unexpected state found at the publication clears the owner, frees the lock and returns that state's errno |
| HardwareAdmissionAlone.LatchOutcome | drivers/gpu/drm/radeon/radeon_device.c:428-445 | the latch sets the latch, closes the gate, shows PARKED unless the device is SHUTDOWN, and changes nothing else |
| HardwareAdmissionAlone.RequestOutcome | drivers/gpu/drm/radeon/radeon_device.c:465-473 | a publication request latches, marks a publication pending, and queues the work item exactly if no transaction is open and the work item is not running |
| HardwareAdmissionAlone.PublishOutcome | drivers/gpu/drm/radeon/radeon_device.c:475-500 | a publisher that meets no other step latches, waits, and leaves every lock free |
| HardwareAdmissionAlone.WorkOutcome | drivers/gpu/drm/radeon/radeon_device.c:501-520 | the queued work item serves the request: the device is latched and nothing is queued, pending, running or demanded |
| ResetMaskClaim.ClaimIsAtomic | drivers/gpu/drm/radeon/radeon_rs4xx_reset_mask_claim.h:23-35 | the read, compare-and-exchange, retry loop refines an atomic take-and-reset: for any number of claimers and any arm and disarm sequence, every call takes effect at one instant between its start and its return |
| ResetMaskClaim.HistoryIsSequential | drivers/gpu/drm/radeon/radeon_rs4xx_reset_mask_claim.h:23-35 | operation by operation, in every run: a store sets the slot; a take of a selection other than baseline and below the count returns it and leaves baseline; any other take returns baseline and leaves the slot |
| ResetMaskClaim.UndisturbedClaim | drivers/gpu/drm/radeon/radeon_rs4xx_reset_mask_claim.h:23-35 | a claim that nothing disturbs returns an armed, in-range selection and resets the slot, and otherwise returns baseline and leaves it |
| ResetMaskClaim.UnwrittenClaimSucceeds | drivers/gpu/drm/radeon/radeon_rs4xx_reset_mask_claim.h:29-33 | in every run a claim that read such a selection and finds the slot unwritten since returns it and leaves baseline |
| ResetMaskClaim.RetriesAreCharged | drivers/gpu/drm/radeon/radeon_rs4xx_reset_mask_claim.h:29-33 | a claimer never fails more exchanges than the slot was written since its call began |
| ResetMaskClaim.ArmsAreConserved | scripts/calibrate_rs480_reset_mask_claim.c:22-27 | every armed selection is claimed once, or displaced by a later store, or still in the slot |
| ResetMaskClaim.ClaimsAreOneShot | scripts/calibrate_rs480_reset_mask_claim.c:22-27 | a claim returns the value the last store armed, and two claims never share one store, even when the same value is armed again |
| ResetMaskClaim.OutOfRangeStays | scripts/calibrate_rs480_reset_mask_claim.c:22-27 | in every run, from any moment at which the slot is out of range or baseline and as long as nothing is stored, every claim that returns returns baseline and the slot keeps its value |
| ResetMaskClaim.TornConsumesTwice | scripts/calibrate_rs480_reset_mask_claim.c:42-54 | the earlier shape, read and then store, hands one arm to two claimers |
| CpMeDump.SeqFile.Serve | drivers/gpu/drm/radeon/radeon_rs4xx_dev.c:1236-1309 | a loop that calls the three callbacks turn after turn takes the open file through exactly the run that its turns bring about, so what is proved of runs holds of the callbacks |
| CpMeDump.EveryPlayIsServed | drivers/gpu/drm/radeon/radeon_rs4xx_dev.c:1236-1309 | and every run, with its flag changes, replays and deliveries, is brought about by some turns |
| CpMeDump.Dump | drivers/gpu/drm/radeon/radeon_rs4xx_dev.c:1186-1197 | the lines such a loop leaves have the promised shape, for all turns |
| CpMeDump.ApplyKeepsInv | drivers/gpu/drm/radeon/radeon_rs4xx_dev.c:1189-1309 | every callback, delivery or taken-back record keeps the relation between the encoded position and the lines shown so far, whatever the flags and the lock do |
| CpMeDump.DumpShape | drivers/gpu/drm/radeon/radeon_rs4xx_dev.c:1186-1197 | the schema line comes first, register rows have strictly increasing addresses below 0x100, and at most one terminal record follows, with nothing behind it |
| CpMeDump.TerminalIsSticky | drivers/gpu/drm/radeon/radeon_rs4xx_dev.c:1189-1197 | a terminal position, once reached, is the kind the dump ends with, whatever the flags do afterwards and however often the record is replayed |
| CpMeDump.FlagsDecide | drivers/gpu/drm/radeon/radeon_rs4xx_dev.c:1189-1215 | every terminal test sets the position its flags ask for, 0x104 if parked, else 0x106 if suspended, else 0x102 if not armed, and otherwise the position only advances by one |
| CpMeDump.TerminalRecordHasItsCause | drivers/gpu/drm/radeon/radeon_rs4xx_dev.c:1189-1215 | the terminal record of every dump is the one that some test at a data position or the header asked for |
| CpMeDump.RowsCarryTheirWords | drivers/gpu/drm/radeon/radeon_rs4xx_dev.c:1278-1309 | every row of every dump was shown at the position of its address under admitting flags and carries the two words the granted lock gave, high word first; every refusal line carries the flags of the denied lock |
| CpMeDump.EndStays | drivers/gpu/drm/radeon/radeon_rs4xx_dev.c:1245-1246 | an end of file stays the end: later reads show nothing |
| CpMeDump.DumpTerminates | drivers/gpu/drm/radeon/radeon_rs4xx_dev.c:1255-1272 | at most 258 records are ever kept, by an explicit measure on the position |
| CpMeDump.UndisturbedDumpIsComplete | drivers/gpu/drm/radeon/radeon_rs4xx_dev.c:1180-1185 | if the gate and the lock always admit, a dump read to its end shows addresses 0 to 255 once each and in order, however the reader splits and replays it |
| CpMeDump.OneSchemaLineIff | policy/rs4xx-guard-scope.tsv:7 | the schema line is one record exactly if no data record was shown into an empty buffer |
| CpMeDump.SchemaLineCanRepeat | policy/rs4xx-guard-scope.tsv:7 | a run in which it appears twice |
| CpMeDump.SchemaLineCount | drivers/gpu/drm/radeon/radeon_rs4xx_dev.c:152-156 | over any run, the schema lines shown are the header and one for each data record shown into an empty buffer |
| FenceSequence.FenceDriver.PublishLastSeq | drivers/gpu/drm/radeon/radeon_fence.c:287-302 | the compare-and-exchange loop, against any rivals, leaves the maximum of its argument and what they published, and reports installation exactly when its argument was the larger |
| FenceSequence.LastSeqIsMaximum | drivers/gpu/drm/radeon/radeon_fence.c:287-302 | in every interleaving of scans the published number never goes down and is the maximum of its start and everything installed |
| FenceSequence.PublicationHolds | drivers/gpu/drm/radeon/radeon_fence.c:287-302 | a publication that returns leaves the published number at least at its argument, for the rest of the run |
| FenceSequence.RetriesAreCharged | drivers/gpu/drm/radeon/radeon_fence.c:287-302 | failed exchanges are charged to installs by others, each raised the number seen, and a scan publishes at most twelve times |
| FenceSequence.ScanReports | drivers/gpu/drm/radeon/radeon_fence.c:314-366 | in every run a scan asks for a wake exactly if it has itself installed a newer number, and an install ends it exactly if it is the twelfth; otherwise it samples again from there |
| FenceSequence.IdleScan | drivers/gpu/drm/radeon/radeon_fence.c:314-366 | a scan of hardware that shows nothing newer changes nothing and asks for no wake |
| FenceSequence.ExtensionIsExact | drivers/gpu/drm/radeon/radeon_fence.c:332-338 | a 32-bit sample extends to exactly the number the hardware reached while the fences since the last publication fit one turn of the counter |
| FenceSequence.OvershootsIff | drivers/gpu/drm/radeon/radeon_fence.c:332-341 | the exact inputs on which the extension would pass a number the hardware has not reached |
| FenceSequence.OvershootIsPossible | drivers/gpu/drm/radeon/radeon_fence.c:332-341 | such inputs exist |
| FenceSequence.NoFenceSignalsEarly | drivers/gpu/drm/radeon/radeon_fence.c:314-366 | no fence signals before the hardware reached it, in any interleaving of scans, emissions, retirements and forced completions with fewer than 2^32 fences in flight |
| FenceSequence.ScanCatchesUp | drivers/gpu/drm/radeon/radeon_fence.c:314-366 | an undisturbed scan publishes what the hardware has reached |
| IrqReferences.CountIsExact | drivers/gpu/drm/radeon/radeon_irq_kms.c:491-567 | in every run each ring's count lies between zero and the number of its fences and active sequence waiters that hold a reference; as long as no count was reset while it was not zero, it is exactly that number and no put ever finds it empty |
| IrqReferences.ResetKeepsCountIff | drivers/gpu/drm/radeon/radeon_irq_kms.c:163-167 | installing or removing the interrupt handler keeps exact counts exact exactly when the count it resets is zero |
| IrqReferences.ResetCanLoseReferences | drivers/gpu/drm/radeon/radeon_irq_kms.c:163-167 | a run whose reset finds a count of one and leaves a waiter that holds a reference the count has lost |
| IrqReferences.ReferencesAreReleasedOnce | drivers/gpu/drm/radeon/radeon_fence.c:185-214 | every interrupt reference is released exactly once and every queue reference put exactly once, whichever of wake, terminal completion, wait cleanup and the enable race comes first |
| IrqReferences.EnabledFencesAreWatchedIff | drivers/gpu/drm/radeon/radeon_fence.c:528-607 | in every run a fence whose signalling is enabled and that has not signalled is in the wait queue exactly if no fence wait has removed its entry |
| IrqReferences.AbandonedFenceMissesItsWake | drivers/gpu/drm/radeon/radeon_fence.c:1463-1467 | a run in which a wait removes the entry first: the number is published, a complete wake passes, and the fence is enabled, due, unsignalled and in no queue |
| IrqReferences.WalkSettlesTheDue | drivers/gpu/drm/radeon/radeon_fence.c:259-285 | when a wake of the queue ends, every entry that was due when it began has signalled and dropped its reference |
| IrqReferences.TerminalWalkDrains | drivers/gpu/drm/radeon/radeon_fence.c:1162-1192 | the first complete wake after the terminal state empties the queue for good; outside the lock only sequence waiters hold references from then on |
| IrqWakeups.EnableBegins | drivers/gpu/drm/radeon/radeon_fence.c:528-547 | in every run an enable that begins on a due fence settles it at once and takes nothing; otherwise it marks the fence and asks for access |
| IrqWakeups.EnableAsks | drivers/gpu/drm/radeon/radeon_fence.c:549-590 | granted or delayed access takes one reference of the fence's ring; a refusal settles the fence and takes nothing |
| IrqWakeups.EnableChecks | drivers/gpu/drm/radeon/radeon_fence.c:558-572 | the second look settles a fence that has become due and gives its reference back; any other goes on to the queue unchanged |
| IrqWakeups.EnableEnds | drivers/gpu/drm/radeon/radeon_fence.c:592-606 | the end of an enable queues the fence with one fence reference, or settles it on a terminal device |
| IrqWakeups.NoWakeIsLost | drivers/gpu/drm/radeon/radeon_fence.c:528-606 | in every run, a fence that waits in the queue although it is due became due after its enable had decided to wait, or that enable was delayed and scheduled a check, and no walk that began on it as due has ended since: the wake owed is still to come |
| IrqWakeups.SignalsHaveReasons | drivers/gpu/drm/radeon/radeon_fence.c:185-285 | in every run a fence that has signalled was found due by some operation, or its enable was refused access |
| IrqWakeups.VisitOutcome | drivers/gpu/drm/radeon/radeon_fence.c:259-285 | a walk settles each due fence it calls, with its queue reference put, and leaves every other as it is |
| IrqWakeups.RemovalOutcome | drivers/gpu/drm/radeon/radeon_fence.c:185-214 | a poll or completion settles its fence and the end of a wait removes the entry without signalling; each leaves one fence reference to put exactly if there was an entry |
| IrqWakeups.ScanOutcome | drivers/gpu/drm/radeon/radeon_fence.c:553-556 | an activity scan under an enable that asks for a wake has every queued fence called before the second look |
| IrqWakeups.WalkOutcome | drivers/gpu/drm/radeon/radeon_fence.c:259-285 | a wake has every queued fence called, and owes a signal to exactly those that are due |
| IrqWakeups.EnableAlone | drivers/gpu/drm/radeon/radeon_fence.c:528-606 | an undisturbed enable of a fresh fence can run to its end, and has then queued the fence, taken one interrupt and one fence reference, and changed nothing else |
| IrqWakeups.WalkFinishes | drivers/gpu/drm/radeon/radeon_fence.c:259-285 | a walk under way can always be brought to its end |
| IrqWakeups.WaiterAcquires | drivers/gpu/drm/radeon/radeon_irq_kms.c:491-567 | an undisturbed sequence wait takes one reference of each of its rings, of all eight, and sleeps |
| IrqWakeups.WaiterReleases | drivers/gpu/drm/radeon/radeon_irq_kms.c:491-567 | its end gives back exactly those |
| CombiosTables.ValidateMmio | scripts/check_radeon_bios_bounds.py:232-242 | the ROM script's loop computes the MMIO walk: command count and end, or refusal |
| CombiosTables.ValidatePll | scripts/check_radeon_bios_bounds.py:245-256 | the ROM script's loop computes the PLL walk |
| CombiosTables.DecodeInverts | scripts/check_radeon_bios_bounds.py:232-256 | accepted bytes are exactly the encoding of the well-formed commands read from them |
| CombiosTables.EncodingIsAccepted | scripts/check_radeon_bios_bounds.py:232-256 | every list of commands with nonterminating entries, encoded anywhere in any image, is accepted with its own length and read back unchanged |
| CombiosTables.AcceptsExactlyTheEncodings | scripts/check_radeon_bios_bounds.py:232-256 | a walk accepts a place exactly if some table is encoded there |
| CombiosTables.EncodingIsPrefixFree | scripts/check_radeon_bios_bounds.py:232-256 | different tables never share an encoding, nor is one a prefix of another |
| CombiosTables.WalkIsLocal | scripts/check_radeon_bios_bounds.py:232-256 | result and commands depend on the walked bytes alone |
| CombiosTables.WalkUnderTruncation | scripts/check_radeon_bios_bounds.py:216-219 | cutting an image keeps exactly the walks that end inside the cut |
| CombiosTables.CountIsBounded | scripts/check_radeon_bios_bounds.py:232-256 | count + 1 entries fit the walked bytes, so 2*count+2 <= end-offset for MMIO and count+1 <= end-offset for PLL, inside the image |
| CombiosDriver.Bios.SpanValid | drivers/gpu/drm/radeon/radeon_bios.c:43-53 | a span is valid exactly if it lies in the bounded image; a failure is latched |
| CombiosDriver.Bios.GetBios | drivers/gpu/drm/radeon/radeon_bios.c:764-832 | the driver admits a COMBIOS image exactly when the ROM script's admission without its size ceiling does, with the same size and header |
| CombiosDriver.AdmittedIff | scripts/check_radeon_bios_bounds.py:208-223 | byte by byte, exactly which ROMs are admitted, with which size and header: the ROM and PCIR marks, the declared size, the legacy code type, and a header inside the image without either ATOM mark |
| CombiosDriver.Bios.GetTableOffset | drivers/gpu/drm/radeon/radeon_combios.c:405-413 | the lookup fails exactly where the ROM script finds no table although the header's size byte has the slot; otherwise it gives the script's offset, or none for a slot the header leaves out |
| CombiosDriver.Bios.ValidateMmioTable | drivers/gpu/drm/radeon/radeon_combios.c:3247-3286 | the preflight holds exactly for an absent table or an accepted walk, and latches a failure exactly otherwise |
| CombiosDriver.Bios.ValidatePllTable | drivers/gpu/drm/radeon/radeon_combios.c:3288-3311 | the same for PLL tables |
| CombiosDriver.Bios.ValidateRamResetTable | drivers/gpu/drm/radeon/radeon_combios.c:3313-3336 | the same for RAM reset tables |
| CombiosDriver.Bios.ParseMmioTable | drivers/gpu/drm/radeon/radeon_combios.c:3338-3417 | on a preflighted table the interpreter performs the effects of exactly the encoded commands, in order, without a read outside the image; on any other it ends with the failure latched |
| CombiosDriver.EffectsRoundTrip | drivers/gpu/drm/radeon/radeon_combios.c:3338-3417 | every expressible effect comes back from the command made for it: the register, the mask before the value, the low byte first, for both kinds of a write |
| CombiosDriver.Preflight | drivers/gpu/drm/radeon/radeon_combios.c:3706-3747 | for an integrated device, as every RS4xx is: all offsets are looked up before any table is walked, the dynamic-clock table not at all on the machines that skip it; the preflight holds exactly if each table looked up is absent from the header, empty or accepted |
| CombiosDriver.ScriptIsPreflightIff | scripts/check_radeon_bios_bounds.py:226-274 | the ROM script validates a ROM exactly if it is within the script's ceiling, passes the driver's preflight of all four tables, and has all four slots inside its header |
| CombiosDriver.ScriptVerdict | scripts/check_radeon_bios_bounds.py:259-274 | the script accepts exactly the admitted ROMs of at most 0x100000 bytes whose slots 0x0c and 0x4e hold MMIO tables and 0x46 and 0x52 PLL tables, absent or accepted |
| CombiosDriver.SmallHeaderPassesPreflight | drivers/gpu/drm/radeon/radeon_combios.c:405-413 | a ROM of 512 bytes whose header declares no size passes the preflight and is rejected by the script |
| CombiosDriver.AcceptedOnFullRom | scripts/check_radeon_bios_bounds.py:208-223 | a table accepted on the admitted image is accepted with the same commands on the whole ROM |
| CombiosDriver.AdmissionIsLocal | scripts/check_radeon_bios_bounds.py:208-223 | admission depends on the admitted image alone |
| TclBypassVtx.Check | drivers/gpu/drm/radeon/r300_tcl_bypass_vtx_check.h:122-259 | the branching decision with its accumulators and bit mask computes the decision on the decoded elements |
| TclBypassVtx.VerdictMeaning | drivers/gpu/drm/radeon/r300_tcl_bypass_vtx_check.h:87-121 | it passes exactly the in-scope streams that feed what their element list fetches and deliver at least the required dwords, rejects exactly those in scope that fall short, and gives a reason exactly for a decline |
| TclBypassVtx.SuffixIsListOk | drivers/gpu/drm/radeon/r300_tcl_bypass_vtx_check.h:195-202 | the mask test amounts to pairwise distinct destinations over the list |
| TclBypassVtx.DecodesElement | drivers/gpu/drm/radeon/r300_tcl_bypass_vtx_check.h:19-34 | an element half is read back as the data type, skip, destination and last mark it was made of, and its selector half by the two named values |
| TclBypassVtx.DecodesWords | drivers/gpu/drm/radeon/r300_tcl_bypass_vtx_check.h:19-34 | eight word pairs are read back as sixteen elements, even ones from the low halves, written if both words are |
| TclBypassVtx.FormatMeaning | drivers/gpu/drm/radeon/r300_tcl_bypass_vtx_check.h:122-175 | the decision declines for the first missing premise in the documented order; it requires four dwords, four more for a color, and the eight counts |
| TclBypassVtx.UpperBitsDecline | drivers/gpu/drm/radeon/r300_tcl_bypass_vtx_check.h:122-175 | format bits above the eighth count decline |
| TclBypassVtx.WidthsMeaning | drivers/gpu/drm/radeon/r300_tcl_bypass_vtx_check.h:87-121 | a plain float element of type 0 to 3 fetches and delivers one to four dwords; an XY01 element has type 1, fetches two and delivers four |
| TclBypassVtx.RetainedCaptures | drivers/gpu/drm/radeon/r300_tcl_bypass_vtx_check.h:78-97 | the retained captures: position and color in eight dwords pass, position and two full texture coordinates pass with twelve and are rejected with eight |
| TclBypassVtx.TailIsIrrelevant | drivers/gpu/drm/radeon/r300_tcl_bypass_vtx_check.h:103-108 | nothing behind the last element matters, neither the words nor whether they were written |
| TclBypassVtx.Color0MissDiffersIff | scripts/calibrate_r300_tcl_bypass_vtx_check.c:491-581 | missing COLOR_0's four dwords changes the verdict exactly on in-scope COLOR_0 streams that deliver one to four dwords too few, and then from REJECT to PASS |
| TclBypassVtx.CheckIdentityAssumption | scripts/calibrate_r300_tcl_bypass_vtx_check.c:456-487 | the selector-blind shape compares the supplied size alone |
| TclBypassVtx.IdentityAssumptionErrsIff | scripts/calibrate_r300_tcl_bypass_vtx_check.c:451-455 | the two exact ways in which the selector-blind shape errs |
| FeatureGraph.Search.Visit | scripts/check_build_features.py:699-707 | one visit completes its feature and leaves the active set as it was, or has met a cycle; it ends on every graph |
| FeatureGraph.ValidateDependencies | scripts/check_build_features.py:682-711 | the check accepts exactly the acyclic graphs whose dependencies are known and of no higher tier |
| FeatureGraph.CeilingIsClosed | scripts/check_build_features.py:682-696 | what a profile ceiling admits is closed under transitive dependencies |
| FeatureGraph.ProfileRows | scripts/check_all_dev_interfaces.py:1028-1041 | the rows of a profile are those of features at or below its tier, in file order |
| FeatureGraph.RuntimeRows | scripts/check_all_dev_interfaces.py:1044-1067 | a runtime profile above the compiled one is refused; otherwise it shows the rows at or below its own tier |
| FeatureGraph.RuntimeIsProfile | scripts/check_all_dev_interfaces.py:1044-1067 | selecting through the compiled profile changes nothing, and `off` shows nothing |
| PlanCoverage.ValidatePlanCoverage | scripts/check_build_features.py:714-769 | the check accepts exactly the exact covers: only wanted tokens occur, each exactly once, in a feature of the declared tier, and a split row's profile is its retained part's tier |
| PlanCoverage.ValidatePlan | scripts/check_build_features.py:714-769 | the same on the rows the plan splits, each of which names a part of its own as the retained one |
| PlanCoverage.ShippedSplitIsExact | scripts/check_build_features.py:176-201 | the compiled table of split rows agrees with the shipped plan's profiles and the shipped policy's features, part by part and tier by tier |
| PlanCoverage.AllSeen | scripts/check_build_features.py:714-769 | over all rows these shares are the exact cover |
| SourceScan.BlockEnd | scripts/check_parked_admission_guards.py:250-271 | the depth loop finds the end of a block, and reports none only if there is none |
| SourceScan.FunctionCode | scripts/check_parked_admission_guards.py:240-271 | a function's text runs from its definition through its matching brace |
| SourceScan.ControlledStatement | scripts/check_parked_admission_guards.py:441-463 | a condition controls the block behind it, or the statement through its semicolon |
| SourceScan.BraceDepth | scripts/check_parked_admission_guards.py:274-287 | the depth at an offset, defined exactly where braces never close more than they opened |
| SourceScan.RequireDirectStatement | scripts/check_parked_admission_guards.py:298-343 | a match is accepted exactly if brace order is valid up to it and its scope, it lies at the scope's brace depth and, unless it lies in front of the scope, starts a statement there |
| SourceScan.BlockIsBracedWord | scripts/check_parked_admission_guards.py:250-271 | a block found is exactly a braced word of the balanced-brace grammar |
| SourceScan.BlocksAreLaminar | scripts/check_parked_admission_guards.py:441-463 | two blocks are disjoint or nested |
| SourceScan.DirectIff | scripts/check_parked_admission_guards.py:305-307 | equal brace depth means exactly that no smaller block covers the place |
| SourceScan.DirectIsUncovered | scripts/check_parked_admission_guards.py:298-343 | a match accepted as direct in a block is inside none of the block's own blocks |
| SourceScan.RejectForwardGoto | scripts/check_parked_admission_guards.py:499-518 | acceptance means that every jump has its label and none leads from before the interval to behind it |
| SourceScan.NoBypassIffCut | scripts/check_parked_admission_guards.py:499-505 | no jump bypasses the interval exactly if every walk by fall-through and jumps from before it to behind it passes through it |
| SourceScan.ConditionalStackAt | scripts/check_all_dev_interfaces.py:704-727 | the loop computes the stack of open conditionals with their latest branches |
| SourceScan.GroupsLeaveNoTrace | scripts/check_all_dev_interfaces.py:704-727 | complete conditional groups leave no trace on the stack but the branch they change at their own level |
| SourceScan.NotEnclosedIff | scripts/check_all_dev_interfaces.py:691-701 | no conditional is open at an offset exactly if the directives before it form complete groups |
| Packet0.AdmissionIsEnoughIff | drivers/gpu/drm/radeon/r100.c:1434-1442 | admission bounds every register of the walk exactly if the 32-bit offset does not wrap around or the bitmap covers all registers |
| Packet0.WrapIsPossible | drivers/gpu/drm/radeon/r100.c:1438-1442 | a packet value that wraps and is admitted out of bounds |
| Packet0.ParsedNeverOverruns | drivers/gpu/drm/radeon/radeon_reg.h:3710-3714 | no header can express one: for parsed packets admission is enough |
| Packet0.DecodesRegisterWrite | drivers/gpu/drm/radeon/radeon_reg.h:3710-3714 | a register write decodes to the register, count and repeat flag it was made of |
| Packet0.DecodesWideRegisterWrite | drivers/gpu/drm/radeon/radeon_cs.c:876-884 | from R600 on the register has sixteen bits and there is no repeat flag |
| Packet0.DecodesCommand | drivers/gpu/drm/radeon/radeon_reg.h:3710-3714 | a type-3 packet decodes to its opcode and count |
| Packet0.DecodesFillers | drivers/gpu/drm/radeon/radeon_cs.c:885-900 | a type-2 header is one dword whatever its other bits |
| Packet0.OneRegisterBitmap | drivers/gpu/drm/radeon/r100.c:1444-1450 | a bitmap with one bit set has exactly the register of that word and bit checked |
| CommandStream.CsParser.PacketParse | drivers/gpu/drm/radeon/radeon_cs.c:858-905 | a packet is refused exactly if its index is behind the buffer, its type is 1, or it does not end inside the buffer |
| CommandStream.RelocationIff | drivers/gpu/drm/radeon/radeon_cs.c:965-1007 | a relocation lookup takes the dword at the position exactly if there is a chunk and it heads a type-3 packet with opcode 0x10 that ends in the buffer, and is then behind it; anything else is -EINVAL |
| CommandStream.VlineIff | drivers/gpu/drm/radeon/r100.c:1477-1513 | a wait is recognised exactly as one value 8 written to register 0x1720 with a packet of any type but 1 behind it that ends in the buffer |
| CommandStream.CsParser.Parse | drivers/gpu/drm/radeon/r100.c:2141-2185 | the loop, with the relocations and waits that the checks under it take, computes the whole walk; from the start of a buffer it never leaves the bitmap and leaves the buffer exactly behind a closing filler, and a buffer it accepts is tiled by the packets taken and has had exactly the checks of the loop's own type-0 packets |
| CommandStream.WalkMakesTheChecks | drivers/gpu/drm/radeon/r100.c:1418-1461 | a refusal comes before any check; otherwise the checks are those of the first iterations in order, all of them on success; the bitmap is left only on a wrapping offset and a bitmap that does not cover all registers; and any other end is the end of the last check made, which refused or left the buffer |
| CommandStream.CleanPacketResult | scripts/calibrate_r100_packet0_bitmap_bounds.c:36-68 | with checks that take nothing and return 0 a packet is refused exactly by the admission test, and once admitted succeeds exactly if it does not wrap or the bitmap covers all registers; with a bitmap of ones a success has made exactly count + 1 checks, in order, and a refusal none |
| CommandStream.AcceptedStreamIsAccounted | drivers/gpu/drm/radeon/r100.c:2141-2185 | a buffer that passes is tiled end to end by the loop's packets and those its checks took, each the packet the buffer holds there; the register checks made are exactly those of the loop's type-0 packets, in order; every other packet is a relocation NOP, a vertical-line wait, or the packet behind one |
| CommandStream.OnlyWaitsUncheckedIff | drivers/gpu/drm/radeon/r100.c:1477-1546 | in a buffer that passes the only unchecked type-0 packets are waits of one value to WAIT_UNTIL exactly if no wait taken has a type-0 header in the dword behind it |
| CommandStream.PacketBehindWaitCanBeUnchecked | drivers/gpu/drm/radeon/r100.c:1506-1517 | for every display controller named, a buffer that passes with a type-0 packet behind the wait, to another register, that got no check |
| CommandStream.OverrunsBehindFillerIff | drivers/gpu/drm/radeon/r100.c:1516 | no walk leaves the register bitmap, and a walk reads outside its buffer exactly if the last packet it took is a one-dword filler in the last place behind a wait; so only in buffers that end in a type-2 dword behind a one-value packet holding the wait |
| CommandStream.VlineOverrunsIff | drivers/gpu/drm/radeon/r100.c:1516 | once a wait has been recognised and a packet behind it, the read leaves the buffer exactly in that case |
| CommandStream.FillerBehindWaitOverruns | drivers/gpu/drm/radeon/r100.c:1516 | a buffer on which it does |
| GemCreate.Device.ObjectCreate | drivers/gpu/drm/radeon/radeon_gem.c:157-232 | whatever the callees answer: at most three attempts and one repacking, each retry exactly for its own reason, access balanced, and an object listed exactly on success |
| CsIoctl.Submission.IbChunk | drivers/gpu/drm/radeon/radeon_cs.c:553-588 | a buffer outside a VM is submitted exactly when parse, flag, sync and ring allow |
| CsIoctl.Submission.IbVmChunk | drivers/gpu/drm/radeon/radeon_cs.c:639-689 | a buffer inside a VM is submitted exactly when every step succeeded, and the VM mutex is dropped on every path |
| CsIoctl.Submission.Finish | drivers/gpu/drm/radeon/radeon_cs.c:841-846 | reservations are released under admission, storage after it, and a lockup reset runs with nothing held |
| CsIoctl.Submission.Ioctl | drivers/gpu/drm/radeon/radeon_cs.c:757-847 | admission is released exactly once on every admitted path; reservations and storage exactly when the parser started; success exactly when every callee succeeded; a success with reserved objects has submitted the buffer and given them its fence, and a success without a submission of a buffer that is there is exactly a parser flag without an error code and without reserved objects; otherwise the first error met, a lockup turned into a reset and a retry |

## Left out

- Liveness: wake-ups, wait-queue order, scheduling, timeouts and signals; waits are conditions that
  may stay false.
- Weak memory: the stated barriers are taken to give sequential consistency.
- The `exclusive_lock` semaphore around admission, the non-RS4xx branches of the admission helpers,
  and the terminal quiesce of unload; publication work is taken to be initialised.
- Hardware register values: register writes, reads and polls appear as effects or not at all.
- `IrqReferences`: the delayed-interrupt demand flag, the interrupt mask written to the hardware and
  error codes carried by fences; lockup work only as the wakes it causes.
- `FenceSequence`: ring start-up, which rewrites the hardware counter, and rings without a
  write-back page, whose sample is the published number itself; the delayed check a scan schedules while
  fences are outstanding.
- Seeks in the dump file; only sequential reads with replay are modelled.
- COMBIOS: a missing BIOS, the nested table offsets, the RAM-size tables, the effects of the
  PLL and RAM-reset interpreters, and ATOM images.
- CombiosDriver.Preflight: covers the four tables the ROM script validates, not the driver's further
  tables for discrete devices.
- Regular-expression matching, line splicing, comment blanking and digraph mapping (sections 5.1.1.2
  and 6.4.6 of ISO/IEC 9899:2011): `SourceScan` works on stripped text, on label and jump lists and
  on directive lists.
- SourceScan.NoBypassIffCut: control moves by fall-through and `goto` only; branches around a braced
  interval by `if`, loops, `break`, `switch` and `return` are not part of the paths.
- PlanCoverage: token spelling; tokens are pairs of plan row and part.
- FeatureGraph: evidence dependencies are checked to be known and, as in the script, take no part in
  tiers or cycles.
- CommandStream: the contents of the relocation chunk, the register values a check computes, and the
  dwords that the vertical-line check rewrites, which lie in front of the position. Buffer indices do
  not wrap around. The checks of texture and buffer sizes are part of the arbitrary answers.
- GemCreate: the aperture repacking itself, and sizes whose limit would underflow.
- CsIoctl: chunk copying, relocation lookup and synchronisation appear as their results; the parser
  error flag, which the code reads and nothing in the driver sets, is arbitrary.
- `rs480_cp_me_inject_parse`, the GPU reset body, debugfs registration and file ownership are not part
  of this model.
- Git, file, hash, signature and TOML reading in the scripts, and tables of pinned constants.
