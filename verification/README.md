# A verified model of the gateway firmware's state handling

The firmware drives an ESP32 industrial I/O gateway: digital outputs and inputs, Modbus
registers and coils, a configuration tool over Bluetooth, and settings that have to survive a
power loss at any moment. Its difficult parts are not the drivers but the code that shares
state between tasks without locks and the code that puts state into flash. This project models
those parts in Dafny and proves what they keep, over every interleaving and every run.

`dafny verify dfyconfig.toml` checks the whole project.

## How it is built

Each file models one part of the firmware, in that part's own form.

* Shared state that several tasks change step by step is a state machine: a `State`, the steps
  of each task (one atomic access of the source is one step), which of them are enabled, and
  what they do. `Runs` is any sequence of enabled steps from the start. Fields named as history
  in a file's first comment record the past for the theorems; no step tests them.
  Beside what every run keeps, theorems named for an end (`ReadReturns`, `FlushSucceeds`,
  `FrameIsExecuted` and the like) say that a task which runs alone and meets no fault gets there:
  its steps are enabled one after the other, and what they leave is spelled out.
* Objects that one task updates in place are classes. Their methods follow the source branch by
  branch and loop by loop and are proved equal to functions on values; the theorems about
  single calls and whole runs are about those functions.
* Buffers filled in place are arrays.
* Machine words are integers with their range written out, and wrap-around, truncation and
  saturation are explicit. Bit sets stand for bit masks, and the CRC register is the sequence
  of its bits.

| file | part of the firmware |
|---|---|
| `Rcu.dfy`, `RcuProgress.dfy` | the epoch-based read-copy-update container, any number of readers and writers |
| `Seqlock.dfy`, `SeqlockProgress.dfy` | the 64-bit I/O map of four words under a sequence word |
| `Crc32.dfy`, `Crc32Values.dfy` | the CRC-32 of IEEE 802.3 clause 3.2.9 |
| `HoldingCodec.dfy`, `HoldingBoot.dfy`, `HoldingStore.dfy`, `BlindSaves.dfy`, `HoldingTears.dfy`, `HoldingSave.dfy` | the raw slot image, the choice of a slot at boot, the two slots that saves alternate between, saves after an unreadable boot, torn writes, and the save on its buffer |
| `ProtoStore.dfy` | the protocol data blob in two NVS keys with an active flag |
| `PendingSave.dfy`, `PendingProgress.dfy` | dirty flags, savers and the flush before a reset |
| `FlushTicket.dfy` | the ticketed wait for "really saved" |
| `ControlLogic.dfy` | delayed and pulsed outputs |
| `SystemConfig.dfy` | the configuration's registers, blob and checks |
| `HoldingRegisters.dfy`, `RegisterReads.dfy` | writing and reading holding registers (MODBUS Application Protocol V1.1b3, sections 6.3, 6.6 and 6.12) |
| `Coils.dfy` | reading and writing coils (sections 6.1, 6.5 and 6.11) |
| `OutputQueue.dfy`, `OutputExpander.dfy` | the output command ring and its worker, and the expander's bit order |
| `BleReassembly.dfy`, `BleTransmit.dfy` | the Bluetooth link: one task's view of reassembly, and sending |
| `BleEpochs.dfy`, `BleContinuations.dfy`, `BleExposure.dfy`, `BleSchedules.dfy`, `BleStaleFrames.dfy`, `BleProgress.dfy` | the same receive slots shared by callback and main loop across connections, and exactly when a stale frame is executed |
| `FunctionTable.dfy` | the legacy function table, stored in and loaded from the registers |
| `AdvertisingHealth.dfy` | the advertising lease |
| `Telemetry.dfy` | the latency histogram |
| `Words.dfy`, `Bits64.dfy`, `Binary.dfy` | machine words, bit sets and binary notation |

## What turned out not to hold

Where the code does less than its comments or its neighbours suggest, the model follows the
code. Each case has a lemma with a concrete run or input, and a lemma that says when the code
does keep the promise.

* A save after a boot that could not read the slots starts again at slot 0 and generation 1.
  It may overwrite the last acknowledged image, so that a power loss after its erase brings back
  an older one (`BlindSaves.BlindEraseIsLost`), and even when acknowledged it may yield to an
  older image in slot 1 (`BlindSaves.BlindSaveIsLost`). `BlindSaves.BlindSaveSurvivesExactly`
  says for every point of such a save when the last acknowledged image or a later one is loaded,
  and `BlindSaves.BlindSaveIsSafeExactly` when that holds at all of them: if and only if slot 1
  holds the last acknowledged image or a later one, if there is any, and no generation that
  counts as newer than 1. Saves that meet this are part of the runs of the main theorem. The
  header with the generation is outside the CRC: `HoldingCodec.HeaderChange`.
* The CRC does not tell every torn write. Wherever the tear comes behind the header and before
  the last four bytes, and whatever the image, four other bytes at the tear make the slot decode
  to something that was never written: `HoldingTears.TearCanPass`, `HoldingTears.TearsTellExactly`.
  The next boot then prefers it to the acknowledged image: `HoldingTears.TornSaveIsMistaken`.
* A load that cannot read the active flag of the protocol data takes the defaults, although a
  commit was acknowledged: `ProtoStore.UnreadFlagHidesTheCommit`. After an acknowledged commit
  it or a later one is loaded if and only if the flag and the key it names can be read:
  `ProtoStore.LoadIsAcknowledgedOrLater`.
* The internal coils 0x400 and 0x401 count as control coils, but lie in the legacy window and
  are stored and marked for saving, though they never read back. A batch of control coils that
  is refused for its restart coil has stored them by then: `Coils.RefusedBatchStores`;
  `Coils.RefusedControlsChangeNothing` says exactly when it has changed nothing.
* A pulse's OFF may be applied before its ON when one pass finds both due, because
  `swap_remove` reorders the table. The output then stays on and nothing is left to end it. A
  pass keeps every pulse's release for later if and only if it takes less than a second from its
  command clock and comes at most a second after the last one (or in the first two seconds,
  since an action that waits is due at 1000 ms or later): `ControlLogic.InTimeExactly`. For every
  other pass `ControlLogic.LatePassLeavesPulseOn` constructs a run of passes in time, with
  commands made from a table of two logics, after which it leaves the output on.
* A ticket is consumed even when the mailbox refuses the flush, so after 2^32 - 1 refusals a
  call mistakes an old completion for its own: `FlushTicket.SavedWithoutSaving`,
  `FlushTicket.PollMatchesExactly`.
* A seqlock read is fooled by exactly 2^31 writes inside one attempt:
  `Seqlock.TornReadAfterWrap`, `Seqlock.ReturnsExactly`.
* A late callback of a cancelled advertising start is taken for the next start's, since
  callbacks carry no request number: `AdvertisingHealth.LateStartConfirmsTheNext`,
  `AdvertisingHealth.LateCallbackExactly`.
* When the request queue refuses a completed frame, the Bluetooth callback gives its slot back
  without checking who owns it. An entry left in the queue from an earlier frame in that slot
  may by then have brought the main loop to it: `BleEpochs.StaleEntryLeadsToDanger`,
  `BleStaleFrames.DangerIsReached`. Bytes of a later connection are then executed under the check of
  an earlier one: `BleStaleFrames.RefusedFrameCanBeStale`. The moment to look for is the one at
  which the callback is giving back the slot that the main loop is checking and the queue has
  room for a frame in each free slot below it. No run whatsoever executes a stale frame without
  it (`BleExposure.StaleNeedsExposure`), and at every moment up to the first of them what is
  under way can end in a stale frame if and only if it is now: `BleStaleFrames.StaleExactly`.
* A single-word write of a raw register is refused while the stored TCP ports are invalid; a
  batch of that one word is not: `HoldingRegisters.SingleIsBatchOfOne`.
* Words of the protocol data past the stored length do not survive a reload:
  `ProtoStore.ExactRoundTrip`. Configuration fields that are zero come back as defaults:
  `SystemConfig.ExactRoundTrip`. A stored function table longer than 254 bytes never loads,
  although tables of up to 1924 words are accepted: `FunctionTable.StoredTableLoadsExactly`,
  `FunctionTable.StoreAcceptsExactly`.

One promise holds more generally than might be expected: the RCU container is safe for every
epoch modulus, not only an even one. A writer keeps the writer lock until no reader is
registered under its old epoch's parity, also when the wrap leaves the parity as it was.

## Model

| member | source | states |
|---|---|---|
| Rcu.NoUseAfterFree | src/bus/rcu.rs:22-93 | From an empty container or one made with a value, in every interleaving of any number of readers and writers, for every epoch modulus, a reader that takes a reference takes it to a value the container or a waiting writer still owns: it is counted and was never freed |
| Rcu.CountsAreOwners | src/bus/rcu.rs:39-132 | After every run a value's strong count is the number of its owners (container, writer, unpublished value, calls, handles), and it has been freed once exactly when it has none |
| Rcu.EverythingIsReclaimedOnce | src/bus/rcu.rs:122-131 | Once the container is dropped and no handle is left, every value ever created has been freed exactly once |
| Rcu.ReadIsCurrent | src/bus/rcu.rs:70-93 | A read returns a value that was current at some moment since it began, so one that starts after a write returns that value or a later one; it returns nothing only if nothing had been published |
| Rcu.IncrementIsSafe | src/bus/rcu.rs:78-88 | The invariant behind it: registered before validated, at most one retired generation per parity, so the pointer a validated reader loaded is still owned when it is counted up |
| Rcu.StepKeepsInv | src/bus/rcu.rs:39-132 | Every atomic step of every reader, writer and owner keeps the epoch, reader, count and history invariants |
| Rcu.RunKeepsInv | src/bus/rcu.rs:39-132 | So does every run |
| RcuProgress.ReadReturns | src/bus/rcu.rs:70-93 | From every state, a read that runs alone returns one more handle on what the container holds, or nothing when it is empty, and leaves readers and counters as they were |
| RcuProgress.ReaderReturns | src/bus/rcu.rs:70-93 | Wherever a read stands, also registered under an epoch that is past, its own steps bring it to its end |
| RcuProgress.WriterReturns | src/bus/rcu.rs:39-68 | Wherever a writer stands on a run, with nobody registered under the parity it leaves, its own steps bring it to its end; the value it put out loses one reference, and is freed exactly when that was the last |
| RcuProgress.WriteReturns | src/bus/rcu.rs:39-68 | A whole write alone makes its value the one the container holds, in the next epoch |
| Seqlock.WordOpIsApplyOp | src/sync.rs:201-248 | The four per-word updates of `store_bits`, `set_bit` and `mask_replace` together are the operation on the whole 64-bit map |
| Seqlock.OneWriter | src/sync.rs:251-272 | A compare-and-swap of the sequence word never succeeds while another call writes |
| Seqlock.WritesAreSerial | src/sync.rs:201-272 | In every interleaving the committed maps are, from the starting map on, the committed operations applied one after the other in one order, and with no writer inside the words are the last of them |
| Seqlock.NoWriteIsLost | src/sync.rs:201-272 | On every run each operation has been committed, is being written or waits to be, as often altogether as it was asked for: none is lost and none done twice |
| Seqlock.ReadIsCommitted | src/sync.rs:183-198 | A bounded read returns a map that was committed when its attempt began and still is, when fewer than 2^31 writes complete during the attempt |
| Seqlock.ReturnsExactly | src/sync.rs:183-198 | An attempt returns exactly when no writer is inside and the writes completed during it are a multiple of 2^31 |
| Seqlock.TornReadAfterWrap | src/sync.rs:183-198 | A run with exactly 2^31 writes inside one attempt, whose read returns a map that was never stored |
| Seqlock.GetBitIsLinear | src/sync.rs:211-217 | `get_bit`, which reads one word without the sequence word, sees the committed bit or the bit of the write about to be committed |
| Seqlock.StepKeepsInv | src/sync.rs:183-272 | Every atomic step keeps the invariant of writers, words and readers |
| SeqlockProgress.WriteCommits | src/sync.rs:201-272 | On every run with no writer inside, a write alone commits, and every channel of map and words is then what the call asked: the stored value, the one bit, or the masked bits |
| SeqlockProgress.ReadReturns | src/sync.rs:183-198 | A bounded read alone, with no writer inside and any attempts, returns the last committed map |
| SeqlockProgress.ReadGivesUp | src/sync.rs:183-198 | One that meets a writer gives up when its attempts are used up |
| Crc32.ComputeCrc | src/device/mod.rs:1426-1439 | The loop over bytes and bits computes the reflected CRC-32 as a function of the input |
| Crc32.PolyValue | src/device/mod.rs:1426-1439 | The feedback bits are the constant 0xEDB88320 |
| Crc32Values.ShiftIsWord | src/device/mod.rs:1426-1439 | On 32-bit machine words the register's shift is `(crc >> 1) ^ 0xEDB88320` or `crc >> 1` |
| Crc32Values.CrcOfNothing | src/device/mod.rs:1426-1439 | The CRC of no bytes is 0 |
| Crc32Values.CrcOfOneZero | src/device/mod.rs:1426-1439 | The CRC of the byte 0 is 0xD202EF8D |
| Crc32Values.CrcOfNine | src/device/mod.rs:1426-1439 | The CRC of "123456789" is 0xCBF43926 |
| Crc32Values.CrcBehindData | src/device/mod.rs:1426-1439 | Any data followed by their CRC, low byte first, have the CRC 0x2144DF1C |
| Crc32.ShiftsLinear | src/device/mod.rs:1426-1439 | Shifting the register is linear over exclusive-or |
| Crc32.TopBitsTell | src/device/mod.rs:1426-1439 | A register whose top n bits are clear after n shifts had its low n bits clear before: no feedback entered |
| Crc32.WindowTells | src/device/mod.rs:1426-1439 | Equal registers fed at most four bytes each agree afterwards only if the bytes were the same |
| Crc32.SameBytesKeepDifference | src/device/mod.rs:1426-1439 | Different registers stay different under the same further bytes |
| Crc32.WindowChangesCrc | src/device/mod.rs:1426-1439 | Two inputs of equal length that differ only inside a window of at most four consecutive bytes never have the same CRC |
| Crc32.BridgeLeads | src/device/mod.rs:1426-1439 | Four bytes, computed by running the register backwards, lead from any register to any other |
| Crc32.FourBytesReachAnyCrc | src/device/mod.rs:1426-1439 | Between any two parts of an input some four bytes give it the CRC of any other input |
| Crc32.FiveBytesMayNotTell | src/device/mod.rs:1426-1439 | So four bytes are the most: in any input and place two different windows of five bytes give the same CRC |
| HoldingCodec.PutWords | src/device/holding_store.rs:112-228 | Writing words little-endian into the shared buffer changes exactly their bytes |
| HoldingCodec.PutHeader | src/device/holding_store.rs:358-365 | The header goes in front with the CRC of the data as they stand in the buffer |
| HoldingCodec.EncodeImage | src/device/holding_store.rs:112-228 | The buffer becomes the encoding of the image, or stays zero when a part of the image has the wrong size |
| HoldingCodec.RoundTrip | src/device/holding_store.rs:358-412 | An encoded image decodes to exactly itself, with its slot and generation |
| HoldingCodec.EncodedHeader | src/device/holding_store.rs:358-365 | The first 16 bytes: "2CMI", version 1, 2048 words, generation and the CRC of the rest, low byte first |
| HoldingCodec.EncodedData | src/device/holding_store.rs:112-228 | Byte by byte, where each holding, monitor and control word and each coil stands |
| HoldingCodec.DataWindowRejected | src/device/holding_store.rs:367-412 | Any change confined to at most four consecutive data bytes is refused |
| HoldingCodec.HeaderChange | src/device/holding_store.rs:367-412 | A change confined to the header is accepted exactly when it touches nothing but the generation, which then is the one thing decoded differently |
| HoldingCodec.TornEarlyRejected | src/device/holding_store.rs:367-412 | A blob of which fewer than eight bytes were programmed is refused |
| HoldingCodec.TornLateRejected | src/device/holding_store.rs:367-412 | A blob torn in its last four bytes is refused or whole |
| HoldingBoot.SuccessorIsNewer | src/device/holding_store.rs:414-416 | Of two successive generations the later is newer and the earlier is not, across the wrap of the counter |
| HoldingBoot.NewerIsAhead | src/device/holding_store.rs:414-416 | A generation counts as newer exactly when it is 1 to 2^31 - 1 ahead, around the end of the counter |
| HoldingBoot.LoadBestRawSlot | src/device/holding_store.rs:259-293 | A slot that cannot be read fails the load; otherwise the result is nothing when no slot decodes, the one that decodes, or of two slot 1 exactly when its generation is the newer |
| HoldingStore.BootChooses | src/device/holding_store.rs:259-293 | What boot chooses is the slot with the latest attempt that is whole, and its image is that attempt's |
| HoldingStore.VerifyAcknowledges | src/device/holding_store.rs:322-344 | A save that gets as far as the readback finds its own image there and is acknowledged |
| HoldingStore.StepKeepsInv | src/device/holding_store.rs:112-228 | Every step of a save, every failure and every power loss keeps the invariant of slots and history |
| HoldingStore.RunKeepsInv | src/device/holding_store.rs:112-293 | So does every run, with saves after an unreadable boot as long as they are safe in the sense of `BlindSaveIsSafeExactly`; the invariant ties history to the very bytes of the slots |
| HoldingStore.RebootLoadsAcknowledged | src/device/holding_store.rs:112-293 | Wherever the power goes, decoding the bytes left in the two slots as the next readable boot does gives the last acknowledged image or one attempted after it, across generation wrap; nothing is loaded only if nothing was acknowledged |
| HoldingStore.AcknowledgedComesBack | src/device/holding_store.rs:112-293 | With nothing attempted after it, those bytes decode to exactly the acknowledged image |
| HoldingStore.EveryTearShows | src/device/holding_store.rs:322-344 | Given the assumption on tears from byte 8 to the last four, the state of every torn write decodes to nothing or to the image being written; for the two ends this comes from the bytes the invariant gives |
| HoldingTears.TornDecodes | src/device/holding_store.rs:322-412 | A slot torn behind the header decodes exactly when its data have the CRC of the image, and then to what it holds |
| HoldingTears.TearCanPass | src/device/holding_store.rs:322-412 | For every tear behind the header and every image, four other bytes at the tear make the torn slot decode to a different image, unless all bytes behind are 0xFF |
| HoldingTears.TearsTellExactly | src/device/holding_store.rs:322-412 | A tear behind the header is told for every image if and only if it comes in the last four bytes |
| HoldingTears.TornSaveIsMistaken | src/device/holding_store.rs:112-412 | One acknowledged save and a second one torn there: the next boot loads an image that is neither |
| HoldingStore.NextBootLoads | src/device/holding_store.rs:259-293 | What the bytes of the slots load as is the attempt that history names |
| BlindSaves.SaveIsFourSteps | src/device/holding_store.rs:197-228 | Begin, erase, program and verify in the state machine are one successful save |
| BlindSaves.SaveSucceeds | src/device/holding_store.rs:112-293 | On every run, on a device that knows its slots, a save without a fault is enabled step by step and acknowledged; the next boot loads its image, and the slot that was active is untouched |
| BlindSaves.SaveWithoutActiveSurvives | src/device/holding_store.rs:197-228 | A completed save made without knowing the active slot (generation 0) is what the next boot loads if and only if slot 1 holds no image or one whose generation does not count as newer than 1 |
| BlindSaves.BlindSaveSurvivesExactly | src/device/holding_store.rs:197-228 | After an unreadable boot a save cut off before its erase loses nothing; cut off with slot 0 not decodable, the last acknowledged image or a later one is loaded if and only if it was in slot 1 or there is none; with slot 0 whole, also if slot 1 has no newer generation; once acknowledged, if and only if slot 1 has no newer generation |
| BlindSaves.BlindSaveIsSafeExactly | src/device/holding_store.rs:197-228 | So at every point of the save if and only if slot 1 holds the last acknowledged image or a later one, if there is any, and no generation newer than 1 |
| BlindSaves.BlindSaveLoads | src/device/holding_store.rs:197-293 | The bytes left by such a save load as the attempt those two speak of |
| BlindSaves.BlindEraseIsLost | src/device/holding_store.rs:197-344 | Three saves, a boot that cannot read the slots, a fourth save cut off after its erase: the next boot loads the second image |
| BlindSaves.BlindSaveIsLost | src/device/holding_store.rs:197-293 | Two saves, a boot that cannot read the slots, one more acknowledged save: the next boot loads the second image |
| HoldingSave.Store.WriteSlot | src/device/holding_store.rs:322-344 | Erase, program, read back, decode: true exactly without a fault and with a decodable blob, and for each fault what is left in the slot |
| HoldingSave.Store.SaveToNvs | src/device/holding_store.rs:112-228 | Writes only the inactive slot; on success slot, active slot and generation are the new ones, on an error the active slot's bytes and what the device knows are unchanged |
| ProtoStore.CopyWords | src/device/mod.rs:1373-1420 | The copy loop takes the words below the stored length and leaves the rest zero |
| ProtoStore.LoadSingleBlob | src/device/mod.rs:1373-1420 | Size, version, length and checksum tests and the copy are the decoder of one blob |
| ProtoStore.RoundTrip | src/device/mod.rs:893-967 | A committed blob loads with its version, length and first `length` words |
| ProtoStore.EncodedBytes | src/device/mod.rs:905-928 | Byte by byte: magic 0x494D, version, length and every word, low byte first |
| ProtoStore.EncodedChecksum | src/device/mod.rs:905-928 | Between them the sum of the two CRCs, with wrap-around |
| ProtoStore.ExactRoundTrip | src/device/mod.rs:1373-1420 | A load gives everything back if and only if the words from `length` on were zero |
| ProtoStore.WindowRejected | src/device/mod.rs:1397-1409 | Any change confined to at most four consecutive bytes of the protected header part or of the data is refused |
| ProtoStore.StepKeepsInv | src/device/mod.rs:893-967 | Every step of a commit, failing or not, keeps the invariant of the two keys and the active flag |
| ProtoStore.CommitSucceeds | src/device/mod.rs:893-967 | On every run a commit without a fault is acknowledged, a load then finds its version, length and words, and the key of the last commit is left alone if the flag could be read |
| ProtoStore.LoadIsAcknowledgedOrLater | src/device/mod.rs:1328-1367 | After any run of commits, key failures and power losses, whatever a load finds in the flash is the last acknowledged commit or one attempted after it; after an acknowledged commit it finds one if and only if it can read the active flag and the key the flag names, and takes the defaults exactly when it cannot read the flag |
| ProtoStore.UnreadFlagHidesTheCommit | src/device/mod.rs:1328-1367 | An acknowledged commit, and a load that cannot read the flag: the defaults |
| PendingSave.OpKeepsStore | src/device/pending_save.rs:6-24 | Every step under a store's lock keeps the flag protocol's invariant, and the version in the flash never goes back |
| PendingSave.StepKeepsInv | src/device/mod.rs:846-887 | Every step of every writer and saver keeps the invariant over the three stores |
| PendingSave.MarkedIsNeverLost | src/device/pending_save.rs:6-24 | In every interleaving a marked mutation is in the flash, or its flag is up, or a save that consumed the flag is under way |
| PendingSave.SuccessIsABarrier | src/device/mod.rs:867-887 | A call that returned Ok has put into the flash everything that was marked, in the stores it saves, when it began |
| PendingSave.FlushCoversAllStores | src/device/mod.rs:867-887 | For the flush these are all three stores |
| PendingProgress.SavesAlone | src/device/pending_save.rs:6-24 | Under its lock and without a fault a save ends well: it writes what is published exactly if a flag was up or it was forced to, and leaves no flag up |
| PendingProgress.FlushSucceeds | src/device/mod.rs:867-887 | From every state with the locks free, a flush that runs alone and meets no fault returns Ok; then no flag is up, every store whose flag was up has in its flash what was published last, and nothing else of the stores has changed |
| PendingProgress.FailedSaveRestores | src/device/pending_save.rs:6-24 | A save that meets a fault sets every flag again that it took |
| PendingSave.GenerationCheckIsExact | src/device/mod.rs:1013-1049 | With fewer than 2^32 writes since the configuration save captured its generation, it passes its generation check only with every write counted by then in the flash, also those that came while it ran |
| FlushTicket.OneCallAtATime | src/device/mod.rs:292-330 | At most one call is between winning the busy flag and returning |
| FlushTicket.BusyMeansLive | src/device/mod.rs:281-330 | On every run the busy flag is up if and only if a call is under way, so after a confirmation, a refusal or a time-out every new call wins it |
| FlushTicket.AloneIsAnswered | src/device/mod.rs:292-330 | A call alone with an idle actor is told what became of its own flush, success or failure |
| FlushTicket.SavedIsSaved | src/device/mod.rs:292-330 | A call that returned Ok saw the completion of its own ticket: if that was its own call (no 2^32 tickets between), its flush ran after the call began and succeeded, whatever earlier timed-out calls left in the mailbox |
| FlushTicket.PollMatchesExactly | src/device/mod.rs:292-330 | A poll takes the last completion for its own if and only if the tickets issued since are a multiple of 2^32 |
| FlushTicket.SavedWithoutSaving | src/device/mod.rs:292-330 | A run of 2^32 - 1 refused calls after which a call is told "saved" with its flush still in the mailbox |
| FlushTicket.RefusedManyTimes | src/device/mod.rs:292-330 | Calls refused by a full mailbox still consume their tickets, any number of times |
| FlushTicket.StepKeepsInv | src/device/mod.rs:98-107 | Every step of callers and actor keeps the invariant of tickets, mailbox and completion |
| ControlLogic.PointScope | src/control_logic.rs:525-533 | The outputs named are those of the points 1 to 64, and no others |
| ControlLogic.FirstControlIsFirst | src/control_logic.rs:535-552 | Of several controls with one value the first counts |
| ControlLogic.CommandStaysInScope | src/control_logic.rs:535-552 | There is a command exactly for a controllable logic at that address with a control of that value; it drives only the logic's points, and a pulse lasts at least 1000 ms |
| ControlLogic.CommandIsOfFirstControl | src/control_logic.rs:535-552 | The command switches on exactly the logic's points that the first control of that value names, with delay and pulse of as many thousand milliseconds as the logic has seconds |
| ControlLogic.CommandIsFromTable | src/control_logic.rs:535-552 | Every command made from a logic with 16-bit seconds has the logic's scope and whole seconds of delay and pulse: the commands that the runs admit |
| ControlLogic.AdmitIsAllOrNothing | src/control_logic.rs:639-698 | A command's edges all replace what its logic had in the table, leaving other logics alone, or the table is unchanged; which one is decided by the capacity |
| ControlLogic.PassIsExact | src/control_logic.rs:686-697 | The `swap_remove` scan applies every due entry exactly once and no other, and keeps the rest |
| ControlLogic.LastSets | src/control_logic.rs:625-637 | After any entries a channel is on, and pulsing, exactly as the last one that names it says |
| ControlLogic.PassSetsOutputs | src/control_logic.rs:639-698 | After a pass a channel is as the last entry applied says, or as it was when none names it |
| ControlLogic.ReleaseSwitchesOff | src/control_logic.rs:625-698 | On every run, when a pulse's release was the last entry of the pass that names the channel, it is off and no longer pulsing |
| ControlLogic.Executor.Schedule | src/control_logic.rs:639-698 | The two loops over the table and the pushes are the admission of one command, and the table keeps its bound |
| ControlLogic.Executor.Tick | src/control_logic.rs:639-698 | One tick admits the first queued commands in order, then applies what is due and leaves the rest |
| ControlLogic.StepKeepsInv | src/control_logic.rs:639-698 | Arrivals and passes keep the table's invariant: bounded, in scope, and every pulse's end present |
| ControlLogic.ScheduleIsBounded | src/control_logic.rs:708-710 | On every run the table holds at most 64 entries and every pulse in it has its end in it |
| ControlLogic.OnBeforeOff | src/control_logic.rs:639-698 | On every run with a fixed table, when a pass that is in time applies a pulse's ON, its OFF stays for a later pass |
| ControlLogic.PulsesAreReleased | src/control_logic.rs:628-698 | After timely passes every output marked as pulsing has an entry in the table that ends it |
| ControlLogic.LatePassLeavesPulseOn | src/control_logic.rs:639-706 | For every pass, after any last one, that is not in time there is a run of passes in time, with commands made from two logics, after which it applies OFF before ON and the output stays on for good |
| ControlLogic.InTimeExactly | src/control_logic.rs:639-706 | For all clocks: a pass keeps the release of every pulse it switches on, on every run, if and only if it takes less than a second from its command clock and comes at most a second after the later of the last pass and 999 ms; and these are exactly the passes after which, if those before were in time too, every pulsing output has an entry that ends it |
| ControlLogic.CommandRunsItsCourse | src/control_logic.rs:639-698 | A command by itself, over any number of passes in time: its outputs stay as they were until the delay is over, are then exactly what it names, and when it pulses are off from the end of the pulse on; no other output changes |
| SystemConfig.Registers.WritePort | src/device/system_config.rs:618-761 | The search over the three RS485 ports finds exactly the port registers; a refused value touches nothing |
| SystemConfig.Registers.WriteReg | src/device/system_config.rs:618-761 | The chain of branches is the register write, field by field and in its result code |
| SystemConfig.WriteThenRead | src/device/system_config.rs:504-761 | An accepted write reads back in its canonical form, a refused or unknown one changes nothing, and which of these it is depends on address and value exactly as said |
| SystemConfig.ReadByAddress | src/device/system_config.rs:504-616 | What every address reads as |
| SystemConfig.ReadPortWords | src/device/system_config.rs:504-616 | The words of each serial port |
| SystemConfig.PortWordSets | src/device/system_config.rs:618-761 | What each part of a port's first word sets, and that the rest of the port is kept |
| SystemConfig.BaudRates | src/device/system_config.rs:618-761 | The fifteen baud rates, index 0 standing for 9600 |
| SystemConfig.WriteAnswers | src/device/system_config.rs:618-761 | What a write to every address answers: to be saved, to be applied, 0xB5B5 and 0xD5D5 in the two command words, the values refused, and where nothing is found |
| SystemConfig.WriteChangesNoOther | src/device/system_config.rs:504-761 | A write changes no other register |
| SystemConfig.CanonicalIsStable | src/device/system_config.rs:618-761 | The canonical form of a canonical form is itself, and is accepted |
| SystemConfig.LastWriteWins | src/device/system_config.rs:618-761 | Of two writes to one register the second, if accepted, decides the whole configuration |
| SystemConfig.WritingWhatWasReadChangesNothing | src/device/system_config.rs:504-761 | Writing back what was read leaves every register reading as before |
| SystemConfig.LocateIsInjective | src/device/system_config.rs:504-616 | No two addresses name the same register |
| SystemConfig.PackOfUnpack | src/device/system_config.rs:618-761 | Unpacking a port word into its fields and packing them gives its canonical form |
| SystemConfig.RoundTrip | src/device/system_config.rs:312-400 | A stored configuration decodes to itself, but for the firmware date and the defaults put in for zero fields |
| SystemConfig.ExactRoundTrip | src/device/system_config.rs:350-400 | It comes back exactly if and only if it has this firmware's date and none of those zeros |
| SystemConfig.ComesBackWithDefaults | src/device/system_config.rs:350-400 | Field by field, and the default each zero becomes |
| SystemConfig.BlobLayout | src/device/system_config.rs:312-350 | Where each field stands in the 152 bytes |
| SystemConfig.PortLayout | src/device/system_config.rs:312-350 | The 15 bytes of each serial port |
| SystemConfig.TcpLayout | src/device/system_config.rs:312-350 | And the TCP ports |
| SystemConfig.OnesLead | src/device/system_config.rs:851-865 | The bit loop decides whether no one follows a zero |
| SystemConfig.IsIpv4Netmask | src/device/system_config.rs:851-865 | A mask is accepted exactly when it is not zero and its ones lead |
| SystemConfig.LeadingOnes | src/device/system_config.rs:851-865 | Ones lead exactly in the numbers 2^n - 2^z |
| SystemConfig.NetmasksAreLeadingOnes | src/device/system_config.rs:851-865 | The masks accepted are exactly 2^32 - 2^z for z below 32 |
| SystemConfig.ValidPortsAreDistinct | src/device/system_config.rs:867-872 | Ports are valid exactly when none is 0 or 80 and no two are alike |
| HoldingRegisters.Bus.AllWritable | src/bus/backends.rs:1299-1309 | The check before the batch passes exactly when every address is writable |
| HoldingRegisters.WritableAddresses | src/bus/backends.rs:1299-1309 | Which addresses are writable |
| HoldingRegisters.Bus.PutOne | src/bus/backends.rs:1169-1218 | The loop body accepts a word exactly by its address and value, and puts it onto the clones |
| HoldingRegisters.Bus.PutWords | src/bus/backends.rs:1169-1218 | The loop accepts a batch exactly when it accepts every word, and the clones then hold all of them |
| HoldingRegisters.Bus.PublishHolding | src/bus/backends.rs:1238-1276 | Publishing the raw words: protect word, arming, table and dirty marks |
| HoldingRegisters.Bus.PublishBatch | src/bus/backends.rs:1220-1276 | Publishing both clones is one transition of the device's state |
| HoldingRegisters.Bus.PutWindow | src/bus/backends.rs:1116-1276 | A batch in the PReg window is published whole or leaves the state untouched |
| HoldingRegisters.Bus.PutTextWords | src/bus/backends.rs:1116-1158 | A text batch changes exactly its words, the arming and the marks |
| HoldingRegisters.Bus.WriteHoldRegs | src/bus/backends.rs:1116-1296 | In both windows: accepted exactly when admitted, and a refused batch changes no configuration, storage, arming or mark |
| HoldingRegisters.AcceptedExactly | src/bus/backends.rs:1169-1218 | A batch passes the loop exactly when each word passes alone |
| HoldingRegisters.BatchReadsBack | src/bus/backends.rs:1116-1276 | An accepted batch makes every ordinary word it names read back in canonical form and leaves every other word and the text as they were |
| HoldingRegisters.BatchMarksExactly | src/bus/backends.rs:1220-1276 | An accepted batch marks configuration, network, name, table and holding words to be saved or applied exactly by the addresses it meets, counts the configuration version, and opens, commits or closes the gate |
| HoldingRegisters.BatchKeepsNameMirrored | src/bus/backends.rs:87-93 | The raw mirror of the BLE name stays equal to the structured name under every accepted batch |
| HoldingRegisters.TextKeepsNameMirrored | src/bus/backends.rs:1116-1158 | And under every text batch |
| HoldingRegisters.TextReadsBack | src/bus/backends.rs:1116-1158 | Text words read back as written, the gate is disarmed, no stored word beside the protect word changes |
| HoldingRegisters.TextMarks | src/bus/backends.rs:1116-1158 | A text batch marks the text to be saved, closes the gate and the protect word with it, and changes nothing else |
| HoldingRegisters.SingleIsBatchOfOne | src/bus/backends.rs:1312-1502 | A single-word write does what a batch of one does if and only if the word is the protect word, is not raw, or the stored ports are valid |
| RegisterReads.Capture | src/bus/register_snapshot.rs:25-49 | A captured image answers for exactly the addresses of its stretch, as the source did |
| RegisterReads.CaptureRuntime | src/bus/backends.rs:484-522 | Although results are captured only where the batch can meet them, the images answer for every address from 300 on as the live results do |
| RegisterReads.ReadByWindow | src/bus/backends.rs:603-700 | What every address reads as, and which source goes first |
| RegisterReads.EncodeHoldRegs | src/bus/backends.rs:552-579 | A batch read succeeds exactly when every single read of it would, and gives the same words, high byte first; snapshots and results count as they were captured, counters, inputs and outputs as they are while their word is read |
| Coils.ReadCoilIsWhole | src/bus/backends.rs:132-152 | The single read, which captures only the source it needs, reads as from all sources |
| Coils.ReadCoilByWindow | src/bus/backends.rs:221-258 | Inputs below the count of inputs and zeros behind them, outputs from 0x200 on, control coils off, stored coils where there is a storage, and nothing beyond 0x7FF |
| Coils.EncodeFromSnapshot | src/bus/backends.rs:193-219 | The packing loop succeeds exactly when every address is readable, and sets exactly the bits read as one, padding with zeros |
| Coils.EncodeCoilBits | src/bus/backends.rs:163-191 | The batch read succeeds exactly when every single read of it would, and bit i is `read_coil(addr + i)`, although untouched sources are not captured |
| Coils.Backend.WriteCoil | src/bus/backends.rs:1509-1561 | A coil is accepted exactly in range, a restart only after the savers succeeded; an ordinary coil then reads back as written and every other as before, a control coil is served: the restarts request the reset, 0x400 and 0x401 are stored and marked |
| Coils.Backend.WriteControls | src/bus/backends.rs:1565-1654 | A batch of control coils serves exactly those before the first refused restart |
| Coils.ServedAllStores | src/bus/backends.rs:1509-1654 | Serving a batch of control coils stores exactly the internal ones with their packed values, marks them, and requests the reset exactly for a restart coil that is on |
| Coils.RefusedControlsChangeNothing | src/bus/backends.rs:1509-1654 | A refused control batch has changed nothing if and only if no internal coil comes before the restart, or they were stored and marked so already, and no restart was granted before it, or one was pending |
| Coils.RefusedBatchStores | src/bus/backends.rs:1509-1654 | Coils 0x401 and 0x402 on in one batch with failing savers: refused, and 0x401 is stored |
| Coils.Backend.WriteOutputs | src/bus/backends.rs:1565-1654 | Exactly the addressed output bits take the packed values |
| Coils.Backend.WriteLegacy | src/bus/backends.rs:1565-1654 | Exactly the addressed legacy coils take the packed values, the outputs among them too |
| Coils.Backend.WriteCoils | src/bus/backends.rs:1565-1654 | A batch of ordinary coils succeeds exactly in range and without control coils; then exactly those coils read back as written and every other coil as before; refused, it changes nothing. A batch of control coils succeeds exactly when each is served, never changes what any coil reads as, and leaves stored coils, dirty mark and reset request as after the coils before the first refused one |
| OutputQueue.Queue.Submit | src/hal/io_worker_state.rs:42-59 | The ring appends a command for new bits, accepts the latest bits again without one, and refuses when full without touching a queued edge |
| OutputQueue.Queue.RetainLatestAfterFault | src/hal/io_worker_state.rs:63-72 | Only the newest command is kept and the dropped ones are counted |
| OutputQueue.Queue.Front | src/hal/io_worker_state.rs:74-76 | The front of the ring is the first of the sequence |
| OutputQueue.Queue.Confirm | src/hal/io_worker_state.rs:86-93 | Exactly the front command can be confirmed, and leaves |
| OutputQueue.NothingIsLost | src/hal/pca9555.rs:412-454 | On every run accepted = confirmed + dropped + queued, and the confirmed commands followed by the queued ones are an in-order part of the accepted ones |
| OutputQueue.ConfirmNeverMisses | src/hal/pca9555.rs:412-454 | The command the worker holds is still the front when it confirms it, whatever was submitted or dropped meanwhile |
| OutputQueue.EmptyMeansDone | src/hal/pca9555.rs:876-893 | Once the queue is empty the last confirmed bits are the last bits asked for |
| OutputQueue.CommandsAreNumbered | src/hal/io_worker_state.rs:42-59 | On every run accepted commands are numbered from 1 on around the end of the counter, and none asks for the bits of the one before |
| OutputQueue.SubmissionIsAccepted | src/hal/io_worker_state.rs:42-59 | With room a submission is queued last with its bits; for the bits already asked for, without room, or with the queue locked it changes nothing |
| OutputQueue.QueueDrains | src/hal/pca9555.rs:412-454 | On every run a worker whose writes succeed empties the queue, confirming every command in order, after a fault only the newest |
| OutputQueue.StepKeepsInv | src/hal/io_worker_state.rs:42-93 | Every step of submitters and worker keeps the invariant of ring, worker and history |
| OutputExpander.BitReverse | src/hal/pca9555.rs:81-89 | The eight shifts give the byte whose bits are in the opposite order |
| OutputExpander.ReverseTwice | src/hal/pca9555.rs:81-89 | Reversing twice gives the byte back |
| OutputExpander.BitsTurnAround | src/hal/pca9555.rs:81-89 | Bit i becomes bit 7 - i |
| OutputExpander.ChipGetsItsBytes | src/hal/pca9555.rs:567-578 | Chip k gets bytes 2k and 2k + 1 of the value, each turned around |
| OutputExpander.ReadsWhatWasWritten | src/hal/pca9555.rs:567-587 | For any number of chips, registers that kept what was written read back as the value written |
| OutputExpander.ReadIsInjective | src/hal/pca9555.rs:579-587 | No other registers read as that value, so the readback comparison is exact |
| Telemetry.Histogram.FindBucket | src/telemetry.rs:38-46 | The search finds the first bucket whose limit the sample does not exceed |
| Telemetry.Histogram.Record | src/telemetry.rs:38-46 | Recording adds one sample to the multiset that bins, count and peak stand for |
| Telemetry.Histogram.LeastLimit | src/telemetry.rs:48-64 | The accumulating loop stops at the least limit that enough samples do not exceed |
| Telemetry.Histogram.PercentileUpper | src/telemetry.rs:48-64 | The result is the least bucket limit that at least max(1, ceil(p n / 100)) of the n samples do not exceed, 0 when there are none |
| Telemetry.BucketsCount | src/telemetry.rs:38-64 | Adding up the bins up to i counts the samples not above limit i |
| Telemetry.TargetIsLeastShare | src/telemetry.rs:48-64 | The target is the least number of samples that is at least p percent of them, and at least one |
| Telemetry.Limits | src/telemetry.rs:3-24 | The sixteen limits |
| Telemetry.LeastOfAll | src/telemetry.rs:48-64 | A limit covers the target exactly from the one found on |
| Telemetry.AllWithin | src/telemetry.rs:48-64 | The bound for 100 percent is above every sample |
| AdvertisingHealth.ActiveMeansStarted | src/ble_at/advertising_health.rs:60-104 | On every run the lease is up exactly when the last thing that decided about it was an accepted successful start |
| AdvertisingHealth.TimersAreExact | src/ble_at/advertising_health.rs:106-137 | Against an unbounded clock, for elapsed times below 2^32 ms, retry and renewal fire at 5 s and 60 s and not a millisecond earlier, across every wrap |
| AdvertisingHealth.OnePendingAtATime | src/ble_at/advertising_health.rs:60-137 | On every run all operations begun but the last have been answered, cancelled or given up, so at most one is pending |
| AdvertisingHealth.NameUpdatesWaitExactly | src/ble_at/advertising_health.rs:52-84 | On every run, for elapsed times below 2^32 ms, a name update is held back exactly while an operation is pending and for 5 s after a failed one, unless something began or happened since |
| AdvertisingHealth.RecoveryNeverHurries | src/ble_at/advertising_health.rs:106-137 | On every run and for any elapsed time the recovery acts only when advertising is possible, retries never within 5 s of the last attempt and leaves nothing pending and no lease, renews only a lease confirmed 60 s ago, and otherwise changes nothing |
| AdvertisingHealth.RecoveryExactly | src/ble_at/advertising_health.rs:106-137 | On every run, for elapsed times below 2^32 ms and whatever the device asks, exactly when it is told to retry and when to renew |
| AdvertisingHealth.LateCallbackExactly | src/ble_at/advertising_health.rs:72-84 | A callback of a cancelled operation is ignored, unless an operation of the same kind is pending by then: then it is taken for that one's |
| AdvertisingHealth.LateStartConfirmsTheNext | src/ble_at/advertising_health.rs:72-84 | A run in which the late callback of a cancelled start confirms the next start |
| AdvertisingHealth.StepKeepsInv | src/ble_at/advertising_health.rs:52-137 | Every event keeps the invariant of lease, operation and timers |
| FunctionTable.PlaceRecord | src/ble_at/logic_handlers.rs:164-246 | One round of the loop puts a record behind the words so far and its pointer into the header, or finds no room |
| FunctionTable.PlaceRecords | src/ble_at/logic_handlers.rs:164-246 | The loop leaves header and records of everything scanned, and stops exactly at a cut-short or too long packet |
| FunctionTable.BuildTable | src/ble_at/logic_handlers.rs:164-246 | The store produces words exactly for packets that parse and fit, and these are the table of their records |
| FunctionTable.PushBytes | src/ble_at/logic_handlers.rs:290-315 | The byte loop reads a record's bytes from its words |
| FunctionTable.LoadTable | src/ble_at/logic_handlers.rs:290-315 | The load is the reply made of all records, or nothing |
| FunctionTable.TableHead | src/ble_at/logic_handlers.rs:164-246 | The table's count, the address of each record and the final length |
| FunctionTable.TableBody | src/ble_at/logic_handlers.rs:164-246 | At each address the record's bytes, two to a word, low byte first |
| FunctionTable.ScanIsBytes | src/ble_at/logic_handlers.rs:164-246 | The records scanned are the packet's bytes, one after the other |
| FunctionTable.LoadsWhatWasConsumed | src/ble_at/logic_handlers.rs:290-315 | A table in the registers loads as exactly the bytes the store consumed if these are at most 254, and does not load otherwise, for any count and odd or even lengths |
| FunctionTable.WrittenTableLoads | src/ble_at/logic_handlers.rs:164-315 | The register write accepts the table and the load finds it there |
| FunctionTable.StoreThenLoad | src/ble_at/logic_handlers.rs:164-315 | Store, register write with the gate armed, and load give back what the store consumed |
| FunctionTable.StoreAcceptsExactly | src/ble_at/logic_handlers.rs:164-246 | The table of every packet that parses consists of 16-bit words, and the register write takes exactly those that end by word 4223 |
| FunctionTable.StoredTableLoadsExactly | src/ble_at/logic_handlers.rs:164-315 | A stored table below the protect word loads as what the store consumed if that is at most 254 bytes, and never loads otherwise |
| BleReassembly.Reassembler.Claim | src/ble_at/mod.rs:1587-1607 | The first free slot is claimed and stamped with connection and epoch, or none |
| BleReassembly.WellFormedMeans | src/ble_at/mod.rs:1576-1585 | What a whole frame is in bytes |
| BleReassembly.TextIsLeftAlone | src/ble_at/mod.rs:1666-1680 | Between frames exactly "A" and what begins with "AT" is text, and changes nothing |
| BleReassembly.FullSlotsStay | src/ble_at/mod.rs:1666-1680 | Nor does a write that finds no slot |
| BleReassembly.AppendStep | src/ble_at/mod.rs:1666-1735 | A further piece of a well-formed frame leaves its longer prefix in the slot, or the whole frame queued |
| BleReassembly.AnyFragmentationYieldsTheFrame | src/ble_at/mod.rs:1576-1735 | However a well-formed frame is cut into writes, exactly that frame is queued and nothing else changes |
| BleReassembly.DroppedWasHopeless | src/ble_at/mod.rs:1666-1735 | Bytes are dropped only when no continuation would make a well-formed frame of them, or a whole frame meets a full queue |
| BleReassembly.FedKeepsOnlyFrames | src/ble_at/mod.rs:1666-1735 | Whatever is fed, every slot that is ready holds a frame of the length it declares |
| BleEpochs.StepKeepsInv | src/ble_at/mod.rs:1587-1735 | Every atomic step of the callback and of the main loop, but out of the dangerous moment, keeps the invariant of slots, locks and owners |
| BleEpochs.CalmRunKeepsInv | src/ble_at/mod.rs:1587-1735 | So does every run up to that moment |
| BleEpochs.ExecutedFramesAreCurrent | src/ble_at/mod.rs:1633-1662 | Until the callback gives back a slot that the main loop is checking, every executed frame consists of bytes received in the epoch that was current when it was checked |
| BleEpochs.AcceptedIsHarmless | src/ble_at/mod.rs:1666-1735 | On a run without a refused enqueue that moment never comes |
| BleEpochs.StaleEntryLeadsToDanger | src/ble_at/mod.rs:1609-1735 | When it comes, the main loop came to the slot through a queue entry made for an earlier frame in it |
| BleExposure.StepIsKept | src/ble_at/mod.rs:1587-1735 | Every step, also a further take and a further refusal, keeps the invariant or the state in which the callback cannot come back to the slot while the main loop has it, as long as there is no room |
| BleExposure.StaleNeedsExposure | src/ble_at/mod.rs:1587-1735 | On every run, if a frame with bytes of another epoch was executed, then before it the callback was giving back the slot that the main loop was checking, with room for a frame in every free slot below, and until then all executed frames were current |
| BleSchedules.DangerWithRoomGoesWrong | src/ble_at/mod.rs:1587-1735 | From every state in which that is so, a continuation is constructed that executes a stale frame |
| BleStaleFrames.OtherwiseNothingIsStale | src/ble_at/mod.rs:1587-1735 | From every other state no continuation of what is under way does |
| BleStaleFrames.StaleExactly | src/ble_at/mod.rs:1587-1735 | At every moment of every run up to the first such exposure, what is under way can end in a stale frame being executed if and only if the exposure is now |
| BleStaleFrames.DangerIsReached | src/ble_at/mod.rs:1587-1735 | A run from the start that reaches the exposure |
| BleStaleFrames.RefusedFrameCanBeStale | src/ble_at/mod.rs:1633-1735 | A run with a refused enqueue, continued from that moment, in which bytes of a later connection are executed under the check of an earlier one |
| BleProgress.FrameIsExecuted | src/ble_at/mod.rs:1587-1735 | A whole frame of the current connection that finds a slot, an idle main loop and an empty queue is executed with its bytes, and its slot is free again |
| BleProgress.StrangerIsDropped | src/ble_at/mod.rs:1633-1662 | One of another connection or an earlier epoch is not executed, and its slot is free again |
| BleTransmit.BuiltFramesAreWellFormed | src/ble_at/mod.rs:3576-3591 | A frame is built exactly for payloads of at most 264 bytes, carries them, and is one that the receiving side takes for whole |
| BleTransmit.BuiltFrameBytes | src/ble_at/mod.rs:3576-3591 | Transaction, protocol and length high byte first, the payload, the checksum low byte first |
| BleTransmit.LimitMeans | src/ble_at/mod.rs:1304-1357 | A notification carries the MTU less three bytes, at least 1 and at most 497 |
| BleTransmit.TxRing.TryPush | src/ble_at/mod.rs:173-184 | A frame goes last into the ring, or is refused by a full one |
| BleTransmit.TxRing.PopFront | src/ble_at/mod.rs:190-198 | The first frame leaves |
| BleTransmit.TxRing.Clear | src/ble_at/mod.rs:200-205 | All frames leave |
| BleTransmit.TxRing.SendNext | src/ble_at/mod.rs:1304-1357 | With notifications enabled and no congestion, a notification carries the next bytes of the front frame, as many as the MTU admits; they are consumed only if the stack took it on the same connection |
| BleTransmit.SendKeepsInv | src/ble_at/mod.rs:1304-1357 | Sending keeps the stream: what was sent and what remains is what was pushed |
| BleTransmit.NothingIsLostOrInterleaved | src/ble_at/mod.rs:158-205 | On every run within a connection the bytes sent are the frames that have left the ring, whole and in the order pushed, followed by the first bytes of the next one up to its offset; the rest is still in the ring |

## Left out

- HoldingStore.RebootLoadsAcknowledged: assumes that a write torn from byte 8 on and before the last four bytes of a slot leaves something that does not decode (`TearShows`), because the CRC does not exclude every such tear: behind the header and before the last four bytes it fails for some images (`HoldingTears.TearsTellExactly`), for the two ends it is proved (`HoldingStore.EveryTearShows`), and for bytes 8 to 15 it depends on the CRC of 6488 erased bytes, which is not computed. Legacy coils are any bytes here, while the device writes only 0 and 1. An erase takes effect whole or not at all.
- HoldingStore.RunKeepsInv: a save begun after a boot that could not read the slots is one of its steps only when it is safe; every other one breaks the promise at some point of the save, and `BlindSaves.BlindSaveSurvivesExactly` says at which.
- HoldingSave.Store.SaveToNvs: faults are given per call, one at the most; the state machine covers every sequence of them.
- Seqlock.ReadIsCommitted: the bound of 2^31 writes per attempt is part of the claim, and exact.
- FlushTicket.SavedIsSaved: the flush is known to be the call's own below 2^32 tickets since the last completed one, which is exact.
- ControlLogic.InTimeExactly: for a table of logics that does not change during the run, and clocks below 2^63 ms, so that due times do not saturate.
- OutputQueue.NothingIsLost: the firmware's own count of cancelled commands equals the dropped ones until it saturates at 2^32 - 1.
- Telemetry.Histogram.PercentileUpper: below 2^32 samples, where the counters saturate.
- AdvertisingHealth.TimersAreExact: for elapsed times below 2^32 ms; beyond, the 32-bit clock cannot tell.
- BleEpochs.ExecutedFramesAreCurrent: connection epochs are not wrapped at 2^32, and an enqueue may be refused whenever the main loop may hold the queue's lock, which is not a step of its own.
- BleStaleFrames.StaleExactly: what is under way are continuations in which the main loop takes up no further frame and no further enqueue is refused; `BleExposure.StaleNeedsExposure` is about all of them.
- FunctionTable.StoredTableLoadsExactly: tables of 1923 and 1924 words, which also write the protect word, and results that may overlay addresses from 4000 on when a table of more than 1700 words is read back are not modelled.
- RegisterReads.EncodeHoldRegs: input registers (function code 04) are left out.
- HoldingRegisters.Bus.WriteHoldRegs: batches outside the PReg and text windows go word by word and stop at the first failing word, which is not modelled; neither are single writes outside the PReg window.
- SystemConfig.RoundTrip: hardware MAC addresses, serial numbers from them and the NVS calls around the blob are parameters or absent.
- PendingSave.SuccessIsABarrier: the contents of a store are version numbers, and what a save writes is the version it captured; a device that restarts in between is `HoldingStore` and `ProtoStore`.
- The mailbox ring `MpscRing` is a FIFO whose enqueue may be refused; its lock, `Spin` and `MainLoopCell` are not modelled.
- Memory orders weaker than sequentially consistent are not modelled: an interleaving of atomic accesses is assumed.
- Stale bytes in the transmit ring across a reconnect: clearing is best effort, so the stream is proved within one connection.
- The worker's idle readback repair may write the latest bits ahead of queued commands; only confirmed commands are ordered.
- Parsing of the logic and analog tables, engineering ranges, feedback words and input sampling: bounds and arithmetic of single functions.
- Device text, mesh keys and reset records in NVS: the same flag protocol or a single key.
- AT commands, web pages, NFC, UDP, OTA, Ethernet bring-up, logging, LEDs, I2C timing and the Modbus transports: foreign calls or only easy members.
- Real time, fairness and yields: clocks are parameters, waiting is a guarded step.
