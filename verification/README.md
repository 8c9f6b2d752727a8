# Foundry's stateful core, modelled in Dafny

This project models the parts of Foundry whose correctness depends on whole runs or on two pieces of
code undoing each other, and proves what they guarantee.

* **The cheatcode inspector** under the hooks of the virtual machine: the account-access recorder
  behind `startStateDiffRecording` and its summary, paused gas, gas snapshots, arbitrary storage with
  copies, and broadcasting.
* **Codecs**: RLP and its text form, the typed Solidity/JSON codec, 256-bit numbers in four bases, and
  fixed-point printing.
* **Anvil's polled services**: the block producer with the loop that drives it, and the two consumers of
  block notifications that report logs.
* **Chisel's search for a sufficient gas limit.**

Code that updates fields in place is a class whose methods are proved equal to a function of the old
state; the theorems are about that function, over all runs. `dafny verify dfyconfig.toml` checks
everything.

## How the modules build on each other

The recorder is the largest part. `StateDiffRecorder` holds the stack of vectors and the hooks.
`StateDiffTrace` runs the hooks next to a plain storage that is rolled back on failure, and shows that
every balanced run is a tree of frames. On top of it `StateDiffMarking` gives the storage accesses,
`StateDiffFlags` the account records and their flags, and `StateDiffRecords` the record each access is
filed under. `StateDiffOpenFrames` covers runs that stop inside frames, and `StateDiffSummary` compares
the summary with the storage.

The other modules are independent of these: `GasPausing`, `GasSnapshots`, `ArbitraryStorage`,
`Broadcasting`; `Bytes`, `Rlp`, `Json`, `RlpText`, `Numbers`, `FixedPoint`, `SolidityJson`;
`BlockProduction`, `FilterLogs`, `LogStreams`; `GasSearch`.

## Where the code does not do what one would expect

For each of these there is a lemma with a concrete run or input, and one that says exactly when the
code behaves.

| what the code does | run or input | exact condition |
|---|---|---|
| A storage access that follows a returned callee can be appended to the callee's Resume record | `StaleResumeTakesStore` | `AttributionIsExact` |
| Only explicit reverts are marked. The effects of a frame that halts, for instance by running out of gas, are rolled back but stay unmarked, and the summary reports such a write | `HaltedStoreIsReported` | `MarkedIffRolledBack`, `StateDiffIsRealIff`, `OnlyPhantomsMislead` |
| Stores of the recording frame itself are not recorded | `OwnStoreIsMissed` | `SummaryOfSlot`, `StateDiffIsRealIff` |
| A frame that the `step` hook ends while metering is paused never reaches `step_end` and leaves its gas to its caller | `StoppedFrameLeaksGas` | `StackBelongsToFramesIff` |
| A frame that starts recording and ends before anything was recorded makes the recorder panic | `EarlyReturnPanics` | `PanicsIff` |
| A gas snapshot starts from the last gas reading of an earlier one | `LeftoverReadingIsCounted` | `SnapshotMeasuresOwnGas` |
| `stopSnapshotGas` with only a name stops whatever snapshot is active | `StopIgnoresLoneName` | `StopEndsTheActiveSnapshot` |
| `copyStorage` takes over only slots that are already warm; a copy may then read another value than its source, and even overwrite a value the source has read | `CopyOverwritesSource` | `EventAgreesIff`, `CopyCoherentIff` |
| `copyStorage` from a plain account leaves the link of its target: the target holds the new values and still shares with its old source | `PlainCopyKeepsLink` | `EventAgreesIff`, `CopyCoherentIff` |
| `setArbitraryStorage` on a source that has generated a value forgets it, and a copy draws another | `MarkedAgainForgets` | `EventAgreesIff`, `MarkCoherentIff` |
| `stopBroadcast` inside a broadcast call leaves `tx.origin` swapped | `StopInsideCallKeepsSender` | `OriginAlwaysRestored` |
| A create that was queued and then reverted, or refused by the machine, keeps its place in the queue and leaves its nonce to the next transaction | `RevertedCreateRepeatsNonce`, `RefusedCreateRepeatsNonce` | `NoncesAreConsecutiveIff`, `BroadcastNonces` |
| A decimal number marked negative whose word is positive as a signed number is read back as another word | `WrappedNegativeIsLost` | `DecimalRoundTrip` |
| A log subscription returns pending without registering its waker when a notified block is missing | `MissingBlockStalls` | `PendingIsArmed` |
| The gas-limit search throws its result away unless two successes come close, and then reports the gas of the first call, which was not enough | `DoubledNeedIsMissed` | `ReportIsSufficient`, `TooSmallReports`, `InsufficientReports` |

The gas-limit search also leaves the limit changed if a call cannot be made, which `Estimate` states.

## Model

| member | source | states |
|---|---|---|
| StateDiffRecorder.Cheatcodes.constructor | crates/cheatcodes/src/inspector.rs:703-706 | nothing is recorded before recording is started |
| StateDiffRecorder.Cheatcodes.StartStateDiffRecording | crates/cheatcodes/src/evm.rs:743-749 | recording starts from an empty stack |
| StateDiffRecorder.Cheatcodes.StopAndReturnStateDiff | crates/cheatcodes/src/evm.rs:1112-1121 | hands out the concatenation of all vectors in stack order and leaves an empty stack |
| StateDiffRecorder.Cheatcodes.Enter | crates/cheatcodes/src/inspector.rs:1106-1150 | pushes one vector with the record that opens the frame; the create hook does the same |
| StateDiffRecorder.Cheatcodes.Leave | crates/cheatcodes/src/inspector.rs:1447-1484 | pops the frame's vector, marks it if it reverted, completes its opening record and merges it into the vector below; the root call is skipped |
| StateDiffRecorder.Cheatcodes.RecordStateDiffs | crates/cheatcodes/src/inspector.rs:1850-1991 | the effect of each recorded opcode on the top vector |
| StateDiffRecorder.MarkAll | crates/cheatcodes/src/inspector.rs:1449-1460 | the nested loop marks every record and every storage access of a vector, and changes nothing else |
| StateDiffTrace.BalancedRunIsTrace | crates/cheatcodes/src/inspector.rs:1106-1150 | every hook sequence that closes the frames it opens is the hook sequence of a tree of frames |
| StateDiffTrace.RunTrace | crates/cheatcodes/src/inspector.rs:1447-1484 | running a frame's body from any stack changes the storage as the plain semantics says and grows only the top vector; pops and merges restore everything below |
| StateDiffTrace.RecordingRun | crates/cheatcodes/src/evm.rs:1112-1121 | a balanced recording never panics, leaves depth and checkpoints as they were, and flattens to the vector grown by the recording frame |
| StateDiffMarking.StorageMarkingIsExact | crates/cheatcodes/src/inspector.rs:797-844 | the recorded storage accesses are exactly those of the frames opened while recording, in chronological order with the values found, each marked if and only if its frame or a recorded frame around it reverted |
| StateDiffFlags.RecordMarkingIsExact | crates/cheatcodes/src/inspector.rs:1449-1484 | the account records, Resume records included, are exactly those of the run in order, each marked if and only if its frame or a recorded frame around it reverted |
| StateDiffFlags.MarkedIffRolledBack | crates/cheatcodes/src/inspector.rs:1449-1484 | the flags of all frames say what was really rolled back if and only if every halting frame lies inside a reverting one |
| StateDiffRecords.AttributionIsExact | crates/cheatcodes/src/inspector.rs:2221-2264 | every storage access sits in a record opened or resumed for the frame executing it if and only if no frame accesses storage right after a callee that left a Resume record last |
| StateDiffRecords.StaleResumeTakesStore | crates/cheatcodes/src/inspector.rs:2221-2264 | a run in which a caller's store is filed under its reverted callee |
| StateDiffOpenFrames.NestedRunIsSpine | crates/cheatcodes/src/inspector.rs:703-723 | every hook sequence that never ends a frame it did not open is a spine: what each open frame has done so far, outermost first |
| StateDiffOpenFrames.OpenRecordingIsExact | crates/cheatcodes/src/evm.rs:1112-1121 | a recording stopped at any moment, with frames open, has not panicked and hands out exactly the account records, Resume records included, and the storage accesses of the run so far, in order, each marked if and only if a recorded frame around it has already ended in a revert |
| StateDiffOpenFrames.RecordingIsChronological | crates/cheatcodes/src/evm.rs:1112-1121 | at any moment the storage accesses are, apart from their flags, those that a storage with checkpoints and no recorder executes, hook by hook |
| StateDiffOpenFrames.PanicsIff | crates/cheatcodes/src/inspector.rs:1449-1454 | a recording that outlives frames opened before it, other than the root call, panics if and only if one of them ends before any record was made |
| StateDiffOpenFrames.EarlyReturnPanics | crates/cheatcodes/src/inspector.rs:1449-1454 | a helper that starts recording and returns at once makes the recorder panic |
| StateDiffSummary.GetRecordedStateDiffs | crates/cheatcodes/src/evm.rs:1141-1198 | the loops over vectors, records and accesses compute the fold that the theorems speak about |
| StateDiffSummary.AddStorageDiffs | crates/cheatcodes/src/evm.rs:1166-1193 | the inner loop folds the storage accesses of one record |
| StateDiffSummary.SlotOfSummary | crates/cheatcodes/src/evm.rs:1166-1193 | a slot of the summary is the first previous and the last new value of its unmarked writes |
| StateDiffSummary.SummaryOfSlot | crates/cheatcodes/src/evm.rs:1141-1198 | for every run and every slot, whoever stores to it: the summary goes from the value the first unmarked write found to the value the last one wrote and is absent without one, while the storage ends at the last write of any frame, or what a halt put back |
| StateDiffSummary.StateDiffIsRealIff | crates/cheatcodes/src/evm.rs:1141-1198 | for every run and every slot, the summary tells the real effect if and only if nothing was recorded and the last write of all leaves the start value, or the first recorded write found the start value and the last write of all leaves what the last recorded one wrote |
| StateDiffSummary.StateDiffIsRealEffect | crates/cheatcodes/src/evm.rs:1141-1198 | where the recording frame does not store: absent means unchanged; present means from the value at the start to the value at the end, except after a halt, where it reports the undone write |
| StateDiffSummary.OnlyPhantomsMislead | crates/cheatcodes/src/evm.rs:1141-1198 | there the summary of a slot is its real effect if and only if its last unmarked write was not undone by a halt that put back another value |
| StateDiffSummary.StateDiffWithoutStrayHalts | crates/cheatcodes/src/evm.rs:1141-1198 | there, without halts outside reverting frames, the summary tells the real effect of the run |
| StateDiffSummary.HaltedStoreIsReported | crates/cheatcodes/src/inspector.rs:1449-1484 | a run whose summary reports a write the machine rolled back |
| StateDiffSummary.OwnStoreIsMissed | crates/cheatcodes/src/inspector.rs:2221-2264 | a run whose summary misses the recording frame's own store |
| GasPausing.GasMeter.constructor | crates/cheatcodes/src/inspector.rs:236-261 | metering starts unpaused with no paused frame |
| GasPausing.GasMeter.Pause | crates/cheatcodes/src/evm.rs:319-325 | pausing keeps the frames already paused |
| GasPausing.GasMeter.Resume | crates/cheatcodes/src/inspector.rs:275-281 | resuming forgets every paused frame |
| GasPausing.GasMeter.Reset | crates/cheatcodes/src/inspector.rs:284-289 | resetting resumes and asks for a fresh gas at the next instruction |
| GasPausing.GasMeter.InitializeInterp | crates/cheatcodes/src/inspector.rs:1205-1207 | a frame entered while paused is pushed with its own gas |
| GasPausing.GasMeter.Step | crates/cheatcodes/src/inspector.rs:1733-1741 | what an instruction executes with: the top of the paused stack, or its own gas pushed first |
| GasPausing.GasMeter.StepEnd | crates/cheatcodes/src/inspector.rs:1765-1790 | a frame that exits is popped, and touched gas with too large a refund is renewed |
| GasPausing.MatchesStopped | crates/cheatcodes/src/inspector.rs:2172-2192 | a frame that its `step` hook ends leaves the stack in order exactly when metering is not paused |
| GasPausing.StackBelongsToFramesIff | crates/cheatcodes/src/inspector.rs:1216-1259 | the paused stack is the cells of the open frames throughout a run if and only if no frame is ended by its `step` hook while metering is paused |
| GasPausing.PausedStackIsPerFrame | crates/cheatcodes/src/inspector.rs:1733-1741 | in every nested run with no such frame the single stack gives each instruction what a separate cell for each frame would: the gas first recorded for that frame in the pause |
| GasPausing.PausedRun | crates/cheatcodes/src/inspector.rs:1205-1207 | the same from the start of a run |
| GasPausing.PausedGasIsConstant | crates/cheatcodes/src/inspector.rs:1765-1770 | two instructions of one frame in one pause execute with the same gas whatever its callees did between them |
| GasPausing.StoppedFrameLeaksGas | crates/cheatcodes/src/inspector.rs:2172-2192 | a run in which a callee is ended by its `step` hook and the caller goes on with the callee's gas in place of its own |
| GasSnapshots.SnapshotMeter.constructor | crates/cheatcodes/src/inspector.rs:236-261 | no snapshot is active at the start |
| GasSnapshots.SnapshotMeter.StartSnapshot | crates/cheatcodes/src/evm.rs:957-982 | starting fails while a snapshot is active, and otherwise adds its record |
| GasSnapshots.SnapshotMeter.StopSnapshot | crates/cheatcodes/src/evm.rs:984-1032 | stopping stores the gas of the snapshot, less the overhead, under its group and name |
| GasSnapshots.SnapshotMeter.MeterGasRecord | crates/cheatcodes/src/inspector.rs:1744-1762 | the loop over the records adds the gas since the last reading to those at the running depth |
| GasSnapshots.AlwaysOneSnapshot | crates/cheatcodes/src/evm.rs:957-1032 | in every run recording, having an active snapshot and holding exactly its record are the same |
| GasSnapshots.StopEndsTheActiveSnapshot | crates/cheatcodes/src/evm.rs:984-1032 | in every reachable state a stop succeeds exactly when a snapshot is active and no other one is named, removes just its record and stores its value |
| GasSnapshots.StopIgnoresLoneName | crates/cheatcodes/src/evm.rs:984-1032 | a run in which a stop by another name ends the active snapshot |
| GasSnapshots.GasIsSumOfRises | crates/cheatcodes/src/inspector.rs:1744-1762 | whatever the readings of one frame, the record grows by the sum of their rises, saturating |
| GasSnapshots.GasTelescopes | crates/cheatcodes/src/inspector.rs:1744-1762 | when the readings never fall, that is the last reading minus the baseline |
| GasSnapshots.SnapshotMeasuresOwnGas | crates/cheatcodes/src/inspector.rs:1744-1762 | a new snapshot counts exactly the rises of its own readings if and only if no smaller reading is left over, or the count is saturated |
| GasSnapshots.LeftoverReadingIsCounted | crates/cheatcodes/src/inspector.rs:1744-1762 | a run in which a second snapshot also counts the gas spent between the two |
| ArbitraryStorage.Inspector.constructor | crates/cheatcodes/src/inspector.rs:292-301 | nothing is arbitrary at the start |
| ArbitraryStorage.Inspector.SetArbitraryStorage | crates/cheatcodes/src/utils.rs:196-203 | the account gets an empty cache |
| ArbitraryStorage.Inspector.CopyStorageCall | crates/cheatcodes/src/utils.rs:205-227 | refuses a target with arbitrary storage, else takes over the warm slots and links the target to an arbitrary source |
| ArbitraryStorage.Inspector.Load | crates/cheatcodes/src/inspector.rs:1800-1830 | a cold zero slot is filled from the cache or from a random draw that both source and copy keep; `loadCall` does the same |
| ArbitraryStorage.LookupsNeverFail | crates/cheatcodes/src/inspector.rs:303-351 | in every run whatsoever the lookups behind `expect` succeed, and every linked account has an arbitrary source |
| ArbitraryStorage.CopyCoherentIff | crates/cheatcodes/src/utils.rs:205-227 | a copy keeps a slot coherent if and only if the target is refused, or the arbitrary source has warmed the slot or both hold it alike, or a plain source brings what the target's own source agreed on |
| ArbitraryStorage.MarkCoherentIff | crates/cheatcodes/src/utils.rs:196-203 | marking keeps a slot coherent if and only if no cold copy awaits a value that the mark throws away |
| ArbitraryStorage.RunKeepsCoherence | crates/cheatcodes/src/inspector.rs:303-351 | for each slot, source and copies stay coherent throughout a run if and only if every event is allowed for it in this sense; then an agreed value never changes |
| ArbitraryStorage.ReadReturnsAgreed | crates/cheatcodes/src/evm.rs:170-205 | a read by the source or a copy returns the agreed value |
| ArbitraryStorage.ReadsAgree | crates/cheatcodes/src/evm.rs:170-205 | from a coherent state, two reads of a slot by a source or any of its copies return the same value, whoever reads first, whatever is drawn and whatever allowed events happen between |
| ArbitraryStorage.CoherentIffAlike | crates/cheatcodes/src/inspector.rs:303-351 | a slot is coherent if and only if all reads of it by a source and its copies agree, for all draws, now and after every allowed run |
| ArbitraryStorage.EventAgreesIff | crates/cheatcodes/src/utils.rs:196-227 | from a coherent state, after any mark, copy or read all reads of a slot agree in every allowed continuation if and only if that event is allowed for the slot |
| ArbitraryStorage.CopyOverwritesSource | crates/cheatcodes/src/inspector.rs:330-351 | a run in which a copy's read overwrites a value its source has read |
| ArbitraryStorage.PlainCopyKeepsLink | crates/cheatcodes/src/utils.rs:205-227 | a run in which an account that was copied over keeps its link and reads another value than its source |
| ArbitraryStorage.MarkedAgainForgets | crates/cheatcodes/src/utils.rs:196-203 | a run in which a source is marked again and its copy draws another value |
| Broadcasting.Inspector.constructor | crates/cheatcodes/src/script.rs:169-180 | no broadcast is active and nothing is queued |
| Broadcasting.Inspector.StartBroadcast | crates/cheatcodes/src/script.rs:246-278 | fails while a prank or a broadcast is active, else chooses the sender and remembers caller, origin and depth |
| Broadcasting.Inspector.StopBroadcast | crates/cheatcodes/src/script.rs:150-159 | ends the broadcast, or fails when there is none |
| Broadcasting.Inspector.Call | crates/cheatcodes/src/inspector.rs:1026-1103 | at the broadcast depth the origin is swapped and the call queued with the sender's nonce |
| Broadcasting.Inspector.Create | crates/cheatcodes/src/inspector.rs:657-698 | at or below the broadcast depth the origin is swapped; at it the create is queued |
| Broadcasting.Inspector.End | crates/cheatcodes/src/inspector.rs:1312-1321 | at the broadcast depth the origin is put back and a single-call broadcast ends |
| Broadcasting.StopKeepsOriginHome | crates/cheatcodes/src/script.rs:150-159 | a stop keeps the invariant if and only if the origin is unswapped, as at the broadcast depth it always is |
| Broadcasting.OriginAlwaysRestored | crates/cheatcodes/src/inspector.rs:1312-1321 | over a whole run the origin is the script's own between calls at the broadcast depth if and only if every stop is executed with the origin unswapped |
| Broadcasting.StopInsideCallKeepsSender | crates/cheatcodes/src/script.rs:150-159 | a run that ends with the sender as the script's origin |
| Broadcasting.RunIssues | crates/cheatcodes/src/inspector.rs:1026-1103 | in every run, with reverting frames and refused or colliding creates, the queue grows by the nonces of the sender at each queueing, where creates outside the broadcast, undone creates and refused queued creates shift the nonce |
| Broadcasting.NoncesAreConsecutiveIff | crates/cheatcodes/src/inspector.rs:1026-1103 | the queued nonces of a sender are consecutive after a run if and only if they were before and these shifts were balanced whenever one was queued |
| Broadcasting.BroadcastNonces | crates/cheatcodes/src/inspector.rs:657-698 | the same for a script that starts with an empty queue, from the sender's own nonce on |
| Broadcasting.NoncesWithoutDrift | crates/cheatcodes/src/inspector.rs:657-698 | the nonces are consecutive when the sender creates nothing outside its broadcast, nothing in a frame that reverts, and nothing that the machine refuses |
| Broadcasting.RevertedCreateRepeatsNonce | crates/cheatcodes/src/inspector.rs:657-698 | a run in which a create that is undone and the next one are queued with the same nonce |
| Broadcasting.RefusedCreateRepeatsNonce | crates/cheatcodes/src/inspector.rs:657-698 | the same for a create that the machine refuses |
| Bytes.FromBigEndianInverse | crates/cast/src/rlp_converter.rs:17-46 | reading the shortest big-endian form gives the number |
| Bytes.BigEndianInverse | crates/cast/src/rlp_converter.rs:17-46 | bytes without a leading zero are the shortest form of their number |
| Bytes.DecodeEncodeHex | crates/cast/src/rlp_converter.rs:49-65 | hexadecimal text is read back as the same bytes |
| Rlp.Decode | crates/cast/src/rlp_converter.rs:26-46 | the loop over the payload decodes what the recursive definition says, for every input, errors included |
| Rlp.DecodeEncode | crates/cast/src/rlp_converter.rs:17-46 | decoding an encoded item followed by anything gives the item and leaves exactly the rest |
| Rlp.EncodeDecode | crates/cast/src/rlp_converter.rs:26-46 | whenever decoding succeeds, encoding the item gives back exactly the bytes consumed |
| Rlp.EncodingIsPrefixFree | crates/cast/src/rlp_converter.rs:17-24 | no encoding is a proper prefix of another, and equal encodings come from equal items |
| RlpText.Display | crates/cast/src/rlp_converter.rs:74-93 | the loop that writes to a sink appends the printed item |
| RlpText.ReadPrint | crates/cast/src/rlp_converter.rs:74-93 | a JSON reader applied to a printed item followed by anything gives the value of the item and leaves the rest |
| RlpText.ItemOfToValue | crates/cast/src/rlp_converter.rs:49-65 | converting that value gives back the item |
| RlpText.TextRoundTrip | crates/cast/src/rlp_converter.rs:155-182 | print, read as JSON and convert: the original item |
| RlpText.PrintIsInjective | crates/cast/src/rlp_converter.rs:74-93 | items that print the same text are equal |
| RlpText.NumberToItem | crates/cast/src/rlp_converter.rs:49-65 | a JSON number becomes its shortest big-endian form, which denotes the number, and is empty for zero |
| Numbers.ReadShow | crates/cast/src/base.rs:406-412 | the digits of a 256-bit number are read back as the number in each of the four bases |
| Numbers.FormatIsShow | crates/cast/src/base.rs:373-392 | a formatted non-zero number is exactly the digits of its magnitude and never starts with a zero |
| Numbers.PrefixedRoundTrip | crates/cast/src/base.rs:112-156 | in base 2, 8 and 16, printed with its prefix and read with base detection, every number gives the same word and base |
| Numbers.DecimalRoundTrip | crates/cast/src/base.rs:394-404 | decimal text is always read, and gives the same word if and only if the number is not negative, is zero, or is negative as a signed word |
| Numbers.WrappedNegativeIsLost | crates/cast/src/base.rs:394-404 | an input read as word 5 marked negative, whose text is read back as another word |
| Numbers.SignedRoundTrip | crates/cast/src/base.rs:272-277 | every signed 256-bit number is read back with its sign |
| Numbers.UnprefixedRoundTrip | crates/cast/src/base.rs:217-231 | unprefixed non-zero digits are read back under their explicit base and never taken for a prefix |
| FixedPoint.SplitDenotes | crates/cast/src/lib.rs:1229-1250 | the whole and fractional digits denote the number divided by the power of ten, padded or not |
| FixedPoint.FixedPointDenotes | crates/cast/src/lib.rs:1229-1250 | for every readable number and number of decimals: the sign, exactly that many digits after the dot, the digits of the number once dot and leading zeros are dropped, and the value of the quotient |
| FixedPoint.SignedFixedPoint | crates/cast/src/lib.rs:1229-1250 | the same for the text of every signed 256-bit number |
| SolidityJson.ParseJsonMap | crates/cheatcodes/src/json.rs:430-446 | the loop over the fields of a struct type parses what the recursive definition says, missing fields included |
| SolidityJson.TypedRoundTrip | crates/cheatcodes/src/json.rs:593-633 | a value of any type, nested in any way, survives serializing and parsing by its type if and only if it holds no function pointer, no string that is the text of a JSON object, and no fixed bytes with a non-zero tail |
| SolidityJson.LeafRoundTrip | crates/cheatcodes/src/json.rs:388-401 | the same for elementary values |
| BlockProduction.BlockProducer.constructor | crates/anvil/src/service.rs:115-119 | the backend starts idle with nothing queued |
| BlockProduction.BlockProducer.Next | crates/anvil/src/service.rs:121-164 | starts the front batch when the backend is idle, then polls the mining job |
| BlockProduction.NodeService.constructor | crates/anvil/src/service.rs:40-64 | a service over a fresh producer that has reported nothing |
| BlockProduction.NodeService.DrainAll | crates/anvil/src/service.rs:75-79 | the inner loop reports blocks until the producer is pending |
| BlockProduction.NodeService.Poll | crates/anvil/src/service.rs:68-88 | the outer loop alternates draining and feeding until the miner is pending |
| BlockProduction.PollKeeps | crates/anvil/src/service.rs:121-164 | a poll keeps the one backend idle or mining, loses no batch, and mines one exactly when mining is done and there is work |
| BlockProduction.RunAccounts | crates/anvil/src/service.rs:68-88 | in every run, whoever else mines on the shared backend: our blocks on the chain, the batch in flight and the queue are all that was fed, the pool was told of exactly our blocks, and after every poll a non-empty queue means a block is being mined |
| BlockProduction.MinedInOrder | crates/anvil/src/service.rs:75-79 | the i-th block reported is the i-th batch fed, it is on the chain at the reported height, and the heights increase |
| BlockProduction.AloneHeights | crates/anvil/src/service.rs:75-79 | when nobody else mines, the heights follow genesis without a gap |
| BlockProduction.NothingLeftBehind | crates/anvil/src/service.rs:68-88 | when every mining job polled is done, each poll mines everything fed |
| FilterLogs.FilterBlock | crates/anvil/src/pubsub.rs:140-183 | the nested loops give all logs of the block numbered in order by a 32-bit counter, restricted to the matching ones |
| FilterLogs.ExpectedIsExact | crates/anvil/src/pubsub.rs:140-183 | a log is in the result if and only if it is the j-th log of some receipt and matches, with that transaction's index and hash and with the number of all logs before it, modulo 2^32, as its index; up to 2^32 logs the indexes increase |
| LogStreams.LogsSubscription.constructor | crates/anvil/src/pubsub.rs:18-25 | a subscription starts with nothing notified and nothing queued |
| LogStreams.LogsSubscription.PollNext | crates/anvil/src/pubsub.rs:28-59 | the loop gives the next log, the end, or pending, as the recursive definition says |
| LogStreams.LogsFilter.constructor | crates/anvil/src/filter.rs:150-161 | a filter starts with its historic logs |
| LogStreams.LogsFilter.PollAll | crates/anvil/src/filter.rs:165-175 | returns the historic logs once, then the logs of every pending block, and drains the channel |
| LogStreams.Fetch | crates/anvil/src/pubsub.rs:39-42 | the logs of a notified block if block and receipts are stored, nothing otherwise |
| LogStreams.PollAnswers | crates/anvil/src/pubsub.rs:28-59 | a poll with nothing queued skips exactly the stored blocks without a matching log and answers by the first other one |
| LogStreams.PendingIsArmed | crates/anvil/src/pubsub.rs:43-57 | a pending poll has left its waker with the drained channel, unless, and exactly when, a missing block comes up before any matching log |
| LogStreams.MissingBlockStalls | crates/anvil/src/pubsub.rs:54-57 | a pending poll that leaves a notified block behind with no waker |
| LogStreams.RunConserves | crates/anvil/src/pubsub.rs:28-59 | over any interleaving of notifications and polls the subscription has sent and holds the logs of what it consumed, and the filter has returned the historic logs and those of what it consumed |
| LogStreams.ConsumersAgree | crates/anvil/src/filter.rs:165-175 | once both have caught up, both have reported the same logs in the same order, the filter after the historic ones |
| GasSearch.ChiselRunner.constructor | crates/chisel/src/runner.rs:136-139 | the runner holds the gas limit of the environment |
| GasSearch.ChiselRunner.Estimate | crates/chisel/src/runner.rs:136-178 | the loop reports what the interval search finds, without 64-bit overflow, and puts the limit back unless a call could not be made |
| GasSearch.VariesLittle | crates/chisel/src/runner.rs:160-166 | the truncated quotient tests for a difference below a tenth |
| GasSearch.NarrowLeavesEvidence | crates/chisel/src/runner.rs:146-175 | whatever the calls answer, an early stop reports a limit that was tried and taken for a success, above one that is the start or was tried and taken for a failure, within a tenth of the previous success; the interval never leaves the first one |
| GasSearch.ProbesAreFew | crates/chisel/src/runner.rs:146-150 | the number of calls is at most logarithmic in the width of the interval |
| GasSearch.ReportIsSufficient | crates/chisel/src/runner.rs:146-178 | for a call with a least sufficient limit the report is enough if and only if the gas used already is, or that limit is at most three times it and is not hit exactly; then it overshoots by less than a ninth |
| GasSearch.HitIffMissed | crates/chisel/src/runner.rs:146-175 | for any gas used of at least 28, the limits the search hits exactly are at most eight explicit midpoints |
| GasSearch.TooSmallReports | crates/chisel/src/runner.rs:146-178 | for any gas used of at least 28, the report is too small exactly when the least limit is one of those or above three times the gas used |
| GasSearch.ListStartsAt28 | crates/chisel/src/runner.rs:146-175 | the bound is tight: with 27 gas used, 36 is hit and not listed |
| GasSearch.InsufficientReports | crates/chisel/src/runner.rs:146-178 | the same list written out in eighths, for gas used that is any multiple of eight |
| GasSearch.DoubledNeedIsMissed | crates/chisel/src/runner.rs:160-175 | a call that used 800 and needs 1600 is reported as 800 |

## Left out

- Runs in which a hook returns early before pushing or popping: mocked calls, expected reverts, assume-no-revert, pranks, and calls to the cheatcode address itself.
- Balance diffs in the state-diff summary: computed by the model as in the source, but no theorem, because the code does not filter reverted accesses there.
- The data fields of an account record (balances, value, code, call data): carried as the hooks report them; no theorem relates them to account state.
- StateDiffSummary.StateDiffIsRealEffect: excludes slots that the recording frame stores to itself; `SummaryOfSlot` and `StateDiffIsRealIff` cover every slot.
- ArbitraryStorage.RunKeepsCoherence: no stores happen, accounts load successfully, and all reads belong to one transaction, so a slot stays warm.
- Broadcasting.NoncesAreConsecutiveIff: calls are not isolated, no nonce cheatcode is used, and a create that the machine does not refuse increments the nonce of its creator in the journal of the creating frame; a created account's own first nonce is not set. A prank only keeps a broadcast from starting; a failure to list the signers, access lists, delegations and the other fields of a queued transaction are not modelled.
- GasSnapshots.GasTelescopes: speaks of readings that never fall and do not start at zero; `GasIsSumOfRises` covers all readings of one frame. Value snapshots and the files they are written to are not modelled.
- Rlp.DecodeEncode: items whose encoded payloads have lengths below 2^64, the range of the header.
- SolidityJson.TypedRoundTrip: which strings are the text of a JSON object and which letters of an address are upper case are parameters. `coerce_str` is modelled for plain decimal numbers, hexadecimal bytes and the booleans; other spellings of numbers and the text of compound types are not.
- RlpText.ReadPrint: the JSON reader covers strings without escapes and arrays, which is all the printer produces.
- Numbers: the table of base names in `Base::from_str`, upper-case hexadecimal output, and conversions between integer types.
- FilterLogs.FilterBlock: blocks with more receipts than transactions, for which the source panics; the log index wraps around, as in a release build without overflow checks.
- BlockProduction.NodeService.Poll: a mining job that panics, the pruning of the pool, the fee history and the eviction of filters are not modelled; when mining is done and what the miner feeds are parameters.
- LogStreams.LogsSubscription.PollNext: the storage does not change during a run, every stored block has a transaction for each receipt; the waker is a flag of the channel.
- GasSearch.ChiselRunner.Estimate: ten times the gas used must fit 64 bits, and a call answers the same for the same limit; re-execution with file-system changes is not modelled.
- Network, RPC providers, file system, foreign function interface, command line and output formatting: no internal invariant.
- Cryptography, key derivation and signing: foreign libraries.
- Chisel's type inference, hardfork tables, configuration setters, base64, environment and TOML cheatcodes: would add only easy members.
