# cardano-byron-cli core, modelled in Dafny

This project models the core of `cardano-byron-cli`, the command-line tool for
Byron-era Cardano wallets, blockchains and transactions. It covers these parts:

- **The transaction builder** (`TransactionCore`). A transaction under
  construction has inputs, outputs, at most one change address, witnesses and
  a finalised flag. It is changed only by replaying `Operation`s.
  `TransactionCore.Apply` is the single step: it says when an operation
  applies, when it is ignored, and the one case where the source panics.
  The class `Transaction` is proved against it method by method.
- **The staging transaction** (`StagingTransactionCore`). This is a
  transaction being built in an append-only file. The file holds the magic
  record, the protocol magic as a u32, then one record per operation.
  Every mutation appends a record and then applies the operation. The class
  invariant `Valid` says the file reads back, record for record, to exactly
  the operations and the transaction in memory. Also modelled:
  `read_from_file` with all of its header errors, the output-removal loop of
  `remove_outputs_for`, and export/import.
- **The wallet log** (`WalletLog`). Each event is encoded as a fixed 64-byte
  header followed by a payload. The module has encoding and decoding with
  their round trip, and the reader and writer over a sequence of records.
- **The address lookup engines**:
  - `SequentialIndex`: BIP-44 with a gap limit of 20. As written, the thresholds are never stored, so no address past index 39 of a chain is ever generated (see "## Findings");
  - `RandomIndexLookup`: random-index addresses, with the derivation path
    decrypted from the payload;
  - `AccumLookup`: accept everything.
- **The wallet state** (`WalletState`): rebuilding it from logs, spending and
  receiving, and the total. **Syncing a wallet against a blockchain**
  (`WalletSync`): the checkpoint/spent/received order of new log entries, and
  loading a wallet state from its log file.
- **The blockchain**:
  - `BlockIter`: the iterator over packed epochs, then loose blocks. As written, its first call returns the first block of the starting epoch, not the starting block (see "## Findings");
  - `Chain`: remote tags, peers, the local tip, `forward` and the
    `remote_fetch` selection;
  - `DirectoryNames`: blockchain and wallet directory names;
  - `Time`: durations shown to the user.

External libraries are not part of this model. This covers the storage,
cryptography, YAML and CBOR codecs, and the network. Where the core calls
them, they appear as function-valued parameters or fields: a storage's block
lookup, a codec's serialise and deserialise, an address generator. Where the
core relies on a property of them, it is stated as a predicate the caller
supplies. Example: `Sound(codec)` says that decoding an encoded operation
gives it back. The `Types` module holds the shared vocabulary: hashes, block
dates and their order, UTxOs, coins with `MAX_COIN`, big-endian u32/u64 and
hex. Its lemmas (`DecodeEncodeBE`, `HexRoundTrip`, `DateLessIsStrictTotal`,
`CoinAdd`) state what the core assumes of those libraries.

## Model

| member | source | states |
|---|---|---|
| TransactionCore.Empty | src/transaction/core/transaction.rs:109-117 | a new transaction has no inputs, outputs, changes or witnesses and is not finalised |
| TransactionCore.Without | src/transaction/core/transaction.rs:223-229 | filtering never makes a list longer |
| TransactionCore.WithoutNothing | src/transaction/core/transaction.rs:250-270 | the filter removes nothing exactly when no element has the key, and then the list is unchanged |
| TransactionCore.RemoveMatching | src/transaction/core/transaction.rs:211-236 | the in-place retain loop leaves exactly the filtered list and reports a removal iff some element matched |
| TransactionCore.WithoutMembers | src/transaction/core/transaction.rs:211-236 | an element survives the filter iff it was there and its key differs |
| TransactionCore.LookupInput | src/transaction/core/transaction.rs:182-184 | the index found is the first input spending that txin; None iff no input spends it |
| TransactionCore.LookupFailsIffNothingRemoved | src/transaction/core/transaction.rs:211-236 | removing an input changes the inputs iff lookup finds it |
| TransactionCore.Report | src/transaction/core/transaction.rs:152-163 | an update reports success iff the operation was applied |
| TransactionCore.Apply | src/transaction/core/transaction.rs:152-163 | an operation either applies or leaves the transaction unchanged; finalisation is never undone; there is never more than one change; additions after finalisation are rejected; it panics exactly on removing the output at index = number of outputs |
| TransactionCore.ApplyRules | src/transaction/core/transaction.rs:186-276 | per operation, both directions of when it applies: a change only before finalisation and when none is set; a signature only after finalisation while witnesses < inputs, appended; an input removal iff lookup finds it, and it drops exactly the inputs with that txin; a change removal iff some change has the address, and it drops exactly those |
| TransactionCore.RunAppend | src/transaction/core/transaction.rs:152-163 | replaying two operation lists in turn is replaying their concatenation |
| TransactionCore.RemoveOutputApplied | src/transaction/core/transaction.rs:238-248 | removing a valid output index removes exactly that output |
| TransactionCore.RunSnoc | src/transaction/core/transaction.rs:152-163 | replaying one more operation applies it to the state replayed so far |
| TransactionCore.ReplayAtMostOneChange | src/transaction/core/transaction.rs:196-201 | any replayed transaction has at most one change |
| TransactionCore.FinalizedPersists | src/transaction/core/transaction.rs:272-276 | once finalised, a transaction stays finalised under any operations |
| TransactionCore.FinalizedFreezesAdditions | src/transaction/core/transaction.rs:186-201 | once finalised, any sequence of additions leaves the transaction unchanged |
| TransactionCore.RemoveInputAfterSigning | src/transaction/core/transaction.rs:211-236 | an input can still be removed after finalising and signing: finalisation and the witness stay, leaving more witnesses than inputs |
| TransactionCore.BuilderFor | src/transaction/core/transaction.rs:119-137 | the builder holds every input's txin and expected value and every output, in order, followed by the outputs the change policy adds; without exactly one change nothing is added and it cannot fail |
| TransactionCore.Finalized | src/transaction/core/transaction.rs:139-149 | builder errors pass through; an open transaction is TransactionNotFinalized; success only for a finalised transaction, with the builder's change outputs |
| TransactionCore.Transaction.constructor | src/transaction/core/transaction.rs:109-117 | a new transaction is the empty one |
| TransactionCore.Transaction.LookupInputOf | src/transaction/core/transaction.rs:182-184 | the lookup method returns the first matching input index |
| TransactionCore.Transaction.MkTxBuilder | src/transaction/core/transaction.rs:119-137 | the builder method returns BuilderFor of the current state |
| TransactionCore.Transaction.MkFinalized | src/transaction/core/transaction.rs:139-149 | the finalised-transaction method returns Finalized of the current state |
| TransactionCore.Transaction.UpdateWith | src/transaction/core/transaction.rs:152-163 | the new state is Apply of the old one, and the result is its Report |
| TransactionCore.Transaction.AddOutput | src/transaction/core/transaction.rs:186-190 | the new state is Apply's: the output is added unless finalised |
| TransactionCore.Transaction.AddInput | src/transaction/core/transaction.rs:191-195 | the new state is Apply's: the input is added unless finalised |
| TransactionCore.Transaction.AddChange | src/transaction/core/transaction.rs:196-201 | the new state is Apply's: the change is set unless finalised or one is set |
| TransactionCore.Transaction.AddWitness | src/transaction/core/transaction.rs:202-209 | the new state is Apply's: the witness is appended only to a finalised transaction still missing witnesses |
| TransactionCore.Transaction.RemoveInput | src/transaction/core/transaction.rs:211-236 | the new state is Apply's: every input with the txin goes, and the call fails iff there was none |
| TransactionCore.Transaction.RemoveOutput | src/transaction/core/transaction.rs:238-248 | the new state is Apply's: the output at an in-range index goes |
| TransactionCore.Transaction.RemoveChange | src/transaction/core/transaction.rs:250-270 | the new state is Apply's: every change to the address goes, failing iff there was none |
| TransactionCore.Transaction.Finalize | src/transaction/core/transaction.rs:272-276 | the new state is Apply's: finalised, failing if it already was |
| StagingTransactionCore.EncodeOps | src/transaction/core/staging_transaction.rs:179-184 | one record per operation |
| StagingTransactionCore.EncodeOpsSnoc | src/transaction/core/staging_transaction.rs:179-184 | appending an operation appends exactly its record |
| StagingTransactionCore.ReadU32 | src/transaction/core/staging_transaction.rs:141-149 | the protocol magic record reads iff it has at least 4 bytes |
| StagingTransactionCore.ReadSpec | src/transaction/core/staging_transaction.rs:126-169 | an empty file has no magic; a wrong first record is InvalidMagic with its bytes; a lone magic lacks the protocol magic; a successful read had a good header and no read failure |
| StagingTransactionCore.ReplayRecordsIsReplay | src/transaction/core/staging_transaction.rs:151-158 | the operations read back replay to the transaction read back |
| StagingTransactionCore.ReadsBackIsRead | src/transaction/core/staging_transaction.rs:126-169 | the class invariant's read-back predicate holds iff reading the file gives those operations and transaction |
| StagingTransactionCore.ReadHeader | src/transaction/core/staging_transaction.rs:31-54 | a freshly written header reads back as the empty transaction |
| StagingTransactionCore.ReadAppended | src/transaction/core/staging_transaction.rs:179-184 | appending an operation's record keeps the file reading back to the applied state |
| StagingTransactionCore.ReadWritten | src/transaction/core/staging_transaction.rs:126-169 | a file written as header plus encoded operations reads back to exactly those operations and their replay |
| StagingTransactionCore.ReplayStopped | src/transaction/core/staging_transaction.rs:151-158 | once replaying stops on an error, later records do not matter |
| StagingTransactionCore.RemovalOpsRemoveExactly | src/transaction/core/staging_transaction.rs:272-285 | the RemoveOutput operations the loop logs, replayed, delete exactly the outputs to the address and keep the rest in order |
| StagingTransactionCore.RemovalAfterIs | src/transaction/core/staging_transaction.rs:272-285 | the loop's state after any number of iterations has a closed form |
| StagingTransactionCore.RemovalDone | src/transaction/core/staging_transaction.rs:272-285 | when the loop exits it has seen every output, logged exactly the removal operations and kept exactly the other outputs |
| StagingTransactionCore.RemovalOpsPrefix | src/transaction/core/staging_transaction.rs:272-285 | the removal operations for a prefix of the outputs are a prefix of those for all of them |
| StagingTransactionCore.RemovalPartial | src/transaction/core/staging_transaction.rs:272-285 | wherever the loop stops, the list and the file gained a prefix of the removal operations and exactly those were applied; stopping at a matching output leaves at least one out |
| StagingTransactionCore.RemovalOpsNone | src/transaction/core/staging_transaction.rs:272-285 | no output to the address means nothing is logged |
| StagingTransactionCore.AddInputs | src/transaction/core/staging_transaction.rs:83-96 | one AddInput per imported input |
| StagingTransactionCore.AddOutputs | src/transaction/core/staging_transaction.rs:83-96 | one AddOutput per imported output |
| StagingTransactionCore.ReplayInputs | src/transaction/core/staging_transaction.rs:83-96 | replaying the input additions on an unfinalised transaction appends exactly those inputs |
| StagingTransactionCore.ReplayOutputs | src/transaction/core/staging_transaction.rs:83-96 | replaying the output additions on an unfinalised transaction appends exactly those outputs |
| StagingTransactionCore.ImportOpen | src/transaction/core/staging_transaction.rs:83-96 | importing inputs then outputs rebuilds them in order |
| StagingTransactionCore.ImportRestores | src/transaction/core/staging_transaction.rs:83-96 | import restores inputs, outputs and the finalised flag, but not changes or witnesses |
| StagingTransactionCore.StagingTransaction.NewWith | src/transaction/core/staging_transaction.rs:31-54 | fails, with the disk's error, iff the disk cannot take the two header records; otherwise the file is the header, nothing is staged and the invariant holds |
| StagingTransactionCore.StagingTransaction.Append | src/transaction/core/staging_transaction.rs:179-184 | when the disk takes one more record it is appended and the operation applied; otherwise the disk's error is returned and nothing changes; the file still reads back |
| StagingTransactionCore.StagingTransaction.Finalize | src/transaction/core/staging_transaction.rs:186-188 | appends and applies Finalize |
| StagingTransactionCore.StagingTransaction.AddSignature | src/transaction/core/staging_transaction.rs:190-192 | appends and applies the signature |
| StagingTransactionCore.StagingTransaction.AddInput | src/transaction/core/staging_transaction.rs:201-210 | appends and applies a new input |
| StagingTransactionCore.StagingTransaction.AddChange | src/transaction/core/staging_transaction.rs:212-219 | appends and applies the change when none is set |
| StagingTransactionCore.StagingTransaction.AddOutput | src/transaction/core/staging_transaction.rs:221-225 | appends and applies the output |
| StagingTransactionCore.StagingTransaction.RemoveInput | src/transaction/core/staging_transaction.rs:233-242 | appends and applies the removal of a present input |
| StagingTransactionCore.StagingTransaction.RemoveChange | src/transaction/core/staging_transaction.rs:250-252 | appends and applies the change removal |
| StagingTransactionCore.StagingTransaction.RemoveOutput | src/transaction/core/staging_transaction.rs:261-268 | appends and applies the removal of an in-range output |
| StagingTransactionCore.StagingTransaction.RemoveOutputsFor | src/transaction/core/staging_transaction.rs:272-285 | in every outcome the list and the file gained a prefix of the removal records and exactly those removals were applied; it succeeds iff all of them were written, and then exactly the outputs to the address are gone; a failure is the disk's error, raised by the first record the disk refuses |
| StagingTransactionCore.StagingTransaction.ExportOf | src/transaction/core/staging_transaction.rs:338-357 | the export carries the magic as hex and the whole transaction |
| StagingTransactionCore.StagingTransaction.Import | src/transaction/core/staging_transaction.rs:83-96 | fails, with the disk's error, iff the disk cannot take the header and every import record; otherwise a new staging file whose operations are the import operations and whose transaction is the export's, without changes or witnesses |
| StagingTransactionCore.StagingTransaction.ImportInputs | src/transaction/core/staging_transaction.rs:83-96 | succeeds iff the disk takes a record per input, with the disk's error otherwise; on success exactly those inputs are staged, with their AddInput operations |
| StagingTransactionCore.StagingTransaction.ImportOutputs | src/transaction/core/staging_transaction.rs:83-96 | succeeds iff the disk takes a record per output, with the disk's error otherwise; on success exactly those outputs are staged, with their AddOutput operations |
| StagingTransactionCore.StagingTransaction.ReadFromFile | src/transaction/core/staging_transaction.rs:126-169 | the file's header error is returned, a replay panic is reported as one, and a good file is opened with exactly the operations and transaction it holds, satisfying the invariant |
| WalletLog.FromAppendError | src/wallet/state/log.rs:32-38 | a missing file becomes LogNotFound, any other append error is wrapped |
| WalletLog.Log.Map | src/wallet/state/log.rs:187-195 | mapping the address keeps the pointer, the variant, the txin and the value |
| WalletLog.DateWordsRoundTrip | src/wallet/state/log.rs:86-95 | a block date written as epoch and slot words reads back |
| WalletLog.PointerBytes | src/wallet/state/log.rs:84-100 | a state pointer takes 52 header bytes |
| WalletLog.HeaderBytes | src/wallet/state/log.rs:84-100 | the header is exactly 64 bytes |
| WalletLog.HeaderFields | src/wallet/state/log.rs:84-100 | the header holds the magic, the hash, the date words and the tag at their offsets |
| WalletLog.Encode | src/wallet/state/log.rs:78-119 | the record starts with the header; a checkpoint is just the header; only a payload encoding failure is an error |
| WalletLog.Decode | src/wallet/state/log.rs:124-176 | short input is an IO error; a wrong magic is reported with its 4 bytes; the hash and tag come from their offsets; an unknown tag is not 1, 2 or 3 |
| WalletLog.Stored | src/wallet/state/log.rs:86-95 | a pointer is stored as is iff it has a date |
| WalletLog.DecodeEncode | src/wallet/state/log.rs:78-176 | decoding an encoded event gives the event back, with a dateless pointer stored as the epoch-0 boundary |
| WalletLog.WritePointer | src/wallet/state/log.rs:84-95 | the pointer bytes are written in order |
| WalletLog.Serialise | src/wallet/state/log.rs:78-119 | the serialising method returns the encoding |
| WalletLog.ReadExact | src/wallet/state/log.rs:124-176 | reads exactly the bytes requested, or fails |
| WalletLog.Deserialise | src/wallet/state/log.rs:124-176 | the deserialising method agrees with Decode: the event on success, the decoding error otherwise |
| WalletLog.NextAt | src/wallet/state/log.rs:257-267 | Ok(None) iff past the last record with no read failure; a record read is its decoding; a failure at the end is reported through FromAppendError |
| WalletLog.IteratorItem | src/wallet/state/log.rs:279-285 | the iterator ends exactly on Ok(None), yields each entry, and yields an error as an item |
| WalletLog.ReadLogs | src/wallet/state/log.rs:257-285 | never more events than records; a clean end means every record was read and there was no failure |
| WalletLog.WriteLogs | src/wallet/state/log.rs:309-315 | one record per appended event |
| WalletLog.NormalisedAll | src/wallet/state/log.rs:78-176 | every event's pointer is normalised as stored |
| WalletLog.ReadWrittenLogs | src/wallet/state/log.rs:257-315 | reading back appended events gives them all, normalised, and a clean end |
| SequentialIndex.Incr | src/wallet/state/lookup/sequentialindex.rs:60-71 | advancing an index succeeds iff it stays below the BIP-44 soft bound |
| SequentialIndex.InWindowStep | src/wallet/state/lookup/sequentialindex.rs:60-71 | widening the window adds exactly one address |
| SequentialIndex.FillKeys | src/wallet/state/lookup/sequentialindex.rs:60-71 | after generation, an address is known iff it was known before or is in the window |
| SequentialIndex.FillKeeps | src/wallet/state/lookup/sequentialindex.rs:60-71 | addresses outside the window keep their addressing |
| SequentialIndex.FillLast | src/wallet/state/lookup/sequentialindex.rs:60-71 | an address in the window maps to the last index generating it |
| SequentialIndex.FillShape | src/wallet/state/lookup/sequentialindex.rs:60-71 | the keys, kept entries and window entries of generation, together |
| SequentialIndex.LastOfWindowUnique | src/wallet/state/lookup/sequentialindex.rs:60-71 | that last addressing is unique |
| SequentialIndex.FillIdempotent | src/wallet/state/lookup/sequentialindex.rs:60-71 | generating the same window twice is generating it once |
| SequentialIndex.FillCovers | src/wallet/state/lookup/sequentialindex.rs:60-71 | every index of the window is known, addressed within the window |
| SequentialIndex.FillGrows | src/wallet/state/lookup/sequentialindex.rs:60-71 | generation never forgets an address |
| SequentialIndex.GenerateStep | src/wallet/state/lookup/sequentialindex.rs:60-71 | succeeds iff the window end is in bound, and otherwise changes nothing |
| SequentialIndex.PrepareStep | src/wallet/state/lookup/sequentialindex.rs:73-83 | the next account is the account count as u32; out of bound is AccountOutOfBound with nothing changed; otherwise thresholds (0,0) are pushed |
| SequentialIndex.ThresholdStep | src/wallet/state/lookup/sequentialindex.rs:88-106 | nothing happens unless the path is past its chain's threshold; then it succeeds iff the threshold plus two gap limits stays in bound; the stored thresholds never change, because the new threshold is written to a copy; errors change nothing |
| SequentialIndex.ThresholdWindow | src/wallet/state/lookup/sequentialindex.rs:88-106 | after a trigger every index of the window from the threshold plus 20 to the threshold plus 40 is expected, with a path of that chain at or past it |
| SequentialIndex.ThresholdRepeats | src/wallet/state/lookup/sequentialindex.rs:88-106 | a trigger is idempotent, since the window never moves |
| SequentialIndex.LookupStep | src/wallet/state/lookup/sequentialindex.rs:116-126 | an unknown address is not ours and changes nothing; a known one is never "not ours" and comes back with its BIP-44 addressing, same txin and value; the thresholds never change |
| SequentialIndex.AcknowledgeStep | src/wallet/state/lookup/sequentialindex.rs:128-136 | a non-BIP-44 address is InvalidType(0); a BIP-44 one runs the threshold check, and below the threshold nothing happens; the thresholds never change |
| SequentialIndex.PrepareShape | src/wallet/state/lookup/sequentialindex.rs:73-83 | preparing adds thresholds (0,0) and only entries of the new account below the gap limit, each mapped from its own address |
| SequentialIndex.PrepareCovers | src/wallet/state/lookup/sequentialindex.rs:73-83 | a prepared account knows the first 20 addresses of both chains |
| SequentialIndex.PrepareKeepsCovered | src/wallet/state/lookup/sequentialindex.rs:73-83 | preparing keeps expected every address below a chain's threshold plus 20, for the new account too |
| SequentialIndex.PrepareKeepsStall | src/wallet/state/lookup/sequentialindex.rs:73-83 | preparing an account keeps the engine's invariant: thresholds 0, the first 20 addresses of every chain expected, no expected path at index 40 or more, each entry mapped from its own address |
| SequentialIndex.SecondWindowShape | src/wallet/state/lookup/sequentialindex.rs:88-106 | with the threshold at 0, a trigger adds only entries of the found path's chain below index 40, each mapped from its own address |
| SequentialIndex.ThresholdKeepsStall | src/wallet/state/lookup/sequentialindex.rs:88-106 | the threshold check keeps the engine's invariant |
| SequentialIndex.StepsKeepStall | src/wallet/state/lookup/sequentialindex.rs:73-136 | preparing, threshold checks, lookups and acknowledgements all keep the invariant, so from a new engine every threshold stays 0 and no expected path reaches index 40 |
| SequentialIndex.FoundEarlyKeepsGap | src/wallet/state/lookup/sequentialindex.rs:88-106 | a path found at index 20 or below leaves every address of its chain up to 20 past it expected |
| SequentialIndex.NeverPastSecondWindow | src/wallet/state/lookup/sequentialindex.rs:88-106 | with distinct addresses for distinct paths, no address of index 40 or more is ever expected |
| SequentialIndex.FoundLateLosesGap | src/wallet/state/lookup/sequentialindex.rs:92-104 | a path found past index 20 leaves the address 19 past it, the last one the gap limit calls for, not expected |
| SequentialIndex.PrepareFirst | src/wallet/state/lookup/sequentialindex.rs:73-83 | preparing the first account succeeds with thresholds (0,0) |
| SequentialIndex.PreparedFirstStalled | src/wallet/state/lookup/sequentialindex.rs:73-83 | a new engine with account 0 prepared satisfies the invariant |
| SequentialIndex.LookupFoundKeepsStall | src/wallet/state/lookup/sequentialindex.rs:116-126 | looking up the address of an expected path finds it, runs that path's threshold check and keeps the invariant |
| SequentialIndex.FindsOneThenTwentyOne | src/wallet/state/lookup/sequentialindex.rs:116-126 | with account 0 alone, the lookups of external indices 1 and then 21 both find their address |
| SequentialIndex.GapLimitExampleAsWritten | src/wallet/state/lookup/sequentialindex.rs:92-104 | after preparing account 0 and finding external indices 1 and 21, no expected path reaches index 40 and the lookup of index 45 is Ok(None) |
| SequentialIndex.ThresholdStepIntended | src/wallet/state/lookup/sequentialindex.rs:88-106 | as intended: the same result and expected addresses as ThresholdStep, and on a successful trigger the chain's stored threshold advances by 20 |
| SequentialIndex.LookupStepIntended | src/wallet/state/lookup/sequentialindex.rs:116-126 | as intended: the same answer and expected addresses as LookupStep, with the state of the intended threshold check |
| SequentialIndex.AcknowledgeStepIntended | src/wallet/state/lookup/sequentialindex.rs:128-136 | as intended: the same answer and expected addresses as AcknowledgeStep, with the state of the intended threshold check |
| SequentialIndex.PrepareKeepsGap | src/wallet/state/lookup/sequentialindex.rs:73-83 | preparing an account, the same in both variants, keeps the gap-limit invariant: every index below a chain's threshold plus 20 is expected, and no expected path lies beyond it |
| SequentialIndex.IntendedThresholdKeepsGap | src/wallet/state/lookup/sequentialindex.rs:88-106 | as intended, the threshold check keeps the gap-limit invariant |
| SequentialIndex.IntendedKeepsBounded | src/wallet/state/lookup/sequentialindex.rs:88-106 | as intended, what a trigger adds lies below the raised threshold plus 20 |
| SequentialIndex.IntendedFoundKeepsGap | src/wallet/state/lookup/sequentialindex.rs:88-106 | as intended, after an expected path is found, every address of its chain up to 20 past it is expected |
| SequentialIndex.IntendedLookupKeepsGap | src/wallet/state/lookup/sequentialindex.rs:116-126 | as intended, a successful lookup keeps the gap-limit invariant and leaves 20 addresses expected past the path found |
| SequentialIndex.IntendedStepsKeepGap | src/wallet/state/lookup/sequentialindex.rs:73-136 | as intended, preparing, threshold checks, lookups and acknowledgements all keep the gap-limit invariant |
| SequentialIndex.IntendedFindsOne | src/wallet/state/lookup/sequentialindex.rs:88-106 | as intended, finding index 1 of a fresh account raises its external threshold to 20 |
| SequentialIndex.IntendedFindsOneThenTwentyOne | src/wallet/state/lookup/sequentialindex.rs:88-106 | as intended, finding indices 1 and then 21 makes indices 40 and 45 expected |
| SequentialIndex.GapLimitExampleIntended | src/wallet/state/lookup/sequentialindex.rs:92-104 | as intended, on a new engine with account 0, finding indices 1 and 21 makes indices 40 and 45 expected |
| SequentialIndex.SequentialBip44Lookup.constructor | src/wallet/state/lookup/sequentialindex.rs:37-45 | a new engine knows no address and no account, with gap limit 20, and satisfies both the engine's invariant and the gap-limit invariant |
| SequentialIndex.SequentialBip44Lookup.MutGenerateFrom | src/wallet/state/lookup/sequentialindex.rs:60-71 | the method's new state and result are GenerateStep's |
| SequentialIndex.SequentialBip44Lookup.PrepareNextAccount | src/wallet/state/lookup/sequentialindex.rs:73-83 | the method's new state and result are PrepareStep's |
| SequentialIndex.SequentialBip44Lookup.ThresholdGenerate | src/wallet/state/lookup/sequentialindex.rs:88-106 | the method's new state and result are ThresholdStep's: the new threshold goes to the local copy only |
| SequentialIndex.SequentialBip44Lookup.Lookup | src/wallet/state/lookup/sequentialindex.rs:116-126 | the method's new state and result are LookupStep's |
| SequentialIndex.SequentialBip44Lookup.Acknowledge | src/wallet/state/lookup/sequentialindex.rs:128-136 | the method's new state and result are AcknowledgeStep's |
| RandomIndexLookup.Lookup | src/wallet/state/lookup/randomindex.rs:46-66 | decryption errors propagate; no path is "not ours"; found iff the path rebuilds the address; a mismatch is an error naming the rebuilt address |
| RandomIndexLookup.Acknowledge | src/wallet/state/lookup/randomindex.rs:73-78 | always succeeds |
| AccumLookup.Lookup | src/wallet/state/lookup/accum.rs:13-18 | every output is ours, addressed by its own address |
| AccumLookup.Acknowledge | src/wallet/state/lookup/accum.rs:20-25 | always succeeds |
| WalletState.EngineLookup | src/wallet/state/lookup/mod.rs:14-37 | only the sequential engine changes state, keeping its derivation; a found UTxO keeps its txin and value; the accumulating engine always finds |
| WalletState.EngineAcknowledge | src/wallet/state/lookup/mod.rs:14-37 | only the sequential engine can reject an address |
| WalletState.MapSumRemove | src/wallet/state/state.rs:58-65 | removing a UTxO takes its value off the sum |
| WalletState.ReplayLogs | src/wallet/state/state.rs:18-54 | the pointer is the last event's, None iff there are no events; UTxOs stay keyed by their txin |
| WalletState.UnspentBeforeLast | src/wallet/state/state.rs:18-54 | a received fund stays unspent after one more event iff it was unspent before and that event does not spend it |
| WalletState.ReplayHolds | src/wallet/state/state.rs:18-54 | after a replay a txin is held iff some received fund for it is not followed by a spent fund of it, and it is held with that received UTxO |
| WalletState.ReplayBalance | src/wallet/state/state.rs:18-54 | when every spent fund spends the value held, the values held plus everything spent equal everything received |
| WalletState.ReplayStopsAtFailure | src/wallet/state/state.rs:18-54 | replay stops at the first lookup failure |
| WalletState.StatelessReplay | src/wallet/state/state.rs:18-54 | with the stateless engines, replay never fails and keeps the engine |
| WalletState.ReceiveThenSpend | src/wallet/state/state.rs:18-54 | with a stateless engine, receiving then spending a new UTxO leaves the UTxO set as it was and the pointer at the spend |
| WalletState.SpendAll | src/wallet/state/state.rs:67-77 | every event written is a spent fund |
| WalletState.SpendAllRemoves | src/wallet/state/state.rs:67-77 | the UTxO set loses exactly the spent txins |
| WalletState.SpendAllCounts | src/wallet/state/state.rs:67-77 | one event per UTxO actually removed |
| WalletState.SpendAllEvents | src/wallet/state/state.rs:67-77 | each event carries the UTxO as it was held |
| WalletState.SpendAllAt | src/wallet/state/state.rs:67-77 | events carry the pointer they were spent at |
| WalletState.ReceiveAll | src/wallet/state/state.rs:78-90 | every event written is a received fund |
| WalletState.ReceiveOne | src/wallet/state/state.rs:78-90 | one output adds at most one event, and then the pointer and the UTxO set follow it |
| WalletState.ReceivePointer | src/wallet/state/state.rs:78-90 | the pointer is the last event's, or unchanged; at most one event per output |
| WalletState.ReceiveKeys | src/wallet/state/state.rs:78-90 | the UTxO set gains exactly the received txins |
| WalletState.ReceiveKeepsKeying | src/wallet/state/state.rs:78-90 | UTxOs stay keyed by their txin |
| WalletState.ReceiveAllAt | src/wallet/state/state.rs:78-90 | events carry the pointer they were received at |
| WalletState.ReceiveStopsAtFailure | src/wallet/state/state.rs:78-90 | receiving stops at the first lookup failure |
| WalletState.ReceiveAllAccum | src/wallet/state/state.rs:78-90 | with the accumulating engine, every output is received |
| WalletState.State.constructor | src/wallet/state/state.rs:14-16 | a new state has the pointer, the engine and no UTxO |
| WalletState.State.FromLogs | src/wallet/state/state.rs:18-54 | a lookup failure is returned; no events gives back the engine; otherwise the state replayed |
| WalletState.State.Total | src/wallet/state/state.rs:58-65 | the total is the sum of the UTxO values, and is Ok iff that sum is at most MAX_COIN |
| WalletState.State.ForwardWithTxins | src/wallet/state/state.rs:67-77 | the method's new UTxO set and events are SpendAll's |
| WalletState.State.ForwardWithUtxos | src/wallet/state/state.rs:78-90 | the method's new state and events are ReceiveAll's |
| WalletSync.InputsAt | src/wallet/utils.rs:61-68 | each input is paired with the block's pointer |
| WalletSync.OutputsAt | src/wallet/utils.rs:70-89 | the i-th output becomes a UTxO at (txid, i as u32) with its address and value |
| WalletSync.ForwardTx | src/wallet/utils.rs:50-89 | a transaction only appends to the entries written |
| WalletSync.SyncTx | src/wallet/utils.rs:47-89 | a block only appends to the entries written |
| WalletSync.SyncAll | src/wallet/utils.rs:23-91 | the sync only appends to the entries written |
| WalletSync.SyncStart | src/wallet/utils.rs:32-34 | the last date starts as the state's, or the epoch-0 boundary |
| WalletSync.SyncTxSkips | src/wallet/utils.rs:47-49 | the block the state is already at is skipped |
| WalletSync.SyncTxCheckpoint | src/wallet/utils.rs:50-58 | a checkpoint is written first iff the block starts a new epoch, and the last date follows the block |
| WalletSync.ForwardTxEntries | src/wallet/utils.rs:50-89 | only the optional checkpoint is a checkpoint among the new entries |
| WalletSync.SyncTxPointers | src/wallet/utils.rs:47-89 | every new entry carries the block's pointer |
| WalletSync.ForwardTxOrder | src/wallet/utils.rs:50-89 | the new entries are the checkpoint, then the spent funds, then the received funds |
| WalletSync.SyncTxOrder | src/wallet/utils.rs:47-89 | the new entries are ordered checkpoint < spent < received, with a checkpoint only first |
| WalletSync.SyncStopsAtFailure | src/wallet/utils.rs:23-91 | the sync stops at the first failure |
| WalletSync.ForwardTransaction | src/wallet/utils.rs:50-89 | the method's state, entries and failure are ForwardTx's |
| WalletSync.UpdateWalletStateWithUtxos | src/wallet/utils.rs:23-91 | the method's state, entries and failure are SyncAll's from the state's own pointer |
| WalletSync.FromLogError | src/wallet/error.rs:28-36 | a missing log is WalletLogNotFound; a lock already held is WalletLogAlreadyLocked with the holder's pid; every other error, other lock failures included, is wrapped |
| WalletSync.LoadEmpty | src/wallet/utils.rs:204-236 | an empty log gives the state just before genesis |
| WalletSync.LoadWritten | src/wallet/utils.rs:204-236 | loading a written log gives the state its replay builds |
| WalletSync.CreateWalletStateFromLogs | src/wallet/utils.rs:204-236 | the method returns the loading failure, or a state equal to the one loaded |
| BlockIter.PullEpoch | src/blockchain/iter/mod.rs:24-66 | pulling the next epoch consumes one pack and fails iff it is an error |
| BlockIter.SubNext | src/blockchain/iter/mod.rs:24-66 | the sub-iterator keeps its kind; loose ranges shrink by one; epoch packs are consumed in order, at most two per step |
| BlockIter.Open | src/blockchain/iter/mod.rs:82-116 | an unknown start is InvalidBlockHash; a loose start gives the storage range; a packed start begins at its epoch |
| BlockIter.Received | src/blockchain/iter/mod.rs:162-167 | a raw block either decodes, is yielded and becomes the last known, or the step panics |
| BlockIter.LaterStep | src/blockchain/iter/mod.rs:145-169 | a call after the first: the last known hash follows yielded blocks; once loose it stays loose and its range loses one hash; it switches to loose only with a last known block |
| BlockIter.SubNextAdvances | src/blockchain/iter/mod.rs:24-66 | every item the phase iterator gives consumes an epoch pack or a block |
| BlockIter.FirstHitShift | src/blockchain/iter/mod.rs:126-144 | the starting block is the first item, or comes after another block |
| BlockIter.ItemsHead | src/blockchain/iter/mod.rs:24-66 | the items of a phase iterator are its next item followed by the rest |
| BlockIter.SkipTo | src/blockchain/iter/mod.rs:126-144 | as intended, the first call keeps the phase kind; a yielded block is the last known; Done only when no block was read |
| BlockIter.SkipToFinds | src/blockchain/iter/mod.rs:126-144 | as intended, when the starting block comes before any error, the first call returns exactly it and it becomes the last known block |
| BlockIter.SkipToPasses | src/blockchain/iter/mod.rs:126-144 | as intended, a block other than the starting block is passed over |
| BlockIter.FirstStep | src/blockchain/iter/mod.rs:126-144 | the first call's loop over an optional item runs at most once: Done iff the phase iterator has no item, an error item is yielded, and a first block that decodes is returned whatever its hash, and becomes the last known |
| BlockIter.NextStep | src/blockchain/iter/mod.rs:121-170 | iteration ends at the target; the first call is FirstStep's; the last known hash follows yielded blocks; Done leaves it unchanged; once loose it stays loose, and it switches only after a block |
| BlockIter.NextStepIntended | src/blockchain/iter/mod.rs:121-170 | as intended, only the first call differs from NextStep, and it is SkipTo's |
| BlockIter.AsWrittenOverruns | src/blockchain/iter/mod.rs:130-139 | from `from` to `from` over items that start with another block, the first call returns that other block and the second call one more |
| BlockIter.SingleBlockRangeIntended | src/blockchain/iter/mod.rs:121-144 | as intended, from `from` to `from` the first call returns the block `from` and the second reports the end |
| BlockIter.RunStaysAtEnd | src/blockchain/iter/mod.rs:122-124 | at the target every further step is Done |
| BlockIter.LooseRunEnds | src/blockchain/iter/mod.rs:146-160 | a loose iteration ends within its range's length |
| BlockIter.Iter.constructor | src/blockchain/iter/mod.rs:82-116 | a new iterator is uninitialised with no last block |
| BlockIter.Iter.New | src/blockchain/iter/mod.rs:82-116 | the constructor method fails or opens as Open says |
| BlockIter.Iter.Next | src/blockchain/iter/mod.rs:121-170 | the method's new state and item are NextStep's: its first call reads one item |
| Chain.MkRemoteTag | src/blockchain/mod.rs:191-193 | a remote tag is "remote/" followed by the alias |
| Chain.RemoteTagsDistinct | src/blockchain/mod.rs:191-193 | distinct aliases have distinct tags |
| Chain.WriteRemoteTagsSpec | src/blockchain/mod.rs:83-86 | every peer's tag is set to genesis and other tags are untouched |
| Chain.NewTags | src/blockchain/mod.rs:70-104 | a new blockchain has its tip and every peer's tag at genesis, other tags unchanged |
| Chain.WithoutPeerMembers | src/blockchain/mod.rs:205-215 | removal keeps exactly the peers with other aliases |
| Chain.WithoutPeerAppend | src/blockchain/mod.rs:205-215 | removal distributes over concatenation |
| Chain.AddThenRemove | src/blockchain/mod.rs:182-215 | adding then removing a new alias leaves the peers as they were |
| Chain.RemoveAbsentPeer | src/blockchain/mod.rs:205-215 | removing an absent alias changes nothing |
| Chain.LoadTipOf | src/blockchain/mod.rs:221-247 | no tip tag means genesis; a tag with no block panics; otherwise the tagged block, flagged genesis iff it is |
| Chain.LoadSavedTip | src/blockchain/mod.rs:221-250 | after saving a stored block as tip, loading gives a tip with that block's date |
| Chain.SelectTip | src/blockchain/commands.rs:191-203 | the target is the local tip or one of the peers' |
| Chain.SelectTipLatest | src/blockchain/commands.rs:191-203 | no peer tip is later than the target |
| Chain.FirstLaterExtends | src/blockchain/commands.rs:191-203 | a strict improvement is only replaced by a later one |
| Chain.LastReplaces | src/blockchain/commands.rs:191-203 | the last strict improvement is the one kept |
| Chain.SelectTipFirst | src/blockchain/commands.rs:191-203 | ties keep the earlier tip |
| Chain.ExplicitTarget | src/blockchain/commands.rs:167-189 | bad hex is InvalidHexadecimal, a wrong length NotABlockHash, a hash not stored NotInLocalBlockchain; success only for a stored hash |
| Chain.ExplicitTargetOfHex | src/blockchain/commands.rs:167-189 | a stored hash given as hex is accepted |
| Chain.PeerTips | src/blockchain/mod.rs:195-204 | one tip per peer, in order |
| Chain.ForwardTarget | src/blockchain/commands.rs:159-209 | without a target, the local tip or a later peer tip is chosen, and the local tip when there are no peers |
| Chain.FetchSelectionMembers | src/blockchain/commands.rs:80-81 | a peer is fetched iff no names are given or it is named |
| Chain.ShowsLocal | src/blockchain/commands.rs:115 | local details are shown iff the detail is not Short |
| Chain.QueriesRemote | src/blockchain/commands.rs:133 | the remote is queried iff the detail is Remote, which implies local details |
| Chain.Blockchain.constructor | src/blockchain/mod.rs:70-104 | the new blockchain's tags are TagsAfterNew |
| Chain.Blockchain.AddPeer | src/blockchain/mod.rs:182-189 | appends the peer and sets its tag to genesis |
| Chain.Blockchain.RemovePeer | src/blockchain/mod.rs:205-215 | drops the peer and its tag |
| Chain.Blockchain.SaveTip | src/blockchain/mod.rs:248-250 | sets the tip tag |
| Chain.Blockchain.IterToTip | src/blockchain/mod.rs:260-267 | an iterator from the given block to the loaded tip |
| Chain.Blockchain.RemoteFetch | src/blockchain/commands.rs:72-89 | the peers fetched are FetchSelection's |
| Chain.Blockchain.Forward | src/blockchain/commands.rs:159-209 | the target is ExplicitTarget's or ForwardTarget's; on success the tip tag is set to it, on error the tags are unchanged |
| DirectoryNames.CharLen | src/utils/directory_name.rs:7-18 | a character is at most 4 bytes, ASCII is one, and a longer one starts at 0xC2 or above followed by continuation bytes |
| DirectoryNames.CodePoint | src/utils/directory_name.rs:7-18 | an ASCII byte is its own code point and a multi-byte character is at least 0x80 |
| DirectoryNames.FindSeparator | src/utils/directory_name.rs:7-18 | the byte index of the first '/' or '.', None iff there is none |
| DirectoryNames.New | src/utils/directory_name.rs:7-18 | non-UTF-8 input is UnsupportedCharacters; a separator is InvalidCharacterAtIndex at its byte index; anything else is accepted unchanged |
| DirectoryNames.Ascii | src/utils/directory_name.rs:38-46 | ASCII text becomes bytes below 0x80 |
| DirectoryNames.AsciiIsValid | src/utils/directory_name.rs:38-46 | ASCII text is valid UTF-8 |
| DirectoryNames.CharLenExtends | src/utils/directory_name.rs:7-18 | appending does not change a character's length |
| DirectoryNames.ValidAppend | src/utils/directory_name.rs:7-18 | valid UTF-8 followed by valid UTF-8 is valid |
| DirectoryNames.Refused | src/utils/directory_name.rs:7-18 | the first separator is reported at its index |
| DirectoryNames.Accepted | src/utils/directory_name.rs:7-18 | a valid name without separators is accepted |
| DirectoryNames.SeparatorExample | src/utils/directory_name.rs:45-46 | "directory" followed by '/' or '.' and more ASCII ("directory/1", "directory.2") is refused at index 9 |
| DirectoryNames.AcceptedSpace | src/utils/directory_name.rs:38-40 | "directory 2" is accepted |
| DirectoryNames.AcceptedNonAscii | src/utils/directory_name.rs:38-40 | "directory " with a four-byte emoji is accepted |
| DirectoryNames.InvalidEncodingExample | src/utils/directory_name.rs:59-61 | invalid UTF-8 is reported as UnsupportedCharacters with the input |
| Time.DurationSince | src/utils/time.rs:39-49 | the difference is Ok iff not negative, with the seconds and sub-seconds adding up to it |
| Time.FromStd | src/utils/time.rs:57-61 | the conversion keeps whole seconds and drops sub-seconds |
| Time.Between | src/utils/time.rs:39-49 | the absolute difference in whole seconds |
| Time.BetweenSymmetric | src/utils/time.rs:39-49 | the order of the two times does not matter |
| Time.BetweenSelf | src/utils/time.rs:39-49 | a time is zero seconds from itself |
| Time.BetweenSubSecond | src/utils/time.rs:39-49 | times less than a second apart are zero seconds apart |
| Time.Display | src/utils/time.rs:17-25 | at most the first 10 characters of the RFC 3339 form, which is its full date when the form is a date-time |

## Left out

- File locking (`LogLock`, the wallet lock) is not modelled. A lock failure is a value: already locked by a pid, or another failure.
- The append-only files are sequences of records. The reader and writer are functions over those sequences, with an optional read or write failure as a parameter.
- The staging file's random id (`StagingId::generate`) is a parameter.
- The CBOR encoding of operations and the YAML encoding of UTxOs are codec parameters. What the core relies on (decoding an encoding gives it back) is the predicate `Sound`.
- `Types.EncodeU32`/`EncodeU64`: big-endian layouts are written out. The bip44 index bound (2^31), `MAX_COIN` and the block-date order are stated in `Types` as the libraries define them.
- Key derivation (`get_private_key`), signing and `wallet_sign_tx` are cryptography and are not modelled. `get_address` is a function parameter of each engine.
- `WalletState.State` holds its lookup engine as a value of the `Engine` datatype. The sequential engine is therefore proved as a class, but inside a state it is updated through its step functions.
- The total's error payload is only `Err`. Map iteration order (the source's `BTreeMap`) does not matter to any modelled contract.
- In `update_wallet_state_with_utxos`, only a lookup failure is modelled, as a stop with a failure value (the source exits through `term.fail_with`). The terminal output, the progress bar and the display functions are not modelled.
- `create_wallet_state_from_logs` calls `from_logs` with a signature that does not match the one in `state.rs` (it passes `Result` items and expects a `FromLogsError`). It is modelled with the `state.rs` signature: read the log, then replay it.
- `Blockchain::load`, `Storage::init`, the configuration files, `init_genesis_data`, `load_genesis_data` and `destroy` are storage and file-system setup. The storage is a value with function fields.
- `peer.rs` is not part of this model. A peer's local tip is a function parameter, and adding a peer appends to the list.
- `remote_fetch`'s network sync, and `remote_ls`'s printing, file metadata and remote tip query, are I/O. Only the peer selection and the detail levels are modelled.
- `Time::now` and the clock are parameters. `humantime`'s `format_rfc3339` is a function parameter, and the duration's own `Display` (`format_duration`) is not modelled.
- `DirectoryName`'s `Deref` is the `name` field. On Windows an `OsString` is not bytes; the model uses the Unix byte form.
- TransactionCore.Transaction.RemoveOutput: requires that the index is not the number of outputs. The source panics there (`Vec::remove` past the end); `Apply` models this as the `Panicked` outcome.
- StagingTransactionCore.StagingTransaction.Append: requires that the operation does not panic when applied, as above.
- StagingTransactionCore.StagingTransaction.AddInput: requires the input not to be staged yet. The source asserts this (no double spend).
- StagingTransactionCore.StagingTransaction.AddChange: requires no change yet. The source asserts this.
- StagingTransactionCore.StagingTransaction.RemoveInput: requires the input to be staged. The source asserts this.
- StagingTransactionCore.StagingTransaction.RemoveOutput: requires the index to be in range. The source asserts this.
- StagingTransactionCore.StagingTransaction.RemoveOutputsFor: requires at most 2^32-1 outputs, so the source's `u32` index assertion cannot fire.
- StagingTransactionCore.StagingTransaction.Import: requires the imported inputs to spend distinct txins, because otherwise `add_input`'s assertion panics. The `new_with` panic on an existing staging file is not modelled: the id is assumed fresh.
- StagingTransactionCore.StagingTransaction.NewWith: does not model the assertion that the staging file does not exist yet.
- WalletLog.Deserialise: requires a known tag. The source panics on an unknown one; `Decode` reports it as `UnknownTag`.
- WalletState.State.FromLogs: requires that replay is not `Corrupted`: no spent fund for a UTxO not held, and no received fund for a txin already held. The source panics on both.
- WalletSync.CreateWalletStateFromLogs: requires no panic on load. Corrupted logs and an unknown tag panic in the source; `LoadSpec` reports them as `LoadPanics`.
- BlockIter.Iter.New: requires that `Range::new` and the date decoding do not panic on the opened block (the source unwraps them); `Open` reports these as `OpenPanics`.
- BlockIter.Iter.Next: requires that the step does not panic (the source unwraps the last known hash and the block decoding); `NextStep` reports these as `Panics`.
- Chain.Blockchain.IterToTip: requires the loaded tip not to panic (the source unwraps the tagged block), with the same condition as Iter.New.
- Chain.Blockchain.IterToTip: returns this model's `BlockIter.Iter`, the iterator of `blockchain/iter/mod.rs`. The source returns the storage library's own `storage::iter::Iter` (src/blockchain/mod.rs:253-267), and that library is not part of this model.
- Chain.Blockchain.Forward: requires that, without an explicit target, the loaded tip does not panic.
- WalletSync.UpdateWalletStateWithUtxos: assumes that `iter_to_tip`, the block iterator's items and every opening of and append to the wallet log succeed (src/wallet/utils.rs:43-44, 53-55, 66-67, 87-88). The blocks are a total function parameter and every entry is written. In the source each of these failures exits the process through `term.fail_with`.

## Findings

The model follows the code as written, including the two defects below: the classes, the step functions and the modules that use them behave as the source does. The corrected definitions, named `...Intended`, sit beside them, and only the lemmas about the intended behaviour use them.

| source | as written | input that shows it | evidently intended | confidence | as-written member | corrected member |
|---|---|---|---|---|---|---|
| src/wallet/state/lookup/sequentialindex.rs:92-104 | `limits` is a copy of the account's thresholds, so `limits[lidx] = new_threshold` is lost and every threshold stays 0; each trigger generates indices 20..39 again | a new engine with account 0 prepared, then finding external indices 1 and 21: no expected path reaches index 40 and the lookup of index 45 is `Ok(None)`, although 21 is in use and the gap limit is 20 | the new threshold is stored in the account, so that 20 addresses stay expected past every address found (BIP-44 "Address gap limit") | not executed | SequentialIndex.GapLimitExampleAsWritten | SequentialIndex.GapLimitExampleIntended |
| src/blockchain/iter/mod.rs:126-144 | `for block in self.iterator.next()` iterates over an `Option`, so the first call reads at most one block and the search for `starting_from` never happens | a packed `from` that is not the first block of its epoch, with `to == from`: the first call returns the epoch's first block, and `next` goes on past it | the first call reads blocks until it meets `starting_from` and returns that block, so that `Iter::new(from, from)` yields exactly one block | not executed | BlockIter.AsWrittenOverruns | BlockIter.SingleBlockRangeIntended |
