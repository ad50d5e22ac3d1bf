# Verified model of the Solana block fetchers

This project models, in Dafny, the parts of firehose-solana that decide which blocks are emitted
and what is in them, and proves properties of that model:

- **The Bigtable reader** (`block/fetcher/bigtable.go`). `Read` scans the `blocks` table from a start
  slot, hands each block to a callback, and starts over from the last boundary when a scan fails. The
  model is a class whose methods are the row callback, one `ReadRows` call, one iteration of the retry
  loop and the whole read; each is proved equal to a state machine on values (`ReadSpec`), and the
  theorems are about every run of that machine.
- **The transaction error codec** (`block/fetcher/error.go`). Constructors turn a dynamically typed
  JSON value into an error tree; encoders write the tree as little-endian bytes. The model adds a
  printer and a decoder and proves all the round trips.
- **The RPC fetcher** (`block/fetcher/rpc.go`). It tracks confirmed and finalized slots over calls,
  retries `getBlock`, derives each block's last irreversible number, and converts transactions.
- **The upgrader** (`cmd/firesol/upgrader.go`). It rewrites a stored block's parent number and sorts
  its rewards, and is compared with what the fetcher does.

The main results:

- `BigtableReads.ReadIsOneCleanScan`: over an append-only table, whatever its rows contain and
  wherever rounds are cut short, the blocks emitted are a prefix of what one uninterrupted scan
  emits, each slot once, in increasing order; after a clean round they are all of it.
- `BigtableReads.BoundedReadMissesNothingIffLinked`: a bounded read that returns nil is complete if
  and only if the wanted rows decode and are linked by hash.
- `ReadSafety.ChainSafety`: with arbitrary rows in every round, what is emitted is always a chain.
- `ReadSafety.ReadReturns`: exactly when a read returns nil, either error, or panics.
- `ErrorBytes.CustomErrorBytes` and its neighbours: from the JSON a node sends to the bytes, written out.
- `SlotSync.SyncOutcome` and `FetchRuns.CallOutcome`: how a sync and a call end, from the answers alone.
- `TransactionErrors.ParserIsExact`, `ErrorEncoding.SelfDelimiting`, `ErrorEncoding.EncodingIsInjective`
  and `ErrorEncoding.JsonRoundTrip`: the accepted grammar, and what survives each way.
- `ReadTheorems.ReconnectingNeverHelps`: no number of reconnects gets past a row that does not link.
- `SlotAvailability.SlotStaysAvailableIff`: exactly which calls leave a fetched slot available.
- `FetchRuns.FinalityNeverGoesBackwards`: emitted last irreversible numbers never decrease.
- `Upgrader.TwoPathsOneOrder`: a fetched and an upgraded block list the same lamports.

## How the environment is modelled

- The table answers each round with a `Round`: rows, and whether the scan then breaks. A callback that
  asks for no more rows ends `ReadRows` without an error; `bigtable.go:122-128` relies on that.
- `processBlock` is a function of the blocks handed over so far; decoding a row's bytes is a function
  that returns a block, an error or a panic.
- The node answers `getSlot` and `getBlock` from scripts that are part of each call. `WithClients` tries
  the clients in order until one gets through. A failed slot query still assigns a number to the
  fetcher's field; only the finality theorem assumes that number is 0.
- `slices.SortFunc` is any function that orders a slice by lamports, and marshalling a block is a
  predicate that says for which blocks it succeeds; the fetcher and the upgrader are given both.
- Loops that the source never leaves are observed for as long as their script lasts; the results
  `Running`, `Retrying` and `Pending` are runs still going on.
- JSON numbers are reals, converted by dropping the fraction; a conversion out of range has the outcome
  `Unspecified`, about which nothing is claimed. Go strings are byte sequences shorter than 2^63.

## Where the code differs from its comments, or from what a reader may expect

The model follows the code.

- `bigtable.go:98-99` says that an unlinkable row should cause a reconnect. With a stop block it does
  not: the read returns nil without the rest. It connects again exactly when there is no stop
  (`ReadSafety.UnlinkableRowReconnectsIffUnbounded`, with a witness in
  `ReadTheorems.UnlinkableRowEndsBoundedRead`).
- `error.go:223-231` takes a duplicate instruction's index only as a Go byte, which JSON never gives:
  every such report panics (`TransactionErrors.DuplicateInstructionPanics`).
- A null `InstructionError` builds a nil pointer inside a non-nil interface, so `error.go:246` does not
  catch it and encoding panics (`Conversion.OnlyNullInstructionErrorPanics`).
- The panic message at `rpc.go:414` says 256; the test refuses indices above 255.
- A failed query overwrites the confirmed slot (`rpc.go:73`), so a slot whose block was returned can be
  reported unavailable again: `SlotAvailability.SlotStaysAvailableIff` says exactly when, and
  `SlotAvailability.FailedQueryLosesSlots` is a case.
- At the confirmed tip, `getBlock` answering -32004 is retried without end, since the bound it is
  compared with is not refreshed (`FetchRuns.UnavailableTipIsRetried`).

## Model

| member | source | states |
|---|---|---|
| RowKeys.KeyRoundTrip | block/fetcher/bigtable.go:191 | the `%016x` key of any 64-bit slot parses back to that slot |
| RowKeys.SameLengthOrder | block/fetcher/bigtable.go:71 | on lower-case hexadecimal texts of one length, byte order is numeric order and equality is numeric equality |
| RowKeys.KeyOrder | block/fetcher/bigtable.go:71 | keys compare as their slots do, so the range from one slot's key holds exactly the keys of the slots from it on |
| RowKeys.UnpaddedKeyIsMisplaced | block/fetcher/bigtable.go:80-86 | an unpadded key can fall in the range of a higher slot, which is what the guard is for |
| RowKeys.KeyParsesIff | block/fetcher/bigtable.go:191 | which texts are keys: one hexadecimal digit or more, of either case, after at most one sign |
| RowKeys.SignIsIgnored | block/fetcher/bigtable.go:191-231 | a sign changes nothing, as the magnitude's bits are taken |
| RowKeys.CaseIsIgnored | block/fetcher/bigtable.go:191 | digits of either case have the same value |
| RowKeys.LowDigitsCount | block/fetcher/bigtable.go:231 | of a longer key the last sixteen digits give the slot |
| BlockRows.TweakReplacesOnlyGenesis | block/fetcher/bigtable.go:233-260 | the tweak changes only the parent hash, only from the all-ones hash of a known block, and is idempotent |
| BlockRows.TweakReplacesGenesis | block/fetcher/bigtable.go:233-260 | and every known block with the all-ones parent hash does get its real parent |
| BlockRows.KnownParents | block/fetcher/bigtable.go:233-260 | the five blocks, no others, and their parents |
| BlockRows.ProcessRowOutcome | block/fetcher/bigtable.go:182-262 | from the first cell's key, column and value: when a row panics, when it fails, and every field of the block it otherwise gives |
| BlockRows.KnownRowTypes | block/fetcher/bigtable.go:185-190 | a column with anything before "proto" is protobuf, one that ends in "bin" is for the decoder |
| BlockRows.SlotComesFromKey | block/fetcher/bigtable.go:191-231 | a decoded block's slot is the one its row key was printed from, whatever its content says |
| BlockReader.ReadSession.OnRow | block/fetcher/bigtable.go:72-120 | the callback leaves the captured variables, and asks for more rows or not, as the state machine says |
| BlockReader.ReadSession.ReadRows | block/fetcher/bigtable.go:71-120 | one scan delivers rows until the callback stops it, the rows end or the scan breaks |
| BlockReader.ReadSession.Conclude | block/fetcher/bigtable.go:122-144 | what follows a scan: count a failure, return, or go round again |
| BlockReader.ReadSession.OneRound | block/fetcher/bigtable.go:61-146 | one iteration of the retry loop, with the result if `Read` returns there |
| BlockReader.ReadSession.Read | block/fetcher/bigtable.go:44-148 | the whole read is the run of the state machine on the same answers |
| ReadSafety.RowOutcome | block/fetcher/bigtable.go:72-120 | which rows hand over a block (the first at or above the start, or one that links), and which end the scan, from what they hold |
| ReadSafety.LowRowsArePassedOver | block/fetcher/bigtable.go:80-88 | before the first block, rows below the start are passed over, however many |
| ReadSafety.OneRoundEnds | block/fetcher/bigtable.go:71-144 | when a round ends cleanly, broken or in a panic, and when another follows |
| ReadSafety.ReadReturns | block/fetcher/bigtable.go:122-147 | nil is returned exactly after a clean last round with a stop and no fatal error; a fatal error exactly after a clean last round with one; the attempts error exactly at the bound; a panic exactly after a panicking round |
| ReadSafety.ChainSafety | block/fetcher/bigtable.go:62-119 | for arbitrary rows in every round: emitted blocks are linked by hash without repeats, start at or above the start, only the newest can be above the stop, and `seenStartBlock` holds exactly when `lastSeenBlock` is set |
| ReadSafety.FatalErrorIsFinal | block/fetcher/bigtable.go:108-136 | every block but the newest was accepted; a refused block is the last one shown, and the read returns that failure exactly then |
| ReadSafety.UnreadableRowIsFinal | block/fetcher/bigtable.go:74-78 | a row that does not decode ends the read with that failure, whatever rows and rounds would follow |
| ReadSafety.CrashingRowIsFinal | block/fetcher/bigtable.go:72-74 | a row on which `ProcessRow` panics ends the read in that panic, with nothing more counted or handed over |
| ReadSafety.UnlinkableRowReconnectsIffUnbounded | block/fetcher/bigtable.go:97-146 | in every reachable state, at any row that decodes but does not link, the reader keeps what it has and starts another round if and only if it has no stop; with a stop it returns nil |
| ReadSafety.BoundedRetries | block/fetcher/bigtable.go:122-129 | at most max(1, maxConnAttempt) rounds fail, and the attempts error is returned exactly on that many |
| ReadSafety.BoundedReadTerminates | block/fetcher/bigtable.go:122-144 | a bounded read is over after at most max(1, maxConnAttempt) rounds, all but the last of them failed |
| ReadOrder.EmittedSlotsIncrease | block/fetcher/bigtable.go:62-106 | emitted slots strictly increase across reconnects when scans are in slot order and a slot keeps its hash |
| ReadOnce.RescanFromRow | block/fetcher/bigtable.go:62-72 | a scan restarted at a row of an earlier scan is the rest of that scan from this row on |
| ReadOnce.ScanNeverGoesBelowStart | block/fetcher/bigtable.go:80-86 | on canonical rows the guard for blocks below the start never fires |
| ReadOnce.ReplayFromLast | block/fetcher/bigtable.go:90-106 | a round that begins again at the last boundary drops what was seen and continues the clean pass where it was |
| ReadOnce.RunReplays | block/fetcher/bigtable.go:61-147 | the state after any run is that of one clean pass over some first rows; over all of them if the last round was clean |
| ReadTheorems.ExactlyOnce | block/fetcher/bigtable.go:61-147 | emitted blocks are a prefix of the clean scan's, each slot once, for every table content and pattern of failures |
| ReadTheorems.CleanRoundCatchesUp | block/fetcher/bigtable.go:61-147 | after a clean round the run's whole state is the clean scan's of the table as it then stood |
| ReadTheorems.ReconnectingNeverHelps | block/fetcher/bigtable.go:97-106 | over an append-only table no run emits anything beyond a row that does not link, however often it reconnects; after a clean round it has emitted exactly what precedes that row |
| ReadTheorems.CompleteIffLinked | block/fetcher/bigtable.go:90-117 | a read that has not failed for good and whose last round was clean has emitted exactly the wanted rows if and only if those decode and are linked |
| ReadTheorems.BoundedReadComplete | block/fetcher/bigtable.go:115-144 | a bounded read that returns nil has emitted everything up to the first row above the stop if and only if those rows decode and are linked, with no other condition on callback or table content |
| ReadTheorems.UnlinkedBlocksOccur | block/fetcher/bigtable.go:195-262 | rows whose keys are slots 1 and 2 can decode to two blocks that are not linked |
| ReadTheorems.UnlinkableRowEndsBoundedRead | block/fetcher/bigtable.go:97-106 | the witness: two unlinked rows on which a bounded read returns nil after one round without the second |
| KeyTables.ServedByKeyIsServedBySlot | block/fetcher/bigtable.go:71-72 | a table kept, ordered and scanned by key meets every assumption stated by slot |
| BigtableReads.ReadIsOneCleanScan | block/fetcher/bigtable.go:44-148 | the exactly-once and catch-up results, in terms of the table's keys |
| BigtableReads.BoundedReadMissesNothingIffLinked | block/fetcher/bigtable.go:115-144 | completeness of bounded reads, both ways, in terms of the table's keys |
| BigtableReads.SlotsIncreaseAcrossReconnects | block/fetcher/bigtable.go:62-106 | strictly increasing emitted slots, in terms of the table's keys |
| BigtableReads.ReadTable | block/fetcher/bigtable.go:33-148 | a reader built and run on such a table: what it handed over is a chain, increasing, a prefix of the clean scan, all of it after a clean round, and complete after nil exactly when linked |
| ErrorNames.TableIsBijection | block/fetcher/error.go:107 | in a table of distinct names, looking up a name and reading a code's name undo each other |
| ErrorNames.TrxNamesDistinct | block/fetcher/error.go:56-94 | the 37 transaction error names are distinct |
| ErrorNames.InstructionNamesDistinct | block/fetcher/error.go:315-370 | the 54 instruction error names are distinct |
| TransactionErrors.TrxTable | block/fetcher/error.go:17-94 | the transaction error names and the codes 0..36 correspond one to one |
| TransactionErrors.IxTable | block/fetcher/error.go:259-370 | the instruction error names and the codes 0..53 correspond one to one |
| TransactionErrors.TruncDropsFraction | block/fetcher/error.go:389 | a number becomes the whole number next to it on the side of zero |
| TransactionErrors.IxDetailIsExact | block/fetcher/error.go:390-423 | the second part of an instruction error is accepted exactly when it spells a code with a detail that fits it |
| TransactionErrors.DetailIsExact | block/fetcher/error.go:132-143 | a detail is built exactly when the value spells it and the code calls for it |
| TransactionErrors.ParserIsExact | block/fetcher/error.go:101-153 | the constructors return a tree exactly on the values that spell it |
| TransactionErrors.ShapeDecidesPanic | block/fetcher/error.go:101-231 | panics depend on a value's shape only; numbers alone decide whether a conversion is out of range |
| TransactionErrors.PanicDomain | block/fetcher/error.go:101-231 | a value panics exactly when no choice of its numbers spells a tree, and overflows a conversion exactly when some choice does but its own numbers do not |
| TransactionErrors.PrintParses | block/fetcher/error.go:101-153 | every tree of the stated form is what the constructors make of its printed JSON |
| TransactionErrors.ParsePrints | block/fetcher/error.go:101-231 | printing a parsed value gives it back exactly when it has no fractions and no ignored keys |
| TransactionErrors.DuplicateInstructionPanics | block/fetcher/error.go:223-231 | no JSON value can report a duplicate instruction with its index |
| ErrorCodes.TrxCodesFrom0 | block/fetcher/error.go:17-64 | the names of transaction errors 0 to 7, written out, have these codes |
| ErrorCodes.TrxCodesFrom8 | block/fetcher/error.go:25-72 | the names of transaction errors 8 to 15, written out, have these codes |
| ErrorCodes.TrxCodesFrom16 | block/fetcher/error.go:33-80 | the names of transaction errors 16 to 23, written out, have these codes |
| ErrorCodes.TrxCodesFrom24 | block/fetcher/error.go:41-88 | the names of transaction errors 24 to 31, written out, have these codes |
| ErrorCodes.TrxCodesFrom32 | block/fetcher/error.go:49-93 | the names of transaction errors 32 to 36, written out, have these codes |
| ErrorCodes.InstructionCodesFrom0 | block/fetcher/error.go:259-323 | the names of instruction errors 0 to 7, written out, have these codes |
| ErrorCodes.InstructionCodesFrom8 | block/fetcher/error.go:267-331 | the names of instruction errors 8 to 15, written out, have these codes |
| ErrorCodes.InstructionCodesFrom16 | block/fetcher/error.go:275-339 | the names of instruction errors 16 to 23, written out, have these codes |
| ErrorCodes.InstructionCodesFrom24 | block/fetcher/error.go:283-347 | the names of instruction errors 24 to 31, written out, have these codes |
| ErrorCodes.InstructionCodesFrom32 | block/fetcher/error.go:291-355 | the names of instruction errors 32 to 39, written out, have these codes |
| ErrorCodes.InstructionCodesFrom40 | block/fetcher/error.go:299-363 | the names of instruction errors 40 to 47, written out, have these codes |
| ErrorCodes.InstructionCodesFrom48 | block/fetcher/error.go:307-369 | the names of instruction errors 48 to 53, written out, have these codes |
| ErrorCodes.PlainError | block/fetcher/error.go:106-111 | a name alone gives the error of its code |
| ErrorCodes.InstructionError | block/fetcher/error.go:376-396 | `{"InstructionError": [index, name]}` gives code 8 around the name's code |
| ErrorCodes.CustomError | block/fetcher/error.go:398-457 | `{"Custom": n}` gives code 25 with n, inside code 8, for every index and n |
| ErrorCodes.BorshError | block/fetcher/error.go:398-477 | `{"BorshIoError": message}` gives code 44 with the message, inside code 8 |
| ErrorCodes.RentError | block/fetcher/error.go:204-222 | `{"InsufficientFundsForRent": {"account_index": i}}` gives code 31 with i |
| ErrorCodes.RestrictedError | block/fetcher/error.go:183-201 | `{"ProgramExecutionTemporarilyRestricted": {"account_index": i}}` gives code 35 with i |
| ErrorCodes.DuplicateError | block/fetcher/error.go:223-231 | `{"DuplicateInstruction": i}` gives code 30 with i, for a Go byte i |
| ErrorEncoding.Encoder.WriteString | block/fetcher/error.go:487-498 | eight bytes of length, then the text, stopping at the first failed write |
| ErrorEncoding.Encoder.EncodeIxDetail | block/fetcher/error.go:459-485 | the bytes written for a custom code or a Borsh message |
| ErrorEncoding.Encoder.EncodeInstructionError | block/fetcher/error.go:425-442 | index, code and detail in turn, stopping at the first failed write |
| ErrorEncoding.Encoder.EncodeTransactionError | block/fetcher/error.go:241-254 | what is written, and whether it ends well, with a write error, or in a panic on a nil instruction error |
| ErrorEncoding.WriteAllAppends | block/fetcher/error.go:241-254 | a writer that fails after n writes has received exactly the first n pieces of the encoding |
| ErrorEncoding.EncodesInMemory | block/fetcher/rpc.go:442-451 | on an in-memory buffer the encoding always succeeds and is the specified bytes |
| ErrorEncoding.WholeMessageReadsBack | block/fetcher/error.go:241-254 | every encodable tree, bare or with its detail, is decoded from its whole encoding |
| ErrorEncoding.SelfDelimiting | block/fetcher/error.go:241-254 | decoding returns a tree and a rest exactly when the tree is canonical and the input is its encoding followed by that rest |
| ErrorEncoding.PrefixFree | block/fetcher/error.go:241-254 | no canonical encoding is a proper prefix of another |
| ErrorEncoding.EncodingIsInjective | block/fetcher/error.go:241-254 | distinct encodable trees, canonical or not, have distinct encodings |
| ErrorEncoding.EncodingLength | block/fetcher/error.go:425-498 | encodings are 4, 5, 9, 13 or 17 plus the message's length bytes long |
| ErrorEncoding.JsonRoundTrip | block/fetcher/error.go:101-254 | parse, encode, decode and print give back the tree always, and the same JSON exactly when it was written without loss |
| ErrorEncoding.KnownEncodings | block/fetcher/rpc_test.go:29-55 | the byte strings expected for transaction errors with and without an index |
| ErrorEncoding.KnownInstructionEncodings | block/fetcher/rpc_test.go:112-135 | the byte strings expected for instruction errors |
| ErrorEncoding.KnownCustomEncodings | block/fetcher/rpc_test.go:70-97 | the byte strings expected for custom codes 42 and 0 |
| ErrorEncoding.KnownBorshEncoding | block/fetcher/rpc_test.go:56-69 | the byte string expected for the Borsh message "error.1" |
| Rewards.SortIsOrderedPermutation | block/fetcher/rpc.go:543-545 | insertion sort yields a permutation in ascending order of lamports |
| Rewards.InsertionIsSort | block/fetcher/rpc.go:543-545 | so functions of the kind the model asks of the library exist |
| Rewards.OneOrder | block/fetcher/rpc.go:543-545 | any two ordered arrangements of the same rewards list the same lamports |
| Rewards.SortingIsOneOrder | block/fetcher/rpc.go:543-545 | any two sorts of the same rewards list the same lamports, whatever they do with equal ones |
| Rewards.SortFunc | block/fetcher/rpc.go:543-545 | the slice is rearranged in place as the library's sort, any sort, has it |
| Rewards.ToPBReward | block/fetcher/rpc.go:533-548 | the loop and the sort compute the conversion for any sort, or panic on an unsupported type |
| Rewards.RewardComesBack | block/fetcher/rpc.go:533-563 | a reward of a supported type is recovered from its converted form, any other type panics |
| Rewards.ToPBRewardIsOrderedConversion | block/fetcher/rpc.go:533-563 | the result exists exactly when every type is supported; it is ordered by lamports and every input reward can be recovered from it, one for one |
| Conversion.NarrowAccounts | block/fetcher/rpc.go:411-417 | account indices become bytes in order, or the call panics |
| Conversion.ToPbInstructions | block/fetcher/rpc.go:473-490 | the nested loops convert each instruction in order |
| Conversion.CompileInner | block/fetcher/rpc.go:408-427 | the nested loops convert each inner instruction in order |
| Conversion.ToPbInnerInstructions | block/fetcher/rpc.go:397-406 | each group of inner instructions is converted in order |
| Conversion.CopySlices | block/fetcher/rpc.go:506-513 | keys, like signatures and addresses, are copied in order and in full |
| Conversion.ToPbLookups | block/fetcher/rpc.go:492-504 | each lookup is converted in order, its key copied |
| Conversion.ToPbTokenBalances | block/fetcher/rpc.go:355-379 | each token balance is converted in order, an absent owner and the system program as empty texts |
| Conversion.TokenBalanceComesBack | block/fetcher/rpc.go:355-395 | a token balance is recovered but for an absent UI amount, which becomes zero; exactly, if and only if none is absent |
| Conversion.EncodeError | block/fetcher/rpc.go:437-452 | an error value becomes its encoding, nothing for null, or a panic |
| Conversion.ConvertTransaction | block/fetcher/rpc.go:454-471 | a transaction and its message are converted part by part |
| Conversion.ToPbTransactionMeta | block/fetcher/rpc.go:287-314 | metadata is converted, failing on its first failing part in the order the code visits them |
| Conversion.ConvertTransactions | block/fetcher/rpc.go:270-285 | the list is converted in order up to its first failure |
| Conversion.InstructionComesBack | block/fetcher/rpc.go:408-435 | an instruction is recovered from its converted form; an inner one with its stack height |
| Conversion.InnerComesBack | block/fetcher/rpc.go:397-427 | a group of inner instructions is recovered exactly |
| Conversion.TransactionComesBack | block/fetcher/rpc.go:454-531 | signatures, header, keys, blockhash, instructions and lookups are recovered from a converted transaction |
| Conversion.ErrorComesBack | block/fetcher/rpc.go:437-452 | the converted bytes decode to the tree the error value stands for, and print as that value exactly when it was written without loss |
| Conversion.MetaComesBack | block/fetcher/rpc.go:287-314 | every field of the metadata, token balances included, is recovered from its converted form, but for the order of rewards and for absent UI amounts |
| Conversion.OnlyNullInstructionErrorPanics | block/fetcher/rpc.go:437-452 | of the accepted error values exactly the null instruction error makes the conversion panic |
| Conversion.InstructionPanics | block/fetcher/rpc.go:411-417 | converting an instruction panics exactly when some account index exceeds 255 |
| Conversion.TransactionPanics | block/fetcher/rpc.go:454-490 | converting a transaction succeeds exactly when no account index exceeds 255, and panics otherwise |
| Conversion.InnerPanics | block/fetcher/rpc.go:397-427 | the same for a group of inner instructions |
| Conversion.ErrorConvertsIff | block/fetcher/rpc.go:437-452 | an error value converts exactly when it is null or spells a tree other than a null instruction error |
| ErrorBytes.PlainErrorBytes | block/fetcher/rpc.go:437-452 | from a name alone to the four bytes of its code |
| ErrorBytes.InstructionErrorBytes | block/fetcher/rpc.go:437-452 | from an instruction error with a name alone to its bytes |
| ErrorBytes.CustomErrorBytes | block/fetcher/rpc.go:437-452 | from the JSON of any custom error to 8, the index, 25 and the code, little-endian |
| ErrorBytes.BorshErrorBytes | block/fetcher/rpc.go:437-452 | from the JSON of any Borsh error to 8, the index, 44, the length in eight bytes and the message |
| ErrorBytes.RentErrorBytes | block/fetcher/rpc.go:437-452 | from the JSON to 31 and the account |
| ErrorBytes.RestrictedErrorBytes | block/fetcher/rpc.go:437-452 | from the JSON to 35 and the account |
| Conversion.MetaConvertsIff | block/fetcher/rpc.go:287-314 | metadata converts exactly when its return data, account indices, error and reward types all do |
| Conversion.TransactionsConvertIff | block/fetcher/rpc.go:270-285 | the list converts exactly when every transaction decodes, has no account index above 255, and has metadata that converts |
| Conversion.TransactionsComeBack | block/fetcher/rpc.go:270-285 | the converted list matches the transactions one for one and in order, and each can be recovered with its metadata |
| ConversionFailures.MetaFails | block/fetcher/rpc.go:287-314 | metadata gives an error exactly for return data that does not decode, first of all; otherwise it panics, or leaves the specified numbers, on the first of indices, error and rewards |
| ConversionFailures.TransactionFails | block/fetcher/rpc.go:270-285 | a transaction fails as its metadata does, and panics where that converts |
| ConversionFailures.FirstFailureDecides | block/fetcher/rpc.go:270-285 | the list fails as its first transaction that does not convert |
| ConversionFailures.TransactionsErrIff | block/fetcher/rpc.go:270-285 | the list gives an error exactly when that one has return data that does not decode |
| ConversionFailures.StackHeightIsAbsentIffZero | block/fetcher/rpc.go:429-435 | a stack height of zero, and no other, is left out |
| ConversionFailures.SystemProgramIsLeftOut | block/fetcher/rpc.go:355-379 | the system program's id, and no other, is written as empty; the mint always is written; the owner is empty exactly when absent |
| ConversionFailures.NoMetaIsEmpty | block/fetcher/rpc.go:287-290 | a transaction without metadata gets metadata with nothing set |
| SlotTracker.RPCFetcher.SyncWithClient | block/fetcher/rpc.go:69-95 | one client's turn: poll the confirmed slot, then ask for the finalized one |
| SlotTracker.RPCFetcher.SyncSlots | block/fetcher/rpc.go:69-99 | clients in turn until one gets through |
| SlotTracker.RPCFetcher.FetchLoop | block/fetcher/rpc.go:125-167 | the retry loop computes what its specification says of the same responses |
| SlotTracker.RPCFetcher.BuildBlock | block/fetcher/rpc.go:169-226 | the emitted block, from the result and the tracked finalized slot, or the error when it does not marshal |
| SlotTracker.RPCFetcher.FetchSlot | block/fetcher/rpc.go:62-123 | a whole call, on the tracker it found |
| SlotSync.SyncOutcome | block/fetcher/rpc.go:69-99 | how a sync ends, from the answers alone: it fails exactly when as many of those asked for fail as there are clients, and otherwise gets through with the last number of each |
| SlotSync.SyncUsesFreshFinalized | block/fetcher/rpc.go:85-92 | a finalized slot below the requested one is asked for anew: the first answer that does not fail, or reaches the slot, is used; one that is high enough is kept |
| SlotSync.SyncUsesFirstConfirmed | block/fetcher/rpc.go:71-83 | a confirmed slot below the requested one becomes the first answer that reaches it |
| FetchRuns.FetchStopsAtFirstTerminal | block/fetcher/rpc.go:125-167 | the loop returns the meaning of the first terminal response, and goes on exactly while there is none |
| FetchRuns.UnavailableTipIsRetried | block/fetcher/rpc.go:145-153 | at the confirmed tip, "block not available" is retried for as long as it is given |
| FetchRuns.SyncFailsOnlyAfterEveryClient | block/fetcher/rpc.go:69-99 | a sync fails only when each client has failed a query, and asks nothing when both tracked slots reach the requested one |
| FetchRuns.BuiltBlockCarries | block/fetcher/rpc.go:169-226 | ids, parent, time, height, transactions and rewards of the result are all in the built block, the parent hash patched if need be |
| FetchRuns.BlockBuildsIff | block/fetcher/rpc.go:169-226 | a block is built exactly when every transaction converts, every reward type is supported and the payload marshals; the error is returned where only marshalling fails |
| FetchRuns.BlockFailsIff | block/fetcher/rpc.go:169-211 | building gives an error exactly when the first transaction that does not convert has unreadable return data, or all convert and the payload does not marshal |
| FetchRuns.BlockIsEmittedIff | block/fetcher/rpc.go:62-123 | a call returns a block exactly when the sync gets through and the first response that settles the slot holds a block that builds |
| FetchRuns.CallOutcome | block/fetcher/rpc.go:62-123 | how a call ends in every case: the hole 13334464 to 13334475, a failed or waiting sync, and each response that settles the slot |
| FetchRuns.CallSkipsIff | block/fetcher/rpc.go:62-153 | a call skips exactly in the hole, or when the response that settles the slot is an RPC error |
| FetchRuns.EmittedLibNumIsFresh | block/fetcher/rpc.go:85-174 | a block's irreversible number comes from a finalized slot asked for in the same call, unless the one held was high enough |
| FetchRuns.EmittedBlockContract | block/fetcher/rpc.go:97-122 | a returned block has the requested number, a confirmed slot at or above it, the irreversible number the code derives (at most itself and the finalized slot, given a parent below it), and carries the first response that settled the slot |
| SlotAvailability.EmittedSlotIsAvailable | block/fetcher/rpc.go:57-60 | after a block is returned, every slot up to it is reported available |
| SlotAvailability.AvailableIff | block/fetcher/rpc.go:57-60 | a slot is reported available exactly when it is not above the confirmed one |
| SlotAvailability.CallKeepsSlotIff | block/fetcher/rpc.go:57-99 | a call that returns makes an available slot unavailable exactly when it has to ask about the confirmed slot, is never told one as high as the requested slot, and the failed query of its last client leaves a number below the available slot |
| SlotAvailability.SlotStaysAvailableIff | block/fetcher/rpc.go:57-99 | over a run, an available slot is still available after every call exactly when no call ends in such a failure |
| SlotAvailability.EmittedSlotStaysAvailable | block/fetcher/rpc.go:57-123 | the same of a returned block's slot; in particular it stays available if no failed query leaves a number below it |
| SlotAvailability.FailedQueryLosesSlots | block/fetcher/rpc.go:73-75 | one failed query that leaves 0 makes every slot above 0 unavailable, and has it reported so |
| FetchRuns.SyncHolds | block/fetcher/rpc.go:69-95 | failed queries included, a synced tracker's finalized slot is never below one used before |
| FetchRuns.FinalityNeverGoesBackwards | block/fetcher/rpc.go:62-174 | over any run of calls at increasing slots, skips and failures included, emitted last irreversible numbers never decrease |
| Upgrader.TweakBlock | cmd/firesol/upgrader.go:76-96 | the stored block is updated in place; left alone when its payload cannot be read; and with only the parent number assigned when it does not marshal again |
| Upgrader.TweakOrdersRewards | cmd/firesol/upgrader.go:76-96 | the parent number is the payload's, rewards are the same ones ordered by lamports, the rest is unchanged; a failed upgrade leaves the payload alone |
| Upgrader.UpgradedIff | cmd/firesol/upgrader.go:76-96 | a block is upgraded exactly when its payload is legible and marshals once its rewards are sorted, and then holds the sorted rewards |
| Upgrader.TweakTwice | cmd/firesol/upgrader.go:83-87 | a second tweak changes neither the parent number nor the order of lamports |
| Upgrader.TwoPathsOneOrder | cmd/firesol/upgrader.go:76-96 | a fetched block and an upgraded block with the same rewards agree on parent number, lamports and total, whatever each sorts with |
| Upgrader.FetchedBlockIsUpgraded | block/fetcher/rpc.go:194-222 | the upgrader leaves a fetched block's parent number and lamports as they are |

## Left out

- Bigtable, the Solana RPC and `WithClients` themselves: they are the environment described above.
- Sleeping, timers, logging, `progressLog`, commands and flags: no state that matters.
- Decompression, the external decoder, the protobuf encoding, base58 and base64: row decoding and return data are given in decoded form or as failing.
- The contents of `blockToPatch`: an arbitrary map.
- The algorithm behind `slices.SortFunc`, and which of two rewards with equal lamports it puts first.
- Reward commissions, dropped by the source, and the UI amounts' floating-point form: they are reals here.
- Top-level stack heights: `toPbInstructions` has no field for them, and the recovered transaction has zero there.
- Concurrent `Fetch` calls: the poller is not part of this model; runs are sequential.
- FetchRuns.FinalityNeverGoesBackwards: assumes that a failed slot query leaves 0 and that the node's finalized answers do not decrease, as the fetcher cannot tell otherwise.
- TransactionErrors.ParserIsExact: nothing is said of the tree built when a number is out of its target's range, which Go leaves to the platform.
