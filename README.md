# Chain sentry window and subscription genesis codec

This project models two sequential parts of the repository and proves properties of them in Dafny.

**The relayer's chain sentry** (`relayer/chainsentry/chainsentry.go`). It tracks the chain's tip (`latestBlockNum`) and a queue of block records (`blocksQueue`). The queue is meant to hold the `numFinalBlocks` (n, default 3) finalized blocks that sit `finalizedBlockDistance` (d, default 7) below the tip.

- `ChainSentry.ChainSentry` is a class with exactly those fields. It also has a ghost field `numbers`, which records the block number each queue entry was requested under.
- `Init`, `catchupOnFinalizedBlocks` and `GetLatestBlockData` are loop methods over that state.
- Each of these methods is proved against a pure specification over a `Snapshot` value: `InitSpec`, `CatchupSpec` and `LatestData`.
- The lemmas in `ChainSentryProps` state what those specifications do.
- The JSON-RPC chain proxy is an oracle, `Endpoint`. It holds the reply to the block-number query and a function from the `eth_getBlockByNumber` call to the block record it returns, or `None` on any failure.
- `log.Fatalln` is the `Fatal` outcome, and a Go slice panic is the `Panicked` outcome.

**The subscription module's genesis codec** (`x/subscription/types/genesis.pb.go`). This is generated Protocol Buffers code.

- `GenesisVarint` covers Base 128 varints (`encodeVarintGenesis`, `sovGenesis`), ZigZag (`sozGenesis`), the varint-reading loop that `Unmarshal` and `skipGenesis` repeat, and the error values.
- `GenesisSkip` covers `skipGenesis`, including group depth.
- `Genesis` covers `Size`, `Marshal`, `MarshalToSizedBuffer` (writing backward into an `array<byte>`) and `Unmarshal`.
- The nested messages (`Params`, the fixation and timer store genesis states, `Adjustment`) are carried as the bytes of their encoding. Under that reading:
  - their `Size` is the payload length;
  - their `MarshalToSizedBuffer` is a copy;
  - their `Unmarshal` merges by concatenation and may fail through an oracle `NestedCheck`.

Go's integer widths are written out where the code depends on them:
- `uint64` and `int64` readings (`ToInt64`);
- the `int32` cast of the field number (`Int32`);
- the `iNdEx < 0` and `postIndex < 0` checks, as a comparison against 2^63;
- `strconv.ParseInt` clamping.

The model follows the code as written, including where its own comments ask for something else (the TODO at relayer/chainsentry/chainsentry.go:133 asks for finalized blocks only, which the catch-up does not fetch):
- `Init` fetches n blocks (`tip-(d+n) .. tip-d-1`): the loop starts d+n below the tip but stops d+1 below it.
- A failed block fetch exits the process through `log.Fatalln` after the blocks fetched before it were appended; the model keeps those blocks in the `Fatal` state rather than restoring the old one.
- A failed tip read is only logged, and catch-up carries on with -1.

## Model

| member | source | states |
|---|---|---|
| ChainSentry.FetchLatestBlockNum | relayer/chainsentry/chainsentry.go:73-93 | a failed request gives -1 with an error; otherwise there is no error: an unparsable result gives 0, an in-range number is returned as is, and an out-of-range one is clamped to the int64 bounds |
| ChainSentry.FormatHexRoundTrip | relayer/chainsentry/chainsentry.go:95-97 | the `%x` text of any int64 (a minus sign, then the hex digits of the magnitude) reads back as the same number |
| ChainSentry.BlockRequestFormat | relayer/chainsentry/chainsentry.go:96-97 | for a block number that is not negative, the request parameter is "0x" followed by lower-case hex digits with no leading zero |
| ChainSentry.BlockRequestInjective | relayer/chainsentry/chainsentry.go:95-97 | two block numbers whose request messages are the same text are the same number |
| ChainSentry.FetchRunSpec | relayer/chainsentry/chainsentry.go:134-143 | the fetch loop gets the blocks in ascending order, entry k being the block fetched for lo+k, and it stops at the first failed fetch |
| ChainSentry.HashMapSpec | relayer/chainsentry/chainsentry.go:64-69 | the hash map has exactly the keys base .. base+count-1, and key base+i holds the hash of queue entry i |
| ChainSentry.DropOldest | relayer/chainsentry/chainsentry.go:174 | dropping k entries sets the new tip and shortens the queue and its numbers by exactly k |
| ChainSentry.ChainSentry.constructor | relayer/chainsentry/chainsentry.go:202-213 | a new sentry has n = 3, d = 7, tip 0 and an empty queue |
| ChainSentry.ChainSentry.GetLatestBlockNum | relayer/chainsentry/chainsentry.go:49-51 | returns the stored tip |
| ChainSentry.ChainSentry.SetLatestBlockNum | relayer/chainsentry/chainsentry.go:53-57 | stores the given tip and changes nothing else, so a following GetLatestBlockNum returns it |
| ChainSentry.ChainSentry.GetLatestBlockData | relayer/chainsentry/chainsentry.go:59-71 | equals LatestData of the state; it panics exactly when the queue has fewer than n entries; otherwise it returns the stored tip and a map whose keys are exactly tip-d-n .. tip-d-1, with key tip-d-n+i holding the hash of queue entry i |
| ChainSentry.ChainSentry.AppendRun | relayer/chainsentry/chainsentry.go:134-143 | the shared fetch loop appends the blocks for lo, lo+1, ... to the queue, each recorded under its own number, until count are fetched or one fails, and reports which happened |
| ChainSentry.ChainSentry.Init | relayer/chainsentry/chainsentry.go:121-147 | the new state and outcome are InitSpec of the old state, the tip reading and the chain's blocks |
| ChainSentry.ChainSentry.CatchupOnFinalizedBlocks | relayer/chainsentry/chainsentry.go:149-180 | the new state and outcome are CatchupSpec of the old state, the tip reading (-1 on failure) and the chain's blocks |
| ChainSentry.ChainSentry.CatchupFixed | relayer/chainsentry/chainsentry.go:149-180 | the corrected catch-up: the new state and outcome are CatchupFixedSpec of the old state, the tip reading and the chain's blocks |
| ChainSentryProps.AppendLabelled | relayer/chainsentry/chainsentry.go:162-170 | appending a fetch loop's blocks keeps every queue entry being the block the chain gives for the number it was requested under |
| ChainSentryProps.FetchRunComplete | relayer/chainsentry/chainsentry.go:134-143 | a fetch loop gets all the blocks it asked for if and only if no fetch in lo .. lo+count-1 fails |
| ChainSentryProps.DropLabelled | relayer/chainsentry/chainsentry.go:174 | dropping the oldest entries keeps the labels of the rest |
| ChainSentryProps.InitSpecEffect | relayer/chainsentry/chainsentry.go:121-147 | Init never panics. A failed tip read is fatal and changes nothing. Otherwise the tip is recorded and the old queue is a prefix of the new one. Init succeeds if and only if every block tip-(d+n) .. tip-d-1 is fetched; on success the queue has grown by exactly n and the numbers appended are tip-(d+n) .. tip-d-1 in ascending order |
| ChainSentryProps.InitEstablishesWindow | relayer/chainsentry/chainsentry.go:121-147 | from an empty queue, a successful Init leaves exactly the n-block window GetLatestBlockData reads, each entry the block of its own number |
| ChainSentryProps.LatestDataOfWindow | relayer/chainsentry/chainsentry.go:59-71 | for a window in place, GetLatestBlockData returns the stored tip and exactly the keys tip-d-n .. tip-d-1, each mapped to the hash of the block the chain gives for that number |
| ChainSentryProps.CatchupUnchanged | relayer/chainsentry/chainsentry.go:156 | a tip equal to the stored one leaves the queue and the tip as they were and succeeds |
| ChainSentryProps.CatchupRegressionPanics | relayer/chainsentry/chainsentry.go:156-174 | a tip below the stored one fetches nothing and panics at the slice with a negative index, leaving the state as it was |
| ChainSentryProps.CatchupTipFailurePanics | relayer/chainsentry/chainsentry.go:149-174 | a failed tip read is taken as -1, so with a stored tip that is not negative the catch-up panics |
| ChainSentryProps.CatchupAdvance | relayer/chainsentry/chainsentry.go:156-176 | for a tip that advanced by k, catch-up never panics. It succeeds if and only if every block prev+1 .. latest is fetched. Then the tip is recorded and the queue keeps its length: the new queue is the old queue followed by the k fetched blocks, less its first k entries, so the surviving old entries keep their order ahead of the new ones |
| ChainSentryProps.CatchupLabelled | relayer/chainsentry/chainsentry.go:162-174 | catch-up as written keeps every entry being the block of the number it was requested under |
| ChainSentryProps.NumberedHashesDiffer | relayer/chainsentry/chainsentry.go:95-97 | on the chain whose block hashes are their own request parameters, distinct numbers have distinct hashes |
| ChainSentryProps.CatchupMislabels | relayer/chainsentry/chainsentry.go:162-176 | from the window 90, 91, 92 of tip 100 (d = 7, n = 3), catch-up to 101 succeeds with numbers 91, 92, 101; the window is no longer in place, and GetLatestBlockData reports block 101's hash under key 93, which differs from block 93's hash |
| ChainSentryProps.NumberedChainMislabels | relayer/chainsentry/chainsentry.go:162-176 | there is a chain on which the catch-up as written breaks the window |
| ChainSentryProps.WindowShift | relayer/chainsentry/chainsentry.go:162-174 | appending the k numbers that follow a window and dropping the first k gives the window of the tip k higher |
| ChainSentryProps.CatchupFixedSafe | relayer/chainsentry/chainsentry.go:149-180 | the corrected catch-up never panics, never moves the tip back, keeps every entry labelled, and records the new tip when it succeeds after an advance; a failed tip reading or a tip that did not advance leaves the state exactly as it was and succeeds |
| ChainSentryProps.CatchupFixedKeepsWindow | relayer/chainsentry/chainsentry.go:149-180 | a successful corrected catch-up moves a window in place to the window of the new tip |
| ChainSentryProps.PollsAsWrittenPanics | relayer/chainsentry/chainsentry.go:182-200 | Start's poll loop with the catch-up as written panics, from any state with a non-negative tip, as soon as a tip reading fails, whatever replies follow |
| ChainSentryProps.PollsKeepWindow | relayer/chainsentry/chainsentry.go:182-200 | for any sequence of tip replies, repeated corrected catch-ups never panic, keep every entry labelled and, while none is fatal, keep the window in place |
| GenesisVarint.SovIsVarintLength | x/subscription/types/genesis.pb.go:270-272 | sovGenesis(x) is exactly the number of bytes encodeVarintGenesis writes for x |
| GenesisVarint.SovBounds | x/subscription/types/genesis.pb.go:270-272 | sovGenesis of a 64-bit value is between 1 and 10 |
| GenesisVarint.SovIsLeastGroupCount | x/subscription/types/genesis.pb.go:270-272 | sovGenesis(x) is the least number of 7-bit groups that holds x |
| GenesisVarint.VarintBytesShape | x/subscription/types/genesis.pb.go:234-244 | every varint byte but the last has the 0x80 bit set, the last has it clear, and the 7-bit groups, least significant first, read back as v |
| GenesisVarint.ZigZagSigned | x/subscription/types/genesis.pb.go:273-275 | the ZigZag map of sozGenesis sends a signed s to 2s when s >= 0 and to -2s-1 when s < 0 |
| GenesisVarint.ZigZagRoundTrip | x/subscription/types/genesis.pb.go:273-275 | the ZigZag map is undone by (v >> 1) ^ -(v & 1) |
| GenesisVarint.SozBounds | x/subscription/types/genesis.pb.go:273-275 | sozGenesis is between 1 and 10 and is the varint length of the ZigZag image |
| GenesisVarint.EncodeVarint | x/subscription/types/genesis.pb.go:234-244 | writes the varint of v into the sovGenesis(v) bytes that end just before offset, returns the index of the first, and leaves every other byte alone |
| GenesisVarint.ReadVarintFrom | x/subscription/types/genesis.pb.go:282-295 | a varint read that succeeds stops past its start and within the input |
| GenesisVarint.DecodeVarint | x/subscription/types/genesis.pb.go:282-295 | the reading loop computes ReadVarint |
| GenesisVarint.ReadVarintOfBytes | x/subscription/types/genesis.pb.go:282-295 | reading the bytes of a varint at any shift that leaves room for them adds v shifted left by that many bits to the accumulator, modulo 2^64 |
| GenesisVarint.VarintRoundTrip | x/subscription/types/genesis.pb.go:282-295 | reading the bytes encodeVarintGenesis wrote for v gives back v and the index just past them |
| GenesisVarint.VarintOverflow | x/subscription/types/genesis.pb.go:282-285 | ten continuation bytes in a row fail with ErrIntOverflowGenesis |
| GenesisVarint.VarintTruncated | x/subscription/types/genesis.pb.go:282-288 | input that ends inside a varint's first ten bytes fails with io.ErrUnexpectedEOF |
| GenesisSkip.SkipVarintFrom | x/subscription/types/genesis.pb.go:547-559 | a varint that is skipped successfully ends past its start and within the input |
| GenesisSkip.SkipStep | x/subscription/types/genesis.pb.go:546-593 | a wire-type step never moves the index back |
| GenesisSkip.SkipFrom | x/subscription/types/genesis.pb.go:529-601 | a successful skip ends past where it started |
| GenesisSkip.SkipVarint | x/subscription/types/genesis.pb.go:547-559 | the wire-type-0 loop computes SkipVarintFrom |
| GenesisSkip.SkipGenesis | x/subscription/types/genesis.pb.go:525-602 | the skip loop with its index and depth computes SkipFrom |
| GenesisSkip.SkipVarintAgrees | x/subscription/types/genesis.pb.go:547-559 | the wire-type-0 loop stops where the value-reading loop stops and fails in the same way |
| GenesisSkip.SkipTurn | x/subscription/types/genesis.pb.go:529-600 | one turn of the outer loop: after the tag and its case are read, it returns at depth 0 or carries on from the new index and depth |
| GenesisSkip.SkipOneField | x/subscription/types/genesis.pb.go:525-602 | over the bytes of any well-formed field (varint, 8 bytes, length-delimited, group to any depth, 4 bytes), skipping stops just past the field at depth 0 and otherwise carries on from there at the same depth |
| GenesisSkip.SkipGroupField | x/subscription/types/genesis.pb.go:582-588 | a group is skipped by opening a level at its start tag, skipping its body, and closing the level at its end tag |
| GenesisSkip.SkipFields | x/subscription/types/genesis.pb.go:529-600 | inside a group, skipping moves past a run of complete fields |
| GenesisSkip.GroupEnter | x/subscription/types/genesis.pb.go:582-583 | a start-group tag raises the depth by one |
| GenesisSkip.GroupLeave | x/subscription/types/genesis.pb.go:584-599 | an end-group tag lowers the depth, and at the outermost level skipping stops there |
| GenesisSkip.SkipGenesisSkipsField | x/subscription/types/genesis.pb.go:525-602 | skipGenesis on a complete field, followed by anything, returns that field's length |
| GenesisSkip.SkipEndGroupAtTopLevel | x/subscription/types/genesis.pb.go:584-587 | an end-group tag with no open group fails with ErrUnexpectedEndOfGroupGenesis |
| GenesisSkip.SkipIllegalWireType | x/subscription/types/genesis.pb.go:591-592 | wire types 6 and 7 fail as illegal wire types |
| GenesisSkip.SkipUnterminatedGroup | x/subscription/types/genesis.pb.go:582-601 | a start-group tag followed by any run of complete fields and no end-group tag of its own fails with io.ErrUnexpectedEOF |
| GenesisSkip.SkipOpenGroupToEnd | x/subscription/types/genesis.pb.go:582-601 | from a start-group tag at any index and depth whose body of complete fields runs to the end of the input, skipping fails with io.ErrUnexpectedEOF |
| Genesis.AdjustmentChunks | x/subscription/types/genesis.pb.go:167-180 | one field-6 entry per adjustment, in the adjustments' order |
| Genesis.FieldOrder | x/subscription/types/genesis.pb.go:167-230 | although it is written backward, the encoding has keys 0x0a, 0x12, 0x1a, 0x22 and 0x2a, then one 0x32 per adjustment with the adjustments in their own order; field numbers never decrease |
| Genesis.SizeSumIsLength | x/subscription/types/genesis.pb.go:245-268 | the sum of 1 + l + sov(l) over the fields is the length of their encoding |
| Genesis.SingularSize | x/subscription/types/genesis.pb.go:251-260 | the five singular fields contribute 1 + l + sov(l) each |
| Genesis.Size | x/subscription/types/genesis.pb.go:245-268 | Size is the sum of 1 + l + sov(l) over the fields, summed in a loop over the adjustments, and equals the length of the encoding |
| Genesis.MarshalPayload | x/subscription/types/genesis.pb.go:182-186 | a nested MarshalToSizedBuffer writes its payload so that it ends at i, returns its length, and leaves every other byte alone |
| Genesis.PutChunk | x/subscription/types/genesis.pb.go:181-190 | one field written backward (payload, length varint, key) occupies exactly its encoding's bytes, ending at i |
| Genesis.PutField | x/subscription/types/genesis.pb.go:181-190 | one field written in front of the bytes already in the buffer's tail puts its encoding before them and leaves the bytes before it alone |
| Genesis.EncodeLayout | x/subscription/types/genesis.pb.go:162-232 | the encoding is fields 1 to 5, each in front of the rest, then the adjustments |
| Genesis.PutAdjustments | x/subscription/types/genesis.pb.go:167-180 | the loop over the adjustments, last to first, leaves their field-6 encodings in order at the end of the buffer and the bytes before them alone |
| Genesis.MarshalToSizedBuffer | x/subscription/types/genesis.pb.go:162-232 | returns the length of the encoding, leaves the encoding in the buffer's tail, and leaves the bytes before it untouched |
| Genesis.Marshal | x/subscription/types/genesis.pb.go:147-155 | returns exactly the Size() bytes of the encoding |
| Genesis.FieldTurn | x/subscription/types/genesis.pb.go:279-516 | a turn of Unmarshal's loop that goes on moves the index forward and stays within the input |
| Genesis.UnmarshalField | x/subscription/types/genesis.pb.go:280-516 | the body of Unmarshal's loop computes FieldTurn |
| Genesis.Unmarshal | x/subscription/types/genesis.pb.go:276-523 | the loop computes UnmarshalFrom from index 0: the merged state and the error, if any |
| Genesis.ChunkTurn | x/subscription/types/genesis.pb.go:305-337 | a field Marshal wrote, accepted by its nested Unmarshal, is read in one turn and merged |
| Genesis.ChunkReads | x/subscription/types/genesis.pb.go:282-324 | the key and length varints of a field Marshal wrote read back as the key and the payload length, ending where the payload starts |
| Genesis.KnownFieldTurn | x/subscription/types/genesis.pb.go:305-337 | a field 1 to 6 with wire type 2 and an in-range length is merged, and the index moves to postIndex |
| Genesis.KeyFields | x/subscription/types/genesis.pb.go:296-297 | a key byte 8*field + 2 reads back as that field number and wire type 2 |
| Genesis.DecodeChunks | x/subscription/types/genesis.pb.go:279-516 | a sequence of fields Marshal wrote is read back and merged in order with no error |
| Genesis.MergeAdjustments | x/subscription/types/genesis.pb.go:470-503 | repeated field 6 appends the decoded adjustments in order |
| Genesis.MergeChunksOfState | x/subscription/types/genesis.pb.go:305-503 | merging the fields of m into m0 concatenates each singular field's bytes and appends m's adjustments |
| Genesis.UnmarshalMergesEncoding | x/subscription/types/genesis.pb.go:276-523 | Unmarshal into m0 of Marshal's encoding of m merges m into m0, with no error |
| Genesis.RoundTrip | x/subscription/types/genesis.pb.go:276-523 | Unmarshal into an empty state of Marshal's encoding of m gives back m, with no error |
| Genesis.UnknownFieldTurn | x/subscription/types/genesis.pb.go:504-516 | a complete field whose number is above 6 is skipped with skipGenesis and leaves the state as it was |
| Genesis.UnknownFieldSkipped | x/subscription/types/genesis.pb.go:505-506 | skipGenesis, applied to the input from an unknown field's tag on, returns exactly that field's length |
| Genesis.UnknownFieldIgnored | x/subscription/types/genesis.pb.go:504-516 | skipping an unknown field changes nothing about what Unmarshal does with the rest |
| Genesis.EndGroupRejected | x/subscription/types/genesis.pb.go:298-300 | an end-group tag is rejected and the state is unchanged |
| Genesis.IllegalTagRejected | x/subscription/types/genesis.pb.go:296-303 | a field number that is 0 or negative after the int32 cast is an illegal tag |
| Genesis.WrongWireTypeRejected | x/subscription/types/genesis.pb.go:305-308 | fields 1 to 6 with a wire type other than 2 are rejected with their field and wire type |
| Genesis.NegativeLengthRejected | x/subscription/types/genesis.pb.go:324-326 | a length that is negative as a Go int fails with ErrInvalidLengthGenesis |
| Genesis.LengthPastEndRejected | x/subscription/types/genesis.pb.go:327-333 | a length reaching past the input fails with io.ErrUnexpectedEOF, or with ErrInvalidLengthGenesis when postIndex is not a valid int |
| Genesis.TruncatedTagRejected | x/subscription/types/genesis.pb.go:282-288 | a tag that runs off the end of the input fails with io.ErrUnexpectedEOF |
| Genesis.OverlongTagRejected | x/subscription/types/genesis.pb.go:282-285 | a tag of ten continuation bytes fails with ErrIntOverflowGenesis |
| Genesis.NestedErrorReturned | x/subscription/types/genesis.pb.go:499-502 | a nested Unmarshal's error is returned; for field 6 the empty Adjustment appended before decoding stays in the list, and other fields leave the state unchanged |
| Genesis.FieldNumberWraps | x/subscription/types/genesis.pb.go:296 | the field number is cut to 32 bits, so a tag 2^35 above a known key is read as that known field |

## Left out

- `Start` (the five-second ticker goroutine and its quit channel) is not modelled, because its point is concurrency and timing. Its loop is `ChainSentryProps.PollsAsWritten`, a sequence of catch-ups as written; `ChainSentryProps.Polls` is the same loop running the corrected catch-up instead.
- The mutex and the atomic loads and stores are modelled as plain sequential field access.
- The JSON-RPC transport (`ParseMsg`, `Send`, `json.Unmarshal`, `strconv.Unquote`/`ParseInt`) is an oracle. The tip is given as a `BlockNumberReply`: failed, unparsable, or a number. Blocks come from a function from the call to an optional block record.
- The block call is the `eth_getBlockByNumber` call the proxy parses from the message text, carrying the block number. The text itself is `Message`, and `BlockRequestInjective` ties the two together.
- A fetched block record is modelled as a map of strings. Only its `"hash"` entry is read, and a missing entry reads as Go's nil.
- `log.Printf` output and `ChainID` are not modelled; they have no effect on the state.
- ChainSentry.ChainSentry.Init: does not model int64 wrap-around of the block-number arithmetic (`tip - (d+n)` and the like); it matters for tips within d+n of the int64 minimum, which the model computes without wrapping.
- ChainSentry.ChainSentry.CatchupOnFinalizedBlocks: does not model int64 wrap-around at either end of the range. Near the maximum, `prevLatestBlock + 1` and `latestBlock - prevLatestBlock` overflow, and a tip of MaxInt64 (which an out-of-range reply gives, since the ParseInt error is ignored) makes the loop `i <= latestBlock; i++` at chainsentry.go:162 never end, while the model's catch-up ends (`Ok` when every fetch succeeds). CatchupSpec, PollsAsWritten, CatchupFixed and GetLatestBlockData's keys are unbounded in the same way.
- The nested messages (`Params`, the fixation and timer store genesis states, `Adjustment`) are kept abstract as the bytes of their encoding. Their own validation is the `NestedCheck` oracle, and the partial state a failing nested Unmarshal leaves inside itself is not modelled.
- Genesis.Size: the `m == nil` case (size 0) is not modelled, because a state value is never nil.
- Genesis.MarshalToSizedBuffer: requires a buffer at least as long as the encoding, and GenesisVarint.EncodeVarint requires room before its offset; Go's index-out-of-range panic on a smaller buffer is not modelled, because Marshal, their only caller here, sizes the buffer with Size.
- `MarshalTo`, and the protobuf reflection and registration code (the descriptor blob, `Descriptor`, the `XXX_*` methods, `RegisterType`), are calls into libraries that are not shown.
- `x/plans/module.go` is module registration and wiring over libraries that are not shown. It is not part of this model.

## Findings

| source | as written | input that shows it | evidently intended | confidence | as-written member | corrected member |
|---|---|---|---|---|---|---|
| relayer/chainsentry/chainsentry.go:162-176 | catch-up appends the tip blocks prev+1 .. latest, but GetLatestBlockData labels queue entries as the finalized blocks tip-d-n .. tip-d-1 | d = 7, n = 3, window 90, 91, 92 at tip 100, new tip 101: the queue becomes blocks 91, 92, 101, and key 93 reports block 101's hash | fetch the finalized blocks prev-d .. latest-d-1, so that the window moves with the tip | not executed | ChainSentryProps.CatchupMislabels | ChainSentryProps.CatchupFixedKeepsWindow |
| relayer/chainsentry/chainsentry.go:149-174 | a failed tip read is only logged, and catch-up goes on with a tip of -1; a tip below the stored one slices the queue with a negative index and panics | a stored tip 100 and a failed eth_blockNumber request | a failed read, or a tip that moved back, leaves the sentry as it is | not executed | ChainSentryProps.CatchupTipFailurePanics | ChainSentryProps.CatchupFixedSafe |
