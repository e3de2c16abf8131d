# onelog, modelled and verified

onelog is a structured logger. Entries are formatted as JSON or logfmt, thinned out by samplers, queued in an
asynchronous ring buffer and written to a file that rotates. This project models those parts in Dafny 4.11 and
proves what they promise; where the code does not keep a promise, it proves exactly when it does and gives the
input on which it does not.

- **The ring, step by step** (`AsyncProtocol`, `AsyncSafety`, `AsyncProof`, `AsyncTheorems`, `AsyncLocks`,
  `AsyncBounds`, `AsyncOrder`, `AsyncPlacement`, `AsyncFifo`, `AsyncRefusals`, `AsyncStarvation`, `AsyncAdmission`, and
  the runs of `AsyncScenario`, `AsyncLateStore`, `AsyncGrowthLoss` and `AsyncDisorder`): any number of `write` calls, the
  flushing worker and any number of `maybeResize` goroutines interleave; every load, compare-and-swap, slot access,
  lock operation and field store is one step. Index safety, at-most-once delivery, absence of lock cycles and deadlock,
  and the exact conditions for lossless FIFO delivery hold over all runs.
- **The ring as an object** (`AsyncBuffer`), one operation at a time, refining a FIFO queue whose entries are settled
  as delivered or discarded (`AsyncQueue`).
- **The encoders** (`Escaping`, `Joining`, `Base64`, `LogfmtText`, `LogfmtFormatter`, `JsonText`, `JsonFormatter`) with
  parsers that invert them (`LogfmtParser`, `JsonParser`, `JsonReading`), and the framing of a stream of records
  (`LineBreaks`, `Framing`).
- **The samplers** (`Sampling`, `AdaptiveSampling`), counted exactly over unbounded runs.
- **Rotation and cleanup** (`Rotation`, `Cleanup`) over an abstract directory in which every operation may fail.

Code that changes state in place is a class with those fields, or a method with the source's loop, proved against a
function; the properties are proved of that function. Pure mathematics on powers of two is in `Bits`.

Results that say the code does less than one would expect:

- A `write` that has claimed an index but not stored its entry can be overtaken by a `flush`, which skips the empty
  slot (`AsyncLateStore.AcceptedEntryLost`). A store on the fast path can also land in the old buffer while
  `maybeResize` replaces it (`AsyncGrowthLoss.StoredEntryLost`). `AsyncFifo.FifoExactly` proves that these are the only
  two ways: with a sink that does not fail, all claimed entries are delivered in claim order if and only if neither
  happens.
- An entry the sink refused stays in its slot, and an early flush of a later index can deliver it after all, out of
  order (`AsyncDisorder.RefusedEntryDelivered`). Under three conditions on the run deliveries keep the claim order even
  then (`AsyncRefusals.DeliveriesAscend`), and none of the three can be dropped (`AsyncDisorder`). One of its runs shows
  that a store by the old mask also overwrites a pending entry that was stored in time.
- A writer that retries under the read lock while a growth waits for that lock keeps the flush out, so its entry is
  refused however healthy the sink is; `AsyncAdmission.AdmittedExactly` says in exactly which states that is so.
- `writeEscapedStringOptimized`, which the JSON formatter uses, leaves control bytes other than the five named ones
  raw (`JsonParser.ControlByteBreaksRecord`), NaN and infinite floats are written, and option strings and rendered
  times are not escaped at all (`JsonParser.OpenOptionAddsMember`). `JsonReading.ReadsBackExactly` proves, for every
  input, that a record reads back if and only if none of this happens in it. `LogfmtParser.RoundTrip` does the same for
  logfmt, where a time format with a space in it makes records unreadable once quoting is off
  (`LogfmtParser.SpacedTimeBreaksRecord`).
- `roundUpPowerOfTwo` stops smearing after 31 places: `Bits.RoundUpExact` says for which sizes it is right, and
  2^32 + 1 is not one of them.
- Two rotations in one second overwrite the first rotated file; `Rotation.RunKeepsEverything` says exactly when no
  byte is lost. After a failed rotation every later write fails until `Close` (`Rotation.DeadWritesFail`).
- `NewAdaptiveSampler` does not check BaseRate <= MaxRate, which is exactly what keeps the rate between the two
  (`AdaptiveSampling.RateBounds`).

## Model

| member | source | states |
|---|---|---|
| Bits.MaskIsMod | async.go:77 | `i & (size-1)` is `i % size` for every index and every power of two |
| Bits.SlotInjective | async.go:127 | two indices less than the ring's size apart never share a slot |
| Bits.PowerTest | async.go:62 | `n & (n-1) == 0` recognises exactly the powers of two among positive n |
| Bits.RoundUpExact | async.go:97-106 | the smearing gives the least power of two at least n, below 2n, if and only if n-1 has no 32 zero bits in a row below its highest set bit |
| Bits.RoundUpPowerOfTwo | async.go:97-106 | the five in-place steps, on signed integers, compute that number; it is the least power of two for every size from 1 to 2^32, and 0 for every size from 0 down to just above -2^31 |
| Bits.RoundUpFailsAbove | async.go:97-106 | for 2^32 + 1 the result is not the least power of two |
| AsyncProof.StepKeepsInv | async.go:109-371 | every single step of any thread keeps the indices, locks and entries consistent |
| AsyncTheorems.ReachedInv | async.go:109-371 | so every interleaving from a fresh ring does |
| AsyncTheorems.AtMostOnce | async.go:346-362 | in every reachable state no entry was written to the sink twice, ring and sink together hold it at most once except between a successful write and the clearing of its slot, and only accepted entries reach the sink, however the sink fails |
| AsyncTheorems.IndexSafety | async.go:111-132 | in every reachable state readIndex <= writeIndex <= readIndex + size, the size is a power of two, the mask fits the buffer and is size-1 outside the last stores of a growth, and the utilization lies in 0..100, despite stale loads |
| AsyncTheorems.ClaimsUnique | async.go:119 | every index below the write index was won by exactly one call, and a call about to store at it is that one |
| AsyncTheorems.RunExtends | async.go:244-277 | sizes never shrink, indices never fall back, no claim or delivery is undone |
| AsyncTheorems.AttemptsAccountedFor | async.go:141-180 | the write index counts the accepted calls and the drop count the refused ones, over the fast and the retry path; with no call under way they add up to all calls |
| AsyncBounds.FlushTakesAtMost100 | async.go:323-332 | in every reachable state a flush that has loaded the write index settles on all that is pending, or the first 100 of it, and no step moves the read index further |
| AsyncBounds.SizeBound | async.go:245-249 | over every run no growth goes past 2^20 slots |
| AsyncBounds.ThresholdStopsGrowth | async.go:135-140 | a threshold of 100 keeps the ring from ever growing, since no utilization, however stale the loads, is over it |
| AsyncBounds.LoneCallStores | async.go:134-140 | a call alone stores the used slots in whole percent and starts a growth exactly if that is over the threshold and resizing is on |
| AsyncBounds.GrowthGoesOn | async.go:239-249 | a growth with its lock goes on exactly if the utilization is still over the threshold and twice the size is at most 2^20 |
| AsyncBounds.GrowthStarts | async.go:229-236 | a spawned growth asks for the lock exactly if the utilization it finds is over the threshold |
| AsyncLocks.WaitLowersRank | async.go:235-271 | whoever waits for a lock has a higher rank than every owner that keeps it waiting |
| AsyncLocks.NoWaitCycle | async.go:310-343 | no chain of lock waits, of any length, in any reachable state returns to its start, although flush locks shards in cyclic order |
| AsyncLocks.NoDeadlock | async.go:158-159 | in every reachable state, from any thread with work left, a chain of lock waits leads to a thread that can take a step |
| AsyncLateStore.AcceptedEntryLost | async.go:349-370 | a possible run in which both calls succeed, the sink never fails and nothing is pending, but the first entry was never delivered |
| AsyncPlacement.TimelyFinds | async.go:346-351 | on a ring whose entries are in place a take after the store finds its entry, and as long as the sink refused nothing no other take does |
| AsyncPlacement.StepKeepsPlaced | async.go:244-277 | every step that is neither an early take nor a store that misses a growth keeps each stored entry in the slot of its own index, through every stage of a growth |
| AsyncFifo.CarelessStoreLoses | async.go:256-276 | a store that misses a growth leaves its entry in no place a flush will look for it |
| AsyncFifo.RunStaysLost | async.go:264-276 | no later growth, store or flush ever brings it back |
| AsyncFifo.FifoExactly | async.go:256-277 | for every run with a sink that does not fail, growth included: once every claimed index was taken, the deliveries are exactly the claimed entries in claim order if and only if every store came before the flush that took its index and no store missed a growth; under these two conditions no prefix of the run is out of order either and every stored entry is in its slot |
| AsyncFifo.FixedSizeFifo | async.go:135-137 | with dynamic resizing off the first condition alone decides |
| AsyncRefusals.DeliveriesAscend | async.go:353-370 | however the sink fails, if no flush takes an index before its store, no store misses a growth and no refusal gives up an index before its store, the deliveries are a subsequence of the claims |
| AsyncDisorder.RefusedEntryDelivered | async.go:348-361 | the first condition is needed: a possible run that keeps to the other two delivers entry 2 and then the refused entry 1 |
| AsyncDisorder.CarelessStoreDisorders | async.go:272-277 | the second is needed: with a sink that never fails and takes after their stores, a store by the old mask overwrites a pending entry and the flush delivers entry 2 before entry 1 |
| AsyncDisorder.EarlyRefusalDisorders | async.go:353-370 | the third is needed: a call stores after a refusal has given up its index, over a newer entry, and the next flush delivers it out of order |
| AsyncStarvation.StarvedWaits | async.go:158-159 | with a writer retrying under the read lock and a growth behind it, the growth waits for the writer and the flush, at the lock, for the growth |
| AsyncStarvation.StarvedEntryRefused | async.go:158-190 | from any reachable state with a full ring, a retrying writer, a growth at the lock and no flush between its lock and its index store: over every continuation the entry is never accepted; until it is refused nothing is claimed, read or delivered |
| AsyncStarvation.StarvationHappens | async.go:235 | such a state is reachable |
| AsyncAdmission.FlushMakesRoom | async.go:309-371 | in every other state with a full ring the flush can run on, over shards that calls hold, until it has made room, and the writer stands where it stood |
| AsyncAdmission.AdmittedExactly | async.go:158-213 | for every reachable state and every writer that retries: some continuation gets its entry in if and only if it has not given up (nor seen a full ring in drop mode) and the state is not such a one |
| AsyncGrowthLoss.StoredEntryLost | async.go:264-276 | a possible run in which every take comes after its store and the sink never fails, but an accepted entry is lost because it was stored in the old buffer after the copy |
| AsyncQueue.FlushDeliversPrefix | async.go:323-370 | a flush hands the sink a prefix of a batch of at most 100 entries and discards the rest of that batch |
| AsyncQueue.RunConserves | async.go:109-214 | over any run, with other writers coming by while one sleeps, accepted entries are the settled ones followed by the pending ones in write order, and attempts are accepted entries plus counted drops |
| AsyncQueue.Conservation | async.go:309-371 | from a fresh ring, accepted = delivered + discarded + pending as multisets, and deliveries are a subsequence of what was accepted |
| AsyncQueue.RunIsFifo | async.go:109-371 | if the sink does not fail, delivered followed by pending is exactly what was accepted, in order; growing changes nothing |
| AsyncQueue.BlockedWriterOutcome | async.go:161-213 | a write gets its entry in exactly if at one of its looks, of which only block mode has more than one, the ring has room |
| AsyncQueue.LoneWriterOutcome | async.go:168-190 | with no other writer about, exactly if there is room already or, in block mode, a flush happens before it gives up |
| AsyncQueue.CrowdedOut | async.go:161-213 | with another writer about a flush is not enough: it can take the room first |
| AsyncQueue.SlotlessRefusesAll | async.go:62-78 | a ring built with a size that is not positive accepts nothing and counts every attempt as a drop |
| AsyncQueue.FlushesDrain | async.go:323-370 | n flushes deliver exactly the first 100·n pending entries |
| AsyncQueue.DrainBound | async.go:297-300 | n flushes empty the ring if and only if at most 100·n entries were pending; the single flush on stop, if and only if at most 100 were |
| AsyncQueue.GrowthExactly | async.go:229-277 | a growth changes the capacity exactly if the last stored utilization is over the threshold and twice the capacity is at most 2^20; then it doubles it |
| AsyncQueue.GrowthFollowsWrite | async.go:134-138 | it goes by how full the write that got in last left the ring, in whole percent, no matter how many flushes have emptied it since |
| AsyncQueue.GrowthMakesRoom | async.go:229-277 | with a threshold below 100, a growth after the write that fills a ring of at most 2^19 slots makes room; at or below the threshold nothing grows |
| AsyncQueue.CapacityBound | async.go:245-249 | over any run the capacity never falls and is past 2^20 only if it was to begin with |
| AsyncBuffer.AsyncBuffer.constructor | async.go:60-94 | the ring is empty; its size is the least power of two at least a positive requested size, and 0 otherwise |
| AsyncBuffer.AsyncBuffer.Place | async.go:124-127 | the copy goes to a slot no pending entry has |
| AsyncBuffer.AsyncBuffer.Push | async.go:120-132 | the pending queue grows by a private copy of the caller's bytes, and the utilization is recorded |
| AsyncBuffer.AsyncBuffer.Write | async.go:109-149 | queue, drop count and result are those of the abstract retry loop; a growth is started exactly if the fast path leaves the ring fuller than the threshold and resizing is on |
| AsyncBuffer.AsyncBuffer.WriteWithRetry | async.go:152-214 | the same for the slow path with its at most 100 sleeps, in each of which flushes and other writers may come by |
| AsyncBuffer.AsyncBuffer.Sleep | async.go:182-189 | what happens during one sleep does to the queue what the abstract events do |
| AsyncBuffer.AsyncBuffer.Flush | async.go:309-371 | the abstract flush happens: the sink has a prefix of the batch, the batch has left the queue |
| AsyncBuffer.AsyncBuffer.DeliverBatch | async.go:346-362 | the batch loop appends to the sink exactly the entries before the first refused one and leaves the rest of the window alone |
| AsyncBuffer.AsyncBuffer.MaybeResize | async.go:227-277 | the size changes if and only if the utilization is over the threshold and twice the size is at most 1048576, and then doubles; every pending entry stays, in order |
| AsyncBuffer.AsyncBuffer.CopyWindow | async.go:252-266 | re-indexing by the new mask puts every pending entry in its own slot |
| AsyncBuffer.AsyncBuffer.Close | async.go:280-301 | one last flush; nothing is left if and only if at most 100 entries were pending |
| AsyncBuffer.ReuseSlice | async.go:125-127 | overwriting the caller's slice after a write changes nothing in the ring |
| Escaping.ChunkThenEscape | formatter_logfmt.go:246-255 | copying an untouched chunk and then one escape is escaping byte by byte |
| Escaping.WriteChunk | utils.go:139-147 | the chunk-copying step writes exactly that |
| Escaping.WriteRest | utils.go:187-191 | and the copy of the rest completes it |
| Joining.JoinCons | formatter_logfmt.go:135-137 | tokens written left to right with a separator before each but the first read from the left as token, separator, rest |
| Base64.RoundTrip | utils.go:275-303 | a strict RFC 4648 section 4 decoder gives every byte sequence back from its encoding |
| Base64.DecodesExactly | utils.go:275-303 | that decoder accepts nothing else: a text decodes to a byte sequence if and only if it is its encoding |
| Base64.EncodedLength | utils.go:270-272 | the encoding is exactly base64EncodedLen long |
| Base64.QuantumIsNumber | utils.go:277-282 | the four symbols are the base-64 digits, in the alphabet of RFC 4648, of the number that three bytes are |
| Base64.PaddedIsNumber | utils.go:286-303 | one or two bytes are padded as if zeros followed, with '=' for their symbols |
| Base64.EncodeInto | utils.go:275-303 | the loop with its shifts, masks and two tails appends exactly the encoding |
| Base64.SextetsAreQuantum | utils.go:278-281 | the four shift-and-mask expressions are the four sextets of three bytes |
| LogfmtText.WriteEscaped | formatter_logfmt.go:245-279 | the loop appends the byte-by-byte escape |
| LogfmtText.UnescapeEscape | formatter_logfmt.go:245-279 | unescaping an escaped string gives it back, whatever its bytes |
| LogfmtText.EscapeSealed | formatter_logfmt.go:249-255 | an escaped string has no unescaped space, equals sign, quote or newline and no open backslash |
| LogfmtText.EscapeHasNoNewline | formatter_logfmt.go:256-261 | an escaped string holds no raw newline |
| LogfmtText.EscapedLength | formatter_logfmt.go:245-279 | exactly the quotes, backslashes, spaces, equals signs, newlines, returns and tabs are escaped, by one backslash each, and no line break or tab is left raw |
| LogfmtText.EscapeLetters | formatter_logfmt.go:249-274 | the bytes behind the backslash |
| Records.LessIsLexicographic | formatter_logfmt.go:121-125 | the order of the keys: a proper prefix, or smaller at the first difference |
| Records.LessIsTotal | formatter_logfmt.go:121-125 | of two different keys exactly one comes first |
| Records.LevelNames | level.go:33-41 | the names of the levels |
| Records.DefaultTexts | formatter.go:55-77 | the texts the default options set, and the words for values without digits |
| Records.TruncatedExactly | formatter_json.go:166-176 | a string longer than a positive limit keeps that many bytes, and three dots behind them; any other is left |
| LogfmtFormatter.WriteValue | formatter_logfmt.go:158-242 | every kind of value is written as the record says: redacted, quoted, cut before it is escaped, or null |
| LogfmtFormatter.Format | formatter_logfmt.go:52-155 | the entry's fields are left in sorted order and the bytes are those of the record |
| LogfmtFormatter.DefaultRecord | formatter_logfmt.go:52-155 | the exact bytes of a record under the default options |
| LogfmtParser.ValueReads | formatter_logfmt.go:158-242 | whatever follows, a written value that fits is read as its text; only texts written without escaping can fail to fit |
| LogfmtParser.KeyMisread | formatter_logfmt.go:60-85 | a key that does not fit, or what its line leaves of it, is never read as what it stands for |
| LogfmtParser.Lag | formatter_logfmt.go:196-206 | reading a text with escapes lags behind the text and never catches up before an open backslash, so what is read on from there is never the text |
| LogfmtParser.FieldTells | formatter_logfmt.go:139-144 | a field's token is read as its converted key and value text if and only if it fits, whatever follows and wherever the line ends |
| LogfmtParser.DefaultOptionsArePlain | formatter.go:56-80 | the default option strings need no escaping |
| LogfmtParser.PlainOptionsMeanThemselves | formatter_logfmt.go:60-85 | option strings that need no escaping are read as themselves |
| LogfmtParser.RoundTrip | formatter_logfmt.go:52-155 | for every option string, rendered time, message, caller and field: the record parses to the header pairs and then the sorted permutation of the fields if and only if each text written without escaping fits its place |
| LogfmtParser.SpacedTimeBreaksRecord | formatter_logfmt.go:60-72 | with quoting off, a time with a space in it makes every record unreadable |
| LogfmtParser.SpacedTimeFits | formatter_logfmt.go:60-72 | with quoting on it fits and reads back as it is |
| JsonText.UnescapeFullEscape | utils.go:69-130 | an RFC 8259 section 7 reader gives every byte string back from what appendEscapedString writes |
| JsonText.FullEscapeIsSafe | utils.go:93-121 | that output has no raw control byte and no unescaped quote |
| JsonText.UnescapeEscape | utils.go:135-193 | what writeEscapedStringOptimized writes reads back as the string if its only control bytes are the five named ones, and is refused otherwise |
| JsonText.EscapeReadsBack | utils.go:23-32 | the same by number: exactly if every byte is at least 32 or one of 8, 9, 10, 12 and 13 |
| JsonText.EscapedLength | utils.go:138-184 | exactly quotes, backslashes and those five are escaped, by one backslash each |
| JsonText.EscapeLetters | utils.go:148-176 | the bytes behind the backslash, as section 7 of RFC 8259 gives them |
| JsonText.ControlEscape | utils.go:114-119 | appendEscapedString writes any other control byte as u00 and two lower-case hexadecimal digits |
| JsonText.EscapersAgree | utils.go:24-32 | the two escapers agree on a string if and only if its only control bytes are the five named ones |
| JsonText.EscapeIsSealed | utils.go:140-180 | the optimized escaper leaves no unescaped quote and no raw newline |
| JsonText.WriteEscaped | utils.go:135-193 | its loop appends the byte-by-byte escape |
| JsonText.StringNeedsEscaping | utils.go:196-204 | the scan answers yes exactly if escaping would change the string |
| JsonText.WriteFullEscape | utils.go:89-129 | the loop of appendEscapedString appends the full escape |
| JsonText.Cache.Ask | utils.go:74-82 | the answer is right whatever the cache holds, and only strings of at most 64 bytes are added |
| JsonText.AppendEscaped | utils.go:69-130 | the same bytes come out for every cache state |
| JsonFormatter.WriteComma | formatter_json.go:76-78 | with the flag telling whether a member was written, a comma goes exactly between members |
| JsonFormatter.WriteValue | formatter_json.go:143-223 | every kind of value is written as the record says, binary data as base64 |
| JsonFormatter.WriteString | formatter_json.go:165-173 | a long string is cut and dotted before it is escaped |
| JsonFormatter.WriteCaller | formatter_json.go:99-106 | the caller becomes a nested object of file, line and function |
| JsonFormatter.Format | formatter_json.go:47-140 | the bytes are those of the record |
| JsonFormatter.DefaultRecord | formatter_json.go:47-140 | the exact bytes of a record under the default options |
| JsonParser.TextEncodes | formatter_json.go:88-90 | whatever follows it, a written text parses to the text if it has no control bytes but the five named ones and is refused otherwise |
| JsonParser.OrdinaryTextEncodes | formatter_json.go:88-90 | a text of printable bytes, backspaces, tabs, newlines, form feeds and returns is read back |
| JsonParser.FloatEncodes | formatter_json.go:163-164 | a finite float parses as a number of RFC 8259 section 6; NaN and the infinities are refused |
| JsonParser.ValueEncodes | formatter_json.go:143-223 | a written value that ends where it should parses to its JSON value exactly if it is clean |
| JsonParser.MembersParse | formatter_json.go:111-127 | a comma-joined list parses to all its members in order, or is refused if one is unclean |
| JsonParser.CallerEncodes | formatter_json.go:94-108 | the caller parses to a nested object with the same condition |
| JsonParser.PlainOptionsMeanThemselves | formatter_json.go:59-72 | option strings that need no escaping make JSON strings and are read as themselves |
| JsonParser.RoundTrip | formatter_json.go:47-140 | a record whose unescaped option strings and rendered times hold no bare quote parses to exactly the expected members in order if every text has only named control bytes, every float is finite and those strings are JSON; otherwise it is not JSON at all |
| JsonReading.IllegibleMisread | formatter_json.go:59-72 | a text that is no JSON string content, written between quotes as it is, is never read as itself, with a bare quote, an open backslash or a raw newline in it |
| JsonReading.FieldTells | formatter_json.go:111-127 | a field's token is read as its member if and only if it is clean, whatever follows and wherever the line ends |
| JsonReading.ReadsBackExactly | formatter_json.go:47-140 | for every option string, rendered time, message, caller and field, without precondition: the record parses to its members in order if and only if every one of them is clean |
| JsonParser.NumbersReadBack | formatter_json.go:159-164 | the literal of an integer or finite float denotes the number that was logged |
| JsonParser.ControlByteBreaksRecord | formatter_json.go:82-91 | a message of the one byte 1 makes a record that does not parse |
| JsonParser.OpenOptionAddsMember | formatter_json.go:145-149 | with a redacted value of bare quotes, a record with one sensitive field parses to its header and two members, the second made by the option |
| JsonParser.BinaryReadsBack | formatter_json.go:206-218 | base64-decoding a binary field's text gives the logged bytes |
| JsonParser.DefaultOptionsArePlain | formatter.go:56-80 | the default option strings can stand between quotes as they are |
| LineBreaks.FramedRecordsAreLines | formatter_json.go:133-135 | cutting a concatenation of records at the newlines gives the records |
| Framing.JsonRecordFramed | formatter_json.go:129-135 | with newline-free option strings a JSON record has one newline, at its end |
| Framing.LogfmtRecordFramed | formatter_logfmt.go:147-150 | the same for a logfmt record |
| Framing.StreamFraming | async.go:346-362 | over any run of the queue, the bytes the sink took are, line by line, the delivered records, a subsequence of the accepted ones |
| Framing.DrainedStreamIsAccepted | async.go:309-371 | if the sink does not fail and the ring is drained, the lines are exactly the accepted records |
| Framing.JsonLogReadsBack | formatter_json.go:47-140 | whatever the options, a JSON log, cut at newlines and parsed line by line, gives the members of every entry in order if and only if all are clean |
| Framing.ClosedJsonLogReadsBack | formatter_json.go:47-140 | with option strings that keep to their places, exactly the lines of unclean entries are refused |
| Framing.LogfmtLogReadsBack | formatter_logfmt.go:52-155 | a logfmt log gives the pairs of every entry in order if and only if all that is written without escaping fits |
| Framing.JsonRingReadsBack | async.go:346-362 | if the accepted entries are the JSON records of a log, the sink does not fail and the ring is drained, parsing what the sink got gives the log if and only if every entry is clean |
| Framing.LogfmtRingReadsBack | async.go:346-362 | the same for logfmt records |
| Sampling.FastTestIsRemainder | sampling.go:38-45 | the mask test and the remainder test are the same test |
| Sampling.RateCount | sampling.go:36-46 | k calls of a fresh sampler take exactly floor(k/N); from any counter, k/N rounded down or up |
| Sampling.RateSampler.constructor | sampling.go:26-33 | non-positive rates become 1 and the counter starts at 0 |
| Sampling.RateSampler.Sample | sampling.go:36-46 | the counter advances by one and the call is taken exactly if N divides it |
| Sampling.AndChain | sampling.go:366-374 | an and-chain takes call k if and only if the product of its rates divides k, hence floor(k/product) of k calls, because short-circuiting holds later counters back |
| Sampling.OrChain | sampling.go:376-382 | an or-chain takes k/N1 of k calls, then (k - k/N1)/N2 of those left, and so on |
| Sampling.OrOfTwo | sampling.go:376-382 | two samplers in or-mode take a + floor((k-a)/M) calls with a = floor(k/N) |
| Sampling.NoSamplersTakeAll | sampling.go:362-364 | a combination without samplers takes every call, in either mode |
| Sampling.MultiSampler.SampleAll | sampling.go:366-374 | the loop stops at the first refusal and leaves later counters alone |
| Sampling.MultiSampler.SampleAny | sampling.go:376-382 | the loop stops at the first sampler that takes and leaves later counters alone |
| Sampling.MultiSampler.Sample | sampling.go:361-383 | result and counters are those of the mode's chain; no samplers means every call is taken |
| AdaptiveSampling.AdaptiveSampler.constructor | sampling.go:149-176 | arguments that are not valid are replaced, one by one, by 1, 1000, a second, 1000 and 0.9; the sampler starts at the base rate |
| AdaptiveSampling.AdaptiveSampler.Sample | sampling.go:178-203 | the call is counted, the window is closed if it has expired, and the decision uses the adjusted rate |
| AdaptiveSampling.AdaptiveSampler.AdjustSamplingRate | sampling.go:204-223 | the volume is swapped out; a busy window doubles the rate up to MaxRate, a quiet one multiplies it by the decay factor without the fraction, or takes it to BaseRate |
| AdaptiveSampling.VolumesAddUp | sampling.go:180-213 | the volumes swapped out and the running one add up to the calls made, over any run |
| AdaptiveSampling.RateWithin | sampling.go:215-222 | over every run the rate stays between the smaller and the larger of BaseRate and MaxRate, and positive |
| AdaptiveSampling.RateBounds | sampling.go:150-175 | the rate stays in [BaseRate, MaxRate] over all runs if and only if BaseRate <= MaxRate |
| AdaptiveSampling.RateFollowsWindows | sampling.go:206-223 | the rate depends on nothing but the volumes of the windows passed |
| AdaptiveSampling.BusyDoubles | sampling.go:215-217 | j busy windows in a row bring the rate r to min(r·2^j, MaxRate) |
| AdaptiveSampling.QuietDecays | sampling.go:218-222 | each quiet window lowers the rate by at least one until it is BaseRate, and never below |
| AdaptiveSampling.QuietReachesBase | sampling.go:218-222 | r - BaseRate quiet windows always reach BaseRate, and each one before lowers the rate strictly |
| AdaptiveSampling.QuietWindow | sampling.go:218-222 | after a quiet window the rate is BaseRate, if the product with the decay factor is below BaseRate + 1, or that product without its fraction |
| AdaptiveSampling.QuietExactly | sampling.go:218-222 | after j quiet windows it is the j-fold product, each factor's fraction dropped, or BaseRate if that is more |
| AdaptiveSampling.ScaledDownStep | sampling.go:220-221 | that product: each factor is the largest whole number not above the last one times the decay factor |
| AdaptiveSampling.WindowLasts | sampling.go:184-187 | no call within WindowSize of the last reset closes the window or changes the rate; the first later one closes it |
| AdaptiveSampling.ConstantRateCount | sampling.go:189-202 | any m calls at constant rate r take m/r of them, rounded down or up |
| Rotation.WritingValid | writer.go:146-167 | whatever fails, `size` stays the length of the open file, and after a successful write the file holds at most maxSize bytes or exactly that record |
| Rotation.WritingContents | writer.go:146-218 | whatever fails, a write adds to the bytes on disk exactly those it reports, if and only if it does not rename the file onto one with bytes in it |
| Rotation.FittingIsAppended | writer.go:149-169 | a record that fits, or meets no limit, is appended to the current file, as far as the disk takes it, and no rotated file changes |
| Rotation.OverlongIsRotated | writer.go:157-161 | one that does not fit puts the current file under the name of the second and starts a new one |
| Rotation.FailureWritesNothing | writer.go:188-215 | where a step on the way fails, nothing is written and no other file changes |
| Rotation.ClosingRevives | writer.go:171-183 | closing changes no file, and the next write opens the file anew whatever has failed before |
| Rotation.RunKeepsEverything | writer.go:146-218 | over every run of writes and closes, rotated files in order and then the current one hold what was there and all bytes reported as written, if and only if no rename hit a file with bytes in it |
| Rotation.FreshSecondsLoseNothing | writer.go:191-197 | distinct rotation seconds not in use are enough for that |
| Rotation.SameSecondLoses | writer.go:195-196 | two rotations within one second lose the first record |
| Rotation.DeadAfter | writer.go:185-218 | a write leaves a closed file behind exactly if it found one or its rotation failed to close, rename or reopen |
| Rotation.DeadWritesFail | writer.go:150-164 | from then on every write fails and changes nothing until the writer is closed |
| Rotation.NewFileWriter | writer.go:98-116 | no writer if the file cannot be opened; otherwise an existing log file is appended to, its length taken as the size |
| Rotation.FileWriter.OpenFile | writer.go:119-143 | the file exists afterwards, unchanged if it did before, and `size` is its length |
| Rotation.FileWriter.Rotate | writer.go:185-218 | the file is closed, renamed and reopened empty, or left closed at the first failure |
| Rotation.FileWriter.Write | writer.go:146-167 | file, size, count and result are those of the abstract write, which the lemmas above are about |
| Rotation.FileWriter.Close | writer.go:170-182 | the file is let go even when closing fails |
| Cleanup.SortLogsByTime | writer.go:271-279 | the in-place exchange sort leaves a permutation in time order |
| Cleanup.NewestSurvive | writer.go:248-267 | the survivors are exactly the newest min(maxBackups, number not before the cutoff): logs deleted for their age take no place from younger ones |
| Cleanup.SurvivalByRank | writer.go:259-267 | whatever the order of equal times, at most maxBackups logs at least as new means survival, maxBackups newer ones mean deletion |
| Cleanup.SurvivalExactly | writer.go:248-267 | with distinct times a log survives if and only if it is not before the cutoff and fewer than maxBackups logs are newer |
| Cleanup.RemoveOld | writer.go:249-256 | exactly the logs before the cutoff are removed, except those whose removal fails |
| Cleanup.RemoveFirst | writer.go:263-266 | exactly the first n logs of the order are removed, except those whose removal fails |
| Cleanup.Collect | writer.go:231-246 | files that cannot be examined are skipped, the others kept in order |
| Cleanup.ReadableExactly | writer.go:231-246 | a globbed file that can be examined is considered as often as it is globbed, any other not at all |
| Cleanup.ReadableMember | writer.go:231-246 | so it is considered if and only if it is globbed and can be examined |
| Cleanup.ReadableInOrder | writer.go:231-246 | and in the order of the glob |
| Cleanup.Clean | writer.go:222-268 | every globbed file that can be examined is considered, and left exactly if each removal it is due for fails; without faults at most maxBackups of them are left and, with distinct times, exactly those not older than maxAge with fewer than maxBackups newer |
| Cleanup.LeftIsKept | writer.go:248-267 | without failing removals that means: not before the cutoff and in the last maxBackups positions |

## Left out

- AsyncBuffer.AsyncBuffer.constructor: leaves out sizes above 2^32 that the rounding gets wrong, as Bits.RoundUpExact says which, and those of -2^31 and below, for which no buffer may be allocatable.
- AsyncFifo.FifoExactly: speaks of a sink that does not fail; AsyncTheorems.AtMostOnce, AsyncRefusals.DeliveriesAscend and AsyncQueue.Conservation say what is left of it with one that does.
- JsonParser.RoundTrip: that a record that does not read back is refused is stated only where option strings and rendered times hold no bare quote; with one it may parse to something else, as JsonReading.ReadsBackExactly allows. The parser reads no insignificant white space or arrays, because the formatter writes none; surrogate escapes are refused and bytes above 127 pass unchecked, because the formatter does not look at UTF-8.
- LogfmtParser.RoundTrip: the reader is this project's own, as the repository has none: values end at the closing quote or at a space, the formatter's escapes are undone, and bare quotes and spaces in keys are errors.
- Sampling.MultiSampler.Sample: its samplers are distinct rate samplers, because listing one twice or nesting other kinds has no closed count.
- Rotation.FileWriter.Write: no other process touches the directory, an opening that fails leaves no file behind, and compression and cleanup do not run meanwhile.
- Cleanup.Clean: a pattern that cannot be expanded, after which nothing is removed.
- Time is an input or a choice: tickers, sleeping, backoff, jitter and the five-second timeout become the steps at which a writer gives up.
- Go-level data races: publishing an entry and each of the three stores of `maybeResize` are single steps on memory that is sequentially consistent.
- int64 overflow of indices and counters, and of twice the adaptive rate: integers are unbounded.
- Floating point: the decay factor is a real, and a float in a record is its decimal text.
- strconv, fmt, time and sort.Slice: numbers in decimal, other renderings as given, sorting as any sorted permutation.
- Partial writes by the sink of the ring: an entry is written or it is not.
- KeySampler, which hashes a field and keeps no state, and SpikeSampler, which has the adaptive sampler's window but only two fixed rates.
- Text and CLF formatters, which escape nothing and have no inverse; colours, configuration, level names, error helpers, HTTP middleware, caller lookup.
- Gzip compression, buffer and field pools, the cache of formatted times.
