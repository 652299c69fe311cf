# CUCA: verified models of the event-stream parser, the ledger and their neighbours

CUCA is an asynchronous client for language-model providers. Most of it moves bytes; this project models the parts
that keep state, count, or promise something over whole runs, and proves those promises:

- the server-sent-event parser, one reusable buffer fed arbitrary chunks (`Sse*.dfy`);
- the two-phase token and money ledger, whose lock sections interleave across turns (`Cost*.dfy`, `MapTotals.dfy`);
- the sandbox's epoch protocol, many runs sharing one epoch counter (`Sandbox.dfy`);
- the instrumented response stream and the cache replay (`Stream.dfy`, `Delivery.dfy`, `Replay.dfy`);
- canonical JSON text (`Canonical*.dfy`, `JsonNumber.dfy`);
- three bounded registries: guardrail attempts, child agents, approvals (`Guardrails.dfy`, `Subagent*.dfy`,
  `Hitl*.dfy`);
- the texts they all share: UTF-8, white space, decimal numbers (`Text.dfy`, `Unicode.dfy`, `Decimals.dfy`).

Code that updates fields in place is a class whose methods say what the new state is, as a function of the old one;
the laws are lemmas about those functions over every input, every run and every interleaving. `dafny verify
dfyconfig.toml` checks the whole project.

## How the pieces fit

**Event stream.** `SseSpec` says what a byte stream means without scanning it: frames end at blank lines, each field
of an event is a question about the frame's list of field values. `SseParser` is the code, a loop over a buffer with a
cursor that is reset, and each call is proved to read exactly what the reference reads. `SseRuns` takes any number of
calls: the cuts do not matter. `SseMeaning` says, independently of frames, that there is one event per blank line and
that what stays unread is the suffix behind the last one. `SseRoundTrip` writes events and reads them back,
`SseWritable` says which events survive that, `SseFields` says what one line means, and `SseSpelling` lets each line take
any of its forms.

**Ledger.** `Cost` holds the entries, the ledger functions and the class. `CostRuns` is the machine whose steps are the
lock sections, in any order and for any number of turns; saturation is modelled, so the cap and attribution laws need no
hypothesis. Where a law fails for some runs, its exact condition is a property of each step and of the ledger that step
meets, and the two are equivalent over every run:

- `CostExact`, `CostMoney`: the totals are what was admitted, refunded and committed;
- `CostWorth`: with fixed rates the spend is what the tokens are worth, up to rounding;
- `CostBreakdown`: the totals are the sums over the buckets (`CostSum`);
- `CostOwn`: every model's own bucket covers its open turns, so that their refunds find it;
- `CostClamp`: cached reads stay within prompt tokens, per bucket and in total;
- `CostCaps`: the caps are never crossed.

`CostConserve` shows an orderly kind of run in which all of this holds, and `CostLimits` gives concrete runs in which a
law fails together with its condition. `CostEffects` says what one request and one completion do to every counter.

**Streams.** A poll meets an inner answer, the plugins' behaviour during this poll, the clock and the metadata; a stream's
ghost history is the polls so far, and `Valid` ties all its fields and everything the outside world has seen to that
history. `Delivery` says what a consumer receives in terms of the plugins' answers alone.

**Registries.** Each class refines a function of its history; the laws compare that function with an unbounded reading of
the same history.

## Where the code and its documentation differ

The model follows the code in each case.

- `src/sse.rs:44` says malformed `retry` values are ignored. A later malformed one that is valid UTF-8 erases an earlier good
  one (`src/sse.rs:216-217`); `RetryIgnoresMalformed` states exactly when none is lost, `RetryErased` shows two lines that lose one.
- `src/sse.rs:77` describes an event's `id` as carried by its frame. It is inherited from earlier frames (`src/sse.rs:232`).
- A call of `feed_chunk` that meets a bad frame returns only the error: good events completed by the same chunk are lost
  (`src/sse.rs:129`). `EventsIndependentOfCuts` states exactly when that happens.
- `src/plugins/cost.rs:528-529` calls a refund exact under concurrency. The totals are exact exactly as long as no operation on
  them saturates (`ExactnessIffUnsaturated`, `SpendIsExact`), which a reset over an open charge can make happen
  (`ResetBeforeRefund`). A folded turn aborted after a slot became free takes its refund out of its own model's bucket
  (`FoldedRefundEmptiesAnotherBucket`); `OwnChargesCovered` states exactly when that harms no open charge there.
- `src/plugins/cost.rs:73-76` says totals stay exact while attribution degrades and no recorded spend disappears. The
  breakdown can stop adding up to the totals: a folded refund can drop tokens from it, and a refund of cached reads can find
  no spend in its bucket even with no fold, abort or reset (`LateRateBreaksSum`). `BreakdownAddsUp` states exactly when each
  total is the sum over the buckets.
- `src/plugins/cost.rs:953-955` says the clamp keeps cached reads within prompt tokens. It compares with the whole bucket, not
  with what is left of it, so two over-reporting turns double the credit (`CumulativeClampOverCredits`), and honest reports
  can break it after an empty prompt (`EmptyPromptBreaksConservation`). `ReadsWithinPrompts` states exactly when no bucket
  is over-credited, `TotalReadsWithinPrompts` when the totals are not.
- `src/plugins/cost.rs:56-57` says a cap is never crossed. Admission never crosses it, completions can
  (`CompletionCrossesCap`), by at most what they add (`CapSafety`); `CapsNeverCrossed` states exactly when none does.
- `src/plugins/subagent.rs:297-298` says the spawn log has one entry per spawn in spawn order. Registration and logging are
  separate lock sections, so concurrent spawns can be logged late and in another order (`LogOutOfOrder`); `LogRuns` says
  what every interleaving keeps and `LogInOrder` exactly when the order is that of the ids.
- `src/canonical.rs:81-83` says the encoding round-trips. Writing has no depth limit while the JSON reader has one, so a value
  that nests 128 deep or more is written and cannot be read (`CanonicalJson.RoundTrip`).
- `src/plugins/hitl.rs:393-396` says HTTP and API writes are `external_api_write`. Names with `http_delete`, `api_write` or
  `delete_` contain `delete` or `write` and are file writes (`ShadowedKeywords`, `ExternalWriteExactly`).

## Model

| member | source | states |
|---|---|---|
| SseParser.SseStreamParser.constructor | src/sse.rs:95-100 | a new parser holds no bytes and no last event id |
| SseParser.SseStreamParser.FeedChunk | src/sse.rs:113-144 | one call answers, keeps and remembers exactly what the reference reading of old buffer plus chunk says: all new events, or the first fault alone; the unread bytes; the id in force |
| SseParser.SseStreamParser.ParseFrame | src/sse.rs:163-237 | a frame yields the fault of its first bad line, or the event its field values spell together with the frame's own id |
| SseParser.SseStreamParser.ReadLine | src/sse.rs:172-226 | one line moves the accumulators as the reference step does, or ends the frame with that line's fault |
| SseParser.DraftSnoc | src/sse.rs:183-223 | the loop's accumulators always equal the last event name, joined data, last usable id and last UTF-8 retry of the lines so far |
| SseParser.JoinSnoc | src/sse.rs:199-202 | adding a newline exactly when data is non-empty is joining the values after dropping leading empty ones |
| SseParser.FaultStays | src/sse.rs:189-207 | the first faulty line decides, whatever lines follow |
| SseRuns.CutFrameAppend | src/sse.rs:122-141 | bytes that arrive later never change a completed frame |
| SseRuns.DecodeAppend | src/sse.rs:113-144 | reading more bytes continues from the unread ones and the id in force; after a fault it only keeps them |
| SseRuns.FaultAtFront | src/sse.rs:129-136 | the frame that failed is still the first of the unread bytes |
| SseRuns.ErrorIsFinal | src/sse.rs:129-137 | once a call failed, every later one fails the same way, keeps its bytes and leaves the last id alone |
| SseRuns.CallsAreExact | src/sse.rs:102-144 | in a run of calls, call k returns exactly the events its own bytes complete, or the stream's fault from the call that completes it on |
| SseRuns.RunState | src/sse.rs:84-144 | after any chunks, faults included, buffer and last id are those of one whole feed |
| SseRuns.ChunkInvariance | src/sse.rs:113-144 | for every byte stream and every cut, inside a CRLF or a code point too: same events, same id, same buffer as one whole feed |
| SseRuns.EventsIndependentOfCuts | src/sse.rs:127-137 | the delivered events are the same for all cuts if and only if no faulty frame follows a good one |
| SseMeaning.FrameEndsAtBlank | src/sse.rs:125-137 | a frame takes the bytes up to and including the first blank line, and there is no frame without one |
| SseMeaning.EventPerBlankLine | src/sse.rs:122-141 | without a fault there is one event per blank line, and the unread bytes are exactly the suffix behind the last blank line |
| SseMeaning.EventsAreFrames | src/sse.rs:127-133 | event i is frame i read alone with the last usable id of frames 0..i; reading stops at the first faulty frame |
| SseMeaning.FrameIsText | src/sse.rs:190-211 | every string of an event is valid UTF-8 and a frame's id is non-empty and NUL-free |
| SseMeaning.EventsAreText | src/sse.rs:61-63 | whatever bytes arrive, all strings handed out are valid UTF-8 |
| SseRoundTrip.DataReadsBackExactly | src/sse.rs:195-203 | multi-line data written line by line is read back unchanged if and only if it does not start with a newline and no line ends in a carriage return |
| SseRoundTrip.FrameReadsBack | src/sse.rs:163-237 | the lines of a written event spell that event |
| SseRoundTrip.DecodeWritten | src/sse.rs:113-144 | a written event sequence decodes to itself, ids inherited, leaving nothing unread |
| SseRoundTrip.RoundTrip | src/sse.rs:113-237 | any writable event sequence, fed in any chunks, comes back in order with the right last id and an empty buffer |
| SseRoundTrip.InheritNothing | src/sse.rs:232 | events that all carry ids come back exactly as written |
| SseWritable.ReadsBackIffWritable | src/sse.rs:163-237 | an event written alone is read back as itself if and only if its name and id are valid single lines not ending in a carriage return, the id is usable, the retry a u64, the data valid and plain |
| SseFields.ValueOfLine | src/sse.rs:174-187 | a line is a name, a colon and a value: one space behind the colon is not part of the value, a second one is, a missing one costs nothing, and a carriage return at the end is dropped |
| SseFields.KindsByName | src/sse.rs:188-223 | exactly the names event, data, id and retry are known |
| SseFields.NoColonNoField | src/sse.rs:180-183 | a line without a colon says nothing |
| SseFields.OneMoreLine | src/sse.rs:188-219 | what each kind of line changes in an event, and that it changes nothing else |
| SseFields.IgnoredLine | src/sse.rs:220-223 | a line with no field, or an unknown one, changes nothing |
| SseFields.NoLines | src/sse.rs:230-235 | a frame without lines is a message with no data, id or retry |
| SseFields.FirstBadLineDecides | src/sse.rs:189-208 | the first event, data or id line that is not UTF-8 names the fault |
| SseSpelling.AnySpellingReadsBack | src/sse.rs:113-237 | writable events come back whether each line has the space or not, ends in LF or CRLF, and wherever the bytes are cut |
| SseRetry.RetryIgnoresMalformed | src/sse.rs:213-218 | the retry kept is the last well-formed one if and only if no malformed UTF-8 value follows it |
| SseRetry.RetryErased | src/sse.rs:213-218 | for every number, a second line with a malformed retry loses it |
| Text.Find | src/sse.rs:122 | the first position of a byte, or its absence |
| Text.ValidSplitAtLf | src/sse.rs:190-205 | valid UTF-8 cut at a line feed is valid on both sides |
| Text.DecimalRoundTrip | src/sse.rs:217 | every u64 written in decimal is parsed back |
| Decimals.ParsesIff | src/sse.rs:217 | a text parses as a number if and only if it is an optional plus sign, zeros and that number in decimal, and the number is a u64 |
| Decimals.DigitAt | src/plugins/subagent.rs:247 | the written digits are those of the number in base ten, most significant first |
| Unicode.ValidIffEncoded | src/sse.rs:190-211 | bytes are valid UTF-8 if and only if they encode a sequence of Unicode scalar values |
| Unicode.TrimTakesWhiteSpace | src/sse.rs:217 | trimming removes the white-space code points on both ends and nothing else |
| Unicode.BlankIffWhite | src/plugins/subagent.rs:223 | nothing is left after trimming if and only if every code point is white space |
| Cost.CostPlugin.constructor | src/plugins/cost.rs:644-651 | a new plugin has an empty ledger |
| Cost.CostPlugin.AddToBucket | src/plugins/cost.rs:501-507 | the bucket grows by the delta or is created with it; no other bucket changes |
| Cost.CostPlugin.ChargeRequest | src/plugins/cost.rs:513-524 | the whole new ledger after a charge |
| Cost.CostPlugin.RefundRequest | src/plugins/cost.rs:531-551 | the whole new ledger after a refund, an emptied bucket dropped |
| Cost.CostPlugin.CommitResponse | src/plugins/cost.rs:563-582 | the whole new ledger after a commit, a fold counted |
| Cost.CostPlugin.Reset | src/plugins/cost.rs:687-692 | the ledger is empty again |
| Cost.CostPlugin.Admit | src/plugins/cost.rs:869-906 | a turn is refused exactly when a projected total crosses a cap, tokens first, and then nothing changes; otherwise it is charged |
| Cost.CostPlugin.OnRequest | src/plugins/cost.rs:844-934 | refusals change nothing; an admitted turn is charged, and refunded if and only if some observer fails |
| Cost.CostPlugin.OnResponseComplete | src/plugins/cost.rs:936-978 | the completion is committed with the clamped, re-priced cached reads |
| CostLaws.ProductFits | src/plugins/cost.rs:317-319 | the product of two u64 never overflows u128 |
| CostLaws.PriceMonotone | src/plugins/cost.rs:317-320 | more tokens never cost less, saturation included |
| CostLaws.TruncationBound | src/plugins/cost.rs:312-320 | n prices sum to at most the price of the sum and fall short by at most n - 1 micro-units |
| CostLaws.BoundedSize | src/plugins/cost.rs:482-489 | a bounded map has at most one entry more than the tracked models |
| CostLaws.WriteKeepsBound | src/plugins/cost.rs:484-507 | writing to the key a model resolves to never tracks one model too many |
| CostLaws.SameKeyAfterCharge | src/plugins/cost.rs:522-540 | a charge does not change which bucket its own model resolves to |
| CostLaws.RefundUndoesCharge | src/plugins/cost.rs:513-551 | a refund right after its charge restores the whole ledger if and only if the bucket was not an all-zero one |
| CostRuns.BoundedAttribution | src/plugins/cost.rs:484-507 | in every reachable state of every interleaving the breakdown is within its bound and the fold counter equals the folded completions, saturating |
| CostRuns.CapSafety | src/plugins/cost.rs:869-906 | in every interleaving, prompt tokens stay within the cap, and all tokens and the spend exceed their caps by at most what was committed since the last admitted charge |
| CostRuns.RangeRun | src/plugins/cost.rs:394-430 | in every reachable state every counter of the totals and of every bucket is a u64 |
| CostCaps.CompletionBelowCaps | src/plugins/cost.rs:940-976 | a completion leaves both totals within their caps if and only if its tokens, and its spend after the refund, fit under them |
| CostCaps.CapsNeverCrossed | src/plugins/cost.rs:871-976 | over any run the caps are never crossed if and only if every completion fits under them |
| CostClamp.CompletionWithin | src/plugins/cost.rs:951-976 | a completion leaves its bucket's cached reads within its prompt tokens if and only if the reported reads fit what is not yet credited |
| CostClamp.RefundWithin | src/plugins/cost.rs:531-551 | a refund does so if and only if it leaves at least the credited reads or none were credited |
| CostClamp.ReadsWithinPrompts | src/plugins/cost.rs:951-976 | over any run no bucket is ever over-credited if and only if every completion and every abort meets its condition |
| CostClamp.TotalReadsWithinPrompts | src/plugins/cost.rs:951-976 | the same for the totals: the clamped reads of each completion fit the prompt total beside those credited before, and each refund leaves them |
| CostExact.ExactnessIffUnsaturated | src/plugins/cost.rs:513-582 | in every interleaving the prompt, completion, turn, unpriced and image totals equal admitted minus refunded plus committed after every step, if and only if every addition fits the totals it meets and every refund is covered by them |
| CostExact.LedgerExactness | src/plugins/cost.rs:526-551 | when no addition overflows the totals it meets and no reset lands over an open charge, the totals are exact after every step |
| CostMoney.SpendIsExact | src/plugins/cost.rs:394-430 | in every interleaving the spend is what was charged and settled minus what was refunded and re-priced, and the cache totals what was credited, after every step, if and only if every addition fits and every subtraction is covered |
| CostWorth.SpendIsWorth | src/plugins/cost.rs:844-976 | over any interleaving with a fixed price list and no saturation, the spend is the tokens' worth: prompts at the input rate, completions at the output rate, credited reads moved from the input to the cache-read rate, writes at the cache-write rate, per million tokens, within one micro-unit for each price added or taken off |
| CostEffects.RefusedIff | src/plugins/cost.rs:874-903 | a request is refused exactly when the plain sum exceeds a cap, the token cap deciding first; a total that reaches its cap is admitted |
| CostEffects.RequestCounts | src/plugins/cost.rs:856-906 | an admitted request adds its prompt tokens and their worth at the input rate to the totals and to one bucket, counts its images, and counts as unpriced exactly when its model has no rates |
| CostEffects.CompletionCounts | src/plugins/cost.rs:942-976 | a finished turn adds its completion tokens, one turn, its writes, and its reads up to what the bucket was charged, to the totals and to one bucket, priced or not |
| CostBreakdown.CommitKept | src/plugins/cost.rs:574-576 | one change applied to the totals and to one bucket keeps them in step if and only if no counter is cut off, or the bucket is all there is |
| CostBreakdown.BreakdownAddsUp | src/plugins/cost.rs:513-582 | in every interleaving, saturation and resets included, every total is the sum over the buckets after every step if and only if no step cuts off anything at the totals or at the bucket it writes to, except where that bucket is all there is |
| CostOwn.OwnChargesCovered | src/plugins/cost.rs:531-551 | in every interleaving each own bucket covers its open turns after every step if and only if charges fit beside them, folded turns aborted into an own bucket leave it enough, and no reset lands over open own charges with tokens |
| CostOwn.OwnRefundGoesHome | src/plugins/cost.rs:540-551 | then every open charge in its own bucket is refunded from that bucket, which still holds its tokens |
| CostExact.RefundKeyStability | src/plugins/cost.rs:531-551 | without overflowing prompts and resets over open charges, every refund of tokens, own or folded, finds the bucket it was charged to, still holding them, if and only if every aborted folded turn resolves to the reserved bucket |
| CostExact.FewModelsNeverFold | src/plugins/cost.rs:484-495 | a run naming at most as many models as are tracked never folds, so every refund goes home |
| CostConserve.Conservation | src/plugins/cost.rs:513-582 | with fixed rates, adjacent refunds, honest cached reads and no overflow every total is the sum over the buckets, and cached reads never exceed prompt tokens, in total and per model |
| CostConserve.NoSubtractionSaturates | src/plugins/cost.rs:956-976 | in those runs the refund of an honest completion is covered by the totals and by its bucket and the clamp does not bite |
| CostLimits.FoldedRefundEmptiesAnotherBucket | src/plugins/cost.rs:540-550 | a run in which a folded refund drops the bucket of a turn that is still open |
| CostLimits.ResetBeforeRefund | src/plugins/cost.rs:687-692 | a run in which a reset makes a refund take a later turn's tokens |
| CostLimits.LateRateBreaksSum | src/plugins/cost.rs:963-976 | a run with no fold, abort, reset or overflow after which one model's spend exceeds the total |
| CostLimits.CompletionCrossesCap | src/plugins/cost.rs:940-976 | an admitted turn whose completion takes the tokens past the cap |
| CostLimits.CumulativeClampOverCredits | src/plugins/cost.rs:957-959 | a run in which over-reported reads reach twice the prompt tokens |
| CostLimits.EmptyPromptBreaksConservation | src/plugins/cost.rs:548-559 | a run with honest reads and one empty prompt in which a model's cached reads exceed its prompt tokens |
| MapTotals.TotalUpdate | src/plugins/cost.rs:501-507 | how a sum over buckets changes when one bucket is written |
| Sandbox.StepKeepsIsolation | src/plugins/sandbox.rs:203-265 | every step of every run keeps: one lock holder, tickers only under the lock, epoch one short of the armed deadline until its own ticker fires |
| Sandbox.EpochIsolation | src/plugins/sandbox.rs:89-100 | in every interleaving: no ticker is alive while the lock is free or another run's, at most one deadline is set, it is reached exactly when its own ticker fired, and that ticker timed out |
| Sandbox.NoTrapDuringSetup | src/plugins/sandbox.rs:202-252 | no run can be interrupted before its own ticker starts |
| Sandbox.TrapExactlyAfterOwnTimeout | src/plugins/sandbox.rs:246-265 | an executing guest can be interrupted if and only if its own ticker fired |
| Sandbox.HolderCanMove | src/plugins/sandbox.rs:203-265 | the lock holder or its ticker always has a possible step |
| Sandbox.StepLowersRank | src/plugins/sandbox.rs:203-265 | every step of the holder or its ticker frees the lock or comes closer to it, and steps of others change neither |
| Sandbox.LockHeldBriefly | src/plugins/sandbox.rs:203-265 | in every interleaving a run and its ticker take at most eight steps while it holds the lock |
| Sandbox.StoreData.WriteOut | src/plugins/sandbox.rs:316-345 | the slice is appended, or the right error is returned and the output is unchanged; the limit is never passed |
| Stream.RunCompletionHooks | src/client.rs:1155-1164 | every plugin's terminal hook is called once, in order, with the same response |
| Stream.PublishResponse | src/client.rs:1172-1180 | the handle gets the full response once and is used up |
| Stream.PluginStream.constructor | src/client.rs:897-930 | a new stream has seen nothing and owes one handle and at most one cache write |
| Stream.PluginStream.RunLocalTool | src/client.rs:1000-1034 | the first plugin that executes or fails decides, and a replacement must answer the call |
| Stream.PluginStream.RunChunkHooks | src/client.rs:1036-1046 | hooks run in order on each other's result and the first failure wins |
| Stream.PluginStream.CompleteStream | src/client.rs:1069-1098 | at the end: hooks, then the gated cache write, then the hand-off, all with the completed response |
| Stream.PluginStream.PollNext | src/client.rs:996-1103 | each poll answers for itself and the stream's fields and effects remain those of its whole poll history |
| Stream.BlockStep | src/client.rs:1047-1060 | a delivered block is accumulated and counted, so the partial response is exactly the blocks delivered |
| Stream.AfterTheEnd | src/client.rs:1069-1099 | polls after the end add no effect |
| Delivery.DeliveredIff | src/client.rs:1000-1062 | a poll delivers a block if and only if the inner stream yielded one, the first executor, if any, replaced the call by a result with its id, and each hook accepted what the one before left, ending in that block |
| Delivery.ReportedIff | src/client.rs:1000-1064 | a poll reports an error if and only if the inner stream, the first executor, or the first failing hook on what it was given did |
| Delivery.HooksDeliverIff | src/client.rs:1036-1046 | the hooks leave a block if and only if a chain of accepting hooks leads to it |
| Delivery.ChainFails | src/client.rs:1036-1046 | the first hook that fails on the chain so far decides |
| Delivery.FirstExecutorDecides | src/client.rs:1000-1034 | the first plugin that does not pass the call on decides: its failure, its result for the same id, or an error for anything else |
| Delivery.NoExecutor | src/client.rs:1000-1034 | a call nobody executes goes on unchanged |
| Delivery.BlocksAreDelivered | src/client.rs:1047 | the accumulated blocks are the delivered ones, each once and in order |
| Delivery.GeneratedCounted | src/client.rs:1048-1060 | every delivered block counts one but tool results and images |
| Replay.ExactlyOnceCompletion | src/client.rs:996-1103 | for every poll sequence each terminal hook ran once if and only if the end was reached, on a response holding exactly the blocks delivered before it, and the handle got that response |
| Replay.RunPipeline | src/client.rs:684-704 | request hooks in order, then a digest or lookup failure, a cache hit, or dispatch with the effective request to write back |
| Delivery.RequestChainPasses | src/client.rs:685-687 | each request hook works on what the one before left, and the effective request is the last one's |
| Delivery.RequestChainFails | src/client.rs:685-687 | the first request hook that fails ends the turn |
| Replay.CacheHitStream.constructor | src/client.rs:936-951 | a replay starts with all stored blocks |
| Replay.CacheHitStream.PollNext | src/client.rs:1137-1149 | stored blocks in order, then one completion, then only the end |
| Replay.ReplayedBlocks | src/client.rs:1106-1119 | a replay polled past its end hands out exactly the stored blocks and no error |
| Replay.RecordReplay | src/client.rs:694-704 | a turn is recorded if and only if its stream ended with no error item before; any later turn whose effective request has the same digest then hits, while only other keys are stored: same blocks, one completion on the same response apart from duration, and the handle gets it |
| Canonical.LessIsLexicographic | src/canonical.rs:58 | one key is before another if and only if after a common front it ends first or goes on with the smaller byte |
| Canonical.LessTrichotomy | src/canonical.rs:58 | the key order is total and strict |
| Canonical.SortedKeeps | src/canonical.rs:57-58 | sorting loses and invents no entry |
| Canonical.SortedAscending | src/canonical.rs:58 | sorting distinct keys puts them in strictly ascending order |
| Canonical.AnySortIsSorted | src/canonical.rs:58 | an unstable sort of distinct keys has only one possible result |
| Canonical.CanonMeaning | src/canonical.rs:43-76 | the canonical form equals the value, is well formed, and its keys ascend at every depth |
| Canonical.SameCanonEqual | src/canonical.rs:49-76 | values with one canonical form are equal up to key order at every depth |
| Canonical.EqualSameCanon | src/canonical.rs:49-76 | equal values have one canonical form |
| CanonicalText.UnescapeEscaped | src/canonical.rs:37 | an escaped string is read back byte for byte, whatever follows it |
| CanonicalShape.EscapeTable | src/canonical.rs:37 | how each byte of a string is written: seven short escapes, `\u00` and two lower-case hex digits for the other control characters, everything else as it is |
| CanonicalShape.ScalarText | src/canonical.rs:73 | how null, the booleans, integers and empty strings, arrays and objects are written |
| CanonicalShape.ArrayText | src/canonical.rs:65-72 | an array is its elements' texts between brackets, one comma between neighbours, and nothing else |
| CanonicalShape.ObjectText | src/canonical.rs:52-64 | an object is its members between braces, one comma between neighbours: quoted key, colon, value, and nothing else |
| JsonNumber.ReadWrittenNumber | src/canonical.rs:73 | a written u64 or i64 is read back with its value and kind, a float with its text |
| CanonicalText.ReadWritten | src/canonical.rs:96-102 | a written value is read back, whatever follows it, unless it nests deeper than the reader enters, which is reported |
| CanonicalJson.Serialize | src/canonical.rs:49-76 | the loops write exactly the compact text of the canonical form |
| CanonicalJson.SerializeMap | src/canonical.rs:52-64 | sorting the entries and emitting each recursively writes the canonical object |
| CanonicalJson.SerializeSeq | src/canonical.rs:65-72 | arrays keep their order and each element is canonical |
| CanonicalJson.CanonNested | src/canonical.rs:43-76 | sorting keys changes no nesting depth |
| CanonicalJson.WriteInjective | src/canonical.rs:10-15 | different values have different texts |
| CanonicalJson.CanonicalTextIffEqual | src/canonical.rs:35-76 | two values have the same canonical text if and only if they are equal up to key order at every depth |
| CanonicalJson.RoundTrip | src/canonical.rs:85-103 | decoding the canonical text gives an equal, key-sorted value if and only if arrays and objects nest less than 128 deep, and the recursion error otherwise |
| Guardrails.JsonGuardrailPlugin.constructor | src/plugins/guardrails.rs:132-137 | no id is tracked at first |
| Guardrails.JsonGuardrailPlugin.Retain | src/plugins/guardrails.rs:215 | exactly the passed id leaves the order |
| Guardrails.JsonGuardrailPlugin.RecordPass | src/plugins/guardrails.rs:210-217 | the counters become those of the history with one more pass |
| Guardrails.JsonGuardrailPlugin.RecordFailure | src/plugins/guardrails.rs:218-240 | the counters become those of the history with one more failure, and its attempt number is returned |
| Guardrails.JsonGuardrailPlugin.OnStreamChunk | src/plugins/guardrails.rs:202-279 | valid calls pass; invalid ones are replaced by a report answering the same call, exhausted exactly past the maximum; a JSON text is replaced exactly when the reserved schema rejects it; other blocks pass |
| Guardrails.ObjectStart | src/plugins/guardrails.rs:265 | a text is checked only if its first code point that is not white space is an opening brace |
| Guardrails.CountersAgree | src/plugins/guardrails.rs:62-70 | after every history: no id twice, the same ids in both halves, at most 4096 |
| Guardrails.CountsRun | src/plugins/guardrails.rs:222-240 | a counter is the failures since the last pass modulo 2^32 while its id is not evicted, and below the wrap equals them if and only if it was not |
| Guardrails.AttemptIsStreak | src/plugins/guardrails.rs:64-67 | the reported attempt is the number of failures since the last pass if and only if the id was not evicted in between and the u32 did not wrap |
| Guardrails.EvictedIsOldest | src/plugins/guardrails.rs:228-235 | only the oldest id of full counters is evicted, by the first failure of an untracked id |
| Guardrails.EvictionNeedsManyOthers | src/plugins/guardrails.rs:38-43 | an id is evicted only after 4096 different other ids had a first failure since its own |
| Guardrails.FewIdsCountedExactly | src/plugins/guardrails.rs:38-43 | while at most 4096 ids ever failed, the reported attempts are those of counters without eviction |
| Subagent.SubagentPlugin.constructor | src/plugins/subagent.rs:166-174 | nothing is pending, spawned or logged |
| Subagent.SubagentPlugin.Register | src/plugins/subagent.rs:236-250 | a full registry refuses without change; otherwise the child is pending under the counter's id on a channel of its own |
| Subagent.SubagentPlugin.LogSpawn | src/plugins/subagent.rs:251-260 | the loop drops the oldest entries until one fits, and the new one is the last |
| Subagent.SubagentPlugin.SpawnSubagent | src/plugins/subagent.rs:222-268 | a blank task, a failed worktree or a full registry is refused without change; otherwise a child is registered and, undisturbed, logged |
| Subagent.RefusedIff | src/plugins/subagent.rs:222-245 | a task of white space only is refused first, then a worktree that cannot be prepared, then a full registry |
| Subagent.SpawnRecorded | src/plugins/subagent.rs:236-268 | an admitted spawn is pending under `sub-` and its number, and its own entry is the newest of at most 4096 |
| Subagent.SubagentPlugin.Collect | src/plugins/subagent.rs:278-288 | an unknown id is refused without change; a known one is removed and answers with its own channel's result |
| Subagent.SameIdIffWrapped | src/plugins/subagent.rs:247 | two spawns share an id if and only if the 64-bit counter came round between them |
| Subagent.ChildrenNumbered | src/plugins/subagent.rs:247-248 | in every interleaving the counter is the number of registrations modulo 2^64 and channels are numbered by them |
| SubagentLog.LogRuns | src/plugins/subagent.rs:236-260 | in every interleaving of registrations and log sections the log is the last 4096 log sections in order, one for each registered child not between its sections |
| SubagentLog.LogInOrder | src/plugins/subagent.rs:251-260 | the log order is that of the ids without gaps if and only if every log section ran for the oldest child not yet logged |
| SubagentLog.LogOutOfOrder | src/plugins/subagent.rs:236-260 | two concurrent spawns logged the other way round |
| Subagent.RegistryRuns | src/plugins/subagent.rs:222-288 | in every interleaving of up to 2^64 spawns: spawned is pending plus collected without overlap, each pending id waits on its own channel, no id is collected twice, the cap holds |
| Hitl.ContainsIgnoreAsciiCase | src/plugins/hitl.rs:441-446 | the window scan finds a keyword if and only if it occurs in some case |
| HitlNames.HasIffContains | src/plugins/hitl.rs:441-446 | a keyword is found if and only if it stands in the name with each ASCII letter in either case and every other byte as it is |
| HitlNames.CaseNeverMatters | src/plugins/hitl.rs:81-113 | names that differ only in the case of ASCII letters have the same risk and the same category |
| HitlNames.CategoryOf | src/plugins/hitl.rs:399-437 | the category of every name by its keywords, shell before file before external, and no category is low risk |
| Hitl.HighRiskIffAction | src/plugins/hitl.rs:81-113 | a name is high-risk if and only if it has an action category |
| Hitl.ShadowedKeywords | src/plugins/hitl.rs:407-433 | three of the external-write keywords always count as file writes |
| Hitl.ExternalWriteExactly | src/plugins/hitl.rs:399-437 | the external category is chosen if and only if no earlier group matches and one of four keywords occurs |
| Hitl.HitlPlugin.constructor | src/plugins/hitl.rs:279-294 | the audit log starts empty |
| Hitl.HitlPlugin.RecordAudit | src/plugins/hitl.rs:318-335 | one entry is appended, or the full log is left as it is and an error returned |
| Hitl.HitlPlugin.OnStreamChunk | src/plugins/hitl.rs:355-390 | approved calls pass, denied ones are replaced, unrecordable ones refused; exactly the recorded rulings are appended |
| Hitl.AuditIsFirstRulings | src/plugins/hitl.rs:239-250 | the log is the rulings on the first gated calls, up to its cap, in order |
| Hitl.AuditAppendOnly | src/plugins/hitl.rs:253-256 | entries are only appended and never beyond the cap |
| Hitl.DeliveredCallsAreApproved | src/plugins/hitl.rs:377-388 | the approved entries are, one for one and in order, those of the gated calls delivered |

## Left out

- CostExact.RefundKeyStability: assumes that admitted prompts do not overflow the prompt total they meet and that no reset lands over an open charge; for charges in their own bucket `CostOwn.OwnChargesCovered` is exact without either.
- CostConserve.Conservation: one orderly kind of run (fixed rates, refunds adjacent to charges, honest cached reads, no bucket opened by an empty prompt, no overflow of the totals); the exact conditions of its parts over every run are `BreakdownAddsUp`, `ReadsWithinPrompts` and `TotalReadsWithinPrompts`.
- CostConserve.NoSubtractionSaturates: same conditions as Conservation.
- CostWorth.SpendIsWorth: stated for a price list that stays fixed over the run and for bills that fit a u64; without either there is no one worth to compare with.
- CostLaws.TruncationBound: stated where the price of the sum does not saturate, as the saturating cast makes the shortfall arbitrary.
- Guardrails.JsonGuardrailPlugin.RecordFailure: the u32 counter wraps, as in a build without overflow checks; a checked build would stop there.
- Subagent.RegistryRuns: stated for up to 2^64 spawns; beyond, ids repeat exactly as `SameIdIffWrapped` says.
- CanonicalJson.Serialize: sorting is a function instead of an in-place library sort, and `AnySortIsSorted` shows the choice of algorithm cannot matter; the recursion stack is unbounded.
- CanonicalJson.RoundTrip: canonical text contains no white space and no `\u` escape beyond the control characters, so the reader has neither. The limit of 128 is the JSON library's, whose source is not part of this model.
- JsonNumber.ReadWrittenNumber: a float is its text. How floats are formatted, whether parsing rounds to the same float, and that the library compares 0.0 and -0.0 as equal although their texts differ, are not modelled.
- Replay.RecordReplay: the prompt cache is a map whose lookup returns what was stored; its eviction, time-to-live and advisory write failures are not part of this model.
- Sandbox.EpochIsolation: `run` is a step machine, not a method; a thread that fails to start, a panic while the lock is held, and epoch wrap-around are not modelled.
- Sandbox.StoreData.WriteOut: pointers are mathematical integers with the 64-bit `usize` bound; guest memory is a byte sequence.
- The JSON text of guardrail reports and the `detail` string of approval requests: formatting.
- JSON Schema validation, JSON parsing in the guardrail hook, the approval channel and a child's outcome: arbitrary functions or parameters.
- Token estimation, the near-cap warning text and `cap_fraction`: the estimate is an arbitrary number; the rest is float comparison and formatting.
- Observer readings: only whether an observer fails is modelled.
- Wall-clock times: parameters of each poll and ruling.
- Lock poisoning: assumed not to happen.
- Provider dispatch, HTTP, feature gates, WebAssembly compilation, fuel and memory limits, Git worktrees: plumbing around the modelled state.
- `src/tokenize.rs`, `src/export.rs`, `src/session.rs` and the MCP connector: glue over services that are not part of this model.
