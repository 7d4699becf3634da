# Verification of the lucebox server patch

A Dafny model of the parts of the patched inference server whose correctness is hardest to see by
reading: speculative decoding, the bookkeeping around prefill, the streaming emitter, the threads that
share a client's socket, the job queue and the router, and the printing and parsing of tool calls.

    dafny verify dfyconfig.toml

## What is modelled

**Decoding.** `TargetModel` abstracts the target network to an arbitrary function of the attention rows
it may see, a recurrent state and a token, and models the device state as an array of rows and a
recurrent value; snapshots copy only the latter. `SpecDecode` is the decode loop with its chain, burst
and tree steps and all its repairs, `ArDecode` the plain loop with its budget hook and watchdogs, and
`Lossless` runs both. Drafts, widths, bursts, cancellations and failing operations are arbitrary.

**Prefill.** `KvPool` models the resident pool: slots, the page table and chunks paged out to host
memory. `Prefill` models the chunk schedule, the boundary snapshot, the token history, the pooled and
the contiguous prefill and the continuation of the live pool over several requests and replies;
`PooledMask` builds the slot-space attention mask.

**Streaming.** `ThinkSplit` is the one-pass meaning of `<think>` and `</think>`. `Utf8`, `ThinkStream`,
`StopSequence` and `SseText` prove that working through a window, piece by piece, follows it.
`SseEvents` is what a client of each format keeps, `SseEmitter` the emitter itself, and `SseCuts` runs
of it that show where its promises end.

**Threads.** `EventStream` reads an event stream as sections 9.2.5 and 9.2.6 of the WHATWG HTML standard
say. `HeartbeatStream`, `JobQueue` and `Routing` are state machines over the steps that run under one
lock each, in any order.

**Tool calls.** `ToolCallXml` prints calls and parses them; `ToolCallReplay` proves the round trip, and
`ToolCallSpans` what any text leaves.

## What was found

- A contiguous prefill that reuses part of the live pool is wrong after an eviction: it rebuilds the page
  table as the identity, while slots [0, offset) may hold other positions. A 20000-token prompt in a
  16384-token pool, then a 2000-token prompt with the same beginning, can be such a case. It is right exactly
  if those slots hold the prefix, which the pager's identity test guarantees
  (`Prefill.Backend.PrefillRequest`, `IdentityPrefix`, `DisplacedPrefix`).
- A prefill that fails, even only in synchronising the draft features of its first chunk, or a decode after
  a prompt the pool wholly held, can leave a history that no longer describes the rows
  (`PrefillRequest`, `FailedSyncLoses`, `PlainDecode` and `SpecDecode` say exactly when). The guard before
  a prefill: through the page table, or while that is the identity over the old prompt, no failure can do
  so if and only if the new prompt extends the old one (`FailureGuard`).
- A speculative run whose last step was a tree step can stop on an end-of-sequence token without emitting
  it, so its output lacks the token a plain run would end with: exactly if the confirmed path has no such
  token and leaves budget, and, with fast rollback, the choice after it is one, or, with a replay, the
  choice one token later (`SpecDecode.Defers`, `Lossless.Compare`, `Lossless.StopsShort`).
- With several stop sequences the text shown can depend on how the stream was cut, exactly if one hides
  another strictly inside (`StopSequence.CutFreeIsExact`, `SseCuts.TwoCuts`). When a stop fires while part
  of a character is held back, that part is still shown at the end (`SseCuts.CutCharacterShown`).
- A stop sequence that cuts the reasoning can send a thinking delta into a text block of the messages
  format, and leaves the reasoning unsent in the responses format (`SseCuts.WrongKind`,
  `SseCuts.LostReasoning`; `SseEmitter.Emitter.Respond` says exactly when).
- In the responses format reasoning after the message was opened reuses its output index, which breaks
  the item protocol (`ThinkStream.ReasoningCanReopen` is such a text).
- A parameter value that ends in a carriage return loses it when the call is printed and parsed again, one
  that holds `</parameter>`, `<parameter=` or `</function>` never comes back, and the text `null` comes back
  as no text where the tool does not declare the parameter (`ToolCallReplay.RoundTrip`).

## Model

| member | source | states |
|---|---|---|
| Lossless.Compare | lucebox-patch/server/src/qwen35/qwen35_backend.cpp:387-392 | greedy speculative and plain decoding of the same prompt give the same output for every network, draft, width, hint list and burst schedule; both complete unless a target operation failed or a client cancelled, which cannot happen when operations do not fail and the context has room; the outputs of completed runs differ, by the final end-of-sequence token, exactly if the last step was a tree step that stops short |
| Lossless.StopsShort | lucebox-patch/server/src/qwen35/qwen35_backend.cpp:3646-3656 | for every network whose second choice ends the sequence, a tree step on the pending token alone leaves out that token, which the plain loop emits |
| Lossless.StopsShortOnce | lucebox-patch/server/src/qwen35/qwen35_backend.cpp:3646-3656 | such a network and both outputs |
| SpecDecode.SpecDecoder.DoSpecDecode | lucebox-patch/server/src/qwen35/qwen35_backend.cpp:3049-4290 | whatever happens, the output is a prefix of the greedy sequence; a completed run outputs all of it up to the first end-of-sequence token or the budget, except for a final one it defers, exactly if its last step was a tree step whose path has none, leaves budget and is followed by one; it fails exactly if a target operation failed in it, which takes a failing device or a full context |
| SpecDecode.SpecDecoder.Step | lucebox-patch/server/src/qwen35/qwen35_backend.cpp:3054-3066 | every pass (burst, tree or chain) restores state agreement: rows below the committed position and the recurrent state are those of a plain decode of prompt and output, and the pending token is the next greedy choice; it emits at least one token |
| SpecDecode.SpecDecoder.ChainStep | lucebox-patch/server/src/qwen35/qwen35_backend.cpp:3835-4180 | the same for one chain or burst step, including the burst step that takes no snapshot |
| SpecDecode.SpecDecoder.Draft | lucebox-patch/server/src/qwen35/qwen35_backend.cpp:3802-3829 | a draft is arbitrary after the pending token, except that inside its width it is the hints that are left |
| SpecDecode.SpecDecoder.Accept | lucebox-patch/server/src/qwen35/qwen35_backend.cpp:3929-3934 | the accepted part is the longest prefix confirmed by the argmaxes |
| SpecDecode.AcceptedIsGreedy | lucebox-patch/server/src/qwen35/qwen35_backend.cpp:3929-3934 | the accepted part of any draft is a run of greedy choices, and the argmax after it is the next one |
| SpecDecode.SpecDecoder.Bonus | lucebox-patch/server/src/qwen35/qwen35_backend.cpp:3944-3948 | how many tokens are committed within the budget, and when the bonus token is one of them |
| SpecDecode.SpecDecoder.Repair | lucebox-patch/server/src/qwen35/qwen35_backend.cpp:3956-4026 | fast rollback, its recoverable failure, replay and the burst step all leave the target as after a plain decode of the committed tokens, which are greedy choices; exactly as many tokens are committed as were confirmed and fit |
| SpecDecode.SpecDecoder.FastRollback | lucebox-patch/server/src/qwen35/qwen35_backend.cpp:3969-3998 | rolling back to a confirmed prefix gives the plain-decode state, whatever rows the rejected tokens left above it |
| SpecDecode.SpecDecoder.Replay | lucebox-patch/server/src/qwen35/qwen35_backend.cpp:3999-4020 | restoring the recurrent snapshot and running the committed tokens again gives the plain-decode state and next choice |
| SpecDecode.SpecDecoder.CommitIsGreedy | lucebox-patch/server/src/qwen35/qwen35_backend.cpp:4022-4026 | the committed tokens, with the bonus token or without, are greedy choices |
| SpecDecode.SpecDecoder.VerifyDraft | lucebox-patch/server/src/qwen35/qwen35_backend.cpp:3835-3859 | a verified draft leaves the target as after a plain decode of it, with the snapshot taken before it unless the step is a burst step |
| SpecDecode.SpecDecoder.EmitCommitted | lucebox-patch/server/src/qwen35/qwen35_backend.cpp:4050-4180 | emission stops at the first end-of-sequence token or a cancellation and otherwise moves the counters past all committed tokens |
| SpecDecode.SpecDecoder.TreeStep | lucebox-patch/server/src/qwen35/qwen35_backend.cpp:3538-3718 | verifying a whole draft tree, following the target and repairing its state keeps state agreement and the greedy output; the step defers an end of sequence exactly as its path says |
| SpecDecode.SpecDecoder.Walk | lucebox-patch/server/src/qwen35/qwen35_backend.cpp:3570-3595 | the walk down the tree follows the target as far as the tree goes: its tokens are greedy choices and the token after them is not among the children of the last node |
| SpecDecode.NodeIsRun | lucebox-patch/server/src/qwen35/qwen35_backend.cpp:3559-3568 | the result verified at a tree node is the plain-decode result of the path to that node |
| SpecDecode.SpecDecoder.CommitPath | lucebox-patch/server/src/qwen35/qwen35_backend.cpp:3598-3718 | clipping the path to the budget, emitting it, and then rolling back or replaying it with the bonus token keeps agreement; the loop stops on an unemitted end of sequence exactly if the path has none, leaves budget, and the token left pending, the choice after it or after the bonus, is one |
| SpecDecode.SpecDecoder.EmitPath | lucebox-patch/server/src/qwen35/qwen35_backend.cpp:3598-3614 | the path is emitted up to the budget, an end of sequence or a cancellation |
| SpecDecode.SpecDecoder.TreeRollback | lucebox-patch/server/src/qwen35/qwen35_backend.cpp:3626-3636 | moving the rows of the accepted nodes into place gives the rows of a plain decode of their tokens |
| SpecDecode.SpecDecoder.RollbackPath | lucebox-patch/server/src/qwen35/qwen35_backend.cpp:3620-3658 | the fast tree path: agreement after rollback, with the bonus token pending |
| SpecDecode.SpecDecoder.ReplayPath | lucebox-patch/server/src/qwen35/qwen35_backend.cpp:3659-3718 | the low-accept tree path: agreement after replay, with the bonus token emitted if it fits |
| TargetModel.Target.RestoreKv | lucebox-patch/server/src/qwen35/qwen35_backend.cpp:2826-2827 | a restore brings back the recurrent part only; attention rows stay |
| TargetModel.Target.VerifyBatch | lucebox-patch/server/src/qwen35/qwen35_backend.cpp:3849-3857 | a batch computes, token by token, what single forwards would compute from the rows below its position and the recurrent state |
| TargetModel.TraceIsRun | lucebox-patch/server/src/qwen35/qwen35_backend.cpp:3849-3857 | every result of a batch is the plain-decode result at its position |
| TargetModel.GreedyUnfold | lucebox-patch/server/src/qwen35/qwen35_backend.cpp:387-392 | a run of greedy choices without an end of sequence is a prefix of the greedy sequence, and the next choice continues it |
| TargetModel.GreedyComplete | lucebox-patch/server/src/qwen35/qwen35_backend.cpp:387-392 | a run of greedy choices that fills the budget or ends in the first end-of-sequence token is the whole greedy sequence |
| ArDecode.ArDecoder.DoArDecode | lucebox-patch/server/src/qwen35/qwen35_backend.cpp:2382-2600 | every token is the choice of the target, except that the close sequence lands exactly at its index; the forced flag is set exactly if that index was reached and the own choice there was not the first close token; at most the budget is emitted, and what stopped the loop is told apart; no beginning of the output that was decoded past ends in a run of the guard's length or, after the close sequence, in a repeated period from 12 to 80 |
| ArDecode.ArDecoder.MaybeForceClose | lucebox-patch/server/src/qwen35/qwen35_backend.cpp:2292-2353 | one step of the forced-close state machine keeps it in agreement with the tokens emitted |
| ArDecode.ArDecoder.DecodeOne | lucebox-patch/server/src/qwen35/qwen35_backend.cpp:2403-2545 | one forward of the pending token gives the next greedy choice, overridden only by the close sequence |
| ArDecode.ArDecoder.StopTest | lucebox-patch/server/src/qwen35/qwen35_backend.cpp:2543-2600 | after a token, unless the client cancelled: an end of sequence is told exactly if it is one, and otherwise the loop stops exactly if the output ends in a repetition that is watched for |
| ArDecode.ArDecoder.DegenerateRun | lucebox-patch/server/src/qwen35/qwen35_backend.cpp:2547-2561 | the repeat guard fires exactly if the output ends in that many equal tokens |
| ArDecode.ArDecoder.DegeneratePeriod | lucebox-patch/server/src/qwen35/qwen35_backend.cpp:2562-2600 | after the close sequence the second watchdog fires exactly if some period from 12 to 80 repeats at the end |
| ArDecode.ArDecoder.PlainIsGreedy | lucebox-patch/server/src/qwen35/qwen35_backend.cpp:2382-2545 | without a hook a plain decode that ran its course is the greedy sequence |
| PooledMask.BuildMask | lucebox-patch/server/src/qwen35/qwen35_backend.cpp:1992-2018 | for every alignment, a slot is open for query q exactly if it holds a resident position below kv_pos or one of the first q+1 positions of this batch |
| PooledMask.OpenCached | lucebox-patch/server/src/qwen35/qwen35_backend.cpp:1992-2010 | row 0 opens exactly the slots of resident positions below kv_pos, chunk by chunk |
| PooledMask.Pager.HoldsIsOneToOne | lucebox-patch/server/src/qwen35/qwen35_backend.cpp:1926-1941 | with an injective page table slots and positions correspond one to one |
| PooledMask.Pager.HeldBelow | lucebox-patch/server/src/qwen35/qwen35_backend.cpp:1992-2018 | below any bound the slot of a position counts exactly if the position is below it: the mask is causal |
| Prefill.SchedulePartitions | lucebox-patch/server/src/qwen35/qwen35_backend.cpp:1890-1922 | the chunks of a prefill cover exactly the positions of the delta, in order and without gaps |
| Prefill.LastUpToHolds | lucebox-patch/server/src/qwen35/qwen35_backend.cpp:1896-1921 | the last chunk that starts at or before a requested position, where its snapshot is taken, is the one that computes the row of that position |
| KvPool.Pool.PageOutKeeps | lucebox-patch/server/src/qwen35/qwen35_backend.h:205-210 | a chunk that pages out to host memory keeps its rows |
| KvPool.Pool.PlaceKeeps | lucebox-patch/server/src/qwen35/qwen35_backend.h:205-210 | a chunk that gets a block brings its rows along and takes nobody's |
| KvPool.Pool.WriteIs | lucebox-patch/server/src/qwen35/qwen35_backend.cpp:2442-2451 | a row written through the page table changes its position alone |
| KvPool.Pool.PutIs | lucebox-patch/server/src/qwen35/qwen35_backend.cpp:2019-2026 | a row written at a slot changes that slot alone |
| KvPool.Pool.PackedNext | lucebox-patch/server/src/qwen35/qwen35_backend.cpp:2142-2150 | a freshly reset pool hands out blocks in order, so that the slot of a position is its own number |
| KvPool.Pool.IdentityHolds | lucebox-patch/server/src/qwen35/qwen35_backend.cpp:985-992 | with the identity mapping a prompt is in the slots exactly if its positions have its rows |
| KvPool.Pool.DisplacedSlot | lucebox-patch/server/src/qwen35/qwen35_backend.cpp:1926-1941 | a block owned by another chunk with needed rows does not hold the prefix |
| KvPool.Pool.SitsIsHolds | lucebox-patch/server/src/qwen35/qwen35_backend.cpp:1992-2018 | where a position sits is where the attention mask takes it to be |
| KvPool.Pool.SparedRows | lucebox-patch/server/src/qwen35/qwen35_backend.cpp:2026-2065 | rows written through the page table spare a prompt exactly if they agree with it |
| KvPool.Pool.SparedSlots | lucebox-patch/server/src/qwen35/qwen35_backend.cpp:2026-2065 | rows written to slots spare a prompt exactly if they agree with the positions that sit there |
| KvPool.Pool.SparedByWipe | lucebox-patch/server/src/qwen35/qwen35_backend.cpp:1858-1862 | after the page table was emptied, a failure in the first chunk keeps a prompt exactly if block 0 is mapped again and still holds all of it |
| KvPool.FullIsReached | lucebox-patch/server/src/qwen35/qwen35_backend.cpp:1923-1941 | a prompt of three chunks fills a pool of three blocks, after which none is free |
| KvPool.OverfullIsReached | lucebox-patch/server/src/qwen35/qwen35_backend.cpp:1923-1941 | a fourth chunk then displaces chunk 0 |
| KvPool.OverfullHolds | lucebox-patch/server/src/qwen35/qwen35_backend.cpp:1923-1941 | there every position still has its row, and slot 0 holds another |
| Prefill.Backend.DoPrefill | lucebox-patch/server/src/qwen35/qwen35_backend.cpp:1833-2128 | an uncancelled prefill follows a schedule that does not depend on the snapshot request; a prefill that comes as far as the requested position saves its end exactly if that was asked for, the start of the last chunk not above the position exactly if that is inside, the prefill is not pooled and the chunk is not the first, and otherwise nothing, also when it fails or is cancelled; what it wrote, a torn or unsynchronised chunk included, went through the page table or to the slots of the same numbers; the page table is kept, emptied or rebuilt, and the history recorded, as the branch says |
| Prefill.Backend.BoundarySnapshot | lucebox-patch/server/src/qwen35/qwen35_backend.cpp:1896-1921 | as chunks begin, a snapshot request is served or dropped at the one that contains it, and no other adds a save |
| Prefill.Backend.MatchLivePool | lucebox-patch/server/src/qwen35/qwen35_backend.cpp:1425-1448 | the match found is the longest common prefix of the last prompt and the new one |
| Prefill.Backend.PrefillRequest | lucebox-patch/server/src/qwen35/qwen35_backend.cpp:1425-1516 | after a pooled prefill that succeeded every position has the row of the new prompt; after a contiguous one exactly if slots [0, offset) held the reused prefix before; after a failed one the old prompt's rows survive exactly if what was written agrees with them where it landed, or, once the page table was emptied, if block 0 still holds them all; always if the new prompt extends the old one through the page table or over the identity; the snapshot asked for is the one attempted |
| Prefill.Backend.SlotFor | lucebox-patch/server/src/qwen35/qwen35_backend.cpp:1926-1941 | a position gets a block: its own, the first free one or that of a victim outside the batch, and no chunk loses its rows |
| Prefill.Backend.MaskBatch | lucebox-patch/server/src/qwen35/qwen35_backend.cpp:1923-2018 | the slots of a batch and its mask together: query q sees a slot exactly if a position not after its own sits there |
| Prefill.Backend.Forward | lucebox-patch/server/src/qwen35/qwen35_backend.cpp:1923-2065 | a chunk that is computed has written its rows; one that fails has written nothing, part of them with any contents, or all of them |
| Prefill.Backend.SyncPrefill | lucebox-patch/server/src/qwen35/qwen35_backend.cpp:2135-2165 | after a contiguous prefill every position below the committed one is mapped to the slot of the same number, whose contents stay |
| Prefill.Backend.SuccessHolds | lucebox-patch/server/src/qwen35/qwen35_backend.cpp:2090-2128 | which rows the page table gives after a prefill that succeeded, for both branches |
| Prefill.Backend.FailureSpares | lucebox-patch/server/src/qwen35/qwen35_backend.cpp:2036-2065 | which of the old prompt's rows survive a failed prefill, for all branches |
| Prefill.Backend.IdentityPrefix | lucebox-patch/server/src/qwen35/qwen35_backend.cpp:985-992 | while the page table is the identity over the prefix, the slots hold it: the guard that makes a contiguous continuation right |
| Prefill.Backend.DisplacedPrefix | lucebox-patch/server/src/qwen35/qwen35_backend.cpp:2135-2150 | a request that fails this way: a contiguous continuation after an eviction is served on the row of another position |
| Prefill.Backend.WrittenRowLoses | lucebox-patch/server/src/qwen35/qwen35_backend.cpp:2026-2065 | one computed row is enough to lose the premise where the prompts part below the boundary |
| Prefill.Backend.FailureGuard | lucebox-patch/server/src/qwen35/qwen35_backend.cpp:2026-2065 | known before the call: through the page table, or with the identity over the old prompt, every failure spares the old prompt if and only if the new one extends it |
| Prefill.Backend.FailedSyncLoses | lucebox-patch/server/src/qwen35/qwen35_backend.cpp:2061-2065 | a concrete request: after [1, 2], the prompt [1, 3] whose only chunk is computed and then fails to synchronise loses the premise |
| Prefill.Backend.PlainDecode | lucebox-patch/server/src/qwen35/qwen35_backend.cpp:2382-2545 | the plain loop writes the rows of all emitted tokens but the last and keeps the premise exactly if those below the boundary agree with the history |
| Prefill.Backend.SpecDecode | lucebox-patch/server/src/qwen35/qwen35_backend.cpp:3535-3860 | the speculative loop also leaves rows of rejected tokens above the emitted ones, and keeps the premise exactly if all rows written below the boundary agree with the history |
| Prefill.Backend.Reselect | lucebox-patch/server/src/qwen35/qwen35_backend.cpp:2228-2258 | swapping cold and resident chunks loses no row |
| Prefill.Backend.ServeOne | lucebox-patch/server/src/qwen35/qwen35_backend.cpp:1425-1516 | one guarded request keeps the premise unless its prefill fails |
| Prefill.Backend.Serve | lucebox-patch/server/src/qwen35/qwen35_backend.cpp:1425-1516 | over any run of requests that each have something to prefill, with the identity guard before contiguous continuations, the history below the boundary is the last prompt and every position below it has its row; while everything fits the pool the guard never stops the run |
| Utf8.HoldBackTail | lucebox-patch/server/src/server/sse_emitter.cpp:306-328 | what is split off the end of the joined bytes is at most the beginning of one code point |
| Utf8.TakeNext | lucebox-patch/server/src/server/sse_emitter.cpp:306-331 | from piece to piece: released text and held tail are the bytes so far, the released part is valid and the tail is at most three bytes of one code point |
| Utf8.Reassemble | lucebox-patch/server/src/server/sse_emitter.cpp:306-331 | for every way of cutting valid UTF-8, each released piece is valid, nothing is lost and nothing is held at the end |
| Utf8.CutPrefix | lucebox-patch/server/src/server/sse_emitter.cpp:306-328 | a valid text cut anywhere is whole code points and then at most the beginning of one |
| ThinkSplit.NothingLost | lucebox-patch/server/src/server/sse_emitter.cpp:373-539 | the one-pass split accounts for every byte: reasoning, content and tags in order make up the text |
| ThinkSplit.NextTagIsFirst | lucebox-patch/server/src/server/sse_emitter.cpp:416-505 | the tag acted on is the first one that matters in the mode |
| ThinkStream.TracksMore | lucebox-patch/server/src/server/sse_emitter.cpp:331-334 | a new piece keeps the part already given out and the window in step with the split of the whole text, and of the text cut short anywhere in the window |
| ThinkStream.StepAtTag | lucebox-patch/server/src/server/sse_emitter.cpp:421-429 | giving out the text before the first tag and dropping the tag follows the split, whatever text comes later or if the text stops |
| ThinkStream.StepSafePrefix | lucebox-patch/server/src/server/sse_emitter.cpp:444-453 | giving out a prefix that leaves the holdback follows the split, whatever text comes later or if the text stops |
| ThinkStream.TracksStrip | lucebox-patch/server/src/server/sse_emitter.cpp:401-414 | the one-time strip of a leading opening tag does not depend on where the text was cut |
| ThinkStream.TracksEnd | lucebox-patch/server/src/server/sse_emitter.cpp:790-835 | flushing the window at the end completes the split of the whole text |
| ThinkStream.TracksCut | lucebox-patch/server/src/server/sse_emitter.cpp:437-505 | if the text stopped in front of something found in the window, what was given out and the window up to there would be its split, and the mode the one it leaves |
| ThinkStream.FindsNextTag | lucebox-patch/server/src/server/sse_emitter.cpp:459-471 | the searches for the two tags find the first tag of the split |
| ThinkStream.ReasoningCanReopen | lucebox-patch/server/src/server/sse_emitter.cpp:623-645 | a concrete text whose reasoning goes out after the message was opened |
| StopSequence.WindowSuffices | lucebox-patch/server/src/server/sse_emitter.cpp:336-344 | the held window shows whether and where the whole text has its first stop sequence, for any list of them |
| StopSequence.GiveOut | lucebox-patch/server/src/server/sse_emitter.cpp:444-453 | giving out all but the holdback keeps that so |
| StopSequence.FirstStopIs | lucebox-patch/server/src/server/sse_emitter.cpp:336-344 | the search over the list finds the first position of any stop sequence |
| StopSequence.CutKeepsFirst | lucebox-patch/server/src/server/sse_emitter.cpp:336-344 | if no stop sequence hides another inside, text that follows the first one found cannot bring an earlier one |
| StopSequence.CutMatters | lucebox-patch/server/src/server/sse_emitter.cpp:336-344 | if one does, it is itself a text that has its first stop sequence elsewhere when cut after the inner one |
| StopSequence.CutFreeIsExact | lucebox-patch/server/src/server/sse_emitter.cpp:336-344 | for texts without tags the cut of the stream is without effect if and only if no stop sequence, of which no other is a beginning, has one strictly inside |
| SseText.Config.Holdback | lucebox-patch/server/src/server/sse_emitter.cpp:127-130 | the holdback is at least the length of every stop sequence |
| SseText.ToolHoldback | lucebox-patch/server/src/server/tool_parser.cpp:160-177 | the holdback covers all but the last byte of every opener of a declared tool |
| SseText.StopFires | lucebox-patch/server/src/server/sse_emitter.cpp:336-371 | when a stop sequence fires, what was shown ends where the first one in the text starts |
| SseText.MoreText | lucebox-patch/server/src/server/sse_emitter.cpp:331-345 | a piece that completes no stop sequence keeps the split, the stop invariant, and what is kept for the tool parser |
| SseText.EnterBuffer | lucebox-patch/server/src/server/sse_emitter.cpp:430-508 | where a call is seen before any tag, what went out is the split of all text before it, and all from there on is kept; the mode recorded is the one that text leaves |
| SseText.GiveFront | lucebox-patch/server/src/server/sse_emitter.cpp:444-534 | giving out the front of a window without tag, call and stop keeps the split and the stop invariant, and the text stays searched for calls to its end |
| SseText.WholeRun | lucebox-patch/server/src/server/sse_emitter.cpp:277-539 | from the decoded text to the pieces: what holds of the text taken in, if no call was seen, holds of the whole stream, after a stop if no stop sequence hides another inside |
| SseText.TakenUntilStop | lucebox-patch/server/src/server/sse_emitter.cpp:277-371 | pieces are taken up to the first after which the text has a stop sequence, if no call was seen |
| SseText.TakenText | lucebox-patch/server/src/server/sse_emitter.cpp:306-331 | what is decoded of the first pieces are their whole characters, and something is held exactly if they end inside one |
| SseEvents.ItemsCarryDeltas | lucebox-patch/server/src/server/sse_emitter.cpp:623-645 | whatever is sent, as long as the item protocol holds the items carry exactly the deltas |
| SseEvents.BlockIsCall | lucebox-patch/server/src/server/sse_emitter.cpp:937-960 | a call sent as a block of its own, with its input in one delta or none, is read as it was |
| SseEvents.WatchedIsObserved | lucebox-patch/server/src/server/sse_emitter.cpp:195-275 | the view kept beside the events is what a client computes from them |
| SseEmitter.Emitter.Respond | lucebox-patch/server/src/server/sse_emitter.cpp:195-1197 | a whole response: unless a call is seen or a stop fires, reasoning, content and deltas are the split of the whole text wherever it was cut; where a call is seen, the text before it is split so, all that follows is given to the tool parser, a client of any format reads exactly the calls it finds, and the text it leaves over, or that was kept by mistake, follows; with any stop sequences, which pieces are taken, what is shown and what is held, exactly; block protocol of the messages format, with the exact condition for a delta of the wrong kind in terms of the text cut and the block a client saw open; item protocol of the responses format exactly if no reasoning was reopened or cut, and when that is in terms of the input; the last events of each format and the finish reason |
| SseEmitter.Emitter.EmitStart | lucebox-patch/server/src/server/sse_emitter.cpp:195-275 | the first events of each format, after which all invariants hold |
| SseEmitter.Emitter.EmitToken | lucebox-patch/server/src/server/sse_emitter.cpp:277-539 | a piece keeps all invariants, is ignored after a stop, fires a stop exactly if the window with its text has one, and leaves no more in the window than the holdback, part of a character and a possible tool name; with tools, unless a call was seen, the text was searched for one to its end |
| SseEmitter.Emitter.Drain | lucebox-patch/server/src/server/sse_emitter.cpp:373-539 | the state machine loop ends with nothing left to decide: no tag or call in the text searched |
| SseEmitter.Emitter.ContentStep | lucebox-patch/server/src/server/sse_emitter.cpp:457-535 | one round while answering: acts on the first tag or tool opener, or on what may be a bare object, or gives out what is safe |
| SseEmitter.Emitter.ReasoningStep | lucebox-patch/server/src/server/sse_emitter.cpp:400-455 | one round while reasoning: acts on the closing tag or a tool opener before it, or gives out what is safe |
| SseEmitter.Emitter.EnterToolBuffer | lucebox-patch/server/src/server/sse_emitter.cpp:430-442 | what precedes tool syntax goes out as part of the split, the rest is kept for the parser, with the mode it was seen in |
| SseEmitter.Emitter.StopHere | lucebox-patch/server/src/server/sse_emitter.cpp:346-371 | what precedes a stop sequence goes out and the rest is dropped; what was cut, in which mode and with which block open is recorded |
| SseEmitter.Emitter.RecordReasoning | lucebox-patch/server/src/server/sse_emitter.cpp:346-362 | reasoning cut by a stop goes into the open block, of the wrong kind exactly if that is no reasoning block, and in the responses format goes unsent |
| SseEmitter.Emitter.AddContent | lucebox-patch/server/src/server/sse_emitter.cpp:544-593 | a content delta keeps the protocol of each format, opening and closing blocks and items as needed |
| SseEmitter.Emitter.AddReasoning | lucebox-patch/server/src/server/sse_emitter.cpp:598-645 | a reasoning delta keeps the protocol of each format; after the message was opened it breaks the item protocol |
| SseEmitter.Emitter.CloseReasoningItem | lucebox-patch/server/src/server/sse_emitter.cpp:649-668 | an open reasoning item is closed with the text of its deltas |
| SseEmitter.Emitter.Flush | lucebox-patch/server/src/server/sse_emitter.cpp:781-835 | what is held back and the window go out or to the tool parser: the split is complete, and the text shown before a stop is exact; what the parser gets is all of the text from the call on, or the name of a declared tool |
| SseEmitter.Emitter.FlushWindow | lucebox-patch/server/src/server/sse_emitter.cpp:790-835 | the window goes out in the current mode, unless, exactly, it is just the name of a declared tool in an answer of blanks |
| SseEmitter.Emitter.ParseBuffer | lucebox-patch/server/src/server/sse_emitter.cpp:843-1030 | the calls found are kept and sent in the way of the format, and the text left over is shown; without calls only text taken for a call by mistake, or text after a closed reasoning, is |
| SseEmitter.Emitter.SendBlocks | lucebox-patch/server/src/server/sse_emitter.cpp:926-969 | each call of the messages format is a block of its own with the next index, and a client reads just these calls |
| SseEmitter.Emitter.SendCalls | lucebox-patch/server/src/server/sse_emitter.cpp:908-1003 | in every format a client reads the calls found, in order, and nothing else of them |
| SseEmitter.Emitter.Conclude | lucebox-patch/server/src/server/sse_emitter.cpp:843-1028 | whatever is kept for the tool parser is parsed: its calls, the text it adds and the reason are the parser's, and without it nothing changes |
| SseEmitter.Emitter.EndMessages | lucebox-patch/server/src/server/sse_emitter.cpp:1064-1096 | the last block is stopped once, before the message ends, with the stop reason of the finish |
| SseEmitter.Emitter.EndResponse | lucebox-patch/server/src/server/sse_emitter.cpp:1098-1188 | the final list matches the items opened, exactly if no reasoning was reopened or went unsent; the last events close each item of the list, the calls among them, and then send all of it |
| SseEmitter.Emitter.LostIsNotComplete | lucebox-patch/server/src/server/sse_emitter.cpp:1098-1188 | a complete item list carries all of the reasoning |
| SseEmitter.Emitter.EmitFinish | lucebox-patch/server/src/server/sse_emitter.cpp:775-1197 | the end of a stream: what was kept for the tool parser, all of the text from the call on or a tool's name, is parsed and a client reads exactly its calls; the texts are those before with what the parser leaves over; which window counts as a call, exactly; the last events and the finish reason |
| SseCuts.FirstPieceStops | lucebox-patch/server/src/server/sse_emitter.cpp:336-371 | a response whose first piece has a stop sequence shows that piece up to it |
| SseCuts.TwoCuts | lucebox-patch/server/src/server/sse_emitter.cpp:336-371 | two runs of the emitter on the same text, cut differently, that show different texts, whenever a stop sequence hides another |
| SseCuts.LostReasoning | lucebox-patch/server/src/server/sse_emitter.cpp:346-362 | a response in the responses format whose reasoning no event carries |
| SseCuts.CutCharacterShown | lucebox-patch/server/src/server/sse_emitter.cpp:781-789 | a response that shows nothing but what stands for half a character after the stop |
| SseCuts.WrongKind | lucebox-patch/server/src/server/sse_emitter.cpp:346-362 | a response in the messages format with a thinking delta in a text block |
| EventStream.HeartbeatUnseen | lucebox-patch/server/src/server/http_server.cpp:105 | a heartbeat between messages does not change what a client of the standard has read |
| EventStream.BeginningUnseen | lucebox-patch/server/src/server/http_server.cpp:163-188 | nor does any beginning of a heartbeat |
| EventStream.FrameSeen | lucebox-patch/server/src/server/sse_emitter.cpp:156-162 | a frame gives the client exactly its message |
| EventStream.PartSeen | lucebox-patch/server/src/server/http_server.cpp:4772-4801 | a client that has read part of a stream has part of its messages |
| HeartbeatStream.ClientReads | lucebox-patch/server/src/server/http_server.cpp:4803-4828 | whatever heartbeats lie between the frames, a client reads exactly the messages of the frames |
| HeartbeatStream.JobStream.TrySendHeartbeat | lucebox-patch/server/src/server/http_server.cpp:163-188 | what a short write puts on the wire, and what offset is left, for each result; it is given up only because the socket would block or failed |
| HeartbeatStream.JobStream.SendAll | lucebox-patch/server/src/server/http_server.cpp:4772-4801 | all of the data or, if the socket failed, a beginning of it |
| HeartbeatStream.JobStream.SendJobBytes | lucebox-patch/server/src/server/http_server.cpp:4803-4828 | a frame goes out after the rest of a begun heartbeat, never inside it; nothing is written to a lost client |
| HeartbeatStream.JobStream.StartJobStream | lucebox-patch/server/src/server/http_server.cpp:4830-4836 | resetting the offset keeps the stream well formed exactly if no heartbeat was begun |
| HeartbeatStream.JobStream.StopJobStream | lucebox-patch/server/src/server/http_server.cpp:4838-4849 | heartbeats end, and with a send buffer the rest of a begun one goes ahead of the output |
| HeartbeatStream.JobStream.MaybeSendJobHeartbeat | lucebox-patch/server/src/server/http_server.cpp:4851-4876 | exactly if it is due on a ready stream with a client, a heartbeat is tried: the wire gains the rest of it, or its bytes up to the new offset because the socket would block, or the client is lost because the socket failed; the wire stays whole heartbeats and frames and the first bytes of a heartbeat |
| HeartbeatStream.JobStream.FlushSome | lucebox-patch/server/src/server/http_server.cpp:4772-4801 | what the socket takes of the send buffer moves to the wire, and a failure loses the client |
| HeartbeatStream.JobStream.Run | lucebox-patch/server/src/server/http_server.cpp:4322-4353 | under any interleaving and any short writes a connected client sees exactly the submitted messages in order, a lost one the first of them, and from the moment the client is lost nothing more is written; each due look of the monitor at a ready stream tries a heartbeat, and on a socket that takes what it is given adds exactly one to the wire; what each step does to the stream and the send buffer |
| JobQueue.JobQueue.Enqueue | lucebox-patch/server/src/server/http_server.cpp:4606-4621 | a job is linked at the tail or completed as busy, also if shutdown is set between the test and the linking |
| JobQueue.JobQueue.LinkLast | lucebox-patch/server/src/server/http_server.cpp:4616-4619 | linking keeps head, tail and next in agreement with the contents |
| JobQueue.JobQueue.Unlink | lucebox-patch/server/src/server/http_server.cpp:4640-4643 | unlinking the first job keeps them in agreement |
| JobQueue.JobQueue.TryDequeue | lucebox-patch/server/src/server/http_server.cpp:4647-4655 | the first job in order, if any |
| JobQueue.JobQueue.WorkerStep | lucebox-patch/server/src/server/http_server.cpp:4628-4645 | the worker exits exactly if it finds the queue empty while stopping |
| JobQueue.JobQueue.Drain | lucebox-patch/server/src/server/http_server.cpp:1476-1487 | shutdown completes the jobs still linked; after the worker has exited there are none |
| JobQueue.JobQueue.Run | lucebox-patch/server/src/server/http_server.cpp:4248-4255 | under any interleaving every submitted job is linked in order or, from some point on, completed as busy; each look of the worker gets the first job linked, if there is one, and ends it exactly if there is none while stopping; nothing is left then |
| Routing.Router.TryModel | lucebox-patch/server/src/server/http_server.cpp:1868-1882 | a model is tried exactly if it is named or routing is automatic, has not reported unfit, has a free slot and the server is not stopping |
| Routing.Router.Arrive | lucebox-patch/server/src/server/http_server.cpp:1825-1834 | a request is rejected on arrival exactly if it counts tokens and names no model |
| Routing.Router.Reserve | lucebox-patch/server/src/server/http_server.cpp:1874-1883 | a reservation takes one slot and ends the wait; token counting takes none |
| Routing.Router.Answered | lucebox-patch/server/src/server/http_server.cpp:1887-1896 | the answer of a model gives the slot back and decides how the scan goes on |
| Routing.Router.Decide | lucebox-patch/server/src/server/http_server.cpp:1898-1922 | each of the final rejections is given exactly in its case; otherwise the request waits within the limit |
| Routing.Router.Finish | lucebox-patch/server/src/server/http_server.cpp:1840-1866 | a handler that ends no longer counts as waiting |
| Routing.Router.Run | lucebox-patch/server/src/server/http_server.cpp:1825-1928 | under any interleaving, after every step, slots taken equal slots held and stay within capacity, the waiting count is the number of waiting requests and within its limit, and every handler goes on exactly as the loop does from what it finds; only a counting request without a name is rejected on arrival; a request rejected because every model is unfit was told so by each model, tried where the scan had come to it, in a step of its own |
| Routing.Router.Conserved | lucebox-patch/server/src/server/http_server.cpp:1840-1866 | when every handler has ended no slot is taken and nobody counts as waiting |
| Routing.ReservedUpdate | lucebox-patch/server/src/server/http_server.cpp:1840-1855 | one handler changes the slots held by exactly its own |
| ToolCallXml.RenderToolCallXml | lucebox-patch/server/src/server/http_server.cpp:990-1001 | the printed form of a call |
| ToolCallXml.ParseXmlParams | lucebox-patch/server/src/server/tool_parser.cpp:638-666 | the cursor loop reads the parameters the specification reads |
| ToolCallXml.CollectCalls | lucebox-patch/server/src/server/tool_parser.cpp:1352-1365 | the match loop adds the calls the specification adds |
| ToolCallXml.RemoveSpans | lucebox-patch/server/src/server/tool_parser.cpp:1843-1850 | the cleaned text is the text without the spans; of spans one after another it keeps, in order, exactly the characters none of them covers |
| ToolCallXml.WithoutIsUncovered | lucebox-patch/server/src/server/tool_parser.cpp:1843-1850 | the same from any position on |
| Text.TrimIs | lucebox-patch/server/src/server/tool_parser.cpp:1852-1860 | trimming takes what is to go from both ends, all of it, and leaves the rest as it is |
| ToolCallXml.ParseToolCalls | lucebox-patch/server/src/server/tool_parser.cpp:1823-1862 | calls in the order of the text, and the trimmed rest |
| ToolCallSpans.LeavesUncovered | lucebox-patch/server/src/server/tool_parser.cpp:1352-1862 | whatever the text, the calls come in its order, the elements they were read from lie one after another, and what is left are the characters in none of them, trimmed |
| ToolCallSpans.OpenIncluded | lucebox-patch/server/src/server/tool_parser.cpp:331-340 | a tool_call tag before an element goes with it exactly if only blanks lie between |
| ToolCallReplay.ParsesPrinted | lucebox-patch/server/src/server/tool_parser.cpp:1352-1365 | printed calls to allowed tools, whose values hold no ending of a parameter or function and no opener of an earlier pattern, are read back: same names, same order, values as typed and short of one final carriage return, nothing left over |
| ToolCallReplay.ParsesAmong | lucebox-patch/server/src/server/tool_parser.cpp:1352-1862 | printed calls among any texts free of the less-than sign are read back the same, and what is left is those texts with the line end after each call, trimmed |
| ToolCallReplay.RoundTrip | lucebox-patch/server/src/server/http_server.cpp:1012-1031 | calls whose parameters are declared as strings or not declared come back exactly as they were if and only if no value holds one of the three endings, ends in a carriage return, or is null for a parameter that is not declared |
| ToolCallReplay.PatchReplay | lucebox-patch/server/src/server/tool_parser.cpp:1190-1212 | a replayed patch comes back unwrapped, and as it was if and only if it holds none of the endings and no final carriage return |
| ToolCallReplay.ParsedClean | lucebox-patch/server/src/server/tool_parser.cpp:638-666 | whatever the text, no value read and not coerced holds an ending |
| ToolCallReplay.MatchHeadOf | lucebox-patch/server/src/server/tool_parser.cpp:383-386 | a printed call is matched from its opening to its closing tag |
| ToolCallReplay.AddParamsOf | lucebox-patch/server/src/server/tool_parser.cpp:638-666 | printed parameters are read back one by one |
| ToolCallReplay.LineEndsDropped | lucebox-patch/server/src/server/tool_parser.cpp:654-661 | dropping line ends of either kind around a value loses exactly a carriage return before a bare line feed |
| ToolCallReplay.TextsLeft | lucebox-patch/server/src/server/tool_parser.cpp:1843-1860 | between, before and after printed calls the texts are left, and the line end after each call |

## Left out

- Device graphs, floating point, the drafter networks and their projections: the target is an arbitrary function, and the tree builder and drafter return anything.
- Sampled verification, the sampler and output distributions.
- Handoffs from speculative to plain decoding (budget close, token floor, stall recovery, invalid seed), where the loops forward a token the other has already taken in.
- The continuation mode of the plain loop, which starts with tokens already emitted.
- The recurrent state in live-pool continuation: it is not rolled back to the matched prefix, so only the addressing of attention rows is claimed.
- `KvFlashPager` is not part of this model's sources: that a chunk in host memory comes back with its rows, that free blocks are taken in order, that a reset forgets all chunks and that a batch does not evict its own are what the comments beside its calls say of it; scores and the choice of victims are arbitrary.
- Prefill.Backend.SpecDecode: the rows of a tree step go through the page table like those of a chain step; where its direct writes land when the pager maps chunks above the committed position elsewhere depends on the target class. A speculative reply that tails off into the plain loop is not modelled as one.
- Prefill.Backend.Serve: the guard is not in the source, which continues without it; a prompt the pool wholly holds ends the run, because the decode after it may lose the premise.
- Restored snapshots, the disk cache and the prefix cache.
- `DFlashTarget` and the tree walk helper are not part of this model's sources; their contracts are those the decode loop relies on.
- A fast rollback followed by a failing replay, and other failures of target operations, end the run; retries above the backend are not modelled.
- Text utilities not in the repository (sanitizing, cutting between characters) and the tool parser are arbitrary functions in the emitter, known only to leave valid text alone and to stay in range.
- The index of the first content token, item identifiers, token usage, timings and the text of the frames; an emitter event stands for one frame.
- Output indices of calls in the responses format: with calls, the events and the final list are claimed, not the item protocol.
- SseEmitter.Emitter.Respond: where a call is seen is what the search for tool syntax, an arbitrary function, says of the window it is given; what is shown when a stop sequence fires is claimed for texts without tags in which no call was seen, because the search looks at the window only, from which tags have been taken out.
- HTTP parsing, the response header, polling and deadlines; a send result is whatever the socket does, and a run makes finitely many calls.
- HeartbeatStream.JobStream.Run: frames are whole messages, because forwarded upstream chunks need not end where a message does; the send buffer's own class is not part of this model, only that it writes its bytes in order.
- Condition variables and wake-ups: a waiting thread may look again at any time, so nothing is claimed about when it does.
- Routing by priority: which of several free models is taken is stated step by step, in the order of the scan, not as a property of whole runs.
- ToolCallReplay.RoundTrip: keys hold no angle brackets and no outer spaces, and values hold neither `<tool_call>` nor `<arg_key>`, with which the patterns tried earlier begin.
- The other tool-call patterns, JSON and relaxed JSON, identifiers and namespaces of calls; after printed calls only blanks are left for those patterns to look at, and among other texts those texts, in which a bare object may be taken for a call.
- ToolCallXml.ParseToolCalls: the library's sorts are modelled as stable insertion sorts, and the type coercion of parameters that are not strings is an arbitrary function.
- Replays out of the tool memory, which repeat the raw text.
