# Verified model of the inference runtime's control logic

A Dafny model of the parts of a local LLM serving stack that decide what happens: which slot,
cache entry, request or frame comes next, and what may be forgotten. Each component is modelled
as values with pure step functions, what every step keeps is proved once, and the results are
about whole runs. Where the program updates state in place, a class or a method with loops does
the same and is proved equal to the step function.

| file | component |
|---|---|
| `Basics.dfy` | shared types |
| `Utf8.dfy` | incremental UTF-8 decoder and whole-string validator |
| `PhaseController.dfy`, `PhaseHistory.dfy` | marker-driven reasoning/final phase machine; the same told by the tokens alone |
| `SlotEngine.dfy`, `SlotAnswers.dfy` | slot allocator with generations, token ledger, round robin |
| `KvMemory.dfy`, `PromptCache.dfy`, `PromptCacheAnswers.dfy` | native prefix/session prompt cache over KV memory; what it answers, on its entries' fields |
| `Generation.dfy`, `NativeRuntime.dfy`, `RuntimeSteps.dfy`, `RuntimeTransparency.dfy`, `SequenceHistory.dfy`, `RuntimeIncidents.dfy`, `CommandLoop.dfy` | the open/prefill/decode/release command loop that drives the four above, cache transparency, histories of single sequences |
| `GenerationHistory.dfy`, `RuntimeEndings.dfy`, `RuntimeAnswers.dfy`, `CommandAnswers.dfy` | how a sequence goes on and ends, told by its tokens; which commands are taken and how far they go, what they offer the cache, from where a sequence opens |
| `AgentLog.dfy`, `LogHistory.dfy` | event-sourced agent runs, the append log; which logs replay, told by the events alone |
| `AgentProtocol.dfy`, `AgentTurn.dfy`, `TurnSteps.dfy` | interleaved turns, the script each turn follows, what the permission gate decides |
| `Json.dfy`, `Surrogates.dfy`, `OutputContract.dfy`, `GrammarForms.dfy`, `ContractAgreement.dfy`, `SchemaMeaning.dfy` | schema to contract to grammar, against the validator and against the schema itself |
| `Fairness.dfy`, `SelectionMeaning.dfy` | three-level weighted fair selection; who is served, by classes, clocks and shares |
| `Simulator.dfy`, `SchedulerEvents.dfy`, `SimulatorMeaning.dfy` | deterministic scheduler, bounded overtaking, what it publishes, what a tick does |
| `LeaseCache.dfy`, `LeaseBooks.dfy`, `LeaseSafety.dfy`, `LeaseAnswers.dfy` | bounded lease cache with copy-on-write; what it answers, on its entries' fields |
| `Quota.dfy`, `QuotaAnswers.dfy` | nested admission quotas under the scheduler's loop, batch budgets |
| `FrameStream.dfy`, `JobHistory.dfy` | frame producer, protocol verifier, which jobs complete |
| `EventBuffer.dfy`, `EventAnswers.dfy` | bounded event buffer |

Main results: `RuntimeTransparency.CacheTransparency`, `AgentProtocol.AtMostOnce`,
`AgentProtocol.SuccessIsEarned`, `ContractAgreement.GrammarAgreesWithValidator`,
`Utf8.FinishIffWellFormed`, `PhaseController.WindowRefinesHistory`,
`SequenceHistory.DeltasMatchFinalText`, `SequenceHistory.CommitsExactly`, `Fairness.WeightedFairness`,
`Simulator.NoStarvation`, `LeaseSafety.LeaseCacheIsSound`, `Quota.NestedQuotaSafety`,
`FrameStream.ProducerConforms`, `EventBuffer.OutputIsLossless`, `SlotEngine.BoundedWait`.

Beside the step functions stands what each operation has to do, said without them: of the tokens
consumed (`PhaseHistory.LiveExactly`, `PhaseHistory.ReportsExactly`,
`GenerationHistory.ReferenceStands`, `RuntimeEndings.EndsByTokens`, `JobHistory.JobCompletesExactly`),
of the events logged (`LogHistory.LegalExactly`, `AgentTurn.CallsAreAllowed`,
`AgentTurn.TurnsFollowScript`, `TurnSteps.TurnGoesOn`), of the schema
(`SchemaMeaning.AcceptsExactly`, `SchemaMeaning.GrammarMeansSchema`) and of the fields of what is
stored or waiting (`LeaseAnswers.AnswersOverRuns`, `PromptCacheAnswers.CaptureExactly`,
`SelectionMeaning.SelectExactly`, `SimulatorMeaning.TicksOverRuns`, `QuotaAnswers.AdmitExactly`,
`EventAnswers.AnswersOverRuns`). Each is an equivalence: it says when the operation succeeds as
well as when it refuses.

A slot's KV memory is a sequence of (position, token) cells: decoding appends, snapshot and
restore copy. The sampler is an arbitrary function of that memory, the phase, the tokens the
grammar has accepted and the grammar. Clocks, backend answers, cancellation and failures are
inputs, so every statement is for all of them. Identifiers derived by hashing are modelled as
injective, fresh identifiers as a counter.

Four places where the code does less than one might expect are stated exactly, each with a run
from a fresh start in which it happens:

- a release with a stale generation: `StaleReleaseExact`, `StaleReleaseHappens`;
- a prefill batch abandoned by a refused session commit: `AbandonedStepExact`, `AbandonedStepHappens`;
- a lease released once too often: `SurplusReleaseExact`, `RepeatedReleaseExact`, `DoubleReleaseHappens`;
- a sequence opened under a handle that fails a check: `OpenedIsKeptExactly`,
  `OpenedIsReleasedOrDropped`, `ForeignHandleIsDropped`, `SharedHandleIsDropped`. The simulator drops
  it unreleased, although inference_runtime/README.md says that an opened sequence is released before
  its terminal event; the statement holds of the sequences that were kept.

`dafny verify dfyconfig.toml` checks the whole project.

## Model

| member | source | states |
|---|---|---|
| Utf8.PeekMatchesGrammar | native/generation_safety.cpp:25-54 | the accumulator's lead-byte ranges, bit arithmetic and range checks accept the front of a buffer as a character exactly when it is one of the byte patterns of section 4 of RFC 3629 |
| Utf8.ScanCompleteIffWellFormed | native/generation_safety.cpp:24-56 | the greedy scan consumes a whole string exactly when the string is well-formed UTF-8 |
| Utf8.ScanResumes | native/generation_safety.cpp:20-60 | scanning a string cut in two, carrying the unfinished tail over, is scanning it in one piece |
| Utf8.FeedAllTracks | native/generation_safety.cpp:57-59 | after any chunks: valid exactly while the whole input scans, and then what was handed out followed by what is held back is the input |
| Utf8.FinishIffWellFormed | native/generation_safety.cpp:20-60 | for every way of cutting a byte string, `finish` is true exactly when the string is well-formed UTF-8 |
| Utf8.ChunkingIsInvisible | native/generation_safety.cpp:20-60 | two ways of cutting one byte string agree on validity and, while valid, on everything handed out and held back |
| Utf8.ScanBreaksExactly | native/generation_safety.cpp:20-60 | the scan breaks exactly on input in which, after complete characters, stands a front that no character begins with or that is not the character its first byte calls for |
| Utf8.InvalidIffRefusable | native/generation_safety.cpp:20-60 | for every way of cutting a byte string, the accumulator turns invalid exactly if the string is refusable in that sense |
| Utf8.Utf8Accumulator.Append | native/generation_safety.cpp:20-60 | the loop over `pending_` computes `Feed`: new state, completed bytes and verdict |
| Utf8.ValidUtf8 | controlled_inference/persistent_worker.cpp:52-81 | the whole-string validator returns true exactly on well-formed UTF-8, hence exactly when the accumulator finishes |
| PhaseController.WindowRefinesHistory | native/reasoning_phase_controller.cpp:29-38 | on every run the controller with its bounded window and the machine that remembers every token are in the same phase with the same counters and answer alike at every token |
| PhaseController.SuffixIsExact | native/reasoning_phase_controller.cpp:35-38 | while live, `suffix_is(marker)` holds exactly when the whole consumed history ends with the marker |
| PhaseController.RunStaysInBudget | native/reasoning_phase_controller.cpp:49-57 | on every run reasoning + final <= sampled <= reasoning + final + 1 and sampled <= total + 1; while live each counter is within its budget and sampled is the number of tokens consumed; no run stays live past its total budget |
| PhaseController.MilestonesInOrder | native/reasoning_phase_controller.cpp:67-84 | start of reasoning, activation of the final grammar and completion each occur at most once and in that order; which marker causes which is PhaseHistory.ReportsExactly |
| PhaseController.FailureAbsorbs | native/reasoning_phase_controller.cpp:40-48 | once a token has failed the machine stays in error and every later token fails |
| PhaseController.ReasoningPhaseController.Take | native/reasoning_phase_controller.cpp:45-85 | `consume` in place: result and new state are those of the specification's step, of which PhaseHistory.ReportsExactly says, on the tokens, what every marker, end and budget causes |
| PhaseController.ReasoningPhaseController.Conclude | native/reasoning_phase_controller.cpp:60-84 | the part of `consume` after the budgets, equal to `Decide`; that `Decide` moves the right phase on the right marker is PhaseHistory.LiveExactly |
| PhaseController.ReasoningPhaseController.Push | native/reasoning_phase_controller.cpp:29-33 | remembers the token and forgets the oldest past the window's limit |
| PhaseController.ReasoningPhaseController.Refuse | native/reasoning_phase_controller.cpp:40-43 | moves to the error phase with the reason |
| PhaseHistory.LiveExactly | native/reasoning_phase_controller.cpp:45-85 | over every run, from the tokens alone: the controller is live exactly while no token ended the generation, the start marker and then the end marker have ended at most once and in that order, and every budget was kept; then it expects the start until a prefix ends with the start marker, is final from the first prefix that ends with the end marker, reasons in between, and its counters are the lengths of those parts |
| PhaseHistory.ReportsExactly | native/reasoning_phase_controller.cpp:45-85 | over every run, for the next token: the exact condition, on the tokens before it, for every action and for every error code: three budgets, the two ends that come too early, the two markers in the wrong place, the marker after the final phase; after an end every token fails |
| PhaseHistory.CompletesExactly | native/reasoning_phase_controller.cpp:60-66 | a run has completed exactly if its last token and no earlier one ends the generation, accepted by the grammar, after the end marker and within the total budget |
| SlotEngine.AdmitIsExact | native/sequence_engine.cpp:23-68 | `admit` succeeds exactly when its stated checks pass (a free slot, a fresh request/attempt pair, room for the reservation); the fall-through after the search is unreachable; a refusal changes nothing |
| SlotEngine.RunKeepsLedger | native/sequence_engine.cpp:23-204 | in every reachable state the reserved tokens and active count are the sum and count over live slots, within capacity, without overflow or underflow, and live slots carry distinct request/attempt pairs |
| SlotEngine.ReleaseKeepsLedger | native/sequence_engine.cpp:163-191 | a release gives back exactly the slot's reservation and one sequence |
| SlotEngine.ReleasedForever | native/sequence_engine.cpp:163-256 | after a successful release, absent generation wrap, the handle never matches again whatever operations follow, and every operation given it changes nothing |
| SlotEngine.RetiredForever | native/sequence_engine.cpp:223-256 | a handle its slot has moved past stays past, whatever operations follow, absent generation wrap |
| SlotEngine.BoundedWait | native/sequence_engine.cpp:193-204 | a slot that stays runnable is handed out within `max_sequences` calls of `next_runnable`, whatever else is interleaved, and until then no other slot is handed out twice |
| SlotAnswers.OperationsExactly | native/sequence_engine.cpp:70-161 | each operation on a handle answers stale exactly if the handle does not name a live sequence, else by lifecycle and amounts left; applied, it moves that sequence and nothing else; a cancelled sequence ends with reason Cancelled |
| SlotAnswers.AdmitExactly | native/sequence_engine.cpp:23-68 | the exact condition for each answer of an admission; the sequence gets the lowest free slot under the next generation |
| SlotAllocator.SequenceEngine.Admit | native/sequence_engine.cpp:23-68 | in place, keeps the ledger and does to the whole state what the operation of the same name in `SlotEngine` says |
| SlotAllocator.SequenceEngine.StartPrefill | native/sequence_engine.cpp:70-80 | in place, keeps the ledger and does to the whole state what the operation of the same name in `SlotEngine` says |
| SlotAllocator.SequenceEngine.AdvancePrefill | native/sequence_engine.cpp:82-102 | in place, keeps the ledger and does to the whole state what the operation of the same name in `SlotEngine` says |
| SlotAllocator.SequenceEngine.AdvanceDecode | native/sequence_engine.cpp:104-121 | in place, keeps the ledger and does to the whole state what the operation of the same name in `SlotEngine` says |
| SlotAllocator.SequenceEngine.Finish | native/sequence_engine.cpp:123-144 | in place, keeps the ledger and does to the whole state what the operation of the same name in `SlotEngine` says |
| SlotAllocator.SequenceEngine.Cancel | native/sequence_engine.cpp:146-161 | in place, keeps the ledger and does to the whole state what the operation of the same name in `SlotEngine` says |
| SlotAllocator.SequenceEngine.Release | native/sequence_engine.cpp:163-191 | in place, keeps the ledger; the wrapping subtractions never wrap |
| SlotAllocator.SequenceEngine.NextRunnable | native/sequence_engine.cpp:193-204 | in place, keeps the ledger and does to the whole state what the operation of the same name in `SlotEngine` says |
| SlotAllocator.SequenceEngine.Scan | native/sequence_engine.cpp:193-204 | the modulo scan from the cursor finds the first runnable slot |
| SlotAllocator.SequenceEngine.IsDuplicate | native/sequence_engine.cpp:258-272 | finds a live slot with the pair exactly when there is one |
| PromptCache.PruneIsExact | native/inference_runtime_main.cpp:668-679 | pruning removes exactly the expired entries |
| PromptCache.StoreKeeps | native/inference_runtime_main.cpp:409-443 | `store` keeps byte and entry bounds, uniqueness per identity and tokens, and that every snapshot is the memory of exactly its tokens |
| PromptCache.StoreSessionKeeps | native/inference_runtime_main.cpp:513-582 | `store_session` keeps the same; live entries of a session keep distinct generations, distinct commit keys and at most one root |
| PromptCache.RestoreKeeps | native/inference_runtime_main.cpp:340-407 | `restore` keeps bounds, uniqueness and faithful snapshots, on a hit, a miss or a failed copy |
| PromptCache.RestoreSessionKeeps | native/inference_runtime_main.cpp:445-493 | `restore_session` likewise, for a named generation |
| PromptCache.CaptureKeeps | native/inference_runtime_main.cpp:622-666 | evicting for a capture and storing the snapshot keep bounds, uniqueness and faithful snapshots, whether the copy succeeds or not |
| PromptCache.BestIsUniqueLongest | native/inference_runtime_main.cpp:349-380 | `restore` finds an entry exactly when an eligible one is live, and it is the unique longest: the tie-break never decides |
| PromptCache.UniqueHit | native/inference_runtime_main.cpp:340-582 | no query by tokens, generation, commit key or root has two live answers |
| PromptCache.CommitIsIdempotent | native/inference_runtime_main.cpp:525-542 | repeating a live commit with the same key, parent and tokens returns the same generation and inserts nothing; with another parent or tokens it fails |
| PromptCache.CommitThenRestore | native/inference_runtime_main.cpp:445-582 | a commit just made can be restored by its generation while it is live |
| PromptCacheAnswers.PrunedIsLive | native/inference_runtime_main.cpp:668-679 | pruning leaves the entries used less than the time to live ago, in their order, with their bytes counted |
| PromptCacheAnswers.RestoreExactly | native/inference_runtime_main.cpp:340-407 | `restore` hits exactly if the cache is on, the prompt has two tokens, the backend takes the snapshot and some live prefix entry of this identity, of at least 16 tokens, is properly extended by the prompt; it answers with the longest of them, the memory of that part of the prompt, marks only that entry as used, and otherwise leaves the live entries |
| PromptCacheAnswers.RoomMade | native/inference_runtime_main.cpp:632-650 | making room removes the least recently used entries, the earlier filed of equals first, and the last one removed had to go |
| PromptCacheAnswers.CaptureExactly | native/inference_runtime_main.cpp:622-666 | `capture` stores exactly if the snapshot has a size, the budgets could ever hold it and the backend wrote between one and that many bytes; what is left is what OldestWent allows, with the new entry last |
| PromptCacheAnswers.StoreExactly | native/inference_runtime_main.cpp:409-443 | `store` refreshes the live entry of the same identity and tokens if there is one and captures a new one exactly otherwise |
| PromptCacheAnswers.RestoreSessionExactly | native/inference_runtime_main.cpp:445-493 | `restore_session` hits exactly on the live entry of that session and generation, if the prompt properly extends it and the backend takes it |
| PromptCacheAnswers.RootAllowedExactly | native/inference_runtime_main.cpp:495-511 | a root is allowed exactly if no live entry of the session has another commit key |
| PromptCacheAnswers.StoreSessionExactly | native/inference_runtime_main.cpp:513-582 | `store_session`: a commit key that is live is answered with its generation, or refused if parent or tokens differ; a second root is refused; anything else is captured as one more than the largest live generation, a clone exactly if the parent has a child |
| PromptCacheObject.PromptStateCache.Restore | native/inference_runtime_main.cpp:340-407 | the loops over `entries_` and the byte count, updated in place, compute the specification of the same name |
| PromptCacheObject.PromptStateCache.Store | native/inference_runtime_main.cpp:409-443 | the loops over `entries_` and the byte count, updated in place, compute the specification of the same name |
| PromptCacheObject.PromptStateCache.RestoreSession | native/inference_runtime_main.cpp:445-493 | the loops over `entries_` and the byte count, updated in place, compute the specification of the same name |
| PromptCacheObject.PromptStateCache.SessionRootAllowed | native/inference_runtime_main.cpp:495-511 | the loops over `entries_` and the byte count, updated in place, compute the specification of the same name |
| PromptCacheObject.PromptStateCache.StoreSession | native/inference_runtime_main.cpp:513-582 | the loops over `entries_` and the byte count, updated in place, compute the specification of the same name |
| PromptCacheObject.PromptStateCache.Capture | native/inference_runtime_main.cpp:622-666 | the loops over `entries_` and the byte count, updated in place, compute the specification of the same name |
| PromptCacheObject.PromptStateCache.Prune | native/inference_runtime_main.cpp:668-679 | the loops over `entries_` and the byte count, updated in place, compute the specification of the same name |
| Generation.ReferenceOk | native/inference_runtime_main.cpp:1743-1857 | along the uncached, unbatched run of a job: controller counts, UTF-8 state and text handed out always agree with the tokens generated, below the total budget while not over |
| Generation.ReferenceGrows | native/inference_runtime_main.cpp:1743-1857 | that run only extends: tokens and text of an earlier point are prefixes of a later one's, and an ended run stays as it is |
| Generation.ReferenceEnds | native/inference_runtime_main.cpp:1743-1857 | every job ends within its total budget |
| Generation.FinishedTextIsDelivered | native/inference_runtime_main.cpp:1797-1857 | a run that ends without failure has handed out all of its final text, which is well-formed UTF-8; when it ends without failure is GenerationHistory.TokenEndsExactly and ReferenceStands |
| GenerationHistory.TokenEndsExactly | native/inference_runtime_main.cpp:1783-1853 | one token on a generation that goes on: it ends without failure exactly if the token is end-of-generation, the final grammar was active, the total budget allows it and the final bytes are well-formed UTF-8; and the exact conditions for incomplete_utf8, invalid_utf8, total_budget_exhausted and for going on |
| GenerationHistory.ReferenceReadOff | native/inference_runtime_main.cpp:1743-1857 | at every point of the run of a job the controller, the tokens the final grammar accepted and the final text are functions of the tokens generated, and a failure is the one its last token calls for |
| GenerationHistory.ReferenceStands | native/inference_runtime_main.cpp:1743-1857 | the run of a job goes on, has ended well, or has ended in incomplete_utf8, invalid_utf8 or total_budget_exhausted exactly if its tokens satisfy the condition of that name; what ended well has handed out exactly the final text of its tokens |
| GenerationHistory.ReferenceSamples | native/inference_runtime_main.cpp:1743-1857 | every token was sampled from the memory of prompt and earlier tokens, under the grammar exactly after the end marker |
| RuntimeSteps.OpenOk | native/inference_runtime_main.cpp:1155-1418 | `open_sequence`, accepted or refused, keeps the invariant of all lanes, the ledger and the cache |
| RuntimeSteps.LookUpOk | native/inference_runtime_main.cpp:1350-1408 | whatever a lookup restores is a proper prefix of the prompt and the memory of exactly those tokens |
| RuntimeSteps.AdvanceOk | native/inference_runtime_main.cpp:1465-1544 | a prefill chunk of any size leaves memory = processed prompt, and a lane that becomes ready to decode holds the prompt without its last token |
| RuntimeSteps.CheckpointOk | native/inference_runtime_main.cpp:1545-1590 | what a checkpoint or session commit stores is the memory of exactly the tokens it is filed under |
| RuntimeTransparency.PrefillAllOk | native/inference_runtime_main.cpp:1420-1597 | a prefill command keeps the invariant, touches only the lanes it names, and its memory is that of one backend batch |
| RuntimeSteps.LockStep | native/inference_runtime_main.cpp:1655-1855 | while a sequence decodes, engine decoded_tokens = controller sampled_tokens = tokens generated < total budget |
| RuntimeSteps.DecodeOneIsLane | native/sequence_engine.cpp:104-144 | so `advance_decode` and `finish` always apply: a decode round never reaches its throw |
| RuntimeTransparency.DecodeAllOk | native/inference_runtime_main.cpp:1599-1919 | batching is invisible: a decode command takes every lane exactly where it would get alone with its own budget |
| RuntimeTransparency.ReleaseOk | native/inference_runtime_main.cpp:1921-1989 | a release naming the slot's owner frees the slot, wipes its memory and keeps the invariant |
| RuntimeTransparency.StaleReleaseExact | native/inference_runtime_main.cpp:1921-1989 | a release with a stale generation breaks the present owner's lane if and only if that owner is still running and has any memory |
| RuntimeTransparency.AbandonedStepExact | native/inference_runtime_main.cpp:1420-1597 | when a session commit is refused inside a prefill batch, a later step of the batch is left out of step with its memory if and only if it decoded anything |
| RuntimeTransparency.ReachedOk | native/inference_runtime_main.cpp:1128-1989 | in every state reached by clean commands each snapshot is the memory of its own tokens, a prefilling lane holds the processed prompt, a decoding lane prompt and output up to the pending token |
| RuntimeTransparency.CacheTransparency | native/inference_runtime_main.cpp:1128-1989 | cache transparency: two sequences running the same job in any two runtimes, with any caches, sizes, chunk budgets, decode quanta and batch-mates, generate the same tokens and text, one a prefix of the other, and end alike |
| RuntimeTransparency.SequencesOpen | native/inference_runtime_main.cpp:1155-1418 | on a fresh runtime without a cache every request that passes the checks and fits the capacity opens, so the statements about reached states have instances |
| RuntimeTransparency.DecodeEnds | native/inference_runtime_main.cpp:1655-1862 | a decode quantum as large as what is left of the output budget ends the sequence |
| RuntimeTransparency.OutcomeInBounds | native/inference_runtime_main.cpp:1864-1914 | each outcome carries between one token and its budget, exactly the budget if the sequence goes on |
| RuntimeEndings.EndsByTokens | native/inference_runtime_main.cpp:1743-1914 | in every state reached by clean commands: a sequence past its prompt decodes exactly while its tokens may go on, is terminal with reason Stop exactly if they end well, having handed out their final text, and failed with each error exactly under its condition on the tokens |
| RuntimeAnswers.OpenableExactly | native/inference_runtime_main.cpp:1155-1276 | the checks made before anything is touched all pass exactly if the request is openable: identity, limits, markers, context, and for a session the cache, a private scope and a proper prefix |
| RuntimeAnswers.OpenTakenExactly | native/inference_runtime_main.cpp:1155-1418 | in every sound state a request opens exactly if it is openable, its session is its own (a new root) or has the named live parent as a proper prefix of the prompt, and the engine has a free slot, the tokens, and not this request already |
| RuntimeAnswers.StepIsLargest | native/inference_runtime_main.cpp:1465-1495 | a prefill step accounts for the largest number of tokens within its budget and the prompt that does not pass the session prefix still to commit, or the next multiple of 64 tokens; it decodes all of them but the prompt's last |
| RuntimeAnswers.OffersExactly | native/inference_runtime_main.cpp:1545-1590 | what a step offers the cache, and when: the session prefix once the memory is exactly that far, the prompt so far without a session, nothing otherwise |
| RuntimeAnswers.OpensExactly | native/inference_runtime_main.cpp:1350-1418 | a sequence opens with exactly the part of the prompt that the cache finds for it, from nothing if it finds none, and is refused with its slot freed if a parent was named and not found |
| CommandAnswers.DecodeExactly | native/inference_runtime_main.cpp:1599-1919 | a decode command is taken exactly if its quanta name different decoding sequences by their generations, within the batch size, the quantum and the tick budget; then each named sequence goes on by exactly its budget, or by less and has ended, and every other slot and the cache stay as they were; otherwise nothing happens |
| CommandAnswers.PrefillRejectedExactly | native/inference_runtime_main.cpp:1422-1500 | a prefill command is rejected, with nothing done, exactly if its steps do not each name a different prefilling sequence with a budget within the chunk, or decode more together than the tick or batch budget |
| CommandAnswers.PrefillTookAll | native/inference_runtime_main.cpp:1501-1597 | a prefill command that does not fail takes every sequence it names on by exactly its step, to decoding exactly at the end of the prompt |
| SequenceHistory.TextSentIsDelivered | native/inference_runtime_main.cpp:1797-1857 | in every run the text deltas of the decode commands since a sequence was opened are the text it has completed, whatever other commands come in between |
| SequenceHistory.DeltasMatchFinalText | inference_runtime/continuous_scheduler.py:680-738 | in every run, under any decode budgets and with any other commands in between, the text deltas handed out for a sequence that has finished concatenate to its final text, so the scheduler's delta check never fires |
| SequenceHistory.CommitsExactly | native/inference_runtime_main.cpp:1470-1553 | in every reached state in which a sequence that asked for a session commit is past prefilling, it has committed if and only if it opened with fewer restored tokens than its session prefix, or with exactly the prefix and only the last prompt token to go |
| SequenceHistory.OwnerStep | native/inference_runtime_main.cpp:1155-1989 | what a clean command does to a slot's owner: nothing, a new sequence, one prefill step, or decoded tokens whose completed text is the command's delta |
| RuntimeIncidents.StaleReleaseHappens | native/inference_runtime_main.cpp:1921-1989 | a run of clean commands from a fresh start after which releasing the handle of the slot's earlier owner breaks the present one |
| RuntimeIncidents.AbandonedStepHappens | native/inference_runtime_main.cpp:1525-1569 | a run of clean commands from a fresh start after which a two-step prefill command fails on a refused session commit and leaves its second sequence out of step |
| CommandLoop.NativeWorker.StepIsValid | native/inference_runtime_main.cpp:1439-1497 | accepts a prefill step exactly when it stands |
| CommandLoop.NativeWorker.PrefillIsValid | native/inference_runtime_main.cpp:1422-1500 | accepts a prefill command exactly when its steps stand, name distinct slots and fit the tick and batch budgets |
| CommandLoop.NativeWorker.DecodePrompts | native/inference_runtime_main.cpp:1501-1524 | filling the one backend batch gives every named slot its own prompt tokens |
| CommandLoop.NativeWorker.Book | native/inference_runtime_main.cpp:1525-1590 | books one step in place: counters, engine, checkpoint or session commit |
| CommandLoop.NativeWorker.Prefill | native/inference_runtime_main.cpp:1420-1597 | the whole prefill command equals the specification, which treats the sequences one by one |
| CommandLoop.NativeWorker.Digest | native/inference_runtime_main.cpp:1783-1853 | what the loop does with one sampled token, statement by statement, is `Absorb`; GenerationHistory.TokenEndsExactly says of that when it ends well and when in which error |
| CommandLoop.NativeWorker.Speak | native/inference_runtime_main.cpp:1797-1812 | feeds a final-phase token to the decoder and hands out what is complete |
| CommandLoop.NativeWorker.Round | native/inference_runtime_main.cpp:1743-1857 | one sequence's share of a decode round, through the engine's operations |
| CommandLoop.NativeWorker.DecodeIsValid | native/inference_runtime_main.cpp:1600-1653 | accepts a decode command exactly when it stands |
| CommandLoop.NativeWorker.Pass | native/inference_runtime_main.cpp:1655-1862 | one pass of the batch loop gives every sequence with work left one round |
| CommandLoop.NativeWorker.Decode | native/inference_runtime_main.cpp:1599-1919 | the whole round-robin decode command equals running every sequence alone; how each then stands is RuntimeEndings.EndsByTokens |
| AgentLog.ReplayAll | agent_runtime/reducer.py:66-194 | the event loop computes `Replay`, the prefix fold |
| AgentLog.PrefixLegal | agent_runtime/reducer.py:66-74 | every non-empty prefix of a legal log is legal |
| AgentLog.LegalOrdered | agent_runtime/reducer.py:174-185 | results are of dispatched invocations, dispatched ones are known and at or past AUTHORIZED, and the version is the length of the log |
| AgentLog.TerminalAbsorbs | agent_runtime/reducer.py:92-103 | once a run's lifecycle is terminal no legal event changes it |
| AgentLog.BudgetConserved | agent_runtime/reducer.py:66-194 | per category, what remains plus what the log consumed is what the run was created with, and it never goes below zero |
| AgentLog.StateMirrorsLog | agent_runtime/reducer.py:164-190 | the replayed sets of proposals, dispatches and results are exactly those in the log |
| AgentLog.DispatchOnce | agent_runtime/reducer.py:174-179 | a legal log starts each invocation at most once |
| AgentLog.AppendKeepsStore | agent_runtime/event_store.py:60-90 | an append keeps every log legal and every unique key held by one event of the whole store |
| AgentLog.DispatchedInOnePlace | agent_runtime/event_store.py:60-90 | no invocation is started twice anywhere in the store, within a run or across runs |
| LogHistory.TakesExactly | agent_runtime/reducer.py:66-194 | the reducer takes an event after a log exactly if it fits the events before it: transitions from where the run or the invocation last moved, proposals and claims that are new, budgets with enough left, a dispatch of an authorized invocation, one result after its dispatch, a verdict of the gate |
| LogHistory.LegalExactly | agent_runtime/reducer.py:66-194 | a log replays if and only if it begins with a creation with valid budgets and every later event fits the prefix before it |
| LogHistory.StateExactly | agent_runtime/reducer.py:66-194 | the replayed lifecycles, budgets and version are the ones read off the events |
| LogHistory.AppendExactly | agent_runtime/event_store.py:60-90 | one event is appended exactly if the version is current, the event fits the log and its unique claims are free in the whole store; otherwise nothing is stored |
| AgentEventStore.EventStore.Load | agent_runtime/event_store.py:92-110 | returns the stored log |
| AgentEventStore.EventStore.Append | agent_runtime/event_store.py:60-90 | version check, replay of the candidate, then the unique indexes; nothing is stored unless all pass |
| AgentProtocol.ReachedOk | agent_runtime/service.py:87-272 | the invariant of all instances, the store and the executor's calls holds after every interleaving of any number of instances, stopped anywhere; what the permission gate decides is AgentTurn.CallsAreAllowed and RefusedTurnsStop |
| AgentProtocol.AtMostOnce | agent_runtime/service.py:204-232 | the executor is called at most once per invocation over every interleaving |
| AgentProtocol.SuccessIsEarned | agent_runtime/service.py:232-272 | SUCCEEDED stands in a log only after an accepted verdict that stands after a succeeded result, both for one invocation |
| AgentProtocol.RecoveryIsSafe | agent_runtime/service.py:274-281 | unless `recover` answers reconcile_only, every execution started for the run has its result in the log |
| AgentTurn.AtItsLine | agent_runtime/service.py:112-272 | the event an instance appends at each point is the line of its turn's script it is at |
| AgentTurn.TurnsFollowScript | agent_runtime/service.py:112-272 | over every interleaving each instance has appended exactly the first lines of the script of its turn, in order, and has called the executor only at its place in the script of an allowed call |
| AgentTurn.WritersKnown | agent_runtime/service.py:112-272 | every record in the store is a line that some instance wrote |
| AgentTurn.CallsAreAllowed | agent_runtime/service.py:200-232 | an instance that has called the executor runs a tool call that the permission gate allowed, with the authorization and the dispatch in its log; every call ever made was made by such an instance |
| AgentTurn.DispatchesAreAllowed | agent_runtime/service.py:200-215 | wherever a dispatch stands in the store, an instance wrote it whose turn is a call of that invocation that the gate allowed |
| AgentTurn.DeniedStays | agent_runtime/reducer.py:104-116 | a denied invocation stays denied whatever legal events follow |
| AgentTurn.RefusedTurnsStop | agent_runtime/service.py:200-203 | a refused turn never executes, authorizes or dispatches; once it has written its refusal its tool is denied, for good, or waits for approval, and the turn is over |
| TurnSteps.LaunchExactly | agent_runtime/service.py:87-98 | a turn begins exactly on a coherent log in which the run is deciding and a turn is left in the budget |
| TurnSteps.TurnGoesOn | agent_runtime/service.py:112-272 | over every interleaving a waiting instance writes the next line of its script exactly if nobody wrote meanwhile, the line fits the log and its claims are free; it ends exactly with the last line, or without writing |
| TurnSteps.CallIsMade | agent_runtime/service.py:204-232 | the executor is called exactly when a permitted call is dispatched and not yet made, once, and its answer is what the turn goes on with |
| TurnSteps.RecoverExactly | agent_runtime/service.py:274-281 | recovery asks to reconcile exactly if a dispatch in the log has no result, and otherwise allows a retry exactly if the run is deciding or ready |
| AgentProtocol.ExternalOk | agent_runtime/event_store.py:60-90 | appends of other writers keep the protocol's invariant |
| OutputContract.ParseContract | model_worker/output_contract/parser.py:22-70 | the loop over the properties computes `ParsedContract`; what it accepts and means is SchemaMeaning.AcceptsExactly and ValidatesExactly |
| OutputContract.ParsedIsOk | model_worker/output_contract/parser.py:22-70 | whatever is accepted is a well-formed contract: distinct names, no empty types, enumerations of values of the declared types; that it is the contract the schema means is SchemaMeaning.ValidatesExactly |
| OutputContract.EnumIsExact | model_worker/output_contract/validator.py:9-11 | under the one-primitive-plus-null rule Python's `in` on an enum is membership of the very value: 1 and true are not confused |
| OutputContract.MixedEnumWouldConfuse | model_worker/output_contract/parser.py:52-53 | without that rule the validator would take true for the enum value 1 |
| OutputContract.CompileGbnf | model_worker/output_contract/gbnf.py:21-29 | the loop over the properties builds the grammar of the contract |
| Json.ReadQuoted | model_worker/strict_json.py:35-49 | the loader reads a serialized string back as itself, whatever follows |
| Json.ReadInteger | model_worker/strict_json.py:35-49 | the loader reads an integer literal of section 6 of RFC 8259 as its value |
| GrammarForms.BodyForm | model_worker/output_contract/gbnf.py:28-28 | what json-char* derives: plain characters, two-character escapes and \u escapes, in any order |
| GrammarForms.ReadBody | model_worker/strict_json.py:22-49 | whatever the grammar writes between quotation marks the loader reads to its end, and it finds an unpaired surrogate exactly when the text has a high escape not followed by a low one or a low one not preceded by a high one |
| ContractAgreement.ReadDumps | model_worker/strict_json.py:35-49 | reading undoes serialization on every scalar |
| ContractAgreement.ValueForm | model_worker/output_contract/gbnf.py:13-18 | a text derived for a property reads as a value the validator accepts for it |
| ContractAgreement.ValueDerived | model_worker/output_contract/validator.py:9-11 | every value the validator accepts for a property has a derivation |
| ContractAgreement.AcceptedConforms | model_worker/output_contract/validator.py:14-20 | the validator reports nothing exactly on objects with the contract's keys in order and a matching value each |
| ContractAgreement.GrammarIsSound | model_worker/output_contract/gbnf.py:21-29 | every derived text is one JSON object without repeated keys; it loads if and only if no escape in it is a high surrogate without a low one right after it or a low one without a high one right before it, and then the validator accepts its value |
| ContractAgreement.UnpairedIsDerived | model_worker/output_contract/gbnf.py:28-28 | a contract of one free string has a derived text with an unpaired surrogate, which the loader refuses |
| ContractAgreement.GrammarIsComplete | model_worker/output_contract/validator.py:14-20 | every value the validator accepts is the loaded value of a derived text |
| ContractAgreement.GrammarAgreesWithValidator | model_worker/output_contract/gbnf.py:9-29 | for every schema the parser accepts: a value is accepted by the validator if and only if it is the value of some text of the compiled grammar |
| ContractAgreement.TerminalRoundTrip | model_worker/output_contract/gbnf.py:9-10 | quoting a key or an enum value for the grammar and unquoting it gives it back |
| ContractAgreement.RuleNamesDistinct | model_worker/output_contract/gbnf.py:24-26 | two properties never share a rule name |
| SchemaMeaning.AcceptsExactly | model_worker/output_contract/parser.py:24-69 | a schema is accepted if and only if it is supported, said on the schema value with the literal keywords and type names |
| SchemaMeaning.RootRefusedAt | model_worker/output_contract/parser.py:24-42 | the exact condition for each refusal of the root |
| SchemaMeaning.PropertyRefusedAt | model_worker/output_contract/parser.py:43-69 | the exact condition for each refusal of a property |
| SchemaMeaning.RefusesFirst | model_worker/output_contract/parser.py:43-69 | a schema with an acceptable root is refused for its first unsupported property |
| SchemaMeaning.ValidatesExactly | model_worker/output_contract/validator.py:9-20 | for every accepted schema the validator reports nothing exactly for the values that conform to the schema itself: keys in the order of "properties", each value of a kind that "type" names, and among "enum" if there is one |
| SchemaMeaning.GrammarMeansSchema | model_worker/output_contract/gbnf.py:9-29 | end to end: for every supported schema the values of the texts the compiled grammar derives are exactly the conforming values |
| Fairness.LeastIsLeast | inference_runtime/governance.py:155-155 | the chosen entry's key is least in Python's tuple order |
| Fairness.WeightedFairness | inference_runtime/governance.py:120-171 | alternating select and charge of at most L over fixed candidates of one lane and effective priority: service_i/w_i - service_j/w_j <= L/w_i for workflows, for the agents of a workflow and for the requests of an agent |
| Fairness.ServiceIsConserved | inference_runtime/governance.py:162-171 | every token charged is booked to exactly one of the candidates' workflows |
| Fairness.GuaranteedShare | inference_runtime/governance.py:120-171 | no workflow starves: total tokens <= total weight * its normalized service + one L per workflow |
| Fairness.CapDecides | inference_runtime/governance.py:145-160 | while a normal candidate waits, an emergency is chosen only with the count below the cap, whatever the count was before |
| Fairness.EmergencyIsBounded | inference_runtime/governance.py:145-160 | over every run in which normal candidates wait, with charges and forgetting in between, no row of emergency choices is longer than `emergency_burst_cap` |
| SelectionMeaning.PriorityIsStanding | inference_runtime/governance.py:208-224 | the effective priority is the class priority plus whole aging intervals waited plus the boost of a near deadline, as one number fixed by those fields |
| SelectionMeaning.SelectsRightly | inference_runtime/governance.py:120-160 | whom a selection serves: an emergency exactly when there is one and the burst cap or an empty normal lane allows it; of the served lane nobody stands higher, and of those standing as high nobody's workflow, agent and request, in that order, has been served less for its weight, or has the earlier deadline, or came first |
| SelectionMeaning.SelectExactly | inference_runtime/governance.py:120-160 | the answer in every case: refused for a negative time, nothing for no candidates, refused if a candidate names an unknown class, and otherwise somebody, rightly |
| FairSelector.HierarchicalFairSelector.Select | inference_runtime/governance.py:120-160 | the loops of `select` compute the choice and the new counters, or the refusal |
| FairSelector.HierarchicalFairSelector.Charge | inference_runtime/governance.py:162-171 | adds the tokens at all three levels |
| FairSelector.HierarchicalFairSelector.Forget | inference_runtime/governance.py:181-196 | drops exactly the scopes asked for |
| FairSelector.HierarchicalFairSelector.NoteWeights | inference_runtime/governance.py:129-143 | registers the largest weight seen per workflow and agent, up to the first unknown class |
| FairSelector.HierarchicalFairSelector.Split | inference_runtime/governance.py:145-146 | partitions the candidates into the two lanes |
| FairSelector.HierarchicalFairSelector.Minimum | inference_runtime/governance.py:155-155 | the first least candidate |
| Simulator.BestIsBest | inference_runtime/simulator.py:224-228 | the choice is an eligible entry no eligible entry comes before, and exists if any is eligible |
| Simulator.OvertakingIsBounded | inference_runtime/simulator.py:283-295 | f is chosen over an eligible e only while steps_f < w_f * (P_f - P_e + (admit_e - admit_f)/interval + 1 + steps_e/w_e) |
| Simulator.LateArrivalsNever | inference_runtime/simulator.py:283-295 | a request admitted late enough has quota zero: it never overtakes |
| Simulator.BoundedOvertaking | inference_runtime/simulator.py:211-234 | over every run in which a request stays eligible and unselected, whatever is admitted, cancelled or expires, each competitor is chosen at most its quota less the steps it had |
| Simulator.NoStarvation | inference_runtime/simulator.py:211-234 | such a request waits for at most the total quota of the requests admitted by then |
| SchedulerEvents.RunPublished | inference_runtime/simulator.py:392-440 | in every run each request publishes at most one terminal event, nothing after it, and the confirmed release of its sequence right before it; only then can it end other than in error |
| SchedulerEvents.OpenedIsKeptExactly | inference_runtime/simulator.py:317-338 | what the backend returned for an opening is kept if and only if it is a handle, of this backend, for one of its models, and not another active request's; otherwise the request ends in error with no handle |
| SchedulerEvents.OpenedIsReleasedOrDropped | inference_runtime/simulator.py:317-440 | in every run the backend opens at most one sequence per request; one that was kept is released before the terminal event or its attempted release was not confirmed and the request ended in error; one that was not kept is never released |
| SchedulerEvents.ReleasedWasKept | inference_runtime/simulator.py:417-440 | in every run whatever has been released was opened and kept |
| SchedulerEvents.ForeignHandleIsDropped | inference_runtime/simulator.py:323-328 | a run in which a handle of another backend or an unknown model is dropped unreleased |
| SchedulerEvents.SharedHandleIsDropped | inference_runtime/simulator.py:329-334 | a run in which two requests are given one handle: the first keeps it, the second's opening is dropped |
| SimulatorMeaning.OneStanding | inference_runtime/simulator.py:283-295 | the standing of an entry (class priority, whole aging intervals, steps by weight) is one number |
| SimulatorMeaning.ChosenRightly | inference_runtime/simulator.py:268-295 | a tick goes to an entry that may run and stands higher, or as high with the earlier deadline, or as high and due but admitted earlier, than every other that may run; to nobody exactly if nobody may |
| SimulatorMeaning.ExpireExactly | inference_runtime/simulator.py:213-222 | expiry ends exactly the overdue, with their release if they hold a sequence, and touches nobody else |
| SimulatorMeaning.ActExactly | inference_runtime/simulator.py:297-440 | what the chosen entry becomes and what is published about it, for every lifecycle and every answer of the backend |
| SimulatorMeaning.TicksOverRuns | inference_runtime/simulator.py:211-234 | every tick of every run: the overdue end, one step goes to whom it is due, everybody else stays as they were |
| SimulatorMeaning.AdmitExactly | inference_runtime/simulator.py:186-202 | the exact condition for each refusal of an admission, in order, and what an accepted one files |
| SimulatorMeaning.CancelExactly | inference_runtime/simulator.py:204-209 | in every run a cancellation ends the one unfinished entry of the request and is refused exactly if there is none |
| SimulatorObject.DeterministicScheduler.Admit | inference_runtime/simulator.py:186-202 | the checks in order, then the new entry; equals the specification's new state |
| SimulatorObject.DeterministicScheduler.Cancel | inference_runtime/simulator.py:204-209 | ends an unfinished request once; equals the specification's new state |
| SimulatorObject.DeterministicScheduler.Tick | inference_runtime/simulator.py:211-234 | expiry in admission order, selection and one action; equals the specification's new state |
| SimulatorObject.DeterministicScheduler.Choose | inference_runtime/simulator.py:268-295 | eligibility and the least selection key; equals the specification's new state |
| SimulatorObject.DeterministicScheduler.IsUsable | inference_runtime/simulator.py:323-334 | the checks on what an opening returned, in order; equals the specification's new state |
| SimulatorObject.DeterministicScheduler.Step | inference_runtime/simulator.py:297-390 | the action of each lifecycle; an error ends the request; equals the specification's new state |
| SimulatorObject.DeterministicScheduler.End | inference_runtime/simulator.py:392-440 | release first, then the one terminal event; equals the specification's new state |
| LeaseBooks.PruneIsExact | inference_runtime/cache.py:428-436 | pruning leaves exactly the entries that are pinned or not expired |
| LeaseBooks.MakeRoomOk | inference_runtime/cache.py:415-427 | making room fails precisely when the pinned entries alone leave too few bytes or no slot, then nothing but them is left; it never removes a pinned entry |
| LeaseBooks.MakeRoomIsMinimal | inference_runtime/cache.py:415-427 | it evicts least recently used entries, exactly as many as needed: one fewer would not have fitted |
| LeaseBooks.EvictsOldestFirst | inference_runtime/cache.py:422-426 | whatever is evicted is unpinned and no more recently used than any unpinned entry kept |
| LeaseSafety.ChooseIsNearest | inference_runtime/cache.py:256-276 | the entry offered matches, admits the requester, and is the narrowest, then the most recently used; on the fields: LeaseAnswers.ChoosesNearest |
| LeaseBooks.PutOk | inference_runtime/cache.py:203-237 | `put`, whether it succeeds or fails, keeps books and bounds and disturbs no pinned entry |
| LeaseSafety.AcquireOk | inference_runtime/cache.py:239-311 | `acquire`, shared or copy-on-write, keeps books, bounds and every lease out |
| LeaseSafety.ReleaseOk | inference_runtime/cache.py:320-330 | giving back an outstanding lease succeeds and keeps everything; a clone goes with its last lease |
| LeaseSafety.CommitOk | inference_runtime/cache.py:332-347 | a session commit keeps everything |
| LeaseSafety.LeaseReads | inference_runtime/cache.py:313-318 | an outstanding lease reads the bytes it was granted on |
| LeaseSafety.LeaseCacheIsSound | inference_runtime/cache.py:203-372 | over every run of clients that release each lease at most once: bytes_used is the sum of sizes within budget, the index is exactly the non-ephemeral entries, insertions = evictions + invalidations + indexed, and every lease out reads the bytes of its acquire from an entry whose scope admits the holder; what admitting means on the fields is LeaseAnswers.LeasesRespectFields |
| LeaseSafety.SurplusReleaseExact | inference_runtime/cache.py:320-330 | for every sound world and every lease value, releasing it while all leases stay out keeps the world sound if and only if the guard refuses: entry gone, another generation, or not pinned |
| LeaseSafety.RepeatedReleaseExact | inference_runtime/cache.py:320-330 | giving a lease back a second time does harm if and only if another lease is still out on the entry |
| LeaseSafety.DoubleReleaseStrands | inference_runtime/cache.py:320-330 | an instance: of two shared leases one is released twice, and the other reads nothing any more |
| LeaseSafety.DoubleReleaseHappens | inference_runtime/cache.py:203-330 | a run from an empty cache in which that happens |
| LeaseAnswers.AcquireExactly | inference_runtime/cache.py:239-311 | an acquire is answered exactly as the fields of the live entries say: missed if none matches, denied if some match and none of them has the requester's tenant and, as its visibility asks, workflow and agent; otherwise granted on the nearest, shared or as a copy, or refused because the pinned entries leave no room for the copy |
| LeaseAnswers.AnswersOverRuns | inference_runtime/cache.py:239-311 | the same in every reached cache |
| LeaseAnswers.LeasesRespectFields | inference_runtime/cache.py:57-68 | over every run each lease out is on an entry of the holder's tenant, and of its workflow and agent if the entry is private, of its workflow if it is for the workflow |
| LeaseAnswers.ChoosesNearest | inference_runtime/cache.py:256-276 | the entry chosen is the one no other usable entry is narrower or more recently used than |
| LeaseAnswers.PutExactly | inference_runtime/cache.py:203-237 | the exact condition for each answer of a put, and what a stored one leaves: the new entry last, every held entry, and only live ones of other keys or scopes |
| LeaseAnswers.ReleaseExactly | inference_runtime/cache.py:320-330 | a release succeeds exactly if a held entry is named, gives back one holder, and removes a clone with its last |
| LeaseAnswers.ReadExactly | inference_runtime/cache.py:313-318 | a read gives bytes exactly if a held entry with that key is named, and gives its bytes |
| LeaseAnswers.CommitExactly | inference_runtime/cache.py:332-347 | the exact condition for each refusal of a commit; otherwise it is a put, and only a stored one gives the lease back |
| LeaseAnswers.InvalidateExactly | inference_runtime/cache.py:349-372 | invalidation removes exactly the unpinned entries of the tenant, kind and namespace named |
| LeaseCacheObject.SequenceStateCache.Put | inference_runtime/cache.py:203-237 | in place; result and whole new state are the specification's |
| LeaseCacheObject.SequenceStateCache.Acquire | inference_runtime/cache.py:239-311 | in place; result and whole new state are the specification's, of which LeaseAnswers.AcquireExactly says when it grants, denies or misses |
| LeaseCacheObject.SequenceStateCache.Read | inference_runtime/cache.py:313-318 | in place; result and whole new state are the specification's |
| LeaseCacheObject.SequenceStateCache.Release | inference_runtime/cache.py:320-330 | in place; result and whole new state are the specification's |
| LeaseCacheObject.SequenceStateCache.CommitSession | inference_runtime/cache.py:332-347 | in place; result and whole new state are the specification's |
| LeaseCacheObject.SequenceStateCache.Invalidate | inference_runtime/cache.py:349-372 | in place; result and whole new state are the specification's |
| LeaseCacheObject.SequenceStateCache.EnsureCapacity | inference_runtime/cache.py:415-427 | in place; result and whole new state are the specification's |
| LeaseCacheObject.SequenceStateCache.Prune | inference_runtime/cache.py:428-436 | in place; result and whole new state are the specification's |
| LeaseCacheObject.SequenceStateCache.RemoveEntry | inference_runtime/cache.py:438-445 | in place; result and whole new state are the specification's |
| Quota.AdmitKeeps | inference_runtime/governance.py:324-396 | admission keeps pending counts within limits at every scope |
| Quota.ActivateKeeps | inference_runtime/governance.py:398-463 | activation after `can_activate` keeps sequences and tokens within the global, workflow and agent limits |
| Quota.StillActivable | inference_runtime/continuous_scheduler.py:457-497 | an admission between the check and the activation does not spoil the check |
| Quota.NestedQuotaSafety | inference_runtime/continuous_scheduler.py:457-511 | in every state of the check-open-activate-release loop all three levels of limits hold, every sequence the backend may still have open has a reservation, active unless refused, and nobody holds one but unfinished and unconfirmed requests |
| Quota.DroppedOnlyWhenReleased | inference_runtime/continuous_scheduler.py:812-862 | a reservation is dropped only after a confirmed release, or for a request that never had a sequence |
| Quota.LedgerDrains | inference_runtime/continuous_scheduler.py:838-862 | when every request has ended with confirmed release the ledger is empty |
| QuotaAnswers.AdmitExactly | inference_runtime/governance.py:324-396 | admission answers with the first of ten reasons that stands against the request, each said on the limits and the set of waiting requests, and changes nothing; if none stands the request is filed last, pending |
| QuotaAnswers.MayActivateExactly | inference_runtime/governance.py:398-431 | `can_activate` holds exactly if the request is pending and everybody, its workflow and its agent each have room for one more running request and for its estimate |
| QuotaAnswers.ActivateExactly | inference_runtime/governance.py:433-463 | the exact condition for each answer of an activation and the tokens it books |
| QuotaAnswers.ReleaseExactly | inference_runtime/governance.py:465-467 | a release takes out the reservation of the request and nothing else |
| QuotaAnswers.SubmitOverRuns | inference_runtime/governance.py:324-396 | in every reached state a submission is taken exactly if the request is new and no reason stands against it |
| QuotaAnswers.OpeningOverRuns | inference_runtime/continuous_scheduler.py:457-511 | in every reached state an opening begins exactly if none is under way, the request is queued and there is room for it, and one that succeeds leaves the request open and booked, or refused by the ledger |
| QuotaAnswers.SplitGrows | inference_runtime/continuous_scheduler.py:576-588 | in the prefill split later sequences never get less, and nobody less than an even share of the tick budget or the chunk limit |
| QuotaAnswers.SplitSpends | inference_runtime/continuous_scheduler.py:576-588 | if the last sequence takes part, the tick budget is spent or the largest share is the chunk limit |
| QuotaAnswers.SplitIsEven | inference_runtime/continuous_scheduler.py:576-588 | if all take part the shares add up to the tick budget, or to the chunk limit for everybody if that is less, and each is the even share rounded down or up |
| QuotaObject.ResourceAdmissionController.Admit | inference_runtime/governance.py:324-396 | the checks in order and the pending reservation |
| QuotaObject.ResourceAdmissionController.MayActivate | inference_runtime/governance.py:398-431 | true exactly when all three scopes have room |
| QuotaObject.ResourceAdmissionController.Activate | inference_runtime/governance.py:433-463 | the refusals and the reservation made active |
| QuotaObject.ResourceAdmissionController.Release | inference_runtime/governance.py:465-467 | drops the reservation if there is one |
| QuotaObject.ResourceAdmissionController.Tally | inference_runtime/governance.py:414-423 | the sums the checks are made on |
| QuotaObject.SplitIsSound | inference_runtime/continuous_scheduler.py:576-588 | the prefill split gives every selected sequence between one token and the chunk limit, and together at most the tick budget; it rests on the check at line 124 |
| QuotaObject.PrefillBudgets | inference_runtime/continuous_scheduler.py:576-588 | the loop computes exactly that split |
| QuotaObject.DecodeQuantum | inference_runtime/continuous_scheduler.py:639-654 | the quantum is the largest within the step limit that every selected sequence can have without the batch exceeding the tick budget, and at least one |
| FrameStream.VerifierIsExact | model_worker/ipc.py:14-82 | the verifier accepts a trace if and only if it follows the protocol, and its fields then say where in the protocol it is |
| FrameStream.FrameVerifier.Verify | model_worker/ipc.py:23-82 | accepts the frame and moves on, or refuses it and stays |
| FrameStream.ProducerConforms | native/model_worker_main.cpp:250-259 | for every token stream, cancellation point and failure the verifier accepts every frame of the job, the last frame and no other is terminal, and if it is a completion the deltas spell its text, which is UTF-8 |
| FrameStream.GeneratedOk | native/model_worker_main.cpp:165-216 | along the generation loop frames, controller phase and text agree: the phase frame precedes every delta, and a finished text is what the deltas spell |
| FrameStream.PromptedOk | native/model_worker_main.cpp:142-150 | the prompt loop conforms and sends no phase, delta or terminal frame |
| JobHistory.GeneratedExactly | native/model_worker_main.cpp:165-216 | the generation loop finishes exactly if some turn ends the generation within the budget after the end marker, all turns before it sampled acceptable tokens, and the final text is UTF-8; then with that text |
| JobHistory.FailureCodes | native/model_worker_main.cpp:250-259 | a job that does not complete ends in a failure that carries the message thrown and the code that message stands for |
| JobHistory.JobCompletesExactly | native/model_worker_main.cpp:142-259 | the last frame of a job is a completion with a given text exactly if nothing threw before the loop and some turn completes the job with that text |
| FrameStream.DecodePrompt | native/model_worker_main.cpp:142-150 | the prompt loop emits exactly the specified frames up to the batch that throws |
| FrameStream.GenerateTokens | native/model_worker_main.cpp:165-216 | the generation loop, statement by statement, emits exactly the specified frames and has the specified outcome |
| FrameStream.RunJob | native/model_worker_main.cpp:250-259 | the job loop's body emits exactly the frames of the job, all of which the verifier accepts |
| EventBuffer.PublishOk | model_worker/events.py:229-255 | publishing keeps order, accounting and bounds, and that delivered and queued output is exactly the accepted output, in every outcome |
| EventBuffer.OutputIsLossless | model_worker/events.py:229-309 | over every interleaving, non-telemetry delivered followed by queued is exactly what was accepted, also after close or a slow subscriber; the accepted is a prefix of the published, all of it until then; delivered sequence numbers increase; at most one progress and one heartbeat are queued; bytes and counts are exact and bounded |
| EventAnswers.PublishExactly | model_worker/events.py:229-281 | the exact condition for each of the seven answers of publish, on the queued events that stay beside the new one, and the whole buffer it leaves |
| EventAnswers.AnswersOverRuns | model_worker/events.py:229-304 | the same in every reached stream; get hands out the oldest queued event and nothing only if none is queued; drain hands out all |
| EventAnswers.EverythingArrives | model_worker/events.py:283-309 | with as many gets as events are queued the delivered output is all that was ever accepted, also from a closed buffer |
| EventBufferObject.BoundedRequestEventBuffer.Publish | model_worker/events.py:229-255 | in place; result and whole new state are the specification's |
| EventBufferObject.BoundedRequestEventBuffer.RemoveOlderTelemetry | model_worker/events.py:269-275 | in place; result and whole new state are the specification's |
| EventBufferObject.BoundedRequestEventBuffer.Get | model_worker/events.py:283-297 | in place; result and whole new state are the specification's |
| EventBufferObject.BoundedRequestEventBuffer.Drain | model_worker/events.py:299-304 | in place; result and whole new state are the specification's |
| EventBufferObject.BoundedRequestEventBuffer.Close | model_worker/events.py:306-309 | in place; result and whole new state are the specification's |

## Left out

- llama.cpp calls, tokenization, chat templates, logits and GPU state: abstract functions; a snapshot copies KV memory faithfully, and a failed restore leaves the slot empty.
- Threads, locks and condition variables: every public call is one atomic step; the scheduler thread's opening of a request is two steps with submissions in between.
- RuntimeTransparency.CacheTransparency: assumes commands that do not fail halfway and releases that name the slot's owner; the two exceptions are characterised by AbandonedStepExact and StaleReleaseExact.
- PromptCache.StoreSessionKeeps: session generations may be reused after all entries of a session are evicted, as in the code.
- PromptCacheObject: hit, miss and eviction statistics are not modelled; byte counts are unbounded integers.
- The JSON envelopes of commands, manifests and HTTP requests, and the text of error messages beyond their codes.
- AgentLog: sequence numbers and payload digests are the positions and values of a list; SQLite is a map from run to log with unique keys.
- AgentProtocol: the local budget check before an append is folded into the append, which refuses the same case; writers other than turns never write a turn's records.
- OutputContract.ParseContract: the place of a refusal is a value instead of a path string, and the first unknown root keyword is not named.
- ContractAgreement.GrammarIsSound: integers of any length load; CPython's limit on the digits of an integer literal is not modelled.
- ContractAgreement: grammar rules are inlined (RuleNamesDistinct shows the references are unambiguous), and GBNF text beyond quoted literals is an expression tree.
- Fairness.WeightedFairness: normalized service is a real number, as exact as the Fraction the code uses; floating-point ages are reals.
- Simulator: token budgets of backend steps and latency fields are not modelled; the clock never goes back.
- LeaseCache: hit, miss, denial and clone counters; entry identifiers never repeat.
- Quota: the queues that order opening are left to the selector, so any queued request may be the next; the submission limit of the scheduler itself is not modelled (it only refuses more).
- FrameStream: progress, heartbeat and usage payloads carry counts only; malformed JSON on the wire and the control channel's cancel registry are not modelled.
- HTTP/SSE, subprocess supervision, artifacts, metrics, OpenAI and MLX adapters, security policy: I/O plumbing or simple checks.
