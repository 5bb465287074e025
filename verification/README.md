# VatBrain: verified model

VatBrain is a memory store for coding agents. This project models its engines in Dafny and proves
what they promise over all inputs, all interleavings and all runs. Nothing here was executed; every
statement below is a contract or a lemma that Dafny's verifier proves. `dafny verify dfyconfig.toml`
checks the whole project.

## What is modelled

- **Concurrent batch embedding** (`Chunking`, `BatchPool`, `BatchPoolRuns`, `BatchProvider`). Feeder,
  buffered channel, workers, the locked first error and the shared output slice are a transition
  system; an action says which goroutine moves. Every run is covered, so every interleaving is. The
  provider side inverts the index permutation of a response and retries rate-limited chunks.
- **Write pipeline and update tracking** (`MemoryStore`, `UpdateTracker`, `SignalFixpoint`,
  `CapWitness`, `WritePipeline`, `SupersededGraph`, `WriteRuns`, `CycleWitness`, `UpdateLaws`, `WriteLaws`).
  Classes and methods follow the code; each method is tied to a function of the old state. Runs are
  sequences of writes and explicit update signals.
- **Batch ingest** (`BenchIngest`). Two-phase ingest is proved to be one-at-a-time ingest, and the
  pool of `BatchPool` is proved to supply what that needs.
- **Rule-conflict governance** (`RuleConflict`, `RuleGovernance`, `RuleFixpoint`, `RuleDominance`,
  `RuleConvergence`, `RuleLaws`, `Directives`). Buckets are visited in an arbitrary order.
- **Pitfall extraction** (`PitfallClustering`, `PitfallMerging`, `PitfallExtraction`): grouping, average-linkage
  clustering, drafting, greedy deduplication, merging.
- **Rank fusion** (`RankFusion`, `FusionLaws`, `FusionWitness`), **hot cache against the table** (`HotCache`,
  `CacheAnswers`), **context condensation** (`Condense`, `RecallText`, `RecallLaws`), **reconsolidation**
  (`Reconsolidation`).
- The modules whose names end in `Laws`, and `CacheAnswers`, say what the functions the methods are proved
  against mean, in terms of texts, times, weights and thresholds alone.
- `Wrappers`, `Bags`, `SortSlice`, `Text` and `Vectors` are shared helpers; `SampleTexts` holds the texts of
  the counterexamples and how the text comparisons in use judge them.

Scores and weights are `real`, times are `int` with 0 as Go's zero time, identifiers are `int` with
0 as the nil UUID. What the code does not decide enters as an argument or as a ghost result that
records it: the clock, fresh identifiers, the order of Go maps, and how searches break ties. The
embedder, cosine similarity, case folding and the language-model call are function parameters;
bigram similarity, containment, white-space folding and the directive markers are concrete.
Characters are Unicode scalar values, as Go's runes are, and Go folds case rune by rune.

## Where the code and its documentation differ

- `RunUpdateTracking` is documented as idempotent (`internal/core/update_tracker.go:218`). It is so
  up to 500 active memories in the project (`SignalFixpoint.SecondPassFindsNothing`). Beyond,
  `SecondPassFindsNothingIff` says exactly when it is, in terms of the store before the first signal:
  every covered memory has fewer than 500 newer ones, or at least 500 newer ones that the first
  signal leaves. The one case left open is a cap that cuts through a tie; there the search may report
  the memory and may leave it out (`SignalFixpoint.CutTieIsOpen`). `CapWitness.CapLeavesSomeBehind` is a
  project, of any size from 501 on, where it is not.
- `ApplyUpdate` calls re-applying a stale pair set a no-op for the retirement
  (`internal/core/update_tracker.go:158`). Nothing further is retired, but the retirement is dated anew: the
  memories stay as they are only when the set is empty or the instant is the same. The whole call is a no-op
  only when the set is empty, since every edge is recorded again (`UpdateTracker.StaleJudgementDuplicatesEdges`).
- A signal on a retired memory can close a cycle of SUPERSEDED edges and leave no active memory,
  because a merged memory may be older than what it retires. `SupersededGraph.SignalKeepsAcyclicIff`
  gives the exact condition on the store: within the cap, a signal closes a cycle exactly when its
  memory covers the root it hangs below. `CycleWitness.SignalOnRetiredClosesCycle` is a run of three
  writes and one signal with the text comparisons in use and any cosine that is right on unit vectors.
- When the caller's context is cancelled and no call fails, the pool answers without an error whatever
  it has. Exactly the slots of the chunks sent before are filled (`BatchPoolRuns.AnswerOfEveryRun`), and
  for every job there is a run in which none is (`BatchPoolRuns.CallerCancelLeavesAHole`).
- `GetEdges` knows the directions "out" and "in"; reconsolidation asks for "outgoing" and gets edges
  in both directions. Incoming ones are skipped (`Reconsolidation.IncomingEdgesAreSkipped`).
- A user correction of an episodic memory writes back the copy read before the access time was
  recorded, so that access time is lost (`Reconsolidation.ProcessEpisodic`).
- The hot cache's key joins project, language, task type, retired flag and limit with colons, and holds no
  weight floor. `CacheAnswers.SharedEntryIff` says exactly when an entry stored for one request is right for
  another with the same key; `CachedAnswerIgnoresFloor` is a run in which a search for heavy rows gets a light
  one, and `ColonsCollide` are two projects under one key. Without colons in language and task type every
  answer of every run fits its request in all else (`CacheAnswers.AnswersFitRequests`).

## Model

| member | source | states |
|---|---|---|
| BatchPool.NewBatchEmbedder | internal/embedder/batch.go:327-345 | An option of zero or less gives the default, one above its maximum gives the maximum, one in range is kept: workers stay in [1, 64], the batch size in [1, 64]. |
| BatchPool.Plan | internal/embedder/batch.go:362-373 | What is computed before the goroutines start is a valid job: the channel holds as many chunks as there are, and the workers are at least one, namely the lesser of the limit and the number of chunks. |
| Chunking.CeilingCountsChunks | internal/embedder/batch.go:367 | The rounded-up quotient is the number of chunks the feeder cuts, counted chunk by chunk. |
| BatchPoolRuns.StepKeepsInv | internal/embedder/batch.go:378-418 | Every atomic step of feeder, workers or caller keeps the invariant: queued chunks tile the unserved slots, no slot is owed by two workers, an owed slot is empty, the first error is the first recorded. |
| BatchPoolRuns.RunKeepsInv | internal/embedder/batch.go:357-424 | The invariant holds after every run, hence in every interleaving. |
| BatchPoolRuns.AnswerOfEveryRun | internal/embedder/batch.go:366-424 | In every run that ends, whatever the caller does: a misbehaving call makes the answer the first error that reached the lock; otherwise slot i holds the embedding of text i exactly when the chunk of i was sent, and nothing else. |
| BatchPoolRuns.CompleteExactlyWhenAllSent | internal/embedder/batch.go:405-424 | The answer has no hole if and only if every chunk was sent. |
| BatchPoolRuns.PoolAnswer | internal/embedder/batch.go:366-424 | When all workers have exited and the caller did not cancel: without a misbehaving call slot i holds the embedding of text i for every i; otherwise the answer is the first error that reached the lock. |
| BatchPoolRuns.NoSlotWrittenTwice | internal/embedder/batch.go:402-403 | In every interleaving no two writes, by one worker or by two, hit the same slot. |
| BatchPoolRuns.FeederNeverBlocks | internal/embedder/batch.go:373-418 | The chunks sent never exceed the channel capacity, and a feeder that has not finished can always move, even when every worker has exited. |
| BatchPoolRuns.RunIsBounded | internal/embedder/batch.go:366-424 | Every run is at most as long as a measure of the initial state, which every step lowers. |
| BatchPoolRuns.NoDeadlock | internal/embedder/batch.go:366-424 | Until the channel is closed and every worker has exited, some goroutine can move without help from the caller. |
| BatchPoolRuns.CallerCancelLeavesAHole | internal/embedder/batch.go:405-424 | For every job there is a run in which only the caller cancels, no call misbehaves, and the pool answers without an error and without a single vector. |
| BatchProvider.InvertIndices | internal/embedder/batch.go:175-190 | The indices are usable exactly when they are distinct and in range; then the inverse permutation is computed. |
| BatchProvider.EverySlotNamed | internal/embedder/batch.go:175-201 | Pigeonhole: n distinct indices below n reach every slot. |
| BatchProvider.ReorderBatchVectors | internal/embedder/batch.go:163-201 | With usable indices the vector that carries index k lands in slot k and every slot is filled; otherwise response order is kept. |
| BatchProvider.EmbedChunkOnce | internal/embedder/batch.go:130-160 | A success delivers one vector per text, each the embedding of its text when the provider is honest; only rate limiting is retryable. |
| BatchProvider.EmbedChunkWithRetry | internal/embedder/batch.go:101-125 | Succeeds exactly when some attempt within the retry budget is reached and delivers. |
| BatchProvider.EmbedBatch | internal/embedder/batch.go:74-97 | Chunked embedding gives one vector per text in input order, and succeeds exactly when every chunk does; the exchange about each chunk is its own, so equal chunks may be answered differently. |
| BatchProvider.DualEmbedBatch | internal/embedder/batch.go:265-296 | Slot by slot the dual-channel batch equals the single-text path: the semantic vector when it has a signal, else the keyword vector. |
| BatchProvider.DualEmbedMeans | internal/embedder/batch.go:265-296 | A semantic vector with a component other than zero is taken, in every other case the keyword vector. |
| MemoryStore.Store.SearchEpisodic | internal/store/memory/memory_store.go:64-167 | The answer is a permitted one: stored eligible memories, once each, in the requested order, and nothing left out unless the limit is full of memories ranked no lower. |
| MemoryStore.AnswersMeetTheQuery | internal/store/memory/memory_store.go:64-167 | Every memory reported meets the query field by field: project, language, task type, weight, retirement, time window, vector length; and the answer keeps to the limit. |
| MemoryStore.NearestAreReported | internal/store/memory/memory_store.go:96-139 | A similarity search leaves a memory out only when the answer is full of memories at least as similar. |
| MemoryStore.Store.GetEdges | internal/store/memory/memory_store.go:288-313 | Edges of one kind, or of any, that touch the node in the direction asked for; any direction other than out and in means both. |
| MemoryStore.EdgesOfMembers | internal/store/memory/memory_store.go:288-313 | An edge is found if and only if it is stored, has the kind asked for, and leaves the node for "out", enters it for "in", and does either for anything else. |
| UpdateTracker.DetectUpdate | internal/core/update_tracker.go:78-143 | The loop with its early exits names, in candidate order, exactly the candidates that pass every condition; `UpdateLaws.NamedIff` says which those are. |
| UpdateLaws.NamedIff | internal/core/update_tracker.go:78-143 | A candidate is named if and only if it is another memory, active, older, not about another entity, similar enough, and either its directive is reversed or neither text contains or nearly repeats the other. |
| UpdateLaws.RestatedIsSpared | internal/core/update_tracker.go:113-119 | What either text contains, or nearly repeats, is not retired unless both carry directives and they differ. |
| UpdateLaws.UnrelatedIsSpared | internal/core/update_tracker.go:98-124 | A memory about another entity, about another subject, or not older is never retired. |
| UpdateLaws.ReversedIsRetired | internal/core/update_tracker.go:109-119 | A reversed directive retires the older memory although nearly all of the text is the same. |
| UpdateLaws.PairsCarryTheEvidence | internal/core/update_tracker.go:121-141 | Each pair reports both times, both directives and the similarity of the two texts. |
| UpdateLaws.SignalRetiresIff | internal/core/update_tracker.go:213-253 | With the text comparisons in use, a signal retires an active memory if and only if its search reports it, it is another one, older, not about another entity, with at least a quarter of the bigrams shared, and either one text forbids what the other prescribes or they overlap by less than 0.9 and neither contains the other. |
| UpdateLaws.WriteRetiresIff | internal/core/write_pipeline.go:195-330 | The same exact law for what a write retires among the candidates of its search, whether it appends or creates. |
| UpdateLaws.WriteRetiresJudged | internal/core/write_pipeline.go:195-330 | What a write judges covered is dated at the instant of the write and superseded by the memory it created or appended to; every other memory but that one stays as it was. |
| UpdateLaws.SignalBoosts | internal/core/update_tracker.go:185-193 | A signal that retires something multiplies the weight of its own memory once, by the boost asked for or else 1.5; one that finds nothing leaves it alone. |
| UpdateLaws.BoostIsClamped | internal/core/update_tracker.go:188 | The boosted weight is the product, kept within 0 and 1. |
| UpdateTracker.DetectedAreCovered | internal/core/update_tracker.go:72-143 | A candidate is named if and only if it is covered (other memory, active, compatible entity, same subject, no restatement unless polarity flips, strictly older), and once. |
| UpdateTracker.RetireCovered | internal/core/update_tracker.go:168-182 | Each covered memory other than the carrier is retired and gets one SUPERSEDED edge; a missing memory stops the loop with exactly the prefix done. |
| UpdateTracker.ApplyUpdate | internal/core/update_tracker.go:161-193 | Succeeds exactly when all memories named are stored; then the whole effect is retirement, edges and one clamped boost, and nothing at all without a covered memory. |
| UpdateTracker.StaleJudgementDuplicatesEdges | internal/core/update_tracker.go:154-193 | Re-applying a judgement is a no-op if and only if it names nothing; the memories alone stay as they are if and only if it names nothing or the instant is the same. Otherwise every edge is recorded again and the retirement dated anew, while nothing further is retired or boosted. |
| UpdateTracker.RunUpdateTracking | internal/core/update_tracker.go:213-253 | A signal fails only for a memory that is not stored; otherwise it judges a permitted answer of the peer search and has exactly the effect of that judgement. |
| UpdateTracker.PassEffect | internal/core/update_tracker.go:161-253 | A signal retires what it found, boosts its own memory, leaves every other memory alone, and never changes the text, time or activity of its own. |
| SignalFixpoint.ReportedIffFewNewer | internal/core/update_tracker.go:208-233 | Unless the cap cuts through the tie of a memory, the capped peer search reports that memory of the project if and only if fewer than 500 are newer; ties that are not cut do no harm. |
| SignalFixpoint.CutTieIsOpen | internal/core/update_tracker.go:208-233 | Where the cap does cut through its tie, one permitted answer reports the memory and another leaves it out, so that premise cannot be dropped. |
| SignalFixpoint.FoundIffReached | internal/core/update_tracker.go:220-244 | What a signal finds is fixed by the store before it: the covered memories with fewer than 500 newer ones, unless the cap cuts through their tie. |
| SignalFixpoint.SecondPassFindsNothing | internal/core/update_tracker.go:213-253 | With at most 500 active memories in the project a second signal finds nothing and changes nothing, whatever its boost and however ties are broken. |
| SignalFixpoint.SecondPassFindsNothingIff | internal/core/update_tracker.go:208-253 | For any number of active memories, the second signal finds nothing if and only if every covered memory has fewer than 500 newer ones, or at least 500 newer ones among what the first signal leaves. Ties are allowed as long as the cap cuts through none of a covered memory. |
| CapWitness.CapLeavesSomeBehind | internal/core/update_tracker.go:208-253 | For every number of memories from 501 on, a project whose newest memory covers all others under the text comparisons in use: whatever the searches answer, its first and its second signal both find something. |
| SignalFixpoint.PassRetires | internal/core/update_tracker.go:161-193 | A signal lowers the number of active memories by exactly the number of memories it found. |
| SignalFixpoint.PassesConverge | internal/core/update_tracker.go:213-253 | In any sequence of signals, with any cap, those that find something are no more than the active memories they use up. |
| WritePipeline.EvaluateGate | internal/core/significance_gate.go:60-117 | The gate gives the first of its four sufficient conditions, counting similar cycles, or reports below threshold. |
| WriteLaws.GateVerdict | internal/core/significance_gate.go:60-83 | Which of the five verdicts is given, with the number of similar cycles as the size of a set. |
| WriteLaws.DefaultSurprise | internal/core/surprise.go:27-59 | Confirmed events surprise by 0, corrections by 0.7, changes of behaviour by 0.5, both by 1. |
| WriteLaws.WorkingMemoryHoldsTheLast | internal/store/working_memory.go:57-80 | After any pushes, working memory holds for each project the last summaries pushed for it, in order, as many as fit. |
| WritePipeline.PrepareWriteEvent | internal/core/write_pipeline.go:131-168 | Missing parts are reported in the order checked; otherwise gate verdict over the project's cycles and surprise score. |
| WritePipeline.FindMergeTarget | internal/core/write_pipeline.go:217-235 | The loop finds the first candidate that is not covered, has a vector and passes pattern separation. |
| WritePipeline.TargetIsCandidate | internal/core/write_pipeline.go:217-235 | A merge target satisfies all separation conditions; if there is none, no candidate does. |
| WriteLaws.AppendsToFirst | internal/core/write_pipeline.go:217-235 | A write appends to the first candidate of its place that is similar enough, has a vector and is not retired by it; when there is none it creates a memory. |
| WriteLaws.AppendedMemory | internal/core/write_pipeline.go:237-282 | The memory appended to, field by field: text, weight from similarity, access, event time moved earlier only, correction mark, greater surprise. |
| WriteLaws.CreatedMemory | internal/core/write_pipeline.go:285-343 | A new memory, field by field, and what working memory gains. |
| WriteLaws.ReportedWeightIsStored | internal/core/write_pipeline.go:237-343 | The weight a write reports is the weight it stored. |
| WriteLaws.CandidatesAreNearest | internal/core/write_pipeline.go:173-190 | A write leaves an active memory of the project out of its candidates only when there are five that are at least as similar. |
| WriteLaws.RejectedChangesNothing | internal/core/write_pipeline.go:72-94 | A write that is gated out or fails leaves store, working memory and pitfalls as they were. |
| WritePipeline.AppendToExisting | internal/core/write_pipeline.go:237-282 | Appending leaves the store as written, then updated: text appended, weight from similarity, event time moved earlier only, covered memories retired in favour of the appended one. |
| WritePipeline.CreateNew | internal/core/write_pipeline.go:285-343 | Creating stores the new memory, retires what it covers, links related memories unless switched off, and pushes the summary to working memory. |
| WritePipeline.LinkOnWrite | internal/core/link_on_write.go:26-76 | One RELATES_TO edge per related memory of a permitted search answer, in order, none to itself; for a debug session about an entity also one TRIGGERED_PITFALL edge per active pitfall of the entity, each of which is touched. |
| WriteLaws.LinksMean | internal/core/link_on_write.go:26-60 | A new memory is linked to exactly the related memories its search reports, other than itself. |
| WritePipeline.EachPitfallOccursOnce | internal/store/memory/pitfall.go:80-109 | Linking adds one occurrence to each active pitfall of the entity in the project and leaves every other pitfall alone. |
| WritePipeline.WriteMemoryPersist | internal/core/write_pipeline.go:170-344 | The imperative half after embedding equals the functional write for a permitted choice of search answers, and cannot fail on the in-memory store. |
| WritePipeline.WriteMemory | internal/core/write_pipeline.go:72-94 | State, result and error are those of the functional write that embeds the summary itself. |
| WritePipeline.WriteMemoryWithEmbedding | internal/core/write_pipeline.go:102-121 | The same with a given embedding; an empty one is an embedding error after the gate. |
| WriteRuns.AppendedIsNotCovered | internal/core/write_pipeline.go:195-235 | What an event is appended to is a stored active memory of the same project, language and entity that the event does not cover. |
| WriteRuns.PersistRecords | internal/core/write_pipeline.go:218-343 | An accepted write creates exactly one memory or appends to exactly one active memory, moving its time earlier if at all; no other memory's text or time changes. |
| WriteRuns.StepRecords | internal/core/write_pipeline.go:72-344 | Every step of a run records one accepted text in one memory, or leaves all texts and times alone. |
| WriteRuns.AcceptedTextsAreKept | internal/core/write_pipeline.go:218-323 | From an empty store, over every run, each memory's summary is the accepted texts reported under its identifier, in order, joined by line breaks; memories are exactly the identifiers reported. |
| WriteRuns.TextsAreConserved | internal/core/write_pipeline.go:218-323 | The multiset of summary pieces over all memories, retired ones included, equals the multiset of accepted texts. |
| WriteRuns.EventTimesMoveEarlier | internal/core/write_pipeline.go:250-257 | Over every run no memory is dropped and its event time only moves earlier. |
| WriteRuns.PersistKeepsForest | internal/core/write_pipeline.go:217-330 | An accepted write keeps the SUPERSEDED graph a forest, although its carrier may be older than what it retires. |
| WriteRuns.RunKeepsForest | internal/core/write_pipeline.go:173-344 | So does every run of writes and of signals given on active memories. |
| WriteRuns.SupersededGraphIsForest | internal/core/update_tracker.go:161-193 | From an empty store: no cycle, at most one incoming edge, targets retired, and every memory is reached from an active memory, and from only one. |
| SupersededGraph.RootIsUnique | internal/core/update_tracker.go:175-180 | In a forest only its root, of all active memories, reaches a memory. |
| SupersededGraph.AcyclicExactlyWhenRootIsSpared | internal/core/update_tracker.go:161-193 | A supersession keeps the graph free of cycles if and only if it does not retire the root of its carrier; an active carrier is its own root. |
| SupersededGraph.SparedRootKeepsForest | internal/core/update_tracker.go:161-193 | Such a supersession keeps the whole forest invariant, for a carrier of any state. |
| SupersededGraph.SignalKeepsAcyclicIff | internal/core/update_tracker.go:213-253 | A signal on any stored memory closes a cycle if and only if that memory covers its own root and fewer than 500 memories are newer than the root, unless the cap cuts through the tie of that root; within the cap, if and only if it covers its root. Read off the store before the call. |
| SupersededGraph.CutTieLeavesCycleOpen | internal/core/update_tracker.go:213-253 | Where the cap cuts through the tie of a covered root, one permitted answer of the search leads to a cycle and another does not. |
| CycleWitness.SignalOnRetiredClosesCycle | internal/core/write_pipeline.go:217-283 | For any cosine that is the dot product on unit vectors and any fresh weight that is not negative: a run of three ordinary writes and a signal on a retired memory ends in a cycle and without an active memory, with the text comparisons in use. |
| BenchIngest.KeptMessageHasItsEvent | internal/bench/server.go:273-284 | The k-th event is that of the k-th message with content, in request order. |
| BenchIngest.IntakeMeans | internal/bench/server.go:273-281 | A message is skipped if and only if it is white space throughout; otherwise its event carries the trimmed text, its date in front and as event time when it can be read, confirmed when the gate is off. |
| BenchIngest.GateOffStoresAll | internal/bench/server.go:437-449 | With the gate off every message with content is stored, provided its text can be embedded. |
| BenchIngest.BatchedIsSequential | internal/bench/server.go:338-350 | For the same choices, writing with precomputed embeddings is writing one at a time, failures included. |
| BenchIngest.PoolAnswersAgree | internal/embedder/batch.go:357-424 | The worker pool's answer is the embedder's single answers, the premise of the refinement. |
| BenchIngest.BuildEvents | internal/bench/server.go:265-284 | Phase one collects the events and positions of messages with content and books every blank one. |
| BenchIngest.WriteAll | internal/bench/server.go:306-329 | Phase two writes in order up to the first failure, the k-th write at the k-th instant and under the k-th identifier, and keeps exact figures, with or without precomputed embeddings. |
| BenchIngest.HandleAdd | internal/bench/server.go:246-336 | Whatever the batch embedder answers, an accepted request leaves the state that one write per message with content leaves, at the same instants and under the same identifiers, and reports exactly that, blank messages counted on the request itself; refused requests and failed batch calls change nothing. |
| BenchIngest.CountsCoverTheRequest | internal/bench/server.go:331-335 | Persisted plus skipped is the number of messages unless a write failed, and the reasons add up to the skipped. |
| BenchIngest.FiguresCount | internal/bench/server.go:306-335 | The figures are numbers of positions in the list of results: those persisted, and those not persisted for a given reason. |
| BenchIngest.FailedIndexResumes | internal/bench/server.go:306-320 | After a failed write the reported index is that of the failing message, and the messages with content before it are exactly those written: resuming there repeats none and skips none. |
| RuleConflict.Detect | internal/core/conflict.go:93-140 | The buckets and nested loops compute the contradicting pairs, for some order of the kinds; `RuleLaws.PairedIff` says which those are. |
| RuleLaws.PairedIff | internal/core/conflict.go:93-140 | With the text comparisons in use and at most 50 active rules of the kind, two rules are paired if and only if both are active and of one kind, one text holds a prohibitive marker and the other an affirmative and no prohibitive one, and they share a quarter of their bigrams. |
| RuleLaws.SettledAreOpposite | internal/core/conflict.go:245-305 | Whatever the caps, a pass settles only pairs of opposite directives about the same subject, active, of one kind and of the project. |
| RuleLaws.RetiredByOpposite | internal/core/conflict.go:156-305 | Every rule a pass retires lost against a more trusted active rule with the opposite directive, and an edge says so; rules that agree never retire each other. |
| RuleConflict.DetectedContradict | internal/core/conflict.go:103-139 | Only contradictions between active snapshot rules of one kind are detected, and each unordered pair once. |
| RuleConflict.ContradictionsAreDetected | internal/core/conflict.go:103-139 | With at most 50 active rules of the kind every contradiction is detected. |
| RuleGovernance.RuleStore.SearchSemantic | internal/store/memory/memory_store.go:244-271 | A snapshot of the group, retired rules included: the heaviest 1000. |
| RuleGovernance.Resolve | internal/core/conflict.go:156-194 | Equal trust changes nothing; otherwise the less trusted rule is retired, the edge runs from winner to loser, and the record says so; errors leave exactly what was done before them. |
| RuleGovernance.ResolveManually | internal/core/conflict.go:198-233 | Only a party of the record can win; the other party is retired whatever its trust. |
| RuleGovernance.SettleAll | internal/core/conflict.go:275-304 | The loop settles exactly the untracked pairs, in order, with exact counts. |
| RuleGovernance.RunRuleConflictDetection | internal/core/conflict.go:245-305 | A pass equals settling the new pairs of a permitted snapshot; detected, resolved and pending counts are exact. |
| RuleFixpoint.SettleRetires | internal/core/conflict.go:275-303 | Settling pairs retires exactly the losers and changes rules in no other way, in whatever order. |
| RuleFixpoint.NewPairsAreOpen | internal/core/conflict.go:259-278 | Within the caps a pass settles only open contradictions, each once. |
| RuleFixpoint.OpenPairsAreNew | internal/core/conflict.go:259-278 | Within the caps it settles all of them. |
| RuleFixpoint.PassRetiresTheBeaten | internal/core/conflict.go:245-305 | A rule is retired by a pass if and only if a more trusted active rule contradicts it and the pair is not waiting for a human. |
| RuleFixpoint.DetectedCount | internal/core/conflict.go:292-303 | The number detected is the number of open contradictions. |
| RuleFixpoint.RecordsAreRulings | internal/core/conflict.go:279-303 | A pass records one ruling on each open contradiction and nothing else: pending between equals, resolved for the more trusted side otherwise. |
| RuleFixpoint.PassInClosedForm | internal/core/conflict.go:245-305 | Retired rules, edges and records after a pass, each described on the store before it. |
| RuleFixpoint.PassIsConfluent | internal/core/conflict.go:115-139 | Bucket order and ties change neither what is retired, nor the edges drawn, nor what is recorded, nor how much is found. |
| RuleFixpoint.NothingStaysOpen | internal/core/conflict.go:259-303 | After a pass every contradiction has a retired side or waits for a human. |
| RuleFixpoint.SecondPassDetectsNothing | internal/core/conflict.go:259-305 | Given 1000 rules, 50 active per kind and 2000 records at most, the next pass detects and changes nothing. |
| RuleConvergence.PassLowersMeasure | internal/core/conflict.go:245-305 | With any number of rules, a pass that settles something lowers the number of active rules plus that of pairs free of a pending record, and no pass raises it. |
| RuleConvergence.PassesConverge | internal/core/conflict.go:245-305 | In any sequence of passes over any projects and any number of rules, each begun within 2000 records, those that settle something are no more than the active rules and free pairs they use up. |
| RuleDominance.PassKeepsDominated | internal/core/conflict.go:275-303 | A pass keeps every auto-retired rule below a more trusted one, even when it retires on the word of a rule it has itself retired. |
| RuleDominance.ClimbToActive | internal/core/conflict.go:171-181 | Climbing CONFLICTS_WITH edges of rising trust ends at an active rule. |
| RuleDominance.AutoRetiredAreDominated | internal/core/conflict.go:156-305 | After any number of passes over any projects, with rules added in between, every rule retired on the way reaches, along strictly rising trust, a rule that is still active. |
| Directives.DetectPolarity | internal/core/conflict.go:32-61 | Prohibitive if and only if a prohibitive marker occurs; affirmative if and only if only affirmative ones do. |
| Directives.WordsDecide | internal/core/conflict.go:32-61 | "Never", "must not", 不要 and their like make a text prohibitive; "always", "must", 必须 and their like make it affirmative unless it also forbids. |
| Directives.MarksSurviveAppending | internal/core/conflict.go:45-61 | A marker found in a text is found in every text that contains it, so an appended prohibition prevails. |
| Directives.BigramDiceIsSymmetric | internal/core/conflict.go:315-341 | Bigram similarity is symmetric, the premise of the conflict theorems. |
| PitfallClustering.ClusterSimilarity | internal/core/pitfall_extractor.go:228-277 | The loops compute the average over the pairs with vectors, or the average text overlap when there is none; 0 when a cluster is empty. |
| PitfallClustering.LinkageIsAnAverage | internal/core/pitfall_extractor.go:226-277 | The linkage lies between any bounds of the similarities it averages. |
| PitfallClustering.ClosestPair | internal/core/pitfall_extractor.go:197-207 | A pair of greatest positive linkage is found, or there is none. |
| PitfallClustering.MergeClosest | internal/core/pitfall_extractor.go:175-214 | Merging ends with a partition of the indices after a sequence of joins, each of two clusters that reach the threshold with no two closer; for a positive threshold every pair that remains is below it. |
| PitfallClustering.PartitionMeans | internal/core/pitfall_extractor.go:175-214 | Every index stands in exactly one cluster, once. |
| PitfallClustering.SubCluster | internal/core/pitfall_extractor.go:150-224 | The sub-clusters hold exactly the episodes of the group, none is empty, and they are what joining closest clusters of embedded summaries ends with. |
| PitfallClustering.ApartIff | internal/core/pitfall_extractor.go:150-224 | All episodes stay apart if and only if no two are alike enough: by cosine when both have a vector, else by text overlap, against 0.3 when no episode has a vector. |
| PitfallClustering.SubClustersAreLinked | internal/core/pitfall_extractor.go:194-214 | A sub-cluster of several episodes goes back to a last join of two parts whose linkage reaches the threshold, and so do the parts. |
| PitfallClustering.AllAlikeJoin | internal/core/pitfall_extractor.go:194-214 | Episodes with vectors that are all alike enough end in one sub-cluster. |
| PitfallMerging.MergeInto | internal/core/pitfall_extractor.go:623-643 | One merge round adds the counts and joins the sources whether or not it swaps, and keeps the fix that is longer in bytes of UTF-8, the later date and the correction mark. |
| Text.BytesOfText | internal/core/pitfall_extractor.go:632-634 | The length by which fixes are compared: one byte for an ASCII character, three for a Chinese one. |
| PitfallMerging.MergePitfallGroup | internal/core/pitfall_extractor.go:617-646 | Merging a group conserves occurrence count and sources over all members, and keeps a fix of the group that no other exceeds in bytes. |
| PitfallMerging.GroupDuplicates | internal/core/pitfall_extractor.go:575-602 | Greedy grouping takes every pitfall into exactly one group, once; groups stand in the order of their primaries, members duplicate their primary, and no primary duplicates a later one. |
| PitfallMerging.DeduplicatePitfalls | internal/core/pitfall_extractor.go:557-613 | There is one result for each greedy group, the lone pitfall or the merge of the group; per entity and source it is conserved how often the source is used. |
| PitfallMerging.UnmergedIff | internal/core/pitfall_extractor.go:557-613 | Deduplication leaves the list as it is if and only if no two pitfalls of one entity are close by the vectors of their signatures or, without both vectors, have the same signature. |
| PitfallExtraction.ExtractGroup | internal/core/pitfall_extractor.go:78-127 | For every minimum size: a group large enough yields, in order, one pitfall for each sub-cluster of its first 50 episodes that is large enough and can be structured; a smaller one yields none. Each episode is used at most once. |
| PitfallExtraction.DraftsMean | internal/core/pitfall_extractor.go:108-118 | The drafts in plain words: in order, exactly the clusters large enough that can be structured, each with its own signature, fix and size, and with the identifiers of its episodes as sources. |
| PitfallExtraction.Extract | internal/core/pitfall_extractor.go:78-127 | End to end every pitfall counts its sources, and per entity sources are used exactly as often as in the sub-clusters that became pitfalls, which are those of the scanned debug episodes. |
| PitfallExtraction.LargeClustersAreSources | internal/core/pitfall_extractor.go:78-127 | Whatever the minimum size, every episode of a sub-cluster that is large enough and can be structured is a source of some pitfall of its entity in the result. |
| PitfallExtraction.AlikeEpisodesAreExtracted | internal/core/pitfall_extractor.go:78-127 | Debug episodes of one entity that are all alike are each a source of a pitfall when there are enough of them, at most 50, and structuring succeeds. |
| PitfallExtraction.UnlikeEpisodesAreNotExtracted | internal/core/pitfall_extractor.go:78-127 | Debug episodes of which no two are alike are a source of nothing when a pitfall takes at least two. |
| PitfallExtraction.DebugEpisodesAreKept | internal/core/pitfall_extractor.go:83-88 | No debug episode of an entity is passed over. |
| PitfallExtraction.SourcesAreOwnDebugEpisodes | internal/core/pitfall_extractor.go:78-145 | Every source of a pitfall is a scanned debug episode of its own entity. |
| PitfallExtraction.NoEpisodeFeedsTwo | internal/core/pitfall_extractor.go:78-127 | With distinct scan identifiers no episode feeds two pitfalls, or one twice. |
| RankFusion.SortScoredEpisodics | internal/store/sqlite/search.go:256-265 | The in-place exchange sort leaves a sorted permutation. |
| RankFusion.RankMap | internal/store/sqlite/search.go:344-350 | Every listed memory gets its 1-based place. |
| RankFusion.RanksFollowScores | internal/store/sqlite/search.go:277-350 | Places are distinct, and a strictly better score means a smaller place. |
| RankFusion.RrfRanked | internal/store/sqlite/search.go:277-317 | The fused list holds each candidate some channel ranked, with its boosted reciprocal-rank score. |
| RankFusion.TopScoredEpisodics | internal/store/sqlite/search.go:237-254 | The first results of the ranking, newest first when asked for. |
| RankFusion.SearchFused | internal/store/sqlite/search.go:237-317 | The best memories some channel ranked, each once, as many as there are up to the limit, nothing better left out, in descending fused score or newest first. |
| FusionLaws.InOrderOfFormula | internal/store/sqlite/search.go:297-317 | Results stand in descending order of the sum of 1/(K + rank) over the channels, times one plus boost times surprise when a boost is asked for; no ranked candidate with a greater value is left out. |
| FusionLaws.SemanticRanks | internal/store/sqlite/search.go:284-296 | The semantic channel ranks exactly the candidates with a vector of the query's length, by cosine and then by weight. |
| FusionLaws.LexicalRanks | internal/store/sqlite/search.go:287-296 | The lexical channel ranks exactly the candidates that overlap with the query, by overlap and then by weight. |
| FusionLaws.SurpriseLifts | internal/store/sqlite/search.go:311-313 | Under a boost, of two memories with equal ranks the more surprising one comes first. |
| RankFusion.DominantComesFirst | internal/store/sqlite/search.go:277-317 | Higher in one channel and no lower in the other comes first; with a positive boost, provided its surprise is not negative and no lower. |
| RankFusion.ChannelWinnerComesFirst | internal/store/sqlite/search.go:297-316 | With a boost of zero or less, which the code ignores, first place in one channel beats any memory below place K + 2 in both. |
| FusionWitness.BoundIsAttained | internal/store/sqlite/search.go:277-317 | The bound cannot be improved: for every K there are a query and K + 3 candidates, ranked by any cosine that is the dot product on unit vectors and by bigram overlap, with a channel winner whose score equals that of the memory at place K + 2 in both channels. |
| HotCache.Cache.Get | internal/store/lru/cache.go:36-52 | A hit returns the stored value unless it has expired; an expired entry is removed. |
| HotCache.Cache.Set | internal/store/lru/cache.go:56-64 | The new value is stored; eviction drops any set of other entries. |
| HotCache.Store.SearchEpisodic | internal/store/sqlite/search.go:36-188 | A search is a permitted step: the cached answer, or a fresh one of matching rows, best first, which it may cache; `CacheAnswers.AnswersFitRequests` says what a cached answer is worth. |
| CacheAnswers.AnswersFitRequests | internal/store/sqlite/search.go:36-188 | Over every run each row of every answer, cached or fresh, has the project, language and task type asked for, was not retired when read unless retired ones are wanted, and the answer keeps to the limit; language and task type hold no colon. |
| CacheAnswers.UncachedKeepsBounds | internal/store/sqlite/search.go:45-83 | An answer that bypasses the cache holds current rows of the table that keep the weight floor and the time window. |
| CacheAnswers.FreshIsOrdered | internal/store/sqlite/search.go:84-188 | A fresh answer that is not ranked in process stands by weight, or by event time when asked for, and leaves a matching row out only when it is full of rows no worse. |
| CacheAnswers.SharedEntryIff | internal/store/sqlite/search.go:48 | Whatever is stored for one request answers another with the same key exactly when that one leaves open or repeats its project, language and task type and asks for no higher weight floor. |
| CacheAnswers.ColonsCollide | internal/store/sqlite/search.go:48 | A colon in a field lets requests for two projects share a key. |
| CacheAnswers.CachedAnswerIgnoresFloor | internal/store/sqlite/search.go:48-51 | A run of one write and two searches in which the second asks for heavy rows and is given a light one. |
| HotCache.Store.DeleteEpisodicByProject | internal/store/sqlite/store.go:171-181 | All rows of the project go, their number is returned, and the cache is purged. |
| HotCache.RunIsSound | internal/store/sqlite/search.go:36-188 | Over every run, with any eviction and expiry, every row of a cached or given answer has an identifier still in the table. |
| HotCache.StaysGone | internal/store/sqlite/store.go:171-181 | After a project's deletion neither table nor cache holds a row of it until it is written again. |
| HotCache.NoAnswerAfterDelete | internal/store/sqlite/store.go:171-181 | So no search returns one of its rows, whatever happens in between. |
| Condense.RedundancyIsSymmetric | internal/provider/condense.go:144-157 | Redundancy does not depend on the order of the two texts. |
| RecallLaws.RestatementMeans | internal/provider/condense.go:144-157 | Two texts restate each other if and only if they are equal, one contains the other, or their overlap reaches the threshold. |
| Condense.SuppressNearDuplicates | internal/provider/condense.go:117-137 | The loops compute the greedy suppression and count what they drop. |
| Condense.SuppressIsDistinct | internal/provider/condense.go:111-137 | What is kept is a rank-ordered subsequence without internal repetition. |
| Condense.SurvivorsAreNotRedundant | internal/provider/condense.go:111-179 | Kept episodes are pairwise non-redundant in either direction, and so are kept pitfalls of one entity. |
| Condense.DroppedRepeatsEarlier | internal/provider/condense.go:117-137 | Every item is kept or repeats one kept from before it. |
| RecallLaws.KeptEpisodesDiffer | internal/provider/condense.go:111-170 | Of two episodes kept, neither text as one line equals or contains the other, and their overlap is below the threshold, 0.9 unless set. |
| RecallLaws.DroppedEpisodeIsRestated | internal/provider/condense.go:117-170 | A dropped episode equals, contains, is contained in or overlaps enough with one kept from before it. |
| RecallLaws.KeptPitfallsDiffer | internal/provider/condense.go:111-179 | The same for the signatures of two pitfalls of one entity that are kept. |
| RecallLaws.DroppedPitfallIsRestated | internal/provider/condense.go:117-179 | A dropped pitfall restates one of its own entity kept from before it. |
| Condense.SuppressTwice | internal/provider/condense.go:117-137 | Suppressing twice changes nothing more. |
| Condense.EstimateTokens | internal/provider/condense.go:82-99 | One token per CJK character and one per four others, rounded up. |
| RecallLaws.TokensMean | internal/provider/condense.go:82-99 | The same with the CJK characters counted as a set, and the quotient bounded from both sides. |
| Condense.FormatPrefetch | internal/provider/retrieve.go:223-254 | The builder loops render header, lines and blocks, trimmed. |
| Condense.TrimKeepsSubsequence | internal/provider/retrieve.go:253 | Trimming respects subsequences of characters. |
| Condense.CondensingNeverGrows | internal/provider/condense.go:190-214 | Suppressing and cutting never raises the token estimate of the trimmed text. |
| Condense.CutTail | internal/provider/condense.go:204-213 | Items leave from the tail only while over budget, and the top item stays. |
| Condense.FormatPrefetchCondensed | internal/provider/condense.go:190-227 | The text renders prefixes of the suppressed lists with their top items, within budget or at length at most one, pitfalls cut only after episodes, never more tokens than the input, exact figures. |
| RecallLaws.BudgetIsMet | internal/provider/condense.go:190-227 | A text over budget holds at most one episode and one pitfall; when everything that survives suppression fits, or there is no budget, all of it is shown. |
| RecallLaws.NothingToCondense | internal/provider/retrieve.go:219-223 | Without restatements, and within the budget if there is one, the condensed text is the plain one. |
| RecallText.FormatRecall | internal/provider/condense.go:190-227 | The same for the wording in use. |
| RecallLaws.EpisodesAreShown | internal/provider/retrieve.go:223-237 | The summary of every episode rendered stands in the text, as one line, after trimming too. |
| RecallLaws.PitfallsAreShown | internal/provider/retrieve.go:238-253 | So does the advice on every pitfall, with entity, signature, cause, date and trust, and its fix if there is one. |
| Text.OneLineKeepsText | internal/provider/retrieve.go:223-237 | Rendering a text as one line loses and moves nothing but white space. |
| RecallText.OneLinePerEpisode | internal/provider/retrieve.go:223-237 | In the wording in use every episode takes exactly one line, whatever its summary contains; extra breaks come only from its language. |
| Reconsolidation.WalkVisits | internal/core/reconsolidation_engine.go:150-182 | Every edge is reported exactly once as updated, skipped or failed. |
| Reconsolidation.EachSourceOnce | internal/core/reconsolidation_engine.go:150-182 | Each stored target other than the corrected memory is corrected or failed once, whatever the multiplicity of edges; everything else is untouched. |
| Reconsolidation.DeltaIsGains | internal/core/reconsolidation_engine.go:180-181 | The reported delta is the sum of the gains of the updated memories. |
| Reconsolidation.GainsAreBoostedSum | internal/core/reconsolidation_engine.go:163-181 | That sum is the boost less one, times the sum of the old weights. |
| Reconsolidation.IncomingEdgesAreSkipped | internal/store/memory/memory_store.go:288-313 | An edge into the corrected memory, which the lookup returns too, adds one skipped entry and nothing else. |
| Reconsolidation.UpdatedAreSources | internal/core/reconsolidation_engine.go:150-182 | Corrected or reported as failed are exactly the stored memories, other than the corrected one, to which a DERIVED_FROM edge leads from it, when at least one hop is allowed. |
| Reconsolidation.CorrectionMeans | internal/core/reconsolidation_engine.go:163-178 | What a correction makes of a source, field by field, for semantic memories and for pitfalls. |
| Reconsolidation.ProcessSemantic | internal/core/reconsolidation_engine.go:131-185 | The loop with its writes equals the walk that boosts, appends the correction and raises trust. |
| Reconsolidation.ProcessPitfall | internal/core/reconsolidation_engine.go:190-239 | The loop equals the walk that boosts and, for user corrections, raises trust. |
| Reconsolidation.ProcessEpisodic | internal/core/reconsolidation_engine.go:85-127 | The corrected memory is boosted; a user correction raises trust and surprise and loses the new access time. |
| Reconsolidation.CorrectionsRaiseTrust | internal/core/reconsolidation_engine.go:175-178 | A user correction raises the trust of exactly the updated memories below the maximum, by one; no other trust changes. |
| Reconsolidation.Process | internal/core/reconsolidation_engine.go:60-82 | For semantic memories and pitfalls: each source boosted once, nothing else touched, trust at most 5 kept, every edge accounted for, delta exact. For an episodic memory: it is boosted, and a user correction raises trust and surprise, or else the access is recorded; nothing else changes. An unknown kind changes nothing. |

## Left out

- HTTP, MCP and JSON handling, configuration, logging, file scanning, the Python plugin and the evaluation client: plumbing.
- Language-model calls, parsing of their output, intent detection: parameters of the model.
- Neo4j, pgvector, Redis and object stores; SQLite is a table with a filter, an order and a limit.
- Decay and risk formulas, float rounding and NaN: a fresh memory's frequency and weight are a function of the clock.
- Consolidation runs and the retrieval engine's filters: they would only add easy members.
- Store I/O failures other than a missing memory, except for weight updates in reconsolidation and batch calls in ingest.
- MemoryStore.Store.SearchEpisodic: memories of equal weight come in any order; the access and creation times that break such ties are not modelled, because that comparison is not transitive in the code.
- RuleGovernance.Resolve: creation and resolution of a record share one instant, and the wording of reasons is not modelled.
- BenchIngest.HandleAdd: assumes that the batch embedder, when it answers, agrees with the single one and gives no empty vector; `PoolAnswersAgree` proves this of the worker pool. Response codes and request decoding are not modelled.
- WritePipeline.WriteMemory: the embedder is a function of the text, so repeated calls agree.
- RuleFixpoint.SecondPassDetectsNothing: needs the caps on rules and records, which the code does not enforce; beyond the caps on rules `RuleConvergence.PassesConverge` bounds the passes.
- SignalFixpoint.SecondPassFindsNothingIff: excludes covered memories through whose tie in time the cap of 500 cuts, because the sort then decides whether the search reports them; `CutTieIsOpen` proves that both happen, `SmallPoolCutsNoTie` that within the cap nothing is excluded.
- SupersededGraph.SignalKeepsAcyclicIff: the same premise, for a covered root alone; `CutTieLeavesCycleOpen` proves that both happen.
- WritePipeline.WorkingMemoryBuffer.Push: the ring buffer is a sequence; its head and size are not modelled.
- WritePipeline.LinkOnWrite: a write shares one instant with the pitfalls it touches; the weight and status of pitfalls belong to other engines.
- WriteRuns.RunKeepsForest: signals on retired memories are excluded; `SignalKeepsAcyclicIff` says what they do.
- HotCache.Store.SearchEpisodic: an answer ranked in process is drawn from the prefiltered pool; its order is the subject of `RankFusion`. Which rows a search with a surprise boost prefers is not in the key either, so a cached answer may be ordered otherwise.
- The models of the rules' store and of the episodic store are separate objects; no engine uses both.
- Edge properties, reasons and time stamps: explanatory text that no decision reads.
