# Decompute, modelled and proved

Decompute spreads language-model inference over workers. A worker runs one GGUF model
and keeps prompt state of recent sessions; a coordinator picks a worker for each public
request and relays its answer. This project models the parts of both whose correctness
is not visible from any one function, and proves what they promise.

Five parts, each on its own modules:

* **The session cache** (`Llama`, `Generation`, `GenerationMeaning`, `SessionCache`,
  `Runtime`, `CacheRuns`, `CacheMeaning`).
  A KV cell is an unknown function of the cells it attends to, logits and sampling are
  unknown functions as well. `Generation` says what a call computes, with no cache in
  sight: an outcome per prompt, settings and pattern of failures. `Runtime` is the code:
  the replay from the last cached token, the generation loop, eviction, publication and
  the class that owns the cache. `GenerationMeaning` tells the outcome of a call by the
  run of tokens it draws, without the loop. Every step that can fail has a name in `Step`, and the
  pattern of failures is an arbitrary function, so each theorem covers all of them.
  `CacheRuns` speaks of any sequence of calls.
* **Tool calls** (`Text`, `Json`, `JsonRoundTrip`, `JsonReading`, `JsonGrammar`, `Chat`,
  `ToolHistory`, `TaggedText`, `ToolCallParser`, `ToolCallForms`, `ToolProtocol`,
  `QwenTemplate`, `QwenPrompt`, `QwenRoundTrip`, `VisibleText`, `ChatGeneration`). The
  history validator against a declarative reading of a history, the block parser, and the
  Qwen template with the JSON printer and reader it relies on, the reader being exact for
  the grammar of RFC 8259 (sections 2 to 7) up to 127 nested containers.
* **Worker admission** (`WorkerAdmission`, `WorkerRuntime`, `SessionLeases`). Any number
  of request handlers, cancel calls and lease holders, interleaved atomic step by step.
* **The registry** (`Scheduler`, `Registry`, `RegistryRuns`). Selection, affinity,
  heartbeats, expiry and the two halves of `mark_offline`, under concurrent requests.
* **Forwarding** (`SseFraming`, `Utf8`, `StreamEvents`, `EventTexts`, `Forwarding`,
  `StreamDelivery`, `Cancellation`, `ToolCallDelivery`, `RequestTasks`, `TaskRuns`). Framing of an event stream over arbitrary
  chunks (sections 9.2.5 and 9.2.6 of the WHATWG HTML Living Standard), UTF-8 (section 3
  of RFC 3629), the private events as JSON, the tasks that relay them or forward a request in
  one piece, and any interleaving of such tasks on the registry they share.

`ModelActor` puts the first, second and last part together: a client of the public
stream cannot tell a request with a session from the same request without one.

Where the source works step by step the model is imperative: `GgufModel`,
`WorkerRuntime`, `Leases` and `Registry` are classes whose methods change their fields,
and each method is proved equal to a function or predicate on the class's `View()` about
which the lemmas then speak. For the two classes whose methods wait or retry while others
act, the function is in turn proved to be a run of the protocol's own steps, interleaved
with runs of the others: `ReservingIsARun` and `SectionsAreSteps` for `WorkerRuntime`,
`AcquiringIsARun` and `DroppingIsARun` for `Leases`.

## Claims that turn out not to hold as stated

* The repository's README.md:143-146 says that cancellation, errors and context overflow discard the
  affected cache entry. The code rejects an over-long prompt (`runtime.rs:297`) and an
  already cancelled call (`runtime.rs:278`) before it looks at the cache, and passes the
  cache by for short prompts. `FailedCallDiscards` gives the exact condition,
  `FailuresThatKeep` a run in which both kinds leave the entry in place.
* Frames do not depend on chunk boundaries only if no pair of CRLFs comes before a pair
  of line feeds: `ChunkIndependence` is an equivalence, `MixedBody` a body whose frames
  do depend.
* Tool markup can stay visible after parsing, since a removed block may join the halves
  of a tag: `MarkupLeaks` is an equivalence and `JoinedMarkup` an instance.
* A heartbeat overwrites the coordinator's count; `HeartbeatOverbooks` reserves one slot
  twice. `CountReturnsToBase` says exactly when the accounting is right.
* A body error after the completed event yields an error and the end mark:
  `ErrorBesideDone` in general and `CompletedThenBroken` for one stream.
* The parser accepts arguments nested deeper than the private stream can carry:
  `PayloadRoundTrip` and `ParsedCallsReachTheClient` have the exact bound, 123 containers,
  and `DeepCallIsLost` a call at 124.
* A request dropped between the halves of `mark_offline` leaves bindings to an offline
  worker: `DanglingEndsExactly` says until when, `AbandonedMarkDangles` is such a run.

## Model

| member | source | states |
|---|---|---|
| Llama.ReplayExtends | crates/decompute-llama/src/runtime.rs:374-398 | Decoding the queued rest of a prompt on top of any prefix of it fills the generation sequence with exactly the cells of the whole prompt, at contiguous positions within the capacity, with the logits of its last token; no other sequence changes |
| Llama.RewindOne | crates/decompute-llama/src/runtime.rs:370-377 | Clearing the last cached position leaves the cells of the prefix without its last token |
| Llama.Decode | crates/decompute-llama/src/runtime.rs:398 | A batch decode equals a fold of single decodes, and may only be called when every entry is at the next free position |
| Generation.CacheIsInvisible | crates/decompute-llama/src/runtime.rs:270-529 | For every prompt, settings, failure pattern and reused prefix: a call that succeeds through the cache returns the pieces, text and token counts of the same call on a fresh context, and the other way round, unless a step fails that only the other way takes |
| Generation.ContinueBounds | crates/decompute-llama/src/runtime.rs:420-455 | The decoded history only grows and stays within the capacity; the loop emits as many tokens as it counts, or one more if it stopped on a full context |
| Generation.RunBounds | crates/decompute-llama/src/runtime.rs:296-528 | Input plus output tokens never exceed the context, nor output tokens the budget |
| GenerationMeaning.CallExplained | crates/decompute-llama/src/runtime.rs:403-528 | Told without the loop: every prepared call has a run of tokens, each the sample after the prompt and the earlier ones and none of them ending the generation; the text is what they say, the output count the number decoded; a call that ends below its limits does so because the next sample ends the generation, and an error is the first step that fails |
| GenerationMeaning.PreparationExact | crates/decompute-llama/src/runtime.rs:278-411 | A step before the first sample is the reported error exactly if it fails and is the first that does |
| GenerationMeaning.PromptErrorsExact | crates/decompute-llama/src/runtime.rs:284-302 | A prompt is refused as empty or as too long exactly if it is, after cancellation and tokenizing and before anything else |
| Runtime.EstimatedCacheBytes | crates/decompute-llama/src/runtime.rs:154-170 | The chain of saturating products is the saturated true product, with the fallbacks for zero or overflowing widths |
| Runtime.EstimateExact | crates/decompute-llama/src/runtime.rs:154-170 | The size of a checkpoint in plain terms of the layer, head and embedding counts, where the fallbacks apply included |
| Runtime.QueueReplay | crates/decompute-llama/src/runtime.rs:378-397 | The batch holds the replayed tokens at absolute positions, asks for logits only at the last, and stops at the first position that cannot be queued |
| Runtime.PrepareSequence | crates/decompute-llama/src/runtime.rs:356-377 | The generation sequence holds the reused prefix but its last token, or nothing for a fresh context; the error is the first failing step's |
| Runtime.Prefill | crates/decompute-llama/src/runtime.rs:374-411 | Afterwards generation and candidate sequences hold exactly the prompt's cells and the logits are fresh |
| Runtime.SampleLoop | crates/decompute-llama/src/runtime.rs:412-455 | The loop delivers the pieces, text, position and error of the specification, keeps the candidate checkpoint, and decodes only at the next free position below the capacity |
| Runtime.GgufModel.constructor | crates/decompute-llama/src/runtime.rs:129-152 | A loaded model starts with an empty cache |
| Runtime.GgufModel.ExpireIdle | crates/decompute-llama/src/runtime.rs:307-321 | Exactly the entries idle longer than the limit go, each counted as an expiration |
| Runtime.GgufModel.LookUp | crates/decompute-llama/src/runtime.rs:322-355 | The session's entry leaves the cache whatever the outcome; a hit hands out a context whose committed sequence is the prompt's prefix; hit or miss is counted |
| Runtime.GgufModel.MakeRoom | crates/decompute-llama/src/runtime.rs:470-499 | Least recently used entries go, one at a time, until one more fits; it terminates and its break is never taken |
| Runtime.GgufModel.Publish | crates/decompute-llama/src/runtime.rs:456-520 | The entry is inserted only after both copying steps; on failure only the evictions remain |
| Runtime.GgufModel.Serve | crates/decompute-llama/src/runtime.rs:356-529 | The part of a call after the lookup has the outcome of the cache-free specification, and publishes exactly if everything before went well and the entry is not oversized |
| Runtime.GgufModel.Generate | crates/decompute-llama/src/runtime.rs:270-529 | A whole call has the outcome told without the cache, moves the cache by one call step, and keeps every entry's committed sequence equal to the cells of its tokens |
| Runtime.GgufModel.InvalidateSession | crates/decompute-llama/src/runtime.rs:539-546 | The session's entry goes and is counted, other entries stay |
| SessionCache.EvictionIsLru | crates/decompute-llama/src/runtime.rs:470-499 | After eviction one more entry fits, survivors are untouched, and no evicted entry was used later than a survivor |
| SessionCache.EvictionIsNeeded | crates/decompute-llama/src/runtime.rs:470-499 | Nothing is evicted needlessly: with the most recent evicted entry back, there is no room |
| SessionCache.CallKeepsBounds | crates/decompute-llama/src/runtime.rs:456-519 | Every call keeps the entry limit and, below the saturation point, the true byte sum within the byte limit |
| SessionCache.OverflowIsNeverAHit | crates/decompute-llama/src/runtime.rs:456-469 | The return for an oversized entry never follows a hit, so a reused entry is never lost there |
| SessionCache.FailureIsTransactional | crates/decompute-llama/src/runtime.rs:322-520 | A failed cacheable call leaves its session absent, alters no other entry, and counts an invalidation exactly if it was reusing a prefix |
| SessionCache.FailedCallDiscards | crates/decompute-llama/src/runtime.rs:278-302 | Exactly which failed calls keep the entry of their session, contrary to the documentation |
| SessionCache.OthersLeaveOnly | crates/decompute-llama/src/runtime.rs:307-499 | Entries of other sessions leave only by expiry, or by an eviction for a finished call, oldest first |
| SessionCache.SuccessPublishes | crates/decompute-llama/src/runtime.rs:500-520 | A successful cacheable call leaves exactly its prompt tokens, size and start time behind |
| CacheMeaning.LookupExact | crates/decompute-llama/src/runtime.rs:303-336 | A call finds its session exactly if it has one, entries may be kept, the prompt is long enough, and the entry is not stale and begins the prompt |
| CacheMeaning.PublishesExact | crates/decompute-llama/src/runtime.rs:456-469 | A checkpoint is due exactly if the call may use the cache and one entry alone is within the byte limit |
| CacheMeaning.OthersAfterCall | crates/decompute-llama/src/runtime.rs:307-499 | After a call that reaches the lookup no other session has a stale entry, and one that is not stale is lost only to make room, and only if no more recent than those left |
| CacheMeaning.CountersExact | crates/decompute-llama/src/runtime.rs:307-355 | Each call counts one hit, one miss or neither, an expiration per stale entry, and an invalidation exactly for a reused entry that does not come back |
| CacheRuns.RunsStayBounded | crates/decompute-llama/src/runtime.rs:456-519 | The bounds hold in every state of every run |
| CacheRuns.CallsAreTransparent | crates/decompute-llama/src/runtime.rs:270-529 | Whatever the cache holds, hence in every state of every run, a call with its session returns what it returns without one; the cells are the business of Generate |
| CacheRuns.EntriesAreConserved | crates/decompute-llama/src/runtime.rs:93-546 | At any point of any run: live entries = publications - hits - mismatches - evictions - expirations - parse invalidations; the invalidation counter is parse invalidations plus hits not republished; hits plus misses count the calls that looked or passed by |
| CacheRuns.FailuresThatKeep | crates/decompute-llama/src/runtime.rs:278-302 | A run that publishes a session and then fails once on an over-long prompt and once as already cancelled, with the entry still in the cache |
| ToolHistory.ValidateToolHistory | crates/decompute-core/src/chat.rs:94-169 | The loop over queue and id sets computes the verdict function; the second id set never decides anything |
| ToolHistory.VerdictExact | crates/decompute-core/src/chat.rs:94-169 | A history is accepted if and only if every message is well formed, answers follow the calls in order, open ids are distinct, and nothing is open at a system or user message or at the end |
| ToolProtocol.FirstErrorNamed | crates/decompute-core/src/chat.rs:94-169 | Which error the first offending message gives, in terms of what was asked and answered before it |
| ToolCallParser.ParseOne | crates/decompute-llama/src/tool_calls.rs:37-81 | A parsed call has a non-empty id, a declared name and an object of arguments |
| ToolCallForms.ParseOneExact | crates/decompute-llama/src/tool_calls.rs:37-81 | A body is a given call if and only if it is JSON with a declared name and an object of arguments, or its text, at the top or under `function`, and the id is its `id` member if that is a string, and else the generated one |
| ToolCallForms.FormsParse | crates/decompute-llama/src/tool_calls.rs:43-81 | Written with or without an id, a `function` member or arguments as text, every call reads as meant, exactly up to the nesting the form leaves room for |
| ToolCallParser.ExtractToolCalls | crates/decompute-llama/src/tool_calls.rs:7-35 | The parsing loop equals splitting the text into segments and blocks and interpreting the blocks in order, with the first error winning |
| ToolCallForms.TextExact | crates/decompute-llama/src/tool_calls.rs:7-35 | A text is accepted if and only if no block is left open and each block is a call in its place with an id of its own; what shows is the text around the blocks, trimmed |
| ToolCallForms.FirstErrorWins | crates/decompute-llama/src/tool_calls.rs:16-35 | The first block that is no call or repeats an id decides the error; an open block is the error only if all whole ones are calls |
| ToolCallParser.ParsedCallsAreProper | crates/decompute-llama/src/tool_calls.rs:16-35 | All parsed ids are non-empty and pairwise distinct, generated or explicit |
| ToolCallParser.GeneratedIdInjective | crates/decompute-llama/src/tool_calls.rs:64-68 | Generated ids of one request differ |
| TaggedText.SplitAssembled | crates/decompute-llama/src/tool_calls.rs:16-33 | Clean segments and bodies are recovered from the text they are assembled to |
| TaggedText.AssembleSplit | crates/decompute-llama/src/tool_calls.rs:16-33 | Every text with no open block is the assembly of its pieces, which are clean |
| ToolProtocol.ParsedCallsAreAnswerable | crates/decompute-llama/src/tool_calls.rs:16-35 | Appending the parsed calls and one result per call in order to any accepted history is accepted under the same tools |
| QwenTemplate.PromptPrefixStable | crates/decompute-llama/src/templates.rs:6-26 | The prompt of a history is a prefix of the prompt of every continuation that starts with an assistant turn, also after a run of tool results |
| QwenPrompt.PromptShowsEverything | crates/decompute-llama/src/templates.rs:6-26 | A prompt is its header, one literal block per message in order and the opening of the answer: role and content of each, tool results in runs, calls with name and arguments; with tools the header holds the first system message or the default one and every declaration |
| QwenRoundTrip.RenderedTurnParses | crates/decompute-llama/src/templates.rs:16-19 | Parsing a rendered assistant turn gives back its trimmed content, names and arguments in order, exactly if no arguments nest deeper than 126 containers |
| JsonRoundTrip.ParsePrint | crates/decompute-llama/src/tool_calls.rs:43-44 | A well-formed value survives writing in either style and reading, if and only if it nests at most 127 containers |
| JsonRoundTrip.PrintAvoids | crates/decompute-llama/src/templates.rs:18 | HTML-safe output has no opening angle bracket, and no output has a control character |
| JsonReading.ReadingIsStable | crates/decompute-llama/src/tool_calls.rs:43-57 | What was read is well formed, and writing and reading it again changes nothing |
| JsonGrammar.ReaderExact | crates/decompute-llama/src/tool_calls.rs:43-44 | The reader accepts exactly the texts of the JSON grammar, with any spacing and escapes, that open at most 127 containers, and reads each as its value, the last of repeated members counting |
| JsonGrammar.NumberGrammar | crates/decompute-llama/src/tool_calls.rs:43-44 | Number texts are a sign, an integer without leading zeros, a fraction and an exponent, and nothing else |
| JsonGrammar.WritesChars | crates/decompute-llama/src/templates.rs:18-19 | Which characters are escaped when written, and how, in either style |
| VisibleText.MarkupLeaks | crates/decompute-llama/src/tool_calls.rs:16-35 | The visible text of a parsed output holds an opening tag exactly if the texts around some removed block join to one |
| VisibleText.JoinedMarkup | crates/decompute-llama/src/tool_calls.rs:16-35 | Any acceptable call between the halves of a tag gives a visible text that is a bare opening tag |
| ChatGeneration.GenerateChat | crates/decompute-llama/src/runtime.rs:220-268 | A chat request has the outcome of the specification; an unparsable reply drops its session, a failing last callback does not |
| ChatGeneration.PromptExact | crates/decompute-llama/src/runtime.rs:178-237 | Which template renders a request, and each reason why none does |
| ChatGeneration.PresentExact | crates/decompute-llama/src/runtime.rs:232-266 | The reply in plain terms of the generated text: counts, text, calls and finish reason, or the error of the parser or of the last callback |
| ChatGeneration.PiecesAreTheText | crates/decompute-llama/src/runtime.rs:420-437 | The delivered pieces of a successful call concatenate to its text, so the tool parser sees the whole output |
| ChatGeneration.ShownIsTheReply | crates/decompute-llama/src/runtime.rs:232-266 | Without tools the caller was shown exactly the reply; with tools at most one piece, after parsing; the finish reason tells whether there are calls |
| ChatGeneration.RepliedCallsParse | crates/decompute-llama/src/runtime.rs:246-266 | The text and calls of a reply are those parsed from the whole generated text, and are proper under the offered tools |
| ChatGeneration.ChatIsTransparent | crates/decompute-llama/src/runtime.rs:220-268 | A session changes neither what is shown nor the reply, whatever the cache holds |
| ChatGeneration.UnparsedReplyDiscards | crates/decompute-llama/src/runtime.rs:248-255 | A reply that cannot be parsed leaves its session out of the cache |
| ChatGeneration.NextTurnHits | crates/decompute-llama/src/runtime.rs:322-336 | With a tokenizer that keeps this prefix, the next turn of a conversation reuses all cached tokens of the last prompt |
| ChatGeneration.ChatRunsAreRuns | crates/decompute-llama/src/runtime.rs:220-268 | Every run of chat requests is a run of the cache, so the run theorems hold of chat |
| ModelActor.RunJobs | crates/decompute-sdk/src/gguf.rs:37-63 | The thread that owns the model serves any list of jobs from an empty cache; each job that gets through, at whatever heap the earlier ones left, has the outcome of the same request alone |
| ModelActor.RepliesReachTheClient | crates/worker/src/state.rs:348-374 | From the model's output to the public stream: role, text in pieces, tool calls, final chunk and end mark, and the pieces make up the reply's text |
| ModelActor.ClientsCannotTell | crates/decompute-llama/src/runtime.rs:220-529 | For any cache state, connection behaviour and chunking, a request that gets through has the same public stream with and without its session |
| WorkerAdmission.RunsKeepInvariant | crates/worker/src/state.rs:31-245 | Under every interleaving, with stale loads and failing exchanges: the active count is the number of slots held and within the limit, registered ids are exactly those of running handlers, and cancel calls are answered honestly |
| WorkerAdmission.ReleaseNeverWraps | crates/worker/src/state.rs:233-245 | The atomic subtraction never wraps around |
| WorkerAdmission.QuiescenceIsClean | crates/worker/src/api.rs:59-106 | Once all handlers are done, no slot is taken and no id registered |
| WorkerAdmission.RemovesItsOwn | crates/worker/src/state.rs:65-69 | A finishing handler removes its own registration, never another one of the same id |
| WorkerAdmission.TrueMeansFinished | crates/worker/src/state.rs:48-69 | A cancel call answers true only after the very registration whose token it cancelled has finished |
| WorkerAdmission.FalseMeansUnregistered | crates/worker/src/state.rs:48-63 | A cancel call comes to answer false exactly at a lookup of an unregistered id; the closed-channel branch is unreachable |
| WorkerAdmission.CancelIsWoken | crates/worker/src/state.rs:57-62 | A waiting cancel call can go on, and to true, as soon as its registration has finished |
| WorkerAdmission.DrainedOnlyShrinks | crates/worker/src/state.rs:204-232 | Once draining with no reservation loop under way, no slot is ever taken again |
| WorkerAdmission.DrainingIsFinal | crates/worker/src/state.rs:204-206 | A worker drains exactly from the first order to drain on, over every run |
| WorkerAdmission.AdmissionExact | crates/worker/src/state.rs:210-245 | A handler is turned away exactly for the wrong model, a draining or a full worker, takes a slot exactly by an exchange on the current count, and runs exactly if its id is not registered |
| WorkerRuntime.WorkerRuntime.TryReserve | crates/worker/src/state.rs:210-232 | Against any rivals the loop takes exactly one slot on success and none otherwise, stays within the limit, and refuses for capacity only after reading a full count |
| WorkerRuntime.WorkerRuntime.BeginRequest | crates/worker/src/state.rs:31-46 | An id is registered with a new token and channel unless it is taken, in which case nothing changes |
| WorkerRuntime.WorkerRuntime.FinishRequest | crates/worker/src/state.rs:242-245 | The registration goes, its channel says so and closes, and the slot is given back |
| WorkerRuntime.WorkerRuntime.Capabilities | crates/worker/src/state.rs:181-202 | The report: draining, else busy when full, else available |
| WorkerRuntime.ReservingIsARun | crates/worker/src/state.rs:210-232 | What the reservation loop computes against its rivals is reached by the protocol's check and attempts, interleaved with runs of the rivals |
| WorkerRuntime.SectionsAreSteps | crates/worker/src/state.rs:239-245 | Registering, giving up and finishing do to the shared state what the handler's steps do |
| WorkerRuntime.RivalsKeepMine | crates/worker/src/api.rs:59-106 | In every state of the protocol a handler between its steps finds its slot, registration and channel untouched |
| WorkerRuntime.WorkerRuntime.Serve | crates/worker/src/api.rs:59-106 | With rivals before every attempt, before it registers and while it generates, a request leaves on every path what they leave, its own slot given back and its own registration gone, and conflicts exactly if its id is active |
| SessionLeases.MutualExclusion | crates/worker/src/state.rs:78-134 | Under every interleaving at most one live lease per session, and a session is marked taken exactly while there is one |
| SessionLeases.NoLostWakeup | crates/worker/src/state.rs:78-134 | A blocked client can be woken, or its session is held, or a releaser is between removal and notification |
| SessionLeases.ReleaseWakesWaiters | crates/worker/src/state.rs:89-101 | The notification of a release enables every blocked client |
| SessionLeases.Leases.Acquire | crates/worker/src/state.rs:104-133 | The waiting loop, against any turns of the others: a lease is given only when the session is free then, and a patient wait without one ends by a timeout |
| SessionLeases.AcquiringIsARun | crates/worker/src/state.rs:104-133 | What the waiting loop computes is reached by the client's listen, insert, wake and time-out steps, interleaved with runs of the other clients |
| SessionLeases.DroppingIsARun | crates/worker/src/state.rs:89-101 | The two halves of dropping a lease are the protocol's steps |
| Scheduler.SelectWorker | crates/coordinator/src/scheduler.rs:4-31 | In whatever order workers come, some eligible one that none precedes is chosen, or none if none is eligible |
| Scheduler.BestExact | crates/coordinator/src/scheduler.rs:8-31 | The lexicographic minimum of acceleration rank, active requests and id exists exactly if a worker is eligible, and is unique |
| Scheduler.EligibleExact | crates/coordinator/src/scheduler.rs:8-17 | A worker is eligible if and only if it is available, has room and has loaded the model |
| Scheduler.BestIsNotBeaten | crates/coordinator/src/scheduler.rs:17-31 | The chosen worker runs on a Cpu only if no eligible one has Metal or Cuda; among its kind none has fewer active requests, and among those with as few none has a lesser id |
| Scheduler.SelectFrom | crates/coordinator/src/registry.rs:114-117 | Selection over the table gives that minimum, whatever the iteration order |
| Registry.Registry.Register | crates/coordinator/src/registry.rs:43-58 | The record under the reported id is replaced whole |
| Registry.Registry.Heartbeat | crates/coordinator/src/registry.rs:59-72 | A known worker's record takes over everything but id and address; an unknown one changes nothing |
| Registry.Registry.AvailableModels | crates/coordinator/src/registry.rs:76-90 | The models some worker that is not offline has loaded |
| Registry.Registry.SelectAndReserve | crates/coordinator/src/registry.rs:91-136 | The chosen worker is counted one up and bound to the session; without one nothing changes |
| Registry.Registry.Release | crates/coordinator/src/registry.rs:137-144 | One reservation less, never below zero, and busy ends when there is room |
| Registry.Registry.MarkOffline | crates/coordinator/src/registry.rs:145-148 | The first critical section: only the state of that worker changes |
| Registry.Registry.DropBindings | crates/coordinator/src/registry.rs:149-152 | The second critical section: exactly the bindings to that worker go |
| Registry.Registry.ExpireAt | crates/coordinator/src/registry.rs:157-170 | Exactly the stale workers go offline, and old, unknown or offline bindings go |
| Registry.SelectionExact | crates/coordinator/src/registry.rs:91-117 | A worker is selected if and only if one is eligible, whatever the bindings; without a usable binding it is the unique best |
| Registry.ChosenExact | crates/coordinator/src/registry.rs:98-117 | The bound worker if its binding is fresh and it is eligible, and else the one that no other beats on acceleration, load and id |
| Registry.ReservationExact | crates/coordinator/src/registry.rs:127-144 | What reserving and releasing do to a record: the count, and when busy begins and ends |
| Registry.ExpiryExact | crates/coordinator/src/registry.rs:157-170 | A worker goes offline exactly if its last heartbeat is older than the timeout, and a binding stays exactly if fresh and its worker not offline then |
| Registry.SessionsStick | crates/coordinator/src/registry.rs:98-126 | A session that returns within 15 minutes keeps its worker while that is eligible |
| RegistryRuns.RunsKeepInvariant | crates/coordinator/src/registry.rs:43-170 | Over every run with consistent reports: keys are record ids, counts within limits, busy exactly when full, and bindings lead to known workers that are offline only during an unfinished `mark_offline` or after an abandoned one |
| RegistryRuns.DanglingIsExcused | crates/coordinator/src/registry.rs:145-153 | A binding to an offline worker needs a `mark_offline` that is unfinished or was abandoned |
| RegistryRuns.DanglingEndsExactly | crates/coordinator/src/registry.rs:145-170 | Such a binding ends exactly with a report of the worker, an expiry sweep, the second half of a `mark_offline` of it, or another worker for the session |
| RegistryRuns.AbandonedMarkDangles | crates/coordinator/src/api.rs:400-407 | A run in which a request is dropped between the halves and a binding to an offline worker stays, with nothing under way |
| RegistryRuns.WorkersReportConsistently | crates/worker/src/state.rs:181-202 | What a worker reports in any reachable states is consistent in that sense |
| RegistryRuns.OutUntilReport | crates/coordinator/src/registry.rs:91-170 | A worker that went offline or draining gets no new reservation before its next report |
| RegistryRuns.SurplusConstant | crates/coordinator/src/registry.rs:127-144 | Between two reports the count is what the tasks hold plus a constant, unless a release is clamped, and that needs a report that counted less than was held |
| RegistryRuns.CountReturnsToBase | crates/coordinator/src/registry.rs:127-144 | When all tasks have released, the count is the reported one less what was held at the report, exactly if the report covered that |
| RegistryRuns.HeldWithinLimit | crates/coordinator/src/registry.rs:127-144 | While reports cover what is held, reservations never exceed the worker's limit |
| RegistryRuns.HeartbeatOverbooks | crates/coordinator/src/registry.rs:59-72 | A concrete run in which a worker with one slot ends up with two reservations |
| SseFraming.FeedKeeps | crates/coordinator/src/api.rs:202-214 | Frames and leftover concatenate to the bytes received, however they were split, and the leftover holds no whole frame |
| SseFraming.ChunkIndependence | crates/coordinator/src/api.rs:306-317 | The frames of a body are the same for every split if and only if no pair of CRLFs precedes a pair of line feeds |
| SseFraming.MixedBody | crates/coordinator/src/api.rs:306-317 | A body that is two frames in two chunks and one frame in one |
| SseFraming.LineFeedsOnly | crates/coordinator/src/api.rs:306-317 | For bodies without carriage returns every split gives the same frames and leftover |
| Utf8.DecodeEncode | crates/coordinator/src/api.rs:319-321 | Every text survives encoding and decoding |
| Utf8.EncodeDecode | crates/coordinator/src/api.rs:319-321 | What decodes is the encoding of its text: overlong forms and surrogates are refused |
| EventTexts.FrameData | crates/coordinator/src/api.rs:319-331 | The data of a frame are its data lines without prefix and leading whitespace, whatever their line ends, and other lines do not matter |
| StreamEvents.PayloadRoundTrip | crates/protocol/src/requests.rs:112-129 | An event that is sent is read as sent, exactly if no arguments nest deeper than 123 containers; otherwise it is unreadable |
| StreamEvents.PayloadIsALine | crates/protocol/src/requests.rs:112-129 | A written event has no line breaks |
| EventTexts.CompletedText | crates/protocol/src/requests.rs:112-129 | The wire text of a completed event, literally; `DeltaText`, `ErrorText` and `CallEventText` do the others |
| EventTexts.ReadEventExact | crates/protocol/src/requests.rs:112-129 | A JSON value is a given event if and only if it has the members of one |
| Forwarding.ForwardWorkerStream | crates/coordinator/src/api.rs:184-286 | The task over chunks does what the specification does over frames, on every exit |
| Forwarding.HandleFrame | crates/coordinator/src/api.rs:213-275 | What one frame leads to: skipping, passing on, or one of the ends of the task |
| RequestTasks.StreamRequest | crates/coordinator/src/api.rs:123-182 | However a streamed request goes, its log holds one release, at the end; without a stream nothing is sent and the worker goes offline exactly if unreachable; an end mark needs a whole completed event |
| RequestTasks.ForwardWorkerRequest | crates/coordinator/src/api.rs:364-439 | The request future is a list of stages that may be dropped at any wait: at every one the reservation is released once, last, and the worker is marked offline in full, half or not at all, exactly as stated |
| StreamDelivery.ReleasesExactlyOnce | crates/coordinator/src/api.rs:184-421 | Whatever the worker sends and whoever goes away, the reservation is released exactly once, as the last action |
| StreamDelivery.DoneNeedsCompleted | crates/coordinator/src/api.rs:276-286 | `[DONE]` is offered exactly if the task got to the end of the body with a completed event, hence never without a whole one |
| Cancellation.CancelledExactly | crates/coordinator/src/api.rs:184-421 | A relayed stream ends with the token cancelled, the worker told, the worker taken offline in both halves exactly if it cannot be told, and the release, after the last chunk; unless the end mark was sent, the worker reported an error, or a closing chunk was refused, and then it cancels nothing |
| StreamDelivery.WorkerErrorArrives | crates/coordinator/src/api.rs:264-269 | An error the worker reports after any deltas reaches the client as that error, followed by the release alone |
| StreamDelivery.EarlyEndArrives | crates/coordinator/src/api.rs:281-285 | A stream that ends without a completed event tells the client so and cancels the request |
| StreamDelivery.ErrorBesideDone | crates/coordinator/src/api.rs:202-286 | A client that is offered `[DONE]` is also offered an error exactly if the body failed |
| StreamDelivery.CompletedThenBroken | crates/coordinator/src/api.rs:202-286 | One stream whose body fails after its completed event, with the error and the end mark both sent |
| StreamDelivery.EventsArrive | crates/worker/src/api.rs:107-114 | However the body is split, the events a worker sends are the events the task reads |
| StreamDelivery.EndToEnd | crates/coordinator/src/openai.rs:327-384 | Deltas and a completed event reach a client that stays as role, deltas in order, optional tool chunk, final chunk and `[DONE]`, followed by one release, for every split into chunks |
| ToolCallDelivery.ParsedCallsReachTheClient | crates/coordinator/src/openai.rs:349-384 | Calls parsed from the model's text reach the client with ids, names, order and an argument text that reads back, exactly if they are shallow enough for the private stream |
| ToolCallDelivery.DeepCallIsLost | crates/protocol/src/requests.rs:112-129 | A text whose call nests 124 containers: the parser takes it, and its event does not read back |
| TaskRuns.TaskLogs | crates/coordinator/src/api.rs:123-439 | Every task's log has one release, at its end, and marks offline half by half |
| TaskRuns.NeverStuck | crates/coordinator/src/registry.rs:127-153 | A task's next registry action is possible whenever no selection holds the lock |
| TaskRuns.SystemRunsAreRegistryRuns | crates/coordinator/src/registry.rs:43-170 | Every interleaving of tasks carrying out their logs with reports, expiry and selections is a run of the registry |
| TaskRuns.TasksReturnTheCount | crates/coordinator/src/api.rs:184-421 | When all tasks of such an interleaving are done nothing is reserved, and the count is the last reported one less what was held then, exactly if the report covered it |

## Left out

- Llama.CopySequence: the physical cells behind sequences, their sharing, batch size limits and numerics of the native library are not modelled; copying requires a cleared target, which the code provides.
- Runtime.GgufModel.Generate: a panic inside native code and the unsafe lifetime extension of contexts are not modelled; cancellation is one possible failure per check, so it need not stay set.
- ChatGeneration.NextTurnHits: that the tokenizer turns a text prefix into a token prefix is an assumption, since the tokenizer is foreign code.
- ChatGeneration.GenerateChat: foreign templates and the embedded one are arbitrary functions that may fail; loading them from disk is left out.
- Json.Parse: numbers stay lexemes, so the range check and the reformatting of floating point numbers are not modelled.
- JsonRoundTrip.ParsePrint: says nothing about numbers that the library reformats or refuses, since numbers stay lexemes.
- JsonGrammar.ReaderExact: takes numbers as lexemes, so one beyond the range of floating point numbers is read here and refused by the library.
- JsonReading.ReadingIsStable: is about lexemes of numbers, not about floating point values written anew.
- QwenRoundTrip.RenderedTurnParses: takes the numbers in arguments as lexemes.
- StreamEvents.PayloadRoundTrip: takes the numbers in arguments as lexemes.
- ToolCallDelivery.ParsedCallsReachTheClient: takes the numbers in arguments as lexemes.
- StreamEvents.ParseEvent: repeated keys take the last value instead of being refused, and events or calls written as arrays instead of objects are refused.
- WorkerAdmission.Next: the draining flag is read without staleness, and the cancellation that a stream task issues itself when its receiver goes away is left out; it sets a token and nothing else.
- SessionLeases.Leases.Acquire: time appears only as a flag per turn of the others; that a timeout fires is not stated.
- WorkerRuntime.WorkerRuntime.Serve: covers the part of both handlers that touches the shared state; its finish is one section here, whose four steps are apart in `WorkerAdmission`.
- Registry.Registry.AvailableModels: the sorted list without repetitions is a set here.
- RegistryRuns.Next: binding a session and counting its reservation are one step, since only the bindings could be touched between them.
- Forwarding.ForwardWorkerStream: the bounded channel to the client and the texts of error messages are not modelled, nor the id, model name and creation time that every chunk repeats.
- Futures dropped at an await point: handlers run to completion here; a handler dropped by its server skips its releases.
- Exclusion of a running model job by a lease: a lease is dropped with its receiver, and the single model thread excludes.
- Request normalization and the header and parameter checks of the public API: field checks with no property across functions.
- Routing, HTTP clients and servers, heartbeat timers, logging and metrics export: plumbing.
- Model downloads, hashing, the desktop harness, the client crate and command lines: no property of the kind proved here.
