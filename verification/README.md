# A verified model of the Gemma vLLM worker

This project models the parts of the worker where behaviour spans many functions, and proves what they
promise:

- **The chat template and its response schema.** The template prints conversations, tool declarations, tool
  calls and nested arguments; the schema's regular expressions take model output apart. The proofs connect the
  two directions: printing and reading back nested arguments, tool calls, whole prompts and whole responses;
  the split-and-join removal of thoughts against a one-pass scanner; the structure of turns.
- **The worker's life in the registry.** Boot, the heartbeat loop, the one-shot heartbeat, the idle monitor and
  every caller of `graceful_shutdown` are interleaved step by step between awaits; the proofs hold on every run.
- **Load and idleness**, over all interleavings of requests and over time, and the **freshness** of the registry
  entry as a bound on latency and failures.
- **Streaming**: cumulative text to deltas, geometric batches, server-sent events.
- **Engine configuration**: the merge of defaults, environment, aliases and a local file against a lookup per
  field, and the corrections behind it.

Where the source updates variables, the model has the same loops, classes and fields, each proved against a
function on values; the lemmas are about those functions. `dafny verify dfyconfig.toml` checks everything.

| file | about |
|---|---|
| `Options`, `Text`, `Dictsort` | strings, markers, Python's `split` and `strip`, Jinja's `dictsort` |
| `Thinking`, `Arguments`, `Order`, `ToolCalls`, `Conversation` | the template, block by block |
| `Decoding`, `Prompts`, `Readability`, `Ambiguity` | reading prompts back: the reader, exactly when it succeeds, what that asks of the input texts, prompts that cannot be read |
| `Turns`, `Response` | turn structure, the response schema |
| `Meaning` | what roles, thoughts, media, calls and responses become in a prompt, said of the texts themselves |
| `Shutdown`, `Lifecycle`, `Runs`, `Histories` | shutdown calls among themselves, the whole worker, all runs, what a state says of the events before it |
| `Load`, `Freshness` | load accounting and the idle monitor, expiry of the registry entry |
| `Batching`, `Generation`, `Streaming` | batch sizes, deltas, the wire |
| `EngineArgs`, `Corrections`, `Layers` | the layered merge, what is changed behind it, which layer wins |

## What turned out different from what one would expect

- A bare key that starts with `}` makes printed arguments ambiguous: no reader can tell an empty mapping followed
  by more text from such a key (`Arguments.BraceKeyIsAmbiguous`). Keys without `:` alone are not enough.
- Removing thoughts can leave a marker behind, so doing it twice is not always the same as doing it once
  (`Thinking.VisibleIsItself`, `Thinking.MarkerCanReform`).
- Freedom from special markers does not make prompts unambiguous. Text parts are printed without anything between,
  so three parts without a marker print the prompt of two messages (`Ambiguity.PartsAreAmbiguous`); a name that holds
  a brace goes on into the arguments (`Ambiguity.NameIsAmbiguous`), a role that holds a line break into the content
  (`Ambiguity.RoleIsAmbiguous`). What does is `Prompts.Readable`, and reading succeeds exactly then.
- Behind a message that has tool responses, a content and no medium in it, a prompt for generation opens no
  turn for the model although none is open (`Turns.GenerationTurn`).
- The registry entry is safe up to `(f + 1) * (10 + j + d) + d <= 30`, for at most `f` failures in a row,
  heartbeats of at most `d` seconds and sleeps at most `j` seconds late; `(f + 1) * (10 + d) < 30` alone is not
  enough (`Freshness.FreshExactlyWhen`).
- The publish of an idle timeout never returns to its caller: the monitor that fires calls `stop_idle_timeout`, whose
  handle is its own task, and so asks itself to cancel (`Runs.FiringAsksItself`, `Runs.IdleCallNeverCompletes`). The
  publish can be lost, and then nothing is ever published (`Runs.IdleTimeoutCanBeLost`, `Runs.LostForGood`).
- Boot can write the entry again behind a completed shutdown; that entry says healthy and never expires
  (`Runs.EntryCanOutliveShutdown`, `Runs.EndlessStays`).
- An exception that escapes a plain request is counted down twice; only with no other request open does the clamp
  at zero repair it (`Load.EscapeKeepsCountIffAlone`). `_non_stream_response` catches what the engine raises, but
  answers from the handler itself: an error text that cannot be encoded, such as one with a lone surrogate, makes
  the error response raise in turn (`src/server.py:242-245`).
- In parsed mode every payload that mentions `[DONE]` is dropped, not only the upstream's own last one
  (`Streaming.ModesDifferByDone`).
- A stream that fails, at a chunk that does not parse or because the upstream raises, takes the unsent rest of its
  batch with it, in both modes: exactly the chunks behind the last sum of quotas (`Streaming.FailureLosesNothing`).
  With the documented sizes, an upstream that breaks off behind two chunks costs the second
  (`Streaming.BreakLosesChunk`).
- `docs/configuration.md` names the variables `DEFAULT_MIN_BATCH_SIZE` and `DEFAULT_BATCH_SIZE_GROWTH_FACTOR`; the
  code reads `MIN_BATCH_SIZE` and `BATCH_SIZE_GROWTH_FACTOR`. The model takes the sizes as parameters.

## Model

| member | source | states |
|---|---|---|
| Text.MarkersDoNotOverlap | model/tokenizer_config.json:2-41 | two occurrences of special markers in a text are the same occurrence or disjoint |
| Text.NoSpan | model/tokenizer_config.json:2-41 | a marker that starts in a text ends in it, when what follows is empty, another marker or cannot continue it |
| Text.ContainsConcat | model/tokenizer_config.json:2-41 | putting texts together makes no new marker, when the second is empty, opens with a marker or cannot continue one |
| Text.CutMarker | model/tokenizer_config.json:95 | cutting at the first marker undoes putting it there, exactly when the text before holds none |
| Text.JoinSplit | model/tokenizer_config.json:95 | joining with the separator undoes `split`, on every string |
| Text.TrimSplits | model/tokenizer_config.json:95 | `trim` removes blanks around a text and leaves none at either end |
| Meaning.BlanksGo | model/tokenizer_config.json:95 | spaces, tabs and line breaks go, at both ends |
| Thinking.SplitAndCutIsScan | model/tokenizer_config.json:95 | `strip_thinking` (split on the closer, cut each part at its first opener, join) equals the one-pass scanner, on every string |
| Thinking.StripThinking | model/tokenizer_config.json:95 | the macro's loop over the parts returns the scanner's text, trimmed |
| Thinking.ScanThoughtBlock | model/tokenizer_config.json:95 | a thought block in front of a text disappears with everything in it |
| Thinking.ScanKeepsPlainText | model/tokenizer_config.json:95 | a text without channel markers stays as it is |
| Thinking.VisibleIsItself | model/tokenizer_config.json:95 | a text is left as it is exactly when it is trimmed and holds no channel marker |
| Thinking.StableIffNoMarkerLeft | model/tokenizer_config.json:95 | so a second pass changes nothing exactly when the first left no channel marker |
| Thinking.MarkerCanReform | model/tokenizer_config.json:95 | a first pass can leave a channel marker: a concrete text |
| Dictsort.SortPermutes | model/tokenizer_config.json:95 | `dictsort` loses and invents no item |
| Dictsort.SortedKeys | model/tokenizer_config.json:95 | where two sorted keys first differ ignoring case, the earlier one ends or has the smaller character, capitals counted as small letters |
| Dictsort.SortStable | model/tokenizer_config.json:95 | keys that differ only in case keep their insertion order |
| Dictsort.SortIgnoresInsertion | model/tokenizer_config.json:95 | keys that stay distinct when folded leave one order only |
| Arguments.FormatIsRawCanon | model/tokenizer_config.json:95 | `format_argument` prints the sorted value as it stands, at every depth |
| Order.MixedCasePrints | model/tokenizer_config.json:95 | three keys of one letter print as `a`, `B`, `c`, whatever their order before |
| Arguments.OrderNeverShows | model/tokenizer_config.json:95 | insertion order never shows in the printed text, at any depth, when keys differ case-insensitively |
| Arguments.CaseTwinsShowOrder | model/tokenizer_config.json:95 | two keys that differ only in case do show their order |
| Order.BackwardsShows | model/tokenizer_config.json:95 | a printable value prints the same with all its mappings turned round exactly when no mapping has two such keys |
| Order.OrderShowsExactly | model/tokenizer_config.json:95 | insertion order never shows, in whatever order, exactly when no mapping has two such keys |
| Arguments.CanonReorders | model/tokenizer_config.json:95 | the sorted value is the same value, reordered |
| Arguments.ReadIsSound | model/tokenizer_config.json:95 | whatever the reader accepts prints back to the text it was read from, and the rest |
| Arguments.ReadPrinted | model/tokenizer_config.json:95 | a printable value followed by nothing or a delimiter reads back as itself and what followed |
| Arguments.ReadBack | model/tokenizer_config.json:95 | only printable values read back |
| Arguments.FormatRoundTrip | model/tokenizer_config.json:95 | reading what `format_argument` printed gives the value, sorted, and the rest, exactly for printable values |
| Arguments.BraceKeyIsAmbiguous | model/tokenizer_config.json:95 | without the condition on keys no reader can exist: two values with one continuation print the same text |
| Arguments.FormatFree | model/tokenizer_config.json:95 | printing an argument makes no foreign marker: one shows only if some text inside holds it |
| ToolCalls.MatchCallIsGreedy | model/tokenizer_config.json:76 | the match of the name/arguments expression is the one a greedy matcher finds |
| ToolCalls.SearchSkips | model/tokenizer_config.json:76 | the search goes over what stands in front of a call |
| ToolCalls.FindFirstCall | model/tokenizer_config.json:81 | the iterator yields the text of a call exactly when it holds no closing marker |
| ToolCalls.CallsRoundTrip | model/tokenizer_config.json:57-81 | both expressions applied to the printed list of calls return its names and printed arguments, exactly when names are words and bodies hold no closing marker |
| ToolCalls.ArgumentsRoundTrip | model/tokenizer_config.json:95 | extracted mapping arguments read back as that mapping, sorted, exactly when it is printable |
| Conversation.ShowContent | model/tokenizer_config.json:95 | the loop over content parts prints them in order and leaves the type of the last medium |
| Conversation.ShowCalls | model/tokenizer_config.json:95 | the loop over tool calls prints each between its markers, in order |
| Conversation.ShowResponses | model/tokenizer_config.json:95 | the loop over tool responses prints each between its markers, in order |
| Conversation.ShowMessage | model/tokenizer_config.json:95 | one round of the message loop prints the message and leaves its type |
| Meaning.AssistantIsModel | model/tokenizer_config.json:95 | the assistant's turns are the model's, every other role keeps its name |
| Meaning.OnlyModelsLoseThoughts | model/tokenizer_config.json:95 | thoughts go from the texts of assistant and model, and from no others; all texts are trimmed |
| Meaning.PartsShow | model/tokenizer_config.json:95 | which text each kind of part shows |
| Meaning.ValuesShow | model/tokenizer_config.json:95 | what each kind of argument prints |
| Meaning.KeysShow | model/tokenizer_config.json:95 | a key prints bare, or between escape markers where keys are escaped |
| Meaning.CallShows | model/tokenizer_config.json:95 | what a call prints, for mapping, text and other arguments |
| Meaning.ResponseShows | model/tokenizer_config.json:95 | what a tool response prints: a mapping its entries, anything else behind `value:`, a missing name as unknown |
| Meaning.LeadingMessage | model/tokenizer_config.json:95 | a leading system or developer message goes into the system block and is no turn, any other is the first turn |
| Conversation.ShowSystemBlock | model/tokenizer_config.json:95 | the leading block prints the think marker, the system text and the tools |
| Conversation.ShowPrompt | model/tokenizer_config.json:95 | the template's loops print the prompt that `Decoding` reads back; without messages it fails |
| Meaning.MessageInPrompt | model/tokenizer_config.json:95 | every message stands in the prompt, between those before it and those behind |
| Meaning.LongPrompt | model/tokenizer_config.json:95 | the prompt of a conversation with thinking, a system message, a tool, a call and a response, piece by piece |
| Meaning.ShortPrompt | model/tokenizer_config.json:95 | the prompt of one question to a model that is not to think |
| Decoding.TurnsAreSound | model/tokenizer_config.json:95 | turns that are read print back to the text they were read from |
| Decoding.PromptIsSound | model/tokenizer_config.json:95 | whatever the reader accepts prints back, block, turns and ending, to the prompt it was read from |
| Decoding.PromptIsDecodedText | model/tokenizer_config.json:95 | the template's prompt is the text of what the reader should find |
| Prompts.BracedExact | model/tokenizer_config.json:95 | a call or response reads back, whatever follows, exactly when its name holds no brace and neither name nor body the closing marker |
| Prompts.BodyExact | model/tokenizer_config.json:95 | a turn's calls, responses, content and end read back exactly when each may stand there |
| Prompts.TurnsExact | model/tokenizer_config.json:95 | a list of turns and the ending read back exactly when every turn is readable |
| Prompts.BlockExact | model/tokenizer_config.json:95 | the system block reads back exactly when its text and tools hold none of its markers |
| Prompts.PromptRoundTrip | model/tokenizer_config.json:95 | reading a prompt gives every role, shown content, call, response and tool, the system block and the ending, exactly when the conversation is readable |
| Prompts.PromptIsUnambiguous | model/tokenizer_config.json:95 | two readable conversations with one prompt differ only in what the template forgets |
| Prompts.ArgumentsAreUnambiguous | model/tokenizer_config.json:95 | and the printable mapping arguments of their calls agree but for insertion order, at every depth |
| Meaning.ResponseRoundTrips | model/tokenizer_config.json:95 | the printed mapping of a response reads back, sorted, exactly when it is printable |
| Meaning.ResponsesAreUnambiguous | model/tokenizer_config.json:95 | and the printable mappings of their tool responses agree but for insertion order |
| Readability.RunsHold | model/tokenizer_config.json:95 | a marker shows in a content of parts exactly when one run of texts between media, joined as shown, holds it, and opens it exactly when it opens the first run |
| Readability.PartsReadable | model/tokenizer_config.json:95 | so a content of parts is readable exactly when its runs are |
| Readability.PlainConversationsRead | model/tokenizer_config.json:95 | the prompt of a conversation whose input texts hold no special marker reads back, with every text trimmed |
| Readability.PlainConversationsAreUnambiguous | model/tokenizer_config.json:95 | two such conversations with one prompt have the same roles, texts, calls and tools |
| Ambiguity.PartsAreAmbiguous | model/tokenizer_config.json:95 | three text parts, none with a marker, print the prompt of two messages |
| Ambiguity.NameIsAmbiguous | model/tokenizer_config.json:95 | two calls with one prompt: a brace in a name |
| Ambiguity.RoleIsAmbiguous | model/tokenizer_config.json:95 | two messages with one prompt: a line break in a role |
| Turns.EventsOfPrompt | model/tokenizer_config.json:95 | the turn markers of a prompt are those the template prints, in its order |
| Turns.BareStaysOpen | model/tokenizer_config.json:95 | a turn stays open exactly for tool responses without content |
| Turns.OpensForModelIs | model/tokenizer_config.json:95 | the model's turn is opened when asked for, unless the last message has tool responses and no medium |
| Turns.OpenTurns | model/tokenizer_config.json:95 | the turns left open are the content-free tool-response messages, plus one when the prompt opens the model's turn |
| Turns.OneTurnAtATime | model/tokenizer_config.json:95 | each turn is closed before the next opens, exactly when no message but the last leaves its turn open |
| Turns.GenerationTurn | model/tokenizer_config.json:95 | then a prompt for generation ends in exactly one open turn, but for one exact case in which it ends in none |
| Turns.InsideIsFree | model/tokenizer_config.json:95 | texts without turn markers leave the template's markers the only ones in a turn |
| Response.ResponseRoundTrip | model/tokenizer_config.json:85 | parsing a response gives back its thought, its content and its calls |
| Meaning.ResponseApart | model/tokenizer_config.json:85 | a response comes apart at its channel markers, letter by letter |
| Response.ResponseCallsRoundTrip | model/tokenizer_config.json:46-86 | and the names and printed arguments of the calls, exactly when they are extractable |
| Response.ReplayAgrees | model/tokenizer_config.json:85-95 | the extracted content, trimmed, is what the template shows when the response is replayed as an assistant message |
| Meaning.ReplayInPrompt | model/tokenizer_config.json:85-95 | a response replayed as an assistant message is, in any prompt, a turn of the model with the trimmed content and nothing of the thought |
| Batching.BatchSize.constructor | src/utils.py:75-83 | a new batch size is at its start, dynamic exactly when growth, minimum and maximum allow |
| Batching.BatchSize.Update | src/utils.py:85-87 | an update moves to the size after one more update |
| Batching.SizeClosedForm | src/utils.py:74-87 | after k updates the size is `min * growth^k`, capped at the maximum |
| Batching.FirstSize | src/utils.py:79-83 | which setting starts at the minimum, and which stays at the maximum |
| Batching.DocumentedSizes | docs/configuration.md:114 | the documented sizes 1, 3, 9, 27, 50, 50 |
| Batching.SizeGrows | src/utils.py:85-87 | sizes never shrink, start at 1 or more and stay at most the maximum |
| Batching.SizeReachesMax | src/utils.py:85-87 | finitely many updates reach the maximum |
| Batching.Quota | src/engine.py:141 | the count that fills a batch is the least positive count that is at least the size |
| Batching.BatchesPartition | src/engine.py:141-162 | batches keep every entry in order, none is empty, all but the last are full |
| Batching.ProgressIsBatches | src/engine.py:141-162 | full batches, with the rest as the last, are the batching |
| Batching.BatchCount | src/engine.py:141-162 | N entries need at most K + ceil(N / M) batches, where K updates reach the maximum M |
| Batching.FixedBatchCount | src/engine.py:141-162 | without growth they need exactly ceil(N / M) |
| Batching.AllDelivered | src/engine.py:357-363 | full batches take all entries exactly when their number is a sum of the first few quotas |
| Batching.CeilDivRoundsUp | src/engine.py:141-162 | the rounded division meant in that bound |
| Generation.StreamOutput | src/engine.py:133-153 | one output adds its new text to the batch; a full batch is yielded with the right `usage` |
| Generation.LastBatch | src/engine.py:155-162 | what is pending goes out last; without streaming, one batch holds the final texts |
| Generation.Generate | src/engine.py:111-162 | the generator yields the batching of the deltas; without streaming one batch with the last text of every choice and the number of outputs; every batch reports the first result's prompt tokens |
| Generation.YieldedFields | src/engine.py:129-162 | those fields of a batch, said of the results themselves |
| Generation.LatestIsLast | src/engine.py:153-157 | the latest text of a choice is that of the last output with its number, or empty |
| Generation.NewText | src/engine.py:137 | what an output adds is what goes on behind the text before, and nothing for a text no longer than it |
| Generation.SaidIsLatest | src/engine.py:137-153 | deltas put together are the latest text of every choice at every point, exactly when texts only grow |
| Generation.ReceivedIsFlattened | src/engine.py:141-162 | what the yielded batches say for a choice is what its deltas say, and `usage.output` counts them |
| Generation.StreamReconstructs | src/engine.py:115-162 | at every yield the client has the latest text of each choice, and `usage.output` counts the deltas so far |
| Streaming.AddItem | src/engine.py:355-363 | an item joins the batch; a full batch is yielded |
| Streaming.BatchChunks | src/engine.py:343-367 | the loop yields the batching of the admitted chunks, or its full batches where a chunk does not parse or the upstream raises |
| Streaming.ChunkFate | src/engine.py:348-355 | which chunks are skipped, kept and refused, in either mode |
| Streaming.UnparsableEnds | src/engine.py:354 | a chunk that does not parse ends the stream as an upstream that breaks off there does |
| Streaming.LastFrame | src/server.py:267-271 | the last frame is `[DONE]`, or the error where the stream failed |
| Streaming.Serve | src/server.py:248-274 | the body is every batch in order and one last frame; an error object ends it |
| Streaming.Respond | src/server.py:248-274 | engine and server together send the bytes the next rows are about, also when the engine, the request or the stream raises |
| Streaming.BatchingIsInvisible | src/engine.py:343-367 | for every batch setting and both modes the bytes equal the unbatched stream, exactly when the stream does not fail or what full batches leave prints nothing |
| Streaming.FailureLosesNothing | src/server.py:268-271 | a failing stream loses nothing exactly when the items before the failure number a sum of the first few quotas |
| Streaming.BreakLosesChunk | src/server.py:268-271 | a stream that loses a chunk: two chunks, then the upstream raises |
| Streaming.RawFailsWithUpstream | src/engine.py:347-355 | in raw mode a stream fails only where the upstream raises |
| Streaming.UnframeFrame | src/engine.py:354 | unframing undoes framing, exactly for payloads that do not end in a newline |
| Streaming.FramesSay | src/server.py:248-267 | framed payloads are the events' data, in order (section 9.2.6 of the WHATWG HTML Living Standard) |
| Streaming.ModesDifferByDone | src/engine.py:348-354 | raw and parsed mode differ by the upstream's own `[DONE]`, exactly when no payload mentions `[DONE]` |
| Streaming.ClientDecodes | src/server.py:248-267 | a client of parsed mode decodes the payloads that do not mention `[DONE]`, then one `[DONE]` |
| Load.LoadTracker.IncrementLoad | src/heartbeat/load_tracker.py:23-26 | one more request, activity now |
| Load.LoadTracker.DecrementLoad | src/heartbeat/load_tracker.py:29-34 | one request less, never below zero, activity now |
| Load.LoadTracker.TouchActivity | src/heartbeat/load_tracker.py:41-43 | activity now |
| Load.LoadTracker.OpenRequest | src/server.py:205-206 | opening a request counts it |
| Load.LoadTracker.LeavePlain | src/server.py:218-225 | leaving a plain request is a step of the runs: it counts once, twice when an exception escapes |
| Load.LoadIsExact | src/heartbeat/load_tracker.py:23-34 | on every run without an escaping exception the counter is the number of open requests, and a close never meets the clamp |
| Load.EscapeKeepsCountIffAlone | src/server.py:205-225 | an escaping exception leaves the count right exactly when no other request is open |
| Load.LoadNeverExceedsOpen | src/heartbeat/load_tracker.py:23-34 | on every run the counter is at most the number of open requests |
| Load.IdleIsSafe | src/heartbeat/load_tracker.py:46-64 | when the monitor fires, no request was open within the timeout before |
| Load.IdleIsPrompt | src/heartbeat/load_tracker.py:46-64 | a living monitor at zero load fires within one check interval of the end of the timeout and of its own start |
| Load.FirstCheckWaits | src/heartbeat/load_tracker.py:48-49 | no monitor checks within 60 seconds of its start |
| Load.ZeroNeverWatches | src/heartbeat/load_tracker.py:71-73 | with a timeout of zero there is never a monitor |
| Load.AbandonedNeverIdles | src/server.py:208-217 | a stream whose generator is never entered stays counted, and the monitor never fires again |
| Freshness.FreshExactlyWhen | src/heartbeat/__init__.py:36-40 | the entry never expires while the loop runs, exactly when (f+1)(10+j+d)+d <= 30, for sleeps up to j seconds late |
| Freshness.SlowLoopExpires | src/heartbeat/config.py:16-17 | beyond that bound, a run in which the entry expires |
| Freshness.LastWriteDecides | src/heartbeat/heartbeat_service.py:65-66 | behind the last write the entry lives exactly 30 seconds |
| Shutdown.StepInv | src/heartbeat/__init__.py:89-110 | every step of every call keeps: one call past the guard, its message the only one, only it deregisters, and not for idle timeout |
| Shutdown.GuardInv | src/heartbeat/__init__.py:89-95 | test and set of the flag keep that |
| Shutdown.GiveUpInv | src/heartbeat/heartbeat_service.py:105-140 | so do errors and cancellations, with a command possibly still on its way |
| Shutdown.StepKeepsWinner | src/heartbeat/__init__.py:89-95 | no step lowers the flag or replaces the first call |
| Shutdown.DeregistersBehindPublish | src/heartbeat/__init__.py:99-105 | only the first call deregisters, with its message published and not for idle timeout |
| Shutdown.OnlyReplyPassesPublish | src/heartbeat/heartbeat_service.py:134-140 | a call gets behind its publish only by the publish's own reply |
| Lifecycle.Globals.StopHeartbeatTask | src/heartbeat/__init__.py:59-65 | the loop task is cancelled, wherever it waits |
| Lifecycle.Globals.StopIdleTask | src/heartbeat/load_tracker.py:79-84 | a sleeping monitor is cancelled, a running one is asked to cancel, a finished one is let be |
| Lifecycle.Globals.EnterShutdown | src/heartbeat/__init__.py:87-98 | the part before the first await, as one step of the worker |
| Lifecycle.Registry.Heartbeat | src/heartbeat/heartbeat_service.py:51-71 | the pipeline leaves status, expiry and membership as one step of the worker does |
| Lifecycle.Registry.MarkHealthyNow | src/heartbeat/heartbeat_service.py:77-86 | marking healthy, as one step of the worker |
| Lifecycle.Registry.Deregister | src/heartbeat/heartbeat_service.py:105-113 | hash and membership go |
| Runs.RegistryStep | src/heartbeat/heartbeat_service.py:105-113 | only expiry and the steps of deregistering take the hash or the membership away |
| Runs.CallsInv | src/heartbeat/__init__.py:69-110 | the shutdown invariant holds in every state of every run |
| Runs.FlagNeverFalls | src/heartbeat/__init__.py:89-95 | on every run the flag never falls and the first call stays the first |
| Runs.OneAttempt | src/heartbeat/__init__.py:89-99 | on every run at most one call ever gets past the guard |
| Runs.OnePublishAtMost | src/heartbeat/heartbeat_service.py:118-136 | at most one message is ever published, with that call's reason |
| Runs.SilentExactly | src/heartbeat/__init__.py:87-99 | flag set and nothing published: exactly the states where the attempt is pending, failed, was cancelled or the heartbeat is disabled |
| Runs.LostForGood | src/heartbeat/__init__.py:89-93 | a lost publish is never made good by any later call |
| Runs.FirstReasonDecides | src/heartbeat/__init__.py:99-105 | every deregistering step comes after the one publish returned, and never for idle timeout |
| Runs.CompletedDidEverything | src/heartbeat/__init__.py:98-105 | a first call that completes without an error, and not for idle timeout, published its message, then deleted the hash, then left the active set |
| Runs.IdleTimeoutStaysRegistered | src/heartbeat/__init__.py:101-108 | once idle timeout passed the guard, the hash goes only by expiring and the worker never leaves the active set |
| Runs.FiringAsksItself | src/heartbeat/load_tracker.py:54-61 | a monitor that fires asks its own task to cancel, through the handle it finds in `_idle_task` |
| Runs.OwnInvHolds | src/heartbeat/load_tracker.py:46-84 | on every run the sleeping monitor is the one the handle refers to, and a shutdown call of the monitor stays asked to cancel until the cancellation reaches it |
| Runs.IdleCallNeverCompletes | src/heartbeat/load_tracker.py:54-61 | so the monitor's own shutdown call never gets behind its publish |
| Runs.AppearsOnlyBy | src/heartbeat/__init__.py:43-66 | behind the flag the hash reappears only through the one-shot heartbeat, boot, or a write the network held back |
| Runs.EndlessStep | src/heartbeat/heartbeat_service.py:49-86 | in one step a hash without expiry comes only from `mark_healthy`, where there was none |
| Histories.EntrySaysStatus | src/heartbeat/heartbeat_service.py:49-71 | an entry written by a heartbeat says the status the worker had when that heartbeat was sent, expires, and makes the worker a member |
| Histories.LoadedIsHealthy | src/heartbeat/heartbeat_service.py:77-86 | an enabled worker that has loaded its model stays healthy |
| Histories.NeverBootingAgain | src/heartbeat/heartbeat_service.py:60 | from then on, once no earlier heartbeat is on its way, every write says healthy |
| Histories.ReasonHasCause | src/server.py:76-110 | a call for idle timeout is the monitor's, an unhealthy one boot's or a fatal error's, any other the exit's |
| Histories.CauseCalls | src/server.py:76-110 | and each of these does call for a shutdown |
| Histories.FailedPublishStops | src/heartbeat/heartbeat_service.py:138-140 | a publish that raised or was cancelled ends its call: nothing is ever deregistered |
| Histories.ErrorsAreSwallowed | src/heartbeat/heartbeat_service.py:114-115 | an error while deregistering does not keep the call from closing the connection |
| Histories.CancellationsStop | src/heartbeat/heartbeat_service.py:105-140 | a cancellation is not swallowed, in the publish or while deregistering |
| Histories.GuardStopsMonitor | src/heartbeat/__init__.py:95-97 | the call that passes the guard leaves no monitor asleep and no heartbeat loop running |
| Histories.NoTimeoutNoMonitor | src/heartbeat/load_tracker.py:71-73 | without an idle timeout the worker never has a monitor |
| Histories.NoTimeoutNoCall | src/heartbeat/load_tracker.py:71-73 | and no shutdown is ever called for idle timeout |
| Histories.DisabledStaysOut | src/heartbeat/__init__.py:47-48 | with the heartbeat disabled the worker has no registry tasks and publishes nothing |
| Runs.EndlessOnlyByBoot | src/heartbeat/heartbeat_service.py:49-86 | a hash without expiry was created by `mark_healthy` and has seen no heartbeat since |
| Runs.EndlessStays | src/server.py:104-106 | such a hash behind a completed shutdown stays for ever |
| Runs.IdleTimeoutCanBeLost | src/heartbeat/load_tracker.py:56-61 | a run to the flag set, nothing published and the publish cancelled |
| Runs.EntryCanOutliveShutdown | src/server.py:121-126 | a run in which boot writes the hash behind a completed shutdown |
| Runs.OneShotCanRevive | src/heartbeat/__init__.py:53-54 | a run in which the one-shot heartbeat does |
| EngineArgs.DiscoverFromEnv | src/engine_args.py:128-150 | the loop over the fields gives each what its environment variable converts to |
| EngineArgs.Dictionary.ApplyEnvAliases | src/engine_args.py:153-165 | an alias that is set and converts overrides its field, and nothing else |
| EngineArgs.LocalArgs | src/engine_args.py:277-286 | the loop over the local file gives each field its last meaningful entry |
| EngineArgs.LastForExactly | src/engine_args.py:277-286 | which entry that is |
| EngineArgs.Dictionary.Filter | src/engine_args.py:370-374 | only fields of the engine with meaningful values stay |
| EngineArgs.Merge | src/engine_args.py:354-374 | merge and filter equal the lookup per field: local file, alias, environment, default |
| EngineArgs.EffectiveIsMeaningful | src/engine_args.py:277-374 | the local file always wins, and nothing meaningless gets through |
| EngineArgs.BlankAlias | src/engine_args.py:76-83 | a blank alias erases an optional field's environment value and default; on any other field it is as if unset |
| Layers.EnvironmentBeatsDefault | src/engine_args.py:356-359 | with no local entry and no alias, a variable that names a value beats every default |
| Layers.EngineGetsEnvironment | src/engine_args.py:354-461 | and the engine gets it, for a field no correction rewrites |
| Layers.DefaultShowsExactly | src/engine_args.py:128-150 | the default shows, whatever it is, exactly when the variable is not set or is no value of the field |
| Layers.AliasBeatsEnvironment | src/engine_args.py:153-165 | an alias that names a value beats every environment setting and every default |
| Layers.BlankVariable | src/engine_args.py:76-83 | a blank variable erases the default of an optional field and is ignored on any other |
| Layers.KeyReaches | src/engine_args.py:281-282 | the field a key of the local file reaches |
| Layers.MaxNumSeqs | src/engine_args.py:128-150 | `MAX_NUM_SEQS=128` over the default of 256 |
| Corrections.SanitizeHfOverrides | src/engine_args.py:289-330 | the loop over the sub-configs gives the sanitized overrides |
| Corrections.SanitizedIsAccepted | src/engine_args.py:308-324 | no rope scaling the engine rejects is left |
| Corrections.SanitizedOnce | src/engine_args.py:289-330 | sanitizing twice is sanitizing once, for every verdict of the engine |
| Corrections.OnlyRejectedGo | src/engine_args.py:320-324 | of the inner values, exactly the rejected rope scalings go |
| Corrections.NullsGoWithRejected | src/engine_args.py:326-330 | an override of None stays, exactly when nothing is rejected |
| Layers.PlainOverridesStay | src/engine_args.py:308-329 | an override that is no mapping stays, unless it is None |
| Layers.OverridesStay | src/engine_args.py:386-391 | overrides the engine does not reject stay as they are, empty ones go |
| Layers.RejectedLosesRope | src/engine_args.py:308-324 | a rejected sub-config loses its rope scaling, and goes when it has nothing else |
| Corrections.DoneThenDone | src/engine_args.py:376-459 | corrections of different fields do not disturb each other |
| Corrections.GetEngineArgs | src/engine_args.py:354-461 | every field, all of them, ends as its own rule says from the lookup per layer; fails exactly where a text does not read |
| Corrections.UnrewrittenIsMerged | src/engine_args.py:354-461 | a field no correction rewrites is its lookup per layer |
| Corrections.TokensFollowLength | src/engine_args.py:419-435 | an unset or zero number of batched tokens becomes the model length in force, where there is one |
| Corrections.OverridesAreAccepted | src/engine_args.py:386-391 | the overrides the engine gets are not empty and hold nothing it rejects |
| Corrections.NoDeprecatedCache | src/engine_args.py:405-407 | the deprecated cache type never reaches the engine |
| Layers.TokensBecomeLength | src/engine_args.py:419-435 | an unset or zero number of batched tokens becomes the length asked for, else the model's own; a number asked for stays |
| Layers.LengthAskedFor | src/engine_args.py:426-432 | the model's own length is asked for with model, trust and revision |
| Layers.SpeculativeGiven | src/engine_args.py:457-459 | a speculative configuration from the environment replaces any other |
| Layers.SeveralGpus | src/engine_args.py:396-400 | several GPUs decide the parallelism, one changes nothing |
| Layers.FormatsReplaced | src/engine_args.py:393-407 | the load format decides the quantization, the deprecated cache type is replaced |
| Layers.CaptureAndLimits | src/engine_args.py:376-410 | the capture length and the multimodal limits follow their variables |
| Layers.DeprecatedVariables | src/engine_args.py:437-454 | the old attention variable fills a gap only, the old log variable only turns logs off |

## Left out

- The declaration macros of the template (`format_parameters`, `format_function_declaration`): a tool declaration
  comes as the text they print, of which only the trimming and the markers around it are modelled.
- Prompts.PromptRoundTrip: the reader finds a content as one text; which of it were media parts is forgotten.
- Response.ResponseRoundTrip: calls follow the content and at most a turn end follows the calls; other orders of
  the model's output are not modelled.
- The host's printing of lists, numbers and None: a scalar argument, and a list as leading system content, carry
  their printed text. A leading system message whose content is None, which the host prints as a word, is not
  modelled; a missing one is.
- Case folding outside ASCII in `dictsort`, in field names and in `DISABLE_LOG_REQUESTS`.
- The regular expressions' `.` stands for any character, newlines included; the word class of `\w` is a parameter.
- The parser named by `x-parser` in the schema, which is not part of the repository; `Arguments.ReadValue` is a
  reader of its own.
- JSON: a codec with abstract `loads` and `dumps`. The text of an error event is a parameter.
- Rounding: batch sizes and times are reals.
- An engine that raises in the middle of a generation: `generate` then yields an error object behind the batches so
  far (`src/engine.py:108-109`). A client that disconnects in the middle of a stream.
- Generation.Generate: choice numbers are below the number of choices asked for, as the engine guarantees.
- Redis beyond the entry, the active set and the published messages: connections, their closing and reopening, and
  the fields of the hash other than the status. A command a task gave up on is lost, or, where a run allows late
  delivery, may be applied at any later time.
- The heartbeat loop and the idle monitor run for ever in the source; here each is a sequence of steps of a run, not
  a method with a loop. Steps that the source takes together, such as the monitor's check and its shutdown call up
  to the first await, may be interleaved with others, so runs here include those of the source and more.
- Lifecycle.Registry.Deregister: both commands without a step between; the runs take them apart.
- `start_draining`, which nothing calls.
- Outside writers of the registry, such as the control plane.
- The per-type conversion of environment texts and the reading of the individual speculative variables: an abstract
  function, of which the treatment of blank texts is modelled.
- The table of built-in engine defaults: the defaults are a parameter, and what is proved holds for every table.
- Corrections.GetEngineArgs: the environment changes made while reading the local file are not modelled, and the
  engine's own refusal of unknown arguments neither.
- The HMAC middleware, the serverless handler, model download, logging, health routes and Docker files.
