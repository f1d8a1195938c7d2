# geist-serve: verified model

`geistd` owns a language model and serves it over a local socket; `geist-app` supervises one `geistd` child and
serves HTTP. Behind the I/O both programs keep small protocols and caches whose invariants are easy to break. This
project models them in Dafny and proves what they keep, in every interleaving and on every input.

Each core has a specification (a transition system or a function) with the theorems about it, and, where the source
updates state in place, a class or method with the source's own loops and fields that is proved equal to the
specification step by step.

| file | core |
|---|---|
| `Tokenizer.dfy`, `Parser.dfy`, `TokenForest.dfy`, `Refusals.dfy` | the one-pass JSON tokenizer, its in-place form, the token forest it leaves on any bytes, and what it refuses |
| `JsonTree.dfy`, `Completeness.dfy`, `JsonLookup.dfy` | documents as trees, the tokens owed to a tree, and member lookup |
| `JsonStrings.dfy`, `Spelling.dfy`, `StringReaders.dfy`, `Buffers.dfy`, `NumberGrammar.dfy` | the string writers and readers, every spelling of a text and what it means, their buffers, and the number grammar |
| `Supervisor.dfy`, `Restarts.dfy`, `App.dfy` | the supervisor of the child, with `stop_child` releasing its mutex in the middle, and what each of its callers is owed |
| `ResidentChat.dfy`, `ChatOutcomes.dfy`, `ResidentApp.dfy` | the app's memory of the daemon's chat, and the answer of a request by its cause |
| `Session.dfy`, `Generation.dfy`, `TopK.dfy` | diff prefill, pinning, generation with stop strings, and top-k |
| `Seqlock.dfy`, `MemoryChannel.dfy`, `PhaseChannel.dfy` | the lock-free shared page |
| `History.dfy`, `Journal.dfy` | the measurement history in memory and on disk |
| `Receipts.dfy`, `Activity.dfy`, `ProcStat.dfy`, `Reconcile.dfy` | verification receipts, activity traces, the process status parser, and the document reconciler |

`dafny verify dfyconfig.toml` checks the whole project.

## Assumptions

- Accesses under one mutex are atomic steps; atomic accesses to the shared page are sequentially consistent; sequence
  numbers, counters and token offsets are unbounded.
- Process ids, chat ids, socket paths and file stamps are never used twice. A signal and a wait reach the process they name.
- The engine is a token sequence with a kept prefix; its reset succeeds where the program ignores the result
  (`src/geistd.c:484`, `src/geistd.c:930`). A chat of geist-runtime is a message list, and a refused send leaves it unchanged.
- A file replacement by rename is atomic. A record line is parsed back to the record it was printed from.
- Clocks, the network, process exits, evictions and foreign writes are events chosen by the environment.

## What turned out not to hold

- *A request's generation only changes if its child died by itself* (the purpose of the guards at
  `src/app/status.c:25` and `src/app/chat.c:284`). It fails when an execution change is already inside `stop_child` at
  admission: an older stop can clear `app.stopping` first, a selection then starts another child, a request is admitted
  to it, and the execution change kills it. `Supervisor.Overtaken` gives the whole interleaving from startup;
  `Supervisor.GenerationHoldsIff` gives the exact condition.
- *A stop string ends the generation that produced it.* Only if it shares 512 bytes with the piece that completes it:
  `Generation.WindowExactIff` is the exact bound, `Generation.WindowMisses` the whole failing family.
- *A signal only goes to a process that was not waited for yet.* A poll behind the loading time waits for the child
  first (`src/app/child.c:178`) and looks at the clock then; if the loading child has just ended, that wait takes it,
  and `stop_child` signals its process id all the same (`src/app/child.c:181-182`, `src/app/child.c:285`).
  `Supervisor.StraySignal` is such a run, and `Supervisor.StraySignalIff` says that there is no other case.
- *A download's receipt names verified contents.* Not if the verified file is written in place between the last stamp of
  the part (`src/app/jobs.c:229`) and the comparison of the inodes (`src/app/jobs.c:234-235`), nor if the target is
  written or replaced between that comparison and its stamp (`src/app/jobs.c:236`): `Receipts.RacedDownload`,
  `Receipts.ReplacedDownload`. `Receipts.VerifiedIffNotHit` proves that exactly these writes matter.
- The tokenizer is not a validator: `JsonLookup.StrayBracketTaken`, and exactly which closing brackets are taken is
  `Refusals.BracketExact`.
- *A top-k request stays inside the arrays.* A number between 0 and 1 asks for zero entries (`src/geistd.c:515`,
  `src/geistd.c:551`), and the first comparison reads in front of the array: `TopK.InsideIff`.

## Model

| member | source | states |
|---|---|---|
| JsmnParser.Parser.AllocToken | src/jsmn.h:110-126 | an empty token is taken from the array, or none when it is full |
| JsmnParser.Parser.FillToken | src/jsmn.h:128-137 | type and bounds are set, the size is zero, everything else in the array stays |
| JsmnParser.Parser.ParsePrimitive | src/jsmn.h:139-194 | consumes exactly one primitive up to its delimiter, or fails and puts the cursor back |
| JsmnParser.Parser.SkipEscape | src/jsmn.h:228-263 | an escape is skipped whole; a wrong one or a wrong hex digit is invalid |
| JsmnParser.Parser.ParseString | src/jsmn.h:197-267 | consumes exactly one string literal, or fails and puts the cursor back |
| JsmnParser.Parser.OpenContainer | src/jsmn.h:285-311 | a bracket opens a token below the current one and becomes the current one |
| JsmnParser.Parser.CloseContainer | src/jsmn.h:312-339 | a closing bracket ends the container found by walking the parent links, or is invalid |
| JsmnParser.Parser.TakeString | src/jsmn.h:365-374 | a string becomes a child of the current token |
| JsmnParser.Parser.TakePrimitive | src/jsmn.h:401-437 | a primitive is taken as a value only, never as a key |
| JsmnParser.Parser.Turn | src/jsmn.h:283-445 | one turn of the loop is one step of the specification, in place |
| JsmnParser.Parser.Parse | src/jsmn.h:272-457 | the in-place parser is the specification on every input, error codes included |
| TokenForest.WalkClosesInnermost | src/jsmn.h:322-339 | the walk along the parent links finds the innermost open container |
| TokenForest.StepKeeps | src/jsmn.h:283-445 | every turn keeps bounds, order, nesting, child counts and open containers on the parent chain |
| TokenForest.ParsedForest | src/jsmn.h:272-457 | on any bytes a successful parse is a forest: parents first, sizes are child counts, starts increase, spans nest, all closed |
| TokenForest.RunStops | src/jsmn.h:272-457 | on every input the loop has ended after at most as many turns as there are bytes, although it moves its cursor back, and the parse is what these turns leave |
| TokenForest.BracketClosesInnermost | src/jsmn.h:322-339 | a bracket met behind any number of turns on any text closes the innermost open container, or nothing |
| TokenForest.ClosesInnermost | src/jsmn.h:322-330 | a bracket in any one state whose open containers are all on the parent chain closes the innermost one, or nothing |
| TokenForest.RootIsAncestor | src/json.c:89-102 | when only one token has no parent, it is every token's ancestor |
| Refusals.BracketExact | src/jsmn.h:312-339 | a closing bracket met anywhere closes the innermost open container exactly when it is of its kind; with none open it is passed over exactly when the last root is of its kind and a token is current; every other one is invalid |
| Refusals.PrimitiveExact | src/jsmn.h:139-194 | a primitive runs to the first delimiter, is invalid exactly when it holds a character that is not printable ASCII, and else partial exactly at the end of the text |
| Refusals.StringStays | src/jsmn.h:197-267 | an accepted or invalid string stays so whatever follows |
| Refusals.PartialCompletes | src/jsmn.h:197-267 | every partial string has a completion |
| Refusals.RefusalIsFinal | src/jsmn.h:272-457 | an invalid text and one with too many tokens stay so whatever follows; only a partial one may become valid |
| Refusals.CapacityExact | src/jsmn.h:110-126 | what is parsed with one token array is parsed alike with any that holds its tokens, and runs out of any smaller one |
| Completeness.RunValue | src/jsmn.h:272-457 | any value of RFC 8259 inside any surrounding text yields its own tokens and leaves the parser where it was |
| Completeness.RunDocument | src/jsmn.h:272-457 | any printed array or object parses, with enough tokens, to exactly its nodes in pre-order with type, bounds, child count and parent |
| JsonLookup.Json.Parse | src/json.c:89-102 | accepts exactly the texts whose tokens fit and have an object as their one root |
| JsonLookup.Json.Lookup | src/json.c:106-119 | the token behind the first direct key with that raw text, or -1 |
| JsonLookup.GetMember | src/json.c:106-119 | on an object's tokens the lookup returns the very token of the first matching member's value: behind its key, the key its parent, that key with the raw name |
| JsonLookup.PathFinds | src/json.c:106-119 | a path of lookups arrives at the one token index that the first matching members along the tree have, or -1 exactly when there is none |
| JsonLookup.DocumentLookups | src/json.c:89-119 | print, parse and look up any path: the answer is the token index of the tree's value there, with its text and kind, or -1 exactly when the tree has none |
| JsonLookup.StrayBracketTaken | src/jsmn.h:332-337 | `{}:}` is accepted: acceptance does not imply a valid document |
| JsonStrings.Utf8RoundTrip | src/json.c:172-186 | encoding any scalar value as UTF-8 (section 3 of RFC 3629) and decoding it gives it back |
| JsonStrings.TokenIsRaw | src/jsmn.h:197-267 | what the tokenizer takes as a string is a well-formed literal |
| JsonStrings.EscapeMeans | src/json.c:49-77 | the meaning of what a writer writes is what it was given, for every byte string and each of the three writers |
| JsonStrings.WriteThenTokenize | src/json.c:49-77 | the tokenizer takes any written string back as one token with exactly its contents |
| JsonStrings.WritersInjective | clients/geistd_client.h:552-562 | two texts that are written alike are alike |
| Spelling.SpellingMeans | src/json.c:127-195 | a literal spelt with any mixture of plain bytes, short escapes, hexadecimal escapes in either case and surrogate pairs means the UTF-8 of its code points; a lone half means three bytes, and is the only thing counted as lone |
| Spelling.EveryLiteralSpelled | clients/geistd_client.h:417-457 | every well-formed literal is such a spelling, so its meaning is fixed by it |
| StringReaders.MeaningFits | src/json.c:127-142 | a literal never means more bytes than it has characters, so the buffer suffices |
| StringReaders.Strdup | src/json.c:127-195 | decodes every tokenised string, escapes and surrogate pairs included, within its buffer |
| StringReaders.JoinUnit | src/json.c:161-171 | a high unit followed by a low one is one code point, anything else stands alone |
| StringReaders.PutCodePoint | src/json.c:172-187 | the bytes of one code point are appended |
| StringReaders.Unescape | clients/geistd_client.h:417-457 | decodes the same meaning, and fails exactly on a lone surrogate |
| Buffers.StringBuffer.Put | src/json.c:17-31 | bytes are appended, and the buffer grows without losing any |
| Buffers.StringBuffer.JsonStr | src/json.c:49-77 | the quoted form of any byte string is appended |
| Buffers.AppBuffer.Put | src/app/core.c:23-31 | text is appended whole or not at all; a failure sticks |
| Buffers.AppBuffer.Quote | src/app/core.c:48-61 | the quoted form is appended, or the buffer has failed exactly because it did not fit |
| NumberGrammar.ScansNumbers | src/app/compat.c:15-44 | the scanner accepts exactly the numbers of section 6 of RFC 8259, of any length |
| NumberGrammar.ValidPrimitive | src/app/compat.c:12-45 | true exactly for true, false, null and the number grammar |
| NumberGrammar.PrimitivesTokenize | src/app/compat.c:7-45 | every such literal is one the tokenizer takes whole |
| Supervisor.StopSound | src/app/child.c:277-312 | stop_child and the start behind it lose no process and leave no ready child behind |
| Supervisor.MonitorKeeps | src/app/child.c:165-275 | every step of the monitor keeps the invariant, inside stop_child too |
| Supervisor.RequestKeeps | src/app/observe.c:113-184 | so does every step of a request and of the restart behind a failed one |
| Supervisor.JobKeeps | src/app/jobs.c:245-268 | so does every step of a job |
| Supervisor.ComparisonKeeps | src/app/compare.c:48-131 | so does every step of a comparison |
| Supervisor.VisitorKeeps | src/app/status.c:21-58 | so does every step of an execution change, stop or removal |
| Supervisor.NextKeeps | src/app/child.c:165-312 | every event keeps the invariant |
| Supervisor.EveryRun | src/app/routes.c:378-387 | in every interleaving the only unreaped process is app.child.pid, ready means running and not stopping, no request beside an activation, no comparison beside a job |
| Supervisor.OneFlagHolder | src/app/child.c:293-303 | at most one of job, request and comparison is inside stop_child, beside the monitor and explicit stops |
| Supervisor.StraySignalIff | src/app/child.c:178-182 | in every run a step signals a process that was already waited for exactly when a timed-out poll finds the loading child already ended |
| Supervisor.StraySignal | src/app/child.c:277-285 | a run from startup that sends such a signal |
| Supervisor.AdmitsIffIdle | src/app/chat.c:489-509 | a request is admitted exactly when the child is ready and no request, comparison or activation owns it |
| Supervisor.FailedRequestReplaces | src/app/observe.c:155-182 | behind a failed request its child is reaped, at most one other was started, and nothing is admitted before that one is ready |
| Restarts.EveryCallerServed | src/app/child.c:277-312 | in every interleaving and for every thread: who calls stop_child leaves at once when the child has ended, and else behind a wake that finds it ended or the twentieth sleep; the old child is reaped, the next one is started under the next generation exactly where one is due and the start succeeds, and the caller gives back what it owned |
| Restarts.EveryCallerLeaves | src/app/child.c:287-299 | whoever is inside stop_child leaves within twenty of its own wakes, an activating job included |
| Restarts.WholeStop | src/app/child.c:314-456 | from the call to the leaving, with anything in between, exactly the start that the call asked for is made |
| Restarts.Begins | src/app/routes.c:378-387 | when a request, a job, a comparison and a measured request begin, in terms of the threads, and what they then own |
| Restarts.Ends | src/app/jobs.c:245-268 | what ends without a stop gives back its flags and leaves the child alone |
| Restarts.MonitorFinds | src/app/child.c:178-260 | a loading child that answers becomes ready; an ended one is reaped and replaced where the fallback starts another |
| Restarts.Exits | src/app/child.c:287-296 | the end of the child is seen by whoever waits for it |
| Supervisor.HeldNext | src/app/chat.c:283-290 | while a request runs no step replaces its child, if nobody who will was inside at its admission |
| Supervisor.RestarterKills | src/app/status.c:51-55 | an execution change inside at admission outlives its wait, kills the admitted child and starts another |
| Supervisor.GenerationHoldsIff | src/app/observe.c:113-184 | from admission to observation_end the generation changes only by the child's own death in every continuation, exactly when no execution change is inside stop_child at admission |
| Supervisor.Overtaken | src/app/child.c:277-312 | an interleaving from startup that admits a request and then replaces its living child |
| SupervisorApp.App.StopChild | src/app/child.c:277-300 | the first part of stop_child, up to its sleep |
| SupervisorApp.App.Resume | src/app/child.c:287-312 | one turn behind the sleep, whatever the child has become meanwhile |
| SupervisorApp.App.Start | src/app/child.c:314-456 | start_child up to the first sleep of its stop_child |
| SupervisorApp.App.Spawn | src/app/child.c:428-456 | the spawn counts the generation |
| SupervisorApp.App.Probe | src/app/child.c:231-275 | a first answer makes the child ready, or stops it when it names another processor |
| SupervisorApp.App.WaitAndProbe | src/app/child.c:176-275 | the wait comes before the test of the loading time; an ended child is reaped and perhaps replaced |
| SupervisorApp.App.PollChild | src/app/child.c:165-275 | poll_child is the monitor's step for each of its branches |
| SupervisorApp.App.PollResumes | src/app/child.c:293-312 | the monitor behind its sleep |
| SupervisorApp.App.Begin | src/app/chat.c:489-509 | a request is admitted exactly when its other checks fit and the model is ready and idle |
| SupervisorApp.App.ObservationEnd | src/app/observe.c:152-184 | the end of a request, with the restart for outcomes 498, 499, 502 and 504 |
| SupervisorApp.App.ObservationResumes | src/app/observe.c:161-182 | the same behind a sleep in stop_child |
| SupervisorApp.App.EndJob | src/app/jobs.c:245-266 | the last critical section of a job |
| SupervisorApp.App.TakeJob | src/app/routes.c:378-387 | a job is taken exactly when its model is eligible and its guard admits it |
| SupervisorApp.App.ChangeExecution | src/app/status.c:21-58 | an execution change: refused when busy or unsupported, kept when the processor is the same, else a restart |
| SupervisorApp.App.StopModel | src/app/routes.c:318-332 | the explicit stop, and a removal's |
| SupervisorApp.App.TakeComparison | src/app/compare.c:139-159 | a comparison starts exactly when the model is known, ready and idle |
| SupervisorApp.App.JobResumes | src/app/child.c:287-312 | a job behind its sleep in stop_child |
| SupervisorApp.App.VisitorResumes | src/app/child.c:287-312 | an explicit request behind its sleep |
| SupervisorApp.App.SwitchResumes | src/app/child.c:287-312 | a comparison behind its sleep |
| SupervisorApp.App.SwitchProcessor | src/app/compare.c:62-68 | a comparison replaces the child |
| SupervisorApp.App.Measure | src/app/compare.c:79-86 | a measured request is admitted without the ready test |
| SupervisorApp.App.MeasureEnd | src/app/compare.c:109-112 | the end of a measured request, with the restart behind a failure |
| SupervisorApp.App.MeasureResumes | src/app/observe.c:161-182 | the same behind a sleep in stop_child |
| SupervisorApp.App.FinishComparison | src/app/compare.c:120-130 | the end of a comparison |
| ResidentChat.CommonLongest | src/app/daemon.c:171-175 | the kept start is the longest one that leaves a message to send |
| ResidentChat.AttemptKeeps | src/app/daemon.c:150-240 | one attempt keeps what the app knows of the chat, whatever the network and the daemon do |
| ResidentChat.StepKeeps | src/app/observe.c:155-174 | so does a served request with the child replaced behind outcomes 498, 499, 502 and 504, a restart and an eviction |
| ResidentChat.AnswersWholeRequest | src/app/daemon.c:111-274 | behind any history, a success answered exactly the requested messages up to roles, under the requested options, and asked the model once |
| ResidentChat.FreshAsksEverything | src/app/daemon.c:150-170 | without a held chat a fresh one is asked literally everything |
| ResidentChat.SurvivesLoss | src/app/daemon.c:178-215 | one retry is enough when a chat is lost before or within the first attempt |
| ResidentChat.ContinuesWithRest | src/app/daemon.c:171-175 | a conversation that goes on sends its new messages only |
| ResidentChat.CancelledMustReplace | src/app/observe.c:155-174 | without replacing the child behind a cancelled answer the app would no longer know its chat |
| ChatOutcomes.OutcomeByCause | src/app/daemon.c:132-252 | behind any history: refused exactly without a chat format or when a live chat refused for the context, cancelled exactly when the model stopped because of the client, answered exactly when it finished otherwise, failed else; a refusal leaves the chats but for those lost, and nothing is asked unless it is answered |
| ChatOutcomes.ServedReplaces | src/app/observe.c:155-174 | the child and its chats are replaced exactly when the client went away or the outcome is cancelled or failed |
| ChatOutcomes.MessagesAlike | src/app/daemon.c:70-73 | two messages are the same by content and speaker, where every other role is the user |
| ResidentApp.Server.Open | src/geistd.c:698-749 | a chat with a fresh id, others perhaps evicted |
| ResidentApp.Server.RewindTo | src/geistd.c:962-974 | the chat keeps its first messages; too many or an unknown chat are refused |
| ResidentApp.Server.Append | src/geistd.c:771-847 | a send asks about the whole chat and appends question and answer; a refused one changes nothing |
| ResidentApp.App.HeldKeep | src/app/daemon.c:53-57 | what is held becomes its first messages; every slot behind them is freed and null, so none leaks or is freed twice |
| ResidentApp.App.HeldPush | src/app/daemon.c:58-69 | the message is recorded behind the others in the first free slot, or refused without a change when all 65 are taken |
| ResidentApp.App.CommonStart | src/app/daemon.c:171-175 | the scan finds the common start |
| ResidentApp.App.Prepare | src/app/daemon.c:150-170 | the held chat is used when daemon and options fit, else closed and another opened |
| ResidentApp.App.Transmit | src/app/daemon.c:180-240 | only the rest is sent, and what the chat then holds is recorded; no push is refused |
| ResidentApp.App.DaemonChat | src/app/daemon.c:111-274 | the loop of two attempts in place is the specification |
| Session.NextKeeps | src/geistd.c:444-496 | every operation keeps history equal to the cache and the pin inside, so hist_push never refuses |
| Generation.WorkKeeps | src/geistd.c:292-298 | over every run of all operations, generations included, the history is the cache, and pinned <= n_hist <= CTX_CAP - 1 |
| Session.PrefillExact | src/geistd.c:444-496 | success leaves exactly the request as reset and prefill-all would; refused for the pin exactly when the pinned prefix is no prefix of the request; failure leaves the old state or the pin |
| Session.PrefillReuses | src/geistd.c:462-478 | the whole history is reused when it is a prefix of the request, else the pinned prefix |
| Session.PrefillSucceeds | src/geistd.c:444-496 | exactly when a prefill succeeds, by what the engine does, and what each failure leaves |
| Session.OperationsExact | src/geistd.c:541-575 | a step appends exactly the decoded token when there is a history with room; pin, unpin and reset leave history and cache at exactly their prefix |
| Session.PinKept | src/geistd.c:473-486 | no single operation but unpin moves or loses the pinned prefix |
| Generation.PinnedStays | src/geistd.c:473-486 | until it is unpinned no run of operations, generations included, moves or loses the pinned prefix |
| Session.Resident.HistPush | src/geistd.c:292-298 | ids are copied behind the history, or nothing when they do not fit |
| Session.Resident.CommonStart | src/geistd.c:460-462 | the scan finds the first difference |
| Session.Resident.Prefill | src/geistd.c:444-496 | op_prefill on the history array is the specification |
| Session.Resident.Step | src/geistd.c:541-575 | a step appends the decoded token to history and cache, or refuses |
| Session.Resident.Reset | src/geistd.c:926-934 | history and cache go back to the pin |
| Session.Resident.Pin | src/geistd.c:936-953 | history and cache become the pinned prefix, or nothing changes |
| Session.Resident.Unpin | src/geistd.c:901-910 | pin and history are dropped together |
| Generation.LastOfLast | src/geistd.c:620-632 | sliding the window piece by piece keeps the last 511 bytes of everything |
| Generation.WindowExactIff | src/geistd.c:633-634 | the window decides stop strings of a length behind pieces of a length exactly when together they have at most 512 bytes |
| Generation.WindowMisses | src/geistd.c:620-634 | beyond that bound some stop string is missed, for every pair of lengths |
| Generation.LoopJudges | src/geistd.c:605-660 | the loop ends at the first turn whose window is judged to stop |
| Generation.Generates | src/geistd.c:603-672 | the reported count is the number of appended tokens; generation stops only where everything produced says so and, with short stop strings, at the first such token |
| Generation.ReasonByCause | src/geistd.c:605-660 | every reason with its count exactly by its cause: the first turn without room, without a token, without a client or told to stop, or the end of all turns |
| Generation.Progress | src/geistd.c:605-660 | with room, a working engine and a listening client only a stop ends a generation before its last turn |
| Generation.OperateGenerates | src/geistd.c:582-583 | without a history a generation is refused; any other appends the tokens of its turns |
| Generation.Tail.Append | src/geistd.c:620-632 | the buffer holds the last 511 bytes |
| Generation.StopsNow | src/geistd.c:617-635 | the stop test over ids and strings |
| Generation.Generate | src/geistd.c:603-672 | op_generate on history and buffer is the specification |
| TopK.TopUnique | src/geistd.c:255-273 | the result is determined by values descending, then indices ascending |
| TopK.InsertTop | src/geistd.c:262-270 | one more index enters at its place and the last one leaves when full |
| TopK.Insert | src/geistd.c:262-270 | the in-place insertion does that, values beside their indices |
| TopK.Top | src/geistd.c:255-273 | the arrays hold the first min(k, n) of that order with their values |
| TopK.SbTopk | src/geistd.c:275-285 | a reply names the first entries of that order, as many as the whole part of the number says, at most 256 and the vocabulary |
| TopK.InsideIff | src/geistd.c:255-262 | for any request above zero every turn touches its arrays inside their bounds exactly when the number is at least 1 |
| MemoryChannel.EnterKeeps | src/resource_sampler.c:9-11 | the flag admits one capture at a time |
| MemoryChannel.WriteKeeps | src/lifecycle.c:130-140 | every access of a writer keeps the protocol |
| MemoryChannel.ReadKeeps | src/lifecycle.c:141-165 | every access of a reader keeps what it has loaded one version |
| MemoryChannel.AcceptedWhole | src/lifecycle.c:130-165 | in every interleaving an accepted sample is one complete submitted sample, and accepted numbers never go back |
| MemoryChannel.OneWriter | src/resource_sampler.c:9-24 | two captures never write at once |
| MemoryChannel.UndisturbedAccepts | src/lifecycle.c:147-163 | an attempt that nobody disturbs accepts what is there |
| MemoryChannel.ReadsAlike | src/lifecycle.c:147-163 | the readers of the interleavings take what the program takes on the same pages |
| MemoryChannel.CapturePublishes | src/lifecycle.c:130-140 | a capture that finds the flag clear publishes its sample under the next even number with eight accesses |
| MemoryChannel.ClientReads | src/lifecycle.c:141-165 | behind any run a reader that starts and is left alone has accepted the current sample behind seven loads |
| MemoryChannel.Shared.MemoryWrite | src/lifecycle.c:130-140 | an uninterrupted write publishes one version |
| MemoryChannel.Shared.ResourceCapture | src/resource_sampler.c:9-24 | publishes, or returns at once when another caller writes |
| MemoryChannel.MemoryRead | src/lifecycle.c:141-165 | takes exactly the first of three attempts that meets an acceptable sample between the same even non-zero number, and fails exactly when all three do not; on a page that stands still it succeeds at once |
| PhaseChannel.WriteKeeps | src/lifecycle.c:99-105 | every access of the phase writer keeps the protocol |
| PhaseChannel.AcceptedMoment | src/lifecycle.c:99-128 | an accepted snapshot is the phases at one moment with the child's own process and start, and later ones only add phases |
| PhaseChannel.UndisturbedAccepts | src/lifecycle.c:113-126 | an attempt that nobody disturbs accepts what is there |
| PhaseChannel.ReadsAlike | src/lifecycle.c:113-126 | the readers of the interleavings take what the program takes on the same pages |
| PhaseChannel.PhaseRecorded | src/lifecycle.c:99-105 | exactly a known and new phase is recorded, under the next even number |
| PhaseChannel.ClientReads | src/lifecycle.c:106-128 | behind any run a reader that starts and is left alone has accepted the current phases behind ten loads |
| PhaseChannel.HeaderOnce | src/lifecycle.c:95-96 | process and start are written once each, in that order |
| PhaseChannel.Page.LifecyclePhase | src/lifecycle.c:99-105 | a phase is recorded once |
| PhaseChannel.LifecycleRead | src/lifecycle.c:106-128 | takes exactly the first of three attempts whose even number still stands and whose process and start are known, and fails exactly when all three do not; on a page that stands still it succeeds at once |
| History.RecentKeeps | src/app/performance.c:213-220 | expiry keeps exactly the recent records in their order |
| History.RetainKeeps | src/app/performance.c:212-232 | the store keeps bound, distinct ids and order, and a new recent record becomes its last |
| History.NextKeeps | src/app/performance.c:314-372 | every step of any thread keeps the invariant |
| History.NothingEarlier | src/app/performance.c:786-807 | in every interleaving a record begun, imported or loaded before the last clear is not in memory, queued, being written or in an erased file, and submitting it changes nothing |
| History.ClearIsFinal | src/app/performance.c:798-805 | that holds for everything begun up to a clear in every continuation behind it |
| History.NothingImported | src/app/performance.c:527-533 | behind a clear no import of older history is ever accepted |
| History.Conservation | src/app/performance.c:314-372 | since the last clear loaded plus accepted is persisted plus dropped plus queued plus being written |
| History.BoundedStore | src/app/performance.c:212-232 | at most 8192 records with distinct ids in insertion order, at most 64 queued |
| History.SubmittedExactly | src/app/performance.c:493-526 | with anything between begin and submit, a record is taken exactly when recording was on at its begin, no settings change or clear came since, it is recent and its id is new; it is then the last in the store and queued or counted as dropped |
| History.Starts | src/app/performance.c:373-413 | before it runs the program takes the stored settings and every record of a new id |
| History.WriterRound | src/app/performance.c:330-360 | one turn of the writer moves the oldest queued record behind the others on disk and counts it, or drops it |
| History.WaitsForFiles | src/app/performance.c:328-329 | an idle turn changes nothing, and writer, settings and clear wait while another holds the files |
| History.WriterCompaction | src/app/performance.c:340-342 | the writer compacts only behind a stored record, and each reach of a compaction leaves exactly its files |
| History.SettingsCompaction | src/app/performance.c:776-777 | the compaction behind a settings change does the same |
| History.SettingsRound | src/app/performance.c:760-784 | a settings change takes effect when it is saved, an opt-out in any case, under a new epoch |
| History.ClearRound | src/app/performance.c:786-807 | a clear empties store, queue, counts and the files it can remove, and forbids later imports |
| History.RingTakes | src/app/performance.c:516-518 | the ring takes a record behind the others |
| History.RingGives | src/app/performance.c:333-337 | and gives the oldest |
| History.Memory.Expire | src/app/performance.c:213-220 | expiry in place |
| History.Memory.RetainRecord | src/app/performance.c:212-232 | retain in place |
| History.Memory.BeginRecord | src/app/performance.c:493-502 | a record takes epoch and consent along |
| History.Memory.ImportRecord | src/app/performance.c:527-532 | an import has no consent once the older history was deleted |
| History.Memory.SubmitRecord | src/app/performance.c:509-526 | perf_submit on store and ring; without a writer thread, or with a full queue, the record counts as dropped |
| History.Memory.Take | src/app/performance.c:330-338 | the writer takes the oldest queued record |
| History.Memory.Reset | src/app/performance.c:798-805 | the memory part of perf_clear |
| Journal.LinesConcat | src/app/performance.c:391-411 | what is written line by line is read back line by line |
| Journal.SplitWhole | src/app/performance.c:845-858 | compaction cuts between records, the parts join to the export, and each fits its segment |
| Journal.SplitLargest | src/app/performance.c:846-849 | no earlier record end would leave a current segment that fits |
| Journal.CompactsIff | src/app/performance.c:845-853 | a compaction writes exactly when some record end leaves two parts that fit their segments |
| Journal.SealProtects | src/app/performance.c:470-480 | a torn append that is sealed spoils its own line only |
| Journal.UnsealedSpoils | src/app/performance.c:470-480 | without the seal the next record is lost as well |
| Journal.RunSized | src/app/performance.c:275-310 | in every reachable disk, torn appends, seals and crashes included, both segments are within their size |
| Journal.AppendKeepsCurrent | src/app/performance.c:287-300 | whatever an append comes to, what the current segment held is still in place or is the previous segment |
| Journal.SealsAndErases | src/app/performance.c:470-480 | only an unfinished last line gets its newline |
| Journal.NewestKept | src/app/performance.c:275-310 | behind any number of stored records both segments together are the end of everything written, and a drop leaves nearly a whole segment of newer bytes |
| Journal.ReloadExact | src/app/performance.c:373-413 | reloading at any time behind a compaction gives exactly the retained records in order that have not expired by then |
| Journal.ReloadKnows | src/app/performance.c:373-413 | while the distinct ids of its segments fit into the store, a restart knows exactly these ids |
| Journal.CrashBetween | src/app/performance.c:855-858 | a crash between the replacements keeps the old current file whole, and a record survives exactly when it is in there or in the older part of the export |
| Journal.RetainedFit | src/app/performance.c:855-858 | the ids fit behind such a crash, full stores included, when the old current file gives only retained ids |
| Journal.ReloadDistinct | src/app/performance.c:408-411 | overlapping segments are reloaded with distinct ids within the capacity |
| Journal.FindSplit | src/app/performance.c:845-849 | the loop finds the cut |
| Journal.ReadLines | src/app/performance.c:391-412 | the reading loop gives exactly the complete lines that fit its buffer |
| Journal.Files.AppendLine | src/app/performance.c:275-310 | append with rotation, whole or torn |
| Journal.Files.SealTail | src/app/performance.c:470-480 | the seal at startup |
| Journal.Files.CompactHistory | src/app/performance.c:840-863 | compaction up to any failure |
| Receipts.WrittenKeeps | src/app/jobs.c:143-169 | foreign writes at any moment keep what the job relies on |
| Receipts.HitMeansDigest | src/app/jobs.c:181-244 | in every run a receipt hit implies that a full rehash gives the catalog's digest, and a stored receipt names such contents, unless the very download that stored it was hit |
| Receipts.SelectionTrusts | src/app/jobs.c:181-204 | a selection skips the hash exactly when the stored receipt is the target's stamp |
| Receipts.HitIffUntouched | src/app/jobs.c:143-169 | once the target stands at its receipt, the next selection is a hit exactly when nobody wrote, replaced or removed the target meanwhile |
| Receipts.VerifiedOnceHits | src/app/jobs.c:181-244 | a selected file with the right size and digest is verified and stored, or already a hit |
| Receipts.DownloadOnceHits | src/app/jobs.c:224-243 | an undisturbed download of such a part becomes the target under a receipt that hits |
| Receipts.FailureEnds | src/app/jobs.c:205-241 | a cancelled job and one that finds something else than it relies on end and store nothing |
| Receipts.OnlySavesStore | src/app/jobs.c:242-243 | only a verified selection and a placed download store a receipt |
| Receipts.VerifiedIffNotHit | src/app/jobs.c:224-243 | behind any history a download stores a receipt for contents with the catalog's digest whatever bytes are written meanwhile, exactly when no write hits the verified file between its last stamp and the comparison, nor the target from there to its stamp |
| Receipts.SelectionsNeverRace | src/app/routes.c:455-468 | runs of selections never leave a raced receipt behind, whatever is written meanwhile |
| Receipts.RacedDownload | src/app/jobs.c:227-236 | an in-place write before the comparison stores a receipt for other contents |
| Receipts.ReplacedDownload | src/app/jobs.c:234-236 | so does a replacement between the comparison and the last stamp |
| Activity.EveryRun | src/app/activity.c:34-83 | at most 16 contiguous phases from the start with neighbours in different stages, the sequence counts the accepted events, and nothing changes behind the terminal one |
| Activity.EventExact | src/app/activity.c:48-83 | exactly which steps, progresses and ends count, and what they leave; foreign ids and generations, unknown stages, earlier times and full traces change nothing |
| Activity.DurationsAddUp | src/app/activity.c:73-83 | the durations of an ended activity add up to its whole time |
| Activity.Entry.ActivityStep | src/app/activity.c:48-65 | a step in place, refused for a foreign id or generation |
| Activity.Entry.ActivityProgress | src/app/activity.c:66-72 | progress in place |
| Activity.Entry.ActivityEnd | src/app/activity.c:73-83 | the terminal event in place |
| ProcStat.ReadsItsFields | src/app/resources.c:20-51 | for every process name the sample comes from the intended fields of the line |
| ProcStat.KeptAre | src/app/resources.c:34-49 | these are the fields 14, 15, 22 and 24, each a number within 64 bits |
| ProcStat.NumberReads | src/app/resources.c:34-43 | a printed number is read back when it fits 64 bits; an empty field and one with another character are refused |
| ProcStat.PrintedLine | src/app/resources.c:16-61 | a line that prints four numbers in their places gives exactly their sample, or none when a result does not fit |
| ProcStat.NoSample | src/app/resources.c:20-22 | without a parenthesis, a clock rate or a page size there is no sample |
| ProcStat.ShortLine | src/app/resources.c:26-32 | nor for a line with fewer than 22 fields behind the name |
| ProcStat.ComputeExact | src/app/resources.c:52-57 | success means exactly floor((user + system) * 10^9 / hz) and pages * page |
| ProcStat.ComputeFailsOnlyOnOverflow | src/app/resources.c:52-57 | at any real clock rate only a result beyond 64 bits fails |
| ProcStat.ParseLinux | src/app/resources.c:16-61 | the pointer loop is the specification |
| Reconcile.CloneNode | web/markdown.js:195-198 | a fresh tree equal but for its copy texts |
| Reconcile.CopyProperties | web/markdown.js:214-217 | the copy texts follow, and nothing else changes |
| Reconcile.MatchAttributes | web/markdown.js:207-208 | the attributes become the source's |
| Reconcile.MatchText | web/markdown.js:199-204 | the text becomes the source's |
| Reconcile.Reconcile | web/markdown.js:192-213 | the live children become deeply equal to the source's, the source stays as it is, and the same node object stands at every position where kind and name matched |
| Reconcile.EverythingKept | web/markdown.js:190-191 | where only texts and attributes changed every object survives |

## Left out

- Sockets, poll, deadlines, fork and spawn details, signals, file descriptors, curl and SHA-256: events or parameters.
- Non-strict tokenizer branches, the counting mode without a token array, 32-bit token offsets, and failing allocations.
- The readers take strings that the tokenizer accepted; a hexadecimal reader on other text is not modelled.
- The supervisor's messages, activities and catalog import, and shutdown: they do not change the modelled flags.
- SupervisorApp.App.Spawn: the checks between stop_child and the spawn are one boolean, because each of them only refuses.
- ResidentApp.Server.Open: the evicted chats are any set, which includes the least recently used slot; the slots are not modelled.
- Supervisor.GenerationHoldsIff: speaks of chat and completion requests; the measured requests of a comparison are admitted without the ready test.
- ResidentChat.AnswersWholeRequest: the socket path is a value; the source passes a pointer into the supervisor's state.
- The engine, geist-runtime, sampling and log-softmax: not in the repository, or floating point.
- TopK.Top: logits are totally ordered numbers, because a NaN has no place in the order.
- The session table and its eviction, and the token tables: one session is modelled.
- History.NothingEarlier: the running program; epochs start again with the process.
- Journal.ReloadExact: the clock is read once in a reload, while the program reads it for each record.
- Journal.CrashBetween: says what a crash keeps, not that it keeps everything; the comment at `src/app/performance.c:855` does not claim more.
- TopK.SbTopk: numbers of 2^64 and more, whose conversion the C standard leaves undefined, ask for 256 entries.
- Receipts.HitMeansDigest: the job is a transition system without an imperative twin, because its steps are file system calls.
- Activity.EveryRun: times are exact numbers where the source has doubles.
- src/gguf.c, HTTP header parsing, status text, preferences, hardware probing, the catalog and the rest of the web client.
