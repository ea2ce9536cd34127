# A model of codex-auth-broker

The broker sits between OpenAI-style clients and a set of Codex accounts. This project models
the parts of it where order, time, crashes or concurrency make correctness hard to see, and
proves what those parts are for. `dafny verify dfyconfig.toml` checks all of it.

- **Framing** (`Sse`, `SseLaws`, `SseWriter`). `Read` looks at a whole byte string; the framer's buffer
  machine is proved equal to it on everything fed so far. So every cutting of a stream gives the
  same events and the same result, no buffer exceeds the limit, and printing then reading is the
  identity, for the broker's own printing and for any writer of the format.
- **Chat translation** (`ChatTypes` to `ChatWire`). The streaming translator is modelled twice:
  as functions on a state (`ChatStream`) and as the object the code has (`ChatTranslator`), the
  second proved equal to the first. `ChatGrammar` proves what every stream looks like whatever
  upstream sends. `ChatCore` shows that a client cannot tell the translator from a much smaller
  machine, and `ChatTheorem` uses that machine to prove that a reassembled stream equals the
  batch completion and to say for which inputs the two paths succeed together. `ChatArguments`
  proves for which streams a listed call's arguments reach the client, `ChatFinish` what a stream
  says of itself and why it ended. `ChatWire` restates the agreement from bytes.
- **Request log** (`LogScan` to `LogCodecWitness`). Reading, tail repair, sliding-window
  compaction, transactional append under every fault, and whole lives of the log across crashes
  and restarts. `LogFile` has the code's loops and objects.
- **Accounts and failover** (`Cooldown`, `Accounts`, `AccountObjects`, `Dispatch`). A timed state
  machine with sticky selection, benches and probes, and the retry loop on top of it, disturbed by
  arbitrary other requests.
- **Concurrent protocols** (`TierCatalog`, `Drain`, `AuthRefresh`). Single-flight catalog, shutdown
  drain and locked token refresh as steps; the theorems hold in every interleaving.
- **WebP, pricing, usage** (`WebP`, `Pricing`, `Usage`). A container walk that accepts exactly the
  files a writer could have written, cost arithmetic, and two aggregators that agree.

What is outside the model enters as a parameter: the JSON codec and its sanitising, the clock,
generated ids, the outcome of each read, write, rename and refresh, and what other goroutines do.
The codec is assumed to satisfy `LogScan.Sound`; `LogCodecWitness.SoundCodecExists` shows that this
can be met. Integers are unbounded and money is exact. JSON objects are datatypes whose identifier
fields are already trimmed, as `stringField` returns them.

Where code and documentation differ, or where a plausible claim is false:

- An empty arguments delta marks a call's arguments as sent (chat_completions.go:934 has no check
  like the one at :908 for text), so the arguments that its done event or the terminal output
  brings later are withheld. `ChatArguments.HushedCall` gives the input, for any call: announced
  without arguments, one empty delta, then done, and listed in the terminal output or not; the
  stream succeeds and carries none, while the batch path has them. `ChatArguments.ArgumentsExactly`
  proves for every call of every successful stream when they do arrive: upstream supplied some,
  and either some delta for the call is not empty or every delta comes after a done event that
  brings arguments or an announcement that brings them and is the first to mention the call.
- The two chat paths do not always succeed together. `ChatTheorem.PathsDiffer` gives the ways:
  a `response.failed` event whose response has an unfailed status (an error on the stream, a
  completion in batch); a `[DONE]` before a successful ending (the same); done events that together
  exceed the size limit (a stream that succeeds, an error in batch); and an ending whose type has
  blanks around it, which the translator trims (chat_completions.go:866) and the aggregator does not
  know (proxy.go:1119). `ChatTheorem.OutcomesAgree` proves over every input exactly when they agree;
  two of these can cancel, since then both paths fail. No single event can exceed the limit:
  `SseLaws.DeliveredFit` and `ChatWire.PayloadsFit` prove that the framer delivers none that does.
- README.md:647-648 reads as one probe per interval for the whole pool. The code, and
  docs/multi-account.md:136-137, space probes per account; `Accounts.SpacingIsPerAccount` proves that
  the pool-wide reading holds for pools of at most one account and for no others.
- Picks and cooldowns are stamped before the lock is taken (proxy.go:360-361, proxy.go:400-402). If
  another request probes and releases the account in between, its reserved slot is lost: with stamps
  up to `lag` old, probes of one account are probeInterval less `lag` apart and no more
  (`Accounts.SpacingExactly`; `Accounts.LateStamp` is the run). A failed refresh is stamped with
  the time of the pick before it, however long past; that does no harm as long as it benches for
  no more than probeInterval from its stamp, which leaves `authErrorCooldown` three minutes for the
  second reading of the clock at capabilities.go:82 and websocket.go:133.
- Compaction sanitises entries that were sanitised when written, and sanitising need not be
  idempotent, so an entry may change when it is rewritten: `LogCodecWitness.CompactionChangesEntry`
  is such an append. `LogScan.ReadBackExactly` proves that entries survive unchanged exactly when
  sanitising fixes them and they encode within 1 MiB; on such a log `LogAppend.AppendKeepsSuffix`
  gives a literal suffix. IDs never change.
- The API estimate is never below the Codex estimate for a table row exactly when the row's
  cache-write price is at most 1.25 times its input price, or is not replaced
  (`Pricing.ApiNotBelowExactly`). The default table satisfies this; an override need not.
- Without a working file lock (lock_other.go) any two processes can send a refresh token that the
  server has already replaced: `AuthRefresh.StaleWithoutLock`; and so can a single caller whose
  granted refresh was lost before it was written (`AuthRefresh.StaleAfterLoss`).
  `AuthRefresh.NewestExactly` proves that requests always carry the newest token if and only if the
  lock works or there is one process, and nothing granted is lost; `AuthRefresh.RequestsExactly`
  says of each request, with losses or not, when it does.
- Reading only the last maxBytes of the log compacts like reading all of it exactly when every line
  fits the cap or both attempts fail (`LogWindow.BoundedExactly`): a longer line that the bounded
  read skips would make a whole read fail.

## Model

| member | source | states |
|---|---|---|
| `Sse.ReadAppend` | sse.go:21-40 | reading a and then b leaves exactly what reading a + b at once leaves: cut points cannot matter, limit errors and consumer stops included |
| `Sse.ReadTurn` | sse.go:22-38 | one turn of the feed loop, a partial line meeting the rest of a chunk, is one step of the reference on their concatenation |
| `Sse.ReadNothing` | sse.go:21-40 | a partial line within the limit is simply held |
| `Sse.ReadHaltsHonestly` | sse.go:66-74 | reading stops only for the limit or because the consumer said so |
| `Sse.BufferBounded` | sse.go:27-29 | line and event under construction together never exceed the limit, on any input |
| `Sse.SseFramer.constructor` | sse.go:13-19 | a new framer has consumed nothing and agrees with the reference |
| `Sse.SseFramer.FlushEvent` | sse.go:66-74 | delivers the open event once, if there is one, and reports the consumer's verdict |
| `Sse.SseFramer.FlushLine` | sse.go:42-64 | ends a line as the reference does; its own size check never fires |
| `Sse.SseFramer.Feed` | sse.go:21-40 | after any chunk the buffers are what the reference leaves after all bytes so far, or the error is the reference's |
| `Sse.SseFramer.Finish` | sse.go:76-83 | end of input flushes the last line and then the last event |
| `Sse.ReadSSE` | sse.go:85-107 | for every cutting of the input, empty reads included, the delivered events and the result are a function of the joined bytes alone |
| `SseLaws.ReadPrinted` | chat_completions.go:1194-1216 | one printed event, read back in front of any continuation, is delivered unchanged |
| `SseLaws.ReadAllPrinted` | chat_completions.go:1194-1216 | a printed list is read back as that list, with nothing left over |
| `SseLaws.PrintThenRead` | chat_completions.go:1194-1216 | printing newline-free payloads not ending in CR plus DONE, and reading back with a large enough limit, returns them and then [DONE] |
| `SseLaws.ReadCut` | sse.go:66-74 | a consumer's run over any bytes is the run of one that never stops, cut at the first event where this one stops |
| `SseLaws.StopEarly` | sse.go:85-107 | the same for whole streams: the events seen and the result are the patient reader's up to the stop |
| `SseLaws.DeliveredFit` | sse.go:27-29 | no event longer than the limit is ever delivered |
| `SseWriter.LineTaken` | sse.go:42-63 | one written line, read: data adds its value, with or without the space, behind LF or CRLF; any other line changes nothing |
| `SseWriter.WriteThenRead` | sse.go:21-107 | any list of events made of comments, other fields and data lines is delivered as each event's data values joined by LF, nothing for an event without data; a cut-off last event is delivered at end of input and lost on a read error |
| `SseWriter.OversizedLine` | sse.go:27-29 | a line over the limit ends the reading in the limit error, after everything before it was delivered |
| `ChatTranslator.ChatStreamTranslator.constructor` | chat_completions.go:817-825 | a new translator is in the initial state |
| `ChatTranslator.ChatStreamTranslator.WriteObject` | chat_completions.go:1194-1216 | one attempt: the chunk is sent, or the write error is returned and nothing is |
| `ChatTranslator.ChatStreamTranslator.BaseChunk` | chat_completions.go:1175-1192 | fills in a missing id and model once and stamps chunks with them |
| `ChatTranslator.ChatStreamTranslator.WriteChoice` | chat_completions.go:1159-1173 | the object's step is the state function's |
| `ChatTranslator.ChatStreamTranslator.EnsureRole` | chat_completions.go:985-991 | the object's step is the state function's |
| `ChatTranslator.ChatStreamTranslator.EnsureTool` | chat_completions.go:993-1023 | the object's step is the state function's, failed writes included |
| `ChatTranslator.ChatStreamTranslator.WriteToolArguments` | chat_completions.go:1032-1043 | the object's step is the state function's, the emitted mark included |
| `ChatTranslator.ChatStreamTranslator.EmitCall` | chat_completions.go:895-903 | the object's step is the state function's |
| `ChatTranslator.ChatStreamTranslator.EmitMessageFallback` | chat_completions.go:1107-1136 | the loop over parts computes the recursive fallback, stopping at the first failed write |
| `ChatTranslator.ChatStreamTranslator.EmitItem` | chat_completions.go:1085-1102 | the object's step is the state function's |
| `ChatTranslator.ChatStreamTranslator.EmitResponseOutputFallback` | chat_completions.go:1078-1105 | the loop over output items computes the recursive fallback |
| `ChatTranslator.ChatStreamTranslator.CaptureResponse` | chat_completions.go:965-983 | identity changes only before the first chunk; usage and tier at any time |
| `ChatTranslator.ChatStreamTranslator.Fail` | chat_completions.go:1139-1157 | the object's step is the state function's |
| `ChatTranslator.ChatStreamTranslator.Finish` | chat_completions.go:1045-1076 | the object's step is the state function's |
| `ChatTranslator.ChatStreamTranslator.WriteDelta` | chat_completions.go:904-919 | the object's step is the state function's |
| `ChatTranslator.ChatStreamTranslator.Consume` | chat_completions.go:865-963 | for every event the object moves and answers as the state function does |
| `ChatTranslator.CopyChatCompletionsStream` | chat_completions.go:816-863 | over any payloads and any ending the object's run is the translation the theorems are about |
| `ChatGrammar.WriteKeepsLive` | chat_completions.go:1159-1206 | a chunk that fits what was sent keeps the stream lawful, or it is the failed write and the last attempt |
| `ChatGrammar.EnsureToolKeepsLive` | chat_completions.go:993-1023 | announcing a call keeps the stream lawful: its index is the number of calls announced before |
| `ChatGrammar.EmitPartsKeepsLive` | chat_completions.go:1107-1136 | the fallback keeps the stream lawful, repeats no covered part and leaves every text and refusal part covered |
| `ChatGrammar.EmitCallKeepsLive` | chat_completions.go:1090-1101 | a finished call ends announced and, if it has arguments, marked as having them sent |
| `ChatGrammar.EmitOutputKeepsLive` | chat_completions.go:1078-1105 | the fallback over a whole output keeps the stream lawful and deals with every item |
| `ChatGrammar.CaptureKeepsLive` | chat_completions.go:965-983 | taking over a response's identity cannot break the identity of chunks already sent |
| `ChatGrammar.ConsumeKeepsLive` | chat_completions.go:865-935 | every event that does not end the stream keeps it lawful, or ends in a failed write |
| `ChatGrammar.FailEnds` | chat_completions.go:1139-1157 | from any open stream: one error, one DONE, nothing more, and never success |
| `ChatGrammar.CloseEnds` | chat_completions.go:1059-1075 | role if missing, finish chunk, optional usage, one DONE, nothing more |
| `ChatGrammar.RecordedIsEmitted` | chat_completions.go:1123-1133 | what the books call dealt with is on the wire: a chunk of the right kind for each part; for a call its announcement and, if it has arguments, a chunk with its index that carries some or is an empty continuation |
| `ChatGrammar.FinishEnds` | chat_completions.go:1045-1076 | a terminal event ends the stream lawfully; on success every part of its output is on the wire, and every call is announced and its arguments sent or used up by an empty continuation |
| `ChatGrammar.ReceiveKeepsLive` | chat_completions.go:829-851 | one payload, of any kind, keeps the stream open and lawful or ends it lawfully; only events that do not end a stream, and blanks, let it go on |
| `ChatGrammar.TranslateEnds` | chat_completions.go:816-863 | every stream is grammatical to its single DONE, or was cut at its one failed write after which nothing is attempted; success means it went on to a terminal event whose items are on the wire as above |
| `ChatGrammar.EveryStream` | chat_completions.go:816-1216 | with working writes: role first, then body, then finish with optional usage or one error, then one DONE; one id, model and created; tool indexes count up from 0, each call is announced once and its arguments bear its index; the fallback repeats no part |
| `ChatMoves.EventMoves` | chat_completions.go:865-983 | each event only adds chunks; usage, tier and name change only by the response it carries; the first chunk it adds bears the name settled by then |
| `ChatMoves.TranslateGrows` | chat_completions.go:816-863 | what has been sent is never taken back |
| `ChatCore.WriteRefines` | chat_completions.go:1159-1173 | one chunk changes a reassembling client exactly by its delta |
| `ChatCore.OutputRefines` | chat_completions.go:1078-1136 | the fallback is, to a client, the core's fallback |
| `ChatCore.ConsumeRefines` | chat_completions.go:865-935 | simulation: every event that leaves the stream open moves the client as the core says |
| `ChatCore.FinishRefines` | chat_completions.go:1045-1076 | a successful terminal event gives the client the rest of the output and the finish reason |
| `ChatFinish.FinishExactly` | chat_completions.go:742-750 | after every successful stream there is one finish chunk: "length" iff the terminal response is incomplete, else "tool_calls" iff a call was announced, else "stop"; it bears the last tier upstream sent; then the last usage upstream sent, iff there is one and it is wanted; then DONE |
| `ChatFinish.FirstHeader` | chat_completions.go:965-983 | the first event to put anything on the wire names the stream: id, model, created and tier of its response, or made up here if it has none |
| `ChatFinish.CompletionIds` | chat_completions.go:719-730 | upstream ids keep a chatcmpl- prefix, trade resp_ for it, or get it in front |
| `ChatFinish.FailureSays` | chat_completions.go:829-861 | every failing stream, unless a write failed, ends in one error whose message says why, then DONE, and returns the matching summary |
| `ChatFinish.CompletionSays` | chat_completions.go:634-717 | a batch completion exists iff the response did not fail; its finish reason by status and whether the output holds a call; content null iff there are calls and no text, refusal null iff there is none |
| `ChatFinish.CompletionGrows` | chat_completions.go:643-674 | what one more output item adds to a completion: a call with its own id unless blank and {} for blank arguments, or its text or refusal |
| `ChatBatch.ChatCompletionFromResponse` | chat_completions.go:634-717 | the loops collect what the output says, in order; null content only for calls without text; blank arguments become {} |
| `ChatBatch.CollectParts` | chat_completions.go:650-662 | the inner loop appends a message's texts and refusals in order |
| `ChatBatch.AggregateResponses` | proxy.go:1106-1161 | the loop over events is the recursive aggregation, with its size limit, all error endings, and blindness to padded types |
| `ChatBatch.SortOfAscending` | proxy.go:1152-1159 | done items already in output order are left in that order |
| `ChatBatch.SortIsStable` | proxy.go:1152-1159 | whatever order done items arrive in, they come out ascending, none lost or added, and in arrival order within an index |
| `ChatAgreement.PartsComplete` | chat_completions.go:1107-1136 | the fallback says exactly the parts that were not streamed |
| `ChatAgreement.MessageReached` | chat_completions.go:904-919 | however a message is streamed or left to its done event, the client has heard it once |
| `ChatAgreement.CallReached` | chat_completions.go:920-935 | however a call is announced, streamed or left to its done event, the client has it once, whole |
| `ChatTheorem.RunsReached` | chat_completions.go:865-935 | after any item runs the client has heard exactly those items, in order |
| `ChatTheorem.OutputReached` | chat_completions.go:1078-1105 | listing the items again in the terminal output adds those not heard and nothing else |
| `ChatTheorem.BatchOutput` | proxy.go:1106-1161 | on the same events the aggregator ends with the same items and status |
| `ChatTheorem.StreamAgreesWithBatch` | chat_completions.go:634-1136 | for every successful upstream run, with noise anywhere and anything after the end, the reassembled stream has the batch completion's text, refusal, calls and finish reason |
| `ChatTheorem.StreamOutcome` | chat_completions.go:829-862 | a stream succeeds if and only if its first stopping payload is a successful terminal event and no [DONE] comes before it |
| `ChatTheorem.BatchOutcome` | proxy.go:1110-1148 | the batch path succeeds if and only if its first stopping payload, events with padded types passed over, has an unfailed response and the done items before it are within the limit |
| `ChatTheorem.OutcomesAgree` | proxy.go:1106-1161 | over every payload sequence and ending, both paths succeed or fail together if and only if: the stream's ending has an exact type, a contradictory one comes with done items over the limit, and before a successful one there is no [DONE] exactly if done items are within the limit; or its type is padded and the batch path, going on, ends the same way |
| `ChatTheorem.PathsDiffer` | proxy.go:1112-1137 | the inputs on which the paths differ, none over the framer's limit, for every configuration and response |
| `ChatArguments.EventTells` | chat_completions.go:873-935 | each event moves what the translator knows of one call, and what the client has of it, as the call's fate says |
| `ChatArguments.FateExactly` | chat_completions.go:900-934 | a call ends hushed exactly when the events do not heed it: all its deltas are empty and the first comes before its arguments are brought |
| `ChatArguments.ClientHears` | chat_completions.go:1032-1043 | a client has arguments for the n-th call if and only if some chunk bearing that index carried some |
| `ChatArguments.OpenedOnce` | chat_completions.go:997-1002 | a call is announced under one index only |
| `ChatArguments.FinalFate` | chat_completions.go:1090-1101 | after the terminal output a call has been heard exactly if upstream supplied arguments and the events heeded it |
| `ChatArguments.ArgumentsExactly` | chat_completions.go:865-1105 | after every successful stream and for every call, its arguments have reached the wire if and only if upstream supplied some and the events before the terminal one heeded the call |
| `ChatArguments.BroughtArguments` | chat_completions.go:895-903 | in particular for every call that a done event or the terminal output brings with arguments: they arrive if and only if the events heeded it |
| `ChatArguments.HushedCall` | chat_completions.go:934-935 | the failing input, for any call with arguments, listed in the end or not, and any sizes: the stream succeeds without them, the batch path has them |
| `ChatWire.CopyIsTranslate` | chat_completions.go:828-862 | framing with the translator as consumer is the translation of what a patient reader frames from the whole input |
| `ChatWire.SilentEnds` | chat_completions.go:852-861 | a stream that ends without a word from upstream fails, and says whether an event was too long, a read failed or the input ended |
| `ChatWire.PayloadsFit` | proxy.go:1110-1121 | neither path ever sees a payload over the framer's limit |
| `ChatWire.AggregateStreamIsAggregate` | proxy.go:1106-1161 | the same for the aggregating consumer |
| `ChatWire.WireAgreement` | chat_completions.go:634-863 | from bytes: any input whose frames decode to a successful run gives agreeing answers on both paths |
| `LogScan.ScanAppend` | persist.go:362-394 | reading whole lines and then more is reading both one after the other |
| `LogScan.ScanLines` | persist.go:362-394 | a file of encoded entries reads back as those entries, sanitised, oversized ones dropped |
| `LogScan.ReadBackExactly` | persist.go:229-236 | entries are unchanged by being rewritten and read again if and only if sanitising fixes each and each encodes within 1 MiB |
| `LogScan.TailStartUnique` | persist.go:161-177 | there is only one start of an unfinished last line, so any search that finds one finds it |
| `LogScan.RepairExactly` | persist.go:148-193 | an unfinished last line stays exactly if a reader would get an entry from it, and is cut off otherwise |
| `LogScan.RepairKeepsEntries` | persist.go:148-193 | for every file, repair leaves the readable entries unchanged and room for a line to follow |
| `LogScan.TornLine` | persist.go:106-143 | a line cut at any byte is read wholly or not at all |
| `LogWindow.WindowStartIsWindow` | persist.go:207-228 | the kept window fits three quarters of the cap or is the newest line alone, and one more line would not fit |
| `LogWindow.WindowIsLongest` | persist.go:207-228 | that window is unique and the longest suffix that fits |
| `LogWindow.ThreeQuarters` | persist.go:207-207 | the target is three quarters of the cap, rounded up |
| `LogWindow.TailIsSuffix` | persist.go:271-293 | the bounded reader sees a suffix of what a full read sees, for every file |
| `LogWindow.CompactKeepsSuffix` | persist.go:198-266 | a compacted file is within the cap and is the window over the tail's entries, then the new line |
| `LogWindow.TailWindow` | persist.go:271-293 | the window over the tail is the window over the whole |
| `LogWindow.BoundedCompaction` | persist.go:198-293 | on canonical lines, compacting from the last maxBytes bytes gives exactly what compacting the whole file would |
| `LogWindow.BoundedExactly` | persist.go:198-293 | on stable entries the bounded read compacts as a whole read would if and only if every line fits the cap, or the new line does not, or there is none and the newest line does not |
| `LogAppend.TornText` | persist.go:106-143 | the appended text, separator included, cut at any byte, adds the entry wholly or not at all |
| `LogAppend.CompactedEntries` | persist.go:198-266 | after compaction a reader finds a suffix of the old entries, as rewritten, and then the new one |
| `LogAppend.AppendIsAtomic` | persist.go:92-143 | for every file and every fault: surviving old entries, all of them or a suffix as rewritten, then the new one wholly or not at all; wholly if append reports success, where an entry that encodes over 1 MiB is appended but never read |
| `LogAppend.AppendKeepsSuffix` | persist.go:92-143 | on stable entries: whatever fails, a literal suffix of the old entries, then the new one wholly or not at all |
| `LogAppend.AppendSucceeds` | persist.go:103-135 | when nothing fails append succeeds iff the new line fits the cap and, should the file overflow, so do all lines a compaction rewrites |
| `LogAppend.AppendExtends` | persist.go:118-135 | when it fits it does succeed: the file is the repaired one and the new line behind it, and a reader finds every old entry and then the new one |
| `LogAppend.AppendCompacts` | persist.go:126-128 | a successful append that overflows leaves exactly the longest window of the tail and the new line, read back as such |
| `LogAppend.FailuresShow` | persist.go:132-142 | success is only reported when the outcome is that of no failure; failures before the write leave the file alone, a rolled-back one leaves it as repaired |
| `LogAppend.AppendStaysCapped` | persist.go:111-128 | a file within its cap stays within it, whatever fails |
| `LogRun.RestartRestores` | requests.go:101-119 | a restart restores exactly the last limit entries, in order, under their IDs, and numbers on from the largest retained ID |
| `LogRun.MemoryExactly` | requests.go:81-168 | an add puts its entry last in memory, under the next number, and drops the oldest beyond the limit; a clear empties memory iff it succeeded |
| `LogRun.ApplyKeepsInv` | requests.go:81-168 | every add, failed add, crash, clear and restart keeps the cap and strictly increasing IDs in file order |
| `LogRun.RunKeepsInv` | requests.go:81-168 | so does every sequence of them |
| `LogRun.EveryLife` | persist.go:51-143 | from an empty log, after any life: capped, IDs increasing, and what a restart would restore |
| `LogRun.AddsKept` | requests.go:81-97 | a life of adds that fit, on whole lines: the file has exactly their lines behind what it had, a reader finds exactly their entries behind what it found, numbered on |
| `LogFile.RawLinesScan` | persist.go:362-394 | parsing line by line is scanning the file |
| `LogFile.ScanRequestLogReader` | persist.go:362-394 | however long lines arrive in fragments, the loop yields the file's readable entries |
| `LogFile.ParseFragments` | persist.go:367-386 | accumulating fragments, with early abandon of oversized lines, parses the joined line |
| `LogFile.CollectRequestLogEntries` | persist.go:433-457 | the ring, unrolled, is the last limit entries in order, with the largest ID |
| `LogFile.Rotate` | persist.go:443-446 | overwriting the oldest slot drops the oldest entry and adds the newest |
| `LogFile.KeepNewest` | persist.go:207-244 | the queue with its moving head and its shifting ends as the longest suffix that fits; it fails exactly if some line exceeds the cap |
| `LogFile.RequestLogFile.constructor` | persist.go:74-74 | an opened log has no error latched |
| `LogFile.RequestLogFile.RepairTail` | persist.go:148-193 | the backward search, a buffer at a time, computes the repair; the warning is latched exactly if something was discarded |
| `LogFile.RequestLogFile.Compact` | persist.go:198-266 | the file is replaced by its compaction or left as it was |
| `LogFile.RequestLogFile.Append` | persist.go:92-143 | the file and the result are those of the append function for every fault; failure latches the warning |
| `LogFile.RequestLogFile.AppendLine` | persist.go:103-142 | the body of append, before the deferred latch |
| `LogFile.RequestLogFile.LoadEntries` | persist.go:409-431 | the last limit entries of the retained tail and its largest ID |
| `LogFile.RequestLogFile.Clear` | persist.go:322-342 | a failed clear may have emptied the file but keeps the warning |
| `LogFile.RequestLogStore.constructor` | requests.go:74-79 | a new store is empty and numbers from 0 |
| `LogFile.RequestLogStore.Add` | requests.go:81-97 | memory, numbering and file move as the life's add step says |
| `LogFile.RequestLogStore.Restore` | requests.go:101-119 | an empty store becomes the reopened log |
| `LogFile.RequestLogStore.Clear` | requests.go:157-168 | memory is cleared only if the file was |
| `LogFile.RequestLogStore.Snapshot` | requests.go:121-155 | the newest entries, newest first, as many as asked for |
| `LogCodecWitness.SoundCodecExists` | persist.go:106-110 | the assumptions on the codec are consistent, whatever the sanitizer |
| `LogCodecWitness.CompactionChangesEntry` | persist.go:229-236 | a sound codec and a file on which an append that compacts changes a surviving entry |
| `Cooldown.ClampCooldown` | accounts.go:352-360 | every duration becomes one between 30 seconds and 8 days |
| `Cooldown.ResetsBounded` | accounts.go:279-322 | every reset a body mentions, at any depth, lies within the clamps |
| `Cooldown.WalkFindsEarliest` | accounts.go:242-277 | the walk finds the earliest reset mentioned anywhere in the body |
| `Cooldown.WalkIgnoresOrder` | accounts.go:242-277 | bodies that mention the same resets give the same answer |
| `Cooldown.FieldOrderIrrelevant` | accounts.go:252-265 | the order of map iteration does not matter |
| `Cooldown.CooldownBounded` | accounts.go:215-238 | whatever headers and body: between 30 seconds and 8 days from now |
| `Cooldown.ResetMeans` | accounts.go:279-322 | a number below 10^9 is seconds from now, from there on a Unix time, a date that date; the time itself from 30 seconds to 8 days ahead, else the nearer bound; nothing for zero, blanks or other values |
| `Cooldown.ResetKeys` | accounts.go:254-257 | a body key counts iff "reset", "retry", "seconds_until" or "cooldown" occurs in it in any case |
| `Cooldown.DecisionExactly` | accounts.go:215-238 | the first header that parses decides; without one the earliest reset in the body; without any 7 days, 5 hours or 60 seconds by the wording |
| `Accounts.SearchIsFirst` | accounts.go:122-137 | the loop finds the first usable account in cyclic order, or none is |
| `Accounts.PickIsFirst` | accounts.go:118-140 | the first available account from the active one on; only if none, the first whose probe is due, its slot reserved; else none and nothing changes |
| `Accounts.CoolHoldsBack` | accounts.go:53-62 | a cooldown, with whatever stamp, cannot bring the next probe forward by more than the lag |
| `Accounts.NextKeepsInv` | accounts.go:47-87 | every pick, cool and clear keeps probes spaced |
| `Accounts.RunKeepsInv` | accounts.go:47-87 | so does every run with a nondecreasing clock |
| `Accounts.EveryRun` | accounts.go:47-140 | from a fresh pool: probes of one account are at least probeInterval less the lag of stamps apart, clears or not, and pick succeeds from probeInterval after the last cool or probe of any one account on |
| `Accounts.SpacingExactly` | accounts.go:53-87 | in every run probes of one account are gap apart if and only if gap is 0 or at most probeInterval less the lag |
| `Accounts.LateStamp` | proxy.go:400-402 | the run that uses up the lag: a probe and a release between stamp and lock |
| `Accounts.ProbedTogether` | accounts.go:129-138 | for every pool of two accounts or more, a run in which two are probed at the same instant |
| `Accounts.SpacingIsPerAccount` | accounts.go:129-138 | in every run any two probes of any accounts are probeInterval apart if and only if the pool has at most one account |
| `AccountObjects.Account.constructor` | accounts.go:38-45 | a new account is available |
| `AccountObjects.Account.IsAvailable` | accounts.go:47-51 | available exactly when its cooldown is not after now |
| `AccountObjects.Account.Cool` | accounts.go:53-62 | neither the bench nor the next probe is ever brought forward |
| `AccountObjects.Account.TakeProbe` | accounts.go:67-78 | due exactly when benched and past the slot, and then the next slot is reserved |
| `AccountObjects.Account.ClearCooldown` | accounts.go:82-87 | available again, with no probe history |
| `AccountObjects.AccountPool.constructor` | accounts.go:98-108 | starts at the first account |
| `AccountObjects.AccountPool.PickAvailable` | accounts.go:122-128 | the first loop is the search for an available account |
| `AccountObjects.AccountPool.PickProbe` | accounts.go:132-138 | the second loop is the search for a due probe and changes only the account it takes |
| `AccountObjects.AccountPool.Pick` | accounts.go:118-140 | choice and new state are those of the pick function |
| `AccountObjects.AccountPool.Slot` | accounts.go:123-123 | cyclic order from the active account |
| `Dispatch.LoopContract` | proxy.go:356-414 | the contract below, from any point of the loop |
| `Dispatch.DispatchContract` | proxy.go:349-427 | whatever others do: at most n attempts; benches exactly the accounts that answered 429 or failed refresh uncancelled, for 30 seconds to 8 days; never hands on a 429 response |
| `Dispatch.ServedExactly` | proxy.go:397-413 | served iff the last account tried answered with anything but a 429, with that answer's code; and below 400 that account is released, whatever others do |
| `Dispatch.DispatchRotates` | proxy.go:356-414 | the first account tried is the first usable one from the active account on; a dispatch stops short of n attempts only for an answer, a cancellation, or when nobody is usable |
| `Dispatch.FailuresExplained` | proxy.go:350-427 | 408 only for a cancelled request; 502 only for an empty pool, a request that could not be sent, or accounts that all failed to refresh; 429 only if some account was rate limited or none could be tried |
| `Dispatch.DispatchSettles` | proxy.go:349-427 | undisturbed, each account's cooldown ends as its refusals say, released only if it served the request |
| `Dispatch.DispatchBenches` | proxy.go:349-427 | whatever others do short of clearing, every bench a dispatch imposed stands in the pool at the end, except that of an account which then served the request |
| `Dispatch.PickRespectsLock` | accounts.go:118-140 | an account benched until a time is not picked before it, not even as a probe |
| `Dispatch.NoAccountTwice` | proxy.go:349-427 | if under minCooldown elapses and nobody clears a cooldown, no account is tried twice, whatever else others do |
| `Dispatch.RunOthers` | accounts.go:47-140 | other requests' locked calls on the objects are the pool function's steps |
| `Dispatch.CoolOne` | proxy.go:400-402 | benches one account and no other |
| `Dispatch.ClearOne` | proxy.go:408-412 | releases one account and no other |
| `Dispatch.Run` | proxy.go:349-427 | the loop on the pool's objects is the dispatch function: same result, same tries, same pool |
| `TierCatalog.OneFetcherKept` | service_tiers.go:65-102 | every step keeps one fetch at a time, with ready set exactly while it runs |
| `TierCatalog.ChannelsKept` | service_tiers.go:72-99 | every step keeps channels closed at most once, and every waiter's closed or about to be |
| `TierCatalog.NotPoisonedKept` | service_tiers.go:93-95 | every step keeps cancelled results from being served |
| `TierCatalog.HonestKept` | service_tiers.go:66-101 | every step gives callers the latest outcome while it is good, or what they fetched themselves |
| `TierCatalog.TimelineKept` | service_tiers.go:88-97 | every step keeps fetches in turn and apart |
| `TierCatalog.NextKeepsInv` | service_tiers.go:59-103 | every step keeps all of these |
| `TierCatalog.RunKeepsInv` | service_tiers.go:59-103 | every interleaving keeps all of these |
| `TierCatalog.EveryInterleaving` | service_tiers.go:59-103 | fetches never overlap, ready is set exactly while one runs and closed once, no caller gets another's cancelled result, a fetch starts no sooner than 5 minutes after a stored success or 30 seconds after a stored failure; a caller is served the latest stored outcome, unexpired, or its own, and every outcome is what its fetcher fetched |
| `TierCatalog.StoredWasFetched` | service_tiers.go:85-101 | every stored outcome is one that a caller fetched, with its value |
| `TierCatalog.AccountTierCatalog.constructor` | service_tiers.go:60-64 | a new catalog is empty |
| `TierCatalog.AccountTierCatalog.Look` | service_tiers.go:66-83 | the first critical section is the deciding step and keeps the invariant |
| `TierCatalog.AccountTierCatalog.Store` | service_tiers.go:88-101 | the second is the finishing step, keeps the invariant, and closes exactly the channel of the running fetch |
| `Drain.NextKeepsInv` | server.go:27-62 | every step keeps done closed exactly when draining and idle, and admits nobody once draining |
| `Drain.RunKeepsInv` | server.go:27-62 | so does every interleaving |
| `Drain.StaysEmpty` | server.go:27-62 | once done is closed no handler runs again |
| `Drain.EveryInterleaving` | server.go:20-125 | done is closed once, exactly when draining holds and nobody is active; nobody is admitted after draining began; serveHTTP returns only after every admitted handler ended, or with the cleanup timeout |
| `Drain.ResultExactly` | server.go:101-125 | serveHTTP returns the timeout iff the cleanup timer fired, else the serve error iff the server broke, else the shutdown error iff shutdown failed but for its deadline, else nothing |
| `Drain.ServerRequests.constructor` | server.go:79-79 | nobody active, not draining, done open |
| `Drain.ServerRequests.Enter` | server.go:29-38 | admission is the arrival step; refused exactly while draining |
| `Drain.ServerRequests.Exit` | server.go:39-46 | the deferred exit is the leaving step; the last handler of a drain closes done |
| `Drain.ServerRequests.Drain` | server.go:52-62 | draining afterwards; done closed exactly if nobody runs, never twice |
| `AuthRefresh.OwnedIsExclusive` | auth.go:68-78 | at most one caller is between lock and unlock: by the file lock across processes, by the mutex within one |
| `AuthRefresh.AllUnlocked` | auth.go:68-78 | in every interleaving, when everyone has left, mutex and lock are free |
| `AuthRefresh.FreshKept` | auth.go:83-116 | every step keeps the file, or the reply about to be written, at the newest refresh token unless the grant that issued it was lost |
| `AuthRefresh.RunKeepsInv` | auth.go:62-118 | so does every interleaving |
| `AuthRefresh.RequestsExactly` | auth.go:91-116 | under exclusion, losses or not, each request carries a replaced token if and only if the last rotating grant before it was lost |
| `AuthRefresh.RequestsCarryNewest` | auth.go:62-118 | in every interleaving of callers and processes, with something that excludes and nothing granted lost, each refresh request sent carries the newest token the server issued, and that stays the newest while the request is out |
| `AuthRefresh.OnceKept` | auth.go:91-116 | every step of a burst keeps at most one accepted refresh |
| `AuthRefresh.BurstRefreshesOnce` | auth.go:62-118 | a burst over one expired token refreshes at most once, exactly once if any caller succeeds, and sends at most one request besides those that come to nothing; every token handed out outlives the burst by the skew |
| `AuthRefresh.StaleWithoutLock` | lock_other.go:5-11 | any two callers in different processes without a lock: an interleaving in which a replaced token is sent |
| `AuthRefresh.NewestExactly` | lock_posix.go:7-20 | in every interleaving from rest every request carries the newest token if and only if the lock works or there is one process, and no granted refresh is lost |
| `AuthRefresh.StaleAfterLoss` | auth.go:97-116 | any caller whose granted refresh is lost, by its reply or its write: the next request carries a replaced token |
| `WebP.WebPConfig` | images.go:322-384 | the loop, every index in bounds, computes the recursive walk |
| `WebP.FrontAt` | images.go:335-346 | the code's offsets into the data cut out exactly the chunk at the front of what is left |
| `WebP.TornAt` | images.go:340-345 | a chunk that overruns the data or is padded with a nonzero byte is no chunk |
| `WebP.FrontOfChunk` | images.go:335-346 | a written chunk, padding included, is read back in front of any continuation |
| `WebP.FrontIsChunk` | images.go:335-346 | and whatever is read as a chunk is, byte for byte, that chunk written |
| `WebP.WalkTiles` | images.go:331-345 | an accepted walk saw good chunks that exactly tile the bytes |
| `WebP.ConfigOfFile` | images.go:322-384 | a written file of good chunks is read as the size its chunks give |
| `WebP.AcceptedIsFile` | images.go:322-384 | accepted bytes are a header and at most 256 padded chunks, byte for byte |
| `WebP.SizesBounded` | images.go:347-377 | every size a good chunk states lies between 1 and 2^24 |
| `WebP.SizeIsCanvasOrFrame` | images.go:347-377 | the size is the last VP8X chunk's, or else the first frame's |
| `WebP.AcceptedExactly` | images.go:322-384 | accepted with a size if and only if the bytes are such a file whose chunks give that size |
| `WebP.CanvasRoundTrip` | images.go:348-353 | the VP8X fields read back every canvas up to 2^24 each way, under any feature flags |
| `WebP.LosslessRoundTrip` | images.go:354-364 | the packed VP8L bits read back every size up to 2^14 each way, with or without alpha |
| `WebP.LossyRoundTrip` | images.go:365-376 | the VP8 fields read back every size below 2^14 each way, under any key frame tag and scales |
| `WebP.CanvasExactly` | images.go:348-353 | accepted VP8X headers are exactly those written with some flags in bits 1 to 5 and some canvas |
| `WebP.LosslessExactly` | images.go:354-364 | accepted VP8L frames are exactly those written with some sizes, alpha bit and image data |
| `WebP.LossyExactly` | images.go:365-376 | accepted VP8 frames are exactly those written with some key frame tag, sizes, scales and image data |
| `WebP.EverySizeAccepted` | images.go:322-384 | the bounds are tight: every size from 1 to 2^24 each way is that of some accepted file |
| `Pricing.EstimatePricedUsage` | pricing.go:172-208 | the step-by-step clamping computes the cost of the split |
| `Pricing.SplitConserves` | pricing.go:189-194 | plain, cached and cache-write parts are nonnegative, sum to the input, and none shrinks as the input grows |
| `Pricing.SplitIsBill` | pricing.go:189-203 | the clamped split costs exactly what a bill that walks the input tokens one by one does: cached first, then cache writes, then plain |
| `Pricing.CostGrows` | pricing.go:195-207 | cost is nonnegative and nondecreasing in input and output tokens, across the threshold |
| `Pricing.EstimateExactly` | pricing.go:172-208 | an estimate exists iff input or output tokens are known, and times a million it is the bill: input token by token, output token by token, each half with its long-context factor above the threshold, as often as the tier is paid |
| `Pricing.EstimatesExactly` | pricing.go:164-170 | both estimates exist iff the model resolves and tokens are known, and are the bills at the row's price and at its API price |
| `Pricing.ApiCostsMore` | pricing.go:226-240 | under the condition below the API estimate is at least the Codex one, for every usage and tier |
| `Pricing.ApiNotBelowExactly` | pricing.go:226-240 | for a row of any loaded table the API estimate is never below the Codex one if and only if the row's cache-write price is at most 1.25 times its input price or is not replaced |
| `Pricing.DefaultApiNotBelow` | pricing.go:46-62 | with the default table, for every model, tier and usage: both estimates or neither, and the API one not below |
| `Pricing.SnapshotIsUndated` | pricing.go:142-153 | a dated model is a snapshot of at most one nonempty name |
| `Pricing.ResolveModelPricing` | pricing.go:123-140 | the search for the longest match, in whatever order the table is iterated, is the direct lookup of the name or the undated name |
| `Pricing.ResolveExactly` | pricing.go:123-153 | a name resolves to a row iff it is the row's name, or no row's and the row's name with a date behind it |
| `Pricing.DateExactly` | pricing.go:142-153 | what counts as a date is exactly a day of the calendar written as year, month and day |
| `Pricing.NormalizeExactly` | pricing.go:124-124 | names are looked up in lower case and without surrounding blanks |
| `Pricing.TierExactly` | pricing.go:214-222 | Fast under either name costs twice, Ultrafast six times, any other tier once |
| `Pricing.ApiPriceExactly` | pricing.go:226-240 | for each default row, what its API price changes and what it does not |
| `Usage.CostSummary` | costs.go:65-152 | one pass over the history yields each window as if it alone had been summed |
| `Usage.UserUsageSummary` | usage_by_user.go:80-139 | one pass yields the rows per user and model |
| `Usage.SumBump` | usage_by_user.go:98-119 | adding to one row adds exactly that to the sum of the rows |
| `Usage.WindowConserves` | costs.go:78-131 | a window's totals are the plain sum of its entries; its per-model costs and requests sum to its cost and Priced count |
| `Usage.RowsConserve` | usage_by_user.go:88-120 | the rows sum to the plain sum of the entries, and to the request count |
| `Usage.RowsMatchWindow` | usage_by_user.go:80-139 | rows and cost window of any age have the same request, token and cost totals under Codex pricing |
| `Usage.RowIsShare` | usage_by_user.go:97-120 | each row is exactly its user's use of its model |
| `Usage.WindowExactly` | costs.go:78-131 | each figure of a window is the sum of that figure over the entries not older than its age, under the chosen pricing; its Priced count and each model's share likewise over the priced ones |
| `Usage.RowsExactly` | usage_by_user.go:88-120 | each figure of a row is the sum of that figure over its user's entries for its model |
| `Usage.WindowsNest` | costs.go:39-47 | with nonnegative entries every total is nested: 24h, 7d, 30d, all |

## Left out

- `ChatBatch.ChatCompletionFromResponse`: leaves out the id, created, model, usage and service_tier of the completion, which the agreement does not compare.
- `ChatTheorem.StreamAgreesWithBatch`: the terminal event, and the done events when it lists no output, have types without surrounding blanks.
- `ChatTranslator.ChatStreamTranslator.WriteObject`: a failed write sends nothing; a partly sent chunk is not modelled, and JSON encoding of chunks never fails.
- `ChatTranslator.ChatStreamTranslator.Fail`: the message is what redaction leaves of it.
- `LogAppend.AppendIsAtomic`: entries that survive a compaction are given as rewritten, since the code sanitises them again and a rewritten line over 1 MiB is no longer read; `LogAppend.AppendKeepsSuffix` is the case where this changes nothing.
- `LogFile.ScanRequestLogReader`: takes the fragments of bufio's ReadLine as given, any fragments that join to the lines; read errors are left out.
- `LogFile.RequestLogFile.LoadEntries`: open, stat and read errors are left out.
- `LogFile.RequestLogFile.Compact`: creating, syncing, renaming and reopening are one fault outcome, before or after the replacement; the state of a lost handle is not kept.
- `LogRun.EveryLife`: the cap is fixed, so compaction at startup of a file over a lowered cap is not part of a life.
- `LogFile.RequestLogStore.Snapshot`: only the list of entries; the paths, counts and texts around it are left out.
- `Cooldown.CooldownBounded`: window labels and sources for logging are left out, and the words that choose a default are one of three cases.
- `Dispatch.DispatchContract`: failures carry their status only; messages, bodies, window labels and Retry-After are left out, and the service-tier check before sending only counts as a possible failure to build the request.
- `TierCatalog.AccountTierCatalog.Look`: waiting and waking are steps of the state machine, not of the method.
- `Drain.EveryInterleaving`: serveHTTP is a sequence of steps; that it eventually returns is not stated, and a panicking handler leaves like any other.
- `AuthRefresh.RequestsCarryNewest`: reading and writing the auth document is one value, and JWT parsing is left out.
- `AuthRefresh.BurstRefreshesOnce`: new tokens outlive the burst by the refresh skew.
- `Pricing.NormalizeExactly`: letters outside ASCII keep their case, but for the two whose lower case is inside it.
- `Pricing.EstimatePricedUsage`: reals for floats, so rounding is left out; prices of overrides are any nonnegative reals.
- `Usage.UserUsageSummary`: as for the cost summary.
- `Usage.CostSummary`: sorting of models and rows, the source of the history and its errors are left out; counters do not overflow.
- The streaming proxy of Responses (sseUsageTracker, copyStreamingResponse): passes bytes through and would add easy members.
- The request side of Chat Completions (translateChatCompletionsBody and its helpers): field-by-field rewriting.
- Handlers, headers, WebSockets, realtime calls, images other than the WebP walk, the dashboard, doctor, keys, limiter and configuration: input and output, or small invariants.
- capabilities.go postSubscription and websocket.go dialResponsesWebSocket: near copies of the dispatch loop.
- accounts.go preferred, soonestReset, availability and labels: reports on the pool; a pick by preferred is one more pick event.
