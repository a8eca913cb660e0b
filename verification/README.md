# Verification of the tool-calling proxy

A Dafny model of the proxy's tool-calling core, with proofs. The proxy prompts a
model to write tool calls as marked text, reads the decrypted text back as it streams
in, and turns it into OpenAI-style tool calls for the client. The project covers

- the incremental Hermes, Qwen and GLM tool-call parsers, their lexical helpers, and the
  lenient parser that recovers a missing closing marker;
- classification of assistant output, with the JSON Schema subset that checks arguments;
- the SSE framer, the plain and the tool-emulating stream transformers, the buffered
  completion, and both drivers that ask again after an invalid call;
- the session store.

Run `dafny verify dfyconfig.toml` with Dafny 4.11.

## How the model is built

A `string` is a sequence of UTF-8 code units, one `char` per unit, so lengths and indices
are byte lengths and byte indices. Every struct whose methods update its fields is a class
with those fields. Each of its methods is proved to move the object's `Snapshot()` as a
transition function on values does, and loops over buffers are loops with invariants. The
main results are lemmas about those transition functions and runs of them.

The main results:

- `Agreement.StreamAgreesWithBuffer`: for one attempt, the streamed answer is the buffered
  answer, and exactly when.
- `RetryRuns.RetriesAreInvisible` and `RetryRuns.CompletedRunsFinishOnce`: what a client can
  and cannot see of a run with retries; `Corrections.CorrectionDelivers`: what a retry delivers.
- `StreamProtocol.CompletedAttemptsFinishOnce` and `MarkerSplit.StreamedTextStopsAtMarker`:
  the client-facing protocol, and where streamed text stops.
- `Grammar.ParseChunksReadsWhole`, `JsonLanguage.LanguageIsExact` and
  `GlmLanguage.LanguageIsExact`: chunking never matters to the JSON-based parsers, and exactly
  which texts each parser accepts, and as what.
- `ClassifiedCalls.HermesCallsClassify` with its siblings, and
  `ClassifiedCalls.ClassificationIsExact`: written calls are classified as themselves, in order.
- `ChatReading.ChatRoundTrip` and `SseLines.ChunkedRoundTrip`: what upstream's text says is what
  the client is told.
- `LenientTheorems.LenientKeepsStrict`, `LenientTheorems.LenientRecoversClosingMarker`,
  `RejectedTexts.RejectedTextKeepsWholeCalls` and `WholeCalls.LenientCallsAreWhole`: what the
  lenient parser gives for texts the strict one accepts, leaves open and rejects, and that it is
  whole calls.
- `SchemaMeaning.CheckIsExact`, `PlainStream.StreamingRefinesBuffering`,
  `Sse.FramingIgnoresChunking`, `GlmRoundTrip.CallsRoundTrip`,
  `SessionRuns.SessionsAreServedWithinLimits`, `SessionIdentity.ReuseIsExact`,
  `SessionIdentity.AnswersAreExact` and `SessionRuns.CleanupIsTransparent`.

Where the code and the repository's documentation disagree, the model follows the code:
README.md:189 says that streaming tool calls cannot be retried, while src/http.rs:810-931
retries them.

Some promises hold only under a condition. Each such condition is proved exact, and an input on
the failing side is proved beside it:

- The stream and the buffer disagree on text over the size limit, on required calls that never
  come, and on text after the finish, which the stream drops (`Agreement.StreamAgreesWithBuffer`;
  `OverlongTextDisagrees`, `MissingCallDisagrees`, `LateTextDisagrees`).
- The streamed finish reason, reasoning and usage are the buffered ones unless upstream goes on
  after its finish or usage was not asked for (`FieldAgreement.FieldsAgreeExactly`;
  `LateFieldsDisagree`).
- A repeated attempt depends on the chunks where text in front of its marker outgrows the size
  limit (`Corrections.ChunkingMattersExactly`; `LettersLoseTheCall`).
- The role is sent once over a run with retries unless two attempts send deltas
  (`RetryRoles.RoleIsExact`; `RetriesRepeatTheRole`).
- Buffering fails where streaming succeeds on a changing choice index
  (`PlainStream.BufferingSucceedsExactly`; `ChangedIndexFailsBuffering`).
- Network chunks matter to the events read when one frames before one that is refused, since a
  chunk that fails to frame loses its earlier events (`ChatPump.ChunkingMattersExactly`;
  `ChunkingCanLoseDone`), and to an answer when the events that can be lost would change it
  (`ChunkReadings.AnswersIgnoreChunkingExactly`).
- Chunks matter to the GLM parser when it drops a marker together with text after a call
  (`GlmChunks.ChunkingMattersExactly`; `LetterLosesCall`).
- The schema check refuses some valid values (`SchemaMeaning.CheckIsExact`;
  `NullableObjectIsRefused`, `IntegralFloatIsRefused`).
- Model ids with a colon can get another model's session (`SessionRuns.OwnSessionsExactly`;
  `ColonsCanMixSessions`).

## Model

| member | source | states |
|---|---|---|
| Agreement.StreamAgreesWithBuffer | src/http.rs:1769-1890 | For every first attempt that buffering turns into a completion, the stream gives the client exactly the answer (text, calls in order, or invalid call) that classifying the buffered text would, if and only if: the text fits the size limit and has a marker or no call is required, when all of it came by the closing event; and the buffered text and the text heard by then read the same calls, when some came later |
| Agreement.OverlongTextDisagrees | src/tools.rs:337-407 | For every size limit, a text over it that the stream delivers and the buffered classification refuses |
| Agreement.MissingCallDisagrees | src/tools.rs:337-407 | Where a call is required, an empty answer that is streamed and refused when buffered |
| Agreement.LateTextDisagrees | src/http.rs:1730-1766 | Text after the finish that the stream drops and the buffer keeps |
| FieldAgreement.FieldsAgreeExactly | src/http.rs:1298-1394 | Where a stream completes with the answer the buffer classifies, it has the completion's finish reason if and only if calls were sent or upstream's first and last reasons are one, its reasoning if and only if none came after the closing event, and its usage if and only if the client asked for it or upstream sent none |
| FieldAgreement.LateFieldsDisagree | src/http.rs:1374-1391 | A second reason and reasoning after the finish: the classified text is streamed with the first reason and no reasoning, and the buffer has the second reason and the reasoning |
| Agreement.StreamDelivers | src/http.rs:1812-1890 | For every chunking and whatever follows the finish, the client gets the verdict on the text heard by the closing event, with its marked part classified and unmarked text delivered exactly, if the part from the first marker on fits the size limit; otherwise the stream ends as malformed |
| Agreement.FlushAnswers | src/http.rs:1812-1833 | The flush at the finish completes the text already streamed to what that verdict asks for |
| Agreement.ReadableStaysOpen | src/http.rs:1730-1809 | Decryptable text leaves a stream open before its finish if and only if the part from the first marker on fits the limit, and ends it as malformed otherwise |
| Agreement.OverlongCallsAreMalformed | src/http.rs:1893-1901 | Over readable events before the finish, a first attempt stays open exactly while the text from its first marker on is within the limit, and ends as malformed beyond it |
| Agreement.NeverTooLong | src/http.rs:1893-1914 | On no event list does the stream report overlong output as an unusable call, and only a suppressed attempt reports a too long text in front of a call |
| Agreement.BufferReads | src/http.rs:564-628 | A buffered completion holds exactly the decrypted text of the events before the first Done, all of which were readable |
| LeadingText.ClassificationIgnoresLead | src/tools.rs:337-407 | Within the size limit a text and its part from the first marker on get the same verdict, in all three formats and with the Hermes fallback |
| LeadingText.FormatIgnoresLead | src/tools.rs:409-427 | In every format, text in front of the first marker changes neither the calls found nor the error |
| LeadingText.LenientIgnoresLead | src/tools.rs:527-575 | The lenient parser, which cuts its input at every tag, finds the same calls with and without the text before the first marker |
| LeadingText.StrictIgnoresLead | src/vllm_tool_parser/json/mod.rs:82-110 | So does the strict parser |
| LeadingText.GlmIgnoresLead | src/vllm_tool_parser/glm_xml/mod.rs:109-134 | So does the GLM parser |
| LeadingText.UnmarkedIsNormalText | src/tools.rs:337-407 | Text without a marker is normal text in every format, or invalid exactly where a call is required |
| MarkerSplit.StreamedTextStopsAtMarker | src/http.rs:1769-1809 | For any chunking of the decrypted text: with a marker, exactly the text before it has been streamed and the tool buffer is exactly the rest; without one, the streamed and the pending text make up the whole, cut at a character boundary with at most 13 bytes pending and at least 10 once anything was streamed |
| MarkerSplit.PushSplits | src/http.rs:1769-1809 | Every push keeps that split, wherever the chunk ends |
| MarkerSplit.HoldBackIsShort | src/http.rs:2031-2042 | More than ten pending bytes are cut at a character boundary that keeps ten to thirteen of them |
| ToolStream.FindStreamableLen | src/http.rs:2031-2042 | The backward loop finds the last character boundary that leaves ten bytes, or 0 |
| StreamProtocol.CompletedAttemptsFinishOnce | src/http.rs:1730-2027 | An attempt that ends in Done sends exactly one finish chunk, only usage between it and the closing end mark, the role in exactly the first delta, calls numbered from 0 in order, and the finish reason "tool_calls" exactly with calls sent and otherwise upstream's first reason or "stop" |
| StreamProtocol.RunConforms | src/http.rs:1730-2027 | Every output of every run, complete or not, is one the protocol automaton allows at that point |
| StreamProtocol.FinishReasonIsUpstreams | src/http.rs:1812-1846 | The finish reason sent over a whole run |
| StreamProtocol.FinishedRun | src/http.rs:1730-1766 | After the finish chunk no text, reasoning, call or second finish is ever sent, and no error asks for a retry |
| StreamProtocol.FinishComesLast | src/http.rs:1749-1766 | A choice that carries text and a finish reason acts like the same choice without the reason, followed by the finish |
| ToolStream.OpenAiToolEmulatedChatStreamTransformer.PushDecryptedContent | src/http.rs:1769-1809 | Updates pending text, tool buffer and role flag in place as the value-level transition does |
| ToolStream.OpenAiToolEmulatedChatStreamTransformer.FullToolCallChunks | src/http.rs:1970-1993 | One chunk per call, numbered, with the role on the first delta only |
| ToolStream.OpenAiToolEmulatedChatStreamTransformer.FinishBufferedContent | src/http.rs:1812-1890 | Flush, classify and finish in place; the error cases in the order of the source |
| ToolStream.OpenAiToolEmulatedChatStreamTransformer.HandleChoiceChunk | src/http.rs:1730-1766 | One choice: field errors first, then reasoning, content and finish |
| ToolStream.OpenAiToolEmulatedChatStreamTransformer.Handle | src/http.rs:2044-2055 | One event of any kind |
| SideChannels.ReasoningIsForwarded | src/http.rs:1742-1747 | An attempt that does not suppress text and has not failed has sent on exactly the reasoning text that came by the finishing event, in order |
| SideChannels.UsageIsForwarded | src/http.rs:1996-2010 | A run that has not failed has sent on all usage from before Done, in order, if the client asked for it, and none otherwise |
| SideChannels.ChunksCarryTheirIndex | src/http.rs:1730-1766 | A choice is answered only by chunks of its own index, and a finish made up at Done has index 0 |
| RetryRuns.RetriesAreInvisible | src/http.rs:810-931 | Over every whole run: at most max_retries + 1 requests; each attempt is upstream's answer run from scratch and each correction carries the failure before it; a retried attempt has sent no call, finish chunk or Done; a retry sends no reasoning and no text from before a marker, and usage only if it is retried itself |
| RetryRuns.CompletedRunsFinishOnce | src/http.rs:810-881 | Over all attempts together, a run that ends in Done shows the client one finish chunk, only usage after it up to the end mark, and calls numbered from 0 |
| RetryRuns.StreamedCallsAreSanctioned | src/http.rs:810-881 | Whatever upstream answers, every call the client is sent is of a declared tool with object arguments its schema check accepts |
| RetryRuns.UsageIsForwarded | src/http.rs:810-881 | Over a run with retries, the usage of every answer that did not fail is sent if and only if the client asked for usage |
| RetryRuns.FailedCallIsRetractable | src/http.rs:891-931 | A run that ends in an invalid call was unfinished and has sent nothing a further attempt would contradict |
| RetryRuns.SuppressedRunIsMarked | src/http.rs:1790-1800 | All text a suppressed attempt ever sends starts with a marker, and it sends no reasoning |
| Corrections.CorrectionDelivers | src/http.rs:1769-1846 | A repeated attempt, over any events readable to Done, fails with the refusal of the shortest part of its text that is refused (too long without a marker, or malformed from the marker on); if none is, it fails for want of a call without a marker, and otherwise delivers the verdict on the part from the first marker on, with the text in front dropped |
| Corrections.ShortCorrectionDelivers | src/http.rs:1769-1846 | Within the size limit no part is refused, whatever the chunking |
| Corrections.ChunkingMattersExactly | src/http.rs:1904-1914 | All chunkings of a text are answered alike by a repeated attempt if and only if its longest part without a marker is within the limit, or it has no marker and is one unit over the limit |
| Corrections.LettersLoseTheCall | src/http.rs:1904-1914 | At every limit, letters and a marker that are answered differently by how they are cut |
| RetryRoles.RoleIsExact | src/http.rs:810-881 | Over all attempts of a run together, the role is on the first delta and no other if and only if at most one attempt sends a delta |
| RetryRoles.RetriesRepeatTheRole | src/http.rs:828-830 | Text before an unusable call and then a usable one: a completed run that sends the role twice |
| RetryRuns.ReportIsFaithful | src/http.rs:810-931 | Each attempt of a run answers its own request, and retries are exhausted only after max_retries + 1 invalid attempts |
| RetryRuns.BufferedReplyIsFirstUsable | src/http.rs:350-459 | A buffered reply is the classification of the first attempt that was neither late nor invalid, with its number of retries; every earlier failure became the next correction, and calls replied are sanctioned |
| RetryRuns.BufferedRetriesAre | src/http.rs:350-459 | The buffered loop ends with what its last attempt came to, and is exhausted only after max_retries + 1 attempts |
| Retry.StreamWithRetries | src/http.rs:810-881 | The nested loops terminate (attempts left, events left) and report every attempt |
| Retry.RunAttempt | src/http.rs:838-880 | One attempt through a fresh transformer, up to the end mark or the first error |
| Retry.BufferWithRetries | src/http.rs:350-459 | The buffered loop, with timeouts and invalid calls as grounds to ask again |
| Retry.EndMarkIsLast | src/http.rs:2013-2027 | The end mark is sent for Done alone and is always the last output |
| Retry.Yield | src/http.rs:862-877 | Outputs are sent one by one up to and including an end mark |
| Classify.ClassifiedCallsAreSanctioned | src/tools.rs:430-478 | Output classified as tool calls has at least one, and each names a declared tool and has object arguments that tool's schema check accepts |
| ClassifiedCalls.HermesCallsClassify | src/tools.rs:409-478 | Hermes calls written with any white space and text between them, all accepted: the output is classified as exactly those calls, in order, each with its written name and the printed form of what its own written arguments parse to |
| ClassifiedCalls.QwenCallsClassify | src/tools.rs:409-478 | The same for Qwen calls |
| ClassifiedCalls.GlmCallsClassify | src/tools.rs:409-478 | The same for GLM calls, with their converted parameters |
| ClassifiedCalls.QwenFallsBack | src/tools.rs:367-407 | The same for Hermes calls under the Qwen format, where no line feed follows the first marker |
| ClassifiedCalls.GlmFallsBack | src/tools.rs:367-407 | The same for Hermes calls under the GLM format, where no tool has a name that starts with a brace |
| ClassifiedCalls.RefusedCallDecides | src/tools.rs:430-478 | Of written Hermes calls the first that is refused decides, and the output is invalid for its reason |
| ClassifiedCalls.ValidationIsExact | src/tools.rs:430-478 | A call is accepted exactly as its name, the printed form of its parsed arguments, the first tool of that name and its schema say, and refused for the first of: an empty name, an unknown tool, arguments that do not parse or are no object, the schema |
| ClassifiedCalls.ClassificationIsExact | src/tools.rs:337-427 | Every verdict within the limit, from what the format's parse and the Hermes parse come to |
| Classify.FindTool | src/tools.rs:430-447 | The first declared tool of that name, or none of that name exists |
| RequestTools.FromRequest | src/tools.rs:83-166 | Exactly when a request has no tools to emulate, is refused (for a choice without tools, the first tool that repeats a name or has a misshapen schema, or a chosen tool that is not declared), or gives a context, and with which tools |
| RequestTools.ContextsAreSound | src/tools.rs:110-130 | In a context built from a request no name stands for two tools, and every schema that is checked is well shaped throughout |
| RequestTools.SchemasAreNeverMalformed | src/tools.rs:455-463 | So a call refused for its schema is refused for its arguments, never for the schema |
| PlainStream.StreamingRefinesBuffering | src/http.rs:1527-1619 | Wherever buffering gives a completion, streaming ends in Done, and its content and reasoning deltas, last finish reason, choice index and usage are those of the completion |
| PlainStream.BufferingSucceedsExactly | src/http.rs:1298-1394 | Buffering succeeds if and only if streaming does, the choice index is valid and never changes before Done, and an encrypted field was seen where one is required |
| PlainStream.ChangedIndexFailsBuffering | src/http.rs:1336-1350 | A changed choice index, streamed to the end and refused by the buffer |
| PlainStream.RoleIsSentOnce | src/http.rs:1578-1583 | A plain stream, whole or cut off, sends the role with its first delta and with no other |
| PlainStream.EventRefines | src/http.rs:1665-1682 | One event at a time: what is sent is what the buffer gains |
| StreamFaults.PlainStreamsEndAtFaults | src/http.rs:1551-1673 | A plain stream ends with the error of its first faulty event, and without one if and only if there is none before Done |
| StreamFaults.ToolStreamsEndAtFaults | src/http.rs:1730-1766 | A tool stream that is open when a faulty event comes ends there, with that fault and what was sent before |
| StreamFaults.BufferFaultsAreExact | src/http.rs:1298-1350 | The buffer refuses exactly the faulty events, those of another index, and Done where nothing was encrypted, each with its error |
| PlainStream.BufferCompletion | src/http.rs:564-628 | The buffering loop over the in-place buffer |
| PlainStream.OpenAiChatCompletionBuffer.HandleChoiceChunk | src/http.rs:1336-1394 | The buffer's in-place update, with its error order |
| PlainStream.OpenAiChatCompletionBuffer.HandleEvent | src/http.rs:1298-1319 | One event, and whether it was Done |
| PlainStream.OpenAiChatStreamTransformer.HandleChoiceChunk | src/http.rs:1527-1619 | The streaming update; the index is read only where a chunk is built |
| PlainStream.OpenAiChatStreamTransformer.HandleEvent | src/http.rs:1663-1682 | One event; Done adds a "stop" chunk if no finish was sent |
| ChatPump.StreamChat | src/http.rs:761-806 | From text chunks to outputs: the nested loops over chunks and events send what the whole event list calls for, up to Done or the first error |
| ChatPump.ResponsesIgnoreChunking | src/http.rs:942-981 | Where upstream's text frames, the emulated, the streamed and the buffered response depend on the text alone, not on how it was cut into chunks |
| ChatPump.ChunkingMattersExactly | src/http.rs:942-981 | All chunkings of a text are read as the same events if and only if the text frames, or no event is framed before the raw event it refuses |
| ChatPump.ChunkingCanLoseDone | src/http.rs:942-981 | A Done and then an unknown field: in one chunk the client's stream fails, in two it completes |
| ChunkReadings.AnswersIgnoreChunkingExactly | src/http.rs:942-981 | For every consumer of the events: all chunkings of a text get one answer if and only if the text frames, or no first part of the events in front of the refused one, followed by the refusal, is answered otherwise than the refusal alone |
| ChunkReadings.ChunksReadSome | src/http.rs:942-981 | However a text that does not frame is cut, some first part of the events in front of the refused one is read, and then the refusal |
| ChunkReadings.SomeChunksRead | src/http.rs:942-981 | Every such first part is read for some chunks |
| ChatPump.EventsAreFramed | src/http.rs:1148-1202 | Reading events chunk by chunk gives the readings of the events framed from the whole |
| ChatReading.ChatRoundTrip | src/http.rs:2074-2117 | Upstream text in any lines and any chunks whose chunks make some remarks: a plain stream tells the client exactly their content, reasoning and, if asked, usage, and ends with the last reason or "stop" |
| ChatReading.RemarkIsRead | src/http.rs:1148-1206 | An event is read as a choice with some index, reason, content and reasoning, or as some usage, if and only if its JSON says just that |
| ChatReading.OtherEventsAreExact | src/http.rs:1148-1206 | Exactly which events are upstream errors, the end mark, and malformed |
| ChatReading.RefusedFieldsAreExact | src/http.rs:2063-2117 | Exactly which index, reason and delta fields are refused, and which text does not decrypt |
| Grammar.ChunkingIsIrrelevant | src/vllm_tool_parser/json/mod.rs:82-181 | Two chunkings of one text, pushed and finished, both fail with the same error or give the same text and the same merged calls |
| Grammar.ParseChunksReadsWhole | src/vllm_tool_parser/json/mod.rs:82-181 | Any chunking gives exactly what a grammar function of the whole text gives |
| Grammar.ParseComplete | src/vllm_tool_parser/mod.rs:126-130 | Push, finish and merge equal the whole-text grammar |
| ChunkInvariance.DrainSplit | src/vllm_tool_parser/json/mod.rs:169-181 | Draining a buffer, then more input, agrees with draining both at once, from every valid state |
| ChunkInvariance.EventStable | src/vllm_tool_parser/json/mod.rs:169-362 | Every event and error other than a release of text or of unfinished arguments is the same, with the same length, in every extension of the buffer |
| JsonRoundTrip.PrintedCallsParse | src/vllm_tool_parser/json/mod.rs:184-345 | Calls printed with any white space the format allows and any marker-free text between them, cut into any chunks, parse back to that text and to the same names and argument texts, numbered in order |
| JsonRoundTrip.PrintedCallsParseLeniently | src/tools.rs:527-575 | The lenient parser reads printed Hermes calls the same way |
| JsonLanguage.LanguageIsExact | src/vllm_tool_parser/json/mod.rs:160-360 | Over any chunks, a text is accepted if and only if it is written as text and blocks of calls, with headers, argument objects, markers, delimiters and white space as the format asks; and the text and calls it is written of are what is read |
| JsonLanguage.HeadersAreExact | src/vllm_tool_parser/json/mod.rs:207-282 | A header is accepted, with a name and a length, if and only if it is written with that name and an allowed arguments key, and something visible follows |
| JsonLanguage.ErrorsAreExact | src/vllm_tool_parser/json/mod.rs:82-110 | A refused text is bad syntax exactly where a push fails, and unfinished otherwise; no call is ever missing |
| JsonLanguage.ItemsRoundTrip | src/vllm_tool_parser/json/mod.rs:210-282 | Tokens that fit a sequence of items are read as those tokens |
| JsonLanguage.ItemsAreTokens | src/vllm_tool_parser/json/mod.rs:210-282 | Whatever a sequence of items has read is tokens that fit it |
| JsonParser.DrainKeepsValid | src/vllm_tool_parser/json/mod.rs:112-158 | Mode, active index and argument scan stay consistent over every drain |
| JsonParser.JsonToolCallParser.ParseInto | src/vllm_tool_parser/json/mod.rs:82-94 | The drain loop terminates, since each event takes at least one byte, and ends in the state and output of the value-level drain |
| JsonParser.JsonToolCallParser.ParseNextEvent | src/vllm_tool_parser/json/mod.rs:169-181 | The next event and the bytes it takes, or a wait, or an error |
| JsonParser.JsonToolCallParser.ApplyEvent | src/vllm_tool_parser/json/mod.rs:112-158 | The event's effect on mode, counters and output |
| JsonParser.JsonToolCallParser.FinishParse | src/vllm_tool_parser/json/mod.rs:96-110 | The rest of the text, or an error inside a call |
| Combinators.ScanJsonString | src/vllm_tool_parser/utils.rs:186-228 | The escape-aware loop finds the closing quote the recursive reading finds |
| Combinators.ItemsStable | src/vllm_tool_parser/json/mod.rs:210-282 | A decision of a token sequence survives every extension of the input |
| Output.CoalesceCalls | src/vllm_tool_parser/mod.rs:64-89 | The map-and-order merge equals merging delta by delta |
| Output.CoalesceMeaning | src/vllm_tool_parser/mod.rs:64-89 | Merging gives one entry per index, with the first name sent and the whole argument text in order |
| Output.CoalesceIndices | src/vllm_tool_parser/mod.rs:64-89 | Exactly the indices that were sent have an entry |
| Lexing.FindPartialPrefixLen | src/vllm_tool_parser/utils.rs:17-46 | The index loop finds the greatest k below the token length, at character boundaries, such that the token's first k bytes end the buffer |
| Lexing.SafeTextIsSafe | src/vllm_tool_parser/utils.rs:48-67 | No marker starts inside released text, however the text goes on |
| Lexing.SafeTextIsMost | src/vllm_tool_parser/utils.rs:48-67 | Without a marker in the buffer, the text can go on, from a character boundary, so that a marker starts right where released text ends |
| Lexing.HeldBackAgain | src/vllm_tool_parser/utils.rs:17-67 | Holding back over several arrivals equals holding back once |
| Lexing.TakeJsonObject | src/vllm_tool_parser/utils.rs:99-183 | The unit-by-unit loop over the scan state takes, rejects or waits as the scan of the whole text does |
| Lexing.ScanTextSplit | src/vllm_tool_parser/utils.rs:99-183 | Input split at any point scans like the whole input |
| JsonText.ObjectIsTakenFromPieces | src/vllm_tool_parser/utils.rs:99-183 | For every JSON object tree, scanning its printed form and any rest, cut into any pieces, takes exactly the printed form (sections 4 and 7 of RFC 8259) |
| JsonText.ScanMeaning | src/vllm_tool_parser/utils.rs:99-183 | The scan closes, breaks or stays open exactly where the brace and bracket balance outside strings says |
| LenientTheorems.LenientKeepsStrict | src/tools.rs:527-575 | Where the strict parser succeeds, the lenient one gives the same result |
| LenientTheorems.LenientRecoversClosingMarker | src/tools.rs:556-575 | Where the strict parser accepts every push and fails at the end, the lenient one gives the result for the text with the closing marker appended if there is one, and the original error otherwise |
| RejectedTexts.RejectedTextKeepsWholeCalls | src/tools.rs:527-554 | Where the strict parser rejects a push, there is a first tag piece it rejects; the lenient one gives what was collected before that piece if the last call there is whole, and the strict parser's error otherwise |
| LenientTheorems.StrictParseReadsWhole | src/vllm_tool_parser/mod.rs:126-130 | Strict parsing of a whole text equals the grammar |
| WholeCalls.LenientCallsAreWhole | src/tools.rs:527-575 | Every call of a successful lenient result, drained or not, has a name, one complete balanced argument object, and indices 0..n-1 in order |
| WholeCalls.LenientScannerIsExact | src/tools.rs:613-659 | Until the parser drains, its completeness flag holds exactly when the last call has one whole argument object, and inside arguments exactly when the inner scan is complete |
| WholeCalls.FragmentInStep | src/tools.rs:625-654 | The two argument scanners stay in step over every fragment |
| Lenient.SplitBeforeTagStarts | src/tools.rs:587-600 | The pieces concatenate to the text and carry `<` only in front |
| Lenient.ArgsCompletenessScanner.FeedFragment | src/tools.rs:625-654 | The byte loop over depth, string and escape flags |
| Lenient.ArgsCompletenessScanner.TrackOutput | src/tools.rs:615-622 | A named delta restarts the scanner, others feed it |
| Lenient.LenientToolParser.Push | src/tools.rs:527-554 | Piece by piece through the inner parser, draining once arguments are complete and a piece fails |
| Lenient.LenientToolParser.FinishParse | src/tools.rs:556-575 | Finish, or append the closing marker and finish, or the original error |
| Lenient.ParseLeniently | src/vllm_tool_parser/mod.rs:126-130 | Push, finish and merge through the object |
| GlmRoundTrip.CallsRoundTrip | src/vllm_tool_parser/glm_xml/mod.rs:109-251 | Marker-free text and any printed calls, with white space after each, parse in one push to that text and the same names and ordered raw parameters, numbered from 0 |
| GlmRoundTrip.BodyParses | src/vllm_tool_parser/glm_xml/mod.rs:189-251 | A printed call body parses to its name and raw parameter pairs |
| GlmRoundTrip.TagIsFound | src/vllm_tool_parser/glm_xml/mod.rs:178-251 | Since a tag has no proper border, reading until it stops at the tag written after text that lacks it |
| GlmLanguage.LanguageIsExact | src/vllm_tool_parser/glm_xml/mod.rs:109-251 | A text given at once is accepted if and only if it is text and calls one behind the other, with what is dropped behind the last; and those calls are what is read |
| GlmLanguage.BodiesAreExact | src/vllm_tool_parser/glm_xml/mod.rs:189-251 | A call body is accepted, with a name and pairs, if and only if it is written as that name and parameters that trim to those pairs |
| GlmChunks.ChunkingMattersExactly | src/vllm_tool_parser/glm_xml/mod.rs:109-187 | All chunkings of a text give the same result if and only if, in the rest that parsing the whole drops after a call, no marker with more behind it follows text that would be dropped on its own |
| GlmChunks.LetterLosesCall | src/vllm_tool_parser/glm_xml/mod.rs:167-175 | Two calls with a letter between them: one call from one chunk, two from two |
| GlmChunks.DrainSplit | src/vllm_tool_parser/glm_xml/mod.rs:136-187 | From every state, as long as nothing is dropped, draining early and going on equals draining late |
| Glm.GlmXmlToolParser.ParseInto | src/vllm_tool_parser/glm_xml/mod.rs:109-120 | The drain loop terminates in the state and output of the value-level drain |
| Glm.GlmXmlToolParser.FinishParse | src/vllm_tool_parser/glm_xml/mod.rs:122-134 | The rest of the text, or an error inside a call |
| Glm.ParseComplete | src/vllm_tool_parser/mod.rs:126-130 | Push, finish and merge through the object |
| SchemaMeaning.ShapeMeaning | src/tools.rs:716-800 | The shape check succeeds exactly when every nested schema is well shaped |
| SchemaMeaning.CheckMeaning | src/tools.rs:802-884 | On a well-shaped schema the check never fails for the schema's sake, and accepts exactly when every nested value meets its schema's keywords |
| SchemaMeaning.KeywordsMean | src/tools.rs:896-935 | A schema is about objects, or arrays, exactly if it has their type among its types or one of their keywords; other properties are those it does not list |
| SchemaMeaning.AcceptedIsValid | src/tools.rs:802-949 | Accepted values are valid for type, enum and required (sections 6.1.1, 6.1.2 and 6.5.3 of JSON Schema Validation 2020-12) and for items, properties and additionalProperties (sections 10.3.1.2, 10.3.2.1 and 10.3.2.3 of JSON Schema Core 2020-12) |
| SchemaMeaning.CheckIsExact | src/tools.rs:802-949 | For every value and well-shaped schema, accepted means valid, of the kind each nested schema's keywords imply, listed in enum in the same number form and never an integral float where only integers are allowed, both ways |
| SchemaMeaning.CheckIsExactWithoutFloats | src/tools.rs:802-949 | The case without floats: accepted means valid and of the kind each nested schema's keywords imply, both ways |
| SchemaMeaning.TidyCheckDecidesValidity | src/tools.rs:802-949 | Where types are single names and keywords fit them, and without floats, accepted means valid, both ways |
| SchemaMeaning.NullableObjectIsRefused | src/tools.rs:896-911 | A valid null is refused under a nullable object type |
| SchemaMeaning.IntegralFloatIsRefused | src/tools.rs:938-949 | A valid integral float is refused under the integer type |
| Sse.FramingIgnoresChunking | src/http.rs:1044-1063 | Two chunkings of one stream fail with the same error or give the same events and the same leftover |
| Sse.FrameSplit | src/http.rs:1044-1063 | Framing a buffer and then more text is framing both at once |
| Sse.BoundaryExtends | src/http.rs:1443-1448 | The earliest of the three delimiters in a prefix stays the earliest, with the same length, in every extension |
| Sse.BoundaryMeaning | src/http.rs:1443-1448 | The boundary is a delimiter, and none starts before it |
| Sse.ReadSseEvent | src/http.rs:1451-1500 | One pass over the lines gives the fields read line by line, or the first error |
| SseLines.LinesSay | src/http.rs:1451-1500 | An event is read as what its lines say, with any colons, spaces and carriage returns: the last type and all data, nothing for comments alone, an error without data or with another field (sections 9.2.5 and 9.2.6 of the WHATWG HTML Living Standard) |
| SseLines.EveryEventIsWritten | src/http.rs:1451-1500 | Every text between delimiters is such lines |
| SseLines.ChunkedRoundTrip | src/http.rs:1443-1500 | Events whose lines end in LF or CRLF, closed by any of the three delimiters, in any chunks, frame to what their lines say with nothing left over, or to the first refusal |
| SseLines.RenderRoundTrip | src/http.rs:1443-1500 | The same for the whole text at once |
| SseLines.JoinSplits | src/http.rs:1496-1499 | Joined data lines split at line feeds into themselves |
| Sse.SseEventParser.Push | src/http.rs:1044-1063 | The loop takes every complete event off the buffer, in place |
| Sse.SseEventParser.Finish | src/http.rs:1066-1079 | Success exactly when every unit left in the buffer belongs to a white space character, and otherwise an incomplete event |
| SessionRuns.SessionsAreServedWithinLimits | src/sessions.rs:145-231 | Over every run from an empty store, each session between two creations is served at most max_requests times, only before its expiry time, never after an idle gap of idle_ttl, and every answer and the stored session carry exactly the attestation state a caller last passed in since it was created, and none before |
| SessionIdentity.ReuseIsExact | src/sessions.rs:145-190 | Over every run with a clock that does not go back, a request uses its key's session again if and only if that session's uses stay within every limit, and a replaced session is named by the limit it had reached |
| SessionIdentity.AnswersAreExact | src/sessions.rs:145-290 | Every request: without a model or with a refused identifier an error and no change; otherwise the session of the caller's identifier, else of the manager's own under the agent fallback, else of a made-up one with request scope, else a missing identifier |
| SessionIdentity.AgentFallbackShares | src/sessions.rs:257-274 | Under the agent fallback, requests without an identifier for one model share one session until it reaches a limit |
| SessionIdentity.MadeUpSessionsAreNew | src/sessions.rs:257-274 | Under the request fallback, an unused made-up identifier gives a new session of its own with request scope |
| SessionIdentity.ExplicitIsUsable | src/sessions.rs:277-289 | The header decides where it has more than white space, and the metadata otherwise; what is found is trimmed and not empty |
| SessionIdentity.AttestationIsExact | src/sessions.rs:202-231 | Attestation is stored if and only if the session's life is within its limits, and is otherwise refused as expired by that limit or not found |
| SessionIdentity.CleanupIsExact | src/sessions.rs:239-244 | A cleanup keeps exactly the sessions whose lives are within their limits |
| WhiteSpace.TrimMeaning | src/sessions.rs:413-416 | Trimming a text drops its leading and trailing characters of the Unicode White_Space property, and nothing else |
| SessionRuns.OwnSessionsExactly | src/sessions.rs:145-190 | For every set of non-blank model ids, all runs over it give each request its own model's session if and only if sessions serve one request only, or no id of the set continues another with a colon and no white space right after it |
| SessionRuns.RunsAreConsistent | src/sessions.rs:145-231 | In every reachable store each count is within 1..max_requests, each expiry is creation plus max_ttl, and each map key is its entry's own key |
| SessionRuns.ColonFreeRunsGiveOwnSessions | src/sessions.rs:145-190 | Without colons in model ids, every session returned over a run is of the model asked for, whatever the identifiers |
| SessionRuns.KeysCollideExactlyOnColons | src/sessions.rs:391-421 | Two model ids share a key for some identifiers a request can carry (trimmed, not empty) if and only if they are equal or one continues the other with a colon and no white space right after it |
| SessionRuns.ColonsCanMixSessions | src/sessions.rs:145-190 | A concrete run in which a colon gives one model another model's session |
| SessionRuns.CleanupIsTransparent | src/sessions.rs:239-244 | Cleanups inserted anywhere in a run with a nondecreasing clock change no answer but the replaced-expired note and expired against not-found |
| SessionRuns.CleanupChangesNoAnswer | src/sessions.rs:239-244 | The same from one store |
| SessionRuns.ExpiryIsStable | src/sessions.rs:292-310 | An untouched session that has expired stays expired |
| Sessions.SessionManager.GetOrCreateAt | src/sessions.rs:145-190 | The store after the call and the answer, in place |
| Sessions.SessionManager.SetAttestedModelStateAt | src/sessions.rs:202-231 | The store after the call and the answer, in place |
| Sessions.SessionManager.CleanupExpiredAt | src/sessions.rs:239-244 | Walking the keys, a session stays if and only if it was there unexpired, with its value unchanged, and the result is the number of expired ones |

## Left out

- HTTP routing, configuration loading, headers, tracing and prompts: plumbing, with no state of its own.
- The text of correction prompts and the cut of the output they quote (src/tools.rs:255-330, src/tools.rs:480-489).
- Encryption, keys and attestation: decryption is a partial function that an event's fields already carry, or that `ChatPump` takes as a parameter.
- serde_json: reading a string literal, reading arguments and printing them are parameters, as are clocks, session identifiers and fresh ids.
- Chunk and completion metadata (id, created, model, object) and generated tool-call ids: copied or made up, never decided on.
- Error messages: reduced to kinds, except the invalid output a correction carries.
- src/vllm_tool_parser/parameters.rs: a parameter that converts raw GLM parameters to argument text.
- UTF-8 decoding of network chunks: each chunk is decoded on its own (src/http.rs:969), so results about chunks quantify over chunks of text; a failed read or decode is one of the two refused events.
- Machine integers: lengths, depths and counters are unbounded, so the scanners' checked depth arithmetic never overflows here.
- The GLM newline separator, which no constructor selects, and the parsers' `reset` but for the JSON parser's.
- Reading the header map and the JSON body for a session identifier: what is found there is a parameter of `ExplicitIdentifier`, whose answer is one of `GetOrCreateAt`.
- Locking of the session store: calls are taken one at a time.
- The marker timeout: a buffered attempt that is late is one of upstream's possible answers.
- Request parsing and message normalisation (src/openai/chat.rs): single-branch checks.
