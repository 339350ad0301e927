# CS-15 Tutor backend, modelled in Dafny

The CS-15 Tutor is a course assistant: students ask questions from a web
page or a VSCode extension, and the server answers through an LLM. This
project models the deterministic logic around that exchange:

- **Health points** (`HealthPoints`): the rate-limiting ledger. A user has
  12 points, each query costs one, and one point comes back every 3 minutes.
  A development user bypasses the ledger.
- **Quality loop** (`Quality`, `GenerationLoop`): a generated answer is scored
  by a second LLM call and regenerated with an enhancement prompt until it
  passes or the attempts run out.
- **Retrieval formatting** (`RagFormat`): retrieved course material becomes
  the numbered outline the model is shown.
- **Orchestration** (`Orchestrator`): one turn end to end, from query
  building and context accumulation to interaction logging.
- **Chat sessions** (`ChatSession`): per-conversation history and
  accumulated context in the chat routes, both plain and streaming, and in
  the older single-file server.
- **LLM adapters** (`LlmMessages`): how messages are turned into Gemini,
  Anthropic, OpenAI and NatLab requests, and how NatLab finds its
  credentials.
- **Storage** (`Store`, `Migration`): anonymous users, conversations and
  message logging, and the one-off migration to a ceiling of 12.
- **Authentication** (`Auth`): the web identity, Bearer tokens, the VSCode
  browser login, the development bypass, and the direct-credential endpoint.
- **Maintenance and export** (`AllowedUsers`, `SheetsExport`,
  `JsonEscape`): the allowed-users script, the Google Sheets interaction
  export, and the JSON escaper of the older server.

Time is an integer number of seconds, passed as `now`. Everything outside
the process is a parameter of the operation that uses it:

- the LLM replies, `json.loads`, JWT signing and checking, and the LDAP bind;
- SHA-256, the random draws, and the environment.

A Python `None` is `Option.None`, and a raised exception is a `None` or a
dedicated error constructor.

## Model

| member | source | states |
|---|---|---|
| HealthPoints.GetOrCreate | adapters/database/render_postgres.py:280-307 | a user without a record gets a full 12/12 record stamped now; an existing record and every other user's record are left as they are |
| HealthPoints.Regenerate | responses-api-server/database.py:349-362 | regeneration never lowers the balance, keeps 0 <= current <= max, and changes nothing when the record is full or less than one interval has passed |
| HealthPoints.RegenerateAddsWholeIntervals | responses-api-server/database.py:349-362 | a changed record gains exactly the whole 180-second intervals elapsed, capped at max; its stamp moves to now and the partial interval is lost |
| HealthPoints.PointsDueIsFloor | responses-api-server/database.py:349-353 | `int(minutes / 3)` on a non-negative elapsed time is the number of whole 180-second intervals |
| HealthPoints.PointsDueNonPositive | responses-api-server/database.py:349-355 | a point is due exactly when at least 180 seconds have elapsed, also for a clock that went backwards |
| HealthPoints.RegenerateStampMonotone | adapters/database/render_postgres.py:323-331 | the regeneration stamp never moves backwards while the clock does not |
| HealthPoints.RegenerateHealthPoints | responses-api-server/database.py:338-368 | the user's record is created if missing, then regenerated; can_query is true iff a point is left; other users are untouched; the ledger invariant is kept |
| HealthPoints.ConsumeRecord | adapters/database/render_postgres.py:342-380 | admission succeeds iff bypass, missing row, or a positive balance; a success takes exactly one point (the bypass refills to max) and stamps the query time; a refusal answers 0 and writes nothing |
| HealthPoints.ConsumeHealthPoint | responses-api-server/database.py:370-412 | consumption creates the user's record when missing and touches no other user's record |
| HealthPoints.ConsumeOutcome | responses-api-server/database.py:376-412 | measured against the regenerated record, the bypass refills and admits with max; otherwise a positive balance drops by exactly one; otherwise (False, 0) with the regenerated ledger stored |
| HealthPoints.ConsumeKeepsLedgerValid | responses-api-server/database.py:406-412 | regeneration followed by consumption keeps every record within 0..max |
| HealthPoints.AdmitsKeepLedgerValid | responses-api-server/database.py:370-412 | any sequence of admissions, by any users at any times, keeps every record within 0..max |
| HealthPoints.BurstSucceedsAtMostBalance | responses-api-server/database.py:406-412 | with no point due, n back-to-back requests succeed exactly min(n, balance) times |
| HealthPoints.FullWithStaleStampAdmitsOneExtra | responses-api-server/database.py:355-362 | a full record with a stamp one interval old admits 13 requests in one instant, because the stamp is only refreshed while the record is below max |
| HealthPoints.DevBypassAlwaysAdmits | responses-api-server/database.py:393-404 | the development user is admitted with max points whatever the balance was |
| HealthPoints.StatusOf | adapters/database/render_postgres.py:382-425 | the status of a missing row is the 12/12 default; the bypass user reports max with no countdown; otherwise the balance, can_query iff positive, and the seconds to the next point |
| HealthPoints.GetUserHealthStatus | responses-api-server/database.py:414-459 | the status call stores the regenerated ledger and reports on the regenerated record |
| HealthPoints.StatusNeverDefaults | responses-api-server/database.py:428-434 | because regeneration creates the row first, the "no row" default is never the answer |
| HealthPoints.FirstAccessIsFull | responses-api-server/database.py:321-330 | a user seen for the first time reports 12 points and may query |
| HealthPoints.RegenerationExample | responses-api-server/database.py:349-353 | a record at 0 of 12 whose stamp is 360 seconds old reports 2 points |
| HealthPoints.ServiceCanQuery | core/health_points.py:42-53 | the service answers can_query exactly for the bypass user or a user with a point left after regeneration |
| HealthPoints.DocumentedRegenerationInAction | core/health_points.py:11-14 | the documented rate at work: an emptied record regains nothing after 179 s and exactly one point after 180 s |
| HealthPoints.DocumentedBudgetInAction | core/health_points.py:11-14 | the documented budget at work: a first-time user's query costs one point out of 12, and 20 queries at one instant are admitted exactly 12 times |
| Migration.MigrateHealthPoints | responses-api-server/migrate_health_points.py:9-41 | a committed migration sets every ceiling to 12 and changes only records whose ceiling differed; the count is the number of such records; a failed commit restores the records and reports False |
| Migration.MigrateRecord | responses-api-server/migrate_health_points.py:18-25 | a record with another ceiling gets ceiling 12 and a balance above 12 is capped at 12; a record already at 12 is kept |
| Migration.MigrateRecordIdempotent | responses-api-server/migrate_health_points.py:18-25 | migrating twice is the same as migrating once |
| Migration.CountNeedingUpdateIsCardinality | responses-api-server/migrate_health_points.py:20-25 | the updated count is the number of positions whose ceiling was not 12 |
| Store.GenerateAnonymousId | responses-api-server/database.py:129-134 | every outcome of the eight draws is six lower-case letters followed by two digits |
| Store.EveryAnonymousIdIsDrawable | adapters/database/render_postgres.py:148-152 | every string of that shape is produced by some outcome of the draws, so the shape is exactly the range |
| Store.FirstFreeId | responses-api-server/database.py:162-166 | the creation loop takes a candidate nobody holds, or finds none only when every candidate is taken |
| Store.GetOrCreateAnonymousUser | responses-api-server/database.py:136-187 | an existing user (same hash) is returned with a refreshed last-active time and their conversation count; a new user gets a free id, the hash and 0 conversations; no user comes back (and nothing changes) exactly when the hash is unknown and every candidate id is taken |
| Store.GetOrCreateKeepsUsersWellFormed | adapters/database/render_postgres.py:154-194 | user creation keeps the hash and anonymous-id columns unique |
| Store.SameUtlnSameUser | responses-api-server/database.py:146-159 | the same login name always maps to the same anonymous identity |
| Store.GetOrCreateConversation | responses-api-server/database.py:189-231 | an existing conversation is returned as stored; otherwise a new row with 0 messages is appended for the given user and platform; either way the lookup by id then finds the returned row |
| Store.LogMessageKeepsLookup | adapters/database/render_postgres.py:244-278 | logging a message leaves every conversation findable at the same position with the same row id |
| Store.FirstCreatorStaysOwner | adapters/database/render_postgres.py:210-219 | a later call with another user or platform gets the first creator's user and platform |
| Store.StoredTemperature | responses-api-server/database.py:245 | a missing or zero temperature is stored as null; any other is stored as its rendering |
| Store.LogMessage | adapters/database/render_postgres.py:244-278 | logging appends exactly one message row and increments the count of the matching conversation, with no other change |
| Store.LogMessageKeepsCountsConsistent | responses-api-server/database.py:250-256 | every conversation's count stays equal to the number of message rows pointing at it |
| Store.NewConversationKeepsCountsConsistent | responses-api-server/database.py:209-217 | a new conversation starts consistent when no message row points at its id yet |
| RagFormat.AdapterAvailable | core/rag_service.py:23-30 | retrieval is enabled iff an adapter was passed or building one raised no ValueError |
| RagFormat.RetrieveUtils | responses-api-server/utils.py:3-23 | the result is non-empty exactly when the call returned a non-empty list, and it is then that list |
| RagFormat.Retrieve | core/rag_service.py:32-74 | without an adapter the result is []; with one it follows the helper's fallbacks; a non-empty result is always the returned list |
| RagFormat.FormatContext | core/rag_service.py:76-98 | the text is empty iff nothing was retrieved, and otherwise starts with the preamble |
| RagFormat.OutlineAt | core/rag_service.py:89-96 | collection k appears in input order as `#(k+1) summary`, directly followed by its chunks as `#(k+1).(m+1) chunk` |
| RagFormat.OutlineLength | core/rag_service.py:86-96 | the outline has one line per collection plus one per chunk |
| RagFormat.FormatRagContextUtils | responses-api-server/utils.py:25-37 | the helper's nested loops produce the same text as the service's formatter, for every input |
| RagFormat.RetrieveAndFormat | core/rag_service.py:100-121 | the pair is the retrieval and its formatting, and the text is empty iff the retrieval is |
| RagFormat.FormatContextExample | core/rag_service.py:86-96 | one collection with two chunks renders as the preamble, `#1 S`, `#1.1 a` and `#1.2 b` |
| RagFormat.SimpleFormatShape | responses-api-server/index.py:607-627 | [] renders as ""; when every collection has both keys, the preamble appears once followed by the entries in order; any missing key raises |
| Quality.ScoreGroup | core/quality_checker.py:89-90 | a captured group is one or more digits |
| Quality.ScoreGroupIsLeftmostGreedy | core/quality_checker.py:89 | there is no group exactly when no position admits a match; otherwise it is the maximal digit run of a match at the leftmost matching position |
| Quality.MatchAtComplete | responses-api-server/enhanced_chat_handler.py:112 | whenever the pattern can match at a position, the scanner finds a match there with the same group start and a group at least as long |
| Quality.ScoreGroupExample | core/quality_checker.py:87-90 | in a reply that is not valid JSON, the digits after `score":` are the group |
| Quality.ParseReply | core/quality_checker.py:82-97 | a decoded object gives its score and feedback with defaults 5 and the fixed text; another decoded value makes `.get` raise, which gives the error verdict; undecodable text falls back to the regular expression |
| Quality.CheckQuality | core/quality_checker.py:71-97 | a raising call gives (5, "Quality check error: ..."); otherwise the parse of the reply |
| Quality.ScoreIsNotValidated | core/quality_checker.py:84-85 | a decoded score is passed through as is, neither clamped to 1..10 nor required to be a number |
| Quality.CheckResponseQuality | responses-api-server/enhanced_chat_handler.py:89-120 | a raising call gives the error verdict, and otherwise the same parse as the core checker |
| Quality.CheckersAgree | responses-api-server/enhanced_chat_handler.py:98-120 | once the reply is unwrapped, both checkers give the same verdict |
| Quality.CheckPromptPieces | core/quality_checker.py:46-69 | the query, the context and the response appear verbatim in the check prompt, in that order, between the fixed texts |
| Quality.CheckerCall | core/quality_checker.py:71-80 | the check sends exactly two messages, the checker system text and then the check prompt as the user message, at temperature 0.1 |
| Quality.IndentedCheckPromptPieces | responses-api-server/enhanced_chat_handler.py:63-86 | the older handler's check prompt carries the message, the context and the response verbatim, in that order |
| Quality.HandlerCheckerCall | responses-api-server/enhanced_chat_handler.py:88-96 | the older check is one proxy call on the model 4o-mini with the checker system text, temperature 0.1, lastk 0 and no retrieval, whose query is that prompt |
| Quality.EnhancementPrompt | core/quality_checker.py:99-121 | the original response and the feedback appear verbatim in the prompt, in that order, between fixed texts |
| Quality.IndentedEnhancementPrompt | responses-api-server/enhanced_chat_handler.py:165-181 | the older handler's prompt carries the same two texts verbatim, in the same order |
| GenerationLoop.Passes | core/orchestrator.py:177 | an integer score passes at >= 7 (orchestrator) or > 7 (older handler); a null, string or container score makes the comparison raise |
| GenerationLoop.AttemptsTrace | core/orchestrator.py:170-193 | the loop's calls alternate between checks and generations; every check is on the original message; every generation is fed the enhancement of the response just rejected |
| GenerationLoop.AttemptsOutcome | core/orchestrator.py:177-193 | the response returned is the one checked last, with the verdict it got |
| GenerationLoop.QualityCheckedAlternates | core/orchestrator.py:167-193 | the whole trace alternates, starting with the initial generation |
| GenerationLoop.CallBounds | core/orchestrator.py:167-195 | with N >= 1 attempts there are at most N generations and N checks; with N <= 0 there is one generation and no check |
| GenerationLoop.ChecksUseOriginalMessage | core/orchestrator.py:171-175 | every check is made on the student's original message |
| GenerationLoop.RegenerationsUseEnhancement | core/orchestrator.py:183-190 | every regeneration is sent the enhancement prompt built from the rejected response and its feedback |
| GenerationLoop.ExhaustionReturnsLastGeneration | core/orchestrator.py:191-193 | when every check fails, the N-th generated response is returned after exactly N checks and N generations |
| GenerationLoop.ApologyOnlyWithoutAttempts | core/orchestrator.py:195 | the closing apology is returned exactly when the attempt budget is not positive |
| GenerationLoop.AcceptedResponsePassed | core/orchestrator.py:177-179 | an accepted response passed its check, and every earlier response failed its check |
| GenerationLoop.FirstVerdictDecides | core/orchestrator.py:167-179 | with at least one attempt, a passing first verdict returns the first draft after one check, and an incomparable one raises after one check |
| GenerationLoop.ResponseIsGenerated | core/orchestrator.py:167-193 | an accepted or exhausted response is the generator's output for some message it was sent |
| GenerationLoop.OrchestratorBudgetAtWork | core/config.py:50-52 | with the configured 3 attempts and threshold 7, a checker that always answers 6 sees three checks and two regenerations from the enhancement prompt, and the third generation is returned |
| GenerationLoop.ScoreSevenSplitsThePolicies | responses-api-server/enhanced_chat_handler.py:45 | a checker that always answers 7 makes the orchestrator accept the first response, while the older handler rejects it three times and returns the third generation |
| Orchestrator.CombineContext | core/orchestrator.py:108-112 | an empty new context leaves the accumulated text; otherwise the new one is joined on after a blank line, or stands alone |
| Orchestrator.CoreQuery | core/orchestrator.py:215-217 | the query is `student query: ` and the message, followed by a blank line and the context only when the context is non-empty |
| Orchestrator.QueriesAgreeIffContext | responses-api-server/enhanced_chat_handler.py:142 | the two backends build the same query exactly when the context is non-empty |
| Orchestrator.LastK | core/orchestrator.py:220 | lastk counts the complete earlier exchanges: 0 for no history, otherwise 2k+1 <= length <= 2k+2 |
| Orchestrator.CoreRequest | core/orchestrator.py:224-236 | the request carries temperature 0.5 and no retrieval; it ends with the user query and starts with the base prompt when one is given; it has no other system message |
| Orchestrator.CoreGenerate | core/orchestrator.py:197-242 | a raising call gives the fixed apology, and otherwise the model's text |
| Orchestrator.ModelSeesOnlyBasePrompt | core/orchestrator.py:224-232 | whatever system messages the stored history carries, the only system message sent is the base prompt |
| Orchestrator.HandlerRequest | responses-api-server/enhanced_chat_handler.py:144-163 | the older backend sends one proxy call with the base prompt, the handler query, temperature 0.5 and lastk from the history length |
| Orchestrator.HandlerGenerate | responses-api-server/enhanced_chat_handler.py:138-163 | a raising call gives the apology, and otherwise the unwrapped reply |
| Orchestrator.ProcessQuery | core/orchestrator.py:75-147 | retrieval is formatted and combined with the accumulated context; the response is what the quality loop returns on the accumulated context extended by the reported one; only this turn's formatting is reported, marked used iff non-empty, with the model name and temperature 0.5 |
| Orchestrator.CoreFirstDraftAccepted | core/orchestrator.py:164-179 | on a given context, a first draft the checker scores at least 7 is returned unchanged |
| Orchestrator.CoreScoreRaises | core/orchestrator.py:177 | a first score that Python cannot compare with 7 (null, text, list or object) makes the loop raise, so no response is produced |
| Orchestrator.CoreAnswerIsGenerated | core/orchestrator.py:164-195 | any text the loop returns, other than the closing apology, is a generation on that same context |
| Orchestrator.ReportedContextIsThisTurnOnly | core/orchestrator.py:135-146 | with nothing retrieved the turn reports no context, even though the model saw the accumulated one |
| Orchestrator.PrepareResponse | responses-api-server/enhanced_chat_handler.py:183-208 | the category is always "general"; an empty retrieval gives "" and rag_context_used is true iff the text is non-empty |
| Orchestrator.PreparedContextIsFormatted | responses-api-server/enhanced_chat_handler.py:189-192 | skipping the formatter for an empty retrieval changes nothing, since the text is always the formatted outline |
| Orchestrator.ProcessChatRequest | responses-api-server/enhanced_chat_handler.py:17-34 | the older request formats what the helper retrieved, marks it used iff it is non-empty, answers category "general", and its response is what the strict loop returns on exactly the reported context |
| Orchestrator.HandlerFirstDraftAccepted | responses-api-server/enhanced_chat_handler.py:38-47 | on a given context, a first draft that passes the check is returned unchanged |
| Orchestrator.HandlerScoreRaises | responses-api-server/enhanced_chat_handler.py:43-45 | a first score that Python cannot compare with the threshold makes the loop raise |
| Orchestrator.HandlerAnswerIsGenerated | responses-api-server/enhanced_chat_handler.py:38-58 | any text the loop returns, other than the closing apology, is a generation on that same context |
| Orchestrator.LogWith | core/orchestrator.py:244-306 | a raise at the first step changes nothing and returns nothing; logging never removes a message |
| Orchestrator.LogOutcome | core/orchestrator.py:244-306 | a summary is returned iff the user is identified and no step raises; the summary carries the user's anonymous id, this conversation and platform, the new-conversation test on the count read before logging, and the user's conversation count; exactly two messages are then added |
| Orchestrator.LogCommitsEachStep | core/orchestrator.py:269-294 | a raise before the query row adds no message; a raise after it leaves exactly the query row |
| Orchestrator.LogRowsPointAtConversation | core/orchestrator.py:278-294 | the rows added are this turn's query and then its response (with context, model, temperature and time), both pointing at the row of this conversation |
| Orchestrator.LogKeepsConversationsLogged | core/orchestrator.py:271-294 | logging a turn keeps every stored conversation non-empty, unless it raises between creating the conversation and logging the query |
| Orchestrator.FaultAfterConversationLeavesItEmpty | core/orchestrator.py:274-283 | a raise right after the conversation is created leaves it stored with no message |
| Orchestrator.CorrectedIsNewMeansFirstTurn | core/orchestrator.py:300 | with the corrected test, a turn is reported new exactly when its conversation did not exist before it |
| Orchestrator.SecondTurnReportedNew | core/orchestrator.py:300 | under the as-written test, the second turn of a conversation (2 stored messages) is still reported new |
| LlmMessages.FormatMessages | adapters/llm/base.py:96-109 | the list is the optional system prompt, then the history without system entries in order, then the query as a user message |
| LlmMessages.NonSystemMembers | adapters/llm/base.py:103-107 | exactly the non-system history entries survive the filter |
| LlmMessages.ExtractSystemMeaning | adapters/llm/anthropic_adapter.py:58-66 | a given prompt wins; otherwise the first non-empty system content is used; otherwise "" when an empty system message exists; otherwise the caller's value |
| LlmMessages.ConvertToGemini | adapters/llm/gemini_adapter.py:43-76 | user becomes user and assistant becomes model, system entries are dropped, a trailing user turn is removed, and the query is the last user content |
| LlmMessages.GeminiQueryIsRemovedTurn | adapters/llm/gemini_adapter.py:72-76 | when a user turn is removed from the history, it is the one sent as the query |
| LlmMessages.GeminiGenerate | adapters/llm/gemini_adapter.py:78-121 | without a client the call raises RuntimeError; otherwise the converted history, system instruction and query are sent |
| LlmMessages.JoinTextSkipsOthers | adapters/llm/anthropic_adapter.py:78-81 | content blocks without text contribute nothing to the reply |
| LlmMessages.AnthropicRequestFor | adapters/llm/anthropic_adapter.py:54-75 | max_tokens defaults to 4096; the messages are the non-system ones; the system text is the given prompt or the extracted one |
| LlmMessages.AnthropicGenerate | adapters/llm/anthropic_adapter.py:51-84 | without a client the call raises RuntimeError; otherwise the reply is the text blocks joined, and an API error becomes RuntimeError |
| LlmMessages.OpenAIMessages | adapters/llm/openai_adapter.py:57-59 | the prompt is prepended only when given and no system message is present, and the list is otherwise copied unchanged |
| LlmMessages.OpenAIMessagesIdempotent | adapters/llm/openai_adapter.py:57-59 | applying the insertion twice adds nothing more |
| LlmMessages.OpenAIGenerate | adapters/llm/openai_adapter.py:51-72 | without a client the call raises RuntimeError; a reply whose content is None becomes "" |
| LlmMessages.ConfigLoopFindsFirst | adapters/llm/natlab.py:32-65 | the file loop ends holding both values only when some file gives both, and then holds the first such file's values |
| LlmMessages.LoadConfigPrecedence | adapters/llm/natlab.py:32-65 | both environment values win; otherwise the first file giving both; otherwise ValueError |
| LlmMessages.NatLabRequestFor | adapters/llm/natlab.py:95-123 | the body carries one system text (the given prompt, else the first system content) and the last user content as the query |
| LlmMessages.NatLabGenerate | adapters/llm/natlab.py:75-135 | a 200 reply yields `result`, else `response`, else ""; anything else raises RuntimeError |
| LlmMessages.NatLabGenerateStream | adapters/llm/natlab.py:137-157 | the stream is the whole reply as one chunk, or the same exception |
| LlmMessages.NatLabRetrieve | adapters/llm/natlab.py:159-203 | retrieval yields the decoded body on 200 and [] otherwise, and never raises |
| ChatSession.NewSession | server/routes/chat.py:69-75 | a new conversation holds the base prompt as its only message and an empty accumulator |
| ChatSession.AccumulateExtends | server/routes/chat.py:95-100 | accumulation keeps everything accumulated so far as a prefix and ends with the new context |
| ChatSession.CompleteTurn | server/routes/chat.py:95-104 | a non-empty new context grows the accumulator and rewrites the system message as base + blank line + accumulator; the user and assistant entries are appended; the rest of the history is kept |
| ChatSession.ServeBlank | server/routes/chat.py:51-52 | a blank message is turned away, and only a blank one, before anything is read or written |
| ChatSession.ServeIsolatesConversations | server/routes/chat.py:69-104 | a turn on one conversation leaves every other conversation as it was |
| ChatSession.ServeRefusal | server/routes/chat.py:54-64 | the turn is refused exactly when the message is not blank and the charge fails; then the sessions are kept, the user lookup stays stored, and the ledger and reported health are those of the status call after the failed charge |
| ChatSession.ServeFailure | server/routes/chat.py:68-88 | the turn fails exactly when the charge succeeds and `process_query` raises; then the point stays spent, the user lookup stays stored, and the conversation exists as the turn found it, with nothing appended |
| ChatSession.ServeAnswer | server/routes/chat.py:77-118 | an answer is what `process_query` returned on the history and accumulator as they were; the conversation becomes that turn completed; the ledger and health are those of the status call after the charge |
| ChatSession.AnsweredTurnIsLogged | server/routes/chat.py:106-128 | an answered turn is logged into the database the user lookup left, and the reply's user info is what that log returned (no anonymous id and not new when it returned nothing) |
| ChatSession.FailedTurnStillCharges | server/routes/chat.py:58-88 | when `process_query` raises for an ordinary user, the point stays spent (one below the regenerated balance) and the conversation stays as found or freshly created |
| ChatSession.StaleFullRecordReportsFull | server/routes/chat.py:58-118 | a full record stamped 180 s ago is charged down to 11 without regeneration, and the closing status call refills it, so the answered turn reports 12 points with the stamp moved to now |
| ChatSession.AnsweredInfoNamesTheUser | server/routes/chat.py:55-128 | with logging undisturbed the reply names the user the point was charged to, and calls the conversation new exactly when at most two of its messages were logged before this turn (the route logs through `log_interaction` as written) |
| ChatSession.LoggedInfo | core/orchestrator.py:296-306 | when no step of the as-written log raises, its summary names the looked-up user and calls the conversation new exactly when at most two of its messages were logged before |
| ChatSession.SecondAnsweredTurnReportedNew | server/routes/chat.py:107-127 | at the route, an answered second turn of a conversation (two messages logged before it) is still reported as a new conversation |
| ChatSession.ServerTurn | server/routes/chat.py:30-134 | 400 exactly for a blank message, 429 exactly for a refused charge, 500 exactly when the charge succeeds and `process_query` raises; a 200 carries this conversation, what `process_query` returned, the user info summarised by the as-written `log_interaction` of this turn, and the status after the charge |
| ChatSession.StreamTurn | server/routes/chat.py:137-255 | the streaming turn changes the state exactly as the plain route does, and a blank message gives the single "message required" event; a complete event carries this conversation, what `process_query` returned, the user info of the as-written `log_interaction`, and the status after the charge |
| ChatSession.EventsMatchReply | server/routes/chat.py:160-246 | each outcome's events carry the plain route's reply: a completion with the same fields exactly on a 200, the same refusal exactly on a 429, the status updates then an error event exactly on a 500, the "message required" event exactly on a 400 |
| ChatSession.StreamMatchesServerTurn | server/routes/chat.py:183-246 | both endpoints leave the same state; the stream completes with the same fields exactly when the plain route answers 200, refuses with the same health status exactly on a 429, and ends in an error after the status updates exactly on a 500 |
| ChatSession.QuietTurnsKeepBasePrompt | server/routes/chat.py:204-213 | over successful turns that retrieve nothing, the system message stays the base prompt and the history grows by two per turn |
| ChatSession.UpdateConversationSystemPrompt | responses-api-server/index.py:636-647 | with no stored retrieval the system message is reset to the base prompt; otherwise it is the base prompt plus the simple rendering; other conversations are untouched |
| ChatSession.LegacyPrepare | responses-api-server/index.py:372-383 | a new conversation is created with history, accumulator and a [] retrieval entry, and in development mode the system message is reset to the base prompt |
| ChatSession.LegacyServe | responses-api-server/index.py:346-347 | the older route turns away a blank message, and only a blank one, with nothing changed |
| ChatSession.LegacyAdmit | responses-api-server/index.py:349-359 | once the message is not blank the older route refuses exactly when the charge fails, storing the user lookup and the status after the failed charge |
| ChatSession.LegacyAttempt | responses-api-server/index.py:371-414 | an admitted turn hands `process` the prepared history; it fails exactly when `process` raises, keeping the preparation and the spent point; an answer completes the prepared conversation, and only the user lookup reaches the database |
| ChatSession.LegacyTurn | responses-api-server/index.py:327-450 | 400 exactly for a blank message, 429 exactly for a refused charge, 500 exactly when the charge succeeds and the handler raises on the prepared history; a 200 carries this conversation and what the query logger returned |
| ChatSession.LegacyIsolatesConversations | responses-api-server/index.py:371-414 | a turn of the older route on one conversation leaves every other conversation as it was |
| ChatSession.LegacyAnswer | responses-api-server/index.py:386-432 | the older route's answer is what the handler returned on the prepared history; the conversation becomes that turn completed; the ledger and health are those of the status call after the charge |
| ChatSession.LegacyFailure | responses-api-server/index.py:353-450 | when the handler raises, the point stays spent, the user lookup stays stored and the conversation stays as prepared |
| ChatSession.LegacyDevModeHidesAccumulatedContext | responses-api-server/index.py:380-391 | in development mode the handler is given the bare base prompt as the system message, whatever context the conversation had accumulated, and the accumulator is kept |
| ChatSession.DevModeResetsToBasePrompt | responses-api-server/index.py:381-383 | since stored retrievals are always [], the development-mode update always hands the model the bare base prompt |
| JsonEscape.EscapeForJson | responses-api-server/index.py:17-46 | a non-string is rendered with `str()`; a string is escaped character by character |
| JsonEscape.ChainIsPerCharacterMap | responses-api-server/index.py:33-46 | because backslash goes first, the chain of seven replaces equals the per-character escape map |
| JsonEscape.EscapeLength | responses-api-server/index.py:33-46 | each escaped character costs exactly one extra character |
| JsonEscape.UnescapeRoundTrip | responses-api-server/index.py:33-46 | the matching unescape recovers any input |
| JsonEscape.ControlCharacterPassesRaw | responses-api-server/index.py:39-44 | U+0001 is left raw, and a JSON decoder refuses the result |
| JsonEscape.BareControlBreaksJson | responses-api-server/index.py:39-44 | any text containing a control character outside the five escaped ones escapes to something that is not a JSON string |
| JsonEscape.DecodeOfEscapeMap | responses-api-server/index.py:33-46 | the as-written escaper produces a valid JSON string body exactly when the text has no bare control character, and then it decodes back to the text |
| JsonEscape.StrictEscapeRoundTrip | responses-api-server/index.py:33-46 | the corrected escaper yields a JSON string body that decodes back to the text, whatever the text |
| JsonEscape.StrictAgreesWhenNoBareControl | responses-api-server/index.py:39-44 | on text without bare control characters, the corrected escaper and the source agree |
| JsonEscape.EscapeForJsonStrict | responses-api-server/index.py:30-31 | the corrected escaper keeps the `str()` rendering of non-strings and escapes strings with the corrected map |
| Auth.WebIdentityPrecedence | core/auth_service.py:110-158 | the web identity is the first truthy of REMOTE_USER (environment), X-Remote-User, REMOTE_USER (request) and the basic-auth user, lowercased and stripped |
| Auth.ExtraHeadersIrrelevant | responses-api-server/auth_service.py:150-169 | the development and Tufts headers never change the identity |
| Auth.VerifyToken | core/auth_service.py:179-202 | a token yields an identity iff it decodes with a truthy utln claim, which is then normalized |
| Auth.BearerToken | responses-api-server/auth_service.py:250-253 | the token is the text after "Bearer " up to the next space |
| Auth.AuthenticateRequest | core/auth_service.py:204-232 | a verified Bearer token gives platform vscode; otherwise a truthy web identity gives platform web; otherwise nobody, and an identity is present iff the platform is |
| Auth.BlankIdentityIsNobody | core/auth_service.py:151-152 | an identity that normalizes to "" is treated as nobody |
| Auth.GenerateLoginUrl | core/auth_service.py:234-258 | the drawn id is recorded as pending at now; only sessions younger than an hour remain and they are unchanged; the URL ends in the session id |
| Auth.HandleLoginCallback | core/auth_service.py:260-281 | only a pending session is completed, with a token for the normalized name; otherwise nothing changes |
| Auth.SessionStatus | core/auth_service.py:283-302 | the status is not found iff there is no session, and completed iff the session is completed, carrying its token and name |
| Auth.LoginLifecycle | core/auth_service.py:234-302 | a new session is pending; the first callback completes it and the status carries the same token; a second callback is refused and changes nothing |
| Auth.LegacyStoreMatchesCore | responses-api-server/auth_service.py:303-360 | once the store exists the older server behaves like the core one; before that, nothing is found |
| Auth.AuthenticateVscodeUserWith | core/auth_service.py:79-108 | in development mode a listed user needs only a non-blank password, everyone else must pass the LDAP bind, and success is a token for the normalized name |
| Auth.ListsDiffer | core/auth_service.py:95-97 | a name on the core bypass list only is admitted by the core server and left to LDAP by the older one |
| Auth.TestuserOnlyBypassesInCore | responses-api-server/auth_service.py:99-104 | "testuser" in development mode gets in on any non-blank password on the core server but must pass LDAP on the older one |
| Auth.BlankPasswordRejectedForDevUsers | core/auth_service.py:91-100 | a blank password never admits a development user |
| Auth.StrippedRegexIsExact | server/routes/auth.py:91 | on a stripped name, the `$`-before-newline allowance of the username pattern never applies |
| Auth.CredentialReply | server/routes/auth.py:86-129 | a blank username gives 400; the username-only path gives 401 exactly for a malformed name; the LDAP path needs a password and answers 200 exactly when authentication yields a non-empty token, 401 otherwise; 200 carries a non-empty token for the lowercased name |
| Auth.DirectAuth | server/routes/auth.py:68-133 | a body `get_json()` cannot parse gives 500; a null or other falsy JSON body gives 400; a truthy body that is not an object gives 500 (its `.get` raises); in an object, a non-string username or password gives 500 (its `.strip()` raises), a missing or empty username gives 400, and otherwise the credential reply decides |
| Auth.ObjectAuth | server/routes/auth.py:78-83 | in an object body, a username or password that is not a string gives 500, a missing or empty username gives 400, and otherwise the stripped fields go to the credential reply |
| Auth.DirectAuthSuccess | server/routes/auth.py:85-122 | a 200 comes only from a non-empty object body and carries a token signed for the name it returns, and on the username-only path that name matched the username pattern |
| AllowedUsers.AddAllowedUser | responses-api-server/manage_allowed_users.py:51-82 | the stripped, lowercased name is added iff it is new, well-formed and saved; the outcomes for empty and duplicate names are exact; otherwise the list is unchanged |
| AllowedUsers.AddKeepsWellKept | responses-api-server/manage_allowed_users.py:65-77 | adding through the script keeps every name well-formed and unique |
| AllowedUsers.RemoveAllowedUser | responses-api-server/manage_allowed_users.py:84-112 | removal happens iff the 1-based number is in range, the answer is "y" and the save succeeds; it removes exactly that entry |
| AllowedUsers.RemoveTakesOneName | responses-api-server/manage_allowed_users.py:97-112 | removal takes out one copy of the chosen name and nothing else, and keeps the list well kept |
| SheetsExport.Truncate | responses-api-server/google_sheets_sync.py:44-57 | empty or missing content and content within the limit are returned as is; longer content keeps a prefix of `limit - 50` characters (a Python slice) and a marker with the original length |
| SheetsExport.TruncatedLength | frontend/dashboard/sheets_client.py:113-126 | a truncated cell is the limit minus 7 plus the digits of the original length, so it fits iff the original has fewer than ten million characters |
| SheetsExport.DefaultLimitFits | responses-api-server/google_sheets_sync.py:36 | under the default 45000 limit, every truncated cell fits when the text has fewer than ten million characters |
| SheetsExport.SmallLimitCountsFromEnd | responses-api-server/google_sheets_sync.py:55 | below a limit of 50 the slice bound is negative and counts back from the end of the text |
| SheetsExport.ScanSound | responses-api-server/google_sheets_sync.py:587-615 | every exported pair is a query answered by a later response, numbered by the queries up to it |
| SheetsExport.ScanComplete | frontend/dashboard/sync_service.py:197-215 | every response that finds an open query yields a row for it |
| SheetsExport.AtMostOneRowPerResponse | responses-api-server/google_sheets_sync.py:598 | every response yields at most one row |
| SheetsExport.SkippedQueryStillCounts | responses-api-server/google_sheets_sync.py:591-594 | a query followed by another query before any response is dropped, but its turn number is spent |
| SheetsExport.RowFor | frontend/dashboard/sync_service.py:204-215 | a row is labelled "Turn n"; a missing context is replaced by the fixed text before truncation |
| SheetsExport.DashboardInteractions | frontend/dashboard/sync_service.py:175-221 | the dashboard export is the header row followed by interaction rows, with no separator |
| SheetsExport.DashboardRowCount | frontend/dashboard/sync_service.py:188-215 | the dashboard export has exactly one row per query/response pair after its header |
| SheetsExport.DashboardRowsAreInteractions | frontend/dashboard/sync_service.py:204-213 | after the header every dashboard row is an interaction row without the length columns of the older exporter |
| SheetsExport.SeparatorPerNonEmptyConversation | responses-api-server/google_sheets_sync.py:618-619 | the older exporter writes exactly one separator per conversation with at least one message |
| SheetsExport.ClearSheet | frontend/dashboard/sheets_client.py:158-172 | the sheet is ensured to exist; without an HTTP error every cell in columns A:Z becomes empty and every cell right of Z keeps its value; an HTTP error is swallowed and clears nothing; no other sheet changes |
| SheetsExport.WriteToSheet | frontend/dashboard/sheets_client.py:174-200 | the sheet is ensured to exist; without an HTTP error exactly the given cells take the given values and every other cell (also right of a shorter given row, or below the data) keeps its value; an HTTP error is swallowed and writes nothing; no other sheet changes |
| SheetsExport.ClearThenWrite | frontend/dashboard/sheets_client.py:158-200 | clearing then writing shows exactly the written cells in columns A:Z; right of Z the written cells replace old ones and the rest stay; no other sheet changes; without a client nothing changes |
| SheetsExport.FullSync | frontend/dashboard/sync_service.py:175-243 | an unavailable client gives False and nothing changes; otherwise True iff no error other than a swallowed HTTP error escaped; only the interactions sheet can change; an escape before the interactions sync changes nothing, one in the clear leaves at most the new empty sheet, and one in the update after a good clear leaves A:Z blank; with no error at all, columns A:Z of it show exactly the export of the given conversations: the header in row 1, one 8-cell row per query/response pair, and nothing else |
| SheetsExport.FullSyncTimeoutAfterClear | frontend/dashboard/sync_service.py:223-243 | an update that times out after a good clear gives False, and an old cell in A:Z is blank afterwards |
| SheetsExport.FullSyncSwallowsWriteError | frontend/dashboard/sheets_client.py:174-200 | a failed update after a good clear still gives True and leaves columns A:Z of the interactions sheet blank |
| SheetsExport.FullSyncSwallowsClearError | frontend/dashboard/sheets_client.py:158-172 | a failed clear before a good update still gives True; the export's cells are written and every other cell keeps its old value, so the rows of a longer earlier export remain |
| SheetsExport.EmptyIdSplitsTheGuards | responses-api-server/google_sheets_sync.py:631-637 | with an empty spreadsheet id the dashboard goes ahead while the older exporter refuses |

## Left out

- Database sessions, commits and rollbacks are modelled as pure state updates. Concurrency is not modelled, including the race between regenerating and consuming a point.
- HTTP framing, Flask request parsing, CORS, server-sent-event encoding and JSON marshalling are not modelled; only the values they carry are.
- These foreign calls are parameters whose results the model does not describe: JWT signing and decoding, the LDAP bind, SHA-256, `json.loads`, the LLM SDKs, `requests`, and the course proxy.
- The environment, the clock, secrets and random draws are parameters. Both `utcnow()` calls of one operation read the same `now`.
- Floating-point temperatures and thresholds are reals. The analytics, response-time measurement and logging output are left out.
- Python's Unicode `lower()`, `isalpha()`, `isalnum()` and `\d` are modelled on ASCII only.
- JsonEscape.Decode: rejects a `\u` escape naming a UTF-16 surrogate (0xD800 to 0xDFFF) instead of joining surrogate pairs, so it accepts fewer strings than section 7 of RFC 8259 allows; the escaper never emits such an escape, so the round trips are unaffected.
- Python's `str()` of floats and containers is an oracle parameter (`render`).
- Only the UserInteractions sheet is modelled. The other sheet syncs and the Google API calls are not. Whether each of the four swallowed HTTP errors of a sync happens is the `HttpFaults` parameter; an error of a clear or an update changes nothing beyond what its `ensure_sheet_exists` already did. Cells are modelled as text, and a cell that is absent reads the same as an empty one.
- Auth.DirectAuth: follows Werkzeug 2.1 and later, where `get_json()` raises on a missing JSON content type or malformed JSON (500); older versions return None there, which gives 400. A raise in `get_auth()` is not modelled.
- SheetsExport.FullSync: the overview, users, conversations and messages syncs are not modelled, so the other sheets are stated unchanged; the response time is written as its decimal text rather than a number. It promises what columns A:Z show, not how many rows the sheet stores: rows of an earlier export that have cells right of column Z keep them, since the clear covers only A:Z.
- Store.GetOrCreateAnonymousUser: the `while True` loop draws forever; the model searches a finite list of candidates and answers None when all are taken.
- ChatSession.ServerTurn: one clock reading serves the whole turn, and a database error inside the route's own calls is not modelled as a 500; the turn requires that the user lookup finds a free anonymous id among the candidates (the source would loop forever otherwise).
- ChatSession.StreamTurn: the events are values; their JSON text and the event-stream framing are not modelled.
- The authentication step of every chat route and its 401 answers are modelled by `Auth`, not repeated inside the routes, which start from an authenticated user.
- ChatSession.LegacyTurn: the query logger's result is the `logged` parameter, the assistant-response log call is not modelled, and the constant `category` field of the reply is omitted.
- The older server's streaming chat route is not modelled; the core server's streaming route is.
- Loading the system prompt from files, the interactive and pure I/O scripts (data export, SQL runner, dev starter, scrapers) and the abstract adapter interface in adapters/database/base.py are not modelled.
- responses-api-server/logging_service.py is not part of this model. Its `== 0` test is the intended one for Orchestrator.CorrectedIsNewMeansFirstTurn.
- Where the older server and the core server differ, the model keeps both and proves how they differ: the bypass lists, the quality threshold (`>= 7` against `> 7`), the query with an empty context, and the spreadsheet-id guard.

## Findings

| source | as written | input that shows it | evidently intended | confidence | as-written member | corrected member |
|---|---|---|---|---|---|---|
| core/orchestrator.py:300 | `is_new_conversation = message_count <= 2`, read before this turn's two messages are logged | the second turn of a conversation: the snapshot count is 2, so the turn is reported new | a turn is new only when nothing was logged before it (`== 0`) | high, not executed | Orchestrator.SecondTurnReportedNew | Orchestrator.CorrectedIsNewMeansFirstTurn |
| responses-api-server/index.py:33-46 | only backslash, quote, `\n`, `\r`, `\t`, `\b` and `\f` are escaped | the text "\u0001" escapes to itself, which section 7 of RFC 8259 forbids inside a string | every control character U+0000 to U+001F is escaped (`\u00XX` for the others) | high, not executed | JsonEscape.ControlCharacterPassesRaw | JsonEscape.StrictEscapeRoundTrip |

The chat routes call `log_interaction` as written, so the route model keeps the `<= 2` test (ChatSession.SecondAnsweredTurnReportedNew exhibits it at the route); the corrected test is modelled alongside as Orchestrator.LogInteraction.
