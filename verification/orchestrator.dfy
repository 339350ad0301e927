/**
 * One chat turn as the two backends run it: `QueryOrchestrator.process_query`
 * and `log_interaction` (core/orchestrator.py), and
 * `EnhancedChatHandler.process_chat_request` (responses-api-server/enhanced_chat_handler.py).
 * Retrieval, the language model, the checker model, `json.loads`, SHA-256
 * and `str(float)` are parameters.
 */
module Orchestrator {
  import opened Common
  import Settings
  import LlmMessages
  import Quality
  import RagFormat
  import GenerationLoop
  import Store

  const Separator: string := "\n\n"
  const QueryPrefix: string := "student query: "
  const GenerationApology: string :=
    ("I apologize, but I encountered " + "an error while generating " + "a response. Please try again.")

  // ---------------------------------------------------------------------------
  // Context and query assembly
  // ---------------------------------------------------------------------------

  /** The context the generator and checker see: the accumulated text, extended by this turn's formatted retrieval. */
  function CombineContext(accumulated: string, formatted: string): (full: string)
    ensures formatted == "" ==> full == accumulated
    ensures formatted != "" && accumulated == "" ==> full == formatted
    ensures formatted != "" && accumulated != "" ==>
      StartsWith(full, accumulated) && full[|accumulated|..] == Separator + formatted
  {
    if formatted == "" then accumulated
    else if accumulated == "" then formatted
    else accumulated + Separator + formatted
  }

  /** `f"student query: {message}"`, with `"\n\n" + context` only when the context is non-empty. */
  function CoreQuery(message: string, context: string): (q: string)
    ensures OccursAt(q, message, |QueryPrefix|) && q[..|QueryPrefix|] == QueryPrefix
    ensures context == "" ==> |q| == |QueryPrefix| + |message|
    ensures context != "" ==> q[|QueryPrefix| + |message|..] == Separator + context
  {
    if context != "" then QueryPrefix + message + Separator + context else QueryPrefix + message
  }

  /** `"student query: " + message + "\n\n" + rag_context`, whatever the context. */
  function HandlerQuery(message: string, context: string): (q: string)
    ensures OccursAt(q, message, |QueryPrefix|) && q[..|QueryPrefix|] == QueryPrefix
    ensures q[|QueryPrefix| + |message|..] == Separator + context
  {
    QueryPrefix + message + Separator + context
  }

  /** The two backends build the same query exactly when the context is non-empty. */
  lemma QueriesAgreeIffContext(message: string, context: string)
    ensures CoreQuery(message, context) == HandlerQuery(message, context) <==> context != ""
  {
    if context == "" {
      assert |CoreQuery(message, context)| != |HandlerQuery(message, context)|;
    }
  }

  /** `(len(history) - 1) // 2 if history else 0`: the number of complete earlier exchanges. */
  function LastK(historyLength: nat): (k: nat)
    ensures historyLength == 0 ==> k == 0
    ensures historyLength > 0 ==> 2 * k + 1 <= historyLength <= 2 * k + 2
  {
    if historyLength == 0 then 0 else (historyLength - 1) / 2
  }

  // ---------------------------------------------------------------------------
  // Generation
  // ---------------------------------------------------------------------------

  /** What `_generate_response` hands to the language-model adapter. */
  datatype GenerationRequest = GenerationRequest(messages: seq<LlmMessages.Message>, temperature: real, lastk: int, ragUsage: bool)

  /** The core request for one generation. */
  function CoreRequest(systemPrompt: string, history: seq<LlmMessages.Message>, context: string, message: string)
    : (req: GenerationRequest)
    ensures req.temperature == Settings.DefaultTemperature && !req.ragUsage && req.lastk == LastK(|history|)
    ensures |req.messages| >= 1 && req.messages[|req.messages| - 1] == LlmMessages.Message("user", CoreQuery(message, context))
    ensures systemPrompt != "" ==> req.messages[0] == LlmMessages.Message("system", systemPrompt)
    ensures forall i :: 0 <= i < |req.messages| && req.messages[i].role == "system" ==>
      i == 0 && req.messages[i].content == systemPrompt
  {
    var messages := LlmMessages.FormatMessages(CoreQuery(message, context), Some(systemPrompt), Some(history));
    GenerationRequest(messages, Settings.DefaultTemperature, LastK(|history|), false)
  }

  /** `QueryOrchestrator._generate_response`: the model's text, or the fixed apology when the call raises. */
  function CoreGenerate(systemPrompt: string, history: seq<LlmMessages.Message>, context: string, message: string,
                        llm: GenerationRequest -> Option<string>): (r: string)
    ensures llm(CoreRequest(systemPrompt, history, context, message)).None? ==> r == GenerationApology
    ensures llm(CoreRequest(systemPrompt, history, context, message)).Some? ==>
      r == llm(CoreRequest(systemPrompt, history, context, message)).value
  {
    match llm(CoreRequest(systemPrompt, history, context, message))
    case Some(text) => text
    case None => GenerationApology
  }

  /**
   * Whatever system messages the stored history carries (the rewritten one
   * with the accumulated context included), the model sees only the base
   * prompt as its system message.
   */
  lemma ModelSeesOnlyBasePrompt(systemPrompt: string, history: seq<LlmMessages.Message>, context: string, message: string)
    ensures var msgs := CoreRequest(systemPrompt, history, context, message).messages;
      forall m :: m in msgs && m.role == "system" ==> m == LlmMessages.Message("system", systemPrompt)
  {
  }

  /** The request `EnhancedChatHandler._generate_response` sends through the proxy. */
  function HandlerRequest(basePrompt: string, historyLength: nat, context: string, message: string): (call: LlmMessages.ProxyCall)
    ensures call.model == LlmMessages.ProxyModel && call.system == basePrompt
    ensures call.query == HandlerQuery(message, context)
    ensures call.temperature == 0.5 && call.lastk == LastK(historyLength) && !call.ragUsage
  {
    LlmMessages.ProxyCall(LlmMessages.ProxyModel, basePrompt, HandlerQuery(message, context), 0.5, LastK(historyLength), false)
  }

  /** `EnhancedChatHandler._generate_response`: the unwrapped reply, or the apology when the call raises. */
  function HandlerGenerate(basePrompt: string, historyLength: nat, context: string, message: string,
                           proxy: LlmMessages.ProxyCall -> Option<Quality.Reply>): (r: string)
    ensures var reply := proxy(HandlerRequest(basePrompt, historyLength, context, message));
      (reply.None? ==> r == GenerationApology) && (reply.Some? ==> r == reply.value.text)
  {
    match proxy(HandlerRequest(basePrompt, historyLength, context, message))
    case Some(reply) => reply.text
    case None => GenerationApology
  }

  // ---------------------------------------------------------------------------
  // process_query
  // ---------------------------------------------------------------------------

  /** The response dictionary of `process_query`, without timing; `response` is None when the loop raised. */
  datatype QueryResult = QueryResult(
    response: Option<string>, ragContext: string, conversationId: string,
    ragContextUsed: bool, modelUsed: string, temperature: real)

  /** The foreign services one core turn uses. */
  datatype CoreServices = CoreServices(
    adapterAvailable: bool,
    retrieval: RagFormat.RetrievalOutcome,
    llm: GenerationRequest -> Option<string>,
    checker: Quality.CheckerRequest -> Quality.Generation,
    loads: string -> Quality.LoadsResult,
    render: Quality.Json -> string,
    modelName: string)

  /** The loop the orchestrator runs for one message with one combined context. */
  function CoreLoop(systemPrompt: string, history: seq<LlmMessages.Message>, context: string, message: string, s: CoreServices)
    : (seq<GenerationLoop.Call>, GenerationLoop.Outcome)
  {
    GenerationLoop.QualityChecked(
      GenerationLoop.OrchestratorPolicy, message,
      m => CoreGenerate(systemPrompt, history, context, m, s.llm),
      CoreCheck(context, s),
      (r, fb) => Quality.EnhancementPrompt(r, Quality.PyStr(fb, s.render)))
  }

  /** The checker the orchestrator's loop consults, on one context. */
  function CoreCheck(context: string, s: CoreServices): (string, string) -> Quality.Verdict {
    (q, r) => Quality.CheckQuality(s.checker(Quality.CheckerCall(q, context, r)), s.loads)
  }

  /** On one context, a first draft scoring at least 7 is returned as it is. */
  lemma CoreFirstDraftAccepted(systemPrompt: string, history: seq<LlmMessages.Message>, context: string, message: string,
                               s: CoreServices)
    ensures var first := CoreGenerate(systemPrompt, history, context, message, s.llm);
      var score := CoreCheck(context, s)(message, first).score;
      score.JInt? && score.i >= Settings.QualityThreshold ==>
        GenerationLoop.FinalText(CoreLoop(systemPrompt, history, context, message, s).1) == Some(first)
  {
    var generate := m => CoreGenerate(systemPrompt, history, context, m, s.llm);
    var enhance := (r, fb) => Quality.EnhancementPrompt(r, Quality.PyStr(fb, s.render));
    GenerationLoop.FirstVerdictDecides(GenerationLoop.OrchestratorPolicy, message, generate, CoreCheck(context, s), enhance);
  }

  /** On one context, a first score Python cannot compare with 7 (null, text, a list or an object) makes the loop raise. */
  lemma CoreScoreRaises(systemPrompt: string, history: seq<LlmMessages.Message>, context: string, message: string,
                        s: CoreServices)
    ensures var first := CoreGenerate(systemPrompt, history, context, message, s.llm);
      GenerationLoop.NumericScore(CoreCheck(context, s)(message, first).score).None? ==>
        GenerationLoop.FinalText(CoreLoop(systemPrompt, history, context, message, s).1).None?
  {
    var generate := m => CoreGenerate(systemPrompt, history, context, m, s.llm);
    var enhance := (r, fb) => Quality.EnhancementPrompt(r, Quality.PyStr(fb, s.render));
    GenerationLoop.FirstVerdictDecides(GenerationLoop.OrchestratorPolicy, message, generate, CoreCheck(context, s), enhance);
  }

  /** Any text the orchestrator's loop returns, bar the closing apology, was generated on that context. */
  lemma CoreAnswerIsGenerated(systemPrompt: string, history: seq<LlmMessages.Message>, context: string, message: string,
                              s: CoreServices)
    ensures var text := GenerationLoop.FinalText(CoreLoop(systemPrompt, history, context, message, s).1);
      text.Some? && text.value != GenerationLoop.LoopApology ==>
        exists m :: text.value == CoreGenerate(systemPrompt, history, context, m, s.llm)
  {
    var generate := m => CoreGenerate(systemPrompt, history, context, m, s.llm);
    var enhance := (r, fb) => Quality.EnhancementPrompt(r, Quality.PyStr(fb, s.render));
    GenerationLoop.ResponseIsGenerated(GenerationLoop.OrchestratorPolicy, message, generate, CoreCheck(context, s), enhance);
  }

  /** `process_query`: retrieve and format, combine with the accumulated context, run the loop. */
  function ProcessQuery(message: string, conversationId: string, history: seq<LlmMessages.Message>,
                        accumulated: string, systemPrompt: string, s: CoreServices): (r: QueryResult)
    ensures var formatted := RagFormat.RetrieveAndFormat(s.adapterAvailable, s.retrieval).1;
      && r.ragContext == formatted
      && (r.ragContextUsed <==> formatted != "")
      && r.conversationId == conversationId && r.modelUsed == s.modelName
      && r.temperature == Settings.DefaultTemperature
    ensures r.response == GenerationLoop.FinalText(CoreLoop(systemPrompt, history, CombineContext(accumulated, r.ragContext), message, s).1)
  {
    var (_, formatted) := RagFormat.RetrieveAndFormat(s.adapterAvailable, s.retrieval);
    var full := CombineContext(accumulated, formatted);
    var (_, outcome) := CoreLoop(systemPrompt, history, full, message, s);
    QueryResult(GenerationLoop.FinalText(outcome), formatted, conversationId, formatted != "",
                s.modelName, Settings.DefaultTemperature)
  }

  /** With nothing retrieved the turn reports no context, even though the model saw the accumulated one. */
  lemma ReportedContextIsThisTurnOnly(message: string, conversationId: string, history: seq<LlmMessages.Message>,
                                      accumulated: string, systemPrompt: string, s: CoreServices)
    requires !s.adapterAvailable
    ensures var r := ProcessQuery(message, conversationId, history, accumulated, systemPrompt, s);
      r.ragContext == "" && !r.ragContextUsed
      && r.response == GenerationLoop.FinalText(CoreLoop(systemPrompt, history, accumulated, message, s).1)
  {
  }

  // ---------------------------------------------------------------------------
  // The older handler
  // ---------------------------------------------------------------------------

  /** The response dictionary of `_prepare_response`, without timing. */
  datatype HandlerResult = HandlerResult(
    response: Option<string>, ragContext: string, conversationId: string, category: string, ragContextUsed: bool)

  /** `_prepare_response`: format only a non-empty retrieval, always category "general". */
  function PrepareResponse(response: Option<string>, conversationId: string, raw: seq<RagFormat.Collection>)
    : (r: HandlerResult)
    ensures r.category == "general" && r.response == response && r.conversationId == conversationId
    ensures raw == [] ==> r.ragContext == ""
    ensures r.ragContextUsed <==> r.ragContext != ""
  {
    var formatted := if raw != [] then RagFormat.FormatContext(raw) else "";
    HandlerResult(response, formatted, conversationId, "general", formatted != "")
  }

  /** Skipping the formatter for an empty retrieval changes nothing: the text is always the formatted outline. */
  lemma PreparedContextIsFormatted(response: Option<string>, conversationId: string, raw: seq<RagFormat.Collection>)
    ensures PrepareResponse(response, conversationId, raw).ragContext == RagFormat.FormatContext(raw)
  {
  }

  /** The foreign services one handler turn uses. */
  datatype HandlerServices = HandlerServices(
    retrieval: RagFormat.RetrievalOutcome,
    proxy: LlmMessages.ProxyCall -> Option<Quality.Reply>,
    checkerError: string,
    loads: string -> Quality.LoadsResult,
    render: Quality.Json -> string)

  /** The retrieval parameters the older handler always uses. */
  const HandlerRagThreshold: real := 0.4
  const HandlerRagK: int := 5

  /** The strict loop the handler runs for one message on one context. */
  function HandlerLoop(p: GenerationLoop.Policy, message: string, historyLength: nat, basePrompt: string, context: string,
                       s: HandlerServices): (seq<GenerationLoop.Call>, GenerationLoop.Outcome)
  {
    GenerationLoop.QualityChecked(
      p, message,
      m => HandlerGenerate(basePrompt, historyLength, context, m, s.proxy),
      HandlerCheck(context, s),
      (resp, fb) => Quality.IndentedEnhancementPrompt(resp, Quality.PyStr(fb, s.render)))
  }

  /** The checker the handler's loop consults, on one context. */
  function HandlerCheck(context: string, s: HandlerServices): (string, string) -> Quality.Verdict {
    (q, resp) => Quality.CheckResponseQuality(s.proxy(Quality.HandlerCheckerCall(q, context, resp)), s.checkerError, s.loads)
  }

  /** On one context, a first draft that passes the handler's check is returned as it is. */
  lemma HandlerFirstDraftAccepted(p: GenerationLoop.Policy, message: string, historyLength: nat, basePrompt: string,
                                  context: string, s: HandlerServices)
    ensures var first := HandlerGenerate(basePrompt, historyLength, context, message, s.proxy);
      p.attempts >= 1 && GenerationLoop.Passes(p, HandlerCheck(context, s)(message, first).score) == Some(true) ==>
        GenerationLoop.FinalText(HandlerLoop(p, message, historyLength, basePrompt, context, s).1) == Some(first)
  {
    var generate := m => HandlerGenerate(basePrompt, historyLength, context, m, s.proxy);
    var enhance := (resp, fb) => Quality.IndentedEnhancementPrompt(resp, Quality.PyStr(fb, s.render));
    GenerationLoop.FirstVerdictDecides(p, message, generate, HandlerCheck(context, s), enhance);
  }

  /** On one context, a first score Python cannot compare with the threshold makes the handler's loop raise. */
  lemma HandlerScoreRaises(p: GenerationLoop.Policy, message: string, historyLength: nat, basePrompt: string,
                           context: string, s: HandlerServices)
    ensures var first := HandlerGenerate(basePrompt, historyLength, context, message, s.proxy);
      p.attempts >= 1 && GenerationLoop.Passes(p, HandlerCheck(context, s)(message, first).score).None? ==>
        GenerationLoop.FinalText(HandlerLoop(p, message, historyLength, basePrompt, context, s).1).None?
  {
    var generate := m => HandlerGenerate(basePrompt, historyLength, context, m, s.proxy);
    var enhance := (resp, fb) => Quality.IndentedEnhancementPrompt(resp, Quality.PyStr(fb, s.render));
    GenerationLoop.FirstVerdictDecides(p, message, generate, HandlerCheck(context, s), enhance);
  }

  /** Any text the handler's loop returns, bar the closing apology, was generated on that context. */
  lemma HandlerAnswerIsGenerated(p: GenerationLoop.Policy, message: string, historyLength: nat, basePrompt: string, context: string, s: HandlerServices)
    ensures var text := GenerationLoop.FinalText(HandlerLoop(p, message, historyLength, basePrompt, context, s).1);
      text.Some? && text.value != GenerationLoop.LoopApology ==>
        exists m :: text.value == HandlerGenerate(basePrompt, historyLength, context, m, s.proxy)
  {
    var generate := m => HandlerGenerate(basePrompt, historyLength, context, m, s.proxy);
    var enhance := (resp, fb) => Quality.IndentedEnhancementPrompt(resp, Quality.PyStr(fb, s.render));
    GenerationLoop.ResponseIsGenerated(p, message, generate, HandlerCheck(context, s), enhance);
  }

  /** `process_chat_request`: retrieve, run the strict loop on the formatted context, prepare the response. */
  function ProcessChatRequest(message: string, conversationId: string, historyLength: nat, basePrompt: string,
                              s: HandlerServices): (r: HandlerResult)
    ensures r.category == "general" && r.conversationId == conversationId
    ensures r.ragContext == RagFormat.FormatContext(RagFormat.RetrieveUtils(s.retrieval))
    ensures r.ragContextUsed <==> RagFormat.RetrieveUtils(s.retrieval) != []
    ensures r.response == GenerationLoop.FinalText(HandlerLoop(GenerationLoop.HandlerPolicy, message, historyLength, basePrompt, r.ragContext, s).1)
  {
    var raw := RagFormat.RetrieveUtils(s.retrieval);
    var context := if raw != [] then RagFormat.FormatContext(raw) else "";
    var loop := HandlerLoop(GenerationLoop.HandlerPolicy, message, historyLength, basePrompt, context, s);
    PreparedContextIsFormatted(GenerationLoop.FinalText(loop.1), conversationId, raw);
    PrepareResponse(GenerationLoop.FinalText(loop.1), conversationId, raw)
  }

  // ---------------------------------------------------------------------------
  // log_interaction
  // ---------------------------------------------------------------------------

  /** The dictionary `log_interaction` returns; None stands for the `{}` of the error path. */
  datatype LogSummary = LogSummary(
    anonymousId: string, conversationId: string, platform: string, isNewConversation: bool, userTotalConversations: nat)

  /** `message_count` of the conversation as `get_or_create_conversation` reads it: 0 for a new one. */
  function CountBefore(db: Store.Db, conversationId: string): int {
    match Store.FindConversation(db.conversations, conversationId)
    case Some(k) => db.conversations[k].messageCount
    case None => 0
  }

  /**
   * The database steps of `log_interaction`, parameterised by how
   * `is_new_conversation` is computed from the snapshot count. Each step
   * commits on its own, so a raise (`faultAt` 1 to 4: in the user lookup,
   * the conversation lookup, the query row or the response row) keeps the
   * steps before it and returns the `{}` of the error path; any other
   * `faultAt` is a run without a raise.
   */
  function LogWith(isNew: int -> bool, db: Store.Db, utln: string, conversationId: string, query: string, response: string,
                   platform: string, ragContext: Option<string>, modelName: string, responseTimeMs: Option<int>,
                   sha256: string -> string, candidates: seq<string>, render: real -> string, now: int, faultAt: nat)
    : (res: (Store.Db, Option<LogSummary>))
    ensures faultAt == 1 ==> res == (db, None)
    ensures db.messages <= res.0.messages
  {
    var (db1, lookup) := Store.GetOrCreateAnonymousUser(db, utln, sha256, candidates, now);
    if faultAt == 1 then (db, None)
    else
      match lookup
      case None => (db, None)
      case Some(UserLookup(user, count)) =>
        if faultAt == 2 then (db1, None)
        else
          var (db2, conv) := Store.GetOrCreateConversation(db1, conversationId, user.id, platform, now);
          if faultAt == 3 then (db2, None)
          else
            var db3 := Store.LogMessage(db2, conv.id, "query", query, None, None, None, render, None, now);
            if faultAt == 4 then (db3, None)
            else
              var db4 := Store.LogMessage(db3, conv.id, "response", response, ragContext, Some(modelName),
                                          Some(Settings.DefaultTemperature), render, responseTimeMs, now);
              (db4, Some(LogSummary(user.anonymousId, conversationId, platform, isNew(conv.messageCount), count)))
  }

  /**
   * What the log reports: a summary exactly when the user lookup returned and
   * nothing raised, and then the user's anonymous id, the new-conversation
   * test applied to the count read before this turn, the user's conversation
   * count, and two more message rows; a raise in the user lookup (or a lookup
   * that never returns) stores nothing.
   */
  lemma LogOutcome(isNew: int -> bool, db: Store.Db, utln: string, conversationId: string, query: string,
                   response: string, platform: string, ragContext: Option<string>, modelName: string,
                   responseTimeMs: Option<int>, sha256: string -> string, candidates: seq<string>,
                   render: real -> string, now: int, faultAt: nat)
    ensures var res := LogWith(isNew, db, utln, conversationId, query, response, platform, ragContext, modelName, responseTimeMs, sha256, candidates, render, now, faultAt);
      var lookup := Store.GetOrCreateAnonymousUser(db, utln, sha256, candidates, now).1;
      && (res.1.Some? <==> lookup.Some? && !(1 <= faultAt <= 4))
      && (faultAt == 1 || lookup.None? ==> res == (db, None))
      && (res.1.Some? ==>
            && res.1.value == LogSummary(lookup.value.user.anonymousId, conversationId, platform,
                                         isNew(CountBefore(db, conversationId)), lookup.value.conversationCount)
            && |res.0.messages| == |db.messages| + 2)
  {
  }

  /** What a raise leaves committed: nothing before the conversation exists, then only the query row. */
  lemma LogCommitsEachStep(isNew: int -> bool, db: Store.Db, utln: string, conversationId: string, query: string,
                           response: string, platform: string, ragContext: Option<string>, modelName: string,
                           responseTimeMs: Option<int>, sha256: string -> string, candidates: seq<string>,
                           render: real -> string, now: int, faultAt: nat)
    ensures var res := LogWith(isNew, db, utln, conversationId, query, response, platform, ragContext, modelName, responseTimeMs, sha256, candidates, render, now, faultAt);
      && (1 <= faultAt <= 3 ==> res.0.messages == db.messages)
      && (faultAt == 4 && res.0 != db ==> |res.0.messages| == |db.messages| + 1)
  {
  }

  /** The logged rows are this turn's query and response, both pointing at the row that carries `conversationId`. */
  lemma LogRowsPointAtConversation(isNew: int -> bool, db: Store.Db, utln: string, conversationId: string, query: string,
                                   response: string, platform: string, ragContext: Option<string>, modelName: string,
                                   responseTimeMs: Option<int>, sha256: string -> string, candidates: seq<string>,
                                   render: real -> string, now: int, faultAt: nat)
    ensures var res := LogWith(isNew, db, utln, conversationId, query, response, platform, ragContext, modelName, responseTimeMs, sha256, candidates, render, now, faultAt);
      && (|res.0.messages| > |db.messages| ==>
            var conv := res.0.messages[|db.messages|].conversationRowId;
            && Store.FindConversation(res.0.conversations, conversationId).Some?
            && res.0.conversations[Store.FindConversation(res.0.conversations, conversationId).value].id == conv
            && res.0.messages[|db.messages|] == Store.MessageRow(conv, "query", query, None, None, None, None))
      && (|res.0.messages| == |db.messages| + 2 ==>
            res.0.messages[|db.messages| + 1] == Store.MessageRow(res.0.messages[|db.messages|].conversationRowId, "response",
              response, ragContext, Some(modelName), Store.StoredTemperature(Some(Settings.DefaultTemperature), render),
              responseTimeMs))
  {
    var (db1, lookup) := Store.GetOrCreateAnonymousUser(db, utln, sha256, candidates, now);
    if faultAt != 1 && lookup.Some? && faultAt != 2 && faultAt != 3 {
      var (db2, conv) := Store.GetOrCreateConversation(db1, conversationId, lookup.value.user.id, platform, now);
      var db3 := Store.LogMessage(db2, conv.id, "query", query, None, None, None, render, None, now);
      Store.LogMessageKeepsLookup(db2, conv.id, "query", query, None, None, None, render, None, now, conversationId);
      if faultAt != 4 {
        Store.LogMessageKeepsLookup(db3, conv.id, "response", response, ragContext, Some(modelName),
                                    Some(Settings.DefaultTemperature), render, responseTimeMs, now, conversationId);
      }
    }
  }

  /** `is_new_conversation` as written: `message_count <= 2` on the count read before this turn's two messages. */
  function IsNewAsWritten(snapshotCount: int): bool {
    snapshotCount <= 2
  }

  /** The intended test on the snapshot count: no message logged yet. */
  function IsNewCorrected(snapshotCount: int): bool {
    snapshotCount == 0
  }

  /** `log_interaction` as written; the chat routes log their turns through this one. */
  function LogInteractionAsWritten(db: Store.Db, utln: string, conversationId: string, query: string, response: string,
                                   platform: string, ragContext: Option<string>, modelName: string, responseTimeMs: Option<int>,
                                   sha256: string -> string, candidates: seq<string>, render: real -> string, now: int, faultAt: nat)
    : (res: (Store.Db, Option<LogSummary>))
    ensures faultAt == 1 ==> res == (db, None)
  {
    LogWith(IsNewAsWritten, db, utln, conversationId, query, response, platform, ragContext, modelName,
            responseTimeMs, sha256, candidates, render, now, faultAt)
  }

  /** `log_interaction` with the intended `== 0` test; the chat routes call the as-written one above. */
  function LogInteraction(db: Store.Db, utln: string, conversationId: string, query: string, response: string,
                          platform: string, ragContext: Option<string>, modelName: string, responseTimeMs: Option<int>,
                          sha256: string -> string, candidates: seq<string>, render: real -> string, now: int, faultAt: nat)
    : (res: (Store.Db, Option<LogSummary>))
    ensures faultAt == 1 ==> res == (db, None)
  {
    LogWith(IsNewCorrected, db, utln, conversationId, query, response, platform, ragContext, modelName,
            responseTimeMs, sha256, candidates, render, now, faultAt)
  }

  /** Every stored conversation has at least one logged message: true when conversations are only created by logging. */
  predicate EveryConversationLogged(db: Store.Db) {
    forall i :: 0 <= i < |db.conversations| ==> db.conversations[i].messageCount > 0
  }

  /** Logging a message into row `rowId` leaves every conversation non-empty if only that row could have been empty. */
  lemma LogMessageFillsRow(db: Store.Db, rowId: nat, messageType: string, content: string, ragContext: Option<string>,
                           modelUsed: Option<string>, temperature: Option<real>, render: real -> string,
                           responseTimeMs: Option<int>, now: int)
    requires forall i :: 0 <= i < |db.conversations| ==>
      db.conversations[i].messageCount > 0 || (db.conversations[i].id == rowId && db.conversations[i].messageCount == 0)
    ensures EveryConversationLogged(Store.LogMessage(db, rowId, messageType, content, ragContext, modelUsed, temperature,
                                                     render, responseTimeMs, now))
  {
    var db' := Store.LogMessage(db, rowId, messageType, content, ragContext, modelUsed, temperature, render, responseTimeMs, now);
    forall i | 0 <= i < |db'.conversations|
      ensures db'.conversations[i].messageCount > 0
    {
      if db.conversations[i].id != rowId {
        assert db'.conversations[i] == db.conversations[i];
      }
    }
  }

  /**
   * Logging a turn keeps every stored conversation non-empty, unless it
   * raises between creating the conversation and logging the query.
   */
  lemma LogKeepsConversationsLogged(isNew: int -> bool, db: Store.Db, utln: string, conversationId: string, query: string,
                                    response: string, platform: string, ragContext: Option<string>, modelName: string,
                                    responseTimeMs: Option<int>, sha256: string -> string, candidates: seq<string>,
                                    render: real -> string, now: int, faultAt: nat)
    requires EveryConversationLogged(db)
    ensures faultAt != 3 ==>
      EveryConversationLogged(LogWith(isNew, db, utln, conversationId, query, response, platform, ragContext,
                                      modelName, responseTimeMs, sha256, candidates, render, now, faultAt).0)
  {
    var (db1, lookup) := Store.GetOrCreateAnonymousUser(db, utln, sha256, candidates, now);
    if faultAt != 1 && faultAt != 2 && faultAt != 3 && lookup.Some? {
      var (db2, conv) := Store.GetOrCreateConversation(db1, conversationId, lookup.value.user.id, platform, now);
      forall i | 0 <= i < |db2.conversations|
        ensures db2.conversations[i].messageCount > 0 || (db2.conversations[i].id == conv.id && db2.conversations[i].messageCount == 0)
      {
        if i >= |db1.conversations| {
          assert db2.conversations[i] == conv;
        }
      }
      LogMessageFillsRow(db2, conv.id, "query", query, None, None, None, render, None, now);
      var db3 := Store.LogMessage(db2, conv.id, "query", query, None, None, None, render, None, now);
      LogMessageFillsRow(db3, conv.id, "response", response, ragContext, Some(modelName),
                         Some(Settings.DefaultTemperature), render, responseTimeMs, now);
    }
  }

  /**
   * A raise right after the conversation is created leaves it stored with no
   * message, so a later first turn in it is read with count 0.
   */
  lemma FaultAfterConversationLeavesItEmpty(utln: string, anonymousId: string, conversationId: string,
                                            sha256: string -> string, render: real -> string)
    ensures var db := LogInteraction(Store.Db([], [], []), utln, conversationId, "q", "r", "web", None, "m", None,
                                     sha256, [anonymousId], render, 0, 3).0;
      && |db.conversations| == 1 && db.conversations[0].conversationId == conversationId
      && db.conversations[0].messageCount == 0 && db.messages == []
  {
    assert Store.FindUserByHash([], sha256(utln)).None?;
    assert Store.FirstFreeId([anonymousId], []) == Some(anonymousId);
  }

  /** With the corrected test a turn is reported new exactly when its conversation did not exist before it. */
  lemma CorrectedIsNewMeansFirstTurn(db: Store.Db, utln: string, conversationId: string, query: string, response: string,
                                     platform: string, ragContext: Option<string>, modelName: string, responseTimeMs: Option<int>,
                                     sha256: string -> string, candidates: seq<string>, render: real -> string, now: int)
    requires EveryConversationLogged(db)
    ensures var res := LogInteraction(db, utln, conversationId, query, response, platform, ragContext, modelName,
                                      responseTimeMs, sha256, candidates, render, now, 0);
      res.1.Some? ==> (res.1.value.isNewConversation <==> Store.FindConversation(db.conversations, conversationId).None?)
  {
    LogOutcome(IsNewCorrected, db, utln, conversationId, query, response, platform, ragContext, modelName,
               responseTimeMs, sha256, candidates, render, now, 0);
    match Store.FindConversation(db.conversations, conversationId)
    case Some(k) =>
      assert db.conversations[k].messageCount > 0;
    case None =>
  }

  /**
   * The as-written test misreports the second turn: a conversation whose
   * first turn was logged holds 2 messages, and `2 <= 2` reports it new.
   */
  lemma SecondTurnReportedNew(utln: string, anonymousId: string, conversationId: string, sha256: string -> string,
                              render: real -> string)
    ensures
      var db0 := Store.Db([], [], []);
      var (db1, first) := LogInteractionAsWritten(db0, utln, conversationId, "q1", "r1", "web", None, "m", None,
                                                  sha256, [anonymousId], render, 0, 0);
      var (db2, second) := LogInteractionAsWritten(db1, utln, conversationId, "q2", "r2", "web", None, "m", None,
                                                   sha256, [anonymousId], render, 1, 0);
      && first.Some? && first.value.isNewConversation
      && second.Some? && second.value.isNewConversation
      && Store.FindConversation(db1.conversations, conversationId).Some?
  {
    var db0 := Store.Db([], [], []);
    var h := sha256(utln);
    var u := Store.User(1, h, anonymousId, 0);
    assert Store.FindUserByHash([], h).None?;
    assert Store.FirstFreeId([anonymousId], []) == Some(anonymousId);
    var c := Store.Conversation(1, conversationId, 1, "web", 0, 0);
    var (db1, first) := LogInteractionAsWritten(db0, utln, conversationId, "q1", "r1", "web", None, "m", None,
                                                sha256, [anonymousId], render, 0, 0);
    assert db1.users == [u];
    assert |db1.conversations| == 1 && db1.conversations[0].conversationId == conversationId;
    assert db1.conversations[0].id == 1;
    assert db1.conversations[0].messageCount == 2;
    assert Store.FindUserByHash(db1.users, h) == Some(0);
    assert Store.FindConversation(db1.conversations, conversationId) == Some(0);
  }
}
