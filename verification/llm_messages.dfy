/**
 * Message-list shaping for the language-model providers: the shared
 * `format_messages` helper (adapters/llm/base.py) and the request each
 * adapter builds from an OpenAI-style message list before calling its SDK
 * (Gemini, Anthropic, OpenAI and the NatLab proxy). The SDK and HTTP calls
 * are parameters; only what is sent and how replies and failures are mapped
 * is modelled.
 */
module LlmMessages {
  import opened Common

  /** One chat message `{"role": ..., "content": ...}`. */
  datatype Message = Message(role: string, content: string)

  /** How an adapter call ends: a value, or the exception it raises. */
  datatype ErrorKind = RuntimeError | ValueError
  datatype Outcome<T> = Ok(value: T) | Raise(kind: ErrorKind, message: string)

  /** What a foreign call (SDK or HTTP) does: returns, or raises with a message. */
  datatype SdkResult<T> = SdkOk(value: T) | SdkError(message: string)

  /** Python truthiness of an optional string. */
  predicate Given(s: Option<string>) {
    s.Some? && s.value != ""
  }

  // ---------------------------------------------------------------------------
  // format_messages
  // ---------------------------------------------------------------------------

  /** The history with every `system` entry removed, order kept. */
  function NonSystem(history: seq<Message>): (r: seq<Message>)
    ensures |r| <= |history|
    ensures forall i :: 0 <= i < |r| ==> r[i].role != "system"
  {
    if history == [] then []
    else
      var last := history[|history| - 1];
      NonSystem(history[..|history| - 1]) + (if last.role != "system" then [last] else [])
  }

  /** The filter distributes over concatenation, so it keeps relative order. */
  lemma {:induction false} NonSystemAppend(a: seq<Message>, b: seq<Message>)
    ensures NonSystem(a + b) == NonSystem(a) + NonSystem(b)
    decreases |b|
  {
    if b == [] {
      assert a + b == a;
    } else {
      var b' := b[..|b| - 1];
      assert (a + b)[..|a + b| - 1] == a + b';
      NonSystemAppend(a, b');
    }
  }

  /** Exactly the non-system messages survive. */
  lemma {:induction false} NonSystemMembers(history: seq<Message>, m: Message)
    ensures m in NonSystem(history) <==> m in history && m.role != "system"
  {
    if history != [] {
      var front := history[..|history| - 1];
      NonSystemMembers(front, m);
      assert history == front + [history[|history| - 1]];
    }
  }

  /**
   * `format_messages(query, system_prompt, conversation_history)`: the
   * optional system prompt, then the history without system entries, then
   * the query as a user message.
   */
  function FormatMessages(query: string, systemPrompt: Option<string>, history: Option<seq<Message>>): (r: seq<Message>)
    ensures var kept := if history.Some? then NonSystem(history.value) else [];
      && |r| == (if Given(systemPrompt) then 1 else 0) + |kept| + 1
      && r[|r| - 1] == Message("user", query)
      && r[(if Given(systemPrompt) then 1 else 0)..|r| - 1] == kept
    ensures Given(systemPrompt) ==> r[0] == Message("system", systemPrompt.value)
    ensures r[0].role == "system" <==> Given(systemPrompt)
    ensures forall i :: 1 <= i < |r| ==> r[i].role != "system"
  {
    var head := if Given(systemPrompt) then [Message("system", systemPrompt.value)] else [];
    var kept := if history.Some? then NonSystem(history.value) else [];
    head + kept + [Message("user", query)]
  }

  // ---------------------------------------------------------------------------
  // System-prompt extraction shared by the adapters
  // ---------------------------------------------------------------------------

  /**
   * The loop `if role == 'system' and not extracted: extracted = content`
   * over a prefix: the caller's prompt when given, otherwise the system
   * contents seen so far until one is non-empty.
   */
  function ExtractSystem(systemPrompt: Option<string>, messages: seq<Message>): Option<string> {
    if messages == [] then systemPrompt
    else
      var e := ExtractSystem(systemPrompt, messages[..|messages| - 1]);
      var last := messages[|messages| - 1];
      if last.role == "system" && !Given(e) then Some(last.content) else e
  }

  predicate HasSystem(messages: seq<Message>) {
    exists i :: 0 <= i < |messages| && messages[i].role == "system"
  }

  /** Index of the first system message with non-empty content, if any. */
  function FirstNonEmptySystem(messages: seq<Message>): (r: Option<nat>)
    ensures r.Some? ==> r.value < |messages| && messages[r.value].role == "system" && messages[r.value].content != ""
    ensures r.Some? ==> forall j :: 0 <= j < r.value ==> !(messages[j].role == "system" && messages[j].content != "")
    ensures r.None? ==> forall j :: 0 <= j < |messages| ==> !(messages[j].role == "system" && messages[j].content != "")
  {
    if messages == [] then None
    else
      var n := |messages| - 1;
      var front := messages[..n];
      assert forall j :: 0 <= j < n ==> front[j] == messages[j];
      match FirstNonEmptySystem(front)
      case Some(k) => Some(k)
      case None => if messages[n].role == "system" && messages[n].content != "" then Some(n) else None
  }

  lemma FirstNonEmptySystemSnoc(front: seq<Message>, last: Message)
    ensures FirstNonEmptySystem(front + [last]) ==
      if FirstNonEmptySystem(front).Some? then FirstNonEmptySystem(front)
      else if last.role == "system" && last.content != "" then Some(|front|)
      else None
  {
    assert (front + [last])[..|front|] == front;
  }

  lemma HasSystemSnoc(front: seq<Message>, last: Message)
    ensures HasSystem(front + [last]) <==> HasSystem(front) || last.role == "system"
  {
    var m := front + [last];
    assert forall i :: 0 <= i < |front| ==> m[i] == front[i];
    assert m[|front|] == last;
  }

  /**
   * The extraction's meaning: a given prompt wins; otherwise the first
   * non-empty system content; otherwise "" when some (empty) system message
   * exists; otherwise the caller's value.
   */
  lemma {:induction false} ExtractSystemMeaning(systemPrompt: Option<string>, messages: seq<Message>)
    ensures Given(systemPrompt) ==> ExtractSystem(systemPrompt, messages) == systemPrompt
    ensures !Given(systemPrompt) && FirstNonEmptySystem(messages).Some? ==>
      ExtractSystem(systemPrompt, messages) == Some(messages[FirstNonEmptySystem(messages).value].content)
    ensures !Given(systemPrompt) && FirstNonEmptySystem(messages).None? && HasSystem(messages) ==>
      ExtractSystem(systemPrompt, messages) == Some("")
    ensures !Given(systemPrompt) && !HasSystem(messages) ==>
      ExtractSystem(systemPrompt, messages) == systemPrompt
  {
    if messages != [] {
      var n := |messages| - 1;
      var front, last := messages[..n], messages[n];
      assert messages == front + [last];
      ExtractSystemMeaning(systemPrompt, front);
      FirstNonEmptySystemSnoc(front, last);
      HasSystemSnoc(front, last);
      var f := FirstNonEmptySystem(front);
      if f.Some? {
        assert messages[f.value] == front[f.value];
      }
    }
  }

  /** Content of the last user message, if any. */
  function LastUserContent(messages: seq<Message>): (r: Option<string>)
    ensures r.None? <==> forall i :: 0 <= i < |messages| ==> messages[i].role != "user"
  {
    if messages == [] then None
    else if messages[|messages| - 1].role == "user" then Some(messages[|messages| - 1].content)
    else
      var front := messages[..|messages| - 1];
      var r := LastUserContent(front);
      assert forall i :: 0 <= i < |front| ==> front[i] == messages[i];
      r
  }

  /** Index of the first system message, if any. */
  function FirstSystem(messages: seq<Message>): (r: Option<nat>)
    ensures r.Some? ==> r.value < |messages| && messages[r.value].role == "system"
    ensures r.Some? ==> forall j :: 0 <= j < r.value ==> messages[j].role != "system"
    ensures r.None? <==> !HasSystem(messages)
  {
    if messages == [] then None
    else if messages[0].role == "system" then Some(0)
    else match FirstSystem(messages[1..])
      case Some(k) => Some(k + 1)
      case None =>
        assert forall i :: 1 <= i < |messages| ==> messages[i] == messages[1..][i - 1];
        None
  }

  /** Content of the first system message, if any (NatLab keeps it even when empty). */
  function FirstSystemContent(messages: seq<Message>): Option<string> {
    match FirstSystem(messages)
    case Some(i) => Some(messages[i].content)
    case None => None
  }

  // ---------------------------------------------------------------------------
  // Gemini
  // ---------------------------------------------------------------------------

  const GeminiDefaultModel: string := "gemini-1.5-flash"

  /** A Gemini history entry `{'role': ..., 'parts': [content]}`. */
  datatype GeminiTurn = GeminiTurn(role: string, parts: seq<string>)

  /** The role conversion of the loop over a prefix: user stays user, assistant becomes model, the rest is dropped. */
  function GeminiTurns(messages: seq<Message>): (h: seq<GeminiTurn>)
    ensures |h| <= |messages|
    ensures forall i :: 0 <= i < |h| ==> (h[i].role == "user" || h[i].role == "model") && |h[i].parts| == 1
  {
    if messages == [] then []
    else
      var last := messages[|messages| - 1];
      var front := GeminiTurns(messages[..|messages| - 1]);
      if last.role == "user" then front + [GeminiTurn("user", [last.content])]
      else if last.role == "assistant" then front + [GeminiTurn("model", [last.content])]
      else front
  }

  /** A converted history ends with a user turn exactly when the last user or assistant message is a user message. */
  lemma {:induction false} GeminiTurnsLast(messages: seq<Message>)
    ensures GeminiTurns(messages) != [] && GeminiTurns(messages)[|GeminiTurns(messages)| - 1].role == "user" ==>
      LastUserContent(messages).Some? &&
      GeminiTurns(messages)[|GeminiTurns(messages)| - 1].parts == [LastUserContent(messages).value]
  {
    if messages != [] {
      GeminiTurnsLast(messages[..|messages| - 1]);
    }
  }

  /** `_convert_messages_to_gemini_format`: (history, system instruction, user query). */
  function ConvertToGemini(messages: seq<Message>, systemPrompt: Option<string>): (r: (seq<GeminiTurn>, Option<string>, string))
    ensures var turns := GeminiTurns(messages);
      if turns != [] && turns[|turns| - 1].role == "user" then r.0 == turns[..|turns| - 1] else r.0 == turns
    ensures r.1 == ExtractSystem(systemPrompt, messages)
    ensures r.2 == (match LastUserContent(messages) case Some(c) => c case None => "")
  {
    var turns := GeminiTurns(messages);
    var history := if turns != [] && turns[|turns| - 1].role == "user" then turns[..|turns| - 1] else turns;
    var query := match LastUserContent(messages) case Some(c) => c case None => "";
    (history, ExtractSystem(systemPrompt, messages), query)
  }

  /** The query sent is the message whose turn was removed from the history. */
  lemma GeminiQueryIsRemovedTurn(messages: seq<Message>, systemPrompt: Option<string>)
    ensures var turns := GeminiTurns(messages);
      turns != [] && turns[|turns| - 1].role == "user" ==>
        && |ConvertToGemini(messages, systemPrompt).0| == |turns| - 1
        && turns[|turns| - 1].parts == [ConvertToGemini(messages, systemPrompt).2]
  {
    GeminiTurnsLast(messages);
  }

  datatype GeminiRequest = GeminiRequest(
    model: string, systemInstruction: Option<string>, temperature: real,
    maxOutputTokens: Option<int>, history: seq<GeminiTurn>, query: string)

  /** `GeminiAdapter.generate`. */
  function GeminiGenerate(configured: bool, messages: seq<Message>, model: Option<string>, temperature: real,
                          maxTokens: Option<int>, systemPrompt: Option<string>,
                          sdk: GeminiRequest -> SdkResult<string>): (r: Outcome<string>)
    ensures !configured ==> r.Raise? && r.kind == RuntimeError
    ensures configured ==>
      var req := GeminiRequest(
        if Given(model) then model.value else GeminiDefaultModel,
        ConvertToGemini(messages, systemPrompt).1, temperature,
        if maxTokens.Some? && maxTokens.value != 0 then maxTokens else None,
        ConvertToGemini(messages, systemPrompt).0, ConvertToGemini(messages, systemPrompt).2);
      (sdk(req).SdkOk? ==> r == Ok(sdk(req).value))
      && (sdk(req).SdkError? ==> r == Raise(RuntimeError, "Gemini API error: " + sdk(req).message))
  {
    if !configured then
      Raise(RuntimeError, ("Gemini client not initialized. " + "Check API key and google-generativeai " + "package."))
    else
      var (history, system, query) := ConvertToGemini(messages, systemPrompt);
      var req := GeminiRequest(
        if Given(model) then model.value else GeminiDefaultModel, system, temperature,
        if maxTokens.Some? && maxTokens.value != 0 then maxTokens else None, history, query);
      match sdk(req)
      case SdkOk(text) => Ok(text)
      case SdkError(e) => Raise(RuntimeError, "Gemini API error: " + e)
  }

  // ---------------------------------------------------------------------------
  // Anthropic
  // ---------------------------------------------------------------------------

  const AnthropicDefaultModel: string := "claude-3-5-sonnet-20241022"
  const AnthropicDefaultMaxTokens: int := 4096

  datatype AnthropicRequest = AnthropicRequest(
    model: string, maxTokens: int, system: string, messages: seq<Message>, temperature: real)

  /** A content block of the reply; only some carry text. */
  datatype ContentBlock = TextBlock(text: string) | OtherBlock

  /** `"".join(block.text for block in content if hasattr(block, 'text'))` */
  function JoinText(blocks: seq<ContentBlock>): string {
    if blocks == [] then ""
    else
      var last := blocks[|blocks| - 1];
      JoinText(blocks[..|blocks| - 1]) + (if last.TextBlock? then last.text else "")
  }

  /** Joining distributes over concatenation of block lists. */
  lemma {:induction false} JoinTextAppend(a: seq<ContentBlock>, b: seq<ContentBlock>)
    ensures JoinText(a + b) == JoinText(a) + JoinText(b)
    decreases |b|
  {
    if b == [] {
      assert a + b == a;
    } else {
      var b' := b[..|b| - 1];
      assert (a + b)[..|a + b| - 1] == a + b';
      JoinTextAppend(a, b');
    }
  }

  /** Blocks without text contribute nothing. */
  lemma JoinTextSkipsOthers(a: seq<ContentBlock>, b: seq<ContentBlock>)
    ensures JoinText(a + [OtherBlock] + b) == JoinText(a + b)
  {
    JoinTextAppend(a + [OtherBlock], b);
    JoinTextAppend(a, b);
    assert (a + [OtherBlock])[..|a + [OtherBlock]| - 1] == a;
  }

  /** The request `AnthropicAdapter.generate` sends. */
  function AnthropicRequestFor(messages: seq<Message>, model: Option<string>, temperature: real,
                               maxTokens: Option<int>, systemPrompt: Option<string>): (req: AnthropicRequest)
    ensures req.maxTokens == (if maxTokens.Some? && maxTokens.value != 0 then maxTokens.value else AnthropicDefaultMaxTokens)
    ensures req.messages == NonSystem(messages)
    ensures Given(systemPrompt) ==> req.system == systemPrompt.value
    ensures !Given(systemPrompt) ==>
      req.system == (match FirstNonEmptySystem(messages) case Some(i) => messages[i].content case None => "")
  {
    ExtractSystemMeaning(systemPrompt, messages);
    var e := ExtractSystem(systemPrompt, messages);
    AnthropicRequest(
      if Given(model) then model.value else AnthropicDefaultModel,
      if maxTokens.Some? && maxTokens.value != 0 then maxTokens.value else AnthropicDefaultMaxTokens,
      if Given(e) then e.value else "",
      NonSystem(messages), temperature)
  }

  /** `AnthropicAdapter.generate`. */
  function AnthropicGenerate(configured: bool, messages: seq<Message>, model: Option<string>, temperature: real,
                             maxTokens: Option<int>, systemPrompt: Option<string>,
                             sdk: AnthropicRequest -> SdkResult<seq<ContentBlock>>): (r: Outcome<string>)
    ensures !configured ==> r.Raise? && r.kind == RuntimeError
    ensures configured ==>
      var req := AnthropicRequestFor(messages, model, temperature, maxTokens, systemPrompt);
      (sdk(req).SdkOk? ==> r == Ok(JoinText(sdk(req).value)))
      && (sdk(req).SdkError? ==> r == Raise(RuntimeError, "Anthropic API error: " + sdk(req).message))
  {
    if !configured then
      Raise(RuntimeError, ("Anthropic client not initialized. " + "Check API key and anthropic " + "package."))
    else
      match sdk(AnthropicRequestFor(messages, model, temperature, maxTokens, systemPrompt))
      case SdkOk(blocks) => Ok(JoinText(blocks))
      case SdkError(e) => Raise(RuntimeError, "Anthropic API error: " + e)
  }

  // ---------------------------------------------------------------------------
  // OpenAI
  // ---------------------------------------------------------------------------

  const OpenAIDefaultModel: string := "gpt-4o-mini"

  /** The message list `OpenAIAdapter.generate` sends: a copy, with the prompt prepended only when none is present. */
  function OpenAIMessages(messages: seq<Message>, systemPrompt: Option<string>): (r: seq<Message>)
    ensures Given(systemPrompt) && !HasSystem(messages) ==> r == [Message("system", systemPrompt.value)] + messages
    ensures !(Given(systemPrompt) && !HasSystem(messages)) ==> r == messages
    ensures HasSystem(r) <==> HasSystem(messages) || Given(systemPrompt)
  {
    if Given(systemPrompt) && !HasSystem(messages) then
      var r := [Message("system", systemPrompt.value)] + messages;
      assert r[0].role == "system";
      r
    else messages
  }

  /** Applying the insertion twice adds nothing more. */
  lemma OpenAIMessagesIdempotent(messages: seq<Message>, systemPrompt: Option<string>)
    ensures OpenAIMessages(OpenAIMessages(messages, systemPrompt), systemPrompt) == OpenAIMessages(messages, systemPrompt)
  {
  }

  datatype OpenAIRequest = OpenAIRequest(model: string, messages: seq<Message>, temperature: real, maxTokens: Option<int>)

  /** `OpenAIAdapter.generate`: a reply whose content is None becomes "". */
  function OpenAIGenerate(configured: bool, messages: seq<Message>, model: Option<string>, temperature: real,
                          maxTokens: Option<int>, systemPrompt: Option<string>,
                          sdk: OpenAIRequest -> SdkResult<Option<string>>): (r: Outcome<string>)
    ensures !configured ==> r.Raise? && r.kind == RuntimeError
    ensures configured ==>
      var req := OpenAIRequest(if Given(model) then model.value else OpenAIDefaultModel,
                               OpenAIMessages(messages, systemPrompt), temperature, maxTokens);
      (sdk(req).SdkOk? && sdk(req).value.Some? ==> r == Ok(sdk(req).value.value))
      && (sdk(req).SdkOk? && sdk(req).value.None? ==> r == Ok(""))
      && (sdk(req).SdkError? ==> r == Raise(RuntimeError, "OpenAI API error: " + sdk(req).message))
  {
    if !configured then
      Raise(RuntimeError, ("OpenAI client not initialized. " + "Check API key and openai " + "package."))
    else
      var req := OpenAIRequest(if Given(model) then model.value else OpenAIDefaultModel,
                               OpenAIMessages(messages, systemPrompt), temperature, maxTokens);
      match sdk(req)
      case SdkOk(Some(text)) => Ok(text)
      case SdkOk(None) => Ok("")
      case SdkError(e) => Raise(RuntimeError, "OpenAI API error: " + e)
  }

  // ---------------------------------------------------------------------------
  // NatLab proxy
  // ---------------------------------------------------------------------------

  const NatLabDefaultModel: string := "4o-mini"

  /** What reading one candidate config file gives: unreadable (absent, not JSON, I/O error) or its two fields. */
  datatype ConfigFile = Unreadable | ConfigFile(apiKey: Option<string>, endPoint: Option<string>)

  datatype Credentials = Credentials(apiKey: string, endPoint: string)

  /**
   * `_load_config`'s loop over the candidate files: each readable file
   * overwrites both values, and the loop stops at the first file that gives
   * both. `key`, `endpoint` are the values before the remaining files.
   */
  function ConfigLoop(key: Option<string>, endpoint: Option<string>, files: seq<ConfigFile>): (Option<string>, Option<string>)
    decreases |files|
  {
    if files == [] then (key, endpoint)
    else match files[0]
      case Unreadable => ConfigLoop(key, endpoint, files[1..])
      case ConfigFile(k, e) => if Given(k) && Given(e) then (k, e) else ConfigLoop(k, e, files[1..])
  }

  const ConfigMissingMessage: string :=
    ("NatLab configuration not " + "found. Set NATLAB_API_KEY " + "and NATLAB_ENDPOINT environment " + "variables, or provide a " + "config.json file.")

  /** `_load_config`: environment first, then the files; ValueError when neither yields both values. */
  function LoadConfig(envKey: Option<string>, envEndpoint: Option<string>, files: seq<ConfigFile>): (r: Outcome<Credentials>)
    ensures Given(envKey) && Given(envEndpoint) ==> r == Ok(Credentials(envKey.value, envEndpoint.value))
    ensures r.Raise? ==> r.kind == ValueError
  {
    if Given(envKey) && Given(envEndpoint) then Ok(Credentials(envKey.value, envEndpoint.value))
    else
      var (k, e) := ConfigLoop(envKey, envEndpoint, files);
      if Given(k) && Given(e) then Ok(Credentials(k.value, e.value))
      else Raise(ValueError, ConfigMissingMessage)
  }

  predicate Qualifies(f: ConfigFile) {
    f.ConfigFile? && Given(f.apiKey) && Given(f.endPoint)
  }

  /** Index of the first file giving both values, if any. */
  function FirstQualifying(files: seq<ConfigFile>): (r: Option<nat>)
    ensures r.Some? ==> r.value < |files| && Qualifies(files[r.value]) && forall j :: 0 <= j < r.value ==> !Qualifies(files[j])
    ensures r.None? ==> forall j :: 0 <= j < |files| ==> !Qualifies(files[j])
  {
    if files == [] then None
    else if Qualifies(files[0]) then Some(0)
    else match FirstQualifying(files[1..])
      case Some(k) => Some(k + 1)
      case None => None
  }

  /** The loop ends holding both values only when some file qualifies, and then it holds the first such file's values. */
  lemma {:induction false} ConfigLoopFindsFirst(key: Option<string>, endpoint: Option<string>, files: seq<ConfigFile>)
    requires !(Given(key) && Given(endpoint))
    ensures var (k, e) := ConfigLoop(key, endpoint, files);
      && (FirstQualifying(files).Some? ==>
            k == files[FirstQualifying(files).value].apiKey && e == files[FirstQualifying(files).value].endPoint)
      && (FirstQualifying(files).None? ==> !(Given(k) && Given(e)))
    decreases |files|
  {
    if files != [] {
      match files[0]
      case Unreadable =>
        ConfigLoopFindsFirst(key, endpoint, files[1..]);
      case ConfigFile(k, e) =>
        if !(Given(k) && Given(e)) {
          ConfigLoopFindsFirst(k, e, files[1..]);
        }
    }
  }

  /** Configuration precedence: both environment values, else the first qualifying file, else ValueError. */
  lemma LoadConfigPrecedence(envKey: Option<string>, envEndpoint: Option<string>, files: seq<ConfigFile>)
    ensures !(Given(envKey) && Given(envEndpoint)) && FirstQualifying(files).Some? ==>
      var f := files[FirstQualifying(files).value];
      LoadConfig(envKey, envEndpoint, files) == Ok(Credentials(f.apiKey.value, f.endPoint.value))
    ensures !(Given(envKey) && Given(envEndpoint)) && FirstQualifying(files).None? ==>
      LoadConfig(envKey, envEndpoint, files).Raise?
  {
    if !(Given(envKey) && Given(envEndpoint)) {
      ConfigLoopFindsFirst(envKey, envEndpoint, files);
    }
  }

  /** Optional keyword arguments of `generate` that reach the request body. */
  datatype NatLabOptions = NatLabOptions(
    lastk: Option<int>, sessionId: Option<string>, ragThreshold: Option<real>, ragUsage: Option<bool>, ragK: Option<int>)

  datatype NatLabRequest = NatLabRequest(
    model: string, system: string, query: string, temperature: real,
    lastk: int, sessionId: Option<string>, ragThreshold: real, ragUsage: bool, ragK: int)

  /** The body `NatLabAdapter.generate` posts: one system text and one query, no earlier turns. */
  function NatLabRequestFor(messages: seq<Message>, model: Option<string>, temperature: real,
                            systemPrompt: Option<string>, options: NatLabOptions): (req: NatLabRequest)
    ensures systemPrompt.Some? ==> req.system == systemPrompt.value
    ensures systemPrompt.None? ==> req.system == (match FirstSystemContent(messages) case Some(c) => c case None => "")
    ensures req.query == (match LastUserContent(messages) case Some(c) => c case None => "")
    ensures options == NatLabOptions(None, None, None, None, None) ==>
      req.lastk == 0 && req.ragThreshold == 0.5 && !req.ragUsage && req.ragK == 0 && req.sessionId.None?
  {
    var system := if systemPrompt.None? then FirstSystemContent(messages) else systemPrompt;
    NatLabRequest(
      if Given(model) then model.value else NatLabDefaultModel,
      if Given(system) then system.value else "",
      match LastUserContent(messages) case Some(c) => c case None => "",
      temperature,
      match options.lastk case Some(v) => v case None => 0,
      options.sessionId,
      match options.ragThreshold case Some(v) => v case None => 0.5,
      match options.ragUsage case Some(v) => v case None => false,
      match options.ragK case Some(v) => v case None => 0)
  }

  /** The proxy's reply: a transport error, or a status code and the decoded body's two possible fields. */
  datatype HttpReply<T> = RequestFailed(message: string) | HttpResponse(status: int, body: T)
  datatype ProxyBody = ProxyBody(result: Option<string>, response: Option<string>)

  /** `NatLabAdapter.generate`: `result`, else `response`, else "" from a 200 reply; RuntimeError otherwise. */
  function NatLabGenerate(messages: seq<Message>, model: Option<string>, temperature: real,
                          systemPrompt: Option<string>, options: NatLabOptions,
                          post: NatLabRequest -> HttpReply<ProxyBody>): (r: Outcome<string>)
    ensures var reply := post(NatLabRequestFor(messages, model, temperature, systemPrompt, options));
      && (reply.HttpResponse? && reply.status == 200 ==>
            r == Ok(if reply.body.result.Some? then reply.body.result.value
                    else if reply.body.response.Some? then reply.body.response.value else ""))
      && (reply.HttpResponse? && reply.status != 200 ==> r == Raise(RuntimeError, "NatLab API error: " + IntToString(reply.status)))
      && (reply.RequestFailed? ==> r == Raise(RuntimeError, "NatLab request failed: " + reply.message))
  {
    match post(NatLabRequestFor(messages, model, temperature, systemPrompt, options))
    case RequestFailed(e) => Raise(RuntimeError, "NatLab request failed: " + e)
    case HttpResponse(status, body) =>
      if status == 200 then
        Ok(match body.result case Some(t) => t case None => match body.response case Some(t) => t case None => "")
      else Raise(RuntimeError, "NatLab API error: " + IntToString(status))
  }

  /** `generate_stream`: the whole reply as one chunk, or the same exception. */
  function NatLabGenerateStream(messages: seq<Message>, model: Option<string>, temperature: real,
                                systemPrompt: Option<string>, options: NatLabOptions,
                                post: NatLabRequest -> HttpReply<ProxyBody>): (r: Outcome<seq<string>>)
    ensures var g := NatLabGenerate(messages, model, temperature, systemPrompt, options, post);
      (g.Ok? <==> r.Ok?) && (g.Ok? ==> r.value == [g.value]) && (g.Raise? ==> r == Raise(g.kind, g.message))
  {
    match NatLabGenerate(messages, model, temperature, systemPrompt, options, post)
    case Ok(text) => Ok([text])
    case Raise(k, m) => Raise(k, m)
  }

  datatype RetrieveRequest = RetrieveRequest(query: string, sessionId: string, ragThreshold: real, ragK: int)

  /** `NatLabAdapter.retrieve`: the decoded body on 200, otherwise an empty list; it never raises. */
  function NatLabRetrieve<D>(query: string, sessionId: string, ragThreshold: real, ragK: int,
                             post: RetrieveRequest -> HttpReply<seq<D>>): (r: seq<D>)
    ensures var reply := post(RetrieveRequest(query, sessionId, ragThreshold, ragK));
      (reply.HttpResponse? && reply.status == 200 ==> r == reply.body)
      && (!(reply.HttpResponse? && reply.status == 200) ==> r == [])
  {
    match post(RetrieveRequest(query, sessionId, ragThreshold, ragK))
    case HttpResponse(200, body) => body
    case _ => []
  }

  // ---------------------------------------------------------------------------
  // The llmproxy client used by the older server
  // ---------------------------------------------------------------------------

  /** The model name the older server always passes. */
  const ProxyModel: string := "4o-mini"

  /** The keyword arguments of one `llmproxy.generate` call. */
  datatype ProxyCall = ProxyCall(model: string, system: string, query: string, temperature: real, lastk: int, ragUsage: bool)
}
