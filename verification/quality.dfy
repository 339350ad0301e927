/**
 * Quality verdicts: the checker request, the total parse chain that turns the
 * checker's reply into a (score, feedback) pair, and the enhancement prompt
 * used for a regeneration (core/quality_checker.py and the older copy in
 * responses-api-server/enhanced_chat_handler.py).
 *
 * `json.loads` is the parameter `loads`; the regular expression
 * `score["\s]*:["\s]*(\d+)` is scanned exactly, with `re.search`'s
 * leftmost-match rule and greedy repetition.
 */
module Quality {
  import opened Common
  import LlmMessages

  /** A decoded JSON value, with Python's int/float split for numbers. */
  datatype Json =
    | JNull
    | JBool(b: bool)
    | JInt(i: int)
    | JFloat(r: real)
    | JStr(s: string)
    | JArr(items: seq<Json>)
    | JObj(fields: map<string, Json>)

  datatype LoadsResult = Decoded(value: Json) | DecodeError

  /** The pair the checker returns; neither half is type-checked, so both are JSON values. */
  datatype Verdict = Verdict(score: Json, feedback: Json)

  /** How the checker's generation call ended. */
  datatype Generation = GenerationRaised(message: string) | Generated(text: string)

  const DefaultScore: int := 5
  const UnparsedFeedback: string := "Unable to parse quality feedback"
  const EmptyReplyFeedback: string := "Quality check failed to parse"
  const ErrorPrefix: string := "Quality check error: "

  /** Python's `type(x).__name__` for a decoded value. */
  function PyTypeName(j: Json): string {
    match j
    case JNull => "NoneType"
    case JBool(_) => "bool"
    case JInt(_) => "int"
    case JFloat(_) => "float"
    case JStr(_) => "str"
    case JArr(_) => "list"
    case JObj(_) => "dict"
  }

  /** `dict.get(key, default)` */
  function Get(fields: map<string, Json>, key: string, default: Json): (v: Json)
    ensures key in fields ==> v == fields[key]
    ensures key !in fields ==> v == default
  {
    if key in fields then fields[key] else default
  }

  // ---------------------------------------------------------------------------
  // The regular expression score["\s]*:["\s]*(\d+)
  // ---------------------------------------------------------------------------

  /** The class `["\s]`. */
  predicate IsQuoteOrSpace(c: char) {
    c == '"' || IsPySpace(c)
  }

  predicate AllQuoteOrSpace(s: string, i: int, j: int)
    requires 0 <= i <= j <= |s|
  {
    forall k :: i <= k < j ==> IsQuoteOrSpace(s[k])
  }

  /** `\d`, read as ASCII digits. */
  predicate DigitRun(s: string, i: int, j: int)
    requires 0 <= i <= j <= |s|
  {
    forall k :: i <= k < j ==> IsDigit(s[k])
  }

  /**
   * One way the pattern matches: "score" at p, a run of quotes/spaces, ':' at
   * a, another run, and the group s[b..e] of one or more digits.
   */
  predicate MatchShape(s: string, p: int, a: int, b: int, e: int) {
    && 0 <= p && p + 5 <= a && a + 1 <= b && b < e <= |s|
    && s[p..p + 5] == "score"
    && AllQuoteOrSpace(s, p + 5, a) && s[a] == ':'
    && AllQuoteOrSpace(s, a + 1, b)
    && DigitRun(s, b, e)
  }

  function SkipQuoteOrSpace(s: string, i: int): (j: int)
    requires 0 <= i <= |s|
    ensures i <= j <= |s| && AllQuoteOrSpace(s, i, j)
    ensures j == |s| || !IsQuoteOrSpace(s[j])
    decreases |s| - i
  {
    if i == |s| || !IsQuoteOrSpace(s[i]) then i else SkipQuoteOrSpace(s, i + 1)
  }

  function SkipDigits(s: string, i: int): (j: int)
    requires 0 <= i <= |s|
    ensures i <= j <= |s| && DigitRun(s, i, j)
    ensures j == |s| || !IsDigit(s[j])
    decreases |s| - i
  {
    if i == |s| || !IsDigit(s[i]) then i else SkipDigits(s, i + 1)
  }

  /** A run that ends at the first character outside it is the one the skip finds. */
  lemma SkipIsForced(s: string, i: int, a: int)
    requires 0 <= i <= a < |s| && AllQuoteOrSpace(s, i, a) && !IsQuoteOrSpace(s[a])
    ensures SkipQuoteOrSpace(s, i) == a
  {
  }

  lemma DigitsAreMaximal(s: string, b: int, e: int)
    requires 0 <= b <= e <= |s| && DigitRun(s, b, e)
    ensures e <= SkipDigits(s, b)
  {
  }

  /** The matcher at one start position: `Some((b, e))` with the greedy group s[b..e]. */
  function MatchAt(s: string, p: int): (r: Option<(int, int)>)
    requires 0 <= p <= |s|
    ensures r.Some? ==> p + 5 <= |s| && MatchShape(s, p, SkipQuoteOrSpace(s, p + 5), r.value.0, r.value.1)
    ensures r.Some? ==> r.value.1 == |s| || !IsDigit(s[r.value.1])
  {
    if p + 5 <= |s| && s[p..p + 5] == "score" then
      var a := SkipQuoteOrSpace(s, p + 5);
      if a < |s| && s[a] == ':' then
        var b := SkipQuoteOrSpace(s, a + 1);
        var e := SkipDigits(s, b);
        if b < e then Some((b, e)) else None
      else None
    else None
  }

  /** Whenever the pattern can match at p, the matcher finds it, with the same group start and a group at least as long. */
  lemma MatchAtComplete(s: string, p: int, a: int, b: int, e: int)
    requires MatchShape(s, p, a, b, e)
    ensures MatchAt(s, p).Some?
    ensures MatchAt(s, p).value.0 == b && e <= MatchAt(s, p).value.1
  {
    assert s[a] == ':' && !IsQuoteOrSpace(s[a]);
    SkipIsForced(s, p + 5, a);
    assert IsDigit(s[b]) && !IsQuoteOrSpace(s[b]);
    SkipIsForced(s, a + 1, b);
    DigitsAreMaximal(s, b, e);
  }

  /** `re.search`: the first start position, from `p` on, at which the pattern matches. */
  function SearchFrom(s: string, p: int): (r: Option<(int, int, int)>)
    requires 0 <= p <= |s|
    ensures r.Some? ==> p <= r.value.0 <= |s| && MatchAt(s, r.value.0) == Some((r.value.1, r.value.2))
    ensures r.Some? ==> forall q :: p <= q < r.value.0 ==> MatchAt(s, q).None?
    ensures r.None? ==> forall q :: p <= q <= |s| ==> MatchAt(s, q).None?
    decreases |s| - p
  {
    var m := MatchAt(s, p);
    if m.Some? then Some((p, m.value.0, m.value.1))
    else if p == |s| then None
    else
      SearchFrom(s, p + 1)
  }

  /** `score_match.group(1)` of `re.search(r'score["\s]*:["\s]*(\d+)', text)`, if any. */
  function ScoreGroup(text: string): (g: Option<string>)
    ensures g.Some? ==> |g.value| >= 1 && AllDigits(g.value)
  {
    match SearchFrom(text, 0)
    case Some((_, b, e)) => Some(text[b..e])
    case None => None
  }

  /**
   * The scanner against the pattern's meaning: no group exactly when no
   * position admits a match; otherwise the group is the maximal digit run of
   * a match at the leftmost position that admits one.
   */
  lemma ScoreGroupIsLeftmostGreedy(text: string)
    ensures ScoreGroup(text).None? <==> forall p, a, b, e :: !MatchShape(text, p, a, b, e)
    ensures ScoreGroup(text).Some? ==>
      var (p, b, e) := SearchFrom(text, 0).value;
      && MatchShape(text, p, SkipQuoteOrSpace(text, p + 5), b, e)
      && ScoreGroup(text).value == text[b..e]
      && (e == |text| || !IsDigit(text[e]))
      && forall q, a', b', e' :: 0 <= q < p ==> !MatchShape(text, q, a', b', e')
  {
    forall p, a, b, e | MatchShape(text, p, a, b, e) && SearchFrom(text, 0).None?
      ensures false
    {
      MatchAtComplete(text, p, a, b, e);
    }
    if SearchFrom(text, 0).Some? {
      var (p, b, e) := SearchFrom(text, 0).value;
      forall q, a', b', e' | 0 <= q < p && MatchShape(text, q, a', b', e')
        ensures false
      {
        MatchAtComplete(text, q, a', b', e');
      }
    }
  }

  /** A concrete reply that is not valid JSON: the digits after `score":` are the group. */
  lemma ScoreGroupExample()
    ensures ScoreGroup("{\"score\": 8,}") == Some("8")
  {
    var t := "{\"score\": 8,}";
    ExampleNoMatchBefore();
    ExampleMatchAt();
    assert SearchFrom(t, 2) == Some((2, 10, 11));
    assert SearchFrom(t, 1) == Some((2, 10, 11));
    assert SearchFrom(t, 0) == Some((2, 10, 11));
    assert t[10..11] == "8";
  }

  lemma ExampleNoMatchBefore()
    ensures MatchAt("{\"score\": 8,}", 0).None? && MatchAt("{\"score\": 8,}", 1).None?
  {
    var t := "{\"score\": 8,}";
    assert t[0..5] != "score" by { assert t[0] != 's'; }
    assert t[1..6] != "score" by { assert t[1] != 's'; }
  }

  lemma ExampleMatchAt()
    ensures MatchAt("{\"score\": 8,}", 2) == Some((10, 11))
  {
    var t := "{\"score\": 8,}";
    assert t[2..7] == "score";
    assert t[7] == '"' && t[8] == ':' && t[9] == ' ' && t[10] == '8' && t[11] == ',';
    assert SkipQuoteOrSpace(t, 8) == 8;
    assert SkipQuoteOrSpace(t, 7) == 8;
    assert SkipQuoteOrSpace(t, 10) == 10;
    assert SkipQuoteOrSpace(t, 9) == 10;
    assert SkipDigits(t, 11) == 11;
    assert SkipDigits(t, 10) == 11;
  }

  // ---------------------------------------------------------------------------
  // The parse chain
  // ---------------------------------------------------------------------------

  /** The error text of calling `.get` on a decoded value that is not an object. */
  function NoGetMessage(j: Json): string {
    "'" + PyTypeName(j) + "' object has no attribute 'get'"
  }

  /**
   * The parse of a reply text: a decoded object gives its `score` and
   * `feedback` with their defaults; any other decoded value makes `.get`
   * raise, which the outer handler turns into the error verdict; text that
   * does not decode falls back to the regular expression.
   */
  function ParseReply(text: string, loads: string -> LoadsResult): (v: Verdict)
    ensures loads(text).Decoded? && loads(text).value.JObj? ==>
      var fields := loads(text).value.fields;
      && v.score == (if "score" in fields then fields["score"] else JInt(DefaultScore))
      && v.feedback == (if "feedback" in fields then fields["feedback"] else JStr(UnparsedFeedback))
    ensures loads(text).Decoded? && !loads(text).value.JObj? ==>
      v == Verdict(JInt(DefaultScore), JStr(ErrorPrefix + NoGetMessage(loads(text).value)))
    ensures loads(text).DecodeError? ==>
      && v.score == JInt(if ScoreGroup(text).Some? then DigitsValue(ScoreGroup(text).value) else DefaultScore)
      && v.feedback == JStr(if text != "" then text else EmptyReplyFeedback)
  {
    match loads(text)
    case Decoded(JObj(fields)) =>
      Verdict(Get(fields, "score", JInt(DefaultScore)), Get(fields, "feedback", JStr(UnparsedFeedback)))
    case Decoded(other) =>
      Verdict(JInt(DefaultScore), JStr(ErrorPrefix + NoGetMessage(other)))
    case DecodeError =>
      var score := match ScoreGroup(text) case Some(g) => DigitsValue(g) case None => DefaultScore;
      Verdict(JInt(score), JStr(if text != "" then text else EmptyReplyFeedback))
  }

  /** `QualityChecker.check_quality`: every path returns a verdict; a raising call gives (5, "Quality check error: ..."). */
  function CheckQuality(call: Generation, loads: string -> LoadsResult): (v: Verdict)
    ensures call.GenerationRaised? ==> v == Verdict(JInt(DefaultScore), JStr(ErrorPrefix + call.message))
    ensures call.Generated? ==> v == ParseReply(call.text, loads)
  {
    match call
    case GenerationRaised(m) => Verdict(JInt(DefaultScore), JStr(ErrorPrefix + m))
    case Generated(text) => ParseReply(text, loads)
  }

  /** The score is passed through as decoded: neither clamped to 1..10 nor required to be a number. */
  lemma ScoreIsNotValidated(text: string, x: Json)
    ensures ParseReply(text, _ => Decoded(JObj(map["score" := x]))).score == x
  {
  }

  /**
   * What the older `generate` helper returned: a dictionary carrying
   * `response`, or some other value and its `str()`. Either way `text` is the
   * string that `_check_response_quality` and `_generate_response` unwrap.
   */
  datatype Reply = ReplyDict(text: string) | ReplyOther(text: string)

  /** `_check_response_quality`: unwrap, then the same chain. */
  function CheckResponseQuality(call: Option<Reply>, errorMessage: string, loads: string -> LoadsResult): (v: Verdict)
    ensures call.None? ==> v == Verdict(JInt(DefaultScore), JStr(ErrorPrefix + errorMessage))
  {
    match call
    case None => Verdict(JInt(DefaultScore), JStr(ErrorPrefix + errorMessage))
    case Some(r) => ParseReply(r.text, loads)
  }

  /** The two checkers agree once the reply is unwrapped. */
  lemma CheckersAgree(r: Reply, errorMessage: string, loads: string -> LoadsResult)
    ensures CheckResponseQuality(Some(r), errorMessage, loads) == CheckQuality(Generated(r.text), loads)
    ensures CheckResponseQuality(None, errorMessage, loads) == CheckQuality(GenerationRaised(errorMessage), loads)
  {
  }

  // ---------------------------------------------------------------------------
  // The checker request and the enhancement prompt
  // ---------------------------------------------------------------------------

  const CheckerSystemPrompt: string := ("You are a quality checker. " + "Return only valid JSON with " + "'score' and 'feedback' fields.")
  const CheckerTemperature: real := 0.1

  const CheckHead: string :=
    ("\nYou are a quality checker " + "for a CS 15 tutor assistant. " + "Rate the following response " + "on a scale of 1-10.\n\nStudent " + "Query: \"")
  const CheckMiddle1: string := "\"\nRAG Context: \""
  const CheckMiddle2: string := "\"\nAssistant Response: \""
  /** The scoring instructions that close the prompt, from the closing quote on. */
  const CheckTail: string :=
    ("\"\n\nCheck ONLY for these " + "issues (all are NEVER allowed):\n")
    + ("1. COMPLETE CODE SOLUTIONS: " + "Does the response provide " + "full, runnable code solutions " + "to assignments? \n")
    + ("   - Any complete implementation " + "of homework/project functions " + "is a major violation.\n")
    + ("   - Short code snippets " + "used only for illustration " + "are acceptable.\n")
    + ("2. PSEUDOCODE SOLUTIONS: " + "Does the response provide " + "pseudocode or step-by-step " + "algorithmic outlines for " + "assignment functions? \n")
    + ("   - Even if the student " + "explicitly requests pseudocode, " + "it must NOT be given.\n")
    + ("3. INVENTED OR INACCURATE " + "INFORMATION: Does the response " + "make up or invent information " + "about CS 15 course details, " + "project requirements, due " + "dates, or implementation " + "specifics that are not in " + "the RAG context? \n")
    + ("   - Adding details not " + "found in the official course " + "materials counts as a major " + "violation.\n\n")
    + ("Scoring:\n- 9-10: No issues, " + "helpful and accurate\n- 7-8: " + "Minor issues only, overall " + "acceptable\n")
    + "- 5-6: Noticeable issues, needs improvement\n"
    + ("- 1-4: Major violations " + "(full code, pseudocode, " + "or invented/inaccurate information). " + "Response must be regenerated.\n\n")
    + ("Return ONLY a JSON object " + "with \"score\" (integer 1-10) " + "and \"feedback\" (string explaining " + "issues found).\n")

  function CheckPrompt(query: string, ragContext: string, response: string): string {
    CheckHead + query + CheckMiddle1 + ragContext + CheckMiddle2 + response + CheckTail
  }

  /** The query, the context and the response appear verbatim in the check prompt, in that order. */
  lemma CheckPromptPieces(query: string, ragContext: string, response: string)
    ensures OccursAt(CheckPrompt(query, ragContext, response), query, |CheckHead|)
    ensures OccursAt(CheckPrompt(query, ragContext, response), ragContext, |CheckHead| + |query| + |CheckMiddle1|)
    ensures OccursAt(CheckPrompt(query, ragContext, response), response,
                     |CheckHead| + |query| + |CheckMiddle1| + |ragContext| + |CheckMiddle2|)
  {
    Splice7(CheckHead, query, CheckMiddle1, ragContext, CheckMiddle2, response, CheckTail);
  }

  datatype CheckerRequest = CheckerRequest(messages: seq<LlmMessages.Message>, temperature: real)

  /** The call `check_quality` makes: exactly a system message and a user message, at temperature 0.1. */
  function CheckerCall(query: string, ragContext: string, response: string): (req: CheckerRequest)
    ensures |req.messages| == 2 && req.temperature == CheckerTemperature
    ensures req.messages[0] == LlmMessages.Message("system", CheckerSystemPrompt)
    ensures req.messages[1] == LlmMessages.Message("user", CheckPrompt(query, ragContext, response))
  {
    var prompt := CheckPrompt(query, ragContext, response);
    CheckerRequest([LlmMessages.Message("system", CheckerSystemPrompt), LlmMessages.Message("user", prompt)], CheckerTemperature)
  }

  const IndentedCheckHead: string :=
    ("\n       You are a quality " + "checker for a CS 15 tutor " + "assistant. Rate the following " + "response on a scale of 1-10.\n\n " + "       Student Query: \"")
  const IndentedCheckMiddle1: string := "\"\n        RAG Context: \""
  const IndentedCheckMiddle2: string := "\"\n        Assistant Response: \""
  const IndentedCheckTail: string :=
    ("\"\n\n        Check ONLY for " + "these issues (all are NEVER " + "allowed):\n")
    + ("        1. COMPLETE CODE " + "SOLUTIONS: Does the response " + "provide full, runnable code " + "solutions to assignments? \n")
    + ("        - Any complete implementation " + "of homework/project functions " + "is a major violation.\n")
    + ("        - Short code snippets " + "used only for illustration " + "are acceptable.\n")
    + ("        2. PSEUDOCODE SOLUTIONS: " + "Does the response provide " + "pseudocode or step-by-step " + "algorithmic outlines for " + "assignment functions? \n")
    + ("        - Even if the student " + "explicitly requests pseudocode, " + "it must NOT be given.\n")
    + ("        3. INVENTED OR INACCURATE " + "INFORMATION: Does the response " + "make up or invent information " + "about CS 15 course details, " + "project requirements, due " + "dates, or implementation " + "specifics that are not in " + "the RAG context? \n")
    + ("        - Adding details " + "not found in the official " + "course materials counts " + "as a major violation.\n\n")
    + ("        Scoring:\n       " + " - 9-10: No issues, helpful " + "and accurate\n        - 7-8: " + "Minor issues only, overall " + "acceptable\n")
    + ("        - 5-6: Noticeable " + "issues, needs improvement\n")
    + ("        - 1-4: Major violations " + "(full code, pseudocode, " + "or invented/inaccurate information). " + "Response must be regenerated.\n\n")
    + ("        Return ONLY a JSON " + "object with \"score\" (integer " + "1-10) and \"feedback\" (string " + "explaining issues found).\n " + "       ")

  /** The checker prompt of `_check_response_quality`, with the source's indentation kept. */
  function IndentedCheckPrompt(message: string, ragContext: string, response: string): string {
    IndentedCheckHead + message + IndentedCheckMiddle1 + ragContext + IndentedCheckMiddle2 + response + IndentedCheckTail
  }

  /** The message, the context and the response appear verbatim in the indented check prompt, in that order. */
  lemma IndentedCheckPromptPieces(message: string, ragContext: string, response: string)
    ensures OccursAt(IndentedCheckPrompt(message, ragContext, response), message, |IndentedCheckHead|)
    ensures OccursAt(IndentedCheckPrompt(message, ragContext, response), ragContext,
                     |IndentedCheckHead| + |message| + |IndentedCheckMiddle1|)
    ensures OccursAt(IndentedCheckPrompt(message, ragContext, response), response,
                     |IndentedCheckHead| + |message| + |IndentedCheckMiddle1| + |ragContext| + |IndentedCheckMiddle2|)
  {
    Splice7(IndentedCheckHead, message, IndentedCheckMiddle1, ragContext, IndentedCheckMiddle2, response, IndentedCheckTail);
  }

  /** The checker call of `_check_response_quality`: one proxy call with the checker system text, lastk 0 and no retrieval. */
  function HandlerCheckerCall(message: string, ragContext: string, response: string): (call: LlmMessages.ProxyCall)
    ensures call.model == LlmMessages.ProxyModel && call.system == CheckerSystemPrompt
    ensures call.temperature == CheckerTemperature && call.lastk == 0 && !call.ragUsage
    ensures call.query == IndentedCheckPrompt(message, ragContext, response)
  {
    LlmMessages.ProxyCall(LlmMessages.ProxyModel, CheckerSystemPrompt, IndentedCheckPrompt(message, ragContext, response),
                          CheckerTemperature, 0, false)
  }

  /** Python's `str()` of a decoded value, as an f-string renders it; containers and floats use `render`. */
  function PyStr(j: Json, render: Json -> string): string {
    match j
    case JNull => "None"
    case JBool(b) => if b then "True" else "False"
    case JInt(i) => IntToString(i)
    case JStr(s) => s
    case _ => render(j)
  }

  const EnhanceHead: string := ("\nThe following assistant " + "response to a CS 15 student " + "query failed quality checks:\n\nOriginal " + "Response: \"")
  const EnhanceMiddle: string := "\"\nQuality Feedback: \""
  const EnhanceTail: string :=
    ("\"\n\nPlease rewrite the assistant's " + "response so that it avoids " + "the listed issues. Focus on:\n")
    + ("1. Not providing complete " + "code solutions\n2. Not inventing " + "course/project information\n\n")
    + ("Return only the improved " + "response, nothing else.\n")

  /** `generate_enhancement_prompt(original_response, feedback)`: both appear verbatim, in that order. */
  function EnhancementPrompt(originalResponse: string, feedback: string): (prompt: string)
    ensures OccursAt(prompt, originalResponse, |EnhanceHead|)
    ensures OccursAt(prompt, feedback, |EnhanceHead| + |originalResponse| + |EnhanceMiddle|)
    ensures |prompt| == |EnhanceHead| + |originalResponse| + |EnhanceMiddle| + |feedback| + |EnhanceTail|
  {
    var prompt := EnhanceHead + originalResponse + EnhanceMiddle + feedback + EnhanceTail;
    Splice5(EnhanceHead, originalResponse, EnhanceMiddle, feedback, EnhanceTail);
    prompt
  }

  const IndentedEnhanceHead: string :=
    ("\n        The following assistant " + "response to a CS 15 student " + "query failed quality checks:\n " + "   \n        Original Response: \"")
  const IndentedEnhanceMiddle: string := "\"\n        Quality Feedback: \""
  const IndentedEnhanceTail: string :=
    ("\"\n        \n        Please " + "rewrite the assistant's " + "response so that it avoids " + "the listed issues. Focus on:\n")
    + ("        1. Not providing " + "complete code solutions\n " + "       2. Not inventing " + "course/project information\n " + "       \n")
    + ("        Return only the " + "improved response, nothing " + "else.\n        ")

  /** `_enhance_response_with_feedback`: the same prompt with the source's indentation kept. */
  function IndentedEnhancementPrompt(originalResponse: string, feedback: string): (prompt: string)
    ensures OccursAt(prompt, originalResponse, |IndentedEnhanceHead|)
    ensures OccursAt(prompt, feedback, |IndentedEnhanceHead| + |originalResponse| + |IndentedEnhanceMiddle|)
  {
    var prompt := IndentedEnhanceHead + originalResponse + IndentedEnhanceMiddle + feedback + IndentedEnhanceTail;
    Splice5(IndentedEnhanceHead, originalResponse, IndentedEnhanceMiddle, feedback, IndentedEnhanceTail);
    prompt
  }
}
