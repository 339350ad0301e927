/**
 * The quality-gated generation loop shared, with two acceptance rules, by
 * `QueryOrchestrator._generate_quality_checked_response` (core/orchestrator.py)
 * and `EnhancedChatHandler._generate_quality_checked_response`
 * (responses-api-server/enhanced_chat_handler.py): generate once, then for
 * each of N attempts check the current response and either accept it,
 * regenerate from the enhancement prompt, or (on the last attempt) return it.
 *
 * The generator, the checker and the enhancement prompt are parameters; the
 * loop records every call it makes so that call counts and arguments can be
 * stated.
 */
module GenerationLoop {
  import opened Common
  import Quality
  import Settings

  /** The acceptance rule and the attempt budget. */
  datatype Policy = Policy(threshold: int, strict: bool, attempts: int)

  /** `score >= quality_threshold` with `max_regeneration_attempts` attempts. */
  const OrchestratorPolicy: Policy := Policy(Settings.QualityThreshold, false, Settings.MaxRegenerationAttempts)
  /** `score > 7` with 3 attempts. */
  const HandlerPolicy: Policy := Policy(7, true, 3)

  const LoopApology: string :=
    ("I apologize, but I'm having " + "trouble generating an appropriate " + "response. Please try rephrasing " + "your question.")

  /** The number Python compares for a decoded score (True is 1, False is 0); None when the comparison raises TypeError. */
  function NumericScore(score: Quality.Json): Option<real> {
    match score
    case JInt(i) => Some(i as real)
    case JFloat(r) => Some(r)
    case JBool(b) => Some(if b then 1.0 else 0.0)
    case _ => None
  }

  /** The acceptance test on a decoded score; None when Python would raise TypeError. */
  function Passes(p: Policy, score: Quality.Json): (r: Option<bool>)
    ensures score.JInt? ==> r == Some(if p.strict then score.i > p.threshold else score.i >= p.threshold)
    ensures r.None? <==> (score.JNull? || score.JStr? || score.JArr? || score.JObj?)
  {
    match NumericScore(score)
    case Some(x) => Some(if p.strict then x > p.threshold as real else x >= p.threshold as real)
    case None => None
  }

  /** One call the loop makes. */
  datatype Call = Generation(message: string) | Check(query: string, response: string)

  /** How the loop ends. */
  datatype Outcome =
    | Accepted(response: string)
    | Exhausted(response: string)
    | GaveUp
    | ScoreTypeError

  /** The text the caller receives; None when the comparison raised. */
  function FinalText(o: Outcome): Option<string> {
    match o
    case Accepted(r) => Some(r)
    case Exhausted(r) => Some(r)
    case GaveUp => Some(LoopApology)
    case ScoreTypeError => None
  }

  /**
   * The `for attempt in range(N)` loop from `attempt` on, with `response`
   * the current response. Returns the outcome and the calls made.
   */
  function Attempts(p: Policy, message: string, response: string, attempt: int,
                    generate: string -> string, check: (string, string) -> Quality.Verdict,
                    enhance: (string, Quality.Json) -> string): (seq<Call>, Outcome)
    decreases p.attempts - attempt
  {
    if attempt >= p.attempts then ([], GaveUp)
    else
      var verdict := check(message, response);
      var c := Check(message, response);
      match Passes(p, verdict.score)
      case None => ([c], ScoreTypeError)
      case Some(true) => ([c], Accepted(response))
      case Some(false) =>
        if attempt < p.attempts - 1 then
          var m := enhance(response, verdict.feedback);
          var rest := Attempts(p, message, generate(m), attempt + 1, generate, check, enhance);
          ([c, Generation(m)] + rest.0, rest.1)
        else ([c], Exhausted(response))
  }

  /** `_generate_quality_checked_response`: the initial generation, then the loop. */
  function QualityChecked(p: Policy, message: string,
                          generate: string -> string, check: (string, string) -> Quality.Verdict,
                          enhance: (string, Quality.Json) -> string): (r: (seq<Call>, Outcome))
    ensures |r.0| >= 1 && r.0[0] == Generation(message)
  {
    var rest := Attempts(p, message, generate(message), 0, generate, check, enhance);
    ([Generation(message)] + rest.0, rest.1)
  }

  // ---------------------------------------------------------------------------
  // The shape of the call trace
  // ---------------------------------------------------------------------------

  /** Checks at even positions, generations at odd ones (the loop's own trace starts with a check). */
  predicate ChecksAtEven(t: seq<Call>) {
    forall i :: 0 <= i < |t| ==> (t[i].Check? <==> i % 2 == 0)
  }

  /** The loop's trace is empty exactly when no attempt is left, alternates, and opens with a check of `response`. */
  lemma {:induction false} AttemptsShape(p: Policy, message: string, response: string, attempt: int,
                                         generate: string -> string, check: (string, string) -> Quality.Verdict,
                                         enhance: (string, Quality.Json) -> string)
    ensures var t := Attempts(p, message, response, attempt, generate, check, enhance).0;
      && (attempt >= p.attempts <==> t == [])
      && (attempt < p.attempts ==> |t| <= 2 * (p.attempts - attempt) - 1 && t[0] == Check(message, response))
      && ChecksAtEven(t)
    decreases p.attempts - attempt
  {
    if attempt < p.attempts {
      var verdict := check(message, response);
      var c := Check(message, response);
      if Passes(p, verdict.score) == Some(false) && attempt < p.attempts - 1 {
        var m := enhance(response, verdict.feedback);
        AttemptsShape(p, message, generate(m), attempt + 1, generate, check, enhance);
        var rest := Attempts(p, message, generate(m), attempt + 1, generate, check, enhance).0;
        var t := [c, Generation(m)] + rest;
        assert forall i :: 2 <= i < |t| ==> t[i] == rest[i - 2];
      }
    }
  }

  /** Every check in the loop's trace is on the original message, and each call follows from the one before it. */
  lemma {:induction false} AttemptsLinks(p: Policy, message: string, response: string, attempt: int,
                                         generate: string -> string, check: (string, string) -> Quality.Verdict,
                                         enhance: (string, Quality.Json) -> string)
    ensures var t := Attempts(p, message, response, attempt, generate, check, enhance).0;
      && (forall i :: 0 <= i < |t| && t[i].Check? ==> t[i].query == message)
      && (forall i :: 0 < i < |t| && t[i].Generation? ==>
            t[i - 1].Check? && t[i].message == enhance(t[i - 1].response, check(message, t[i - 1].response).feedback))
      && (forall i :: 0 < i < |t| && t[i].Check? ==> t[i - 1].Generation? && t[i].response == generate(t[i - 1].message))
    decreases p.attempts - attempt
  {
    if attempt < p.attempts {
      var verdict := check(message, response);
      var c := Check(message, response);
      if Passes(p, verdict.score) == Some(false) && attempt < p.attempts - 1 {
        var m := enhance(response, verdict.feedback);
        AttemptsLinks(p, message, generate(m), attempt + 1, generate, check, enhance);
        AttemptsShape(p, message, generate(m), attempt + 1, generate, check, enhance);
        var rest := Attempts(p, message, generate(m), attempt + 1, generate, check, enhance).0;
        var t := [c, Generation(m)] + rest;
        assert t[0] == c && t[1] == Generation(m);
        assert rest != [] ==> rest[0] == Check(message, generate(m));
        forall i | 0 < i < |t| && t[i].Generation?
          ensures t[i - 1].Check? && t[i].message == enhance(t[i - 1].response, check(message, t[i - 1].response).feedback)
        {
          if i > 2 { assert t[i] == rest[i - 2] && t[i - 1] == rest[i - 3]; }
        }
        forall i | 0 < i < |t| && t[i].Check?
          ensures t[i - 1].Generation? && t[i].response == generate(t[i - 1].message)
        {
          if i > 2 { assert t[i] == rest[i - 2] && t[i - 1] == rest[i - 3]; }
        }
        forall i | 0 <= i < |t| && t[i].Check?
          ensures t[i].query == message
        {
          if i >= 2 { assert t[i] == rest[i - 2]; }
        }
      }
    }
  }

  /**
   * The loop's trace: at most 2(N - attempt) - 1 calls, alternating, every
   * check on the original message, each generation fed the enhancement of
   * the response just checked, each check on the response just generated.
   */
  lemma AttemptsTrace(p: Policy, message: string, response: string, attempt: int,
                      generate: string -> string, check: (string, string) -> Quality.Verdict,
                      enhance: (string, Quality.Json) -> string)
    ensures var (t, o) := Attempts(p, message, response, attempt, generate, check, enhance);
      && (attempt >= p.attempts <==> t == [])
      && (attempt < p.attempts ==> |t| <= 2 * (p.attempts - attempt) - 1 && t[0] == Check(message, response))
      && ChecksAtEven(t)
      && (forall i :: 0 <= i < |t| && t[i].Check? ==> t[i].query == message)
      && (forall i :: 0 < i < |t| && t[i].Generation? ==>
            t[i - 1].Check? && t[i].message == enhance(t[i - 1].response, check(message, t[i - 1].response).feedback))
      && (forall i :: 0 < i < |t| && t[i].Check? ==> t[i - 1].Generation? && t[i].response == generate(t[i - 1].message))
  {
    AttemptsShape(p, message, response, attempt, generate, check, enhance);
    AttemptsLinks(p, message, response, attempt, generate, check, enhance);
  }

  /** How the loop ends, read off its trace: the returned response is the one checked last, with the verdict it got. */
  lemma {:induction false} AttemptsOutcome(p: Policy, message: string, response: string, attempt: int,
                                           generate: string -> string, check: (string, string) -> Quality.Verdict,
                                           enhance: (string, Quality.Json) -> string)
    ensures var (t, o) := Attempts(p, message, response, attempt, generate, check, enhance);
      && (o.GaveUp? <==> attempt >= p.attempts)
      && (!o.GaveUp? ==> t != [] && t[|t| - 1].Check?)
      && (o.Accepted? ==> o.response == t[|t| - 1].response && Passes(p, check(message, o.response).score) == Some(true))
      && (o.Exhausted? ==>
            && o.response == t[|t| - 1].response
            && Passes(p, check(message, o.response).score) == Some(false)
            && |t| == 2 * (p.attempts - attempt) - 1)
      && (o.ScoreTypeError? ==> Passes(p, check(message, t[|t| - 1].response).score).None?)
    decreases p.attempts - attempt
  {
    if attempt < p.attempts {
      var verdict := check(message, response);
      if Passes(p, verdict.score) == Some(false) && attempt < p.attempts - 1 {
        AttemptsOutcome(p, message, generate(enhance(response, verdict.feedback)), attempt + 1, generate, check, enhance);
      }
    }
  }

  function Generations(t: seq<Call>): nat {
    if t == [] then 0 else Generations(t[..|t| - 1]) + (if t[|t| - 1].Generation? then 1 else 0)
  }

  function Checks(t: seq<Call>): nat {
    if t == [] then 0 else Checks(t[..|t| - 1]) + (if t[|t| - 1].Check? then 1 else 0)
  }

  /** In an alternating trace that starts with a generation the counts are the halves of its length. */
  lemma {:induction false} AlternatingCounts(t: seq<Call>)
    requires forall i :: 0 <= i < |t| ==> (t[i].Generation? <==> i % 2 == 0)
    ensures Generations(t) == (|t| + 1) / 2 && Checks(t) == |t| / 2
  {
    if t != [] {
      var front := t[..|t| - 1];
      assert forall i :: 0 <= i < |front| ==> front[i] == t[i];
      AlternatingCounts(front);
    }
  }

  /** The whole trace alternates, starting with the initial generation. */
  lemma QualityCheckedAlternates(p: Policy, message: string,
                                 generate: string -> string, check: (string, string) -> Quality.Verdict,
                                 enhance: (string, Quality.Json) -> string)
    ensures var t := QualityChecked(p, message, generate, check, enhance).0;
      && (forall i :: 0 <= i < |t| ==> (t[i].Generation? <==> i % 2 == 0))
      && |t| <= (if p.attempts >= 1 then 2 * p.attempts else 1)
  {
    AttemptsTrace(p, message, generate(message), 0, generate, check, enhance);
    var rest := Attempts(p, message, generate(message), 0, generate, check, enhance).0;
    var t := [Generation(message)] + rest;
    assert forall i :: 1 <= i < |t| ==> t[i] == rest[i - 1];
  }

  /** With N >= 1 attempts the loop makes at most N generations and at most N checks; with N <= 0 one generation and no check. */
  lemma CallBounds(p: Policy, message: string,
                   generate: string -> string, check: (string, string) -> Quality.Verdict,
                   enhance: (string, Quality.Json) -> string)
    ensures var t := QualityChecked(p, message, generate, check, enhance).0;
      && (p.attempts >= 1 ==> 1 <= Generations(t) <= p.attempts && Checks(t) <= p.attempts)
      && (p.attempts <= 0 ==> Generations(t) == 1 && Checks(t) == 0)
  {
    QualityCheckedAlternates(p, message, generate, check, enhance);
    AlternatingCounts(QualityChecked(p, message, generate, check, enhance).0);
  }

  /** Every check is made on the student's original message, never on an enhancement prompt. */
  lemma ChecksUseOriginalMessage(p: Policy, message: string,
                                 generate: string -> string, check: (string, string) -> Quality.Verdict,
                                 enhance: (string, Quality.Json) -> string)
    ensures var t := QualityChecked(p, message, generate, check, enhance).0;
      forall i :: 0 <= i < |t| && t[i].Check? ==> t[i].query == message
  {
    AttemptsTrace(p, message, generate(message), 0, generate, check, enhance);
    var rest := Attempts(p, message, generate(message), 0, generate, check, enhance).0;
    var t := [Generation(message)] + rest;
    assert forall i :: 1 <= i < |t| ==> t[i] == rest[i - 1];
  }

  /** Every regeneration is sent the enhancement prompt built from the response just rejected and its feedback. */
  lemma RegenerationsUseEnhancement(p: Policy, message: string,
                                    generate: string -> string, check: (string, string) -> Quality.Verdict,
                                    enhance: (string, Quality.Json) -> string)
    ensures var t := QualityChecked(p, message, generate, check, enhance).0;
      forall i :: 1 <= i < |t| && t[i].Generation? ==>
        t[i - 1].Check? && t[i].message == enhance(t[i - 1].response, check(message, t[i - 1].response).feedback)
  {
    AttemptsTrace(p, message, generate(message), 0, generate, check, enhance);
    var rest := Attempts(p, message, generate(message), 0, generate, check, enhance).0;
    var t := [Generation(message)] + rest;
    assert forall i :: 1 <= i < |t| ==> t[i] == rest[i - 1];
  }

  /**
   * When every check fails, the N-th generated response is returned: the
   * result is what the generator produced for the last message it was sent,
   * after exactly N checks and N generations.
   */
  lemma ExhaustionReturnsLastGeneration(p: Policy, message: string,
                                        generate: string -> string, check: (string, string) -> Quality.Verdict,
                                        enhance: (string, Quality.Json) -> string)
    ensures var (t, o) := QualityChecked(p, message, generate, check, enhance);
      o.Exhausted? ==>
        && p.attempts >= 1 && |t| == 2 * p.attempts
        && t[|t| - 2].Generation? && o.response == generate(t[|t| - 2].message)
        && Generations(t) == p.attempts && Checks(t) == p.attempts
  {
    var first := generate(message);
    AttemptsTrace(p, message, first, 0, generate, check, enhance);
    AttemptsOutcome(p, message, first, 0, generate, check, enhance);
    QualityCheckedAlternates(p, message, generate, check, enhance);
    var (rest, o) := Attempts(p, message, first, 0, generate, check, enhance);
    var t := [Generation(message)] + rest;
    assert forall i :: 1 <= i < |t| ==> t[i] == rest[i - 1];
    AlternatingCounts(t);
    if o.Exhausted? && |rest| >= 2 {
      assert rest[|rest| - 1].response == generate(rest[|rest| - 2].message);
    }
  }

  /** The closing apology is returned exactly when the attempt budget is not positive. */
  lemma ApologyOnlyWithoutAttempts(p: Policy, message: string,
                                   generate: string -> string, check: (string, string) -> Quality.Verdict,
                                   enhance: (string, Quality.Json) -> string)
    ensures QualityChecked(p, message, generate, check, enhance).1.GaveUp? <==> p.attempts <= 0
  {
    AttemptsOutcome(p, message, generate(message), 0, generate, check, enhance);
  }

  /** An accepted response passed its check; so did no earlier one, each of which failed. */
  lemma AcceptedResponsePassed(p: Policy, message: string,
                               generate: string -> string, check: (string, string) -> Quality.Verdict,
                               enhance: (string, Quality.Json) -> string)
    ensures var (t, o) := QualityChecked(p, message, generate, check, enhance);
      o.Accepted? ==> Passes(p, check(message, o.response).score) == Some(true) && t[|t| - 1] == Check(message, o.response)
  {
    var first := generate(message);
    AttemptsOutcome(p, message, first, 0, generate, check, enhance);
    AttemptsTrace(p, message, first, 0, generate, check, enhance);
    var rest := Attempts(p, message, first, 0, generate, check, enhance).0;
    if rest != [] {
      assert ([Generation(message)] + rest)[|rest|] == rest[|rest| - 1];
    }
  }

  /** The first verdict decides the loop when it passes (the first draft is returned) or cannot be compared (the loop raises). */
  lemma FirstVerdictDecides(p: Policy, message: string,
                            generate: string -> string, check: (string, string) -> Quality.Verdict,
                            enhance: (string, Quality.Json) -> string)
    ensures var first := generate(message);
      var (t, o) := QualityChecked(p, message, generate, check, enhance);
      && (p.attempts >= 1 && Passes(p, check(message, first).score) == Some(true) ==>
            o == Accepted(first) && t == [Generation(message), Check(message, first)])
      && (p.attempts >= 1 && Passes(p, check(message, first).score).None? ==>
            o == ScoreTypeError && t == [Generation(message), Check(message, first)])
  {
  }

  /** Whatever the loop returns, other than the closing apology, is something the generator produced. */
  lemma ResponseIsGenerated(p: Policy, message: string,
                            generate: string -> string, check: (string, string) -> Quality.Verdict,
                            enhance: (string, Quality.Json) -> string)
    ensures var (t, o) := QualityChecked(p, message, generate, check, enhance);
      (o.Accepted? || o.Exhausted?) ==>
        exists i :: 0 <= i < |t| && t[i].Generation? && o.response == generate(t[i].message)
  {
    var first := generate(message);
    AttemptsOutcome(p, message, first, 0, generate, check, enhance);
    AttemptsTrace(p, message, first, 0, generate, check, enhance);
    var (rest, o) := Attempts(p, message, first, 0, generate, check, enhance);
    var t := [Generation(message)] + rest;
    if o.Accepted? || o.Exhausted? {
      var j := |rest| - 1;
      assert t[j + 1] == rest[j] && rest[j].Check?;
      if j == 0 {
        assert t[0] == Generation(message) && o.response == first;
      } else {
        assert rest[j - 1].Generation? && rest[j].response == generate(rest[j - 1].message);
        assert t[j] == rest[j - 1];
      }
    }
  }

  /**
   * The configured budget at work: a checker that always answers 6 makes the
   * orchestrator check three times, regenerate twice from the enhancement
   * prompt, and return the third generation.
   */
  lemma OrchestratorBudgetAtWork(message: string, generate: string -> string, enhance: (string, Quality.Json) -> string)
    ensures var check := (q: string, r: string) => Quality.Verdict(Quality.JInt(6), Quality.JStr("no"));
      var r0 := generate(message);
      var m1 := enhance(r0, Quality.JStr("no"));
      var m2 := enhance(generate(m1), Quality.JStr("no"));
      var (t, o) := QualityChecked(OrchestratorPolicy, message, generate, check, enhance);
      && t == [Generation(message), Check(message, r0), Generation(m1), Check(message, generate(m1)),
               Generation(m2), Check(message, generate(m2))]
      && o == Exhausted(generate(m2))
  {
    var check := (q: string, r: string) => Quality.Verdict(Quality.JInt(6), Quality.JStr("no"));
    var r0 := generate(message);
    var m1 := enhance(r0, Quality.JStr("no"));
    var r1 := generate(m1);
    var m2 := enhance(r1, Quality.JStr("no"));
    var r2 := generate(m2);
    var v := Quality.Verdict(Quality.JInt(6), Quality.JStr("no"));
    assert OrchestratorPolicy.attempts == 3;
    assert Passes(OrchestratorPolicy, v.score) == Some(false);
    assert check(message, r0) == v && check(message, r1) == v && check(message, r2) == v;
    assert Attempts(OrchestratorPolicy, message, r2, 2, generate, check, enhance) == ([Check(message, r2)], Exhausted(r2));
    var a2 := Attempts(OrchestratorPolicy, message, r2, 2, generate, check, enhance);
    var a1 := Attempts(OrchestratorPolicy, message, r1, 1, generate, check, enhance);
    assert 1 < OrchestratorPolicy.attempts - 1;
    assert a1.1 == a2.1;
    assert a1.0 == [Check(message, r1), Generation(m2)] + a2.0;
    assert [Check(message, r1), Generation(m2)] + [Check(message, r2)] == [Check(message, r1), Generation(m2), Check(message, r2)];
    assert Attempts(OrchestratorPolicy, message, r1, 1, generate, check, enhance)
      == ([Check(message, r1), Generation(m2), Check(message, r2)], Exhausted(r2));
    var t1 := [Check(message, r1), Generation(m2), Check(message, r2)];
    assert [Check(message, r0), Generation(m1)] + t1
      == [Check(message, r0), Generation(m1), Check(message, r1), Generation(m2), Check(message, r2)];
    assert Attempts(OrchestratorPolicy, message, r0, 0, generate, check, enhance)
      == ([Check(message, r0), Generation(m1), Check(message, r1), Generation(m2), Check(message, r2)], Exhausted(r2));
  }

  /**
   * A checker that always answers 7: the orchestrator accepts the first
   * response, the older handler rejects it three times and returns the
   * third generation.
   */
  lemma ScoreSevenSplitsThePolicies(message: string, generate: string -> string, enhance: (string, Quality.Json) -> string)
    ensures var check := (q: string, r: string) => Quality.Verdict(Quality.JInt(7), Quality.JStr("ok"));
      && QualityChecked(OrchestratorPolicy, message, generate, check, enhance).1 == Accepted(generate(message))
      && QualityChecked(HandlerPolicy, message, generate, check, enhance).1.Exhausted?
  {
    var check := (q: string, r: string) => Quality.Verdict(Quality.JInt(7), Quality.JStr("ok"));
    var r0 := generate(message);
    var r1 := generate(enhance(r0, Quality.JStr("ok")));
    var r2 := generate(enhance(r1, Quality.JStr("ok")));
    assert Attempts(HandlerPolicy, message, r2, 2, generate, check, enhance).1 == Exhausted(r2);
    assert Attempts(HandlerPolicy, message, r1, 1, generate, check, enhance).1 == Exhausted(r2);
  }
}
