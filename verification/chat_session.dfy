/**
 * The per-conversation state the chat endpoints keep in memory: the message
 * history whose first entry is the system message, and the accumulated
 * formatted retrieval context (server/routes/chat.py for the core server,
 * `chat_handler` in responses-api-server/index.py for the older one),
 * and one request to those endpoints over that state, the health ledger and
 * the database. Authentication is outside the model (the request carries
 * the login name and platform); `process_query` and the older handler
 * appear as the `process` parameter.
 */
module ChatSession {
  import opened Common
  import LlmMessages
  import HealthPoints
  import RagFormat
  import Store
  import Orchestrator

  type Message = LlmMessages.Message

  /** One conversation: `conversations[cid]` and `formatted_rag_accumulator[cid]`. */
  datatype Session = Session(history: seq<Message>, accumulator: string)

  /** The history always starts with the system message the route created. */
  predicate SessionValid(s: Session) {
    |s.history| >= 1 && s.history[0].role == "system"
  }

  predicate AllValid(sessions: map<string, Session>) {
    forall cid :: cid in sessions ==> SessionValid(sessions[cid])
  }

  /** Storing a valid session keeps every session valid. */
  lemma StoreKeepsValid(sessions: map<string, Session>, conversationId: string, s: Session)
    requires AllValid(sessions) && SessionValid(s)
    ensures AllValid(sessions[conversationId := s])
  {
  }

  /** Overwriting one conversation's entry leaves another conversation's entry as it was. */
  lemma OtherEntryKept(m: map<string, Session>, p: map<string, Session>, conversationId: string, other: string)
    requires conversationId in m && m == p[conversationId := m[conversationId]]
    requires other != conversationId && other in p
    ensures other in m && m[other] == p[other]
  {
  }

  /** A new conversation: the base prompt as the only message and an empty accumulator. */
  function NewSession(basePrompt: string): (s: Session)
    ensures SessionValid(s) && s.history == [LlmMessages.Message("system", basePrompt)] && s.accumulator == ""
  {
    Session([LlmMessages.Message("system", basePrompt)], "")
  }

  /** `previous + ("\n\n" if previous else "") + new` */
  function Accumulate(previous: string, added: string): (combined: string)
    ensures previous == "" ==> combined == added
    ensures previous != "" ==> combined == previous + "\n\n" + added
    ensures |combined| == |previous| + |added| + (if previous != "" then 2 else 0)
  {
    previous + (if previous != "" then "\n\n" else "") + added
  }

  /** Each accumulation keeps everything accumulated so far as a prefix. */
  lemma AccumulateExtends(previous: string, added: string)
    ensures StartsWith(Accumulate(previous, added), previous)
    ensures Accumulate(previous, added)[|Accumulate(previous, added)| - |added|..] == added
  {
  }

  /** `history[0]["content"] = content`: the first entry keeps its role and takes the new content. */
  function SetSystemContent(history: seq<Message>, content: string): (h: seq<Message>)
    requires |history| >= 1
    ensures |h| == |history| && h[0] == LlmMessages.Message(history[0].role, content) && h[1..] == history[1..]
  {
    history[0 := LlmMessages.Message(history[0].role, content)]
  }

  /**
   * The state update after `process_query` answered: with a non-empty new
   * context the accumulator grows and the system message becomes
   * base + "\n\n" + accumulator; then the user and assistant entries are appended.
   */
  function CompleteTurn(s: Session, basePrompt: string, message: string, response: string, newContext: string): (s': Session)
    requires SessionValid(s)
    ensures SessionValid(s')
    ensures |s'.history| == |s.history| + 2
    ensures s'.history[|s.history|] == LlmMessages.Message("user", message)
    ensures s'.history[|s.history| + 1] == LlmMessages.Message("assistant", response)
    ensures s'.history[1..|s.history|] == s.history[1..]
    ensures newContext == "" ==> s'.accumulator == s.accumulator && s'.history[0] == s.history[0]
    ensures newContext != "" ==>
      && s'.accumulator == Accumulate(s.accumulator, newContext)
      && s'.history[0] == LlmMessages.Message("system", basePrompt + "\n\n" + s'.accumulator)
  {
    var (history, acc) :=
      if newContext != "" then
        var combined := Accumulate(s.accumulator, newContext);
        (SetSystemContent(s.history, basePrompt + "\n\n" + combined), combined)
      else (s.history, s.accumulator);
    Session(history + [LlmMessages.Message("user", message), LlmMessages.Message("assistant", response)], acc)
  }


  // ---------------------------------------------------------------------------
  // One request to the chat endpoints
  // ---------------------------------------------------------------------------

  /** What the client sends, after authentication has named the user and platform. */
  datatype Request = Request(utln: string, platform: string, conversationId: string, message: string)

  /**
   * What a turn reads from outside the state: the base prompt, one clock
   * reading, `DEVELOPMENT_MODE`, the hash function, the random anonymous-id
   * candidates, the logged model name and response time, the decimal
   * rendering of the temperature, and the step at which logging fails (0: none).
   */
  datatype Env = Env(
    basePrompt: string, now: int, developmentMode: string, sha256: string -> string, candidates: seq<string>,
    modelName: string, responseTimeMs: Option<int>, render: real -> string, logFaultAt: nat)

  /**
   * `process_query` as the route sees it: given the history and the
   * accumulated context as they were, the response and this turn's formatted
   * context, or `None` when it raises.
   */
  type Process = (seq<Message>, string) -> Option<(string, string)>

  /** The state one core server process holds: sessions, the health ledger and the database. */
  datatype ServerState = ServerState(sessions: map<string, Session>, ledger: HealthPoints.Ledger, db: Store.Db)

  /** `get_or_create_anonymous_user` returns: the route never sees its creation loop give up. */
  predicate Identifiable(db: Store.Db, req: Request, env: Env) {
    Store.GetOrCreateAnonymousUser(db, req.utln, env.sha256, env.candidates, env.now).1.Some?
  }

  /** `user_data, _ = db.get_or_create_anonymous_user(utln)`: the database afterwards and the user row. */
  function Identify(db: Store.Db, req: Request, env: Env): (res: (Store.Db, Store.User))
    requires Identifiable(db, req, env)
    ensures res.1.utlnHash == env.sha256(req.utln)
    ensures res.0.conversations == db.conversations && res.0.messages == db.messages
  {
    var (db1, lookup) := Store.GetOrCreateAnonymousUser(db, req.utln, env.sha256, env.candidates, env.now);
    (db1, lookup.value.user)
  }

  /** The bypass test both health calls make on the stored user row. */
  function DevFor(env: Env, user: Store.User): (d: HealthPoints.DevContext)
    ensures HealthPoints.IsDevBypass(d) <==>
      user.utlnHash == env.sha256("testuser") && Lower(env.developmentMode) == "true"
  {
    HealthPoints.DevContext(env.developmentMode, Some(user.utlnHash), env.sha256("testuser"))
  }

  /** `consume_health_point(user_data['id'])` on the ledger the turn starts from. */
  function Charge(ledger: HealthPoints.Ledger, db: Store.Db, req: Request, env: Env): (HealthPoints.Ledger, HealthPoints.Admission)
    requires Identifiable(db, req, env)
  {
    var user := Identify(db, req, env).1;
    HealthPoints.ConsumeHealthPoint(ledger, user.id, env.now, DevFor(env, user))
  }

  /** `get_user_health_status(user_data['id'])` on a ledger the turn has charged. */
  function StatusAfter(charged: HealthPoints.Ledger, db: Store.Db, req: Request, env: Env): (HealthPoints.Ledger, HealthPoints.HealthStatus)
    requires Identifiable(db, req, env)
  {
    var user := Identify(db, req, env).1;
    HealthPoints.GetUserHealthStatus(charged, user.id, env.now, DevFor(env, user))
  }

  /** The conversation as this turn finds it: stored, or freshly created from the base prompt. */
  function Before(sessions: map<string, Session>, conversationId: string, basePrompt: string): (s: Session)
    requires AllValid(sessions)
    ensures SessionValid(s)
  {
    if conversationId in sessions then sessions[conversationId] else NewSession(basePrompt)
  }

  /** What `process` answers on the conversation as this turn finds it. */
  function Asked(state: ServerState, req: Request, env: Env, process: Process): Option<(string, string)>
    requires AllValid(state.sessions)
  {
    var before := Before(state.sessions, req.conversationId, env.basePrompt);
    process(before.history, before.accumulator)
  }

  /** `user_info` of the reply, built from what `log_interaction` returned (`{}` on a failure). */
  datatype UserInfo = UserInfo(anonymousId: Option<string>, platform: string, isNewConversation: bool)

  function InfoOf(summary: Option<Orchestrator.LogSummary>, platform: string): UserInfo {
    match summary
    case Some(s) => UserInfo(Some(s.anonymousId), platform, s.isNewConversation)
    case None => UserInfo(None, platform, false)
  }

  /** `orchestrator.log_interaction(...)` after the turn, with this turn's context as the logged context. */
  function LogTurn(db: Store.Db, req: Request, env: Env, response: string, added: string): (Store.Db, Option<Orchestrator.LogSummary>) {
    Orchestrator.LogInteractionAsWritten(db, req.utln, req.conversationId, req.message, response, req.platform, Some(added),
                                env.modelName, env.responseTimeMs, env.sha256, env.candidates, env.render, env.now, env.logFaultAt)
  }

  /** How a turn ends, before either endpoint shapes it into a reply. */
  datatype Outcome =
    | Blank
    | Refused(health: HealthPoints.HealthStatus)
    | Failed
    | Answered(response: string, ragContext: string, userInfo: UserInfo, health: HealthPoints.HealthStatus)

  /**
   * The steps both endpoints of server/routes/chat.py take after
   * authentication: reject a blank message; look the user up (creating them);
   * charge a point, and on a refusal report the health status; create the
   * conversation; hand `process` the history and accumulator as they were;
   * if it raises, stop with the point spent and the conversation created;
   * otherwise record the turn, log it, and report the health status.
   */
  function Serve(state: ServerState, req: Request, env: Env, process: Process): (res: (ServerState, Outcome))
    requires AllValid(state.sessions) && Identifiable(state.db, req, env)
    ensures AllValid(res.0.sessions)
    ensures res.1.Blank? <==> Strip(req.message) == ""
    ensures !res.1.Blank? ==> res == Admit(state, req, env, process)
  {
    if Strip(req.message) == "" then (state, Blank)
    else Admit(state, req, env, process)
  }

  /** A message that is not blank: charge the user, and either refuse or attempt the turn. */
  function Admit(state: ServerState, req: Request, env: Env, process: Process): (res: (ServerState, Outcome))
    requires AllValid(state.sessions) && Identifiable(state.db, req, env)
    ensures AllValid(res.0.sessions) && !res.1.Blank?
    ensures res.1.Refused? <==> !Charge(state.ledger, state.db, req, env).1.success
    ensures res.1.Refused? ==>
      var (ledger, health) := StatusAfter(Charge(state.ledger, state.db, req, env).0, state.db, req, env);
      res.0 == ServerState(state.sessions, ledger, Identify(state.db, req, env).0) && res.1.health == health
    ensures !res.1.Refused? ==>
      res == Attempt(state, req, env, process, Charge(state.ledger, state.db, req, env).0, Identify(state.db, req, env).0)
  {
    var (db1, user) := Identify(state.db, req, env);
    var (ledger1, admission) := Charge(state.ledger, state.db, req, env);
    if !admission.success then
      var (ledger2, health) := StatusAfter(ledger1, state.db, req, env);
      (ServerState(state.sessions, ledger2, db1), Refused(health))
    else Attempt(state, req, env, process, ledger1, db1)
  }

  /**
   * An admitted turn, given the charged ledger and the database after the
   * user lookup: create the conversation, ask `process`, and on an answer
   * record the turn, log it and report the health status.
   */
  function Attempt(state: ServerState, req: Request, env: Env, process: Process, ledger1: HealthPoints.Ledger, db1: Store.Db)
    : (res: (ServerState, Outcome))
    requires AllValid(state.sessions) && Identifiable(state.db, req, env)
    ensures AllValid(res.0.sessions) && (res.1.Failed? || res.1.Answered?)
    ensures req.conversationId in res.0.sessions
    ensures res.0.sessions == state.sessions[req.conversationId := res.0.sessions[req.conversationId]]
    ensures res.1.Failed? <==> Asked(state, req, env, process).None?
    ensures res.1.Failed? ==>
      res.0 == ServerState(state.sessions[req.conversationId := Before(state.sessions, req.conversationId, env.basePrompt)],
                           ledger1, db1)
    ensures res.1.Answered? ==>
      && Asked(state, req, env, process) == Some((res.1.response, res.1.ragContext))
      && res.0.sessions[req.conversationId] ==
           CompleteTurn(Before(state.sessions, req.conversationId, env.basePrompt), env.basePrompt, req.message,
                        res.1.response, res.1.ragContext)
      && (res.0.ledger, res.1.health) == StatusAfter(ledger1, state.db, req, env)
      && res.0.db == LogTurn(db1, req, env, res.1.response, res.1.ragContext).0
      && res.1.userInfo == InfoOf(LogTurn(db1, req, env, res.1.response, res.1.ragContext).1, req.platform)
  {
    var before := Before(state.sessions, req.conversationId, env.basePrompt);
    match process(before.history, before.accumulator)
    case None => (ServerState(state.sessions[req.conversationId := before], ledger1, db1), Failed)
    case Some((response, added)) =>
      var after := CompleteTurn(before, env.basePrompt, req.message, response, added);
      var (db2, summary) := LogTurn(db1, req, env, response, added);
      var (ledger2, health) := StatusAfter(ledger1, state.db, req, env);
      (ServerState(state.sessions[req.conversationId := after], ledger2, db2),
       Answered(response, added, InfoOf(summary, req.platform), health))
  }

  /** A blank message is turned away before anything is read or written, and only a blank one. */
  lemma ServeBlank(state: ServerState, req: Request, env: Env, process: Process)
    requires AllValid(state.sessions) && Identifiable(state.db, req, env)
    ensures var (st, o) := Serve(state, req, env, process);
      (o.Blank? <==> Strip(req.message) == "") && (o.Blank? ==> st == state)
  {
  }

  /** A turn on one conversation leaves every other conversation as it was. */
  lemma ServeIsolatesConversations(state: ServerState, req: Request, env: Env, process: Process, other: string)
    requires AllValid(state.sessions) && Identifiable(state.db, req, env) && other != req.conversationId
    ensures var s' := Serve(state, req, env, process).0.sessions;
      (other in s' <==> other in state.sessions) && (other in state.sessions ==> s'[other] == state.sessions[other])
  {
    var (st, o) := Serve(state, req, env, process);
    if !o.Blank? && !o.Refused? {
      var a := Attempt(state, req, env, process, Charge(state.ledger, state.db, req, env).0, Identify(state.db, req, env).0);
      assert st.sessions == a.0.sessions;
    }
  }

  /**
   * The turn is refused exactly when the message is not blank and the charge
   * fails; then the sessions are kept, the user lookup is stored, and the
   * reported health is that of the status call after the refusal.
   */
  lemma ServeRefusal(state: ServerState, req: Request, env: Env, process: Process)
    requires AllValid(state.sessions) && Identifiable(state.db, req, env)
    ensures var (st, o) := Serve(state, req, env, process);
      && (o.Refused? <==> Strip(req.message) != "" && !Charge(state.ledger, state.db, req, env).1.success)
      && (o.Refused? ==>
            var (ledger, health) := StatusAfter(Charge(state.ledger, state.db, req, env).0, state.db, req, env);
            st == ServerState(state.sessions, ledger, Identify(state.db, req, env).0) && o.health == health)
  {
  }

  /**
   * The turn fails exactly when the charge succeeds and `process` raises;
   * then the charged ledger and the user lookup stay stored and the
   * conversation exists as this turn found it, with nothing appended.
   */
  lemma ServeFailure(state: ServerState, req: Request, env: Env, process: Process)
    requires AllValid(state.sessions) && Identifiable(state.db, req, env)
    ensures var (st, o) := Serve(state, req, env, process);
      && (o.Failed? <==>
            Strip(req.message) != "" && Charge(state.ledger, state.db, req, env).1.success
            && Asked(state, req, env, process).None?)
      && (o.Failed? ==>
            st == ServerState(state.sessions[req.conversationId := Before(state.sessions, req.conversationId, env.basePrompt)],
                              Charge(state.ledger, state.db, req, env).0, Identify(state.db, req, env).0))
  {
  }

  /**
   * An answer is what `process` returned on the conversation as it was; the
   * conversation becomes that turn completed, and the ledger and the
   * reported health are those of the status call after the charge.
   */
  lemma ServeAnswer(state: ServerState, req: Request, env: Env, process: Process)
    requires AllValid(state.sessions) && Identifiable(state.db, req, env)
    ensures var (st, o) := Serve(state, req, env, process);
      o.Answered? ==>
        && Asked(state, req, env, process) == Some((o.response, o.ragContext))
        && st.sessions == state.sessions[req.conversationId :=
             CompleteTurn(Before(state.sessions, req.conversationId, env.basePrompt), env.basePrompt, req.message,
                          o.response, o.ragContext)]
        && (st.ledger, o.health) == StatusAfter(Charge(state.ledger, state.db, req, env).0, state.db, req, env)
  {
    var (st, o) := Serve(state, req, env, process);
    if o.Answered? {
      var ledger1 := Charge(state.ledger, state.db, req, env).0;
      var a := Attempt(state, req, env, process, ledger1, Identify(state.db, req, env).0);
      assert (st, o) == a;
    }
  }

  /** An answered turn logs itself into the database the user lookup left, and reports what the log returned. */
  lemma AnsweredTurnIsLogged(state: ServerState, req: Request, env: Env, process: Process)
    requires AllValid(state.sessions) && Identifiable(state.db, req, env)
    ensures var (st, o) := Serve(state, req, env, process);
      o.Answered? ==>
        var (db2, summary) := LogTurn(Identify(state.db, req, env).0, req, env, o.response, o.ragContext);
        st.db == db2 && o.userInfo == InfoOf(summary, req.platform)
  {
  }

  /**
   * When `process` raises, the user has still paid: outside the bypass the
   * charged record holds one point fewer than regeneration left it, and the
   * conversation exists with nothing appended to it.
   */
  lemma FailedTurnStillCharges(state: ServerState, req: Request, env: Env, process: Process)
    requires AllValid(state.sessions) && Identifiable(state.db, req, env)
    requires !HealthPoints.IsDevBypass(DevFor(env, Identify(state.db, req, env).1))
    ensures var (st, o) := Serve(state, req, env, process);
      var u := Identify(state.db, req, env).1.id;
      o.Failed? ==>
        && st.ledger[u].current == HealthPoints.RegenerateHealthPoints(state.ledger, u, env.now).0[u].current - 1
        && req.conversationId in st.sessions
        && st.sessions[req.conversationId].history
           == (if req.conversationId in state.sessions then state.sessions[req.conversationId].history
               else [LlmMessages.Message("system", env.basePrompt)])
  {
    var u := Identify(state.db, req, env).1.id;
    HealthPoints.ConsumeOutcome(state.ledger, u, env.now, DevFor(env, Identify(state.db, req, env).1));
  }

  /**
   * The closing status call matters: a full record last regenerated 180 s
   * ago is not regenerated by the charge (it is full), so it drops to 11;
   * the status call then finds a whole interval elapsed and restores it, and
   * the answered turn reports 12 points with the regeneration stamp moved to now.
   */
  lemma StaleFullRecordReportsFull(state: ServerState, req: Request, env: Env, process: Process, t: int)
    requires AllValid(state.sessions) && Identifiable(state.db, req, env)
    requires !HealthPoints.IsDevBypass(DevFor(env, Identify(state.db, req, env).1))
    requires state.ledger == map[Identify(state.db, req, env).1.id := HealthPoints.Record(12, 12, None, t)]
    requires env.now == t + 180
    ensures var (st, o) := Serve(state, req, env, process);
      var u := Identify(state.db, req, env).1.id;
      o.Answered? ==>
        o.health.currentPoints == 12 && st.ledger[u] == HealthPoints.Record(12, 12, Some(t + 180), t + 180)
  {
    var (st, o) := Serve(state, req, env, process);
    if o.Answered? {
      ServeAnswer(state, req, env, process);
      var user := Identify(state.db, req, env).1;
      HealthPoints.StaleFullChargeThenStatus(user.id, t, DevFor(env, user));
    }
  }

  /**
   * With logging undisturbed, the reply names the user the point was charged
   * to, and calls the conversation new exactly when at most two messages of
   * it were logged before this turn: the as-written test of `log_interaction`.
   */
  lemma AnsweredInfoNamesTheUser(state: ServerState, req: Request, env: Env, process: Process)
    requires AllValid(state.sessions) && Identifiable(state.db, req, env) && env.logFaultAt == 0
    ensures var (st, o) := Serve(state, req, env, process);
      o.Answered? ==> o.userInfo.anonymousId == Some(Identify(state.db, req, env).1.anonymousId)
    ensures var (st, o) := Serve(state, req, env, process);
      o.Answered? ==> (o.userInfo.isNewConversation <==> Orchestrator.CountBefore(state.db, req.conversationId) <= 2)
  {
    var (st, o) := Serve(state, req, env, process);
    if o.Answered? {
      AnsweredTurnIsLogged(state, req, env, process);
      LoggedInfo(state.db, req, env, o.response, o.ragContext);
    }
  }

  /** What the as-written log of a turn reports, for any response, when no step of it raises. */
  lemma LoggedInfo(db: Store.Db, req: Request, env: Env, response: string, added: string)
    requires Identifiable(db, req, env) && env.logFaultAt == 0
    ensures var info := InfoOf(LogTurn(Identify(db, req, env).0, req, env, response, added).1, req.platform);
      && info.anonymousId == Some(Identify(db, req, env).1.anonymousId)
      && (info.isNewConversation <==> Orchestrator.CountBefore(db, req.conversationId) <= 2)
  {
    var db1 := Identify(db, req, env).0;
    Store.SameUtlnSameUser(db, req.utln, env.sha256, env.candidates, env.candidates, env.now, env.now);
    Orchestrator.LogOutcome(Orchestrator.IsNewAsWritten, db1, req.utln, req.conversationId, req.message, response,
      req.platform, Some(added), env.modelName, env.responseTimeMs, env.sha256, env.candidates, env.render,
      env.now, 0);
    assert db1.conversations == db.conversations;
  }

  /**
   * The route reports a conversation new on its second turn too: when one
   * turn (two messages) of it is already logged, an answered turn still says
   * `is_new_conversation`.
   */
  lemma SecondAnsweredTurnReportedNew(state: ServerState, req: Request, env: Env, process: Process, k: nat)
    requires AllValid(state.sessions) && Identifiable(state.db, req, env) && env.logFaultAt == 0
    requires Store.FindConversation(state.db.conversations, req.conversationId) == Some(k)
    requires k < |state.db.conversations| && state.db.conversations[k].messageCount == 2
    ensures var (st, o) := Serve(state, req, env, process);
      o.Answered? ==> o.userInfo.isNewConversation
  {
    AnsweredInfoNamesTheUser(state, req, env, process);
  }

  /** The reply of the non-streaming endpoint. */
  datatype TurnReply =
    | BadRequest400
    | TooManyRequests429(health: HealthPoints.HealthStatus)
    | InternalError500
    | Ok200(response: string, ragContext: string, conversationId: string, userInfo: UserInfo,
            health: HealthPoints.HealthStatus)

  /** The status code and body a turn's outcome is answered with. */
  function ReplyOf(o: Outcome, conversationId: string): TurnReply
  {
    match o
    case Blank => BadRequest400
    case Refused(health) => TooManyRequests429(health)
    case Failed => InternalError500
    case Answered(response, added, info, health) => Ok200(response, added, conversationId, info, health)
  }

  /**
   * `chat_handler` of server/routes/chat.py after authentication: 400 for a
   * blank message, 429 with the health status when the charge is refused,
   * 500 when `process_query` raises, otherwise 200 with the response, this
   * turn's context, the conversation id, the user info and the health status.
   */
  function ServerTurn(state: ServerState, req: Request, env: Env, process: Process): (res: (ServerState, TurnReply))
    requires AllValid(state.sessions) && Identifiable(state.db, req, env)
    ensures AllValid(res.0.sessions)
    ensures res.0 == Serve(state, req, env, process).0
    ensures res.1 == BadRequest400 <==> Strip(req.message) == ""
    ensures res.1.TooManyRequests429? <==> Strip(req.message) != "" && !Charge(state.ledger, state.db, req, env).1.success
    ensures res.1 == InternalError500 <==>
      Strip(req.message) != "" && Charge(state.ledger, state.db, req, env).1.success && Asked(state, req, env, process).None?
    ensures res.1.Ok200? ==>
      && res.1.conversationId == req.conversationId
      && Asked(state, req, env, process) == Some((res.1.response, res.1.ragContext))
      && res.1.health == StatusAfter(Charge(state.ledger, state.db, req, env).0, state.db, req, env).1
      && res.1.userInfo == InfoOf(LogTurn(Identify(state.db, req, env).0, req, env, res.1.response, res.1.ragContext).1, req.platform)
  {
    AnsweredTurnIsLogged(state, req, env, process);
    var (st, o) := Serve(state, req, env, process);
    (st, ReplyOf(o, req.conversationId))
  }

  /** The server-sent events of the streaming endpoint. */
  datatype StreamEvent =
    | MessageRequired
    | OutOfQueries(health: HealthPoints.HealthStatus)
    | Loading
    | Thinking
    | Complete(response: string, ragContext: string, conversationId: string, userInfo: UserInfo,
               health: HealthPoints.HealthStatus)
    | ErrorEvent

  /**
   * The events a turn's outcome is streamed as: the status updates come
   * first once the turn is charged, then the completion or the error.
   */
  function EventsOf(o: Outcome, conversationId: string): seq<StreamEvent>
  {
    match o
    case Blank => [MessageRequired]
    case Refused(health) => [OutOfQueries(health)]
    case Failed => [Loading, Thinking, ErrorEvent]
    case Answered(response, added, info, health) =>
      [Loading, Thinking, Complete(response, added, conversationId, info, health)]
  }

  /**
   * Each outcome's events carry the reply the plain route gives it: a
   * completion with the same fields exactly on a 200, a refusal with the same
   * health status exactly on a 429, an error event after the status updates
   * exactly on a 500.
   */
  lemma EventsMatchReply(o: Outcome, conversationId: string)
    ensures var (reply, events) := (ReplyOf(o, conversationId), EventsOf(o, conversationId));
      && (reply.Ok200? <==> |events| == 3 && events[2].Complete?)
      && (reply.Ok200? ==>
            events[2] == Complete(reply.response, reply.ragContext, reply.conversationId, reply.userInfo, reply.health))
      && (reply.TooManyRequests429? <==> |events| == 1 && events[0].OutOfQueries?)
      && (reply.TooManyRequests429? ==> events == [OutOfQueries(reply.health)])
      && (reply == InternalError500 <==> events == [Loading, Thinking, ErrorEvent])
      && (reply == BadRequest400 <==> events == [MessageRequired])
  {
  }

  /**
   * `chat_handler_stream`: the same steps, with the two status updates sent
   * once the conversation exists and before `process_query` runs, so a raise
   * there ends the stream with an error event after them.
   */
  function StreamTurn(state: ServerState, req: Request, env: Env, process: Process): (res: (ServerState, seq<StreamEvent>))
    requires AllValid(state.sessions) && Identifiable(state.db, req, env)
    ensures AllValid(res.0.sessions)
    ensures res.0 == Serve(state, req, env, process).0
    ensures Strip(req.message) == "" ==> res.1 == [MessageRequired]
    ensures |res.1| == 3 && res.1[2].Complete? ==>
      && res.1[2].conversationId == req.conversationId
      && Asked(state, req, env, process) == Some((res.1[2].response, res.1[2].ragContext))
      && res.1[2].userInfo == InfoOf(LogTurn(Identify(state.db, req, env).0, req, env, res.1[2].response, res.1[2].ragContext).1, req.platform)
      && res.1[2].health == StatusAfter(Charge(state.ledger, state.db, req, env).0, state.db, req, env).1
  {
    var (st, o) := Serve(state, req, env, process);
    var reply := ServerTurn(state, req, env, process).1;
    EventsMatchReply(o, req.conversationId);
    (st, EventsOf(o, req.conversationId))
  }

  /**
   * Both endpoints leave the same state, and each reply has its event: the
   * stream completes with the same fields exactly when the plain route
   * answers 200, refuses with the same health status exactly on a 429, and
   * ends in an error event exactly on a 500.
   */
  lemma StreamMatchesServerTurn(state: ServerState, req: Request, env: Env, process: Process)
    requires AllValid(state.sessions) && Identifiable(state.db, req, env)
    ensures var (s1, reply) := ServerTurn(state, req, env, process);
      var (s2, events) := StreamTurn(state, req, env, process);
      && s1 == s2
      && (reply.Ok200? <==> |events| == 3 && events[2].Complete?)
      && (reply.Ok200? ==>
            events[2] == Complete(reply.response, reply.ragContext, reply.conversationId, reply.userInfo, reply.health))
      && (reply.TooManyRequests429? <==> |events| == 1 && events[0].OutOfQueries?)
      && (reply.TooManyRequests429? ==> events == [OutOfQueries(reply.health)])
      && (reply == InternalError500 <==> events == [Loading, Thinking, ErrorEvent])
  {
    EventsMatchReply(Serve(state, req, env, process).1, req.conversationId);
  }

  /**
   * Over a run of successful turns that retrieve nothing, the system message
   * stays the base prompt and the history grows by two per turn.
   */
  lemma {:induction false} QuietTurnsKeepBasePrompt(s: Session, basePrompt: string, turns: seq<(string, string)>)
    requires SessionValid(s) && s.history[0].content == basePrompt
    ensures var s' := RunQuietTurns(s, basePrompt, turns);
      SessionValid(s') && s'.history[0] == s.history[0] && |s'.history| == |s.history| + 2 * |turns|
      && s'.accumulator == s.accumulator
    decreases |turns|
  {
    if turns != [] {
      var s1 := CompleteTurn(s, basePrompt, turns[0].0, turns[0].1, "");
      QuietTurnsKeepBasePrompt(s1, basePrompt, turns[1..]);
    }
  }

  /** Successive `CompleteTurn`s with no new context, one per (message, response). */
  function RunQuietTurns(s: Session, basePrompt: string, turns: seq<(string, string)>): (s': Session)
    requires SessionValid(s)
    ensures SessionValid(s')
    decreases |turns|
  {
    if turns == [] then s
    else RunQuietTurns(CompleteTurn(s, basePrompt, turns[0].0, turns[0].1, ""), basePrompt, turns[1..])
  }

  // ---------------------------------------------------------------------------
  // The older server
  // ---------------------------------------------------------------------------

  /** The older server's state additionally holds `conversation_rag_context`, raw retrievals per conversation. */
  datatype LegacyState = LegacyState(
    sessions: map<string, Session>, ragEntries: map<string, seq<RagFormat.Collection>>, ledger: HealthPoints.Ledger,
    db: Store.Db)

  /** The only value the older server ever stores in `conversation_rag_context`. */
  predicate RagEntriesEmpty(st: LegacyState) {
    forall cid :: cid in st.ragEntries ==> st.ragEntries[cid] == []
  }

  /**
   * `update_conversation_system_prompt`: with no stored retrieval the
   * system message is reset to the base prompt; otherwise it is the base
   * prompt and the simple rendering of the stored retrievals (None is the
   * KeyError of that rendering).
   */
  function UpdateConversationSystemPrompt(st: LegacyState, conversationId: string, basePrompt: string): (r: Option<LegacyState>)
    requires conversationId in st.sessions && SessionValid(st.sessions[conversationId])
    ensures r.Some? ==> r.value.ragEntries == st.ragEntries && r.value.ledger == st.ledger && r.value.db == st.db
    ensures r.Some? ==> conversationId in r.value.sessions && SessionValid(r.value.sessions[conversationId])
    ensures r.Some? ==> forall c :: c in st.sessions && c != conversationId ==> c in r.value.sessions && r.value.sessions[c] == st.sessions[c]
    ensures r.Some? ==> r.value.sessions.Keys == st.sessions.Keys
    ensures conversationId !in st.ragEntries || st.ragEntries[conversationId] == [] ==>
      r.Some? && r.value.sessions[conversationId].history[0].content == basePrompt
  {
    var s := st.sessions[conversationId];
    if conversationId !in st.ragEntries || st.ragEntries[conversationId] == [] then
      Some(st.(sessions := st.sessions[conversationId := s.(history := SetSystemContent(s.history, basePrompt))]))
    else
      match RagFormat.RagContextStringSimple(st.ragEntries[conversationId])
      case None => None
      case Some(text) =>
        Some(st.(sessions := st.sessions[conversationId := s.(history := SetSystemContent(s.history, basePrompt + "\n\n" + text))]))
  }

  /**
   * The steps of the older route before `process` runs: create the
   * conversation (history, accumulator, and a [] retrieval entry) when it is
   * new, then in development mode refresh the system message.
   */
  function LegacyPrepare(st: LegacyState, conversationId: string, basePrompt: string, developmentMode: string): (st': LegacyState)
    requires AllValid(st.sessions) && RagEntriesEmpty(st)
    ensures AllValid(st'.sessions) && RagEntriesEmpty(st') && st'.ledger == st.ledger && st'.db == st.db
    ensures conversationId in st'.sessions
    ensures forall c :: c != conversationId ==>
      (c in st'.sessions <==> c in st.sessions) && (c in st.sessions ==> st'.sessions[c] == st.sessions[c])
    ensures |st'.sessions[conversationId].history|
      == (if conversationId in st.sessions then |st.sessions[conversationId].history| else 1)
    ensures st'.sessions[conversationId].accumulator
      == (if conversationId in st.sessions then st.sessions[conversationId].accumulator else "")
    ensures Lower(developmentMode) == "true" ==> st'.sessions[conversationId].history[0] == LlmMessages.Message("system", basePrompt)
  {
    var st1 := if conversationId in st.sessions then st
               else st.(sessions := st.sessions[conversationId := NewSession(basePrompt)],
                        ragEntries := st.ragEntries[conversationId := []]);
    if Lower(developmentMode) == "true" then
      DevModeResetsToBasePrompt(st1, conversationId, basePrompt);
      UpdateConversationSystemPrompt(st1, conversationId, basePrompt).value
    else st1
  }

  /**
   * `enhanced_handler.process_chat_request` as the older route sees it: given
   * the history (the accumulated context is not passed), the response and
   * this turn's formatted context, or `None` when it raises.
   */
  type LegacyProcess = seq<Message> -> Option<(string, string)>

  /** The user info of the older route: what the query logger returned, or the defaults for `{}`. */
  function LegacyInfo(logged: Option<(string, bool)>, platform: string): UserInfo
  {
    match logged
    case Some((anonymousId, isNew)) => UserInfo(Some(anonymousId), platform, isNew)
    case None => UserInfo(None, platform, false)
  }

  /**
   * `chat_handler` of responses-api-server/index.py after authentication, as
   * an outcome: a blank message is turned away, anything else is admitted.
   * `logged` is what the query logger returned (its anonymous id and
   * new-conversation flag, or `None` for `{}`).
   */
  function LegacyServe(st: LegacyState, req: Request, env: Env, logged: Option<(string, bool)>, process: LegacyProcess)
    : (res: (LegacyState, Outcome))
    requires AllValid(st.sessions) && RagEntriesEmpty(st) && Identifiable(st.db, req, env)
    ensures AllValid(res.0.sessions) && RagEntriesEmpty(res.0)
    ensures res.1.Blank? <==> Strip(req.message) == ""
    ensures res.1.Blank? ==> res.0 == st
    ensures !res.1.Blank? ==> res == LegacyAdmit(st, req, env, logged, process)
  {
    if Strip(req.message) == "" then (st, Blank)
    else LegacyAdmit(st, req, env, logged, process)
  }

  /** The older route on a message that is not blank: the user lookup, the charge, and a refusal or an attempt. */
  function LegacyAdmit(st: LegacyState, req: Request, env: Env, logged: Option<(string, bool)>, process: LegacyProcess)
    : (res: (LegacyState, Outcome))
    requires AllValid(st.sessions) && RagEntriesEmpty(st) && Identifiable(st.db, req, env)
    ensures AllValid(res.0.sessions) && RagEntriesEmpty(res.0) && !res.1.Blank?
    ensures res.1.Refused? <==> !Charge(st.ledger, st.db, req, env).1.success
    ensures res.1.Refused? ==>
      var (ledger, health) := StatusAfter(Charge(st.ledger, st.db, req, env).0, st.db, req, env);
      res.0 == st.(ledger := ledger, db := Identify(st.db, req, env).0) && res.1.health == health
    ensures !res.1.Refused? ==>
      res == LegacyAttempt(st, req, env, logged, process, Charge(st.ledger, st.db, req, env).0, Identify(st.db, req, env).0)
  {
    var (db1, user) := Identify(st.db, req, env);
    var (ledger1, admission) := Charge(st.ledger, st.db, req, env);
    if !admission.success then
      var (ledger2, health) := StatusAfter(ledger1, st.db, req, env);
      (st.(ledger := ledger2, db := db1), Refused(health))
    else LegacyAttempt(st, req, env, logged, process, ledger1, db1)
  }

  /** The state the older route hands to `process`: the request's conversation prepared. */
  function Prepared(st: LegacyState, req: Request, env: Env): (p: LegacyState)
    requires AllValid(st.sessions) && RagEntriesEmpty(st)
    ensures AllValid(p.sessions) && RagEntriesEmpty(p) && req.conversationId in p.sessions
  {
    LegacyPrepare(st, req.conversationId, env.basePrompt, env.developmentMode)
  }

  /**
   * An admitted turn of the older route: prepare the conversation (created,
   * and in development mode reset to the base prompt), hand its history to
   * `process`, and on an answer record the turn and report the health status.
   * The point stays spent and the preparation stays when `process` raises.
   */
  function LegacyAttempt(st: LegacyState, req: Request, env: Env, logged: Option<(string, bool)>, process: LegacyProcess,
                         ledger1: HealthPoints.Ledger, db1: Store.Db)
    : (res: (LegacyState, Outcome))
    requires AllValid(st.sessions) && RagEntriesEmpty(st) && Identifiable(st.db, req, env)
    ensures AllValid(res.0.sessions) && RagEntriesEmpty(res.0) && (res.1.Failed? || res.1.Answered?)
    ensures req.conversationId in res.0.sessions
    ensures res.0.sessions == Prepared(st, req, env).sessions[req.conversationId := res.0.sessions[req.conversationId]]
    ensures res.1.Failed? <==> process(Prepared(st, req, env).sessions[req.conversationId].history).None?
    ensures res.1.Failed? ==> res.0 == Prepared(st, req, env).(ledger := ledger1, db := db1)
    ensures res.1.Answered? ==>
      && process(Prepared(st, req, env).sessions[req.conversationId].history) == Some((res.1.response, res.1.ragContext))
      && res.0.sessions[req.conversationId] ==
           CompleteTurn(Prepared(st, req, env).sessions[req.conversationId], env.basePrompt, req.message,
                        res.1.response, res.1.ragContext)
      && (res.0.ledger, res.1.health) == StatusAfter(ledger1, st.db, req, env)
      && res.0.db == db1 && res.1.userInfo == LegacyInfo(logged, req.platform)
  {
    var prepared := Prepared(st, req, env);
    var before := prepared.sessions[req.conversationId];
    match process(before.history)
    case None => (prepared.(ledger := ledger1, db := db1), Failed)
    case Some((response, added)) =>
      var after := CompleteTurn(before, env.basePrompt, req.message, response, added);
      StoreKeepsValid(prepared.sessions, req.conversationId, after);
      var (ledger2, health) := StatusAfter(ledger1, st.db, req, env);
      (LegacyState(prepared.sessions[req.conversationId := after], prepared.ragEntries, ledger2, db1),
       Answered(response, added, LegacyInfo(logged, req.platform), health))
  }

  /**
   * The older route's reply: 400 for a blank message, 429 with the health
   * status on a refused charge, 500 when the handler raises, otherwise 200.
   */
  function LegacyTurn(st: LegacyState, req: Request, env: Env, logged: Option<(string, bool)>, process: LegacyProcess)
    : (res: (LegacyState, TurnReply))
    requires AllValid(st.sessions) && RagEntriesEmpty(st) && Identifiable(st.db, req, env)
    ensures AllValid(res.0.sessions) && RagEntriesEmpty(res.0)
    ensures res.0 == LegacyServe(st, req, env, logged, process).0
    ensures res.1 == BadRequest400 <==> Strip(req.message) == ""
    ensures res.1.TooManyRequests429? <==> Strip(req.message) != "" && !Charge(st.ledger, st.db, req, env).1.success
    ensures res.1 == InternalError500 <==>
      && Strip(req.message) != "" && Charge(st.ledger, st.db, req, env).1.success
      && process(Prepared(st, req, env).sessions[req.conversationId].history).None?
    ensures res.1.Ok200? ==> res.1.conversationId == req.conversationId && res.1.userInfo == LegacyInfo(logged, req.platform)
  {
    var (st', o) := LegacyServe(st, req, env, logged, process);
    (st', ReplyOf(o, req.conversationId))
  }

  /** A turn of the older route on one conversation leaves every other conversation as it was. */
  lemma LegacyIsolatesConversations(st: LegacyState, req: Request, env: Env, logged: Option<(string, bool)>,
                                    process: LegacyProcess, other: string)
    requires AllValid(st.sessions) && RagEntriesEmpty(st) && Identifiable(st.db, req, env)
    requires other != req.conversationId
    ensures var s' := LegacyServe(st, req, env, logged, process).0.sessions;
      (other in s' <==> other in st.sessions) && (other in st.sessions ==> s'[other] == st.sessions[other])
  {
    var (st', o) := LegacyServe(st, req, env, logged, process);
    if !o.Blank? && !o.Refused? {
      var a := LegacyAttempt(st, req, env, logged, process, Charge(st.ledger, st.db, req, env).0, Identify(st.db, req, env).0);
      var prepared := Prepared(st, req, env).sessions;
      assert a.0.sessions == prepared[req.conversationId := a.0.sessions[req.conversationId]];
      assert st'.sessions == a.0.sessions;
      assert other in st'.sessions <==> other in prepared;
      if other in st.sessions {
        assert prepared[other] == st.sessions[other];
        OtherEntryKept(st'.sessions, prepared, req.conversationId, other);
      }
    } else {
      assert st'.sessions == st.sessions;
    }
  }

  /**
   * The older route's answer: the handler saw the prepared history, the
   * conversation becomes that turn completed, the ledger and health are
   * those of the status call after the charge, and only the user lookup
   * reached the database.
   */
  lemma LegacyAnswer(st: LegacyState, req: Request, env: Env, logged: Option<(string, bool)>, process: LegacyProcess)
    requires AllValid(st.sessions) && RagEntriesEmpty(st) && Identifiable(st.db, req, env)
    ensures var (st', o) := LegacyServe(st, req, env, logged, process);
      var prepared := Prepared(st, req, env);
      o.Answered? ==>
        && process(prepared.sessions[req.conversationId].history) == Some((o.response, o.ragContext))
        && st'.sessions == prepared.sessions[req.conversationId :=
             CompleteTurn(prepared.sessions[req.conversationId], env.basePrompt, req.message, o.response, o.ragContext)]
        && (st'.ledger, o.health) == StatusAfter(Charge(st.ledger, st.db, req, env).0, st.db, req, env)
        && st'.db == Identify(st.db, req, env).0
  {
  }

  /**
   * When the older route's handler raises, the point stays spent, the user
   * lookup stays stored, and the conversation stays as prepared.
   */
  lemma LegacyFailure(st: LegacyState, req: Request, env: Env, logged: Option<(string, bool)>, process: LegacyProcess)
    requires AllValid(st.sessions) && RagEntriesEmpty(st) && Identifiable(st.db, req, env)
    ensures var (st', o) := LegacyServe(st, req, env, logged, process);
      o.Failed? ==>
        st' == Prepared(st, req, env)
                 .(ledger := Charge(st.ledger, st.db, req, env).0, db := Identify(st.db, req, env).0)
  {
  }

  /**
   * In development mode the older route hands the model the bare base
   * prompt as its system message, whatever context the conversation had
   * accumulated.
   */
  lemma LegacyDevModeHidesAccumulatedContext(st: LegacyState, req: Request, env: Env, logged: Option<(string, bool)>,
                                             process: LegacyProcess)
    requires AllValid(st.sessions) && RagEntriesEmpty(st) && Identifiable(st.db, req, env)
    requires Lower(env.developmentMode) == "true"
    ensures var prepared := Prepared(st, req, env).sessions[req.conversationId];
      && prepared.history[0] == LlmMessages.Message("system", env.basePrompt)
      && prepared.accumulator == (if req.conversationId in st.sessions then st.sessions[req.conversationId].accumulator else "")
  {
  }

  /**
   * Because stored retrievals are always [], the development-mode update
   * always resets the system message to the base prompt: the model is handed
   * the bare prompt however much context was accumulated.
   */
  lemma DevModeResetsToBasePrompt(st: LegacyState, conversationId: string, basePrompt: string)
    requires conversationId in st.sessions && SessionValid(st.sessions[conversationId]) && RagEntriesEmpty(st)
    ensures var r := UpdateConversationSystemPrompt(st, conversationId, basePrompt);
      r.Some? && r.value.sessions[conversationId].history[0] == LlmMessages.Message("system", basePrompt)
      && r.value.sessions[conversationId].accumulator == st.sessions[conversationId].accumulator
  {
  }
}
