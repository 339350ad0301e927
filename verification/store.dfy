/**
 * The logging store shared by the SQLite manager (responses-api-server/database.py)
 * and the PostgreSQL adapter (adapters/database/render_postgres.py): anonymous
 * users keyed by the SHA-256 of their login name, conversations keyed by the
 * client's conversation id, and message rows with a per-conversation counter.
 *
 * Tables are sequences whose row ids are assigned by auto-increment
 * (`|table| + 1`). SHA-256 is the parameter `sha256`; the random draws of
 * `secrets.choice` are given as indexes into the two alphabets; the clock is `now`.
 */
module Store {
  import opened Common

  // ---------------------------------------------------------------------------
  // Anonymous identifiers
  // ---------------------------------------------------------------------------

  /** The shape of an anonymous id: six lower-case ASCII letters, then two digits ('aaaaaa00'). */
  predicate IsAnonymousId(s: string) {
    && |s| == 8
    && (forall i :: 0 <= i < 6 ==> IsLowerAscii(s[i]))
    && (forall i :: 6 <= i < 8 ==> IsDigit(s[i]))
  }

  /** `secrets.choice('abcdefghijklmnopqrstuvwxyz')` landing on position `k`. */
  function LetterAt(k: nat): char
    requires k < 26
  {
    ('a' as int + k) as char
  }

  /** `secrets.choice('0123456789')` landing on position `k`. */
  function DigitAt(k: nat): char
    requires k < 10
  {
    ('0' as int + k) as char
  }

  predicate ValidDraws(letterDraws: seq<nat>, digitDraws: seq<nat>) {
    && |letterDraws| == 6 && |digitDraws| == 2
    && (forall i :: 0 <= i < 6 ==> letterDraws[i] < 26)
    && (forall i :: 0 <= i < 2 ==> digitDraws[i] < 10)
  }

  /** `generate_anonymous_id()` for a given outcome of its eight random draws. */
  function GenerateAnonymousId(letterDraws: seq<nat>, digitDraws: seq<nat>): (id: string)
    requires ValidDraws(letterDraws, digitDraws)
    ensures IsAnonymousId(id)
  {
    seq(6, i requires 0 <= i < 6 => LetterAt(letterDraws[i]))
      + seq(2, i requires 0 <= i < 2 => DigitAt(digitDraws[i]))
  }

  function LetterDrawsOf(id: string): (d: seq<nat>)
    requires IsAnonymousId(id)
    ensures |d| == 6 && forall i :: 0 <= i < 6 ==> d[i] < 26
  {
    seq(6, i requires 0 <= i < 6 => (id[i] as int - 'a' as int) as nat)
  }

  function DigitDrawsOf(id: string): (d: seq<nat>)
    requires IsAnonymousId(id)
    ensures |d| == 2 && forall i :: 0 <= i < 2 ==> d[i] < 10
  {
    seq(2, i requires 0 <= i < 2 => (id[6 + i] as int - '0' as int) as nat)
  }

  /** Every string of the documented shape is some outcome of the draws, so the shape is exactly the range. */
  lemma EveryAnonymousIdIsDrawable(id: string)
    requires IsAnonymousId(id)
    ensures ValidDraws(LetterDrawsOf(id), DigitDrawsOf(id))
    ensures GenerateAnonymousId(LetterDrawsOf(id), DigitDrawsOf(id)) == id
  {
    var g := GenerateAnonymousId(LetterDrawsOf(id), DigitDrawsOf(id));
    forall i | 0 <= i < 8
      ensures g[i] == id[i]
    {
    }
  }

  // ---------------------------------------------------------------------------
  // Tables
  // ---------------------------------------------------------------------------

  datatype User = User(id: nat, utlnHash: string, anonymousId: string, lastActive: int)

  datatype Conversation = Conversation(
    id: nat, conversationId: string, userId: nat, platform: string, lastMessageAt: int, messageCount: int)

  datatype MessageRow = MessageRow(
    conversationRowId: nat, messageType: string, content: string, ragContext: Option<string>,
    modelUsed: Option<string>, temperature: Option<string>, responseTimeMs: Option<int>)

  datatype Db = Db(users: seq<User>, conversations: seq<Conversation>, messages: seq<MessageRow>)

  /** Row ids follow positions, and the two unique columns of `anonymous_users` are unique. */
  predicate UsersWellFormed(users: seq<User>) {
    && (forall i :: 0 <= i < |users| ==> users[i].id == i + 1)
    && (forall i, j :: 0 <= i < j < |users| ==> users[i].utlnHash != users[j].utlnHash)
    && (forall i, j :: 0 <= i < j < |users| ==> users[i].anonymousId != users[j].anonymousId)
  }

  /** `query(AnonymousUser).filter(utln_hash == h).first()` as a position. */
  function FindUserByHash(users: seq<User>, h: string): (k: Option<nat>)
    ensures k.Some? ==> k.value < |users| && users[k.value].utlnHash == h
    ensures k.Some? ==> forall j :: 0 <= j < k.value ==> users[j].utlnHash != h
    ensures k.None? <==> forall j :: 0 <= j < |users| ==> users[j].utlnHash != h
    decreases |users|
  {
    if users == [] then None
    else if users[0].utlnHash == h then Some(0)
    else match FindUserByHash(users[1..], h)
      case Some(k) => Some(k + 1)
      case None => None
  }

  predicate IdTaken(users: seq<User>, id: string) {
    exists j :: 0 <= j < |users| && users[j].anonymousId == id
  }

  /**
   * The `while True` loop of user creation over a finite prefix of the random
   * candidates: the first candidate no user holds, or `None` when every
   * candidate in the prefix is taken (the loop would still be drawing).
   */
  function FirstFreeId(candidates: seq<string>, users: seq<User>): (r: Option<string>)
    ensures r.Some? ==> r.value in candidates && !IdTaken(users, r.value)
    ensures r.None? <==> forall c :: c in candidates ==> IdTaken(users, c)
    decreases |candidates|
  {
    if candidates == [] then None
    else if !IdTaken(users, candidates[0]) then Some(candidates[0])
    else FirstFreeId(candidates[1..], users)
  }

  /** `query(Conversation).filter(user_id == id).count()` */
  function ConversationsOf(conversations: seq<Conversation>, userId: nat): nat {
    if conversations == [] then 0
    else
      var last := conversations[|conversations| - 1];
      ConversationsOf(conversations[..|conversations| - 1], userId) + (if last.userId == userId then 1 else 0)
  }

  /** What `get_or_create_anonymous_user` returns besides the new state: the user row and its conversation count. */
  datatype UserLookup = UserLookup(user: User, conversationCount: nat)

  /**
   * `get_or_create_anonymous_user(utln)`. An existing user (same hash) is
   * returned with `last_active` refreshed and their conversation count; a new
   * one gets the first free candidate id and reports 0 conversations.
   * `None` is the creation loop not having found a free id among the candidates.
   */
  function GetOrCreateAnonymousUser(db: Db, utln: string, sha256: string -> string, candidates: seq<string>, now: int)
    : (res: (Db, Option<UserLookup>))
    ensures res.0.conversations == db.conversations && res.0.messages == db.messages
    ensures res.1.None? <==> FindUserByHash(db.users, sha256(utln)).None? && FirstFreeId(candidates, db.users).None?
    ensures res.1.None? ==> res.0 == db
    ensures res.1.Some? ==> res.1.value.user.utlnHash == sha256(utln)
    ensures FindUserByHash(db.users, sha256(utln)).None? && res.1.Some? ==>
      && res.1.value.conversationCount == 0
      && res.1.value.user.anonymousId in candidates
      && !IdTaken(db.users, res.1.value.user.anonymousId)
      && res.0.users == db.users + [res.1.value.user]
    ensures FindUserByHash(db.users, sha256(utln)).Some? ==>
      var k := FindUserByHash(db.users, sha256(utln)).value;
      && res.1.Some?
      && res.1.value.user == db.users[k].(lastActive := now)
      && res.1.value.conversationCount == ConversationsOf(db.conversations, db.users[k].id)
      && res.0.users == db.users[k := db.users[k].(lastActive := now)]
  {
    var h := sha256(utln);
    match FindUserByHash(db.users, h)
    case Some(k) =>
      var u := db.users[k].(lastActive := now);
      (db.(users := db.users[k := u]), Some(UserLookup(u, ConversationsOf(db.conversations, u.id))))
    case None =>
      match FirstFreeId(candidates, db.users)
      case None => (db, None)
      case Some(anon) =>
        var u := User(|db.users| + 1, h, anon, now);
        (db.(users := db.users + [u]), Some(UserLookup(u, 0)))
  }

  /** Creating or touching a user keeps both unique columns unique and ids in step with positions. */
  lemma GetOrCreateKeepsUsersWellFormed(db: Db, utln: string, sha256: string -> string, candidates: seq<string>, now: int)
    requires UsersWellFormed(db.users)
    ensures UsersWellFormed(GetOrCreateAnonymousUser(db, utln, sha256, candidates, now).0.users)
  {
    var res := GetOrCreateAnonymousUser(db, utln, sha256, candidates, now);
    if FindUserByHash(db.users, sha256(utln)).None? && res.1.Some? {
      var users' := res.0.users;
      var n := |db.users|;
      forall i, j | 0 <= i < j < |users'|
        ensures users'[i].anonymousId != users'[j].anonymousId
      {
        if j == n {
          assert users'[i] == db.users[i];
        }
      }
    }
  }

  /**
   * The same login name always maps to the same anonymous identity: a second
   * call after a successful first one returns the same row id and anonymous id.
   */
  lemma SameUtlnSameUser(db: Db, utln: string, sha256: string -> string, c1: seq<string>, c2: seq<string>, t1: int, t2: int)
    requires GetOrCreateAnonymousUser(db, utln, sha256, c1, t1).1.Some?
    ensures var (db1, first) := GetOrCreateAnonymousUser(db, utln, sha256, c1, t1);
      var second := GetOrCreateAnonymousUser(db1, utln, sha256, c2, t2).1;
      && second.Some?
      && second.value.user.id == first.value.user.id
      && second.value.user.anonymousId == first.value.user.anonymousId
  {
    var (db1, first) := GetOrCreateAnonymousUser(db, utln, sha256, c1, t1);
    var h := sha256(utln);
    var k1 := FindUserByHash(db1.users, h);
    match FindUserByHash(db.users, h)
    case Some(k) =>
      assert db1.users[k].utlnHash == h;
      assert k1.Some? && k1.value == k;
    case None =>
      assert db1.users[|db.users|].utlnHash == h;
      assert k1.Some? && k1.value == |db.users|;
  }

  // ---------------------------------------------------------------------------
  // Conversations and messages
  // ---------------------------------------------------------------------------

  function FindConversation(conversations: seq<Conversation>, conversationId: string): (k: Option<nat>)
    ensures k.Some? ==> k.value < |conversations| && conversations[k.value].conversationId == conversationId
    ensures k.Some? ==> forall j :: 0 <= j < k.value ==> conversations[j].conversationId != conversationId
    ensures k.None? <==> forall j :: 0 <= j < |conversations| ==> conversations[j].conversationId != conversationId
    decreases |conversations|
  {
    if conversations == [] then None
    else if conversations[0].conversationId == conversationId then Some(0)
    else match FindConversation(conversations[1..], conversationId)
      case Some(k) => Some(k + 1)
      case None => None
  }

  /**
   * `get_or_create_conversation(conversation_id, user_data, platform)`: an
   * existing conversation is returned as stored, whatever user and platform
   * are passed; otherwise a new row with count 0 is appended.
   */
  function GetOrCreateConversation(db: Db, conversationId: string, userRowId: nat, platform: string, now: int)
    : (res: (Db, Conversation))
    ensures res.1.conversationId == conversationId
    ensures res.0.users == db.users && res.0.messages == db.messages
    ensures FindConversation(db.conversations, conversationId).Some? ==>
      res.0 == db && res.1 == db.conversations[FindConversation(db.conversations, conversationId).value]
    ensures FindConversation(db.conversations, conversationId).None? ==>
      && res.1 == Conversation(|db.conversations| + 1, conversationId, userRowId, platform, now, 0)
      && res.0.conversations == db.conversations + [res.1]
    ensures var k := FindConversation(res.0.conversations, conversationId);
      k.Some? && res.0.conversations[k.value] == res.1
  {
    match FindConversation(db.conversations, conversationId)
    case Some(k) => (db, db.conversations[k])
    case None =>
      var c := Conversation(|db.conversations| + 1, conversationId, userRowId, platform, now, 0);
      assert (db.conversations + [c])[|db.conversations|] == c;
      (db.(conversations := db.conversations + [c]), c)
  }

  /** The first creator stays the owner: a later call for the same id returns the first call's user and platform. */
  lemma FirstCreatorStaysOwner(db: Db, cid: string, user1: nat, user2: nat, p1: string, p2: string, t1: int, t2: int)
    ensures var (db1, c1) := GetOrCreateConversation(db, cid, user1, p1, t1);
      var c2 := GetOrCreateConversation(db1, cid, user2, p2, t2).1;
      c2.userId == c1.userId && c2.platform == c1.platform && c2.id == c1.id
  {
    var (db1, c1) := GetOrCreateConversation(db, cid, user1, p1, t1);
    if FindConversation(db.conversations, cid).None? {
      assert db1.conversations[|db.conversations|].conversationId == cid;
      assert FindConversation(db1.conversations, cid) == Some(|db.conversations|);
    }
  }

  /** `str(temperature) if temperature else None`: a zero temperature is stored as null. */
  function StoredTemperature(temperature: Option<real>, render: real -> string): (s: Option<string>)
    ensures s.None? <==> (temperature.None? || temperature.value == 0.0)
    ensures s.Some? ==> s.value == render(temperature.value)
  {
    match temperature
    case None => None
    case Some(t) => if t != 0.0 then Some(render(t)) else None
  }

  function Bump(c: Conversation, rowId: nat, now: int): Conversation {
    if c.id == rowId then c.(lastMessageAt := now, messageCount := c.messageCount + 1) else c
  }

  /**
   * `log_message(...)`: append the message row, and on the conversation row
   * with that id (if any) raise `message_count` by one and stamp `last_message_at`.
   */
  function LogMessage(
    db: Db, conversationRowId: nat, messageType: string, content: string, ragContext: Option<string>,
    modelUsed: Option<string>, temperature: Option<real>, render: real -> string, responseTimeMs: Option<int>, now: int)
    : (db': Db)
    ensures db'.users == db.users
    ensures db'.messages == db.messages + [MessageRow(conversationRowId, messageType, content, ragContext,
                                                      modelUsed, StoredTemperature(temperature, render), responseTimeMs)]
    ensures |db'.conversations| == |db.conversations|
    ensures forall i :: 0 <= i < |db.conversations| ==>
      if db.conversations[i].id == conversationRowId
      then db'.conversations[i].messageCount == db.conversations[i].messageCount + 1
        && db'.conversations[i].lastMessageAt == now
        && db'.conversations[i].(messageCount := 0, lastMessageAt := 0) == db.conversations[i].(messageCount := 0, lastMessageAt := 0)
      else db'.conversations[i] == db.conversations[i]
  {
    var row := MessageRow(conversationRowId, messageType, content, ragContext, modelUsed,
                          StoredTemperature(temperature, render), responseTimeMs);
    db.(messages := db.messages + [row],
        conversations := seq(|db.conversations|, i requires 0 <= i < |db.conversations| =>
                               Bump(db.conversations[i], conversationRowId, now)))
  }

  /** Number of stored message rows that belong to conversation row `rowId`. */
  function RowsFor(messages: seq<MessageRow>, rowId: nat): nat {
    if messages == [] then 0
    else
      var last := messages[|messages| - 1];
      RowsFor(messages[..|messages| - 1], rowId) + (if last.conversationRowId == rowId then 1 else 0)
  }

  /** The lookup by conversation id reads only the id column. */
  lemma {:induction false} FindConversationReadsIds(a: seq<Conversation>, b: seq<Conversation>, conversationId: string)
    requires |a| == |b| && forall i :: 0 <= i < |a| ==> a[i].conversationId == b[i].conversationId
    ensures FindConversation(a, conversationId) == FindConversation(b, conversationId)
    decreases |a|
  {
    if a != [] {
      FindConversationReadsIds(a[1..], b[1..], conversationId);
    }
  }

  /** `log_message` keeps every conversation findable where it was, with the same row id. */
  lemma LogMessageKeepsLookup(
    db: Db, rowId: nat, messageType: string, content: string, ragContext: Option<string>,
    modelUsed: Option<string>, temperature: Option<real>, render: real -> string, responseTimeMs: Option<int>, now: int,
    conversationId: string)
    ensures var db' := LogMessage(db, rowId, messageType, content, ragContext, modelUsed, temperature, render, responseTimeMs, now);
      var k := FindConversation(db.conversations, conversationId);
      && FindConversation(db'.conversations, conversationId) == k
      && (k.Some? ==> db'.conversations[k.value].id == db.conversations[k.value].id)
  {
    var db' := LogMessage(db, rowId, messageType, content, ragContext, modelUsed, temperature, render, responseTimeMs, now);
    forall i | 0 <= i < |db.conversations| ensures db.conversations[i].conversationId == db'.conversations[i].conversationId {
      if db.conversations[i].id == rowId {
        assert db'.conversations[i].(messageCount := 0, lastMessageAt := 0) == db.conversations[i].(messageCount := 0, lastMessageAt := 0);
      }
    }
    FindConversationReadsIds(db.conversations, db'.conversations, conversationId);
  }

  /** Every conversation's counter equals the number of message rows that point at it. */
  predicate CountsConsistent(db: Db) {
    forall i :: 0 <= i < |db.conversations| ==> db.conversations[i].messageCount == RowsFor(db.messages, db.conversations[i].id)
  }

  /** `log_message` keeps every counter equal to the number of logged rows. */
  lemma LogMessageKeepsCountsConsistent(
    db: Db, rowId: nat, messageType: string, content: string, ragContext: Option<string>,
    modelUsed: Option<string>, temperature: Option<real>, render: real -> string, responseTimeMs: Option<int>, now: int)
    requires CountsConsistent(db)
    ensures CountsConsistent(LogMessage(db, rowId, messageType, content, ragContext, modelUsed, temperature, render, responseTimeMs, now))
  {
    var db' := LogMessage(db, rowId, messageType, content, ragContext, modelUsed, temperature, render, responseTimeMs, now);
    assert db'.messages[..|db'.messages| - 1] == db.messages;
  }

  /** A conversation created by `get_or_create_conversation` starts consistent when no row points at its new id yet. */
  lemma NewConversationKeepsCountsConsistent(db: Db, cid: string, userRowId: nat, platform: string, now: int)
    requires CountsConsistent(db)
    requires RowsFor(db.messages, |db.conversations| + 1) == 0
    ensures CountsConsistent(GetOrCreateConversation(db, cid, userRowId, platform, now).0)
  {
  }
}
