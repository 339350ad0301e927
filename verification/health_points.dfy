/**
 * The per-user query budget ("health points"), as the SQLite manager and the
 * PostgreSQL adapter both implement it: a lazily regenerated counter with a
 * 12-point ceiling, one point back per 180 seconds, one point per query, and a
 * single development identity that is never charged.
 *
 * The database rows become a map from user id to `Record`; the clock becomes
 * an integer `now` in seconds; whether the caller is the development user
 * (`utln_hash == sha256("testuser")` and `DEVELOPMENT_MODE` reads "true") is
 * decided by `IsDevBypass` from values the caller supplies.
 */
module HealthPoints {
  import opened Common
  import Settings

  /** `max_points` given to every new record; the settings' `max_health_points`. */
  const MaxPoints: int := Settings.MaxHealthPoints
  /** Minutes per regenerated point (`health_regen_minutes`). */
  const RegenMinutes: int := Settings.HealthRegenMinutes
  /** The same interval in seconds, the unit the model's clock uses. */
  const RegenIntervalSeconds: int := RegenMinutes * 60
  /** Points one query costs. */
  const PointsPerQuery: int := 1

  type UserId = nat

  datatype Record = Record(current: int, maxPoints: int, lastQueryAt: Option<int>, lastRegenAt: int)

  type Ledger = map<UserId, Record>

  /** The ledger invariant: 0 <= current <= max. */
  predicate Valid(r: Record) {
    0 <= r.current <= r.maxPoints
  }

  predicate LedgerValid(l: Ledger) {
    forall u :: u in l ==> Valid(l[u])
  }

  /** Who is asking, as far as the bypass branch cares. */
  datatype DevContext = DevContext(developmentMode: string, userHash: Option<string>, testUserHash: string)

  /** The user row exists, its hash is SHA-256("testuser"), and `DEVELOPMENT_MODE.lower() == "true"`. */
  predicate IsDevBypass(d: DevContext) {
    d.userHash == Some(d.testUserHash) && Lower(d.developmentMode) == "true"
  }

  function FreshRecord(now: int): (r: Record)
    ensures Valid(r) && r.current == r.maxPoints == MaxPoints
    ensures r.lastQueryAt == None && r.lastRegenAt == now
  {
    Record(MaxPoints, MaxPoints, None, now)
  }

  function Lookup(l: Ledger, u: UserId): (r: Option<Record>)
    ensures r.Some? <==> u in l
    ensures u in l ==> r.value == l[u]
  {
    if u in l then Some(l[u]) else None
  }

  /** `int(minutes_elapsed / 3)`: whole intervals elapsed, truncated toward zero as Python's `int()` does. */
  function PointsDue(elapsed: int): int {
    if elapsed >= 0 then elapsed / RegenIntervalSeconds
    else -((-elapsed) / RegenIntervalSeconds)
  }

  lemma PointsDueIsFloor(elapsed: int)
    requires elapsed >= 0
    ensures PointsDue(elapsed) * RegenIntervalSeconds <= elapsed < (PointsDue(elapsed) + 1) * RegenIntervalSeconds
  {
  }

  lemma PointsDueNonPositive(elapsed: int)
    ensures PointsDue(elapsed) > 0 <==> elapsed >= RegenIntervalSeconds
  {
  }

  /** The record-level regeneration step of `regenerate_health_points`. */
  function Regenerate(r: Record, now: int): (r': Record)
    ensures Valid(r) ==> Valid(r')
    ensures r'.maxPoints == r.maxPoints && r'.lastQueryAt == r.lastQueryAt
    ensures r'.current >= r.current
    ensures r'.lastRegenAt == r.lastRegenAt || r'.lastRegenAt == now
    ensures r.current >= r.maxPoints ==> r' == r
    ensures now - r.lastRegenAt < RegenIntervalSeconds ==> r' == r
  {
    var points := PointsDue(now - r.lastRegenAt);
    if points > 0 && r.current < r.maxPoints then
      r.(current := if r.current + points < r.maxPoints then r.current + points else r.maxPoints,
         lastRegenAt := now)
    else r
  }

  /**
   * When regeneration changes a record it adds exactly the whole 180-second
   * intervals elapsed (capped at max), moves the stamp to `now`, and the
   * partial interval left over is dropped.
   */
  lemma RegenerateAddsWholeIntervals(r: Record, now: int)
    requires Valid(r)
    ensures var r' := Regenerate(r, now);
      && (r' != r <==> (now - r.lastRegenAt >= RegenIntervalSeconds && r.current < r.maxPoints))
      && (r' != r ==>
            && r'.lastRegenAt == now
            && (r'.current - r.current) * RegenIntervalSeconds <= now - r.lastRegenAt
            && (r'.current == r.maxPoints
                || now - r.lastRegenAt < (r'.current - r.current + 1) * RegenIntervalSeconds))
  {
    PointsDueNonPositive(now - r.lastRegenAt);
    if now - r.lastRegenAt >= 0 {
      PointsDueIsFloor(now - r.lastRegenAt);
    }
  }

  /** The stamp only moves forward while the clock does. */
  lemma RegenerateStampMonotone(r: Record, now: int)
    requires now >= r.lastRegenAt
    ensures Regenerate(r, now).lastRegenAt >= r.lastRegenAt
  {
  }

  /** `get_or_create_health_points`: a 12/12 record appears only when none exists. */
  function GetOrCreate(l: Ledger, u: UserId, now: int): (l': Ledger)
    ensures u in l' && l'.Keys == l.Keys + {u}
    ensures u in l ==> l' == l
    ensures u !in l ==> l'[u] == FreshRecord(now) && forall v :: v in l ==> l'[v] == l[v]
    ensures LedgerValid(l) ==> LedgerValid(l')
  {
    if u in l then l else l[u := FreshRecord(now)]
  }

  datatype RegenStatus = RegenStatus(currentPoints: int, maxPoints: int, canQuery: bool)

  /** `regenerate_health_points(user_id)`: create if missing, regenerate, report. */
  function RegenerateHealthPoints(l: Ledger, u: UserId, now: int): (res: (Ledger, RegenStatus))
    ensures u in res.0 && res.0.Keys == l.Keys + {u}
    ensures forall v :: v in l && v != u ==> res.0[v] == l[v]
    ensures res.1.currentPoints == res.0[u].current && res.1.maxPoints == res.0[u].maxPoints
    ensures res.1.canQuery <==> res.0[u].current > 0
    ensures u in l ==> res.0[u] == Regenerate(l[u], now)
    ensures u !in l ==> res.0[u] == FreshRecord(now)
    ensures LedgerValid(l) ==> LedgerValid(res.0)
  {
    var l1 := GetOrCreate(l, u, now);
    var r := Regenerate(l1[u], now);
    (l1[u := r], RegenStatus(r.current, r.maxPoints, r.current > 0))
  }

  /** `(success, current_points)` as `consume_health_point` returns it. */
  datatype Admission = Admission(success: bool, remaining: int)

  /**
   * The part of `consume_health_point` after regeneration, on the row as read
   * back (`None` models the defensive "row missing" branch, which creates a
   * full record). Returns the row to store and the admission.
   */
  function ConsumeRecord(stored: Option<Record>, now: int, dev: bool): (res: (Option<Record>, Admission))
    ensures stored.Some? && Valid(stored.value) ==> res.0.Some? && Valid(res.0.value)
    ensures stored.None? ==> res.0.Some? && res.1.success
    ensures res.1.success <==> (dev || stored.None? || stored.value.current > 0)
    ensures dev ==> res.0.Some? && res.1 == Admission(true, res.0.value.maxPoints) && res.0.value.current == res.0.value.maxPoints
    ensures !res.1.success ==> res.1.remaining == 0 && res.0 == stored
    ensures res.1.success ==> res.0.Some? && res.0.value.lastQueryAt == Some(now) && res.1.remaining == res.0.value.current
    ensures !dev && stored.Some? && stored.value.current > 0 ==>
      res.0 == Some(stored.value.(current := stored.value.current - PointsPerQuery, lastQueryAt := Some(now)))
  {
    var r := if stored.Some? then stored.value else FreshRecord(now);
    if dev then
      var r' := r.(current := r.maxPoints, lastQueryAt := Some(now));
      (Some(r'), Admission(true, r'.current))
    else if r.current > 0 then
      var r' := r.(current := r.current - 1, lastQueryAt := Some(now));
      (Some(r'), Admission(true, r'.current))
    else
      (stored, Admission(false, 0))
  }

  /** `consume_health_point(user_id)`: regenerate first, then charge one point (or bypass). */
  function ConsumeHealthPoint(l: Ledger, u: UserId, now: int, d: DevContext): (res: (Ledger, Admission))
    ensures u in res.0 && res.0.Keys == l.Keys + {u}
    ensures forall v :: v in l && v != u ==> res.0[v] == l[v]
  {
    var l1 := RegenerateHealthPoints(l, u, now).0;
    var (stored, adm) := ConsumeRecord(Lookup(l1, u), now, IsDevBypass(d));
    (if stored.Some? then l1[u := stored.value] else l1, adm)
  }

  /**
   * What one `consume_health_point` call does, stated against the record as
   * regeneration leaves it: the bypass refills and succeeds with max; otherwise
   * a positive balance is decremented by exactly one and stamped; otherwise
   * the answer is (False, 0) and the regenerated ledger is kept as it is.
   */
  lemma ConsumeOutcome(l: Ledger, u: UserId, now: int, d: DevContext)
    ensures var l1 := RegenerateHealthPoints(l, u, now).0;
      var (l', adm) := ConsumeHealthPoint(l, u, now, d);
      && (IsDevBypass(d) ==>
            adm == Admission(true, l1[u].maxPoints) && l'[u] == l1[u].(current := l1[u].maxPoints, lastQueryAt := Some(now)))
      && (!IsDevBypass(d) && l1[u].current > 0 ==>
            adm == Admission(true, l1[u].current - 1) && l'[u] == l1[u].(current := l1[u].current - 1, lastQueryAt := Some(now)))
      && (!IsDevBypass(d) && l1[u].current <= 0 ==> adm == Admission(false, 0) && l' == l1)
  {
  }

  /** Regeneration and consumption, bypass included, keep every record within 0..max. */
  lemma ConsumeKeepsLedgerValid(l: Ledger, u: UserId, now: int, d: DevContext)
    requires LedgerValid(l)
    ensures LedgerValid(ConsumeHealthPoint(l, u, now, d).0)
  {
    var l1 := RegenerateHealthPoints(l, u, now).0;
    assert Valid(l1[u]);
  }

  datatype HealthStatus = HealthStatus(currentPoints: int, maxPoints: int, canQuery: bool, secondsUntilNextPoint: int)

  /** The reporting part of `get_user_health_status`, on the row as read back. */
  function StatusOf(stored: Option<Record>, now: int, dev: bool): (s: HealthStatus)
    ensures stored.None? ==> s == HealthStatus(MaxPoints, MaxPoints, true, RegenIntervalSeconds)
    ensures stored.Some? && dev ==> s == HealthStatus(stored.value.maxPoints, stored.value.maxPoints, true, 0)
    ensures stored.Some? && !dev ==>
      && s.currentPoints == stored.value.current && s.maxPoints == stored.value.maxPoints
      && (s.canQuery <==> stored.value.current > 0)
      && 1 <= s.secondsUntilNextPoint <= RegenIntervalSeconds
      && (now - stored.value.lastRegenAt + s.secondsUntilNextPoint) % RegenIntervalSeconds == 0
  {
    match stored
    case None => HealthStatus(MaxPoints, MaxPoints, true, RegenIntervalSeconds)
    case Some(r) =>
      if dev then HealthStatus(r.maxPoints, r.maxPoints, true, 0)
      else
        var untilNext := RegenIntervalSeconds - (now - r.lastRegenAt) % RegenIntervalSeconds;
        HealthStatus(r.current, r.maxPoints, r.current > 0, if untilNext > 0 then untilNext else 0)
  }

  /** `get_user_health_status(user_id)`: regenerate (and store), then report. */
  function GetUserHealthStatus(l: Ledger, u: UserId, now: int, d: DevContext): (res: (Ledger, HealthStatus))
    ensures res.0 == RegenerateHealthPoints(l, u, now).0
  {
    var l1 := RegenerateHealthPoints(l, u, now).0;
    (l1, StatusOf(Lookup(l1, u), now, IsDevBypass(d)))
  }

  /** Because regeneration creates the row, the "no row" default of the status is never the answer. */
  lemma StatusNeverDefaults(l: Ledger, u: UserId, now: int, d: DevContext)
    ensures var l1 := RegenerateHealthPoints(l, u, now).0;
      var s := GetUserHealthStatus(l, u, now, d).1;
      && (IsDevBypass(d) ==> s == HealthStatus(l1[u].maxPoints, l1[u].maxPoints, true, 0))
      && (!IsDevBypass(d) ==> s.currentPoints == l1[u].current && (s.canQuery <==> l1[u].current > 0))
  {
  }

  /** A user seen for the first time reports a full budget of 12. */
  lemma FirstAccessIsFull(l: Ledger, u: UserId, now: int, d: DevContext)
    requires u !in l
    ensures GetUserHealthStatus(l, u, now, d).1.currentPoints == MaxPoints
    ensures GetUserHealthStatus(l, u, now, d).1.canQuery
  {
  }

  /** From 0 of 12, 360 seconds without queries bring the status to 2 points. */
  lemma RegenerationExample(t: int, d: DevContext)
    requires !IsDevBypass(d)
    ensures var l := map[7 := Record(0, MaxPoints, None, t)];
      GetUserHealthStatus(l, 7, t + 360, d).1.currentPoints == 2
  {
  }

  /** The bypass user is admitted with max points whatever the balance was. */
  lemma DevBypassAlwaysAdmits(l: Ledger, u: UserId, now: int, d: DevContext)
    requires IsDevBypass(d)
    ensures var (l', adm) := ConsumeHealthPoint(l, u, now, d);
      adm.success && adm.remaining == l'[u].maxPoints == l'[u].current
  {
  }

  /** One admission request: who asks, when, and in which development context. */
  datatype AdmitCall = AdmitCall(user: UserId, at: int, dev: DevContext)

  function RunAdmits(l: Ledger, calls: seq<AdmitCall>): Ledger
    decreases |calls|
  {
    if calls == [] then l
    else RunAdmits(ConsumeHealthPoint(l, calls[0].user, calls[0].at, calls[0].dev).0, calls[1..])
  }

  /** For every sequence of admissions (any users, any times), 0 <= current <= max keeps holding. */
  lemma {:induction false} AdmitsKeepLedgerValid(l: Ledger, calls: seq<AdmitCall>)
    requires LedgerValid(l)
    ensures LedgerValid(RunAdmits(l, calls))
    decreases |calls|
  {
    if calls != [] {
      ConsumeKeepsLedgerValid(l, calls[0].user, calls[0].at, calls[0].dev);
      AdmitsKeepLedgerValid(ConsumeHealthPoint(l, calls[0].user, calls[0].at, calls[0].dev).0, calls[1..]);
    }
  }

  /** `n` admissions by one user at the same instant; the number that succeed. */
  function Burst(l: Ledger, u: UserId, now: int, d: DevContext, n: nat): (res: (Ledger, nat))
    ensures res.1 <= n
    ensures u in l ==> u in res.0
    decreases n
  {
    if n == 0 then (l, 0)
    else
      var (l1, adm) := ConsumeHealthPoint(l, u, now, d);
      var (l2, k) := Burst(l1, u, now, d, n - 1);
      (l2, k + if adm.success then 1 else 0)
  }

  /**
   * With no point due (the last regeneration is under 180 seconds old), a
   * burst of n requests succeeds exactly min(n, current) times: the budget
   * cannot be over-spent by sequential admissions.
   */
  lemma {:induction false} BurstSucceedsAtMostBalance(l: Ledger, u: UserId, now: int, d: DevContext, n: nat)
    requires u in l && Valid(l[u]) && !IsDevBypass(d)
    requires now - l[u].lastRegenAt < RegenIntervalSeconds
    ensures Burst(l, u, now, d, n).1 == if n < l[u].current then n else l[u].current
    decreases n
  {
    if n > 0 {
      var (l1, adm) := ConsumeHealthPoint(l, u, now, d);
      ConsumeOutcome(l, u, now, d);
      ConsumeKeepsLedgerValid(map[u := l[u]], u, now, d);
      assert RegenerateHealthPoints(l, u, now).0[u] == l[u];
      BurstSucceedsAtMostBalance(l1, u, now, d, n - 1);
    }
  }

  /**
   * Time spent while full still counts: from a full record whose stamp is at
   * least one interval old, a burst at one instant gets max + 1 admissions,
   * because the first consume drops below max and the second one regenerates.
   */
  lemma FullWithStaleStampAdmitsOneExtra(u: UserId, t: int, d: DevContext)
    requires !IsDevBypass(d)
    ensures Burst(map[u := Record(MaxPoints, MaxPoints, None, t)], u, t + RegenIntervalSeconds, d, 20).1 == MaxPoints + 1
  {
    var l := map[u := Record(MaxPoints, MaxPoints, None, t)];
    var now := t + RegenIntervalSeconds;
    var (l1, a1) := ConsumeHealthPoint(l, u, now, d);
    assert l1[u] == Record(MaxPoints - 1, MaxPoints, Some(now), t);
    var (l2, a2) := ConsumeHealthPoint(l1, u, now, d);
    assert RegenerateHealthPoints(l1, u, now).0[u] == Record(MaxPoints, MaxPoints, Some(now), now);
    assert l2[u] == Record(MaxPoints - 1, MaxPoints, Some(now), now);
    BurstSucceedsAtMostBalance(l2, u, now, d, 18);
  }

  /**
   * The closing status call restores what the charge could not: a full
   * record stamped one interval ago is charged without regeneration, and the
   * status call that follows finds the interval elapsed and refills it.
   */
  lemma StaleFullChargeThenStatus(u: UserId, t: int, d: DevContext)
    requires !IsDevBypass(d)
    ensures var now := t + RegenIntervalSeconds;
      var charged := ConsumeHealthPoint(map[u := Record(MaxPoints, MaxPoints, None, t)], u, now, d).0;
      var (l, status) := GetUserHealthStatus(charged, u, now, d);
      u in charged && charged[u] == Record(MaxPoints - 1, MaxPoints, Some(now), t)
      && u in l && l[u] == Record(MaxPoints, MaxPoints, Some(now), now) && status.currentPoints == MaxPoints
  {
    var now := t + RegenIntervalSeconds;
    var charged := ConsumeHealthPoint(map[u := Record(MaxPoints, MaxPoints, None, t)], u, now, d).0;
    assert charged[u] == Record(MaxPoints - 1, MaxPoints, Some(now), t);
    assert RegenerateHealthPoints(charged, u, now).0[u] == Record(MaxPoints, MaxPoints, Some(now), now);
  }

  /**
   * `HealthPointsService.can_query`: the status's `can_query` entry, read
   * with `False` as the default for an absent key.
   */
  function CanQueryEntry(entry: Option<bool>): (b: bool)
    ensures b <==> entry == Some(true)
  {
    match entry
    case Some(flag) => flag
    case None => false
  }

  /**
   * The façade's `can_query(user_id)` over the adapter's status dictionary,
   * which always carries the entry: a user may query exactly when they are
   * the bypass user or still hold a point after regeneration.
   */
  function ServiceCanQuery(l: Ledger, u: UserId, now: int, d: DevContext): (res: (Ledger, bool))
    ensures res.0 == RegenerateHealthPoints(l, u, now).0
    ensures res.1 <==> IsDevBypass(d) || RegenerateHealthPoints(l, u, now).0[u].current > 0
  {
    var (l1, status) := GetUserHealthStatus(l, u, now, d);
    (l1, CanQueryEntry(Some(status.canQuery)))
  }

  /**
   * The documented regeneration rate at work: an emptied record gets nothing
   * back after 179 seconds and exactly one point after 180.
   */
  lemma DocumentedRegenerationInAction(t: int)
    ensures Regenerate(Record(0, MaxPoints, None, t), t + 179).current == 0
    ensures Regenerate(Record(0, MaxPoints, None, t), t + 180).current == 1
  {
    PointsDueIsFloor(179);
    PointsDueIsFloor(180);
  }

  /**
   * The documented budget at work: a first-time user is charged one point
   * per query and, at one instant, is admitted exactly 12 times out of 20.
   */
  lemma DocumentedBudgetInAction(u: UserId, t: int, d: DevContext)
    requires !IsDevBypass(d)
    ensures ConsumeHealthPoint(map[], u, t, d).1 == Admission(true, 11)
    ensures Burst(map[u := FreshRecord(t)], u, t, d, 20).1 == 12
  {
    BurstSucceedsAtMostBalance(map[u := FreshRecord(t)], u, t, d, 20);
  }
}
