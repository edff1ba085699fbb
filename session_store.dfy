/** The in-memory session store: token -> session, with lazy and sweep-based expiry. */
module SessionStore {
  import opened Results

  /** A timestamp; 0 stands for Go's zero `time.Time` (`IsZero`). */
  type Time = int

  /** A `time.Duration`, in the same unit as `Time`. */
  type Duration = int

  /** `ErrInvalidToken`, the only error this store reports. */
  datatype SessionError = InvalidToken

  /** `expiresAt == 0` means no explicit expiry was set. */
  datatype Session = Session(userID: int, sessionID: string, createdAt: Time, accessedAt: Time, expiresAt: Time)

  type Sessions = map<string, Session>

  /** Every entry is filed under its own token. */
  ghost predicate Indexed(sessions: Sessions)
  {
    forall t :: t in sessions ==> sessions[t].sessionID == t
  }

  // ---------------------------------------------------------------------------
  // Specification.
  // ---------------------------------------------------------------------------

  /** The map after `Create(userID)` filed a new session under `token` at time `now`. */
  function CreateStep(sessions: Sessions, userID: int, token: string, now: Time): (r: Sessions)
    ensures r.Keys == sessions.Keys + {token}
    ensures r[token].userID == userID && r[token].sessionID == token
    ensures r[token].createdAt == now && r[token].accessedAt == now && r[token].expiresAt == 0
    ensures forall t :: t in sessions && t != token ==> r[t] == sessions[t]
  {
    sessions[token := Session(userID, token, now, now, 0)]
  }

  /** True when the session's explicit expiry is set and lies before `now`. */
  predicate PastExplicitExpiry(sess: Session, now: Time)
  {
    sess.expiresAt != 0 && now > sess.expiresAt
  }

  /** The answer and the map after `Get(token)` at time `now`. */
  function GetStep(sessions: Sessions, token: string, now: Time): (r: (Result<Session, SessionError>, Sessions))
    ensures token !in sessions ==> r == (Err(InvalidToken), sessions)
    ensures token in sessions && PastExplicitExpiry(sessions[token], now) ==>
              r.0 == Err(InvalidToken) && r.1.Keys == sessions.Keys - {token}
    ensures token in sessions && !PastExplicitExpiry(sessions[token], now) ==>
              r.0.Ok? && r.1.Keys == sessions.Keys && r.1[token] == r.0.value
              && r.0.value == sessions[token].(accessedAt := now)
    ensures forall t :: t in r.1 && t != token ==> t in sessions && r.1[t] == sessions[t]
  {
    if token !in sessions then (Err(InvalidToken), sessions)
    else if PastExplicitExpiry(sessions[token], now) then (Err(InvalidToken), sessions - {token})
    else
      var sess := sessions[token].(accessedAt := now);
      (Ok(sess), sessions[token := sess])
  }

  /** The map after `Destroy(token)`. */
  function DestroyStep(sessions: Sessions, token: string): (r: Sessions)
    ensures r.Keys == sessions.Keys - {token}
    ensures forall t :: t in r ==> r[t] == sessions[t]
  {
    sessions - {token}
  }

  /**
   * The expiry `GC` applies: the explicit one, or, when there is none and the
   * idle limit is positive, the last access plus that limit; 0 means "never".
   */
  function EffectiveExpiry(sess: Session, maxLifeTime: Duration): Time
  {
    if sess.expiresAt == 0 && maxLifeTime > 0 then sess.accessedAt + maxLifeTime else sess.expiresAt
  }

  /** True when a `GC(maxLifeTime)` sweep at `now` removes this session. */
  predicate Expired(sess: Session, maxLifeTime: Duration, now: Time)
  {
    var at := EffectiveExpiry(sess, maxLifeTime);
    at != 0 && now > at
  }

  /** The map after a `GC(maxLifeTime)` sweep at time `now`. */
  function GcStep(sessions: Sessions, maxLifeTime: Duration, now: Time): (r: Sessions)
    ensures forall t :: t in r <==> t in sessions && !Expired(sessions[t], maxLifeTime, now)
    ensures forall t :: t in r ==> r[t] == sessions[t]
  {
    map t | t in sessions && !Expired(sessions[t], maxLifeTime, now) :: sessions[t]
  }

  // ---------------------------------------------------------------------------
  // Properties.
  // ---------------------------------------------------------------------------

  /** Every operation keeps each session filed under its own token. */
  lemma OperationsKeepIndexed(sessions: Sessions, userID: int, token: string, now: Time, maxLifeTime: Duration)
    requires Indexed(sessions)
    ensures Indexed(CreateStep(sessions, userID, token, now))
    ensures Indexed(GetStep(sessions, token, now).1)
    ensures Indexed(DestroyStep(sessions, token))
    ensures Indexed(GcStep(sessions, maxLifeTime, now))
  {
  }

  /** Destroying twice is destroying once. */
  lemma DestroyIdempotent(sessions: Sessions, token: string)
    ensures DestroyStep(DestroyStep(sessions, token), token) == DestroyStep(sessions, token)
  {
  }

  /**
   * Idle timeout: with a positive limit, a session without explicit expiry is
   * swept once its last access plus the limit lies before `now`, and kept otherwise.
   */
  lemma GcIdleTimeout(sessions: Sessions, token: string, maxLifeTime: Duration, now: Time)
    requires token in sessions && sessions[token].expiresAt == 0 && maxLifeTime > 0
    // The computed expiry is tested with `IsZero` like an explicit one, so a sum of exactly 0 means "never".
    requires sessions[token].accessedAt + maxLifeTime != 0
    ensures token !in GcStep(sessions, maxLifeTime, now) <==> sessions[token].accessedAt + maxLifeTime < now
  {
  }

  /** With no positive idle limit, a sweep keeps every session that has no explicit expiry. */
  lemma GcWithoutLimitKeepsUnexpiring(sessions: Sessions, maxLifeTime: Duration, now: Time)
    requires maxLifeTime <= 0
    ensures forall t :: t in sessions && sessions[t].expiresAt == 0 ==> t in GcStep(sessions, maxLifeTime, now)
  {
  }

  /** A sweep never adds sessions, never alters survivors, and a second sweep at the same instant changes nothing. */
  lemma GcIdempotent(sessions: Sessions, maxLifeTime: Duration, now: Time)
    ensures GcStep(sessions, maxLifeTime, now).Keys <= sessions.Keys
    ensures GcStep(GcStep(sessions, maxLifeTime, now), maxLifeTime, now) == GcStep(sessions, maxLifeTime, now)
  {
  }

  /** A later sweep removes at least what an earlier one would have removed. */
  lemma GcMonotoneInTime(sessions: Sessions, maxLifeTime: Duration, early: Time, late: Time)
    requires early <= late
    ensures GcStep(sessions, maxLifeTime, late).Keys <= GcStep(sessions, maxLifeTime, early).Keys
  {
  }

  /** A session that `Get` just accepted at `now` survives a sweep at that same instant, whatever the limit. */
  lemma GetThenGcKeeps(sessions: Sessions, token: string, now: Time, maxLifeTime: Duration)
    requires GetStep(sessions, token, now).0.Ok?
    ensures token in GcStep(GetStep(sessions, token, now).1, maxLifeTime, now)
  {
  }

  /** For a session with an explicit expiry, `Get`'s lazy check and `GC` agree on whether it is gone. */
  lemma LazyExpiryAgreesWithGc(sessions: Sessions, token: string, now: Time, maxLifeTime: Duration)
    requires token in sessions && sessions[token].expiresAt != 0
    ensures GetStep(sessions, token, now).0.Err? <==> token !in GcStep(sessions, maxLifeTime, now)
  {
  }

  /** A call on the store, with the time its `time.Now()` reads. */
  datatype SessionOp =
    | CreateOp(userID: int, token: string, now: Time)
    | GetOp(token: string, now: Time)
    | DestroyOp(token: string)
    | GcOp(maxLifeTime: Duration, now: Time)

  function Apply(sessions: Sessions, op: SessionOp): Sessions
  {
    match op
    case CreateOp(userID, token, now) => CreateStep(sessions, userID, token, now)
    case GetOp(token, now) => GetStep(sessions, token, now).1
    case DestroyOp(token) => DestroyStep(sessions, token)
    case GcOp(maxLifeTime, now) => GcStep(sessions, maxLifeTime, now)
  }

  /** The map after the calls `ops`, applied in order. */
  function Run(sessions: Sessions, ops: seq<SessionOp>): Sessions
    decreases |ops|
  {
    if ops == [] then sessions else Run(Apply(sessions, ops[0]), ops[1..])
  }

  /** True when some call among `ops` is a `Create` that handed out `token`. */
  predicate Issues(ops: seq<SessionOp>, token: string)
  {
    exists i :: 0 <= i < |ops| && ops[i].CreateOp? && ops[i].token == token
  }

  /** A token the store never handed out is refused by `Get`, whatever happened before. */
  lemma {:induction false} NeverIssuedIsRefused(sessions: Sessions, ops: seq<SessionOp>, token: string, now: Time)
    requires token !in sessions && !Issues(ops, token)
    ensures GetStep(Run(sessions, ops), token, now).0 == Err(InvalidToken)
    decreases |ops|
  {
    if ops != [] {
      assert !Issues(ops[1..], token) by {
        forall i | 0 <= i < |ops[1..]| ensures !(ops[1..][i].CreateOp? && ops[1..][i].token == token) {
          assert ops[1..][i] == ops[i + 1];
        }
      }
      NeverIssuedIsRefused(Apply(sessions, ops[0]), ops[1..], token, now);
    }
  }

  /** No call ever files a session under a token other than its own. */
  lemma {:induction false} RunKeepsIndexed(sessions: Sessions, ops: seq<SessionOp>)
    requires Indexed(sessions)
    ensures Indexed(Run(sessions, ops))
    decreases |ops|
  {
    if ops != [] {
      var op := ops[0];
      match op {
        case CreateOp(userID, token, now) => OperationsKeepIndexed(sessions, userID, token, now, 0);
        case GetOp(token, now) => OperationsKeepIndexed(sessions, 0, token, now, 0);
        case DestroyOp(token) => OperationsKeepIndexed(sessions, 0, token, 0, 0);
        case GcOp(maxLifeTime, now) => OperationsKeepIndexed(sessions, 0, "", now, maxLifeTime);
      }
      RunKeepsIndexed(Apply(sessions, op), ops[1..]);
    }
  }

  // ---------------------------------------------------------------------------
  // The store itself.
  // ---------------------------------------------------------------------------

  class InMemorySessionStore {
    var sessions: Sessions

    ghost predicate Valid()
      reads this
    {
      Indexed(sessions)
    }

    /** `NewInMemorySessionStore`: an empty map. */
    constructor ()
      ensures Valid() && sessions == map[]
    {
      sessions := map[];
    }

    /** `Create`: `token` is what the token generator returned, `now` the clock. Never fails. */
    method Create(userID: int, token: string, now: Time) returns (r: Result<string, SessionError>)
      requires Valid()
      modifies this
      ensures Valid()
      ensures r == Ok(token)
      ensures sessions == CreateStep(old(sessions), userID, token, now)
    {
      sessions := sessions[token := Session(userID, token, now, now, 0)];
      r := Ok(token);
    }

    /** `Get`: absent -> error; explicitly expired -> removed and error; else `accessedAt` refreshed. */
    method Get(token: string, now: Time) returns (r: Result<Session, SessionError>)
      requires Valid()
      modifies this
      ensures Valid()
      ensures (r, sessions) == GetStep(old(sessions), token, now)
      ensures r.Ok? ==> r.value.sessionID == token && r.value.accessedAt == now
    {
      if token !in sessions {
        return Err(InvalidToken);
      }
      var sess := sessions[token];
      if sess.expiresAt != 0 && now > sess.expiresAt {
        var _ := Destroy(token);
        return Err(InvalidToken);
      }
      sess := sess.(accessedAt := now);
      sessions := sessions[token := sess];
      r := Ok(sess);
    }

    /** `Destroy`: removes the entry if present; never fails. */
    method Destroy(token: string) returns (err: Outcome<SessionError>)
      requires Valid()
      modifies this
      ensures Valid()
      ensures err == Pass
      ensures sessions == DestroyStep(old(sessions), token)
    {
      sessions := sessions - {token};
      err := Pass;
    }

    /** `GC`: one pass over the entries, deleting each expired one as it is visited. */
    method GC(maxLifeTime: Duration, now: Time)
      requires Valid()
      modifies this
      ensures Valid()
      ensures sessions == GcStep(old(sessions), maxLifeTime, now)
    {
      ghost var start := sessions;
      var pending := sessions.Keys;
      while pending != {}
        invariant pending <= start.Keys
        invariant forall t :: t in sessions <==> t in start && (t in pending || !Expired(start[t], maxLifeTime, now))
        invariant forall t :: t in sessions ==> sessions[t] == start[t]
        invariant Valid()
        decreases pending
      {
        var t :| t in pending;
        var sess := sessions[t];
        var expireAt := sess.expiresAt;
        if expireAt == 0 && maxLifeTime > 0 {
          expireAt := sess.accessedAt + maxLifeTime;
        }
        if expireAt != 0 && now > expireAt {
          sessions := sessions - {t};
        }
        pending := pending - {t};
      }
    }
  }
}
