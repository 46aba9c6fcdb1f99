/** The session life cycle: register, login, validate, revoke. */
module Authentication {
  import opened Basics
  import opened Storage

  const MIN_API_KEY_LEN := 16
  const MAX_SESSION_ID_LEN := 256
  /** The length of `secrets.token_urlsafe(32)`. */
  const TOKEN_LEN := 43

  datatype UserSession = UserSession(
    userId: Text, role: Text, sessionRef: SessionRef, createdAt: real, expiresAt: real)

  datatype AuthError =
    | InvalidCredentials | MissingSession | InvalidSession | SessionRevoked | SessionExpired | TokenCollision

  datatype Result<+T> = Ok(value: T) | Err(error: AuthError)

  predicate UserIdChar(c: CodePoint) {
    48 <= c <= 57 || 65 <= c <= 90 || 97 <= c <= 122 || c in [95, 46, 64, 45]
  }

  /** `[A-Za-z0-9_.@\-]{1,64}` */
  predicate ValidUserId(id: Text) {
    1 <= |id| <= 64 && forall i :: 0 <= i < |id| ==> UserIdChar(id[i])
  }

  /** One to sixty-four characters of the classes A-Z, a-z, 0-9 and of `_`, `.`, `@` and `-`. */
  lemma ValidUserIdIff(id: Text)
    ensures ValidUserId(id)
            <==> 1 <= |id| <= 64 && forall c :: c in id ==>
                   || 'A' as int <= c <= 'Z' as int || 'a' as int <= c <= 'z' as int || '0' as int <= c <= '9' as int
                   || c == '_' as int || c == '.' as int || c == '@' as int || c == '-' as int
  {
    assert forall i :: 0 <= i < |id| ==> id[i] in id;
  }

  /** The checks of `validate`, in order. */
  function Validate(t: Tables, sessionId: Text, now: real): Result<UserSession> {
    if sessionId == [] then Err(MissingSession)
    else if |sessionId| > MAX_SESSION_ID_LEN then Err(InvalidSession)
    else
      var hash := Sha256(sessionId);
      match JoinedSession(t, hash)
      case None => Err(InvalidSession)
      case Some(row) =>
        if row.session.revoked then Err(SessionRevoked)
        else if now >= row.session.expiresAt then Err(SessionExpired)
        else Ok(UserSession(row.session.userId, row.role, Prefix(hash), row.session.createdAt, row.session.expiresAt))
  }

  /** What a login comes to. `token` is what the random source returns; the sessions table refuses a
      token that it holds already. */
  function LoginOf(t: Tables, userId: Text, apiKey: Text, token: Text, now: real, ttl: real): Result<UserSession> {
    if !ValidUserId(userId) || userId !in t.users || t.users[userId].apiKeyHash != Sha256(apiKey)
    then Err(InvalidCredentials)
    else if Sha256(token) in t.sessions then Err(TokenCollision)
    else Ok(UserSession(userId, t.users[userId].role, Prefix(Sha256(token)), now, now + ttl))
  }

  function WithSession(sessions: map<Digest, Session>, id: Text, userId: Text, time: real, ttl: real): map<Digest,
      Session> {
    sessions[Sha256(id) := Session(userId, time, time + ttl, false)]
  }

  function WithRevocation(sessions: map<Digest, Session>, id: Text): map<Digest, Session> {
    if Sha256(id) in sessions then sessions[Sha256(id) := sessions[Sha256(id)].(revoked := true)] else sessions
  }

  // ----- history -------------------------------------------------------------------------------

  datatype Event =
    | Issued(id: Text, userId: Text, time: real)
    | Revoked(id: Text)

  /** The sessions table after these events. */
  function SessionsAfter(log: seq<Event>, ttl: real): map<Digest, Session> {
    if log == [] then map[] else
      SessionsNext(SessionsAfter(log[..|log| - 1], ttl), log[|log| - 1], ttl)
  }

  function SessionsNext(sessions: map<Digest, Session>, e: Event, ttl: real): map<Digest, Session> {
    match e
    case Issued(id, user, t) => WithSession(sessions, id, user, t, ttl)
    case Revoked(id) => WithRevocation(sessions, id)
  }

  ghost predicate IssuedAt(log: seq<Event>, i: int, id: Text) {
    0 <= i < |log| && log[i].Issued? && log[i].id == id
  }

  /** No token is handed out twice. */
  ghost predicate FreshTokens(log: seq<Event>) {
    forall i, j, id :: IssuedAt(log, i, id) && IssuedAt(log, j, id) ==> i == j
  }

  /** A login issued this id, no revocation followed and the time to live has not passed. */
  ghost predicate Live(log: seq<Event>, ttl: real, id: Text, now: real) {
    exists i :: IssuedAt(log, i, id) && now < log[i].time + ttl && !RevokedAfter(log, i, id)
  }

  ghost predicate RevokedAfter(log: seq<Event>, i: int, id: Text) {
    exists j :: 0 <= i < j < |log| && log[j] == Revoked(id)
  }

  lemma {:induction false} TableIsHistory(log: seq<Event>, ttl: real, id: Text)
    requires FreshTokens(log)
    ensures Sha256(id) in SessionsAfter(log, ttl) <==> exists i :: IssuedAt(log, i, id)
    ensures forall i :: IssuedAt(log, i, id) ==>
              SessionsAfter(log, ttl)[Sha256(id)]
              == Session(log[i].userId, log[i].time, log[i].time + ttl, RevokedAfter(log, i, id))
    decreases |log|
  {
    if log != [] {
      var prior, n := log[..|log| - 1], |log| - 1;
      forall i, j, k | IssuedAt(prior, i, k) && IssuedAt(prior, j, k) ensures i == j {
        assert IssuedAt(log, i, k) && IssuedAt(log, j, k);
      }
      TableIsHistory(prior, ttl, id);
      forall i | i < n ensures IssuedAt(log, i, id) <==> IssuedAt(prior, i, id) {}
      if IssuedAt(log, n, id) {
        forall i | IssuedAt(log, i, id) ensures i == n {}
        assert !RevokedAfter(log, n, id);
      } else {
        forall i | IssuedAt(prior, i, id)
          ensures RevokedAfter(log, i, id) <==> RevokedAfter(prior, i, id) || log[n] == Revoked(id)
        {
          if RevokedAfter(prior, i, id) {
            var j :| i < j < |prior| && prior[j] == Revoked(id);
            assert log[j] == Revoked(id);
          }
        }
        if i :| IssuedAt(prior, i, id) {
          assert IssuedAt(log, i, id);
        }
      }
    }
  }

  /** Every issued id is a token, for a user that exists. */
  ghost predicate KnownIssues(users: map<Text, User>, log: seq<Event>) {
    forall i :: 0 <= i < |log| && log[i].Issued? ==> |log[i].id| == TOKEN_LEN && log[i].userId in users
  }

  /** The table of users and sessions after this history. */
  ghost predicate Holds(t: Tables, log: seq<Event>, ttl: real) {
    FreshTokens(log) && t.sessions == SessionsAfter(log, ttl) && KnownIssues(t.users, log)
  }

  /** Validation succeeds if and only if the session is live, and then reports the user who logged
      in with the role the users table holds now. */
  lemma ValidIffLive(t: Tables, log: seq<Event>, ttl: real, id: Text, now: real)
    requires Holds(t, log, ttl)
    ensures Validate(t, id, now).Ok? <==> Live(log, ttl, id, now)
    ensures Validate(t, id, now).Ok? ==>
              exists i :: && IssuedAt(log, i, id)
                          && Validate(t, id, now).value
                             == UserSession(log[i].userId, t.users[log[i].userId].role, Prefix(Sha256(id)),
                                            log[i].time, log[i].time + ttl)
  {
    TableIsHistory(log, ttl, id);
    if i :| IssuedAt(log, i, id) {
      forall j | IssuedAt(log, j, id) ensures j == i {}
    }
  }

  /** Why a session is refused: nothing was sent; it was never issued, or is longer than 256 characters, which no
      issued one is; it was revoked; or, being issued and not revoked, its time is over. */
  lemma RefusalIsTold(t: Tables, log: seq<Event>, ttl: real, id: Text, now: real)
    requires Holds(t, log, ttl)
    ensures Validate(t, id, now) == Err(MissingSession) <==> id == []
    ensures Validate(t, id, now) == Err(InvalidSession) <==> id != [] && forall i :: !IssuedAt(log, i, id)
    ensures Validate(t, id, now) == Err(SessionRevoked)
            <==> exists i :: IssuedAt(log, i, id) && RevokedAfter(log, i, id)
    ensures Validate(t, id, now) == Err(SessionExpired)
            <==> exists i :: IssuedAt(log, i, id) && !RevokedAfter(log, i, id) && log[i].time + ttl <= now
  {
    TableIsHistory(log, ttl, id);
    if i :| IssuedAt(log, i, id) {
      forall j | IssuedAt(log, j, id) ensures j == i {}
      assert |log[i].id| == TOKEN_LEN;
    }
  }

  /** A session that has stopped being live never becomes live again. */
  lemma DeadStaysDead(log: seq<Event>, later: seq<Event>, ttl: real, id: Text, now: real, after: real)
    requires log <= later && FreshTokens(later) && now <= after
    requires (exists i :: IssuedAt(log, i, id)) && !Live(log, ttl, id, now)
    ensures !Live(later, ttl, id, after)
  {
    var i :| IssuedAt(log, i, id);
    assert IssuedAt(later, i, id);
    forall k | IssuedAt(later, k, id) ensures k == i {}
    if RevokedAfter(log, i, id) {
      var j :| i < j < |log| && log[j] == Revoked(id);
      assert later[j] == Revoked(id);
    }
  }

  /** An issued id that validation has once refused is refused ever after, whatever happens since. */
  lemma RefusedForever(t: Tables, log: seq<Event>, t': Tables, later: seq<Event>, ttl: real, id: Text, now: real,
      after: real)
    requires Holds(t, log, ttl) && Holds(t', later, ttl) && log <= later && now <= after
    requires (exists i :: IssuedAt(log, i, id)) && Validate(t, id, now).Err?
    ensures Validate(t', id, after).Err?
  {
    ValidIffLive(t, log, ttl, id, now);
    DeadStaysDead(log, later, ttl, id, now, after);
    ValidIffLive(t', later, ttl, id, after);
  }

  // ----- who may log in --------------------------------------------------------------------------

  /** A login succeeds exactly for the credentials of a user and a token that is not held. */
  lemma LoginIff(t: Tables, userId: Text, apiKey: Text, token: Text, now: real, ttl: real)
    ensures var r := LoginOf(t, userId, apiKey, token, now, ttl);
            if !(ValidUserId(userId) && userId in t.users && t.users[userId].apiKeyHash == Sha256(apiKey))
            then r == Err(InvalidCredentials)
            else if Sha256(token) in t.sessions then r == Err(TokenCollision)
            else r == Ok(UserSession(userId, t.users[userId].role, Prefix(Sha256(token)), now, now + ttl))
  {
  }

  /** After a registration, a login of that user with a token never issued succeeds exactly with the key of
      the registration. */
  lemma KeyOpensAccount(t: Tables, log: seq<Event>, ttl: real, userId: Text, role: Text, key: Text, tried: Text,
      token: Text, now: real)
    requires Holds(t, log, ttl) && userId !in t.users && ValidUserId(userId) && forall i :: !IssuedAt(log, i, token)
    ensures var registered := t.(users := t.users[userId := User(role, Sha256(key))]);
            LoginOf(registered, userId, tried, token, now, ttl)
            == if tried == key then Ok(UserSession(userId, role, Prefix(Sha256(token)), now, now + ttl))
               else Err(InvalidCredentials)
  {
    TableIsHistory(log, ttl, token);
  }

  /** The session of a successful login: whatever is registered, issued and revoked afterwards, its token is
      valid exactly until its time is over or it is revoked, for the user who logged in. */
  lemma LoginOpensSession(log: seq<Event>, userId: Text, token: Text, issued: real, later: seq<Event>, t: Tables,
      ttl: real, now: real)
    requires log + [Issued(token, userId, issued)] <= later && Holds(t, later, ttl)
    ensures Validate(t, token, now).Ok?
            <==> now < issued + ttl && forall j :: |log| < j < |later| ==> later[j] != Revoked(token)
    ensures Validate(t, token, now).Ok? ==>
              userId in t.users
              && Validate(t, token, now).value
                 == UserSession(userId, t.users[userId].role, Prefix(Sha256(token)), issued, issued + ttl)
  {
    assert later[|log|] == Issued(token, userId, issued);
    assert IssuedAt(later, |log|, token);
    ValidIffLive(t, later, ttl, token, now);
    assert RevokedAfter(later, |log|, token) <==> exists j :: |log| < j < |later| && later[j] == Revoked(token);
  }

  // ----- what logins and revocations keep --------------------------------------------------------

  lemma FreshTokensNext(log: seq<Event>, e: Event)
    requires FreshTokens(log) && (e.Issued? ==> forall i :: !IssuedAt(log, i, e.id))
    ensures FreshTokens(log + [e])
  {
    var after := log + [e];
    forall i, j, id | IssuedAt(after, i, id) && IssuedAt(after, j, id) ensures i == j {
      assert i < |log| ==> IssuedAt(log, i, id);
      assert j < |log| ==> IssuedAt(log, j, id);
    }
  }

  lemma KnownIssuesNext(users: map<Text, User>, users': map<Text, User>, log: seq<Event>, e: Event)
    requires KnownIssues(users, log) && users.Keys <= users'.Keys
    requires e.Issued? ==> |e.id| == TOKEN_LEN && e.userId in users
    ensures KnownIssues(users', log + [e])
  {
    var after := log + [e];
    forall i | 0 <= i < |after| && after[i].Issued? ensures |after[i].id| == TOKEN_LEN && after[i].userId in users' {
      assert i < |log| ==> after[i] == log[i];
      assert after[i].userId in users.Keys;
    }
  }

  lemma OneMoreEvent(log: seq<Event>, e: Event, ttl: real)
    ensures SessionsAfter(log + [e], ttl) == SessionsNext(SessionsAfter(log, ttl), e, ttl)
  {
    assert (log + [e])[..|log|] == log;
  }

  /** A login extends the history: the sessions table never takes one token twice. */
  lemma HoldsAfterLogin(t: Tables, t': Tables, log: seq<Event>, ttl: real, id: Text, userId: Text, time: real)
    requires Holds(t, log, ttl) && Sha256(id) !in t.sessions && |id| == TOKEN_LEN && userId in t.users
    requires t'.users == t.users && t'.sessions == WithSession(t.sessions, id, userId, time, ttl)
    ensures Holds(t', log + [Issued(id, userId, time)], ttl)
  {
    TableIsHistory(log, ttl, id);
    FreshTokensNext(log, Issued(id, userId, time));
    KnownIssuesNext(t.users, t'.users, log, Issued(id, userId, time));
    OneMoreEvent(log, Issued(id, userId, time), ttl);
  }

  lemma HoldsAfterRevocation(t: Tables, t': Tables, log: seq<Event>, ttl: real, id: Text)
    requires Holds(t, log, ttl) && t'.users == t.users && t'.sessions == WithRevocation(t.sessions, id)
    ensures Holds(t', log + [Revoked(id)], ttl)
  {
    FreshTokensNext(log, Revoked(id));
    KnownIssuesNext(t.users, t'.users, log, Revoked(id));
    OneMoreEvent(log, Revoked(id), ttl);
  }

  /** No user is ever deleted, and one with sessions could not be. */
  lemma HoldsWithMoreUsers(t: Tables, t': Tables, log: seq<Event>, ttl: real)
    requires Holds(t, log, ttl) && t.users.Keys <= t'.users.Keys && t'.sessions == t.sessions
    ensures Holds(t', log, ttl)
  {
    forall i | 0 <= i < |log| && log[i].Issued? ensures |log[i].id| == TOKEN_LEN && log[i].userId in t'.users {
      assert log[i].userId in t.users.Keys;
    }
  }

  // ----- the authenticator -----------------------------------------------------------------------

  class Authenticator {
    const db: Database
    const ttl: real
    ghost var log: seq<Event>

    /** Starts over a store whose sessions are the history so far. */
    constructor (db: Database, ttl: real, ghost log: seq<Event>)
      requires Holds(db.View(), log, ttl)
      ensures Valid() && this.log == log && this.db == db && this.ttl == ttl
    {
      this.db, this.ttl, this.log := db, ttl, log;
    }

    ghost predicate Valid()
      reads this, db
    {
      Holds(db.View(), log, ttl)
    }

    method RegisterUser(userId: Text, role: Text, apiKey: Text) returns (ok: bool)
      requires Valid()
      modifies db`users
      ensures Valid()
      ensures ok == (ValidUserId(userId) && |apiKey| >= 16 && role != [] && userId !in old(db.users))
      ensures db.users == if ok then old(db.users)[userId := User(role, Sha256(apiKey))] else old(db.users)
    {
      ghost var before := db.View();
      if !ValidUserId(userId) || |apiKey| < MIN_API_KEY_LEN || role == [] {
        return false;
      }
      ok := db.AddUser(userId, role, Sha256(apiKey));
      HoldsWithMoreUsers(before, db.View(), log, ttl);
    }

    /** `token` is what the random source returns. */
    method Login(userId: Text, apiKey: Text, token: Text, now: real) returns (r: Result<UserSession>)
      requires Valid() && |token| == TOKEN_LEN
      modifies this`log, db`sessions
      ensures Valid()
      ensures r.Ok? <==> && ValidUserId(userId) && userId in old(db.users)
                         && old(db.users)[userId].apiKeyHash == Sha256(apiKey) && Sha256(token) !in old(db.sessions)
      ensures r.Ok? ==>
                r.value == UserSession(userId, old(db.users)[userId].role, Prefix(Sha256(token)), now, now + ttl)
      ensures r == LoginOf(old(db.View()), userId, apiKey, token, now, ttl)
      ensures db.sessions == if r.Ok? then old(db.sessions)[Sha256(token) := Session(userId, now, now + ttl, false)]
                             else old(db.sessions)
      ensures log == if r.Ok? then old(log) + [Issued(token, userId, now)] else old(log)
    {
      ghost var before := db.View();
      var known := ValidUserId(userId) && userId in db.users;
      var matches := known && db.users[userId].apiKeyHash == Sha256(apiKey);
      if !matches {
        return Err(InvalidCredentials);
      }
      var hash := Sha256(token);
      var created := db.CreateSession(hash, userId, now, now + ttl);
      if !created {
        return Err(TokenCollision);
      }
      HoldsAfterLogin(before, db.View(), log, ttl, token, userId, now);
      log := log + [Issued(token, userId, now)];
      r := Ok(UserSession(userId, db.users[userId].role, Prefix(hash), now, now + ttl));
    }

    /** Reads the session with its user's role of now. */
    function ValidateSession(sessionId: Text, now: real): (r: Result<UserSession>)
      reads db
      ensures r == Validate(db.View(), sessionId, now)
    {
      if sessionId == [] then Err(MissingSession)
      else if |sessionId| > MAX_SESSION_ID_LEN then Err(InvalidSession)
      else
        match db.GetSession(Sha256(sessionId))
        case None => Err(InvalidSession)
        case Some(SessionRow(session, role)) =>
          if session.revoked then Err(SessionRevoked)
          else if now >= session.expiresAt then Err(SessionExpired)
          else Ok(UserSession(session.userId, role, Prefix(Sha256(sessionId)), session.createdAt, session.expiresAt))
    }

    method Revoke(sessionId: Text) returns (found: bool)
      requires Valid()
      modifies this`log, db`sessions
      ensures Valid() && log == old(log) + [Revoked(sessionId)]
      ensures found == (Sha256(sessionId) in old(db.sessions))
      ensures db.sessions == if found then old(db.sessions)[Sha256(sessionId) :=
                                               old(db.sessions)[Sha256(sessionId)].(revoked := true)]
                             else old(db.sessions)
    {
      ghost var before := db.View();
      found := db.RevokeSession(Sha256(sessionId));
      HoldsAfterRevocation(before, db.View(), log, ttl, sessionId);
      log := log + [Revoked(sessionId)];
    }
  }
}
