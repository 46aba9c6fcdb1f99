/** The tables of the SQLite store: users, sessions, tool fingerprints and the audit log. */
module Storage {
  import opened Basics

  /** SHA-256, read as an injective function: a digest is equal only to the digest of the same text. */
  datatype Digest = Sha256(message: Text)

  /** The first twelve characters of a session hash, kept for the audit log. */
  datatype SessionRef = Prefix(hash: Digest)

  datatype User = User(role: Text, apiKeyHash: Digest)

  datatype Session = Session(userId: Text, createdAt: real, expiresAt: real, revoked: bool)

  datatype Pin = Pin(fingerprint: Digest, approvedAt: real, approvedBy: Text)

  datatype Decision = ALLOW | DENY

  datatype Stage =
    | LoginStage | Authentication | RateLimit | Validation | Authorization | IntegrityStage | InputScan
    | BreakerStage | Upstream | OutputScan | Approval | Internal | AllowedStage

  datatype RiskLevel = LOW | MEDIUM | HIGH | CRITICAL

  datatype AuditRow = AuditRow(
    time: real, userId: Option<Text>, sessionRef: Option<SessionRef>, role: Option<Text>,
    tool: Text, risk: Option<RiskLevel>, decision: Decision, stage: Stage)

  datatype Tables = Tables(
    users: map<Text, User>, sessions: map<Digest, Session>, pins: map<Text, Pin>, audit: seq<AuditRow>)

  /** A session row joined with the role its user has now. */
  datatype SessionRow = SessionRow(session: Session, role: Text)

  function JoinedSession(t: Tables, hash: Digest): Option<SessionRow> {
    if hash in t.sessions && t.sessions[hash].userId in t.users
    then Some(SessionRow(t.sessions[hash], t.users[t.sessions[hash].userId].role)) else None
  }

  /** Rows in reverse order of insertion. */
  function Newest(rows: seq<AuditRow>, limit: nat): (r: seq<AuditRow>)
    ensures |r| == if limit < |rows| then limit else |rows|
    ensures forall i :: 0 <= i < |r| ==> r[i] == rows[|rows| - 1 - i]
  {
    if limit == 0 || rows == [] then [] else [rows[|rows| - 1]] + Newest(rows[..|rows| - 1], limit - 1)
  }

  class Database {
    var users: map<Text, User>
    var sessions: map<Digest, Session>
    var pins: map<Text, Pin>
    var audit: seq<AuditRow>

    constructor ()
      ensures View() == Tables(map[], map[], map[], [])
    {
      users, sessions, pins, audit := map[], map[], map[], [];
    }

    function View(): Tables
      reads this
    {
      Tables(users, sessions, pins, audit)
    }

    /** Refuses a user id that is already taken. */
    method AddUser(userId: Text, role: Text, apiKeyHash: Digest) returns (ok: bool)
      modifies this`users
      ensures ok == (userId !in old(users))
      ensures users == if ok then old(users)[userId := User(role, apiKeyHash)] else old(users)
    {
      ok := userId !in users;
      if ok {
        users := users[userId := User(role, apiKeyHash)];
      }
    }

    /** Refuses a hash that is already a key and a user that does not exist. */
    method CreateSession(hash: Digest, userId: Text, createdAt: real, expiresAt: real) returns (ok: bool)
      modifies this`sessions
      ensures ok == (hash !in old(sessions) && userId in users)
      ensures sessions == if ok then old(sessions)[hash := Session(userId, createdAt, expiresAt, false)]
                          else old(sessions)
    {
      ok := hash !in sessions && userId in users;
      if ok {
        sessions := sessions[hash := Session(userId, createdAt, expiresAt, false)];
      }
    }

    function GetSession(hash: Digest): (row: Option<SessionRow>)
      reads this
      ensures row.Some? <==> hash in sessions && sessions[hash].userId in users
      ensures row.Some? ==> row.value.session == sessions[hash] && row.value.role == users[sessions[hash].userId].role
    {
      JoinedSession(View(), hash)
    }

    method RevokeSession(hash: Digest) returns (found: bool)
      modifies this`sessions
      ensures found == (hash in old(sessions))
      ensures sessions == if found then old(sessions)[hash := old(sessions)[hash].(revoked := true)] else old(sessions)
    {
      found := hash in sessions;
      if found {
        sessions := sessions[hash := sessions[hash].(revoked := true)];
      }
    }

    method AddAudit(row: AuditRow)
      modifies this`audit
      ensures audit == old(audit) + [row]
    {
      audit := audit + [row];
    }

    /** Newest first; a negative limit means no limit. */
    method RecentAudit(limit: int) returns (rows: seq<AuditRow>)
      ensures rows == Newest(audit, if limit < 0 then |audit| else limit)
    {
      rows := [];
      var i := |audit|;
      while i > 0 && (limit < 0 || |rows| < limit)
        invariant 0 <= i <= |audit|
        invariant |rows| == |audit| - i && (limit < 0 || |rows| <= limit)
        invariant forall k :: 0 <= k < |rows| ==> rows[k] == audit[|audit| - 1 - k]
      {
        i := i - 1;
        rows := rows + [audit[i]];
      }
    }

    method UpsertFingerprint(tool: Text, fingerprint: Digest, approvedAt: real, approvedBy: Text)
      modifies this`pins
      ensures pins == old(pins)[tool := Pin(fingerprint, approvedAt, approvedBy)]
    {
      pins := pins[tool := Pin(fingerprint, approvedAt, approvedBy)];
    }
  }
}
