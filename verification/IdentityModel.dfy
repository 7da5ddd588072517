/**
 The identity service's tables and what one request does to them when it runs alone.
 Times are milliseconds. Password verification, signature verification, hashing, UUIDs and
 the clock are inputs of a request; a refresh token appears only as its digest.
 */
module IdentityModel {
  import opened Wrappers

  // ---------------------------------------------------------------------------------------
  // Rows and tables

  datatype SessionRow = SessionRow(
    id: string, userId: string, refreshToken: string, expiresAt: int, createdAt: int, isRevoked: bool)

  /** `tokenIndex` is the unique index on the refresh-token digest. */
  datatype SessionTable = SessionTable(rows: map<string, SessionRow>, tokenIndex: map<string, string>)

  datatype UserRow = UserRow(
    id: string, email: string, passwordHash: string,
    isLocked: bool, failedLoginAttempts: int, emailVerified: bool)

  /** `emailIndex` is the unique index on the email address. */
  datatype UserTable = UserTable(rows: map<string, UserRow>, emailIndex: map<string, string>)

  /** A one-time token: for a password reset or for the verification of an email address. */
  datatype TokenRow = TokenRow(token: string, userId: string, expiresAt: int, isUsed: bool)

  datatype IdentityDb = IdentityDb(
    users: UserTable, sessions: SessionTable, resets: map<string, TokenRow>, verifications: map<string, TokenRow>)

  /** What a refresh token says that the service or the verification of its signature reads. */
  datatype Claims = Claims(sub: string, sessionId: string, exp: Option<int>)

  /** Verification refuses a token from the second of its `exp` on. */
  predicate Current(claims: Claims, now: int) {
    claims.exp.Some? ==> now < claims.exp.value * 1000
  }

  datatype StateError = SessionAlreadyRevoked | UserIsLocked | SamePassword | TokenUsed | TokenExpired

  datatype AuthError =
    | InvalidCredentials
    | InvalidRefreshToken
    | SessionNotFound
    | SessionIsRevoked
    | SessionMismatch
    | SessionExpired
    | UserLockedOrDisabled
    | InvalidLogoutTokens
    | LogoutTokenMismatch
    | InvalidResetToken
    | InvalidVerificationToken
    | InvalidState(state: StateError)
    | UniqueViolation
    | RecordNotFound

  ghost predicate ValidSessions(t: SessionTable) {
    && (forall id :: id in t.rows ==>
          && t.rows[id].id == id
          && t.rows[id].refreshToken in t.tokenIndex && t.tokenIndex[t.rows[id].refreshToken] == id)
    && (forall d :: d in t.tokenIndex ==>
          && t.tokenIndex[d] in t.rows
          && t.rows[t.tokenIndex[d]].refreshToken == d)
  }

  ghost predicate ValidUsers(t: UserTable) {
    && (forall id :: id in t.rows ==>
          && t.rows[id].id == id
          && t.rows[id].email in t.emailIndex && t.emailIndex[t.rows[id].email] == id)
    && (forall e :: e in t.emailIndex ==>
          && t.emailIndex[e] in t.rows
          && t.rows[t.emailIndex[e]].email == e)
  }

  function FindByRefreshToken(t: SessionTable, digest: string): Option<SessionRow> {
    if digest in t.tokenIndex && t.tokenIndex[digest] in t.rows then Some(t.rows[t.tokenIndex[digest]]) else None
  }

  /** The index answers exactly like a scan of the rows. */
  lemma {:induction false} FindByRefreshTokenIsScan(t: SessionTable, digest: string, row: SessionRow)
    requires ValidSessions(t)
    ensures FindByRefreshToken(t, digest) == Some(row) <==>
            exists id :: id in t.rows && t.rows[id] == row && row.refreshToken == digest
  {
  }

  /** An upsert by id: an existing row takes over only the revocation flag. */
  function SaveSession(t: SessionTable, row: SessionRow): Result<SessionTable, AuthError> {
    if row.id in t.rows then
      Ok(t.(rows := t.rows[row.id := t.rows[row.id].(isRevoked := row.isRevoked)]))
    else if row.refreshToken in t.tokenIndex then
      Err(UniqueViolation)
    else
      Ok(SessionTable(t.rows[row.id := row], t.tokenIndex[row.refreshToken := row.id]))
  }

  predicate Active(row: SessionRow, userId: string, now: int) {
    row.userId == userId && !row.isRevoked && row.expiresAt > now
  }

  function FindByEmail(t: UserTable, email: string): Option<UserRow> {
    if email in t.emailIndex && t.emailIndex[email] in t.rows then Some(t.rows[t.emailIndex[email]]) else None
  }

  /** Writes the mutable columns of an existing user, and nothing if there is no such user. */
  function StoreUser(t: UserTable, row: UserRow): UserTable {
    if row.id in t.rows then
      t.(rows := t.rows[row.id := row.(email := t.rows[row.id].email)])
    else t
  }

  // ---------------------------------------------------------------------------------------
  // The lock automaton of one user

  const MAX_FAILED_ATTEMPTS: int := 5

  function FailedAttempt(u: UserRow): UserRow {
    if u.isLocked then u
    else u.(failedLoginAttempts := u.failedLoginAttempts + 1,
            isLocked := u.failedLoginAttempts + 1 >= MAX_FAILED_ATTEMPTS)
  }

  function SuccessfulLogin(u: UserRow): UserRow {
    u.(failedLoginAttempts := 0)
  }

  // ---------------------------------------------------------------------------------------
  // Requests

  const REFRESH_FALLBACK_MS: int := 7 * 24 * 60 * 60 * 1000

  /** A session lives until its refresh token's `exp`; a missing or zero `exp` gives seven days. */
  function SessionExpiry(exp: Option<int>, now: int): int {
    if exp.Some? && exp.value != 0 then exp.value * 1000 else now + REFRESH_FALLBACK_MS
  }

  datatype LoginOutcome = LoginOutcome(users: UserTable, sessions: SessionTable, result: Result<string, AuthError>)

  /** `email` is the normalized address, or none if it is malformed. */
  function LoginStep(users: UserTable, sessions: SessionTable, now: int,
                     email: Option<string>, passwordValid: bool,
                     sessionId: string, digest: string, exp: Option<int>): LoginOutcome
  {
    if email.None? then LoginOutcome(users, sessions, Err(InvalidCredentials))
    else match FindByEmail(users, email.value)
      case None => LoginOutcome(users, sessions, Err(InvalidCredentials))
      case Some(user) =>
        if user.isLocked then LoginOutcome(users, sessions, Err(InvalidCredentials))
        else if !passwordValid then
          LoginOutcome(StoreUser(users, FailedAttempt(user)), sessions, Err(InvalidCredentials))
        else
          var users' := StoreUser(users, SuccessfulLogin(user));
          var row := SessionRow(sessionId, user.id, digest, SessionExpiry(exp, now), now, false);
          match SaveSession(sessions, row)
          case Err(e) => LoginOutcome(users', sessions, Err(e))
          case Ok(sessions') => LoginOutcome(users', sessions', Ok(sessionId))
  }

  datatype SessionOutcome = SessionOutcome(sessions: SessionTable, result: Result<string, AuthError>)

  /** `verified` is what signature verification of the presented token yields. */
  function RefreshStep(users: UserTable, sessions: SessionTable, now: int,
                       verified: Option<Claims>, digest: string,
                       newSessionId: string, newDigest: string, exp: Option<int>): SessionOutcome
  {
    if verified.None? then SessionOutcome(sessions, Err(InvalidRefreshToken))
    else match FindByRefreshToken(sessions, digest)
      case None => SessionOutcome(sessions, Err(SessionNotFound))
      case Some(session) =>
        if session.isRevoked then SessionOutcome(sessions, Err(SessionIsRevoked))
        else if session.id != verified.value.sessionId then SessionOutcome(sessions, Err(SessionMismatch))
        else if now > session.expiresAt then SessionOutcome(sessions, Err(SessionExpired))
        else if verified.value.sub !in users.rows || users.rows[verified.value.sub].isLocked then
          SessionOutcome(sessions, Err(UserLockedOrDisabled))
        else
          match SaveSession(sessions, session.(isRevoked := true))
          case Err(e) => SessionOutcome(sessions, Err(e))
          case Ok(revoked) =>
            var successor := SessionRow(newSessionId, session.userId, newDigest, SessionExpiry(exp, now), now, false);
            match SaveSession(revoked, successor)
            case Err(e) => SessionOutcome(revoked, Err(e))
            case Ok(rotated) => SessionOutcome(rotated, Ok(newSessionId))
  }

  /** The access token's session id, or else the refresh token's; an empty id counts as none. */
  function LogoutTarget(accessSession: Option<string>, refreshSession: Option<string>): Option<string> {
    if accessSession.Some? && accessSession.value != "" then accessSession
    else if refreshSession.Some? && refreshSession.value != "" then refreshSession
    else None
  }

  function LogoutStep(sessions: SessionTable, accessSession: Option<string>, refreshSession: Option<string>,
                      digest: string): SessionOutcome
  {
    match LogoutTarget(accessSession, refreshSession)
    case None => SessionOutcome(sessions, Err(InvalidLogoutTokens))
    case Some(id) =>
      if id !in sessions.rows || sessions.rows[id].isRevoked then SessionOutcome(sessions, Ok(id))
      else if sessions.rows[id].refreshToken != digest then SessionOutcome(sessions, Err(LogoutTokenMismatch))
      else match SaveSession(sessions, sessions.rows[id].(isRevoked := true))
        case Err(e) => SessionOutcome(sessions, Err(e))
        case Ok(revoked) => SessionOutcome(revoked, Ok(id))
  }

  function ActiveIds(t: SessionTable, userId: string, now: int): set<string> {
    set id | id in t.rows && Active(t.rows[id], userId, now)
  }

  function RevokeIds(t: SessionTable, ids: set<string>): SessionTable {
    t.(rows := map id | id in t.rows :: if id in ids then t.rows[id].(isRevoked := true) else t.rows[id])
  }

  /** The session table once every active session of a user has been revoked. */
  function RevokeActive(t: SessionTable, userId: string, now: int): SessionTable {
    RevokeIds(t, ActiveIds(t, userId, now))
  }

  datatype DbOutcome = DbOutcome(db: IdentityDb, result: Result<string, AuthError>)

  /** `token` is the digest of the presented reset token, `newHash` the hash of the new password. */
  function ResetStep(db: IdentityDb, now: int, token: string, newHash: string): DbOutcome {
    if token !in db.resets then DbOutcome(db, Err(InvalidResetToken))
    else
      var reset := db.resets[token];
      if now > reset.expiresAt || reset.isUsed || reset.userId !in db.users.rows then
        DbOutcome(db, Err(InvalidResetToken))
      else
        var user := db.users.rows[reset.userId];
        if user.passwordHash == newHash then DbOutcome(db, Err(InvalidState(SamePassword)))
        else
          DbOutcome(
            db.(users := StoreUser(db.users, user.(passwordHash := newHash)),
                sessions := RevokeActive(db.sessions, user.id, now),
                resets := db.resets - {token}),
            Ok(user.id))
  }

  function VerifiedEmail(u: UserRow): UserRow {
    u.(emailVerified := true)
  }

  /** The verification of an email address; `token` is the digest of the presented token. */
  function VerifyStep(db: IdentityDb, now: int, token: string): DbOutcome {
    if token !in db.verifications then DbOutcome(db, Err(InvalidVerificationToken))
    else
      var row := db.verifications[token];
      if now > row.expiresAt || row.isUsed || row.userId !in db.users.rows then
        DbOutcome(db, Err(InvalidVerificationToken))
      else
        DbOutcome(
          db.(users := StoreUser(db.users, VerifiedEmail(db.users.rows[row.userId])),
              verifications := db.verifications - {token}),
          Ok(row.userId))
  }
}
