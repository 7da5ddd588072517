/**
 What each request answers and what it leaves in the tables, spelled out by rows and values: which
 check refuses it, with which error, and the exact rows an accepted one writes. Nothing here refers
 to the functions by which the steps are computed.
 */
module Outcomes {
  import opened Wrappers
  import opened IdentityModel

  /** Some stored session has this token digest. */
  ghost predicate DigestTaken(t: SessionTable, digest: string) {
    exists id :: id in t.rows && t.rows[id].refreshToken == digest
  }

  /** An `exp` in seconds, or seven days from now if it is missing or zero. */
  ghost predicate ExpiresAsIssued(expiresAt: int, exp: Option<int>, now: int) {
    match exp
    case Some(seconds) => expiresAt == if seconds == 0 then now + 604_800_000 else seconds * 1000
    case None => expiresAt == now + 604_800_000
  }

  /** The table has one more row than before, a fresh unrevoked session. */
  ghost predicate SessionAdded(
      before: map<string, SessionRow>, after: map<string, SessionRow>,
      id: string, userId: string, digest: string, exp: Option<int>, now: int)
  {
    && id in after
    && after == before[id := SessionRow(id, userId, digest, after[id].expiresAt, now, false)]
    && ExpiresAsIssued(after[id].expiresAt, exp, now)
  }

  // ---------------------------------------------------------------------------------------
  // Login

  /** No stored user has the address, or there is none: refused without effect. */
  lemma {:induction false} LoginOfNobody(
      users: UserTable, sessions: SessionTable, now: int, email: Option<string>, passwordValid: bool,
      sessionId: string, digest: string, exp: Option<int>)
    requires ValidUsers(users)
    requires forall id :: id in users.rows ==> email != Some(users.rows[id].email)
    ensures LoginStep(users, sessions, now, email, passwordValid, sessionId, digest, exp) ==
            LoginOutcome(users, sessions, Err(InvalidCredentials))
  {
  }

  /** The fifth wrong password in a row locks; a right one clears the count and opens a session. */
  lemma {:induction false} LoginOfUser(
      users: UserTable, sessions: SessionTable, now: int, id: string, passwordValid: bool,
      sessionId: string, digest: string, exp: Option<int>)
    requires ValidUsers(users) && ValidSessions(sessions) && id in users.rows && sessionId !in sessions.rows
    ensures var u := users.rows[id];
            var o := LoginStep(users, sessions, now, Some(u.email), passwordValid, sessionId, digest, exp);
            && o.users.emailIndex == users.emailIndex
            && if u.isLocked then
                 o.result == Err(InvalidCredentials) && o.users.rows == users.rows && o.sessions == sessions
               else if !passwordValid then
                 && o.result == Err(InvalidCredentials) && o.sessions == sessions
                 && o.users.rows == users.rows[id := UserRow(id, u.email, u.passwordHash,
                                                             u.failedLoginAttempts >= 4, u.failedLoginAttempts + 1,
                                                             u.emailVerified)]
               else
                 && o.users.rows == users.rows[id := UserRow(id, u.email, u.passwordHash, false, 0, u.emailVerified)]
                 && if DigestTaken(sessions, digest) then o.result == Err(UniqueViolation) && o.sessions == sessions
                    else
                      && o.result == Ok(sessionId)
                      && SessionAdded(sessions.rows, o.sessions.rows, sessionId, id, digest, exp, now)
  {
  }

  // ---------------------------------------------------------------------------------------
  // Refresh

  /** A token that does not verify, or whose digest no session has. */
  lemma {:induction false} RefreshOfNothing(
      users: UserTable, sessions: SessionTable, now: int, verified: Option<Claims>, digest: string,
      newSessionId: string, newDigest: string, exp: Option<int>)
    requires ValidSessions(sessions)
    requires verified.None? || !DigestTaken(sessions, digest)
    ensures RefreshStep(users, sessions, now, verified, digest, newSessionId, newDigest, exp) ==
            SessionOutcome(sessions, Err(if verified.None? then InvalidRefreshToken else SessionNotFound))
  {
  }

  /** The error of the first check that fails on a session of the digest, if one does. */
  ghost function RefreshRefusal(users: UserTable, session: SessionRow, claims: Claims, now: int): Option<AuthError> {
    if session.isRevoked then Some(SessionIsRevoked)
    else if session.id != claims.sessionId then Some(SessionMismatch)
    else if session.expiresAt < now then Some(SessionExpired)
    else if claims.sub in users.rows && !users.rows[claims.sub].isLocked then None
    else Some(UserLockedOrDisabled)
  }

  /** A replay ends in "Session is revoked"; an accepted refresh revokes its session and opens the next. */
  lemma {:induction false} RefreshOfSession(
      users: UserTable, sessions: SessionTable, now: int, claims: Claims, id: string,
      newSessionId: string, newDigest: string, exp: Option<int>)
    requires ValidSessions(sessions) && id in sessions.rows && newSessionId !in sessions.rows
    ensures var x := sessions.rows[id];
            var o := RefreshStep(users, sessions, now, Some(claims), x.refreshToken, newSessionId, newDigest, exp);
            var refusal := RefreshRefusal(users, x, claims, now);
            var revoked :=
              sessions.rows[id := SessionRow(id, x.userId, x.refreshToken, x.expiresAt, x.createdAt, true)];
            if refusal.Some? then o == SessionOutcome(sessions, Err(refusal.value))
            else if DigestTaken(sessions, newDigest) then o.result == Err(UniqueViolation) && o.sessions.rows == revoked
            else
              && o.result == Ok(newSessionId)
              && SessionAdded(revoked, o.sessions.rows, newSessionId, x.userId, newDigest, exp, now)
  {
  }

  // ---------------------------------------------------------------------------------------
  // Logout

  /** The access token names the session; only if it names none does the refresh token. */
  ghost predicate NamedByTokens(accessSession: Option<string>, refreshSession: Option<string>, id: string) {
    && id != ""
    && (accessSession == Some(id)
        || ((accessSession == None || accessSession == Some("")) && refreshSession == Some(id)))
  }

  lemma {:induction false} LogoutOfNothing(
      sessions: SessionTable, accessSession: Option<string>, refreshSession: Option<string>, digest: string)
    requires forall id :: !NamedByTokens(accessSession, refreshSession, id)
    ensures LogoutStep(sessions, accessSession, refreshSession, digest) ==
            SessionOutcome(sessions, Err(InvalidLogoutTokens))
  {
    assert accessSession.Some? ==> !NamedByTokens(accessSession, refreshSession, accessSession.value);
    assert refreshSession.Some? ==> !NamedByTokens(accessSession, refreshSession, refreshSession.value);
  }

  /** A missing or revoked session is logged out already; another must match the refresh token. */
  lemma {:induction false} LogoutOfSession(
      sessions: SessionTable, accessSession: Option<string>, refreshSession: Option<string>, digest: string, id: string)
    requires ValidSessions(sessions) && NamedByTokens(accessSession, refreshSession, id)
    ensures var o := LogoutStep(sessions, accessSession, refreshSession, digest);
            if id !in sessions.rows || sessions.rows[id].isRevoked then o == SessionOutcome(sessions, Ok(id))
            else if sessions.rows[id].refreshToken != digest then
              o == SessionOutcome(sessions, Err(LogoutTokenMismatch))
            else
              var x := sessions.rows[id];
              && o.result == Ok(id)
              && o.sessions.rows ==
                 sessions.rows[id := SessionRow(id, x.userId, x.refreshToken, x.expiresAt, x.createdAt, true)]
  {
  }

  // ---------------------------------------------------------------------------------------
  // Password reset and email verification

  /** The one-time token is stored, unused, not past its expiry, and names a stored user. */
  ghost predicate TokenGood(tokens: map<string, TokenRow>, users: UserTable, token: string, now: int) {
    && token in tokens && !tokens[token].isUsed && now <= tokens[token].expiresAt
    && tokens[token].userId in users.rows
  }

  /** Every row of the user that is unrevoked and expires later is revoked; all others stay. */
  ghost predicate ActiveRevoked(
      before: map<string, SessionRow>, after: map<string, SessionRow>, userId: string, now: int)
  {
    && after.Keys == before.Keys
    && forall id :: id in before ==>
         var x := before[id];
         after[id] == SessionRow(x.id, x.userId, x.refreshToken, x.expiresAt, x.createdAt,
                                 x.isRevoked || (x.userId == userId && now < x.expiresAt))
  }

  lemma {:induction false} ResetOutcome(db: IdentityDb, now: int, token: string, newHash: string)
    requires ValidUsers(db.users)
    ensures var o := ResetStep(db, now, token, newHash);
            if !TokenGood(db.resets, db.users, token, now) then o == DbOutcome(db, Err(InvalidResetToken))
            else
              var id := db.resets[token].userId;
              var u := db.users.rows[id];
              if u.passwordHash == newHash then o == DbOutcome(db, Err(InvalidState(SamePassword)))
              else
                && o.result == Ok(id)
                && o.db.users.rows == db.users.rows[id := UserRow(id, u.email, newHash, u.isLocked,
                                                                  u.failedLoginAttempts, u.emailVerified)]
                && ActiveRevoked(db.sessions.rows, o.db.sessions.rows, id, now)
                && o.db.resets == db.resets - {token} && o.db.verifications == db.verifications
  {
  }

  lemma {:induction false} VerifyOutcome(db: IdentityDb, now: int, token: string)
    requires ValidUsers(db.users)
    ensures var o := VerifyStep(db, now, token);
            if !TokenGood(db.verifications, db.users, token, now) then
              o == DbOutcome(db, Err(InvalidVerificationToken))
            else
              var id := db.verifications[token].userId;
              var u := db.users.rows[id];
              && o.result == Ok(id)
              && o.db.users.rows == db.users.rows[id := UserRow(id, u.email, u.passwordHash, u.isLocked,
                                                                u.failedLoginAttempts, true)]
              && o.db.sessions == db.sessions && o.db.resets == db.resets
              && o.db.verifications == db.verifications - {token}
  {
  }
}
