/**
 The four session services and email verification, statement by statement over loaded objects and repositories.
 Each is proved to do to the tables exactly what its atomic step in IdentityModel says.
 */
module Services {
  import opened Wrappers
  import opened IdentityModel
  import opened Entities
  import opened Repositories
  import Blacklist

  class LoginService {
    const userRepository: UserRepository
    const deviceSessionRepository: DeviceSessionRepository

    constructor (users: UserRepository, sessions: DeviceSessionRepository)
      ensures userRepository == users && deviceSessionRepository == sessions
    {
      userRepository, deviceSessionRepository := users, sessions;
    }

    method Execute(normalizedEmail: Option<string>, isValidPassword: bool, now: int,
                   sessionId: string, refreshDigest: string, exp: Option<int>)
      returns (r: Result<string, AuthError>)
      requires ValidUsers(userRepository.Table())
      modifies userRepository, deviceSessionRepository
      ensures LoginOutcome(userRepository.Table(), deviceSessionRepository.Table(), r) ==
              LoginStep(old(userRepository.Table()), old(deviceSessionRepository.Table()), now,
                        normalizedEmail, isValidPassword, sessionId, refreshDigest, exp)
    {
      if normalizedEmail.None? {
        return Err(InvalidCredentials);
      }
      var user := userRepository.FindByEmail(normalizedEmail.value);
      if user == null {
        return Err(InvalidCredentials);
      }
      if user.isLocked {
        return Err(InvalidCredentials);
      }
      if !isValidPassword {
        user.IncrementFailedAttempts(5);
        var counted := userRepository.Update(user);
        match counted {
          case Err(e) => return Err(e);
          case Ok(_) => return Err(InvalidCredentials);
        }
      }
      var recorded := user.RecordLogin();
      var updated := userRepository.Update(user);
      match updated {
        case Err(e) => return Err(e);
        case Ok(_) =>
      }
      var deviceSession := new DeviceSession(
        SessionRow(sessionId, user.id, refreshDigest, SessionExpiry(exp, now), now, false));
      var saved := deviceSessionRepository.Save(deviceSession);
      r := match saved case Ok(_) => Ok(sessionId) case Err(e) => Err(e);
    }
  }

  class RefreshTokenService {
    const userRepository: UserRepository
    const deviceSessionRepository: DeviceSessionRepository

    constructor (users: UserRepository, sessions: DeviceSessionRepository)
      ensures userRepository == users && deviceSessionRepository == sessions
    {
      userRepository, deviceSessionRepository := users, sessions;
    }

    /** The lookup is by exact digest, so the branch for a digest that differs is never taken. */
    method Execute(verified: Option<Claims>, hashedToken: string, now: int,
                   newSessionId: string, newDigest: string, exp: Option<int>)
      returns (r: Result<string, AuthError>)
      requires ValidSessions(deviceSessionRepository.Table()) && ValidUsers(userRepository.Table())
      modifies deviceSessionRepository
      ensures SessionOutcome(deviceSessionRepository.Table(), r) ==
              RefreshStep(userRepository.Table(), old(deviceSessionRepository.Table()), now,
                          verified, hashedToken, newSessionId, newDigest, exp)
    {
      if verified.None? {
        return Err(InvalidRefreshToken);
      }
      var session := deviceSessionRepository.FindByRefreshToken(hashedToken);
      if session == null {
        return Err(SessionNotFound);
      }
      assert session.refreshToken == hashedToken;
      if session.isRevoked {
        return Err(SessionIsRevoked);
      }
      if session.id != verified.value.sessionId {
        return Err(SessionMismatch);
      }
      if session.IsExpired(now) {
        return Err(SessionExpired);
      }
      var user := userRepository.FindById(verified.value.sub);
      if user == null || user.isLocked {
        return Err(UserLockedOrDisabled);
      }
      var revoked := session.Revoke("revoked");
      var saved := deviceSessionRepository.Save(session);
      var newSession := session.Rotate(newSessionId, newDigest, SessionExpiry(exp, now), now);
      saved := deviceSessionRepository.Save(newSession);
      r := match saved case Ok(_) => Ok(newSessionId) case Err(e) => Err(e);
    }
  }

  class LogoutService {
    const deviceSessionRepository: DeviceSessionRepository
    const tokenBlacklistService: Blacklist.RedisTokenBlacklistService

    constructor (sessions: DeviceSessionRepository, blacklist: Blacklist.RedisTokenBlacklistService)
      ensures deviceSessionRepository == sessions && tokenBlacklistService == blacklist
    {
      deviceSessionRepository, tokenBlacklistService := sessions, blacklist;
    }

    /** The blacklist is written first, and stays written when the session part then fails. */
    method Execute(accessToken: Option<Blacklist.AccessToken>, refreshSession: Option<string>,
                   incomingHash: string, now: int)
      returns (r: Result<string, AuthError>)
      requires ValidSessions(deviceSessionRepository.Table())
      modifies deviceSessionRepository, tokenBlacklistService.redis
      ensures tokenBlacklistService.redis.store ==
              Blacklist.BlacklistStep(old(tokenBlacklistService.redis.store), accessToken, now)
      ensures SessionOutcome(deviceSessionRepository.Table(), r) ==
              LogoutStep(old(deviceSessionRepository.Table()),
                         if accessToken.Some? then accessToken.value.sessionId else None, refreshSession, incomingHash)
    {
      if accessToken.Some? && Blacklist.Identified(accessToken.value) {
        var remainingLifetimeSeconds := accessToken.value.exp.value - Blacklist.Unix(now);
        if remainingLifetimeSeconds > 0 {
          var blacklisted := tokenBlacklistService.BlacklistToken(accessToken.value.jti.value,
                                                                  remainingLifetimeSeconds, now);
        }
      }
      var sessionId := if accessToken.Some? then accessToken.value.sessionId else None;
      if sessionId.None? || sessionId.value == "" {
        sessionId := refreshSession;
      }
      if sessionId.None? || sessionId.value == "" {
        return Err(InvalidLogoutTokens);
      }
      var deviceSession := deviceSessionRepository.FindById(sessionId.value);
      if deviceSession != null && !deviceSession.isRevoked {
        if deviceSession.refreshToken != incomingHash {
          return Err(LogoutTokenMismatch);
        }
        var revoked := deviceSession.Revoke("User requested logout");
        var saved := deviceSessionRepository.Save(deviceSession);
      }
      r := Ok(sessionId.value);
    }
  }

  class ResetPasswordService {
    const userRepository: UserRepository
    const passwordResetTokenRepository: PasswordResetTokenRepository
    const deviceSessionRepository: DeviceSessionRepository

    constructor (users: UserRepository, tokens: PasswordResetTokenRepository, sessions: DeviceSessionRepository)
      ensures userRepository == users && passwordResetTokenRepository == tokens && deviceSessionRepository == sessions
    {
      userRepository, passwordResetTokenRepository, deviceSessionRepository := users, tokens, sessions;
    }

    /** All tables, given the one that this service has no access to. */
    function Db(verifications: map<string, TokenRow>): IdentityDb
      reads userRepository, passwordResetTokenRepository, deviceSessionRepository
    {
      IdentityDb(userRepository.Table(), deviceSessionRepository.Table(), passwordResetTokenRepository.tokens,
                 verifications)
    }

    /** Revoking an active session never fails, so the loop always runs to its end. */
    method Execute(hashedToken: string, newPasswordHash: string, now: int)
      returns (r: Result<string, AuthError>)
      requires ValidSessions(deviceSessionRepository.Table()) && ValidUsers(userRepository.Table())
      modifies userRepository, passwordResetTokenRepository, deviceSessionRepository
      ensures forall verifications ::
                DbOutcome(Db(verifications), r) == ResetStep(old(Db(verifications)), now, hashedToken, newPasswordHash)
      ensures r != Err(InvalidState(SessionAlreadyRevoked))
    {
      var resetToken := passwordResetTokenRepository.FindByToken(hashedToken);
      if resetToken == null {
        return Err(InvalidResetToken);
      }
      if resetToken.IsExpired(now) {
        return Err(InvalidResetToken);
      }
      if resetToken.isUsed {
        return Err(InvalidResetToken);
      }
      var user := userRepository.FindById(resetToken.userId);
      if user == null {
        return Err(InvalidResetToken);
      }
      var changed := user.ChangePassword(newPasswordHash);
      if changed.Err? {
        return Err(changed.error);
      }
      var updated := userRepository.Update(user);
      match updated {
        case Err(e) => return Err(e);
        case Ok(_) =>
      }
      var marked := resetToken.MarkAsUsed(now);
      match marked {
        case Err(e) => return Err(e);
        case Ok(_) =>
      }
      passwordResetTokenRepository.Delete(hashedToken);
      var revoked := RevokeSessions(user.id, now);
      match revoked {
        case Err(e) => return Err(e);
        case Ok(_) =>
      }
      r := Ok(user.id);
    }

    method RevokeSessions(userId: string, now: int) returns (r: Result<(), AuthError>)
      requires ValidSessions(deviceSessionRepository.Table())
      modifies deviceSessionRepository
      ensures deviceSessionRepository.Table() == RevokeActive(old(deviceSessionRepository.Table()), userId, now)
      ensures r == Ok(())
    {
      var activeSessions := deviceSessionRepository.FindActiveSessions(userId, now);
      ghost var before := deviceSessionRepository.Table();
      ghost var done: set<string> := {};
      assert RevokeIds(before, {}).rows == before.rows;
      for i := 0 to |activeSessions|
        invariant deviceSessionRepository.Table() == RevokeIds(before, done)
        invariant done <= ActiveIds(before, userId, now)
        invariant forall k :: 0 <= k < i ==> activeSessions[k].id in done
        invariant forall k :: i <= k < |activeSessions| ==>
                    activeSessions[k].id !in done && activeSessions[k].Row() == before.rows[activeSessions[k].id]
      {
        var session := activeSessions[i];
        assert forall k :: i < k < |activeSessions| ==> activeSessions[k] != session;
        var revoked := session.Revoke("Password changed");
        match revoked {
          case Err(e) => return Err(e);
          case Ok(_) =>
        }
        var saved := deviceSessionRepository.Save(session);
        match saved {
          case Err(e) => return Err(e);
          case Ok(_) =>
        }
        SaveRevokes(before, done, session.id);
        assert forall k :: i < k < |activeSessions| ==> activeSessions[k].id != session.id;
        done := done + {session.id};
      }
      assert done == ActiveIds(before, userId, now);
      r := Ok(());
    }

    lemma {:induction false} SaveRevokes(before: SessionTable, done: set<string>, id: string)
      requires ValidSessions(before) && id in before.rows && id !in done
      ensures SaveSession(RevokeIds(before, done), before.rows[id].(isRevoked := true)) ==
              Ok(RevokeIds(before, done + {id}))
    {
      assert RevokeIds(before, done + {id}).rows ==
             RevokeIds(before, done).rows[id := before.rows[id].(isRevoked := true)];
    }
  }

  class VerifyEmailService {
    const userRepository: UserRepository
    const emailVerificationTokenRepository: EmailVerificationTokenRepository

    constructor (users: UserRepository, tokens: EmailVerificationTokenRepository)
      ensures userRepository == users && emailVerificationTokenRepository == tokens
    {
      userRepository, emailVerificationTokenRepository := users, tokens;
    }

    /** All tables, given those that this service has no access to. */
    function Db(sessions: SessionTable, resets: map<string, TokenRow>): IdentityDb
      reads userRepository, emailVerificationTokenRepository
    {
      IdentityDb(userRepository.Table(), sessions, resets, emailVerificationTokenRepository.tokens)
    }

    method Execute(hashedToken: string, now: int) returns (r: Result<string, AuthError>)
      requires ValidUsers(userRepository.Table())
      modifies userRepository, emailVerificationTokenRepository
      ensures forall sessions, resets ::
                DbOutcome(Db(sessions, resets), r) == VerifyStep(old(Db(sessions, resets)), now, hashedToken)
    {
      var verificationToken := emailVerificationTokenRepository.FindByToken(hashedToken);
      if verificationToken == null {
        return Err(InvalidVerificationToken);
      }
      if verificationToken.IsExpired(now) {
        return Err(InvalidVerificationToken);
      }
      if verificationToken.isUsed {
        return Err(InvalidVerificationToken);
      }
      var user := userRepository.FindById(verificationToken.userId);
      if user == null {
        return Err(InvalidVerificationToken);
      }
      user.VerifyEmail();
      var updated := userRepository.Update(user);
      match updated {
        case Err(e) => return Err(e);
        case Ok(_) =>
      }
      var marked := verificationToken.MarkAsUsed(now);
      match marked {
        case Err(e) => return Err(e);
        case Ok(_) =>
      }
      emailVerificationTokenRepository.Delete(hashedToken);
      r := Ok(user.id);
    }
  }
}
