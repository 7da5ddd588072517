/** The two aggregates the services load, change in place and write back. */
module Entities {
  import opened Wrappers
  import opened IdentityModel

  datatype DomainEvent =
    | UserLocked(userId: string, reason: string)
    | UserLoggedIn(userId: string)
    | PasswordChanged(userId: string)
    | EmailVerified(userId: string)
    | TokenRevoked(sessionId: string, userId: string, reason: string)

  class User {
    const id: string
    const email: string
    var passwordHash: string
    var isLocked: bool
    var failedLoginAttempts: int
    var emailVerified: bool
    var domainEvents: seq<DomainEvent>

    /** The columns this object writes back. */
    function Row(): UserRow
      reads this
    {
      UserRow(id, email, passwordHash, isLocked, failedLoginAttempts, emailVerified)
    }

    constructor (row: UserRow)
      ensures Row() == row && domainEvents == []
    {
      id, email, passwordHash := row.id, row.email, row.passwordHash;
      isLocked, failedLoginAttempts, emailVerified := row.isLocked, row.failedLoginAttempts, row.emailVerified;
      domainEvents := [];
    }

    /** Locking twice has no effect and announces nothing. */
    method Lock(reason: string)
      modifies this
      ensures Row() == old(Row()).(isLocked := true)
      ensures domainEvents == old(domainEvents) + if old(isLocked) then [] else [UserLocked(id, reason)]
    {
      if isLocked {
        return;
      }
      isLocked := true;
      domainEvents := domainEvents + [UserLocked(id, reason)];
    }

    method Unlock()
      modifies this
      ensures Row() == old(Row()).(isLocked := false, failedLoginAttempts := 0)
      ensures domainEvents == old(domainEvents)
    {
      isLocked := false;
      failedLoginAttempts := 0;
    }

    /** Announces the lock exactly when this attempt is the one that reaches the limit. */
    method IncrementFailedAttempts(maxAttempts: int := MAX_FAILED_ATTEMPTS)
      modifies this
      ensures maxAttempts == 5 ==> Row() == FailedAttempt(old(Row()))
      ensures old(isLocked) ==> Row() == old(Row())
      ensures !old(isLocked) ==>
                Row() == old(Row()).(failedLoginAttempts := old(failedLoginAttempts) + 1,
                                     isLocked := old(failedLoginAttempts) + 1 >= maxAttempts)
      ensures domainEvents == old(domainEvents) +
                (if isLocked && !old(isLocked) then [UserLocked(id, "Exceeded maximum failed login attempts")] else [])
    {
      if isLocked {
        return;
      }
      failedLoginAttempts := failedLoginAttempts + 1;
      if failedLoginAttempts >= maxAttempts {
        Lock("Exceeded maximum failed login attempts");
      }
    }

    method ResetFailedAttempts()
      modifies this
      ensures Row() == old(Row()).(failedLoginAttempts := 0) && domainEvents == old(domainEvents)
    {
      failedLoginAttempts := 0;
    }

    method RecordLogin() returns (r: Result<(), AuthError>)
      modifies this
      ensures old(isLocked) ==> r == Err(InvalidState(UserIsLocked)) && Row() == old(Row())
      ensures old(isLocked) ==> domainEvents == old(domainEvents)
      ensures !old(isLocked) ==> r == Ok(()) && Row() == old(Row()).(failedLoginAttempts := 0)
      ensures !old(isLocked) ==> domainEvents == old(domainEvents) + [UserLoggedIn(id)]
    {
      if isLocked {
        return Err(InvalidState(UserIsLocked));
      }
      ResetFailedAttempts();
      domainEvents := domainEvents + [UserLoggedIn(id)];
      r := Ok(());
    }

    /** Verifying twice has no effect. */
    method VerifyEmail()
      modifies this
      ensures Row() == old(Row()).(emailVerified := true) && domainEvents == old(domainEvents)
    {
      if emailVerified {
        return;
      }
      emailVerified := true;
    }

    method ChangePassword(newPasswordHash: string) returns (r: Result<(), AuthError>)
      modifies this
      ensures old(passwordHash) == newPasswordHash ==> r == Err(InvalidState(SamePassword)) && Row() == old(Row())
      ensures old(passwordHash) == newPasswordHash ==> domainEvents == old(domainEvents)
      ensures old(passwordHash) != newPasswordHash ==>
                && r == Ok(()) && Row() == old(Row()).(passwordHash := newPasswordHash)
                && domainEvents == old(domainEvents) + [PasswordChanged(id)]
    {
      if passwordHash == newPasswordHash {
        return Err(InvalidState(SamePassword));
      }
      passwordHash := newPasswordHash;
      domainEvents := domainEvents + [PasswordChanged(id)];
      r := Ok(());
    }
  }

  class DeviceSession {
    const id: string
    const userId: string
    const createdAt: int
    var refreshToken: string
    var expiresAt: int
    var isRevoked: bool
    var domainEvents: seq<DomainEvent>

    function Row(): SessionRow
      reads this
    {
      SessionRow(id, userId, refreshToken, expiresAt, createdAt, isRevoked)
    }

    constructor (row: SessionRow)
      ensures Row() == row && domainEvents == []
    {
      id, userId, createdAt := row.id, row.userId, row.createdAt;
      refreshToken, expiresAt, isRevoked := row.refreshToken, row.expiresAt, row.isRevoked;
      domainEvents := [];
    }

    predicate IsExpired(now: int)
      reads this
    {
      now > expiresAt
    }

    /** The successor shares only the user with this session, which is left as it was. */
    method Rotate(newSessionId: string, newDigest: string, newExpiresAt: int, now: int)
      returns (successor: DeviceSession)
      ensures fresh(successor)
      ensures successor.Row() == SessionRow(newSessionId, userId, newDigest, newExpiresAt, now, false)
      ensures successor.domainEvents == []
    {
      successor := new DeviceSession(SessionRow(newSessionId, userId, newDigest, newExpiresAt, now, false));
    }

    method Revoke(reason: string) returns (r: Result<(), AuthError>)
      modifies this
      ensures old(isRevoked) ==>
                && r == Err(InvalidState(SessionAlreadyRevoked)) && Row() == old(Row())
                && domainEvents == old(domainEvents)
      ensures !old(isRevoked) ==>
                && r == Ok(()) && Row() == old(Row()).(isRevoked := true)
                && domainEvents == old(domainEvents) + [TokenRevoked(id, userId, reason)]
    {
      if isRevoked {
        return Err(InvalidState(SessionAlreadyRevoked));
      }
      isRevoked := true;
      domainEvents := domainEvents + [TokenRevoked(id, userId, reason)];
      r := Ok(());
    }
  }

  /** The password-reset token as the reset service loads it. */
  class PasswordResetToken {
    const token: string
    const userId: string
    const expiresAt: int
    var isUsed: bool

    constructor (row: TokenRow)
      ensures token == row.token && userId == row.userId && expiresAt == row.expiresAt && isUsed == row.isUsed
    {
      token, userId, expiresAt, isUsed := row.token, row.userId, row.expiresAt, row.isUsed;
    }

    predicate IsExpired(now: int) {
      now > expiresAt
    }

    method MarkAsUsed(now: int) returns (r: Result<(), AuthError>)
      modifies this
      ensures r.Ok? <==> !old(isUsed) && now <= expiresAt
      ensures isUsed == (old(isUsed) || r.Ok?)
      ensures r.Err? ==> r.error == InvalidState(if isUsed then TokenUsed else TokenExpired)
    {
      if isUsed {
        return Err(InvalidState(TokenUsed));
      }
      if IsExpired(now) {
        return Err(InvalidState(TokenExpired));
      }
      isUsed := true;
      r := Ok(());
    }
  }

  /** The email-verification token as its service loads it. */
  class EmailVerificationToken {
    const token: string
    const userId: string
    const expiresAt: int
    var isUsed: bool
    var domainEvents: seq<DomainEvent>

    constructor (row: TokenRow)
      ensures token == row.token && userId == row.userId && expiresAt == row.expiresAt && isUsed == row.isUsed
      ensures domainEvents == []
    {
      token, userId, expiresAt, isUsed := row.token, row.userId, row.expiresAt, row.isUsed;
      domainEvents := [];
    }

    predicate IsExpired(now: int) {
      now > expiresAt
    }

    /** Announces the verified address exactly when it succeeds. */
    method MarkAsUsed(now: int) returns (r: Result<(), AuthError>)
      modifies this
      ensures r.Ok? <==> !old(isUsed) && now <= expiresAt
      ensures isUsed == (old(isUsed) || r.Ok?)
      ensures domainEvents == old(domainEvents) + if r.Ok? then [EmailVerified(userId)] else []
      ensures r.Err? ==> r.error == InvalidState(if isUsed then TokenUsed else TokenExpired)
    {
      if isUsed {
        return Err(InvalidState(TokenUsed));
      }
      if IsExpired(now) {
        return Err(InvalidState(TokenExpired));
      }
      isUsed := true;
      domainEvents := domainEvents + [EmailVerified(userId)];
      r := Ok(());
    }
  }
}
