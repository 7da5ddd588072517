/** The repositories: each find loads a fresh object from a row, each save writes one back. */
module Repositories {
  import opened Wrappers
  import opened IdentityModel
  import opened Entities

  class UserRepository {
    var rows: map<string, UserRow>
    var emailIndex: map<string, string>

    function Table(): UserTable
      reads this
    {
      UserTable(rows, emailIndex)
    }

    constructor (t: UserTable)
      ensures Table() == t
    {
      rows, emailIndex := t.rows, t.emailIndex;
    }

    method FindById(id: string) returns (user: User?)
      ensures user == null <==> id !in rows
      ensures user != null ==> fresh(user) && user.domainEvents == [] && user.Row() == rows[id]
    {
      if id !in rows {
        return null;
      }
      user := new User(rows[id]);
    }

    method FindByEmail(email: string) returns (user: User?)
      ensures user == null <==> IdentityModel.FindByEmail(Table(), email).None?
      ensures user != null ==>
                fresh(user) && user.domainEvents == [] && Some(user.Row()) == IdentityModel.FindByEmail(Table(), email)
    {
      var found := IdentityModel.FindByEmail(Table(), email);
      if found.None? {
        return null;
      }
      user := new User(found.value);
    }

    /** Fails for a user that is not stored; otherwise writes every column but the email address. */
    method Update(user: User) returns (r: Result<(), AuthError>)
      modifies this
      ensures r == if user.id in old(rows) then Ok(()) else Err(RecordNotFound)
      ensures Table() == StoreUser(old(Table()), user.Row())
      ensures r.Ok? ==>
                && emailIndex == old(emailIndex)
                && rows == old(rows)[user.id := UserRow(user.id, old(rows)[user.id].email, user.passwordHash,
                                                        user.isLocked, user.failedLoginAttempts, user.emailVerified)]
      ensures r.Err? ==> Table() == old(Table())
    {
      if user.id !in rows {
        return Err(RecordNotFound);
      }
      rows := rows[user.id := user.Row().(email := rows[user.id].email)];
      r := Ok(());
    }
  }

  class DeviceSessionRepository {
    var rows: map<string, SessionRow>
    var tokenIndex: map<string, string>

    function Table(): SessionTable
      reads this
    {
      SessionTable(rows, tokenIndex)
    }

    constructor (t: SessionTable)
      ensures Table() == t
    {
      rows, tokenIndex := t.rows, t.tokenIndex;
    }

    method FindById(id: string) returns (session: DeviceSession?)
      ensures session == null <==> id !in rows
      ensures session != null ==> fresh(session) && session.domainEvents == [] && session.Row() == rows[id]
    {
      if id !in rows {
        return null;
      }
      session := new DeviceSession(rows[id]);
    }

    method FindByRefreshToken(hashedToken: string) returns (session: DeviceSession?)
      ensures session == null <==> IdentityModel.FindByRefreshToken(Table(), hashedToken).None?
      ensures session != null ==>
                && fresh(session) && session.domainEvents == []
                && Some(session.Row()) == IdentityModel.FindByRefreshToken(Table(), hashedToken)
    {
      var found := IdentityModel.FindByRefreshToken(Table(), hashedToken);
      if found.None? {
        return null;
      }
      session := new DeviceSession(found.value);
    }

    /** The user's unrevoked sessions expiring strictly after now, each once, in no particular order. */
    method FindActiveSessions(userId: string, now: int) returns (sessions: seq<DeviceSession>)
      requires ValidSessions(Table())
      ensures forall i :: 0 <= i < |sessions| ==> fresh(sessions[i])
      ensures forall i :: 0 <= i < |sessions| ==>
                && sessions[i].id in rows && sessions[i].Row() == rows[sessions[i].id]
                && Active(rows[sessions[i].id], userId, now)
      ensures forall i, j :: 0 <= i < j < |sessions| ==> sessions[i].id != sessions[j].id
      ensures forall id :: id in rows && Active(rows[id], userId, now) ==>
                exists i :: 0 <= i < |sessions| && sessions[i].id == id
    {
      var pending := set id | id in rows && Active(rows[id], userId, now);
      sessions := [];
      while pending != {}
        invariant forall i :: 0 <= i < |sessions| ==> fresh(sessions[i])
        invariant forall i :: 0 <= i < |sessions| ==>
                    && sessions[i].id in rows && sessions[i].Row() == rows[sessions[i].id]
                    && Active(rows[sessions[i].id], userId, now) && sessions[i].id !in pending
        invariant forall i, j :: 0 <= i < j < |sessions| ==> sessions[i].id != sessions[j].id
        invariant forall id :: id in pending ==> id in rows && Active(rows[id], userId, now)
        invariant forall id :: id in rows && Active(rows[id], userId, now) ==>
                    id in pending || exists i :: 0 <= i < |sessions| && sessions[i].id == id
        decreases pending
      {
        var id :| id in pending;
        var session := new DeviceSession(rows[id]);
        ghost var before := sessions;
        sessions := sessions + [session];
        pending := pending - {id};
        assert sessions[|before|].id == id;
        assert forall i :: 0 <= i < |before| ==> sessions[i] == before[i];
      }
    }

    method Save(session: DeviceSession) returns (r: Result<(), AuthError>)
      modifies this
      ensures match SaveSession(old(Table()), session.Row())
              case Ok(t) => r == Ok(()) && Table() == t
              case Err(e) => r == Err(e) && Table() == old(Table())
      ensures r.Ok? <==> session.id in old(rows) || session.refreshToken !in old(tokenIndex)
      ensures session.id in old(rows) ==>
                && tokenIndex == old(tokenIndex)
                && rows == old(rows)[session.id := old(rows)[session.id].(isRevoked := session.isRevoked)]
      ensures r.Ok? && session.id !in old(rows) ==>
                && tokenIndex == old(tokenIndex)[session.refreshToken := session.id]
                && rows == old(rows)[session.id := session.Row()]
    {
      if session.id in rows {
        rows := rows[session.id := rows[session.id].(isRevoked := session.isRevoked)];
      } else if session.refreshToken in tokenIndex {
        return Err(UniqueViolation);
      } else {
        rows := rows[session.id := session.Row()];
        tokenIndex := tokenIndex[session.refreshToken := session.id];
      }
      r := Ok(());
    }
  }

  class PasswordResetTokenRepository {
    var tokens: map<string, TokenRow>

    constructor (tokens: map<string, TokenRow>)
      ensures this.tokens == tokens
    {
      this.tokens := tokens;
    }

    method FindByToken(hashedToken: string) returns (token: PasswordResetToken?)
      ensures token == null <==> hashedToken !in tokens
      ensures token != null ==>
                && fresh(token) && token.token == tokens[hashedToken].token
                && token.userId == tokens[hashedToken].userId
                && token.expiresAt == tokens[hashedToken].expiresAt && token.isUsed == tokens[hashedToken].isUsed
    {
      if hashedToken !in tokens {
        return null;
      }
      token := new PasswordResetToken(tokens[hashedToken]);
    }

    /** Deleting a token that is not there is ignored. */
    method Delete(hashedToken: string)
      modifies this
      ensures tokens == old(tokens) - {hashedToken}
    {
      tokens := tokens - {hashedToken};
    }
  }

  class EmailVerificationTokenRepository {
    var tokens: map<string, TokenRow>

    constructor (tokens: map<string, TokenRow>)
      ensures this.tokens == tokens
    {
      this.tokens := tokens;
    }

    method FindByToken(hashedToken: string) returns (token: EmailVerificationToken?)
      ensures token == null <==> hashedToken !in tokens
      ensures token != null ==>
                && fresh(token) && token.domainEvents == []
                && token.token == tokens[hashedToken].token && token.userId == tokens[hashedToken].userId
                && token.expiresAt == tokens[hashedToken].expiresAt && token.isUsed == tokens[hashedToken].isUsed
    {
      if hashedToken !in tokens {
        return null;
      }
      token := new EmailVerificationToken(tokens[hashedToken]);
    }

    /** Deleting a token that is not there is ignored. */
    method Delete(hashedToken: string)
      modifies this
      ensures tokens == old(tokens) - {hashedToken}
    {
      tokens := tokens - {hashedToken};
    }
  }
}
