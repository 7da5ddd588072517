/**
 What interleaving takes away. Single use of refresh tokens and permanence of locks hold for
 requests that run one at a time; here two requests that overlap defeat each of them, from any
 state in which the requests would have succeeded. A slow reset can also stop half way. The
 modules after this one say exactly when such a thing can happen.
 */
module Races {
  import opened Wrappers
  import opened IdentityModel
  import opened Interleaved
  import opened Serialization

  function Held(s: System, pid: nat, phase: Phase): System {
    Move(s, pid, Some(phase))
  }

  // ---------------------------------------------------------------------------------------
  // Two refreshes with one token

  /** A refresh with this token, run now, would be accepted. */
  ghost predicate WouldRefresh(s: System, verified: Claims, digest: string) {
    && RefreshLookup(s, verified, digest).Some?
    && verified.sub in s.db.users.rows && !s.db.users.rows[verified.sub].isLocked
  }

  lemma {:induction false} BothLoad(s: System, p: nat, q: nat, verified: Claims, digest: string)
    requires p != q && p !in s.procs && q !in s.procs && WouldRefresh(s, verified, digest)
    ensures var session := RefreshLookup(s, verified, digest).value.session.(isRevoked := true);
            Exec(Exec(s, [StartRefresh(p, verified, digest), StartRefresh(q, verified, digest)]),
                 [LoadRefreshUser(p), LoadRefreshUser(q)]) ==
            Held(Held(s, p, RefreshRevoking(session, s.now)), q, RefreshRevoking(session, s.now))
  {
    var loaded := RefreshLookup(s, verified, digest).value;
    var session := loaded.session.(isRevoked := true);
    ExecTwo(s, StartRefresh(p, verified, digest), StartRefresh(q, verified, digest));
    var t := Held(Held(s, p, loaded), q, loaded);
    ExecTwo(t, LoadRefreshUser(p), LoadRefreshUser(q));
    assert Act(t, LoadRefreshUser(p)).procs == Held(Held(s, p, RefreshRevoking(session, s.now)), q, loaded).procs;
  }

  lemma {:induction false} RevokeOne(s: System, pid: nat, session: SessionRow, at: int, t: SessionTable)
    requires Holding(s, pid) == Some(RefreshRevoking(session, at)) && SaveSession(s.db.sessions, session) == Ok(t)
    ensures Act(s, StoreRevoked(pid)) == Held(s.(db := s.db.(sessions := t)), pid, Rotating(session, at))
  {
  }

  lemma {:induction false} SavingTwice(t: SessionTable, session: SessionRow)
    requires ValidSessions(t) && SessionCopy(t, session) && session.isRevoked
    ensures SaveSession(t, session).Ok?
    ensures var once := SaveSession(t, session).value;
            SaveSession(once, session) == Ok(once)
  {
    var once := SaveSession(t, session).value;
    assert SaveSession(once, session).value.rows == once.rows;
  }

  lemma {:induction false} BothRevoke(s: System, p: nat, q: nat, session: SessionRow, at: int)
    requires p != q && ValidSessions(s.db.sessions) && SessionCopy(s.db.sessions, session) && session.isRevoked
    ensures var revoked := s.(db := s.db.(sessions := SaveSession(s.db.sessions, session).value));
            Exec(Held(Held(s, p, RefreshRevoking(session, at)), q, RefreshRevoking(session, at)),
                 [StoreRevoked(p), StoreRevoked(q)]) ==
            Held(Held(revoked, p, Rotating(session, at)), q, Rotating(session, at))
  {
    var once := SaveSession(s.db.sessions, session).value;
    var t := Held(Held(s, p, RefreshRevoking(session, at)), q, RefreshRevoking(session, at));
    var revoked := Held(Held(s.(db := s.db.(sessions := once)), p, Rotating(session, at)), q,
                        RefreshRevoking(session, at));
    SavingTwice(s.db.sessions, session);
    RevokeOne(t, p, session, at, once);
    assert Act(t, StoreRevoked(p)) == revoked by {
      assert Act(t, StoreRevoked(p)).procs == revoked.procs;
    }
    RevokeOne(revoked, q, session, at, once);
    ExecTwo(t, StoreRevoked(p), StoreRevoked(q));
  }

  /** One of the two goes on to store its successor. */
  lemma {:induction false} IssueAndStore(
      s: System, pid: nat, session: SessionRow, at: int, id: string, digest: string, exp: Option<int>)
    requires Holding(s, pid) == Some(Rotating(session, at))
    requires id !in s.db.sessions.rows && digest !in s.db.sessions.tokenIndex
    ensures var t := Exec(s, [IssueRotation(pid, id, digest, exp), StoreNew(pid)]);
            && id in t.db.sessions.rows
            && t.db.sessions.rows[id] == SessionRow(id, session.userId, digest, SessionExpiry(exp, at), at, false)
            && t.db.sessions.rows.Keys == s.db.sessions.rows.Keys + {id}
            && (forall k :: k in s.db.sessions.rows ==> t.db.sessions.rows[k] == s.db.sessions.rows[k])
            && t.db.sessions.tokenIndex.Keys == s.db.sessions.tokenIndex.Keys + {digest}
            && (forall q :: q != pid ==> Holding(t, q) == Holding(s, q))
  {
    ExecTwo(s, IssueRotation(pid, id, digest, exp), StoreNew(pid));
    var row := SessionRow(id, session.userId, digest, SessionExpiry(exp, at), at, false);
    assert Holding(Act(s, IssueRotation(pid, id, digest, exp)), pid) == Some(Creating(row));
  }

  /** The actions of two refreshes that overlap until both have revoked the old session. */
  function OverlappingRefreshes(p: nat, q: nat, verified: Claims, digest: string): seq<Action> {
    ([StartRefresh(p, verified, digest), StartRefresh(q, verified, digest)] + [LoadRefreshUser(p), LoadRefreshUser(q)])
    + [StoreRevoked(p), StoreRevoked(q)]
  }

  /**
   From any state in which a refresh would be accepted, two overlapping refreshes with that one
   token both succeed: the session ends with two unrevoked successors.
   */
  lemma {:induction false} OneTokenTwoSessions(
      s: System, p: nat, q: nat, verified: Claims, digest: string,
      idP: string, digestP: string, idQ: string, digestQ: string, exp: Option<int>)
    requires ValidSessions(s.db.sessions) && p != q && p !in s.procs && q !in s.procs
             && WouldRefresh(s, verified, digest)
    requires idP != idQ && idP !in s.db.sessions.rows && idQ !in s.db.sessions.rows
    requires digestP != digestQ && digestP !in s.db.sessions.tokenIndex && digestQ !in s.db.sessions.tokenIndex
    ensures var t := Exec(s, OverlappingRefreshes(p, q, verified, digest));
            var done := Exec(Exec(t, [IssueRotation(p, idP, digestP, exp), StoreNew(p)]),
                             [IssueRotation(q, idQ, digestQ, exp), StoreNew(q)]);
            var rows := done.db.sessions.rows;
            && idP in rows && !rows[idP].isRevoked && idQ in rows && !rows[idQ].isRevoked
            && rows[idP].userId == rows[idQ].userId == s.db.sessions.rows[verified.sessionId].userId
  {
    var session := RefreshLookup(s, verified, digest).value.session.(isRevoked := true);
    var starts := [StartRefresh(p, verified, digest), StartRefresh(q, verified, digest)];
    var loads := [LoadRefreshUser(p), LoadRefreshUser(q)];
    ExecAppend(s, starts + loads, [StoreRevoked(p), StoreRevoked(q)]);
    ExecAppend(s, starts, loads);
    BothLoad(s, p, q, verified, digest);
    BothRevoke(s, p, q, session, s.now);
    var t := Exec(s, OverlappingRefreshes(p, q, verified, digest));
    assert t.db.sessions.rows.Keys == s.db.sessions.rows.Keys;
    IssueAndStore(t, p, session, s.now, idP, digestP, exp);
    IssueAndStore(Exec(t, [IssueRotation(p, idP, digestP, exp), StoreNew(p)]), q, session, s.now, idQ, digestQ, exp);
  }

  // ---------------------------------------------------------------------------------------
  // A lock undone by a stale copy

  /** A wrong login stores its count and possibly a lock; a right one that loaded earlier stores over it. */
  function OverlappingLogins(p: nat, q: nat, email: string): seq<Action> {
    [StartLogin(p, email), StartLogin(q, email)] + [VerifyPassword(q, false), StoreLogin(q)]
  }

  lemma {:induction false} WrongLoginStores(s: System, p: nat, q: nat, email: string)
    requires p != q && p !in s.procs && q !in s.procs
    requires LoginLookup(s, email).Some?
    ensures var user := LoginLookup(s, email).value.user;
            var t := Exec(s, OverlappingLogins(p, q, email));
            t.db.users == StoreUser(s.db.users, FailedAttempt(user)) && Holding(t, p) == Some(LoginLoaded(user))
  {
    var loaded := LoginLookup(s, email).value;
    ExecAppend(s, [StartLogin(p, email), StartLogin(q, email)], [VerifyPassword(q, false), StoreLogin(q)]);
    ExecTwo(s, StartLogin(p, email), StartLogin(q, email));
    var t := Held(Held(s, p, loaded), q, loaded);
    ExecTwo(t, VerifyPassword(q, false), StoreLogin(q));
    assert Holding(Act(t, VerifyPassword(q, false)), q) == Some(LoginStoring(FailedAttempt(loaded.user), false));
  }

  /**
   A user with four failed attempts is locked by one login, and unlocked again
   by a right one that had loaded the user before: the lock and every counted failure are lost.
   */
  lemma {:induction false} StaleLoginUndoesLock(s: System, p: nat, q: nat, email: string)
    requires p != q && p !in s.procs && q !in s.procs && ValidUsers(s.db.users)
    requires LoginLookup(s, email).Some?
    requires LoginLookup(s, email).value.user.failedLoginAttempts == 4
    ensures var id := LoginLookup(s, email).value.user.id;
            var locked := Exec(s, OverlappingLogins(p, q, email));
            var undone := Exec(locked, [VerifyPassword(p, true), StoreLogin(p)]);
            && id in locked.db.users.rows && locked.db.users.rows[id].isLocked
            && id in undone.db.users.rows && !undone.db.users.rows[id].isLocked
            && undone.db.users.rows[id].failedLoginAttempts == 0
  {
    var user := LoginLookup(s, email).value.user;
    WrongLoginStores(s, p, q, email);
    var locked := Exec(s, OverlappingLogins(p, q, email));
    ExecTwo(locked, VerifyPassword(p, true), StoreLogin(p));
    assert Holding(Act(locked, VerifyPassword(p, true)), p) == Some(LoginStoring(SuccessfulLogin(user), true));
  }

  // ---------------------------------------------------------------------------------------
  // A reset whose token expires between its two checks

  /** A reset whose password takes `hashing` milliseconds to hash and `storing` to store. */
  function SlowReset(p: nat, token: string, newHash: string, hashing: nat, storing: nat): seq<Action> {
    [StartToken(p, PasswordReset, token), LoadTokenUser(p)] + [HashPassword(p, newHash), Pass(hashing)]
    + [StoreTokenUser(p), Pass(storing)] + [MarkToken(p)]
  }

  function SlowlyHashed(p: nat, token: string, newHash: string, hashing: nat): seq<Action> {
    [StartToken(p, PasswordReset, token), LoadTokenUser(p)] + [HashPassword(p, newHash), Pass(hashing)]
  }

  lemma {:induction false} SlowResetReachesStore(s: System, p: nat, token: string, newHash: string, hashing: nat)
    requires p !in s.procs && ResetStep(s.db, s.now, token, newHash).result.Ok?
    ensures var reset := s.db.resets[token];
            Exec(s, SlowlyHashed(p, token, newHash, hashing)) ==
            With(s.(now := s.now + hashing), s.db, s.reserved, p,
                 Some(TokenStoring(PasswordReset, reset, s.db.users.rows[reset.userId].(passwordHash := newHash))))
  {
    var reset := s.db.resets[token];
    ExecAppend(s, [StartToken(p, PasswordReset, token), LoadTokenUser(p)], [HashPassword(p, newHash), Pass(hashing)]);
    ExecTwo(s, StartToken(p, PasswordReset, token), LoadTokenUser(p));
    ResetUntilLoaded(s, p, token);
    ExecTwo(Act(Act(s, StartToken(p, PasswordReset, token)), LoadTokenUser(p)), HashPassword(p, newHash),
            Pass(hashing));
    HashAlone(s, p, reset, s.db.users.rows[reset.userId], newHash);
  }

  lemma {:induction false} StoreThenPass(s: System, p: nat, reset: TokenRow, user: UserRow, storing: nat)
    requires p !in s.procs
    ensures Exec(With(s, s.db, s.reserved, p, Some(TokenStoring(PasswordReset, reset, user))),
                 [StoreTokenUser(p), Pass(storing)]) ==
            With(s.(now := s.now + storing), s.db.(users := StoreUser(s.db.users, user)), s.reserved, p,
                 Some(TokenMarking(PasswordReset, reset)))
  {
    StoreAlone(s, p, reset, user);
    ExecTwo(With(s, s.db, s.reserved, p, Some(TokenStoring(PasswordReset, reset, user))), StoreTokenUser(p),
            Pass(storing));
  }

  lemma {:induction false} SlowResetReachesMarking(
      s: System, p: nat, token: string, newHash: string, hashing: nat, storing: nat)
    requires p !in s.procs && ResetStep(s.db, s.now, token, newHash).result.Ok?
    ensures var reset := s.db.resets[token];
            var user := s.db.users.rows[reset.userId].(passwordHash := newHash);
            Exec(s, SlowlyHashed(p, token, newHash, hashing) + [StoreTokenUser(p), Pass(storing)]) ==
            With(s.(now := s.now + hashing + storing), s.db.(users := StoreUser(s.db.users, user)), s.reserved, p,
                 Some(TokenMarking(PasswordReset, reset)))
  {
    var reset := s.db.resets[token];
    ExecAppend(s, SlowlyHashed(p, token, newHash, hashing), [StoreTokenUser(p), Pass(storing)]);
    SlowResetReachesStore(s, p, token, newHash, hashing);
    StoreThenPass(s.(now := s.now + hashing), p, reset,
                  s.db.users.rows[reset.userId].(passwordHash := newHash), storing);
  }

  lemma {:induction false} SlowResetMarks(s: System, p: nat, token: string, newHash: string, hashing: nat, storing: nat)
    requires p !in s.procs && ResetStep(s.db, s.now, token, newHash).result.Ok?
    ensures var reset := s.db.resets[token];
            var user := s.db.users.rows[reset.userId].(passwordHash := newHash);
            var later := s.now + hashing + storing;
            Exec(s, SlowReset(p, token, newHash, hashing, storing)) ==
            With(s.(now := later), s.db.(users := StoreUser(s.db.users, user)), s.reserved, p,
                 if later > reset.expiresAt then None else Some(TokenDeleting(PasswordReset, reset)))
  {
    var reset := s.db.resets[token];
    var user := s.db.users.rows[reset.userId].(passwordHash := newHash);
    var first := SlowlyHashed(p, token, newHash, hashing) + [StoreTokenUser(p), Pass(storing)];
    SlowResetReachesMarking(s, p, token, newHash, hashing, storing);
    MarkAlone(s.(now := s.now + hashing + storing), s.db.(users := StoreUser(s.db.users, user)), p, reset);
    ExecAppend(s, first, [MarkToken(p)]);
    ExecOne(Exec(s, first), MarkToken(p));
  }

  /**
   A reset that passes its checks always changes the password; it then ends at once, with no
   session revoked and its token still stored, exactly if the token expired in the meantime.
   */
  lemma {:induction false} ExpiringResetKeepsSessions(
      s: System, p: nat, token: string, newHash: string, hashing: nat, storing: nat)
    requires p !in s.procs && ResetStep(s.db, s.now, token, newHash).result.Ok?
    ensures var reset := s.db.resets[token];
            var t := Exec(s, SlowReset(p, token, newHash, hashing, storing));
            && t.db.users == StoreUser(s.db.users, s.db.users.rows[reset.userId].(passwordHash := newHash))
            && t.db.sessions == s.db.sessions && t.db.resets == s.db.resets
            && (p !in t.procs <==> s.now + hashing + storing > reset.expiresAt)
  {
    SlowResetMarks(s, p, token, newHash, hashing, storing);
  }

  lemma {:induction false} UnexpiredResetRuns(
      s: System, p: nat, token: string, newHash: string, hashing: nat, storing: nat, listed: seq<SessionRow>)
    requires p !in s.procs && ValidSessions(s.db.sessions)
    requires ResetStep(s.db, s.now, token, newHash).result.Ok? && s.db.resets[token].token == token
    requires s.now + hashing + storing <= s.db.resets[token].expiresAt
    requires Lists(s.db.sessions, s.db.resets[token].userId, s.now + hashing + storing, listed)
    ensures var reset := s.db.resets[token];
            var later := s.(now := s.now + hashing + storing);
            var user := s.db.users.rows[reset.userId].(passwordHash := newHash);
            var db := s.db.(users := StoreUser(s.db.users, user),
                            resets := s.db.resets - {token},
                            sessions := RevokeActive(s.db.sessions, reset.userId, later.now));
            Exec(Exec(s, SlowReset(p, token, newHash, hashing, storing)), [DeleteToken(p)] + ResetRest(p, listed)) ==
            With(later, db, s.reserved, p, None)
  {
    var reset := s.db.resets[token];
    var user := s.db.users.rows[reset.userId].(passwordHash := newHash);
    var later := s.(now := s.now + hashing + storing);
    SlowResetMarks(s, p, token, newHash, hashing, storing);
    DeleteAndRevokeAlone(later, s.db.(users := StoreUser(s.db.users, user)), p, reset, listed);
  }

  /**
   If the token is still good when the password has been stored, the slow reset goes on to do what
   an atomic reset at that later time does: the token goes and every session then active is revoked.
   */
  lemma {:induction false} UnexpiredResetCompletes(
      s: System, p: nat, token: string, newHash: string, hashing: nat, storing: nat, listed: seq<SessionRow>)
    requires p !in s.procs && ValidUsers(s.db.users) && ValidSessions(s.db.sessions)
    requires ResetStep(s.db, s.now, token, newHash).result.Ok? && s.db.resets[token].token == token
    requires s.now + hashing + storing <= s.db.resets[token].expiresAt
    requires Lists(s.db.sessions, s.db.resets[token].userId, s.now + hashing + storing, listed)
    ensures var marked := Exec(s, SlowReset(p, token, newHash, hashing, storing));
            var t := Exec(marked, [DeleteToken(p)] + ResetRest(p, listed));
            && t.db == ResetStep(s.db, s.now + hashing + storing, token, newHash).db
            && t.procs == s.procs
  {
    UnexpiredResetRuns(s, p, token, newHash, hashing, storing, listed);
    ResetLater(s.db, s.now, s.now + hashing + storing, token, newHash);
  }

  lemma {:induction false} DeleteAndRevokeAlone(
      s: System, db: IdentityDb, p: nat, reset: TokenRow, listed: seq<SessionRow>)
    requires p !in s.procs && ValidSessions(db.sessions) && Lists(db.sessions, reset.userId, s.now, listed)
    ensures var marked := With(s, db, s.reserved, p, Some(TokenDeleting(PasswordReset, reset)));
            var revoked := RevokeActive(db.sessions, reset.userId, s.now);
            Exec(marked, [DeleteToken(p)] + ResetRest(p, listed)) ==
            With(s, db.(resets := db.resets - {reset.token}, sessions := revoked), s.reserved, p, None)
  {
    ExecCons(With(s, db, s.reserved, p, Some(TokenDeleting(PasswordReset, reset))), DeleteToken(p),
             ResetRest(p, listed));
    ForgetAlone(s, db, p, reset);
    ListAndRevokeAlone(s, db.(resets := db.resets - {reset.token}), p, reset.userId, listed);
  }

  /** What a reset at a later time does if its token is still good then. */
  lemma {:induction false} ResetLater(db: IdentityDb, now: int, later: int, token: string, newHash: string)
    requires ValidUsers(db.users) && ResetStep(db, now, token, newHash).result.Ok?
    requires later <= db.resets[token].expiresAt
    ensures var reset := db.resets[token];
            var user := db.users.rows[reset.userId].(passwordHash := newHash);
            ResetStep(db, later, token, newHash).db ==
            db.(users := StoreUser(db.users, user),
                resets := db.resets - {token},
                sessions := RevokeActive(db.sessions, reset.userId, later))
  {
  }
}
