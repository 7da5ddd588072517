/**
 The two models agree on a request that runs alone: its actions in a row do to the tables
 exactly what its atomic step does, on every path, refusals included.
 */
module Serialization {
  import opened Wrappers
  import opened IdentityModel
  import opened Interleaved

  lemma {:induction false} ExecCons(s: System, a: Action, rest: seq<Action>)
    ensures Exec(s, [a] + rest) == Exec(Act(s, a), rest)
  {
    assert ([a] + rest)[1..] == rest;
  }

  lemma {:induction false} ExecFive(s: System, a: Action, b: Action, c: Action, d: Action, e: Action)
    ensures Exec(s, [a, b, c, d, e]) == Act(Act(Act(Act(Act(s, a), b), c), d), e)
  {
    assert [a, b, c, d, e] == [a] + [b, c, d, e];
    assert [b, c, d, e] == [b] + [c, d, e];
    assert [c, d, e] == [c] + [d, e];
    assert [d, e] == [d] + [e];
    assert [e] == [e] + [];
    var s1 := Act(s, a);
    var s2 := Act(s1, b);
    var s3 := Act(s2, c);
    var s4 := Act(s3, d);
    ExecCons(s, a, [b, c, d, e]);
    ExecCons(s1, b, [c, d, e]);
    ExecCons(s2, c, [d, e]);
    ExecCons(s3, d, [e]);
    ExecCons(s4, e, []);
  }

  lemma {:induction false} ExecAppend(s: System, a: seq<Action>, b: seq<Action>)
    ensures Exec(s, a + b) == Exec(Exec(s, a), b)
    decreases a
  {
    if a == [] {
      assert a + b == b;
    } else {
      assert (a + b)[1..] == a[1..] + b;
      ExecAppend(Act(s, a[0]), a[1..], b);
    }
  }

  lemma {:induction false} PermittedAppend(s: System, first: seq<Action>, run: seq<Action>)
    requires PermittedRun(s, first) && PermittedRun(Exec(s, first), run)
    ensures PermittedRun(s, first + run)
    decreases first
  {
    if first == [] {
      assert first + run == run;
    } else {
      assert (first + run)[1..] == first[1..] + run;
      PermittedAppend(Act(s, first[0]), first[1..], run);
    }
  }

  lemma {:induction false} ExecTwo(s: System, a: Action, b: Action)
    ensures Exec(s, [a, b]) == Act(Act(s, a), b)
  {
    assert [a, b][1..] == [b] && [b][1..] == [];
    assert Exec(Act(s, a), [b]) == Exec(Act(Act(s, a), b), []);
  }

  lemma {:induction false} ExecOne(s: System, a: Action)
    ensures Exec(s, [a]) == Act(s, a)
  {
    ExecCons(s, a, []);
    assert [a] + [] == [a];
  }

  /** The system s as one more request has changed it so far. */
  function With(s: System, db: IdentityDb, reserved: set<string>, pid: nat, held: Option<Phase>): System {
    Move(s.(db := db, reserved := reserved), pid, held)
  }

  lemma {:induction false} BeginAlone(s: System, pid: nat, first: Option<Phase>)
    requires pid !in s.procs
    ensures Begin(s, pid, first) == With(s, s.db, s.reserved, pid, first)
  {
  }

  lemma {:induction false} ActEnded(s: System, db: IdentityDb, reserved: set<string>, pid: nat, a: Action)
    requires pid !in s.procs && !a.Pass? && !Starts(a) && a.pid == pid
    ensures Act(With(s, db, reserved, pid, None), a) == With(s, db, reserved, pid, None)
  {
  }

  lemma {:induction false} ActLocal(s: System, db: IdentityDb, reserved: set<string>, pid: nat, held: Phase, a: Action)
    requires pid !in s.procs && !a.Pass? && !Starts(a) && !Writes(a) && a.pid == pid
    ensures var t := With(s, db, reserved, pid, Some(held));
            Act(t, a) == With(s, db, Reserve(t, a).reserved, pid, AfterLocal(t, a, held))
  {
    var t := With(s, db, reserved, pid, Some(held));
    var next := AfterLocal(t, a, held);
    assert Act(t, a).procs == With(s, db, Reserve(t, a).reserved, pid, next).procs;
  }

  lemma {:induction false} WriteUserAlone(s: System, db: IdentityDb, reserved: set<string>, pid: nat, held: Phase,
                       user: UserRow, next: Option<Phase>)
    requires pid !in s.procs
    ensures WriteUser(With(s, db, reserved, pid, Some(held)), pid, user, next) ==
            With(s, db.(users := StoreUser(db.users, user)), reserved, pid, next)
  {
    assert WriteUser(With(s, db, reserved, pid, Some(held)), pid, user, next).procs ==
           With(s, db, reserved, pid, next).procs;
  }

  lemma {:induction false} WriteSessionAlone(s: System, db: IdentityDb, reserved: set<string>, pid: nat, held: Phase,
                          row: SessionRow, next: Option<Phase>)
    requires pid !in s.procs
    ensures WriteSession(With(s, db, reserved, pid, Some(held)), pid, row, next) ==
            match SaveSession(db.sessions, row)
            case Ok(t) => With(s, db.(sessions := t), reserved, pid, next)
            case Err(_) => With(s, db, reserved, pid, None)
  {
    var t := WriteSession(With(s, db, reserved, pid, Some(held)), pid, row, next);
    assert t.procs == With(s, db, reserved, pid, if SaveSession(db.sessions, row).Ok? then next else None).procs;
  }

  // ---------------------------------------------------------------------------------------
  // The tail shared by login and refresh: a new row and its save

  lemma {:induction false} CreateAlone(s: System, db: IdentityDb, pid: nat, held: Phase, issue: Action, row: SessionRow)
    requires pid !in s.procs && (issue.IssueLogin? || issue.IssueRotation?)
    requires issue.pid == pid
    requires AfterLocal(With(s, db, s.reserved, pid, Some(held)), issue, held) == Some(Creating(row))
    ensures var t := Act(Act(With(s, db, s.reserved, pid, Some(held)), issue), StoreNew(pid));
            && t.procs == s.procs
            && t.db == match SaveSession(db.sessions, row) case Ok(u) => db.(sessions := u) case Err(_) => db
  {
    ActLocal(s, db, s.reserved, pid, held, issue);
    var reserved := Reserve(With(s, db, s.reserved, pid, Some(held)), issue).reserved;
    WriteSessionAlone(s, db, reserved, pid, Creating(row), row, None);
  }

  lemma {:induction false} EndedAlone(s: System, db: IdentityDb, pid: nat, a: Action, b: Action)
    requires pid !in s.procs && !a.Pass? && !Starts(a) && a.pid == pid && !b.Pass? && !Starts(b) && b.pid == pid
    ensures Act(Act(With(s, db, s.reserved, pid, None), a), b) == With(s, db, s.reserved, pid, None)
  {
    ActEnded(s, db, s.reserved, pid, a);
    ActEnded(s, db, s.reserved, pid, b);
  }

  // ---------------------------------------------------------------------------------------
  // The requests

  lemma {:induction false} LoginUntilStored(s: System, pid: nat, email: string, valid: bool)
    requires pid !in s.procs && LoginLookup(s, email).Some?
    ensures var user := LoginLookup(s, email).value.user;
            var stored := if valid then SuccessfulLogin(user) else FailedAttempt(user);
            Act(Act(Act(s, StartLogin(pid, email)), VerifyPassword(pid, valid)), StoreLogin(pid)) ==
            With(s, s.db.(users := StoreUser(s.db.users, stored)), s.reserved, pid,
                 if valid then Some(Granted(user.id)) else None)
  {
    var held := LoginLookup(s, email).value;
    var stored := if valid then SuccessfulLogin(held.user) else FailedAttempt(held.user);
    BeginAlone(s, pid, Some(held));
    ActLocal(s, s.db, s.reserved, pid, held, VerifyPassword(pid, valid));
    WriteUserAlone(s, s.db, s.reserved, pid, LoginStoring(stored, valid), stored,
                   if valid then Some(Granted(stored.id)) else None);
  }

  lemma {:induction false} LoneLogin(
      s: System, pid: nat, email: string, valid: bool, id: string, digest: string, exp: Option<int>)
    requires pid !in s.procs
    ensures var t := Exec(s, [StartLogin(pid, email), VerifyPassword(pid, valid), StoreLogin(pid),
                              IssueLogin(pid, id, digest, exp), StoreNew(pid)]);
            var o := LoginStep(s.db.users, s.db.sessions, s.now, Some(email), valid, id, digest, exp);
            t.db == s.db.(users := o.users, sessions := o.sessions) && t.procs == s.procs
  {
    var issue := IssueLogin(pid, id, digest, exp);
    ExecFive(s, StartLogin(pid, email), VerifyPassword(pid, valid), StoreLogin(pid), issue, StoreNew(pid));
    if LoginLookup(s, email).None? {
      BeginAlone(s, pid, None);
      EndedAlone(s, s.db, pid, VerifyPassword(pid, valid), StoreLogin(pid));
      EndedAlone(s, s.db, pid, issue, StoreNew(pid));
    } else {
      var user := LoginLookup(s, email).value.user;
      var stored := if valid then SuccessfulLogin(user) else FailedAttempt(user);
      var db := s.db.(users := StoreUser(s.db.users, stored));
      LoginUntilStored(s, pid, email, valid);
      if valid {
        CreateAlone(s, db, pid, Granted(user.id), issue,
                    SessionRow(id, user.id, digest, SessionExpiry(exp, s.now), s.now, false));
      } else {
        EndedAlone(s, db, pid, issue, StoreNew(pid));
      }
    }
  }

  lemma {:induction false} RefreshUntilRevoked(s: System, pid: nat, verified: Claims, digest: string)
    requires pid !in s.procs && RefreshLookup(s, verified, digest).Some?
    requires verified.sub in s.db.users.rows && !s.db.users.rows[verified.sub].isLocked
    ensures var session := RefreshLookup(s, verified, digest).value.session.(isRevoked := true);
            Act(Act(Act(s, StartRefresh(pid, verified, digest)), LoadRefreshUser(pid)), StoreRevoked(pid)) ==
            match SaveSession(s.db.sessions, session)
            case Ok(t) => With(s, s.db.(sessions := t), s.reserved, pid, Some(Rotating(session, s.now)))
            case Err(_) => With(s, s.db, s.reserved, pid, None)
  {
    var held := RefreshLookup(s, verified, digest).value;
    var session := held.session.(isRevoked := true);
    BeginAlone(s, pid, Some(held));
    ActLocal(s, s.db, s.reserved, pid, held, LoadRefreshUser(pid));
    WriteSessionAlone(s, s.db, s.reserved, pid, RefreshRevoking(session, s.now), session,
                      Some(Rotating(session, s.now)));
  }

  lemma {:induction false} RefreshRefused(s: System, pid: nat, verified: Claims, digest: string)
    requires pid !in s.procs
    requires RefreshLookup(s, verified, digest).None? ||
             !(verified.sub in s.db.users.rows && !s.db.users.rows[verified.sub].isLocked)
    ensures Act(Act(Act(s, StartRefresh(pid, verified, digest)), LoadRefreshUser(pid)), StoreRevoked(pid)) ==
            With(s, s.db, s.reserved, pid, None)
  {
    var first := RefreshLookup(s, verified, digest);
    BeginAlone(s, pid, first);
    if first.None? {
      EndedAlone(s, s.db, pid, LoadRefreshUser(pid), StoreRevoked(pid));
    } else {
      ActLocal(s, s.db, s.reserved, pid, first.value, LoadRefreshUser(pid));
      ActEnded(s, s.db, s.reserved, pid, StoreRevoked(pid));
    }
  }

  lemma {:induction false} LoneRefresh(
      s: System, pid: nat, verified: Claims, digest: string, id: string, newDigest: string, exp: Option<int>)
    requires pid !in s.procs
    ensures var t := Exec(s, [StartRefresh(pid, verified, digest), LoadRefreshUser(pid), StoreRevoked(pid),
                              IssueRotation(pid, id, newDigest, exp), StoreNew(pid)]);
            var o := RefreshStep(s.db.users, s.db.sessions, s.now, Some(verified), digest, id, newDigest, exp);
            t.db == s.db.(sessions := o.sessions) && t.procs == s.procs
  {
    var issue := IssueRotation(pid, id, newDigest, exp);
    ExecFive(s, StartRefresh(pid, verified, digest), LoadRefreshUser(pid), StoreRevoked(pid), issue, StoreNew(pid));
    if RefreshLookup(s, verified, digest).Some? && verified.sub in s.db.users.rows
        && !s.db.users.rows[verified.sub].isLocked {
      var session := RefreshLookup(s, verified, digest).value.session.(isRevoked := true);
      RefreshUntilRevoked(s, pid, verified, digest);
      match SaveSession(s.db.sessions, session)
      case Ok(t) =>
        CreateAlone(s, s.db.(sessions := t), pid, Rotating(session, s.now), issue,
                    SessionRow(id, session.userId, newDigest, SessionExpiry(exp, s.now), s.now, false));
      case Err(_) =>
        EndedAlone(s, s.db, pid, issue, StoreNew(pid));
    } else {
      RefreshRefused(s, pid, verified, digest);
      EndedAlone(s, s.db, pid, issue, StoreNew(pid));
    }
  }

  /** A logout whose tokens name no session ends before its first database operation. */
  function LogoutActions(pid: nat, target: Option<string>, digest: string): seq<Action> {
    if target.None? then [] else [StartLogout(pid, target.value, digest), StoreRevoked(pid)]
  }

  lemma {:induction false} LoneLogout(
      s: System, pid: nat, accessSession: Option<string>, refreshSession: Option<string>, digest: string)
    requires pid !in s.procs
    ensures var named := if accessSession.Some? && accessSession.value != "" then accessSession else refreshSession;
            var target := if named == Some("") then None else named;
            var t := Exec(s, LogoutActions(pid, target, digest));
            var o := LogoutStep(s.db.sessions, accessSession, refreshSession, digest);
            t.db == s.db.(sessions := o.sessions) && t.procs == s.procs
  {
    var target := LogoutTarget(accessSession, refreshSession);
    if target.Some? {
      LoneLogoutOf(s, pid, target.value, digest);
    }
  }

  lemma {:induction false} LoneLogoutOf(s: System, pid: nat, id: string, digest: string)
    requires pid !in s.procs && id != ""
    ensures var t := Exec(s, [StartLogout(pid, id, digest), StoreRevoked(pid)]);
            var o := LogoutStep(s.db.sessions, Some(id), None, digest);
            t.db == s.db.(sessions := o.sessions) && t.procs == s.procs
  {
    var first := LogoutLookup(s, id, digest);
    assert [StartLogout(pid, id, digest), StoreRevoked(pid)] == [StartLogout(pid, id, digest)] + [StoreRevoked(pid)];
    ExecCons(s, StartLogout(pid, id, digest), [StoreRevoked(pid)]);
    assert [StoreRevoked(pid)] == [StoreRevoked(pid)] + [];
    ExecCons(Act(s, StartLogout(pid, id, digest)), StoreRevoked(pid), []);
    BeginAlone(s, pid, first);
    if first.None? {
      ActEnded(s, s.db, s.reserved, pid, StoreRevoked(pid));
    } else {
      WriteSessionAlone(s, s.db, s.reserved, pid, first.value, first.value.session, None);
    }
  }

  // ---------------------------------------------------------------------------------------
  // Password reset, with its loop

  function Ids(listed: seq<SessionRow>): set<string> {
    set i | 0 <= i < |listed| :: listed[i].id
  }

  function Repeat(a: Action, n: nat): seq<Action> {
    if n == 0 then [] else [a] + Repeat(a, n - 1)
  }

  /** Rows of the table with their revocation flag set, each id once. */
  ghost predicate RevokedRows(t: SessionTable, sessions: seq<SessionRow>) {
    && (forall i :: 0 <= i < |sessions| ==> SessionCopy(t, sessions[i]) && sessions[i].isRevoked)
    && (forall i, j :: 0 <= i < j < |sessions| ==> sessions[i].id != sessions[j].id)
  }

  lemma {:induction false} SaveIsRevoke(t: SessionTable, row: SessionRow)
    requires ValidSessions(t) && SessionCopy(t, row) && row.isRevoked
    ensures SaveSession(t, row) == Ok(RevokeIds(t, {row.id}))
  {
    assert SaveSession(t, row).value.rows == RevokeIds(t, {row.id}).rows;
  }

  lemma {:induction false} RevokeInTurn(t: SessionTable, id: string, rest: set<string>)
    ensures RevokeIds(RevokeIds(t, {id}), rest) == RevokeIds(t, {id} + rest)
  {
    assert RevokeIds(RevokeIds(t, {id}), rest).rows == RevokeIds(t, {id} + rest).rows;
  }

  function LoopPhase(sessions: seq<SessionRow>): Option<Phase> {
    if sessions == [] then None else Some(ResetRevoking(sessions))
  }

  lemma {:induction false} RevokeOneAlone(s: System, db: IdentityDb, pid: nat, sessions: seq<SessionRow>)
    requires pid !in s.procs && ValidSessions(db.sessions) && RevokedRows(db.sessions, sessions) && sessions != []
    ensures Act(With(s, db, s.reserved, pid, LoopPhase(sessions)), StoreRevoked(pid)) ==
            With(s, db.(sessions := RevokeIds(db.sessions, {sessions[0].id})), s.reserved, pid,
                 LoopPhase(sessions[1..]))
  {
    SaveIsRevoke(db.sessions, sessions[0]);
    WriteSessionAlone(s, db, s.reserved, pid, ResetRevoking(sessions), sessions[0], LoopPhase(sessions[1..]));
  }

  lemma {:induction false} RestStaysRevokedRows(t: SessionTable, sessions: seq<SessionRow>)
    requires ValidSessions(t) && RevokedRows(t, sessions) && sessions != []
    ensures ValidSessions(RevokeIds(t, {sessions[0].id}))
    ensures RevokedRows(RevokeIds(t, {sessions[0].id}), sessions[1..])
    ensures Ids(sessions) == {sessions[0].id} + Ids(sessions[1..])
  {
    assert forall i :: 0 < i < |sessions| ==> sessions[i] == sessions[1..][i - 1];
  }

  /** Running the loop to its end revokes the listed sessions and no others. */
  lemma {:induction false} LoneRevocations(s: System, db: IdentityDb, pid: nat, sessions: seq<SessionRow>)
    requires pid !in s.procs && ValidSessions(db.sessions) && RevokedRows(db.sessions, sessions)
    ensures Exec(With(s, db, s.reserved, pid, LoopPhase(sessions)), Repeat(StoreRevoked(pid), |sessions|)) ==
            With(s, db.(sessions := RevokeIds(db.sessions, Ids(sessions))), s.reserved, pid, None)
    decreases sessions
  {
    if sessions == [] {
      assert RevokeIds(db.sessions, Ids(sessions)).rows == db.sessions.rows;
    } else {
      var rest := sessions[1..];
      RevokeOneAlone(s, db, pid, sessions);
      ExecCons(With(s, db, s.reserved, pid, LoopPhase(sessions)), StoreRevoked(pid), Repeat(StoreRevoked(pid), |rest|));
      RestStaysRevokedRows(db.sessions, sessions);
      LoneRevocations(s, db.(sessions := RevokeIds(db.sessions, {sessions[0].id})), pid, rest);
      RevokeInTurn(db.sessions, sessions[0].id, Ids(rest));
    }
  }

  lemma {:induction false} ListedAreActive(t: SessionTable, userId: string, now: int, listed: seq<SessionRow>)
    requires ValidSessions(t) && Lists(t, userId, now, listed)
    ensures RevokedRows(t, RevokedCopies(listed)) && Ids(RevokedCopies(listed)) == ActiveIds(t, userId, now)
  {
    var copies := RevokedCopies(listed);
    forall id | id in ActiveIds(t, userId, now)
      ensures id in Ids(copies)
    {
      var i :| 0 <= i < |listed| && listed[i] == t.rows[id];
      assert copies[i].id == id;
    }
  }

  lemma {:induction false} ResetUntilLoaded(s: System, pid: nat, token: string)
    requires pid !in s.procs && TokenLookup(s, PasswordReset, token).Some?
    requires s.db.resets[token].userId in s.db.users.rows
    ensures var reset := s.db.resets[token];
            Act(Act(s, StartToken(pid, PasswordReset, token)), LoadTokenUser(pid)) ==
            With(s, s.db, s.reserved, pid, Some(ResetHashing(reset, s.db.users.rows[reset.userId])))
  {
    var reset := s.db.resets[token];
    BeginAlone(s, pid, Some(TokenLoaded(PasswordReset, reset)));
    ActLocal(s, s.db, s.reserved, pid, TokenLoaded(PasswordReset, reset), LoadTokenUser(pid));
  }

  lemma {:induction false} HashAlone(s: System, pid: nat, reset: TokenRow, user: UserRow, newHash: string)
    requires pid !in s.procs && user.passwordHash != newHash
    ensures Act(With(s, s.db, s.reserved, pid, Some(ResetHashing(reset, user))), HashPassword(pid, newHash)) ==
            With(s, s.db, s.reserved, pid, Some(TokenStoring(PasswordReset, reset, user.(passwordHash := newHash))))
  {
    ActLocal(s, s.db, s.reserved, pid, ResetHashing(reset, user), HashPassword(pid, newHash));
  }

  lemma {:induction false} StoreAlone(s: System, pid: nat, reset: TokenRow, user: UserRow)
    requires pid !in s.procs
    ensures Act(With(s, s.db, s.reserved, pid, Some(TokenStoring(PasswordReset, reset, user))), StoreTokenUser(pid)) ==
            With(s, s.db.(users := StoreUser(s.db.users, user)), s.reserved, pid,
                 Some(TokenMarking(PasswordReset, reset)))
  {
    WriteUserAlone(s, s.db, s.reserved, pid, TokenStoring(PasswordReset, reset, user), user,
                   Some(TokenMarking(PasswordReset, reset)));
  }

  lemma {:induction false} MarkAlone(s: System, db: IdentityDb, pid: nat, reset: TokenRow)
    requires pid !in s.procs
    ensures Act(With(s, db, s.reserved, pid, Some(TokenMarking(PasswordReset, reset))), MarkToken(pid)) ==
            With(s, db, s.reserved, pid,
                 if s.now > reset.expiresAt then None else Some(TokenDeleting(PasswordReset, reset)))
  {
    ActLocal(s, db, s.reserved, pid, TokenMarking(PasswordReset, reset), MarkToken(pid));
  }

  lemma {:induction false} ForgetAlone(s: System, db: IdentityDb, pid: nat, reset: TokenRow)
    requires pid !in s.procs
    ensures Act(With(s, db, s.reserved, pid, Some(TokenDeleting(PasswordReset, reset))), DeleteToken(pid)) ==
            With(s, db.(resets := db.resets - {reset.token}), s.reserved, pid, Some(ResetListing(reset.userId)))
  {
    var t := With(s, db, s.reserved, pid, Some(TokenDeleting(PasswordReset, reset)));
    assert ForgetToken(t, pid, PasswordReset, reset).procs ==
           With(s, db, s.reserved, pid, Some(ResetListing(reset.userId))).procs;
  }

  /** The actions of a reset up to the point where its sessions are listed. */
  function ResetOpening(pid: nat, token: string, newHash: string): seq<Action> {
    [StartToken(pid, PasswordReset, token), LoadTokenUser(pid), HashPassword(pid, newHash), StoreTokenUser(pid),
     MarkToken(pid)]
    + [DeleteToken(pid)]
  }

  lemma {:induction false} ExecOpening(s: System, pid: nat, token: string, newHash: string)
    ensures Exec(s, ResetOpening(pid, token, newHash)) ==
            Act(Act(Act(Act(Act(Act(s, StartToken(pid, PasswordReset, token)), LoadTokenUser(pid)),
                            HashPassword(pid, newHash)),
                        StoreTokenUser(pid)), MarkToken(pid)), DeleteToken(pid))
  {
    var first := [StartToken(pid, PasswordReset, token), LoadTokenUser(pid), HashPassword(pid, newHash),
                  StoreTokenUser(pid), MarkToken(pid)];
    ExecAppend(s, first, [DeleteToken(pid)]);
    ExecFive(s, first[0], first[1], first[2], first[3], first[4]);
    ExecOne(Exec(s, first), DeleteToken(pid));
  }

  lemma {:induction false} ResetUntilListed(s: System, pid: nat, token: string, newHash: string)
    requires pid !in s.procs && TokenLookup(s, PasswordReset, token).Some? && s.db.resets[token].token == token
    requires s.db.resets[token].userId in s.db.users.rows
    requires s.db.users.rows[s.db.resets[token].userId].passwordHash != newHash
    ensures var reset := s.db.resets[token];
            var changed := s.db.users.rows[reset.userId].(passwordHash := newHash);
            Exec(s, ResetOpening(pid, token, newHash)) ==
            With(s, s.db.(users := StoreUser(s.db.users, changed), resets := s.db.resets - {token}),
                 s.reserved, pid, Some(ResetListing(reset.userId)))
  {
    var reset := s.db.resets[token];
    var changed := s.db.users.rows[reset.userId].(passwordHash := newHash);
    var stored := s.db.(users := StoreUser(s.db.users, changed));
    ExecOpening(s, pid, token, newHash);
    ResetUntilLoaded(s, pid, token);
    HashAlone(s, pid, reset, s.db.users.rows[reset.userId], newHash);
    StoreAlone(s, pid, reset, changed);
    MarkAlone(s, stored, pid, reset);
    ForgetAlone(s, stored, pid, reset);
  }

  /** The listing of the sessions and the turns of the loop. */
  function ResetRest(pid: nat, listed: seq<SessionRow>): seq<Action> {
    [ListSessions(pid, listed)] + Repeat(StoreRevoked(pid), |listed|)
  }

  lemma {:induction false} ListAlone(s: System, db: IdentityDb, pid: nat, userId: string, listed: seq<SessionRow>)
    requires pid !in s.procs
    ensures Act(With(s, db, s.reserved, pid, Some(ResetListing(userId))), ListSessions(pid, listed)) ==
            With(s, db, s.reserved, pid, LoopPhase(RevokedCopies(listed)))
  {
    ActLocal(s, db, s.reserved, pid, ResetListing(userId), ListSessions(pid, listed));
  }

  lemma {:induction false} ListAndRevokeAlone(
      s: System, db: IdentityDb, pid: nat, userId: string, listed: seq<SessionRow>)
    requires pid !in s.procs && ValidSessions(db.sessions) && Lists(db.sessions, userId, s.now, listed)
    ensures Exec(With(s, db, s.reserved, pid, Some(ResetListing(userId))), ResetRest(pid, listed)) ==
            With(s, db.(sessions := RevokeActive(db.sessions, userId, s.now)), s.reserved, pid, None)
  {
    ExecCons(With(s, db, s.reserved, pid, Some(ResetListing(userId))), ListSessions(pid, listed),
             Repeat(StoreRevoked(pid), |listed|));
    ListAlone(s, db, pid, userId, listed);
    ListedAreActive(db.sessions, userId, s.now, listed);
    LoneRevocations(s, db, pid, RevokedCopies(listed));
  }

  /** A reset that passes its checks, run alone with any listing of the active sessions. */
  lemma {:induction false} LoneReset(s: System, pid: nat, token: string, newHash: string, listed: seq<SessionRow>)
    requires pid !in s.procs && ValidUsers(s.db.users) && ValidSessions(s.db.sessions)
    requires token in s.db.resets && s.db.resets[token].token == token
    requires ResetStep(s.db, s.now, token, newHash).result.Ok?
    requires Lists(s.db.sessions, s.db.resets[token].userId, s.now, listed)
    ensures var t := Exec(s, ResetOpening(pid, token, newHash) + ResetRest(pid, listed));
            t.db == ResetStep(s.db, s.now, token, newHash).db && t.procs == s.procs
  {
    var user := s.db.users.rows[s.db.resets[token].userId];
    var db := s.db.(users := StoreUser(s.db.users, user.(passwordHash := newHash)), resets := s.db.resets - {token});
    ExecAppend(s, ResetOpening(pid, token, newHash), ResetRest(pid, listed));
    ResetUntilListed(s, pid, token, newHash);
    ListAndRevokeAlone(s, db, pid, user.id, listed);
  }

  /** A reset that fails a check leaves everything as it was. */
  lemma {:induction false} LoneResetRefused(s: System, pid: nat, token: string, newHash: string)
    requires pid !in s.procs && ResetStep(s.db, s.now, token, newHash).result.Err?
    ensures Exec(s, ResetOpening(pid, token, newHash)) == With(s, s.db, s.reserved, pid, None)
  {
    ExecOpening(s, pid, token, newHash);
    var first := TokenLookup(s, PasswordReset, token);
    BeginAlone(s, pid, first);
    if first.None? {
      EndedAlone(s, s.db, pid, LoadTokenUser(pid), HashPassword(pid, newHash));
    } else {
      ResetLoadedRefused(s, pid, s.db.resets[token], newHash);
    }
    EndedAlone(s, s.db, pid, StoreTokenUser(pid), MarkToken(pid));
    ActEnded(s, s.db, s.reserved, pid, DeleteToken(pid));
  }

  lemma {:induction false} ResetLoadedRefused(s: System, pid: nat, reset: TokenRow, newHash: string)
    requires pid !in s.procs
    requires reset.userId !in s.db.users.rows || s.db.users.rows[reset.userId].passwordHash == newHash
    ensures Act(Act(With(s, s.db, s.reserved, pid, Some(TokenLoaded(PasswordReset, reset))), LoadTokenUser(pid)),
                HashPassword(pid, newHash)) ==
            With(s, s.db, s.reserved, pid, None)
  {
    ActLocal(s, s.db, s.reserved, pid, TokenLoaded(PasswordReset, reset), LoadTokenUser(pid));
    if reset.userId !in s.db.users.rows {
      ActEnded(s, s.db, s.reserved, pid, HashPassword(pid, newHash));
    } else {
      ActLocal(s, s.db, s.reserved, pid, ResetHashing(reset, s.db.users.rows[reset.userId]),
               HashPassword(pid, newHash));
    }
  }

  // ---------------------------------------------------------------------------------------
  // Email verification

  function VerifyActions(pid: nat, token: string): seq<Action> {
    [StartToken(pid, EmailVerification, token), LoadTokenUser(pid), StoreTokenUser(pid), MarkToken(pid),
     DeleteToken(pid)]
  }

  lemma {:induction false} VerifyUntilStored(s: System, pid: nat, token: string)
    requires pid !in s.procs && TokenLookup(s, EmailVerification, token).Some?
    requires s.db.verifications[token].userId in s.db.users.rows
    ensures var row := s.db.verifications[token];
            var user := VerifiedEmail(s.db.users.rows[row.userId]);
            Act(Act(Act(s, StartToken(pid, EmailVerification, token)), LoadTokenUser(pid)), StoreTokenUser(pid)) ==
            With(s, s.db.(users := StoreUser(s.db.users, user)), s.reserved, pid,
                 Some(TokenMarking(EmailVerification, row)))
  {
    var row := s.db.verifications[token];
    var user := VerifiedEmail(s.db.users.rows[row.userId]);
    BeginAlone(s, pid, Some(TokenLoaded(EmailVerification, row)));
    ActLocal(s, s.db, s.reserved, pid, TokenLoaded(EmailVerification, row), LoadTokenUser(pid));
    WriteUserAlone(s, s.db, s.reserved, pid, TokenStoring(EmailVerification, row, user), user,
                   Some(TokenMarking(EmailVerification, row)));
  }

  lemma {:induction false} VerifyFromMarking(s: System, db: IdentityDb, pid: nat, row: TokenRow)
    requires pid !in s.procs && s.now <= row.expiresAt
    ensures Act(Act(With(s, db, s.reserved, pid, Some(TokenMarking(EmailVerification, row))), MarkToken(pid)),
                DeleteToken(pid)) ==
            With(s, db.(verifications := db.verifications - {row.token}), s.reserved, pid, None)
  {
    ActLocal(s, db, s.reserved, pid, TokenMarking(EmailVerification, row), MarkToken(pid));
    var t := With(s, db, s.reserved, pid, Some(TokenDeleting(EmailVerification, row)));
    assert ForgetToken(t, pid, EmailVerification, row).procs == With(s, db, s.reserved, pid, None).procs;
  }

  lemma {:induction false} LoneVerify(s: System, pid: nat, token: string)
    requires pid !in s.procs && (token in s.db.verifications ==> s.db.verifications[token].token == token)
    ensures var t := Exec(s, VerifyActions(pid, token));
            t.db == VerifyStep(s.db, s.now, token).db && t.procs == s.procs
  {
    ExecFive(s, StartToken(pid, EmailVerification, token), LoadTokenUser(pid), StoreTokenUser(pid), MarkToken(pid),
             DeleteToken(pid));
    var first := TokenLookup(s, EmailVerification, token);
    if first.Some? && s.db.verifications[token].userId in s.db.users.rows {
      var row := s.db.verifications[token];
      VerifyUntilStored(s, pid, token);
      VerifyFromMarking(s, s.db.(users := StoreUser(s.db.users, VerifiedEmail(s.db.users.rows[row.userId]))), pid, row);
    } else {
      BeginAlone(s, pid, first);
      if first.Some? {
        ActLocal(s, s.db, s.reserved, pid, first.value, LoadTokenUser(pid));
        ActEnded(s, s.db, s.reserved, pid, StoreTokenUser(pid));
      } else {
        EndedAlone(s, s.db, pid, LoadTokenUser(pid), StoreTokenUser(pid));
      }
      EndedAlone(s, s.db, pid, MarkToken(pid), DeleteToken(pid));
    }
  }
}
