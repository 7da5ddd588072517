/**
 Sequential runs: requests served one at a time under a clock that never goes back.
 UUIDs are never reused, and a token verifies only if one of the services issued it and its `exp`
 has not come.
 Nothing is assumed about the hash: two tokens may even share a digest.
 */
module Lifecycle {
  import opened Wrappers
  import opened IdentityModel

  datatype Request =
    | Login(email: Option<string>, passwordValid: bool, sessionId: string, digest: string, exp: Option<int>)
    | Refresh(verified: Option<Claims>, digest: string, newSessionId: string, newDigest: string, exp: Option<int>)
    | Logout(accessSession: Option<string>, refreshSession: Option<string>, digest: string)
    | Reset(token: string, newHash: string)
    | VerifyEmail(token: string)

  datatype Event = Serve(request: Request) | Tick(elapsed: nat)

  /** A successful refresh replaces session `from` by session `to`. */
  datatype Rotation = Rotation(from: string, to: string)

  /** The clock and the tables, with the history the properties speak of. */
  datatype World = World(
    now: int, db: IdentityDb, usedIds: set<string>, issued: set<Claims>, rotations: seq<Rotation>)

  function Respond(w: World, request: Request): Result<string, AuthError> {
    match request
    case Login(email, passwordValid, sessionId, digest, exp) =>
      LoginStep(w.db.users, w.db.sessions, w.now, email, passwordValid, sessionId, digest, exp).result
    case Refresh(verified, digest, newSessionId, newDigest, exp) =>
      RefreshStep(w.db.users, w.db.sessions, w.now, verified, digest, newSessionId, newDigest, exp).result
    case Logout(accessSession, refreshSession, digest) =>
      LogoutStep(w.db.sessions, accessSession, refreshSession, digest).result
    case Reset(token, newHash) =>
      ResetStep(w.db, w.now, token, newHash).result
    case VerifyEmail(token) =>
      VerifyStep(w.db, w.now, token).result
  }

  function DbAfter(w: World, request: Request): IdentityDb {
    match request
    case Login(email, passwordValid, sessionId, digest, exp) =>
      var o := LoginStep(w.db.users, w.db.sessions, w.now, email, passwordValid, sessionId, digest, exp);
      w.db.(users := o.users, sessions := o.sessions)
    case Refresh(verified, digest, newSessionId, newDigest, exp) =>
      w.db.(sessions :=
        RefreshStep(w.db.users, w.db.sessions, w.now, verified, digest, newSessionId, newDigest, exp).sessions)
    case Logout(accessSession, refreshSession, digest) =>
      w.db.(sessions := LogoutStep(w.db.sessions, accessSession, refreshSession, digest).sessions)
    case Reset(token, newHash) =>
      ResetStep(w.db, w.now, token, newHash).db
    case VerifyEmail(token) =>
      VerifyStep(w.db, w.now, token).db
  }

  /** The UUID a request consumes. */
  function FreshId(request: Request): Option<string> {
    match request
    case Login(_, _, sessionId, _, _) => Some(sessionId)
    case Refresh(_, _, newSessionId, _, _) => Some(newSessionId)
    case _ => None
  }

  /** What the tokens handed out by a successful request say. */
  function NewClaims(w: World, request: Request): set<Claims> {
    if Respond(w, request).Err? then {}
    else match request
      case Login(email, _, sessionId, _, exp) =>
        {Claims(w.db.users.emailIndex[email.value], sessionId, exp)}
      case Refresh(verified, _, newSessionId, _, exp) => {Claims(verified.value.sub, newSessionId, exp)}
      case _ => {}
  }

  function NewRotations(w: World, request: Request): seq<Rotation> {
    match request
    case Refresh(verified, digest, newSessionId, _, _) =>
      if Respond(w, request).Ok? then
        [Rotation(FindByRefreshToken(w.db.sessions, digest).value.id, newSessionId)]
      else []
    case _ => []
  }

  function Advance(w: World, e: Event): World {
    match e
    case Tick(elapsed) => w.(now := w.now + elapsed)
    case Serve(request) =>
      World(w.now, DbAfter(w, request),
            w.usedIds + (if FreshId(request).Some? then {FreshId(request).value} else {}),
            w.issued + NewClaims(w, request),
            w.rotations + NewRotations(w, request))
  }

  /** UUID freshness and what a successful verification of a token establishes. */
  predicate Enabled(w: World, e: Event) {
    e.Serve? ==>
      && (FreshId(e.request).Some? ==> FreshId(e.request).value !in w.usedIds)
      && (e.request.Refresh? && e.request.verified.Some? ==>
            e.request.verified.value in w.issued && Current(e.request.verified.value, w.now))
  }

  /** One step of a run. */
  ghost predicate Moves(ws: seq<World>, events: seq<Event>, i: nat)
    requires |ws| == |events| + 1 && i < |events|
  {
    Enabled(ws[i], events[i]) && ws[i + 1] == Advance(ws[i], events[i])
  }

  /** A legal run: the worlds before, between and after the events. */
  ghost predicate IsRun(ws: seq<World>, events: seq<Event>) {
    && |ws| == |events| + 1
    && forall i :: 0 <= i < |events| ==> Moves(ws, events, i)
  }

  predicate Accepts(w: World, e: Event) {
    e.Serve? && Respond(w, e.request).Ok?
  }

  // ---------------------------------------------------------------------------------------
  // The invariant

  /** Such claims name the owner of their session, and their `exp` is its expiry unless missing or zero. */
  predicate ClaimsOf(c: Claims, row: SessionRow) {
    row.userId == c.sub && (c.exp.Some? && c.exp.value != 0 ==> row.expiresAt == c.exp.value * 1000)
  }

  ghost predicate ClaimsAuthentic(w: World) {
    forall c :: c in w.issued ==>
      c.sessionId in w.usedIds
      && (c.sessionId in w.db.sessions.rows ==> ClaimsOf(c, w.db.sessions.rows[c.sessionId]))
  }

  /** Rotations are between stored sessions of one user, and a rotated session is revoked. */
  ghost predicate RotationsStored(rotations: seq<Rotation>, rows: map<string, SessionRow>) {
    forall r :: r in rotations ==>
      && r.from in rows && r.to in rows
      && rows[r.from].isRevoked && rows[r.from].userId == rows[r.to].userId
  }

  /** A session is rotated at most once, into a session that no earlier rotation mentions. */
  ghost predicate RotationsLinear(rotations: seq<Rotation>) {
    && (forall i, j :: 0 <= i < j < |rotations| ==>
          rotations[i].from != rotations[j].from && rotations[i].to != rotations[j].to)
    && (forall i, j :: 0 <= i <= j < |rotations| ==> rotations[j].to != rotations[i].from)
  }

  ghost predicate Inv(w: World) {
    && ValidSessions(w.db.sessions)
    && ValidUsers(w.db.users)
    && w.db.sessions.rows.Keys <= w.usedIds
    && ClaimsAuthentic(w)
    && RotationsStored(w.rotations, w.db.sessions.rows)
    && RotationsLinear(w.rotations)
  }

  /** Rows stay, keep everything but the revocation flag, and are never un-revoked. */
  ghost predicate SessionsPersist(before: SessionTable, after: SessionTable) {
    forall id :: id in before.rows ==>
      && id in after.rows
      && after.rows[id].(isRevoked := before.rows[id].isRevoked) == before.rows[id]
      && (before.rows[id].isRevoked ==> after.rows[id].isRevoked)
  }

  /** Users keep their id and email. */
  ghost predicate UsersPersist(before: UserTable, after: UserTable) {
    && after.emailIndex == before.emailIndex
    && after.rows.Keys == before.rows.Keys
    && forall id :: id in before.rows ==> after.rows[id].email == before.rows[id].email
  }

  lemma {:induction false} PersistTransitive(a: SessionTable, b: SessionTable, c: SessionTable)
    requires SessionsPersist(a, b) && SessionsPersist(b, c)
    ensures SessionsPersist(a, c)
  {
  }

  lemma {:induction false} SaveKeepsValid(t: SessionTable, row: SessionRow)
    requires ValidSessions(t) && SaveSession(t, row).Ok?
    requires row.id in t.rows && t.rows[row.id].isRevoked ==> row.isRevoked
    ensures ValidSessions(SaveSession(t, row).value)
    ensures SessionsPersist(t, SaveSession(t, row).value)
  {
  }

  lemma {:induction false} StoreKeepsValid(t: UserTable, row: UserRow)
    requires ValidUsers(t) && row.id in t.rows && row.email == t.rows[row.id].email
    ensures ValidUsers(StoreUser(t, row)) && UsersPersist(t, StoreUser(t, row))
  {
    assert StoreUser(t, row).rows.Keys == t.rows.Keys;
  }

  /** What a request may do to the tables: only a fresh session may be new. */
  ghost predicate TablesKept(before: IdentityDb, after: IdentityDb, newId: Option<string>) {
    && ValidSessions(after.sessions) && ValidUsers(after.users)
    && SessionsPersist(before.sessions, after.sessions) && UsersPersist(before.users, after.users)
    && forall id :: id in after.sessions.rows ==> id in before.sessions.rows || newId == Some(id)
  }

  ghost predicate TablesValid(w: World) {
    ValidSessions(w.db.sessions) && ValidUsers(w.db.users) && w.db.sessions.rows.Keys <= w.usedIds
  }

  lemma {:induction false} LoginKeepsTables(w: World, r: Request)
    requires TablesValid(w) && r.Login? && Enabled(w, Serve(r))
    ensures TablesKept(w.db, DbAfter(w, r), FreshId(r))
  {
    if r.email.Some? && FindByEmail(w.db.users, r.email.value).Some? {
      var user := FindByEmail(w.db.users, r.email.value).value;
      StoreKeepsValid(w.db.users, FailedAttempt(user));
      StoreKeepsValid(w.db.users, SuccessfulLogin(user));
      var row := SessionRow(r.sessionId, user.id, r.digest, SessionExpiry(r.exp, w.now), w.now, false);
      if SaveSession(w.db.sessions, row).Ok? {
        SaveKeepsValid(w.db.sessions, row);
      }
    }
  }

  /** The two saves of a rotation. */
  lemma {:induction false} RotationSaves(t: SessionTable, id: string, successor: SessionRow)
    requires ValidSessions(t) && id in t.rows && successor.id !in t.rows
    ensures SaveSession(t, t.rows[id].(isRevoked := true)).Ok?
    ensures var revoked := SaveSession(t, t.rows[id].(isRevoked := true)).value;
            && ValidSessions(revoked) && SessionsPersist(t, revoked) && revoked.rows.Keys == t.rows.Keys
            && (SaveSession(revoked, successor).Ok? ==>
                  var rotated := SaveSession(revoked, successor).value;
                  && ValidSessions(rotated) && SessionsPersist(t, rotated)
                  && rotated.rows.Keys == t.rows.Keys + {successor.id})
  {
    SaveKeepsValid(t, t.rows[id].(isRevoked := true));
    var revoked := SaveSession(t, t.rows[id].(isRevoked := true)).value;
    assert revoked.rows.Keys == t.rows.Keys;
    if SaveSession(revoked, successor).Ok? {
      SaveKeepsValid(revoked, successor);
      PersistTransitive(t, revoked, SaveSession(revoked, successor).value);
    }
  }

  /** A table that keeps the sessions of another and adds at most one row. */
  ghost predicate SessionsKept(before: SessionTable, after: SessionTable, newId: string) {
    ValidSessions(after) && SessionsPersist(before, after) && after.rows.Keys <= before.rows.Keys + {newId}
  }

  lemma {:induction false} RefreshKeepsSessions(
      users: UserTable, sessions: SessionTable, now: int, verified: Option<Claims>,
                             digest: string, newSessionId: string, newDigest: string, exp: Option<int>)
    requires ValidSessions(sessions) && newSessionId !in sessions.rows
    ensures SessionsKept(sessions,
                         RefreshStep(users, sessions, now, verified, digest, newSessionId, newDigest, exp).sessions,
                         newSessionId)
  {
    var found := FindByRefreshToken(sessions, digest);
    var after := RefreshStep(users, sessions, now, verified, digest, newSessionId, newDigest, exp).sessions;
    if found.Some? && after != sessions {
      var row := SessionRow(newSessionId, found.value.userId, newDigest, SessionExpiry(exp, now), now, false);
      RotationSaves(sessions, found.value.id, row);
      var revoked := SaveSession(sessions, found.value.(isRevoked := true)).value;
      assert after == if SaveSession(revoked, row).Ok? then SaveSession(revoked, row).value else revoked;
    }
  }

  lemma {:induction false} RefreshKeepsTables(w: World, r: Request)
    requires TablesValid(w) && r.Refresh? && Enabled(w, Serve(r))
    ensures TablesKept(w.db, DbAfter(w, r), FreshId(r))
  {
    RefreshKeepsSessions(w.db.users, w.db.sessions, w.now, r.verified, r.digest, r.newSessionId, r.newDigest, r.exp);
  }

  lemma {:induction false} LogoutKeepsTables(w: World, r: Request)
    requires TablesValid(w) && r.Logout?
    ensures TablesKept(w.db, DbAfter(w, r), FreshId(r))
  {
    var target := LogoutTarget(r.accessSession, r.refreshSession);
    if target.Some? && target.value in w.db.sessions.rows {
      SaveKeepsValid(w.db.sessions, w.db.sessions.rows[target.value].(isRevoked := true));
    }
  }

  lemma {:induction false} RevocationsKeepSessions(t: SessionTable, ids: set<string>)
    requires ValidSessions(t)
    ensures ValidSessions(RevokeIds(t, ids)) && SessionsPersist(t, RevokeIds(t, ids))
    ensures RevokeIds(t, ids).rows.Keys == t.rows.Keys
  {
  }

  lemma {:induction false} ResetKeepsTables(w: World, r: Request)
    requires TablesValid(w) && r.Reset?
    ensures TablesKept(w.db, DbAfter(w, r), FreshId(r))
  {
    if r.token in w.db.resets && w.db.resets[r.token].userId in w.db.users.rows {
      var user := w.db.users.rows[w.db.resets[r.token].userId];
      RevocationsKeepSessions(w.db.sessions, ActiveIds(w.db.sessions, user.id, w.now));
      StoreKeepsValid(w.db.users, user.(passwordHash := r.newHash));
    }
  }

  lemma {:induction false} VerifyKeepsTables(w: World, r: Request)
    requires TablesValid(w) && r.VerifyEmail?
    ensures TablesKept(w.db, DbAfter(w, r), FreshId(r))
  {
    if r.token in w.db.verifications && w.db.verifications[r.token].userId in w.db.users.rows {
      StoreKeepsValid(w.db.users, VerifiedEmail(w.db.users.rows[w.db.verifications[r.token].userId]));
    }
  }

  lemma {:induction false} RequestKeepsTables(w: World, r: Request)
    requires TablesValid(w) && Enabled(w, Serve(r))
    ensures TablesKept(w.db, DbAfter(w, r), FreshId(r))
  {
    match r
    case Login(_, _, _, _, _) => LoginKeepsTables(w, r);
    case Refresh(_, _, _, _, _) => RefreshKeepsTables(w, r);
    case Logout(_, _, _) => LogoutKeepsTables(w, r);
    case Reset(_, _) => ResetKeepsTables(w, r);
    case VerifyEmail(_) => VerifyKeepsTables(w, r);
  }

  /** An accepted refresh, spelled out in rows. */
  lemma {:induction false} AcceptedRefresh(w: World, r: Request)
    requires TablesValid(w)
    requires r.Refresh? && Enabled(w, Serve(r)) && Respond(w, r).Ok?
    ensures r.verified.Some? && r.verified.value in w.issued
    ensures var id := r.verified.value.sessionId;
            var rows := w.db.sessions.rows;
            && id in rows && rows[id].refreshToken == r.digest && !rows[id].isRevoked && w.now <= rows[id].expiresAt
            && r.verified.value.sub in w.db.users.rows && !w.db.users.rows[r.verified.value.sub].isLocked
            && r.newSessionId !in rows && r.newDigest !in w.db.sessions.tokenIndex
            && NewRotations(w, r) == [Rotation(id, r.newSessionId)]
            && DbAfter(w, r).users == w.db.users
            && DbAfter(w, r).sessions.rows ==
               rows[id := rows[id].(isRevoked := true)]
                   [r.newSessionId := SessionRow(r.newSessionId, rows[id].userId, r.newDigest,
                                                 SessionExpiry(r.exp, w.now), w.now, false)]
  {
  }

  lemma {:induction false} AppendRotation(rotations: seq<Rotation>, rows: map<string, SessionRow>, r: Rotation)
    requires RotationsStored(rotations, rows) && RotationsLinear(rotations)
    requires r.from in rows && !rows[r.from].isRevoked && r.to !in rows
    ensures RotationsLinear(rotations + [r])
  {
    forall i | 0 <= i < |rotations|
      ensures rotations[i].from != r.from && rotations[i].to != r.to && rotations[i].from != r.to
    {
      assert rotations[i] in rotations;
    }
  }

  lemma {:induction false} RotationsStayLinear(w: World, r: Request)
    requires Inv(w) && Enabled(w, Serve(r))
    ensures RotationsLinear(w.rotations + NewRotations(w, r))
    ensures RotationsStored(w.rotations + NewRotations(w, r), DbAfter(w, r).sessions.rows)
  {
    RequestKeepsTables(w, r);
    if r.Refresh? && Respond(w, r).Ok? {
      AcceptedRefresh(w, r);
      AppendRotation(w.rotations, w.db.sessions.rows, NewRotations(w, r)[0]);
    } else {
      assert w.rotations + NewRotations(w, r) == w.rotations;
    }
  }

  /** Claims issued before stay authentic while rows persist and no row is stored under an id in use. */
  lemma {:induction false} OldClaimsStayAuthentic(w: World, r: Request)
    requires ClaimsAuthentic(w) && TablesKept(w.db, DbAfter(w, r), FreshId(r)) && Enabled(w, Serve(r))
    ensures forall c :: c in w.issued && c.sessionId in DbAfter(w, r).sessions.rows ==>
              ClaimsOf(c, DbAfter(w, r).sessions.rows[c.sessionId])
  {
  }

  lemma {:induction false} NewClaimsAuthentic(w: World, r: Request, c: Claims)
    requires Inv(w) && Enabled(w, Serve(r)) && c in NewClaims(w, r)
    ensures FreshId(r) == Some(c.sessionId) && c.sessionId in DbAfter(w, r).sessions.rows
    ensures ClaimsOf(c, DbAfter(w, r).sessions.rows[c.sessionId])
  {
    if r.Refresh? {
      AcceptedRefresh(w, r);
      assert ClaimsOf(r.verified.value, w.db.sessions.rows[r.verified.value.sessionId]);
    }
  }

  lemma {:induction false} ClaimsStayAuthentic(w: World, r: Request)
    requires Inv(w) && Enabled(w, Serve(r))
    ensures ClaimsAuthentic(Advance(w, Serve(r)))
  {
    RequestKeepsTables(w, r);
    OldClaimsStayAuthentic(w, r);
    forall c | c in NewClaims(w, r)
      ensures FreshId(r) == Some(c.sessionId) && ClaimsOf(c, DbAfter(w, r).sessions.rows[c.sessionId])
    {
      NewClaimsAuthentic(w, r, c);
    }
  }

  /** One world is a later moment of another's run. */
  ghost predicate Later(a: World, b: World) {
    && SessionsPersist(a.db.sessions, b.db.sessions)
    && UsersPersist(a.db.users, b.db.users)
    && a.now <= b.now
  }

  lemma {:induction false} LaterTransitive(a: World, b: World, c: World)
    requires Later(a, b) && Later(b, c)
    ensures Later(a, c)
  {
  }

  lemma {:induction false} AdvanceKeepsInv(w: World, e: Event)
    requires Inv(w) && Enabled(w, e)
    ensures Inv(Advance(w, e)) && Later(w, Advance(w, e))
  {
    if e.Serve? {
      RequestKeepsTables(w, e.request);
      RotationsStayLinear(w, e.request);
      ClaimsStayAuthentic(w, e.request);
    }
  }

  /** The invariant holds throughout every legal run. */
  lemma {:induction false} RunsKeepInv(ws: seq<World>, events: seq<Event>, i: nat)
    requires IsRun(ws, events) && Inv(ws[0]) && i < |ws|
    ensures Inv(ws[i])
  {
    if i > 0 {
      RunsKeepInv(ws, events, i - 1);
      assert Moves(ws, events, i - 1);
      AdvanceKeepsInv(ws[i - 1], events[i - 1]);
    }
  }

  /** Between any two moments of a run, sessions and users persist and the clock does not go back. */
  lemma {:induction false} RunsPersist(ws: seq<World>, events: seq<Event>, i: nat, j: nat)
    requires IsRun(ws, events) && Inv(ws[0]) && i <= j < |ws|
    ensures Later(ws[i], ws[j])
    decreases j
  {
    if i < j {
      RunsPersist(ws, events, i, j - 1);
      RunsKeepInv(ws, events, j - 1);
      assert Moves(ws, events, j - 1);
      AdvanceKeepsInv(ws[j - 1], events[j - 1]);
      LaterTransitive(ws[i], ws[j - 1], ws[j]);
    }
  }
}
