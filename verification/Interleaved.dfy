/**
 The same services under arbitrary interleaving. A request is split where its code waits: each
 action below is one database operation or one local computation between two waits, and a phase
 is what a request holds in memory until its next action. Requests keep working on the copies
 they loaded, however stale.
 */
module Interleaved {
  import opened Wrappers
  import opened IdentityModel
  import opened Lifecycle

  /** What a one-time token is good for. The two services that take one share most of their steps. */
  datatype Purpose = PasswordReset | EmailVerification

  datatype Phase =
    | LoginLoaded(user: UserRow)
    | LoginStoring(user: UserRow, granted: bool)
    | Granted(userId: string)
    | RefreshLoaded(session: SessionRow, sub: string, at: int)
    | RefreshRevoking(session: SessionRow, at: int)
    | Rotating(session: SessionRow, at: int)
    | Creating(row: SessionRow)
    | LogoutRevoking(session: SessionRow)
    | TokenLoaded(purpose: Purpose, token: TokenRow)
    | ResetHashing(token: TokenRow, user: UserRow)
    | TokenStoring(purpose: Purpose, token: TokenRow, user: UserRow)
    | TokenMarking(purpose: Purpose, token: TokenRow)
    | TokenDeleting(purpose: Purpose, token: TokenRow)
    | ResetListing(userId: string)
    | ResetRevoking(sessions: seq<SessionRow>)

  datatype Action =
    | StartLogin(pid: nat, email: string)
    | VerifyPassword(pid: nat, valid: bool)
    | StoreLogin(pid: nat)
    | IssueLogin(pid: nat, id: string, digest: string, exp: Option<int>)
    | StartRefresh(pid: nat, verified: Claims, digest: string)
    | LoadRefreshUser(pid: nat)
    | StoreRevoked(pid: nat)
    | IssueRotation(pid: nat, id: string, digest: string, exp: Option<int>)
    | StoreNew(pid: nat)
    | StartLogout(pid: nat, id: string, digest: string)
    | StartToken(pid: nat, purpose: Purpose, token: string)
    | LoadTokenUser(pid: nat)
    | HashPassword(pid: nat, newHash: string)
    | StoreTokenUser(pid: nat)
    | MarkToken(pid: nat)
    | DeleteToken(pid: nat)
    | ListSessions(pid: nat, listed: seq<SessionRow>)
    | Pass(elapsed: nat)

  /** `reserved` holds every UUID generated so far. */
  datatype System = System(now: int, db: IdentityDb, procs: map<nat, Phase>, reserved: set<string>)

  function Holding(s: System, pid: nat): Option<Phase> {
    if pid in s.procs then Some(s.procs[pid]) else None
  }

  /** The request moves on to a phase, or ends. */
  function Move(s: System, pid: nat, next: Option<Phase>): System {
    s.(procs := match next case Some(p) => s.procs[pid := p] case None => s.procs - {pid})
  }

  /** A list of the user's active sessions, each once. */
  predicate Lists(t: SessionTable, userId: string, now: int, listed: seq<SessionRow>) {
    && (forall i :: 0 <= i < |listed| ==>
          && listed[i].id in t.rows && listed[i] == t.rows[listed[i].id]
          && Active(listed[i], userId, now))
    && (forall i, j :: 0 <= i < j < |listed| ==> listed[i].id != listed[j].id)
    && (forall id :: id in t.rows && Active(t.rows[id], userId, now) ==> t.rows[id] in listed)
  }

  function RevokedCopies(listed: seq<SessionRow>): seq<SessionRow> {
    seq(|listed|, i requires 0 <= i < |listed| => listed[i].(isRevoked := true))
  }

  /** New UUIDs are fresh, and a listing returns what the query asks for. */
  predicate Permitted(s: System, a: Action) {
    match a
    case IssueLogin(_, id, _, _) => id !in s.reserved
    case IssueRotation(_, id, _, _) => id !in s.reserved
    case ListSessions(pid, listed) =>
      Holding(s, pid).Some? && s.procs[pid].ResetListing? ==> Lists(s.db.sessions, s.procs[pid].userId, s.now, listed)
    case _ => true
  }

  // ---------------------------------------------------------------------------------------
  // Actions that only read and compute

  function Begin(s: System, pid: nat, first: Option<Phase>): System {
    if pid in s.procs then s else Move(s, pid, first)
  }

  function LoginLookup(s: System, email: string): Option<Phase> {
    match FindByEmail(s.db.users, email)
    case None => None
    case Some(user) => if user.isLocked then None else Some(LoginLoaded(user))
  }

  function RefreshLookup(s: System, verified: Claims, digest: string): Option<Phase> {
    match FindByRefreshToken(s.db.sessions, digest)
    case None => None
    case Some(session) =>
      if session.isRevoked || session.id != verified.sessionId || s.now > session.expiresAt then None
      else Some(RefreshLoaded(session, verified.sub, s.now))
  }

  function LogoutLookup(s: System, id: string, digest: string): Option<Phase> {
    if id in s.db.sessions.rows && !s.db.sessions.rows[id].isRevoked
        && s.db.sessions.rows[id].refreshToken == digest then
      Some(LogoutRevoking(s.db.sessions.rows[id].(isRevoked := true)))
    else None
  }

  function Tokens(db: IdentityDb, purpose: Purpose): map<string, TokenRow> {
    match purpose
    case PasswordReset => db.resets
    case EmailVerification => db.verifications
  }

  function TokenLookup(s: System, purpose: Purpose, token: string): Option<Phase> {
    var tokens := Tokens(s.db, purpose);
    if token in tokens && !(s.now > tokens[token].expiresAt) && !tokens[token].isUsed then
      Some(TokenLoaded(purpose, tokens[token]))
    else None
  }

  predicate Starts(a: Action) {
    a.StartLogin? || a.StartRefresh? || a.StartLogout? || a.StartToken?
  }

  function Lookup(s: System, a: Action): Option<Phase>
    requires Starts(a)
  {
    match a
    case StartLogin(_, email) => LoginLookup(s, email)
    case StartRefresh(_, verified, digest) => RefreshLookup(s, verified, digest)
    case StartLogout(_, id, digest) => LogoutLookup(s, id, digest)
    case StartToken(_, purpose, token) => TokenLookup(s, purpose, token)
  }

  /** A reset goes on to hash the new password, a verification to store the verified address. */
  function UserLoaded(purpose: Purpose, token: TokenRow, user: UserRow): Phase {
    match purpose
    case PasswordReset => ResetHashing(token, user)
    case EmailVerification => TokenStoring(purpose, token, VerifiedEmail(user))
  }

  /** The phase after a step that leaves the tables alone; no phase means the request ends. */
  function AfterLocal(s: System, a: Action, held: Phase): Option<Phase> {
    match held
    case LoginLoaded(user) =>
      if !a.VerifyPassword? then Some(held)
      else Some(LoginStoring(if a.valid then SuccessfulLogin(user) else FailedAttempt(user), a.valid))
    case Granted(userId) =>
      if !a.IssueLogin? then Some(held)
      else Some(Creating(SessionRow(a.id, userId, a.digest, SessionExpiry(a.exp, s.now), s.now, false)))
    case RefreshLoaded(session, sub, at) =>
      if !a.LoadRefreshUser? then Some(held)
      else if sub !in s.db.users.rows || s.db.users.rows[sub].isLocked then None
      else Some(RefreshRevoking(session.(isRevoked := true), at))
    case Rotating(session, at) =>
      if !a.IssueRotation? then Some(held)
      else Some(Creating(SessionRow(a.id, session.userId, a.digest, SessionExpiry(a.exp, at), at, false)))
    case TokenLoaded(purpose, token) =>
      if !a.LoadTokenUser? then Some(held)
      else if token.userId !in s.db.users.rows then None
      else Some(UserLoaded(purpose, token, s.db.users.rows[token.userId]))
    case ResetHashing(token, user) =>
      if !a.HashPassword? then Some(held)
      else if user.passwordHash == a.newHash then None
      else Some(TokenStoring(PasswordReset, token, user.(passwordHash := a.newHash)))
    case TokenMarking(purpose, token) =>
      // Marking a token as used fails if it expired meanwhile; the user is stored already.
      if !a.MarkToken? then Some(held)
      else if s.now > token.expiresAt then None
      else Some(TokenDeleting(purpose, token))
    case ResetListing(userId) =>
      if !a.ListSessions? then Some(held)
      else if a.listed == [] then None
      else Some(ResetRevoking(RevokedCopies(a.listed)))
    case _ => Some(held)
  }

  // ---------------------------------------------------------------------------------------
  // Actions that write

  /** Storing a user writes every column from the copy in memory. */
  function WriteUser(s: System, pid: nat, user: UserRow, next: Option<Phase>): System {
    Move(s.(db := s.db.(users := StoreUser(s.db.users, user))), pid, next)
  }

  /** Saving a session that may fail on the unique index ends the request. */
  function WriteSession(s: System, pid: nat, row: SessionRow, next: Option<Phase>): System {
    match SaveSession(s.db.sessions, row)
    case Ok(t) => Move(s.(db := s.db.(sessions := t)), pid, next)
    case Err(_) => Move(s, pid, None)
  }

  /** The reset loop's next save. */
  function RevokeNext(s: System, pid: nat, sessions: seq<SessionRow>): System {
    if sessions == [] then Move(s, pid, None)
    else WriteSession(s, pid, sessions[0], if |sessions| == 1 then None else Some(ResetRevoking(sessions[1..])))
  }

  function WithoutToken(db: IdentityDb, purpose: Purpose, token: string): IdentityDb {
    match purpose
    case PasswordReset => db.(resets := db.resets - {token})
    case EmailVerification => db.(verifications := db.verifications - {token})
  }

  /** After its token a reset has the sessions left to do. */
  function ForgetToken(s: System, pid: nat, purpose: Purpose, token: TokenRow): System {
    Move(s.(db := WithoutToken(s.db, purpose, token.token)), pid,
         if purpose == PasswordReset then Some(ResetListing(token.userId)) else None)
  }

  function AfterWrite(s: System, a: Action, held: Phase): System {
    match held
    case LoginStoring(user, granted) =>
      if a.StoreLogin? then WriteUser(s, a.pid, user, if granted then Some(Granted(user.id)) else None) else s
    case TokenStoring(purpose, token, user) =>
      if a.StoreTokenUser? then WriteUser(s, a.pid, user, Some(TokenMarking(purpose, token))) else s
    case RefreshRevoking(session, at) =>
      if a.StoreRevoked? then WriteSession(s, a.pid, session, Some(Rotating(session, at))) else s
    case LogoutRevoking(session) => if a.StoreRevoked? then WriteSession(s, a.pid, session, None) else s
    case ResetRevoking(sessions) => if a.StoreRevoked? then RevokeNext(s, a.pid, sessions) else s
    case Creating(row) => if a.StoreNew? then WriteSession(s, a.pid, row, None) else s
    case TokenDeleting(purpose, token) => if a.DeleteToken? then ForgetToken(s, a.pid, purpose, token) else s
    case _ => s
  }

  predicate Writes(a: Action) {
    a.StoreLogin? || a.StoreTokenUser? || a.StoreRevoked? || a.StoreNew? || a.DeleteToken?
  }

  function Reserve(s: System, a: Action): System {
    match a
    case IssueLogin(_, id, _, _) => s.(reserved := s.reserved + {id})
    case IssueRotation(_, id, _, _) => s.(reserved := s.reserved + {id})
    case _ => s
  }

  /** An action that does not fit the request's phase has no effect. */
  function Act(s: System, a: Action): System {
    match a
    case Pass(elapsed) => s.(now := s.now + elapsed)
    case _ =>
      if Starts(a) then Begin(s, a.pid, Lookup(s, a))
      else if a.pid !in s.procs then s
      else if Writes(a) then AfterWrite(s, a, s.procs[a.pid])
      else Move(Reserve(s, a), a.pid, AfterLocal(s, a, s.procs[a.pid]))
  }

  function Exec(s: System, actions: seq<Action>): System
    decreases actions
  {
    if actions == [] then s else Exec(Act(s, actions[0]), actions[1..])
  }

  ghost predicate PermittedRun(s: System, actions: seq<Action>)
    decreases actions
  {
    actions == [] || (Permitted(s, actions[0]) && PermittedRun(Act(s, actions[0]), actions[1..]))
  }

  // ---------------------------------------------------------------------------------------
  // The invariant of the interleaved system

  /** Not locked means fewer than five failed attempts. */
  predicate LockBounded(u: UserRow) {
    !u.isLocked ==> u.failedLoginAttempts < 5
  }

  ghost predicate UserCopy(t: UserTable, u: UserRow) {
    u.id in t.rows && t.rows[u.id].email == u.email && LockBounded(u)
  }

  /** A copy may disagree with the stored row on the revocation flag only. */
  ghost predicate SessionCopy(t: SessionTable, s: SessionRow) {
    s.id in t.rows && t.rows[s.id].(isRevoked := s.isRevoked) == s
  }

  ghost predicate PhaseOk(db: IdentityDb, reserved: set<string>, p: Phase) {
    match p
    case LoginLoaded(user) => UserCopy(db.users, user) && !user.isLocked
    case LoginStoring(user, _) => UserCopy(db.users, user)
    case ResetHashing(_, user) => UserCopy(db.users, user)
    case TokenStoring(_, _, user) => UserCopy(db.users, user)
    case RefreshLoaded(session, _, _) => SessionCopy(db.sessions, session)
    case RefreshRevoking(session, _) => SessionCopy(db.sessions, session) && session.isRevoked
    case Rotating(session, _) => SessionCopy(db.sessions, session) && session.isRevoked
    case LogoutRevoking(session) => SessionCopy(db.sessions, session) && session.isRevoked
    case ResetRevoking(sessions) =>
      forall i :: 0 <= i < |sessions| ==> SessionCopy(db.sessions, sessions[i]) && sessions[i].isRevoked
    case Creating(row) => row.id in reserved && row.id !in db.sessions.rows && !row.isRevoked
    case _ => true
  }

  ghost predicate TablesOk(db: IdentityDb, reserved: set<string>) {
    && ValidSessions(db.sessions)
    && ValidUsers(db.users)
    && db.sessions.rows.Keys <= reserved
    && forall id :: id in db.users.rows ==> LockBounded(db.users.rows[id])
  }

  ghost predicate CreatingApart(procs: map<nat, Phase>) {
    forall p, q :: p in procs && q in procs && p != q && procs[p].Creating? && procs[q].Creating? ==>
      procs[p].row.id != procs[q].row.id
  }

  ghost predicate SystemOk(s: System) {
    && TablesOk(s.db, s.reserved)
    && (forall p :: p in s.procs ==> PhaseOk(s.db, s.reserved, s.procs[p]))
    && CreatingApart(s.procs)
  }

  ghost predicate DbLater(a: IdentityDb, b: IdentityDb) {
    SessionsPersist(a.sessions, b.sessions) && UsersPersist(a.users, b.users)
  }

  lemma {:induction false} PhaseStable(a: IdentityDb, b: IdentityDb, ra: set<string>, rb: set<string>, p: Phase)
    requires DbLater(a, b) && ra <= rb && PhaseOk(a, ra, p)
    requires p.Creating? ==> p.row.id !in b.sessions.rows
    ensures PhaseOk(b, rb, p)
  {
  }

  /** The id a request is about to create a session under. */
  function CreatingId(p: Phase): Option<string> {
    if p.Creating? then Some(p.row.id) else None
  }

  /**
   One request moves on while the tables grow older: the rest of the system stays in order if
   no other request's session id was stored or taken.
   */
  lemma {:induction false} OthersStayOk(s: System, t: System, pid: nat, next: Option<Phase>)
    requires SystemOk(s)
    requires TablesOk(t.db, t.reserved) && DbLater(s.db, t.db) && s.reserved <= t.reserved
    requires t.procs == Move(s, pid, next).procs
    requires next.Some? ==> PhaseOk(t.db, t.reserved, next.value)
    requires forall q :: q in s.procs && q != pid && s.procs[q].Creating? ==>
               s.procs[q].row.id !in t.db.sessions.rows
                   && (next.Some? ==> CreatingId(next.value) != Some(s.procs[q].row.id))
    ensures SystemOk(t)
  {
    forall q | q in t.procs && q != pid
      ensures PhaseOk(t.db, t.reserved, t.procs[q])
    {
      PhaseStable(s.db, t.db, s.reserved, t.reserved, s.procs[q]);
    }
  }

  /** The same when no session row is new and the request is not about to create one. */
  lemma {:induction false} OthersStayOkSameRows(s: System, t: System, pid: nat, next: Option<Phase>)
    requires SystemOk(s)
    requires TablesOk(t.db, t.reserved) && DbLater(s.db, t.db) && s.reserved == t.reserved
    requires t.db.sessions.rows.Keys == s.db.sessions.rows.Keys
    requires t.procs == Move(s, pid, next).procs
    requires next.Some? ==> PhaseOk(t.db, t.reserved, next.value) && !next.value.Creating?
    ensures SystemOk(t)
  {
    forall q | q in s.procs && s.procs[q].Creating?
      ensures s.procs[q].row.id !in t.db.sessions.rows
    {
      assert PhaseOk(s.db, s.reserved, s.procs[q]);
    }
    OthersStayOk(s, t, pid, next);
  }

  // ---------------------------------------------------------------------------------------
  // Every action keeps the invariant

  lemma {:induction false} LookupOk(s: System, a: Action)
    requires TablesOk(s.db, s.reserved) && Starts(a)
    ensures Lookup(s, a).Some? ==> PhaseOk(s.db, s.reserved, Lookup(s, a).value) && !Lookup(s, a).value.Creating?
  {
  }

  lemma {:induction false} ListingOk(
      db: IdentityDb, reserved: set<string>, userId: string, now: int, listed: seq<SessionRow>)
    requires Lists(db.sessions, userId, now, listed)
    ensures PhaseOk(db, reserved, ResetRevoking(RevokedCopies(listed)))
  {
  }

  lemma {:induction false} LocalOk(s: System, a: Action, held: Phase)
    requires TablesOk(s.db, s.reserved) && PhaseOk(s.db, s.reserved, held) && Permitted(s, a)
    requires !Writes(a) && !Starts(a) && !a.Pass? && Holding(s, a.pid) == Some(held)
    ensures var next := AfterLocal(s, a, held);
            next.Some? ==>
              && PhaseOk(s.db, Reserve(s, a).reserved, next.value)
              && (next.value == held || (CreatingId(next.value).Some? ==> CreatingId(next.value).value !in s.reserved))
  {
    if a.ListSessions? && held.ResetListing? {
      ListingOk(s.db, s.reserved, held.userId, s.now, a.listed);
    } else if a.VerifyPassword? || a.LoadTokenUser? || a.HashPassword? {
      LocalUserOk(s, a, held);
    }
  }

  /** The steps that load a user or change the loaded copy. */
  lemma {:induction false} LocalUserOk(s: System, a: Action, held: Phase)
    requires TablesOk(s.db, s.reserved) && PhaseOk(s.db, s.reserved, held)
    requires a.VerifyPassword? || a.LoadTokenUser? || a.HashPassword?
    ensures var next := AfterLocal(s, a, held);
            next.Some? ==> PhaseOk(s.db, s.reserved, next.value) && (next.value == held || !next.value.Creating?)
  {
  }

  lemma {:induction false} LocalKeepsOk(s: System, a: Action)
    requires SystemOk(s) && Permitted(s, a)
    requires !Writes(a) && !Starts(a) && !a.Pass? && a.pid in s.procs
    ensures SystemOk(Move(Reserve(s, a), a.pid, AfterLocal(s, a, s.procs[a.pid])))
  {
    var held := s.procs[a.pid];
    LocalOk(s, a, held);
    OthersStayOk(s, Move(Reserve(s, a), a.pid, AfterLocal(s, a, held)), a.pid, AfterLocal(s, a, held));
  }

  lemma {:induction false} StoreTablesOk(db: IdentityDb, reserved: set<string>, user: UserRow)
    requires TablesOk(db, reserved) && UserCopy(db.users, user)
    ensures TablesOk(db.(users := StoreUser(db.users, user)), reserved)
    ensures DbLater(db, db.(users := StoreUser(db.users, user)))
  {
    StoreKeepsValid(db.users, user);
  }

  lemma {:induction false} WriteUserKeepsOk(s: System, pid: nat, user: UserRow, next: Option<Phase>)
    requires SystemOk(s) && pid in s.procs && UserCopy(s.db.users, user)
    requires next.Some? ==> next.value.Granted? || next.value.TokenMarking?
    ensures SystemOk(WriteUser(s, pid, user, next))
    ensures DbLater(s.db, WriteUser(s, pid, user, next).db)
  {
    StoreTablesOk(s.db, s.reserved, user);
    OthersStayOkSameRows(s, WriteUser(s, pid, user, next), pid, next);
  }

  lemma {:induction false} SaveTablesOk(db: IdentityDb, reserved: set<string>, row: SessionRow)
    requires TablesOk(db, reserved) && row.id in reserved && SaveSession(db.sessions, row).Ok?
    requires row.id in db.sessions.rows ==> row.isRevoked
    ensures var db' := db.(sessions := SaveSession(db.sessions, row).value);
            TablesOk(db', reserved) && DbLater(db, db') && db'.sessions.rows.Keys == db.sessions.rows.Keys + {row.id}
  {
    SaveKeepsValid(db.sessions, row);
  }

  lemma {:induction false} WriteRevokedKeepsOk(s: System, pid: nat, row: SessionRow, next: Option<Phase>)
    requires SystemOk(s) && pid in s.procs && SessionCopy(s.db.sessions, row) && row.isRevoked
    requires next.Some? ==> PhaseOk(s.db, s.reserved, next.value) && !next.value.Creating?
    ensures SystemOk(WriteSession(s, pid, row, next))
    ensures DbLater(s.db, WriteSession(s, pid, row, next).db)
  {
    var t := WriteSession(s, pid, row, next);
    SaveTablesOk(s.db, s.reserved, row);
    if next.Some? {
      PhaseStable(s.db, t.db, s.reserved, t.reserved, next.value);
    }
    OthersStayOkSameRows(s, t, pid, next);
  }

  lemma {:induction false} WriteNewKeepsOk(s: System, pid: nat, row: SessionRow)
    requires SystemOk(s) && pid in s.procs && s.procs[pid] == Creating(row)
    ensures SystemOk(WriteSession(s, pid, row, None))
    ensures DbLater(s.db, WriteSession(s, pid, row, None).db)
  {
    if SaveSession(s.db.sessions, row).Ok? {
      SaveTablesOk(s.db, s.reserved, row);
    }
    OthersStayOk(s, WriteSession(s, pid, row, None), pid, None);
  }

  lemma {:induction false} RevokeNextKeepsOk(s: System, pid: nat, sessions: seq<SessionRow>)
    requires SystemOk(s) && pid in s.procs && s.procs[pid] == ResetRevoking(sessions)
    ensures SystemOk(RevokeNext(s, pid, sessions))
    ensures DbLater(s.db, RevokeNext(s, pid, sessions).db)
  {
    if sessions == [] {
      OthersStayOkSameRows(s, Move(s, pid, None), pid, None);
    } else {
      assert PhaseOk(s.db, s.reserved, ResetRevoking(sessions[1..]));
      WriteRevokedKeepsOk(s, pid, sessions[0], if |sessions| == 1 then None else Some(ResetRevoking(sessions[1..])));
    }
  }

  lemma {:induction false} DeleteKeepsOk(s: System, pid: nat, purpose: Purpose, token: TokenRow)
    requires SystemOk(s) && pid in s.procs && s.procs[pid] == TokenDeleting(purpose, token)
    ensures SystemOk(ForgetToken(s, pid, purpose, token))
    ensures DbLater(s.db, ForgetToken(s, pid, purpose, token).db)
  {
    OthersStayOkSameRows(s, ForgetToken(s, pid, purpose, token), pid,
                         if purpose == PasswordReset then Some(ResetListing(token.userId)) else None);
  }

  /** The saves that revoke: by a refresh, a logout or the reset loop. */
  lemma {:induction false} RevokingKeepsOk(s: System, pid: nat, session: SessionRow)
    requires SystemOk(s) && pid in s.procs
    requires (s.procs[pid].RefreshRevoking? || s.procs[pid].LogoutRevoking?) && s.procs[pid].session == session
    ensures var next := if s.procs[pid].RefreshRevoking? then Some(Rotating(session, s.procs[pid].at)) else None;
            SystemOk(WriteSession(s, pid, session, next)) && DbLater(s.db, WriteSession(s, pid, session, next).db)
  {
    assert PhaseOk(s.db, s.reserved, s.procs[pid]);
    var next := if s.procs[pid].RefreshRevoking? then Some(Rotating(session, s.procs[pid].at)) else None;
    WriteRevokedKeepsOk(s, pid, session, next);
  }

  lemma {:induction false} StoringKeepsOk(s: System, pid: nat, user: UserRow, next: Option<Phase>)
    requires SystemOk(s) && pid in s.procs
    requires (s.procs[pid].LoginStoring? || s.procs[pid].TokenStoring?) && s.procs[pid].user == user
    requires next.Some? ==> next.value.Granted? || next.value.TokenMarking?
    ensures SystemOk(WriteUser(s, pid, user, next)) && DbLater(s.db, WriteUser(s, pid, user, next).db)
  {
    assert PhaseOk(s.db, s.reserved, s.procs[pid]);
    WriteUserKeepsOk(s, pid, user, next);
  }

  ghost predicate Keeps(s: System, t: System) {
    SystemOk(t) && DbLater(s.db, t.db)
  }

  lemma {:induction false} KeepsItself(s: System)
    requires SystemOk(s)
    ensures Keeps(s, s)
  {
  }

  lemma {:induction false} UserWriteKeepsOk(s: System, a: Action, held: Phase)
    requires SystemOk(s) && Writes(a) && Holding(s, a.pid) == Some(held)
    requires AfterWrite(s, a, held) != s
    requires held.LoginStoring? || held.TokenStoring?
    ensures Keeps(s, AfterWrite(s, a, held))
  {
    match held
    case LoginStoring(user, granted) =>
      StoringKeepsOk(s, a.pid, user, if granted then Some(Granted(user.id)) else None);
    case TokenStoring(purpose, token, user) => StoringKeepsOk(s, a.pid, user, Some(TokenMarking(purpose, token)));
  }

  lemma {:induction false} RevokedWriteKeepsOk(s: System, a: Action, held: Phase)
    requires SystemOk(s) && Writes(a) && Holding(s, a.pid) == Some(held)
    requires AfterWrite(s, a, held) != s
    requires held.RefreshRevoking? || held.LogoutRevoking? || held.ResetRevoking?
    ensures Keeps(s, AfterWrite(s, a, held))
  {
    if held.ResetRevoking? {
      RevokeNextKeepsOk(s, a.pid, held.sessions);
    } else {
      RevokingKeepsOk(s, a.pid, held.session);
    }
  }

  lemma {:induction false} OtherWriteKeepsOk(s: System, a: Action, held: Phase)
    requires SystemOk(s) && Writes(a) && Holding(s, a.pid) == Some(held)
    requires AfterWrite(s, a, held) != s
    requires held.Creating? || held.TokenDeleting?
    ensures Keeps(s, AfterWrite(s, a, held))
  {
    if held.Creating? {
      WriteNewKeepsOk(s, a.pid, held.row);
    } else {
      DeleteKeepsOk(s, a.pid, held.purpose, held.token);
    }
  }

  lemma {:induction false} WriteKeepsOk(s: System, a: Action)
    requires SystemOk(s) && Writes(a) && a.pid in s.procs
    ensures Keeps(s, AfterWrite(s, a, s.procs[a.pid]))
  {
    var held := s.procs[a.pid];
    if AfterWrite(s, a, held) == s {
      KeepsItself(s);
    } else if held.LoginStoring? || held.TokenStoring? {
      UserWriteKeepsOk(s, a, held);
    } else if held.Creating? || held.TokenDeleting? {
      OtherWriteKeepsOk(s, a, held);
    } else {
      RevokedWriteKeepsOk(s, a, held);
    }
  }

  lemma {:induction false} BeginKeepsOk(s: System, a: Action, first: Option<Phase>)
    requires SystemOk(s) && !a.Pass?
    requires first.Some? ==> PhaseOk(s.db, s.reserved, first.value) && !first.value.Creating?
    ensures SystemOk(Begin(s, a.pid, first))
  {
    if a.pid !in s.procs {
      OthersStayOkSameRows(s, Move(s, a.pid, first), a.pid, first);
    }
  }

  /** One permitted action keeps the invariant and only lets the tables grow older. */
  lemma {:induction false} ActKeepsOk(s: System, a: Action)
    requires SystemOk(s) && Permitted(s, a)
    ensures SystemOk(Act(s, a)) && DbLater(s.db, Act(s, a).db)
  {
    if a.Pass? {
    } else if Starts(a) {
      LookupOk(s, a);
      BeginKeepsOk(s, a, Lookup(s, a));
    } else if a.pid in s.procs {
      if Writes(a) {
        WriteKeepsOk(s, a);
      } else {
        LocalKeepsOk(s, a);
      }
    }
  }

  /**
   However requests interleave: the unique index keeps answering like a scan of the table, a
   stored session keeps its id, user, digest, expiry and creation time and is never un-revoked,
   and every stored user that is not locked has fewer than five failed attempts.
   */
  lemma {:induction false} InterleavingKeepsSafety(s: System, actions: seq<Action>)
    requires SystemOk(s) && PermittedRun(s, actions)
    ensures SystemOk(Exec(s, actions))
    ensures SessionsPersist(s.db.sessions, Exec(s, actions).db.sessions)
    ensures UsersPersist(s.db.users, Exec(s, actions).db.users)
    decreases actions
  {
    if actions != [] {
      var t := Act(s, actions[0]);
      ActKeepsOk(s, actions[0]);
      InterleavingKeepsSafety(t, actions[1..]);
      PersistTransitive(s.db.sessions, t.db.sessions, Exec(s, actions).db.sessions);
    }
  }

  /** The two stored-row consequences, for one session and one user of any reachable state. */
  lemma {:induction false} StoredRowsStaySafe(
      s: System, actions: seq<Action>, digest: string, row: SessionRow, userId: string)
    requires SystemOk(s) && PermittedRun(s, actions)
    ensures var t := Exec(s, actions).db;
            && (FindByRefreshToken(t.sessions, digest) == Some(row) <==>
                  exists id :: id in t.sessions.rows && t.sessions.rows[id] == row && row.refreshToken == digest)
            && (userId in t.users.rows && !t.users.rows[userId].isLocked ==>
                  t.users.rows[userId].failedLoginAttempts < 5)
  {
    InterleavingKeepsSafety(s, actions);
    FindByRefreshTokenIsScan(Exec(s, actions).db.sessions, digest, row);
  }
}
