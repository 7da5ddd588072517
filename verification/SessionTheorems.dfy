/** What holds over every sequential run: single use, rotation chains, cut-off after a reset. */
module SessionTheorems {
  import opened Wrappers
  import opened IdentityModel
  import opened Lifecycle

  // ---------------------------------------------------------------------------------------
  // Single use and permanence of revocation

  /** A refresh whose digest belongs to a revoked session is refused, and changes nothing. */
  lemma {:induction false} RevokedIsRefused(w: World, id: string, r: Request)
    requires Inv(w) && r.Refresh? && Enabled(w, Serve(r))
    requires id in w.db.sessions.rows && w.db.sessions.rows[id].refreshToken == r.digest
    requires w.db.sessions.rows[id].isRevoked
    ensures !Accepts(w, Serve(r)) && DbAfter(w, r) == w.db
  {
  }

  /** Once a session is revoked, no later refresh in the run is accepted with its token. */
  lemma {:induction false} RevokedIsNeverAccepted(ws: seq<World>, events: seq<Event>, id: string, i: nat, j: nat)
    requires IsRun(ws, events) && Inv(ws[0]) && i <= j < |events|
    requires id in ws[i].db.sessions.rows && ws[i].db.sessions.rows[id].isRevoked
    requires events[j].Serve? && events[j].request.Refresh?
    requires events[j].request.digest == ws[i].db.sessions.rows[id].refreshToken
    ensures !Accepts(ws[j], events[j])
  {
    RunsPersist(ws, events, i, j);
    RunsKeepInv(ws, events, j);
    assert Moves(ws, events, j);
    RevokedIsRefused(ws[j], id, events[j].request);
  }

  /** Accepting a refresh leaves the session of the presented token revoked. */
  lemma {:induction false} AcceptanceRevokes(w: World, r: Request)
    requires Inv(w) && r.Refresh? && Enabled(w, Serve(r)) && Accepts(w, Serve(r))
    ensures var id := r.verified.value.sessionId;
            var rows := Advance(w, Serve(r)).db.sessions.rows;
            id in rows && rows[id].isRevoked && rows[id].refreshToken == r.digest
  {
    AcceptedRefresh(w, r);
  }

  /** In every run a refresh token is accepted at most once. */
  lemma {:induction false} RefreshTokensAreSingleUse(ws: seq<World>, events: seq<Event>, i: nat, j: nat)
    requires IsRun(ws, events) && Inv(ws[0]) && i < j < |events|
    requires events[i].Serve? && events[i].request.Refresh?
    requires events[j].Serve? && events[j].request.Refresh?
    requires events[i].request.digest == events[j].request.digest
    ensures !(Accepts(ws[i], events[i]) && Accepts(ws[j], events[j]))
  {
    EventsFollow(ws, events, i, j);
    SecondUseIsRefused(ws[i], ws[j], events[i].request, events[j].request);
  }

  /** Serving `later` in world c comes some time after serving `first` in world a. */
  ghost predicate Follows(a: World, first: Event, c: World, later: Event) {
    Inv(a) && Enabled(a, first) && Later(Advance(a, first), c) && Inv(c) && Enabled(c, later)
  }

  lemma {:induction false} EventsFollow(ws: seq<World>, events: seq<Event>, i: nat, j: nat)
    requires IsRun(ws, events) && Inv(ws[0]) && i < j < |events|
    ensures Follows(ws[i], events[i], ws[j], events[j])
  {
    RunsKeepInv(ws, events, i);
    RunsKeepInv(ws, events, j);
    RunsPersist(ws, events, i + 1, j);
    assert Moves(ws, events, i) && Moves(ws, events, j);
  }

  lemma {:induction false} SecondUseIsRefused(a: World, c: World, first: Request, second: Request)
    requires Follows(a, Serve(first), c, Serve(second)) && first.Refresh? && second.Refresh?
    requires first.digest == second.digest
    ensures !(Accepts(a, Serve(first)) && Accepts(c, Serve(second)))
  {
    if Accepts(a, Serve(first)) {
      AcceptanceRevokes(a, first);
      RevokedIsRefused(c, first.verified.value.sessionId, second);
    }
  }

  // ---------------------------------------------------------------------------------------
  // What a request touches

  /** A user's unrevoked sessions. */
  function Unrevoked(rows: map<string, SessionRow>, userId: string): set<string> {
    set id | id in rows && rows[id].userId == userId && !rows[id].isRevoked
  }

  lemma {:induction false} ExchangeKeepsSize(s: set<string>, gone: string, come: string)
    requires gone in s && come !in s
    ensures |s - {gone} + {come}| == |s|
  {
  }

  lemma {:induction false} TradeKeepsCount(before: map<string, SessionRow>, after: map<string, SessionRow>,
                        gone: string, come: string, userId: string)
    requires gone in before && !before[gone].isRevoked && come !in before && come in after
    requires after.Keys == before.Keys + {come}
    requires after[gone] == before[gone].(isRevoked := true)
    requires after[come].userId == before[gone].userId && !after[come].isRevoked
    requires forall id :: id in before && id != gone ==> after[id] == before[id]
    ensures |Unrevoked(after, userId)| == |Unrevoked(before, userId)|
    ensures before[gone].userId != userId ==> Unrevoked(after, userId) == Unrevoked(before, userId)
  {
    if before[gone].userId == userId {
      assert Unrevoked(after, userId) == Unrevoked(before, userId) - {gone} + {come};
      ExchangeKeepsSize(Unrevoked(before, userId), gone, come);
    } else {
      assert Unrevoked(after, userId) == Unrevoked(before, userId);
    }
  }

  /**
   An accepted refresh trades one unrevoked session of the user for another: no user's number of
   them changes, and no row but those two does.
   */
  lemma {:induction false} RefreshConservesSessions(w: World, r: Request, userId: string)
    requires Inv(w) && r.Refresh? && Enabled(w, Serve(r)) && Accepts(w, Serve(r))
    ensures var before, after := w.db.sessions.rows, DbAfter(w, r).sessions.rows;
            && |Unrevoked(after, userId)| == |Unrevoked(before, userId)|
            && (before[r.verified.value.sessionId].userId != userId ==>
                Unrevoked(after, userId) == Unrevoked(before, userId))
            && after.Keys == before.Keys + {r.newSessionId}
            && forall id :: id in before && id != r.verified.value.sessionId ==> after[id] == before[id]
  {
    AcceptedRefresh(w, r);
    TradeKeepsCount(w.db.sessions.rows, DbAfter(w, r).sessions.rows, r.verified.value.sessionId, r.newSessionId,
                    userId);
  }

  /** An accepted login adds one unrevoked session for its user and changes no existing row. */
  lemma {:induction false} LoginAddsOneSession(w: World, r: Request, userId: string)
    requires Inv(w) && r.Login? && Enabled(w, Serve(r)) && Accepts(w, Serve(r))
    ensures var before, after := w.db.sessions.rows, DbAfter(w, r).sessions.rows;
            && Unrevoked(after, userId) ==
               Unrevoked(before, userId)
                   + (if w.db.users.emailIndex[r.email.value] == userId then {r.sessionId} else {})
            && forall id :: id in before ==> after[id] == before[id]
  {
    assert r.sessionId !in w.db.sessions.rows;
  }

  /**
   A logout revokes a session only for the holder of its refresh token, and no other session. The
   session is the one the access token names; only if it names none, the one the refresh token names.
   */
  lemma {:induction false} LogoutRevokesOnlyItsSession(w: World, r: Request, id: string)
    requires Inv(w) && r.Logout? && id in w.db.sessions.rows
    ensures DbAfter(w, r).sessions.rows[id] != w.db.sessions.rows[id] <==>
              && id != ""
              && (|| r.accessSession == Some(id)
                  || ((r.accessSession == None || r.accessSession == Some("")) && r.refreshSession == Some(id)))
              && w.db.sessions.rows[id].refreshToken == r.digest && !w.db.sessions.rows[id].isRevoked
    ensures DbAfter(w, r).sessions.rows[id] != w.db.sessions.rows[id] ==>
              DbAfter(w, r).sessions.rows[id] == w.db.sessions.rows[id].(isRevoked := true)
  {
  }

  /** The refresh passes every check on its token, session and user. */
  predicate PassesChecks(w: World, r: Request)
    requires r.Refresh?
  {
    var session := FindByRefreshToken(w.db.sessions, r.digest);
    && r.verified.Some? && session.Some?
    && session.value.id == r.verified.value.sessionId && RefreshableAt(session.value, w.now)
    && r.verified.value.sub in w.db.users.rows && !w.db.users.rows[r.verified.value.sub].isLocked
  }

  /**
   A refused request leaves the session table as it was, unless it is a refresh that passes every
   check: its successor's digest is then taken, and its old session stays revoked.
   */
  lemma {:induction false} RefusalLeavesSessions(w: World, r: Request)
    requires Inv(w) && Enabled(w, Serve(r)) && !Accepts(w, Serve(r))
    ensures DbAfter(w, r).sessions == w.db.sessions <==> !(r.Refresh? && PassesChecks(w, r))
    ensures r.Refresh? && PassesChecks(w, r) ==>
              && r.newDigest in w.db.sessions.tokenIndex
              && DbAfter(w, r).sessions.rows[r.verified.value.sessionId].isRevoked
  {
    if r.Refresh? && PassesChecks(w, r) {
      var id := r.verified.value.sessionId;
      assert !w.db.sessions.rows[id].isRevoked && DbAfter(w, r).sessions.rows[id].isRevoked;
    }
  }

  // ---------------------------------------------------------------------------------------
  // Rotation chains

  /** A chain of successful rotations. */
  ghost predicate IsChain(rotations: seq<Rotation>, chain: seq<string>) {
    && chain != []
    && forall i, j :: 0 <= i < j < |chain| && j == i + 1 ==> Rotation(chain[i], chain[j]) in rotations
  }

  ghost predicate ChainBetween(rotations: seq<Rotation>, chain: seq<string>, from: string, to: string) {
    IsChain(rotations, chain) && chain[0] == from && chain[|chain| - 1] == to
  }

  /** Session `to` descends from session `from`. */
  ghost predicate DescendsFrom(rotations: seq<Rotation>, from: string, to: string) {
    exists chain :: ChainBetween(rotations, chain, from, to)
  }

  lemma {:induction false} SuccessorUnique(rotations: seq<Rotation>, a: string, b: string, c: string)
    requires RotationsLinear(rotations)
    requires Rotation(a, b) in rotations && Rotation(a, c) in rotations
    ensures b == c
  {
    var i :| 0 <= i < |rotations| && rotations[i] == Rotation(a, b);
    var j :| 0 <= j < |rotations| && rotations[j] == Rotation(a, c);
  }

  lemma {:induction false} ChainsNest(rotations: seq<Rotation>, p: seq<string>, q: seq<string>, i: nat)
    requires RotationsLinear(rotations) && IsChain(rotations, p) && IsChain(rotations, q)
    requires p[0] == q[0] && i < |p| && i < |q|
    ensures p[i] == q[i]
  {
    if i > 0 {
      ChainsNest(rotations, p, q, i - 1);
      SuccessorUnique(rotations, p[i - 1], p[i], q[i]);
    }
  }

  lemma {:induction false} ShorterChainFirst(rotations: seq<Rotation>, p: seq<string>, q: seq<string>)
    requires RotationsLinear(rotations) && IsChain(rotations, p) && IsChain(rotations, q)
    requires p[0] == q[0] && |p| <= |q|
    ensures DescendsFrom(rotations, p[|p| - 1], q[|q| - 1])
  {
    ChainsNest(rotations, p, q, |p| - 1);
    var rest := q[|p| - 1..];
    assert ChainBetween(rotations, rest, p[|p| - 1], q[|q| - 1]);
  }

  /** Rotations along a chain happen in order. */
  lemma {:induction false} ChainEdgesInOrder(
      rotations: seq<Rotation>, chain: seq<string>, n: nat) returns (first: nat, last: nat)
    requires RotationsLinear(rotations) && IsChain(rotations, chain) && 0 < n < |chain|
    ensures first <= last < |rotations|
    ensures rotations[first].from == chain[0] && rotations[last] == Rotation(chain[n - 1], chain[n])
  {
    assert Rotation(chain[n - 1], chain[n]) in rotations;
    last :| 0 <= last < |rotations| && rotations[last] == Rotation(chain[n - 1], chain[n]);
    if n == 1 {
      first := last;
    } else {
      var previous;
      first, previous := ChainEdgesInOrder(rotations, chain, n - 1);
      assert rotations[previous].to == rotations[last].from;
    }
  }

  lemma {:induction false} DescendantDiffers(rotations: seq<Rotation>, chain: seq<string>)
    requires RotationsLinear(rotations) && IsChain(rotations, chain) && |chain| > 1
    ensures chain[0] != chain[|chain| - 1]
  {
    var first, last := ChainEdgesInOrder(rotations, chain, |chain| - 1);
  }

  /**
   At every moment of a run, any two sessions descending from the same session are in line, one
   before the other; the earlier one is revoked, belongs to the same user, and does not descend
   from the later one. So of one login's descendants at most the last is unrevoked.
   */
  lemma {:induction false} DescendantsFormChain(
      ws: seq<World>, events: seq<Event>, i: nat, origin: string, x: string, y: string)
    requires IsRun(ws, events) && Inv(ws[0]) && i < |ws|
    requires DescendsFrom(ws[i].rotations, origin, x)
    requires DescendsFrom(ws[i].rotations, origin, y)
    requires x != y
    ensures var now := ws[i];
            var rows := now.db.sessions.rows;
            && x in rows && y in rows && rows[x].userId == rows[y].userId
            && (rows[x].isRevoked || rows[y].isRevoked)
            && (DescendsFrom(now.rotations, x, y) <==> !DescendsFrom(now.rotations, y, x))
            && (DescendsFrom(now.rotations, x, y) ==> rows[x].isRevoked)
            && (DescendsFrom(now.rotations, y, x) ==> rows[y].isRevoked)
  {
    RunsKeepInv(ws, events, i);
    var now := ws[i];
    DescendantsInLine(now.rotations, origin, x, y);
    if DescendsFrom(now.rotations, x, y) {
      EarlierIsRevoked(now.rotations, now.db.sessions.rows, x, y);
    } else {
      EarlierIsRevoked(now.rotations, now.db.sessions.rows, y, x);
    }
  }

  lemma {:induction false} DescendantsInLine(rotations: seq<Rotation>, origin: string, x: string, y: string)
    requires RotationsLinear(rotations) && x != y
    requires DescendsFrom(rotations, origin, x) && DescendsFrom(rotations, origin, y)
    ensures DescendsFrom(rotations, x, y) <==> !DescendsFrom(rotations, y, x)
  {
    var p :| ChainBetween(rotations, p, origin, x);
    var q :| ChainBetween(rotations, q, origin, y);
    if |p| <= |q| {
      ShorterChainFirst(rotations, p, q);
    } else {
      ShorterChainFirst(rotations, q, p);
    }
    if DescendsFrom(rotations, x, y) && DescendsFrom(rotations, y, x) {
      var s :| ChainBetween(rotations, s, x, y);
      var t :| ChainBetween(rotations, t, y, x);
      assert IsChain(rotations, s + t[1..]);
      DescendantDiffers(rotations, s + t[1..]);
      assert false;
    }
  }

  lemma {:induction false} ChainOwner(
      rotations: seq<Rotation>, rows: map<string, SessionRow>, chain: seq<string>, n: nat)
    requires RotationsStored(rotations, rows) && IsChain(rotations, chain) && 0 < n < |chain|
    ensures chain[0] in rows && chain[n] in rows && rows[chain[0]].userId == rows[chain[n]].userId
    ensures rows[chain[0]].isRevoked
  {
    assert Rotation(chain[n - 1], chain[n]) in rotations;
    if n > 1 {
      ChainOwner(rotations, rows, chain, n - 1);
    }
  }

  lemma {:induction false} EarlierIsRevoked(
      rotations: seq<Rotation>, rows: map<string, SessionRow>, x: string, y: string)
    requires RotationsStored(rotations, rows) && x != y && DescendsFrom(rotations, x, y)
    ensures x in rows && y in rows && rows[x].isRevoked && rows[x].userId == rows[y].userId
  {
    var chain :| ChainBetween(rotations, chain, x, y);
    ChainOwner(rotations, rows, chain, |chain| - 1);
  }

  /** Every accepted refresh extends the chain of the session whose token was presented. */
  lemma {:induction false} RefreshExtendsChain(w: World, r: Request, origin: string)
    requires Inv(w) && r.Refresh? && Enabled(w, Serve(r)) && Accepts(w, Serve(r))
    requires DescendsFrom(w.rotations, origin, r.verified.value.sessionId)
    ensures DescendsFrom(Advance(w, Serve(r)).rotations, origin, r.newSessionId)
    ensures !Advance(w, Serve(r)).db.sessions.rows[r.newSessionId].isRevoked
  {
    AcceptedRefresh(w, r);
    var chain :| ChainBetween(w.rotations, chain, origin, r.verified.value.sessionId);
    assert ChainBetween(Advance(w, Serve(r)).rotations, chain + [r.newSessionId], origin, r.newSessionId);
  }

  // ---------------------------------------------------------------------------------------
  // Password reset

  /** The session's own conditions for a refresh at time t. */
  predicate RefreshableAt(row: SessionRow, t: int) {
    !row.isRevoked && !(t > row.expiresAt)
  }

  /**
   Right after a completed reset, at any time from then on, a session of the user can still be
   refreshed exactly if it was not revoked and expires at the very instant of the reset, which is
   also the time of the refresh. Other users' sessions are as they were.
   */
  lemma {:induction false} ResetCutoff(w: World, r: Request, id: string, t: int)
    requires Inv(w) && r.Reset? && Accepts(w, Serve(r))
    requires id in w.db.sessions.rows && t >= w.now
    ensures var before, after := w.db.sessions.rows[id], DbAfter(w, r).sessions.rows[id];
            if before.userId == w.db.resets[r.token].userId then
              (RefreshableAt(after, t) <==> !before.isRevoked && before.expiresAt == w.now && t == w.now)
            else after == before
  {
  }

  /**
   After a completed reset no session that existed at the reset is ever refreshed: strictly later in
   any case, and from that very instant on with a token that says when it expires.
   */
  lemma {:induction false} ResetEndsOldSessions(ws: seq<World>, events: seq<Event>, id: string, i: nat, j: nat)
    requires IsRun(ws, events) && Inv(ws[0]) && i < j < |events|
    requires events[i].Serve? && events[i].request.Reset? && Accepts(ws[i], events[i])
    requires id in ws[i].db.sessions.rows
    requires ws[i].db.sessions.rows[id].userId ==
             ws[i].db.resets[events[i].request.token].userId
    requires events[j].Serve? && events[j].request.Refresh?
    requires events[j].request.digest == ws[i].db.sessions.rows[id].refreshToken
    requires ws[j].now > ws[i].now || SaysExpiry(events[j].request)
    ensures !Accepts(ws[j], events[j])
  {
    EventsFollow(ws, events, i, j);
    RefusedAfterReset(ws[i], ws[j], events[i].request, events[j].request, id);
  }

  /** The presented token verifies and carries an `exp` other than zero. */
  predicate SaysExpiry(r: Request)
    requires r.Refresh?
  {
    r.verified.Some? && r.verified.value.exp.Some? && r.verified.value.exp.value != 0
  }

  lemma {:induction false} RefusedAfterReset(a: World, c: World, reset: Request, refresh: Request, id: string)
    requires Follows(a, Serve(reset), c, Serve(refresh)) && reset.Reset? && refresh.Refresh?
    requires Accepts(a, Serve(reset))
    requires c.now > a.now || SaysExpiry(refresh)
    requires id in a.db.sessions.rows && a.db.sessions.rows[id].userId == a.db.resets[reset.token].userId
    requires refresh.digest == a.db.sessions.rows[id].refreshToken
    ensures !Accepts(c, Serve(refresh))
  {
    var b := Advance(a, Serve(reset));
    ResetCutoff(a, reset, id, c.now);
    if RefreshableAt(b.db.sessions.rows[id], c.now) {
      ExpiringIsRefused(c, id, refresh);
    } else {
      NotRefreshablePersists(b, c, id);
      NotRefreshableIsRefused(c, id, refresh);
    }
  }

  /** At the instant of its expiry a session is no longer refreshed with a token that carries that expiry. */
  lemma {:induction false} ExpiringIsRefused(w: World, id: string, r: Request)
    requires Inv(w) && r.Refresh? && Enabled(w, Serve(r)) && SaysExpiry(r)
    requires id in w.db.sessions.rows && w.db.sessions.rows[id].refreshToken == r.digest
    requires w.now >= w.db.sessions.rows[id].expiresAt
    ensures !Accepts(w, Serve(r))
  {
  }

  lemma {:induction false} NotRefreshablePersists(a: World, b: World, id: string)
    requires Later(a, b) && id in a.db.sessions.rows && !RefreshableAt(a.db.sessions.rows[id], b.now)
    ensures id in b.db.sessions.rows && !RefreshableAt(b.db.sessions.rows[id], b.now)
    ensures b.db.sessions.rows[id].refreshToken == a.db.sessions.rows[id].refreshToken
  {
  }

  lemma {:induction false} NotRefreshableIsRefused(w: World, id: string, r: Request)
    requires Inv(w) && r.Refresh? && Enabled(w, Serve(r))
    requires id in w.db.sessions.rows && w.db.sessions.rows[id].refreshToken == r.digest
    requires !RefreshableAt(w.db.sessions.rows[id], w.now)
    ensures !Accepts(w, Serve(r))
  {
  }

  lemma {:induction false} RunsAddNoResets(ws: seq<World>, events: seq<Event>, token: string, i: nat, j: nat)
    requires IsRun(ws, events) && i <= j < |ws| && token !in ws[i].db.resets
    ensures token !in ws[j].db.resets
    decreases j
  {
    if i < j {
      RunsAddNoResets(ws, events, token, i, j - 1);
      assert Moves(ws, events, j - 1);
    }
  }

  /** In every run a reset token completes at most one reset. */
  lemma {:induction false} ResetTokenIsSpent(ws: seq<World>, events: seq<Event>, i: nat, j: nat)
    requires IsRun(ws, events) && i < j < |events|
    requires events[i].Serve? && events[i].request.Reset?
    requires events[j].Serve? && events[j].request.Reset?
    requires events[i].request.token == events[j].request.token
    ensures !(Accepts(ws[i], events[i]) && Accepts(ws[j], events[j]))
  {
    assert Moves(ws, events, i);
    if Accepts(ws[i], events[i]) {
      RunsAddNoResets(ws, events, events[i].request.token, i + 1, j);
    }
  }

  // ---------------------------------------------------------------------------------------
  // What a login or a refresh hands out can be used

  /** The refresh that presents the token issued to this user for this session. */
  function Presenting(sub: string, sessionId: string, digest: string, issuedExp: Option<int>,
                      newSessionId: string, newDigest: string, exp: Option<int>): Request
  {
    Refresh(Some(Claims(sub, sessionId, issuedExp)), digest, newSessionId, newDigest, exp)
  }

  /** Until its `exp`, or for seven days without one, a login's refresh token is accepted right after it. */
  lemma {:induction false} LoginTokenRefreshes(
      w: World, r: Request, userId: string, elapsed: nat, newSessionId: string, newDigest: string, exp: Option<int>)
    requires Inv(w) && r.Login? && Enabled(w, Serve(r)) && Accepts(w, Serve(r))
    requires userId in w.db.users.rows && r.email == Some(w.db.users.rows[userId].email)
    requires r.exp == None || r.exp == Some(0) ==> elapsed <= 604_800_000
    requires r.exp.Some? ==> w.now + elapsed < r.exp.value * 1000
    requires newSessionId !in w.usedIds && newSessionId != r.sessionId
    requires newDigest !in w.db.sessions.tokenIndex && newDigest != r.digest
    ensures var later := Advance(Advance(w, Serve(r)), Tick(elapsed));
            var refresh := Serve(Presenting(userId, r.sessionId, r.digest, r.exp, newSessionId, newDigest, exp));
            Enabled(later, refresh) && Accepts(later, refresh)
  {
  }

  /** The same for the token that a refresh hands out. */
  lemma {:induction false} RefreshTokenRefreshes(
      w: World, r: Request, elapsed: nat, newSessionId: string, newDigest: string, exp: Option<int>)
    requires Inv(w) && r.Refresh? && Enabled(w, Serve(r)) && Accepts(w, Serve(r))
    requires r.exp == None || r.exp == Some(0) ==> elapsed <= 604_800_000
    requires r.exp.Some? ==> w.now + elapsed < r.exp.value * 1000
    requires newSessionId !in w.usedIds && newSessionId != r.newSessionId
    requires newDigest !in w.db.sessions.tokenIndex && newDigest != r.newDigest
    ensures var later := Advance(Advance(w, Serve(r)), Tick(elapsed));
            var refresh := Serve(Presenting(r.verified.value.sub, r.newSessionId, r.newDigest, r.exp,
                                            newSessionId, newDigest, exp));
            Enabled(later, refresh) && Accepts(later, refresh)
  {
    AcceptedRefresh(w, r);
  }
}
