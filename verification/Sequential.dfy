/**
 A run of the interleaved model in which requests do not overlap is a sequential run: request by
 request it leaves the tables as the atomic steps do, so every property of sequential runs holds
 of it.
 */
module Sequential {
  import opened Wrappers
  import opened IdentityModel
  import opened Lifecycle
  import Interleaved
  import opened Serialization

  type System = Interleaved.System
  type Action = Interleaved.Action

  /** The actions of one request from its first to its last; `listed` is what a reset's query returns. */
  function Script(pid: nat, r: Request, listed: seq<SessionRow>): seq<Action> {
    match r
    case Login(email, valid, id, digest, exp) =>
      if email.None? then []
      else
        [Interleaved.StartLogin(pid, email.value), Interleaved.VerifyPassword(pid, valid), Interleaved.StoreLogin(pid)]
        + [Interleaved.IssueLogin(pid, id, digest, exp), Interleaved.StoreNew(pid)]
    case Refresh(verified, digest, id, newDigest, exp) =>
      if verified.None? then []
      else
        [Interleaved.StartRefresh(pid, verified.value, digest), Interleaved.LoadRefreshUser(pid),
         Interleaved.StoreRevoked(pid)]
        + [Interleaved.IssueRotation(pid, id, newDigest, exp), Interleaved.StoreNew(pid)]
    case Logout(accessSession, refreshSession, digest) =>
      LogoutActions(pid, LogoutTarget(accessSession, refreshSession), digest)
    case Reset(token, newHash) =>
      ResetOpening(pid, token, newHash) + ResetRest(pid, listed)
    case VerifyEmail(token) => VerifyActions(pid, token)
  }

  function EventScript(pid: nat, e: Event, listed: seq<SessionRow>): seq<Action> {
    match e
    case Tick(elapsed) => [Interleaved.Pass(elapsed)]
    case Serve(r) => Script(pid, r, listed)
  }

  /** A reset that succeeds lists its user's active sessions, each once; nothing else lists any. */
  ghost predicate ListsFor(w: World, e: Event, listed: seq<SessionRow>) {
    if e.Serve? && e.request.Reset? && Respond(w, e.request).Ok? then
      Interleaved.Lists(w.db.sessions, w.db.resets[e.request.token].userId, w.now, listed)
    else listed == []
  }

  // ---------------------------------------------------------------------------------------
  // Clock and UUIDs over one script

  predicate Plain(a: Action) {
    !a.IssueLogin? && !a.IssueRotation? && !a.ListSessions? && !a.Pass?
  }

  lemma {:induction false} PlainAct(s: System, a: Action)
    requires Plain(a)
    ensures Interleaved.Permitted(s, a)
    ensures Interleaved.Act(s, a).now == s.now && Interleaved.Act(s, a).reserved == s.reserved
  {
  }

  lemma {:induction false} PlainRun(s: System, actions: seq<Action>)
    requires forall a :: a in actions ==> Plain(a)
    ensures Interleaved.PermittedRun(s, actions)
    ensures Interleaved.Exec(s, actions).now == s.now && Interleaved.Exec(s, actions).reserved == s.reserved
    decreases actions
  {
    if actions != [] {
      PlainAct(s, actions[0]);
      PlainRun(Interleaved.Act(s, actions[0]), actions[1..]);
    }
  }

  lemma {:induction false} ExecMixed(s: System, first: seq<Action>, a: Action, rest: seq<Action>)
    ensures Interleaved.Exec(s, first + ([a] + rest)) ==
            Interleaved.Exec(Interleaved.Act(Interleaved.Exec(s, first), a), rest)
  {
    ExecAppend(s, first, [a] + rest);
    ExecCons(Interleaved.Exec(s, first), a, rest);
  }

  /** Plain actions around one that is not: permitted if that one is. */
  lemma {:induction false} MixedPermitted(s: System, first: seq<Action>, a: Action, rest: seq<Action>)
    requires forall b :: b in first || b in rest ==> Plain(b)
    requires Interleaved.Permitted(Interleaved.Exec(s, first), a)
    ensures Interleaved.PermittedRun(s, first + ([a] + rest))
  {
    PlainRun(s, first);
    PlainRun(Interleaved.Act(Interleaved.Exec(s, first), a), rest);
    assert ([a] + rest)[1..] == rest;
    PermittedAppend(s, first, [a] + rest);
  }

  /** They keep the clock and take no UUID but the one issued by the one that is not plain. */
  lemma {:induction false} MixedRun(s: System, first: seq<Action>, a: Action, rest: seq<Action>)
    requires forall b :: b in first || b in rest ==> Plain(b)
    requires !a.Pass?
    ensures var t := Interleaved.Exec(s, first + ([a] + rest));
            t.now == s.now && t.reserved <= s.reserved + if a.IssueLogin? || a.IssueRotation? then {a.id} else {}
  {
    PlainRun(s, first);
    OneActReserves(Interleaved.Exec(s, first), a);
    PlainRun(Interleaved.Act(Interleaved.Exec(s, first), a), rest);
    ExecMixed(s, first, a, rest);
  }

  lemma {:induction false} OneActReserves(s: System, a: Action)
    requires !a.Pass?
    ensures Interleaved.Act(s, a).now == s.now
    ensures Interleaved.Act(s, a).reserved <= s.reserved + if a.IssueLogin? || a.IssueRotation? then {a.id} else {}
  {
  }

  // ---------------------------------------------------------------------------------------
  // One request at a time

  ghost predicate TokensKeyed(db: IdentityDb) {
    && (forall token :: token in db.resets ==> db.resets[token].token == token)
    && (forall token :: token in db.verifications ==> db.verifications[token].token == token)
  }

  /** The same clock and tables, no request in flight, no UUID taken that the history does not know. */
  ghost predicate Matches(w: World, s: System) {
    s.now == w.now && s.db == w.db && s.procs == map[] && s.reserved <= w.usedIds
  }

  lemma {:induction false} LoginAlone(w: World, s: System, pid: nat, r: Request)
    requires Matches(w, s) && r.Login? && Enabled(w, Serve(r))
    ensures Interleaved.PermittedRun(s, Script(pid, r, []))
    ensures Matches(Advance(w, Serve(r)), Interleaved.Exec(s, Script(pid, r, [])))
  {
    if r.email.Some? {
      var first := [Interleaved.StartLogin(pid, r.email.value), Interleaved.VerifyPassword(pid, r.passwordValid),
                    Interleaved.StoreLogin(pid)];
      var issue := Interleaved.IssueLogin(pid, r.sessionId, r.digest, r.exp);
      PlainRun(s, first);
      MixedPermitted(s, first, issue, [Interleaved.StoreNew(pid)]);
      MixedRun(s, first, issue, [Interleaved.StoreNew(pid)]);
      assert [issue] + [Interleaved.StoreNew(pid)] == [issue, Interleaved.StoreNew(pid)];
      assert Script(pid, r, []) == [first[0], first[1], first[2], issue, Interleaved.StoreNew(pid)];
      LoneLogin(s, pid, r.email.value, r.passwordValid, r.sessionId, r.digest, r.exp);
    }
  }

  lemma {:induction false} RefreshAlone(w: World, s: System, pid: nat, r: Request)
    requires Matches(w, s) && r.Refresh? && Enabled(w, Serve(r))
    ensures Interleaved.PermittedRun(s, Script(pid, r, []))
    ensures Matches(Advance(w, Serve(r)), Interleaved.Exec(s, Script(pid, r, [])))
  {
    if r.verified.Some? {
      var first := [Interleaved.StartRefresh(pid, r.verified.value, r.digest), Interleaved.LoadRefreshUser(pid),
                    Interleaved.StoreRevoked(pid)];
      var issue := Interleaved.IssueRotation(pid, r.newSessionId, r.newDigest, r.exp);
      PlainRun(s, first);
      MixedPermitted(s, first, issue, [Interleaved.StoreNew(pid)]);
      MixedRun(s, first, issue, [Interleaved.StoreNew(pid)]);
      assert [issue] + [Interleaved.StoreNew(pid)] == [issue, Interleaved.StoreNew(pid)];
      assert Script(pid, r, []) == [first[0], first[1], first[2], issue, Interleaved.StoreNew(pid)];
      LoneRefresh(s, pid, r.verified.value, r.digest, r.newSessionId, r.newDigest, r.exp);
    }
  }

  lemma {:induction false} LogoutAlone(w: World, s: System, pid: nat, r: Request)
    requires Matches(w, s) && r.Logout?
    ensures Interleaved.PermittedRun(s, Script(pid, r, []))
    ensures Matches(Advance(w, Serve(r)), Interleaved.Exec(s, Script(pid, r, [])))
  {
    PlainRun(s, Script(pid, r, []));
    LoneLogout(s, pid, r.accessSession, r.refreshSession, r.digest);
  }

  lemma {:induction false} RepeatIsPlain(a: Action, n: nat)
    requires Plain(a)
    ensures forall b :: b in Repeat(a, n) ==> Plain(b)
  {
    if n > 0 {
      RepeatIsPlain(a, n - 1);
    }
  }

  lemma {:induction false} ResetAlone(w: World, s: System, pid: nat, r: Request, listed: seq<SessionRow>)
    requires Matches(w, s) && TablesValid(w) && TokensKeyed(w.db) && r.Reset? && ListsFor(w, Serve(r), listed)
    ensures Interleaved.PermittedRun(s, Script(pid, r, listed))
    ensures Matches(Advance(w, Serve(r)), Interleaved.Exec(s, Script(pid, r, listed)))
  {
    RepeatIsPlain(Interleaved.StoreRevoked(pid), |listed|);
    ResetListsPermitted(w, s, pid, r, listed);
    MixedPermitted(s, ResetOpening(pid, r.token, r.newHash), Interleaved.ListSessions(pid, listed),
                   Repeat(Interleaved.StoreRevoked(pid), |listed|));
    MixedRun(s, ResetOpening(pid, r.token, r.newHash), Interleaved.ListSessions(pid, listed),
             Repeat(Interleaved.StoreRevoked(pid), |listed|));
    if Respond(w, r).Ok? {
      LoneReset(s, pid, r.token, r.newHash, listed);
    } else {
      RefusedResetRuns(s, pid, r.token, r.newHash);
    }
  }

  lemma {:induction false} ResetListsPermitted(w: World, s: System, pid: nat, r: Request, listed: seq<SessionRow>)
    requires Matches(w, s) && TablesValid(w) && TokensKeyed(w.db) && r.Reset? && ListsFor(w, Serve(r), listed)
    ensures Interleaved.Permitted(Interleaved.Exec(s, ResetOpening(pid, r.token, r.newHash)),
                                  Interleaved.ListSessions(pid, listed))
  {
    if Respond(w, r).Ok? {
      ResetUntilListed(s, pid, r.token, r.newHash);
    } else {
      LoneResetRefused(s, pid, r.token, r.newHash);
    }
  }

  lemma {:induction false} RefusedResetRuns(s: System, pid: nat, token: string, newHash: string)
    requires pid !in s.procs && ResetStep(s.db, s.now, token, newHash).result.Err?
    ensures var t := Interleaved.Exec(s, ResetOpening(pid, token, newHash) + ResetRest(pid, []));
            t.db == s.db && t.procs == s.procs
  {
    ExecAppend(s, ResetOpening(pid, token, newHash), ResetRest(pid, []));
    LoneResetRefused(s, pid, token, newHash);
    assert ResetRest(pid, []) == [Interleaved.ListSessions(pid, [])];
    ActEnded(s, s.db, s.reserved, pid, Interleaved.ListSessions(pid, []));
    ExecOne(With(s, s.db, s.reserved, pid, None), Interleaved.ListSessions(pid, []));
  }

  lemma {:induction false} VerifyAlone(w: World, s: System, pid: nat, r: Request)
    requires Matches(w, s) && TokensKeyed(w.db) && r.VerifyEmail?
    ensures Interleaved.PermittedRun(s, Script(pid, r, []))
    ensures Matches(Advance(w, Serve(r)), Interleaved.Exec(s, Script(pid, r, [])))
  {
    PlainRun(s, Script(pid, r, []));
    LoneVerify(s, pid, r.token);
  }

  lemma {:induction false} EventAlone(w: World, s: System, pid: nat, e: Event, listed: seq<SessionRow>)
    requires Matches(w, s) && TablesValid(w) && TokensKeyed(w.db) && Enabled(w, e) && ListsFor(w, e, listed)
    ensures Interleaved.PermittedRun(s, EventScript(pid, e, listed))
    ensures Matches(Advance(w, e), Interleaved.Exec(s, EventScript(pid, e, listed)))
  {
    match e
    case Tick(elapsed) => assert [Interleaved.Pass(elapsed)][1..] == [];
    case Serve(r) =>
      match r
      case Login(_, _, _, _, _) => LoginAlone(w, s, pid, r);
      case Refresh(_, _, _, _, _) => RefreshAlone(w, s, pid, r);
      case Logout(_, _, _) => LogoutAlone(w, s, pid, r);
      case Reset(_, _) => ResetAlone(w, s, pid, r, listed);
      case VerifyEmail(_) => VerifyAlone(w, s, pid, r);
  }

  /** There is always a listing, so every reset has a script. */
  lemma {:induction false} ListingExists(t: SessionTable, ids: set<string>) returns (listed: seq<SessionRow>)
    requires forall id :: id in ids ==> id in t.rows && t.rows[id].id == id
    ensures forall i :: 0 <= i < |listed| ==> listed[i].id in ids && listed[i] == t.rows[listed[i].id]
    ensures forall i, j :: 0 <= i < j < |listed| ==> listed[i].id != listed[j].id
    ensures forall id :: id in ids ==> t.rows[id] in listed
  {
    if id :| id in ids {
      var rest := ListingExists(t, ids - {id});
      listed := [t.rows[id]] + rest;
      assert forall k :: k in ids && k != id ==> k in ids - {id};
    } else {
      listed := [];
    }
  }

  lemma {:induction false} EventHasScript(w: World, e: Event) returns (listed: seq<SessionRow>)
    requires TablesValid(w)
    ensures ListsFor(w, e, listed)
  {
    listed := [];
    if e.Serve? && e.request.Reset? && Respond(w, e.request).Ok? {
      listed := ListingExists(w.db.sessions, ActiveIds(w.db.sessions, w.db.resets[e.request.token].userId, w.now));
    }
  }

  // ---------------------------------------------------------------------------------------
  // Whole runs

  function RunScript(events: seq<Event>, listings: seq<seq<SessionRow>>): seq<Action>
    requires |listings| == |events|
  {
    if events == [] then []
    else
      RunScript(events[..|events| - 1], listings[..|events| - 1])
      + EventScript(|events|, events[|events| - 1], listings[|events| - 1])
  }

  lemma {:induction false} RunsKeepTokensKeyed(ws: seq<World>, events: seq<Event>, i: nat)
    requires IsRun(ws, events) && TokensKeyed(ws[0].db) && i < |ws|
    ensures TokensKeyed(ws[i].db)
  {
    if i > 0 {
      RunsKeepTokensKeyed(ws, events, i - 1);
      assert Moves(ws, events, i - 1);
    }
  }

  /**
   Serving the events of any sequential run one after another in the interleaved model is permitted
   and ends with the tables and the clock of that run.
   */
  lemma {:induction false} RunsWithoutOverlapAreSequential(
      ws: seq<World>, events: seq<Event>, listings: seq<seq<SessionRow>>, s: System)
    requires IsRun(ws, events) && Inv(ws[0]) && TokensKeyed(ws[0].db) && Matches(ws[0], s)
    requires |listings| == |events| && forall i :: 0 <= i < |events| ==> ListsFor(ws[i], events[i], listings[i])
    ensures Interleaved.PermittedRun(s, RunScript(events, listings))
    ensures Matches(ws[|events|], Interleaved.Exec(s, RunScript(events, listings)))
    decreases |events|
  {
    if events != [] {
      var n := |events| - 1;
      RunPrefix(ws, events, n);
      RunsWithoutOverlapAreSequential(ws[..n + 1], events[..n], listings[..n], s);
      RunsKeepInv(ws, events, n);
      RunsKeepTokensKeyed(ws, events, n);
      assert Moves(ws, events, n);
      var before := RunScript(events[..n], listings[..n]);
      EventAlone(ws[n], Interleaved.Exec(s, before), |events|, events[n], listings[n]);
      ExecAppend(s, before, EventScript(|events|, events[n], listings[n]));
      PermittedAppend(s, before, EventScript(|events|, events[n], listings[n]));
    }
  }

  lemma {:induction false} RunPrefix(ws: seq<World>, events: seq<Event>, n: nat)
    requires IsRun(ws, events) && n <= |events|
    ensures IsRun(ws[..n + 1], events[..n])
  {
    var worlds, served := ws[..n + 1], events[..n];
    forall i | 0 <= i < n
      ensures Moves(worlds, served, i)
    {
      assert Moves(ws, events, i);
    }
  }
}
