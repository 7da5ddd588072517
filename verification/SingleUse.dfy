/**
 Exactly when a session can be rotated again although it is stored as revoked. That is the reuse
 of a refresh token: the token is the only way to reach its session.
 */
module SingleUse {
  import opened Wrappers
  import opened IdentityModel
  import opened Interleaved
  import opened Serialization
  import opened Races
  import opened RaceConditions

  predicate StoredRevoked(s: System, x: string) {
    x in s.db.sessions.rows && s.db.sessions.rows[x].isRevoked
  }

  /** The user passes the lock check now, or may pass it once an older copy has been stored. */
  ghost predicate MayPassLockCheck(s: System, sub: string) {
    sub in s.db.users.rows && (!s.db.users.rows[sub].isLocked || UnlockedCopyHeld(s, sub))
  }

  /** A refresh that has loaded session x and has not yet issued its successor. */
  predicate Refreshing(p: Phase, x: string) {
    match p
    case RefreshLoaded(session, _, _) => session.id == x
    case RefreshRevoking(session, _) => session.id == x
    case Rotating(session, _) => session.id == x
    case _ => false
  }

  ghost predicate MayRotate(s: System, p: Phase, x: string) {
    Refreshing(p, x) && (p.RefreshLoaded? ==> MayPassLockCheck(s, p.sub))
  }

  ghost predicate RotationInFlight(s: System, x: string) {
    exists pid :: pid in s.procs && MayRotate(s, s.procs[pid], x)
  }

  /** This action issues a successor of session x. */
  predicate IssuesFor(s: System, a: Action, x: string) {
    a.IssueRotation? && a.pid in s.procs && s.procs[a.pid].Rotating? && s.procs[a.pid].session.id == x
  }

  /** Some action of the run issues a successor of session x. */
  predicate RotatedIn(s: System, actions: seq<Action>, x: string)
    decreases actions
  {
    actions != [] && (IssuesFor(s, actions[0], x) || RotatedIn(Act(s, actions[0]), actions[1..], x))
  }

  // ---------------------------------------------------------------------------------------
  // Without a refresh in flight there is no further rotation

  lemma {:induction false} LockCheckStays(s: System, a: Action, sub: string)
    requires ValidUsers(s.db.users) && !MayPassLockCheck(s, sub)
    ensures !MayPassLockCheck(Act(s, a), sub)
  {
    if sub in s.db.users.rows {
      ActKeepsLock(s, a, sub);
    } else if !a.Pass? && Writes(a) {
      WriteStoresCopy(s, a);
    } else {
      LocalStepsKeepTables(s, a);
    }
  }

  lemma {:induction false} RevokedIsNotLoaded(s: System, verified: Claims, digest: string, x: string)
    requires ValidSessions(s.db.sessions) && StoredRevoked(s, x)
    ensures var first := RefreshLookup(s, verified, digest);
            first.Some? ==> first.value.RefreshLoaded? && first.value.session.id != x
  {
  }

  /** A request in flight gets to refresh session x only if it was on its way and passes the lock check. */
  lemma {:induction false} NoneGoesOnRefreshing(s: System, a: Action, x: string)
    requires !a.Pass? && a.pid in s.procs && !MayRotate(s, s.procs[a.pid], x)
    ensures var after := Holding(Act(s, a), a.pid);
            after.Some? && Refreshing(after.value, x) ==> after == Holding(s, a.pid)
  {
  }

  /** No request starts to refresh a revoked session, and one that fails the lock check gets no further. */
  lemma {:induction false} NoneStartsRefreshing(s: System, a: Action, x: string)
    requires ValidSessions(s.db.sessions) && StoredRevoked(s, x) && !a.Pass?
    requires Holding(s, a.pid).Some? ==> !MayRotate(s, s.procs[a.pid], x)
    ensures var after := Holding(Act(s, a), a.pid);
            after.Some? && Refreshing(after.value, x) ==> after == Holding(s, a.pid)
  {
    if a.pid in s.procs {
      NoneGoesOnRefreshing(s, a, x);
    } else if a.StartRefresh? {
      RevokedIsNotLoaded(s, a.verified, a.digest, x);
    }
  }

  lemma {:induction false} ActStartsNoRotation(s: System, a: Action, x: string)
    requires ValidUsers(s.db.users) && ValidSessions(s.db.sessions)
    requires StoredRevoked(s, x) && !RotationInFlight(s, x)
    ensures !RotationInFlight(Act(s, a), x) && !IssuesFor(s, a, x)
  {
    var t := Act(s, a);
    forall q | q in t.procs
      ensures !MayRotate(t, t.procs[q], x)
    {
      if Refreshing(t.procs[q], x) {
        if a.Pass? || q != a.pid {
          OthersUntouched(s, a, q);
        } else {
          NoneStartsRefreshing(s, a, x);
        }
        assert Holding(t, q) == Holding(s, q) && !MayRotate(s, s.procs[q], x);
        LockCheckStays(s, a, t.procs[q].sub);
      }
    }
  }

  lemma {:induction false} RunsStartNoRotation(s: System, actions: seq<Action>, x: string)
    requires SystemOk(s) && StoredRevoked(s, x) && !RotationInFlight(s, x)
    requires PermittedRun(s, actions)
    ensures !RotatedIn(s, actions, x) && !RotationInFlight(Exec(s, actions), x)
    decreases actions
  {
    if actions != [] {
      ActStartsNoRotation(s, actions[0], x);
      ActKeepsOk(s, actions[0]);
      RunsStartNoRotation(Act(s, actions[0]), actions[1..], x);
    }
  }

  // ---------------------------------------------------------------------------------------
  // With one in flight there is a run that ends with another successor stored

  lemma {:induction false} LongerThanAll(used: set<string>) returns (n: nat)
    ensures forall u :: u in used ==> |u| < n
  {
    n := 0;
    if u :| u in used {
      n := LongerThanAll(used - {u});
      n := if |u| < n then n else |u| + 1;
      assert forall v :: v in used && v != u ==> v in used - {u};
    }
  }

  lemma {:induction false} FreshString(used: set<string>) returns (s: string)
    ensures s !in used
  {
    var n := LongerThanAll(used);
    s := seq(n, _ => 'x');
  }

  ghost predicate SuccessorStored(
      before: map<string, SessionRow>, after: map<string, SessionRow>, x: string, id: string)
  {
    && x in before && id !in before && id in after
    && !after[id].isRevoked && after[id].userId == before[x].userId
  }

  /** A permitted run that issues a successor of session x. */
  ghost predicate RunIssues(s: System, run: seq<Action>, x: string) {
    PermittedRun(s, run) && RotatedIn(s, run, x)
  }

  /** Such a run that ends with the successor stored, unrevoked, for the same user. */
  ghost predicate RunRotates(s: System, run: seq<Action>, x: string, id: string) {
    && RunIssues(s, run, x)
    && SuccessorStored(s.db.sessions.rows, Exec(s, run).db.sessions.rows, x, id)
  }

  /** The same sessions with the same owners. */
  ghost predicate SameOwners(s: System, t: System) {
    && t.db.sessions.rows.Keys == s.db.sessions.rows.Keys
    && forall x :: x in s.db.sessions.rows ==> t.db.sessions.rows[x].userId == s.db.sessions.rows[x].userId
  }

  lemma {:induction false} RunAfter(s: System, first: seq<Action>, run: seq<Action>, x: string, id: string)
    requires PermittedRun(s, first) && RunRotates(Exec(s, first), run, x, id)
    requires SameOwners(s, Exec(s, first))
    ensures RunRotates(s, first + run, x, id)
  {
    ExecAppend(s, first, run);
    PermittedAppend(s, first, run);
    RotatedAppend(s, first, run, x);
  }

  lemma {:induction false} RotatedAppend(s: System, first: seq<Action>, run: seq<Action>, x: string)
    requires RotatedIn(Exec(s, first), run, x)
    ensures RotatedIn(s, first + run, x)
    decreases first
  {
    if first == [] {
      assert first + run == run;
    } else {
      assert (first + run)[1..] == first[1..] + run;
      RotatedAppend(Act(s, first[0]), first[1..], run, x);
    }
  }

  lemma {:induction false} RotateFromRotating(s: System, pid: nat, x: string) returns (run: seq<Action>, id: string)
    requires TablesOk(s.db, s.reserved) && pid in s.procs
    requires s.procs[pid].Rotating? && s.procs[pid].session.id == x && SessionCopy(s.db.sessions, s.procs[pid].session)
    ensures RunRotates(s, run, x, id)
  {
    var session, at := s.procs[pid].session, s.procs[pid].at;
    id := FreshString(s.reserved);
    var digest := FreshString(s.db.sessions.tokenIndex.Keys);
    run := [IssueRotation(pid, id, digest, None), StoreNew(pid)];
    IssueAndStore(s, pid, session, at, id, digest, None);
    RunTwo(s, run[0], run[1]);
    assert IssuesFor(s, run[0], x);
  }

  lemma {:induction false} RotateFromRevoking(s: System, pid: nat, x: string) returns (run: seq<Action>, id: string)
    requires SystemOk(s) && pid in s.procs
    requires s.procs[pid].RefreshRevoking? && s.procs[pid].session.id == x
    ensures RunRotates(s, run, x, id)
  {
    var first := StoreRevoked(pid);
    var t := Act(s, first);
    ActKeepsOk(s, first);
    RevokingMovesOn(s, pid);
    run, id := RotateFromRotating(t, pid, x);
    RunOne(s, first);
    RunAfter(s, [first], run, x, id);
    run := [first] + run;
  }

  lemma {:induction false} RevokingMovesOn(s: System, pid: nat)
    requires pid in s.procs && s.procs[pid].RefreshRevoking? && s.procs[pid].session.id in s.db.sessions.rows
    ensures var t := Act(s, StoreRevoked(pid));
            Holding(t, pid) == Some(Rotating(s.procs[pid].session, s.procs[pid].at)) && SameOwners(s, t)
  {
  }

  lemma {:induction false} RotateFromLoaded(s: System, pid: nat, x: string) returns (run: seq<Action>, id: string)
    requires SystemOk(s) && pid in s.procs
    requires s.procs[pid].RefreshLoaded? && s.procs[pid].session.id == x
    requires StoredUnlocked(s, s.procs[pid].sub)
    ensures RunRotates(s, run, x, id)
  {
    var first := LoadRefreshUser(pid);
    ActKeepsOk(s, first);
    LocalStepsKeepTables(s, first);
    run, id := RotateFromRevoking(Act(s, first), pid, x);
    RunOne(s, first);
    RunAfter(s, [first], run, x, id);
    run := [first] + run;
  }

  /** A locked user's refresh first waits for the older copy to be stored. */
  lemma {:induction false} RotateOnceUnlocked(s: System, pid: nat, x: string) returns (run: seq<Action>, id: string)
    requires SystemOk(s) && pid in s.procs && s.procs[pid].RefreshLoaded? && s.procs[pid].session.id == x
    requires StoredLocked(s, s.procs[pid].sub) && UnlockedCopyHeld(s, s.procs[pid].sub)
    ensures RunRotates(s, run, x, id)
  {
    var sub := s.procs[pid].sub;
    var holder :| holder in s.procs && HoldsUnlocked(s.procs[holder], sub);
    var first := StoreCopy(holder, s.procs[holder]);
    CopyUnlocks(s, holder, sub);
    InterleavingKeepsSafety(s, first);
    assert Holding(Exec(s, first), pid) == Holding(s, pid);
    run, id := RotateFromLoaded(Exec(s, first), pid, x);
    RunAfter(s, first, run, x, id);
    run := first + run;
  }

  lemma {:induction false} InFlightRotates(s: System, x: string) returns (run: seq<Action>, id: string)
    requires SystemOk(s) && RotationInFlight(s, x)
    ensures RunRotates(s, run, x, id)
  {
    var pid :| pid in s.procs && MayRotate(s, s.procs[pid], x);
    assert PhaseOk(s.db, s.reserved, s.procs[pid]);
    match s.procs[pid]
    case Rotating(_, _) => run, id := RotateFromRotating(s, pid, x);
    case RefreshRevoking(_, _) => run, id := RotateFromRevoking(s, pid, x);
    case RefreshLoaded(_, sub, _) =>
      if s.db.users.rows[sub].isLocked {
        run, id := RotateOnceUnlocked(s, pid, x);
      } else {
        run, id := RotateFromLoaded(s, pid, x);
      }
  }

  /**
   From a state in which a session is stored as revoked, some interleaving rotates it exactly if a
   refresh in flight has loaded it already and its user passes, or may yet pass, the lock check.
   Otherwise no run ever issues a successor; if so, some run ends with one stored and unrevoked.
   */
  lemma {:induction false} RotatedAgainIffInFlight(s: System, x: string)
    requires SystemOk(s) && StoredRevoked(s, x)
    ensures RotationInFlight(s, x) <==> exists run :: RunIssues(s, run, x)
    ensures RotationInFlight(s, x) <==> exists run, id :: RunRotates(s, run, x, id)
  {
    if RotationInFlight(s, x) {
      var run, id := InFlightRotates(s, x);
      assert RunIssues(s, run, x);
    } else {
      forall run | PermittedRun(s, run)
        ensures !RunIssues(s, run, x)
      {
        RunsStartNoRotation(s, run, x);
      }
    }
  }
}
