/**
 Exactly when overlapping requests take something away: from which states a lock can be lost, a
 session rotated after its revocation, or a password put back. Each condition is about the copies
 that requests in flight hold; where no such copy is held, the guarantee survives every
 interleaving, and where one is, some run defeats it.
 */
module RaceConditions {
  import opened Wrappers
  import opened IdentityModel
  import opened Interleaved

  // ---------------------------------------------------------------------------------------
  // Runs, one action at a time

  /** An action moves no request but its own. */
  lemma {:induction false} OthersUntouched(s: System, a: Action, q: nat)
    requires a.Pass? || q != a.pid
    ensures Holding(Act(s, a), q) == Holding(s, q)
  {
  }

  lemma {:induction false} RunCons(s: System, a: Action, rest: seq<Action>)
    ensures Exec(s, [a] + rest) == Exec(Act(s, a), rest)
    ensures PermittedRun(s, [a] + rest) <==> Permitted(s, a) && PermittedRun(Act(s, a), rest)
  {
    assert ([a] + rest)[1..] == rest;
  }

  lemma {:induction false} RunOne(s: System, a: Action)
    ensures Exec(s, [a]) == Act(s, a)
    ensures PermittedRun(s, [a]) <==> Permitted(s, a)
  {
    RunCons(s, a, []);
    assert [a] + [] == [a];
  }

  lemma {:induction false} RunTwo(s: System, a: Action, b: Action)
    ensures Exec(s, [a, b]) == Act(Act(s, a), b)
    ensures PermittedRun(s, [a, b]) <==> Permitted(s, a) && Permitted(Act(s, a), b)
  {
    RunCons(s, a, [b]);
    RunOne(Act(s, a), b);
    assert [a] + [b] == [a, b];
  }

  // ---------------------------------------------------------------------------------------
  // When a lock can be lost

  /** The user a request holds in memory and may yet store. */
  function HeldUser(p: Phase): Option<UserRow> {
    match p
    case LoginLoaded(user) => Some(user)
    case LoginStoring(user, _) => Some(user)
    case ResetHashing(_, user) => Some(user)
    case TokenStoring(_, _, user) => Some(user)
    case _ => None
  }

  predicate HoldsUnlocked(p: Phase, id: string) {
    HeldUser(p).Some? && HeldUser(p).value.id == id && !HeldUser(p).value.isLocked
  }

  ghost predicate UnlockedCopyHeld(s: System, id: string) {
    exists pid :: pid in s.procs && HoldsUnlocked(s.procs[pid], id)
  }

  predicate StoredLocked(s: System, id: string) {
    id in s.db.users.rows && s.db.users.rows[id].isLocked
  }

  predicate StoredUnlocked(s: System, id: string) {
    id in s.db.users.rows && !s.db.users.rows[id].isLocked
  }

  /** The copy a request holds after an action, if any. */
  function CopyAfter(s: System, a: Action): Option<UserRow>
    requires !a.Pass?
  {
    var next := Holding(Act(s, a), a.pid);
    if next.None? then None else HeldUser(next.value)
  }

  function CopyBefore(s: System, pid: nat): Option<UserRow> {
    if pid in s.procs then HeldUser(s.procs[pid]) else None
  }

  /** A copy comes from the stored row or from the copy before; a step never unlocks it. */
  lemma {:induction false} CopyOrigin(s: System, a: Action)
    requires ValidUsers(s.db.users) && !a.Pass? && !Writes(a) && CopyAfter(s, a).Some?
    ensures var u := CopyAfter(s, a).value;
            || (u.id in s.db.users.rows && u.isLocked == s.db.users.rows[u.id].isLocked)
            || (var before := CopyBefore(s, a.pid);
                before.Some? && before.value.id == u.id && (before.value.isLocked ==> u.isLocked))
  {
  }

  lemma {:induction false} LocalStepsKeepTables(s: System, a: Action)
    requires a.Pass? || !Writes(a)
    ensures Act(s, a).db == s.db
  {
  }

  /** A write stores at most the copy its request holds, which does not change meanwhile. */
  lemma {:induction false} WriteStoresCopy(s: System, a: Action)
    requires Writes(a)
    ensures Act(s, a).db.users == s.db.users ||
            (CopyBefore(s, a.pid).Some? && Act(s, a).db.users == StoreUser(s.db.users, CopyBefore(s, a.pid).value))
    ensures CopyAfter(s, a).Some? ==> CopyAfter(s, a) == CopyBefore(s, a.pid)
  {
  }

  /** What one request does leaves a locked user locked if it held no unlocked copy, and takes none. */
  lemma {:induction false} RequestKeepsLock(s: System, a: Action, id: string)
    requires ValidUsers(s.db.users) && StoredLocked(s, id) && !a.Pass?
    requires Holding(s, a.pid).Some? ==> !HoldsUnlocked(s.procs[a.pid], id)
    ensures StoredLocked(Act(s, a), id)
    ensures Holding(Act(s, a), a.pid).Some? ==> !HoldsUnlocked(Act(s, a).procs[a.pid], id)
  {
    if Writes(a) {
      WriteStoresCopy(s, a);
    } else {
      LocalStepsKeepTables(s, a);
      LocalKeepsLock(s, a, id);
    }
  }

  lemma {:induction false} LocalKeepsLock(s: System, a: Action, id: string)
    requires ValidUsers(s.db.users) && StoredLocked(s, id) && !a.Pass? && !Writes(a)
    requires Holding(s, a.pid).Some? ==> !HoldsUnlocked(s.procs[a.pid], id)
    ensures Holding(Act(s, a), a.pid).Some? ==> !HoldsUnlocked(Act(s, a).procs[a.pid], id)
  {
    if CopyAfter(s, a).Some? {
      CopyOrigin(s, a);
    }
  }

  lemma {:induction false} ActKeepsLock(s: System, a: Action, id: string)
    requires ValidUsers(s.db.users) && StoredLocked(s, id) && !UnlockedCopyHeld(s, id)
    ensures StoredLocked(Act(s, a), id) && !UnlockedCopyHeld(Act(s, a), id)
  {
    var t := Act(s, a);
    if !a.Pass? {
      RequestKeepsLock(s, a, id);
    }
    forall q | q in t.procs
      ensures !HoldsUnlocked(t.procs[q], id)
    {
      if a.Pass? || q != a.pid {
        OthersUntouched(s, a, q);
        assert Holding(t, q) == Holding(s, q);
      }
    }
  }

  lemma {:induction false} RunsKeepLock(s: System, actions: seq<Action>, id: string)
    requires SystemOk(s) && StoredLocked(s, id) && !UnlockedCopyHeld(s, id)
    requires PermittedRun(s, actions)
    ensures StoredLocked(Exec(s, actions), id) && !UnlockedCopyHeld(Exec(s, actions), id)
    decreases actions
  {
    if actions != [] {
      ActKeepsLock(s, actions[0], id);
      ActKeepsOk(s, actions[0]);
      RunsKeepLock(Act(s, actions[0]), actions[1..], id);
    }
  }

  /** What the holder of an unlocked copy still has to do to store it. */
  function StoreCopy(pid: nat, held: Phase): seq<Action> {
    match held
    case LoginLoaded(_) => [VerifyPassword(pid, true), StoreLogin(pid)]
    case LoginStoring(_, _) => [StoreLogin(pid)]
    case ResetHashing(_, user) => [HashPassword(pid, user.passwordHash + "'"), StoreTokenUser(pid)]
    case _ => [StoreTokenUser(pid)]
  }

  lemma {:induction false} LoginStoresCopy(s: System, pid: nat, user: UserRow)
    requires Holding(s, pid) == Some(LoginLoaded(user))
    ensures var run := [VerifyPassword(pid, true), StoreLogin(pid)];
            && PermittedRun(s, run)
            && Exec(s, run).db == s.db.(users := StoreUser(s.db.users, SuccessfulLogin(user)))
            && forall q :: q != pid ==> Holding(Exec(s, run), q) == Holding(s, q)
  {
    RunTwo(s, VerifyPassword(pid, true), StoreLogin(pid));
    assert Holding(Act(s, VerifyPassword(pid, true)), pid) == Some(LoginStoring(SuccessfulLogin(user), true));
  }

  lemma {:induction false} ResetStoresCopy(s: System, pid: nat, reset: TokenRow, user: UserRow, newHash: string)
    requires Holding(s, pid) == Some(ResetHashing(reset, user)) && newHash != user.passwordHash
    ensures var run := [HashPassword(pid, newHash), StoreTokenUser(pid)];
            && PermittedRun(s, run)
            && Exec(s, run).db == s.db.(users := StoreUser(s.db.users, user.(passwordHash := newHash)))
            && forall q :: q != pid ==> Holding(Exec(s, run), q) == Holding(s, q)
  {
    RunTwo(s, HashPassword(pid, newHash), StoreTokenUser(pid));
    assert Holding(Act(s, HashPassword(pid, newHash)), pid) ==
           Some(TokenStoring(PasswordReset, reset, user.(passwordHash := newHash)));
  }

  lemma {:induction false} CopyUnlocks(s: System, pid: nat, id: string)
    requires id in s.db.users.rows
    requires pid in s.procs && HoldsUnlocked(s.procs[pid], id)
    ensures PermittedRun(s, StoreCopy(pid, s.procs[pid]))
    ensures StoredUnlocked(Exec(s, StoreCopy(pid, s.procs[pid])), id)
    ensures Exec(s, StoreCopy(pid, s.procs[pid])).db.sessions == s.db.sessions
    ensures forall q :: q != pid ==> Holding(Exec(s, StoreCopy(pid, s.procs[pid])), q) == Holding(s, q)
  {
    match s.procs[pid]
    case LoginLoaded(user) => LoginStoresCopy(s, pid, user);
    case LoginStoring(_, _) => RunOne(s, StoreLogin(pid));
    case ResetHashing(reset, user) =>
      assert |user.passwordHash + "'"| > |user.passwordHash|;
      ResetStoresCopy(s, pid, reset, user, user.passwordHash + "'");
    case TokenStoring(_, _, _) => RunOne(s, StoreTokenUser(pid));
  }

  /**
   From a state in which a user is stored locked, some interleaving unlocks it exactly if a request
   in flight holds a copy of it from before: a login that has loaded or checked it, a reset that
   has loaded it or is about to store it, or an email verification about to store it.
   */
  lemma {:induction false} LockLostIffUnlockedCopyHeld(s: System, id: string)
    requires SystemOk(s) && StoredLocked(s, id)
    ensures (exists actions :: PermittedRun(s, actions) && StoredUnlocked(Exec(s, actions), id)) <==>
            UnlockedCopyHeld(s, id)
  {
    if UnlockedCopyHeld(s, id) {
      var pid :| pid in s.procs && HoldsUnlocked(s.procs[pid], id);
      CopyUnlocks(s, pid, id);
    } else {
      forall actions | PermittedRun(s, actions)
        ensures !StoredUnlocked(Exec(s, actions), id)
      {
        RunsKeepLock(s, actions, id);
      }
    }
  }
}
