/**
 What a password reset still guarantees when other requests overlap it: its loop revokes every
 session that was active when they were listed, and the new password stays exactly if no login and no
 email verification in flight holds a copy of the user with another one.
 */
module ResetRaces {
  import opened IdentityModel
  import opened Interleaved
  import opened Serialization
  import opened RaceConditions

  // ---------------------------------------------------------------------------------------
  // The loop

  /** The sessions that a reset in its loop has yet to save. */
  function PendingIds(s: System, pid: nat): set<string> {
    if pid in s.procs && s.procs[pid].ResetRevoking? then Ids(s.procs[pid].sessions) else {}
  }

  ghost predicate RevokedOrPending(s: System, pid: nat, ids: set<string>) {
    forall id :: id in ids ==>
      id in s.db.sessions.rows && (s.db.sessions.rows[id].isRevoked || id in PendingIds(s, pid))
  }

  /** One turn of the loop saves its first session as revoked and leaves the others pending. */
  lemma {:induction false} LoopTurn(s: System, pid: nat)
    requires pid in s.procs && s.procs[pid].ResetRevoking? && PhaseOk(s.db, s.reserved, s.procs[pid])
    ensures var t := Act(s, StoreRevoked(pid));
            forall id :: id in PendingIds(s, pid) ==>
              id in PendingIds(t, pid) || (id in t.db.sessions.rows && t.db.sessions.rows[id].isRevoked)
  {
    var sessions := s.procs[pid].sessions;
    var t := Act(s, StoreRevoked(pid));
    forall id | id in PendingIds(s, pid)
      ensures id in PendingIds(t, pid) || (id in t.db.sessions.rows && t.db.sessions.rows[id].isRevoked)
    {
      var i :| 0 <= i < |sessions| && sessions[i].id == id;
      if i > 0 {
        assert t.procs[pid] == ResetRevoking(sessions[1..]) && sessions[1..][i - 1].id == id;
      }
    }
  }

  /** The loop's request does nothing but take turns. */
  lemma {:induction false} LoopOnlyTurns(s: System, a: Action, pid: nat)
    requires pid in s.procs && s.procs[pid].ResetRevoking? && !a.StoreRevoked?
    ensures PendingIds(Act(s, a), pid) == PendingIds(s, pid)
  {
    if a.Pass? || a.pid != pid {
      OthersUntouched(s, a, pid);
    }
    assert Holding(Act(s, a), pid) == Holding(s, pid);
  }

  lemma {:induction false} ActCoversPending(s: System, a: Action, pid: nat)
    requires SystemOk(s)
    ensures forall id :: id in PendingIds(s, pid) ==>
              id in PendingIds(Act(s, a), pid) ||
              (id in Act(s, a).db.sessions.rows && Act(s, a).db.sessions.rows[id].isRevoked)
  {
    if pid in s.procs && s.procs[pid].ResetRevoking? {
      if a == StoreRevoked(pid) {
        LoopTurn(s, pid);
      } else if a.StoreRevoked? {
        OthersUntouched(s, a, pid);
        assert Holding(Act(s, a), pid) == Holding(s, pid);
      } else {
        LoopOnlyTurns(s, a, pid);
      }
    }
  }

  lemma {:induction false} ActKeepsCovered(s: System, a: Action, pid: nat, ids: set<string>)
    requires SystemOk(s) && Permitted(s, a) && RevokedOrPending(s, pid, ids)
    ensures RevokedOrPending(Act(s, a), pid, ids)
  {
    ActKeepsOk(s, a);
    ActCoversPending(s, a, pid);
  }

  lemma {:induction false} RunsKeepCovered(s: System, actions: seq<Action>, pid: nat, ids: set<string>)
    requires SystemOk(s) && PermittedRun(s, actions) && RevokedOrPending(s, pid, ids)
    ensures RevokedOrPending(Exec(s, actions), pid, ids)
    decreases actions
  {
    if actions != [] {
      ActKeepsOk(s, actions[0]);
      ActKeepsCovered(s, actions[0], pid, ids);
      RunsKeepCovered(Act(s, actions[0]), actions[1..], pid, ids);
    }
  }

  /**
   After a reset has listed its user's active sessions, at every moment of every interleaving each
   of them is revoked or still due to be revoked by the loop; so when the loop has ended all are.
   */
  lemma {:induction false} ResetLoopRevokesListed(
      s: System, pid: nat, listed: seq<SessionRow>, actions: seq<Action>, id: string)
    requires SystemOk(s) && pid in s.procs && s.procs[pid].ResetListing?
    requires Permitted(s, ListSessions(pid, listed)) && PermittedRun(Act(s, ListSessions(pid, listed)), actions)
    requires id in s.db.sessions.rows && Active(s.db.sessions.rows[id], s.procs[pid].userId, s.now)
    ensures var t := Exec(Act(s, ListSessions(pid, listed)), actions);
            id in t.db.sessions.rows && (t.db.sessions.rows[id].isRevoked || id in PendingIds(t, pid))
  {
    ActKeepsOk(s, ListSessions(pid, listed));
    ListingCovers(s, pid, listed, id);
    RunsKeepCovered(Act(s, ListSessions(pid, listed)), actions, pid, {id});
  }

  lemma {:induction false} ListingCovers(s: System, pid: nat, listed: seq<SessionRow>, id: string)
    requires ValidSessions(s.db.sessions) && pid in s.procs && s.procs[pid].ResetListing?
    requires Permitted(s, ListSessions(pid, listed))
    requires id in s.db.sessions.rows && Active(s.db.sessions.rows[id], s.procs[pid].userId, s.now)
    ensures RevokedOrPending(Act(s, ListSessions(pid, listed)), pid, {id})
  {
    var t := Act(s, ListSessions(pid, listed));
    LocalStepsKeepTables(s, ListSessions(pid, listed));
    var i :| 0 <= i < |listed| && listed[i] == s.db.sessions.rows[id];
    assert t.procs[pid] == ResetRevoking(RevokedCopies(listed)) && RevokedCopies(listed)[i].id == id;
  }

  // ---------------------------------------------------------------------------------------
  // The new password

  /** A login or an email verification that holds a copy of the user with another password than this. */
  predicate HoldsOtherPassword(p: Phase, id: string, hash: string) {
    && (p.LoginLoaded? || p.LoginStoring? || (p.TokenStoring? && p.purpose == EmailVerification))
    && p.user.id == id && p.user.passwordHash != hash
  }

  ghost predicate OtherPasswordHeld(s: System, id: string, hash: string) {
    exists pid :: pid in s.procs && HoldsOtherPassword(s.procs[pid], id, hash)
  }

  predicate HasPassword(s: System, id: string, hash: string) {
    id in s.db.users.rows && s.db.users.rows[id].passwordHash == hash
  }

  /** This action completes the password change of a reset for the user. */
  predicate StoresResetOf(s: System, a: Action, id: string) {
    && a.StoreTokenUser? && a.pid in s.procs && s.procs[a.pid].TokenStoring?
    && s.procs[a.pid].purpose == PasswordReset && s.procs[a.pid].user.id == id
  }

  predicate NoResetOf(s: System, actions: seq<Action>, id: string)
    decreases actions
  {
    actions == [] || (!StoresResetOf(s, actions[0], id) && NoResetOf(Act(s, actions[0]), actions[1..], id))
  }

  lemma {:induction false} LoginLoadsPassword(s: System, email: string, id: string, hash: string)
    requires ValidUsers(s.db.users) && HasPassword(s, id, hash)
    ensures LoginLookup(s, email).Some? ==> !HoldsOtherPassword(LoginLookup(s, email).value, id, hash)
  {
  }

  /** Local steps keep the password of a copy, and load the stored one. */
  lemma {:induction false} LocalTakesNoOther(s: System, a: Action, held: Phase, id: string, hash: string)
    requires HasPassword(s, id, hash) && !HoldsOtherPassword(held, id, hash)
    requires held.TokenLoaded? && held.token.userId in s.db.users.rows ==>
               s.db.users.rows[held.token.userId].id == held.token.userId
    ensures var next := AfterLocal(s, a, held);
            next.Some? ==> !HoldsOtherPassword(next.value, id, hash)
  {
  }

  lemma {:induction false} WriteTakesNoOther(s: System, a: Action, id: string, hash: string)
    requires Writes(a) && a.pid in s.procs && !HoldsOtherPassword(s.procs[a.pid], id, hash)
    ensures var t := AfterWrite(s, a, s.procs[a.pid]);
            a.pid in t.procs ==> !HoldsOtherPassword(t.procs[a.pid], id, hash)
  {
  }

  lemma {:induction false} StepTakesNoOther(s: System, a: Action, id: string, hash: string)
    requires ValidUsers(s.db.users) && HasPassword(s, id, hash) && !a.Pass?
    requires a.pid in s.procs && !HoldsOtherPassword(s.procs[a.pid], id, hash)
    ensures Holding(Act(s, a), a.pid).Some? ==> !HoldsOtherPassword(Act(s, a).procs[a.pid], id, hash)
  {
    if Writes(a) {
      WriteTakesNoOther(s, a, id, hash);
    } else {
      LocalTakesNoOther(s, a, s.procs[a.pid], id, hash);
    }
  }

  lemma {:induction false} StartTakesNoOther(s: System, a: Action, id: string, hash: string)
    requires ValidUsers(s.db.users) && HasPassword(s, id, hash) && !a.Pass? && a.pid !in s.procs
    ensures Holding(Act(s, a), a.pid).Some? ==> !HoldsOtherPassword(Act(s, a).procs[a.pid], id, hash)
  {
    if a.StartLogin? {
      LoginLoadsPassword(s, a.email, id, hash);
    }
  }

  lemma {:induction false} NoOtherPasswordLoaded(s: System, a: Action, id: string, hash: string)
    requires ValidUsers(s.db.users) && HasPassword(s, id, hash) && !a.Pass?
    requires Holding(s, a.pid).Some? ==> !HoldsOtherPassword(s.procs[a.pid], id, hash)
    ensures Holding(Act(s, a), a.pid).Some? ==> !HoldsOtherPassword(Act(s, a).procs[a.pid], id, hash)
  {
    if a.pid in s.procs {
      StepTakesNoOther(s, a, id, hash);
    } else {
      StartTakesNoOther(s, a, id, hash);
    }
  }

  lemma {:induction false} NoOtherPasswordStored(s: System, a: Action, id: string, hash: string)
    requires HasPassword(s, id, hash) && !StoresResetOf(s, a, id) && !a.Pass? && Writes(a)
    requires Holding(s, a.pid).Some? ==> !HoldsOtherPassword(s.procs[a.pid], id, hash)
    ensures HasPassword(Act(s, a), id, hash)
  {
  }

  lemma {:induction false} ActKeepsPassword(s: System, a: Action, id: string, hash: string)
    requires ValidUsers(s.db.users) && HasPassword(s, id, hash) && !OtherPasswordHeld(s, id, hash)
    requires !StoresResetOf(s, a, id)
    ensures HasPassword(Act(s, a), id, hash) && !OtherPasswordHeld(Act(s, a), id, hash)
  {
    if !a.Pass? && Writes(a) {
      NoOtherPasswordStored(s, a, id, hash);
    } else {
      LocalStepsKeepTables(s, a);
    }
    forall q | q in Act(s, a).procs
      ensures !HoldsOtherPassword(Act(s, a).procs[q], id, hash)
    {
      if a.Pass? || q != a.pid {
        OthersUntouched(s, a, q);
      } else {
        NoOtherPasswordLoaded(s, a, id, hash);
      }
    }
  }

  lemma {:induction false} RunsKeepPassword(s: System, actions: seq<Action>, id: string, hash: string)
    requires SystemOk(s) && HasPassword(s, id, hash) && !OtherPasswordHeld(s, id, hash)
    requires PermittedRun(s, actions) && NoResetOf(s, actions, id)
    ensures HasPassword(Exec(s, actions), id, hash)
    decreases actions
  {
    if actions != [] {
      ActKeepsPassword(s, actions[0], id, hash);
      ActKeepsOk(s, actions[0]);
      RunsKeepPassword(Act(s, actions[0]), actions[1..], id, hash);
    }
  }

  lemma {:induction false} NoResetAmong(s: System, actions: seq<Action>, id: string)
    requires forall a :: a in actions ==> !a.StoreTokenUser?
    ensures NoResetOf(s, actions, id)
    decreases actions
  {
    if actions != [] {
      NoResetAmong(Act(s, actions[0]), actions[1..], id);
    }
  }

  lemma {:induction false} OtherPasswordIsStored(s: System, pid: nat, id: string, hash: string)
    requires HasPassword(s, id, hash) && pid in s.procs && HoldsOtherPassword(s.procs[pid], id, hash)
    ensures var run := StoreCopy(pid, s.procs[pid]);
            PermittedRun(s, run) && NoResetOf(s, run, id) && !HasPassword(Exec(s, run), id, hash)
  {
    match s.procs[pid]
    case LoginLoaded(user) =>
      NoResetAmong(s, StoreCopy(pid, s.procs[pid]), id);
      LoginStoresCopy(s, pid, user);
    case LoginStoring(_, _) =>
      NoResetAmong(s, StoreCopy(pid, s.procs[pid]), id);
      RunOne(s, StoreLogin(pid));
    case TokenStoring(_, _, _) =>
      assert !StoresResetOf(s, StoreTokenUser(pid), id) && [StoreTokenUser(pid)][1..] == [];
      RunOne(s, StoreTokenUser(pid));
  }

  ghost predicate ReplacesPassword(s: System, run: seq<Action>, id: string, hash: string) {
    PermittedRun(s, run) && NoResetOf(s, run, id) && !HasPassword(Exec(s, run), id, hash)
  }

  /**
   From a state with this password stored, right after a reset say, some interleaving replaces it
   without another reset of the user exactly if a login or an email verification in
   flight holds a copy with another one.
   */
  lemma {:induction false} PasswordReplacedIffOtherHeld(s: System, id: string, hash: string)
    requires SystemOk(s) && HasPassword(s, id, hash)
    ensures OtherPasswordHeld(s, id, hash) <==> exists run :: ReplacesPassword(s, run, id, hash)
  {
    if OtherPasswordHeld(s, id, hash) {
      var pid :| pid in s.procs && HoldsOtherPassword(s.procs[pid], id, hash);
      OtherPasswordIsStored(s, pid, id, hash);
      assert ReplacesPassword(s, StoreCopy(pid, s.procs[pid]), id, hash);
    } else {
      forall run
        ensures !ReplacesPassword(s, run, id, hash)
      {
        if PermittedRun(s, run) && NoResetOf(s, run, id) {
          RunsKeepPassword(s, run, id, hash);
        }
      }
    }
  }
}
