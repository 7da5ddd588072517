/**
 The lock automaton driven by logins, in sequential runs of the whole service. The counter in
 the user's row is compared with a window over the user's full attempt history.
 */
module Lockout {
  import opened Wrappers
  import opened IdentityModel
  import opened Lifecycle

  // ---------------------------------------------------------------------------------------
  // The specification: a window over the history

  /** The outcomes of the password checks requested for an address, oldest first. */
  function Attempts(events: seq<Event>, email: string): seq<bool> {
    if events == [] then []
    else Attempts(events[..|events| - 1], email) + AttemptsOf(events[|events| - 1], email)
  }

  function AttemptsOf(e: Event, email: string): seq<bool> {
    if e.Serve? && e.request.Login? && e.request.email == Some(email) then [e.request.passwordValid] else []
  }

  /** Somewhere in the history there are five wrong passwords in a row. */
  ghost predicate FiveInARow(history: seq<bool>) {
    exists k :: FiveWrongFrom(history, k)
  }

  predicate FiveWrongFrom(history: seq<bool>, k: int) {
    0 <= k <= |history| - 5 && forall m :: k <= m < k + 5 ==> !history[m]
  }

  /** How many wrong passwords the history ends with. */
  function TrailingWrong(history: seq<bool>): (n: nat)
    ensures n <= |history|
    ensures forall m :: |history| - n <= m < |history| ==> !history[m]
    ensures n < |history| ==> history[|history| - n - 1]
  {
    if history == [] || history[|history| - 1] then 0 else 1 + TrailingWrong(history[..|history| - 1])
  }

  /** One more attempt completes a window exactly when it brings the trailing count to five. */
  lemma {:induction false} WindowGrows(history: seq<bool>, ok: bool)
    ensures FiveInARow(history + [ok]) <==>
            FiveInARow(history) || TrailingWrong(history + [ok]) >= 5
    ensures TrailingWrong(history + [ok]) == if ok then 0 else TrailingWrong(history) + 1
  {
    var longer := history + [ok];
    assert longer[..|history|] == history;
    if TrailingWrong(longer) < |longer| {
      assert longer[|longer| - TrailingWrong(longer) - 1];
    }
    if k :| FiveWrongFrom(longer, k) {
      if k + 5 <= |history| {
        assert FiveWrongFrom(history, k);
      }
    }
    if k :| FiveWrongFrom(history, k) {
      assert FiveWrongFrom(longer, k);
    }
    if TrailingWrong(longer) >= 5 {
      assert FiveWrongFrom(longer, |longer| - 5);
    }
  }

  // ---------------------------------------------------------------------------------------
  // The automaton refines the window

  /** The row agrees with the history: locked by a full window, else counting the trailing wrong ones. */
  ghost predicate Tracks(u: UserRow, history: seq<bool>) {
    && (u.isLocked <==> FiveInARow(history))
    && (!u.isLocked ==> u.failedLoginAttempts == TrailingWrong(history))
  }

  lemma {:induction false} AttemptTracks(u: UserRow, history: seq<bool>, ok: bool)
    requires Tracks(u, history)
    ensures Tracks(if u.isLocked then u else if ok then SuccessfulLogin(u) else FailedAttempt(u), history + [ok])
  {
    WindowGrows(history, ok);
  }

  /** What a login does to any one user's row. */
  lemma {:induction false} LoginOnUser(
      users: UserTable, sessions: SessionTable, now: int, email: Option<string>, passwordValid: bool,
                    sessionId: string, digest: string, exp: Option<int>, id: string)
    requires ValidUsers(users) && id in users.rows
    ensures var before := users.rows[id];
            var after := LoginStep(users, sessions, now, email, passwordValid, sessionId, digest, exp).users;
            && id in after.rows
            && after.rows[id] ==
               if email != Some(before.email) || before.isLocked then before
               else if passwordValid then SuccessfulLogin(before)
               else FailedAttempt(before)
  {
  }

  /** No event but a login for the user's own address touches the lock columns. */
  lemma {:induction false} EventOnUser(w: World, e: Event, id: string)
    requires Inv(w) && Enabled(w, e) && id in w.db.users.rows
    ensures id in Advance(w, e).db.users.rows
    ensures var before, after := w.db.users.rows[id], Advance(w, e).db.users.rows[id];
            && after.email == before.email
            && (AttemptsOf(e, before.email) == [] ==>
                  after.isLocked == before.isLocked && after.failedLoginAttempts == before.failedLoginAttempts)
            && (AttemptsOf(e, before.email) != [] ==>
                  after == if before.isLocked then before
                           else if AttemptsOf(e, before.email)[0] then SuccessfulLogin(before)
                           else FailedAttempt(before))
  {
    if e.Serve? && e.request.Login? {
      var r := e.request;
      LoginOnUser(w.db.users, w.db.sessions, w.now, r.email, r.passwordValid, r.sessionId, r.digest, r.exp, id);
    }
  }

  lemma {:induction false} EventTracks(w: World, e: Event, id: string, history: seq<bool>)
    requires Inv(w) && Enabled(w, e) && id in w.db.users.rows
    requires Tracks(w.db.users.rows[id], history)
    ensures id in Advance(w, e).db.users.rows
    ensures Advance(w, e).db.users.rows[id].email == w.db.users.rows[id].email
    ensures Tracks(Advance(w, e).db.users.rows[id], history + AttemptsOf(e, w.db.users.rows[id].email))
  {
    var before := w.db.users.rows[id];
    EventOnUser(w, e, id);
    var now := AttemptsOf(e, before.email);
    if now == [] {
      assert history + now == history;
    } else {
      AttemptTracks(before, history, now[0]);
    }
  }

  /**
   Throughout any run, a user that starts unlocked with no failed attempts is locked exactly
   when its attempts so far contain five wrong passwords in a row; until then the counter is
   the number of wrong passwords since the last right one.
   */
  lemma {:induction false} LockedIffFiveInARow(ws: seq<World>, events: seq<Event>, id: string, i: nat)
    requires IsRun(ws, events) && Inv(ws[0]) && i < |ws|
    requires id in ws[0].db.users.rows
    requires !ws[0].db.users.rows[id].isLocked && ws[0].db.users.rows[id].failedLoginAttempts == 0
    ensures id in ws[i].db.users.rows && ws[i].db.users.rows[id].email == ws[0].db.users.rows[id].email
    ensures Tracks(ws[i].db.users.rows[id], Attempts(events[..i], ws[0].db.users.rows[id].email))
  {
    var email := ws[0].db.users.rows[id].email;
    if i > 0 {
      LockedIffFiveInARow(ws, events, id, i - 1);
      RunsKeepInv(ws, events, i - 1);
      assert Moves(ws, events, i - 1);
      EventTracks(ws[i - 1], events[i - 1], id, Attempts(events[..i - 1], email));
      assert events[..i][..i - 1] == events[..i - 1];
    }
  }

  // ---------------------------------------------------------------------------------------
  // A lock is final

  /** While a user is locked, its logins and the refreshes of its sessions are refused without effect. */
  lemma {:induction false} LockedIsRefused(w: World, id: string, r: Request)
    requires Inv(w) && Enabled(w, Serve(r))
    requires id in w.db.users.rows && w.db.users.rows[id].isLocked
    requires (r.Login? && r.email == Some(w.db.users.rows[id].email)) ||
             (r.Refresh? && exists s :: s in w.db.sessions.rows && w.db.sessions.rows[s].userId == id &&
                                        w.db.sessions.rows[s].refreshToken == r.digest)
    ensures !Accepts(w, Serve(r)) && DbAfter(w, r) == w.db
  {
  }

  /** A locked user stays locked to the end of every run. */
  lemma {:induction false} LocksArePermanent(ws: seq<World>, events: seq<Event>, id: string, i: nat, j: nat)
    requires IsRun(ws, events) && Inv(ws[0]) && i <= j < |ws|
    requires id in ws[i].db.users.rows && ws[i].db.users.rows[id].isLocked
    ensures id in ws[j].db.users.rows && ws[j].db.users.rows[id].isLocked
    ensures ws[j].db.users.rows[id].email == ws[i].db.users.rows[id].email
    decreases j
  {
    if i < j {
      LocksArePermanent(ws, events, id, i, j - 1);
      RunsKeepInv(ws, events, j - 1);
      assert Moves(ws, events, j - 1);
      EventOnUser(ws[j - 1], events[j - 1], id);
    }
  }

  /** From five wrong passwords in a row on, every login and every refresh for the user is refused. */
  lemma {:induction false} FiveWrongShutTheUserOut(ws: seq<World>, events: seq<Event>, id: string, i: nat, j: nat)
    requires IsRun(ws, events) && Inv(ws[0]) && i <= j < |events|
    requires id in ws[0].db.users.rows
    requires !ws[0].db.users.rows[id].isLocked && ws[0].db.users.rows[id].failedLoginAttempts == 0
    requires FiveInARow(Attempts(events[..i], ws[0].db.users.rows[id].email))
    requires events[j].Serve? && var r := events[j].request;
             || (r.Login? && r.email == Some(ws[0].db.users.rows[id].email))
             || (r.Refresh? && exists s :: s in ws[j].db.sessions.rows && ws[j].db.sessions.rows[s].userId == id &&
                                           ws[j].db.sessions.rows[s].refreshToken == r.digest)
    ensures !Accepts(ws[j], events[j])
  {
    LockedIffFiveInARow(ws, events, id, i);
    LocksArePermanent(ws, events, id, i, j);
    RunsKeepInv(ws, events, j);
    assert Moves(ws, events, j);
    LockedIsRefused(ws[j], id, events[j].request);
  }
}
