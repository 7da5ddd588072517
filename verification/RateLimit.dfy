/**
 The fixed-window attempt counter. The first part treats a call as one step; the second
 splits it where the code waits between the transaction and the separate EXPIRE.
 */
module RateLimit {
  import opened Wrappers
  import opened Redis

  // ---------------------------------------------------------------------------------------
  // One call on one key

  function AfterAttempt(entry: Option<Entry>, ttlSeconds: int, now: int): Option<Entry> {
    var counted := Some(Incremented(entry, now));
    var ttl := TimeToLive(counted, now);
    if ttl == -1 || ttl == -2 then Expiring(counted, ttlSeconds, now) else counted
  }

  class RedisRateLimitService {
    const redis: RedisClient

    constructor (redis: RedisClient)
      ensures this.redis == redis
    {
      this.redis := redis;
    }

    method IncrementAttempts(key: string, ttlSeconds: int, now: int) returns (attempts: int)
      modifies redis
      ensures redis.store == Put(old(redis.store), key, AfterAttempt(Lookup(old(redis.store), key), ttlSeconds, now))
      ensures attempts == Incremented(Lookup(old(redis.store), key), now).value
    {
      var count, ttl := redis.IncrAndTtl(key, now);
      if ttl == -1 || ttl == -2 {
        redis.Expire(key, ttlSeconds, now);
      }
      attempts := count;
    }

    method ResetAttempts(key: string)
      modifies redis
      ensures redis.store == Put(old(redis.store), key, None)
    {
      redis.Del(key);
    }

    method GetAttempts(key: string, now: int) returns (attempts: int)
      ensures attempts == if Live(Lookup(redis.store, key), now) then redis.store[key].value else 0
    {
      var value := redis.Get(key, now);
      attempts := if value.Some? then value.value else 0;
    }
  }

  // ---------------------------------------------------------------------------------------
  // Atomic histories over any number of keys

  datatype Call =
    | Attempt(key: string, ttlSeconds: int, at: int)
    | Reset(key: string, at: int)

  predicate InOrder(calls: seq<Call>) {
    forall i, j :: 0 <= i < j < |calls| ==> calls[i].at <= calls[j].at
  }

  function AfterCall(entry: Option<Entry>, call: Call): Option<Entry> {
    match call
    case Attempt(_, ttlSeconds, at) => AfterAttempt(entry, ttlSeconds, at)
    case Reset(_, _) => None
  }

  function RunCalls(store: Store, calls: seq<Call>): Store
    decreases calls
  {
    if calls == [] then store
    else
      var before := RunCalls(store, calls[..|calls| - 1]);
      var last := calls[|calls| - 1];
      Put(before, last.key, AfterCall(Lookup(before, last.key), last))
  }

  /** The calls made for one key. */
  function ForKey(calls: seq<Call>, key: string): seq<Call> {
    if calls == [] then []
    else
      var rest := ForKey(calls[..|calls| - 1], key);
      if calls[|calls| - 1].key == key then rest + [calls[|calls| - 1]] else rest
  }

  function RunEntry(entry: Option<Entry>, calls: seq<Call>): Option<Entry>
    decreases calls
  {
    if calls == [] then entry
    else AfterCall(RunEntry(entry, calls[..|calls| - 1]), calls[|calls| - 1])
  }

  /** Keys do not interfere: what happens to a key is what its own calls make of it. */
  lemma {:induction false} KeysAreIndependent(store: Store, calls: seq<Call>, key: string)
    ensures Lookup(RunCalls(store, calls), key) == RunEntry(Lookup(store, key), ForKey(calls, key))
    decreases calls
  {
    if calls != [] {
      KeysAreIndependent(store, calls[..|calls| - 1], key);
      var rest := ForKey(calls[..|calls| - 1], key);
      if calls[|calls| - 1].key == key {
        assert (rest + [calls[|calls| - 1]])[..|rest|] == rest;
      }
    }
  }

  // ---------------------------------------------------------------------------------------
  // The window specification, which does not mention the store

  /**
   The position of the attempt that opened the window of attempt i: the same as its
   predecessor's while that window lasts, and i itself after a reset or once it is over.
   */
  function Opening(calls: seq<Call>, i: nat): (o: nat)
    requires i < |calls| && calls[i].Attempt?
    ensures o <= i && calls[o].Attempt?
    ensures forall k :: o <= k <= i ==> calls[k].Attempt?
    ensures forall k :: o < k <= i ==> calls[k].at < calls[o].at + 1000 * calls[o].ttlSeconds
  {
    if i == 0 || calls[i - 1].Reset? then i
    else
      var o := Opening(calls, i - 1);
      if calls[i].at < calls[o].at + 1000 * calls[o].ttlSeconds then o else i
  }

  function CountBefore(entry: Option<Entry>, call: Call): int
    requires call.Attempt?
  {
    Incremented(entry, call.at).value
  }

  /** The entry of a window: gone at once if its time to live is not positive. */
  function WindowEntry(count: int, openedAt: int, ttlSeconds: int): Option<Entry> {
    if ttlSeconds <= 0 then None else Some(Entry(count, Some(openedAt + 1000 * ttlSeconds)))
  }

  lemma {:induction false} AttemptOpensWindow(entry: Option<Entry>, ttlSeconds: int, now: int)
    requires !Live(entry, now)
    ensures Incremented(entry, now).value == 1
    ensures AfterAttempt(entry, ttlSeconds, now) == WindowEntry(1, now, ttlSeconds)
  {
  }

  /** Within a window the count rises and neither the expiry nor the later time to live matters. */
  lemma {:induction false} AttemptStaysInWindow(
      count: int, openedAt: int, windowSeconds: int, ttlSeconds: int, now: int)
    requires now < openedAt + 1000 * windowSeconds && openedAt <= now
    ensures Incremented(WindowEntry(count, openedAt, windowSeconds), now).value == count + 1
    ensures AfterAttempt(WindowEntry(count, openedAt, windowSeconds), ttlSeconds, now) ==
            WindowEntry(count + 1, openedAt, windowSeconds)
  {
  }

  /** An attempt continues the window it falls into, and opens its own once that is over. */
  lemma {:induction false} AttemptAfterWindow(count: int, openedAt: int, windowSeconds: int, ttlSeconds: int, now: int)
    requires openedAt <= now
    ensures var before := WindowEntry(count, openedAt, windowSeconds);
            if now < openedAt + 1000 * windowSeconds then
              && Incremented(before, now).value == count + 1
              && AfterAttempt(before, ttlSeconds, now) == WindowEntry(count + 1, openedAt, windowSeconds)
            else
              && Incremented(before, now).value == 1
              && AfterAttempt(before, ttlSeconds, now) == WindowEntry(1, now, ttlSeconds)
  {
    if now < openedAt + 1000 * windowSeconds {
      AttemptStaysInWindow(count, openedAt, windowSeconds, ttlSeconds, now);
    } else {
      AttemptOpensWindow(WindowEntry(count, openedAt, windowSeconds), ttlSeconds, now);
    }
  }

  /**
   On one key, starting with no live entry: attempt i returns the number of attempts since its
   window opened, and leaves an entry that expires exactly the opener's time to live after the
   opening, however many attempts followed.
   */
  lemma {:induction false} AttemptCountsItsWindow(entry: Option<Entry>, calls: seq<Call>, i: nat)
    requires InOrder(calls) && i < |calls| && calls[i].Attempt?
    requires !Live(entry, calls[0].at)
    ensures var o := Opening(calls, i);
            && CountBefore(RunEntry(entry, calls[..i]), calls[i]) == i - o + 1
            && RunEntry(entry, calls[..i + 1]) == WindowEntry(i - o + 1, calls[o].at, calls[o].ttlSeconds)
    decreases i
  {
    assert calls[..i + 1][..i] == calls[..i];
    var before := RunEntry(entry, calls[..i]);
    if i == 0 {
      AttemptOpensWindow(entry, calls[0].ttlSeconds, calls[0].at);
    } else {
      assert calls[..i][..i - 1] == calls[..i - 1];
      if calls[i - 1].Reset? {
        AttemptOpensWindow(before, calls[i].ttlSeconds, calls[i].at);
      } else {
        AttemptCountsItsWindow(entry, calls, i - 1);
        var o := Opening(calls, i - 1);
        AttemptAfterWindow(i - o, calls[o].at, calls[o].ttlSeconds, calls[i].ttlSeconds, calls[i].at);
      }
    }
  }

  lemma {:induction false} OwnCallsInOrder(calls: seq<Call>, key: string)
    requires InOrder(calls)
    ensures InOrder(ForKey(calls, key))
    ensures forall c :: c in ForKey(calls, key) ==> c in calls
  {
    if calls != [] {
      var n := |calls| - 1;
      OwnCallsInOrder(calls[..n], key);
      forall c | c in ForKey(calls[..n], key)
        ensures c.at <= calls[n].at
      {
        assert c in calls[..n];
      }
    }
  }

  /**
   Among calls for any number of keys, starting from an empty store, the last attempt returns
   its position in its key's window and leaves the key expiring when that window ends.
   */
  lemma {:induction false} AttemptsAmongOtherKeys(calls: seq<Call>)
    requires InOrder(calls) && calls != [] && calls[|calls| - 1].Attempt?
    ensures var last := calls[|calls| - 1];
            var own := ForKey(calls, last.key);
            var i := |own| - 1;
            && own != [] && own[i] == last
            && var o := Opening(own, i);
            && CountBefore(Lookup(RunCalls(map[], calls[..|calls| - 1]), last.key), last) == i - o + 1
            && Lookup(RunCalls(map[], calls), last.key) == WindowEntry(i - o + 1, own[o].at, own[o].ttlSeconds)
  {
    var last := calls[|calls| - 1];
    var before := calls[..|calls| - 1];
    var earlier := ForKey(before, last.key);
    var own := earlier + [last];
    var i := |earlier|;
    assert ForKey(calls, last.key) == own;
    assert own[..i] == earlier && own[..i + 1] == own;
    OwnCallsInOrder(calls, last.key);
    AttemptCountsItsWindow(None, own, i);
    assert Lookup(RunCalls(map[], before), last.key) == RunEntry(None, earlier) by {
      KeysAreIndependent(map[], before, last.key);
    }
    assert Lookup(RunCalls(map[], calls), last.key) == RunEntry(None, own) by {
      KeysAreIndependent(map[], calls, last.key);
    }
  }

  // ---------------------------------------------------------------------------------------
  // Interleaved calls: the transaction and the later EXPIRE are separate steps

  datatype Due = Due(key: string, ttlSeconds: int)

  /** `due` holds the calls that have run their transaction and still have to set an expiry. */
  datatype Counter = Counter(store: Store, due: map<nat, Due>)

  datatype Action =
    | Begin(pid: nat, key: string, ttlSeconds: int, now: int)
    | Finish(pid: nat, now: int)
    | Clear(key: string)
    | Crash(pid: nat)

  function Act(c: Counter, a: Action): Counter {
    match a
    case Begin(pid, key, ttlSeconds, now) =>
      if pid in c.due then c
      else
        var counted := Incremented(Lookup(c.store, key), now);
        var ttl := TimeToLive(Some(counted), now);
        Counter(c.store[key := counted],
                if ttl == -1 || ttl == -2 then c.due[pid := Due(key, ttlSeconds)] else c.due)
    case Finish(pid, now) =>
      if pid !in c.due then c
      else
        var d := c.due[pid];
        Counter(Put(c.store, d.key, Expiring(Lookup(c.store, d.key), d.ttlSeconds, now)), c.due - {pid})
    case Clear(key) => c.(store := Put(c.store, key, None))
    case Crash(pid) => c.(due := c.due - {pid})
  }

  function RunActions(c: Counter, actions: seq<Action>): Counter
    decreases actions
  {
    if actions == [] then c else RunActions(Act(c, actions[0]), actions[1..])
  }

  /** A key without expiry is owed one by a call still in flight. */
  ghost predicate ExpiryOwed(c: Counter) {
    forall k :: k in c.store && c.store[k].expiresAt.None? ==> exists pid :: pid in c.due && c.due[pid].key == k
  }

  lemma {:induction false} ActKeepsExpiryOwed(c: Counter, a: Action)
    requires ExpiryOwed(c) && !a.Crash?
    ensures ExpiryOwed(Act(c, a))
  {
    var after := Act(c, a);
    forall k | k in after.store && after.store[k].expiresAt.None?
      ensures exists pid :: pid in after.due && after.due[pid].key == k
    {
      if a.Begin? && a.pid !in c.due && k == a.key {
        assert a.pid in after.due;
      } else if a.Finish? && a.pid in c.due && k == c.due[a.pid].key {
        // A key without expiry is live, so this step gave it one or deleted it.
        assert false;
      } else {
        assert Lookup(after.store, k) == Lookup(c.store, k);
        var pid :| pid in c.due && c.due[pid].key == k;
        assert pid in after.due && after.due[pid] == c.due[pid];
      }
    }
  }

  /** However calls and resets interleave, without crashes no key outlives all expiry. */
  lemma {:induction false} InterleavedCallsOweExpiry(c: Counter, actions: seq<Action>)
    requires ExpiryOwed(c)
    requires forall a :: a in actions ==> !a.Crash?
    ensures ExpiryOwed(RunActions(c, actions))
    decreases actions
  {
    if actions != [] {
      ActKeepsExpiryOwed(c, actions[0]);
      InterleavedCallsOweExpiry(Act(c, actions[0]), actions[1..]);
    }
  }

  /** Once no call is in flight, every key has an expiry. */
  lemma {:induction false} QuiescentKeysExpire(actions: seq<Action>, key: string)
    requires forall a :: a in actions ==> !a.Crash?
    requires RunActions(Counter(map[], map[]), actions).due == map[]
    requires key in RunActions(Counter(map[], map[]), actions).store
    ensures RunActions(Counter(map[], map[]), actions).store[key].expiresAt.Some?
  {
    InterleavedCallsOweExpiry(Counter(map[], map[]), actions);
  }

  // ---------------------------------------------------------------------------------------
  // Windows under interleaving

  /** A call in flight still has to set an expiry on this key. */
  ghost predicate DueOn(c: Counter, key: string) {
    exists pid :: pid in c.due && c.due[pid].key == key
  }

  /** The action sees a clock before `end` and does not reset the key. */
  predicate Within(a: Action, key: string, end: int) {
    match a
    case Begin(_, _, _, now) => now < end
    case Finish(_, now) => now < end
    case Clear(k) => k != key
    case Crash(_) => true
  }

  /** How many calls for the key run their transaction. */
  function Counted(c: Counter, actions: seq<Action>, key: string): nat
    decreases actions
  {
    if actions == [] then 0
    else
      (if actions[0].Begin? && actions[0].pid !in c.due && actions[0].key == key then 1 else 0)
      + Counted(Act(c, actions[0]), actions[1..], key)
  }

  lemma {:induction false} ActInSettledWindow(c: Counter, a: Action, key: string, count: int, end: int)
    requires Lookup(c.store, key) == Some(Entry(count, Some(end))) && !DueOn(c, key) && Within(a, key, end)
    ensures !DueOn(Act(c, a), key)
    ensures Lookup(Act(c, a).store, key) == Some(Entry(count + Counted(c, [a], key), Some(end)))
  {
    assert [a][1..] == [];
  }

  /**
   While a key has an expiry and no call in flight is due to set one, calls may interleave and crash:
   until it expires or is reset, the count rises by one for each call and the expiry stays.
   */
  lemma {:induction false} SettledWindowCounts(c: Counter, actions: seq<Action>, key: string, count: int, end: int)
    requires Lookup(c.store, key) == Some(Entry(count, Some(end))) && !DueOn(c, key)
    requires forall a :: a in actions ==> Within(a, key, end)
    ensures !DueOn(RunActions(c, actions), key)
    ensures Lookup(RunActions(c, actions).store, key) == Some(Entry(count + Counted(c, actions, key), Some(end)))
    decreases actions
  {
    if actions != [] {
      ActInSettledWindow(c, actions[0], key, count, end);
      assert [actions[0]][1..] == [];
      SettledWindowCounts(Act(c, actions[0]), actions[1..], key, count + Counted(c, [actions[0]], key), end);
    }
  }

  /** Before its end a window of the key gets another end, or none. */
  ghost predicate MovesExpiry(c: Counter, actions: seq<Action>, key: string, end: int) {
    && (forall a :: a in actions ==> Within(a, key, end))
    && var entry := Lookup(RunActions(c, actions).store, key);
       entry.None? || entry.value.expiresAt != Some(end)
  }

  /** The expiry of a window can move, without a reset, exactly if a call in flight is due to set one. */
  lemma {:induction false} ExpiryMovesIffDue(c: Counter, key: string, count: int, end: int)
    requires Lookup(c.store, key) == Some(Entry(count, Some(end)))
    ensures DueOn(c, key) <==> exists actions :: MovesExpiry(c, actions, key, end)
  {
    if DueOn(c, key) {
      var pid :| pid in c.due && c.due[pid].key == key;
      var late := [Finish(pid, end - 1)];
      assert late[1..] == [];
      assert RunActions(c, late) == RunActions(Act(c, late[0]), []);
      assert MovesExpiry(c, late, key, end);
    } else {
      forall actions
        ensures !MovesExpiry(c, actions, key, end)
      {
        if forall a :: a in actions ==> Within(a, key, end) {
          SettledWindowCounts(c, actions, key, count, end);
        }
      }
    }
  }

  /** Two first calls that overlap: the second to set the expiry moves the end of the window. */
  lemma {:induction false} OverlappingCallsMoveExpiry(key: string, ttlSeconds: int, now: int, later: int)
    requires ttlSeconds > 0 && now <= later < now + 1000 * ttlSeconds
    ensures var begun := Act(Act(Counter(map[], map[]), Begin(0, key, ttlSeconds, now)),
                             Begin(1, key, ttlSeconds, now));
            var first := Act(begun, Finish(0, now));
            var second := Act(first, Finish(1, later));
            && Lookup(first.store, key) == Some(Entry(2, Some(now + 1000 * ttlSeconds)))
            && Lookup(second.store, key) == Some(Entry(2, Some(later + 1000 * ttlSeconds)))
  {
    var begun := Act(Act(Counter(map[], map[]), Begin(0, key, ttlSeconds, now)), Begin(1, key, ttlSeconds, now));
    assert begun.due == map[0 := Due(key, ttlSeconds), 1 := Due(key, ttlSeconds)];
  }

  // ---------------------------------------------------------------------------------------
  // Crashes

  /** This call alone owes its key the expiry that the key lacks. */
  ghost predicate SoleDebtor(c: Counter, pid: nat) {
    && pid in c.due
    && Lookup(c.store, c.due[pid].key).Some? && c.store[c.due[pid].key].expiresAt.None?
    && forall q :: q in c.due && q != pid ==> c.due[q].key != c.due[pid].key
  }

  /** A crash loses a key's expiry exactly if the crashed call was the only one to owe it. */
  lemma {:induction false} CrashKeepsExpiryOwedIff(c: Counter, pid: nat)
    requires ExpiryOwed(c)
    ensures ExpiryOwed(Act(c, Crash(pid))) <==> !SoleDebtor(c, pid)
  {
    var after := Act(c, Crash(pid));
    if SoleDebtor(c, pid) {
      var key := c.due[pid].key;
      assert key in after.store && after.store[key].expiresAt.None?;
    } else {
      forall k | k in after.store && after.store[k].expiresAt.None?
        ensures exists q :: q in after.due && after.due[q].key == k
      {
        var q :| q in c.due && c.due[q].key == k;
        if q == pid {
          var other :| other in c.due && other != pid && c.due[other].key == k;
          assert other in after.due;
        } else {
          assert q in after.due;
        }
      }
    }
  }

  /** Somewhere in the run a call crashes that is then the only one to owe its key an expiry. */
  ghost predicate LosesExpiry(c: Counter, actions: seq<Action>)
    decreases actions
  {
    && actions != []
    && ((actions[0].Crash? && SoleDebtor(c, actions[0].pid)) || LosesExpiry(Act(c, actions[0]), actions[1..]))
  }

  /** Over any run, crashes included: if no sole debtor crashes, every key without expiry is still owed one. */
  lemma {:induction false} OnlySoleDebtorsLoseExpiry(c: Counter, actions: seq<Action>)
    requires ExpiryOwed(c) && !LosesExpiry(c, actions)
    ensures ExpiryOwed(RunActions(c, actions))
    decreases actions
  {
    if actions != [] {
      if actions[0].Crash? {
        CrashKeepsExpiryOwedIff(c, actions[0].pid);
      } else {
        ActKeepsExpiryOwed(c, actions[0]);
      }
      OnlySoleDebtorsLoseExpiry(Act(c, actions[0]), actions[1..]);
    }
  }

  /** The next call for a key without expiry counts it on and gives it one, whatever was lost before. */
  lemma {:induction false} NextCallRestoresExpiry(
      c: Counter, pid: nat, key: string, ttlSeconds: int, now: int, later: int)
    requires pid !in c.due && key in c.store && c.store[key].expiresAt.None?
    ensures var after := Act(Act(c, Begin(pid, key, ttlSeconds, now)), Finish(pid, later));
            && after.due == c.due
            && Lookup(after.store, key) ==
               (if ttlSeconds > 0 then Some(Entry(c.store[key].value + 1, Some(later + ttlSeconds * 1000))) else None)
            && forall k :: k != key ==> Lookup(after.store, k) == Lookup(c.store, k)
  {
    var begun := Act(c, Begin(pid, key, ttlSeconds, now));
    assert begun.due == c.due[pid := Due(key, ttlSeconds)];
    assert begun.due - {pid} == c.due;
  }

  /** A crash between the two steps of a first call: a key that does not expire and that nobody owes an expiry. */
  lemma {:induction false} CrashLosesExpiry(key: string, ttlSeconds: int, now: int)
    ensures var c := RunActions(Counter(map[], map[]), [Begin(0, key, ttlSeconds, now), Crash(0)]);
            c.due == map[] && c.store == map[key := Entry(1, None)] && !ExpiryOwed(c)
  {
    var start := Counter(map[], map[]);
    var begun := Act(start, Begin(0, key, ttlSeconds, now));
    var actions := [Begin(0, key, ttlSeconds, now), Crash(0)];
    assert actions[1..] == [Crash(0)];
    assert RunActions(begun, [Crash(0)]) == RunActions(Act(begun, Crash(0)), []);
    assert key in Act(begun, Crash(0)).store;
  }
}
