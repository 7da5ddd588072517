/**
 The access-token blacklist and the lifetime that logout gives an entry. The clock is read in
 floored seconds, the store expires keys by the millisecond, and both see one instant per logout.
 A token's `exp` is in seconds, as in section 4.1.4 of RFC 7519.
 */
module Blacklist {
  import opened Wrappers
  import opened Redis

  function BlacklistKey(jti: string): string {
    "bl:" + jti
  }

  /** The system clock in whole seconds, rounded down. */
  function Unix(now: int): int {
    now / 1000
  }

  class RedisTokenBlacklistService {
    const redis: RedisClient

    constructor (redis: RedisClient)
      ensures this.redis == redis
    {
      this.redis := redis;
    }

    /** The store's refusal of a time to live of zero or less is passed on. */
    method BlacklistToken(jti: string, ttlSeconds: int, now: int) returns (r: Result<(), RedisError>)
      modifies redis
      ensures ttlSeconds > 0 ==>
                r == Ok(()) && redis.store ==
                    old(redis.store)["bl:" + jti := Entry(1, Some(now + ttlSeconds * 1000))]
      ensures ttlSeconds <= 0 ==> r == Err(InvalidExpireTime) && redis.store == old(redis.store)
    {
      r := redis.SetEx(BlacklistKey(jti), 1, ttlSeconds, now);
    }

    method IsBlacklisted(jti: string, now: int) returns (blacklisted: bool)
      ensures blacklisted == Blacklisted(redis.store, jti, now)
    {
      blacklisted := redis.Exists(BlacklistKey(jti), now);
    }

    method Remove(jti: string)
      modifies redis
      ensures redis.store == Put(old(redis.store), "bl:" + jti, None)
    {
      redis.Del(BlacklistKey(jti));
    }
  }

  predicate Blacklisted(store: Store, jti: string, now: int) {
    Live(Lookup(store, "bl:" + jti), now)
  }

  /** What logout reads from the decoded access token; an empty jti or zero exp counts as absent. */
  datatype AccessToken = AccessToken(jti: Option<string>, exp: Option<int>, sessionId: Option<string>)

  predicate Identified(token: AccessToken) {
    token.jti.Some? && token.jti.value != "" && token.exp.Some? && token.exp.value != 0
  }

  /** Whether a logout at this instant writes an entry. */
  predicate WritesEntry(token: AccessToken, now: int) {
    Identified(token) && token.exp.value - Unix(now) > 0
  }

  function BlacklistStep(store: Store, token: Option<AccessToken>, now: int): Store {
    if token.Some? && WritesEntry(token.value, now) then
      store[BlacklistKey(token.value.jti.value) :=
              Entry(1, Some(now + (token.value.exp.value - Unix(now)) * 1000))]
    else store
  }

  // ---------------------------------------------------------------------------------------
  // Runs of logouts

  datatype Logout = Logout(token: Option<AccessToken>, at: int)

  function RunLogouts(store: Store, logouts: seq<Logout>): Store
    decreases logouts
  {
    if logouts == [] then store
    else
      BlacklistStep(RunLogouts(store, logouts[..|logouts| - 1]),
                    logouts[|logouts| - 1].token, logouts[|logouts| - 1].at)
  }

  /** Logout i wrote the entry of `jti`, and no later logout in the run wrote it again. */
  ghost predicate LastWrite(logouts: seq<Logout>, jti: string, i: nat) {
    && i < |logouts| && Writes(logouts[i], jti)
    && forall k :: i < k < |logouts| ==> !Writes(logouts[k], jti)
  }

  /** A logout presents a token with this jti, and with an `exp` that is still to come. */
  ghost predicate Writes(l: Logout, jti: string) {
    && Presents(l) && l.token.value.jti == Some(jti)
    && l.at < l.token.value.exp.value * 1000
  }

  /** The logout presents a token with a jti and an `exp`, neither of them empty. */
  ghost predicate Presents(l: Logout) {
    && l.token.Some?
    && l.token.value.jti.Some? && l.token.value.jti.value != ""
    && l.token.value.exp.Some? && l.token.value.exp.value != 0
  }

  /** The entry's expiry: the token's own plus the milliseconds the clock rounded away. */
  ghost function EntryExpiry(l: Logout): int
    requires Presents(l)
  {
    l.token.value.exp.value * 1000 + l.at % 1000
  }

  lemma {:induction false} KeysDiffer(a: string, b: string)
    ensures BlacklistKey(a) == BlacklistKey(b) <==> a == b
  {
    assert BlacklistKey(a)[3..] == a && BlacklistKey(b)[3..] == b;
  }

  /** Whatever the run, the entry is the one its last writing logout gave it. */
  lemma {:induction false} EntryIsLastWrite(logouts: seq<Logout>, jti: string)
    ensures Lookup(RunLogouts(map[], logouts), "bl:" + jti) == None ==>
              forall i :: 0 <= i < |logouts| ==> !Writes(logouts[i], jti)
    ensures forall i: nat :: LastWrite(logouts, jti, i) ==>
              Lookup(RunLogouts(map[], logouts), "bl:" + jti) == Some(Entry(1, Some(EntryExpiry(logouts[i]))))
    ensures Lookup(RunLogouts(map[], logouts), "bl:" + jti) != None ==>
              exists i: nat :: LastWrite(logouts, jti, i)
    decreases logouts
  {
    if logouts != [] {
      var n := |logouts| - 1;
      var last := logouts[n];
      var before := logouts[..n];
      EntryIsLastWrite(before, jti);
      if last.token.Some? && WritesEntry(last.token.value, last.at) {
        KeysDiffer(last.token.value.jti.value, jti);
      }
      if Writes(last, jti) {
        assert LastWrite(logouts, jti, n);
      } else {
        forall i: nat
          ensures LastWrite(before, jti, i) <==> LastWrite(logouts, jti, i)
        {
        }
      }
    }
  }

  /** An entry that exists expires less than a second after its token, and never before it. */
  lemma {:induction false} EntryLifetimeIsTight(logouts: seq<Logout>, jti: string)
    requires Lookup(RunLogouts(map[], logouts), "bl:" + jti).Some?
    ensures exists i :: 0 <= i < |logouts| && Writes(logouts[i], jti) &&
              var exp := logouts[i].token.value.exp.value;
              var entry := RunLogouts(map[], logouts)["bl:" + jti];
              entry.expiresAt.Some? && exp * 1000 <= entry.expiresAt.value < exp * 1000 + 1000
  {
    EntryIsLastWrite(logouts, jti);
    var i: nat :| LastWrite(logouts, jti, i);
    assert Writes(logouts[i], jti);
  }

  // ---------------------------------------------------------------------------------------
  // How long a logged-out token stays refused

  predicate InOrder(logouts: seq<Logout>) {
    forall a, b :: 0 <= a < b < |logouts| ==> logouts[a].at <= logouts[b].at
  }

  /** From an instant on, at every instant the token is blacklisted or has expired. */
  ghost predicate StaysDead(store: Store, jti: string, exp: int, from: int) {
    forall t :: t >= from ==> Blacklisted(store, jti, t) || t >= exp * 1000
  }

  /** The last logout to write the entry of `jti` presented an `exp` no earlier than this one. */
  ghost predicate LastWriteCovers(logouts: seq<Logout>, jti: string, exp: int) {
    exists k: nat :: LastWrite(logouts, jti, k) && logouts[k].token.value.exp.value >= exp
  }

  /**
   Logout decodes the access token without verifying it, so a later one may present the same jti
   with another `exp`. After any run of logouts, a token that one of them presented is blacklisted
   or expired at every instant exactly if it has expired by the end of the run or the last logout
   to write its jti presented an `exp` that is no earlier.
   */
  lemma {:induction false} LoggedOutTokenIsDeadIff(logouts: seq<Logout>, i: nat)
    requires InOrder(logouts) && i < |logouts|
    requires Presents(logouts[i])
    ensures var jti := logouts[i].token.value.jti.value;
            var exp := logouts[i].token.value.exp.value;
            var end := logouts[|logouts| - 1].at;
            StaysDead(RunLogouts(map[], logouts), jti, exp, end) <==>
            end >= exp * 1000 || LastWriteCovers(logouts, jti, exp)
  {
    var jti := logouts[i].token.value.jti.value;
    var exp := logouts[i].token.value.exp.value;
    var end := logouts[|logouts| - 1].at;
    EntryIsLastWrite(logouts, jti);
    if end < exp * 1000 {
      assert Writes(logouts[i], jti);
      var k: nat :| LastWrite(logouts, jti, k);
      LastWriteDecides(logouts, jti, exp, end, k);
    }
  }

  lemma {:induction false} LastWriteDecides(logouts: seq<Logout>, jti: string, exp: int, end: int, k: nat)
    requires LastWrite(logouts, jti, k) && end < exp * 1000
    ensures StaysDead(RunLogouts(map[], logouts), jti, exp, end) <==> LastWriteCovers(logouts, jti, exp)
  {
    var store := RunLogouts(map[], logouts);
    var expiry := EntryExpiry(logouts[k]);
    EntryIsLastWrite(logouts, jti);
    forall t
      ensures Blacklisted(store, jti, t) <==> t < expiry
    {
    }
    if logouts[k].token.value.exp.value < exp {
      var t := if end >= expiry then end else expiry;
      assert t >= end && !Blacklisted(store, jti, t) && t < exp * 1000;
    }
  }

  /** Every logout of the run that presents this jti presents this `exp`. */
  predicate PresentsOneToken(logouts: seq<Logout>, jti: string, exp: int) {
    forall l :: l in logouts && l.token.Some? && l.token.value.jti == Some(jti) ==> l.token.value.exp == Some(exp)
  }

  /**
   If all logouts that present the jti present the one genuine token, repeatedly perhaps, it is
   blacklisted or expired at every later instant, and blacklisted at most until one second after its
   expiry.
   */
  lemma {:induction false} GenuineTokenIsDead(logouts: seq<Logout>, i: nat, t: int)
    requires InOrder(logouts)
    requires i < |logouts| && Presents(logouts[i])
    requires PresentsOneToken(logouts, logouts[i].token.value.jti.value, logouts[i].token.value.exp.value)
    requires t >= logouts[|logouts| - 1].at
    ensures var jti := logouts[i].token.value.jti.value;
            var exp := logouts[i].token.value.exp.value;
            && (Blacklisted(RunLogouts(map[], logouts), jti, t) || t >= exp * 1000)
            && (Blacklisted(RunLogouts(map[], logouts), jti, t) ==> t < exp * 1000 + 1000)
  {
    var jti := logouts[i].token.value.jti.value;
    var exp := logouts[i].token.value.exp.value;
    EntryIsLastWrite(logouts, jti);
    if Lookup(RunLogouts(map[], logouts), "bl:" + jti).Some? {
      var k: nat :| LastWrite(logouts, jti, k);
      assert logouts[k] in logouts;
    } else {
      // This logout wrote nothing, so its token had expired by then.
      assert !Writes(logouts[i], jti);
      assert exp - Unix(logouts[i].at) <= 0;
    }
  }

  /** A second logout with the same jti and an `exp` of one second shortens the entry to one second. */
  lemma {:induction false} OtherTokenShortensEntry(jti: string)
    requires jti != ""
    ensures var genuine := Logout(Some(AccessToken(Some(jti), Some(1000), None)), 0);
            var other := Logout(Some(AccessToken(Some(jti), Some(1), None)), 0);
            && Blacklisted(RunLogouts(map[], [genuine]), jti, 999_999)
            && !Blacklisted(RunLogouts(map[], [genuine, other]), jti, 1000)
            && !StaysDead(RunLogouts(map[], [genuine, other]), jti, 1000, 0)
  {
    var genuine := Logout(Some(AccessToken(Some(jti), Some(1000), None)), 0);
    var other := Logout(Some(AccessToken(Some(jti), Some(1), None)), 0);
    EntryIsLastWrite([genuine], jti);
    EntryIsLastWrite([genuine, other], jti);
    assert LastWrite([genuine], jti, 0) && LastWrite([genuine, other], jti, 1);
    assert 1000 >= 0 && !Blacklisted(RunLogouts(map[], [genuine, other]), jti, 1000);
  }

  /** A token that no logout has written is never blacklisted. */
  lemma {:induction false} OnlyLoggedOutTokensAreBlacklisted(logouts: seq<Logout>, jti: string, t: int)
    ensures Blacklisted(RunLogouts(map[], logouts), jti, t) ==> exists l :: l in logouts && Writes(l, jti)
  {
    EntryIsLastWrite(logouts, jti);
    if i: nat :| LastWrite(logouts, jti, i) {
      assert logouts[i] in logouts;
    }
  }
}
