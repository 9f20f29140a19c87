/** The JWT check and its cache of accepted tokens. */
module Jwt {
  import opened Wrappers
  import opened Text
  import opened Structs

  /** Seconds by which the library's own expiry check is lenient. */
  const LEEWAY := 60

  /**
   What lies outside: the cache key, the `exp` field read from a payload segment without verification (no result when
   it cannot be decoded), and the `exp` claim of a token whose signature and claims verify.
   */
  datatype Verifier = Verifier(
    hash: (string, string) -> u64,
    payload: string -> Option<Option<nat>>,
    signed: (string, string) -> Option<nat>)

  /** `exp` as the unverified pre-check reads it. */
  function UnverifiedExp(v: Verifier, token: string): Option<Option<nat>> {
    var parts := Split(token, '.');
    if |parts| != 3 then None else v.payload(parts[1])
  }

  /** The token is three segments without dots, joined by dots. */
  ghost predicate IsToken(token: string, header: string, payload: string, signature: string) {
    && token == header + "." + payload + "." + signature
    && '.' !in header && '.' !in payload && '.' !in signature
  }

  /** A token that verifies has three segments, and its middle one holds the verified `exp`. */
  ghost predicate Consistent(v: Verifier) {
    forall token, secret | v.signed(token, secret).Some? ::
      exists h, p, s :: IsToken(token, h, p, s) && v.payload(p) == Some(v.signed(token, secret))
  }

  /** The pre-check reads the middle segment. */
  lemma PayloadIsTheMiddle(v: Verifier, token: string, header: string, payload: string, signature: string)
    requires IsToken(token, header, payload, signature)
    ensures UnverifiedExp(v, token) == v.payload(payload)
  {
    var parts := [header, payload, signature];
    assert parts[1..] == [payload, signature] && parts[1..][1..] == [signature];
    assert Rejoin(parts[1..], '.') == payload + ['.'] + signature;
    assert token == header + ['.'] + (payload + ['.'] + signature) == Rejoin(parts, '.');
    JoinedSplits(parts, '.');
  }

  /** A token that has not exactly two dots is rejected before any decoding, unless it is cached. */
  lemma OtherTokensAreUnreadable(v: Verifier, token: string)
    requires forall h, p, s :: !IsToken(token, h, p, s)
    ensures UnverifiedExp(v, token) == None
  {
    var parts := Split(token, '.');
    SplitRejoins(token, '.');
    if |parts| == 3 {
      assert Rejoin(parts[1..], '.') == parts[1] + ['.'] + Rejoin(parts[1..][1..], '.');
      assert token == parts[0] + ['.'] + (parts[1] + ['.'] + parts[2]);
      assert IsToken(token, parts[0], parts[1], parts[2]);
    }
  }

  lemma SignedIsRead(v: Verifier, token: string, secret: string)
    requires Consistent(v) && v.signed(token, secret).Some?
    ensures UnverifiedExp(v, token) == Some(v.signed(token, secret))
  {
    var h, p, s :| IsToken(token, h, p, s) && v.payload(p) == Some(v.signed(token, secret));
    PayloadIsTheMiddle(v, token, h, p, s);
  }

  /** Whether a token is expired; no result when it cannot be read. */
  function IsExpired(v: Verifier, token: string, now: nat): Option<bool> {
    var exp := UnverifiedExp(v, token);
    if exp.None? then None
    else if exp.value.None? then Some(true)
    else Some(exp.value.value < now)
  }

  /** The library's decoding at time `now`: signature, claims, and expiry with its leeway. */
  function Decode(v: Verifier, token: string, secret: string, now: nat): Option<nat> {
    var exp := v.signed(token, secret);
    if exp.Some? && exp.value + LEEWAY >= now then exp else None
  }

  /** How long the cache keeps a new entry, in seconds. */
  function ExpireAfterCreate(exp: nat, now: nat): nat {
    if exp > now then exp - now else 0
  }

  /** The entry inserted at one instant is still visible at the other. */
  predicate Visible(exp: nat, inserted: real, seen: real) {
    0.0 <= inserted <= seen < inserted + (ExpireAfterCreate(exp, inserted.Floor) as real)
  }

  /**
   The lifetime is counted from the instant of the insert, but from the start of its second in the subtraction. So an
   entry is never visible after the second equal to its `exp`.
   */
  lemma VisibleUpToExp(exp: nat, inserted: real, seen: real)
    requires Visible(exp, inserted, seen)
    ensures seen.Floor <= exp
  {
    assert inserted < (inserted.Floor + 1) as real;
    assert seen < (exp + 1) as real;
  }

  /** It is still there when that second begins exactly when it was inserted earlier, but not right at the start of a second. */
  lemma VisibleAsExpBegins(exp: nat, inserted: real)
    requires 0.0 <= inserted
    ensures Visible(exp, inserted, exp as real) <==> inserted < exp as real && inserted != inserted.Floor as real
  {
    if inserted < exp as real {
      assert inserted.Floor < exp;
    }
  }

  /** And it can be visible within that second: inserted half a second before its `exp`, it is seen a quarter after it. */
  lemma VisibleAtExp(exp: nat)
    requires exp > 0
    ensures var (inserted, seen) := (exp as real - 0.5, exp as real + 0.25);
      inserted.Floor == exp - 1 && seen.Floor == exp && Visible(exp, inserted, seen)
  {
    var inserted := exp as real - 0.5;
    assert inserted.Floor == exp - 1;
    assert ExpireAfterCreate(exp, inserted.Floor) == 1;
  }

  datatype Checked = Checked(accepted: bool, cache: map<u64, nat>)

  /** One check, with the clock read before the lookup, during decoding and after it. */
  function Check(v: Verifier, cache: map<u64, nat>, token: string, secret: string, t0: nat, t1: nat, t2: nat): Checked {
    var key := v.hash(token, secret);
    if key in cache then Checked(cache[key] >= t0, cache)
    else if IsExpired(v, token, t0) != Some(false) then Checked(false, cache)
    else
      var exp := Decode(v, token, secret, t1);
      if exp.Some? && exp.value > t2 then Checked(true, cache[key := exp.value]) else Checked(false, cache)
  }

  /**
   What one check decides and leaves in the cache. A cached token is accepted unless its `exp` lies before the check;
   any other one must verify and have an `exp` after it, and only then is it cached. A token that is not made of three
   segments is rejected like every token that does not verify.
   */
  lemma CheckMeans(v: Verifier, cache: map<u64, nat>, token: string, secret: string, t0: nat, t1: nat, t2: nat)
    requires Consistent(v) && t0 <= t1 <= t2
    ensures var (key, signed, after) := (v.hash(token, secret), v.signed(token, secret), Check(v, cache, token, secret, t0, t1, t2));
      && (key in cache ==> after == Checked(t0 <= cache[key], cache))
      && (key !in cache ==>
            && (after.accepted <==> signed.Some? && signed.value > t2)
            && after.cache == if after.accepted then cache[key := signed.value] else cache)
  {
    if v.signed(token, secret).Some? {
      SignedIsRead(v, token, secret);
    }
  }

  class JwtCache {
    var entries: map<u64, nat>

    constructor ()
      ensures entries == map[]
    {
      entries := map[];
    }

    method CheckJwt(v: Verifier, token: string, secret: string, t0: nat, t1: nat, t2: nat) returns (accepted: bool)
      modifies this
      ensures Checked(accepted, entries) == Check(v, old(entries), token, secret, t0, t1, t2)
    {
      var key := v.hash(token, secret);
      if key in entries {
        var exp := entries[key];
        if exp < t0 {
          return false;
        }
        return true;
      }
      match IsExpired(v, token, t0)
      case None =>
        return false;
      case Some(expired) =>
        if expired {
          return false;
        }
      match Decode(v, token, secret, t1)
      case None =>
        return false;
      case Some(exp) =>
        if exp > t2 {
          entries := entries[key := exp];
          return true;
        }
        return false;
    }
  }

  // ----- runs -----

  /**
   Checks overlap, so a run is made of their moments: the lookup, with the answer it leads to; the insert of an earlier
   lookup that missed and was accepted; and the cache dropping an entry for any reason of its own.
   */
  datatype Event =
    | Look(token: string, secret: string, t0: nat, t1: nat, t2: nat, accepted: bool)
    | Insert(look: nat)
    | Evict(key: u64)
  {
    function Key(v: Verifier): u64
      requires Look?
    {
      v.hash(token, secret)
    }

    /** The verified `exp` of the token. */
    function Exp(v: Verifier): Option<nat>
      requires Look?
    {
      v.signed(token, secret)
    }

    /** The same check with an empty cache. */
    function Uncached(v: Verifier): Checked
      requires Look?
    {
      Check(v, map[], token, secret, t0, t1, t2)
    }
  }

  type Cache = map<u64, nat>

  /** Lookup `c` missed and its token was accepted, so an insert follows. */
  ghost predicate Missed(v: Verifier, caches: seq<Cache>, events: seq<Event>, c: nat)
    requires |caches| == |events| + 1
  {
    c < |events| && events[c].Look? && events[c].accepted && events[c].Key(v) !in caches[c]
  }

  /** Event `i` at its instant. The clock reads whole seconds: once before a lookup, twice after it. */
  ghost predicate Happens(v: Verifier, caches: seq<Cache>, events: seq<Event>, times: seq<real>, i: nat)
    requires |caches| == |events| + 1 && |times| == |events| && i < |events|
  {
    match events[i]
    case Look(token, secret, t0, t1, t2, accepted) =>
      && t0 <= times[i].Floor <= t1 <= t2
      && accepted == Check(v, caches[i], token, secret, t0, t1, t2).accepted
      && caches[i + 1] == caches[i]
    case Insert(c) =>
      && c < i && Missed(v, caches, events, c)
      && events[c].t2 <= times[i].Floor
      && caches[i + 1] == caches[i] + events[c].Uncached(v).cache
    case Evict(key) => caches[i + 1] == caches[i] - {key}
  }

  /** Any interleaving of any checks on a clock that does not go back, each missed lookup inserting at most once. */
  ghost predicate IsRun(v: Verifier, caches: seq<Cache>, events: seq<Event>, times: seq<real>) {
    && |caches| == |events| + 1 && |times| == |events|
    && caches[0] == map[]
    && (forall i | 0 <= i < |events| :: times[i] >= 0.0 && Happens(v, caches, events, times, i))
    && (forall i, j | 0 <= i < j < |events| :: times[i] <= times[j])
    && (forall i, j | 0 <= i < j < |events| && events[i].Insert? && events[j].Insert? :: events[i].look != events[j].look)
  }

  /** No two different pairs checked in the run share a cache key. */
  ghost predicate CollisionFree(v: Verifier, events: seq<Event>) {
    forall i, j | 0 <= i < |events| && 0 <= j < |events| && events[i].Look? && events[j].Look?
               && events[i].Key(v) == events[j].Key(v) ::
      events[i].token == events[j].token && events[i].secret == events[j].secret
  }

  /** A cached value is the verified `exp` of a pair checked in the run. */
  ghost predicate Backed(v: Verifier, events: seq<Event>, key: u64, exp: nat) {
    exists j :: 0 <= j < |events| && events[j].Look? && events[j].Key(v) == key && events[j].Exp(v) == Some(exp)
  }

  lemma {:induction false} CacheIsBacked(v: Verifier, caches: seq<Cache>, events: seq<Event>, times: seq<real>, i: nat)
    requires IsRun(v, caches, events, times) && i < |caches|
    ensures forall k | k in caches[i] :: Backed(v, events, k, caches[i][k])
    decreases i
  {
    if i == 0 {
    } else {
      CacheIsBacked(v, caches, events, times, i - 1);
      assert Happens(v, caches, events, times, i - 1);
      forall k | k in caches[i] ensures Backed(v, events, k, caches[i][k]) {
        if k in caches[i - 1] && caches[i][k] == caches[i - 1][k] {
          assert Backed(v, events, k, caches[i - 1][k]);
        } else {
          var e := events[events[i - 1].look];
          assert k == e.Key(v) && e.Exp(v) == Some(caches[i][k]);
        }
      }
    }
  }

  lemma CachedExpIsSigned(v: Verifier, caches: seq<Cache>, events: seq<Event>, times: seq<real>, i: nat, at: nat)
    requires IsRun(v, caches, events, times) && CollisionFree(v, events)
    requires i < |events| && events[i].Look? && at < |caches|
    ensures events[i].Key(v) in caches[at] ==> events[i].Exp(v) == Some(caches[at][events[i].Key(v)])
  {
    CacheIsBacked(v, caches, events, times, at);
    var key := events[i].Key(v);
    if key in caches[at] {
      assert Backed(v, events, key, caches[at][key]);
    }
  }

  /**
   What every check of every interleaving decides: the token must verify, and its `exp` must lie after the check's last
   look at the clock; a token found in the cache is accepted up to and including its `exp`.
   */
  lemma AcceptedExactlyWhen(v: Verifier, caches: seq<Cache>, events: seq<Event>, times: seq<real>, i: nat)
    requires Consistent(v) && IsRun(v, caches, events, times) && CollisionFree(v, events)
    requires i < |events| && events[i].Look?
    ensures var (e, exp) := (events[i], events[i].Exp(v));
      e.accepted <==> exp.Some? && (exp.value > e.t2 || (e.Key(v) in caches[i] && exp.value >= e.t0))
  {
    assert Happens(v, caches, events, times, i);
    var e := events[i];
    CheckMeans(v, caches[i], e.token, e.secret, e.t0, e.t1, e.t2);
    CheckMeans(v, map[], e.token, e.secret, e.t0, e.t1, e.t2);
    CachedExpIsSigned(v, caches, events, times, i, i);
  }

  /**
   Agreement with full verification: a check differs from the uncached one exactly when the token is found in the cache
   and its `exp` falls within the check, from its first to its last look at the clock.
   */
  lemma AgreesWithUncached(v: Verifier, caches: seq<Cache>, events: seq<Event>, times: seq<real>, i: nat)
    requires Consistent(v) && IsRun(v, caches, events, times) && CollisionFree(v, events)
    requires i < |events| && events[i].Look?
    ensures var e := events[i];
      e.accepted != e.Uncached(v).accepted <==> e.Key(v) in caches[i] && e.t0 <= caches[i][e.Key(v)] <= e.t2
  {
    assert Happens(v, caches, events, times, i);
    var e := events[i];
    CheckMeans(v, caches[i], e.token, e.secret, e.t0, e.t1, e.t2);
    CheckMeans(v, map[], e.token, e.secret, e.t0, e.t1, e.t2);
    CachedExpIsSigned(v, caches, events, times, i, i);
  }

  /** No token is accepted after its `exp`, cached or not. */
  lemma NeverAcceptedPastExp(v: Verifier, caches: seq<Cache>, events: seq<Event>, times: seq<real>, i: nat)
    requires Consistent(v) && IsRun(v, caches, events, times) && CollisionFree(v, events)
    requires i < |events| && events[i].Look? && events[i].accepted
    ensures events[i].Exp(v).Some? && events[i].t0 <= events[i].Exp(v).value
  {
    assert Happens(v, caches, events, times, i);
    AcceptedExactlyWhen(v, caches, events, times, i);
  }

  // ----- after a rejection -----

  /**
   After a verifying token was rejected, a check that starts no earlier than the rejecting one ended accepts it exactly
   when it finds it in the cache and starts in the very second of its `exp`.
   */
  lemma AcceptedAfterRejectionExactlyWhen(v: Verifier, caches: seq<Cache>, events: seq<Event>, times: seq<real>, i: nat, j: nat)
    requires Consistent(v) && IsRun(v, caches, events, times) && CollisionFree(v, events)
    requires i < |events| && events[i].Look? && events[i].Exp(v).Some? && !events[i].accepted
    requires j < |events| && events[j].Look? && events[j].token == events[i].token && events[j].secret == events[i].secret
    requires events[i].t2 <= events[j].t0
    ensures events[j].accepted <==> events[j].Key(v) in caches[j] && events[j].t0 == events[i].Exp(v).value
  {
    assert Happens(v, caches, events, times, j);
    AcceptedExactlyWhen(v, caches, events, times, i);
    AcceptedExactlyWhen(v, caches, events, times, j);
  }

  /** Checks one after the other: the next one starts after the last look at the clock, and after the insert, of each. */
  ghost predicate Sequential(events: seq<Event>) {
    && (forall i, j | 0 <= i < j < |events| && events[i].Look? && events[j].Look? :: events[i].t2 <= events[j].t0)
    && (forall i, k | 0 <= i < k < |events| && events[i].Look? && events[k].Insert? :: events[k].look >= i)
  }

  /** A key that appears between two points of a run was inserted between them. */
  lemma {:induction false} KeyWasInserted(v: Verifier, caches: seq<Cache>, events: seq<Event>, times: seq<real>, i: nat, j: nat, key: u64)
    returns (k: nat)
    requires IsRun(v, caches, events, times) && i <= j < |caches|
    requires key !in caches[i] && key in caches[j]
    ensures i <= k < j && events[k].Insert? && events[k].look < k && events[events[k].look].Look?
    ensures events[events[k].look].Key(v) == key && events[events[k].look].accepted && Missed(v, caches, events, events[k].look)
    decreases j
  {
    assert i < j;
    if key in caches[j - 1] {
      k := KeyWasInserted(v, caches, events, times, i, j - 1, key);
    } else {
      k := j - 1;
      assert Happens(v, caches, events, times, k);
    }
  }

  /** Where checks do not overlap, a verifying token once rejected stays rejected for the rest of the run. */
  lemma RejectedForGood(v: Verifier, caches: seq<Cache>, events: seq<Event>, times: seq<real>, i: nat, j: nat)
    requires Consistent(v) && IsRun(v, caches, events, times) && CollisionFree(v, events) && Sequential(events)
    requires i < j < |events| && events[i].Look? && events[j].Look?
    requires events[j].token == events[i].token && events[j].secret == events[i].secret
    requires events[i].Exp(v).Some? && !events[i].accepted
    ensures !events[j].accepted
  {
    AcceptedAfterRejectionExactlyWhen(v, caches, events, times, i, j);
    AcceptedExactlyWhen(v, caches, events, times, i);
    assert Happens(v, caches, events, times, i);
    if events[j].accepted {
      assert events[i].Key(v) !in caches[i];
      var k := KeyWasInserted(v, caches, events, times, i, j, events[j].Key(v));
      var c := events[k].look;
      assert Happens(v, caches, events, times, c);
      AcceptedExactlyWhen(v, caches, events, times, c);
      assert false;
    }
  }

  // ----- runs the cache's own expiry allows -----

  /** Insert `k` put in the entry that lookup `j` finds. */
  ghost predicate Feeds(v: Verifier, events: seq<Event>, k: nat, j: nat)
    requires k < j < |events| && events[j].Look?
  {
    events[k].Insert? && events[k].look < |events| && events[events[k].look].Look? && events[events[k].look].Key(v) == events[j].Key(v)
  }

  /** Every hit finds an entry that is still within the lifetime it was given by some insert before. */
  ghost predicate WithinLifetimes(v: Verifier, caches: seq<Cache>, events: seq<Event>, times: seq<real>)
    requires |caches| == |events| + 1 && |times| == |events|
  {
    forall j | 0 <= j < |events| && events[j].Look? && events[j].Key(v) in caches[j] ::
      exists k :: 0 <= k < j && Feeds(v, events, k, j) && Visible(caches[j][events[j].Key(v)], times[k], times[j])
  }

  /** Within the lifetimes a token found in the cache is always accepted: the comparison with its `exp` never fails. */
  lemma HitsAreAccepted(v: Verifier, caches: seq<Cache>, events: seq<Event>, times: seq<real>, j: nat)
    requires IsRun(v, caches, events, times) && WithinLifetimes(v, caches, events, times)
    requires j < |events| && events[j].Look? && events[j].Key(v) in caches[j]
    ensures events[j].accepted
  {
    assert Happens(v, caches, events, times, j);
    var k :| 0 <= k < j && Feeds(v, events, k, j) && Visible(caches[j][events[j].Key(v)], times[k], times[j]);
    VisibleUpToExp(caches[j][events[j].Key(v)], times[k], times[j]);
  }

  /**
   The exception is real: a token checked and inserted in the second before its `exp` is found in the second of its
   `exp`, within its lifetime, and accepted, though an uncached check rejects it.
   */
  lemma AcceptedAtExpWhenCached(v: Verifier, token: string, secret: string, exp: nat)
    returns (caches: seq<Cache>, events: seq<Event>, times: seq<real>)
    requires Consistent(v) && v.signed(token, secret) == Some(exp) && exp > 0
    ensures IsRun(v, caches, events, times) && Sequential(events) && WithinLifetimes(v, caches, events, times)
    ensures |events| == 3 && events[2] == Look(token, secret, exp, exp, exp, true)
    ensures !events[2].Uncached(v).accepted
  {
    var cache := map[v.hash(token, secret) := exp];
    var t := exp as real;
    caches := [map[], map[], cache, cache];
    events := [Look(token, secret, exp - 1, exp - 1, exp - 1, true), Insert(0), Look(token, secret, exp, exp, exp, true)];
    times := [t - 0.75, t - 0.5, t + 0.25];
    VisibleAtExp(exp);
    hide Check, Visible;
    CheckMeans(v, map[], token, secret, exp - 1, exp - 1, exp - 1);
    CheckMeans(v, map[], token, secret, exp, exp, exp);
    CheckMeans(v, cache, token, secret, exp, exp, exp);
    assert times[0].Floor == exp - 1;
    assert Happens(v, caches, events, times, 0);
    assert Missed(v, caches, events, 0);
    assert Happens(v, caches, events, times, 1);
    assert Happens(v, caches, events, times, 2);
    assert Feeds(v, events, 1, 2) && Visible(exp, times[1], times[2]);
  }

  /**
   Overlapping checks, within the lifetimes: the second check misses before the first one inserts, and is rejected
   because it ends in the second of `exp`; a third one, started after that, finds the entry and accepts.
   */
  lemma OverlapAcceptsAfterRejection(v: Verifier, token: string, secret: string, exp: nat)
    returns (caches: seq<Cache>, events: seq<Event>, times: seq<real>)
    requires Consistent(v) && v.signed(token, secret) == Some(exp) && exp > 0
    ensures IsRun(v, caches, events, times) && WithinLifetimes(v, caches, events, times)
    ensures |events| == 4
    ensures events[1] == Look(token, secret, exp - 1, exp - 1, exp, false)
    ensures events[3] == Look(token, secret, exp, exp, exp, true)
  {
    var cache := map[v.hash(token, secret) := exp];
    var t := exp as real;
    caches := [map[], map[], map[], cache, cache];
    events := [Look(token, secret, exp - 1, exp - 1, exp - 1, true), Look(token, secret, exp - 1, exp - 1, exp, false),
               Insert(0), Look(token, secret, exp, exp, exp, true)];
    times := [t - 0.75, t - 0.625, t - 0.5, t + 0.25];
    VisibleAtExp(exp);
    hide Check, Visible;
    CheckMeans(v, map[], token, secret, exp - 1, exp - 1, exp - 1);
    CheckMeans(v, map[], token, secret, exp - 1, exp - 1, exp);
    CheckMeans(v, cache, token, secret, exp, exp, exp);
    assert times[0].Floor == exp - 1 && times[1].Floor == exp - 1;
    assert Happens(v, caches, events, times, 0);
    assert Happens(v, caches, events, times, 1);
    assert Missed(v, caches, events, 0);
    assert Happens(v, caches, events, times, 2);
    assert Happens(v, caches, events, times, 3);
    assert Feeds(v, events, 2, 3) && Visible(exp, times[2], times[3]);
  }
}
