/** The per-client limiter of 4xx answers. */
module Limiter {
  import opened Wrappers
  import opened Structs

  /** Time is counted in nanoseconds; an entry lives for one second from its last write. */
  const TTL: nat := 1_000_000_000
  const U32_RANGE: nat := 0x1_0000_0000

  datatype Entry = Entry(count: u32, written: nat)

  /** `REQUESTS_4XX`: the counts by client address. */
  class Requests4xx {
    var entries: map<string, Entry>

    constructor ()
      ensures entries == map[]
    {
      entries := map[];
    }
  }

  /** What a lookup finds at time `now`. */
  function Live(entry: Option<Entry>, now: nat): nat {
    if entry.Some? && now < entry.value.written + TTL then entry.value.count else 0
  }

  function EntryOf(entries: map<string, Entry>, ip: string): Option<Entry> {
    if ip in entries then Some(entries[ip]) else None
  }

  predicate Is4xx(status: nat) {
    400 <= status <= 499
  }

  /** The entry after one more counted answer; the count wraps like any release-built `u32`. */
  function Counted(entry: Option<Entry>, now: nat): Entry {
    Entry((Live(entry, now) + 1) % U32_RANGE, now)
  }

  /** The limiter part of `request_filter`: whether to refuse with 429, and the limit the context keeps. */
  method Admit(store: Requests4xx, ip: Option<string>, inner: Option<u32>, global: Option<u32>, now: nat)
    returns (refused: bool, ctxLimit: Option<u32>)
    ensures ctxLimit == inner
    ensures refused <==> inner.Or(global).Some? && ip.Some? && Live(EntryOf(store.entries, ip.value), now) > inner.Or(global).value
    ensures refused <==>
      && ip.Some? && ip.value in store.entries && now < store.entries[ip.value].written + 1_000_000_000
      && ((inner.Some? && store.entries[ip.value].count > inner.value)
          || (inner.None? && global.Some? && store.entries[ip.value].count > global.value))
  {
    ctxLimit := None;
    match inner.Or(global)
    case None =>
      return false, None;
    case Some(rate) =>
      ctxLimit := inner;
      if ip.Some? {
        var count := Live(EntryOf(store.entries, ip.value), now);
        if count > rate {
          return true, ctxLimit;
        }
      }
      return false, ctxLimit;
  }

  /** The counting part of `logging`. */
  method Log(store: Requests4xx, ip: Option<string>, status: nat, ctxLimit: Option<u32>, global: Option<u32>, now: nat)
    modifies store
    ensures store.entries ==
      if ctxLimit.Or(global).Some? && Is4xx(status) && ip.Some?
      then old(store.entries)[ip.value := Counted(EntryOf(old(store.entries), ip.value), now)]
      else old(store.entries)
    ensures (ctxLimit.None? && global.None?) || status < 400 || status > 499 || ip.None? ==> store.entries == old(store.entries)
    ensures (ctxLimit.Some? || global.Some?) && 400 <= status <= 499 && ip.Some? ==>
      var before := old(store.entries);
      store.entries == before[ip.value := Entry(
        if ip.value in before && now < before[ip.value].written + 1_000_000_000 then (before[ip.value].count + 1) % 0x1_0000_0000 else 1,
        now)]
  {
    if ctxLimit.Or(global).Some? {
      if 400 <= status <= 499 {
        if ip.Some? {
          var current := Live(EntryOf(store.entries, ip.value), now);
          store.entries := store.entries[ip.value := Entry((current + 1) % U32_RANGE, now)];
        }
      }
    }
  }

  // ----- runs of one client -----

  /**
   One request of the client: when it reaches the proxy, when its answer is logged, whether it gets as far as the
   limiter, its backend's own limit, and the status it is answered with unless refused.
   */
  datatype Exchange = Exchange(arrive: nat, finish: nat, reaches: bool, inner: Option<u32>, status: nat)

  /** One exchange after another, under the limit `r` wherever the limiter is reached. */
  ghost predicate Sequential(exchanges: seq<Exchange>, global: Option<u32>, r: u32) {
    && (forall i | 0 <= i < |exchanges| :: exchanges[i].arrive <= exchanges[i].finish)
    && (forall i | 0 <= i < |exchanges| && exchanges[i].reaches :: exchanges[i].inner.Or(global) == Some(r))
    && (forall i, j | 0 <= i < j < |exchanges| :: exchanges[i].finish <= exchanges[j].arrive)
  }

  predicate Refused(entry: Option<Entry>, e: Exchange, r: u32) {
    e.reaches && Live(entry, e.arrive) > r
  }

  /** An answer is counted when it is a 4xx one, a refusal included, and a limit is in force for it. */
  predicate IsCounted(entry: Option<Entry>, e: Exchange, global: Option<u32>, r: u32) {
    && (if e.reaches then true else global.Some?)
    && Is4xx(if Refused(entry, e, r) then 429 else e.status)
  }

  /** The client's entry after its exchanges, as the two methods leave it. */
  function After(exchanges: seq<Exchange>, global: Option<u32>, r: u32): Option<Entry> {
    if exchanges == [] then None
    else
      var n := |exchanges| - 1;
      var before := After(exchanges[..n], global, r);
      if IsCounted(before, exchanges[n], global, r) then Some(Counted(before, exchanges[n].finish)) else before
  }

  /** The times at which an answer was counted. */
  function CountedTimes(exchanges: seq<Exchange>, global: Option<u32>, r: u32): seq<nat> {
    if exchanges == [] then []
    else
      var n := |exchanges| - 1;
      CountedTimes(exchanges[..n], global, r) +
        if IsCounted(After(exchanges[..n], global, r), exchanges[n], global, r) then [exchanges[n].finish] else []
  }

  /** One exchange of a client, run through both phases. */
  method HandleExchange(store: Requests4xx, ip: string, e: Exchange, global: Option<u32>, r: u32) returns (refused: bool)
    requires e.reaches ==> e.inner.Or(global) == Some(r)
    modifies store
    ensures refused == Refused(EntryOf(old(store.entries), ip), e, r)
    ensures store.entries == var entry := EntryOf(old(store.entries), ip);
      if IsCounted(entry, e, global, r) then old(store.entries)[ip := Counted(entry, e.finish)] else old(store.entries)
  {
    var ctxLimit: Option<u32> := None;
    refused := false;
    if e.reaches {
      refused, ctxLimit := Admit(store, Some(ip), e.inner, global, e.arrive);
    }
    Log(store, Some(ip), if refused then 429 else e.status, ctxLimit, global, e.finish);
  }

  // ----- bursts -----

  /** How many of the last times are less than a second apart. */
  function Burst(times: seq<nat>): (b: nat)
    ensures b <= |times|
  {
    if |times| == 0 then 0
    else if |times| == 1 then 1
    else if times[|times| - 1] < times[|times| - 2] + TTL then 1 + Burst(times[..|times| - 1])
    else 1
  }

  /** The burst is the longest suffix with gaps under a second. */
  lemma {:induction false} BurstIsLongestSuffix(times: seq<nat>)
    ensures var (n, b) := (|times|, Burst(times));
      && (n > 0 ==> b > 0)
      && (forall i | n - b < i < n :: times[i] < times[i - 1] + TTL)
      && (0 < b < n ==> times[n - b] >= times[n - b - 1] + TTL)
  {
    if |times| <= 1 {
    } else {
      BurstIsLongestSuffix(times[..|times| - 1]);
    }
  }

  /** The size of the burst still running at `now`. */
  function CurrentBurst(times: seq<nat>, now: nat): nat {
    if |times| == 0 || now >= times[|times| - 1] + TTL then 0 else Burst(times)
  }

  lemma BurstGrows(times: seq<nat>, now: nat)
    ensures Burst(times + [now]) == 1 + CurrentBurst(times, now)
  {
    var more := times + [now];
    assert more[..|more| - 1] == times;
  }

  /** The stored count is the size of the last burst, counted in 32 bits, and was written at the last time. */
  predicate CountsLastBurst(entry: Option<Entry>, times: seq<nat>) {
    && (entry.None? <==> times == [])
    && (entry.Some? ==> entry.value == Entry(Burst(times) % U32_RANGE, times[|times| - 1]))
  }

  lemma OneMoreCounted(entry: Option<Entry>, times: seq<nat>, now: nat)
    requires CountsLastBurst(entry, times)
    ensures CountsLastBurst(Some(Counted(entry, now)), times + [now])
  {
    BurstGrows(times, now);
    assert Live(entry, now) == CurrentBurst(times, now) % U32_RANGE;
    WrapOnce(CurrentBurst(times, now));
  }

  /** So it is in every run. */
  lemma {:induction false} EntryCountsBurst(exchanges: seq<Exchange>, global: Option<u32>, r: u32)
    ensures CountsLastBurst(After(exchanges, global, r), CountedTimes(exchanges, global, r))
  {
    hide Counted, IsCounted, CountsLastBurst;
    if exchanges == [] {
      assert CountsLastBurst(None, []) by {
        NothingCounted();
      }
    } else {
      var n := |exchanges| - 1;
      var e, front := exchanges[n], exchanges[..n];
      var before, times := After(front, global, r), CountedTimes(front, global, r);
      EntryCountsBurst(front, global, r);
      if IsCounted(before, e, global, r) {
        OneMoreCounted(before, times, e.finish);
      } else {
        assert CountedTimes(exchanges, global, r) == times + [] == times;
      }
    }
  }

  lemma NothingCounted()
    ensures CountsLastBurst(None, [])
  {
  }

  lemma WrapOnce(b: nat)
    ensures (b % U32_RANGE + 1) % U32_RANGE == (b + 1) % U32_RANGE
  {
  }

  /**
   In every run of one client: the live count is the number of counted answers of the current burst, and a request
   that reaches the limiter is refused exactly when it exceeds the limit. Counts are 32 bits wide and wrap.
   */
  lemma RefusedExactlyInBurst(exchanges: seq<Exchange>, global: Option<u32>, r: u32, i: nat)
    requires Sequential(exchanges, global, r) && i < |exchanges| && exchanges[i].reaches
    ensures var (entry, times) := (After(exchanges[..i], global, r), CountedTimes(exchanges[..i], global, r));
      && Live(entry, exchanges[i].arrive) == CurrentBurst(times, exchanges[i].arrive) % U32_RANGE
      && (Refused(entry, exchanges[i], r) <==> CurrentBurst(times, exchanges[i].arrive) % U32_RANGE > r)
  {
    EntryCountsBurst(exchanges[..i], global, r);
  }

  /**
   Which answers are counted, told by the times alone: those of 400 to 499 that a limit is in force for, and the refusals,
   which are the requests that reach the limiter while the current burst exceeds the limit.
   */
  lemma CountedByBursts(exchanges: seq<Exchange>, global: Option<u32>, r: u32, i: nat)
    requires i < |exchanges|
    ensures var (e, times) := (exchanges[i], CountedTimes(exchanges[..i], global, r));
      CountedTimes(exchanges[..i + 1], global, r) ==
        if || (e.reaches && CurrentBurst(times, e.arrive) % 0x1_0000_0000 > r)
           || ((e.reaches || global.Some?) && 400 <= e.status <= 499)
        then times + [e.finish] else times
  {
    var all := exchanges[..i + 1];
    assert all[..i] == exchanges[..i];
    EntryCountsBurst(exchanges[..i], global, r);
    assert CountedTimes(exchanges[..i], global, r) + [] == CountedTimes(exchanges[..i], global, r);
  }

  /** The request reaches the limiter, and both it and its answer come within a second of the last counted answer. */
  predicate KeepsComing(entry: Option<Entry>, e: Exchange) {
    e.reaches && entry.Some? && e.arrive <= e.finish < entry.value.written + TTL
  }

  /** A refused request leaves its client's count one higher, so the next one in time is refused too, unless the count wraps. */
  lemma RefusalPersists(entry: Option<Entry>, e: Exchange, next: Exchange, global: Option<u32>, r: u32)
    requires Refused(entry, e, r) && KeepsComing(entry, e)
    ensures IsCounted(entry, e, global, r)
    ensures var after := Some(Counted(entry, e.finish));
      KeepsComing(after, next) ==> (Refused(after, next, r) <==> entry.value.count + 1 < U32_RANGE)
  {
  }

  /** From exchange `i` on each request reaches the limiter and keeps coming. */
  ghost predicate KeepComing(exchanges: seq<Exchange>, global: Option<u32>, r: u32, i: nat) {
    forall j | i <= j < |exchanges| :: KeepsComing(After(exchanges[..j], global, r), exchanges[j])
  }

  /** Once refused, a client that keeps coming stays refused, until its count would wrap. */
  lemma {:induction false} RefusedWhileComing(exchanges: seq<Exchange>, global: Option<u32>, r: u32, i: nat, j: nat)
    requires i <= j < |exchanges| && KeepComing(exchanges, global, r, i)
    requires Refused(After(exchanges[..i], global, r), exchanges[i], r)
    requires After(exchanges[..i], global, r).value.count + (j - i) < U32_RANGE
    ensures Refused(After(exchanges[..j], global, r), exchanges[j], r)
    ensures After(exchanges[..j], global, r).value.count == After(exchanges[..i], global, r).value.count + (j - i)
    decreases j
  {
    if i == j {
    } else {
      RefusedWhileComing(exchanges, global, r, i, j - 1);
      var before := After(exchanges[..j - 1], global, r);
      assert exchanges[..j][..j - 1] == exchanges[..j - 1];
      assert KeepsComing(before, exchanges[j - 1]);
      RefusalPersists(before, exchanges[j - 1], exchanges[j], global, r);
      assert After(exchanges[..j], global, r) == Some(Counted(before, exchanges[j - 1].finish));
      assert KeepsComing(After(exchanges[..j], global, r), exchanges[j]);
    }
  }

  // ----- not a rate -----

  function TimeOf(n: nat, gap: nat): nat {
    if n == 0 then 0 else TimeOf(n - 1, gap) + gap
  }

  /** `n` requests at an even pace, each answered with 404 at once unless refused. */
  function EvenPace(n: nat, gap: nat, r: u32): (exchanges: seq<Exchange>)
    ensures |exchanges| == n
    ensures forall i | 0 <= i < n :: exchanges[i] == Exchange(TimeOf(i, gap), TimeOf(i, gap), true, Some(r), 404)
  {
    if n == 0 then []
    else EvenPace(n - 1, gap, r) + [Exchange(TimeOf(n - 1, gap), TimeOf(n - 1, gap), true, Some(r), 404)]
  }

  lemma One404More(entry: Option<Entry>, now: nat, r: u32, n: nat)
    requires Live(entry, now) == n && n + 1 < U32_RANGE
    ensures IsCounted(entry, Exchange(now, now, true, Some(r), 404), None, r) && Counted(entry, now) == Entry(n + 1, now)
  {
  }

  lemma {:induction false} EvenPaceCountsAll(n: nat, gap: nat, r: u32)
    requires gap < TTL && n < U32_RANGE
    ensures n > 0 ==> After(EvenPace(n, gap, r), None, r) == Some(Entry(n, TimeOf(n - 1, gap)))
  {
    if n == 0 {
    } else {
      EvenPaceCountsAll(n - 1, gap, r);
      hide IsCounted, Counted, Live, EvenPace;
      var all, before := EvenPace(n, gap, r), After(EvenPace(n - 1, gap, r), None, r);
      EvenPaceGrows(n, gap, r);
      assert Live(before, TimeOf(n - 1, gap)) == n - 1 by {
        StillLive(before, n - 1, gap, r);
      }
      One404More(before, TimeOf(n - 1, gap), r, n - 1);
    }
  }

  lemma EvenPaceGrows(n: nat, gap: nat, r: u32)
    requires n > 0
    ensures EvenPace(n, gap, r)[..n - 1] == EvenPace(n - 1, gap, r)
  {
  }

  lemma StillLive(entry: Option<Entry>, n: nat, gap: nat, r: u32)
    requires gap < TTL && n < U32_RANGE
    requires entry == if n == 0 then None else Some(Entry(n, TimeOf(n - 1, gap)))
    ensures Live(entry, TimeOf(n, gap)) == n
  {
  }

  /**
   The limit is one on bursts, not on answers per second: a client that never makes more than two requests in any second
   is refused all the same, once it has made more of them than the limit without a pause of a second.
   */
  lemma SlowClientIsRefused(gap: nat, r: u32)
    requires gap < TTL <= 2 * gap && r + 1 < U32_RANGE
    ensures var exchanges := EvenPace(r + 2, gap, r);
      && Sequential(exchanges, None, r)
      && (forall i | 0 <= i < |exchanges| - 2 :: exchanges[i + 2].arrive >= exchanges[i].arrive + TTL)
      && Refused(After(exchanges[..r + 1], None, r), exchanges[r + 1], r)
  {
    EvenPaceIsSequential(r + 2, gap, r);
    EvenPaceIsSparse(r + 2, gap, r);
    PastTheLimitIsRefused(gap, r);
  }

  lemma PastTheLimitIsRefused(gap: nat, r: u32)
    requires gap < TTL && r + 1 < U32_RANGE
    ensures var exchanges := EvenPace(r + 2, gap, r);
      Refused(After(exchanges[..r + 1], None, r), exchanges[r + 1], r)
  {
    var exchanges := EvenPace(r + 2, gap, r);
    hide After, EvenPace;
    assert exchanges[..r + 1] == EvenPace(r + 1, gap, r);
    EvenPaceCountsAll(r + 1, gap, r);
    assert TimeOf(r + 1, gap) == TimeOf(r, gap) + gap;
  }

  lemma EvenPaceIsSparse(n: nat, gap: nat, r: u32)
    requires TTL <= 2 * gap
    ensures forall i | 0 <= i < n - 2 :: EvenPace(n, gap, r)[i + 2].arrive >= EvenPace(n, gap, r)[i].arrive + TTL
  {
    forall i | 0 <= i < n - 2 ensures TimeOf(i + 2, gap) >= TimeOf(i, gap) + TTL {
      assert TimeOf(i + 2, gap) == TimeOf(i + 1, gap) + gap;
    }
  }

  lemma EvenPaceIsSequential(n: nat, gap: nat, r: u32)
    ensures Sequential(EvenPace(n, gap, r), None, r)
  {
    forall i, j | 0 <= i < j < n ensures TimeOf(i, gap) <= TimeOf(j, gap) {
      TimesGrow(i, j, gap);
    }
  }

  lemma {:induction false} TimesGrow(i: nat, j: nat, gap: nat)
    requires i <= j
    ensures TimeOf(i, gap) <= TimeOf(j, gap)
    decreases j
  {
    if i == j {
    } else {
      TimesGrow(i, j - 1, gap);
    }
  }
}
