/** The fixed-window request limiter (apps/web/lib/requestRateLimit.ts). It prunes expired
    entries now and then; the reference limiter beside it keeps them. */
module RequestRateLimit {
  import opened Options
  import opened TimeWindows

  const MIN_RATE_LIMIT_WINDOW_MS := 1_000
  const MIN_RATE_LIMIT_MAX_REQUESTS := 1
  const PRUNE_INTERVAL := 100
  const PRUNE_SIZE_THRESHOLD := 512

  datatype Entry = Entry(count: nat, resetAt: int)

  /** The configured numbers need not be whole. */
  datatype Config = Config(maxRequests: real, windowMs: real)

  function MaxRequests(c: Config): nat {
    if c.maxRequests.Floor > MIN_RATE_LIMIT_MAX_REQUESTS then c.maxRequests.Floor else MIN_RATE_LIMIT_MAX_REQUESTS
  }

  function WindowMs(c: Config): nat {
    if c.windowMs.Floor > MIN_RATE_LIMIT_WINDOW_MS then c.windowMs.Floor else MIN_RATE_LIMIT_WINDOW_MS
  }

  /** A request: its bucket and client address as one key, and the clock reading. */
  datatype Call = Call(key: string, time: int, config: Config)

  datatype Decision = Admitted | Rejected(retryAfterSeconds: nat)

  predicate Timeline(calls: seq<Call>) {
    forall i, j | 0 <= i < j < |calls| :: calls[i].time <= calls[j].time
  }

  // ----- the reference limiter -----

  predicate Expired(e: Option<Entry>, now: int) {
    e.None? || now >= e.value.resetAt
  }

  function NextEntry(e: Option<Entry>, c: Call): Entry {
    if Expired(e, c.time) then Entry(1, c.time + WindowMs(c.config)) else e.value.(count := e.value.count + 1)
  }

  function RetryAfter(resetAt: int, now: int): nat {
    var seconds := (resetAt - now + 999) / 1000;
    if seconds > 1 then seconds else 1
  }

  function Decide(e: Option<Entry>, c: Call): Decision {
    if Expired(e, c.time) || e.value.count + 1 <= MaxRequests(c.config) then Admitted
    else Rejected(RetryAfter(e.value.resetAt, c.time))
  }

  /** The entry of a key after some calls, when nothing is ever pruned. */
  function EntryAfter(calls: seq<Call>, key: string): Option<Entry> {
    if calls == [] then None
    else
      var before, c := EntryAfter(calls[..|calls| - 1], key), calls[|calls| - 1];
      if c.key == key then Some(NextEntry(before, c)) else before
  }

  function AdmittedTimes(calls: seq<Call>, key: string): seq<int> {
    if calls == [] then []
    else
      var init, c := calls[..|calls| - 1], calls[|calls| - 1];
      var before := AdmittedTimes(init, key);
      if c.key == key && Decide(EntryAfter(init, key), c).Admitted? then before + [c.time] else before
  }

  // ----- at most twice the limit in any window -----

  /** Every call on the key carries the same numbers. */
  predicate SameConfig(calls: seq<Call>, key: string, max: nat, window: nat) {
    forall i | 0 <= i < |calls| && calls[i].key == key :: MaxRequests(calls[i].config) == max && WindowMs(calls[i].config) == window
  }

  function InCurrentWindow(e: Option<Entry>, max: nat): nat {
    if e.None? then 0 else if e.value.count < max then e.value.count else max
  }

  /** The admitted times `h` against the current entry: the last ones lie in its window, the ones
      before it precede it, and those beyond another `max` precede it by a whole window. */
  predicate Windowed(h: seq<int>, e: Option<Entry>, max: nat, window: nat, latest: int) {
    && Sorted(h) && Sparse(h, 2 * max, window) && (forall i | 0 <= i < |h| :: h[i] <= latest)
    && (e.None? ==> h == [])
    && (e.Some? ==>
          var c, start := InCurrentWindow(e, max), e.value.resetAt - window;
          && e.value.count > 0 && c <= |h| && start <= latest
          && (forall i | 0 <= i < |h| :: h[i] < e.value.resetAt)
          && (forall i | 0 <= i < |h| - c :: h[i] < start)
          && (forall i | 0 <= i < |h| - c - max :: h[i] < start - window))
  }

  lemma SnocSparse(h: seq<int>, t: int, n: nat, width: int)
    requires Sorted(h) && Sparse(h, n, width) && n > 0
    requires forall i | 0 <= i < |h| :: h[i] <= t
    requires forall i | 0 <= i && i + n <= |h| :: t - h[i] >= width
    ensures Sorted(h + [t]) && Sparse(h + [t], n, width)
  {}

  lemma OpensWindow(h: seq<int>, e: Option<Entry>, now: int, max: nat, window: nat, latest: int)
    requires Windowed(h, e, max, window, latest) && latest <= now && Expired(e, now) && max > 0 && window > 0
    ensures Windowed(h + [now], Some(Entry(1, now + window)), max, window, now)
  {
    SnocSparse(h, now, 2 * max, window);
    hide Sparse, Sorted;
  }

  lemma AddsToWindow(h: seq<int>, e: Entry, now: int, max: nat, window: nat, latest: int)
    requires Windowed(h, Some(e), max, window, latest) && latest <= now < e.resetAt && e.count < max && window > 0
    ensures Windowed(h + [now], Some(e.(count := e.count + 1)), max, window, now)
  {
    SnocSparse(h, now, 2 * max, window);
    hide Sparse, Sorted;
  }

  lemma CallKeepsWindowed(h: seq<int>, e: Option<Entry>, c: Call, max: nat, window: nat, latest: int)
    requires Windowed(h, e, max, window, latest) && latest <= c.time
    requires MaxRequests(c.config) == max && WindowMs(c.config) == window && max > 0 && window > 0
    ensures Windowed(if Decide(e, c).Admitted? then h + [c.time] else h, Some(NextEntry(e, c)), max, window, c.time)
  {
    if Expired(e, c.time) {
      OpensWindow(h, e, c.time, max, window, latest);
    } else if e.value.count + 1 <= max {
      AddsToWindow(h, e.value, c.time, max, window, latest);
    } else {
      hide Sparse, Sorted;
    }
  }

  lemma {:induction false} AdmittedWindowed(calls: seq<Call>, key: string, max: nat, window: nat)
    requires Timeline(calls) && SameConfig(calls, key, max, window) && max > 0 && window > 0
    ensures forall latest | calls != [] ==> calls[|calls| - 1].time <= latest ::
              Windowed(AdmittedTimes(calls, key), EntryAfter(calls, key), max, window, latest)
  {
    if calls != [] {
      hide Windowed, NextEntry, Decide;
      var init, c := calls[..|calls| - 1], calls[|calls| - 1];
      AdmittedWindowed(init, key, max, window);
      forall latest | c.time <= latest
        ensures Windowed(AdmittedTimes(calls, key), EntryAfter(calls, key), max, window, latest)
      {
        if c.key == key {
          assert Windowed(AdmittedTimes(init, key), EntryAfter(init, key), max, window, c.time);
          CallKeepsWindowed(AdmittedTimes(init, key), EntryAfter(init, key), c, max, window, c.time);
          WindowedLater(AdmittedTimes(calls, key), EntryAfter(calls, key), max, window, c.time, latest);
        }
      }
    }
  }

  lemma WindowedLater(h: seq<int>, e: Option<Entry>, max: nat, window: nat, latest: int, later: int)
    requires Windowed(h, e, max, window, latest) && latest <= later
    ensures Windowed(h, e, max, window, later)
  {}

  /** Any half-open interval of one window length admits at most twice the limit per key. */
  lemma AtMostTwiceTheLimit(calls: seq<Call>, key: string, max: nat, window: nat, start: int)
    requires Timeline(calls) && SameConfig(calls, key, max, window) && max > 0 && window > 0
    ensures CountWithin(AdmittedTimes(calls, key), start, start + window) <= 2 * max
  {
    AdmittedWindowed(calls, key, max, window);
    var latest := if calls == [] then 0 else calls[|calls| - 1].time;
    assert Windowed(AdmittedTimes(calls, key), EntryAfter(calls, key), max, window, latest);
    SparseFewWithin(AdmittedTimes(calls, key), 2 * max, window, start, start + window);
  }

  predicate AdmittedAt(calls: seq<Call>, key: string, k: nat) {
    k < |calls| && calls[k].key == key && Decide(EntryAfter(calls[..k], key), calls[k]).Admitted?
  }

  /** An admitted call has its place among the admitted times of its key. */
  lemma {:induction false} PlaceOfAdmitted(calls: seq<Call>, key: string, k: nat)
    requires AdmittedAt(calls, key, k)
    ensures var p := |AdmittedTimes(calls[..k], key)|;
      p < |AdmittedTimes(calls, key)| && AdmittedTimes(calls, key)[p] == calls[k].time
  {
    hide Decide;
    var n := |calls| - 1;
    if k < n {
      var init := calls[..n];
      assert init[..k] == calls[..k];
      PlaceOfAdmitted(init, key, k);
    } else {
      assert calls[..k] == calls[..n];
    }
  }

  /** Later admitted calls come later. */
  lemma PlacesGrow(calls: seq<Call>, key: string, j: nat, k: nat)
    requires AdmittedAt(calls, key, j) && j < k <= |calls|
    ensures |AdmittedTimes(calls[..j], key)| < |AdmittedTimes(calls[..k], key)|
  {
    hide Decide;
    var before := calls[..k];
    assert before[..j] == calls[..j];
    PlaceOfAdmitted(before, key, j);
  }

  lemma {:induction false} PlacesSpread(calls: seq<Call>, key: string, places: seq<nat>, t: nat)
    requires (forall i | 0 <= i < |places| :: AdmittedAt(calls, key, places[i])) && t < |places|
    requires forall i, j | 0 <= i < j < |places| :: places[i] < places[j]
    ensures places[0] < |calls| && places[t] < |calls|
    ensures |AdmittedTimes(calls[..places[t]], key)| >= |AdmittedTimes(calls[..places[0]], key)| + t
  {
    hide AdmittedTimes, Decide, EntryAfter;
    if t > 0 {
      PlacesSpread(calls, key, places, t - 1);
      PlacesGrow(calls, key, places[t - 1], places[t]);
    }
  }

  /** Admitted calls of one key that lie within less than a window are at most twice the limit. */
  lemma NoMoreThanTwice(calls: seq<Call>, key: string, max: nat, window: nat, places: seq<nat>)
    requires Timeline(calls) && SameConfig(calls, key, max, window) && max > 0 && window > 0
    requires forall i | 0 <= i < |places| ::
               places[i] < |calls| && calls[places[i]].key == key &&
               Decide(EntryAfter(calls[..places[i]], key), calls[places[i]]) == Admitted
    requires forall i, j | 0 <= i < j < |places| :: places[i] < places[j]
    requires places != [] ==> calls[places[|places| - 1]].time - calls[places[0]].time < window
    ensures |places| <= 2 * max
  {
    if |places| > 2 * max {
      hide AdmittedTimes, Decide, EntryAfter;
      var first, last := places[0], places[|places| - 1];
      AdmittedWindowed(calls, key, max, window);
      assert Windowed(AdmittedTimes(calls, key), EntryAfter(calls, key), max, window, calls[|calls| - 1].time);
      PlacesSpread(calls, key, places, |places| - 1);
      PlaceOfAdmitted(calls, key, first);
      PlaceOfAdmitted(calls, key, last);
    }
  }

  // ----- nobody is rejected early -----

  /** Calls of the key at these places, in order, none before `since`. */
  predicate CallsSince(calls: seq<Call>, key: string, places: seq<nat>, since: int) {
    && (forall t | 0 <= t < |places| ::
          places[t] < |calls| && calls[places[t]].key == key && calls[places[t]].time >= since)
    && (forall t, u | 0 <= t < u < |places| :: places[t] < places[u])
  }

  /** An entry has counted that many calls since its window opened, which is at most a window ago. */
  lemma {:induction false} EntryCounts(calls: seq<Call>, key: string, max: nat, window: nat) returns (places: seq<nat>)
    requires Timeline(calls) && SameConfig(calls, key, max, window) && EntryAfter(calls, key).Some?
    ensures calls != [] && var e := EntryAfter(calls, key).value;
      |places| == e.count && CallsSince(calls, key, places, e.resetAt - window) && e.resetAt <= calls[|calls| - 1].time + window
  {
    var n := |calls| - 1;
    var init, c := calls[..n], calls[n];
    if c.key != key {
      places := EntryCounts(init, key, max, window);
    } else if Expired(EntryAfter(init, key), c.time) {
      places := [n];
    } else {
      places := EntryCounts(init, key, max, window);
      places := places + [n];
    }
  }

  /** Whoever is rejected has made as many calls as allowed within the window before; so with fewer, a
      call is admitted. And the seconds to wait are at least one and not beyond the window. */
  lemma RejectedWasBusy(calls: seq<Call>, c: Call, max: nat, window: nat) returns (places: seq<nat>)
    requires Timeline(calls + [c]) && SameConfig(calls + [c], c.key, max, window)
    requires Decide(EntryAfter(calls, c.key), c).Rejected?
    ensures |places| == max
    ensures forall t | 0 <= t < max ::
              places[t] < |calls| && calls[places[t]].key == c.key && c.time - calls[places[t]].time < window
    ensures forall t, u | 0 <= t < u < max :: places[t] < places[u]
    ensures var seconds := Decide(EntryAfter(calls, c.key), c).retryAfterSeconds;
      1 <= seconds && (seconds - 1) * 1000 < window
  {
    hide EntryAfter;
    assert (calls + [c])[|calls|] == c;
    assert forall i | 0 <= i < |calls| :: (calls + [c])[i] == calls[i];
    places := EntryCounts(calls, c.key, max, window);
    assert calls[|calls| - 1].time <= c.time;
    places := places[..max];
  }

  /** Not waiting that long is not enough: the same client is rejected again. */
  lemma WaitingLessIsNot(calls: seq<Call>, rejected: Call, retry: Call)
    requires Decide(EntryAfter(calls, rejected.key), rejected).Rejected? && retry.key == rejected.key
    requires MaxRequests(retry.config) == MaxRequests(rejected.config)
    requires retry.time <= rejected.time +
               1000 * (Decide(EntryAfter(calls, rejected.key), rejected).retryAfterSeconds - 1)
    requires rejected.time <= retry.time
    ensures Decide(EntryAfter(calls + [rejected], retry.key), retry).Rejected?
  {
    hide EntryAfter;
    AfterOneMore(calls, rejected);
  }

  // ----- waiting as told -----

  /** While a key's requests are rejected its window stays where it is. */
  lemma {:induction false} RejectionsKeepTheWindow(calls: seq<Call>, more: seq<Call>, key: string)
    requires EntryAfter(calls, key).Some?
    requires forall i | 0 <= i < |more| && more[i].key == key :: Decide(EntryAfter(calls + more[..i], key), more[i]).Rejected?
    ensures EntryAfter(calls + more, key).Some?
    ensures EntryAfter(calls + more, key).value.resetAt == EntryAfter(calls, key).value.resetAt
  {
    if more == [] {
      assert calls + more == calls;
    } else {
      var init := more[..|more| - 1];
      assert forall i | 0 <= i < |init| :: more[..i] == init[..i];
      RejectionsKeepTheWindow(calls, init, key);
      assert (calls + more)[..|calls + more| - 1] == calls + init;
    }
  }

  /** A client that waits the seconds it was told is admitted, whatever other keys do meanwhile and
      even if it keeps asking in between and is rejected. */
  lemma WaitingIsEnough(calls: seq<Call>, rejected: Call, more: seq<Call>, retry: Call)
    requires Decide(EntryAfter(calls, rejected.key), rejected).Rejected? && retry.key == rejected.key
    requires var longer := calls + [rejected];
      forall i | 0 <= i < |more| && more[i].key == rejected.key ::
        Decide(EntryAfter(longer + more[..i], rejected.key), more[i]).Rejected?
    requires retry.time >= rejected.time +
               1000 * Decide(EntryAfter(calls, rejected.key), rejected).retryAfterSeconds
    ensures Decide(EntryAfter(calls + [rejected] + more, retry.key), retry) == Admitted
  {
    var longer := calls + [rejected];
    assert longer[..|longer| - 1] == calls;
    RejectionsKeepTheWindow(longer, more, rejected.key);
  }

  // ----- the limiter that prunes -----

  class RateLimiter {
    var entries: map<string, Entry>
    var requestsSinceLastPrune: nat

    constructor ()
      ensures Simulates([], 0)
    {
      entries, requestsSinceLastPrune := map[], 0;
    }

    /** Only entries that no longer matter are missing. */
    ghost predicate Simulates(calls: seq<Call>, now: int)
      reads this
    {
      forall key ::
        if key in entries then EntryAfter(calls, key) == Some(entries[key])
        else Expired(EntryAfter(calls, key), now)
    }

    method PruneExpiredEntries(now: int, ghost calls: seq<Call>)
      requires Simulates(calls, now)
      modifies this
      ensures Simulates(calls, now)
      ensures forall key | key in entries :: key in old(entries) && entries[key] == old(entries)[key]
      ensures forall key | key in old(entries) && key !in entries :: now >= old(entries)[key].resetAt
    {
      requestsSinceLastPrune := requestsSinceLastPrune + 1;
      if requestsSinceLastPrune < PRUNE_INTERVAL && |entries| < PRUNE_SIZE_THRESHOLD {
        return;
      }
      requestsSinceLastPrune := 0;
      entries := map key | key in entries && !(now >= entries[key].resetAt) :: entries[key];
    }

    /** Decides as the limiter that never prunes. */
    method RateLimitRequest(c: Call, ghost calls: seq<Call>, ghost clock: int) returns (decision: Decision)
      requires Simulates(calls, clock) && clock <= c.time
      modifies this
      ensures Simulates(calls + [c], c.time)
      ensures decision == Decide(EntryAfter(calls, c.key), c)
    {
      hide EntryAfter;
      assert Simulates(calls, c.time);
      PruneExpiredEntries(c.time, calls);
      ghost var before := entries;
      AfterOneMore(calls, c);
      var maxRequests := MaxRequests(c.config);
      var windowMs := WindowMs(c.config);
      if c.key !in entries || c.time >= entries[c.key].resetAt {
        entries := entries[c.key := Entry(1, c.time + windowMs)];
        return Admitted;
      }
      var entry := entries[c.key].(count := entries[c.key].count + 1);
      entries := entries[c.key := entry];
      if entry.count <= maxRequests {
        return Admitted;
      }
      return Rejected(RetryAfter(entry.resetAt, c.time));
    }
  }

  lemma AfterOneMore(calls: seq<Call>, c: Call)
    ensures EntryAfter(calls + [c], c.key) == Some(NextEntry(EntryAfter(calls, c.key), c))
    ensures forall key | key != c.key :: EntryAfter(calls + [c], key) == EntryAfter(calls, key)
  {
    assert (calls + [c])[..|calls|] == calls;
  }

  /** A whole timeline: pruning never shows in a decision. */
  method Replay(calls: seq<Call>) returns (decisions: seq<Decision>)
    requires Timeline(calls)
    ensures |decisions| == |calls|
    ensures forall i | 0 <= i < |calls| :: decisions[i] == Decide(EntryAfter(calls[..i], calls[i].key), calls[i])
  {
    hide EntryAfter, Decide;
    var limiter := new RateLimiter();
    ghost var clock := if calls == [] then 0 else calls[0].time;
    NothingYet(limiter, clock);
    decisions := [];
    for i := 0 to |calls|
      invariant fresh(limiter) && limiter.Simulates(calls[..i], clock)
      invariant i < |calls| ==> clock <= calls[i].time
      invariant |decisions| == i
      invariant forall k | 0 <= k < i :: decisions[k] == Decide(EntryAfter(calls[..k], calls[k].key), calls[k])
    {
      assert calls[..i] + [calls[i]] == calls[..i + 1];
      var d := limiter.RateLimitRequest(calls[i], calls[..i], clock);
      clock := calls[i].time;
      decisions := decisions + [d];
    }
  }

  lemma NothingYet(limiter: RateLimiter, now: int)
    requires limiter.Simulates([], 0)
    ensures limiter.Simulates([], now)
  {}
}
