/** The sliding-window limiter of guestbook posts (`isGuestbookPostRateLimited`). It forgets old
    posts; the reference limiter beside it remembers all of them. */
module Guestbook {
  import opened TimeWindows

  const WINDOW_MS := 600_000
  const COOLDOWN_MS := 30_000
  const MAX_POSTS_PER_WINDOW := 3

  datatype Post = Post(key: string, time: int)

  /** Clock readings: positive and never going back. */
  predicate Timeline(posts: seq<Post>) {
    && (forall i | 0 <= i < |posts| :: posts[i].time > 0)
    && (forall i, j | 0 <= i < j < |posts| :: posts[i].time <= posts[j].time)
  }

  function Recent(times: seq<int>, now: int): seq<int> {
    if times == [] then []
    else
      var before, last := Recent(times[..|times| - 1], now), times[|times| - 1];
      if now - last < WINDOW_MS then before + [last] else before
  }

  /** The rule as meant, over the full history of admitted posts. */
  predicate MustReject(history: seq<int>, now: int) {
    (exists i :: 0 <= i < |history| && now - history[i] < COOLDOWN_MS) || |Recent(history, now)| >= MAX_POSTS_PER_WINDOW
  }

  /** The times at which the reference limiter admitted posts of `key`. */
  function Admitted(posts: seq<Post>, key: string): seq<int> {
    if posts == [] then []
    else
      var before, p := Admitted(posts[..|posts| - 1], key), posts[|posts| - 1];
      if p.key == key && !MustReject(before, p.time) then before + [p.time] else before
  }

  // ----- what the rule guarantees -----

  /** Any two posts are a cooldown apart; any four span a whole window. */
  predicate Spaced(times: seq<int>) {
    && (forall i, j | 0 <= i < j < |times| :: times[j] - times[i] >= COOLDOWN_MS)
    && Sparse(times, MAX_POSTS_PER_WINDOW, WINDOW_MS)
  }

  lemma {:induction false} RecentTail(times: seq<int>, now: int, n: nat)
    requires Sorted(times) && n <= |times| && (n > 0 ==> now - times[|times| - n] < WINDOW_MS)
    ensures |Recent(times, now)| >= n
  {
    if n > 0 {
      RecentTail(times[..|times| - 1], now, n - 1);
    }
  }

  lemma SpacedSnoc(times: seq<int>, now: int)
    requires Spaced(times) && Sorted(times) && !MustReject(times, now)
    ensures Spaced(times + [now])
  {
    var n := |times|;
    if n >= MAX_POSTS_PER_WINDOW && now - times[n - MAX_POSTS_PER_WINDOW] < WINDOW_MS {
      RecentTail(times, now, MAX_POSTS_PER_WINDOW);
    }
  }

  predicate Within(times: seq<int>, latest: int) {
    Sorted(times) && forall i | 0 <= i < |times| :: 0 < times[i] <= latest
  }

  lemma {:induction false} AdmittedSpaced(posts: seq<Post>, key: string)
    requires Timeline(posts)
    ensures var h := Admitted(posts, key); Spaced(h) && Within(h, if posts == [] then 0 else posts[|posts| - 1].time)
  {
    if posts != [] {
      hide Spaced, MustReject;
      var before, p := posts[..|posts| - 1], posts[|posts| - 1];
      AdmittedSpaced(before, key);
      var h := Admitted(before, key);
      assert Within(h, p.time);
      if p.key == key && !MustReject(h, p.time) {
        SpacedSnoc(h, p.time);
      }
    } else {
      assert Admitted(posts, key) == [];
    }
  }

  /** Over every timeline: at most three posts of a key are admitted in any span of ten minutes,
      and any two are at least thirty seconds apart. */
  lemma WindowNeverExceeded(posts: seq<Post>, key: string, start: int)
    requires Timeline(posts)
    ensures CountWithin(Admitted(posts, key), start, start + WINDOW_MS) <= MAX_POSTS_PER_WINDOW
    ensures var h := Admitted(posts, key); forall i, j | 0 <= i < j < |h| :: h[j] - h[i] >= COOLDOWN_MS
  {
    AdmittedSpaced(posts, key);
    SparseFewWithin(Admitted(posts, key), MAX_POSTS_PER_WINDOW, WINDOW_MS, start, start + WINDOW_MS);
  }

  // ----- the limiter that forgets -----

  /** From `clock` on, the two histories have the same recent part. */
  ghost predicate SameRecent(stored: seq<int>, history: seq<int>, clock: int) {
    forall now | now >= clock :: Recent(stored, now) == Recent(history, now)
  }

  lemma {:induction false} RecentOfRecent(times: seq<int>, earlier: int, now: int)
    requires earlier <= now
    ensures Recent(Recent(times, earlier), now) == Recent(times, now)
  {
    if times != [] {
      var init, last := times[..|times| - 1], times[|times| - 1];
      RecentOfRecent(init, earlier, now);
      RecentSnoc(Recent(init, earlier), last, now);
    }
  }

  lemma RecentSnoc(times: seq<int>, t: int, now: int)
    ensures Recent(times + [t], now) == if now - t < WINDOW_MS then Recent(times, now) + [t] else Recent(times, now)
  {
    assert (times + [t])[..|times|] == times;
  }

  lemma {:induction false} RecentAreKept(history: seq<int>, now: int)
    ensures forall t | t in Recent(history, now) :: t in history
  {
    if history != [] {
      var init, last := history[..|history| - 1], history[|history| - 1];
      RecentAreKept(init, now);
      assert history == init + [last];
    }
  }

  /** What the limiter tests, on the recent part alone. */
  predicate TooSoon(recent: seq<int>, now: int) {
    var last := if recent != [] then recent[|recent| - 1] else 0;
    (last != 0 && now - last < COOLDOWN_MS) || |recent| >= MAX_POSTS_PER_WINDOW
  }

  /** The last recent post decides the cooldown for the whole history. */
  lemma RecentPartDecides(history: seq<int>, now: int)
    requires Within(history, now)
    ensures TooSoon(Recent(history, now), now) <==> MustReject(history, now)
  {
    var recent := Recent(history, now);
    RecentAreKept(history, now);
    if history != [] {
      var last := history[|history| - 1];
      if now - last < COOLDOWN_MS {
        assert recent[|recent| - 1] == last;
      } else {
        assert forall i | 0 <= i < |history| :: now - history[i] >= COOLDOWN_MS;
        assert forall t | t in recent :: now - t >= COOLDOWN_MS;
        assert recent != [] ==> recent[|recent| - 1] in recent;
      }
    }
  }

  class PostLimiter {
    var recentPosts: map<string, seq<int>>

    constructor ()
      ensures Remembers([])
    {
      recentPosts := map[];
    }

    function Stored(key: string): seq<int>
      reads this
    {
      if key in recentPosts then recentPosts[key] else []
    }

    ghost predicate Remembers(posts: seq<Post>)
      reads this
    {
      forall key :: SameRecent(Stored(key), Admitted(posts, key), if posts == [] then 0 else posts[|posts| - 1].time)
    }

    /** Decides as the reference limiter does, although it only keeps recent times. */
    method IsLimited(key: string, now: int, ghost posts: seq<Post>) returns (limited: bool)
      requires Timeline(posts + [Post(key, now)]) && Remembers(posts)
      modifies this
      ensures Remembers(posts + [Post(key, now)])
      ensures limited <==> MustReject(Admitted(posts, key), now)
    {
      hide Recent, Admitted, MustReject, SameRecent;
      ghost var longer, history := posts + [Post(key, now)], Admitted(posts, key);
      ReferenceStep(posts, key, now);
      assert SameRecent(Stored(key), history, if posts == [] then 0 else posts[|posts| - 1].time);
      RecentAgrees(Stored(key), history, if posts == [] then 0 else posts[|posts| - 1].time, now);
      var recent := Recent(Stored(key), now);
      RecentPartDecides(history, now);
      ghost var before := recentPosts;
      var lastTimestamp := if recent != [] then recent[|recent| - 1] else 0;
      if lastTimestamp != 0 && now - lastTimestamp < COOLDOWN_MS {
        recentPosts := recentPosts[key := recent];
        limited := true;
      } else if |recent| >= MAX_POSTS_PER_WINDOW {
        recentPosts := recentPosts[key := recent];
        limited := true;
      } else {
        recentPosts := recentPosts[key := recent + [now]];
        limited := false;
      }
      RecentKept(history, recent, now);
      forall k
        ensures SameRecent(Stored(k), Admitted(longer, k), longer[|longer| - 1].time)
      {
        if k != key {
          assert Stored(k) == if k in before then before[k] else [];
          SameRecentLater(Stored(k), Admitted(posts, k), if posts == [] then 0 else posts[|posts| - 1].time, now);
        }
      }
    }
  }

  lemma ReferenceStep(posts: seq<Post>, key: string, now: int)
    requires Timeline(posts + [Post(key, now)])
    ensures Timeline(posts) && Within(Admitted(posts, key), now) && now > 0
    ensures posts != [] ==> posts[|posts| - 1].time <= now
    ensures forall k | k != key :: Admitted(posts + [Post(key, now)], k) == Admitted(posts, k)
    ensures Admitted(posts + [Post(key, now)], key) ==
            if MustReject(Admitted(posts, key), now) then Admitted(posts, key) else Admitted(posts, key) + [now]
  {
    hide MustReject, Timeline, Spaced;
    var longer := posts + [Post(key, now)];
    assert longer[..|longer| - 1] == posts && longer[|posts|] == Post(key, now);
    TimelinePrefix(posts, Post(key, now));
    AdmittedSpaced(posts, key);
  }

  lemma TimelinePrefix(posts: seq<Post>, p: Post)
    requires Timeline(posts + [p])
    ensures Timeline(posts) && p.time > 0 && (posts != [] ==> posts[|posts| - 1].time <= p.time)
  {
    var longer := posts + [p];
    assert longer[|posts|] == p;
    assert forall i | 0 <= i < |posts| :: longer[i] == posts[i];
  }

  lemma RecentAgrees(stored: seq<int>, history: seq<int>, clock: int, now: int)
    requires SameRecent(stored, history, clock) && clock <= now
    ensures Recent(stored, now) == Recent(history, now)
  {}

  lemma SameRecentLater(stored: seq<int>, history: seq<int>, clock: int, now: int)
    requires SameRecent(stored, history, clock) && clock <= now
    ensures SameRecent(stored, history, now)
  {}

  lemma RecentKept(history: seq<int>, recent: seq<int>, now: int)
    requires recent == Recent(history, now)
    ensures SameRecent(recent, history, now) && SameRecent(recent + [now], history + [now], now)
  {
    forall later | later >= now
      ensures Recent(recent, later) == Recent(history, later)
      ensures Recent(recent + [now], later) == Recent(history + [now], later)
    {
      RecentOfRecent(history, now, later);
      RecentSnoc(recent, now, later);
      RecentSnoc(history, now, later);
    }
  }

  // ----- the rule said of the decisions alone -----

  /** The places of the admitted posts of `key`, in order. */
  function Places(posts: seq<Post>, limited: seq<bool>, key: string): seq<nat>
    requires |posts| == |limited|
  {
    if posts == [] then []
    else
      var n := |posts| - 1;
      Places(posts[..n], limited[..n], key) + if posts[n].key == key && !limited[n] then [n] else []
  }

  ghost predicate DecidedByRule(posts: seq<Post>, limited: seq<bool>)
    requires |posts| == |limited|
  {
    forall i | 0 <= i < |posts| :: limited[i] <==> MustReject(Admitted(posts[..i], posts[i].key), posts[i].time)
  }

  /** Each admitted time of the key is the time of the post at its place, and no admitted post is left out. */
  ghost predicate PlacesMatch(posts: seq<Post>, limited: seq<bool>, key: string, places: seq<nat>, h: seq<int>)
    requires |posts| == |limited|
  {
    && |places| == |h|
    && (forall t | 0 <= t < |places| ::
          places[t] < |posts| && posts[places[t]].key == key && !limited[places[t]] && posts[places[t]].time == h[t])
    && (forall t, u | 0 <= t < u < |places| :: places[t] < places[u])
    && (forall j: nat | j < |posts| && posts[j].key == key && !limited[j] :: j in places)
  }

  lemma PlacesMatchSnoc(posts: seq<Post>, limited: seq<bool>, key: string, places: seq<nat>, h: seq<int>, p: Post, l: bool)
    requires |posts| == |limited| && PlacesMatch(posts, limited, key, places, h)
    ensures if p.key == key && !l then PlacesMatch(posts + [p], limited + [l], key, places + [|posts|], h + [p.time])
            else PlacesMatch(posts + [p], limited + [l], key, places, h)
  {}

  lemma DecidedPrefix(posts: seq<Post>, limited: seq<bool>)
    requires |posts| == |limited| && posts != [] && DecidedByRule(posts, limited)
    ensures var n := |posts| - 1;
      && DecidedByRule(posts[..n], limited[..n])
      && (limited[n] <==> MustReject(Admitted(posts[..n], posts[n].key), posts[n].time))
  {
    hide MustReject, Admitted;
    var n := |posts| - 1;
    forall i | 0 <= i < n
      ensures posts[..n][..i] == posts[..i]
    {}
  }

  lemma PlacesStep(posts: seq<Post>, limited: seq<bool>, key: string)
    requires |posts| == |limited| && posts != []
    requires limited[|posts| - 1] <==> MustReject(Admitted(posts[..|posts| - 1], posts[|posts| - 1].key), posts[|posts| - 1].time)
    ensures var n := |posts| - 1;
      var places, h := Places(posts[..n], limited[..n], key), Admitted(posts[..n], key);
      if posts[n].key == key && !limited[n] then
        Places(posts, limited, key) == places + [n] && Admitted(posts, key) == h + [posts[n].time]
      else Places(posts, limited, key) == places && Admitted(posts, key) == h
  {
    hide MustReject;
  }

  lemma {:induction false} PlacesAdmitted(posts: seq<Post>, limited: seq<bool>, key: string)
    requires |posts| == |limited| && DecidedByRule(posts, limited)
    ensures PlacesMatch(posts, limited, key, Places(posts, limited, key), Admitted(posts, key))
  {
    hide *;
    if posts == [] {
      NoPlaces(key);
    } else {
      var n := |posts| - 1;
      var before, decided, p, l := posts[..n], limited[..n], posts[n], limited[n];
      DecidedPrefix(posts, limited);
      PlacesAdmitted(before, decided, key);
      PlacesStep(posts, limited, key);
      PlacesMatchSnoc(before, decided, key, Places(before, decided, key), Admitted(before, key), p, l);
      assert posts == before + [p] && limited == decided + [l];
    }
  }

  lemma NoPlaces(key: string)
    ensures PlacesMatch([], [], key, Places([], [], key), Admitted([], key))
  {}

  /** Three of the admitted posts are recent exactly if the last three are. */
  lemma {:induction false} RecentCount(times: seq<int>, now: int, n: nat)
    requires Sorted(times) && 0 < n
    ensures |Recent(times, now)| >= n <==> n <= |times| && now - times[|times| - n] < WINDOW_MS
  {
    if n <= |times| && now - times[|times| - n] < WINDOW_MS {
      RecentTail(times, now, n);
    } else if times != [] {
      var init := times[..|times| - 1];
      if n > 1 {
        RecentCount(init, now, n - 1);
      } else {
        RecentNone(times, now);
      }
    }
  }

  lemma {:induction false} RecentNone(times: seq<int>, now: int)
    requires Sorted(times) && (times == [] || now - times[|times| - 1] >= WINDOW_MS)
    ensures Recent(times, now) == []
  {
    if times != [] {
      RecentNone(times[..|times| - 1], now);
    }
  }

  predicate AdmittedBefore(posts: seq<Post>, limited: seq<bool>, j: int, i: nat)
    requires i < |posts| == |limited|
  {
    0 <= j < i && posts[j].key == posts[i].key && !limited[j]
  }

  /** One admitted less than thirty seconds before it had the same key. */
  ghost predicate TooClose(posts: seq<Post>, limited: seq<bool>, i: nat)
    requires i < |posts| == |limited|
  {
    exists j :: AdmittedBefore(posts, limited, j, i) && posts[i].time - posts[j].time < COOLDOWN_MS
  }

  /** Three admitted less than ten minutes before it had the same key. */
  ghost predicate TooMany(posts: seq<Post>, limited: seq<bool>, i: nat)
    requires i < |posts| == |limited|
  {
    exists j, k, m | 0 <= j < k < m < i ::
      AdmittedBefore(posts, limited, j, i) && AdmittedBefore(posts, limited, k, i) && AdmittedBefore(posts, limited, m, i) &&
      posts[i].time - posts[j].time < WINDOW_MS
  }

  /** `h` are the times of the admitted posts with the key of post `i` before it, `places` where they are. */
  ghost predicate HistoryOf(posts: seq<Post>, limited: seq<bool>, i: nat, places: seq<nat>, h: seq<int>)
    requires i < |posts| == |limited|
  {
    && |places| == |h| && Sorted(h)
    && (forall t | 0 <= t < |places| :: AdmittedBefore(posts, limited, places[t], i) && posts[places[t]].time == h[t])
    && (forall t, u | 0 <= t < u < |places| :: places[t] < places[u])
    && (forall j: nat | AdmittedBefore(posts, limited, j, i) :: j in places)
  }

  lemma HistoryIs(posts: seq<Post>, limited: seq<bool>, i: nat)
    requires Timeline(posts) && i < |posts| == |limited| && DecidedByRule(posts, limited)
    ensures HistoryOf(posts, limited, i, Places(posts[..i], limited[..i], posts[i].key), Admitted(posts[..i], posts[i].key))
  {
    hide Recent, Admitted, Places, Spaced, MustReject;
    var before := posts[..i];
    assert forall k | 0 <= k < i :: before[..k] == posts[..k];
    assert DecidedByRule(before, limited[..i]);
    PlacesAdmitted(before, limited[..i], posts[i].key);
    AdmittedSpaced(before, posts[i].key);
  }

  lemma CloseIff(posts: seq<Post>, limited: seq<bool>, i: nat, places: seq<nat>, h: seq<int>)
    requires i < |posts| == |limited| && HistoryOf(posts, limited, i, places, h)
    ensures TooClose(posts, limited, i) <==> exists t :: 0 <= t < |h| && posts[i].time - h[t] < COOLDOWN_MS
  {
    if TooClose(posts, limited, i) {
      var j :| AdmittedBefore(posts, limited, j, i) && posts[i].time - posts[j].time < COOLDOWN_MS;
      var t :| 0 <= t < |h| && places[t] == j;
      assert posts[i].time - h[t] < COOLDOWN_MS;
    }
    if t :| 0 <= t < |h| && posts[i].time - h[t] < COOLDOWN_MS {
      assert AdmittedBefore(posts, limited, places[t], i);
    }
  }

  lemma ManyIff(posts: seq<Post>, limited: seq<bool>, i: nat, places: seq<nat>, h: seq<int>)
    requires i < |posts| == |limited| && HistoryOf(posts, limited, i, places, h)
    ensures TooMany(posts, limited, i) <==> 3 <= |h| && posts[i].time - h[|h| - 3] < WINDOW_MS
  {
    hide HistoryOf;
    if TooMany(posts, limited, i) {
      var j, k, m :| 0 <= j < k < m < i && AdmittedBefore(posts, limited, j, i) && AdmittedBefore(posts, limited, k, i) &&
                     AdmittedBefore(posts, limited, m, i) && posts[i].time - posts[j].time < WINDOW_MS;
      ThreePlaces(posts, limited, i, places, h, j, k, m);
    }
    if 3 <= |h| && posts[i].time - h[|h| - 3] < WINDOW_MS {
      LastThree(posts, limited, i, places, h);
    }
  }

  lemma ThreePlaces(posts: seq<Post>, limited: seq<bool>, i: nat, places: seq<nat>, h: seq<int>, j: nat, k: nat, m: nat)
    requires i < |posts| == |limited| && HistoryOf(posts, limited, i, places, h) && j < k < m
    requires AdmittedBefore(posts, limited, j, i) && AdmittedBefore(posts, limited, k, i) && AdmittedBefore(posts, limited, m, i)
    ensures 3 <= |h| && posts[j].time <= h[|h| - 3]
  {
    hide AdmittedBefore;
    var t, u, v := PlaceOf(posts, limited, i, places, h, j), PlaceOf(posts, limited, i, places, h, k),
                   PlaceOf(posts, limited, i, places, h, m);
    InPlaceOrder(places, t, u);
    InPlaceOrder(places, u, v);
    assert t <= |h| - 3;
  }

  lemma LastThree(posts: seq<Post>, limited: seq<bool>, i: nat, places: seq<nat>, h: seq<int>)
    requires i < |posts| == |limited| && HistoryOf(posts, limited, i, places, h)
    requires 3 <= |h| && posts[i].time - h[|h| - 3] < WINDOW_MS
    ensures TooMany(posts, limited, i)
  {
    var n := |h|;
    var j, k, m := places[n - 3], places[n - 2], places[n - 1];
    assert 0 <= j < k < m < i && posts[j].time == h[n - 3];
    assert AdmittedBefore(posts, limited, j, i) && AdmittedBefore(posts, limited, k, i) && AdmittedBefore(posts, limited, m, i);
  }

  ghost function PlaceOf(posts: seq<Post>, limited: seq<bool>, i: nat, places: seq<nat>, h: seq<int>, j: int): (t: nat)
    requires i < |posts| == |limited| && HistoryOf(posts, limited, i, places, h) && AdmittedBefore(posts, limited, j, i)
    ensures t < |places| == |h| && places[t] == j && posts[j].time == h[t]
  {
    var t :| 0 <= t < |places| && places[t] == j;
    t
  }

  lemma InPlaceOrder(places: seq<nat>, t: nat, u: nat)
    requires t < |places| && u < |places| && places[t] < places[u]
    requires forall a, b | 0 <= a < b < |places| :: places[a] < places[b]
    ensures t < u
  {}

  /** A post is refused exactly if it comes too close behind an admitted one or on top of three. */
  lemma DecisionsSaid(posts: seq<Post>, limited: seq<bool>, i: nat)
    requires Timeline(posts) && i < |posts| == |limited| && DecidedByRule(posts, limited)
    ensures limited[i] <==> TooClose(posts, limited, i) || TooMany(posts, limited, i)
  {
    hide Recent, Admitted, Places, HistoryOf, TooClose, TooMany;
    var places, h := Places(posts[..i], limited[..i], posts[i].key), Admitted(posts[..i], posts[i].key);
    HistoryIs(posts, limited, i);
    HistorySorted(posts, limited, i, places, h);
    CloseIff(posts, limited, i, places, h);
    ManyIff(posts, limited, i, places, h);
    RecentCount(h, posts[i].time, 3);
  }

  lemma HistorySorted(posts: seq<Post>, limited: seq<bool>, i: nat, places: seq<nat>, h: seq<int>)
    requires i < |posts| == |limited| && HistoryOf(posts, limited, i, places, h)
    ensures Sorted(h)
  {}

  lemma Spelled(posts: seq<Post>, limited: seq<bool>, i: nat)
    requires i < |posts| == |limited|
    ensures TooClose(posts, limited, i) <==>
            exists j | 0 <= j < i :: posts[j].key == posts[i].key && !limited[j] && posts[i].time - posts[j].time < 30_000
    ensures TooMany(posts, limited, i) <==>
            exists j, k, m | 0 <= j < k < m < i ::
              && posts[j].key == posts[k].key == posts[m].key == posts[i].key
              && !limited[j] && !limited[k] && !limited[m] && posts[i].time - posts[j].time < 600_000
  {
    if j :| 0 <= j < i && posts[j].key == posts[i].key && !limited[j] && posts[i].time - posts[j].time < 30_000 {
      assert AdmittedBefore(posts, limited, j, i);
    }
    if j, k, m :| 0 <= j < k < m < i && posts[j].key == posts[k].key == posts[m].key == posts[i].key &&
                  !limited[j] && !limited[k] && !limited[m] && posts[i].time - posts[j].time < 600_000 {
      assert AdmittedBefore(posts, limited, j, i) && AdmittedBefore(posts, limited, k, i) && AdmittedBefore(posts, limited, m, i);
    }
  }

  lemma DecisionsSpelled(posts: seq<Post>, limited: seq<bool>)
    requires Timeline(posts) && |posts| == |limited| && DecidedByRule(posts, limited)
    ensures forall i | 0 <= i < |posts| ::
              limited[i] <==>
                || (exists j | 0 <= j < i ::
                      posts[j].key == posts[i].key && !limited[j] && posts[i].time - posts[j].time < 30_000)
                || (exists j, k, m | 0 <= j < k < m < i ::
                      && posts[j].key == posts[k].key == posts[m].key == posts[i].key
                      && !limited[j] && !limited[k] && !limited[m] && posts[i].time - posts[j].time < 600_000)
  {
    hide DecidedByRule, TooClose, TooMany;
    forall i | 0 <= i < |posts|
      ensures limited[i] <==>
                || (exists j | 0 <= j < i ::
                      posts[j].key == posts[i].key && !limited[j] && posts[i].time - posts[j].time < 30_000)
                || (exists j, k, m | 0 <= j < k < m < i ::
                      && posts[j].key == posts[k].key == posts[m].key == posts[i].key
                      && !limited[j] && !limited[k] && !limited[m] && posts[i].time - posts[j].time < 600_000)
    {
      DecisionsSaid(posts, limited, i);
      Spelled(posts, limited, i);
    }
  }

  /** A whole timeline of posts. What the limiter admits, it admits by the rule, and no post the rule
      allows is refused. */
  method Replay(posts: seq<Post>) returns (limited: seq<bool>)
    requires Timeline(posts)
    ensures |limited| == |posts|
    ensures forall i | 0 <= i < |posts| ::
              limited[i] <==>
                || (exists j | 0 <= j < i ::
                      posts[j].key == posts[i].key && !limited[j] && posts[i].time - posts[j].time < 30_000)
                || (exists j, k, m | 0 <= j < k < m < i ::
                      && posts[j].key == posts[k].key == posts[m].key == posts[i].key
                      && !limited[j] && !limited[k] && !limited[m] && posts[i].time - posts[j].time < 600_000)
  {
    hide Admitted, MustReject, Recent, TooClose, TooMany;
    var limiter := new PostLimiter();
    limited := [];
    for i := 0 to |posts|
      invariant fresh(limiter) && limiter.Remembers(posts[..i])
      invariant |limited| == i
      invariant forall k | 0 <= k < i :: limited[k] <==> MustReject(Admitted(posts[..k], posts[k].key), posts[k].time)
    {
      assert posts[..i] + [Post(posts[i].key, posts[i].time)] == posts[..i + 1];
      var l := limiter.IsLimited(posts[i].key, posts[i].time, posts[..i]);
      limited := limited + [l];
    }
    DecisionsSpelled(posts, limited);
  }
}
