/** The web client's log scan (apps/web/lib/logScan.ts): chunks are cached for a while,
    concurrent callers of one chunk share its loader, and requests go out one at a time with a
    gap between them. `direct` is what the provider answers for a fixed block range. */
module LogCache {
  import opened Options
  import opened Numerals
  import opened LogScanner

  const LOG_SCAN_MAX_RETRIES := 4
  const LOG_SCAN_RETRY_BASE_DELAY_MS := 750
  const LOG_SCAN_CACHE_TTL_MS := 30_000
  const LOG_SCAN_CACHE_MAX_ENTRIES := 400
  const LOG_SCAN_MIN_GAP_MS := 180

  type Log = nat

  // ----- cache keys -----

  datatype Input = Input(name: string, kind: string, indexed: bool)
  datatype EventShape = EventShape(name: string, inputs: seq<Input>)

  function InputKey(i: Input): string {
    i.name + ":" + (i.kind + ":" + (if i.indexed then "true" else "false"))
  }

  function InputKeys(inputs: seq<Input>): string {
    if inputs == [] then ""
    else if |inputs| == 1 then InputKey(inputs[0])
    else InputKey(inputs[0]) + "|" + InputKeys(inputs[1..])
  }

  function EventKey(e: EventShape): string { e.name + ":" + InputKeys(e.inputs) }

  function CacheKey(chainId: nat, address: string, event: EventShape, from: nat, to: nat): string {
    Print(chainId, 10) + ":" + (address + ":" + ((EventKey(event) + ":" + Print(from, 10)) + ":" + Print(to, 10)))
  }

  /** No separator occurs in it: Solidity names and types have none. */
  predicate Bare(s: string) { ':' !in s && '|' !in s }

  predicate BareInputs(inputs: seq<Input>) {
    forall i | 0 <= i < |inputs| :: Bare(inputs[i].name) && Bare(inputs[i].kind)
  }

  predicate BareEvent(e: EventShape) { Bare(e.name) && BareInputs(e.inputs) }

  lemma {:induction false} PrintNoColon(n: nat)
    ensures ':' !in Print(n, 10)
  {
    PrintDecimal(n);
  }

  lemma PrintInjective(m: nat, n: nat)
    requires Print(m, 10) == Print(n, 10)
    ensures m == n
  {
    ParsePrint(m, 10);
    ParsePrint(n, 10);
  }

  lemma FirstAt(c: char, a: string, x: string)
    requires c !in a
    ensures var s := a + [c] + x; |a| < |s| && s[|a|] == c && forall i | 0 <= i < |a| :: s[i] != c
  {}

  lemma LastAt(c: char, x: string, a: string)
    requires c !in a
    ensures var s := x + [c] + a; |x| < |s| && s[|x|] == c && forall i | |x| < i < |s| :: s[i] != c
  {}

  lemma FirstSeparator(c: char, a: string, x: string, b: string, y: string)
    requires c !in a && c !in b && a + [c] + x == b + [c] + y
    ensures a == b && x == y
  {
    var s, t := a + [c] + x, b + [c] + y;
    FirstAt(c, a, x);
    FirstAt(c, b, y);
    assert |a| == |b|;
    assert a == s[..|a|] && b == t[..|b|];
    assert x == s[|a| + 1..] && y == t[|b| + 1..];
  }

  lemma LastSeparator(c: char, x: string, a: string, y: string, b: string)
    requires c !in a && c !in b && x + [c] + a == y + [c] + b
    ensures a == b && x == y
  {
    var s, t := x + [c] + a, y + [c] + b;
    LastAt(c, x, a);
    LastAt(c, y, b);
    assert |x| == |y|;
    assert x == s[..|x|] && y == t[..|y|];
    assert a == s[|x| + 1..] && b == t[|y| + 1..];
  }

  lemma InputKeyInjective(i: Input, j: Input)
    requires Bare(i.name) && Bare(i.kind) && Bare(j.name) && Bare(j.kind) && InputKey(i) == InputKey(j)
    ensures i == j
  {
    var flag, flag' := if i.indexed then "true" else "false", if j.indexed then "true" else "false";
    FirstSeparator(':', i.name, i.kind + ":" + flag, j.name, j.kind + ":" + flag');
    FirstSeparator(':', i.kind, flag, j.kind, flag');
    assert "true"[0] != "false"[0];
  }

  lemma InputKeyShape(i: Input)
    requires Bare(i.name) && Bare(i.kind)
    ensures '|' !in InputKey(i) && InputKey(i) != ""
  {}

  lemma BarBetweenInputs(inputs: seq<Input>)
    requires BareInputs(inputs) && inputs != []
    ensures '|' in InputKeys(inputs) <==> |inputs| > 1
  {
    hide InputKey;
    InputKeyShape(inputs[0]);
    if |inputs| > 1 {
      assert InputKeys(inputs)[|InputKey(inputs[0])|] == '|';
    }
  }

  lemma {:induction false} InputKeysInjective(a: seq<Input>, b: seq<Input>)
    requires BareInputs(a) && BareInputs(b) && InputKeys(a) == InputKeys(b)
    ensures a == b
    decreases |a|
  {
    hide InputKey;
    if a != [] && b != [] {
      BarBetweenInputs(a);
      BarBetweenInputs(b);
      InputKeyShape(a[0]);
      InputKeyShape(b[0]);
      assert a == [a[0]] + a[1..] && b == [b[0]] + b[1..];
      var restA, restB := InputKeys(a[1..]), InputKeys(b[1..]);
      if |a| == 1 && |b| == 1 {
        InputKeyInjective(a[0], b[0]);
      } else if |a| > 1 && |b| > 1 {
        FirstSeparator('|', InputKey(a[0]), restA, InputKey(b[0]), restB);
        InputKeyInjective(a[0], b[0]);
        InputKeysInjective(a[1..], b[1..]);
      }
    } else {
      SomeKeyNonEmpty(a);
      SomeKeyNonEmpty(b);
    }
  }

  lemma SomeKeyNonEmpty(inputs: seq<Input>)
    requires BareInputs(inputs)
    ensures inputs != [] ==> InputKeys(inputs) != ""
  {
    if inputs != [] {
      InputKeyShape(inputs[0]);
    }
  }

  /** Two requests share a cache key only if chain, address, event and range are the same. */
  lemma CacheKeyInjective(chainId: nat, address: string, event: EventShape, from: nat, to: nat,
                          chainId': nat, address': string, event': EventShape, from': nat, to': nat)
    requires ':' !in address && ':' !in address' && BareEvent(event) && BareEvent(event')
    requires CacheKey(chainId, address, event, from, to) == CacheKey(chainId', address', event', from', to')
    ensures chainId == chainId' && address == address' && event == event' && from == from' && to == to'
  {
    hide InputKeys, Print;
    var key, key' := EventKey(event), EventKey(event');
    PrintNoColon(chainId);
    PrintNoColon(chainId');
    PrintNoColon(from);
    PrintNoColon(from');
    PrintNoColon(to);
    PrintNoColon(to');
    var tail := (key + ":" + Print(from, 10)) + ":" + Print(to, 10);
    var tail' := (key' + ":" + Print(from', 10)) + ":" + Print(to', 10);
    FirstSeparator(':', Print(chainId, 10), address + ":" + tail, Print(chainId', 10), address' + ":" + tail');
    FirstSeparator(':', address, tail, address', tail');
    LastSeparator(':', key + ":" + Print(from, 10), Print(to, 10), key' + ":" + Print(from', 10), Print(to', 10));
    LastSeparator(':', key, Print(from, 10), key', Print(from', 10));
    FirstSeparator(':', event.name, InputKeys(event.inputs), event'.name, InputKeys(event'.inputs));
    InputKeysInjective(event.inputs, event'.inputs);
    PrintInjective(chainId, chainId');
    PrintInjective(from, from');
    PrintInjective(to, to');
  }

  // ----- the cache: a map in insertion order -----

  /** A block range of one chain, contract and event (the `scope`). */
  datatype Key = Key(scope: nat, from: nat, to: nat)
  datatype Entry = Entry(key: Key, ts: nat, logs: seq<Log>)

  function Find(cache: seq<Entry>, key: Key): Option<nat>
    ensures Find(cache, key).Some? ==> Find(cache, key).value < |cache| && cache[Find(cache, key).value].key == key
    ensures Find(cache, key).None? ==> forall i | 0 <= i < |cache| :: cache[i].key != key
  {
    if cache == [] then None
    else if cache[|cache| - 1].key == key then Some(|cache| - 1)
    else Find(cache[..|cache| - 1], key)
  }

  predicate UniqueKeys(cache: seq<Entry>) {
    forall i, j | 0 <= i < j < |cache| :: cache[i].key != cache[j].key
  }

  /** Fresh entries are returned; a stale one is removed. */
  function ReadCached(cache: seq<Entry>, key: Key, now: nat): (seq<Entry>, Option<seq<Log>>) {
    match Find(cache, key)
    case None => (cache, None)
    case Some(i) =>
      if now - cache[i].ts > LOG_SCAN_CACHE_TTL_MS then (cache[..i] + cache[i + 1..], None)
      else (cache, Some(cache[i].logs))
  }

  /** `Map.set` keeps the place of a key already present; the oldest entry goes when there are too many. */
  function WriteCached(cache: seq<Entry>, key: Key, now: nat, logs: seq<Log>): seq<Entry> {
    var added := match Find(cache, key)
                 case None => cache + [Entry(key, now, logs)]
                 case Some(i) => cache[i := Entry(key, now, logs)];
    if |added| <= LOG_SCAN_CACHE_MAX_ENTRIES then added else added[1..]
  }

  ghost predicate CacheGood(cache: seq<Entry>, direct: Key -> seq<Log>) {
    && UniqueKeys(cache) && |cache| <= LOG_SCAN_CACHE_MAX_ENTRIES
    && forall i | 0 <= i < |cache| :: cache[i].logs == direct(cache[i].key)
  }

  lemma ReadKeepsGood(cache: seq<Entry>, key: Key, now: nat, direct: Key -> seq<Log>)
    requires CacheGood(cache, direct)
    ensures var r := ReadCached(cache, key, now);
      CacheGood(r.0, direct) && (r.1.Some? ==> r.1.value == direct(key))
  {}

  lemma WriteKeepsGood(cache: seq<Entry>, key: Key, now: nat, direct: Key -> seq<Log>)
    requires CacheGood(cache, direct)
    ensures CacheGood(WriteCached(cache, key, now, direct(key)), direct)
  {}

  /** What is returned: the entry of the key while it is at most thirty seconds old, otherwise nothing,
      and a stale entry is gone afterwards; the other entries stay. */
  lemma ReadReturnsFresh(cache: seq<Entry>, key: Key, now: nat)
    requires UniqueKeys(cache)
    ensures var (after, logs) := ReadCached(cache, key, now);
      && (logs.Some? <==> exists e :: e in cache && e.key == key && now - e.ts <= 30_000)
      && (forall e | e in cache && e.key == key && now - e.ts <= 30_000 :: logs == Some(e.logs))
      && (forall e :: e in after <==> e in cache && !(e.key == key && now - e.ts > 30_000))
  {
    var i := Find(cache, key);
    if i.Some? {
      forall e | e in cache && e.key == key
        ensures e == cache[i.value]
      {}
      assert cache == cache[..i.value] + [cache[i.value]] + cache[i.value + 1..];
      forall e | e in cache[..i.value] + cache[i.value + 1..]
        ensures e in cache && e.key != key
      {
        var j :| 0 <= j < |cache| && j != i.value && cache[j] == e;
      }
    }
  }

  /** What is stored: the new entry, and all others, except that the oldest of four hundred makes room
      for a key that had none. */
  lemma WriteStores(cache: seq<Entry>, key: Key, now: nat, logs: seq<Log>)
    requires UniqueKeys(cache) && |cache| <= 400
    ensures var after := WriteCached(cache, key, now, logs);
      && Entry(key, now, logs) in after && |after| <= 400
      && (forall e | e in after :: e == Entry(key, now, logs) || (e in cache && e.key != key))
      && (forall i | 0 <= i < |cache| && cache[i].key != key && cache[i] !in after ::
            i == 0 && |cache| == 400 && forall j | 0 <= j < 400 :: cache[j].key != key)
  {
    var after, added := WriteCached(cache, key, now, logs), Entry(key, now, logs);
    match Find(cache, key)
    case None =>
      assert after == if |cache| < 400 then cache + [added] else cache[1..] + [added];
    case Some(i) =>
      assert after == cache[i := added] && after[i] == added;
      forall e | e in after && e != added
        ensures e in cache && e.key != key
      {
        var j :| 0 <= j < |after| && after[j] == e;
        assert j != i && cache[j] == e;
      }
      forall j | 0 <= j < |cache| && cache[j].key != key
        ensures cache[j] in after
      {
        assert after[j] == cache[j];
      }
  }

  // ----- loaders and the request queue -----

  datatype LoaderStatus =
    | Queued(ticket: nat)        // inside runQueuedLogRequest
    | Backoff(until: nat)        // sleeping before the next attempt
    | Loaded(logs: seq<Log>)
    | Failed

  /** `registered`: the creator has not yet removed the loader from the in-flight map. */
  datatype Loader = Loader(key: Key, attempt: nat, status: LoaderStatus, registered: bool)

  datatype TicketStatus =
    | Waiting                    // for the ticket before it
    | Spacing(until: nat)        // its turn has come, sleeping out the gap
    | Open(start: nat)           // its request is in flight
    | Released(start: nat, end: nat)

  datatype Ticket = Ticket(loader: nat, status: TicketStatus)

  datatype CallerStatus =
    | Asking                     // about to ask for its next chunk
    | Awaiting(loader: nat)
    | Finished
    | Aborted                    // a chunk's loader failed

  /** One `getLogsChunked` in progress: its range, the first block not yet collected, and what it
      has collected. */
  datatype Caller = Caller(scope: nat, start: nat, latest: nat, chunkSize: nat, next: nat, logs: seq<Log>, status: CallerStatus)

  function NewCaller(scope: nat, start: nat, latest: nat, chunkSize: nat): Caller {
    Caller(scope, start, latest, chunkSize, start, [], if start <= latest then Asking else Finished)
  }

  function ChunkEnd(c: Caller): int {
    if c.next + c.chunkSize - 1 > c.latest then c.latest else c.next + c.chunkSize - 1
  }

  function ChunkKey(c: Caller): Key
    requires c.chunkSize > 0
  {
    Key(c.scope, c.next, ChunkEnd(c))
  }

  function Received(c: Caller, logs: seq<Log>): Caller {
    c.(next := c.next + c.chunkSize, logs := c.logs + logs,
       status := if c.next + c.chunkSize <= c.latest then Asking else Finished)
  }

  datatype State = State(now: nat, cache: seq<Entry>, inflight: map<Key, nat>, loaders: seq<Loader>, tickets: seq<Ticket>,
                         lastRequestAt: nat, callers: seq<Caller>)

  datatype Outcome = Answered | Retryable | Refused

  datatype Action =
    | Begin(scope: nat, start: nat, latest: nat, chunkSize: nat)
    | Ask(caller: nat)                     // a caller asks for its next chunk
    | Deliver(caller: nat)                 // the loader a caller waits for has settled
    | TurnComes(ticket: nat)
    | OpenRequest(ticket: nat)
    | CloseRequest(ticket: nat, outcome: Outcome)
    | RetryLoader(loader: nat)
    | Unregister(loader: nat)
    | Tick(ms: nat)

  predicate Indexed(s: State) {
    && (forall k | k in s.inflight :: s.inflight[k] < |s.loaders|)
    && (forall t | 0 <= t < |s.tickets| :: s.tickets[t].loader < |s.loaders|)
    && (forall c | 0 <= c < |s.callers| :: s.callers[c].chunkSize > 0)
    && (forall c | 0 <= c < |s.callers| && s.callers[c].status.Awaiting? :: s.callers[c].status.loader < |s.loaders|)
    && s.lastRequestAt <= s.now
  }

  predicate Settled(l: Loader) { l.status.Loaded? || l.status.Failed? }

  predicate Enabled(s: State, a: Action)
    requires Indexed(s)
  {
    match a
    case Begin(_, _, _, chunkSize) => chunkSize > 0
    case Ask(c) => c < |s.callers| && s.callers[c].status.Asking?
    case Deliver(c) => c < |s.callers| && s.callers[c].status.Awaiting? && Settled(s.loaders[s.callers[c].status.loader])
    case TurnComes(t) => t < |s.tickets| && s.tickets[t].status.Waiting? && (t == 0 || s.tickets[t - 1].status.Released?)
    case OpenRequest(t) => t < |s.tickets| && s.tickets[t].status.Spacing? && s.tickets[t].status.until <= s.now
    case CloseRequest(t, _) => t < |s.tickets| && s.tickets[t].status.Open?
    case RetryLoader(l) => l < |s.loaders| && s.loaders[l].status.Backoff? && s.loaders[l].status.until <= s.now
    case Unregister(l) => l < |s.loaders| && s.loaders[l].registered && Settled(s.loaders[l])
    case Tick(_) => true
  }

  function SetLoader(s: State, l: nat, loader: Loader): State
    requires l < |s.loaders|
  {
    s.(loaders := s.loaders[l := loader])
  }

  function SetTicket(s: State, t: nat, status: TicketStatus): State
    requires t < |s.tickets|
  {
    s.(tickets := s.tickets[t := s.tickets[t].(status := status)])
  }

  datatype Reply = Hit(logs: seq<Log>) | Wait(loader: nat)

  function WithNewLoader(s: State, key: Key): State {
    s.(inflight := s.inflight[key := |s.loaders|], loaders := s.loaders + [Loader(key, 0, Queued(|s.tickets|), true)],
       tickets := s.tickets + [Ticket(|s.loaders|, Waiting)])
  }

  /** `getLogsChunkWithRetry` up to its first suspension: the cache, the loader already in flight,
      or a new loader. */
  function ChunkRequest(s: State, key: Key): (State, Reply) {
    var (cache, hit) := ReadCached(s.cache, key, s.now);
    if hit.Some? then (s, Hit(hit.value))
    else if key in s.inflight then (s.(cache := cache), Wait(s.inflight[key]))
    else (WithNewLoader(s.(cache := cache), key), Wait(|s.loaders|))
  }

  function SetCaller(s: State, c: nat, caller: Caller): State
    requires c < |s.callers|
  {
    s.(callers := s.callers[c := caller])
  }

  function Do(s: State, a: Action, direct: Key -> seq<Log>): State
    requires Indexed(s) && Enabled(s, a)
  {
    match a
    case Begin(scope, start, latest, chunkSize) => s.(callers := s.callers + [NewCaller(scope, start, latest, chunkSize)])
    case Ask(c) =>
      var caller := s.callers[c];
      var (s', reply) := ChunkRequest(s, ChunkKey(caller));
      SetCaller(s', c, if reply.Hit? then Received(caller, reply.logs) else caller.(status := Awaiting(reply.loader)))
    case Deliver(c) =>
      var caller := s.callers[c];
      var loader := s.loaders[caller.status.loader];
      SetCaller(s, c, if loader.status.Loaded? then Received(caller, loader.status.logs) else caller.(status := Aborted))
    case TurnComes(t) =>
      var earliest := s.lastRequestAt + LOG_SCAN_MIN_GAP_MS;
      SetTicket(s, t, Spacing(if earliest > s.now then earliest else s.now))
    case OpenRequest(t) => SetTicket(s, t, Open(s.now))
    case CloseRequest(t, outcome) =>
      var l := s.tickets[t].loader;
      var loader := s.loaders[l];
      var closed := SetTicket(s, t, Released(s.tickets[t].status.start, s.now)).(lastRequestAt := s.now);
      if outcome.Answered? then
        SetLoader(closed, l, loader.(status := Loaded(direct(loader.key)))).
          (cache := WriteCached(s.cache, loader.key, s.now, direct(loader.key)))
      else if outcome.Refused? || loader.attempt == LOG_SCAN_MAX_RETRIES then SetLoader(closed, l, loader.(status := Failed))
      else
        SetLoader(closed, l, loader.(attempt := loader.attempt + 1,
                                     status := Backoff(s.now + LOG_SCAN_RETRY_BASE_DELAY_MS * (loader.attempt + 1))))
    case RetryLoader(l) =>
      SetLoader(s, l, s.loaders[l].(status := Queued(|s.tickets|))).(tickets := s.tickets + [Ticket(l, Waiting)])
    case Unregister(l) =>
      SetLoader(s, l, s.loaders[l].(registered := false)).(inflight := s.inflight - {s.loaders[l].key})
    case Tick(ms) => s.(now := s.now + ms)
  }

  // ----- the invariant -----

  ghost predicate ValuesGood(s: State, direct: Key -> seq<Log>) {
    && CacheGood(s.cache, direct)
    && (forall l | 0 <= l < |s.loaders| && s.loaders[l].status.Loaded? :: s.loaders[l].status.logs == direct(s.loaders[l].key))
  }

  /** What a caller has collected is the part of its range before the next block, and a finished
      caller has the whole range. */
  ghost predicate Collected(c: Caller, chains: nat -> seq<seq<Log>>) {
    if c.status.Finished? then c.logs == LogsIn(chains(c.scope), c.start, c.latest)
    else c.start <= c.next <= c.latest && c.logs == LogsIn(chains(c.scope), c.start, c.next - 1)
  }

  ghost predicate CallersGood(s: State, chains: nat -> seq<seq<Log>>)
    requires Indexed(s)
  {
    && (forall c | 0 <= c < |s.callers| :: Collected(s.callers[c], chains))
    && (forall c | 0 <= c < |s.callers| && s.callers[c].status.Awaiting? ::
          s.loaders[s.callers[c].status.loader].key == ChunkKey(s.callers[c]))
  }

  /** A fixed block range always yields the same logs. */
  ghost predicate Answers(direct: Key -> seq<Log>, chains: nat -> seq<seq<Log>>) {
    forall key :: direct(key) == LogsIn(chains(key.scope), key.from, key.to)
  }

  /** The in-flight map holds exactly the registered loaders, and only those may be unsettled. */
  predicate LoadersRegistered(s: State)
    requires Indexed(s)
  {
    && (forall k | k in s.inflight :: s.loaders[s.inflight[k]].key == k && s.loaders[s.inflight[k]].registered)
    && (forall l | 0 <= l < |s.loaders| && s.loaders[l].registered ::
          s.loaders[l].key in s.inflight && s.inflight[s.loaders[l].key] == l)
    && (forall l | 0 <= l < |s.loaders| && !s.loaders[l].registered :: s.loaders[l].status.Loaded? || s.loaders[l].status.Failed?)
  }

  /** A ticket not yet released is the one its loader waits for, and the other way round. */
  predicate TicketsOwned(s: State)
    requires Indexed(s)
  {
    && (forall t | 0 <= t < |s.tickets| && !s.tickets[t].status.Released? :: s.loaders[s.tickets[t].loader].status == Queued(t))
    && (forall l | 0 <= l < |s.loaders| && s.loaders[l].status.Queued? ::
          s.loaders[l].status.ticket < |s.tickets| && s.tickets[s.loaders[l].status.ticket].loader == l &&
          !s.tickets[s.loaders[l].status.ticket].status.Released?)
    && (forall l | 0 <= l < |s.loaders| :: s.loaders[l].attempt <= LOG_SCAN_MAX_RETRIES)
  }

  predicate RequestsSpaced(s: State) { Spaced(s.tickets, s.lastRequestAt, s.now) }

  /** Tickets are served in order, and each request starts a gap after the one before ended. */
  predicate Spaced(tickets: seq<Ticket>, lastRequestAt: nat, now: nat) {
    && Orderly(tickets, lastRequestAt)
    && (forall t | 0 <= t < |tickets| && tickets[t].status.Open? :: tickets[t].status.start <= now)
    && lastRequestAt <= now
  }

  predicate Orderly(tickets: seq<Ticket>, lastRequestAt: nat) {
    && (forall u, t | 0 <= u < t < |tickets| && Started(tickets[t]) :: tickets[u].status.Released?)
    && (forall t | 0 < t < |tickets| && Started(tickets[t]) && tickets[t - 1].status.Released? ::
          StartOf(tickets[t]) >= tickets[t - 1].status.end + LOG_SCAN_MIN_GAP_MS)
    && (forall t | 0 <= t < |tickets| && tickets[t].status.Released? ::
          tickets[t].status.start <= tickets[t].status.end <= lastRequestAt &&
          (t + 1 == |tickets| || !tickets[t + 1].status.Released? ==> lastRequestAt == tickets[t].status.end))
  }

  lemma SpacedAppend(tickets: seq<Ticket>, last: nat, now: nat, loader: nat)
    requires Spaced(tickets, last, now)
    ensures Spaced(tickets + [Ticket(loader, Waiting)], last, now)
  {
    var longer := tickets + [Ticket(loader, Waiting)];
    assert forall t | 0 <= t < |tickets| :: longer[t] == tickets[t];
    forall t | 0 <= t < |longer| && longer[t].status.Released?
      ensures longer[t].status.start <= longer[t].status.end <= last
      ensures t + 1 == |longer| || !longer[t + 1].status.Released? ==> last == longer[t].status.end
    {
      assert tickets[t].status.Released?;
    }
  }

  lemma SpacedTurn(tickets: seq<Ticket>, last: nat, now: nat, t: nat, until: nat)
    requires Spaced(tickets, last, now) && t < |tickets| && tickets[t].status.Waiting?
    requires t == 0 || tickets[t - 1].status.Released?
    requires until >= last + LOG_SCAN_MIN_GAP_MS
    ensures Spaced(tickets[t := tickets[t].(status := Spacing(until))], last, now)
  {}

  lemma SpacedOpen(tickets: seq<Ticket>, last: nat, now: nat, t: nat)
    requires Spaced(tickets, last, now) && t < |tickets| && tickets[t].status.Spacing? && tickets[t].status.until <= now
    ensures Spaced(tickets[t := tickets[t].(status := Open(now))], last, now)
  {}

  lemma SpacedClose(tickets: seq<Ticket>, last: nat, now: nat, t: nat)
    requires Spaced(tickets, last, now) && t < |tickets| && tickets[t].status.Open?
    ensures Spaced(tickets[t := tickets[t].(status := Released(tickets[t].status.start, now))], now, now)
  {}

  predicate Started(t: Ticket) { !t.status.Waiting? }

  function StartOf(t: Ticket): nat
    requires Started(t)
  {
    if t.status.Spacing? then t.status.until else t.status.start
  }

  ghost predicate Inv(s: State, direct: Key -> seq<Log>) {
    Indexed(s) && ValuesGood(s, direct) && LoadersRegistered(s) && TicketsOwned(s) && RequestsSpaced(s)
  }

  lemma AskKeepsValues(s: State, c: nat, direct: Key -> seq<Log>)
    requires Inv(s, direct) && Enabled(s, Ask(c))
    ensures Indexed(Do(s, Ask(c), direct)) && ValuesGood(Do(s, Ask(c), direct), direct)
  {
    hide ReadCached, CacheGood, LoadersRegistered, TicketsOwned, RequestsSpaced, ChunkKey;
    ReadKeepsGood(s.cache, ChunkKey(s.callers[c]), s.now, direct);
  }

  lemma CloseKeepsValues(s: State, t: nat, outcome: Outcome, direct: Key -> seq<Log>)
    requires Inv(s, direct) && Enabled(s, CloseRequest(t, outcome))
    ensures Indexed(Do(s, CloseRequest(t, outcome), direct)) && ValuesGood(Do(s, CloseRequest(t, outcome), direct), direct)
  {
    hide WriteCached, CacheGood, LoadersRegistered, TicketsOwned, RequestsSpaced;
    WriteKeepsGood(s.cache, s.loaders[s.tickets[t].loader].key, s.now, direct);
  }

  lemma StepKeepsValues(s: State, a: Action, direct: Key -> seq<Log>)
    requires Inv(s, direct) && Enabled(s, a)
    ensures Indexed(Do(s, a, direct)) && ValuesGood(Do(s, a, direct), direct)
  {
    hide CacheGood, LoadersRegistered, TicketsOwned, RequestsSpaced, ChunkRequest, WriteCached;
    if a.Ask? {
      AskKeepsValues(s, a.caller, direct);
    } else if a.CloseRequest? {
      CloseKeepsValues(s, a.ticket, a.outcome, direct);
    }
  }

  lemma AskKeepsLoaders(s: State, c: nat, direct: Key -> seq<Log>)
    requires Inv(s, direct) && Enabled(s, Ask(c))
    ensures var s' := Do(s, Ask(c), direct); Indexed(s') && LoadersRegistered(s') && TicketsOwned(s')
  {
    hide ReadCached, CacheGood, ValuesGood, RequestsSpaced, ChunkKey;
    RequestKeepsLoaders(s, ChunkKey(s.callers[c]), direct);
  }

  lemma NewLoaderRegistered(s: State, key: Key)
    requires Indexed(s) && LoadersRegistered(s) && key !in s.inflight
    ensures Indexed(WithNewLoader(s, key)) && LoadersRegistered(WithNewLoader(s, key))
  {}

  lemma NewLoaderOwnsTicket(s: State, key: Key)
    requires Indexed(s) && TicketsOwned(s)
    ensures Indexed(WithNewLoader(s, key)) && TicketsOwned(WithNewLoader(s, key))
  {}

  lemma RequestKeepsLoaders(s: State, key: Key, direct: Key -> seq<Log>)
    requires Inv(s, direct)
    ensures var (s', reply) := ChunkRequest(s, key);
      && Indexed(s') && LoadersRegistered(s') && TicketsOwned(s') && s'.callers == s.callers
      && (reply.Wait? ==> reply.loader < |s'.loaders| && s'.loaders[reply.loader].key == key)
  {
    hide ReadCached, CacheGood, ValuesGood, RequestsSpaced, WithNewLoader;
    if key !in s.inflight {
      hide LoadersRegistered, TicketsOwned;
      var cached := s.(cache := ReadCached(s.cache, key, s.now).0);
      CacheIsApart(s, cached.cache);
      NewLoaderRegistered(cached, key);
      NewLoaderOwnsTicket(cached, key);
      NewLoaderState(cached, key);
    }
  }

  lemma CacheIsApart(s: State, cache: seq<Entry>)
    requires Indexed(s) && LoadersRegistered(s) && TicketsOwned(s)
    ensures var s' := s.(cache := cache); Indexed(s') && LoadersRegistered(s') && TicketsOwned(s')
  {}

  lemma NewLoaderState(s: State, key: Key)
    ensures var s' := WithNewLoader(s, key);
      s'.callers == s.callers && |s'.loaders| == |s.loaders| + 1 && s'.loaders[|s.loaders|].key == key
  {}

  lemma UnregisterKeepsLoaders(s: State, l: nat, direct: Key -> seq<Log>)
    requires Inv(s, direct) && Enabled(s, Unregister(l))
    ensures var s' := Do(s, Unregister(l), direct); Indexed(s') && LoadersRegistered(s') && TicketsOwned(s')
  {
    hide CacheGood, ValuesGood, RequestsSpaced;
  }

  /** A loader changes status and keeps its key, its registration and its tickets' owner. */
  lemma LoaderStepKeepsRegistered(s: State, s': State, l: nat)
    requires Indexed(s) && Indexed(s') && LoadersRegistered(s) && l < |s.loaders|
    requires s'.inflight == s.inflight && |s'.loaders| == |s.loaders|
    requires forall i | 0 <= i < |s.loaders| && i != l :: s'.loaders[i] == s.loaders[i]
    requires s.loaders[l].registered && s'.loaders[l].registered && s'.loaders[l].key == s.loaders[l].key
    ensures LoadersRegistered(s')
  {}

  lemma CloseKeepsLoaders(s: State, t: nat, outcome: Outcome, direct: Key -> seq<Log>)
    requires Inv(s, direct) && Enabled(s, CloseRequest(t, outcome))
    ensures var s' := Do(s, CloseRequest(t, outcome), direct); Indexed(s') && LoadersRegistered(s') && TicketsOwned(s')
  {
    hide WriteCached, CacheGood, ValuesGood, RequestsSpaced;
    var s' := Do(s, CloseRequest(t, outcome), direct);
    assert TicketsOwned(s');
    LoaderStepKeepsRegistered(s, s', s.tickets[t].loader);
  }

  lemma RetryKeepsLoaders(s: State, l: nat, direct: Key -> seq<Log>)
    requires Inv(s, direct) && Enabled(s, RetryLoader(l))
    ensures var s' := Do(s, RetryLoader(l), direct); Indexed(s') && LoadersRegistered(s') && TicketsOwned(s')
  {
    hide CacheGood, ValuesGood, RequestsSpaced;
    var s' := Do(s, RetryLoader(l), direct);
    assert TicketsOwned(s');
    LoaderStepKeepsRegistered(s, s', l);
  }

  lemma OtherStepKeepsLoaders(s: State, a: Action, direct: Key -> seq<Log>)
    requires Inv(s, direct) && Enabled(s, a)
    requires a.Begin? || a.Deliver? || a.TurnComes? || a.OpenRequest? || a.Tick?
    ensures var s' := Do(s, a, direct); Indexed(s') && LoadersRegistered(s') && TicketsOwned(s')
  {
    hide CacheGood, ValuesGood, RequestsSpaced;
  }

  lemma StepKeepsLoaders(s: State, a: Action, direct: Key -> seq<Log>)
    requires Inv(s, direct) && Enabled(s, a)
    ensures var s' := Do(s, a, direct); Indexed(s') && LoadersRegistered(s') && TicketsOwned(s')
  {
    hide Do, ValuesGood, LoadersRegistered, TicketsOwned, RequestsSpaced;
    match a
    case Ask(c) => AskKeepsLoaders(s, c, direct);
    case CloseRequest(t, outcome) => CloseKeepsLoaders(s, t, outcome, direct);
    case RetryLoader(l) => RetryKeepsLoaders(s, l, direct);
    case Unregister(l) => UnregisterKeepsLoaders(s, l, direct);
    case Begin(_, _, _, _) => OtherStepKeepsLoaders(s, a, direct);
    case Deliver(_) => OtherStepKeepsLoaders(s, a, direct);
    case TurnComes(_) => OtherStepKeepsLoaders(s, a, direct);
    case OpenRequest(_) => OtherStepKeepsLoaders(s, a, direct);
    case Tick(_) => OtherStepKeepsLoaders(s, a, direct);
  }

  lemma StepKeepsSpacing(s: State, a: Action, direct: Key -> seq<Log>)
    requires Inv(s, direct) && Enabled(s, a)
    ensures RequestsSpaced(Do(s, a, direct))
  {
    hide ReadCached, WriteCached, CacheGood, ValuesGood, LoadersRegistered, TicketsOwned, Spaced;
    match a
    case Ask(_) => SpacedAppend(s.tickets, s.lastRequestAt, s.now, |s.loaders|);
    case RetryLoader(l) => SpacedAppend(s.tickets, s.lastRequestAt, s.now, l);
    case TurnComes(t) =>
      var earliest := s.lastRequestAt + LOG_SCAN_MIN_GAP_MS;
      SpacedTurn(s.tickets, s.lastRequestAt, s.now, t, if earliest > s.now then earliest else s.now);
    case OpenRequest(t) => SpacedOpen(s.tickets, s.lastRequestAt, s.now, t);
    case CloseRequest(t, _) => SpacedClose(s.tickets, s.lastRequestAt, s.now, t);
    case Tick(ms) => SpacedLater(s.tickets, s.lastRequestAt, s.now, s.now + ms);
    case Begin(_, _, _, _) =>
    case Deliver(_) =>
    case Unregister(_) =>
  }

  lemma SpacedLater(tickets: seq<Ticket>, last: nat, now: nat, later: nat)
    requires Spaced(tickets, last, now) && now <= later
    ensures Spaced(tickets, last, later)
  {}

  lemma StepKeeps(s: State, a: Action, direct: Key -> seq<Log>)
    requires Inv(s, direct) && Enabled(s, a)
    ensures Inv(Do(s, a, direct), direct)
  {
    hide Do, ValuesGood, LoadersRegistered, TicketsOwned, RequestsSpaced, Indexed;
    StepKeepsValues(s, a, direct);
    StepKeepsLoaders(s, a, direct);
    StepKeepsSpacing(s, a, direct);
  }

  // ----- every run -----

  function Init(now: nat): State {
    State(now, [], map[], [], [], 0, [])
  }

  ghost predicate IsRun(states: seq<State>, actions: seq<Action>, direct: Key -> seq<Log>) {
    && |states| == |actions| + 1
    && states[0] == Init(states[0].now)
    && (forall k | 0 <= k < |actions| ::
          Indexed(states[k]) && Enabled(states[k], actions[k]) && states[k + 1] == Do(states[k], actions[k], direct))
  }

  lemma {:induction false} RunKeeps(states: seq<State>, actions: seq<Action>, direct: Key -> seq<Log>, k: nat)
    requires IsRun(states, actions, direct) && k < |states|
    ensures Inv(states[k], direct)
  {
    if k > 0 {
      hide Inv, Do, Enabled;
      RunKeeps(states, actions, direct, k - 1);
      StepKeeps(states[k - 1], actions[k - 1], direct);
    }
  }

  /** In every interleaving the cache holds at most its limit, one entry for a key, and only what
      the provider answers. */
  lemma CacheStaysGood(states: seq<State>, actions: seq<Action>, direct: Key -> seq<Log>, k: nat)
    requires IsRun(states, actions, direct) && k < |states|
    ensures var cache := states[k].cache;
      && |cache| <= 400
      && (forall i, j | 0 <= i < j < |cache| :: cache[i].key != cache[j].key)
      && (forall i | 0 <= i < |cache| :: cache[i].logs == direct(cache[i].key))
  {
    RunKeeps(states, actions, direct, k);
  }

  lemma ReceivedCollects(c: Caller, logs: seq<Log>, chains: nat -> seq<seq<Log>>)
    requires c.chunkSize > 0 && !c.status.Finished? && Collected(c, chains)
    requires logs == LogsIn(chains(c.scope), c.next, ChunkEnd(c))
    ensures Collected(Received(c, logs), chains)
  {
    hide LogsIn;
    LogsInSplit(chains(c.scope), c.start, c.next, ChunkEnd(c));
  }

  lemma NewCallerCollects(scope: nat, start: nat, latest: nat, chunkSize: nat, chains: nat -> seq<seq<Log>>)
    ensures Collected(NewCaller(scope, start, latest, chunkSize), chains)
  {
    LogsInEmpty(chains(scope), start, latest);
  }

  lemma AskKeepsCallers(s: State, c: nat, direct: Key -> seq<Log>, chains: nat -> seq<seq<Log>>)
    requires Inv(s, direct) && Enabled(s, Ask(c)) && CallersGood(s, chains) && Answers(direct, chains)
    ensures var s' := Do(s, Ask(c), direct); Indexed(s') && CallersGood(s', chains)
  {
    hide LogsIn, TicketsOwned, LoadersRegistered, RequestsSpaced, ReadCached, CacheGood;
    var caller := s.callers[c];
    var key := ChunkKey(caller);
    RequestKeepsLoaders(s, key, direct);
    ReadKeepsGood(s.cache, key, s.now, direct);
    ReceivedCollects(caller, direct(key), chains);
  }

  lemma BeginKeepsCallers(s: State, a: Action, direct: Key -> seq<Log>, chains: nat -> seq<seq<Log>>)
    requires Indexed(s) && Enabled(s, a) && a.Begin? && CallersGood(s, chains)
    ensures var s' := Do(s, a, direct); Indexed(s') && CallersGood(s', chains)
  {
    hide LogsIn, Collected, ChunkKey;
    NewCallerCollects(a.scope, a.start, a.latest, a.chunkSize, chains);
  }

  lemma DeliverKeepsCallers(s: State, c: nat, direct: Key -> seq<Log>, chains: nat -> seq<seq<Log>>)
    requires Inv(s, direct) && Enabled(s, Deliver(c)) && CallersGood(s, chains) && Answers(direct, chains)
    ensures var s' := Do(s, Deliver(c), direct); Indexed(s') && CallersGood(s', chains)
  {
    hide LogsIn, TicketsOwned, LoadersRegistered, RequestsSpaced, CacheGood, Collected;
    var caller := s.callers[c];
    ReceivedCollects(caller, direct(ChunkKey(caller)), chains);
    AbortedCollects(caller, chains);
  }

  /** Every other step leaves the callers alone and each loader its key. */
  lemma OtherStepKeepsCallers(s: State, a: Action, direct: Key -> seq<Log>, chains: nat -> seq<seq<Log>>)
    requires Indexed(s) && Enabled(s, a) && !a.Ask? && !a.Begin? && !a.Deliver? && CallersGood(s, chains)
    ensures var s' := Do(s, a, direct); Indexed(s') ==> CallersGood(s', chains)
  {
    hide LogsIn, WriteCached, Collected, ChunkKey;
    var s' := Do(s, a, direct);
    assert s'.callers == s.callers && |s'.loaders| == |s.loaders|;
    assert forall l | 0 <= l < |s.loaders| :: s'.loaders[l].key == s.loaders[l].key;
  }

  lemma AbortedCollects(c: Caller, chains: nat -> seq<seq<Log>>)
    requires Collected(c, chains) && !c.status.Finished?
    ensures Collected(c.(status := Aborted), chains)
  {
    hide LogsIn;
  }

  lemma StepKeepsCallers(s: State, a: Action, direct: Key -> seq<Log>, chains: nat -> seq<seq<Log>>)
    requires Inv(s, direct) && Enabled(s, a) && CallersGood(s, chains) && Answers(direct, chains)
    ensures var s' := Do(s, a, direct); Indexed(s') && CallersGood(s', chains)
  {
    StepKeeps(s, a, direct);
    hide Do, LogsIn, ValuesGood, LoadersRegistered, TicketsOwned, RequestsSpaced, CallersGood, Answers;
    match a
    case Ask(c) => AskKeepsCallers(s, c, direct, chains);
    case Begin(_, _, _, _) => BeginKeepsCallers(s, a, direct, chains);
    case Deliver(c) => DeliverKeepsCallers(s, c, direct, chains);
    case _ => OtherStepKeepsCallers(s, a, direct, chains);
  }

  /** Whoever else asks, fails, retries or shares: in every interleaving each caller has collected
      exactly the logs of its range before the next block to ask for, and a caller that finishes
      has exactly those of its whole range. */
  lemma {:induction false} CallersCollectTheirRange(states: seq<State>, actions: seq<Action>, direct: Key -> seq<Log>,
                                                    chains: nat -> seq<seq<Log>>, k: nat)
    requires IsRun(states, actions, direct) && k < |states| && Answers(direct, chains)
    ensures Indexed(states[k]) && CallersGood(states[k], chains)
    ensures forall c | 0 <= c < |states[k].callers| && states[k].callers[c].status.Finished? ::
              states[k].callers[c].logs == LogsIn(chains(states[k].callers[c].scope), states[k].callers[c].start,
                                                  states[k].callers[c].latest)
  {
    if k > 0 {
      hide Inv, Do, Enabled, LogsIn, Answers;
      RunKeeps(states, actions, direct, k - 1);
      CallersCollectTheirRange(states, actions, direct, chains, k - 1);
      StepKeepsCallers(states[k - 1], actions[k - 1], direct, chains);
    }
  }

  /** At most one loader of a key is unsettled. */
  lemma OneLoaderPerKey(states: seq<State>, actions: seq<Action>, direct: Key -> seq<Log>, k: nat, l: nat, m: nat)
    requires IsRun(states, actions, direct) && k < |states| && l < |states[k].loaders| && m < |states[k].loaders|
    requires !states[k].loaders[l].status.Loaded? && !states[k].loaders[l].status.Failed?
    requires !states[k].loaders[m].status.Loaded? && !states[k].loaders[m].status.Failed?
    requires states[k].loaders[l].key == states[k].loaders[m].key
    ensures l == m
  {
    RunKeeps(states, actions, direct, k);
  }

  /** Requests never overlap, and each starts at least the gap after the one before it ended. */
  lemma RequestsKeepTheirDistance(states: seq<State>, actions: seq<Action>, direct: Key -> seq<Log>, k: nat, t: nat)
    requires IsRun(states, actions, direct) && k < |states| && 0 < t < |states[k].tickets|
    requires states[k].tickets[t].status.Open? || states[k].tickets[t].status.Released?
    ensures states[k].tickets[t - 1].status.Released?
    ensures states[k].tickets[t].status.start >= states[k].tickets[t - 1].status.end + 180
  {
    RunKeeps(states, actions, direct, k);
  }

  // ----- why a scan fails, and that it never hangs -----

  /** What closing a request does to its loader: an answer is kept and cached, a refusal or the fifth
      retryable failure ends the loader, any other failure makes it wait. */
  lemma CloseSettles(s: State, t: nat, outcome: Outcome, direct: Key -> seq<Log>)
    requires Inv(s, direct) && Enabled(s, CloseRequest(t, outcome))
    ensures var l, s' := s.tickets[t].loader, Do(s, CloseRequest(t, outcome), direct);
      && l < |s.loaders| == |s'.loaders|
      && s'.tickets[t].status == Released(s.tickets[t].status.start, s.now)
      && (outcome.Answered? ==>
            s'.loaders[l].status == Loaded(direct(s.loaders[l].key)) &&
            Entry(s.loaders[l].key, s.now, direct(s.loaders[l].key)) in s'.cache)
      && (s'.loaders[l].status.Failed? <==> outcome.Refused? || (outcome.Retryable? && s.loaders[l].attempt == 4))
      && (outcome.Retryable? && s.loaders[l].attempt < 4 ==>
            s'.loaders[l].attempt == s.loaders[l].attempt + 1 &&
            s'.loaders[l].status == Backoff(s.now + 750 * (s.loaders[l].attempt + 1)))
  {
    hide WriteCached, LoadersRegistered, RequestsSpaced;
    if outcome.Answered? {
      WriteStores(s.cache, s.loaders[s.tickets[t].loader].key, s.now, direct(s.loaders[s.tickets[t].loader].key));
    }
  }

  /** The request of the loader ended this way in this step. */
  ghost predicate EndedAt(states: seq<State>, actions: seq<Action>, j: int, l: nat, outcome: Outcome) {
    && 0 <= j < |actions| < |states| && actions[j].CloseRequest? && actions[j].outcome == outcome
    && actions[j].ticket < |states[j].tickets| && states[j].tickets[actions[j].ticket].loader == l
  }

  /** Retryable failures of the loader, in order. */
  ghost predicate RetriesAt(states: seq<State>, actions: seq<Action>, steps: seq<nat>, l: nat, k: nat) {
    && (forall i | 0 <= i < |steps| :: steps[i] < k && EndedAt(states, actions, steps[i], l, Retryable))
    && (forall i, j | 0 <= i < j < |steps| :: steps[i] < steps[j])
  }

  /** What one step does to a loader. */
  lemma LoaderStep(s: State, a: Action, direct: Key -> seq<Log>, l: nat)
    requires Inv(s, direct) && Enabled(s, a) && l < |Do(s, a, direct).loaders|
    ensures var after := Do(s, a, direct).loaders[l];
      && (l >= |s.loaders| ==> after.attempt == 0 && !after.status.Failed?)
      && (l < |s.loaders| ==>
            var ends := a.CloseRequest? && a.ticket < |s.tickets| && s.tickets[a.ticket].loader == l;
            && (after.attempt != s.loaders[l].attempt ==>
                  ends && a.outcome.Retryable? && after.attempt == s.loaders[l].attempt + 1)
            && (after.status.Failed? && !s.loaders[l].status.Failed? ==>
                  ends && (a.outcome.Refused? || (a.outcome.Retryable? && s.loaders[l].attempt == 4))))
  {
    hide CacheGood, ReadCached, WriteCached, LoadersRegistered, RequestsSpaced, ChunkKey, ValuesGood;
  }

  lemma RunStep(states: seq<State>, actions: seq<Action>, direct: Key -> seq<Log>, k: nat)
    requires IsRun(states, actions, direct) && 0 < k < |states|
    ensures Inv(states[k - 1], direct) && Enabled(states[k - 1], actions[k - 1])
    ensures states[k] == Do(states[k - 1], actions[k - 1], direct) && k <= |actions| < |states|
  {
    hide Do, Enabled, Inv;
    RunKeeps(states, actions, direct, k - 1);
  }

  lemma NothingYet(states: seq<State>, actions: seq<Action>, direct: Key -> seq<Log>)
    requires IsRun(states, actions, direct)
    ensures |states| > 0 && states[0].loaders == [] && states[0].callers == []
  {
    hide Do, Enabled;
  }

  lemma {:induction false} AttemptsAreRetries(states: seq<State>, actions: seq<Action>, direct: Key -> seq<Log>, k: nat, l: nat)
    returns (steps: seq<nat>)
    requires IsRun(states, actions, direct) && k < |states| && l < |states[k].loaders|
    ensures |steps| == states[k].loaders[l].attempt && RetriesAt(states, actions, steps, l, k)
  {
    hide Inv, Do, Enabled, IsRun, Indexed;
    NothingYet(states, actions, direct);
    if k == 0 {
      return [];
    }
    RunStep(states, actions, direct, k);
    LoaderStep(states[k - 1], actions[k - 1], direct, l);
    if l >= |states[k - 1].loaders| {
      return [];
    }
    steps := AttemptsAreRetries(states, actions, direct, k - 1, l);
    if states[k].loaders[l].attempt != states[k - 1].loaders[l].attempt {
      steps := steps + [k - 1];
    }
  }

  /** A loader fails only after a refusal that is not retryable, or after five retryable failures. */
  lemma {:induction false} FailedWhy(states: seq<State>, actions: seq<Action>, direct: Key -> seq<Log>, k: nat, l: nat)
    returns (steps: seq<nat>)
    requires IsRun(states, actions, direct) && k < |states| && l < |states[k].loaders| && states[k].loaders[l].status.Failed?
    ensures (exists j | 0 <= j < k :: EndedAt(states, actions, j, l, Refused)) ||
            (|steps| == 5 && RetriesAt(states, actions, steps, l, k))
  {
    hide Inv, Do, Enabled, IsRun, Indexed;
    NothingYet(states, actions, direct);
    if k == 0 {
      return [];
    }
    RunStep(states, actions, direct, k);
    LoaderStep(states[k - 1], actions[k - 1], direct, l);
    if states[k - 1].loaders[l].status.Failed? {
      steps := FailedWhy(states, actions, direct, k - 1, l);
    } else {
      steps := AttemptsAreRetries(states, actions, direct, k - 1, l);
      steps := steps + [k - 1];
      assert EndedAt(states, actions, k - 1, l, Refused) || EndedAt(states, actions, k - 1, l, Retryable);
    }
  }

  lemma CallerStep(s: State, a: Action, direct: Key -> seq<Log>, c: nat)
    requires Inv(s, direct) && Enabled(s, a) && c < |Do(s, a, direct).callers|
    ensures Do(s, a, direct).callers[c].status.Aborted? ==>
              c < |s.callers| &&
              (s.callers[c].status.Aborted? ||
               (a == Deliver(c) && s.callers[c].status.Awaiting? && s.callers[c].status.loader < |s.loaders| &&
                s.loaders[s.callers[c].status.loader].status.Failed?))
  {
    hide CacheGood, ReadCached, WriteCached, LoadersRegistered, RequestsSpaced, ChunkKey, ValuesGood, TicketsOwned;
  }

  /** A caller gives up only when the loader of the chunk it waits for has failed. */
  lemma {:induction false} AbortedWhy(states: seq<State>, actions: seq<Action>, direct: Key -> seq<Log>, k: nat, c: nat)
    requires IsRun(states, actions, direct) && k < |states| && c < |states[k].callers| && states[k].callers[c].status.Aborted?
    ensures exists j | 0 <= j < k && c < |states[j].callers| ::
              && actions[j] == Deliver(c) && states[j].callers[c].status.Awaiting?
              && states[j].callers[c].status.loader < |states[j].loaders|
              && states[j].loaders[states[j].callers[c].status.loader].status.Failed?
  {
    hide Inv, Do, Enabled, IsRun, Indexed;
    NothingYet(states, actions, direct);
    if k > 0 {
      RunStep(states, actions, direct, k);
      CallerStep(states[k - 1], actions[k - 1], direct, c);
      if states[k - 1].callers[c].status.Aborted? {
        AbortedWhy(states, actions, direct, k - 1, c);
      }
    }
  }

  /** The first ticket not released. */
  lemma {:induction false} FirstUnreleased(tickets: seq<Ticket>, t: nat) returns (u: nat)
    requires t < |tickets| && !tickets[t].status.Released?
    ensures u <= t && !tickets[u].status.Released? && (u == 0 || tickets[u - 1].status.Released?)
  {
    if t == 0 || tickets[t - 1].status.Released? {
      return t;
    }
    u := FirstUnreleased(tickets, t - 1);
  }

  /** No scan hangs: while a caller is unfinished, some step of a caller, a loader or the queue is
      possible, at the latest after some time has passed. */
  lemma NeverStuck(states: seq<State>, actions: seq<Action>, direct: Key -> seq<Log>, k: nat, c: nat)
    requires IsRun(states, actions, direct) && k < |states| && c < |states[k].callers|
    requires states[k].callers[c].status.Asking? || states[k].callers[c].status.Awaiting?
    ensures exists ms: nat, a: Action :: !a.Begin? && !a.Tick? && Indexed(Later(states[k], ms)) && Enabled(Later(states[k], ms), a)
  {
    hide ValuesGood, LoadersRegistered, RequestsSpaced, IsRun;
    RunKeeps(states, actions, direct, k);
    Unstuck(states[k], direct, c);
  }

  lemma Unstuck(s: State, direct: Key -> seq<Log>, c: nat)
    requires Inv(s, direct) && c < |s.callers| && (s.callers[c].status.Asking? || s.callers[c].status.Awaiting?)
    ensures exists ms: nat, a: Action :: !a.Begin? && !a.Tick? && Indexed(Later(s, ms)) && Enabled(Later(s, ms), a)
  {
    hide ValuesGood, LoadersRegistered, RequestsSpaced;
    if s.callers[c].status.Asking? {
      assert Enabled(Later(s, 0), Ask(c));
    } else {
      var l := s.callers[c].status.loader;
      match s.loaders[l].status
      case Loaded(_) => assert Enabled(Later(s, 0), Deliver(c));
      case Failed => assert Enabled(Later(s, 0), Deliver(c));
      case Backoff(until) => assert Enabled(Later(s, until), RetryLoader(l));
      case Queued(t) =>
        var u := FirstUnreleased(s.tickets, t);
        match s.tickets[u].status
        case Waiting => assert Enabled(Later(s, 0), TurnComes(u));
        case Spacing(until) => assert Enabled(Later(s, until), OpenRequest(u));
        case Open(_) => assert Enabled(Later(s, 0), CloseRequest(u, Answered));
    }
  }

  /** The same state with the clock further on. */
  function Later(s: State, ms: nat): State { s.(now := s.now + ms) }

  // ----- the loop of one caller -----

  /** `getLogsChunked` as the caller itself runs: it asks for its chunks one after the other, gets
      `answers` for them (None when the loader failed), and goes through the same caller states as
      above. `asked` are the chunks it asked for: they lie side by side and, if none failed, cover
      the range. */
  method GetLogsChunked(scope: nat, startBlock: nat, latestBlock: nat, chunkSize: nat, answers: Key -> Option<seq<Log>>)
    returns (caller: Caller, asked: seq<Key>)
    requires chunkSize > 0
    ensures caller.status.Finished? || caller.status.Aborted?
    ensures SideBySide(asked, scope, startBlock)
    ensures caller.status.Finished? ==>
              caller.logs == AnswersTo(asked, answers) && (asked == [] <==> startBlock > latestBlock) &&
              (asked != [] ==> asked[|asked| - 1].to == latestBlock)
    ensures caller.status.Finished? <==> forall k | k in asked :: answers(k).Some?
    ensures forall k | k in asked :: k.to <= latestBlock && (k.to == latestBlock || k.to == k.from + chunkSize - 1)
    ensures forall k | k in asked :: k.to < k.from + chunkSize
  {
    hide AnswersTo, SideBySide;
    caller := NewCaller(scope, startBlock, latestBlock, chunkSize);
    asked := [];
    NoneAsked(scope, startBlock, answers);
    while caller.next <= latestBlock
      invariant caller.scope == scope && caller.chunkSize == chunkSize && caller.latest == latestBlock
      invariant caller.status == if caller.next <= latestBlock then Asking else Finished
      invariant SideBySide(asked, scope, startBlock) && caller.logs == AnswersTo(asked, answers)
      invariant forall k | k in asked :: answers(k).Some?
      invariant forall k | k in asked ::
                  k.to <= latestBlock && (k.to == latestBlock || k.to == k.from + chunkSize - 1) && k.to < k.from + chunkSize
      invariant asked == [] ==> caller.next == startBlock
      invariant asked != [] ==> asked[|asked| - 1].to == (if caller.next <= latestBlock then caller.next - 1 else latestBlock)
      invariant asked != [] ==> startBlock <= latestBlock
      decreases latestBlock + 1 - caller.next
    {
      var key := ChunkKey(caller);
      var chunk := answers(key);
      OneMoreAsked(asked, key, scope, startBlock, answers);
      asked := asked + [key];
      if chunk.None? {
        caller := caller.(status := Aborted);
        return;
      }
      caller := Received(caller, chunk.value);
    }
  }

  lemma NoneAsked(scope: nat, start: nat, answers: Key -> Option<seq<Log>>)
    ensures SideBySide([], scope, start) && AnswersTo([], answers) == []
  {}

  lemma OneMoreAsked(asked: seq<Key>, key: Key, scope: nat, start: nat, answers: Key -> Option<seq<Log>>)
    requires SideBySide(asked, scope, start) && key.scope == scope && key.from <= key.to
    requires key.from == if asked == [] then start else asked[|asked| - 1].to + 1
    ensures SideBySide(asked + [key], scope, start)
    ensures AnswersTo(asked + [key], answers) == AnswersTo(asked, answers) + if answers(key).Some? then answers(key).value else []
  {
    var more := asked + [key];
    assert more[..|asked|] == asked;
    hide AnswersTo;
    forall i: nat | i < |more|
      ensures Beside(more, i, scope, start)
    {
      if i < |asked| {
        assert Beside(asked, i, scope, start);
      }
    }
  }

  /** The i-th chunk starts where the one before it ended. */
  predicate Beside(asked: seq<Key>, i: nat, scope: nat, start: nat)
    requires i < |asked|
  {
    asked[i].scope == scope && asked[i].from <= asked[i].to && asked[i].from == if i == 0 then start else asked[i - 1].to + 1
  }

  predicate SideBySide(asked: seq<Key>, scope: nat, start: nat) {
    forall i: nat | i < |asked| :: Beside(asked, i, scope, start)
  }

  function AnswersTo(asked: seq<Key>, answers: Key -> Option<seq<Log>>): seq<Log> {
    if asked == [] then []
    else
      var last := answers(asked[|asked| - 1]);
      AnswersTo(asked[..|asked| - 1], answers) + if last.Some? then last.value else []
  }

  /** The module's cache, as its two functions use it. */
  class ChunkCache {
    var entries: seq<Entry>

    constructor ()
      ensures entries == []
    {
      entries := [];
    }

    method ReadCachedChunk(key: Key, now: nat, ghost direct: Key -> seq<Log>) returns (logs: Option<seq<Log>>)
      requires CacheGood(entries, direct)
      modifies this
      ensures (entries, logs) == ReadCached(old(entries), key, now)
      ensures CacheGood(entries, direct) && (logs.Some? ==> logs.value == direct(key))
    {
      ReadKeepsGood(entries, key, now, direct);
      match Find(entries, key) {
        case None => return None;
        case Some(i) =>
          if now - entries[i].ts > LOG_SCAN_CACHE_TTL_MS {
            entries := entries[..i] + entries[i + 1..];
            return None;
          }
          return Some(entries[i].logs);
      }
    }

    method WriteCachedChunk(key: Key, now: nat, logs: seq<Log>, ghost direct: Key -> seq<Log>)
      requires CacheGood(entries, direct) && logs == direct(key)
      modifies this
      ensures entries == WriteCached(old(entries), key, now, logs) && CacheGood(entries, direct)
      ensures exists i :: 0 <= i < |entries| && entries[i] == Entry(key, now, logs)
    {
      WriteKeepsGood(entries, key, now, direct);
      match Find(entries, key) {
        case None =>
          entries := entries + [Entry(key, now, logs)];
          assert entries[|entries| - 1] == Entry(key, now, logs);
        case Some(i) =>
          entries := entries[i := Entry(key, now, logs)];
          assert entries[i] == Entry(key, now, logs);
      }
      if |entries| > LOG_SCAN_CACHE_MAX_ENTRIES {
        ghost var last := |entries| - 1;
        entries := entries[1..];
        assert entries[last - 1] == Entry(key, now, logs);
      }
    }
  }
}
