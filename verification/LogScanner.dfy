/** The adaptive log scan `getLogsChunked` of the indexer and of its backfill script: a block
    range is read in chunks, a chunk the provider finds too large is halved, a rate-limited
    request is repeated after a growing pause, any other refusal ends the scan. */
module LogScanner {

  import opened Options

  /** Why the provider refused a request. A message may match both tests of the source. */
  datatype Refusal = Refusal(rateLimited: bool, tooLarge: bool)

  /** `pause`: how long the scan slept after the refusal. */
  datatype Request = Request(start: nat, end: nat, chunkSize: nat, refusal: Option<Refusal>, pause: nat)

  datatype Result<L> = Ok(logs: seq<L>) | Err(refusal: Refusal)

  const RETRY_BASE_MS := 2000
  const RETRY_MAX_MS := 30000

  /** One unbounded query: the logs of blocks `lo` to `hi`, both included, in block order. */
  function LogsIn<L>(chain: seq<seq<L>>, lo: nat, hi: int): seq<L>
    decreases hi + 1 - lo
  {
    if hi < lo then [] else LogsIn(chain, lo, hi - 1) + (if hi < |chain| then chain[hi] else [])
  }

  /** Two adjacent ranges make one. */
  lemma {:induction false} LogsInSplit<L>(chain: seq<seq<L>>, lo: nat, mid: nat, hi: int)
    requires lo <= mid <= hi + 1
    ensures LogsIn(chain, lo, mid - 1) + LogsIn(chain, mid, hi) == LogsIn(chain, lo, hi)
    decreases hi + 1 - mid
  {
    if mid <= hi {
      LogsInSplit(chain, lo, mid, hi - 1);
      var last := if hi < |chain| then chain[hi] else [];
      Associative(LogsIn(chain, lo, mid - 1), LogsIn(chain, mid, hi - 1), last);
    } else {
      assert LogsIn(chain, mid, hi) == [];
    }
  }

  lemma Associative<L>(a: seq<L>, b: seq<L>, c: seq<L>)
    ensures a + (b + c) == (a + b) + c
  {}

  // ----- what a scan may ask for -----

  function EndOf(start: nat, chunkSize: nat, hi: nat): int {
    if start + chunkSize - 1 > hi then hi else start + chunkSize - 1
  }

  predicate RateLimited(r: Request) { r.refusal.Some? && r.refusal.value.rateLimited }

  predicate TooLarge(refusal: Option<Refusal>) { refusal.Some? && !refusal.value.rateLimited && refusal.value.tooLarge }

  /** The k-th request, given the one before it. */
  predicate GoodRequest(requests: seq<Request>, k: nat, lo: nat, hi: nat, initialChunkSize: nat, refuses: nat -> Option<Refusal>)
    requires k < |requests|
  {
    var r := requests[k];
    && r.refusal == refuses(k)
    && 1 <= r.chunkSize && r.start <= r.end == EndOf(r.start, r.chunkSize, hi)
    && (if k == 0 then r.start == lo && r.chunkSize == initialChunkSize
        else
          var q := requests[k - 1];
          if q.refusal.None? then r.start == q.end + 1 && r.chunkSize == q.chunkSize
          else if q.refusal.value.rateLimited then r.start == q.start && r.chunkSize == q.chunkSize
          else q.refusal.value.tooLarge && q.chunkSize > 1 && r.start == q.start && r.chunkSize == q.chunkSize / 2)
    && r.pause == (if !RateLimited(r) then 0
                   else if k == 0 || !RateLimited(requests[k - 1]) then RETRY_BASE_MS
                   else NextPause(requests[k - 1].pause))
  }

  function NextPause(pause: nat): nat {
    if pause * 2 < RETRY_MAX_MS then pause * 2 else RETRY_MAX_MS
  }

  predicate Trace(requests: seq<Request>, lo: nat, hi: nat, initialChunkSize: nat, refuses: nat -> Option<Refusal>) {
    forall k: nat | k < |requests| :: GoodRequest(requests, k, lo, hi, initialChunkSize, refuses)
  }

  /** Chunks keep at least one block and never grow. */
  lemma {:induction false} ChunksNeverGrow(requests: seq<Request>, lo: nat, hi: nat, initialChunkSize: nat,
                                           refuses: nat -> Option<Refusal>, i: nat, j: nat)
    requires Trace(requests, lo, hi, initialChunkSize, refuses) && i <= j < |requests|
    ensures 1 <= requests[j].chunkSize <= requests[i].chunkSize <= initialChunkSize
    decreases j
  {
    assert GoodRequest(requests, j, lo, hi, initialChunkSize, refuses);
    if i < j {
      ChunksNeverGrow(requests, lo, hi, initialChunkSize, refuses, i, j - 1);
    } else if 0 < j {
      ChunksNeverGrow(requests, lo, hi, initialChunkSize, refuses, j - 1, j - 1);
    }
  }

  // ----- how much refusing a scan survives -----

  /** How often a chunk can be halved before it is a single block. */
  function Halvings(chunkSize: nat): nat {
    if chunkSize <= 1 then 0 else 1 + Halvings(chunkSize / 2)
  }

  function TooLargeCount(refuses: nat -> Option<Refusal>, n: nat): nat {
    if n == 0 then 0 else TooLargeCount(refuses, n - 1) + if TooLarge(refuses(n - 1)) then 1 else 0
  }

  /** The provider never refuses but to ask for patience, or for smaller chunks no more often than a
      chunk can be halved. */
  ghost predicate Survivable(refuses: nat -> Option<Refusal>, chunkSize: nat) {
    && (forall k: nat | refuses(k).Some? :: refuses(k).value.rateLimited || refuses(k).value.tooLarge)
    && (forall n: nat :: TooLargeCount(refuses, n) <= Halvings(chunkSize))
  }

  ghost predicate CalmAfter(refuses: nat -> Option<Refusal>, lastRateLimit: nat) {
    forall k: nat | k >= lastRateLimit :: refuses(k).Some? ==> !refuses(k).value.rateLimited
  }

  // ----- the scan -----

  /** The inner loop: ask for one chunk until the answer is not a rate limit, pausing twice as long
      each time up to a maximum. `made` requests were made before. */
  method RequestChunk(made: nat, hi: nat, start: nat, chunkSize: nat, refuses: nat -> Option<Refusal>, ghost lastRateLimit: nat)
    returns (asked: seq<Request>)
    requires CalmAfter(refuses, lastRateLimit) && 1 <= chunkSize && start <= hi
    ensures asked != []
    ensures forall k | 0 <= k < |asked| ::
              var r := asked[k];
              && r.start == start && r.chunkSize == chunkSize && r.refusal == refuses(made + k)
              && start <= r.end <= hi && r.end < start + chunkSize && (r.end == hi || r.end == start + chunkSize - 1)
              && (k < |asked| - 1 <==> r.refusal.Some? && r.refusal.value.rateLimited)
    ensures asked[|asked| - 1].pause == 0 && (|asked| > 1 ==> asked[0].pause == 2000)
    ensures forall j, k | 0 <= j < k < |asked| - 1 && k == j + 1 ::
              asked[k].pause == if asked[j].pause * 2 < 30000 then asked[j].pause * 2 else 30000
  {
    var end := if start + chunkSize - 1 > hi then hi else start + chunkSize - 1;
    var retryDelay := RETRY_BASE_MS;
    asked := [];
    while true
      invariant forall k | 0 <= k < |asked| ::
                  var r := asked[k];
                  r.start == start && r.chunkSize == chunkSize && r.refusal == refuses(made + k) && RateLimited(r) && r.end == end
      invariant asked != [] ==> asked[0].pause == RETRY_BASE_MS
      invariant forall j, k | 0 <= j < k < |asked| && k == j + 1 :: asked[k].pause == NextPause(asked[j].pause)
      invariant retryDelay == if asked == [] then RETRY_BASE_MS else NextPause(asked[|asked| - 1].pause)
      decreases if made + |asked| < lastRateLimit then lastRateLimit - (made + |asked|) else 0
    {
      var refusal := refuses(made + |asked|);
      if refusal.None? || !refusal.value.rateLimited {
        asked := asked + [Request(start, end, chunkSize, refusal, 0)];
        return;
      }
      asked := asked + [Request(start, end, chunkSize, refusal, retryDelay)];
      retryDelay := NextPause(retryDelay);
    }
  }

  lemma ChunkAsked(asked: seq<Request>, start: nat, chunkSize: nat, hi: nat)
    requires 1 <= chunkSize && start <= hi
    requires forall k | 0 <= k < |asked| ::
               var r := asked[k];
               start <= r.end <= hi && r.end < start + chunkSize && (r.end == hi || r.end == start + chunkSize - 1)
    ensures forall k | 0 <= k < |asked| :: asked[k].end == EndOf(start, chunkSize, hi)
  {}

  /** Asking for a chunk continues the trace. */
  lemma ChunkContinues(before: seq<Request>, asked: seq<Request>, lo: nat, hi: nat, initialChunkSize: nat, start: nat,
                       chunkSize: nat, refuses: nat -> Option<Refusal>)
    requires Trace(before, lo, hi, initialChunkSize, refuses) && NextAsks(before, lo, initialChunkSize, start, chunkSize)
    requires 1 <= chunkSize && start <= hi
    requires forall k | 0 <= k < |asked| :: asked[k].end == EndOf(start, chunkSize, hi)
    requires forall k | 0 <= k < |asked| ::
               var r := asked[k];
               && r.start == start && r.chunkSize == chunkSize && r.refusal == refuses(|before| + k)
               && (k < |asked| - 1 <==> RateLimited(r))
    requires asked != [] ==> asked[|asked| - 1].pause == 0 && (|asked| > 1 ==> asked[0].pause == RETRY_BASE_MS)
    requires forall j, k | 0 <= j < k < |asked| - 1 && k == j + 1 :: asked[k].pause == NextPause(asked[j].pause)
    ensures Trace(before + asked, lo, hi, initialChunkSize, refuses)
  {
    var requests, n := before + asked, |before|;
    forall k: nat | k < |requests|
      ensures GoodRequest(requests, k, lo, hi, initialChunkSize, refuses)
    {
      if k < n {
        assert GoodRequest(before, k, lo, hi, initialChunkSize, refuses);
        assert requests[k] == before[k] && (k > 0 ==> requests[k - 1] == before[k - 1]);
      } else {
        assert requests[k] == asked[k - n];
        if k > n {
          var j := k - n - 1;
          assert requests[k - 1] == asked[j] && requests[k] == asked[k - n];
        } else if k > 0 {
          assert requests[k - 1] == before[k - 1];
        }
      }
    }
  }

  /** One round of the outer loop: the trace goes on, up to an answer that is not a rate limit. */
  method AskChunk(before: seq<Request>, lo: nat, hi: nat, initialChunkSize: nat, start: nat, chunkSize: nat,
                  refuses: nat -> Option<Refusal>, ghost lastRateLimit: nat)
    returns (requests: seq<Request>)
    requires CalmAfter(refuses, lastRateLimit) && 1 <= chunkSize && start <= hi
    requires Trace(before, lo, hi, initialChunkSize, refuses) && NextAsks(before, lo, initialChunkSize, start, chunkSize)
    ensures Trace(requests, lo, hi, initialChunkSize, refuses) && |before| < |requests| && before == requests[..|before|]
    ensures var last := requests[|requests| - 1];
      && last.start == start && last.chunkSize == chunkSize && start <= last.end <= hi
      && (last.refusal.Some? ==> !last.refusal.value.rateLimited)
  {
    hide Trace, NextAsks, CalmAfter;
    var asked := RequestChunk(|before|, hi, start, chunkSize, refuses, lastRateLimit);
    ChunkAsked(asked, start, chunkSize, hi);
    ChunkContinues(before, asked, lo, hi, initialChunkSize, start, chunkSize, refuses);
    requests := before + asked;
    assert requests[|requests| - 1] == asked[|asked| - 1];
  }

  /** Where and with which chunk size the scan goes on. */
  predicate NextAsks(requests: seq<Request>, lo: nat, initialChunkSize: nat, start: nat, chunkSize: nat) {
    if requests == [] then start == lo && chunkSize == initialChunkSize
    else
      var q := requests[|requests| - 1];
      if q.refusal.None? then start == q.end + 1 && chunkSize == q.chunkSize
      else TooLarge(q.refusal) && q.chunkSize > 1 && start == q.start && chunkSize == q.chunkSize / 2
  }

  /** Each chunk halved used up one of the halvings. */
  lemma {:induction false} HalvingsUsed(requests: seq<Request>, lo: nat, hi: nat, initialChunkSize: nat,
                                        refuses: nat -> Option<Refusal>, k: nat)
    requires Trace(requests, lo, hi, initialChunkSize, refuses) && k < |requests|
    ensures TooLargeCount(refuses, k) + Halvings(requests[k].chunkSize) == Halvings(initialChunkSize)
  {
    assert GoodRequest(requests, k, lo, hi, initialChunkSize, refuses);
    if k > 0 {
      assert GoodRequest(requests, k - 1, lo, hi, initialChunkSize, refuses);
      HalvingsUsed(requests, lo, hi, initialChunkSize, refuses, k - 1);
    }
  }

  /** A granted request is followed by the next blocks, a rate-limited one by itself, and one found
      too large by the same start with half the chunk; nothing follows any other. */
  predicate ComesAfter(q: Request, r: Request) {
    if q.refusal.None? then r.start == q.end + 1 && r.chunkSize == q.chunkSize
    else if q.refusal.value.rateLimited then r.start == q.start && r.chunkSize == q.chunkSize
    else q.refusal.value.tooLarge && q.chunkSize > 1 && r.start == q.start && r.chunkSize == q.chunkSize / 2
  }

  /** `params.toBlock ?? currentBlock` */
  function Last(toBlock: Option<nat>, head: nat): nat { if toBlock.Some? then toBlock.value else head }

  /** The loop over the chunks; it ends with an answer, or with a refusal it can neither wait out nor
      make smaller. */
  method ScanChunks<L>(chain: seq<seq<L>>, lo: nat, hi: nat, initialChunkSize: nat, refuses: nat -> Option<Refusal>,
                       ghost lastRateLimit: nat)
    returns (result: Result<L>, requests: seq<Request>)
    requires 1 <= initialChunkSize && CalmAfter(refuses, lastRateLimit)
    ensures Trace(requests, lo, hi, initialChunkSize, refuses)
    ensures result.Ok? ==>
              result.logs == LogsIn(chain, lo, hi) && (requests != [] ==> requests[|requests| - 1].refusal.None?)
    ensures result.Err? ==>
              && requests != [] && requests[|requests| - 1].refusal == Some(result.refusal)
              && !result.refusal.rateLimited && (!result.refusal.tooLarge || requests[|requests| - 1].chunkSize == 1)
    ensures Survivable(refuses, initialChunkSize) ==> result.Ok?
  {
    hide LogsIn, Trace, NextAsks, Survivable, EndOf, Halvings, CalmAfter, TooLargeCount;
    LogsInEmpty(chain, lo, hi);
    NoRequests(lo, hi, initialChunkSize, refuses);
    var allLogs: seq<L> := [];
    var chunkSize := initialChunkSize;
    var start := lo;
    requests := [];
    while start <= hi
      invariant start == lo || lo <= start <= hi + 1
      invariant 1 <= chunkSize
      invariant allLogs == LogsIn(chain, lo, start - 1)
      invariant Trace(requests, lo, hi, initialChunkSize, refuses) && NextAsks(requests, lo, initialChunkSize, start, chunkSize)
      invariant start > hi && requests != [] ==> requests[|requests| - 1].refusal.None?
      decreases hi + 1 - start, chunkSize
    {
      requests := AskChunk(requests, lo, hi, initialChunkSize, start, chunkSize, refuses, lastRateLimit);
      var last := requests[|requests| - 1];
      if last.refusal.None? {
        LogsInSplit(chain, lo, start, last.end);
        allLogs := allLogs + LogsIn(chain, start, last.end);
        start := last.end + 1;
      } else if last.refusal.value.tooLarge && chunkSize > 1 {
        chunkSize := if chunkSize / 2 < 1 then 1 else chunkSize / 2;
      } else {
        EndIsFatal(requests, lo, hi, initialChunkSize, refuses);
        return Err(last.refusal.value), requests;
      }
      NextFollows(requests, lo, initialChunkSize, start, chunkSize);
    }
    return Ok(allLogs), requests;
  }

  /** Scan blocks `lo` to `hi`. `refuses(k)` is the provider's refusal of the k-th request of
      the scan, if any; a granted request is answered with exactly its range. From request
      number `lastRateLimit` on the provider no longer asks to slow down: with that, and only
      that, the scan ends. The contract says of each request where it starts, how large it is and
      what follows it; that the logs are those of one unbounded query; and that only a refusal
      that is neither a rate limit nor about the size of a divisible chunk ends the scan. */
  method GetLogsChunked<L>(chain: seq<seq<L>>, lo: nat, toBlock: Option<nat>, head: nat, initialChunkSize: nat,
                           refuses: nat -> Option<Refusal>, ghost lastRateLimit: nat)
    returns (result: Result<L>, requests: seq<Request>)
    requires 1 <= initialChunkSize && CalmAfter(refuses, lastRateLimit)
    ensures requests != [] ==> requests[0].start == lo && requests[0].chunkSize == initialChunkSize
    ensures forall k | 0 <= k < |requests| ::
              var r := requests[k];
              && r.refusal == refuses(k) && 1 <= r.chunkSize <= initialChunkSize
              && r.start <= r.end <= Last(toBlock, head) && r.end < r.start + r.chunkSize
              && (r.end == Last(toBlock, head) || r.end == r.start + r.chunkSize - 1)
    ensures forall k | 0 < k < |requests| ::
              match requests[k - 1].refusal
              case None => requests[k].start == requests[k - 1].end + 1 && requests[k].chunkSize == requests[k - 1].chunkSize
              case Some(why) =>
                && requests[k].start == requests[k - 1].start
                && (if why.rateLimited then requests[k].chunkSize == requests[k - 1].chunkSize
                    else why.tooLarge && requests[k - 1].chunkSize > 1 && requests[k].chunkSize == requests[k - 1].chunkSize / 2)
    ensures result.Ok? ==>
              result.logs == LogsIn(chain, lo, Last(toBlock, head)) &&
              (requests != [] ==> requests[|requests| - 1].refusal.None?)
    ensures result.Err? ==> requests != [] && requests[|requests| - 1].refusal == Some(result.refusal)
    ensures result.Err? ==>
              !result.refusal.rateLimited && (!result.refusal.tooLarge || requests[|requests| - 1].chunkSize == 1)
    ensures (forall k | 0 <= k < |requests| && requests[k].refusal.Some? ::
               requests[k].refusal.value.rateLimited || (requests[k].refusal.value.tooLarge && requests[k].chunkSize > 1)) ==>
            result.Ok?
    ensures Survivable(refuses, initialChunkSize) ==> result.Ok?
  {
    hide LogsIn, Trace, Survivable, CalmAfter;
    result, requests := ScanChunks(chain, lo, Last(toBlock, head), initialChunkSize, refuses, lastRateLimit);
    TraceSays(requests, lo, Last(toBlock, head), initialChunkSize, refuses);
  }

  /** A last refusal that cannot be answered by waiting or halving is more than a survivable
      provider gives. */
  lemma EndIsFatal(requests: seq<Request>, lo: nat, hi: nat, initialChunkSize: nat, refuses: nat -> Option<Refusal>)
    requires Trace(requests, lo, hi, initialChunkSize, refuses) && requests != []
    requires var last := requests[|requests| - 1];
      last.refusal.Some? && !RateLimited(last) && (last.refusal.value.tooLarge ==> last.chunkSize == 1)
    ensures !Survivable(refuses, initialChunkSize)
  {
    var k: nat := |requests| - 1;
    assert GoodRequest(requests, k, lo, hi, initialChunkSize, refuses);
    HalvingsUsed(requests, lo, hi, initialChunkSize, refuses, k);
    if requests[k].refusal.value.tooLarge {
      assert TooLargeCount(refuses, k + 1) > Halvings(initialChunkSize);
    }
  }

  lemma NoRequests(lo: nat, hi: nat, initialChunkSize: nat, refuses: nat -> Option<Refusal>)
    ensures Trace([], lo, hi, initialChunkSize, refuses) && NextAsks([], lo, initialChunkSize, lo, initialChunkSize)
  {}

  lemma NextFollows(requests: seq<Request>, lo: nat, initialChunkSize: nat, start: nat, chunkSize: nat)
    requires requests != []
    requires var q := requests[|requests| - 1];
      if q.refusal.None? then start == q.end + 1 && chunkSize == q.chunkSize
      else TooLarge(q.refusal) && q.chunkSize > 1 && start == q.start && chunkSize == q.chunkSize / 2
    ensures NextAsks(requests, lo, initialChunkSize, start, chunkSize)
  {}

  /** The trace, request by request. */
  lemma TraceSays(requests: seq<Request>, lo: nat, hi: nat, initialChunkSize: nat, refuses: nat -> Option<Refusal>)
    requires Trace(requests, lo, hi, initialChunkSize, refuses)
    ensures requests != [] ==> requests[0].start == lo && requests[0].chunkSize == initialChunkSize
    ensures forall k | 0 <= k < |requests| ::
              var r := requests[k];
              && r.refusal == refuses(k) && 1 <= r.chunkSize <= initialChunkSize
              && r.start <= r.end <= hi && r.end < r.start + r.chunkSize
              && (r.end == hi || r.end == r.start + r.chunkSize - 1)
    ensures forall k | 0 < k < |requests| ::
              match requests[k - 1].refusal
              case None => requests[k].start == requests[k - 1].end + 1 && requests[k].chunkSize == requests[k - 1].chunkSize
              case Some(why) =>
                && requests[k].start == requests[k - 1].start
                && (if why.rateLimited then requests[k].chunkSize == requests[k - 1].chunkSize
                    else why.tooLarge && requests[k - 1].chunkSize > 1 && requests[k].chunkSize == requests[k - 1].chunkSize / 2)
  {
    hide Trace, GoodRequest;
    forall k | 0 <= k < |requests|
      ensures var r := requests[k];
        && r.refusal == refuses(k) && 1 <= r.chunkSize <= initialChunkSize
        && r.start <= r.end <= hi && r.end < r.start + r.chunkSize
        && (r.end == hi || r.end == r.start + r.chunkSize - 1)
    {
      ChunksNeverGrow(requests, lo, hi, initialChunkSize, refuses, k, k);
      OneRequest(requests, k, lo, hi, initialChunkSize, refuses);
      GoodRequestSays(requests, k, lo, hi, initialChunkSize, refuses);
    }
    if requests != [] {
      OneRequest(requests, 0, lo, hi, initialChunkSize, refuses);
      GoodRequestSays(requests, 0, lo, hi, initialChunkSize, refuses);
    }
    forall k | 0 < k < |requests|
      ensures ComesAfter(requests[k - 1], requests[k])
    {
      OneRequest(requests, k, lo, hi, initialChunkSize, refuses);
      GoodRequestSays(requests, k, lo, hi, initialChunkSize, refuses);
    }
  }

  lemma GoodRequestSays(requests: seq<Request>, k: nat, lo: nat, hi: nat, initialChunkSize: nat, refuses: nat -> Option<Refusal>)
    requires k < |requests| && GoodRequest(requests, k, lo, hi, initialChunkSize, refuses)
    ensures var r := requests[k];
      && r.refusal == refuses(k) && 1 <= r.chunkSize && r.start <= r.end <= hi && r.end < r.start + r.chunkSize
      && (r.end == hi || r.end == r.start + r.chunkSize - 1)
    ensures k == 0 ==> requests[0].start == lo && requests[0].chunkSize == initialChunkSize
    ensures k > 0 ==> ComesAfter(requests[k - 1], requests[k])
  {}

  lemma OneRequest(requests: seq<Request>, k: nat, lo: nat, hi: nat, initialChunkSize: nat, refuses: nat -> Option<Refusal>)
    requires Trace(requests, lo, hi, initialChunkSize, refuses) && k < |requests|
    ensures GoodRequest(requests, k, lo, hi, initialChunkSize, refuses)
  {
    hide GoodRequest;
  }

  lemma LogsInEmpty<L>(chain: seq<seq<L>>, lo: nat, hi: nat)
    ensures hi < lo ==> LogsIn(chain, lo, hi) == []
    ensures LogsIn(chain, lo, lo - 1) == []
  {}
}
