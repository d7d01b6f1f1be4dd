/** What the surroundings decide about one run of a marketplace sync: block numbers, clock,
    answers of the provider, and when the process dies. */
module SyncRun {
  import opened Options
  import opened LogScanner
  import opened Marketplace

  const LOG_CHUNK_SIZE := 200

  /** `head`: the block number the run asks for first; `scanHead`: the block number at which a
      scan without upper bound stops; `countReadAt`, `rowReadAt`: the blocks at which the
      provider answers storage reads; `last`: the newest block any answer comes from; `now`:
      the clock reading; `refuses`, `calmFrom`: the provider's refusals of log requests;
      `steps`: how many database steps the process lives to make. */
  datatype Run = Run(head: nat, scanHead: nat, countReadAt: nat, rowReadAt: nat -> nat, last: nat, now: nat,
                     refuses: nat -> Option<Refusal>, calmFrom: nat, steps: nat)

  /** Block numbers never go backwards, neither between runs nor within one. */
  ghost predicate Ordered(run: Run, chain: seq<Block>, seen: nat) {
    && TimeNeverGoesBack(chain)
    && seen <= run.head <= run.countReadAt <= run.last < |chain|
    && run.head <= run.scanHead <= run.last
    && (forall id: nat :: run.countReadAt <= run.rowReadAt(id) <= run.last)
    && CalmAfter(run.refuses, run.calmFrom)
  }

  /** No scan of the run fails: the provider refuses at most for a while, or for being asked too much. */
  ghost predicate ScansSurvive(run: Run) {
    Survivable(run.refuses, LOG_CHUNK_SIZE)
  }

  lemma {:induction false} NoneTooLarge(refuses: nat -> Option<Refusal>, n: nat)
    requires forall k: nat | refuses(k).Some? :: refuses(k).value.rateLimited
    ensures TooLargeCount(refuses, n) == 0
  {
    if n > 0 {
      NoneTooLarge(refuses, n - 1);
    }
  }

  /** The provider refuses nothing but to ask for patience. */
  ghost predicate OnlyRateLimits(run: Run) {
    forall k: nat | run.refuses(k).Some? :: run.refuses(k).value.rateLimited
  }

  lemma PatienceSurvives(run: Run)
    requires OnlyRateLimits(run)
    ensures ScansSurvive(run)
  {
    forall n: nat
      ensures TooLargeCount(run.refuses, n) <= Halvings(LOG_CHUNK_SIZE)
    {
      NoneTooLarge(run.refuses, n);
    }
  }

  function Below(n: nat): (ids: set<nat>)
    ensures |ids| == n && forall id: nat :: id in ids <==> id < n
  {
    if n == 0 then {} else Below(n - 1) + {n - 1}
  }

  lemma SubsetIsSmaller(a: set<nat>, b: set<nat>)
    requires a <= b
    ensures |a| <= |b|
  {
    assert b == a + (b - a);
  }

  function Lookup<T>(m: map<nat, T>, id: nat): Option<T> {
    if id in m then Some(m[id]) else None
  }

  /** The ids a scan's logs are about. */
  function AboutIds(logs: seq<Log>): set<nat> {
    set l | l in logs :: l.event.id
  }

  /** The last log of each id. */
  function LatestById(logs: seq<Log>): map<nat, Log> {
    if logs == [] then map[] else LatestById(logs[..|logs| - 1])[logs[|logs| - 1].event.id := logs[|logs| - 1]]
  }

  /** The log at this place is about the id, and no later one is. */
  predicate IsLatest(logs: seq<Log>, k: nat, id: nat) {
    k < |logs| && logs[k].event.id == id && forall j | k < j < |logs| :: logs[j].event.id != id
  }

  lemma {:induction false} LatestByIdSound(logs: seq<Log>, id: nat)
    ensures id in LatestById(logs) ==> exists k: nat :: IsLatest(logs, k, id) && logs[k] == LatestById(logs)[id]
    ensures id in LatestById(logs) <==> exists l :: l in logs && l.event.id == id
    ensures id in LatestById(logs) ==> LatestById(logs)[id] in logs && LatestById(logs)[id].event.id == id
  {
    if logs != [] {
      var init, last := logs[..|logs| - 1], logs[|logs| - 1];
      LatestByIdSound(init, id);
      assert logs == init + [last];
      if last.event.id == id {
        assert IsLatest(logs, |init|, id);
      } else if id in LatestById(init) {
        var k: nat :| IsLatest(init, k, id) && init[k] == LatestById(init)[id];
        assert IsLatest(logs, k, id) && logs[k] == LatestById(logs)[id];
      }
    }
  }
}
