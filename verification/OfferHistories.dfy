/** Whole histories of the offer table: what the rows show, and how often offers are settled. */
module OfferHistories {
  import opened Options
  import opened Numerals
  import opened ExpiryText
  import opened LogScanner
  import opened Marketplace
  import opened SyncRun
  import opened OfferChain
  import opened OfferHistory
  import opened OfferMirror

  // ----- the rows show the chain's offers -----

  /** The row of an offer as a sync would have written it from `offer` at time `now`. A row may be
      missing only where there is nothing to show as active. */
  predicate Shows(row: Option<Row>, offer: Option<Offer>, now: nat) {
    match offer
    case None => row.None?
    case Some(o) =>
      if row.None? then !ActiveOffer(o, now)
      else row.value.columns == ColumnsOf(o) && (row.value.active <==> ActiveOffer(o, now))
  }

  /** The row shows the offer at some block between `lo` and `hi`, judged at a time between `early`
      and `late`. */
  ghost predicate Tracked(row: Option<Row>, chain: seq<Block>, id: nat, lo: nat, hi: nat, early: nat, late: nat)
    requires hi < |chain|
  {
    exists b: nat, t: nat | lo <= b <= hi && early <= t <= late :: Shows(row, OfferAt(chain, b, id), t)
  }

  ghost predicate Tracks(rows: map<nat, Row>, chain: seq<Block>, lo: nat, hi: nat, early: nat, late: nat)
    requires hi < |chain|
  {
    forall id: nat :: Tracked(Lookup(rows, id), chain, id, lo, hi, early, late)
  }

  /** The expiry text of every offer compares with `now` as its number does. */
  ghost predicate SweepIsRight(chain: seq<Block>, hi: nat, now: nat)
    requires hi < |chain|
  {
    forall o | o in StorageAt(chain, hi).offers :: SweepAgrees(o.expiresAt, now)
  }

  /** The contract's longest duration keeps every expiry at ten digits. */
  lemma ContractKeepsSweepRight(chain: seq<Block>, hi: nat, now: nat)
    requires hi < |chain| && 1_000_000_000 <= now < 10_000_000_000
    requires forall b | b in chain ::
               1_000_000_000 <= b.time < 10_000_000_000 - MAX_DURATION_DAYS * SECONDS_PER_DAY
    ensures SweepIsRight(chain, hi, now)
  {
    hide StorageAfter, SweepAgrees;
    EverythingExpiresWithin(chain, hi + 1, 1_000_000_000, 10_000_000_000);
    forall o | o in StorageAt(chain, hi).offers
      ensures SweepAgrees(o.expiresAt, now)
    {
      TenDigitTimesAgree(o.expiresAt, now);
    }
  }

  lemma SweepIsRightFor(chain: seq<Block>, b: nat, hi: nat, now: nat, id: nat)
    requires b <= hi < |chain| && SweepIsRight(chain, hi, now) && OfferAt(chain, b, id).Some?
    ensures SweepAgrees(OfferAt(chain, b, id).value.expiresAt, now)
  {
    hide StorageAfter, SweepAgrees;
    TermsNeverChange(chain, b, hi);
    assert StorageAt(chain, hi).offers[id] in StorageAt(chain, hi).offers;
  }

  lemma SweepKeepsWritten(o: Offer, accepted: Option<Log>, cancelled: Option<Log>, now: nat)
    requires SweepAgrees(o.expiresAt, now) && (accepted.Some? ==> accepted.value.event.OfferAccepted?)
    ensures Swept(RowOf(o, accepted, cancelled, now), now) == RowOf(o, accepted, cancelled, now)
  {
    hide LexLe, Print;
  }

  /** A row a run wrote shows the offer at a block the run read. */
  lemma FreshIsTracked(row: Row, chain: seq<Block>, run: Run, seen: nat, id: nat)
    requires Ordered(run, chain, seen) && SweepIsRight(chain, run.last, run.now) && FreshRow(row, chain, run, id)
    ensures Tracked(Some(row), chain, id, run.head, run.last, run.now, run.now)
  {
    hide LogsBetween, StorageAfter, LexLe, Print, SweepAgrees, Swept;
    var b := run.rowReadAt(id);
    var o := OfferAt(chain, b, id).value;
    var accepted, cancelled :| Genuine(accepted, cancelled, chain, run.last, id) &&
      var row' := RowOf(OfferAt(chain, run.rowReadAt(id), id).value, accepted, cancelled, run.now);
      row == row' || row == Swept(row', run.now);
    SweepIsRightFor(chain, b, run.last, run.now, id);
    SweepKeepsWritten(o, accepted, cancelled, run.now);
    if accepted.None? && cancelled.None? {
      assert Shows(Some(row), OfferAt(chain, b, id), run.now);
    } else {
      EndedIsInactive(chain, run.last, run.last, id, if accepted.Some? then accepted.value else cancelled.value);
      TermsNeverChange(chain, b, run.last);
      assert Shows(Some(row), OfferAt(chain, run.last, id), run.now);
    }
  }

  /** A sweep brings a row that was right at an earlier time up to now. */
  lemma SweptShows(rows: map<nat, Row>, offer: Option<Offer>, id: nat, earlier: nat, now: nat)
    requires Shows(Lookup(rows, id), offer, earlier) && earlier <= now
    requires offer.Some? ==> SweepAgrees(offer.value.expiresAt, now)
    ensures Shows(SweptAt(rows, id, now), offer, now)
  {
    hide LexLe, Print;
  }

  /** Cut off or not, a run loses nothing. */
  lemma FateIsTracked(before: map<nat, Row>, rows: map<nat, Row>, chain: seq<Block>, run: Run, seen: nat, clock: nat, c: nat, id: nat)
    requires Plausible(run, chain, seen, clock) && c <= seen && RowFate(before, rows, chain, run, id)
    requires Tracked(Lookup(before, id), chain, id, c, seen, 0, clock)
    ensures Tracked(Lookup(rows, id), chain, id, c, run.last, 0, run.now)
  {
    hide LogsBetween, StorageAfter, FreshRow, SweepIsRight, SweepAgrees, Swept, Shows, OfferAt;
    var b: nat, t: nat :| c <= b <= seen && 0 <= t <= clock && Shows(Lookup(before, id), OfferAt(chain, b, id), t);
    if Lookup(rows, id) == Lookup(before, id) {
      assert Shows(Lookup(rows, id), OfferAt(chain, b, id), t);
    } else if Lookup(rows, id) == SweptAt(before, id, run.now) {
      if OfferAt(chain, b, id).Some? {
        SweepIsRightFor(chain, b, run.last, run.now, id);
      }
      SweptShows(before, OfferAt(chain, b, id), id, t, run.now);
      assert Shows(Lookup(rows, id), OfferAt(chain, b, id), run.now);
    } else {
      FreshIsTracked(rows[id], chain, run, seen, id);
      var b': nat, t': nat :| run.head <= b' <= run.last && run.now <= t' <= run.now &&
                              Shows(Some(rows[id]), OfferAt(chain, b', id), t');
      assert Shows(Lookup(rows, id), OfferAt(chain, b', id), t');
    }
  }

  /** An offer without a log since the checkpoint, with its row swept, shows at the head. */
  lemma UnmentionedIsTracked(before: map<nat, Row>, chain: seq<Block>, run: Run, seen: nat, clock: nat, c: nat, id: nat)
    requires Plausible(run, chain, seen, clock) && c <= seen && !Mentioned(chain, c + 1, run.head + 1, id)
    requires Tracked(Lookup(before, id), chain, id, c, seen, 0, clock)
    ensures Tracked(SweptAt(before, id, run.now), chain, id, run.head, run.last, run.now, run.now)
  {
    hide LogsBetween, StorageAfter, SweepIsRight, SweepAgrees, Swept, Shows, OfferAt;
    var b: nat, t: nat :| c <= b <= seen && 0 <= t <= clock && Shows(Lookup(before, id), OfferAt(chain, b, id), t);
    if OfferAt(chain, b, id).Some? {
      SweepIsRightFor(chain, b, run.last, run.now, id);
    }
    SweptShows(before, OfferAt(chain, b, id), id, t, run.now);
    forall l | l in LogsBetween(chain, b + 1, run.head + 1)
      ensures !IsAboutOffer(l.event, id)
    {
      LogsInPart(chain, c + 1, b + 1, run.head + 1, l);
    }
    UnmentionedOfferStays(chain, b, run.head, id);
    assert Shows(SweptAt(before, id, run.now), OfferAt(chain, run.head, id), run.now);
  }

  /** A finished run leaves rows that show every offer as of the run's head and time: a rescan and
      an event-driven run reach the same relation. */
  lemma CompletedTracks(before: map<nat, Row>, rows: map<nat, Row>, chain: seq<Block>, run: Run, seen: nat, clock: nat,
                        since: Option<nat>)
    requires Plausible(run, chain, seen, clock) && Completed(before, rows, chain, run, since)
    requires since.Some? ==> since.value <= seen && Tracks(before, chain, since.value, seen, 0, clock)
    requires forall id | id in before :: OfferAt(chain, seen, id).Some?
    ensures Tracks(rows, chain, run.head, run.last, run.now, run.now)
  {
    hide LogsBetween, StorageAfter, FreshRow, SweepIsRight, Swept, Shows, Mentioned, Tracked;
    forall id: nat
      ensures Tracked(Lookup(rows, id), chain, id, run.head, run.last, run.now, run.now)
    {
      if id in rows && FreshRow(rows[id], chain, run, id) {
        FreshIsTracked(rows[id], chain, run, seen, id);
      } else if since.Some? {
        assert Tracked(Lookup(before, id), chain, id, since.value, seen, 0, clock);
        UnmentionedIsTracked(before, chain, run, seen, clock, since.value, id);
      } else {
        assert Lookup(rows, id) == Lookup(before, id);
        OffersGrow(chain, seen, run.countReadAt);
        AbsentIsTracked(chain, run, seen, id);
      }
    }
  }

  lemma AbsentIsTracked(chain: seq<Block>, run: Run, seen: nat, id: nat)
    requires Ordered(run, chain, seen) && OfferAt(chain, run.countReadAt, id).None?
    ensures Tracked(None, chain, id, run.head, run.last, run.now, run.now)
  {
    assert Shows(None, OfferAt(chain, run.countReadAt, id), run.now);
  }

  /** When no newer block answered the run, the active rows are exactly the offers that are active
      and unexpired at the head, and every row has the contract's columns: what a full rescan at
      that head and time leaves, whichever sync ran. */
  lemma TracksMeansRescan(rows: map<nat, Row>, chain: seq<Block>, head: nat, now: nat)
    requires head < |chain| && Tracks(rows, chain, head, head, now, now)
    ensures var offers := StorageAt(chain, head).offers;
      && (forall id: nat :: id in rows && rows[id].active <==> id < |offers| && offers[id].active && now < offers[id].expiresAt)
      && (forall id | id in rows ::
            id < |offers| &&
            var columns, offer := rows[id].columns, offers[id];
            && columns.collection == offer.nft && columns.tokenId == offer.tokenId && columns.buyer == offer.buyer
            && columns.paymentToken == offer.paymentToken && columns.quantity == offer.quantity
            && columns.price == offer.price && Parse(columns.expiresAtRaw, 10) == offer.expiresAt)
  {
    hide StorageAfter, Parse, Print;
    var offers := StorageAt(chain, head).offers;
    forall id: nat
      ensures id in rows && rows[id].active <==> id < |offers| && offers[id].active && now < offers[id].expiresAt
      ensures id in rows ==> id < |offers| && rows[id].columns == ColumnsOf(offers[id]) &&
                             Parse(rows[id].columns.expiresAtRaw, 10) == offers[id].expiresAt
    {
      assert Tracked(Lookup(rows, id), chain, id, head, head, now, now);
      if id < |offers| {
        ParsePrint(offers[id].expiresAt, 10);
      }
    }
  }

  lemma PruneTracks(before: map<nat, Row>, rows: map<nat, Row>, chain: seq<Block>, lo: nat, hi: nat, late: nat)
    requires hi < |chain| && Tracks(before, chain, lo, hi, 0, late)
    requires forall id: nat :: Lookup(rows, id) == Lookup(before, id) || (Lookup(rows, id).None? && !before[id].active)
    ensures Tracks(rows, chain, lo, hi, 0, late)
  {
    hide StorageAfter;
    forall id: nat
      ensures Tracked(Lookup(rows, id), chain, id, lo, hi, 0, late)
    {
      assert Tracked(Lookup(before, id), chain, id, lo, hi, 0, late);
      var b: nat, t: nat :| lo <= b <= hi && 0 <= t <= late && Shows(Lookup(before, id), OfferAt(chain, b, id), t);
      assert Shows(Lookup(rows, id), OfferAt(chain, b, id), t);
    }
  }

  /** Besides the order of blocks: the clock never goes backwards, and expiry texts compare as
      numbers. Offers never change silently, so the clock may lag behind the chain. */
  ghost predicate Plausible(run: Run, chain: seq<Block>, seen: nat, clock: nat) {
    Ordered(run, chain, seen) && clock <= run.now && SweepIsRight(chain, run.last, run.now)
  }

  // ----- whole histories -----

  datatype Step = Sync(run: Run, force: bool) | Retention(now: nat, days: nat)

  ghost predicate OrderedHistory(steps: seq<Step>, chain: seq<Block>, seen: nat) {
    steps == [] ||
    match steps[0]
    case Retention(_, _) => OrderedHistory(steps[1..], chain, seen)
    case Sync(run, _) => Ordered(run, chain, seen) && OrderedHistory(steps[1..], chain, run.last)
  }

  ghost predicate PlausibleHistory(steps: seq<Step>, chain: seq<Block>, seen: nat, clock: nat) {
    steps == [] ||
    match steps[0]
    case Retention(_, _) => PlausibleHistory(steps[1..], chain, seen, clock)
    case Sync(run, _) => Plausible(run, chain, seen, clock) && PlausibleHistory(steps[1..], chain, run.last, run.now)
  }

  function Flat(parts: seq<seq<Happening>>): seq<Happening> {
    if parts == [] then [] else Flat(parts[..|parts| - 1]) + parts[|parts| - 1]
  }

  /** What a step can have added to the history. */
  ghost predicate Explained(part: seq<Happening>, step: Step, chain: seq<Block>) {
    match step
    case Retention(_, _) => exists ids :: part == [Dropped(ids)]
    case Sync(run, _) => run.last < |chain| && RunAdds(part, chain, run.last, None)
  }

  /** Retention adds one drop. A sync adds row steps, at most one for each offer, each storing the hash of
      an acceptance the chain logged, and only its last can have been cut off. */
  lemma ExplainedMeans(part: seq<Happening>, step: Step, chain: seq<Block>)
    requires Explained(part, step, chain)
    ensures step.Retention? ==> |part| == 1 && part[0].Dropped?
    ensures step.Sync? ==>
              && step.run.last < |chain|
              && (forall k | 0 <= k < |part| ::
                    part[k].Stored? && (part[k].died ==> k == |part| - 1) &&
                    exists l :: l in LogsBetween(chain, 0, step.run.last + 1) && l.event.OfferAccepted? &&
                                l.event.id == part[k].id && l.tx == part[k].tx)
              && (forall j, k | 0 <= j < k < |part| :: part[j].id != part[k].id)
  {
    hide LogsBetween;
    if step.Sync? {
      forall k | 0 <= k < |part|
        ensures FromScan(part[k], chain, step.run.last, None)
      {}
    }
  }

  /** The hash of every acceptance up to the checkpoint was stored at some time. */
  ghost predicate StoredUpTo(history: seq<Happening>, chain: seq<Block>, block: nat)
    requires block < |chain|
  {
    forall id: nat, l | AcceptedBy(chain, block, id, l) :: EverStored(history, id)
  }

  lemma StoredLater(history: seq<Happening>, longer: seq<Happening>, id: nat)
    requires |history| <= |longer| && longer[..|history|] == history && EverStored(history, id)
    ensures EverStored(longer, id)
  {
    var k :| 0 <= k < |history| && Stores(history[k], id);
    assert longer[k] == history[k];
  }

  lemma StoredLaterUpTo(history: seq<Happening>, longer: seq<Happening>, chain: seq<Block>, block: nat)
    requires block < |chain| && |history| <= |longer| && longer[..|history|] == history && StoredUpTo(history, chain, block)
    ensures StoredUpTo(longer, chain, block)
  {
    hide LogsBetween, EverStored;
    forall id: nat, l | AcceptedBy(chain, block, id, l)
      ensures EverStored(longer, id)
    {
      StoredLater(history, longer, id);
    }
  }

  lemma CoveredUpToHead(before: seq<Happening>, added: seq<Happening>, chain: seq<Block>, run: Run, seen: nat, since: Option<nat>)
    requires Ordered(run, chain, seen) && (since.Some? ==> since.value < |chain|) && Covers(added, chain, run, since)
    requires since.Some? ==> since.value <= seen && StoredUpTo(before, chain, since.value)
    ensures StoredUpTo(before + added, chain, run.head)
  {
    hide LogsBetween, EverStored, StorageAfter;
    forall id: nat, l | AcceptedBy(chain, run.head, id, l)
      ensures EverStored(before + added, id)
    {
      MentionedOfferExists(chain, run.head, run.countReadAt, id, l);
      AcceptedLater(chain, run.head, run.scanHead, id, l);
      if since.Some? && AcceptedBy(chain, since.value, id, l) {
        StoredLater(before, before + added, id);
      } else {
        assert Visible(chain, run, since, id, l);
        StoredBehind(before, added, id);
      }
    }
  }

  lemma StoredBehind(before: seq<Happening>, added: seq<Happening>, id: nat)
    requires EverStored(added, id)
    ensures EverStored(before + added, id)
  {
    var k :| 0 <= k < |added| && Stores(added[k], id);
    assert (before + added)[|before| + k] == added[k];
  }

  lemma WithoutSince(part: seq<Happening>, chain: seq<Block>, last: nat, since: Option<nat>)
    requires last < |chain| && (since.Some? ==> since.value < |chain|) && RunAdds(part, chain, last, since)
    ensures RunAdds(part, chain, last, None)
  {
    hide LogsBetween, AcceptedBy;
  }

  /** No run was stopped by a refusal or an early death, and retention never ran. */
  ghost predicate NeverDisturbed(steps: seq<Step>, chain: seq<Block>) {
    forall k | 0 <= k < |steps| :: steps[k].Sync? && Undisturbed(steps[k].run, chain)
  }

  ghost predicate AllWhole(history: seq<Happening>) {
    forall k | 0 <= k < |history| :: history[k].Stored? && !history[k].died
  }

  /** What holds between the steps of a history, with these steps still to come. */
  ghost predicate Kept(mirror: OfferMirror, chain: seq<Block>, rest: seq<Step>, top: nat, clock: nat, whole: bool, plausible: bool)
    reads mirror
  {
    && mirror.Valid(chain, top) && OrderedHistory(rest, chain, top)
    && (mirror.checkpoint.Some? ==> StoredUpTo(mirror.history, chain, mirror.checkpoint.value))
    && (whole ==> NeverDisturbed(rest, chain) && AllWhole(mirror.history))
    && (plausible ==> PlausibleHistory(rest, chain, top, clock))
    && (plausible && mirror.checkpoint.Some? ==> Tracks(mirror.rows, chain, mirror.checkpoint.value, top, 0, clock))
  }

  /** After a finished sync: every acceptance up to its head had its hash stored at some time, and
      with plausible clocks the rows show every offer as of its head and time. */
  ghost predicate EndsWell(rows: map<nat, Row>, history: seq<Happening>, chain: seq<Block>, step: Step, plausible: bool) {
    match step
    case Retention(_, _) => false
    case Sync(run, _) =>
      && run.head <= run.last < |chain|
      && StoredUpTo(history, chain, run.head)
      && (plausible ==> Tracks(rows, chain, run.head, run.last, run.now, run.now))
  }

  /** Any history of full, event-driven, repeated and interrupted syncs, with retention between
      them. `parts` are the happenings of each step. Every offer is settled exactly once for each
      row step that stored its hash for the first time since the beginning or since retention
      dropped its row, and that was not cut off. So it is settled once when its row was never
      dropped and no step of it cut off, as soon as a finished sync has its acceptance behind it. */
  method AnyHistory(chain: seq<Block>, steps: seq<Step>, startBlock: nat)
    returns (rows: map<nat, Row>, settled: seq<Settlement>, parts: seq<seq<Happening>>, finished: bool)
    requires |chain| > 0 && OrderedHistory(steps, chain, 0) && StartsEarlyEnough(chain, startBlock)
    ensures |parts| == |steps| && forall k | 0 <= k < |steps| :: Explained(parts[k], steps[k], chain)
    ensures forall id: nat :: Times(settled, id) == |Openings(Flat(parts), id)|
    ensures forall id: nat | NeverDropped(Flat(parts), id) ::
              Times(settled, id) <= 1 &&
              (NeverCut(Flat(parts), id) && EverStored(Flat(parts), id) ==> Times(settled, id) == 1)
    ensures finished ==> steps != [] && EndsWell(rows, Flat(parts), chain, steps[|steps| - 1], PlausibleHistory(steps, chain, 0, 0))
    ensures steps != [] && steps[|steps| - 1].Sync? && Undisturbed(steps[|steps| - 1].run, chain) ==> finished
    ensures steps != [] && steps[|steps| - 1].Sync? && OnlyRateLimits(steps[|steps| - 1].run) ==>
              var run := steps[|steps| - 1].run;
              run.countReadAt < |chain| && run.steps >= 2 * |StorageAt(chain, run.countReadAt).offers| + 2 ==> finished
    ensures NeverDisturbed(steps, chain) && finished ==> EachSettledOnce(settled, chain, steps[|steps| - 1].run.head)
    ensures steps != [] && (forall k | 0 <= k < |steps| :: CalmSync(steps[k], chain)) ==>
              finished && forall l | l in LogsBetween(chain, 0, steps[|steps| - 1].run.head + 1) && l.event.OfferAccepted? ::
                Times(settled, l.event.id) == 1
    ensures forall s | s in settled ::
              s.id < |StorageAt(chain, |chain| - 1).offers| &&
              var offer := StorageAt(chain, |chain| - 1).offers[s.id];
              && s.nft == offer.nft && s.tokenId == offer.tokenId && s.standard == offer.standard
              && s.buyer == offer.buyer && s.quantity == offer.quantity && s.seller != s.buyer
              && exists l :: l in LogsBetween(chain, 0, |chain|) && l.event.OfferAccepted? && l.event.id == s.id &&
                             l.event.seller == s.seller && l.event.buyer == s.buyer && l.event.quantity == s.quantity
    ensures forall id | id in rows ::
              id < |StorageAt(chain, |chain| - 1).offers| &&
              var columns, offer := rows[id].columns, StorageAt(chain, |chain| - 1).offers[id];
              && columns.collection == offer.nft && columns.tokenId == offer.tokenId && columns.buyer == offer.buyer
              && columns.paymentToken == offer.paymentToken && columns.quantity == offer.quantity
              && columns.price == offer.price && Parse(columns.expiresAtRaw, 10) == offer.expiresAt
    ensures forall id | id in rows && rows[id].acceptedTx.Some? ::
              rows[id].status == Accepted && !rows[id].active &&
              exists l :: l in LogsBetween(chain, 0, |chain|) && l.event.OfferAccepted? && l.event.id == id &&
                          rows[id].acceptedTx == Some(l.tx) && rows[id].acceptedSeller == Some(l.event.seller)
    ensures finished && PlausibleHistory(steps, chain, 0, 0) ==>
              var run := steps[|steps| - 1].run;
              run.last < |chain| && forall id | id in rows && rows[id].active ::
                exists b: nat | run.head <= b <= run.last ::
                  var offers := StorageAt(chain, b).offers;
                  id < |offers| && offers[id].active && run.now < offers[id].expiresAt
    ensures finished && PlausibleHistory(steps, chain, 0, 0) ==>
              var run := steps[|steps| - 1].run;
              run.last < |chain| && forall id: nat | id !in rows || !rows[id].active ::
                exists b: nat | run.head <= b <= run.last ::
                  var offers := StorageAt(chain, b).offers;
                  id >= |offers| || !offers[id].active || offers[id].expiresAt <= run.now
  {
    hide LogsBetween, StorageAfter, Times, Accountable, StoredUpTo, Tracks, AllWhole, Openings, Explained, Kept, EachSettledOnce,
         Undisturbed,
         NeverDisturbed, PlausibleHistory, OrderedHistory, NeverDropped, NeverCut, EverStored, Flat;
    var mirror := new OfferMirror();
    ghost var top: nat, clock: nat, whole, plausible := 0, 0, NeverDisturbed(steps, chain), PlausibleHistory(steps, chain, 0, 0);
    NothingYet(mirror, chain, steps);
    finished, parts := false, [];
    assert Flat(parts) == [] by { FlatNothing(); }
    var i := 0;
    while i < |steps|
      invariant 0 <= i <= |steps| && fresh(mirror)
      invariant Kept(mirror, chain, steps[i..], top, clock, whole, plausible)
      invariant |parts| == i && Flat(parts) == mirror.history
      invariant forall k | 0 <= k < i :: Explained(parts[k], steps[k], chain)
      invariant finished ==> i > 0 && EndsWell(mirror.rows, mirror.history, chain, steps[i - 1], plausible)
      invariant i > 0 && steps[i - 1].Sync? && Undisturbed(steps[i - 1].run, chain) ==> finished
    {
      assert steps[i..][0] == steps[i] && steps[i..][1..] == steps[i + 1..];
      var before := mirror.history;
      match steps[i] {
        case Retention(now, days) =>
          RetentionStep(mirror, chain, steps[i..], now, days, top, clock, whole, plausible);
          finished := false;
        case Sync(run, force) =>
          finished := SyncStep(mirror, chain, steps[i..], run, force, startBlock, top, clock, whole, plausible);
          top, clock := run.last, run.now;
      }
      FlatSnoc(parts, mirror.history[|before|..]);
      assert mirror.history == before + mirror.history[|before|..];
      parts := parts + [mirror.history[|before|..]];
      i := i + 1;
    }
    rows, settled := mirror.rows, mirror.settled;
    KeptMeans(mirror, chain, steps[i..], top, clock, whole, plausible);
    if steps != [] && steps[|steps| - 1].Sync? && OnlyRateLimits(steps[|steps| - 1].run) {
      CalmIsUndisturbed(steps[|steps| - 1].run, chain);
    }
    if steps != [] && forall k | 0 <= k < |steps| :: CalmSync(steps[k], chain) {
      CalmIsNeverDisturbed(steps, chain);
    }
    if finished && plausible {
      ActiveRowsMean(rows, chain, steps[|steps| - 1].run.head, steps[|steps| - 1].run.last, steps[|steps| - 1].run.now);
    }
    KeptCounts(mirror, chain, steps[i..], top, clock, whole, plausible);
    if whole && finished {
      WholeIsOnce(rows, settled, mirror.history, chain, steps[|steps| - 1], plausible);
      OncePerLog(settled, chain, steps[|steps| - 1].run.head);
    }
  }

  /** A sync with enough database steps, refused nothing but for asking too fast. */
  ghost predicate CalmSync(step: Step, chain: seq<Block>) {
    step.Sync? && OnlyRateLimits(step.run) && step.run.countReadAt < |chain| &&
    step.run.steps >= 2 * |StorageAt(chain, step.run.countReadAt).offers| + 2
  }

  lemma CalmIsNeverDisturbed(steps: seq<Step>, chain: seq<Block>)
    requires forall k | 0 <= k < |steps| :: CalmSync(steps[k], chain)
    ensures NeverDisturbed(steps, chain)
  {
    hide StorageAfter, Undisturbed;
    forall k | 0 <= k < |steps|
      ensures steps[k].Sync? && Undisturbed(steps[k].run, chain)
    {
      CalmIsUndisturbed(steps[k].run, chain);
    }
  }

  lemma OncePerLog(settled: seq<Settlement>, chain: seq<Block>, head: nat)
    requires head < |chain| && EachSettledOnce(settled, chain, head)
    ensures forall l | l in LogsBetween(chain, 0, head + 1) && l.event.OfferAccepted? :: Times(settled, l.event.id) == 1
  {
    hide LogsBetween, Times;
    forall l | l in LogsBetween(chain, 0, head + 1) && l.event.OfferAccepted?
      ensures Times(settled, l.event.id) == 1
    {
      assert AcceptedBy(chain, head, l.event.id, l);
    }
  }

  /** What the settlements repeat and what the rows copy, whatever happened. */
  lemma KeptMeans(mirror: OfferMirror, chain: seq<Block>, rest: seq<Step>, top: nat, clock: nat, whole: bool, plausible: bool)
    requires Kept(mirror, chain, rest, top, clock, whole, plausible)
    ensures forall s | s in mirror.settled ::
              s.id < |StorageAt(chain, |chain| - 1).offers| &&
              var offer := StorageAt(chain, |chain| - 1).offers[s.id];
              && s.nft == offer.nft && s.tokenId == offer.tokenId && s.standard == offer.standard
              && s.buyer == offer.buyer && s.quantity == offer.quantity && s.seller != s.buyer
              && exists l :: l in LogsBetween(chain, 0, |chain|) && l.event.OfferAccepted? && l.event.id == s.id &&
                             l.event.seller == s.seller && l.event.buyer == s.buyer && l.event.quantity == s.quantity
    ensures forall id | id in mirror.rows ::
              id < |StorageAt(chain, |chain| - 1).offers| && Copied(mirror.rows[id], StorageAt(chain, |chain| - 1).offers[id])
    ensures forall id | id in mirror.rows && mirror.rows[id].acceptedTx.Some? ::
              exists l :: l in LogsBetween(chain, 0, |chain|) && l.event.OfferAccepted? && l.event.id == id &&
                          ShowsAcceptance(mirror.rows[id], l)
  {
    hide LogsBetween, StorageAfter, Times, Settlements, Holding, StoredUpTo, Tracks, AllWhole, PlausibleHistory, OrderedHistory,
         NeverDisturbed, Copied, Accountable;
    var end := |chain| - 1;
    AccountableLater(mirror.rows, mirror.settled, mirror.history, chain, top, end);
    SettledFromLater(mirror.settled, chain, top, end);
    forall s | s in mirror.settled
      ensures SettledFrom(s, chain, end) && s.seller != s.buyer
      ensures s.buyer == StorageAt(chain, end).offers[s.id].buyer && s.quantity == StorageAt(chain, end).offers[s.id].quantity
    {
      var l :| AcceptedBy(chain, end, s.id, l) && s.seller == l.event.seller && s.buyer == l.event.buyer &&
               s.quantity == l.event.quantity;
      AcceptanceNamesTheOffer(chain, end, s.id, l);
    }
    forall id | id in mirror.rows
      ensures AccountableFor(mirror.rows, mirror.settled, mirror.history, chain, end, id)
    {
      AccountableEach(mirror.rows, mirror.settled, mirror.history, chain, end, id);
    }
  }

  lemma AccountableEach(rows: map<nat, Row>, settled: seq<Settlement>, history: seq<Happening>, chain: seq<Block>, seen: nat, id: nat)
    requires seen < |chain| && Accountable(rows, settled, history, chain, seen)
    ensures AccountableFor(rows, settled, history, chain, seen, id)
  {
    hide AccountableFor;
  }

  /** Which rows of a tracked table are active. */
  lemma ActiveRowsMean(rows: map<nat, Row>, chain: seq<Block>, lo: nat, hi: nat, now: nat)
    requires hi < |chain| && Tracks(rows, chain, lo, hi, now, now)
    ensures forall id | id in rows && rows[id].active ::
              exists b: nat | lo <= b <= hi ::
                var offers := StorageAt(chain, b).offers;
                id < |offers| && offers[id].active && now < offers[id].expiresAt
    ensures forall id: nat | id !in rows || !rows[id].active ::
              exists b: nat | lo <= b <= hi ::
                var offers := StorageAt(chain, b).offers;
                id >= |offers| || !offers[id].active || offers[id].expiresAt <= now
  {
    hide StorageAfter;
    forall id: nat
      ensures id in rows && rows[id].active ==>
                exists b: nat | lo <= b <= hi ::
                  var offers := StorageAt(chain, b).offers;
                  id < |offers| && offers[id].active && now < offers[id].expiresAt
      ensures id !in rows || !rows[id].active ==>
                exists b: nat | lo <= b <= hi ::
                  var offers := StorageAt(chain, b).offers;
                  id >= |offers| || !offers[id].active || offers[id].expiresAt <= now
    {
      assert Tracked(Lookup(rows, id), chain, id, lo, hi, now, now);
      var b: nat, t: nat :| lo <= b <= hi && now <= t <= now && Shows(Lookup(rows, id), OfferAt(chain, b, id), t);
      var offers := StorageAt(chain, b).offers;
      assert id in rows && rows[id].active <==> id < |offers| && offers[id].active && now < offers[id].expiresAt;
    }
  }

  lemma CalmIsUndisturbed(run: Run, chain: seq<Block>)
    requires OnlyRateLimits(run)
    ensures run.countReadAt < |chain| && run.steps >= 2 * |StorageAt(chain, run.countReadAt).offers| + 2 ==> Undisturbed(run, chain)
  {
    hide StorageAfter;
    PatienceSurvives(run);
  }

  lemma FlatNothing()
    ensures Flat([]) == []
  {}

  lemma FlatSnoc(parts: seq<seq<Happening>>, part: seq<Happening>)
    ensures Flat(parts + [part]) == Flat(parts) + part
  {
    assert (parts + [part])[..|parts|] == parts;
  }

  lemma NothingYet(mirror: OfferMirror, chain: seq<Block>, steps: seq<Step>)
    requires |chain| > 0 && OrderedHistory(steps, chain, 0)
    requires mirror.rows == map[] && mirror.checkpoint == None && mirror.settled == [] && mirror.history == []
    ensures Kept(mirror, chain, steps, 0, 0, NeverDisturbed(steps, chain), PlausibleHistory(steps, chain, 0, 0))
  {
    hide LogsBetween, StorageAfter;
    forall id: nat
      ensures AccountableFor(map[], [], [], chain, 0, id)
    {}
  }

  lemma KeptCounts(mirror: OfferMirror, chain: seq<Block>, rest: seq<Step>, top: nat, clock: nat, whole: bool, plausible: bool)
    requires Kept(mirror, chain, rest, top, clock, whole, plausible)
    ensures forall id: nat :: Times(mirror.settled, id) == |Openings(mirror.history, id)|
    ensures forall id: nat | NeverDropped(mirror.history, id) ::
              Times(mirror.settled, id) <= 1 &&
              (NeverCut(mirror.history, id) && EverStored(mirror.history, id) ==> Times(mirror.settled, id) == 1)
    ensures whole ==> AllWhole(mirror.history)
  {
    hide LogsBetween, StorageAfter, Times, Openings, Settlements, Holding, NeverDropped, NeverCut, EverStored, StoredUpTo, Tracks,
         AllWhole, PlausibleHistory, OrderedHistory, NeverDisturbed;
    forall id: nat
      ensures Times(mirror.settled, id) == |Openings(mirror.history, id)|
      ensures NeverDropped(mirror.history, id) ==>
                Times(mirror.settled, id) <= 1 &&
                (NeverCut(mirror.history, id) && EverStored(mirror.history, id) ==> Times(mirror.settled, id) == 1)
    {
      assert AccountableFor(mirror.rows, mirror.settled, mirror.history, chain, top, id);
      SettledPerOpening(mirror.history, id);
      if NeverDropped(mirror.history, id) {
        NeverDroppedIsOnce(mirror.history, id);
      }
    }
  }

  ghost predicate EachSettledOnce(settled: seq<Settlement>, chain: seq<Block>, head: nat)
    requires head < |chain|
  {
    forall id: nat, l | AcceptedBy(chain, head, id, l) :: Times(settled, id) == 1
  }

  /** Whole steps only, and no row dropped: settled exactly once. */
  lemma WholeIsOnce(rows: map<nat, Row>, settled: seq<Settlement>, history: seq<Happening>, chain: seq<Block>, step: Step,
                    plausible: bool)
    requires EndsWell(rows, history, chain, step, plausible) && AllWhole(history)
    requires forall id: nat :: Times(settled, id) == |Openings(history, id)|
    ensures EachSettledOnce(settled, chain, step.run.head)
  {
    hide LogsBetween, Openings, Times, Settlements, Holding, Tracks, StorageAfter;
    forall id: nat, l | AcceptedBy(chain, step.run.head, id, l)
      ensures Times(settled, id) == 1
    {
      SettledPerOpening(history, id);
      NeverDroppedIsOnce(history, id);
    }
  }

  method RetentionStep(mirror: OfferMirror, ghost chain: seq<Block>, ghost rest: seq<Step>, now: nat, days: nat,
                       ghost top: nat, ghost clock: nat, ghost whole: bool, ghost plausible: bool)
    requires rest != [] && rest[0] == Retention(now, days) && Kept(mirror, chain, rest, top, clock, whole, plausible)
    modifies mirror
    ensures Kept(mirror, chain, rest[1..], top, clock, whole, plausible)
    ensures |old(mirror.history)| <= |mirror.history| && mirror.history[..|old(mirror.history)|] == old(mirror.history)
    ensures Explained(mirror.history[|old(mirror.history)|..], rest[0], chain)
  {
    hide LogsBetween, StorageAfter, Accountable, StoredUpTo, Tracks, AllWhole, Undisturbed;
    ghost var before, history := mirror.rows, mirror.history;
    mirror.Prune(now, days, chain, top);
    assert mirror.history[|history|..] == [Dropped(before.Keys - mirror.rows.Keys)];
    if mirror.checkpoint.Some? {
      StoredLaterUpTo(history, mirror.history, chain, mirror.checkpoint.value);
      if plausible {
        PruneTracks(before, mirror.rows, chain, mirror.checkpoint.value, top, clock);
      }
    }
  }

  method SyncStep(mirror: OfferMirror, chain: seq<Block>, ghost rest: seq<Step>, run: Run, force: bool, startBlock: nat,
                  ghost top: nat, ghost clock: nat, ghost whole: bool, ghost plausible: bool)
    returns (finished: bool)
    requires rest != [] && rest[0] == Sync(run, force) && Kept(mirror, chain, rest, top, clock, whole, plausible)
    requires StartsEarlyEnough(chain, startBlock)
    modifies mirror
    ensures Kept(mirror, chain, rest[1..], run.last, run.now, whole, plausible)
    ensures |old(mirror.history)| <= |mirror.history| && mirror.history[..|old(mirror.history)|] == old(mirror.history)
    ensures Explained(mirror.history[|old(mirror.history)|..], rest[0], chain)
    ensures finished ==> EndsWell(mirror.rows, mirror.history, chain, rest[0], plausible)
    ensures Undisturbed(run, chain) ==> finished
  {
    hide LogsBetween, StorageAfter, Accountable, StoredUpTo, Tracks, AllWhole, Undisturbed, Completed, Covers, CutOff, SweepIsRight;
    ghost var before, settled, history, checkpoint := mirror.rows, mirror.settled, mirror.history, mirror.checkpoint;
    ghost var since;
    finished, since := mirror.SyncOffers(chain, run, force, startBlock, top);
    HistoryKept(history, mirror.history, before, mirror.rows, chain, run, top, checkpoint, since, finished);
    assert whole ==> NeverDisturbed(rest[1..], chain) && finished;
    if plausible {
      RowsKept(before, settled, history, mirror.rows, mirror.history, chain, run, top, clock, checkpoint, since, finished);
    }
  }

  lemma HistoryKept(before: seq<Happening>, history: seq<Happening>, rowsBefore: map<nat, Row>, rows: map<nat, Row>,
                    chain: seq<Block>, run: Run, top: nat, checkpoint: Option<nat>, since: Option<nat>, finished: bool)
    requires Ordered(run, chain, top) && (checkpoint.Some? ==> checkpoint.value <= top && StoredUpTo(before, chain, checkpoint.value))
    requires since == None || since == checkpoint
    requires CutOff(rowsBefore, before, rows, history, chain, run, since)
    requires finished ==> Covers(history[|before|..], chain, run, since)
    ensures |before| <= |history| && history[..|before|] == before && RunAdds(history[|before|..], chain, run.last, None)
    ensures finished ==> StoredUpTo(history, chain, run.head)
    ensures checkpoint.Some? ==> StoredUpTo(history, chain, checkpoint.value)
    ensures finished && AllWhole(before) ==> AllWhole(history)
  {
    hide LogsBetween, StorageAfter, StoredUpTo, RowFate, RunAdds;
    var added := history[|before|..];
    assert history == before + added;
    WithoutSince(added, chain, run.last, since);
    if finished {
      CoveredUpToHead(before, added, chain, run, top, since);
    }
    if checkpoint.Some? {
      StoredLaterUpTo(before, history, chain, checkpoint.value);
    }
  }

  lemma RowsKept(before: map<nat, Row>, settled: seq<Settlement>, history: seq<Happening>, rows: map<nat, Row>,
                 historyNow: seq<Happening>, chain: seq<Block>, run: Run, top: nat, clock: nat, checkpoint: Option<nat>,
                 since: Option<nat>, finished: bool)
    requires Plausible(run, chain, top, clock) && Accountable(before, settled, history, chain, top)
    requires checkpoint.Some? ==> checkpoint.value <= top && Tracks(before, chain, checkpoint.value, top, 0, clock)
    requires since == None || since == checkpoint
    requires CutOff(before, history, rows, historyNow, chain, run, since)
    requires finished ==> Completed(before, rows, chain, run, since)
    ensures finished ==> Tracks(rows, chain, run.head, run.last, run.now, run.now) && Tracks(rows, chain, run.head, run.last, 0, run.now)
    ensures checkpoint.Some? ==> Tracks(rows, chain, checkpoint.value, run.last, 0, run.now)
  {
    hide LogsBetween, StorageAfter, RowFate, RunAdds, SweepIsRight, Tracked, Times, Settlements, Holding, Completed;
    if finished {
      forall id | id in before
        ensures OfferAt(chain, top, id).Some?
      {
        assert AccountableFor(before, settled, history, chain, top, id);
      }
      CompletedTracks(before, rows, chain, run, top, clock, since);
      JudgedUpToNow(rows, chain, run.head, run.last, run.now);
    }
    if checkpoint.Some? {
      forall id: nat
        ensures Tracked(Lookup(rows, id), chain, id, checkpoint.value, run.last, 0, run.now)
      {
        FateIsTracked(before, rows, chain, run, top, clock, checkpoint.value, id);
      }
    }
  }

  lemma JudgedUpToNow(rows: map<nat, Row>, chain: seq<Block>, lo: nat, hi: nat, now: nat)
    requires hi < |chain| && Tracks(rows, chain, lo, hi, now, now)
    ensures Tracks(rows, chain, lo, hi, 0, now)
  {
    hide Shows, StorageAfter;
    forall id: nat
      ensures Tracked(Lookup(rows, id), chain, id, lo, hi, 0, now)
    {
      assert Tracked(Lookup(rows, id), chain, id, lo, hi, now, now);
      var b: nat, t: nat :| lo <= b <= hi && now <= t <= now && Shows(Lookup(rows, id), OfferAt(chain, b, id), t);
      assert Shows(Lookup(rows, id), OfferAt(chain, b, id), t);
    }
  }

  // ----- retention settles again -----

  const RETENTION_DAYS := 14
  const FIRST_TIME := 1_700_000_000
  const SECOND_TIME := FIRST_TIME + 15 * SECONDS_PER_DAY
  const EXAMPLE_TRANSACTIONS := [Transaction(7, 1, CreateOffer(3, 4, 5, Erc1155, 0, 100, 1), true),
                                 Transaction(8, 2, AcceptOffer(0), true)]
  const EXAMPLE_CHAIN := [Block(FIRST_TIME, EXAMPLE_TRANSACTIONS), Block(SECOND_TIME, [])]
  const EXAMPLE_ACCEPTANCE := Log(8, OfferAccepted(0, 2, 1, 5))
  const FIRST_RUN := Run(0, 0, 0, _ => 0, 0, FIRST_TIME, _ => None, 0, 100)
  const SECOND_RUN := Run(1, 1, 1, _ => 1, 1, SECOND_TIME, _ => None, 0, 100)

  lemma ExampleChain()
    ensures |StorageAt(EXAMPLE_CHAIN, 0).offers| == 1 && |StorageAt(EXAMPLE_CHAIN, 1).offers| == 1
    ensures AcceptedBy(EXAMPLE_CHAIN, 0, 0, EXAMPLE_ACCEPTANCE) && AcceptedBy(EXAMPLE_CHAIN, 1, 0, EXAMPLE_ACCEPTANCE)
    ensures StartsEarlyEnough(EXAMPLE_CHAIN, 0)
    ensures Ordered(FIRST_RUN, EXAMPLE_CHAIN, 0) && Ordered(SECOND_RUN, EXAMPLE_CHAIN, 0)
    ensures ScansSurvive(FIRST_RUN) && ScansSurvive(SECOND_RUN)
  {
    PatienceSurvives(FIRST_RUN);
    PatienceSurvives(SECOND_RUN);
    var t := EXAMPLE_TRANSACTIONS;
    assert t[..2] == t && t[..1] == [t[0]] && [t[0]][..0] == [];
    var created := ExecuteAll(GENESIS, FIRST_TIME, [t[0]]);
    assert created == Execute(GENESIS, FIRST_TIME, t[0]) by {
      assert ExecuteAll(GENESIS, FIRST_TIME, []) == Outcome(GENESIS, []);
    }
    var accepted := Execute(created.storage, FIRST_TIME, t[1]);
    assert accepted.logs == [EXAMPLE_ACCEPTANCE];
    assert LogsAt(EXAMPLE_CHAIN, 0) == created.logs + accepted.logs;
    LogsBetweenStep(EXAMPLE_CHAIN, 0, 1);
    assert StorageAfter(EXAMPLE_CHAIN, 1) == accepted.storage;
    assert StorageAfter(EXAMPLE_CHAIN, 2) == accepted.storage;
    AcceptedLater(EXAMPLE_CHAIN, 0, 1, 0, EXAMPLE_ACCEPTANCE);
  }

  lemma FreshIsUpdated(row: Row, chain: seq<Block>, run: Run, id: nat)
    requires run.last < |chain| && FreshRow(row, chain, run, id)
    ensures row.updatedAt == run.now
  {
    hide StorageAfter, LogsBetween, LexLe, Print;
  }

  /** An offer is created and accepted, a sync settles it; fifteen days later retention of fourteen
      days drops its row, and a forced sync settles it a second time. */
  method RetentionSettlesAgain() returns (settled: seq<Settlement>)
    ensures Times(settled, 0) == 2
  {
    hide LogsBetween, StorageAfter, Accountable, Covers, Completed, CutOff, FreshRow, Ordered, IsOutdated, ScansSurvive;
    ExampleChain();
    var chain, l := EXAMPLE_CHAIN, EXAMPLE_ACCEPTANCE;
    var mirror := new OfferMirror();
    NothingAccountable(chain);
    ghost var rows0, settled0, history0 := mirror.rows, mirror.settled, mirror.history;
    var done, since := mirror.SyncOffers(chain, FIRST_RUN, false, 0, 0);
    SettledByRun(rows0, settled0, history0, mirror.rows, mirror.settled, mirror.history, chain, FIRST_RUN, since, l);
    assert Times(mirror.settled, 0) == 1;
    mirror.Prune(SECOND_TIME, RETENTION_DAYS, chain, 0);
    assert Drops(mirror.history[|mirror.history| - 1], 0) && StoredTx(mirror.rows, 0).None?;
    ghost var rows1, settled1, history1 := mirror.rows, mirror.settled, mirror.history;
    done, since := mirror.SyncOffers(chain, SECOND_RUN, true, 0, 0);
    SettledByRun(rows1, settled1, history1, mirror.rows, mirror.settled, mirror.history, chain, SECOND_RUN, since, l);
    settled := mirror.settled;
  }

  lemma NothingAccountable(chain: seq<Block>)
    requires |chain| > 0
    ensures Accountable(map[], [], [], chain, 0)
  {
    hide LogsBetween, StorageAfter;
    forall id: nat
      ensures AccountableFor(map[], [], [], chain, 0, id)
    {}
  }

  lemma SettledByRun(before: map<nat, Row>, settledBefore: seq<Settlement>, historyBefore: seq<Happening>, rows: map<nat, Row>,
                     settled: seq<Settlement>, history: seq<Happening>, chain: seq<Block>, run: Run, since: Option<nat>, l: Log)
    requires Ordered(run, chain, 0) && since.None? && 0 < |StorageAt(chain, run.countReadAt).offers|
    requires AcceptedBy(chain, run.scanHead, 0, l)
    requires Accountable(before, settledBefore, historyBefore, chain, 0) && Accountable(rows, settled, history, chain, run.last)
    requires CutOff(before, historyBefore, rows, history, chain, run, since)
    requires Covers(history[|historyBefore|..], chain, run, since) && Completed(before, rows, chain, run, since)
    ensures StoredTx(rows, 0) == Some(l.tx) && rows[0].updatedAt == run.now
    ensures Times(settled, 0) == Times(settledBefore, 0) + if StoredTx(before, 0) == Some(l.tx) then 0 else 1
  {
    hide LogsBetween, StorageAfter, Accountable, Covers, Times, RunAdds, RowFate, FreshRow;
    assert history == historyBefore + history[|historyBefore|..];
    VisibleIsSettled(before, settledBefore, historyBefore, rows, settled, history[|historyBefore|..], chain, run, 0, since, 0, l);
    assert 0 in Below(|StorageAt(chain, run.countReadAt).offers|);
    FreshIsUpdated(rows[0], chain, run, 0);
  }
}
