/** The v2 listing table of the indexer: full rescan, event-driven sync with a block
    checkpoint, expiry sweep and retention prune, any of them cut off between two database
    steps. The main result is that the event-driven sync shows what a full rescan would. */
module ListingMirror {
  import opened Options
  import opened Numerals
  import opened ExpiryText
  import opened Marketplace
  import opened LogScanner
  import opened SyncRun

  /** The columns copied from the contract; amounts and ids are kept as numbers, the expiry as
      the text the sweep compares. */
  datatype Columns = Columns(collection: Address, tokenId: nat, seller: Address, amount: nat, standard: Standard,
                             paymentToken: Address, price: nat, expiresAtRaw: string)

  /** The columns that only events fill in; a full rescan nulls them. */
  datatype Settlement = Settlement(buyer: Option<Address>, soldAt: Option<nat>, cancelledAt: Option<nat>, tx: Option<nat>)

  datatype Row = Row(columns: Columns, active: bool, settlement: Settlement)

  const UNSETTLED := Settlement(None, None, None, None)

  function ColumnsOf(l: Listing): Columns {
    Columns(l.nft, l.tokenId, l.seller, l.amount, l.standard, l.paymentToken, l.price, Print(l.expiresAt, 10))
  }

  predicate ActiveAt(l: Listing, now: nat) {
    l.active && l.expiresAt > now
  }

  function ListingAt(chain: seq<Block>, block: nat, id: nat): Option<Listing>
    requires block < |chain|
  {
    var listings := StorageAt(chain, block).listings;
    if id < |listings| then Some(listings[id]) else None
  }

  // ----- expiry is compared as text -----

  function Swept(row: Row, now: nat): Row {
    if row.active && LexLe(row.columns.expiresAtRaw, Print(now, 10)) then row.(active := false) else row
  }

  // ----- what a row may show -----

  /** The row of a listing as a sync would have written it from `listing` at time `now`. A row
      may be missing only where there is nothing to show as active. */
  predicate Shows(row: Option<Row>, listing: Option<Listing>, now: nat) {
    match listing
    case None => row.Some? ==> !row.value.active
    case Some(l) =>
      if row.None? then !ActiveAt(l, now)
      else row.value.columns == ColumnsOf(l) && (row.value.active <==> ActiveAt(l, now))
  }

  function RowAt(rows: map<nat, Row>, id: nat): Option<Row> {
    if id in rows then Some(rows[id]) else None
  }

  /** The row shows the listing at some block between `lo` and `hi`, judged at a time between
      `early` and `late`. */
  ghost predicate Tracked(row: Option<Row>, chain: seq<Block>, id: nat, lo: nat, hi: nat, early: nat, late: nat)
    requires hi < |chain|
  {
    exists b: nat, t: nat | lo <= b <= hi && early <= t <= late :: Shows(row, ListingAt(chain, b, id), t)
  }

  ghost predicate Tracks(rows: map<nat, Row>, chain: seq<Block>, lo: nat, hi: nat, early: nat, late: nat)
    requires hi < |chain|
  {
    forall id: nat :: Tracked(RowAt(rows, id), chain, id, lo, hi, early, late)
  }

  lemma TracksWeaken(rows: map<nat, Row>, chain: seq<Block>, lo: nat, hi: nat, early: nat, late: nat,
                     lo': nat, hi': nat, early': nat, late': nat)
    requires hi <= hi' < |chain| && lo' <= lo && early' <= early && late <= late'
    requires Tracks(rows, chain, lo, hi, early, late)
    ensures Tracks(rows, chain, lo', hi', early', late')
  {
    forall id: nat
      ensures Tracked(RowAt(rows, id), chain, id, lo', hi', early', late')
    {
      assert Tracked(RowAt(rows, id), chain, id, lo, hi, early, late);
      var b: nat, t: nat :| lo <= b <= hi && early <= t <= late && Shows(RowAt(rows, id), ListingAt(chain, b, id), t);
      assert Shows(RowAt(rows, id), ListingAt(chain, b, id), t);
    }
  }

  /** The expiry text of every listing compares with `now` as its number does. */
  ghost predicate SweepIsRight(chain: seq<Block>, hi: nat, now: nat)
    requires hi < |chain|
  {
    forall id | 0 <= id < |StorageAt(chain, hi).listings| :: SweepAgrees(StorageAt(chain, hi).listings[id].expiresAt, now)
  }

  lemma SweepIsRightFor(chain: seq<Block>, b: nat, hi: nat, now: nat, id: nat)
    requires TimeNeverGoesBack(chain) && b <= hi < |chain| && SweepIsRight(chain, hi, now)
    requires id < |StorageAt(chain, b).listings|
    ensures SweepAgrees(StorageAt(chain, b).listings[id].expiresAt, now)
  {
    hide StorageAfter;
    ChangesAreLogged(chain, b, hi);
  }

  /** The contract's longest duration keeps every expiry at ten digits, so the sweep is right as
      long as all block times and the clock lie between September 2001 and November 2285, and the
      clock before November 2286. */
  lemma ContractKeepsSweepRight(chain: seq<Block>, hi: nat, now: nat)
    requires hi < |chain| && 1_000_000_000 <= now < 10_000_000_000
    requires forall b | b in chain ::
               1_000_000_000 <= b.time < 10_000_000_000 - MAX_DURATION_DAYS * SECONDS_PER_DAY
    ensures SweepIsRight(chain, hi, now)
  {
    hide StorageAfter, SweepAgrees;
    EverythingExpiresWithin(chain, hi + 1, 1_000_000_000, 10_000_000_000);
    forall id | 0 <= id < |StorageAt(chain, hi).listings|
      ensures SweepAgrees(StorageAt(chain, hi).listings[id].expiresAt, now)
    {
      assert StorageAt(chain, hi).listings[id] in StorageAt(chain, hi).listings;
      TenDigitTimesAgree(StorageAt(chain, hi).listings[id].expiresAt, now);
    }
  }

  const LATE_CHAIN := [Block(LAST_TEN_DIGIT_TIME, [Transaction(7, 1, CreateListing(3, 4, 5, Erc1155, 0, 100, 1), true)])]

  /** Later it can be wrong: in the last second with a ten-digit time the contract accepts a
      listing for a day, and the sweep of that same second takes it for expired. */
  lemma SweepCanExpireEarly()
    ensures var listing := ListingAt(LATE_CHAIN, 0, 0);
      && listing.Some? && ActiveAt(listing.value, LAST_TEN_DIGIT_TIME)
      && !Swept(Row(ColumnsOf(listing.value), true, UNSETTLED), LAST_TEN_DIGIT_TIME).active
  {
    var txs := LATE_CHAIN[0].transactions;
    OneTransaction(GENESIS, LAST_TEN_DIGIT_TIME, txs);
    assert StorageAfter(LATE_CHAIN, 1) == Execute(GENESIS, LAST_TEN_DIGIT_TIME, txs[0]).storage;
    assert ListingAt(LATE_CHAIN, 0, 0).value.expiresAt == 10_000_086_399;
    LateTimesByText();
  }

  /** A row right at an old block is right at a newer one when no log between them is about it,
      provided the clock has reached the newer block's time. */
  lemma UnmentionedStaysShown(row: Option<Row>, chain: seq<Block>, id: nat, since: nat, head: nat, now: nat)
    requires TimeNeverGoesBack(chain) && since <= head < |chain| && chain[head].time <= now
    requires Shows(row, ListingAt(chain, since, id), now)
    requires !MentionsListing(LogsBetween(chain, since + 1, head + 1), id)
    ensures Shows(row, ListingAt(chain, head, id), now)
  {
    hide StorageAfter, LogsBetween;
    ChangesAreLogged(chain, since, head);
  }

  const RELIST := CreateListing(3, 4, 5, Erc1155, 0, 100, 1)
  const RELISTED_CHAIN := [Block(0, [Transaction(7, 1, RELIST, true)]), Block(100_000, [Transaction(8, 1, RELIST, true)])]

  /** The clock condition is needed: relisting an expired token deactivates the old listing
      without a log about it, which a clock still before its expiry does not account for. */
  lemma LaggingClockMisses()
    ensures TimeNeverGoesBack(RELISTED_CHAIN)
    ensures !MentionsListing(LogsBetween(RELISTED_CHAIN, 1, 2), 0)
    ensures var before, after := ListingAt(RELISTED_CHAIN, 0, 0), ListingAt(RELISTED_CHAIN, 1, 0);
      before.Some? && after.Some? && ActiveAt(before.value, 10) && !ActiveAt(after.value, 10)
  {
    var chain := RELISTED_CHAIN;
    var first := Execute(GENESIS, 0, chain[0].transactions[0]);
    OneTransaction(GENESIS, 0, chain[0].transactions);
    assert StorageAfter(chain, 1) == first.storage;
    var second := Execute(first.storage, 100_000, chain[1].transactions[0]);
    OneTransaction(first.storage, 100_000, chain[1].transactions);
    assert StorageAfter(chain, 2) == second.storage && LogsAt(chain, 1) == second.logs;
    LogsBetweenStep(chain, 1, 2);
    NothingBetween(chain, 1, 1);
    assert LogsBetween(chain, 1, 1) == [];
  }

  lemma OneTransaction(s: Storage, now: nat, txs: seq<Transaction>)
    requires WellFormed(s) && |txs| == 1
    ensures ExecuteAll(s, now, txs) == Execute(s, now, txs[0])
  {
    hide Execute;
    assert txs[..0] == [];
    assert ExecuteAll(s, now, txs[..0]) == Outcome(s, []);
  }

  lemma {:induction false} MentionedInPart(chain: seq<Block>, lo: nat, lo': nat, hi: nat, id: nat)
    requires lo <= lo' && hi <= |chain|
    ensures MentionsListing(LogsBetween(chain, lo', hi), id) ==> MentionsListing(LogsBetween(chain, lo, hi), id)
    decreases hi
  {
    hide LogsAt, StorageAfter;
    if lo' < hi {
      hide LogsBetween, MentionsListing;
      LogsBetweenStep(chain, lo, hi);
      LogsBetweenStep(chain, lo', hi);
      MentionsConcat(LogsBetween(chain, lo, hi - 1), LogsAt(chain, hi - 1), id);
      MentionsConcat(LogsBetween(chain, lo', hi - 1), LogsAt(chain, hi - 1), id);
      MentionedInPart(chain, lo, lo', hi - 1, id);
    }
  }

  // ----- preservation, one database step at a time -----

  lemma WriteTracks(rows: map<nat, Row>, chain: seq<Block>, id: nat, row: Row, b: nat, t: nat,
                    lo: nat, hi: nat, early: nat, late: nat)
    requires hi < |chain| && Tracks(rows, chain, lo, hi, early, late)
    requires lo <= b <= hi && early <= t <= late && Shows(Some(row), ListingAt(chain, b, id), t)
    ensures Tracks(rows[id := row], chain, lo, hi, early, late)
  {
    var rows' := rows[id := row];
    forall i: nat
      ensures Tracked(RowAt(rows', i), chain, i, lo, hi, early, late)
    {
      if i != id {
        assert RowAt(rows', i) == RowAt(rows, i);
        assert Tracked(RowAt(rows, i), chain, i, lo, hi, early, late);
      }
    }
  }

  function SweptRows(rows: map<nat, Row>, now: nat): map<nat, Row> {
    map id | id in rows :: Swept(rows[id], now)
  }

  lemma SweepTracked(rows: map<nat, Row>, chain: seq<Block>, id: nat, lo: nat, hi: nat, early: nat, now: nat)
    requires TimeNeverGoesBack(chain) && hi < |chain| && SweepIsRight(chain, hi, now)
    requires Tracked(RowAt(rows, id), chain, id, lo, hi, early, now)
    ensures Tracked(RowAt(SweptRows(rows, now), id), chain, id, lo, hi, now, now)
  {
    hide StorageAfter, LexLe;
    var b: nat, t: nat :| lo <= b <= hi && early <= t <= now && Shows(RowAt(rows, id), ListingAt(chain, b, id), t);
    if ListingAt(chain, b, id).Some? {
      SweepIsRightFor(chain, b, hi, now, id);
    }
    assert Shows(RowAt(SweptRows(rows, now), id), ListingAt(chain, b, id), now);
  }

  lemma SweepTracks(rows: map<nat, Row>, chain: seq<Block>, lo: nat, hi: nat, early: nat, now: nat)
    requires TimeNeverGoesBack(chain) && hi < |chain| && SweepIsRight(chain, hi, now)
    requires Tracks(rows, chain, lo, hi, early, now)
    ensures Tracks(SweptRows(rows, now), chain, lo, hi, now, now)
  {
    forall id: nat
      ensures Tracked(RowAt(SweptRows(rows, now), id), chain, id, lo, hi, now, now)
    {
      assert Tracked(RowAt(rows, id), chain, id, lo, hi, early, now);
      SweepTracked(rows, chain, id, lo, hi, early, now);
    }
  }

  /** After the sweep, moving the checkpoint from `c` to `head` loses nothing: rows the new logs
      mention were rewritten, the others still show what they showed. */
  lemma AdvanceTracks(rows: map<nat, Row>, chain: seq<Block>, c: nat, head: nat, hi: nat, now: nat)
    requires TimeNeverGoesBack(chain) && c <= head <= hi < |chain|
    requires c < head ==> chain[head].time <= now
    requires Tracks(rows, chain, c, hi, now, now)
    requires forall id: nat | MentionsListing(LogsBetween(chain, c + 1, head + 1), id) ::
               Tracked(RowAt(rows, id), chain, id, head, hi, now, now)
    ensures Tracks(rows, chain, head, hi, now, now)
  {
    hide StorageAfter, LogsBetween;
    forall id: nat
      ensures Tracked(RowAt(rows, id), chain, id, head, hi, now, now)
    {
      if !MentionsListing(LogsBetween(chain, c + 1, head + 1), id) {
        assert Tracked(RowAt(rows, id), chain, id, c, hi, now, now);
        var b: nat :| c <= b <= hi && Shows(RowAt(rows, id), ListingAt(chain, b, id), now);
        if b < head {
          if MentionsListing(LogsBetween(chain, b + 1, head + 1), id) {
            MentionedInPart(chain, c + 1, b + 1, head + 1, id);
          }
          UnmentionedStaysShown(RowAt(rows, id), chain, id, b, head, now);
          assert Shows(RowAt(rows, id), ListingAt(chain, head, id), now);
        }
      }
    }
  }

  // ----- the syncs -----

  /** Besides the order of blocks: the clock never goes backwards and is not behind the newest
      block, and expiry texts compare as numbers. */
  ghost predicate Plausible(run: Run, chain: seq<Block>, seen: nat, clock: nat) {
    && Ordered(run, chain, seen)
    && clock <= run.now && chain[run.head].time <= run.now
    && SweepIsRight(chain, run.last, run.now)
  }

  /** Nothing stops the run: its scans survive, and there are enough database steps. */
  ghost predicate Undisturbed(run: Run, chain: seq<Block>) {
    ScansSurvive(run) && run.countReadAt < |chain| &&
    run.steps >= |StorageAt(chain, run.countReadAt).listings| + 2
  }

  /** Every listing that exists at the block has a row. */
  ghost predicate Present(rows: map<nat, Row>, chain: seq<Block>, block: nat)
    requires block < |chain|
  {
    forall id | 0 <= id < |StorageAt(chain, block).listings| :: id in rows
  }

  /** The row was written in this run. */
  ghost predicate UpToDate(rows: map<nat, Row>, chain: seq<Block>, run: Run, id: nat)
    requires run.last < |chain|
  {
    id in rows && Tracked(RowAt(rows, id), chain, id, run.head, run.last, run.now, run.now)
  }

  /** The settlement columns a row step writes, given the sale, cancellation and listing logs
      of the range that are about the row. */
  function Settled(before: Option<Row>, sold: Option<Log>, cancelled: Option<Log>, listed: Option<Log>, now: nat): Settlement
    requires sold.Some? ==> sold.value.event.Sale?
  {
    match before
    case None =>
      Settlement(if sold.Some? then Some(sold.value.event.buyer) else None,
                 if sold.Some? then Some(now) else None,
                 if cancelled.Some? then Some(now) else None,
                 if sold.Some? then Some(sold.value.tx)
                 else if cancelled.Some? then Some(cancelled.value.tx)
                 else if listed.Some? then Some(listed.value.tx) else None)
    case Some(row) =>
      if sold.Some? then Settlement(Some(sold.value.event.buyer), Some(now), None, Some(sold.value.tx))
      else if cancelled.Some? then Settlement(None, None, Some(now), Some(cancelled.value.tx))
      else if listed.Some? then Settlement(None, None, None, Some(listed.value.tx))
      else row.settlement
  }

  /** The closing update of a full rescan: every active row it did not see active goes inactive. */
  function DeactivatedOthers(rows: map<nat, Row>, activeIds: set<nat>): map<nat, Row> {
    map id | id in rows :: if rows[id].active && id !in activeIds then rows[id].(active := false) else rows[id]
  }

  lemma DeactivateTracks(rows: map<nat, Row>, chain: seq<Block>, run: Run, count: nat, activeIds: set<nat>)
    requires run.head <= run.countReadAt <= run.last < |chain| && count == |StorageAt(chain, run.countReadAt).listings|
    requires forall id: nat | id < count ::
               id in rows && (rows[id].active <==> id in activeIds) &&
               Tracked(RowAt(rows, id), chain, id, run.head, run.last, run.now, run.now)
    requires forall id | id in activeIds :: id < count
    ensures Tracks(DeactivatedOthers(rows, activeIds), chain, run.head, run.last, run.now, run.now)
  {
    hide StorageAfter;
    var rows' := DeactivatedOthers(rows, activeIds);
    forall id: nat
      ensures Tracked(RowAt(rows', id), chain, id, run.head, run.last, run.now, run.now)
    {
      if id < count {
        assert RowAt(rows', id) == RowAt(rows, id);
      } else {
        assert Shows(RowAt(rows', id), ListingAt(chain, run.countReadAt, id), run.now);
      }
    }
  }

  class ListingMirror {
    var rows: map<nat, Row>
    var checkpoint: Option<nat>

    constructor ()
      ensures rows == map[] && checkpoint == None
    {
      rows, checkpoint := map[], None;
    }

    /** Every row shows its listing as of some block from the checkpoint on. */
    ghost predicate Consistent(chain: seq<Block>, seen: nat, clock: nat)
      reads this
    {
      checkpoint.Some? ==> checkpoint.value <= seen < |chain| && Tracks(rows, chain, checkpoint.value, seen, 0, clock)
    }

    method ExpireListings(now: nat)
      modifies this`rows
      ensures rows.Keys == old(rows).Keys && rows == SweptRows(old(rows), now)
      ensures forall id | id in rows ::
                && rows[id].columns == old(rows)[id].columns && rows[id].settlement == old(rows)[id].settlement
                && (rows[id].active <==> old(rows)[id].active && !LexLe(rows[id].columns.expiresAtRaw, Print(now, 10)))
    {
      rows := map id | id in rows :: Swept(rows[id], now);
    }

    /** Retention drops rows that are no longer active. */
    method Prune(outdated: set<nat>, ghost chain: seq<Block>, ghost seen: nat, ghost clock: nat)
      requires Consistent(chain, seen, clock)
      modifies this`rows
      ensures Consistent(chain, seen, clock)
      ensures rows == map id | id in old(rows) && !(id in outdated && !old(rows)[id].active) :: old(rows)[id]
    {
      ghost var before := rows;
      rows := map id | id in rows && !(id in outdated && !rows[id].active) :: rows[id];
      if checkpoint.Some? {
        PruneTracks(before, rows, chain, checkpoint.value, seen, 0, clock);
      }
    }

    /** One row step: write the row of `id` as read at block `readAt`. */
    method PutRow(chain: seq<Block>, run: Run, id: nat, readAt: nat, settlement: Settlement)
      requires run.head <= readAt <= run.last < |chain| && id < |StorageAt(chain, readAt).listings|
      requires Consistent(chain, run.last, run.now) && (checkpoint.Some? ==> checkpoint.value <= run.head)
      modifies this`rows
      ensures Consistent(chain, run.last, run.now)
      ensures var listing := StorageAt(chain, readAt).listings[id];
        rows == old(rows)[id := Row(ColumnsOf(listing), ActiveAt(listing, run.now), settlement)]
      ensures Tracked(RowAt(rows, id), chain, id, run.head, run.last, run.now, run.now)
    {
      hide StorageAfter;
      var listing := StorageAt(chain, readAt).listings[id];
      var row := Row(ColumnsOf(listing), ActiveAt(listing, run.now), settlement);
      assert Shows(Some(row), ListingAt(chain, readAt, id), run.now);
      if checkpoint.Some? {
        WriteTracks(rows, chain, id, row, readAt, run.now, checkpoint.value, run.last, 0, run.now);
      }
      rows := rows[id := row];
    }

    /** The row steps of a full rescan. */
    method PutAllRows(chain: seq<Block>, run: Run, count: nat) returns (alive: bool, activeIds: set<nat>, steps: nat)
      requires TimeNeverGoesBack(chain) && run.head <= run.countReadAt <= run.last < |chain|
      requires forall id: nat :: run.countReadAt <= run.rowReadAt(id) <= run.last
      requires count == |StorageAt(chain, run.countReadAt).listings|
      requires Consistent(chain, run.last, run.now) && (checkpoint.Some? ==> checkpoint.value <= run.head)
      modifies this`rows
      ensures Consistent(chain, run.last, run.now)
      ensures old(rows).Keys <= rows.Keys
      ensures run.steps >= count ==> alive && steps == run.steps - count
      ensures alive ==> (forall id | id in activeIds :: id < count) && forall id: nat | id < count ::
                id in rows && (rows[id].active <==> id in activeIds) &&
                Tracked(RowAt(rows, id), chain, id, run.head, run.last, run.now, run.now)
      ensures alive ==> forall id: nat | id < count :: id in rows && rows[id].settlement == Settlement(None, None, None, None)
    {
      hide StorageAfter, Tracks, Tracked;
      activeIds := {};
      steps := run.steps;
      var pending := Below(count);
      while pending != {}
        invariant Consistent(chain, run.last, run.now)
        invariant old(rows).Keys <= rows.Keys && steps + count == run.steps + |pending|
        invariant forall id | id in pending :: id < count
        invariant forall id: nat | id < count && id !in pending ::
                    id in rows && (rows[id].active <==> id in activeIds) &&
                    Tracked(RowAt(rows, id), chain, id, run.head, run.last, run.now, run.now)
        invariant forall id: nat | id < count && id !in pending ::
                    id in rows && rows[id].settlement == Settlement(None, None, None, None)
        invariant forall id | id in activeIds :: id < count && id !in pending
      {
        var id :| id in pending;
        if steps == 0 {
          return false, {}, 0;
        }
        steps := steps - 1;
        ListingsGrow(chain, run.countReadAt, run.rowReadAt(id));
        ghost var before := rows;
        PutRow(chain, run, id, run.rowReadAt(id), UNSETTLED);
        assert forall i: nat | i != id :: RowAt(rows, i) == RowAt(before, i);
        if rows[id].active {
          activeIds := activeIds + {id};
        }
        pending := pending - {id};
      }
      alive := true;
    }

    /** Rescan every listing; cut off after `run.steps` database steps. */
    method FullSync(chain: seq<Block>, run: Run, ghost seen: nat, ghost clock: nat) returns (done: bool)
      requires Plausible(run, chain, seen, clock) && Consistent(chain, seen, clock)
      modifies this
      ensures Consistent(chain, run.last, run.now)
      ensures !done ==> checkpoint == old(checkpoint)
      ensures done ==> checkpoint == Some(run.head) && Tracks(rows, chain, run.head, run.last, run.now, run.now)
      ensures old(rows).Keys <= rows.Keys
      ensures done ==> forall id | 0 <= id < |StorageAt(chain, run.head).listings| :: id in rows
      ensures done ==> forall id: nat | id < |StorageAt(chain, run.countReadAt).listings| ::
                id in rows && rows[id].settlement == Settlement(None, None, None, None)
      ensures done ==> forall id | id in rows && id < |StorageAt(chain, run.head).listings| ::
                var columns, listing := rows[id].columns, StorageAt(chain, run.head).listings[id];
                && columns.collection == listing.nft && columns.tokenId == listing.tokenId
                && columns.seller == listing.seller && columns.amount == listing.amount
                && columns.standard == listing.standard && columns.paymentToken == listing.paymentToken
                && columns.price == listing.price && Parse(columns.expiresAtRaw, 10) == listing.expiresAt
      ensures Undisturbed(run, chain) ==> done
    {
      hide StorageAfter, Tracks, Tracked;
      var count := |StorageAt(chain, run.countReadAt).listings|;
      ListingsGrow(chain, run.head, run.countReadAt);
      ghost var low := if checkpoint.Some? then checkpoint.value else 0;
      if checkpoint.Some? {
        TracksWeaken(rows, chain, low, seen, 0, clock, low, run.last, 0, run.now);
      }
      var alive, activeIds, steps := PutAllRows(chain, run, count);
      if !alive || steps == 0 {
        return false;
      }
      ghost var before := rows;
      rows := DeactivatedOthers(rows, activeIds);
      DeactivateTracks(before, chain, run, count, activeIds);
      TracksWeaken(rows, chain, run.head, run.last, run.now, run.now, low, run.last, 0, run.now);
      if steps == 1 {
        return false;
      }
      TracksWeaken(rows, chain, run.head, run.last, run.now, run.now, run.head, run.last, 0, run.now);
      checkpoint := Some(run.head);
      forall id | id in rows && id < |StorageAt(chain, run.head).listings| {
        TracksFixColumns(rows, chain, run.head, run.last, run.now, run.now, id);
      }
      return true;
    }

    /** The last two steps of an event-driven sync: sweep, then move the checkpoint. */
    method SweepAndAdvance(chain: seq<Block>, run: Run, ghost seen: nat, ghost clock: nat, steps: nat) returns (done: bool)
      requires Plausible(run, chain, seen, clock) && checkpoint.Some? && checkpoint.value <= run.head
      requires Consistent(chain, run.last, run.now)
      requires forall id: nat | MentionsListing(LogsBetween(chain, checkpoint.value + 1, run.head + 1), id) ::
                 UpToDate(rows, chain, run, id)
      modifies this
      ensures Consistent(chain, run.last, run.now)
      ensures !done ==> checkpoint == old(checkpoint)
      ensures done ==> checkpoint == Some(run.head) && Tracks(rows, chain, run.head, run.last, run.now, run.now)
      ensures rows.Keys == old(rows).Keys && (steps >= 2 ==> done)
      ensures forall id | id in rows :: rows[id].settlement == old(rows)[id].settlement
    {
      hide StorageAfter, LogsBetween;
      if steps == 0 {
        return false;
      }
      ghost var before, c := rows, checkpoint.value;
      ExpireListings(run.now);
      SweepTracks(before, chain, c, run.last, 0, run.now);
      TracksWeaken(rows, chain, c, run.last, run.now, run.now, c, run.last, 0, run.now);
      if steps == 1 {
        return false;
      }
      forall id: nat | MentionsListing(LogsBetween(chain, c + 1, run.head + 1), id)
        ensures Tracked(RowAt(rows, id), chain, id, run.head, run.last, run.now, run.now)
      {
        assert UpToDate(before, chain, run, id);
        SweepTracked(before, chain, id, run.head, run.last, run.now, run.now);
      }
      AdvanceTracks(rows, chain, c, run.head, run.last, run.now);
      TracksWeaken(rows, chain, run.head, run.last, run.now, run.now, run.head, run.last, 0, run.now);
      checkpoint := Some(run.head);
      return true;
    }

    /** The row steps of an event-driven sync, in any order. */
    method PutAffectedRows(chain: seq<Block>, run: Run, events: Events) returns (alive: bool, steps: nat)
      requires TimeNeverGoesBack(chain) && run.head <= run.last < |chain|
      requires forall id: nat :: run.head <= run.rowReadAt(id) <= run.last
      requires forall id | id in events.affected :: id < |StorageAt(chain, run.head).listings|
      requires AtMostOneEnd(events)
      requires Consistent(chain, run.last, run.now) && (checkpoint.Some? ==> checkpoint.value <= run.head)
      modifies this`rows
      ensures Consistent(chain, run.last, run.now)
      ensures old(rows).Keys <= rows.Keys
      ensures run.steps >= |events.affected| ==> alive && steps == run.steps - |events.affected|
      ensures alive ==> forall id | id in events.affected :: UpToDate(rows, chain, run, id)
      ensures forall id: nat | id !in events.affected :: RowAt(rows, id) == RowAt(old(rows), id)
      ensures alive ==> forall id | id in events.affected :: Reported(rows, events, id, run.now)
    {
      hide StorageAfter, Tracks, Tracked, SettledFrom, Reported, AtMostOneEnd;
      steps := run.steps;
      var pending := events.affected;
      while pending != {}
        invariant pending <= events.affected && steps + |events.affected| == run.steps + |pending|
        invariant Consistent(chain, run.last, run.now) && old(rows).Keys <= rows.Keys
        invariant forall id | id in events.affected && id !in pending :: UpToDate(rows, chain, run, id)
        invariant forall id: nat | id !in events.affected :: RowAt(rows, id) == RowAt(old(rows), id)
        invariant forall id | id in events.affected && id !in pending :: Reported(rows, events, id, run.now)
      {
        var id :| id in pending;
        if steps == 0 {
          return false, 0;
        }
        steps := steps - 1;
        ListingsGrow(chain, run.head, run.rowReadAt(id));
        ghost var before := rows;
        PutRow(chain, run, id, run.rowReadAt(id), SettledFrom(RowAt(rows, id), events, id, run.now));
        assert forall i: nat | i != id :: RowAt(rows, i) == RowAt(before, i);
        WriteReports(before, rows, events, id, run.now);
        forall i | i in events.affected && i !in pending
          ensures UpToDate(rows, chain, run, i) && Reported(rows, events, i, run.now)
        {
          assert UpToDate(before, chain, run, i) && Reported(before, events, i, run.now);
        }
        pending := pending - {id};
      }
      alive := true;
    }

    /** Bring the table up to date from the events since the checkpoint, or rescan when forced
        or when there is no checkpoint. */
    method SyncListings(chain: seq<Block>, run: Run, force: bool, ghost seen: nat, ghost clock: nat) returns (done: bool)
      requires Plausible(run, chain, seen, clock) && Consistent(chain, seen, clock)
      modifies this
      ensures Consistent(chain, run.last, run.now)
      ensures !done ==> checkpoint == old(checkpoint)
      ensures done ==> checkpoint == Some(run.head) && Tracks(rows, chain, run.head, run.last, run.now, run.now)
      ensures old(rows).Keys <= rows.Keys
      ensures done && (old(checkpoint).Some? ==>
                         forall id | 0 <= id < |StorageAt(chain, old(checkpoint).value).listings| :: id in old(rows)) ==>
                forall id | 0 <= id < |StorageAt(chain, run.head).listings| :: id in rows
      ensures done ==> forall id | id in rows && id < |StorageAt(chain, run.head).listings| ::
                var columns, listing := rows[id].columns, StorageAt(chain, run.head).listings[id];
                && columns.collection == listing.nft && columns.tokenId == listing.tokenId
                && columns.seller == listing.seller && columns.amount == listing.amount
                && columns.standard == listing.standard && columns.paymentToken == listing.paymentToken
                && columns.price == listing.price && Parse(columns.expiresAtRaw, 10) == listing.expiresAt
      ensures done && !force && old(checkpoint).Some? ==>
                var logs := LogsBetween(chain, old(checkpoint).value + 1, run.head + 1);
                && (forall l | l in logs && l.event.Sale? ::
                      l.event.id in rows &&
                      var x := rows[l.event.id].settlement;
                      && x.buyer == Some(l.event.buyer) && x.soldAt == Some(run.now) && x.cancelledAt == None
                      && x.tx == Some(l.tx))
                && (forall l | l in logs && l.event.Cancelled? ::
                      l.event.id in rows &&
                      var x := rows[l.event.id].settlement;
                      x.buyer == None && x.soldAt == None && x.cancelledAt == Some(run.now) && x.tx == Some(l.tx))
                && (forall l | l in logs && l.event.Listed? ::
                      l.event.id in rows &&
                      ((exists e | e in logs :: (e.event.Sale? || e.event.Cancelled?) && e.event.id == l.event.id) ||
                       var x := rows[l.event.id].settlement;
                       x.buyer == None && x.soldAt == None && x.cancelledAt == None && x.tx == Some(l.tx)))
                && (forall id | id in rows && !MentionsListing(logs, id) ::
                      id in old(rows) && rows[id].settlement == old(rows)[id].settlement)
      ensures Undisturbed(run, chain) ==> done
    {
      hide StorageAfter, LogsBetween, Tracks, Tracked, MentionsListing, Parse, FoundIn, AtMostOneEnd, Reported;
      if force || checkpoint.None? {
        done := FullSync(chain, run, seen, clock);
        return;
      }
      var c := checkpoint.value;
      TracksWeaken(rows, chain, c, seen, 0, clock, c, run.last, 0, run.now);
      var steps := run.steps;
      ghost var events := Events({}, map[], map[], map[]);
      if c + 1 > run.head {
        NothingFound(chain, c + 1, run.head + 1);
      } else {
        var found := ReadEvents(chain, run, c);
        if found.None? {
          return false;
        }
        events := found.value;
        if found.value.affected != {} {
          var alive;
          alive, steps := PutAffectedRows(chain, run, found.value);
          if !alive {
            return false;
          }
        }
      }
      ghost var written := rows;
      WrittenAreMentioned(old(rows), rows, chain, c, run, events);
      done := SweepAndAdvance(chain, run, seen, clock, steps);
      if done {
        forall id | id in rows && id < |StorageAt(chain, run.head).listings| {
          TracksFixColumns(rows, chain, run.head, run.last, run.now, run.now, id);
        }
        ReportsTheLogs(old(rows), written, rows, LogsBetween(chain, c + 1, run.head + 1), events, run.now);
      }
    }
  }

  /** What the three log scans of an event-driven sync found. */
  datatype Events = Events(affected: set<nat>, listed: map<nat, Log>, cancelled: map<nat, Log>, sold: map<nat, Log>)

  /** Each mentioned listing is in one of the maps, none is both sold and cancelled. */
  ghost predicate AtMostOneEnd(events: Events) {
    && events.affected == events.sold.Keys + events.cancelled.Keys + events.listed.Keys
    && forall id | id in events.sold :: events.sold[id].event.Sale? && id !in events.cancelled
  }

  function SettledFrom(before: Option<Row>, events: Events, id: nat, now: nat): Settlement
    requires AtMostOneEnd(events)
  {
    Settled(before, Lookup(events.sold, id), Lookup(events.cancelled, id), Lookup(events.listed, id), now)
  }

  /** The settlement columns of the row are those the logs found call for. */
  ghost predicate Reported(rows: map<nat, Row>, events: Events, id: nat, now: nat) {
    && id in rows
    && (id in events.sold && events.sold[id].event.Sale? ==>
          rows[id].settlement == Settlement(Some(events.sold[id].event.buyer), Some(now), None, Some(events.sold[id].tx)))
    && (id in events.cancelled ==>
          rows[id].settlement == Settlement(None, None, Some(now), Some(events.cancelled[id].tx)))
    && (id in events.listed && id !in events.sold && id !in events.cancelled ==>
          rows[id].settlement == Settlement(None, None, None, Some(events.listed[id].tx)))
  }

  /** Creating or updating, a row step writes the same settlement columns. */
  lemma WriteReports(before: map<nat, Row>, rows: map<nat, Row>, events: Events, id: nat, now: nat)
    requires AtMostOneEnd(events) && id in rows && rows[id].settlement == SettledFrom(RowAt(before, id), events, id, now)
    requires forall i: nat | i != id :: RowAt(rows, i) == RowAt(before, i)
    requires id in events.affected
    ensures Reported(rows, events, id, now)
    ensures forall i: nat | i != id :: Reported(rows, events, i, now) <==> Reported(before, events, i, now)
  {
    forall i: nat | i != id
      ensures Reported(rows, events, i, now) <==> Reported(before, events, i, now)
    {
      assert RowAt(rows, i) == RowAt(before, i);
    }
  }

  /** The row steps leave no mentioned listing behind. */
  lemma WrittenAreMentioned(before: map<nat, Row>, rows: map<nat, Row>, chain: seq<Block>, c: nat, run: Run, events: Events)
    requires TimeNeverGoesBack(chain) && c <= run.head <= run.last < |chain| && before.Keys <= rows.Keys
    requires forall id: nat :: id in events.affected <==> MentionsListing(LogsBetween(chain, c + 1, run.head + 1), id)
    requires forall id | id in events.affected :: UpToDate(rows, chain, run, id)
    ensures forall id: nat | MentionsListing(LogsBetween(chain, c + 1, run.head + 1), id) :: UpToDate(rows, chain, run, id)
    ensures Present(before, chain, c) ==> Present(rows, chain, run.head)
  {
    hide StorageAfter, LogsBetween, MentionsListing, Tracked;
    forall id: nat | MentionsListing(LogsBetween(chain, c + 1, run.head + 1), id)
      ensures UpToDate(rows, chain, run, id) && RowAt(rows, id).Some?
    {}
    PresenceAdvances(before, rows, chain, c, run.head);
  }

  /** The settlement columns after the sweep, in terms of the logs. */
  lemma ReportsTheLogs(before: map<nat, Row>, written: map<nat, Row>, rows: map<nat, Row>, logs: seq<Log>, events: Events, now: nat)
    requires FoundIn(events, logs)
    requires forall id: nat :: id in events.affected <==> MentionsListing(logs, id)
    requires forall id | id in events.affected :: Reported(written, events, id, now)
    requires forall id: nat | id !in events.affected :: RowAt(written, id) == RowAt(before, id)
    requires rows.Keys == written.Keys && forall id | id in rows :: rows[id].settlement == written[id].settlement
    ensures forall l | l in logs && l.event.Sale? ::
              l.event.id in rows &&
              rows[l.event.id].settlement == Settlement(Some(l.event.buyer), Some(now), None, Some(l.tx))
    ensures forall l | l in logs && l.event.Cancelled? ::
              l.event.id in rows && rows[l.event.id].settlement == Settlement(None, None, Some(now), Some(l.tx))
    ensures forall l | l in logs && l.event.Listed? ::
              l.event.id in rows &&
              ((exists e | e in logs :: (e.event.Sale? || e.event.Cancelled?) && e.event.id == l.event.id) ||
               rows[l.event.id].settlement == Settlement(None, None, None, Some(l.tx)))
    ensures forall id | id in rows && !MentionsListing(logs, id) ::
              id in before && rows[id].settlement == before[id].settlement
  {
    hide MentionsListing;
    forall l | l in logs && (l.event.Sale? || l.event.Cancelled? || l.event.Listed?)
      ensures l.event.id in events.affected && Reported(written, events, l.event.id, now)
    {}
    forall id | id in rows && !MentionsListing(logs, id)
      ensures id in before && rows[id].settlement == before[id].settlement
    {
      assert RowAt(written, id) == RowAt(before, id);
    }
  }

  method ReadEvents(chain: seq<Block>, run: Run, c: nat) returns (events: Option<Events>)
    requires TimeNeverGoesBack(chain) && c + 1 <= run.head <= run.countReadAt < |chain| && CalmAfter(run.refuses, run.calmFrom)
    ensures events.Some? ==> forall id: nat ::
              id in events.value.affected <==> MentionsListing(LogsBetween(chain, c + 1, run.head + 1), id)
    ensures events.Some? ==> forall id | id in events.value.affected :: id < |StorageAt(chain, run.head).listings|
    ensures events.Some? ==> |events.value.affected| <= |StorageAt(chain, run.countReadAt).listings|
    ensures events.Some? ==> FoundIn(events.value, LogsBetween(chain, c + 1, run.head + 1)) && AtMostOneEnd(events.value)
    ensures Undisturbed(run, chain) ==> events.Some?
  {
    hide StorageAfter, LogsBetween, LogsIn, MentionsListing, AboutIds, LatestById, FoundIn, AtMostOneEnd, Survivable;
    var listed, listedTrace := GetLogsChunked(EventLogs(chain, IsListed), c + 1, Some(run.head), run.head, LOG_CHUNK_SIZE,
                                              run.refuses, run.calmFrom);
    var cancelled, cancelledTrace := GetLogsChunked(EventLogs(chain, IsCancelled), c + 1, Some(run.head), run.head,
                                                    LOG_CHUNK_SIZE, run.refuses, run.calmFrom);
    var sales, saleTrace := GetLogsChunked(EventLogs(chain, IsSale), c + 1, Some(run.head), run.head, LOG_CHUNK_SIZE,
                                           run.refuses, run.calmFrom);
    if listed.Err? || cancelled.Err? || sales.Err? {
      return None;
    }
    var affected := AboutIds(listed.logs) + AboutIds(cancelled.logs) + AboutIds(sales.logs);
    AffectedAreMentioned(chain, c + 1, run.head + 1, listed.logs, cancelled.logs, sales.logs);
    FewAffected(chain, c + 1, run, affected);
    FoundAll(chain, c + 1, run.head + 1, listed.logs, cancelled.logs, sales.logs);
    return Some(Events(affected, LatestById(listed.logs), LatestById(cancelled.logs), LatestById(sales.logs)));
  }

  const IsListed := (e: Event) => e.Listed?
  const IsCancelled := (e: Event) => e.Cancelled?
  const IsSale := (e: Event) => e.Sale?

  lemma NothingFound(chain: seq<Block>, lo: nat, hi: nat)
    requires hi <= lo && hi <= |chain|
    ensures forall id: nat :: !MentionsListing(LogsBetween(chain, lo, hi), id)
    ensures FoundIn(Events({}, map[], map[], map[]), LogsBetween(chain, lo, hi))
  {}

  lemma NothingBetween(chain: seq<Block>, lo: nat, hi: nat)
    requires hi <= lo && hi <= |chain|
    ensures forall id: nat :: !MentionsListing(LogsBetween(chain, lo, hi), id)
  {}

  /** Each log about a listing is in its map, and nothing else is. */
  ghost predicate FoundIn(events: Events, logs: seq<Log>) {
    && AtMostOneEnd(events)
    && (forall id | id in events.sold ::
          events.sold[id] in logs && events.sold[id].event.Sale? && events.sold[id].event.id == id)
    && (forall l | l in logs && l.event.Sale? :: l.event.id in events.sold && events.sold[l.event.id] == l)
    && (forall l | l in logs && l.event.Cancelled? :: l.event.id in events.cancelled && events.cancelled[l.event.id] == l)
    && (forall l | l in logs && l.event.Listed? :: l.event.id in events.listed && events.listed[l.event.id] == l)
    && (forall id | id in events.cancelled ::
          events.cancelled[id] in logs && events.cancelled[id].event.Cancelled? && events.cancelled[id].event.id == id)
    && (forall id | id in events.listed ::
          events.listed[id] in logs && events.listed[id].event.Listed? && events.listed[id].event.id == id)
  }

  /** The last log of each id is the only one of its kind. */
  lemma OnlyLogOfItsKind(chain: seq<Block>, kind: Event -> bool, lo: nat, hi: nat, found: seq<Log>)
    requires TimeNeverGoesBack(chain) && lo <= hi <= |chain| && found == LogsIn(EventLogs(chain, kind), lo, hi - 1)
    requires kind == IsListed || kind == IsCancelled || kind == IsSale
    ensures forall id | id in LatestById(found) ::
              var l := LatestById(found)[id]; l in LogsBetween(chain, lo, hi) && kind(l.event) && l.event.id == id
    ensures forall l | l in LogsBetween(chain, lo, hi) && kind(l.event) ::
              l.event.id in LatestById(found) && LatestById(found)[l.event.id] == l
    ensures LatestById(found).Keys == AboutIds(found)
  {
    hide LogsIn, LogsBetween, StorageAfter, LatestById;
    forall id: nat
      ensures id in LatestById(found) ==> LatestById(found)[id] in LogsBetween(chain, lo, hi) &&
                                          kind(LatestById(found)[id].event) && LatestById(found)[id].event.id == id
      ensures id in LatestById(found) <==> id in AboutIds(found)
    {
      LatestByIdSound(found, id);
      if id in LatestById(found) {
        ScanOfKind(chain, kind, lo, hi, LatestById(found)[id]);
      }
    }
    forall l | l in LogsBetween(chain, lo, hi) && kind(l.event)
      ensures l.event.id in LatestById(found) && LatestById(found)[l.event.id] == l
    {
      ScanOfKind(chain, kind, lo, hi, l);
      LatestByIdSound(found, l.event.id);
      OneLogEach(chain, lo, hi, l, LatestById(found)[l.event.id], l.event.id);
    }
  }

  lemma FoundAll(chain: seq<Block>, lo: nat, hi: nat, listed: seq<Log>, cancelled: seq<Log>, sales: seq<Log>)
    requires TimeNeverGoesBack(chain) && lo <= hi <= |chain|
    requires listed == LogsIn(EventLogs(chain, IsListed), lo, hi - 1)
    requires cancelled == LogsIn(EventLogs(chain, IsCancelled), lo, hi - 1)
    requires sales == LogsIn(EventLogs(chain, IsSale), lo, hi - 1)
    ensures var events := Events(AboutIds(listed) + AboutIds(cancelled) + AboutIds(sales), LatestById(listed),
                                 LatestById(cancelled), LatestById(sales));
      FoundIn(events, LogsBetween(chain, lo, hi)) && AtMostOneEnd(events)
  {
    hide LogsIn, LogsBetween, StorageAfter, LatestById, AboutIds;
    OnlyLogOfItsKind(chain, IsListed, lo, hi, listed);
    OnlyLogOfItsKind(chain, IsCancelled, lo, hi, cancelled);
    OnlyLogOfItsKind(chain, IsSale, lo, hi, sales);
    forall id | id in LatestById(sales)
      ensures id !in LatestById(cancelled)
    {
      if id in LatestById(cancelled) {
        OneLogEach(chain, lo, hi, LatestById(sales)[id], LatestById(cancelled)[id], id);
      }
    }
  }

  /** The three scans together find every listing the logs mention, and no other. */
  lemma AffectedAreMentioned(chain: seq<Block>, lo: nat, hi: nat, listed: seq<Log>, cancelled: seq<Log>, sales: seq<Log>)
    requires hi <= |chain|
    requires listed == LogsIn(EventLogs(chain, IsListed), lo, hi - 1)
    requires cancelled == LogsIn(EventLogs(chain, IsCancelled), lo, hi - 1)
    requires sales == LogsIn(EventLogs(chain, IsSale), lo, hi - 1)
    ensures forall id: nat :: id in AboutIds(listed) + AboutIds(cancelled) + AboutIds(sales)
                         <==> MentionsListing(LogsBetween(chain, lo, hi), id)
  {
    hide LogsIn, LogsBetween, StorageAfter;
    var logs := LogsBetween(chain, lo, hi);
    forall l: Log
      ensures l in listed <==> l in logs && l.event.Listed?
      ensures l in cancelled <==> l in logs && l.event.Cancelled?
      ensures l in sales <==> l in logs && l.event.Sale?
    {
      ScanOfKind(chain, IsListed, lo, hi, l);
      ScanOfKind(chain, IsCancelled, lo, hi, l);
      ScanOfKind(chain, IsSale, lo, hi, l);
    }
    forall id: nat
      ensures id in AboutIds(listed) + AboutIds(cancelled) + AboutIds(sales) <==> MentionsListing(logs, id)
    {
      if MentionsListing(logs, id) {
        var i :| 0 <= i < |logs| && IsAboutListing(logs[i].event, id);
        assert logs[i] in logs;
      }
      if id in AboutIds(listed) + AboutIds(cancelled) + AboutIds(sales) {
        var l :| (l in listed || l in cancelled || l in sales) && l.event.id == id;
        var i :| 0 <= i < |logs| && logs[i] == l;
        assert IsAboutListing(logs[i].event, id);
      }
    }
  }

  /** No more rows are affected than a full rescan would write. */
  lemma FewAffected(chain: seq<Block>, lo: nat, run: Run, affected: set<nat>)
    requires TimeNeverGoesBack(chain) && 0 < lo <= run.head + 1 && run.head <= run.countReadAt < |chain|
    requires forall id: nat :: id in affected <==> MentionsListing(LogsBetween(chain, lo, run.head + 1), id)
    ensures forall id | id in affected :: id < |StorageAt(chain, run.head).listings|
    ensures |affected| <= |StorageAt(chain, run.countReadAt).listings|
  {
    hide StorageAfter, LogsBetween, MentionsListing;
    var all := Below(|StorageAt(chain, run.countReadAt).listings|);
    ListingsGrow(chain, run.head, run.countReadAt);
    forall id | id in affected
      ensures id < |StorageAt(chain, run.head).listings| && id in all
    {
      MentionedExists(chain, lo, run.head, id);
    }
    SubsetIsSmaller(affected, all);
  }

  lemma PresenceAdvances(before: map<nat, Row>, rows: map<nat, Row>, chain: seq<Block>, c: nat, head: nat)
    requires TimeNeverGoesBack(chain) && c <= head < |chain|
    requires before.Keys <= rows.Keys
    requires forall id: nat | MentionsListing(LogsBetween(chain, c + 1, head + 1), id) :: RowAt(rows, id).Some?
    ensures Present(before, chain, c) ==> Present(rows, chain, head)
  {
    hide StorageAfter, LogsBetween, MentionsListing;
    ChangesAreLogged(chain, c, head);
    if Present(before, chain, c) {
      forall id | 0 <= id < |StorageAt(chain, head).listings|
        ensures id in rows
      {
        if id >= |StorageAt(chain, c).listings| {
          assert RowAt(rows, id).Some?;
        }
      }
    }
  }

  lemma MentionedExists(chain: seq<Block>, lo: nat, head: nat, id: nat)
    requires TimeNeverGoesBack(chain) && 0 < lo && head < |chain| && lo <= head + 1
    requires MentionsListing(LogsBetween(chain, lo, head + 1), id)
    ensures id < |StorageAt(chain, head).listings|
  {
    hide StorageAfter, LogsBetween;
    ChangesAreLogged(chain, lo - 1, head);
  }

  lemma ListingsGrow(chain: seq<Block>, b: nat, b': nat)
    requires TimeNeverGoesBack(chain) && b <= b' < |chain|
    ensures |StorageAt(chain, b).listings| <= |StorageAt(chain, b').listings|
  {
    hide StorageAfter;
    ChangesAreLogged(chain, b, b');
  }

  lemma PruneTracks(before: map<nat, Row>, rows: map<nat, Row>, chain: seq<Block>, lo: nat, hi: nat, early: nat, late: nat)
    requires hi < |chain| && Tracks(before, chain, lo, hi, early, late)
    requires forall id | id in rows :: id in before && rows[id] == before[id]
    requires forall id | id in before && id !in rows :: !before[id].active
    ensures Tracks(rows, chain, lo, hi, early, late)
  {
    forall id: nat
      ensures Tracked(RowAt(rows, id), chain, id, lo, hi, early, late)
    {
      assert Tracked(RowAt(before, id), chain, id, lo, hi, early, late);
      var b: nat, t: nat :| lo <= b <= hi && early <= t <= late && Shows(RowAt(before, id), ListingAt(chain, b, id), t);
      assert Shows(RowAt(rows, id), ListingAt(chain, b, id), t);
    }
  }

  // ----- what a finished sync means -----

  /** A tracked row of a listing has the contract's columns, the expiry as decimal digits. */
  lemma TracksFixColumns(rows: map<nat, Row>, chain: seq<Block>, lo: nat, hi: nat, early: nat, late: nat, id: nat)
    requires lo <= hi < |chain| && Tracks(rows, chain, lo, hi, early, late)
    requires id in rows && id < |StorageAt(chain, lo).listings|
    ensures var columns, listing := rows[id].columns, StorageAt(chain, lo).listings[id];
      && columns.collection == listing.nft && columns.tokenId == listing.tokenId && columns.seller == listing.seller
      && columns.amount == listing.amount && columns.standard == listing.standard
      && columns.paymentToken == listing.paymentToken && columns.price == listing.price
      && Parse(columns.expiresAtRaw, 10) == listing.expiresAt
  {
    hide StorageAfter, Parse, Print;
    assert Tracked(RowAt(rows, id), chain, id, lo, hi, early, late);
    var b: nat, t: nat :| lo <= b <= hi && early <= t <= late && Shows(RowAt(rows, id), ListingAt(chain, b, id), t);
    ListingTermsNeverChange(chain, lo, b);
    ParsePrint(StorageAt(chain, b).listings[id].expiresAt, 10);
  }

  /** When no newer block answered the run, the active rows are exactly the listings that are
      active and unexpired at the head, and every row of a listing has the contract's columns:
      what a full rescan at that head and time leaves, whichever sync ran. */
  lemma TracksMeansRescan(rows: map<nat, Row>, chain: seq<Block>, head: nat, now: nat)
    requires head < |chain| && Tracks(rows, chain, head, head, now, now)
    ensures var listings := StorageAt(chain, head).listings;
      && (forall id: nat :: id in rows && rows[id].active <==>
            id < |listings| && listings[id].active && now < listings[id].expiresAt)
      && (forall id | id in rows && id < |listings| ::
            var columns, listing := rows[id].columns, listings[id];
            && columns.collection == listing.nft && columns.tokenId == listing.tokenId && columns.seller == listing.seller
            && columns.amount == listing.amount && columns.standard == listing.standard
            && columns.paymentToken == listing.paymentToken && columns.price == listing.price
            && Parse(columns.expiresAtRaw, 10) == listing.expiresAt)
  {
    hide StorageAfter, Parse, Print;
    var listings := StorageAt(chain, head).listings;
    forall id: nat
      ensures id in rows && rows[id].active <==> id < |listings| && listings[id].active && now < listings[id].expiresAt
    {
      assert Tracked(RowAt(rows, id), chain, id, head, head, now, now);
    }
    forall id | id in rows && id < |listings| {
      TracksFixColumns(rows, chain, head, head, now, now, id);
    }
  }

  datatype Step = Sync(run: Run, force: bool) | Retention(outdated: set<nat>)

  /** A history of runs: each sees the chain and the clock no earlier than the one before. */
  ghost predicate PlausibleHistory(steps: seq<Step>, chain: seq<Block>, seen: nat, clock: nat) {
    steps == [] ||
    match steps[0]
    case Retention(_) => PlausibleHistory(steps[1..], chain, seen, clock)
    case Sync(run, _) => Plausible(run, chain, seen, clock) && PlausibleHistory(steps[1..], chain, run.last, run.now)
  }

  ghost predicate EndsWithFinishedSync(rows: map<nat, Row>, chain: seq<Block>, step: Step) {
    step.Sync? && step.run.head <= step.run.last < |chain| &&
    Tracks(rows, chain, step.run.head, step.run.last, step.run.now, step.run.now)
  }

  /** A tracked table column by column: the columns of each listing that exists at `lo`, and which
      rows are active. */
  lemma TracksMean(rows: map<nat, Row>, chain: seq<Block>, lo: nat, hi: nat, now: nat)
    requires lo <= hi < |chain| && Tracks(rows, chain, lo, hi, now, now)
    ensures forall id | id in rows && id < |StorageAt(chain, lo).listings| ::
              var columns, listing := rows[id].columns, StorageAt(chain, lo).listings[id];
              && columns.collection == listing.nft && columns.tokenId == listing.tokenId
              && columns.seller == listing.seller && columns.amount == listing.amount
              && columns.standard == listing.standard && columns.paymentToken == listing.paymentToken
              && columns.price == listing.price && Parse(columns.expiresAtRaw, 10) == listing.expiresAt
    ensures forall id | id in rows && rows[id].active ::
              exists b: nat | lo <= b <= hi ::
                var listings := StorageAt(chain, b).listings;
                id < |listings| && listings[id].active && now < listings[id].expiresAt
    ensures forall id: nat | id !in rows || !rows[id].active ::
              exists b: nat | lo <= b <= hi ::
                var listings := StorageAt(chain, b).listings;
                id >= |listings| || !listings[id].active || listings[id].expiresAt <= now
  {
    hide StorageAfter, Parse, Print;
    forall id | id in rows && id < |StorageAt(chain, lo).listings| {
      TracksFixColumns(rows, chain, lo, hi, now, now, id);
    }
    forall id: nat
      ensures id in rows && rows[id].active ==>
                exists b: nat | lo <= b <= hi ::
                  var listings := StorageAt(chain, b).listings;
                  id < |listings| && listings[id].active && now < listings[id].expiresAt
      ensures id !in rows || !rows[id].active ==>
                exists b: nat | lo <= b <= hi ::
                  var listings := StorageAt(chain, b).listings;
                  id >= |listings| || !listings[id].active || listings[id].expiresAt <= now
    {
      assert Tracked(RowAt(rows, id), chain, id, lo, hi, now, now);
      var b: nat, t: nat :| lo <= b <= hi && now <= t <= now && Shows(RowAt(rows, id), ListingAt(chain, b, id), t);
      var listings := StorageAt(chain, b).listings;
      assert id in rows && rows[id].active <==> id < |listings| && listings[id].active && now < listings[id].expiresAt;
    }
  }

  /** Whole histories: start from any table whatever, without a checkpoint; let syncs, forced or
      not, finish or die after any number of database steps, with retention prunes between
      them. After every sync that finishes, each row has its listing's columns, and is active
      exactly if the listing is active at a block from the sync's head on and unexpired at the
      sync's time. */
  method AnyHistory(initial: map<nat, Row>, chain: seq<Block>, steps: seq<Step>, ghost seen: nat, ghost clock: nat)
    returns (rows: map<nat, Row>, finished: bool)
    requires PlausibleHistory(steps, chain, seen, clock)
    ensures finished ==> steps != [] && steps[|steps| - 1].Sync?
    ensures finished ==>
              var run := steps[|steps| - 1].run;
              run.head <= run.last < |chain| && forall id | id in rows && id < |StorageAt(chain, run.head).listings| ::
                var columns, listing := rows[id].columns, StorageAt(chain, run.head).listings[id];
                && columns.collection == listing.nft && columns.tokenId == listing.tokenId
                && columns.seller == listing.seller && columns.amount == listing.amount
                && columns.standard == listing.standard && columns.paymentToken == listing.paymentToken
                && columns.price == listing.price && Parse(columns.expiresAtRaw, 10) == listing.expiresAt
    ensures finished ==>
              var run := steps[|steps| - 1].run;
              && (forall id | id in rows && rows[id].active ::
                    exists b: nat | run.head <= b <= run.last ::
                      var listings := StorageAt(chain, b).listings;
                      id < |listings| && listings[id].active && run.now < listings[id].expiresAt)
              && (forall id: nat | id !in rows || !rows[id].active ::
                    exists b: nat | run.head <= b <= run.last ::
                      var listings := StorageAt(chain, b).listings;
                      id >= |listings| || !listings[id].active || listings[id].expiresAt <= run.now)
    ensures steps != [] && steps[|steps| - 1].Sync? && Undisturbed(steps[|steps| - 1].run, chain) ==> finished
    ensures steps != [] && steps[|steps| - 1].Sync? && OnlyRateLimits(steps[|steps| - 1].run) ==>
              var run := steps[|steps| - 1].run;
              run.countReadAt < |chain| && run.steps >= |StorageAt(chain, run.countReadAt).listings| + 2 ==> finished
  {
    hide StorageAfter, Tracks, Parse;
    var mirror := new ListingMirror();
    mirror.rows := initial;
    finished := false;
    ghost var top, time := seen, clock;
    var i := 0;
    while i < |steps|
      invariant 0 <= i <= |steps| && fresh(mirror)
      invariant mirror.Consistent(chain, top, time)
      invariant PlausibleHistory(steps[i..], chain, top, time)
      invariant finished ==> i > 0 && EndsWithFinishedSync(mirror.rows, chain, steps[i - 1])
      invariant i > 0 && steps[i - 1].Sync? && Undisturbed(steps[i - 1].run, chain) ==> finished
    {
      assert steps[i..][0] == steps[i] && steps[i..][1..] == steps[i + 1..];
      finished := false;
      match steps[i] {
        case Retention(outdated) =>
          mirror.Prune(outdated, chain, top, time);
        case Sync(run, force) =>
          finished := mirror.SyncListings(chain, run, force, top, time);
          top, time := run.last, run.now;
      }
      i := i + 1;
    }
    rows := mirror.rows;
    if steps != [] && steps[|steps| - 1].Sync? && OnlyRateLimits(steps[|steps| - 1].run) {
      PatienceSurvives(steps[|steps| - 1].run);
    }
    if finished {
      var run := steps[|steps| - 1].run;
      TracksMean(rows, chain, run.head, run.last, run.now);
    }
  }
}
