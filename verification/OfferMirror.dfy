/** The offer table of the indexer and the settlement it triggers: full rescan and event-driven
    sync, cut off anywhere, also between storing an acceptance's hash and moving the holdings.
    Two main results: how often an accepted offer is settled, exactly, over any history of syncs
    and retention; and that the event-driven sync shows the offers a full rescan would. */
module OfferMirror {
  import opened Options
  import opened Numerals
  import opened ExpiryText
  import opened LogScanner
  import opened Marketplace
  import opened SyncRun
  import opened OfferChain
  import opened OfferHistory

  datatype Columns = Columns(collection: Address, tokenId: nat, buyer: Address, paymentToken: Address, quantity: nat,
                             price: nat, expiresAtRaw: string)
  datatype Status = Accepted | CancelledOffer | Expired | Active | Inactive

  /** `updatedAt` is set by every write of the row. */
  datatype Row = Row(columns: Columns, status: Status, active: bool, acceptedSeller: Option<Address>,
                     acceptedTx: Option<nat>, cancelledTx: Option<nat>, updatedAt: nat)

  /** One call of the settlement of an accepted offer: token and standard from the offer read, the
      rest from the acceptance. */
  datatype Settlement = Settlement(id: nat, nft: Address, tokenId: nat, standard: Standard, seller: Address,
                                   buyer: Address, quantity: nat)

  const IsCreatedOffer := (e: Event) => e.OfferCreated?
  const IsCancelledOffer := (e: Event) => e.OfferCancelled?
  const IsAcceptedOffer := (e: Event) => e.OfferAccepted?

  function ColumnsOf(o: Offer): Columns {
    Columns(o.nft, o.tokenId, o.buyer, o.paymentToken, o.quantity, o.price, Print(o.expiresAt, 10))
  }

  predicate ActiveOffer(o: Offer, now: nat) { o.active && o.expiresAt > now }

  function StatusOf(o: Offer, accepted: Option<Log>, cancelled: Option<Log>, now: nat): Status {
    if accepted.Some? then Accepted
    else if cancelled.Some? then CancelledOffer
    else if o.expiresAt <= now then Expired
    else if o.active then Active
    else Inactive
  }

  function TxOf(l: Option<Log>): Option<nat> {
    if l.Some? then Some(l.value.tx) else None
  }

  function RowOf(o: Offer, accepted: Option<Log>, cancelled: Option<Log>, now: nat): Row
    requires accepted.Some? ==> accepted.value.event.OfferAccepted?
  {
    Row(ColumnsOf(o), StatusOf(o, accepted, cancelled, now),
        o.active && o.expiresAt > now && accepted.None? && cancelled.None?,
        if accepted.Some? then Some(accepted.value.event.seller) else None, TxOf(accepted), TxOf(cancelled), now)
  }

  /** `active` and `status` follow the clock; the text comparison is the listing sweep's. */
  function Swept(row: Row, now: nat): Row {
    if row.active && LexLe(row.columns.expiresAtRaw, Print(now, 10))
    then row.(active := false, status := Expired, updatedAt := now) else row
  }

  function SweptAt(rows: map<nat, Row>, id: nat, now: nat): Option<Row> {
    if id in rows then Some(Swept(rows[id], now)) else None
  }

  function StoredTx(rows: map<nat, Row>, id: nat): Option<nat> {
    if id in rows then rows[id].acceptedTx else None
  }

  /** How often an offer was settled. */
  function Times(settled: seq<Settlement>, id: nat): nat {
    if settled == [] then 0
    else Times(settled[..|settled| - 1], id) + (if settled[|settled| - 1].id == id then 1 else 0)
  }

  lemma TimesSnoc(settled: seq<Settlement>, s: Settlement, id: nat)
    ensures Times(settled + [s], id) == Times(settled, id) + (if s.id == id then 1 else 0)
  {
    assert (settled + [s])[..|settled|] == settled;
  }

  lemma RowIsCopied(chain: seq<Block>, readAt: nat, last: nat, id: nat, accepted: Option<Log>, cancelled: Option<Log>, now: nat)
    requires readAt <= last < |chain| && OfferAt(chain, readAt, id).Some?
    requires accepted.Some? ==> accepted.value.event.OfferAccepted?
    ensures OfferAt(chain, last, id).Some?
    ensures Copied(RowOf(OfferAt(chain, readAt, id).value, accepted, cancelled, now), OfferAt(chain, last, id).value)
  {
    hide StorageAfter, Parse, Print;
    TermsNeverChange(chain, readAt, last);
    ParsePrint(OfferAt(chain, readAt, id).value.expiresAt, 10);
  }

  // ----- the invariant -----

  /** The row's columns are the offer's terms, its expiry in decimal digits. */
  predicate Copied(row: Row, o: Offer) {
    && row.columns.collection == o.nft && row.columns.tokenId == o.tokenId && row.columns.buyer == o.buyer
    && row.columns.paymentToken == o.paymentToken && row.columns.quantity == o.quantity && row.columns.price == o.price
    && Parse(row.columns.expiresAtRaw, 10) == o.expiresAt
  }

  predicate ShowsAcceptance(row: Row, l: Log) {
    l.event.OfferAccepted? && row.status == Accepted && !row.active && row.acceptedTx == Some(l.tx) &&
    row.acceptedSeller == Some(l.event.seller)
  }

  /** What every run keeps, for each offer: a row has the offer's terms, a stored hash is the hash of
      the offer's acceptance, the history says where hashes are stored, and the offer was settled
      as often as the history says. */
  ghost predicate Accountable(rows: map<nat, Row>, settled: seq<Settlement>, history: seq<Happening>, chain: seq<Block>, seen: nat)
    requires seen < |chain|
  {
    forall id: nat :: AccountableFor(rows, settled, history, chain, seen, id)
  }

  ghost predicate AccountableFor(rows: map<nat, Row>, settled: seq<Settlement>, history: seq<Happening>, chain: seq<Block>,
                                 seen: nat, id: nat)
    requires seen < |chain|
  {
    && (StoredTx(rows, id).Some? ==> exists l :: AcceptedBy(chain, seen, id, l) && ShowsAcceptance(rows[id], l))
    && (id in rows ==> OfferAt(chain, seen, id).Some? && Copied(rows[id], OfferAt(chain, seen, id).value))
    && (StoredTx(rows, id).Some? <==> Holding(history, id))
    && Times(settled, id) == Settlements(history, id)
  }

  /** What one run may use as the acceptance of an offer: the chain's, and no older one missed. */
  ghost predicate Faithful(accepted: Option<Log>, chain: seq<Block>, seen: nat, last: nat, id: nat)
    requires seen <= last < |chain|
  {
    && (accepted.Some? ==> AcceptedBy(chain, last, id, accepted.value))
    && (accepted.None? ==> forall l :: !AcceptedBy(chain, seen, id, l))
  }

  /** Whether a row step settles: the acceptance it saw is not the one already stored. */
  predicate Settles(rows: map<nat, Row>, id: nat, accepted: Option<Log>) {
    accepted.Some? && StoredTx(rows, id) != Some(accepted.value.tx)
  }

  function SettlementOf(l: Log, o: Offer): Settlement
    requires l.event.OfferAccepted?
  {
    Settlement(l.event.id, o.nft, o.tokenId, o.standard, l.event.seller, l.event.buyer, l.event.quantity)
  }

  /** The settlement repeats an acceptance on the chain and the token of its offer. */
  ghost predicate SettledFrom(s: Settlement, chain: seq<Block>, seen: nat)
    requires seen < |chain|
  {
    OfferAt(chain, seen, s.id).Some? &&
    var o := OfferAt(chain, seen, s.id).value;
    && s.nft == o.nft && s.tokenId == o.tokenId && s.standard == o.standard
    && exists l :: AcceptedBy(chain, seen, s.id, l) && s.seller == l.event.seller && s.buyer == l.event.buyer &&
                   s.quantity == l.event.quantity
  }

  ghost predicate AllSettledFrom(settled: seq<Settlement>, chain: seq<Block>, seen: nat)
    requires seen < |chain|
  {
    forall s | s in settled :: SettledFrom(s, chain, seen)
  }

  lemma SettledFromLater(settled: seq<Settlement>, chain: seq<Block>, seen: nat, last: nat)
    requires seen <= last < |chain| && AllSettledFrom(settled, chain, seen)
    ensures AllSettledFrom(settled, chain, last)
  {
    hide LogsBetween, StorageAfter;
    TermsNeverChange(chain, seen, last);
    forall s | s in settled
      ensures SettledFrom(s, chain, last)
    {
      var l :| AcceptedBy(chain, seen, s.id, l) && s.seller == l.event.seller && s.buyer == l.event.buyer &&
               s.quantity == l.event.quantity;
      AcceptedLater(chain, seen, last, s.id, l);
    }
  }

  lemma NewIsSettledFrom(chain: seq<Block>, readAt: nat, last: nat, id: nat, l: Log)
    requires readAt <= last < |chain| && OfferAt(chain, readAt, id).Some? && AcceptedBy(chain, last, id, l)
    ensures SettledFrom(SettlementOf(l, OfferAt(chain, readAt, id).value), chain, last)
  {
    hide LogsBetween, StorageAfter;
    TermsNeverChange(chain, readAt, last);
  }

  /** What a row step adds to the history. */
  function Adds(id: nat, accepted: Option<Log>, died: bool): seq<Happening> {
    if accepted.Some? then [Stored(id, accepted.value.tx, died)] else []
  }

  /** One row step, whole or cut off before the settlement, keeps the invariant. */
  lemma RowStepKeeps(rows: map<nat, Row>, settled: seq<Settlement>, history: seq<Happening>, chain: seq<Block>,
                     last: nat, id: nat, row: Row, accepted: Option<Log>, settlement: Settlement, cutOff: bool)
    requires settlement.id == id && last < |chain| && Accountable(rows, settled, history, chain, last)
    requires OfferAt(chain, last, id).Some? && Copied(row, OfferAt(chain, last, id).value)
    requires accepted.Some? ==> AcceptedBy(chain, last, id, accepted.value) && ShowsAcceptance(row, accepted.value)
    requires accepted.None? ==> StoredTx(rows, id).None?
    requires row.acceptedTx == TxOf(accepted)
    ensures var settles := Settles(rows, id, accepted);
      Accountable(rows[id := row], if settles && !cutOff then settled + [settlement] else settled,
                  history + Adds(id, accepted, settles && cutOff), chain, last)
  {
    hide LogsBetween, Times, StorageAfter, Holding, Settlements, Copied;
    var settles := Settles(rows, id, accepted);
    var settled' := if settles && !cutOff then settled + [settlement] else settled;
    var history' := history + Adds(id, accepted, settles && cutOff);
    var rows' := rows[id := row];
    forall i: nat
      ensures AccountableFor(rows', settled', history', chain, last, i)
    {
      assert AccountableFor(rows, settled, history, chain, last, i);
      if settled' != settled {
        TimesSnoc(settled, settlement, i);
      }
      if accepted.Some? {
        SettlementsSnoc(history, Stored(id, accepted.value.tx, settles && cutOff), i);
        if i == id && StoredTx(rows, id).Some? {
          var l :| AcceptedBy(chain, last, id, l) && ShowsAcceptance(rows[id], l);
          AcceptanceIsUnique(chain, last, id, l, accepted.value);
        }
      } else {
        assert history' == history;
      }
    }
  }

  lemma AccountableLater(rows: map<nat, Row>, settled: seq<Settlement>, history: seq<Happening>, chain: seq<Block>, seen: nat, last: nat)
    requires seen <= last < |chain| && Accountable(rows, settled, history, chain, seen)
    ensures Accountable(rows, settled, history, chain, last)
  {
    hide LogsBetween, Times, StorageAfter, Holding, Settlements, Parse;
    TermsNeverChange(chain, seen, last);
    forall id: nat
      ensures AccountableFor(rows, settled, history, chain, last, id)
    {
      assert AccountableFor(rows, settled, history, chain, seen, id);
      if StoredTx(rows, id).Some? {
        var l :| AcceptedBy(chain, seen, id, l) && ShowsAcceptance(rows[id], l);
        EarlierLogsStay(chain, seen, last, l);
      }
    }
  }

  // ----- what one run adds to the history -----

  /** A stored hash comes from an acceptance on the chain, and in an event-driven run from one
      after the checkpoint. */
  ghost predicate FromScan(h: Happening, chain: seq<Block>, last: nat, since: Option<nat>)
    requires last < |chain| && (since.Some? ==> since.value < |chain|)
  {
    h.Stored? && exists l :: AcceptedBy(chain, last, h.id, l) && h.tx == l.tx &&
                             (since.Some? ==> !AcceptedBy(chain, since.value, h.id, l))
  }

  /** At most one step for each offer, and only the last can have been cut off. */
  ghost predicate RunAdds(added: seq<Happening>, chain: seq<Block>, last: nat, since: Option<nat>)
    requires last < |chain| && (since.Some? ==> since.value < |chain|)
  {
    && (forall k | 0 <= k < |added| :: FromScan(added[k], chain, last, since))
    && (forall k | 0 <= k < |added| && added[k].died :: k == |added| - 1)
    && (forall j, k | 0 <= j < k < |added| :: added[j].id != added[k].id)
  }

  /** The whole steps for these offers, and no others. */
  ghost predicate Progress(added: seq<Happening>, taken: set<nat>, accepted: map<nat, Log>, chain: seq<Block>, last: nat,
                           since: Option<nat>)
    requires last < |chain| && (since.Some? ==> since.value < |chain|)
  {
    && RunAdds(added, chain, last, since)
    && (forall k | 0 <= k < |added| :: added[k].id in taken && !added[k].died)
    && (forall id | id in taken && id in accepted :: EverStored(added, id))
  }

  lemma ProgressStep(added: seq<Happening>, taken: set<nat>, accepted: map<nat, Log>, chain: seq<Block>, last: nat,
                     since: Option<nat>, id: nat, died: bool)
    requires last < |chain| && (since.Some? ==> since.value < |chain|)
    requires Progress(added, taken, accepted, chain, last, since) && id !in taken
    requires id in accepted ==> AcceptedBy(chain, last, id, accepted[id]) &&
                                (since.Some? ==> !AcceptedBy(chain, since.value, id, accepted[id]))
    ensures var added' := added + Adds(id, Lookup(accepted, id), died);
      RunAdds(added', chain, last, since) && (!died ==> Progress(added', taken + {id}, accepted, chain, last, since))
  {
    hide LogsBetween, AcceptedBy;
    var added' := added + Adds(id, Lookup(accepted, id), died);
    forall k | 0 <= k < |added'|
      ensures FromScan(added'[k], chain, last, since)
    {
      if k < |added| {
        assert added'[k] == added[k];
      }
    }
    forall i | i in taken + {id} && i in accepted
      ensures EverStored(added', i)
    {
      if i == id {
        assert Stores(added'[|added|], id);
      } else {
        var k :| 0 <= k < |added| && Stores(added[k], i);
        assert Stores(added'[k], i);
      }
    }
  }

  // ----- what one run does to the rows -----

  ghost predicate Genuine(accepted: Option<Log>, cancelled: Option<Log>, chain: seq<Block>, last: nat, id: nat)
    requires last < |chain|
  {
    && (accepted.Some? ==> AcceptedBy(chain, last, id, accepted.value))
    && (cancelled.Some? ==> Ends(cancelled.value, id) && cancelled.value in LogsBetween(chain, 0, last + 1))
  }

  /** The row as a step of this run writes it, perhaps swept at the end of the run. */
  ghost predicate FreshRow(row: Row, chain: seq<Block>, run: Run, id: nat)
    requires run.last < |chain|
  {
    run.rowReadAt(id) <= run.last && OfferAt(chain, run.rowReadAt(id), id).Some? &&
    exists accepted, cancelled | Genuine(accepted, cancelled, chain, run.last, id) ::
      var row' := RowOf(OfferAt(chain, run.rowReadAt(id), id).value, accepted, cancelled, run.now);
      row == row' || row == Swept(row', run.now)
  }

  /** Cut off or not, a run leaves a row alone, sweeps it, or writes it afresh. */
  ghost predicate RowFate(before: map<nat, Row>, rows: map<nat, Row>, chain: seq<Block>, run: Run, id: nat)
    requires run.last < |chain|
  {
    || Lookup(rows, id) == Lookup(before, id)
    || Lookup(rows, id) == SweptAt(before, id, run.now)
    || (id in rows && FreshRow(rows[id], chain, run, id))
  }

  /** The rows with these ids are written, the others are not. */
  ghost predicate Wrote(before: map<nat, Row>, rows: map<nat, Row>, chain: seq<Block>, run: Run, ids: set<nat>)
    requires run.last < |chain|
  {
    forall id: nat ::
      if id in ids then id in rows && FreshRow(rows[id], chain, run, id) else Lookup(rows, id) == Lookup(before, id)
  }

  ghost predicate Mentioned(chain: seq<Block>, lo: nat, hi: nat, id: nat)
    requires hi <= |chain|
  {
    exists l :: l in LogsBetween(chain, lo, hi) && IsAboutOffer(l.event, id)
  }

  /** What a finished run did: a rescan wrote every offer, an event-driven run those mentioned since
      the checkpoint, sweeping the others. */
  ghost predicate Completed(before: map<nat, Row>, rows: map<nat, Row>, chain: seq<Block>, run: Run, since: Option<nat>)
    requires run.countReadAt <= run.last < |chain| && run.head <= run.last
  {
    match since
    case None => Wrote(before, rows, chain, run, Below(|StorageAt(chain, run.countReadAt).offers|))
    case Some(c) =>
      forall id: nat ::
        if Mentioned(chain, c + 1, run.head + 1, id) then id in rows && FreshRow(rows[id], chain, run, id)
        else Lookup(rows, id) == SweptAt(before, id, run.now)
  }

  /** Every acceptance the run could see was stored in a whole step: a rescan sees those up to its
      scan, an event-driven run those after the checkpoint up to the head. */
  ghost predicate Covers(added: seq<Happening>, chain: seq<Block>, run: Run, since: Option<nat>)
    requires run.head <= run.scanHead <= run.last && run.countReadAt <= run.last < |chain|
    requires since.Some? ==> since.value < |chain|
  {
    && (forall k | 0 <= k < |added| :: added[k].Stored? && !added[k].died)
    && (forall id: nat, l | Visible(chain, run, since, id, l) :: EverStored(added, id))
  }

  ghost predicate Visible(chain: seq<Block>, run: Run, since: Option<nat>, id: nat, l: Log)
    requires run.head <= run.scanHead <= run.last && run.countReadAt <= run.last < |chain|
    requires since.Some? ==> since.value < |chain|
  {
    && id < |StorageAt(chain, run.countReadAt).offers|
    && (if since.None? then AcceptedBy(chain, run.scanHead, id, l)
        else AcceptedBy(chain, run.head, id, l) && !AcceptedBy(chain, since.value, id, l))
  }

  /** A finished run leaves the hash of every acceptance it could see, and settles it exactly when
      the row did not hold the hash before. */
  lemma VisibleIsSettled(before: map<nat, Row>, settledBefore: seq<Settlement>, historyBefore: seq<Happening>, rows: map<nat, Row>,
                         settled: seq<Settlement>, added: seq<Happening>, chain: seq<Block>, run: Run, seen: nat,
                         since: Option<nat>, id: nat, l: Log)
    requires Ordered(run, chain, seen) && (since.Some? ==> since.value < |chain|) && Visible(chain, run, since, id, l)
    requires Accountable(before, settledBefore, historyBefore, chain, seen)
    requires Accountable(rows, settled, historyBefore + added, chain, run.last)
    requires RunAdds(added, chain, run.last, since) && Covers(added, chain, run, since)
    ensures StoredTx(rows, id) == Some(l.tx)
    ensures Times(settled, id) == Times(settledBefore, id) + if StoredTx(before, id) == Some(l.tx) then 0 else 1
  {
    hide LogsBetween, StorageAfter, Times, Settlements, Holding, EverStored, Copied;
    assert AccountableFor(before, settledBefore, historyBefore, chain, seen, id);
    assert AccountableFor(rows, settled, historyBefore + added, chain, run.last, id);
    RunSettles(historyBefore, added, id);
    var m :| AcceptedBy(chain, run.last, id, m) && ShowsAcceptance(rows[id], m);
    AcceptedLater(chain, if since.None? then run.scanHead else run.head, run.last, id, l);
    AcceptanceIsUnique(chain, run.last, id, l, m);
    if StoredTx(before, id).Some? {
      var n :| AcceptedBy(chain, seen, id, n) && ShowsAcceptance(before[id], n);
      AcceptedLater(chain, seen, run.last, id, n);
      AcceptanceIsUnique(chain, run.last, id, l, n);
    }
  }

  /** Nothing stops the run. */
  ghost predicate Undisturbed(run: Run, chain: seq<Block>) {
    ScansSurvive(run) && run.countReadAt < |chain| && run.steps >= 2 * |StorageAt(chain, run.countReadAt).offers| + 2
  }

  // ----- the syncs -----

  /** The scan's first block is no later than the first acceptance. */
  ghost predicate StartsEarlyEnough(chain: seq<Block>, startBlock: nat) {
    startBlock <= |chain| && forall l :: l in LogsBetween(chain, 0, startBlock) ==> !l.event.OfferAccepted?
  }

  datatype Scan = Scan(affected: set<nat>, accepted: map<nat, Log>, cancelled: map<nat, Log>)

  /** The map holds the logs of this kind, each under its id. */
  ghost predicate Holds(m: map<nat, Log>, logs: seq<Log>, kind: Event -> bool) {
    forall id: nat, l :: Lookup(m, id) == Some(l) <==> l in logs && kind(l.event) && l.event.id == id
  }

  /** The last acceptance of an offer is its only one, and so is the last cancellation. */
  lemma ScanHolds(chain: seq<Block>, kind: Event -> bool, lo: nat, hi: nat, found: seq<Log>)
    requires hi < |chain| && found == LogsIn(EventLogs(chain, kind), lo, hi)
    requires kind == IsAcceptedOffer || kind == IsCancelledOffer
    ensures Holds(LatestById(found), LogsBetween(chain, lo, hi + 1), kind)
  {
    hide LogsBetween, LogsIn, StorageAfter, LatestById;
    forall id: nat, l
      ensures Lookup(LatestById(found), id) == Some(l) <==> l in LogsBetween(chain, lo, hi + 1) && kind(l.event) && l.event.id == id
    {
      ScanHoldsOne(chain, kind, lo, hi, found, id, l);
    }
  }

  lemma ScanHoldsOne(chain: seq<Block>, kind: Event -> bool, lo: nat, hi: nat, found: seq<Log>, id: nat, l: Log)
    requires hi < |chain| && found == LogsIn(EventLogs(chain, kind), lo, hi)
    requires kind == IsAcceptedOffer || kind == IsCancelledOffer
    ensures Lookup(LatestById(found), id) == Some(l) <==> l in LogsBetween(chain, lo, hi + 1) && kind(l.event) && l.event.id == id
  {
    hide LogsBetween, LogsIn, StorageAfter, LatestById, EventLogs;
    LatestByIdSound(found, id);
    ScanOfKind(chain, kind, lo, hi + 1, l);
    if id in LatestById(found) && l in found && l.event.id == id {
      var m := LatestById(found)[id];
      ScanOfKind(chain, kind, lo, hi + 1, m);
      InWholeRange(chain, lo, hi + 1, l);
      InWholeRange(chain, lo, hi + 1, m);
      OneEnd(chain, hi, id, l, m);
    }
  }

  ghost predicate Logged(m: map<nat, Log>) {
    forall id | id in m :: Accepts(m[id], id)
  }

  /** The cancellations found are on the chain. */
  ghost predicate CancellationsGenuine(m: map<nat, Log>, chain: seq<Block>, last: nat)
    requires last < |chain|
  {
    forall id | id in m :: Ends(m[id], id) && m[id] in LogsBetween(chain, 0, last + 1)
  }

  lemma CancellationsFound(chain: seq<Block>, lo: nat, hi: nat, last: nat, logs: seq<Log>)
    requires hi <= last < |chain| && logs == LogsIn(EventLogs(chain, IsCancelledOffer), lo, hi)
    ensures CancellationsGenuine(LatestById(logs), chain, last)
  {
    hide LogsBetween, LogsIn, StorageAfter, LatestById;
    forall id | id in LatestById(logs)
      ensures Ends(LatestById(logs)[id], id) && LatestById(logs)[id] in LogsBetween(chain, 0, last + 1)
    {
      LatestByIdSound(logs, id);
      CancellationFound(chain, lo, hi, last, logs, LatestById(logs)[id]);
    }
  }

  lemma CancellationFound(chain: seq<Block>, lo: nat, hi: nat, last: nat, logs: seq<Log>, l: Log)
    requires hi <= last < |chain| && logs == LogsIn(EventLogs(chain, IsCancelledOffer), lo, hi) && l in logs
    ensures l.event.OfferCancelled? && l in LogsBetween(chain, 0, last + 1)
  {
    hide LogsBetween, LogsIn, StorageAfter;
    ScanOfKind(chain, IsCancelledOffer, lo, hi + 1, l);
    InWholeRange(chain, lo, hi + 1, l);
    EarlierLogsStay(chain, hi, last, l);
  }

  lemma InWholeRange(chain: seq<Block>, lo: nat, hi: nat, l: Log)
    requires hi <= |chain| && l in LogsBetween(chain, lo, hi)
    ensures l in LogsBetween(chain, 0, hi)
  {
    if lo <= hi {
      LogsInPart(chain, 0, lo, hi, l);
    }
  }

  /** The scan found the ends these logs tell of. */
  ghost predicate ScanIs(scan: Scan, logs: seq<Log>) {
    Holds(scan.accepted, logs, IsAcceptedOffer) && Holds(scan.cancelled, logs, IsCancelledOffer)
  }

  /** The row was written from what the scan found. */
  ghost predicate WrittenAs(rows: map<nat, Row>, chain: seq<Block>, run: Run, scan: Scan, id: nat)
    requires run.last < |chain|
  {
    && run.rowReadAt(id) <= run.last && OfferAt(chain, run.rowReadAt(id), id).Some? && Logged(scan.accepted)
    && Lookup(rows, id) == Some(RowOf(OfferAt(chain, run.rowReadAt(id), id).value, Lookup(scan.accepted, id),
                                      Lookup(scan.cancelled, id), run.now))
  }

  /** The row tells the end its offer has in these logs; without one it shows the offer as read. */
  ghost predicate Reports(row: Row, o: Offer, logs: seq<Log>, id: nat, now: nat) {
    && row.updatedAt == now
    && row.columns.collection == o.nft && row.columns.tokenId == o.tokenId && row.columns.buyer == o.buyer
    && row.columns.paymentToken == o.paymentToken && row.columns.quantity == o.quantity && row.columns.price == o.price
    && row.columns.expiresAtRaw == Print(o.expiresAt, 10)
    && (forall l | l in logs && l.event.OfferAccepted? && l.event.id == id ::
          row.status == Accepted && !row.active && row.acceptedTx == Some(l.tx) &&
          row.acceptedSeller == Some(l.event.seller) && row.cancelledTx == None)
    && (forall l | l in logs && l.event.OfferCancelled? && l.event.id == id ::
          row.status == CancelledOffer && !row.active && row.cancelledTx == Some(l.tx) &&
          row.acceptedTx == None && row.acceptedSeller == None)
    && ((forall l | l in logs && l.event.id == id :: !l.event.OfferAccepted? && !l.event.OfferCancelled?) ==>
          && row.acceptedTx == None && row.acceptedSeller == None && row.cancelledTx == None
          && match row.status
             case Active => row.active && o.active && now < o.expiresAt
             case Expired => !row.active && (o.expiresAt <= now || LexLe(row.columns.expiresAtRaw, Print(now, 10)))
             case Inactive => !row.active && !o.active && now < o.expiresAt
             case _ => false)
  }

  /** A rescan rewrites the row of every offer, an event-driven run those of the offers mentioned since
      the checkpoint. */
  ghost predicate ReportDue(chain: seq<Block>, run: Run, since: Option<nat>, id: nat)
    requires run.head < |chain| && run.countReadAt < |chain|
  {
    if since.None? then id < |StorageAt(chain, run.countReadAt).offers| else Mentioned(chain, since.value + 1, run.head + 1, id)
  }

  /** The row tells what the logs of the range say. */
  ghost predicate RowReports(rows: map<nat, Row>, chain: seq<Block>, run: Run, lo: nat, hi: nat, id: nat)
    requires run.last < |chain| && hi < |chain|
  {
    && id in rows && run.rowReadAt(id) <= run.last && OfferAt(chain, run.rowReadAt(id), id).Some?
    && Reports(rows[id], OfferAt(chain, run.rowReadAt(id), id).value, LogsBetween(chain, lo, hi + 1), id, run.now)
  }

  lemma AllReport(written: map<nat, Row>, rows: map<nat, Row>, chain: seq<Block>, run: Run, scan: Scan, lo: nat, hi: nat,
                  ids: set<nat>, since: Option<nat>)
    requires hi <= run.last < |chain| && run.head < |chain| && run.countReadAt < |chain|
    requires ScanIs(scan, LogsBetween(chain, lo, hi + 1))
    requires forall id | id in ids :: WrittenAs(written, chain, run, scan, id)
    requires rows == written || forall id: nat :: Lookup(rows, id) == SweptAt(written, id, run.now)
    requires forall id: nat | ReportDue(chain, run, since, id) :: id in ids
    ensures forall id: nat | ReportDue(chain, run, since, id) :: RowReports(rows, chain, run, lo, hi, id)
  {
    hide LogsBetween, StorageAfter, Reports, Swept, ScanIs, RowOf, ReportDue;
    forall id: nat | ReportDue(chain, run, since, id)
      ensures RowReports(rows, chain, run, lo, hi, id)
    {
      WrittenReports(written, chain, run, scan, LogsBetween(chain, lo, hi + 1), lo, hi, id);
      assert Lookup(rows, id) == Lookup(written, id) || Lookup(rows, id) == SweptAt(written, id, run.now);
    }
  }

  /** What a reported row shows: the terms of the offer, and the end the scanned logs tell of. Without
      such an end the status is the offer's own as read, judged at the run's time. */
  lemma RowReportsMeans(rows: map<nat, Row>, chain: seq<Block>, run: Run, lo: nat, hi: nat, id: nat)
    requires hi <= run.last < |chain| && RowReports(rows, chain, run, lo, hi, id)
    ensures id in rows && run.rowReadAt(id) <= run.last
    ensures id < |StorageAt(chain, run.rowReadAt(id)).offers| <= |StorageAt(chain, run.last).offers|
    ensures var row, offer := rows[id], StorageAt(chain, run.last).offers[id];
      && row.updatedAt == run.now && row.columns.collection == offer.nft && row.columns.tokenId == offer.tokenId
      && row.columns.buyer == offer.buyer && row.columns.paymentToken == offer.paymentToken
      && row.columns.quantity == offer.quantity && row.columns.price == offer.price
      && Parse(row.columns.expiresAtRaw, 10) == offer.expiresAt
    ensures var logs, row := LogsBetween(chain, lo, hi + 1), rows[id];
      && (forall l | l in logs && l.event.OfferAccepted? && l.event.id == id ::
            row.status == Accepted && !row.active && row.acceptedTx == Some(l.tx) &&
            row.acceptedSeller == Some(l.event.seller) && row.cancelledTx == None)
      && (forall l | l in logs && l.event.OfferCancelled? && l.event.id == id ::
            row.status == CancelledOffer && !row.active && row.cancelledTx == Some(l.tx) &&
            row.acceptedTx == None && row.acceptedSeller == None)
    ensures var logs, row, read := LogsBetween(chain, lo, hi + 1), rows[id], StorageAt(chain, run.rowReadAt(id)).offers[id];
      (forall l | l in logs && l.event.id == id :: !l.event.OfferAccepted? && !l.event.OfferCancelled?) &&
      SweepAgrees(read.expiresAt, run.now) ==>
        && row.acceptedTx == None && row.acceptedSeller == None && row.cancelledTx == None
        && (row.status == Expired <==> read.expiresAt <= run.now)
        && (row.status == Active <==> read.active && run.now < read.expiresAt)
        && (row.status == Inactive <==> !read.active && run.now < read.expiresAt)
        && (row.active <==> row.status == Active)
  {
    hide LogsBetween, StorageAfter, LexLe, Parse, Print;
    TermsNeverChange(chain, run.rowReadAt(id), run.last);
    ParsePrint(StorageAt(chain, run.last).offers[id].expiresAt, 10);
  }

  lemma DueInRescan(chain: seq<Block>, run: Run, count: nat)
    requires run.head < |chain| && run.countReadAt < |chain| && count == |StorageAt(chain, run.countReadAt).offers|
    ensures forall id: nat :: ReportDue(chain, run, None, id) <==> id in Below(count)
  {
    hide StorageAfter;
  }

  lemma NothingToReport(chain: seq<Block>, lo: nat, hi: nat)
    requires hi < lo && hi < |chain|
    ensures ScanIs(Scan({}, map[], map[]), LogsBetween(chain, lo, hi + 1))
  {}

  lemma WrittenStays(before: map<nat, Row>, rows: map<nat, Row>, chain: seq<Block>, run: Run, scan: Scan, ids: set<nat>, id: nat)
    requires run.last < |chain| && id !in ids && (forall i | i in ids :: WrittenAs(before, chain, run, scan, i))
    requires forall i: nat | i != id :: Lookup(rows, i) == Lookup(before, i)
    ensures forall i | i in ids :: WrittenAs(rows, chain, run, scan, i)
  {
    hide StorageAfter, RowOf;
  }

  lemma WrittenReports(rows: map<nat, Row>, chain: seq<Block>, run: Run, scan: Scan, logs: seq<Log>, lo: nat, hi: nat, id: nat)
    requires hi <= run.last < |chain| && WrittenAs(rows, chain, run, scan, id)
    requires logs == LogsBetween(chain, lo, hi + 1) && ScanIs(scan, logs)
    ensures Reports(rows[id], OfferAt(chain, run.rowReadAt(id), id).value, logs, id, run.now)
    ensures Reports(Swept(rows[id], run.now), OfferAt(chain, run.rowReadAt(id), id).value, logs, id, run.now)
  {
    hide LogsBetween, StorageAfter, LexLe, Print, OfferAt;
    if id in scan.accepted && id in scan.cancelled {
      assert Lookup(scan.accepted, id) == Some(scan.accepted[id]) && Lookup(scan.cancelled, id) == Some(scan.cancelled[id]);
      InWholeRange(chain, lo, hi + 1, scan.accepted[id]);
      InWholeRange(chain, lo, hi + 1, scan.cancelled[id]);
      OneEnd(chain, hi, id, scan.accepted[id], scan.cancelled[id]);
    }
    forall l | l in logs && l.event.OfferAccepted? && l.event.id == id
      ensures Lookup(scan.accepted, id) == Some(l)
    {}
    forall l | l in logs && l.event.OfferCancelled? && l.event.id == id
      ensures Lookup(scan.cancelled, id) == Some(l)
    {}
  }

  /** Both scans of a full rescan, from the start block to wherever the chain has got to. */
  method ScanAll(chain: seq<Block>, run: Run, startBlock: nat, ghost seen: nat) returns (scan: Option<Scan>)
    requires Ordered(run, chain, seen) && StartsEarlyEnough(chain, startBlock)
    ensures scan.Some? ==> Logged(scan.value.accepted)
    ensures scan.Some? ==> forall id: nat, l :: AcceptedBy(chain, run.scanHead, id, l) <==> Lookup(scan.value.accepted, id) == Some(l)
    ensures scan.Some? ==> CancellationsGenuine(scan.value.cancelled, chain, run.last)
    ensures scan.Some? ==> ScanIs(scan.value, LogsBetween(chain, startBlock, run.scanHead + 1))
    ensures ScansSurvive(run) ==> scan.Some?
  {
    hide LogsBetween, LogsIn, StorageAfter, LatestById, CancellationsGenuine, Holds, Survivable;
    var cancelled, cancelledTrace := GetLogsChunked(EventLogs(chain, IsCancelledOffer), startBlock, None, run.scanHead,
                                                    LOG_CHUNK_SIZE, run.refuses, run.calmFrom);
    var accepted, acceptedTrace := GetLogsChunked(EventLogs(chain, IsAcceptedOffer), startBlock, None, run.scanHead,
                                                  LOG_CHUNK_SIZE, run.refuses, run.calmFrom);
    if cancelled.Err? || accepted.Err? {
      return None;
    }
    ScanFindsAcceptances(chain, startBlock, run.scanHead, accepted.logs);
    CancellationsFound(chain, startBlock, run.scanHead, run.last, cancelled.logs);
    ScanHolds(chain, IsCancelledOffer, startBlock, run.scanHead, cancelled.logs);
    ScanHolds(chain, IsAcceptedOffer, startBlock, run.scanHead, accepted.logs);
    return Some(Scan({}, LatestById(accepted.logs), LatestById(cancelled.logs)));
  }

  /** The last acceptance of each id in a scan is an acceptance in its range, and none is missed. */
  lemma ScanMembers(chain: seq<Block>, lo: nat, head: nat, logs: seq<Log>)
    requires head < |chain| && logs == LogsIn(EventLogs(chain, IsAcceptedOffer), lo, head)
    ensures Logged(LatestById(logs))
    ensures forall id | id in LatestById(logs) :: LatestById(logs)[id] in LogsBetween(chain, lo, head + 1)
    ensures forall l :: l in LogsBetween(chain, lo, head + 1) && l.event.OfferAccepted? ==> l.event.id in LatestById(logs)
  {
    hide LogsBetween, LogsIn, StorageAfter, LatestById;
    forall id | id in LatestById(logs)
      ensures Accepts(LatestById(logs)[id], id) && LatestById(logs)[id] in LogsBetween(chain, lo, head + 1)
    {
      LatestByIdSound(logs, id);
      ScanOfKind(chain, IsAcceptedOffer, lo, head + 1, LatestById(logs)[id]);
    }
    forall l | l in LogsBetween(chain, lo, head + 1) && l.event.OfferAccepted?
      ensures l.event.id in LatestById(logs)
    {
      ScanOfKind(chain, IsAcceptedOffer, lo, head + 1, l);
      LatestByIdSound(logs, l.event.id);
    }
  }

  lemma ScanFindsAcceptances(chain: seq<Block>, startBlock: nat, scanHead: nat, logs: seq<Log>)
    requires scanHead < |chain| && StartsEarlyEnough(chain, startBlock)
    requires logs == LogsIn(EventLogs(chain, IsAcceptedOffer), startBlock, scanHead)
    ensures Logged(LatestById(logs))
    ensures forall id: nat, l :: AcceptedBy(chain, scanHead, id, l) <==> Lookup(LatestById(logs), id) == Some(l)
  {
    hide LogsBetween, LogsIn, StorageAfter, LatestById;
    ScanMembers(chain, startBlock, scanHead, logs);
    RangeFromStart(chain, startBlock, scanHead + 1);
    forall id: nat, l
      ensures AcceptedBy(chain, scanHead, id, l) <==> Lookup(LatestById(logs), id) == Some(l)
    {
      if AcceptedBy(chain, scanHead, id, l) {
        AcceptanceIsUnique(chain, scanHead, id, l, LatestById(logs)[id]);
      }
    }
  }

  lemma RangeFromStart(chain: seq<Block>, startBlock: nat, hi: nat)
    requires hi <= |chain| && StartsEarlyEnough(chain, startBlock)
    ensures forall l: Log :: l.event.OfferAccepted? ==>
              (l in LogsBetween(chain, 0, hi) <==> l in LogsBetween(chain, startBlock, hi))
  {
    if startBlock <= hi {
      hide LogsBetween;
      SplitRange(chain, startBlock, hi);
    } else {
      assert LogsBetween(chain, startBlock, hi) == [];
      PrefixOfRange(chain, hi, startBlock);
    }
  }

  lemma PrefixOfRange(chain: seq<Block>, mid: nat, hi: nat)
    requires mid <= hi <= |chain|
    ensures forall l :: l in LogsBetween(chain, 0, mid) ==> l in LogsBetween(chain, 0, hi)
  {
    hide LogsBetween;
    SplitRange(chain, mid, hi);
  }

  /** The three scans of an event-driven sync. */
  method ScanSince(chain: seq<Block>, run: Run, c: nat, ghost seen: nat) returns (scan: Option<Scan>)
    requires Ordered(run, chain, seen) && c < run.head && c <= seen
    ensures scan.Some? ==> Logged(scan.value.accepted)
    ensures scan.Some? ==> forall id | id in scan.value.affected :: id < |StorageAt(chain, run.head).offers|
    ensures scan.Some? ==> forall id: nat :: id in scan.value.affected <==> Mentioned(chain, c + 1, run.head + 1, id)
    ensures scan.Some? ==> forall id | id in scan.value.accepted :: !AcceptedBy(chain, c, id, scan.value.accepted[id])
    ensures scan.Some? ==> CancellationsGenuine(scan.value.cancelled, chain, run.last)
    ensures scan.Some? ==> ScanIs(scan.value, LogsBetween(chain, c + 1, run.head + 1))
    ensures scan.Some? ==> forall id | id in scan.value.affected ::
              Faithful(Lookup(scan.value.accepted, id), chain, seen, run.last, id)
    ensures scan.Some? ==> forall id: nat, l ::
              AcceptedBy(chain, run.head, id, l) && !AcceptedBy(chain, c, id, l) ==>
                id in scan.value.affected && Lookup(scan.value.accepted, id) == Some(l)
    ensures ScansSurvive(run) ==> scan.Some?
  {
    hide LogsBetween, LogsIn, StorageAfter, LatestById, CancellationsGenuine, Holds, Survivable;
    var created, createdTrace := GetLogsChunked(EventLogs(chain, IsCreatedOffer), c + 1, Some(run.head), run.head,
                                                LOG_CHUNK_SIZE, run.refuses, run.calmFrom);
    var cancelled, cancelledTrace := GetLogsChunked(EventLogs(chain, IsCancelledOffer), c + 1, Some(run.head), run.head,
                                                    LOG_CHUNK_SIZE, run.refuses, run.calmFrom);
    var accepted, acceptedTrace := GetLogsChunked(EventLogs(chain, IsAcceptedOffer), c + 1, Some(run.head), run.head,
                                                  LOG_CHUNK_SIZE, run.refuses, run.calmFrom);
    if created.Err? || cancelled.Err? || accepted.Err? {
      return None;
    }
    var affected := AboutIds(created.logs) + AboutIds(cancelled.logs) + AboutIds(accepted.logs);
    AffectedAreMentioned(chain, c + 1, run.head + 1, created.logs, cancelled.logs, accepted.logs);
    CancellationsFound(chain, c + 1, run.head, run.last, cancelled.logs);
    ScanHolds(chain, IsCancelledOffer, c + 1, run.head, cancelled.logs);
    ScanHolds(chain, IsAcceptedOffer, c + 1, run.head, accepted.logs);
    ScanMembers(chain, c + 1, run.head, accepted.logs);
    forall id | id in affected
      ensures id < |StorageAt(chain, run.head).offers|
      ensures Faithful(Lookup(LatestById(accepted.logs), id), chain, seen, run.last, id)
    {
      AffectedIsFaithful(chain, run, c, seen, id, LatestById(accepted.logs));
    }
    forall id: nat, l | AcceptedBy(chain, run.head, id, l) && !AcceptedBy(chain, c, id, l)
      ensures id in affected && Lookup(LatestById(accepted.logs), id) == Some(l)
    {
      SplitRange(chain, c + 1, run.head + 1);
      ScanOfKind(chain, IsAcceptedOffer, c + 1, run.head + 1, l);
      AcceptanceIsUnique(chain, run.head, id, l, LatestById(accepted.logs)[id]);
    }
    forall id | id in LatestById(accepted.logs)
      ensures !AcceptedBy(chain, c, id, LatestById(accepted.logs)[id])
    {
      if AcceptedBy(chain, c, id, LatestById(accepted.logs)[id]) {
        NothingAfterAcceptance(chain, c, run.head, id, LatestById(accepted.logs)[id]);
      }
    }
    return Some(Scan(affected, LatestById(accepted.logs), LatestById(cancelled.logs)));
  }

  /** The three scans together find every offer the logs mention, and no other. */
  lemma AffectedAreMentioned(chain: seq<Block>, lo: nat, hi: nat, created: seq<Log>, cancelled: seq<Log>, accepted: seq<Log>)
    requires hi <= |chain| && created == LogsIn(EventLogs(chain, IsCreatedOffer), lo, hi - 1)
    requires cancelled == LogsIn(EventLogs(chain, IsCancelledOffer), lo, hi - 1)
    requires accepted == LogsIn(EventLogs(chain, IsAcceptedOffer), lo, hi - 1)
    ensures forall id: nat :: id in AboutIds(created) + AboutIds(cancelled) + AboutIds(accepted) <==> Mentioned(chain, lo, hi, id)
  {
    hide LogsBetween, LogsIn, StorageAfter;
    forall m
      ensures m in created || m in cancelled || m in accepted <==>
              m in LogsBetween(chain, lo, hi) && (m.event.OfferCreated? || m.event.OfferCancelled? || m.event.OfferAccepted?)
    {
      ScanOfKind(chain, IsCreatedOffer, lo, hi, m);
      ScanOfKind(chain, IsCancelledOffer, lo, hi, m);
      ScanOfKind(chain, IsAcceptedOffer, lo, hi, m);
    }
    forall id: nat
      ensures id in AboutIds(created) + AboutIds(cancelled) + AboutIds(accepted) <==> Mentioned(chain, lo, hi, id)
    {
      if id in AboutIds(created) + AboutIds(cancelled) + AboutIds(accepted) {
        var m :| (m in created || m in cancelled || m in accepted) && m.event.id == id;
        assert m in LogsBetween(chain, lo, hi) && IsAboutOffer(m.event, id);
      }
      if Mentioned(chain, lo, hi, id) {
        var m :| m in LogsBetween(chain, lo, hi) && IsAboutOffer(m.event, id);
        assert m in created || m in cancelled || m in accepted;
      }
    }
  }

  lemma AffectedIsFaithful(chain: seq<Block>, run: Run, c: nat, seen: nat, id: nat, accepted: map<nat, Log>)
    requires Ordered(run, chain, seen) && c < run.head && c <= seen
    requires Mentioned(chain, c + 1, run.head + 1, id)
    requires Logged(accepted) && forall i | i in accepted :: accepted[i] in LogsBetween(chain, c + 1, run.head + 1)
    requires forall l :: l in LogsBetween(chain, c + 1, run.head + 1) && l.event.OfferAccepted? ==> l.event.id in accepted
    ensures id < |StorageAt(chain, run.head).offers|
    ensures Faithful(Lookup(accepted, id), chain, seen, run.last, id)
  {
    hide LogsBetween, LogsIn, StorageAfter;
    SplitRange(chain, c + 1, run.head + 1);
    var m :| m in LogsBetween(chain, c + 1, run.head + 1) && IsAboutOffer(m.event, id);
    MentionedOfferExists(chain, run.head, run.head, id, m);
    if id in accepted {
      EarlierLogsStay(chain, run.head, run.last, accepted[id]);
    } else {
      forall l
        ensures !AcceptedBy(chain, seen, id, l)
      {
        if AcceptedBy(chain, seen, id, l) {
          EarlierLogsStay(chain, seen, run.head, l);
          if l in LogsBetween(chain, 0, c + 1) {
            NothingAfterAcceptance(chain, c, run.head, id, l);
          }
        }
      }
    }
  }

  class OfferMirror {
    var rows: map<nat, Row>
    var checkpoint: Option<nat>
    var settled: seq<Settlement>
    var history: seq<Happening>

    constructor ()
      ensures rows == map[] && checkpoint == None && settled == [] && history == []
    {
      rows, checkpoint, settled, history := map[], None, [], [];
    }

    ghost predicate Valid(chain: seq<Block>, seen: nat)
      reads this
    {
      seen < |chain| && Accountable(rows, settled, history, chain, seen) && AllSettledFrom(settled, chain, seen) &&
      (checkpoint.Some? ==> checkpoint.value <= seen)
    }

    method ExpireOffers(now: nat, ghost chain: seq<Block>, ghost seen: nat)
      requires Valid(chain, seen)
      modifies this`rows
      ensures Valid(chain, seen)
      ensures forall id: nat :: Lookup(rows, id) == SweptAt(old(rows), id, now)
      ensures rows.Keys == old(rows).Keys
      ensures forall id | id in rows ::
                var row, before := rows[id], old(rows)[id];
                if before.active && LexLe(before.columns.expiresAtRaw, Print(now, 10)) then
                  && row.columns == before.columns && row.acceptedTx == before.acceptedTx
                  && row.acceptedSeller == before.acceptedSeller && row.cancelledTx == before.cancelledTx
                  && !row.active && row.status == Expired && row.updatedAt == now
                else row == before
    {
      hide LogsBetween, LexLe, Times, StorageAfter, Holding, Settlements, AllSettledFrom, Parse;
      ghost var before := rows;
      rows := map id | id in rows :: Swept(rows[id], now);
      forall id: nat
        ensures AccountableFor(rows, settled, history, chain, seen, id)
      {
        assert AccountableFor(before, settled, history, chain, seen, id);
        assert StoredTx(rows, id) == StoredTx(before, id);
      }
    }

    /** Retention drops the inactive rows not updated for so many days, and with them the stored
        hashes; a row that holds a hash goes exactly when it is old enough. */
    method Prune(now: nat, retentionDays: nat, ghost chain: seq<Block>, ghost seen: nat)
      requires Valid(chain, seen)
      modifies this`rows, this`history
      ensures Valid(chain, seen)
      ensures history == old(history) + [Dropped(old(rows).Keys - rows.Keys)]
      ensures forall id: nat ::
                Lookup(rows, id) == if id in old(rows) && retentionDays > 0 && !old(rows)[id].active &&
                                       old(rows)[id].updatedAt + retentionDays * 86400 < now
                                    then None else Lookup(old(rows), id)
      ensures forall id: nat | StoredTx(old(rows), id).Some? ::
                Drops(history[|old(history)|], id) <==>
                retentionDays > 0 && old(rows)[id].updatedAt + retentionDays * SECONDS_PER_DAY < now
    {
      hide LogsBetween, Times, StorageAfter, Holding, Settlements, AllSettledFrom, Copied;
      ghost var before, historyBefore := rows, history;
      var gone := set id | id in rows && IsOutdated(rows[id], now, retentionDays);
      rows := rows - gone;
      assert gone == before.Keys - rows.Keys;
      history := history + [Dropped(gone)];
      forall id: nat
        ensures AccountableFor(rows, settled, history, chain, seen, id)
        ensures StoredTx(before, id).Some? ==> !before[id].active
      {
        assert AccountableFor(before, settled, historyBefore, chain, seen, id);
        SettlementsSnoc(historyBefore, Dropped(gone), id);
      }
    }

    /** One row step: look up the stored hash, store the new row, then settle if the hash is new.
        The process may die before the row is stored or before the settlement. */
    method PutRow(chain: seq<Block>, run: Run, id: nat, accepted: Option<Log>, cancelled: Option<Log>, steps: nat)
      returns (alive: bool, stepsLeft: nat)
      requires run.rowReadAt(id) <= run.last < |chain| && OfferAt(chain, run.rowReadAt(id), id).Some?
      requires Valid(chain, run.last)
      requires accepted.Some? ==> AcceptedBy(chain, run.last, id, accepted.value)
      requires accepted.None? ==> StoredTx(rows, id).None?
      modifies this`rows, this`settled, this`history
      ensures Valid(chain, run.last)
      ensures forall i: nat | i != id :: Lookup(rows, i) == Lookup(old(rows), i)
      ensures var row := RowOf(OfferAt(chain, run.rowReadAt(id), id).value, accepted, cancelled, run.now);
        if alive then
          && rows == old(rows)[id := row]
          && settled == old(settled) + (if Settles(old(rows), id, accepted)
                                        then [SettlementOf(accepted.value, OfferAt(chain, run.rowReadAt(id), id).value)] else [])
          && history == old(history) + Adds(id, accepted, false)
        else
          && settled == old(settled)
          && ((rows == old(rows) && history == old(history)) ||
              (rows == old(rows)[id := row] && Settles(old(rows), id, accepted) && history == old(history) + Adds(id, accepted, true)))
      ensures steps >= 2 ==> alive && stepsLeft >= steps - 2
    {
      hide StorageAfter, LogsBetween, Times, Holding, Settlements, SettledFrom, Print;
      if steps == 0 {
        return false, 0;
      }
      var offer := OfferAt(chain, run.rowReadAt(id), id).value;
      RowIsCopied(chain, run.rowReadAt(id), run.last, id, accepted, cancelled, run.now);
      var previous := StoredTx(rows, id);
      var row := RowOf(offer, accepted, cancelled, run.now);
      var settles := accepted.Some? && previous != Some(accepted.value.tx);
      ghost var settlement := if settles then SettlementOf(accepted.value, offer) else Settlement(id, 0, 0, Erc721, 0, 0, 0);
      RowStepKeeps(rows, settled, history, chain, run.last, id, row, accepted, settlement, settles && steps == 1);
      rows := rows[id := row];
      history := history + Adds(id, accepted, settles && steps == 1);
      if !settles {
        return true, steps - 1;
      }
      if steps == 1 {
        return false, 0;
      }
      NewIsSettledFrom(chain, run.rowReadAt(id), run.last, id, accepted.value);
      settled := settled + [SettlementOf(accepted.value, offer)];
      return true, steps - 2;
    }

    /** The row step of one more offer of a sync. */
    method TakeStep(chain: seq<Block>, run: Run, scan: Scan, id: nat, steps: nat, ghost ids: set<nat>, ghost taken: set<nat>,
                    ghost seen: nat, ghost since: Option<nat>, ghost before: map<nat, Row>, ghost settledBefore: seq<Settlement>,
                    ghost historyBefore: seq<Happening>)
      returns (alive: bool, stepsLeft: nat)
      requires Ordered(run, chain, seen) && Valid(chain, run.last) && ScanGood(scan, chain, run, seen, since, ids)
      requires Accountable(before, settledBefore, historyBefore, chain, seen) && id in ids && id !in taken
      requires InProgress(before, historyBefore, rows, history, taken, scan, chain, run, since)
      modifies this`rows, this`settled, this`history
      ensures Valid(chain, run.last)
      ensures alive ==> InProgress(before, historyBefore, rows, history, taken + {id}, scan, chain, run, since)
      ensures !alive ==> CutOff(before, historyBefore, rows, history, chain, run, since)
      ensures alive ==> WrittenAs(rows, chain, run, scan, id)
      ensures forall i: nat | i != id :: Lookup(rows, i) == Lookup(old(rows), i)
      ensures steps >= 2 ==> alive && stepsLeft >= steps - 2
    {
      hide StorageAfter, LogsBetween, Times, Accountable, AllSettledFrom, AcceptedBy, StoredTx, Progress, RunAdds, Wrote, RowFate,
           RowOf, Settles, Adds,
           Genuine;
      var accepted, cancelled := Lookup(scan.accepted, id), Lookup(scan.cancelled, id);
      NotYetStored(before, settledBefore, historyBefore, rows, chain, run, seen, taken, id, accepted, cancelled, scan, since, ids);
      ghost var rowsNow, historyNow := rows, history;
      ghost var added := history[|historyBefore|..];
      alive, stepsLeft := PutRow(chain, run, id, accepted, cancelled, steps);
      ProgressStep(added, taken, scan.accepted, chain, run.last, since, id, !alive);
      if alive {
        WroteOne(before, rowsNow, chain, run, taken, id, accepted, cancelled);
        Longer(historyBefore, historyNow, Adds(id, accepted, false));
      } else {
        CutAdds(historyBefore, added, history, Adds(id, accepted, true), chain, run.last, since, taken, scan.accepted);
        CutFates(before, rowsNow, rows, chain, run, taken, id, accepted, cancelled);
      }
    }

    /** The row steps of a sync, in any order. */
    method PutRows(chain: seq<Block>, run: Run, ids: set<nat>, scan: Scan, ghost seen: nat, ghost since: Option<nat>)
      returns (alive: bool, stepsLeft: nat)
      requires Ordered(run, chain, seen) && Valid(chain, seen) && ScanGood(scan, chain, run, seen, since, ids)
      requires since.Some? ==> since.value < |chain|
      modifies this`rows, this`settled, this`history
      ensures Valid(chain, run.last)
      ensures CutOff(old(rows), old(history), rows, history, chain, run, since)
      ensures alive ==> InProgress(old(rows), old(history), rows, history, ids, scan, chain, run, since)
      ensures alive ==> forall id | id in ids :: WrittenAs(rows, chain, run, scan, id)
      ensures run.steps >= 2 * |ids| ==> alive && stepsLeft >= run.steps - 2 * |ids|
    {
      hide StorageAfter, LogsBetween, Accountable, AllSettledFrom, InProgress, CutOff, ScanGood, WrittenAs;
      stepsLeft := run.steps;
      var pending := ids;
      AccountableLater(rows, settled, history, chain, seen, run.last);
      SettledFromLater(settled, chain, seen, run.last);
      ghost var before, settledBefore, historyBefore := rows, settled, history;
      NothingDone(before, historyBefore, scan, chain, run, seen, since, ids);
      assert ids - pending == {};
      while pending != {}
        invariant pending <= ids && Valid(chain, run.last)
        invariant run.steps >= 2 * |ids| ==> stepsLeft + 2 * |ids| >= run.steps + 2 * |pending|
        invariant InProgress(before, historyBefore, rows, history, ids - pending, scan, chain, run, since)
        invariant forall id | id in ids - pending :: WrittenAs(rows, chain, run, scan, id)
      {
        var id :| id in pending;
        ghost var rowsNow := rows;
        alive, stepsLeft := TakeStep(chain, run, scan, id, stepsLeft, ids, ids - pending, seen, since, before, settledBefore,
                                     historyBefore);
        if !alive {
          return;
        }
        WrittenStays(rowsNow, rows, chain, run, scan, ids - pending, id);
        assert ids - (pending - {id}) == ids - pending + {id};
        pending := pending - {id};
      }
      alive := true;
      assert ids - pending == ids;
      DoneIsCutOff(before, historyBefore, rows, history, ids, scan, chain, run, seen, since, ids);
    }

    /** Rescan every offer. */
    method FullSync(chain: seq<Block>, run: Run, startBlock: nat, ghost seen: nat) returns (done: bool)
      requires Ordered(run, chain, seen) && StartsEarlyEnough(chain, startBlock) && Valid(chain, seen)
      modifies this
      ensures Valid(chain, run.last) && CutOff(old(rows), old(history), rows, history, chain, run, None)
      ensures checkpoint == if done then Some(run.head) else old(checkpoint)
      ensures done ==> Completed(old(rows), rows, chain, run, None) && Covers(history[|old(history)|..], chain, run, None)
      ensures done ==> forall id: nat | ReportDue(chain, run, None, id) :: RowReports(rows, chain, run, startBlock, run.scanHead, id)
      ensures Undisturbed(run, chain) ==> done
    {
      hide StorageAfter, LogsBetween, Accountable, AllSettledFrom, InProgress, CutOff, Completed, Covers, ScanIs, WrittenAs,
           RowReports, Visible, ReportDue,
           ScansSurvive, StartsEarlyEnough, ScanGood, CalmAfter, AcceptedBy, CancellationsGenuine, Logged;
      var count := |StorageAt(chain, run.countReadAt).offers|;
      AccountableLater(rows, settled, history, chain, seen, run.last);
      SettledFromLater(settled, chain, seen, run.last);
      ghost var before, historyBefore := rows, history;
      if count == 0 {
        NothingToDo(before, history, chain, run, seen);
        DueInRescan(chain, run, count);
        if run.steps == 0 {
          return false;
        }
        checkpoint := Some(run.head);
        return true;
      }
      var scan := ScanAll(chain, run, startBlock, seen);
      if scan.None? {
        UntouchedIsCutOff(before, history, chain, run, seen, None);
        return false;
      }
      ScanAllGood(scan.value, chain, run, seen, count);
      var alive, steps := PutRows(chain, run, Below(count), scan.value, seen, None);
      if !alive || steps == 0 {
        return false;
      }
      RescanCompletes(before, historyBefore, rows, history, scan.value, chain, run, seen);
      DueInRescan(chain, run, count);
      AllReport(rows, rows, chain, run, scan.value, startBlock, run.scanHead, Below(count), None);
      checkpoint := Some(run.head);
      return true;
    }

    /** Update from the events since the checkpoint, or rescan when forced or without a checkpoint. */
    method SyncOffers(chain: seq<Block>, run: Run, force: bool, startBlock: nat, ghost seen: nat)
      returns (done: bool, since: Option<nat>)
      requires Ordered(run, chain, seen) && StartsEarlyEnough(chain, startBlock) && Valid(chain, seen)
      modifies this
      ensures since == if force then None else old(checkpoint)
      ensures Valid(chain, run.last) && CutOff(old(rows), old(history), rows, history, chain, run, since)
      ensures checkpoint == if done then Some(run.head) else old(checkpoint)
      ensures done ==> Completed(old(rows), rows, chain, run, since) && Covers(history[|old(history)|..], chain, run, since)
      ensures done ==>
                var lo, hi := if since.None? then startBlock else since.value + 1, if since.None? then run.scanHead else run.head;
                forall id: nat | ReportDue(chain, run, since, id) :: RowReports(rows, chain, run, lo, hi, id)
      ensures Undisturbed(run, chain) ==> done
    {
      hide StorageAfter, LogsBetween, Accountable, AllSettledFrom, InProgress, CutOff, Completed, Covers, ScanGood, ScanIs, WrittenAs,
           RowReports;
      since := if force then None else checkpoint;
      if since.None? {
        done := FullSync(chain, run, startBlock, seen);
        return;
      }
      var c := since.value;
      AccountableLater(rows, settled, history, chain, seen, run.last);
      SettledFromLater(settled, chain, seen, run.last);
      ghost var before, historyBefore := rows, history;
      var steps := run.steps;
      ghost var affected, found := {}, Scan({}, map[], map[]);
      if c + 1 > run.head {
        NothingSince(before, historyBefore, chain, run, seen, c, affected);
        NothingToReport(chain, c + 1, run.head);
      } else {
        var scan := ScanSince(chain, run, c, seen);
        if scan.None? {
          UntouchedIsCutOff(before, history, chain, run, seen, since);
          return false, since;
        }
        ScanSinceGood(scan.value, chain, run, seen, c);
        affected, found := scan.value.affected, scan.value;
        var alive;
        alive, steps := PutRows(chain, run, scan.value.affected, scan.value, seen, since);
        if !alive {
          return false, since;
        }
      }
      DoneIsCutOff(before, historyBefore, rows, history, affected, found, chain, run, seen, since, affected);
      if steps == 0 {
        return false, since;
      }
      ghost var written := rows;
      ExpireOffers(run.now, chain, run.last);
      SweepIsCutOff(before, historyBefore, written, rows, history, chain, run, since);
      if steps == 1 {
        return false, since;
      }
      UpdateCompletes(before, historyBefore, written, rows, history, affected, found, chain, run, seen, c);
      AllReport(written, rows, chain, run, found, c + 1, run.head, affected, since);
      checkpoint := Some(run.head);
      return true, since;
    }
  }

  /** The scan serves a run for these offers. */
  ghost predicate ScanGood(scan: Scan, chain: seq<Block>, run: Run, seen: nat, since: Option<nat>, ids: set<nat>)
    requires Ordered(run, chain, seen)
  {
    && Logged(scan.accepted) && CancellationsGenuine(scan.cancelled, chain, run.last)
    && (since.Some? ==> since.value < |chain|)
    && (forall id | id in ids :: OfferAt(chain, run.rowReadAt(id), id).Some?)
    && (forall id | id in ids :: Faithful(Lookup(scan.accepted, id), chain, seen, run.last, id))
    && (forall id | id in scan.accepted && since.Some? :: !AcceptedBy(chain, since.value, id, scan.accepted[id]))
  }

  /** The steps of these offers have been taken whole. */
  ghost predicate InProgress(before: map<nat, Row>, historyBefore: seq<Happening>, rows: map<nat, Row>, history: seq<Happening>,
                             taken: set<nat>, scan: Scan, chain: seq<Block>, run: Run, since: Option<nat>)
    requires run.last < |chain| && (since.Some? ==> since.value < |chain|)
  {
    && |historyBefore| <= |history| && history[..|historyBefore|] == historyBefore
    && Progress(history[|historyBefore|..], taken, scan.accepted, chain, run.last, since)
    && Wrote(before, rows, chain, run, taken)
  }

  /** Wherever the process ended. */
  ghost predicate CutOff(before: map<nat, Row>, historyBefore: seq<Happening>, rows: map<nat, Row>, history: seq<Happening>,
                         chain: seq<Block>, run: Run, since: Option<nat>)
    requires run.last < |chain| && (since.Some? ==> since.value < |chain|)
  {
    && |historyBefore| <= |history| && history[..|historyBefore|] == historyBefore
    && RunAdds(history[|historyBefore|..], chain, run.last, since)
    && forall id: nat :: RowFate(before, rows, chain, run, id)
  }

  lemma NothingDone(rows: map<nat, Row>, history: seq<Happening>, scan: Scan, chain: seq<Block>, run: Run, seen: nat,
                    since: Option<nat>, ids: set<nat>)
    requires Ordered(run, chain, seen) && ScanGood(scan, chain, run, seen, since, ids)
    ensures InProgress(rows, history, rows, history, {}, scan, chain, run, since)
  {
    hide Progress, Wrote;
    NoProgress(scan.accepted, rows, chain, run, since);
    assert history[|history|..] == [];
  }

  lemma DoneIsCutOff(before: map<nat, Row>, historyBefore: seq<Happening>, rows: map<nat, Row>, history: seq<Happening>,
                     taken: set<nat>, scan: Scan, chain: seq<Block>, run: Run, seen: nat, since: Option<nat>, ids: set<nat>)
    requires Ordered(run, chain, seen) && ScanGood(scan, chain, run, seen, since, ids)
    requires InProgress(before, historyBefore, rows, history, taken, scan, chain, run, since)
    ensures CutOff(before, historyBefore, rows, history, chain, run, since)
  {
    hide Progress, Wrote, RunAdds, RowFate;
    ProgressAdds(history[|historyBefore|..], taken, scan.accepted, chain, run.last, since);
    WroteFates(before, rows, chain, run, taken);
  }

  lemma Longer(before: seq<Happening>, history: seq<Happening>, more: seq<Happening>)
    requires |before| <= |history| && history[..|before|] == before
    ensures (history + more)[..|before|] == before && (history + more)[|before|..] == history[|before|..] + more
  {}

  lemma NoProgress(accepted: map<nat, Log>, rows: map<nat, Row>, chain: seq<Block>, run: Run, since: Option<nat>)
    requires run.last < |chain| && (since.Some? ==> since.value < |chain|)
    ensures Progress([], {}, accepted, chain, run.last, since) && Wrote(rows, rows, chain, run, {})
  {}

  lemma ProgressAdds(added: seq<Happening>, taken: set<nat>, accepted: map<nat, Log>, chain: seq<Block>, last: nat, since: Option<nat>)
    requires last < |chain| && (since.Some? ==> since.value < |chain|) && Progress(added, taken, accepted, chain, last, since)
    ensures RunAdds(added, chain, last, since)
  {
    hide RunAdds;
  }

  lemma WroteFates(before: map<nat, Row>, rows: map<nat, Row>, chain: seq<Block>, run: Run, ids: set<nat>)
    requires run.last < |chain| && Wrote(before, rows, chain, run, ids)
    ensures forall id: nat :: RowFate(before, rows, chain, run, id)
  {
    hide FreshRow;
  }

  lemma WroteOne(before: map<nat, Row>, rows: map<nat, Row>, chain: seq<Block>, run: Run, ids: set<nat>, id: nat,
                 accepted: Option<Log>, cancelled: Option<Log>)
    requires run.rowReadAt(id) <= run.last < |chain| && Wrote(before, rows, chain, run, ids)
    requires OfferAt(chain, run.rowReadAt(id), id).Some? && Genuine(accepted, cancelled, chain, run.last, id)
    ensures var row := RowOf(OfferAt(chain, run.rowReadAt(id), id).value, accepted, cancelled, run.now);
      Wrote(before, rows[id := row], chain, run, ids + {id})
  {
    hide LexLe;
    var row := RowOf(OfferAt(chain, run.rowReadAt(id), id).value, accepted, cancelled, run.now);
    assert FreshRow(row, chain, run, id);
    hide FreshRow;
  }

  predicate IsOutdated(row: Row, now: nat, retentionDays: nat) {
    retentionDays > 0 && !row.active && row.updatedAt + retentionDays * SECONDS_PER_DAY < now
  }

  lemma UntouchedIsCutOff(rows: map<nat, Row>, history: seq<Happening>, chain: seq<Block>, run: Run, seen: nat, since: Option<nat>)
    requires Ordered(run, chain, seen) && (since.Some? ==> since.value < |chain|)
    ensures CutOff(rows, history, rows, history, chain, run, since)
  {
    assert history[|history|..] == [];
  }

  lemma NothingToDo(rows: map<nat, Row>, history: seq<Happening>, chain: seq<Block>, run: Run, seen: nat)
    requires Ordered(run, chain, seen) && |StorageAt(chain, run.countReadAt).offers| == 0
    ensures CutOff(rows, history, rows, history, chain, run, None)
    ensures Completed(rows, rows, chain, run, None) && Covers(history[|history|..], chain, run, None)
  {
    hide StorageAfter, LogsBetween;
    UntouchedIsCutOff(rows, history, chain, run, seen, None);
    assert history[|history|..] == [];
  }

  lemma ScanAllGood(scan: Scan, chain: seq<Block>, run: Run, seen: nat, count: nat)
    requires Ordered(run, chain, seen) && count == |StorageAt(chain, run.countReadAt).offers|
    requires Logged(scan.accepted) && CancellationsGenuine(scan.cancelled, chain, run.last)
    requires forall id: nat, l :: AcceptedBy(chain, run.scanHead, id, l) <==> Lookup(scan.accepted, id) == Some(l)
    ensures ScanGood(scan, chain, run, seen, None, Below(count))
  {
    hide StorageAfter, LogsBetween, AcceptedBy;
    forall id | id in Below(count)
      ensures OfferAt(chain, run.rowReadAt(id), id).Some?
      ensures Faithful(Lookup(scan.accepted, id), chain, seen, run.last, id)
    {
      OffersGrow(chain, run.countReadAt, run.rowReadAt(id));
      ScanIsFaithful(chain, run, seen, id, Lookup(scan.accepted, id));
    }
  }

  lemma ScanSinceGood(scan: Scan, chain: seq<Block>, run: Run, seen: nat, c: nat)
    requires Ordered(run, chain, seen) && c < |chain|
    requires Logged(scan.accepted) && CancellationsGenuine(scan.cancelled, chain, run.last)
    requires forall id | id in scan.affected :: id < |StorageAt(chain, run.head).offers|
    requires forall id | id in scan.affected :: Faithful(Lookup(scan.accepted, id), chain, seen, run.last, id)
    requires forall id | id in scan.accepted :: !AcceptedBy(chain, c, id, scan.accepted[id])
    ensures ScanGood(scan, chain, run, seen, Some(c), scan.affected)
    ensures |scan.affected| <= |StorageAt(chain, run.countReadAt).offers|
  {
    hide StorageAfter, LogsBetween, AcceptedBy, Faithful;
    forall id | id in scan.affected
      ensures OfferAt(chain, run.rowReadAt(id), id).Some?
      ensures id in Below(|StorageAt(chain, run.countReadAt).offers|)
    {
      OffersGrow(chain, run.head, run.rowReadAt(id));
      OffersGrow(chain, run.head, run.countReadAt);
    }
    SubsetIsSmaller(scan.affected, Below(|StorageAt(chain, run.countReadAt).offers|));
  }

  lemma RescanCompletes(before: map<nat, Row>, historyBefore: seq<Happening>, rows: map<nat, Row>, history: seq<Happening>,
                        scan: Scan, chain: seq<Block>, run: Run, seen: nat)
    requires Ordered(run, chain, seen) && Logged(scan.accepted)
    requires forall id: nat, l :: AcceptedBy(chain, run.scanHead, id, l) <==> Lookup(scan.accepted, id) == Some(l)
    requires InProgress(before, historyBefore, rows, history, Below(|StorageAt(chain, run.countReadAt).offers|), scan, chain, run, None)
    ensures Completed(before, rows, chain, run, None) && Covers(history[|historyBefore|..], chain, run, None)
  {
    hide StorageAfter, LogsBetween, AcceptedBy, Wrote;
  }

  lemma NothingSince(rows: map<nat, Row>, history: seq<Happening>, chain: seq<Block>, run: Run, seen: nat, c: nat,
                     none: set<nat>)
    requires Ordered(run, chain, seen) && run.head <= c < |chain| && none == {}
    ensures InProgress(rows, history, rows, history, {}, Scan({}, map[], map[]), chain, run, Some(c))
    ensures ScanGood(Scan({}, map[], map[]), chain, run, seen, Some(c), {})
    ensures forall id: nat :: id in none <==> Mentioned(chain, c + 1, run.head + 1, id)
    ensures forall id: nat, l | AcceptedBy(chain, run.head, id, l) :: AcceptedBy(chain, c, id, l)
  {
    hide StorageAfter;
    NothingDone(rows, history, Scan({}, map[], map[]), chain, run, seen, Some(c), {});
    assert LogsBetween(chain, c + 1, run.head + 1) == [];
    forall id: nat, l | AcceptedBy(chain, run.head, id, l)
      ensures AcceptedBy(chain, c, id, l)
    {
      AcceptedLater(chain, run.head, c, id, l);
    }
  }

  lemma SweepIsCutOff(before: map<nat, Row>, historyBefore: seq<Happening>, written: map<nat, Row>, rows: map<nat, Row>,
                      history: seq<Happening>, chain: seq<Block>, run: Run, since: Option<nat>)
    requires run.last < |chain| && (since.Some? ==> since.value < |chain|)
    requires CutOff(before, historyBefore, written, history, chain, run, since)
    requires forall id: nat :: Lookup(rows, id) == SweptAt(written, id, run.now)
    ensures CutOff(before, historyBefore, rows, history, chain, run, since)
  {
    hide RunAdds;
    forall id: nat
      ensures RowFate(before, rows, chain, run, id)
    {
      assert RowFate(before, written, chain, run, id);
      SweptFate(before, written, rows, chain, run, id);
    }
    hide RowFate;
  }

  lemma SweptFate(before: map<nat, Row>, written: map<nat, Row>, rows: map<nat, Row>, chain: seq<Block>, run: Run, id: nat)
    requires run.last < |chain| && RowFate(before, written, chain, run, id)
    requires Lookup(rows, id) == SweptAt(written, id, run.now)
    ensures RowFate(before, rows, chain, run, id)
  {
    hide FreshRow, Swept;
    if id in written {
      SweptTwice(written[id], run.now);
      if FreshRow(written[id], chain, run, id) {
        SweptIsFresh(written[id], chain, run, id);
      }
      if id in before {
        SweptTwice(before[id], run.now);
      }
    }
  }

  lemma SweptTwice(row: Row, now: nat)
    ensures Swept(Swept(row, now), now) == Swept(row, now)
  {
    hide LexLe, Print;
  }

  lemma SweptIsFresh(row: Row, chain: seq<Block>, run: Run, id: nat)
    requires run.last < |chain| && FreshRow(row, chain, run, id)
    ensures FreshRow(Swept(row, run.now), chain, run, id)
  {
    hide Swept, StorageAfter, LogsBetween;
    var accepted, cancelled :| Genuine(accepted, cancelled, chain, run.last, id) &&
      var row' := RowOf(OfferAt(chain, run.rowReadAt(id), id).value, accepted, cancelled, run.now);
      row == row' || row == Swept(row', run.now);
    SweptTwice(RowOf(OfferAt(chain, run.rowReadAt(id), id).value, accepted, cancelled, run.now), run.now);
    assert Genuine(accepted, cancelled, chain, run.last, id);
  }

  lemma UpdateCompletes(before: map<nat, Row>, historyBefore: seq<Happening>, written: map<nat, Row>, rows: map<nat, Row>,
                        history: seq<Happening>, affected: set<nat>, scan: Scan, chain: seq<Block>, run: Run, seen: nat, c: nat)
    requires Ordered(run, chain, seen) && c < |chain|
    requires InProgress(before, historyBefore, written, history, affected, scan, chain, run, Some(c))
    requires forall id: nat :: id in affected <==> Mentioned(chain, c + 1, run.head + 1, id)
    requires forall id: nat, l :: AcceptedBy(chain, run.head, id, l) && !AcceptedBy(chain, c, id, l) ==>
               id in affected && Lookup(scan.accepted, id) == Some(l)
    requires forall id: nat :: Lookup(rows, id) == SweptAt(written, id, run.now)
    ensures Completed(before, rows, chain, run, Some(c)) && Covers(history[|historyBefore|..], chain, run, Some(c))
  {
    hide StorageAfter, LogsBetween, AcceptedBy, FreshRow, Swept, Mentioned;
    forall id: nat
      ensures if id in affected then id in rows && FreshRow(rows[id], chain, run, id)
              else Lookup(rows, id) == SweptAt(before, id, run.now)
    {
      assert Lookup(rows, id) == SweptAt(written, id, run.now);
      if id in affected {
        SweptIsFresh(written[id], chain, run, id);
      } else {
        assert Lookup(written, id) == Lookup(before, id);
      }
    }
  }

  /** Cut off inside a row step, before the row was stored or before it was settled. */
  lemma CutAdds(before: seq<Happening>, added: seq<Happening>, history: seq<Happening>, last1: seq<Happening>, chain: seq<Block>,
                last: nat, since: Option<nat>, taken: set<nat>, accepted: map<nat, Log>)
    requires last < |chain| && (since.Some? ==> since.value < |chain|)
    requires Progress(added, taken, accepted, chain, last, since) && RunAdds(added + last1, chain, last, since)
    requires history == before + added || history == before + added + last1
    ensures |before| <= |history| && history[..|before|] == before && RunAdds(history[|before|..], chain, last, since)
  {
    hide RunAdds;
    ProgressAdds(added, taken, accepted, chain, last, since);
    assert (before + added)[|before|..] == added;
    assert (before + added + last1)[|before|..] == added + last1;
  }

  lemma CutFates(before: map<nat, Row>, rowsNow: map<nat, Row>, rows: map<nat, Row>, chain: seq<Block>, run: Run, ids: set<nat>,
                 id: nat, accepted: Option<Log>, cancelled: Option<Log>)
    requires run.rowReadAt(id) <= run.last < |chain| && Wrote(before, rowsNow, chain, run, ids)
    requires OfferAt(chain, run.rowReadAt(id), id).Some? && Genuine(accepted, cancelled, chain, run.last, id)
    requires rows == rowsNow || rows == rowsNow[id := RowOf(OfferAt(chain, run.rowReadAt(id), id).value, accepted, cancelled, run.now)]
    ensures forall i: nat :: RowFate(before, rows, chain, run, i)
  {
    hide Wrote, RowFate, Genuine, RowOf;
    if rows == rowsNow {
      WroteFates(before, rows, chain, run, ids);
    } else {
      WroteOne(before, rowsNow, chain, run, ids, id, accepted, cancelled);
      WroteFates(before, rows, chain, run, ids + {id});
    }
  }

  /** Until its step, an offer's row is the one the run found. */
  lemma NotYetStored(before: map<nat, Row>, settledBefore: seq<Settlement>, historyBefore: seq<Happening>, rows: map<nat, Row>,
                     chain: seq<Block>, run: Run, seen: nat, taken: set<nat>, id: nat, accepted: Option<Log>, cancelled: Option<Log>,
                     scan: Scan, since: Option<nat>, ids: set<nat>)
    requires Ordered(run, chain, seen) && Accountable(before, settledBefore, historyBefore, chain, seen)
    requires ScanGood(scan, chain, run, seen, since, ids) && id in ids && id !in taken && Wrote(before, rows, chain, run, taken)
    requires accepted == Lookup(scan.accepted, id) && cancelled == Lookup(scan.cancelled, id)
    ensures accepted.Some? ==> AcceptedBy(chain, run.last, id, accepted.value)
    ensures accepted.None? ==> StoredTx(rows, id).None?
    ensures Genuine(accepted, cancelled, chain, run.last, id)
  {
    hide LogsBetween, StorageAfter, FreshRow, Times, Settlements, Holding, Copied;
    assert AccountableFor(before, settledBefore, historyBefore, chain, seen, id);
    assert Lookup(rows, id) == Lookup(before, id);
  }

  lemma ScanIsFaithful(chain: seq<Block>, run: Run, seen: nat, id: nat, accepted: Option<Log>)
    requires Ordered(run, chain, seen)
    requires forall l :: AcceptedBy(chain, run.scanHead, id, l) <==> accepted == Some(l)
    ensures Faithful(accepted, chain, seen, run.last, id)
  {
    hide LogsBetween;
    if accepted.Some? {
      assert AcceptedBy(chain, run.scanHead, id, accepted.value);
      EarlierLogsStay(chain, run.scanHead, run.last, accepted.value);
    } else {
      forall l
        ensures !AcceptedBy(chain, seen, id, l)
      {
        if AcceptedBy(chain, seen, id, l) {
          AcceptedLater(chain, seen, run.scanHead, id, l);
        }
      }
    }
  }
}
