/** The marketplace contract (packages/contracts/src/core/Marketplace.sol) as far as its
    indexer depends on it: the two storage tables, the logs each call emits, and the chain
    of blocks that executed them.

    Balances, approvals, sanctions and payments decide only whether a call reverts; they are
    the `allowed` flag of a transaction. */
module Marketplace {

  import opened LogScanner

  type Address = nat
  datatype Standard = Erc721 | Erc1155

  datatype Listing = Listing(seller: Address, nft: Address, tokenId: nat, amount: nat, standard: Standard,
                             paymentToken: Address, price: nat, expiresAt: nat, active: bool)

  datatype Offer = Offer(buyer: Address, nft: Address, tokenId: nat, quantity: nat, standard: Standard,
                         paymentToken: Address, price: nat, expiresAt: nat, active: bool)

  datatype Key = Key(seller: Address, nft: Address, tokenId: nat)

  /** `activeIds` is `_activeListingIds` without the "plus one, zero means none" encoding. */
  datatype Storage = Storage(listings: seq<Listing>, offers: seq<Offer>, activeIds: map<Key, nat>)

  datatype Event =
    | Listed(id: nat)
    | Sale(id: nat, buyer: Address)
    | Cancelled(id: nat)
    | OfferCreated(id: nat)
    | OfferCancelled(id: nat)
    | OfferAccepted(id: nat, seller: Address, buyer: Address, quantity: nat)

  datatype Log = Log(tx: nat, event: Event)

  datatype Call =
    | CreateListing(nft: Address, tokenId: nat, amount: nat, standard: Standard, paymentToken: Address,
                    price: nat, durationDays: nat)
    | CancelListing(id: nat)
    | Buy(id: nat)
    | CreateOffer(nft: Address, tokenId: nat, quantity: nat, standard: Standard, paymentToken: Address,
                  price: nat, durationDays: nat)
    | CancelOffer(id: nat)
    | AcceptOffer(id: nat)

  datatype Transaction = Transaction(hash: nat, sender: Address, call: Call, allowed: bool)
  datatype Block = Block(time: nat, transactions: seq<Transaction>)
  datatype Outcome = Outcome(storage: Storage, logs: seq<Log>)

  const SECONDS_PER_DAY := 86400

  /** Listings and offers have the same limit. */
  const MAX_DURATION_DAYS := 365

  predicate ValidDuration(days: nat) { 0 < days <= MAX_DURATION_DAYS }

  function Deactivated(listings: seq<Listing>, id: nat): seq<Listing>
    requires id < |listings|
  {
    listings[id := listings[id].(active := false)]
  }

  function KeyOf(l: Listing): Key { Key(l.seller, l.nft, l.tokenId) }

  /** `_deactivateListing` */
  function DeactivateListing(s: Storage, id: nat): Storage
    requires id < |s.listings|
  {
    var key := KeyOf(s.listings[id]);
    var activeIds := if key in s.activeIds && s.activeIds[key] == id then s.activeIds - {key} else s.activeIds;
    s.(listings := Deactivated(s.listings, id), activeIds := activeIds)
  }

  /** `_clearExpiredListing`: an expired or inactive listing gives up its key, and no event says so. */
  function ClearExpiredListing(s: Storage, key: Key, now: nat): Storage
    requires WellFormed(s)
  {
    if key !in s.activeIds then s
    else
      var id := s.activeIds[key];
      if !s.listings[id].active || s.listings[id].expiresAt < now then
        s.(listings := Deactivated(s.listings, id), activeIds := s.activeIds - {key})
      else s
  }

  predicate WellFormed(s: Storage) {
    forall k | k in s.activeIds :: s.activeIds[k] < |s.listings|
  }

  function Execute(s: Storage, now: nat, tx: Transaction): (r: Outcome)
    requires WellFormed(s)
    ensures WellFormed(r.storage)
  {
    var reverted := Outcome(s, []);
    if !tx.allowed then reverted
    else match tx.call
      case CreateListing(nft, tokenId, amount, standard, paymentToken, price, days) =>
        var key := Key(tx.sender, nft, tokenId);
        var cleared := ClearExpiredListing(s, key, now);
        if price == 0 || amount == 0 || !ValidDuration(days) || key in cleared.activeIds then reverted
        else
          var id := |s.listings|;
          var listing := Listing(tx.sender, nft, tokenId, amount, standard, paymentToken, price,
                                 now + days * SECONDS_PER_DAY, true);
          Outcome(cleared.(listings := cleared.listings + [listing], activeIds := cleared.activeIds[key := id]),
                  [Log(tx.hash, Listed(id))])
      case CancelListing(id) =>
        if id >= |s.listings| || s.listings[id].seller != tx.sender || !s.listings[id].active then reverted
        else Outcome(DeactivateListing(s, id), [Log(tx.hash, Cancelled(id))])
      case Buy(id) =>
        if id >= |s.listings| || !s.listings[id].active || s.listings[id].expiresAt < now then reverted
        else Outcome(DeactivateListing(s, id), [Log(tx.hash, Sale(id, tx.sender))])
      case CreateOffer(nft, tokenId, quantity, standard, paymentToken, price, days) =>
        if price == 0 || quantity == 0 || !ValidDuration(days) then reverted
        else
          var offer := Offer(tx.sender, nft, tokenId, quantity, standard, paymentToken, price,
                             now + days * SECONDS_PER_DAY, true);
          Outcome(s.(offers := s.offers + [offer]), [Log(tx.hash, OfferCreated(|s.offers|))])
      case CancelOffer(id) =>
        if id >= |s.offers| || s.offers[id].buyer != tx.sender || !s.offers[id].active then reverted
        else Outcome(s.(offers := s.offers[id := s.offers[id].(active := false)]), [Log(tx.hash, OfferCancelled(id))])
      case AcceptOffer(id) =>
        if id >= |s.offers| || !s.offers[id].active || s.offers[id].expiresAt < now || s.offers[id].buyer == tx.sender
        then reverted
        else
          var offer := s.offers[id];
          var closed := s.(offers := s.offers[id := offer.(active := false)]);
          var accepted := Log(tx.hash, OfferAccepted(id, tx.sender, offer.buyer, offer.quantity));
          var key := Key(tx.sender, offer.nft, offer.tokenId);
          if key !in s.activeIds then Outcome(closed, [accepted])
          else if s.listings[s.activeIds[key]].active then
            Outcome(DeactivateListing(closed, s.activeIds[key]), [Log(tx.hash, Cancelled(s.activeIds[key])), accepted])
          else Outcome(closed.(activeIds := s.activeIds - {key}), [accepted])
  }

  function ExecuteAll(s: Storage, now: nat, txs: seq<Transaction>): (r: Outcome)
    requires WellFormed(s)
    ensures WellFormed(r.storage)
  {
    if txs == [] then Outcome(s, [])
    else
      var before := ExecuteAll(s, now, txs[..|txs| - 1]);
      var last := Execute(before.storage, now, txs[|txs| - 1]);
      Outcome(last.storage, before.logs + last.logs)
  }

  /** What a log tells about the call that emitted it; a call without logs changed nothing. */
  lemma LogsTellTheCall(s: Storage, now: nat, tx: Transaction)
    requires WellFormed(s)
    ensures var r := Execute(s, now, tx);
      && (r.logs == [] ==> r.storage == s)
      && forall l | l in r.logs :: l.tx == tx.hash && tx.allowed && match l.event
           case Listed(id) =>
             && tx.call.CreateListing? && id == |s.listings| && |r.storage.listings| == id + 1
             && 0 < tx.call.durationDays <= 365 && 0 < tx.call.amount && 0 < tx.call.price
             && var listing := r.storage.listings[id];
                && listing.seller == tx.sender && listing.nft == tx.call.nft && listing.tokenId == tx.call.tokenId
                && listing.amount == tx.call.amount && listing.price == tx.call.price && listing.active
                && listing.standard == tx.call.standard && listing.paymentToken == tx.call.paymentToken
                && listing.expiresAt == now + tx.call.durationDays * 86400
           case Sale(id, buyer) =>
             && id < |s.listings| && buyer == tx.sender && s.listings[id].active && now <= s.listings[id].expiresAt
             && !r.storage.listings[id].active
           case Cancelled(id) =>
             id < |s.listings| && s.listings[id].active && !r.storage.listings[id].active &&
             (tx.call.CancelListing? ==> s.listings[id].seller == tx.sender)
           case OfferCreated(id) =>
             && tx.call.CreateOffer? && id == |s.offers| && |r.storage.offers| == id + 1
             && 0 < tx.call.durationDays <= 365 && 0 < tx.call.quantity && 0 < tx.call.price
             && var offer := r.storage.offers[id];
                && offer.buyer == tx.sender && offer.nft == tx.call.nft && offer.tokenId == tx.call.tokenId
                && offer.quantity == tx.call.quantity && offer.price == tx.call.price && offer.active
                && offer.standard == tx.call.standard && offer.paymentToken == tx.call.paymentToken
                && offer.expiresAt == now + tx.call.durationDays * 86400
           case OfferCancelled(id) =>
             id < |s.offers| && s.offers[id].buyer == tx.sender && s.offers[id].active && !r.storage.offers[id].active
           case OfferAccepted(id, seller, buyer, quantity) =>
             && id < |s.offers| && s.offers[id].active && now <= s.offers[id].expiresAt && !r.storage.offers[id].active
             && seller == tx.sender && buyer == s.offers[id].buyer && quantity == s.offers[id].quantity && seller != buyer
  {}

  // ----- the chain -----

  const GENESIS := Storage([], [], map[])

  /** Storage after the first `n` blocks. */
  function StorageAfter(chain: seq<Block>, n: nat): (s: Storage)
    requires n <= |chain|
    ensures WellFormed(s)
  {
    if n == 0 then GENESIS
    else ExecuteAll(StorageAfter(chain, n - 1), chain[n - 1].time, chain[n - 1].transactions).storage
  }

  function StorageAt(chain: seq<Block>, block: nat): (s: Storage)
    requires block < |chain|
    ensures WellFormed(s)
  {
    StorageAfter(chain, block + 1)
  }

  /** The logs of one block, in the order the block emitted them. */
  function LogsAt(chain: seq<Block>, block: nat): seq<Log>
    requires block < |chain|
  {
    ExecuteAll(StorageAfter(chain, block), chain[block].time, chain[block].transactions).logs
  }

  function BlockLogs(chain: seq<Block>): (logs: seq<seq<Log>>)
    ensures |logs| == |chain| && forall b | 0 <= b < |chain| :: logs[b] == LogsAt(chain, b)
  {
    seq(|chain|, b requires 0 <= b < |chain| => LogsAt(chain, b))
  }

  /** What a scan of blocks `lo` (inclusive) to `hi` (exclusive) returns. */
  function LogsBetween(chain: seq<Block>, lo: nat, hi: nat): seq<Log>
    requires hi <= |chain|
  {
    LogsIn(BlockLogs(chain), lo, hi - 1)
  }

  lemma LogsBetweenStep(chain: seq<Block>, lo: nat, hi: nat)
    requires lo < hi <= |chain|
    ensures LogsBetween(chain, lo, hi) == LogsBetween(chain, lo, hi - 1) + LogsAt(chain, hi - 1)
  {}

  function Only(logs: seq<Log>, kind: Event -> bool): seq<Log> {
    if logs == [] then []
    else Only(logs[..|logs| - 1], kind) + (if kind(logs[|logs| - 1].event) then [logs[|logs| - 1]] else [])
  }

  /** The chain as a scan for one kind of event sees it. */
  function EventLogs(chain: seq<Block>, kind: Event -> bool): (logs: seq<seq<Log>>)
    ensures |logs| == |chain| && forall b | 0 <= b < |chain| :: logs[b] == Only(LogsAt(chain, b), kind)
  {
    seq(|chain|, b requires 0 <= b < |chain| => Only(LogsAt(chain, b), kind))
  }

  lemma {:induction false} OnlyKeeps(logs: seq<Log>, kind: Event -> bool, l: Log)
    ensures l in Only(logs, kind) <==> l in logs && kind(l.event)
  {
    if logs != [] {
      var init, last := logs[..|logs| - 1], logs[|logs| - 1];
      OnlyKeeps(init, kind, l);
      assert logs == init + [last];
    }
  }

  /** A scan for one kind of event finds exactly the logs of that kind. */
  lemma {:induction false} ScanOfKind(chain: seq<Block>, kind: Event -> bool, lo: nat, hi: nat, l: Log)
    requires hi <= |chain|
    ensures l in LogsIn(EventLogs(chain, kind), lo, hi - 1) <==> l in LogsBetween(chain, lo, hi) && kind(l.event)
    decreases hi
  {
    hide LogsAt, StorageAfter, Only;
    if lo < hi {
      ScanOfKind(chain, kind, lo, hi - 1, l);
      OnlyKeeps(LogsAt(chain, hi - 1), kind, l);
    }
  }

  ghost predicate TimeNeverGoesBack(chain: seq<Block>) {
    forall i, j | 0 <= i <= j < |chain| :: chain[i].time <= chain[j].time
  }

  // ----- listings: what the logs leave out -----

  predicate MentionsListing(logs: seq<Log>, id: nat) {
    exists i | 0 <= i < |logs| :: IsAboutListing(logs[i].event, id)
  }

  predicate IsAboutListing(e: Event, id: nat) {
    (e.Listed? || e.Sale? || e.Cancelled?) && e.id == id
  }

  /** The only silent change: an expired listing becomes inactive. */
  predicate SameOrSilentlyExpired(before: Listing, after: Listing, now: nat) {
    before == after || (before.expiresAt < now && after == before.(active := false))
  }

  ghost predicate Accounted(s: Storage, s': Storage, now: nat, logs: seq<Log>) {
    && |s.listings| <= |s'.listings|
    && (forall id | 0 <= id < |s.listings| ::
          MentionsListing(logs, id) || SameOrSilentlyExpired(s.listings[id], s'.listings[id], now))
    && (forall id | |s.listings| <= id < |s'.listings| :: MentionsListing(logs, id))
    && (forall id | 0 <= id < |s.listings| :: s.listings[id].expiresAt == s'.listings[id].expiresAt)
    && (forall id: nat | MentionsListing(logs, id) :: id < |s'.listings|)
  }

  lemma ExecuteAccounted(s: Storage, now: nat, tx: Transaction)
    requires WellFormed(s)
    ensures var r := Execute(s, now, tx); Accounted(s, r.storage, now, r.logs)
  {
    var r := Execute(s, now, tx);
    forall i, id: nat | 0 <= i < |r.logs| && IsAboutListing(r.logs[i].event, id)
      ensures MentionsListing(r.logs, id)
    {}
    if |r.logs| > 0 {
      assert MentionsListing(r.logs, r.logs[0].event.id) <== IsAboutListing(r.logs[0].event, r.logs[0].event.id);
    }
  }

  lemma MentionsConcat(a: seq<Log>, b: seq<Log>, id: nat)
    ensures MentionsListing(a + b, id) <==> MentionsListing(a, id) || MentionsListing(b, id)
  {
    if MentionsListing(a, id) {
      var i :| 0 <= i < |a| && IsAboutListing(a[i].event, id);
      assert (a + b)[i] == a[i];
    }
    if MentionsListing(b, id) {
      var i :| 0 <= i < |b| && IsAboutListing(b[i].event, id);
      assert (a + b)[|a| + i] == b[i];
    }
  }

  lemma AccountedTransitive(s0: Storage, s1: Storage, s2: Storage, t1: nat, t2: nat, a: seq<Log>, b: seq<Log>)
    requires t1 <= t2 && Accounted(s0, s1, t1, a) && Accounted(s1, s2, t2, b)
    ensures Accounted(s0, s2, t2, a + b)
  {
    forall id: nat
      ensures MentionsListing(a + b, id) <==> MentionsListing(a, id) || MentionsListing(b, id)
    {
      MentionsConcat(a, b, id);
    }
  }

  lemma {:induction false} ExecuteAllAccounted(s: Storage, now: nat, txs: seq<Transaction>)
    requires WellFormed(s)
    ensures var r := ExecuteAll(s, now, txs); Accounted(s, r.storage, now, r.logs)
  {
    if txs != [] {
      var init := txs[..|txs| - 1];
      var before := ExecuteAll(s, now, init);
      ExecuteAllAccounted(s, now, init);
      ExecuteAccounted(before.storage, now, txs[|txs| - 1]);
      var last := Execute(before.storage, now, txs[|txs| - 1]);
      AccountedTransitive(s, before.storage, last.storage, now, now, before.logs, last.logs);
    }
  }

  /** Every listing change between two blocks is in the logs of the blocks after the first,
      except that a listing already expired at the later block may have gone inactive. */
  lemma {:induction false} ChangesAreLogged(chain: seq<Block>, lo: nat, hi: nat)
    requires TimeNeverGoesBack(chain) && lo <= hi < |chain|
    ensures Accounted(StorageAt(chain, lo), StorageAt(chain, hi), chain[hi].time, LogsBetween(chain, lo + 1, hi + 1))
    decreases hi
  {
    hide StorageAfter, LogsBetween, LogsAt, Accounted;
    if lo == hi {
      NothingHappened(chain, lo);
    } else {
      ChangesAreLogged(chain, lo, hi - 1);
      BlockAccounted(chain, hi);
      LogsBetweenStep(chain, lo + 1, hi + 1);
      AccountedTransitive(StorageAt(chain, lo), StorageAt(chain, hi - 1), StorageAt(chain, hi), chain[hi - 1].time, chain[hi].time,
                          LogsBetween(chain, lo + 1, hi), LogsAt(chain, hi));
    }
  }

  lemma NothingHappened(chain: seq<Block>, block: nat)
    requires block < |chain|
    ensures Accounted(StorageAt(chain, block), StorageAt(chain, block), chain[block].time, LogsBetween(chain, block + 1, block + 1))
  {
    hide StorageAfter;
  }

  lemma BlockAccounted(chain: seq<Block>, block: nat)
    requires 0 < block < |chain|
    ensures Accounted(StorageAt(chain, block - 1), StorageAt(chain, block), chain[block].time, LogsAt(chain, block))
  {
    hide Execute, Accounted;
    ExecuteAllAccounted(StorageAfter(chain, block), chain[block].time, chain[block].transactions);
  }

  // ----- listings: one life, at most one end -----

  /** Only `active` may differ. */
  ghost predicate ListingsKept(before: Storage, after: Storage) {
    && |before.listings| <= |after.listings|
    && forall id | 0 <= id < |before.listings| ::
         after.listings[id] == before.listings[id].(active := after.listings[id].active)
  }

  lemma ExecuteKeepsListings(s: Storage, now: nat, tx: Transaction)
    requires WellFormed(s)
    ensures ListingsKept(s, Execute(s, now, tx).storage)
  {}

  lemma {:induction false} ExecuteAllKeepsListings(s: Storage, now: nat, txs: seq<Transaction>)
    requires WellFormed(s)
    ensures ListingsKept(s, ExecuteAll(s, now, txs).storage)
  {
    hide Execute;
    if txs != [] {
      var init := txs[..|txs| - 1];
      ExecuteAllKeepsListings(s, now, init);
      ExecuteKeepsListings(ExecuteAll(s, now, init).storage, now, txs[|txs| - 1]);
    }
  }

  /** The terms of a listing never change, and no listing disappears. */
  lemma {:induction false} ListingTermsNeverChange(chain: seq<Block>, block: nat, later: nat)
    requires block <= later < |chain|
    ensures ListingsKept(StorageAt(chain, block), StorageAt(chain, later))
    decreases later
  {
    hide ExecuteAll;
    if block < later {
      ListingTermsNeverChange(chain, block, later - 1);
      ExecuteAllKeepsListings(StorageAfter(chain, later), chain[later].time, chain[later].transactions);
    }
  }

  /** Each active listing is the one recorded for its seller and token. */
  ghost predicate ActiveRecorded(s: Storage) {
    forall id: nat | id < |s.listings| && s.listings[id].active ::
      KeyOf(s.listings[id]) in s.activeIds && s.activeIds[KeyOf(s.listings[id])] == id
  }

  lemma ExecuteKeepsRecorded(s: Storage, now: nat, tx: Transaction)
    requires WellFormed(s) && ActiveRecorded(s)
    ensures ActiveRecorded(Execute(s, now, tx).storage)
  {}

  lemma {:induction false} ExecuteAllKeepsRecorded(s: Storage, now: nat, txs: seq<Transaction>)
    requires WellFormed(s) && ActiveRecorded(s)
    ensures ActiveRecorded(ExecuteAll(s, now, txs).storage)
  {
    hide Execute, ActiveRecorded;
    if txs != [] {
      var init := txs[..|txs| - 1];
      ExecuteAllKeepsRecorded(s, now, init);
      ExecuteKeepsRecorded(ExecuteAll(s, now, init).storage, now, txs[|txs| - 1]);
    }
  }

  /** A seller never has two active listings of one token. */
  lemma {:induction false} OneActivePerSellerAndToken(chain: seq<Block>, n: nat)
    requires n <= |chain|
    ensures ActiveRecorded(StorageAfter(chain, n))
    ensures var listings := StorageAfter(chain, n).listings;
      forall i, j | 0 <= i < j < |listings| && listings[i].active && listings[j].active ::
        listings[i].seller != listings[j].seller || listings[i].nft != listings[j].nft || listings[i].tokenId != listings[j].tokenId
  {
    hide ExecuteAll;
    if n > 0 {
      OneActivePerSellerAndToken(chain, n - 1);
      ExecuteAllKeepsRecorded(StorageAfter(chain, n - 1), chain[n - 1].time, chain[n - 1].transactions);
    }
  }

  function ListingLogs(logs: seq<Log>, id: nat): seq<Log> {
    if logs == [] then []
    else ListingLogs(logs[..|logs| - 1], id) +
         (if IsAboutListing(logs[|logs| - 1].event, id) then [logs[|logs| - 1]] else [])
  }

  lemma {:induction false} ListingLogsConcat(a: seq<Log>, b: seq<Log>, id: nat)
    ensures ListingLogs(a + b, id) == ListingLogs(a, id) + ListingLogs(b, id)
  {
    if b == [] {
      assert a + b == a;
    } else {
      var b' := b[..|b| - 1];
      ListingLogsConcat(a, b', id);
      assert (a + b)[..|a + b| - 1] == a + b';
    }
  }

  /** The logs a listing has produced so far: its creation, then at most one sale or cancellation,
      after which it is inactive. Without an end it is active, or has silently expired. */
  predicate ListingLife(listings: seq<Listing>, logs: seq<Log>, id: nat, now: nat) {
    if id >= |listings| then logs == []
    else
      && 1 <= |logs| <= 2 && logs[0].event.Listed?
      && (|logs| == 2 ==> !listings[id].active && (logs[1].event.Sale? || logs[1].event.Cancelled?))
      && (|logs| == 1 ==> listings[id].active || listings[id].expiresAt < now)
  }

  lemma ListingLogsShort(logs: seq<Log>, id: nat)
    requires |logs| <= 2
    ensures ListingLogs(logs, id) ==
            (if |logs| > 0 && IsAboutListing(logs[0].event, id) then [logs[0]] else []) +
            (if |logs| > 1 && IsAboutListing(logs[1].event, id) then [logs[1]] else [])
  {
    if |logs| > 0 {
      assert logs[..|logs| - 1] == if |logs| == 1 then [] else [logs[0]];
      assert [logs[0]][..0] == [];
    }
  }

  /** What one call does to one listing, with the logs it adds about it. */
  predicate ListingStep(before: seq<Listing>, after: seq<Listing>, added: seq<Log>, id: nat, now: nat) {
    if id >= |before| then ListingLife(after, added, id, now)
    else
      && id < |after| && |added| <= 1 && after[id].expiresAt == before[id].expiresAt
      && (|added| == 1 ==> before[id].active && !after[id].active && (added[0].event.Sale? || added[0].event.Cancelled?))
      && (added == [] ==> after[id] == before[id] || (!after[id].active && (!before[id].active || before[id].expiresAt < now)))
  }

  lemma ExecuteListingStep(s: Storage, now: nat, tx: Transaction, id: nat)
    requires WellFormed(s) && ActiveRecorded(s)
    ensures var r := Execute(s, now, tx); ListingStep(s.listings, r.storage.listings, ListingLogs(r.logs, id), id, now)
  {
    ListingLogsShort(Execute(s, now, tx).logs, id);
  }

  lemma ListingLifeGoesOn(before: seq<Listing>, after: seq<Listing>, logs: seq<Log>, added: seq<Log>, id: nat, earlier: nat, now: nat)
    requires earlier <= now && ListingLife(before, logs, id, earlier) && ListingStep(before, after, added, id, now)
    ensures ListingLife(after, logs + added, id, now)
  {}

  lemma {:induction false} ExecuteAllListingLife(s: Storage, earlier: nat, now: nat, txs: seq<Transaction>, logs: seq<Log>, id: nat)
    requires WellFormed(s) && ActiveRecorded(s) && earlier <= now && ListingLife(s.listings, ListingLogs(logs, id), id, earlier)
    ensures var r := ExecuteAll(s, now, txs); ListingLife(r.storage.listings, ListingLogs(logs + r.logs, id), id, now)
  {
    hide Execute, ListingLife, ListingStep, ActiveRecorded, ListingLogs;
    if txs == [] {
      assert logs + [] == logs;
      LaterLife(s.listings, ListingLogs(logs, id), id, earlier, now);
    } else {
      var init, tx := txs[..|txs| - 1], txs[|txs| - 1];
      ExecuteAllListingLife(s, earlier, now, init, logs, id);
      ExecuteAllKeepsRecorded(s, now, init);
      var before := ExecuteAll(s, now, init);
      var last := Execute(before.storage, now, tx);
      ExecuteListingStep(before.storage, now, tx, id);
      ListingLogsConcat(logs + before.logs, last.logs, id);
      ListingLifeGoesOn(before.storage.listings, last.storage.listings, ListingLogs(logs + before.logs, id),
                        ListingLogs(last.logs, id), id, now, now);
      assert logs + (before.logs + last.logs) == (logs + before.logs) + last.logs;
    }
  }

  lemma LaterLife(listings: seq<Listing>, logs: seq<Log>, id: nat, earlier: nat, now: nat)
    requires earlier <= now && ListingLife(listings, logs, id, earlier)
    ensures ListingLife(listings, logs, id, now)
  {}

  /** Over the whole chain a listing is created once and ends at most once, by a sale or a
      cancellation; without an end it is active, or expired before the latest block. */
  lemma {:induction false} ListingEndsAtMostOnce(chain: seq<Block>, n: nat, id: nat)
    requires n <= |chain| && TimeNeverGoesBack(chain)
    ensures ListingLife(StorageAfter(chain, n).listings, ListingLogs(LogsBetween(chain, 0, n), id), id,
                        if n == 0 then 0 else chain[n - 1].time)
  {
    hide LogsBetween, LogsAt, ListingLife, ListingLogs, ExecuteAll, ActiveRecorded;
    if n == 0 {
      NoListingsAtGenesis(chain, id);
    } else {
      ListingEndsAtMostOnce(chain, n - 1, id);
      OneActivePerSellerAndToken(chain, n - 1);
      LogsBetweenStep(chain, 0, n);
      BlockLogsAre(chain, n - 1);
      ExecuteAllListingLife(StorageAfter(chain, n - 1), if n == 1 then 0 else chain[n - 2].time, chain[n - 1].time,
                            chain[n - 1].transactions, LogsBetween(chain, 0, n - 1), id);
    }
  }

  lemma {:induction false} ListingLogsMember(logs: seq<Log>, id: nat, l: Log)
    ensures l in ListingLogs(logs, id) <==> l in logs && IsAboutListing(l.event, id)
  {
    if logs != [] {
      var init := logs[..|logs| - 1];
      ListingLogsMember(init, id, l);
      assert logs == init + [logs[|logs| - 1]];
    }
  }

  lemma LaterLogs(chain: seq<Block>, lo: nat, hi: nat, l: Log)
    requires lo <= hi <= |chain| && l in LogsBetween(chain, lo, hi)
    ensures l in LogsBetween(chain, 0, hi)
  {
    hide LogsIn;
    LogsInSplit(BlockLogs(chain), 0, lo, hi - 1);
  }

  /** Of one listing there is at most one creation log, and at most one log of its sale or cancellation. */
  lemma OneLogEach(chain: seq<Block>, lo: nat, hi: nat, a: Log, b: Log, id: nat)
    requires TimeNeverGoesBack(chain) && lo <= hi <= |chain|
    requires a in LogsBetween(chain, lo, hi) && b in LogsBetween(chain, lo, hi)
    requires IsAboutListing(a.event, id) && IsAboutListing(b.event, id) && (a.event.Listed? <==> b.event.Listed?)
    ensures a == b
  {
    hide LogsBetween, ListingLogs, StorageAfter;
    ListingEndsAtMostOnce(chain, hi, id);
    LaterLogs(chain, lo, hi, a);
    LaterLogs(chain, lo, hi, b);
    ListingLogsMember(LogsBetween(chain, 0, hi), id, a);
    ListingLogsMember(LogsBetween(chain, 0, hi), id, b);
  }

  lemma BlockLogsAre(chain: seq<Block>, block: nat)
    requires block < |chain|
    ensures LogsAt(chain, block) == ExecuteAll(StorageAfter(chain, block), chain[block].time, chain[block].transactions).logs
  {
    hide ExecuteAll, StorageAfter;
  }

  lemma NoListingsAtGenesis(chain: seq<Block>, id: nat)
    ensures ListingLife(StorageAfter(chain, 0).listings, ListingLogs(LogsBetween(chain, 0, 0), id), id, 0)
  {}

  // ----- how far in the future listings and offers expire -----

  predicate ExpiriesWithin(s: Storage, lo: nat, hi: nat) {
    (forall l | l in s.listings :: lo < l.expiresAt < hi) && (forall o | o in s.offers :: lo < o.expiresAt < hi)
  }

  lemma ExecuteExpiries(s: Storage, now: nat, tx: Transaction, lo: nat, hi: nat)
    requires WellFormed(s) && ExpiriesWithin(s, lo, hi)
    requires lo <= now && now + MAX_DURATION_DAYS * SECONDS_PER_DAY < hi
    ensures ExpiriesWithin(Execute(s, now, tx).storage, lo, hi)
  {}

  lemma {:induction false} ExecuteAllExpiries(s: Storage, now: nat, txs: seq<Transaction>, lo: nat, hi: nat)
    requires WellFormed(s) && ExpiriesWithin(s, lo, hi)
    requires lo <= now && now + MAX_DURATION_DAYS * SECONDS_PER_DAY < hi
    ensures ExpiriesWithin(ExecuteAll(s, now, txs).storage, lo, hi)
  {
    hide Execute, ExpiriesWithin;
    if txs != [] {
      var init := txs[..|txs| - 1];
      ExecuteAllExpiries(s, now, init, lo, hi);
      ExecuteExpiries(ExecuteAll(s, now, init).storage, now, txs[|txs| - 1], lo, hi);
    }
  }

  /** Whatever the calls, every listing and every offer expires after the first block time and within
      the longest duration of the last one. */
  lemma {:induction false} EverythingExpiresWithin(chain: seq<Block>, n: nat, lo: nat, hi: nat)
    requires n <= |chain|
    requires forall b | b in chain :: lo <= b.time && b.time + MAX_DURATION_DAYS * SECONDS_PER_DAY < hi
    ensures ExpiriesWithin(StorageAfter(chain, n), lo, hi)
  {
    hide ExecuteAll;
    if n > 0 {
      EverythingExpiresWithin(chain, n - 1, lo, hi);
      assert chain[n - 1] in chain;
      ExecuteAllExpiries(StorageAfter(chain, n - 1), chain[n - 1].time, chain[n - 1].transactions, lo, hi);
    }
  }

  // ----- offers: one life, at most one end -----

  function OfferLogs(logs: seq<Log>, id: nat): seq<Log> {
    if logs == [] then []
    else OfferLogs(logs[..|logs| - 1], id) +
         (if IsAboutOffer(logs[|logs| - 1].event, id) then [logs[|logs| - 1]] else [])
  }

  predicate IsAboutOffer(e: Event, id: nat) {
    (e.OfferCreated? || e.OfferCancelled? || e.OfferAccepted?) && e.id == id
  }

  lemma {:induction false} OfferLogsConcat(a: seq<Log>, b: seq<Log>, id: nat)
    ensures OfferLogs(a + b, id) == OfferLogs(a, id) + OfferLogs(b, id)
  {
    if b == [] {
      assert a + b == a;
    } else {
      var b' := b[..|b| - 1];
      OfferLogsConcat(a, b', id);
      assert (a + b)[..|a + b| - 1] == a + b';
    }
  }

  /** The logs an offer has produced so far, given its storage slot. */
  predicate OfferLife(offers: seq<Offer>, logs: seq<Log>, id: nat) {
    if id >= |offers| then logs == []
    else if offers[id].active then |logs| == 1 && logs[0].event.OfferCreated?
    else |logs| == 2 && logs[0].event.OfferCreated? &&
         (logs[1].event.OfferCancelled? || (logs[1].event.OfferAccepted? && logs[1].event.buyer == offers[id].buyer &&
                                            logs[1].event.seller != offers[id].buyer &&
                                            logs[1].event.quantity == offers[id].quantity))
  }

  lemma OfferLogsShort(logs: seq<Log>, id: nat)
    requires |logs| <= 2
    ensures OfferLogs(logs, id) ==
            (if |logs| > 0 && IsAboutOffer(logs[0].event, id) then [logs[0]] else []) +
            (if |logs| > 1 && IsAboutOffer(logs[1].event, id) then [logs[1]] else [])
  {
    if |logs| > 0 {
      assert logs[..|logs| - 1] == if |logs| == 1 then [] else [logs[0]];
      assert [logs[0]][..0] == [];
    }
  }

  /** What one call does to one offer, with the logs it adds about it. */
  predicate OfferStep(before: seq<Offer>, after: seq<Offer>, added: seq<Log>, id: nat) {
    if added == [] then (id >= |before| && id >= |after|) || (id < |before| && id < |after| && after[id] == before[id])
    else OfferLife(after, if id < |before| then [Log(0, OfferCreated(id))] + added else added, id) &&
         (id < |before| ==> before[id].active && |added| == 1)
  }

  lemma ExecuteOfferStep(s: Storage, now: nat, tx: Transaction, id: nat)
    requires WellFormed(s)
    ensures var r := Execute(s, now, tx); OfferStep(s.offers, r.storage.offers, OfferLogs(r.logs, id), id)
  {
    OfferLogsShort(Execute(s, now, tx).logs, id);
  }

  lemma ExecuteOfferLife(s: Storage, now: nat, tx: Transaction, logs: seq<Log>, id: nat)
    requires WellFormed(s) && OfferLife(s.offers, OfferLogs(logs, id), id)
    ensures var r := Execute(s, now, tx); OfferLife(r.storage.offers, OfferLogs(logs + r.logs, id), id)
  {
    var r := Execute(s, now, tx);
    OfferLogsConcat(logs, r.logs, id);
    ExecuteOfferStep(s, now, tx, id);
  }

  lemma {:induction false} ExecuteAllOfferLife(s: Storage, now: nat, txs: seq<Transaction>, logs: seq<Log>, id: nat)
    requires WellFormed(s) && OfferLife(s.offers, OfferLogs(logs, id), id)
    ensures var r := ExecuteAll(s, now, txs); OfferLife(r.storage.offers, OfferLogs(logs + r.logs, id), id)
  {
    if txs == [] {
      assert logs + [] == logs;
    } else {
      var init := txs[..|txs| - 1];
      ExecuteAllOfferLife(s, now, init, logs, id);
      var before := ExecuteAll(s, now, init);
      var last := Execute(before.storage, now, txs[|txs| - 1]);
      ExecuteOfferLife(before.storage, now, txs[|txs| - 1], logs + before.logs, id);
      assert logs + (before.logs + last.logs) == (logs + before.logs) + last.logs;
    }
  }

  lemma BlockOfferLife(chain: seq<Block>, block: nat, logs: seq<Log>, id: nat)
    requires block < |chain| && OfferLife(StorageAfter(chain, block).offers, OfferLogs(logs, id), id)
    ensures OfferLife(StorageAfter(chain, block + 1).offers, OfferLogs(logs + LogsAt(chain, block), id), id)
  {
    hide Execute, OfferLife, OfferLogs;
    ExecuteAllOfferLife(StorageAfter(chain, block), chain[block].time, chain[block].transactions, logs, id);
  }

  /** Over the whole chain an offer is created once, then cancelled or accepted at most once,
      and says nothing afterwards; an acceptance names the offer's own buyer and quantity,
      and a seller who is not the buyer. */
  lemma {:induction false} OfferEndsAtMostOnce(chain: seq<Block>, n: nat, id: nat)
    requires n <= |chain|
    ensures OfferLife(StorageAfter(chain, n).offers, OfferLogs(LogsBetween(chain, 0, n), id), id)
  {
    hide StorageAfter, LogsBetween, LogsAt, OfferLife, OfferLogs;
    if n == 0 {
      NoOffersAtGenesis(chain, id);
    } else {
      OfferEndsAtMostOnce(chain, n - 1, id);
      LogsBetweenStep(chain, 0, n);
      BlockOfferLife(chain, n - 1, LogsBetween(chain, 0, n - 1), id);
    }
  }

  lemma NoOffersAtGenesis(chain: seq<Block>, id: nat)
    ensures OfferLife(StorageAfter(chain, 0).offers, OfferLogs(LogsBetween(chain, 0, 0), id), id)
  {}
}
