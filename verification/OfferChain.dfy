/** What the chain says about offers: each is created once and ends at most once, by a log of its
    own, and nothing else about it ever changes. */
module OfferChain {
  import opened Options
  import opened LogScanner
  import opened Marketplace

  // ----- what the chain says about acceptances -----

  predicate Accepts(l: Log, id: nat) {
    l.event.OfferAccepted? && l.event.id == id
  }

  /** Block `block` or an earlier one accepted the offer, in this log. */
  ghost predicate AcceptedBy(chain: seq<Block>, block: nat, id: nat, l: Log)
    requires block < |chain|
  {
    Accepts(l, id) && l in LogsBetween(chain, 0, block + 1)
  }

  lemma {:induction false} OfferLogsMember(logs: seq<Log>, id: nat, l: Log)
    ensures l in OfferLogs(logs, id) <==> l in logs && IsAboutOffer(l.event, id)
  {
    if logs != [] {
      var init, last := logs[..|logs| - 1], logs[|logs| - 1];
      OfferLogsMember(init, id, l);
      assert logs == init + [last];
    }
  }

  lemma SplitRange(chain: seq<Block>, mid: nat, hi: nat)
    requires mid <= hi <= |chain|
    ensures LogsBetween(chain, 0, hi) == LogsBetween(chain, 0, mid) + LogsBetween(chain, mid, hi)
  {
    hide LogsIn;
    LogsInSplit(BlockLogs(chain), 0, mid, hi - 1);
  }

  lemma {:induction false} EarlierLogsStay(chain: seq<Block>, block: nat, later: nat, l: Log)
    requires block <= later < |chain| && l in LogsBetween(chain, 0, block + 1)
    ensures l in LogsBetween(chain, 0, later + 1)
  {
    hide LogsBetween;
    SplitRange(chain, block + 1, later + 1);
  }

  lemma AcceptedLater(chain: seq<Block>, block: nat, later: nat, id: nat, l: Log)
    requires block <= later < |chain| && AcceptedBy(chain, block, id, l)
    ensures AcceptedBy(chain, later, id, l)
  {
    hide LogsBetween;
    EarlierLogsStay(chain, block, later, l);
  }

  /** There is at most one acceptance of an offer. */
  lemma AcceptanceIsUnique(chain: seq<Block>, block: nat, id: nat, l: Log, m: Log)
    requires block < |chain| && AcceptedBy(chain, block, id, l) && AcceptedBy(chain, block, id, m)
    ensures l == m
  {
    hide LogsBetween, StorageAfter, OfferLogs;
    OfferEndsAtMostOnce(chain, block + 1, id);
    OfferLogsMember(LogsBetween(chain, 0, block + 1), id, l);
    OfferLogsMember(LogsBetween(chain, 0, block + 1), id, m);
  }

  /** An acceptance names the offer's own buyer and quantity, and a seller who is not the buyer. */
  lemma AcceptanceNamesTheOffer(chain: seq<Block>, block: nat, id: nat, l: Log)
    requires block < |chain| && AcceptedBy(chain, block, id, l)
    ensures id < |StorageAt(chain, block).offers|
    ensures var offer := StorageAt(chain, block).offers[id];
      l.event.buyer == offer.buyer && l.event.quantity == offer.quantity && l.event.seller != l.event.buyer
  {
    hide LogsBetween, StorageAfter, OfferLogs;
    OfferEndsAtMostOnce(chain, block + 1, id);
    OfferLogsMember(LogsBetween(chain, 0, block + 1), id, l);
  }

  /** An offer has at most one log of its acceptance or cancellation. */
  lemma OneEnd(chain: seq<Block>, block: nat, id: nat, l: Log, m: Log)
    requires block < |chain| && Ends(l, id) && Ends(m, id)
    requires l in LogsBetween(chain, 0, block + 1) && m in LogsBetween(chain, 0, block + 1)
    ensures l == m
  {
    hide LogsBetween, StorageAfter, OfferLogs;
    OfferEndsAtMostOnce(chain, block + 1, id);
    OfferLogsMember(LogsBetween(chain, 0, block + 1), id, l);
    OfferLogsMember(LogsBetween(chain, 0, block + 1), id, m);
  }

  /** Once an offer is accepted no later block mentions it. */
  lemma NothingAfterAcceptance(chain: seq<Block>, c: nat, head: nat, id: nat, l: Log)
    requires c < head < |chain| && AcceptedBy(chain, c, id, l)
    ensures forall m :: m in LogsBetween(chain, c + 1, head + 1) ==> !IsAboutOffer(m.event, id)
  {
    hide LogsBetween, StorageAfter, OfferLogs;
    var before, after := LogsBetween(chain, 0, c + 1), LogsBetween(chain, c + 1, head + 1);
    SplitRange(chain, c + 1, head + 1);
    OfferLogsConcat(before, after, id);
    OfferLogsMember(before, id, l);
    OfferEndsAtMostOnce(chain, c + 1, id);
    OfferEndsAtMostOnce(chain, head + 1, id);
    forall m | m in after
      ensures !IsAboutOffer(m.event, id)
    {
      OfferLogsMember(after, id, m);
    }
  }

  /** An offer a block mentions exists from that block on. */
  lemma MentionedOfferExists(chain: seq<Block>, block: nat, later: nat, id: nat, l: Log)
    requires block <= later < |chain| && l in LogsBetween(chain, 0, block + 1) && IsAboutOffer(l.event, id)
    ensures id < |StorageAt(chain, later).offers|
  {
    hide LogsBetween, StorageAfter, OfferLogs;
    EarlierLogsStay(chain, block, later, l);
    OfferLogsMember(LogsBetween(chain, 0, later + 1), id, l);
    OfferEndsAtMostOnce(chain, later + 1, id);
  }

  lemma OffersGrow(chain: seq<Block>, block: nat, later: nat)
    requires block <= later < |chain|
    ensures |StorageAt(chain, block).offers| <= |StorageAt(chain, later).offers|
  {
    hide LogsBetween, StorageAfter, OfferLogs;
    var n := |StorageAt(chain, block).offers|;
    if n > 0 {
      OfferEndsAtMostOnce(chain, block + 1, n - 1);
      var logs := LogsBetween(chain, 0, block + 1);
      OfferLogsMember(logs, n - 1, OfferLogs(logs, n - 1)[0]);
      MentionedOfferExists(chain, block, later, n - 1, OfferLogs(logs, n - 1)[0]);
    }
  }

  // ----- what an offer looks like later -----

  function OfferAt(chain: seq<Block>, block: nat, id: nat): Option<Offer>
    requires block < |chain|
  {
    var offers := StorageAt(chain, block).offers;
    if id < |offers| then Some(offers[id]) else None
  }

  /** Only `active` may differ. */
  predicate SameTerms(before: Offer, after: Offer) {
    after == before.(active := after.active)
  }

  ghost predicate TermsKept(before: Storage, after: Storage) {
    |before.offers| <= |after.offers| && forall id | 0 <= id < |before.offers| :: SameTerms(before.offers[id], after.offers[id])
  }

  lemma ExecuteKeepsTerms(s: Storage, now: nat, tx: Transaction)
    requires WellFormed(s)
    ensures TermsKept(s, Execute(s, now, tx).storage)
  {}

  lemma {:induction false} ExecuteAllKeepsTerms(s: Storage, now: nat, txs: seq<Transaction>)
    requires WellFormed(s)
    ensures TermsKept(s, ExecuteAll(s, now, txs).storage)
  {
    hide Execute;
    if txs != [] {
      var init := txs[..|txs| - 1];
      ExecuteAllKeepsTerms(s, now, init);
      ExecuteKeepsTerms(ExecuteAll(s, now, init).storage, now, txs[|txs| - 1]);
    }
  }

  lemma {:induction false} TermsNeverChange(chain: seq<Block>, block: nat, later: nat)
    requires block <= later < |chain|
    ensures TermsKept(StorageAt(chain, block), StorageAt(chain, later))
    decreases later
  {
    hide ExecuteAll;
    if block < later {
      TermsNeverChange(chain, block, later - 1);
      ExecuteAllKeepsTerms(StorageAfter(chain, later), chain[later].time, chain[later].transactions);
    }
  }

  predicate Ends(l: Log, id: nat) {
    (l.event.OfferAccepted? || l.event.OfferCancelled?) && l.event.id == id
  }

  /** An offer whose end is logged is inactive from then on. */
  lemma EndedIsInactive(chain: seq<Block>, block: nat, later: nat, id: nat, l: Log)
    requires block <= later < |chain| && Ends(l, id) && l in LogsBetween(chain, 0, block + 1)
    ensures OfferAt(chain, later, id).Some? && !OfferAt(chain, later, id).value.active
  {
    hide LogsBetween, StorageAfter, OfferLogs;
    EarlierLogsStay(chain, block, later, l);
    OfferLogsMember(LogsBetween(chain, 0, later + 1), id, l);
    OfferEndsAtMostOnce(chain, later + 1, id);
  }

  /** An offer no log mentions stays as it is: unlike listings, offers never change silently. */
  lemma UnmentionedOfferStays(chain: seq<Block>, block: nat, later: nat, id: nat)
    requires block <= later < |chain|
    requires forall l | l in LogsBetween(chain, block + 1, later + 1) :: !IsAboutOffer(l.event, id)
    ensures OfferAt(chain, later, id) == OfferAt(chain, block, id)
  {
    hide LogsBetween, StorageAfter, OfferLogs;
    var before, after := LogsBetween(chain, 0, block + 1), LogsBetween(chain, block + 1, later + 1);
    SplitRange(chain, block + 1, later + 1);
    OfferLogsConcat(before, after, id);
    NoneAbout(after, id);
    OfferEndsAtMostOnce(chain, block + 1, id);
    OfferEndsAtMostOnce(chain, later + 1, id);
    TermsNeverChange(chain, block, later);
  }

  lemma {:induction false} NoneAbout(logs: seq<Log>, id: nat)
    requires forall l | l in logs :: !IsAboutOffer(l.event, id)
    ensures OfferLogs(logs, id) == []
  {
    if logs != [] {
      NoneAbout(logs[..|logs| - 1], id);
    }
  }

  lemma LogsInPart(chain: seq<Block>, lo: nat, mid: nat, hi: nat, l: Log)
    requires lo <= mid <= hi <= |chain| && l in LogsBetween(chain, mid, hi)
    ensures l in LogsBetween(chain, lo, hi)
  {
    hide LogsIn;
    LogsInSplit(BlockLogs(chain), lo, mid, hi - 1);
  }
}
