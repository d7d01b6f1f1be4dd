/** What the settlements of a history of offer syncs leave in the holdings of one token. */
module SettledHoldings {
  import opened Options
  import opened Marketplace
  import opened Holdings
  import OfferMirror

  type Settlement = OfferMirror.Settlement

  predicate IsOf(s: Settlement, nft: Address, tokenId: nat) {
    s.nft == nft && s.tokenId == tokenId
  }

  /** The quantity of the token a holder bought, or sold, in these settlements. */
  function Bought(settled: seq<Settlement>, nft: Address, tokenId: nat, holder: Address): nat {
    if settled == [] then 0
    else
      var s := settled[|settled| - 1];
      Bought(settled[..|settled| - 1], nft, tokenId, holder) +
      if IsOf(s, nft, tokenId) && s.buyer == holder then s.quantity else 0
  }

  function Sold(settled: seq<Settlement>, nft: Address, tokenId: nat, holder: Address): nat {
    if settled == [] then 0
    else
      var s := settled[|settled| - 1];
      Sold(settled[..|settled| - 1], nft, tokenId, holder) +
      if IsOf(s, nft, tokenId) && s.seller == holder then s.quantity else 0
  }

  /** The record of an ERC-1155 token after these settlements. */
  function After(h: Ledger, settled: seq<Settlement>, nft: Address, tokenId: nat): Ledger {
    if settled == [] then h
    else
      var s, before := settled[|settled| - 1], After(h, settled[..|settled| - 1], nft, tokenId);
      if IsOf(s, nft, tokenId) then Moved(before, s.seller, s.buyer, s.quantity) else before
  }

  /** What a holder sold without the record showing it had that much. */
  function Lacked(h: Ledger, settled: seq<Settlement>, nft: Address, tokenId: nat, holder: Address): nat {
    if settled == [] then 0
    else
      var s, init := settled[|settled| - 1], settled[..|settled| - 1];
      Lacked(h, init, nft, tokenId, holder) +
      if IsOf(s, nft, tokenId) && s.seller == holder && Held(After(h, init, nft, tokenId), holder) < s.quantity
      then s.quantity - Held(After(h, init, nft, tokenId), holder) else 0
  }

  function LackedInAll(h: Ledger, settled: seq<Settlement>, nft: Address, tokenId: nat): nat {
    if settled == [] then 0
    else
      var s, init := settled[|settled| - 1], settled[..|settled| - 1];
      LackedInAll(h, init, nft, tokenId) +
      if IsOf(s, nft, tokenId) && Held(After(h, init, nft, tokenId), s.seller) < s.quantity
      then s.quantity - Held(After(h, init, nft, tokenId), s.seller) else 0
  }

  /** Every holder ends with what it held, plus what it bought, less what it sold, plus what it sold
      without holding it; nothing else comes into being or goes. */
  lemma {:induction false} HoldingsFollowSettlements(h: Ledger, settled: seq<Settlement>, nft: Address, tokenId: nat, holder: Address)
    requires AllPositive(h) && forall s | s in settled :: s.seller != s.buyer
    ensures AllPositive(After(h, settled, nft, tokenId))
    ensures Held(After(h, settled, nft, tokenId), holder) ==
            Held(h, holder) + Bought(settled, nft, tokenId, holder) - Sold(settled, nft, tokenId, holder) +
            Lacked(h, settled, nft, tokenId, holder)
    ensures Total(After(h, settled, nft, tokenId)) == Total(h) + LackedInAll(h, settled, nft, tokenId)
  {
    hide Moved, Total;
    if settled != [] {
      var s, init := settled[|settled| - 1], settled[..|settled| - 1];
      HoldingsFollowSettlements(h, init, nft, tokenId, holder);
      if IsOf(s, nft, tokenId) {
        SettlementConserves(After(h, init, nft, tokenId), s.seller, s.buyer, s.quantity);
      }
    }
  }

  /** Settled in this order, the record never shows less than a seller sells. */
  predicate NeverLacking(h: Ledger, settled: seq<Settlement>, nft: Address, tokenId: nat) {
    forall k | 0 <= k < |settled| && IsOf(settled[k], nft, tokenId) ::
      settled[k].quantity <= Held(After(h, settled[..k], nft, tokenId), settled[k].seller)
  }

  /** Then the holdings are exactly those the acceptances account for, and the total stays. */
  lemma {:induction false} NothingLacked(h: Ledger, settled: seq<Settlement>, nft: Address, tokenId: nat, holder: Address)
    ensures LackedInAll(h, settled, nft, tokenId) == 0 <==> NeverLacking(h, settled, nft, tokenId)
    ensures NeverLacking(h, settled, nft, tokenId) ==> Lacked(h, settled, nft, tokenId, holder) == 0
  {
    if settled != [] {
      var n := |settled| - 1;
      NothingLacked(h, settled[..n], nft, tokenId, holder);
      forall k | 0 <= k < n
        ensures settled[..n][..k] == settled[..k] && settled[..n][k] == settled[k]
      {}
    }
  }

  lemma NothingMoved(h: Ledger, seller: Address, buyer: Address)
    requires AllPositive(h)
    ensures Moved(h, seller, buyer, 0) == h
  {}

  /** The record of one ERC-1155 token, settlement by settlement. */
  method SettleAll(record: TokenRecord, settled: seq<Settlement>, nft: Address, tokenId: nat)
    requires AllPositive(record.holdings)
    requires forall s | s in settled :: s.seller != s.buyer && (IsOf(s, nft, tokenId) ==> s.standard == Erc1155)
    modifies record
    ensures record.holdings == After(old(record.holdings), settled, nft, tokenId)
    ensures forall a :: Held(record.holdings, a) ==
                        Held(old(record.holdings), a) + Bought(settled, nft, tokenId, a) - Sold(settled, nft, tokenId, a) +
                        Lacked(old(record.holdings), settled, nft, tokenId, a)
    ensures NeverLacking(old(record.holdings), settled, nft, tokenId) ==>
              Total(record.holdings) == Total(old(record.holdings)) &&
              forall a :: Held(record.holdings, a) ==
                          Held(old(record.holdings), a) + Bought(settled, nft, tokenId, a) - Sold(settled, nft, tokenId, a)
  {
    hide Moved, Total, NeverLacking, Lacked, LackedInAll;
    ghost var before := record.holdings;
    for k := 0 to |settled|
      invariant record.holdings == After(before, settled[..k], nft, tokenId) && AllPositive(record.holdings)
    {
      assert settled[..k + 1][..k] == settled[..k];
      if IsOf(settled[k], nft, tokenId) {
        var quantity := if settled[k].quantity > 0 then Some(settled[k].quantity) else None;
        if settled[k].quantity == 0 {
          NothingMoved(record.holdings, settled[k].seller, settled[k].buyer);
        }
        record.ApplyAcceptedOffer(settled[k].buyer, settled[k].seller, quantity, settled[k].standard);
      }
    }
    assert settled[..|settled|] == settled;
    HoldingsFollowSettlements(before, settled, nft, tokenId, 0);
    NothingLacked(before, settled, nft, tokenId, 0);
    forall a
      ensures Held(record.holdings, a) ==
              Held(before, a) + Bought(settled, nft, tokenId, a) - Sold(settled, nft, tokenId, a) +
              Lacked(before, settled, nft, tokenId, a)
      ensures NeverLacking(before, settled, nft, tokenId) ==> Lacked(before, settled, nft, tokenId, a) == 0
    {
      HoldingsFollowSettlements(before, settled, nft, tokenId, a);
      NothingLacked(before, settled, nft, tokenId, a);
    }
  }
}
