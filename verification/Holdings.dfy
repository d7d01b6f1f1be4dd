/** The recorded holders of one token and what settling an accepted offer does to them
    (`syncIndexedTokenHolding`, `applyAcceptedOfferOwnership`). */
module Holdings {
  import opened Options
  import opened Marketplace

  type Ledger = map<Address, nat>

  function Held(h: Ledger, a: Address): nat {
    if a in h then h[a] else 0
  }

  predicate AllPositive(h: Ledger) {
    forall a | a in h :: h[a] > 0
  }

  // ----- the sum over all holders -----

  ghost function SumOver(h: Ledger, holders: set<Address>): nat
    requires holders <= h.Keys
  {
    if holders == {} then 0
    else var a :| a in holders; h[a] + SumOver(h, holders - {a})
  }

  ghost function Total(h: Ledger): nat { SumOver(h, h.Keys) }

  lemma {:induction false} SumWithout(h: Ledger, holders: set<Address>, a: Address)
    requires holders <= h.Keys && a in holders
    ensures SumOver(h, holders) == h[a] + SumOver(h, holders - {a})
    decreases holders
  {
    var b :| b in holders && SumOver(h, holders) == h[b] + SumOver(h, holders - {b});
    if a != b {
      SumWithout(h, holders - {b}, a);
      SumWithout(h, holders - {a}, b);
      assert holders - {b} - {a} == holders - {a} - {b};
    }
  }

  lemma {:induction false} SumAgrees(h: Ledger, k: Ledger, holders: set<Address>)
    requires holders <= h.Keys && holders <= k.Keys && forall a | a in holders :: h[a] == k[a]
    ensures SumOver(h, holders) == SumOver(k, holders)
    decreases holders
  {
    if holders != {} {
      var a :| a in holders;
      SumWithout(h, holders, a);
      SumWithout(k, holders, a);
      SumAgrees(h, k, holders - {a});
    }
  }

  /** Changing one holder's amount changes the total by the difference. */
  lemma TotalAfterSet(h: Ledger, a: Address, q: nat)
    ensures Total(h[a := q]) == Total(h) - Held(h, a) + q
    ensures Held(h, a) <= Total(h)
  {
    var k := h[a := q];
    SumWithout(k, k.Keys, a);
    SumAgrees(h, k, h.Keys - {a});
    assert k.Keys - {a} == h.Keys - {a};
    if a in h {
      SumWithout(h, h.Keys, a);
    } else {
      assert h.Keys - {a} == h.Keys;
    }
  }

  lemma TotalAfterRemove(h: Ledger, a: Address)
    ensures Total(h - {a}) == Total(h) - Held(h, a)
    ensures Held(h, a) <= Total(h)
  {
    var k := h - {a};
    assert k.Keys == h.Keys - {a};
    SumAgrees(h, k, k.Keys);
    if a in h {
      SumWithout(h, h.Keys, a);
    } else {
      assert k == h;
    }
  }

  // ----- settlement -----

  /** A holding written as a quantity, or dropped when there is none to write. */
  function Written(h: Ledger, a: Address, q: int): Ledger {
    if q > 0 then h[a := q] else h - {a}
  }

  /** Both holdings are read first, then the seller's is written, then the buyer's. */
  function Moved(h: Ledger, seller: Address, buyer: Address, quantity: nat): Ledger {
    Written(Written(h, seller, Held(h, seller) - quantity), buyer, Held(h, buyer) + quantity)
  }

  function Shortfall(h: Ledger, seller: Address, quantity: nat): nat {
    if Held(h, seller) < quantity then quantity - Held(h, seller) else 0
  }

  /** Settling between two different holders leaves every other holder alone, leaves no empty
      row, and keeps the total, except that what the seller's record lacks is added to it. */
  lemma SettlementConserves(h: Ledger, seller: Address, buyer: Address, quantity: nat)
    requires AllPositive(h) && seller != buyer
    ensures var h' := Moved(h, seller, buyer, quantity);
      && AllPositive(h')
      && Held(h', buyer) == Held(h, buyer) + quantity
      && Held(h', seller) == Held(h, seller) - quantity + Shortfall(h, seller, quantity)
      && (forall a | a != seller && a != buyer :: Held(h', a) == Held(h, a))
      && Total(h') == Total(h) + Shortfall(h, seller, quantity)
  {
    var q := Held(h, seller) - quantity;
    var h1 := Written(h, seller, q);
    if q > 0 {
      TotalAfterSet(h, seller, q);
    } else {
      TotalAfterRemove(h, seller);
    }
    if Held(h1, buyer) + quantity > 0 {
      TotalAfterSet(h1, buyer, Held(h1, buyer) + quantity);
    } else {
      TotalAfterRemove(h1, buyer);
    }
  }

  /** For a holder trading with itself the second write undoes the first: the total grows by the
      whole quantity. The marketplace contract rules this case out. */
  lemma SelfSettlementInflates(h: Ledger, holder: Address, quantity: nat)
    requires quantity > 0
    ensures Total(Moved(h, holder, holder, quantity)) == Total(h) + quantity
  {
    var q := Held(h, holder) - quantity;
    var h1 := Written(h, holder, q);
    assert Moved(h, holder, holder, quantity) == h[holder := Held(h, holder) + quantity];
    TotalAfterSet(h, holder, Held(h, holder) + quantity);
  }

  /** The record agrees with the token contract as long as it starts out agreeing. */
  lemma SettlementTracksChain(h: Ledger, balances: Address -> nat, seller: Address, buyer: Address, quantity: nat)
    requires seller != buyer && 0 < quantity <= balances(seller)
    requires forall a :: Held(h, a) == balances(a)
    ensures forall a :: Held(Moved(h, seller, buyer, quantity), a) ==
                        balances(a) - (if a == seller then quantity else 0) + (if a == buyer then quantity else 0)
  {}

  class TokenRecord {
    var holdings: Ledger
    var owner: Address

    constructor (owner: Address)
      ensures this.owner == owner && holdings == map[]
    {
      this.owner, holdings := owner, map[];
    }

    /** `syncIndexedTokenHolding`; a quantity that is not a positive numeral arrives as None. */
    method SyncHolding(holder: Address, quantity: Option<nat>, standard: Standard)
      requires quantity.Some? ==> quantity.value > 0
      modifies this`holdings
      ensures standard == Erc721 ==> holdings == map[holder := 1]
      ensures standard == Erc1155 ==>
                holdings == Written(old(holdings), holder, if quantity.Some? then quantity.value else 0)
    {
      if standard == Erc721 {
        holdings := map a | a in holdings && a == holder :: holdings[a];
        holdings := holdings[holder := 1];
        return;
      }
      if quantity.None? {
        holdings := holdings - {holder};
        return;
      }
      holdings := holdings[holder := quantity.value];
    }

    /** `applyAcceptedOfferOwnership`; rows come back from the table in any order. The primary owner
        holds the most; the seller is preferred among equals. */
    method ApplyAcceptedOffer(buyer: Address, seller: Address, quantity: Option<nat>, standard: Standard)
      requires AllPositive(holdings) && (quantity.Some? ==> quantity.value > 0)
      modifies this
      ensures AllPositive(holdings)
      ensures standard == Erc721 ==> holdings == map[buyer := 1] && owner == buyer
      ensures standard == Erc1155 && quantity.None? ==> holdings == old(holdings) && owner == old(owner)
      ensures standard == Erc1155 && quantity.Some? ==>
                && holdings == Moved(old(holdings), seller, buyer, quantity.value)
                && owner in holdings && (forall a | a in holdings :: holdings[a] <= holdings[owner])
                && (seller in holdings && holdings[seller] == holdings[owner] ==> owner == seller)
    {
      if standard == Erc721 {
        owner := buyer;
        SyncHolding(buyer, Some(1), Erc721);
        return;
      }
      if quantity.None? {
        return;
      }
      var sellerHolding := Held(holdings, seller);
      var buyerHolding := Held(holdings, buyer);
      var nextSellerQuantity := if seller in holdings then sellerHolding - quantity.value else 0;
      if nextSellerQuantity > 0 {
        SyncHolding(seller, Some(nextSellerQuantity), Erc1155);
      } else {
        SyncHolding(seller, None, Erc1155);
      }
      SyncHolding(buyer, Some(buyerHolding + quantity.value), Erc1155);

      var primary := if nextSellerQuantity > 0 then seller else buyer;
      var unseen := holdings.Keys;
      while unseen != {}
        invariant unseen <= holdings.Keys && primary in holdings
        invariant forall a | a in holdings && a !in unseen :: holdings[a] <= holdings[primary]
        invariant seller in holdings && seller !in unseen && holdings[seller] == holdings[primary] ==> primary == seller
      {
        var a :| a in unseen;
        var quantity := holdings[a];
        var currentPrimaryQuantity := Held(holdings, primary);
        if quantity > currentPrimaryQuantity || (quantity == currentPrimaryQuantity && primary != seller && a == seller) {
          primary := a;
        }
        unseen := unseen - {a};
      }
      owner := primary;
    }
  }
}
