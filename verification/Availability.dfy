/** How much of an ERC-1155 holding is free to list: the client's arithmetic
    (apps/web/lib/listingAvailability.ts), which works from a reserved amount the indexer sent or
    by scanning the listings, and the indexer's own (services/indexer/src/indexer.ts). */
module Availability {
  import opened Options
  import opened Numerals
  import opened Texts

  /** The source's `bigint | string`. */
  datatype Quantity = Big(n: int) | Text(s: string)

  datatype Token = Token(chainId: Option<int>, contractAddress: string, tokenId: string)

  datatype Holding = Holding(token: Token, standard: string, heldAmountRaw: Option<string>, reservedAmountRaw: Option<string>,
                             availableAmountRaw: Option<string>, mintedAmountRaw: Option<string>)

  datatype Listing = Listing(chainId: Option<int>, key: Option<string>, active: Option<bool>, standard: string, nft: string,
                             tokenId: Quantity, amount: Quantity)

  datatype Availability = Availability(held: Option<nat>, reserved: nat, available: Option<nat>, oversubscribed: bool)

  // ----- reading quantities -----

  /** `a || b` on optional texts. */
  function Or(a: Option<string>, b: Option<string>): Option<string> {
    if OrEmpty(a) != "" then a else b
  }

  function OrZero(n: Option<nat>): nat { if n.Some? then n.value else 0 }

  function ChainOrZero(n: Option<int>): int { if n.Some? then n.value else 0 }

  function PositiveText(s: string): Option<nat> {
    if s != "" && Decimal(s) && s[0] != '0' then Some(Parse(s, 10)) else None
  }

  function PositiveQuantity(v: Option<string>): Option<nat> { PositiveText(Trim(OrEmpty(v))) }

  function NonNegativeQuantity(v: Option<string>): Option<nat> {
    if Trim(OrEmpty(v)) == "0" then Some(0) else PositiveQuantity(v)
  }

  function TextOf(q: Quantity): string {
    match q
    case Big(n) => if n < 0 then "-" + Print(-n, 10) else Print(n, 10)
    case Text(s) => s
  }

  /** Token ids are compared without leading zeros. */
  function TokenIdText(id: Quantity): Option<string> {
    var t := Trim(TextOf(id));
    if t != "" && Decimal(t) then Some(Print(Parse(t, 10), 10)) else None
  }

  function ListingAmount(listing: Listing): Option<nat> {
    match listing.amount
    case Big(n) => if n > 0 then Some(n) else None
    case Text(s) => PositiveQuantity(Some(s))
  }

  lemma ParsePositive(s: string)
    requires s != "" && Decimal(s) && s[0] != '0'
    ensures Parse(s, 10) > 0
  {
    hide Parse, Pow;
    LeadingDigit(s, 10);
    assert s == [s[0]] + s[1..];
    ParseCons(s[0], s[1..], 10);
    PowPositive(10, |s| - 1);
    MulPositive(Value(s[0]), Pow(10, |s| - 1));
  }

  lemma AmountPositive(listing: Listing)
    ensures ListingAmount(listing).Some? ==> ListingAmount(listing).value > 0
  {
    hide Parse, Trim;
    if listing.amount.Text? {
      var t := Trim(listing.amount.s);
      if PositiveText(t).Some? {
        ParsePositive(t);
      }
    }
  }

  /** A quantity is read exactly from the decimal digits of a number, trimmed; zero only where it is allowed. */
  lemma QuantityReadsIff(v: Option<string>, n: nat)
    ensures PositiveQuantity(v) == Some(n) <==> n > 0 && Trim(OrEmpty(v)) == Print(n, 10)
    ensures NonNegativeQuantity(v) == Some(n) <==> Trim(OrEmpty(v)) == Print(n, 10)
  {
    hide Trim, Parse, Print;
    PrintDecimal(n);
    PrintCanonical(n, 10);
    ParsePrint(n, 10);
    PrintZero();
    var t := Trim(OrEmpty(v));
    if PositiveText(t).Some? {
      PrintParse(t);
      ParsePositive(t);
    }
  }

  /** Two token ids are the same exactly when both are decimal digits of one number. */
  lemma SameTokenIff(a: Quantity, b: Quantity)
    ensures TokenIdText(a).Some? && TokenIdText(a) == TokenIdText(b) <==>
            var s, t := Trim(TextOf(a)), Trim(TextOf(b));
            s != "" && t != "" && Decimal(s) && Decimal(t) && Parse(s, 10) == Parse(t, 10)
  {
    hide Trim, Parse, Print;
    var s, t := Trim(TextOf(a)), Trim(TextOf(b));
    ParsePrint(Parse(s, 10), 10);
    ParsePrint(Parse(t, 10), 10);
  }

  // ----- what is reserved -----

  predicate ForToken(token: Token, listing: Listing) {
    && listing.active != Some(false)
    && Upper(listing.standard) == "ERC1155"
    && ChainOrZero(listing.chainId) == ChainOrZero(token.chainId)
    && Lower(listing.nft) == Lower(token.contractAddress)
    && TokenIdText(Text(token.tokenId)).Some?
    && TokenIdText(listing.tokenId) == TokenIdText(Text(token.tokenId))
  }

  /** An absent or empty key excludes nothing. */
  predicate Excluded(listing: Listing, excludeKey: Option<string>) {
    OrEmpty(excludeKey) != "" && listing.key == excludeKey
  }

  predicate Withheld(token: Token, listing: Listing, excludeKey: Option<string>) {
    ForToken(token, listing) && Excluded(listing, excludeKey)
  }

  /** The total of the listings of this token that are not excluded. */
  function Reserved(token: Token, listings: seq<Listing>, excludeKey: Option<string>): nat {
    if listings == [] then 0
    else
      var counts := ForToken(token, listings[0]) && !Excluded(listings[0], excludeKey);
      (if counts then OrZero(ListingAmount(listings[0])) else 0) + Reserved(token, listings[1..], excludeKey)
  }

  /** The total of the excluded ones. */
  function WithheldTotal(token: Token, listings: seq<Listing>, excludeKey: Option<string>): nat {
    if listings == [] then 0
    else
      (if Withheld(token, listings[0], excludeKey) then OrZero(ListingAmount(listings[0])) else 0)
      + WithheldTotal(token, listings[1..], excludeKey)
  }

  /** The amount of the first excluded one. */
  function FirstWithheld(token: Token, listings: seq<Listing>, excludeKey: Option<string>): nat {
    if listings == [] then 0
    else if Withheld(token, listings[0], excludeKey) then OrZero(ListingAmount(listings[0]))
    else FirstWithheld(token, listings[1..], excludeKey)
  }

  lemma {:induction false} ReservedSplits(token: Token, listings: seq<Listing>, excludeKey: Option<string>)
    ensures Reserved(token, listings, None) == Reserved(token, listings, excludeKey) + WithheldTotal(token, listings, excludeKey)
  {
    hide ForToken, ListingAmount;
    if listings != [] {
      ReservedSplits(token, listings[1..], excludeKey);
    }
  }

  /** Behind the first excluded listing of the token, no excluded listing has an amount. */
  predicate OnlyFirstCounts(token: Token, listings: seq<Listing>, excludeKey: Option<string>) {
    forall i, j | 0 <= i < j < |listings| && Withheld(token, listings[i], excludeKey) && Withheld(token, listings[j], excludeKey) ::
      ListingAmount(listings[j]).None?
  }

  lemma {:induction false} NothingWithheldIff(token: Token, listings: seq<Listing>, excludeKey: Option<string>)
    ensures WithheldTotal(token, listings, excludeKey) == 0 <==>
            forall i | 0 <= i < |listings| && Withheld(token, listings[i], excludeKey) :: ListingAmount(listings[i]).None?
  {
    hide Withheld, ListingAmount;
    if listings != [] {
      NothingWithheldIff(token, listings[1..], excludeKey);
      AmountPositive(listings[0]);
      assert forall i | 1 <= i < |listings| :: listings[i] == listings[1..][i - 1];
    }
  }

  lemma {:induction false} FirstIsAllIff(token: Token, listings: seq<Listing>, excludeKey: Option<string>)
    ensures FirstWithheld(token, listings, excludeKey) <= WithheldTotal(token, listings, excludeKey)
    ensures FirstWithheld(token, listings, excludeKey) == WithheldTotal(token, listings, excludeKey) <==>
            OnlyFirstCounts(token, listings, excludeKey)
  {
    hide Withheld, ListingAmount;
    if listings != [] {
      var rest := listings[1..];
      FirstIsAllIff(token, rest, excludeKey);
      NothingWithheldIff(token, rest, excludeKey);
      assert forall i | 1 <= i < |listings| :: listings[i] == rest[i - 1];
      assert forall i | 0 <= i < |rest| :: rest[i] == listings[i + 1];
    }
  }

  // ----- the client -----

  function Minus(a: nat, b: nat): nat { if a > b then a - b else 0 }

  function Held(item: Holding): Option<nat> {
    if Upper(item.standard) != "ERC1155" then None else PositiveQuantity(Or(item.heldAmountRaw, item.mintedAmountRaw))
  }

  /** With a usable reserved amount from the indexer. */
  function FromPrecomputed(item: Holding, reserved: nat, excluded: nat): Availability {
    var held, left := Held(item), Minus(reserved, excluded);
    var sent := NonNegativeQuantity(item.availableAmountRaw);
    Availability(held, left,
                 if held.Some? then Some(Minus(held.value, left))
                 else if sent.Some? then Some(sent.value + excluded) else None,
                 held.Some? && left > held.value)
  }

  function FromScan(item: Holding, reserved: nat): Availability {
    var held := Held(item);
    Availability(held, reserved, if held.Some? then Some(Minus(held.value, reserved)) else None,
                 held.Some? && reserved > held.value)
  }

  function AvailabilityOf(item: Holding, listings: seq<Listing>, excludeKey: Option<string>): Availability {
    match NonNegativeQuantity(item.reservedAmountRaw)
    case Some(reserved) => FromPrecomputed(item, reserved, FirstWithheld(item.token, listings, excludeKey))
    case None => FromScan(item, Reserved(item.token, listings, excludeKey))
  }

  method GetExcludedListingAmount(token: Token, listings: seq<Listing>, excludeKey: Option<string>) returns (amount: nat)
    ensures amount == FirstWithheld(token, listings, excludeKey)
  {
    hide ListingAmount, Upper, Lower, TokenIdText;
    if OrEmpty(excludeKey) == "" {
      NothingExcluded(token, listings, excludeKey);
      return 0;
    }
    var tokenId := TokenIdText(Text(token.tokenId));
    if tokenId.None? {
      NoTokenId(token, listings, excludeKey);
      return 0;
    }
    var i := 0;
    while i < |listings|
      invariant 0 <= i <= |listings|
      invariant FirstWithheld(token, listings, excludeKey) == FirstWithheld(token, listings[i..], excludeKey)
    {
      var listing := listings[i];
      assert listings[i..][1..] == listings[i + 1..];
      i := i + 1;
      if listing.key != excludeKey || listing.active == Some(false) || Upper(listing.standard) != "ERC1155" { continue; }
      if ChainOrZero(listing.chainId) != ChainOrZero(token.chainId) { continue; }
      if Lower(listing.nft) != Lower(token.contractAddress) || TokenIdText(listing.tokenId) != tokenId { continue; }
      return OrZero(ListingAmount(listing));
    }
    return 0;
  }

  /** An active ERC-1155 listing of the token with the key to exclude. */
  predicate Excludes(token: Token, listing: Listing, excludeKey: Option<string>) {
    && excludeKey.Some? && excludeKey.value != "" && listing.key == excludeKey
    && ListsToken(token, listing)
  }

  predicate ListsToken(token: Token, listing: Listing) {
    && listing.active != Some(false) && Upper(listing.standard) == "ERC1155"
    && (if listing.chainId.Some? then listing.chainId.value else 0) == (if token.chainId.Some? then token.chainId.value else 0)
    && Lower(listing.nft) == Lower(token.contractAddress)
    && TokenIdText(listing.tokenId).Some? && TokenIdText(listing.tokenId) == TokenIdText(Text(token.tokenId))
  }

  /** What is withheld is the amount of the first listing to exclude, and nothing without one. */
  lemma {:induction false} FirstIsFirst(token: Token, listings: seq<Listing>, excludeKey: Option<string>, i: nat)
    requires i <= |listings| && forall j | 0 <= j < i :: !Excludes(token, listings[j], excludeKey)
    requires i < |listings| ==> Excludes(token, listings[i], excludeKey)
    ensures FirstWithheld(token, listings, excludeKey) == if i < |listings| then OrZero(ListingAmount(listings[i])) else 0
  {
    hide Excludes, Withheld, ListingAmount;
    if listings != [] {
      ExcludesIff(token, listings[0], excludeKey);
      if i > 0 {
        var rest := listings[1..];
        assert forall j | 0 <= j < |rest| :: rest[j] == listings[j + 1];
        FirstIsFirst(token, rest, excludeKey, i - 1);
      }
    }
  }

  lemma ExcludesIff(token: Token, listing: Listing, excludeKey: Option<string>)
    ensures Excludes(token, listing, excludeKey) <==> Withheld(token, listing, excludeKey)
  {
    hide TokenIdText, Upper, Lower;
  }

  function Plus(amounts: seq<nat>): nat {
    if amounts == [] then 0 else amounts[0] + Plus(amounts[1..])
  }

  lemma {:induction false} NothingExcluded(token: Token, listings: seq<Listing>, excludeKey: Option<string>)
    requires OrEmpty(excludeKey) == ""
    ensures FirstWithheld(token, listings, excludeKey) == 0
  {
    if listings != [] {
      NothingExcluded(token, listings[1..], excludeKey);
    }
  }

  lemma {:induction false} NoTokenId(token: Token, listings: seq<Listing>, excludeKey: Option<string>)
    requires TokenIdText(Text(token.tokenId)).None?
    ensures FirstWithheld(token, listings, excludeKey) == 0 && Reserved(token, listings, excludeKey) == 0
  {
    hide TokenIdText;
    if listings != [] {
      NoTokenId(token, listings[1..], excludeKey);
    }
  }

  lemma {:induction false} ReservedIsPlus(token: Token, listings: seq<Listing>, excludeKey: Option<string>, counted: seq<nat>)
    requires |counted| == |listings|
    requires forall i | 0 <= i < |listings| ::
               counted[i] == if ListsToken(token, listings[i]) && !Excludes(token, listings[i], excludeKey)
                             then OrZero(ListingAmount(listings[i])) else 0
    ensures Reserved(token, listings, excludeKey) == Plus(counted)
  {
    hide TokenIdText, ListingAmount, Upper, Lower;
    if listings != [] {
      assert forall i | 0 <= i < |listings| - 1 :: counted[1..][i] == counted[i + 1] && listings[1..][i] == listings[i + 1];
      ReservedIsPlus(token, listings[1..], excludeKey, counted[1..]);
    }
  }

  /** `counted` is what each listing adds: its amount if it lists the token and is not excluded. */
  method ScanReserved(token: Token, listings: seq<Listing>, excludeKey: Option<string>)
    returns (reserved: nat, ghost counted: seq<nat>)
    requires TokenIdText(Text(token.tokenId)).Some?
    ensures reserved == Reserved(token, listings, excludeKey)
    ensures reserved == Plus(counted) && |counted| == |listings|
    ensures forall i | 0 <= i < |listings| ::
              counted[i] == if ListsToken(token, listings[i]) && !Excludes(token, listings[i], excludeKey)
                            then OrZero(ListingAmount(listings[i])) else 0
  {
    counted := seq(|listings|, i requires 0 <= i < |listings| =>
                 if ListsToken(token, listings[i]) && !Excludes(token, listings[i], excludeKey)
                 then OrZero(ListingAmount(listings[i])) else 0);
    ReservedIsPlus(token, listings, excludeKey, counted);
    hide ListingAmount, Upper, Lower, TokenIdText;
    var tokenId := TokenIdText(Text(token.tokenId));
    reserved := 0;
    var i := 0;
    while i < |listings|
      invariant 0 <= i <= |listings|
      invariant reserved + Reserved(token, listings[i..], excludeKey) == Reserved(token, listings, excludeKey)
    {
      var listing := listings[i];
      assert listings[i..][1..] == listings[i + 1..];
      i := i + 1;
      if listing.active == Some(false) || Upper(listing.standard) != "ERC1155" { continue; }
      if OrEmpty(excludeKey) != "" && listing.key == excludeKey { continue; }
      if ChainOrZero(listing.chainId) != ChainOrZero(token.chainId) { continue; }
      if Lower(listing.nft) != Lower(token.contractAddress) || TokenIdText(listing.tokenId) != tokenId { continue; }
      var amount := ListingAmount(listing);
      if amount.Some? {
        reserved := reserved + amount.value;
      }
    }
  }

  /** With a known balance, what is reserved and what is available make up the balance, unless
      more is listed than held. */
  method GetErc1155ListingAvailability(item: Holding, listings: seq<Listing>, excludeKey: Option<string>) returns (a: Availability)
    ensures a == AvailabilityOf(item, listings, excludeKey)
    ensures a.held.Some? ==> a.available.Some?
    ensures a.held.Some? ==> (a.oversubscribed <==> a.reserved > a.held.value)
    ensures a.held.Some? ==> (!a.oversubscribed <==> a.reserved + a.available.value == a.held.value)
  {
    hide PositiveText, TokenIdText, Reserved, FirstWithheld, Excludes, ListsToken, Plus, ListingAmount;
    var held := Held(item);
    var precomputedReserved := NonNegativeQuantity(item.reservedAmountRaw);
    var precomputedAvailable := NonNegativeQuantity(item.availableAmountRaw);
    var excluded := GetExcludedListingAmount(item.token, listings, excludeKey);
    if precomputedReserved.Some? {
      var reserved := if precomputedReserved.value > excluded then precomputedReserved.value - excluded else 0;
      var available :=
        if held.Some? then Some(if held.value > reserved then held.value - reserved else 0)
        else if precomputedAvailable.Some? then Some(precomputedAvailable.value + excluded) else None;
      return Availability(held, reserved, available, held.Some? && reserved > held.value);
    }
    if TokenIdText(Text(item.token.tokenId)).None? {
      NoTokenId(item.token, listings, excludeKey);
      return Availability(held, 0, held, false);
    }
    var reserved, _ := ScanReserved(item.token, listings, excludeKey);
    if held.None? {
      return Availability(held, reserved, None, false);
    }
    a := Availability(held, reserved, Some(if held.value > reserved then held.value - reserved else 0), reserved > held.value);
  }

  /** What the answer says: the balance as recorded or minted; what the indexer says is reserved less the
      excluded listing, or else what the listings reserve; and the rest, which without a balance is
      what the indexer says is free plus the excluded listing. */
  lemma AvailabilitySaid(item: Holding, listings: seq<Listing>, excludeKey: Option<string>, a: Availability)
    requires a == AvailabilityOf(item, listings, excludeKey)
    ensures a.held == if Upper(item.standard) != "ERC1155" then None
                      else PositiveQuantity(if OrEmpty(item.heldAmountRaw) != "" then item.heldAmountRaw else item.mintedAmountRaw)
    ensures var sent, excluded := NonNegativeQuantity(item.reservedAmountRaw), FirstWithheld(item.token, listings, excludeKey);
      a.reserved == if sent.None? then Reserved(item.token, listings, excludeKey)
                    else if sent.value > excluded then sent.value - excluded else 0
    ensures a.held.Some? ==> a.available == Some(if a.held.value > a.reserved then a.held.value - a.reserved else 0)
    ensures a.held.None? ==>
              && !a.oversubscribed
              && var free := NonNegativeQuantity(item.availableAmountRaw);
                 a.available == if NonNegativeQuantity(item.reservedAmountRaw).Some? && free.Some?
                                then Some(free.value + FirstWithheld(item.token, listings, excludeKey)) else None
  {
    hide PositiveText, Reserved, FirstWithheld, Upper, Trim;
  }

  function Unsent(item: Holding): Holding { item.(reservedAmountRaw := None) }

  /** A reserved amount that is the total of the token's listings leads to the same answer as
      scanning exactly when, of the excluded listings, only the first has an amount (so in
      particular when the key is unique), and the balance is known or no available amount was sent. */
  lemma PathsAgreeIff(item: Holding, listings: seq<Listing>, excludeKey: Option<string>)
    requires NonNegativeQuantity(item.reservedAmountRaw) == Some(Reserved(item.token, listings, None))
    ensures AvailabilityOf(item, listings, excludeKey) == AvailabilityOf(Unsent(item), listings, excludeKey) <==>
            && OnlyFirstCounts(item.token, listings, excludeKey)
            && (Held(item).Some? || NonNegativeQuantity(item.availableAmountRaw).None?)
  {
    hide PositiveText, Reserved, WithheldTotal, FirstWithheld, OnlyFirstCounts, Upper;
    NoneUnread();
    ReservedSplits(item.token, listings, excludeKey);
    FirstIsAllIff(item.token, listings, excludeKey);
  }

  // ----- several items -----

  predicate IsSmallest(items: seq<Holding>, listings: seq<Listing>, excludeKey: Option<string>, smallest: Option<nat>) {
    match smallest
    case None => items == [] || exists i :: 0 <= i < |items| && AvailabilityOf(items[i], listings, excludeKey).available.None?
    case Some(least) =>
      && (forall i | 0 <= i < |items| ::
            var available := AvailabilityOf(items[i], listings, excludeKey).available; available.Some? && least <= available.value)
      && (exists i :: 0 <= i < |items| && AvailabilityOf(items[i], listings, excludeKey).available == smallest)
  }

  predicate Enough(a: Availability, requested: int) { a.available.Some? && a.available.value >= requested }

  method GetSmallestErc1155AvailableBalance(items: seq<Holding>, listings: seq<Listing>, excludeKey: Option<string>)
    returns (smallest: Option<nat>)
    ensures IsSmallest(items, listings, excludeKey, smallest)
  {
    hide AvailabilityOf, PositiveQuantity, NonNegativeQuantity, FirstWithheld, Reserved, Upper, OrEmpty;
    smallest := None;
    var i := 0;
    while i < |items|
      invariant 0 <= i <= |items|
      invariant IsSmallest(items[..i], listings, excludeKey, smallest) && (i > 0 ==> smallest.Some?)
    {
      var a := GetErc1155ListingAvailability(items[i], listings, excludeKey);
      assert items[..i + 1][i] == items[i];
      if a.available.None? {
        return None;
      }
      assert forall j | 0 <= j < i :: items[..i + 1][j] == items[..i][j];
      smallest := if smallest.None? || a.available.value < smallest.value then a.available else smallest;
      i := i + 1;
    }
    assert items[..i] == items;
  }

  /** The first item that cannot give the requested amount. */
  method FindInsufficientErc1155Availability(items: seq<Holding>, listings: seq<Listing>, requested: int, excludeKey: Option<string>)
    returns (found: Option<(Holding, Availability)>)
    ensures found.None? <==> forall i | 0 <= i < |items| :: Enough(AvailabilityOf(items[i], listings, excludeKey), requested)
    ensures found.Some? ==>
              exists i | 0 <= i < |items| && found.value == (items[i], AvailabilityOf(items[i], listings, excludeKey)) ::
                && !Enough(found.value.1, requested)
                && forall j | 0 <= j < i :: Enough(AvailabilityOf(items[j], listings, excludeKey), requested)
  {
    hide AvailabilityOf, PositiveQuantity, NonNegativeQuantity, FirstWithheld, Reserved, Upper, OrEmpty;
    var i := 0;
    while i < |items|
      invariant 0 <= i <= |items|
      invariant forall j | 0 <= j < i :: Enough(AvailabilityOf(items[j], listings, excludeKey), requested)
    {
      var a := GetErc1155ListingAvailability(items[i], listings, excludeKey);
      if a.available.None? || a.available.value < requested {
        return Some((items[i], a));
      }
      i := i + 1;
    }
    return None;
  }

  /** Nothing is insufficient exactly when the smallest availability meets the request, or there
      are no items: then the smallest is unknown and still nothing is found. */
  lemma SufficientIffSmallestMeets(items: seq<Holding>, listings: seq<Listing>, excludeKey: Option<string>, requested: int,
                                   smallest: Option<nat>)
    requires IsSmallest(items, listings, excludeKey, smallest)
    ensures (forall i | 0 <= i < |items| :: Enough(AvailabilityOf(items[i], listings, excludeKey), requested)) <==>
            items == [] || (smallest.Some? && smallest.value >= requested)
  {
    hide AvailabilityOf;
    if items != [] && smallest.Some? {
      var i :| 0 <= i < |items| && AvailabilityOf(items[i], listings, excludeKey).available == smallest;
      assert Enough(AvailabilityOf(items[i], listings, excludeKey), requested) <==> smallest.value >= requested;
    }
  }

  // ----- the indexer -----

  datatype HolderRow = HolderRow(ownerAddress: Option<string>, quantityRaw: Option<string>)
  datatype SellerRow = SellerRow(active: Option<bool>, sellerAddress: Option<string>, amountRaw: Option<string>)

  /** A token's row with its collection's standard, its holders and its listings. */
  datatype TokenRow = TokenRow(standard: Option<string>, ownerAddress: Option<string>, mintedAmountRaw: Option<string>,
                               holdings: Option<seq<HolderRow>>, listings: Option<seq<SellerRow>>)

  function Sanitized(v: Option<string>): Option<string> {
    var t := Trim(OrEmpty(v));
    if PositiveText(t).Some? then Some(t) else None
  }

  function QuantityHeldBy(holdings: seq<HolderRow>, owner: string): Option<string> {
    if holdings == [] then None
    else if Normal(holdings[0].ownerAddress) == owner then Sanitized(holdings[0].quantityRaw)
    else QuantityHeldBy(holdings[1..], owner)
  }

  function StandardOf(row: TokenRow): string { Upper(Trim(OrEmpty(row.standard))) }

  function HeldRaw(row: TokenRow, ownerAddress: Option<string>): Option<string> {
    var owner := Normal(ownerAddress);
    if !IsAddress(owner) then None
    else
      var recorded := if row.holdings.Some? then QuantityHeldBy(row.holdings.value, owner) else None;
      if recorded.Some? then recorded
      else if !IsAddress(Normal(row.ownerAddress)) || Normal(row.ownerAddress) != owner then None
      else if StandardOf(row) == "ERC721" then Some("1")
      else if Sanitized(row.mintedAmountRaw).Some? then Sanitized(row.mintedAmountRaw)
      else Some("1")
  }

  predicate SoldBy(listing: SellerRow, owner: string) {
    listing.active != Some(false) && IsAddress(Normal(listing.sellerAddress)) && Normal(listing.sellerAddress) == owner
  }

  function Filter(listings: seq<SellerRow>, owner: string): seq<SellerRow> {
    if listings == [] then []
    else if SoldBy(listings[0], owner) then [listings[0]] + Filter(listings[1..], owner)
    else Filter(listings[1..], owner)
  }

  function OwnerListings(row: TokenRow, ownerAddress: Option<string>): seq<SellerRow> {
    if !IsAddress(Normal(ownerAddress)) || row.listings.None? then [] else Filter(row.listings.value, Normal(ownerAddress))
  }

  /** Exactly the active rows this seller listed, in order. */
  lemma {:induction false} FilterKeeps(listings: seq<SellerRow>, owner: string)
    ensures forall l :: l in Filter(listings, owner) <==>
              l in listings && l.active != Some(false) && Normal(l.sellerAddress) == owner && IsAddress(owner)
    ensures (forall l | l in listings :: SoldBy(l, owner)) ==> Filter(listings, owner) == listings
  {
    hide Trim, Lower;
    if listings != [] {
      FilterKeeps(listings[1..], owner);
      assert listings == [listings[0]] + listings[1..];
    }
  }

  /** The quantity an owner is recorded with is that of its first holder row. */
  lemma {:induction false} FirstRowCounts(holdings: seq<HolderRow>, owner: string)
    ensures (forall i | 0 <= i < |holdings| :: Normal(holdings[i].ownerAddress) != owner) ==> QuantityHeldBy(holdings, owner) == None
    ensures forall i | 0 <= i < |holdings| && Normal(holdings[i].ownerAddress) == owner &&
                       (forall j | 0 <= j < i :: Normal(holdings[j].ownerAddress) != owner) ::
              QuantityHeldBy(holdings, owner) ==
              if PositiveQuantity(holdings[i].quantityRaw).Some? then Some(Trim(OrEmpty(holdings[i].quantityRaw))) else None
  {
    hide Normal, Trim, PositiveText;
    if holdings != [] {
      var rest := holdings[1..];
      FirstRowCounts(rest, owner);
      assert forall i | 0 <= i < |rest| :: rest[i] == holdings[i + 1];
      forall i | 0 < i < |holdings| && Normal(holdings[i].ownerAddress) == owner &&
                 (forall j | 0 <= j < i :: Normal(holdings[j].ownerAddress) != owner)
        ensures QuantityHeldBy(holdings, owner) ==
                if PositiveQuantity(holdings[i].quantityRaw).Some? then Some(Trim(OrEmpty(holdings[i].quantityRaw))) else None
      {
        assert rest[i - 1] == holdings[i];
        assert forall j | 0 <= j < i - 1 :: Normal(rest[j].ownerAddress) != owner;
      }
    }
  }

  function Amounts(listings: seq<SellerRow>): (amounts: seq<Option<nat>>)
    ensures |amounts| == |listings| && forall i | 0 <= i < |listings| :: amounts[i] == PositiveQuantity(listings[i].amountRaw)
  {
    seq(|listings|, i requires 0 <= i < |listings| => PositiveQuantity(listings[i].amountRaw))
  }

  predicate WellFormed(amounts: seq<Option<nat>>) { forall i | 0 <= i < |amounts| :: amounts[i].Some? }

  function Sum(amounts: seq<Option<nat>>): nat {
    if amounts == [] then 0 else OrZero(amounts[0]) + Sum(amounts[1..])
  }

  /** The reserved and available amounts an owner is shown for an ERC-1155 token: nothing when a
      listed amount is malformed. */
  function OwnerScoped(held: Option<nat>, amounts: seq<Option<nat>>): (Option<string>, Option<string>) {
    if !WellFormed(amounts) then (None, None)
    else (Some(Print(Sum(amounts), 10)), if held.None? then None else Some(Print(Minus(held.value, Sum(amounts)), 10)))
  }

  lemma {:induction false} PrintParse(s: string)
    requires Decimal(s) && s != "" && s[0] != '0'
    ensures Print(Parse(s, 10), 10) == s
  {
    var init, last := s[..|s| - 1], s[|s| - 1];
    assert s == init + [last];
    ParseSnoc(init, last, 10);
    OneDigit(last);
    if init != "" {
      PrintParse(init);
      ParsePositive(init);
      PrintSnoc(Parse(init, 10), Value(last));
    }
  }

  lemma OneDigit(c: char)
    requires '0' <= c <= '9'
    ensures Value(c) < 10 && Digit(Value(c)) == c
  {}

  lemma PrintSnoc(q: nat, r: nat)
    requires q > 0 && r < 10
    ensures Print(q * 10 + r, 10) == Print(q, 10) + [Digit(r)]
  {
    assert (q * 10 + r) / 10 == q && (q * 10 + r) % 10 == r;
  }

  lemma DigitsUntrimmed(s: string)
    requires s != "" && Decimal(s)
    ensures Trim(s) == s
  {
    NothingToTrim(s);
  }

  /** What the indexer sends as a quantity, the client reads as that quantity. */
  lemma SanitizedReads(v: Option<string>)
    ensures Sanitized(v).Some? <==> PositiveQuantity(v).Some?
    ensures Sanitized(v).Some? ==> Sanitized(v).value != "" && PositiveQuantity(Sanitized(v)) == PositiveQuantity(v)
    ensures Sanitized(v).Some? ==> Print(PositiveQuantity(v).value, 10) == Sanitized(v).value
    ensures Sanitized(v).Some? ==> Parse(Sanitized(v).value, 10) == PositiveQuantity(v).value
  {
    hide Trim, Parse, Print;
    if Sanitized(v).Some? {
      DigitsUntrimmed(Sanitized(v).value);
      PrintParse(Sanitized(v).value);
    }
  }

  lemma PrintedReads(n: nat)
    ensures NonNegativeQuantity(Some(Print(n, 10))) == Some(n)
  {
    hide Trim, Parse, Print;
    PrintDecimal(n);
    PrintCanonical(n, 10);
    DigitsUntrimmed(Print(n, 10));
    ParsePrint(n, 10);
    if n == 0 {
      PrintZero();
    } else if Print(n, 10)[0] == '0' {
      assert false;
    }
  }

  lemma PrintZero()
    ensures Print(0, 10) == "0"
  {}

  lemma OneReads()
    ensures PositiveQuantity(Some("1")) == Some(1) && Print(1, 10) == "1"
  {
    DigitsUntrimmed("1");
    ParseDigit(1, 10);
    assert [Digit(1)] == "1";
  }

  lemma {:induction false} QuantityReads(holdings: seq<HolderRow>, owner: string)
    ensures var raw := QuantityHeldBy(holdings, owner);
      raw.Some? ==> raw.value != "" && PositiveQuantity(raw).Some? && Print(PositiveQuantity(raw).value, 10) == raw.value
  {
    hide Trim, Parse, Print, Sanitized, PositiveText;
    if holdings != [] {
      QuantityReads(holdings[1..], owner);
      SanitizedReads(holdings[0].quantityRaw);
    }
  }

  lemma HeldReads(row: TokenRow, ownerAddress: Option<string>)
    ensures var raw := HeldRaw(row, ownerAddress);
      && (raw.Some? <==> PositiveQuantity(raw).Some?)
      && (raw.Some? ==> raw.value != "" && Print(PositiveQuantity(raw).value, 10) == raw.value)
  {
    hide Trim, Parse, Print, Sanitized, QuantityHeldBy, Lower, Upper, IsAddress, PositiveText;
    OneReads();
    SanitizedReads(row.mintedAmountRaw);
    if row.holdings.Some? {
      QuantityReads(row.holdings.value, Normal(ownerAddress));
    }
    NoneUnread();
  }

  lemma NoneUnread()
    ensures PositiveQuantity(None).None? && NonNegativeQuantity(None).None?
  {}

  /** `listed` says whether a primary active listing was picked among the owner's listings. */
  method GetOwnerScopedListingAvailability(row: TokenRow, ownerAddress: Option<string>, listed: bool)
    returns (reservedRaw: Option<string>, availableRaw: Option<string>)
    ensures StandardOf(row) == "ERC1155" ==>
              (reservedRaw, availableRaw) ==
              OwnerScoped(PositiveQuantity(HeldRaw(row, ownerAddress)), Amounts(OwnerListings(row, ownerAddress)))
    ensures StandardOf(row) == "ERC721" ==>
              reservedRaw == Some(if listed then "1" else "0") &&
              availableRaw == if listed && HeldRaw(row, ownerAddress).Some? then Some("0") else HeldRaw(row, ownerAddress)
    ensures StandardOf(row) != "ERC721" && StandardOf(row) != "ERC1155" ==>
              reservedRaw == None && availableRaw == HeldRaw(row, ownerAddress)
  {
    hide HeldRaw, OwnerListings, Trim, Parse, StandardOf;
    var standard := StandardOf(row);
    var heldRaw := HeldRaw(row, ownerAddress);
    HeldReads(row, ownerAddress);
    var held := PositiveQuantity(heldRaw);
    var ownerListings := OwnerListings(row, ownerAddress);
    if standard == "ERC721" {
      return Some(if listed then "1" else "0"),
             if held.None? then None else Some(if listed then "0" else Print(held.value, 10));
    }
    if standard != "ERC1155" {
      return None, heldRaw;
    }
    ghost var amounts := Amounts(ownerListings);
    if ownerListings == [] {
      PrintZero();
      return Some("0"), heldRaw;
    }
    var reserved := 0;
    var i := 0;
    while i < |ownerListings|
      invariant 0 <= i <= |ownerListings|
      invariant forall j | 0 <= j < i :: amounts[j].Some?
      invariant reserved + Sum(amounts[i..]) == Sum(amounts)
    {
      var amountRaw := Sanitized(ownerListings[i].amountRaw);
      if amountRaw.None? {
        assert amounts[i].None?;
        return None, None;
      }
      assert amounts[i..][1..] == amounts[i + 1..];
      reserved := reserved + Parse(amountRaw.value, 10);
      i := i + 1;
    }
    return Some(Print(reserved, 10)), if held.None? then None else Some(Print(Minus(held.value, reserved), 10));
  }

  // ----- both together -----

  /** The amounts of the client's listings of a token, in order. */
  function Shown(token: Token, listings: seq<Listing>): seq<Option<nat>> {
    if listings == [] then []
    else if ForToken(token, listings[0]) then [ListingAmount(listings[0])] + Shown(token, listings[1..])
    else Shown(token, listings[1..])
  }

  lemma {:induction false} ReservedIsShown(token: Token, listings: seq<Listing>)
    ensures Reserved(token, listings, None) == Sum(Shown(token, listings))
  {
    hide ForToken, ListingAmount;
    if listings != [] {
      ReservedIsShown(token, listings[1..]);
    }
  }

  /** The item as the client receives it. */
  function Sent(token: Token, row: TokenRow, ownerAddress: Option<string>): Holding {
    var raw := OwnerScoped(PositiveQuantity(HeldRaw(row, ownerAddress)), Amounts(OwnerListings(row, ownerAddress)));
    Holding(token, OrEmpty(row.standard), HeldRaw(row, ownerAddress), raw.0, raw.1, row.mintedAmountRaw)
  }

  /** For the same listings, the indexer's reserved amount is the client's scan exactly when every
      amount is well-formed; then so is the available amount of a known balance. */
  lemma IndexerAgreesIff(token: Token, row: TokenRow, ownerAddress: Option<string>, listings: seq<Listing>)
    requires Upper(OrEmpty(row.standard)) == "ERC1155"
    requires Shown(token, listings) == Amounts(OwnerListings(row, ownerAddress))
    ensures var sent := Sent(token, row, ownerAddress);
      var scanned := AvailabilityOf(Unsent(sent), listings, None);
      && (sent.reservedAmountRaw == Some(Print(scanned.reserved, 10)) <==> WellFormed(Shown(token, listings)))
      && (WellFormed(Shown(token, listings)) && sent.heldAmountRaw.Some? ==>
            scanned.available.Some? && sent.availableAmountRaw == Some(Print(scanned.available.value, 10)))
  {
    hide PositiveQuantity, HeldRaw, OwnerListings, Amounts, Shown, Reserved, Print, Sum, Upper, WellFormed;
    NoneUnread();
    HeldReads(row, ownerAddress);
    ReservedIsShown(token, listings);
  }

  /** What the indexer sends leads the client to the same answer as scanning the same listings,
      exactly when an amount is malformed (nothing was sent) or only the first excluded listing counts. */
  lemma SentAgreesIff(token: Token, row: TokenRow, ownerAddress: Option<string>, listings: seq<Listing>, excludeKey: Option<string>)
    requires Upper(OrEmpty(row.standard)) == "ERC1155"
    requires Shown(token, listings) == Amounts(OwnerListings(row, ownerAddress))
    ensures var sent := Sent(token, row, ownerAddress);
      AvailabilityOf(sent, listings, excludeKey) == AvailabilityOf(Unsent(sent), listings, excludeKey) <==>
      !WellFormed(Shown(token, listings)) || OnlyFirstCounts(token, listings, excludeKey)
  {
    hide PositiveQuantity, NonNegativeQuantity, HeldRaw, OwnerListings, Amounts, Shown, Reserved, Print, Sum, Upper, WellFormed,
         OnlyFirstCounts, AvailabilityOf;
    NoneUnread();
    HeldReads(row, ownerAddress);
    ReservedIsShown(token, listings);
    PrintedReads(Sum(Shown(token, listings)));
    var sent := Sent(token, row, ownerAddress);
    if WellFormed(Shown(token, listings)) {
      PathsAgreeIff(sent, listings, excludeKey);
    }
  }
}
