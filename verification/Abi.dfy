/** The hand-packed call data of the web client (apps/web/lib/abi.ts). Strings arrive as their
    UTF-8 bytes; a thrown error is None. Every builder is shown to encode its arguments so that
    the decoder of the ABI specification reads them back. */
module Abi {
  import opened Options
  import opened Numerals
  import opened AbiSpec
  import opened Texts

  // ----- words -----

  function EncodeUint256(value: int): Option<string> {
    if value < 0 then None else Some(PadStart(Print(value, 16), WORD_HEX_LEN))
  }

  function WordFromBytes(bytes: nat): Option<string> { EncodeUint256(bytes) }

  function EncodeBool(value: bool): Option<string> {
    Some(PadStart(if value then "1" else "0", WORD_HEX_LEN))
  }

  /** The length word and the bytes, padded to whole words. */
  function EncodeStringData(value: seq<Byte>): string {
    var raw := HexOfBytes(value);
    var paddedLength := (|raw| + WORD_HEX_LEN - 1) / WORD_HEX_LEN * WORD_HEX_LEN;
    PadStart(Print(|raw| / 2, 16), WORD_HEX_LEN) + PadEnd(raw, paddedLength)
  }

  function Strip0x(value: string): string {
    if "0x" <= value then value[2..] else value
  }

  predicate IsHexAddress(value: string) {
    var clean := Strip0x(value);
    |clean| == 40 && AllDigits(clean, 16)
  }

  function EncodeAddress(value: string): Option<string> {
    if IsHexAddress(value) then Some(PadStart(Lower(Strip0x(value)), WORD_HEX_LEN)) else None
  }

  /** The 20-byte number an address text stands for. */
  function AddressNumber(value: string): nat { Parse(Strip0x(value), 16) }

  /** `encodeUint256` does not look at the upper bound: it yields a word exactly for the integers
      from 0 to 2^256 - 1, and something longer above. */
  lemma UintIsWordIff(value: int)
    ensures EncodeUint256(value).Some? <==> value >= 0
    ensures EncodeUint256(value).Some? ==> (|EncodeUint256(value).value| == WORD_HEX_LEN <==> value < Pow(16, WORD_HEX_LEN))
  {
    if value >= 0 {
      WordFits(value);
    }
  }

  predicate LowerHex(s: string) {
    forall i | 0 <= i < |s| :: '0' <= s[i] <= '9' || 'a' <= s[i] <= 'f'
  }

  lemma {:induction false} PrintLowerHex(n: nat)
    ensures LowerHex(Print(n, 16))
  {
    if n >= 16 {
      PrintLowerHex(n / 16);
    }
  }

  lemma SameLastDigit(x: nat, y: nat, v: nat, w: nat)
    requires x * 16 + v == y * 16 + w && v < 16 && w < 16
    ensures x == y && v == w
  {}

  lemma SameDigit(c: char, d: char)
    requires LowerHex([c]) && LowerHex([d]) && Numerals.Value(c) == Numerals.Value(d)
    ensures c == d
  {
    assert [c][0] == c && [d][0] == d;
  }

  lemma LastDigit(s: string) returns (init: string, last: char)
    requires s != [] && LowerHex(s)
    ensures s == init + [last] && LowerHex(init) && LowerHex([last]) && Numerals.Value(last) < 16
    ensures Parse(s, 16) == Parse(init, 16) * 16 + Numerals.Value(last)
  {
    hide Parse;
    init, last := s[..|s| - 1], s[|s| - 1];
    assert s == init + [last];
    ParseSnoc(init, last, 16);
  }

  /** Numerals of one length and one letter case are determined by their value. */
  lemma {:induction false} SameNumeral(a: string, b: string)
    requires |a| == |b| && LowerHex(a) && LowerHex(b) && Parse(a, 16) == Parse(b, 16)
    ensures a == b
    decreases |a|
  {
    hide Parse, Numerals.Value, LowerHex;
    if a != [] {
      var a', c := LastDigit(a);
      var b', d := LastDigit(b);
      SameLastDigit(Parse(a', 16), Parse(b', 16), Numerals.Value(c), Numerals.Value(d));
      SameDigit(c, d);
      SameNumeral(a', b');
    }
  }

  lemma {:induction false} ParseLower(s: string)
    ensures Parse(Lower(s), 16) == Parse(s, 16)
  {
    if s != [] {
      var init, last := s[..|s| - 1], s[|s| - 1];
      ParseLower(init);
      assert s == init + [last] && Lower(s) == Lower(init) + [LowerChar(last)];
      ParseSnoc(init, last, 16);
      ParseSnoc(Lower(init), LowerChar(last), 16);
    }
  }

  /** An address, in any letter case, becomes the word of its number. */
  lemma AddressIsWord(value: string)
    requires IsHexAddress(value)
    ensures EncodeAddress(value) == Some(Word(AddressNumber(value))) && AddressNumber(value) < Pow(16, 40)
  {
    hide Pow, Parse;
    var clean, n := Strip0x(value), AddressNumber(value);
    ParseBound(clean, 16);
    PowMonotone(16, 40, WORD_HEX_LEN);
    var lower := Lower(clean);
    ParseLower(clean);
    ParsePadded(WORD_HEX_LEN - 40, lower, 16);
    WordFits(n);
    PrintLowerHex(n);
    SameNumeral(PadStart(lower, WORD_HEX_LEN), Word(n));
  }

  lemma BoolIsWord(value: bool)
    ensures EncodeBool(value) == Some(Enc(BoolValue(value)))
  {
    assert Print(0, 16) == "0" && Print(1, 16) == "1";
  }

  lemma StringDataIsEnc(value: seq<Byte>)
    ensures EncodeStringData(value) == Enc(StringValue(value))
  {}

  // ----- assembling a call -----

  /** The parts behind the selector, in order; the first bad argument makes the call fail. */
  function Assemble(selector: string, parts: seq<Option<string>>): Option<string> {
    match CatAll(parts)
    case None => None
    case Some(body) => Some("0x" + selector + body)
  }

  function CatAll(parts: seq<Option<string>>): Option<string> {
    if parts == [] then Some("")
    else
      match (CatAll(parts[..|parts| - 1]), parts[|parts| - 1])
      case (Some(init), Some(last)) => Some(init + last)
      case _ => None
  }

  lemma {:induction false} CatAllIsCat(parts: seq<Option<string>>, texts: seq<string>)
    requires |parts| == |texts| && forall i | 0 <= i < |parts| :: parts[i] == Some(texts[i])
    ensures CatAll(parts) == Some(Cat(texts))
  {
    if parts != [] {
      CatAllIsCat(parts[..|parts| - 1], texts[..|texts| - 1]);
    }
  }

  /** A call fails exactly when one of its arguments does. */
  lemma {:induction false} FailsIffArgumentFails(parts: seq<Option<string>>)
    ensures CatAll(parts).None? <==> exists i :: 0 <= i < |parts| && parts[i].None?
  {
    if parts != [] {
      var init := parts[..|parts| - 1];
      FailsIffArgumentFails(init);
      if exists i :: 0 <= i < |init| && init[i].None? {
        var i :| 0 <= i < |init| && init[i].None?;
        assert parts[i].None?;
      }
      if parts[|parts| - 1].None? {
        assert CatAll(parts).None?;
      }
    }
  }

  /** Reading call data: the selector and the decoded arguments. */
  function DecodeCall(kinds: seq<Kind>, data: string): Option<(string, seq<Value>)> {
    if |data| < 10 || data[..2] != "0x" then None
    else
      match DecodeTuple(kinds, data[10..])
      case None => None
      case Some(values) => Some((data[2..10], values))
  }

  /** The call data exists and reads back as this selector and these arguments. */
  predicate Encodes(data: Option<string>, selector: string, values: seq<Value>) {
    data.Some? && DecodeCall(KindsOf(values), data.value) == Some((selector, values))
  }

  lemma AssembledDecodes(selector: string, parts: seq<Option<string>>, values: seq<Value>)
    requires |selector| == 8 && Fits(values)
    requires var texts := HeadParts(values) + TailParts(values);
      |parts| == |texts| && forall i | 0 <= i < |parts| :: parts[i] == Some(texts[i])
    ensures Encodes(Assemble(selector, parts), selector, values)
  {
    hide Fits, DecodeTuple, HeadParts, TailParts, KindsOf;
    CatAllIsCat(parts, HeadParts(values) + TailParts(values));
    TupleRoundTrip(values);
    var data := "0x" + selector + EncodeTuple(values);
    assert data[..2] == "0x" && data[2..10] == selector && data[10..] == EncodeTuple(values);
  }

  /** Arguments out of range are never encoded: the bounds the builders leave unchecked are needed. */
  lemma OnlyFittingEncode(data: Option<string>, selector: string, values: seq<Value>)
    requires Encodes(data, selector, values)
    ensures forall v | v in values :: ValueFits(v)
  {
    hide DecodeTuple, ValueFits, KindsOf;
    DecodedFit(KindsOf(values), data.value[10..]);
  }

  // ----- tails of the argument lists that occur -----

  predicate StaticBut(values: seq<Value>, strings: set<nat>) {
    forall i | 0 <= i < |values| :: values[i].StringValue? <==> i in strings
  }

  lemma {:induction false} NoTails(values: seq<Value>)
    requires StaticBut(values, {})
    ensures TailParts(values) == [] && TailsBefore(values, |values|) == 0
  {
    if values != [] {
      var init := values[..|values| - 1];
      NoTails(init);
      TailsOfPrefix(values, |values| - 1, |values| - 1);
    }
  }

  lemma {:induction false} TailsOfPrefix(values: seq<Value>, n: nat, i: nat)
    requires i <= n <= |values|
    ensures TailsBefore(values[..n], i) == TailsBefore(values, i)
    decreases i
  {
    if i > 0 {
      TailsOfPrefix(values, n, i - 1);
    }
  }

  lemma {:induction false} OneTail(values: seq<Value>, k: nat)
    requires k < |values| && StaticBut(values, {k})
    ensures TailParts(values) == [Enc(values[k])] && OffsetOf(values, k) == 32 * |values|
    ensures TailsBefore(values, |values|) == TailHexLen(values[k])
  {
    hide Enc;
    var n := |values|;
    var init := values[..n - 1];
    TailsOfPrefix(values, n - 1, k);
    TailsOfPrefix(values, n - 1, n - 1);
    if k == n - 1 {
      NoTails(init);
    } else {
      OneTail(init, k);
    }
  }

  lemma {:induction false} TwoTails(values: seq<Value>, k: nat, l: nat)
    requires k < l < |values| && StaticBut(values, {k, l})
    ensures TailParts(values) == [Enc(values[k]), Enc(values[l])]
    ensures OffsetOf(values, k) == 32 * |values| && OffsetOf(values, l) == 32 * |values| + TailHexLen(values[k]) / 2
  {
    hide Enc, TailHexLen;
    var n := |values|;
    var init := values[..n - 1];
    TailsOfPrefix(values, n - 1, k);
    TailsOfPrefix(values, n - 1, l);
    if l == n - 1 {
      OneTail(init, k);
    } else {
      TwoTails(init, k, l);
    }
  }

  /** The byte length of string data, as the second string's offset uses it. */
  lemma StringDataLength(value: seq<Byte>)
    requires |value| < Pow(16, WORD_HEX_LEN)
    ensures |EncodeStringData(value)| == TailHexLen(StringValue(value))
  {
    hide Pow;
    StringDataIsEnc(value);
    EncLength(StringValue(value));
  }

  // ----- the calls -----

  function EncodeRegisterSubname(name: seq<Byte>): Option<string> {
    Assemble("8e78d578", [WordFromBytes(32), Some(EncodeStringData(name))])
  }

  lemma RegisterSubnameDecodes(name: seq<Byte>)
    requires Fits([StringValue(name)])
    ensures Encodes(EncodeRegisterSubname(name), "8e78d578", [StringValue(name)])
  {
    hide Fits, Encodes, Pow;
    var values := [StringValue(name)];
    OneTail(values, 0);
    StringDataIsEnc(name);
    AssembledDecodes("8e78d578", [WordFromBytes(32), Some(EncodeStringData(name))], values);
  }

  function EncodePublish721(subname: seq<Byte>, uri: seq<Byte>): Option<string> {
    var subnameBody, uriBody := EncodeStringData(subname), EncodeStringData(uri);
    Assemble("c163bba7", [WordFromBytes(64), WordFromBytes(64 + |subnameBody| / 2), Some(subnameBody), Some(uriBody)])
  }

  lemma Publish721Decodes(subname: seq<Byte>, uri: seq<Byte>)
    requires Fits([StringValue(subname), StringValue(uri)])
    ensures Encodes(EncodePublish721(subname, uri), "c163bba7", [StringValue(subname), StringValue(uri)])
  {
    hide Fits, Encodes, Pow, EncodeStringData, TailHexLen, OffsetOf, TailParts, Padded;
    var values := [StringValue(subname), StringValue(uri)];
    TwoTails(values, 0, 1);
    StringsFit(values, 0);
    StringDataLength(subname);
    StringDataIsEnc(subname);
    StringDataIsEnc(uri);
    var subnameBody := EncodeStringData(subname);
    AssembledDecodes("c163bba7", [WordFromBytes(64), WordFromBytes(64 + |subnameBody| / 2), Some(subnameBody),
                                  Some(EncodeStringData(uri))], values);
  }

  function EncodePublish1155(subname: seq<Byte>, amount: int, uri: seq<Byte>): Option<string> {
    var subnameBody, uriBody := EncodeStringData(subname), EncodeStringData(uri);
    Assemble("be2d8430", [WordFromBytes(96), EncodeUint256(amount), WordFromBytes(96 + |subnameBody| / 2), Some(subnameBody),
                          Some(uriBody)])
  }

  lemma Publish1155Decodes(subname: seq<Byte>, amount: nat, uri: seq<Byte>)
    requires Fits([StringValue(subname), UintValue(amount), StringValue(uri)])
    ensures Encodes(EncodePublish1155(subname, amount, uri), "be2d8430",
                    [StringValue(subname), UintValue(amount), StringValue(uri)])
  {
    hide Fits, Encodes, Pow, EncodeStringData, TailHexLen, OffsetOf, TailParts, Padded;
    var values := [StringValue(subname), UintValue(amount), StringValue(uri)];
    TwoTails(values, 0, 2);
    StringsFit(values, 0);
    StringDataLength(subname);
    StringDataIsEnc(subname);
    StringDataIsEnc(uri);
    var subnameBody := EncodeStringData(subname);
    AssembledDecodes("be2d8430", [WordFromBytes(96), EncodeUint256(amount), WordFromBytes(96 + |subnameBody| / 2),
                                  Some(subnameBody), Some(EncodeStringData(uri))], values);
  }

  function EncodeCreatorPublish721(to: string, uri: seq<Byte>, lockMetadata: bool): Option<string> {
    Assemble("b5ec6550", [EncodeAddress(to), WordFromBytes(96), EncodeBool(lockMetadata), Some(EncodeStringData(uri))])
  }

  lemma CreatorPublish721Decodes(to: string, uri: seq<Byte>, lockMetadata: bool)
    requires IsHexAddress(to) && Fits([AddressValue(AddressNumber(to)), StringValue(uri), BoolValue(lockMetadata)])
    ensures Encodes(EncodeCreatorPublish721(to, uri, lockMetadata), "b5ec6550",
                    [AddressValue(AddressNumber(to)), StringValue(uri), BoolValue(lockMetadata)])
  {
    AddressStringBool("b5ec6550", to, uri, lockMetadata);
  }

  /** `(address, string, bool)`: two of the calls have this shape. */
  lemma AddressStringBool(selector: string, account: string, text: seq<Byte>, flag: bool)
    requires |selector| == 8 && IsHexAddress(account)
    requires Fits([AddressValue(AddressNumber(account)), StringValue(text), BoolValue(flag)])
    ensures Encodes(Assemble(selector, [EncodeAddress(account), WordFromBytes(96), EncodeBool(flag), Some(EncodeStringData(text))]),
                    selector, [AddressValue(AddressNumber(account)), StringValue(text), BoolValue(flag)])
  {
    hide Fits, Encodes, Pow, EncodeAddress, EncodeBool, EncodeStringData;
    var values := [AddressValue(AddressNumber(account)), StringValue(text), BoolValue(flag)];
    OneTail(values, 1);
    AddressIsWord(account);
    BoolIsWord(flag);
    StringDataIsEnc(text);
    AssembledDecodes(selector, [EncodeAddress(account), WordFromBytes(96), EncodeBool(flag), Some(EncodeStringData(text))],
                     values);
  }

  function EncodeCreatorPublish1155(to: string, tokenId: int, amount: int, uri: seq<Byte>, lockMetadata: bool): Option<string> {
    Assemble("000f9e5f", [EncodeAddress(to), EncodeUint256(tokenId), EncodeUint256(amount), WordFromBytes(160),
                          EncodeBool(lockMetadata), Some(EncodeStringData(uri))])
  }

  lemma CreatorPublish1155Decodes(to: string, tokenId: nat, amount: nat, uri: seq<Byte>, lockMetadata: bool)
    requires IsHexAddress(to)
    requires Fits([AddressValue(AddressNumber(to)), UintValue(tokenId), UintValue(amount), StringValue(uri), BoolValue(lockMetadata)])
    ensures Encodes(EncodeCreatorPublish1155(to, tokenId, amount, uri, lockMetadata), "000f9e5f",
                    [AddressValue(AddressNumber(to)), UintValue(tokenId), UintValue(amount), StringValue(uri),
                     BoolValue(lockMetadata)])
  {
    hide Fits, Encodes, Pow, EncodeAddress, EncodeBool, EncodeStringData;
    var values := [AddressValue(AddressNumber(to)), UintValue(tokenId), UintValue(amount), StringValue(uri), BoolValue(lockMetadata)];
    OneTail(values, 3);
    AddressIsWord(to);
    BoolIsWord(lockMetadata);
    StringDataIsEnc(uri);
    AssembledDecodes("000f9e5f", [EncodeAddress(to), EncodeUint256(tokenId), EncodeUint256(amount), WordFromBytes(160),
                                  EncodeBool(lockMetadata), Some(EncodeStringData(uri))], values);
  }

  /** `(address, bool)`: the operator approval and the payment token switch. */
  function EncodeAddressBool(selector: string, account: string, flag: bool): Option<string> {
    Assemble(selector, [EncodeAddress(account), EncodeBool(flag)])
  }

  function EncodeSetApprovalForAll(operator: string, approved: bool): Option<string> {
    EncodeAddressBool("a22cb465", operator, approved)
  }

  function EncodeSetPaymentTokenAllowed(token: string, allowed: bool): Option<string> {
    EncodeAddressBool("28336098", token, allowed)
  }

  lemma AddressBoolDecodes(selector: string, account: string, flag: bool)
    requires |selector| == 8 && IsHexAddress(account)
    ensures Encodes(EncodeAddressBool(selector, account, flag), selector, [AddressValue(AddressNumber(account)), BoolValue(flag)])
  {
    hide Encodes, Pow, EncodeAddress, EncodeBool;
    var values := [AddressValue(AddressNumber(account)), BoolValue(flag)];
    NoTails(values);
    AddressIsWord(account);
    BoolIsWord(flag);
    PowMonotone(16, 2, WORD_HEX_LEN);
    SixteenSquared();
    AssembledDecodes(selector, [EncodeAddress(account), EncodeBool(flag)], values);
  }

  lemma SixteenSquared()
    ensures Pow(16, 2) == 256
  {
    assert Pow(16, 2) == 16 * Pow(16, 1);
  }

  function EncodeSetModerator(account: string, name: seq<Byte>, active: bool): Option<string> {
    Assemble("01ec709d", [EncodeAddress(account), WordFromBytes(96), EncodeBool(active), Some(EncodeStringData(name))])
  }

  lemma SetModeratorDecodes(account: string, name: seq<Byte>, active: bool)
    requires IsHexAddress(account) && Fits([AddressValue(AddressNumber(account)), StringValue(name), BoolValue(active)])
    ensures Encodes(EncodeSetModerator(account, name, active), "01ec709d",
                    [AddressValue(AddressNumber(account)), StringValue(name), BoolValue(active)])
  {
    AddressStringBool("01ec709d", account, name, active);
  }

  function EncodeErc20Approve(spender: string, amount: int): Option<string> {
    Assemble("095ea7b3", [EncodeAddress(spender), EncodeUint256(amount)])
  }

  lemma Erc20ApproveDecodes(spender: string, amount: nat)
    requires IsHexAddress(spender) && amount < Pow(16, WORD_HEX_LEN)
    ensures Encodes(EncodeErc20Approve(spender, amount), "095ea7b3", [AddressValue(AddressNumber(spender)), UintValue(amount)])
  {
    hide Encodes, Pow, EncodeAddress;
    var values := [AddressValue(AddressNumber(spender)), UintValue(amount)];
    NoTails(values);
    AddressIsWord(spender);
    PowMonotone(16, 2, WORD_HEX_LEN);
    SixteenSquared();
    AssembledDecodes("095ea7b3", [EncodeAddress(spender), EncodeUint256(amount)], values);
  }

  /** A listing and an offer take the same seven arguments. */
  function EncodeOrder(selector: string, nft: string, tokenId: int, amount: int, standard: seq<Byte>, paymentToken: string,
                       priceWei: int, durationDays: int): Option<string>
  {
    Assemble(selector, [EncodeAddress(nft), EncodeUint256(tokenId), EncodeUint256(amount), WordFromBytes(224),
                        EncodeAddress(paymentToken), EncodeUint256(priceWei), EncodeUint256(durationDays),
                        Some(EncodeStringData(standard))])
  }

  function EncodeCreateListing(nft: string, tokenId: int, amount: int, standard: seq<Byte>, paymentToken: string,
                               priceWei: int, durationDays: int): Option<string>
  {
    EncodeOrder("875108cf", nft, tokenId, amount, standard, paymentToken, priceWei, durationDays)
  }

  function EncodeCreateOffer(nft: string, tokenId: int, quantity: int, standard: seq<Byte>, paymentToken: string,
                             priceWei: int, durationDays: int): Option<string>
  {
    EncodeOrder("6ae3f097", nft, tokenId, quantity, standard, paymentToken, priceWei, durationDays)
  }

  function OrderValues(nft: string, tokenId: nat, amount: nat, standard: seq<Byte>, paymentToken: string, priceWei: nat,
                       durationDays: nat): seq<Value>
  {
    [AddressValue(AddressNumber(nft)), UintValue(tokenId), UintValue(amount), StringValue(standard),
     AddressValue(AddressNumber(paymentToken)), UintValue(priceWei), UintValue(durationDays)]
  }

  lemma OrderDecodes(selector: string, nft: string, tokenId: nat, amount: nat, standard: seq<Byte>, paymentToken: string,
                     priceWei: nat, durationDays: nat)
    requires |selector| == 8 && IsHexAddress(nft) && IsHexAddress(paymentToken)
    requires Fits(OrderValues(nft, tokenId, amount, standard, paymentToken, priceWei, durationDays))
    ensures Encodes(EncodeOrder(selector, nft, tokenId, amount, standard, paymentToken, priceWei, durationDays), selector,
                    OrderValues(nft, tokenId, amount, standard, paymentToken, priceWei, durationDays))
  {
    hide Fits, Encodes, Pow, EncodeAddress, EncodeStringData, AddressNumber, TailHexLen, OffsetOf, TailParts, TailsBefore, Print;
    var values := OrderValues(nft, tokenId, amount, standard, paymentToken, priceWei, durationDays);
    OneTail(values, 3);
    AddressIsWord(nft);
    AddressIsWord(paymentToken);
    StringDataIsEnc(standard);
    AssembledDecodes(selector, [EncodeAddress(nft), EncodeUint256(tokenId), EncodeUint256(amount), WordFromBytes(224),
                                EncodeAddress(paymentToken), EncodeUint256(priceWei), EncodeUint256(durationDays),
                                Some(EncodeStringData(standard))], values);
  }

  /** The calls on one listing or offer. */
  function EncodeId(selector: string, id: int): Option<string> {
    Assemble(selector, [EncodeUint256(id)])
  }

  function EncodeCancelListing(listingId: int): Option<string> { EncodeId("305a67a8", listingId) }
  function EncodeBuyListing(listingId: int): Option<string> { EncodeId("d96a094a", listingId) }
  function EncodeCancelOffer(offerId: int): Option<string> { EncodeId("ef706adf", offerId) }
  function EncodeAcceptOffer(offerId: int): Option<string> { EncodeId("c815729d", offerId) }

  lemma IdDecodes(selector: string, id: nat)
    requires |selector| == 8 && id < Pow(16, WORD_HEX_LEN)
    ensures Encodes(EncodeId(selector, id), selector, [UintValue(id)])
  {
    hide Encodes, Pow;
    var values := [UintValue(id)];
    NoTails(values);
    PowMonotone(16, 2, WORD_HEX_LEN);
    SixteenSquared();
    AssembledDecodes(selector, [EncodeUint256(id)], values);
  }

  // ----- all calls together -----

  datatype Call =
    | RegisterSubname(name: seq<Byte>)
    | Publish721(subname: seq<Byte>, uri: seq<Byte>)
    | Publish1155(subname: seq<Byte>, amount: int, uri: seq<Byte>)
    | CreatorPublish721(to: string, uri: seq<Byte>, lockMetadata: bool)
    | CreatorPublish1155(to: string, tokenId: int, amount: int, uri: seq<Byte>, lockMetadata: bool)
    | SetApprovalForAll(operator: string, approved: bool)
    | SetPaymentTokenAllowed(token: string, allowed: bool)
    | SetModerator(account: string, name: seq<Byte>, active: bool)
    | Erc20Approve(spender: string, amount: int)
    | CreateListing(order: Order)
    | CancelListing(id: int)
    | BuyListing(id: int)
    | CreateOffer(order: Order)
    | CancelOffer(id: int)
    | AcceptOffer(id: int)

  datatype Order = Order(nft: string, tokenId: int, amount: int, standard: seq<Byte>, paymentToken: string, priceWei: int,
                         durationDays: int)

  function EncodeCall(c: Call): Option<string> {
    match c
    case RegisterSubname(name) => EncodeRegisterSubname(name)
    case Publish721(subname, uri) => EncodePublish721(subname, uri)
    case Publish1155(subname, amount, uri) => EncodePublish1155(subname, amount, uri)
    case CreatorPublish721(to, uri, lockMetadata) => EncodeCreatorPublish721(to, uri, lockMetadata)
    case CreatorPublish1155(to, tokenId, amount, uri, lockMetadata) =>
      EncodeCreatorPublish1155(to, tokenId, amount, uri, lockMetadata)
    case SetApprovalForAll(operator, approved) => EncodeSetApprovalForAll(operator, approved)
    case SetPaymentTokenAllowed(token, allowed) => EncodeSetPaymentTokenAllowed(token, allowed)
    case SetModerator(account, name, active) => EncodeSetModerator(account, name, active)
    case Erc20Approve(spender, amount) => EncodeErc20Approve(spender, amount)
    case CreateListing(o) =>
      EncodeCreateListing(o.nft, o.tokenId, o.amount, o.standard, o.paymentToken, o.priceWei, o.durationDays)
    case CancelListing(id) => EncodeCancelListing(id)
    case BuyListing(id) => EncodeBuyListing(id)
    case CreateOffer(o) => EncodeCreateOffer(o.nft, o.tokenId, o.amount, o.standard, o.paymentToken, o.priceWei, o.durationDays)
    case CancelOffer(id) => EncodeCancelOffer(id)
    case AcceptOffer(id) => EncodeAcceptOffer(id)
  }

  /** No negative integer and no malformed address. */
  predicate ArgumentsOk(c: Call) {
    match c
    case RegisterSubname(_) => true
    case Publish721(_, _) => true
    case Publish1155(_, amount, _) => amount >= 0
    case CreatorPublish721(to, _, _) => IsHexAddress(to)
    case CreatorPublish1155(to, tokenId, amount, _, _) => IsHexAddress(to) && tokenId >= 0 && amount >= 0
    case SetApprovalForAll(operator, _) => IsHexAddress(operator)
    case SetPaymentTokenAllowed(token, _) => IsHexAddress(token)
    case SetModerator(account, _, _) => IsHexAddress(account)
    case Erc20Approve(spender, amount) => IsHexAddress(spender) && amount >= 0
    case CreateListing(o) => OrderOk(o)
    case CreateOffer(o) => OrderOk(o)
    case CancelListing(id) => id >= 0
    case BuyListing(id) => id >= 0
    case CancelOffer(id) => id >= 0
    case AcceptOffer(id) => id >= 0
  }

  predicate OrderOk(o: Order) {
    IsHexAddress(o.nft) && o.tokenId >= 0 && o.amount >= 0 && IsHexAddress(o.paymentToken) && o.priceWei >= 0 && o.durationDays >= 0
  }

  function ValuesOf(c: Call): seq<Value>
    requires ArgumentsOk(c)
  {
    match c
    case RegisterSubname(name) => [StringValue(name)]
    case Publish721(subname, uri) => [StringValue(subname), StringValue(uri)]
    case Publish1155(subname, amount, uri) => [StringValue(subname), UintValue(amount), StringValue(uri)]
    case CreatorPublish721(to, uri, lockMetadata) => [AddressValue(AddressNumber(to)), StringValue(uri), BoolValue(lockMetadata)]
    case CreatorPublish1155(to, tokenId, amount, uri, lockMetadata) =>
      [AddressValue(AddressNumber(to)), UintValue(tokenId), UintValue(amount), StringValue(uri), BoolValue(lockMetadata)]
    case SetApprovalForAll(operator, approved) => [AddressValue(AddressNumber(operator)), BoolValue(approved)]
    case SetPaymentTokenAllowed(token, allowed) => [AddressValue(AddressNumber(token)), BoolValue(allowed)]
    case SetModerator(account, name, active) => [AddressValue(AddressNumber(account)), StringValue(name), BoolValue(active)]
    case Erc20Approve(spender, amount) => [AddressValue(AddressNumber(spender)), UintValue(amount)]
    case CreateListing(o) =>
      OrderValues(o.nft, o.tokenId, o.amount, o.standard, o.paymentToken, o.priceWei, o.durationDays)
    case CreateOffer(o) => OrderValues(o.nft, o.tokenId, o.amount, o.standard, o.paymentToken, o.priceWei, o.durationDays)
    case CancelListing(id) => [UintValue(id)]
    case BuyListing(id) => [UintValue(id)]
    case CancelOffer(id) => [UintValue(id)]
    case AcceptOffer(id) => [UintValue(id)]
  }

  function SelectorOf(c: Call): (selector: string)
    ensures |selector| == 8
  {
    match c
    case RegisterSubname(_) => "8e78d578"
    case Publish721(_, _) => "c163bba7"
    case Publish1155(_, _, _) => "be2d8430"
    case CreatorPublish721(_, _, _) => "b5ec6550"
    case CreatorPublish1155(_, _, _, _, _) => "000f9e5f"
    case SetApprovalForAll(_, _) => "a22cb465"
    case SetPaymentTokenAllowed(_, _) => "28336098"
    case SetModerator(_, _, _) => "01ec709d"
    case Erc20Approve(_, _) => "095ea7b3"
    case CreateListing(_) => "875108cf"
    case CancelListing(_) => "305a67a8"
    case BuyListing(_) => "d96a094a"
    case CreateOffer(_) => "6ae3f097"
    case CancelOffer(_) => "ef706adf"
    case AcceptOffer(_) => "c815729d"
  }

  /** Call data within the bounds exists, carries the call's selector and reads back as its arguments. */
  lemma CallDecodes(c: Call)
    requires ArgumentsOk(c) && Fits(ValuesOf(c))
    ensures Encodes(EncodeCall(c), SelectorOf(c), ValuesOf(c))
  {
    hide Fits, Encodes, IsHexAddress, AddressNumber;
    match c
    case RegisterSubname(name) => RegisterSubnameDecodes(name);
    case Publish721(subname, uri) => Publish721Decodes(subname, uri);
    case Publish1155(subname, amount, uri) => Publish1155Decodes(subname, amount, uri);
    case CreatorPublish721(to, uri, lockMetadata) => CreatorPublish721Decodes(to, uri, lockMetadata);
    case CreatorPublish1155(to, tokenId, amount, uri, lockMetadata) =>
      CreatorPublish1155Decodes(to, tokenId, amount, uri, lockMetadata);
    case SetApprovalForAll(operator, approved) => AddressBoolDecodes("a22cb465", operator, approved);
    case SetPaymentTokenAllowed(token, allowed) => AddressBoolDecodes("28336098", token, allowed);
    case SetModerator(account, name, active) => SetModeratorDecodes(account, name, active);
    case Erc20Approve(spender, amount) =>
      UintFits(ValuesOf(c), 1);
      Erc20ApproveDecodes(spender, amount);
    case CreateListing(o) =>
      OrderDecodes("875108cf", o.nft, o.tokenId, o.amount, o.standard, o.paymentToken, o.priceWei, o.durationDays);
    case CreateOffer(o) =>
      OrderDecodes("6ae3f097", o.nft, o.tokenId, o.amount, o.standard, o.paymentToken, o.priceWei, o.durationDays);
    case CancelListing(id) =>
      UintFits(ValuesOf(c), 0);
      IdDecodes("305a67a8", id);
    case BuyListing(id) =>
      UintFits(ValuesOf(c), 0);
      IdDecodes("d96a094a", id);
    case CancelOffer(id) =>
      UintFits(ValuesOf(c), 0);
      IdDecodes("ef706adf", id);
    case AcceptOffer(id) =>
      UintFits(ValuesOf(c), 0);
      IdDecodes("c815729d", id);
  }

  /** Behind its selector the data reads back as these values, and takes exactly these kinds. */
  predicate Reads(data: Option<string>, selector: string, values: seq<Value>) {
    && data.Some? && |data.value| >= 10 && data.value[..2] == "0x" && data.value[2..10] == selector
    && DecodeTuple(KindsOf(values), data.value[10..]) == Some(values)
  }

  /** Every call by name: its selector and its arguments in the order of the contract's signature. */
  lemma CallReads(c: Call)
    requires ArgumentsOk(c) && Fits(ValuesOf(c))
    ensures match c
            case RegisterSubname(name) => Reads(EncodeCall(c), "8e78d578", [StringValue(name)])
            case Publish721(subname, uri) => Reads(EncodeCall(c), "c163bba7", [StringValue(subname), StringValue(uri)])
            case Publish1155(subname, amount, uri) =>
              Reads(EncodeCall(c), "be2d8430", [StringValue(subname), UintValue(amount), StringValue(uri)])
            case CreatorPublish721(to, uri, lock) =>
              Reads(EncodeCall(c), "b5ec6550", [AddressValue(AddressNumber(to)), StringValue(uri), BoolValue(lock)])
            case CreatorPublish1155(to, tokenId, amount, uri, lock) =>
              Reads(EncodeCall(c), "000f9e5f",
                    [AddressValue(AddressNumber(to)), UintValue(tokenId), UintValue(amount), StringValue(uri), BoolValue(lock)])
            case SetApprovalForAll(operator, approved) =>
              Reads(EncodeCall(c), "a22cb465", [AddressValue(AddressNumber(operator)), BoolValue(approved)])
            case SetPaymentTokenAllowed(token, allowed) =>
              Reads(EncodeCall(c), "28336098", [AddressValue(AddressNumber(token)), BoolValue(allowed)])
            case SetModerator(account, name, active) =>
              Reads(EncodeCall(c), "01ec709d", [AddressValue(AddressNumber(account)), StringValue(name), BoolValue(active)])
            case Erc20Approve(spender, amount) =>
              Reads(EncodeCall(c), "095ea7b3", [AddressValue(AddressNumber(spender)), UintValue(amount)])
            case CreateListing(o) =>
              Reads(EncodeCall(c), "875108cf",
                    [AddressValue(AddressNumber(o.nft)), UintValue(o.tokenId), UintValue(o.amount), StringValue(o.standard),
                     AddressValue(AddressNumber(o.paymentToken)), UintValue(o.priceWei), UintValue(o.durationDays)])
            case CreateOffer(o) =>
              Reads(EncodeCall(c), "6ae3f097",
                    [AddressValue(AddressNumber(o.nft)), UintValue(o.tokenId), UintValue(o.amount), StringValue(o.standard),
                     AddressValue(AddressNumber(o.paymentToken)), UintValue(o.priceWei), UintValue(o.durationDays)])
            case CancelListing(id) => Reads(EncodeCall(c), "305a67a8", [UintValue(id)])
            case BuyListing(id) => Reads(EncodeCall(c), "d96a094a", [UintValue(id)])
            case CancelOffer(id) => Reads(EncodeCall(c), "ef706adf", [UintValue(id)])
            case AcceptOffer(id) => Reads(EncodeCall(c), "c815729d", [UintValue(id)])
  {
    hide Fits, IsHexAddress, AddressNumber, EncodeCall, DecodeTuple, KindsOf, Encodes, Reads;
    CallDecodes(c);
    EncodedReads(EncodeCall(c), SelectorOf(c), ValuesOf(c));
  }

  lemma EncodedReads(data: Option<string>, selector: string, values: seq<Value>)
    requires |selector| == 8 && Encodes(data, selector, values)
    ensures Reads(data, selector, values)
  {
    hide DecodeTuple, KindsOf;
  }

  /** Two calls digit by digit: a word is padded on the left, a string's bytes on the right. */
  lemma WrittenOut()
    ensures EncodeCall(BuyListing(26)) == Some("0x" + "d96a094a" + (Zeros(62) + "1a"))
    ensures EncodeCall(RegisterSubname([97, 98, 122])) ==
            Some("0x" + "8e78d578" + ((Zeros(62) + "20") + ((Zeros(63) + "3") + ("61627a" + Zeros(58)))))
  {
    hide Pow, PadStart, HexOfBytes, PadEnd;
    SmallWords();
    ThreeBytes();
    OnePart(EncodeUint256(26));
    TwoParts(EncodeUint256(32), EncodeStringData([97, 98, 122]));
  }

  lemma SmallWords()
    ensures EncodeUint256(26) == Some(Zeros(62) + "1a") && EncodeUint256(32) == Some(Zeros(62) + "20")
    ensures EncodeUint256(3) == Some(Zeros(63) + "3")
  {
    assert Print(26, 16) == "1a" && Print(32, 16) == "20" && Print(3, 16) == "3";
  }

  lemma OnePart(part: Option<string>)
    ensures CatAll([part]) == part
  {
    assert [part][..0] == [];
    if part.Some? {
      assert "" + part.value == part.value;
    }
  }

  lemma TwoParts(first: Option<string>, second: string)
    ensures first.Some? ==> CatAll([first, Some(second)]) == Some(first.value + second)
  {
    assert [first, Some(second)][..1] == [first];
    OnePart(first);
  }

  lemma ThreeBytes()
    ensures EncodeStringData([97, 98, 122]) == (Zeros(63) + "3") + ("61627a" + Zeros(58))
  {
    hide HexOfByte, Pow;
    var bytes: seq<Byte> := [97, 98, 122];
    SmallBytes();
    assert bytes[..2] == [97, 98] && bytes[..2][..1] == [97] && [97][..0] == [];
    HexSnoc([], 97);
    HexSnoc([97], 98);
    HexSnoc([97, 98], 122);
    assert HexOfBytes(bytes) == "61627a" by {
      assert [] + [97] == [97] && [97] + [98] == [97, 98] && [97, 98] + [122] == bytes;
    }
    SmallWords();
  }

  lemma HexSnoc(bytes: seq<Byte>, b: Byte)
    ensures HexOfBytes(bytes + [b]) == HexOfBytes(bytes) + HexOfByte(b)
  {
    assert (bytes + [b])[..|bytes|] == bytes;
  }

  lemma SmallBytes()
    ensures HexOfByte(97) == "61" && HexOfByte(98) == "62" && HexOfByte(122) == "7a" && HexOfBytes([]) == ""
  {
    assert Print(97, 16) == "61" && Print(98, 16) == "62" && Print(122, 16) == "7a";
  }

  lemma UintFits(values: seq<Value>, i: nat)
    requires Fits(values) && i < |values| && values[i].UintValue?
    ensures values[i].n < Pow(16, WORD_HEX_LEN)
  {
    hide Pow, OffsetOf;
  }

  predicate EightPresent(parts: seq<Option<string>>) {
    && (|parts| > 0 ==> parts[0].Some?) && (|parts| > 1 ==> parts[1].Some?) && (|parts| > 2 ==> parts[2].Some?)
    && (|parts| > 3 ==> parts[3].Some?) && (|parts| > 4 ==> parts[4].Some?) && (|parts| > 5 ==> parts[5].Some?)
    && (|parts| > 6 ==> parts[6].Some?) && (|parts| > 7 ==> parts[7].Some?)
  }

  /** Of at most eight parts, one failing makes the call fail. */
  lemma AllPartsOrNone(selector: string, parts: seq<Option<string>>)
    requires |parts| <= 8
    ensures Assemble(selector, parts).Some? <==> EightPresent(parts)
  {
    hide CatAll;
    FailsIffArgumentFails(parts);
  }

  lemma OrderSucceedsIff(selector: string, o: Order)
    ensures EncodeOrder(selector, o.nft, o.tokenId, o.amount, o.standard, o.paymentToken, o.priceWei, o.durationDays).Some? <==>
            OrderOk(o)
  {
    hide IsHexAddress, EncodeStringData, Print, PadStart, Assemble;
    AllPartsOrNone(selector, [EncodeAddress(o.nft), EncodeUint256(o.tokenId), EncodeUint256(o.amount), WordFromBytes(224),
                              EncodeAddress(o.paymentToken), EncodeUint256(o.priceWei), EncodeUint256(o.durationDays),
                              Some(EncodeStringData(o.standard))]);
  }

  lemma PublishSucceedsIff(c: Call)
    requires Index(c) <= 4
    ensures EncodeCall(c).Some? <==> ArgumentsOk(c)
  {
    hide IsHexAddress, EncodeStringData, Print, PadStart, Assemble;
    forall selector: string, parts: seq<Option<string>> | |parts| <= 8
      ensures Assemble(selector, parts).Some? <==> EightPresent(parts)
    {
      AllPartsOrNone(selector, parts);
    }
  }

  lemma ShortCallSucceedsIff(c: Call)
    requires Index(c) > 4 && !c.CreateListing? && !c.CreateOffer?
    ensures EncodeCall(c).Some? <==> ArgumentsOk(c)
  {
    hide IsHexAddress, EncodeStringData, Print, PadStart, Assemble;
    forall selector: string, parts: seq<Option<string>> | |parts| <= 8
      ensures Assemble(selector, parts).Some? <==> EightPresent(parts)
    {
      AllPartsOrNone(selector, parts);
    }
  }

  /** A call is refused exactly for a negative integer or a malformed address. */
  lemma CallSucceedsIff(c: Call)
    ensures EncodeCall(c).Some? <==> ArgumentsOk(c)
  {
    hide EncodeOrder, OrderOk;
    match c
    case CreateListing(o) => OrderSucceedsIff("875108cf", o);
    case CreateOffer(o) => OrderSucceedsIff("6ae3f097", o);
    case _ =>
      if Index(c) <= 4 {
        PublishSucceedsIff(c);
      } else {
        ShortCallSucceedsIff(c);
      }
  }

  /** Which call a selector stands for; its first two digits decide. */
  function Tag(x: char, y: char): nat {
    if x == '8' then if y == 'e' then 0 else 9
    else if x == 'c' then if y == '1' then 1 else 14
    else if x == 'b' then if y == 'e' then 2 else 3
    else if x == '0' then if y == '0' then 4 else if y == '1' then 7 else 8
    else if x == 'a' then 5
    else if x == '2' then 6
    else if x == '3' then 10
    else if x == 'd' then 11
    else if x == '6' then 12
    else 13
  }

  function Index(c: Call): nat {
    match c
    case RegisterSubname(_) => 0
    case Publish721(_, _) => 1
    case Publish1155(_, _, _) => 2
    case CreatorPublish721(_, _, _) => 3
    case CreatorPublish1155(_, _, _, _, _) => 4
    case SetApprovalForAll(_, _) => 5
    case SetPaymentTokenAllowed(_, _) => 6
    case SetModerator(_, _, _) => 7
    case Erc20Approve(_, _) => 8
    case CreateListing(_) => 9
    case CancelListing(_) => 10
    case BuyListing(_) => 11
    case CreateOffer(_) => 12
    case CancelOffer(_) => 13
    case AcceptOffer(_) => 14
  }

  lemma SelectorTells(c: Call)
    ensures Tag(SelectorOf(c)[0], SelectorOf(c)[1]) == Index(c)
  {}

  /** The same call written with lower-case addresses without their prefix. */
  function Canonical(c: Call): Call {
    match c
    case CreatorPublish721(to, uri, lockMetadata) => CreatorPublish721(Lower(Strip0x(to)), uri, lockMetadata)
    case CreatorPublish1155(to, tokenId, amount, uri, lockMetadata) =>
      CreatorPublish1155(Lower(Strip0x(to)), tokenId, amount, uri, lockMetadata)
    case SetApprovalForAll(operator, approved) => SetApprovalForAll(Lower(Strip0x(operator)), approved)
    case SetPaymentTokenAllowed(token, allowed) => SetPaymentTokenAllowed(Lower(Strip0x(token)), allowed)
    case SetModerator(account, name, active) => SetModerator(Lower(Strip0x(account)), name, active)
    case Erc20Approve(spender, amount) => Erc20Approve(Lower(Strip0x(spender)), amount)
    case CreateListing(o) => CreateListing(CanonicalOrder(o))
    case CreateOffer(o) => CreateOffer(CanonicalOrder(o))
    case _ => c
  }

  function CanonicalOrder(o: Order): Order {
    o.(nft := Lower(Strip0x(o.nft)), paymentToken := Lower(Strip0x(o.paymentToken)))
  }

  lemma SameNumberSameAddress(a: string, b: string)
    requires IsHexAddress(a) && IsHexAddress(b) && AddressNumber(a) == AddressNumber(b)
    ensures Lower(Strip0x(a)) == Lower(Strip0x(b))
  {
    hide Pow, Parse, AddressNumber, PadStart, AllDigits;
    AddressIsWord(a);
    AddressIsWord(b);
    var x, y := Lower(Strip0x(a)), Lower(Strip0x(b));
    PaddedSame(x, y);
  }

  lemma PaddedSame(x: string, y: string)
    requires |x| == |y| <= WORD_HEX_LEN && PadStart(x, WORD_HEX_LEN) == PadStart(y, WORD_HEX_LEN)
    ensures x == y
  {
    var p := PadStart(x, WORD_HEX_LEN);
    assert x == p[WORD_HEX_LEN - |x|..] && y == PadStart(y, WORD_HEX_LEN)[WORD_HEX_LEN - |x|..];
  }

  lemma AddressesSame()
    ensures forall a: string, b: string | IsHexAddress(a) && IsHexAddress(b) && AddressNumber(a) == AddressNumber(b) ::
              Lower(Strip0x(a)) == Lower(Strip0x(b))
  {
    forall a: string, b: string | IsHexAddress(a) && IsHexAddress(b) && AddressNumber(a) == AddressNumber(b)
      ensures Lower(Strip0x(a)) == Lower(Strip0x(b))
    {
      SameNumberSameAddress(a, b);
    }
  }

  lemma SameValuesSameCall(a: Call, b: Call)
    requires Index(a) == Index(b) && ArgumentsOk(a) && ArgumentsOk(b) && ValuesOf(a) == ValuesOf(b)
    ensures Canonical(a) == Canonical(b)
  {
    hide IsHexAddress, AddressNumber, Lower, Strip0x;
    AddressesSame();
    var x, y := ValuesOf(a), ValuesOf(b);
    assert forall i | 0 <= i < |x| :: x[i] == y[i];
  }

  lemma SameIndexSameKinds(a: Call, b: Call)
    requires Index(a) == Index(b) && ArgumentsOk(a) && ArgumentsOk(b)
    ensures KindsOf(ValuesOf(a)) == KindsOf(ValuesOf(b))
  {
    hide IsHexAddress, AddressNumber;
  }

  /** Two calls have the same data exactly when they are the same call with the same arguments,
      addresses compared without letter case and prefix. */
  lemma DataTellsTheCall(a: Call, b: Call)
    requires ArgumentsOk(a) && ArgumentsOk(b) && Fits(ValuesOf(a)) && Fits(ValuesOf(b))
    ensures EncodeCall(a) == EncodeCall(b) <==> Canonical(a) == Canonical(b)
  {
    hide ArgumentsOk, ValuesOf, EncodeCall, SelectorOf, Canonical, Index, Fits, DecodeTuple, KindsOf, Tag;
    if EncodeCall(a) == EncodeCall(b) {
      CallDecodes(a);
      CallDecodes(b);
      SelectorTells(a);
      SelectorTells(b);
      assert SelectorOf(a) == SelectorOf(b);
      SameIndexSameKinds(a, b);
      SameValuesSameCall(a, b);
    }
    if Canonical(a) == Canonical(b) {
      CanonicalData(a, b);
    }
  }

  lemma CanonicalData(a: Call, b: Call)
    requires ArgumentsOk(a) && ArgumentsOk(b) && Canonical(a) == Canonical(b)
    ensures EncodeCall(a) == EncodeCall(b)
  {
    hide IsHexAddress, Lower, Strip0x, EncodeStringData, EncodeUint256, EncodeBool, Assemble, PadStart;
  }
}
