/** The head/tail encoding of argument tuples by the Solidity Contract ABI Specification, section
    "Formal Specification of the Encoding", for the argument types the marketplace calls use, with
    a decoder and the proof that it inverts the encoding. Data is written in hexadecimal, 64
    digits to the word. */
module AbiSpec {
  import opened Options
  import opened Numerals

  type Byte = b: nat | b < 256

  const WORD_HEX_LEN: nat := 64

  datatype Kind = UintKind | BoolKind | AddressKind | StringKind
  datatype Value = UintValue(n: nat) | BoolValue(b: bool) | AddressValue(a: nat) | StringValue(bytes: seq<Byte>)

  function KindOf(v: Value): Kind {
    match v
    case UintValue(_) => UintKind
    case BoolValue(_) => BoolKind
    case AddressValue(_) => AddressKind
    case StringValue(_) => StringKind
  }

  function PadStart(s: string, width: nat): string {
    if |s| < width then Zeros(width - |s|) + s else s
  }

  function PadEnd(s: string, width: nat): string {
    if |s| < width then s + Zeros(width - |s|) else s
  }

  function Word(n: nat): string { PadStart(Print(n, 16), WORD_HEX_LEN) }

  /** A word has its 64 digits exactly when the number is below 2^256. */
  lemma WordFits(n: nat)
    ensures |Word(n)| == WORD_HEX_LEN <==> n < Pow(16, WORD_HEX_LEN)
    ensures AllDigits(Word(n), 16) && Parse(Word(n), 16) == n
  {
    hide Pow, Parse;
    PrintLength(n, 16, WORD_HEX_LEN);
    ParsePrint(n, 16);
    if |Print(n, 16)| < WORD_HEX_LEN {
      ParsePadded(WORD_HEX_LEN - |Print(n, 16)|, Print(n, 16), 16);
    }
  }

  // ----- bytes as hexadecimal -----

  function HexOfBytes(bytes: seq<Byte>): (s: string)
    ensures |s| == 2 * |bytes|
  {
    if bytes == [] then "" else HexOfBytes(bytes[..|bytes| - 1]) + HexOfByte(bytes[|bytes| - 1])
  }

  function HexOfByte(b: Byte): (s: string)
    ensures |s| == 2
  {
    PrintShort(b);
    PadStart(Print(b, 16), 2)
  }

  lemma PrintShort(b: Byte)
    ensures |Print(b, 16)| <= 2
  {
    PrintLength(b, 16, 2);
    assert Pow(16, 2) == 16 * Pow(16, 1);
  }

  lemma ByteRoundTrip(b: Byte)
    ensures AllDigits(HexOfByte(b), 16) && Parse(HexOfByte(b), 16) == b
  {
    hide Parse;
    PrintShort(b);
    ParsePrint(b, 16);
    ParsePadded(2 - |Print(b, 16)|, Print(b, 16), 16);
  }

  function BytesOfHex(s: string): Option<seq<Byte>>
  {
    if s == "" then Some([])
    else if |s| == 1 || Parse(s[|s| - 2..], 16) >= 256 || !AllDigits(s[|s| - 2..], 16) then None
    else
      match BytesOfHex(s[..|s| - 2])
      case None => None
      case Some(init) => Some(init + [Parse(s[|s| - 2..], 16)])
  }

  lemma {:induction false} BytesRoundTrip(bytes: seq<Byte>)
    ensures BytesOfHex(HexOfBytes(bytes)) == Some(bytes)
  {
    hide HexOfByte, Parse;
    if bytes != [] {
      var init, last := bytes[..|bytes| - 1], bytes[|bytes| - 1];
      BytesRoundTrip(init);
      ByteRoundTrip(last);
      BytesOfHexStep(HexOfBytes(init), HexOfByte(last));
      assert bytes == init + [last];
    }
  }

  lemma BytesOfHexStep(s: string, two: string)
    requires |two| == 2 && AllDigits(two, 16) && Parse(two, 16) < 256 && BytesOfHex(s).Some?
    ensures BytesOfHex(s + two) == Some(BytesOfHex(s).value + [Parse(two, 16)])
  {
    hide Parse;
    var t := s + two;
    assert t[..|t| - 2] == s && t[|t| - 2..] == two;
  }

  /** Bytes are padded to whole words. */
  function Padded(hexLen: nat): nat { (hexLen + WORD_HEX_LEN - 1) / WORD_HEX_LEN * WORD_HEX_LEN }

  lemma PaddedRounds(hexLen: nat)
    ensures hexLen <= Padded(hexLen) < hexLen + WORD_HEX_LEN && Padded(hexLen) % WORD_HEX_LEN == 0
  {}

  // ----- the encoding -----

  function Enc(v: Value): string {
    match v
    case UintValue(n) => Word(n)
    case BoolValue(b) => Word(if b then 1 else 0)
    case AddressValue(a) => Word(a)
    case StringValue(bytes) => Word(|bytes|) + PadEnd(HexOfBytes(bytes), Padded(2 * |bytes|))
  }

  function TailHexLen(v: Value): nat {
    if v.StringValue? then WORD_HEX_LEN + Padded(2 * |v.bytes|) else 0
  }

  /** The total length of the first `i` tails, in hexadecimal digits. */
  function TailsBefore(values: seq<Value>, i: nat): nat
    requires i <= |values|
  {
    if i == 0 then 0 else TailsBefore(values, i - 1) + TailHexLen(values[i - 1])
  }

  /** Where the tail of a dynamic argument starts, in bytes from the start of the tuple. */
  function OffsetOf(values: seq<Value>, i: nat): nat
    requires i <= |values|
  {
    32 * |values| + TailsBefore(values, i) / 2
  }

  function HeadOf(values: seq<Value>, i: nat): string
    requires i < |values|
  {
    if values[i].StringValue? then Word(OffsetOf(values, i)) else Enc(values[i])
  }

  function HeadParts(values: seq<Value>): (parts: seq<string>)
    ensures |parts| == |values| && forall i | 0 <= i < |values| :: parts[i] == HeadOf(values, i)
  {
    seq(|values|, i requires 0 <= i < |values| => HeadOf(values, i))
  }

  /** Static arguments have an empty tail. */
  function TailParts(values: seq<Value>): seq<string> {
    if values == [] then []
    else
      var before, last := TailParts(values[..|values| - 1]), values[|values| - 1];
      if last.StringValue? then before + [Enc(last)] else before
  }

  function Cat(parts: seq<string>): string {
    if parts == [] then "" else Cat(parts[..|parts| - 1]) + parts[|parts| - 1]
  }

  function EncodeTuple(values: seq<Value>): string {
    Cat(HeadParts(values) + TailParts(values))
  }

  /** Integers below 2^256, addresses below 2^160, and a total length that fits a word. */
  predicate Fits(values: seq<Value>) {
    && OffsetOf(values, |values|) < Pow(16, WORD_HEX_LEN)
    && forall i | 0 <= i < |values| :: ValueFits(values[i])
  }

  predicate ValueFits(v: Value) {
    match v
    case UintValue(n) => n < Pow(16, WORD_HEX_LEN)
    case BoolValue(_) => true
    case AddressValue(a) => a < Pow(16, 40)
    case StringValue(_) => true
  }

  // ----- the decoder -----

  function ReadWord(data: string, at: nat): Option<nat> {
    if at + WORD_HEX_LEN > |data| || !AllDigits(data[at..at + WORD_HEX_LEN], 16) then None
    else Some(Parse(data[at..at + WORD_HEX_LEN], 16))
  }

  /** A string at a byte offset: its length, its bytes, and zeros up to the next word. */
  function ReadString(data: string, offset: nat): Option<Value> {
    var at := 2 * offset;
    match ReadWord(data, at)
    case None => None
    case Some(len) =>
      var start := at + WORD_HEX_LEN;
      if offset % 32 != 0 || start + Padded(2 * len) > |data| then None
      else
        assert 2 * len <= Padded(2 * len) by { PaddedRounds(2 * len); }
        if data[start + 2 * len..start + Padded(2 * len)] != Zeros(Padded(2 * len) - 2 * len) then None
        else
          match BytesOfHex(data[start..start + 2 * len])
          case None => None
          case Some(bytes) => Some(StringValue(bytes))
  }

  function DecodeValue(kind: Kind, data: string, i: nat): Option<Value> {
    match ReadWord(data, WORD_HEX_LEN * i)
    case None => None
    case Some(n) =>
      match kind
      case UintKind => Some(UintValue(n))
      case BoolKind => if n <= 1 then Some(BoolValue(n == 1)) else None
      case AddressKind => if n < Pow(16, 40) then Some(AddressValue(n)) else None
      case StringKind => ReadString(data, n)
  }

  function DecodeTuple(kinds: seq<Kind>, data: string): Option<seq<Value>> {
    if kinds == [] then Some([])
    else
      match (DecodeTuple(kinds[..|kinds| - 1], data), DecodeValue(kinds[|kinds| - 1], data, |kinds| - 1))
      case (Some(init), Some(last)) => Some(init + [last])
      case _ => None
  }

  function KindsOf(values: seq<Value>): (kinds: seq<Kind>)
    ensures |kinds| == |values| && forall i | 0 <= i < |values| :: kinds[i] == KindOf(values[i])
  {
    seq(|values|, i requires 0 <= i < |values| => KindOf(values[i]))
  }

  // ----- where everything is -----

  lemma {:induction false} CatConcat(a: seq<string>, b: seq<string>)
    ensures Cat(a + b) == Cat(a) + Cat(b)
  {
    if b == [] {
      assert a + b == a;
    } else {
      var init := b[..|b| - 1];
      CatConcat(a, init);
      assert (a + b)[..|a + b| - 1] == a + init;
    }
  }

  lemma {:induction false} CatWords(parts: seq<string>, i: nat)
    requires i < |parts| && forall j | 0 <= j < |parts| :: |parts[j]| == WORD_HEX_LEN
    ensures |Cat(parts)| == WORD_HEX_LEN * |parts|
    ensures Cat(parts)[WORD_HEX_LEN * i..WORD_HEX_LEN * i + WORD_HEX_LEN] == parts[i]
  {
    var init := parts[..|parts| - 1];
    if |parts| > 1 {
      CatWords(init, if i < |init| then i else 0);
    }
  }

  lemma {:induction false} TailsBeforeGrow(values: seq<Value>, i: nat, j: nat)
    requires i <= j <= |values|
    ensures TailsBefore(values, i) <= TailsBefore(values, j)
    decreases j
  {
    if i < j {
      TailsBeforeGrow(values, i, j - 1);
    }
  }

  lemma {:induction false} TailsWholeWords(values: seq<Value>, i: nat)
    requires i <= |values|
    ensures TailsBefore(values, i) % WORD_HEX_LEN == 0
  {
    if i > 0 {
      TailsWholeWords(values, i - 1);
      if values[i - 1].StringValue? {
        PaddedRounds(2 * |values[i - 1].bytes|);
      }
    }
  }

  /** Every offset is word-aligned, lies behind the heads, and no tail reaches into the next one. */
  lemma OffsetsAlignedAndDisjoint(values: seq<Value>, i: nat, j: nat)
    requires i < j <= |values|
    ensures OffsetOf(values, i) % 32 == 0 && 32 * |values| <= OffsetOf(values, i)
    ensures OffsetOf(values, i) + TailHexLen(values[i]) / 2 <= OffsetOf(values, j)
  {
    TailsWholeWords(values, i);
    TailsWholeWords(values, i + 1);
    TailsBeforeGrow(values, i + 1, j);
  }

  lemma EncLength(v: Value)
    requires ValueFits(v) && (v.StringValue? ==> |v.bytes| < Pow(16, WORD_HEX_LEN))
    ensures |Enc(v)| == if v.StringValue? then TailHexLen(v) else WORD_HEX_LEN
  {
    hide Pow;
    SmallFits();
    match v
    case UintValue(n) => WordFits(n);
    case BoolValue(b) => WordFits(if b then 1 else 0);
    case AddressValue(a) => WordFits(a);
    case StringValue(bytes) =>
      WordFits(|bytes|);
      PaddedRounds(2 * |bytes|);
  }

  lemma SmallFits()
    ensures 1 < Pow(16, WORD_HEX_LEN) && Pow(16, 40) <= Pow(16, WORD_HEX_LEN)
  {
    hide Pow;
    PowMonotone(16, 40, WORD_HEX_LEN);
    PowMonotone(16, 1, WORD_HEX_LEN);
    SixteenToOne();
  }

  lemma SixteenToOne()
    ensures Pow(16, 1) == 16
  {}

  /** The pieces of a fitting tuple have the lengths the offsets count on. */
  lemma StringsFit(values: seq<Value>, i: nat)
    requires Fits(values) && i < |values|
    ensures values[i].StringValue? ==> |values[i].bytes| < Pow(16, WORD_HEX_LEN)
    ensures OffsetOf(values, i) < Pow(16, WORD_HEX_LEN)
  {
    hide Pow;
    TailsBeforeGrow(values, i + 1, |values|);
    TailsBeforeGrow(values, i, |values|);
    if values[i].StringValue? {
      PaddedRounds(2 * |values[i].bytes|);
    }
  }

  lemma HeadLength(values: seq<Value>, i: nat)
    requires Fits(values) && i < |values|
    ensures |HeadOf(values, i)| == WORD_HEX_LEN
  {
    hide Pow, Enc;
    StringsFit(values, i);
    if values[i].StringValue? {
      WordFits(OffsetOf(values, i));
    } else {
      EncLength(values[i]);
    }
  }

  lemma {:induction false} TailPosition(values: seq<Value>, n: nat, i: nat)
    requires Fits(values) && i < n <= |values| && values[i].StringValue?
    ensures var at, tails := TailsBefore(values, i), Cat(TailParts(values[..n]));
      && |tails| == TailsBefore(values, n)
      && at + |Enc(values[i])| <= |tails|
      && tails[at..at + |Enc(values[i])|] == Enc(values[i])
  {
    hide Pow, Enc, Fits, TailParts, Cat, TailHexLen;
    TailsStep(values, n);
    TailsLength(values, n);
    TailsLength(values, n - 1);
    StringsFit(values, i);
    EncLength(values[i]);
    var tails, before := Cat(TailParts(values[..n])), Cat(TailParts(values[..n - 1]));
    if i < n - 1 {
      TailPosition(values, n - 1, i);
      var at, len := TailsBefore(values, i), |Enc(values[i])|;
      assert tails[at..at + len] == before[at..at + len];
    }
  }

  lemma TailsStep(values: seq<Value>, n: nat)
    requires 0 < n <= |values|
    ensures Cat(TailParts(values[..n])) ==
            if values[n - 1].StringValue? then Cat(TailParts(values[..n - 1])) + Enc(values[n - 1])
            else Cat(TailParts(values[..n - 1]))
  {
    hide Enc;
    var init, last := TailParts(values[..n - 1]), values[n - 1];
    assert values[..n][..n - 1] == values[..n - 1];
    assert (init + [Enc(last)])[..|init|] == init;
  }

  lemma {:induction false} TailsLength(values: seq<Value>, n: nat)
    requires Fits(values) && n <= |values|
    ensures |Cat(TailParts(values[..n]))| == TailsBefore(values, n)
  {
    hide Pow, Enc;
    if n > 0 {
      TailsStep(values, n);
      TailsLength(values, n - 1);
      StringsFit(values, n - 1);
      EncLength(values[n - 1]);
    }
  }

  // ----- round trip -----

  lemma HeadsInPlace(values: seq<Value>, i: nat)
    requires Fits(values) && i < |values|
    ensures |Cat(HeadParts(values))| == WORD_HEX_LEN * |values|
    ensures var data := EncodeTuple(values); var at := WORD_HEX_LEN * i;
      at + WORD_HEX_LEN <= |data| && data[at..at + WORD_HEX_LEN] == HeadOf(values, i)
  {
    hide Pow, HeadOf, TailParts, Cat;
    var heads, tails := HeadParts(values), TailParts(values);
    forall j | 0 <= j < |values|
      ensures |heads[j]| == WORD_HEX_LEN
    {
      HeadLength(values, j);
    }
    CatWords(heads, i);
    CatConcat(heads, tails);
    var at := WORD_HEX_LEN * i;
    assert (Cat(heads) + Cat(tails))[at..at + WORD_HEX_LEN] == Cat(heads)[at..at + WORD_HEX_LEN];
  }

  lemma TailInPlace(values: seq<Value>, i: nat)
    requires Fits(values) && i < |values| && values[i].StringValue?
    ensures var data := EncodeTuple(values); var at := 2 * OffsetOf(values, i);
      at + |Enc(values[i])| <= |data| && data[at..at + |Enc(values[i])|] == Enc(values[i])
  {
    hide Pow, HeadOf, TailParts, Cat, Enc;
    var heads, tails := HeadParts(values), TailParts(values);
    HeadsInPlace(values, i);
    CatConcat(heads, tails);
    TailPosition(values, |values|, i);
    assert values[..|values|] == values;
    TailsWholeWords(values, i);
    var before, len := TailsBefore(values, i), |Enc(values[i])|;
    var at := 2 * OffsetOf(values, i);
    assert at == |Cat(heads)| + before;
    assert (Cat(heads) + Cat(tails))[at..at + len] == Cat(tails)[before..before + len];
  }

  lemma WordReads(data: string, at: nat, n: nat)
    requires at + WORD_HEX_LEN <= |data| && data[at..at + WORD_HEX_LEN] == Word(n)
    ensures ReadWord(data, at) == Some(n)
  {
    WordFits(n);
  }

  lemma SliceOfSlice(data: string, at: nat, len: nat, i: nat, j: nat)
    requires at + len <= |data| && i <= j <= len
    ensures data[at..at + len][i..j] == data[at + i..at + j]
  {
    var whole, part := data[at..at + len], data[at + i..at + j];
    assert forall k | 0 <= k < j - i :: whole[i..j][k] == whole[i + k] == data[at + (i + k)] == part[k];
  }

  lemma ThreeParts(data: string, at: nat, w: string, raw: string, zeros: string)
    requires at + |w| + |raw| + |zeros| <= |data|
    requires data[at..at + |w| + |raw| + |zeros|] == w + (raw + zeros)
    ensures data[at..at + |w|] == w && data[at + |w|..at + |w| + |raw|] == raw
    ensures data[at + |w| + |raw|..at + |w| + |raw| + |zeros|] == zeros
  {
    var i, j, len := |w|, |w| + |raw|, |w| + |raw| + |zeros|;
    var s := w + (raw + zeros);
    assert s[0..i] == w && s[i..j] == raw && s[j..len] == zeros;
    SliceOfSlice(data, at, len, 0, i);
    SliceOfSlice(data, at, len, i, j);
    SliceOfSlice(data, at, len, j, len);
  }

  lemma StringReads(data: string, offset: nat, bytes: seq<Byte>)
    requires offset % 32 == 0 && |bytes| < Pow(16, WORD_HEX_LEN)
    requires var s := Enc(StringValue(bytes)); 2 * offset + |s| <= |data| && data[2 * offset..2 * offset + |s|] == s
    ensures ReadString(data, offset) == Some(StringValue(bytes))
  {
    hide Pow, BytesOfHex, Parse, Word, HexOfBytes, Padded, ReadWord;
    var at, raw := 2 * offset, HexOfBytes(bytes);
    WordFits(|bytes|);
    PaddedRounds(2 * |bytes|);
    var zeros := Zeros(Padded(2 * |bytes|) - |raw|);
    assert PadEnd(raw, Padded(2 * |bytes|)) == raw + zeros;
    ThreeParts(data, at, Word(|bytes|), raw, zeros);
    WordReads(data, at, |bytes|);
    BytesRoundTrip(bytes);
  }

  lemma ValueRoundTrip(values: seq<Value>, i: nat)
    requires Fits(values) && i < |values|
    ensures DecodeValue(KindOf(values[i]), EncodeTuple(values), i) == Some(values[i])
  {
    hide Pow, EncodeTuple, ReadString, ReadWord, Word, OffsetOf, Padded;
    var data := EncodeTuple(values);
    HeadsInPlace(values, i);
    StringsFit(values, i);
    match values[i]
    case UintValue(n) => WordReads(data, WORD_HEX_LEN * i, n);
    case BoolValue(b) => WordReads(data, WORD_HEX_LEN * i, if b then 1 else 0);
    case AddressValue(a) => WordReads(data, WORD_HEX_LEN * i, a);
    case StringValue(bytes) =>
      WordReads(data, WORD_HEX_LEN * i, OffsetOf(values, i));
      OffsetsAlignedAndDisjoint(values, i, |values|);
      TailInPlace(values, i);
      StringReads(data, OffsetOf(values, i), bytes);
  }

  lemma {:induction false} PrefixRoundTrip(values: seq<Value>, n: nat)
    requires Fits(values) && n <= |values|
    ensures DecodeTuple(KindsOf(values)[..n], EncodeTuple(values)) == Some(values[..n])
  {
    hide Pow, EncodeTuple, DecodeValue, Fits;
    if n > 0 {
      PrefixRoundTrip(values, n - 1);
      ValueRoundTrip(values, n - 1);
      assert KindsOf(values)[..n][..n - 1] == KindsOf(values)[..n - 1];
      assert values[..n] == values[..n - 1] + [values[n - 1]];
    }
  }

  /** Decoding an encoded tuple gives back the arguments. */
  lemma TupleRoundTrip(values: seq<Value>)
    requires Fits(values)
    ensures DecodeTuple(KindsOf(values), EncodeTuple(values)) == Some(values)
  {
    hide Pow, EncodeTuple, DecodeTuple, Fits;
    PrefixRoundTrip(values, |values|);
    assert KindsOf(values)[..|values|] == KindsOf(values) && values[..|values|] == values;
  }

  /** So different arguments of the same types have different encodings. */
  lemma EncodingInjective(a: seq<Value>, b: seq<Value>)
    requires Fits(a) && Fits(b) && KindsOf(a) == KindsOf(b) && EncodeTuple(a) == EncodeTuple(b)
    ensures a == b
  {
    hide Pow, EncodeTuple, DecodeTuple, Fits, KindsOf;
    TupleRoundTrip(a);
    TupleRoundTrip(b);
  }

  /** Whatever data is decoded, the values read fit their types. */
  lemma {:induction false} DecodedFit(kinds: seq<Kind>, data: string)
    requires DecodeTuple(kinds, data).Some?
    ensures forall v | v in DecodeTuple(kinds, data).value :: ValueFits(v)
  {
    hide DecodeValue, ValueFits;
    if kinds != [] {
      var k := |kinds| - 1;
      DecodedFit(kinds[..k], data);
      DecodedValueFits(kinds[k], data, k);
    }
  }

  lemma DecodedValueFits(kind: Kind, data: string, i: nat)
    requires DecodeValue(kind, data, i).Some?
    ensures ValueFits(DecodeValue(kind, data, i).value)
  {
    hide Pow, Parse, BytesOfHex;
    var at := WORD_HEX_LEN * i;
    ParseBound(data[at..at + WORD_HEX_LEN], 16);
  }
}
