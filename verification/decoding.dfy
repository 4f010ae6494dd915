/** internal/decoder/decoder.go: from response bytes to register words to a value. */
module Decoding {
  import opened Results
  import Text

  type Byte = n: int | 0 <= n < 0x100
  type Word = n: int | 0 <= n < 0x1_0000

  datatype DataType = U16 | I16 | U32 | I32 | U64 | Float32

  /** A decoded float64: an integer, the IEEE 754 single with the given bits, or the NaN that
      marks a sentinel. */
  datatype Value = Number(n: int) | Single(bits: nat) | NotANumber

  datatype DecodeError = OddByteCount | NoRegisters | TooFewRegisters | UnsupportedType

  /** math.IsNaN: a single is NaN when its exponent is all ones and its fraction is not 0. */
  predicate IsNaN(v: Value) {
    match v
    case Number(_) => false
    case Single(bits) => bits / 0x80_0000 % 0x100 == 0xFF && bits % 0x80_0000 != 0
    case NotANumber => true
  }

  function TypeName(t: DataType): string {
    match t
    case U16 => "U16"
    case I16 => "I16"
    case U32 => "U32"
    case I32 => "I32"
    case U64 => "U64"
    case Float32 => "FLOAT32"
  }

  /** The names a data type goes by, trimmed and upper-cased. */
  function LookUpType(name: string): Option<DataType> {
    if name in {"I16", "SHORT", "INT16"} then Some(I16)
    else if name in {"U16", "USHORT", "UINT16"} then Some(U16)
    else if name in {"I32", "LONG", "SLONG", "INT32", "S32", "SW_INT", "SMA_INT32"} then Some(I32)
    else if name in {"U32", "ULONG", "DWORD", "UINT32", "SW_UINT", "SMA_UINT32"} then Some(U32)
    else if name in {"U64", "UINT64", "SMA_UINT64"} then Some(U64)
    else if name in {"FLOAT32", "FLOAT", "SW_FLOAT"} then Some(Float32)
    else None
  }

  function ParseType(dataType: string): Option<DataType> {
    LookUpType(Text.UpperTrim(dataType))
  }

  /** A normalised data type: a canonical type, or a name nothing is known about. */
  datatype TypeTag = Canonical(t: DataType) | Unknown(name: string)

  function Tag(dataType: string): TypeTag {
    match ParseType(dataType)
    case Some(t) => Canonical(t)
    case None => Unknown(Text.UpperTrim(dataType))
  }

  function TagName(tag: TypeTag): string {
    match tag
    case Canonical(t) => TypeName(t)
    case Unknown(name) => name
  }

  function NormalizeDataType(dataType: string): string {
    TagName(Tag(dataType))
  }

  function Width(t: DataType): (w: nat)
    ensures w in {1, 2, 4}
  {
    match t
    case U16 | I16 => 1
    case U32 | I32 | Float32 => 2
    case U64 => 4
  }

  function RegisterCount(dataType: string): nat {
    match ParseType(dataType)
    case Some(t) => Width(t)
    case None => 0
  }

  lemma NamesItself(t: DataType)
    ensures LookUpType(TypeName(t)) == Some(t)
  {
    match t
    case U16 => assert LookUpType("U16") == Some(U16);
    case I16 => assert LookUpType("I16") == Some(I16);
    case U32 => assert LookUpType("U32") == Some(U32);
    case I32 => assert LookUpType("I32") == Some(I32);
    case U64 => assert LookUpType("U64") == Some(U64);
    case Float32 => assert LookUpType("FLOAT32") == Some(Float32);
  }

  lemma TypeNameRoundTrip(t: DataType)
    ensures Text.Trimmed(TypeName(t)) && Text.UpperCase(TypeName(t)) && TypeName(t) != ""
    ensures ParseType(TypeName(t)) == Some(t)
    ensures !Text.HasPrefix(Text.UpperTrim(TypeName(t)), "SW_")
  {
    var name := TypeName(t);
    assert Text.Trimmed(name) && Text.UpperCase(name);
    NamesItself(t);
    assert name[1] != 'W';
  }

  function WordOf(hi: int, lo: int): int {
    hi * 0x100 + lo
  }

  function DoubleWord(hi: int, lo: int): int {
    hi * 0x1_0000 + lo
  }

  // ----- positional values -----

  /** Most significant word first, base 65536. */
  function Positional(words: seq<Word>): nat {
    if words == [] then 0 else Positional(words[..|words| - 1]) * 0x1_0000 + words[|words| - 1]
  }

  /** The number of values that k words can hold. */
  function Capacity(k: nat): nat {
    if k == 0 then 1 else Capacity(k - 1) * 0x1_0000
  }

  function WordsOf(u: nat, k: nat): (words: seq<Word>)
    ensures |words| == k
  {
    if k == 0 then [] else WordsOf(u / 0x1_0000, k - 1) + [u % 0x1_0000]
  }

  function Reverse<T>(s: seq<T>): (r: seq<T>)
    ensures |r| == |s|
    ensures forall i | 0 <= i < |s| :: r[i] == s[|s| - 1 - i]
  {
    if s == [] then [] else Reverse(s[1..]) + [s[0]]
  }

  function InOrder(words: seq<Word>, swap: bool): (r: seq<Word>)
    ensures |r| == |words|
  {
    if swap then Reverse(words) else words
  }

  /** Two's complement: the value of u in a width whose sign bit weighs `half`. */
  function Signed(u: nat, half: nat): int {
    if u >= half then u - 2 * half else u
  }

  /** What a word pattern of type t stands for; three all-bits patterns mean "no value". */
  function Interpret(t: DataType, u: nat): Value {
    match t
    case U16 => Number(u)
    case I16 => Number(Signed(u, 0x8000))
    case U32 => if u == 0xFFFF_FFFF then NotANumber else Number(u)
    case I32 => if u == 0x8000_0000 then NotANumber else Number(Signed(u, 0x8000_0000))
    case U64 => if u == 0xFFFF_FFFF_FFFF_FFFF then NotANumber else Number(u)
    case Float32 => Single(u)
  }

  /** Whether the words of a register of this type arrive least significant first. The `SW_`
      prefix swaps the 32-bit types only. */
  predicate SwapsWords(dataType: string, wordOrder: string) {
    || Text.EqualFold(wordOrder, "LOW_HIGH")
    || (ParseType(dataType) != Some(U64) && Text.HasPrefix(Text.UpperTrim(dataType), "SW_"))
  }

  function DecodeAs(registers: seq<Word>, t: DataType, swap: bool): Result<Value, DecodeError> {
    if |registers| == 0 then Err(NoRegisters)
    else if |registers| < Width(t) then Err(TooFewRegisters)
    else Ok(Interpret(t, Positional(InOrder(registers[..Width(t)], swap))))
  }

  /** The specification of Decode: words put most significant first, read as one positional
      number, then interpreted. */
  function Decoded(registers: seq<Word>, dataType: string, wordOrder: string): Result<Value, DecodeError> {
    match ParseType(dataType)
    case None => Err(if |registers| == 0 then NoRegisters else UnsupportedType)
    case Some(t) => DecodeAs(registers, t, SwapsWords(dataType, wordOrder))
  }

  lemma PositionalOne(words: seq<Word>)
    requires |words| == 1
    ensures Positional(words) == words[0]
  {
    assert Positional(words[..0]) == 0;
  }

  lemma PositionalTwo(words: seq<Word>)
    requires |words| == 2
    ensures Positional(words) == DoubleWord(words[0], words[1])
  {
    PositionalOne(words[..1]);
  }

  lemma PositionalPrefix(words: seq<Word>, i: nat)
    requires i < |words|
    ensures Positional(words[..i + 1]) == Positional(words[..i]) * 0x1_0000 + words[i]
  {
    assert words[..i + 1][..i] == words[..i];
  }

  lemma {:induction false} PositionalBound(words: seq<Word>)
    ensures Positional(words) < Capacity(|words|)
  {
    if words == [] {
    } else {
      PositionalBound(words[..|words| - 1]);
    }
  }

  lemma CapacityFour()
    ensures Capacity(1) == 0x1_0000 && Capacity(2) == 0x1_0000_0000
    ensures Capacity(4) == 0x1_0000_0000_0000_0000
  {
    assert Capacity(3) == Capacity(2) * 0x1_0000;
  }

  /** The same for a type that was normalised first. */
  function DecodedTag(registers: seq<Word>, tag: TypeTag, wordOrder: string): Result<Value, DecodeError> {
    match tag
    case Unknown(_) => Err(if |registers| == 0 then NoRegisters else UnsupportedType)
    case Canonical(t) => DecodeAs(registers, t, Text.EqualFold(wordOrder, "LOW_HIGH"))
  }

  lemma TagMeaning(registers: seq<Word>, dataType: string, wordOrder: string)
    ensures DecodedTag(registers, Tag(dataType), wordOrder) == Decoded(registers, NormalizeDataType(dataType), wordOrder)
  {
    match ParseType(dataType)
    case Some(t) => TypeNameRoundTrip(t);
    case None =>
  }

  method Decode(registers: seq<Word>, dataType: string, wordOrder: string) returns (r: Result<Value, DecodeError>)
    ensures r == Decoded(registers, dataType, wordOrder)
  {
    if |registers| == 0 {
      return Err(NoRegisters);
    }
    var lowHigh := Text.EqualFold(wordOrder, "LOW_HIGH");
    var swapWords := lowHigh || Text.HasPrefix(Text.UpperTrim(dataType), "SW_");
    match ParseType(dataType) {
      case None =>
        return Err(UnsupportedType);
      case Some(t) =>
        r := DecodeTyped(registers, t, if t == U64 then lowHigh else swapWords);
    }
  }

  method DecodeTagged(registers: seq<Word>, tag: TypeTag, wordOrder: string) returns (r: Result<Value, DecodeError>)
    ensures r == DecodedTag(registers, tag, wordOrder)
  {
    if |registers| == 0 {
      return Err(NoRegisters);
    }
    match tag {
      case Unknown(_) =>
        return Err(UnsupportedType);
      case Canonical(t) =>
        r := DecodeTyped(registers, t, Text.EqualFold(wordOrder, "LOW_HIGH"));
    }
  }

  method DecodeTyped(registers: seq<Word>, t: DataType, swap: bool) returns (r: Result<Value, DecodeError>)
    requires registers != []
    ensures r == DecodeAs(registers, t, swap)
  {
    if t == I16 || t == U16 {
      var w: int := registers[0];
      PositionalOne(InOrder(registers[..1], swap));
      return Ok(Number(if t == I16 && w >= 0x8000 then w - 0x1_0000 else w));
    } else if t == U64 {
      r := DecodeU64(registers, swap);
    } else {
      r := DecodeDouble(registers, t, swap);
    }
  }

  /** The 32-bit cases. */
  method DecodeDouble(registers: seq<Word>, t: DataType, swapWords: bool) returns (r: Result<Value, DecodeError>)
    requires registers != [] && t in {I32, U32, Float32}
    ensures r == DecodeAs(registers, t, swapWords)
  {
    if |registers| < 2 {
      return Err(TooFewRegisters);
    }
    var a, b := registers[0], registers[1];
    if swapWords {
      a, b := b, a;
    }
    var u := DoubleWord(a, b);
    PositionalTwo(InOrder(registers[..2], swapWords));
    if t == I32 {
      return Ok(if u == 0x8000_0000 then NotANumber else Number(if u > 0x8000_0000 then u - 0x1_0000_0000 else u));
    } else if t == U32 {
      return Ok(if u == 0xFFFF_FFFF then NotANumber else Number(u));
    }
    return Ok(Single(u));
  }

  /** The 64-bit case: copy four words, reverse them in place when the low word comes first,
      then shift them into a 64-bit accumulator. */
  method DecodeU64(registers: seq<Word>, lowHigh: bool) returns (r: Result<Value, DecodeError>)
    requires registers != []
    ensures r == DecodeAs(registers, U64, lowHigh)
  {
    if |registers| < 4 {
      return Err(TooFewRegisters);
    }
    var words := new Word[4](i requires 0 <= i < 4 => registers[i]);
    assert words[..] == registers[..4];
    if lowHigh {
      ReverseInPlace(words);
    }
    var u := Accumulate(words);
    return Ok(if u == 0xFFFF_FFFF_FFFF_FFFF then NotANumber else Number(u));
  }

  method ReverseInPlace(words: array<Word>)
    modifies words
    ensures words[..] == Reverse(old(words[..]))
  {
    var i, j := 0, words.Length - 1;
    while i < j
      invariant 0 <= i <= words.Length && i + j == words.Length - 1
      invariant forall k | 0 <= k < i :: words[k] == old(words[words.Length - 1 - k])
      invariant forall k | j < k < words.Length :: words[k] == old(words[words.Length - 1 - k])
      invariant forall k | i <= k <= j :: words[k] == old(words[k])
    {
      words[i], words[j] := words[j], words[i];
      i, j := i + 1, j - 1;
    }
  }

  method Accumulate(words: array<Word>) returns (u: nat)
    requires words.Length == 4
    ensures u == Positional(words[..])
  {
    u := 0;
    for i := 0 to 4
      invariant u == Positional(words[..][..i])
    {
      PositionalPrefix(words[..], i);
      PositionalBound(words[..][..i + 1]);
      CapacityGrows(i + 1, 4);
      CapacityFour();
      u := (u * 0x1_0000 + words[i]) % 0x1_0000_0000_0000_0000;
    }
    assert words[..][..4] == words[..];
  }

  lemma {:induction false} CapacityGrows(i: nat, k: nat)
    requires i <= k
    ensures 0 < Capacity(i) <= Capacity(k)
    decreases k
  {
    if i < k {
      CapacityGrows(i, k - 1);
    } else if k > 0 {
      CapacityGrows(k - 1, k - 1);
    }
  }

  // ----- bytes -----

  predicate LittleEndian(byteOrder: string) {
    Text.EqualFold(byteOrder, "LITTLE_ENDIAN")
  }

  function WordAt(data: seq<Byte>, i: nat, little: bool): Word
    requires 2 * i + 1 < |data|
  {
    if little then WordOf(data[2 * i + 1], data[2 * i]) else WordOf(data[2 * i], data[2 * i + 1])
  }

  function Registers(data: seq<Byte>, byteOrder: string): Result<seq<Word>, DecodeError> {
    if |data| % 2 != 0 then Err(OddByteCount)
    else Ok(seq(|data| / 2, i requires 0 <= i < |data| / 2 => WordAt(data, i, LittleEndian(byteOrder))))
  }

  method BytesToRegisters(data: seq<Byte>, byteOrder: string) returns (r: Result<seq<Word>, DecodeError>)
    ensures r == Registers(data, byteOrder)
    ensures |data| % 2 != 0 ==> r == Err(OddByteCount)
    ensures |data| % 2 == 0 ==> r.Ok? && AreWords(data, r.value, NamesLowByteFirst(byteOrder))
  {
    WordsOfBytes(data, byteOrder);
    if |data| % 2 != 0 {
      return Err(OddByteCount);
    }
    var result := new Word[|data| / 2](_ => 0);
    for i := 0 to result.Length
      invariant forall k | 0 <= k < i :: result[k] == WordAt(data, k, LittleEndian(byteOrder))
    {
      var pair := data[i * 2..i * 2 + 2];
      if LittleEndian(byteOrder) {
        result[i] := WordOf(pair[1], pair[0]);
      } else {
        result[i] := WordOf(pair[0], pair[1]);
      }
    }
    assert result[..] == Registers(data, byteOrder).value;
    return Ok(result[..]);
  }

  /** Each word is sent as two bytes, the low byte first or the high byte first. */
  predicate AreWords(data: seq<Byte>, words: seq<Word>, lowByteFirst: bool) {
    && |data| == 2 * |words|
    && forall i | 0 <= i < |words| ::
         var first: int, second: int := data[2 * i], data[2 * i + 1];
         words[i] == if lowByteFirst then second * 256 + first else first * 256 + second
  }

  /** Orders go by their names in any case; any other name means the high part first. */
  predicate NamesLowByteFirst(byteOrder: string) {
    Text.ToUpper(byteOrder) == "LITTLE_ENDIAN"
  }

  predicate NamesLowWordFirst(wordOrder: string) {
    Text.ToUpper(wordOrder) == "LOW_HIGH"
  }

  /** The words of a response: an even number of bytes, paired in the byte order, which is big-endian
      unless it says LITTLE_ENDIAN in some case. */
  lemma WordsOfBytes(data: seq<Byte>, byteOrder: string)
    ensures |data| % 2 != 0 ==> Registers(data, byteOrder) == Err(OddByteCount)
    ensures |data| % 2 == 0 ==>
              && Registers(data, byteOrder).Ok?
              && AreWords(data, Registers(data, byteOrder).value, NamesLowByteFirst(byteOrder))
  {
    assert Text.ToUpper("LITTLE_ENDIAN") == "LITTLE_ENDIAN";
  }

  /** The two byte orders by name. */
  lemma WordsByName(data: seq<Byte>)
    requires |data| % 2 == 0
    ensures Registers(data, "BIG_ENDIAN").Ok? && AreWords(data, Registers(data, "BIG_ENDIAN").value, false)
    ensures Registers(data, "LITTLE_ENDIAN").Ok? && AreWords(data, Registers(data, "LITTLE_ENDIAN").value, true)
  {
    OrdersByName();
    WordsOfBytes(data, "BIG_ENDIAN");
    WordsOfBytes(data, "LITTLE_ENDIAN");
  }

  lemma OrdersByName()
    ensures NamesLowByteFirst("LITTLE_ENDIAN") && !NamesLowByteFirst("BIG_ENDIAN")
    ensures NamesLowWordFirst("LOW_HIGH") && !NamesLowWordFirst("HIGH_LOW") && !NamesLowWordFirst("")
    ensures forall wordOrder :: Text.EqualFold(wordOrder, "LOW_HIGH") == NamesLowWordFirst(wordOrder)
  {
    assert Text.ToUpper("LITTLE_ENDIAN") == "LITTLE_ENDIAN" && Text.ToUpper("LOW_HIGH") == "LOW_HIGH";
    assert Text.ToUpper("BIG_ENDIAN")[0] == 'B' && Text.ToUpper("HIGH_LOW")[0] == 'H';
  }

  /** Bytes are the words of one list only. */
  lemma WordsAreUnique(data: seq<Byte>, a: seq<Word>, b: seq<Word>, lowByteFirst: bool)
    requires AreWords(data, a, lowByteFirst) && AreWords(data, b, lowByteFirst)
    ensures a == b
  {
  }

  // ----- encoding, the inverse a Modbus device performs -----

  function BytesOf(words: seq<Word>, lowByteFirst: bool): (data: seq<Byte>)
    ensures AreWords(data, words, lowByteFirst)
  {
    seq(2 * |words|, i requires 0 <= i < 2 * |words| =>
      if (i % 2 == 0) == lowByteFirst then words[i / 2] % 256 else words[i / 2] / 256)
  }

  /** The integers a type can hold. */
  predicate Fits(t: DataType, n: int) {
    match t
    case U16 => 0 <= n < 0x1_0000
    case I16 => -0x8000 <= n < 0x8000
    case U32 | Float32 => 0 <= n < 0x1_0000_0000
    case I32 => -0x8000_0000 <= n < 0x8000_0000
    case U64 => 0 <= n < 0x1_0000_0000_0000_0000
  }

  /** The values that cannot be transmitted: their pattern is reserved. */
  predicate Sentinel(t: DataType, n: int) {
    || (t == I32 && n == -0x8000_0000)
    || (t == U32 && n == 0xFFFF_FFFF)
    || (t == U64 && n == 0xFFFF_FFFF_FFFF_FFFF)
  }

  function Pattern(t: DataType, n: int): nat
    requires Fits(t, n)
  {
    if n >= 0 then n else if t == I16 then n + 0x1_0000 else n + 0x1_0000_0000
  }

  /** What a device sends for a number. */
  function Encode(t: DataType, n: int, lowByteFirst: bool, lowWordFirst: bool): seq<Byte>
    requires Fits(t, n)
  {
    BytesOf(InOrder(WordsOf(Pattern(t, n), Width(t)), lowWordFirst), lowByteFirst)
  }

  lemma ShiftedFits(u: nat, k: nat)
    requires k > 0 && u < Capacity(k)
    ensures u / 0x1_0000 < Capacity(k - 1)
  {
  }

  lemma {:induction false} PositionalOfWords(u: nat, k: nat)
    requires u < Capacity(k)
    ensures Positional(WordsOf(u, k)) == u
  {
    if k == 0 {
    } else {
      var words := WordsOf(u, k);
      ShiftedFits(u, k);
      PositionalOfWords(u / 0x1_0000, k - 1);
      assert words[..k - 1] == WordsOf(u / 0x1_0000, k - 1);
    }
  }

  lemma InOrderTwice(words: seq<Word>, swap: bool)
    ensures InOrder(InOrder(words, swap), swap) == words
  {
  }

  lemma InterpretPattern(t: DataType, n: int)
    requires Fits(t, n) && t != Float32
    ensures Interpret(t, Pattern(t, n)) == if Sentinel(t, n) then NotANumber else Number(n)
  {
  }

  lemma BytesRoundTrip(words: seq<Word>, byteOrder: string)
    ensures Registers(BytesOf(words, NamesLowByteFirst(byteOrder)), byteOrder) == Ok(words)
  {
    var lowByteFirst := NamesLowByteFirst(byteOrder);
    var data := BytesOf(words, lowByteFirst);
    WordsOfBytes(data, byteOrder);
    WordsAreUnique(data, Registers(data, byteOrder).value, words, lowByteFirst);
  }

  lemma DecodedByName(words: seq<Word>, t: DataType, wordOrder: string)
    ensures Decoded(words, TypeName(t), wordOrder) == DecodeAs(words, t, NamesLowWordFirst(wordOrder))
  {
    TypeNameRoundTrip(t);
    OrdersByName();
  }

  /** The value that a number of a type comes back as. */
  function ValueFor(t: DataType, n: int): Value
    requires Fits(t, n)
  {
    if t == Float32 then Single(n) else if Sentinel(t, n) then NotANumber else Number(n)
  }

  /** The value that a type makes of the words it was sent as. */
  lemma DecodeSent(t: DataType, n: int, swap: bool)
    requires Fits(t, n)
    ensures DecodeAs(InOrder(WordsOf(Pattern(t, n), Width(t)), swap), t, swap) == Ok(ValueFor(t, n))
  {
    var plain := WordsOf(Pattern(t, n), Width(t));
    var sent := InOrder(plain, swap);
    assert sent[..Width(t)] == sent;
    InOrderTwice(plain, swap);
    CapacityFour();
    PositionalOfWords(Pattern(t, n), Width(t));
    if t != Float32 {
      InterpretPattern(t, n);
    }
  }

  /** What a device that keeps to the named orders sends for a number. */
  function SentUnder(t: DataType, n: int, byteOrder: string, wordOrder: string): seq<Byte>
    requires Fits(t, n)
  {
    Encode(t, n, NamesLowByteFirst(byteOrder), NamesLowWordFirst(wordOrder))
  }

  /** What a response decodes to. */
  function Received(data: seq<Byte>, t: DataType, byteOrder: string, wordOrder: string): Result<Value, DecodeError> {
    match Registers(data, byteOrder)
    case Err(e) => Err(e)
    case Ok(words) => Decoded(words, TypeName(t), wordOrder)
  }

  /** Decoding inverts encoding, in every byte order and word order: an integer comes back as
      itself unless its pattern is one of the three sentinels, and a single comes back bit for
      bit. */
  lemma DecodeInvertsEncode(t: DataType, n: int, byteOrder: string, wordOrder: string)
    requires Fits(t, n)
    ensures Received(SentUnder(t, n, byteOrder, wordOrder), t, byteOrder, wordOrder) == Ok(ValueFor(t, n))
  {
    var swap := NamesLowWordFirst(wordOrder);
    var sent := InOrder(WordsOf(Pattern(t, n), Width(t)), swap);
    BytesRoundTrip(sent, byteOrder);
    DecodedByName(sent, t, wordOrder);
    DecodeSent(t, n, swap);
  }

  // ----- aliases -----

  /** Whether replacing a type name by its canonical name, as PollConnection does, keeps the
      decoded value for all register contents. */
  ghost predicate AliasKeepsMeaning(dataType: string, wordOrder: string) {
    forall registers: seq<Word> ::
      Decoded(registers, dataType, wordOrder) == Decoded(registers, NormalizeDataType(dataType), wordOrder)
  }

  lemma NormalizeTwice(dataType: string)
    ensures ParseType(NormalizeDataType(dataType)) == ParseType(dataType)
    ensures NormalizeDataType(NormalizeDataType(dataType)) == NormalizeDataType(dataType)
  {
    match ParseType(dataType)
    case Some(t) => TypeNameRoundTrip(t);
    case None =>
  }

  lemma BeforeAndAfter(registers: seq<Word>, dataType: string, t: DataType, wordOrder: string)
    requires ParseType(dataType) == Some(t)
    ensures Decoded(registers, dataType, wordOrder) == DecodeAs(registers, t, SwapsWords(dataType, wordOrder))
    ensures Decoded(registers, NormalizeDataType(dataType), wordOrder) ==
            DecodeAs(registers, t, Text.EqualFold(wordOrder, "LOW_HIGH"))
  {
    TagMeaning(registers, dataType, wordOrder);
  }

  /** The two word orders of a type decode alike for all register contents exactly when the type
      fits in one word. */
  lemma OrderMattersIff(t: DataType, before: bool, after: bool)
    requires t == U64 ==> before == after
    ensures (forall registers: seq<Word> :: DecodeAs(registers, t, before) == DecodeAs(registers, t, after)) <==>
            (before == after || Width(t) == 1)
  {
    if before != after {
      if Width(t) == 1 {
        forall registers: seq<Word>
          ensures DecodeAs(registers, t, before) == DecodeAs(registers, t, after)
        {
          OneWordHasNoOrder(registers, t);
        }
      } else {
        OrderMatters(t);
      }
    }
  }

  /** The word-swapping alias loses its swap exactly when it named a 32-bit type and the word
      order does not ask for the swap again. */
  lemma AliasMeaning(dataType: string, wordOrder: string)
    ensures AliasKeepsMeaning(dataType, wordOrder) <==>
            !(&& Text.HasPrefix(Text.UpperTrim(dataType), "SW_")
              && ParseType(dataType) in {Some(U32), Some(I32), Some(Float32)}
              && !Text.EqualFold(wordOrder, "LOW_HIGH"))
  {
    match ParseType(dataType) {
      case None =>
        NormalizeTwice(dataType);
      case Some(t) =>
        OrderMattersIff(t, SwapsWords(dataType, wordOrder), Text.EqualFold(wordOrder, "LOW_HIGH"));
        forall registers: seq<Word> {
          BeforeAndAfter(registers, dataType, t, wordOrder);
        }
    }
  }

  lemma OneWordHasNoOrder(registers: seq<Word>, t: DataType)
    requires Width(t) == 1
    ensures DecodeAs(registers, t, true) == DecodeAs(registers, t, false)
  {
    if registers != [] {
      assert Reverse(registers[..1]) == registers[..1];
    }
  }

  lemma LowWordOne(t: DataType, swap: bool)
    requires Width(t) == 2
    ensures DecodeAs([1, 0], t, swap) == Ok(Interpret(t, if swap then 1 else 0x1_0000))
  {
    var low: seq<Word> := [1, 0];
    PositionalTwo(low);
    PositionalTwo([0, 1]);
    assert low[..2] == low && Reverse(low) == [0, 1];
  }

  lemma OrderMatters(t: DataType)
    requires Width(t) == 2
    ensures DecodeAs([1, 0], t, true) != DecodeAs([1, 0], t, false)
  {
    LowWordOne(t, true);
    LowWordOne(t, false);
  }

  // ----- the patterns of each type -----

  /** The words that stand for an integer, most significant first, in two's complement; a single is
      given by its bits. */
  function WordsFor(t: DataType, n: int): (words: seq<Word>)
    ensures |words| == Width(t)
  {
    match t
    case U16 | I16 => [n % 0x1_0000]
    case U32 | I32 | Float32 => [n / 0x1_0000 % 0x1_0000, n % 0x1_0000]
    case U64 => [n / 0x1_0000_0000_0000 % 0x1_0000, n / 0x1_0000_0000 % 0x1_0000, n / 0x1_0000 % 0x1_0000, n % 0x1_0000]
  }

  lemma WordsOfTwo(u: nat)
    ensures WordsOf(u, 1) == [u % 0x1_0000]
    ensures WordsOf(u, 2) == [u / 0x1_0000 % 0x1_0000, u % 0x1_0000]
  {
    assert forall v: nat :: WordsOf(v, 0) == [] && WordsOf(v, 1) == [] + [v % 0x1_0000];
  }

  lemma DividedTwice(u: nat)
    ensures u / 0x1_0000 / 0x1_0000 == u / 0x1_0000_0000
  {
  }

  lemma DividedAgain(u: nat)
    ensures u / 0x1_0000_0000 / 0x1_0000 == u / 0x1_0000_0000_0000
  {
  }

  lemma WordsOfFour(u: nat)
    ensures WordsOf(u, 4) ==
            [u / 0x1_0000_0000_0000 % 0x1_0000, u / 0x1_0000_0000 % 0x1_0000, u / 0x1_0000 % 0x1_0000, u % 0x1_0000]
  {
    DividedTwice(u);
    DividedAgain(u);
    LastTwoWords(u, u / 0x1_0000_0000);
  }

  lemma LastTwoWords(u: nat, v: nat)
    requires u / 0x1_0000 / 0x1_0000 == v
    ensures WordsOf(u, 4) == [v / 0x1_0000 % 0x1_0000, v % 0x1_0000, u / 0x1_0000 % 0x1_0000, u % 0x1_0000]
  {
    WordsOfTwo(v);
    assert WordsOf(u / 0x1_0000, 3) == WordsOf(v, 2) + [u / 0x1_0000 % 0x1_0000];
    assert WordsOf(u, 4) == WordsOf(u / 0x1_0000, 3) + [u % 0x1_0000];
  }

  lemma PatternIsWordsFor(t: DataType, n: int)
    requires Fits(t, n)
    ensures WordsOf(Pattern(t, n), Width(t)) == WordsFor(t, n)
  {
    WordsOfTwo(Pattern(t, n));
    WordsOfFour(Pattern(t, n));
  }

  lemma TwoDigits(a: Word, b: Word)
    ensures
      var u := DoubleWord(a, b);
      && 0 <= u < 0x1_0000_0000 && u / 0x1_0000 == a && u % 0x1_0000 == b
      && (u - 0x1_0000_0000) / 0x1_0000 % 0x1_0000 == a && (u - 0x1_0000_0000) % 0x1_0000 == b
  {
  }

  lemma TopDigits(hi: nat, lo: nat)
    requires lo < 0x1_0000_0000
    ensures (hi * 0x1_0000_0000 + lo) / 0x1_0000_0000 == hi
    ensures (hi * 0x1_0000_0000 + lo) / 0x1_0000_0000_0000 == hi / 0x1_0000
  {
  }

  lemma LowDigits(hi: nat, lo: nat)
    requires lo < 0x1_0000_0000
    ensures (hi * 0x1_0000_0000 + lo) / 0x1_0000 % 0x1_0000 == lo / 0x1_0000
    ensures (hi * 0x1_0000_0000 + lo) % 0x1_0000 == lo % 0x1_0000
  {
    assert (hi * 0x1_0000_0000 + lo) / 0x1_0000 == hi * 0x1_0000 + lo / 0x1_0000;
  }

  lemma FourDigits(a: Word, b: Word, c: Word, d: Word)
    ensures
      var u := DoubleWord(a, b) * 0x1_0000_0000 + DoubleWord(c, d);
      && 0 <= u < 0x1_0000_0000_0000_0000
      && u / 0x1_0000_0000_0000 == a && u / 0x1_0000_0000 % 0x1_0000 == b && u / 0x1_0000 % 0x1_0000 == c && u % 0x1_0000 == d
  {
    TwoDigits(a, b);
    TwoDigits(c, d);
    TopDigits(DoubleWord(a, b), DoubleWord(c, d));
    LowDigits(DoubleWord(a, b), DoubleWord(c, d));
  }

  /** Every pattern of words stands for some number of the type. */
  lemma EveryPatternIsANumber(t: DataType, words: seq<Word>) returns (n: int)
    requires |words| == Width(t)
    ensures Fits(t, n) && WordsFor(t, n) == words
  {
    if Width(t) == 1 {
      n := OneWordNumber(t, words[0]);
      assert words == [words[0]];
    } else if Width(t) == 2 {
      n := TwoWordNumber(t, words[0], words[1]);
      assert words == [words[0], words[1]];
    } else {
      n := FourWordNumber(words[0], words[1], words[2], words[3]);
      assert words == [words[0], words[1], words[2], words[3]];
    }
  }

  lemma OneWordNumber(t: DataType, a: Word) returns (n: int)
    requires Width(t) == 1
    ensures Fits(t, n) && WordsFor(t, n) == [a]
  {
    n := if t == I16 then Signed(a, 0x8000) else a;
  }

  lemma TwoWordNumber(t: DataType, a: Word, b: Word) returns (n: int)
    requires Width(t) == 2
    ensures Fits(t, n) && WordsFor(t, n) == [a, b]
  {
    TwoDigits(a, b);
    n := if t == I32 then Signed(DoubleWord(a, b), 0x8000_0000) else DoubleWord(a, b);
  }

  lemma FourWordNumber(a: Word, b: Word, c: Word, d: Word) returns (n: int)
    ensures Fits(U64, n) && WordsFor(U64, n) == [a, b, c, d]
  {
    FourDigits(a, b, c, d);
    n := DoubleWord(a, b) * 0x1_0000_0000 + DoubleWord(c, d);
  }

  /** A single is no number exactly when its bits lie in one of two ranges, just above those of the two
      infinities. */
  lemma NotNumbers(bits: nat)
    requires bits < 0x1_0000_0000
    ensures IsNaN(Single(bits)) <==> 0x7F80_0000 < bits < 0x8000_0000 || 0xFF80_0000 < bits
  {
  }

  /** The names a type goes by. */
  function TypeNames(t: DataType): set<string> {
    match t
    case U16 => {"U16", "USHORT", "UINT16"}
    case I16 => {"I16", "SHORT", "INT16"}
    case U32 => {"U32", "ULONG", "DWORD", "UINT32", "SW_UINT", "SMA_UINT32"}
    case I32 => {"I32", "LONG", "SLONG", "INT32", "S32", "SW_INT", "SMA_INT32"}
    case U64 => {"U64", "UINT64", "SMA_UINT64"}
    case Float32 => {"FLOAT32", "FLOAT", "SW_FLOAT"}
  }

  lemma LookedUpByName(name: string, t: DataType)
    ensures LookUpType(name) == Some(t) ==> name in TypeNames(t)
  {
  }

  lemma NamedIsLookedUp(name: string, t: DataType)
    requires name in TypeNames(t)
    ensures LookUpType(name) == Some(t)
  {
    match t
    case U16 => assert name[0] == 'U';
    case I16 =>
    case U32 => assert name[0] == 'U' || name[0] == 'D' || name[|name| - 1] != '4';
    case I32 => assert name[0] == 'I' || name[0] == 'L' || name[0] == 'S';
    case U64 => assert name[|name| - 1] == '4';
    case Float32 => assert name[|name| - 1] == 'T' || name[0] == 'F';
  }

  /** Decoding fails on no words at all, on an unknown type, and on fewer words than the type has, in
      this order of precedence, and never otherwise. */
  lemma DecodeFailsIff(registers: seq<Word>, dataType: string, wordOrder: string)
    ensures
      var r, name := Decoded(registers, dataType, wordOrder), Text.UpperTrim(dataType);
      && (r == Err(NoRegisters) <==> registers == [])
      && (r == Err(UnsupportedType) <==> registers != [] && forall t :: name !in TypeNames(t))
      && (r == Err(TooFewRegisters) <==> registers != [] && exists t :: name in TypeNames(t) && |registers| < Width(t))
      && r != Err(OddByteCount)
  {
    var name := Text.UpperTrim(dataType);
    forall t | name in TypeNames(t)
      ensures LookUpType(name) == Some(t)
    {
      NamedIsLookedUp(name, t);
    }
    if LookUpType(name).Some? {
      LookedUpByName(name, LookUpType(name).value);
    }
  }
}
