/** When the values of a poll, keyed by register address alone, are exactly the registers' own: the
    condition on the configuration that decides it. */
module SharedAddresses {
  import opened Results
  import opened Domain
  import opened Addressing
  import opened Decoding
  import opened Planning
  import opened Polling
  import opened Refinement
  import opened Sequences
  import opened AcceptedSets
  import Normalizing
  import Text

  /** A register that can come to a value: of a known type, and long enough for it. */
  predicate Decodable(e: Entry) {
    e.definition.dataType.Canonical? && Width(e.definition.dataType.t) <= e.definition.length
  }

  function TypeOf(e: Entry): DataType
    requires Decodable(e)
  {
    e.definition.dataType.t
  }

  predicate LowFirst(o: Orders, e: Entry) {
    Text.EqualFold(WordOrder(o, e.definition), "LOW_HIGH")
  }

  /** The same function code and type, and, for more than one word, the same word order. */
  predicate ReadAlike(o: Orders, a: Entry, b: Entry)
    requires Decodable(a) && Decodable(b)
  {
    && a.FunctionCode() == b.FunctionCode() && TypeOf(a) == TypeOf(b)
    && (Width(TypeOf(a)) == 1 || LowFirst(o, a) == LowFirst(o, b))
  }

  predicate MayShare(o: Orders, a: Entry, b: Entry) {
    Decodable(a) && Decodable(b) && a.definition.registerAddress == b.definition.registerAddress ==> ReadAlike(o, a, b)
  }

  /** Registers that share an address and come to a value are read alike. */
  ghost predicate Compatible(o: Orders, entries: seq<Entry>) {
    forall i, j | 0 <= i < |entries| && 0 <= j < |entries| :: MayShare(o, entries[i], entries[j])
  }

  // ----- what a register's words come to -----

  function Kept(v: Value): Outcome {
    if IsNaN(v) then Err(SentinelSkipped) else Ok(v)
  }

  function ValueOf(memory: Memory, e: Entry, swap: bool): Value
    requires Decodable(e)
  {
    var t := TypeOf(e);
    Interpret(t, Positional(InOrder(WordsAt(memory, e.FunctionCode(), e.offset, Width(t)), swap)))
  }

  lemma DecodedWords(o: Orders, e: Entry, words: seq<Word>, first: seq<Word>)
    requires Decodable(e) && |words| == e.definition.length && words[..Width(TypeOf(e))] == first
    ensures DecodeWords(o, e.definition, words) == Kept(Interpret(TypeOf(e), Positional(InOrder(first, LowFirst(o, e)))))
  {
  }

  lemma UndecodedWords(o: Orders, e: Entry, words: seq<Word>)
    requires !Decodable(e) && |words| == e.definition.length
    ensures DecodeWords(o, e.definition, words).Err?
  {
  }

  lemma OwnValueIs(memory: Memory, o: Orders, e: Entry)
    requires e.definition.length >= 1
    ensures Decodable(e) ==> OwnValue(memory, o)(e) == Kept(ValueOf(memory, e, LowFirst(o, e)))
    ensures !Decodable(e) ==> OwnValue(memory, o)(e).Err?
  {
    var words := WordsAt(memory, e.FunctionCode(), e.offset, e.definition.length);
    if Decodable(e) {
      var first := WordsAt(memory, e.FunctionCode(), e.offset, Width(TypeOf(e)));
      SliceOfWords(memory, e.FunctionCode(), e.offset, e.definition.length, 0, Width(TypeOf(e)));
      DecodedWords(o, e, words, first);
    } else {
      UndecodedWords(o, e, words);
    }
  }

  lemma OneWordInOrder(words: seq<Word>, swap: bool)
    requires |words| == 1
    ensures InOrder(words, swap) == words
  {
  }

  lemma ReadAlikeIsTheSame(memory: Memory, o: Orders, a: Entry, b: Entry)
    requires Decodable(a) && Decodable(b) && ReadAlike(o, a, b) && a.offset == b.offset
    ensures ValueOf(memory, a, LowFirst(o, a)) == ValueOf(memory, b, LowFirst(o, b))
  {
    var words := WordsAt(memory, a.FunctionCode(), a.offset, Width(TypeOf(a)));
    if Width(TypeOf(a)) == 1 {
      OneWordInOrder(words, LowFirst(o, a));
      OneWordInOrder(words, LowFirst(o, b));
    }
  }

  // ----- registers of a profile -----

  /** The mode gives registers with one address one offset. */
  lemma {:induction false} OffsetsFollowAddresses(mode: Result<AddressMode, AddressError>, defaultFc: int, registers: seq<RegisterDefinition>, n: nat)
    requires n <= |registers| && CollectTo(mode, defaultFc, registers, n).Ok?
    ensures forall e | e in CollectTo(mode, defaultFc, registers, n).value ::
              mode.Ok? && e.offset == WireStart(mode.value, e.definition.registerAddress)
  {
    if n == 0 {
    } else {
      OffsetsFollowAddresses(mode, defaultFc, registers, n - 1);
    }
  }

  lemma SameAddressSameOffset(p: RegisterProfile, a: Entry, b: Entry)
    requires Entries(p).Ok? && a in Entries(p).value && b in Entries(p).value
    requires a.definition.registerAddress == b.definition.registerAddress
    ensures a.offset == b.offset
  {
    OffsetsFollowAddresses(ParseMode(p.addressMode), p.defaultFunctionCode, p.registers, |p.registers|);
  }

  // ----- compatible registers agree -----

  lemma SampleIsOwn(memory: Memory, o: Orders, entries: seq<Entry>, x: Sample) returns (e: Entry)
    requires x in Samples(memory, o, entries)
    ensures e in entries && OwnValue(memory, o)(e) == Ok(x.rawValue) && e.definition.registerAddress == x.registerAddress
  {
    var i := FlatMember(SampleOf(OwnValue(memory, o)), entries, x);
    e := entries[i];
  }

  lemma CompatibleAgree(memory: Memory, p: RegisterProfile)
    requires Entries(p).Ok? && Compatible(OrdersOf(p), Entries(p).value)
    ensures Agreeing(Samples(memory, OrdersOf(p), Entries(p).value))
  {
    var o, entries := OrdersOf(p), Entries(p).value;
    var samples := Samples(memory, o, entries);
    forall x, y | x in samples && y in samples && x.registerAddress == y.registerAddress
      ensures x.rawValue == y.rawValue
    {
      var a := SampleIsOwn(memory, o, entries, x);
      var b := SampleIsOwn(memory, o, entries, y);
      OwnValueIs(memory, o, a);
      OwnValueIs(memory, o, b);
      SameAddressSameOffset(p, a, b);
      assert MayShare(o, a, b) by {
        var i, j :| 0 <= i < |entries| && 0 <= j < |entries| && entries[i] == a && entries[j] == b;
      }
      ReadAlikeIsTheSame(memory, o, a, b);
    }
  }

  // ----- incompatible registers can be told apart -----

  /** One word everywhere under a function code. */
  function ByFunction(three: Word, four: Word): Memory {
    (functionCode: int, address: int) => if functionCode == 3 then three else four
  }

  /** A single 1, at one address. */
  function OneAt(offset: int): Memory {
    (functionCode: int, address: int) => if address == offset then 1 else 0
  }

  lemma PositionalFour(words: seq<Word>)
    requires |words| == 4
    ensures Positional(words) == DoubleWord(words[0], words[1]) * 0x1_0000_0000 + DoubleWord(words[2], words[3])
  {
    PositionalTwo(words[..2]);
    PositionalPrefix(words, 2);
    PositionalPrefix(words, 3);
    assert words[..4] == words && words[..2][0] == words[0] && words[..2][1] == words[1];
  }

  /** What a type reads from words that all are w. */
  function Repeated(t: DataType, w: Word): nat {
    match Width(t)
    case 1 => w
    case 2 => DoubleWord(w, w)
    case _ => DoubleWord(w, w) * 0x1_0000_0000 + DoubleWord(w, w)
  }

  lemma RepeatedValue(memory: Memory, e: Entry, swap: bool, w: Word)
    requires Decodable(e) && e.FunctionCode() in {3, 4}
    requires forall a :: memory(e.FunctionCode(), a) == w
    ensures ValueOf(memory, e, swap) == Interpret(TypeOf(e), Repeated(TypeOf(e), w))
  {
    var words := WordsAt(memory, e.FunctionCode(), e.offset, Width(TypeOf(e)));
    assert InOrder(words, swap) == words;
    match Width(TypeOf(e))
    case 1 => PositionalOne(words);
    case 2 => PositionalTwo(words);
    case _ => PositionalFour(words);
  }

  /** 0x8001 in every word reads differently in each type, and is no sentinel. */
  lemma TypesDiffer(t: DataType, u: DataType)
    ensures !IsNaN(Interpret(t, Repeated(t, 0x8001))) && !IsNaN(Interpret(t, Repeated(t, 0)))
    ensures t != u ==> Interpret(t, Repeated(t, 0x8001)) != Interpret(u, Repeated(u, 0x8001))
    ensures Interpret(t, Repeated(t, 0)) != Interpret(u, Repeated(u, 0x8001))
  {
  }

  lemma OrderShows(offset: int, e: Entry)
    requires Decodable(e) && e.offset == offset && Width(TypeOf(e)) > 1
    ensures ValueOf(OneAt(offset), e, true) != ValueOf(OneAt(offset), e, false)
    ensures !IsNaN(ValueOf(OneAt(offset), e, true)) && !IsNaN(ValueOf(OneAt(offset), e, false))
  {
    var words := WordsAt(OneAt(offset), e.FunctionCode(), offset, Width(TypeOf(e)));
    if Width(TypeOf(e)) == 2 {
      PositionalTwo(words);
      PositionalTwo(Reverse(words));
    } else {
      PositionalFour(words);
      PositionalFour(Reverse(words));
    }
  }

  /** A memory under which two registers that may not share an address come to different values. */
  lemma Telling(o: Orders, a: Entry, b: Entry) returns (memory: Memory)
    requires a.Legal() && b.Legal() && Decodable(a) && Decodable(b) && !ReadAlike(o, a, b) && a.offset == b.offset
    ensures OwnValue(memory, o)(a).Ok? && OwnValue(memory, o)(b).Ok?
    ensures OwnValue(memory, o)(a) != OwnValue(memory, o)(b)
  {
    if a.FunctionCode() != b.FunctionCode() || TypeOf(a) != TypeOf(b) {
      var three: Word := if a.FunctionCode() != b.FunctionCode() then 0 else 0x8001;
      memory := ByFunction(three, 0x8001);
      RepeatedValue(memory, a, LowFirst(o, a), if a.FunctionCode() == 3 then three else 0x8001);
      RepeatedValue(memory, b, LowFirst(o, b), if b.FunctionCode() == 3 then three else 0x8001);
      TypesDiffer(TypeOf(a), TypeOf(b));
      TypesDiffer(TypeOf(b), TypeOf(a));
    } else {
      memory := OneAt(a.offset);
      OrderShows(a.offset, a);
      OrderShows(a.offset, b);
      assert ValueOf(memory, a, LowFirst(o, b)) == ValueOf(memory, b, LowFirst(o, b));
    }
    OwnValueIs(memory, o, a);
    OwnValueIs(memory, o, b);
  }

  lemma IncompatibleDisagree(p: RegisterProfile) returns (memory: Memory)
    requires Entries(p).Ok? && !Compatible(OrdersOf(p), Entries(p).value)
    ensures !Agreeing(Samples(memory, OrdersOf(p), Entries(p).value))
  {
    var o, entries := OrdersOf(p), Entries(p).value;
    var i, j :| 0 <= i < |entries| && 0 <= j < |entries| && !MayShare(o, entries[i], entries[j]);
    var a, b := entries[i], entries[j];
    assert a in entries && b in entries;
    SameAddressSameOffset(p, a, b);
    memory := Telling(o, a, b);
    var own := OwnValue(memory, o);
    var x := Sample(a.FunctionCode(), a.definition.registerAddress, a.definition.dataType, own(a).value);
    var y := Sample(b.FunctionCode(), b.definition.registerAddress, b.definition.dataType, own(b).value);
    FlatHas(SampleOf(own), entries, i, x);
    FlatHas(SampleOf(own), entries, j, y);
    assert x.registerAddress == y.registerAddress && x.rawValue != y.rawValue;
  }

  // ----- a device that answers from its memory -----

  /** A device that answers every request, with its memory. */
  function FullyAnswering(memory: Memory, o: Orders): Link {
    (functionCode: int, start: int, quantity: int) =>
      Bytes(BytesOf(WordsAt(memory, functionCode, start, quantity), NamesLowByteFirst(o.byteOrder)))
  }

  lemma FullyAnsweringIsFaithful(memory: Memory, o: Orders)
    ensures Faithful(FullyAnswering(memory, o), o, memory)
    ensures forall e: Entry :: Answers(FullyAnswering(memory, o), e)
  {
    forall fc, start, quantity | LegalRequest(fc, start, quantity)
      ensures ReadRegisters(FullyAnswering(memory, o), o, fc, start, quantity) == Ok(WordsAt(memory, fc, start, quantity))
    {
      BytesRoundTrip(WordsAt(memory, fc, start, quantity), o.byteOrder);
    }
  }

  // ----- the exact condition -----

  lemma DistinctIsCompatible(o: Orders, entries: seq<Entry>)
    requires DistinctAddresses(entries)
    ensures Compatible(o, entries)
  {
    forall i, j | 0 <= i < |entries| && 0 <= j < |entries|
      ensures MayShare(o, entries[i], entries[j])
    {
      assert i < j || i == j || j < i;
    }
  }

  /** Batched polling refines one-at-a-time polling. If every enabled register's own read is
      answered and answers are device memory, then whichever block reads fail, a poll takes the
      same measurements as reading every register on its own; and if the configuration lets
      registers share an address only when they are read alike, it has the same values, which are
      exactly the registers' own. */
  lemma BatchedRefinesNaive(link: Link, memory: Memory, p: RegisterProfile, blocks: seq<Block>)
    requires Plan(p, blocks) && Faithful(link, OrdersOf(p), memory)
    requires forall e | e in Entries(p).value :: Answers(link, e)
    ensures
      var o, entries := OrdersOf(p), Entries(p).value;
      var batched, naive := Batched(link, o, blocks), Naive(link, o, entries);
      && multiset(batched.measurements) == multiset(naive.measurements)
      && naive.measurements == Samples(memory, o, entries)
      && (Compatible(o, entries) ==> batched.values == naive.values && Shows(batched.values, Samples(memory, o, entries)))
  {
    BatchedMeasuresAsNaive(link, memory, p, blocks);
    if Compatible(OrdersOf(p), Entries(p).value) {
      CompatibleAgree(memory, p);
    }
  }

  /** Without, some device loses one. */
  lemma CompatibleIsNeeded(p: RegisterProfile, blocks: seq<Block>) returns (link: Link, memory: Memory)
    requires Plan(p, blocks) && !Compatible(OrdersOf(p), Entries(p).value)
    ensures Faithful(link, OrdersOf(p), memory) && forall e | e in Entries(p).value :: Answers(link, e)
    ensures !Shows(Batched(link, OrdersOf(p), blocks).values, Samples(memory, OrdersOf(p), Entries(p).value))
  {
    memory := IncompatibleDisagree(p);
    link := FullyAnswering(memory, OrdersOf(p));
    FullyAnsweringIsFaithful(memory, OrdersOf(p));
    BatchedMeasuresAsNaive(link, memory, p, blocks);
  }

  /** The values of a poll are exactly the registers' own, for every memory and every device that
      answers each register's own read from it, if and only if the enabled registers that share an
      address and come to a value have the same function code, the same type, and, where it
      matters, the same word order. */
  lemma ValuesAreExactIff(p: RegisterProfile, blocks: seq<Block>)
    requires Plan(p, blocks)
    ensures
      Compatible(OrdersOf(p), Entries(p).value) <==>
      forall link: Link, memory: Memory |
        Faithful(link, OrdersOf(p), memory) && forall e | e in Entries(p).value :: Answers(link, e) ::
        Shows(Batched(link, OrdersOf(p), blocks).values, Samples(memory, OrdersOf(p), Entries(p).value))
  {
    if Compatible(OrdersOf(p), Entries(p).value) {
      forall link: Link, memory: Memory |
        Faithful(link, OrdersOf(p), memory) && forall e | e in Entries(p).value :: Answers(link, e)
        ensures Shows(Batched(link, OrdersOf(p), blocks).values, Samples(memory, OrdersOf(p), Entries(p).value))
      {
        BatchedRefinesNaive(link, memory, p, blocks);
      }
    } else {
      var link, memory := CompatibleIsNeeded(p, blocks);
    }
  }

  // ----- an accepted configuration that loses a value -----

  function Hundred(functionCode: int): Address {
    AddressOf(functionCode, functionCode, "x", U16)
  }

  /** Register 100 twice, once under each function code. */
  const TWICE := SetOf(30, Hundred(3), Hundred(4))

  function EntryFor(functionCode: int): Entry {
    EntryOf(Hundred(functionCode))
  }

  lemma HundredsAreCanonical()
    ensures Normalizing.CanonicalAddress(ZeroBased, 1, Hundred(3)) && Normalizing.CanonicalAddress(ZeroBased, 1, Hundred(4))
  {
    Normalizing.VisibleName("x");
    AddressIsCanonical(3, 3, "x", U16);
    AddressIsCanonical(4, 4, "x", U16);
  }

  lemma TwiceEntries()
    ensures Entries(ProfileOf(TWICE)) == Ok([EntryFor(3), EntryFor(4)])
  {
    HundredsAreCanonical();
    AddressResolves(3, 3, "x", U16);
    AddressResolves(4, 4, "x", U16);
    SetEntries(30, Hundred(3), Hundred(4));
  }

  lemma PackedApart(a: Entry, b: Entry, limit: int) returns (blocks: seq<Block>)
    requires a.FunctionCode() < b.FunctionCode()
    ensures PlanOf([a, b], limit, blocks) && EntriesOf(blocks) == [a, b]
  {
    var entries := [a, b];
    blocks := Pack(entries, limit);
    assert Sorted(entries);
    assert PackTo(entries, 1, limit) == [] + [Planning.Alone(a)];
    assert blocks == [Planning.Alone(a)] + [Planning.Alone(b)];
    assert blocks[..1] == [Planning.Alone(a)] && blocks[..1][..0] == [];
    assert EntriesOf(blocks[..1]) == [] + [a];
  }

  lemma HundredReads(memory: Memory, o: Orders, functionCode: int)
    requires functionCode in {3, 4}
    ensures OwnValue(memory, o)(EntryFor(functionCode)) == Ok(Number(memory(functionCode, 100)))
  {
    AddressResolves(functionCode, functionCode, "x", U16);
    var e := EntryFor(functionCode);
    OwnValueIs(memory, o, e);
    var words := WordsAt(memory, functionCode, 100, 1);
    OneWordInOrder(words, LowFirst(o, e));
    PositionalOne(words);
  }

  function SampleWith(e: Entry, raw: Value): Sample {
    Sample(e.FunctionCode(), e.definition.registerAddress, e.definition.dataType, raw)
  }

  lemma SamplesOfTwo(memory: Memory, o: Orders, a: Entry, b: Entry, x: Value, y: Value)
    requires OwnValue(memory, o)(a) == Ok(x) && OwnValue(memory, o)(b) == Ok(y)
    ensures Samples(memory, o, [a, b]) == [SampleWith(a, x), SampleWith(b, y)]
  {
    var f, entries := SampleOf(OwnValue(memory, o)), [a, b];
    FlatToPrefix(f, entries, 2);
    assert entries[..2] == entries;
    assert FlatTo(f, entries, 1) == FlatTo(f, entries, 0) + f(a);
  }

  lemma ReplayedTwice(x: Sample, y: Sample)
    requires x.registerAddress == y.registerAddress
    ensures Replay([x, y]) == map[x.registerAddress := y.rawValue]
  {
    assert [x, y][..1] == [x] && [x][..0] == [];
    assert Replay([x]) == map[x.registerAddress := x.rawValue];
  }

  /** A poll of two registers that share an address shows the second. */
  lemma SecondTakesOver(link: Link, memory: Memory, p: RegisterProfile, blocks: seq<Block>, a: Entry, b: Entry, x: Value, y: Value)
    requires Plan(p, blocks) && EntriesOf(blocks) == [a, b] && a.definition.registerAddress == b.definition.registerAddress
    requires Faithful(link, OrdersOf(p), memory) && forall e | e in Entries(p).value :: Answers(link, e)
    requires OwnValue(memory, OrdersOf(p))(a) == Ok(x) && OwnValue(memory, OrdersOf(p))(b) == Ok(y)
    ensures Batched(link, OrdersOf(p), blocks).values == map[a.definition.registerAddress := y]
  {
    PlanIsPollable(link, p, blocks);
    BatchedMeasures(link, OrdersOf(p), memory, blocks);
    SamplesOfTwo(memory, OrdersOf(p), a, b, x, y);
    ReadBlocksConsistent(link, OrdersOf(p), blocks, |blocks|);
    ReplayedTwice(SampleWith(a, x), SampleWith(b, y));
  }

  /** A poll of any profile with two such registers loses the first one's value. */
  lemma FirstIsLost(p: RegisterProfile, a: Entry, b: Entry) returns (link: Link, memory: Memory, blocks: seq<Block>)
    requires Entries(p) == Ok([a, b]) && a == EntryFor(3) && b == EntryFor(4)
    ensures Plan(p, blocks)
    ensures Faithful(link, OrdersOf(p), memory) && forall e | e in Entries(p).value :: Answers(link, e)
    ensures Samples(memory, OrdersOf(p), [a, b]) == [SampleWith(a, Number(1)), SampleWith(b, Number(2))]
    ensures Batched(link, OrdersOf(p), blocks).values == map[100 := Number(2)]
  {
    var o := OrdersOf(p);
    memory := ByFunction(1, 2);
    link := FullyAnswering(memory, o);
    FullyAnsweringIsFaithful(memory, o);
    blocks := PackedApart(a, b, ClampLimit(p.maxBlockSize));
    HundredReads(memory, o, 3);
    HundredReads(memory, o, 4);
    SamplesOfTwo(memory, o, a, b, Number(1), Number(2));
    SecondTakesOver(link, memory, p, blocks, a, b, Number(1), Number(2));
  }

  lemma TwiceIsAccepted()
    ensures Normalizing.CheckedDeviceSet({1})(TWICE) == Ok(TWICE)
  {
    HundredsAreCanonical();
    SetIsAccepted(30, Hundred(3), Hundred(4));
  }

  /** The gate accepts a device set that reads register 100 under both function codes, and a poll of
      it keeps only the second of the two values. */
  lemma SharedAddressLosesAValue() returns (link: Link, memory: Memory, blocks: seq<Block>)
    ensures Normalizing.CheckedDeviceSet({1})(TWICE) == Ok(TWICE)
    ensures Plan(ProfileOf(TWICE), blocks)
    ensures
      var o, entries := OrdersOf(ProfileOf(TWICE)), Entries(ProfileOf(TWICE)).value;
      && Faithful(link, o, memory) && (forall e | e in entries :: Answers(link, e))
      && Samples(memory, o, entries) == [SampleWith(EntryFor(3), Number(1)), SampleWith(EntryFor(4), Number(2))]
      && Batched(link, o, blocks).values == map[100 := Number(2)]
  {
    TwiceIsAccepted();
    TwiceEntries();
    link, memory, blocks := FirstIsLost(ProfileOf(TWICE), EntryFor(3), EntryFor(4));
  }
}
