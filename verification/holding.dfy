/** A poll reports what the device holds: from the words in its memory, in the byte and word order that
    the configuration names, to the samples of the poll. */
module Holding {
  import opened Results
  import opened Domain
  import opened Addressing
  import opened Decoding
  import opened Planning
  import opened Polling
  import opened Refinement
  import opened Sequences
  import Accepting
  import Normalizing
  import Text

  // ----- the device -----

  /** Whatever the device answers to a legal request is its memory, the bytes of a word in this order. */
  ghost predicate Sends(link: Link, memory: Memory, lowByteFirst: bool) {
    forall functionCode, start, quantity ::
      LegalRequest(functionCode, start, quantity) && link(functionCode, start, quantity).Bytes? ==>
        AreWords(link(functionCode, start, quantity).data, WordsAt(memory, functionCode, start, quantity), lowByteFirst)
  }

  /** The memory from an address on is these words, or these words the other way round. */
  ghost predicate HoldsAt(memory: Memory, functionCode: int, at: int, words: seq<Word>, lowWordFirst: bool) {
    if lowWordFirst then forall i | 0 <= i < |words| :: words[i] == memory(functionCode, at + |words| - 1 - i)
    else forall i | 0 <= i < |words| :: words[i] == memory(functionCode, at + i)
  }

  /** The number has a pattern of its own: it is no sentinel, and no single that is not a number. */
  predicate Reportable(t: DataType, n: int)
    requires Fits(t, n)
  {
    if t == Float32 then !(0x7F80_0000 < n < 0x8000_0000 || 0xFF80_0000 < n) else !Sentinel(t, n)
  }

  lemma SendsIsFaithful(link: Link, memory: Memory, o: Orders)
    requires Sends(link, memory, NamesLowByteFirst(o.byteOrder))
    ensures Faithful(link, o, memory)
  {
    forall functionCode, start, quantity |
      LegalRequest(functionCode, start, quantity) && link(functionCode, start, quantity).Bytes?
      ensures ReadRegisters(link, o, functionCode, start, quantity) == Ok(WordsAt(memory, functionCode, start, quantity))
    {
      var data := link(functionCode, start, quantity).data;
      WordsOfBytes(data, o.byteOrder);
      WordsAreUnique(data, Registers(data, o.byteOrder).value, WordsAt(memory, functionCode, start, quantity),
                     NamesLowByteFirst(o.byteOrder));
    }
  }

  // ----- one register -----

  /** The order in force for a register: its own if it names one, else the common one. */
  function OrderInForce(own: string, common: string): string {
    if Text.TrimSpace(own) != "" then Text.TrimSpace(own) else Text.TrimSpace(common)
  }

  lemma DecodeAsPrefix(words: seq<Word>, t: DataType, swap: bool)
    requires |words| >= Width(t)
    ensures DecodeAs(words, t, swap) == DecodeAs(words[..Width(t)], t, swap)
  {
    assert words[..Width(t)][..Width(t)] == words[..Width(t)];
  }

  lemma HeldWords(memory: Memory, functionCode: int, at: int, length: int, words: seq<Word>, lowWordFirst: bool)
    requires HoldsAt(memory, functionCode, at, words, lowWordFirst) && |words| <= length
    ensures WordsAt(memory, functionCode, at, length)[..|words|] == InOrder(words, lowWordFirst)
  {
    var held := WordsAt(memory, functionCode, at, length);
    forall i | 0 <= i < |words|
      ensures held[i] == InOrder(words, lowWordFirst)[i]
    {
      assert held[i] == memory(functionCode, at + i);
      if lowWordFirst {
        var k := |words| - 1 - i;
        assert words[k] == memory(functionCode, at + |words| - 1 - k);
      }
    }
  }

  lemma HeldIsDecoded(memory: Memory, functionCode: int, at: int, length: int, t: DataType, n: int, lowWordFirst: bool)
    requires Fits(t, n) && Width(t) <= length && HoldsAt(memory, functionCode, at, WordsFor(t, n), lowWordFirst)
    ensures DecodeAs(WordsAt(memory, functionCode, at, length), t, lowWordFirst) == Ok(ValueFor(t, n))
  {
    HeldWords(memory, functionCode, at, length, WordsFor(t, n), lowWordFirst);
    DecodeAsPrefix(WordsAt(memory, functionCode, at, length), t, lowWordFirst);
    PatternIsWordsFor(t, n);
    DecodeSent(t, n, lowWordFirst);
  }

  lemma ReportableIsANumber(t: DataType, n: int)
    requires Fits(t, n)
    ensures Reportable(t, n) <==> !IsNaN(ValueFor(t, n))
  {
    if t == Float32 {
      NotNumbers(n);
    }
  }

  /** A register whose words stand for a number comes to that number, in the order in force for it; the
      patterns that mean "no value" are skipped. */
  lemma HeldValueIsOwn(memory: Memory, o: Orders, e: Entry, t: DataType, n: int)
    requires e.definition.dataType == Canonical(t) && Fits(t, n) && Width(t) <= e.definition.length
    requires HoldsAt(memory, e.FunctionCode(), e.offset, WordsFor(t, n),
                     NamesLowWordFirst(OrderInForce(e.definition.wordOrder, o.wordOrder)))
    ensures OwnValue(memory, o)(e) == if Reportable(t, n) then Ok(ValueFor(t, n)) else Err(SentinelSkipped)
  {
    OrdersByName();
    ReportableIsANumber(t, n);
    HeldIsDecoded(memory, e.FunctionCode(), e.offset, e.definition.length, t, n, NamesLowWordFirst(WordOrder(o, e.definition)));
  }

  /** Words always stand for some number, so the other ways to come to nothing are an unknown type and a
      length below the type's. */
  lemma NoValueOtherwise(memory: Memory, o: Orders, e: Entry)
    requires e.definition.length >= 1
    ensures
      var d := e.definition;
      && (OwnValue(memory, o)(e) == Err(Undecodable(UnsupportedType)) <==> d.dataType.Unknown?)
      && (OwnValue(memory, o)(e) == Err(Undecodable(TooFewRegisters)) <==> d.dataType.Canonical? && d.length < Width(d.dataType.t))
  {
  }

  /** What a register's own read comes to when the device does not send it whole words enough. */
  lemma FailedReads(link: Link, o: Orders, e: Entry)
    requires e.Legal()
    ensures
      match link(e.FunctionCode(), e.offset, e.definition.length)
      case Refused => OnItsOwn(link, o)(e) == Err(NoAnswer)
      case Bytes(data) =>
        && (|data| % 2 != 0 <==> OnItsOwn(link, o)(e) == Err(Undecodable(OddByteCount)))
        && (|data| % 2 == 0 && |data| < 2 * e.definition.length <==> OnItsOwn(link, o)(e) == Err(Incomplete))
  {
  }

  // ----- a poll -----

  predicate ShowsAt(values: map<int, Value>, registerAddress: int, raw: Value) {
    registerAddress in values && values[registerAddress] == raw
  }

  /** Whichever requests fail, a register whose own read is answered is sampled with the number it holds. */
  lemma PollReportsWhatIsHeld(link: Link, memory: Memory, p: RegisterProfile, blocks: seq<Block>, e: Entry, t: DataType, n: int)
    requires Plan(p, blocks) && Sends(link, memory, NamesLowByteFirst(p.byteOrder))
    requires e in Entries(p).value && Answers(link, e)
    requires e.definition.dataType == Canonical(t) && Fits(t, n) && Reportable(t, n) && Width(t) <= e.definition.length
    requires HoldsAt(memory, e.FunctionCode(), e.offset, WordsFor(t, n),
                     NamesLowWordFirst(OrderInForce(e.definition.wordOrder, p.wordOrder)))
    ensures Sample(e.FunctionCode(), e.definition.registerAddress, Canonical(t), ValueFor(t, n)) in
              Batched(link, OrdersOf(p), blocks).measurements
    ensures Agreeing(Samples(memory, OrdersOf(p), Entries(p).value)) ==>
              ShowsAt(Batched(link, OrdersOf(p), blocks).values, e.definition.registerAddress, ValueFor(t, n))
  {
    var o := OrdersOf(p);
    SendsIsFaithful(link, memory, o);
    HeldValueIsOwn(memory, o, e, t, n);
    AloneIsOwn(link, o, memory, e);
    OwnReadIsTaken(link, o, Entries(p).value, e, ValueFor(t, n));
    BatchingNeverMeasuresLess(link, memory, p, blocks);
    MembersBetween(Naive(link, o, Entries(p).value).measurements, Batched(link, o, blocks).measurements,
                   Samples(memory, o, Entries(p).value));
  }

  lemma OwnReadIsTaken(link: Link, o: Orders, entries: seq<Entry>, e: Entry, raw: Value)
    requires e in entries && OnItsOwn(link, o)(e) == Ok(raw)
    ensures Sample(e.FunctionCode(), e.definition.registerAddress, e.definition.dataType, raw) in Naive(link, o, entries).measurements
  {
    NaiveIsFlat(link, o, entries);
    var k :| 0 <= k < |entries| && entries[k] == e;
    FlatHas(SampleOf(OnItsOwn(link, o)), entries, k, Sample(e.FunctionCode(), e.definition.registerAddress, e.definition.dataType, raw));
  }

  // ----- a configured register -----

  /** The entry of an address of a canonical device set. */
  function EntryAt(a: Address, functionCode: int, x: int): Entry {
    Entry(Definition(a).(functionCode := functionCode), x)
  }

  lemma AddressOfSet(brandIds: set<int>, v: DeviceSet, a: Address) returns (k: nat)
    requires Normalizing.CanonicalDeviceSet(brandIds, v) && a in v.addresses
    ensures k < |v.addresses| && v.addresses[k] == a
    ensures Normalizing.CanonicalAddress(ParseMode(v.addressMode).value, v.deviceSetId, a)
  {
    k :| 0 <= k < |v.addresses| && v.addresses[k] == a;
    assert Normalizing.CanonicalAddress(ParseMode(v.addressMode).value, v.deviceSetId, v.addresses[k]);
  }

  /** An enabled register that resolves is collected. */
  lemma EnabledIsCollected(mode: Result<AddressMode, AddressError>, defaultFc: int, registers: seq<RegisterDefinition>, k: nat, e: Entry)
    requires k < |registers| && registers[k].enabled && ResolveEntry(mode, defaultFc, registers[k]) == Ok(e)
    requires Collect(mode, defaultFc, registers).Ok?
    ensures e in Collect(mode, defaultFc, registers).value
  {
    CollectIsFlat(mode, defaultFc, registers);
    FlatHas(EntryIfEnabled(mode, defaultFc), registers, k, e);
  }

  lemma AddressResolvesAsWritten(name: string, a: Address, functionCode: int, x: int)
    requires a.functionCode in {3, 4}
    requires WrittenAs(name, functionCode, x, Definition(a)) && LegalRequest(functionCode, x, a.length)
    ensures ResolveEntry(ParseMode(name), 0, Definition(a)) == Ok(EntryAt(a, functionCode, x))
  {
    EntryIsAsWritten(name, 0, Definition(a), EntryAt(a, functionCode, x));
  }

  lemma ConfiguredIsPlanned(brandIds: set<int>, v: DeviceSet, a: Address, functionCode: int, x: int)
    requires Normalizing.CanonicalDeviceSet(brandIds, v) && a in v.addresses && a.enabled
    requires WrittenAs(v.addressMode, functionCode, x, Definition(a)) && LegalRequest(functionCode, x, a.length)
    ensures Entries(ProfileOf(v)).Ok? && EntryAt(a, functionCode, x) in Entries(ProfileOf(v)).value
  {
    var p := ProfileOf(v);
    var k := AddressOfSet(brandIds, v, a);
    Accepting.ProfileIsAsConfigured(brandIds, v);
    Accepting.CanonicalIsPlannable(brandIds, v);
    AddressResolvesAsWritten(v.addressMode, a, functionCode, x);
    EnabledIsCollected(ParseMode(p.addressMode), 0, p.registers, k, EntryAt(a, functionCode, x));
  }

  lemma TagOfName(dataType: string, t: DataType)
    requires Normalizing.Upper(dataType) && dataType in TypeNames(t)
    ensures Tag(dataType) == Canonical(t)
  {
    NamedIsLookedUp(dataType, t);
  }

  lemma OrderInForceOf(own: string, common: string)
    requires Normalizing.IsWordOrder(common) && (own == "" || Normalizing.IsWordOrder(own))
    ensures OrderInForce(own, common) == if own == "" then common else own
  {
    Normalizing.OrdersAreUpper("", common);
    Normalizing.OrdersAreUpper("", own);
  }

  /** Every poll of an accepted device set reports every enabled register it can read: with the
      register where its notation writes it, holding a number of its type in the set's byte order and
      in its own word order or else the set's, the poll samples that number, and shows it at its address
      if the registers that share an address agree. */
  lemma ConfiguredRegisterIsReported(
    brandIds: set<int>, v: DeviceSet, a: Address, t: DataType, n: int, functionCode: int, x: int,
    link: Link, memory: Memory, blocks: seq<Block>)
    requires Normalizing.CanonicalDeviceSet(brandIds, v) && a in v.addresses && a.enabled
    requires WrittenAs(v.addressMode, functionCode, x, Definition(a)) && LegalRequest(functionCode, x, a.length)
    requires Sends(link, memory, v.byteOrder == "LITTLE_ENDIAN") && link(functionCode, x, a.length).Bytes?
    requires a.dataType in TypeNames(t) && Fits(t, n) && Reportable(t, n) && Width(t) <= a.length
    requires HoldsAt(memory, functionCode, x, WordsFor(t, n), (if a.wordOrder == "" then v.wordOrder else a.wordOrder) == "LOW_HIGH")
    requires Plan(ProfileOf(v), blocks)
    ensures Sample(functionCode, a.register, Canonical(t), ValueFor(t, n)) in
              Batched(link, OrdersOf(ProfileOf(v)), blocks).measurements
    ensures Agreeing(Samples(memory, OrdersOf(ProfileOf(v)), Entries(ProfileOf(v)).value)) ==>
              ShowsAt(Batched(link, OrdersOf(ProfileOf(v)), blocks).values, a.register, ValueFor(t, n))
  {
    var p, e := ProfileOf(v), EntryAt(a, functionCode, x);
    ConfiguredIsPlanned(brandIds, v, a, functionCode, x);
    Accepting.ProfileIsAsConfigured(brandIds, v);
    var k := AddressOfSet(brandIds, v, a);
    TagOfName(a.dataType, t);
    OrderInForceOf(a.wordOrder, v.wordOrder);
    OrdersByName();
    PollReportsWhatIsHeld(link, memory, p, blocks, e, t, n);
  }

  /** Nothing else is reported: every sample of a poll is an enabled address of the device set, at the
      address it is configured for, and is what its words in memory stand for. */
  lemma OnlyConfiguredIsReported(
    brandIds: set<int>, v: DeviceSet, link: Link, memory: Memory, blocks: seq<Block>, x: Sample) returns (k: nat, e: Entry)
    requires Normalizing.CanonicalDeviceSet(brandIds, v) && Plan(ProfileOf(v), blocks)
    requires Sends(link, memory, v.byteOrder == "LITTLE_ENDIAN")
    requires x in Batched(link, OrdersOf(ProfileOf(v)), blocks).measurements
    ensures k < |v.addresses| && v.addresses[k].enabled && x.registerAddress == v.addresses[k].register
    ensures WrittenAs(v.addressMode, x.functionCode, e.offset, Definition(v.addresses[k]))
    ensures e == EntryAt(v.addresses[k], x.functionCode, e.offset)
    ensures OwnValue(memory, OrdersOf(ProfileOf(v)))(e) == Ok(x.rawValue)
  {
    Accepting.ProfileIsAsConfigured(brandIds, v);
    OrdersByName();
    e := SampleIsOfEntry(link, memory, ProfileOf(v), blocks, x);
    k := CollectedIsEnabled(ProfileOf(v), e);
    EntryIsOfAddress(v.addressMode, v.addresses[k], v.deviceSetId, e);
  }

  lemma SampleIsOfEntry(link: Link, memory: Memory, p: RegisterProfile, blocks: seq<Block>, x: Sample) returns (e: Entry)
    requires Plan(p, blocks) && Sends(link, memory, NamesLowByteFirst(p.byteOrder))
    requires x in Batched(link, OrdersOf(p), blocks).measurements
    ensures e in Entries(p).value && x.functionCode == e.FunctionCode() && x.registerAddress == e.definition.registerAddress
    ensures OwnValue(memory, OrdersOf(p))(e) == Ok(x.rawValue)
  {
    var o := OrdersOf(p);
    SendsIsFaithful(link, memory, o);
    BatchingNeverMeasuresLess(link, memory, p, blocks);
    MembersBetween(Naive(link, o, Entries(p).value).measurements, Batched(link, o, blocks).measurements,
                   Samples(memory, o, Entries(p).value));
    var i := FlatMember(SampleOf(OwnValue(memory, o)), Entries(p).value, x);
    e := Entries(p).value[i];
  }

  lemma EntryIsOfAddress(name: string, a: Address, deviceSetId: int, e: Entry)
    requires ParseMode(name).Ok? && Normalizing.CanonicalAddress(ParseMode(name).value, deviceSetId, a)
    requires ResolveEntry(ParseMode(name), 0, Definition(a)) == Ok(e)
    ensures WrittenAs(name, e.FunctionCode(), e.offset, Definition(a)) && e == EntryAt(a, e.FunctionCode(), e.offset)
  {
    EntryIsAsWritten(name, 0, Definition(a), e);
  }

  lemma CollectedIsEnabled(p: RegisterProfile, e: Entry) returns (k: nat)
    requires Entries(p).Ok? && e in Entries(p).value
    ensures k < |p.registers| && p.registers[k].enabled
    ensures ResolveEntry(ParseMode(p.addressMode), p.defaultFunctionCode, p.registers[k]) == Ok(e)
  {
    var mode := ParseMode(p.addressMode);
    CollectIsFlat(mode, p.defaultFunctionCode, p.registers);
    k := FlatMember(EntryIfEnabled(mode, p.defaultFunctionCode), p.registers, e);
  }
}
