/** internal/app/service.go, PollConnection: batched reads with a fallback to single reads. */
module Polling {
  import opened Results
  import opened Domain
  import opened Addressing
  import opened Decoding
  import opened Planning
  import opened Sequences
  import Text

  /** What the device answers to (function code, start, quantity); the address of the device is
      fixed for a poll. */
  datatype Response = Refused | Bytes(data: seq<Byte>)
  type Link = (int, int, int) -> Response

  datatype Reason = NoAnswer | Incomplete | Undecodable(error: DecodeError) | SentinelSkipped
  datatype Failure = Failure(functionCode: int, start: int, quantity: int, reason: Reason)
  datatype Sample = Sample(functionCode: int, registerAddress: int, dataType: TypeTag, rawValue: Value)

  /** The variables a poll fills: values keyed by register address, measurements, failures. */
  datatype Sweep = Sweep(values: map<int, Value>, measurements: seq<Sample>, failures: seq<Failure>) {
    function Fail(functionCode: int, start: int, quantity: int, reason: Reason): Sweep {
      this.(failures := failures + [Failure(functionCode, start, quantity, reason)])
    }

    function Record(d: RegisterDefinition, raw: Value): Sweep {
      this.(values := values[d.registerAddress := raw],
            measurements := measurements + [Sample(d.functionCode, d.registerAddress, d.dataType, raw)])
    }
  }

  const EMPTY_SWEEP := Sweep(map[], [], [])

  /** The byte and word order a profile reads with. */
  datatype Orders = Orders(byteOrder: string, wordOrder: string)

  // ----- one request -----

  /** Client.Read followed by BytesToRegisters. */
  function ReadRegisters(link: Link, o: Orders, functionCode: int, start: int, quantity: int): Result<seq<Word>, Reason> {
    if functionCode != 3 && functionCode != 4 then Err(NoAnswer)
    else if quantity == 0 || quantity > MAX_QUANTITY then Err(NoAnswer)
    else
      match link(functionCode, start, quantity)
      case Refused => Err(NoAnswer)
      case Bytes(data) =>
        match Registers(data, o.byteOrder)
        case Err(e) => Err(Undecodable(e))
        case Ok(words) => Ok(words)
  }

  function WordOrder(o: Orders, d: RegisterDefinition): string {
    Text.First(d.wordOrder, o.wordOrder)
  }

  /** What the words of a register decode to: a value, or the reason there is none. */
  function DecodeWords(o: Orders, d: RegisterDefinition, words: seq<Word>): Result<Value, Reason> {
    match DecodedTag(words, d.dataType, WordOrder(o, d))
    case Err(e) => Err(Undecodable(e))
    case Ok(raw) => if IsNaN(raw) then Err(SentinelSkipped) else Ok(raw)
  }

  // ----- one register -----

  /** What a register comes to: a value to record, or the reason for a failure. */
  type Outcome = Result<Value, Reason>

  function Note(s: Sweep, e: Entry, outcome: Outcome): Sweep {
    match outcome
    case Ok(raw) => s.Record(e.definition, raw)
    case Err(reason) => s.Fail(e.FunctionCode(), e.offset, ToUint16(e.definition.length), reason)
  }

  /** The part of a response that belongs to an entry, with the 16-bit subtraction of the source
      and its check for a short response. */
  function Extract(o: Orders, e: Entry, regs: seq<Word>, base: int): Outcome {
    var start := ToUint16(e.offset - base);
    if e.definition.length < 0 || start + e.definition.length > |regs| then Err(Incomplete)
    else DecodeWords(o, e.definition, regs[start..start + e.definition.length])
  }

  /** Decoding out of a block response that starts at `base`. */
  function InBlock(o: Orders, regs: seq<Word>, base: int): Entry -> Outcome {
    (e: Entry) => Extract(o, e, regs, base)
  }

  /** A request of the register's own. */
  function OnItsOwn(link: Link, o: Orders): Entry -> Outcome {
    (e: Entry) =>
      match ReadRegisters(link, o, e.FunctionCode(), e.offset, ToUint16(e.definition.length))
      case Ok(regs) => Extract(o, e, regs, e.offset)
      case Err(reason) => Err(reason)
  }

  function NoteAll(entries: seq<Entry>, n: nat, outcome: Entry -> Outcome, s: Sweep): Sweep
    requires n <= |entries|
  {
    if n == 0 then s
    else Note(NoteAll(entries, n - 1, outcome, s), entries[n - 1], outcome(entries[n - 1]))
  }

  // ----- a block, and a plan -----

  /** A block whose single entry fills it: reading the entry alone would repeat the request. */
  predicate Irreducible(b: Block) {
    |b.entries| == 1 && b.quantity == ToUint16(b.entries[0].definition.length)
  }

  function ReadBlock(link: Link, o: Orders, b: Block, s: Sweep): Sweep {
    match ReadRegisters(link, o, b.functionCode, b.start, b.quantity)
    case Ok(regs) => NoteAll(b.entries, |b.entries|, InBlock(o, regs, b.start), s)
    case Err(reason) =>
      var s' := s.Fail(b.functionCode, b.start, b.quantity, reason);
      if Irreducible(b) then s' else NoteAll(b.entries, |b.entries|, OnItsOwn(link, o), s')
  }

  function ReadBlocks(link: Link, o: Orders, blocks: seq<Block>, n: nat): Sweep
    requires n <= |blocks|
  {
    if n == 0 then EMPTY_SWEEP else ReadBlock(link, o, blocks[n - 1], ReadBlocks(link, o, blocks, n - 1))
  }

  /** What a poll of a plan collects. */
  function Batched(link: Link, o: Orders, blocks: seq<Block>): Sweep {
    ReadBlocks(link, o, blocks, |blocks|)
  }

  /** What polling every register on its own collects. */
  function Naive(link: Link, o: Orders, entries: seq<Entry>): Sweep {
    NoteAll(entries, |entries|, OnItsOwn(link, o), EMPTY_SWEEP)
  }

  // ----- PollConnection -----

  datatype PollError = NotPlannable(error: PlanError) | NoAddress | NoData

  function Definition(a: Address): RegisterDefinition {
    RegisterDefinition(
      Text.Decimal(a.functionCode) + ":" + Text.Decimal(a.register),
      Text.First(a.sourceTag, a.description), Tag(a.dataType),
      a.register, a.functionCode, a.length, a.wordOrder, a.enabled)
  }

  function Definitions(addresses: seq<Address>): (ds: seq<RegisterDefinition>)
    ensures |ds| == |addresses|
    ensures forall i | 0 <= i < |ds| :: ds[i] == Definition(addresses[i])
  {
    seq(|addresses|, i requires 0 <= i < |addresses| => Definition(addresses[i]))
  }

  /** The register profile PollConnection makes of a device set. */
  function ProfileOf(set_: DeviceSet): RegisterProfile {
    RegisterProfile(
      Text.First(set_.addressMode, "ZERO_BASED"), Text.First(set_.byteOrder, "BIG_ENDIAN"),
      Text.First(set_.wordOrder, "HIGH_LOW"), set_.maxBlockSize, 0, Definitions(set_.addresses))
  }

  function OrdersOf(p: RegisterProfile): Orders {
    Orders(p.byteOrder, p.wordOrder)
  }

  ghost predicate LegalEntries(b: Block) {
    forall i | 0 <= i < |b.entries| :: b.entries[i].Legal()
  }

  lemma PlannedEntriesAreLegal(p: RegisterProfile, blocks: seq<Block>)
    requires Plan(p, blocks)
    ensures forall k | 0 <= k < |blocks| :: LegalEntries(blocks[k])
  {
    var entries := Entries(p).value;
    PlanCoversExactly(entries, ClampLimit(p.maxBlockSize), blocks);
    SameMembers(EntriesOf(blocks), entries);
    forall k, i | 0 <= k < |blocks| && 0 <= i < |blocks[k].entries|
      ensures blocks[k].entries[i].Legal()
    {
      EntriesOfHasAll(blocks, blocks[k], blocks[k].entries[i]);
    }
  }

  lemma {:induction false} EntriesOfHasAll(blocks: seq<Block>, b: Block, e: Entry)
    requires b in blocks && e in b.entries
    ensures e in EntriesOf(blocks)
  {
    var n := |blocks| - 1;
    assert blocks == blocks[..n] + [blocks[n]];
    if b == blocks[n] {
    } else {
      EntriesOfHasAll(blocks[..n], b, e);
    }
  }

  /** The result of a poll is the batched sweep of some plan; there is an error exactly when
      nothing can be planned or nothing was measured. */
  method PollConnection(set_: DeviceSet, link: Link) returns (r: Result<Sweep, PollError>)
    ensures
      var p := ProfileOf(set_);
      match r
      case Err(NotPlannable(e)) => Entries(p) == Err(e)
      case Err(NoAddress) => Plan(p, [])
      case Err(NoData) => exists blocks, s :: SweptTo(p, link, blocks, s) && s.measurements == []
      case Ok(s) => s.measurements != [] && exists blocks :: SweptTo(p, link, blocks, s)
  {
    var p := ProfileOf(set_);
    var blocks := BuildBlocks(p);
    if blocks.Err? {
      return Err(NotPlannable(blocks.error));
    }
    if |blocks.value| == 0 {
      return Err(NoAddress);
    }
    PlannedEntriesAreLegal(p, blocks.value);
    var s := SweepBlocks(link, OrdersOf(p), blocks.value);
    assert SweptTo(p, link, blocks.value, s);
    if |s.measurements| == 0 {
      return Err(NoData);
    }
    return Ok(s);
  }

  ghost predicate SweptTo(p: RegisterProfile, link: Link, blocks: seq<Block>, s: Sweep) {
    Plan(p, blocks) && blocks != [] && s == Batched(link, OrdersOf(p), blocks)
  }

  /** The polling loop: each block in turn, falling back to single reads when it fails. */
  method SweepBlocks(link: Link, o: Orders, blocks: seq<Block>) returns (s: Sweep)
    requires forall k | 0 <= k < |blocks| :: LegalEntries(blocks[k])
    ensures s == Batched(link, o, blocks)
  {
    s := EMPTY_SWEEP;
    for i := 0 to |blocks|
      invariant s == ReadBlocks(link, o, blocks, i)
    {
      var b := blocks[i];
      var regs := ReadRegisters(link, o, b.functionCode, b.start, b.quantity);
      if regs.Ok? {
        s := DecodeBlock(o, b, regs.value, s);
      } else {
        s := s.Fail(b.functionCode, b.start, b.quantity, regs.error);
        if !(|b.entries| == 1 && b.quantity == ToUint16(b.entries[0].definition.length)) {
          s := FallBack(link, o, b, s);
        }
      }
    }
  }

  method DecodeBlock(o: Orders, b: Block, regs: seq<Word>, s: Sweep) returns (s': Sweep)
    requires LegalEntries(b)
    ensures s' == NoteAll(b.entries, |b.entries|, InBlock(o, regs, b.start), s)
  {
    s' := s;
    for j := 0 to |b.entries|
      invariant s' == NoteAll(b.entries, j, InBlock(o, regs, b.start), s)
    {
      s' := DecodeEntry(o, b.entries[j], regs, b.start, s');
    }
  }

  method FallBack(link: Link, o: Orders, b: Block, s: Sweep) returns (s': Sweep)
    requires LegalEntries(b)
    ensures s' == NoteAll(b.entries, |b.entries|, OnItsOwn(link, o), s)
  {
    s' := s;
    for j := 0 to |b.entries|
      invariant s' == NoteAll(b.entries, j, OnItsOwn(link, o), s)
    {
      var e := b.entries[j];
      var quantity := ToUint16(e.definition.length);
      var own := ReadRegisters(link, o, e.FunctionCode(), e.offset, quantity);
      if own.Err? {
        s' := s'.Fail(e.FunctionCode(), e.offset, quantity, own.error);
      } else {
        s' := DecodeEntry(o, e, own.value, e.offset, s');
      }
    }
  }

  /** The decodeEntry closure. */
  method DecodeEntry(o: Orders, e: Entry, regs: seq<Word>, base: int, s: Sweep) returns (s': Sweep)
    requires e.Legal()
    ensures s' == Note(s, e, Extract(o, e, regs, base))
  {
    var d := e.definition;
    var raw := ExtractEntry(o, e, regs, base);
    if raw.Err? {
      return s.Fail(d.functionCode, e.offset, ToUint16(d.length), raw.error);
    }
    return s.Record(d, raw.value);
  }

  method ExtractEntry(o: Orders, e: Entry, regs: seq<Word>, base: int) returns (r: Outcome)
    requires e.Legal()
    ensures r == Extract(o, e, regs, base)
  {
    var d := e.definition;
    var start := ToUint16(e.offset - base);
    if start < 0 || start + d.length > |regs| {
      return Err(Incomplete);
    }
    r := DecodeSlice(o, d, regs[start..start + d.length]);
  }

  method DecodeSlice(o: Orders, d: RegisterDefinition, words: seq<Word>) returns (r: Result<Value, Reason>)
    ensures r == DecodeWords(o, d, words)
  {
    var raw := DecodeTagged(words, d.dataType, WordOrder(o, d));
    if raw.Err? {
      return Err(Undecodable(raw.error));
    }
    if IsNaN(raw.value) {
      return Err(SentinelSkipped);
    }
    return Ok(raw.value);
  }
}
