/** internal/profile/blocks.go: packing configured registers into Modbus read requests. */
module Planning {
  import opened Results
  import opened Domain
  import opened Addressing
  import opened Sequences

  /** A configured register at its wire address. */
  datatype Entry = Entry(definition: RegisterDefinition, offset: int) {
    function FunctionCode(): int { definition.functionCode }
    function End(): int { offset + definition.length }

    /** What resolution guarantees about every entry. */
    predicate Legal() {
      LegalRequest(FunctionCode(), offset, definition.length)
    }
  }

  datatype Block = Block(functionCode: int, start: int, quantity: int, entries: seq<Entry>) {
    function End(): int { start + quantity }
  }

  datatype PlanError = InvalidLength(key: string) | Unresolved(error: AddressError) | ExceedsRange(key: string)

  /** Go's arithmetic on uint32. */
  function ToUint32(n: int): (r: int)
    ensures 0 <= n < 0x1_0000_0000 ==> r == n
  {
    n % 0x1_0000_0000
  }

  function Max(a: int, b: int): int {
    if a > b then a else b
  }

  function ClampLimit(maxBlockSize: int): (limit: int)
    ensures 1 <= limit <= 125
    ensures 1 <= maxBlockSize <= 125 ==> limit == maxBlockSize
    ensures maxBlockSize > 125 ==> limit == MAX_QUANTITY
    ensures maxBlockSize < 1 ==> limit == 30
  {
    if maxBlockSize < 1 then 30 else if maxBlockSize > 125 then 125 else maxBlockSize
  }

  // ----- collecting the enabled registers -----

  /** The entry of an enabled register, under the profile's address mode and default function. */
  function ResolveEntry(mode: Result<AddressMode, AddressError>, defaultFc: int, d: RegisterDefinition): (r: Result<Entry, PlanError>)
    ensures r.Ok? ==> r.value.Legal()
  {
    if d.length < 1 || d.length > 125 then Err(PlanError.InvalidLength(d.key))
    else
      var d' := if d.functionCode == 0 then d.(functionCode := defaultFc) else d;
      match ResolveParsed(mode, d')
      case Err(e) => Err(Unresolved(e))
      case Ok(a) => Ok(Entry(d'.(functionCode := a.functionCode), a.start))
  }

  /** The entries of the enabled registers among the first n, in configuration order, or the first
      error. */
  function CollectTo(mode: Result<AddressMode, AddressError>, defaultFc: int, registers: seq<RegisterDefinition>, n: nat): (r: Result<seq<Entry>, PlanError>)
    requires n <= |registers|
    ensures r.Ok? ==> forall e | e in r.value :: e.Legal()
  {
    if n == 0 then Ok([])
    else
      var before :- CollectTo(mode, defaultFc, registers, n - 1);
      if !registers[n - 1].enabled then Ok(before)
      else
        var e :- ResolveEntry(mode, defaultFc, registers[n - 1]);
        Ok(before + [e])
  }

  function Collect(mode: Result<AddressMode, AddressError>, defaultFc: int, registers: seq<RegisterDefinition>): (r: Result<seq<Entry>, PlanError>)
    ensures r.Ok? ==> forall e | e in r.value :: e.Legal()
  {
    CollectTo(mode, defaultFc, registers, |registers|)
  }

  /** The enabled registers of a profile, resolved. */
  function Entries(p: RegisterProfile): Result<seq<Entry>, PlanError> {
    Collect(ParseMode(p.addressMode), p.defaultFunctionCode, p.registers)
  }

  // ----- sorting -----

  predicate KeyLess(a: Entry, b: Entry) {
    a.FunctionCode() < b.FunctionCode() || (a.FunctionCode() == b.FunctionCode() && a.offset < b.offset)
  }

  ghost predicate Sorted(entries: seq<Entry>) {
    forall i, j | 0 <= i < j < |entries| :: !KeyLess(entries[j], entries[i])
  }

  /** sort.Slice: some sorted permutation. It is not stable, so callers may rely on nothing
      else. */
  method SortEntries(entries: seq<Entry>) returns (sorted: seq<Entry>)
    ensures Sorted(sorted) && multiset(sorted) == multiset(entries)
  {
    sorted := Sort(KeyLess, entries);
  }

  // ----- packing -----

  /** The join test: same function code, no gap after the block, and a span within the limit. */
  predicate Joins(b: Block, e: Entry, limit: int) {
    && b.functionCode == e.FunctionCode()
    && e.offset <= b.End()
    && e.End() - b.start <= limit
  }

  function Alone(e: Entry): Block {
    Block(e.FunctionCode(), e.offset, e.definition.length, [e])
  }

  function Join(b: Block, e: Entry): Block {
    Block(b.functionCode, b.start, Max(b.quantity, e.End() - b.start), b.entries + [e])
  }

  function Place(blocks: seq<Block>, e: Entry, limit: int): seq<Block> {
    if blocks == [] || !Joins(blocks[|blocks| - 1], e, limit) then blocks + [Alone(e)]
    else blocks[..|blocks| - 1] + [Join(blocks[|blocks| - 1], e)]
  }

  /** The greedy plan of the first n entries of a sorted list. */
  function PackTo(entries: seq<Entry>, n: nat, limit: int): (blocks: seq<Block>)
    requires n <= |entries|
    ensures blocks == [] <==> n == 0
  {
    if n == 0 then [] else Place(PackTo(entries, n - 1, limit), entries[n - 1], limit)
  }

  function Pack(entries: seq<Entry>, limit: int): seq<Block> {
    PackTo(entries, |entries|, limit)
  }

  /** What keeps the packing arithmetic from wrapping: the open block lies in the address space
      and starts no later than the entry placed last. */
  predicate InRange(b: Block, last: Entry) {
    && 0 <= b.start <= last.offset < 0x1_0000
    && 0 <= b.quantity && b.End() <= 0x1_0000
    && b.functionCode == last.FunctionCode()
  }

  predicate Addressable(e: Entry) {
    0 <= e.offset < 0x1_0000 && 1 <= e.definition.length <= 125
  }

  lemma NoWrap(b: Block, last: Entry, e: Entry, limit: int)
    requires InRange(b, last) && !KeyLess(e, last)
    requires Addressable(e) && e.End() <= 0x1_0000 && 1 <= limit <= 125
    ensures ToUint32(ToUint32(b.start) + ToUint32(b.quantity)) == b.End()
    ensures b.functionCode == e.FunctionCode() ==> ToUint32(e.End() - ToUint32(b.start)) == e.End() - b.start
    ensures Joins(b, e, limit) ==> ToUint16(e.End() - b.start) == e.End() - b.start && InRange(Join(b, e), e)
  {
  }

  /** One turn of the packing loop, in the 16-bit and 32-bit arithmetic of the source. */
  method PlaceEntry(blocks: seq<Block>, ghost last: Entry, e: Entry, limit: int) returns (blocks': seq<Block>)
    requires 1 <= limit <= 125 && Addressable(e) && e.End() <= 0x1_0000
    requires blocks != [] ==> InRange(blocks[|blocks| - 1], last) && !KeyLess(e, last)
    ensures blocks' == Place(blocks, e, limit)
    ensures InRange(blocks'[|blocks'| - 1], e)
  {
    var end := ToUint32(ToUint32(e.offset) + ToUint32(e.definition.length));
    var newBlock := |blocks| == 0;
    if !newBlock {
      var b := blocks[|blocks| - 1];
      NoWrap(b, last, e, limit);
      var currentEnd := ToUint32(ToUint32(b.start) + ToUint32(b.quantity));
      newBlock := b.functionCode != e.FunctionCode() || ToUint32(e.offset) > currentEnd || ToUint32(end - ToUint32(b.start)) > ToUint32(limit);
      assert newBlock == !Joins(b, e, limit);
    }
    if newBlock {
      blocks' := blocks + [Block(e.FunctionCode(), e.offset, ToUint16(e.definition.length), [e])];
    } else {
      var k := |blocks| - 1;
      var b := blocks[k];
      var quantity := ToUint32(end - ToUint32(b.start));
      if quantity > ToUint32(b.quantity) {
        b := b.(quantity := ToUint16(quantity));
      }
      b := b.(entries := b.entries + [e]);
      assert b == Join(blocks[k], e);
      blocks' := blocks[k := b];
      assert blocks' == blocks[..k] + [b];
    }
  }

  method PackEntries(entries: seq<Entry>, limit: int) returns (r: Result<seq<Block>, PlanError>)
    requires 1 <= limit <= 125
    requires forall i | 1 <= i < |entries| :: !KeyLess(entries[i], entries[i - 1])
    requires forall i | 0 <= i < |entries| :: Addressable(entries[i])
    ensures r.Err? <==> exists i | 0 <= i < |entries| :: entries[i].End() > 0x1_0000
    ensures r.Ok? ==> r.value == Pack(entries, limit)
  {
    var blocks: seq<Block> := [];
    for i := 0 to |entries|
      invariant blocks == PackTo(entries, i, limit)
      invariant forall k | 0 <= k < i :: entries[k].End() <= 0x1_0000
      invariant i > 0 ==> InRange(blocks[|blocks| - 1], entries[i - 1])
    {
      var e := entries[i];
      var end := ToUint32(ToUint32(e.offset) + ToUint32(e.definition.length));
      if end > 0x1_0000 {
        return Err(ExceedsRange(e.definition.key));
      }
      blocks := PlaceEntry(blocks, entries[if i > 0 then i - 1 else 0], e, limit);
    }
    return Ok(blocks);
  }

  /** The plans a list of entries may get: the greedy packing of any sorted permutation. */
  ghost predicate PlanOf(entries: seq<Entry>, limit: int, blocks: seq<Block>) {
    exists sorted: seq<Entry> ::
      Sorted(sorted) && multiset(sorted) == multiset(entries) && blocks == Pack(sorted, limit)
  }

  ghost predicate Plan(p: RegisterProfile, blocks: seq<Block>) {
    Entries(p).Ok? && PlanOf(Entries(p).value, ClampLimit(p.maxBlockSize), blocks)
  }

  method CollectEntries(p: RegisterProfile) returns (r: Result<seq<Entry>, PlanError>)
    ensures r == Entries(p)
  {
    var mode := ParseMode(p.addressMode);
    r := CollectResolved(mode, p.defaultFunctionCode, p.registers);
  }

  method CollectResolved(mode: Result<AddressMode, AddressError>, defaultFc: int, registers: seq<RegisterDefinition>)
    returns (r: Result<seq<Entry>, PlanError>)
    ensures r == Collect(mode, defaultFc, registers)
  {
    var entries: seq<Entry> := [];
    for i := 0 to |registers|
      invariant CollectTo(mode, defaultFc, registers, i) == Ok(entries)
    {
      var d := registers[i];
      if d.enabled {
        if d.length < 1 || d.length > 125 {
          CollectStops(mode, defaultFc, registers, i + 1);
          return Err(PlanError.InvalidLength(d.key));
        }
        if d.functionCode == 0 {
          d := d.(functionCode := defaultFc);
        }
        var resolved := ResolveParsed(mode, d);
        if resolved.Err? {
          CollectStops(mode, defaultFc, registers, i + 1);
          return Err(Unresolved(resolved.error));
        }
        d := d.(functionCode := resolved.value.functionCode);
        entries := entries + [Entry(d, resolved.value.start)];
      }
    }
    return Ok(entries);
  }

  /** The planner fails exactly when some enabled register does not resolve; the range check in
      the packing loop never fires. */
  method BuildBlocks(p: RegisterProfile) returns (r: Result<seq<Block>, PlanError>)
    ensures r.Ok? ==> Plan(p, r.value)
    ensures r.Err? ==> Entries(p) == Err(r.error)
  {
    var limit := p.maxBlockSize;
    if limit < 1 {
      limit := 30;
    }
    if limit > 125 {
      limit := 125;
    }
    var entries := CollectEntries(p);
    if entries.Err? {
      return Err(entries.error);
    }
    var sorted := SortEntries(entries.value);
    SortedEntriesAreLegal(entries.value, sorted);
    r := PackEntries(sorted, limit);
  }

  lemma SortedEntriesAreLegal(entries: seq<Entry>, sorted: seq<Entry>)
    requires multiset(sorted) == multiset(entries) && forall e | e in entries :: e.Legal()
    ensures forall i | 0 <= i < |sorted| :: sorted[i].Legal()
  {
    SameMembers(sorted, entries);
    forall i | 0 <= i < |sorted|
      ensures sorted[i].Legal()
    {
      assert sorted[i] in sorted;
    }
  }

  lemma {:induction false} CollectStops(mode: Result<AddressMode, AddressError>, defaultFc: int, registers: seq<RegisterDefinition>, n: nat)
    requires n <= |registers| && CollectTo(mode, defaultFc, registers, n).Err?
    ensures Collect(mode, defaultFc, registers) == CollectTo(mode, defaultFc, registers, n)
    decreases |registers| - n
  {
    if n == |registers| {
    } else {
      CollectStops(mode, defaultFc, registers, n + 1);
    }
  }

  lemma {:induction false} CollectToSucceedsIff(mode: Result<AddressMode, AddressError>, defaultFc: int, registers: seq<RegisterDefinition>, n: nat)
    requires n <= |registers|
    ensures CollectTo(mode, defaultFc, registers, n).Ok? <==>
            forall i | 0 <= i < n && registers[i].enabled :: ResolveEntry(mode, defaultFc, registers[i]).Ok?
  {
    if n == 0 {
    } else {
      CollectToSucceedsIff(mode, defaultFc, registers, n - 1);
    }
  }

  lemma CollectSucceedsIff(mode: Result<AddressMode, AddressError>, defaultFc: int, registers: seq<RegisterDefinition>)
    ensures Collect(mode, defaultFc, registers).Ok? <==>
            forall i | 0 <= i < |registers| && registers[i].enabled :: ResolveEntry(mode, defaultFc, registers[i]).Ok?
  {
    CollectToSucceedsIff(mode, defaultFc, registers, |registers|);
  }

  /** A register without a function code of its own takes the profile's. */
  function WithDefault(d: RegisterDefinition, defaultFc: int): RegisterDefinition {
    d.(functionCode := if d.functionCode == 0 then defaultFc else d.functionCode)
  }

  /** A register becomes an entry at the place its notation writes, with nothing changed but the function
      code, exactly when it can be requested there. */
  lemma EntryIsAsWritten(name: string, defaultFc: int, d: RegisterDefinition, e: Entry)
    ensures ResolveEntry(ParseMode(name), defaultFc, d) == Ok(e) <==>
            && e.Legal() && WrittenAs(name, e.FunctionCode(), e.offset, WithDefault(d, defaultFc))
            && e.definition == d.(functionCode := e.FunctionCode())
  {
    NotationsAgree(name, WithDefault(d, defaultFc), e.FunctionCode(), e.offset);
  }

  /** A register that cannot be requested fails for its length, or else for what is wrong with its place. */
  lemma EntryFailsFor(name: string, defaultFc: int, d: RegisterDefinition)
    ensures
      match ResolveEntry(ParseMode(name), defaultFc, d)
      case Ok(_) => 1 <= d.length <= 125
      case Err(InvalidLength(key)) => key == d.key && !(1 <= d.length <= 125)
      case Err(Unresolved(e)) => 1 <= d.length <= 125 && ResolveModbusAddress(name, WithDefault(d, defaultFc)) == Err(e)
      case Err(ExceedsRange(_)) => false
  {
  }

  /** The entry of a register, if it is enabled. */
  function EntryIfEnabled(mode: Result<AddressMode, AddressError>, defaultFc: int): RegisterDefinition -> seq<Entry> {
    (d: RegisterDefinition) =>
      if !d.enabled then []
      else
        match ResolveEntry(mode, defaultFc, d)
        case Ok(e) => [e]
        case Err(_) => []
  }

  lemma {:induction false} CollectToIsFlat(mode: Result<AddressMode, AddressError>, defaultFc: int, registers: seq<RegisterDefinition>, n: nat)
    requires n <= |registers| && CollectTo(mode, defaultFc, registers, n).Ok?
    ensures CollectTo(mode, defaultFc, registers, n).value == FlatTo(EntryIfEnabled(mode, defaultFc), registers, n)
  {
    if n == 0 {
    } else {
      CollectToIsFlat(mode, defaultFc, registers, n - 1);
    }
  }

  /** What is collected is each enabled register's entry, in the order of the configuration. */
  lemma CollectIsFlat(mode: Result<AddressMode, AddressError>, defaultFc: int, registers: seq<RegisterDefinition>)
    requires Collect(mode, defaultFc, registers).Ok?
    ensures Collect(mode, defaultFc, registers).value == Flat(EntryIfEnabled(mode, defaultFc), registers)
  {
    CollectToIsFlat(mode, defaultFc, registers, |registers|);
    FlatToAll(EntryIfEnabled(mode, defaultFc), registers);
  }

  // ----- exact cover -----

  function EntriesOf(blocks: seq<Block>): seq<Entry> {
    if blocks == [] then [] else EntriesOf(blocks[..|blocks| - 1]) + blocks[|blocks| - 1].entries
  }

  lemma EntriesOfPrefix(blocks: seq<Block>, n: nat)
    requires 0 < n <= |blocks|
    ensures EntriesOf(blocks[..n]) == EntriesOf(blocks[..n - 1]) + blocks[n - 1].entries
  {
    assert blocks[..n][..n - 1] == blocks[..n - 1];
  }

  ghost predicate Holds(entries: seq<Entry>, address: int) {
    exists i | 0 <= i < |entries| :: entries[i].offset <= address < entries[i].End()
  }

  /** A block covers its entries and nothing else: each entry lies inside it with the block's
      function code, and each address of the block lies inside some entry. */
  ghost predicate CoversExactly(b: Block) {
    && b.entries != []
    && (forall i | 0 <= i < |b.entries| :: Inside(b.entries[i], b))
    && (forall a :: b.start <= a < b.End() ==> Holds(b.entries, a))
  }

  predicate Inside(e: Entry, b: Block) {
    e.FunctionCode() == b.functionCode && b.start <= e.offset && e.End() <= b.End()
  }

  predicate BlockNotAfter(a: Block, b: Block) {
    a.functionCode < b.functionCode || (a.functionCode == b.functionCode && a.start <= b.start)
  }

  ghost predicate ExactCover(entries: seq<Entry>, blocks: seq<Block>) {
    && EntriesOf(blocks) == entries
    && (forall i | 0 <= i < |blocks| :: CoversExactly(blocks[i]))
    && (forall i, j | 0 <= i < j < |blocks| :: BlockNotAfter(blocks[i], blocks[j]))
  }

  lemma AloneCoversExactly(e: Entry)
    ensures CoversExactly(Alone(e))
  {
    assert Alone(e).entries[0] == e;
  }

  lemma JoinCoversExactly(b: Block, e: Entry, limit: int)
    requires CoversExactly(b) && Joins(b, e, limit) && b.start <= e.offset
    ensures CoversExactly(Join(b, e))
  {
    var j := Join(b, e);
    var k := |b.entries|;
    assert j.entries[k] == e;
    assert forall i | 0 <= i < k :: j.entries[i] == b.entries[i] && Inside(b.entries[i], b);
    forall a: int
      ensures j.start <= a < j.End() ==> Holds(j.entries, a)
    {
      if b.start <= a < b.End() {
        assert Holds(b.entries, a);
        var i :| 0 <= i < k && b.entries[i].offset <= a < b.entries[i].End();
        assert j.entries[i].offset <= a < j.entries[i].End();
      } else if j.start <= a < j.End() {
        assert j.entries[k].offset <= a < j.entries[k].End();
      }
    }
  }

  lemma NewBlockKeepsCover(entries: seq<Entry>, n: nat, blocks: seq<Block>, blocks': seq<Block>)
    requires 0 < n <= |entries|
    requires blocks' == blocks + [Alone(entries[n - 1])]
    requires ExactCover(entries[..n - 1], blocks)
    requires blocks != [] ==> BlockNotAfter(blocks[|blocks| - 1], Alone(entries[n - 1]))
    ensures ExactCover(entries[..n], blocks')
  {
    var k, e := |blocks|, entries[n - 1];
    AloneCoversExactly(e);
    assert blocks'[..k] == blocks;
    assert entries[..n] == entries[..n - 1] + [e];
    forall i | 0 <= i < k
      ensures BlockNotAfter(blocks'[i], blocks'[k])
    {
      assert i < k - 1 ==> BlockNotAfter(blocks[i], blocks[k - 1]);
    }
  }

  lemma JoinKeepsCover(entries: seq<Entry>, n: nat, blocks: seq<Block>, blocks': seq<Block>, limit: int)
    requires 0 < n <= |entries| && blocks != []
    requires Joins(blocks[|blocks| - 1], entries[n - 1], limit) && blocks[|blocks| - 1].start <= entries[n - 1].offset
    requires blocks' == blocks[..|blocks| - 1] + [Join(blocks[|blocks| - 1], entries[n - 1])]
    requires ExactCover(entries[..n - 1], blocks)
    ensures ExactCover(entries[..n], blocks')
  {
    var k, e := |blocks| - 1, entries[n - 1];
    JoinCoversExactly(blocks[k], e, limit);
    assert entries[..n] == entries[..n - 1] + [e];
    assert blocks'[..k] == blocks[..k];
    assert EntriesOf(blocks') == EntriesOf(blocks[..k]) + (blocks[k].entries + [e]);
    assert EntriesOf(blocks) == EntriesOf(blocks[..k]) + blocks[k].entries;
    forall i | 0 <= i < k
      ensures BlockNotAfter(blocks'[i], blocks'[k])
    {
      assert BlockNotAfter(blocks[i], blocks[k]);
    }
  }

  /** Where the open block stands relative to the entry placed last. */
  predicate Follows(b: Block, last: Entry) {
    b.functionCode == last.FunctionCode() && b.start <= last.offset
  }

  /** The blocks cover the first n entries exactly, and the open one is where the last entry left it. */
  ghost predicate CoversTo(entries: seq<Entry>, n: nat, blocks: seq<Block>)
    requires n <= |entries|
  {
    && ExactCover(entries[..n], blocks) && (blocks == [] <==> n == 0)
    && (n > 0 ==> Follows(blocks[|blocks| - 1], entries[n - 1]))
  }

  lemma CoversNothing(entries: seq<Entry>)
    ensures CoversTo(entries, 0, [])
  {
  }

  lemma PlaceKeepsCover(entries: seq<Entry>, n: nat, blocks: seq<Block>, limit: int)
    requires Sorted(entries) && 0 < n <= |entries| && CoversTo(entries, n - 1, blocks)
    ensures CoversTo(entries, n, Place(blocks, entries[n - 1], limit))
  {
    var blocks' := Place(blocks, entries[n - 1], limit);
    assert n > 1 ==> !KeyLess(entries[n - 1], entries[n - 2]);
    if blocks == [] || !Joins(blocks[|blocks| - 1], entries[n - 1], limit) {
      NewBlockKeepsCover(entries, n, blocks, blocks');
    } else {
      JoinKeepsCover(entries, n, blocks, blocks', limit);
    }
  }

  lemma {:induction false} PackCoversExactly(entries: seq<Entry>, n: nat, limit: int)
    requires Sorted(entries) && n <= |entries|
    ensures CoversTo(entries, n, PackTo(entries, n, limit))
  {
    if n == 0 {
      CoversNothing(entries);
    } else {
      PackCoversExactly(entries, n - 1, limit);
      PlaceKeepsCover(entries, n, PackTo(entries, n - 1, limit), limit);
    }
  }

  /** Exact cover without over-read, for every plan. */
  lemma PlanCoversExactly(entries: seq<Entry>, limit: int, blocks: seq<Block>)
    requires PlanOf(entries, limit, blocks)
    ensures multiset(EntriesOf(blocks)) == multiset(entries)
    ensures ExactCover(EntriesOf(blocks), blocks)
  {
    var sorted :| Sorted(sorted) && multiset(sorted) == multiset(entries) && blocks == Pack(sorted, limit);
    PackCoversExactly(sorted, |sorted|, limit);
    assert sorted[..|sorted|] == sorted;
  }

  // ----- legality -----

  /** A legal request no longer than the limit or the longest register of the block. */
  ghost predicate WithinLimit(b: Block, limit: int) {
    && LegalRequest(b.functionCode, b.start, b.quantity)
    && (b.quantity <= limit || exists i | 0 <= i < |b.entries| :: b.quantity == b.entries[i].definition.length)
  }

  lemma PlaceKeepsLegal(blocks: seq<Block>, e: Entry, limit: int)
    requires forall i | 0 <= i < |blocks| :: WithinLimit(blocks[i], limit)
    requires e.Legal() && 1 <= limit <= 125
    ensures
      var blocks' := Place(blocks, e, limit);
      forall i | 0 <= i < |blocks'| :: WithinLimit(blocks'[i], limit)
  {
    if blocks == [] || !Joins(blocks[|blocks| - 1], e, limit) {
      assert Alone(e).quantity == Alone(e).entries[0].definition.length;
    } else {
      var b := blocks[|blocks| - 1];
      if b.quantity > limit {
        var i :| 0 <= i < |b.entries| && b.quantity == b.entries[i].definition.length;
        assert Join(b, e).quantity == Join(b, e).entries[i].definition.length;
      }
      assert WithinLimit(Join(b, e), limit);
    }
  }

  lemma {:induction false} PackIsLegal(entries: seq<Entry>, n: nat, limit: int)
    requires n <= |entries| && forall i | 0 <= i < n :: entries[i].Legal()
    requires 1 <= limit <= 125
    ensures forall i | 0 <= i < |PackTo(entries, n, limit)| :: WithinLimit(PackTo(entries, n, limit)[i], limit)
  {
    if n == 0 {
    } else {
      PackIsLegal(entries, n - 1, limit);
      PlaceKeepsLegal(PackTo(entries, n - 1, limit), entries[n - 1], limit);
    }
  }

  /** Every planned request is one the client sends: 1..125 registers, at most the limit or the
      longest register of the block, and inside the 16-bit address space. */
  lemma PlannedRequestsAreLegal(entries: seq<Entry>, limit: int, blocks: seq<Block>)
    requires PlanOf(entries, limit, blocks) && 1 <= limit <= 125
    requires forall e | e in entries :: e.Legal()
    ensures forall i | 0 <= i < |blocks| :: WithinLimit(blocks[i], limit)
  {
    var sorted :| Sorted(sorted) && multiset(sorted) == multiset(entries) && blocks == Pack(sorted, limit);
    SortedEntriesAreLegal(entries, sorted);
    PackIsLegal(sorted, |sorted|, limit);
  }

  // ----- optimality -----

  /** The highest end among the entries lo..hi. */
  function SpanEnd(entries: seq<Entry>, lo: nat, hi: nat): int
    requires lo < hi <= |entries|
    decreases hi
  {
    if hi == lo + 1 then entries[lo].End() else Max(SpanEnd(entries, lo, hi - 1), entries[hi - 1].End())
  }

  /** The join test for entry k of the run that starts at lo: the function code of the first, no
      gap, and an end within the limit. */
  predicate MayFollow(entries: seq<Entry>, lo: nat, k: nat, limit: int)
    requires lo < k < |entries|
  {
    && entries[k].FunctionCode() == entries[lo].FunctionCode()
    && entries[k].offset <= SpanEnd(entries, lo, k)
    && entries[k].End() - entries[lo].offset <= limit
  }

  /** A run of consecutive entries that one request may serve. */
  ghost predicate Readable(entries: seq<Entry>, lo: nat, hi: nat, limit: int) {
    lo < hi <= |entries| && forall k | lo < k < hi :: MayFollow(entries, lo, k, limit)
  }

  /** Run i of a cut ends where the next one starts, the last one at n. */
  function RunEnd(starts: seq<nat>, n: nat, i: nat): nat
    requires i < |starts|
  {
    if i + 1 < |starts| then starts[i + 1] else n
  }

  ghost predicate RunReadable(entries: seq<Entry>, n: nat, starts: seq<nat>, i: nat, limit: int)
    requires i < |starts|
  {
    Readable(entries, starts[i], RunEnd(starts, n, i), limit)
  }

  /** A way to serve the first n entries with |starts| requests, given by where the runs start. */
  ghost predicate Cut(entries: seq<Entry>, n: nat, starts: seq<nat>, limit: int) {
    && n <= |entries|
    && (starts == [] <==> n == 0)
    && (starts != [] ==> starts[0] == 0)
    && forall i | 0 <= i < |starts| :: RunReadable(entries, n, starts, i, limit)
  }

  /** Where the open block of the greedy plan starts after n entries. */
  function OpenAt(entries: seq<Entry>, n: nat, limit: int): (g: nat)
    requires 0 < n <= |entries|
    ensures g < n
  {
    if n > 1 && MayFollow(entries, OpenAt(entries, n - 1, limit), n - 1, limit)
    then OpenAt(entries, n - 1, limit)
    else n - 1
  }

  /** How many blocks the greedy plan has after n entries. */
  function BlockCount(entries: seq<Entry>, n: nat, limit: int): nat
    requires n <= |entries|
  {
    if n == 0 then 0
    else BlockCount(entries, n - 1, limit) + if OpenAt(entries, n, limit) == n - 1 then 1 else 0
  }

  /** The open block spans the entries from OpenAt on. */
  ghost predicate OpenBlock(b: Block, entries: seq<Entry>, g: nat, n: nat)
    requires g < n <= |entries|
  {
    && b.start == entries[g].offset
    && b.functionCode == entries[g].FunctionCode()
    && b.End() == SpanEnd(entries, g, n)
  }

  lemma {:induction false} PackFollowsGreedy(entries: seq<Entry>, n: nat, limit: int)
    requires 0 < n <= |entries|
    ensures |PackTo(entries, n, limit)| == BlockCount(entries, n, limit)
    ensures OpenBlock(PackTo(entries, n, limit)[|PackTo(entries, n, limit)| - 1], entries, OpenAt(entries, n, limit), n)
  {
    if n == 1 {
    } else {
      PackFollowsGreedy(entries, n - 1, limit);
      var blocks := PackTo(entries, n - 1, limit);
      var b, g := blocks[|blocks| - 1], OpenAt(entries, n - 1, limit);
      assert Joins(b, entries[n - 1], limit) == MayFollow(entries, g, n - 1, limit);
    }
  }

  /** How far greedy is ahead of a cut of the same n entries, with its open block started at g
      and the open run at s: it uses no more blocks; with as many, its open block starts no
      earlier; its open block reaches at least as far; and a run opened inside that block ends
      within its span. */
  ghost predicate Ahead(entries: seq<Entry>, n: nat, g: nat, blockCount: nat, s: nat, runCount: nat, limit: int)
    requires g < n <= |entries| && s < n
  {
    && blockCount <= runCount
    && (blockCount == runCount ==> s <= g)
    && SpanEnd(entries, s, n) <= SpanEnd(entries, g, n)
    && (g < s ==> SpanEnd(entries, s, n) <= entries[g].offset + limit)
  }

  /** The cut lets its open run take one more entry: greedy takes it too, or was strictly ahead
      and now opens a block that reaches as far. */
  lemma TakesOneMore(entries: seq<Entry>, n: nat, g: nat, blockCount: nat, s: nat, runCount: nat, limit: int)
    requires Sorted(entries) && g < n < |entries| && s < n
    requires entries[g].FunctionCode() == entries[n - 1].FunctionCode()
    requires Readable(entries, s, n + 1, limit)
    requires Ahead(entries, n, g, blockCount, s, runCount, limit)
    ensures if MayFollow(entries, g, n, limit)
            then Ahead(entries, n + 1, g, blockCount, s, runCount, limit)
            else Ahead(entries, n + 1, n, blockCount + 1, s, runCount, limit)
  {
    assert MayFollow(entries, s, n, limit);
    assert s < n - 1 ==> MayFollow(entries, s, n - 1, limit);
    if s < g {
      assert MayFollow(entries, s, g, limit) && !KeyLess(entries[g], entries[s]);
    }
  }

  /** The cut opens a new run for the next entry. */
  lemma TakesNewRun(entries: seq<Entry>, n: nat, g: nat, blockCount: nat, s: nat, runCount: nat, limit: int)
    requires g < n < |entries| && s < n
    requires Ahead(entries, n, g, blockCount, s, runCount, limit)
    ensures if MayFollow(entries, g, n, limit)
            then Ahead(entries, n + 1, g, blockCount, n, runCount + 1, limit)
            else Ahead(entries, n + 1, n, blockCount + 1, n, runCount + 1, limit)
  {
  }

  lemma SameFunction(entries: seq<Entry>, n: nat, limit: int)
    requires 0 < n <= |entries|
    ensures entries[OpenAt(entries, n, limit)].FunctionCode() == entries[n - 1].FunctionCode()
  {
  }

  lemma {:induction false} StaysAhead(entries: seq<Entry>, n: nat, starts: seq<nat>, limit: int)
    requires Sorted(entries) && 0 < n
    requires Cut(entries, n, starts, limit)
    ensures starts[|starts| - 1] < n
    ensures Ahead(entries, n, OpenAt(entries, n, limit), BlockCount(entries, n, limit), starts[|starts| - 1], |starts|, limit)
  {
    var m := |starts| - 1;
    var s := starts[m];
    assert RunReadable(entries, n, starts, m, limit);
    if n == 1 {
    } else {
      var g, count := OpenAt(entries, n - 1, limit), BlockCount(entries, n - 1, limit);
      if s == n - 1 {
        CutWithoutLast(entries, n - 1, starts, limit);
        StaysAhead(entries, n - 1, starts[..m], limit);
        TakesNewRun(entries, n - 1, g, count, starts[m - 1], m, limit);
      } else {
        CutShortened(entries, n - 1, starts, limit);
        StaysAhead(entries, n - 1, starts, limit);
        SameFunction(entries, n - 1, limit);
        TakesOneMore(entries, n - 1, g, count, s, |starts|, limit);
      }
    }
  }

  lemma CutWithoutLast(entries: seq<Entry>, n: nat, starts: seq<nat>, limit: int)
    requires n > 0 && Cut(entries, n + 1, starts, limit) && starts[|starts| - 1] == n
    ensures Cut(entries, n, starts[..|starts| - 1], limit)
  {
    var shorter := starts[..|starts| - 1];
    forall i | 0 <= i < |shorter|
      ensures RunReadable(entries, n, shorter, i, limit)
    {
      assert RunReadable(entries, n + 1, starts, i, limit);
    }
  }

  lemma CutShortened(entries: seq<Entry>, n: nat, starts: seq<nat>, limit: int)
    requires n > 0 && Cut(entries, n + 1, starts, limit) && starts[|starts| - 1] < n
    ensures Cut(entries, n, starts, limit)
  {
    forall i | 0 <= i < |starts|
      ensures RunReadable(entries, n, starts, i, limit)
    {
      assert RunReadable(entries, n + 1, starts, i, limit);
    }
  }

  /** Greedy packing is optimal: no cut of the sorted entries into runs that pass the same join
      test uses fewer requests. */
  lemma GreedyIsOptimal(entries: seq<Entry>, starts: seq<nat>, limit: int)
    requires Sorted(entries)
    requires Cut(entries, |entries|, starts, limit)
    ensures |Pack(entries, limit)| <= |starts|
  {
    if entries == [] {
    } else {
      PackFollowsGreedy(entries, |entries|, limit);
      StaysAhead(entries, |entries|, starts, limit);
    }
  }

  /** Where the greedy blocks start. */
  function Starts(entries: seq<Entry>, n: nat, limit: int): (starts: seq<nat>)
    requires n <= |entries|
    ensures |starts| == BlockCount(entries, n, limit)
    ensures starts == [] <==> n == 0
  {
    if n == 0 then []
    else
      var before := Starts(entries, n - 1, limit);
      if OpenAt(entries, n, limit) == n - 1 then before + [n - 1] else before
  }

  lemma CutPlusRun(entries: seq<Entry>, n: nat, starts: seq<nat>, limit: int)
    requires n < |entries| && Cut(entries, n, starts, limit)
    ensures Cut(entries, n + 1, starts + [n], limit)
  {
    var n', longer := n + 1, starts + [n];
    forall i | 0 <= i < |longer|
      ensures RunReadable(entries, n', longer, i, limit)
    {
      if i < |starts| {
        assert RunReadable(entries, n, starts, i, limit);
      }
    }
  }

  lemma CutExtended(entries: seq<Entry>, n: nat, starts: seq<nat>, limit: int)
    requires 0 < n < |entries| && Cut(entries, n, starts, limit)
    requires starts[|starts| - 1] < n && MayFollow(entries, starts[|starts| - 1], n, limit)
    ensures Cut(entries, n + 1, starts, limit)
  {
    var n' := n + 1;
    forall i | 0 <= i < |starts|
      ensures RunReadable(entries, n', starts, i, limit)
    {
      assert RunReadable(entries, n, starts, i, limit);
    }
  }

  lemma {:induction false} GreedyCuts(entries: seq<Entry>, n: nat, limit: int)
    requires n <= |entries|
    ensures Cut(entries, n, Starts(entries, n, limit), limit)
    ensures n > 0 ==> Starts(entries, n, limit)[|Starts(entries, n, limit)| - 1] == OpenAt(entries, n, limit)
  {
    if n == 0 {
    } else {
      GreedyCuts(entries, n - 1, limit);
      var before := Starts(entries, n - 1, limit);
      if OpenAt(entries, n, limit) == n - 1 {
        CutPlusRun(entries, n - 1, before, limit);
      } else {
        CutExtended(entries, n - 1, before, limit);
      }
    }
  }

  /** The bound is attained: the greedy blocks are themselves such a cut. */
  lemma GreedyIsACut(entries: seq<Entry>, limit: int)
    ensures exists starts: seq<nat> :: Cut(entries, |entries|, starts, limit) && |starts| == |Pack(entries, limit)|
  {
    GreedyCuts(entries, |entries|, limit);
    if entries == [] {
    } else {
      PackFollowsGreedy(entries, |entries|, limit);
    }
  }

  /** Every plan is an optimal cut of the order it was sorted into. */
  lemma PlanIsOptimal(entries: seq<Entry>, limit: int, blocks: seq<Block>)
    requires PlanOf(entries, limit, blocks)
    ensures exists sorted: seq<Entry> ::
              && Sorted(sorted) && multiset(sorted) == multiset(entries) && blocks == Pack(sorted, limit)
              && forall starts: seq<nat> | Cut(sorted, |sorted|, starts, limit) :: |blocks| <= |starts|
  {
    var sorted :| Sorted(sorted) && multiset(sorted) == multiset(entries) && blocks == Pack(sorted, limit);
    forall starts: seq<nat> | Cut(sorted, |sorted|, starts, limit)
      ensures |blocks| <= |starts|
    {
      GreedyIsOptimal(sorted, starts, limit);
    }
  }
}
