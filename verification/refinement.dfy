/** Batched polling refines one-at-a-time polling. */
module Refinement {
  import opened Results
  import opened Domain
  import opened Addressing
  import opened Decoding
  import opened Planning
  import opened Polling
  import opened Sequences

  /** Device memory: the word at (function code, address). */
  type Memory = (int, int) -> Word

  function WordsAt(memory: Memory, functionCode: int, start: int, quantity: int): (words: seq<Word>)
    ensures quantity >= 0 ==> |words| == quantity
    ensures forall i | 0 <= i < quantity :: words[i] == memory(functionCode, start + i)
  {
    if quantity < 0 then [] else seq(quantity, i requires 0 <= i < quantity => memory(functionCode, start + i))
  }

  /** Whatever the device answers to a legal request is its memory. */
  ghost predicate Faithful(link: Link, o: Orders, memory: Memory) {
    forall fc, start, quantity ::
      LegalRequest(fc, start, quantity) && link(fc, start, quantity).Bytes? ==>
        ReadRegisters(link, o, fc, start, quantity) == Ok(WordsAt(memory, fc, start, quantity))
  }

  /** The device answers the request for this register alone. */
  predicate Answers(link: Link, e: Entry) {
    link(e.FunctionCode(), e.offset, e.definition.length).Bytes?
  }

  /** The value of a register: its own slice of memory, decoded, unless that is a sentinel. */
  function OwnValue(memory: Memory, o: Orders): Entry -> Outcome {
    (e: Entry) => DecodeWords(o, e.definition, WordsAt(memory, e.FunctionCode(), e.offset, e.definition.length))
  }

  /** The measurement an outcome stands for, if any. */
  function SampleOf(outcome: Entry -> Outcome): Entry -> seq<Sample> {
    (e: Entry) =>
      match outcome(e)
      case Ok(raw) => [Sample(e.FunctionCode(), e.definition.registerAddress, e.definition.dataType, raw)]
      case Err(_) => []
  }

  /** The measurements the registers stand for, in the order given. */
  function Samples(memory: Memory, o: Orders, entries: seq<Entry>): seq<Sample> {
    Flat(SampleOf(OwnValue(memory, o)), entries)
  }

  // ----- what each kind of read measures -----

  lemma {:induction false} NoteAllMeasures(entries: seq<Entry>, n: nat, outcome: Entry -> Outcome, own: Entry -> Outcome, s: Sweep)
    requires n <= |entries|
    requires forall i | 0 <= i < n :: outcome(entries[i]) == own(entries[i])
    ensures NoteAll(entries, n, outcome, s).measurements == s.measurements + FlatTo(SampleOf(own), entries, n)
  {
    if n == 0 {
    } else {
      NoteAllMeasures(entries, n - 1, outcome, own, s);
    }
  }

  lemma SliceOfWords(memory: Memory, functionCode: int, start: int, quantity: int, at: int, length: int)
    requires 0 <= at && 0 <= length && at + length <= quantity
    ensures WordsAt(memory, functionCode, start, quantity)[at..at + length] == WordsAt(memory, functionCode, start + at, length)
  {
  }

  lemma ExtractedSlice(o: Orders, e: Entry, regs: seq<Word>, base: int, own: seq<Word>)
    requires 0 <= base <= e.offset < 0x1_0000 && 0 <= e.definition.length && e.End() <= base + |regs|
    requires regs[e.offset - base..e.offset - base + e.definition.length] == own
    ensures Extract(o, e, regs, base) == DecodeWords(o, e.definition, own)
  {
  }

  lemma InBlockIsOwn(memory: Memory, o: Orders, e: Entry, start: int, quantity: int)
    requires e.Legal() && 0 <= start <= e.offset && e.End() <= start + quantity
    ensures Extract(o, e, WordsAt(memory, e.FunctionCode(), start, quantity), start) == OwnValue(memory, o)(e)
  {
    var fc, length := e.FunctionCode(), e.definition.length;
    SliceOfWords(memory, fc, start, quantity, e.offset - start, length);
    ExtractedSlice(o, e, WordsAt(memory, fc, start, quantity), start, WordsAt(memory, fc, e.offset, length));
  }

  lemma AloneIsOwn(link: Link, o: Orders, memory: Memory, e: Entry)
    requires e.Legal() && Faithful(link, o, memory) && Answers(link, e)
    ensures OnItsOwn(link, o)(e) == OwnValue(memory, o)(e)
  {
    InBlockIsOwn(memory, o, e, e.offset, e.definition.length);
  }

  /** Reading an irreducible block is reading its register alone, so it is answered. */
  lemma IrreducibleIsAnswered(link: Link, b: Block)
    requires LegalEntries(b) && CoversExactly(b) && Irreducible(b) && Answers(link, b.entries[0])
    ensures link(b.functionCode, b.start, b.quantity).Bytes?
  {
    var e := b.entries[0];
    assert Inside(e, b) && e.Legal();
  }

  /** A block as plans make them: one legal request for legal registers. */
  ghost predicate Sound(b: Block) {
    LegalEntries(b) && CoversExactly(b) && LegalRequest(b.functionCode, b.start, b.quantity)
  }

  /** A sound block whose registers' own reads are all answered. */
  ghost predicate Pollable(link: Link, b: Block) {
    Sound(b) && forall i | 0 <= i < |b.entries| :: Answers(link, b.entries[i])
  }

  lemma AnsweredBlockMeasures(link: Link, o: Orders, memory: Memory, b: Block, s: Sweep)
    requires Pollable(link, b)
    ensures
      NoteAll(b.entries, |b.entries|, InBlock(o, WordsAt(memory, b.functionCode, b.start, b.quantity), b.start), s).measurements ==
      s.measurements + FlatTo(SampleOf(OwnValue(memory, o)), b.entries, |b.entries|)
  {
    var words := WordsAt(memory, b.functionCode, b.start, b.quantity);
    forall i | 0 <= i < |b.entries|
      ensures InBlock(o, words, b.start)(b.entries[i]) == OwnValue(memory, o)(b.entries[i])
    {
      assert Inside(b.entries[i], b);
      InBlockIsOwn(memory, o, b.entries[i], b.start, b.quantity);
    }
    NoteAllMeasures(b.entries, |b.entries|, InBlock(o, words, b.start), OwnValue(memory, o), s);
  }

  lemma SingleReadsMeasure(link: Link, o: Orders, memory: Memory, entries: seq<Entry>, s: Sweep)
    requires Faithful(link, o, memory)
    requires forall i | 0 <= i < |entries| :: entries[i].Legal() && Answers(link, entries[i])
    ensures NoteAll(entries, |entries|, OnItsOwn(link, o), s).measurements ==
            s.measurements + FlatTo(SampleOf(OwnValue(memory, o)), entries, |entries|)
  {
    forall i | 0 <= i < |entries|
      ensures OnItsOwn(link, o)(entries[i]) == OwnValue(memory, o)(entries[i])
    {
      AloneIsOwn(link, o, memory, entries[i]);
    }
    NoteAllMeasures(entries, |entries|, OnItsOwn(link, o), OwnValue(memory, o), s);
  }

  /** Whether or not the block read fails, a block contributes its registers' own values. */
  lemma ReadBlockMeasures(link: Link, o: Orders, memory: Memory, b: Block, s: Sweep)
    requires Pollable(link, b) && Faithful(link, o, memory)
    ensures ReadBlock(link, o, b, s).measurements == s.measurements + Samples(memory, o, b.entries)
  {
    FlatToAll(SampleOf(OwnValue(memory, o)), b.entries);
    if Irreducible(b) {
      IrreducibleIsAnswered(link, b);
    }
    var r := ReadRegisters(link, o, b.functionCode, b.start, b.quantity);
    if link(b.functionCode, b.start, b.quantity).Bytes? {
      AnsweredBlockMeasures(link, o, memory, b, s);
    } else {
      SingleReadsMeasure(link, o, memory, b.entries, s.Fail(b.functionCode, b.start, b.quantity, r.error));
    }
  }

  lemma SamplesOfBlocks(memory: Memory, o: Orders, blocks: seq<Block>, n: nat)
    requires 0 < n <= |blocks|
    ensures Samples(memory, o, EntriesOf(blocks[..n])) ==
            Samples(memory, o, EntriesOf(blocks[..n - 1])) + Samples(memory, o, blocks[n - 1].entries)
  {
    EntriesOfPrefix(blocks, n);
    FlatAppend(SampleOf(OwnValue(memory, o)), EntriesOf(blocks[..n - 1]), blocks[n - 1].entries);
  }

  ghost predicate MeasuresTo(link: Link, o: Orders, memory: Memory, blocks: seq<Block>, n: nat) {
    n <= |blocks| && ReadBlocks(link, o, blocks, n).measurements == Samples(memory, o, EntriesOf(blocks[..n]))
  }

  lemma OneMoreBlockMeasures(link: Link, o: Orders, memory: Memory, blocks: seq<Block>, n: nat)
    requires n < |blocks| && Pollable(link, blocks[n]) && Faithful(link, o, memory)
    requires MeasuresTo(link, o, memory, blocks, n)
    ensures MeasuresTo(link, o, memory, blocks, n + 1)
  {
    ReadBlockMeasures(link, o, memory, blocks[n], ReadBlocks(link, o, blocks, n));
    SamplesOfBlocks(memory, o, blocks, n + 1);
  }

  lemma ReadBlocksMeasures(link: Link, o: Orders, memory: Memory, blocks: seq<Block>, n: nat)
    requires n <= |blocks| && Faithful(link, o, memory)
    requires forall k | 0 <= k < |blocks| :: Pollable(link, blocks[k])
    ensures MeasuresTo(link, o, memory, blocks, n)
  {
    var p := (k: nat) => MeasuresTo(link, o, memory, blocks, k);
    forall k: nat | k < n
      ensures HandsOn(p, k)
    {
      if p(k) {
        OneMoreBlockMeasures(link, o, memory, blocks, k);
      }
    }
    StepByStep(p, n);
  }

  // ----- order does not matter -----

  lemma PlanIsSound(p: RegisterProfile, blocks: seq<Block>)
    requires Plan(p, blocks)
    ensures forall k | 0 <= k < |blocks| :: Sound(blocks[k])
    ensures multiset(EntriesOf(blocks)) == multiset(Entries(p).value)
  {
    var entries, limit := Entries(p).value, ClampLimit(p.maxBlockSize);
    PlanCoversExactly(entries, limit, blocks);
    PlannedRequestsAreLegal(entries, limit, blocks);
    PlannedEntriesAreLegal(p, blocks);
    forall k | 0 <= k < |blocks|
      ensures Sound(blocks[k])
    {
      assert WithinLimit(blocks[k], limit) && CoversExactly(blocks[k]);
    }
  }

  /** The registers of a plan, up to order, each of them legal and answered. */
  lemma PlanIsPollable(link: Link, p: RegisterProfile, blocks: seq<Block>)
    requires Plan(p, blocks)
    requires forall e | e in Entries(p).value :: Answers(link, e)
    ensures forall k | 0 <= k < |blocks| :: Pollable(link, blocks[k])
    ensures multiset(EntriesOf(blocks)) == multiset(Entries(p).value)
  {
    PlanIsSound(p, blocks);
    SameMembers(EntriesOf(blocks), Entries(p).value);
    forall k, i | 0 <= k < |blocks| && 0 <= i < |blocks[k].entries|
      ensures Answers(link, blocks[k].entries[i])
    {
      EntriesOfHasAll(blocks, blocks[k], blocks[k].entries[i]);
    }
  }

  lemma BatchedMeasures(link: Link, o: Orders, memory: Memory, blocks: seq<Block>)
    requires Faithful(link, o, memory)
    requires forall k | 0 <= k < |blocks| :: Pollable(link, blocks[k])
    ensures Batched(link, o, blocks).measurements == Samples(memory, o, EntriesOf(blocks))
  {
    ReadBlocksMeasures(link, o, memory, blocks, |blocks|);
    assert blocks[..|blocks|] == blocks;
  }

  lemma BatchedSamples(link: Link, o: Orders, memory: Memory, entries: seq<Entry>, blocks: seq<Block>)
    requires Faithful(link, o, memory)
    requires forall k | 0 <= k < |blocks| :: Pollable(link, blocks[k])
    requires multiset(EntriesOf(blocks)) == multiset(entries)
    ensures multiset(Batched(link, o, blocks).measurements) == multiset(Samples(memory, o, entries))
  {
    BatchedMeasures(link, o, memory, blocks);
    FlatPermute(SampleOf(OwnValue(memory, o)), EntriesOf(blocks), entries);
  }

  lemma NaiveSamples(link: Link, o: Orders, memory: Memory, entries: seq<Entry>)
    requires Faithful(link, o, memory)
    requires forall e | e in entries :: e.Legal() && Answers(link, e)
    ensures Naive(link, o, entries).measurements == Samples(memory, o, entries)
  {
    SingleReadsMeasure(link, o, memory, entries, EMPTY_SWEEP);
    FlatToAll(SampleOf(OwnValue(memory, o)), entries);
  }

  // ----- from measurements to values -----

  /** The values map is the measurements replayed, the last one at an address winning. */
  function Replay(samples: seq<Sample>): map<int, Value> {
    if samples == [] then map[]
    else
      var last := samples[|samples| - 1];
      Replay(samples[..|samples| - 1])[last.registerAddress := last.rawValue]
  }

  ghost predicate Consistent(s: Sweep) {
    s.values == Replay(s.measurements)
  }

  lemma {:induction false} NoteAllKeepsConsistent(entries: seq<Entry>, n: nat, outcome: Entry -> Outcome, s: Sweep)
    requires n <= |entries| && Consistent(s)
    ensures Consistent(NoteAll(entries, n, outcome, s))
  {
    if n == 0 {
    } else {
      NoteAllKeepsConsistent(entries, n - 1, outcome, s);
      var before, after := NoteAll(entries, n - 1, outcome, s), NoteAll(entries, n, outcome, s);
      assert outcome(entries[n - 1]).Ok? ==> after.measurements[..|before.measurements|] == before.measurements;
    }
  }

  lemma ReadBlockKeepsConsistent(link: Link, o: Orders, b: Block, s: Sweep)
    requires Consistent(s)
    ensures Consistent(ReadBlock(link, o, b, s))
  {
    match ReadRegisters(link, o, b.functionCode, b.start, b.quantity)
    case Ok(regs) => NoteAllKeepsConsistent(b.entries, |b.entries|, InBlock(o, regs, b.start), s);
    case Err(reason) =>
      NoteAllKeepsConsistent(b.entries, |b.entries|, OnItsOwn(link, o), s.Fail(b.functionCode, b.start, b.quantity, reason));
  }

  lemma {:induction false} ReadBlocksConsistent(link: Link, o: Orders, blocks: seq<Block>, n: nat)
    requires n <= |blocks|
    ensures Consistent(ReadBlocks(link, o, blocks, n))
  {
    if n == 0 {
    } else {
      ReadBlocksConsistent(link, o, blocks, n - 1);
      ReadBlockKeepsConsistent(link, o, blocks[n - 1], ReadBlocks(link, o, blocks, n - 1));
    }
  }

  /** Measurements at one address agree. */
  ghost predicate Agreeing(samples: seq<Sample>) {
    forall x, y | x in samples && y in samples :: x.registerAddress == y.registerAddress ==> x.rawValue == y.rawValue
  }

  /** A values map that is exactly what the measurements say. */
  ghost predicate Shows(values: map<int, Value>, samples: seq<Sample>) {
    && (forall x | x in samples :: x.registerAddress in values && values[x.registerAddress] == x.rawValue)
    && (forall a | a in values :: exists x :: x in samples && x.registerAddress == a)
  }

  lemma {:induction false} ReplayShows(samples: seq<Sample>)
    requires Agreeing(samples)
    ensures Shows(Replay(samples), samples)
  {
    if samples == [] {
    } else {
      var n := |samples| - 1;
      var before, last := samples[..n], samples[n];
      assert samples == before + [last];
      ReplayShows(before);
      forall a | a in Replay(samples)
        ensures exists x :: x in samples && x.registerAddress == a
      {
        if a == last.registerAddress {
          assert last in samples;
        } else {
          var x :| x in before && x.registerAddress == a;
          assert x in samples;
        }
      }
    }
  }

  lemma ShowsIsUnique(v: map<int, Value>, w: map<int, Value>, a: seq<Sample>, b: seq<Sample>)
    requires Shows(v, a) && Shows(w, b) && multiset(a) == multiset(b)
    ensures v == w
  {
    SameMembers(a, b);
    forall k
      ensures k in v <==> k in w
      ensures k in v && k in w ==> v[k] == w[k]
    {
      if k in v {
        var x :| x in a && x.registerAddress == k;
        assert x in b;
      }
      if k in w {
        var x :| x in b && x.registerAddress == k;
        assert x in a;
      }
    }
  }

  /** No two enabled registers share a register address. */
  ghost predicate DistinctAddresses(entries: seq<Entry>) {
    forall i, j | 0 <= i < j < |entries| ::
      entries[i].definition.registerAddress != entries[j].definition.registerAddress
  }

  lemma DistinctAddressesAgree(memory: Memory, o: Orders, entries: seq<Entry>)
    requires DistinctAddresses(entries)
    ensures Agreeing(Samples(memory, o, entries))
  {
    var own := SampleOf(OwnValue(memory, o));
    forall x, y | x in Samples(memory, o, entries) && y in Samples(memory, o, entries) && x.registerAddress == y.registerAddress
      ensures x.rawValue == y.rawValue
    {
      var i := FlatMember(own, entries, x);
      var j := FlatMember(own, entries, y);
      assert i == j;
    }
  }

  /** If every enabled register's own read is answered and answers are device memory, then
      whichever block reads fail, a poll takes the same measurements as reading every register on
      its own. Its values, keyed by address, are exactly the registers' own when measurements at
      one address agree, and only then. */
  lemma BatchedMeasuresAsNaive(link: Link, memory: Memory, p: RegisterProfile, blocks: seq<Block>)
    requires Plan(p, blocks) && Faithful(link, OrdersOf(p), memory)
    requires forall e | e in Entries(p).value :: Answers(link, e)
    ensures
      var o, entries := OrdersOf(p), Entries(p).value;
      var batched, naive := Batched(link, o, blocks), Naive(link, o, entries);
      && multiset(batched.measurements) == multiset(naive.measurements)
      && naive.measurements == Samples(memory, o, entries)
      && (Agreeing(naive.measurements) ==> batched.values == naive.values)
      && (Agreeing(naive.measurements) <==> Shows(batched.values, Samples(memory, o, entries)))
  {
    var o, entries := OrdersOf(p), Entries(p).value;
    PlanIsPollable(link, p, blocks);
    BatchedSamples(link, o, memory, entries, blocks);
    NaiveSamples(link, o, memory, entries);
    ReadBlocksConsistent(link, o, blocks, |blocks|);
    NoteAllKeepsConsistent(entries, |entries|, OnItsOwn(link, o), EMPTY_SWEEP);
    SameValues(Batched(link, o, blocks), Naive(link, o, entries));
  }

  lemma SameValues(batched: Sweep, naive: Sweep)
    requires multiset(batched.measurements) == multiset(naive.measurements)
    requires Consistent(batched) && Consistent(naive)
    ensures Agreeing(naive.measurements) ==> batched.values == naive.values
    ensures Agreeing(naive.measurements) <==> Shows(batched.values, naive.measurements)
  {
    if Agreeing(naive.measurements) {
      SameMembers(batched.measurements, naive.measurements);
      ReplayShows(batched.measurements);
      ReplayShows(naive.measurements);
      ShowsIsUnique(batched.values, naive.values, batched.measurements, naive.measurements);
    }
  }

  // ----- any device at all -----

  /** What a register of a block comes to: a slice of the block's answer; if there is none, the
      reason when reading the register alone would repeat the request, and otherwise its own read. */
  function Fate(link: Link, o: Orders, b: Block): Entry -> Outcome {
    match ReadRegisters(link, o, b.functionCode, b.start, b.quantity)
    case Ok(regs) => InBlock(o, regs, b.start)
    case Err(reason) => if Irreducible(b) then (e: Entry) => Err(reason) else OnItsOwn(link, o)
  }

  function FailureOf(e: Entry, reason: Reason): Failure {
    Failure(e.FunctionCode(), e.offset, e.definition.length, reason)
  }

  /** Register i left a failure of its own if it came to no value. */
  ghost predicate FailureIsNoted(entries: seq<Entry>, i: nat, outcome: Outcome, failures: seq<Failure>)
    requires i < |entries|
  {
    outcome.Err? ==> FailureOf(entries[i], outcome.error) in failures
  }

  lemma NoteKeepsFailures(s: Sweep, e: Entry, outcome: Outcome)
    ensures forall f | f in s.failures :: f in Note(s, e, outcome).failures
    ensures e.Legal() && outcome.Err? ==> FailureOf(e, outcome.error) in Note(s, e, outcome).failures
  {
  }

  lemma {:induction false} NoteAllNotesFailures(entries: seq<Entry>, n: nat, outcome: Entry -> Outcome, s: Sweep)
    requires n <= |entries| && forall i | 0 <= i < |entries| :: entries[i].Legal()
    ensures
      var s' := NoteAll(entries, n, outcome, s);
      && (forall f | f in s.failures :: f in s'.failures)
      && (forall i | 0 <= i < n :: FailureIsNoted(entries, i, outcome(entries[i]), s'.failures))
  {
    if n == 0 {
    } else {
      NoteAllNotesFailures(entries, n - 1, outcome, s);
      NoteKeepsFailures(NoteAll(entries, n - 1, outcome, s), entries[n - 1], outcome(entries[n - 1]));
    }
  }

  /** The one register of an irreducible block is refused with the block: the block's failure is
      the register's own. */
  lemma IrreducibleFailure(b: Block, reason: Reason)
    requires LegalEntries(b) && CoversExactly(b) && Irreducible(b)
    ensures Failure(b.functionCode, b.start, b.quantity, reason) == FailureOf(b.entries[0], reason)
  {
    assert Inside(b.entries[0], b) && b.entries[0].Legal();
  }

  lemma ReadBlockAccounts(link: Link, o: Orders, b: Block, s: Sweep)
    requires LegalEntries(b) && CoversExactly(b)
    ensures
      var s' := ReadBlock(link, o, b, s);
      && s'.measurements == s.measurements + FlatTo(SampleOf(Fate(link, o, b)), b.entries, |b.entries|)
      && (forall f | f in s.failures :: f in s'.failures)
      && (forall i | 0 <= i < |b.entries| :: FailureIsNoted(b.entries, i, Fate(link, o, b)(b.entries[i]), s'.failures))
  {
    var fate := Fate(link, o, b);
    match ReadRegisters(link, o, b.functionCode, b.start, b.quantity)
    case Ok(_) =>
      NoteAllMeasures(b.entries, |b.entries|, fate, fate, s);
      NoteAllNotesFailures(b.entries, |b.entries|, fate, s);
    case Err(reason) =>
      var s' := s.Fail(b.functionCode, b.start, b.quantity, reason);
      assert Failure(b.functionCode, b.start, b.quantity, reason) in s'.failures;
      if Irreducible(b) {
        IrreducibleFailure(b, reason);
        assert FlatTo(SampleOf(fate), b.entries, 1) == FlatTo(SampleOf(fate), b.entries, 0) + [];
      } else {
        NoteAllMeasures(b.entries, |b.entries|, fate, fate, s');
        NoteAllNotesFailures(b.entries, |b.entries|, fate, s');
      }
  }

  /** The outcomes of the registers of a block, in order. */
  function OutcomesOf(entries: seq<Entry>, outcome: Entry -> Outcome): (outcomes: seq<Outcome>)
    ensures |outcomes| == |entries|
    ensures forall i | 0 <= i < |entries| :: outcomes[i] == outcome(entries[i])
  {
    seq(|entries|, i requires 0 <= i < |entries| => outcome(entries[i]))
  }

  /** The measurements that some outcomes make: one for each register that came to a value. */
  function Measured(entries: seq<Entry>, outcomes: seq<Outcome>, n: nat): seq<Sample>
    requires n <= |entries| == |outcomes|
  {
    if n == 0 then []
    else
      var e := entries[n - 1];
      match outcomes[n - 1]
      case Ok(raw) =>
        Measured(entries, outcomes, n - 1) + [Sample(e.FunctionCode(), e.definition.registerAddress, e.definition.dataType, raw)]
      case Err(_) => Measured(entries, outcomes, n - 1)
  }

  lemma {:induction false} MeasuredIsFlat(entries: seq<Entry>, outcome: Entry -> Outcome, n: nat)
    requires n <= |entries|
    ensures Measured(entries, OutcomesOf(entries, outcome), n) == FlatTo(SampleOf(outcome), entries, n)
  {
    if n == 0 {
    } else {
      MeasuredIsFlat(entries, outcome, n - 1);
    }
  }

  /** The outcomes of every register, block by block. */
  ghost predicate OutcomesFor(blocks: seq<Block>, outcomes: seq<seq<Outcome>>) {
    |outcomes| == |blocks| && forall k | 0 <= k < |blocks| :: |outcomes[k]| == |blocks[k].entries|
  }

  /** The measurements that the outcomes of the first n blocks make. */
  ghost function MeasuredTo(blocks: seq<Block>, outcomes: seq<seq<Outcome>>, n: nat): seq<Sample>
    requires n <= |blocks| && OutcomesFor(blocks, outcomes)
  {
    if n == 0 then []
    else MeasuredTo(blocks, outcomes, n - 1) + Measured(blocks[n - 1].entries, outcomes[n - 1], |outcomes[n - 1]|)
  }

  ghost predicate FailuresAreNoted(entries: seq<Entry>, outcomes: seq<Outcome>, failures: seq<Failure>)
    requires |outcomes| == |entries|
  {
    forall i | 0 <= i < |entries| :: FailureIsNoted(entries, i, outcomes[i], failures)
  }

  /** Every register of the first n blocks came to one outcome: those with a value are the
      measurements, and the others left their failures. */
  ghost predicate Accounts(s: Sweep, blocks: seq<Block>, outcomes: seq<seq<Outcome>>, n: nat)
    requires n <= |blocks| && OutcomesFor(blocks, outcomes)
  {
    && s.measurements == MeasuredTo(blocks, outcomes, n)
    && forall k | 0 <= k < n :: FailuresAreNoted(blocks[k].entries, outcomes[k], s.failures)
  }

  lemma MoreFailuresAreNoted(entries: seq<Entry>, outcomes: seq<Outcome>, before: seq<Failure>, after: seq<Failure>)
    requires |outcomes| == |entries| && FailuresAreNoted(entries, outcomes, before)
    requires forall f | f in before :: f in after
    ensures FailuresAreNoted(entries, outcomes, after)
  {
    forall i | 0 <= i < |entries|
      ensures FailureIsNoted(entries, i, outcomes[i], after)
    {
      assert FailureIsNoted(entries, i, outcomes[i], before);
    }
  }

  /** Block k is sound, and its outcomes are its registers' fates. */
  ghost predicate FatedAt(link: Link, o: Orders, blocks: seq<Block>, outcomes: seq<seq<Outcome>>, k: nat) {
    && k < |blocks| == |outcomes| && LegalEntries(blocks[k]) && CoversExactly(blocks[k])
    && outcomes[k] == OutcomesOf(blocks[k].entries, Fate(link, o, blocks[k]))
  }

  ghost function AccountsBy(link: Link, o: Orders, blocks: seq<Block>, outcomes: seq<seq<Outcome>>): nat -> bool
    requires OutcomesFor(blocks, outcomes)
  {
    (n: nat) => n <= |blocks| && Accounts(ReadBlocks(link, o, blocks, n), blocks, outcomes, n)
  }

  lemma AccountsForOneMore(link: Link, o: Orders, blocks: seq<Block>, outcomes: seq<seq<Outcome>>, n: nat, s: Sweep)
    requires FatedAt(link, o, blocks, outcomes, n)
    requires OutcomesFor(blocks, outcomes) && Accounts(s, blocks, outcomes, n)
    ensures Accounts(ReadBlock(link, o, blocks[n], s), blocks, outcomes, n + 1)
  {
    var b, s' := blocks[n], ReadBlock(link, o, blocks[n], s);
    ReadBlockAccounts(link, o, b, s);
    MeasuredIsFlat(b.entries, Fate(link, o, b), |b.entries|);
    forall k | 0 <= k < n
      ensures FailuresAreNoted(blocks[k].entries, outcomes[k], s'.failures)
    {
      MoreFailuresAreNoted(blocks[k].entries, outcomes[k], s.failures, s'.failures);
    }
    assert FailuresAreNoted(b.entries, outcomes[n], s'.failures);
  }

  lemma AccountsHandedOn(link: Link, o: Orders, blocks: seq<Block>, outcomes: seq<seq<Outcome>>, n: nat)
    requires OutcomesFor(blocks, outcomes) && FatedAt(link, o, blocks, outcomes, n)
    ensures HandsOn(AccountsBy(link, o, blocks, outcomes), n)
  {
    if AccountsBy(link, o, blocks, outcomes)(n) {
      AccountsForOneMore(link, o, blocks, outcomes, n, ReadBlocks(link, o, blocks, n));
    }
  }

  lemma NothingToAccountFor(link: Link, o: Orders, blocks: seq<Block>, outcomes: seq<seq<Outcome>>)
    requires OutcomesFor(blocks, outcomes)
    ensures AccountsBy(link, o, blocks, outcomes)(0)
  {
  }

  lemma ReadBlocksAccount(link: Link, o: Orders, blocks: seq<Block>, outcomes: seq<seq<Outcome>>, n: nat)
    requires n <= |blocks| && OutcomesFor(blocks, outcomes)
    requires forall k: nat | k < |blocks| :: FatedAt(link, o, blocks, outcomes, k)
    ensures AccountsBy(link, o, blocks, outcomes)(n)
  {
    NothingToAccountFor(link, o, blocks, outcomes);
    forall k: nat | k < n
      ensures HandsOn(AccountsBy(link, o, blocks, outcomes), k)
    {
      AccountsHandedOn(link, o, blocks, outcomes, k);
    }
    StepByStep(AccountsBy(link, o, blocks, outcomes), n);
  }

  /** Whatever the device does, nothing is skipped silently: every register of a plan, and so every
      enabled register, comes to one outcome, its fate on this link. The measurements are exactly
      those of the registers that came to a value, and every other register leaves a failure at its
      own function code, offset and length. */
  lemma NothingSkippedSilently(link: Link, p: RegisterProfile, blocks: seq<Block>) returns (outcomes: seq<seq<Outcome>>)
    requires Plan(p, blocks)
    ensures OutcomesFor(blocks, outcomes) && Accounts(Batched(link, OrdersOf(p), blocks), blocks, outcomes, |blocks|)
    ensures multiset(EntriesOf(blocks)) == multiset(Entries(p).value)
    ensures forall k | 0 <= k < |blocks| ::
      outcomes[k] == OutcomesOf(blocks[k].entries, Fate(link, OrdersOf(p), blocks[k]))
  {
    var o := OrdersOf(p);
    PlanCoversExactly(Entries(p).value, ClampLimit(p.maxBlockSize), blocks);
    PlannedEntriesAreLegal(p, blocks);
    outcomes := seq(|blocks|, k requires 0 <= k < |blocks| => OutcomesOf(blocks[k].entries, Fate(link, o, blocks[k])));
    forall k: nat | k < |blocks|
      ensures FatedAt(link, o, blocks, outcomes, k)
    {
    }
    ReadBlocksAccount(link, o, blocks, outcomes, |blocks|);
  }

  // ----- whichever requests fail -----

  /** As many of each element as in low, and no more than in high. */
  ghost predicate Between<T>(low: seq<T>, s: seq<T>, high: seq<T>) {
    multiset(low) <= multiset(s) <= multiset(high)
  }

  lemma BetweenAppend<T>(low: seq<T>, s: seq<T>, high: seq<T>, low': seq<T>, s': seq<T>, high': seq<T>)
    requires Between(low, s, high) && Between(low', s', high')
    ensures Between(low + low', s + s', high + high')
  {
  }

  ghost predicate BetweenAt(low: Entry -> seq<Sample>, f: Entry -> seq<Sample>, high: Entry -> seq<Sample>, e: Entry) {
    Between(low(e), f(e), high(e))
  }

  lemma {:induction false} FlatBetween(
    low: Entry -> seq<Sample>, f: Entry -> seq<Sample>, high: Entry -> seq<Sample>, entries: seq<Entry>, n: nat)
    requires n <= |entries| && forall i | 0 <= i < n :: BetweenAt(low, f, high, entries[i])
    ensures Between(FlatTo(low, entries, n), FlatTo(f, entries, n), FlatTo(high, entries, n))
  {
    if n == 0 {
    } else {
      FlatBetween(low, f, high, entries, n - 1);
      var e := entries[n - 1];
      assert BetweenAt(low, f, high, e);
      BetweenAppend(FlatTo(low, entries, n - 1), FlatTo(f, entries, n - 1), FlatTo(high, entries, n - 1), low(e), f(e), high(e));
    }
  }

  /** A register whose own read comes to a value comes to its memory's value. */
  lemma OwnReadIsTrue(link: Link, o: Orders, memory: Memory, e: Entry)
    requires e.Legal() && Faithful(link, o, memory) && OnItsOwn(link, o)(e).Ok?
    ensures OnItsOwn(link, o)(e) == OwnValue(memory, o)(e)
  {
    AloneIsOwn(link, o, memory, e);
  }

  /** In an answered block every register comes to its memory's value. */
  lemma AnsweredFateIsTrue(link: Link, o: Orders, memory: Memory, b: Block, e: Entry)
    requires Sound(b) && Faithful(link, o, memory) && Inside(e, b) && e.Legal()
    requires link(b.functionCode, b.start, b.quantity).Bytes?
    ensures Fate(link, o, b)(e) == OwnValue(memory, o)(e)
  {
    InBlockIsOwn(memory, o, e, b.start, b.quantity);
  }

  /** In a refused block every register comes to what its own read comes to, or to no value where
      that read would be the same request again. */
  lemma RefusedFate(link: Link, o: Orders, b: Block, e: Entry)
    requires Sound(b) && e in b.entries
    requires !link(b.functionCode, b.start, b.quantity).Bytes?
    ensures Fate(link, o, b)(e) == OnItsOwn(link, o)(e) || (Fate(link, o, b)(e).Err? && OnItsOwn(link, o)(e).Err?)
  {
    if Irreducible(b) {
      OnlyEntry(b, e);
    }
  }

  /** The one register of an irreducible block makes the block's own request. */
  lemma OnlyEntry(b: Block, e: Entry)
    requires Sound(b) && Irreducible(b) && e in b.entries
    ensures e.FunctionCode() == b.functionCode && e.offset == b.start && ToUint16(e.definition.length) == b.quantity
  {
    assert Inside(b.entries[0], b) && b.entries[0].Legal();
  }

  /** A block's registers lose nothing to being read together, and gain nothing but the truth. */
  lemma FateIsBetween(link: Link, o: Orders, memory: Memory, b: Block, e: Entry)
    requires Sound(b) && Faithful(link, o, memory) && e in b.entries
    ensures OnItsOwn(link, o)(e).Ok? ==> Fate(link, o, b)(e) == OnItsOwn(link, o)(e)
    ensures Fate(link, o, b)(e).Ok? ==> Fate(link, o, b)(e) == OwnValue(memory, o)(e)
  {
    assert Inside(e, b) && e.Legal();
    if OnItsOwn(link, o)(e).Ok? {
      OwnReadIsTrue(link, o, memory, e);
    }
    if link(b.functionCode, b.start, b.quantity).Bytes? {
      AnsweredFateIsTrue(link, o, memory, b, e);
    } else {
      RefusedFate(link, o, b, e);
    }
  }

  lemma SamplesAreBetween(own: Entry -> Outcome, fate: Entry -> Outcome, truth: Entry -> Outcome, e: Entry)
    requires own(e).Ok? ==> fate(e) == own(e)
    requires fate(e).Ok? ==> fate(e) == truth(e)
    ensures BetweenAt(SampleOf(own), SampleOf(fate), SampleOf(truth), e)
  {
  }

  lemma BlockIsBetween(link: Link, o: Orders, memory: Memory, b: Block)
    requires Sound(b) && Faithful(link, o, memory)
    ensures Between(
      Flat(SampleOf(OnItsOwn(link, o)), b.entries),
      Flat(SampleOf(Fate(link, o, b)), b.entries),
      Flat(SampleOf(OwnValue(memory, o)), b.entries))
  {
    var own, fate, truth := OnItsOwn(link, o), Fate(link, o, b), OwnValue(memory, o);
    forall i | 0 <= i < |b.entries|
      ensures BetweenAt(SampleOf(own), SampleOf(fate), SampleOf(truth), b.entries[i])
    {
      FateIsBetween(link, o, memory, b, b.entries[i]);
      SamplesAreBetween(own, fate, truth, b.entries[i]);
    }
    FlatBetween(SampleOf(own), SampleOf(fate), SampleOf(truth), b.entries, |b.entries|);
    FlatToAll(SampleOf(own), b.entries);
    FlatToAll(SampleOf(fate), b.entries);
    FlatToAll(SampleOf(truth), b.entries);
  }

  lemma ReadBlockIsBetween(link: Link, o: Orders, memory: Memory, b: Block, s: Sweep, low: seq<Sample>, high: seq<Sample>)
    requires Sound(b) && Faithful(link, o, memory) && Between(low, s.measurements, high)
    ensures Between(
      low + Flat(SampleOf(OnItsOwn(link, o)), b.entries),
      ReadBlock(link, o, b, s).measurements,
      high + Flat(SampleOf(OwnValue(memory, o)), b.entries))
  {
    BlockIsBetween(link, o, memory, b);
    ReadBlockAccounts(link, o, b, s);
    FlatToAll(SampleOf(Fate(link, o, b)), b.entries);
    BetweenAppend(low, s.measurements, high,
      Flat(SampleOf(OnItsOwn(link, o)), b.entries), Flat(SampleOf(Fate(link, o, b)), b.entries), Samples(memory, o, b.entries));
  }

  ghost predicate SweepIsBetween(link: Link, o: Orders, memory: Memory, blocks: seq<Block>, n: nat) {
    n <= |blocks| &&
    Between(
      Flat(SampleOf(OnItsOwn(link, o)), EntriesOf(blocks[..n])),
      ReadBlocks(link, o, blocks, n).measurements,
      Samples(memory, o, EntriesOf(blocks[..n])))
  }

  lemma OneMoreBlockIsBetween(link: Link, o: Orders, memory: Memory, blocks: seq<Block>, n: nat)
    requires n < |blocks| && Sound(blocks[n]) && Faithful(link, o, memory)
    requires SweepIsBetween(link, o, memory, blocks, n)
    ensures SweepIsBetween(link, o, memory, blocks, n + 1)
  {
    var own, truth := SampleOf(OnItsOwn(link, o)), SampleOf(OwnValue(memory, o));
    var before := EntriesOf(blocks[..n]);
    EntriesOfPrefix(blocks, n + 1);
    FlatAppend(own, before, blocks[n].entries);
    FlatAppend(truth, before, blocks[n].entries);
    ReadBlockIsBetween(link, o, memory, blocks[n], ReadBlocks(link, o, blocks, n), Flat(own, before), Flat(truth, before));
  }

  lemma ReadBlocksIsBetween(link: Link, o: Orders, memory: Memory, blocks: seq<Block>, n: nat)
    requires n <= |blocks| && Faithful(link, o, memory)
    requires forall k | 0 <= k < |blocks| :: Sound(blocks[k])
    ensures SweepIsBetween(link, o, memory, blocks, n)
  {
    var p := (k: nat) => SweepIsBetween(link, o, memory, blocks, k);
    forall k: nat | k < n
      ensures HandsOn(p, k)
    {
      if p(k) {
        OneMoreBlockIsBetween(link, o, memory, blocks, k);
      }
    }
    StepByStep(p, n);
  }

  lemma NaiveIsFlat(link: Link, o: Orders, entries: seq<Entry>)
    ensures Naive(link, o, entries).measurements == Flat(SampleOf(OnItsOwn(link, o)), entries)
  {
    NoteAllMeasures(entries, |entries|, OnItsOwn(link, o), OnItsOwn(link, o), EMPTY_SWEEP);
    FlatToAll(SampleOf(OnItsOwn(link, o)), entries);
  }

  lemma SweepOfPlanIsBetween(link: Link, o: Orders, memory: Memory, entries: seq<Entry>, blocks: seq<Block>)
    requires Faithful(link, o, memory) && multiset(EntriesOf(blocks)) == multiset(entries)
    requires forall k | 0 <= k < |blocks| :: Sound(blocks[k])
    ensures Between(Naive(link, o, entries).measurements, Batched(link, o, blocks).measurements, Samples(memory, o, entries))
  {
    ReadBlocksIsBetween(link, o, memory, blocks, |blocks|);
    assert blocks[..|blocks|] == blocks;
    NaiveIsFlat(link, o, entries);
    FlatPermute(SampleOf(OnItsOwn(link, o)), EntriesOf(blocks), entries);
    FlatPermute(SampleOf(OwnValue(memory, o)), EntriesOf(blocks), entries);
  }

  lemma ValuesAreBetween(naive: Sweep, batched: Sweep, truth: seq<Sample>)
    requires Between(naive.measurements, batched.measurements, truth) && Agreeing(truth)
    requires Consistent(naive) && Consistent(batched)
    ensures naive.values.Keys <= batched.values.Keys
    ensures forall a | a in naive.values :: batched.values[a] == naive.values[a]
    ensures Shows(batched.values, batched.measurements)
  {
    MembersBetween(naive.measurements, batched.measurements, truth);
    ReplayShows(batched.measurements);
    ReplayShows(naive.measurements);
    forall a | a in naive.values
      ensures a in batched.values && batched.values[a] == naive.values[a]
    {
      var x :| x in naive.measurements && x.registerAddress == a;
      assert x in batched.measurements;
    }
  }

  lemma MembersBetween<T>(low: seq<T>, s: seq<T>, high: seq<T>)
    requires Between(low, s, high)
    ensures forall x | x in low :: x in s
    ensures forall x | x in s :: x in high
  {
    forall x
      ensures x in low ==> x in s
      ensures x in s ==> x in high
    {
      assert x in low <==> x in multiset(low);
      assert x in s <==> x in multiset(s);
      assert x in high <==> x in multiset(high);
    }
  }

  /** Whichever requests fail, whole blocks or single registers: as long as answers are device
      memory, a batched poll takes every measurement that reading each register on its own takes,
      and no measurement that is not the register's own value. When those values agree at each
      address, the batched poll's values extend the other's. */
  lemma BatchingNeverMeasuresLess(link: Link, memory: Memory, p: RegisterProfile, blocks: seq<Block>)
    requires Plan(p, blocks) && Faithful(link, OrdersOf(p), memory)
    ensures
      var o, entries := OrdersOf(p), Entries(p).value;
      var batched, naive := Batched(link, o, blocks), Naive(link, o, entries);
      && multiset(naive.measurements) <= multiset(batched.measurements) <= multiset(Samples(memory, o, entries))
      && (Agreeing(Samples(memory, o, entries)) ==>
            && naive.values.Keys <= batched.values.Keys
            && (forall a | a in naive.values :: batched.values[a] == naive.values[a])
            && Shows(batched.values, batched.measurements))
  {
    var o, entries := OrdersOf(p), Entries(p).value;
    PlanIsSound(p, blocks);
    SweepOfPlanIsBetween(link, o, memory, entries, blocks);
    ReadBlocksConsistent(link, o, blocks, |blocks|);
    NoteAllKeepsConsistent(entries, |entries|, OnItsOwn(link, o), EMPTY_SWEEP);
    if Agreeing(Samples(memory, o, entries)) {
      ValuesAreBetween(Naive(link, o, entries), Batched(link, o, blocks), Samples(memory, o, entries));
    }
  }
}
