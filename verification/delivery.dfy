/** The drain and acknowledge protocol between the gateway's outbox and the platform
    (realtimeclient/client.go and the platform's telemetry puller), over a channel that may lose,
    repeat and delay messages. */
module Delivery {
  import opened Domain
  import opened Integers
  import opened Outbox

  /** A reading as the platform received it, under the id it came with. */
  datatype Arrival = Arrival(id: int, payload: Reading)

  /** Messages are never taken off the channel: one may arrive at any later time, more than once,
      or never. The other fields record what has happened: the readings created; those that arrived
      at the platform, those it kept, and those it dropped, that is rejected although it acknowledged
      their batch; and the rows given up on. */
  datatype State = State(
    rows: seq<Row>, nextId: int,
    replies: set<seq<Event>>, acks: set<seq<int>>,
    created: map<int, Reading>, received: set<Arrival>, kept: set<Arrival>, dropped: set<Arrival>, dead: set<int>)

  const START := State([], 1, {}, {}, map[], {}, {}, {}, {})

  datatype Step =
    | Store(key: ReadingKey, payload: Reading, now: int)
    | TakeOtherId
    | Configure(ids: seq<int>)
    | Drain(requested: int, now: int)
    | Ingest(reply: seq<Event>, kept: set<Arrival>)
    | Acknowledge(ids: seq<int>, now: int)
    | ReportFailure(ids: seq<int>, retry: bool, now: int)
    | ClearLogs
    | CleanUp(cut: int)

  /** The batch size of a drain command. */
  function DrainSize(requested: int): (size: int)
    ensures 1 <= size <= 500
    ensures size == requested <==> 1 <= requested <= 500
    ensures size != requested ==> size == 20
  {
    if requested <= 0 || requested > 500 then 20 else requested
  }

  function IdsOf(reply: seq<Event>): (ids: seq<int>)
    ensures |ids| == |reply| && forall i | 0 <= i < |ids| :: ids[i] == reply[i].id
  {
    seq(|reply|, i requires 0 <= i < |reply| => reply[i].id)
  }

  function Arrivals(reply: seq<Event>): set<Arrival> {
    set e <- reply :: Arrival(e.id, e.payload)
  }

  function IdSet(ids: seq<int>): set<int> {
    set id <- ids :: id
  }

  function RowIds(rows: seq<Row>): set<int> {
    set r <- rows :: r.id
  }

  /** A message must have been sent before it is handled. The platform keeps some readings of a batch
      and rejects the others; one it had already counts as kept. */
  predicate Possible(s: State, step: Step) {
    match step
    case Ingest(reply, kept) => reply in s.replies && kept <= Arrivals(reply)
    case Acknowledge(ids, _) => ids in s.acks
    case Configure(ids) => forall i | 0 <= i < |ids| :: IsInt64(ids[i])
    case _ => true
  }

  /** The id counter stays below the largest int64. */
  predicate CounterHolds(s: State, step: Step) {
    match step
    case Store(_, _, _) | TakeOtherId => s.nextId != MAX_INT64
    case Configure(ids) => MAX_INT64 !in ids
    case _ => true
  }

  /** The platform acknowledges a whole batch once it has kept one reading of it. */
  function Next(s: State, step: Step): State {
    match step
    case Store(key, payload, now) =>
      if HasKey(s.rows, key) then s
      else s.(rows := Enqueued(s.rows, s.nextId, key, payload, now),
              nextId := Increment(s.nextId),
              created := s.created[s.nextId := payload])
    case TakeOtherId => s.(nextId := Increment(s.nextId))
    case Configure(ids) => s.(nextId := Lift(s.nextId, ids))
    case Drain(requested, now) => s.(replies := s.replies + {ReadyEvents(s.rows, DrainSize(requested), now)})
    case Ingest(reply, kept) =>
      var s' := s.(received := s.received + Arrivals(reply), kept := s.kept + kept);
      if kept == {} then s' else s'.(acks := s.acks + {IdsOf(reply)}, dropped := s.dropped + (Arrivals(reply) - kept))
    case Acknowledge(ids, now) => s.(rows := AllDelivered(s.rows, ids, now))
    case ReportFailure(ids, retry, now) =>
      s.(rows := AllFailed(s.rows, ids, retry, now),
         dead := if retry then s.dead else s.dead + IdSet(ids) * RowIds(s.rows))
    case ClearLogs => s.(rows := Keep(s.rows, Settled()))
    case CleanUp(cut) => s.(rows := Keep(s.rows, Expired(cut)))
  }

  function After(steps: seq<Step>, n: nat): State
    requires n <= |steps|
  {
    if n == 0 then START else Next(After(steps, n - 1), steps[n - 1])
  }

  ghost predicate CanStep(steps: seq<Step>, k: nat)
    requires k < |steps|
  {
    Possible(After(steps, k), steps[k]) && CounterHolds(After(steps, k), steps[k])
  }

  /** A run whose counter never wraps. */
  ghost predicate Run(steps: seq<Step>) {
    forall k | 0 <= k < |steps| :: CanStep(steps, k)
  }

  // ----- the gateway's two commands -----

  /** telemetry.drain: nothing is marked; the rows are read again until they are acknowledged. */
  method HandleDrain(store: FileStore, requested: int, now: int) returns (ids: seq<int>, readings: seq<Reading>)
    ensures |ids| == |readings| == |ReadyEvents(store.outbox, DrainSize(requested), now)|
    ensures ids == IdsOf(ReadyEvents(store.outbox, DrainSize(requested), now))
    ensures forall i | 0 <= i < |readings| :: readings[i] == ReadyEvents(store.outbox, DrainSize(requested), now)[i].payload
  {
    var batchSize := requested;
    if batchSize <= 0 || batchSize > 500 {
      batchSize := 20;
    }
    var events := store.Ready(batchSize, now);
    ids, readings := [], [];
    for i := 0 to |events|
      invariant |ids| == |readings| == i
      invariant forall k | 0 <= k < i :: ids[k] == events[k].id && readings[k] == events[k].payload
    {
      ids := ids + [events[i].id];
      readings := readings + [events[i].payload];
    }
  }

  /** telemetry.ack. */
  method HandleAck(store: FileStore, ids: seq<int>, now: int)
    modifies store`outbox
    ensures store.outbox == AllDelivered(old(store.outbox), ids, now)
  {
    store.MarkAsDelivered(ids, now);
  }

  // ----- the invariant -----

  predicate Known(created: map<int, Reading>, id: int, payload: Reading) {
    id in created && created[id] == payload
  }

  /** What the platform has acknowledged: it kept the reading, or dropped it. */
  predicate Decided(s: State, a: Arrival) {
    a in s.kept || a in s.dropped
  }

  predicate RowHolds(s: State, r: Row) {
    && Known(s.created, r.id, r.payload)
    && (r.status == Delivered ==> Decided(s, Arrival(r.id, r.payload)))
    && (r.status == DeadLetter ==> r.id in s.dead)
  }

  predicate ReplyHolds(s: State, reply: seq<Event>) {
    forall e | e in reply :: Known(s.created, e.id, e.payload)
  }

  predicate AckHolds(s: State, ids: seq<int>) {
    forall id | id in ids :: id in s.created && Decided(s, Arrival(id, s.created[id]))
  }

  ghost predicate HasAck(acks: set<seq<int>>, id: int) {
    exists ids :: ids in acks && id in ids
  }

  predicate IsWaiting(rows: seq<Row>, id: int) {
    exists i | 0 <= i < |rows| :: rows[i].id == id && Waiting(rows[i])
  }

  /** A reading that was created is waiting in the outbox, or the platform kept it, or dropped it, or
      it was given up on. */
  predicate Accounted(s: State, id: int)
    requires id in s.created
  {
    IsWaiting(s.rows, id) || Decided(s, Arrival(id, s.created[id])) || id in s.dead
  }

  ghost predicate Inv(s: State) {
    && IsInt64(s.nextId)
    && (forall id | id in s.created :: id < s.nextId && Accounted(s, id))
    && Ordered(s.rows)
    && (forall i | 0 <= i < |s.rows| :: RowHolds(s, s.rows[i]))
    && (forall reply | reply in s.replies :: ReplyHolds(s, reply))
    && (forall ids | ids in s.acks :: AckHolds(s, ids))
    && (forall a | a in s.received :: Known(s.created, a.id, a.payload))
    && s.kept <= s.received && s.dropped <= s.received
    && (forall a | a in s.dropped :: HasAck(s.acks, a.id))
    && (forall id | id in s.dead :: id in s.created)
  }

  lemma StoreKeeps(s: State, key: ReadingKey, payload: Reading, now: int)
    requires Inv(s) && s.nextId != MAX_INT64
    ensures Inv(Next(s, Store(key, payload, now)))
  {
    var s' := Next(s, Store(key, payload, now));
    if !HasKey(s.rows, key) {
      assert s.nextId !in s.created;
      forall id | id in s'.created
        ensures Accounted(s', id)
      {
        if id == s.nextId {
          assert s'.rows[|s.rows|].id == id;
        } else {
          assert forall i | 0 <= i < |s.rows| :: s'.rows[i] == s.rows[i];
          StillAccounted(s, s', id);
        }
      }
      forall i | 0 <= i < |s'.rows|
        ensures RowHolds(s', s'.rows[i])
      {
        assert i < |s.rows| ==> RowHolds(s, s'.rows[i]);
      }
      forall ids | ids in s'.acks
        ensures AckHolds(s', ids)
      {
        assert AckHolds(s, ids);
      }
      assert forall id | id in s.dead :: id in s'.created;
    }
  }

  /** A reading stays accounted for while its row, if waiting, is still there and waiting. */
  lemma StillAccounted(s: State, s': State, id: int)
    requires id in s.created && Accounted(s, id)
    requires id in s'.created && s'.created[id] == s.created[id]
    requires s.kept <= s'.kept && s.dropped <= s'.dropped && s.dead <= s'.dead
    requires IsWaiting(s.rows, id) ==> IsWaiting(s'.rows, id) || Decided(s', Arrival(id, s.created[id])) || id in s'.dead
    ensures Accounted(s', id)
  {
  }

  lemma DrainKeeps(s: State, requested: int, now: int)
    requires Inv(s)
    ensures Inv(Next(s, Drain(requested, now)))
  {
    EligibleMeaning(s.rows, |s.rows|, now);
    var events := ReadyEvents(s.rows, DrainSize(requested), now);
    forall e | e in events
      ensures Known(s.created, e.id, e.payload)
    {
      assert OfEligible(e, s.rows, |s.rows|, now);
    }
    assert ReplyHolds(s, events);
    assert forall id | id in s.created :: Accounted(s, id);
  }

  lemma IngestKeeps(s: State, reply: seq<Event>, kept: set<Arrival>)
    requires Inv(s) && Possible(s, Ingest(reply, kept))
    ensures Inv(Next(s, Ingest(reply, kept)))
  {
    var s' := Next(s, Ingest(reply, kept));
    assert ReplyHolds(s, reply);
    forall id | id in s'.created
      ensures Accounted(s', id)
    {
      StillAccounted(s, s', id);
    }
    forall i | 0 <= i < |s'.rows|
      ensures RowHolds(s', s'.rows[i])
    {
      assert RowHolds(s, s.rows[i]);
    }
    forall ids | ids in s'.acks
      ensures AckHolds(s', ids)
    {
      if ids in s.acks {
        assert AckHolds(s, ids);
      } else {
        BatchIsDecided(s', reply);
      }
    }
    forall a | a in s'.dropped
      ensures HasAck(s'.acks, a.id)
    {
      if a in s.dropped {
        var ids :| ids in s.acks && a.id in ids;
        assert ids in s'.acks;
      } else {
        var i :| 0 <= i < |reply| && reply[i].id == a.id;
        assert IdsOf(reply)[i] == a.id;
      }
    }
  }

  lemma BatchIsDecided(s: State, reply: seq<Event>)
    requires ReplyHolds(s, reply) && forall a | a in Arrivals(reply) :: Decided(s, a)
    ensures AckHolds(s, IdsOf(reply))
  {
    forall id | id in IdsOf(reply)
      ensures id in s.created && Decided(s, Arrival(id, s.created[id]))
    {
      var i :| 0 <= i < |reply| && reply[i].id == id;
      assert Arrival(id, reply[i].payload) in Arrivals(reply);
    }
  }

  lemma AcknowledgeKeeps(s: State, ids: seq<int>, now: int)
    requires Inv(s) && ids in s.acks
    ensures Inv(Next(s, Acknowledge(ids, now)))
  {
    var s' := Next(s, Acknowledge(ids, now));
    assert AckHolds(s, ids);
    forall i | 0 <= i < |s'.rows|
      ensures RowHolds(s', s'.rows[i])
    {
      assert RowHolds(s, s.rows[i]);
    }
    forall id | id in s'.created
      ensures Accounted(s', id)
    {
      AcknowledgedRow(s, ids, now, id);
      StillAccounted(s, s', id);
    }
  }

  /** A row stops waiting by an acknowledgement only if it is named there. */
  lemma AcknowledgedRow(s: State, ids: seq<int>, now: int, id: int)
    requires Inv(s) && ids in s.acks && id in s.created
    ensures IsWaiting(s.rows, id) && id !in ids ==> IsWaiting(AllDelivered(s.rows, ids, now), id)
    ensures id in ids ==> Decided(s, Arrival(id, s.created[id]))
  {
    assert AckHolds(s, ids);
    if IsWaiting(s.rows, id) && id !in ids {
      var i :| 0 <= i < |s.rows| && s.rows[i].id == id && Waiting(s.rows[i]);
      assert AllDelivered(s.rows, ids, now)[i] == s.rows[i];
    }
  }

  lemma FailureKeeps(s: State, ids: seq<int>, retry: bool, now: int)
    requires Inv(s)
    ensures Inv(Next(s, ReportFailure(ids, retry, now)))
  {
    var s' := Next(s, ReportFailure(ids, retry, now));
    forall i | 0 <= i < |s'.rows|
      ensures RowHolds(s', s'.rows[i])
    {
      assert RowHolds(s, s.rows[i]) && s.rows[i].id in RowIds(s.rows);
    }
    forall id | id in s'.dead
      ensures id in s'.created
    {
      if id !in s.dead {
        var r :| r in s.rows && r.id == id;
        assert RowHolds(s, r);
      }
    }
    forall id | id in s'.created
      ensures Accounted(s', id)
    {
      if IsWaiting(s.rows, id) {
        var i :| 0 <= i < |s.rows| && s.rows[i].id == id && Waiting(s.rows[i]);
        assert s'.rows[i].id == id && (Waiting(s'.rows[i]) || id in s'.dead) by {
          assert s.rows[i] in s.rows && id in RowIds(s.rows);
        }
      }
      StillAccounted(s, s', id);
    }
  }

  lemma KeptRowsKeep(s: State, kept: seq<Row>)
    requires Inv(s) && Ordered(kept)
    requires forall r | r in kept :: r in s.rows
    requires forall r | r in s.rows && Waiting(r) :: r in kept
    ensures Inv(s.(rows := kept))
  {
    var s' := s.(rows := kept);
    forall k | 0 <= k < |kept|
      ensures RowHolds(s', kept[k])
    {
      assert kept[k] in kept && kept[k] in s.rows;
      assert RowHolds(s, kept[k]);
    }
    forall id | id in s'.created
      ensures Accounted(s', id)
    {
      if IsWaiting(s.rows, id) {
        var i :| 0 <= i < |s.rows| && s.rows[i].id == id && Waiting(s.rows[i]);
        assert s.rows[i] in kept;
      }
      StillAccounted(s, s', id);
    }
  }

  lemma KeepKeeps(s: State, drop: Row -> bool)
    requires Inv(s)
    requires forall r | Waiting(r) :: !drop(r)
    ensures Inv(s.(rows := Keep(s.rows, drop)))
  {
    KeptAreThose(s.rows, drop, |s.rows|);
    KeptAreOrdered(s.rows, drop, |s.rows|);
    assert forall r :: r in s.rows <==> exists i | 0 <= i < |s.rows| :: s.rows[i] == r;
    KeptRowsKeep(s, Keep(s.rows, drop));
  }

  lemma StepKeeps(s: State, step: Step)
    requires Inv(s) && Possible(s, step) && CounterHolds(s, step)
    ensures Inv(Next(s, step))
  {
    match step
    case Store(key, payload, now) => StoreKeeps(s, key, payload, now);
    case TakeOtherId => assert forall id | id in s.created :: Accounted(s, id);
    case Configure(ids) =>
      LiftingGrows(s.nextId, ids, |ids|);
      assert forall id | id in s.created :: Accounted(s, id);
    case Drain(requested, now) => DrainKeeps(s, requested, now);
    case Ingest(reply, kept) => IngestKeeps(s, reply, kept);
    case Acknowledge(ids, now) => AcknowledgeKeeps(s, ids, now);
    case ReportFailure(ids, retry, now) => FailureKeeps(s, ids, retry, now);
    case ClearLogs => KeepKeeps(s, Settled());
    case CleanUp(cut) => KeepKeeps(s, Expired(cut));
  }

  lemma {:induction false} RunKeeps(steps: seq<Step>, n: nat)
    requires Run(steps) && n <= |steps|
    ensures Inv(After(steps, n))
  {
    if n == 0 {
    } else {
      RunKeeps(steps, n - 1);
      assert CanStep(steps, n - 1);
      StepKeeps(After(steps, n - 1), steps[n - 1]);
    }
  }

  // ----- what a run guarantees -----

  /** No step of the run gives a reading up. */
  ghost predicate NeverGivesUp(steps: seq<Step>) {
    forall k | 0 <= k < |steps| :: steps[k].ReportFailure? ==> steps[k].retry
  }

  lemma {:induction false} NothingIsDead(steps: seq<Step>, n: nat)
    requires NeverGivesUp(steps) && n <= |steps|
    ensures After(steps, n).dead == {}
  {
    if n == 0 {
    } else {
      NothingIsDead(steps, n - 1);
    }
  }

  /** The platform keeps whole batches or nothing of them. */
  ghost predicate NeverSplits(steps: seq<Step>) {
    forall k | 0 <= k < |steps| :: steps[k].Ingest? ==> steps[k].kept == {} || steps[k].kept == Arrivals(steps[k].reply)
  }

  lemma {:induction false} NothingIsDropped(steps: seq<Step>, n: nat)
    requires NeverSplits(steps) && n <= |steps|
    ensures After(steps, n).dropped == {}
  {
    if n == 0 {
    } else {
      NothingIsDropped(steps, n - 1);
    }
  }

  /** Whatever the channel does, at every moment of a run each created reading is waiting in the
      outbox, or was kept by the platform as it was created, or was dropped by it or given up on. It
      drops nothing unless it keeps some of a batch and rejects the rest, and nothing is given up on
      unless a failure report says so of a row that is there. */
  lemma NoReadingIsLost(steps: seq<Step>, n: nat, id: int)
    requires Run(steps) && n <= |steps| && id in After(steps, n).created
    ensures
      var s := After(steps, n);
      var a := Arrival(id, s.created[id]);
      && (IsWaiting(s.rows, id) || a in s.kept || a in s.dropped || id in s.dead)
      && (NeverSplits(steps) ==> s.dropped == {})
      && (NeverGivesUp(steps) ==> s.dead == {})
  {
    RunKeeps(steps, n);
    assert Accounted(After(steps, n), id);
    if NeverSplits(steps) {
      NothingIsDropped(steps, n);
    }
    if NeverGivesUp(steps) {
      NothingIsDead(steps, n);
    }
  }

  /** Neither waiting nor kept. */
  ghost predicate Lost(s: State, id: int)
    requires id in s.created
  {
    !IsWaiting(s.rows, id) && Arrival(id, s.created[id]) !in s.kept
  }

  /** Which readings an acknowledgement can lose: a waiting reading that the platform has not kept
      can be lost by one on its way if and only if the platform dropped it. */
  lemma LostIffDropped(s: State, id: int, now: int)
    requires Inv(s) && id in s.created && IsWaiting(s.rows, id) && Arrival(id, s.created[id]) !in s.kept
    ensures (exists ids | ids in s.acks :: Lost(Next(s, Acknowledge(ids, now)), id)) <==> Arrival(id, s.created[id]) in s.dropped
  {
    var a := Arrival(id, s.created[id]);
    if a in s.dropped {
      assert HasAck(s.acks, id);
      var ids :| ids in s.acks && id in ids;
      assert forall i | 0 <= i < |s.rows| && s.rows[i].id == id :: AllDelivered(s.rows, ids, now)[i].status == Delivered;
      assert Lost(Next(s, Acknowledge(ids, now)), id);
    }
    if ids :| ids in s.acks && Lost(Next(s, Acknowledge(ids, now)), id) {
      AcknowledgedRow(s, ids, now, id);
    }
  }

  /** Nothing the platform receives is made up, and a row is marked delivered only when its own
      reading was received, and kept or dropped, however late the acknowledgement. */
  lemma DeliveredWasReceived(steps: seq<Step>, n: nat)
    requires Run(steps) && n <= |steps|
    ensures
      var s := After(steps, n);
      && (forall a | a in s.received :: Known(s.created, a.id, a.payload))
      && (forall i | 0 <= i < |s.rows| && s.rows[i].status == Delivered ::
            var a := Arrival(s.rows[i].id, s.rows[i].payload);
            a in s.received && (a in s.kept || a in s.dropped))
  {
    RunKeeps(steps, n);
    var s := After(steps, n);
    assert forall i | 0 <= i < |s.rows| :: RowHolds(s, s.rows[i]);
  }

  /** Everything created before is still created, with the same reading, and what is new has an
      id above everything there was. */
  ghost predicate Grows(before: State, after: State) {
    && before.nextId <= after.nextId
    && (forall id | id in before.created :: id < before.nextId && Known(after.created, id, before.created[id]))
    && (forall id | id in after.created && id !in before.created :: before.nextId <= id)
  }

  lemma StepGrows(s: State, step: Step)
    requires Inv(s) && Possible(s, step) && CounterHolds(s, step)
    ensures Grows(s, Next(s, step))
  {
    if step.Configure? {
      LiftingGrows(s.nextId, step.ids, |step.ids|);
    }
  }

  lemma GrowsTransitively(a: State, b: State, c: State)
    requires Grows(a, b) && Grows(b, c)
    ensures Grows(a, c)
  {
    forall id | id in c.created && id !in a.created
      ensures a.nextId <= id
    {
      assert id in b.created || b.nextId <= id;
    }
  }

  /** An id, once given to a reading, is never given to another: what has been created only grows,
      and what is created later gets an id above everything created before. */
  lemma {:induction false} IdsAreNeverReused(steps: seq<Step>, m: nat, n: nat)
    requires Run(steps) && m <= n <= |steps|
    ensures Grows(After(steps, m), After(steps, n))
  {
    if m == n {
      RunKeeps(steps, m);
    } else {
      IdsAreNeverReused(steps, m, n - 1);
      RunKeeps(steps, n - 1);
      assert CanStep(steps, n - 1);
      StepGrows(After(steps, n - 1), steps[n - 1]);
      GrowsTransitively(After(steps, m), After(steps, n - 1), After(steps, n));
    }
  }

  // ----- without the bound on the counter -----

  /** The rows and counter a step leaves, for the steps below. */
  lemma StoredRow(s: State, key: ReadingKey, payload: Reading)
    requires s.rows == []
    ensures Next(s, Store(key, payload, 0)) ==
            s.(rows := [NewRow(s.nextId, key, payload, 0)], nextId := Increment(s.nextId),
               created := s.created[s.nextId := payload])
  {
  }

  lemma DrainedRow(s: State, r: Row)
    requires s.rows == [r] && r.status == Pending && r.nextRetry == 0
    ensures Next(s, Drain(1, 0)) == s.(replies := s.replies + {[EventOf(r)]})
  {
    assert EligibleTo([r], 0, 0) == [];
    assert EligibleTo([r], 1, 0) == [EventOf(r)];
  }

  lemma DeliveredRow(s: State, r: Row)
    requires s.rows == [r]
    ensures Next(s, Acknowledge([r.id], 0)) == s.(rows := [MarkDelivered(r, [r.id], 0)])
  {
  }

  lemma ClearedRow(s: State, r: Row)
    requires s.rows == [r] && r.status == Delivered
    ensures Next(s, ClearLogs) == s.(rows := [])
  {
    assert KeepTo([r], Settled(), 0) == [];
    assert KeepTo([r], Settled(), 1) == [];
  }

  lemma CounterWraps(s: State)
    requires 0 <= s.nextId <= MAX_INT64
    ensures Next(s, Configure([MAX_INT64])) == s.(nextId := MIN_INT64)
  {
    assert LiftTo(s.nextId, [MAX_INT64], 0) == s.nextId;
    assert LiftTo(s.nextId, [MAX_INT64], 1) == MIN_INT64;
  }

  lemma CounterRewinds(s: State)
    requires s.nextId == MIN_INT64
    ensures Next(s, Configure([0])) == s.(nextId := 1)
  {
    assert LiftTo(MIN_INT64, [0], 0) == MIN_INT64;
    assert LiftTo(MIN_INT64, [0], 1) == 1;
  }

  ghost predicate Leads(s: State, step: Step, s': State) {
    Possible(s, step) && s' == Next(s, step)
  }

  /** The first reading is kept, and its acknowledgement sent. */
  lemma KeptAndAcknowledged(k1: ReadingKey, p1: Reading) returns (states: seq<State>, steps: seq<Step>)
    ensures |steps| == 3 && |states| == 4 && states[0] == START
    ensures forall k | 0 <= k < 3 :: Leads(states[k], steps[k], states[k + 1]) && !steps[k].ReportFailure?
    ensures states[3].rows == [NewRow(1, k1, p1, 0)] && states[3].nextId == 2
    ensures [1] in states[3].acks && states[3].created == map[1 := p1]
    ensures states[3].kept == {Arrival(1, p1)} && states[3].dropped == {} && states[3].dead == {}
  {
    var reply := [Event(1, p1, 0)];
    steps := [Store(k1, p1, 0), Drain(1, 0), Ingest(reply, {Arrival(1, p1)})];
    var s1 := Next(START, steps[0]);
    StoredRow(START, k1, p1);
    var s2 := Next(s1, steps[1]);
    DrainedRow(s1, s1.rows[0]);
    var s3 := Next(s2, steps[2]);
    assert IdsOf(reply) == [1] && Arrivals(reply) == {Arrival(1, p1)};
    states := [START, s1, s2, s3];
  }

  /** The two configurations rewind the counter. */
  lemma Rewound(s: State) returns (states: seq<State>, steps: seq<Step>)
    requires 0 <= s.nextId <= MAX_INT64
    ensures |steps| == 2 && |states| == 3 && states[0] == s && states[2] == s.(nextId := 1)
    ensures forall k | 0 <= k < 2 :: Leads(states[k], steps[k], states[k + 1]) && !steps[k].ReportFailure?
  {
    steps := [Configure([MAX_INT64]), Configure([0])];
    var s1 := Next(s, steps[0]);
    CounterWraps(s);
    var s2 := Next(s1, steps[1]);
    CounterRewinds(s1);
    states := [s, s1, s2];
  }

  lemma RunsJoin(a: seq<State>, p: seq<Step>, b: seq<State>, q: seq<Step>)
    requires |a| == |p| + 1 && |b| == |q| + 1 && a[|p|] == b[0]
    requires forall k | 0 <= k < |p| :: Leads(a[k], p[k], a[k + 1]) && !p[k].ReportFailure?
    requires forall k | 0 <= k < |q| :: Leads(b[k], q[k], b[k + 1]) && !q[k].ReportFailure?
    ensures
      var states, steps := a + b[1..], p + q;
      && |states| == |steps| + 1 && states[0] == a[0] && states[|steps|] == b[|q|]
      && forall k | 0 <= k < |steps| :: Leads(states[k], steps[k], states[k + 1]) && !steps[k].ReportFailure?
  {
    var states, steps, m := a + b[1..], p + q, |p|;
    forall k | 0 <= k < |steps|
      ensures Leads(states[k], steps[k], states[k + 1]) && !steps[k].ReportFailure?
    {
      if k < m {
        assert Leads(a[k], p[k], a[k + 1]);
      } else {
        assert Leads(b[k - m], q[k - m], b[k - m + 1]);
      }
    }
  }

  /** The late acknowledgement and its repetition. */
  lemma AcknowledgedTwice(s: State, k1: ReadingKey, p1: Reading, k2: ReadingKey, p2: Reading) returns (states: seq<State>, steps: seq<Step>)
    requires s.rows == [NewRow(1, k1, p1, 0)] && s.nextId == 1 && [1] in s.acks
    ensures |steps| == 5 && |states| == 6 && states[0] == s
    ensures forall k | 0 <= k < 5 :: Leads(states[k], steps[k], states[k + 1]) && !steps[k].ReportFailure?
    ensures states[5] == s.(nextId := 2, rows := [], created := s.created[1 := p2])
  {
    steps := [Acknowledge([1], 0), ClearLogs, Store(k2, p2, 0), Acknowledge([1], 0), ClearLogs];
    var s1 := Next(s, steps[0]);
    DeliveredRow(s, s.rows[0]);
    var s2 := Next(s1, steps[1]);
    ClearedRow(s1, s1.rows[0]);
    var s3 := Next(s2, steps[2]);
    StoredRow(s2, k2, p2);
    var s4 := Next(s3, steps[3]);
    DeliveredRow(s3, s3.rows[0]);
    var s5 := Next(s4, steps[4]);
    ClearedRow(s4, s4.rows[0]);
    states := [s, s1, s2, s3, s4, s5];
  }

  /** With the bound gone the guarantee is too. Two pushed configurations, one of them with the
      largest int64 as an id, rewind the counter; the next reading gets an id that was used before,
      and a repeated acknowledgement of the earlier reading deletes it undelivered. */
  lemma RewoundCounterLosesAReading(k1: ReadingKey, p1: Reading, k2: ReadingKey, p2: Reading)
    returns (states: seq<State>, steps: seq<Step>)
    requires p1 != p2
    ensures |states| == |steps| + 1 && states[0] == START
    ensures forall k | 0 <= k < |steps| :: Leads(states[k], steps[k], states[k + 1]) && !steps[k].ReportFailure?
    ensures states[|steps|].created == map[1 := p2] && !Accounted(states[|steps|], 1)
  {
    var states1, steps1 := KeptAndAcknowledged(k1, p1);
    var states2, steps2 := Rewound(states1[3]);
    RunsJoin(states1, steps1, states2, steps2);
    var states3, steps3 := AcknowledgedTwice(states2[2], k1, p1, k2, p2);
    states, steps := states1 + states2[1..], steps1 + steps2;
    RunsJoin(states, steps, states3, steps3);
    states, steps := states + states3[1..], steps + steps3;
  }

  // ----- a batch kept in part -----

  lemma DrainedTwo(s: State, r: Row, t: Row)
    requires s.rows == [r, t] && r.status == Pending && r.nextRetry == 0 && t.status == Pending && t.nextRetry == 0
    ensures Next(s, Drain(2, 0)) == s.(replies := s.replies + {[EventOf(r), EventOf(t)]})
  {
    assert EligibleTo([r, t], 0, 0) == [];
    assert EligibleTo([r, t], 1, 0) == [] + [EventOf(r)];
    assert [] + [EventOf(r)] == [EventOf(r)] && [EventOf(r)] + [EventOf(t)] == [EventOf(r), EventOf(t)];
    assert EligibleTo([r, t], 2, 0) == [EventOf(r), EventOf(t)];
    assert ReadyEvents([r, t], 2, 0) == [EventOf(r), EventOf(t)];
  }

  lemma StoredAfter(s: State, r: Row, key: ReadingKey, payload: Reading)
    requires s.rows == [r] && r.key != key
    ensures Next(s, Store(key, payload, 0)) ==
            s.(rows := [r, NewRow(s.nextId, key, payload, 0)], nextId := Increment(s.nextId),
               created := s.created[s.nextId := payload])
  {
    assert [r] + [NewRow(s.nextId, key, payload, 0)] == [r, NewRow(s.nextId, key, payload, 0)];
  }

  /** Two readings in one batch. */
  lemma BothDrained(k1: ReadingKey, p1: Reading, k2: ReadingKey, p2: Reading) returns (states: seq<State>, steps: seq<Step>)
    requires k1 != k2
    ensures |steps| == 3 && |states| == 4 && states[0] == START
    ensures forall k | 0 <= k < 3 :: Leads(states[k], steps[k], states[k + 1]) && CounterHolds(states[k], steps[k]) && !steps[k].ReportFailure?
    ensures states[3].rows == [NewRow(1, k1, p1, 0), NewRow(2, k2, p2, 0)] && states[3].created == map[1 := p1, 2 := p2]
    ensures [Event(1, p1, 0), Event(2, p2, 0)] in states[3].replies && states[3].kept == {}
  {
    steps := [Store(k1, p1, 0), Store(k2, p2, 0), Drain(2, 0)];
    var s1 := Next(START, steps[0]);
    StoredRow(START, k1, p1);
    var s2 := Next(s1, steps[1]);
    StoredAfter(s1, s1.rows[0], k2, p2);
    var s3 := Next(s2, steps[2]);
    DrainedTwo(s2, s2.rows[0], s2.rows[1]);
    states := [START, s1, s2, s3];
  }

  /** The exception is real: of two readings in one batch the platform keeps one, and the
      acknowledgement of the batch loses the other. */
  lemma MixedBatchLosesAReading(k1: ReadingKey, p1: Reading, k2: ReadingKey, p2: Reading)
    returns (states: seq<State>, steps: seq<Step>)
    requires k1 != k2
    ensures |steps| == 5 && |states| == 6 && states[0] == START
    ensures forall k | 0 <= k < 5 :: Leads(states[k], steps[k], states[k + 1]) && CounterHolds(states[k], steps[k]) && !steps[k].ReportFailure?
    ensures states[5].created == map[1 := p1, 2 := p2] && Lost(states[5], 2)
  {
    states, steps := BothDrained(k1, p1, k2, p2);
    var drained := states[3];
    var ingest, ack := Ingest([Event(1, p1, 0), Event(2, p2, 0)], {Arrival(1, p1)}), Acknowledge([1, 2], 0);
    HalfKept(drained, k1, p1, k2, p2);
    steps := steps + [ingest, ack];
    states := states + [Next(drained, ingest), Next(Next(drained, ingest), ack)];
  }

  lemma HalfKept(s: State, k1: ReadingKey, p1: Reading, k2: ReadingKey, p2: Reading)
    requires s.rows == [NewRow(1, k1, p1, 0), NewRow(2, k2, p2, 0)] && s.created == map[1 := p1, 2 := p2]
    requires [Event(1, p1, 0), Event(2, p2, 0)] in s.replies && s.kept == {}
    ensures
      var ingest, ack := Ingest([Event(1, p1, 0), Event(2, p2, 0)], {Arrival(1, p1)}), Acknowledge([1, 2], 0);
      var s' := Next(s, ingest);
      && Possible(s, ingest) && Possible(s', ack)
      && Next(s', ack).created == s.created && Lost(Next(s', ack), 2)
  {
    var reply := [Event(1, p1, 0), Event(2, p2, 0)];
    assert IdsOf(reply) == [1, 2];
    assert reply[0] in reply && Arrival(1, p1) in Arrivals(reply);
    var rows := AllDelivered(s.rows, [1, 2], 0);
    assert rows[0].status == Delivered && rows[1].status == Delivered;
  }
}
