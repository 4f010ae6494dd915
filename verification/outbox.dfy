/** internal/store/file_arch.go: the file-backed store, with its outbox of readings waiting for
    the platform, its id counter and its configuration. */
module Outbox {
  import opened Results
  import opened Domain
  import opened Integers
  import Normalizing

  datatype Status = Pending | Retrying | Delivered | DeadLetter

  datatype Row = Row(
    id: int, key: ReadingKey, payload: Reading, status: Status,
    attempts: int, nextRetry: int, createdAt: int, deliveredAt: int)

  datatype Event = Event(id: int, payload: Reading, attempts: int)

  datatype PollLog = PollLog(id: int, connectionId: int, createdAt: int)

  /** The part of the state a pushed configuration replaces. */
  datatype Configuration = Configuration(
    brands: seq<Brand>, deviceSets: seq<DeviceSet>, connections: seq<Connection>, plants: seq<Plant>)

  // ----- what the operations do to the rows -----

  function NewRow(id: int, key: ReadingKey, payload: Reading, now: int): Row {
    Row(id, key, payload, Pending, 0, 0, now, 0)
  }

  /** A row that nobody has tried to deliver. */
  predicate IsNew(r: Row, id: int, key: ReadingKey, payload: Reading, now: int) {
    && r.id == id && r.key == key && r.payload == payload
    && r.status == Pending && r.attempts == 0 && r.nextRetry == 0 && r.createdAt == now && r.deliveredAt == 0
  }

  predicate HasKey(rows: seq<Row>, key: ReadingKey) {
    exists i | 0 <= i < |rows| :: rows[i].key == key
  }

  function Enqueued(rows: seq<Row>, id: int, key: ReadingKey, payload: Reading, now: int): seq<Row> {
    if HasKey(rows, key) then rows else rows + [NewRow(id, key, payload, now)]
  }

  predicate Waiting(r: Row) {
    r.status == Pending || r.status == Retrying
  }

  predicate Eligible(r: Row, now: int) {
    Waiting(r) && r.nextRetry <= now
  }

  function EventOf(r: Row): Event {
    Event(r.id, r.payload, r.attempts)
  }

  /** The events of the eligible rows among the first n, oldest first. */
  function EligibleTo(rows: seq<Row>, n: nat, now: int): (events: seq<Event>)
    requires n <= |rows|
    ensures |events| <= n
  {
    if n == 0 then []
    else if Eligible(rows[n - 1], now) then EligibleTo(rows, n - 1, now) + [EventOf(rows[n - 1])]
    else EligibleTo(rows, n - 1, now)
  }

  /** The loop appends before it looks at the limit, so a limit below 1 acts as 1. */
  function BatchSize(limit: int): nat {
    if limit < 1 then 1 else limit
  }

  function ReadyEvents(rows: seq<Row>, limit: int, now: int): seq<Event> {
    var all := EligibleTo(rows, |rows|, now);
    if |all| <= BatchSize(limit) then all else all[..BatchSize(limit)]
  }

  function MarkDelivered(r: Row, ids: seq<int>, now: int): Row {
    if r.id in ids then r.(status := Delivered, deliveredAt := now) else r
  }

  function PowerOfTwo(k: nat): nat {
    if k == 0 then 1 else 2 * PowerOfTwo(k - 1)
  }

  function Backoff(attempts: int): int {
    var k := if attempts - 1 < 8 then attempts - 1 else 8;
    if k < 0 then 0 else 1000 * PowerOfTwo(k)
  }

  /** One failure report for a row. */
  function MarkFailed(r: Row, retry: bool, now: int): Row {
    var attempts := r.attempts + 1;
    if retry then r.(attempts := attempts, status := Retrying, nextRetry := now + Backoff(attempts))
    else r.(attempts := attempts, status := DeadLetter)
  }

  /** An id listed twice is counted twice. */
  function MarkFailedBy(r: Row, ids: seq<int>, n: nat, retry: bool, now: int): (r': Row)
    requires n <= |ids|
    ensures r'.id == r.id && r'.payload == r.payload && r'.key == r.key
    ensures r'.status == r.status || r'.status == if retry then Retrying else DeadLetter
    ensures r'.status != r.status ==> r.id in ids
  {
    if n == 0 then r
    else
      var before := MarkFailedBy(r, ids, n - 1, retry, now);
      if ids[n - 1] == r.id then MarkFailed(before, retry, now) else before
  }

  function MapRows(rows: seq<Row>, f: Row -> Row): (rows': seq<Row>)
    ensures |rows'| == |rows| && forall i | 0 <= i < |rows| :: rows'[i] == f(rows[i])
  {
    seq(|rows|, i requires 0 <= i < |rows| => f(rows[i]))
  }

  function AllDelivered(rows: seq<Row>, ids: seq<int>, now: int): seq<Row> {
    MapRows(rows, r => MarkDelivered(r, ids, now))
  }

  function AllFailed(rows: seq<Row>, ids: seq<int>, retry: bool, now: int): seq<Row> {
    MapRows(rows, r => MarkFailedBy(r, ids, |ids|, retry, now))
  }

  /** What is left of the first n elements, in order, once some are dropped. */
  function KeepTo<T>(s: seq<T>, drop: T -> bool, n: nat): seq<T>
    requires n <= |s|
  {
    if n == 0 then []
    else if drop(s[n - 1]) then KeepTo(s, drop, n - 1)
    else KeepTo(s, drop, n - 1) + [s[n - 1]]
  }

  function Keep<T>(s: seq<T>, drop: T -> bool): seq<T> {
    KeepTo(s, drop, |s|)
  }

  /** What clearing the delivery logs removes. */
  function Settled(): Row -> bool {
    (r: Row) => r.status == Delivered || r.status == DeadLetter
  }

  /** What the retention clean-up removes. */
  function Expired(cut: int): Row -> bool {
    (r: Row) => (r.status == Delivered && r.deliveredAt < cut) || (r.status == DeadLetter && r.createdAt < cut)
  }

  /** What it leaves: every row that is waiting, and what was settled lately. */
  predicate IsRetained(r: Row, cut: int) {
    match r.status
    case Pending | Retrying => true
    case Delivered => r.deliveredAt >= cut
    case DeadLetter => r.createdAt >= cut
  }

  function Outdated(cut: int): PollLog -> bool {
    (l: PollLog) => l.createdAt < cut
  }

  // ----- the id counter -----

  /** The counter after the loops that lift it over the first n ids of a list. */
  function LiftTo(nextId: int, ids: seq<int>, n: nat): int
    requires n <= |ids|
  {
    if n == 0 then nextId
    else
      var before := LiftTo(nextId, ids, n - 1);
      if ids[n - 1] >= before then Increment(ids[n - 1]) else before
  }

  function Lift(nextId: int, ids: seq<int>): int {
    LiftTo(nextId, ids, |ids|)
  }

  function ConfiguredIds(c: Configuration): (ids: seq<int>)
    ensures |ids| == |c.brands| + |c.deviceSets| + |c.connections|
  {
    seq(|c.brands|, i requires 0 <= i < |c.brands| => c.brands[i].brandId)
    + seq(|c.deviceSets|, i requires 0 <= i < |c.deviceSets| => c.deviceSets[i].deviceSetId)
    + seq(|c.connections|, i requires 0 <= i < |c.connections| => c.connections[i].connectionId)
  }

  // ----- history -----

  /** The highest version recorded as applied, or 0. */
  function HighestAppliedTo(history: seq<HistoryRow>, n: nat): (v: int)
    requires n <= |history|
    ensures v >= 0
    ensures forall i | 0 <= i < n && history[i].applied :: history[i].version <= v
    ensures v == 0 || exists i | 0 <= i < n :: history[i].applied && history[i].version == v
  {
    if n == 0 then 0
    else
      var v := HighestAppliedTo(history, n - 1);
      if history[n - 1].applied && history[n - 1].version > v then history[n - 1].version else v
  }

  function HighestApplied(history: seq<HistoryRow>): int {
    HighestAppliedTo(history, |history|)
  }

  /** What a snapshot that passes the gate turns the configuration into. */
  function Applied(c: Configuration, snapshot: Snapshot): Configuration {
    match Normalizing.Normalize(snapshot)
    case Err(_) => c
    case Ok(s) => Configuration(s.brands, s.deviceSets, s.connections, s.plants)
  }

  class FileStore {
    var nextId: int
    var outbox: seq<Row>
    var pollLogs: seq<PollLog>
    var history: seq<HistoryRow>
    var configuration: Configuration

    constructor ()
      ensures nextId == 1 && outbox == [] && pollLogs == [] && history == []
      ensures configuration == Configuration([], [], [], [])
    {
      nextId, outbox, pollLogs, history := 1, [], [], [];
      configuration := Configuration([], [], [], []);
    }

    /** nextID: the counter wraps like the int64 it is. */
    method TakeId() returns (id: int)
      modifies this`nextId
      ensures id == old(nextId) && nextId == Increment(old(nextId))
    {
      id := nextId;
      nextId := Increment(nextId);
    }

    method Enqueue(key: ReadingKey, payload: Reading, now: int) returns (created: bool)
      modifies this`nextId, this`outbox
      ensures created == !HasKey(old(outbox), key)
      ensures outbox == Enqueued(old(outbox), old(nextId), key, payload, now)
      ensures created ==> IsNew(outbox[|outbox| - 1], old(nextId), key, payload, now)
      ensures nextId == if created then Increment(old(nextId)) else old(nextId)
    {
      for i := 0 to |outbox|
        invariant forall k | 0 <= k < i :: outbox[k].key != key
      {
        if outbox[i].key == key {
          return false;
        }
      }
      var id := TakeId();
      outbox := outbox + [NewRow(id, key, payload, now)];
      return true;
    }

    method Ready(limit: int, now: int) returns (events: seq<Event>)
      ensures events == ReadyEvents(outbox, limit, now)
    {
      events := [];
      for i := 0 to |outbox|
        invariant events == EligibleTo(outbox, i, now)
        invariant |events| < BatchSize(limit)
      {
        var v := outbox[i];
        if (v.status == Pending || v.status == Retrying) && v.nextRetry <= now {
          events := events + [EventOf(v)];
          if |events| >= limit {
            EligibleGrows(outbox, i + 1, now);
            break;
          }
        }
      }
    }

    /** Delivered: marks every row whose id is listed. */
    method MarkAsDelivered(ids: seq<int>, now: int)
      modifies this`outbox
      ensures outbox == AllDelivered(old(outbox), ids, now)
      ensures |outbox| == |old(outbox)|
      ensures forall i | 0 <= i < |outbox| ::
                outbox[i] == if old(outbox)[i].id in ids then old(outbox)[i].(status := Delivered, deliveredAt := now) else old(outbox)[i]
    {
      for i := 0 to |outbox|
        invariant |outbox| == |old(outbox)|
        invariant forall k | 0 <= k < i :: outbox[k] == MarkDelivered(old(outbox)[k], ids, now)
        invariant forall k | i <= k < |outbox| :: outbox[k] == old(outbox)[k]
      {
        for j := 0 to |ids|
          invariant |outbox| == |old(outbox)|
          invariant outbox[i] == MarkDelivered(old(outbox)[i], ids[..j], now)
          invariant forall k | 0 <= k < i :: outbox[k] == MarkDelivered(old(outbox)[k], ids, now)
          invariant forall k | i < k < |outbox| :: outbox[k] == old(outbox)[k]
        {
          assert ids[..j + 1] == ids[..j] + [ids[j]];
          if outbox[i].id == ids[j] {
            outbox := outbox[i := outbox[i].(status := Delivered, deliveredAt := now)];
          }
        }
        assert ids[..|ids|] == ids;
      }
    }

    method Failed(ids: seq<int>, retry: bool, now: int)
      modifies this`outbox
      ensures outbox == AllFailed(old(outbox), ids, retry, now)
    {
      for i := 0 to |outbox|
        invariant |outbox| == |old(outbox)|
        invariant forall k | 0 <= k < i :: outbox[k] == MarkFailedBy(old(outbox)[k], ids, |ids|, retry, now)
        invariant forall k | i <= k < |outbox| :: outbox[k] == old(outbox)[k]
      {
        for j := 0 to |ids|
          invariant |outbox| == |old(outbox)|
          invariant outbox[i] == MarkFailedBy(old(outbox)[i], ids, j, retry, now)
          invariant forall k | 0 <= k < i :: outbox[k] == MarkFailedBy(old(outbox)[k], ids, |ids|, retry, now)
          invariant forall k | i < k < |outbox| :: outbox[k] == old(outbox)[k]
        {
          if outbox[i].id == ids[j] {
            outbox := outbox[i := MarkFailed(outbox[i], retry, now)];
          }
        }
      }
    }

    method ClearDeliveryLogs() returns (n: int)
      modifies this`outbox
      ensures outbox == Keep(old(outbox), Settled())
      ensures n == |old(outbox)| - |outbox|
      ensures forall r :: r in outbox <==> r in old(outbox) && (r.status == Pending || r.status == Retrying)
    {
      KeptMembers(outbox, Settled());
      var keep := [];
      n := 0;
      for i := 0 to |outbox|
        invariant outbox == old(outbox)
        invariant keep == KeepTo(outbox, Settled(), i) && n + |keep| == i
      {
        if outbox[i].status == Delivered || outbox[i].status == DeadLetter {
          n := n + 1;
        } else {
          keep := keep + [outbox[i]];
        }
      }
      outbox := keep;
    }

    method CleanupOld(cut: int) returns (n: int)
      modifies this`outbox, this`pollLogs
      ensures outbox == Keep(old(outbox), Expired(cut))
      ensures forall r :: r in outbox <==> r in old(outbox) && IsRetained(r, cut)
      ensures forall l :: l in pollLogs <==> l in old(pollLogs) && l.createdAt >= cut
      ensures n == |old(outbox)| + |old(pollLogs)| - |outbox| - |pollLogs|
      ensures pollLogs == Keep(old(pollLogs), Outdated(cut))
    {
      KeptMembers(outbox, Expired(cut));
      KeptMembers(pollLogs, Outdated(cut));
      var keep := [];
      n := 0;
      for i := 0 to |outbox|
        invariant outbox == old(outbox)
        invariant keep == KeepTo(outbox, Expired(cut), i) && n + |keep| == i
      {
        var v := outbox[i];
        if (v.status == Delivered && v.deliveredAt < cut) || (v.status == DeadLetter && v.createdAt < cut) {
          n := n + 1;
        } else {
          keep := keep + [v];
        }
      }
      var rows := |outbox|;
      outbox := keep;
      var logs := [];
      for i := 0 to |pollLogs|
        invariant pollLogs == old(pollLogs) && outbox == keep
        invariant n + |outbox| + |logs| == rows + i
        invariant logs == KeepTo(pollLogs, Outdated(cut), i)
      {
        if pollLogs[i].createdAt < cut {
          n := n + 1;
        } else {
          logs := logs + [pollLogs[i]];
        }
      }
      pollLogs := logs;
    }

    method SavePollLog(log: PollLog, now: int)
      modifies this`nextId, this`pollLogs
      ensures nextId == if log.id == 0 then Increment(old(nextId)) else old(nextId)
      ensures pollLogs == old(pollLogs) + [PollLog(
                if log.id == 0 then old(nextId) else log.id, log.connectionId,
                if log.createdAt == 0 then now else log.createdAt)]
    {
      var v := log;
      if v.id == 0 {
        var id := TakeId();
        v := v.(id := id);
      }
      if v.createdAt == 0 {
        v := v.(createdAt := now);
      }
      pollLogs := pollLogs + [v];
    }

    method CurrentConfigVersion() returns (v: int)
      ensures v == HighestApplied(history)
    {
      v := 0;
      for i := 0 to |history|
        invariant v == HighestAppliedTo(history, i)
      {
        var h := history[i];
        if h.applied && h.version > v {
          v := h.version;
        }
      }
    }

    /** A rejected snapshot is recorded and changes nothing else; an accepted one replaces the
        whole configuration and lifts the counter over its ids. */
    method ApplyConfigSnapshot(version: int, snap: Snapshot)
      modifies this`nextId, this`history, this`configuration
      ensures
        var snapshot := snap.(version := version);
        var ok := Normalizing.Normalize(snapshot).Ok?;
        && history == old(history) + [HistoryRow(version, ok, snapshot)]
        && configuration == Applied(old(configuration), snapshot)
        && nextId == if ok then Lift(old(nextId), ConfiguredIds(configuration)) else old(nextId)
    {
      var snapshot := snap.(version := version);
      var normalized := Normalizing.NormalizeConfigSnapshot(snapshot);
      history := history + [HistoryRow(version, normalized.Ok?, snapshot)];
      if normalized.Err? {
        return;
      }
      var s := normalized.value;
      configuration := Configuration(s.brands, s.deviceSets, s.connections, s.plants);
      LiftOver(ConfiguredIds(configuration));
    }

    method LiftOver(ids: seq<int>)
      modifies this`nextId
      ensures nextId == Lift(old(nextId), ids)
    {
      for i := 0 to |ids|
        invariant nextId == LiftTo(old(nextId), ids, i)
      {
        if ids[i] >= nextId {
          nextId := Increment(ids[i]);
        }
      }
    }
  }

  // ----- what Ready returns -----

  lemma {:induction false} EligibleGrows(rows: seq<Row>, n: nat, now: int)
    requires n <= |rows|
    ensures EligibleTo(rows, n, now) <= EligibleTo(rows, |rows|, now)
    decreases |rows| - n
  {
    if n == |rows| {
    } else {
      EligibleGrows(rows, n + 1, now);
    }
  }

  /** Rows in the order of their ids. */
  ghost predicate Ordered(rows: seq<Row>) {
    forall i, j | 0 <= i < j < |rows| :: rows[i].id < rows[j].id
  }

  /** An event of an eligible row among the first n. */
  ghost predicate OfEligible(e: Event, rows: seq<Row>, n: nat, now: int)
    requires n <= |rows|
  {
    exists i | 0 <= i < n :: Eligible(rows[i], now) && e == EventOf(rows[i])
  }

  ghost predicate ByIncreasingId(events: seq<Event>) {
    forall j, k | 0 <= j < k < |events| :: events[j].id < events[k].id
  }

  lemma {:induction false} EligibleMeaning(rows: seq<Row>, n: nat, now: int)
    requires Ordered(rows) && n <= |rows|
    ensures
      var events := EligibleTo(rows, n, now);
      && (forall e | e in events :: OfEligible(e, rows, n, now))
      && (forall i | 0 <= i < n && Eligible(rows[i], now) :: EventOf(rows[i]) in events)
      && ByIncreasingId(events)
  {
    if n == 0 {
    } else {
      EligibleMeaning(rows, n - 1, now);
      var before, events := EligibleTo(rows, n - 1, now), EligibleTo(rows, n, now);
      forall e | e in before
        ensures OfEligible(e, rows, n, now) && e.id < rows[n - 1].id
      {
        assert OfEligible(e, rows, n - 1, now);
      }
      assert forall k | 0 <= k < |before| :: before[k] in before;
    }
  }

  /** Ready returns eligible rows only, at most a batch of them, by increasing id; an eligible row
      is passed over only when the batch is full of older ones. */
  lemma ReadyReturnsTheOldest(rows: seq<Row>, limit: int, now: int)
    requires Ordered(rows)
    ensures
      var events := ReadyEvents(rows, limit, now);
      && |events| <= BatchSize(limit)
      && (forall e | e in events :: OfEligible(e, rows, |rows|, now))
      && ByIncreasingId(events)
      && (forall i | 0 <= i < |rows| && Eligible(rows[i], now) ::
            || EventOf(rows[i]) in events
            || (|events| == BatchSize(limit) && forall e | e in events :: e.id < rows[i].id))
  {
    EligibleMeaning(rows, |rows|, now);
    var all, events := EligibleTo(rows, |rows|, now), ReadyEvents(rows, limit, now);
    assert forall j | 0 <= j < |events| :: all[j] == events[j] && all[j] in events;
    forall i | 0 <= i < |rows| && Eligible(rows[i], now) && EventOf(rows[i]) !in events
      ensures |events| == BatchSize(limit) && forall e | e in events :: e.id < rows[i].id
    {
      var k :| 0 <= k < |all| && all[k] == EventOf(rows[i]);
    }
  }

  // ----- the counter -----

  /** A fresh id is larger than the one before it exactly while the counter has not reached the
      largest int64. */
  lemma TakingGrows(n: int)
    requires IsInt64(n)
    ensures Increment(n) > n <==> n != MAX_INT64
  {
  }

  /** Applying a configuration leaves the counter above everything issued and configured exactly
      when no configured id is the largest int64. */
  lemma {:induction false} LiftingGrows(nextId: int, ids: seq<int>, n: nat)
    requires IsInt64(nextId) && n <= |ids| && forall i | 0 <= i < |ids| :: IsInt64(ids[i])
    ensures IsInt64(LiftTo(nextId, ids, n))
    ensures
      (nextId <= LiftTo(nextId, ids, n) && forall i | 0 <= i < n :: ids[i] < LiftTo(nextId, ids, n)) <==>
      (forall i | 0 <= i < n :: ids[i] != MAX_INT64)
  {
    if n == 0 {
    } else {
      LiftingGrows(nextId, ids, n - 1);
    }
  }

  /** Lifting goes no further than it must: the counter stays, or ends just past a configured id. */
  lemma {:induction false} LiftIsExact(nextId: int, ids: seq<int>, n: nat)
    requires IsInt64(nextId) && n <= |ids| && MAX_INT64 !in ids && forall i | 0 <= i < |ids| :: IsInt64(ids[i])
    ensures nextId <= LiftTo(nextId, ids, n) && forall i | 0 <= i < n :: ids[i] < LiftTo(nextId, ids, n)
    ensures LiftTo(nextId, ids, n) == nextId || exists i | 0 <= i < n :: LiftTo(nextId, ids, n) == ids[i] + 1
  {
    if n == 0 {
    } else {
      LiftIsExact(nextId, ids, n - 1);
    }
  }

  /** The counter is lifted over the ids of brands, device sets and connections. */
  lemma ConfiguredIdsAre(c: Configuration, id: int)
    ensures id in ConfiguredIds(c) <==>
            || (exists i | 0 <= i < |c.brands| :: c.brands[i].brandId == id)
            || (exists i | 0 <= i < |c.deviceSets| :: c.deviceSets[i].deviceSetId == id)
            || (exists i | 0 <= i < |c.connections| :: c.connections[i].connectionId == id)
  {
    var ids, b, d := ConfiguredIds(c), |c.brands|, |c.deviceSets|;
    if i :| 0 <= i < |c.brands| && c.brands[i].brandId == id {
      assert ids[i] == id;
    }
    if i :| 0 <= i < |c.deviceSets| && c.deviceSets[i].deviceSetId == id {
      assert ids[b + i] == id;
    }
    if i :| 0 <= i < |c.connections| && c.connections[i].connectionId == id {
      assert ids[b + d + i] == id;
    }
  }

  lemma {:induction false} KeptAreThose<T(!new)>(rows: seq<T>, drop: T -> bool, n: nat)
    requires n <= |rows|
    ensures forall r :: r in KeepTo(rows, drop, n) <==> !drop(r) && exists i | 0 <= i < n :: rows[i] == r
  {
    if n == 0 {
    } else {
      KeptAreThose(rows, drop, n - 1);
    }
  }

  lemma KeptMembers<T(!new)>(rows: seq<T>, drop: T -> bool)
    ensures forall r :: r in Keep(rows, drop) <==> r in rows && !drop(r)
  {
    KeptAreThose(rows, drop, |rows|);
  }

  // ----- retries -----

  /** The delay before the next attempt is a second at first, doubles with every failure, and stays at 256
      seconds from the ninth on. */
  lemma BackoffDoubles(attempts: int)
    ensures Backoff(1) == 1000 && Backoff(9) == 256_000
    ensures 1 <= attempts < 9 ==> Backoff(attempts + 1) == 2 * Backoff(attempts)
    ensures attempts >= 9 ==> Backoff(attempts) == Backoff(9)
  {
    assert PowerOfTwo(0) == 1 && PowerOfTwo(2) == 4 && PowerOfTwo(4) == 16 && PowerOfTwo(6) == 64 && PowerOfTwo(8) == 256;
  }

  /** A failure that may be retried makes the row wait out its delay, and no longer; one that may not ends
      its attempts for good. */
  lemma FailedRowWaits(r: Row, retry: bool, now: int, later: int)
    ensures
      var r' := MarkFailedBy(r, [r.id], 1, retry, now);
      && r'.attempts == r.attempts + 1 && r'.createdAt == r.createdAt && r'.deliveredAt == r.deliveredAt
      && (retry ==> (Eligible(r', later) <==> later >= now + Backoff(r.attempts + 1)))
      && (!retry ==> !Eligible(r', later) && r'.status == DeadLetter && r'.nextRetry == r.nextRetry)
  {
    assert MarkFailedBy(r, [r.id], 0, retry, now) == r;
  }

  lemma {:induction false} KeptAreOrdered(rows: seq<Row>, drop: Row -> bool, n: nat)
    requires Ordered(rows) && n <= |rows|
    ensures Ordered(KeepTo(rows, drop, n))
    ensures forall k, i | 0 <= k < |KeepTo(rows, drop, n)| && n <= i < |rows| :: KeepTo(rows, drop, n)[k].id < rows[i].id
  {
    if n == 0 {
    } else {
      KeptAreOrdered(rows, drop, n - 1);
    }
  }
}
