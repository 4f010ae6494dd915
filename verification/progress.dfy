/** No reading is stuck: from any state of the drain and acknowledge protocol, a waiting reading can still
    get to the platform, however many older ones wait before it. */
module Progress {
  import opened Domain
  import opened Delivery
  import opened Outbox

  /** No waiting row has to wait longer for its next attempt. */
  ghost predicate AllDue(s: State, now: int) {
    forall i | 0 <= i < |s.rows| && Waiting(s.rows[i]) :: s.rows[i].nextRetry <= now
  }

  function LatestRetry(rows: seq<Row>, n: nat): (now: int)
    requires n <= |rows|
    ensures forall i | 0 <= i < n :: rows[i].nextRetry <= now
  {
    if n == 0 then 0
    else
      var before := LatestRetry(rows, n - 1);
      if rows[n - 1].nextRetry > before then rows[n - 1].nextRetry else before
  }

  /** That time comes. */
  lemma AllFallDue(s: State, now: int)
    requires now >= LatestRetry(s.rows, |s.rows|)
    ensures AllDue(s, now)
  {
  }

  function WaitingTo(rows: seq<Row>, n: nat): nat
    requires n <= |rows|
  {
    if n == 0 then 0 else WaitingTo(rows, n - 1) + if Waiting(rows[n - 1]) then 1 else 0
  }

  lemma {:induction false} AcknowledgingServes(rows: seq<Row>, ids: seq<int>, now: int, j: nat, n: nat)
    requires n <= |rows| && j < |rows| && Waiting(rows[j]) && rows[j].id in ids
    ensures WaitingTo(AllDelivered(rows, ids, now), n) + (if j < n then 1 else 0) <= WaitingTo(rows, n)
  {
    if n == 0 {
    } else {
      AcknowledgingServes(rows, ids, now, j, n - 1);
    }
  }

  // ----- a round -----

  /** What a full drain finds. */
  function Batch(s: State, now: int): seq<Event> {
    ReadyEvents(s.rows, 500, now)
  }

  function RoundSteps(s: State, now: int): seq<Step> {
    [Drain(500, now), Ingest(Batch(s, now), Arrivals(Batch(s, now))), Acknowledge(IdsOf(Batch(s, now)), now)]
  }

  function Drained(s: State, now: int): State {
    s.(replies := s.replies + {Batch(s, now)})
  }

  function Ingested(s: State, now: int): State {
    var batch := Batch(s, now);
    Drained(s, now).(received := s.received + Arrivals(batch), kept := s.kept + Arrivals(batch), acks := s.acks + {IdsOf(batch)})
  }

  function Served(s: State, now: int): State {
    Ingested(s, now).(rows := AllDelivered(s.rows, IdsOf(Batch(s, now)), now))
  }

  lemma RoundLeads(s: State, now: int)
    requires Batch(s, now) != []
    ensures Leads(s, RoundSteps(s, now)[0], Drained(s, now))
    ensures Leads(Drained(s, now), RoundSteps(s, now)[1], Ingested(s, now))
    ensures Leads(Ingested(s, now), RoundSteps(s, now)[2], Served(s, now))
  {
    var batch := Batch(s, now);
    assert batch[0] in batch && Arrival(batch[0].id, batch[0].payload) in Arrivals(batch);
    assert s.dropped + (Arrivals(batch) - Arrivals(batch)) == s.dropped;
  }

  lemma RoundKeeps(s: State, now: int)
    requires Inv(s) && Batch(s, now) != []
    ensures Inv(Served(s, now))
  {
    RoundLeads(s, now);
    StepKeeps(s, RoundSteps(s, now)[0]);
    StepKeeps(Drained(s, now), RoundSteps(s, now)[1]);
    StepKeeps(Ingested(s, now), RoundSteps(s, now)[2]);
  }

  /** The reading is in the batch, or the batch is full of older ones. */
  lemma BatchServes(s: State, now: int, i: nat)
    requires Inv(s) && AllDue(s, now) && i < |s.rows| && Waiting(s.rows[i])
    ensures Batch(s, now) != []
    ensures EventOf(s.rows[i]) in Batch(s, now) || forall e | e in Batch(s, now) :: e.id < s.rows[i].id
  {
    ReadyReturnsTheOldest(s.rows, 500, now);
  }

  lemma SomeoneIsServed(s: State, now: int)
    requires Inv(s) && Batch(s, now) != []
    ensures WaitingTo(Served(s, now).rows, |s.rows|) < WaitingTo(s.rows, |s.rows|)
  {
    var batch := Batch(s, now);
    ReadyReturnsTheOldest(s.rows, 500, now);
    assert batch[0] in batch;
    assert OfEligible(batch[0], s.rows, |s.rows|, now);
    var j :| 0 <= j < |s.rows| && Eligible(s.rows[j], now) && batch[0] == EventOf(s.rows[j]);
    assert IdsOf(batch)[0] == s.rows[j].id;
    AcknowledgingServes(s.rows, IdsOf(batch), now, j, |s.rows|);
  }

  /** In a round the reading gets to the platform, or still waits among fewer. */
  lemma RoundServes(s: State, now: int, id: int)
    requires Inv(s) && AllDue(s, now) && id in s.created && IsWaiting(s.rows, id)
    ensures Batch(s, now) != []
    ensures
      var s' := Served(s, now);
      && AllDue(s', now) && |s'.rows| == |s.rows|
      && (Arrival(id, s.created[id]) in s'.kept || IsWaiting(s'.rows, id))
  {
    var i :| 0 <= i < |s.rows| && s.rows[i].id == id && Waiting(s.rows[i]);
    var batch, s' := Batch(s, now), Served(s, now);
    BatchServes(s, now, i);
    assert RowHolds(s, s.rows[i]);
    if EventOf(s.rows[i]) in batch {
      assert Arrival(id, s.rows[i].payload) in Arrivals(batch);
    } else {
      forall k | 0 <= k < |batch|
        ensures IdsOf(batch)[k] != id
      {
        assert batch[k] in batch;
      }
      assert s'.rows[i] == s.rows[i];
    }
  }

  predicate Serves(step: Step) {
    step.Drain? || step.Ingest? || step.Acknowledge?
  }

  lemma OneRound(s: State, now: int) returns (states: seq<State>, steps: seq<Step>)
    requires Batch(s, now) != []
    ensures |steps| == 3 && |states| == 4 && states[0] == s && states[3] == Served(s, now)
    ensures forall k | 0 <= k < 3 :: Leads(states[k], steps[k], states[k + 1]) && !steps[k].ReportFailure?
    ensures forall k | 0 <= k < 3 :: Serves(steps[k])
  {
    RoundLeads(s, now);
    states, steps := [s, Drained(s, now), Ingested(s, now), Served(s, now)], RoundSteps(s, now);
  }

  /** No reading is stuck. Once its next attempt is due, and those of the other waiting ones, draining,
      ingesting and acknowledging are enough for the platform to keep it as it was created; nothing is
      dropped or given up on the way. */
  lemma {:induction false} NoReadingIsStuck(s: State, now: int, id: int) returns (states: seq<State>, steps: seq<Step>)
    requires Inv(s) && AllDue(s, now) && id in s.created && IsWaiting(s.rows, id)
    ensures |states| == |steps| + 1 && states[0] == s
    ensures forall k | 0 <= k < |steps| :: Leads(states[k], steps[k], states[k + 1]) && !steps[k].ReportFailure?
    ensures forall k | 0 <= k < |steps| :: Serves(steps[k])
    ensures
      var end := states[|steps|];
      && Arrival(id, s.created[id]) in end.kept
      && end.created == s.created && end.dropped == s.dropped && end.dead == s.dead
    decreases WaitingTo(s.rows, |s.rows|)
  {
    RoundServes(s, now, id);
    states, steps := OneRound(s, now);
    var s' := Served(s, now);
    if Arrival(id, s.created[id]) in s'.kept {
    } else {
      RoundKeeps(s, now);
      SomeoneIsServed(s, now);
      var laterStates, laterSteps := NoReadingIsStuck(s', now, id);
      RunsJoin(states, steps, laterStates, laterSteps);
      states, steps := states + laterStates[1..], steps + laterSteps;
    }
  }
}
