/** The versioned configuration push: the platform half (internal/core/middleware_config.go), the
    gateway half (realtimeclient/client.go over the SQL store), and the channel between them. */
module ConfigPush {
  import opened Results
  import opened Domain
  import opened SqlStore
  import Outbox

  // ----- the platform -----

  datatype PushStatus = Queued | Sent | Reported(applied: bool)

  datatype Pushed = Pushed(snapshot: Snapshot, status: PushStatus)

  /** The platform's record of one gateway. */
  datatype Record = Record(version: int, applied: int, pushes: map<int, Pushed>)

  function AfterPush(r: Record, snapshot: Snapshot, delivered: bool): Record {
    var v := r.version + 1;
    Record(v, r.applied, r.pushes[v := Pushed(snapshot.(version := v), if delivered then Sent else Queued)])
  }

  function AfterAck(r: Record, version: int, applied: bool): Record {
    Record(r.version,
           if applied && r.applied < version then version else r.applied,
           if version in r.pushes then r.pushes[version := r.pushes[version].(status := Reported(applied))] else r.pushes)
  }

  class Platform {
    var version: int
    var applied: int
    var pushes: map<int, Pushed>

    constructor ()
      ensures Contents() == Record(0, 0, map[])
    {
      version, applied, pushes := 0, 0, map[];
    }

    function Contents(): Record
      reads this
    {
      Record(version, applied, pushes)
    }

    /** doRecomputeAndPushMiddleware, after the transaction has committed. */
    method Push(snapshot: Snapshot, delivered: bool) returns (message: Snapshot)
      modifies this
      ensures Contents() == AfterPush(old(Contents()), snapshot, delivered)
      ensures message == snapshot.(version := version)
    {
      version := version + 1;
      message := snapshot.(version := version);
      pushes := pushes[version := Pushed(message, Queued)];
      if delivered {
        pushes := pushes[version := pushes[version].(status := Sent)];
      }
    }

    method RecordConfigAck(v: int, isApplied: bool)
      modifies this
      ensures Contents() == AfterAck(old(Contents()), v, isApplied)
    {
      if v in pushes {
        pushes := pushes[v := pushes[v].(status := Reported(isApplied))];
      }
      if isApplied && applied < v {
        applied := v;
      }
    }
  }

  // ----- the gateway -----

  datatype Ack = Ack(version: int, applied: bool)

  /** handleConfigSnapshot: the acknowledgement repeats what the store answered. */
  method HandleConfigSnapshot(store: SqliteStore, message: Snapshot, budget: nat, schemaFails: bool, historyFails: bool)
    returns (ack: Ack, ghost committed: bool)
    modifies store
    ensures committed ==> TheGate()(message).Some?
    ensures store.Contents() ==
            Attempted(TheGate(), old(store.Contents()), message.version, message, committed, !schemaFails && !historyFails)
    ensures ack == Ack(message.version, committed && !historyFails)
  {
    var ok;
    ok, committed := store.ApplyConfigSnapshot(message.version, message, budget, schemaFails, historyFails);
    ack := Ack(message.version, ok);
  }

  // ----- the system -----

  /** What the gateway's tables come from. */
  datatype Origin = Fresh | Version(version: int) | Edited

  /** Messages stay on the channel once sent: each may arrive late, more than once, or never. */
  datatype State = State(platform: Record, gateway: Stored, sent: set<Snapshot>, acks: set<Ack>, origin: Origin)

  const START := State(Record(0, 0, map[]), Stored(EMPTY, []), {}, {}, Fresh)

  datatype Step =
    | Push(snapshot: Snapshot, delivered: bool)
    | Deliver(message: Snapshot, committed: bool, recorded: bool)
    | RecordAck(ack: Ack)
    | EditLocally(tables: Tables)

  /** A transaction commits only a snapshot that passes the gate. */
  predicate Possible(gate: Gate, s: State, step: Step) {
    match step
    case Deliver(message, committed, _) => message in s.sent && (committed ==> gate(message).Some?)
    case RecordAck(ack) => ack in s.acks
    case _ => true
  }

  function Next(gate: Gate, s: State, step: Step): State
    requires Possible(gate, s, step)
  {
    match step
    case Push(snapshot, delivered) =>
      var platform := AfterPush(s.platform, snapshot, delivered);
      s.(platform := platform, sent := s.sent + {snapshot.(version := platform.version)})
    case Deliver(message, committed, recorded) =>
      s.(gateway := Attempted(gate, s.gateway, message.version, message, committed, recorded),
         acks := s.acks + {Ack(message.version, committed && recorded)},
         origin := if committed then Version(message.version) else s.origin)
    case RecordAck(ack) => s.(platform := AfterAck(s.platform, ack.version, ack.applied))
    case EditLocally(tables) => s.(gateway := s.gateway.(tables := tables), origin := Edited)
  }

  /** A run as the states it passes through. */
  ghost predicate Run(gate: Gate, states: seq<State>, steps: seq<Step>) {
    && |states| == |steps| + 1 && states[0] == START
    && forall k | 0 <= k < |steps| :: StepsTo(gate, states, steps, k)
  }

  predicate StepsTo(gate: Gate, states: seq<State>, steps: seq<Step>, k: nat)
    requires k < |steps| && |states| == |steps| + 1
  {
    Possible(gate, states[k], steps[k]) && states[k + 1] == Next(gate, states[k], steps[k])
  }

  // ----- the invariant -----

  /** The highest version the gateway has recorded as applied. */
  function Highest(s: State): int {
    Outbox.HighestApplied(s.gateway.history)
  }

  /** A message is the one push of its version. */
  predicate Genuine(s: State, message: Snapshot) {
    && 1 <= message.version <= s.platform.version
    && message.version in s.platform.pushes && s.platform.pushes[message.version].snapshot == message
  }

  ghost predicate MessagesHold(s: State) {
    && (forall m | m in s.sent :: Genuine(s, m))
    && (forall i | 0 <= i < |s.gateway.history| ::
          s.gateway.history[i].version == s.gateway.history[i].snapshot.version && s.gateway.history[i].snapshot in s.sent)
    && (forall ack | ack in s.acks && ack.applied :: ack.version <= Highest(s))
  }

  ghost predicate TablesHold(gate: Gate, s: State) {
    match s.origin
    case Fresh => s.gateway.tables == EMPTY
    case Edited => true
    case Version(v) =>
      && v in s.platform.pushes
      && var pushed := s.platform.pushes[v].snapshot;
      pushed in s.sent && pushed.version == v && gate(pushed) == Some(s.gateway.tables)
  }

  ghost predicate Inv(gate: Gate, s: State) {
    && 0 <= s.platform.applied <= Highest(s) <= s.platform.version
    && MessagesHold(s) && TablesHold(gate, s)
  }

  lemma HistoryGrows(history: seq<HistoryRow>, row: HistoryRow)
    ensures
      var before, after := Outbox.HighestApplied(history), Outbox.HighestApplied(history + [row]);
      after == if row.applied && row.version > before then row.version else before
  {
    HighestOfPrefix(history, row, |history|);
  }

  lemma {:induction false} HighestOfPrefix(history: seq<HistoryRow>, row: HistoryRow, n: nat)
    requires n <= |history|
    ensures Outbox.HighestAppliedTo(history + [row], n) == Outbox.HighestAppliedTo(history, n)
  {
    if n == 0 {
    } else {
      HighestOfPrefix(history, row, n - 1);
    }
  }

  lemma PushKeeps(gate: Gate, s: State, snapshot: Snapshot, delivered: bool)
    requires Inv(gate, s)
    ensures Inv(gate, Next(gate, s, Push(snapshot, delivered)))
  {
    var s' := Next(gate, s, Push(snapshot, delivered));
    forall m | m in s'.sent
      ensures Genuine(s', m)
    {
      assert m in s.sent ==> Genuine(s, m);
    }
    assert s.origin.Version? ==> Genuine(s, s.platform.pushes[s.origin.version].snapshot);
  }

  lemma DeliverKeeps(gate: Gate, s: State, message: Snapshot, committed: bool, recorded: bool)
    requires Inv(gate, s) && Possible(gate, s, Deliver(message, committed, recorded))
    ensures Inv(gate, Next(gate, s, Deliver(message, committed, recorded)))
    ensures Highest(s) <= Highest(Next(gate, s, Deliver(message, committed, recorded)))
  {
    assert Genuine(s, message);
    HistoryGrows(s.gateway.history, HistoryRow(message.version, committed, message));
  }

  lemma AckKeeps(gate: Gate, s: State, ack: Ack)
    requires Inv(gate, s) && ack in s.acks
    ensures Inv(gate, Next(gate, s, RecordAck(ack))) && s.platform.applied <= Next(gate, s, RecordAck(ack)).platform.applied
  {
    var s' := Next(gate, s, RecordAck(ack));
    forall m | m in s'.sent
      ensures Genuine(s', m)
    {
      assert Genuine(s, m);
    }
  }

  lemma StepKeeps(gate: Gate, s: State, step: Step)
    requires Inv(gate, s) && Possible(gate, s, step)
    ensures
      var s' := Next(gate, s, step);
      Inv(gate, s') && s.platform.applied <= s'.platform.applied && Highest(s) <= Highest(s') && s.platform.version <= s'.platform.version
  {
    match step
    case Push(snapshot, delivered) => PushKeeps(gate, s, snapshot, delivered);
    case Deliver(message, committed, recorded) => DeliverKeeps(gate, s, message, committed, recorded);
    case RecordAck(ack) => AckKeeps(gate, s, ack);
    case EditLocally(_) =>
  }

  /** In every run the platform's applied version is at most the gateway's highest applied version,
      which is at most the platform's version; and none of the three ever decreases. */
  lemma {:induction false} VersionsAreSafe(gate: Gate, states: seq<State>, steps: seq<Step>, m: nat, n: nat)
    requires Run(gate, states, steps) && m <= n <= |steps|
    ensures Inv(gate, states[n]) && Inv(gate, states[m])
    ensures states[m].platform.applied <= states[n].platform.applied
    ensures Highest(states[m]) <= Highest(states[n])
    ensures states[m].platform.version <= states[n].platform.version
    decreases n
  {
    if n == 0 {
    } else {
      VersionsAreSafe(gate, states, steps, if m < n then m else n - 1, n - 1);
      assert StepsTo(gate, states, steps, n - 1);
      StepKeeps(gate, states[n - 1], steps[n - 1]);
    }
  }

  // ----- which configuration the gateway has -----

  /** A local edit is never orderly. A commit is when it is recorded and no newer version was
      recorded before it. */
  predicate Orderly(s: State, step: Step) {
    match step
    case EditLocally(_) => false
    case Deliver(message, committed, recorded) => committed ==> recorded && Highest(s) <= message.version
    case _ => true
  }

  /** The tables come from the highest applied version, if there is one. */
  predicate UpToDate(s: State) {
    s.origin == if Highest(s) == 0 then Fresh else Version(Highest(s))
  }

  /** A commit leaves the gateway on its highest applied version exactly when it is orderly, or
      repeats that version without a record. */
  lemma CommitIsUpToDateIff(gate: Gate, s: State, message: Snapshot, recorded: bool)
    requires Inv(gate, s) && Possible(gate, s, Deliver(message, true, recorded))
    ensures UpToDate(Next(gate, s, Deliver(message, true, recorded))) <==>
            if recorded then Highest(s) <= message.version else Highest(s) == message.version
  {
    assert Genuine(s, message);
    HistoryGrows(s.gateway.history, HistoryRow(message.version, true, message));
  }

  lemma OrderlyStepKeepsUpToDate(gate: Gate, s: State, step: Step)
    requires Inv(gate, s) && Possible(gate, s, step) && UpToDate(s) && Orderly(s, step)
    ensures UpToDate(Next(gate, s, step))
  {
    if step.Deliver? {
      if step.committed {
        CommitIsUpToDateIff(gate, s, step.message, step.recorded);
      } else {
        HistoryGrows(s.gateway.history, HistoryRow(step.message.version, false, step.message));
      }
    }
  }

  /** Pushes are delivered in the order of their versions, commits are recorded, and nobody edits
      the gateway locally. */
  ghost predicate InOrder(steps: seq<Step>) {
    && (forall k | 0 <= k < |steps| :: !steps[k].EditLocally? && (steps[k].Deliver? && steps[k].committed ==> steps[k].recorded))
    && forall i, j | 0 <= i < j < |steps| && steps[i].Deliver? && steps[j].Deliver? ::
         steps[i].message.version <= steps[j].message.version
  }

  lemma {:induction false} HighestWasDelivered(gate: Gate, states: seq<State>, steps: seq<Step>, n: nat)
    requires Run(gate, states, steps) && n <= |steps|
    ensures Highest(states[n]) == 0 || exists i | 0 <= i < n :: steps[i].Deliver? && steps[i].message.version == Highest(states[n])
  {
    if n == 0 {
    } else {
      HighestWasDelivered(gate, states, steps, n - 1);
      assert StepsTo(gate, states, steps, n - 1);
      var step := steps[n - 1];
      if step.Deliver? {
        HistoryGrows(states[n - 1].gateway.history, HistoryRow(step.message.version, step.committed, step.message));
      }
    }
  }

  lemma InOrderStepIsOrderly(gate: Gate, states: seq<State>, steps: seq<Step>, k: nat)
    requires Run(gate, states, steps) && InOrder(steps) && k < |steps|
    ensures Orderly(states[k], steps[k])
  {
    HighestWasDelivered(gate, states, steps, k);
    VersionsAreSafe(gate, states, steps, k, k);
    assert StepsTo(gate, states, steps, k);
    if steps[k].Deliver? {
      assert Genuine(states[k], steps[k].message);
    }
  }

  lemma {:induction false} InOrderIsUpToDate(gate: Gate, states: seq<State>, steps: seq<Step>, n: nat)
    requires Run(gate, states, steps) && InOrder(steps) && n <= |steps|
    ensures UpToDate(states[n])
  {
    if n == 0 {
    } else {
      InOrderIsUpToDate(gate, states, steps, n - 1);
      VersionsAreSafe(gate, states, steps, n - 1, n - 1);
      InOrderStepIsOrderly(gate, states, steps, n - 1);
      assert StepsTo(gate, states, steps, n - 1);
      OrderlyStepKeepsUpToDate(gate, states[n - 1], steps[n - 1]);
    }
  }

  /** With in-order delivery, recorded commits and no local edits, the gateway's tables are always
      what its gate makes of the highest version it has recorded as applied, whatever is lost or
      repeated; before any version is applied they are empty. */
  lemma InOrderRunsHoldTheHighest(gate: Gate, states: seq<State>, steps: seq<Step>, n: nat)
    requires Run(gate, states, steps) && InOrder(steps) && n <= |steps|
    ensures
      var s := states[n];
      var v := Highest(s);
      if v == 0 then s.gateway.tables == EMPTY
      else v in s.platform.pushes && gate(s.platform.pushes[v].snapshot) == Some(s.gateway.tables)
  {
    InOrderIsUpToDate(gate, states, steps, n);
    VersionsAreSafe(gate, states, steps, n, n);
  }

  /** Out of order it fails: if the second push overtakes the first, the gateway ends on the first
      configuration while both sides report the second version as applied. */
  lemma OvertakingPushIsLost(gate: Gate, a: Snapshot, b: Snapshot) returns (states: seq<State>, steps: seq<Step>)
    requires gate(a.(version := 1)).Some? && gate(b.(version := 2)).Some?
    ensures Run(gate, states, steps) && |steps| == 5
    ensures
      var s := states[5];
      && s.gateway.tables == gate(a.(version := 1)).value
      && Highest(s) == 2 && s.platform.applied == 2
      && 2 in s.platform.pushes && s.platform.pushes[2].snapshot == b.(version := 2)
  {
    var m1, m2 := a.(version := 1), b.(version := 2);
    steps := [Push(a, true), Push(b, true), Deliver(m2, true, true), Deliver(m1, true, true), RecordAck(Ack(2, true))];
    var s1 := Next(gate, START, steps[0]);
    var s2 := Next(gate, s1, steps[1]);
    var s3 := Next(gate, s2, steps[2]);
    HistoryGrows([], HistoryRow(2, true, m2));
    assert s3.gateway.history == [] + [HistoryRow(2, true, m2)];
    var s4 := Next(gate, s3, steps[3]);
    HistoryGrows(s3.gateway.history, HistoryRow(1, true, m1));
    var s5 := Next(gate, s4, steps[4]);
    states := [START, s1, s2, s3, s4, s5];
    assert StepsTo(gate, states, steps, 0) && StepsTo(gate, states, steps, 1) && StepsTo(gate, states, steps, 2);
    assert StepsTo(gate, states, steps, 3) && StepsTo(gate, states, steps, 4);
  }

  /** A commit whose record cannot be written is reported as failed, although the gateway runs on it. */
  lemma UnrecordedCommitIsReportedFailed(gate: Gate, a: Snapshot) returns (states: seq<State>, steps: seq<Step>)
    requires gate(a.(version := 1)).Some?
    ensures Run(gate, states, steps) && |steps| == 3
    ensures
      var s := states[3];
      && Some(s.gateway.tables) == gate(a.(version := 1)) && Highest(s) == 0
      && 1 in s.platform.pushes && s.platform.pushes[1].status == Reported(false)
  {
    var m := a.(version := 1);
    steps := [Push(a, true), Deliver(m, true, false), RecordAck(Ack(1, false))];
    var s1 := Next(gate, START, steps[0]);
    var s2 := Next(gate, s1, steps[1]);
    var s3 := Next(gate, s2, steps[2]);
    states := [START, s1, s2, s3];
    assert StepsTo(gate, states, steps, 0) && StepsTo(gate, states, steps, 1) && StepsTo(gate, states, steps, 2);
  }
}
