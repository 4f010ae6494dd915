/** What the platform says of its pushes is what happened to them: versions count the pushes, each push's
    status is the last word on it, and the applied version is the highest one acknowledged as applied. */
module PushHistory {
  import opened Results
  import opened Domain
  import opened SqlStore
  import opened ConfigPush

  /** How many of the first n steps push a configuration. */
  function Pushes(steps: seq<Step>, n: nat): nat
    requires n <= |steps|
  {
    if n == 0 then 0 else Pushes(steps, n - 1) + if steps[n - 1].Push? then 1 else 0
  }

  /** The last word on version v among the first n steps: whether its push was delivered, or what a later
      acknowledgement of it said. */
  function LastWord(steps: seq<Step>, n: nat, v: int): Option<PushStatus>
    requires n <= |steps|
  {
    if n == 0 then None
    else
      match steps[n - 1]
      case Push(_, delivered) =>
        if Pushes(steps, n) == v then Some(if delivered then Sent else Queued) else LastWord(steps, n - 1, v)
      case RecordAck(ack) =>
        if ack.version == v then Some(Reported(ack.applied)) else LastWord(steps, n - 1, v)
      case _ => LastWord(steps, n - 1, v)
  }

  /** What was pushed as version v. */
  function PushedAs(steps: seq<Step>, n: nat, v: int): Option<Snapshot>
    requires n <= |steps|
  {
    if n == 0 then None
    else if steps[n - 1].Push? && Pushes(steps, n) == v then Some(steps[n - 1].snapshot.(version := v))
    else PushedAs(steps, n - 1, v)
  }

  ghost predicate PushTells(s: State, steps: seq<Step>, n: nat, v: int)
    requires n <= |steps|
  {
    && (v in s.platform.pushes <==> 1 <= v <= s.platform.version)
    && (v in s.platform.pushes ==>
          && LastWord(steps, n, v) == Some(s.platform.pushes[v].status)
          && PushedAs(steps, n, v) == Some(s.platform.pushes[v].snapshot))
  }

  lemma StepTells(gate: Gate, s: State, steps: seq<Step>, n: nat, v: int)
    requires n < |steps| && Inv(gate, s) && Possible(gate, s, steps[n]) && s.platform.version == Pushes(steps, n)
    requires PushTells(s, steps, n, v)
    requires steps[n].RecordAck? ==> steps[n].ack.version in s.platform.pushes
    ensures PushTells(Next(gate, s, steps[n]), steps, n + 1, v)
  {
  }

  /** An acknowledgement is of a version that was pushed. */
  ghost predicate AcksAreOfPushes(s: State) {
    forall ack | ack in s.acks :: ack.version in s.platform.pushes
  }

  lemma {:induction false} AcksStayOfPushes(gate: Gate, states: seq<State>, steps: seq<Step>, n: nat)
    requires Run(gate, states, steps) && n <= |steps|
    ensures AcksAreOfPushes(states[n])
  {
    if n == 0 {
    } else {
      AcksStayOfPushes(gate, states, steps, n - 1);
      VersionsAreSafe(gate, states, steps, n - 1, n - 1);
      assert StepsTo(gate, states, steps, n - 1);
      if steps[n - 1].Deliver? {
        assert Genuine(states[n - 1], steps[n - 1].message);
      }
    }
  }

  /** In every run the platform's version is the number of pushes, and what it has recorded for each version
      is the snapshot of that push, with the last word on it for a status. */
  lemma {:induction false} PushesTellTheirSteps(gate: Gate, states: seq<State>, steps: seq<Step>, n: nat, v: int)
    requires Run(gate, states, steps) && n <= |steps|
    ensures states[n].platform.version == Pushes(steps, n) && PushTells(states[n], steps, n, v)
  {
    if n == 0 {
    } else {
      PushesTellTheirSteps(gate, states, steps, n - 1, v);
      VersionsAreSafe(gate, states, steps, n - 1, n - 1);
      AcksStayOfPushes(gate, states, steps, n - 1);
      assert StepsTo(gate, states, steps, n - 1);
      StepTells(gate, states[n - 1], steps, n - 1, v);
    }
  }

  predicate AppliedAck(steps: seq<Step>, k: nat)
    requires k < |steps|
  {
    steps[k].RecordAck? && steps[k].ack.applied
  }

  /** The platform's applied version is the highest that an acknowledgement it recorded says is applied. */
  lemma {:induction false} AppliedIsHighestAcknowledged(gate: Gate, states: seq<State>, steps: seq<Step>, n: nat)
    requires Run(gate, states, steps) && n <= |steps|
    ensures forall k | 0 <= k < n && AppliedAck(steps, k) :: steps[k].ack.version <= states[n].platform.applied
    ensures states[n].platform.applied == 0 ||
            exists k | 0 <= k < n :: AppliedAck(steps, k) && steps[k].ack.version == states[n].platform.applied
  {
    if n == 0 {
    } else {
      AppliedIsHighestAcknowledged(gate, states, steps, n - 1);
      assert StepsTo(gate, states, steps, n - 1);
    }
  }

  predicate CommittedAt(steps: seq<Step>, k: nat)
    requires k < |steps|
  {
    steps[k].Deliver? && steps[k].committed && steps[k].recorded
  }

  /** The gateway's highest applied version is the highest that it committed and recorded. */
  lemma {:induction false} HighestIsCommitted(gate: Gate, states: seq<State>, steps: seq<Step>, n: nat)
    requires Run(gate, states, steps) && n <= |steps|
    ensures forall k | 0 <= k < n && CommittedAt(steps, k) :: steps[k].message.version <= Highest(states[n])
    ensures Highest(states[n]) == 0 ||
            exists k | 0 <= k < n :: CommittedAt(steps, k) && steps[k].message.version == Highest(states[n])
  {
    if n == 0 {
    } else {
      HighestIsCommitted(gate, states, steps, n - 1);
      assert StepsTo(gate, states, steps, n - 1);
      var step := steps[n - 1];
      if step.Deliver? {
        HistoryGrows(states[n - 1].gateway.history, HistoryRow(step.message.version, step.committed, step.message));
      }
    }
  }
}
