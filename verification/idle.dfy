/** internal/app/service.go, Enqueue: readings that repeat the last stored one are dropped until
    a heartbeat is due. */
module Idle {
  import opened Results
  import opened Domain
  import opened Sequences
  import Decoding
  import Text

  /** The last reading stored for a device. */
  datatype Baseline = Baseline(values: map<int, Decoding.Value>, at: int)

  /** What the store answers to an insert. */
  datatype Outcome = Outcome(created: bool, failed: bool)

  datatype Answer = Refused | Skipped | Passed(outcome: Outcome)

  /** Milliseconds. */
  const DEFAULT_HEARTBEAT := 1_800_000

  // ----- one reading -----

  /** PrepareReadingForAPI. */
  function Prepared(r: Reading, gatewayId: string): Option<Reading> {
    var id := Text.TrimSpace(gatewayId);
    var r' := r.(device := r.device.(gatewayId := id));
    if id == "" || r.device.devDn == "" || r.device.plantCode == "" || r.device.devTypeId <= 0 || r.collectTime <= 0 || r.values == map[]
    then None
    else Some(r')
  }

  /** A reading is passed on as it is, under the gateway's id without the space around it. */
  lemma PreparedIs(r: Reading, gatewayId: string)
    ensures Prepared(r, gatewayId).Some? ==>
              var p := Prepared(r, gatewayId).value;
              && p.collectTime == r.collectTime && p.values == r.values
              && p.device == Device(Text.TrimSpace(gatewayId), r.device.plantCode, r.device.devTypeId, r.device.devDn)
  {
  }

  function HeartbeatSetting(seconds: int): int {
    if seconds < 60 || seconds > 86400 then 0 else seconds * 1000
  }

  /** The heartbeat in force. */
  function Period(setting: int): int {
    if setting <= 0 then DEFAULT_HEARTBEAT else setting
  }

  predicate Repeats(last: map<Device, Baseline>, setting: int, r: Reading) {
    && r.device in last
    && last[r.device].values == r.values
    && last[r.device].at <= r.collectTime
    && r.collectTime - last[r.device].at < Period(setting)
  }

  // ----- the service -----

  class Service {
    var lastEnqueued: map<Device, Baseline>
    var idleHeartbeat: int

    constructor ()
      ensures lastEnqueued == map[] && idleHeartbeat == 0
    {
      lastEnqueued, idleHeartbeat := map[], 0;
    }

    method SetIdleHeartbeat(seconds: int)
      modifies this`idleHeartbeat
      ensures idleHeartbeat == HeartbeatSetting(seconds)
      ensures Period(idleHeartbeat) == if 60 <= seconds <= 86400 then seconds * 1000 else 1_800_000
    {
      if seconds < 60 || seconds > 86400 {
        idleHeartbeat := 0;
        return;
      }
      idleHeartbeat := seconds * 1000;
    }

    /** Whether the reading repeats the baseline; if not, it becomes the baseline. */
    method SkipUnchanged(r: Reading) returns (skip: bool)
      modifies this`lastEnqueued
      ensures skip == Repeats(old(lastEnqueued), idleHeartbeat, r)
      ensures lastEnqueued == if skip then old(lastEnqueued) else old(lastEnqueued)[r.device := Baseline(r.values, r.collectTime)]
    {
      if r.device in lastEnqueued {
        var last := lastEnqueued[r.device];
        var heartbeat := if idleHeartbeat <= 0 then DEFAULT_HEARTBEAT else idleHeartbeat;
        if last.values == r.values && !(r.collectTime < last.at) && r.collectTime - last.at < heartbeat {
          return true;
        }
      }
      lastEnqueued := lastEnqueued[r.device := Baseline(r.values, r.collectTime)];
      return false;
    }

    method ForgetEnqueued(r: Reading)
      modifies this`lastEnqueued
      ensures lastEnqueued == old(lastEnqueued) - {r.device}
    {
      lastEnqueued := lastEnqueued - {r.device};
    }

    /** `outcome` is what the store would answer to this insert. */
    method Enqueue(reading: Reading, gatewayId: string, outcome: Outcome) returns (answer: Answer)
      modifies this`lastEnqueued
      ensures answer == Refused <==>
              || Text.TrimSpace(gatewayId) == "" || reading.device.devDn == "" || reading.device.plantCode == ""
              || reading.device.devTypeId < 1 || reading.collectTime < 1 || reading.values == map[]
      ensures answer == AnswerTo(old(lastEnqueued), idleHeartbeat, reading, gatewayId, outcome)
      ensures lastEnqueued == BaselinesAfter(old(lastEnqueued), idleHeartbeat, reading, gatewayId, outcome)
    {
      var prepared := Prepared(reading, gatewayId);
      if prepared.None? {
        return Refused;
      }
      var r := prepared.value;
      var skip := SkipUnchanged(r);
      if skip {
        return Skipped;
      }
      if outcome.failed || !outcome.created {
        ForgetEnqueued(r);
      }
      return Passed(outcome);
    }
  }

  function AnswerTo(last: map<Device, Baseline>, setting: int, reading: Reading, gatewayId: string, outcome: Outcome): Answer {
    match Prepared(reading, gatewayId)
    case None => Refused
    case Some(r) => if Repeats(last, setting, r) then Skipped else Passed(outcome)
  }

  function BaselinesAfter(last: map<Device, Baseline>, setting: int, reading: Reading, gatewayId: string, outcome: Outcome): map<Device, Baseline> {
    match Prepared(reading, gatewayId)
    case None => last
    case Some(r) =>
      if Repeats(last, setting, r) then last
      else if outcome.created && !outcome.failed then last[r.device := Baseline(r.values, r.collectTime)]
      else last[r.device := Baseline(r.values, r.collectTime)] - {r.device}
  }

  // ----- runs -----

  datatype Event =
    | Poll(reading: Reading, gatewayId: string, outcome: Outcome)
    | SetHeartbeat(seconds: int)
    | Restart

  /** The service's fields, with the rows created so far in order. */
  datatype State = State(last: map<Device, Baseline>, setting: int, log: seq<Reading>)

  function Next(s: State, e: Event): State {
    match e
    case SetHeartbeat(seconds) => s.(setting := HeartbeatSetting(seconds))
    case Restart => s.(last := map[], setting := 0)
    case Poll(reading, gatewayId, outcome) =>
      State(BaselinesAfter(s.last, s.setting, reading, gatewayId, outcome), s.setting,
            if AnswerTo(s.last, s.setting, reading, gatewayId, outcome).Passed? && outcome.created
            then s.log + [Prepared(reading, gatewayId).value] else s.log)
  }

  function After(events: seq<Event>, n: nat): State
    requires n <= |events|
  {
    if n == 0 then State(map[], 0, []) else Next(After(events, n - 1), events[n - 1])
  }

  /** The last row created for a device among the first n. */
  function HeldTo(log: seq<Reading>, device: Device, n: nat): (r: Option<Reading>)
    requires n <= |log|
    ensures r.Some? ==> r.value.device == device
  {
    if n == 0 then None
    else if log[n - 1].device == device then Some(log[n - 1])
    else HeldTo(log, device, n - 1)
  }

  function Held(log: seq<Reading>, device: Device): Option<Reading> {
    HeldTo(log, device, |log|)
  }

  lemma {:induction false} HeldPrefix(log: seq<Reading>, more: seq<Reading>, device: Device, n: nat)
    requires n <= |log|
    ensures HeldTo(log + more, device, n) == HeldTo(log, device, n)
  {
    if n == 0 {
    } else {
      HeldPrefix(log, more, device, n - 1);
    }
  }

  lemma HeldAppend(log: seq<Reading>, r: Reading, device: Device)
    ensures Held(log + [r], device) == if r.device == device then Some(r) else Held(log, device)
  {
    HeldPrefix(log, [r], device, |log|);
  }

  /** A baseline is always the last row created for its device. */
  ghost predicate Inv(s: State) {
    && 0 <= Period(s.setting) <= 86_400_000
    && forall d | d in s.last ::
         var held := Held(s.log, d);
         held.Some? && held.value.values == s.last[d].values && held.value.collectTime == s.last[d].at
  }

  lemma StepKeeps(s: State, e: Event)
    requires Inv(s)
    ensures Inv(Next(s, e))
  {
    var s' := Next(s, e);
    if s'.log != s.log {
      var r := Prepared(e.reading, e.gatewayId).value;
      forall d | d in s'.last
        ensures Held(s'.log, d) == if r.device == d then Some(r) else Held(s.log, d)
      {
        HeldAppend(s.log, r, d);
      }
    }
  }

  lemma {:induction false} RunKeeps(events: seq<Event>, n: nat)
    requires n <= |events|
    ensures Inv(After(events, n))
  {
    if n == 0 {
    } else {
      RunKeeps(events, n - 1);
      StepKeeps(After(events, n - 1), events[n - 1]);
    }
  }

  /** The answer to the poll at position k of a run. */
  function AnswerAt(events: seq<Event>, k: nat): Answer
    requires k < |events| && events[k].Poll?
  {
    var s, e := After(events, k), events[k];
    AnswerTo(s.last, s.setting, e.reading, e.gatewayId, e.outcome)
  }

  /** Suppression is lossless, with bounded staleness. In any run, with store failures, heartbeat
      changes and restarts, a skipped poll repeats the values of the last row created for its
      device, and that row is younger than the heartbeat in force, so at most a day old. */
  lemma SkippedIsHeld(events: seq<Event>, k: nat)
    requires k < |events| && events[k].Poll? && AnswerAt(events, k) == Skipped
    ensures
      var s, r := After(events, k), Prepared(events[k].reading, events[k].gatewayId).value;
      var held := Held(s.log, r.device);
      && held.Some? && held.value.values == r.values
      && 0 <= r.collectTime - held.value.collectTime < Period(s.setting) <= 86_400_000
  {
    RunKeeps(events, k);
  }

  /** Holding the last stored value reproduces every poll that was skipped or stored. */
  lemma HoldingReproducesPolls(events: seq<Event>, k: nat)
    requires k < |events| && events[k].Poll?
    requires
      var answer := AnswerAt(events, k);
      answer == Skipped || (answer.Passed? && answer.outcome.created)
    ensures
      var r := Prepared(events[k].reading, events[k].gatewayId).value;
      var held := Held(After(events, k + 1).log, r.device);
      held.Some? && held.value.values == r.values
  {
    var r := Prepared(events[k].reading, events[k].gatewayId).value;
    if AnswerAt(events, k) == Skipped {
      SkippedIsHeld(events, k);
    } else {
      HeldAppend(After(events, k).log, r, r.device);
    }
  }

  // ----- looking the value up by time -----

  /** The last of the first n rows of a device that is not later than t. */
  function LookUpTo(log: seq<Reading>, device: Device, t: int, n: nat): Option<Reading>
    requires n <= |log|
  {
    if n == 0 then None
    else if log[n - 1].device == device && log[n - 1].collectTime <= t then Some(log[n - 1])
    else LookUpTo(log, device, t, n - 1)
  }

  ghost predicate NotAfter(log: seq<Reading>, device: Device, t: int) {
    forall i | 0 <= i < |log| && log[i].device == device :: log[i].collectTime <= t
  }

  lemma {:induction false} LookUpIsHeld(log: seq<Reading>, device: Device, t: int, n: nat)
    requires n <= |log| && NotAfter(log, device, t)
    ensures LookUpTo(log, device, t, n) == HeldTo(log, device, n)
  {
    if n == 0 {
    } else {
      LookUpIsHeld(log, device, t, n - 1);
    }
  }

  /** The later log continues the log, for the device with rows after t or with some of `ties`. */
  ghost predicate Continues(log: seq<Reading>, later: seq<Reading>, device: Device, t: int, ties: set<Reading>) {
    && |log| <= |later| && later[..|log|] == log
    && forall i | |log| <= i < |later| && later[i].device == device :: later[i].collectTime > t || later[i] in ties
  }

  ghost predicate SameOrTied(before: Option<Reading>, after: Option<Reading>, ties: set<Reading>) {
    after == before || (after.Some? && after.value in ties)
  }

  lemma {:induction false} LaterRowsDoNotMatter(log: seq<Reading>, later: seq<Reading>, device: Device, t: int, ties: set<Reading>, n: nat)
    requires Continues(log, later, device, t, ties) && |log| <= n <= |later|
    ensures SameOrTied(LookUpTo(log, device, t, |log|), LookUpTo(later, device, t, n), ties)
  {
    if n == |log| {
      SamePrefix(log, later, device, t, n);
    } else {
      LaterRowsDoNotMatter(log, later, device, t, ties, n - 1);
    }
  }

  lemma {:induction false} SamePrefix(log: seq<Reading>, later: seq<Reading>, device: Device, t: int, n: nat)
    requires n <= |log| <= |later| && later[..|log|] == log
    ensures LookUpTo(later, device, t, n) == LookUpTo(log, device, t, n)
  {
    if n == 0 {
    } else {
      SamePrefix(log, later, device, t, n - 1);
      assert later[n - 1] == later[..|log|][n - 1];
    }
  }

  /** The device of a poll, as its row would name it. */
  predicate IsPollOf(e: Event, device: Device) {
    e.Poll? && Prepared(e.reading, e.gatewayId).Some? && Prepared(e.reading, e.gatewayId).value.device == device
  }

  /** What the poll at position k, if it is one of the device, says about its time. */
  predicate FromTime(events: seq<Event>, k: nat, device: Device, t: int)
    requires k < |events|
  {
    IsPollOf(events[k], device) ==> events[k].reading.collectTime >= t
  }

  predicate UpToTime(events: seq<Event>, k: nat, device: Device, t: int)
    requires k < |events|
  {
    IsPollOf(events[k], device) ==> events[k].reading.collectTime <= t
  }

  /** The log grows by polls only. */
  lemma LogStep(s: State, e: Event)
    ensures
      var s' := Next(s, e);
      || s'.log == s.log
      || (e.Poll? && Prepared(e.reading, e.gatewayId).Some? && s'.log == s.log + [Prepared(e.reading, e.gatewayId).value])
  {
  }

  lemma ContinuesByOne(log: seq<Reading>, later: seq<Reading>, r: Reading, device: Device, t: int, ties: set<Reading>)
    requires Continues(log, later, device, t, ties) && (r.device == device ==> r.collectTime > t || r in ties)
    ensures Continues(log, later + [r], device, t, ties)
  {
    assert (later + [r])[..|log|] == later[..|log|];
  }

  lemma ContinuesByStep(log: seq<Reading>, s: State, e: Event, device: Device, t: int, ties: set<Reading>)
    requires Continues(log, s.log, device, t, ties)
    requires IsPollOf(e, device) ==> e.reading.collectTime > t || Prepared(e.reading, e.gatewayId).value in ties
    ensures Continues(log, Next(s, e).log, device, t, ties)
  {
    LogStep(s, e);
    if Next(s, e).log != s.log {
      ContinuesByOne(log, s.log, Prepared(e.reading, e.gatewayId).value, device, t, ties);
    }
  }

  /** The rows that polls of the device from position m on may store at time t. */
  function Ties(events: seq<Event>, m: nat, device: Device, t: int): set<Reading> {
    set i | m <= i < |events| && IsPollOf(events[i], device) && events[i].reading.collectTime == t ::
      Prepared(events[i].reading, events[i].gatewayId).value
  }

  lemma TimeOrTie(events: seq<Event>, m: nat, k: nat, device: Device, t: int)
    requires m <= k < |events| && FromTime(events, k, device, t) && IsPollOf(events[k], device)
    ensures events[k].reading.collectTime > t || Prepared(events[k].reading, events[k].gatewayId).value in Ties(events, m, device, t)
  {
  }

  lemma ContinuesByPoll(events: seq<Event>, m: nat, k: nat, log: seq<Reading>, s: State, device: Device, t: int)
    requires m <= k < |events| && FromTime(events, k, device, t) && Continues(log, s.log, device, t, Ties(events, m, device, t))
    ensures Continues(log, Next(s, events[k]).log, device, t, Ties(events, m, device, t))
  {
    if IsPollOf(events[k], device) {
      TimeOrTie(events, m, k, device, t);
    }
    ContinuesByStep(log, s, events[k], device, t, Ties(events, m, device, t));
  }

  lemma {:induction false} LogGrows(events: seq<Event>, m: nat, n: nat, device: Device, t: int)
    requires m <= n <= |events|
    requires forall k | m <= k < n :: FromTime(events, k, device, t)
    ensures Continues(After(events, m).log, After(events, n).log, device, t, Ties(events, m, device, t))
  {
    if m == n {
    } else {
      LogGrows(events, m, n - 1, device, t);
      assert FromTime(events, n - 1, device, t);
      ContinuesByPoll(events, m, n - 1, After(events, m).log, After(events, n - 1), device, t);
    }
  }

  lemma {:induction false} LogIsNotAfter(events: seq<Event>, n: nat, device: Device, t: int)
    requires n <= |events|
    requires forall k | 0 <= k < n :: UpToTime(events, k, device, t)
    ensures NotAfter(After(events, n).log, device, t)
  {
    if n == 0 {
    } else {
      LogIsNotAfter(events, n - 1, device, t);
      LogStep(After(events, n - 1), events[n - 1]);
      assert UpToTime(events, n - 1, device, t);
    }
  }

  /** For a device polled in order of time, the stored rows alone reproduce a skipped poll: at the
      end of the run, the last row not later than the poll has the values it read, unless it was
      stored by a later poll of the device at that very millisecond. */
  lemma RowsReproduceSkippedPolls(events: seq<Event>, k: nat, device: Device)
    requires k < |events| && IsPollOf(events[k], device) && AnswerAt(events, k) == Skipped
    requires forall i | 0 <= i < k :: UpToTime(events, i, device, events[k].reading.collectTime)
    requires forall i | k < i < |events| :: FromTime(events, i, device, events[k].reading.collectTime)
    ensures
      var t, log := events[k].reading.collectTime, After(events, |events|).log;
      var row := LookUpTo(log, device, t, |log|);
      && row.Some?
      && (row.value.values == events[k].reading.values || row.value in Ties(events, k + 1, device, t))
  {
    var t := events[k].reading.collectTime;
    SkippedPollIsHeld(events, k, device);
    LogIsNotAfter(events, k, device, t);
    LogGrowsPastSkip(events, k, device, t);
    LookUpSurvives(After(events, k).log, After(events, |events|).log, device, t, Ties(events, k + 1, device, t));
  }

  lemma SkippedPollIsHeld(events: seq<Event>, k: nat, device: Device)
    requires k < |events| && IsPollOf(events[k], device) && AnswerAt(events, k) == Skipped
    ensures
      var held := Held(After(events, k).log, device);
      held.Some? && held.value.values == events[k].reading.values
  {
    SkippedIsHeld(events, k);
  }

  lemma LogGrowsPastSkip(events: seq<Event>, k: nat, device: Device, t: int)
    requires k < |events| && events[k].Poll? && AnswerAt(events, k) == Skipped
    requires forall i | k < i < |events| :: FromTime(events, i, device, t)
    ensures Continues(After(events, k).log, After(events, |events|).log, device, t, Ties(events, k + 1, device, t))
  {
    SkippingStoresNothing(events, k);
    LogGrows(events, k + 1, |events|, device, t);
  }

  lemma SkippingStoresNothing(events: seq<Event>, k: nat)
    requires k < |events| && events[k].Poll? && AnswerAt(events, k) == Skipped
    ensures After(events, k + 1).log == After(events, k).log
  {
  }

  lemma LookUpSurvives(before: seq<Reading>, later: seq<Reading>, device: Device, t: int, ties: set<Reading>)
    requires NotAfter(before, device, t) && Continues(before, later, device, t, ties)
    ensures SameOrTied(Held(before, device), LookUpTo(later, device, t, |later|), ties)
  {
    LookUpIsHeld(before, device, t, |before|);
    LaterRowsDoNotMatter(before, later, device, t, ties, |later|);
  }

  /** A reading taken a millisecond later. */
  function Later(r: Reading, values: map<int, Decoding.Value>): Reading {
    r.(collectTime := r.collectTime + 1, values := values)
  }

  /** The exception is real: a changed reading at the same millisecond as a skipped poll is stored,
      and the look-up finds it instead. */
  lemma SameMillisecondTakesOver(r: Reading, gatewayId: string, changed: map<int, Decoding.Value>) returns (events: seq<Event>)
    requires Prepared(r, gatewayId) == Some(r) && changed != map[] && changed != r.values
    ensures |events| == 3 && events[1].Poll? && AnswerAt(events, 1) == Skipped
    ensures
      var log := After(events, 3).log;
      LookUpTo(log, r.device, events[1].reading.collectTime, |log|) == Some(Later(r, changed))
  {
    var stored := Outcome(true, false);
    events := [Poll(r, gatewayId, stored), Poll(Later(r, r.values), gatewayId, stored), Poll(Later(r, changed), gatewayId, stored)];
    var s0 := After(events, 0);
    var s1 := State(map[r.device := Baseline(r.values, r.collectTime)], 0, [r]);
    assert Next(s0, events[0]) == s1;
    assert After(events, 1) == s1;
    assert Next(s1, events[1]) == s1;
    assert After(events, 2) == s1;
    assert After(events, 3).log == [r] + [Later(r, changed)];
  }

  // ----- exactly when a poll is skipped -----

  /** The poll at position j stored a row of the device. */
  predicate Stores(events: seq<Event>, j: nat, device: Device)
    requires j < |events|
  {
    IsPollOf(events[j], device) && AnswerAt(events, j) == Passed(Outcome(true, false))
  }

  /** The event is no restart, and no poll of the device that was passed on to the store. */
  predicate LeavesAlone(events: seq<Event>, i: nat, device: Device)
    requires i < |events|
  {
    !events[i].Restart? && (IsPollOf(events[i], device) ==> AnswerAt(events, i) == Skipped)
  }

  /** Before position n, the poll at j was the last that was passed on for the device, and it was stored. */
  ghost predicate LastStored(events: seq<Event>, j: nat, n: nat, device: Device)
    requires n <= |events|
  {
    j < n && Stores(events, j, device) && forall i | j < i < n :: LeavesAlone(events, i, device)
  }

  ghost predicate BaselineTells(events: seq<Event>, n: nat, device: Device)
    requires n <= |events|
  {
    var last := After(events, n).last;
    && (forall j: nat | LastStored(events, j, n, device) ::
          device in last && last[device] == Baseline(events[j].reading.values, events[j].reading.collectTime))
    && (device in last ==> exists j: nat :: LastStored(events, j, n, device))
  }

  lemma LastStoredBefore(events: seq<Event>, j: nat, n: nat, device: Device)
    requires n < |events|
    ensures LastStored(events, j, n + 1, device) <==>
            (j == n && Stores(events, n, device)) || (LastStored(events, j, n, device) && LeavesAlone(events, n, device))
  {
    if LastStored(events, j, n, device) && LeavesAlone(events, n, device) {
      assert forall i | j < i < n + 1 :: LeavesAlone(events, i, device);
    }
  }

  lemma BaselineStep(events: seq<Event>, n: nat, device: Device)
    requires n < |events| && BaselineTells(events, n, device)
    ensures BaselineTells(events, n + 1, device)
  {
    var before, after := After(events, n).last, After(events, n + 1).last;
    forall j: nat
      ensures LastStored(events, j, n + 1, device) <==>
              (j == n && Stores(events, n, device)) || (LastStored(events, j, n, device) && LeavesAlone(events, n, device))
    {
      LastStoredBefore(events, j, n, device);
    }
    BaselineAfterEvent(events, n, device);
  }

  /** What one event does to the baseline of a device. */
  lemma BaselineAfterEvent(events: seq<Event>, n: nat, device: Device)
    requires n < |events|
    ensures
      var before, after := After(events, n).last, After(events, n + 1).last;
      if Stores(events, n, device) then
        device in after && after[device] == Baseline(events[n].reading.values, events[n].reading.collectTime)
      else if LeavesAlone(events, n, device) then
        (device in after <==> device in before) && (device in before ==> after[device] == before[device])
      else device !in after
  {
  }

  ghost function TellsBy(events: seq<Event>, device: Device): nat -> bool {
    (n: nat) => n <= |events| && BaselineTells(events, n, device)
  }

  lemma TellsOn(events: seq<Event>, n: nat, device: Device)
    requires n < |events|
    ensures HandsOn(TellsBy(events, device), n)
  {
    if TellsBy(events, device)(n) {
      BaselineStep(events, n, device);
    }
  }

  lemma NothingToTell(events: seq<Event>, device: Device)
    ensures TellsBy(events, device)(0)
  {
  }

  lemma BaselinesTell(events: seq<Event>, n: nat, device: Device)
    requires n <= |events|
    ensures BaselineTells(events, n, device)
  {
    NothingToTell(events, device);
    forall k: nat | k < n
      ensures HandsOn(TellsBy(events, device), k)
    {
      TellsOn(events, k, device);
    }
    StepByStep(TellsBy(events, device), n);
  }

  /** A poll is skipped if and only if the last poll of its device that was passed on was stored, with the
      same values, no later than this one and less than the heartbeat in force before it, and the service
      has not been restarted since. */
  lemma SkippedIff(events: seq<Event>, k: nat, device: Device)
    requires k < |events| && IsPollOf(events[k], device)
    ensures AnswerAt(events, k) == Skipped <==>
            exists j: nat ::
              && LastStored(events, j, k, device) && events[j].reading.values == events[k].reading.values
              && 0 <= events[k].reading.collectTime - events[j].reading.collectTime < Period(After(events, k).setting)
  {
    BaselinesTell(events, k, device);
    if AnswerAt(events, k) == Skipped {
      var j: nat :| LastStored(events, j, k, device);
    }
  }
}
