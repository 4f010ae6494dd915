/** What a batch job says of its items is what happened to them: each item is told by the steps of its own
    goroutine, and the job's status by the outcomes. */
module JobHistory {
  import opened Results
  import opened Sequences
  import opened UpdateJobs

  /** How an item ended. */
  datatype Ending = Ending(ok: bool, error: string, now: int)

  /** What the steps of one goroutine have said. */
  datatype Told = Told(began: Option<int>, ended: Option<Ending>, phase: string, downloaded: int, total: int)

  function ToldTo(steps: seq<Step>, n: nat, i: nat): Told
    requires n <= |steps|
  {
    if n == 0 then Told(None, None, "", 0, 0)
    else
      var before := ToldTo(steps, n - 1, i);
      if steps[n - 1].i != i then before
      else
        match steps[n - 1]
        case Begin(_, now) => before.(began := Some(now))
        case Report(_, phase, downloaded, total) => before.(phase := phase, downloaded := downloaded, total := total)
        case End(_, ok, error, now) => before.(ended := Some(Ending(ok, error, now)))
  }

  /** The status an item should have: whether it was begun, and how it ended. */
  predicate StatusTells(status: Status, told: Told) {
    match told.ended
    case None => status == if told.began.None? then Pending else Running
    case Some(end) => status == if end.ok then Succeeded else Failed
  }

  predicate TimesTell(item: Item, told: Told) {
    && item.startedAt == (if told.began.Some? then told.began.value else 0)
    && item.finishedAt == (if told.ended.Some? then told.ended.value.now else 0)
    && item.durationMs == (if told.ended.Some? && item.startedAt != 0 then item.finishedAt - item.startedAt else 0)
  }

  /** An item says exactly what its goroutine did: its status, its error if it failed, when it began and
      ended and how long it took, and the progress it last reported. */
  predicate ItemTells(id: Id, item: Item, told: Told) {
    && item.middlewareId == id && StatusTells(item.status, told) && TimesTell(item, told)
    && item.error == (if told.ended.Some? && !told.ended.value.ok then told.ended.value.error else "")
    && item.phase == told.phase && item.downloadedBytes == told.downloaded && item.totalBytes == told.total
  }

  /** How far a goroutine is. */
  predicate Reached(at: nat, told: Told) {
    at == if told.ended.Some? then 2 else if told.began.Some? then 1 else 0
  }

  ghost predicate Tells(ids: seq<Id>, s: State, steps: seq<Step>, n: nat, i: nat)
    requires n <= |steps| && i < |ids| == |s.at|
  {
    && ids[i] in s.job.items && Reached(s.at[i], ToldTo(steps, n, i))
    && ItemTells(ids[i], s.job.items[ids[i]], ToldTo(steps, n, i))
  }

  lemma OwnStepTells(id: Id, item: Item, told: Told, step: Step, told': Told)
    requires ItemTells(id, item, told) && Reached(if step.Begin? then 0 else 1, told)
    requires match step
             case Begin(_, now) => told' == told.(began := Some(now))
             case Report(_, phase, downloaded, total) => told' == told.(phase := phase, downloaded := downloaded, total := total)
             case End(_, ok, error, now) => told' == told.(ended := Some(Ending(ok, error, now)))
    ensures
      match step
      case Begin(_, now) => ItemTells(id, item.(status := Running, startedAt := now), told') && Reached(1, told')
      case Report(_, phase, downloaded, total) =>
        ItemTells(id, item.(phase := phase, downloadedBytes := downloaded, totalBytes := total), told') && Reached(1, told')
      case End(_, ok, error, now) => ItemTells(id, FinishedItem(item, ok, error, now), told') && Reached(2, told')
  {
  }

  lemma StepTells(ids: seq<Id>, s: State, steps: seq<Step>, n: nat, i: nat)
    requires n < |steps| && i < |ids| == |s.at| && Distinct(ids) && Possible(ids, s, steps[n])
    requires Tells(ids, s, steps, n, i)
    ensures Tells(ids, Next(ids, s, steps[n]), steps, n + 1, i)
  {
    if steps[n].i == i {
      OwnStepTells(ids[i], s.job.items[ids[i]], ToldTo(steps, n, i), steps[n], ToldTo(steps, n + 1, i));
    } else {
      assert ids[steps[n].i] != ids[i];
    }
  }

  lemma NothingTold(ids: seq<Id>, s: State, steps: seq<Step>, i: nat)
    requires Starts(ids, s) && i < |ids|
    ensures Tells(ids, s, steps, 0, i)
  {
    NewItemsArePending(ids, |ids|);
  }

  /** With distinct ids, under every interleaving, each item says at every moment exactly what the steps of
      its own goroutine have made of it. */
  lemma {:induction false} ItemsTellTheirSteps(ids: seq<Id>, states: seq<State>, steps: seq<Step>, n: nat, i: nat)
    requires Run(ids, states, steps) && Distinct(ids) && n <= |steps| && i < |ids|
    ensures |states[n].at| == |ids| && Tells(ids, states[n], steps, n, i)
  {
    if n == 0 {
      NothingTold(ids, states[0], steps, i);
    } else {
      ItemsTellTheirSteps(ids, states, steps, n - 1, i);
      assert StepsTo(ids, states, steps, n - 1);
      StepTells(ids, states[n - 1], steps, n - 1, i);
    }
  }

  // ----- the job's status -----

  /** Among the first n steps an item ended this way. */
  ghost predicate SomeEnded(steps: seq<Step>, n: nat, ok: bool)
    requires n <= |steps|
  {
    exists k | 0 <= k < n :: steps[k].End? && steps[k].ok == ok
  }

  lemma {:induction false} EndedMeans(steps: seq<Step>, n: nat, i: nat)
    requires n <= |steps| && ToldTo(steps, n, i).ended.Some?
    ensures exists k | 0 <= k < n :: steps[k].End? && steps[k].i == i && steps[k].ok == ToldTo(steps, n, i).ended.value.ok
  {
    if n == 0 {
    } else if steps[n - 1].End? && steps[n - 1].i == i {
    } else {
      EndedMeans(steps, n - 1, i);
    }
  }

  /** A goroutine ends once, so what its End said stays said. */
  lemma {:induction false} EndIsRemembered(ids: seq<Id>, states: seq<State>, steps: seq<Step>, k: nat, n: nat)
    requires Run(ids, states, steps) && Distinct(ids) && k < n <= |steps| && steps[k].End?
    ensures steps[k].i < |ids| && ToldTo(steps, n, steps[k].i).ended == Some(Ending(steps[k].ok, steps[k].error, steps[k].now))
    decreases n
  {
    assert StepsTo(ids, states, steps, n - 1);
    if k == n - 1 {
    } else {
      EndIsRemembered(ids, states, steps, k, n - 1);
      ItemsTellTheirSteps(ids, states, steps, n - 1, steps[k].i);
    }
  }

  lemma FailedItemTells(ids: seq<Id>, states: seq<State>, steps: seq<Step>, n: nat)
    requires Run(ids, states, steps) && Distinct(ids) && ids != [] && n <= |steps|
    ensures SomeFailed(states[n].job.items) <==> SomeEnded(steps, n, false)
  {
    var s := states[n];
    RunKeeps(ids, states, steps, n);
    if id :| id in s.job.items && s.job.items[id].status == Failed {
      assert id in IdSet(ids);
      var i :| 0 <= i < |ids| && ids[i] == id;
      ItemsTellTheirSteps(ids, states, steps, n, i);
      EndedMeans(steps, n, i);
    }
    if k :| 0 <= k < n && steps[k].End? && !steps[k].ok {
      EndIsRemembered(ids, states, steps, k, n);
      ItemsTellTheirSteps(ids, states, steps, n, steps[k].i);
      assert s.job.items[ids[steps[k].i]].status == Failed;
    }
  }

  /** A job that has settled is failed if and only if some item ended in failure, and succeeded if and only
      if every item that ended did so without. */
  lemma VerdictTellsTheEndings(ids: seq<Id>, states: seq<State>, steps: seq<Step>, n: nat)
    requires Run(ids, states, steps) && Distinct(ids) && ids != [] && n <= |steps|
    requires states[n].job.status != Running
    ensures states[n].job.status == Failed <==> SomeEnded(steps, n, false)
    ensures states[n].job.status == Succeeded <==> forall k | 0 <= k < n && steps[k].End? :: steps[k].ok
  {
    StatusIsExact(ids, states, steps, n);
    FailedItemTells(ids, states, steps, n);
  }

  // ----- the job's times -----

  /** The time of the last End among the first n steps. */
  function LastEnd(steps: seq<Step>, n: nat): int
    requires n <= |steps|
  {
    if n == 0 then 0 else if steps[n - 1].End? then steps[n - 1].now else LastEnd(steps, n - 1)
  }

  /** A job was created and started when the batch was, and it finished when its last item ended. */
  ghost predicate JobTimes(first: Job, job: Job, steps: seq<Step>, n: nat)
    requires n <= |steps|
  {
    && job.(status := first.status, items := first.items, finishedAt := first.finishedAt, durationMs := first.durationMs) == first
    && (job.status == Running ==> job.finishedAt == first.finishedAt && job.durationMs == first.durationMs)
    && (job.status != Running ==> job.finishedAt == LastEnd(steps, n) && job.durationMs == job.finishedAt - first.startedAt)
  }

  lemma StepKeepsTimes(first: Job, ids: seq<Id>, s: State, steps: seq<Step>, n: nat)
    requires n < |steps| && |s.at| == |ids| && Possible(ids, s, steps[n])
    requires JobTimes(first, s.job, steps, n) && s.job.status == Running
    ensures JobTimes(first, Next(ids, s, steps[n]).job, steps, n + 1)
  {
  }

  lemma {:induction false} TimesTellTheSteps(ids: seq<Id>, states: seq<State>, steps: seq<Step>, n: nat)
    requires Run(ids, states, steps) && Distinct(ids) && ids != [] && n <= |steps|
    ensures JobTimes(states[0].job, states[n].job, steps, n)
  {
    if n == 0 {
    } else {
      TimesTellTheSteps(ids, states, steps, n - 1);
      StatusIsExact(ids, states, steps, n - 1);
      assert StepsTo(ids, states, steps, n - 1);
      StepKeepsTimes(states[0].job, ids, states[n - 1], steps, n - 1);
    }
  }
}
