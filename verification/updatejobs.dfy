/** internal/core/middleware_update_jobs.go: a batch update job, its items, and the goroutines that
    carry them out. */
module UpdateJobs {
  import opened Results
  import opened Sequences

  /** The id of a middleware, a UUID in text. */
  datatype Id = Id(text: string)

  datatype Status = Pending | Running | Succeeded | Failed

  /** Times are in milliseconds; 0 is Go's zero time. */
  datatype Item = Item(
    middlewareId: Id, status: Status, error: string, startedAt: int, finishedAt: int, durationMs: int,
    phase: string, downloadedBytes: int, totalBytes: int)

  datatype Job = Job(
    id: string, action: string, patchId: string, status: Status, createdAt: int, startedAt: int,
    finishedAt: int, durationMs: int, items: map<Id, Item>)

  function PendingItem(middlewareId: Id): Item {
    Item(middlewareId, Pending, "", 0, 0, 0, "", 0, 0)
  }

  /** Looking an item up in a Go map gives the zero item when it is missing. */
  function ItemOf(items: map<Id, Item>, id: Id): Item {
    if id in items then items[id] else PendingItem(Id(""))
  }

  predicate Open(item: Item) {
    item.status == Pending || item.status == Running
  }

  ghost predicate SomeOpen(items: map<Id, Item>) {
    exists id | id in items :: Open(items[id])
  }

  ghost predicate SomeFailed(items: map<Id, Item>) {
    exists id | id in items :: items[id].status == Failed
  }

  /** What a job's status should be. */
  ghost function Verdict(items: map<Id, Item>): Status {
    if SomeOpen(items) then Running else if SomeFailed(items) then Failed else Succeeded
  }

  // ----- what the operations do to a job -----

  function NewItems(ids: seq<Id>, n: nat): map<Id, Item>
    requires n <= |ids|
  {
    if n == 0 then map[] else NewItems(ids, n - 1)[ids[n - 1] := PendingItem(ids[n - 1])]
  }

  lemma {:induction false} NewItemsArePending(ids: seq<Id>, n: nat)
    requires n <= |ids|
    ensures
      var items := NewItems(ids, n);
      && (forall i | 0 <= i < n :: ids[i] in items)
      && (forall id | id in items :: items[id] == PendingItem(id) && exists i | 0 <= i < n :: ids[i] == id)
  {
    if n == 0 {
    } else {
      NewItemsArePending(ids, n - 1);
    }
  }

  function NewJob(id: string, action: string, patchId: string, ids: seq<Id>, now: int): Job {
    Job(id, action, patchId, Running, now, now, 0, 0, NewItems(ids, |ids|))
  }

  function Started(job: Job, id: Id, now: int): Job {
    job.(items := job.items[id := ItemOf(job.items, id).(status := Running, startedAt := now)])
  }

  function Progressed(job: Job, id: Id, phase: string, downloaded: int, total: int): Job {
    job.(items := job.items[id := ItemOf(job.items, id).(phase := phase, downloadedBytes := downloaded, totalBytes := total)])
  }

  function FinishedItem(item: Item, ok: bool, error: string, now: int): Item {
    var timed := item.(finishedAt := now, durationMs := if item.startedAt != 0 then now - item.startedAt else item.durationMs);
    if ok then timed.(status := Succeeded) else timed.(status := Failed, error := error)
  }

  ghost function Finished(job: Job, id: Id, ok: bool, error: string, now: int): Job {
    var items := job.items[id := FinishedItem(ItemOf(job.items, id), ok, error, now)];
    var verdict := Verdict(items);
    if verdict == Running then job.(items := items, status := Running)
    else job.(items := items, status := verdict, finishedAt := now, durationMs := now - job.startedAt)
  }

  // ----- the job store -----

  class JobStore {
    var jobs: map<string, Job>

    constructor ()
      ensures jobs == map[]
    {
      jobs := map[];
    }

    method Create(id: string, action: string, patchId: string, middlewareIds: seq<Id>, now: int) returns (job: Job)
      modifies this
      ensures job == NewJob(id, action, patchId, middlewareIds, now)
      ensures job.id == id && job.action == action && job.patchId == patchId && job.status == Running
      ensures job.createdAt == job.startedAt == now && job.finishedAt == job.durationMs == 0
      ensures jobs == old(jobs)[id := job]
    {
      var items := map[];
      for i := 0 to |middlewareIds|
        invariant items == NewItems(middlewareIds, i)
      {
        items := items[middlewareIds[i] := PendingItem(middlewareIds[i])];
      }
      job := Job(id, action, patchId, Running, now, now, 0, 0, items);
      jobs := jobs[id := job];
    }

    method StartItem(jobId: string, middlewareId: Id, now: int)
      modifies this
      ensures jobs == if jobId in old(jobs) then old(jobs)[jobId := Started(old(jobs)[jobId], middlewareId, now)] else old(jobs)
    {
      if jobId in jobs {
        var job := jobs[jobId];
        var item := ItemOf(job.items, middlewareId).(status := Running, startedAt := now);
        jobs := jobs[jobId := job.(items := job.items[middlewareId := item])];
      }
    }

    method UpdateProgress(jobId: string, middlewareId: Id, phase: string, downloaded: int, total: int)
      modifies this
      ensures jobs ==
              if jobId in old(jobs) then old(jobs)[jobId := Progressed(old(jobs)[jobId], middlewareId, phase, downloaded, total)]
              else old(jobs)
    {
      if jobId in jobs {
        var job := jobs[jobId];
        var item := ItemOf(job.items, middlewareId).(phase := phase, downloadedBytes := downloaded, totalBytes := total);
        jobs := jobs[jobId := job.(items := job.items[middlewareId := item])];
      }
    }

    /** The status does not depend on the order in which the loop visits the items. */
    method FinishItem(jobId: string, middlewareId: Id, ok: bool, error: string, now: int)
      modifies this
      ensures jobs == if jobId in old(jobs) then old(jobs)[jobId := Finished(old(jobs)[jobId], middlewareId, ok, error, now)] else old(jobs)
    {
      if jobId !in jobs {
        return;
      }
      var job := jobs[jobId];
      var item := ItemOf(job.items, middlewareId);
      item := item.(finishedAt := now);
      if item.startedAt != 0 {
        item := item.(durationMs := now - item.startedAt);
      }
      if ok {
        item := item.(status := Succeeded);
      } else {
        item := item.(status := Failed, error := error);
      }
      job := job.(items := job.items[middlewareId := item]);
      var status := StatusOf(job.items);
      if status == Running {
        jobs := jobs[jobId := job.(status := Running)];
        return;
      }
      jobs := jobs[jobId := job.(status := status, finishedAt := now, durationMs := now - job.startedAt)];
    }

    method Get(jobId: string) returns (job: Option<Job>)
      ensures job == if jobId in jobs then Some(jobs[jobId]) else None
    {
      if jobId in jobs {
        return Some(jobs[jobId]);
      }
      return None;
    }
  }

  /** The status loop, over the items in whatever order the map yields them. */
  method StatusOf(items: map<Id, Item>) returns (status: Status)
    ensures status == Verdict(items)
  {
    status := Succeeded;
    var left := items.Keys;
    while left != {}
      invariant left <= items.Keys
      invariant forall id | id in items && id !in left :: !Open(items[id])
      invariant status == Failed || status == Succeeded
      invariant status == Failed <==> exists id | id in items && id !in left :: items[id].status == Failed
      decreases left
    {
      var id :| id in left;
      if items[id].status == Pending || items[id].status == Running {
        return Running;
      }
      if items[id].status == Failed {
        status := Failed;
      }
      left := left - {id};
    }
  }

  // ----- the goroutines of a batch -----

  /** How far a goroutine is: about to start its item, working on it, done. */
  datatype State = State(job: Job, at: seq<nat>)

  datatype Step =
    | Begin(i: nat, now: int)
    | Report(i: nat, phase: string, downloaded: int, total: int)
    | End(i: nat, ok: bool, error: string, now: int)

  predicate Possible(ids: seq<Id>, s: State, step: Step)
    requires |s.at| == |ids|
  {
    step.i < |ids| && s.at[step.i] == if step.Begin? then 0 else 1
  }

  ghost function Next(ids: seq<Id>, s: State, step: Step): (s': State)
    requires |s.at| == |ids| && Possible(ids, s, step)
    ensures |s'.at| == |ids|
  {
    match step
    case Begin(i, now) => State(Started(s.job, ids[i], now), s.at[i := 1])
    case Report(i, phase, downloaded, total) => s.(job := Progressed(s.job, ids[i], phase, downloaded, total))
    case End(i, ok, error, now) => State(Finished(s.job, ids[i], ok, error, now), s.at[i := 2])
  }

  ghost predicate StepsTo(ids: seq<Id>, states: seq<State>, steps: seq<Step>, k: nat)
    requires k < |steps| && |states| == |steps| + 1
  {
    && |states[k].at| == |ids| && Possible(ids, states[k], steps[k])
    && states[k + 1] == Next(ids, states[k], steps[k])
  }

  ghost predicate Starts(ids: seq<Id>, s: State) {
    && |s.at| == |ids| && (forall i | 0 <= i < |ids| :: s.at[i] == 0)
    && s.job.status == Running && s.job.items == NewItems(ids, |ids|)
  }

  /** A run: any interleaving of the goroutines' steps. */
  ghost predicate Run(ids: seq<Id>, states: seq<State>, steps: seq<Step>) {
    && |states| == |steps| + 1 && Starts(ids, states[0])
    && forall k | 0 <= k < |steps| :: StepsTo(ids, states, steps, k)
  }

  ghost predicate Distinct(ids: seq<Id>) {
    forall i, j | 0 <= i < j < |ids| :: ids[i] != ids[j]
  }

  ghost predicate Exact(job: Job) {
    job.status == Verdict(job.items)
  }

  predicate Matches(at: nat, status: Status) {
    match at
    case 0 => status == Pending
    case 1 => status == Running
    case _ => status == Succeeded || status == Failed
  }

  function IdSet(ids: seq<Id>): set<Id> {
    set i | 0 <= i < |ids| :: ids[i]
  }

  ghost predicate OnTrack(ids: seq<Id>, s: State, i: nat)
    requires i < |s.at| == |ids|
  {
    ids[i] in s.job.items && s.at[i] <= 2 && Matches(s.at[i], s.job.items[ids[i]].status)
  }

  /** Each goroutine's item is as far as the goroutine, there are no other items, and the status
      is exact. */
  ghost predicate Inv(ids: seq<Id>, s: State) {
    && |s.at| == |ids| && s.job.items.Keys == IdSet(ids)
    && (forall i | 0 <= i < |ids| :: OnTrack(ids, s, i))
    && Exact(s.job)
  }

  lemma NewItemsCoverIds(ids: seq<Id>)
    ensures NewItems(ids, |ids|).Keys == IdSet(ids)
    ensures forall id | id in NewItems(ids, |ids|) :: NewItems(ids, |ids|)[id] == PendingItem(id)
  {
    var items := NewItems(ids, |ids|);
    NewItemsArePending(ids, |ids|);
    forall id
      ensures id in items <==> id in IdSet(ids)
    {
    }
  }

  lemma StartsWell(ids: seq<Id>, s: State)
    requires Starts(ids, s) && ids != []
    ensures Inv(ids, s)
  {
    NewItemsCoverIds(ids);
    assert ids[0] in IdSet(ids);
    assert Open(s.job.items[ids[0]]);
  }

  /** A step touches the item of its own goroutine, and no other. */
  lemma StepIsLocal(ids: seq<Id>, s: State, step: Step)
    requires Inv(ids, s) && Possible(ids, s, step)
    ensures
      var s', id := Next(ids, s, step), ids[step.i];
      && s'.job.items.Keys == s.job.items.Keys
      && (forall other | other in s.job.items && other != id :: s'.job.items[other] == s.job.items[other])
      && OnTrack(ids, s', step.i)
      && (step.End? ==> Exact(s'.job))
      && (!step.End? ==> s'.job.status == s.job.status)
      && (forall i | 0 <= i < |ids| && i != step.i :: s'.at[i] == s.at[i])
  {
    assert OnTrack(ids, s, step.i);
  }

  lemma StepKeeps(ids: seq<Id>, s: State, step: Step, s': State)
    requires Distinct(ids) && Inv(ids, s) && Possible(ids, s, step) && s' == Next(ids, s, step)
    ensures Inv(ids, s')
  {
    var id := ids[step.i];
    StepIsLocal(ids, s, step);
    assert OnTrack(ids, s, step.i) && OnTrack(ids, s', step.i);
    forall i | 0 <= i < |ids|
      ensures OnTrack(ids, s', i)
    {
      assert OnTrack(ids, s, i);
    }
    assert Exact(s'.job) by {
      if !step.End? {
        assert Open(s.job.items[id]) && Open(s'.job.items[id]);
      }
    }
  }

  ghost function InvBy(ids: seq<Id>, states: seq<State>): nat -> bool {
    (k: nat) => k < |states| && Inv(ids, states[k])
  }

  lemma MoveKeeps(ids: seq<Id>, states: seq<State>, steps: seq<Step>, k: nat)
    requires Run(ids, states, steps) && Distinct(ids) && k < |steps|
    ensures HandsOn(InvBy(ids, states), k)
  {
    if InvBy(ids, states)(k) {
      assert StepsTo(ids, states, steps, k);
      StepKeeps(ids, states[k], steps[k], states[k + 1]);
    }
  }

  lemma RunStartsWell(ids: seq<Id>, states: seq<State>, steps: seq<Step>)
    requires Run(ids, states, steps) && ids != []
    ensures InvBy(ids, states)(0)
  {
    StartsWell(ids, states[0]);
  }

  lemma RunHandsOn(ids: seq<Id>, states: seq<State>, steps: seq<Step>, n: nat)
    requires Run(ids, states, steps) && Distinct(ids) && ids != [] && n <= |steps|
    ensures InvBy(ids, states)(n)
  {
    RunStartsWell(ids, states, steps);
    forall k: nat | k < n
      ensures HandsOn(InvBy(ids, states), k)
    {
      MoveKeeps(ids, states, steps, k);
    }
    StepByStep(InvBy(ids, states), n);
  }

  lemma RunKeeps(ids: seq<Id>, states: seq<State>, steps: seq<Step>, n: nat)
    requires Run(ids, states, steps) && Distinct(ids) && ids != [] && n <= |steps|
    ensures Inv(ids, states[n])
  {
    RunHandsOn(ids, states, steps, n);
  }

  // ----- when a job settles -----

  function Sum(at: seq<nat>, n: nat): nat
    requires n <= |at|
  {
    if n == 0 then 0 else Sum(at, n - 1) + at[n - 1]
  }

  lemma {:induction false} SumUpdate(at: seq<nat>, i: nat, v: nat, n: nat)
    requires n <= |at| && i < |at|
    ensures Sum(at[i := v], n) == if i < n then Sum(at, n) - at[i] + v else Sum(at, n)
  {
    if n == 0 {
    } else {
      SumUpdate(at, i, v, n - 1);
    }
  }

  lemma {:induction false} SumBound(at: seq<nat>, n: nat)
    requires n <= |at| && forall i | 0 <= i < |at| :: at[i] <= 2
    ensures Sum(at, n) <= 2 * n
    ensures Sum(at, n) == 2 * n <==> forall i | 0 <= i < n :: at[i] == 2
  {
    if n == 0 {
    } else {
      SumBound(at, n - 1);
    }
  }

  lemma {:induction false} SumZero(at: seq<nat>, n: nat)
    requires n <= |at| && forall i | 0 <= i < |at| :: at[i] == 0
    ensures Sum(at, n) == 0
  {
    if n == 0 {
    } else {
      SumZero(at, n - 1);
    }
  }

  /** How many of the first n steps start or finish an item. */
  function Moves(steps: seq<Step>, n: nat): nat
    requires n <= |steps|
  {
    if n == 0 then 0 else Moves(steps, n - 1) + if steps[n - 1].Report? then 0 else 1
  }

  lemma {:induction false} MovesAreSum(ids: seq<Id>, states: seq<State>, steps: seq<Step>, n: nat)
    requires Run(ids, states, steps) && n <= |steps|
    ensures |states[n].at| == |ids| && Sum(states[n].at, |ids|) == Moves(steps, n)
  {
    if n == 0 {
      SumZero(states[0].at, |ids|);
    } else {
      MovesAreSum(ids, states, steps, n - 1);
      assert StepsTo(ids, states, steps, n - 1);
      var step := steps[n - 1];
      SumUpdate(states[n - 1].at, step.i, if step.Begin? then 1 else 2, |ids|);
    }
  }

  lemma OpenIffUnfinished(ids: seq<Id>, s: State)
    requires Inv(ids, s)
    ensures SomeOpen(s.job.items) <==> exists i | 0 <= i < |ids| :: s.at[i] != 2
  {
    if SomeOpen(s.job.items) {
      var id :| id in s.job.items && Open(s.job.items[id]);
      assert id in IdSet(ids);
      var i :| 0 <= i < |ids| && ids[i] == id;
      assert OnTrack(ids, s, i) && s.at[i] != 2;
    }
    if i :| 0 <= i < |ids| && s.at[i] != 2 {
      assert OnTrack(ids, s, i);
      assert Open(s.job.items[ids[i]]);
    }
  }

  lemma SettledIffDone(ids: seq<Id>, s: State)
    requires Inv(ids, s)
    ensures Sum(s.at, |ids|) <= 2 * |ids|
    ensures s.job.status == Running <==> Sum(s.at, |ids|) < 2 * |ids|
    ensures s.job.status != Running ==> forall step :: !Possible(ids, s, step)
  {
    assert forall i | 0 <= i < |ids| :: OnTrack(ids, s, i) ==> s.at[i] <= 2;
    SumBound(s.at, |ids|);
    OpenIffUnfinished(ids, s);
  }

  /** With distinct middleware ids, under every interleaving the status is exact at every moment: it
      is running just while some item is open, and then tells whether one failed. It stays running
      until each of the n items has been started and finished, 2n steps in all, and once it has
      settled no goroutine has a step left, so it never changes. */
  lemma StatusIsExact(ids: seq<Id>, states: seq<State>, steps: seq<Step>, n: nat)
    requires Run(ids, states, steps) && Distinct(ids) && ids != [] && n <= |steps|
    ensures |states[n].at| == |ids| && Exact(states[n].job)
    ensures states[n].job.status == Running <==> Moves(steps, n) < 2 * |ids|
    ensures states[n].job.status != Running ==> n == |steps| && forall step :: !Possible(ids, states[n], step)
  {
    RunKeeps(ids, states, steps, n);
    MovesAreSum(ids, states, steps, n);
    SettledIffDone(ids, states[n]);
    assert n < |steps| ==> StepsTo(ids, states, steps, n);
  }

  // ----- without distinct ids -----

  /** Some run passes through this state. */
  ghost predicate Reached(ids: seq<Id>, s: State) {
    exists states, steps :: Run(ids, states, steps) && states[|steps|] == s
  }

  lemma ReachedStart(ids: seq<Id>, s: State)
    requires Starts(ids, s)
    ensures Reached(ids, s)
  {
    assert Run(ids, [s], []);
  }

  lemma ReachedStep(ids: seq<Id>, s: State, step: Step)
    requires Reached(ids, s) && |s.at| == |ids| && Possible(ids, s, step)
    ensures Reached(ids, Next(ids, s, step))
  {
    var states, steps :| Run(ids, states, steps) && states[|steps|] == s;
    var states', steps' := states + [Next(ids, s, step)], steps + [step];
    forall k | 0 <= k < |steps'|
      ensures StepsTo(ids, states', steps', k)
    {
      assert k < |steps| ==> StepsTo(ids, states, steps, k);
    }
    assert states'[|steps'|] == Next(ids, s, step);
  }

  predicate HasSucceeded(s: State, id: Id) {
    id in s.job.items && s.job.items[id].status == Succeeded
  }

  /** All goroutines before n but j have run to completion, and the others have not begun. */
  ghost predicate RanUpTo(ids: seq<Id>, s: State, j: nat, n: nat)
    requires n <= |ids|
  {
    && |s.at| == |ids|
    && (forall i | 0 <= i < |ids| :: s.at[i] == if i < n && i != j then 2 else 0)
    && (forall i | 0 <= i < n && i != j :: HasSucceeded(s, ids[i]))
    && s.job.items.Keys == IdSet(ids)
    && (n > (if j == 0 then 1 else 0) ==> Exact(s.job))
  }

  /** One goroutine run to completion. */
  ghost function RunOne(ids: seq<Id>, s: State, i: nat): State
    requires |s.at| == |ids| && i < |ids| && s.at[i] == 0
  {
    Next(ids, Next(ids, s, Begin(i, 0)), End(i, true, "", 0))
  }

  lemma RunOneIsReached(ids: seq<Id>, s: State, i: nat)
    requires Reached(ids, s) && |s.at| == |ids| && i < |ids| && s.at[i] == 0
    ensures Reached(ids, RunOne(ids, s, i))
  {
    ReachedStep(ids, s, Begin(i, 0));
    ReachedStep(ids, Next(ids, s, Begin(i, 0)), End(i, true, "", 0));
  }

  /** It finishes its item, and touches nothing of the other goroutines. */
  lemma RunOneIsLocal(ids: seq<Id>, s: State, i: nat)
    requires |s.at| == |ids| && i < |ids| && s.at[i] == 0
    ensures
      var s' := RunOne(ids, s, i);
      && s'.at == s.at[i := 2] && Exact(s'.job)
      && s'.job.items.Keys == s.job.items.Keys + {ids[i]}
      && s'.job.items[ids[i]].status == Succeeded
      && forall id | id in s.job.items && id != ids[i] :: s'.job.items[id] == s.job.items[id]
  {
  }

  lemma RunOneMore(ids: seq<Id>, s: State, j: nat, n: nat)
    requires n < |ids| && RanUpTo(ids, s, j, n) && n != j
    ensures RanUpTo(ids, RunOne(ids, s, n), j, n + 1)
  {
    var s' := RunOne(ids, s, n);
    RunOneIsLocal(ids, s, n);
    assert ids[n] in IdSet(ids);
    assert IdSet(ids) + {ids[n]} == IdSet(ids);
    forall i | 0 <= i < n + 1 && i != j
      ensures HasSucceeded(s', ids[i])
    {
      assert i == n || HasSucceeded(s, ids[i]);
    }
  }

  lemma NothingRan(ids: seq<Id>, j: nat) returns (s: State)
    requires j < |ids|
    ensures Reached(ids, s) && RanUpTo(ids, s, j, 0)
  {
    s := State(NewJob("", "", "", ids, 0), seq(|ids|, _ => 0));
    NewItemsCoverIds(ids);
    ReachedStart(ids, s);
  }

  lemma SkippedOne(ids: seq<Id>, s: State, j: nat)
    requires j < |ids| && RanUpTo(ids, s, j, j)
    ensures RanUpTo(ids, s, j, j + 1)
  {
  }

  lemma RanOneMore(ids: seq<Id>, before: State, j: nat, n: nat) returns (s: State)
    requires n < |ids| && Reached(ids, before) && RanUpTo(ids, before, j, n)
    ensures Reached(ids, s) && RanUpTo(ids, s, j, n + 1)
  {
    if n == j {
      SkippedOne(ids, before, j);
      s := before;
    } else {
      s := RunOne(ids, before, n);
      RunOneIsReached(ids, before, n);
      RunOneMore(ids, before, j, n);
    }
  }

  lemma {:induction false} RunAllBut(ids: seq<Id>, j: nat, n: nat) returns (s: State)
    requires j < |ids| && n <= |ids|
    ensures Reached(ids, s) && RanUpTo(ids, s, j, n)
  {
    if n == 0 {
      s := NothingRan(ids, j);
    } else {
      var before := RunAllBut(ids, j, n - 1);
      s := RanOneMore(ids, before, j, n - 1);
    }
  }

  lemma LateTwinIsNotExact(ids: seq<Id>, i: nat, j: nat) returns (s: State)
    requires i < |ids| && j < |ids| && i != j && ids[i] == ids[j]
    ensures Reached(ids, s) && !Exact(s.job)
  {
    var done := RunAllBut(ids, j, |ids|);
    forall id | id in done.job.items
      ensures done.job.items[id].status == Succeeded
    {
      assert id in IdSet(ids);
      var k :| 0 <= k < |ids| && ids[k] == id;
      assert HasSucceeded(done, ids[if k == j then i else k]);
    }
    assert done.job.status == Succeeded;
    s := Next(ids, done, Begin(j, 0));
    ReachedStep(ids, done, Begin(j, 0));
    assert Open(s.job.items[ids[j]]);
  }

  /** The status is exact throughout every run if and only if the batch names no middleware twice:
      with a duplicate, one goroutine can start after its twin has settled the job. */
  lemma ExactIffDistinct(ids: seq<Id>)
    requires ids != []
    ensures Distinct(ids) <==> forall s | Reached(ids, s) :: Exact(s.job)
  {
    if Distinct(ids) {
      forall s | Reached(ids, s)
        ensures Exact(s.job)
      {
        var states, steps :| Run(ids, states, steps) && states[|steps|] == s;
        RunKeeps(ids, states, steps, |steps|);
      }
    } else {
      var i, j :| 0 <= i < j < |ids| && ids[i] == ids[j];
      var s := LateTwinIsNotExact(ids, i, j);
    }
  }
}
