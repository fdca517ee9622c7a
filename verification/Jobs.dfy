/**
 The background job queue: claiming with a retry budget, reclaiming stale locks, completing and failing.

 Completing and failing do not look at who holds the lock, so a worker that lost its lock can still do either.
 Times are milliseconds; row identifiers are numbers.
 */
module Jobs {
  import opened Basics
  import opened Sums

  datatype Status = Queued | Running | Completed | Failed

  datatype Job = Job(
    queue: Id, priority: int, attempts: int, maxAttempts: int, status: Status, availableAt: int,
    lockedAt: Option<int>, lockedBy: Option<Id>, createdAt: int, completedAt: Option<int>)

  type Table = map<Id, Job>

  // ----- the statements

  function NewJob(queue: Id, priority: int, maxAttempts: int, availableAt: int, now: int): Job {
    Job(queue, priority, 0, maxAttempts, Queued, availableAt, None, None, now, None)
  }

  /** An insert; an id that is taken is an error and changes nothing. */
  function Enqueue(jobs: Table, id: Id, queue: Id, priority: int, maxAttempts: int, availableAt: int, now: int): Table {
    if id in jobs then jobs else jobs[id := NewJob(queue, priority, maxAttempts, availableAt, now)]
  }

  predicate Stale(job: Job, queue: Id, staleBefore: int) {
    job.queue == queue && job.status.Running? && job.lockedAt.Some? && job.lockedAt.value <= staleBefore
  }

  function Unlocked(job: Job, status: Status, availableAt: int): Job {
    job.(status := status, availableAt := availableAt, lockedAt := None, lockedBy := None)
  }

  /** A stale running job goes back to the queue while it has attempts left, and fails otherwise. */
  function ReclaimedJob(job: Job, queue: Id, now: int, staleBefore: int): Job {
    if !Stale(job, queue, staleBefore) then job
    else Unlocked(job, if job.attempts < job.maxAttempts then Queued else Failed, now)
  }

  function Reclaim(jobs: Table, queue: Id, now: int, staleAfterSeconds: int): Table {
    map id | id in jobs :: ReclaimedJob(jobs[id], queue, now, now - staleAfterSeconds * 1000)
  }

  predicate Due(job: Job, queue: Id, now: int) {
    job.queue == queue && job.status.Queued? && job.availableAt <= now
  }

  /** The claim order: higher priority first, then earlier availability, then earlier creation. */
  predicate NotAfter(a: Job, b: Job) {
    a.priority > b.priority
    || (a.priority == b.priority && (a.availableAt < b.availableAt
        || (a.availableAt == b.availableAt && a.createdAt <= b.createdAt)))
  }

  predicate IsNext(jobs: Table, queue: Id, now: int, id: Id) {
    id in jobs && Due(jobs[id], queue, now)
    && forall j :: j in jobs && Due(jobs[j], queue, now) ==> NotAfter(jobs[id], jobs[j])
  }

  /** The job picked is first by `priority DESC, available_at ASC, created_at ASC` of the queued jobs that are due. */
  lemma NextIsFirst(jobs: Table, queue: Id, now: int, id: Id, j: Id)
    requires IsNext(jobs, queue, now, id)
    ensures id in jobs && jobs[id].queue == queue && jobs[id].status.Queued? && jobs[id].availableAt <= now
    ensures j in jobs && jobs[j].queue == queue && jobs[j].status.Queued? && jobs[j].availableAt <= now ==>
              && jobs[j].priority <= jobs[id].priority
              && (jobs[j].priority == jobs[id].priority ==> jobs[j].availableAt >= jobs[id].availableAt)
              && (jobs[j].priority == jobs[id].priority && jobs[j].availableAt == jobs[id].availableAt ==>
                    jobs[j].createdAt >= jobs[id].createdAt)
  {
  }

  predicate NothingDue(jobs: Table, queue: Id, now: int) {
    forall j :: j in jobs ==> !Due(jobs[j], queue, now)
  }

  function Locked(job: Job, worker: Id, now: int): Job {
    job.(status := Running, attempts := job.attempts + 1, lockedAt := Some(now), lockedBy := Some(worker))
  }

  /** Which job the claiming transaction may take, if any: the database breaks ties as it likes. */
  predicate MayPick(jobs: Table, queue: Id, now: int, staleAfterSeconds: int, pick: Option<Id>) {
    var reclaimed := Reclaim(jobs, queue, now, staleAfterSeconds);
    match pick
    case None => NothingDue(reclaimed, queue, now)
    case Some(id) => IsNext(reclaimed, queue, now, id)
  }

  function Claim(jobs: Table, queue: Id, worker: Id, now: int, staleAfterSeconds: int, pick: Option<Id>): Table {
    var reclaimed := Reclaim(jobs, queue, now, staleAfterSeconds);
    if pick.Some? && pick.value in reclaimed
    then reclaimed[pick.value := Locked(reclaimed[pick.value], worker, now)]
    else reclaimed
  }

  function Complete(jobs: Table, id: Id, now: int): Table {
    if id in jobs
    then jobs[id := jobs[id].(status := Completed, completedAt := Some(now), lockedAt := None, lockedBy := None)]
    else jobs
  }

  function FailedJob(job: Job, now: int, retryDelaySeconds: int): Job {
    if job.attempts < job.maxAttempts then Unlocked(job, Queued, now + retryDelaySeconds * 1000)
    else Unlocked(job, Failed, now)
  }

  function Fail(jobs: Table, id: Id, now: int, retryDelaySeconds: int): Table {
    if id in jobs then jobs[id := FailedJob(jobs[id], now, retryDelaySeconds)] else jobs
  }

  // ----- runs: any calls, by workers that still hold their lock or not

  datatype Step =
    | Add(id: Id, queue: Id, priority: int, maxAttempts: int, availableAt: int, now: int)
    | Take(queue: Id, worker: Id, now: int, staleAfterSeconds: int, pick: Option<Id>)
    | Finish(id: Id, now: int)
    | GiveUp(id: Id, now: int, retryDelaySeconds: int)

  /** Enqueuers ask for at least one attempt, stale timeouts are positive, and the claim picks a best due job. */
  predicate Allowed(jobs: Table, step: Step) {
    match step
    case Add(_, _, _, maxAttempts, _, _) => maxAttempts >= 1
    case Take(queue, _, now, stale, pick) => stale >= 1 && MayPick(jobs, queue, now, stale, pick)
    case _ => true
  }

  function Next(jobs: Table, step: Step): Table {
    match step
    case Add(id, queue, priority, maxAttempts, availableAt, now) =>
      Enqueue(jobs, id, queue, priority, maxAttempts, availableAt, now)
    case Take(queue, worker, now, stale, pick) => Claim(jobs, queue, worker, now, stale, pick)
    case Finish(id, now) => Complete(jobs, id, now)
    case GiveUp(id, now, delay) => Fail(jobs, id, now, delay)
  }

  function Run(jobs: Table, steps: seq<Step>): Table
    decreases |steps|
  {
    if steps == [] then jobs else Run(Next(jobs, steps[0]), steps[1..])
  }

  predicate AllowedRun(jobs: Table, steps: seq<Step>)
    decreases |steps|
  {
    steps != [] ==> Allowed(jobs, steps[0]) && AllowedRun(Next(jobs, steps[0]), steps[1..])
  }

  // ----- the retry budget

  predicate JobOk(job: Job) {
    && 0 <= job.attempts <= job.maxAttempts
    && (job.status.Queued? ==> job.attempts < job.maxAttempts)
    && (job.status.Running? <==> job.lockedAt.Some?)
    && (job.status.Running? <==> job.lockedBy.Some?)
  }

  predicate Inv(jobs: Table) {
    forall id :: id in jobs ==> JobOk(jobs[id])
  }

  lemma StepKeeps(jobs: Table, step: Step)
    requires Inv(jobs) && Allowed(jobs, step)
    ensures Inv(Next(jobs, step))
  {
    match step
    case Take(queue, worker, now, stale, pick) =>
      var reclaimed := Reclaim(jobs, queue, now, stale);
      assert forall id :: id in reclaimed ==> JobOk(reclaimed[id]);
    case _ =>
  }

  lemma {:induction false} EveryRunKeeps(jobs: Table, steps: seq<Step>)
    requires Inv(jobs) && AllowedRun(jobs, steps)
    ensures Inv(Run(jobs, steps))
    decreases |steps|
  {
    if steps != [] {
      StepKeeps(jobs, steps[0]);
      EveryRunKeeps(Next(jobs, steps[0]), steps[1..]);
    }
  }

  /** How often a run claims one job, and how often it claims any. */
  function Claims(steps: seq<Step>, id: Id): nat {
    if steps == [] then 0 else (if steps[0].Take? && steps[0].pick == Some(id) then 1 else 0) + Claims(steps[1..], id)
  }

  function AllClaims(steps: seq<Step>): nat {
    if steps == [] then 0 else (if steps[0].Take? && steps[0].pick.Some? then 1 else 0) + AllClaims(steps[1..])
  }

  function Attempts(jobs: Table, id: Id): int {
    if id in jobs then jobs[id].attempts else 0
  }

  /** A job's attempt counter counts exactly the claims of that job. */
  lemma {:induction false} AttemptsCountClaims(jobs: Table, steps: seq<Step>, id: Id)
    requires AllowedRun(jobs, steps)
    ensures Attempts(Run(jobs, steps), id) == Attempts(jobs, id) + Claims(steps, id)
    decreases |steps|
  {
    if steps != [] {
      AttemptsCountClaims(Next(jobs, steps[0]), steps[1..], id);
    }
  }

  /** Over any run, whoever calls complete or fail, a job is claimed at most as often as it has attempts left. */
  lemma ClaimedAtMostMaxAttempts(jobs: Table, steps: seq<Step>, id: Id)
    requires Inv(jobs) && AllowedRun(jobs, steps) && id in jobs
    ensures id in Run(jobs, steps) && Claims(steps, id) <= jobs[id].maxAttempts - jobs[id].attempts
  {
    EveryRunKeeps(jobs, steps);
    AttemptsCountClaims(jobs, steps, id);
    MaxAttemptsIsFixed(jobs, steps, id);
  }

  lemma {:induction false} MaxAttemptsIsFixed(jobs: Table, steps: seq<Step>, id: Id)
    requires id in jobs
    ensures id in Run(jobs, steps) && Run(jobs, steps)[id].maxAttempts == jobs[id].maxAttempts
    decreases |steps|
  {
    if steps != [] {
      MaxAttemptsIsFixed(Next(jobs, steps[0]), steps[1..], id);
    }
  }

  /** The attempts all jobs have left together. */
  ghost function Left(jobs: Table): map<Id, int> {
    map id | id in jobs :: jobs[id].maxAttempts - jobs[id].attempts
  }

  function Added(jobs: Table, step: Step): int {
    if step.Add? && step.id !in jobs then step.maxAttempts else 0
  }

  function AllAdded(jobs: Table, steps: seq<Step>): int
    decreases |steps|
  {
    if steps == [] then 0 else Added(jobs, steps[0]) + AllAdded(Next(jobs, steps[0]), steps[1..])
  }

  /** Every claim spends one attempt of the common budget; only new jobs add to it. */
  lemma ReclaimKeepsBudgets(jobs: Table, queue: Id, now: int, staleAfterSeconds: int)
    ensures Left(Reclaim(jobs, queue, now, staleAfterSeconds)) == Left(jobs)
  {
    var reclaimed := Reclaim(jobs, queue, now, staleAfterSeconds);
    forall id | id in jobs ensures Left(reclaimed)[id] == Left(jobs)[id] {
      assert reclaimed[id] == ReclaimedJob(jobs[id], queue, now, now - staleAfterSeconds * 1000);
    }
    assert Left(reclaimed).Keys == Left(jobs).Keys;
  }

  lemma StepSpends(jobs: Table, step: Step)
    requires Allowed(jobs, step)
    ensures Sum(Left(Next(jobs, step)))
            == Sum(Left(jobs)) + Added(jobs, step) - (if step.Take? && step.pick.Some? then 1 else 0)
  {
    var before, after := Left(jobs), Left(Next(jobs, step));
    match step
    case Add(id, _, _, maxAttempts, _, _) =>
      if id !in jobs {
        assert after == before[id := maxAttempts];
        SumPut(before, id, maxAttempts);
      }
    case Take(queue, _, now, stale, pick) =>
      ReclaimKeepsBudgets(jobs, queue, now, stale);
      if pick.Some? {
        assert after == before[pick.value := before[pick.value] - 1];
        SumPut(before, pick.value, before[pick.value] - 1);
      } else {
        assert after == before;
      }
    case _ => assert after == before;
  }

  /** So a run claims at most as often as the attempts there were and the attempts it brought. */
  lemma {:induction false} RunSpends(jobs: Table, steps: seq<Step>)
    requires Inv(jobs) && AllowedRun(jobs, steps)
    ensures Sum(Left(Run(jobs, steps))) == Sum(Left(jobs)) + AllAdded(jobs, steps) - AllClaims(steps)
    ensures AllClaims(steps) <= Sum(Left(jobs)) + AllAdded(jobs, steps)
    decreases |steps|
  {
    if steps != [] {
      StepSpends(jobs, steps[0]);
      StepKeeps(jobs, steps[0]);
      RunSpends(Next(jobs, steps[0]), steps[1..]);
    } else {
      assert forall id :: id in Left(jobs) ==> JobOk(jobs[id]) && Left(jobs)[id] >= 0;
      SumNonNegative(Left(jobs));
    }
  }

  /**
   Completed is not terminal by itself: a worker whose lock was reclaimed can fail the job after another one
   completed it, and the job is claimed again.
   */
  lemma LateFailReopensCompletedJob(jobs: Table)
    requires jobs == map[1 := NewJob(0, 0, 3, 0, 0)]
    ensures
      var slow, quick, again := Take(0, 7, 0, 1, Some(1)), Take(0, 8, 1000, 1, Some(1)), Take(0, 9, 1002, 1, Some(1));
      var done := Next(Next(Next(jobs, slow), quick), Finish(1, 1001));
      var reopened := Next(done, GiveUp(1, 1002, 0));
      && Allowed(jobs, slow) && Allowed(Next(jobs, slow), quick)
      && 1 in done && done[1].status.Completed?
      && 1 in reopened && reopened[1].status.Queued? && Allowed(reopened, again)
  {
    var claimed := map[1 := Locked(jobs[1], 7, 0)];
    assert Reclaim(jobs, 0, 0, 1) == jobs && Next(jobs, Take(0, 7, 0, 1, Some(1))) == claimed;
    var requeued := map[1 := Unlocked(claimed[1], Queued, 1000)];
    assert Reclaim(claimed, 0, 1000, 1) == requeued;
    var done := Complete(map[1 := Locked(requeued[1], 8, 1000)], 1, 1001);
    assert Next(Next(claimed, Take(0, 8, 1000, 1, Some(1))), Finish(1, 1001)) == done;
    var reopened := Fail(done, 1, 1002, 0);
    assert Reclaim(reopened, 0, 1002, 1) == reopened;
  }

  /** Exactly the late failures reopen it: every other step leaves a completed job completed. */
  lemma CompletedUnlessFailed(jobs: Table, step: Step, id: Id)
    requires Allowed(jobs, step) && id in jobs && jobs[id].status.Completed?
    ensures id in Next(jobs, step)
    ensures Next(jobs, step)[id].status.Completed? <==> !(step.GiveUp? && step.id == id)
  {
    if step.Take? {
      assert Reclaim(jobs, step.queue, step.now, step.staleAfterSeconds)[id] == jobs[id];
    }
  }

  // ----- the service

  datatype Schedule = Schedule(
    queue: Id, intervalSeconds: int, enabled: bool, deleted: bool, nextRunAt: int, lastRunAt: Option<int>)

  predicate ScheduleDue(schedule: Schedule, now: int) {
    schedule.enabled && !schedule.deleted && schedule.nextRunAt <= now
  }

  function Advanced(schedule: Schedule, now: int): Schedule {
    schedule.(lastRunAt := Some(now), nextRunAt := now + schedule.intervalSeconds * 1000)
  }

  function Ticked(schedule: Schedule, now: int): Schedule {
    if ScheduleDue(schedule, now) then Advanced(schedule, now) else schedule
  }

  const RETRY_SECONDS := 60

  ghost predicate IsRun(before: Table, steps: seq<Step>, after: Table) {
    AllowedRun(before, steps) && Run(before, steps) == after
  }

  lemma OneStep(jobs: Table, step: Step)
    ensures Run(jobs, [step]) == Next(jobs, step) && AllowedRun(jobs, [step]) == Allowed(jobs, step)
  {
    hide Next, Allowed;
    assert [step][1..] == [];
  }

  lemma TwoSteps(jobs: Table, first: Step, second: Step)
    ensures Run(jobs, [first, second]) == Next(Next(jobs, first), second)
    ensures AllowedRun(jobs, [first, second]) == (Allowed(jobs, first) && Allowed(Next(jobs, first), second))
  {
    hide Next, Allowed;
    var steps, next := [first, second], Next(jobs, first);
    assert steps[1..] == [second] && [second][1..] == [];
    OneStep(next, second);
  }

  datatype ClaimResult = InvalidTimeout | NothingToDo | Claimed(id: Id, job: Job)

  class Service {
    var jobs: Table
    var schedules: map<Id, Schedule>

    constructor ()
      ensures jobs == map[] && schedules == map[]
    {
      jobs, schedules := map[], map[];
    }

    /** Two updates in a row: the stale jobs with attempts left, then the stale jobs without. */
    method ReclaimStaleJobs(queue: Id, now: int, staleAfterSeconds: int)
      modifies this`jobs
      ensures jobs == Reclaim(old(jobs), queue, now, staleAfterSeconds)
      ensures jobs.Keys == old(jobs).Keys
      ensures forall id :: id in old(jobs) ==>
        var before, after := old(jobs)[id], jobs[id];
        if before.queue == queue && before.status.Running? && before.lockedAt.Some?
           && before.lockedAt.value <= now - staleAfterSeconds * 1_000
        then after == before.(status := if before.attempts < before.maxAttempts then Queued else Failed,
                              availableAt := now, lockedAt := None, lockedBy := None)
        else after == before
    {
      var staleBefore := now - staleAfterSeconds * 1000;
      jobs := map id | id in jobs ::
        if Stale(jobs[id], queue, staleBefore) && jobs[id].attempts < jobs[id].maxAttempts
        then Unlocked(jobs[id], Queued, now) else jobs[id];
      ghost var requeued := jobs;
      jobs := map id | id in jobs ::
        if Stale(jobs[id], queue, staleBefore) && jobs[id].attempts >= jobs[id].maxAttempts
        then Unlocked(jobs[id], Failed, now) else jobs[id];
      forall id | id in old(jobs) ensures jobs[id] == ReclaimedJob(old(jobs)[id], queue, now, staleBefore) {
        assert id in requeued;
      }
    }

    /** The ordered query with LIMIT 1. */
    method SelectNext(queue: Id, now: int) returns (pick: Option<Id>)
      ensures match pick case None => NothingDue(jobs, queue, now) case Some(id) => IsNext(jobs, queue, now, id)
      ensures pick.None? ==>
        forall j :: j in jobs ==> !(jobs[j].queue == queue && jobs[j].status.Queued? && jobs[j].availableAt <= now)
      ensures pick.Some? ==>
        pick.value in jobs
        && var first := jobs[pick.value];
           && first.queue == queue && first.status.Queued? && first.availableAt <= now
           && forall j ::
                j in jobs && jobs[j].queue == queue && jobs[j].status.Queued? && jobs[j].availableAt <= now ==>
                && jobs[j].priority <= first.priority
                && (jobs[j].priority == first.priority ==> jobs[j].availableAt >= first.availableAt)
                && (jobs[j].priority == first.priority && jobs[j].availableAt == first.availableAt ==>
                      jobs[j].createdAt >= first.createdAt)
    {
      pick := None;
      var unseen: set<Id> := jobs.Keys;
      while unseen != {}
        invariant unseen <= jobs.Keys
        invariant pick.None? ==> forall j :: j in jobs && j !in unseen ==> !Due(jobs[j], queue, now)
        invariant pick.Some? ==> pick.value in jobs && Due(jobs[pick.value], queue, now)
        invariant pick.Some? ==>
          forall j :: j in jobs && j !in unseen && Due(jobs[j], queue, now) ==> NotAfter(jobs[pick.value], jobs[j])
        decreases |unseen|
      {
        HasMember(unseen);
        var j :| j in unseen;
        if Due(jobs[j], queue, now) && (pick.None? || !NotAfter(jobs[pick.value], jobs[j])) {
          pick := Some(j);
        }
        unseen := unseen - {j};
      }
    }

    method ClaimNextJob(queue: Id, worker: Id, now: int, staleAfterSeconds: int) returns (result: ClaimResult)
      modifies this`jobs
      ensures staleAfterSeconds < 1 ==> result == InvalidTimeout && jobs == old(jobs)
      ensures staleAfterSeconds >= 1 ==> !result.InvalidTimeout?
      ensures result.NothingToDo? ==>
        MayPick(old(jobs), queue, now, staleAfterSeconds, None)
        && jobs == Claim(old(jobs), queue, worker, now, staleAfterSeconds, None)
      ensures result.Claimed? ==>
        && MayPick(old(jobs), queue, now, staleAfterSeconds, Some(result.id))
        && jobs == Claim(old(jobs), queue, worker, now, staleAfterSeconds, Some(result.id))
        && result.job == jobs[result.id]
      ensures result.NothingToDo? ==>
        forall j :: j in jobs ==> !(jobs[j].queue == queue && jobs[j].status.Queued? && jobs[j].availableAt <= now)
      ensures result.Claimed? ==>
        && result.id in old(jobs) && result.job.queue == queue && result.job.availableAt <= now
        && result.job.status.Running? && result.job.lockedAt == Some(now) && result.job.lockedBy == Some(worker)
        && result.job.attempts == old(jobs)[result.id].attempts + 1
        && result.job.maxAttempts == old(jobs)[result.id].maxAttempts
        && result.job.priority == old(jobs)[result.id].priority
        && result.job.createdAt == old(jobs)[result.id].createdAt
      ensures result.Claimed? ==>
        forall j :: j in jobs && j != result.id && jobs[j].queue == queue && jobs[j].status.Queued?
                    && jobs[j].availableAt <= now ==>
          && jobs[j].priority <= result.job.priority
          && (jobs[j].priority == result.job.priority ==> jobs[j].availableAt >= result.job.availableAt)
          && (jobs[j].priority == result.job.priority && jobs[j].availableAt == result.job.availableAt ==>
                jobs[j].createdAt >= result.job.createdAt)
      ensures !result.InvalidTimeout? ==>
        jobs.Keys == old(jobs).Keys
        && forall j :: j in old(jobs) && (result.Claimed? ==> j != result.id) ==>
             var before, after := old(jobs)[j], jobs[j];
             if before.queue == queue && before.status.Running? && before.lockedAt.Some?
                && before.lockedAt.value <= now - staleAfterSeconds * 1_000
             then after == before.(status := if before.attempts < before.maxAttempts then Queued else Failed,
                                   availableAt := now, lockedAt := None, lockedBy := None)
             else after == before
    {
      if staleAfterSeconds < 1 {
        return InvalidTimeout;
      }
      ReclaimStaleJobs(queue, now, staleAfterSeconds);
      var pick := SelectNext(queue, now);
      if pick.None? {
        return NothingToDo;
      }
      jobs := jobs[pick.value := Locked(jobs[pick.value], worker, now)];
      result := Claimed(pick.value, jobs[pick.value]);
    }

    method CompleteJob(id: Id, now: int)
      modifies this`jobs
      ensures jobs == Complete(old(jobs), id, now)
    {
      if id in jobs {
        jobs := jobs[id :=
          jobs[id].(status := Completed, completedAt := Some(now), lockedAt := None, lockedBy := None)];
      }
    }

    method FailJob(id: Id, now: int, retryDelaySeconds: int)
      modifies this`jobs
      ensures jobs == Fail(old(jobs), id, now, retryDelaySeconds)
    {
      if id !in jobs {
        return;
      }
      var job := jobs[id];
      var shouldRetry := job.attempts < job.maxAttempts;
      job := job.(status := if shouldRetry then Queued else Failed);
      job := job.(availableAt := if shouldRetry then now + retryDelaySeconds * 1000 else now);
      job := job.(lockedAt := None, lockedBy := None);
      jobs := jobs[id := job];
    }

    /**
     A worker's turn: it claims a job, runs its handler, and reports; `handled` is false when there is no handler or it
     throws.  Whatever it claimed it leaves unlocked, and its statements are a run of the protocol's steps.
     */
    method RunWorkerOnce(queue: Id, worker: Id, now: int, staleAfterSeconds: int, handled: bool, finishedAt: int)
      returns (result: ClaimResult)
      modifies this`jobs
      ensures result.InvalidTimeout? <==> staleAfterSeconds < 1
      ensures result.InvalidTimeout? ==> jobs == old(jobs)
      ensures result.NothingToDo? ==>
        IsRun(old(jobs), [Take(queue, worker, now, staleAfterSeconds, None)], jobs)
      ensures result.Claimed? ==>
        var report := if handled then Finish(result.id, finishedAt) else GiveUp(result.id, finishedAt, RETRY_SECONDS);
        IsRun(old(jobs), [Take(queue, worker, now, staleAfterSeconds, Some(result.id)), report], jobs)
      ensures result.Claimed? ==>
        && result.job.status.Running? && result.job.lockedBy == Some(worker)
        && result.id in jobs && jobs[result.id].lockedBy.None? && jobs[result.id].attempts == result.job.attempts
        && jobs[result.id].status
        == (if handled then Completed else if result.job.attempts < result.job.maxAttempts then Queued else Failed)
        && jobs[result.id].lockedAt.None? && (handled ==> jobs[result.id].completedAt == Some(finishedAt))
        && (jobs[result.id].status.Queued? ==> jobs[result.id].availableAt == finishedAt + 60_000)
        && (jobs[result.id].status.Failed? ==> jobs[result.id].availableAt == finishedAt)
    {
      result := ClaimNextJob(queue, worker, now, staleAfterSeconds);
      if result.Claimed? {
        ghost var claimed := jobs;
        if handled {
          CompleteJob(result.id, finishedAt);
        } else {
          FailJob(result.id, finishedAt, RETRY_SECONDS);
        }
        ghost var report :=
          if handled then Finish(result.id, finishedAt) else GiveUp(result.id, finishedAt, RETRY_SECONDS);
        TwoSteps(old(jobs), Take(queue, worker, now, staleAfterSeconds, Some(result.id)), report);
        assert Next(claimed, report) == jobs;
      }
    }

    /**
     Turns every due schedule into one job and moves the schedule past `now`, so that a second call at the same
     time adds nothing.  `fresh` are the random ids of the new jobs, `rows` the due schedules in query order.
     */
    method MaterializeDueCronJobs(rows: seq<Id>, freshIds: seq<Id>, now: int) returns (added: seq<Id>)
      requires forall i, j :: 0 <= i < j < |rows| ==> rows[i] != rows[j]
      requires forall i :: 0 <= i < |rows| ==> rows[i] in schedules && ScheduleDue(schedules[rows[i]], now)
      requires forall s :: s in schedules && ScheduleDue(schedules[s], now) ==> s in rows
      requires |freshIds| == |rows| && forall i, j :: 0 <= i < j < |freshIds| ==> freshIds[i] != freshIds[j]
      requires forall i :: 0 <= i < |freshIds| ==> freshIds[i] !in jobs
      requires forall s :: s in schedules ==> schedules[s].intervalSeconds >= 1
      modifies this
      ensures added == freshIds
      ensures forall s :: s in schedules ==> s in old(schedules)
      ensures forall s :: s in old(schedules) ==>
        s in schedules && schedules[s] == Ticked(old(schedules)[s], now)
      ensures forall s :: s in schedules ==> !ScheduleDue(schedules[s], now)
      ensures forall s :: s in old(schedules) ==>
        s in schedules
        && var was := old(schedules)[s];
           schedules[s] == if was.enabled && !was.deleted && was.nextRunAt <= now
                           then was.(lastRunAt := Some(now), nextRunAt := now + was.intervalSeconds * 1_000) else was
      ensures forall id :: id in jobs ==> id in old(jobs) || id in freshIds
      ensures forall id :: id in old(jobs) ==> id in jobs && jobs[id] == old(jobs)[id]
      ensures forall i :: 0 <= i < |rows| ==>
        freshIds[i] in jobs && jobs[freshIds[i]] == NewJob(old(schedules)[rows[i]].queue, 0, 3, now, now)
        && jobs[freshIds[i]] == Job(old(schedules)[rows[i]].queue, 0, 0, 3, Queued, now, None, None, now, None)
    {
      added := [];
      for i := 0 to |rows|
        invariant added == freshIds[..i]
        invariant forall s :: s in schedules ==> s in old(schedules)
        invariant forall s :: s in old(schedules) ==>
          s in schedules
            && schedules[s] == (if s in rows[..i] then Ticked(old(schedules)[s], now) else old(schedules)[s])
        invariant forall id :: id in jobs ==> id in old(jobs) || id in freshIds
        invariant forall id :: id in old(jobs) ==> id in jobs && jobs[id] == old(jobs)[id]
        invariant forall k :: 0 <= k < i ==>
          freshIds[k] in jobs && jobs[freshIds[k]] == NewJob(old(schedules)[rows[k]].queue, 0, 3, now, now)
      {
        var s := rows[i];
        assert s in rows && s !in rows[..i];
        jobs := jobs[freshIds[i] := NewJob(schedules[s].queue, 0, 3, now, now)];
        schedules := schedules[s := Advanced(schedules[s], now)];
        added := added + [freshIds[i]];
        assert rows[..i + 1] == rows[..i] + [s];
      }
      assert rows[..|rows|] == rows;
    }
  }
}
