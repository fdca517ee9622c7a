/**
 The job queue when workers keep their lease: every worker finishes, or dies, strictly before the stale timeout
 after its claim.  Then a lock means exclusive ownership.
 */
module JobLeases {
  import opened Basics
  import opened Jobs

  /** A claim that its worker is still working on. */
  datatype Hold = Hold(job: Id, worker: Id, at: int)

  datatype Sys = Sys(jobs: Table, now: int, holds: set<Hold>)

  datatype Event =
    | Enqueues(id: Id, queue: Id, priority: int, maxAttempts: int, availableAt: int, now: int)
    | Claims(queue: Id, worker: Id, now: int, staleAfterSeconds: int, pick: Option<Id>)
    | Completes(hold: Hold, now: int)
    | Fails(hold: Hold, now: int, retryDelaySeconds: int)
    | Dies(hold: Hold, now: int)

  function Statement(event: Event): Option<Step> {
    match event
    case Enqueues(id, queue, priority, maxAttempts, availableAt, now) =>
      Some(Add(id, queue, priority, maxAttempts, availableAt, now))
    case Claims(queue, worker, now, stale, pick) => Some(Take(queue, worker, now, stale, pick))
    case Completes(hold, now) => Some(Finish(hold.job, now))
    case Fails(hold, now, delay) => Some(GiveUp(hold.job, now, delay))
    case Dies(_, _) => None
  }

  function After(s: Sys, event: Event): Sys {
    var jobs := if Statement(event).Some? then Next(s.jobs, Statement(event).value) else s.jobs;
    var holds :=
      match event
      case Claims(_, worker, now, _, Some(id)) => s.holds + {Hold(id, worker, now)}
      case Completes(hold, _) => s.holds - {hold}
      case Fails(hold, _, _) => s.holds - {hold}
      case Dies(hold, _) => s.holds - {hold}
      case _ => s.holds;
    Sys(jobs, event.now, holds)
  }

  function RunAll(s: Sys, events: seq<Event>): Sys
    decreases |events|
  {
    if events == [] then s else RunAll(After(s, events[0]), events[1..])
  }

  /**
   The lease assumption at one event: time does not go back, workers only finish what they hold, no claimer's stale
   timeout is shorter than the lease, and no claim still being worked on is as old as the lease.
   */
  predicate InLease(s: Sys, event: Event, lease: int) {
    && event.now >= s.now
    && (Statement(event).Some? ==> Allowed(s.jobs, Statement(event).value))
    && (event.Claims? ==> event.staleAfterSeconds * 1000 >= lease)
    && (event.Completes? || event.Fails? || event.Dies? ==> event.hold in s.holds)
    && forall h :: h in s.holds ==> event.now < h.at + lease
  }

  predicate RunInLease(s: Sys, events: seq<Event>, lease: int)
    decreases |events|
  {
    events != [] ==> InLease(s, events[0], lease) && RunInLease(After(s, events[0]), events[1..], lease)
  }

  /** The row of a held job names its holder and the time of its claim. */
  predicate HeldRow(jobs: Table, hold: Hold) {
    && hold.job in jobs && jobs[hold.job].status.Running?
    && jobs[hold.job].lockedBy == Some(hold.worker) && jobs[hold.job].lockedAt == Some(hold.at)
  }

  predicate LeaseInv(s: Sys) {
    Inv(s.jobs) && forall h :: h in s.holds ==> HeldRow(s.jobs, h)
  }

  /** A held job is not reclaimed, so no claim can pick it. */
  lemma HeldIsNotPicked(s: Sys, event: Event, lease: int, hold: Hold)
    requires LeaseInv(s) && InLease(s, event, lease) && event.Claims? && hold in s.holds
    ensures Reclaim(s.jobs, event.queue, event.now, event.staleAfterSeconds)[hold.job] == s.jobs[hold.job]
    ensures event.pick != Some(hold.job)
  {
  }

  lemma EventKeeps(s: Sys, event: Event, lease: int)
    requires LeaseInv(s) && InLease(s, event, lease)
    ensures LeaseInv(After(s, event))
  {
    var s' := After(s, event);
    if Statement(event).Some? { StepKeeps(s.jobs, Statement(event).value); }
    forall h | h in s'.holds ensures HeldRow(s'.jobs, h) {
      if h in s.holds {
        assert HeldRow(s.jobs, h);
        if event.Claims? { HeldIsNotPicked(s, event, lease, h); }
        if event.Completes? || event.Fails? { assert HeldRow(s.jobs, event.hold); }
      }
    }
  }

  lemma {:induction false} EveryRunKeepsLeases(s: Sys, events: seq<Event>, lease: int)
    requires LeaseInv(s) && RunInLease(s, events, lease)
    ensures LeaseInv(RunAll(s, events))
    decreases |events|
  {
    if events != [] {
      EventKeeps(s, events[0], lease);
      EveryRunKeepsLeases(After(s, events[0]), events[1..], lease);
    }
  }

  /** At no point of a run do two claims hold the same job, and whoever finishes a job holds its lock. */
  lemma OneHolderPerJob(s: Sys, events: seq<Event>, lease: int, a: Hold, b: Hold)
    requires LeaseInv(s) && RunInLease(s, events, lease)
    requires a in RunAll(s, events).holds && b in RunAll(s, events).holds && a.job == b.job
    ensures a == b
    ensures a.job in RunAll(s, events).jobs && RunAll(s, events).jobs[a.job].lockedBy == Some(a.worker)
  {
    EveryRunKeepsLeases(s, events, lease);
    assert HeldRow(RunAll(s, events).jobs, a) && HeldRow(RunAll(s, events).jobs, b);
  }

  /** A completed job's row never changes again. */
  lemma {:induction false} CompletedIsTerminal(s: Sys, events: seq<Event>, lease: int, id: Id)
    requires LeaseInv(s) && RunInLease(s, events, lease)
    requires id in s.jobs && s.jobs[id].status.Completed?
    ensures id in RunAll(s, events).jobs && RunAll(s, events).jobs[id] == s.jobs[id]
    decreases |events|
  {
    if events != [] {
      var event := events[0];
      if event.Completes? || event.Fails? { assert HeldRow(s.jobs, event.hold); }
      if event.Claims? {
        assert Reclaim(s.jobs, event.queue, event.now, event.staleAfterSeconds)[id] == s.jobs[id];
      }
      EventKeeps(s, event, lease);
      CompletedIsTerminal(After(s, event), events[1..], lease, id);
    }
  }

  predicate FailsJob(event: Event, id: Id) { event.Fails? && event.hold.job == id }

  predicate ClaimsJob(event: Event, id: Id) { event.Claims? && event.pick == Some(id) }

  /** Since its claim at `at` the job was not failed: it can only be queued again once the lease is over. */
  predicate Aged(s: Sys, id: Id, at: int, lease: int) {
    id in s.jobs
    && match s.jobs[id].status
       case Running => s.jobs[id].lockedAt.Some? && s.jobs[id].lockedAt.value >= at
       case Queued => s.now >= at + lease
       case Completed => true
       case Failed => true
  }

  lemma AgedStays(s: Sys, event: Event, id: Id, at: int, lease: int)
    requires LeaseInv(s) && InLease(s, event, lease) && Aged(s, id, at, lease) && !FailsJob(event, id)
    requires s.now >= at
    ensures Aged(After(s, event), id, at, lease) && (ClaimsJob(event, id) ==> event.now >= at + lease)
  {
    if event.Claims? {
      assert id in Reclaim(s.jobs, event.queue, event.now, event.staleAfterSeconds);
    }
  }

  lemma {:induction false} LaterClaimIsApart(s: Sys, events: seq<Event>, id: Id, at: int, lease: int)
    requires LeaseInv(s) && RunInLease(s, events, lease) && Aged(s, id, at, lease) && s.now >= at
    requires events != [] && ClaimsJob(events[|events| - 1], id)
    requires forall i :: 0 <= i < |events| - 1 ==> !FailsJob(events[i], id)
    ensures events[|events| - 1].now >= at + lease
    decreases |events|
  {
    AgedStays(s, events[0], id, at, lease);
    if |events| > 1 {
      EventKeeps(s, events[0], lease);
      LaterClaimIsApart(After(s, events[0]), events[1..], id, at, lease);
    }
  }

  /** Any two claims of one job without a failure of it in between are at least the lease apart. */
  lemma ClaimsAreApart(s: Sys, events: seq<Event>, id: Id, lease: int)
    requires LeaseInv(s) && RunInLease(s, events, lease) && |events| >= 2
    requires ClaimsJob(events[0], id) && ClaimsJob(events[|events| - 1], id)
    requires forall i :: 0 < i < |events| - 1 ==> !FailsJob(events[i], id)
    ensures events[|events| - 1].now >= events[0].now + lease
  {
    var s', rest := After(s, events[0]), events[1..];
    EventKeeps(s, events[0], lease);
    assert Aged(s', id, events[0].now, lease);
    assert forall i :: 0 <= i < |rest| - 1 ==> rest[i] == events[i + 1];
    LaterClaimIsApart(s', rest, id, events[0].now, lease);
  }
}
