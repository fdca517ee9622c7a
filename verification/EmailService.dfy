/** The email functions as the service runs them on its tables. */
module EmailService {
  import opened Basics
  import opened Emails

  /** What a dispatcher meets at one event: the id its delivery would get, and whether queueing throws. */
  datatype Turn = Turn(delivery: Id, suppressed: bool, throws: bool, now: int)

  /** One event's turn in the loop. */
  function DispatchOne(db: Db, e: Id, turn: Turn): Db
    requires e in db.events
  {
    var event := db.events[e];
    if !event.valid then SetEvent(db, e, Dropped, event.availableAt)
    else if turn.throws then Retried(db, e, turn.now)
    else
      var queued :=
        Queue(db, turn.delivery, event.tenant, Some(OfEvent(e)), DEFAULT_MAX_ATTEMPTS, turn.suppressed, turn.now);
      SetEvent(queued, e, Dispatched, event.availableAt)
  }

  function DispatchAll(db: Db, selected: seq<Id>, turns: seq<Turn>): Db
    requires |turns| == |selected| && forall e :: e in selected ==> e in db.events
    decreases |selected|
  {
    if selected == [] then db
    else
      var n := |selected| - 1;
      var before := DispatchAll(db, selected[..n], turns[..n]);
      if selected[n] in before.events then DispatchOne(before, selected[n], turns[n]) else before
  }

  /** How many of the selected events are dispatched. */
  function DispatchCount(db: Db, selected: seq<Id>, turns: seq<Turn>): nat
    requires |turns| == |selected|
    decreases |selected|
  {
    if selected == [] then 0
    else
      var n := |selected| - 1;
      DispatchCount(db, selected[..n], turns[..n])
      + if selected[n] in db.events && db.events[selected[n]].valid && !turns[n].throws then 1 else 0
  }

  lemma {:induction false} DispatchKeepsEvents(db: Db, selected: seq<Id>, turns: seq<Turn>)
    requires |turns| == |selected| && forall e :: e in selected ==> e in db.events
    ensures DispatchAll(db, selected, turns).events.Keys == db.events.Keys
    decreases |selected|
  {
    if selected != [] {
      DispatchKeepsEvents(db, selected[..|selected| - 1], turns[..|selected| - 1]);
    }
  }

  /** The steps of one undisturbed turn. */
  function TurnSteps(db: Db, e: Id, turn: Turn): seq<Step>
    requires e in db.events
  {
    if !db.events[e].valid then [Select(e, turn.now), Drop(Dispatching(e), turn.now)]
    else if turn.throws then [Select(e, turn.now), Break(Dispatching(e), turn.now), MarkRetry(Retrying(e), turn.now)]
    else
      [Select(e, turn.now), QueueFor(Dispatching(e), turn.delivery, turn.suppressed, turn.now),
       MarkDispatched(Marking(e), turn.now)]
  }

  lemma RunOfThree(s: Sys, a: Step, b: Step, c: Step)
    ensures Run(s, [a, b]) == Next(Next(s, a), b)
    ensures Run(s, [a, b, c]) == Next(Next(Next(s, a), b), c)
  {
    hide Next;
    RunAppends(s, [], a);
    RunAppends(s, [a], b);
    RunAppends(s, [a, b], c);
    assert [] + [a] == [a] && [a] + [b] == [a, b] && [a, b] + [c] == [a, b, c];
  }

  lemma SelectAdds(s: Sys, e: Id, now: int)
    requires Enabled(s, Select(e, now))
    ensures Next(s, Select(e, now)) == s.(tasks := s.tasks + multiset{Dispatching(e)})
  {
  }

  /** A step of the only new task ends it, starts what it starts and writes what it writes. */
  lemma TaskTurn(s: Sys, step: Step, task: Task, started: multiset<Task>, db: Db)
    requires task in s.tasks && Enabled(s, step) && !step.CallProvider?
    requires Ended(step) == multiset{task} && Started(s.db, step) == started && Tables(s.db, step) == db
    ensures Next(s, step) == Sys(db, s.tasks - multiset{task} + started, s.calls)
  {
  }

  lemma Swap(tasks: multiset<Task>, a: Task, b: Task)
    ensures tasks + multiset{a} - multiset{a} + multiset{b} == tasks + multiset{b}
    ensures tasks + multiset{a} - multiset{a} + multiset{} == tasks
  {
  }

  lemma DropTurn(s: Sys, e: Id, turn: Turn)
    requires Enabled(s, Select(e, turn.now)) && !s.db.events[e].valid
    ensures Run(s, TurnSteps(s.db, e, turn)) == s.(db := DispatchOne(s.db, e, turn))
  {
    hide Queue, Retried, Run, Next;
    var steps := TurnSteps(s.db, e, turn);
    SelectAdds(s, e, turn.now);
    TaskTurn(Next(s, steps[0]), steps[1], Dispatching(e), multiset{}, DispatchOne(s.db, e, turn));
    Swap(s.tasks, Dispatching(e), Dispatching(e));
    RunOfThree(s, steps[0], steps[1], steps[1]);
  }

  lemma RetryTurn(s: Sys, e: Id, turn: Turn)
    requires Enabled(s, Select(e, turn.now)) && s.db.events[e].valid && turn.throws
    ensures Run(s, TurnSteps(s.db, e, turn)) == s.(db := DispatchOne(s.db, e, turn))
  {
    hide Queue, Retried, Run, Next;
    var steps := TurnSteps(s.db, e, turn);
    SelectAdds(s, e, turn.now);
    var s1 := Next(s, steps[0]);
    TaskTurn(s1, steps[1], Dispatching(e), multiset{Retrying(e)}, s.db);
    Swap(s.tasks, Dispatching(e), Retrying(e));
    TaskTurn(Next(s1, steps[1]), steps[2], Retrying(e), multiset{}, DispatchOne(s.db, e, turn));
    Swap(s.tasks, Retrying(e), Retrying(e));
    RunOfThree(s, steps[0], steps[1], steps[2]);
  }

  lemma QueueTurn(s: Sys, e: Id, turn: Turn)
    requires Enabled(s, Select(e, turn.now)) && s.db.events[e].valid && !turn.throws
             && turn.delivery !in s.db.deliveries
    ensures Run(s, TurnSteps(s.db, e, turn)) == s.(db := DispatchOne(s.db, e, turn))
  {
    hide Queue, Retried, Run, Next;
    var steps := TurnSteps(s.db, e, turn);
    SelectAdds(s, e, turn.now);
    var s1 := Next(s, steps[0]);
    var queued := Tables(s1.db, steps[1]);
    TaskTurn(s1, steps[1], Dispatching(e), multiset{Marking(e)}, queued);
    Swap(s.tasks, Dispatching(e), Marking(e));
    QueueLeavesEvents(s1.db, steps[1]);
    TaskTurn(Next(s1, steps[1]), steps[2], Marking(e), multiset{}, DispatchOne(s.db, e, turn));
    Swap(s.tasks, Marking(e), Marking(e));
    RunOfThree(s, steps[0], steps[1], steps[2]);
  }

  /** A turn nothing interrupts leaves what the loop's body leaves, and no task. */
  lemma TurnIsARun(s: Sys, e: Id, turn: Turn)
    requires e in s.db.events && s.db.events[e].progress == Waiting && s.db.events[e].availableAt <= turn.now
    requires turn.delivery !in s.db.deliveries
    ensures Run(s, TurnSteps(s.db, e, turn)) == s.(db := DispatchOne(s.db, e, turn))
  {
    hide Run, TurnSteps, DispatchOne;
    assert Enabled(s, Select(e, turn.now));
    hide Enabled;
    if !s.db.events[e].valid {
      DropTurn(s, e, turn);
    } else if turn.throws {
      RetryTurn(s, e, turn);
    } else {
      QueueTurn(s, e, turn);
    }
  }

  /** The steps of one undisturbed sender. */
  function SenderSteps(d: Id, number: int, now: int, accepts: bool, done: int): seq<Step> {
    var called := Called(d, number, now, accepts);
    [Claim(d, now), CallProvider(Claimed(d, number, now), accepts, now),
     if accepts then MarkSent(called, done) else MarkFailed(called, done)]
  }

  lemma ClaimAdds(s: Sys, d: Id, now: int)
    requires d in s.db.deliveries
    requires var row := s.db.deliveries[d];
             row.attempts < row.maxAttempts
             && (row.status == Queued || row.status == Failed
                 || (row.status == Sending && row.updatedAt + 300_000 <= now))
    ensures var number := s.db.deliveries[d].attempts + 1;
            Next(s, Claim(d, now))
            == Sys(s.db.(deliveries := s.db.deliveries[d :=
                     s.db.deliveries[d].(status := Sending, attempts := number, updatedAt := now)]),
                   s.tasks + multiset{Claimed(d, number, now)}, s.calls)
  {
  }

  lemma CallAdds(s: Sys, tasks: multiset<Task>, d: Id, number: int, at: int, accepts: bool)
    requires s.tasks == tasks + multiset{Claimed(d, number, at)}
    ensures Next(s, CallProvider(Claimed(d, number, at), accepts, at))
            == Sys(s.db, tasks + multiset{Called(d, number, at, accepts)}, s.calls + {Call(d, number)})
  {
    hide Queue, Retried, SetStatus, SetEvent, ClaimedRow, Claimable, TimedOut, Next;
    var claim, called := Claimed(d, number, at), Called(d, number, at, accepts);
    var step := CallProvider(claim, accepts, at);
    assert Tables(s.db, step) == s.db;
    assert Started(s.db, step) == multiset{called};
    assert s.tasks - multiset{claim} + multiset{called} == tasks + multiset{called};
    StepIs(s, step, s.tasks - multiset{claim} + multiset{called}, s.db);
  }

  lemma StepIs(s: Sys, step: Step, tasks: multiset<Task>, db: Db)
    requires Enabled(s, step) && Tables(s.db, step) == db && s.tasks - Ended(step) + Started(s.db, step) == tasks
    ensures Next(s, step) == Sys(db, tasks, s.calls + NewCalls(step))
  {
  }

  lemma AnswerEnds(s: Sys, tasks: multiset<Task>, d: Id, number: int, at: int, accepts: bool, done: int)
    requires s.tasks == tasks + multiset{Called(d, number, at, accepts)} && d in s.db.deliveries
    ensures var called := Called(d, number, at, accepts);
            Next(s, if accepts then MarkSent(called, done) else MarkFailed(called, done))
            == Sys(s.db.(deliveries := s.db.deliveries[d :=
                     s.db.deliveries[d].(status := if accepts then Sent else Failed, updatedAt := done)]),
                   tasks, s.calls)
  {
    hide Queue, Retried, Claimable, TimedOut, Next;
    var called := Called(d, number, at, accepts);
    var status := if accepts then Sent else Failed;
    TaskTurn(s, if accepts then MarkSent(called, done) else MarkFailed(called, done), called, multiset{},
             SetStatus(s.db, d, status, done));
    assert s.tasks - multiset{called} + multiset{} == tasks;
  }

  /** A sender nothing interrupts claims the delivery, calls the provider once, and leaves what it answered. */
  lemma SenderIsARun(s: Sys, d: Id, now: int, accepts: bool, done: int)
    requires d in s.db.deliveries
    requires var row := s.db.deliveries[d];
             row.attempts < row.maxAttempts
             && (row.status == Queued || row.status == Failed
                 || (row.status == Sending && row.updatedAt + 300_000 <= now))
    ensures var row := s.db.deliveries[d];
            var after := row.(status := if accepts then Sent else Failed, attempts := row.attempts + 1,
                              updatedAt := done);
            Run(s, SenderSteps(d, row.attempts + 1, now, accepts, done))
            == Sys(s.db.(deliveries := s.db.deliveries[d := after]), s.tasks, s.calls + {Call(d, row.attempts + 1)})
  {
    hide Next, Run;
    var number := s.db.deliveries[d].attempts + 1;
    var steps := SenderSteps(d, number, now, accepts, done);
    ClaimAdds(s, d, now);
    CallAdds(Next(s, steps[0]), s.tasks, d, number, now, accepts);
    AnswerEnds(Next(Next(s, steps[0]), steps[1]), s.tasks, d, number, now, accepts, done);
    RunOfThree(s, steps[0], steps[1], steps[2]);
  }

  datatype Outcome = NotFound | Busy | Threw | Settled(status: Status)

  class Mailer {
    var events: map<Id, Event>
    var deliveries: map<Id, Delivery>
    var jobs: set<Id>

    function State(): Db
      reads this
    {
      Db(events, deliveries, jobs)
    }

    constructor ()
      ensures State() == EMPTY.db
    {
      events, deliveries, jobs := map[], map[], {};
    }

    /** `false` is the error for a bad number of attempts. */
    method QueueEmail(d: Id, tenant: Id, key: Option<Key>, maxAttempts: int, suppressed: bool, now: int)
      returns (ok: bool)
      requires d !in deliveries
      modifies this`deliveries, this`jobs
      ensures ok <==> maxAttempts >= 1
      ensures State() == Queue(old(State()), d, tenant, key, maxAttempts, suppressed, now)
      ensures !ok || (key.Some? && exists o :: o in old(deliveries) && old(deliveries)[o].key == key
                                               && old(deliveries)[o].tenant == tenant) ==>
                State() == old(State())
      ensures ok && (key.None? || forall o :: o in old(deliveries) && old(deliveries)[o].key == key ==>
                       old(deliveries)[o].tenant != tenant) ==>
                && d in deliveries && deliveries - {d} == old(deliveries)
                && deliveries[d].tenant == tenant && deliveries[d].key == key && deliveries[d].attempts == 0
                && deliveries[d].maxAttempts == maxAttempts && deliveries[d].updatedAt == now
                && deliveries[d].status == (if suppressed then Suppressed else Queued)
                && jobs == old(jobs) + if suppressed then {} else {d}
    {
      if maxAttempts < 1 {
        return false;
      }
      if key.Some? {
        if exists o :: o in deliveries && deliveries[o].tenant == tenant && deliveries[o].key == key {
          return true;
        }
      }
      deliveries :=
        deliveries[d := Delivery(tenant, key, if suppressed then Suppressed else Queued, 0, maxAttempts, now)];
      if !suppressed {
        jobs := jobs + {d};
      }
      ok := true;
    }

    /** The loop's body; `true` if the event counts as dispatched. */
    method DispatchEvent(e: Id, turn: Turn) returns (dispatched: bool)
      requires e in events && turn.delivery !in deliveries
      modifies this
      ensures State() == DispatchOne(old(State()), e, turn)
      ensures dispatched <==> old(events)[e].valid && !turn.throws
      ensures events.Keys == old(events).Keys && deliveries.Keys <= old(deliveries).Keys + {turn.delivery}
      ensures forall o :: o in events ==> events[o].valid == old(events)[o].valid
      ensures events - {e} == old(events) - {e} && events[e].tenant == old(events)[e].tenant
              && events[e].attempts == old(events)[e].attempts + 1
      ensures !dispatched ==> deliveries == old(deliveries) && jobs == old(jobs)
      ensures dispatched ==> events[e].progress == Dispatched && events[e].availableAt == old(events)[e].availableAt
      ensures dispatched && (exists o :: o in old(deliveries) && old(deliveries)[o].key == Some(OfEvent(e))
                                         && old(deliveries)[o].tenant == old(events)[e].tenant) ==>
                deliveries == old(deliveries) && jobs == old(jobs)
      ensures dispatched && (forall o :: o in old(deliveries) && old(deliveries)[o].key == Some(OfEvent(e)) ==>
                               old(deliveries)[o].tenant != old(events)[e].tenant) ==>
                && deliveries.Keys == old(deliveries).Keys + {turn.delivery}
                && deliveries[turn.delivery].key == Some(OfEvent(e))
                && deliveries[turn.delivery].tenant == old(events)[e].tenant
                && deliveries[turn.delivery].status == (if turn.suppressed then Suppressed else Queued)
                && deliveries[turn.delivery].maxAttempts == 3
                && jobs == old(jobs) + if turn.suppressed then {} else {turn.delivery}
      ensures !old(events)[e].valid ==>
                events[e].progress == Dropped && events[e].availableAt == old(events)[e].availableAt
      ensures old(events)[e].valid && turn.throws ==>
                && events[e].progress == (if old(events)[e].attempts >= 2 then Dropped else Waiting)
                && events[e].availableAt == turn.now + RetryDelay(old(events)[e].attempts)
    {
      hide Taken;
      var event := events[e];
      dispatched := false;
      if !event.valid {
        events := events[e := event.(progress := Dropped, attempts := event.attempts + 1)];
      } else if !turn.throws {
        var ok := QueueEmail(
          turn.delivery, event.tenant, Some(OfEvent(e)), DEFAULT_MAX_ATTEMPTS, turn.suppressed, turn.now);
        events := events[e := event.(progress := Dispatched, attempts := event.attempts + 1)];
        dispatched := true;
      } else {
        var progress := if event.attempts + 1 >= OUTBOX_MAX_ATTEMPTS then Dropped else Waiting;
        var seconds := 30 * Doubled(event.attempts);
        var delay := if seconds < 3_600 then seconds else 3_600;
        events := events[e := Event(event.tenant, true, progress, event.attempts + 1, turn.now + delay * 1_000)];
      }
    }

    method DispatchOutbox(selected: seq<Id>, turns: seq<Turn>) returns (dispatched: nat)
      requires |turns| == |selected| && forall e :: e in selected ==> e in events
      requires forall i :: 0 <= i < |turns| ==> turns[i].delivery !in deliveries
      requires forall i, j :: 0 <= i < j < |turns| ==> turns[i].delivery != turns[j].delivery
      modifies this
      ensures State() == DispatchAll(old(State()), selected, turns)
      ensures dispatched == DispatchCount(old(State()), selected, turns)
    {
      hide DispatchOne;
      dispatched := 0;
      for i := 0 to |selected|
        invariant State() == DispatchAll(old(State()), selected[..i], turns[..i])
        invariant events.Keys == old(events).Keys
        invariant forall e :: e in events ==> events[e].valid == old(events)[e].valid
        invariant forall j :: i <= j < |turns| ==> turns[j].delivery !in deliveries
        invariant dispatched == DispatchCount(old(State()), selected[..i], turns[..i])
      {
        assert selected[..i + 1][..i] == selected[..i] && turns[..i + 1][..i] == turns[..i];
        assert selected[i] in selected;
        var counts := DispatchEvent(selected[i], turns[i]);
        if counts {
          dispatched := dispatched + 1;
        }
      }
      assert selected[..|selected|] == selected && turns[..|turns|] == turns;
    }

    /** One sender, undisturbed: `accepts` is what the provider does if it is asked, at `done`. */
    method ProcessEmailDelivery(d: Id, now: int, accepts: bool, done: int) returns (outcome: Outcome)
      modifies this`deliveries
      ensures d !in old(deliveries) ==> outcome == NotFound && State() == old(State())
      ensures d in old(deliveries) ==>
        var row := old(deliveries)[d];
        if Claimable(row, now) then
          && outcome == (if accepts then Settled(Sent) else Threw)
          && State() == SetStatus(Tables(old(State()), Claim(d, now)), d, if accepts then Sent else Failed, done)
        else if TimedOut(row, now) then outcome == Settled(Failed) && State() == SetStatus(old(State()), d, Failed, now)
        else outcome == (if row.status.Sending? then Busy else Settled(row.status)) && State() == old(State())
      ensures events == old(events) && jobs == old(jobs)
      ensures d in old(deliveries) ==>
        var row := old(deliveries)[d];
        var stale := row.updatedAt + 300_000 <= now;
        && d in deliveries && deliveries - {d} == old(deliveries) - {d}
        && (if row.attempts < row.maxAttempts
               && (row.status == Queued || row.status == Failed || (row.status == Sending && stale))
            then
              && deliveries[d].status == (if accepts then Sent else Failed)
              && outcome == (if accepts then Settled(Sent) else Threw)
              && deliveries[d].attempts == row.attempts + 1 && deliveries[d].updatedAt == done
              && deliveries[d].maxAttempts == row.maxAttempts && deliveries[d].key == row.key
              && deliveries[d].tenant == row.tenant
            else if row.status == Sending && row.attempts >= row.maxAttempts && stale then
              deliveries[d] == row.(status := Failed, updatedAt := now) && outcome == Settled(Failed)
            else deliveries[d] == row && outcome == if row.status == Sending then Busy else Settled(row.status))
    {
      if d !in deliveries {
        return NotFound;
      }
      var row := deliveries[d];
      var stale := row.updatedAt <= now - CLAIM_TIMEOUT;
      if row.attempts < row.maxAttempts
         && (row.status.Queued? || row.status.Failed? || (row.status.Sending? && stale))
      {
        deliveries := deliveries[d := row.(status := Sending, attempts := row.attempts + 1, updatedAt := now)];
        if accepts {
          deliveries := deliveries[d := deliveries[d].(status := Sent, updatedAt := done)];
          return Settled(Sent);
        }
        deliveries := deliveries[d := deliveries[d].(status := Failed, updatedAt := done)];
        return Threw;
      }
      if row.status.Sent? {
        return Settled(Sent);
      }
      if row.status.Sending? && row.attempts >= row.maxAttempts && stale {
        deliveries := deliveries[d := row.(status := Failed, updatedAt := now)];
        return Settled(Failed);
      }
      if row.status.Sending? {
        return Busy;
      }
      outcome := Settled(row.status);
    }
  }
}
