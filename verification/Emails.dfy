/**
 Email deliveries and the outbox they are dispatched from, with any number of dispatchers and senders at once.

 A dispatcher selects a waiting event, queues a delivery for it in one transaction, and marks the event; a sender claims
 a delivery, calls the provider, and writes down how that went.  Nothing in those last writes looks at who holds the
 claim.  Times are milliseconds.
 */
module Emails {
  import opened Basics

  const CLAIM_TIMEOUT := 5 * 60 * 1_000
  const OUTBOX_MAX_ATTEMPTS := 3
  const DEFAULT_MAX_ATTEMPTS := 3

  datatype Key = OfEvent(event: Id) | Own(name: Id)
  datatype Status = Queued | Sending | Sent | Failed | Suppressed
  datatype Delivery = Delivery(
    tenant: Id, key: Option<Key>, status: Status, attempts: int, maxAttempts: int, updatedAt: int)

  datatype Progress = Waiting | Dispatched | Dropped
  datatype Event = Event(tenant: Id, valid: bool, progress: Progress, attempts: nat, availableAt: int)

  datatype Db = Db(events: map<Id, Event>, deliveries: map<Id, Delivery>, jobs: set<Id>)

  /** Work in flight; `number` is the attempt a sender has claimed and `at` when. */
  datatype Task =
    | Dispatching(event: Id)
    | Marking(event: Id)
    | Retrying(event: Id)
    | Claimed(delivery: Id, number: int, at: int)
    | Called(delivery: Id, number: int, at: int, accepted: bool)

  /** A call of the provider, made in one attempt at one delivery. */
  datatype Call = Call(delivery: Id, number: int)

  datatype Sys = Sys(db: Db, tasks: multiset<Task>, calls: set<Call>)

  datatype Step =
    | AddEvent(event: Id, tenant: Id, valid: bool, now: int)
    | Select(event: Id, now: int)
    | QueueFor(task: Task, delivery: Id, suppressed: bool, now: int)
    | Drop(task: Task, now: int)
    | Break(task: Task, now: int)
    | MarkDispatched(task: Task, now: int)
    | MarkRetry(task: Task, now: int)
    | QueueDirectly(delivery: Id, tenant: Id, key: Option<Id>, maxAttempts: int, suppressed: bool, now: int)
    | Claim(delivery: Id, now: int)
    | CallProvider(task: Task, accepted: bool, now: int)
    | MarkSent(task: Task, now: int)
    | MarkFailed(task: Task, now: int)
    | TimeOut(delivery: Id, now: int)
    | Crash(task: Task, now: int)

  // ----- statements

  predicate Taken(db: Db, tenant: Id, key: Key) {
    exists d :: d in db.deliveries && db.deliveries[d].tenant == tenant && db.deliveries[d].key == Some(key)
  }

  /** `queueEmail`'s transaction: a key the tenant has used already gets no second delivery and no second job. */
  function Queue(db: Db, d: Id, tenant: Id, key: Option<Key>, maxAttempts: int, suppressed: bool, now: int): Db {
    if maxAttempts < 1 || (key.Some? && Taken(db, tenant, key.value)) then db
    else
      db.(deliveries := db.deliveries[d :=
            Delivery(tenant, key, if suppressed then Suppressed else Queued, 0, maxAttempts, now)],
          jobs := if suppressed then db.jobs else db.jobs + {d})
  }

  predicate Claimable(delivery: Delivery, now: int) {
    delivery.attempts < delivery.maxAttempts
    && (delivery.status.Queued? || delivery.status.Failed?
        || (delivery.status.Sending? && delivery.updatedAt <= now - CLAIM_TIMEOUT))
  }

  function ClaimedRow(delivery: Delivery, now: int): Delivery {
    delivery.(status := Sending, attempts := delivery.attempts + 1, updatedAt := now)
  }

  predicate TimedOut(delivery: Delivery, now: int) {
    delivery.status.Sending? && delivery.attempts >= delivery.maxAttempts && delivery.updatedAt <= now - CLAIM_TIMEOUT
  }

  function SetStatus(db: Db, d: Id, status: Status, now: int): Db {
    if d in db.deliveries
    then db.(deliveries := db.deliveries[d := db.deliveries[d].(status := status, updatedAt := now)])
    else db
  }

  function Doubled(n: nat): int { if n == 0 then 1 else 2 * Doubled(n - 1) }

  function RetryDelay(attempts: nat): int {
    var seconds := 30 * Doubled(attempts);
    (if seconds < 3_600 then seconds else 3_600) * 1_000
  }

  /** The delay starts at half a minute, doubles with each attempt, and stays at an hour. */
  lemma DelaysAre(attempts: nat)
    ensures RetryDelay(0) == 30_000
    ensures RetryDelay(attempts + 1)
            == if RetryDelay(attempts) * 2 <= 3_600_000 then RetryDelay(attempts) * 2 else 3_600_000
  {
  }

  function SetEvent(db: Db, e: Id, progress: Progress, availableAt: int): Db {
    if e in db.events then
      var event := db.events[e];
      db.(events :=
        db.events[e := event.(progress := progress, attempts := event.attempts + 1, availableAt := availableAt)])
    else db
  }

  function Retried(db: Db, e: Id, now: int): Db {
    if e in db.events then
      var event := db.events[e];
      SetEvent(db, e, if event.attempts + 1 >= OUTBOX_MAX_ATTEMPTS then Dropped else Waiting,
               now + RetryDelay(event.attempts))
    else db
  }

  // ----- steps

  predicate Enabled(s: Sys, step: Step) {
    match step
    case AddEvent(e, _, _, _) => e !in s.db.events
    case Select(e, now) => e in s.db.events && s.db.events[e].progress.Waiting? && s.db.events[e].availableAt <= now
    case QueueFor(task, d, _, _) =>
      task in s.tasks && task.Dispatching? && task.event in s.db.events && s.db.events[task.event].valid
      && d !in s.db.deliveries
    case Drop(task, _) =>
      task in s.tasks && task.Dispatching? && task.event in s.db.events && !s.db.events[task.event].valid
    case Break(task, _) => task in s.tasks && (task.Dispatching? || task.Marking?)
    case MarkDispatched(task, _) => task in s.tasks && task.Marking?
    case MarkRetry(task, _) => task in s.tasks && task.Retrying?
    case QueueDirectly(d, _, _, _, _, _) => d !in s.db.deliveries
    case Claim(d, now) => d in s.db.deliveries && Claimable(s.db.deliveries[d], now)
    case CallProvider(task, _, _) => task in s.tasks && task.Claimed?
    case MarkSent(task, _) => task in s.tasks && task.Called? && task.accepted
    case MarkFailed(task, _) => task in s.tasks && (task.Claimed? || task.Called?)
    case TimeOut(d, now) => d in s.db.deliveries && TimedOut(s.db.deliveries[d], now)
    case Crash(task, _) => task in s.tasks
  }

  function Tables(db: Db, step: Step): Db {
    match step
    case AddEvent(e, tenant, valid, now) => db.(events := db.events[e := Event(tenant, valid, Waiting, 0, now)])
    case QueueFor(Dispatching(e), d, suppressed, now) =>
      if e in db.events then Queue(db, d, db.events[e].tenant, Some(OfEvent(e)), DEFAULT_MAX_ATTEMPTS, suppressed, now)
      else db
    case Drop(Dispatching(e), _) => if e in db.events then SetEvent(db, e, Dropped, db.events[e].availableAt) else db
    case MarkDispatched(Marking(e), _) =>
      if e in db.events then SetEvent(db, e, Dispatched, db.events[e].availableAt) else db
    case MarkRetry(Retrying(e), now) => Retried(db, e, now)
    case QueueDirectly(d, tenant, key, maxAttempts, suppressed, now) =>
      Queue(db, d, tenant, if key.Some? then Some(Own(key.value)) else None, maxAttempts, suppressed, now)
    case Claim(d, now) =>
      if d in db.deliveries then db.(deliveries := db.deliveries[d := ClaimedRow(db.deliveries[d], now)]) else db
    case MarkSent(Called(d, _, _, _), now) => SetStatus(db, d, Sent, now)
    case MarkFailed(Claimed(d, _, _), now) => SetStatus(db, d, Failed, now)
    case MarkFailed(Called(d, _, _, _), now) => SetStatus(db, d, Failed, now)
    case TimeOut(d, now) => SetStatus(db, d, Failed, now)
    case _ => db
  }

  function Started(db: Db, step: Step): multiset<Task> {
    match step
    case Select(e, _) => multiset{Dispatching(e)}
    case QueueFor(Dispatching(e), _, _, _) => multiset{Marking(e)}
    case Break(Dispatching(e), _) => multiset{Retrying(e)}
    case Break(Marking(e), _) => multiset{Retrying(e)}
    case Claim(d, now) =>
      if d in db.deliveries then multiset{Claimed(d, db.deliveries[d].attempts + 1, now)} else multiset{}
    case CallProvider(Claimed(d, number, at), accepted, _) => multiset{Called(d, number, at, accepted)}
    case _ => multiset{}
  }

  function Ended(step: Step): multiset<Task> {
    if step.AddEvent? || step.Select? || step.QueueDirectly? || step.Claim? || step.TimeOut? then multiset{}
    else multiset{step.task}
  }

  function NewCalls(step: Step): set<Call> {
    if step.CallProvider? && step.task.Claimed? then {Call(step.task.delivery, step.task.number)} else {}
  }

  function Next(s: Sys, step: Step): Sys {
    if Enabled(s, step) then
      Sys(Tables(s.db, step), s.tasks - Ended(step) + Started(s.db, step), s.calls + NewCalls(step))
    else s
  }

  /** Only waiting events whose time has come are selected; a valid one is queued, an invalid one dropped. */
  lemma DispatchersNeed(s: Sys, e: Id, d: Id, suppressed: bool, now: int)
    requires e in s.db.events
    ensures Enabled(s, Select(e, now)) <==> s.db.events[e].progress == Waiting && s.db.events[e].availableAt <= now
    ensures Enabled(s, QueueFor(Dispatching(e), d, suppressed, now)) <==>
              Dispatching(e) in s.tasks && s.db.events[e].valid && d !in s.db.deliveries
    ensures Enabled(s, Drop(Dispatching(e), now)) <==> Dispatching(e) in s.tasks && !s.db.events[e].valid
    ensures Enabled(s, Break(Dispatching(e), now)) <==> Dispatching(e) in s.tasks
    ensures Enabled(s, Break(Marking(e), now)) == Enabled(s, MarkDispatched(Marking(e), now)) == (Marking(e) in s.tasks)
    ensures Enabled(s, MarkRetry(Retrying(e), now)) <==> Retrying(e) in s.tasks
  {
  }

  /** A new event waits from now on, with all its attempts. */
  lemma NewEventWaits(s: Sys, e: Id, tenant: Id, valid: bool, now: int)
    requires e !in s.db.events
    ensures var after := Next(s, AddEvent(e, tenant, valid, now)).db;
            && after == s.db.(events := after.events) && e in after.events && after.events - {e} == s.db.events
            && after.events[e].tenant == tenant && after.events[e].valid == valid
            && after.events[e].progress == Waiting && after.events[e].attempts == 0
            && after.events[e].availableAt == now
  {
    hide Queue, Retried;
  }

  /** Nothing is marked as sent that the provider did not accept, and no event dispatched that was not queued. */
  lemma MarksNeed(s: Sys, task: Task, now: int)
    ensures Enabled(s, MarkSent(task, now)) <==> task in s.tasks && task.Called? && task.accepted
    ensures Enabled(s, MarkFailed(task, now)) <==> task in s.tasks && (task.Claimed? || task.Called?)
    ensures Enabled(s, MarkDispatched(task, now)) <==> task in s.tasks && task.Marking?
    ensures Enabled(s, MarkRetry(task, now)) <==> task in s.tasks && task.Retrying?
    ensures Enabled(s, Break(task, now)) <==> task in s.tasks && (task.Dispatching? || task.Marking?)
  {
  }

  /** A last attempt that has been sending for five minutes can be failed; nothing else can. */
  lemma TimeOutFails(s: Sys, d: Id, now: int)
    requires d in s.db.deliveries
    ensures var row := s.db.deliveries[d];
            Next(s, TimeOut(d, now))
            == if row.status == Sending && row.attempts >= row.maxAttempts && row.updatedAt + 300_000 <= now then
                 s.(db := s.db.(deliveries := s.db.deliveries[d := row.(status := Failed, updatedAt := now)]))
               else s
  {
    hide Queue, Retried;
  }

  function Run(s: Sys, steps: seq<Step>): Sys
    decreases |steps|
  {
    if steps == [] then s else Run(Next(s, steps[0]), steps[1..])
  }

  const EMPTY := Sys(Db(map[], map[], {}), multiset{}, {})

  // ----- what holds in every state

  predicate Sender(t: Task) { t.Claimed? || t.Called? }

  ghost predicate SameKey(db: Db, a: Id, b: Id) {
    a in db.deliveries && b in db.deliveries && db.deliveries[a].key.Some?
    && db.deliveries[a].key == db.deliveries[b].key && db.deliveries[a].tenant == db.deliveries[b].tenant
  }

  ghost predicate KeysUnique(db: Db) {
    forall a: Id, b: Id :: SameKey(db, a, b) ==> a == b
  }

  ghost predicate DeliveryOk(db: Db, d: Id) {
    if d in db.deliveries then
      var row := db.deliveries[d];
      && 0 <= row.attempts <= row.maxAttempts
      && (row.status.Suppressed? ==> row.attempts == 0 && d !in db.jobs)
      && (row.key.Some? && row.key.value.OfEvent? ==>
            row.key.value.event in db.events && row.tenant == db.events[row.key.value.event].tenant)
    else d !in db.jobs
  }

  predicate IsDeliveryOf(db: Db, e: Id, d: Id) {
    d in db.deliveries && db.deliveries[d].key == Some(OfEvent(e))
  }

  ghost predicate HasDelivery(db: Db, e: Id) {
    exists d :: IsDeliveryOf(db, e, d)
  }

  ghost predicate EventOk(db: Db, e: Id) {
    e in db.events && db.events[e].progress.Dispatched? ==> HasDelivery(db, e)
  }

  ghost predicate CallOk(db: Db, c: Call) {
    c.delivery in db.deliveries && 1 <= c.number <= db.deliveries[c.delivery].attempts
  }

  ghost predicate TaskOk(s: Sys, t: Task) {
    if Sender(t) then
      CallOk(s.db, Call(t.delivery, t.number)) && (t.Claimed? ==> Call(t.delivery, t.number) !in s.calls)
        && s.tasks[t] <= 1
    else t.Marking? ==> HasDelivery(s.db, t.event)
  }

  ghost predicate SendersApart(s: Sys) {
    forall t: Task, u: Task ::
      t in s.tasks && u in s.tasks && Sender(t) && Sender(u) && t.delivery == u.delivery && t.number == u.number ==>
        t == u
  }

  ghost predicate Inv(s: Sys) {
    && KeysUnique(s.db) && SendersApart(s)
    && (forall d: Id :: DeliveryOk(s.db, d))
    && (forall e: Id :: EventOk(s.db, e))
    && (forall c: Call :: c in s.calls ==> CallOk(s.db, c))
    && (forall t: Task :: t in s.tasks ==> TaskOk(s, t))
  }

  /** Rows are only added, attempts only grow, what is suppressed stays so, and no tenant or key changes. */
  ghost predicate DeliveryGrows(db: Db, db': Db, d: Id) {
    d in db.deliveries ==>
      && d in db'.deliveries
      && var a, b := db.deliveries[d], db'.deliveries[d];
         b.tenant == a.tenant && b.key == a.key && b.maxAttempts == a.maxAttempts && a.attempts <= b.attempts
         && (a.status.Suppressed? ==> b == a)
  }

  ghost predicate EventGrows(db: Db, db': Db, e: Id) {
    e in db.events ==>
      e in db'.events && db'.events[e].tenant == db.events[e].tenant && db'.events[e].valid == db.events[e].valid
  }

  lemma TablesGrow(s: Sys, step: Step)
    requires Inv(s) && Enabled(s, step)
    ensures forall d: Id :: DeliveryGrows(s.db, Tables(s.db, step), d)
    ensures forall e: Id :: EventGrows(s.db, Tables(s.db, step), e)
  {
    hide Taken, KeysUnique, SendersApart, EventOk, Doubled;
    if !step.AddEvent? && !step.Select? && !step.QueueDirectly? && !step.Claim? && !step.TimeOut? {
      assert TaskOk(s, step.task);
      if Sender(step.task) { assert DeliveryOk(s.db, step.task.delivery); }
    }
  }

  lemma DeliveriesKeep(s: Sys, step: Step)
    requires Inv(s) && Enabled(s, step)
    ensures forall d: Id :: DeliveryOk(Tables(s.db, step), d)
  {
    TablesGrow(s, step);
    hide Taken, KeysUnique, SendersApart, EventOk, Doubled;
    if !step.AddEvent? && !step.Select? && !step.QueueDirectly? && !step.Claim? && !step.TimeOut? {
      assert TaskOk(s, step.task);
    }
    var db' := Tables(s.db, step);
    forall d: Id ensures DeliveryOk(db', d) {
      assert DeliveryOk(s.db, d) && DeliveryGrows(s.db, db', d);
      if d in s.db.deliveries && s.db.deliveries[d].key.Some? && s.db.deliveries[d].key.value.OfEvent? {
        assert EventGrows(s.db, db', s.db.deliveries[d].key.value.event);
      }
    }
  }

  /** A second delivery under a key of the tenant is never stored. */
  lemma QueueKeepsKeys(db: Db, d: Id, tenant: Id, key: Option<Key>, maxAttempts: int, suppressed: bool, now: int)
    requires KeysUnique(db) && d !in db.deliveries
    ensures KeysUnique(Queue(db, d, tenant, key, maxAttempts, suppressed, now))
  {
    var db' := Queue(db, d, tenant, key, maxAttempts, suppressed, now);
    forall a: Id, b: Id | SameKey(db', a, b) ensures a == b {
      if a != d && b != d { assert SameKey(db, a, b); }
    }
  }

  lemma SameRowsSameKeys(db: Db, db': Db)
    requires KeysUnique(db) && db'.deliveries.Keys == db.deliveries.Keys
    requires forall d: Id :: DeliveryGrows(db, db', d)
    ensures KeysUnique(db')
  {
    forall a: Id, b: Id | SameKey(db', a, b) ensures a == b {
      assert DeliveryGrows(db, db', a) && DeliveryGrows(db, db', b);
      assert SameKey(db, a, b);
    }
  }

  lemma KeysKeep(s: Sys, step: Step)
    requires Inv(s) && Enabled(s, step)
    ensures KeysUnique(Tables(s.db, step))
  {
    TablesGrow(s, step);
    hide KeysUnique, SendersApart, EventOk, DeliveryOk, TaskOk, CallOk, Doubled, Taken;
    if step.QueueFor? {
      var e := step.task.event;
      QueueKeepsKeys(
        s.db, step.delivery, s.db.events[e].tenant, Some(OfEvent(e)), DEFAULT_MAX_ATTEMPTS, step.suppressed, step.now);
    } else if step.QueueDirectly? {
      var key := if step.key.Some? then Some(Own(step.key.value)) else None;
      QueueKeepsKeys(s.db, step.delivery, step.tenant, key, step.maxAttempts, step.suppressed, step.now);
    } else {
      assert Tables(s.db, step).deliveries.Keys == s.db.deliveries.Keys;
      SameRowsSameKeys(s.db, Tables(s.db, step));
    }
  }

  lemma HasDeliveryStays(db: Db, db': Db, e: Id)
    requires HasDelivery(db, e) && forall d: Id :: DeliveryGrows(db, db', d)
    ensures HasDelivery(db', e)
  {
    var d :| IsDeliveryOf(db, e, d);
    assert DeliveryGrows(db, db', d);
    assert IsDeliveryOf(db', e, d);
  }

  /** The transaction leaves a delivery for its event, its own or the one that was there. */
  lemma QueuedHasDelivery(db: Db, e: Id, d: Id, tenant: Id, suppressed: bool, now: int)
    ensures HasDelivery(Queue(db, d, tenant, Some(OfEvent(e)), DEFAULT_MAX_ATTEMPTS, suppressed, now), e)
  {
    var db' := Queue(db, d, tenant, Some(OfEvent(e)), DEFAULT_MAX_ATTEMPTS, suppressed, now);
    if Taken(db, tenant, OfEvent(e)) {
      var o :| o in db.deliveries && db.deliveries[o].tenant == tenant && db.deliveries[o].key == Some(OfEvent(e));
      assert IsDeliveryOf(db', e, o);
    } else {
      assert IsDeliveryOf(db', e, d);
    }
  }

  lemma EventsKeep(s: Sys, step: Step)
    requires Inv(s) && Enabled(s, step)
    ensures forall e: Id :: EventOk(Tables(s.db, step), e)
  {
    TablesGrow(s, step);
    hide KeysUnique, SendersApart, DeliveryOk, CallOk, Doubled, Taken, Queue, HasDelivery;
    var db' := Tables(s.db, step);
    forall e: Id ensures EventOk(db', e) {
      assert EventOk(s.db, e);
      if step.MarkDispatched? { assert TaskOk(s, step.task); }
      if HasDelivery(s.db, e) { HasDeliveryStays(s.db, db', e); }
      QueueLeavesEvents(s.db, step);
    }
  }

  lemma QueueLeavesEvents(db: Db, step: Step)
    ensures step.QueueFor? || step.QueueDirectly? ==> Tables(db, step).events == db.events
  {
    hide Taken;
  }

  lemma CallsKeep(s: Sys, step: Step)
    requires Inv(s) && Enabled(s, step)
    ensures forall c: Call :: c in Next(s, step).calls ==> CallOk(Next(s, step).db, c)
  {
    TablesGrow(s, step);
    hide KeysUnique, SendersApart, DeliveryOk, EventOk, Tables, Started, Ended;
    forall c: Call | c in Next(s, step).calls ensures CallOk(Next(s, step).db, c) {
      assert DeliveryGrows(s.db, Tables(s.db, step), c.delivery);
      if c !in s.calls { assert TaskOk(s, step.task); }
    }
  }

  /** A sender's claim takes an attempt number that no other sender and no call has had. */
  lemma NewSenderIsNew(s: Sys, step: Step, t: Task)
    requires Inv(s) && Enabled(s, step) && t in Started(s.db, step) && Sender(t)
    ensures step.Claim? ==> t == Claimed(step.delivery, s.db.deliveries[step.delivery].attempts + 1, step.now)
                            && Call(t.delivery, t.number) !in s.calls
                            && forall u :: u in s.tasks && Sender(u) && u.delivery == t.delivery ==>
                              u.number != t.number
    ensures !step.Claim? ==> step.CallProvider? && step.task in s.tasks && t.Called?
                             && t.delivery == step.task.delivery && t.number == step.task.number
  {
    hide KeysUnique, SendersApart, DeliveryOk, EventOk, HasDelivery;
    if step.Claim? {
      forall u | u in s.tasks && Sender(u) && u.delivery == t.delivery ensures u.number != t.number {
        assert TaskOk(s, u);
      }
    }
  }

  lemma SendersKeep(s: Sys, step: Step)
    requires Inv(s) && Enabled(s, step)
    ensures SendersApart(Next(s, step))
  {
    hide KeysUnique, DeliveryOk, EventOk, HasDelivery, Tables, Claimable, TimedOut;
    var s' := Next(s, step);
    forall t: Task, u: Task | t in s'.tasks && u in s'.tasks && Sender(t) && Sender(u)
        && t.delivery == u.delivery && t.number == u.number
      ensures t == u
    {
      if t !in s.tasks { NewSenderIsNew(s, step, t); }
      if u !in s.tasks { NewSenderIsNew(s, step, u); }
      if step.CallProvider? {
        assert TaskOk(s, step.task);
        assert step.task !in s'.tasks;
      }
    }
  }

  lemma TaskKeeps(s: Sys, step: Step, t: Task)
    requires Inv(s) && Enabled(s, step) && t in Next(s, step).tasks
    ensures TaskOk(Next(s, step), t)
  {
    TablesGrow(s, step);
    var s' := Next(s, step);
    hide KeysUnique, DeliveryOk, EventOk, Claimable, TimedOut, Taken, Doubled;
    if Sender(t) {
      if t in Started(s.db, step) { NewSenderOk(s, step, t); } else { OldSenderOk(s, step, t); }
    } else if t.Marking? {
      hide HasDelivery, Queue, SendersApart;
      if t in s.tasks {
        assert TaskOk(s, t);
        HasDeliveryStays(s.db, s'.db, t.event);
      } else {
        QueuedHasDelivery(s.db, t.event, step.delivery, s.db.events[t.event].tenant, step.suppressed, step.now);
      }
    }
  }

  lemma NewSenderOk(s: Sys, step: Step, t: Task)
    requires Inv(s) && Enabled(s, step) && t in Started(s.db, step) && Sender(t)
    ensures TaskOk(Next(s, step), t)
  {
    TablesGrow(s, step);
    NewSenderIsNew(s, step, t);
    assert DeliveryOk(s.db, t.delivery) && DeliveryGrows(s.db, Tables(s.db, step), t.delivery);
    if step.CallProvider? { assert TaskOk(s, step.task) && t !in s.tasks; }
    hide KeysUnique, EventOk, Taken, Doubled, Queue, HasDelivery, DeliveryOk, SendersApart;
  }

  lemma OldSenderOk(s: Sys, step: Step, t: Task)
    requires Inv(s) && Enabled(s, step) && t in Next(s, step).tasks && t !in Started(s.db, step) && Sender(t)
    ensures TaskOk(Next(s, step), t)
  {
    TablesGrow(s, step);
    hide KeysUnique, EventOk, Taken, Doubled, Queue, HasDelivery, DeliveryOk, Tables, Started, Claimable, TimedOut;
    assert t in s.tasks && TaskOk(s, t);
    assert DeliveryGrows(s.db, Next(s, step).db, t.delivery);
    if step.CallProvider? { assert t != step.task; }
  }

  lemma StepKeeps(s: Sys, step: Step)
    requires Inv(s)
    ensures Inv(Next(s, step))
  {
    hide KeysUnique, SendersApart, DeliveryOk, EventOk, CallOk, TaskOk, Tables, Started, Ended;
    if Enabled(s, step) {
      DeliveriesKeep(s, step);
      KeysKeep(s, step);
      EventsKeep(s, step);
      CallsKeep(s, step);
      SendersKeep(s, step);
      forall t: Task | t in Next(s, step).tasks ensures TaskOk(Next(s, step), t) { TaskKeeps(s, step, t); }
    }
  }

  lemma {:induction false} EveryRunKeeps(s: Sys, steps: seq<Step>)
    requires Inv(s)
    ensures Inv(Run(s, steps))
    decreases |steps|
  {
    if steps != [] {
      StepKeeps(s, steps[0]);
      EveryRunKeeps(Next(s, steps[0]), steps[1..]);
    }
  }

  lemma EmptyHolds()
    ensures Inv(EMPTY)
  {
  }

  // ----- the outbox

  /** Whatever dispatchers do, an event gets at most one delivery and one send job, and one delivery once dispatched. */
  lemma OneDeliveryPerEvent(steps: seq<Step>, e: Id, a: Id, b: Id)
    ensures var db := Run(EMPTY, steps).db;
            (IsDeliveryOf(db, e, a) && IsDeliveryOf(db, e, b) ==> a == b)
            && (forall d :: d in db.jobs ==> d in db.deliveries && !db.deliveries[d].status.Suppressed?)
            && (e in db.events && db.events[e].progress.Dispatched? ==> HasDelivery(db, e))
  {
    EmptyHolds();
    EveryRunKeeps(EMPTY, steps);
    var db := Run(EMPTY, steps).db;
    assert EventOk(db, e);
    assert DeliveryOk(db, a) && DeliveryOk(db, b);
    if IsDeliveryOf(db, e, a) && IsDeliveryOf(db, e, b) { assert SameKey(db, a, b); }
    forall d | d in db.jobs ensures d in db.deliveries && !db.deliveries[d].status.Suppressed? {
      assert DeliveryOk(db, d);
    }
  }

  // ----- the provider

  function CallsTo(calls: set<Call>, d: Id): set<Call> { set c | c in calls && c.delivery == d }

  /** How often a run calls the provider for a delivery. */
  function CallSteps(s: Sys, steps: seq<Step>, d: Id): nat
    decreases |steps|
  {
    if steps == [] then 0
    else
      (if Enabled(s, steps[0]) && steps[0].CallProvider? && steps[0].task.delivery == d then 1 else 0)
      + CallSteps(Next(s, steps[0]), steps[1..], d)
  }

  /** Every call is recorded as a call of its own. */
  lemma {:induction false} CallsAreApart(s: Sys, steps: seq<Step>, d: Id)
    requires Inv(s)
    ensures |CallsTo(Run(s, steps).calls, d)| == |CallsTo(s.calls, d)| + CallSteps(s, steps, d)
    decreases |steps|
  {
    if steps != [] {
      StepKeeps(s, steps[0]);
      CallsAreApart(Next(s, steps[0]), steps[1..], d);
      OneMoreCall(s, steps[0], d);
    }
  }

  lemma OneMoreCall(s: Sys, step: Step, d: Id)
    requires Inv(s)
    ensures |CallsTo(Next(s, step).calls, d)|
            == |CallsTo(s.calls, d)|
               + if Enabled(s, step) && step.CallProvider? && step.task.delivery == d then 1 else 0
  {
    hide KeysUnique, SendersApart, DeliveryOk, EventOk, Tables, Started, Ended;
    var before, after := CallsTo(s.calls, d), CallsTo(Next(s, step).calls, d);
    if Enabled(s, step) && step.CallProvider? && step.task.delivery == d {
      assert TaskOk(s, step.task);
      var call := Call(d, step.task.number);
      assert call !in before && after == before + {call};
    } else {
      assert after == before;
    }
  }

  lemma {:induction false} FewNumbers(calls: set<Call>, d: Id, most: nat)
    requires forall c :: c in calls ==> c.delivery == d && 1 <= c.number <= most
    ensures |calls| <= most
    decreases most
  {
    if most == 0 {
      assert calls == {};
    } else {
      var rest := calls - {Call(d, most)};
      FewNumbers(rest, d, most - 1);
      assert calls <= rest + {Call(d, most)};
    }
  }

  /** However long senders overrun their claims, the provider is called at most `maxAttempts` times for a delivery. */
  lemma CallsAreBounded(steps: seq<Step>, d: Id)
    ensures var s := Run(EMPTY, steps);
            if d in s.db.deliveries then
              CallSteps(EMPTY, steps, d) <= s.db.deliveries[d].attempts <= s.db.deliveries[d].maxAttempts
            else CallSteps(EMPTY, steps, d) == 0
  {
    hide KeysUnique, SendersApart, EventOk, TaskOk;
    EmptyHolds();
    EveryRunKeeps(EMPTY, steps);
    CallsAreApart(EMPTY, steps, d);
    assert CallsTo(EMPTY.calls, d) == {};
    var s := Run(EMPTY, steps);
    var calls := CallsTo(s.calls, d);
    assert DeliveryOk(s.db, d);
    forall c | c in calls ensures CallOk(s.db, c) {}
    if d in s.db.deliveries {
      FewNumbers(calls, d, s.db.deliveries[d].attempts);
    } else {
      FewNumbers(calls, d, 0);
    }
  }

  /** A suppressed delivery stays as it was stored and is never handed to the provider. */
  lemma {:induction false} SuppressedIsNeverSent(s: Sys, steps: seq<Step>, d: Id)
    requires Inv(s) && d in s.db.deliveries && s.db.deliveries[d].status.Suppressed?
    ensures d in Run(s, steps).db.deliveries && Run(s, steps).db.deliveries[d] == s.db.deliveries[d]
    ensures CallSteps(s, steps, d) == 0 && CallsTo(Run(s, steps).calls, d) == {}
    decreases |steps|
  {
    hide KeysUnique, SendersApart, EventOk, Tables, Started, Ended, CallsTo;
    assert DeliveryOk(s.db, d);
    NoCallsTo(s, d);
    if steps != [] {
      StepKeeps(s, steps[0]);
      if Enabled(s, steps[0]) {
        TablesGrow(s, steps[0]);
        assert DeliveryGrows(s.db, Tables(s.db, steps[0]), d);
        if steps[0].CallProvider? { assert TaskOk(s, steps[0].task); }
      }
      SuppressedIsNeverSent(Next(s, steps[0]), steps[1..], d);
    }
  }

  lemma NoCallsTo(s: Sys, d: Id)
    requires Inv(s) && d in s.db.deliveries && s.db.deliveries[d].attempts == 0
    ensures CallsTo(s.calls, d) == {}
  {
    assert forall c :: c in s.calls ==> CallOk(s.db, c);
  }

  // ----- attempts that end within their claim

  /** A sender's claim is the delivery's last one and the delivery is still being sent. */
  ghost predicate Holds(s: Sys, t: Task) {
    t in s.tasks && Sender(t) ==>
      t.delivery in s.db.deliveries
      && var row := s.db.deliveries[t.delivery];
         row.status.Sending? && row.updatedAt == t.at && row.attempts == t.number
  }

  ghost predicate Held(s: Sys) {
    Inv(s) && forall t: Task :: Holds(s, t)
  }

  /** No sender is still at work when its claim times out. */
  ghost predicate Prompt(s: Sys, step: Step) {
    forall t :: t in s.tasks && Sender(t) ==> step.now < t.at + CLAIM_TIMEOUT
  }

  ghost predicate PromptRun(s: Sys, steps: seq<Step>)
    decreases |steps|
  {
    steps != [] ==> Prompt(s, steps[0]) && PromptRun(Next(s, steps[0]), steps[1..])
  }

  /** What a step does to the row of a delivery that it does not create. */
  function RowAfter(row: Delivery, step: Step, d: Id): Delivery {
    match step
    case Claim(x, now) => if x == d then ClaimedRow(row, now) else row
    case MarkSent(Called(x, _, _, _), now) => if x == d then row.(status := Sent, updatedAt := now) else row
    case MarkFailed(Claimed(x, _, _), now) => if x == d then row.(status := Failed, updatedAt := now) else row
    case MarkFailed(Called(x, _, _, _), now) => if x == d then row.(status := Failed, updatedAt := now) else row
    case TimeOut(x, now) => if x == d then row.(status := Failed, updatedAt := now) else row
    case _ => row
  }

  lemma RowIs(s: Sys, step: Step, d: Id)
    requires d in s.db.deliveries && Enabled(s, step)
    ensures d in Tables(s.db, step).deliveries
            && Tables(s.db, step).deliveries[d] == RowAfter(s.db.deliveries[d], step, d)
  {
    hide Taken, Doubled;
  }

  lemma OneSenderAtATime(s: Sys, t: Task, u: Task)
    requires Held(s) && t in s.tasks && u in s.tasks && Sender(t) && Sender(u) && t.delivery == u.delivery
    ensures t == u && s.tasks[t] == 1
  {
    assert Holds(s, t) && Holds(s, u) && TaskOk(s, t);
  }

  lemma HolderKeeps(s: Sys, step: Step, t: Task)
    requires Held(s) && Prompt(s, step) && Enabled(s, step)
    ensures Holds(Next(s, step), t)
  {
    hide KeysUnique, EventOk, SendersApart, HasDelivery, DeliveryOk, Tables, CallOk;
    var s' := Next(s, step);
    if t in s'.tasks && Sender(t) {
      if t in Started(s.db, step) {
        NewSenderIsNew(s, step, t);
        if step.CallProvider? { assert Holds(s, step.task); }
        RowIs(s, step, t.delivery);
      } else {
        OldHolderKeeps(s, step, t);
      }
    }
  }

  lemma OldHolderKeeps(s: Sys, step: Step, t: Task)
    requires Held(s) && Prompt(s, step) && Enabled(s, step) && t in Next(s, step).tasks && t !in Started(s.db, step)
             && Sender(t)
    ensures Holds(Next(s, step), t)
  {
    assert t in s.tasks && Holds(s, t);
    if (step.MarkSent? || step.MarkFailed?) && step.task.delivery == t.delivery {
      OneSenderAtATime(s, t, step.task);
    }
    hide Inv, Tables, Started;
    RowIs(s, step, t.delivery);
  }

  lemma HeldKeeps(s: Sys, step: Step)
    requires Held(s) && Prompt(s, step)
    ensures Held(Next(s, step))
  {
    hide Holds, Prompt, Inv, Tables, Started, Ended;
    StepKeeps(s, step);
    if Enabled(s, step) {
      forall t: Task ensures Holds(Next(s, step), t) { HolderKeeps(s, step, t); }
    }
  }

  /** Then nobody but one sender works on a delivery, and what is sent stays sent. */
  lemma {:induction false} SentIsTerminal(s: Sys, steps: seq<Step>, d: Id)
    requires Held(s) && PromptRun(s, steps) && d in s.db.deliveries && s.db.deliveries[d].status.Sent?
    ensures Held(Run(s, steps))
    ensures d in Run(s, steps).db.deliveries && Run(s, steps).db.deliveries[d] == s.db.deliveries[d]
    ensures CallSteps(s, steps, d) == 0
    decreases |steps|
  {
    hide Inv, Prompt, KeysUnique, Taken, Doubled;
    if steps != [] {
      HeldKeeps(s, steps[0]);
      SentStays(s, steps[0], d);
      SentIsTerminal(Next(s, steps[0]), steps[1..], d);
    }
  }

  lemma SentStays(s: Sys, step: Step, d: Id)
    requires Held(s) && d in s.db.deliveries && s.db.deliveries[d].status.Sent?
    ensures d in Next(s, step).db.deliveries && Next(s, step).db.deliveries[d] == s.db.deliveries[d]
    ensures Enabled(s, step) && step.CallProvider? ==> step.task.delivery != d
  {
    hide Inv, Tables, Started, Ended;
    if Enabled(s, step) {
      RowIs(s, step, d);
      if step.MarkSent? || step.MarkFailed? || step.CallProvider? { assert Holds(s, step.task); }
    }
  }

  /** Without that, a sent delivery stays sent exactly until a sender that overran its claim writes down a failure. */
  lemma SentUnlessLateFailure(s: Sys, step: Step, d: Id)
    requires Inv(s) && d in s.db.deliveries && s.db.deliveries[d].status.Sent?
    ensures var s' := Next(s, step);
            d in s'.db.deliveries
            && (!s'.db.deliveries[d].status.Sent? <==> Enabled(s, step) && step.MarkFailed? && step.task.delivery == d)
  {
    hide KeysUnique, SendersApart, EventOk, TaskOk, CallOk, Tables, Started, Ended;
    if Enabled(s, step) { RowIs(s, step, d); }
  }

  // ----- an overrunning sender

  const FIRST := Claimed(1, 1, 0)
  const SECOND := Claimed(1, 2, CLAIM_TIMEOUT)
  const SENT_FIRST := Called(1, 1, 0, true)

  /** Two claims a timeout apart; the first is sent, then the second fails. */
  const OVERRUN: seq<Step> :=
    [QueueDirectly(1, 1, None, 3, false, 0), Claim(1, 0), Claim(1, CLAIM_TIMEOUT),
     CallProvider(FIRST, true, CLAIM_TIMEOUT), MarkSent(SENT_FIRST, CLAIM_TIMEOUT), MarkFailed(SECOND, CLAIM_TIMEOUT)]

  function OnlyDelivery(status: Status, attempts: int, updatedAt: int, tasks: multiset<Task>, calls: set<Call>): Sys {
    Sys(Db(map[], map[1 := Delivery(1, None, status, attempts, 3, updatedAt)], {1}), tasks, calls)
  }

  lemma OverrunQueues()
    ensures Next(EMPTY, OVERRUN[0]) == OnlyDelivery(Queued, 0, 0, multiset{}, {})
  {
  }

  lemma OverrunClaims()
    ensures Next(OnlyDelivery(Queued, 0, 0, multiset{}, {}), OVERRUN[1])
            == OnlyDelivery(Sending, 1, 0, multiset{FIRST}, {})
  {
  }

  lemma OverrunClaimsAgain()
    ensures Next(OnlyDelivery(Sending, 1, 0, multiset{FIRST}, {}), OVERRUN[2])
            == OnlyDelivery(Sending, 2, CLAIM_TIMEOUT, multiset{FIRST, SECOND}, {})
  {
  }

  lemma OverrunCalls()
    ensures Next(OnlyDelivery(Sending, 2, CLAIM_TIMEOUT, multiset{FIRST, SECOND}, {}), OVERRUN[3])
            == OnlyDelivery(Sending, 2, CLAIM_TIMEOUT, multiset{SENT_FIRST, SECOND}, {Call(1, 1)})
  {
    hide Queue, Claimable, TimedOut, SetStatus, SetEvent, Retried, ClaimedRow;
  }

  lemma OverrunMarks()
    ensures Next(OnlyDelivery(Sending, 2, CLAIM_TIMEOUT, multiset{SENT_FIRST, SECOND}, {Call(1, 1)}), OVERRUN[4])
            == OnlyDelivery(Sent, 2, CLAIM_TIMEOUT, multiset{SECOND}, {Call(1, 1)})
  {
  }

  lemma OverrunFails()
    ensures Next(OnlyDelivery(Sent, 2, CLAIM_TIMEOUT, multiset{SECOND}, {Call(1, 1)}), OVERRUN[5])
            == OnlyDelivery(Failed, 2, CLAIM_TIMEOUT, multiset{}, {Call(1, 1)})
  {
  }

  /** A delivery the provider has accepted, and that was marked so, can be claimed and handed to it again. */
  lemma LateFailureReopensSent()
    ensures Run(EMPTY, OVERRUN[..5]).db.deliveries == map[1 := Delivery(1, None, Sent, 2, 3, CLAIM_TIMEOUT)]
    ensures Run(EMPTY, OVERRUN).db.deliveries == map[1 := Delivery(1, None, Failed, 2, 3, CLAIM_TIMEOUT)]
    ensures Claimable(Delivery(1, None, Failed, 2, 3, CLAIM_TIMEOUT), CLAIM_TIMEOUT)
  {
    OverrunQueues();
    OverrunClaims();
    OverrunClaimsAgain();
    OverrunCalls();
    OverrunMarks();
    OverrunFails();
    var s5 := OnlyDelivery(Sent, 2, CLAIM_TIMEOUT, multiset{SECOND}, {Call(1, 1)});
    hide Next;
    RunOfFive(OVERRUN[0], OVERRUN[1], OVERRUN[2], OVERRUN[3], OVERRUN[4], OVERRUN[5]);
    assert OVERRUN[..5] == [OVERRUN[0], OVERRUN[1], OVERRUN[2], OVERRUN[3], OVERRUN[4]];
  }

  lemma RunOfFive(a: Step, b: Step, c: Step, d: Step, e: Step, f: Step)
    ensures Run(EMPTY, [a, b, c, d, e]) == Next(Next(Next(Next(Next(EMPTY, a), b), c), d), e)
    ensures Run(EMPTY, [a, b, c, d, e, f]) == Next(Next(Next(Next(Next(Next(EMPTY, a), b), c), d), e), f)
  {
    hide Next;
    RunAppends(EMPTY, [a, b, c, d, e], f);
    RunAppends(EMPTY, [a, b, c, d], e);
    RunAppends(EMPTY, [a, b, c], d);
    RunAppends(EMPTY, [a, b], c);
    RunAppends(EMPTY, [a], b);
    RunAppends(EMPTY, [], a);
    assert [a, b, c, d, e] + [f] == [a, b, c, d, e, f] && [a, b, c, d] + [e] == [a, b, c, d, e];
    assert [a, b, c] + [d] == [a, b, c, d] && [a, b] + [c] == [a, b, c] && [a] + [b] == [a, b] && [] + [a] == [a];
  }

  lemma {:induction false} RunAppends(s: Sys, steps: seq<Step>, step: Step)
    ensures Run(s, steps + [step]) == Next(Run(s, steps), step)
    decreases |steps|
  {
    hide Next;
    if steps == [] {
      assert ([] + [step])[1..] == [];
    } else {
      assert (steps + [step])[1..] == steps[1..] + [step];
      RunAppends(Next(s, steps[0]), steps[1..], step);
    }
  }
}
