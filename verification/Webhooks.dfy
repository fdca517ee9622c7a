/**
 Webhook deliveries: any number of concurrent, duplicated, failing and retried deliveries of provider events.

 What an event does to the billing tables is a parameter, `effect`; `None` is an event whose processing throws.  The
 claim, the transaction and the failure mark are one statement or transaction each, and so one step each.
 */
module Webhooks {
  import opened Basics
  import opened Entitlements
  import EntitlementRuns

  datatype Key = Key(provider: Id, event: Id)
  datatype Delivery<P> = Delivery(key: Key, payload: P)
  datatype Status = Processing | Processed | Failed

  /** A handler in flight: before its transaction, or after one that threw. */
  datatype Task<P> = Handling(delivery: Delivery<P>) | Failing(delivery: Delivery<P>)

  /** `log` records the committed deliveries in the order of their commits. */
  datatype Sys<B, P(==)> = Sys(rows: map<Key, Status>, tasks: multiset<Task<P>>, billing: B, log: seq<Delivery<P>>)

  datatype Step<P> =
    | Receive(delivery: Delivery<P>)
    | Transact(task: Task<P>)
    | Break(task: Task<P>)
    | MarkFailed(task: Task<P>)
    | Crash(task: Task<P>)

  type Effect<!B, !P> = (B, Delivery<P>) -> Option<B>

  // ----- steps

  /** The claiming insert: it takes a new key, or one whose last attempt has failed. */
  predicate Claims(rows: map<Key, Status>, key: Key) {
    key !in rows || rows[key].Failed?
  }

  predicate Enabled<B, P(==)>(s: Sys<B, P>, step: Step<P>) {
    match step
    case Receive(_) => true
    case Transact(task) => task in s.tasks && task.Handling?
    case Break(task) => task in s.tasks && task.Handling?
    case MarkFailed(task) => task in s.tasks && task.Failing?
    case Crash(task) => task in s.tasks
  }

  function Next<B, P(==)>(effect: Effect<B, P>, s: Sys<B, P>, step: Step<P>): Sys<B, P> {
    if !Enabled(s, step) then s
    else match step
      case Receive(d) =>
        if Claims(s.rows, d.key)
        then s.(rows := s.rows[d.key := Processing], tasks := s.tasks + multiset{Handling(d)})
        else s
      case Transact(task) =>
        var d, rest := task.delivery, s.tasks - multiset{task};
        var after := effect(s.billing, d);
        if after.None? then s.(tasks := rest + multiset{Failing(d)})
        else Sys(if d.key in s.rows then s.rows[d.key := Processed] else s.rows, rest, after.value, s.log + [d])
      case Break(task) => s.(tasks := s.tasks - multiset{task} + multiset{Failing(task.delivery)})
      case MarkFailed(task) =>
        var key := task.delivery.key;
        s.(rows := if key in s.rows then s.rows[key := Failed] else s.rows, tasks := s.tasks - multiset{task})
      case Crash(task) => s.(tasks := s.tasks - multiset{task})
  }

  function Run<B, P(==)>(effect: Effect<B, P>, s: Sys<B, P>, steps: seq<Step<P>>): Sys<B, P>
    decreases |steps|
  {
    if steps == [] then s else Run(effect, Next(effect, s, steps[0]), steps[1..])
  }

  function Start<B, P(==)>(billing: B): Sys<B, P> { Sys(map[], multiset{}, billing, []) }

  /** The deliveries applied one after the other to a billing state, if none of them throws. */
  function Fold<B, P>(effect: Effect<B, P>, billing: B, log: seq<Delivery<P>>): Option<B>
    decreases |log|
  {
    if log == [] then Some(billing)
    else
      var before := Fold(effect, billing, log[..|log| - 1]);
      if before.None? then None else effect(before.value, log[|log| - 1])
  }

  // ----- what holds in every state

  ghost predicate Logged<P>(log: seq<Delivery<P>>, key: Key) {
    exists i :: 0 <= i < |log| && log[i].key == key
  }

  ghost predicate LoggedOnce<P>(log: seq<Delivery<P>>) {
    forall i, j :: 0 <= i < j < |log| ==> log[i].key != log[j].key
  }

  /** An event is processed exactly when it is in the log, and worked on only while it is processing. */
  ghost predicate KeyOk<B, P(!new)>(s: Sys<B, P>, key: Key) {
    && (key in s.rows && s.rows[key].Processed? <==> Logged(s.log, key))
    && forall t :: t in s.tasks && t.delivery.key == key ==> key in s.rows && s.rows[key].Processing? && s.tasks[t] == 1
  }

  ghost predicate OneTaskPerKey<B, P(!new)>(s: Sys<B, P>) {
    forall t, u :: t in s.tasks && u in s.tasks && t.delivery.key == u.delivery.key ==> t == u
  }

  ghost predicate Inv<B, P(!new)>(effect: Effect<B, P>, start: B, s: Sys<B, P>) {
    && Fold(effect, start, s.log) == Some(s.billing)
    && LoggedOnce(s.log) && OneTaskPerKey(s)
    && forall key: Key :: KeyOk(s, key)
  }

  lemma LoggedNext<P>(log: seq<Delivery<P>>, d: Delivery<P>, key: Key)
    ensures Logged(log + [d], key) <==> Logged(log, key) || key == d.key
  {
    if i :| 0 <= i < |log| && log[i].key == key { assert (log + [d])[i].key == key; }
    if key == d.key { assert (log + [d])[|log|].key == key; }
    if i :| 0 <= i < |log + [d]| && (log + [d])[i].key == key {
      if i < |log| { assert log[i].key == key; }
    }
  }

  lemma FoldKeeps<B, P(!new)>(effect: Effect<B, P>, start: B, s: Sys<B, P>, step: Step<P>)
    requires Inv(effect, start, s)
    ensures var s' := Next(effect, s, step); Fold(effect, start, s'.log) == Some(s'.billing) && LoggedOnce(s'.log)
  {
    hide Logged, OneTaskPerKey;
    var s' := Next(effect, s, step);
    if s'.log != s.log {
      var d := step.task.delivery;
      assert s'.log == s.log + [d] && s'.log[..|s.log|] == s.log;
      assert KeyOk(s, d.key);
      NewKeyLogsOnce(s.log, d);
    }
  }

  lemma TasksKeep<B, P(!new)>(effect: Effect<B, P>, start: B, s: Sys<B, P>, step: Step<P>)
    requires Inv(effect, start, s)
    ensures OneTaskPerKey(Next(effect, s, step))
  {
    hide Logged, Fold, LoggedOnce;
    var s' := Next(effect, s, step);
    forall t, u | t in s'.tasks && u in s'.tasks && t.delivery.key == u.delivery.key ensures t == u {
      assert KeyOk(s, t.delivery.key);
    }
  }

  function StepKey<P>(step: Step<P>): Key {
    if step.Receive? then step.delivery.key else step.task.delivery.key
  }

  /** A step of one event leaves the rows, tasks and log entries of all others alone. */
  lemma OtherKeyIsLeft<B, P(!new)>(effect: Effect<B, P>, s: Sys<B, P>, step: Step<P>, key: Key)
    requires key != StepKey(step)
    ensures var s' := Next(effect, s, step);
            (key in s'.rows <==> key in s.rows) && (key in s.rows ==> s'.rows[key] == s.rows[key])
            && (forall t: Task<P> :: t.delivery.key == key ==> s'.tasks[t] == s.tasks[t])
            && (Logged(s'.log, key) <==> Logged(s.log, key))
  {
    hide Logged;
    if Next(effect, s, step).log != s.log { LoggedNext(s.log, step.task.delivery, key); }
  }

  lemma OtherKeyKeeps<B, P(!new)>(effect: Effect<B, P>, s: Sys<B, P>, step: Step<P>, key: Key)
    requires KeyOk(s, key) && key != StepKey(step)
    ensures KeyOk(Next(effect, s, step), key)
  {
    hide Logged, Next;
    OtherKeyIsLeft(effect, s, step, key);
    forall t | t in Next(effect, s, step).tasks && t.delivery.key == key ensures t in s.tasks && s.tasks[t] == 1 {}
  }

  lemma OwnKeyKeeps<B, P(!new)>(effect: Effect<B, P>, s: Sys<B, P>, step: Step<P>)
    requires KeyOk(s, StepKey(step)) && OneTaskPerKey(s)
    ensures KeyOk(Next(effect, s, step), StepKey(step))
  {
    hide Logged;
    var s' := Next(effect, s, step);
    if step.Receive? {
      assert Claims(s.rows, StepKey(step)) ==> forall t :: t in s.tasks ==> t.delivery.key != StepKey(step);
    } else if Enabled(s, step) {
      assert forall t :: t in s.tasks && t.delivery.key == StepKey(step) ==> t == step.task;
      if s'.log != s.log { LoggedNext(s.log, step.task.delivery, StepKey(step)); }
    }
  }

  lemma StepKeeps<B, P(!new)>(effect: Effect<B, P>, start: B, s: Sys<B, P>, step: Step<P>)
    requires Inv(effect, start, s)
    ensures Inv(effect, start, Next(effect, s, step))
  {
    hide KeyOk, Fold, LoggedOnce, OneTaskPerKey, Next;
    FoldKeeps(effect, start, s, step);
    TasksKeep(effect, start, s, step);
    forall key: Key ensures KeyOk(Next(effect, s, step), key) {
      assert KeyOk(s, key);
      if key == StepKey(step) { OwnKeyKeeps(effect, s, step); } else { OtherKeyKeeps(effect, s, step, key); }
    }
  }

  lemma NewKeyLogsOnce<P>(log: seq<Delivery<P>>, d: Delivery<P>)
    requires LoggedOnce(log) && !Logged(log, d.key)
    ensures LoggedOnce(log + [d])
  {
  }

  lemma {:induction false} EveryRunKeeps<B, P(!new)>(effect: Effect<B, P>, start: B, s: Sys<B, P>, steps: seq<Step<P>>)
    requires Inv(effect, start, s)
    ensures Inv(effect, start, Run(effect, s, steps))
    decreases |steps|
  {
    if steps != [] {
      StepKeeps(effect, start, s, steps[0]);
      EveryRunKeeps(effect, start, Next(effect, s, steps[0]), steps[1..]);
    }
  }

  /**
   After every run the billing state is the fold, in commit order, of the effects of exactly the processed events, each
   once: attempts that failed, broke off or were duplicates have left no effect.
   */
  lemma StateIsTheFoldOfProcessed<B, P(!new)>(effect: Effect<B, P>, start: B, steps: seq<Step<P>>)
    ensures var s := Run(effect, Start(start), steps);
            Fold(effect, start, s.log) == Some(s.billing) && LoggedOnce(s.log)
            && forall key: Key :: (key in s.rows && s.rows[key].Processed?) <==> Logged(s.log, key)
  {
    EveryRunKeeps(effect, start, Start(start), steps);
    var s := Run(effect, Start(start), steps);
    forall key: Key ensures (key in s.rows && s.rows[key].Processed?) <==> Logged(s.log, key) {
      assert KeyOk(s, key);
    }
  }

  /** Commits are only ever appended, so what is processed stays processed and is not applied again. */
  lemma {:induction false} LogGrows<B, P(!new)>(effect: Effect<B, P>, s: Sys<B, P>, steps: seq<Step<P>>)
    ensures s.log <= Run(effect, s, steps).log
    decreases |steps|
  {
    if steps != [] { LogGrows(effect, Next(effect, s, steps[0]), steps[1..]); }
  }

  ghost predicate Unattended<B, P(!new)>(s: Sys<B, P>, key: Key) {
    key in s.rows && s.rows[key].Processing? && forall t :: t in s.tasks ==> t.delivery.key != key
  }

  lemma UnattendedStays<B, P(!new)>(effect: Effect<B, P>, s: Sys<B, P>, step: Step<P>, key: Key)
    requires Unattended(s, key)
    ensures Unattended(Next(effect, s, step), key)
  {
    var s' := Next(effect, s, step);
    assert forall t :: t in s'.tasks ==> t in s.tasks || t.delivery.key != key;
  }

  /**
   An event whose handler was lost while processing is never taken up again: every further delivery is a duplicate.
   */
  lemma {:induction false} LostEventStaysUnprocessed<B, P(!new)>(
      effect: Effect<B, P>, start: B, s: Sys<B, P>, steps: seq<Step<P>>, key: Key)
    requires Inv(effect, start, s) && Unattended(s, key)
    ensures Unattended(Run(effect, s, steps), key) && !Logged(Run(effect, s, steps).log, key)
    decreases |steps|
  {
    hide Next, Fold, LoggedOnce, OneTaskPerKey;
    assert KeyOk(s, key);
    if steps != [] {
      UnattendedStays(effect, s, steps[0], key);
      StepKeeps(effect, start, s, steps[0]);
      LostEventStaysUnprocessed(effect, start, Next(effect, s, steps[0]), steps[1..], key);
    }
  }

  /** A new delivery of an event is taken up exactly when no attempt succeeded, is under way or was lost. */
  lemma RetryIsTakenUpExactlyWhen<B, P(!new)>(effect: Effect<B, P>, start: B, s: Sys<B, P>, d: Delivery<P>)
    requires Inv(effect, start, s)
    ensures Next(effect, s, Receive(d)) != s <==>
            !Logged(s.log, d.key) && !Unattended(s, d.key) && forall t :: t in s.tasks ==> t.delivery.key != d.key
  {
    assert KeyOk(s, d.key);
    if Claims(s.rows, d.key) {
      assert Next(effect, s, Receive(d)).tasks[Handling(d)] == s.tasks[Handling(d)] + 1;
    }
  }

  /** A handler that is lost, or whose transaction fails for an outside reason, leaves rows, billing and log alone. */
  lemma LostOrBroken<B, P>(effect: Effect<B, P>, s: Sys<B, P>, t: Task<P>)
    requires t in s.tasks
    ensures Next(effect, s, Crash(t)) == s.(tasks := s.tasks - multiset{t})
    ensures Next(effect, s, Break(t))
            == if t.Handling? then s.(tasks := s.tasks - multiset{t} + multiset{Failing(t.delivery)}) else s
  {
  }

  /** A transaction is tried once, and a failure marked only after one. */
  lemma TriedOnce<B, P>(effect: Effect<B, P>, s: Sys<B, P>, t: Task<P>)
    requires t in s.tasks
    ensures t.Failing? ==> Next(effect, s, Transact(t)) == s
    ensures t.Handling? ==> Next(effect, s, MarkFailed(t)) == s
    ensures t.Failing? ==> Next(effect, s, MarkFailed(t)).tasks == s.tasks - multiset{t}
  {
  }

  // ----- one handler, undisturbed

  datatype Answer = Duplicate | Done | Threw

  /** The steps of one handler that nothing interrupts; `breaks` is a transaction that fails for an outside reason. */
  function Turn<B, P>(effect: Effect<B, P>, rows: map<Key, Status>, billing: B, d: Delivery<P>, breaks: bool)
    : seq<Step<P>>
  {
    var attempt := if breaks then Break(Handling(d)) else Transact(Handling(d));
    if !Claims(rows, d.key) then [Receive(d)]
    else if breaks || effect(billing, d).None? then [Receive(d), attempt, MarkFailed(Failing(d))]
    else [Receive(d), attempt]
  }

  lemma RunOfThree<B, P>(effect: Effect<B, P>, s: Sys<B, P>, a: Step<P>, b: Step<P>, c: Step<P>)
    ensures Run(effect, s, [a]) == Next(effect, s, a)
    ensures Run(effect, s, [a, b]) == Next(effect, Next(effect, s, a), b)
    ensures Run(effect, s, [a, b, c]) == Next(effect, Next(effect, Next(effect, s, a), b), c)
  {
    hide Next;
    var s1 := Next(effect, s, a);
    var s2 := Next(effect, s1, b);
    assert [a, b, c][1..] == [b, c] && [b, c][1..] == [c] && [c][1..] == [] && [a, b][1..] == [b] && [b][1..] == [];
    assert [a][1..] == [];
    assert Run(effect, s2, [c]) == Next(effect, s2, c);
    assert Run(effect, s1, [b]) == s2;
    assert Run(effect, s1, [b, c]) == Next(effect, s2, c);
  }

  lemma ReceiveAdds<B, P>(effect: Effect<B, P>, s: Sys<B, P>, d: Delivery<P>)
    requires Claims(s.rows, d.key)
    ensures Next(effect, s, Receive(d))
            == s.(rows := s.rows[d.key := Processing], tasks := s.tasks + multiset{Handling(d)})
  {
  }

  lemma AttemptEnds<B, P>(effect: Effect<B, P>, s: Sys<B, P>, d: Delivery<P>, tasks: multiset<Task<P>>, breaks: bool)
    requires s.tasks == tasks + multiset{Handling(d)} && d.key in s.rows
    ensures var after := Next(effect, s, if breaks then Break(Handling(d)) else Transact(Handling(d)));
            var done := effect(s.billing, d);
            after == if breaks || done.None? then s.(tasks := tasks + multiset{Failing(d)})
                     else Sys(s.rows[d.key := Processed], tasks, done.value, s.log + [d])
  {
    assert s.tasks - multiset{Handling(d)} == tasks;
  }

  lemma MarkEnds<B, P>(effect: Effect<B, P>, s: Sys<B, P>, d: Delivery<P>, tasks: multiset<Task<P>>)
    requires s.tasks == tasks + multiset{Failing(d)} && d.key in s.rows
    ensures Next(effect, s, MarkFailed(Failing(d))) == s.(rows := s.rows[d.key := Failed], tasks := tasks)
  {
    assert s.tasks - multiset{Failing(d)} == tasks;
  }

  lemma OverwrittenRow(rows: map<Key, Status>, key: Key)
    ensures rows[key := Processing][key := Failed] == rows[key := Failed]
    ensures rows[key := Processing][key := Processed] == rows[key := Processed]
  {
  }

  /** An undisturbed handler leaves no task behind, and what it leaves in the tables is what `HandleWebhook` does. */
  lemma TurnIsARun<B, P>(effect: Effect<B, P>, s: Sys<B, P>, d: Delivery<P>, breaks: bool)
    ensures var after := Run(effect, s, Turn(effect, s.rows, s.billing, d, breaks));
            var done := effect(s.billing, d);
            if !Claims(s.rows, d.key) then after == s
            else if breaks || done.None? then after == s.(rows := s.rows[d.key := Failed])
            else after == s.(rows := s.rows[d.key := Processed], billing := done.value, log := s.log + [d])
  {
    hide Run;
    var attempt := if breaks then Break(Handling(d)) else Transact(Handling(d));
    RunOfThree(effect, s, Receive(d), attempt, MarkFailed(Failing(d)));
    if Claims(s.rows, d.key) {
      hide Next, Claims, Enabled;
      ReceiveAdds(effect, s, d);
      var claimed := Next(effect, s, Receive(d));
      AttemptEnds(effect, claimed, d, s.tasks, breaks);
      if breaks || effect(s.billing, d).None? {
        MarkEnds(effect, Next(effect, claimed, attempt), d, s.tasks);
      }
      OverwrittenRow(s.rows, d.key);
    }
  }

  class Handler<B, P(==)> {
    var rows: map<Key, Status>
    var billing: B

    constructor (billing: B)
      ensures rows == map[] && this.billing == billing
    {
      rows, this.billing := map[], billing;
    }

    method HandleWebhook(effect: Effect<B, P>, d: Delivery<P>, breaks: bool) returns (answer: Answer)
      modifies this
      ensures answer == if !Claims(old(rows), d.key) then Duplicate
                        else if breaks || effect(old(billing), d).None? then Threw else Done
      ensures var s := Sys(old(rows), multiset{}, old(billing), []);
              var after := Run(effect, s, Turn(effect, s.rows, s.billing, d, breaks));
              rows == after.rows && billing == after.billing
      ensures answer.Duplicate? <==>
                d.key in old(rows) && (old(rows)[d.key] == Processing || old(rows)[d.key] == Processed)
      ensures answer.Duplicate? ==> rows == old(rows) && billing == old(billing)
      ensures answer.Done? ==>
                rows == old(rows)[d.key := Processed] && effect(old(billing), d) == Some(billing) && !breaks
      ensures answer.Threw? ==>
                rows == old(rows)[d.key := Failed] && billing == old(billing)
                && (breaks || effect(old(billing), d) == None)
    {
      TurnIsARun(effect, Sys(rows, multiset{}, billing, []), d, breaks);
      hide Run, Turn;
      if d.key in rows && !rows[d.key].Failed? {
        return Duplicate;
      }
      rows := rows[d.key := Processing];
      if !breaks {
        var after := effect(billing, d);
        if after.Some? {
          billing := after.value;
          rows := rows[d.key := Processed];
          return Done;
        }
      }
      rows := rows[d.key := Failed];
      answer := Threw;
    }
  }

  // ----- with the subscription events as effects

  /** A subscription event's effect on the entitlement tables. */
  ghost function SubscriptionEffect(s: EntitlementRuns.Sys, d: Delivery<EntitlementRuns.Step>)
    : Option<EntitlementRuns.Sys>
  {
    if EntitlementRuns.Enabled(s, d.payload) then Some(EntitlementRuns.Next(s, d.payload)) else None
  }

  function Payloads<P>(log: seq<Delivery<P>>): seq<P> {
    seq(|log|, i requires 0 <= i < |log| => log[i].payload)
  }

  lemma {:induction false} RunEndsWith(
      s: EntitlementRuns.Sys, steps: seq<EntitlementRuns.Step>, step: EntitlementRuns.Step)
    ensures EntitlementRuns.Run(s, steps + [step]) == EntitlementRuns.Next(EntitlementRuns.Run(s, steps), step)
    decreases |steps|
  {
    if steps == [] {
      assert EntitlementRuns.Run(EntitlementRuns.Next(s, step), []) == EntitlementRuns.Next(s, step);
      assert ([] + [step])[1..] == [];
    } else {
      assert (steps + [step])[1..] == steps[1..] + [step];
      RunEndsWith(EntitlementRuns.Next(s, steps[0]), steps[1..], step);
    }
  }

  lemma {:induction false} FoldIsARun(s: EntitlementRuns.Sys, log: seq<Delivery<EntitlementRuns.Step>>)
    requires Fold(SubscriptionEffect, s, log).Some?
    ensures Fold(SubscriptionEffect, s, log) == Some(EntitlementRuns.Run(s, Payloads(log)))
    decreases |log|
  {
    if log != [] {
      var n := |log| - 1;
      FoldIsARun(s, log[..n]);
      assert Payloads(log) == Payloads(log[..n]) + [log[n].payload];
      RunEndsWith(s, Payloads(log[..n]), log[n].payload);
    } else {
      assert Payloads(log) == [];
    }
  }

  /** However its webhooks are delivered, a tenant is only reported what a recompute at that time would grant. */
  lemma DeliveriesKeepEntitlementsSound(
      plans: map<Id, Plan>, steps: seq<Step<EntitlementRuns.Step>>, c: Cell, now: int, order: seq<Id>)
    requires var db := Run(SubscriptionEffect, Start(EntitlementRuns.Start(plans)), steps).billing.db;
             HasEntitlement(db, c, now) && Answers(db, c.tenant, now, order)
    ensures var db := Run(SubscriptionEffect, Start(EntitlementRuns.Start(plans)), steps).billing.db;
            c.feature in Granted(db, order, now)
  {
    var start := EntitlementRuns.Start(plans);
    var s := Run(SubscriptionEffect, Start(start), steps);
    StateIsTheFoldOfProcessed(SubscriptionEffect, start, steps);
    FoldIsARun(start, s.log);
    EntitlementRuns.EveryRunIsSound(plans, Payloads(s.log), c, now, order);
  }
}
