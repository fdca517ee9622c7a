/**
 Uptime checks: workers claim due monitors by moving their next check behind a lease, check them, and record the result
 only if the lease is still theirs.  Times are milliseconds on a clock that does not run backwards.
 */
module Uptime {
  import opened Basics

  const BATCH_SIZE := 5

  datatype Monitor = Monitor(active: bool, intervalSeconds: int, timeoutMs: int, nextCheckAt: int)

  /** A check in flight, with what the claiming statement returned; it belongs to its monitor's claim `number`. */
  datatype Check = Check(monitor: Id, number: nat, claimedAt: int, lease: int, intervalSeconds: int, timeoutMs: int)

  /** A recorded result, by the claim it came from. */
  datatype Result = Result(monitor: Id, number: nat)

  /** `claims` counts each monitor's claims. */
  datatype Sys = Sys(
    monitors: map<Id, Monitor>, checks: multiset<Check>, results: seq<Result>, claims: map<Id, nat>, clock: int)

  datatype Step =
    | Claim(batch: set<Id>, cutoff: int, now: int)
    | Complete(check: Check, now: int)
    | Upsert(monitor: Id, active: bool, intervalSeconds: int, timeoutMs: int, now: int)
    | Crash(check: Check, now: int)

  /** How far a claim moves the next check: at least five seconds beyond the timeout. */
  function Lease(m: Monitor): int {
    Max(m.intervalSeconds, (m.timeoutMs + 999) / 1000 + 5) * 1000
  }

  function Due(monitors: map<Id, Monitor>, cutoff: int): set<Id> {
    set m | m in monitors && monitors[m].active && monitors[m].nextCheckAt <= cutoff
  }

  // ----- steps

  predicate Enabled(s: Sys, step: Step) {
    s.clock <= step.now
    && match step
       case Claim(batch, cutoff, now) => cutoff <= now && batch <= Due(s.monitors, cutoff) && |batch| <= BATCH_SIZE
       case Complete(check, _) => check in s.checks
       case Upsert(_, _, intervalSeconds, timeoutMs, _) => intervalSeconds >= 1 && timeoutMs >= 1
       case Crash(check, _) => check in s.checks
  }

  function Claimed(monitors: map<Id, Monitor>, batch: set<Id>, now: int): map<Id, Monitor> {
    map m | m in monitors ::
      if m in batch then monitors[m].(nextCheckAt := now + Lease(monitors[m])) else monitors[m]
  }

  function ClaimsOf(claims: map<Id, nat>, m: Id): nat { if m in claims then claims[m] else 0 }

  function Counted(claims: map<Id, nat>, batch: set<Id>): map<Id, nat> {
    map m | m in claims.Keys + batch :: ClaimsOf(claims, m) + if m in batch then 1 else 0
  }

  function CheckOf(monitors: map<Id, Monitor>, claims: map<Id, nat>, m: Id, now: int): Check
    requires m in monitors
  {
    var monitor := monitors[m];
    Check(m, ClaimsOf(claims, m) + 1, now, now + Lease(monitor), monitor.intervalSeconds, monitor.timeoutMs)
  }

  function ChecksOf(monitors: map<Id, Monitor>, claims: map<Id, nat>, batch: set<Id>, now: int): set<Check> {
    set m | m in batch && m in monitors :: CheckOf(monitors, claims, m, now)
  }

  /** The compare-and-set that ends a check. */
  predicate Records(monitors: map<Id, Monitor>, check: Check) {
    check.monitor in monitors && monitors[check.monitor].nextCheckAt == check.lease
  }

  function Completed(monitors: map<Id, Monitor>, check: Check, now: int): map<Id, Monitor> {
    if Records(monitors, check)
    then monitors[check.monitor := monitors[check.monitor].(nextCheckAt := now + check.intervalSeconds * 1000)]
    else monitors
  }

  function Upserted(
      monitors: map<Id, Monitor>, m: Id, active: bool, intervalSeconds: int, timeoutMs: int, now: int)
    : map<Id, Monitor>
  {
    monitors[m := Monitor(active, intervalSeconds, timeoutMs, if m in monitors then monitors[m].nextCheckAt else now)]
  }

  function Next(s: Sys, step: Step): Sys {
    if !Enabled(s, step) then s
    else match step
      case Claim(batch, _, now) =>
        Sys(Claimed(s.monitors, batch, now), s.checks + multiset(ChecksOf(s.monitors, s.claims, batch, now)), s.results,
            Counted(s.claims, batch), now)
      case Complete(check, now) =>
        Sys(Completed(s.monitors, check, now), s.checks - multiset{check},
            if Records(s.monitors, check) then s.results + [Result(check.monitor, check.number)] else s.results,
            s.claims, now)
      case Upsert(m, active, intervalSeconds, timeoutMs, now) =>
        s.(monitors := Upserted(s.monitors, m, active, intervalSeconds, timeoutMs, now), clock := now)
      case Crash(check, now) => s.(checks := s.checks - multiset{check}, clock := now)
  }

  function Run(s: Sys, steps: seq<Step>): Sys
    decreases |steps|
  {
    if steps == [] then s else Run(Next(s, steps[0]), steps[1..])
  }

  function Start(now: int): Sys { Sys(map[], multiset{}, [], map[], now) }

  // ----- what holds in every state

  ghost predicate MonitorOk(s: Sys, m: Id) {
    (m in s.monitors ==> s.monitors[m].intervalSeconds >= 1 && s.monitors[m].timeoutMs >= 1)
    && (m in s.claims ==> m in s.monitors)
  }

  /**
   A check's lease outlasts its timeout.  The check of the last claim is the one whose lease is the next check; the
   leases of the others have run out.
   */
  ghost predicate CheckOk(s: Sys, c: Check) {
    c in s.checks ==>
      && s.checks[c] == 1 && c.intervalSeconds >= 1 && c.claimedAt + c.timeoutMs + 5000 <= c.lease
      && c.monitor in s.monitors && 1 <= c.number <= ClaimsOf(s.claims, c.monitor)
      && (if c.number == ClaimsOf(s.claims, c.monitor) then s.monitors[c.monitor].nextCheckAt == c.lease
          else c.lease <= s.clock && c.lease < s.monitors[c.monitor].nextCheckAt)
      && Result(c.monitor, c.number) !in s.results
  }

  ghost predicate ChecksApart(s: Sys) {
    forall a: Check, b: Check :: a in s.checks && b in s.checks && a.monitor == b.monitor && a.number == b.number ==>
      a == b
  }

  ghost predicate ResultsOk(s: Sys) {
    && (forall i :: 0 <= i < |s.results| ==> s.results[i].number <= ClaimsOf(s.claims, s.results[i].monitor))
    && forall i, j :: 0 <= i < j < |s.results| ==> s.results[i] != s.results[j]
  }

  ghost predicate Inv(s: Sys) {
    (forall m: Id :: MonitorOk(s, m)) && (forall c: Check :: CheckOk(s, c)) && ChecksApart(s) && ResultsOk(s)
  }

  /** A lease lasts at least the interval and five seconds beyond the timeout, and less than a second longer. */
  lemma LeaseOutlasts(m: Monitor)
    ensures Lease(m) >= m.timeoutMs + 5000 && Lease(m) >= m.intervalSeconds * 1000
    ensures Lease(m) == m.intervalSeconds * 1000 || Lease(m) < m.timeoutMs + 6000
  {
  }

  /** Any due monitors, five at most, can be claimed; a check in flight can end in a result or be lost. */
  lemma WhatCanHappen(s: Sys, batch: set<Id>, cutoff: int, check: Check, now: int)
    requires s.clock <= now
    ensures Enabled(s, Claim(batch, cutoff, now)) <==>
              cutoff <= now && |batch| <= 5
              && forall m :: m in batch ==>
                m in s.monitors && s.monitors[m].active && s.monitors[m].nextCheckAt <= cutoff
    ensures Enabled(s, Complete(check, now)) == Enabled(s, Crash(check, now)) == (check in s.checks)
    ensures Enabled(s, Upsert(check.monitor, true, check.intervalSeconds, check.timeoutMs, now)) <==>
              check.intervalSeconds >= 1 && check.timeoutMs >= 1
  {
    if forall m :: m in batch ==>
         m in s.monitors && s.monitors[m].active && s.monitors[m].nextCheckAt <= cutoff
    {
      assert batch <= Due(s.monitors, cutoff);
    }
  }

  /** A claim moves the next check by the lease, a recorded result by the interval, and nothing else moves it. */
  lemma NextChecks(s: Sys, step: Step, m: Id)
    requires Enabled(s, step) && m in s.monitors
    ensures m in Next(s, step).monitors
    ensures var moved := Next(s, step).monitors[m].nextCheckAt;
            if step.Claim? && m in step.batch then moved == step.now + Lease(s.monitors[m])
            else if step.Complete? && m == step.check.monitor && s.monitors[m].nextCheckAt == step.check.lease then
              moved == step.now + step.check.intervalSeconds * 1000
            else moved == s.monitors[m].nextCheckAt
  {
    hide Lease;
  }

  /** A check gives a result exactly when its lease is still the next check; it is over either way. */
  lemma CheckEnds(s: Sys, check: Check, now: int)
    requires check in s.checks && s.clock <= now
    ensures var after := Next(s, Complete(check, now));
            && after.clock == now && after.claims == s.claims && after.checks == s.checks - multiset{check}
            && after.results
               == if check.monitor in s.monitors && s.monitors[check.monitor].nextCheckAt == check.lease
                  then s.results + [Result(check.monitor, check.number)] else s.results
    ensures Next(s, Crash(check, now)) == s.(checks := s.checks - multiset{check}, clock := now)
  {
  }

  /** A claim starts one check of each monitor of the batch, under that monitor's next number. */
  lemma ClaimStarts(s: Sys, claim: Step, m: Id)
    requires claim.Claim? && Enabled(s, claim) && m in claim.batch
    ensures var after, number := Next(s, claim), if m in s.claims then s.claims[m] else 0;
            && m in s.monitors && m in after.claims && after.claims[m] == number + 1
            && Check(m, number + 1, claim.now, claim.now + Lease(s.monitors[m]), s.monitors[m].intervalSeconds,
                     s.monitors[m].timeoutMs) in after.checks
  {
    hide Lease, ChecksOf, Claimed;
    assert m in s.monitors by { hide Next; }
    CheckIsAmong(s.monitors, s.claims, claim.batch, m, claim.now);
  }

  lemma CheckIsAmong(monitors: map<Id, Monitor>, claims: map<Id, nat>, batch: set<Id>, m: Id, now: int)
    requires m in batch && m in monitors
    ensures CheckOf(monitors, claims, m, now) in ChecksOf(monitors, claims, batch, now)
  {
  }

  /** A claim leaves the results, and the checks and numbers of other monitors, as they are. */
  lemma ClaimLeavesOthers(s: Sys, claim: Step, m: Id)
    requires claim.Claim? && Enabled(s, claim) && m !in claim.batch
    ensures var after := Next(s, claim);
            && after.clock == claim.now && after.results == s.results
            && (if m in s.claims then m in after.claims && after.claims[m] == s.claims[m] else m !in after.claims)
    ensures forall c: Check :: c.monitor == m ==> Next(s, claim).checks[c] == s.checks[c]
  {
    hide Lease;
    forall c: Check | c.monitor == m ensures Next(s, claim).checks[c] == s.checks[c] {
      assert c !in ChecksOf(s.monitors, s.claims, claim.batch, claim.now);
    }
  }

  /** Setting a monitor up or changing it leaves its next check, or makes a new one due. */
  lemma UpsertSets(s: Sys, upsert: Step)
    requires upsert.Upsert? && Enabled(s, upsert)
    ensures var after, m := Next(s, upsert), upsert.monitor;
            && after == s.(monitors := after.monitors, clock := upsert.now)
            && after.monitors.Keys == s.monitors.Keys + {m} && after.monitors - {m} == s.monitors - {m}
            && after.monitors[m].active == upsert.active
            && after.monitors[m].intervalSeconds == upsert.intervalSeconds
            && after.monitors[m].timeoutMs == upsert.timeoutMs
            && after.monitors[m].nextCheckAt == if m in s.monitors then s.monitors[m].nextCheckAt else upsert.now
  {
  }

  lemma NewCheckIs(s: Sys, step: Step, c: Check)
    requires step.Claim? && Enabled(s, step) && c in ChecksOf(s.monitors, s.claims, step.batch, step.now)
    ensures c.monitor in step.batch && c.monitor in s.monitors
            && c == CheckOf(s.monitors, s.claims, c.monitor, step.now)
  {
  }

  lemma ClaimKeepsCheck(s: Sys, step: Step, c: Check)
    requires Inv(s) && step.Claim? && Enabled(s, step)
    ensures CheckOk(Next(s, step), c)
  {
    hide ChecksOf, ChecksApart;
    var s' := Next(s, step);
    if c in s'.checks {
      assert CheckOk(s, c) && MonitorOk(s, c.monitor);
      LeaseOutlasts(if c.monitor in s.monitors then s.monitors[c.monitor] else Monitor(false, 1, 1, 0));
      if c in ChecksOf(s.monitors, s.claims, step.batch, step.now) {
        NewCheckIs(s, step, c);
        assert Result(c.monitor, c.number) !in s.results;
      }
    }
  }

  lemma CompleteKeepsCheck(s: Sys, step: Step, c: Check)
    requires Inv(s) && (step.Complete? || step.Upsert? || step.Crash?) && Enabled(s, step)
    ensures CheckOk(Next(s, step), c)
  {
    var s' := Next(s, step);
    if c in s'.checks {
      assert c in s.checks && CheckOk(s, c);
      if step.Complete? {
        assert CheckOk(s, step.check);
        assert c.monitor == step.check.monitor ==> c.number != step.check.number;
      }
    }
  }

  lemma ClaimKeepsApart(s: Sys, step: Step)
    requires Inv(s) && step.Claim? && Enabled(s, step)
    ensures ChecksApart(Next(s, step))
  {
    hide ChecksOf;
    var s' := Next(s, step);
    forall a: Check, b: Check | a in s'.checks && b in s'.checks && a.monitor == b.monitor && a.number == b.number
      ensures a == b
    {
      assert CheckOk(s, a) && CheckOk(s, b);
      if a in ChecksOf(s.monitors, s.claims, step.batch, step.now) { NewCheckIs(s, step, a); }
      if b in ChecksOf(s.monitors, s.claims, step.batch, step.now) { NewCheckIs(s, step, b); }
    }
  }

  lemma ResultsKeep(s: Sys, step: Step)
    requires Inv(s) && Enabled(s, step)
    ensures ResultsOk(Next(s, step))
  {
    hide ChecksOf, ChecksApart;
    if step.Complete? { assert CheckOk(s, step.check); }
  }

  lemma StepKeeps(s: Sys, step: Step)
    requires Inv(s)
    ensures Inv(Next(s, step))
  {
    hide CheckOk, ResultsOk, ChecksOf, MonitorOk, Enabled, Next;
    if Enabled(s, step) {
      ResultsKeep(s, step);
      MonitorsKeep(s, step);
      if step.Claim? {
        ClaimKeepsApart(s, step);
        forall c: Check ensures CheckOk(Next(s, step), c) { ClaimKeepsCheck(s, step, c); }
      } else {
        OthersKeepApart(s, step);
        forall c: Check ensures CheckOk(Next(s, step), c) { CompleteKeepsCheck(s, step, c); }
      }
    } else {
      NothingHappens(s, step);
    }
  }

  lemma NothingHappens(s: Sys, step: Step)
    requires !Enabled(s, step)
    ensures Next(s, step) == s
  {
  }

  lemma OthersKeepApart(s: Sys, step: Step)
    requires ChecksApart(s) && !step.Claim?
    ensures ChecksApart(Next(s, step))
  {
  }

  lemma MonitorsKeep(s: Sys, step: Step)
    requires Inv(s) && Enabled(s, step)
    ensures forall m: Id :: MonitorOk(Next(s, step), m)
  {
    hide ChecksOf, ChecksApart, ResultsOk, Lease, CheckOk;
    forall m: Id ensures MonitorOk(Next(s, step), m) { assert MonitorOk(s, m); }
  }

  lemma {:induction false} EveryRunKeeps(s: Sys, steps: seq<Step>)
    requires Inv(s)
    ensures Inv(Run(s, steps))
    decreases |steps|
  {
    if steps != [] {
      StepKeeps(s, steps[0]);
      EveryRunKeeps(Next(s, steps[0]), steps[1..]);
    }
  }

  // ----- workers

  /** Whoever claims a monitor, every check of it still in flight has been past its timeout for five seconds. */
  lemma ClaimsAreApart(start: int, steps: seq<Step>, claim: Step, c: Check)
    requires var s := Run(Start(start), steps);
             claim.Claim? && Enabled(s, claim) && c in s.checks && c.monitor in claim.batch
    ensures c.claimedAt + c.timeoutMs + 5000 <= claim.now
  {
    var s := Run(Start(start), steps);
    EveryRunKeeps(Start(start), steps);
    assert CheckOk(s, c);
  }

  /** The compare-and-set lets exactly the check of the monitor's last claim record its result. */
  lemma RecordsExactlyTheLastClaim(start: int, steps: seq<Step>, c: Check)
    requires c in Run(Start(start), steps).checks
    ensures var s := Run(Start(start), steps); Records(s.monitors, c) <==> c.number == ClaimsOf(s.claims, c.monitor)
  {
    EveryRunKeeps(Start(start), steps);
    assert CheckOk(Run(Start(start), steps), c);
  }

  /** No claim has two results. */
  lemma OneResultPerClaim(start: int, steps: seq<Step>, i: nat, j: nat)
    requires var results := Run(Start(start), steps).results; i < j < |results|
    ensures var results := Run(Start(start), steps).results; results[i] != results[j]
  {
    EveryRunKeeps(Start(start), steps);
  }

  lemma ClaimShrinksDue(monitors: map<Id, Monitor>, batch: set<Id>, now: int, cutoff: int)
    requires cutoff <= now && batch <= monitors.Keys && forall m :: m in batch ==> Lease(monitors[m]) > 0
    ensures Due(Claimed(monitors, batch, now), cutoff) == Due(monitors, cutoff) - batch
  {
    hide Lease;
    var after := Claimed(monitors, batch, now);
    forall m: Id ensures m in Due(after, cutoff) <==> m in Due(monitors, cutoff) - batch {
      if m in batch { assert after[m].nextCheckAt > cutoff; }
    }
  }

  lemma CompleteShrinksDue(monitors: map<Id, Monitor>, check: Check, now: int, cutoff: int)
    requires cutoff <= now && check.intervalSeconds > 0
    ensures Due(Completed(monitors, check, now), cutoff) <= Due(monitors, cutoff)
  {
  }

  /** What is due by a cutoff in the past only shrinks, whoever claims and completes; a claim takes away its batch. */
  lemma DueShrinks(s: Sys, step: Step, cutoff: int)
    requires Inv(s) && Enabled(s, step) && !step.Upsert? && cutoff <= s.clock
    ensures Due(Next(s, step).monitors, cutoff) <= Due(s.monitors, cutoff)
    ensures step.Claim? ==> Due(Next(s, step).monitors, cutoff) == Due(s.monitors, cutoff) - step.batch
  {
    hide Inv, ChecksOf, Lease, Claimed, Completed;
    match step
    case Claim(batch, _, now) =>
      forall m | m in batch ensures Lease(s.monitors[m]) > 0 { LeaseIsPositive(s, m); }
      ClaimShrinksDue(s.monitors, batch, now, cutoff);
    case Complete(check, now) =>
      IntervalIsPositive(s, check);
      CompleteShrinksDue(s.monitors, check, now, cutoff);
    case Crash(_, _) =>
  }

  lemma LeaseIsPositive(s: Sys, m: Id)
    requires Inv(s)
    ensures m in s.monitors ==> Lease(s.monitors[m]) > 0
  {
    assert MonitorOk(s, m);
  }

  lemma IntervalIsPositive(s: Sys, c: Check)
    requires Inv(s)
    ensures c in s.checks ==> c.intervalSeconds > 0
  {
    assert CheckOk(s, c);
  }
}
