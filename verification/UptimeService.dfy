/** The uptime functions as one worker runs them. */
module UptimeService {
  import opened Basics
  import opened Uptime

  ghost predicate IsEarliest(monitors: map<Id, Monitor>, rest: set<Id>, m: Id) {
    m in rest && m in monitors && forall o :: o in rest && o in monitors ==>
      monitors[m].nextCheckAt <= monitors[o].nextCheckAt
  }

  /** The most overdue monitors, at most `BATCH_SIZE` of them. */
  ghost predicate IsBatch(monitors: map<Id, Monitor>, due: set<Id>, batch: set<Id>) {
    && batch <= due && due <= monitors.Keys
    && |batch| == (if |due| < BATCH_SIZE then |due| else BATCH_SIZE)
    && forall a, b :: a in batch && b in due - batch ==> monitors[a].nextCheckAt <= monitors[b].nextCheckAt
  }

  /** A monitor that was checked between two times: only its next check has moved, to the interval after that. */
  predicate CheckedBetween(before: Monitor, after: Monitor, from: int, to: int) {
    && after.active == before.active && after.intervalSeconds == before.intervalSeconds
    && after.timeoutMs == before.timeoutMs
    && from <= after.nextCheckAt - before.intervalSeconds * 1000 <= to
  }

  /** Just the monitors in `checked` have been checked, once each. */
  ghost predicate Checked(
      before: map<Id, Monitor>, after: map<Id, Monitor>, checked: set<Id>, from: int, to: int)
  {
    after.Keys == before.Keys && forall m :: m in after ==>
      if m in checked then CheckedBetween(before[m], after[m], from, to) else after[m] == before[m]
  }

  lemma CheckedNone(monitors: map<Id, Monitor>, from: int, to: int)
    ensures Checked(monitors, monitors, {}, from, to)
  {
  }

  lemma CheckedMore(
      a: map<Id, Monitor>, b: map<Id, Monitor>, c: map<Id, Monitor>, one: set<Id>, two: set<Id>, from: int, mid: int,
      to: int)
    requires Checked(a, b, one, from, mid) && Checked(b, c, two, mid, to) && one !! two && from <= mid <= to
    ensures Checked(a, c, one + two, from, to)
  {
  }

  lemma DueChecked(before: map<Id, Monitor>, after: map<Id, Monitor>, cutoff: int, to: int)
    requires Checked(before, after, Due(before, cutoff), cutoff, to)
    ensures after.Keys == before.Keys && forall m :: m in after ==>
              if before[m].active && before[m].nextCheckAt <= cutoff then
                CheckedBetween(before[m], after[m], cutoff, to)
              else after[m] == before[m]
  {
  }

  /** Claiming a batch of due monitors takes just them out of the due ones. */
  lemma BatchIsClaimed(monitors: map<Id, Monitor>, batch: set<Id>, claimedAt: int, dueBefore: int)
    requires IsBatch(monitors, Due(monitors, dueBefore), batch) && dueBefore <= claimedAt
    requires forall m :: m in monitors ==> monitors[m].intervalSeconds >= 1 && monitors[m].timeoutMs >= 1
    ensures var claimed := Claimed(monitors, batch, claimedAt);
            && batch <= monitors.Keys == claimed.Keys && Due(claimed, dueBefore) == Due(monitors, dueBefore) - batch
            && (forall m :: m in batch ==> claimed[m].nextCheckAt > dueBefore)
            && forall m :: m in claimed ==> claimed[m].intervalSeconds >= 1 && claimed[m].timeoutMs >= 1
  {
    forall m | m in batch ensures Lease(monitors[m]) > 0 { LeaseOutlasts(monitors[m]); }
    hide Lease;
    ClaimShrinksDue(monitors, batch, claimedAt, dueBefore);
  }

  /** One more result for each of `ids`. */
  function Tallied(results: map<Id, int>, ids: set<Id>): map<Id, int> {
    map m | m in results :: results[m] + if m in ids then 1 else 0
  }

  lemma TallyOne(results: map<Id, int>, ids: set<Id>, m: Id)
    requires m in results && m !in ids
    ensures Tallied(results, ids + {m}) == Tallied(results, ids)[m := Tallied(results, ids)[m] + 1]
  {
  }

  /** Just the active monitors whose next check has come get a result more. */
  lemma DueTally(monitors: map<Id, Monitor>, results: map<Id, int>, cutoff: int)
    requires forall m: Id :: m in monitors <==> m in results
    ensures var tally := Tallied(results, Due(monitors, cutoff));
            tally.Keys == results.Keys && forall m :: m in results ==>
              tally[m] == results[m] + if monitors[m].active && monitors[m].nextCheckAt <= cutoff then 1 else 0
  {
  }

  lemma TallyNone(results: map<Id, int>)
    ensures Tallied(results, {}) == results
  {
  }

  lemma TallyTwice(results: map<Id, int>, a: set<Id>, b: set<Id>)
    requires a !! b
    ensures Tallied(Tallied(results, a), b) == Tallied(results, a + b)
  {
  }

  /** A monitor that is not due and whose next check stays behind the cutoff does not become due. */
  lemma StaysNotDue(monitors: map<Id, Monitor>, m: Id, monitor: Monitor, cutoff: int)
    requires m in monitors && monitors[m].nextCheckAt > cutoff && monitor.nextCheckAt > cutoff
    ensures Due(monitors[m := monitor], cutoff) == Due(monitors, cutoff)
  {
  }

  lemma MoveOne(checked: set<Id>, unchecked: set<Id>, m: Id)
    requires m in unchecked && checked !! unchecked
    ensures checked + {m} !! unchecked - {m} && checked + {m} + (unchecked - {m}) == checked + unchecked
    ensures |unchecked - {m}| < |unchecked|
  {
  }

  class Worker {
    var monitors: map<Id, Monitor>
    var results: map<Id, int>
    var clock: int

    ghost predicate Valid()
      reads this
    {
      (forall m: Id :: m in monitors <==> m in results)
      && forall m :: m in monitors ==> monitors[m].intervalSeconds >= 1 && monitors[m].timeoutMs >= 1
    }

    constructor (now: int)
      ensures Valid() && monitors == map[] && clock == now
    {
      monitors := map[];
      results := map[];
      clock := now;
    }

    /** Reading the clock, which has moved on by any amount. */
    method Now() returns (now: int)
      modifies this`clock
      ensures now == clock >= old(clock)
    {
      var passed :| passed >= 0;
      clock := clock + passed;
      now := clock;
    }

    /** `false` is the error for an interval or timeout that is not positive. */
    method UpsertUptimeMonitor(m: Id, active: bool, intervalSeconds: int, timeoutMs: int) returns (ok: bool)
      requires Valid()
      modifies this
      ensures Valid() && (ok <==> intervalSeconds >= 1 && timeoutMs >= 1)
      ensures ok ==> monitors == Upserted(old(monitors), m, active, intervalSeconds, timeoutMs, clock)
      ensures ok ==>
                m in monitors && monitors - {m} == old(monitors) - {m}
                && monitors[m].active == active && monitors[m].intervalSeconds == intervalSeconds
                && monitors[m].timeoutMs == timeoutMs
                && monitors[m].nextCheckAt == if m in old(monitors) then old(monitors)[m].nextCheckAt else clock
      ensures !ok ==> monitors == old(monitors)
      ensures forall o :: o in old(results) ==> o in results && results[o] == old(results)[o]
    {
      if intervalSeconds < 1 || timeoutMs < 1 {
        return false;
      }
      var now := Now();
      if m in monitors {
        monitors := monitors[m :=
          monitors[m].(active := active, intervalSeconds := intervalSeconds, timeoutMs := timeoutMs)];
      } else {
        monitors := monitors[m := Monitor(active, intervalSeconds, timeoutMs, now)];
        results := results[m := 0];
      }
      ok := true;
    }

    /** The monitor with the smallest next check. */
    method Earliest(rest: set<Id>) returns (first: Id)
      requires rest != {} && rest <= monitors.Keys
      ensures IsEarliest(monitors, rest, first)
    {
      NoMembers(rest);
      first :| first in rest;
      var unseen := rest - {first};
      while unseen != {}
        invariant first in rest && unseen <= rest
        invariant forall o :: o in rest - unseen ==> monitors[first].nextCheckAt <= monitors[o].nextCheckAt
        decreases |unseen|
      {
        NoMembers(unseen);
        var o :| o in unseen;
        if monitors[o].nextCheckAt < monitors[first].nextCheckAt {
          first := o;
        }
        unseen := unseen - {o};
      }
    }

    /** `ORDER BY next_check_at ASC … LIMIT`. */
    method SelectDue(cutoff: int) returns (batch: set<Id>)
      ensures IsBatch(monitors, Due(monitors, cutoff), batch)
      ensures |batch| <= 5
      ensures forall m :: m in batch ==> m in monitors && monitors[m].active && monitors[m].nextCheckAt <= cutoff
      ensures forall o :: o in monitors && o !in batch && monitors[o].active && monitors[o].nextCheckAt <= cutoff ==>
                |batch| == 5 && forall m :: m in batch ==> monitors[m].nextCheckAt <= monitors[o].nextCheckAt
    {
      batch := {};
      var due := Due(monitors, cutoff);
      var rest := due;
      while rest != {} && |batch| < BATCH_SIZE
        invariant batch !! rest && batch + rest == due
        invariant |batch| <= BATCH_SIZE && |batch| + |rest| == |due|
        invariant forall a, b :: a in batch && b in rest ==> monitors[a].nextCheckAt <= monitors[b].nextCheckAt
        decreases |rest|
      {
        var m := Earliest(rest);
        batch := batch + {m};
        rest := rest - {m};
      }
      assert rest == due - batch;
      assert rest == {} ==> |batch| == |due|;
    }

    /** One claimed monitor's check: its result is recorded, and it does not become due again. */
    method CheckMonitor(m: Id, ghost dueBefore: int)
      requires Valid() && m in monitors && monitors[m].nextCheckAt > dueBefore && dueBefore <= clock
      modifies this
      ensures Valid() && old(clock) <= clock && monitors.Keys == old(monitors).Keys
      ensures monitors
              == old(monitors)[m := old(monitors)[m].(nextCheckAt := clock + old(monitors)[m].intervalSeconds * 1000)]
      ensures Due(monitors, dueBefore) == Due(old(monitors), dueBefore)
      ensures Checked(old(monitors), monitors, {m}, old(clock), clock)
      ensures results == old(results)[m := old(results)[m] + 1]
    {
      var monitor := monitors[m];
      var checkedAt := Now();
      StaysNotDue(monitors, m, monitor.(nextCheckAt := checkedAt + monitor.intervalSeconds * 1000), dueBefore);
      if monitors[m].nextCheckAt == monitor.nextCheckAt {
        monitors := monitors[m := monitor.(nextCheckAt := checkedAt + monitor.intervalSeconds * 1000)];
        results := results[m := results[m] + 1];
      }
    }

    /** The claimed monitors' checks, in any order. */
    method CheckAll(claimed: set<Id>, ghost dueBefore: int)
      requires Valid() && claimed <= monitors.Keys && dueBefore <= clock
      requires forall m :: m in claimed ==> monitors[m].nextCheckAt > dueBefore
      modifies this
      ensures Valid() && old(clock) <= clock && monitors.Keys == old(monitors).Keys
      ensures Due(monitors, dueBefore) == Due(old(monitors), dueBefore)
      ensures results == Tallied(old(results), claimed)
      ensures Checked(old(monitors), monitors, claimed, old(clock), clock)
    {
      hide Due, Tallied, Checked;
      CheckedNone(monitors, clock, clock);
      var unchecked := claimed;
      ghost var checked: set<Id> := {};
      TallyNone(results);
      while unchecked != {}
        invariant Valid() && unchecked <= claimed && monitors.Keys == old(monitors).Keys && old(clock) <= clock
        invariant forall m :: m in unchecked ==> monitors[m].nextCheckAt > dueBefore
        invariant Due(monitors, dueBefore) == Due(old(monitors), dueBefore)
        invariant checked !! unchecked && checked + unchecked == claimed
        invariant results == Tallied(old(results), checked)
        invariant Checked(old(monitors), monitors, checked, old(clock), clock)
        decreases |unchecked|
      {
        NoMembers(unchecked);
        var m :| m in unchecked;
        TallyOne(old(results), checked, m);
        ghost var before, turnAt := monitors, clock;
        CheckMonitor(m, dueBefore);
        CheckedMore(old(monitors), before, monitors, checked, {m}, old(clock), turnAt, clock);
        MoveOne(checked, unchecked, m);
        checked, unchecked := checked + {m}, unchecked - {m};
      }
    }

    /** One batch: claim it, then check and complete its monitors; returns its size. */
    method RunDueUptimeChecks(dueBefore: int) returns (size: nat, ghost batch: set<Id>)
      requires Valid() && dueBefore <= clock
      modifies this
      ensures Valid() && old(clock) <= clock && monitors.Keys == old(monitors).Keys && size == |batch|
      ensures IsBatch(old(monitors), Due(old(monitors), dueBefore), batch)
      ensures Due(monitors, dueBefore) == Due(old(monitors), dueBefore) - batch
      ensures results == Tallied(old(results), batch)
      ensures Checked(old(monitors), monitors, batch, old(clock), clock)
    {
      var claimedAt := Now();
      var claimed := SelectDue(dueBefore);
      batch := claimed;
      size := |claimed|;
      hide IsBatch, Tallied, Lease, Due, Claimed;
      BatchIsClaimed(monitors, batch, claimedAt, dueBefore);
      monitors := Claimed(monitors, claimed, claimedAt);
      CheckAll(claimed, dueBefore);
    }

    /** A whole sweep checks every monitor that was due at its start exactly once, and no other, and then stops. */
    method RunAllDueUptimeChecks() returns (total: nat, ghost dueBefore: int)
      requires Valid()
      modifies this
      ensures Valid() && old(clock) <= dueBefore <= clock
      ensures total == |Due(old(monitors), dueBefore)| && Due(monitors, dueBefore) == {}
      ensures results == Tallied(old(results), Due(old(monitors), dueBefore))
      ensures results.Keys == old(results).Keys && forall m :: m in results ==>
                results[m] == old(results)[m]
                              + if old(monitors)[m].active && old(monitors)[m].nextCheckAt <= dueBefore then 1 else 0
      ensures monitors.Keys == old(monitors).Keys && forall m :: m in monitors ==>
                if old(monitors)[m].active && old(monitors)[m].nextCheckAt <= dueBefore then
                  CheckedBetween(old(monitors)[m], monitors[m], dueBefore, clock)
                else monitors[m] == old(monitors)[m]
    {
      var cutoff := Now();
      dueBefore := cutoff;
      total := 0;
      ghost var due := Due(monitors, cutoff);
      TallyNone(results);
      assert due - due == {};
      hide Tallied, Due, IsBatch, Checked;
      CheckedNone(monitors, cutoff, cutoff);
      var more := true;
      while more
        invariant Valid() && cutoff <= clock && monitors.Keys == old(monitors).Keys
        invariant Due(monitors, cutoff) <= due && total == |due - Due(monitors, cutoff)|
        invariant results == Tallied(old(results), due - Due(monitors, cutoff))
        invariant !more ==> Due(monitors, cutoff) == {}
        invariant Checked(old(monitors), monitors, due - Due(monitors, cutoff), dueBefore, clock)
        decreases more, |Due(monitors, cutoff)|
      {
        ghost var before, beforeTurn, turnAt := Due(monitors, cutoff), monitors, clock;
        var batchSize, batch := RunDueUptimeChecks(cutoff);
        TurnOfSweep(beforeTurn, due, before, batch, old(results));
        CheckedMore(old(monitors), beforeTurn, monitors, due - before, batch, dueBefore, turnAt, clock);
        total := total + batchSize;
        more := batchSize == BATCH_SIZE;
      }
      assert due - {} == due;
      DueChecked(old(monitors), monitors, dueBefore, clock);
      DueTally(old(monitors), old(results), dueBefore);
    }
  }

  /** What one batch does to a sweep's books: what is left, what was counted, and when to stop. */
  lemma TurnOfSweep(monitors: map<Id, Monitor>, due: set<Id>, before: set<Id>, batch: set<Id>, results: map<Id, int>)
    requires IsBatch(monitors, before, batch) && before <= due
    ensures |due - (before - batch)| == |due - before| + |batch| && |before - batch| == |before| - |batch|
    ensures |batch| != BATCH_SIZE ==> before - batch == {}
    ensures |batch| == BATCH_SIZE ==> |before - batch| < |before|
    ensures Tallied(Tallied(results, due - before), batch) == Tallied(results, due - (before - batch))
    ensures due - before !! batch && due - (before - batch) == (due - before) + batch
  {
    assert due - (before - batch) == (due - before) + batch;
    assert batch <= before && (|batch| != BATCH_SIZE ==> |batch| == |before|);
    if |batch| == |before| { assert |before - batch| == 0; }
    hide IsBatch, Tallied;
    TallyTwice(results, due - before, batch);
  }
}
