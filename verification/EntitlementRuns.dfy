/** Subscription events, usage and the passing of time: how far the entitlement table can be trusted as a cache. */
module EntitlementRuns {
  import opened Basics
  import opened Entitlements

  const DAY := 86_400_000

  datatype Step =
    | Event(sub: Id, tenant: Id, plan: Id, status: Status, deadline: Option<int>, graceDays: int,
            at: int, queried: int, now: int, order: seq<Id>)
    | Usage(cell: Cell, quantity: int)

  /** The tables, and when each tenant was last recomputed. */
  datatype Sys = Sys(db: Db, computed: map<Id, int>)

  // ----- steps

  /** A past-due subscription keeps the deadline it has; one that has none gets the event's, or the tenant's default. */
  function NextDeadline(db: Db, step: Step): Option<int>
    requires step.Event?
  {
    if !step.status.PastDue? then step.deadline
    else if step.sub in db.subs && db.subs[step.sub].grace.Some? then db.subs[step.sub].grace
    else if step.deadline.Some? then step.deadline
    else if step.graceDays > 0 then Some(step.at + step.graceDays * DAY)
    else None
  }

  function Upserted(db: Db, step: Step): Db
    requires step.Event?
  {
    db.(subs := db.subs[step.sub := Subscription(step.tenant, step.plan, step.status, NextDeadline(db, step), step.at)])
  }

  /** What the database and a clock that does not run backwards give an event. */
  ghost predicate Answered(db: Db, step: Step)
    requires step.Event?
  {
    step.at <= step.queried <= step.now && Answers(Upserted(db, step), step.tenant, step.queried, step.order)
  }

  /** An event that names another tenant than the stored one is an error and is rolled back. */
  ghost predicate Enabled(s: Sys, step: Step) {
    step.Event? ==> (step.sub in s.db.subs ==> s.db.subs[step.sub].tenant == step.tenant) && Answered(s.db, step)
  }

  ghost function Next(s: Sys, step: Step): Sys {
    if !Enabled(s, step) then s
    else match step
      case Event(_, tenant, _, _, _, _, _, _, now, order) =>
        var db := Upserted(s.db, step);
        Sys(db.(rows := Recomputed(db.rows, tenant, Granted(db, order, now))), s.computed[tenant := now])
      case Usage(c, quantity) =>
        if c in s.db.rows
        then s.(db := s.db.(rows := s.db.rows[c := s.db.rows[c].(used := s.db.rows[c].used + quantity)]))
        else s
  }

  ghost function Run(s: Sys, steps: seq<Step>): Sys
    decreases |steps|
  {
    if steps == [] then s else Run(Next(s, steps[0]), steps[1..])
  }

  // ----- what holds in every state

  predicate EnabledRow(db: Db, c: Cell) {
    c in db.rows && db.rows[c].enabled
  }

  /**
   The recorded subscription carries the key, was live at the recompute, and is the least recently updated such one.
   */
  ghost predicate Records(db: Db, c: Cell, at: int, s: Id) {
    && LiveOf(db, c.tenant, s, at) && Carries(db, s, c.feature)
    && forall o :: LiveOf(db, c.tenant, o, at) && Carries(db, o, c.feature) ==>
      db.subs[o].updatedAt >= db.subs[s].updatedAt
  }

  /** As of its last recompute, a tenant's enabled keys are those some live subscription carries. */
  ghost predicate CellOk(s: Sys, c: Cell) {
    if c.tenant in s.computed then
      var at := s.computed[c.tenant];
      && (EnabledRow(s.db, c) <==> Grantable(s.db, c, at))
      && (EnabledRow(s.db, c) ==>
            s.db.rows[c].source == FromSubscription && s.db.rows[c].subscription.Some?
            && Records(s.db, c, at, s.db.rows[c].subscription.value))
    else
      c !in s.db.rows && forall x :: x in s.db.subs ==> s.db.subs[x].tenant != c.tenant
  }

  ghost predicate Inv(s: Sys) {
    forall c: Cell :: CellOk(s, c)
  }

  lemma OtherTenantKeeps(s: Sys, step: Step, c: Cell)
    requires CellOk(s, c) && step.Event? && Enabled(s, step) && c.tenant != step.tenant
    ensures CellOk(Next(s, step), c)
  {
    hide Granted, Answers;
    var s' := Next(s, step);
    assert forall x :: x in s.db.subs && s.db.subs[x].tenant == c.tenant ==> x != step.sub;
    forall x, t ensures LiveOf(s'.db, c.tenant, x, t) <==> LiveOf(s.db, c.tenant, x, t) {}
    forall x, t | LiveOf(s.db, c.tenant, x, t)
      ensures s'.db.subs[x] == s.db.subs[x] && (Carries(s'.db, x, c.feature) <==> Carries(s.db, x, c.feature)) {}
    assert EnabledRow(s'.db, c) <==> EnabledRow(s.db, c);
    assert EnabledRow(s.db, c) ==> s'.db.rows[c] == s.db.rows[c];
    if c.tenant in s.computed {
      var t := s.computed[c.tenant];
      if x :| LiveOf(s.db, c.tenant, x, t) && Carries(s.db, x, c.feature) {
        assert LiveOf(s'.db, c.tenant, x, t) && Carries(s'.db, x, c.feature);
      }
      if x :| LiveOf(s'.db, c.tenant, x, t) && Carries(s'.db, x, c.feature) {
        assert LiveOf(s.db, c.tenant, x, t) && Carries(s.db, x, c.feature);
      }
    }
  }

  lemma RecomputedCellOk(db: Db, computed: map<Id, int>, c: Cell, queried: int, now: int, order: seq<Id>)
    requires queried <= now && Answers(db, c.tenant, queried, order)
    ensures CellOk(Sys(db.(rows := Recomputed(db.rows, c.tenant, Granted(db, order, now))),
                       computed[c.tenant := now]), c)
  {
    hide Granted, Grantable, IsLastCarrier, Records, Carries;
    var db' := db.(rows := Recomputed(db.rows, c.tenant, Granted(db, order, now)));
    GrantsAreTheUnion(db, c, queried, now, order);
    GrantedKeys(db, order, now, c.feature);
    SameSubscriptions(db, db', c, now);
    assert EnabledRow(db', c) <==> c.feature in Granted(db, order, now);
    if EnabledRow(db', c) {
      var i :| 0 <= i < |order| && IsLastCarrier(db, order, now, c.feature, i)
               && Granted(db, order, now)[c.feature].subscription == order[i];
      LastCarrierIsRecorded(db, db', c, queried, now, order, i);
    }
  }

  lemma LastCarrierIsRecorded(db: Db, db': Db, c: Cell, queried: int, now: int, order: seq<Id>, i: int)
    requires queried <= now && Answers(db, c.tenant, queried, order)
    requires 0 <= i < |order| && IsLastCarrier(db, order, now, c.feature, i)
    requires db'.subs == db.subs && db'.plans == db.plans
    ensures Records(db', c, now, order[i])
  {
    assert LiveOf(db, c.tenant, order[i], queried);
    forall o | LiveOf(db', c.tenant, o, now) && Carries(db', o, c.feature)
      ensures db'.subs[o].updatedAt >= db'.subs[order[i]].updatedAt
    {
      assert LiveOf(db, c.tenant, o, queried);
      var j :| 0 <= j < |order| && order[j] == o;
      assert j <= i;
    }
  }

  lemma SameSubscriptions(db: Db, db': Db, c: Cell, now: int)
    requires db'.subs == db.subs && db'.plans == db.plans
    ensures Grantable(db', c, now) <==> Grantable(db, c, now)
  {
    if s :| LiveOf(db, c.tenant, s, now) && Carries(db, s, c.feature) {
      assert LiveOf(db', c.tenant, s, now) && Carries(db', s, c.feature);
    }
    if s :| LiveOf(db', c.tenant, s, now) && Carries(db', s, c.feature) {
      assert LiveOf(db, c.tenant, s, now) && Carries(db, s, c.feature);
    }
  }

  lemma UsageKeeps(s: Sys, step: Step, c: Cell)
    requires CellOk(s, c) && step.Usage?
    ensures CellOk(Next(s, step), c)
  {
    var s' := Next(s, step);
    assert EnabledRow(s'.db, c) <==> EnabledRow(s.db, c);
    if c.tenant in s.computed {
      SameSubscriptions(s.db, s'.db, c, s.computed[c.tenant]);
    }
  }

  lemma StepKeeps(s: Sys, step: Step)
    requires Inv(s)
    ensures Inv(Next(s, step))
  {
    hide CellOk, Answers, Granted, Recomputed;
    forall c: Cell ensures CellOk(Next(s, step), c) {
      assert CellOk(s, c);
      if step.Usage? {
        UsageKeeps(s, step, c);
      } else if Enabled(s, step) {
        if c.tenant == step.tenant {
          RecomputedCellOk(Upserted(s.db, step), s.computed, c, step.queried, step.now, step.order);
        } else {
          OtherTenantKeeps(s, step, c);
        }
      }
    }
  }

  lemma {:induction false} EveryRunKeeps(s: Sys, steps: seq<Step>)
    requires Inv(s)
    ensures Inv(Run(s, steps))
    decreases |steps|
  {
    if steps != [] {
      StepKeeps(s, steps[0]);
      EveryRunKeeps(Next(s, steps[0]), steps[1..]);
    }
  }

  function Start(plans: map<Id, Plan>): Sys { Sys(Db(plans, map[], map[]), map[]) }

  // ----- the table as a cache

  /** After every run: what is reported at `now` is what a recompute at `now` would grant. */
  lemma EveryRunIsSound(plans: map<Id, Plan>, steps: seq<Step>, c: Cell, now: int, order: seq<Id>)
    requires var db := Run(Start(plans), steps).db;
             HasEntitlement(db, c, now) && Answers(db, c.tenant, now, order)
    ensures var db := Run(Start(plans), steps).db; c.feature in Granted(db, order, now)
  {
    hide Granted, Answers;
    var s := Run(Start(plans), steps);
    EveryRunKeeps(Start(plans), steps);
    assert CellOk(s, c);
    var recorded := s.db.rows[c].subscription.value;
    assert LiveOf(s.db, c.tenant, recorded, now) && Carries(s.db, recorded, c.feature);
    GrantsAreTheUnion(s.db, c, now, now, order);
  }

  /** The row of `c` is enabled by subscription `r`, whose grace has run out since. */
  predicate EnabledByLapsed(db: Db, c: Cell, r: Id, now: int) {
    EnabledRow(db, c) && db.rows[c].subscription == Some(r) && r in db.subs && !Live(db.subs[r], now)
  }

  /** A key granted now was granted by the last recompute: subscriptions that no event touches only ever lapse. */
  lemma GrantedIsEnabled(s: Sys, c: Cell, now: int)
    requires Inv(s) && Grantable(s.db, c, now) && (c.tenant in s.computed ==> s.computed[c.tenant] <= now)
    ensures c.tenant in s.computed && EnabledRow(s.db, c) && s.db.rows[c].subscription.Some?
    ensures Records(s.db, c, s.computed[c.tenant], s.db.rows[c].subscription.value)
    ensures var r := s.db.rows[c].subscription.value;
            r in s.db.subs && s.db.subs[r].tenant == c.tenant && Carries(s.db, r, c.feature)
            && forall o :: LiveOf(s.db, c.tenant, o, s.computed[c.tenant]) && Carries(s.db, o, c.feature) ==>
                 s.db.subs[r].updatedAt <= s.db.subs[o].updatedAt
  {
    assert CellOk(s, c);
    var o :| LiveOf(s.db, c.tenant, o, now) && Carries(s.db, o, c.feature);
    assert LiveOf(s.db, c.tenant, o, s.computed[c.tenant]);
  }

  /**
   A key that a recompute at `now` would grant is reported missing exactly when the subscription its row names, which
   by `GrantedIsEnabled` is the least recently updated carrier at the last recompute, has lapsed since.
   */
  lemma CacheMissesExactlyWhen(s: Sys, c: Cell, now: int, order: seq<Id>)
    requires Inv(s) && Answers(s.db, c.tenant, now, order)
    requires c.tenant in s.computed ==> s.computed[c.tenant] <= now
    ensures c.feature in Granted(s.db, order, now) && !HasEntitlement(s.db, c, now) <==>
            Grantable(s.db, c, now) && exists r :: EnabledByLapsed(s.db, c, r, now)
  {
    hide Granted, Grantable, Records, Answers;
    assert CellOk(s, c);
    GrantsAreTheUnion(s.db, c, now, now, order);
    if Grantable(s.db, c, now) {
      GrantedIsEnabled(s, c, now);
      var r := s.db.rows[c].subscription.value;
      assert r in s.db.subs by { RecordedExists(s.db, c, s.computed[c.tenant], r); }
      if !HasEntitlement(s.db, c, now) { assert EnabledByLapsed(s.db, c, r, now); }
    }
  }

  lemma RecordedExists(db: Db, c: Cell, at: int, r: Id)
    requires Records(db, c, at, r)
    ensures LiveOf(db, c.tenant, r, at)
  {
  }

  /** Between a recompute and the next grace deadline of one of the tenant's subscriptions the table is exact. */
  lemma ExactUntilTheNextDeadline(s: Sys, c: Cell, now: int, order: seq<Id>)
    requires Inv(s) && Answers(s.db, c.tenant, now, order)
    requires c.tenant in s.computed ==> s.computed[c.tenant] <= now
    requires forall x ::
               x in s.db.subs && s.db.subs[x].tenant == c.tenant && s.db.subs[x].grace.Some?
               && c.tenant in s.computed ==>
                 !(s.computed[c.tenant] < s.db.subs[x].grace.value <= now)
    ensures HasEntitlement(s.db, c, now) <==> c.feature in Granted(s.db, order, now)
  {
    hide Granted, Answers;
    assert CellOk(s, c);
    GrantsAreTheUnion(s.db, c, now, now, order);
    CacheMissesExactlyWhen(s, c, now, order);
    if HasEntitlement(s.db, c, now) {
      assert LiveOf(s.db, c.tenant, s.db.rows[c].subscription.value, now);
    }
  }

  // ----- usage and deadlines

  /** The quantity a run records against a cell that exists. */
  function Quantity(steps: seq<Step>, c: Cell): int
    decreases |steps|
  {
    if steps == [] then 0
    else (if steps[0].Usage? && steps[0].cell == c then steps[0].quantity else 0) + Quantity(steps[1..], c)
  }

  /** No recompute in between resets or loses what was used, whether the key stays granted or not. */
  lemma {:induction false} UsageIsKept(s: Sys, steps: seq<Step>, c: Cell)
    requires c in s.db.rows
    ensures c in Run(s, steps).db.rows
    ensures Run(s, steps).db.rows[c].used == s.db.rows[c].used + Quantity(steps, c)
    decreases |steps|
  {
    if steps != [] {
      UsageIsKept(Next(s, steps[0]), steps[1..], c);
    }
  }

  ghost predicate StaysPastDue(steps: seq<Step>, x: Id) {
    forall i :: 0 <= i < |steps| && steps[i].Event? && steps[i].sub == x ==> steps[i].status.PastDue?
  }

  /** While a subscription stays past due, no event moves the deadline it has. */
  lemma {:induction false} PastDueKeepsItsDeadline(s: Sys, steps: seq<Step>, x: Id)
    requires x in s.db.subs && s.db.subs[x].grace.Some? && StaysPastDue(steps, x)
    ensures x in Run(s, steps).db.subs && Run(s, steps).db.subs[x].grace == s.db.subs[x].grace
    decreases |steps|
  {
    if steps != [] {
      assert StaysPastDue(steps[1..], x) by {
        forall i | 0 <= i < |steps| - 1 && steps[1..][i].Event? && steps[1..][i].sub == x
          ensures steps[1..][i].status.PastDue?
        {
          assert steps[1..][i] == steps[i + 1];
        }
      }
      PastDueKeepsItsDeadline(Next(s, steps[0]), steps[1..], x);
    }
  }

  /** Subscription 1 is past due until 50; both it and subscription 2, updated later, carry key 7. */
  function LapsingRun(): seq<Step> {
    [Event(1, 1, 1, PastDue, Some(50), 0, 10, 10, 10, [1]), Event(2, 1, 1, Active, None, 0, 20, 20, 20, [2, 1])]
  }

  /** At 60 the key is still carried by subscription 2, and yet reported missing. */
  lemma LapsedGraceHidesTheKey()
    ensures var s := Run(Start(map[1 := Plan([7], map[])]), LapsingRun());
            Grantable(s.db, Cell(1, 7), 60) && !HasEntitlement(s.db, Cell(1, 7), 60)
  {
    hide Granted, Recomputed, Inv, HasEntitlement, Grantable;
    var c, steps, s0 := Cell(1, 7), LapsingRun(), Start(map[1 := Plan([7], map[])]);
    var s1 := Next(s0, steps[0]);
    var s2 := Next(s1, steps[1]);
    assert 1 in [1] && 1 in [2, 1] && 2 in [2, 1];
    assert Enabled(s0, steps[0]);
    assert Enabled(s1, steps[1]);
    assert steps[1..] == [steps[1]] && steps[1..][1..] == [];
    assert Run(s0, steps) == s2;
    RecordsTheOlder(s2);
  }

  lemma RecordsTheOlder(s: Sys)
    requires s == Run(Start(map[1 := Plan([7], map[])]), LapsingRun())
    requires s.db.plans == map[1 := Plan([7], map[])] && 1 in s.computed && s.computed[1] == 20
    requires s.db.subs == map[1 := Subscription(1, 1, PastDue, Some(50), 10), 2 := Subscription(1, 1, Active, None, 20)]
    ensures Grantable(s.db, Cell(1, 7), 60) && !HasEntitlement(s.db, Cell(1, 7), 60)
  {
    hide Granted, Next, Run, LapsingRun;
    EveryRunKeeps(Start(map[1 := Plan([7], map[])]), LapsingRun());
    assert LiveOf(s.db, 1, 2, 60) && Carries(s.db, 2, 7);
    GrantedIsEnabled(s, Cell(1, 7), 60);
    assert CellOk(s, Cell(1, 7));
    assert LiveOf(s.db, 1, 1, 20) && Carries(s.db, 1, 7);
  }
}
