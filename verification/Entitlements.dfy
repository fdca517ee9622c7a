/**
 Entitlements: a table of what each tenant may use, recomputed from its subscriptions whenever one of them changes,
 and read in between.

 A recompute reads the clock twice: for its query and, later, for the loop over the query's answer.
 */
module Entitlements {
  import opened Basics

  datatype Status = Active | Canceled | Incomplete | PastDue | Paused | Trialing | Unpaid
  datatype Source = FromSubscription | Manual

  datatype Plan = Plan(features: seq<Id>, limits: map<Id, int>)
  datatype Subscription = Subscription(tenant: Id, plan: Id, status: Status, grace: Option<int>, updatedAt: int)
  datatype Cell = Cell(tenant: Id, feature: Id)
  datatype Row = Row(
    enabled: bool, source: Source, plan: Option<Id>, subscription: Option<Id>, limit: Option<int>, used: int)
  datatype Db = Db(plans: map<Id, Plan>, subs: map<Id, Subscription>, rows: map<Cell, Row>)

  datatype Grant = Grant(limit: Option<int>, plan: Id, subscription: Id)

  // ----- which subscriptions count

  predicate Live(sub: Subscription, now: int) {
    sub.status.Active? || sub.status.Trialing? || (sub.grace.Some? && sub.grace.value > now)
  }

  /** Active and trialing subscriptions count; all others only within a grace period, whatever their status. */
  lemma LiveStatuses(sub: Subscription, now: int)
    ensures sub.status == Active || sub.status == Trialing ==> Live(sub, now)
    ensures sub.status in {Canceled, Incomplete, PastDue, Paused, Unpaid} ==>
              (Live(sub, now) <==> sub.grace.Some? && now < sub.grace.value)
  {
  }

  predicate LiveOf(db: Db, tenant: Id, s: Id, now: int) {
    s in db.subs && db.subs[s].tenant == tenant && Live(db.subs[s], now)
  }

  /** `order` is an answer of the query for the tenant's live subscriptions, most recently updated first. */
  ghost predicate Answers(db: Db, tenant: Id, now: int, order: seq<Id>) {
    && (forall i :: 0 <= i < |order| ==> LiveOf(db, tenant, order[i], now))
    && (forall s :: LiveOf(db, tenant, s, now) ==> s in order)
    && (forall i, j :: 0 <= i < j < |order| ==>
          order[i] != order[j] && db.subs[order[i]].updatedAt >= db.subs[order[j]].updatedAt)
  }

  /** The plan of a subscription; one that is missing grants nothing. */
  function PlanOf(db: Db, s: Id): Plan
    requires s in db.subs
  {
    if db.subs[s].plan in db.plans then db.plans[db.subs[s].plan] else Plan([], map[])
  }

  predicate Carries(db: Db, s: Id, k: Id)
    requires s in db.subs
  {
    k in PlanOf(db, s).features || k in PlanOf(db, s).limits
  }

  // ----- recomputing

  function LimitBefore(grants: map<Id, Grant>, k: Id): int {
    if k in grants && grants[k].limit.Some? then grants[k].limit.value else 0
  }

  /** One subscription's turn: its features as plain grants, then its limits on top of what is there. */
  function Apply(grants: map<Id, Grant>, s: Id, planId: Id, plan: Plan): map<Id, Grant> {
    map k | k in grants.Keys + (set f | f in plan.features) + plan.limits.Keys ::
      if k in plan.limits then
        Grant(Some(Max(if k in plan.features then 0 else LimitBefore(grants, k), plan.limits[k])), planId, s)
      else if k in plan.features then Grant(None, planId, s)
      else grants[k]
  }

  function Granted(db: Db, order: seq<Id>, now: int): map<Id, Grant>
    requires forall i :: 0 <= i < |order| ==> order[i] in db.subs
    decreases |order|
  {
    if order == [] then map[]
    else
      var last := order[|order| - 1];
      var before := Granted(db, order[..|order| - 1], now);
      if Live(db.subs[last], now) then Apply(before, last, db.subs[last].plan, PlanOf(db, last)) else before
  }

  function GrantedRow(rows: map<Cell, Row>, c: Cell, grant: Grant): Row {
    Row(true, FromSubscription, Some(grant.plan), Some(grant.subscription), grant.limit,
        if c in rows then rows[c].used else 0)
  }

  /** All rows of the tenant are disabled, then the granted ones written; what was used stays. */
  function Recomputed(rows: map<Cell, Row>, tenant: Id, grants: map<Id, Grant>): map<Cell, Row> {
    map c | c in rows.Keys + (set k | k in grants :: Cell(tenant, k)) ::
      if c.tenant == tenant && c.feature in grants then GrantedRow(rows, c, grants[c.feature])
      else if c.tenant == tenant then rows[c].(enabled := false)
      else rows[c]
  }

  /** `hasEntitlement`: an enabled row whose subscription, if it names one, is still live. */
  predicate HasEntitlement(db: Db, c: Cell, now: int) {
    c in db.rows && db.rows[c].enabled
    && (db.rows[c].source != FromSubscription || db.rows[c].subscription.None?
        || (db.rows[c].subscription.value in db.subs && Live(db.subs[db.rows[c].subscription.value], now)))
  }

  /** A key is reported while its row is enabled and its subscription trials, is active, or is in its grace period. */
  lemma ReportedExactlyWhen(db: Db, c: Cell, now: int)
    requires c in db.rows
    ensures var row := db.rows[c];
            HasEntitlement(db, c, now) <==>
              row.enabled
              && (row.source == Manual || row.subscription == None
                  || (row.subscription.value in db.subs
                      && var sub := db.subs[row.subscription.value];
                         sub.status == Active || sub.status == Trialing
                         || (sub.grace != None && now < sub.grace.value)))
  {
  }

  /** A row of a recompute: enabled exactly by a live subscription, and with nothing used lost. */
  lemma RecomputedRow(db: Db, tenant: Id, order: seq<Id>, now: int, c: Cell)
    requires forall i :: 0 <= i < |order| ==> order[i] in db.subs
    requires c in Recomputed(db.rows, tenant, Granted(db, order, now))
    ensures var row := Recomputed(db.rows, tenant, Granted(db, order, now))[c];
            && (c.tenant != tenant ==> c in db.rows && row == db.rows[c])
            && row.used == (if c in db.rows then db.rows[c].used else 0)
            && (c.tenant == tenant ==>
                  (row.enabled <==>
                     exists i :: 0 <= i < |order| && Live(db.subs[order[i]], now)
                                 && (c.feature in PlanOf(db, order[i]).features
                                     || c.feature in PlanOf(db, order[i]).limits)))
            && (c.tenant == tenant && !row.enabled ==> c in db.rows && row == db.rows[c].(enabled := false))
            && (c.tenant == tenant && row.enabled ==>
                  row.source == FromSubscription && c.feature in Granted(db, order, now)
                  && row.limit == Granted(db, order, now)[c.feature].limit
                  && exists i :: 0 <= i < |order| && row.subscription == Some(order[i])
                                 && row.plan == Some(db.subs[order[i]].plan))
  {
    hide Granted;
    GrantedKeys(db, order, now, c.feature);
  }

  // ----- what a recompute grants

  /** The granted keys are the union over the live subscriptions, and each names its last live carrier in the list. */
  lemma {:induction false} GrantedKeys(db: Db, order: seq<Id>, now: int, k: Id)
    requires forall i :: 0 <= i < |order| ==> order[i] in db.subs
    ensures k in Granted(db, order, now) <==>
            exists i :: 0 <= i < |order| && Live(db.subs[order[i]], now) && Carries(db, order[i], k)
    ensures k in Granted(db, order, now) ==>
            exists i :: 0 <= i < |order| && IsLastCarrier(db, order, now, k, i)
                        && Granted(db, order, now)[k].subscription == order[i]
                        && Granted(db, order, now)[k].plan == db.subs[order[i]].plan
    decreases |order|
  {
    if order != [] {
      var n := |order| - 1;
      GrantedKeys(db, order[..n], now, k);
      var last := order[n];
      if Live(db.subs[last], now) && Carries(db, last, k) {
        assert IsLastCarrier(db, order, now, k, n);
      } else if k in Granted(db, order[..n], now) {
        var i :| 0 <= i < n && IsLastCarrier(db, order[..n], now, k, i)
                 && Granted(db, order[..n], now)[k].subscription == order[i]
                 && Granted(db, order[..n], now)[k].plan == db.subs[order[i]].plan;
        assert IsLastCarrier(db, order, now, k, i);
      }
    }
  }

  ghost predicate IsLastCarrier(db: Db, order: seq<Id>, now: int, k: Id, i: int)
    requires 0 <= i < |order| && forall j :: 0 <= j < |order| ==> order[j] in db.subs
  {
    Live(db.subs[order[i]], now) && Carries(db, order[i], k)
    && forall j :: i < j < |order| && Live(db.subs[order[j]], now) ==> !Carries(db, order[j], k)
  }

  /** With an answer of the query, the granted keys are exactly what the tenant's live subscriptions carry. */
  ghost predicate Grantable(db: Db, c: Cell, now: int) {
    exists s :: LiveOf(db, c.tenant, s, now) && Carries(db, s, c.feature)
  }

  lemma GrantsAreTheUnion(db: Db, c: Cell, queried: int, now: int, order: seq<Id>)
    requires queried <= now && Answers(db, c.tenant, queried, order)
    ensures c.feature in Granted(db, order, now) <==> Grantable(db, c, now)
  {
    GrantedKeys(db, order, now, c.feature);
    if s :| LiveOf(db, c.tenant, s, now) && Carries(db, s, c.feature) {
      assert LiveOf(db, c.tenant, s, queried);
      var i :| 0 <= i < |order| && order[i] == s;
    }
  }

  // ----- limits

  predicate Limits(db: Db, s: Id, k: Id, now: int) {
    s in db.subs && Live(db.subs[s], now) && k in PlanOf(db, s).limits
  }

  predicate Features(db: Db, s: Id, k: Id, now: int) {
    s in db.subs && Live(db.subs[s], now) && k in PlanOf(db, s).features
  }

  /** `v` is the maximum, with zero, of the limits of the live subscriptions in the list. */
  ghost predicate IsMaximum(db: Db, order: seq<Id>, now: int, k: Id, v: int)
    requires forall i :: 0 <= i < |order| ==> order[i] in db.subs
  {
    && v >= 0
    && (forall i :: 0 <= i < |order| && Limits(db, order[i], k, now) ==> PlanOf(db, order[i]).limits[k] <= v)
    && (v == 0 || exists i :: 0 <= i < |order| && Limits(db, order[i], k, now) && PlanOf(db, order[i]).limits[k] == v)
  }

  /** Some subscription limits `k` to `v` and none after it in the list has `k` as a plain feature. */
  ghost predicate Survives(db: Db, order: seq<Id>, now: int, k: Id, v: int)
    requires forall i :: 0 <= i < |order| ==> order[i] in db.subs
  {
    exists j :: 0 <= j < |order| && SurvivesAt(db, order, now, k, v, j)
  }

  ghost predicate SurvivesAt(db: Db, order: seq<Id>, now: int, k: Id, v: int, j: int)
    requires 0 <= j < |order| && forall i :: 0 <= i < |order| ==> order[i] in db.subs
  {
    Limits(db, order[j], k, now) && Max(0, PlanOf(db, order[j]).limits[k]) == v
    && forall i :: j < i < |order| ==> !Features(db, order[i], k, now)
  }

  /** What is granted as a limit is one that survives, and the largest of those. */
  ghost predicate GrantsBest(db: Db, order: seq<Id>, now: int, k: Id)
    requires forall i :: 0 <= i < |order| ==> order[i] in db.subs
  {
    var g := Granted(db, order, now);
    && (forall v :: Survives(db, order, now, k, v) ==> k in g && g[k].limit.Some? && v <= g[k].limit.value)
    && (k in g && g[k].limit.Some? ==> Survives(db, order, now, k, g[k].limit.value))
  }

  lemma {:induction false} LimitIsTheLastMaximum(db: Db, order: seq<Id>, now: int, k: Id)
    requires forall i :: 0 <= i < |order| ==> order[i] in db.subs
    ensures GrantsBest(db, order, now, k)
    decreases |order|
  {
    if order != [] {
      var prefix := order[..|order| - 1];
      LimitIsTheLastMaximum(db, prefix, now, k);
      var g := Granted(db, order, now);
      forall v | Survives(db, order, now, k, v) ensures k in g && g[k].limit.Some? && v <= g[k].limit.value {
        SurvivesNext(db, order, now, k, v);
      }
      if k in g && g[k].limit.Some? {
        SurvivesNext(db, order, now, k, g[k].limit.value);
      }
    }
  }

  /** How one more subscription changes which limits survive. */
  lemma SurvivesNext(db: Db, order: seq<Id>, now: int, k: Id, v: int)
    requires order != [] && forall i :: 0 <= i < |order| ==> order[i] in db.subs
    ensures var last := order[|order| - 1];
            Survives(db, order, now, k, v) <==>
              (Limits(db, last, k, now) && Max(0, PlanOf(db, last).limits[k]) == v)
              || (!Features(db, last, k, now) && Survives(db, order[..|order| - 1], now, k, v))
  {
    var n := |order| - 1;
    var prefix := order[..n];
    if j :| 0 <= j < |order| && SurvivesAt(db, order, now, k, v, j) {
      if j < n { assert SurvivesAt(db, prefix, now, k, v, j); }
    }
    if Limits(db, order[n], k, now) && Max(0, PlanOf(db, order[n]).limits[k]) == v {
      assert SurvivesAt(db, order, now, k, v, n);
    }
    if !Features(db, order[n], k, now) {
      if j :| 0 <= j < n && SurvivesAt(db, prefix, now, k, v, j) {
        assert SurvivesAt(db, order, now, k, v, j);
      }
    }
  }

  /**
   The granted limit of a key is the maximum over the live subscriptions exactly when a subscription with that maximum
   has no subscription after it in the list, that is no less recently updated one, with the key as a plain feature.
   */
  lemma LimitIsMaximumUnlessOverwritten(db: Db, order: seq<Id>, now: int, k: Id, most: int)
    requires forall i :: 0 <= i < |order| ==> order[i] in db.subs
    requires IsMaximum(db, order, now, k, most)
    ensures var g := Granted(db, order, now);
            (k in g && g[k].limit == Some(most)) <==> Survives(db, order, now, k, most)
  {
    LimitIsTheLastMaximum(db, order, now, k);
    var g := Granted(db, order, now);
    if k in g && g[k].limit.Some? && Survives(db, order, now, k, most) {
      var j :| 0 <= j < |order| && SurvivesAt(db, order, now, k, g[k].limit.value, j);
      assert PlanOf(db, order[j]).limits[k] <= most;
    }
  }

  /** No live subscription has as a feature what some live subscription limits. */
  ghost predicate Disjoint(db: Db, order: seq<Id>, now: int) {
    forall s, t, k :: s in order && t in order && Features(db, s, k, now) ==> !Limits(db, t, k, now)
  }

  /** When feature keys and limit keys are disjoint, the order of the subscriptions does not matter for any limit. */
  lemma DisjointKeysIgnoreTheOrder(db: Db, a: seq<Id>, b: seq<Id>, now: int, k: Id)
    requires forall i :: 0 <= i < |a| ==> a[i] in db.subs
    requires forall i :: 0 <= i < |b| ==> b[i] in db.subs
    requires forall s :: s in a <==> s in b
    requires Disjoint(db, a, now)
    ensures k in Granted(db, a, now) <==> k in Granted(db, b, now)
    ensures k in Granted(db, a, now) ==> Granted(db, a, now)[k].limit == Granted(db, b, now)[k].limit
  {
    hide Granted;
    if k in Granted(db, a, now) { SameKeys(db, a, b, now, k); }
    if k in Granted(db, b, now) { SameKeys(db, b, a, now, k); }
    LimitIsTheLastMaximum(db, a, now, k);
    LimitIsTheLastMaximum(db, b, now, k);
    forall v ensures Survives(db, a, now, k, v) ==> Survives(db, b, now, k, v) {
      DisjointSurvives(db, a, b, now, k, v);
    }
    forall v ensures Survives(db, b, now, k, v) ==> Survives(db, a, now, k, v) {
      DisjointSurvives(db, b, a, now, k, v);
    }
  }

  lemma SameKeys(db: Db, a: seq<Id>, b: seq<Id>, now: int, k: Id)
    requires forall i :: 0 <= i < |a| ==> a[i] in db.subs
    requires forall i :: 0 <= i < |b| ==> b[i] in db.subs
    requires forall s :: s in a ==> s in b
    requires k in Granted(db, a, now)
    ensures k in Granted(db, b, now)
  {
    hide Granted;
    GrantedKeys(db, a, now, k);
    GrantedKeys(db, b, now, k);
    var i :| 0 <= i < |a| && Live(db.subs[a[i]], now) && Carries(db, a[i], k);
    assert a[i] in b;
  }

  lemma DisjointSurvives(db: Db, a: seq<Id>, b: seq<Id>, now: int, k: Id, v: int)
    requires forall i :: 0 <= i < |a| ==> a[i] in db.subs
    requires forall i :: 0 <= i < |b| ==> b[i] in db.subs
    requires forall s :: s in a <==> s in b
    requires Disjoint(db, a, now)
    ensures Survives(db, a, now, k, v) ==> Survives(db, b, now, k, v)
  {
    if j :| 0 <= j < |a| && SurvivesAt(db, a, now, k, v, j) {
      assert a[j] in b;
      var i :| 0 <= i < |b| && b[i] == a[j];
      assert forall l :: 0 <= l < |b| ==> b[l] in b;
      assert SurvivesAt(db, b, now, k, v, i);
    }
  }

  /** Two subscriptions of one tenant: plan 1 limits key 7 to five, plan 2 has key 7 as a plain feature. */
  function TwoPlans(updated1: int, updated2: int): Db {
    Db(
      map[1 := Plan([], map[7 := 5]), 2 := Plan([7], map[])],
      map[1 := Subscription(1, 1, Active, None, updated1), 2 := Subscription(1, 2, Active, None, updated2)],
      map[])
  }

  /** Two subscriptions that were updated at the same time come in either order. */
  lemma TiesFallEitherWay()
    ensures Answers(TwoPlans(10, 10), 1, 0, [1, 2]) && Answers(TwoPlans(10, 10), 1, 0, [2, 1])
    ensures !Answers(TwoPlans(10, 20), 1, 0, [1, 2]) && !Answers(TwoPlans(20, 10), 1, 0, [2, 1])
  {
    assert 1 in [1, 2] && 2 in [1, 2] && 1 in [2, 1] && 2 in [2, 1];
    assert [1, 2][0] == 1 && [1, 2][1] == 2 && [2, 1][0] == 2 && [2, 1][1] == 1;
  }

  /** The limit is lost when the subscription with the plain feature is the less recently updated one. */
  lemma FeatureErasesLimit()
    ensures Answers(TwoPlans(20, 10), 1, 0, [1, 2])
    ensures 7 in Granted(TwoPlans(20, 10), [1, 2], 0) && Granted(TwoPlans(20, 10), [1, 2], 0)[7].limit == None
  {
    assert 1 in [1, 2] && 2 in [1, 2];
    assert [1, 2][..1] == [1];
  }

  /** It stays when that one is the more recently updated. */
  lemma LimitStaysOnTop()
    ensures Answers(TwoPlans(10, 20), 1, 0, [2, 1])
    ensures 7 in Granted(TwoPlans(10, 20), [2, 1], 0) && Granted(TwoPlans(10, 20), [2, 1], 0)[7].limit == Some(5)
  {
    assert 1 in [2, 1] && 2 in [2, 1];
    assert [2, 1][..1] == [2];
  }
}
