/** The entitlement functions as the billing service runs them on its tables. */
module EntitlementService {
  import opened Basics
  import opened Entitlements
  import EntitlementRuns

  lemma ApplyFeature(before: map<Id, Grant>, s: Id, planId: Id, features: seq<Id>, f: Id)
    ensures Apply(before, s, planId, Plan(features + [f], map[]))
            == Apply(before, s, planId, Plan(features, map[]))[f := Grant(None, planId, s)]
  {
  }

  lemma ApplyLimit(before: map<Id, Grant>, s: Id, planId: Id, features: seq<Id>, limits: map<Id, int>, k: Id, v: int)
    requires k !in limits
    ensures var next := Apply(before, s, planId, Plan(features, limits));
            Apply(before, s, planId, Plan(features, limits[k := v]))
            == next[k := Grant(Some(Max(LimitBefore(next, k), v)), planId, s)]
  {
  }

  lemma NothingToApply(before: map<Id, Grant>, s: Id, planId: Id)
    ensures Apply(before, s, planId, Plan([], map[])) == before
  {
  }

  lemma NothingGranted(rows: map<Cell, Row>, tenant: Id)
    ensures Recomputed(rows, tenant, map[]) == map c | c in rows ::
              if c.tenant == tenant then rows[c].(enabled := false) else rows[c]
  {
  }

  lemma RecomputedOne(rows: map<Cell, Row>, tenant: Id, grants: map<Id, Grant>, k: Id, grant: Grant)
    requires k !in grants
    ensures var next := Recomputed(rows, tenant, grants);
            Recomputed(rows, tenant, grants[k := grant])
            == next[Cell(tenant, k) := GrantedRow(next, Cell(tenant, k), grant)]
  {
    var next, after := Recomputed(rows, tenant, grants), Recomputed(rows, tenant, grants[k := grant]);
    var put := next[Cell(tenant, k) := GrantedRow(next, Cell(tenant, k), grant)];
    forall c: Cell ensures c in after <==> c in put {}
    forall c: Cell | c in after ensures after[c] == put[c] {}
  }

  class Tables {
    const plans: map<Id, Plan>
    var subs: map<Id, Subscription>
    var rows: map<Cell, Row>

    function State(): Db
      reads this
    {
      Db(plans, subs, rows)
    }

    constructor (plans: map<Id, Plan>)
      ensures State() == EntitlementRuns.Start(plans).db
    {
      this.plans := plans;
      subs, rows := map[], map[];
    }

    /** The loop over the query's answer: one grant per key, in a map that later subscriptions overwrite. */
    method CollectGrants(order: seq<Id>, now: int) returns (next: map<Id, Grant>)
      requires forall i :: 0 <= i < |order| ==> order[i] in subs
      ensures next == Granted(State(), order, now)
    {
      next := map[];
      for i := 0 to |order|
        invariant next == Granted(State(), order[..i], now)
      {
        var s := order[i];
        assert order[..i + 1][..i] == order[..i];
        if !Live(subs[s], now) {
          continue;
        }
        var planId := subs[s].plan;
        var plan := if planId in plans then plans[planId] else Plan([], map[]);
        next := AddPlan(next, s, planId, plan);
      }
      assert order[..|order|] == order;
    }

    /** One subscription: its features, each replacing what is there, then its limits in any order. */
    method AddPlan(before: map<Id, Grant>, s: Id, planId: Id, plan: Plan) returns (next: map<Id, Grant>)
      ensures next == Apply(before, s, planId, plan)
    {
      hide Apply;
      next := before;
      NothingToApply(before, s, planId);
      for i := 0 to |plan.features|
        invariant next == Apply(before, s, planId, Plan(plan.features[..i], map[]))
      {
        ApplyFeature(before, s, planId, plan.features[..i], plan.features[i]);
        assert plan.features[..i] + [plan.features[i]] == plan.features[..i + 1];
        next := next[plan.features[i] := Grant(None, planId, s)];
      }
      assert plan.features[..|plan.features|] == plan.features;
      var unseen := plan.limits.Keys;
      ghost var seen: map<Id, int> := map[];
      while unseen != {}
        invariant unseen <= plan.limits.Keys && seen == plan.limits - unseen
        invariant next == Apply(before, s, planId, Plan(plan.features, seen))
        decreases |unseen|
      {
        NoMembers(unseen);
        var k :| k in unseen;
        ApplyLimit(before, s, planId, plan.features, seen, k, plan.limits[k]);
        var existing := if k in next && next[k].limit.Some? then next[k].limit.value else 0;
        next := next[k := Grant(Some(Max(existing, plan.limits[k])), planId, s)];
        seen := seen[k := plan.limits[k]];
        unseen := unseen - {k};
      }
      assert seen == plan.limits;
    }

    /** Disables all rows of the tenant, then inserts or updates the granted ones one by one. */
    method RecomputeEntitlements(tenant: Id, order: seq<Id>, now: int)
      requires forall i :: 0 <= i < |order| ==> order[i] in subs
      modifies this`rows
      ensures rows == Recomputed(old(rows), tenant, Granted(old(State()), order, now))
    {
      hide Granted, Recomputed;
      var next := CollectGrants(order, now);
      rows := map c | c in rows :: if c.tenant == tenant then rows[c].(enabled := false) else rows[c];
      NothingGranted(old(rows), tenant);
      var unseen := next.Keys;
      ghost var seen: map<Id, Grant> := map[];
      while unseen != {}
        invariant unseen <= next.Keys && seen == next - unseen
        invariant rows == Recomputed(old(rows), tenant, seen)
        decreases |unseen|
      {
        NoMembers(unseen);
        var k :| k in unseen;
        RecomputedOne(old(rows), tenant, seen, k, next[k]);
        var c := Cell(tenant, k);
        var used := if c in rows then rows[c].used else 0;
        rows := rows[c :=
          Row(true, FromSubscription, Some(next[k].plan), Some(next[k].subscription), next[k].limit, used)];
        seen := seen[k := next[k]];
        unseen := unseen - {k};
      }
      assert seen == next;
    }

    /** A subscription event; `false` is the tenant-scope error, after which nothing has changed. */
    method UpsertSubscriptionFromEvent(e: EntitlementRuns.Step) returns (ok: bool)
      requires e.Event?
      requires (e.sub in subs ==> subs[e.sub].tenant == e.tenant) ==> EntitlementRuns.Answered(State(), e)
      modifies this`subs, this`rows
      ensures ok <==> (e.sub in old(subs) ==> old(subs)[e.sub].tenant == e.tenant)
      ensures !ok ==> State() == old(State())
      ensures ok ==>
                && e.sub in subs && subs - {e.sub} == old(subs) - {e.sub}
                && subs[e.sub].tenant == e.tenant && subs[e.sub].plan == e.plan && subs[e.sub].status == e.status
                && subs[e.sub].updatedAt == e.at
                && subs[e.sub].grace
                   == if e.status != PastDue then e.deadline
                      else if e.sub in old(subs) && old(subs)[e.sub].grace != None then old(subs)[e.sub].grace
                      else if e.deadline != None || e.graceDays <= 0 then e.deadline
                      else Some(e.at + e.graceDays * 86_400_000)
      ensures forall computed :: EntitlementRuns.Next(EntitlementRuns.Sys(old(State()), computed), e).db == State()
    {
      hide Granted, Recomputed, Live;
      if e.sub in subs && subs[e.sub].tenant != e.tenant {
        return false;
      }
      var grace := e.deadline;
      if e.status.PastDue? {
        if e.sub in subs && subs[e.sub].grace.Some? {
          grace := subs[e.sub].grace;
        } else if grace.None? && e.graceDays > 0 {
          grace := Some(e.at + e.graceDays * EntitlementRuns.DAY);
        }
      }
      subs := subs[e.sub := Subscription(e.tenant, e.plan, e.status, grace, e.at)];
      RecomputeEntitlements(e.tenant, e.order, e.now);
      ok := true;
    }
  }
}
