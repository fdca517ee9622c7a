/** The refund transactions as the billing service runs them on its tables. */
module RefundService {
  import opened Basics
  import opened Sums
  import opened Refunds

  /** The active amounts of the refunds linked to invoice `id`, as the query reads them after linking. */
  ghost function Summands(refunds: map<Id, Refund>, id: Id): map<Id, int> {
    map r | r in refunds && refunds[r].invoice == Some(id) :: if Active(refunds[r].status) then refunds[r].amount else 0
  }

  lemma LinkingFirstCountsTheSame(db: Db, id: Id)
    ensures Summands(LinkSet(db, id, Linkables(db, id)).refunds, id) == Refundeds(db, id)
  {
    var linked := LinkSet(db, id, Linkables(db, id)).refunds;
    forall r: Id ensures r in Summands(linked, id) <==> r in Refundeds(db, id) {
      assert r in db.refunds ==> (linked[r].invoice == Some(id) <==> Counts(db, id, r));
    }
    forall r | r in Refundeds(db, id) ensures Summands(linked, id)[r] == Refundeds(db, id)[r] {
      assert linked[r].status == db.refunds[r].status && linked[r].amount == db.refunds[r].amount;
    }
  }

  /** A stored refund is linked to the invoice, or has its payment and tenant and no invoice yet. */
  predicate Concerns(db: Db, id: Id, r: Id) {
    r in db.refunds
    && (db.refunds[r].invoice == Some(id)
        || (db.refunds[r].invoice.None? && id in db.invoices && db.invoices[id].payment.Some?
            && db.refunds[r].payment == db.invoices[id].payment && db.refunds[r].tenant == db.invoices[id].tenant))
  }

  /** What invoice `id`'s refunds take from its balance: linked or linkable ones that are pending or have succeeded. */
  ghost function Taken(db: Db, id: Id): map<Id, int> {
    map r | r in db.refunds && Concerns(db, id, r)
            && (db.refunds[r].status == Pending || db.refunds[r].status == Succeeded)
      :: db.refunds[r].amount
  }

  lemma TakenIsRefunded(db: Db, id: Id)
    ensures Sum(Taken(db, id)) == Refunded(db, id)
  {
    var taken, all := Taken(db, id), Refundeds(db, id);
    var over := map r | r in all && r !in taken :: 0;
    forall r: Id ensures r in all <==> r in taken || r in over {}
    forall r | r in all ensures all[r] == if r in taken then taken[r] else over[r] {}
    SumParts(all, taken, over);
    SumOfZeros(over);
  }

  lemma TakenWithout(db: Db, id: Id, r: Id)
    ensures Taken(db.(refunds := db.refunds - {r}), id) == Taken(db, id) - {r}
  {
  }

  /** A failed or canceled refund leaves every balance as it is, and any other takes its amount from its invoice's. */
  lemma OnlyFailedAndCanceledTakeNothing(db: Db, id: Id, r: Id)
    requires r in db.refunds && Counts(db, id, r)
    ensures var without := db.(refunds := db.refunds - {r});
            && (db.refunds[r].status == Failed || db.refunds[r].status == Canceled ==>
                  Refunded(db, id) == Refunded(without, id))
            && (db.refunds[r].status == Pending || db.refunds[r].status == Succeeded ==>
                  Refunded(db, id) == Refunded(without, id) + db.refunds[r].amount)
  {
    var without := db.(refunds := db.refunds - {r});
    TakenIsRefunded(db, id);
    TakenIsRefunded(without, id);
    ConcernedIsCounted(db, id);
    TakenWithout(db, id, r);
    hide Concerns, Counts, Refunded;
    if r in Taken(db, id) {
      SumSplit(Taken(db, id), r);
    } else {
      assert Taken(db, id) - {r} == Taken(db, id);
    }
  }

  /** What each answer of the checks means for the rows. */
  lemma VerdictMeans(db: Db, id: Id, amount: Option<int>, key: Id, verdict: Verdict)
    requires verdict == Check(db, id, amount, key)
    ensures verdict.MayRefund? ==>
              && id in db.invoices && db.invoices[id].payment.Some?
              && 1 <= verdict.amount && verdict.amount + Sum(Taken(db, id)) <= db.invoices[id].paid
              && verdict.amount
                 == if amount.Some? then amount.value else db.invoices[id].paid - Sum(Taken(db, id))
    ensures verdict.NotFound? <==> id !in db.invoices
    ensures verdict.AmbiguousPayment? <==>
              id in db.invoices && db.invoices[id].payment.Some?
              && exists j :: j in db.invoices && j != id && db.invoices[j].payment == db.invoices[id].payment
    ensures id in db.invoices && !verdict.AmbiguousPayment? ==>
              (verdict.Existing? <==>
                 exists r :: r in db.refunds && db.refunds[r].key == Some(key) && Concerns(db, id, r))
    ensures verdict.NoPayment? ==> db.invoices[id].payment.None?
    ensures id in db.invoices && db.invoices[id].payment.None? ==> verdict.Existing? || verdict.NoPayment?
    ensures verdict.InvalidAmount? && amount.Some? && amount.value >= 1 ==>
              id in db.invoices && amount.value + Sum(Taken(db, id)) > db.invoices[id].paid
    ensures verdict.InvalidAmount? && amount.None? ==>
              id in db.invoices && Sum(Taken(db, id)) >= db.invoices[id].paid
  {
    TakenIsRefunded(db, id);
    ExistingMeans(db, id, key);
    hide Refunded, Taken, Concerns, Counts;
    ConcernedIsCounted(db, id);
  }

  lemma ExistingMeans(db: Db, id: Id, key: Id)
    ensures (exists r :: Counts(db, id, r) && db.refunds[r].key == Some(key))
            <==> exists r :: r in db.refunds && db.refunds[r].key == Some(key) && Concerns(db, id, r)
  {
    if r :| Counts(db, id, r) && db.refunds[r].key == Some(key) {
      assert Concerns(db, id, r);
    }
    if r :| r in db.refunds && db.refunds[r].key == Some(key) && Concerns(db, id, r) {
      assert Counts(db, id, r);
    }
  }

  lemma ConcernedIsCounted(db: Db, id: Id)
    ensures forall r: Id :: Concerns(db, id, r) == Counts(db, id, r)
  {
  }

  /** The provider's refund, new or the one an earlier request with this key got. */
  datatype Answer = Answer(refund: Id, amount: int, status: Status)

  lemma AskedAndStored(s: Sys, id: Id, amount: Option<int>, key: Id, answer: Answer)
    requires Check(s.db, id, amount, key) == MayRefund(answer.amount)
    requires answer.refund in s.grants ==> s.grants[answer.refund].amount == answer.amount
    ensures id in s.db.invoices && s.db.invoices[id].payment.Some?
    ensures var invoice := s.db.invoices[id];
            Run(s, [Ask(id, amount, key, answer.refund, answer.status), Store(id)]).db
            == StoreRefund(s.db, id, Request(answer.refund, Linkables(s.db, id), answer.status),
                           Grant(id, invoice.payment.value, invoice.tenant, answer.amount, Some(key), false))
  {
    hide StoreRefund, Linkables, Refundable;
    var ask, store := Ask(id, amount, key, answer.refund, answer.status), Store(id);
    assert id in s.db.invoices && s.db.invoices[id].payment.Some?;
    var asked := Next(s, ask);
    assert asked.requests[id] == Request(answer.refund, Linkables(s.db, id), answer.status) && asked.db == s.db;
    assert Next(asked, store).db == StoreRefund(s.db, id, asked.requests[id], asked.grants[answer.refund]);
    hide Check, Next;
    assert [ask, store][1..] == [store] && [store][1..] == [];
    assert Run(asked, [store]) == Next(asked, store);
  }

  class Tables {
    var invoices: map<Id, Invoice>
    var refunds: map<Id, Refund>

    function State(): Db
      reads this
    {
      Db(invoices, refunds)
    }

    constructor ()
      ensures State() == Db(map[], map[])
    {
      invoices, refunds := map[], map[];
    }

    /** The `sum(amount_minor)` query. */
    method SumRefunds(id: Id) returns (total: int)
      ensures total == Sum(Summands(refunds, id))
    {
      total := 0;
      var unseen: set<Id> := refunds.Keys;
      ghost var summands := Summands(refunds, id);
      ghost var counted: map<Id, int> := map[];
      while unseen != {}
        invariant unseen <= refunds.Keys
        invariant counted == map r | r in summands && r !in unseen :: summands[r]
        invariant total == Sum(counted)
        decreases |unseen|
      {
        HasMember(unseen);
        var r :| r in unseen;
        if refunds[r].invoice == Some(id) {
          var amount := if Active(refunds[r].status) then refunds[r].amount else 0;
          SumPut(counted, r, amount);
          counted := counted[r := amount];
          total := total + amount;
        }
        unseen := unseen - {r};
      }
      assert counted == summands;
    }

    method RunChecks(id: Id, amount: Option<int>, key: Id) returns (verdict: Verdict)
      modifies this`refunds
      ensures verdict == Check(old(State()), id, amount, key)
      ensures State() == if verdict.Existing? then LinkSet(old(State()), id, Linkables(old(State()), id))
              else old(State())
    {
      if id !in invoices {
        return NotFound;
      }
      var invoice := invoices[id];
      var saved := refunds;
      if invoice.payment.Some? {
        if exists j :: j in invoices && invoices[j].payment == invoice.payment && j != id {
          return AmbiguousPayment;
        }
      }
      var linked := LinkSet(State(), id, Linkables(State(), id));
      refunds := linked.refunds;
      LinkingFirstCountsTheSame(old(State()), id);
      KeyFoundAfterLinking(old(State()), id, key);
      if exists r :: r in refunds && refunds[r].invoice == Some(id) && refunds[r].key == Some(key) {
        return Existing;
      }
      if invoice.payment.None? {
        refunds := saved;
        return NoPayment;
      }
      var total := SumRefunds(id);
      refunds := saved;
      var refundable := if invoice.paid > total then invoice.paid - total else 0;
      var asked := if amount.Some? then amount.value else refundable;
      if asked < 1 || asked > refundable {
        return InvalidAmount;
      }
      return MayRefund(asked);
    }

    /**
     The first half of a request, up to the provider call: link what was stored without an invoice, look for the
     idempotency key, then compare the amount with the balance.  On an error the linking is rolled back; otherwise it
     stays uncommitted until the request is stored, except that an existing refund commits it.
     */
    method CheckRequest(id: Id, amount: Option<int>, key: Id) returns (verdict: Verdict)
      modifies this`refunds
      ensures verdict == Check(old(State()), id, amount, key)
      ensures verdict.MayRefund? ==>
                && id in invoices && invoices[id].payment.Some?
                && 1 <= verdict.amount && verdict.amount + Sum(Taken(old(State()), id)) <= invoices[id].paid
                && verdict.amount
                   == if amount.Some? then amount.value else invoices[id].paid - Sum(Taken(old(State()), id))
      ensures verdict.NotFound? <==> id !in invoices
      ensures verdict.AmbiguousPayment? <==>
                id in invoices && invoices[id].payment.Some?
                && exists j :: j in invoices && j != id && invoices[j].payment == invoices[id].payment
      ensures id in invoices && !verdict.AmbiguousPayment? ==>
                (verdict.Existing? <==>
                   exists r :: r in old(refunds) && old(refunds)[r].key == Some(key) && Concerns(old(State()), id, r))
      ensures verdict.NoPayment? ==> invoices[id].payment.None?
      ensures id in invoices && invoices[id].payment.None? ==> verdict.Existing? || verdict.NoPayment?
      ensures verdict.InvalidAmount? && amount.Some? && amount.value >= 1 ==>
                id in invoices && amount.value + Sum(Taken(old(State()), id)) > invoices[id].paid
      ensures verdict.InvalidAmount? && amount.None? ==>
                id in invoices && Sum(Taken(old(State()), id)) >= invoices[id].paid
      ensures State() == if verdict.Existing? then LinkSet(old(State()), id, Linkables(old(State()), id))
              else old(State())
    {
      hide Check, Taken, Concerns, LinkSet, Linkables;
      ghost var db := State();
      verdict := RunChecks(id, amount, key);
      VerdictMeans(db, id, amount, key, verdict);
    }

    /** The second half: the links of the first half, then the insert that keeps a row an event stored meanwhile. */
    method StoreRequest(id: Id, request: Request, grant: Grant)
      requires id in invoices
      modifies this`refunds
      ensures State() == StoreRefund(old(State()), id, request, grant)
    {
      refunds := LinkSet(State(), id, request.linked).refunds;
      if request.refund in refunds {
        var row := refunds[request.refund];
        row := row.(invoice := OrElse(row.invoice, Some(id)), payment := OrElse(row.payment, Some(grant.payment)));
        row := row.(status := request.status, key := grant.key);
        refunds := refunds[request.refund := row];
      } else {
        refunds := refunds[request.refund :=
          Refund(invoices[id].tenant, Some(id), Some(grant.payment), grant.amount, request.status, grant.key)];
      }
    }

    /**
     A request nothing interrupts, with the provider's answer; `None` is a call that throws.  The tables are those after
     the protocol's `Ask` and `Store` when the answer is the amount asked for, and otherwise as the check left them.
     */
    method RequestRefund(id: Id, amount: Option<int>, key: Id, answer: Option<Answer>, ghost s: Sys)
      returns (verdict: Verdict, stored: bool)
      requires s.db == State() && id !in s.requests
      requires answer.Some? && answer.value.refund in s.grants ==>
                 s.grants[answer.value.refund].amount == answer.value.amount
      modifies this`refunds
      ensures verdict == Check(s.db, id, amount, key)
      ensures verdict.MayRefund? ==>
                id in invoices && 1 <= verdict.amount && verdict.amount + Sum(Taken(s.db, id)) <= invoices[id].paid
      ensures stored ==>
                id in invoices && answer.Some? && answer.value.refund in refunds
                && var row, had := refunds[answer.value.refund], answer.value.refund in s.db.refunds;
                   && row.invoice.Some? && row.payment.Some?
                   && row.status == answer.value.status && row.key == Some(key)
                   && (!had ==> row.invoice == Some(id) && row.payment == invoices[id].payment
                                && row.amount == answer.value.amount && row.tenant == invoices[id].tenant)
      ensures forall r :: r in s.db.refunds ==>
                && r in refunds && refunds[r].amount == s.db.refunds[r].amount
                && refunds[r].tenant == s.db.refunds[r].tenant
      ensures stored <==> verdict.MayRefund? && answer.Some? && answer.value.amount == verdict.amount
      ensures stored ==>
                State() == Run(s, [Ask(id, amount, key, answer.value.refund, answer.value.status), Store(id)]).db
      ensures !stored ==> State() == if verdict.Existing? then LinkSet(s.db, id, Linkables(s.db, id)) else s.db
    {
      hide Check, Taken, Concerns;
      verdict := CheckRequest(id, amount, key);
      stored := verdict.MayRefund? && answer.Some? && answer.value.amount == verdict.amount;
      if stored {
        var payment := invoices[id].payment.value;
        var request := Request(answer.value.refund, Linkables(State(), id), answer.value.status);
        var grant := Grant(id, payment, invoices[id].tenant, answer.value.amount, Some(key), false);
        StoreRequest(id, request, grant);
        AskedAndStored(s, id, amount, key, answer.value);
      }
    }

    /** The invoice lookups of an event, in their order. */
    method ResolveInvoice(e: Event) returns (invoice: Option<Id>)
      ensures Resolves(State(), e, invoice)
      ensures e.invoice.Some? && e.invoice.value in invoices ==> invoice == e.invoice
      ensures var own := e.invoice.Some? && e.invoice.value in invoices;
              var stored := e.refund in refunds && refunds[e.refund].invoice.Some?
                            && refunds[e.refund].invoice.value in invoices;
              && (!own && stored ==> invoice == refunds[e.refund].invoice)
              && (!own && !stored ==>
                    forall id :: invoice == Some(id) <==>
                      e.payment.Some? && id in invoices && invoices[id].payment == e.payment
                      && forall j :: j in invoices && invoices[j].payment == e.payment ==> j == id)
    {
      if e.invoice.Some? && e.invoice.value in invoices {
        return e.invoice;
      }
      if e.refund in refunds && refunds[e.refund].invoice.Some? && refunds[e.refund].invoice.value in invoices {
        return refunds[e.refund].invoice;
      }
      invoice := None;
      if e.payment.Some? {
        if id :| id in invoices && OnlyInvoiceOf(State(), e.payment.value, id) {
          invoice := Some(id);
        }
      }
    }

    /** Stores an event's refund, or rejects it when its tenants are missing or differ. */
    method ReceiveEvent(e: Event) returns (invoice: Option<Id>, tenant: Option<Id>)
      modifies this`refunds
      ensures Resolves(old(State()), e, invoice)
      ensures tenant.Some? ==>
        TenantScope(old(State()), e, invoice, tenant.value)
        && State() == UpsertRefund(old(State()), e, invoice, tenant.value)
      ensures tenant.None? ==> State() == old(State()) && forall t :: !TenantScope(old(State()), e, invoice, t)
      ensures var known := invoice.Some? && invoice.value in invoices;
              && (tenant.None? <==>
                    (e.tenant.None? && !known && e.refund !in old(refunds))
                    || (e.tenant.Some? && known && invoices[invoice.value].tenant != e.tenant.value)
                    || (e.tenant.Some? && e.refund in old(refunds) && old(refunds)[e.refund].tenant != e.tenant.value)
                    || (known && e.refund in old(refunds)
                        && old(refunds)[e.refund].tenant != invoices[invoice.value].tenant))
              && (tenant.None? ==> refunds == old(refunds))
      ensures tenant.Some? ==>
        && refunds.Keys == old(refunds).Keys + {e.refund}
        && (forall r :: r in old(refunds) && r != e.refund ==> refunds[r] == old(refunds)[r])
        && var row := refunds[e.refund];
           && row.amount == e.amount && row.status == e.status && row.tenant == tenant.value
           && (e.refund !in old(refunds) ==> row.invoice == invoice && row.payment == e.payment && row.key == e.key)
           && (e.refund in old(refunds) ==>
                 var was := old(refunds)[e.refund];
                 && row.invoice == (if was.invoice.Some? then was.invoice else invoice)
                 && row.payment == (if was.payment.Some? then was.payment else e.payment)
                 && row.key == (if e.key.Some? then e.key else was.key))
    {
      invoice := ResolveInvoice(e);
      var known := invoice.Some? && invoice.value in invoices;
      tenant := if e.tenant.Some? then e.tenant
                else if known then Some(invoices[invoice.value].tenant)
                else if e.refund in refunds then Some(refunds[e.refund].tenant)
                else None;
      if tenant.None? || (known && invoices[invoice.value].tenant != tenant.value)
         || (e.refund in refunds && refunds[e.refund].tenant != tenant.value)
      {
        tenant := None;
        return;
      }
      var row := Refund(tenant.value, invoice, e.payment, e.amount, e.status, e.key);
      if e.refund in refunds {
        var stored := refunds[e.refund];
        row := stored.(invoice := OrElse(stored.invoice, invoice), payment := OrElse(stored.payment, e.payment));
        row := row.(amount := e.amount, status := e.status, key := OrElse(e.key, row.key));
      }
      refunds := refunds[e.refund := row];
    }
  }

  /** Linking gives the invoice to exactly the unlinked refunds among `linked`, and changes nothing else of any row. */
  lemma LinkedRows(db: Db, id: Id, linked: set<Id>, r: Id)
    ensures LinkSet(db, id, linked).invoices == db.invoices && LinkSet(db, id, linked).refunds.Keys == db.refunds.Keys
    ensures r in db.refunds ==>
              LinkSet(db, id, linked).refunds[r]
              == if r in linked && db.refunds[r].invoice.None? then db.refunds[r].(invoice := Some(id))
                 else db.refunds[r]
    ensures r in Linkables(db, id) <==> Concerns(db, id, r) && db.refunds[r].invoice.None?
  {
  }

  /** Storing a request links its rows; the row an event stored meanwhile keeps what it has and gets the rest. */
  lemma StoredRows(db: Db, id: Id, request: Request, grant: Grant, r: Id)
    requires r in db.refunds && id in db.invoices
    ensures var after, was := StoreRefund(db, id, request, grant), db.refunds[r];
            && after.invoices == db.invoices && after.refunds.Keys == db.refunds.Keys + {request.refund}
            && after.refunds[r].amount == was.amount && after.refunds[r].tenant == was.tenant
            && (r != request.refund ==>
                  after.refunds[r]
                  == if r in request.linked && was.invoice.None? then was.(invoice := Some(id)) else was)
            && (r == request.refund ==>
                  && after.refunds[r].invoice == (if was.invoice.Some? then was.invoice else Some(id))
                  && after.refunds[r].payment == (if was.payment.Some? then was.payment else Some(grant.payment))
                  && after.refunds[r].status == request.status && after.refunds[r].key == grant.key)
  {
  }

  /** A request under a used key only links; one that is turned down does nothing. */
  lemma TurnedDown(s: Sys, id: Id, amount: Option<int>, key: Id, refund: Id, status: Status)
    requires !Check(s.db, id, amount, key).MayRefund?
    ensures Next(s, Ask(id, amount, key, refund, status))
            == if id in s.db.invoices && Check(s.db, id, amount, key) == Existing
               then s.(db := LinkSet(s.db, id, Linkables(s.db, id))) else s
  {
    hide Linkables, LinkSet;
  }

  lemma KeyFoundAfterLinking(db: Db, id: Id, key: Id)
    ensures var linked := LinkSet(db, id, Linkables(db, id)).refunds;
            (exists r :: r in linked && linked[r].invoice == Some(id) && linked[r].key == Some(key))
            <==> (exists r :: Counts(db, id, r) && db.refunds[r].key == Some(key))
  {
    var linked := LinkSet(db, id, Linkables(db, id)).refunds;
    forall r | r in linked ensures linked[r].invoice == Some(id) <==> Counts(db, id, r) {}
    if r :| Counts(db, id, r) && db.refunds[r].key == Some(key) {
      assert r in linked && linked[r].key == Some(key);
    }
  }
}
