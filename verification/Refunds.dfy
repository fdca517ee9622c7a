/**
 Refunds of one payment provider: requests that check an invoice's balance, provider events that store or link refunds
 in between, and refunds made at the provider itself, of which only events tell.

 A request holds its invoice's row lock from the check to the commit, while it calls the provider; events do not
 take that lock.  A request is therefore two steps: `Ask` (checks and provider call) and `Store` (insert and commit),
 or `Abort` when it fails after the provider granted the refund.
 */
module Refunds {
  import opened Basics
  import opened Sums

  datatype Status = Pending | Succeeded | Failed | Canceled

  datatype Invoice = Invoice(tenant: Id, payment: Option<Id>, paid: int)
  datatype Refund = Refund(
    tenant: Id, invoice: Option<Id>, payment: Option<Id>, amount: int, status: Status, key: Option<Id>)
  /** A provider's refund event; what it does not mention is `None`. */
  datatype Event = Event(
    refund: Id, tenant: Option<Id>, invoice: Option<Id>, payment: Option<Id>, amount: int, status: Status,
    key: Option<Id>)

  datatype Db = Db(invoices: map<Id, Invoice>, refunds: map<Id, Refund>)

  predicate Active(status: Status) { !status.Failed? && !status.Canceled? }

  function OrElse(a: Option<Id>, b: Option<Id>): Option<Id> { if a.Some? then a else b }

  // ----- events

  predicate OnlyInvoiceOf(db: Db, payment: Id, id: Id) {
    id in db.invoices && db.invoices[id].payment == Some(payment)
    && forall j :: j in db.invoices && db.invoices[j].payment == Some(payment) ==> j == id
  }

  predicate Known(db: Db, invoice: Option<Id>) {
    invoice.Some? && invoice.value in db.invoices
  }

  /** The invoice an event resolves to: its own, the stored refund's, or the only one with its payment. */
  predicate Resolves(db: Db, e: Event, invoice: Option<Id>) {
    if Known(db, e.invoice) then invoice == e.invoice
    else if e.refund in db.refunds && Known(db, db.refunds[e.refund].invoice)
    then invoice == db.refunds[e.refund].invoice
    else if e.payment.Some? && invoice.Some? then OnlyInvoiceOf(db, e.payment.value, invoice.value)
    else invoice.None?
         && (e.payment.Some? ==> forall id :: id in db.invoices ==> !OnlyInvoiceOf(db, e.payment.value, id))
  }

  /**
   All tenants named by the event, its invoice and the stored refund are this one; otherwise the event is an error.
   */
  predicate TenantScope(db: Db, e: Event, invoice: Option<Id>, tenant: Id) {
    && (e.tenant.Some? ==> e.tenant.value == tenant)
    && (Known(db, invoice) ==> db.invoices[invoice.value].tenant == tenant)
    && (e.refund in db.refunds ==> db.refunds[e.refund].tenant == tenant)
    && (e.tenant.Some? || Known(db, invoice) || e.refund in db.refunds)
  }

  function UpsertRefund(db: Db, e: Event, invoice: Option<Id>, tenant: Id): Db {
    var row :=
      if e.refund !in db.refunds then Refund(tenant, invoice, e.payment, e.amount, e.status, e.key)
      else
        var row := db.refunds[e.refund];
        row.(invoice := OrElse(row.invoice, invoice), payment := OrElse(row.payment, e.payment), amount := e.amount,
             status := e.status, key := OrElse(e.key, row.key));
    db.(refunds := db.refunds[e.refund := row])
  }

  // ----- requests

  /** A refund stored without an invoice that the request's linking update gives to invoice `id`. */
  predicate Linkable(db: Db, id: Id, refund: Id) {
    id in db.invoices && refund in db.refunds && db.refunds[refund].invoice.None? && db.invoices[id].payment.Some?
    && db.refunds[refund].payment == db.invoices[id].payment && db.refunds[refund].tenant == db.invoices[id].tenant
  }

  predicate Counts(db: Db, id: Id, refund: Id) {
    refund in db.refunds && (db.refunds[refund].invoice == Some(id) || Linkable(db, id, refund))
  }

  function LinkSet(db: Db, id: Id, linked: set<Id>): Db {
    db.(refunds := map r | r in db.refunds ::
          if r in linked && db.refunds[r].invoice.None? then db.refunds[r].(invoice := Some(id)) else db.refunds[r])
  }

  function Linkables(db: Db, id: Id): set<Id> {
    set r | r in db.refunds && Linkable(db, id, r)
  }

  ghost function Refundeds(db: Db, id: Id): map<Id, int> {
    map r | r in db.refunds && Counts(db, id, r) :: if Active(db.refunds[r].status) then db.refunds[r].amount else 0
  }

  /** What the request's query sums up: the invoice's refunds, just linked ones included, not failed or canceled. */
  ghost function Refunded(db: Db, id: Id): int {
    Sum(Refundeds(db, id))
  }

  ghost function Refundable(db: Db, id: Id): int
    requires id in db.invoices
  {
    if db.invoices[id].paid > Refunded(db, id) then db.invoices[id].paid - Refunded(db, id) else 0
  }

  /** How a request's checks end, in their order. */
  datatype Verdict = NotFound | AmbiguousPayment | Existing | NoPayment | InvalidAmount | MayRefund(amount: int)

  ghost function Check(db: Db, id: Id, amount: Option<int>, key: Id): Verdict {
    if id !in db.invoices then NotFound
    else if db.invoices[id].payment.Some? && !OnlyInvoiceOf(db, db.invoices[id].payment.value, id) then AmbiguousPayment
    else if exists r :: Counts(db, id, r) && db.refunds[r].key == Some(key) then Existing
    else if db.invoices[id].payment.None? then NoPayment
    else
      var asked := if amount.Some? then amount.value else Refundable(db, id);
      if asked < 1 || asked > Refundable(db, id) then InvalidAmount else MayRefund(asked)
  }

  /** A granted refund waiting to be stored: what the check linked, and the provider's answer. */
  datatype Request = Request(refund: Id, linked: set<Id>, status: Status)

  function StoreRefund(db: Db, id: Id, request: Request, grant: Grant): Db {
    var linked := LinkSet(db, id, request.linked);
    var row :=
      if request.refund !in linked.refunds || id !in db.invoices then
        Refund(if id in db.invoices then db.invoices[id].tenant else 0, Some(id), Some(grant.payment), grant.amount,
               request.status, grant.key)
      else
        var row := linked.refunds[request.refund];
        row.(invoice := OrElse(row.invoice, Some(id)), payment := OrElse(row.payment, Some(grant.payment)),
             status := request.status, key := grant.key);
    linked.(refunds := linked.refunds[request.refund := row])
  }

  // ----- runs

  /**
   A refund as the provider knows it: the payment it takes from, and the invoice that payment is for, stored or not.
   Asked twice with one key for one invoice the provider grants once; an external one was not asked for by the service.
   */
  datatype Grant = Grant(invoice: Id, payment: Id, tenant: Id, amount: int, key: Option<Id>, external: bool)

  /** `paid` is what the provider took for each invoice so far; an invoice's row may lag behind it. */
  datatype Sys = Sys(db: Db, paid: map<Id, int>, grants: map<Id, Grant>, requests: map<Id, Request>)

  datatype Step =
    | Pay(id: Id, paid: int)
    | PutInvoice(id: Id, row: Invoice)
    | Ask(id: Id, amount: Option<int>, key: Id, refund: Id, status: Status)
    | Store(id: Id)
    | Abort(id: Id)
    | External(refund: Id, grant: Grant)
    | Receive(event: Event, invoice: Option<Id>, tenant: Id)

  function PaidFor(s: Sys, id: Id): int {
    if id in s.paid then s.paid[id] else 0
  }

  predicate Granted(s: Sys, refund: Id, id: Id) {
    refund in s.grants && s.grants[refund].invoice == id
  }

  /** The refund's request is still open: its transaction has neither committed nor failed. */
  predicate InFlight(s: Sys, refund: Id) {
    refund in s.grants && s.grants[refund].invoice in s.requests
    && s.requests[s.grants[refund].invoice].refund == refund
  }

  /** The refunded invoice is stored with its payment. */
  predicate Holds(db: Db, grant: Grant) {
    grant.invoice in db.invoices && db.invoices[grant.invoice].payment == Some(grant.payment)
  }

  /**
   What the provider and the other callers promise.  An invoice row shows no more than was taken and keeps its tenant
   and, once there, its payment; another invoice shares a refunded payment only after the refunded one.  The provider's
   ids are its own, it is idempotent, and an external refund fits what it took.
   */
  ghost predicate Allowed(s: Sys, step: Step) {
    match step
    case Pay(id, paid) => PaidFor(s, id) <= paid
    case PutInvoice(id, row) =>
      && id !in s.requests && row.paid <= PaidFor(s, id)
      && (id in s.db.invoices ==>
            s.db.invoices[id].tenant == row.tenant && (s.db.invoices[id].payment.Some? ==> row.payment.Some?))
      && forall r :: r in s.grants ==> FitsInvoice(s.db, s.grants[r], id, row)
    case Ask(id, _, key, refund, _) =>
      && id !in s.requests
      && (refund in s.grants ==>
            !s.grants[refund].external && s.grants[refund].invoice == id && s.grants[refund].key == Some(key))
      && forall r :: Granted(s, r, id) && !s.grants[r].external && s.grants[r].key == Some(key) ==> r == refund
    case Store(id) => id in s.requests
    case Abort(id) => id in s.requests
    case External(refund, grant) =>
      && refund !in s.grants && grant.external
      && 1 <= grant.amount <= PaidFor(s, grant.invoice) - Sum(Owed(s, grant.invoice))
      && forall id :: id in s.db.invoices ==> FitsInvoice(s.db, grant, id, s.db.invoices[id])
    case Receive(e, invoice, tenant) =>
      Resolves(s.db, e, invoice) && TenantScope(s.db, e, invoice, tenant) && Repeats(s, e)
  }

  /**
   The refunded invoice has the refund's tenant and no other payment; others share it only while that one holds it.
   */
  predicate FitsInvoice(db: Db, grant: Grant, id: Id, row: Invoice) {
    if id == grant.invoice then row.tenant == grant.tenant && (row.payment.None? || row.payment == Some(grant.payment))
    else row.payment == Some(grant.payment) ==> Holds(db, grant)
  }

  /**
   An event repeats what was granted and does not revive a failed or canceled refund; it may leave out any reference.
   */
  predicate Repeats(s: Sys, e: Event) {
    e.refund in s.grants
    && var grant := s.grants[e.refund];
       && e.amount == grant.amount
       && (e.invoice.None? || e.invoice == Some(grant.invoice)) && (e.payment.None? || e.payment == Some(grant.payment))
       && (e.key == grant.key || (!grant.external && e.key.None?))
       && (e.tenant.None? || e.tenant == Some(grant.tenant))
       && (e.refund in s.db.refunds && !Active(s.db.refunds[e.refund].status) ==> !Active(e.status))
  }

  ghost function Next(s: Sys, step: Step): Sys {
    match step
    case Pay(id, paid) => s.(paid := s.paid[id := paid])
    case PutInvoice(id, row) => s.(db := s.db.(invoices := s.db.invoices[id := row]))
    case Ask(id, amount, key, refund, status) =>
      (match Check(s.db, id, amount, key)
       case Existing => s.(db := LinkSet(s.db, id, Linkables(s.db, id)))
       case MayRefund(asked) =>
         if refund in s.grants && s.grants[refund].amount != asked then s
         else
           var invoice := s.db.invoices[id];
           s.(grants := s.grants[refund := Grant(id, invoice.payment.value, invoice.tenant, asked, Some(key), false)],
              requests := s.requests[id := Request(refund, Linkables(s.db, id), status)])
       case _ => s)
    case Store(id) =>
      if id in s.requests && s.requests[id].refund in s.grants
      then
        s.(db := StoreRefund(s.db, id, s.requests[id], s.grants[s.requests[id].refund]), requests := s.requests - {id})
      else s
    case Abort(id) => s.(requests := s.requests - {id})
    case External(refund, grant) => s.(grants := s.grants[refund := grant])
    case Receive(e, invoice, tenant) => s.(db := UpsertRefund(s.db, e, invoice, tenant))
  }

  ghost function Run(s: Sys, steps: seq<Step>): Sys
    decreases |steps|
  {
    if steps == [] then s else Run(Next(s, steps[0]), steps[1..])
  }

  ghost predicate AllowedRun(s: Sys, steps: seq<Step>)
    decreases |steps|
  {
    steps != [] ==> Allowed(s, steps[0]) && AllowedRun(Next(s, steps[0]), steps[1..])
  }

  // ----- what holds in every state

  /** A stored row names its refund's invoice, or its payment, or neither of them yet. */
  predicate RowOk(s: Sys, r: Id) {
    r in s.db.refunds ==>
      r in s.grants
      && var row, grant := s.db.refunds[r], s.grants[r];
         && row.amount == grant.amount && row.tenant == grant.tenant
         && (row.invoice.None? || (row.invoice == Some(grant.invoice) && grant.invoice in s.db.invoices))
         && (row.payment.None? || row.payment == Some(grant.payment))
         && (row.key == grant.key || (!grant.external && row.key.None?))
  }

  ghost predicate GrantOk(s: Sys, r: Id) {
    r in s.grants ==>
      && s.grants[r].amount >= 1
      && forall id :: id in s.db.invoices ==> FitsInvoice(s.db, s.grants[r], id, s.db.invoices[id])
  }

  predicate RequestOk(s: Sys, id: Id) {
    id in s.requests ==>
      && Granted(s, s.requests[id].refund, id) && Holds(s.db, s.grants[s.requests[id].refund])
      && forall r :: r in s.requests[id].linked ==> Granted(s, r, id)
  }

  /** No two refunds of an invoice have one idempotency key. */
  ghost predicate KeysApart(s: Sys) {
    forall a, b :: a in s.grants && b in s.grants && a != b && s.grants[a].key.Some? ==>
      s.grants[a].invoice != s.grants[b].invoice || s.grants[a].key != s.grants[b].key
  }

  /** What a granted refund may still cost: its amount, unless it is stored and over. */
  function OwedFor(s: Sys, r: Id): int
    requires r in s.grants
  {
    if !InFlight(s, r) && r in s.db.refunds && !Active(s.db.refunds[r].status) then 0 else s.grants[r].amount
  }

  ghost function Owed(s: Sys, id: Id): map<Id, int> {
    map r | r in s.grants && s.grants[r].invoice == id :: OwedFor(s, r)
  }

  /** What an invoice owes, and what its row shows as paid, stay within what the provider took. */
  ghost predicate Covered(s: Sys, id: Id) {
    && Sum(Owed(s, id)) <= PaidFor(s, id)
    && (id in s.db.invoices ==> s.db.invoices[id].paid <= PaidFor(s, id))
  }

  /** A refund no request can see: no request of its own is open, and no row names its invoice or payment. */
  predicate Unseen(s: Sys, r: Id) {
    r in s.grants && !InFlight(s, r)
    && (r in s.db.refunds ==> s.db.refunds[r].invoice.None? && s.db.refunds[r].payment.None?)
  }

  /** What the unseen refunds of an invoice may still cost. */
  ghost function UnseenOwed(s: Sys, id: Id): map<Id, int> {
    map r | r in s.grants && s.grants[r].invoice == id && Unseen(s, r) :: OwedFor(s, r)
  }

  ghost predicate Shape(s: Sys) {
    (forall r: Id :: RowOk(s, r)) && (forall r: Id :: GrantOk(s, r)) && forall id: Id :: RequestOk(s, id)
  }

  ghost predicate Inv(s: Sys) {
    Shape(s) && forall id: Id :: Covered(s, id)
  }

  /** A step that keeps the shape, and every invoice covered that was. */
  ghost predicate Keeps(s: Sys, s': Sys) {
    Shape(s') && forall id: Id :: Covered(s, id) ==> Covered(s', id)
  }

  const EMPTY := Sys(Db(map[], map[]), map[], map[], map[])

  // ----- the stored sum against what was granted

  /** The invoice's payment is no other invoice's, as the request's check demands. */
  predicate Sole(db: Db, id: Id) {
    id in db.invoices && (db.invoices[id].payment.Some? ==> OnlyInvoiceOf(db, db.invoices[id].payment.value, id))
  }

  /** Every refund the query sums was granted for that invoice. */
  lemma CountedWasGranted(s: Sys, id: Id, r: Id)
    requires Shape(s) && Sole(s.db, id) && Counts(s.db, id, r)
    ensures Granted(s, r, id)
  {
    assert RowOk(s, r) && GrantOk(s, r);
    assert FitsInvoice(s.db, s.grants[r], id, s.db.invoices[id]);
  }

  /**
   In the refunded invoice's own balance, a stored refund counts exactly when its row names the invoice or the
   payment.
   */
  lemma CountsUnlessUnseen(s: Sys, id: Id, r: Id)
    requires Shape(s) && Sole(s.db, id) && s.db.invoices[id].payment.Some? && id !in s.requests && Granted(s, r, id)
    ensures Counts(s.db, id, r) <==> !Unseen(s, r)
  {
    assert RowOk(s, r) && GrantOk(s, r);
  }

  /** With no request open, what an invoice owes is what the query sums and what no request can see. */
  lemma OwedIsRefundedAndUnseen(s: Sys, id: Id)
    requires Shape(s) && Sole(s.db, id) && s.db.invoices[id].payment.Some? && id !in s.requests
    ensures Sum(Owed(s, id)) == Refunded(s.db, id) + Sum(UnseenOwed(s, id))
  {
    var owed, refundeds, unseen := Owed(s, id), Refundeds(s.db, id), UnseenOwed(s, id);
    forall r: Id ensures r in owed <==> r in refundeds || r in unseen {
      if r in owed { CountsUnlessUnseen(s, id, r); }
      if r in refundeds { CountedWasGranted(s, id, r); }
    }
    forall r: Id ensures r !in refundeds || r !in unseen {
      if r in unseen { CountsUnlessUnseen(s, id, r); }
    }
    forall r | r in refundeds ensures refundeds[r] == owed[r] {
      CountedWasGranted(s, id, r);
      assert RowOk(s, r);
    }
    SumParts(owed, refundeds, unseen);
  }

  // ----- each step

  lemma PayKeeps(s: Sys, step: Step)
    requires Shape(s) && Allowed(s, step) && step.Pay?
    ensures Keeps(s, Next(s, step))
  {
    var s' := Next(s, step);
    forall r: Id ensures RowOk(s', r) && GrantOk(s', r) { assert RowOk(s, r) && GrantOk(s, r); }
    forall i: Id ensures RequestOk(s', i) && (Covered(s, i) ==> Covered(s', i)) {
      assert RequestOk(s, i);
      assert Owed(s', i) == Owed(s, i);
    }
  }

  lemma PutInvoiceKeeps(s: Sys, step: Step)
    requires Shape(s) && Allowed(s, step) && step.PutInvoice?
    ensures Keeps(s, Next(s, step))
  {
    var s', id := Next(s, step), step.id;
    forall r: Id ensures RowOk(s', r) && GrantOk(s', r) {
      assert RowOk(s, r) && GrantOk(s, r);
      if r in s.grants { assert FitsInvoice(s.db, s.grants[r], id, step.row); }
    }
    forall i: Id ensures RequestOk(s', i) && (Covered(s, i) ==> Covered(s', i)) {
      assert RequestOk(s, i);
      assert Owed(s', i) == Owed(s, i);
    }
  }

  /** A refund made at the provider keeps the books: it fits what was taken, whether its invoice is stored or not. */
  lemma ExternalKeeps(s: Sys, step: Step)
    requires Shape(s) && Allowed(s, step) && step.External?
    ensures Keeps(s, Next(s, step))
  {
    var s', r, id := Next(s, step), step.refund, step.grant.invoice;
    ExternalShape(s, step);
    hide Shape, Allowed;
    OneGrantOwes(s, s', r, step.grant);
    forall i: Id ensures Covered(s, i) ==> Covered(s', i) {}
  }

  /** A grant put into the books changes what its own invoice owes, by the difference at that refund. */
  lemma OneGrantOwes(s: Sys, s': Sys, r: Id, grant: Grant)
    requires s'.grants == s.grants[r := grant] && (r in s.grants ==> s.grants[r].invoice == grant.invoice)
    requires forall q :: q in s.grants && q != r ==> OwedFor(s', q) == OwedFor(s, q)
    ensures Sum(Owed(s', grant.invoice)) ==
              Sum(Owed(s, grant.invoice)) + OwedFor(s', r) - (if r in s.grants then OwedFor(s, r) else 0)
    ensures forall i: Id :: i != grant.invoice ==> Owed(s', i) == Owed(s, i)
  {
    hide OwedFor;
    var id := grant.invoice;
    assert Owed(s', id) == Owed(s, id)[r := OwedFor(s', r)];
    SumPut(Owed(s, id), r, OwedFor(s', r));
    forall i: Id | i != id ensures Owed(s', i) == Owed(s, i) {}
  }

  lemma ExternalShape(s: Sys, step: Step)
    requires Shape(s) && Allowed(s, step) && step.External?
    ensures Shape(Next(s, step)) && OwedFor(Next(s, step), step.refund) == step.grant.amount
    ensures forall q :: q in s.grants ==> OwedFor(Next(s, step), q) == OwedFor(s, q)
  {
    hide Owed;
    var s' := Next(s, step);
    assert RowOk(s, step.refund);
    forall q: Id ensures RowOk(s', q) && GrantOk(s', q) { assert RowOk(s, q) && GrantOk(s, q); }
    forall i: Id ensures RequestOk(s', i) { assert RequestOk(s, i); }
    assert forall i :: i in s.requests ==> s.requests[i].refund != step.refund by {
      forall i | i in s.requests ensures s.requests[i].refund != step.refund { assert RequestOk(s, i); }
    }
  }

  /** A row that only changes in ways that keep `RowOk` can only lower what its refund may cost. */
  lemma RowChangeKeeps(s: Sys, s': Sys, r: Id)
    requires Shape(s) && s'.grants == s.grants && s'.paid == s.paid && s'.db.invoices == s.db.invoices && r in s.grants
    requires forall q :: q in s.grants && q != r ==> OwedFor(s', q) == OwedFor(s, q)
    requires forall q: Id :: RowOk(s', q)
    requires forall i: Id :: RequestOk(s', i)
    requires OwedFor(s', r) <= OwedFor(s, r)
    ensures Keeps(s, s')
  {
    var id := s.grants[r].invoice;
    forall q: Id ensures GrantOk(s', q) { assert GrantOk(s, q); }
    forall i: Id ensures Covered(s, i) ==> Covered(s', i) {
      if i == id {
        assert Owed(s', i) == Owed(s, i)[r := OwedFor(s', r)];
        SumPut(Owed(s, i), r, OwedFor(s', r));
      } else {
        assert Owed(s', i) == Owed(s, i);
      }
    }
  }

  lemma ReceiveKeeps(s: Sys, step: Step)
    requires Shape(s) && Allowed(s, step) && step.Receive?
    ensures Keeps(s, Next(s, step))
  {
    var s', e := Next(s, step), step.event;
    EventRowOk(s, step);
    forall q: Id ensures RowOk(s', q) { assert RowOk(s, q); }
    forall i: Id ensures RequestOk(s', i) { assert RequestOk(s, i); }
    assert GrantOk(s, e.refund);
    RowChangeKeeps(s, s', e.refund);
  }

  /** The invoice an event resolves to is the refunded one. */
  lemma EventFindsItsInvoice(s: Sys, step: Step)
    requires Shape(s) && Allowed(s, step) && step.Receive?
    ensures step.invoice.None?
            || (step.invoice == Some(s.grants[step.event.refund].invoice) && step.invoice.value in s.db.invoices)
    ensures step.tenant == s.grants[step.event.refund].tenant
  {
    var e, grant := step.event, s.grants[step.event.refund];
    assert RowOk(s, e.refund) && GrantOk(s, e.refund);
    if step.invoice.Some? {
      assert step.invoice.value in s.db.invoices;
      assert FitsInvoice(s.db, grant, step.invoice.value, s.db.invoices[step.invoice.value]);
    }
  }

  lemma EventRowOk(s: Sys, step: Step)
    requires Shape(s) && Allowed(s, step) && step.Receive?
    ensures RowOk(Next(s, step), step.event.refund)
  {
    assert RowOk(s, step.event.refund);
    EventFindsItsInvoice(s, step);
  }

  /**
   After an event its refund counts in its invoice's balance exactly when the event finds the invoice or names the
   payment, or an earlier one did; an event that names only its tenant adds nothing to any balance.
   */
  lemma EventCountsExactlyWhen(s: Sys, step: Step, id: Id)
    requires Shape(s) && Allowed(s, step) && step.Receive? && Granted(s, step.event.refund, id)
    requires Sole(s.db, id) && s.db.invoices[id].payment.Some?
    ensures Counts(Next(s, step).db, id, step.event.refund) <==>
              step.invoice.Some? || step.event.payment.Some?
              || (step.event.refund in s.db.refunds
                  && (s.db.refunds[step.event.refund].invoice.Some? || s.db.refunds[step.event.refund].payment.Some?))
  {
    EventFindsItsInvoice(s, step);
    EventRowOk(s, step);
    assert RowOk(s, step.event.refund) && GrantOk(s, step.event.refund);
    assert FitsInvoice(s.db, s.grants[step.event.refund], id, s.db.invoices[id]);
  }

  /** An event of a new refund that names neither leaves every balance as it was. */
  lemma ReferenceFreeEventAddsNothing(db: Db, e: Event, tenant: Id, id: Id)
    requires e.refund !in db.refunds && e.payment.None?
    ensures Refunded(UpsertRefund(db, e, None, tenant), id) == Refunded(db, id)
  {
    assert Refundeds(UpsertRefund(db, e, None, tenant), id) == Refundeds(db, id);
  }

  /** A refund stored by its payment before its invoice waits for it: once the invoice is there, a request links it. */
  lemma LateInvoiceFindsItsRefund(s: Sys, step: Step, r: Id)
    requires Inv(s) && Allowed(s, step) && step.PutInvoice? && step.row.payment.Some?
    requires Granted(s, r, step.id) && r in s.db.refunds && s.db.refunds[r].payment.Some?
             && s.db.refunds[r].invoice.None?
    ensures Linkable(Next(s, step).db, step.id, r) && Counts(Next(s, step).db, step.id, r)
  {
    assert RowOk(s, r) && FitsInvoice(s.db, s.grants[r], step.id, step.row);
  }

  lemma StoreKeeps(s: Sys, step: Step)
    requires Shape(s) && Allowed(s, step) && step.Store?
    ensures Keeps(s, Next(s, step))
  {
    var s', id := Next(s, step), step.id;
    var request := s.requests[id];
    var r := request.refund;
    assert RequestOk(s, id) && GrantOk(s, r) && RowOk(s, r);
    forall q: Id ensures RowOk(s', q) {
      assert RowOk(s, q) && GrantOk(s, q);
    }
    forall i: Id ensures RequestOk(s', i) { assert RequestOk(s, i); }
    assert OwedFor(s, r) == s.grants[r].amount;
    RowChangeKeeps(s, s', r);
  }

  /**
   Whether the provider's event comes before or after the request is stored, the same row results but for the last
   status.
   */
  lemma EventMayComeFirst(s: Sys, id: Id, e: Event, invoice: Option<Id>, later: Option<Id>, tenant: Id)
    requires Inv(s) && id in s.requests && s.requests[id].refund == e.refund && e.refund !in s.db.refunds
    requires Allowed(s, Receive(e, invoice, tenant))
    ensures var request, grant := s.requests[id], s.grants[e.refund];
            var before := StoreRefund(UpsertRefund(s.db, e, invoice, tenant), id, request, grant);
            var after := UpsertRefund(StoreRefund(s.db, id, request, grant), e, later, tenant);
            && after.refunds[e.refund].status == e.status && after.invoices == before.invoices
            && before.refunds == after.refunds[e.refund := after.refunds[e.refund].(status := request.status)]
  {
    assert RequestOk(s, id);
    EventFindsItsInvoice(s, Receive(e, invoice, tenant));
    var request, grant := s.requests[id], s.grants[e.refund];
    assert GrantOk(s, e.refund) && FitsInvoice(s.db, grant, id, s.db.invoices[id]);
    var before := StoreRefund(UpsertRefund(s.db, e, invoice, tenant), id, request, grant);
    var after := UpsertRefund(StoreRefund(s.db, id, request, grant), e, later, tenant);
    forall q: Id ensures q in before.refunds <==> q in after.refunds {}
    forall q | q in before.refunds
      ensures before.refunds[q] == if q == e.refund then after.refunds[q].(status := request.status)
              else after.refunds[q]
    {
    }
  }

  /** An unlinked refund with the invoice's own payment was granted for that invoice. */
  lemma LinkablesAreOwn(s: Sys, id: Id)
    requires Shape(s) && Sole(s.db, id)
    ensures forall r :: r in Linkables(s.db, id) ==> Granted(s, r, id)
  {
    forall r | r in Linkables(s.db, id) ensures Granted(s, r, id) { CountedWasGranted(s, id, r); }
  }

  lemma LinkKeeps(s: Sys, id: Id)
    requires Shape(s) && Sole(s.db, id)
    ensures Keeps(s, s.(db := LinkSet(s.db, id, Linkables(s.db, id))))
  {
    var s' := s.(db := LinkSet(s.db, id, Linkables(s.db, id)));
    LinkablesAreOwn(s, id);
    forall r: Id ensures RowOk(s', r) && GrantOk(s', r) {
      assert RowOk(s, r) && GrantOk(s, r);
    }
    forall i: Id ensures RequestOk(s', i) && (Covered(s, i) ==> Covered(s', i)) {
      assert RequestOk(s, i);
      assert Owed(s', i) == Owed(s, i);
    }
  }
}
