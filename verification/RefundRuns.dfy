/** What requests do to an invoice's balance, and what holds over every run of requests, events and outside refunds. */
module RefundRuns {
  import opened Basics
  import opened Sums
  import opened Refunds

  /** The state after the provider granted a request. */
  function AfterGrant(s: Sys, step: Step, asked: int): Sys
    requires step.Ask? && step.id in s.db.invoices && s.db.invoices[step.id].payment.Some?
  {
    var invoice := s.db.invoices[step.id];
    var grant := Grant(step.id, invoice.payment.value, invoice.tenant, asked, Some(step.key), false);
    s.(grants := s.grants[step.refund := grant],
       requests := s.requests[step.id := Request(step.refund, Linkables(s.db, step.id), step.status)])
  }

  /** The request is one the checks let through, and a refund granted before is granted as it was. */
  ghost predicate Grants(s: Sys, step: Step, asked: int) {
    && step.Ask? && Allowed(s, step) && Check(s.db, step.id, step.amount, step.key) == MayRefund(asked)
    && (step.refund in s.grants ==> s.grants[step.refund].amount == asked)
  }

  /** Every refund granted for the invoice can be seen by a request. */
  ghost predicate AllSeen(s: Sys, id: Id) {
    forall r :: Granted(s, r, id) ==> !Unseen(s, r)
  }

  lemma GrantsAre(s: Sys, step: Step, asked: int)
    requires Grants(s, step, asked)
    ensures Sole(s.db, step.id) && s.db.invoices[step.id].payment.Some?
    ensures 1 <= asked <= s.db.invoices[step.id].paid - Refunded(s.db, step.id)
    ensures forall r :: Counts(s.db, step.id, r) ==> s.db.refunds[r].key != Some(step.key)
  {
  }

  /** The request sees every external refund of its invoice that has its key. */
  ghost predicate SeesItsKey(s: Sys, step: Step) {
    step.Ask? ==>
      forall r :: Granted(s, r, step.id) && s.grants[r].external && s.grants[r].key == Some(step.key) ==> !Unseen(s, r)
  }

  /** A key that passed the checks belongs to no other refund of the invoice. */
  lemma KeyIsNew(s: Sys, step: Step, asked: int, q: Id)
    requires Shape(s) && Grants(s, step, asked) && SeesItsKey(s, step)
    requires Granted(s, q, step.id) && s.grants[q].key == Some(step.key)
    ensures q == step.refund
  {
    assert RowOk(s, q);
    GrantsAre(s, step, asked);
    hide Check;
    CountsUnlessUnseen(s, step.id, q);
  }

  lemma GrantShape(s: Sys, step: Step, asked: int)
    requires Shape(s) && Grants(s, step, asked)
    requires Sole(s.db, step.id) && s.db.invoices[step.id].payment.Some? && 1 <= asked
    ensures Shape(AfterGrant(s, step, asked))
  {
    hide Refunded, Check;
    var s', id := AfterGrant(s, step, asked), step.id;
    LinkablesAreOwn(s, id);
    forall q: Id ensures RowOk(s', q) && GrantOk(s', q) { GrantRowOk(s, step, asked, q); }
    forall i: Id ensures RequestOk(s', i) {
      assert RequestOk(s, i);
      assert i == id ==> forall q :: q in Linkables(s.db, id) ==> Granted(s, q, id);
    }
  }

  lemma GrantRowOk(s: Sys, step: Step, asked: int, q: Id)
    requires Shape(s) && Grants(s, step, asked)
    requires Sole(s.db, step.id) && s.db.invoices[step.id].payment.Some? && 1 <= asked
    ensures RowOk(AfterGrant(s, step, asked), q) && GrantOk(AfterGrant(s, step, asked), q)
  {
    hide Refunded, Check;
    assert RowOk(s, q) && GrantOk(s, q);
    if q == step.refund && q in s.grants {
      assert FitsInvoice(s.db, s.grants[q], step.id, s.db.invoices[step.id]);
    }
  }

  /** What the invoice owes after a granted request. */
  lemma GrantOwes(s: Sys, step: Step, asked: int)
    requires step.Ask? && Allowed(s, step) && step.id in s.db.invoices && s.db.invoices[step.id].payment.Some?
    ensures var s' := AfterGrant(s, step, asked);
            && Sum(Owed(s', step.id))
               == Sum(Owed(s, step.id)) + asked - (if step.refund in s.grants then OwedFor(s, step.refund) else 0)
            && forall i: Id :: i != step.id ==> Owed(s', i) == Owed(s, i)
  {
    hide Check, Refunded, Owed;
    var s' := AfterGrant(s, step, asked);
    forall q | q in s.grants && q != step.refund ensures OwedFor(s', q) == OwedFor(s, q) {}
    OneGrantOwes(s, s', step.refund, s'.grants[step.refund]);
  }

  lemma AllSeenOwesNothingMore(s: Sys, id: Id)
    requires AllSeen(s, id)
    ensures UnseenOwed(s, id) == map[]
  {
    forall r: Id ensures r !in UnseenOwed(s, id) { assert Granted(s, r, id) || !Granted(s, r, id); }
  }

  /** The provider would grant this request in any case: it fits what it took less all it has granted. */
  ghost predicate FitsAtProvider(s: Sys, step: Step, asked: int) {
    step.Ask?
    && (asked <= PaidFor(s, step.id) - Sum(Owed(s, step.id))
        || (step.refund in s.grants && OwedFor(s, step.refund) == asked))
  }

  /** If a request can see every refund of its invoice, the checks alone make it fit. */
  lemma ChecksSuffice(s: Sys, step: Step, asked: int)
    requires Inv(s) && Grants(s, step, asked) && AllSeen(s, step.id)
    ensures FitsAtProvider(s, step, asked)
  {
    GrantsAre(s, step, asked);
    hide Check, Refunded, Owed, UnseenOwed;
    OwedIsRefundedAndUnseen(s, step.id);
    AllSeenOwesNothingMore(s, step.id);
    assert Covered(s, step.id);
  }

  /** A granted request raises what the invoice owes by at most the granted amount. */
  lemma GrantKeeps(s: Sys, step: Step, asked: int)
    requires Inv(s) && Grants(s, step, asked) && FitsAtProvider(s, step, asked)
    ensures Sole(s.db, step.id) && s.db.invoices[step.id].payment.Some? && Inv(AfterGrant(s, step, asked))
  {
    GrantsAre(s, step, asked);
    hide Check, Refunded, Owed;
    GrantShape(s, step, asked);
    GrantOwes(s, step, asked);
    if step.refund in s.grants { assert GrantOk(s, step.refund); }
    hide Shape;
    forall i: Id ensures Covered(AfterGrant(s, step, asked), i) { assert Covered(s, i) && Covered(s, step.id); }
  }

  lemma AskShape(s: Sys, step: Step)
    requires Shape(s) && Allowed(s, step) && step.Ask?
    ensures Shape(Next(s, step))
  {
    var verdict := Check(s.db, step.id, step.amount, step.key);
    if verdict.Existing? {
      LinkKeeps(s, step.id);
    } else if verdict.MayRefund? && Next(s, step) != s {
      assert Grants(s, step, verdict.amount);
      GrantsAre(s, step, verdict.amount);
      GrantShape(s, step, verdict.amount);
    }
  }

  lemma AskKeeps(s: Sys, step: Step)
    requires Inv(s) && Allowed(s, step) && step.Ask? && Bounded(s, step)
    ensures Inv(Next(s, step))
  {
    var verdict := Check(s.db, step.id, step.amount, step.key);
    if verdict.Existing? {
      LinkKeeps(s, step.id);
    } else if verdict.MayRefund? && Next(s, step) != s {
      assert Grants(s, step, verdict.amount);
      if AllSeen(s, step.id) { ChecksSuffice(s, step, verdict.amount); }
      GrantKeeps(s, step, verdict.amount);
    }
  }

  /** Giving up a request, whatever the provider did, raises no debt. */
  lemma AbortKeeps(s: Sys, step: Step)
    requires Shape(s) && Allowed(s, step) && step.Abort?
    ensures Keeps(s, Next(s, step))
  {
    var s', r := Next(s, step), s.requests[step.id].refund;
    assert RequestOk(s, step.id) && GrantOk(s, r);
    forall q: Id ensures RowOk(s', q) { assert RowOk(s, q); }
    forall i: Id ensures RequestOk(s', i) { assert RequestOk(s, i); }
    RowChangeKeeps(s, s', r);
  }

  // ----- main results

  /** A request sees every refund of its invoice, or the provider itself refuses what does not fit. */
  ghost predicate Bounded(s: Sys, step: Step) {
    step.Ask? ==> AllSeen(s, step.id) || forall asked :: Grants(s, step, asked) ==> FitsAtProvider(s, step, asked)
  }

  /** Every step but a request keeps the books; a request keeps the shape of the rows. */
  lemma StepKeepsShape(s: Sys, step: Step)
    requires Shape(s) && Allowed(s, step)
    ensures Shape(Next(s, step)) && (!step.Ask? ==> Keeps(s, Next(s, step)))
  {
    match step
    case Pay(_, _) => PayKeeps(s, step);
    case PutInvoice(_, _) => PutInvoiceKeeps(s, step);
    case Ask(_, _, _, _, _) => AskShape(s, step);
    case Store(_) => StoreKeeps(s, step);
    case Abort(_) => AbortKeeps(s, step);
    case External(_, _) => ExternalKeeps(s, step);
    case Receive(_, _, _) => ReceiveKeeps(s, step);
  }

  lemma StepKeeps(s: Sys, step: Step)
    requires Inv(s) && Allowed(s, step) && Bounded(s, step)
    ensures Inv(Next(s, step))
  {
    if step.Ask? { AskKeeps(s, step); } else { StepKeepsShape(s, step); }
  }

  ghost predicate BoundedRun(s: Sys, steps: seq<Step>)
    decreases |steps|
  {
    steps != [] ==> Bounded(s, steps[0]) && BoundedRun(Next(s, steps[0]), steps[1..])
  }

  lemma {:induction false} EveryRunKeeps(s: Sys, steps: seq<Step>)
    requires Inv(s) && AllowedRun(s, steps) && BoundedRun(s, steps)
    ensures Inv(Run(s, steps))
    decreases |steps|
  {
    if steps != [] {
      StepKeeps(s, steps[0]);
      EveryRunKeeps(Next(s, steps[0]), steps[1..]);
    }
  }

  /**
   What hides a refund: one made outside the service, until its event names the payment or finds the invoice, or a
   request given up before such an event.
   */
  predicate Hides(s: Sys, step: Step) {
    step.External?
    || (step.Abort? && step.id in s.requests
        && var r := s.requests[step.id].refund;
           r in s.db.refunds ==> s.db.refunds[r].invoice.None? && s.db.refunds[r].payment.None?)
  }

  /** Nothing else does: in particular an event without any reference hides nothing that could be seen. */
  lemma SeenUnlessHidden(s: Sys, step: Step, r: Id)
    requires Inv(s) && Allowed(s, step) && !Hides(s, step) && !Unseen(s, r)
    ensures !Unseen(Next(s, step), r)
  {
    hide Check, Owed, Covered;
    match step
    case Ask(id, amount, key, refund, _) => AskHidesNothing(s, step, r);
    case Store(id) => assert RequestOk(s, id);
    case Abort(id) => assert RequestOk(s, id);
    case _ =>
  }

  lemma AskHidesNothing(s: Sys, step: Step, r: Id)
    requires Shape(s) && Allowed(s, step) && step.Ask? && !Unseen(s, r)
    ensures !Unseen(Next(s, step), r)
  {
    hide Check, Owed, Covered;
    if r in s.grants && InFlight(s, r) { assert RequestOk(s, s.grants[r].invoice); }
  }

  /** The refunds stored for an invoice that are not failed or canceled. */
  ghost function LinkedAmounts(db: Db, id: Id): map<Id, int> {
    map r | r in db.refunds && db.refunds[r].invoice == Some(id)
            && (db.refunds[r].status == Pending || db.refunds[r].status == Succeeded) :: db.refunds[r].amount
  }

  /** At every point of a run the active refunds of an invoice do not exceed what was taken for it. */
  lemma NeverOverRefunded(steps: seq<Step>, id: Id)
    requires AllowedRun(EMPTY, steps) && BoundedRun(EMPTY, steps)
    ensures var s := Run(EMPTY, steps);
            && Sum(LinkedAmounts(s.db, id)) <= (if id in s.paid then s.paid[id] else 0)
            && (id in s.db.invoices && s.db.invoices[id].paid == (if id in s.paid then s.paid[id] else 0) ==>
                  Sum(LinkedAmounts(s.db, id)) <= s.db.invoices[id].paid)
  {
    forall i: Id ensures Covered(EMPTY, i) {}
    EveryRunKeeps(EMPTY, steps);
    var s := Run(EMPTY, steps);
    var linked, owed := LinkedAmounts(s.db, id), Owed(s, id);
    forall r | r in linked ensures r in owed && linked[r] <= owed[r] { assert RowOk(s, r) && GrantOk(s, r); }
    forall r | r in owed ensures 0 <= owed[r] { assert GrantOk(s, r); }
    SumMonotone(linked, owed);
    assert Covered(s, id);
  }

  /** A repeated idempotency key grants nothing, adds no refund and changes no amount or status. */
  lemma RepeatedKeyAddsNothing(s: Sys, step: Step, r: Id)
    requires Inv(s) && Allowed(s, step) && step.Ask? && Sole(s.db, step.id)
    requires Counts(s.db, step.id, r) && s.db.refunds[r].key == Some(step.key)
    ensures var s' := Next(s, step);
            && s'.grants == s.grants && s'.requests == s.requests && s'.db.refunds.Keys == s.db.refunds.Keys
            && forall q :: q in s.db.refunds ==>
              s'.db.refunds[q] == s.db.refunds[q].(invoice := s'.db.refunds[q].invoice)
  {
  }

  /**
   So does a request repeated after it was granted and given up: its refund is the one it had, and no other is
   granted.
   */
  lemma RetriedKeyGrantsNothing(s: Sys, step: Step, r: Id)
    requires Shape(s) && Allowed(s, step) && step.Ask?
    requires Granted(s, r, step.id) && !s.grants[r].external && s.grants[r].key == Some(step.key)
    ensures Next(s, step).grants == s.grants
  {
    hide Check;
    assert r == step.refund && GrantOk(s, r);
    var verdict := Check(s.db, step.id, step.amount, step.key);
    if verdict.MayRefund? {
      assert s.db.invoices[step.id].payment.Some? by { CheckedPayment(s, step); }
      assert FitsInvoice(s.db, s.grants[r], step.id, s.db.invoices[step.id]);
    }
  }

  lemma CheckedPayment(s: Sys, step: Step)
    requires step.Ask? && Check(s.db, step.id, step.amount, step.key).MayRefund?
    ensures step.id in s.db.invoices && s.db.invoices[step.id].payment.Some?
  {
  }

  /**
   Keys are told apart: a request sees the external refunds that have its key, and an external refund brings a new
   one.
   */
  ghost predicate KeepsKeys(s: Sys, step: Step) {
    && SeesItsKey(s, step)
    && (step.External? && step.grant.key.Some? ==>
          forall r :: Granted(s, r, step.grant.invoice) ==> s.grants[r].key != step.grant.key)
  }

  ghost predicate KeyedRun(s: Sys, steps: seq<Step>)
    decreases |steps|
  {
    steps != [] ==> KeepsKeys(s, steps[0]) && KeyedRun(Next(s, steps[0]), steps[1..])
  }

  /** Over any such run, requests given up and retried included, one idempotency key has one refund per invoice. */
  lemma OneRefundPerKey(steps: seq<Step>, id: Id, a: Id, b: Id)
    requires AllowedRun(EMPTY, steps) && KeyedRun(EMPTY, steps)
    requires var refunds := Run(EMPTY, steps).db.refunds;
             && a in refunds && refunds[a].invoice == Some(id) && refunds[a].key.Some?
             && b in refunds && refunds[b].invoice == Some(id) && refunds[b].key == refunds[a].key
    ensures a == b
  {
    EveryRunKeepsKeys(EMPTY, steps);
    var s := Run(EMPTY, steps);
    assert RowOk(s, a) && RowOk(s, b);
  }

  lemma KeysStayApart(s: Sys, step: Step)
    requires Shape(s) && KeysApart(s) && Allowed(s, step) && KeepsKeys(s, step)
    ensures KeysApart(Next(s, step))
  {
    hide Check;
    if step.Ask? && Next(s, step).grants != s.grants {
      var asked := Next(s, step).grants[step.refund].amount;
      assert Grants(s, step, asked);
      forall q | Granted(s, q, step.id) && s.grants[q].key == Some(step.key) ensures q == step.refund {
        KeyIsNew(s, step, asked, q);
      }
    }
  }

  /** Exactly then: a new refund shares its key with another one if and only if an unseen external refund has it. */
  lemma NewKeyIsApartExactlyWhen(s: Sys, step: Step, asked: int)
    requires Shape(s) && KeysApart(s) && Grants(s, step, asked) && step.refund !in s.grants
    ensures KeysApart(Next(s, step)) <==> SeesItsKey(s, step)
  {
    GrantsAre(s, step, asked);
    assert Next(s, step) == AfterGrant(s, step, asked);
    hide Check, Next, Refunded;
    if SeesItsKey(s, step) {
      forall q | Granted(s, q, step.id) && s.grants[q].key == Some(step.key) ensures q == step.refund {
        KeyIsNew(s, step, asked, q);
      }
    } else {
      var r :| Granted(s, r, step.id) && s.grants[r].external && s.grants[r].key == Some(step.key) && Unseen(s, r);
      var s' := AfterGrant(s, step, asked);
      assert r in s'.grants && step.refund in s'.grants && r != step.refund && s'.grants[r] == s.grants[r];
      assert s'.grants[r].invoice == s'.grants[step.refund].invoice && s'.grants[r].key == s'.grants[step.refund].key;
    }
  }

  lemma {:induction false} EveryRunKeepsKeys(s: Sys, steps: seq<Step>)
    requires Shape(s) && KeysApart(s) && AllowedRun(s, steps) && KeyedRun(s, steps)
    ensures Shape(Run(s, steps)) && KeysApart(Run(s, steps))
    decreases |steps|
  {
    if steps != [] {
      StepKeepsShape(s, steps[0]);
      KeysStayApart(s, steps[0]);
      EveryRunKeepsKeys(Next(s, steps[0]), steps[1..]);
    }
  }

  // ----- the exact limit

  /**
   A new refund of any amount keeps the invoice covered if and only if it fits what was taken less what the tables sum
   up and less what no request can see; the checks compare it with the first two only.
   */
  lemma GrantFitsExactlyWhen(s: Sys, step: Step, asked: int)
    requires Grants(s, step, asked) && Shape(s) && Covered(s, step.id) && step.refund !in s.grants
    ensures Covered(Next(s, step), step.id) <==>
              asked <= PaidFor(s, step.id) - Refunded(s.db, step.id) - Sum(UnseenOwed(s, step.id))
  {
    GrantsAre(s, step, asked);
    assert Next(s, step) == AfterGrant(s, step, asked);
    hide Refunded, Owed, UnseenOwed, Check, Next;
    OwedIsRefundedAndUnseen(s, step.id);
    GrantOwes(s, step, asked);
  }

  /**
   A request for the whole balance of an up-to-date invoice: exactly when every unseen refund is failed or canceled.
   */
  lemma WholeBalanceNeedsAllSeen(s: Sys, step: Step, asked: int)
    requires Grants(s, step, asked) && Shape(s) && Covered(s, step.id) && step.refund !in s.grants && step.amount.None?
    requires s.db.invoices[step.id].paid == PaidFor(s, step.id)
    ensures Covered(Next(s, step), step.id) <==>
              forall r :: Granted(s, r, step.id) && Unseen(s, r) ==>
                r in s.db.refunds && !Active(s.db.refunds[r].status)
  {
    GrantFitsExactlyWhen(s, step, asked);
    assert asked == PaidFor(s, step.id) - Refunded(s.db, step.id);
    hide Check, Refunded, Allowed, Grants, Next, Covered;
    UnseenOwesNothingExactlyWhen(s, step.id);
  }

  lemma UnseenOwesNothingExactlyWhen(s: Sys, id: Id)
    requires Shape(s)
    ensures Sum(UnseenOwed(s, id)) <= 0 <==>
              forall r :: Granted(s, r, id) && Unseen(s, r) ==> r in s.db.refunds && !Active(s.db.refunds[r].status)
  {
    var unseen := UnseenOwed(s, id);
    forall r | r in unseen ensures 0 <= unseen[r] { assert GrantOk(s, r); }
    if r :| Granted(s, r, id) && Unseen(s, r) && !(r in s.db.refunds && !Active(s.db.refunds[r].status)) {
      assert GrantOk(s, r) && r in unseen;
      SumBoundsEntry(unseen, r);
    } else {
      forall r | r in unseen ensures unseen[r] == 0 { assert Granted(s, r, id); }
      SumOfZeros(unseen);
    }
  }

  // ----- a run that over-refunds

  const INVOICE := Invoice(9, Some(7), 100)
  const FIRST := Grant(1, 7, 9, 100, Some(21), false)
  const SECOND := Grant(1, 7, 9, 100, Some(22), false)
  const STORED := Refund(9, Some(1), Some(7), 100, Succeeded, Some(22))
  const LATE := Event(31, Some(9), None, Some(7), 100, Succeeded, Some(21))

  /** One paid invoice, and requests given up or stored so far. */
  function OneInvoice(refunds: map<Id, Refund>, grants: map<Id, Grant>, requests: map<Id, Request>): Sys {
    Sys(Db(map[1 := INVOICE], refunds), map[1 := 100], grants, requests)
  }

  /** A request for all of the invoice passes while nothing is stored, whatever was granted. */
  lemma AskOfUnrefunded(grants: map<Id, Grant>, amount: Option<int>, key: Id, refund: Id)
    requires (amount == None || amount == Some(100)) && (refund in grants ==> grants[refund].amount == 100)
    ensures Next(OneInvoice(map[], grants, map[]), Ask(1, amount, key, refund, Succeeded))
         == OneInvoice(map[], grants[refund := Grant(1, 7, 9, 100, Some(key), false)],
                       map[1 := Request(refund, {}, Succeeded)])
  {
    var db := Db(map[1 := INVOICE], map[]);
    assert Refundeds(db, 1) == map[];
    assert Linkables(db, 1) == {};
    assert OnlyInvoiceOf(db, 7, 1);
    assert Check(db, 1, amount, key) == MayRefund(100);
  }

  lemma StoresSecond()
    ensures Next(OneInvoice(map[], map[31 := FIRST, 32 := SECOND], map[1 := Request(32, {}, Succeeded)]), Store(1))
         == OneInvoice(map[32 := STORED], map[31 := FIRST, 32 := SECOND], map[])
  {
  }

  lemma LateEventIsAllowed()
    ensures var s := OneInvoice(map[32 := STORED], map[31 := FIRST, 32 := SECOND], map[]);
            && Allowed(s, Receive(LATE, Some(1), 9))
            && Next(s, Receive(LATE, Some(1), 9))
            == OneInvoice(map[32 := STORED, 31 := Refund(9, Some(1), Some(7), 100, Succeeded, Some(21))],
                          map[31 := FIRST, 32 := SECOND], map[])
  {
    assert OnlyInvoiceOf(Db(map[1 := INVOICE], map[32 := STORED]), 7, 1);
  }

  lemma TwoHundredLinked(db: Db)
    requires db.refunds == map[32 := STORED, 31 := Refund(9, Some(1), Some(7), 100, Succeeded, Some(21))]
    ensures Sum(LinkedAmounts(db, 1)) == 200
  {
    var linked := LinkedAmounts(db, 1);
    assert linked == map[][31 := 100][32 := 100];
    SumPut(map[], 31, 100);
    SumPut(map[][31 := 100], 32, 100);
  }

  lemma FirstThenRest(s: Sys, step: Step, rest: seq<Step>)
    ensures AllowedRun(s, [step] + rest) == (Allowed(s, step) && AllowedRun(Next(s, step), rest))
    ensures KeyedRun(s, [step] + rest) == (KeepsKeys(s, step) && KeyedRun(Next(s, step), rest))
    ensures Run(s, [step] + rest) == Run(Next(s, step), rest)
  {
    assert ([step] + rest)[1..] == rest;
  }

  lemma PaysAndInvoices()
    ensures Allowed(EMPTY, Pay(1, 100)) && Allowed(Next(EMPTY, Pay(1, 100)), PutInvoice(1, INVOICE))
    ensures Next(Next(EMPTY, Pay(1, 100)), PutInvoice(1, INVOICE)) == OneInvoice(map[], map[], map[])
  {
  }

  lemma RequestsAreAllowed()
    ensures Allowed(OneInvoice(map[], map[], map[]), FIRST_ASK)
    ensures Allowed(OneInvoice(map[], map[31 := FIRST], map[1 := Request(31, {}, Succeeded)]), Abort(1))
    ensures Next(OneInvoice(map[], map[31 := FIRST], map[1 := Request(31, {}, Succeeded)]), Abort(1))
         == OneInvoice(map[], map[31 := FIRST], map[])
    ensures Allowed(OneInvoice(map[], map[31 := FIRST], map[]), SECOND_ASK)
    ensures Allowed(OneInvoice(map[], map[31 := FIRST, 32 := SECOND], map[1 := Request(32, {}, Succeeded)]), Store(1))
  {
  }

  const FIRST_ASK := Ask(1, Some(100), 21, 31, Succeeded)
  const SECOND_ASK := Ask(1, None, 22, 32, Succeeded)
  const REQUESTS := [FIRST_ASK] + ([Abort(1)] + ([SECOND_ASK] + ([Store(1)] + ([Receive(LATE, Some(1), 9)] + []))))
  const OVER_REFUNDING := [Pay(1, 100)] + ([PutInvoice(1, INVOICE)] + REQUESTS)

  /**
   The over-refunding run: a request given up after the provider granted it, the whole balance asked for under another
   key, then the first refund's event.  Only the provider can refuse the second refund; the checks let it through.
   */
  lemma GivenUpRequestOverRefunds()
    ensures AllowedRun(EMPTY, OVER_REFUNDING) && Run(EMPTY, OVER_REFUNDING).db.invoices == map[1 := INVOICE]
    ensures Sum(LinkedAmounts(Run(EMPTY, OVER_REFUNDING).db, 1)) == 200 == 2 * INVOICE.paid
  {
    hide Allowed, Next, LinkedAmounts;
    PaysAndInvoices();
    RequestsAreAllowed();
    AskOfUnrefunded(map[], Some(100), 21, 31);
    AskOfUnrefunded(map[31 := FIRST], None, 22, 32);
    StoresSecond();
    LateEventIsAllowed();
    var late := [Receive(LATE, Some(1), 9)] + [];
    FirstThenRest(EMPTY, Pay(1, 100), [PutInvoice(1, INVOICE)] + REQUESTS);
    FirstThenRest(Next(EMPTY, Pay(1, 100)), PutInvoice(1, INVOICE), REQUESTS);
    FirstThenRest(OneInvoice(map[], map[], map[]), FIRST_ASK, [Abort(1)] + ([SECOND_ASK] + ([Store(1)] + late)));
    FirstThenRest(OneInvoice(map[], map[31 := FIRST], map[1 := Request(31, {}, Succeeded)]), Abort(1),
                  [SECOND_ASK] + ([Store(1)] + late));
    FirstThenRest(OneInvoice(map[], map[31 := FIRST], map[]), SECOND_ASK, [Store(1)] + late);
    FirstThenRest(OneInvoice(map[], map[31 := FIRST, 32 := SECOND], map[1 := Request(32, {}, Succeeded)]),
                  Store(1), late);
    FirstThenRest(OneInvoice(map[32 := STORED], map[31 := FIRST, 32 := SECOND], map[]), Receive(LATE, Some(1), 9), []);
    TwoHundredLinked(Run(EMPTY, OVER_REFUNDING).db);
  }

  // ----- a run that retries

  const RETRY := [FIRST_ASK] + ([Abort(1)] + ([FIRST_ASK] + ([Store(1)] + [])))
  const RETRYING := [Pay(1, 100)] + ([PutInvoice(1, INVOICE)] + RETRY)

  lemma RetryIsAllowed()
    ensures var given := map[31 := FIRST];
            && Allowed(OneInvoice(map[], given, map[]), FIRST_ASK)
            && Allowed(OneInvoice(map[], given, map[1 := Request(31, {}, Succeeded)]), Store(1))
            && Next(OneInvoice(map[], given, map[1 := Request(31, {}, Succeeded)]), Store(1))
            == OneInvoice(map[31 := Refund(9, Some(1), Some(7), 100, Succeeded, Some(21))], given, map[])
  {
  }

  lemma RetryKeepsKeys(grants: map<Id, Grant>, requests: map<Id, Request>, step: Step)
    requires forall r :: r in grants ==> !grants[r].external
    requires !step.External?
    ensures KeepsKeys(OneInvoice(map[], grants, requests), step)
  {
  }

  /** A request granted, given up and retried under its key: the provider grants one refund and one is stored. */
  lemma RetryRefundsOnce()
    ensures AllowedRun(EMPTY, RETRYING) && KeyedRun(EMPTY, RETRYING)
    ensures var s := Run(EMPTY, RETRYING);
            s.grants == map[31 := FIRST]
            && s.db.refunds == map[31 := Refund(9, Some(1), Some(7), 100, Succeeded, Some(21))]
  {
    hide Allowed, Next, KeepsKeys;
    PaysAndInvoices();
    RequestsAreAllowed();
    RetryIsAllowed();
    var given, open := map[31 := FIRST], map[1 := Request(31, {}, Succeeded)];
    AskOfUnrefunded(map[], Some(100), 21, 31);
    AskOfUnrefunded(given, Some(100), 21, 31);
    assert given[31 := FIRST] == given;
    FirstKeepsKeys();
    RetryKeepsKeys(map[], map[], FIRST_ASK);
    RetryKeepsKeys(given, open, Abort(1));
    RetryKeepsKeys(given, map[], FIRST_ASK);
    RetryKeepsKeys(given, open, Store(1));
    FirstThenRest(EMPTY, Pay(1, 100), [PutInvoice(1, INVOICE)] + RETRY);
    FirstThenRest(Next(EMPTY, Pay(1, 100)), PutInvoice(1, INVOICE), RETRY);
    FirstThenRest(OneInvoice(map[], map[], map[]), FIRST_ASK, [Abort(1)] + ([FIRST_ASK] + ([Store(1)] + [])));
    FirstThenRest(OneInvoice(map[], given, open), Abort(1), [FIRST_ASK] + ([Store(1)] + []));
    FirstThenRest(OneInvoice(map[], given, map[]), FIRST_ASK, [Store(1)] + []);
    FirstThenRest(OneInvoice(map[], given, open), Store(1), []);
  }

  lemma FirstKeepsKeys()
    ensures KeepsKeys(EMPTY, Pay(1, 100)) && KeepsKeys(Next(EMPTY, Pay(1, 100)), PutInvoice(1, INVOICE))
  {
  }
}
