/** Retries: an uninterrupted delivery always finishes, a recorded key swallows whatever follows it, and
    exactly when a payment that was applied is reported as one that could not be. */
module WebhookRetries {
  import opened Options
  import opened Lifecycle
  import opened Webhooks
  import opened WebhookSafety
  import opened WebhookHistory

  function Advances(s: System, n: nat, times: nat): System
    decreases times
  {
    if times == 0 then s else Advances(Next(s, Advance(n)), n, times - 1)
  }

  /** The delivery taken by free handler `n` and run without interruption. */
  function Uninterrupted(s: System, n: nat, tenant: Tenant, e: Event): System {
    Advances(Next(s, Receive(n, tenant, e)), n, 6)
  }

  lemma {:induction false} AdvancesAdd(s: System, n: nat, a: nat, b: nat)
    ensures Advances(s, n, a + b) == Advances(Advances(s, n, a), n, b)
    decreases a
  {
    if a > 0 {
      AdvancesAdd(Next(s, Advance(n)), n, a - 1, b);
    }
  }

  lemma {:induction false} GoneStaysGone(s: System, n: nat, times: nat)
    requires n !in s.handlers
    ensures Advances(s, n, times) == s
    decreases times
  {
    if times > 0 {
      GoneStaysGone(s, n, times - 1);
    }
  }

  // ---- An uninterrupted delivery ----

  /** A handler of an unrecorded key gets as far as resolving its order. */
  lemma ReachesResolving(s: System, n: nat, tenant: Tenant, e: Event) returns (taken: nat)
    requires n !in s.handlers && ValidReference(e.reference) && !IsProcessed(s.rows, KeyOf(tenant, e))
    ensures taken == if KeyOf(tenant, e) in s.rows then 2 else 1
    ensures var r := Advances(Next(s, Receive(n, tenant, e)), n, taken);
      && n in r.handlers && r.handlers[n] == Handler(tenant, e, Resolving)
      && r.shop == s.shop && r.causes == s.causes
  {
    hide ValidReference, AfterResolve, MarkOrderPaid, MarkOrderFailed, Settle;
    var s0 := Next(s, Receive(n, tenant, e));
    var s1 := Next(s0, Advance(n));
    var s2 := Next(s1, Advance(n));
    assert Advances(s0, n, 1) == Advances(s1, n, 0) == s1;
    assert Advances(s0, n, 2) == Advances(s1, n, 1) == Advances(s2, n, 0) == s2;
    taken := if KeyOf(tenant, e) in s.rows then 2 else 1;
  }

  /** What the last four operations of a PAID delivery do. */
  ghost predicate Settles(s: System, t: System, tenant: Tenant, e: Event, id: OrderId) {
    var (shop, settled) := MarkOrderPaid(s.shop, id, PaymentOf(e));
    && t.shop == shop
    && t.causes == (if settled then s.causes[id := ByWebhook(Delivery(tenant, e))] else s.causes)
    && Attempt(tenant, id, e.provider, e.providerRef, e.amountCents, e.status) in t.ledger
    && KeyOf(tenant, e) in t.rows
    && t.rows[KeyOf(tenant, e)] == Row(Some(if settled then OutcomeConfirmed else PaidOrderNotSettleable), Some(id))
    && Delivery(tenant, e) in t.acked
  }

  /** Resolving and recording lead to the settling operation, with the attempt in the ledger. */
  lemma ResolvingRecords(s: System, n: nat, id: OrderId)
    requires n in s.handlers && s.handlers[n].phase == Resolving
    requires AfterResolve(s.shop.orders, s.handlers[n].tenant, s.handlers[n].event) == Recording(id)
    ensures var h, t := s.handlers[n], Advances(s, n, 2);
      && n in t.handlers && t.handlers[n] == h.(phase := Settling(id))
      && t.shop == s.shop && t.causes == s.causes && AttemptOf(h, id) in t.ledger
  {
    hide ValidReference, AfterResolve, Settle;
    var s1 := Next(s, Advance(n));
    var s2 := Next(s1, Advance(n));
    assert Advances(s, n, 2) == Advances(s1, n, 1) == Advances(s2, n, 0) == s2;
  }

  /** Settling and stamping apply the payment, record the outcome and answer. */
  lemma SettlingFinishes(s: System, n: nat, id: OrderId)
    requires n in s.handlers && s.handlers[n].phase == Settling(id) && s.handlers[n].event.status == NPaid
    requires AttemptOf(s.handlers[n], id) in s.ledger
    ensures n !in Advances(s, n, 2).handlers
    ensures Settles(s, Advances(s, n, 2), s.handlers[n].tenant, s.handlers[n].event, id)
  {
    hide ValidReference, AfterResolve, MarkOrderPaid, MarkOrderFailed;
    var s1 := Next(s, Advance(n));
    var s2 := Next(s1, Advance(n));
    assert Advances(s, n, 2) == Advances(s1, n, 1) == Advances(s2, n, 0) == s2;
  }

  lemma ResolvingFinishes(s: System, n: nat, id: OrderId)
    requires n in s.handlers && s.handlers[n].phase == Resolving && s.handlers[n].event.status == NPaid
    requires AfterResolve(s.shop.orders, s.handlers[n].tenant, s.handlers[n].event) == Recording(id)
    ensures n !in Advances(s, n, 4).handlers
    ensures Settles(s, Advances(s, n, 4), s.handlers[n].tenant, s.handlers[n].event, id)
  {
    hide AfterResolve, AdvanceHandler, MarkOrderPaid, Settleable;
    ResolvingRecords(s, n, id);
    SettlingFinishes(Advances(s, n, 2), n, id);
    AdvancesAdd(s, n, 2, 2);
    SettlesSameStart(s, Advances(s, n, 2), Advances(s, n, 4), s.handlers[n].tenant, s.handlers[n].event, id);
  }

  lemma SettlesSameStart(s: System, r: System, t: System, tenant: Tenant, e: Event, id: OrderId)
    requires r.shop == s.shop && r.causes == s.causes && Settles(r, t, tenant, e, id)
    ensures Settles(s, t, tenant, e, id)
    ensures id < |s.shop.orders| && Settleable(s.shop.orders[id]) ==>
      id < |t.shop.orders| && t.shop.orders[id].payment == Paid && t.shop.orders[id].status == Confirmed
  {
  }

  /** Whatever happened before, a PAID delivery that binds an order, is not recorded as processed and
      runs to its end is applied, recorded and answered; if the order was settleable it is now paid. */
  lemma UninterruptedSettles(s: System, n: nat, tenant: Tenant, e: Event, id: OrderId)
    requires UniqueOrders(s.shop.orders) && Binds(s.shop.orders, tenant, e, id) && e.status == NPaid
    requires n !in s.handlers && !IsProcessed(s.rows, KeyOf(tenant, e))
    ensures var t := Uninterrupted(s, n, tenant, e);
      && Settles(s, t, tenant, e, id)
      && (Settleable(s.shop.orders[id]) ==> t.shop.orders[id].payment == Paid && t.shop.orders[id].status == Confirmed)
  {
    hide ValidReference, AfterResolve, UniqueOrders, Settle, AdvanceHandler, Settles, Settleable, MarkOrderPaid;
    ResolutionIsUnique(s.shop.orders, tenant, e, id);
    var taken := ReachesResolving(s, n, tenant, e);
    var s0 := Next(s, Receive(n, tenant, e));
    var r := Advances(s0, n, taken);
    ResolvingFinishes(r, n, id);
    var t := Advances(r, n, 4);
    SettlesSameStart(s, r, t, tenant, e, id);
    GoneStaysGone(t, n, 2 - taken);
    AdvancesAdd(r, n, 4, 2 - taken);
    AdvancesAdd(s0, n, taken, 6 - taken);
  }

  // ---- A recorded key swallows what follows ----

  /** Once a key is recorded as processed, any later delivery under it is answered 200 and changes
      neither the shop nor the row, whatever it says. */
  lemma ProcessedKeySwallows(s: System, n: nat, tenant: Tenant, e: Event)
    requires n !in s.handlers && ValidReference(e.reference) && IsProcessed(s.rows, KeyOf(tenant, e))
    ensures var t := Uninterrupted(s, n, tenant, e);
      t.shop == s.shop && t.rows == s.rows && t.causes == s.causes && Delivery(tenant, e) in t.acked
  {
    hide ValidReference, AfterResolve, MarkOrderPaid, MarkOrderFailed, Settle;
    var s0 := Next(s, Receive(n, tenant, e));
    var s1 := Next(s0, Advance(n));
    var s2 := Next(s1, Advance(n));
    assert Advances(s0, n, 2) == Advances(s1, n, 1) == Advances(s2, n, 0) == s2;
    GoneStaysGone(s2, n, 4);
    AdvancesAdd(s0, n, 2, 4);
  }

  // ---- A payment that is first reported as pending ----

  /** The handler is gone and its key, and no other, was recorded; nothing else moved. */
  ghost predicate OnlyRecorded(s: System, t: System, key: Key) {
    && t.shop == s.shop && t.handlers == s.handlers && IsProcessed(t.rows, key)
    && forall k :: k != key ==> (IsProcessed(t.rows, k) <==> IsProcessed(s.rows, k))
  }

  lemma PendingFinishes(s: System, n: nat, id: OrderId)
    requires n in s.handlers && s.handlers[n].phase == Resolving && s.handlers[n].event.status == NPending
    requires AfterResolve(s.shop.orders, s.handlers[n].tenant, s.handlers[n].event) == Recording(id)
    ensures OnlyRecorded(s.(handlers := s.handlers - {n}), Advances(s, n, 4), HandlerKey(s.handlers[n]))
  {
    hide ValidReference, AfterResolve, MarkOrderPaid, MarkOrderFailed;
    ResolvingRecords(s, n, id);
    ResolvingKeepsRows(s, n, id);
    var s2 := Advances(s, n, 2);
    var s3 := Next(s2, Advance(n));
    var s4 := Next(s3, Advance(n));
    assert Advances(s2, n, 2) == Advances(s3, n, 1) == Advances(s4, n, 0) == s4;
    AdvancesAdd(s, n, 2, 2);
  }

  lemma ResolvingKeepsRows(s: System, n: nat, id: OrderId)
    requires n in s.handlers && s.handlers[n].phase == Resolving
    requires AfterResolve(s.shop.orders, s.handlers[n].tenant, s.handlers[n].event) == Recording(id)
    ensures Advances(s, n, 2).rows == s.rows
    ensures Advances(s, n, 2).handlers - {n} == s.handlers - {n}
  {
    hide ValidReference, AfterResolve, Settle;
    var s1 := Next(s, Advance(n));
    var s2 := Next(s1, Advance(n));
    assert Advances(s, n, 2) == Advances(s1, n, 1) == Advances(s2, n, 0) == s2;
  }

  lemma ReachingKeepsRows(s: System, n: nat, tenant: Tenant, e: Event, taken: nat)
    requires n !in s.handlers && ValidReference(e.reference) && !IsProcessed(s.rows, KeyOf(tenant, e))
    requires taken == if KeyOf(tenant, e) in s.rows then 2 else 1
    ensures var r := Advances(Next(s, Receive(n, tenant, e)), n, taken);
      && r.handlers - {n} == s.handlers
      && forall k :: IsProcessed(r.rows, k) <==> IsProcessed(s.rows, k)
  {
    hide ValidReference, AfterResolve, MarkOrderPaid, MarkOrderFailed, Settle;
    var s0 := Next(s, Receive(n, tenant, e));
    var s1 := Next(s0, Advance(n));
    var s2 := Next(s1, Advance(n));
    assert Advances(s0, n, 1) == Advances(s1, n, 0) == s1;
    assert Advances(s0, n, 2) == Advances(s1, n, 1) == Advances(s2, n, 0) == s2;
  }

  lemma UninterruptedPending(s: System, n: nat, tenant: Tenant, e: Event, id: OrderId)
    requires UniqueOrders(s.shop.orders) && Binds(s.shop.orders, tenant, e, id) && e.status == NPending
    requires n !in s.handlers && !IsProcessed(s.rows, KeyOf(tenant, e))
    ensures OnlyRecorded(s, Uninterrupted(s, n, tenant, e), KeyOf(tenant, e))
  {
    hide ValidReference, AfterResolve, UniqueOrders, Settle, AdvanceHandler, IsProcessed;
    ResolutionIsUnique(s.shop.orders, tenant, e, id);
    var taken := ReachesResolving(s, n, tenant, e);
    ReachingKeepsRows(s, n, tenant, e, taken);
    var s0 := Next(s, Receive(n, tenant, e));
    var r := Advances(s0, n, taken);
    PendingFinishes(r, n, id);
    var t := Advances(r, n, 4);
    GoneStaysGone(t, n, 2 - taken);
    AdvancesAdd(r, n, 4, 2 - taken);
    AdvancesAdd(s0, n, taken, 6 - taken);
  }

  /** A payment reported PENDING and later PAID is settled if and only if the gateway gave the two
      reports different keys; the PAID report is answered 200 either way. */
  lemma PendingThenPaid(s: System, n: nat, m: nat, tenant: Tenant, pending: Event, paid: Event, id: OrderId)
    requires UniqueOrders(s.shop.orders) && id < |s.shop.orders| && Settleable(s.shop.orders[id])
    requires Binds(s.shop.orders, tenant, pending, id) && pending.status == NPending
    requires Binds(s.shop.orders, tenant, paid, id) && paid.status == NPaid
    requires n !in s.handlers && m !in s.handlers
    requires !IsProcessed(s.rows, KeyOf(tenant, pending)) && !IsProcessed(s.rows, KeyOf(tenant, paid))
    ensures var t := Uninterrupted(Uninterrupted(s, n, tenant, pending), m, tenant, paid);
      && id < |t.shop.orders| && Delivery(tenant, paid) in t.acked
      && (t.shop.orders[id].payment == Paid <==> KeyOf(tenant, pending) != KeyOf(tenant, paid))
  {
    hide ValidReference, AfterResolve, UniqueOrders, Next, IsProcessed, Names;
    UninterruptedPending(s, n, tenant, pending, id);
    var r := Uninterrupted(s, n, tenant, pending);
    if KeyOf(tenant, pending) == KeyOf(tenant, paid) {
      ResolutionIsUnique(r.shop.orders, tenant, paid, id);
      ProcessedKeySwallows(r, m, tenant, paid);
    } else {
      UninterruptedSettles(r, m, tenant, paid, id);
    }
  }

  // ---- The false report ----

  /** Under the event's key the merchant is told that a collected payment could not be applied, although
      this very payment is what settled the order, by a delivery under any key or by a lookup. */
  predicate FalseReport(s: System, tenant: Tenant, e: Event) {
    var key := KeyOf(tenant, e);
    && key in s.rows && s.rows[key].processed == Some(PaidOrderNotSettleable)
    && s.rows[key].order.Some? && s.rows[key].order.value in s.causes
    && PaidBy(s.causes[s.rows[key].order.value]) == PaymentOf(e)
  }

  /** Which remedy the merchant is shown for a reported payment (`alertGuidance`). */
  datatype AlertCause = ExpiredOrder | DoubleCharge | Unidentified

  function AlertGuidance(row: Row, orders: seq<Order>): AlertCause {
    if row.order.None? || row.order.value >= |orders| then Unidentified
    else if orders[row.order.value].payment == Paid then DoubleCharge
    else ExpiredOrder
  }

  lemma PaidIsNotSettleable(s: Shop, id: OrderId)
    requires Inv(s) && id < |s.orders|
    ensures s.orders[id].payment == Paid ==> !Settleable(s.orders[id])
  {
  }

  lemma UniqueInRun(s: System)
    requires SystemInv(s)
    ensures UniqueOrders(s.shop.orders)
  {
  }

  /** In any state, an uninterrupted delivery raises the report when its order cannot be settled and its
      payment is the recorded cause. */
  lemma ReportFromCause(s: System, n: nat, tenant: Tenant, e: Event, id: OrderId)
    requires UniqueOrders(s.shop.orders) && Binds(s.shop.orders, tenant, e, id) && e.status == NPaid
    requires n !in s.handlers && !IsProcessed(s.rows, KeyOf(tenant, e))
    ensures FalseReport(Uninterrupted(s, n, tenant, e), tenant, e)
      <==> !Settleable(s.shop.orders[id]) && id in s.causes && PaidBy(s.causes[id]) == PaymentOf(e)
  {
    hide Uninterrupted, UniqueOrders, Names, IsProcessed;
    UninterruptedSettles(s, n, tenant, e, id);
  }

  /** The recorded cause of an order is the payment its payment_confirmed event names. */
  lemma CauseByItsEvent(s: System, id: OrderId, charge: Payment)
    requires SystemInv(s) && CausesStamped(s) && id < |s.shop.orders|
    ensures id in s.causes && PaidBy(s.causes[id]) == charge <==> PaymentConfirmed(id, charge) in s.shop.log
    ensures PaymentConfirmed(id, charge) in s.shop.log ==>
      s.shop.orders[id].payment == Paid && !Settleable(s.shop.orders[id]) && Settlements(s.shop.log, id) == 1
  {
    hide CauseOk, HandlerOk, RowOk, PaidBy;
    assert OrderInv(s.shop.orders[id], id, s.shop.log);
    if PaymentConfirmed(id, charge) in s.shop.log {
      SomeSettlement(s.shop.log, id, charge);
      assert StampedCause(s, id);
      OneSettlement(s.shop.log, id, charge, PaidBy(s.causes[id]));
    } else if id in s.causes {
      assert StampedCause(s, id);
    }
  }

  lemma ReportFromEvent(s: System, n: nat, tenant: Tenant, e: Event, id: OrderId)
    requires SystemInv(s) && CausesStamped(s) && Binds(s.shop.orders, tenant, e, id) && e.status == NPaid
    requires n !in s.handlers && !IsProcessed(s.rows, KeyOf(tenant, e))
    ensures FalseReport(Uninterrupted(s, n, tenant, e), tenant, e) <==> PaymentConfirmed(id, PaymentOf(e)) in s.shop.log
  {
    hide SystemInv, CausesStamped, Uninterrupted, Names, Settleable, IsProcessed;
    UniqueInRun(s);
    ReportFromCause(s, n, tenant, e, id);
    CauseByItsEvent(s, id, PaymentOf(e));
  }

  /** The provider and reference the order shows are the event's. */
  predicate ShowsPayment(o: Order, e: Event) {
    o.payment == Paid && o.provider == Some(e.provider) && o.providerRef.Some?
      && o.providerRef.value.value == e.providerRef
  }

  lemma ShownPayment(s: System, id: OrderId, e: Event)
    requires SystemInv(s) && CausesStamped(s) && id < |s.shop.orders|
    requires s.shop.orders[id].payment == Paid ==>
      s.shop.orders[id].providerRef.Some? && s.shop.orders[id].providerRef.value.verified
    ensures ShowsPayment(s.shop.orders[id], e) <==> PaymentConfirmed(id, PaymentOf(e)) in s.shop.log
  {
    hide CauseOk, HandlerOk, RowOk, PaidBy;
    var o := s.shop.orders[id];
    assert OrderInv(o, id, s.shop.log);
    CauseByItsEvent(s, id, PaymentOf(e));
    if o.payment == Paid && PaymentConfirmed(id, PaymentOf(e)) in s.shop.log {
      OneSettlement(s.shop.log, id, PaymentOf(e), Payment(o.provider.value, o.providerRef.value.value));
    }
  }

  /** After any run, a PAID delivery that binds an order, is not recorded as processed and runs to its end
      raises a false report if and only if the order is already paid and its payment_confirmed event names
      the delivered payment. Unless a late hint has overwritten the reference the order was paid with, that
      is: if and only if the order is paid and shows the event's own provider and reference. */
  lemma FalseReportExactly(stock: Stock, tracked: set<Product>, steps: seq<SystemStep>, n: nat, tenant: Tenant,
                           e: Event, id: OrderId)
    requires forall sku :: sku in stock ==> stock[sku] >= 0
    requires var s := Execute(Start(stock, tracked), steps);
      && Binds(s.shop.orders, tenant, e, id) && e.status == NPaid
      && n !in s.handlers && !IsProcessed(s.rows, KeyOf(tenant, e))
    ensures var s := Execute(Start(stock, tracked), steps);
      var o, reported := s.shop.orders[id], FalseReport(Uninterrupted(s, n, tenant, e), tenant, e);
      && (reported <==> PaymentConfirmed(id, PaymentOf(e)) in s.shop.log)
      && (reported ==> o.payment == Paid)
      && ((o.payment == Paid ==> o.providerRef.Some? && o.providerRef.value.verified) ==>
            (reported <==> ShowsPayment(o, e)))
  {
    var s := Execute(Start(stock, tracked), steps);
    StartKeepsInv(stock, tracked, steps);
    RunKeepsStamped(Start(stock, tracked), steps);
    hide SystemInv, CausesStamped, Execute, Start, Uninterrupted, Names, IsProcessed, FalseReport, ShowsPayment;
    var o := s.shop.orders[id];
    ReportFromEvent(s, n, tenant, e, id);
    CauseByItsEvent(s, id, PaymentOf(e));
    if o.payment == Paid ==> o.providerRef.Some? && o.providerRef.value.verified {
      ShownPayment(s, id, e);
    }
  }

  // ---- Two ways to raise it ----

  /** The report of a payment that has already settled its order: the order is paid once, and the merchant
      is told to refund a duplicate. */
  lemma ReportedAsDouble(s: System, n: nat, tenant: Tenant, e: Event, id: OrderId)
    requires SystemInv(s) && CausesStamped(s) && Binds(s.shop.orders, tenant, e, id) && e.status == NPaid
    requires n !in s.handlers && !IsProcessed(s.rows, KeyOf(tenant, e))
      && PaymentConfirmed(id, PaymentOf(e)) in s.shop.log
    ensures MisreportedAt(Uninterrupted(s, n, tenant, e), tenant, e, id)
      && Uninterrupted(s, n, tenant, e).shop == s.shop
  {
    hide SystemInv, CausesStamped, Uninterrupted, Names, Settleable, IsProcessed;
    UniqueInRun(s);
    CauseByItsEvent(s, id, PaymentOf(e));
    UninterruptedSettles(s, n, tenant, e, id);
  }

  predicate MisreportedAt(t: System, tenant: Tenant, e: Event, id: OrderId) {
    && FalseReport(t, tenant, e) && t.rows[KeyOf(tenant, e)].order == Some(id)
    && AlertGuidance(t.rows[KeyOf(tenant, e)], t.shop.orders) == DoubleCharge
    && Settlements(t.shop.log, id) == 1
  }

  /** A handler that dies between settling the order and stamping its row makes the gateway's retry
      report the order's own payment as unapplied, and since the order is paid the merchant is told to
      refund it as a duplicate. */
  lemma CrashAfterSettlingMisreports(s: System, n: nat, m: nat, id: OrderId)
    requires SystemInv(s) && CausesStamped(s)
    requires n in s.handlers && s.handlers[n].phase == Settling(id) && s.handlers[n].event.status == NPaid
    requires Settleable(s.shop.orders[id]) && !IsProcessed(s.rows, HandlerKey(s.handlers[n])) && m !in s.handlers
    ensures var h := s.handlers[n];
      MisreportedAt(Uninterrupted(Next(Next(s, Advance(n)), Crash(n)), m, h.tenant, h.event), h.tenant, h.event, id)
  {
    hide Next, SystemInv, CausesStamped, Names, MisreportedAt, Uninterrupted, Settleable;
    var h, settled := s.handlers[n], Next(s, Advance(n));
    var crashed := Next(settled, Crash(n));
    NextKeepsInv(s, Advance(n));
    NextKeepsInv(settled, Crash(n));
    NextKeepsStamped(s, Advance(n));
    NextKeepsStamped(settled, Crash(n));
    SettlingBinds(s, n, id);
    SettledThenCrashed(s, crashed, n, id);
    ReportedAsDouble(crashed, m, h.tenant, h.event, id);
  }

  lemma SettlingBinds(s: System, n: nat, id: OrderId)
    requires SystemInv(s) && n in s.handlers && s.handlers[n].phase == Settling(id)
    ensures Binds(s.shop.orders, s.handlers[n].tenant, s.handlers[n].event, id)
  {
    assert HandlerOk(s.handlers[n], s);
  }

  lemma SettledThenCrashed(s: System, crashed: System, n: nat, id: OrderId)
    requires n in s.handlers && s.handlers[n].phase == Settling(id) && s.handlers[n].event.status == NPaid
    requires Binds(s.shop.orders, s.handlers[n].tenant, s.handlers[n].event, id)
    requires Settleable(s.shop.orders[id]) && !IsProcessed(s.rows, HandlerKey(s.handlers[n]))
    requires crashed == Next(Next(s, Advance(n)), Crash(n))
    ensures Binds(crashed.shop.orders, s.handlers[n].tenant, s.handlers[n].event, id)
    ensures PaymentConfirmed(id, PaymentOf(s.handlers[n].event)) in crashed.shop.log
    ensures !IsProcessed(crashed.rows, HandlerKey(s.handlers[n])) && crashed.handlers == s.handlers - {n}
  {
  }

  /** A payment that reconciliation settles before its first delivery arrives is reported the same way
      when it does arrive: the lookup leaves no row under the delivery's key. */
  lemma SettledByLookupMisreports(s: System, n: nat, tenant: Tenant, e: Event, id: OrderId, l: Lookup)
    requires SystemInv(s) && CausesStamped(s) && Binds(s.shop.orders, tenant, e, id) && e.status == NPaid
    requires n !in s.handlers && !IsProcessed(s.rows, KeyOf(tenant, e))
    requires Settleable(s.shop.orders[id]) && s.shop.orders[id].provider.Some? && Bound(l, s.shop.orders[id])
    requires l.status == NPaid && Payment(s.shop.orders[id].provider.value, l.providerRef) == PaymentOf(e)
    ensures MisreportedAt(Uninterrupted(Next(s, Reconcile(id, l)), n, tenant, e), tenant, e, id)
  {
    hide Next, SystemInv, CausesStamped, Names, MisreportedAt, Uninterrupted;
    NextKeepsInv(s, Reconcile(id, l));
    NextKeepsStamped(s, Reconcile(id, l));
    NextGrows(s, Reconcile(id, l));
    BindsAfter(s.shop, Next(s, Reconcile(id, l)).shop, tenant, e, id);
    LookupConfirms(s, id, l);
    ReportedAsDouble(Next(s, Reconcile(id, l)), n, tenant, e, id);
  }

  lemma LookupConfirms(s: System, id: OrderId, l: Lookup)
    requires id < |s.shop.orders| && Settleable(s.shop.orders[id]) && s.shop.orders[id].provider.Some?
    requires Bound(l, s.shop.orders[id]) && l.status == NPaid
    ensures var t := Next(s, Reconcile(id, l));
      && PaymentConfirmed(id, Payment(s.shop.orders[id].provider.value, l.providerRef)) in t.shop.log
      && t.rows == s.rows && t.handlers == s.handlers
  {
  }

  // ---- Runs that raise it ----

  ghost predicate Reached(s: System, stock: Stock) {
    exists steps :: Execute(Start(stock, {}), steps) == s
  }

  lemma {:induction false} ExecuteSnoc(s: System, steps: seq<SystemStep>, step: SystemStep)
    ensures Execute(s, steps + [step]) == Next(Execute(s, steps), step)
    decreases |steps|
  {
    hide Next;
    if steps == [] {
      assert [] + [step] == [step] && [step][1..] == [];
      assert Execute(s, [step]) == Execute(Next(s, step), []);
    } else {
      assert (steps + [step])[1..] == steps[1..] + [step];
      ExecuteSnoc(Next(s, steps[0]), steps[1..], step);
    }
  }

  lemma ReachedNext(s: System, stock: Stock, step: SystemStep)
    requires Reached(s, stock)
    ensures Reached(Next(s, step), stock)
  {
    hide Next, Start;
    var steps :| Execute(Start(stock, {}), steps) == s;
    ExecuteSnoc(Start(stock, {}), steps, step);
  }

  lemma {:induction false} ReachedAdvances(s: System, stock: Stock, n: nat, times: nat)
    requires Reached(s, stock)
    ensures Reached(Advances(s, n, times), stock)
    decreases times
  {
    hide Next, Reached;
    if times > 0 {
      ReachedNext(s, stock, Advance(n));
      ReachedAdvances(Next(s, Advance(n)), stock, n, times - 1);
    }
  }

  lemma ReachedInv(s: System, stock: Stock)
    requires Reached(s, stock) && (forall sku :: sku in stock ==> stock[sku] >= 0)
    ensures SystemInv(s) && CausesStamped(s)
  {
    var steps :| Execute(Start(stock, {}), steps) == s;
    StartKeepsInv(stock, {}, steps);
    RunKeepsStamped(Start(stock, {}), steps);
  }

  lemma ReachedUninterrupted(s: System, stock: Stock, n: nat, tenant: Tenant, e: Event)
    requires Reached(s, stock)
    ensures Reached(Uninterrupted(s, n, tenant, e), stock)
  {
    hide Next, Reached;
    ReachedNext(s, stock, Receive(n, tenant, e));
    ReachedAdvances(Next(s, Receive(n, tenant, e)), stock, n, 6);
  }

  const SKU: Sku := Sku(0, None)
  const SHELF: Stock := map[SKU := 1]

  function DraftWith(provider: Provider): Draft { Draft(1, "vr_a", [Line(SKU, 1)], 500, Some(provider)) }

  function PaymentEvent(provider: Provider): Event {
    Event(provider, "k", "p", "vr_a", NPaid, 500, Some(ORDER_CURRENCY))
  }

  /** One order for 500 cents has been placed and waits for its online payment. */
  predicate Waiting(s: System, provider: Provider) {
    && s.handlers == map[] && s.rows == map[] && |s.shop.orders| == 1
    && Settleable(s.shop.orders[0]) && s.shop.orders[0].provider == Some(provider)
    && s.shop.orders[0].reference == "vr_a" && s.shop.orders[0].totalCents == 500 && s.shop.orders[0].tenant == 1
  }

  lemma OrderPlaced(provider: Provider) returns (s: System)
    ensures Reached(s, SHELF) && Waiting(s, provider) && s.shop.orders[0].providerRef.None?
  {
    var s0, draft := Start(SHELF, {}), DraftWith(provider);
    assert Execute(s0, []) == s0;
    s := Next(s0, InShop(Checkout(draft)));
    ReachedNext(s0, SHELF, InShop(Checkout(draft)));
    AdjustOne(SHELF, {}, Line(SKU, 1), -1);
    assert Available(s0.shop, draft.lines[0]);
  }

  lemma WaitingBinds(s: System, provider: Provider)
    requires Waiting(s, provider)
    ensures Binds(s.shop.orders, 1, PaymentEvent(provider), 0)
  {
    assert "vr_a"[..3] == "vr_";
  }

  /** Some run from the start crashes between settling and stamping, and the retry is misreported. */
  lemma CrashRunHappens(provider: Provider)
    ensures exists t :: Reached(t, SHELF) && MisreportedAt(t, 1, PaymentEvent(provider), 0)
  {
    hide Next, SystemInv, CausesStamped, AfterResolve, UniqueOrders, Names, Reached, MisreportedAt, Uninterrupted;
    var e := PaymentEvent(provider);
    var s := OrderPlaced(provider);
    WaitingBinds(s, provider);
    ReachedInv(s, SHELF);
    UniqueInRun(s);
    ResolutionIsUnique(s.shop.orders, 1, e, 0);
    var taken := ReachesResolving(s, 0, 1, e);
    var received := Next(s, Receive(0, 1, e));
    var resolving := Advances(received, 0, taken);
    ResolvingRecords(resolving, 0, 0);
    var settling := Advances(resolving, 0, 2);
    ReachedNext(s, SHELF, Receive(0, 1, e));
    ReachedAdvances(received, SHELF, 0, taken);
    ReachedAdvances(resolving, SHELF, 0, 2);
    ReachedInv(settling, SHELF);
    SettlingUnprocessed(s, e, resolving, settling, taken);
    CrashAfterSettlingMisreports(settling, 0, 1, 0);
    var settled := Next(settling, Advance(0));
    ReachedNext(settling, SHELF, Advance(0));
    ReachedNext(settled, SHELF, Crash(0));
    ReachedUninterrupted(Next(settled, Crash(0)), SHELF, 1, 1, e);
  }

  lemma SettlingUnprocessed(s: System, e: Event, resolving: System, settling: System, taken: nat)
    requires s.handlers == map[] && s.rows == map[] && ValidReference(e.reference)
    requires AfterResolve(s.shop.orders, 1, e) == Recording(0) && taken == 1
    requires resolving == Advances(Next(s, Receive(0, 1, e)), 0, taken) && resolving.shop == s.shop
    requires 0 in resolving.handlers && resolving.handlers[0] == Handler(1, e, Resolving)
    requires settling == Advances(resolving, 0, 2)
    ensures !IsProcessed(settling.rows, KeyOf(1, e)) && 1 !in settling.handlers
  {
    hide AfterResolve, ValidReference, AdvanceHandler;
    ReachingKeepsRows(s, 0, 1, e, taken);
    ResolvingKeepsRows(resolving, 0, 0);
    assert settling.handlers - {0} == s.handlers;
    assert forall m :: m in settling.handlers && m != 0 ==> m in settling.handlers - {0};
  }

  const HINTED: Lookup := Lookup("p", NPaid, Some("vr_a"), Some(500), Some(ORDER_CURRENCY))

  /** Some run from the start settles a Mercado Pago order by a reconciliation lookup of the hinted
      reference; the payment's own first webhook, run to its end, is then misreported. */
  lemma SweepRunHappens()
    ensures exists t :: Reached(t, SHELF) && MisreportedAt(t, 1, PaymentEvent(MercadoPago), 0)
  {
    hide SystemInv, CausesStamped, Next, Names, Reached, MisreportedAt, Uninterrupted;
    var e := PaymentEvent(MercadoPago);
    var placed := OrderPlaced(MercadoPago);
    var s := HintedLater(placed);
    ReachedInv(s, SHELF);
    WaitingBinds(s, MercadoPago);
    SettledByLookupMisreports(s, 0, 1, e, 0, HINTED);
    ReachedNext(s, SHELF, Reconcile(0, HINTED));
    ReachedUninterrupted(Next(s, Reconcile(0, HINTED)), SHELF, 0, 1, e);
  }

  /** The storefront plants the payment's reference, and more than five minutes pass. */
  lemma HintedLater(placed: System) returns (s: System)
    requires Reached(placed, SHELF) && Waiting(placed, MercadoPago) && placed.shop.orders[0].providerRef.None?
    ensures Reached(s, SHELF) && Waiting(s, MercadoPago)
    ensures s.shop.orders[0].providerRef == Some(Ref("p", false)) && s.shop.now > s.shop.orders[0].createdAt + 300
  {
    hide Reached;
    var checked := Next(placed, InShop(CheckHint(0)));
    var hinted := Next(checked, InShop(WriteHint(0, "p")));
    var elapsed := hinted.shop.orders[0].createdAt + 301;
    ReachedNext(placed, SHELF, InShop(CheckHint(0)));
    ReachedNext(checked, SHELF, InShop(WriteHint(0, "p")));
    ReachedNext(hinted, SHELF, InShop(Tick(elapsed)));
    s := Next(hinted, InShop(Tick(elapsed)));
  }

  /** Looking at the order alone would not do: in some run from the start a hint, checked before the
      settlement and written after it, hides the reference the order was paid with. */
  lemma LateHintHides()
    ensures exists t :: (Reached(t, SHELF) && MisreportedAt(t, 1, PaymentEvent(MercadoPago), 0)
                         && |t.shop.orders| == 1 && t.shop.orders[0].payment == Paid
                         && !ShowsPayment(t.shop.orders[0], PaymentEvent(MercadoPago)))
  {
    hide SystemInv, CausesStamped, Next, Names, Reached, MisreportedAt, Uninterrupted;
    var e := PaymentEvent(MercadoPago);
    var placed := OrderPlaced(MercadoPago);
    var s := HintedTooLate(placed);
    ReachedInv(s, SHELF);
    ReportedAsDouble(s, 0, 1, e, 0);
    ReachedUninterrupted(s, SHELF, 0, 1, e);
  }

  lemma HintedTooLate(placed: System) returns (s: System)
    requires Reached(placed, SHELF) && Waiting(placed, MercadoPago) && placed.shop.orders[0].providerRef.None?
    ensures Reached(s, SHELF) && s.rows == map[] && s.handlers == map[] && |s.shop.orders| == 1
    ensures Binds(s.shop.orders, 1, PaymentEvent(MercadoPago), 0) && s.shop.orders[0].payment == Paid
    ensures PaymentConfirmed(0, PaymentOf(PaymentEvent(MercadoPago))) in s.shop.log
    ensures s.shop.orders[0].providerRef == Some(Ref("q", false))
  {
    hide Reached;
    WaitingBinds(placed, MercadoPago);
    var checked := Next(placed, InShop(CheckHint(0)));
    var settled := Next(checked, Reconcile(0, HINTED));
    ReachedNext(placed, SHELF, InShop(CheckHint(0)));
    ReachedNext(checked, SHELF, Reconcile(0, HINTED));
    ReachedNext(settled, SHELF, InShop(WriteHint(0, "q")));
    s := Next(settled, InShop(WriteHint(0, "q")));
  }
}
