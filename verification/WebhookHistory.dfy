/** The history a run of the settle protocol leaves: which payment settled each order, why, and that
    neither ever changes. */
module WebhookHistory {
  import opened Options
  import opened Lifecycle
  import opened Webhooks
  import opened WebhookSafety

  /** The gateway payment behind a cause. */
  function PaidBy(cause: Cause): Payment {
    match cause
    case ByWebhook(d) => PaymentOf(d.event)
    case ByLookup(provider, l) => Payment(provider, l.providerRef)
  }

  /** A delivery of this key settled the order. */
  predicate CausedBy(causes: map<OrderId, Cause>, id: OrderId, key: Key) {
    id in causes && causes[id].ByWebhook? && KeyOf(causes[id].delivery.tenant, causes[id].delivery.event) == key
  }

  // ---- What steps leave alone ----

  lemma SettleFrame(s: System, n: nat, h: Handler, id: OrderId)
    ensures var t := Settle(s, n, h, id);
      t.rows == s.rows && t.acked == s.acked && n in t.handlers && t.handlers[n].phase.Stamping?
      && t.handlers == s.handlers[n := h.(phase := t.handlers[n].phase)]
  {
    hide MarkOrderPaid, MarkOrderFailed;
  }

  lemma ReconcileFrame(s: System, id: OrderId, l: Lookup)
    ensures ReconcileOrder(s, id, l).handlers == s.handlers
    ensures ReconcileOrder(s, id, l).rows == s.rows
    ensures ReconcileOrder(s, id, l).acked == s.acked
  {
  }

  lemma NextGrows(s: System, step: SystemStep)
    requires SystemInv(s)
    ensures Grows(s.shop, Next(s, step).shop)
  {
    hide Inv, Evolves, MarkOrderPaid, MarkOrderFailed;
    SameShopGrows(s.shop);
    match step
    case Receive(n, tenant, e) =>
    case Advance(n) =>
      if n in s.handlers && s.handlers[n].phase.Settling? {
        MarkPaidStep(s.shop, s.handlers[n].phase.id, PaymentOf(s.handlers[n].event));
        MarkFailedStep(s.shop, s.handlers[n].phase.id, PaymentOf(s.handlers[n].event));
      }
    case Crash(n) =>
    case Reconcile(id, l) =>
      if id < |s.shop.orders| && s.shop.orders[id].provider.Some? {
        MarkPaidStep(s.shop, id, Payment(s.shop.orders[id].provider.value, l.providerRef));
        MarkFailedStep(s.shop, id, Payment(s.shop.orders[id].provider.value, l.providerRef));
      }
    case InShop(op) => ShopGrows(s.shop, op);
  }

  // ---- Causes ----

  /** Causes are kept, and only an order that could be settled gets one. */
  ghost predicate CausesGrow(s: System, t: System) {
    && (forall id :: id in s.causes && (id >= |s.shop.orders| || !Settleable(s.shop.orders[id])) ==>
          id in t.causes && t.causes[id] == s.causes[id])
    && (forall id :: id in t.causes ==>
          (id in s.causes && t.causes[id] == s.causes[id]) || (id < |s.shop.orders| && Settleable(s.shop.orders[id])))
  }

  lemma AdvanceCauses(s: System, n: nat)
    requires n in s.handlers
    ensures CausesGrow(s, AdvanceHandler(s, n, s.handlers[n]))
  {
    hide AfterResolve, ValidReference;
  }

  lemma NextCauses(s: System, step: SystemStep)
    ensures CausesGrow(s, Next(s, step))
  {
    hide AdvanceHandler, Apply;
    match step
    case Advance(n) => if n in s.handlers { AdvanceCauses(s, n); }
    case _ =>
  }

  /** A settled order's cause stays what it is. */
  lemma CausedByStays(s: System, t: System, id: OrderId, key: Key)
    requires CausesGrow(s, t) && id < |s.shop.orders| && !Settleable(s.shop.orders[id])
    ensures CausedBy(s.causes, id, key) <==> CausedBy(t.causes, id, key)
  {
  }

  // ---- Causes and the payment_confirmed events ----

  /** A recorded cause belongs to a paid order and is the payment its payment_confirmed event names. */
  predicate StampedCause(s: System, id: OrderId) {
    id in s.causes && id < |s.shop.orders| && s.shop.orders[id].payment == Paid
    && PaymentConfirmed(id, PaidBy(s.causes[id])) in s.shop.log
  }

  ghost predicate CausesStamped(s: System) { forall id :: id in s.causes ==> StampedCause(s, id) }

  lemma MarkedPaid(s: Shop, id: OrderId, charge: Payment)
    requires MarkOrderPaid(s, id, charge).1
    ensures id < |MarkOrderPaid(s, id, charge).0.orders| && MarkOrderPaid(s, id, charge).0.orders[id].payment == Paid
    ensures PaymentConfirmed(id, charge) in MarkOrderPaid(s, id, charge).0.log
  {
  }

  lemma AdvanceStamps(s: System, n: nat, id: OrderId)
    requires n in s.handlers
    requires id in AdvanceHandler(s, n, s.handlers[n]).causes
    requires id !in s.causes || AdvanceHandler(s, n, s.handlers[n]).causes[id] != s.causes[id]
    ensures StampedCause(AdvanceHandler(s, n, s.handlers[n]), id)
  {
    hide AfterResolve, ValidReference, MarkOrderPaid, MarkOrderFailed;
    MarkedPaid(s.shop, id, PaymentOf(s.handlers[n].event));
  }

  lemma ReconcileStamps(s: System, i: OrderId, l: Lookup, id: OrderId)
    requires id in ReconcileOrder(s, i, l).causes
    requires id !in s.causes || ReconcileOrder(s, i, l).causes[id] != s.causes[id]
    ensures StampedCause(ReconcileOrder(s, i, l), id)
  {
    hide MarkOrderPaid, MarkOrderFailed, Bound;
    MarkedPaid(s.shop, id, Payment(s.shop.orders[i].provider.value, l.providerRef));
  }

  /** A step that records a cause stamps it. */
  lemma NextStamps(s: System, step: SystemStep, id: OrderId)
    requires id in Next(s, step).causes && (id !in s.causes || Next(s, step).causes[id] != s.causes[id])
    ensures StampedCause(Next(s, step), id)
  {
    hide AdvanceHandler, ReconcileOrder, Apply;
    match step
    case Advance(n) => AdvanceStamps(s, n, id);
    case Reconcile(i, l) => ReconcileStamps(s, i, l, id);
    case _ =>
  }

  lemma AdvanceLog(s: System, n: nat)
    requires n in s.handlers
    ensures forall e :: e in s.shop.log ==> e in AdvanceHandler(s, n, s.handlers[n]).shop.log
  {
    hide AfterResolve, ValidReference;
  }

  lemma NextLog(s: System, step: SystemStep)
    ensures forall e :: e in s.shop.log ==> e in Next(s, step).shop.log
  {
    hide AdvanceHandler, Apply;
    match step
    case Advance(n) => if n in s.handlers { AdvanceLog(s, n); }
    case InShop(op) => LogGrows(s.shop, op);
    case _ =>
  }

  lemma NextKeepsStamped(s: System, step: SystemStep)
    requires SystemInv(s) && CausesStamped(s)
    ensures CausesStamped(Next(s, step))
  {
    hide Next, SystemInv, PaidBy;
    var t := Next(s, step);
    NextGrows(s, step);
    NextLog(s, step);
    forall id | id in t.causes ensures StampedCause(t, id) {
      if id in s.causes && t.causes[id] == s.causes[id] {
        assert StampedCause(s, id) && Evolves(s.shop.orders[id], t.shop.orders[id]);
      } else {
        NextStamps(s, step, id);
      }
    }
  }

  lemma {:induction false} RunKeepsStamped(s: System, steps: seq<SystemStep>)
    requires SystemInv(s) && CausesStamped(s)
    ensures CausesStamped(Execute(s, steps))
    decreases |steps|
  {
    if steps != [] {
      hide Next, SystemInv, CausesStamped;
      NextKeepsInv(s, steps[0]);
      NextKeepsStamped(s, steps[0]);
      RunKeepsStamped(Next(s, steps[0]), steps[1..]);
    }
  }

  /** In every run, an order is settled by the payment its one payment_confirmed event names; and that is
      the payment the order itself still shows, unless a hint overwrote the reference afterwards. */
  lemma SettledByItsEvent(stock: Stock, tracked: set<Product>, steps: seq<SystemStep>, id: OrderId, charge: Payment)
    requires forall sku :: sku in stock ==> stock[sku] >= 0
    requires var s := Execute(Start(stock, tracked), steps); id < |s.shop.orders| && s.shop.orders[id].payment == Paid
    ensures var s := Execute(Start(stock, tracked), steps);
      && id in s.causes
      && (PaidBy(s.causes[id]) == charge <==> PaymentConfirmed(id, charge) in s.shop.log)
      && s.shop.orders[id].provider.Some? && s.shop.orders[id].providerRef.Some?
      && (s.shop.orders[id].providerRef.value.verified ==>
            Payment(s.shop.orders[id].provider.value, s.shop.orders[id].providerRef.value.value)
              == PaidBy(s.causes[id]))
  {
    var s := Execute(Start(stock, tracked), steps);
    StartKeepsInv(stock, tracked, steps);
    RunKeepsStamped(Start(stock, tracked), steps);
    hide Execute, Start, CauseOk, HandlerOk, RowOk;
    assert StampedCause(s, id);
    assert OrderInv(s.shop.orders[id], id, s.shop.log);
    var o := s.shop.orders[id];
    if PaymentConfirmed(id, charge) in s.shop.log {
      OneSettlement(s.shop.log, id, charge, PaidBy(s.causes[id]));
    }
    if o.providerRef.value.verified {
      OneSettlement(s.shop.log, id, Payment(o.provider.value, o.providerRef.value.value), PaidBy(s.causes[id]));
    }
  }
}
