/** What a 200 answer to a PAID delivery means: no payment is lost as long as deliveries that share an
    idempotency key say the same thing. */
module WebhookDelivery {
  import opened Options
  import opened Lifecycle
  import opened Webhooks
  import opened WebhookSafety
  import opened WebhookHistory

  /** Two events the settle rule cannot tell apart. */
  predicate Agree(a: Event, b: Event) {
    a.status == b.status && a.reference == b.reference && a.amountCents == b.amountCents && a.currency == b.currency
  }

  /** Every delivery of the run under this key agrees with the event. */
  predicate DeliveriesAgree(steps: seq<SystemStep>, key: Key, e: Event) {
    forall i :: 0 <= i < |steps| && steps[i].Receive? && KeyOf(steps[i].tenant, steps[i].event) == key
      ==> Agree(steps[i].event, e)
  }

  /** Nothing has been recorded or is being handled under this key yet. */
  predicate Unclaimed(s: System, key: Key) {
    && key !in s.rows
    && (forall n :: n in s.handlers ==> HandlerKey(s.handlers[n]) != key)
    && (forall d :: d in s.acked ==> KeyOf(d.tenant, d.event) != key)
  }

  // ---- The invariant of one payment ----

  /** A row that puts the payment on the merchant's list of payments to review, naming the order. */
  predicate ReportsUnapplied(row: Row, id: OrderId) { row == Row(Some(PaidOrderNotSettleable), Some(id)) }

  /** The outcome is the truth about a payment under this key: it settled the order, or it is reported. */
  predicate Accounts(row: Row, id: OrderId, key: Key, causes: map<OrderId, Cause>) {
    CausedBy(causes, id, key) || ReportsUnapplied(row, id)
  }

  /** Once a PAID event that binds an order is on its way, a handler of its key is heading for that order
      and stamps only what accounts for the payment. */
  predicate OnTrack(h: Handler, e: Event, id: OrderId, orders: seq<Order>, causes: map<OrderId, Cause>) {
    && Agree(h.event, e)
    && (h.phase.Recording? || h.phase.Settling? ==> h.phase.id == id)
    && (h.phase.Stamping? ==>
          id < |orders| && !Settleable(orders[id])
            && Accounts(Row(Some(h.phase.outcome), h.phase.order), id, HandlerKey(h), causes))
  }

  /** What is recorded or answered under the key accounts for the payment. */
  predicate Recorded(s: System, key: Key, id: OrderId)
    requires id < |s.shop.orders|
  {
    && (IsProcessed(s.rows, key) ==> !Settleable(s.shop.orders[id]) && Accounts(s.rows[key], id, key, s.causes))
    && (forall d :: d in s.acked && KeyOf(d.tenant, d.event) == key ==> IsProcessed(s.rows, key))
  }

  predicate Steady(s: System, tenant: Tenant, e: Event, id: OrderId)
    requires id < |s.shop.orders|
  {
    && (forall n :: n in s.handlers && HandlerKey(s.handlers[n]) == KeyOf(tenant, e) ==>
          OnTrack(s.handlers[n], e, id, s.shop.orders, s.causes))
    && Recorded(s, KeyOf(tenant, e), id)
  }

  ghost predicate Tracked(s: System, tenant: Tenant, e: Event, id: OrderId) {
    SystemInv(s) && e.status == NPaid && Binds(s.shop.orders, tenant, e, id) && Steady(s, tenant, e, id)
  }

  lemma AccountsAfter(row: Row, id: OrderId, key: Key, s: System, t: System)
    requires CausesGrow(s, t) && id < |s.shop.orders| && !Settleable(s.shop.orders[id])
    requires Accounts(row, id, key, s.causes)
    ensures Accounts(row, id, key, t.causes)
  {
    CausedByStays(s, t, id, key);
  }

  lemma OnTrackAfter(h: Handler, e: Event, id: OrderId, s: System, t: System)
    requires OnTrack(h, e, id, s.shop.orders, s.causes) && Grows(s.shop, t.shop) && CausesGrow(s, t)
    ensures OnTrack(h, e, id, t.shop.orders, t.causes)
  {
    hide CausesGrow, Accounts;
    if h.phase.Stamping? {
      assert Evolves(s.shop.orders[id], t.shop.orders[id]);
      AccountsAfter(Row(Some(h.phase.outcome), h.phase.order), id, HandlerKey(h), s, t);
    }
  }

  // ---- Steps ----

  lemma MarkingEndsSettleable(s: Shop, id: OrderId, charge: Payment)
    requires id < |s.orders|
    ensures |MarkOrderPaid(s, id, charge).0.orders| == |s.orders|
    ensures !Settleable(MarkOrderPaid(s, id, charge).0.orders[id])
  {
  }

  /** The event of a tracked handler resolves to the tracked order. */
  lemma HandlerResolves(s: System, n: nat, tenant: Tenant, e: Event, id: OrderId)
    requires Tracked(s, tenant, e, id) && n in s.handlers && HandlerKey(s.handlers[n]) == KeyOf(tenant, e)
    ensures var h := s.handlers[n];
      && OnTrack(h, e, id, s.shop.orders, s.causes) && ValidReference(h.event.reference)
      && AfterResolve(s.shop.orders, h.tenant, h.event) == Recording(id)
  {
    hide AfterResolve, ValidReference, AdvanceHandler, Accounts;
    var h := s.handlers[n];
    assert OnTrack(h, e, id, s.shop.orders, s.causes);
    assert UniqueOrders(s.shop.orders);
    assert Binds(s.shop.orders, tenant, h.event, id);
    ResolutionIsUnique(s.shop.orders, tenant, h.event, id);
  }

  predicate Heading(s: System, n: nat, e: Event, id: OrderId) {
    && n in s.handlers && id < |s.shop.orders| && e.status == NPaid
    && OnTrack(s.handlers[n], e, id, s.shop.orders, s.causes) && ValidReference(s.handlers[n].event.reference)
    && AfterResolve(s.shop.orders, s.handlers[n].tenant, s.handlers[n].event) == Recording(id)
    && Recorded(s, HandlerKey(s.handlers[n]), id)
  }

  /** What one operation of a heading handler leaves: it is still heading, or it has stamped and answered. */
  predicate Headed(s: System, t: System, n: nat, e: Event, id: OrderId)
    requires n in s.handlers
  {
    var key := HandlerKey(s.handlers[n]);
    && id < |t.shop.orders|
    && (n in t.handlers ==> OnTrack(t.handlers[n], e, id, t.shop.orders, t.causes) && t.acked == s.acked)
    && (n !in t.handlers ==> IsProcessed(t.rows, key))
    && (IsProcessed(s.rows, key) ==> IsProcessed(t.rows, key))
    && (IsProcessed(t.rows, key) ==> !Settleable(t.shop.orders[id]) && Accounts(t.rows[key], id, key, t.causes))
  }

  /** The settling operation settles the order, or is about to report the payment. */
  lemma SettlingHeaded(s: System, n: nat, e: Event, id: OrderId)
    requires Heading(s, n, e, id) && s.handlers[n].phase == Settling(id)
    ensures Headed(s, Next(s, Advance(n)), n, e, id)
  {
    hide AfterResolve, ValidReference;
    var t, h := Next(s, Advance(n)), s.handlers[n];
    MarkingEndsSettleable(s.shop, id, PaymentOf(h.event));
    assert MarkOrderPaid(s.shop, id, PaymentOf(h.event)).1 ==> CausedBy(t.causes, id, HandlerKey(h));
  }

  lemma OtherwiseHeaded(s: System, n: nat, e: Event, id: OrderId)
    requires Heading(s, n, e, id) && !s.handlers[n].phase.Settling?
    ensures Headed(s, Next(s, Advance(n)), n, e, id)
  {
    hide AfterResolve, ValidReference, MarkOrderPaid, MarkOrderFailed, Settle, CausedBy, Settleable;
  }

  /** A handler of the key stays on track, and a row it stamps accounts for the payment. */
  lemma AdvanceOnTrack(s: System, n: nat, e: Event, id: OrderId)
    requires Heading(s, n, e, id)
    ensures Headed(s, Next(s, Advance(n)), n, e, id)
  {
    hide Headed, Next, AfterResolve, ValidReference;
    if s.handlers[n].phase.Settling? {
      SettlingHeaded(s, n, e, id);
    } else {
      OtherwiseHeaded(s, n, e, id);
    }
  }

  // ---- Steps of others ----

  /** The handlers of a key, what is recorded under it and what was answered under it. */
  ghost predicate KeyUntouched(s: System, t: System, key: Key) {
    && (forall n :: n in t.handlers && HandlerKey(t.handlers[n]) == key ==>
      n in s.handlers && t.handlers[n] == s.handlers[n])
    && (IsProcessed(t.rows, key) <==> IsProcessed(s.rows, key))
    && (IsProcessed(s.rows, key) ==> t.rows[key] == s.rows[key])
    && (forall d :: d in t.acked && KeyOf(d.tenant, d.event) == key ==> d in s.acked)
  }

  /** An operation moves its own handler, its own row and its own answer. */
  predicate TouchesOwn(s: System, t: System, n: nat, h: Handler) {
    && (t.handlers == s.handlers - {n}
        || (n in t.handlers && HandlerKey(t.handlers[n]) == HandlerKey(h)
          && t.handlers == s.handlers[n := t.handlers[n]]))
    && (t.rows == s.rows || (HandlerKey(h) in t.rows && t.rows == s.rows[HandlerKey(h) := t.rows[HandlerKey(h)]]))
    && (t.acked == s.acked || t.acked == s.acked + {Delivery(h.tenant, h.event)})
  }

  lemma AdvanceTouchesOwn(s: System, n: nat)
    requires n in s.handlers
    ensures TouchesOwn(s, AdvanceHandler(s, n, s.handlers[n]), n, s.handlers[n])
  {
    hide Settle, AfterResolve, ValidReference;
    if s.handlers[n].phase.Settling? {
      SettleFrame(s, n, s.handlers[n], s.handlers[n].phase.id);
    }
  }

  lemma OtherKeyFrame(s: System, n: nat, key: Key)
    requires n in s.handlers && HandlerKey(s.handlers[n]) != key
    ensures KeyUntouched(s, AdvanceHandler(s, n, s.handlers[n]), key)
  {
    hide AdvanceHandler;
    AdvanceTouchesOwn(s, n);
  }

  predicate IsOurs(s: System, step: SystemStep, key: Key) {
    step.Advance? && step.h in s.handlers && HandlerKey(s.handlers[step.h]) == key
  }

  predicate Arrives(s: System, step: SystemStep, key: Key) {
    step.Receive? && KeyOf(step.tenant, step.event) == key && step.h !in s.handlers
  }

  /** Steps of other handlers, and of everything else but a new delivery, leave the key alone. */
  lemma ElsewhereFrame(s: System, step: SystemStep, key: Key)
    requires !IsOurs(s, step, key) && !Arrives(s, step, key)
    ensures KeyUntouched(s, Next(s, step), key)
  {
    hide AdvanceHandler, ReconcileOrder, Apply;
    match step
    case Receive(n, tenant, e) =>
    case Advance(n) => if n in s.handlers { OtherKeyFrame(s, n, key); }
    case Crash(n) =>
    case Reconcile(id, l) => ReconcileFrame(s, id, l);
    case InShop(op) =>
  }

  /** A step of one of the key's handlers leaves the other handlers alone. */
  lemma AdvanceFrame(s: System, n: nat)
    requires n in s.handlers
    ensures var t := Next(s, Advance(n));
      && (forall m :: m in t.handlers && m != n ==> m in s.handlers && t.handlers[m] == s.handlers[m])
      && (forall d :: d in t.acked ==> d in s.acked || n !in t.handlers)
  {
    hide MarkOrderPaid, MarkOrderFailed, AfterResolve, ValidReference;
  }

  // ---- One payment, step by step ----

  lemma OursNext(s: System, n: nat, tenant: Tenant, e: Event, id: OrderId)
    requires Tracked(s, tenant, e, id) && IsOurs(s, Advance(n), KeyOf(tenant, e))
    requires Grows(s.shop, Next(s, Advance(n)).shop) && CausesGrow(s, Next(s, Advance(n)))
    ensures Steady(Next(s, Advance(n)), tenant, e, id)
  {
    hide Next, SystemInv, Binds, CausesGrow, OnTrack, Accounts;
    var t := Next(s, Advance(n));
    HandlerResolves(s, n, tenant, e, id);
    AdvanceOnTrack(s, n, e, id);
    AdvanceFrame(s, n);
    forall m | m in t.handlers && HandlerKey(t.handlers[m]) == KeyOf(tenant, e)
      ensures OnTrack(t.handlers[m], e, id, t.shop.orders, t.causes)
    {
      if m != n {
        OnTrackAfter(s.handlers[m], e, id, s, t);
      }
    }
  }

  lemma ElsewhereNext(s: System, t: System, tenant: Tenant, e: Event, id: OrderId)
    requires Tracked(s, tenant, e, id) && Grows(s.shop, t.shop) && CausesGrow(s, t)
      && KeyUntouched(s, t, KeyOf(tenant, e))
    ensures Steady(t, tenant, e, id)
  {
    hide SystemInv, Names, CausesGrow, OnTrack, Accounts;
    var key := KeyOf(tenant, e);
    assert Evolves(s.shop.orders[id], t.shop.orders[id]);
    forall n | n in t.handlers && HandlerKey(t.handlers[n]) == key
      ensures OnTrack(t.handlers[n], e, id, t.shop.orders, t.causes)
    {
      OnTrackAfter(s.handlers[n], e, id, s, t);
    }
    if IsProcessed(s.rows, key) {
      AccountsAfter(s.rows[key], id, key, s, t);
    }
  }

  lemma ArrivalNext(s: System, step: SystemStep, tenant: Tenant, e: Event, id: OrderId)
    requires Tracked(s, tenant, e, id) && Arrives(s, step, KeyOf(tenant, e)) && Agree(step.event, e)
    ensures Steady(Next(s, step), tenant, e, id)
  {
    hide SystemInv, Binds, Accounts;
  }

  lemma TrackedNext(s: System, step: SystemStep, tenant: Tenant, e: Event, id: OrderId)
    requires Tracked(s, tenant, e, id)
    requires step.Receive? && KeyOf(step.tenant, step.event) == KeyOf(tenant, e) ==> Agree(step.event, e)
    ensures Tracked(Next(s, step), tenant, e, id)
  {
    hide Next, SystemInv, Steady;
    NextKeepsInv(s, step);
    NextGrows(s, step);
    NextCauses(s, step);
    BindsAfter(s.shop, Next(s, step).shop, tenant, e, id);
    if IsOurs(s, step, KeyOf(tenant, e)) {
      OursNext(s, step.h, tenant, e, id);
    } else if Arrives(s, step, KeyOf(tenant, e)) {
      ArrivalNext(s, step, tenant, e, id);
    } else {
      ElsewhereFrame(s, step, KeyOf(tenant, e));
      ElsewhereNext(s, Next(s, step), tenant, e, id);
    }
  }

  lemma {:induction false} TrackedRun(s: System, steps: seq<SystemStep>, tenant: Tenant, e: Event, id: OrderId)
    requires Tracked(s, tenant, e, id) && DeliveriesAgree(steps, KeyOf(tenant, e), e)
    ensures Tracked(Execute(s, steps), tenant, e, id)
    decreases |steps|
  {
    if steps != [] {
      hide Next, Tracked;
      TrackedNext(s, steps[0], tenant, e, id);
      assert forall i :: 0 <= i < |steps[1..]| ==> steps[1..][i] == steps[i + 1];
      TrackedRun(Next(s, steps[0]), steps[1..], tenant, e, id);
    }
  }

  // ---- No payment is lost ----

  /** The payment settled the order, or it is on the merchant's list of payments to review. */
  predicate SettledOrReported(s: System, key: Key, id: OrderId) {
    && id < |s.shop.orders| && !Settleable(s.shop.orders[id])
    && ((CausedBy(s.causes, id, key) && s.shop.orders[id].payment == Paid)
      || (key in s.rows && ReportsUnapplied(s.rows[key], id)))
  }

  predicate Answered(s: System, key: Key) { exists d :: d in s.acked && KeyOf(d.tenant, d.event) == key }

  /** No payment is lost. From the moment an order exists and a PAID event binds it, through any
      replays, reordering, crashes, concurrent handlers and shop activity: if any delivery under the
      event's key was answered 200, that payment settled the order, which is paid, or the row of the key
      reports it to the merchant against that very order. */
  lemma NoPaymentLost(stock: Stock, tracked: set<Product>, before: seq<SystemStep>, after: seq<SystemStep>,
                      tenant: Tenant, e: Event, id: OrderId)
    requires forall sku :: sku in stock ==> stock[sku] >= 0
    requires var s := Execute(Start(stock, tracked), before);
      Binds(s.shop.orders, tenant, e, id) && e.status == NPaid && Unclaimed(s, KeyOf(tenant, e))
    requires DeliveriesAgree(after, KeyOf(tenant, e), e)
    ensures var t := Execute(Execute(Start(stock, tracked), before), after);
      Answered(t, KeyOf(tenant, e)) ==> SettledOrReported(t, KeyOf(tenant, e), id)
  {
    var s, key := Execute(Start(stock, tracked), before), KeyOf(tenant, e);
    StartKeepsInv(stock, tracked, before);
    RunKeepsStamped(Start(stock, tracked), before);
    hide Execute, Start, SystemInv;
    TrackedRun(s, after, tenant, e, id);
    RunKeepsStamped(s, after);
    var t := Execute(s, after);
    if Answered(t, key) && CausedBy(t.causes, id, key) {
      assert StampedCause(t, id);
    }
  }
}
