/** What the settle protocol keeps over every interleaving of deliveries, crashes, retries,
    reconciliation and shop transactions. */
module WebhookSafety {
  import opened Options
  import opened Lifecycle
  import opened Webhooks
  import OrderReference
  import Decimal

  // ---- What an event says about an order ----

  predicate Names(o: Order, tenant: Tenant, reference: string) {
    && o.tenant == tenant
    && if OrderReference.IsOrderReference(reference) then o.reference == reference
       else IsPlainNumber(reference) && o.number == Decimal.Parse(reference)
  }

  /** The event, delivered at this tenant's endpoint, is about this order and its whole price. */
  predicate Binds(orders: seq<Order>, tenant: Tenant, e: Event, id: OrderId) {
    && id < |orders|
    && Names(orders[id], tenant, e.reference)
    && e.amountCents == orders[id].totalCents
    && e.currency == Some(ORDER_CURRENCY)
  }

  ghost predicate Grows(was: Shop, now: Shop) {
    |was.orders| <= |now.orders|
    && forall id :: 0 <= id < |was.orders| ==> Evolves(was.orders[id], now.orders[id])
  }

  lemma BindsAfter(was: Shop, now: Shop, tenant: Tenant, e: Event, id: OrderId)
    requires Grows(was, now) && Binds(was.orders, tenant, e, id)
    ensures Binds(now.orders, tenant, e, id)
  {
    assert Evolves(was.orders[id], now.orders[id]);
  }

  lemma ResolvesTo(orders: seq<Order>, tenant: Tenant, e: Event)
    ensures AfterResolve(orders, tenant, e).Recording? || AfterResolve(orders, tenant, e).Stamping?
    ensures AfterResolve(orders, tenant, e).Recording? && ValidReference(e.reference)
            ==> Binds(orders, tenant, e, AfterResolve(orders, tenant, e).id)
    ensures AfterResolve(orders, tenant, e).Stamping?
            ==> AfterResolve(orders, tenant, e).outcome !in {OutcomeConfirmed, PaidOrderNotSettleable}
  {
  }

  /** Resolution finds the one order the event binds: references are unique over the platform and
      numbers within the tenant. */
  lemma ResolutionIsUnique(orders: seq<Order>, tenant: Tenant, e: Event, id: OrderId)
    requires UniqueOrders(orders) && Binds(orders, tenant, e, id)
    ensures ValidReference(e.reference) && AfterResolve(orders, tenant, e) == Recording(id)
  {
    var found := if OrderReference.IsOrderReference(e.reference) then FindReference(orders, e.reference)
                 else FindNumber(orders, tenant, Decimal.Parse(e.reference));
    assert found.Some?;
    DistinctOrders(orders, found.value, id);
  }

  lemma DistinctOrders(orders: seq<Order>, i: OrderId, j: OrderId)
    requires UniqueOrders(orders) && i < |orders| && j < |orders|
    ensures i == j || (orders[i].reference != orders[j].reference
                       && (orders[i].tenant == orders[j].tenant ==> orders[i].number != orders[j].number))
  {
  }

  // ---- The invariant ----

  /** A recorded outcome tells the truth about the order it names. */
  predicate Truthful(outcome: Outcome, order: Option<OrderId>, orders: seq<Order>) {
    && (outcome == OutcomeConfirmed ==> order.Some? && order.value < |orders| && orders[order.value].payment == Paid)
    && (outcome == PaidOrderNotSettleable ==> order.Some? && order.value < |orders| && !Settleable(orders[order.value]))
  }

  predicate RowOk(row: Row, orders: seq<Order>) {
    row.processed.Some? ==> Truthful(row.processed.value, row.order, orders)
  }

  predicate HandlerOk(h: Handler, s: System) {
    && Delivery(h.tenant, h.event) in s.delivered
    && (h.phase != Received ==> HandlerKey(h) in s.rows && ValidReference(h.event.reference))
    && (h.phase.Recording? ==> Binds(s.shop.orders, h.tenant, h.event, h.phase.id))
    && (h.phase.Settling? ==>
      Binds(s.shop.orders, h.tenant, h.event, h.phase.id) && AttemptOf(h, h.phase.id) in s.ledger)
    && (h.phase.Stamping? ==> Truthful(h.phase.outcome, h.phase.order, s.shop.orders))
  }

  /** Why an order is paid: a verified PAID delivery at its own tenant's endpoint, for its own
      reference, amount and currency, with its ledger row written; or a bound gateway lookup. */
  predicate CauseOk(cause: Cause, id: OrderId, s: System) {
    id < |s.shop.orders| &&
    match cause
    case ByWebhook(d) =>
      && d in s.delivered && d.event.status == NPaid
      && Binds(s.shop.orders, d.tenant, d.event, id)
      && Attempt(d.tenant, id, d.event.provider, d.event.providerRef, d.event.amountCents, NPaid) in s.ledger
    case ByLookup(provider, l) =>
      && l.status == NPaid && Bound(l, s.shop.orders[id])
      && (l.amountCents.Some? ==>
            Attempt(s.shop.orders[id].tenant, id, provider, l.providerRef, l.amountCents.value, NPaid) in s.ledger)
  }

  predicate IsProcessed(rows: map<Key, Row>, key: Key) { key in rows && rows[key].processed.Some? }

  ghost predicate SystemInv(s: System) {
    && Inv(s.shop)
    && (forall n :: n in s.handlers ==> HandlerOk(s.handlers[n], s))
    && (forall k :: k in s.rows ==> RowOk(s.rows[k], s.shop.orders))
    && (forall id :: id in s.causes ==> CauseOk(s.causes[id], id, s))
    && (forall id :: 0 <= id < |s.shop.orders| && s.shop.orders[id].payment == Paid ==> id in s.causes)
    && (forall d :: d in s.acked && ValidReference(d.event.reference) ==> IsProcessed(s.rows, KeyOf(d.tenant, d.event)))
  }

  /** History sets only grow and the shop only evolves. */
  ghost predicate Extends(was: System, now: System) {
    && Grows(was.shop, now.shop)
    && was.ledger <= now.ledger && was.delivered <= now.delivered && was.rows.Keys <= now.rows.Keys
  }

  lemma HandlerOkAfter(h: Handler, was: System, now: System)
    requires HandlerOk(h, was) && Extends(was, now)
    ensures HandlerOk(h, now)
  {
    if h.phase.Recording? || h.phase.Settling? {
      BindsAfter(was.shop, now.shop, h.tenant, h.event, h.phase.id);
    }
    if h.phase.Stamping? {
      TruthfulAfter(h.phase.outcome, h.phase.order, was.shop, now.shop);
    }
  }

  lemma TruthfulAfter(outcome: Outcome, order: Option<OrderId>, was: Shop, now: Shop)
    requires Truthful(outcome, order, was.orders) && Grows(was, now)
    ensures Truthful(outcome, order, now.orders)
  {
    if order.Some? && order.value < |was.orders| {
      assert Evolves(was.orders[order.value], now.orders[order.value]);
    }
  }

  lemma CauseOkAfter(cause: Cause, id: OrderId, was: System, now: System)
    requires CauseOk(cause, id, was) && Extends(was, now)
    ensures CauseOk(cause, id, now)
  {
    assert Evolves(was.shop.orders[id], now.shop.orders[id]);
    match cause
    case ByWebhook(d) => BindsAfter(was.shop, now.shop, d.tenant, d.event, id);
    case ByLookup(_, l) =>
  }

  /** What a step may touch besides growing the histories. */
  lemma Carry(was: System, now: System, changed: set<nat>, keys: set<Key>, settled: set<OrderId>)
    requires SystemInv(was) && Extends(was, now) && Inv(now.shop)
    requires forall n :: n in now.handlers ==>
      (n in changed && HandlerOk(now.handlers[n], now)) || (n in was.handlers && now.handlers[n] == was.handlers[n])
    requires forall k :: k in now.rows ==>
      (k in keys && RowOk(now.rows[k], now.shop.orders)) || (k in was.rows && now.rows[k] == was.rows[k])
    requires forall id :: id in now.causes ==>
      (id in settled && CauseOk(now.causes[id], id, now)) || (id in was.causes && now.causes[id] == was.causes[id])
    requires was.causes.Keys <= now.causes.Keys
    requires forall id :: 0 <= id < |now.shop.orders| && now.shop.orders[id].payment == Paid ==>
      id in settled * now.causes.Keys || (id < |was.shop.orders| && was.shop.orders[id].payment == Paid)
    requires forall d :: d in now.acked && ValidReference(d.event.reference) ==>
      IsProcessed(now.rows, KeyOf(d.tenant, d.event))
    ensures SystemInv(now)
  {
    forall n | n in now.handlers ensures HandlerOk(now.handlers[n], now) {
      if n in was.handlers && now.handlers[n] == was.handlers[n] {
        HandlerOkAfter(was.handlers[n], was, now);
      }
    }
    forall k | k in now.rows ensures RowOk(now.rows[k], now.shop.orders) {
      if k in was.rows && now.rows[k] == was.rows[k] && was.rows[k].processed.Some? {
        TruthfulAfter(was.rows[k].processed.value, was.rows[k].order, was.shop, now.shop);
      }
    }
    forall id | id in now.causes ensures CauseOk(now.causes[id], id, now) {
      if id in was.causes && now.causes[id] == was.causes[id] {
        CauseOkAfter(was.causes[id], id, was, now);
      }
    }
  }

  // ---- Every step keeps it ----

  lemma {:induction false} ShopGrows(s: Shop, step: Step)
    requires Inv(s)
    ensures Grows(s, Apply(s, step)) && Inv(Apply(s, step))
  {
    StepKeepsInv(s, step);
    forall id | 0 <= id < |s.orders|
      ensures id < |Apply(s, step).orders| && Evolves(s.orders[id], Apply(s, step).orders[id])
    {
      StepEvolves(s, step, id);
    }
    if |s.orders| > 0 {
      StepEvolves(s, step, |s.orders| - 1);
    }
  }

  lemma SameShopGrows(s: Shop)
    ensures Grows(s, s)
  {
  }

  /** A paid order was paid before, unless this very step marked it paid. */
  lemma NewlyPaid(s: Shop, step: Step, id: OrderId)
    requires id < |Apply(s, step).orders| && Apply(s, step).orders[id].payment == Paid
    ensures (id < |s.orders| && s.orders[id].payment == Paid)
      || (step.MarkPaid? && step.id == id && MarkOrderPaid(s, id, step.charge).1)
  {
  }

  lemma InShopKeepsInv(s: System, step: Step)
    requires SystemInv(s)
    ensures SystemInv(Next(s, InShop(step)))
  {
    var t := Next(s, InShop(step));
    if t != s {
      ShopGrows(s.shop, step);
      forall id | 0 <= id < |t.shop.orders| && t.shop.orders[id].payment == Paid
        ensures id < |s.shop.orders| && s.shop.orders[id].payment == Paid
      {
        NewlyPaid(s.shop, step, id);
      }
      Carry(s, t, {}, {}, {});
    }
  }

  lemma ReceiveKeepsInv(s: System, n: nat, tenant: Tenant, e: Event)
    requires SystemInv(s)
    ensures SystemInv(Next(s, Receive(n, tenant, e)))
  {
    SameShopGrows(s.shop);
    Carry(s, Next(s, Receive(n, tenant, e)), {n}, {}, {});
  }

  lemma CrashKeepsInv(s: System, n: nat)
    requires SystemInv(s)
    ensures SystemInv(Next(s, Crash(n)))
  {
    SameShopGrows(s.shop);
    Carry(s, Next(s, Crash(n)), {}, {}, {});
  }

  /** An order is marked paid and its cause recorded, the rest of the step already accounted for. */
  lemma MarkPaidStep(s: Shop, id: OrderId, charge: Payment)
    requires Inv(s)
    ensures var t := MarkOrderPaid(s, id, charge).0;
      && Grows(s, t) && Inv(t)
      && forall i :: 0 <= i < |t.orders| && t.orders[i].payment == Paid ==>
           (i < |s.orders| && s.orders[i].payment == Paid) || (i == id && MarkOrderPaid(s, id, charge).1)
  {
    ShopGrows(s, MarkPaid(id, charge));
  }

  lemma MarkFailedStep(s: Shop, id: OrderId, charge: Payment)
    requires Inv(s)
    ensures var t := MarkOrderFailed(s, id, charge).0;
      && Grows(s, t) && Inv(t)
      && forall i :: 0 <= i < |t.orders| && t.orders[i].payment == Paid ==>
        i < |s.orders| && s.orders[i].payment == Paid
  {
    ShopGrows(s, MarkFailed(id, charge));
  }

  lemma SettlePaidKeepsInv(s: System, n: nat)
    requires SystemInv(s) && n in s.handlers && s.handlers[n].phase.Settling? && s.handlers[n].event.status == NPaid
    ensures SystemInv(Next(s, Advance(n)))
  {
    hide Inv, RowOk, MarkOrderFailed, Evolves;
    var h, t := s.handlers[n], Next(s, Advance(n));
    var id := h.phase.id;
    assert HandlerOk(h, s);
    MarkPaidStep(s.shop, id, PaymentOf(h.event));
    BindsAfter(s.shop, t.shop, h.tenant, h.event, id);
    Carry(s, t, {n}, {}, if MarkOrderPaid(s.shop, id, PaymentOf(h.event)).1 then {id} else {});
  }

  lemma SettleOtherKeepsInv(s: System, n: nat)
    requires SystemInv(s) && n in s.handlers && s.handlers[n].phase.Settling? && s.handlers[n].event.status != NPaid
    ensures SystemInv(Next(s, Advance(n)))
  {
    hide Inv, CauseOk, RowOk, MarkOrderPaid, MarkOrderFailed, Evolves;
    var h, t := s.handlers[n], Next(s, Advance(n));
    assert HandlerOk(h, s);
    MarkFailedStep(s.shop, h.phase.id, PaymentOf(h.event));
    SameShopGrows(s.shop);
    Carry(s, t, {n}, {}, {});
  }

  lemma RejectedKeepsInv(s: System, n: nat)
    requires SystemInv(s) && n in s.handlers && s.handlers[n].phase == Received
      && !ValidReference(s.handlers[n].event.reference)
    ensures SystemInv(Next(s, Advance(n)))
  {
    hide Inv, CauseOk, ValidReference, AfterResolve;
    var h, t := s.handlers[n], Next(s, Advance(n));
    assert HandlerOk(h, s);
    SameShopGrows(s.shop);
    Carry(s, t, {n}, {HandlerKey(h)}, {});
  }

  lemma ClaimedKeepsInv(s: System, n: nat)
    requires SystemInv(s) && n in s.handlers && s.handlers[n].phase == Received
      && ValidReference(s.handlers[n].event.reference)
    ensures SystemInv(Next(s, Advance(n)))
  {
    hide Inv, CauseOk, ValidReference, AfterResolve;
    var h, t := s.handlers[n], Next(s, Advance(n));
    assert HandlerOk(h, s);
    SameShopGrows(s.shop);
    Carry(s, t, {n}, {HandlerKey(h)}, {});
  }

  lemma ConflictedKeepsInv(s: System, n: nat)
    requires SystemInv(s) && n in s.handlers && s.handlers[n].phase == Conflicted
    ensures SystemInv(Next(s, Advance(n)))
  {
    assert HandlerOk(s.handlers[n], s);
    SameShopGrows(s.shop);
    Carry(s, Next(s, Advance(n)), {n}, {}, {});
  }

  lemma ResolvingKeepsInv(s: System, n: nat)
    requires SystemInv(s) && n in s.handlers && s.handlers[n].phase == Resolving
    ensures SystemInv(Next(s, Advance(n)))
  {
    hide Inv, CauseOk, RowOk, MarkOrderPaid, MarkOrderFailed, Evolves, AfterResolve;
    var h := s.handlers[n];
    assert HandlerOk(h, s);
    ResolvesTo(s.shop.orders, h.tenant, h.event);
    SameShopGrows(s.shop);
    Carry(s, Next(s, Advance(n)), {n}, {}, {});
  }

  lemma RecordingKeepsInv(s: System, n: nat)
    requires SystemInv(s) && n in s.handlers && s.handlers[n].phase.Recording?
    ensures SystemInv(Next(s, Advance(n)))
  {
    assert HandlerOk(s.handlers[n], s);
    SameShopGrows(s.shop);
    Carry(s, Next(s, Advance(n)), {n}, {}, {});
  }

  lemma StampingKeepsInv(s: System, n: nat)
    requires SystemInv(s) && n in s.handlers && s.handlers[n].phase.Stamping?
    ensures SystemInv(Next(s, Advance(n)))
  {
    var h, t := s.handlers[n], Next(s, Advance(n));
    assert HandlerOk(h, s);
    SameShopGrows(s.shop);
    Carry(s, t, {}, {HandlerKey(h)}, {});
  }

  lemma AdvanceKeepsInv(s: System, n: nat)
    requires SystemInv(s) && n in s.handlers
    ensures SystemInv(Next(s, Advance(n)))
  {
    match s.handlers[n].phase
    case Recording(_) => RecordingKeepsInv(s, n);
    case Settling(_) =>
      if s.handlers[n].event.status == NPaid {
        SettlePaidKeepsInv(s, n);
      } else {
        SettleOtherKeepsInv(s, n);
      }
    case Stamping(_, _) => StampingKeepsInv(s, n);
    case Received =>
      if ValidReference(s.handlers[n].event.reference) {
        ClaimedKeepsInv(s, n);
      } else {
        RejectedKeepsInv(s, n);
      }
    case Conflicted => ConflictedKeepsInv(s, n);
    case Resolving => ResolvingKeepsInv(s, n);
  }

  lemma ReconcilePaidKeepsInv(s: System, id: OrderId, l: Lookup)
    requires SystemInv(s) && id < |s.shop.orders| && s.shop.orders[id].provider.Some?
    requires Bound(l, s.shop.orders[id]) && l.status == NPaid
    ensures SystemInv(Next(s, Reconcile(id, l)))
  {
    hide Inv, Truthful, HandlerOk, RowOk, MarkOrderFailed;
    var t, provider := Next(s, Reconcile(id, l)), s.shop.orders[id].provider.value;
    var charge := Payment(provider, l.providerRef);
    MarkPaidStep(s.shop, id, charge);
    assert Evolves(s.shop.orders[id], t.shop.orders[id]);
    assert l.amountCents.Some? ==>
      Attempt(s.shop.orders[id].tenant, id, provider, l.providerRef, l.amountCents.value, NPaid) in t.ledger;
    Carry(s, t, {}, {}, if MarkOrderPaid(s.shop, id, charge).1 then {id} else {});
  }

  lemma ReconcileUnpaidKeepsInv(s: System, id: OrderId, l: Lookup)
    requires SystemInv(s) && id < |s.shop.orders| && s.shop.orders[id].provider.Some?
    requires Bound(l, s.shop.orders[id]) && l.status != NPaid
    ensures SystemInv(Next(s, Reconcile(id, l)))
  {
    hide Inv, Evolves, Truthful, RowOk, HandlerOk, CauseOk, MarkOrderPaid, MarkOrderFailed;
    MarkFailedStep(s.shop, id, Payment(s.shop.orders[id].provider.value, l.providerRef));
    SameShopGrows(s.shop);
    Carry(s, Next(s, Reconcile(id, l)), {}, {}, {});
  }

  lemma ReconcileKeepsInv(s: System, id: OrderId, l: Lookup)
    requires SystemInv(s)
    ensures SystemInv(Next(s, Reconcile(id, l)))
  {
    hide SystemInv;
    if id < |s.shop.orders| && s.shop.orders[id].provider.Some? && Bound(l, s.shop.orders[id]) {
      if l.status == NPaid {
        ReconcilePaidKeepsInv(s, id, l);
      } else {
        ReconcileUnpaidKeepsInv(s, id, l);
      }
    }
  }

  lemma NextKeepsInv(s: System, step: SystemStep)
    requires SystemInv(s)
    ensures SystemInv(Next(s, step))
  {
    match step
    case Receive(n, tenant, e) => ReceiveKeepsInv(s, n, tenant, e);
    case Advance(n) => if n in s.handlers { AdvanceKeepsInv(s, n); }
    case Crash(n) => CrashKeepsInv(s, n);
    case Reconcile(id, l) => ReconcileKeepsInv(s, id, l);
    case InShop(op) => InShopKeepsInv(s, op);
  }

  lemma {:induction false} ExecuteKeepsInv(s: System, steps: seq<SystemStep>)
    requires SystemInv(s)
    ensures SystemInv(Execute(s, steps))
    decreases |steps|
  {
    if steps != [] {
      NextKeepsInv(s, steps[0]);
      ExecuteKeepsInv(Next(s, steps[0]), steps[1..]);
    }
  }

  // ---- Safety over every run ----

  lemma StartKeepsInv(stock: Stock, tracked: set<Product>, steps: seq<SystemStep>)
    requires forall sku :: sku in stock ==> stock[sku] >= 0
    ensures SystemInv(Execute(Start(stock, tracked), steps))
  {
    ExecuteKeepsInv(Start(stock, tracked), steps);
  }

  /** An order is paid only because a verified PAID delivery at its own tenant's endpoint named it with
      its own total in COP, the ledger row already written, or because a gateway lookup bound to it
      said so; and it is marked paid exactly once, whatever is replayed, reordered or crashes. */
  lemma PaidOrdersAreJustified(stock: Stock, tracked: set<Product>, steps: seq<SystemStep>, id: OrderId)
    requires forall sku :: sku in stock ==> stock[sku] >= 0
    requires var s := Execute(Start(stock, tracked), steps);
      id < |s.shop.orders| && s.shop.orders[id].payment == Paid
    ensures var s := Execute(Start(stock, tracked), steps);
      && id in s.causes && CauseOk(s.causes[id], id, s)
      && Settlements(s.shop.log, id) == 1
  {
    StartKeepsInv(stock, tracked, steps);
    var s := Execute(Start(stock, tracked), steps);
    assert OrderInv(s.shop.orders[id], id, s.shop.log);
  }

  /** Stock stays accounted for under the whole protocol, and a recorded outcome never lies about its
      order: `confirmed` names a paid one and `paid_order_not_settleable` one that cannot be settled. */
  lemma RunsStayAccounted(stock: Stock, tracked: set<Product>, steps: seq<SystemStep>)
    requires forall sku :: sku in stock ==> stock[sku] >= 0
    ensures var s := Execute(Start(stock, tracked), steps);
      && (forall sku :: sku in s.shop.stock ==> s.shop.stock[sku] >= 0)
      && (forall id :: 0 <= id < |s.shop.orders| ==> OnceEach(s.shop, id))
      && (forall k :: k in s.rows ==> RowOk(s.rows[k], s.shop.orders))
  {
    StartKeepsInv(stock, tracked, steps);
    var s := Execute(Start(stock, tracked), steps);
    forall id | 0 <= id < |s.shop.orders| ensures OnceEach(s.shop, id) {
      assert OrderInv(s.shop.orders[id], id, s.shop.log);
    }
  }

  ghost predicate QuietSystem(s: System, steps: seq<SystemStep>)
    decreases |steps|
  {
    steps == [] ||
    ((steps[0].InShop? && steps[0].step.SetTracked? ==> Idle(s.shop, steps[0].step.product))
     && QuietSystem(Next(s, steps[0]), steps[1..]))
  }

  /** What the merchant puts on the books along a run of the system. */
  function SystemBooks(books: Stock, s: System, steps: seq<SystemStep>): Stock
    decreases |steps|
  {
    if steps == [] then books else SystemBooks(NextBooks(books, s, steps[0]), Next(s, steps[0]), steps[1..])
  }

  function NextBooks(books: Stock, s: System, step: SystemStep): Stock {
    if step.InShop? then Booked(books, s.shop, step.step) else books
  }

  lemma NextConserves(s: System, step: SystemStep, books: Stock)
    requires SystemInv(s) && Conserved(s.shop, books)
    requires step.InShop? && step.step.SetTracked? ==> Idle(s.shop, step.step.product)
    ensures Conserved(Next(s, step).shop, NextBooks(books, s, step))
  {
    hide Inv, MarkOrderPaid, MarkOrderFailed, AfterResolve, Conserved, Booked, Apply;
    match step
    case Receive(n, tenant, e) =>
    case Advance(n) =>
      if n in s.handlers && s.handlers[n].phase.Settling? {
        MarkConserves(s.shop, s.handlers[n].phase.id, PaymentOf(s.handlers[n].event), books);
      }
    case Crash(n) =>
    case Reconcile(id, l) =>
      if id < |s.shop.orders| && s.shop.orders[id].provider.Some? {
        MarkConserves(s.shop, id, Payment(s.shop.orders[id].provider.value, l.providerRef), books);
      }
    case InShop(op) =>
      StepConserves(s.shop, op, books);
      NotBooked(s.shop, op, books);
  }

  /** Payments reach the shop only through the protocol. */
  lemma NotBooked(s: Shop, op: Step, books: Stock)
    ensures op.MarkPaid? || op.MarkFailed? ==> Booked(books, s, op) == books
  {
  }

  /** Stock plus held units stays what is on the books under the whole protocol. */
  lemma {:induction false} SystemConservation(s: System, steps: seq<SystemStep>, books: Stock)
    requires SystemInv(s) && Conserved(s.shop, books) && QuietSystem(s, steps)
    ensures Conserved(Execute(s, steps).shop, SystemBooks(books, s, steps))
    decreases |steps|
  {
    if steps != [] {
      hide Next, SystemInv, Conserved, NextBooks;
      NextConserves(s, steps[0], books);
      NextKeepsInv(s, steps[0]);
      SystemConservation(Next(s, steps[0]), steps[1..], NextBooks(books, s, steps[0]));
    }
  }
}
