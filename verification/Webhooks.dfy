/** The settle protocol of services/api/src/payments: webhook deliveries handled concurrently, each
    as the sequence of database operations the controller performs, interleaved with each other, with
    crashes, with the reconciliation worker and with every shop transaction. */
module Webhooks {
  import opened Options
  import opened Lifecycle
  import OrderReference
  import Decimal

  datatype NormalizedStatus = NPending | NPaid | NFailed | NExpired

  /** `NormalizedPaymentEvent`: what an adapter reports once verification succeeded. */
  datatype Event = Event(
    provider: Provider, eventId: string, providerRef: string, reference: string, status: NormalizedStatus,
    amountCents: int, currency: Option<string>)

  /** The unique key (provider, tenantId, eventId) of WebhookEvent. */
  datatype Key = Key(provider: Provider, tenant: Tenant, eventId: string)

  datatype Outcome =
    | InvalidReference | CrossTenantReference | OrderMissing | AmountMismatch | CurrencyMismatch | CurrencyUnknown
    | OutcomeConfirmed | PaidOrderNotSettleable | OutcomeFailed | FailedNotApplied | Noop(status: NormalizedStatus)

  /** A WebhookEvent row; `processed` is set together with `order`. */
  datatype Row = Row(processed: Option<Outcome>, order: Option<OrderId>)

  /** Where a handler is between two database operations. */
  datatype Phase =
    | Received
    | Conflicted
    | Resolving
    | Recording(id: OrderId)
    | Settling(id: OrderId)
    | Stamping(outcome: Outcome, order: Option<OrderId>)

  datatype Handler = Handler(tenant: Tenant, event: Event, phase: Phase)
  datatype Delivery = Delivery(tenant: Tenant, event: Event)

  /** A row of the Payment ledger. */
  datatype Attempt = Attempt(tenant: Tenant, id: OrderId, provider: Provider, providerRef: string, amountCents: int,
      status: NormalizedStatus)

  /** The gateway's answer to a reconciliation lookup. */
  datatype Lookup = Lookup(providerRef: string, status: NormalizedStatus, reference: Option<string>,
      amountCents: Option<int>, currency: Option<string>)

  datatype Cause = ByWebhook(delivery: Delivery) | ByLookup(provider: Provider, lookup: Lookup)

  /** `delivered`, `acked` and `causes` only record history: the verified deliveries, those answered 200,
      and why each order was settled. */
  datatype System = System(
    shop: Shop, rows: map<Key, Row>, handlers: map<nat, Handler>, ledger: set<Attempt>,
    delivered: set<Delivery>, acked: set<Delivery>, causes: map<OrderId, Cause>)

  datatype SystemStep =
    | Receive(h: nat, tenant: Tenant, event: Event)
    | Advance(h: nat)
    | Crash(h: nat)
    | Reconcile(id: OrderId, lookup: Lookup)
    | InShop(step: Step)

  const ORDER_CURRENCY: string := "COP"
  const MAX_INT4: nat := 2147483647

  function KeyOf(tenant: Tenant, e: Event): Key { Key(e.provider, tenant, e.eventId) }

  function PaymentOf(e: Event): Payment { Payment(e.provider, e.providerRef) }

  function HandlerKey(h: Handler): Key { KeyOf(h.tenant, h.event) }

  // ---- Resolving the order ----

  /** The transitional form: a bare order number inside the int4 range. */
  predicate IsPlainNumber(reference: string) {
    |reference| > 0 && Decimal.AllDigits(reference) && Decimal.Parse(reference) <= MAX_INT4
  }

  predicate ValidReference(reference: string) {
    OrderReference.IsOrderReference(reference) || IsPlainNumber(reference)
  }

  function FindReference(orders: seq<Order>, reference: string): (found: Option<OrderId>)
    ensures found.Some? ==> found.value < |orders| && orders[found.value].reference == reference
    ensures found.None? ==> forall i :: 0 <= i < |orders| ==> orders[i].reference != reference
  {
    if orders == [] then None
    else if orders[|orders| - 1].reference == reference then Some(|orders| - 1)
    else FindReference(orders[..|orders| - 1], reference)
  }

  function FindNumber(orders: seq<Order>, tenant: Tenant, number: nat): (found: Option<OrderId>)
    ensures found.Some? ==>
      found.value < |orders| && orders[found.value].tenant == tenant && orders[found.value].number == number
    ensures found.None? ==> forall i :: 0 <= i < |orders| ==>
      !(orders[i].tenant == tenant && orders[i].number == number)
  {
    if orders == [] then None
    else if orders[|orders| - 1].tenant == tenant && orders[|orders| - 1].number == number then Some(|orders| - 1)
    else FindNumber(orders[..|orders| - 1], tenant, number)
  }

  /** Order lookup, tenant check, amount check and currency check, in the controller's order. */
  function AfterResolve(orders: seq<Order>, tenant: Tenant, e: Event): Phase {
    var current := OrderReference.IsOrderReference(e.reference);
    var found := if current then FindReference(orders, e.reference)
                 else FindNumber(orders, tenant, Decimal.Parse(e.reference));
    if found.None? then Stamping(OrderMissing, None)
    else if current && orders[found.value].tenant != tenant then Stamping(CrossTenantReference, None)
    else if e.amountCents != orders[found.value].totalCents then Stamping(AmountMismatch, found)
    else if e.currency.None? then Stamping(CurrencyUnknown, found)
    else if e.currency.value != ORDER_CURRENCY then Stamping(CurrencyMismatch, found)
    else Recording(found.value)
  }

  function AttemptOf(h: Handler, id: OrderId): Attempt {
    Attempt(h.tenant, id, h.event.provider, h.event.providerRef, h.event.amountCents, h.event.status)
  }

  // ---- The handler's operations ----

  function Goto(s: System, n: nat, h: Handler, phase: Phase): System {
    s.(handlers := s.handlers[n := h.(phase := phase)])
  }

  /** The handler answers 200 and is gone. */
  function Finish(s: System, n: nat, h: Handler): System {
    s.(handlers := s.handlers - {n}, acked := s.acked + {Delivery(h.tenant, h.event)})
  }

  /** One database operation of handler `n`. */
  function AdvanceHandler(s: System, n: nat, h: Handler): System {
    var key := HandlerKey(h);
    match h.phase
    case Received =>
      if !ValidReference(h.event.reference) then
        Finish(if key in s.rows then s else s.(rows := s.rows[key := Row(Some(InvalidReference), None)]), n, h)
      else if key in s.rows then Goto(s, n, h, Conflicted)
      else Goto(s.(rows := s.rows[key := Row(None, None)]), n, h, Resolving)
    case Conflicted =>
      if key in s.rows && s.rows[key].processed.Some? then Finish(s, n, h) else Goto(s, n, h, Resolving)
    case Resolving => Goto(s, n, h, AfterResolve(s.shop.orders, h.tenant, h.event))
    case Recording(id) => Goto(s.(ledger := s.ledger + {AttemptOf(h, id)}), n, h, Settling(id))
    case Settling(id) => Settle(s, n, h, id)
    case Stamping(outcome, order) => Finish(s.(rows := s.rows[key := Row(Some(outcome), order)]), n, h)
  }

  function Settle(s: System, n: nat, h: Handler, id: OrderId): System {
    match h.event.status
    case NPaid =>
      var (shop, settled) := MarkOrderPaid(s.shop, id, PaymentOf(h.event));
      var marked := s.(shop := shop,
                       causes := if settled then s.causes[id := ByWebhook(Delivery(h.tenant, h.event))] else s.causes);
      Goto(marked, n, h, Stamping(if settled then OutcomeConfirmed else PaidOrderNotSettleable, Some(id)))
    case NFailed =>
      var (shop, applied) := MarkOrderFailed(s.shop, id, PaymentOf(h.event));
      Goto(s.(shop := shop), n, h, Stamping(if applied then OutcomeFailed else FailedNotApplied, Some(id)))
    case _ => Goto(s, n, h, Stamping(Noop(h.event.status), Some(id)))
  }

  /** `checkOrderBinding` returned no objection. */
  predicate Bound(l: Lookup, o: Order) {
    l.reference == Some(o.reference)
    && (l.amountCents.Some? ==> l.amountCents.value == o.totalCents && l.currency == Some(ORDER_CURRENCY))
  }

  /** The settling half of `reconcileOneOrder`, for a lookup already answered by the gateway. */
  function ReconcileOrder(s: System, id: OrderId, l: Lookup): System {
    if id >= |s.shop.orders| || s.shop.orders[id].provider.None? || !Bound(l, s.shop.orders[id]) then s
    else
      var o := s.shop.orders[id];
      var recorded := if l.amountCents.None? then s
        else s.(ledger := s.ledger
          + {Attempt(o.tenant, id, o.provider.value, l.providerRef, l.amountCents.value, l.status)});
      match l.status
      case NPaid =>
        var (shop, settled) := MarkOrderPaid(s.shop, id, Payment(o.provider.value, l.providerRef));
        recorded.(shop := shop, causes := if settled then s.causes[id := ByLookup(o.provider.value, l)] else s.causes)
      case NPending => recorded
      case _ => recorded.(shop := MarkOrderFailed(s.shop, id, Payment(o.provider.value, l.providerRef)).0)
  }

  function Next(s: System, step: SystemStep): System {
    match step
    case Receive(n, tenant, e) =>
      if n in s.handlers then s
      else s.(handlers := s.handlers[n := Handler(tenant, e, Received)],
        delivered := s.delivered + {Delivery(tenant, e)})
    case Advance(n) => if n in s.handlers then AdvanceHandler(s, n, s.handlers[n]) else s
    case Crash(n) => s.(handlers := s.handlers - {n})
    case Reconcile(id, l) => ReconcileOrder(s, id, l)
    case InShop(step) => if step.MarkPaid? || step.MarkFailed? then s else s.(shop := Apply(s.shop, step))
  }

  function Execute(s: System, steps: seq<SystemStep>): System
    decreases |steps|
  {
    if steps == [] then s else Execute(Next(s, steps[0]), steps[1..])
  }

  function Start(stock: Stock, tracked: set<Product>): System {
    System(Opening(stock, tracked), map[], map[], {}, {}, {}, map[])
  }
}
