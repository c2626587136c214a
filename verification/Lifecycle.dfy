/** Orders and stock: checkout, the merchant's transitions, the payment transitions and the expiry
    sweep, each as the one database transaction the services run it in
    (services/api/src/checkout, orders and payments). Failures roll the whole transaction back. */
module Lifecycle {
  import opened Options

  type Tenant = nat
  type Product = nat
  type OrderId = nat

  datatype Provider = Wompi | MercadoPago | Epayco
  datatype OrderStatus = Pending | Confirmed | Preparing | Shipped | Delivered | Cancelled
  datatype PaymentStatus = Awaiting | Paid | Failed | Expired | Cod
  datatype Action = Confirm | Prepare | Ship | Deliver | Cancel

  /** A product, or one of its variants; each has its own stock row. */
  datatype Sku = Sku(product: Product, variant: Option<nat>)
  datatype Line = Line(sku: Sku, qty: nat)
  type Stock = map<Sku, int>

  /** A gateway's payment, and an order's `providerRef` with its provenance. */
  datatype Payment = Payment(provider: Provider, ref: string)
  datatype Ref = Ref(value: string, verified: bool)

  datatype Order = Order(
    tenant: Tenant, number: nat, reference: string, lines: seq<Line>, totalCents: nat,
    status: OrderStatus, payment: PaymentStatus, provider: Option<Provider>, reservedUntil: Option<nat>, createdAt: nat,
    providerRef: Option<Ref>)

  /** InventoryMovement reasons and the payment_confirmed order event, in commit order. */
  datatype Entry =
    | Reserved(id: OrderId)
    | TakenOnConfirm(id: OrderId)
    | ReturnedOnCancel(id: OrderId)
    | ReturnedOnExpiry(id: OrderId)
    | PaymentConfirmed(id: OrderId, payment: Payment)

  /** `sweep` and `hints` hold the orders an expiry sweep or a reference hint has read and will write. */
  datatype Shop = Shop(
    orders: seq<Order>, stock: Stock, tracked: set<Product>, log: seq<Entry>, now: nat,
    sweep: set<OrderId>, hints: set<OrderId>)

  datatype Error = CartEmpty | InsufficientStock | OrderNotFound | InvalidTransition | OnlinePaymentPending
                 | StockBelowZero | UniqueViolation
  datatype Result = Ok(shop: Shop) | Err(error: Error)

  const STOCK_RESERVATION: nat := 15 * 60

  datatype Draft = Draft(tenant: Tenant, reference: string, lines: seq<Line>, totalCents: nat,
      provider: Option<Provider>)

  datatype Step =
    | Checkout(draft: Draft)
    | Act(id: OrderId, action: Action)
    | MarkPaid(id: OrderId, charge: Payment)
    | MarkFailed(id: OrderId, charge: Payment)
    | SelectExpired
    | ExpireOne(id: OrderId)
    | CheckHint(id: OrderId)
    | WriteHint(id: OrderId, ref: string)
    | SetTracked(product: Product, on: bool)
    | AdjustStock(sku: Sku, delta: int)
    | ReplaceVariants(product: Product, rows: map<nat, nat>)
    | Tick(elapsed: nat)

  // ---- Stock adjustment ----

  /** One line's conditional UPDATE: no row touched means the floor check failed. */
  function AdjustLine(stock: Stock, tracked: set<Product>, line: Line, delta: int): Option<Stock> {
    if line.sku.product !in tracked then Some(stock)
    else if line.sku !in stock || stock[line.sku] + delta < 0 then None
    else Some(stock[line.sku := stock[line.sku] + delta])
  }

  /** The services' loop over the order's lines inside one transaction; `sign` is -1 or 1. */
  function Adjust(stock: Stock, tracked: set<Product>, lines: seq<Line>, sign: int): Option<Stock> {
    if lines == [] then Some(stock)
    else
      match AdjustLine(stock, tracked, lines[0], sign * lines[0].qty)
      case None => None
      case Some(next) => Adjust(next, tracked, lines[1..], sign)
  }

  /** Units of one stock row that the lines ask for. */
  function Units(lines: seq<Line>, sku: Sku): nat {
    if lines == [] then 0
    else (if lines[0].sku == sku then lines[0].qty else 0) + Units(lines[1..], sku)
  }

  function UnitsTracked(tracked: set<Product>, lines: seq<Line>, sku: Sku): nat {
    if sku.product in tracked then Units(lines, sku) else 0
  }

  lemma {:induction false} AdjustEffect(stock: Stock, tracked: set<Product>, lines: seq<Line>, sign: int)
    requires sign == -1 || sign == 1
    requires Adjust(stock, tracked, lines, sign).Some?
    ensures Adjust(stock, tracked, lines, sign).value.Keys == stock.Keys
    ensures forall sku :: sku in stock ==>
      Adjust(stock, tracked, lines, sign).value[sku] == stock[sku] + sign * UnitsTracked(tracked, lines, sku)
    ensures (forall sku :: sku in stock ==> stock[sku] >= 0) ==>
      forall sku :: sku in stock ==> Adjust(stock, tracked, lines, sign).value[sku] >= 0
    decreases |lines|
  {
    if lines != [] {
      AdjustEffect(AdjustLine(stock, tracked, lines[0], sign * lines[0].qty).value, tracked, lines[1..], sign);
    }
  }

  /** A row every tracked line can be given back to. */
  predicate HasRows(stock: Stock, tracked: set<Product>, lines: seq<Line>) {
    forall i :: 0 <= i < |lines| && lines[i].sku.product in tracked ==> lines[i].sku in stock
  }

  /** Giving units back never fails the floor check, but it does fail without a row to give them to. */
  lemma {:induction false} RestockSucceeds(stock: Stock, tracked: set<Product>, lines: seq<Line>)
    requires forall sku :: sku in stock ==> stock[sku] >= 0
    ensures Adjust(stock, tracked, lines, 1).Some? <==> HasRows(stock, tracked, lines)
    decreases |lines|
  {
    if lines != [] {
      assert lines == [lines[0]] + lines[1..];
      var next := AdjustLine(stock, tracked, lines[0], lines[0].qty);
      if next.Some? {
        RestockSucceeds(next.value, tracked, lines[1..]);
        assert HasRows(stock, tracked, lines) <==> HasRows(next.value, tracked, lines[1..]);
      }
    }
  }

  // ---- The transactions ----

  function MaxNumber(orders: seq<Order>, tenant: Tenant): (max: nat)
    ensures forall i :: 0 <= i < |orders| && orders[i].tenant == tenant ==> orders[i].number <= max
  {
    if orders == [] then 0
    else
      var rest := MaxNumber(orders[..|orders| - 1], tenant);
      var last := orders[|orders| - 1];
      if last.tenant == tenant && last.number > rest then last.number else rest
  }

  /** `createOrder`: every line is checked against current stock; an online order then takes it. */
  function PlaceOrder(s: Shop, d: Draft): Result {
    if d.lines == [] then Err(CartEmpty)
    else if exists i :: 0 <= i < |d.lines| && !Available(s, d.lines[i]) then Err(InsufficientStock)
    else if exists i :: 0 <= i < |s.orders| && s.orders[i].reference == d.reference then Err(UniqueViolation)
    else
      var order := Order(d.tenant, MaxNumber(s.orders, d.tenant) + 1, d.reference, d.lines, d.totalCents, Pending,
                         if d.provider.Some? then Awaiting else Cod, d.provider,
                         if d.provider.Some? then Some(s.now + STOCK_RESERVATION) else None, s.now, None);
      if d.provider.None? then Ok(s.(orders := s.orders + [order]))
      else
        match Adjust(s.stock, s.tracked, d.lines, -1)
        case None => Err(InsufficientStock)
        case Some(stock) => Ok(s.(orders := s.orders + [order], stock := stock, log := s.log + [Reserved(|s.orders|)]))
  }

  predicate Available(s: Shop, line: Line) {
    line.sku in s.stock && (line.sku.product in s.tracked ==> s.stock[line.sku] >= line.qty)
  }

  function Allowed(status: OrderStatus): set<Action> {
    match status
    case Pending => {Confirm, Cancel}
    case Confirmed => {Prepare, Cancel}
    case Preparing => {Ship, Cancel}
    case Shipped => {Deliver, Cancel}
    case Delivered => {}
    case Cancelled => {}
  }

  function Target(action: Action): OrderStatus {
    match action
    case Confirm => Confirmed
    case Prepare => Preparing
    case Ship => Shipped
    case Deliver => Delivered
    case Cancel => Cancelled
  }

  /** `isBlockedByPendingOnlinePayment` */
  predicate BlockedByPendingPayment(action: Action, o: Order) {
    action == Confirm && o.payment == Awaiting && o.provider.Some?
  }

  predicate Restockable(status: OrderStatus) { status in {Confirmed, Preparing, Shipped} }

  predicate TakesStock(action: Action, o: Order) { action == Confirm && o.reservedUntil.None? }

  predicate ReturnsStock(action: Action, o: Order) {
    action == Cancel && (Restockable(o.status) || o.reservedUntil.Some?)
  }

  /** `OrdersService.transition` */
  function Transition(s: Shop, id: OrderId, action: Action): Result {
    if id >= |s.orders| then Err(OrderNotFound)
    else
      var o := s.orders[id];
      if action !in Allowed(o.status) then Err(InvalidTransition)
      else if BlockedByPendingPayment(action, o) then Err(OnlinePaymentPending)
      else
        var payment := if action == Cancel && (o.payment == Awaiting || o.payment == Failed) then Expired
                       else o.payment;
        var next := o.(status := Target(action), payment := payment, reservedUntil := None);
        var moved := s.(orders := s.orders[id := next]);
        if TakesStock(action, o) then
          match Adjust(s.stock, s.tracked, o.lines, -1)
          case None => Err(StockBelowZero)
          case Some(stock) => Ok(moved.(stock := stock, log := s.log + [TakenOnConfirm(id)]))
        else if ReturnsStock(action, o) then
          match Adjust(s.stock, s.tracked, o.lines, 1)
          case None => Err(StockBelowZero)
          case Some(stock) => Ok(moved.(stock := stock, log := s.log + [ReturnedOnCancel(id)]))
        else Ok(moved)
  }

  predicate Settleable(o: Order) {
    o.status == Pending && (o.payment == Awaiting || o.payment == Failed)
  }

  /** `PaymentsService.markPaid`: the new state and whether the order moved. */
  function MarkOrderPaid(s: Shop, id: OrderId, charge: Payment): (Shop, bool) {
    if id >= |s.orders| || !Settleable(s.orders[id]) then (s, false)
    else
      (s.(orders := s.orders[id := s.orders[id].(status := Confirmed, payment := Paid, reservedUntil := None,
                                                 provider := Some(charge.provider),
                                                 providerRef := Some(Ref(charge.ref, true)))],
          log := s.log + [PaymentConfirmed(id, charge)]),
       true)
  }

  /** `PaymentsService.markFailed` */
  function MarkOrderFailed(s: Shop, id: OrderId, charge: Payment): (Shop, bool) {
    if id >= |s.orders| || s.orders[id].status != Pending || s.orders[id].payment != Awaiting then (s, false)
    else
      (s.(orders := s.orders[id := s.orders[id].(payment := Failed, providerRef := Some(Ref(charge.ref, true)))]), true)
  }

  /** The check of the provider-ref hint endpoint, which writes later and without looking again. */
  predicate Hintable(o: Order) {
    o.provider.Some? && (o.payment == Awaiting || o.payment == Failed)
      && !(o.providerRef.Some? && o.providerRef.value.verified)
  }

  function PlantHint(s: Shop, id: OrderId, ref: string): Shop
    requires id < |s.orders|
  {
    s.(orders := s.orders[id := s.orders[id].(providerRef := Some(Ref(ref, false)))], hints := s.hints - {id})
  }

  /** The sweep's candidate query; each candidate is expired in a later transaction of its own. */
  function Lapsed(s: Shop): set<OrderId> {
    set id | 0 <= id < |s.orders| && s.orders[id].status == Pending && s.orders[id].reservedUntil.Some?
             && s.orders[id].reservedUntil.value < s.now
  }

  /** `expireOneReservation`: re-reads the order and re-checks the status only. */
  function ExpireReservation(s: Shop, id: OrderId): Result {
    if id >= |s.orders| then Err(OrderNotFound)
    else if s.orders[id].status != Pending then Ok(s)
    else
      match Adjust(s.stock, s.tracked, s.orders[id].lines, 1)
      case None => Err(StockBelowZero)
      case Some(stock) =>
        Ok(s.(orders := s.orders[id := s.orders[id].(status := Cancelled, payment := Expired, reservedUntil := None)],
              stock := stock, log := s.log + [ReturnedOnExpiry(id)]))
  }

  function Committed(s: Shop, r: Result): Shop { if r.Ok? then r.shop else s }

  function ExpireCandidate(s: Shop, id: OrderId): Shop {
    var t := s.(sweep := s.sweep - {id});
    if id in s.sweep then Committed(t, ExpireReservation(t, id)) else s
  }

  /** The merchant's own stock adjustment, under the same floor check. */
  function AdjustRow(s: Shop, sku: Sku, delta: int): Shop {
    if sku in s.stock && s.stock[sku] + delta >= 0 then s.(stock := s.stock[sku := s.stock[sku] + delta]) else s
  }

  // ---- Replacing a product's variants ----

  predicate IsVariantOf(sku: Sku, p: Product) { sku.product == p && sku.variant.Some? }

  function WithoutVariants(stock: Stock, p: Product): Stock {
    map sku | sku in stock && !IsVariantOf(sku, p) :: stock[sku]
  }

  function NewRows(p: Product, rows: map<nat, nat>): Stock { map v | v in rows :: Sku(p, Some(v)) := rows[v] }

  /** The generated ids are new: no stock row and no order line has them. */
  predicate FreshRows(s: Shop, p: Product, rows: map<nat, nat>) {
    forall v :: v in rows ==> Sku(p, Some(v)) !in s.stock && Unmentioned(s.orders, Sku(p, Some(v)))
  }

  predicate Unmentioned(orders: seq<Order>, sku: Sku) {
    forall i, k :: 0 <= i < |orders| && 0 <= k < |orders[i].lines| ==> orders[i].lines[k].sku != sku
  }

  function Replaced(stock: Stock, p: Product, rows: map<nat, nat>): Stock {
    WithoutVariants(stock, p) + NewRows(p, rows)
  }

  function Apply(s: Shop, step: Step): Shop {
    match step
    case Checkout(d) => Committed(s, PlaceOrder(s, d))
    case Act(id, action) => Committed(s, Transition(s, id, action))
    case MarkPaid(id, charge) => MarkOrderPaid(s, id, charge).0
    case MarkFailed(id, charge) => MarkOrderFailed(s, id, charge).0
    case SelectExpired => s.(sweep := s.sweep + Lapsed(s))
    case ExpireOne(id) => ExpireCandidate(s, id)
    case CheckHint(id) => if id < |s.orders| && Hintable(s.orders[id]) then s.(hints := s.hints + {id}) else s
    case WriteHint(id, ref) => if id in s.hints && id < |s.orders| then PlantHint(s, id, ref) else s
    case SetTracked(p, on) => s.(tracked := if on then s.tracked + {p} else s.tracked - {p})
    case AdjustStock(sku, delta) => AdjustRow(s, sku, delta)
    case ReplaceVariants(p, rows) => if FreshRows(s, p, rows) then s.(stock := Replaced(s.stock, p, rows)) else s
    case Tick(elapsed) => s.(now := s.now + elapsed)
  }

  function Run(s: Shop, steps: seq<Step>): Shop
    decreases |steps|
  {
    if steps == [] then s else Run(Apply(s, steps[0]), steps[1..])
  }

  function Opening(stock: Stock, tracked: set<Product>): Shop { Shop([], stock, tracked, [], 0, {}, {}) }

  // ---- The invariant ----

  /** The order holds units that were taken out of stock for it. */
  predicate Holding(o: Order) {
    o.status in {Confirmed, Preparing, Shipped, Delivered} || (o.status == Pending && o.reservedUntil.Some?)
  }

  predicate CoherentOrder(o: Order) {
    && (o.status == Pending ==> (o.provider.Some? <==> o.reservedUntil.Some?))
    && (o.status != Pending ==> o.reservedUntil.None?)
    && (o.provider.None? <==> o.payment == Cod)
    && (o.status == Pending ==> o.payment in {Awaiting, Failed, Cod})
    && (o.payment == Paid ==> o.status != Pending)
    && (o.payment == Awaiting ==> o.status == Pending)
    && (o.status == Cancelled ==> o.payment in {Paid, Expired, Cod})
    && (o.payment == Expired ==> o.status == Cancelled)
    && (o.reservedUntil.Some? ==> o.reservedUntil.value == o.createdAt + STOCK_RESERVATION)
  }

  function Taken(log: seq<Entry>, id: OrderId): nat {
    if log == [] then 0
    else Taken(log[..|log| - 1], id) + (if log[|log| - 1] in {Reserved(id), TakenOnConfirm(id)} then 1 else 0)
  }

  function Returned(log: seq<Entry>, id: OrderId): nat {
    if log == [] then 0
    else
      Returned(log[..|log| - 1], id)
      + (if log[|log| - 1] in {ReturnedOnCancel(id), ReturnedOnExpiry(id)} then 1 else 0)
  }

  predicate Confirms(e: Entry, id: OrderId) { e.PaymentConfirmed? && e.id == id }

  function Settlements(log: seq<Entry>, id: OrderId): nat {
    if log == [] then 0
    else Settlements(log[..|log| - 1], id) + (if Confirms(log[|log| - 1], id) then 1 else 0)
  }

  /** The log agrees with one order: what was taken and not returned is exactly what it holds. */
  predicate Accounted(log: seq<Entry>, id: OrderId, o: Order) {
    && Taken(log, id) <= 1
    && Returned(log, id) <= Taken(log, id)
    && (Holding(o) <==> Taken(log, id) == 1 && Returned(log, id) == 0)
    && (Returned(log, id) > 0 ==> o.status == Cancelled)
    && Settlements(log, id) == (if o.payment == Paid then 1 else 0)
  }

  /** A paid order's reference is the one it was paid with, unless a hint overwrote it. */
  predicate Stamped(log: seq<Entry>, id: OrderId, o: Order) {
    o.payment == Paid ==>
      o.provider.Some? && o.providerRef.Some?
      && (o.providerRef.value.verified ==>
        PaymentConfirmed(id, Payment(o.provider.value, o.providerRef.value.value)) in log)
  }

  ghost predicate OrderInv(o: Order, id: OrderId, log: seq<Entry>) {
    CoherentOrder(o) && Accounted(log, id, o) && Stamped(log, id, o)
  }

  /** The unique constraints: references over the whole platform, numbers within a tenant. */
  ghost predicate UniqueOrders(orders: seq<Order>) {
    forall i, j :: 0 <= i < j < |orders| ==>
      orders[i].reference != orders[j].reference
      && (orders[i].tenant == orders[j].tenant ==> orders[i].number != orders[j].number)
  }

  /** The order's fifteen minutes are over. */
  predicate Overdue(s: Shop, o: Order) { s.now > o.createdAt + STOCK_RESERVATION }

  ghost predicate Inv(s: Shop) {
    && (forall id :: 0 <= id < |s.orders| ==> OrderInv(s.orders[id], id, s.log))
    && (forall e :: e in s.log ==> e.id < |s.orders|)
    && (forall id :: id in s.sweep ==> id < |s.orders| && s.orders[id].provider.Some? && Overdue(s, s.orders[id]))
    && (forall e :: e in s.log && e.ReturnedOnExpiry? ==> Overdue(s, s.orders[e.id]))
    && (forall sku :: sku in s.stock ==> s.stock[sku] >= 0)
    && UniqueOrders(s.orders)
  }

  lemma LogSnoc(log: seq<Entry>, e: Entry, id: OrderId)
    ensures Taken(log + [e], id) == Taken(log, id) + (if e in {Reserved(id), TakenOnConfirm(id)} then 1 else 0)
    ensures Returned(log + [e], id)
      == Returned(log, id) + (if e in {ReturnedOnCancel(id), ReturnedOnExpiry(id)} then 1 else 0)
    ensures Settlements(log + [e], id) == Settlements(log, id) + (if Confirms(e, id) then 1 else 0)
  {
    assert (log + [e])[..|log|] == log;
  }

  lemma {:induction false} NoEntries(log: seq<Entry>, id: OrderId)
    requires forall e :: e in log ==> e.id != id
    ensures Taken(log, id) == Returned(log, id) == Settlements(log, id) == 0
  {
    if log != [] {
      assert log[|log| - 1] in log;
      NoEntries(log[..|log| - 1], id);
    }
  }

  predicate SameIdentity(o: Order, was: Order) {
    o.tenant == was.tenant && o.number == was.number && o.reference == was.reference && o.lines == was.lines
    && o.totalCents == was.totalCents && o.provider.Some? == was.provider.Some? && o.createdAt == was.createdAt
  }

  lemma UniqueAfterUpdate(orders: seq<Order>, id: OrderId, o: Order)
    requires UniqueOrders(orders) && id < |orders| && SameIdentity(o, orders[id])
    ensures UniqueOrders(orders[id := o])
  {
  }

  /** Replacing one order and appending at most one entry about it keeps every other account. */
  lemma UpdateKeepsInv(s: Shop, id: OrderId, o: Order, stock: Stock, entry: seq<Entry>)
    requires Inv(s) && id < |s.orders|
    requires |entry| <= 1
      && (forall e :: e in entry ==> e.id == id && (e.ReturnedOnExpiry? ==> Overdue(s, s.orders[id])))
    requires SameIdentity(o, s.orders[id])
    requires OrderInv(o, id, s.log + entry)
    requires stock.Keys == s.stock.Keys && forall sku :: sku in stock ==> stock[sku] >= 0
    ensures Inv(s.(orders := s.orders[id := o], stock := stock, log := s.log + entry))
  {
    var t := s.(orders := s.orders[id := o], stock := stock, log := s.log + entry);
    forall i | 0 <= i < |t.orders| ensures OrderInv(t.orders[i], i, t.log) {
      assert OrderInv(s.orders[i], i, s.log);
      if i != id {
        OthersUnaffected(s.log, entry, id, i);
      }
    }
    UniqueAfterUpdate(s.orders, id, o);
  }

  lemma OthersUnaffected(log: seq<Entry>, entry: seq<Entry>, id: OrderId, other: OrderId)
    requires |entry| <= 1 && (forall e :: e in entry ==> e.id == id) && other != id
    ensures Taken(log + entry, other) == Taken(log, other)
    ensures Returned(log + entry, other) == Returned(log, other)
    ensures Settlements(log + entry, other) == Settlements(log, other)
  {
    if entry == [] {
      assert log + entry == log;
    } else {
      assert entry[0] in entry && entry == [entry[0]];
      LogSnoc(log, entry[0], other);
    }
  }

  lemma AppendKeepsInv(s: Shop, o: Order, stock: Stock, entry: seq<Entry>)
    requires Inv(s)
    requires |entry| <= 1 && (forall e :: e in entry ==> e.id == |s.orders| && !e.ReturnedOnExpiry?)
    requires OrderInv(o, |s.orders|, s.log + entry)
    requires o.number == MaxNumber(s.orders, o.tenant) + 1
    requires forall i :: 0 <= i < |s.orders| ==> s.orders[i].reference != o.reference
    requires stock.Keys == s.stock.Keys && forall sku :: sku in stock ==> stock[sku] >= 0
    ensures Inv(s.(orders := s.orders + [o], stock := stock, log := s.log + entry))
  {
    var t := s.(orders := s.orders + [o], stock := stock, log := s.log + entry);
    forall i | 0 <= i < |t.orders| ensures OrderInv(t.orders[i], i, t.log) {
      if i < |s.orders| {
        assert OrderInv(s.orders[i], i, s.log);
        OthersUnaffected(s.log, entry, |s.orders|, i);
      }
    }
  }

  lemma EntriesAreOld(s: Shop)
    requires Inv(s)
    ensures Taken(s.log, |s.orders|) == Returned(s.log, |s.orders|) == Settlements(s.log, |s.orders|) == 0
  {
    NoEntries(s.log, |s.orders|);
  }

  lemma OnlineCheckoutKeepsInv(s: Shop, d: Draft)
    requires Inv(s) && PlaceOrder(s, d).Ok? && d.provider.Some?
    ensures Inv(PlaceOrder(s, d).shop)
  {
    hide Inv, Taken, Returned, Settlements, UniqueOrders;
    var id, t := |s.orders|, PlaceOrder(s, d).shop;
    EntriesAreOld(s);
    StockNeverNegative(s);
    assert forall k :: 0 <= k < |d.lines| ==> Available(s, d.lines[k]);
    AdjustEffect(s.stock, s.tracked, d.lines, -1);
    LogSnoc(s.log, Reserved(id), id);
    AppendKeepsInv(s, t.orders[id], t.stock, [Reserved(id)]);
  }

  lemma StockNeverNegative(s: Shop)
    requires Inv(s)
    ensures forall sku :: sku in s.stock ==> s.stock[sku] >= 0
  {
  }

  lemma CodCheckoutKeepsInv(s: Shop, d: Draft)
    requires Inv(s) && PlaceOrder(s, d).Ok? && d.provider.None?
    ensures Inv(PlaceOrder(s, d).shop)
  {
    hide Inv, Taken, Returned, Settlements, UniqueOrders;
    var id, t := |s.orders|, PlaceOrder(s, d).shop;
    EntriesAreOld(s);
    StockNeverNegative(s);
    assert forall k :: 0 <= k < |d.lines| ==> Available(s, d.lines[k]);
    assert s.log + [] == s.log;
    AppendKeepsInv(s, t.orders[id], s.stock, []);
  }

  lemma CheckoutKeepsInv(s: Shop, d: Draft)
    requires Inv(s)
    ensures Inv(Apply(s, Checkout(d)))
  {
    hide Inv, PlaceOrder;
    if PlaceOrder(s, d).Ok? {
      if d.provider.Some? {
        OnlineCheckoutKeepsInv(s, d);
      } else {
        CodCheckoutKeepsInv(s, d);
      }
    }
  }

  lemma TakingKeepsInv(s: Shop, id: OrderId, action: Action)
    requires Inv(s) && Transition(s, id, action).Ok? && TakesStock(action, s.orders[id])
    ensures Inv(Transition(s, id, action).shop)
  {
    var t, was := Transition(s, id, action).shop, s.orders[id];
    assert OrderInv(was, id, s.log);
    AdjustEffect(s.stock, s.tracked, was.lines, -1);
    LogSnoc(s.log, TakenOnConfirm(id), id);
    UpdateKeepsInv(s, id, t.orders[id], t.stock, [TakenOnConfirm(id)]);
  }

  lemma ReturningKeepsInv(s: Shop, id: OrderId, action: Action)
    requires Inv(s) && Transition(s, id, action).Ok? && ReturnsStock(action, s.orders[id])
    ensures Inv(Transition(s, id, action).shop)
  {
    var t, was := Transition(s, id, action).shop, s.orders[id];
    assert OrderInv(was, id, s.log);
    AdjustEffect(s.stock, s.tracked, was.lines, 1);
    LogSnoc(s.log, ReturnedOnCancel(id), id);
    UpdateKeepsInv(s, id, t.orders[id], t.stock, [ReturnedOnCancel(id)]);
  }

  lemma ActKeepsInv(s: Shop, id: OrderId, action: Action)
    requires Inv(s)
    ensures Inv(Apply(s, Act(id, action)))
  {
    var r := Transition(s, id, action);
    if r.Ok? {
      var was := s.orders[id];
      if TakesStock(action, was) {
        TakingKeepsInv(s, id, action);
      } else if ReturnsStock(action, was) {
        ReturningKeepsInv(s, id, action);
      } else {
        assert OrderInv(was, id, s.log);
        assert s.log + [] == s.log;
        UpdateKeepsInv(s, id, r.shop.orders[id], s.stock, []);
      }
    }
  }

  lemma MarkPaidKeepsInv(s: Shop, id: OrderId, charge: Payment)
    requires Inv(s)
    ensures Inv(MarkOrderPaid(s, id, charge).0)
  {
    if MarkOrderPaid(s, id, charge).1 {
      assert OrderInv(s.orders[id], id, s.log);
      LogSnoc(s.log, PaymentConfirmed(id, charge), id);
      UpdateKeepsInv(s, id, MarkOrderPaid(s, id, charge).0.orders[id], s.stock, [PaymentConfirmed(id, charge)]);
    }
  }

  lemma MarkFailedKeepsInv(s: Shop, id: OrderId, charge: Payment)
    requires Inv(s)
    ensures Inv(MarkOrderFailed(s, id, charge).0)
  {
    if MarkOrderFailed(s, id, charge).1 {
      assert OrderInv(s.orders[id], id, s.log);
      assert s.log + [] == s.log;
      UpdateKeepsInv(s, id, MarkOrderFailed(s, id, charge).0.orders[id], s.stock, []);
    }
  }

  lemma ExpireKeepsInv(s: Shop, id: OrderId)
    requires Inv(s)
    ensures Inv(Apply(s, ExpireOne(id)))
  {
    hide Taken, Returned, Settlements, UniqueOrders;
    var t := s.(sweep := s.sweep - {id});
    if id in s.sweep && s.orders[id].status == Pending && ExpireReservation(t, id).Ok? {
      var o, r := s.orders[id], ExpireReservation(t, id);
      assert OrderInv(s.orders[id], id, s.log);
      AdjustEffect(s.stock, s.tracked, o.lines, 1);
      LogSnoc(s.log, ReturnedOnExpiry(id), id);
      UpdateKeepsInv(t, id, r.shop.orders[id], r.shop.stock, [ReturnedOnExpiry(id)]);
    }
  }

  lemma HintKeepsInv(s: Shop, id: OrderId, ref: string)
    requires Inv(s)
    ensures Inv(Apply(s, WriteHint(id, ref)))
  {
    hide Taken, Returned, Settlements, UniqueOrders;
    if id in s.hints && id < |s.orders| {
      assert OrderInv(s.orders[id], id, s.log);
      assert s.log + [] == s.log;
      UpdateKeepsInv(s.(hints := s.hints - {id}), id, PlantHint(s, id, ref).orders[id], s.stock, []);
    }
  }

  lemma StepKeepsInv(s: Shop, step: Step)
    requires Inv(s)
    ensures Inv(Apply(s, step))
  {
    match step
    case Checkout(d) => CheckoutKeepsInv(s, d);
    case Act(id, action) => ActKeepsInv(s, id, action);
    case MarkPaid(id, charge) => MarkPaidKeepsInv(s, id, charge);
    case MarkFailed(id, charge) => MarkFailedKeepsInv(s, id, charge);
    case SelectExpired =>
      forall id | id in Lapsed(s) ensures s.orders[id].provider.Some? {
        assert OrderInv(s.orders[id], id, s.log);
      }
    case ExpireOne(id) => ExpireKeepsInv(s, id);
    case WriteHint(id, ref) => HintKeepsInv(s, id, ref);
    case _ =>
  }

  // ---- Safety over every run ----

  lemma {:induction false} RunKeepsInv(s: Shop, steps: seq<Step>)
    requires Inv(s)
    ensures Inv(Run(s, steps))
    decreases |steps|
  {
    if steps != [] {
      StepKeepsInv(s, steps[0]);
      RunKeepsInv(Apply(s, steps[0]), steps[1..]);
    }
  }

  /** What the log says about one order in every reachable shop. */
  predicate OnceEach(s: Shop, id: OrderId)
    requires id < |s.orders|
  {
    && Returned(s.log, id) <= Taken(s.log, id) <= 1
    && Settlements(s.log, id) == (if s.orders[id].payment == Paid then 1 else 0)
    && (Holding(s.orders[id]) <==> Taken(s.log, id) == 1 && Returned(s.log, id) == 0)
    && (Returned(s.log, id) == 1 ==> s.orders[id].status == Cancelled)
  }

  /** In every reachable shop no stock row is negative, and each order took its units at most once,
      gave them back at most once and only by being cancelled, and was paid at most once; it holds
      units exactly when it took them and has not given them back. */
  lemma StockAccounting(stock: Stock, tracked: set<Product>, steps: seq<Step>)
    requires forall sku :: sku in stock ==> stock[sku] >= 0
    ensures var s := Run(Opening(stock, tracked), steps);
      && (forall sku :: sku in s.stock ==> s.stock[sku] >= 0)
      && (forall id :: 0 <= id < |s.orders| ==> OnceEach(s, id))
  {
    RunKeepsInv(Opening(stock, tracked), steps);
    var s := Run(Opening(stock, tracked), steps);
    forall id | 0 <= id < |s.orders| ensures OnceEach(s, id) {
      assert OrderInv(s.orders[id], id, s.log);
    }
  }

  /** In every reachable shop, references and numbers are unique; status and payment always fit: only a
      pending order awaits payment, a cancelled one is never still payable and only a cancelled one is
      expired; and no order was expired before its fifteen minutes were over. */
  lemma OrdersStayCoherent(stock: Stock, tracked: set<Product>, steps: seq<Step>)
    requires forall sku :: sku in stock ==> stock[sku] >= 0
    ensures var s := Run(Opening(stock, tracked), steps);
      && UniqueOrders(s.orders)
      && (forall id :: 0 <= id < |s.orders| ==> CoherentOrder(s.orders[id]))
      && (forall e :: e in s.log && e.ReturnedOnExpiry? ==> e.id < |s.orders| && Overdue(s, s.orders[e.id]))
  {
    RunKeepsInv(Opening(stock, tracked), steps);
    var s := Run(Opening(stock, tracked), steps);
    forall id | 0 <= id < |s.orders| ensures CoherentOrder(s.orders[id]) {
      assert OrderInv(s.orders[id], id, s.log);
    }
  }

  function Rank(status: OrderStatus): nat {
    match status
    case Pending => 0
    case Confirmed => 1
    case Preparing => 2
    case Shipped => 3
    case Delivered => 4
    case Cancelled => 5
  }

  predicate Terminal(status: OrderStatus) { status == Delivered || status == Cancelled }

  /** How one order may change over time: it keeps its identity and never goes back; a paid order
      stays paid, one that cannot be settled never can be again, and a terminal one is frozen, but for a
      reference hint still on its way. */
  predicate Evolves(was: Order, now: Order) {
    && SameIdentity(now, was)
    && Rank(was.status) <= Rank(now.status)
    && (was.payment == Paid ==> now.payment == Paid)
    && (!Settleable(was) ==> !Settleable(now))
    && (Terminal(was.status) ==> now.(providerRef := was.providerRef) == was)
  }

  lemma StepEvolves(s: Shop, step: Step, id: OrderId)
    requires Inv(s) && id < |s.orders|
    ensures id < |Apply(s, step).orders| && Evolves(s.orders[id], Apply(s, step).orders[id])
  {
    hide Adjust, Accounted, Stamped, UniqueOrders, Transition, Replaced;
    assert OrderInv(s.orders[id], id, s.log);
    match step
    case Checkout(d) =>
    case Act(other, action) => ActEvolves(s, other, action, id);
    case MarkPaid(other, charge) =>
    case MarkFailed(other, charge) =>
    case SelectExpired =>
    case ExpireOne(other) =>
    case _ =>
  }

  lemma ActEvolves(s: Shop, acted: OrderId, action: Action, id: OrderId)
    requires id < |s.orders| && CoherentOrder(s.orders[id])
    ensures id < |Apply(s, Act(acted, action)).orders|
    ensures Evolves(s.orders[id], Apply(s, Act(acted, action)).orders[id])
  {
    hide Adjust;
  }

  lemma {:induction false} OrdersEvolve(s: Shop, steps: seq<Step>, id: OrderId)
    requires Inv(s) && id < |s.orders|
    ensures id < |Run(s, steps).orders| && Evolves(s.orders[id], Run(s, steps).orders[id])
    decreases |steps|
  {
    if steps != [] {
      StepKeepsInv(s, steps[0]);
      StepEvolves(s, steps[0], id);
      OrdersEvolve(Apply(s, steps[0]), steps[1..], id);
    }
  }

  /** Entries are only ever appended. */
  lemma LogGrows(s: Shop, step: Step)
    ensures forall e :: e in s.log ==> e in Apply(s, step).log
  {
    hide Adjust;
  }

  lemma {:induction false} OneSettlement(log: seq<Entry>, id: OrderId, a: Payment, b: Payment)
    requires PaymentConfirmed(id, a) in log && PaymentConfirmed(id, b) in log && Settlements(log, id) <= 1
    ensures a == b
  {
    var front, last := log[..|log| - 1], log[|log| - 1];
    if PaymentConfirmed(id, a) in front && PaymentConfirmed(id, b) in front {
      OneSettlement(front, id, a, b);
    } else if a != b {
      SomeSettlement(front, id, if last == PaymentConfirmed(id, a) then b else a);
    }
  }

  lemma {:induction false} SomeSettlement(log: seq<Entry>, id: OrderId, a: Payment)
    requires PaymentConfirmed(id, a) in log
    ensures Settlements(log, id) >= 1
  {
    if log[|log| - 1] != PaymentConfirmed(id, a) {
      SomeSettlement(log[..|log| - 1], id, a);
    }
  }

  /** Neither payment transition ever touches stock, whatever state the order is in. */
  lemma PaymentsLeaveStockAlone(s: Shop, id: OrderId, charge: Payment)
    ensures MarkOrderPaid(s, id, charge).0.stock == s.stock
    ensures MarkOrderFailed(s, id, charge).0.stock == s.stock
    ensures MarkOrderPaid(s, id, charge).1 <==> id < |s.orders| && Settleable(s.orders[id])
    ensures MarkOrderPaid(s, id, charge).1 <==> MarkOrderPaid(s, id, charge).0 != s
  {
    if MarkOrderPaid(s, id, charge).1 {
      assert MarkOrderPaid(s, id, charge).0.orders[id].status == Confirmed;
    }
  }

  /** A refused or failed attempt does not end the story: the order it left unpaid can still be paid,
      and a payment that was applied cannot be undone by a later failure report. */
  lemma FailureIsNotFinal(s: Shop, id: OrderId, charge: Payment, later: Payment)
    requires id < |s.orders|
    ensures MarkOrderFailed(s, id, charge).1 ==> MarkOrderPaid(MarkOrderFailed(s, id, charge).0, id, later).1
    ensures MarkOrderPaid(s, id, charge).1 ==> !MarkOrderFailed(MarkOrderPaid(s, id, charge).0, id, later).1
    ensures MarkOrderFailed(s, id, charge).1 ==>
      Settleable(s.orders[id]) && !MarkOrderFailed(MarkOrderFailed(s, id, charge).0, id, later).1
  {
  }

  /** An accepted action other than cancel moves an order exactly one place along the line from pending
      to delivered; every order that is not terminal has exactly one such action and may be cancelled,
      and a terminal one has no action at all. */
  lemma OneStepAtATime(s: Shop, id: OrderId, action: Action)
    requires id < |s.orders|
    ensures var was := s.orders[id];
      && (Transition(s, id, action).Ok? && action != Cancel ==>
            !Terminal(was.status) && Rank(Transition(s, id, action).shop.orders[id].status) == Rank(was.status) + 1
            && Transition(s, id, action).shop.orders[id].status != Cancelled)
      && (Transition(s, id, action).Ok? && action == Cancel ==>
        Transition(s, id, action).shop.orders[id].status == Cancelled)
      && (Terminal(was.status) <==> Allowed(was.status) == {})
      && (!Terminal(was.status) ==> exists forward :: forward != Cancel && Allowed(was.status) == {forward, Cancel})
  {
    hide Adjust;
    assert forall st :: !Terminal(st) ==> Allowed(st) == {Forward(st), Cancel};
  }

  function Forward(status: OrderStatus): Action {
    match status
    case Pending => Confirm
    case Confirmed => Prepare
    case Preparing => Ship
    case _ => Deliver
  }

  // ---- Order numbers ----

  /** A tenant's orders are numbered 1, 2, 3 and so on, in the order they were placed. */
  ghost predicate NumberedInOrder(orders: seq<Order>) {
    forall i :: 0 <= i < |orders| ==>
      orders[i].number >= 1 && (orders[i].number == 1 || HasNumber(orders[..i], orders[i].tenant, orders[i].number - 1))
  }

  predicate HasNumber(orders: seq<Order>, tenant: Tenant, number: int) {
    exists j :: 0 <= j < |orders| && orders[j].tenant == tenant && orders[j].number == number
  }

  lemma {:induction false} MaxNumberIsTaken(orders: seq<Order>, tenant: Tenant)
    ensures MaxNumber(orders, tenant) > 0 ==> HasNumber(orders, tenant, MaxNumber(orders, tenant))
  {
    if orders != [] {
      var front := orders[..|orders| - 1];
      MaxNumberIsTaken(front, tenant);
      if MaxNumber(orders, tenant) == MaxNumber(front, tenant) && MaxNumber(front, tenant) > 0 {
        var j :| 0 <= j < |front| && front[j].tenant == tenant && front[j].number == MaxNumber(front, tenant);
        assert orders[j] == front[j];
      }
    }
  }

  lemma SameNumbering(a: seq<Order>, b: seq<Order>)
    requires |a| == |b| && NumberedInOrder(a) && forall i :: 0 <= i < |a| ==> SameIdentity(b[i], a[i])
    ensures NumberedInOrder(b)
  {
    forall i | 0 <= i < |b|
      ensures b[i].number >= 1 && (b[i].number == 1 || HasNumber(b[..i], b[i].tenant, b[i].number - 1))
    {
      if b[i].number != 1 {
        var j :| 0 <= j < i && a[..i][j].tenant == a[i].tenant && a[..i][j].number == a[i].number - 1;
        assert SameIdentity(b[j], a[j]) && b[..i][j] == b[j];
      }
    }
  }

  lemma StepKeepsNumbering(s: Shop, step: Step)
    requires Inv(s) && NumberedInOrder(s.orders)
    ensures NumberedInOrder(Apply(s, step).orders)
  {
    var t := Apply(s, step);
    hide Inv, Evolves, Transition, ExpireReservation;
    if |t.orders| == |s.orders| {
      forall i | 0 <= i < |s.orders| ensures SameIdentity(t.orders[i], s.orders[i]) {
        StepIdentity(s, step, i);
      }
      SameNumbering(s.orders, t.orders);
    } else {
      AppendOnly(s, step);
      var o := t.orders[|s.orders|];
      MaxNumberIsTaken(s.orders, o.tenant);
      assert forall i :: 0 <= i < |s.orders| ==> t.orders[..i] == s.orders[..i];
      assert t.orders[..|s.orders|] == s.orders;
    }
  }

  lemma StepIdentity(s: Shop, step: Step, id: OrderId)
    requires Inv(s) && id < |s.orders|
    ensures id < |Apply(s, step).orders| && SameIdentity(Apply(s, step).orders[id], s.orders[id])
  {
    StepEvolves(s, step, id);
  }

  lemma AppendOnly(s: Shop, step: Step)
    requires |Apply(s, step).orders| != |s.orders|
    ensures step.Checkout? && exists o ::
      Apply(s, step).orders == s.orders + [o] && o.number == MaxNumber(s.orders, o.tenant) + 1
  {
    hide Adjust;
  }

  /** In every reachable shop each tenant's orders are numbered from 1 without a gap. */
  lemma {:induction false} NumbersHaveNoGaps(s: Shop, steps: seq<Step>)
    requires Inv(s) && NumberedInOrder(s.orders)
    ensures NumberedInOrder(Run(s, steps).orders)
    decreases |steps|
  {
    if steps != [] {
      hide Inv, NumberedInOrder, Apply;
      StepKeepsNumbering(s, steps[0]);
      StepKeepsInv(s, steps[0]);
      NumbersHaveNoGaps(Apply(s, steps[0]), steps[1..]);
    }
  }

  /** The confirm gate refuses an online order exactly while its payment is awaited. An online order
      whose payment failed may be confirmed by hand, and then keeps the units it already reserved
      instead of taking them twice. */
  lemma ConfirmGate(s: Shop, id: OrderId)
    requires id < |s.orders| && s.orders[id].status == Pending && CoherentOrder(s.orders[id])
    ensures Transition(s, id, Confirm) == Err(OnlinePaymentPending)
      <==> s.orders[id].provider.Some? && s.orders[id].payment == Awaiting
    ensures s.orders[id].provider.Some? && Transition(s, id, Confirm).Ok? ==>
      s.orders[id].payment == Failed && Transition(s, id, Confirm).shop.stock == s.stock
  {
  }

  // ---- Conservation ----

  function HeldBy(o: Order, sku: Sku): nat { if Holding(o) then Units(o.lines, sku) else 0 }

  /** Units of one stock row held by all orders that took theirs. */
  function Held(orders: seq<Order>, sku: Sku): nat {
    if orders == [] then 0 else Held(orders[..|orders| - 1], sku) + HeldBy(orders[|orders| - 1], sku)
  }

  lemma HeldAppend(orders: seq<Order>, o: Order, sku: Sku)
    ensures Held(orders + [o], sku) == Held(orders, sku) + HeldBy(o, sku)
  {
    assert (orders + [o])[..|orders|] == orders;
  }

  lemma {:induction false} HeldUpdate(orders: seq<Order>, id: OrderId, o: Order, sku: Sku)
    requires id < |orders|
    ensures Held(orders[id := o], sku) == Held(orders, sku) - HeldBy(orders[id], sku) + HeldBy(o, sku)
  {
    var front, last := orders[..|orders| - 1], orders[|orders| - 1];
    assert orders == front + [last];
    HeldAppend(front, last, sku);
    if id == |orders| - 1 {
      assert orders[id := o] == front + [o];
      HeldAppend(front, o, sku);
    } else {
      assert orders[id := o] == front[id := o] + [last];
      HeldUpdate(front, id, o, sku);
      HeldAppend(front[id := o], last, sku);
    }
  }

  /** What a stock row would show if every holding order gave back what it took: an untracked
      product never took anything. */
  function Balance(s: Shop, sku: Sku): int
    requires sku in s.stock
  {
    s.stock[sku] + if sku.product in s.tracked then Held(s.orders, sku) else 0
  }

  /** Every row balances against the books: what the merchant put there, whoever holds it now. */
  ghost predicate Conserved(s: Shop, books: Stock) {
    s.stock.Keys == books.Keys && forall sku :: sku in books ==> Balance(s, sku) == books[sku]
  }

  /** What the merchant puts on the books: his own adjustments and the rows of replaced variants. */
  function Booked(books: Stock, s: Shop, step: Step): Stock {
    match step
    case AdjustStock(sku, delta) =>
      if sku in s.stock && s.stock[sku] + delta >= 0 && sku in books then books[sku := books[sku] + delta] else books
    case ReplaceVariants(p, rows) => if FreshRows(s, p, rows) then Replaced(books, p, rows) else books
    case _ => books
  }

  function BookedOver(books: Stock, s: Shop, steps: seq<Step>): Stock
    decreases |steps|
  {
    if steps == [] then books else BookedOver(Booked(books, s, steps[0]), Apply(s, steps[0]), steps[1..])
  }

  /** One transaction that replaces an order and adjusts stock by what its holding changes by. */
  lemma UpdateConserves(s: Shop, t: Shop, id: OrderId, books: Stock)
    requires Conserved(s, books) && id < |s.orders|
    requires id < |t.orders| && t.orders == s.orders[id := t.orders[id]] && t.orders[id].lines == s.orders[id].lines
    requires t.tracked == s.tracked && t.stock.Keys == s.stock.Keys
    requires forall sku :: sku in s.stock ==>
      t.stock[sku] == s.stock[sku] +
        ((if Holding(s.orders[id]) then 1 else 0) - (if Holding(t.orders[id]) then 1 else 0))
          * UnitsTracked(s.tracked, s.orders[id].lines, sku)
    ensures Conserved(t, books)
  {
    forall sku | sku in books ensures Balance(t, sku) == Balance(s, sku) {
      HeldUpdate(s.orders, id, t.orders[id], sku);
    }
  }

  lemma CheckoutConserves(s: Shop, d: Draft, books: Stock)
    requires Inv(s) && Conserved(s, books)
    ensures Conserved(Apply(s, Checkout(d)), books)
  {
    var r := PlaceOrder(s, d);
    if r.Ok? {
      var o := r.shop.orders[|s.orders|];
      if d.provider.Some? {
        AdjustEffect(s.stock, s.tracked, d.lines, -1);
      }
      forall sku | sku in books ensures Balance(r.shop, sku) == Balance(s, sku) {
        HeldAppend(s.orders, o, sku);
      }
    }
  }

  lemma ActConserves(s: Shop, id: OrderId, action: Action, books: Stock)
    requires Inv(s) && Conserved(s, books)
    ensures Conserved(Apply(s, Act(id, action)), books)
  {
    var r := Transition(s, id, action);
    if r.Ok? {
      assert OrderInv(s.orders[id], id, s.log);
      if TakesStock(action, s.orders[id]) {
        AdjustEffect(s.stock, s.tracked, s.orders[id].lines, -1);
      } else if ReturnsStock(action, s.orders[id]) {
        AdjustEffect(s.stock, s.tracked, s.orders[id].lines, 1);
      }
      UpdateConserves(s, r.shop, id, books);
    }
  }

  lemma MarkConserves(s: Shop, id: OrderId, charge: Payment, books: Stock)
    requires Inv(s) && Conserved(s, books)
    ensures Conserved(MarkOrderPaid(s, id, charge).0, books)
    ensures Conserved(MarkOrderFailed(s, id, charge).0, books)
  {
    if id < |s.orders| {
      assert OrderInv(s.orders[id], id, s.log);
    }
    if MarkOrderPaid(s, id, charge).1 {
      UpdateConserves(s, MarkOrderPaid(s, id, charge).0, id, books);
    }
    if MarkOrderFailed(s, id, charge).1 {
      UpdateConserves(s, MarkOrderFailed(s, id, charge).0, id, books);
    }
  }

  lemma SameBooks(s: Shop, t: Shop, books: Stock)
    requires Conserved(s, books) && t.orders == s.orders && t.stock == s.stock && t.tracked == s.tracked
    ensures Conserved(t, books)
  {
    assert forall sku :: sku in books ==> Balance(t, sku) == Balance(s, sku);
  }

  lemma ExpireConserves(s: Shop, id: OrderId, books: Stock)
    requires Inv(s) && Conserved(s, books)
    ensures Conserved(Apply(s, ExpireOne(id)), books)
  {
    hide Conserved, Holding;
    var t := s.(sweep := s.sweep - {id});
    SameBooks(s, t, books);
    if id in s.sweep && s.orders[id].status == Pending && ExpireReservation(t, id).Ok? {
      ExpiredConserves(t, id, books);
    }
  }

  lemma ExpiredConserves(s: Shop, id: OrderId, books: Stock)
    requires Conserved(s, books) && id < |s.orders| && ExpireReservation(s, id).Ok? && s.orders[id].status == Pending
    requires Holding(s.orders[id])
    ensures Conserved(ExpireReservation(s, id).shop, books)
  {
    AdjustEffect(s.stock, s.tracked, s.orders[id].lines, 1);
    UpdateConserves(s, ExpireReservation(s, id).shop, id, books);
  }

  lemma HintConserves(s: Shop, id: OrderId, ref: string, books: Stock)
    requires Conserved(s, books) && id < |s.orders|
    ensures Conserved(PlantHint(s, id, ref), books)
  {
    UpdateConserves(s, PlantHint(s, id, ref), id, books);
  }

  lemma AdjustRowConserves(s: Shop, sku: Sku, delta: int, books: Stock)
    requires Conserved(s, books)
    ensures Conserved(AdjustRow(s, sku, delta), Booked(books, s, AdjustStock(sku, delta)))
  {
    var t := AdjustRow(s, sku, delta);
    if t != s {
      forall other | other in books ensures Balance(t, other) == Balance(s, other) + if other == sku then delta else 0 {
        assert t.orders == s.orders;
      }
    }
  }

  lemma {:induction false} UnmentionedUnits(lines: seq<Line>, sku: Sku)
    requires forall k :: 0 <= k < |lines| ==> lines[k].sku != sku
    ensures Units(lines, sku) == 0
  {
    if lines != [] {
      UnmentionedUnits(lines[1..], sku);
    }
  }

  lemma {:induction false} UnmentionedHeld(orders: seq<Order>, sku: Sku)
    requires Unmentioned(orders, sku)
    ensures Held(orders, sku) == 0
  {
    if orders != [] {
      UnmentionedHeld(orders[..|orders| - 1], sku);
      UnmentionedUnits(orders[|orders| - 1].lines, sku);
    }
  }

  /** Replacing variants balances too: the old rows leave the books, whoever holds units of them, and no
      order holds any of the new ones. */
  lemma ReplaceConserves(s: Shop, p: Product, rows: map<nat, nat>, books: Stock)
    requires Conserved(s, books) && FreshRows(s, p, rows)
    ensures Conserved(s.(stock := Replaced(s.stock, p, rows)), Replaced(books, p, rows))
  {
    var t := s.(stock := Replaced(s.stock, p, rows));
    forall sku | sku in t.stock
      ensures sku in Replaced(books, p, rows) && Balance(t, sku) == Replaced(books, p, rows)[sku]
    {
      if sku in NewRows(p, rows) {
        UnmentionedHeld(s.orders, sku);
      } else {
        assert Balance(t, sku) == Balance(s, sku);
      }
    }
  }

  /** No unit an order holds loses its stock row if and only if none of the replaced variants is held. */
  lemma ReplacementKeepsRows(s: Shop, p: Product, rows: map<nat, nat>)
    requires FreshRows(s, p, rows)
    ensures (forall sku :: sku in s.stock && Held(s.orders, sku) > 0 ==> sku in Replaced(s.stock, p, rows)) <==>
            (forall sku :: sku in s.stock && IsVariantOf(sku, p) ==> Held(s.orders, sku) == 0)
  {
    forall sku | sku in s.stock ensures sku in Replaced(s.stock, p, rows) <==> !IsVariantOf(sku, p) {
    }
  }

  /** But it strands what is held: an order can still give its units back after the replacement if and only
      if it could before and holds no tracked variant of the product. */
  lemma ReplacementStrands(s: Shop, p: Product, rows: map<nat, nat>, id: OrderId)
    requires FreshRows(s, p, rows) && id < |s.orders| && forall sku :: sku in s.stock ==> s.stock[sku] >= 0
    ensures Adjust(Replaced(s.stock, p, rows), s.tracked, s.orders[id].lines, 1).Some?
      <==> Adjust(s.stock, s.tracked, s.orders[id].lines, 1).Some? && !HoldsVariant(s, p, id)
  {
    var lines, stock := s.orders[id].lines, Replaced(s.stock, p, rows);
    RestockSucceeds(s.stock, s.tracked, lines);
    RestockSucceeds(stock, s.tracked, lines);
    forall k | 0 <= k < |lines|
      ensures lines[k].sku in stock <==> lines[k].sku in s.stock && !IsVariantOf(lines[k].sku, p)
    {
    }
  }

  predicate HoldsVariant(s: Shop, p: Product, id: OrderId)
    requires id < |s.orders|
  {
    p in s.tracked && exists line :: line in s.orders[id].lines && IsVariantOf(line.sku, p)
  }

  /** Nothing of the product is held when its inventory tracking is switched. */
  ghost predicate Idle(s: Shop, p: Product) {
    forall sku :: sku in s.stock && sku.product == p ==> Held(s.orders, sku) == 0
  }

  /** Switching a product's tracking keeps the books balanced if and only if no order holds any of
      it at that moment. */
  lemma TrackingSwitch(s: Shop, p: Product, on: bool, books: Stock)
    requires Conserved(s, books) && (p in s.tracked <==> !on)
    ensures Conserved(Apply(s, SetTracked(p, on)), books) <==> Idle(s, p)
  {
    var t := Apply(s, SetTracked(p, on));
    forall sku | sku in books
      ensures Balance(t, sku) == Balance(s, sku) <==> sku.product != p || Held(s.orders, sku) == 0
    {
    }
    if !Idle(s, p) {
      var sku :| sku in s.stock && sku.product == p && Held(s.orders, sku) != 0;
      assert Balance(t, sku) != books[sku];
    }
  }

  /** Every tracking switch of the run happens while nothing of that product is held. */
  ghost predicate QuietSwitches(s: Shop, steps: seq<Step>)
    decreases |steps|
  {
    steps == [] ||
    ((steps[0].SetTracked? ==> Idle(s, steps[0].product)) && QuietSwitches(Apply(s, steps[0]), steps[1..]))
  }

  lemma StepConserves(s: Shop, step: Step, books: Stock)
    requires Inv(s) && Conserved(s, books)
    requires step.SetTracked? ==> Idle(s, step.product)
    ensures Conserved(Apply(s, step), Booked(books, s, step))
  {
    hide Inv, PlaceOrder, Transition, ExpireCandidate, MarkOrderPaid, MarkOrderFailed, PlantHint, AdjustRow, FreshRows,
      Replaced;
    match step
    case Checkout(d) => CheckoutConserves(s, d, books);
    case Act(id, action) => ActConserves(s, id, action, books);
    case MarkPaid(id, charge) => MarkConserves(s, id, charge, books);
    case MarkFailed(id, charge) => MarkConserves(s, id, charge, books);
    case SelectExpired => SameBooks(s, Apply(s, step), books);
    case ExpireOne(id) => ExpireConserves(s, id, books);
    case CheckHint(id) => SameBooks(s, Apply(s, step), books);
    case WriteHint(id, ref) => if id in s.hints && id < |s.orders| { HintConserves(s, id, ref, books); }
    case SetTracked(p, on) =>
      if p in s.tracked <==> !on {
        TrackingSwitch(s, p, on, books);
      } else {
        assert Apply(s, step).tracked == s.tracked;
        SameBooks(s, Apply(s, step), books);
      }
    case AdjustStock(sku, delta) => AdjustRowConserves(s, sku, delta, books);
    case ReplaceVariants(p, rows) => if FreshRows(s, p, rows) { ReplaceConserves(s, p, rows, books); }
    case Tick(elapsed) => SameBooks(s, Apply(s, step), books);
  }

  lemma {:induction false} ConservationFrom(s: Shop, steps: seq<Step>, books: Stock)
    requires Inv(s) && Conserved(s, books) && QuietSwitches(s, steps)
    ensures Conserved(Run(s, steps), BookedOver(books, s, steps))
    decreases |steps|
  {
    if steps != [] {
      hide Apply, Inv, Conserved, Booked;
      StepConserves(s, steps[0], books);
      StepKeepsInv(s, steps[0]);
      ConservationFrom(Apply(s, steps[0]), steps[1..], Booked(books, s, steps[0]));
    }
  }

  /** Over every interleaving of checkouts, merchant actions, payments, expiry, stock adjustments and
      variant replacements, stock plus the units held by orders is what the shop opened with and the
      merchant has put on the books since. */
  lemma Conservation(stock: Stock, tracked: set<Product>, steps: seq<Step>)
    requires forall sku :: sku in stock ==> stock[sku] >= 0
    requires QuietSwitches(Opening(stock, tracked), steps)
    ensures Conserved(Run(Opening(stock, tracked), steps), BookedOver(stock, Opening(stock, tracked), steps))
  {
    ConservationFrom(Opening(stock, tracked), steps, stock);
  }

  lemma AdjustOne(stock: Stock, tracked: set<Product>, line: Line, sign: int)
    ensures Adjust(stock, tracked, [line], sign) == AdjustLine(stock, tracked, line, sign * line.qty)
  {
    assert [line][1..] == [];
  }

  /** The condition is needed: three units reserved while the product was tracked and released after
      tracking was switched off never come back. */
  lemma SwitchWhileHeldLosesStock(p: Product)
    ensures var sku := Sku(p, None);
      var draft := Draft(1, "vr_a", [Line(sku, 3)], 900, Some(Wompi));
      var reserved := Apply(Opening(map[sku := 100], {p}), Checkout(draft));
      var released := Apply(Apply(reserved, SetTracked(p, false)), Act(0, Cancel));
      && |reserved.orders| == |released.orders| == 1
      && Holding(reserved.orders[0]) && !Holding(released.orders[0])
      && released.stock == map[sku := 97]
  {
    var sku := Sku(p, None);
    var line := Line(sku, 3);
    var draft := Draft(1, "vr_a", [line], 900, Some(Wompi));
    var s0 := Opening(map[sku := 100], {p});
    AdjustOne(s0.stock, {p}, line, -1);
    assert Available(s0, line);
    var s1 := Apply(s0, Checkout(draft));
    assert s1.stock == map[sku := 97];
    var s2 := Apply(s1, SetTracked(p, false));
    assert s2.tracked == {};
    AdjustOne(s2.stock, {}, line, 1);
  }

  const RESERVED_DRAFT: Draft := Draft(1, "vr_a", [Line(Sku(0, Some(0)), 3)], 900, Some(Wompi))
  const RESERVED_ORDER: Order :=
    Order(1, 1, "vr_a", RESERVED_DRAFT.lines, 900, Pending, Awaiting, Some(Wompi), Some(STOCK_RESERVATION), 0, None)

  /** Three of a hundred units of one variant are reserved by a checkout. */
  lemma VariantReserved()
    ensures Apply(Opening(map[Sku(0, Some(0)) := 100], {0}), Checkout(RESERVED_DRAFT))
         == Shop([RESERVED_ORDER], map[Sku(0, Some(0)) := 97], {0}, [Reserved(0)], 0, {}, {})
  {
    var line := Line(Sku(0, Some(0)), 3);
    var s0 := Opening(map[line.sku := 100], {0});
    AdjustOne(s0.stock, {0}, line, -1);
    assert RESERVED_DRAFT.lines == [line] && Available(s0, line);
  }

  lemma OneNewRow(p: Product, v: nat, units: nat)
    ensures NewRows(p, map[v := units]) == map[Sku(p, Some(v)) := units]
  {
    var rows := map[v := units];
    assert forall u :: u in rows <==> u == v;
    forall sku ensures sku in NewRows(p, rows) <==> sku == Sku(p, Some(v)) {
      assert v in rows;
    }
  }

  lemma NoOldRows(stock: Stock, p: Product)
    requires forall sku :: sku in stock ==> IsVariantOf(sku, p)
    ensures WithoutVariants(stock, p) == map[]
  {
  }

  lemma OnlyRow(stock: Stock, p: Product, v: nat, units: nat)
    requires forall sku :: sku in stock ==> IsVariantOf(sku, p)
    ensures Replaced(stock, p, map[v := units]) == map[Sku(p, Some(v)) := units]
  {
    hide WithoutVariants, NewRows;
    OneNewRow(p, v, units);
    NoOldRows(stock, p);
  }

  /** A reserved variant is replaced: its order can neither be cancelled nor expired any more, so its
      sweep fails on every tick and its units are stranded. */
  lemma ReplacementStrandsOrder()
    ensures var reserved := Apply(Opening(map[Sku(0, Some(0)) := 100], {0}), Checkout(RESERVED_DRAFT));
      var replaced := Apply(reserved, ReplaceVariants(0, map[1 := 100]));
      && reserved.orders == replaced.orders == [RESERVED_ORDER] && Holding(RESERVED_ORDER)
      && replaced.stock == map[Sku(0, Some(1)) := 100]
      && Transition(replaced, 0, Cancel) == ExpireReservation(replaced, 0) == Err(StockBelowZero)
  {
    hide PlaceOrder, Replaced, FreshRows, Transition, ExpireReservation;
    VariantReserved();
    OnlyRow(map[Sku(0, Some(0)) := 97], 0, 1, 100);
    NewRowIsFresh();
    Stranded(Shop([RESERVED_ORDER], map[Sku(0, Some(1)) := 100], {0}, [Reserved(0)], 0, {}, {}));
  }

  lemma NewRowIsFresh()
    ensures FreshRows(Shop([RESERVED_ORDER], map[Sku(0, Some(0)) := 97], {0}, [Reserved(0)], 0, {}, {}), 0,
      map[1 := 100])
  {
    assert Unmentioned([RESERVED_ORDER], Sku(0, Some(1)));
  }

  lemma Stranded(s: Shop)
    requires s.orders == [RESERVED_ORDER] && s.tracked == {0} && Sku(0, Some(0)) !in s.stock
    ensures Transition(s, 0, Cancel) == ExpireReservation(s, 0) == Err(StockBelowZero)
  {
    AdjustOne(s.stock, s.tracked, Line(Sku(0, Some(0)), 3), 1);
  }
}
