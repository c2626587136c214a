/** What one delivery run to its end leaves behind, for every status and every objection, on the fields of
    the order and of the delivery's row. */
module WebhookOutcomes {
  import opened Options
  import opened Lifecycle
  import opened Webhooks
  import opened WebhookSafety
  import opened WebhookRetries
  import OrderReference
  import Decimal

  // ---- Which references are looked up ----

  /** A reference is looked up if and only if it is `vr_` and something after it, or a whole number of at most
      2147483647 in digits, leading zeros or not. */
  lemma ReferencesExactly(reference: string)
    ensures ValidReference(reference) <==>
      (exists rest: string :: reference == "vr_" + rest && rest != "")
      || (reference != "" && (forall i :: 0 <= i < |reference| ==> reference[i] in "0123456789")
          && Decimal.Parse(reference) <= 2147483647)
    ensures forall n: nat :: ValidReference(Decimal.Print(n)) <==> n <= 2147483647
  {
    assert forall c: char :: Decimal.IsDigit(c) <==> c in "0123456789";
    if OrderReference.IsOrderReference(reference) {
      assert reference == "vr_" + reference[3..];
    }
    forall n: nat ensures ValidReference(Decimal.Print(n)) <==> n <= 2147483647 {
      Decimal.ParsePrint(n);
      assert Decimal.IsDigit(Decimal.Print(n)[0]);
    }
  }

  // ---- What a delivery is refused for ----

  /** The outcome states a fact about the orders: why the event is about none of them. */
  predicate Objection(orders: seq<Order>, tenant: Tenant, e: Event, outcome: Outcome, order: Option<OrderId>) {
    match outcome
    case OrderMissing =>
      order.None? && if OrderReference.IsOrderReference(e.reference)
                     then forall i :: 0 <= i < |orders| ==> orders[i].reference != e.reference
                     else forall i :: 0 <= i < |orders| ==> !Names(orders[i], tenant, e.reference)
    case CrossTenantReference =>
      order.None? && OrderReference.IsOrderReference(e.reference)
      && exists i :: 0 <= i < |orders| && orders[i].reference == e.reference && orders[i].tenant != tenant
    case AmountMismatch => NamedBy(orders, tenant, e, order) && e.amountCents != orders[order.value].totalCents
    case CurrencyUnknown =>
      NamedBy(orders, tenant, e, order) && e.amountCents == orders[order.value].totalCents && e.currency.None?
    case CurrencyMismatch =>
      NamedBy(orders, tenant, e, order) && e.amountCents == orders[order.value].totalCents
      && e.currency.Some? && e.currency.value != "COP"
    case _ => false
  }

  predicate NamedBy(orders: seq<Order>, tenant: Tenant, e: Event, order: Option<OrderId>) {
    order.Some? && order.value < |orders| && Names(orders[order.value], tenant, e.reference)
  }

  /** Resolution goes on to record the attempt if and only if the event binds an order, and otherwise its
      outcome is a true objection. */
  lemma ResolutionExactly(orders: seq<Order>, tenant: Tenant, e: Event)
    requires UniqueOrders(orders) && ValidReference(e.reference)
    ensures var p := AfterResolve(orders, tenant, e);
      && (forall id :: Binds(orders, tenant, e, id) <==> p == Recording(id))
      && ((forall id :: !Binds(orders, tenant, e, id)) <==> p.Stamping?)
      && (p.Stamping? ==> Objection(orders, tenant, e, p.outcome, p.order))
  {
    hide UniqueOrders, FindReference, FindNumber;
    forall id | Binds(orders, tenant, e, id) ensures AfterResolve(orders, tenant, e) == Recording(id) {
      ResolutionIsUnique(orders, tenant, e, id);
    }
    ResolvesTo(orders, tenant, e);
  }

  // ---- What a delivery that binds an order does ----

  /** The order after the event, and what the event's row says of it. */
  predicate Applied(s: Shop, t: Shop, e: Event, id: OrderId, outcome: Outcome)
    requires id < |s.orders|
  {
    var o, ref := s.orders[id], Some(Ref(e.providerRef, true));
    match e.status
    case NPaid =>
      if o.status == Pending && o.payment in {Awaiting, Failed}
      then outcome == OutcomeConfirmed
           && t == s.(orders := s.orders[id := o.(status := Confirmed, payment := Paid, reservedUntil := None,
                                                  provider := Some(e.provider), providerRef := ref)],
                      log := s.log + [PaymentConfirmed(id, Payment(e.provider, e.providerRef))])
      else outcome == PaidOrderNotSettleable && t == s
    case NFailed =>
      if o.status == Pending && o.payment == Awaiting
      then outcome == OutcomeFailed && t == s.(orders := s.orders[id := o.(payment := Failed, providerRef := ref)])
      else outcome == FailedNotApplied && t == s
    case NPending => outcome == Noop(NPending) && t == s
    case NExpired => outcome == Noop(NExpired) && t == s
  }

  lemma SettlingApplies(s: System, n: nat, id: OrderId)
    requires n in s.handlers && s.handlers[n].phase == Settling(id) && id < |s.shop.orders|
    ensures var t, h := Next(s, Advance(n)), s.handlers[n];
      && n in t.handlers && t.handlers[n].phase.Stamping? && t.handlers[n].phase.order == Some(id)
      && t.handlers[n] == h.(phase := t.handlers[n].phase)
      && Applied(s.shop, t.shop, h.event, id, t.handlers[n].phase.outcome) && t.ledger == s.ledger
  {
  }

  /** The delivery has been answered 200 and its row stamped. */
  predicate RowStamped(t: System, tenant: Tenant, e: Event, outcome: Outcome, order: Option<OrderId>) {
    && KeyOf(tenant, e) in t.rows && t.rows[KeyOf(tenant, e)] == Row(Some(outcome), order)
    && Delivery(tenant, e) in t.acked
  }

  lemma StampingStamps(s: System, n: nat)
    requires n in s.handlers && s.handlers[n].phase.Stamping?
    ensures var t, h := Next(s, Advance(n)), s.handlers[n];
      && n !in t.handlers && t.shop == s.shop && t.ledger == s.ledger
      && RowStamped(t, h.tenant, h.event, h.phase.outcome, h.phase.order)
  {
    hide Settle, AfterResolve, ValidReference;
  }

  /** The event has been applied to the order it binds, recorded in the ledger, stamped and answered. */
  predicate AppliedAndStamped(s: System, t: System, tenant: Tenant, e: Event, id: OrderId)
    requires id < |s.shop.orders|
  {
    && KeyOf(tenant, e) in t.rows && t.rows[KeyOf(tenant, e)].processed.Some?
    && RowStamped(t, tenant, e, t.rows[KeyOf(tenant, e)].processed.value, Some(id))
    && Applied(s.shop, t.shop, e, id, t.rows[KeyOf(tenant, e)].processed.value)
    && Attempt(tenant, id, e.provider, e.providerRef, e.amountCents, e.status) in t.ledger
  }

  lemma ResolvingApplies(s: System, n: nat, id: OrderId)
    requires n in s.handlers && s.handlers[n].phase == Resolving && id < |s.shop.orders|
    requires AfterResolve(s.shop.orders, s.handlers[n].tenant, s.handlers[n].event) == Recording(id)
    ensures n !in Advances(s, n, 4).handlers
    ensures AppliedAndStamped(s, Advances(s, n, 4), s.handlers[n].tenant, s.handlers[n].event, id)
  {
    hide Next, AfterResolve, Applied;
    ResolvingRecords(s, n, id);
    var s2 := Advances(s, n, 2);
    SettlingApplies(s2, n, id);
    var s3 := Next(s2, Advance(n));
    StampingStamps(s3, n);
    var s4 := Next(s3, Advance(n));
    assert Advances(s2, n, 2) == Advances(s3, n, 1) == Advances(s4, n, 0) == s4;
    AdvancesAdd(s, n, 2, 2);
  }

  /** A run of six operations is a run of `taken + rest` once the handler is gone. */
  lemma FinishedEarly(s: System, n: nat, tenant: Tenant, e: Event, taken: nat, rest: nat)
    requires taken + rest <= 6
    requires n !in Advances(Advances(Next(s, Receive(n, tenant, e)), n, taken), n, rest).handlers
    ensures Uninterrupted(s, n, tenant, e) == Advances(Advances(Next(s, Receive(n, tenant, e)), n, taken), n, rest)
  {
    hide Next;
    var s0 := Next(s, Receive(n, tenant, e));
    var r := Advances(s0, n, taken);
    var t := Advances(r, n, rest);
    GoneStaysGone(t, n, 6 - taken - rest);
    AdvancesAdd(r, n, rest, 6 - taken - rest);
    AdvancesAdd(s0, n, taken, 6 - taken);
  }

  /** Whatever happened before, a delivery that binds an order, is not recorded as processed and runs to its
      end is recorded in the ledger and answered. PAID: a pending order that is unpaid becomes confirmed and
      paid with the event's payment, and any other is reported. FAILED: a pending order whose payment is
      awaited becomes failed with the event's reference, and otherwise nothing is applied and the row says
      so. PENDING and EXPIRED change no order. */
  lemma DeliveryApplied(s: System, n: nat, tenant: Tenant, e: Event, id: OrderId)
    requires UniqueOrders(s.shop.orders) && Binds(s.shop.orders, tenant, e, id)
    requires n !in s.handlers && !IsProcessed(s.rows, KeyOf(tenant, e))
    ensures AppliedAndStamped(s, Uninterrupted(s, n, tenant, e), tenant, e, id)
  {
    hide ValidReference, AfterResolve, UniqueOrders, Next, IsProcessed, Names, Applied, RowStamped;
    ResolutionIsUnique(s.shop.orders, tenant, e, id);
    var taken := ReachesResolving(s, n, tenant, e);
    var r := Advances(Next(s, Receive(n, tenant, e)), n, taken);
    ResolvingApplies(r, n, id);
    FinishedEarly(s, n, tenant, e, taken, 4);
  }

  // ---- What a delivery that binds no order does ----

  lemma RefusingStamps(s: System, n: nat)
    requires n in s.handlers && s.handlers[n].phase == Resolving
    requires AfterResolve(s.shop.orders, s.handlers[n].tenant, s.handlers[n].event).Stamping?
    ensures var h, t := s.handlers[n], Advances(s, n, 2);
      var p := AfterResolve(s.shop.orders, h.tenant, h.event);
      && n !in t.handlers && t.shop == s.shop && t.ledger == s.ledger && t.causes == s.causes
      && RowStamped(t, h.tenant, h.event, p.outcome, p.order)
  {
    hide AfterResolve, ValidReference, Settle;
    var s1 := Next(s, Advance(n));
    var s2 := Next(s1, Advance(n));
    assert Advances(s, n, 2) == Advances(s1, n, 1) == Advances(s2, n, 0) == s2;
  }

  /** A delivery that binds no order, is not recorded as processed and runs to its end changes no order, and
      its row states truly what is wrong with it. */
  lemma DeliveryRefused(s: System, n: nat, tenant: Tenant, e: Event)
    requires UniqueOrders(s.shop.orders) && ValidReference(e.reference)
    requires forall id :: !Binds(s.shop.orders, tenant, e, id)
    requires n !in s.handlers && !IsProcessed(s.rows, KeyOf(tenant, e))
    ensures var t, key := Uninterrupted(s, n, tenant, e), KeyOf(tenant, e);
      && t.shop == s.shop && key in t.rows && t.rows[key].processed.Some?
      && RowStamped(t, tenant, e, t.rows[key].processed.value, t.rows[key].order)
      && Objection(s.shop.orders, tenant, e, t.rows[key].processed.value, t.rows[key].order)
  {
    hide ValidReference, AfterResolve, UniqueOrders, Next, IsProcessed, Names, Objection;
    ResolutionExactly(s.shop.orders, tenant, e);
    var taken := ReachesResolving(s, n, tenant, e);
    var r := Advances(Next(s, Receive(n, tenant, e)), n, taken);
    RefusingStamps(r, n);
    FinishedEarly(s, n, tenant, e, taken, 2);
  }

  /** A malformed reference is answered and changes nothing; it is recorded unless its key already exists. */
  lemma MalformedReference(s: System, n: nat, tenant: Tenant, e: Event)
    requires n !in s.handlers && !ValidReference(e.reference)
    ensures var t, key := Uninterrupted(s, n, tenant, e), KeyOf(tenant, e);
      && t.shop == s.shop && t.ledger == s.ledger && Delivery(tenant, e) in t.acked
      && t.rows == (if key in s.rows then s.rows else s.rows[key := Row(Some(InvalidReference), None)])
  {
    hide ValidReference, AfterResolve, Settle;
    var s0 := Next(s, Receive(n, tenant, e));
    var s1 := Next(s0, Advance(n));
    assert Advances(s0, n, 0) == s0 && Advances(s0, n, 1) == Advances(s1, n, 0) == s1;
    FinishedEarly(s, n, tenant, e, 0, 1);
  }

  // ---- Reconciliation ----

  /** The gateway's answer is about this order: it carries its reference, and where it states an amount that
      is the order's total in COP. */
  predicate About(o: Order, l: Lookup) {
    && l.reference == Some(o.reference)
    && (l.amountCents == None || (l.amountCents == Some(o.totalCents as int) && l.currency == Some("COP")))
  }

  /** What the event of a lookup would be: EXPIRED answers count as failed. */
  function AsEvent(provider: Provider, l: Lookup): Event {
    Event(provider, "", l.providerRef, "", if l.status == NExpired then NFailed else l.status, 0, None)
  }

  /** A lookup that is about an online order is applied to it like a delivery, an expired payment counting as
      a failed one, and recorded in the ledger when it states an amount; any other changes nothing. */
  lemma ReconcileExactly(s: System, id: OrderId, l: Lookup)
    ensures var t := Next(s, Reconcile(id, l));
      && (id < |s.shop.orders| && s.shop.orders[id].provider.Some? && About(s.shop.orders[id], l) ==>
            var o := s.shop.orders[id];
            && (exists outcome :: Applied(s.shop, t.shop, AsEvent(o.provider.value, l), id, outcome))
            && t.ledger == s.ledger
               + (if l.amountCents.None? then {}
                  else {Attempt(o.tenant, id, o.provider.value, l.providerRef, l.amountCents.value, l.status)}))
      && (!(id < |s.shop.orders| && s.shop.orders[id].provider.Some? && About(s.shop.orders[id], l)) ==> t == s)
      && t.rows == s.rows && t.handlers == s.handlers
  {
    if id < |s.shop.orders| && s.shop.orders[id].provider.Some? && About(s.shop.orders[id], l) {
      var o, e := s.shop.orders[id], AsEvent(s.shop.orders[id].provider.value, l);
      var t := Next(s, Reconcile(id, l));
      var settled := o.status == Pending && o.payment in {Awaiting, Failed};
      var outcome := match e.status
        case NPaid => if settled then OutcomeConfirmed else PaidOrderNotSettleable
        case NFailed => if o.status == Pending && o.payment == Awaiting then OutcomeFailed else FailedNotApplied
        case _ => Noop(NPending);
      assert Applied(s.shop, t.shop, e, id, outcome);
    }
  }
}
