/** The three adapters of packages/payments: status mapping, the composed event ids and what they
    determine, and ePayco's re-verification against the gateway's own record. */
module Gateways {
  import opened Options
  import opened Lifecycle
  import opened Webhooks
  import opened WebhookDelivery
  import WebhookSafety
  import OrderReference
  import Decimal
  import WebhookOutcomes
  import WebhookRetries
  import Texts
  import opened Wompi
  import opened JsonValue

  // ---- Status mapping ----

  function MercadoPagoStatus(status: string): NormalizedStatus {
    if status == "approved" then NPaid
    else if status in {"pending", "in_process", "authorized", "in_mediation"} then NPending
    else if status in {"refunded", "charged_back"} then NExpired
    else NFailed
  }

  function WompiStatus(status: string): NormalizedStatus {
    if status == "APPROVED" then NPaid else if status == "PENDING" then NPending else NFailed
  }

  function EpaycoStatus(response: string): NormalizedStatus {
    if response == "Aceptada" then NPaid else if response == "Pendiente" then NPending else NFailed
  }

  function StatusName(status: NormalizedStatus): string {
    match status
    case NPending => "PENDING"
    case NPaid => "PAID"
    case NFailed => "FAILED"
    case NExpired => "EXPIRED"
  }

  // ---- The events the adapters report ----

  /** What a gateway says about one payment besides its status. */
  datatype Charge = Charge(reference: string, amountCents: int, currency: Option<string>)

  function MercadoPagoEvent(paymentId: string, status: string, c: Charge): Event {
    Event(MercadoPago, paymentId + ":" + status, paymentId, c.reference, MercadoPagoStatus(status), c.amountCents,
      c.currency)
  }

  /** An amount that is not a plain integer equals no order total, and neither does -1. */
  function WompiEvent(r: Report): Event {
    Event(Provider.Wompi, r.id + ":" + r.timestamp, r.id, r.reference, WompiStatus(r.status),
          if r.amount.Integer? then r.amount.n else -1, r.currency)
  }

  function EpaycoEvent(refPayco: string, transactionId: string, status: NormalizedStatus, c: Charge): Event {
    Event(Epayco, refPayco + ":" + transactionId + ":" + StatusName(status), refPayco, c.reference, status,
      c.amountCents, c.currency)
  }

  /** Mercado Pago: equal event ids mean the same payment in the same gateway status, as long as
      payment ids hold no colon (they are numbers) or statuses hold none. */
  lemma MercadoPagoEventId(id1: string, status1: string, id2: string, status2: string)
    requires (':' !in id1 && ':' !in id2) || (':' !in status1 && ':' !in status2)
    ensures id1 + ":" + status1 == id2 + ":" + status2 <==> id1 == id2 && status1 == status2
  {
    if id1 + ":" + status1 == id2 + ":" + status2 {
      if ':' !in id1 && ':' !in id2 {
        Texts.FirstSeparator(id1, status1, id2, status2, ':');
      } else {
        Texts.LastSeparator(id1, status1, id2, status2, ':');
      }
    }
  }

  /** Without that, one text can name an approved payment and a failed one. */
  lemma MercadoPagoColons(c: Charge)
    ensures MercadoPagoEvent("7:x", "approved", c).eventId == MercadoPagoEvent("7", "x:approved", c).eventId
    ensures MercadoPagoEvent("7:x", "approved", c).status != MercadoPagoEvent("7", "x:approved", c).status
  {
    assert "7:x" + ":" + "approved" == "7" + ":" + "x:approved";
  }

  /** ePayco: equal event ids always mean equal normalized statuses, whatever the other parts hold. */
  lemma EpaycoEventId(ref1: string, tx1: string, s1: NormalizedStatus, ref2: string, tx2: string, s2: NormalizedStatus,
      c1: Charge, c2: Charge)
    requires EpaycoEvent(ref1, tx1, s1, c1).eventId == EpaycoEvent(ref2, tx2, s2, c2).eventId
    ensures s1 == s2 && ref1 + ":" + tx1 == ref2 + ":" + tx2
    ensures ':' !in ref1 && ':' !in ref2 ==> ref1 == ref2 && tx1 == tx2
  {
    assert forall s :: ':' !in StatusName(s);
    assert ref1 + ":" + tx1 + ":" + StatusName(s1) == (ref1 + ":" + tx1) + [':'] + StatusName(s1);
    assert ref2 + ":" + tx2 + ":" + StatusName(s2) == (ref2 + ":" + tx2) + [':'] + StatusName(s2);
    Texts.LastSeparator(ref1 + ":" + tx1, StatusName(s1), ref2 + ":" + tx2, StatusName(s2), ':');
    StatusNames(s1, s2);
    if ':' !in ref1 && ':' !in ref2 {
      Texts.FirstSeparator(ref1, tx1, ref2, tx2, ':');
    }
  }

  lemma StatusNames(a: NormalizedStatus, b: NormalizedStatus)
    ensures StatusName(a) == StatusName(b) <==> a == b
  {
    assert |StatusName(NPaid)| == 4 && |StatusName(NFailed)| == 6;
    assert StatusName(NPending)[0] == 'P' && StatusName(NExpired)[0] == 'E';
  }

  // ---- What that means for the settle protocol ----

  /** A Mercado Pago payment's own reference, amount and currency do not change between lookups. */
  ghost predicate FromMercadoPago(e: Event, record: string -> Charge) {
    exists id, status :: ':' !in id && e == MercadoPagoEvent(id, status, record(id))
  }

  lemma MercadoPagoAgrees(a: Event, b: Event, record: string -> Charge)
    requires FromMercadoPago(a, record) && FromMercadoPago(b, record) && a.eventId == b.eventId
    ensures Agree(a, b)
  {
    var id1, status1 :| ':' !in id1 && a == MercadoPagoEvent(id1, status1, record(id1));
    var id2, status2 :| ':' !in id2 && b == MercadoPagoEvent(id2, status2, record(id2));
    MercadoPagoEventId(id1, status1, id2, status2);
  }

  /** No Mercado Pago payment is lost: once an order exists and its approved payment is delivered, any
      200 answer under the event's key means that payment settled the order or is reported to the
      merchant, over every interleaving and however many pending deliveries of it came first. */
  lemma NoMercadoPagoPaymentLost(stock: Stock, tracked: set<Product>, before: seq<SystemStep>, after: seq<SystemStep>,
                                 tenant: Tenant, e: Event, id: OrderId, record: string -> Charge)
    requires forall sku :: sku in stock ==> stock[sku] >= 0
    requires var s := Execute(Start(stock, tracked), before);
      WebhookSafety.Binds(s.shop.orders, tenant, e, id) && e.status == NPaid && Unclaimed(s, KeyOf(tenant, e))
    requires FromMercadoPago(e, record)
    requires forall i :: 0 <= i < |after| && after[i].Receive? && after[i].event.provider == MercadoPago
                         ==> FromMercadoPago(after[i].event, record)
    ensures var t := Execute(Execute(Start(stock, tracked), before), after);
      Answered(t, KeyOf(tenant, e)) ==> SettledOrReported(t, KeyOf(tenant, e), id)
  {
    forall i | 0 <= i < |after| && after[i].Receive? && KeyOf(after[i].tenant, after[i].event) == KeyOf(tenant, e)
      ensures Agree(after[i].event, e)
    {
      MercadoPagoAgrees(after[i].event, e, record);
    }
    NoPaymentLost(stock, tracked, before, after, tenant, e, id);
  }

  /** What ePayco's record says of a transaction besides its status does not change between lookups. */
  ghost predicate FromEpayco(e: Event, record: (string, string) -> Charge) {
    exists ref, tx, status :: ':' !in ref && e == EpaycoEvent(ref, tx, status, record(ref, tx))
  }

  lemma EpaycoAgrees(a: Event, b: Event, record: (string, string) -> Charge)
    requires FromEpayco(a, record) && FromEpayco(b, record) && a.eventId == b.eventId
    ensures Agree(a, b)
  {
    var ref1, tx1, s1 :| ':' !in ref1 && a == EpaycoEvent(ref1, tx1, s1, record(ref1, tx1));
    var ref2, tx2, s2 :| ':' !in ref2 && b == EpaycoEvent(ref2, tx2, s2, record(ref2, tx2));
    EpaycoEventId(ref1, tx1, s1, ref2, tx2, s2, record(ref1, tx1), record(ref2, tx2));
  }

  /** No ePayco payment is lost either, over every interleaving. */
  lemma NoEpaycoPaymentLost(stock: Stock, tracked: set<Product>, before: seq<SystemStep>, after: seq<SystemStep>,
                            tenant: Tenant, e: Event, id: OrderId, record: (string, string) -> Charge)
    requires forall sku :: sku in stock ==> stock[sku] >= 0
    requires var s := Execute(Start(stock, tracked), before);
      WebhookSafety.Binds(s.shop.orders, tenant, e, id) && e.status == NPaid && Unclaimed(s, KeyOf(tenant, e))
    requires FromEpayco(e, record)
    requires forall i :: 0 <= i < |after| && after[i].Receive? && after[i].event.provider == Epayco
                         ==> FromEpayco(after[i].event, record)
    ensures var t := Execute(Execute(Start(stock, tracked), before), after);
      Answered(t, KeyOf(tenant, e)) ==> SettledOrReported(t, KeyOf(tenant, e), id)
  {
    forall i | 0 <= i < |after| && after[i].Receive? && KeyOf(after[i].tenant, after[i].event) == KeyOf(tenant, e)
      ensures Agree(after[i].event, e)
    {
      EpaycoAgrees(after[i].event, e, record);
    }
    NoPaymentLost(stock, tracked, before, after, tenant, e, id);
  }

  /** Wompi says one thing of a transaction per timestamp, and its timestamps are numbers. */
  ghost predicate FromWompi(e: Event, statement: (string, string) -> Report) {
    exists id, timestamp :: ':' !in timestamp && WompiStatement(id, timestamp, e, statement)
  }

  predicate WompiStatement(id: string, timestamp: string, e: Event, statement: (string, string) -> Report) {
    var r := statement(id, timestamp);
    r.id == id && r.timestamp == timestamp && e == WompiEvent(r)
  }

  lemma WompiAgrees(a: Event, b: Event, statement: (string, string) -> Report)
    ensures FromWompi(a, statement) && FromWompi(b, statement) && a.eventId == b.eventId ==> Agree(a, b)
  {
    if FromWompi(a, statement) && FromWompi(b, statement) && a.eventId == b.eventId {
      var id1, t1 :| ':' !in t1 && WompiStatement(id1, t1, a, statement);
      var id2, t2 :| ':' !in t2 && WompiStatement(id2, t2, b, statement);
      Texts.LastSeparator(id1, t1, id2, t2, ':');
    }
  }

  /** As long as Wompi gives every status change of a transaction its own timestamp, no Wompi payment is
      lost, over every interleaving and however many pending events of it came first. */
  lemma NoWompiPaymentLost(stock: Stock, tracked: set<Product>, before: seq<SystemStep>, after: seq<SystemStep>,
                           tenant: Tenant, e: Event, id: OrderId, statement: (string, string) -> Report)
    requires forall sku :: sku in stock ==> stock[sku] >= 0
    requires var s := Execute(Start(stock, tracked), before);
      WebhookSafety.Binds(s.shop.orders, tenant, e, id) && e.status == NPaid && Unclaimed(s, KeyOf(tenant, e))
    requires FromWompi(e, statement)
    requires forall i :: 0 <= i < |after| && after[i].Receive? && after[i].event.provider == Provider.Wompi
                         ==> FromWompi(after[i].event, statement)
    ensures var t := Execute(Execute(Start(stock, tracked), before), after);
      Answered(t, KeyOf(tenant, e)) ==> SettledOrReported(t, KeyOf(tenant, e), id)
  {
    forall i | 0 <= i < |after| && after[i].Receive? && KeyOf(after[i].tenant, after[i].event) == KeyOf(tenant, e)
      ensures Agree(after[i].event, e)
    {
      WompiAgrees(after[i].event, e, statement);
    }
    NoPaymentLost(stock, tracked, before, after, tenant, e, id);
  }

  /** Wompi composes no status into its key, so a payment reported PENDING and then APPROVED is settled
      if and only if the two reports carry different timestamps. */
  lemma WompiNeedsDistinctTimestamps(s: System, n: nat, m: nat, tenant: Tenant, pending: Report, paid: Report,
      order: OrderId)
    requires UniqueOrders(s.shop.orders) && order < |s.shop.orders| && Settleable(s.shop.orders[order])
    requires paid == pending.(status := "APPROVED", timestamp := paid.timestamp) && pending.status == "PENDING"
    requires WebhookSafety.Binds(s.shop.orders, tenant, WompiEvent(paid), order)
    requires n !in s.handlers && m !in s.handlers
    requires !WebhookSafety.IsProcessed(s.rows, KeyOf(tenant, WompiEvent(pending)))
    requires !WebhookSafety.IsProcessed(s.rows, KeyOf(tenant, WompiEvent(paid)))
    ensures var t := WebhookRetries.Uninterrupted(WebhookRetries.Uninterrupted(s, n, tenant, WompiEvent(pending)), m,
      tenant, WompiEvent(paid));
      && order < |t.shop.orders| && Delivery(tenant, WompiEvent(paid)) in t.acked
      && (t.shop.orders[order].payment == Paid <==> pending.timestamp != paid.timestamp)
  {
    assert WompiEvent(pending).eventId[|pending.id| + 1..] == pending.timestamp;
    assert WompiEvent(paid).eventId[|paid.id| + 1..] == paid.timestamp;
    WebhookRetries.PendingThenPaid(s, n, m, tenant, WompiEvent(pending), WompiEvent(paid), order);
  }

  /** A report whose last amount digit is read as a bare order number is about that order of the tenant:
      all that keeps its event from settling it is the amount check. */
  lemma BareNumberNeedsAmount(orders: seq<Order>, tenant: Tenant, r: Report, id: OrderId)
    requires Documented(r) && r.amount.n >= 10
    requires UniqueOrders(orders) && id < |orders| && orders[id].tenant == tenant
      && orders[id].number == r.amount.n % 10
    ensures var amount, number := r.amount.n / 10, Decimal.Print(r.amount.n % 10);
      var e := WompiEvent(Shifted(r, amount, number));
      && NumberText(r.amount) == Decimal.Print(amount) + number && ValidReference(number)
      && (WebhookSafety.Binds(orders, tenant, e, id) <==>
            orders[id].totalCents == amount && r.currency == Some(ORDER_CURRENCY))
      && (orders[id].totalCents != amount ==> AfterResolve(orders, tenant, e) == Stamping(AmountMismatch, Some(id)))
  {
    hide UniqueOrders, FindNumber, FindReference;
    var number := Decimal.Print(r.amount.n % 10);
    Decimal.ParsePrint(r.amount.n % 10);
    assert number[0] != OrderReference.PREFIX[0];
    OneNumber(orders, tenant, id);
  }

  lemma OneNumber(orders: seq<Order>, tenant: Tenant, id: OrderId)
    requires UniqueOrders(orders) && id < |orders| && orders[id].tenant == tenant
    ensures FindNumber(orders, tenant, orders[id].number) == Some(id)
  {
    WebhookSafety.DistinctOrders(orders, FindNumber(orders, tenant, orders[id].number).value, id);
  }

  /** The event is one an adapter reports for a gateway statement in the gateway's own words. */
  ghost predicate Reported(e: Event, approvedOnly: bool) {
    || (exists id, status, c :: (approvedOnly ==> status == "approved") && e == MercadoPagoEvent(id, status, c))
    || (exists r: Report :: (approvedOnly ==> r.status == "APPROVED") && e == WompiEvent(r))
    || (exists ref, tx, response, c :: ((approvedOnly ==> response == "Aceptada")
                                         && e == EpaycoEvent(ref, tx, EpaycoStatus(response), c)))
  }

  lemma PaidIsApproved(e: Event)
    requires Reported(e, false) && e.status == NPaid
    ensures Reported(e, true)
  {
    if id, status, c :| e == MercadoPagoEvent(id, status, c) {
      assert status == "approved";
    } else if r: Report :| e == WompiEvent(r) {
      assert r.status == "APPROVED";
    } else {
      var ref, tx, response, c :| e == EpaycoEvent(ref, tx, EpaycoStatus(response), c);
      assert response == "Aceptada";
    }
  }

  /** In every run whose deliveries come from the adapters, an order settled by a webhook was approved
      in its gateway's own word for it: no pending, rejected, refunded, unknown or future status text
      ever marks an order paid. */
  lemma PaidMeansApproved(stock: Stock, tracked: set<Product>, steps: seq<SystemStep>, id: OrderId)
    requires forall sku :: sku in stock ==> stock[sku] >= 0
    requires var s := Execute(Start(stock, tracked), steps);
      && id < |s.shop.orders| && s.shop.orders[id].payment == Paid
      && (forall d :: d in s.delivered ==> Reported(d.event, false))
    ensures var s := Execute(Start(stock, tracked), steps);
      id in s.causes && (s.causes[id].ByWebhook? ==> Reported(s.causes[id].delivery.event, true))
  {
    WebhookSafety.PaidOrdersAreJustified(stock, tracked, steps, id);
    var s := Execute(Start(stock, tracked), steps);
    if s.causes[id].ByWebhook? {
      PaidIsApproved(s.causes[id].delivery.event);
    }
  }

  // ---- What each gateway word does to an order ----

  /** The payment status an awaited order ends with. */
  predicate EndsWith(s: System, t: System, id: OrderId, payment: PaymentStatus) {
    id < |t.shop.orders| && t.shop.orders[id].payment == payment
    && (payment == Awaiting ==> t.shop == s.shop)
  }

  predicate Awaited(s: System, n: nat, tenant: Tenant, e: Event, id: OrderId) {
    && WebhookSafety.Binds(s.shop.orders, tenant, e, id)
    && s.shop.orders[id].status == Pending && s.shop.orders[id].payment == Awaiting
    && n !in s.handlers && !WebhookSafety.IsProcessed(s.rows, KeyOf(tenant, e))
  }

  lemma StatusDecides(s: System, n: nat, tenant: Tenant, e: Event, id: OrderId)
    requires UniqueOrders(s.shop.orders) && Awaited(s, n, tenant, e, id)
    ensures EndsWith(s, WebhookRetries.Uninterrupted(s, n, tenant, e), id,
                     if e.status == NPaid then Paid else if e.status == NFailed then Failed else Awaiting)
  {
    hide WebhookRetries.Uninterrupted, UniqueOrders;
    WebhookOutcomes.DeliveryApplied(s, n, tenant, e, id);
  }

  /** Whatever Mercado Pago calls a payment, its delivery settles an awaited order exactly for `approved`,
      leaves it alone for the words of a payment under way or reversed, and fails it for any other word. */
  lemma MercadoPagoWords(s: System, n: nat, tenant: Tenant, paymentId: string, word: string, c: Charge, id: OrderId)
    requires UniqueOrders(s.shop.orders) && Awaited(s, n, tenant, MercadoPagoEvent(paymentId, word, c), id)
    ensures EndsWith(s, WebhookRetries.Uninterrupted(s, n, tenant, MercadoPagoEvent(paymentId, word, c)), id,
                     if word == "approved" then Paid
                     else if word in ["pending", "in_process", "authorized", "in_mediation", "refunded", "charged_back"]
                     then Awaiting
                     else Failed)
  {
    hide WebhookRetries.Uninterrupted, UniqueOrders, EndsWith, Awaited;
    StatusDecides(s, n, tenant, MercadoPagoEvent(paymentId, word, c), id);
  }

  /** Wompi: `APPROVED` settles, `PENDING` waits, and every other word fails. */
  lemma WompiWords(s: System, n: nat, tenant: Tenant, r: Report, id: OrderId)
    requires UniqueOrders(s.shop.orders) && Awaited(s, n, tenant, WompiEvent(r), id)
    ensures EndsWith(s, WebhookRetries.Uninterrupted(s, n, tenant, WompiEvent(r)), id,
                     if r.status == "APPROVED" then Paid else if r.status == "PENDING" then Awaiting else Failed)
  {
    hide WebhookRetries.Uninterrupted, UniqueOrders, EndsWith, Awaited;
    StatusDecides(s, n, tenant, WompiEvent(r), id);
  }

  /** ePayco: `Aceptada` settles, `Pendiente` waits, and every other word of its record fails. */
  lemma EpaycoWords(s: System, n: nat, tenant: Tenant, ref: string, tx: string, word: string, c: Charge, id: OrderId)
    requires UniqueOrders(s.shop.orders) && Awaited(s, n, tenant, EpaycoEvent(ref, tx, EpaycoStatus(word), c), id)
    ensures EndsWith(s, WebhookRetries.Uninterrupted(s, n, tenant, EpaycoEvent(ref, tx, EpaycoStatus(word), c)), id,
                     if word == "Aceptada" then Paid else if word == "Pendiente" then Awaiting else Failed)
  {
    hide WebhookRetries.Uninterrupted, UniqueOrders, EndsWith, Awaited;
    StatusDecides(s, n, tenant, EpaycoEvent(ref, tx, EpaycoStatus(word), c), id);
  }

  // ---- ePayco's re-verification ----

  /** The confirmation fields the adapter reads; an absent field is the empty string. */
  datatype Confirmation = Confirmation(
    refPayco: string, transactionId: string, amount: string, currencyCode: string, signature: string,
    response: string, extra1: string)

  /** `TransactionStatusResult`: the gateway's own record of the transaction. */
  datatype GatewayRecord = GatewayRecord(status: NormalizedStatus, reference: Option<string>, amountCents: Option<int>,
      currency: Option<string>)

  datatype Verification = Verified(event: Event) | Rejected | Unreachable

  function SignedText(customerId: string, key: string, f: Confirmation): string {
    customerId + "^" + key + "^" + f.refPayco + "^" + f.transactionId + "^" + f.amount + "^" + f.currencyCode
  }

  /** `EpaycoProvider.verifyAndParseWebhook`; the hash, the amount parser and the gateway's answer per
      reference (None when it cannot be reached) are parameters. */
  function VerifyEpayco(sha: string -> string, cents: string -> Option<int>, lookup: string -> Option<GatewayRecord>,
                        customerId: string, key: string, f: Confirmation): Verification {
    if f.refPayco == "" || f.transactionId == "" || f.amount == "" || f.currencyCode == "" || f.signature == ""
       || f.response == "" || f.extra1 == "" then Rejected
    else if sha(SignedText(customerId, key, f)) != f.signature then Rejected
    else if cents(f.amount).None? then Rejected
    else
      var looked := lookup(f.refPayco);
      if looked.None? then Unreachable
      else if looked.value.reference != Some(f.extra1) then Rejected
      else if looked.value.amountCents.Some? && looked.value.amountCents != cents(f.amount) then Rejected
      else if looked.value.currency.Some? && looked.value.currency != Some(f.currencyCode) then Rejected
      else Verified(EpaycoEvent(f.refPayco, f.transactionId, looked.value.status,
                                Charge(f.extra1, cents(f.amount).value, Some(f.currencyCode))))
  }

  /** Nothing the record states contradicts the confirmation; an amount or currency it does not state does
      not. */
  predicate RecordAgrees(record: GatewayRecord, f: Confirmation, amountCents: int) {
    && record.reference == Some(f.extra1)
    && (record.amountCents == None || record.amountCents == Some(amountCents))
    && (record.currency == None || record.currency == Some(f.currencyCode))
  }

  /** A confirmation is accepted if and only if it has all its fields, its signature is that of its own values,
      its amount can be read, and the gateway's record of the transaction is there and agrees; the event then
      has the confirmation's own values and the record's status. It is put off exactly when only that record
      is missing. */
  lemma ConfirmationExactly(sha: string -> string, cents: string -> Option<int>,
                            lookup: string -> Option<GatewayRecord>, customerId: string, key: string, f: Confirmation)
    ensures var v, record := VerifyEpayco(sha, cents, lookup, customerId, key, f), lookup(f.refPayco);
      var signed := && "" !in [f.refPayco, f.transactionId, f.amount, f.currencyCode, f.signature, f.response, f.extra1]
                    && sha(SignedText(customerId, key, f)) == f.signature && cents(f.amount).Some?;
      && (v.Verified? <==> signed && record.Some? && RecordAgrees(record.value, f, cents(f.amount).value))
      && (v.Unreachable? <==> signed && record.None?)
      && (v.Verified? ==>
            v.event.status == record.value.status && v.event.reference == f.extra1 && v.event.providerRef == f.refPayco
            && v.event.amountCents == cents(f.amount).value && v.event.currency == Some(f.currencyCode)
            && v.event.provider == Epayco)
  {
    hide SignedText;
    var fields := [f.refPayco, f.transactionId, f.amount, f.currencyCode, f.signature, f.response, f.extra1];
    assert fields[0] == f.refPayco && fields[1] == f.transactionId && fields[2] == f.amount;
    assert fields[3] == f.currencyCode && fields[4] == f.signature && fields[5] == f.response && fields[6] == f.extra1;
  }

  predicate CaretFree(f: Confirmation) {
    '^' !in f.refPayco && '^' !in f.transactionId && '^' !in f.amount && '^' !in f.currencyCode
  }

  function Carets(f: Confirmation): nat {
    Texts.Occurrences(f.refPayco, '^') + Texts.Occurrences(f.transactionId, '^')
      + Texts.Occurrences(f.amount, '^') + Texts.Occurrences(f.currencyCode, '^')
  }

  lemma CaretsOfText(customerId: string, key: string, f: Confirmation)
    ensures Texts.Occurrences(SignedText(customerId, key, f), '^')
      == Texts.Occurrences(customerId + "^" + key + "^", '^') + Carets(f) + 3
    ensures Carets(f) == 0 <==> CaretFree(f)
  {
    var c, head := '^', customerId + "^" + key + "^";
    hide Texts.Occurrences;
    OneCaret();
    Texts.OccurrencesConcat(head, f.refPayco, c);
    Texts.OccurrencesConcat(head + f.refPayco, "^", c);
    Texts.OccurrencesConcat(head + f.refPayco + "^", f.transactionId, c);
    Texts.OccurrencesConcat(head + f.refPayco + "^" + f.transactionId, "^", c);
    Texts.OccurrencesConcat(head + f.refPayco + "^" + f.transactionId + "^", f.amount, c);
    Texts.OccurrencesConcat(head + f.refPayco + "^" + f.transactionId + "^" + f.amount, "^", c);
    Texts.OccurrencesConcat(head + f.refPayco + "^" + f.transactionId + "^" + f.amount + "^", f.currencyCode, c);
    Texts.OccurrencesZero(f.refPayco, c);
    Texts.OccurrencesZero(f.transactionId, c);
    Texts.OccurrencesZero(f.amount, c);
    Texts.OccurrencesZero(f.currencyCode, c);
  }

  lemma OneCaret()
    ensures Texts.Occurrences("^", '^') == 1
  {
    assert "^"[1..] == "";
  }

  /** When the fields of a genuine confirmation hold no caret, no other fields, whatever they hold, sign
      to the same text. */
  lemma SignedTextDecodes(customerId: string, key: string, f: Confirmation, g: Confirmation)
    requires CaretFree(f) && SignedText(customerId, key, f) == SignedText(customerId, key, g)
    ensures SameSigned(f, g)
  {
    CaretsOfText(customerId, key, f);
    CaretsOfText(customerId, key, g);
    var head := customerId + "^" + key + "^";
    var f1, g1 := head + f.refPayco, head + g.refPayco;
    var f2, g2 := f1 + "^" + f.transactionId, g1 + "^" + g.transactionId;
    var f3, g3 := f2 + "^" + f.amount, g2 + "^" + g.amount;
    Texts.LastSeparator(f3, f.currencyCode, g3, g.currencyCode, '^');
    Texts.LastSeparator(f2, f.amount, g2, g.amount, '^');
    Texts.LastSeparator(f1, f.transactionId, g1, g.transactionId, '^');
    assert f1[|head|..] == f.refPayco && g1[|head|..] == g.refPayco;
  }

  predicate SameSigned(f: Confirmation, g: Confirmation) {
    f.refPayco == g.refPayco && f.transactionId == g.transactionId && f.amount == g.amount
      && f.currencyCode == g.currencyCode
  }

  /** A confirmation with a caret in one of its signed fields, and the other one that signs the same: the
      caret moves to the field's neighbour. */
  function CaretMoved(f: Confirmation): Confirmation
    requires !CaretFree(f)
  {
    if '^' in f.refPayco then
      var i := Texts.First(f.refPayco, '^');
      f.(refPayco := f.refPayco[..i], transactionId := f.refPayco[i + 1..] + "^" + f.transactionId)
    else if '^' in f.transactionId then
      var i := Texts.First(f.transactionId, '^');
      f.(transactionId := f.transactionId[..i], amount := f.transactionId[i + 1..] + "^" + f.amount)
    else if '^' in f.amount then
      var i := Texts.First(f.amount, '^');
      f.(amount := f.amount[..i], currencyCode := f.amount[i + 1..] + "^" + f.currencyCode)
    else
      var i := Texts.First(f.currencyCode, '^');
      f.(amount := f.amount + "^" + f.currencyCode[..i], currencyCode := f.currencyCode[i + 1..])
  }

  lemma Regroup(head: string, p: string, q: string, b: string)
    ensures head + (p + "^" + q) + "^" + b == head + p + "^" + (q + "^" + b)
    ensures head + b + "^" + (p + "^" + q) == head + (b + "^" + p) + "^" + q
  {
    assert head + (p + "^" + q) + "^" + b == head + p + "^" + q + "^" + b;
  }

  /** What a field with a caret passes to the one after it, or to the one before it. */
  lemma FieldShifts(head: string, a: string, b: string)
    requires '^' in a
    ensures var i := Texts.First(a, '^');
      && head + a + "^" + b == head + a[..i] + "^" + (a[i + 1..] + "^" + b)
      && head + b + "^" + a == head + (b + "^" + a[..i]) + "^" + a[i + 1..]
      && |a[..i]| < |a|
  {
    var i := Texts.First(a, '^');
    assert a == a[..i] + "^" + a[i + 1..];
    Regroup(head, a[..i], a[i + 1..], b);
  }

  lemma CaretMoves(customerId: string, key: string, f: Confirmation)
    requires !CaretFree(f)
    ensures SignedText(customerId, key, f) == SignedText(customerId, key, CaretMoved(f))
      && !SameSigned(f, CaretMoved(f))
  {
    hide Texts.First;
    var head := customerId + "^" + key + "^";
    if '^' in f.refPayco {
      FieldShifts(head, f.refPayco, f.transactionId);
    } else if '^' in f.transactionId {
      FieldShifts(head + f.refPayco + "^", f.transactionId, f.amount);
    } else if '^' in f.amount {
      FieldShifts(head + f.refPayco + "^" + f.transactionId + "^", f.amount, f.currencyCode);
    } else {
      FieldShifts(head + f.refPayco + "^" + f.transactionId + "^", f.currencyCode, f.amount);
      assert |f.amount + "^" + f.currencyCode[..Texts.First(f.currencyCode, '^')]| > |f.amount|;
    }
  }

  /** Exactly the confirmations without a caret are determined by the text they sign: each of the others
      shares it with one that differs in a signed field. */
  lemma CaretAliases(customerId: string, key: string, f: Confirmation)
    ensures CaretFree(f) <==>
      forall g :: (SignedText(customerId, key, f) == SignedText(customerId, key, g) ==> SameSigned(f, g))
  {
    hide SignedText, SameSigned;
    if CaretFree(f) {
      forall g | SignedText(customerId, key, f) == SignedText(customerId, key, g) ensures SameSigned(f, g) {
        SignedTextDecodes(customerId, key, f, g);
      }
    } else {
      CaretMoves(customerId, key, f);
    }
  }

  ghost predicate Injective(sha: string -> string) { forall a, b :: sha(a) == sha(b) ==> a == b }

  /** Rewriting the unsigned fields of a genuine confirmation, or any of its fields, cannot move it to
      another order, amount, currency or status while its signature is kept: whatever else is accepted
      under that signature reports the same event. */
  lemma OneSignatureOneEvent(sha: string -> string, cents: string -> Option<int>,
                             lookup: string -> Option<GatewayRecord>, customerId: string, key: string,
                             f: Confirmation, g: Confirmation)
    requires Injective(sha) && CaretFree(f) && f.signature == g.signature
    requires VerifyEpayco(sha, cents, lookup, customerId, key, f).Verified?
    requires VerifyEpayco(sha, cents, lookup, customerId, key, g).Verified?
    ensures VerifyEpayco(sha, cents, lookup, customerId, key, f) == VerifyEpayco(sha, cents, lookup, customerId, key, g)
  {
    SignedTextDecodes(customerId, key, f, g);
  }

  /** For any two accepted confirmations, with or without carets: the same event exactly when they name
      the same transaction, amount in cents and currency. */
  lemma SameEventExactly(sha: string -> string, cents: string -> Option<int>, lookup: string -> Option<GatewayRecord>,
                         customerId: string, key: string, f: Confirmation, g: Confirmation)
    requires VerifyEpayco(sha, cents, lookup, customerId, key, f).Verified?
    requires VerifyEpayco(sha, cents, lookup, customerId, key, g).Verified?
    ensures VerifyEpayco(sha, cents, lookup, customerId, key, f) == VerifyEpayco(sha, cents, lookup, customerId, key, g)
      <==> (f.refPayco == g.refPayco && f.transactionId == g.transactionId
            && cents(f.amount) == cents(g.amount) && f.currencyCode == g.currencyCode)
  {
    hide SignedText;
    var e1 := VerifyEpayco(sha, cents, lookup, customerId, key, f).event;
    var e2 := VerifyEpayco(sha, cents, lookup, customerId, key, g).event;
    var name := StatusName(e1.status);
    if e1 == e2 {
      assert e1.eventId == (f.refPayco + ":" + f.transactionId) + [':'] + name;
      assert e2.eventId == (g.refPayco + ":" + g.transactionId) + [':'] + name;
      assert ':' !in name;
      Texts.LastSeparator(f.refPayco + ":" + f.transactionId, name, g.refPayco + ":" + g.transactionId, name, ':');
      Texts.SameHeadLength(f.refPayco + ":", f.transactionId, g.refPayco + ":", g.transactionId);
    }
  }

  /** An honest confirmation is accepted: signed fields, a matching gateway record, and whatever status
      that record has by then. */
  lemma HonestConfirmationAccepted(sha: string -> string, cents: string -> Option<int>,
                                   lookup: string -> Option<GatewayRecord>, customerId: string, key: string,
                                   f: Confirmation, status: NormalizedStatus)
    requires "" !in [f.refPayco, f.transactionId, f.amount, f.currencyCode, f.signature, f.response, f.extra1]
    requires f.signature == sha(SignedText(customerId, key, f)) && cents(f.amount).Some?
    requires lookup(f.refPayco) == Some(GatewayRecord(status, Some(f.extra1), cents(f.amount), Some(f.currencyCode)))
    ensures VerifyEpayco(sha, cents, lookup, customerId, key, f)
         == Verified(EpaycoEvent(f.refPayco, f.transactionId, status,
           Charge(f.extra1, cents(f.amount).value, Some(f.currencyCode))))
  {
    assert f.response in [f.refPayco, f.transactionId, f.amount, f.currencyCode, f.signature, f.response, f.extra1];
  }
}
