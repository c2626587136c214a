/** Exactly when each transaction of the shop is accepted, and what it then does to the order and to stock,
    on the order's own fields. */
module OrderEffects {
  import opened Options
  import opened Lifecycle

  // ---- Taking stock ----

  /** Every tracked row the lines name exists and has the units all of them ask of it together. */
  predicate CanTake(stock: Stock, tracked: set<Product>, lines: seq<Line>) {
    forall i :: 0 <= i < |lines| && lines[i].sku.product in tracked ==>
      lines[i].sku in stock && Units(lines, lines[i].sku) <= stock[lines[i].sku]
  }

  lemma {:induction false} LineUnits(lines: seq<Line>, i: nat)
    requires i < |lines|
    ensures Units(lines, lines[i].sku) >= lines[i].qty
  {
    if i > 0 {
      LineUnits(lines[1..], i - 1);
    }
  }

  lemma {:induction false} NoLineNoUnits(lines: seq<Line>, sku: Sku)
    requires forall i :: 0 <= i < |lines| ==> lines[i].sku != sku
    ensures Units(lines, sku) == 0
  {
    if lines != [] {
      NoLineNoUnits(lines[1..], sku);
    }
  }

  lemma CanTakeRest(stock: Stock, tracked: set<Product>, lines: seq<Line>)
    requires lines != [] && AdjustLine(stock, tracked, lines[0], -1 * lines[0].qty).Some?
    ensures CanTake(AdjustLine(stock, tracked, lines[0], -1 * lines[0].qty).value, tracked, lines[1..])
      <==> CanTake(stock, tracked, lines)
  {
    var first, rest := lines[0], lines[1..];
    var next := AdjustLine(stock, tracked, first, -1 * first.qty).value;
    if CanTake(next, tracked, rest) {
      forall i | 0 <= i < |lines| && lines[i].sku.product in tracked
        ensures lines[i].sku in stock && Units(lines, lines[i].sku) <= stock[lines[i].sku]
      {
        if i > 0 {
          assert rest[i - 1] == lines[i];
        } else if exists j :: 0 <= j < |rest| && rest[j].sku == first.sku {
          var j :| 0 <= j < |rest| && rest[j].sku == first.sku;
        } else {
          NoLineNoUnits(rest, first.sku);
        }
      }
    }
    if CanTake(stock, tracked, lines) {
      forall i | 0 <= i < |rest| && rest[i].sku.product in tracked
        ensures rest[i].sku in next && Units(rest, rest[i].sku) <= next[rest[i].sku]
      {
        assert lines[i + 1] == rest[i];
      }
    }
  }

  /** Taking an order's units succeeds if and only if every tracked row has what all lines ask of it
      together, however often a row is named. */
  lemma {:induction false} TakingSucceeds(stock: Stock, tracked: set<Product>, lines: seq<Line>)
    requires forall sku :: sku in stock ==> stock[sku] >= 0
    ensures Adjust(stock, tracked, lines, -1).Some? <==> CanTake(stock, tracked, lines)
    decreases |lines|
  {
    if lines != [] {
      LineUnits(lines, 0);
      var next := AdjustLine(stock, tracked, lines[0], -1 * lines[0].qty);
      if next.Some? {
        TakingSucceeds(next.value, tracked, lines[1..]);
        CanTakeRest(stock, tracked, lines);
      }
    }
  }

  /** Every row moves by the units the lines ask of it, and no row appears or goes. */
  predicate StockMoves(was: Stock, now: Stock, tracked: set<Product>, lines: seq<Line>, sign: int) {
    now.Keys == was.Keys && forall sku :: sku in was ==> now[sku] == was[sku] + sign * UnitsTracked(tracked, lines, sku)
  }

  lemma AdjustMoves(stock: Stock, tracked: set<Product>, lines: seq<Line>, sign: int)
    requires (sign == 1 || sign == -1) && Adjust(stock, tracked, lines, sign).Some?
    ensures StockMoves(stock, Adjust(stock, tracked, lines, sign).value, tracked, lines, sign)
  {
    AdjustEffect(stock, tracked, lines, sign);
  }

  // ---- Checkout ----

  predicate Orderable(s: Shop, d: Draft) {
    && d.lines != []
    && (forall i :: 0 <= i < |d.lines| ==>
          d.lines[i].sku in s.stock
          && (d.lines[i].sku.product in s.tracked ==> s.stock[d.lines[i].sku] >= d.lines[i].qty))
    && (forall i :: 0 <= i < |s.orders| ==> s.orders[i].reference != d.reference)
    && (d.provider.Some? ==> CanTake(s.stock, s.tracked, d.lines))
  }

  /** The order a draft becomes: an online one waits fifteen minutes for its payment. */
  predicate MadeFrom(o: Order, d: Draft, now: nat) {
    && o.tenant == d.tenant && o.reference == d.reference && o.lines == d.lines && o.totalCents == d.totalCents
    && o.provider == d.provider && o.providerRef.None? && o.createdAt == now && o.status == Pending
    && (d.provider.Some? ==> o.payment == Awaiting && o.reservedUntil == Some(now + 900))
    && (d.provider.None? ==> o.payment == Cod && o.reservedUntil.None?)
  }

  /** A checkout is accepted if and only if the cart is not empty, every line is available on its own, the
      reference is unused and, for an online order, stock covers all lines together. It then appends the
      order, and takes its units exactly when it is online. */
  lemma CheckoutExactly(s: Shop, d: Draft)
    requires Inv(s)
    ensures PlaceOrder(s, d).Ok? <==> Orderable(s, d)
    ensures PlaceOrder(s, d).Ok? ==>
      var t := Apply(s, Checkout(d));
      && |t.orders| == |s.orders| + 1 && t.orders[..|s.orders|] == s.orders
      && MadeFrom(t.orders[|s.orders|], d, s.now)
      && (if d.provider.Some? then StockMoves(s.stock, t.stock, s.tracked, d.lines, -1) else t.stock == s.stock)
      && t == s.(orders := t.orders, stock := t.stock, log := t.log)
    ensures !PlaceOrder(s, d).Ok? ==> Apply(s, Checkout(d)) == s
  {
    hide Inv, Adjust, CanTake, StockMoves;
    StockNeverNegative(s);
    TakingSucceeds(s.stock, s.tracked, d.lines);
    assert (forall i :: 0 <= i < |d.lines| ==> Available(s, d.lines[i])) <==>
      forall i :: 0 <= i < |d.lines| ==>
        d.lines[i].sku in s.stock
        && (d.lines[i].sku.product in s.tracked ==> s.stock[d.lines[i].sku] >= d.lines[i].qty);
    if PlaceOrder(s, d).Ok? && d.provider.Some? {
      AdjustMoves(s.stock, s.tracked, d.lines, -1);
    }
  }

  // ---- The merchant's actions ----

  /** The action is the next step along the line, or a cancellation, of an order that is still open. */
  predicate OnTheLine(o: Order, action: Action) {
    !Terminal(o.status) && (action == Cancel || action == Forward(o.status))
  }

  predicate AwaitsPayment(o: Order) { o.provider.Some? && o.payment == Awaiting }

  /** Confirming a cash order takes its units, and cancelling an order gives back what it holds. */
  predicate StockAllows(s: Shop, o: Order, action: Action) {
    && (action == Confirm && o.provider.None? ==> CanTake(s.stock, s.tracked, o.lines))
    && (action == Cancel && Holding(o) ==> HasRows(s.stock, s.tracked, o.lines))
  }

  lemma OrderOfInv(s: Shop, id: OrderId)
    requires Inv(s) && id < |s.orders|
    ensures CoherentOrder(s.orders[id]) && forall sku :: sku in s.stock ==> s.stock[sku] >= 0
  {
    assert OrderInv(s.orders[id], id, s.log);
  }

  /** An action is accepted if and only if it is on the line, is not a confirmation of an order whose online
      payment is awaited, and stock allows it; each refusal has its own error, and changes nothing. */
  lemma ActionAccepted(s: Shop, id: OrderId, action: Action)
    requires Inv(s)
    ensures id >= |s.orders| <==> Transition(s, id, action) == Err(OrderNotFound)
    ensures id < |s.orders| ==>
      var o, r := s.orders[id], Transition(s, id, action);
      var blocked := action == Confirm && AwaitsPayment(o);
      && (r.Ok? <==> OnTheLine(o, action) && !blocked && StockAllows(s, o, action))
      && (r == Err(InvalidTransition) <==> !OnTheLine(o, action))
      && (r == Err(OnlinePaymentPending) <==> OnTheLine(o, action) && blocked)
      && (r == Err(StockBelowZero) <==> OnTheLine(o, action) && !blocked && !StockAllows(s, o, action))
    ensures !Transition(s, id, action).Ok? ==> Apply(s, Act(id, action)) == s
  {
    hide Inv, Adjust, CanTake, HasRows;
    if id < |s.orders| {
      OrderOfInv(s, id);
      TakingSucceeds(s.stock, s.tracked, s.orders[id].lines);
      RestockSucceeds(s.stock, s.tracked, s.orders[id].lines);
    }
  }

  /** Units of a row the order holds out of stock. */
  function HeldOf(s: Shop, o: Order, sku: Sku): nat {
    if Holding(o) then UnitsTracked(s.tracked, o.lines, sku) else 0
  }

  /** An accepted action moves the order's status, ends its reservation and, when it cancels an unpaid online
      order, its payment; stock moves by exactly what the order stops or starts holding. */
  lemma ActionEffect(s: Shop, id: OrderId, action: Action)
    requires Inv(s) && Transition(s, id, action).Ok?
    ensures var t, was := Apply(s, Act(id, action)), s.orders[id];
      && |t.orders| == |s.orders| && (forall i :: 0 <= i < |s.orders| && i != id ==> t.orders[i] == s.orders[i])
      && var o := t.orders[id];
      && (if action == Cancel then o.status == Cancelled else Rank(o.status) == Rank(was.status) + 1 < 5)
      && o.payment == (if action == Cancel && was.payment in {Awaiting, Failed} then Expired else was.payment)
      && o.reservedUntil.None? && o == was.(status := o.status, payment := o.payment, reservedUntil := None)
      && t.stock.Keys == s.stock.Keys
      && (forall sku :: sku in s.stock ==>
            t.stock[sku] + HeldOf(s, o, sku) == s.stock[sku] + HeldOf(s, was, sku))
      && t == s.(orders := t.orders, stock := t.stock, log := t.log)
  {
    hide Inv, Adjust, UnitsTracked;
    OrderOfInv(s, id);
    var o := s.orders[id];
    if TakesStock(action, o) {
      AdjustMoves(s.stock, s.tracked, o.lines, -1);
    } else if ReturnsStock(action, o) {
      AdjustMoves(s.stock, s.tracked, o.lines, 1);
    }
  }

  // ---- Expiry ----

  /** The order has been cancelled as expired and everything it held is back in stock. */
  predicate Released(s: Shop, t: Shop, id: OrderId)
    requires id < |s.orders|
  {
    && t.orders == s.orders[id := s.orders[id].(status := Cancelled, payment := Expired, reservedUntil := None)]
    && StockMoves(s.stock, t.stock, s.tracked, s.orders[id].lines, 1)
    && t.log == s.log + [ReturnedOnExpiry(id)]
    && t.tracked == s.tracked && t.now == s.now
  }

  /** A swept order is released if and only if it is still pending and its tracked lines still have rows;
      otherwise the transaction changes neither orders nor stock. */
  lemma ExpiryReleases(s: Shop, id: OrderId)
    requires Inv(s) && id in s.sweep
    ensures id < |s.orders|
    ensures var t, o := Apply(s, ExpireOne(id)), s.orders[id];
      && t.sweep == s.sweep - {id} && t.hints == s.hints
      && (o.status == Pending && HasRows(s.stock, s.tracked, o.lines) ==> Released(s, t, id))
      && (!(o.status == Pending && HasRows(s.stock, s.tracked, o.lines)) ==> t == s.(sweep := s.sweep - {id}))
  {
    SweptExists(s, id);
    hide Inv, Adjust, HasRows, StockMoves;
    OrderOfInv(s, id);
    RestockSucceeds(s.stock, s.tracked, s.orders[id].lines);
    if Adjust(s.stock, s.tracked, s.orders[id].lines, 1).Some? {
      AdjustMoves(s.stock, s.tracked, s.orders[id].lines, 1);
    }
  }

  lemma SweptExists(s: Shop, id: OrderId)
    requires Inv(s) && id in s.sweep
    ensures id < |s.orders|
  {
  }

  /** An online order whose fifteen minutes are over before it was paid. */
  predicate Overran(s: Shop, id: OrderId) {
    id < |s.orders| && s.orders[id].status == Pending && s.orders[id].reservedUntil.Some?
    && s.orders[id].reservedUntil.value < s.now
  }

  /** One sweep: the candidates are read once, and each is then expired in a transaction of its own. */
  function Sweep(ids: seq<OrderId>): seq<Step> { [SelectExpired] + Expiries(ids) }

  function Expiries(ids: seq<OrderId>): seq<Step> { seq(|ids|, i requires 0 <= i < |ids| => ExpireOne(ids[i])) }

  predicate Gone(s: Shop, id: OrderId) {
    id < |s.orders| && s.orders[id].status == Cancelled && s.orders[id].payment == Expired
    && s.orders[id].reservedUntil.None? && ReturnedOnExpiry(id) in s.log
  }

  /** A swept order that can be released, or one that has been. */
  predicate Due(s: Shop, id: OrderId) {
    id < |s.orders| && id in s.sweep && s.orders[id].status == Pending
      && HasRows(s.stock, s.tracked, s.orders[id].lines)
  }

  lemma ExpiryStep(s: Shop, id: OrderId, other: OrderId)
    requires Inv(s) && (Due(s, other) || Gone(s, other))
    ensures var t := Apply(s, ExpireOne(id));
      Gone(t, other) || (Due(t, other) && id != other)
  {
    if id in s.sweep {
      hide Inv;
      ExpiryReleases(s, id);
    }
  }

  lemma {:induction false} ExpiriesRelease(s: Shop, ids: seq<OrderId>, id: OrderId)
    requires Inv(s) && (Gone(s, id) || (Due(s, id) && id in ids))
    ensures Gone(Run(s, Expiries(ids)), id)
    decreases |ids|
  {
    if ids != [] {
      hide Inv, Apply, Gone, Due;
      var t := Apply(s, ExpireOne(ids[0]));
      assert Expiries(ids)[0] == ExpireOne(ids[0]) && Expiries(ids)[1..] == Expiries(ids[1..]);
      ExpiryStep(s, ids[0], id);
      StepKeepsInv(s, ExpireOne(ids[0]));
      ExpiriesRelease(t, ids[1..], id);
    }
  }

  /** After any run, a sweep that visits an order whose reservation is over cancels it as expired and gives
      its units back, as long as its tracked lines have rows; whatever else it visits, in whatever order. */
  lemma SweepReleases(stock: Stock, tracked: set<Product>, steps: seq<Step>, ids: seq<OrderId>, id: OrderId)
    requires forall sku :: sku in stock ==> stock[sku] >= 0
    requires var s := Run(Opening(stock, tracked), steps);
      id in ids && Overran(s, id) && HasRows(s.stock, s.tracked, s.orders[id].lines)
    ensures var s := Run(Opening(stock, tracked), steps);
      && Gone(Run(s, Sweep(ids)), id)
      && Released(s, Run(s, Sweep([id])), id)
  {
    RunKeepsInv(Opening(stock, tracked), steps);
    var s := Run(Opening(stock, tracked), steps);
    var swept := Apply(s, SelectExpired);
    StepKeepsInv(s, SelectExpired);
    hide Inv, Opening;
    assert Sweep(ids)[0] == SelectExpired && Sweep(ids)[1..] == Expiries(ids);
    assert Sweep([id])[0] == SelectExpired && Sweep([id])[1..] == [ExpireOne(id)] && [ExpireOne(id)][1..] == [];
    assert Run(swept, [ExpireOne(id)]) == Run(Apply(swept, ExpireOne(id)), []);
    ExpiriesRelease(swept, ids, id);
    ExpiryReleases(swept, id);
  }

  // ---- Reference hints ----

  /** A hint that is checked and written with nothing in between is accepted if and only if the order is
      online, its payment is awaited or has failed, and no gateway has vouched for its reference; it then
      changes that reference alone. */
  lemma HintExactly(s: Shop, id: OrderId, ref: string)
    requires s.hints == {}
    ensures var t := Apply(Apply(s, CheckHint(id)), WriteHint(id, ref));
      if id < |s.orders| && s.orders[id].provider.Some? && s.orders[id].payment in {Awaiting, Failed}
         && (s.orders[id].providerRef.Some? ==> !s.orders[id].providerRef.value.verified)
      then t == s.(orders := s.orders[id := s.orders[id].(providerRef := Some(Ref(ref, false)))])
      else t == s
  {
  }
}
