/** Cents and pesos through binary floating point: each division and multiplication rounds to nearest
    (IEEE 754, section 4.3), modelled as a relative error of at most 2^-53. */
module Money {
  import opened Options
  import opened Lifecycle
  import opened Webhooks
  import WebhookSafety

  const UNIT: real := 1.0 / 9007199254740992.0
  const MAX_EXACT: nat := 1125899906842624

  function Abs(x: real): real { if x < 0.0 then -x else x }

  predicate Close(r: real, x: real) { Abs(r - x) <= UNIT * Abs(x) }

  /** The two operations an amount goes through, the division and the multiplication back, each round
      their exact result to nearest. Nothing is asked of any other number. */
  predicate RoundsFor(fl: real -> real, cents: nat) {
    Close(Pesos(fl, cents), cents as real / 100.0) && Close(fl(Pesos(fl, cents) * 100.0), Pesos(fl, cents) * 100.0)
  }

  /** `Math.round` */
  function MathRound(x: real): int { (x + 0.5).Floor }

  /** `cents / 100` */
  function Pesos(fl: real -> real, cents: nat): real { fl(cents as real / 100.0) }

  /** `Math.round(pesos * 100)` */
  function Cents(fl: real -> real, pesos: real): int { MathRound(fl(pesos * 100.0)) }

  lemma RoundNearInteger(y: real, c: int)
    requires Abs(y - c as real) < 0.5
    ensures MathRound(y) == c
  {
  }

  lemma TwoRoundings(c: real, x: real, y: real)
    requires 0.0 <= c <= 1125899906842624.0 && Close(x, c / 100.0) && Close(y, x * 100.0)
    ensures Abs(y - c) < 0.5
  {
    assert Abs(100.0 * x - c) <= 0.125;
    assert Abs(x * 100.0) <= 1125899906842624.5;
  }

  /** What an adapter sends in pesos and reads back in cents is the amount it started from, for every
      amount up to 2^50 cents and whatever the two roundings do. */
  lemma CentsOfPesos(fl: real -> real, cents: nat)
    requires RoundsFor(fl, cents) && cents <= MAX_EXACT
    ensures Cents(fl, Pesos(fl, cents)) == cents
  {
    var x := Pesos(fl, cents);
    TwoRoundings(cents as real, x, fl(x * 100.0));
    RoundNearInteger(fl(x * 100.0), cents);
  }

  /** So the settle protocol's amount check accepts a charge if and only if it is the order's total. */
  lemma AmountCheckIsExact(fl: real -> real, orders: seq<Order>, id: OrderId, e: Event, charged: nat)
    requires RoundsFor(fl, charged) && charged <= MAX_EXACT && UniqueOrders(orders) && id < |orders|
    requires WebhookSafety.Names(orders[id], orders[id].tenant, e.reference) && e.currency == Some(ORDER_CURRENCY)
    requires e.amountCents == Cents(fl, Pesos(fl, charged))
    ensures AfterResolve(orders, orders[id].tenant, e) == Recording(id) <==> charged == orders[id].totalCents
  {
    CentsOfPesos(fl, charged);
    if charged == orders[id].totalCents {
      WebhookSafety.ResolutionIsUnique(orders, orders[id].tenant, e, id);
    }
  }
}
