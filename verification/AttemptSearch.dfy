/** Mercado Pago's search by reference (packages/payments/src/mercadopago.ts), which picks one of the
    attempts a search answers, and the reconciliation fallback that calls it. */
module AttemptSearch {
  import opened Options
  import opened Lifecycle
  import opened Webhooks
  import opened Gateways
  import OrderReference
  import Decimal

  /** One entry of the response; `at` is its approval or creation time, 0 when unreadable. */
  datatype Attempted = Attempted(
    id: string, reference: Option<string>, status: string, at: nat, amountCents: Option<int>, currency: Option<string>)

  function Matching(results: seq<Attempted>, reference: string): seq<Attempted> {
    if results == [] then []
    else (if results[0].reference == Some(reference) then [results[0]] else []) + Matching(results[1..], reference)
  }

  /** Insertion into a list sorted latest first, after entries of the same time: a stable sort. */
  function Insert(sorted: seq<Attempted>, a: Attempted): (r: seq<Attempted>)
    ensures multiset(r) == multiset(sorted) + multiset{a}
  {
    if sorted == [] then [a]
    else if sorted[0].at >= a.at then
      assert sorted == [sorted[0]] + sorted[1..];
      [sorted[0]] + Insert(sorted[1..], a)
    else [a] + sorted
  }

  function LatestFirst(attempts: seq<Attempted>): (r: seq<Attempted>)
    ensures multiset(r) == multiset(attempts)
  {
    if attempts == [] then []
    else
      assert attempts == attempts[..|attempts| - 1] + [attempts[|attempts| - 1]];
      Insert(LatestFirst(attempts[..|attempts| - 1]), attempts[|attempts| - 1])
  }

  function FirstApproved(attempts: seq<Attempted>): Option<Attempted> {
    if attempts == [] then None
    else if attempts[0].status == "approved" then Some(attempts[0])
    else FirstApproved(attempts[1..])
  }

  /** `searchByReference`, on the parsed response. */
  function Choose(results: seq<Attempted>, reference: string): Option<Attempted> {
    var matching := Matching(results, reference);
    if matching == [] then None
    else
      var sorted := LatestFirst(matching);
      assert |multiset(sorted)| == |multiset(matching)|;
      if FirstApproved(sorted).Some? then FirstApproved(sorted) else Some(sorted[0])
  }

  function LookupOf(a: Attempted): Lookup {
    Lookup(a.id, MercadoPagoStatus(a.status), a.reference, a.amountCents, a.currency)
  }

  // ---- What is chosen ----

  predicate Sorted(s: seq<Attempted>) { forall i, j :: 0 <= i < j < |s| ==> s[i].at >= s[j].at }

  lemma {:induction false} InsertSorted(sorted: seq<Attempted>, a: Attempted)
    requires Sorted(sorted)
    ensures Sorted(Insert(sorted, a))
  {
    if sorted != [] && sorted[0].at >= a.at {
      InsertSorted(sorted[1..], a);
      var rest := Insert(sorted[1..], a);
      forall i | 0 <= i < |rest| ensures rest[i].at <= sorted[0].at {
        assert rest[i] in multiset(rest);
        assert rest[i] == a || rest[i] in sorted[1..];
      }
    }
  }

  lemma {:induction false} LatestFirstSorted(attempts: seq<Attempted>)
    ensures Sorted(LatestFirst(attempts))
  {
    if attempts != [] {
      LatestFirstSorted(attempts[..|attempts| - 1]);
      InsertSorted(LatestFirst(attempts[..|attempts| - 1]), attempts[|attempts| - 1]);
    }
  }

  lemma {:induction false} FirstApprovedLatest(s: seq<Attempted>)
    requires Sorted(s)
    ensures FirstApproved(s).None? <==> forall a :: a in s ==> a.status != "approved"
    ensures FirstApproved(s).Some? ==> FirstApproved(s).value in s && FirstApproved(s).value.status == "approved"
    ensures FirstApproved(s).Some? ==> forall a :: a in s && a.status == "approved" ==>
      a.at <= FirstApproved(s).value.at
  {
    if s != [] {
      FirstApprovedLatest(s[1..]);
      assert forall a :: a in s <==> a == s[0] || a in s[1..];
    }
  }

  lemma {:induction false} MatchingMembers(results: seq<Attempted>, reference: string)
    ensures forall a :: a in Matching(results, reference) <==> a in results && a.reference == Some(reference)
  {
    if results != [] {
      MatchingMembers(results[1..], reference);
      assert forall a :: a in results <==> a == results[0] || a in results[1..];
    }
  }

  /** No other entry beats this one: approved before not approved, then later before earlier. */
  predicate Best(results: seq<Attempted>, reference: string, a: Attempted) {
    && a in results && a.reference == Some(reference)
    && forall b :: b in results && b.reference == Some(reference) ==>
         (b.status == "approved" ==> a.status == "approved" && b.at <= a.at)
         && (a.status != "approved" ==> b.at <= a.at)
  }

  /** The search answers null exactly when no entry carries the queried reference, and otherwise the
      latest approved entry that does, or the latest one when none is approved. */
  lemma ChoiceIsBest(results: seq<Attempted>, reference: string)
    ensures Choose(results, reference).None? <==> forall a :: a in results ==> a.reference != Some(reference)
    ensures Choose(results, reference).Some? ==> Best(results, reference, Choose(results, reference).value)
  {
    var matching := Matching(results, reference);
    MatchingMembers(results, reference);
    if matching != [] {
      assert matching[0] in matching;
      var sorted := LatestFirst(matching);
      LatestFirstSorted(matching);
      SameMembers(sorted, matching);
      FirstApprovedLatest(sorted);
      assert |multiset(sorted)| == |multiset(matching)|;
      assert sorted[0] in sorted;
      forall b | b in sorted ensures b.at <= sorted[0].at {
        var i :| 0 <= i < |sorted| && sorted[i] == b;
      }
    }
  }

  lemma SameMembers(a: seq<Attempted>, b: seq<Attempted>)
    requires multiset(a) == multiset(b)
    ensures forall x :: x in a <==> x in b
  {
    forall x ensures x in a <==> x in b {
      assert x in a <==> x in multiset(a);
      assert x in b <==> x in multiset(b);
    }
  }

  /** The choice does not depend on the order of the response when no two matching attempts share a time. */
  lemma OrderIndependent(a: seq<Attempted>, b: seq<Attempted>, reference: string)
    requires multiset(a) == multiset(b)
    requires forall x, y :: x in a && y in a && x.reference == y.reference == Some(reference) && x.at == y.at ==> x == y
    ensures Choose(a, reference) == Choose(b, reference)
  {
    SameMembers(a, b);
    ChoiceIsBest(a, reference);
    ChoiceIsBest(b, reference);
  }

  // ---- The reconciliation fallback ----

  /** Step 2 of `reconcileOneOrder`: the attempts are searched by the order's number. */
  function Fallback(s: System, id: OrderId, results: seq<Attempted>): System
    requires id < |s.shop.orders|
  {
    var found := Choose(results, Decimal.Print(s.shop.orders[id].number));
    if found.None? then s else ReconcileOrder(s, id, LookupOf(found.value))
  }

  /** The same step searching by the order's reference. */
  function ByReference(s: System, id: OrderId, results: seq<Attempted>): System
    requires id < |s.shop.orders|
  {
    var found := Choose(results, s.shop.orders[id].reference);
    if found.None? then s else ReconcileOrder(s, id, LookupOf(found.value))
  }

  lemma NumberIsNotReference(number: nat, reference: string)
    requires OrderReference.IsOrderReference(reference)
    ensures Decimal.Print(number) != reference
  {
    assert reference[0] == 'v';
    assert Decimal.IsDigit(Decimal.Print(number)[0]);
  }

  /** The fallback can never settle, fail or record anything: it keeps only attempts whose reference is
      the order's number, and the binding check then demands the order's reference, which always has
      the `vr_` prefix. Whatever the gateway answers, nothing changes. */
  lemma FallbackNeverBinds(s: System, id: OrderId, results: seq<Attempted>)
    requires id < |s.shop.orders| && OrderReference.IsOrderReference(s.shop.orders[id].reference)
    ensures Fallback(s, id, results) == s
  {
    var number := Decimal.Print(s.shop.orders[id].number);
    ChoiceIsBest(results, number);
    NumberIsNotReference(s.shop.orders[id].number, s.shop.orders[id].reference);
  }

  /** Searching by the reference would heal: an approved attempt for a settleable order, every approved
      attempt carrying its total in COP, marks it paid with the latest such attempt. */
  lemma ByReferenceSettles(s: System, id: OrderId, results: seq<Attempted>, a: Attempted)
    requires id < |s.shop.orders| && s.shop.orders[id].provider.Some? && Settleable(s.shop.orders[id])
    requires a in results && a.reference == Some(s.shop.orders[id].reference) && a.status == "approved"
    requires forall b :: b in results && b.reference == a.reference && b.status == "approved" ==>
      b.amountCents == Some(s.shop.orders[id].totalCents as int) && b.currency == Some(ORDER_CURRENCY)
    ensures var found := Choose(results, s.shop.orders[id].reference);
      && found.Some? && found.value in results && found.value.reference == a.reference
      && found.value.status == "approved" && found.value.at >= a.at
      && MarkOrderPaid(s.shop, id, Payment(s.shop.orders[id].provider.value, found.value.id)).1
      && ByReference(s, id, results).shop
           == MarkOrderPaid(s.shop, id, Payment(s.shop.orders[id].provider.value, found.value.id)).0
  {
    ChoiceIsBest(results, s.shop.orders[id].reference);
    var found := Choose(results, s.shop.orders[id].reference);
    assert found.Some? && Best(results, s.shop.orders[id].reference, found.value);
  }

  // ---- Ties ----

  /** The attempts of one time, in the order they come. */
  function AtTime(attempts: seq<Attempted>, at: nat): seq<Attempted> {
    if attempts == [] then []
    else if attempts[0].at == at then [attempts[0]] + AtTime(attempts[1..], at)
    else AtTime(attempts[1..], at)
  }

  lemma {:induction false} AtTimeConcat(a: seq<Attempted>, b: seq<Attempted>, at: nat)
    ensures AtTime(a + b, at) == AtTime(a, at) + AtTime(b, at)
  {
    if a == [] {
      assert a + b == b;
    } else {
      assert (a + b)[1..] == a[1..] + b && (a + b)[0] == a[0];
      AtTimeConcat(a[1..], b, at);
      if a[0].at == at {
        assert [a[0]] + (AtTime(a[1..], at) + AtTime(b, at)) == AtTime(a, at) + AtTime(b, at);
      }
    }
  }

  lemma {:induction false} EarlierOnly(attempts: seq<Attempted>, at: nat)
    requires forall i :: 0 <= i < |attempts| ==> attempts[i].at < at
    ensures AtTime(attempts, at) == []
  {
    if attempts != [] {
      EarlierOnly(attempts[1..], at);
    }
  }

  lemma {:induction false} InsertIsStable(sorted: seq<Attempted>, a: Attempted, at: nat)
    requires Sorted(sorted)
    ensures AtTime(Insert(sorted, a), at) == AtTime(sorted + [a], at)
  {
    hide AtTime;
    if sorted == [] {
      assert sorted + [a] == [a];
    } else if sorted[0].at >= a.at {
      assert sorted == [sorted[0]] + sorted[1..] && sorted + [a] == [sorted[0]] + (sorted[1..] + [a]);
      InsertIsStable(sorted[1..], a, at);
      AtTimeConcat([sorted[0]], Insert(sorted[1..], a), at);
      AtTimeConcat([sorted[0]], sorted[1..] + [a], at);
    } else {
      AtTimeConcat([a], sorted, at);
      AtTimeConcat(sorted, [a], at);
      OneAtTime(a, at);
      if a.at == at {
        EarlierOnly(sorted, at);
      }
    }
  }

  lemma OneAtTime(a: Attempted, at: nat)
    ensures AtTime([a], at) == if a.at == at then [a] else []
  {
    assert [a][1..] == [];
  }

  lemma {:induction false} LatestFirstIsStable(attempts: seq<Attempted>, at: nat)
    ensures AtTime(LatestFirst(attempts), at) == AtTime(attempts, at)
  {
    hide AtTime;
    if attempts != [] {
      var front, last := attempts[..|attempts| - 1], attempts[|attempts| - 1];
      assert attempts == front + [last];
      LatestFirstIsStable(front, at);
      LatestFirstSorted(front);
      InsertIsStable(LatestFirst(front), last, at);
      AtTimeConcat(LatestFirst(front), [last], at);
      AtTimeConcat(front, [last], at);
    }
  }

  lemma {:induction false} FirstApprovedOfItsTime(s: seq<Attempted>)
    requires FirstApproved(s).Some?
    ensures FirstApproved(AtTime(s, FirstApproved(s).value.at)) == FirstApproved(s)
  {
    var at := FirstApproved(s).value.at;
    if s[0].status != "approved" {
      FirstApprovedOfItsTime(s[1..]);
      if s[0].at == at {
        assert AtTime(s, at)[1..] == AtTime(s[1..], at);
      }
    }
  }

  /** Between attempts of the same time the one the response lists first is chosen. */
  lemma TiesGoFirst(results: seq<Attempted>, reference: string)
    requires Choose(results, reference).Some?
    ensures var a := Choose(results, reference).value;
      var rivals := AtTime(Matching(results, reference), a.at);
      rivals != [] && a == if FirstApproved(rivals).Some? then FirstApproved(rivals).value else rivals[0]
  {
    var matching, a := Matching(results, reference), Choose(results, reference).value;
    var sorted := LatestFirst(matching);
    assert |multiset(sorted)| == |multiset(matching)|;
    LatestFirstIsStable(matching, a.at);
    if FirstApproved(sorted).Some? {
      FirstApprovedOfItsTime(sorted);
    } else {
      NoneApproved(sorted, a.at);
      assert AtTime(sorted, a.at)[0] == sorted[0];
    }
  }

  lemma {:induction false} NoneApproved(s: seq<Attempted>, at: nat)
    requires FirstApproved(s).None?
    ensures FirstApproved(AtTime(s, at)).None?
  {
    if s != [] {
      NoneApproved(s[1..], at);
      if s[0].at == at {
        assert AtTime(s, at)[1..] == AtTime(s[1..], at);
      }
    }
  }
}
