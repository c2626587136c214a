/** The admin's shipping form (apps/admin/components/shipping-tab.tsx): a method is turned into a draft
    of peso texts for editing and back into cents for saving. */
module Shipping {
  import opened Options
  import Decimal
  import Money
  import Texts

  /** A price in cents; None stands for the NaN of an unparseable field. */
  type Price = Option<int>

  datatype Method =
    | Flat(id: string, name: string, price: Price, enabled: bool)
    | Zone(id: string, name: string, rates: map<string, Price>, fallback: Option<Price>, enabled: bool)
    | FreeOver(id: string, name: string, threshold: Price, otherwise: Price, enabled: bool)
    | Pickup(id: string, name: string, instructions: Option<string>, enabled: bool)

  datatype Draft =
    | FlatDraft(id: string, name: string, price: string, enabled: bool)
    | ZoneDraft(id: string, name: string, rates: map<string, string>, fallback: string, enabled: bool)
    | FreeOverDraft(id: string, name: string, threshold: string, otherwise: string, enabled: bool)
    | PickupDraft(id: string, name: string, instructions: string, enabled: bool)

  /** `String(number)` and `Number(text)`; None for NaN and infinities. */
  datatype Numbers = Numbers(fl: real -> real, show: real -> string, parse: string -> Option<real>)

  /** What is asked of the prices the form handles, and of no other number: their two operations round to
      nearest, and their peso texts read back as the number printed (ECMAScript Number::toString,
      section 6.1.6.1.20), neither blank nor padded. */
  ghost predicate Faithful(n: Numbers) {
    forall cents: nat :: cents <= Money.MAX_EXACT ==> FaithfulFor(n, cents)
  }

  predicate FaithfulFor(n: Numbers, cents: nat) {
    Money.RoundsFor(n.fl, cents) && Prints(n, Money.Pesos(n.fl, cents))
  }

  predicate Prints(n: Numbers, x: real) {
    n.parse(n.show(x)) == Some(x) && n.show(x) != "" && Texts.IsTrimmed(n.show(x))
  }

  function PesosText(n: Numbers, p: Price): string {
    if p.Some? && p.value >= 0 then n.show(Money.Pesos(n.fl, p.value)) else "NaN"
  }

  /** `pesosToCents(text) ?? NaN` */
  function PesosToCents(n: Numbers, text: string): Price {
    var trimmed := Texts.Trim(text);
    if trimmed == "" then None
    else
      var pesos := n.parse(trimmed);
      if pesos.None? || pesos.value < 0.0 then None else Some(Money.Cents(n.fl, pesos.value))
  }

  /** A text is a price if and only if what is left of it between blanks is a number that is not negative; the
      price is that number of pesos in cents, and never negative. */
  lemma PriceTexts(n: Numbers, text: string)
    ensures var pesos := n.parse(Texts.Trim(text));
      && (PesosToCents(n, text).Some? <==> Texts.Trim(text) != "" && pesos.Some? && pesos.value >= 0.0)
      && (PesosToCents(n, text).Some? ==> PesosToCents(n, text) == Some(Money.MathRound(n.fl(pesos.value * 100.0))))
    ensures Texts.Trim(text) == "" ==> PesosToCents(n, text) == None
    ensures (forall x :: x >= 0.0 ==> n.fl(x) >= 0.0) && PesosToCents(n, text).Some? ==>
      PesosToCents(n, text).value >= 0
  {
  }

  // ---- Method to draft ----

  function DraftRates(n: Numbers, codes: seq<string>, rates: map<string, Price>): map<string, string> {
    map code | code in codes :: if code in rates then PesosText(n, rates[code]) else ""
  }

  function MethodToDraft(n: Numbers, codes: seq<string>, m: Method): Draft {
    match m
    case Flat(id, name, price, enabled) => FlatDraft(id, name, PesosText(n, price), enabled)
    case Zone(id, name, rates, fallback, enabled) =>
      ZoneDraft(id, name, DraftRates(n, codes, rates),
                if fallback.Some? then PesosText(n, fallback.value) else "", enabled)
    case FreeOver(id, name, threshold, otherwise, enabled) =>
      FreeOverDraft(id, name, PesosText(n, threshold), PesosText(n, otherwise), enabled)
    case Pickup(id, name, instructions, enabled) =>
      PickupDraft(id, name, if instructions.Some? then instructions.value else "", enabled)
  }

  /** The loop over the departamentos. */
  method FillRates(n: Numbers, codes: seq<string>, rates: map<string, Price>) returns (draft: map<string, string>)
    ensures draft == DraftRates(n, codes, rates)
  {
    draft := map[];
    for i := 0 to |codes|
      invariant draft == DraftRates(n, codes[..i], rates)
    {
      assert forall code :: code in codes[..i + 1] <==> code in codes[..i] || code == codes[i];
      draft := draft[codes[i] := if codes[i] in rates then PesosText(n, rates[codes[i]]) else ""];
    }
    assert codes[..|codes|] == codes;
  }

  // ---- Draft to method ----

  function MethodRates(n: Numbers, draft: map<string, string>): map<string, Price> {
    map code | code in draft && Texts.Trim(draft[code]) != "" :: PesosToCents(n, Texts.Trim(draft[code]))
  }

  function DraftToMethod(n: Numbers, d: Draft): Method {
    match d
    case FlatDraft(id, name, price, enabled) => Flat(id, name, PesosToCents(n, price), enabled)
    case ZoneDraft(id, name, rates, fallback, enabled) =>
      Zone(id, name, MethodRates(n, rates),
           if Texts.Trim(fallback) == "" then None else Some(PesosToCents(n, Texts.Trim(fallback))), enabled)
    case FreeOverDraft(id, name, threshold, otherwise, enabled) =>
      FreeOver(id, name, PesosToCents(n, threshold), PesosToCents(n, otherwise), enabled)
    case PickupDraft(id, name, instructions, enabled) =>
      Pickup(id, name, if Texts.Trim(instructions) == "" then None else Some(Texts.Trim(instructions)), enabled)
  }

  /** The loop over the draft's entries, in whatever order they come. */
  method ReadRates(n: Numbers, draft: map<string, string>) returns (rates: map<string, Price>)
    ensures rates == MethodRates(n, draft)
  {
    rates := map[];
    var left := draft.Keys;
    while left != {}
      invariant left <= draft.Keys
      invariant rates == map code | code in draft && code !in left && Texts.Trim(draft[code]) != ""
                             :: PesosToCents(n, Texts.Trim(draft[code]))
      decreases |left|
    {
      var code :| code in left;
      left := left - {code};
      var trimmed := Texts.Trim(draft[code]);
      if trimmed != "" {
        rates := rates[code := PesosToCents(n, trimmed)];
      }
    }
  }

  // ---- Load, then save ----

  predicate ValidPrice(p: Price) { p.Some? && 0 <= p.value <= Money.MAX_EXACT }

  /** What the API accepts: whole non-negative prices, here up to 2^50 cents. */
  predicate Valid(m: Method) {
    match m
    case Flat(_, _, price, _) => ValidPrice(price)
    case Zone(_, _, rates, fallback, _) =>
      (forall code :: code in rates ==> ValidPrice(rates[code])) && (fallback.Some? ==> ValidPrice(fallback.value))
    case FreeOver(_, _, threshold, otherwise, _) => ValidPrice(threshold) && ValidPrice(otherwise)
    case Pickup(_, _, _, _) => true
  }

  lemma PriceRoundTrip(n: Numbers, p: Price)
    requires Faithful(n) && ValidPrice(p)
    ensures Texts.Trim(PesosText(n, p)) == PesosText(n, p) != ""
    ensures PesosToCents(n, PesosText(n, p)) == p
  {
    var x := Money.Pesos(n.fl, p.value);
    assert FaithfulFor(n, p.value);
    Texts.TrimmedIsTrimmed(n.show(x));
    Money.CentsOfPesos(n.fl, p.value);
    PesosNotNegative(x, p.value);
  }

  /** The hypothesis can be met: exact arithmetic with prices printed as their cents. */
  lemma FaithfulNumbersExist()
    ensures Faithful(CentNumbers())
  {
    forall cents: nat | cents <= Money.MAX_EXACT ensures FaithfulFor(CentNumbers(), cents) {
      Decimal.ParsePrint(cents);
      var text := Decimal.Print(cents);
      assert Decimal.IsDigit(text[0]) && Decimal.IsDigit(text[|text| - 1]);
      DigitsAreNotSpace(text[0]);
      DigitsAreNotSpace(text[|text| - 1]);
      assert (cents as real / 100.0) * 100.0 == cents as real;
    }
  }

  function CentNumbers(): Numbers {
    Numbers(x => x,
            x => if x >= 0.0 then Decimal.Print((x * 100.0).Floor) else "-",
            text => if Decimal.AllDigits(text) then Some(Decimal.Parse(text) as real / 100.0) else None)
  }

  lemma DigitsAreNotSpace(c: char)
    requires Decimal.IsDigit(c)
    ensures !Texts.IsSpace(c)
  {
  }

  lemma PesosNotNegative(x: real, cents: nat)
    requires Money.Close(x, cents as real / 100.0)
    ensures x >= 0.0
  {
  }

  /** Zone rates are only loaded for listed departamentos, and instructions are trimmed on save. */
  predicate Editable(codes: seq<string>, m: Method) {
    match m
    case Zone(_, _, rates, _, _) => forall code :: code in rates ==> code in codes
    case Pickup(_, _, instructions, _) =>
      instructions.Some? ==> instructions.value != "" && Texts.IsTrimmed(instructions.value)
    case _ => true
  }

  lemma ZoneRates(n: Numbers, codes: seq<string>, rates: map<string, Price>)
    requires Faithful(n) && forall code :: code in rates ==> ValidPrice(rates[code])
    ensures MethodRates(n, DraftRates(n, codes, rates)) == map code | code in rates && code in codes :: rates[code]
  {
    forall code | code in rates
      ensures Texts.Trim(PesosText(n, rates[code])) == PesosText(n, rates[code]) != ""
      ensures PesosToCents(n, PesosText(n, rates[code])) == rates[code]
    {
      PriceRoundTrip(n, rates[code]);
    }
    assert Texts.Trim("") == "";
  }

  /** Loading a valid method into the form and saving it untouched gives the method back if and only if
      its zone codes are listed departamentos and its instructions are absent, or trimmed and not empty. */
  lemma LoadThenSave(n: Numbers, codes: seq<string>, m: Method)
    requires Faithful(n) && Valid(m)
    ensures DraftToMethod(n, MethodToDraft(n, codes, m)) == m <==> Editable(codes, m)
  {
    hide PesosText, PesosToCents, MethodRates, DraftRates;
    match m
    case Flat(_, _, price, _) => PriceRoundTrip(n, price);
    case Zone(_, _, rates, fallback, _) =>
      ZoneRates(n, codes, rates);
      assert Texts.Trim("") == "";
      if fallback.Some? {
        PriceRoundTrip(n, fallback.value);
      }
      var kept := map code | code in rates && code in codes :: rates[code];
      assert kept == rates <==> forall code :: code in rates ==> code in codes by {
        assert kept == rates ==> forall code :: code in rates ==> code in kept;
      }
    case FreeOver(_, _, threshold, otherwise, _) =>
      PriceRoundTrip(n, threshold);
      PriceRoundTrip(n, otherwise);
    case Pickup(_, _, instructions, _) =>
      assert Texts.Trim("") == "";
      if instructions.Some? {
        Texts.TrimmedIsTrimmed(instructions.value);
      }
  }
}
