/** JSON values as the adapters handle them after JSON.parse, and the texts `String` gives them. */
module JsonValue {
  import opened Options
  import Decimal

  /** JavaScript prints integers of this range in plain decimal. */
  type PlainInt = n: int | -1000000000000000000000 < n < 1000000000000000000000

  predicate IsOtherNumberText(s: string) {
    (forall i :: 0 <= i < |s| ==> s[i] in "0123456789.e+-Infinity") && ('.' in s || 'e' in s || 'I' in s)
  }
  type OtherNumberText = s: string | IsOtherNumberText(s) witness "0.5"

  datatype Number = Integer(n: PlainInt) | Other(text: OtherNumberText)

  datatype Json =
    | Null
    | Bool(b: bool)
    | Num(number: Number)
    | Str(s: string)
    | Arr(items: seq<Json>)
    | Obj(fields: map<string, Json>)

  function NumberText(n: Number): string {
    match n
    case Integer(i) => if i >= 0 then Decimal.Print(i) else "-" + Decimal.Print(-i)
    case Other(text) => text
  }

  /** `String(value)`, with the empty text for null that the checksum and array joining use. */
  function Text(v: Json): string {
    match v
    case Null => ""
    case Bool(b) => if b then "true" else "false"
    case Num(n) => NumberText(n)
    case Str(s) => s
    case Arr(items) => JoinItems(items)
    case Obj(_) => "[object Object]"
  }

  function JoinItems(items: seq<Json>): string {
    if items == [] then "" else if |items| == 1 then Text(items[0]) else Text(items[0]) + "," + JoinItems(items[1..])
  }

  /** `value[key]` on an object or array; None is undefined. */
  function Member(v: Option<Json>, key: string): Option<Json> {
    match v
    case Some(Obj(fields)) => if key in fields then Some(fields[key]) else None
    case Some(Arr(items)) =>
      if key == "length" then Some(Num(if |items| < 1000000000000000000000 then Integer(|items|) else Other("1e21")))
      else if Decimal.AllDigits(key) && Decimal.Print(Decimal.Parse(key)) == key && Decimal.Parse(key) < |items| then
        Some(items[Decimal.Parse(key)])
      else None
    case _ => None
  }

  /** No number prints as text that could be confused with the start of a reference. */
  lemma NumberTextCharacters(n: Number)
    ensures '_' !in NumberText(n) && 'v' !in NumberText(n)
  {
    match n
    case Integer(i) =>
      var digits := Decimal.Print(if i >= 0 then i else -i);
      assert forall k :: 0 <= k < |digits| ==> Decimal.IsDigit(digits[k]);
    case Other(text) =>
      assert '_' !in "0123456789.e+-Infinity" && 'v' !in "0123456789.e+-Infinity";
  }

  lemma NumberTextInjective(a: Number, b: Number)
    ensures NumberText(a) == NumberText(b) <==> a == b
  {
    if a.Integer? && b.Integer? {
      IntegerTextInjective(a.n, b.n);
    } else if a.Integer? {
      IntegerTextIsPlain(a.n);
    } else if b.Integer? {
      IntegerTextIsPlain(b.n);
    }
  }

  lemma IntegerTextInjective(a: PlainInt, b: PlainInt)
    ensures NumberText(Integer(a)) == NumberText(Integer(b)) <==> a == b
  {
    var x, y := Decimal.Print(if a >= 0 then a else -a), Decimal.Print(if b >= 0 then b else -b);
    Decimal.PrintInjective(if a >= 0 then a else -a, if b >= 0 then b else -b);
    assert Decimal.IsDigit(x[0]) && Decimal.IsDigit(y[0]);
    assert ("-" + x)[1..] == x && ("-" + y)[1..] == y;
  }

  lemma IntegerTextIsPlain(a: PlainInt)
    ensures '.' !in NumberText(Integer(a)) && 'e' !in NumberText(Integer(a)) && 'I' !in NumberText(Integer(a))
  {
    var x := Decimal.Print(if a >= 0 then a else -a);
    assert forall k :: 0 <= k < |x| ==> Decimal.IsDigit(x[k]);
  }

  // ---- Texts and members of other values ----

  /** The text of an array joins its items' texts with commas, an absent item's being empty. */
  lemma {:induction false} TextOfArray(items: seq<Json>, last: Json)
    ensures Text(Arr([])) == "" && Text(Arr([last])) == Text(last)
    ensures items != [] ==> Text(Arr(items + [last])) == Text(Arr(items)) + "," + Text(last)
    ensures Text(Null) == "" && Text(Bool(true)) == "true" && Text(Bool(false)) == "false"
    ensures forall fields :: Text(Obj(fields)) == "[object Object]"
    decreases |items|
  {
    if |items| == 1 {
      assert (items + [last])[1..] == [last];
    } else if |items| > 1 {
      TextOfArray(items[1..], last);
      assert (items + [last])[1..] == items[1..] + [last];
      assert Text(items[0]) + "," + (Text(Arr(items[1..])) + "," + Text(last))
          == Text(items[0]) + "," + Text(Arr(items[1..])) + "," + Text(last);
    }
  }

  lemma ItemOfArray(items: seq<Json>, i: nat)
    ensures Member(Some(Arr(items)), Decimal.Print(i)) == if i < |items| then Some(items[i]) else None
  {
    hide Decimal.Parse;
    Decimal.ParsePrint(i);
    assert Decimal.IsDigit(Decimal.Print(i)[0]);
  }

  /** An array has its items under their indices, printed plainly, and its length; and nothing else. */
  lemma MembersOfArray(items: seq<Json>, i: nat, key: string)
    requires |items| < 1000000000000000000000
    ensures Member(Some(Arr(items)), Decimal.Print(i)) == if i < |items| then Some(items[i]) else None
    ensures Member(Some(Arr(items)), "length") == Some(Num(Integer(|items|)))
    ensures Member(Some(Arr(items)), key).Some? ==>
      key == "length" || exists k: nat :: k < |items| && key == Decimal.Print(k)
  {
    hide Decimal.Parse, Decimal.Print, Decimal.AllDigits;
    ItemOfArray(items, i);
    if Member(Some(Arr(items)), key).Some? && key != "length" {
      assert key == Decimal.Print(Decimal.Parse(key));
    }
  }
}
