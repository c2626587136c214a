/** Phone numbers: the canonical Colombian mobile form of packages/core and the digits-only form the
    WhatsApp adapters use. */
module Phone {
  import opened Options
  import opened Texts
  import opened Decimal

  const COUNTRY_CODE: string := "57"

  /** A space of any kind, a dot, a hyphen or a parenthesis. */
  predicate IsSeparator(c: char) { IsSpace(c) || c in ".-()" }

  function Strip(s: string): string { if s == "" then "" else Stripped(s[0]) + Strip(s[1..]) }

  function Stripped(c: char): string { if IsSeparator(c) then "" else [c] }

  /** Ten digits that start with a 3. */
  predicate IsMobile(s: string) { |s| == 10 && s[0] == '3' && AllDigits(s) }

  function WithoutPlus(s: string): string { if "+" <= s then s[1..] else s }

  function WithoutZeros(s: string): string { if "00" <= s then s[2..] else s }

  function WithoutCountry(s: string): string { if |s| == 12 && COUNTRY_CODE <= s then s[2..] else s }

  /** The canonical `+57XXXXXXXXXX` of what was typed, if it is a Colombian mobile. */
  function Canonical(raw: string): Option<string> {
    var digits := WithoutZeros(WithoutPlus(Strip(Trim(raw))));
    if !AllDigits(digits) || !IsMobile(WithoutCountry(digits)) then None
    else Some("+" + COUNTRY_CODE + WithoutCountry(digits))
  }

  /** `normalizeColombianMobile`, peeling the prefixes off one variable step by step. */
  method NormalizeColombianMobile(raw: string) returns (r: Option<string>)
    ensures r == Canonical(raw)
  {
    var stripped := Strip(Trim(raw));
    var digits := stripped;
    if "+" <= digits { digits := digits[1..]; }
    if "00" <= digits { digits := digits[2..]; }
    if digits == "" || !AllDigits(digits) { return None; }
    if |digits| == 12 && COUNTRY_CODE <= digits { digits := digits[|COUNTRY_CODE|..]; }
    if !IsMobile(digits) { return None; }
    return Some("+" + COUNTRY_CODE + digits);
  }

  // ---- Separators ----

  lemma {:induction false} StripConcat(a: string, b: string)
    ensures Strip(a + b) == Strip(a) + Strip(b)
  {
    hide Stripped;
    if a == "" {
      assert a + b == b;
    } else {
      assert (a + b)[1..] == a[1..] + b && (a + b)[0] == a[0];
      StripConcat(a[1..], b);
      Associative(Stripped(a[0]), Strip(a[1..]), Strip(b));
    }
  }

  lemma {:induction false} StripTrimStart(s: string)
    ensures Strip(TrimStart(s)) == Strip(s)
  {
    if s != "" && IsSpace(s[0]) {
      StripTrimStart(s[1..]);
    }
  }

  lemma {:induction false} StripTrimEnd(s: string)
    ensures Strip(TrimEnd(s)) == Strip(s)
  {
    if s != "" && IsSpace(s[|s| - 1]) {
      StripTrimEnd(s[..|s| - 1]);
      assert s == s[..|s| - 1] + [s[|s| - 1]];
      StripConcat(s[..|s| - 1], [s[|s| - 1]]);
    }
  }

  lemma StripTrim(s: string)
    ensures Strip(Trim(s)) == Strip(s)
  {
    StripTrimStart(s);
    StripTrimEnd(TrimStart(s));
  }

  lemma StripSeparator(a: string, c: char, b: string)
    requires IsSeparator(c)
    ensures Strip(a + [c] + b) == Strip(a + b)
  {
    hide IsSeparator, Strip;
    StripOne(c);
    StripConcat(a + [c], b);
    StripConcat(a, [c]);
    StripConcat(a, b);
    assert Strip(a) + "" == Strip(a);
  }

  lemma StripOne(c: char)
    requires IsSeparator(c)
    ensures Strip([c]) == ""
  {
    assert [c][1..] == "" && Strip("") == "";
  }

  /** A space, dot, hyphen or parenthesis typed anywhere changes nothing. */
  lemma SeparatorsDoNotMatter(a: string, c: char, b: string)
    requires IsSpace(c) || c == '.' || c == '-' || c == '(' || c == ')'
    ensures Canonical(a + [c] + b) == Canonical(a + b)
  {
    hide Strip, Trim, IsMobile, AllDigits;
    StripTrim(a + [c] + b);
    StripTrim(a + b);
    StripSeparator(a, c, b);
  }

  // ---- Exactly which notations are accepted ----

  lemma {:induction false} StripClean(s: string)
    requires forall i :: 0 <= i < |s| ==> !IsSeparator(s[i])
    ensures Strip(s) == s
  {
    if s != "" {
      StripClean(s[1..]);
    }
  }

  lemma DigitsAreClean(s: string)
    requires AllDigits(s)
    ensures Strip(s) == s && Strip("+" + s) == "+" + s
  {
    StripClean(s);
    StripClean("+" + s);
  }

  /** The eight notations of one mobile number once separators are gone. */
  predicate Notation(s: string, mobile: string) {
    || s == mobile || s == "57" + mobile || s == "00" + mobile || s == "0057" + mobile
    || s == "+" + mobile || s == "+57" + mobile || s == "+00" + mobile || s == "+0057" + mobile
  }

  lemma PlainNotations(digits: string, mobile: string)
    requires IsMobile(mobile)
    ensures WithoutCountry(digits) == mobile <==> digits == mobile || digits == "57" + mobile
  {
    if |digits| == 12 && COUNTRY_CODE <= digits {
      assert digits == "57" + digits[2..];
    }
    assert ("57" + mobile)[2..] == mobile;
  }

  lemma ZeroNotations(digits: string, mobile: string)
    requires IsMobile(mobile)
    ensures WithoutCountry(WithoutZeros(digits)) == mobile
      <==> digits == mobile || digits == "57" + mobile || digits == "00" + mobile || digits == "0057" + mobile
  {
    PlainNotations(WithoutZeros(digits), mobile);
    if "00" <= digits {
      assert digits == "00" + digits[2..];
    }
    assert ("00" + mobile)[2..] == mobile && ("0057" + mobile)[2..] == "57" + mobile;
    assert mobile[0] == '3' && ("57" + mobile)[0] == '5';
  }

  lemma AllNotations(s: string, mobile: string)
    requires IsMobile(mobile)
    ensures WithoutCountry(WithoutZeros(WithoutPlus(s))) == mobile <==> Notation(s, mobile)
  {
    hide WithoutCountry, WithoutZeros, WithoutPlus;
    ZeroNotations(WithoutPlus(s), mobile);
    PlusOrNot(s, "", mobile);
    PlusOrNot(s, "57", mobile);
    PlusOrNot(s, "00", mobile);
    PlusOrNot(s, "0057", mobile);
    assert "" + mobile == mobile && "+" + "" == "+" && "+" + "57" == "+57";
    assert "+" + "00" == "+00" && "+" + "0057" == "+0057";
  }

  /** A text that starts with no plus sign is what is left of itself, and of itself after one. */
  lemma PlusOrNot(s: string, code: string, mobile: string)
    requires mobile != "" && (code + mobile)[0] != '+'
    ensures WithoutPlus(s) == code + mobile <==> s == code + mobile || s == ("+" + code) + mobile
  {
    Associative("+", code, mobile);
    assert ("+" + (code + mobile))[1..] == code + mobile;
    if "+" <= s {
      assert s == "+" + s[1..];
    }
  }

  /** An input is normalized to a number if and only if, separators aside, it is one of that mobile
      number's eight notations; every notation of it therefore gives the same canonical form. */
  lemma AcceptedNotations(raw: string, mobile: string)
    requires IsMobile(mobile)
    ensures Canonical(raw) == Some("+57" + mobile) <==> Notation(Strip(raw), mobile)
  {
    hide Strip, Trim;
    StripTrim(raw);
    AllNotations(Strip(raw), mobile);
    var digits := WithoutZeros(WithoutPlus(Strip(raw)));
    PlainNotations(digits, mobile);
    assert ("+57" + mobile)[3..] == mobile && "+" + COUNTRY_CODE == "+57";
    if Canonical(raw).Some? {
      assert Canonical(raw).value[3..] == WithoutCountry(digits);
    }
  }

  lemma {:induction false} StripDrops(s: string, c: char)
    ensures c in s ==> c in Strip(s) || IsSpace(c) || c == '.' || c == '-' || c == '(' || c == ')'
  {
    if s != "" {
      StripDrops(s[1..], c);
      assert s == [s[0]] + s[1..];
    }
  }

  /** And nothing else may be typed besides digits and a plus sign. */
  lemma AcceptedCharacters(raw: string, c: char)
    requires Canonical(raw).Some? && c in raw
    ensures IsDigit(c) || c == '+' || IsSpace(c) || c == '.' || c == '-' || c == '(' || c == ')'
  {
    hide Trim, Strip, IsSpace;
    StripDrops(raw, c);
    StripTrim(raw);
    var digits := WithoutZeros(WithoutPlus(Strip(raw)));
    assert AllDigits(digits);
    if c in Strip(raw) {
      var i :| 0 <= i < |Strip(raw)| && Strip(raw)[i] == c;
      var plain := WithoutPlus(Strip(raw));
      assert forall k :: 0 <= k < |plain| ==> IsDigit(plain[k]) by {
        assert "00" <= plain ==> plain == "00" + plain[2..];
      }
      assert "+" <= Strip(raw) ==> Strip(raw) == "+" + plain;
    }
  }

  lemma CanonicalShape(raw: string)
    requires Canonical(raw).Some?
    ensures |Canonical(raw).value| == 13 && Canonical(raw).value == "+57" + Canonical(raw).value[3..]
    ensures IsMobile(Canonical(raw).value[3..])
  {
    var mobile := WithoutCountry(WithoutZeros(WithoutPlus(Strip(Trim(raw)))));
    assert Canonical(raw).value == "+57" + mobile && ("+57" + mobile)[3..] == mobile;
  }

  // ---- Digits only ----

  function Digits(s: string): string { if s == "" then "" else DigitOf(s[0]) + Digits(s[1..]) }

  function DigitOf(c: char): string { if IsDigit(c) then [c] else "" }

  function BeforeAt(s: string): string { if s == "" || s[0] == '@' then "" else [s[0]] + BeforeAt(s[1..]) }

  /** `normalizePhone` */
  function NormalizePhone(raw: string): string { Digits(BeforeAt(raw)) }

  lemma {:induction false} DigitsOfDigits(s: string)
    requires AllDigits(s)
    ensures Digits(s) == s && BeforeAt(s) == s
  {
    if s != "" {
      DigitsOfDigits(s[1..]);
      assert IsDigit(s[0]);
    }
  }

  lemma {:induction false} DigitsConcat(a: string, b: string)
    ensures Digits(a + b) == Digits(a) + Digits(b)
  {
    hide DigitOf;
    if a == "" {
      assert a + b == b;
    } else {
      assert (a + b)[1..] == a[1..] + b && (a + b)[0] == a[0];
      DigitsConcat(a[1..], b);
      Associative(DigitOf(a[0]), Digits(a[1..]), Digits(b));
    }
  }

  lemma {:induction false} BeforeAtConcat(a: string, b: string)
    ensures BeforeAt(a + b) == if '@' in a then BeforeAt(a) else a + BeforeAt(b)
  {
    if a == "" {
      assert a + b == b;
    } else if a[0] != '@' {
      assert (a + b)[1..] == a[1..] + b && (a + b)[0] == a[0];
      BeforeAtConcat(a[1..], b);
      assert a == [a[0]] + a[1..];
      if '@' !in a {
        Associative([a[0]], a[1..], BeforeAt(b));
      }
    }
  }

  /** Whatever follows an at sign is dropped: a WhatsApp address gives the number in front of it. */
  lemma SuffixIsDropped(a: string, suffix: string)
    ensures NormalizePhone(a + "@" + suffix) == NormalizePhone(a)
    ensures AllDigits(a) ==> NormalizePhone(a + "@" + suffix) == a
  {
    hide Digits, BeforeAt, AllDigits;
    AtSign(suffix);
    BeforeAtConcat(a, "@" + suffix);
    BeforeAtConcat(a, "");
    assert a + "" == a;
    Associative(a, "@", suffix);
    if AllDigits(a) {
      DigitsOfDigits(a);
    }
  }

  lemma AtSign(suffix: string)
    ensures BeforeAt("@" + suffix) == "" == BeforeAt("")
  {
  }

  lemma Dropped(c: char)
    requires !IsDigit(c) && c != '@'
    ensures BeforeAt([c]) == [c] && Digits([c]) == ""
  {
    assert [c][1..] == "";
  }

  lemma DigitsAround(a: string, c: char, b: string)
    requires Digits([c]) == ""
    ensures Digits(a + [c] + b) == Digits(a + b)
  {
    hide Digits;
    DigitsConcat(a, [c]);
    DigitsConcat(a + [c], b);
    DigitsConcat(a, b);
    assert Digits(a) + "" == Digits(a);
  }

  /** Any other character that is no digit changes nothing, wherever it stands. */
  lemma PunctuationIsDropped(a: string, c: char, b: string)
    requires !IsDigit(c) && c != '@'
    ensures NormalizePhone(a + [c] + b) == NormalizePhone(a + b)
  {
    hide IsDigit, Digits, BeforeAt;
    Dropped(c);
    assert '@' in a + [c] <==> '@' in a;
    BeforeAtConcat(a + [c], b);
    BeforeAtConcat(a, b);
    BeforeAtConcat(a, [c]);
    DigitsAround(a, c, BeforeAt(b));
  }

  lemma IsNotation(mobile: string)
    ensures Notation("+57" + mobile, mobile)
  {
  }

  /** Normalizing is idempotent, and the adapters send exactly the digits of the canonical form. */
  lemma CanonicalIsStable(raw: string)
    requires Canonical(raw).Some?
    ensures Canonical(Canonical(raw).value) == Canonical(raw)
    ensures NormalizePhone(Canonical(raw).value) == Canonical(raw).value[1..]
  {
    hide Strip, Trim, Canonical, Notation;
    CanonicalShape(raw);
    var c := Canonical(raw).value;
    var mobile := c[3..];
    DigitsAreClean("57" + mobile);
    assert c == "+" + ("57" + mobile);
    IsNotation(mobile);
    AcceptedNotations(c, mobile);
    DigitsOfDigits("57" + mobile);
    assert c[1..] == "57" + mobile;
    assert BeforeAt(c) == ['+'] + BeforeAt(c[1..]) && BeforeAt(c)[1..] == BeforeAt(c[1..]);
  }
}
