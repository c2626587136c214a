/** Slugs (packages/core/src/slug.ts): subdomain labels made from any text. */
module Slug {
  import Texts

  const MAX_LENGTH: nat := 60

  predicate IsLetterOrDigit(c: char) { 'a' <= c <= 'z' || '0' <= c <= '9' }

  /** `/[^a-z0-9]+/g` replaced by one hyphen; `inside` says that the run has already given its hyphen. */
  function Collapse(s: string, inside: bool): string {
    if s == "" then ""
    else if IsLetterOrDigit(s[0]) then [s[0]] + Collapse(s[1..], false)
    else (if inside then "" else "-") + Collapse(s[1..], true)
  }

  function TrimStart(s: string): (r: string)
    ensures r == "" || r[0] != '-'
    ensures |r| <= |s| && r == s[|s| - |r|..]
  {
    if s != "" && s[0] == '-' then TrimStart(s[1..]) else s
  }

  function TrimEnd(s: string): (r: string)
    ensures r == "" || r[|r| - 1] != '-'
    ensures r <= s
  {
    if s != "" && s[|s| - 1] == '-' then TrimEnd(s[..|s| - 1]) else s
  }

  function Take(s: string, n: nat): string { if |s| <= n then s else s[..n] }

  /** `slugify`; `fold` removes diacritics and lower-cases. */
  function Slugify(fold: string -> string, input: string): string {
    TrimEnd(Take(TrimEnd(TrimStart(Collapse(fold(input), false))), MAX_LENGTH))
  }

  /** Letters, digits and single inner hyphens. */
  predicate Tidy(s: string) {
    && (forall i :: 0 <= i < |s| ==> IsLetterOrDigit(s[i]) || s[i] == '-')
    && (forall i :: 0 < i < |s| ==> !(s[i - 1] == '-' && s[i] == '-'))
  }

  /** `SLUG_PATTERN`, with no adjacent hyphens on top. */
  predicate IsSlug(s: string) { s != "" && Tidy(s) && s[0] != '-' && s[|s| - 1] != '-' }

  lemma {:induction false} CollapseTidy(s: string, inside: bool)
    ensures Tidy(Collapse(s, inside))
    ensures inside && Collapse(s, inside) != "" ==> Collapse(s, inside)[0] != '-'
  {
    if s != "" {
      var rest := Collapse(s[1..], !IsLetterOrDigit(s[0]));
      CollapseTidy(s[1..], !IsLetterOrDigit(s[0]));
      var head := if IsLetterOrDigit(s[0]) then [s[0]] else if inside then "" else "-";
      assert Collapse(s, inside) == head + rest;
    }
  }

  /** The characters a slug keeps. */
  lemma KeptCharacters(c: char)
    ensures IsLetterOrDigit(c) <==> c in "abcdefghijklmnopqrstuvwxyz0123456789"
  {
  }

  predicate OnlyLetters(s: string) { forall i :: 0 <= i < |s| ==> IsLetterOrDigit(s[i]) }

  predicate NoLetters(s: string) { forall i :: 0 <= i < |s| ==> !IsLetterOrDigit(s[i]) }

  lemma {:induction false} CollapseLetters(a: string, s: string, inside: bool)
    requires OnlyLetters(a) && a != ""
    ensures Collapse(a + s, inside) == a + Collapse(s, false)
    decreases |a|
  {
    assert (a + s)[1..] == a[1..] + s && (a + s)[0] == a[0];
    if |a| == 1 {
      assert a[1..] + s == s && a == [a[0]];
    } else {
      CollapseLetters(a[1..], s, false);
      assert a == [a[0]] + a[1..];
      assert [a[0]] + (a[1..] + Collapse(s, false)) == a + Collapse(s, false);
    }
  }

  lemma {:induction false} CollapseGap(gap: string, s: string, inside: bool)
    requires NoLetters(gap) && gap != ""
    ensures Collapse(gap + s, inside) == (if inside then "" else "-") + Collapse(s, true)
    decreases |gap|
  {
    assert (gap + s)[1..] == gap[1..] + s && (gap + s)[0] == gap[0];
    if |gap| == 1 {
      assert gap[1..] + s == s;
    } else {
      CollapseGap(gap[1..], s, true);
      assert "" + Collapse(s, true) == Collapse(s, true);
    }
  }

  /** Letters and digits are kept as they are, and every run of other characters, however long, becomes one
      hyphen: collapsing a word, the run after it and the rest. */
  lemma CollapseRuns(word: string, gap: string, rest: string)
    requires OnlyLetters(word) && NoLetters(gap) && gap != "" && (rest == "" || IsLetterOrDigit(rest[0]))
    ensures Collapse(word, false) == word
    ensures Collapse(word + gap + rest, false) == word + "-" + Collapse(rest, false)
  {
    hide Collapse, OnlyLetters, NoLetters, IsLetterOrDigit;
    AfterGap(rest);
    CollapseGap(gap, rest, false);
    CollapseWord(word, gap + rest);
    CollapseWord(word, "");
    assert word + "" == word;
    Texts.Associative(word, gap, rest);
    Texts.Associative(word, "-", Collapse(rest, false));
  }

  lemma AfterGap(rest: string)
    requires rest == "" || IsLetterOrDigit(rest[0])
    ensures Collapse(rest, true) == Collapse(rest, false)
    ensures Collapse("", false) == ""
  {
  }

  lemma CollapseWord(word: string, s: string)
    requires OnlyLetters(word)
    ensures Collapse(word + s, false) == word + Collapse(s, false)
  {
    if word == "" {
      assert word + s == s && word + Collapse(s, false) == Collapse(s, false);
    } else {
      CollapseLetters(word, s, false);
    }
  }

  /** The letters and digits of a text, in order. */
  function Letters(s: string): string { if s == "" then "" else Kept(s[0]) + Letters(s[1..]) }

  function Kept(c: char): string { if IsLetterOrDigit(c) then [c] else "" }

  lemma {:induction false} LettersConcat(a: string, b: string)
    ensures Letters(a + b) == Letters(a) + Letters(b)
  {
    if a == "" {
      assert a + b == b;
    } else {
      hide Kept;
      assert (a + b)[1..] == a[1..] + b && (a + b)[0] == a[0];
      LettersConcat(a[1..], b);
      Texts.Associative(Kept(a[0]), Letters(a[1..]), Letters(b));
    }
  }

  lemma {:induction false} CollapseKeepsLetters(s: string, inside: bool)
    ensures Letters(Collapse(s, inside)) == Letters(s)
  {
    if s != "" {
      var rest := Collapse(s[1..], !IsLetterOrDigit(s[0]));
      var head := if IsLetterOrDigit(s[0]) then [s[0]] else if inside then "" else "-";
      CollapseKeepsLetters(s[1..], !IsLetterOrDigit(s[0]));
      assert Collapse(s, inside) == head + rest;
      LettersConcat(head, rest);
      assert Letters(head) == Kept(s[0]) by { assert head != "" ==> head[1..] == ""; }
    }
  }

  lemma {:induction false} TrimStartLetters(s: string)
    ensures Letters(TrimStart(s)) == Letters(s)
  {
    if s != "" && s[0] == '-' {
      TrimStartLetters(s[1..]);
    }
  }

  lemma {:induction false} TrimEndLetters(s: string)
    ensures Letters(TrimEnd(s)) == Letters(s)
  {
    if s != "" && s[|s| - 1] == '-' {
      TrimEndLetters(s[..|s| - 1]);
      assert s == s[..|s| - 1] + "-" && "-"[1..] == "";
      LettersConcat(s[..|s| - 1], "-");
      assert Letters("-") == "";
    }
  }

  /** A slug's letters and digits are the folded input's own, in order and from the first on, and all of them
      unless the sixty characters run out. */
  lemma SlugKeepsLetters(fold: string -> string, input: string)
    ensures Letters(Slugify(fold, input)) <= Letters(fold(input))
    ensures |TrimEnd(TrimStart(Collapse(fold(input), false)))| <= MAX_LENGTH ==>
      Letters(Slugify(fold, input)) == Letters(fold(input))
  {
    hide Letters, Collapse, TrimStart, TrimEnd;
    var c := Collapse(fold(input), false);
    var d := TrimEnd(TrimStart(c));
    CollapseKeepsLetters(fold(input), false);
    TrimStartLetters(c);
    TrimEndLetters(TrimStart(c));
    TrimEndLetters(Take(d, MAX_LENGTH));
    if |d| > MAX_LENGTH {
      assert d == d[..MAX_LENGTH] + d[MAX_LENGTH..];
      LettersConcat(d[..MAX_LENGTH], d[MAX_LENGTH..]);
    }
  }

  lemma PartTidy(s: string, i: nat, j: nat)
    requires Tidy(s) && i <= j <= |s|
    ensures Tidy(s[i..j])
  {
  }

  /** Nothing to collapse in a tidy text. */
  lemma {:induction false} CollapseStable(s: string, inside: bool)
    requires Tidy(s) && (inside && s != "" ==> s[0] != '-')
    ensures Collapse(s, inside) == s
  {
    if s != "" {
      PartTidy(s, 1, |s|);
      assert s[1..|s|] == s[1..];
      CollapseStable(s[1..], !IsLetterOrDigit(s[0]));
      assert s == [s[0]] + s[1..];
    }
  }

  lemma TrimStartTidy(s: string)
    requires Tidy(s)
    ensures Tidy(TrimStart(s))
  {
    PartTidy(s, |s| - |TrimStart(s)|, |s|);
    assert s[|s| - |TrimStart(s)|..|s|] == TrimStart(s);
  }

  lemma PrefixTidy(s: string, prefix: string)
    requires Tidy(s) && prefix <= s
    ensures Tidy(prefix) && (prefix != "" ==> prefix[0] == s[0])
  {
    PartTidy(s, 0, |prefix|);
    assert s[0..|prefix|] == prefix;
  }

  lemma TakePrefix(s: string, n: nat)
    ensures Take(s, n) <= s && |Take(s, n)| <= n
  {
  }

  /** Every input gives the empty text or a valid slug of at most 60 characters. */
  lemma SlugifyGivesSlugs(fold: string -> string, input: string)
    ensures Slugify(fold, input) == "" || IsSlug(Slugify(fold, input))
    ensures |Slugify(fold, input)| <= MAX_LENGTH
  {
    hide Collapse, TrimStart, TrimEnd, Take, Tidy;
    var c := Collapse(fold(input), false);
    CollapseTidy(fold(input), false);
    var a := TrimStart(c);
    TrimStartTidy(c);
    PrefixTidy(a, TrimEnd(a));
    TakePrefix(TrimEnd(a), MAX_LENGTH);
    var d := Take(TrimEnd(a), MAX_LENGTH);
    PrefixTidy(TrimEnd(a), d);
    PrefixTidy(d, TrimEnd(d));
  }

  /** A slug of legal length is its own slug. */
  lemma SlugsAreFixed(fold: string -> string, s: string)
    requires s == "" || (IsSlug(s) && |s| <= MAX_LENGTH)
    requires fold(s) == s
    ensures Slugify(fold, s) == s
  {
    CollapseStable(s, false);
  }

  /** Making a slug twice is making it once, given that folding leaves plain lower-case text alone. */
  lemma SlugifyIdempotent(fold: string -> string, input: string)
    requires forall s :: Tidy(s) ==> fold(s) == s
    ensures Slugify(fold, Slugify(fold, input)) == Slugify(fold, input)
  {
    SlugifyGivesSlugs(fold, input);
    SlugsAreFixed(fold, Slugify(fold, input));
  }
}
