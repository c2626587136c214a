/** Unique decoding of texts built by concatenation. */
module Texts {

  /** If a text splits in two places, the separator occurs inside the longer head and the longer tail. */
  lemma SeparatorInside(a: string, b: string, x: string, y: string, c: char)
    requires a + [c] + b == x + [c] + y && |a| < |x|
    ensures c in x && c in b
  {
    var s := a + [c] + b;
    assert s[|a|] == c && (x + [c] + y)[|a|] == x[|a|];
    assert (x + [c] + y)[|x|] == c && s[|x|] == b[|x| - |a| - 1];
  }

  lemma Associative<T>(a: seq<T>, b: seq<T>, c: seq<T>)
    ensures a + (b + c) == (a + b) + c
  {
  }

  lemma SameHeadLength(a: string, b: string, x: string, y: string)
    requires a + b == x + y && |a| == |x|
    ensures a == x && b == y
  {
    assert (a + b)[..|a|] == a && (x + y)[..|x|] == x;
    assert (a + b)[|a|..] == b && (x + y)[|x|..] == y;
  }

  /** The first separator splits a text in one way only. */
  lemma FirstSeparator(a: string, b: string, x: string, y: string, c: char)
    requires c !in a && c !in x && a + [c] + b == x + [c] + y
    ensures a == x && b == y
  {
    if |a| < |x| {
      SeparatorInside(a, b, x, y, c);
    } else if |x| < |a| {
      SeparatorInside(x, y, a, b, c);
    } else {
      SameHeadLength(a + [c], b, x + [c], y);
      SameHeadLength(a, [c], x, [c]);
    }
  }

  /** So does the last one. */
  lemma LastSeparator(a: string, b: string, x: string, y: string, c: char)
    requires c !in b && c !in y && a + [c] + b == x + [c] + y
    ensures a == x && b == y
  {
    if |a| < |x| {
      SeparatorInside(a, b, x, y, c);
    } else if |x| < |a| {
      SeparatorInside(x, y, a, b, c);
    } else {
      SameHeadLength(a + [c], b, x + [c], y);
      SameHeadLength(a, [c], x, [c]);
    }
  }

  /** A text that holds the separator once splits there and nowhere else, whatever the other split is. */
  lemma OnlySeparator(a: string, b: string, x: string, y: string, c: char)
    requires c !in a && c !in b && a + [c] + b == x + [c] + y
    ensures a == x && b == y
  {
    if |a| < |x| {
      SeparatorInside(a, b, x, y, c);
    } else if |x| < |a| {
      SeparatorInside(x, y, a, b, c);
    } else {
      SameHeadLength(a + [c], b, x + [c], y);
      SameHeadLength(a, [c], x, [c]);
    }
  }

  /** How often a character occurs. */
  function Occurrences(s: string, c: char): nat {
    if s == "" then 0 else (if s[0] == c then 1 else 0) + Occurrences(s[1..], c)
  }

  lemma {:induction false} OccurrencesConcat(a: string, b: string, c: char)
    ensures Occurrences(a + b, c) == Occurrences(a, c) + Occurrences(b, c)
  {
    if a == "" {
      assert a + b == b;
    } else {
      assert (a + b)[1..] == a[1..] + b;
      OccurrencesConcat(a[1..], b, c);
    }
  }

  lemma {:induction false} OccurrencesZero(s: string, c: char)
    ensures Occurrences(s, c) == 0 <==> c !in s
  {
    if s != "" {
      OccurrencesZero(s[1..], c);
      assert s == [s[0]] + s[1..];
    }
  }

  ghost predicate All(s: string, p: char -> bool) { forall i :: 0 <= i < |s| ==> p(s[i]) }

  lemma LastCharIsInTail(a: string, b: string, x: string, y: string, p: char -> bool)
    requires a + b == x + y && All(b, p) && |a| < |x|
    ensures p(x[|x| - 1])
  {
    assert (x + y)[|x| - 1] == x[|x| - 1] && (a + b)[|x| - 1] == b[|x| - 1 - |a|];
  }

  /** A head that does not end in the tail's alphabet splits from it in one way only. */
  lemma SuffixByAlphabet(a: string, b: string, x: string, y: string, p: char -> bool)
    requires a + b == x + y && All(b, p) && All(y, p)
    requires (a != "" ==> !p(a[|a| - 1])) && (x != "" ==> !p(x[|x| - 1]))
    ensures a == x && b == y
  {
    if |a| < |x| {
      LastCharIsInTail(a, b, x, y, p);
    } else if |x| < |a| {
      LastCharIsInTail(x, y, a, b, p);
    } else {
      SameHeadLength(a, b, x, y);
    }
  }

  // ---- Splitting ----

  /** `s.split(c)` */
  function Split(s: string, c: char): (parts: seq<string>)
    ensures |parts| > 0
    decreases |s|
  {
    if c !in s then [s] else [s[..First(s, c)]] + Split(s[First(s, c) + 1..], c)
  }

  function First(s: string, c: char): (i: nat)
    requires c in s
    ensures i < |s| && s[i] == c && c !in s[..i]
  {
    if s[0] == c then 0 else 1 + First(s[1..], c)
  }

  /** Two parts without the separator, joined by it, split into the two. */
  lemma SplitPair(a: string, b: string, c: char)
    requires c !in a && c !in b
    ensures Split(a + [c] + b, c) == [a, b]
  {
    var s := a + [c] + b;
    assert s[|a|] == c;
    var i := First(s, c);
    assert s == s[..i] + [c] + s[i + 1..];
    FirstSeparator(a, b, s[..i], s[i + 1..], c);
  }

  // ---- White space ----

  /** JavaScript's white space and line terminators: what `trim` removes and `\\s` matches. */
  predicate IsSpace(c: char) {
    c in "\t\n\r \U{000B}\U{000C}\U{00A0}\U{1680}\U{2028}\U{2029}\U{202F}\U{205F}\U{3000}\U{FEFF}"
      || '\U{2000}' <= c <= '\U{200A}'
  }

  function TrimStart(s: string): (r: string)
    ensures r == "" || !IsSpace(r[0])
  {
    if s == "" || !IsSpace(s[0]) then s else TrimStart(s[1..])
  }

  function TrimEnd(s: string): (r: string)
    ensures r == "" || !IsSpace(r[|r| - 1])
    ensures r == s || (s != "" && IsSpace(s[|s| - 1]))
    ensures r <= s
  {
    if s == "" || !IsSpace(s[|s| - 1]) then s else TrimEnd(s[..|s| - 1])
  }

  /** `s.trim()` */
  function Trim(s: string): string { TrimEnd(TrimStart(s)) }

  /** Neither end is white space; so `trim` gives the text back. */
  predicate IsTrimmed(s: string) { s == "" || (!IsSpace(s[0]) && !IsSpace(s[|s| - 1])) }

  lemma TrimmedIsTrimmed(s: string)
    ensures IsTrimmed(Trim(s))
    ensures IsTrimmed(s) <==> Trim(s) == s
  {
    var head := TrimStart(s);
    if Trim(s) != "" {
      assert Trim(s)[0] == head[0];
    }
  }

  predicate AllSpace(s: string) { forall i :: 0 <= i < |s| ==> IsSpace(s[i]) }

  lemma {:induction false} TrimStartCuts(s: string) returns (cut: string)
    ensures s == cut + TrimStart(s) && AllSpace(cut)
  {
    hide IsSpace;
    if s == "" || !IsSpace(s[0]) {
      cut := "";
    } else {
      var rest := TrimStartCuts(s[1..]);
      cut := [s[0]] + rest;
      Associative([s[0]], rest, TrimStart(s[1..]));
      assert s == [s[0]] + s[1..];
    }
  }

  lemma {:induction false} TrimEndCuts(s: string) returns (cut: string)
    ensures s == TrimEnd(s) + cut && AllSpace(cut)
  {
    hide IsSpace;
    if s == "" || !IsSpace(s[|s| - 1]) {
      cut := "";
    } else {
      var rest := TrimEndCuts(s[..|s| - 1]);
      cut := rest + [s[|s| - 1]];
      Associative(TrimEnd(s[..|s| - 1]), rest, [s[|s| - 1]]);
      assert s == s[..|s| - 1] + [s[|s| - 1]];
    }
  }

  /** Trimming cuts white space off both ends and nothing else, until neither end has any. */
  lemma TrimCuts(s: string) returns (before: string, after: string)
    ensures s == before + Trim(s) + after && IsTrimmed(Trim(s))
    ensures AllSpace(before) && AllSpace(after)
  {
    hide IsSpace, TrimStart, TrimEnd, AllSpace, IsTrimmed;
    before := TrimStartCuts(s);
    after := TrimEndCuts(TrimStart(s));
    TrimmedIsTrimmed(s);
    Associative(before, Trim(s), after);
  }
}
