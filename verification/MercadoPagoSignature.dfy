/** Mercado Pago's webhook signature (packages/payments/src/mercadopago.ts): the x-signature header and
    the manifest its HMAC covers. */
module MercadoPagoSignature {
  import opened Options
  import opened Texts

  // ---- The header ----

  /** One `key=value` part, split at its first equals sign. */
  function ValueFor(part: string, key: string): Option<string> {
    if '=' !in part then None
    else
      var eq := First(part, '=');
      if Trim(part[..eq]) == key then Some(Trim(part[eq + 1..])) else None
  }

  /** The value of the last part with this key. */
  function LastValue(parts: seq<string>, key: string): Option<string> {
    if parts == [] then None
    else
      var last := ValueFor(parts[|parts| - 1], key);
      if last.Some? then last else LastValue(parts[..|parts| - 1], key)
  }

  datatype Signature = Signature(ts: string, v1: string)

  function HeaderSignature(header: string): Option<Signature> {
    var ts, v1 := LastValue(Split(header, ','), "ts"), LastValue(Split(header, ','), "v1");
    if ts.None? || ts.value == "" || v1.None? || v1.value == "" then None else Some(Signature(ts.value, v1.value))
  }

  /** `parseXSignature`; None is its error. */
  method ParseXSignature(header: string) returns (signature: Option<Signature>)
    ensures signature == HeaderSignature(header)
  {
    hide ValueFor;
    var parts := Split(header, ',');
    var ts: Option<string>, v1: Option<string> := None, None;
    for i := 0 to |parts|
      invariant ts == LastValue(parts[..i], "ts") && v1 == LastValue(parts[..i], "v1")
    {
      assert parts[..i + 1][..i] == parts[..i];
      PartKeys(parts[i]);
      if '=' in parts[i] {
        var eq := First(parts[i], '=');
        var key, value := Trim(parts[i][..eq]), Trim(parts[i][eq + 1..]);
        if key == "ts" { ts := Some(value); } else if key == "v1" { v1 := Some(value); }
      }
    }
    assert parts[..|parts|] == parts;
    if ts.None? || ts.value == "" || v1.None? || v1.value == "" { return None; }
    return Some(Signature(ts.value, v1.value));
  }

  lemma PartKeys(part: string)
    ensures '=' !in part ==> ValueFor(part, "ts") == None && ValueFor(part, "v1") == None
    ensures '=' in part ==>
      (var eq := First(part, '=');
       && ValueFor(part, "ts") == (if Trim(part[..eq]) == "ts" then Some(Trim(part[eq + 1..])) else None)
       && ValueFor(part, "v1") == (if Trim(part[..eq]) == "v1" then Some(Trim(part[eq + 1..])) else None))
  {
  }

  predicate IsValue(s: string) { s != "" && ',' !in s && IsTrimmed(s) }

  lemma OnePart(key: string, value: string, other: string)
    requires '=' !in key && IsTrimmed(key) && IsTrimmed(value)
    ensures ValueFor(key + "=" + value, other) == if key == other then Some(value) else None
  {
    var part := key + "=" + value;
    assert part[|key|] == '=';
    var eq := First(part, '=');
    assert part == part[..eq] + ['='] + part[eq + 1..];
    FirstSeparator(key, value, part[..eq], part[eq + 1..], '=');
    TrimmedIsTrimmed(key);
    TrimmedIsTrimmed(value);
  }

  lemma TwoParts(a: string, b: string, key: string)
    ensures LastValue([a, b], key) == if ValueFor(b, key).Some? then ValueFor(b, key) else ValueFor(a, key)
  {
    assert [a, b][..1] == [a] && [a][..0] == [];
    assert LastValue([a], key) == ValueFor(a, key);
  }

  /** The header carries its two values in either order. */
  lemma HeaderRoundTrip(ts: string, v1: string)
    requires IsValue(ts) && IsValue(v1)
    ensures HeaderSignature("ts=" + ts + "," + ("v1=" + v1)) == Some(Signature(ts, v1))
    ensures HeaderSignature("v1=" + v1 + "," + ("ts=" + ts)) == Some(Signature(ts, v1))
  {
    hide ValueFor, LastValue, Split;
    var a, b := "ts" + "=" + ts, "v1" + "=" + v1;
    assert a == "ts=" + ts && b == "v1=" + v1;
    SplitPair(a, b, ',');
    SplitPair(b, a, ',');
    OnePart("ts", ts, "ts");
    OnePart("ts", ts, "v1");
    OnePart("v1", v1, "ts");
    OnePart("v1", v1, "v1");
    TwoParts(a, b, "ts");
    TwoParts(a, b, "v1");
    TwoParts(b, a, "ts");
    TwoParts(b, a, "v1");
  }

  // ---- The manifest ----

  function Manifest(dataId: string, requestId: Option<string>, ts: string): string {
    "id:" + dataId + ";" + Rest(requestId, ts)
  }

  function Rest(requestId: Option<string>, ts: string): string {
    if requestId.Some? then "request-id:" + requestId.value + ";" + ("ts:" + ts + ";") else "ts:" + ts + ";"
  }

  /** `buildManifest` */
  method BuildManifest(dataId: string, requestId: Option<string>, ts: string) returns (manifest: string)
    ensures manifest == Manifest(dataId, requestId, ts)
  {
    manifest := "id:" + dataId + ";";
    if requestId.Some? {
      manifest := manifest + ("request-id:" + requestId.value + ";");
    }
    manifest := manifest + ("ts:" + ts + ";");
    assert requestId.Some? ==>
      ("id:" + dataId + ";") + ("request-id:" + requestId.value + ";") + ("ts:" + ts + ";")
        == ("id:" + dataId + ";") + (("request-id:" + requestId.value + ";") + ("ts:" + ts + ";"));
  }

  predicate SemicolonFree(dataId: string, requestId: Option<string>, ts: string) {
    ';' !in dataId && ';' !in ts && (requestId.Some? ==> ';' !in requestId.value)
  }

  function Semicolons(s: string): nat { Occurrences(s, ';') }

  function Count(dataId: string, requestId: Option<string>, ts: string): nat {
    Semicolons(dataId) + Semicolons(ts) + (if requestId.Some? then Semicolons(requestId.value) + 1 else 0) + 2
  }

  lemma SemicolonsOfLabels()
    ensures Semicolons("id:") == Semicolons("request-id:") == Semicolons("ts:") == 0 && Semicolons(";") == 1
  {
    OccurrencesZero("id:", ';');
    OccurrencesZero("request-id:", ';');
    OccurrencesZero("ts:", ';');
    assert ";"[1..] == "";
  }

  lemma SemicolonsOfManifest(dataId: string, requestId: Option<string>, ts: string)
    ensures Semicolons(Manifest(dataId, requestId, ts)) == Count(dataId, requestId, ts)
    ensures SemicolonFree(dataId, requestId, ts) <==> Count(dataId, requestId, ts) == if requestId.Some? then 3 else 2
  {
    SemicolonsOfLabels();
    hide Occurrences;
    SemicolonsOfSegment("id:", dataId);
    SemicolonsOfSegment("ts:", ts);
    OccurrencesConcat("id:" + dataId + ";", Rest(requestId, ts), ';');
    OccurrencesZero(dataId, ';');
    OccurrencesZero(ts, ';');
    if requestId.Some? {
      SemicolonsOfSegment("request-id:", requestId.value);
      OccurrencesConcat("request-id:" + requestId.value + ";", "ts:" + ts + ";", ';');
      OccurrencesZero(requestId.value, ';');
    }
  }

  lemma SemicolonsOfSegment(name: string, value: string)
    requires Semicolons(name) == 0 && Semicolons(";") == 1
    ensures Semicolons(name + value + ";") == Semicolons(value) + 1
  {
    hide Occurrences;
    OccurrencesConcat(name + value, ";", ';');
    OccurrencesConcat(name, value, ';');
  }

  lemma RestDecodes(r1: Option<string>, t1: string, r2: Option<string>, t2: string)
    requires SemicolonFree("", r1, t1) && SemicolonFree("", r2, t2) && Rest(r1, t1) == Rest(r2, t2)
    ensures r1 == r2 && t1 == t2
  {
    assert Rest(r1, t1)[0] == (if r1.Some? then 'r' else 't') && Rest(r2, t2)[0] == (if r2.Some? then 'r' else 't');
    if r1.Some? {
      FirstSeparator("request-id:" + r1.value, "ts:" + t1 + ";", "request-id:" + r2.value, "ts:" + t2 + ";", ';');
      SameHeadLength("request-id:", r1.value, "request-id:", r2.value);
    }
    FirstSeparator("ts:" + t1, "", "ts:" + t2, "", ';');
    SameHeadLength("ts:", t1, "ts:", t2);
  }

  /** A genuine notification's values hold no semicolon. Another request signing to its manifest, whatever
      its own values hold, carries the same payment, request and time if and only if it does not drop
      the request id. */
  lemma ManifestDecodes(d1: string, r1: Option<string>, t1: string, d2: string, r2: Option<string>, t2: string)
    requires SemicolonFree(d1, r1, t1) && Manifest(d1, r1, t1) == Manifest(d2, r2, t2)
    ensures d1 == d2 && r1 == r2 && t1 == t2 <==> (r1.Some? ==> r2.Some?)
  {
    SemicolonsOfManifest(d1, r1, t1);
    SemicolonsOfManifest(d2, r2, t2);
    hide Rest, Occurrences;
    if r1.Some? ==> r2.Some? {
      assert SemicolonFree(d2, r2, t2);
      FirstSeparator("id:" + d1, Rest(r1, t1), "id:" + d2, Rest(r2, t2), ';');
      SameHeadLength("id:", d1, "id:", d2);
      RestDecodes(r1, t1, r2, t2);
    }
  }

  /** Dropping it does alias: a payment id that spells out the request segment. */
  lemma DroppedRequestIdAliases(dataId: string, requestId: string, ts: string)
    ensures Manifest(dataId, Some(requestId), ts) == Manifest(dataId + ";request-id:" + requestId, None, ts)
  {
    assert "id:" + dataId + ";" + ("request-id:" + requestId + ";" + ("ts:" + ts + ";"))
        == "id:" + (dataId + ";request-id:" + requestId) + ";" + ("ts:" + ts + ";");
  }
}
