/** Wompi's webhook verification (packages/payments/src/wompi.ts): which values its checksum binds, and
    why the text it signs, concatenated with no delimiter, still decodes in one way. */
module Wompi {
  import opened Options
  import opened Texts
  import opened JsonValue
  import Decimal
  import OrderReference

  function PathText(v: Json): string { if v.Null? then "null" else Text(v) }

  // ---- Reading values by path ----

  function ReadKeys(v: Option<Json>, keys: seq<string>): Option<Json>
    decreases |keys|
  {
    if keys == [] then v else ReadKeys(Member(v, keys[0]), keys[1..])
  }

  function ReadPath(v: Option<Json>, path: string): Option<Json> { ReadKeys(v, Split(path, '.')) }

  // ---- Verification ----

  const ID: string := "transaction" + "." + "id"
  const STATUS: string := "transaction" + "." + "status"
  const AMOUNT: string := "transaction" + "." + "amount_in_cents"
  const REFERENCE: string := "transaction" + "." + "reference"

  datatype Reason = InvalidJson | MalformedPayload | MissingSignature | SignatureMismatch | UnsignedFields
                  | MissingTransaction | MissingAmount | MissingReference

  datatype Report = Report(id: string, status: string, timestamp: string, reference: string, amount: Number,
      currency: Option<string>)
  datatype Verdict = Accepted(report: Report) | Refused(reason: Reason)

  function SignedValue(data: Option<Json>, path: string): string {
    var v := ReadPath(data, path);
    if v.None? then "" else Text(v.value)
  }

  function SignedValues(data: Option<Json>, paths: seq<string>): string {
    if paths == [] then "" else SignedValue(data, paths[0]) + SignedValues(data, paths[1..])
  }

  function PathTexts(properties: seq<Json>): (paths: seq<string>)
    ensures |paths| == |properties|
  {
    seq(|properties|, i requires 0 <= i < |properties| => PathText(properties[i]))
  }

  /** The text the checksum covers. */
  function SignedText(body: Json, paths: seq<string>, secret: string): string {
    var timestamp := Member(Some(body), "timestamp");
    SignedValues(Member(Some(body), "data"), paths) + (if timestamp.Some? then Text(timestamp.value) else "") + secret
  }

  /** `verifyAndParseWebhook`; None is a request body that does not parse as JSON. */
  function Verify(sha: string -> string, secret: string, request: Option<Json>): Verdict {
    if request.None? then Refused(InvalidJson)
    else if !request.value.Obj? && !request.value.Arr? then Refused(MalformedPayload)
    else
      var body := request.value;
      var properties := Member(Member(Some(body), "signature"), "properties");
      var checksum := Member(Member(Some(body), "signature"), "checksum");
      var timestamp := Member(Some(body), "timestamp");
      if properties.None? || !properties.value.Arr? || checksum.None? || !checksum.value.Str?
         || timestamp.None? || !(timestamp.value.Num? || timestamp.value.Str?) then Refused(MissingSignature)
      else
        var paths := PathTexts(properties.value.items);
        if sha(SignedText(body, paths, secret)) != checksum.value.s then Refused(SignatureMismatch)
        else if exists p :: p in [ID, STATUS, AMOUNT, REFERENCE] && p !in paths then Refused(UnsignedFields)
        else ReadTransaction(Member(Member(Some(body), "data"), "transaction"), Text(timestamp.value))
  }

  function ReadTransaction(transaction: Option<Json>, timestamp: string): Verdict {
    var id, status := Member(transaction, "id"), Member(transaction, "status");
    var amount, reference := Member(transaction, "amount_in_cents"), Member(transaction, "reference");
    var currency := Member(transaction, "currency");
    if id.None? || !id.value.Str? || status.None? || !status.value.Str? then Refused(MissingTransaction)
    else if amount.None? || !amount.value.Num? then Refused(MissingAmount)
    else if reference.None? || !reference.value.Str? then Refused(MissingReference)
    else Accepted(Report(id.value.s, status.value.s, timestamp, reference.value.s, amount.value.number,
                         if currency.Some? && currency.value.Str? && currency.value.s != ""
                         then Some(currency.value.s) else None))
  }

  // ---- Everything reported is signed ----

  lemma ReadPair(v: Option<Json>, a: string, b: string)
    requires '.' !in a && '.' !in b
    ensures ReadPath(v, a + "." + b) == Member(Member(v, a), b)
  {
    SplitPair(a, b, '.');
    assert [a, b][1..] == [b] && [b][1..] == [];
    assert ReadKeys(v, [a, b]) == ReadKeys(Member(v, a), [b]) == ReadKeys(Member(Member(v, a), b), []);
  }

  lemma TransactionPaths(v: Option<Json>)
    ensures ReadPath(v, ID) == Member(Member(v, "transaction"), "id")
    ensures ReadPath(v, STATUS) == Member(Member(v, "transaction"), "status")
    ensures ReadPath(v, AMOUNT) == Member(Member(v, "transaction"), "amount_in_cents")
    ensures ReadPath(v, REFERENCE) == Member(Member(v, "transaction"), "reference")
  {
    ReadPair(v, "transaction", "id");
    ReadPair(v, "transaction", "status");
    ReadPair(v, "transaction", "amount_in_cents");
    ReadPair(v, "transaction", "reference");
  }

  const STANDARD_ORDER: seq<string> := [ID, STATUS, AMOUNT, REFERENCE]

  function Properties(body: Json): seq<string> {
    match Member(Member(Some(body), "signature"), "properties")
    case Some(Arr(items)) => PathTexts(items)
    case _ => []
  }

  function Checksum(body: Json): string {
    match Member(Member(Some(body), "signature"), "checksum")
    case Some(Str(s)) => s
    case _ => ""
  }

  /** Wompi's documented text for one report, secret included. */
  function Concatenated(r: Report, secret: string): string {
    r.id + r.status + NumberText(r.amount) + r.reference + r.timestamp + secret
  }

  lemma SignedCons(data: Option<Json>, path: string, rest: seq<string>)
    ensures SignedValues(data, [path] + rest) == SignedValue(data, path) + SignedValues(data, rest)
    ensures SignedValues(data, []) == ""
  {
    assert ([path] + rest)[1..] == rest;
  }

  lemma Concat4(a: string, b: string, c: string, d: string)
    ensures a + (b + (c + (d + ""))) == a + b + c + d
  {
  }

  lemma FourValues(data: Option<Json>, a: string, b: string, c: string, d: string)
    ensures SignedValues(data, [a, b, c, d])
      == SignedValue(data, a) + SignedValue(data, b) + SignedValue(data, c) + SignedValue(data, d)
  {
    hide SignedValue, SignedValues;
    SignedCons(data, d, []);
    SignedCons(data, c, [d] + []);
    SignedCons(data, b, [c] + ([d] + []));
    SignedCons(data, a, [b] + ([c] + ([d] + [])));
    assert [a, b, c, d] == [a] + ([b] + ([c] + ([d] + [])));
    Concat4(SignedValue(data, a), SignedValue(data, b), SignedValue(data, c), SignedValue(data, d));
  }

  /** Every value an accepted event reports, its currency aside, is a value the checksum covers. */
  lemma AcceptedIsSigned(sha: string -> string, secret: string, body: Json)
    ensures Verify(sha, secret, Some(body)).Accepted? ==>
      var r, data := Verify(sha, secret, Some(body)).report, Member(Some(body), "data");
      && sha(SignedText(body, Properties(body), secret)) == Checksum(body)
      && ID in Properties(body) && STATUS in Properties(body)
      && AMOUNT in Properties(body) && REFERENCE in Properties(body)
      && r.id == SignedValue(data, ID) && r.status == SignedValue(data, STATUS)
      && NumberText(r.amount) == SignedValue(data, AMOUNT) && r.reference == SignedValue(data, REFERENCE)
      && (Properties(body) == STANDARD_ORDER ==> SignedText(body, Properties(body), secret) == Concatenated(r, secret))
  {
    hide First, Split, ReadKeys, NumberText, PathTexts;
    var data := Member(Some(body), "data");
    TransactionPaths(data);
    if Properties(body) == STANDARD_ORDER {
      FourValues(data, ID, STATUS, AMOUNT, REFERENCE);
    }
  }

  // ---- Unique decoding ----

  lemma ReferenceShape(reference: string)
    requires OrderReference.HasGeneratedShape(reference)
    ensures reference == "vr" + "_" + reference[3..]
    ensures '_' !in reference[3..]
  {
    assert reference[..3] == OrderReference.PREFIX;
    forall i | 0 <= i < |reference[3..]| ensures reference[3..][i] != '_' {
      assert OrderReference.IsSymbol(reference[3..][i]);
    }
  }

  /** Amount, reference and timestamp written one after the other decode in one way when the references
      have the generator's exact shape, whatever the amounts and timestamps are. */
  lemma TailDecodes(a1: Number, ref1: string, t1: string, a2: Number, ref2: string, t2: string)
    requires OrderReference.HasGeneratedShape(ref1) && OrderReference.HasGeneratedShape(ref2)
    requires NumberText(a1) + ref1 + t1 == NumberText(a2) + ref2 + t2
    ensures a1 == a2 && ref1 == ref2 && t1 == t2
  {
    hide NumberText;
    HeadDecodes(NumberText(a1), ref1, t1, NumberText(a2), ref2, t2) by {
      NumberTextCharacters(a1);
      NumberTextCharacters(a2);
    }
    NumberTextInjective(a1, a2);
  }

  /** The underscore of the prefix marks where the reference starts, and its length where it ends. */
  lemma HeadDecodes(h1: string, ref1: string, t1: string, h2: string, ref2: string, t2: string)
    requires OrderReference.HasGeneratedShape(ref1) && OrderReference.HasGeneratedShape(ref2)
    requires '_' !in h1 && '_' !in h2 && h1 + ref1 + t1 == h2 + ref2 + t2
    ensures h1 == h2 && ref1 == ref2 && t1 == t2
  {
    ReferenceShape(ref1);
    ReferenceShape(ref2);
    assert h1 + ref1 + t1 == (h1 + "vr") + ['_'] + (ref1[3..] + t1);
    assert h2 + ref2 + t2 == (h2 + "vr") + ['_'] + (ref2[3..] + t2);
    FirstSeparator(h1 + "vr", ref1[3..] + t1, h2 + "vr", ref2[3..] + t2, '_');
    SameHeadLength(h1, "vr", h2, "vr");
    SameHeadLength(ref1[3..], t1, ref2[3..], t2);
  }

  predicate PlainId(id: string) { forall i :: 0 <= i < |id| ==> Decimal.IsDigit(id[i]) || id[i] == '-' }

  predicate UpperCase(c: char) { 'A' <= c <= 'Z' }

  predicate PlainStatus(status: string) { status != "" && forall i :: 0 <= i < |status| ==> UpperCase(status[i]) }

  /** Ids of digits and hyphens, upper-case statuses and whole amounts: what Wompi documents. */
  predicate Documented(r: Report) {
    PlainId(r.id) && PlainStatus(r.status) && r.amount.Integer? && r.amount.n >= 0
      && OrderReference.HasGeneratedShape(r.reference)
  }

  lemma IdStatusAmountDecode(r1: Report, r2: Report)
    requires Documented(r1) && Documented(r2)
    requires r1.id + r1.status + NumberText(r1.amount) == r2.id + r2.status + NumberText(r2.amount)
    ensures r1.id == r2.id && r1.status == r2.status && r1.amount == r2.amount
  {
    SuffixByAlphabet(r1.id + r1.status, NumberText(r1.amount), r2.id + r2.status, NumberText(r2.amount),
      c => Decimal.IsDigit(c));
    SuffixByAlphabet(r1.id, r1.status, r2.id, r2.status, c => UpperCase(c));
    IntegerTextInjective(r1.amount.n, r2.amount.n);
  }

  lemma HeadHasNoUnderscore(r: Report)
    requires Documented(r)
    ensures '_' !in r.id + r.status + NumberText(r.amount)
  {
    NumberTextCharacters(r.amount);
  }

  predicate SameReport(r1: Report, r2: Report) {
    r1.id == r2.id && r1.status == r2.status && r1.timestamp == r2.timestamp && r1.reference == r2.reference
      && r1.amount == r2.amount
  }

  /** The undelimited text determines every field of a documented report. */
  lemma UniqueDecoding(r1: Report, r2: Report, secret: string)
    requires Documented(r1) && Documented(r2) && Concatenated(r1, secret) == Concatenated(r2, secret)
    ensures SameReport(r1, r2)
  {
    hide NumberText, Documented;
    var h1, h2 := r1.id + r1.status + NumberText(r1.amount), r2.id + r2.status + NumberText(r2.amount);
    HeadHasNoUnderscore(r1);
    HeadHasNoUnderscore(r2);
    DropSecret(h1 + r1.reference + r1.timestamp, h2 + r2.reference + r2.timestamp, secret);
    DocumentedReference(r1);
    DocumentedReference(r2);
    HeadDecodes(h1, r1.reference, r1.timestamp, h2, r2.reference, r2.timestamp);
    IdStatusAmountDecode(r1, r2);
  }

  lemma DocumentedReference(r: Report)
    requires Documented(r)
    ensures OrderReference.HasGeneratedShape(r.reference)
  {
  }

  lemma DropSecret(a: string, b: string, secret: string)
    requires a + secret == b + secret
    ensures a == b
  {
    assert |a| == |b|;
    SameHeadLength(a, secret, b, secret);
  }

  /** For any ids and statuses that agree, the rest decodes too. */
  lemma DecodingWithinPayment(r1: Report, r2: Report, secret: string)
    requires r1.id == r2.id && r1.status == r2.status
    ensures (OrderReference.HasGeneratedShape(r1.reference) && OrderReference.HasGeneratedShape(r2.reference)
             && Concatenated(r1, secret) == Concatenated(r2, secret)) ==> SameReport(r1, r2)
  {
    hide NumberText, OrderReference.HasGeneratedShape;
    if OrderReference.HasGeneratedShape(r1.reference) && OrderReference.HasGeneratedShape(r2.reference)
       && Concatenated(r1, secret) == Concatenated(r2, secret) {
      var head := r1.id + r1.status;
      var u1, u2 := NumberText(r1.amount) + r1.reference + r1.timestamp,
        NumberText(r2.amount) + r2.reference + r2.timestamp;
      assert Concatenated(r1, secret) == head + (u1 + secret) && Concatenated(r2, secret) == head + (u2 + secret);
      SameHeadLength(head, u1 + secret, head, u2 + secret);
      DropSecret(u1, u2, secret);
      TailDecodes(r1.amount, r1.reference, r1.timestamp, r2.amount, r2.reference, r2.timestamp);
    }
  }

  ghost predicate Injective(sha: string -> string) { forall a, b :: sha(a) == sha(b) ==> a == b }

  /** Accepted, with the documented signed list and documented values. */
  predicate StandardlyAccepted(sha: string -> string, secret: string, body: Json) {
    Verify(sha, secret, Some(body)).Accepted? && Properties(body) == STANDARD_ORDER
      && Documented(Verify(sha, secret, Some(body)).report)
  }

  /** What an accepted delivery's checksum was computed over, and for a documented one that text is its
      report's own. */
  lemma SameSignedText(sha: string -> string, secret: string, a: Json, b: Json)
    requires Injective(sha)
    ensures (StandardlyAccepted(sha, secret, a) && Verify(sha, secret, Some(b)).Accepted?
             && Checksum(a) == Checksum(b)) ==>
      SignedText(b, Properties(b), secret) == Concatenated(Verify(sha, secret, Some(a)).report, secret)
  {
    hide Documented, SignedText, Verify, Concatenated;
    AcceptedIsSigned(sha, secret, a);
    AcceptedIsSigned(sha, secret, b);
  }

  /** The sender of a delivery chooses which paths are signed, and that list is not signed itself. So an
      accepted delivery that reuses the checksum of a documented one reports the same payment, and
      deduplicates with it, if and only if what it reports is documented too and the text its own list
      makes up is the documented text of its report. */
  lemma OneChecksumOneReport(sha: string -> string, secret: string, a: Json, b: Json)
    requires Injective(sha)
    ensures (StandardlyAccepted(sha, secret, a) && Verify(sha, secret, Some(b)).Accepted?
             && Checksum(a) == Checksum(b)) ==>
      var ra, rb := Verify(sha, secret, Some(a)).report, Verify(sha, secret, Some(b)).report;
      SameReport(ra, rb) <==> Documented(rb) && SignedText(b, Properties(b), secret) == Concatenated(rb, secret)
  {
    hide Documented, SignedText, Verify;
    if StandardlyAccepted(sha, secret, a) && Verify(sha, secret, Some(b)).Accepted? && Checksum(a) == Checksum(b) {
      SameSignedText(sha, secret, a, b);
      var ra, rb := Verify(sha, secret, Some(a)).report, Verify(sha, secret, Some(b)).report;
      if SameReport(ra, rb) {
        SameReportDocumented(ra, rb);
      } else if Documented(rb) && Concatenated(ra, secret) == Concatenated(rb, secret) {
        UniqueDecoding(ra, rb, secret);
      }
    }
  }

  lemma SameReportDocumented(r1: Report, r2: Report)
    requires SameReport(r1, r2)
    ensures Documented(r1) <==> Documented(r2)
  {
  }

  /** Under the documented list it is the values alone that decide. */
  lemma DocumentedListExactly(sha: string -> string, secret: string, a: Json, b: Json)
    requires Injective(sha)
    ensures (StandardlyAccepted(sha, secret, a) && Verify(sha, secret, Some(b)).Accepted?
             && Properties(b) == STANDARD_ORDER && Checksum(a) == Checksum(b)) ==>
      var ra, rb := Verify(sha, secret, Some(a)).report, Verify(sha, secret, Some(b)).report;
      SameReport(ra, rb) <==> Documented(rb)
  {
    hide Documented, SignedText, Verify, Concatenated, SameReport;
    AcceptedIsSigned(sha, secret, b);
    OneChecksumOneReport(sha, secret, a, b);
  }

  // ---- What survives any list of signed paths ----

  lemma {:induction false} SignedValueInside(data: Option<Json>, paths: seq<string>, path: string)
    returns (before: string, after: string)
    requires path in paths
    ensures SignedValues(data, paths) == before + SignedValue(data, path) + after
  {
    hide SignedValue;
    assert paths == [paths[0]] + paths[1..];
    SignedCons(data, paths[0], paths[1..]);
    if path == paths[0] {
      before, after := "", SignedValues(data, paths[1..]);
    } else {
      var inner, rest := SignedValueInside(data, paths[1..], path);
      before, after := SignedValue(data, paths[0]) + inner, rest;
    }
  }

  /** A reference inside a text whose only underscore is another reference's is that reference. */
  lemma OnlyReference(before: string, ref1: string, after: string, head: string, ref2: string, tail: string)
    requires OrderReference.HasGeneratedShape(ref1) && OrderReference.HasGeneratedShape(ref2)
    requires '_' !in head && '_' !in tail && before + ref1 + after == head + ref2 + tail
    ensures ref1 == ref2
  {
    ReferenceShape(ref1);
    ReferenceShape(ref2);
    assert before + ref1 + after == (before + "vr") + ['_'] + (ref1[3..] + after);
    assert head + ref2 + tail == (head + "vr") + ['_'] + (ref2[3..] + tail);
    OnlySeparator(head + "vr", ref2[3..] + tail, before + "vr", ref1[3..] + after, '_');
    SameHeadLength(ref1[3..], after, ref2[3..], tail);
  }

  /** Whatever paths a body signs, if its text is a documented report's then so is the reference among
      its signed values. */
  lemma ReferenceFromText(body: Json, paths: seq<string>, secret: string, r: Report)
    requires Documented(r) && '_' !in r.timestamp && REFERENCE in paths
    requires SignedText(body, paths, secret) == Concatenated(r, secret)
    ensures OrderReference.HasGeneratedShape(SignedValue(Member(Some(body), "data"), REFERENCE)) ==>
      SignedValue(Member(Some(body), "data"), REFERENCE) == r.reference
  {
    hide Documented, SignedValues, SignedValue, NumberText, OrderReference.HasGeneratedShape;
    var reference := SignedValue(Member(Some(body), "data"), REFERENCE);
    var before, after := SignedValueInside(Member(Some(body), "data"), paths, REFERENCE);
    var timestamp := Member(Some(body), "timestamp");
    var t := if timestamp.Some? then Text(timestamp.value) else "";
    var head := r.id + r.status + NumberText(r.amount);
    DropSecret(before + reference + after + t, head + r.reference + r.timestamp, secret);
    assert before + reference + after + t == before + reference + (after + t);
    HeadHasNoUnderscore(r);
    DocumentedReference(r);
    if OrderReference.HasGeneratedShape(reference) {
      OnlyReference(before, reference, after + t, head, r.reference, r.timestamp);
    }
  }

  /** Whatever list a delivery signs, one that reuses a documented checksum names the same order if and only
      if the reference it reports has the generator's exact shape: such a reference holds an underscore,
      and the underscore of the genuine one is the only one in the signed values. */
  lemma ReferenceSurvivesExactly(sha: string -> string, secret: string, a: Json, b: Json)
    requires Injective(sha)
    ensures (StandardlyAccepted(sha, secret, a) && '_' !in Verify(sha, secret, Some(a)).report.timestamp
             && Verify(sha, secret, Some(b)).Accepted? && Checksum(a) == Checksum(b)) ==>
      var ra, rb := Verify(sha, secret, Some(a)).report, Verify(sha, secret, Some(b)).report;
      ra.reference == rb.reference <==> OrderReference.HasGeneratedShape(rb.reference)
  {
    hide Documented, Verify, SignedText, Concatenated, SignedValue, OrderReference.HasGeneratedShape;
    if StandardlyAccepted(sha, secret, a) && '_' !in Verify(sha, secret, Some(a)).report.timestamp
       && Verify(sha, secret, Some(b)).Accepted? && Checksum(a) == Checksum(b) {
      SameSignedText(sha, secret, a, b);
      AcceptedIsSigned(sha, secret, b);
      DocumentedReference(Verify(sha, secret, Some(a)).report);
      ReferenceFromText(b, Properties(b), secret, Verify(sha, secret, Some(a)).report);
    }
  }

  /** The event Wompi sends for a report, with its timestamp as a number or as a text. */
  function StampedBody(r: Report, stamp: Json, checksum: string): Json {
    var properties := Arr([Str(ID), Str(STATUS), Str(AMOUNT), Str(REFERENCE)]);
    Obj(map[
      "data" := Obj(map["transaction" := Transaction(r)]),
      "signature" := Obj(map["properties" := properties, "checksum" := Str(checksum)]),
      "timestamp" := stamp])
  }

  function EventBody(r: Report, checksum: string): Json { StampedBody(r, Str(r.timestamp), checksum) }

  function Transaction(r: Report): Json {
    var signed := map["id" := Str(r.id), "status" := Str(r.status), "amount_in_cents" := Num(r.amount),
                      "reference" := Str(r.reference)];
    Obj(if r.currency.Some? then signed["currency" := Str(r.currency.value)] else signed)
  }

  lemma TransactionMembers(r: Report)
    requires r.currency != Some("")
    ensures ReadTransaction(Some(Transaction(r)), r.timestamp) == Accepted(r)
  {
  }

  lemma EventMembers(r: Report, stamp: Json, checksum: string)
    ensures var body := StampedBody(r, stamp, checksum);
      && Member(Some(body), "timestamp") == Some(stamp)
      && Member(Member(Some(body), "data"), "transaction") == Some(Transaction(r))
      && Member(Member(Some(body), "signature"), "checksum") == Some(Str(checksum))
      && Properties(body) == STANDARD_ORDER
  {
    assert PathTexts([Str(ID), Str(STATUS), Str(AMOUNT), Str(REFERENCE)]) == STANDARD_ORDER;
  }

  /** An honest event is accepted as exactly the report it was made from, whatever the report says and
      whether its timestamp is sent as a number, as Wompi does, or as a text. */
  lemma HonestEventAccepted(sha: string -> string, secret: string, r: Report, stamp: Json)
    requires r.currency != Some("") && (stamp.Num? || stamp.Str?) && Text(stamp) == r.timestamp
    ensures Verify(sha, secret, Some(StampedBody(r, stamp, sha(Concatenated(r, secret))))) == Accepted(r)
  {
    hide First, Split, ReadKeys, NumberText, PathTexts;
    var body := StampedBody(r, stamp, sha(Concatenated(r, secret)));
    var data := Member(Some(body), "data");
    EventMembers(r, stamp, sha(Concatenated(r, secret)));
    TransactionMembers(r);
    TransactionPaths(data);
    FourValues(data, ID, STATUS, AMOUNT, REFERENCE);
  }

  /** A path that leads nowhere signs the empty text. */
  lemma MissingPathSignsNothing(data: Option<Json>, paths: seq<string>, path: string)
    requires ReadPath(data, path).None?
    ensures SignedValues(data, paths + [path]) == SignedValues(data, paths)
  {
    SignedSnoc(data, paths, path);
  }

  // ---- Exactly what is accepted ----

  predicate IsText(v: Option<Json>) { v.Some? && v.value.Str? }

  predicate IsNumber(v: Option<Json>) { v.Some? && v.value.Num? }

  /** The parts of a delivery that must be there, each of its own kind. */
  predicate Complete(body: Json) {
    var signature, transaction := Member(Some(body), "signature"), Member(Member(Some(body), "data"), "transaction");
    var properties, timestamp := Member(signature, "properties"), Member(Some(body), "timestamp");
    && properties.Some? && properties.value.Arr? && IsText(Member(signature, "checksum"))
    && (IsNumber(timestamp) || IsText(timestamp))
    && IsText(Member(transaction, "id")) && IsText(Member(transaction, "status"))
    && IsNumber(Member(transaction, "amount_in_cents")) && IsText(Member(transaction, "reference"))
  }

  /** A delivery is accepted if and only if it is complete, its checksum is that of the text its list signs,
      and that list has the four paths a report needs; the report is then the transaction's own values. */
  lemma AcceptedExactly(sha: string -> string, secret: string, body: Json)
    ensures Verify(sha, secret, Some(body)).Accepted? <==>
      && Complete(body) && sha(SignedText(body, Properties(body), secret)) == Checksum(body)
      && ID in Properties(body) && STATUS in Properties(body)
      && AMOUNT in Properties(body) && REFERENCE in Properties(body)
    ensures Verify(sha, secret, Some(body)).Accepted? ==>
      var r, transaction := Verify(sha, secret, Some(body)).report, Member(Member(Some(body), "data"), "transaction");
      && Member(transaction, "id") == Some(Str(r.id)) && Member(transaction, "status") == Some(Str(r.status))
      && Member(transaction, "amount_in_cents") == Some(Num(r.amount))
      && Member(transaction, "reference") == Some(Str(r.reference))
      && Member(Some(body), "timestamp").Some? && r.timestamp == Text(Member(Some(body), "timestamp").value)
      && r.currency != Some("")
      && (r.currency.Some? ==> Member(transaction, "currency") == Some(Str(r.currency.value)))
      && (r.currency.None? ==>
        !IsText(Member(transaction, "currency")) || Member(transaction, "currency") == Some(Str("")))
    ensures Verify(sha, secret, None) == Refused(InvalidJson)
  {
    hide SignedText, PathTexts, Text;
  }

  /** An event that signs one path more, whose value is the first part of the timestamp. */
  function ExtraPathBody(r: Report, moved: string, timestamp: string, checksum: string): Json {
    Obj(map[
      "data" := Obj(map["transaction" := Transaction(r), "x" := Str(moved)]),
      "signature" := Obj(map["properties" := Arr([Str(ID), Str(STATUS), Str(AMOUNT), Str(REFERENCE), Str("x")]),
        "checksum" := Str(checksum)]),
      "timestamp" := Str(timestamp)])
  }

  lemma ExtraPathMembers(r: Report, moved: string, timestamp: string, checksum: string)
    ensures var body := ExtraPathBody(r, moved, timestamp, checksum);
      && Member(Some(body), "timestamp") == Some(Str(timestamp))
      && Member(Member(Some(body), "data"), "transaction") == Some(Transaction(r))
      && Member(Member(Some(body), "data"), "x") == Some(Str(moved))
      && Member(Member(Some(body), "signature"), "checksum") == Some(Str(checksum))
      && Properties(body) == STANDARD_ORDER + ["x"]
  {
    assert PathTexts([Str(ID), Str(STATUS), Str(AMOUNT), Str(REFERENCE), Str("x")]) == STANDARD_ORDER + ["x"];
  }

  lemma ReadOne(data: Option<Json>, key: string)
    requires '.' !in key
    ensures ReadPath(data, key) == Member(data, key)
  {
    assert Split(key, '.') == [key] && [key][1..] == [];
    assert ReadKeys(data, [key]) == ReadKeys(Member(data, key), []);
  }

  lemma {:induction false} SignedSnoc(data: Option<Json>, paths: seq<string>, path: string)
    ensures SignedValues(data, paths + [path]) == SignedValues(data, paths) + SignedValue(data, path)
  {
    hide SignedValue;
    if paths == [] {
      assert [] + [path] == [path] + [];
      SignedCons(data, path, []);
    } else {
      SignedSnoc(data, paths[1..], path);
      assert paths + [path] == [paths[0]] + (paths[1..] + [path]) && paths == [paths[0]] + paths[1..];
      SignedCons(data, paths[0], paths[1..] + [path]);
      SignedCons(data, paths[0], paths[1..]);
      Associative(SignedValue(data, paths[0]), SignedValues(data, paths[1..]), SignedValue(data, path));
    }
  }

  lemma ExtraPathText(r: Report, moved: string, timestamp: string, checksum: string, secret: string)
    requires r.timestamp == moved + timestamp
    ensures SignedText(ExtraPathBody(r, moved, timestamp, checksum), STANDARD_ORDER + ["x"], secret)
      == Concatenated(r, secret)
  {
    hide First, Split, ReadKeys, NumberText, PathTexts, SignedValues;
    var body := ExtraPathBody(r, moved, timestamp, checksum);
    var data := Member(Some(body), "data");
    ExtraPathMembers(r, moved, timestamp, checksum);
    TransactionPaths(data);
    ReadOne(data, "x");
    FourValues(data, ID, STATUS, AMOUNT, REFERENCE);
    SignedSnoc(data, STANDARD_ORDER, "x");
    var head := r.id + r.status + NumberText(r.amount) + r.reference;
    assert SignedValues(data, STANDARD_ORDER) == head;
    assert head + moved + timestamp + secret == head + (moved + timestamp) + secret;
  }

  /** The condition can fail: for every report and every way of cutting its timestamp in two, the event
      that signs the first part as a value of its own carries the checksum of the genuine event, is
      accepted, and reports the payment under the shorter timestamp, so under another event id. */
  lemma ExtraPathReportsAnotherEvent(sha: string -> string, secret: string, r: Report, moved: string, timestamp: string)
    requires r.currency != Some("") && r.timestamp == moved + timestamp && moved != ""
    ensures var checksum := sha(Concatenated(r, secret));
      var genuine, other := EventBody(r, checksum), ExtraPathBody(r, moved, timestamp, checksum);
      && Checksum(genuine) == Checksum(other)
      && Verify(sha, secret, Some(genuine)) == Accepted(r)
      && Verify(sha, secret, Some(other)) == Accepted(r.(timestamp := timestamp))
      && !SameReport(r, r.(timestamp := timestamp))
      && r.id + ":" + r.timestamp != r.id + ":" + timestamp
  {
    hide First, Split, ReadKeys, NumberText, PathTexts, SignedText, Concatenated;
    var checksum := sha(Concatenated(r, secret));
    EventMembers(r, Str(r.timestamp), checksum);
    ExtraPathMembers(r, moved, timestamp, checksum);
    HonestEventAccepted(sha, secret, r, Str(r.timestamp));
    ExtraPathText(r, moved, timestamp, checksum, secret);
    TransactionMembers(r.(timestamp := timestamp));
    assert Transaction(r.(timestamp := timestamp)) == Transaction(r);
    assert |r.timestamp| == |moved| + |timestamp|;
  }

  /** The report that reads the end of the amount as a bare order number, and the genuine reference as the
      beginning of the timestamp. */
  function Shifted(r: Report, amount: PlainInt, number: string): Report {
    r.(amount := Integer(amount), reference := number, timestamp := r.reference + r.timestamp)
  }

  lemma ShiftedText(r: Report, amount: PlainInt, number: string, secret: string)
    requires amount >= 0 && r.amount.Integer? && NumberText(r.amount) == Decimal.Print(amount) + number
    ensures Concatenated(Shifted(r, amount, number), secret) == Concatenated(r, secret)
  {
    hide Decimal.Print;
    var head, digits := r.id + r.status, Decimal.Print(amount);
    assert head + (digits + number) + r.reference + r.timestamp + secret
        == head + digits + number + (r.reference + r.timestamp) + secret;
  }

  /** The references the generator makes are needed: wherever the digits of a documented amount are cut in
      two, the event that reports the first part as the amount and the second as a bare order number keeps
      the documented list and the genuine checksum, is accepted, and is another report. */
  lemma BareNumberReport(sha: string -> string, secret: string, r: Report, amount: PlainInt, number: string)
    requires Documented(r) && r.currency != Some("")
    requires amount >= 0 && number != "" && NumberText(r.amount) == Decimal.Print(amount) + number
    ensures var checksum := sha(Concatenated(r, secret));
      var genuine, other := EventBody(r, checksum), EventBody(Shifted(r, amount, number), checksum);
      && Checksum(genuine) == Checksum(other) && Properties(other) == STANDARD_ORDER
      && Verify(sha, secret, Some(genuine)) == Accepted(r)
      && Verify(sha, secret, Some(other)) == Accepted(Shifted(r, amount, number))
      && SignedText(other, Properties(other), secret) == Concatenated(Shifted(r, amount, number), secret)
      && !SameReport(r, Shifted(r, amount, number)) && Decimal.AllDigits(number)
  {
    hide NumberText, Concatenated, Verify, SignedText, Decimal.Print, Decimal.AllDigits;
    var other := EventBody(Shifted(r, amount, number), sha(Concatenated(r, secret)));
    ShiftedText(r, amount, number, secret);
    var shifted := Shifted(r, amount, number);
    HonestEventAccepted(sha, secret, r, Str(r.timestamp));
    HonestEventAccepted(sha, secret, shifted, Str(shifted.timestamp));
    EventMembers(r, Str(r.timestamp), sha(Concatenated(r, secret)));
    EventMembers(shifted, Str(shifted.timestamp), sha(Concatenated(r, secret)));
    AcceptedIsSigned(sha, secret, other);
    ShiftedIsBare(r, amount, number);
  }

  lemma ShiftedIsBare(r: Report, amount: PlainInt, number: string)
    requires Documented(r) && amount >= 0 && NumberText(r.amount) == Decimal.Print(amount) + number
    ensures Decimal.AllDigits(number) && number != r.reference
  {
    var digits := Decimal.Print(amount);
    assert NumberText(r.amount)[|digits|..] == number;
    assert Decimal.AllDigits(NumberText(r.amount));
    assert r.reference[0] == OrderReference.PREFIX[0];
  }

  // ---- What the reference's exact shape is needed for ----

  lemma StartsWithV(reference: string)
    requires OrderReference.IsOrderReference(reference)
    ensures reference == ['v'] + reference[1..]
  {
    assert reference[0] == OrderReference.PREFIX[0];
  }

  lemma PrefixHeads(h1: string, ref1: string, t1: string, h2: string, ref2: string, t2: string)
    requires OrderReference.IsOrderReference(ref1) && OrderReference.IsOrderReference(ref2)
    requires 'v' !in h1 && 'v' !in h2 && h1 + ref1 + t1 == h2 + ref2 + t2
    ensures h1 == h2 && ref1[1..] + t1 == ref2[1..] + t2
  {
    StartsWithV(ref1);
    StartsWithV(ref2);
    assert h1 + ref1 + t1 == h1 + ['v'] + (ref1[1..] + t1) && h2 + ref2 + t2 == h2 + ['v'] + (ref2[1..] + t2);
    FirstSeparator(h1, ref1[1..] + t1, h2, ref2[1..] + t2, 'v');
  }

  /** With the webhook's looser prefix test instead of the exact shape, the amount still decodes, but
      the reference only when the lengths happen to agree. */
  lemma PrefixShapeDecoding(a1: Number, ref1: string, t1: string, a2: Number, ref2: string, t2: string)
    ensures OrderReference.IsOrderReference(ref1) && OrderReference.IsOrderReference(ref2)
            && NumberText(a1) + ref1 + t1 == NumberText(a2) + ref2 + t2 ==>
            a1 == a2 && (ref1 == ref2 <==> |ref1| == |ref2|)
  {
    hide NumberText;
    if OrderReference.IsOrderReference(ref1) && OrderReference.IsOrderReference(ref2)
       && NumberText(a1) + ref1 + t1 == NumberText(a2) + ref2 + t2 {
      NumberTextCharacters(a1);
      NumberTextCharacters(a2);
      PrefixHeads(NumberText(a1), ref1, t1, NumberText(a2), ref2, t2);
      NumberTextInjective(a1, a2);
      if |ref1| == |ref2| {
        SameHeadLength(ref1[1..], t1, ref2[1..], t2);
        StartsWithV(ref1);
        StartsWithV(ref2);
      }
    }
  }

  /** The prefix test alone does not separate a reference from the timestamp after it. */
  lemma PrefixShapeIsNotEnough(a: Number)
    ensures OrderReference.IsOrderReference("vr_a") && OrderReference.IsOrderReference("vr_a1")
    ensures NumberText(a) + "vr_a" + "17" == NumberText(a) + "vr_a1" + "7"
  {
    assert "vr_a" + "17" == "vr_a1" + "7";
    assert NumberText(a) + "vr_a" + "17" == NumberText(a) + ("vr_a" + "17");
    assert NumberText(a) + "vr_a1" + "7" == NumberText(a) + ("vr_a1" + "7");
    assert "vr_a"[..3] == "vr_" && "vr_a1"[..3] == "vr_";
  }

  /** A bare order number never decodes: its first digit may as well end the amount. */
  lemma BareNumberAliases(amount: nat, reference: string)
    requires amount > 0 && |reference| >= 2 && Decimal.AllDigits(reference)
    ensures var shifted := 10 * amount + Decimal.DigitValue(reference[0]);
      shifted != amount && Decimal.Print(amount) + reference == Decimal.Print(shifted) + reference[1..]
  {
    var d := Decimal.DigitValue(reference[0]);
    assert d < 10 && Decimal.DigitChar(d) == reference[0];
    assert (10 * amount + d) / 10 == amount && (10 * amount + d) % 10 == d;
    assert Decimal.Print(10 * amount + d) == Decimal.Print(amount) + [reference[0]];
    assert reference == [reference[0]] + reference[1..];
  }

  /** The pair documented in the adapter: 500,000 pesos for order 1042, or 50,000,000.10 for order 42. */
  lemma DocumentedAliasPair()
    ensures Decimal.Print(50000000) + "1042" == Decimal.Print(5000000010) + "42"
  {
    BareNumberAliases(50000000, "1042");
    BareNumberAliases(500000001, "042");
    assert "1042"[1..] == "042" && "042"[1..] == "42";
  }
}
