/** Inbound WhatsApp webhooks (packages/whatsapp): one Cloud delivery may carry messages for many
    numbers; Evolution nests one message in either of two shapes. */
module WhatsApp {
  import opened Options
  import opened JsonValue
  import Texts
  import Phone

  datatype Inbound = Inbound(from: string, text: string, externalId: string, pushName: Option<string>)

  const NO_FIELDS: map<string, Json> := map[]

  /** `asRecord` and `asArray`: the empty record or list for anything else. */
  function AsRecord(v: Option<Json>): map<string, Json> {
    match v case Some(Obj(fields)) => fields case _ => NO_FIELDS
  }

  function AsArray(v: Option<Json>): seq<Json> {
    match v case Some(Arr(items)) => items case _ => []
  }

  function Field(v: Json, name: string): Option<Json> {
    var fields := AsRecord(Some(v));
    if name in fields then Some(fields[name]) else None
  }

  function FieldOf(v: Option<Json>, name: string): Option<Json> { if v.Some? then Field(v.value, name) else None }

  predicate IsStr(v: Option<Json>) { v.Some? && v.value.Str? }

  predicate IsBlank(s: string) { Texts.Trim(s) == "" }

  // ---- Cloud ----

  /** The name of the first contact of the sender that has one. */
  function ProfileName(contacts: seq<Json>, from: string): Option<string> {
    if contacts == [] then None
    else
      var name := FieldOf(Field(contacts[0], "profile"), "name");
      if Field(contacts[0], "wa_id") == Some(Str(from)) && IsStr(name) && !IsBlank(name.value.s)
      then Some(Texts.Trim(name.value.s))
      else ProfileName(contacts[1..], from)
  }

  /** One raw message: only a text with a non-blank body and its sender and id. */
  function TextMessage(value: Json, raw: Json): Option<Inbound> {
    var body, from, id := FieldOf(Field(raw, "text"), "body"), Field(raw, "from"), Field(raw, "id");
    if Field(raw, "type") != Some(Str("text")) || !IsStr(body) || IsBlank(body.value.s)
       || !IsStr(from) || !IsStr(id) then None
    else Some(Inbound(Phone.NormalizePhone(from.value.s), body.value.s, id.value.s,
                      ProfileName(AsArray(Field(value, "contacts")), from.value.s)))
  }

  /** The number a change is addressed to. */
  function Address(value: Json): Option<Json> { FieldOf(Field(value, "metadata"), "phone_number_id") }

  function ChangeValue(change: Json): Json {
    var v := Field(change, "value");
    if v.Some? then v.value else Null
  }

  predicate IsDelivery(root: Json) { Field(root, "object") == Some(Str("whatsapp_business_account")) }

  /** `verifyAndParseWebhook` after the signature check, for the number `id`; None is a refused delivery. */
  method ParseCloud(root: Json, id: string) returns (messages: Option<seq<Inbound>>)
    ensures messages == if IsDelivery(root) then Some(MessagesFor(root, id)) else None
  {
    hide Field, TextMessage, Address, ChangeValue, Of, AddressedInMessages, AddressedInChanges, AddressedInEntries;
    if !IsDelivery(root) { return None; }
    var found: seq<Inbound> := [];
    var entries := AsArray(Field(root, "entry"));
    NothingYet(Null, id);
    for e := 0 to |entries|
      invariant found == Of(AddressedInEntries(entries[..e]), id)
    {
      ghost var before := found;
      var changes := AsArray(Field(entries[e], "changes"));
      for c := 0 to |changes|
        invariant found == before + Of(AddressedInChanges(changes[..c]), id)
      {
        var value := ChangeValue(changes[c]);
        ghost var sofar := found;
        ghost var earlier := Of(AddressedInChanges(changes[..c]), id);
        NothingYet(value, id);
        var raws := AsArray(Field(value, "messages"));
        if Address(value) == Some(Str(id)) {
          for m := 0 to |raws|
            invariant found == sofar + Of(AddressedInMessages(value, raws[..m]), id)
          {
            MessagesSnoc(value, raws, m, id);
            var message := TextMessage(value, raws[m]);
            if message.Some? {
              found := found + [message.value];
            }
          }
          assert raws[..|raws|] == raws;
        } else {
          NotAddressed(value, raws, id);
        }
        ChangesSnoc(changes, c, id);
        Texts.Associative(before, earlier, Of(AddressedInMessages(value, raws), id));
      }
      assert changes[..|changes|] == changes;
      EntriesSnoc(entries, e, id);
    }
    assert entries[..|entries|] == entries;
    messages := Some(found);
  }

  lemma NothingYet(value: Json, id: string)
    ensures Of(AddressedInMessages(value, []), id) == [] && Of(AddressedInChanges([]), id) == []
      && Of(AddressedInEntries([]), id) == []
  {
  }

  // ---- Every well-formed text message of a delivery, with its address ----

  datatype Addressed = Addressed(to: Option<Json>, message: Inbound)

  function AddressedInMessages(value: Json, raws: seq<Json>): seq<Addressed> {
    if raws == [] then []
    else
      var last := TextMessage(value, raws[|raws| - 1]);
      AddressedInMessages(value, raws[..|raws| - 1])
        + (if last.Some? then [Addressed(Address(value), last.value)] else [])
  }

  function AddressedInChanges(changes: seq<Json>): seq<Addressed> {
    if changes == [] then []
    else
      var value := ChangeValue(changes[|changes| - 1]);
      AddressedInChanges(changes[..|changes| - 1]) + AddressedInMessages(value, AsArray(Field(value, "messages")))
  }

  function AddressedInEntries(entries: seq<Json>): seq<Addressed> {
    if entries == [] then []
    else
      AddressedInEntries(entries[..|entries| - 1])
      + AddressedInChanges(AsArray(Field(entries[|entries| - 1], "changes")))
  }

  function Delivered(root: Json): seq<Addressed> { AddressedInEntries(AsArray(Field(root, "entry"))) }

  /** The messages addressed to one number, in order. */
  function Of(all: seq<Addressed>, id: string): seq<Inbound> {
    if all == [] then []
    else OfOne(all[0], id) + Of(all[1..], id)
  }

  function MessagesFor(root: Json, id: string): seq<Inbound> { Of(Delivered(root), id) }

  function OfOne(a: Addressed, id: string): seq<Inbound> { if a.to == Some(Str(id)) then [a.message] else [] }

  lemma {:induction false} OfConcat(a: seq<Addressed>, b: seq<Addressed>, id: string)
    ensures Of(a + b, id) == Of(a, id) + Of(b, id)
  {
    if a == [] {
      assert a + b == b;
    } else {
      hide OfOne;
      OfConcat(a[1..], b, id);
      assert (a + b)[1..] == a[1..] + b && (a + b)[0] == a[0];
      Texts.Associative(OfOne(a[0], id), Of(a[1..], id), Of(b, id));
    }
  }

  lemma MessagesSnoc(value: Json, raws: seq<Json>, m: nat, id: string)
    requires m < |raws| && Address(value) == Some(Str(id))
    ensures Of(AddressedInMessages(value, raws[..m + 1]), id)
      == Of(AddressedInMessages(value, raws[..m]), id)
        + (if TextMessage(value, raws[m]).Some? then [TextMessage(value, raws[m]).value] else [])
  {
    hide TextMessage;
    assert raws[..m + 1][..m] == raws[..m];
    var last := TextMessage(value, raws[m]);
    var one := if last.Some? then [Addressed(Address(value), last.value)] else [];
    OfConcat(AddressedInMessages(value, raws[..m]), one, id);
    assert last.Some? ==> one[1..] == [];
  }

  lemma {:induction false} NotAddressed(value: Json, raws: seq<Json>, id: string)
    requires Address(value) != Some(Str(id))
    ensures Of(AddressedInMessages(value, raws), id) == []
  {
    if raws != [] {
      hide TextMessage;
      var last := TextMessage(value, raws[|raws| - 1]);
      var one := if last.Some? then [Addressed(Address(value), last.value)] else [];
      NotAddressed(value, raws[..|raws| - 1], id);
      OfConcat(AddressedInMessages(value, raws[..|raws| - 1]), one, id);
      assert last.Some? ==> one[1..] == [];
    }
  }

  lemma ChangesSnoc(changes: seq<Json>, c: nat, id: string)
    requires c < |changes|
    ensures var value := ChangeValue(changes[c]);
      Of(AddressedInChanges(changes[..c + 1]), id)
        == Of(AddressedInChanges(changes[..c]), id)
          + Of(AddressedInMessages(value, AsArray(Field(value, "messages"))), id)
  {
    var value := ChangeValue(changes[c]);
    assert changes[..c + 1][..c] == changes[..c];
    OfConcat(AddressedInChanges(changes[..c]), AddressedInMessages(value, AsArray(Field(value, "messages"))), id);
  }

  lemma EntriesSnoc(entries: seq<Json>, e: nat, id: string)
    requires e < |entries|
    ensures Of(AddressedInEntries(entries[..e + 1]), id)
      == Of(AddressedInEntries(entries[..e]), id) + Of(AddressedInChanges(AsArray(Field(entries[e], "changes"))), id)
  {
    assert entries[..e + 1][..e] == entries[..e];
    OfConcat(AddressedInEntries(entries[..e]), AddressedInChanges(AsArray(Field(entries[e], "changes"))), id);
  }

  // ---- Parsing for every registered number partitions the delivery ----

  /** The positions of a delivery's messages that one number's parse returns. */
  function Positions(all: seq<Addressed>, id: string): set<nat> {
    set i: nat | i < |all| && all[i].to == Some(Str(id))
  }

  /** The k-th message a number is given is the k-th position addressed to it. */
  function Rank(all: seq<Addressed>, id: string, i: nat): nat
    requires i <= |all|
  {
    |Of(all[..i], id)|
  }

  lemma {:induction false} GivenInOrder(all: seq<Addressed>, id: string, i: nat)
    requires i < |all| && all[i].to == Some(Str(id))
    ensures Rank(all, id, i) < |Of(all, id)| && Of(all, id)[Rank(all, id, i)] == all[i].message
  {
    OfConcat(all[..i], all[i..], id);
    assert all == all[..i] + all[i..];
    assert all[i..][0] == all[i];
  }

  lemma {:induction false} OfIsAddressed(all: seq<Addressed>, id: string, k: nat)
    requires k < |Of(all, id)|
    ensures exists i: nat :: (i < |all| && all[i].to == Some(Str(id)) && all[i].message == Of(all, id)[k]
                              && Rank(all, id, i) == k)
    decreases |all|
  {
    var front, last := all[..|all| - 1], all[|all| - 1];
    assert all == front + [last];
    OfConcat(front, [last], id);
    assert [last][1..] == [];
    if k < |Of(front, id)| {
      OfIsAddressed(front, id, k);
      var i: nat :| i < |front| && front[i].to == Some(Str(id)) && front[i].message == Of(front, id)[k]
        && Rank(front, id, i) == k;
      assert all[..i] == front[..i] && all[i] == front[i];
    } else {
      assert Rank(all, id, |all| - 1) == k;
    }
  }

  lemma RankIncreases(all: seq<Addressed>, id: string, i: nat, j: nat)
    requires i < j <= |all| && all[i].to == Some(Str(id))
    ensures Rank(all, id, i) < Rank(all, id, j)
  {
    assert all[..j] == all[..i] + all[i..j] && all[i..j][0] == all[i];
    OfConcat(all[..i], all[i..j], id);
  }

  /** The k-th message given to a number has a position in the delivery. */
  predicate ComesFrom(all: seq<Addressed>, id: string, k: nat) {
    exists i :: i in Positions(all, id) && Rank(all, id, i) == k
  }

  /** Batch routing: parsing one delivery once per registered number splits its well-formed text messages
      between the numbers they are addressed to. Each message addressed to a registered number is
      returned to exactly that number, each number's list is in delivery order, and nothing else is in it. */
  lemma BatchPartition(root: Json, numbers: set<string>)
    ensures var all := Delivered(root);
      && (forall a, b :: a in numbers && b in numbers && a != b ==> Positions(all, a) !! Positions(all, b))
      && (forall i: nat :: (exists id :: id in numbers && i in Positions(all, id))
            <==> i < |all| && exists id :: id in numbers && all[i].to == Some(Str(id)))
      && (forall id, i :: id in numbers && i in Positions(all, id) ==>
            Rank(all, id, i) < |MessagesFor(root, id)| && MessagesFor(root, id)[Rank(all, id, i)] == all[i].message)
      && (forall id, i, j :: id in numbers && i in Positions(all, id) && j in Positions(all, id) && i < j ==>
            Rank(all, id, i) < Rank(all, id, j))
      && (forall id, k :: id in numbers && 0 <= k < |MessagesFor(root, id)| ==> ComesFrom(all, id, k))
  {
    var all := Delivered(root);
    hide Delivered, Of;
    forall id, i | id in numbers && i in Positions(all, id)
      ensures Rank(all, id, i) < |MessagesFor(root, id)| && MessagesFor(root, id)[Rank(all, id, i)] == all[i].message
    {
      GivenInOrder(all, id, i);
    }
    forall id, i, j | id in numbers && i in Positions(all, id) && j in Positions(all, id) && i < j
      ensures Rank(all, id, i) < Rank(all, id, j)
    {
      RankIncreases(all, id, i, j);
    }
    forall id, k | id in numbers && 0 <= k < |MessagesFor(root, id)| ensures ComesFrom(all, id, k) {
      OfIsAddressed(all, id, k);
      var i: nat :| i < |all| && all[i].to == Some(Str(id)) && all[i].message == Of(all, id)[k]
        && Rank(all, id, i) == k;
      assert i in Positions(all, id);
    }
  }

  // ---- What a Cloud delivery says is what is returned ----

  /** A body is blank if and only if it is white space throughout. */
  lemma BlankExactly(s: string)
    ensures IsBlank(s) <==> forall i :: 0 <= i < |s| ==> Texts.IsSpace(s[i])
  {
    hide Texts.IsSpace;
    var before, after := Texts.TrimCuts(s);
    if Texts.Trim(s) == "" {
      assert s == before + after;
    } else {
      assert s[|before|] == Texts.Trim(s)[0];
    }
  }

  /** The raw message carries these values in the fields they are read from. */
  predicate Carries(raw: Json, from: string, id: string, body: string) {
    && Field(raw, "type") == Some(Str("text")) && Field(raw, "from") == Some(Str(from))
    && Field(raw, "id") == Some(Str(id)) && FieldOf(Field(raw, "text"), "body") == Some(Str(body))
  }

  /** A raw message gives an inbound one if and only if it is a text that carries a sender, an id and a body
      that is not blank; and then it is those values. */
  lemma TextMessageExactly(value: Json, raw: Json)
    ensures TextMessage(value, raw).Some? <==> exists from, id, body :: Carries(raw, from, id, body) && !IsBlank(body)
    ensures forall from, id, body :: Carries(raw, from, id, body) && !IsBlank(body) ==>
      TextMessage(value, raw) == Some(Inbound(Phone.NormalizePhone(from), body, id,
                                              ProfileName(AsArray(Field(value, "contacts")), from)))
  {
    var body, from, id := FieldOf(Field(raw, "text"), "body"), Field(raw, "from"), Field(raw, "id");
    if TextMessage(value, raw).Some? {
      assert Carries(raw, from.value.s, id.value.s, body.value.s);
    }
  }

  /** A text as it is sent, and the raw message and the delivery it travels in. */
  datatype Sent = Sent(from: string, id: string, body: string)

  function RawText(m: Sent): Json {
    Obj(map["type" := Str("text"), "from" := Str(m.from), "id" := Str(m.id), "text" := Obj(map["body" := Str(m.body)])])
  }

  function RawTexts(sent: seq<Sent>): seq<Json> { seq(|sent|, i requires 0 <= i < |sent| => RawText(sent[i])) }

  function Contact(from: string, name: string): Json {
    Obj(map["wa_id" := Str(from), "profile" := Obj(map["name" := Str(name)])])
  }

  function ValueOf(number: string, contacts: seq<Json>, sent: seq<Sent>): Json {
    Obj(map["metadata" := Obj(map["phone_number_id" := Str(number)]), "contacts" := Arr(contacts),
            "messages" := Arr(RawTexts(sent))])
  }

  function CloudDelivery(number: string, contacts: seq<Json>, sent: seq<Sent>): Json {
    var change := Obj(map["value" := ValueOf(number, contacts, sent)]);
    Obj(map["object" := Str("whatsapp_business_account"), "entry" := Arr([Obj(map["changes" := Arr([change])])])])
  }

  function Received(contacts: seq<Json>, m: Sent): Inbound {
    Inbound(Phone.NormalizePhone(m.from), m.body, m.id, ProfileName(contacts, m.from))
  }

  function ReceivedAll(contacts: seq<Json>, sent: seq<Sent>): seq<Inbound> {
    seq(|sent|, i requires 0 <= i < |sent| => Received(contacts, sent[i]))
  }

  lemma TextsSnoc(contacts: seq<Json>, sent: seq<Sent>)
    requires sent != []
    ensures var front, last, n := sent[..|sent| - 1], sent[|sent| - 1], |sent| - 1;
      && |RawTexts(sent)| == |sent| && RawTexts(sent)[..n] == RawTexts(front) && RawTexts(sent)[n] == RawText(last)
      && RawTexts(sent)[..n + 1] == RawTexts(sent)
      && ReceivedAll(contacts, sent) == ReceivedAll(contacts, front) + [Received(contacts, last)]
  {
    hide RawText, Received;
  }

  lemma {:induction false} RawTextsReceived(number: string, contacts: seq<Json>, sent: seq<Sent>, value: Json)
    requires forall i :: 0 <= i < |sent| ==> !IsBlank(sent[i].body)
    requires Field(value, "contacts") == Some(Arr(contacts)) && Address(value) == Some(Str(number))
    ensures Of(AddressedInMessages(value, RawTexts(sent)), number)
         == ReceivedAll(contacts, sent)
    decreases |sent|
  {
    hide IsBlank, ProfileName, RawTexts, ReceivedAll, Received, TextMessage, Field, Address;
    if sent == [] {
      NoTexts(contacts);
      NothingYet(value, number);
    } else {
      var front, last := sent[..|sent| - 1], sent[|sent| - 1];
      TextsSnoc(contacts, sent);
      RawTextsReceived(number, contacts, front, value);
      MessagesSnoc(value, RawTexts(sent), |sent| - 1, number);
      LastReceived(value, contacts, last);
    }
  }

  lemma NoTexts(contacts: seq<Json>)
    ensures RawTexts([]) == [] && ReceivedAll(contacts, []) == []
  {
  }

  lemma LastReceived(value: Json, contacts: seq<Json>, m: Sent)
    requires Field(value, "contacts") == Some(Arr(contacts)) && !IsBlank(m.body)
    ensures TextMessage(value, RawText(m)) == Some(Received(contacts, m))
  {
    hide IsBlank, ProfileName, Phone.NormalizePhone;
  }

  /** Every list of texts sent to one number comes back from its delivery as it was sent: sender, body, id
      and the sender's name, in order; and any other number is given none of it. */
  lemma CloudRoundTrip(number: string, contacts: seq<Json>, sent: seq<Sent>, other: string)
    requires forall i :: 0 <= i < |sent| ==> !IsBlank(sent[i].body)
    requires other != number
    ensures var root := CloudDelivery(number, contacts, sent);
      && IsDelivery(root)
      && MessagesFor(root, number) == ReceivedAll(contacts, sent)
      && MessagesFor(root, other) == []
  {
    var value := ValueOf(number, contacts, sent);
    var change := Obj(map["value" := value]);
    OneChange(change);
    OneEntry(Obj(map["changes" := Arr([change])]));
    hide Of, AddressedInMessages, AddressedInChanges, AddressedInEntries, IsBlank, Received;
    RawTextsReceived(number, contacts, sent, value);
    NotAddressed(value, RawTexts(sent), other);
  }

  lemma OneChange(change: Json)
    ensures AddressedInChanges([change])
         == AddressedInMessages(ChangeValue(change), AsArray(Field(ChangeValue(change), "messages")))
  {
    assert [change][..0] == [];
  }

  lemma OneEntry(entry: Json)
    ensures AddressedInEntries([entry]) == AddressedInChanges(AsArray(Field(entry, "changes")))
  {
    assert [entry][..0] == [];
  }

  /** The name is the trimmed one of the first contact of the sender whose name is not blank. */
  lemma ContactNames(contacts: seq<Json>, from: string, id: string, name: string)
    ensures ProfileName([], from) == None
    ensures ProfileName([Contact(id, name)] + contacts, from)
         == if id == from && !IsBlank(name) then Some(Texts.Trim(name)) else ProfileName(contacts, from)
  {
    assert ([Contact(id, name)] + contacts)[1..] == contacts;
  }

  // ---- Evolution ----

  function ExtractText(content: Json): Option<string> {
    var plain, extended := Field(content, "conversation"), FieldOf(Field(content, "extendedTextMessage"), "text");
    if IsStr(plain) && !IsBlank(plain.value.s) then Some(plain.value.s)
    else if IsStr(extended) && !IsBlank(extended.value.s) then Some(extended.value.s)
    else None
  }

  predicate IsGroup(jid: string) { |jid| >= 5 && jid[|jid| - 5..] == "@g.us" }

  /** `??` on two optional values. */
  function OrElse(a: Option<Json>, b: Option<Json>): Option<Json> { if a.Some? && !a.value.Null? then a else b }

  function RecordOf(v: Option<Json>): Json { Obj(AsRecord(v)) }

  /** Whether the message key is on the data itself (the flat shape) or one level down. */
  predicate IsFlat(data: Json) { Field(RecordOf(Field(data, "key")), "remoteJid").Some? }

  function KeyOfMessage(data: Json): Json {
    if IsFlat(data) then RecordOf(Field(data, "key")) else RecordOf(Field(RecordOf(Field(data, "message")), "key"))
  }

  function ContentOf(data: Json): Json {
    var inner := RecordOf(Field(data, "message"));
    if IsFlat(data) then inner else RecordOf(Field(inner, "message"))
  }

  /** The body of `verifyAndParseWebhook` once the delivery is authentic, new and for this instance. */
  function ParseData(data: Json): seq<Inbound> {
    var key, content := KeyOfMessage(data), ContentOf(data);
    var jid, id, text := Field(key, "remoteJid"), Field(key, "id"), ExtractText(content);
    var name := OrElse(Field(data, "pushName"), Field(RecordOf(Field(data, "message")), "pushName"));
    if Field(key, "fromMe") == Some(Bool(true)) || !IsStr(jid) || !IsStr(id) || IsGroup(jid.value.s)
       || text.None? then []
    else [Inbound(Phone.NormalizePhone(jid.value.s), text.value, id.value.s,
                  if IsStr(name) && !IsBlank(name.value.s) then Some(Texts.Trim(name.value.s)) else None)]
  }

  /** None is a refused delivery. */
  function ParseEvolution(authentic: bool, root: Json, instance: string): Option<seq<Inbound>> {
    var named := Field(root, "instance");
    if !authentic then None
    else if Field(root, "event") != Some(Str("messages.upsert")) then Some([])
    else if IsStr(named) && named.value.s != instance then None
    else Some(ParseData(RecordOf(Field(root, "data"))))
  }

  function Flat(key: Json, content: Json, pushName: Json): Json {
    Obj(map["key" := key, "message" := content, "pushName" := pushName])
  }

  function Nested(key: Json, content: Json, pushName: Json): Json {
    Obj(map["message" := Flat(key, content, pushName)])
  }

  predicate NamesSender(name: Option<Json>) { IsStr(name) && !IsBlank(name.value.s) }

  /** The two shapes of one message parse to the same result, except when the event carries no name and
      the flat shape's content has one of its own to fall back on: then only the flat message, if there
      is a message at all, gets that name. */
  lemma ShapesAgree(key: map<string, Json>, content: map<string, Json>, pushName: Json)
    requires "remoteJid" in key
    ensures var flat, nested := Flat(Obj(key), Obj(content), pushName), Nested(Obj(key), Obj(content), pushName);
      ParseData(flat) == ParseData(nested) <==>
        !(pushName.Null? && NamesSender(Field(Obj(content), "pushName")) && ParseData(flat) != [])
  {
    hide ExtractText, IsBlank, IsGroup;
    var flat, nested := Flat(Obj(key), Obj(content), pushName), Nested(Obj(key), Obj(content), pushName);
    assert KeyOfMessage(flat) == Obj(key) == KeyOfMessage(nested);
    assert ContentOf(flat) == Obj(content) == ContentOf(nested);
    if ParseData(flat) != [] && ParseData(nested) != [] {
      assert ParseData(flat) == ParseData(nested) <==> ParseData(flat)[0].pushName == ParseData(nested)[0].pushName;
    }
  }

  /** No message the store sent itself and no group message is ever returned, in any shape: whatever is
      returned came from a one-to-one chat whose key does not say it is our own. */
  lemma NeverOwnNeverGroup(authentic: bool, root: Json, instance: string)
    requires ParseEvolution(authentic, root, instance).Some? && ParseEvolution(authentic, root, instance).value != []
    ensures var key := KeyOfMessage(RecordOf(Field(root, "data")));
      var jid := Field(key, "remoteJid");
      && authentic && |ParseEvolution(authentic, root, instance).value| == 1
      && Field(key, "fromMe") != Some(Bool(true))
      && IsStr(jid) && !IsGroup(jid.value.s)
      && ParseEvolution(authentic, root, instance).value[0].from == Phone.NormalizePhone(jid.value.s)
  {
  }

  // ---- What an Evolution event says is what is returned ----

  /** One message as Evolution reports it: a plain text, the text of one with a link, or both. */
  datatype Chat = Chat(jid: string, id: string, own: bool, plain: string, extended: string, name: string)

  function ChatKey(m: Chat): Json { Obj(map["remoteJid" := Str(m.jid), "id" := Str(m.id), "fromMe" := Bool(m.own)]) }

  function ChatContent(m: Chat): Json {
    Obj(map["conversation" := Str(m.plain), "extendedTextMessage" := Obj(map["text" := Str(m.extended)])])
  }

  function ChatEvent(event: string, instance: string, nested: bool, m: Chat): Json {
    var data := if nested then Nested(ChatKey(m), ChatContent(m), Str(m.name))
                else Flat(ChatKey(m), ChatContent(m), Str(m.name));
    Obj(map["event" := Str(event), "instance" := Str(instance), "data" := data])
  }

  /** The store's own messages, group chats and messages without text are not answered. */
  ghost predicate Answerable(m: Chat) {
    && !m.own && !(exists group: string :: m.jid == group + "@g.us")
    && (!IsBlank(m.plain) || !IsBlank(m.extended))
  }

  lemma GroupSuffix(jid: string)
    ensures IsGroup(jid) <==> exists group: string :: jid == group + "@g.us"
  {
    if IsGroup(jid) {
      assert jid == jid[..|jid| - 5] + "@g.us";
    }
  }

  lemma ChatData(nested: bool, m: Chat)
    ensures var data := if nested then Nested(ChatKey(m), ChatContent(m), Str(m.name))
                        else Flat(ChatKey(m), ChatContent(m), Str(m.name));
      && KeyOfMessage(data) == ChatKey(m) && ContentOf(data) == ChatContent(m)
      && OrElse(Field(data, "pushName"), Field(RecordOf(Field(data, "message")), "pushName")) == Some(Str(m.name))
  {
  }

  /** An event of either shape is refused unless it is authentic and, being a new message, for this instance;
      a new message comes back as it was sent: the sender's digits, the plain text if there is one and
      otherwise the linked one, the id and the trimmed name. */
  lemma EvolutionRoundTrip(authentic: bool, event: string, instance: string, nested: bool, m: Chat, mine: string)
    ensures ParseEvolution(authentic, ChatEvent(event, instance, nested, m), mine) ==
      if !authentic || (event == "messages.upsert" && instance != mine) then None
      else if event == "messages.upsert" && Answerable(m)
      then Some([Inbound(Phone.NormalizePhone(m.jid), if IsBlank(m.plain) then m.extended else m.plain, m.id,
                         if IsBlank(m.name) then None else Some(Texts.Trim(m.name)))])
      else Some([])
  {
    hide IsBlank, IsGroup, Phone.NormalizePhone, KeyOfMessage, ContentOf, Texts.Trim;
    ChatData(nested, m);
    GroupSuffix(m.jid);
    assert ExtractText(ChatContent(m))
        == if !IsBlank(m.plain) then Some(m.plain) else if !IsBlank(m.extended) then Some(m.extended) else None;
  }
}
