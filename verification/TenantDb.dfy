/** The tenant-scoped database client of packages/db: argument rewriting, the row-level-security policy
    and the per-transaction role and setting, over one connection pool shared by every tenant and by the
    platform's own unscoped queries. */
module TenantDb {
  import opened Options

  type Tenant = nat
  type Fields = map<string, int>

  datatype Key = Key(model: string, id: string)
  /** `unique` holds the row's values in globally unique columns other than the key, such as an order's
      reference or a shop's domain. */
  datatype Row = Row(tenant: Option<Tenant>, fields: Fields, unique: set<string>)
  type Db = map<Key, Row>

  /** A row to create, with the rows nested in its relation fields; `tenant` is the `tenantId` given. */
  datatype Item = Item(key: Key, tenant: Option<Tenant>, fields: Fields, unique: set<string>, nested: seq<Item>)

  /** The assignments of an update and the rows its relation fields create. */
  datatype Change = Change(tenant: Option<Tenant>, fields: Fields, unique: Option<set<string>>, nested: seq<Item>)

  datatype Where =
    | Everything
    | TenantIs(tenant: Tenant)
    | FieldIs(name: string, value: int)
    | And(left: Where, right: Where)
    | Or(left: Where, right: Where)
    | Not(operand: Where)

  datatype Request =
    | FindMany(model: string, where: Where)
    | FindUnique(key: Key, also: Where)
    | Create(item: Item)
    | CreateMany(items: seq<Item>)
    | UpdateMany(model: string, where: Where, change: Change)
    | UpdateManyReturning(model: string, where: Where, change: Change)
    | Update(key: Key, also: Where, change: Change)
    | DeleteMany(model: string, where: Where)
    | Delete(key: Key, also: Where)
    | Upsert(key: Key, also: Where, item: Item, change: Change)

  datatype Scoped = Scoped(request: Request) | CrossTenant

  /** Rows a statement gave back, or a failure that changed nothing. */
  datatype Outcome = Rows(found: Db) | Failed

  datatype Role = OwnerRole | AppRole
  datatype Session = Session(role: Role, guc: Option<Tenant>)

  // ---- Argument rewriting ----

  predicate Foreign(given: Option<Tenant>, t: Tenant) { given.Some? && given.value != t }

  /** `guardData` on one record: its own tenantId only, whatever is nested inside. */
  function GuardItem(item: Item, t: Tenant): Item { item.(tenant := Some(t)) }

  function ScopeWhere(where: Where, t: Tenant): Where { And(TenantIs(t), where) }

  /** `scopeArgs` */
  function Scope(r: Request, t: Tenant): Scoped {
    match r
    case FindMany(model, where) => Scoped(FindMany(model, ScopeWhere(where, t)))
    case FindUnique(_, _) => Scoped(r)
    case Create(item) => if Foreign(item.tenant, t) then CrossTenant else Scoped(Create(GuardItem(item, t)))
    case CreateMany(items) =>
      if exists i :: 0 <= i < |items| && Foreign(items[i].tenant, t) then CrossTenant
      else Scoped(CreateMany(seq(|items|, i requires 0 <= i < |items| => GuardItem(items[i], t))))
    case UpdateMany(model, where, change) =>
      if Foreign(change.tenant, t) then CrossTenant else Scoped(UpdateMany(model, ScopeWhere(where, t), change))
    case UpdateManyReturning(model, where, change) => Scoped(UpdateManyReturning(model, ScopeWhere(where, t), change))
    case Update(_, _, change) => if Foreign(change.tenant, t) then CrossTenant else Scoped(r)
    case DeleteMany(model, where) => Scoped(DeleteMany(model, ScopeWhere(where, t)))
    case Delete(_, _) => Scoped(r)
    case Upsert(key, also, item, change) =>
      if Foreign(item.tenant, t) || Foreign(change.tenant, t) then CrossTenant
      else Scoped(Upsert(key, also, GuardItem(item, t), change))
  }

  // ---- The database ----

  /** The tenant_isolation policy; the owner of the tables is not subject to it. */
  predicate Permits(s: Session, r: Row) {
    s.role == OwnerRole || (s.guc.Some? && r.tenant == s.guc)
  }

  predicate Matches(w: Where, r: Row) {
    match w
    case Everything => true
    case TenantIs(t) => r.tenant == Some(t)
    case FieldIs(name, value) => name in r.fields && r.fields[name] == value
    case And(a, b) => Matches(a, r) && Matches(b, r)
    case Or(a, b) => Matches(a, r) || Matches(b, r)
    case Not(a) => !Matches(a, r)
  }

  predicate Selects(s: Session, model: string, w: Where, k: Key, r: Row) {
    k.model == model && Permits(s, r) && Matches(w, r)
  }

  function RowOf(item: Item): Row { Row(item.tenant, item.fields, item.unique) }

  /** Another row of the model, of whatever tenant, holds one of the unique values. */
  predicate Taken(db: Db, key: Key, unique: set<string>) {
    exists k :: k in db && k != key && k.model == key.model && db[k].unique * unique != {}
  }

  /** The records of nested creates, in the order they are inserted. */
  function Flatten(items: seq<Item>): seq<Item> {
    if items == [] then [] else [items[0]] + Flatten(items[0].nested) + Flatten(items[1..])
  }

  /** INSERT, one record after the other: a taken key, a taken unique
      value or a row outside the policy fails the statement. */
  function Insert(s: Session, db: Db, records: seq<Item>): Option<Db>
    decreases |records|
  {
    if records == [] then Some(db)
    else if records[0].key in db || Taken(db, records[0].key, records[0].unique) then None
    else if !Permits(s, RowOf(records[0])) then None
    else Insert(s, db[records[0].key := RowOf(records[0])], records[1..])
  }

  function Changed(r: Row, c: Change): Row {
    Row(if c.tenant.Some? then c.tenant else r.tenant, r.fields + c.fields,
        if c.unique.Some? then c.unique.value else r.unique)
  }

  function Found(s: Session, db: Db, model: string, w: Where): Db {
    map k | k in db && Selects(s, model, w, k, db[k]) :: db[k]
  }

  function UpdatedRows(s: Session, db: Db, model: string, w: Where, c: Change): Db {
    map k | k in db :: if Selects(s, model, w, k, db[k]) then Changed(db[k], c) else db[k]
  }

  function InsertThen(s: Session, db: Db, before: Db, records: seq<Item>, found: Db): (Db, Outcome) {
    match Insert(s, db, records)
    case None => (before, Failed)
    case Some(after) => (after, Rows(found))
  }

  /** UPDATE of one row found by its unique key, then the rows nested in the update. */
  function UpdateRow(s: Session, db: Db, key: Key, c: Change): (Db, Outcome)
    requires key in db
  {
    var r := Changed(db[key], c);
    if !Permits(s, r) || (c.unique.Some? && Taken(db, key, c.unique.value)) then (db, Failed)
    else InsertThen(s, db[key := r], db, Flatten(c.nested), map[key := r])
  }

  function UpdateAll(s: Session, db: Db, model: string, w: Where, c: Change): (Db, Outcome) {
    var after := UpdatedRows(s, db, model, w, c);
    if exists k :: k in db && Selects(s, model, w, k, db[k]) && !Permits(s, Changed(db[k], c)) then (db, Failed)
    else if c.unique.Some?
            && exists k :: k in db && Selects(s, model, w, k, db[k]) && Taken(after, k, c.unique.value) then
      (db, Failed)
    else (after, Rows(map k | k in db && Selects(s, model, w, k, db[k]) :: Changed(db[k], c)))
  }

  function Execute(s: Session, db: Db, r: Request): (Db, Outcome) {
    match r
    case FindMany(model, where) => (db, Rows(Found(s, db, model, where)))
    case FindUnique(key, also) =>
      (db, Rows(if key in db && Selects(s, key.model, also, key, db[key]) then map[key := db[key]] else map[]))
    case Create(item) => InsertThen(s, db, db, Flatten([item]), map[item.key := RowOf(item)])
    case CreateMany(items) => InsertThen(s, db, db, Flatten(items), map[])
    case UpdateMany(model, where, change) =>
      var (after, outcome) := UpdateAll(s, db, model, where, change);
      (after, if outcome.Rows? then Rows(map[]) else Failed)
    case UpdateManyReturning(model, where, change) => UpdateAll(s, db, model, where, change)
    case Update(key, also, change) =>
      if key in db && Selects(s, key.model, also, key, db[key]) then UpdateRow(s, db, key, change) else (db, Failed)
    case DeleteMany(model, where) => (map k | k in db && !Selects(s, model, where, k, db[k]) :: db[k], Rows(map[]))
    case Delete(key, also) =>
      if key in db && Selects(s, key.model, also, key, db[key]) then (db - {key}, Rows(map[key := db[key]]))
      else (db, Failed)
    case Upsert(key, also, item, change) =>
      if key in db && Selects(s, key.model, also, key, db[key]) then UpdateRow(s, db, key, change)
      else InsertThen(s, db, db, Flatten([item]), map[item.key := RowOf(item)])
  }

  // ---- What isolation means ----

  predicate OwnedBy(db: Db, k: Key, t: Tenant) { k in db && db[k].tenant == Some(t) }

  predicate OthersUnchanged(was: Db, now: Db, t: Tenant) {
    && (forall k :: k in was && was[k].tenant != Some(t) ==> k in now && now[k] == was[k])
    && (forall k :: k in now && now[k].tenant != Some(t) ==> k in was && was[k] == now[k])
  }

  predicate OnlyOwn(o: Outcome, t: Tenant) {
    o.Rows? ==> forall k :: k in o.found ==> o.found[k].tenant == Some(t)
  }

  predicate Isolated(s: Session, db: Db, r: Request, t: Tenant) {
    OthersUnchanged(db, Execute(s, db, r).0, t) && OnlyOwn(Execute(s, db, r).1, t)
  }

  function AppSession(t: Tenant): Session { Session(AppRole, Some(t)) }

  lemma OthersTransitive(a: Db, b: Db, c: Db, t: Tenant)
    requires OthersUnchanged(a, b, t) && OthersUnchanged(b, c, t)
    ensures OthersUnchanged(a, c, t)
  {
  }

  /** Inserting rows that all belong to `t` leaves the others alone. */
  lemma {:induction false} InsertIsOwn(s: Session, db: Db, records: seq<Item>, t: Tenant)
    requires s == AppSession(t) || forall i :: 0 <= i < |records| ==> records[i].tenant == Some(t)
    ensures Insert(s, db, records).Some? ==> OthersUnchanged(db, Insert(s, db, records).value, t)
    decreases |records|
  {
    if records != [] && records[0].key !in db && !Taken(db, records[0].key, records[0].unique)
       && Permits(s, RowOf(records[0])) {
      var next := db[records[0].key := RowOf(records[0])];
      assert OthersUnchanged(db, next, t);
      InsertIsOwn(s, next, records[1..], t);
      if Insert(s, next, records[1..]).Some? {
        OthersTransitive(db, next, Insert(s, next, records[1..]).value, t);
      }
    }
  }

  /** The policy alone isolates: whatever an application session of tenant `t` asks for, scoped or not,
      nested or not, it gets back only rows of `t` and leaves every other row as it was. */
  lemma PolicyIsolates(db: Db, r: Request, t: Tenant)
    ensures Isolated(AppSession(t), db, r, t)
  {
    var s := AppSession(t);
    match r
    case FindMany(model, where) =>
    case FindUnique(key, also) =>
    case Create(item) => CreateIsolated(db, item, t);
    case CreateMany(items) => InsertIsOwn(s, db, Flatten(items), t);
    case UpdateMany(model, where, change) => UpdateAllIsolated(db, model, where, change, t);
    case UpdateManyReturning(model, where, change) => UpdateAllIsolated(db, model, where, change, t);
    case Update(key, also, change) => UpdateIsolated(db, key, also, change, t);
    case DeleteMany(model, where) =>
    case Delete(key, also) =>
    case Upsert(key, also, item, change) =>
      if key in db && Selects(s, key.model, also, key, db[key]) {
        UpdateIsolated(db, key, also, change, t);
      } else {
        CreateIsolated(db, item, t);
      }
  }

  lemma CreateIsolated(db: Db, item: Item, t: Tenant)
    ensures Isolated(AppSession(t), db, Create(item), t)
  {
    InsertIsOwn(AppSession(t), db, Flatten([item]), t);
    assert Flatten([item])[0] == item;
  }

  lemma UpdateAllIsolated(db: Db, model: string, w: Where, c: Change, t: Tenant)
    ensures Isolated(AppSession(t), db, UpdateManyReturning(model, w, c), t)
  {
  }

  lemma UpdateIsolated(db: Db, key: Key, also: Where, c: Change, t: Tenant)
    ensures Isolated(AppSession(t), db, Update(key, also, c), t)
  {
    var s := AppSession(t);
    if key in db && Selects(s, key.model, also, key, db[key]) && Execute(s, db, Update(key, also, c)).1.Rows? {
      var next := db[key := Changed(db[key], c)];
      assert OthersUnchanged(db, next, t);
      InsertIsOwn(s, next, Flatten(c.nested), t);
      if Insert(s, next, Flatten(c.nested)).Some? {
        OthersTransitive(db, next, Insert(s, next, Flatten(c.nested)).value, t);
      }
    }
  }

  // ---- What the argument rewriting does on its own ----

  const OWNER: Session := Session(OwnerRole, None)

  /** Every record nested anywhere below the request's own records names tenant `t`. */
  predicate NestedOwn(items: seq<Item>, t: Tenant) {
    forall i :: 0 <= i < |items| ==> AllOwn(Flatten(items[i].nested), t)
  }

  predicate AllOwn(records: seq<Item>, t: Tenant) { forall i :: 0 <= i < |records| ==> records[i].tenant == Some(t) }

  lemma {:induction false} FlattenOwn(items: seq<Item>, t: Tenant)
    requires AllOwn(items, t) && NestedOwn(items, t)
    ensures AllOwn(Flatten(items), t)
    decreases |items|
  {
    if items != [] {
      FlattenOwn(items[1..], t);
      assert AllOwn(Flatten(items[0].nested), t);
    }
  }

  /** The operations whose arguments `scopeArgs` fully controls. */
  predicate FullyRewritten(r: Request, t: Tenant) {
    match r
    case FindMany(_, _) => true
    case DeleteMany(_, _) => true
    case UpdateMany(_, _, _) => true
    case Create(item) => NestedOwn([item], t)
    case CreateMany(items) => NestedOwn(items, t)
    case _ => false
  }

  lemma ScopedMatches(w: Where, t: Tenant)
    ensures forall r :: Matches(ScopeWhere(w, t), r) <==> r.tenant == Some(t) && Matches(w, r)
  {
    forall r ensures Matches(TenantIs(t), r) <==> r.tenant == Some(t) {
    }
  }

  /** Without any policy, on the owner's connection, the rewriting by itself isolates every operation
      outside the unique-where ones, as long as no nested record names another tenant. */
  lemma RewritingAlone(db: Db, r: Request, t: Tenant)
    requires Scope(r, t).Scoped? && FullyRewritten(r, t)
    ensures Isolated(OWNER, db, Scope(r, t).request, t)
  {
    match r
    case FindMany(model, where) => ScopedMatches(where, t);
    case DeleteMany(model, where) => ScopedMatches(where, t);
    case UpdateMany(model, where, change) => ScopedMatches(where, t);
    case Create(item) =>
      var records := [GuardItem(item, t)];
      assert NestedOwn(records, t) by { assert [item][0].nested == records[0].nested; }
      FlattenOwn(records, t);
      InsertIsOwn(OWNER, db, Flatten(records), t);
    case CreateMany(items) =>
      var records := seq(|items|, i requires 0 <= i < |items| => GuardItem(items[i], t));
      FlattenOwn(records, t);
      InsertIsOwn(OWNER, db, Flatten(records), t);
  }

  lemma {:induction false} InsertedRows(s: Session, db: Db, records: seq<Item>, i: nat)
    requires Insert(s, db, records).Some? && i < |records|
    ensures var after := Insert(s, db, records).value;
      records[i].key !in db && records[i].key in after && after[records[i].key] == RowOf(records[i])
    ensures forall k :: k in db ==> k in Insert(s, db, records).value && Insert(s, db, records).value[k] == db[k]
    decreases |records|
  {
    var next := db[records[0].key := RowOf(records[0])];
    if i > 0 {
      InsertedRows(s, next, records[1..], i - 1);
    } else if |records| > 1 {
      InsertedRows(s, next, records[1..], 0);
    }
  }

  lemma FlattenOne(item: Item)
    ensures Flatten([item]) == [item] + Flatten(item.nested)
  {
    assert [item][0] == item && [item][1..] == [] && Flatten([]) == [];
  }

  /** Without the policy, an insert that goes through is isolated exactly when all its records are own. */
  lemma InsertAlone(db: Db, records: seq<Item>, t: Tenant)
    requires Insert(OWNER, db, records).Some?
    ensures OthersUnchanged(db, Insert(OWNER, db, records).value, t) <==> AllOwn(records, t)
  {
    if AllOwn(records, t) {
      InsertIsOwn(OWNER, db, records, t);
    } else {
      var i :| 0 <= i < |records| && records[i].tenant != Some(t);
      InsertedRows(OWNER, db, records, i);
    }
  }

  /** A nested record is where a create can escape: one that goes through on the owner's connection is
      isolated if and only if every record below it names the tenant too. */
  lemma NestedCreateAlone(db: Db, item: Item, t: Tenant)
    requires Scope(Create(item), t).Scoped? && Execute(OWNER, db, Create(GuardItem(item, t))).1.Rows?
    ensures Isolated(OWNER, db, Create(GuardItem(item, t)), t) <==> NestedOwn([item], t)
  {
    hide Flatten, Insert, OthersUnchanged;
    var guarded := GuardItem(item, t);
    FlattenOne(guarded);
    InsertAlone(db, Flatten([guarded]), t);
    var records, nested := Flatten([guarded]), Flatten(item.nested);
    assert AllOwn(records, t) <==> AllOwn(nested, t) by {
      assert forall i :: 0 <= i < |nested| ==> records[i + 1] == nested[i];
      assert forall i :: 1 <= i < |records| ==> records[i] == nested[i - 1];
    }
    assert NestedOwn([item], t) <==> AllOwn(nested, t) by { assert [item][0] == item; }
  }

  /** The returning form of updateMany is not in the guarded list: without the policy it is isolated if
      and only if it hands no row of the tenant over to another one. */
  lemma UpdateManyReturningAlone(db: Db, model: string, w: Where, c: Change, t: Tenant)
    ensures var r := Scope(UpdateManyReturning(model, w, c), t).request;
      Isolated(OWNER, db, r, t) <==> Execute(OWNER, db, r).1.Failed? || !HandsOver(db, model, w, c, t)
  {
    var r := Scope(UpdateManyReturning(model, w, c), t).request;
    ScopedMatches(w, t);
    if Execute(OWNER, db, r).1.Rows? {
      UpdateAllAlone(db, model, ScopeWhere(w, t), c, t);
      assert HandsOver(db, model, w, c, t) <==> HandsOver(db, model, ScopeWhere(w, t), c, t);
    }
  }

  /** Some row of the tenant is selected and given to another one. */
  predicate HandsOver(db: Db, model: string, w: Where, c: Change, t: Tenant) {
    Foreign(c.tenant, t) && exists k :: k in db && k.model == model && db[k].tenant == Some(t) && Matches(w, db[k])
  }

  lemma UpdateAllAlone(db: Db, model: string, w: Where, c: Change, t: Tenant)
    requires UpdateAll(OWNER, db, model, w, c).1.Rows? && forall r :: Matches(w, r) ==> r.tenant == Some(t)
    ensures OthersUnchanged(db, UpdateAll(OWNER, db, model, w, c).0, t)
      && OnlyOwn(UpdateAll(OWNER, db, model, w, c).1, t)
      <==> !HandsOver(db, model, w, c, t)
  {
    hide Taken;
    if HandsOver(db, model, w, c, t) {
      var k :| k in db && k.model == model && db[k].tenant == Some(t) && Matches(w, db[k]);
      assert UpdateAll(OWNER, db, model, w, c).0[k] == Changed(db[k], c);
    }
  }

  /** A unique-where operation is left to the policy: without it, a delete is isolated if and only if
      the key does not find another tenant's row. */
  lemma UniqueDeleteAlone(db: Db, key: Key, also: Where, t: Tenant)
    requires Scope(Delete(key, also), t) == Scoped(Delete(key, also))
    ensures Isolated(OWNER, db, Delete(key, also), t)
      <==> !(key in db && Matches(also, db[key]) && db[key].tenant != Some(t))
  {
    if key in db && Matches(also, db[key]) {
      assert key !in Execute(OWNER, db, Delete(key, also)).0;
    }
  }

  /** The same for a unique read. */
  lemma UniqueReadAlone(db: Db, key: Key, also: Where, t: Tenant)
    ensures Isolated(OWNER, db, Scope(FindUnique(key, also), t).request, t)
      <==> !(key in db && Matches(also, db[key]) && db[key].tenant != Some(t))
  {
    if key in db && Matches(also, db[key]) {
      assert map[key := db[key]][key] == db[key];
    }
  }

  /** The row is the tenant's and so is every record nested in the update. */
  predicate OwnUpdate(db: Db, key: Key, c: Change, t: Tenant) {
    OwnedBy(db, key, t) && AllOwn(Flatten(c.nested), t)
  }

  /** An update, nested writes and all: the guard on its data keeps it from handing the row over, so one
      that goes through is isolated if and only if the key found an own row and every record it creates
      on the way names the tenant. One that fails changes nothing. */
  lemma UniqueUpdateAlone(db: Db, key: Key, also: Where, c: Change, t: Tenant)
    requires Scope(Update(key, also, c), t).Scoped?
    ensures Isolated(OWNER, db, Scope(Update(key, also, c), t).request, t)
      <==> Execute(OWNER, db, Update(key, also, c)).1.Failed? || OwnUpdate(db, key, c, t)
  {
    if Execute(OWNER, db, Update(key, also, c)).1.Rows? {
      RowUpdateAlone(db, key, c, t);
    }
  }

  /** Without the policy, an update of a row that goes through leaves the others alone exactly when the row
      and its nested records are the tenant's own. */
  lemma RowUpdateAlone(db: Db, key: Key, c: Change, t: Tenant)
    requires key in db && UpdateRow(OWNER, db, key, c).1.Rows? && !Foreign(c.tenant, t)
    ensures OthersUnchanged(db, UpdateRow(OWNER, db, key, c).0, t) && OnlyOwn(UpdateRow(OWNER, db, key, c).1, t)
      <==> OwnUpdate(db, key, c, t)
  {
    var next, records := db[key := Changed(db[key], c)], Flatten(c.nested);
    var after := Insert(OWNER, next, records).value;
    InsertedKeeps(OWNER, next, records);
    assert after[key] == Changed(db[key], c);
    if OwnUpdate(db, key, c, t) {
      InsertIsOwn(OWNER, next, records, t);
      OthersTransitive(db, next, after, t);
    } else if !OwnedBy(db, key, t) {
      ForeignRowMoves(db, after, key, c, t);
    } else {
      var i :| 0 <= i < |records| && records[i].tenant != Some(t);
      InsertedRows(OWNER, next, records, i);
      assert records[i].key !in db;
    }
  }

  lemma ForeignRowMoves(db: Db, after: Db, key: Key, c: Change, t: Tenant)
    requires key in db && key in after && after[key] == Changed(db[key], c) && !OwnedBy(db, key, t)
    ensures !OthersUnchanged(db, after, t) || !OnlyOwn(Rows(map[key := Changed(db[key], c)]), t)
  {
    var found := map[key := Changed(db[key], c)];
    if found[key].tenant == Some(t) {
      assert after[key] != db[key];
    } else {
      assert key in found;
    }
  }

  lemma {:induction false} InsertedKeeps(s: Session, db: Db, records: seq<Item>)
    requires Insert(s, db, records).Some?
    ensures forall k :: k in db ==> k in Insert(s, db, records).value && Insert(s, db, records).value[k] == db[k]
    decreases |records|
  {
    if records != [] {
      InsertedKeeps(s, db[records[0].key := RowOf(records[0])], records[1..]);
    }
  }

  /** An upsert is one or the other: where the key finds a row it is judged as an update of it, and
      otherwise as a create of the guarded record. */
  lemma UpsertAlone(db: Db, key: Key, also: Where, item: Item, c: Change, t: Tenant)
    requires Scope(Upsert(key, also, item, c), t).Scoped?
    ensures var r := Scope(Upsert(key, also, item, c), t).request;
      Isolated(OWNER, db, r, t) <==>
        Execute(OWNER, db, r).1.Failed?
        || (if key in db && Matches(also, db[key]) then OwnUpdate(db, key, c, t) else NestedOwn([item], t))
  {
    var guarded := GuardItem(item, t);
    var r := Upsert(key, also, guarded, c);
    if Execute(OWNER, db, r).1.Rows? {
      if key in db && Matches(also, db[key]) {
        RowUpdateAlone(db, key, c, t);
      } else {
        assert Execute(OWNER, db, r) == Execute(OWNER, db, Create(guarded));
        NestedCreateAlone(db, item, t);
      }
    }
  }

  // ---- The connection pool ----

  /** A connection inside a tenant transaction, between its three statements. */
  datatype Stage = Begun | RoleSet | SettingSet | Queried

  datatype Work = Work(tenant: Tenant, request: Request, stage: Stage)

  /** A pooled connection: its role and setting, and the transaction on it, if any. `SET LOCAL` and a
      transaction-local setting end with the transaction. */
  datatype Connection = Connection(session: Session, work: Option<Work>)

  datatype Executed = ByTenant(tenant: Tenant, request: Request, before: Db, after: Db, outcome: Outcome)
                    | ByPlatform(session: Session)

  datatype Pool = Pool(db: Db, connections: map<nat, Connection>, history: seq<Executed>)

  datatype PoolStep =
    | Begin(c: nat, tenant: Tenant, request: Request)
    | SetRole(c: nat)
    | SetTenant(c: nat)
    | Query(c: nat)
    | End(c: nat)
    | Platform(c: nat, db: Db)

  function Put(p: Pool, c: nat, session: Session, work: Option<Work>): Pool {
    p.(connections := p.connections[c := Connection(session, work)])
  }

  /** One statement. `End` is the commit, or a rollback at any earlier point; `Platform` is a query of
      the unscoped client, which may leave the database in any state it likes. */
  function StepPool(p: Pool, step: PoolStep): Pool {
    if step.c !in p.connections then p
    else
      var session, work := p.connections[step.c].session, p.connections[step.c].work;
      match step
      case Begin(c, tenant, request) =>
        if work.None? && Scope(request, tenant).Scoped? then
          Put(p, c, session, Some(Work(tenant, Scope(request, tenant).request, Begun)))
        else p
      case SetRole(c) =>
        if work.Some? && work.value.stage == Begun then
          Put(p, c, session.(role := AppRole), Some(work.value.(stage := RoleSet)))
        else p
      case SetTenant(c) =>
        if work.Some? && work.value.stage == RoleSet then
          Put(p, c, session.(guc := Some(work.value.tenant)), Some(work.value.(stage := SettingSet)))
        else p
      case Query(c) =>
        if work.Some? && work.value.stage == SettingSet then
          var (after, outcome) := Execute(session, p.db, work.value.request);
          Put(p, c, session, Some(work.value.(stage := Queried))).(
            db := after, history := p.history + [ByTenant(work.value.tenant, work.value.request, p.db, after, outcome)])
        else p
      case End(c) => if work.Some? then Put(p, c, OWNER, None) else p
      case Platform(c, db) => if work.None? then p.(db := db, history := p.history + [ByPlatform(session)]) else p
  }

  function RunPool(p: Pool, steps: seq<PoolStep>): Pool
    decreases |steps|
  {
    if steps == [] then p else RunPool(StepPool(p, steps[0]), steps[1..])
  }

  /** An idle connection is the owner's with no tenant set; a query's connection is its own tenant's. */
  predicate CleanConnection(n: Connection) {
    match n.work
    case None => n.session == OWNER
    case Some(w) =>
      (w.stage == RoleSet ==> n.session.role == AppRole)
      && (w.stage in {SettingSet, Queried} ==> n.session == AppSession(w.tenant))
  }

  predicate IsolatedEntry(e: Executed) {
    match e
    case ByTenant(t, r, before, after, outcome) =>
      OthersUnchanged(before, after, t) && OnlyOwn(outcome, t) && (after, outcome) == Execute(AppSession(t), before, r)
    case ByPlatform(session) => session == OWNER
  }

  ghost predicate PoolInv(p: Pool) {
    && (forall c :: c in p.connections ==> CleanConnection(p.connections[c]))
    && (forall i :: 0 <= i < |p.history| ==> IsolatedEntry(p.history[i]))
  }

  lemma StepKeepsPoolInv(p: Pool, step: PoolStep)
    requires PoolInv(p)
    ensures PoolInv(StepPool(p, step))
  {
    hide Execute, OthersUnchanged, OnlyOwn;
    if step.Query? && step.c in p.connections && p.connections[step.c].work.Some? {
      PolicyIsolates(p.db, p.connections[step.c].work.value.request, p.connections[step.c].work.value.tenant);
    }
  }

  /** Over every interleaving of tenants on one pool, with transactions that commit or break off
      anywhere and platform queries in between: each tenant query ran under its own tenant's session,
      returned only that tenant's rows and changed no other row, and no role or setting ever reached
      a later transaction or a platform query on the connection. */
  lemma {:induction false} PoolIsolation(p: Pool, steps: seq<PoolStep>)
    requires PoolInv(p)
    ensures PoolInv(RunPool(p, steps))
    decreases |steps|
  {
    if steps != [] {
      StepKeepsPoolInv(p, steps[0]);
      PoolIsolation(StepPool(p, steps[0]), steps[1..]);
    }
  }

  // ---- Non-interference ----

  /** Tenant `t` cannot tell the two databases apart by its own rows. */
  ghost predicate LooksSame(a: Db, b: Db, t: Tenant) {
    forall k :: OwnedBy(a, k, t) || OwnedBy(b, k, t) ==> k in a && k in b && a[k] == b[k]
  }

  /** Which tenant each key, and each value of a globally unique column of a model, belongs to. */
  datatype Homes = Homes(key: Key -> Tenant, value: (string, string) -> Tenant)

  ghost predicate AtHome(k: Key, unique: set<string>, home: Homes, t: Tenant) {
    home.key(k) == t && forall v :: v in unique ==> home.value(k.model, v) == t
  }

  /** Every row belongs to the tenant its key and its unique values belong to. */
  ghost predicate Aligned(db: Db, home: Homes) {
    forall k :: k in db ==> db[k].tenant == Some(home.key(k)) && AtHome(k, db[k].unique, home, home.key(k))
  }

  ghost predicate KeysOf(records: seq<Item>, home: Homes, t: Tenant) {
    forall i :: 0 <= i < |records| ==> AtHome(records[i].key, records[i].unique, home, t)
  }

  ghost predicate ValuesOf(model: string, c: Change, home: Homes, t: Tenant) {
    c.unique.Some? ==> forall v :: v in c.unique.value ==> home.value(model, v) == t
  }

  /** The keys and unique values a request may write belong to its tenant. */
  ghost predicate CreatesOwnKeys(r: Request, home: Homes, t: Tenant) {
    match r
    case Create(item) => KeysOf(Flatten([item]), home, t)
    case CreateMany(items) => KeysOf(Flatten(items), home, t)
    case UpdateMany(model, _, change) => ValuesOf(model, change, home, t)
    case UpdateManyReturning(model, _, change) => ValuesOf(model, change, home, t)
    case Update(key, _, change) => ValuesOf(key.model, change, home, t) && KeysOf(Flatten(change.nested), home, t)
    case Upsert(key, _, item, change) =>
      KeysOf(Flatten([item]), home, t) && ValuesOf(key.model, change, home, t)
        && KeysOf(Flatten(change.nested), home, t)
    case _ => true
  }

  /** A value that belongs to the tenant can only be taken by the tenant's own row. */
  lemma TakenLooksSame(a: Db, b: Db, key: Key, unique: set<string>, home: Homes, t: Tenant)
    requires Aligned(a, home) && LooksSame(a, b, t)
    requires forall v :: v in unique ==> home.value(key.model, v) == t
    ensures Taken(a, key, unique) ==> Taken(b, key, unique)
  {
    if Taken(a, key, unique) {
      var k :| k in a && k != key && k.model == key.model && a[k].unique * unique != {};
      var v :| v in a[k].unique * unique;
      assert AtHome(k, a[k].unique, home, home.key(k));
      assert OwnedBy(a, k, t);
      assert b[k].unique * unique != {};
    }
  }

  lemma LooksSameBack(a: Db, b: Db, t: Tenant)
    requires LooksSame(a, b, t)
    ensures LooksSame(b, a, t)
  {
  }

  lemma {:induction false} InsertLooksSame(a: Db, b: Db, records: seq<Item>, home: Homes, t: Tenant)
    requires Aligned(a, home) && Aligned(b, home) && LooksSame(a, b, t) && KeysOf(records, home, t)
    ensures Insert(AppSession(t), a, records).Some? <==> Insert(AppSession(t), b, records).Some?
    ensures Insert(AppSession(t), a, records).Some? ==>
      LooksSame(Insert(AppSession(t), a, records).value, Insert(AppSession(t), b, records).value, t)
      && Aligned(Insert(AppSession(t), a, records).value, home)
        && Aligned(Insert(AppSession(t), b, records).value, home)
    decreases |records|
  {
    if records != [] {
      var k, r := records[0].key, RowOf(records[0]);
      assert AtHome(k, records[0].unique, home, t);
      assert k in a <==> k in b by { assert k in a ==> OwnedBy(a, k, t); assert k in b ==> OwnedBy(b, k, t); }
      LooksSameBack(a, b, t);
      TakenLooksSame(a, b, k, records[0].unique, home, t);
      TakenLooksSame(b, a, k, records[0].unique, home, t);
      if k !in a && !Taken(a, k, records[0].unique) && Permits(AppSession(t), r) {
        InsertLooksSame(a[k := r], b[k := r], records[1..], home, t);
      }
    }
  }

  lemma SameSelection(a: Db, b: Db, model: string, w: Where, t: Tenant, k: Key)
    requires LooksSame(a, b, t)
    ensures (k in a && Selects(AppSession(t), model, w, k, a[k]))
      <==> (k in b && Selects(AppSession(t), model, w, k, b[k]))
    ensures k in a && Selects(AppSession(t), model, w, k, a[k]) ==> k in b && a[k] == b[k]
  {
    if k in a && Selects(AppSession(t), model, w, k, a[k]) {
      assert OwnedBy(a, k, t);
    }
    if k in b && Selects(AppSession(t), model, w, k, b[k]) {
      assert OwnedBy(b, k, t);
    }
  }

  /** A tenant's own statement answers the same and leaves the tenant the same rows, whatever rows the
      other tenants have. */
  ghost predicate Indistinguishable(a: Db, b: Db, r: Request, home: Homes, t: Tenant) {
    var (a', x) := Execute(AppSession(t), a, r);
    var (b', y) := Execute(AppSession(t), b, r);
    x == y && LooksSame(a', b', t) && Aligned(a', home) && Aligned(b', home)
  }

  lemma CreateIndistinguishable(a: Db, b: Db, item: Item, home: Homes, t: Tenant)
    requires Aligned(a, home) && Aligned(b, home) && LooksSame(a, b, t) && KeysOf(Flatten([item]), home, t)
    ensures Indistinguishable(a, b, Create(item), home, t)
  {
    InsertLooksSame(a, b, Flatten([item]), home, t);
  }

  lemma UpdateIndistinguishable(a: Db, b: Db, key: Key, also: Where, c: Change, home: Homes, t: Tenant)
    requires Aligned(a, home) && Aligned(b, home) && LooksSame(a, b, t)
    requires ValuesOf(key.model, c, home, t) && KeysOf(Flatten(c.nested), home, t)
    ensures Indistinguishable(a, b, Update(key, also, c), home, t)
  {
    hide Taken, Flatten, Insert, KeysOf;
    var s := AppSession(t);
    SameSelection(a, b, key.model, also, t, key);
    if key in a && Selects(s, key.model, also, key, a[key]) && Permits(s, Changed(a[key], c)) {
      var r := Changed(a[key], c);
      assert AtHome(key, a[key].unique, home, t);
      if c.unique.Some? {
        LooksSameBack(a, b, t);
        TakenLooksSame(a, b, key, c.unique.value, home, t);
        TakenLooksSame(b, a, key, c.unique.value, home, t);
      }
      InsertLooksSame(a[key := r], b[key := r], Flatten(c.nested), home, t);
    }
  }

  lemma SameSelections(a: Db, b: Db, model: string, w: Where, t: Tenant)
    requires LooksSame(a, b, t)
    ensures forall k :: ((k in a && Selects(AppSession(t), model, w, k, a[k]))
                         <==> (k in b && Selects(AppSession(t), model, w, k, b[k])))
    ensures forall k :: k in a && Selects(AppSession(t), model, w, k, a[k]) ==> k in b && a[k] == b[k]
  {
    forall k
      ensures (k in a && Selects(AppSession(t), model, w, k, a[k]))
        <==> (k in b && Selects(AppSession(t), model, w, k, b[k]))
      ensures k in a && Selects(AppSession(t), model, w, k, a[k]) ==> k in b && a[k] == b[k]
    {
      SameSelection(a, b, model, w, t, k);
    }
  }

  /** The rows an update of many would leave: aligned, and the same to the tenant in both databases. */
  lemma UpdatedLooksSame(a: Db, b: Db, model: string, w: Where, c: Change, home: Homes, t: Tenant)
    requires Aligned(a, home) && LooksSame(a, b, t) && ValuesOf(model, c, home, t)
    requires forall k :: k in a && Selects(AppSession(t), model, w, k, a[k]) ==>
      Permits(AppSession(t), Changed(a[k], c))
    ensures LooksSame(UpdatedRows(AppSession(t), a, model, w, c), UpdatedRows(AppSession(t), b, model, w, c), t)
    ensures Aligned(UpdatedRows(AppSession(t), a, model, w, c), home)
  {
    SameSelections(a, b, model, w, t);
    var after := UpdatedRows(AppSession(t), a, model, w, c);
    forall k | k in after
      ensures after[k].tenant == Some(home.key(k)) && AtHome(k, after[k].unique, home, home.key(k))
    {
      assert AtHome(k, a[k].unique, home, home.key(k));
    }
  }

  lemma UpdateManyIndistinguishable(a: Db, b: Db, model: string, w: Where, c: Change, home: Homes, t: Tenant)
    requires Aligned(a, home) && Aligned(b, home) && LooksSame(a, b, t) && ValuesOf(model, c, home, t)
    ensures Indistinguishable(a, b, UpdateManyReturning(model, w, c), home, t)
  {
    hide Selects, Permits, Taken, Aligned, LooksSame, Changed, UpdatedRows;
    var s := AppSession(t);
    SameSelections(a, b, model, w, t);
    LooksSameBack(a, b, t);
    if forall k :: k in a && Selects(s, model, w, k, a[k]) ==> Permits(s, Changed(a[k], c)) {
      UpdatedLooksSame(a, b, model, w, c, home, t);
      UpdatedLooksSame(b, a, model, w, c, home, t);
      UpdateManyClashes(a, b, model, w, c, home, t);
      SelectedModel(s, model, w);
    } else {
      var k :| k in a && Selects(s, model, w, k, a[k]) && !Permits(s, Changed(a[k], c));
      assert k in b && Selects(s, model, w, k, b[k]) && !Permits(s, Changed(b[k], c));
    }
  }

  lemma SelectedModel(s: Session, model: string, w: Where)
    ensures forall k, r :: Selects(s, model, w, k, r) ==> k.model == model
  {
  }

  /** A clash of unique values shows in both databases or in neither. */
  lemma UpdateManyClashes(a: Db, b: Db, model: string, w: Where, c: Change, home: Homes, t: Tenant)
    requires LooksSame(a, b, t) && ValuesOf(model, c, home, t)
    requires var (ua, ub) := (UpdatedRows(AppSession(t), a, model, w, c), UpdatedRows(AppSession(t), b, model, w, c));
      Aligned(ua, home) && Aligned(ub, home) && LooksSame(ua, ub, t)
    ensures c.unique.Some? ==>
      forall k: Key :: k.model == model ==>
        (Taken(UpdatedRows(AppSession(t), a, model, w, c), k, c.unique.value) <==>
         Taken(UpdatedRows(AppSession(t), b, model, w, c), k, c.unique.value))
  {
    hide Taken, UpdatedRows, Aligned, LooksSame;
    var ua, ub := UpdatedRows(AppSession(t), a, model, w, c), UpdatedRows(AppSession(t), b, model, w, c);
    LooksSameBack(ua, ub, t);
    if c.unique.Some? {
      forall k: Key | k.model == model ensures Taken(ua, k, c.unique.value) <==> Taken(ub, k, c.unique.value) {
        TakenLooksSame(ua, ub, k, c.unique.value, home, t);
        TakenLooksSame(ub, ua, k, c.unique.value, home, t);
      }
    }
  }

  lemma ReadIndistinguishable(a: Db, b: Db, model: string, w: Where, t: Tenant)
    requires LooksSame(a, b, t)
    ensures Found(AppSession(t), a, model, w) == Found(AppSession(t), b, model, w)
    ensures LooksSame(Execute(AppSession(t), a, DeleteMany(model, w)).0,
      Execute(AppSession(t), b, DeleteMany(model, w)).0, t)
  {
    SameSelections(a, b, model, w, t);
  }

  lemma UniqueIndistinguishable(a: Db, b: Db, key: Key, also: Where, home: Homes, t: Tenant)
    requires Aligned(a, home) && Aligned(b, home) && LooksSame(a, b, t)
    ensures Indistinguishable(a, b, FindUnique(key, also), home, t)
      && Indistinguishable(a, b, Delete(key, also), home, t)
  {
    SameSelection(a, b, key.model, also, t, key);
  }

  lemma UpsertIndistinguishable(a: Db, b: Db, key: Key, also: Where, item: Item, c: Change, home: Homes, t: Tenant)
    requires Aligned(a, home) && Aligned(b, home) && LooksSame(a, b, t)
    requires KeysOf(Flatten([item]), home, t) && ValuesOf(key.model, c, home, t) && KeysOf(Flatten(c.nested), home, t)
    ensures Indistinguishable(a, b, Upsert(key, also, item, c), home, t)
  {
    hide Insert, Selects, LooksSame, Aligned, KeysOf, Flatten;
    SameSelection(a, b, key.model, also, t, key);
    UpdateIndistinguishable(a, b, key, also, c, home, t);
    CreateIndistinguishable(a, b, item, home, t);
  }

  lemma CreateManyIndistinguishable(a: Db, b: Db, items: seq<Item>, home: Homes, t: Tenant)
    requires Aligned(a, home) && Aligned(b, home) && LooksSame(a, b, t) && KeysOf(Flatten(items), home, t)
    ensures Indistinguishable(a, b, CreateMany(items), home, t)
  {
    hide LooksSame, Aligned, Insert, Flatten, KeysOf;
    InsertLooksSame(a, b, Flatten(items), home, t);
  }

  /** The plain updateMany is the returning one with its rows kept back. */
  lemma PlainUpdateManyIndistinguishable(a: Db, b: Db, model: string, w: Where, c: Change, home: Homes, t: Tenant)
    requires Aligned(a, home) && Aligned(b, home) && LooksSame(a, b, t) && ValuesOf(model, c, home, t)
    ensures Indistinguishable(a, b, UpdateMany(model, w, c), home, t)
  {
    hide LooksSame, Aligned, UpdateAll;
    UpdateManyIndistinguishable(a, b, model, w, c, home, t);
  }

  lemma FindManyIndistinguishable(a: Db, b: Db, model: string, w: Where, home: Homes, t: Tenant)
    requires Aligned(a, home) && Aligned(b, home) && LooksSame(a, b, t)
    ensures Indistinguishable(a, b, FindMany(model, w), home, t)
  {
    hide LooksSame, Aligned, Found;
    ReadIndistinguishable(a, b, model, w, t);
  }

  lemma DeleteManyIndistinguishable(a: Db, b: Db, model: string, w: Where, home: Homes, t: Tenant)
    requires Aligned(a, home) && Aligned(b, home) && LooksSame(a, b, t)
    ensures Indistinguishable(a, b, DeleteMany(model, w), home, t)
  {
    hide LooksSame, Selects;
    ReadIndistinguishable(a, b, model, w, t);
  }

  lemma OwnStatement(a: Db, b: Db, r: Request, home: Homes, t: Tenant)
    requires Aligned(a, home) && Aligned(b, home) && LooksSame(a, b, t) && CreatesOwnKeys(r, home, t)
    ensures Indistinguishable(a, b, r, home, t)
  {
    hide Execute, Aligned, LooksSame, Indistinguishable;
    match r
    case FindMany(model, where) => FindManyIndistinguishable(a, b, model, where, home, t);
    case FindUnique(key, also) => UniqueIndistinguishable(a, b, key, also, home, t);
    case Create(item) => CreateIndistinguishable(a, b, item, home, t);
    case CreateMany(items) => CreateManyIndistinguishable(a, b, items, home, t);
    case UpdateMany(model, where, change) => PlainUpdateManyIndistinguishable(a, b, model, where, change, home, t);
    case UpdateManyReturning(model, where, change) => UpdateManyIndistinguishable(a, b, model, where, change, home, t);
    case Update(key, also, change) => UpdateIndistinguishable(a, b, key, also, change, home, t);
    case DeleteMany(model, where) => DeleteManyIndistinguishable(a, b, model, where, home, t);
    case Delete(key, also) => UniqueIndistinguishable(a, b, key, also, home, t);
    case Upsert(key, also, item, change) => UpsertIndistinguishable(a, b, key, also, item, change, home, t);
  }

  datatype Op = Op(tenant: Tenant, request: Request)

  function RunOps(db: Db, ops: seq<Op>): Db
    decreases |ops|
  {
    if ops == [] then db else RunOps(Execute(AppSession(ops[0].tenant), db, ops[0].request).0, ops[1..])
  }

  /** What tenant `t` is answered. */
  function Answers(db: Db, ops: seq<Op>, t: Tenant): seq<Outcome>
    decreases |ops|
  {
    if ops == [] then []
    else
      var (after, outcome) := Execute(AppSession(ops[0].tenant), db, ops[0].request);
      (if ops[0].tenant == t then [outcome] else []) + Answers(after, ops[1..], t)
  }

  /** The run with every other tenant's operations struck out. */
  function Purge(ops: seq<Op>, t: Tenant): seq<Op> {
    if ops == [] then [] else (if ops[0].tenant == t then [ops[0]] else []) + Purge(ops[1..], t)
  }

  lemma OthersLookSame(was: Db, now: Db, other: Db, t: Tenant, u: Tenant)
    requires t != u && OthersUnchanged(was, now, u) && LooksSame(was, other, t)
    ensures LooksSame(now, other, t)
  {
    forall k | OwnedBy(now, k, t) || OwnedBy(other, k, t) ensures k in now && k in other && now[k] == other[k] {
      if OwnedBy(now, k, t) {
        assert OwnedBy(was, k, t);
      } else {
        assert OwnedBy(was, k, t);
      }
    }
  }

  lemma AlignedAfter(db: Db, r: Request, home: Homes, u: Tenant)
    requires Aligned(db, home) && CreatesOwnKeys(r, home, u)
    ensures Aligned(Execute(AppSession(u), db, r).0, home)
  {
    hide Execute, Aligned;
    assert LooksSame(db, db, u);
    OwnStatement(db, db, r, home, u);
  }

  lemma StepAligned(a: Db, b: Db, op: Op, home: Homes, t: Tenant)
    requires Aligned(a, home) && LooksSame(a, b, t) && op.tenant != t && CreatesOwnKeys(op.request, home, op.tenant)
    ensures Aligned(Execute(AppSession(op.tenant), a, op.request).0, home)
    ensures LooksSame(Execute(AppSession(op.tenant), a, op.request).0, b, t)
  {
    hide Execute;
    AlignedAfter(a, op.request, home, op.tenant);
    PolicyIsolates(a, op.request, op.tenant);
    OthersLookSame(a, Execute(AppSession(op.tenant), a, op.request).0, b, t, op.tenant);
  }

  /** Non-interference: however many tenants' operations are interleaved, a tenant is answered exactly
      what it would be answered alone, and ends with exactly the rows it would have alone. The channels
      left between tenants are taken keys and unique values, so both must be generated per tenant. */
  lemma {:induction false} NonInterference(a: Db, b: Db, ops: seq<Op>, home: Homes, t: Tenant)
    requires Aligned(a, home) && Aligned(b, home) && LooksSame(a, b, t)
    requires forall i :: 0 <= i < |ops| ==> CreatesOwnKeys(ops[i].request, home, ops[i].tenant)
    ensures Answers(a, ops, t) == Answers(b, Purge(ops, t), t)
    ensures LooksSame(RunOps(a, ops), RunOps(b, Purge(ops, t)), t)
    decreases |ops|
  {
    hide Execute, LooksSame, Aligned, CreatesOwnKeys;
    if ops != [] {
      var op := ops[0];
      var a' := Execute(AppSession(op.tenant), a, op.request).0;
      if op.tenant == t {
        OwnStatement(a, b, op.request, home, t);
        var b' := Execute(AppSession(t), b, op.request).0;
        NonInterference(a', b', ops[1..], home, t);
        assert Purge(ops, t) == [op] + Purge(ops[1..], t);
        assert Purge(ops, t)[1..] == Purge(ops[1..], t);
      } else {
        StepAligned(a, b, op, home, t);
        NonInterference(a', b, ops[1..], home, t);
        assert Purge(ops, t) == Purge(ops[1..], t);
      }
    }
  }

  /** The hypothesis on keys and values is needed: they are the channels left between tenants. A create by
      its own tenant fails exactly because some row, of whatever tenant, holds its key or one of its
      unique values. */
  lemma TakenKeyIsVisible(db: Db, item: Item, t: Tenant)
    requires item.tenant == Some(t) && item.nested == []
    ensures Execute(AppSession(t), db, Create(item)).1 == Failed <==> item.key in db || Taken(db, item.key, item.unique)
  {
    assert [item][1..] == [] && Flatten([]) == [] && Flatten([item]) == [item];
    assert Insert(AppSession(t), db[item.key := RowOf(item)], []) == Some(db[item.key := RowOf(item)]);
  }

  // ---- Non-interference on the pool ----

  function HistoryOps(history: seq<Executed>): seq<Op> {
    if history == [] then []
    else
      HistoryOps(history[..|history| - 1])
        + (match history[|history| - 1] case ByTenant(t, r, _, _, _) => [Op(t, r)] case ByPlatform(_) => [])
  }

  /** The outcomes tenant `t` was given, in the order its queries ran. */
  function AnsweredTo(history: seq<Executed>, t: Tenant): seq<Outcome> {
    if history == [] then []
    else
      AnsweredTo(history[..|history| - 1], t)
        + (match history[|history| - 1]
           case ByTenant(u, _, _, _, outcome) => if u == t then [outcome] else []
           case ByPlatform(_) => [])
  }

  lemma {:induction false} RunOpsSnoc(db: Db, ops: seq<Op>, op: Op)
    ensures RunOps(db, ops + [op]) == Execute(AppSession(op.tenant), RunOps(db, ops), op.request).0
    decreases |ops|
  {
    hide Execute;
    if ops == [] {
      assert [] + [op] == [op] && [op][1..] == [];
      assert RunOps(db, [op]) == RunOps(Execute(AppSession(op.tenant), db, op.request).0, []);
    } else {
      assert (ops + [op])[1..] == ops[1..] + [op];
      RunOpsSnoc(Execute(AppSession(ops[0].tenant), db, ops[0].request).0, ops[1..], op);
    }
  }

  lemma {:induction false} AnswersSnoc(db: Db, ops: seq<Op>, op: Op, t: Tenant)
    ensures Answers(db, ops + [op], t)
         == Answers(db, ops, t)
            + (if op.tenant == t then [Execute(AppSession(op.tenant), RunOps(db, ops), op.request).1] else [])
    decreases |ops|
  {
    hide Execute;
    if ops == [] {
      assert [] + [op] == [op] && [op][1..] == [];
      assert Answers(Execute(AppSession(op.tenant), db, op.request).0, [], t) == [];
    } else {
      assert (ops + [op])[1..] == ops[1..] + [op];
      AnswersSnoc(Execute(AppSession(ops[0].tenant), db, ops[0].request).0, ops[1..], op, t);
    }
  }

  lemma HistorySnoc(history: seq<Executed>, u: Tenant, r: Request, before: Db, after: Db, o: Outcome, t: Tenant)
    ensures var longer := history + [ByTenant(u, r, before, after, o)];
      && HistoryOps(longer) == HistoryOps(history) + [Op(u, r)]
      && AnsweredTo(longer, t) == AnsweredTo(history, t) + (if u == t then [o] else [])
  {
    assert (history + [ByTenant(u, r, before, after, o)])[..|history|] == history;
  }

  /** The pool's database and what tenant `t` was answered are those of one sequence of operations. */
  predicate Sequential(opening: Db, p: Pool, t: Tenant) {
    && p.db == RunOps(opening, HistoryOps(p.history))
    && AnsweredTo(p.history, t) == Answers(opening, HistoryOps(p.history), t)
  }

  lemma StepIsOneOp(opening: Db, p: Pool, step: PoolStep, t: Tenant)
    requires PoolInv(p) && Sequential(opening, p, t) && !step.Platform?
    ensures Sequential(opening, StepPool(p, step), t)
  {
    hide Execute, IsolatedEntry, Scope, RunOps, HistoryOps, Answers, AnsweredTo;
    if step.Query? && step.c in p.connections && p.connections[step.c].work.Some?
       && p.connections[step.c].work.value.stage == SettingSet {
      var w := p.connections[step.c].work.value;
      var (after, outcome) := Execute(AppSession(w.tenant), p.db, w.request);
      HistorySnoc(p.history, w.tenant, w.request, p.db, after, outcome, t);
      RunOpsSnoc(opening, HistoryOps(p.history), Op(w.tenant, w.request));
      AnswersSnoc(opening, HistoryOps(p.history), Op(w.tenant, w.request), t);
    }
  }

  /** Over every interleaving of their transactions, the pool runs the tenants' requests as one sequence of
      operations and answers each tenant as that sequence does. */
  lemma {:induction false} PoolIsSequential(opening: Db, p: Pool, steps: seq<PoolStep>, t: Tenant)
    requires PoolInv(p) && Sequential(opening, p, t)
    requires forall i :: 0 <= i < |steps| ==> !steps[i].Platform?
    ensures Sequential(opening, RunPool(p, steps), t)
    decreases |steps|
  {
    hide StepPool, Sequential, PoolInv;
    if steps != [] {
      StepIsOneOp(opening, p, steps[0], t);
      StepKeepsPoolInv(p, steps[0]);
      PoolIsSequential(opening, StepPool(p, steps[0]), steps[1..], t);
    }
  }

  /** A transaction that is begun writes keys and unique values of its own tenant only. */
  ghost predicate BeginsOwnKeys(step: PoolStep, home: Homes) {
    step.Begin? && Scope(step.request, step.tenant).Scoped? ==>
      CreatesOwnKeys(Scope(step.request, step.tenant).request, home, step.tenant)
  }

  ghost predicate OwnKeysOnly(p: Pool, home: Homes) {
    && (forall c :: c in p.connections && p.connections[c].work.Some? ==>
          CreatesOwnKeys(p.connections[c].work.value.request, home, p.connections[c].work.value.tenant))
    && (forall op :: op in HistoryOps(p.history) ==> CreatesOwnKeys(op.request, home, op.tenant))
  }

  lemma StepKeepsOwnKeys(p: Pool, step: PoolStep, home: Homes)
    requires OwnKeysOnly(p, home) && BeginsOwnKeys(step, home) && !step.Platform?
    ensures OwnKeysOnly(StepPool(p, step), home)
  {
    hide Execute, Scope, CreatesOwnKeys, HistoryOps;
    if step.Query? && step.c in p.connections && p.connections[step.c].work.Some?
       && p.connections[step.c].work.value.stage == SettingSet {
      var w := p.connections[step.c].work.value;
      var (after, outcome) := Execute(p.connections[step.c].session, p.db, w.request);
      HistorySnoc(p.history, w.tenant, w.request, p.db, after, outcome, w.tenant);
    }
  }

  lemma {:induction false} RunKeepsOwnKeys(p: Pool, steps: seq<PoolStep>, home: Homes)
    requires OwnKeysOnly(p, home)
    requires forall i :: 0 <= i < |steps| ==> !steps[i].Platform? && BeginsOwnKeys(steps[i], home)
    ensures OwnKeysOnly(RunPool(p, steps), home)
    decreases |steps|
  {
    hide StepPool, OwnKeysOnly, BeginsOwnKeys;
    if steps != [] {
      StepKeepsOwnKeys(p, steps[0], home);
      RunKeepsOwnKeys(StepPool(p, steps[0]), steps[1..], home);
    }
  }

  /** A pool before its first query: idle connections of the owner role. */
  ghost predicate Fresh(p: Pool) {
    p.history == [] && forall c :: c in p.connections ==> p.connections[c] == Connection(OWNER, None)
  }

  /** Non-interference of the whole pool: over every interleaving of the tenants' transactions on shared
      connections, broken off anywhere, a tenant has been answered exactly what its own queries alone would
      have been answered, and has exactly the rows they alone would have left it. */
  lemma PoolNonInterference(p: Pool, steps: seq<PoolStep>, home: Homes, t: Tenant)
    requires Fresh(p) && Aligned(p.db, home)
    requires forall i :: 0 <= i < |steps| ==> !steps[i].Platform? && BeginsOwnKeys(steps[i], home)
    ensures var q := RunPool(p, steps);
      var own := Purge(HistoryOps(q.history), t);
      AnsweredTo(q.history, t) == Answers(p.db, own, t) && LooksSame(q.db, RunOps(p.db, own), t)
  {
    hide RunPool, Execute, BeginsOwnKeys, CreatesOwnKeys, Aligned, Purge;
    PoolIsSequential(p.db, p, steps, t);
    RunKeepsOwnKeys(p, steps, home);
    var ops := HistoryOps(RunPool(p, steps).history);
    assert forall i :: 0 <= i < |ops| ==> ops[i] in ops;
    NonInterference(p.db, p.db, ops, home, t);
  }
}
