/** What a tenant's request does once it has been rewritten and runs under the policy: exactly what was asked,
    on exactly the tenant's own rows. */
module TenantRequests {
  import opened Options
  import opened TenantDb

  // ---- Refusals ----

  /** The request itself names another tenant as the owner of something it writes. */
  predicate NamesOther(r: Request, t: Tenant) {
    match r
    case Create(item) => item.tenant.Some? && item.tenant != Some(t)
    case CreateMany(items) => exists i :: 0 <= i < |items| && items[i].tenant.Some? && items[i].tenant != Some(t)
    case UpdateMany(_, _, change) => change.tenant.Some? && change.tenant != Some(t)
    case Update(_, _, change) => change.tenant.Some? && change.tenant != Some(t)
    case Upsert(_, _, item, change) =>
      (item.tenant.Some? && item.tenant != Some(t)) || (change.tenant.Some? && change.tenant != Some(t))
    case _ => false
  }

  /** The request with the records it creates given to the tenant. */
  function InTenant(r: Request, t: Tenant): Request {
    match r
    case Create(item) => Create(item.(tenant := Some(t)))
    case CreateMany(items) => CreateMany(seq(|items|, i requires 0 <= i < |items| => items[i].(tenant := Some(t))))
    case Upsert(key, also, item, change) => Upsert(key, also, item.(tenant := Some(t)), change)
    case _ => r
  }

  lemma SameSelected(db: Db, model: string, w: Where, t: Tenant)
    ensures forall k :: k in db ==>
      (Selects(AppSession(t), model, ScopeWhere(w, t), k, db[k]) <==> Selects(AppSession(t), model, w, k, db[k]))
  {
    forall k | k in db
      ensures Selects(AppSession(t), model, ScopeWhere(w, t), k, db[k]) <==> Selects(AppSession(t), model, w, k, db[k])
    {
      ScopedMatches(w, t);
    }
  }

  lemma SameFound(db: Db, model: string, w: Where, t: Tenant)
    ensures Execute(AppSession(t), db, FindMany(model, ScopeWhere(w, t)))
         == Execute(AppSession(t), db, FindMany(model, w))
    ensures Execute(AppSession(t), db, DeleteMany(model, ScopeWhere(w, t)))
         == Execute(AppSession(t), db, DeleteMany(model, w))
  {
    hide Selects, ScopeWhere;
    SameSelected(db, model, w, t);
    var s, scoped := AppSession(t), ScopeWhere(w, t);
    assert Found(s, db, model, scoped) == Found(s, db, model, w);
    assert (map k | k in db && !Selects(s, model, scoped, k, db[k]) :: db[k])
        == (map k | k in db && !Selects(s, model, w, k, db[k]) :: db[k]);
  }

  lemma SameUpdate(db: Db, model: string, w: Where, c: Change, t: Tenant)
    ensures UpdateAll(AppSession(t), db, model, ScopeWhere(w, t), c) == UpdateAll(AppSession(t), db, model, w, c)
  {
    hide Selects, Permits, Taken, ScopeWhere;
    SameSelected(db, model, w, t);
    var s, scoped := AppSession(t), ScopeWhere(w, t);
    assert UpdatedRows(s, db, model, scoped, c) == UpdatedRows(s, db, model, w, c);
    assert (map k | k in db && Selects(s, model, scoped, k, db[k]) :: Changed(db[k], c))
        == (map k | k in db && Selects(s, model, w, k, db[k]) :: Changed(db[k], c));
  }

  /** The rewriting refuses exactly the requests that name another tenant, and changes neither the answer nor
      the effect of any other: under the policy it is the caller's own request, with new records given to
      the tenant. */
  lemma ScopeIsTransparent(db: Db, r: Request, t: Tenant)
    ensures Scope(r, t) == CrossTenant <==> NamesOther(r, t)
    ensures Scope(r, t).Scoped? ==>
      Execute(AppSession(t), db, Scope(r, t).request) == Execute(AppSession(t), db, InTenant(r, t))
  {
    hide Selects, UpdateAll, UpdateRow, InsertThen, Flatten, Insert;
    match r
    case FindMany(model, where) => SameFound(db, model, where, t);
    case DeleteMany(model, where) => SameFound(db, model, where, t);
    case UpdateMany(model, where, change) => SameUpdate(db, model, where, change, t);
    case UpdateManyReturning(model, where, change) => SameUpdate(db, model, where, change, t);
    case CreateMany(items) =>
      if Scope(r, t).Scoped? {
        assert Scope(r, t).request.items == InTenant(r, t).items;
      }
    case _ =>
  }

  // ---- What each request does ----

  /** The tenant's own rows of a model that meet the caller's condition. */
  predicate Asked(db: Db, model: string, where: Where, t: Tenant, k: Key) {
    k in db && k.model == model && db[k].tenant == Some(t) && Matches(where, db[k])
  }

  /** A rewritten request, run in its tenant's session. */
  function Run(db: Db, r: Request, t: Tenant): (Db, Outcome) {
    match Scope(r, t)
    case Scoped(scoped) => Execute(AppSession(t), db, scoped)
    case CrossTenant => (db, Failed)
  }

  lemma SelectsAsked(db: Db, model: string, where: Where, t: Tenant, k: Key)
    ensures k in db && Selects(AppSession(t), model, ScopeWhere(where, t), k, db[k]) <==> Asked(db, model, where, t, k)
    ensures k in db && Selects(AppSession(t), model, where, k, db[k]) <==> Asked(db, model, where, t, k)
  {
    if k in db {
      ScopedMatches(where, t);
    }
  }

  /** A search returns exactly the tenant's own rows that meet the caller's condition, as they are. */
  lemma FindReturnsAsked(db: Db, model: string, where: Where, t: Tenant)
    ensures var (after, outcome) := Run(db, FindMany(model, where), t);
      && after == db && outcome.Rows?
      && (forall k :: k in outcome.found <==> Asked(db, model, where, t, k))
      && (forall k :: k in outcome.found ==> outcome.found[k] == db[k])
  {
    hide Selects, Asked;
    forall k ensures k in Run(db, FindMany(model, where), t).1.found <==> Asked(db, model, where, t, k) {
      SelectsAsked(db, model, where, t, k);
    }
  }

  /** A deletion removes exactly those rows and leaves every other as it is. */
  lemma DeleteRemovesAsked(db: Db, model: string, where: Where, t: Tenant)
    ensures var (after, outcome) := Run(db, DeleteMany(model, where), t);
      && outcome == Rows(map[])
      && (forall k :: k in after <==> k in db && !Asked(db, model, where, t, k))
      && (forall k :: k in after ==> after[k] == db[k])
  {
    hide Selects, Asked;
    forall k ensures k in Run(db, DeleteMany(model, where), t).0 <==> k in db && !Asked(db, model, where, t, k) {
      SelectsAsked(db, model, where, t, k);
    }
  }

  /** The caller's assignments and nothing else; the row stays with its tenant. */
  predicate Assigned(was: Row, now: Row, c: Change) {
    && now.tenant == was.tenant && now.unique == (if c.unique.Some? then c.unique.value else was.unique)
    && now.fields.Keys == was.fields.Keys + c.fields.Keys
    && forall f :: f in now.fields ==> now.fields[f] == if f in c.fields then c.fields[f] else was.fields[f]
  }

  /** An update that goes through assigns to exactly those rows; one that does not changes nothing; and an
      update of no globally unique column goes through whenever it names no other tenant. */
  lemma UpdateChangesAsked(db: Db, model: string, where: Where, c: Change, t: Tenant)
    ensures var (after, outcome) := Run(db, UpdateMany(model, where, c), t);
      && (outcome.Rows? ==>
            after.Keys == db.Keys
            && (forall k :: Asked(db, model, where, t, k) ==> Assigned(db[k], after[k], c))
            && (forall k :: k in db && !Asked(db, model, where, t, k) ==> after[k] == db[k]))
      && (outcome.Failed? ==> after == db)
      && (c.unique.None? ==> (outcome.Failed? <==> NamesOther(UpdateMany(model, where, c), t)))
  {
    hide Selects, Taken;
    forall k
      ensures k in db && Selects(AppSession(t), model, ScopeWhere(where, t), k, db[k])
        <==> Asked(db, model, where, t, k)
    {
      SelectsAsked(db, model, where, t, k);
    }
  }

  /** The values a row of the model holds in globally unique columns after the update. */
  function UniqueAfter(db: Db, model: string, where: Where, c: Change, t: Tenant, k: Key): set<string>
    requires k in db
  {
    if c.unique.Some? && Asked(db, model, where, t, k) then c.unique.value else db[k].unique
  }

  /** Two rows of the model, one of them updated, would share a value the update writes. */
  ghost predicate Clash(db: Db, model: string, where: Where, c: Change, t: Tenant) {
    c.unique.Some? &&
    exists k, j :: Asked(db, model, where, t, k) && j in db && j != k && j.model == model
      && UniqueAfter(db, model, where, c, t, j) * c.unique.value != {}
  }

  /** And an update fails if and only if it names another tenant or would write a value some other row of the
      model, of whatever tenant, has or is given as well. */
  lemma UpdateFailsExactly(db: Db, model: string, where: Where, c: Change, t: Tenant)
    ensures Run(db, UpdateMany(model, where, c), t).1.Failed?
      <==> NamesOther(UpdateMany(model, where, c), t) || Clash(db, model, where, c, t)
  {
    hide Selects, Asked;
    var s, scoped := AppSession(t), ScopeWhere(where, t);
    forall k ensures k in db && Selects(s, model, scoped, k, db[k]) <==> Asked(db, model, where, t, k) {
      SelectsAsked(db, model, where, t, k);
    }
    forall k | Asked(db, model, where, t, k) ensures k.model == model && k in db && db[k].tenant == Some(t) {
      AskedOwn(db, model, where, t, k);
    }
    var after := UpdatedRows(s, db, model, scoped, c);
    forall k | Asked(db, model, where, t, k) && c.unique.Some?
      ensures Taken(after, k, c.unique.value) <==>
        exists j :: (j in db && j != k && j.model == model
                     && UniqueAfter(db, model, where, c, t, j) * c.unique.value != {})
    {
      assert forall j :: j in db ==> after[j].unique == UniqueAfter(db, model, where, c, t, j);
    }
  }

  lemma AskedOwn(db: Db, model: string, where: Where, t: Tenant, k: Key)
    requires Asked(db, model, where, t, k)
    ensures k.model == model && k in db && db[k].tenant == Some(t)
  {
  }

  // ---- Creation ----

  lemma {:induction false} InsertedKeys(s: Session, db: Db, records: seq<Item>)
    requires Insert(s, db, records).Some?
    ensures Insert(s, db, records).value.Keys == db.Keys + set i | 0 <= i < |records| :: records[i].key
    ensures forall i :: 0 <= i < |records| ==> Permits(s, RowOf(records[i]))
    decreases |records|
  {
    if records != [] {
      var next := db[records[0].key := RowOf(records[0])];
      InsertedKeys(s, next, records[1..]);
      assert forall i :: 0 < i < |records| ==> records[i] == records[1..][i - 1];
      forall k ensures k in Insert(s, db, records).value <==>
          k in db || k in set i | 0 <= i < |records| :: records[i].key
      {
        if k in Insert(s, db, records).value && k !in next {
          var i :| 0 <= i < |records[1..]| && records[1..][i].key == k;
          assert records[i + 1].key == k;
        }
        if k in set i | 0 <= i < |records| :: records[i].key {
          var i :| 0 <= i < |records| && records[i].key == k;
          assert i > 0 ==> records[1..][i - 1].key == k;
        }
      }
    }
  }

  /** The rows are stored with the fields given, under the tenant, and nothing else has moved. */
  ghost predicate Stored(was: Db, now: Db, records: seq<Item>, t: Tenant) {
    && now.Keys == was.Keys + (set i | 0 <= i < |records| :: records[i].key)
    && (forall k :: k in was ==> now[k] == was[k])
    && (forall i :: 0 <= i < |records| ==>
          records[i].key !in was && now[records[i].key] == Row(Some(t), records[i].fields, records[i].unique))
  }

  lemma InsertStores(db: Db, records: seq<Item>, t: Tenant)
    requires Insert(AppSession(t), db, records).Some?
    ensures Stored(db, Insert(AppSession(t), db, records).value, records, t)
  {
    hide Insert;
    InsertedKeys(AppSession(t), db, records);
    InsertedKeeps(AppSession(t), db, records);
    forall i | 0 <= i < |records|
      ensures records[i].key !in db
      ensures Insert(AppSession(t), db, records).value[records[i].key]
        == Row(Some(t), records[i].fields, records[i].unique)
    {
      InsertedRows(AppSession(t), db, records, i);
    }
  }

  /** A creation that goes through stores the record and everything nested in it, with the caller's fields and
      under the tenant, and answers with the record; one that does not changes nothing. */
  lemma CreateStores(db: Db, item: Item, t: Tenant)
    ensures var (after, outcome) := Run(db, Create(item), t);
      && (outcome.Rows? ==>
            Stored(db, after, [item] + Flatten(item.nested), t)
            && outcome.found == map[item.key := Row(Some(t), item.fields, item.unique)])
      && (outcome.Failed? ==> after == db)
  {
    var guarded := GuardItem(item, t);
    if Run(db, Create(item), t).1.Rows? {
      var records := Flatten([guarded]);
      FlattenOne(guarded);
      hide Insert, Flatten;
      InsertStores(db, records, t);
      SameRecords([guarded] + Flatten(item.nested), [item] + Flatten(item.nested));
    }
  }

  /** The records differ in the tenant they were given only. */
  predicate SameKeys(a: seq<Item>, b: seq<Item>) {
    && |a| == |b|
    && forall i :: 0 <= i < |a| ==> a[i].key == b[i].key && a[i].fields == b[i].fields && a[i].unique == b[i].unique
  }

  lemma SameRecords(a: seq<Item>, b: seq<Item>)
    requires SameKeys(a, b)
    ensures forall was, now, t :: Stored(was, now, a, t) ==> Stored(was, now, b, t)
  {
    assert (set i | 0 <= i < |a| :: a[i].key) == (set i | 0 <= i < |b| :: b[i].key);
  }

  lemma {:induction false} GuardedFlatten(items: seq<Item>, t: Tenant)
    ensures var guarded := seq(|items|, i requires 0 <= i < |items| => GuardItem(items[i], t));
      SameKeys(Flatten(guarded), Flatten(items))
    decreases |items|
  {
    var guarded := seq(|items|, i requires 0 <= i < |items| => GuardItem(items[i], t));
    if items != [] {
      GuardedFlatten(items[1..], t);
      assert guarded[1..] == seq(|items[1..]|, i requires 0 <= i < |items[1..]| => GuardItem(items[1..][i], t));
    }
  }

  /** A bulk creation that goes through stores all records, and one that does not changes nothing. */
  lemma CreateManyStores(db: Db, items: seq<Item>, t: Tenant)
    ensures var (after, outcome) := Run(db, CreateMany(items), t);
      && (outcome.Rows? ==> outcome == Rows(map[]) && Stored(db, after, Flatten(items), t))
      && (outcome.Failed? ==> after == db)
  {
    hide Insert, Flatten, Stored;
    if Run(db, CreateMany(items), t).1.Rows? {
      var guarded := seq(|items|, i requires 0 <= i < |items| => GuardItem(items[i], t));
      InsertStores(db, Flatten(guarded), t);
      GuardedFlatten(items, t);
      SameRecords(Flatten(guarded), Flatten(items));
    }
  }

  // ---- Requests that name one row by a unique key ----

  lemma NothingNested(db: Db, t: Tenant)
    ensures Flatten([]) == [] && Insert(AppSession(t), db, []) == Some(db)
  {
  }

  /** A unique read finds the row if and only if it is the tenant's own and meets the condition. */
  lemma FindUniqueReturnsAsked(db: Db, key: Key, also: Where, t: Tenant)
    ensures Run(db, FindUnique(key, also), t)
         == (db, Rows(if Asked(db, key.model, also, t, key) then map[key := db[key]] else map[]))
  {
  }

  /** A unique deletion removes that row and answers with it, or fails. */
  lemma DeleteUniqueRemovesAsked(db: Db, key: Key, also: Where, t: Tenant)
    ensures Run(db, Delete(key, also), t)
         == if Asked(db, key.model, also, t, key) then (db - {key}, Rows(map[key := db[key]])) else (db, Failed)
  {
  }

  /** A unique update that goes through assigns to that row, stores what is nested in it and answers with the
      row; one that does not, or that finds no such row, changes nothing. */
  lemma UpdateUniqueChangesAsked(db: Db, key: Key, also: Where, c: Change, t: Tenant)
    ensures var (after, outcome) := Run(db, Update(key, also, c), t);
      && (outcome.Rows? ==>
            Asked(db, key.model, also, t, key) && key in after && outcome.found == map[key := after[key]]
            && Assigned(db[key], after[key], c) && Stored(db[key := after[key]], after, Flatten(c.nested), t))
      && (outcome.Failed? ==> after == db)
      && (c.nested == [] ==>
            (outcome.Rows? <==> Asked(db, key.model, also, t, key) && !NamesOther(Update(key, also, c), t)
                                && (c.unique.Some? ==> !Taken(db, key, c.unique.value))))
  {
    hide Taken, Insert, Flatten;
    if key in db {
      NothingNested(db[key := Changed(db[key], c)], t);
    }
    if Run(db, Update(key, also, c), t).1.Rows? {
      var next := db[key := Changed(db[key], c)];
      InsertStores(next, Flatten(c.nested), t);
    }
  }

  /** An upsert that finds the tenant's own row is that update, and otherwise that creation. */
  lemma UpsertIsEither(db: Db, key: Key, also: Where, item: Item, c: Change, t: Tenant)
    requires !NamesOther(Upsert(key, also, item, c), t)
    ensures Run(db, Upsert(key, also, item, c), t)
         == if Asked(db, key.model, also, t, key) then Run(db, Update(key, also, c), t) else Run(db, Create(item), t)
  {
    hide UpdateRow, InsertThen;
  }

  // ---- A transaction on the pool ----

  /** A transaction that nothing interrupts runs its request once, in its tenant's session and as the rewritten
      request does, and gives the connection back clean; a second query on it does nothing. */
  lemma TransactionRuns(p: Pool, c: nat, r: Request, t: Tenant)
    requires c in p.connections && p.connections[c] == Connection(OWNER, None) && Scope(r, t).Scoped?
    ensures var (after, outcome) := Run(p.db, r, t);
      var begun := StepPool(StepPool(StepPool(p, Begin(c, t, r)), SetRole(c)), SetTenant(c));
      var queried := StepPool(begun, Query(c));
      && begun.db == p.db && begun.history == p.history
      && StepPool(queried, Query(c)) == queried
      && StepPool(queried, End(c)) == p.(db := after,
           history := p.history + [ByTenant(t, Scope(r, t).request, p.db, after, outcome)])
      && StepPool(begun, End(c)) == p
  {
    hide Execute, Scope;
    assert p.connections[c := Connection(OWNER, None)] == p.connections;
  }

  /** A refused request never begins. */
  lemma RefusedNeverBegins(p: Pool, c: nat, r: Request, t: Tenant)
    requires NamesOther(r, t)
    ensures StepPool(p, Begin(c, t, r)) == p
  {
    ScopeIsTransparent(p.db, r, t);
  }

  /** A platform query on an idle connection runs as the owner, with no tenant set, and is recorded; while a
      transaction is on the connection it has to wait. */
  lemma PlatformRunsAsOwner(p: Pool, c: nat, db: Db)
    requires PoolInv(p) && c in p.connections
    ensures StepPool(p, Platform(c, db))
         == if p.connections[c].work.None? then p.(db := db, history := p.history + [ByPlatform(OWNER)]) else p
  {
    assert CleanConnection(p.connections[c]);
  }
}
