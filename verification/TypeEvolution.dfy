/**
 What every run of type registrations keeps, and that repeating a registration is harmless.
 */
module TypeEvolution {
  import opened Statuses
  import opened Cycles
  import opened TypeStore
  import Transactions

  /******* Invariant and evolution *******/

  predicate SameKey(a: TypeRow, b: TypeRow) {
    a.kind == b.kind && a.name == b.name && a.version == b.version
  }

  /** One id per (kind, name, version), known property types, at most one parent each, no cycles. */
  ghost predicate WellFormed(db: TypeDb) {
    && (forall i | i in db.types :: i < db.next && !HasUnknown(db.types[i].properties))
    && (forall i, j | i in db.types && j in db.types && SameKey(db.types[i], db.types[j]) :: i == j)
    && (forall l | l in db.parents :: l.0 in db.types && l.1 in db.types)
    && (forall l, m | l in db.parents && m in db.parents && l.0 == m.0 :: l == m)
    && Acyclic(db.parents)
  }

  /** `q` has everything `p` has. */
  predicate Extends(p: Properties, q: Properties) {
    forall k | k in p :: k in q && q[k] == p[k]
  }

  /** Types keep their id, key and properties, and a parent once given; properties only grow. */
  predicate Evolves(db: TypeDb, db': TypeDb) {
    && db.parents <= db'.parents && db.next <= db'.next
    && forall i | i in db.types ::
      i in db'.types && SameKey(db.types[i], db'.types[i]) && Extends(db.types[i].properties, db'.types[i].properties)
  }

  lemma EvolvesTransitive(a: TypeDb, b: TypeDb, c: TypeDb)
    requires Evolves(a, b) && Evolves(b, c)
    ensures Evolves(a, c)
  {
  }

  lemma CreateEvolves(db: TypeDb, g: TypeGiven)
    requires WellFormed(db) && Find(db, g.kind, g.name, VersionOf(g.version)).None? && CreateType(db, g).Success?
    ensures var (db', id) := CreateType(db, g).value;
            && WellFormed(db') && Evolves(db, db') && id in db'.types && id !in db.types
            && Matches(db'.types[id], g.kind, g.name, VersionOf(g.version)) && db'.types[id].properties == g.properties
  {
    hide Find, Acyclic;
    assert forall i | i in db.types :: !Matches(db.types[i], g.kind, g.name, VersionOf(g.version));
  }

  lemma UpdateEvolves(db: TypeDb, g: TypeGiven, id: int, canAdd: bool, canOmit: bool)
    requires WellFormed(db) && id in db.types && UpdateType(db, g, id, canAdd, canOmit).Success?
    ensures var db' := UpdateType(db, g, id, canAdd, canOmit).value;
            && WellFormed(db') && Evolves(db, db') && SameKey(db'.types[id], db.types[id])
            && Extends(g.properties, db'.types[id].properties)
            && (forall i | i in db.types && i != id :: db'.types[i] == db.types[i])
  {
    hide Acyclic;
  }

  lemma LinkEvolves(db: TypeDb, g: TypeGiven, id: int)
    requires WellFormed(db) && id in db.types && UpsertLink(db, g, id).Success?
    ensures var db' := UpsertLink(db, g, id).value;
            WellFormed(db') && Evolves(db, db') && db'.types == db.types && HasBase(db', g, id)
  {
    hide Find, ParentOf;
    if g.base.Some? && ParentOf(db, id).None? {
      var base := Find(db, g.kind, g.base.value.name, None).value;
      LinkKeepsAcyclic(db.parents, id, base);
      assert (id, base) in UpsertLink(db, g, id).value.parents;
    }
  }

  /** The base type that was asked for is stored. */
  ghost predicate HasBase(db: TypeDb, g: TypeGiven, id: int) {
    g.base.Some? ==> g.base.value.Base? &&
                     exists p :: (id, p) in db.parents && p in db.types && db.types[p].name == g.base.value.name
  }

  /** One registration keeps the invariant, only evolves the store, and leaves the request absorbed. */
  lemma UpsertEvolves(db: TypeDb, g: TypeGiven, canAdd: bool, canOmit: bool)
    requires WellFormed(db) && Upsert(db, g, canAdd, canOmit).Success?
    ensures var (db', id) := Upsert(db, g, canAdd, canOmit).value;
            WellFormed(db') && Evolves(db, db') && Absorbed(db', g, id)
  {
    hide WellFormed, Find, CreateType, UpdateType, UpsertLink, HasBase;
    var found := Find(db, g.kind, g.name, VersionOf(g.version));
    var db1, id := db, 0;
    if found.None? {
      CreateEvolves(db, g);
      db1, id := CreateType(db, g).value.0, CreateType(db, g).value.1;
    } else {
      id := found.value;
      UpdateEvolves(db, g, id, canAdd, canOmit);
      db1 := UpdateType(db, g, id, canAdd, canOmit).value;
    }
    LinkEvolves(db1, g, id);
    EvolvesTransitive(db, db1, UpsertLink(db1, g, id).value);
  }

  lemma UpsertAllEvolves(db: TypeDb, gs: seq<TypeGiven>, canAdd: bool, canOmit: bool)
    requires WellFormed(db) && UpsertAll(db, gs, canAdd, canOmit).Success?
    ensures var (db', ids) := UpsertAll(db, gs, canAdd, canOmit).value;
            && WellFormed(db') && Evolves(db, db') && |ids| == |gs|
            && forall i | 0 <= i < |gs| :: Absorbed(db', gs[i], ids[i])
    decreases |gs|
  {
    hide WellFormed, Upsert, Evolves, Absorbed;
    if gs == [] {
      EvolvesSelf(db);
    } else {
      UpsertEvolves(db, gs[0], canAdd, canOmit);
      var (db1, id) := Upsert(db, gs[0], canAdd, canOmit).value;
      UpsertAllEvolves(db1, gs[1..], canAdd, canOmit);
      var (db', ids) := UpsertAll(db, gs, canAdd, canOmit).value;
      EvolvesTransitive(db, db1, db');
      AbsorbedStays(db1, db', gs[0], id);
      forall i | 0 <= i < |gs| ensures Absorbed(db', gs[i], ids[i]) {
        if i > 0 { assert gs[i] == gs[1..][i - 1] && ids[i] == ids[1..][i - 1]; }
      }
    }
  }

  lemma EvolvesSelf(db: TypeDb)
    ensures Evolves(db, db)
  {
  }

  /******* Runs *******/

  /** A PutTypes request. */
  datatype Request = Request(types: seq<TypeGiven>, canAdd: bool, canOmit: bool)

  /** A transaction: all of a request or nothing. */
  ghost function Transact(db: TypeDb, q: Request): TypeDb {
    var r := UpsertAll(db, q.types, q.canAdd, q.canOmit);
    if r.Success? then r.value.0 else db
  }

  ghost function Run(db: TypeDb, qs: seq<Request>): TypeDb
    decreases |qs|
  {
    if qs == [] then db else Run(Transact(db, qs[0]), qs[1..])
  }

  /** Over every run: the invariant holds, and no type loses its id, key, properties or parent. */
  lemma RunEvolves(db: TypeDb, qs: seq<Request>)
    requires WellFormed(db)
    ensures WellFormed(Run(db, qs)) && Evolves(db, Run(db, qs))
    decreases |qs|
  {
    hide WellFormed, UpsertAll, Evolves;
    EvolvesSelf(db);
    if qs != [] {
      var r := UpsertAll(db, qs[0].types, qs[0].canAdd, qs[0].canOmit);
      if r.Success? { UpsertAllEvolves(db, qs[0].types, qs[0].canAdd, qs[0].canOmit); }
      var db1 := Transact(db, qs[0]);
      RunEvolves(db1, qs[1..]);
      EvolvesTransitive(db, db1, Run(db1, qs[1..]));
    }
  }

  /** Each (kind, name, version) keeps its id for ever, and its parent is set at most once. */
  lemma IdsAndParentsStay(db: TypeDb, qs: seq<Request>, kind: TypeKind, name: string, version: Option<string>, id: int)
    requires WellFormed(db) && Find(db, kind, name, version) == Some(id)
    ensures Find(Run(db, qs), kind, name, version) == Some(id)
    ensures ParentOf(db, id).Some? ==> ParentOf(Run(db, qs), id) == ParentOf(db, id)
  {
    hide Run, Acyclic, Find, ParentOf;
    RunEvolves(db, qs);
    var e := Run(db, qs);
    assert Matches(e.types[id], kind, name, version);
    var found := Find(e, kind, name, version);
    assert found.Some? && SameKey(e.types[found.value], e.types[id]);
    assert WellFormed(e) && found.value in e.types && id in e.types;
    assert found.value == id;
    assert found == Some(id);
    if ParentOf(db, id).Some? {
      var l := (id, ParentOf(db, id).value);
      assert l in e.parents && ParentOf(e, id).Some?;
      var m := (id, ParentOf(e, id).value);
      assert m in e.parents && l.0 == m.0;
      assert l == m;
    }
  }

  /******* Absorption *******/

  /** Registering `g` again would find all of it in place, under `id`. */
  ghost predicate Absorbed(db: TypeDb, g: TypeGiven, id: int) {
    && id in db.types && Matches(db.types[id], g.kind, g.name, VersionOf(g.version))
    && Extends(g.properties, db.types[id].properties) && HasBase(db, g, id)
  }

  lemma AbsorbedStays(db: TypeDb, db': TypeDb, g: TypeGiven, id: int)
    requires Evolves(db, db') && Absorbed(db, g, id)
    ensures Absorbed(db', g, id)
  {
    if g.base.Some? {
      var p :| (id, p) in db.parents && p in db.types && db.types[p].name == g.base.value.name;
      assert (id, p) in db'.parents && p in db'.types && db'.types[p].name == g.base.value.name;
    }
  }

  /** A type that is absorbed is registered again without any change. */
  lemma AbsorbedUpsert(db: TypeDb, g: TypeGiven, id: int)
    requires WellFormed(db) && Absorbed(db, g, id)
    ensures Upsert(db, g, true, true) == Success((db, id))
  {
    hide Acyclic, Find, ParentOf;
    var found := Find(db, g.kind, g.name, VersionOf(g.version));
    assert found.Some? && SameKey(db.types[found.value], db.types[id]);
    var stored := db.types[id];
    assert g.properties + stored.properties == stored.properties;
    assert db.types[id := stored.(properties := g.properties + stored.properties)] == db.types;
    if g.base.Some? {
      var p :| (id, p) in db.parents && p in db.types && db.types[p].name == g.base.value.name;
      assert ParentOf(db, id) == Some(p);
    }
  }

  lemma AbsorbedUpsertAll(db: TypeDb, gs: seq<TypeGiven>, ids: seq<int>)
    requires WellFormed(db) && |ids| == |gs| && forall i | 0 <= i < |gs| :: Absorbed(db, gs[i], ids[i])
    ensures UpsertAll(db, gs, true, true) == Success((db, ids))
    decreases |gs|
  {
    hide WellFormed, Absorbed, Upsert;
    if gs != [] {
      assert Absorbed(db, gs[0], ids[0]);
      AbsorbedUpsert(db, gs[0], ids[0]);
      forall i | 0 <= i < |gs[1..]| ensures Absorbed(db, gs[1..][i], ids[1..][i]) {
        assert gs[1..][i] == gs[i + 1] && ids[1..][i] == ids[i + 1];
      }
      AbsorbedUpsertAll(db, gs[1..], ids[1..]);
      assert ids == [ids[0]] + ids[1..];
    }
  }

  /**
   A batch that once succeeded succeeds again after any later registrations, when additions and
   omissions are allowed: it returns the same ids and changes nothing.
   */
  lemma RegistrationAbsorbed(db: TypeDb, q: Request, later: seq<Request>)
    requires WellFormed(db) && UpsertAll(db, q.types, q.canAdd, q.canOmit).Success?
    ensures var (db1, ids) := UpsertAll(db, q.types, q.canAdd, q.canOmit).value;
            var e := Run(db1, later);
            UpsertAll(e, q.types, true, true) == Success((e, ids))
  {
    hide WellFormed, Absorbed, UpsertAll, Run, Evolves;
    UpsertAllEvolves(db, q.types, q.canAdd, q.canOmit);
    var (db1, ids) := UpsertAll(db, q.types, q.canAdd, q.canOmit).value;
    RunEvolves(db1, later);
    var e := Run(db1, later);
    forall i | 0 <= i < |ids| ensures Absorbed(e, q.types[i], ids[i]) {
      AbsorbedStays(db1, e, q.types[i], ids[i]);
    }
    AbsorbedUpsertAll(e, q.types, ids);
  }

  /** `body` does what UpsertTypes does for the request. */
  ghost predicate Performs(body: Transactions.Body<TypeDb>, q: Request) {
    forall d :: var r := UpsertAll(d, q.types, q.canAdd, q.canOmit);
                body(d) == if r.Success? then Transactions.Outcome(Ok, r.value.0)
                           else Transactions.Outcome(r.error, AllUnfinished(d, q.types, q.canAdd, q.canOmit))
  }

  /** In a transaction a request behaves as `Transact` says, whatever the backend answers. */
  lemma RequestIsAtomic(s: Transactions.State<TypeDb>, body: Transactions.Body<TypeDb>, q: Request, f: Transactions.Faults)
    requires Performs(body, q) && WellFormed(s.committed)
    ensures var (s', status) := Transactions.Executed(s, body, f);
            && s'.committed == (if Transactions.TakesEffect(s, body, f) then Transact(s.committed, q) else s.committed)
            && (!f.commit.Lost? ==> (status == Ok <==> Transactions.TakesEffect(s, body, f)))
            && WellFormed(s'.committed) && Evolves(s.committed, s'.committed)
  {
    hide WellFormed, UpsertAll, Evolves, AllUnfinished;
    EvolvesSelf(s.committed);
    assert body(s.committed).status == Ok <==> UpsertAll(s.committed, q.types, q.canAdd, q.canOmit).Success?;
    if UpsertAll(s.committed, q.types, q.canAdd, q.canOmit).Success? {
      UpsertAllEvolves(s.committed, q.types, q.canAdd, q.canOmit);
    }
  }

  /**
   Asking for another base type than the stored one is refused after the new properties have been
   written, and the transaction takes them back.
   */
  lemma BaseChangeRefused(
    s: Transactions.State<TypeDb>, body: Transactions.Body<TypeDb>, g: TypeGiven, id: int, p: int, canOmit: bool,
    f: Transactions.Faults)
    requires Performs(body, Request([g], true, canOmit)) && WellFormed(s.committed)
    requires Find(s.committed, g.kind, g.name, VersionOf(g.version)) == Some(id)
    requires (id, p) in s.committed.parents && g.base.Some? && g.base.value.Base?
    requires g.base.value.name != s.committed.types[p].name
    requires UpdateType(s.committed, g, id, true, canOmit).Success?
    ensures Extends(g.properties, body(s.committed).state.types[id].properties)
    ensures var (s', status) := Transactions.Executed(s, body, f);
            status != Ok && s'.committed == s.committed
  {
    var db := s.committed;
    BaseChangeFails(db, g, id, p, canOmit);
    hide UpsertAll, AllUnfinished, UpdateType, Find;
    assert body(db) == Transactions.Outcome(Unimplemented, UpdateType(db, g, id, true, canOmit).value);
    UpdateEvolves(db, g, id, true, canOmit);
  }

  lemma BaseChangeFails(db: TypeDb, g: TypeGiven, id: int, p: int, canOmit: bool)
    requires WellFormed(db) && Find(db, g.kind, g.name, VersionOf(g.version)) == Some(id)
    requires (id, p) in db.parents && g.base.Some? && g.base.value.Base? && g.base.value.name != db.types[p].name
    requires UpdateType(db, g, id, true, canOmit).Success?
    ensures UpsertAll(db, [g], true, canOmit) == Failure(Unimplemented)
    ensures AllUnfinished(db, [g], true, canOmit) == UpdateType(db, g, id, true, canOmit).value
  {
    hide Find, ParentOf, Acyclic, HasUnknown, Compatible;
    var db1 := UpdateType(db, g, id, true, canOmit).value;
    assert ParentOf(db1, id) == Some(p);
    assert Upsert(db, g, true, canOmit) == Failure(Unimplemented);
  }
}
