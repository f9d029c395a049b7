/** What InitMetadataSourceIfNotExists guarantees about the SQLite store, from any database. */
module StoreInit {
  import opened Statuses
  import opened Transactions
  import opened SchemaSql
  import opened Migration
  import opened MigrationLaws
  import opened SqliteScripts
  import opened MigrationEffect
  import opened MigrationSteps
  import opened MigrationRoundTrip

  /******* Creating what is missing *******/

  /** Missing tables are created empty; a table of that name that exists stays as it is. */
  function Filled(db: Db, ts: set<TableId>): Db {
    db.(tables := (map n: TableId | n in db.tables || n in ts :: if n in db.tables then db.tables[n] else Table(Head(n), [])))
  }

  lemma CreateTablesRuns(db: Db, ts: seq<TableId>)
    ensures RunAll(CreateTables(ts), db) == Outcome(Ok, Filled(db, Elements(ts)))
    decreases |ts|
  {
    hide Head;
    if ts == [] {
      assert Filled(db, Elements(ts)).tables == db.tables;
    } else {
      assert CreateTables(ts)[1..] == CreateTables(ts[1..]);
      var d := Filled(db, {ts[0]});
      assert (if ts[0] in db.tables then db.tables else db.tables[ts[0] := Table(Head(ts[0]), [])]) == d.tables;
      assert Effect(CreateTables(ts)[0], db) == Success(d);
      CreateTablesRuns(d, ts[1..]);
      assert Elements(ts) == {ts[0]} + Elements(ts[1..]);
      assert Filled(d, Elements(ts[1..])).tables == Filled(db, Elements(ts)).tables;
    }
  }

  predicate AllIndexable(db: Db, indices: seq<Index>) {
    forall i | i in indices :: Indexable(db, i)
  }

  lemma IndexedRuns(db: Db, indices: seq<Index>)
    ensures var r := Indexed(CreateIndices(indices), db);
            && (r.status == Ok <==> AllIndexable(db, indices))
            && (r.status == Ok ==> r.state == db.(indices := db.indices + Elements(indices)))
    decreases |indices|
  {
    if indices == [] {
      assert Elements(indices) == {} && db.indices + {} == db.indices;
    } else {
      assert CreateIndices(indices)[1..] == CreateIndices(indices[1..]);
      assert indices == [indices[0]] + indices[1..];
      if Indexable(db, indices[0]) {
        var d := db.(indices := db.indices + {indices[0]});
        assert Effect(CreateIndex(indices[0], true), db) == Success(d);
        IndexedRuns(d, indices[1..]);
        assert forall i :: Indexable(d, i) == Indexable(db, i);
        assert (db.indices + {indices[0]}) + Elements(indices[1..]) == db.indices + Elements(indices);
      } else {
        assert Effect(CreateIndex(indices[0], true), db) == Failure(Internal);
        assert indices[0] in indices;
      }
    }
  }

  lemma EveryTable(n: TableId)
    ensures n in FirstTables() || n in LastTables()
  {
    var k := match n
      case Types => 0 case TypeProperties => 1 case ParentTypes => 2 case Artifacts => 3 case ArtifactProperties => 4
      case Executions => 5 case ExecutionProperties => 6 case Events => 7 case EventPaths => 8
      case Contexts => 0 case ContextProperties => 1 case ParentContexts => 2 case Associations => 3 case Attributions => 4;
    assert FirstTables()[k] == n || LastTables()[k] == n;
  }

  /** Every table exists afterwards, under its name. */
  function Created(db: Db): Db {
    db.(tables := (map n: TableId | true :: if n in db.tables then db.tables[n] else Table(Head(n), [])), env := Some([]))
  }

  lemma CreateRuns(db: Db)
    requires db.env.None?
    ensures RunAll(Sqlite().create, db) == Outcome(Ok, Created(db))
  {
    hide RunAll, CreateTables, Head, FirstTables, LastTables, Elements;
    var first, second := FirstTables(), LastTables();
    CreateTablesRuns(db, first);
    var d1 := Filled(db, Elements(first));
    var d2 := d1.(env := Some([]));
    RunOne(CreateEnv, d1);
    CreateTablesRuns(d2, second);
    RunAllConcat(CreateTables(first), [CreateEnv], db);
    RunAllConcat(CreateTables(first) + [CreateEnv], CreateTables(second), db);
    forall n: TableId ensures n in Elements(first) || n in Elements(second) { InTables(n); }
    assert Filled(d2, Elements(second)) == Created(db);
    CreateIs();
  }

  lemma InTables(n: TableId)
    ensures n in Elements(FirstTables()) || n in Elements(LastTables())
  {
    EveryTable(n);
  }

  lemma CreateIs()
    ensures Sqlite().create == CreateTables(FirstTables()) + [CreateEnv] + CreateTables(LastTables())
    ensures Sqlite().index == CreateIndices(SecondaryIndices()) && Sqlite().lib == 8
  {
    hide Up, Down, CreateTables, CreateIndices, SecondaryIndices, FirstTables, LastTables;
  }

  /** A new store: every table as the library wants it, without rows. */
  function Fresh(db: Db): Db {
    Created(db).(indices := db.indices + Elements(SecondaryIndices()), env := Some([8]))
  }

  /** Initialisation succeeds if and only if the tables have the columns of every index. */
  lemma InitOutcome(db: Db)
    requires db.env.None?
    ensures var r := Initialized(Sqlite(), db);
            && (r.status == Ok <==> AllIndexable(Created(db), SecondaryIndices()))
            && (r.status == Ok ==> r.state == Fresh(db))
  {
    hide RunAll, Indexed, Sqlite, Created, SecondaryIndices, AllIndexable, CreateIndices;
    CreateRuns(db);
    CreateIs();
    var d := Created(db);
    CreatedFacts(db);
    IndexedRuns(d, SecondaryIndices());
    var r := Indexed(CreateIndices(SecondaryIndices()), d);
    assert [] + [8] == [8];
    if r.status == Ok { assert Effect(InsertVersion(8), r.state) == Success(Fresh(db)); }
  }

  lemma CreatedFacts(db: Db)
    ensures var d := Created(db);
            && d.env == Some([]) && d.temps == db.temps && d.indices == db.indices
            && forall n: TableId :: n in d.tables && d.tables[n] == if n in db.tables then db.tables[n] else Table(Head(n), [])
  {
  }

  /******* The version that is found *******/


  lemma IndicesLeaveEnv(indices: seq<Index>)
    ensures LeavesEnv(CreateIndices(indices)) && LeavesEnv(DropIndices(indices))
  {
  }

  lemma UpLeavesEnv(v: int)
    requires v != 1
    ensures LeavesEnv(Up(v))
  {
    hide CreateIndices, PropertyIndices, IndicesUp6;
    IndicesLeaveEnv(PropertyIndices());
    IndicesLeaveEnv(IndicesUp6());
    IndicesLeaveEnv([Index(EventPaths, EventId)]);
    IndicesLeaveEnv([Index(Events, ExecutionId)]);
  }

  lemma LeavesConcat(a: seq<Stmt>, b: seq<Stmt>)
    requires LeavesEnv(a) && LeavesEnv(b)
    ensures LeavesEnv(a + b)
  {
  }

  lemma RebuildLeavesEnv(t: TableId, columns: seq<Column>, into: seq<Column>, select: Option<seq<Column>>, ine: bool)
    ensures LeavesEnv(Rebuild(t, columns, into, select, ine))
  {
  }

  lemma Down6LeavesEnv()
    ensures LeavesEnv(Down(6))
  {
    hide LeavesEnv, Rebuild, DropIndices, OldProperty;
    var a, b := PropertiesDown6(ArtifactProperties, ArtifactId), PropertiesDown6(ExecutionProperties, ExecutionId);
    var c, d := PropertiesDown6(ContextProperties, ContextId), DropIndices([Index(EventPaths, EventId)]);
    forall t, owner ensures LeavesEnv(PropertiesDown6(t, owner)) {
      RebuildLeavesEnv(t, OldProperty(owner), OldProperty(owner), Some(OldProperty(owner)), true);
    }
    IndicesLeaveEnv([Index(EventPaths, EventId)]);
    LeavesConcat(c, d);
    LeavesConcat(b, c + d);
    LeavesConcat(a, b + (c + d));
  }

  lemma DownLeavesEnv(v: int)
    requires v != 0
    ensures LeavesEnv(Down(v))
  {
    hide CreateIndices, DropIndices, PropertyIndices, EventIndices, ArtifactIndices, NodeIndices, PropertiesDown6;
    IndicesLeaveEnv(PropertyIndices());
    IndicesLeaveEnv(EventIndices());
    IndicesLeaveEnv(ArtifactIndices() + EventIndices() + NodeIndices());
    if v == 6 { Down6LeavesEnv(); }
  }

  lemma SqliteStandard()
    ensures Standard(Sqlite())
  {
    hide CreateTables, CreateIndices, SecondaryIndices, LeavesEnv;
    forall v | 0 <= v <= 8
      ensures if v == 1 then Up(v) == [CreateEnv, InsertVersion(0)] else LeavesEnv(Up(v))
      ensures if v == 0 then Down(v) == [DropEnv] else LeavesEnv(Down(v))
    {
      hide Up, Down;
      Ends();
      if v != 1 { UpLeavesEnv(v); }
      if v != 0 { DownLeavesEnv(v); }
    }
  }

  lemma Ends()
    ensures Up(0) == [] && Up(1) == [CreateEnv, InsertVersion(0)] && Down(0) == [DropEnv]
  {
  }

  lemma VersionMeans(db: Db, v: int)
    requires SchemaVersion(db) == Success(v)
    ensures db.env == Some([v]) || (v == 0 && db.env.None?)
  {
    if db.env.Some? { assert db.env.value == [v]; }
  }

  /** An upgrade that succeeds started from a version recorded as it should be. */
  lemma UpgradeStarts(db: Db, v: int)
    requires SchemaVersion(db) == Success(v) && v < 8 && UpgradeFrom(Sqlite(), db, v).status == Ok
    ensures v >= 0 && Recorded(db, v)
  {
    hide Sqlite, UpStep, SchemaVersion;
    VersionMeans(db, v);
    SchemesAt(0);
    if v < 0 { FirstStepFails(db, v); }
    if db.env == Some([0]) { ZeroRecorded(db); }
  }

  lemma FirstStepFails(db: Db, v: int)
    requires v < 0 && db.env == Some([v])
    ensures UpgradeFrom(Sqlite(), db, v).status != Ok
  {
    hide Sqlite, RunAll, Up;
    SchemesAt(0);
    if v == -1 {
      Ends();
      assert Up(0) + [UpdateVersion(0)] == [UpdateVersion(0)];
      RunOne(UpdateVersion(0), db);
      assert UpStep(Sqlite(), db, 0) == Outcome(Ok, db.(env := Some([0])));
      ZeroRecorded(db.(env := Some([0])));
    } else {
      NoScheme(v + 1);
    }
  }

  lemma NoScheme(v: int)
    requires v < 0
    ensures v !in Sqlite().schemes && Sqlite().lib == 8
  {
    hide Up, Down, CreateTables, CreateIndices, SecondaryIndices;
  }

  /** A recorded version 0 stops the upgrade: the first script cannot insert its row. */
  lemma ZeroRecorded(d: Db)
    requires d.env == Some([0])
    ensures UpStep(Sqlite(), d, 1).status == Internal && UpgradeFrom(Sqlite(), d, 0).status == Internal
  {
    hide Sqlite, RunAll, Up;
    SchemesAt(1);
    Ends();
    assert Up(1) + [UpdateVersion(1)] == [CreateEnv] + ([InsertVersion(0)] + [UpdateVersion(1)]);
    RunCons(CreateEnv, [InsertVersion(0)] + [UpdateVersion(1)], d);
    RunOne(InsertVersion(0), d);
    RunAllConcat([InsertVersion(0)], [UpdateVersion(1)], d);
  }

  /** After a successful upgrade either MLMDEnv records version 8, or there is none and nothing was done. */
  lemma UpgradeLeaves(db: Db, enable: bool)
    requires Upgraded(Sqlite(), db, enable).status == Ok
    ensures var d := Upgraded(Sqlite(), db, enable).state;
            if SchemaVersion(db) == Failure(NotFound) then d == db && d.env.None? else d.env == Some([8])
  {
    hide Sqlite, UpgradeFrom, Standard;
    SchemesAt(8);
    SqliteStandard();
    var version := SchemaVersion(db);
    if version.Success? { VersionMeans(db, version.value); }
    if version.Success? && version.value < 8 {
      UpgradeStarts(db, version.value);
      UpgradeFromRecords(Sqlite(), db, version.value);
    }
  }

  /******* Initialisation *******/

  /** The store was there under the right names but not with the right columns. */
  predicate Foreign(db: Db) {
    SchemaVersion(db) == Failure(NotFound) && db.tables != map[]
  }

  lemma SqliteRequires()
    ensures forall n: TableId :: n in Sqlite().required && Sqlite().required[n] == Head(n)
  {
    hide Up, Down, CreateTables, CreateIndices, SecondaryIndices, Head;
  }

  /**
   OK means that version 8 is recorded and all tables exist. They also have the library's columns,
   unless the database held foreign tables of those names; that is the only exception. In either case
   a second call changes nothing, and it reports what the first one did not.
   */
  lemma InitResult(db: Db, enable: bool)
    requires Ready(Sqlite(), db, None, enable).status == Ok
    ensures var d := Ready(Sqlite(), db, None, enable).state;
            && d.env == Some([8]) && HasAllTables(d)
            && (AllComplete(Sqlite(), d) <==> !Foreign(db))
            && forall again :: Ready(Sqlite(), d, None, again) == Outcome(if AllComplete(Sqlite(), d) then Ok else Aborted, d)
  {
    hide Sqlite, Upgraded, Initialized, Complete, SchemaVersion, SecondaryIndices, Head;
    SqliteRequires();
    var u := Upgraded(Sqlite(), db, enable).state;
    UpgradeLeaves(db, enable);
    var d := Ready(Sqlite(), db, None, enable).state;
    if AllComplete(Sqlite(), u) {
      forall n: TableId ensures n in d.tables { CompleteExists(d, n); }
    } else {
      InitOutcome(u);
      CreatedFacts(u);
      ForeignStays(u);
    }
    SchemesAt(8);
    HeadIsReady(d);
  }

  lemma CompleteExists(d: Db, n: TableId)
    requires Complete(Sqlite(), d, n)
    ensures n in d.tables
  {
  }

  /** At version 8 the upgrade has nothing to do. */
  lemma HeadIsReady(d: Db)
    requires d.env == Some([8])
    ensures forall again :: Upgraded(Sqlite(), d, again) == Outcome(Ok, d)
  {
    hide Sqlite;
    SchemesAt(8);
  }

  lemma ForeignStays(u: Db)
    requires u.env.None? && NoneComplete(Sqlite(), u)
    ensures AllComplete(Sqlite(), Fresh(u)) <==> u.tables == map[]
  {
    hide Sqlite, SecondaryIndices, Head, Created;
    SqliteRequires();
    CreatedFacts(u);
    if u.tables != map[] {
      var n :| n in u.tables;
      assert !Complete(Sqlite(), u, n);
      assert !Complete(Sqlite(), Fresh(u), n);
    }
  }

  /** From an empty database it makes a store to which every migration theorem applies. */
  lemma EmptyIsInitialized(enable: bool)
    ensures var empty := Db(map[], map[], {}, None);
            var r := Ready(Sqlite(), empty, None, enable);
            r.status == Ok && AtHead(r.state)
  {
    hide Sqlite, Initialized, SecondaryIndices, Head, Created, IndicesAt, Elements;
    var empty := Db(map[], map[], {}, None);
    SqliteRequires();
    SchemesAt(8);
    CreatedFacts(empty);
    InitOutcome(empty);
    forall i | i in SecondaryIndices() ensures Indexable(Created(empty), i) {
      IndexedColumns(i, 8);
      HeadSince(i.table);
    }
    assert {} + Elements(SecondaryIndices()) == IndicesAt(8) by { HeadIndices(); }
  }

  lemma HeadIndices()
    ensures Elements(SecondaryIndices()) == IndicesAt(8)
  {
    hide ArtifactIndices, NodeIndices, PropertyIndices;
  }

  /** A store that has only a `TypeProperty` table without the right columns is accepted as initialised. */
  lemma ForeignAccepted(enable: bool)
    ensures var db := Db(map[TypeProperties := Table([TypeId], [])], map[], {}, None);
            Ready(Sqlite(), db, None, enable).status == Ok && Foreign(db)
  {
    hide Sqlite, Initialized, SecondaryIndices, Head, Created, IndicesAt, Elements;
    var db := Db(map[TypeProperties := Table([TypeId], [])], map[], {}, None);
    assert TypeProperties in db.tables && Types !in db.tables;
    SqliteRequires();
    SchemesAt(8);
    CreatedFacts(db);
    InitOutcome(db);
    forall i | i in SecondaryIndices() ensures Indexable(Created(db), i) {
      IndexedColumns(i, 8);
      HeadSince(i.table);
      NotIndexed(i);
    }
    assert Name in Head(TypeProperties) by { NameRequired(); }
  }

  lemma NotIndexed(i: Index)
    requires i in SecondaryIndices()
    ensures i.table != TypeProperties
  {
    hide ArtifactIndices, NodeIndices, PropertyIndices;
    IndexTables();
  }

  lemma NameRequired()
    ensures Name in Head(TypeProperties)
  {
    assert Head(TypeProperties)[1] == Name;
  }

  /** In a transaction, initialisation and migration happen entirely or not at all. */
  lemma InitIsAtomic(s: State<Db>, query: Option<int>, enable: bool, f: Faults)
    ensures var (s', status) := Executed(s, d => Ready(Sqlite(), d, query, enable), f);
            && (status != Ok && !f.commit.Lost? ==> s'.committed == s.committed)
            && (status == Ok || s'.committed != s.committed ==> SchemaVersion(s'.committed) == Success(if query.Some? then query.value else 8))
  {
    hide Sqlite, Ready;
    var r := Ready(Sqlite(), s.committed, query, enable);
    if r.status == Ok {
      if query.None? { InitResult(s.committed, enable); } else { QueryVersion(s.committed, query, enable); }
    }
  }

  lemma QueryVersion(db: Db, query: Option<int>, enable: bool)
    requires query.Some? && Ready(Sqlite(), db, query, enable).status == Ok
    ensures Ready(Sqlite(), db, query, enable).state == db && SchemaVersion(db) == Success(query.value)
  {
    hide Sqlite;
  }
}
