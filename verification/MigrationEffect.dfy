/**
 What the SQLite scripts do to every database: each version's schema is reached exactly, and going
 down to a version and up again forgets precisely what was introduced after it.
 */
module MigrationEffect {
  import opened Statuses
  import opened Transactions
  import opened SchemaSql
  import opened Migration
  import opened MigrationLaws
  import opened SqliteScripts

  /******* The schema at each version *******/

  /** The version that introduced a table. */
  function Since(t: TableId): int {
    if t in {Contexts, ContextProperties} then 3
    else if t in {Associations, Attributions} then 4
    else if t in {ParentTypes, ParentContexts} then 6
    else 0
  }

  /** The version that introduced a column of a table. */
  function ColumnSince(t: TableId, c: Column): int {
    if t == Types then (if c in {Version, Description} then 6 else 0)
    else if t in {Artifacts, Executions} then (if c in {NodeState, Name, CreateTime, UpdateTime} then 5 else 0)
    else if t == Contexts then (if c in {CreateTime, UpdateTime} then 5 else 0)
    else if IsProperty(t) then (if c == ByteValue then 7 else 0)
    else 0
  }

  function Columns(t: TableId, v: int): seq<Column> {
    if t == Types && v < 6 then [Id, Name, if v < 2 then IsArtifactType else TypeKind, InputType, OutputType]
    else if t == Artifacts && v < 5 then [Id, TypeId, Uri]
    else if t == Executions && v < 5 then [Id, TypeId]
    else if t == Contexts && v < 5 then [Id, TypeId, Name]
    else if t == ArtifactProperties && v < 7 then OldProperty(ArtifactId)
    else if t == ExecutionProperties && v < 7 then OldProperty(ExecutionId)
    else if t == ContextProperties && v < 7 then OldProperty(ContextId)
    else Head(t)
  }

  function IndicesAt(v: int): set<Index> {
    if v < 6 then {} else
    var base := Elements(ArtifactIndices()) + Elements(NodeIndices()) +
               {Index(Events, ExecutionId), Index(ParentContexts, ParentContextId), Index(Types, Name)};
    if v == 6 then base + {Index(Events, ArtifactId)}
    else if v == 7 then base + {Index(Events, ArtifactId), Index(EventPaths, EventId)}
    else base + {Index(EventPaths, EventId)} + Elements(PropertyIndices())
  }

  /** Before version 2 the kind of a type was in `is_artifact_type`. */
  function Source(c: Column): Column {
    if c == IsArtifactType then TypeKind else c
  }

  /******* What is left of a database *******/

  /** A row of version 8 that has been down to version `t`, in columns `cs`. */
  function RowOf(n: TableId, cs: seq<Column>, t: int, row: Row): Row {
    map c | c in cs :: if ColumnSince(n, c) > t then Default(c) else Get(row, Source(c))
  }

  function Shape(n: TableId, cs: seq<Column>, t: int, rows: seq<Row>): Table {
    Table(cs, MapRows(rows, row => RowOf(n, cs, t, row)))
  }

  /** Rows for every table, in the columns of version 8. */
  type Content = map<TableId, seq<Row>>

  predicate Full(k: Content) {
    forall n: TableId :: n in k
  }

  /** The rows of a table that has been down to version `t`. */
  function Left(n: TableId, t: int, k: Content): seq<Row>
    requires Full(k)
  {
    if Since(n) > t then [] else k[n]
  }

  /** The database at version `v` with this content, after having been at version `t`. */
  function At(v: int, t: int, k: Content): Db
    requires Full(k)
  {
    Db((map n: TableId | Since(n) <= v :: Shape(n, Columns(n, v), t, Left(n, t, k))), map[], IndicesAt(v),
       if v == 0 then None else Some([v]))
  }

  /** Version 1 and before have no context types. */
  function Trimmed(k: Content): (r: Content)
    requires Full(k)
    ensures Full(r)
  {
    k[Types := FilterRows(k[Types], NotOfKind(2))]
  }

  /** Version 8 has each event once, the latest, and no path without its event. */
  function Deduped(k: Content): (r: Content)
    requires Full(k)
    ensures Full(r)
  {
    var events := FilterRows(k[Events], Latest(k[Events]));
    k[Events := events][EventPaths := FilterRows(k[EventPaths], Refers(Ids(events)))]
  }

  predicate HasAllTables(db: Db) {
    forall n: TableId :: n in db.tables
  }

  /** A database at version 8: the tables of the library, typed rows, and no two equal events. */
  predicate AtHead(db: Db) {
    && HasAllTables(db)
    && (forall n | n in db.tables :: db.tables[n].columns == Head(n))
    && (forall n, row | n in db.tables && row in db.tables[n].rows :: row.Keys == Elements(Head(n)))
    && (forall a, b | a in db.tables[Events].rows && b in db.tables[Events].rows && SameEvent(a, b) :: Get(a, Id) == Get(b, Id))
    && db.temps == map[] && db.indices == IndicesAt(8) && db.env == Some([8])
  }

  /******* What the scripts are made of *******/

  function Replaced(db: Db, n: TableId, table: Table): Db {
    db.(tables := db.tables[n := table], indices := Without(db.indices, n))
  }

  /** Rebuilding a table changes that table and drops its indices. */
  lemma RebuildRuns(db: Db, n: TableId, columns: seq<Column>, into: seq<Column>, select: Option<seq<Column>>, ine: bool)
    requires n in db.tables && n !in db.temps
    requires var selected := if select.Some? then select.value else db.tables[n].columns;
             Copies(db.tables[n], Table(columns, []), into, selected)
    ensures var selected := if select.Some? then select.value else db.tables[n].columns;
            RunAll(Rebuild(n, columns, into, select, ine), db) == Outcome(Ok, Replaced(db, n,
              Table(columns, MapRows(db.tables[n].rows, row => CopyRow(columns, into, selected, row)))))
  {
    var selected := if select.Some? then select.value else db.tables[n].columns;
    var ss := Rebuild(n, columns, into, select, ine);
    var copied := Table(columns, MapRows(db.tables[n].rows, row => CopyRow(columns, into, selected, row)));
    var d1 := Effect(ss[0], db).value;
    assert d1.temps[n] == Table(columns, []);
    var d2 := Effect(ss[1], d1).value;
    assert [] + copied.rows == copied.rows;
    assert d2 == db.(temps := db.temps[n := copied]);
    var d3 := Effect(ss[2], d2).value;
    var d4 := Effect(ss[3], d3).value;
    assert db.temps[n := copied] - {n} == db.temps;
    assert (db.tables - {n})[n := copied] == db.tables[n := copied];
    assert d4 == Replaced(db, n, copied);
    RunFour(ss[0], ss[1], ss[2], ss[3], db, d1, d2, d3, d4);
  }

  lemma RunFour(a: Stmt, b: Stmt, c: Stmt, d: Stmt, db: Db, d1: Db, d2: Db, d3: Db, d4: Db)
    requires Effect(a, db) == Success(d1) && Effect(b, d1) == Success(d2) && Effect(c, d2) == Success(d3) && Effect(d, d3) == Success(d4)
    ensures RunAll([a, b, c, d], db) == Outcome(Ok, d4)
  {
    hide Effect;
    RunTwo(c, d, d2, d3, d4);
    assert [b] + [c, d] == [b, c, d] && [a] + [b, c, d] == [a, b, c, d];
    RunCons(b, [c, d], d1);
    RunCons(a, [b, c, d], db);
  }

  lemma RunTwo(a: Stmt, b: Stmt, db: Db, d1: Db, d2: Db)
    requires Effect(a, db) == Success(d1) && Effect(b, d1) == Success(d2)
    ensures RunAll([a, b], db) == Outcome(Ok, d2)
  {
    hide Effect;
    assert [a] + [b] == [a, b];
    RunCons(a, [b], db);
    RunOne(b, d1);
  }

  /** Where copying turns rows of shape (`cs`, `t`) into rows of shape (`cs'`, `t'`). */
  predicate Fits(n: TableId, cs: seq<Column>, t: int, cs': seq<Column>, t': int, into: seq<Column>, select: seq<Column>) {
    && |into| == |select|
    && (forall i | 0 <= i < |into| ::
          && select[i] in cs && into[i] in cs' && Source(select[i]) == Source(into[i]) && Default(select[i]) == Default(into[i])
          && (ColumnSince(n, select[i]) > t <==> ColumnSince(n, into[i]) > t'))
    && (forall c | c in cs' :: c in into || ColumnSince(n, c) > t')
  }

  lemma PickFits(n: TableId, cs: seq<Column>, t: int, t': int, into: seq<Column>, select: seq<Column>, row: Row, c: Column)
    requires |into| == |select|
    requires forall i | 0 <= i < |into| ::
               && select[i] in cs && Source(select[i]) == Source(into[i]) && Default(select[i]) == Default(into[i])
               && (ColumnSince(n, select[i]) > t <==> ColumnSince(n, into[i]) > t')
    requires c in into || ColumnSince(n, c) > t'
    ensures Pick(into, select, RowOf(n, cs, t, row), c) == if ColumnSince(n, c) > t' then Default(c) else Get(row, Source(c))
  {
    hide ColumnSince, Default, Source;
    if into != [] && into[0] != c {
      forall i | 0 <= i < |into[1..]|
        ensures && select[1..][i] in cs && Source(select[1..][i]) == Source(into[1..][i])
                && Default(select[1..][i]) == Default(into[1..][i])
                && (ColumnSince(n, select[1..][i]) > t <==> ColumnSince(n, into[1..][i]) > t')
      {
        assert select[1..][i] == select[i + 1] && into[1..][i] == into[i + 1];
      }
      PickFits(n, cs, t, t', into[1..], select[1..], row, c);
    }
  }

  lemma CopyFits(n: TableId, cs: seq<Column>, t: int, cs': seq<Column>, t': int, into: seq<Column>, select: seq<Column>, rows: seq<Row>)
    requires Fits(n, cs, t, cs', t', into, select)
    ensures Table(cs', MapRows(Shape(n, cs, t, rows).rows, row => CopyRow(cs', into, select, row))) == Shape(n, cs', t', rows)
  {
    hide ColumnSince, Default, Source, Pick;
    forall i | 0 <= i < |rows|
      ensures CopyRow(cs', into, select, RowOf(n, cs, t, rows[i])) == RowOf(n, cs', t', rows[i])
    {
      forall c | c in cs' ensures Pick(into, select, RowOf(n, cs, t, rows[i]), c) == RowOf(n, cs', t', rows[i])[c] {
        PickFits(n, cs, t, t', into, select, rows[i], c);
      }
    }
  }

  /** Rebuilding a table of one shape gives the other shape. */
  lemma RebuildFits(
    db: Db, n: TableId, cs: seq<Column>, t: int, cs': seq<Column>, t': int, into: seq<Column>, select: Option<seq<Column>>,
    rows: seq<Row>, ine: bool)
    requires n in db.tables && n !in db.temps && db.tables[n] == Shape(n, cs, t, rows)
    requires Fits(n, cs, t, cs', t', into, if select.Some? then select.value else cs)
    ensures RunAll(Rebuild(n, cs', into, select, ine), db) == Outcome(Ok, Replaced(db, n, Shape(n, cs', t', rows)))
  {
    hide ColumnSince, Default, Source, RunAll, Effect, Rebuild, CopyRow;
    var selected := if select.Some? then select.value else cs;
    assert forall c | c in into :: exists i :: 0 <= i < |into| && into[i] == c;
    assert forall c | c in selected :: exists i :: 0 <= i < |selected| && selected[i] == c;
    RebuildRuns(db, n, cs', into, select, ine);
    CopyFits(n, cs, t, cs', t', into, selected, rows);
  }

  /** Adding a column that the rows have not had before. */
  lemma AddColumnFits(db: Db, n: TableId, cs: seq<Column>, t: int, c: Column, rows: seq<Row>)
    requires n in db.tables && db.tables[n] == Shape(n, cs, t, rows) && c !in cs && (rows == [] || ColumnSince(n, c) > t)
    ensures Effect(AddColumn(n, c), db) == Success(db.(tables := db.tables[n := Shape(n, cs + [c], t, rows)]))
  {
    hide ColumnSince, Default, Source;
    forall i | 0 <= i < |rows|
      ensures RowOf(n, cs, t, rows[i])[c := Default(c)] == RowOf(n, cs + [c], t, rows[i])
    {
    }
    assert MapRows(Shape(n, cs, t, rows).rows, (row: Row) => row[c := Default(c)]) == Shape(n, cs + [c], t, rows).rows;
  }

  predicate Indexable(db: Db, i: Index) {
    i.table in db.tables && forall c | c in IndexColumns(i) :: c in db.tables[i.table].columns
  }

  lemma CreateIndicesRuns(db: Db, indices: seq<Index>)
    requires forall i | i in indices :: Indexable(db, i)
    ensures RunAll(CreateIndices(indices), db) == Outcome(Ok, db.(indices := db.indices + Elements(indices)))
    decreases |indices|
  {
    if indices == [] {
      assert Elements(indices) == {} && db.indices + {} == db.indices;
    } else {
      assert indices[0] in indices && Indexable(db, indices[0]);
      assert CreateIndices(indices)[1..] == CreateIndices(indices[1..]);
      var d := db.(indices := db.indices + {indices[0]});
      assert Effect(CreateIndex(indices[0], true), db) == Success(d);
      forall i | i in indices[1..] ensures Indexable(d, i) { assert i in indices && Indexable(db, i); }
      CreateIndicesRuns(d, indices[1..]);
      assert indices == [indices[0]] + indices[1..];
      assert (db.indices + {indices[0]}) + Elements(indices[1..]) == db.indices + Elements(indices);
    }
  }

  lemma DropIndicesRuns(db: Db, indices: seq<Index>)
    requires Elements(indices) <= db.indices
    requires forall j, k | 0 <= j < k < |indices| :: indices[j] != indices[k]
    ensures RunAll(DropIndices(indices), db) == Outcome(Ok, db.(indices := db.indices - Elements(indices)))
    decreases |indices|
  {
    if indices == [] {
      assert Elements(indices) == {} && db.indices - {} == db.indices;
    } else {
      assert indices[0] in Elements(indices);
      assert DropIndices(indices)[1..] == DropIndices(indices[1..]);
      var d := db.(indices := db.indices - {indices[0]});
      forall i | i in indices[1..] ensures i in d.indices {
        assert i in Elements(indices);
        var k :| 0 <= k < |indices[1..]| && indices[1..][k] == i;
        assert indices[0] != indices[k + 1];
      }
      DropIndicesRuns(d, indices[1..]);
      assert indices == [indices[0]] + indices[1..];
      assert (db.indices - {indices[0]}) - Elements(indices[1..]) == db.indices - Elements(indices);
    }
  }
}
