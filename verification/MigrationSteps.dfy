/** The parts of the migration scripts, and the tables that a script leaves alone. */
module MigrationSteps {
  import opened Statuses
  import opened Transactions
  import opened SchemaSql
  import opened Migration
  import opened SqliteScripts
  import opened MigrationEffect

  /******* Tables a step does not touch *******/

  function TableAt(n: TableId, v: int, t: int, k: Content): Table
    requires Full(k)
  {
    Shape(n, Columns(n, v), t, Left(n, t, k))
  }

  /** The tables that version `v` introduced or changed. */
  function Changed(v: int): set<TableId> {
    match v
    case 2 => {Types}
    case 3 => {Contexts, ContextProperties}
    case 4 => {Associations, Attributions}
    case 5 => {Artifacts, Executions, Contexts}
    case 6 => {ParentTypes, ParentContexts, Types}
    case 7 => {ArtifactProperties, ExecutionProperties, ContextProperties}
    case 8 => {Events}
    case _ => {}
  }

  lemma ColumnsSince(n: TableId, v: int, c: Column)
    requires 0 <= v <= 8 && Since(n) <= v && c in Columns(n, v)
    ensures ColumnSince(n, c) <= v
  {
  }

  lemma Untouched(n: TableId, v: int)
    requires 1 <= v <= 8 && n !in Changed(v)
    ensures Columns(n, v - 1) == Columns(n, v) && (Since(n) <= v - 1 <==> Since(n) <= v)
  {
  }

  lemma ChangedSince(n: TableId, v: int)
    requires n in Changed(v)
    ensures Since(n) <= v
  {
  }

  lemma AtTables(v: int, t: int, k: Content)
    requires Full(k)
    ensures var d := At(v, t, k);
            && (forall n: TableId :: n in d.tables <==> Since(n) <= v)
            && (forall n | n in d.tables :: d.tables[n] == TableAt(n, v, t, k))
            && d.temps == map[] && d.indices == IndicesAt(v) && d.env == (if v == 0 then None else Some([v]))
  {
  }

  lemma UntouchedUp(n: TableId, v: int, t: int, k: Content)
    requires Full(k) && 1 <= v <= 8 && n !in Changed(v)
    ensures TableAt(n, v - 1, t, k) == TableAt(n, v, t, k)
  {
    hide Columns, Since, FilterRows, MapRows;
    Untouched(n, v);
  }

  lemma UntouchedDown(n: TableId, v: int, k: Content)
    requires Full(k) && 0 <= v < 8 && n !in Changed(v + 1) && Since(n) <= v
    ensures TableAt(n, v + 1, v + 1, k) == TableAt(n, v, v, k)
  {
    hide Columns, Since, FilterRows, ColumnSince;
    Untouched(n, v + 1);
    var rows, cs := Left(n, v, k), Columns(n, v);
    forall i | 0 <= i < |rows| ensures RowOf(n, cs, v + 1, rows[i]) == RowOf(n, cs, v, rows[i]) {
      forall c | c in cs ensures ColumnSince(n, c) <= v { ColumnsSince(n, v, c); }
    }
    assert Shape(n, cs, v + 1, rows) == Shape(n, cs, v, rows);
  }

  /** `d` is the database at version `v`, but for what MLMDEnv records. */
  predicate Reached(d: Db, v: int, t: int, k: Content)
    requires Full(k)
  {
    d == At(v, t, k).(env := d.env)
  }

  lemma ReachedUp(d: Db, v: int, t: int, k: Content)
    requires Full(k) && 1 <= v <= 8
    requires forall n | n !in Changed(v) :: (n in d.tables <==> Since(n) <= v - 1) && (n in d.tables ==> d.tables[n] == TableAt(n, v - 1, t, k))
    requires forall n | n in Changed(v) :: n in d.tables && d.tables[n] == TableAt(n, v, t, k)
    requires d.temps == map[] && d.indices == IndicesAt(v)
    ensures Reached(d, v, t, k)
  {
    hide Columns, Since, Left, Shape, Changed, IndicesAt;
    forall n: TableId ensures (n in d.tables <==> Since(n) <= v) && (n in d.tables ==> d.tables[n] == TableAt(n, v, t, k)) {
      if n in Changed(v) {
        ChangedSince(n, v);
      } else {
        Untouched(n, v);
        UntouchedUp(n, v, t, k);
      }
    }
    assert d.tables == At(v, t, k).tables;
  }

  lemma ReachedDown(d: Db, v: int, k: Content)
    requires Full(k) && 0 <= v < 8
    requires forall n | n !in Changed(v + 1) ::
               (n in d.tables <==> Since(n) <= v + 1) && (n in d.tables ==> d.tables[n] == TableAt(n, v + 1, v + 1, k))
    requires forall n | n in Changed(v + 1) :: (n in d.tables <==> Since(n) <= v) && (n in d.tables ==> d.tables[n] == TableAt(n, v, v, k))
    requires d.temps == map[] && d.indices == IndicesAt(v)
    ensures Reached(d, v, v, k)
  {
    hide Columns, Since, Left, Shape, Changed, IndicesAt;
    forall n: TableId ensures (n in d.tables <==> Since(n) <= v) && (n in d.tables ==> d.tables[n] == TableAt(n, v, v, k)) {
      if n !in Changed(v + 1) {
        Untouched(n, v + 1);
        if Since(n) <= v { UntouchedDown(n, v, k); }
      }
    }
    assert d.tables == At(v, v, k).tables;
  }

  /** A table that did not exist at version `t` comes back empty. */
  lemma Fresh(n: TableId, v: int, t: int, k: Content)
    requires Full(k) && t < Since(n)
    ensures TableAt(n, v, t, k) == Table(Columns(n, v), [])
  {
  }

  /** The statements succeed and leave `d'`. */
  predicate Leads(ss: seq<Stmt>, d: Db, d': Db) {
    RunAll(ss, d) == Outcome(Ok, d')
  }

  lemma LeadsConcat(a: seq<Stmt>, b: seq<Stmt>, d: Db, d': Db, d'': Db)
    requires Leads(a, d, d') && Leads(b, d', d'')
    ensures Leads(a + b, d, d'')
  {
    hide RunAll;
    RunAllConcat(a, b, d);
  }

  lemma LeadsOne(s: Stmt, d: Db, d': Db)
    requires Effect(s, d) == Success(d')
    ensures Leads([s], d, d')
  {
    hide RunAll, Effect;
    RunOne(s, d);
  }

  /******* Parts *******/

  /** The statements turn table `n` from its shape at `v` to that at `v'`, going from `t` to `t'`. */
  predicate Turns(ss: seq<Stmt>, n: TableId, v: int, t: int, v': int, t': int, d: Db, rows: seq<Row>) {
    Leads(ss, d, Replaced(d, n, Shape(n, Columns(n, v'), t', rows)))
  }

  predicate Holds(n: TableId, v: int, t: int, d: Db, rows: seq<Row>) {
    n in d.tables && n !in d.temps && d.tables[n] == Shape(n, Columns(n, v), t, rows)
  }

  lemma TypesUp2Turns(d: Db, t: int, rows: seq<Row>)
    requires Holds(Types, 1, t, d, rows) && t <= 1
    ensures Turns(TypesUp2(), Types, 1, t, 2, t, d, rows)
  {
    hide RunAll, Rebuild, Shape, Replaced;
    var cs := [Id, Name, TypeKind, InputType, OutputType];
    RebuildFits(d, Types, Columns(Types, 1), t, cs, t, cs, None, rows, true);
  }

  lemma TypesFit1()
    ensures var cs := [Id, Name, IsArtifactType, InputType, OutputType]; Fits(Types, Columns(Types, 2), 2, cs, 1, cs, Columns(Types, 2))
  {
    assert Columns(Types, 2) == [Id, Name, TypeKind, InputType, OutputType];
  }

  lemma TypesDown1Turns(d: Db, rows: seq<Row>)
    requires Holds(Types, 2, 2, d, rows)
    ensures Turns(TypesDown1(), Types, 2, 2, 1, 1, d, rows)
  {
    hide RunAll, Rebuild, Shape, Replaced, Fits;
    TypesFit1();
    var cs := [Id, Name, IsArtifactType, InputType, OutputType];
    RebuildFits(d, Types, Columns(Types, 2), 2, cs, 1, cs, None, rows, true);
  }

  lemma ArtifactsUp5Turns(d: Db, t: int, rows: seq<Row>)
    requires Holds(Artifacts, 4, t, d, rows) && t <= 4
    ensures Turns(ArtifactsUp5(), Artifacts, 4, t, 5, t, d, rows)
  {
    hide RunAll, Rebuild, Shape, Replaced;
    RebuildFits(d, Artifacts, [Id, TypeId, Uri], t, Head(Artifacts), t, [Id, TypeId, Uri], None, rows, false);
  }

  lemma ArtifactsDown4Turns(d: Db, rows: seq<Row>)
    requires Holds(Artifacts, 5, 5, d, rows)
    ensures Turns(ArtifactsDown4(), Artifacts, 5, 5, 4, 4, d, rows)
  {
    hide RunAll, Rebuild, Shape, Replaced;
    var cs := [Id, TypeId, Uri];
    RebuildFits(d, Artifacts, Head(Artifacts), 5, cs, 4, cs, Some(cs), rows, false);
  }

  lemma ExecutionsUp5Turns(d: Db, t: int, rows: seq<Row>)
    requires Holds(Executions, 4, t, d, rows) && t <= 4
    ensures Turns(ExecutionsUp5(), Executions, 4, t, 5, t, d, rows)
  {
    hide RunAll, Rebuild, Shape, Replaced;
    RebuildFits(d, Executions, [Id, TypeId], t, Head(Executions), t, [Id, TypeId], None, rows, false);
  }

  lemma ExecutionsDown4Turns(d: Db, rows: seq<Row>)
    requires Holds(Executions, 5, 5, d, rows)
    ensures Turns(ExecutionsDown4(), Executions, 5, 5, 4, 4, d, rows)
  {
    hide RunAll, Rebuild, Shape, Replaced;
    var cs := [Id, TypeId];
    RebuildFits(d, Executions, Head(Executions), 5, cs, 4, cs, Some(cs), rows, false);
  }

  lemma ContextsUp5Turns(d: Db, t: int, rows: seq<Row>)
    requires Holds(Contexts, 4, t, d, rows) && t <= 4 && forall i | i in d.indices :: i.table != Contexts
    ensures Turns(ContextsUp5(), Contexts, 4, t, 5, t, d, rows)
  {
    hide RunAll, Effect, Shape;
    var cs := [Id, TypeId, Name];
    AddColumnFits(d, Contexts, cs, t, CreateTime, rows);
    var d1 := d.(tables := d.tables[Contexts := Shape(Contexts, cs + [CreateTime], t, rows)]);
    AddColumnFits(d1, Contexts, cs + [CreateTime], t, UpdateTime, rows);
    assert cs + [CreateTime] + [UpdateTime] == Head(Contexts);
    var d2 := d1.(tables := d1.tables[Contexts := Shape(Contexts, Head(Contexts), t, rows)]);
    RunTwo(AddColumn(Contexts, CreateTime), AddColumn(Contexts, UpdateTime), d, d1, d2);
    assert d2 == Replaced(d, Contexts, Shape(Contexts, Head(Contexts), t, rows));
  }

  lemma ContextsDown4Turns(d: Db, rows: seq<Row>)
    requires Holds(Contexts, 5, 5, d, rows)
    ensures Turns(ContextsDown4(), Contexts, 5, 5, 4, 4, d, rows)
  {
    hide RunAll, Rebuild, Shape, Replaced;
    var cs := [Id, TypeId, Name];
    RebuildFits(d, Contexts, Head(Contexts), 5, cs, 4, cs, Some(cs), rows, false);
  }

  lemma TypesUp6Turns(d: Db, t: int, rows: seq<Row>)
    requires Holds(Types, 5, t, d, rows) && t <= 5
    ensures Turns(TypesUp6(), Types, 5, t, 6, t, d, rows)
  {
    hide RunAll, Rebuild, Shape, Replaced;
    RebuildFits(d, Types, Columns(Types, 5), t, Head(Types), t, [Id, Name, TypeKind, InputType, OutputType], None, rows, false);
  }

  lemma TypesDown5Turns(d: Db, rows: seq<Row>)
    requires Holds(Types, 6, 6, d, rows)
    ensures Turns(TypesDown5(), Types, 6, 6, 5, 5, d, rows)
  {
    hide RunAll, Rebuild, Shape, Replaced;
    var cs := [Id, Name, TypeKind, InputType, OutputType];
    RebuildFits(d, Types, Head(Types), 6, cs, 5, cs, Some(cs), rows, false);
  }

  function Owner(n: TableId): Column
    requires IsProperty(n)
  {
    if n == ArtifactProperties then ArtifactId else if n == ExecutionProperties then ExecutionId else ContextId
  }

  lemma PropertiesUp7Turns(n: TableId, d: Db, t: int, rows: seq<Row>)
    requires IsProperty(n) && Holds(n, 6, t, d, rows) && t <= 6 && forall i | i in d.indices :: i.table != n
    ensures Turns([AddColumn(n, ByteValue)], n, 6, t, 7, t, d, rows)
  {
    hide RunAll, Effect, Shape;
    AddColumnFits(d, n, Columns(n, 6), t, ByteValue, rows);
    assert Columns(n, 6) + [ByteValue] == Columns(n, 7);
    var d' := Replaced(d, n, Shape(n, Columns(n, 7), t, rows));
    assert d'.indices == d.indices;
    LeadsOne(AddColumn(n, ByteValue), d, d');
  }

  lemma PropertiesFit(n: TableId)
    requires IsProperty(n)
    ensures var cs := OldProperty(Owner(n));
            Columns(n, 6) == cs && Fits(n, Columns(n, 7), 7, cs, 6, cs, cs)
  {
  }

  lemma PropertiesDown6Turns(n: TableId, d: Db, rows: seq<Row>)
    requires IsProperty(n) && Holds(n, 7, 7, d, rows)
    ensures Turns(PropertiesDown6(n, Owner(n)), n, 7, 7, 6, 6, d, rows)
  {
    hide RunAll, Rebuild, Shape, Replaced, Columns, Fits, OldProperty;
    PropertiesFit(n);
    var cs := OldProperty(Owner(n));
    RebuildFits(d, n, Columns(n, 7), 7, cs, 6, cs, Some(cs), rows, true);
  }

  lemma EventsDown7Turns(d: Db, rows: seq<Row>)
    requires Holds(Events, 8, 8, d, rows)
    ensures Turns(EventsDown7(), Events, 8, 8, 7, 7, d, rows)
  {
    hide RunAll, Rebuild, Shape, Replaced;
    RebuildFits(d, Events, EVENT_COLUMNS, 8, EVENT_COLUMNS, 7, EVENT_COLUMNS, None, rows, false);
  }

  lemma FilterAll(rows: seq<Row>, p: Row -> bool)
    requires forall row | row in rows :: p(row)
    ensures FilterRows(rows, p) == rows
  {
    if rows != [] {
      assert rows[0] in rows;
      FilterAll(rows[1..], p);
    }
  }

  /** The script that gives events a unique key keeps the latest of each kind. */
  lemma LatestRuns(d: Db)
    requires Events in d.tables && Events !in d.temps && d.tables[Events].columns == EVENT_COLUMNS
    ensures var rows := d.tables[Events].rows;
            Leads(EventsUp8(), d, Replaced(d, Events, Table(EVENT_COLUMNS,
              MapRows(FilterRows(rows, Latest(rows)), row => CopyRow(EVENT_COLUMNS, EVENT_COLUMNS, EVENT_COLUMNS, row)))))
  {
    hide RunAll, FilterRows, CopyRow, Latest;
    var ss, rows := EventsUp8(), d.tables[Events].rows;
    var copied := Table(EVENT_COLUMNS, MapRows(FilterRows(rows, Latest(rows)),
      row => CopyRow(EVENT_COLUMNS, EVENT_COLUMNS, EVENT_COLUMNS, row)));
    var d1 := Effect(ss[0], d).value;
    assert d1.temps[Events] == Table(EVENT_COLUMNS, []);
    var d2 := Effect(ss[1], d1).value;
    assert [] + copied.rows == copied.rows;
    assert d2 == d.(temps := d.temps[Events := copied]);
    var d3 := Effect(ss[2], d2).value;
    var d4 := Effect(ss[3], d3).value;
    assert d.temps[Events := copied] - {Events} == d.temps;
    assert (d.tables - {Events})[Events := copied] == d.tables[Events := copied];
    assert d4 == Replaced(d, Events, copied);
    hide Effect;
    RunFour(ss[0], ss[1], ss[2], ss[3], d, d1, d2, d3, d4);
  }

  lemma EventsUp8Turns(d: Db, t: int, rows: seq<Row>)
    requires Holds(Events, 7, t, d, rows) && t >= 0
    ensures Turns(EventsUp8(), Events, 7, t, 8, t, d, FilterRows(rows, Latest(rows)))
  {
    hide RunAll, EventsUp8, Shape, Replaced, FilterRows, Latest, CopyRow;
    var cs, kept := EVENT_COLUMNS, FilterRows(rows, Latest(rows));
    assert d.tables[Events].columns == cs by { ShapeColumns(Events, cs, t, rows); }
    LatestRuns(d);
    LatestShape(t, rows);
    assert Fits(Events, cs, t, cs, t, cs, cs) by { EventsFit(t); }
    CopyFits(Events, cs, t, cs, t, cs, cs, kept);
  }

  lemma ShapeColumns(n: TableId, cs: seq<Column>, t: int, rows: seq<Row>)
    ensures Shape(n, cs, t, rows).columns == cs
  {
  }

  lemma EventsFit(t: int)
    requires t >= 0
    ensures Fits(Events, EVENT_COLUMNS, t, EVENT_COLUMNS, t, EVENT_COLUMNS, EVENT_COLUMNS)
  {
  }

  /** A column that version `t` had keeps its value. */
  lemma KeptColumn(n: TableId, cs: seq<Column>, t: int, row: Row, c: Column)
    requires c in cs && ColumnSince(n, c) <= t && c != IsArtifactType
    ensures Get(RowOf(n, cs, t, row), c) == Get(row, c)
  {
    hide ColumnSince, Default;
  }

  lemma EventRow(t: int, row: Row)
    requires t >= 0
    ensures var shaped := RowOf(Events, EVENT_COLUMNS, t, row);
            && Get(shaped, Id) == Get(row, Id) && Get(shaped, ArtifactId) == Get(row, ArtifactId)
            && Get(shaped, ExecutionId) == Get(row, ExecutionId) && Get(shaped, EventType) == Get(row, EventType)
  {
    hide RowOf, Get;
    var cs := EVENT_COLUMNS;
    assert cs[0] == Id && cs[1] == ArtifactId && cs[2] == ExecutionId && cs[3] == EventType;
    KeptColumn(Events, cs, t, row, Id);
    KeptColumn(Events, cs, t, row, ArtifactId);
    KeptColumn(Events, cs, t, row, ExecutionId);
    KeptColumn(Events, cs, t, row, EventType);
  }

  lemma SupersedesShape(t: int, a: Row, b: Row)
    requires t >= 0
    ensures Supersedes(RowOf(Events, EVENT_COLUMNS, t, a), RowOf(Events, EVENT_COLUMNS, t, b)) <==> Supersedes(a, b)
  {
    hide RowOf, Get;
    EventRow(t, a);
    EventRow(t, b);
  }

  lemma SupersededShape(t: int, rows: seq<Row>, row: Row)
    requires t >= 0
    ensures Superseded(Shape(Events, EVENT_COLUMNS, t, rows).rows, RowOf(Events, EVENT_COLUMNS, t, row)) <==> Superseded(rows, row)
  {
    hide RowOf, Supersedes;
    var shaped, row' := Shape(Events, EVENT_COLUMNS, t, rows).rows, RowOf(Events, EVENT_COLUMNS, t, row);
    if Superseded(rows, row) {
      var other :| other in rows && Supersedes(other, row);
      var i :| 0 <= i < |rows| && rows[i] == other;
      SupersedesShape(t, other, row);
      assert shaped[i] in shaped;
    }
    if Superseded(shaped, row') {
      var other :| other in shaped && Supersedes(other, row');
      var i :| 0 <= i < |shaped| && shaped[i] == other;
      SupersedesShape(t, rows[i], row);
      assert rows[i] in rows;
    }
  }

  /** Reshaping events does not change which are the latest. */
  lemma LatestShape(t: int, rows: seq<Row>)
    requires t >= 0
    ensures var shaped := Shape(Events, EVENT_COLUMNS, t, rows).rows;
            FilterRows(shaped, Latest(shaped)) == Shape(Events, EVENT_COLUMNS, t, FilterRows(rows, Latest(rows))).rows
  {
    hide RowOf, Superseded, FilterRows;
    var shaped := Shape(Events, EVENT_COLUMNS, t, rows).rows;
    forall row: Row ensures Latest(shaped)(RowOf(Events, EVENT_COLUMNS, t, row)) == Latest(rows)(row) {
      SupersededShape(t, rows, row);
    }
    FilterMap(rows, row => RowOf(Events, EVENT_COLUMNS, t, row), Latest(rows), Latest(shaped));
  }

  lemma FilterMap(rows: seq<Row>, f: Row -> Row, p: Row -> bool, q: Row -> bool)
    requires forall row :: q(f(row)) == p(row)
    ensures FilterRows(MapRows(rows, f), q) == MapRows(FilterRows(rows, p), f)
  {
    if rows != [] {
      FilterMap(rows[1..], f, p, q);
      assert MapRows(rows, f)[1..] == MapRows(rows[1..], f);
      assert q(MapRows(rows, f)[0]) == p(rows[0]);
    }
  }

  lemma CreateTwo(d: Db, a: TableId, as': seq<Column>, b: TableId, bs: seq<Column>)
    requires a != b && a !in d.tables && b !in d.tables
    ensures Leads([Create(a, as'), Create(b, bs)], d, d.(tables := d.tables[a := Table(as', [])][b := Table(bs, [])]))
  {
    hide RunAll;
    var d1 := d.(tables := d.tables[a := Table(as', [])]);
    RunTwo(Create(a, as'), Create(b, bs), d, d1, d1.(tables := d1.tables[b := Table(bs, [])]));
  }

  lemma DropTwo(d: Db, a: TableId, b: TableId, ifExists: bool)
    requires a != b && a in d.tables && b in d.tables
    ensures Leads([Drop(a, ifExists), Drop(b, ifExists)], d,
                  d.(tables := d.tables - {a} - {b}, indices := Without(Without(d.indices, a), b)))
  {
    hide RunAll;
    var d1 := d.(tables := d.tables - {a}, indices := Without(d.indices, a));
    RunTwo(Drop(a, ifExists), Drop(b, ifExists), d, d1, d1.(tables := d1.tables - {b}, indices := Without(d1.indices, b)));
  }

  lemma PropertyIndexTables()
    ensures forall i | i in PropertyIndices() :: IsProperty(i.table)
  {
  }

  lemma IndexTables()
    ensures forall i | i in ArtifactIndices() :: i.table == Artifacts
    ensures forall i | i in NodeIndices() :: i.table == Executions || i.table == Contexts
    ensures forall i | i in PropertyIndices() :: IsProperty(i.table)
    ensures forall i | i in EventIndices() :: i.table == Events
  {
    hide PropertyIndices;
    PropertyIndexTables();
  }

  lemma PropertyIndexed(i: Index, v: int)
    requires v >= 6 && i in PropertyIndices()
    ensures Since(i.table) <= 6 && forall c | c in IndexColumns(i) :: c in Columns(i.table, v)
  {
    assert i.column in {IntValue, DoubleValue, StringValue} && IsProperty(i.table);
  }

  /** From version 6 on every index has its columns. */
  lemma IndexedColumns(i: Index, v: int)
    requires v >= 6 && (i in SecondaryIndices() || i in EventIndices())
    ensures Since(i.table) <= 6 && forall c | c in IndexColumns(i) :: c in Columns(i.table, v)
  {
    hide PropertyIndices;
    if i in PropertyIndices() { PropertyIndexed(i, v); }
  }

  lemma CreateIndicesLeads(d: Db, v: int, t: int, k: Content, indices: seq<Index>)
    requires Full(k) && v >= 6 && d.tables == At(v, t, k).tables
    requires forall i | i in indices :: i in SecondaryIndices() || i in EventIndices()
    ensures Leads(CreateIndices(indices), d, d.(indices := d.indices + Elements(indices)))
  {
    hide RunAll, Columns, Left, Since, At, IndexColumns;
    AtTables(v, t, k);
    forall i | i in indices ensures Indexable(d, i) { IndexedColumns(i, v); }
    CreateIndicesRuns(d, indices);
  }
}
