/** Every upgrade script takes the database at one version to the next version. */
module MigrationUp {
  import opened Statuses
  import opened Transactions
  import opened SchemaSql
  import opened Migration
  import opened SqliteScripts
  import opened MigrationEffect
  import opened MigrationSteps

  lemma Up2(t: int, k: Content) returns (d: Db)
    requires Full(k) && 0 <= t <= 1
    ensures Leads(Up(2), At(1, t, k), d) && Reached(d, 2, t, k) && d.env == Some([1])
  {
    hide Leads, Left, Shape, Columns, At, TypesUp2;
    var d0, rows := At(1, t, k), Left(Types, t, k);
    AtTables(1, t, k);
    TypesUp2Turns(d0, t, rows);
    d := Replaced(d0, Types, Shape(Types, Columns(Types, 2), t, rows));
    ReachedUp(d, 2, t, k);
  }

  lemma New3()
    ensures Since(Contexts) == 3 && Columns(Contexts, 3) == [Id, TypeId, Name]
    ensures Since(ContextProperties) == 3 && Columns(ContextProperties, 3) == OldProperty(ContextId)
  {
  }

  lemma Up3(t: int, k: Content) returns (d: Db)
    requires Full(k) && 0 <= t <= 2
    ensures Leads(Up(3), At(2, t, k), d) && Reached(d, 3, t, k) && d.env == Some([2])
  {
    hide Leads, Left, Shape, Columns, Since, At;
    var d0 := At(2, t, k);
    AtTables(2, t, k);
    New3();
    CreateTwo(d0, Contexts, [Id, TypeId, Name], ContextProperties, OldProperty(ContextId));
    d := d0.(tables := d0.tables[Contexts := Table([Id, TypeId, Name], [])][ContextProperties := Table(OldProperty(ContextId), [])]);
    Fresh(Contexts, 3, t, k);
    Fresh(ContextProperties, 3, t, k);
    ReachedUp(d, 3, t, k);
  }

  lemma New4()
    ensures Since(Associations) == 4 && Columns(Associations, 4) == [Id, ContextId, ExecutionId]
    ensures Since(Attributions) == 4 && Columns(Attributions, 4) == [Id, ContextId, ArtifactId]
  {
  }

  lemma Up4(t: int, k: Content) returns (d: Db)
    requires Full(k) && 0 <= t <= 3
    ensures Leads(Up(4), At(3, t, k), d) && Reached(d, 4, t, k) && d.env == Some([3])
  {
    hide Leads, Left, Shape, Columns, Since, At;
    var d0 := At(3, t, k);
    AtTables(3, t, k);
    New4();
    CreateTwo(d0, Associations, [Id, ContextId, ExecutionId], Attributions, [Id, ContextId, ArtifactId]);
    d := d0.(tables := d0.tables[Associations := Table([Id, ContextId, ExecutionId], [])]
                                [Attributions := Table([Id, ContextId, ArtifactId], [])]);
    Fresh(Associations, 4, t, k);
    Fresh(Attributions, 4, t, k);
    ReachedUp(d, 4, t, k);
  }

  lemma Up5(t: int, k: Content) returns (d: Db)
    requires Full(k) && 0 <= t <= 4
    ensures Leads(Up(5), At(4, t, k), d) && Reached(d, 5, t, k) && d.env == Some([4])
  {
    hide Leads, Left, Shape, Columns, At, ArtifactsUp5, ExecutionsUp5, ContextsUp5;
    var d0 := At(4, t, k);
    AtTables(4, t, k);
    var artifacts, executions, contexts := Left(Artifacts, t, k), Left(Executions, t, k), Left(Contexts, t, k);
    ArtifactsUp5Turns(d0, t, artifacts);
    var d1 := Replaced(d0, Artifacts, Shape(Artifacts, Columns(Artifacts, 5), t, artifacts));
    ExecutionsUp5Turns(d1, t, executions);
    var d2 := Replaced(d1, Executions, Shape(Executions, Columns(Executions, 5), t, executions));
    ContextsUp5Turns(d2, t, contexts);
    d := Replaced(d2, Contexts, Shape(Contexts, Columns(Contexts, 5), t, contexts));
    LeadsConcat(ExecutionsUp5(), ContextsUp5(), d1, d2, d);
    LeadsConcat(ArtifactsUp5(), ExecutionsUp5() + ContextsUp5(), d0, d1, d);
    ReachedUp(d, 5, t, k);
  }

  lemma New6()
    ensures Since(Types) == 0
    ensures Since(ParentTypes) == 6 && Columns(ParentTypes, 6) == [TypeId, ParentTypeId]
    ensures Since(ParentContexts) == 6 && Columns(ParentContexts, 6) == [ContextId, ParentContextId]
  {
  }

  lemma Up6(t: int, k: Content) returns (d: Db)
    requires Full(k) && 0 <= t <= 5
    ensures Leads(Up(6), At(5, t, k), d) && Reached(d, 6, t, k) && d.env == Some([5])
  {
    hide Leads, Left, Shape, Columns, Since, At, TypesUp6, CreateIndices, IndicesUp6, IndicesAt, Elements, SecondaryIndices;
    var d0, rows := At(5, t, k), Left(Types, t, k);
    AtTables(5, t, k);
    Indices6();
    New6();
    CreateTwo(d0, ParentTypes, [TypeId, ParentTypeId], ParentContexts, [ContextId, ParentContextId]);
    var d1 := d0.(tables := d0.tables[ParentTypes := Table([TypeId, ParentTypeId], [])]
                                     [ParentContexts := Table([ContextId, ParentContextId], [])]);
    Fresh(ParentTypes, 6, t, k);
    Fresh(ParentContexts, 6, t, k);
    TypesUp6Turns(d1, t, rows);
    var d2 := Replaced(d1, Types, Shape(Types, Columns(Types, 6), t, rows));
    d := d2.(indices := IndicesAt(6));
    ReachedUp(d, 6, t, k);
    CreateIndicesLeads(d2, 6, t, k, IndicesUp6());
    LeadsConcat(TypesUp6(), CreateIndices(IndicesUp6()), d1, d2, d);
    LeadsConcat([Create(ParentTypes, [TypeId, ParentTypeId]), Create(ParentContexts, [ContextId, ParentContextId])],
                TypesUp6() + CreateIndices(IndicesUp6()), d0, d1, d);
  }

  lemma Indices6()
    ensures Without(IndicesAt(5), Types) + Elements(IndicesUp6()) == IndicesAt(6)
    ensures forall i | i in IndicesUp6() :: i in SecondaryIndices() || i in EventIndices()
  {
  }

  lemma Up7(t: int, k: Content) returns (d: Db)
    requires Full(k) && 0 <= t <= 6
    ensures Leads(Up(7), At(6, t, k), d) && Reached(d, 7, t, k) && d.env == Some([6])
  {
    hide Leads, Left, Shape, Columns, At, CreateIndices, IndicesAt, Elements, SecondaryIndices;
    var d0 := At(6, t, k);
    AtTables(6, t, k);
    Indices7();
    var d1 := PropertyUp7(d0, ArtifactProperties, t, k);
    var d2 := PropertyUp7(d1, ExecutionProperties, t, k);
    var d3 := PropertyUp7(d2, ContextProperties, t, k);
    var indices := [Index(EventPaths, EventId)];
    d := d3.(indices := IndicesAt(7));
    ReachedUp(d, 7, t, k);
    CreateIndicesLeads(d3, 7, t, k, indices);
    var last := [AddColumn(ContextProperties, ByteValue)];
    LeadsConcat(last, CreateIndices(indices), d2, d3, d);
    var middle := [AddColumn(ExecutionProperties, ByteValue)];
    LeadsConcat(middle, last + CreateIndices(indices), d1, d2, d);
    LeadsConcat([AddColumn(ArtifactProperties, ByteValue)], middle + (last + CreateIndices(indices)), d0, d1, d);
  }

  lemma PropertyUp7(d: Db, n: TableId, t: int, k: Content) returns (d': Db)
    requires Full(k) && IsProperty(n) && t <= 6 && n in d.tables && n !in d.temps
    requires d.tables[n] == TableAt(n, 6, t, k) && forall i | i in d.indices :: i.table != n
    ensures Leads([AddColumn(n, ByteValue)], d, d') && d' == d.(tables := d.tables[n := TableAt(n, 7, t, k)])
  {
    hide Leads, Left, Shape, Columns;
    PropertiesUp7Turns(n, d, t, Left(n, t, k));
    d' := Replaced(d, n, Shape(n, Columns(n, 7), t, Left(n, t, k)));
    assert d'.indices == d.indices;
  }

  lemma Indices7()
    ensures forall i | i in IndicesAt(6) :: !IsProperty(i.table)
    ensures IndicesAt(6) + Elements([Index(EventPaths, EventId)]) == IndicesAt(7)
    ensures forall i | i in [Index(EventPaths, EventId)] :: i in SecondaryIndices() || i in EventIndices()
    ensures Since(ArtifactProperties) == 0 && Since(ExecutionProperties) == 0 && Since(ContextProperties) == 3
  {
    hide ArtifactIndices, NodeIndices, PropertyIndices;
    IndexTables();
  }

  lemma Indices8()
    ensures Without(IndicesAt(7) + Elements(PropertyIndices()), Events) + Elements([Index(Events, ExecutionId)]) == IndicesAt(8)
    ensures forall i | i in PropertyIndices() :: i in SecondaryIndices()
    ensures Index(Events, ExecutionId) in SecondaryIndices()
    ensures Since(Events) == 0 && Since(EventPaths) == 0
  {
    hide ArtifactIndices, NodeIndices, PropertyIndices;
    IndexTables();
  }

  /** The last statement of the last script deletes the paths of events that are no more. */
  lemma DanglingPathsDeleted(d: Db, t: int, paths: seq<Row>, events: seq<Row>)
    requires 0 <= t && Events in d.tables && EventPaths in d.tables
    requires d.tables[Events] == Shape(Events, EVENT_COLUMNS, t, events)
    requires d.tables[EventPaths] == Shape(EventPaths, Head(EventPaths), t, paths)
    ensures Effect(DeleteDanglingPaths, d) == Success(d.(tables :=
              d.tables[EventPaths := Shape(EventPaths, Head(EventPaths), t, FilterRows(paths, Refers(Ids(events))))]))
  {
    hide FilterRows, RowOf, Ids, Refers;
    IdsShape(t, events);
    PathsFiltered(t, paths, Ids(events));
  }

  lemma PathsFiltered(t: int, rows: seq<Row>, ids: set<Value>)
    requires t >= 0
    ensures FilterRows(Shape(EventPaths, Head(EventPaths), t, rows).rows, Refers(ids)) ==
            Shape(EventPaths, Head(EventPaths), t, FilterRows(rows, Refers(ids))).rows
  {
    hide RowOf, Get, FilterRows;
    forall row: Row ensures Refers(ids)(RowOf(EventPaths, Head(EventPaths), t, row)) == Refers(ids)(row) { PathRow(t, row); }
    FilterMap(rows, row => RowOf(EventPaths, Head(EventPaths), t, row), Refers(ids), Refers(ids));
  }

  lemma PathRow(t: int, row: Row)
    requires t >= 0
    ensures Get(RowOf(EventPaths, Head(EventPaths), t, row), EventId) == Get(row, EventId)
  {
    hide RowOf, Get;
    assert Head(EventPaths)[0] == EventId;
    KeptColumn(EventPaths, Head(EventPaths), t, row, EventId);
  }

  lemma IdsShape(t: int, rows: seq<Row>)
    requires t >= 0
    ensures Ids(Shape(Events, EVENT_COLUMNS, t, rows).rows) == Ids(rows)
  {
    hide RowOf, Get;
    var shaped := Shape(Events, EVENT_COLUMNS, t, rows).rows;
    forall row | row in rows ensures Get(row, Id) in Ids(shaped) {
      var i :| 0 <= i < |rows| && rows[i] == row;
      EventRow(t, row);
      assert shaped[i] in shaped;
    }
    forall row | row in shaped ensures Get(row, Id) in Ids(rows) {
      var i :| 0 <= i < |shaped| && shaped[i] == row;
      EventRow(t, rows[i]);
      assert rows[i] in rows;
    }
  }

  /** The tables after the last script, but for the indices. */
  lemma DedupedTables(t: int, k: Content)
    requires Full(k) && t >= 0
    ensures Since(Events) == 0 && Since(EventPaths) == 0
    ensures forall n | n != Events && n != EventPaths :: TableAt(n, 7, t, Deduped(k)) == TableAt(n, 7, t, k)
    ensures TableAt(Events, 7, t, k) == Shape(Events, EVENT_COLUMNS, t, k[Events])
    ensures TableAt(EventPaths, 7, t, k) == Shape(EventPaths, Head(EventPaths), t, k[EventPaths])
    ensures TableAt(Events, 8, t, Deduped(k)) == Shape(Events, EVENT_COLUMNS, t, FilterRows(k[Events], Latest(k[Events])))
    ensures TableAt(EventPaths, 7, t, Deduped(k)) ==
            Shape(EventPaths, Head(EventPaths), t, FilterRows(k[EventPaths], Refers(Ids(FilterRows(k[Events], Latest(k[Events]))))))
  {
    hide FilterRows, Shape, Latest, Refers, Ids;
  }

  lemma Up8(t: int, k: Content) returns (d: Db)
    requires Full(k) && 0 <= t <= 7
    ensures Leads(Up(8), At(7, t, k), d) && Reached(d, 8, t, Deduped(k)) && d.env == Some([7])
  {
    hide Leads, Left, Shape, At, CreateIndices, IndicesAt, Elements, SecondaryIndices, PropertyIndices, EventsUp8,
      Effect, Deduped, FilterRows, Latest, Refers, Ids, Since;
    var d0, kept := At(7, t, k), FilterRows(k[Events], Latest(k[Events]));
    AtTables(7, t, k);
    DedupedTables(t, k);
    Indices8();
    assert Columns(Events, 7) == EVENT_COLUMNS == Columns(Events, 8);
    hide Columns;
    CreateIndicesLeads(d0, 7, t, k, PropertyIndices());
    var d1 := d0.(indices := d0.indices + Elements(PropertyIndices()));
    EventsUp8Turns(d1, t, k[Events]);
    var d2 := Replaced(d1, Events, Shape(Events, EVENT_COLUMNS, t, kept));
    var execution := [Index(Events, ExecutionId)];
    EventIndexLeads(d2, t, kept);
    var d3 := d2.(indices := IndicesAt(8));
    DanglingPathsDeleted(d3, t, k[EventPaths], kept);
    d := d3.(tables := d3.tables[EventPaths := TableAt(EventPaths, 7, t, Deduped(k))]);
    LeadsOne(DeleteDanglingPaths, d3, d);
    LeadsConcat(CreateIndices(execution), [DeleteDanglingPaths], d2, d3, d);
    LeadsConcat(EventsUp8(), CreateIndices(execution) + [DeleteDanglingPaths], d1, d2, d);
    LeadsConcat(CreateIndices(PropertyIndices()), EventsUp8() + (CreateIndices(execution) + [DeleteDanglingPaths]), d0, d1, d);
    ReachedUp(d, 8, t, Deduped(k));
  }

  lemma EventIndexLeads(d: Db, t: int, rows: seq<Row>)
    requires Events in d.tables && d.tables[Events] == Shape(Events, EVENT_COLUMNS, t, rows)
    ensures var execution := [Index(Events, ExecutionId)];
            Leads(CreateIndices(execution), d, d.(indices := d.indices + Elements(execution)))
  {
    hide RunAll, Elements;
    assert EVENT_COLUMNS[2] == ExecutionId;
    assert Indexable(d, Index(Events, ExecutionId));
    CreateIndicesRuns(d, [Index(Events, ExecutionId)]);
  }
}
