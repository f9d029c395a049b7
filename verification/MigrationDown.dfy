/** Every downgrade script takes the database at one version to the version before. */
module MigrationDown {
  import opened Statuses
  import opened Transactions
  import opened SchemaSql
  import opened Migration
  import opened SqliteScripts
  import opened MigrationEffect
  import opened MigrationSteps

  lemma Down0(k: Content) returns (d: Db)
    requires Full(k)
    ensures Leads(Down(0), At(1, 1, k), d) && d == At(0, 0, k)
  {
    hide Leads, Left, Shape, Columns, Since, IndicesAt;
    var d0 := At(1, 1, k);
    AtTables(1, 1, k);
    d := d0.(env := None);
    LeadsOne(DropEnv, d0, d);
    assert IndicesAt(1) == IndicesAt(0) by { NoIndices(); }
    ReachedDown(d, 0, k);
  }

  lemma NoIndices()
    ensures forall v | v < 6 :: IndicesAt(v) == {}
  {
  }

  lemma Down1(k: Content) returns (d: Db)
    requires Full(k)
    ensures Leads(Down(1), At(2, 2, k), d) && Reached(d, 1, 1, Trimmed(k)) && d.env == Some([2])
  {
    hide Leads, Left, Shape, Columns, Since, At, IndicesAt, TypesDown1, Effect, Trimmed;
    ContextTypesDeleted(k);
    LeadsOne(DeleteTypesOfKind(2), At(2, 2, k), At(2, 2, Trimmed(k)));
    d := Renamed1(Trimmed(k));
    LeadsConcat([DeleteTypesOfKind(2)], TypesDown1(), At(2, 2, k), At(2, 2, Trimmed(k)), d);
  }

  lemma Renamed1(k: Content) returns (d: Db)
    requires Full(k)
    ensures Leads(TypesDown1(), At(2, 2, k), d) && Reached(d, 1, 1, k) && d.env == Some([2])
  {
    hide Leads, Left, Shape, Columns, Since, At, IndicesAt, TypesDown1, Effect;
    var d0, rows := At(2, 2, k), Left(Types, 2, k);
    AtTables(2, 2, k);
    NoIndices();
    TypesLeftDown(1, k);
    TypesDown1Turns(d0, rows);
    d := Replaced(d0, Types, Shape(Types, Columns(Types, 1), 1, rows));
    ReachedDown(d, 1, k);
  }

  lemma TypesSince()
    ensures Since(Types) == 0
  {
  }

  lemma ContextTypesDeleted(k: Content)
    requires Full(k)
    ensures Effect(DeleteTypesOfKind(2), At(2, 2, k)) == Success(At(2, 2, Trimmed(k)))
  {
    hide FilterRows, RowOf, NotOfKind;
    var d := At(2, 2, k);
    TypesFiltered(k[Types]);
    assert d.tables[Types := Shape(Types, Columns(Types, 2), 2, FilterRows(k[Types], NotOfKind(2)))] == At(2, 2, Trimmed(k)).tables;
  }

  lemma TypesFiltered(rows: seq<Row>)
    ensures FilterRows(Shape(Types, Columns(Types, 2), 2, rows).rows, NotOfKind(2)) ==
            Shape(Types, Columns(Types, 2), 2, FilterRows(rows, NotOfKind(2))).rows
  {
    hide RowOf, Get, FilterRows;
    forall row: Row ensures NotOfKind(2)(RowOf(Types, Columns(Types, 2), 2, row)) == NotOfKind(2)(row) { KindRow(row); }
    FilterMap(rows, row => RowOf(Types, Columns(Types, 2), 2, row), NotOfKind(2), NotOfKind(2));
  }

  lemma KindRow(row: Row)
    ensures Get(RowOf(Types, Columns(Types, 2), 2, row), TypeKind) == Get(row, TypeKind)
  {
    hide RowOf, Get;
    assert Columns(Types, 2)[2] == TypeKind;
    KeptColumn(Types, Columns(Types, 2), 2, row, TypeKind);
  }

  lemma Down2(k: Content) returns (d: Db)
    requires Full(k)
    ensures Leads(Down(2), At(3, 3, k), d) && Reached(d, 2, 2, k) && d.env == Some([3])
  {
    hide Leads, Left, Shape, Columns, At, IndicesAt;
    var d0 := At(3, 3, k);
    AtTables(3, 3, k);
    NoIndices();
    DropTwo(d0, Contexts, ContextProperties, true);
    d := d0.(tables := d0.tables - {Contexts} - {ContextProperties}, indices := {});
    assert Without(Without({}, Contexts), ContextProperties) == {};
    ReachedDown(d, 2, k);
  }

  lemma Down3(k: Content) returns (d: Db)
    requires Full(k)
    ensures Leads(Down(3), At(4, 4, k), d) && Reached(d, 3, 3, k) && d.env == Some([4])
  {
    hide Leads, Left, Shape, Columns, At, IndicesAt;
    var d0 := At(4, 4, k);
    AtTables(4, 4, k);
    NoIndices();
    DropTwo(d0, Associations, Attributions, true);
    d := d0.(tables := d0.tables - {Associations} - {Attributions}, indices := {});
    assert Without(Without({}, Associations), Attributions) == {};
    ReachedDown(d, 3, k);
  }

  lemma LeftDown(n: TableId, v: int, k: Content)
    requires Full(k) && Since(n) <= v
    ensures Left(n, v + 1, k) == Left(n, v, k)
  {
  }

  lemma NodesSince()
    ensures Since(Artifacts) == 0 && Since(Executions) == 0 && Since(Contexts) == 3
  {
  }

  lemma Down4(k: Content) returns (d: Db)
    requires Full(k)
    ensures Leads(Down(4), At(5, 5, k), d) && Reached(d, 4, 4, k) && d.env == Some([5])
  {
    hide Leads, Left, Shape, Columns, Since, At, IndicesAt, ArtifactsDown4, ExecutionsDown4, ContextsDown4;
    var d0 := At(5, 5, k);
    AtTables(5, 5, k);
    NodesSince();
    NoIndices();
    var artifacts, executions, contexts := Left(Artifacts, 5, k), Left(Executions, 5, k), Left(Contexts, 5, k);
    ArtifactsDown4Turns(d0, artifacts);
    var d1 := Replaced(d0, Artifacts, Shape(Artifacts, Columns(Artifacts, 4), 4, artifacts));
    ExecutionsDown4Turns(d1, executions);
    var d2 := Replaced(d1, Executions, Shape(Executions, Columns(Executions, 4), 4, executions));
    ContextsDown4Turns(d2, contexts);
    d := Replaced(d2, Contexts, Shape(Contexts, Columns(Contexts, 4), 4, contexts));
    LeadsConcat(ExecutionsDown4(), ContextsDown4(), d1, d2, d);
    LeadsConcat(ArtifactsDown4(), ExecutionsDown4() + ContextsDown4(), d0, d1, d);
    LeftDown(Artifacts, 4, k);
    LeftDown(Executions, 4, k);
    LeftDown(Contexts, 4, k);
    ReachedDown(d, 4, k);
  }

  function IndicesDown5(): seq<Index> {
    ArtifactIndices() + EventIndices() + NodeIndices()
  }

  lemma Indices5()
    ensures var left := Without(Without(Without(IndicesAt(6), ParentTypes), ParentContexts), Types);
            Elements(IndicesDown5()) <= left && left - Elements(IndicesDown5()) == {}
  {
    hide ArtifactIndices, NodeIndices, PropertyIndices;
    IndexTables();
  }

  lemma IndicesDown5Distinct()
    ensures forall j, k | 0 <= j < k < |IndicesDown5()| :: IndicesDown5()[j] != IndicesDown5()[k]
  {
    assert IndicesDown5() ==
      [Index(Artifacts, Uri), Index(Artifacts, CreateTime), Index(Artifacts, UpdateTime), Index(Events, ArtifactId),
       Index(Events, ExecutionId), Index(Executions, CreateTime), Index(Executions, UpdateTime), Index(Contexts, CreateTime),
       Index(Contexts, UpdateTime)];
  }

  lemma TypesLeftDown(v: int, k: Content)
    requires Full(k) && v >= 0
    ensures Left(Types, v + 1, k) == Left(Types, v, k) && Since(Types) == 0
  {
  }

  lemma Down5(k: Content) returns (d: Db)
    requires Full(k)
    ensures Leads(Down(5), At(6, 6, k), d) && Reached(d, 5, 5, k) && d.env == Some([6])
  {
    hide Leads, Left, Shape, Columns, At, IndicesAt, TypesDown5, ArtifactIndices, EventIndices, NodeIndices, IndicesDown5,
      DropIndices, Without, Elements;
    var d0, rows := At(6, 6, k), Left(Types, 6, k);
    AtTables(6, 6, k);
    NoIndices();
    Indices5();
    IndicesDown5Distinct();
    DropTwo(d0, ParentTypes, ParentContexts, false);
    var d1 := d0.(tables := d0.tables - {ParentTypes} - {ParentContexts},
                  indices := Without(Without(d0.indices, ParentTypes), ParentContexts));
    TypesDown5Turns(d1, rows);
    var d2 := Replaced(d1, Types, Shape(Types, Columns(Types, 5), 5, rows));
    DropIndicesLeads(d2, IndicesDown5());
    d := d2.(indices := {});
    LeadsConcat(TypesDown5(), DropIndices(IndicesDown5()), d1, d2, d);
    LeadsConcat([Drop(ParentTypes, false), Drop(ParentContexts, false)], TypesDown5() + DropIndices(IndicesDown5()), d0, d1, d);
    assert Down(5) == [Drop(ParentTypes, false), Drop(ParentContexts, false)] + (TypesDown5() + DropIndices(IndicesDown5())) by {
      IndicesDown5Is();
    }
    TypesLeftDown(5, k);
    ReachedDown(d, 5, k);
  }

  lemma IndicesDown5Is()
    ensures IndicesDown5() == ArtifactIndices() + EventIndices() + NodeIndices()
  {
  }

  lemma DropIndicesLeads(d: Db, indices: seq<Index>)
    requires Elements(indices) <= d.indices
    requires forall j, k | 0 <= j < k < |indices| :: indices[j] != indices[k]
    ensures Leads(DropIndices(indices), d, d.(indices := d.indices - Elements(indices)))
  {
    hide RunAll, DropIndices;
    DropIndicesRuns(d, indices);
  }

  lemma PropertyDown6(d: Db, n: TableId, k: Content) returns (d': Db)
    requires Full(k) && IsProperty(n) && n in d.tables && n !in d.temps
    requires d.tables[n] == TableAt(n, 7, 7, k) && forall i | i in d.indices :: i.table != n
    ensures Leads(PropertiesDown6(n, Owner(n)), d, d') && d' == d.(tables := d.tables[n := TableAt(n, 6, 6, k)])
  {
    hide Leads, Left, Shape, Columns, PropertiesDown6;
    PropertiesDown6Turns(n, d, Left(n, 7, k));
    LeftDown(n, 6, k);
    d' := Replaced(d, n, Shape(n, Columns(n, 6), 6, Left(n, 6, k)));
    assert d'.indices == d.indices;
  }

  lemma Indices6()
    ensures forall i | i in IndicesAt(7) :: !IsProperty(i.table)
    ensures Elements([Index(EventPaths, EventId)]) <= IndicesAt(7)
    ensures IndicesAt(7) - Elements([Index(EventPaths, EventId)]) == IndicesAt(6)
    ensures Since(ArtifactProperties) == 0 && Since(ExecutionProperties) == 0 && Since(ContextProperties) == 3
  {
    hide ArtifactIndices, NodeIndices, PropertyIndices;
    IndexTables();
  }

  lemma Down6(k: Content) returns (d: Db)
    requires Full(k)
    ensures Leads(Down(6), At(7, 7, k), d) && Reached(d, 6, 6, k) && d.env == Some([7])
  {
    hide Leads, Left, Shape, Columns, Since, At, IndicesAt, PropertiesDown6, DropIndices, Elements;
    var d0 := At(7, 7, k);
    AtTables(7, 7, k);
    Indices6();
    var d1 := PropertyDown6(d0, ArtifactProperties, k);
    var d2 := PropertyDown6(d1, ExecutionProperties, k);
    var d3 := PropertyDown6(d2, ContextProperties, k);
    var indices := [Index(EventPaths, EventId)];
    DropIndicesLeads(d3, indices);
    d := d3.(indices := IndicesAt(6));
    var last := PropertiesDown6(ContextProperties, ContextId) + DropIndices(indices);
    LeadsConcat(PropertiesDown6(ContextProperties, ContextId), DropIndices(indices), d2, d3, d);
    var middle := PropertiesDown6(ExecutionProperties, ExecutionId);
    LeadsConcat(middle, last, d1, d2, d);
    LeadsConcat(PropertiesDown6(ArtifactProperties, ArtifactId), middle + last, d0, d1, d);
    ReachedDown(d, 6, k);
  }

  lemma Indices7()
    ensures var left := Without(IndicesAt(8), Events) + Elements(EventIndices());
            Elements(PropertyIndices()) <= left && left - Elements(PropertyIndices()) == IndicesAt(7)
    ensures Since(Events) == 0
  {
    hide ArtifactIndices, NodeIndices, PropertyIndices;
    IndexTables();
  }

  lemma PropertyIndicesDistinct()
    ensures forall j, k | 0 <= j < k < |PropertyIndices()| :: PropertyIndices()[j] != PropertyIndices()[k]
  {
  }

  lemma Down7(k: Content) returns (d: Db)
    requires Full(k)
    ensures Leads(Down(7), At(8, 8, k), d) && Reached(d, 7, 7, k) && d.env == Some([8])
  {
    hide Leads, Left, Shape, Columns, Since, At, IndicesAt, EventsDown7, CreateIndices, DropIndices, PropertyIndices, EventIndices,
      Elements, Without, SecondaryIndices;
    var d0, rows := At(8, 8, k), Left(Events, 8, k);
    AtTables(8, 8, k);
    Indices7();
    EventsDown7Turns(d0, rows);
    var d1 := Replaced(d0, Events, Shape(Events, Columns(Events, 7), 7, rows));
    LeftDown(Events, 7, k);
    PropertyIndicesDistinct();
    var d3 := d1.(indices := IndicesAt(7));
    ReachedDown(d3, 7, k);
    CreateIndicesLeads(d1, 7, 7, k, EventIndices());
    var d2 := d1.(indices := d1.indices + Elements(EventIndices()));
    DropIndicesLeads(d2, PropertyIndices());
    d := d3;
    LeadsConcat(CreateIndices(EventIndices()), DropIndices(PropertyIndices()), d1, d2, d);
    LeadsConcat(EventsDown7(), CreateIndices(EventIndices()) + DropIndices(PropertyIndices()), d0, d1, d);
  }
}
