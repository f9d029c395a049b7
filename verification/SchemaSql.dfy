/**
 The SQL that schema migration and initialisation use, as statements over tables of rows. Every
 statement stands for one query of the configuration.
 */
module SchemaSql {
  import opened Statuses
  import opened Transactions

  datatype TableId =
    | Types | TypeProperties | ParentTypes
    | Artifacts | ArtifactProperties | Executions | ExecutionProperties
    | Events | EventPaths
    | Contexts | ContextProperties | ParentContexts | Associations | Attributions

  datatype Column =
    | Id | Name | Version | TypeKind | IsArtifactType | Description | InputType | OutputType
    | TypeId | ParentTypeId | DataType | Uri | NodeState | CreateTime | UpdateTime
    | ArtifactId | ExecutionId | ContextId | ParentContextId
    | IsCustom | IntValue | DoubleValue | StringValue | ByteValue
    | EventType | Milliseconds | EventId | IsIndexStep | StepIndex | StepKey

  datatype Value = Null | Int(i: int) | Double(d: real) | Text(s: string)

  type Row = map<Column, Value>

  datatype Table = Table(columns: seq<Column>, rows: seq<Row>)

  /** An index, told apart by its table and its last column. */
  datatype Index = Index(table: TableId, column: Column)

  /** `env` holds the rows of MLMDEnv; `temps` the tables named `...Temp`, which have no indices. */
  datatype Db = Db(tables: map<TableId, Table>, temps: map<TableId, Table>, indices: set<Index>, env: Option<seq<int>>)

  function Get(row: Row, c: Column): Value {
    if c in row then row[c] else Null
  }

  /** The value of a column that an insertion leaves out. */
  function Default(c: Column): Value {
    if c == CreateTime || c == UpdateTime then Int(0) else Null
  }

  predicate IsProperty(t: TableId) {
    t == ArtifactProperties || t == ExecutionProperties || t == ContextProperties
  }

  function IndexColumns(i: Index): seq<Column> {
    if IsProperty(i.table) then [Name, IsCustom, i.column] else [i.column]
  }

  datatype Stmt =
    | CreateEnv
    | DropEnv
    | InsertVersion(version: int)
    | UpdateVersion(version: int)
    | Create(t: TableId, columns: seq<Column>)
    | Drop(t: TableId, ifExists: bool)
    | AddColumn(t: TableId, c: Column)
    | CreateTemp(t: TableId, columns: seq<Column>, ifNotExists: bool)
      /** INSERT INTO the temporary table `into` SELECT `select`, or all columns, FROM the table. */
    | CopyToTemp(t: TableId, into: seq<Column>, select: Option<seq<Column>>)
      /** INSERT OR IGNORE of all events by descending id, under UNIQUE(artifact, execution, type). */
    | CopyLatestEvents(into: seq<Column>)
    | RenameTemp(t: TableId)
    | CreateIndex(index: Index, ifNotExists: bool)
    | DropIndex(index: Index)
    | DeleteTypesOfKind(kind: int)
    | DeleteDanglingPaths

  function MapRows(rows: seq<Row>, f: Row -> Row): (r: seq<Row>)
    ensures |r| == |rows| && forall i | 0 <= i < |rows| :: r[i] == f(rows[i])
  {
    seq(|rows|, i requires 0 <= i < |rows| => f(rows[i]))
  }

  function FilterRows(rows: seq<Row>, p: Row -> bool): seq<Row> {
    if rows == [] then [] else (if p(rows[0]) then [rows[0]] else []) + FilterRows(rows[1..], p)
  }

  /** The value a copied row has in column `c`. */
  function Pick(into: seq<Column>, select: seq<Column>, row: Row, c: Column): Value
    requires |into| == |select|
  {
    if into == [] then Default(c)
    else if into[0] == c then Get(row, select[0])
    else Pick(into[1..], select[1..], row, c)
  }

  function CopyRow(columns: seq<Column>, into: seq<Column>, select: seq<Column>, row: Row): Row
    requires |into| == |select|
  {
    map c | c in columns :: Pick(into, select, row, c)
  }

  predicate SameEvent(a: Row, b: Row) {
    Get(a, ArtifactId) == Get(b, ArtifactId) && Get(a, ExecutionId) == Get(b, ExecutionId) &&
    Get(a, EventType) == Get(b, EventType)
  }

  /** Equal events, of which `a` has the greater id. */
  predicate Supersedes(a: Row, b: Row) {
    SameEvent(a, b) && Get(a, Id).Int? && Get(b, Id).Int? && Get(a, Id).i > Get(b, Id).i
  }

  predicate Superseded(rows: seq<Row>, row: Row) {
    exists other :: other in rows && Supersedes(other, row)
  }

  function Ids(rows: seq<Row>): set<Value> {
    set row | row in rows :: Get(row, Id)
  }

  function Latest(rows: seq<Row>): Row -> bool {
    row => !Superseded(rows, row)
  }

  function NotOfKind(kind: int): Row -> bool {
    row => Get(row, TypeKind) != Int(kind)
  }

  /** Is the row a path of one of the events? */
  function Refers(ids: set<Value>): Row -> bool {
    row => Get(row, EventId) in ids
  }

  predicate Copies(from: Table, to: Table, into: seq<Column>, select: seq<Column>) {
    && |into| == |select|
    && (forall c | c in into :: c in to.columns)
    && (forall c | c in select :: c in from.columns)
  }

  /** A table's indices go with it. */
  function Without(indices: set<Index>, t: TableId): set<Index> {
    set i | i in indices && i.table != t
  }

  function Effect(s: Stmt, db: Db): Result<Db> {
    match s
    case CreateEnv => Success(if db.env.None? then db.(env := Some([])) else db)
    case DropEnv => Success(db.(env := None))
    case InsertVersion(v) =>
      if db.env.None? || v in db.env.value then Failure(Internal) else Success(db.(env := Some(db.env.value + [v])))
    case UpdateVersion(v) =>
      if db.env.None? || |db.env.value| > 1 then Failure(Internal)
      else Success(db.(env := Some(if db.env.value == [] then [] else [v])))
    case Create(t, columns) =>
      Success(if t in db.tables then db else db.(tables := db.tables[t := Table(columns, [])]))
    case Drop(t, ifExists) =>
      if t !in db.tables then (if ifExists then Success(db) else Failure(Internal))
      else Success(db.(tables := db.tables - {t}, indices := Without(db.indices, t)))
    case AddColumn(t, c) =>
      if t !in db.tables || c in db.tables[t].columns then Failure(Internal)
      else Success(db.(tables := db.tables[t := Table(db.tables[t].columns + [c],
        MapRows(db.tables[t].rows, (row: Row) => row[c := Default(c)]))]))
    case CreateTemp(t, columns, ifNotExists) =>
      if t in db.temps then (if ifNotExists then Success(db) else Failure(Internal))
      else Success(db.(temps := db.temps[t := Table(columns, [])]))
    case CopyToTemp(t, into, select) =>
      if t !in db.tables || t !in db.temps then Failure(Internal) else
      var from, to := db.tables[t], db.temps[t];
      var columns := if select.Some? then select.value else from.columns;
      if !Copies(from, to, into, columns) then Failure(Internal)
      else Success(db.(temps := db.temps[t := to.(rows := to.rows +
        MapRows(from.rows, row => CopyRow(to.columns, into, columns, row)))]))
    case CopyLatestEvents(into) =>
      if Events !in db.tables || Events !in db.temps then Failure(Internal) else
      var from, to := db.tables[Events], db.temps[Events];
      if !Copies(from, to, into, from.columns) then Failure(Internal)
      else Success(db.(temps := db.temps[Events := to.(rows := to.rows +
        MapRows(FilterRows(from.rows, Latest(from.rows)), row => CopyRow(to.columns, into, from.columns, row)))]))
    case RenameTemp(t) =>
      if t !in db.temps || t in db.tables then Failure(Internal)
      else Success(db.(temps := db.temps - {t}, tables := db.tables[t := db.temps[t]]))
    case CreateIndex(i, ifNotExists) =>
      if i.table !in db.tables || exists c :: c in IndexColumns(i) && c !in db.tables[i.table].columns then Failure(Internal)
      else if i in db.indices && !ifNotExists then Failure(AlreadyExists)
      else Success(db.(indices := db.indices + {i}))
    case DropIndex(i) =>
      if i !in db.indices then Failure(Internal) else Success(db.(indices := db.indices - {i}))
    case DeleteTypesOfKind(k) =>
      if Types !in db.tables || TypeKind !in db.tables[Types].columns then Failure(Internal)
      else Success(db.(tables := db.tables[Types := db.tables[Types].(rows :=
        FilterRows(db.tables[Types].rows, NotOfKind(k)))]))
    case DeleteDanglingPaths =>
      if EventPaths !in db.tables || Events !in db.tables then Failure(Internal)
      else Success(db.(tables := db.tables[EventPaths := db.tables[EventPaths].(rows :=
        FilterRows(db.tables[EventPaths].rows, Refers(Ids(db.tables[Events].rows))))]))
  }

  /** Statements one after the other, up to the first that fails. */
  function RunAll(ss: seq<Stmt>, db: Db): Outcome<Db>
    decreases |ss|
  {
    if ss == [] then Outcome(Ok, db) else
    var r := Effect(ss[0], db);
    if r.Failure? then Outcome(r.error, db) else RunAll(ss[1..], r.value)
  }

  lemma RunOne(s: Stmt, db: Db)
    ensures var r := Effect(s, db);
            RunAll([s], db) == if r.Success? then Outcome(Ok, r.value) else Outcome(r.error, db)
  {
    hide Effect;
    assert [s][1..] == [];
  }

  lemma RunCons(s: Stmt, ss: seq<Stmt>, db: Db)
    requires Effect(s, db).Success?
    ensures RunAll([s] + ss, db) == RunAll(ss, Effect(s, db).value)
  {
    hide Effect;
    assert ([s] + ss)[1..] == ss;
  }

  lemma RunAllConcat(a: seq<Stmt>, b: seq<Stmt>, db: Db)
    ensures var r := RunAll(a, db);
            RunAll(a + b, db) == if r.status == Ok then RunAll(b, r.state) else r
    decreases |a|
  {
    hide Effect;
    if a == [] {
      assert a + b == b;
    } else {
      assert (a + b)[1..] == a[1..] + b;
      var r := Effect(a[0], db);
      if r.Success? { RunAllConcat(a[1..], b, r.value); }
    }
  }
}
