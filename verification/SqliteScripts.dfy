/** The SQLite configuration: the tables of the current schema and the scripts between versions 0 and 8. */
module SqliteScripts {
  import opened Statuses
  import opened SchemaSql
  import opened Migration

  const LIBRARY_VERSION := 8

  /** The columns in the create_..._table queries. */
  function Head(t: TableId): seq<Column> {
    match t
    case Types => [Id, Name, Version, TypeKind, Description, InputType, OutputType]
    case TypeProperties => [TypeId, Name, DataType]
    case ParentTypes => [TypeId, ParentTypeId]
    case Artifacts => [Id, TypeId, Uri, NodeState, Name, CreateTime, UpdateTime]
    case ArtifactProperties => [ArtifactId, Name, IsCustom, IntValue, DoubleValue, StringValue, ByteValue]
    case Executions => [Id, TypeId, NodeState, Name, CreateTime, UpdateTime]
    case ExecutionProperties => [ExecutionId, Name, IsCustom, IntValue, DoubleValue, StringValue, ByteValue]
    case Events => [Id, ArtifactId, ExecutionId, EventType, Milliseconds]
    case EventPaths => [EventId, IsIndexStep, StepIndex, StepKey]
    case Contexts => [Id, TypeId, Name, CreateTime, UpdateTime]
    case ContextProperties => [ContextId, Name, IsCustom, IntValue, DoubleValue, StringValue, ByteValue]
    case ParentContexts => [ContextId, ParentContextId]
    case Associations => [Id, ContextId, ExecutionId]
    case Attributions => [Id, ContextId, ArtifactId]
  }

  /** A table is rebuilt: a temporary copy is filled, the table dropped, and the copy renamed. */
  function Rebuild(t: TableId, columns: seq<Column>, into: seq<Column>, select: Option<seq<Column>>, ifNotExists: bool): seq<Stmt> {
    [CreateTemp(t, columns, ifNotExists), CopyToTemp(t, into, select), Drop(t, false), RenameTemp(t)]
  }

  function CreateIndices(indices: seq<Index>): seq<Stmt> {
    seq(|indices|, k requires 0 <= k < |indices| => CreateIndex(indices[k], true))
  }

  function DropIndices(indices: seq<Index>): seq<Stmt> {
    seq(|indices|, k requires 0 <= k < |indices| => DropIndex(indices[k]))
  }

  function ArtifactIndices(): seq<Index> {
    [Index(Artifacts, Uri), Index(Artifacts, CreateTime), Index(Artifacts, UpdateTime)]
  }

  function EventIndices(): seq<Index> {
    [Index(Events, ArtifactId), Index(Events, ExecutionId)]
  }

  function NodeIndices(): seq<Index> {
    [Index(Executions, CreateTime), Index(Executions, UpdateTime), Index(Contexts, CreateTime), Index(Contexts, UpdateTime)]
  }

  function PropertyIndices(): seq<Index> {
    [Index(ArtifactProperties, IntValue), Index(ArtifactProperties, DoubleValue), Index(ArtifactProperties, StringValue),
     Index(ExecutionProperties, IntValue), Index(ExecutionProperties, DoubleValue), Index(ExecutionProperties, StringValue),
     Index(ContextProperties, IntValue), Index(ContextProperties, DoubleValue), Index(ContextProperties, StringValue)]
  }

  function SecondaryIndices(): seq<Index> {
    ArtifactIndices() + [Index(Events, ExecutionId), Index(ParentContexts, ParentContextId), Index(Types, Name)] +
    NodeIndices() + [Index(EventPaths, EventId)] + PropertyIndices()
  }

  /** The columns of a property table before values could be bytes. */
  function OldProperty(owner: Column): seq<Column> {
    [owner, Name, IsCustom, IntValue, DoubleValue, StringValue]
  }

  const EVENT_COLUMNS := [Id, ArtifactId, ExecutionId, EventType, Milliseconds]

  /******* The parts of the scripts that rebuild a table *******/

  function TypesUp2(): seq<Stmt> {
    Rebuild(Types, [Id, Name, TypeKind, InputType, OutputType], [Id, Name, TypeKind, InputType, OutputType], None, true)
  }

  function TypesDown1(): seq<Stmt> {
    Rebuild(Types, [Id, Name, IsArtifactType, InputType, OutputType], [Id, Name, IsArtifactType, InputType, OutputType], None, true)
  }

  function ArtifactsUp5(): seq<Stmt> {
    Rebuild(Artifacts, [Id, TypeId, Uri, NodeState, Name, CreateTime, UpdateTime], [Id, TypeId, Uri], None, false)
  }

  function ArtifactsDown4(): seq<Stmt> {
    Rebuild(Artifacts, [Id, TypeId, Uri], [Id, TypeId, Uri], Some([Id, TypeId, Uri]), false)
  }

  function ExecutionsUp5(): seq<Stmt> {
    Rebuild(Executions, [Id, TypeId, NodeState, Name, CreateTime, UpdateTime], [Id, TypeId], None, false)
  }

  function ExecutionsDown4(): seq<Stmt> {
    Rebuild(Executions, [Id, TypeId], [Id, TypeId], Some([Id, TypeId]), false)
  }

  function ContextsUp5(): seq<Stmt> {
    [AddColumn(Contexts, CreateTime), AddColumn(Contexts, UpdateTime)]
  }

  function ContextsDown4(): seq<Stmt> {
    Rebuild(Contexts, [Id, TypeId, Name], [Id, TypeId, Name], Some([Id, TypeId, Name]), false)
  }

  function TypesUp6(): seq<Stmt> {
    Rebuild(Types, [Id, Name, Version, TypeKind, Description, InputType, OutputType],
            [Id, Name, TypeKind, InputType, OutputType], None, false)
  }

  function TypesDown5(): seq<Stmt> {
    Rebuild(Types, [Id, Name, TypeKind, InputType, OutputType], [Id, Name, TypeKind, InputType, OutputType],
            Some([Id, Name, TypeKind, InputType, OutputType]), false)
  }

  function PropertiesDown6(t: TableId, owner: Column): seq<Stmt> {
    Rebuild(t, OldProperty(owner), OldProperty(owner), Some(OldProperty(owner)), true)
  }

  function EventsUp8(): seq<Stmt> {
    [CreateTemp(Events, EVENT_COLUMNS, false), CopyLatestEvents(EVENT_COLUMNS), Drop(Events, false), RenameTemp(Events)]
  }

  function EventsDown7(): seq<Stmt> {
    Rebuild(Events, EVENT_COLUMNS, EVENT_COLUMNS, None, false)
  }

  function IndicesUp6(): seq<Index> {
    ArtifactIndices() + EventIndices() + [Index(ParentContexts, ParentContextId), Index(Types, Name)] + NodeIndices()
  }

  /******* The scripts *******/

  /** The queries that lead up to version `v`. */
  function Up(v: int): seq<Stmt> {
    match v
    case 1 => [CreateEnv, InsertVersion(0)]
    case 2 => TypesUp2()
    case 3 => [Create(Contexts, [Id, TypeId, Name]), Create(ContextProperties, OldProperty(ContextId))]
    case 4 => [Create(Associations, [Id, ContextId, ExecutionId]), Create(Attributions, [Id, ContextId, ArtifactId])]
    case 5 => ArtifactsUp5() + (ExecutionsUp5() + ContextsUp5())
    case 6 =>
      [Create(ParentTypes, [TypeId, ParentTypeId]), Create(ParentContexts, [ContextId, ParentContextId])] +
      (TypesUp6() + CreateIndices(IndicesUp6()))
    case 7 =>
      [AddColumn(ArtifactProperties, ByteValue)] + ([AddColumn(ExecutionProperties, ByteValue)] +
      ([AddColumn(ContextProperties, ByteValue)] + CreateIndices([Index(EventPaths, EventId)])))
    case 8 =>
      CreateIndices(PropertyIndices()) + (EventsUp8() + (CreateIndices([Index(Events, ExecutionId)]) + [DeleteDanglingPaths]))
    case _ => []
  }

  /** The queries that lead down to version `v`. */
  function Down(v: int): seq<Stmt> {
    match v
    case 0 => [DropEnv]
    case 1 => [DeleteTypesOfKind(2)] + TypesDown1()
    case 2 => [Drop(Contexts, true), Drop(ContextProperties, true)]
    case 3 => [Drop(Associations, true), Drop(Attributions, true)]
    case 4 => ArtifactsDown4() + (ExecutionsDown4() + ContextsDown4())
    case 5 =>
      [Drop(ParentTypes, false), Drop(ParentContexts, false)] +
      (TypesDown5() + DropIndices(ArtifactIndices() + EventIndices() + NodeIndices()))
    case 6 =>
      PropertiesDown6(ArtifactProperties, ArtifactId) + (PropertiesDown6(ExecutionProperties, ExecutionId) +
      (PropertiesDown6(ContextProperties, ContextId) + DropIndices([Index(EventPaths, EventId)])))
    case 7 => EventsDown7() + (CreateIndices(EventIndices()) + DropIndices(PropertyIndices()))
    case _ => []
  }

  /** The tables created before MLMDEnv, in order. */
  function FirstTables(): seq<TableId> {
    [Types, TypeProperties, ParentTypes, Artifacts, ArtifactProperties, Executions, ExecutionProperties, Events, EventPaths]
  }

  /** The tables created after it. */
  function LastTables(): seq<TableId> {
    [Contexts, ContextProperties, ParentContexts, Associations, Attributions]
  }

  /** CREATE TABLE IF NOT EXISTS for each of the tables. */
  function CreateTables(ts: seq<TableId>): seq<Stmt> {
    seq(|ts|, k requires 0 <= k < |ts| => Create(ts[k], Head(ts[k])))
  }

  function Sqlite(): Config {
    Config(
      LIBRARY_VERSION,
      (map v: int | 0 <= v <= LIBRARY_VERSION :: Scheme(Up(v), Down(v))),
      CreateTables(FirstTables()) + [CreateEnv] + CreateTables(LastTables()),
      CreateIndices(SecondaryIndices()),
      (map t: TableId | true :: Head(t)))
  }
}
