/**
 The tables that PutExecution writes, and the storage operations it uses, with the contracts of
 metadata_access_object.h: nodes with a unique (type, name), events, associations, attributions.
 */
module GraphStore {
  import opened Statuses

  datatype Node = Node(typeId: int, name: Option<string>, content: string)

  /** Rows by id, and the next id the database hands out. */
  datatype Table = Table(rows: map<int, Node>, next: int)

  /** Unique on all three columns. */
  datatype EventRow = EventRow(artifactId: int, executionId: int, eventType: int)

  datatype Db = Db(
    artifacts: Table,
    executions: Table,
    contexts: Table,
    artifactTypes: set<int>,
    executionTypes: set<int>,
    contextTypes: set<int>,
    events: set<EventRow>,
    associations: set<(int, int)>,
    attributions: set<(int, int)>)

  /** A node in a request; absent fields are None. */
  datatype NodeGiven = NodeGiven(id: Option<int>, typeId: Option<int>, name: Option<string>, content: string)

  /** An event in a request; UNKNOWN is None as well. */
  datatype EventGiven = EventGiven(artifactId: Option<int>, executionId: Option<int>, eventType: Option<int>)

  /** Rows other than `except` with this type and name. */
  predicate NameTaken(t: Table, typeId: int, name: Option<string>, except: Option<int>) {
    name.Some? && exists i :: i in t.rows && Some(i) != except && t.rows[i].typeId == typeId && t.rows[i].name == name
  }

  predicate EmptyName(g: NodeGiven) {
    g.name.None? || g.name == Some("")
  }

  /** CreateNodeImpl. A context needs a name. */
  function CreateNode(t: Table, types: set<int>, g: NodeGiven, named: bool): Result<(Table, int)> {
    if g.typeId.None? then Failure(InvalidArgument)
    else if g.typeId.value !in types then Failure(NotFound)
    else if named && EmptyName(g) then Failure(InvalidArgument)
    else if NameTaken(t, g.typeId.value, g.name, None) then Failure(AlreadyExists)
    else Success((Table(t.rows[t.next := Node(g.typeId.value, g.name, g.content)], t.next + 1), t.next))
  }

  /**
   UpdateNodeImpl. The name of an artifact or execution is never rewritten; that of a context is.
   An omitted type is written as 0. A clash with the unique (type, name) surfaces as the
   database's own error.
   */
  function UpdateNode(t: Table, types: set<int>, id: int, g: NodeGiven, named: bool): Result<Table> {
    if id !in t.rows then Failure(InvalidArgument) else
    var stored := t.rows[id];
    if g.typeId.Some? && g.typeId.value != stored.typeId then Failure(InvalidArgument)
    else if stored.typeId !in types then Failure(NotFound)
    else if Node(stored.typeId, g.name, g.content) == stored && g.typeId.Some? then Success(t)
    else if named && EmptyName(g) then Failure(InvalidArgument)
    else
      var typeId := if g.typeId.Some? then g.typeId.value else 0;
      var name := if named then g.name else stored.name;
      if NameTaken(t, typeId, name, Some(id)) then Failure(Internal)
      else Success(t.(rows := t.rows[id := Node(typeId, name, g.content)]))
  }

  /** UpsertArtifact, UpsertExecution and UpsertContext. */
  function UpsertNode(t: Table, types: set<int>, g: NodeGiven, named: bool): Result<(Table, int)> {
    match g.id
    case None => CreateNode(t, types, g, named)
    case Some(id) =>
      var t' :- UpdateNode(t, types, id, g, named);
      Success((t', id))
  }

  /**
   A connection while a transaction body runs: what its statements see, and what is committed. After the
   database has ended the transaction by itself, each statement is committed as it is executed.
   */
  datatype Session = Session(db: Db, committed: Db, ended: bool)

  function Write(s: Session, db: Db): Session {
    if s.ended then Session(db, db, true) else s.(db := db)
  }

  /** What an operation returns and how it leaves the connection, also after an error. */
  datatype Did<+T> = Did(session: Session, result: Result<T>) {
    predicate IsFailure() {
      result.Failure?
    }

    function PropagateFailure<U>(): Did<U>
      requires IsFailure()
    {
      Did(session, Failure(result.error))
    }

    function Extract(): (Session, T)
      requires !IsFailure()
    {
      (session, result.value)
    }
  }

  /**
   How the database answers an INSERT into Event: it executes the statement, it fails and undoes only the
   statement, or it fails and rolls the whole transaction back, as MySQL does after a deadlock (error 1213)
   and SQLite may do when the disk is full.
   */
  datatype Answer = Served | Failed | Ended

  /** CreateEvent. Of the errors of the insertion only a duplicate is reported; after any other it goes on. */
  function CreateEvent(s: Session, g: EventGiven, answer: Answer): Did<()> {
    if g.artifactId.None? || g.executionId.None? || g.eventType.None? then Did(s, Failure(InvalidArgument))
    else if g.artifactId.value !in s.db.artifacts.rows then Did(s, Failure(InvalidArgument))
    else if g.executionId.value !in s.db.executions.rows then Did(s, Failure(InvalidArgument))
    else
      var row := EventRow(g.artifactId.value, g.executionId.value, g.eventType.value);
      match answer
      case Served =>
        if row in s.db.events then Did(s, Failure(AlreadyExists))
        else Did(Write(s, s.db.(events := s.db.events + {row})), Success(()))
      case Failed => Did(s, Success(()))
      case Ended => Did(Session(s.committed, s.committed, true), Success(()))
  }

  /** InsertAssociationIfNotExist */
  function InsertAssociation(s: Session, contextId: int, executionId: int): Did<()> {
    if contextId !in s.db.contexts.rows || executionId !in s.db.executions.rows then Did(s, Failure(InvalidArgument))
    else Did(Write(s, s.db.(associations := s.db.associations + {(contextId, executionId)})), Success(()))
  }

  /** InsertAttributionIfNotExist */
  function InsertAttribution(s: Session, contextId: int, artifactId: int): Did<()> {
    if contextId !in s.db.contexts.rows || artifactId !in s.db.artifacts.rows then Did(s, Failure(InvalidArgument))
    else Did(Write(s, s.db.(attributions := s.db.attributions + {(contextId, artifactId)})), Success(()))
  }

  /******* Integrity *******/

  /** Ids lie below the next one, names are unique, and every link and event points at existing nodes. */
  predicate Integrity(db: Db) {
    ValidTable(db.artifacts) && ValidTable(db.executions) && ValidTable(db.contexts) && Endpoints(db)
  }

  predicate Endpoints(db: Db) {
    && (forall e | e in db.events :: e.artifactId in db.artifacts.rows && e.executionId in db.executions.rows)
    && (forall l | l in db.associations :: l.0 in db.contexts.rows && l.1 in db.executions.rows)
    && (forall l | l in db.attributions :: l.0 in db.contexts.rows && l.1 in db.artifacts.rows)
  }

  predicate ValidTable(t: Table) {
    IdsBelow(t) && NamesUnique(t)
  }

  predicate IdsBelow(t: Table) {
    t.next > 0 && forall i | i in t.rows :: 0 < i < t.next
  }

  /** The unique index on (type, name); rows without a name do not clash. */
  predicate NamesUnique(t: Table) {
    forall i, j | i in t.rows && j in t.rows && t.rows[i].name.Some? &&
                  t.rows[i].typeId == t.rows[j].typeId && t.rows[i].name == t.rows[j].name :: i == j
  }

  /** Nothing is deleted. */
  predicate Grows(t: Table, t': Table) {
    t.rows.Keys <= t'.rows.Keys && t.next <= t'.next
  }

  lemma UpsertNodeKeeps(t: Table, types: set<int>, g: NodeGiven, named: bool)
    requires ValidTable(t) && UpsertNode(t, types, g, named).Success?
    ensures var (t', id) := UpsertNode(t, types, g, named).value;
            && ValidTable(t') && Grows(t, t') && id in t'.rows && t'.rows.Keys == t.rows.Keys + {id}
            && (if g.id.Some? then id == g.id.value && id in t.rows else id == t.next && id !in t.rows)
  {
  }
}
