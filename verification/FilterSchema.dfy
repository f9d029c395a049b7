/**
 The tables a filter query reads, the join templates of filter_query_builder.cc over them, and,
 independently, what the neighbours of a node are.
 */
module FilterSchema {
  import opened Statuses
  import opened SqlText

  datatype NodeKind = ArtifactNode | ExecutionNode | ContextNode

  datatype Value = Null | Int(i: int) | Double(d: real) | Text(s: string) | Bool(b: bool)

  /** A row of a table or of a subquery, by column name. */
  type Record = map<string, Value>

  function Get(r: Record, column: string): Value {
    if column in r then r[column] else Null
  }

  datatype TypeRow = TypeRow(id: int, name: string, kind: int)
  datatype NodeRow = NodeRow(id: int, typeId: int, columns: Record)
  datatype Link = Link(contextId: int, nodeId: int)
  datatype ParentLink = ParentLink(contextId: int, parentId: int)
  datatype PropertyRow = PropertyRow(nodeId: int, name: string, isCustom: bool, values: Record)
  datatype EventRow = EventRow(artifactId: int, executionId: int, columns: Record)

  /**
   MySQL takes text between double quotes for a string, with backslash escapes. In its default mode
   ONLY_FULL_GROUP_BY it refuses to order SELECT DISTINCT by a column that is not selected. SQLite takes
   quoted text for a column if there is one of that name; `sameNumber` is whether it finds the name of a
   property equal to the number in another column of its row.
   */
  datatype Dialect = MySql(onlyFullGroupBy: bool) | Sqlite(sameNumber: (PropertyRow, string) -> bool)

  /** The largest number of tables in one join. */
  function TableLimit(d: Dialect): nat {
    if d.MySql? then 61 else 64
  }

  datatype Db = Db(
    dialect: Dialect,
    types: set<TypeRow>,
    artifacts: set<NodeRow>,
    executions: set<NodeRow>,
    contexts: set<NodeRow>,
    attributions: set<Link>,
    associations: set<Link>,
    parentContexts: set<ParentLink>,
    artifactProperties: set<PropertyRow>,
    executionProperties: set<PropertyRow>,
    contextProperties: set<PropertyRow>,
    events: set<EventRow>)
  {
    function Nodes(kind: NodeKind): set<NodeRow> {
      match kind
      case ArtifactNode => artifacts
      case ExecutionNode => executions
      case ContextNode => contexts
    }

    function Properties(kind: NodeKind): set<PropertyRow> {
      match kind
      case ArtifactNode => artifactProperties
      case ExecutionNode => executionProperties
      case ContextNode => contextProperties
    }
  }

  /** TypeKind in constants.h */
  function TypeKindValue(kind: NodeKind): int {
    match kind
    case ExecutionNode => 0
    case ArtifactNode => 1
    case ContextNode => 2
  }

  datatype AtomType = AttributeAtom | ContextAtom | PropertyAtom | CustomPropertyAtom
                    | ParentContextAtom | ChildContextAtom | EventAtom

  /** One mentioned concept: what kind it is, and the name the query gives it. */
  datatype Ref = Ref(atom: AtomType, name: string)

  const BASE_REF := Ref(AttributeAtom, "")
  const TYPE_REF := Ref(AttributeAtom, "type")

  function PropertyName(ref: Ref): string {
    var skipped := if ref.atom == PropertyAtom then |"properties_"| else |"custom_properties_"|;
    if |ref.name| < skipped then "" else ref.name[skipped..]
  }

  /******* Join templates *******/

  datatype Template =
    | TypeJoin(kind: int)
    | ContextViaAttribution
    | ContextViaAssociation
    | ParentContextJoin
    | ChildContextJoin
    | PropertyJoin(node: NodeKind, name: string, isCustom: bool)
    | ArtifactEventJoin
    | ExecutionEventJoin

  /** The template for a mentioned concept; None is the empty text, logged as an error in the source. */
  function JoinTemplate(kind: NodeKind, ref: Ref): Option<Template> {
    match ref.atom
    case AttributeAtom => if ref == TYPE_REF then Some(TypeJoin(TypeKindValue(kind))) else None
    case ContextAtom =>
      (match kind
       case ArtifactNode => Some(ContextViaAttribution)
       case ExecutionNode => Some(ContextViaAssociation)
       case ContextNode => None)
    case PropertyAtom => Some(PropertyJoin(kind, PropertyName(ref), false))
    case CustomPropertyAtom => Some(PropertyJoin(kind, PropertyName(ref), true))
    case ParentContextAtom => Some(ParentContextJoin)
    case ChildContextAtom => Some(ChildContextJoin)
    case EventAtom =>
      (match kind
       case ArtifactNode => Some(ArtifactEventJoin)
       case ExecutionNode => Some(ExecutionEventJoin)
       case ContextNode => None)
  }

  function NodeIdColumn(kind: NodeKind): string {
    match kind
    case ArtifactNode => "artifact_id"
    case ExecutionNode => "execution_id"
    case ContextNode => "context_id"
  }

  function ContextColumns(c: NodeRow, t: TypeRow, link: string, id: int): Record {
    map["id" := Int(c.id), "name" := Get(c.columns, "name"), "type" := Text(t.name), link := Int(id),
        "create_time_since_epoch" := Get(c.columns, "create_time_since_epoch"),
        "last_update_time_since_epoch" := Get(c.columns, "last_update_time_since_epoch")]
  }

  function LinkedContextColumns(c: NodeRow, t: TypeRow, link: string, id: int): Record {
    map["name" := Get(c.columns, "name"), "type" := Text(t.name), link := Int(id)]
  }

  function PropertyColumns(kind: NodeKind, p: PropertyRow): Record {
    map[NodeIdColumn(kind) := Int(p.nodeId), "int_value" := Get(p.values, "int_value"),
        "double_value" := Get(p.values, "double_value"), "string_value" := Get(p.values, "string_value")]
  }

  function EventColumns(e: EventRow): Record {
    map["artifact_id" := Int(e.artifactId), "execution_id" := Int(e.executionId),
        "type" := Get(e.columns, "type"),
        "milliseconds_since_epoch" := Get(e.columns, "milliseconds_since_epoch")]
  }

  /******* Property names *******/

  /** What a property name between double quotes is read as. */
  datatype Operand = TextOf(text: string) | ColumnOf(column: string)

  /** What follows the name in the property templates. */
  const AFTER_NAME := " AND is_custom_property = "

  const ROW_ID := {"rowid", "oid", "_rowid_"}

  function PropertyTableColumns(kind: NodeKind): set<string> {
    {NodeIdColumn(kind), "name", "is_custom_property", "int_value", "double_value", "string_value", "byte_value"}
  }

  /** The name as the database reads it; None if a quote in it ends the text early. */
  function NameOperand(d: Dialect, kind: NodeKind, name: string): Option<Operand> {
    var q := ReadQuoted(d.MySql?, name + "\"" + AFTER_NAME);
    if q.None? || q.value.rest != AFTER_NAME then None
    else if d.Sqlite? && ToLower(q.value.value) in PropertyTableColumns(kind) + ROW_ID then Some(ColumnOf(ToLower(q.value.value)))
    else Some(TextOf(q.value.value))
  }

  predicate HasDigit(s: string) {
    exists i :: 0 <= i < |s| && '0' <= s[i] <= '9'
  }

  /** The test `name = "..."` of the property templates. */
  predicate Tests(d: Dialect, kind: NodeKind, name: string, p: PropertyRow) {
    match NameOperand(d, kind, name)
    case None => false
    case Some(TextOf(text)) => p.name == text
    case Some(ColumnOf(c)) =>
      c == "name" || (c == "string_value" && Get(p.values, c) == Text(p.name)) ||
      (d.Sqlite? && HasDigit(p.name) && d.sameNumber(p, c))
  }

  predicate IsProperty(ref: Ref) {
    ref.atom == PropertyAtom || ref.atom == CustomPropertyAtom
  }

  /** The database reads the property's name as that name. */
  predicate NameKept(d: Dialect, kind: NodeKind, ref: Ref) {
    IsProperty(ref) ==> NameOperand(d, kind, PropertyName(ref)) == Some(TextOf(PropertyName(ref)))
  }

  predicate NameReadable(d: Dialect, kind: NodeKind, ref: Ref) {
    IsProperty(ref) ==> NameOperand(d, kind, PropertyName(ref)).Some?
  }

  /** A name is read as itself if and only if it has no quote, no active backslash, and is not a column. */
  lemma NameKeptExactly(d: Dialect, kind: NodeKind, name: string)
    ensures NameOperand(d, kind, name) == Some(TextOf(name)) <==>
            Plain(d.MySql?, name) && (d.Sqlite? ==> ToLower(name) !in PropertyTableColumns(kind) + ROW_ID)
  {
    hide ReadQuoted, Plain;
    ReadBack(d.MySql?, name, AFTER_NAME);
  }

  /** The rows of the subquery in a template. */
  ghost function Rows(db: Db, t: Template): iset<Record> {
    match t
    case TypeJoin(k) =>
      iset y | y in db.types && y.kind == k :: map["type_id" := Int(y.id), "type" := Text(y.name)]
    case ContextViaAttribution =>
      iset c, y, l | c in db.contexts && y in db.types && l in db.attributions &&
                     c.typeId == y.id && c.id == l.contextId :: ContextColumns(c, y, "artifact_id", l.nodeId)
    case ContextViaAssociation =>
      iset c, y, l | c in db.contexts && y in db.types && l in db.associations &&
                     c.typeId == y.id && c.id == l.contextId :: ContextColumns(c, y, "execution_id", l.nodeId)
    case ParentContextJoin =>
      iset c, y, l | c in db.contexts && y in db.types && l in db.parentContexts &&
                     c.typeId == y.id && c.id == l.parentId :: LinkedContextColumns(c, y, "child_context_id", l.contextId)
    case ChildContextJoin =>
      iset c, y, l | c in db.contexts && y in db.types && l in db.parentContexts &&
                     c.typeId == y.id && c.id == l.contextId :: LinkedContextColumns(c, y, "parent_context_id", l.parentId)
    case PropertyJoin(kind, name, isCustom) =>
      iset p | p in db.Properties(kind) && Tests(db.dialect, kind, name, p) && p.isCustom == isCustom :: PropertyColumns(kind, p)
    case ArtifactEventJoin => iset e | e in db.events :: EventColumns(e)
    case ExecutionEventJoin => iset e | e in db.events :: EventColumns(e)
  }

  /** The ON clause of a template. */
  predicate On(base: NodeRow, t: Template, r: Record) {
    match t
    case TypeJoin(_) => Get(r, "type_id") == Int(base.typeId)
    case ContextViaAttribution => Get(r, "artifact_id") == Int(base.id)
    case ContextViaAssociation => Get(r, "execution_id") == Int(base.id)
    case ParentContextJoin => Get(r, "child_context_id") == Int(base.id)
    case ChildContextJoin => Get(r, "parent_context_id") == Int(base.id)
    case PropertyJoin(kind, _, _) => Get(r, NodeIdColumn(kind)) == Int(base.id)
    case ArtifactEventJoin => Get(r, "artifact_id") == Int(base.id)
    case ExecutionEventJoin => Get(r, "execution_id") == Int(base.id)
  }

  /** The columns a template offers. */
  function Columns(t: Template): set<string> {
    match t
    case TypeJoin(_) => {"type_id", "type"}
    case ContextViaAttribution =>
      {"id", "name", "type", "artifact_id", "create_time_since_epoch", "last_update_time_since_epoch"}
    case ContextViaAssociation =>
      {"id", "name", "type", "execution_id", "create_time_since_epoch", "last_update_time_since_epoch"}
    case ParentContextJoin => {"name", "type", "child_context_id"}
    case ChildContextJoin => {"name", "type", "parent_context_id"}
    case PropertyJoin(kind, _, _) => {NodeIdColumn(kind), "int_value", "double_value", "string_value"}
    case ArtifactEventJoin => {"id", "artifact_id", "execution_id", "type", "milliseconds_since_epoch"}
    case ExecutionEventJoin => {"id", "artifact_id", "execution_id", "type", "milliseconds_since_epoch"}
  }

  /******* Neighbours *******/

  datatype Neighbor =
    | TypeNeighbor(t: TypeRow)
    | ContextNeighbor(c: NodeRow, t: TypeRow)
    | PropertyNeighbor(p: PropertyRow)
    | EventNeighbor(e: EventRow)

  /** What a mentioned concept may stand for at a given node. */
  predicate IsNeighbor(db: Db, kind: NodeKind, base: NodeRow, ref: Ref, nb: Neighbor) {
    match nb
    case TypeNeighbor(t) =>
      ref == TYPE_REF && t in db.types && t.id == base.typeId && t.kind == TypeKindValue(kind)
    case ContextNeighbor(c, t) =>
      && c in db.contexts && t in db.types && t.id == c.typeId
      && (match ref.atom
          case ContextAtom =>
            (kind.ArtifactNode? && Link(c.id, base.id) in db.attributions) ||
            (kind.ExecutionNode? && Link(c.id, base.id) in db.associations)
          case ParentContextAtom => ParentLink(base.id, c.id) in db.parentContexts
          case ChildContextAtom => ParentLink(c.id, base.id) in db.parentContexts
          case _ => false)
    case PropertyNeighbor(p) =>
      && p in db.Properties(kind) && p.nodeId == base.id && p.name == PropertyName(ref)
      && ref.atom == (if p.isCustom then CustomPropertyAtom else PropertyAtom)
    case EventNeighbor(e) =>
      && ref.atom == EventAtom && e in db.events
      && ((kind.ArtifactNode? && e.artifactId == base.id) || (kind.ExecutionNode? && e.executionId == base.id))
  }

  /** The fields of a neighbour that a query may name. */
  function FieldOf(nb: Neighbor, field: string): Value {
    match nb
    case TypeNeighbor(t) => if field == "type" then Text(t.name) else Null
    case ContextNeighbor(c, t) =>
      if field == "id" then Int(c.id) else if field == "type" then Text(t.name) else Get(c.columns, field)
    case PropertyNeighbor(p) => Get(p.values, field)
    case EventNeighbor(e) =>
      if field == "artifact_id" then Int(e.artifactId)
      else if field == "execution_id" then Int(e.executionId)
      else Get(e.columns, field)
  }

  /** The struct fields that filter_query_ast_resolver.cc declares for a concept. */
  function DeclaredFields(kind: NodeKind, atom: AtomType): set<string> {
    match atom
    case AttributeAtom => {"type"}
    case ContextAtom => {"id", "name", "type", "create_time_since_epoch", "last_update_time_since_epoch"}
    case ParentContextAtom => {"id", "name", "type", "create_time_since_epoch", "last_update_time_since_epoch"}
    case ChildContextAtom => {"id", "name", "type", "create_time_since_epoch", "last_update_time_since_epoch"}
    case PropertyAtom => {"int_value", "double_value", "string_value"}
    case CustomPropertyAtom => {"int_value", "double_value", "string_value"}
    case EventAtom =>
      {"type", "milliseconds_since_epoch", if kind.ArtifactNode? then "execution_id" else "artifact_id"}
  }

  /** The row a neighbour becomes in the template's subquery. */
  function JoinedRow(kind: NodeKind, base: NodeRow, ref: Ref, nb: Neighbor): Record {
    match nb
    case TypeNeighbor(t) => map["type_id" := Int(t.id), "type" := Text(t.name)]
    case ContextNeighbor(c, t) =>
      (match ref.atom
       case ParentContextAtom => LinkedContextColumns(c, t, "child_context_id", base.id)
       case ChildContextAtom => LinkedContextColumns(c, t, "parent_context_id", base.id)
       case _ => ContextColumns(c, t, NodeIdColumn(kind), base.id))
    case PropertyNeighbor(p) => PropertyColumns(kind, p)
    case EventNeighbor(e) => EventColumns(e)
  }

  /** A neighbour is one of the joined rows ... */
  lemma NeighborIsJoined(db: Db, kind: NodeKind, base: NodeRow, ref: Ref, nb: Neighbor)
    requires IsNeighbor(db, kind, base, ref, nb) && NameKept(db.dialect, kind, ref)
    ensures var t := JoinTemplate(kind, ref);
            t.Some? && JoinedRow(kind, base, ref, nb) in Rows(db, t.value) &&
            On(base, t.value, JoinedRow(kind, base, ref, nb))
  {
    hide NameOperand;
    if nb.ContextNeighbor? {
      var c := nb.c;
      assert Link(c.id, base.id).contextId == c.id;
      assert ParentLink(base.id, c.id).parentId == c.id;
      assert ParentLink(c.id, base.id).contextId == c.id;
    }
  }

  lemma JoinedContext(db: Db, kind: NodeKind, base: NodeRow, ref: Ref, r: Record) returns (nb: Neighbor)
    requires ref.atom == ContextAtom
    requires var t := JoinTemplate(kind, ref); t.Some? && r in Rows(db, t.value) && On(base, t.value, r)
    ensures IsNeighbor(db, kind, base, ref, nb) && r == JoinedRow(kind, base, ref, nb)
  {
    var links, column := if kind.ArtifactNode? then db.attributions else db.associations, NodeIdColumn(kind);
    var c, y, l :| c in db.contexts && y in db.types && l in links && c.typeId == y.id &&
                   c.id == l.contextId && r == ContextColumns(c, y, column, l.nodeId);
    assert Get(r, column) == Int(l.nodeId);
    assert l == Link(c.id, base.id);
    nb := ContextNeighbor(c, y);
  }

  lemma JoinedLinkedContext(db: Db, kind: NodeKind, base: NodeRow, ref: Ref, r: Record) returns (nb: Neighbor)
    requires ref.atom in {ParentContextAtom, ChildContextAtom}
    requires var t := JoinTemplate(kind, ref); t.Some? && r in Rows(db, t.value) && On(base, t.value, r)
    ensures IsNeighbor(db, kind, base, ref, nb) && r == JoinedRow(kind, base, ref, nb)
  {
    if ref.atom == ParentContextAtom {
      var c, y, l :| c in db.contexts && y in db.types && l in db.parentContexts && c.typeId == y.id &&
                     c.id == l.parentId && r == LinkedContextColumns(c, y, "child_context_id", l.contextId);
      assert l == ParentLink(base.id, c.id);
      nb := ContextNeighbor(c, y);
    } else {
      var c, y, l :| c in db.contexts && y in db.types && l in db.parentContexts && c.typeId == y.id &&
                     c.id == l.contextId && r == LinkedContextColumns(c, y, "parent_context_id", l.parentId);
      assert l == ParentLink(c.id, base.id);
      nb := ContextNeighbor(c, y);
    }
  }

  lemma JoinedProperty(db: Db, kind: NodeKind, base: NodeRow, ref: Ref, r: Record) returns (nb: Neighbor)
    requires ref.atom in {PropertyAtom, CustomPropertyAtom} && NameKept(db.dialect, kind, ref)
    requires var t := JoinTemplate(kind, ref); t.Some? && r in Rows(db, t.value) && On(base, t.value, r)
    ensures IsNeighbor(db, kind, base, ref, nb) && r == JoinedRow(kind, base, ref, nb)
  {
    hide NameOperand;
    var p :| p in db.Properties(kind) && Tests(db.dialect, kind, PropertyName(ref), p) &&
             p.isCustom == (ref.atom == CustomPropertyAtom) && r == PropertyColumns(kind, p);
    nb := PropertyNeighbor(p);
  }

  /** ... and every joined row is a neighbour. */
  lemma JoinedIsNeighbor(db: Db, kind: NodeKind, base: NodeRow, ref: Ref, r: Record) returns (nb: Neighbor)
    requires NameKept(db.dialect, kind, ref)
    requires var t := JoinTemplate(kind, ref); t.Some? && r in Rows(db, t.value) && On(base, t.value, r)
    ensures IsNeighbor(db, kind, base, ref, nb) && r == JoinedRow(kind, base, ref, nb)
  {
    hide NameKept;
    match ref.atom
    case ContextAtom => nb := JoinedContext(db, kind, base, ref, r);
    case ParentContextAtom => nb := JoinedLinkedContext(db, kind, base, ref, r);
    case ChildContextAtom => nb := JoinedLinkedContext(db, kind, base, ref, r);
    case PropertyAtom => nb := JoinedProperty(db, kind, base, ref, r);
    case CustomPropertyAtom => nb := JoinedProperty(db, kind, base, ref, r);
    case AttributeAtom =>
      var y :| y in db.types && y.kind == TypeKindValue(kind) &&
               r == map["type_id" := Int(y.id), "type" := Text(y.name)];
      nb := TypeNeighbor(y);
    case EventAtom =>
      var e :| e in db.events && r == EventColumns(e);
      nb := EventNeighbor(e);
  }

  /** The rows joined for a concept are those of its neighbours. */
  ghost predicate JoinsExactly(db: Db, kind: NodeKind, base: NodeRow, ref: Ref)
    requires JoinTemplate(kind, ref).Some?
  {
    var t := JoinTemplate(kind, ref).value;
    && (forall nb | IsNeighbor(db, kind, base, ref, nb) ::
          JoinedRow(kind, base, ref, nb) in Rows(db, t) && On(base, t, JoinedRow(kind, base, ref, nb)))
    && (forall r | r in Rows(db, t) && On(base, t, r) ::
          exists nb :: IsNeighbor(db, kind, base, ref, nb) && r == JoinedRow(kind, base, ref, nb))
  }

  predicate Clean(s: string) {
    !HasDigit(s) && '"' !in s
  }

  lemma CleanRowIds(c: string)
    requires c in ROW_ID
    ensures Clean(c)
  {
  }

  lemma CleanIdColumn(kind: NodeKind)
    ensures Clean(NodeIdColumn(kind))
  {
  }

  lemma CleanValueColumns()
    ensures Clean("int_value") && Clean("double_value")
  {
  }

  lemma CleanTextColumns()
    ensures Clean("string_value") && Clean("byte_value")
  {
  }

  lemma CleanNameColumns()
    ensures Clean("name") && Clean("is_custom_property")
  {
  }

  lemma CleanColumns(kind: NodeKind, c: string)
    requires c in PropertyTableColumns(kind) + ROW_ID
    ensures Clean(c)
  {
    hide Clean, NodeIdColumn;
    if c in ROW_ID { CleanRowIds(c); }
    CleanIdColumn(kind);
    CleanValueColumns();
    CleanTextColumns();
    CleanNameColumns();
  }

  lemma LowerDigits(s: string)
    ensures HasDigit(s) ==> HasDigit(ToLower(s))
    ensures '"' in s ==> '"' in ToLower(s)
  {
    if HasDigit(s) {
      var i :| 0 <= i < |s| && '0' <= s[i] <= '9';
      assert ToLower(s)[i] == s[i];
    }
    if '"' in s {
      var i :| 0 <= i < |s| && s[i] == '"';
      assert ToLower(s)[i] == '"';
    }
  }

  /** A name that is read as a column is that column's name, in some case. */
  lemma ColumnName(d: Dialect, kind: NodeKind, name: string, c: string)
    requires NameOperand(d, kind, name) == Some(ColumnOf(c))
    ensures c == ToLower(name) && !HasDigit(name)
  {
    hide ReadQuoted, PropertyTableColumns, HasDigit, ToLower;
    var t := name + "\"" + AFTER_NAME;
    var q := ReadQuoted(false, t).value;
    CleanColumns(kind, c);
    LowerDigits(q.value);
    ReadAsIs(t);
    assert |name| == |q.value|;
    assert name == t[..|name|] == q.value;
  }

  /** One property row, and nothing else. */
  function OneProperty(d: Dialect, p: PropertyRow): Db {
    Db(d, {}, {}, {}, {}, {}, {}, {}, {p}, {p}, {p}, {})
  }

  lemma NeighborNotJoined(d: Dialect, kind: NodeKind, ref: Ref)
    requires IsProperty(ref) && !NameKept(d, kind, ref)
    requires NameOperand(d, kind, PropertyName(ref)) != Some(ColumnOf("name"))
    ensures var p := PropertyRow(1, PropertyName(ref), ref.atom == CustomPropertyAtom, map[]);
            !JoinsExactly(OneProperty(d, p), kind, NodeRow(1, 1, map[]), ref)
  {
    hide NameOperand, HasDigit;
    var name, base := PropertyName(ref), NodeRow(1, 1, map[]);
    var p := PropertyRow(1, name, ref.atom == CustomPropertyAtom, map[]);
    var db := OneProperty(d, p);
    var o := NameOperand(d, kind, name);
    if o.Some? && o.value.ColumnOf? { ColumnName(d, kind, name, o.value.column); }
    assert !Tests(d, kind, name, p);
    assert IsNeighbor(db, kind, base, ref, PropertyNeighbor(p));
  }

  lemma StrangerJoined(d: Dialect, kind: NodeKind, ref: Ref)
    requires IsProperty(ref) && NameOperand(d, kind, PropertyName(ref)) == Some(ColumnOf("name"))
    ensures var p := PropertyRow(1, PropertyName(ref) + "x", ref.atom == CustomPropertyAtom, map[]);
            !JoinsExactly(OneProperty(d, p), kind, NodeRow(1, 1, map[]), ref)
  {
    hide NameOperand, HasDigit;
    var base := NodeRow(1, 1, map[]);
    var p := PropertyRow(1, PropertyName(ref) + "x", ref.atom == CustomPropertyAtom, map[]);
    var db, r := OneProperty(d, p), PropertyColumns(kind, p);
    assert |p.name| != |PropertyName(ref)|;
    assert r in Rows(db, JoinTemplate(kind, ref).value) && On(base, JoinTemplate(kind, ref).value, r);
    assert forall nb :: !IsNeighbor(db, kind, base, ref, nb);
  }

  /** A property is joined as it should be, in every database, if and only if its name is read as that name. */
  lemma PropertyJoinExact(d: Dialect, kind: NodeKind, ref: Ref)
    requires IsProperty(ref)
    ensures (forall db: Db, base: NodeRow | db.dialect == d :: JoinsExactly(db, kind, base, ref)) <==> NameKept(d, kind, ref)
  {
    hide NameOperand, NameKept, Rows, On, JoinedRow, IsNeighbor;
    if NameKept(d, kind, ref) {
      forall db: Db, base: NodeRow | db.dialect == d ensures JoinsExactly(db, kind, base, ref) {
        forall nb | IsNeighbor(db, kind, base, ref, nb)
          ensures var t := JoinTemplate(kind, ref).value;
                  JoinedRow(kind, base, ref, nb) in Rows(db, t) && On(base, t, JoinedRow(kind, base, ref, nb))
        {
          NeighborIsJoined(db, kind, base, ref, nb);
        }
        forall r | r in Rows(db, JoinTemplate(kind, ref).value) && On(base, JoinTemplate(kind, ref).value, r)
          ensures exists nb :: IsNeighbor(db, kind, base, ref, nb) && r == JoinedRow(kind, base, ref, nb)
        {
          var nb := JoinedIsNeighbor(db, kind, base, ref, r);
        }
      }
    } else {
      var custom, base := ref.atom == CustomPropertyAtom, NodeRow(1, 1, map[]);
      if NameOperand(d, kind, PropertyName(ref)) == Some(ColumnOf("name")) {
        StrangerJoined(d, kind, ref);
        assert !JoinsExactly(OneProperty(d, PropertyRow(1, PropertyName(ref) + "x", custom, map[])), kind, base, ref);
      } else {
        NeighborNotJoined(d, kind, ref);
        assert !JoinsExactly(OneProperty(d, PropertyRow(1, PropertyName(ref), custom, map[])), kind, base, ref);
      }
    }
  }

  lemma ContextFields(kind: NodeKind, base: NodeRow, ref: Ref, c: NodeRow, t: TypeRow, field: string)
    requires ref.atom in {ContextAtom, ParentContextAtom, ChildContextAtom} && JoinTemplate(kind, ref).Some?
    requires field in DeclaredFields(kind, ref.atom) && field in Columns(JoinTemplate(kind, ref).value)
    ensures Get(JoinedRow(kind, base, ref, ContextNeighbor(c, t)), field) == FieldOf(ContextNeighbor(c, t), field)
  {
    if ref.atom == ContextAtom {
      assert field in {"id", "name", "type", "create_time_since_epoch", "last_update_time_since_epoch"};
    } else {
      assert field in {"name", "type"};
    }
  }

  /** A declared field that the template also offers has the neighbour's value in the joined row. */
  lemma JoinedFields(db: Db, kind: NodeKind, base: NodeRow, ref: Ref, nb: Neighbor, field: string)
    requires IsNeighbor(db, kind, base, ref, nb) && JoinTemplate(kind, ref).Some?
    requires field in DeclaredFields(kind, ref.atom) && field in Columns(JoinTemplate(kind, ref).value)
    ensures Get(JoinedRow(kind, base, ref, nb), field) == FieldOf(nb, field)
  {
    match nb
    case ContextNeighbor(c, t) =>
      hide JoinTemplate, Columns, DeclaredFields, JoinedRow, FieldOf;
      ContextFields(kind, base, ref, c, t, field);
    case TypeNeighbor(t) => hide JoinTemplate, Columns;
    case PropertyNeighbor(p) => hide JoinTemplate, Columns;
    case EventNeighbor(e) => hide JoinTemplate, Columns;
  }

  /** The template offers every declared field except the id and the times of a parent or child context. */
  lemma OfferedFields(kind: NodeKind, ref: Ref, field: string)
    requires JoinTemplate(kind, ref).Some? && field in DeclaredFields(kind, ref.atom)
    ensures field in Columns(JoinTemplate(kind, ref).value) <==>
            (ref.atom in {ParentContextAtom, ChildContextAtom} ==> field in {"name", "type"})
  {
  }
}
