/**
 Type registration: CheckFieldsConsistent, UpsertType, UpsertTypeInheritanceLink and UpsertTypes of
 metadata_store.cc, over the Type, TypeProperty and ParentType tables.
 */
module TypeStore {
  import opened Statuses
  import opened Cycles

  datatype PropertyType = Unknown | IntType | DoubleType | StringType | StructType

  datatype TypeKind = ExecutionType | ArtifactType | ContextType

  type Properties = map<string, PropertyType>

  /** A row of the Type table with its properties; an empty version is stored as none. */
  datatype TypeRow = TypeRow(kind: TypeKind, name: string, version: Option<string>, properties: Properties)

  datatype TypeDb = TypeDb(types: map<int, TypeRow>, parents: Links, next: int)

  /** A system-defined base type: UNSET, or the name of a simple type. */
  datatype BaseType = UnsetBase | Base(name: string)

  datatype TypeGiven = TypeGiven(
    kind: TypeKind, name: string, version: string, properties: Properties, base: Option<BaseType>)

  function VersionOf(version: string): Option<string> {
    if version == "" then None else Some(version)
  }

  /******* CheckFieldsConsistent *******/

  predicate Agree(stored: Properties, other: Properties) {
    forall k | k in stored && k in other :: stored[k] == other[k]
  }

  /** May `other` be registered over `stored`, given what may be added and omitted? */
  predicate Compatible(stored: Properties, other: Properties, canAdd: bool, canOmit: bool) {
    && Agree(stored, other)
    && (canOmit || stored.Keys <= other.Keys)
    && (canAdd || other.Keys <= stored.Keys)
  }

  /** Counting the omitted properties tells whether `other` has new ones. */
  lemma OmittedCount(stored: Properties, other: Properties)
    ensures |stored| - |stored.Keys - other.Keys| == |other| <==> other.Keys <= stored.Keys
  {
    var shared := stored.Keys * other.Keys;
    assert stored.Keys == shared + (stored.Keys - other.Keys);
    assert other.Keys == shared + (other.Keys - stored.Keys);
  }

  lemma NothingOmitted(stored: Properties, other: Properties)
    ensures |stored.Keys - other.Keys| == 0 <==> stored.Keys <= other.Keys
  {
    var omitted := stored.Keys - other.Keys;
    if omitted == {} {
      forall k | k in stored.Keys ensures k in other.Keys { assert k !in omitted; }
    } else {
      var k := Any(omitted);
    }
  }

  /** The first loop: count omitted properties, and stop at a conflict or a forbidden omission. */
  method CountOmitted(stored: Properties, other: Properties, canOmit: bool) returns (r: Result<nat>)
    ensures r == if Agree(stored, other) && (canOmit || stored.Keys <= other.Keys)
                 then Success(|stored.Keys - other.Keys|) else Failure(FailedPrecondition)
  {
    var omitted := 0;
    var todo := stored.Keys;
    ghost var seen: set<string> := {};
    while todo != {}
      invariant omitted == |seen|
      invariant forall k :: k in seen <==> k in stored && k !in other && k !in todo
      invariant forall k | k in todo :: k in stored
      invariant forall k | k in stored && k in other && k !in todo :: stored[k] == other[k]
      invariant omitted == 0 || canOmit
      decreases todo
    {
      var k :| k in todo;
      todo := todo - {k};
      if k !in other {
        omitted := omitted + 1;
        seen := seen + {k};
      } else if other[k] != stored[k] {
        return Failure(FailedPrecondition);
      }
      if omitted > 0 && !canOmit {
        assert k in stored.Keys && k !in other.Keys by { assert k in seen; }
        return Failure(FailedPrecondition);
      }
    }
    assert seen == stored.Keys - other.Keys;
    NothingOmitted(stored, other);
    return Success(omitted);
  }

  /** The second loop: add what is new. */
  method AddNew(stored: Properties, other: Properties) returns (output: Properties)
    ensures output == other + stored
  {
    output := stored;
    var todo := other.Keys;
    while todo != {}
      invariant todo <= other.Keys
      invariant output.Keys == stored.Keys + (other.Keys - todo)
      invariant forall k | k in output :: output[k] == if k in stored then stored[k] else other[k]
      decreases todo
    {
      var k :| k in todo;
      todo := todo - {k};
      if k !in stored {
        output := output[k := other[k]];
      }
    }
  }

  /** The properties are visited in any order; the outcome does not depend on it. */
  method CheckFieldsConsistent(stored: TypeRow, other: TypeGiven, canAdd: bool, canOmit: bool)
    returns (r: Result<TypeRow>)
    ensures r == if stored.name == other.name && Compatible(stored.properties, other.properties, canAdd, canOmit)
                 then Success(stored.(properties := other.properties + stored.properties))
                 else Failure(FailedPrecondition)
  {
    if stored.name != other.name {
      return Failure(FailedPrecondition);
    }
    var omitted := CountOmitted(stored.properties, other.properties, canOmit);
    if omitted.Failure? {
      return Failure(omitted.error);
    }
    OmittedCount(stored.properties, other.properties);
    if |stored.properties| - omitted.value == |other.properties| {
      assert other.properties + stored.properties == stored.properties;
      return Success(stored);
    }
    if !canAdd {
      return Failure(FailedPrecondition);
    }
    var output := AddNew(stored.properties, other.properties);
    return Success(stored.(properties := output));
  }

  /******* Upserting types *******/

  predicate Matches(t: TypeRow, kind: TypeKind, name: string, version: Option<string>) {
    t.kind == kind && t.name == name && t.version == version
  }

  /** FindTypeByNameAndVersion: the first record. */
  function Find(db: TypeDb, kind: TypeKind, name: string, version: Option<string>): (r: Option<int>)
    ensures r.Some? ==> r.value in db.types && Matches(db.types[r.value], kind, name, version)
    ensures r.None? ==> forall i | i in db.types :: !Matches(db.types[i], kind, name, version)
  {
    var found := set i | i in db.types && Matches(db.types[i], kind, name, version);
    if found == {} then
      assert forall i | i in db.types :: i !in found;
      None
    else Some(Least(found))
  }

  /** FindParentTypesByTypeId */
  function ParentOf(db: TypeDb, id: int): (r: Option<int>)
    ensures r.Some? ==> (id, r.value) in db.parents
    ensures r.None? ==> forall p :: (id, p) !in db.parents
  {
    var found := set l | l in db.parents && l.0 == id :: l.1;
    if found == {} then
      assert forall p | (id, p) in db.parents :: p in found;
      None
    else Some(Least(found))
  }

  predicate HasUnknown(ps: Properties) {
    exists k :: k in ps && ps[k] == Unknown
  }

  /** UpsertTypeInheritanceLink */
  ghost function UpsertLink(db: TypeDb, g: TypeGiven, id: int): Result<TypeDb> {
    if g.base.None? then Success(db)
    else if g.base == Some(UnsetBase) then Failure(Unimplemented)
    else
      var parent := ParentOf(db, id);
      if parent.None? then
        var base := Find(db, g.kind, g.base.value.name, None);
        if base.None? then Failure(NotFound)
        else if Reaches(db.parents, base.value, id) then Failure(InvalidArgument)
        else Success(db.(parents := db.parents + {(id, base.value)}))
      else if parent.value !in db.types || db.types[parent.value].name != g.base.value.name then Failure(Unimplemented)
      else Success(db)
  }

  /** CreateType */
  function CreateType(db: TypeDb, g: TypeGiven): Result<(TypeDb, int)> {
    if g.name == "" || HasUnknown(g.properties) then Failure(InvalidArgument)
    else
      var row := TypeRow(g.kind, g.name, VersionOf(g.version), g.properties);
      Success((db.(types := db.types[db.next := row], next := db.next + 1), db.next))
  }

  /** CheckFieldsConsistent and UpdateType on a stored type. */
  function UpdateType(db: TypeDb, g: TypeGiven, id: int, canAdd: bool, canOmit: bool): Result<TypeDb>
    requires id in db.types
  {
    var stored := db.types[id];
    if !Compatible(stored.properties, g.properties, canAdd, canOmit) then Failure(AlreadyExists)
    else if HasUnknown(g.properties + stored.properties) then Failure(InvalidArgument)
    else Success(db.(types := db.types[id := stored.(properties := g.properties + stored.properties)]))
  }

  /** The first half of UpsertType: the type itself is created or updated. */
  function Written(db: TypeDb, g: TypeGiven, canAdd: bool, canOmit: bool): Result<(TypeDb, int)> {
    var found := Find(db, g.kind, g.name, VersionOf(g.version));
    if found.None? then CreateType(db, g) else
    var updated :- UpdateType(db, g, found.value, canAdd, canOmit);
    Success((updated, found.value))
  }

  /** UpsertType */
  ghost function Upsert(db: TypeDb, g: TypeGiven, canAdd: bool, canOmit: bool): Result<(TypeDb, int)> {
    var (db', id) :- Written(db, g, canAdd, canOmit);
    var db'' :- UpsertLink(db', g, id);
    Success((db'', id))
  }

  /** What a failing UpsertType has written by then. */
  function Unfinished(db: TypeDb, g: TypeGiven, canAdd: bool, canOmit: bool): TypeDb {
    var written := Written(db, g, canAdd, canOmit);
    if written.Success? then written.value.0 else db
  }

  /** UpsertTypes; the three lists of a request are visited one after the other. */
  ghost function UpsertAll(db: TypeDb, gs: seq<TypeGiven>, canAdd: bool, canOmit: bool): Result<(TypeDb, seq<int>)>
    decreases |gs|
  {
    if gs == [] then Success((db, [])) else
    var (db', id) :- Upsert(db, gs[0], canAdd, canOmit);
    var (db'', ids) :- UpsertAll(db', gs[1..], canAdd, canOmit);
    Success((db'', [id] + ids))
  }

  /** What a failing UpsertTypes has written by then. */
  ghost function AllUnfinished(db: TypeDb, gs: seq<TypeGiven>, canAdd: bool, canOmit: bool): TypeDb
    decreases |gs|
  {
    if gs == [] then db else
    var r := Upsert(db, gs[0], canAdd, canOmit);
    if r.Failure? then Unfinished(db, gs[0], canAdd, canOmit) else AllUnfinished(r.value.0, gs[1..], canAdd, canOmit)
  }

  class TypeAccess {
    var db: TypeDb

    constructor (d: TypeDb)
      ensures db == d
    {
      db := d;
    }

    method DoUpsertLink(g: TypeGiven, id: int) returns (status: Status)
      modifies this
      ensures status == Ok <==> UpsertLink(old(db), g, id).Success?
      ensures if status == Ok then UpsertLink(old(db), g, id).value == db else
              UpsertLink(old(db), g, id) == Failure(status) && db == old(db)
    {
      if g.base.None? {
        return Ok;
      }
      if g.base.value.UnsetBase? {
        return Unimplemented;
      }
      var parent := ParentOf(db, id);
      if parent.None? {
        var base := Find(db, g.kind, g.base.value.name, None);
        if base.None? {
          return NotFound;
        }
        var cyclic := CheckCyclicDependency(db.parents, id, base.value);
        if cyclic != Ok {
          return cyclic;
        }
        db := db.(parents := db.parents + {(id, base.value)});
        return Ok;
      }
      if parent.value !in db.types || db.types[parent.value].name != g.base.value.name {
        return Unimplemented;
      }
      return Ok;
    }

    method UpsertType(g: TypeGiven, canAdd: bool, canOmit: bool) returns (status: Status, id: int)
      modifies this
      ensures status == Ok <==> Upsert(old(db), g, canAdd, canOmit).Success?
      ensures if status == Ok then Upsert(old(db), g, canAdd, canOmit).value == (db, id)
              else Upsert(old(db), g, canAdd, canOmit) == Failure(status) && db == Unfinished(old(db), g, canAdd, canOmit)
    {
      hide UpsertLink, Find;
      id := 0;
      var found := Find(db, g.kind, g.name, VersionOf(g.version));
      if found.None? {
        var created := CreateType(db, g);
        if created.Failure? {
          return created.error, id;
        }
        db, id := created.value.0, created.value.1;
      } else {
        id := found.value;
        var checked := CheckFieldsConsistent(db.types[id], g, canAdd, canOmit);
        if checked.Failure? {
          return AlreadyExists, id;
        }
        if HasUnknown(checked.value.properties) {
          return InvalidArgument, id;
        }
        db := db.(types := db.types[id := checked.value]);
      }
      status := DoUpsertLink(g, id);
    }

    method UpsertTypes(gs: seq<TypeGiven>, canAdd: bool, canOmit: bool) returns (status: Status, ids: seq<int>)
      modifies this
      ensures status == Ok <==> UpsertAll(old(db), gs, canAdd, canOmit).Success?
      ensures if status == Ok then UpsertAll(old(db), gs, canAdd, canOmit).value == (db, ids)
              else && UpsertAll(old(db), gs, canAdd, canOmit) == Failure(status)
                   && db == AllUnfinished(old(db), gs, canAdd, canOmit)
    {
      hide Upsert;
      ids := [];
      ghost var whole := UpsertAll(db, gs, canAdd, canOmit);
      assert gs[0..] == gs && (whole.Success? ==> [] + whole.value.1 == whole.value.1);
      for i := 0 to |gs|
        invariant whole == Then(ids, UpsertAll(db, gs[i..], canAdd, canOmit))
        invariant AllUnfinished(old(db), gs, canAdd, canOmit) == AllUnfinished(db, gs[i..], canAdd, canOmit)
      {
        assert gs[i..][1..] == gs[i + 1..];
        var s, id := UpsertType(gs[i], canAdd, canOmit);
        if s != Ok {
          return s, ids;
        }
        ghost var rest := UpsertAll(db, gs[i + 1..], canAdd, canOmit);
        assert rest.Success? ==> ids + ([id] + rest.value.1) == (ids + [id]) + rest.value.1;
        ids := ids + [id];
      }
      assert gs[|gs|..] == [] && ids + [] == ids;
      return Ok, ids;
    }
  }
}
