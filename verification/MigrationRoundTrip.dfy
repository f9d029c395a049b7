/** Whole migrations with the SQLite scripts, between any two versions. */
module MigrationRoundTrip {
  import opened Statuses
  import opened Transactions
  import opened SchemaSql
  import opened Migration
  import opened SqliteScripts
  import opened MigrationEffect
  import opened MigrationSteps
  import opened MigrationUp
  import opened MigrationDown

  lemma SchemesAt(v: int)
    requires 0 <= v <= 8
    ensures v in Sqlite().schemes && Sqlite().schemes[v] == Scheme(Up(v), Down(v)) && Sqlite().lib == 8
  {
    hide Up, Down, CreateTables, CreateIndices, SecondaryIndices;
  }

  /** Recording version `v` completes a step. */
  lemma VersionRecorded(ss: seq<Stmt>, d0: Db, d: Db, v: int, t: int, k: Content)
    requires Full(k) && v >= 1 && Leads(ss, d0, d) && Reached(d, v, t, k) && d.env.Some? && |d.env.value| == 1
    ensures RunAll(ss + [UpdateVersion(v)], d0) == Outcome(Ok, At(v, t, k))
  {
    assert Effect(UpdateVersion(v), d) == Success(At(v, t, k));
    hide RunAll, At, Effect;
    RunAllConcat(ss, [UpdateVersion(v)], d0);
    RunOne(UpdateVersion(v), d);
  }

  lemma Up1(k: Content) returns (d: Db)
    requires Full(k)
    ensures Leads(Up(1), At(0, 0, k), d) && Reached(d, 1, 0, k) && d.env == Some([0])
  {
    hide RunAll, Left, Shape, Columns, Since, IndicesAt;
    var d0 := At(0, 0, k);
    AtTables(0, 0, k);
    d := d0.(env := Some([0]));
    assert [] + [0] == [0];
    RunTwo(CreateEnv, InsertVersion(0), d0, d0.(env := Some([])), d);
    NoIndices();
    ReachedUp(d, 1, 0, k);
  }

  /** Only the last step changes what the rows say. */
  function Raised(v: int, k: Content): (r: Content)
    requires Full(k)
    ensures Full(r)
  {
    if v == 8 then Deduped(k) else k
  }

  /** Each upgrade script, on a database of the version before that holds what is left of `k`. */
  lemma StepUp(v: int, t: int, k: Content)
    requires Full(k) && 1 <= v <= 8 && 0 <= t < v
    ensures UpStep(Sqlite(), At(v - 1, t, k), v) == Outcome(Ok, At(v, t, Raised(v, k)))
  {
    hide Up, Down, RunAll, At, Reached, Leads, Sqlite, Deduped;
    SchemesAt(v);
    var d := At(v, t, Raised(v, k));
    match v {
      case 1 => d := Up1(k);
      case 2 => d := Up2(t, k);
      case 3 => d := Up3(t, k);
      case 4 => d := Up4(t, k);
      case 5 => d := Up5(t, k);
      case 6 => d := Up6(t, k);
      case 7 => d := Up7(t, k);
      case 8 => d := Up8(t, k);
    }
    VersionRecorded(Up(v), At(v - 1, t, k), d, v, t, Raised(v, k));
  }

  lemma StepDown0(k: Content)
    requires Full(k)
    ensures DownStep(Sqlite(), At(1, 1, k), 0) == Outcome(Ok, At(0, 0, k))
  {
    hide At, RunAll, Sqlite, Down;
    SchemesAt(0);
    var d := Down0(k);
    assert Down(0) + [] == Down(0);
  }

  function Lowered(v: int, k: Content): (r: Content)
    requires Full(k)
    ensures Full(r)
  {
    if v == 1 then Trimmed(k) else k
  }

  /** Each downgrade script, on a database of the version after with any content. */
  lemma StepDown(v: int, k: Content)
    requires Full(k) && 0 <= v < 8
    ensures DownStep(Sqlite(), At(v + 1, v + 1, k), v) == Outcome(Ok, At(v, v, Lowered(v, k)))
  {
    hide Up, Down, RunAll, At, Reached, Leads, Sqlite, Trimmed;
    SchemesAt(v);
    var d := At(v, v, Lowered(v, k));
    match v {
      case 0 => StepDown0(k);
      case 1 => d := Down1(k);
      case 2 => d := Down2(k);
      case 3 => d := Down3(k);
      case 4 => d := Down4(k);
      case 5 => d := Down5(k);
      case 6 => d := Down6(k);
      case 7 => d := Down7(k);
    }
    if v > 0 { VersionRecorded(Down(v), At(v + 1, v + 1, k), d, v, v, Lowered(v, k)); }
  }

  lemma UpFrom(v: int, t: int, k: Content)
    requires Full(k) && 0 <= t <= v < 8
    ensures UpgradeFrom(Sqlite(), At(v, t, k), v) == Outcome(Ok, At(8, t, Deduped(k)))
    decreases 8 - v
  {
    hide At, UpStep, Sqlite, Deduped;
    SchemesAt(0);
    StepUp(v + 1, t, k);
    if v < 7 {
      UpFrom(v + 1, t, k);
    } else {
      assert UpgradeFrom(Sqlite(), At(8, t, Deduped(k)), 8) == Outcome(Ok, At(8, t, Deduped(k)));
    }
  }

  /** What is left of the content at version `t`. */
  function Below(t: int, k: Content): (r: Content)
    requires Full(k)
    ensures Full(r)
  {
    if t <= 1 then Trimmed(k) else k
  }

  lemma DownFrom(v: int, t: int, k: Content)
    requires Full(k) && 2 <= v <= 8 && 0 <= t <= v
    ensures DowngradeFrom(Sqlite(), At(v, v, k), v, t) == Outcome(Ok, At(t, t, Below(t, k)))
    decreases v
  {
    hide At, DownStep, Sqlite, Trimmed;
    if v > t {
      StepDown(v - 1, k);
      if v - 1 >= 2 { DownFrom(v - 1, t, k); } else { DownLast(t, Trimmed(k)); }
    }
  }

  lemma DownLast(t: int, k: Content)
    requires Full(k) && 0 <= t <= 1
    ensures DowngradeFrom(Sqlite(), At(1, 1, k), 1, t) == Outcome(Ok, At(t, t, k))
  {
    hide At, DownStep, Sqlite;
    if t == 0 {
      StepDown(0, k);
      assert DowngradeFrom(Sqlite(), At(0, 0, k), 0, 0) == Outcome(Ok, At(0, 0, k));
    }
  }

  lemma VersionAt(v: int, t: int, k: Content)
    requires Full(k) && 0 <= t <= v <= 8
    ensures SchemaVersion(At(v, t, k)) == Success(v)
  {
    AtTables(v, t, k);
    if v == 0 { OldTables(); }
  }

  lemma OldTables()
    ensures forall n | n in {Artifacts, Events, Executions, Types, ArtifactProperties, EventPaths, ExecutionProperties, TypeProperties} ::
              Since(n) == 0
    ensures IsArtifactType in Columns(Types, 0)
  {
  }

  /******* Any database of a version *******/

  /** A database with the schema of version `v`: its tables, columns and indices, and the version recorded. */
  predicate AtVersion(v: int, d: Db) {
    && (forall n: TableId :: n in d.tables <==> Since(n) <= v)
    && (forall n | n in d.tables :: d.tables[n].columns == Columns(n, v))
    && (forall n, row | n in d.tables && row in d.tables[n].rows :: row.Keys == Elements(Columns(n, v)))
    && d.temps == map[] && d.indices == IndicesAt(v) && d.env == (if v == 0 then None else Some([v]))
  }

  /** A row of version `v` in the columns of version 8. */
  function LiftRow(n: TableId, v: int, row: Row): Row {
    map c | c in Head(n) ::
      if n == Types && v < 2 && c == TypeKind then Get(row, IsArtifactType)
      else if ColumnSince(n, c) > v then Default(c)
      else Get(row, c)
  }

  function Lift(v: int, d: Db): (k: Content)
    ensures Full(k)
  {
    map n: TableId | true :: if n in d.tables then MapRows(d.tables[n].rows, row => LiftRow(n, v, row)) else []
  }

  lemma NoOldKind(n: TableId)
    ensures IsArtifactType !in Head(n)
  {
  }

  lemma OldColumn(n: TableId, v: int, c: Column)
    requires c in Columns(n, v) && Columns(n, v) != Head(n)
    ensures Source(c) in Head(n)
  {
    match n {
      case Types =>
      case Artifacts =>
      case Executions =>
      case Contexts =>
      case ArtifactProperties =>
      case ExecutionProperties =>
      case ContextProperties =>
    }
  }

  lemma HeadColumn(n: TableId, v: int, c: Column)
    requires c in Columns(n, v)
    ensures Source(c) in Head(n)
  {
    hide Head, Columns;
    NoOldKind(n);
    if Columns(n, v) != Head(n) { OldColumn(n, v, c); }
  }

  lemma KindColumn(n: TableId, v: int, c: Column)
    requires c in Columns(n, v)
    ensures c == IsArtifactType <==> n == Types && v < 2 && Source(c) == TypeKind
  {
    hide Head;
    NoOldKind(n);
  }

  lemma SourceSince(n: TableId, c: Column)
    ensures ColumnSince(n, Source(c)) == ColumnSince(n, c)
  {
  }

  lemma LiftedRow(n: TableId, v: int, row: Row)
    requires 0 <= v <= 8 && Since(n) <= v && row.Keys == Elements(Columns(n, v))
    ensures RowOf(n, Columns(n, v), v, LiftRow(n, v, row)) == row
  {
    hide Columns, Since, ColumnSince, Default, Head, Elements;
    forall c | c in Columns(n, v)
      ensures c in row && RowOf(n, Columns(n, v), v, LiftRow(n, v, row))[c] == row[c]
    {
      InElements(Columns(n, v), c);
      HeadColumn(n, v, c);
      KindColumn(n, v, c);
      SourceSince(n, c);
      ColumnsSince(n, v, c);
    }
    forall c | c in row ensures c in Columns(n, v) { InElements(Columns(n, v), c); }
  }

  /** Every database of version `v` has a content. */
  lemma Represented(v: int, d: Db)
    requires 0 <= v <= 8 && AtVersion(v, d)
    ensures At(v, v, Lift(v, d)) == d
  {
    hide Columns, Since, IndicesAt, LiftRow, RowOf, Elements;
    var k := Lift(v, d);
    AtTables(v, v, k);
    forall n | n in d.tables ensures TableAt(n, v, v, k) == d.tables[n] {
      var rows, cs := d.tables[n].rows, Columns(n, v);
      forall i | 0 <= i < |rows| ensures RowOf(n, cs, v, LiftRow(n, v, rows[i])) == rows[i] {
        assert rows[i] in rows;
        LiftedRow(n, v, rows[i]);
      }
      assert MapRows(k[n], row => RowOf(n, cs, v, row)) == rows;
    }
    assert At(v, v, k).tables == d.tables;
  }

  lemma InElements(cs: seq<Column>, c: Column)
    ensures c in cs <==> c in Elements(cs)
  {
  }

  /** A version's database, whatever its content, has that version's schema. */
  lemma AtHasSchema(v: int, t: int, k: Content)
    requires Full(k)
    ensures AtVersion(v, At(v, t, k))
  {
    hide Columns, Since, IndicesAt;
    AtTables(v, t, k);
    forall n, row | Since(n) <= v && row in TableAt(n, v, t, k).rows ensures row.Keys == Elements(Columns(n, v)) {
      var rows := Left(n, t, k);
      var i :| 0 <= i < |rows| && row == RowOf(n, Columns(n, v), t, rows[i]);
    }
  }

  /** An upgrade script takes every database of the version before to the version's schema. */
  lemma EveryStepUp(v: int, d: Db)
    requires 1 <= v <= 8 && AtVersion(v - 1, d)
    ensures var r := UpStep(Sqlite(), d, v);
            r.status == Ok && AtVersion(v, r.state)
  {
    hide At, UpStep, Sqlite, AtVersion, Lift;
    var k := Lift(v - 1, d);
    Represented(v - 1, d);
    StepUp(v, v - 1, k);
    AtHasSchema(v, v - 1, Raised(v, k));
  }

  /** A downgrade script takes every database of the version after to the version's schema. */
  lemma EveryStepDown(v: int, d: Db)
    requires 0 <= v < 8 && AtVersion(v + 1, d)
    ensures var r := DownStep(Sqlite(), d, v);
            r.status == Ok && AtVersion(v, r.state)
  {
    hide At, DownStep, Sqlite, AtVersion, Lift;
    var k := Lift(v + 1, d);
    Represented(v + 1, d);
    StepDown(v, k);
    AtHasSchema(v, v, Lowered(v, k));
  }

  /******* Events *******/

  predicate IntegerIds(rows: seq<Row>) {
    forall row | row in rows :: Get(row, Id).Int?
  }

  lemma FilterMembers(rows: seq<Row>, p: Row -> bool)
    ensures forall row :: row in FilterRows(rows, p) <==> row in rows && p(row)
  {
  }

  /** INSERT OR IGNORE of `rows`, one after the other, into a table of events that holds `kept`. */
  function InsertIgnoring(rows: seq<Row>, kept: seq<Row>): seq<Row>
    decreases |rows|
  {
    if rows == [] then kept
    else if exists k :: k in kept && SameEvent(k, rows[0]) then InsertIgnoring(rows[1..], kept)
    else InsertIgnoring(rows[1..], kept + [rows[0]])
  }

  predicate Descending(rows: seq<Row>) {
    && IntegerIds(rows)
    && forall i, j | 0 <= i < j < |rows| :: Get(rows[i], Id).Int? && Get(rows[j], Id).Int? && Get(rows[i], Id).i > Get(rows[j], Id).i
  }

  /** The first of its kind. */
  predicate First(rows: seq<Row>, j: nat)
    requires j < |rows|
  {
    NoneSame(rows[..j], rows[j])
  }

  predicate NoneSame(rows: seq<Row>, row: Row) {
    forall r | r in rows :: !SameEvent(r, row)
  }

  /** `row` is inserted, not ignored. */
  ghost predicate Inserted(rows: seq<Row>, kept: seq<Row>, row: Row) {
    exists j :: 0 <= j < |rows| && rows[j] == row && NoneSame(kept + rows[..j], row)
  }

  /** The rows before a position do not depend on where the first of them is kept. */
  lemma Shifted(rows: seq<Row>, kept: seq<Row>, j: nat)
    requires 0 < j < |rows|
    ensures kept + rows[..j] == (kept + [rows[0]]) + rows[1..][..j - 1]
  {
  }

  /** A row whose kind is kept already changes nothing. */
  lemma Ignored(rows: seq<Row>, kept: seq<Row>, j: nat, row: Row)
    requires 0 < j < |rows| && !NoneSame(kept, rows[0])
    ensures NoneSame(kept + rows[..j], row) <==> NoneSame(kept + rows[1..][..j - 1], row)
  {
    var k :| k in kept && SameEvent(k, rows[0]);
    var longer, shorter := kept + rows[..j], kept + rows[1..][..j - 1];
    Shifted(rows, kept, j);
    assert forall r :: r in longer <==> r in shorter || r == rows[0];
    assert k in shorter;
  }

  lemma InsertedNext(rows: seq<Row>, kept: seq<Row>, row: Row)
    requires rows != []
    ensures Inserted(rows, kept, row) <==>
            if NoneSame(kept, rows[0]) then row == rows[0] || Inserted(rows[1..], kept + [rows[0]], row)
            else Inserted(rows[1..], kept, row)
  {
    hide NoneSame;
    var unseen := NoneSame(kept, rows[0]);
    var kept' := if unseen then kept + [rows[0]] else kept;
    assert kept + rows[..0] == kept;
    forall j | 0 < j < |rows|
      ensures rows[1..][j - 1] == rows[j]
      ensures NoneSame(kept + rows[..j], row) <==> NoneSame(kept' + rows[1..][..j - 1], row)
    {
      if unseen { Shifted(rows, kept, j); } else { Ignored(rows, kept, j, row); }
    }
    if j :| 0 <= j < |rows| && rows[j] == row && NoneSame(kept + rows[..j], row) {
      if j > 0 { assert rows[1..][j - 1] == row && NoneSame(kept' + rows[1..][..j - 1], row); }
    }
    if j :| 0 <= j < |rows| - 1 && rows[1..][j] == row && NoneSame(kept' + rows[1..][..j], row) {
      assert rows[j + 1] == row && NoneSame(kept + rows[..j + 1], row);
    }
    if unseen && row == rows[0] { assert rows[0] == row && NoneSame(kept + rows[..0], row); }
  }

  lemma NothingInserted(kept: seq<Row>, row: Row)
    ensures !Inserted([], kept, row)
  {
  }

  lemma {:induction false} IgnoringInserts(rows: seq<Row>, kept: seq<Row>, row: Row)
    ensures row in InsertIgnoring(rows, kept) <==> row in kept || Inserted(rows, kept, row)
    decreases |rows|
  {
    hide Inserted, SameEvent;
    if rows == [] {
      NothingInserted(kept, row);
    } else {
      InsertedNext(rows, kept, row);
      IgnoringInserts(rows[1..], if NoneSame(kept, rows[0]) then kept + [rows[0]] else kept, row);
    }
  }

  /** Inserting the events by descending id and ignoring duplicates keeps those of greatest id, as CopyLatestEvents says. */
  lemma IgnoringKeepsLatest(rows: seq<Row>, ordered: seq<Row>, row: Row)
    requires Descending(ordered) && multiset(ordered) == multiset(rows)
    ensures row in InsertIgnoring(ordered, []) <==> row in FilterRows(rows, Latest(rows))
  {
    hide SameEvent, InsertIgnoring, NoneSame, Supersedes, FilterRows;
    IgnoringInserts(ordered, [], row);
    FilterMembers(rows, Latest(rows));
    SameMembers(rows, ordered);
    assert Superseded(rows, row) <==> Superseded(ordered, row);
    forall j | 0 <= j < |ordered| ensures NoneSame([] + ordered[..j], ordered[j]) <==> !Superseded(ordered, ordered[j]) {
      FirstIsLatest(ordered, j);
      assert [] + ordered[..j] == ordered[..j];
    }
  }

  lemma SameMembers(rows: seq<Row>, others: seq<Row>)
    requires multiset(rows) == multiset(others)
    ensures forall row :: row in rows <==> row in others
  {
    assert forall row :: row in rows <==> row in multiset(rows);
    assert forall row :: row in others <==> row in multiset(others);
  }

  lemma FirstIsLatest(rows: seq<Row>, j: nat)
    requires Descending(rows) && j < |rows|
    ensures First(rows, j) <==> !Superseded(rows, rows[j])
  {
    if Superseded(rows, rows[j]) {
      var other :| other in rows && Supersedes(other, rows[j]);
      var i :| 0 <= i < |rows| && rows[i] == other;
      assert i < j && rows[..j][i] == other;
    }
    if !First(rows, j) {
      var r :| r in rows[..j] && SameEvent(r, rows[j]);
      var i :| 0 <= i < j && rows[i] == r;
      assert Supersedes(rows[i], rows[j]);
    }
  }

  /** For every event one of its kind is kept, and none later was there. */
  lemma LatestCovers(rows: seq<Row>, e: Row) returns (m: Row)
    requires IntegerIds(rows) && e in rows
    ensures m in FilterRows(rows, Latest(rows)) && SameEvent(m, e) && Get(m, Id).Int? && Get(m, Id).i >= Get(e, Id).i
  {
    var later := set x | x in rows && SameEvent(x, e) :: Get(x, Id).i;
    assert Get(e, Id).i in later;
    var top := Greatest(later);
    m :| m in rows && SameEvent(m, e) && Get(m, Id).i == top;
    FilterMembers(rows, Latest(rows));
    forall x | x in rows && SameEvent(x, m) ensures Get(x, Id).i <= Get(m, Id).i {
      assert SameEvent(x, e) && Get(x, Id).i in later;
    }
  }

  lemma Greatest(s: set<int>) returns (x: int)
    requires s != {}
    ensures x in s && forall y | y in s :: y <= x
  {
    var y := Any(s);
    x := y;
    if s != {y} {
      var z := Greatest(s - {y});
      x := if z > y then z else y;
      assert forall w | w in s :: w == y || w in s - {y};
    }
  }

  /** Two kept events of one kind have one id. */
  lemma LatestDistinct(rows: seq<Row>, a: Row, b: Row)
    requires IntegerIds(rows)
    requires a in FilterRows(rows, Latest(rows)) && b in FilterRows(rows, Latest(rows)) && SameEvent(a, b)
    ensures Get(a, Id) == Get(b, Id)
  {
    FilterMembers(rows, Latest(rows));
    assert !Superseded(rows, a) && !Superseded(rows, b);
  }

  /** Tables whose columns never changed. */
  predicate Constant(n: TableId) {
    n == Events || n == EventPaths
  }

  lemma ConstantColumns(n: TableId, v: int)
    requires Constant(n)
    ensures Since(n) == 0 && Columns(n, v) == Head(n) && (forall c :: ColumnSince(n, c) == 0) && IsArtifactType !in Head(n)
  {
  }

  lemma ConstantRow(n: TableId, v: int, row: Row)
    requires Constant(n) && v >= 0 && row.Keys == Elements(Head(n))
    ensures LiftRow(n, v, row) == row && RowOf(n, Head(n), v, row) == row
  {
    hide Head, ColumnSince, Default, Elements, Columns;
    ConstantColumns(n, v);
    forall c | c in Head(n) ensures c in row { InElements(Head(n), c); }
    forall c | c in row ensures c in Head(n) { InElements(Head(n), c); }
  }

  lemma ConstantRows(n: TableId, v: int, rows: seq<Row>)
    requires Constant(n) && v >= 0 && forall row | row in rows :: row.Keys == Elements(Head(n))
    ensures MapRows(rows, row => LiftRow(n, v, row)) == rows && Shape(n, Head(n), v, rows).rows == rows
  {
    hide LiftRow, RowOf, Elements;
    forall i | 0 <= i < |rows| ensures LiftRow(n, v, rows[i]) == rows[i] && RowOf(n, Head(n), v, rows[i]) == rows[i] {
      assert rows[i] in rows;
      ConstantRow(n, v, rows[i]);
    }
  }

  /** The upgraded database keeps the events and paths as `Deduped` says, row for row. */
  lemma UpgradedEvents(v: int, d: Db)
    requires 0 <= v < 8 && AtVersion(v, d)
    ensures Events in d.tables && EventPaths in d.tables
    ensures var r, events := At(8, v, Deduped(Lift(v, d))), d.tables[Events].rows;
            && Events in r.tables && EventPaths in r.tables
            && r.tables[Events].rows == FilterRows(events, Latest(events))
            && r.tables[EventPaths].rows == FilterRows(d.tables[EventPaths].rows, Refers(Ids(r.tables[Events].rows)))
  {
    hide FilterRows, Latest, Refers, Ids, Elements, LiftRow, Shape, Columns, Since;
    ConstantColumns(Events, v);
    ConstantColumns(EventPaths, v);
    var k, events, paths := Lift(v, d), d.tables[Events].rows, d.tables[EventPaths].rows;
    ConstantColumns(Events, 8);
    ConstantColumns(EventPaths, 8);
    ConstantRows(Events, v, events);
    ConstantRows(EventPaths, v, paths);
    FilterMembers(events, Latest(events));
    var kept := FilterRows(events, Latest(events));
    FilterMembers(paths, Refers(Ids(kept)));
    ConstantRows(Events, v, kept);
    ConstantRows(EventPaths, v, FilterRows(paths, Refers(Ids(kept))));
    AtTables(8, v, Deduped(k));
  }

  lemma HeadSince(n: TableId)
    ensures Since(n) <= 8 && Columns(n, 8) == Head(n) && forall c | c in Head(n) :: ColumnSince(n, c) <= 8
  {
    forall c | c in Head(n) ensures ColumnSince(n, c) <= 8 { ColumnsSince(n, 8, c); }
  }

  lemma HeadSchema(d: Db)
    requires AtVersion(8, d)
    requires Events in d.tables ==> forall a, b | a in d.tables[Events].rows && b in d.tables[Events].rows && SameEvent(a, b) :: Get(a, Id) == Get(b, Id)
    ensures AtHead(d)
  {
    hide Columns, Since, IndicesAt, Elements, Head;
    forall n: TableId ensures Since(n) <= 8 && Columns(n, 8) == Head(n) { HeadSince(n); }
  }

  /**
   Every database of any version is upgraded to version 8. Of equal events the one with the greatest id is
   kept, and with it the paths of the events kept; no two equal events are left. All other rows are kept, in
   order, with new columns at their defaults, and new tables are empty.
   */
  lemma EveryUpgrade(v: int, d: Db)
    requires 0 <= v < 8 && AtVersion(v, d) && Events in d.tables && EventPaths in d.tables
    requires IntegerIds(d.tables[Events].rows)
    ensures var r, events := Upgraded(Sqlite(), d, true), d.tables[Events].rows;
            && r.status == Ok && AtHead(r.state)
            && r.state.tables[Events].rows == FilterRows(events, Latest(events))
            && r.state.tables[EventPaths].rows == FilterRows(d.tables[EventPaths].rows, Refers(Ids(r.state.tables[Events].rows)))
            && forall n: TableId | !Constant(n) :: RowsKept(n, v, d, r.state)
  {
    hide RowsKept, At, Sqlite, SchemaVersion, Lift, Deduped, FilterRows, Latest, Refers, Ids, IndicesAt, Columns, Since, Elements;
    var k := Lift(v, d);
    Represented(v, d);
    VersionAt(v, v, k);
    SchemesAt(8);
    UpFrom(v, v, k);
    UpgradedEvents(v, d);
    var r := At(8, v, Deduped(k));
    AtHasSchema(8, v, Deduped(k));
    forall a, b | a in r.tables[Events].rows && b in r.tables[Events].rows && SameEvent(a, b) ensures Get(a, Id) == Get(b, Id) {
      LatestDistinct(d.tables[Events].rows, a, b);
    }
    HeadSchema(r);
    forall n: TableId | !Constant(n) ensures RowsKept(n, v, d, r) { UpgradedRows(n, v, d); }
  }

  /** The table has the rows it had at version `v`, or none if it is new. */
  predicate RowsKept(n: TableId, v: int, d: Db, d': Db) {
    n in d'.tables &&
    if n !in d.tables then d'.tables[n].rows == []
    else
      && |d'.tables[n].rows| == |d.tables[n].rows|
      && forall i | 0 <= i < |d.tables[n].rows| :: d'.tables[n].rows[i] == LiftRow(n, v, d.tables[n].rows[i])
  }

  lemma UpgradedRows(n: TableId, v: int, d: Db)
    requires 0 <= v < 8 && AtVersion(v, d) && !Constant(n)
    ensures RowsKept(n, v, d, At(8, v, Deduped(Lift(v, d))))
  {
    hide Columns, Since, IndicesAt, LiftRow, RowOf, Elements, FilterRows, Latest, Refers, Ids, Head;
    var k := Lift(v, d);
    AtTables(8, v, Deduped(k));
    HeadSince(n);
    assert Deduped(k)[n] == k[n];
    if n in d.tables {
      var rows := d.tables[n].rows;
      forall i | 0 <= i < |rows| ensures RowOf(n, Head(n), v, k[n][i]) == LiftRow(n, v, rows[i]) {
        LiftStays(n, v, rows[i]);
      }
    }
  }

  lemma LiftStays(n: TableId, v: int, row: Row)
    requires v >= 0
    ensures RowOf(n, Head(n), v, LiftRow(n, v, row)) == LiftRow(n, v, row)
  {
    hide ColumnSince, Default, Head;
    KindSince();
    NoOldKind(n);
  }

  lemma KindSince()
    ensures ColumnSince(Types, TypeKind) == 0
  {
  }

  /******* Down and up again *******/

  function ContentOf(db: Db): (k: Content)
    requires HasAllTables(db)
    ensures Full(k)
  {
    map n: TableId | true :: db.tables[n].rows
  }

  /** What comes back from version `t`. */
  function Returned(t: int, db: Db): Db
    requires HasAllTables(db)
  {
    if t == 8 then db else At(8, t, Deduped(Below(t, ContentOf(db))))
  }

  lemma HeadRow(n: TableId, row: Row, t: int)
    requires row.Keys == Elements(Head(n)) && t <= 8 && forall c | c in Head(n) && ColumnSince(n, c) > t :: Get(row, c) == Default(c)
    ensures RowOf(n, Head(n), t, row) == row
  {
    hide ColumnSince, Default, Head, Elements;
    forall c | c in Head(n) ensures c in row && Source(c) == c {
      NotRenamed(n, c);
      InElements(Head(n), c);
    }
    forall c | c in row ensures c in Head(n) { InElements(Head(n), c); }
  }

  lemma NotRenamed(n: TableId, c: Column)
    requires c in Head(n)
    ensures Source(c) == c
  {
  }

  /** Nothing in the database depends on a version after `t`. */
  predicate NothingNewer(db: Db, t: int)
    requires HasAllTables(db)
  {
    && (forall n | n in db.tables && Since(n) > t :: db.tables[n].rows == [])
    && (forall n, row, c | n in db.tables && row in db.tables[n].rows && c in Head(n) && ColumnSince(n, c) > t :: Get(row, c) == Default(c))
    && (t <= 1 ==> forall row | row in db.tables[Types].rows :: NotOfKind(2)(row))
    && (t <= 7 ==> forall row | row in db.tables[EventPaths].rows :: Refers(Ids(db.tables[Events].rows))(row))
  }

  /** A content that keeps all rows, none of which has a newer column, gives the database back. */
  lemma SameContent(db: Db, t: int, k: Content)
    requires AtHead(db) && 0 <= t <= 8 && Full(k) && forall n: TableId :: Left(n, t, k) == db.tables[n].rows
    requires forall n, row, c | n in db.tables && row in db.tables[n].rows && c in Head(n) && ColumnSince(n, c) > t :: Get(row, c) == Default(c)
    ensures At(8, t, k) == db
  {
    hide Columns, Since, ColumnSince, IndicesAt, RowOf, Elements, Default, Left;
    AtTables(8, t, k);
    var d := At(8, t, k);
    forall n: TableId ensures n in d.tables && d.tables[n] == db.tables[n] {
      HeadSince(n);
      var rows := db.tables[n].rows;
      forall i | 0 <= i < |rows| ensures RowOf(n, Head(n), t, rows[i]) == rows[i] {
        assert rows[i] in rows;
        HeadRow(n, rows[i], t);
      }
      assert MapRows(rows, row => RowOf(n, Head(n), t, row)) == rows;
    }
    assert d.tables == db.tables;
  }

  /** Among the distinct events of version 8 each is the latest of its kind. */
  lemma AllLatest(db: Db)
    requires AtHead(db)
    ensures var events := db.tables[Events].rows;
            FilterRows(events, Latest(events)) == events
  {
    hide IndicesAt, Elements, Head;
    var events := db.tables[Events].rows;
    forall row | row in events ensures Latest(events)(row) { }
    FilterAll(events, Latest(events));
  }

  lemma NothingLost(db: Db, t: int)
    requires AtHead(db) && 0 <= t < 8 && NothingNewer(db, t)
    ensures Returned(t, db) == db
  {
    hide Columns, ColumnSince, IndicesAt, FilterRows, Refers, NotOfKind, Ids, Elements, Default, Latest, At, Head;
    var k, events, paths := ContentOf(db), db.tables[Events].rows, db.tables[EventPaths].rows;
    AllLatest(db);
    FilterAll(paths, Refers(Ids(events)));
    if t <= 1 { FilterAll(db.tables[Types].rows, NotOfKind(2)); }
    var k' := Deduped(Below(t, k));
    assert forall n: TableId :: n in k' && k'[n] == k[n];
    SameContent(db, t, k');
  }

  lemma HeadContent(db: Db)
    requires AtHead(db)
    ensures At(8, 8, ContentOf(db)) == db
  {
    hide ColumnSince, IndicesAt, Elements, Default, At, Head;
    forall n: TableId ensures Since(n) <= 8 && forall c | c in Head(n) :: ColumnSince(n, c) <= 8 { HeadSince(n); }
    SameContent(db, 8, ContentOf(db));
  }

  /**
   Every database of version 8 can be taken down to any version `t` and up again. It then has the
   schema of version 8, and has lost exactly what versions after `t` introduced.
   */
  lemma RoundTrip(db: Db, t: int)
    requires AtHead(db) && 0 <= t <= 8
    ensures var k := ContentOf(db);
            && Downgraded(Sqlite(), db, t) == Outcome(Ok, At(t, t, Below(t, k)))
            && Upgraded(Sqlite(), At(t, t, Below(t, k)), true) == Outcome(Ok, Returned(t, db))
  {
    hide At, Sqlite, SchemaVersion, IndicesAt, Deduped, Trimmed, Elements;
    var k := ContentOf(db);
    HeadContent(db);
    SchemesAt(8);
    VersionAt(8, 8, k);
    DownFrom(8, t, k);
    VersionAt(t, t, Below(t, k));
    if t < 8 { UpFrom(t, t, Below(t, k)); }
  }

  lemma HeadTables(db: Db)
    requires AtHead(db)
    ensures HasAllTables(db)
  {
  }

  /** A filter that drops nothing was passed by all. */
  lemma FilterLength(rows: seq<Row>, p: Row -> bool)
    ensures |FilterRows(rows, p)| <= |rows|
    ensures |FilterRows(rows, p)| == |rows| ==> forall row | row in rows :: p(row)
  {
    if rows != [] {
      FilterLength(rows[1..], p);
      assert forall row | row in rows :: row == rows[0] || row in rows[1..];
    }
  }

  /** The round trip restores the database if and only if nothing in it is newer than `t`. */
  lemma RoundTripLossless(db: Db, t: int)
    requires AtHead(db) && 0 <= t <= 8
    ensures Returned(t, db) == db <==> NothingNewer(db, t)
  {
    HeadTables(db);
    if t == 8 { NothingNewerThanHead(db); }
    if t < 8 && NothingNewer(db, t) { NothingLost(db, t); }
    if t < 8 && Returned(t, db) == db { LosslessOnly(db, t); }
  }

  lemma LosslessOnly(db: Db, t: int)
    requires AtHead(db) && 0 <= t < 8 && Returned(t, db) == db
    ensures NothingNewer(db, t)
  {
    hide At, Deduped, Below, IndicesAt, Elements, Since, ColumnSince, Default;
    var k := ContentOf(db);
    forall n | n in db.tables && Since(n) > t ensures db.tables[n].rows == [] {
      KeptRows(db, t, Deduped(Below(t, k)), n, map[], Id);
    }
    forall n, row, c | n in db.tables && row in db.tables[n].rows && c in Head(n) && ColumnSince(n, c) > t
      ensures Get(row, c) == Default(c)
    {
      KeptRows(db, t, Deduped(Below(t, k)), n, row, c);
    }
    KeptFilters(db, t);
  }

  lemma NothingNewerThanHead(db: Db)
    requires HasAllTables(db)
    ensures NothingNewer(db, 8)
  {
    hide Since, ColumnSince;
    forall n: TableId ensures Since(n) <= 8 && forall c | c in Head(n) :: ColumnSince(n, c) <= 8 { HeadSince(n); }
  }

  lemma KeptRows(db: Db, t: int, k: Content, n: TableId, row: Row, c: Column)
    requires HasAllTables(db) && 0 <= t <= 8 && Full(k) && At(8, t, k) == db
    ensures Since(n) > t ==> db.tables[n].rows == []
    ensures row in db.tables[n].rows && c in Head(n) && ColumnSince(n, c) > t ==> Get(row, c) == Default(c)
  {
    hide Columns, Since, ColumnSince, IndicesAt, Elements, Default;
    AtTables(8, t, k);
    HeadSince(n);
    var rows := Left(n, t, k);
    if row in db.tables[n].rows && c in Head(n) && ColumnSince(n, c) > t {
      var i :| 0 <= i < |db.tables[n].rows| && db.tables[n].rows[i] == row;
      assert row == RowOf(n, Head(n), t, rows[i]);
    }
  }

  lemma KeptFilters(db: Db, t: int)
    requires AtHead(db) && 0 <= t < 8 && Returned(t, db) == db
    ensures t <= 1 ==> forall row | row in db.tables[Types].rows :: NotOfKind(2)(row)
    ensures forall row | row in db.tables[EventPaths].rows :: Refers(Ids(db.tables[Events].rows))(row)
  {
    hide Columns, IndicesAt, FilterRows, Refers, NotOfKind, Ids, Elements, RowOf, Latest, Head;
    var k, events, paths := ContentOf(db), db.tables[Events].rows, db.tables[EventPaths].rows;
    AllLatest(db);
    AtTables(8, t, Deduped(Below(t, k)));
    FilterLength(db.tables[Types].rows, NotOfKind(2));
    FilterLength(paths, Refers(Ids(events)));
    TypesAndPathsSince();
    assert |paths| == |Left(EventPaths, t, Deduped(Below(t, k)))| && |db.tables[Types].rows| == |Left(Types, t, Deduped(Below(t, k)))|;
  }

  lemma TypesAndPathsSince()
    ensures Since(Types) == 0 && Since(EventPaths) == 0 && Since(Events) == 0
  {
  }
}
