/**
 The version probe, the upgrade and downgrade loops and the initialisation of
 query_config_executor.cc, for any configuration of migration scripts.
 */
module Migration {
  import opened Statuses
  import opened Transactions
  import opened SchemaSql

  datatype Scheme = Scheme(up: seq<Stmt>, down: seq<Stmt>)

  /** `create` creates the tables and `index` the secondary indices; `required` is what the checks select. */
  datatype Config = Config(lib: int, schemes: map<int, Scheme>, create: seq<Stmt>, index: seq<Stmt>, required: map<TableId, seq<Column>>)

  /******* Specification *******/

  /** The query over the eight tables of release 0.13.2. */
  predicate IsOldRelease(db: Db) {
    && {Artifacts, Events, Executions, Types, ArtifactProperties, EventPaths, ExecutionProperties, TypeProperties} <= db.tables.Keys
    && IsArtifactType in db.tables[Types].columns
  }

  function SchemaVersion(db: Db): Result<int> {
    if db.env.Some? then
      if db.env.value == [] then Failure(Aborted)
      else if |db.env.value| > 1 then Failure(DataLoss)
      else Success(db.env.value[0])
    else if IsOldRelease(db) then Success(0)
    else Failure(NotFound)
  }

  /** One turn of the upgrade loop. */
  function UpStep(c: Config, db: Db, to: int): Outcome<Db> {
    if to !in c.schemes then Outcome(Internal, db) else RunAll(c.schemes[to].up + [UpdateVersion(to)], db)
  }

  /** One turn of the downgrade loop; version 0 has nowhere to record a version. */
  function DownStep(c: Config, db: Db, to: int): Outcome<Db> {
    if to !in c.schemes then Outcome(Internal, db)
    else RunAll(c.schemes[to].down + (if to > 0 then [UpdateVersion(to)] else []), db)
  }

  function UpgradeFrom(c: Config, db: Db, v: int): Outcome<Db>
    decreases c.lib - v
  {
    if v >= c.lib then Outcome(Ok, db) else
    var r := UpStep(c, db, v + 1);
    if r.status != Ok then r else UpgradeFrom(c, r.state, v + 1)
  }

  function DowngradeFrom(c: Config, db: Db, v: int, to: int): Outcome<Db>
    decreases v - to
  {
    if v <= to then Outcome(Ok, db) else
    var r := DownStep(c, db, v - 1);
    if r.status != Ok then r else DowngradeFrom(c, r.state, v - 1, to)
  }

  function Upgraded(c: Config, db: Db, enable: bool): Outcome<Db> {
    var version := SchemaVersion(db);
    if version.Failure? && version.error != NotFound then Outcome(version.error, db) else
    var v := if version.Failure? then c.lib else version.value;
    if v == c.lib then Outcome(Ok, db)
    else if v > c.lib || !enable then Outcome(FailedPrecondition, db)
    else UpgradeFrom(c, db, v)
  }

  function Downgraded(c: Config, db: Db, to: int): Outcome<Db> {
    var version := SchemaVersion(db);
    if to < 0 || to > c.lib then Outcome(InvalidArgument, db)
    else if version.Failure? then Outcome(if version.error == NotFound then InvalidArgument else version.error, db)
    else if version.value > c.lib then Outcome(FailedPrecondition, db)
    else DowngradeFrom(c, db, version.value, to)
  }

  /** The table is there with every column the library reads. */
  predicate Complete(c: Config, db: Db, t: TableId) {
    t in c.required && t in db.tables && forall k | k in c.required[t] :: k in db.tables[t].columns
  }

  predicate AllComplete(c: Config, db: Db) {
    db.env.Some? && forall t | t in c.required :: Complete(c, db, t)
  }

  predicate NoneComplete(c: Config, db: Db) {
    db.env.None? && forall t | t in c.required :: !Complete(c, db, t)
  }

  /** The secondary indices; one that exists already is no error. */
  function Indexed(ss: seq<Stmt>, db: Db): Outcome<Db>
    decreases |ss|
  {
    if ss == [] then Outcome(Ok, db) else
    var r := Effect(ss[0], db);
    if r == Failure(AlreadyExists) then Indexed(ss[1..], db)
    else if r.Failure? then Outcome(r.error, db)
    else Indexed(ss[1..], r.value)
  }

  function Initialized(c: Config, db: Db): Outcome<Db> {
    var created := RunAll(c.create, db);
    if created.status != Ok then created else
    var indexed := Indexed(c.index, created.state);
    if indexed.status != Ok then indexed else
    var d := indexed.state;
    var inserted := Effect(InsertVersion(c.lib), d);
    if inserted.Success? then Outcome(Ok, inserted.value) else
    var version := SchemaVersion(d);
    if version.Failure? then Outcome(version.error, d)
    else Outcome(if version.value == c.lib then Ok else DataLoss, d)
  }

  /** InitMetadataSourceIfNotExists; `query` is the schema version the executor was made for, if not head. */
  function Ready(c: Config, db: Db, query: Option<int>, enable: bool): Outcome<Db> {
    if query.Some? then
      var version := SchemaVersion(db);
      if version.Failure? then Outcome(if version.error == NotFound then FailedPrecondition else version.error, db)
      else Outcome(if version.value == query.value then Ok else FailedPrecondition, db)
    else
      var upgraded := Upgraded(c, db, enable);
      if upgraded.status != Ok then upgraded
      else if AllComplete(c, upgraded.state) then Outcome(Ok, upgraded.state)
      else if !NoneComplete(c, upgraded.state) then Outcome(Aborted, upgraded.state)
      else Initialized(c, upgraded.state)
  }

  /******* The executor *******/

  class QueryConfigExecutor {
    const config: Config
    var db: Db

    constructor (c: Config, d: Db)
      ensures config == c && db == d
    {
      config, db := c, d;
    }

    method ExecuteQuery(s: Stmt) returns (status: Status)
      modifies this
      ensures Outcome(status, db) == RunAll([s], old(db))
    {
      var r := Effect(s, db);
      if r.Failure? {
        return r.error;
      }
      db := r.value;
      return Ok;
    }

    /** The inner loop over a scheme's queries. */
    method ExecuteAll(ss: seq<Stmt>) returns (status: Status)
      modifies this
      ensures Outcome(status, db) == RunAll(ss, old(db))
    {
      hide Effect;
      assert ss[0..] == ss;
      for i := 0 to |ss|
        invariant RunAll(ss[i..], db) == RunAll(ss, old(db))
      {
        assert ss[i..][1..] == ss[i + 1..];
        status := ExecuteQuery(ss[i]);
        if status != Ok {
          return;
        }
      }
      return Ok;
    }

    method GetSchemaVersion() returns (r: Result<int>)
      ensures r == SchemaVersion(db)
    {
      if db.env.Some? {
        if |db.env.value| == 0 {
          return Failure(Aborted);
        } else if |db.env.value| > 1 {
          return Failure(DataLoss);
        }
        return Success(db.env.value[0]);
      }
      if IsOldRelease(db) {
        return Success(0);
      }
      return Failure(NotFound);
    }

    method UpgradeIfOutOfDate(enable: bool) returns (status: Status)
      modifies this
      ensures Outcome(status, db) == Upgraded(config, old(db), enable)
    {
      var version := GetSchemaVersion();
      var v := config.lib;
      if version.Success? {
        v := version.value;
      } else if version.error != NotFound {
        return version.error;
      }
      if v == config.lib {
        return Ok;
      }
      if v > config.lib {
        return FailedPrecondition;
      }
      if !enable {
        return FailedPrecondition;
      }
      hide Effect, RunAll, SchemaVersion;
      while v < config.lib
        invariant UpgradeFrom(config, db, v) == Upgraded(config, old(db), enable)
        invariant v <= config.lib
        decreases config.lib - v
      {
        var to := v + 1;
        if to !in config.schemes {
          return Internal;
        }
        RunAllConcat(config.schemes[to].up, [UpdateVersion(to)], db);
        status := ExecuteAll(config.schemes[to].up);
        if status != Ok {
          return;
        }
        status := ExecuteQuery(UpdateVersion(to));
        if status != Ok {
          return;
        }
        v := to;
      }
      return Ok;
    }

    method DowngradeMetadataSource(to: int) returns (status: Status)
      modifies this
      ensures Outcome(status, db) == Downgraded(config, old(db), to)
    {
      if to < 0 || to > config.lib {
        return InvalidArgument;
      }
      var version := GetSchemaVersion();
      if version.Failure? {
        return if version.error == NotFound then InvalidArgument else version.error;
      }
      var v := version.value;
      if v > config.lib {
        return FailedPrecondition;
      }
      hide Effect, RunAll, SchemaVersion;
      while v > to
        invariant DowngradeFrom(config, db, v, to) == Downgraded(config, old(db), to)
        decreases v - to
      {
        var next := v - 1;
        if next !in config.schemes {
          return Internal;
        }
        var down := config.schemes[next].down;
        RunAllConcat(down, if next > 0 then [UpdateVersion(next)] else [], db);
        assert down + [] == down;
        status := ExecuteAll(down);
        if status != Ok {
          return;
        }
        if next > 0 {
          status := ExecuteQuery(UpdateVersion(next));
          if status != Ok {
            return;
          }
        }
        v := next;
      }
      return Ok;
    }

    method InitMetadataSource() returns (status: Status)
      modifies this
      ensures Outcome(status, db) == Initialized(config, old(db))
    {
      hide Effect, SchemaVersion;
      status := ExecuteAll(config.create);
      if status != Ok {
        return;
      }
      ghost var created := db;
      assert config.index[0..] == config.index;
      for i := 0 to |config.index|
        invariant Indexed(config.index[i..], db) == Indexed(config.index, created)
      {
        assert config.index[i..][1..] == config.index[i + 1..];
        status := ExecuteQuery(config.index[i]);
        if status == AlreadyExists {
          continue;
        }
        if status != Ok {
          return;
        }
      }
      status := ExecuteQuery(InsertVersion(config.lib));
      if status != Ok {
        var version := GetSchemaVersion();
        if version.Failure? {
          return version.error;
        }
        return if version.value == config.lib then Ok else DataLoss;
      }
    }

    method InitIfNotExists(query: Option<int>, enable: bool) returns (status: Status)
      modifies this
      ensures Outcome(status, db) == Ready(config, old(db), query, enable)
    {
      hide Upgraded, Initialized, Complete;
      if query.Some? {
        var version := GetSchemaVersion();
        if version.Failure? {
          return if version.error == NotFound then FailedPrecondition else version.error;
        }
        return if version.value == query.value then Ok else FailedPrecondition;
      }
      status := UpgradeIfOutOfDate(enable);
      if status != Ok {
        return;
      }
      var passed := (set t | t in config.required && Complete(config, db, t));
      var failed := config.required.Keys - passed;
      if failed == {} && db.env.Some? {
        forall t | t in config.required ensures Complete(config, db, t) { assert t !in failed; }
        return Ok;
      }
      if passed != {} || db.env.Some? {
        if passed != {} {
          var t :| t in passed;
          assert Complete(config, db, t);
        }
        if failed != {} {
          var t :| t in failed;
          assert t !in passed;
        }
        return Aborted;
      }
      forall t | t in config.required ensures !Complete(config, db, t) { assert t !in passed; }
      status := InitMetadataSource();
    }
  }
}
