/** What the migration loops promise for any configuration of scripts. */
module MigrationLaws {
  import opened Statuses
  import opened Transactions
  import opened SchemaSql
  import opened Migration

  /******* Recorded versions *******/

  predicate TouchesEnv(s: Stmt) {
    s.CreateEnv? || s.DropEnv? || s.InsertVersion? || s.UpdateVersion?
  }

  predicate LeavesEnv(ss: seq<Stmt>) {
    forall s | s in ss :: !TouchesEnv(s)
  }

  /** Only the step between versions 0 and 1 creates and drops MLMDEnv. */
  predicate Standard(c: Config) {
    forall v | v in c.schemes ::
      && (if v == 1 then c.schemes[v].up == [CreateEnv, InsertVersion(0)] else LeavesEnv(c.schemes[v].up))
      && (if v == 0 then c.schemes[v].down == [DropEnv] else LeavesEnv(c.schemes[v].down))
  }

  /** What MLMDEnv holds at version `v`. */
  predicate Recorded(db: Db, v: int) {
    db.env == if v == 0 then None else Some([v])
  }

  lemma EnvLeft(ss: seq<Stmt>, db: Db)
    requires LeavesEnv(ss)
    ensures RunAll(ss, db).state.env == db.env
    decreases |ss|
  {
    if ss != [] {
      assert ss[0] in ss;
      var r := Effect(ss[0], db);
      assert r.Success? ==> r.value.env == db.env;
      if r.Success? { EnvLeft(ss[1..], r.value); }
    }
  }

  lemma UpStepRecords(c: Config, db: Db, to: int)
    requires Standard(c) && to >= 1 && Recorded(db, to - 1) && UpStep(c, db, to).status == Ok
    ensures Recorded(UpStep(c, db, to).state, to)
  {
    var up := c.schemes[to].up;
    RunAllConcat(up, [UpdateVersion(to)], db);
    if to == 1 {
      RunAllConcat([CreateEnv], [InsertVersion(0)], db);
      RunOne(CreateEnv, db);
      RunOne(InsertVersion(0), Effect(CreateEnv, db).value);
      assert [CreateEnv] + [InsertVersion(0)] == up;
    } else {
      EnvLeft(up, db);
    }
    RunOne(UpdateVersion(to), RunAll(up, db).state);
  }

  lemma DownStepRecords(c: Config, db: Db, to: int)
    requires Standard(c) && to >= 0 && Recorded(db, to + 1) && DownStep(c, db, to).status == Ok
    ensures Recorded(DownStep(c, db, to).state, to)
  {
    var down := c.schemes[to].down;
    if to == 0 {
      assert down + [] == [DropEnv];
      RunOne(DropEnv, db);
    } else {
      RunAllConcat(down, [UpdateVersion(to)], db);
      EnvLeft(down, db);
      RunOne(UpdateVersion(to), RunAll(down, db).state);
    }
  }

  lemma UpgradeFromRecords(c: Config, db: Db, v: int)
    requires Standard(c) && 0 <= v <= c.lib && Recorded(db, v) && UpgradeFrom(c, db, v).status == Ok
    ensures Recorded(UpgradeFrom(c, db, v).state, c.lib)
    decreases c.lib - v
  {
    hide UpStep;
    if v < c.lib {
      UpStepRecords(c, db, v + 1);
      UpgradeFromRecords(c, UpStep(c, db, v + 1).state, v + 1);
    }
  }

  lemma DowngradeFromRecords(c: Config, db: Db, v: int, to: int)
    requires Standard(c) && v >= 0 && to >= 0 && Recorded(db, v) && DowngradeFrom(c, db, v, to).status == Ok
    ensures Recorded(DowngradeFrom(c, db, v, to).state, if v <= to then v else to)
    decreases v - to
  {
    hide DownStep;
    if v > to {
      DownStepRecords(c, db, v - 1);
      DowngradeFromRecords(c, DownStep(c, db, v - 1).state, v - 1, to);
    }
  }

  /** A database that can be migrated: its version is known, not negative, and recorded as it should be. */
  predicate Known(db: Db) {
    SchemaVersion(db).Success? && SchemaVersion(db).value >= 0 && Recorded(db, SchemaVersion(db).value)
  }

  /** A successful downgrade ends at the lower of the database's version and the target. */
  lemma DowngradeEnds(c: Config, db: Db, to: int)
    requires Standard(c) && Known(db) && Downgraded(c, db, to).status == Ok
    ensures var v := SchemaVersion(db).value;
            && 0 <= to <= c.lib && v <= c.lib
            && Recorded(Downgraded(c, db, to).state, if v <= to then v else to)
  {
    DowngradeFromRecords(c, db, SchemaVersion(db).value, to);
  }

  /** A successful upgrade ends at the library's version; what cannot be upgraded is left as it was. */
  lemma UpgradeEnds(c: Config, db: Db, enable: bool)
    requires Standard(c) && c.lib > 0 && Known(db)
    ensures var v, r := SchemaVersion(db).value, Upgraded(c, db, enable);
            && (r.status == Ok ==> Recorded(r.state, c.lib))
            && (v == c.lib ==> r == Outcome(Ok, db))
            && (v > c.lib || (v < c.lib && !enable) ==> r == Outcome(FailedPrecondition, db))
  {
    var v := SchemaVersion(db).value;
    if v < c.lib && enable && Upgraded(c, db, enable).status == Ok { UpgradeFromRecords(c, db, v); }
  }

  /******* Round trips *******/

  /** In the databases that `at` admits at each version, the step up to k + 1 undoes the step down to k. */
  ghost predicate Undoes(c: Config, at: (int, Db) -> bool) {
    forall k: int, db: Db | 0 <= k < c.lib && at(k + 1, db) ::
      var down := DownStep(c, db, k);
      down.status == Ok && at(k, down.state) && UpStep(c, down.state, k + 1) == Outcome(Ok, db)
  }

  lemma DownAndUp(c: Config, at: (int, Db) -> bool, db: Db, v: int, to: int)
    requires Undoes(c, at) && 0 <= to <= v <= c.lib && at(v, db)
    ensures var down := DowngradeFrom(c, db, v, to);
            && down.status == Ok && at(to, down.state)
            && UpgradeFrom(c, down.state, to) == UpgradeFrom(c, db, v)
    decreases v - to
  {
    hide UpStep, DownStep;
    if v > to {
      var down := DownStep(c, db, v - 1);
      assert at((v - 1) + 1, db);
      DownAndUp(c, at, down.state, v - 1, to);
    }
  }

  /** Then downgrading to any version and upgrading again is the identity. */
  lemma RoundTripIdentity(c: Config, at: (int, Db) -> bool, db: Db, to: int)
    requires Undoes(c, at) && 0 <= to <= c.lib && at(c.lib, db)
    requires forall k: int, d: Db | 0 <= k <= c.lib && at(k, d) :: SchemaVersion(d) == Success(k)
    ensures var down := Downgraded(c, db, to);
            down.status == Ok && Upgraded(c, down.state, true) == Outcome(Ok, db)
  {
    hide SchemaVersion;
    DownAndUp(c, at, db, c.lib, to);
  }
}
