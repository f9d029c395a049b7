/**
 What a filter expression means, what the generated query selects, and that the two agree.
 */
module FilterMeaning {
  import opened Statuses
  import opened SqlText
  import opened FilterSchema
  import opened FilterQuery

  /******* The meaning of an expression *******/

  /** One neighbour for every mentioned concept. */
  type Choice = map<Ref, Neighbor>

  function BaseRecord(base: NodeRow): Record {
    base.columns["id" := Int(base.id)]["type_id" := Int(base.typeId)]
  }

  function FieldAt(choice: Choice, ref: Ref, field: string): Value {
    if ref in choice then FieldOf(choice[ref], field) else Null
  }

  function Eval(e: Expr, base: NodeRow, choice: Choice, fns: Functions): Value {
    match e
    case Literal(v) => v
    case Attribute(name) =>
      if name == "type" then FieldAt(choice, TYPE_REF, name) else Get(BaseRecord(base), name)
    case NeighborField(n, f) => if ConceptOf(n).Some? then FieldAt(choice, ConceptOf(n).value, f) else Null
    case Apply(op, args) => fns(op, seq(|args|, i requires 0 <= i < |args| => Eval(args[i], base, choice, fns)))
  }

  ghost predicate IsChoice(db: Db, kind: NodeKind, base: NodeRow, refs: set<Ref>, choice: Choice) {
    choice.Keys == refs && forall r | r in refs :: IsNeighbor(db, kind, base, r, choice[r])
  }

  /** The expression is true of a node for some choice of one neighbour per mentioned name. */
  ghost predicate TrueOf(db: Db, kind: NodeKind, e: Expr, fns: Functions, base: NodeRow) {
    exists choice: Choice :: IsChoice(db, kind, base, Refs(e), choice) && Eval(e, base, choice, fns) == Bool(true)
  }

  /******* The generated query *******/

  /** A row of the joined tables: a record per alias. */
  type Env = map<string, Record>

  function EvalSql(s: SqlExpr, env: Env, fns: Functions): Value {
    match s
    case SqlLiteral(v) => v
    case SqlColumn(alias, column) => if alias in env then Get(env[alias], column) else Null
    case SqlApply(op, args) => fns(op, seq(|args|, i requires 0 <= i < |args| => EvalSql(args[i], env, fns)))
  }

  ghost predicate Matches(db: Db, kind: NodeKind, base: NodeRow, j: Join, r: Record) {
    var t := JoinTemplate(kind, j.ref);
    t.Some? && r in Rows(db, t.value) && On(base, t.value, r)
  }

  /** `env` is one row of the tables joined so far, `env0`, joined with `joins` in turn. */
  ghost predicate Joined(db: Db, kind: NodeKind, base: NodeRow, joins: seq<Join>, env0: Env, env: Env)
    decreases |joins|
  {
    if joins == [] then env == env0
    else exists r :: Matches(db, kind, base, joins[0], r) &&
                     Joined(db, kind, base, joins[1..], env0[joins[0].alias := r], env)
  }

  /** The column names a node table has, as filter_query_ast_resolver.cc declares them. */
  function NodeColumns(kind: NodeKind): set<string> {
    {"id", "type_id", "name", "create_time_since_epoch", "last_update_time_since_epoch"} +
    (match kind
     case ArtifactNode => {"uri", "state"}
     case ExecutionNode => {"last_known_state"}
     case ContextNode => {})
  }

  /******* String literals *******/

  /** The columns that a concept brings into the scope of WHERE; the node's own table is BASE_REF. */
  function Offers(kind: NodeKind, ref: Ref): set<string> {
    if ref == BASE_REF then NodeColumns(kind)
    else if JoinTemplate(kind, ref).Some? then Columns(JoinTemplate(kind, ref).value)
    else {}
  }

  /** The tables in FROM that have a column of this name, by alias. */
  function Tables(kind: NodeKind, joins: seq<Join>, column: string): set<string> {
    (if column in NodeColumns(kind) then {Alias(0)} else {}) +
    (set j | j in joins && column in Offers(kind, j.ref) :: j.alias)
  }

  /**
   The analyser prints a string between double quotes. SQLite reads it as a column if a table in FROM
   has one of that name, or as the row id if there is but one table.
   */
  ghost function Heard(d: Dialect, kind: NodeKind, joins: seq<Join>, s: SqlExpr): SqlExpr {
    match s
    case SqlLiteral(v) =>
      if d.MySql? || !v.Text? then s
      else if Tables(kind, joins, ToLower(v.s)) != {} then SqlColumn(Any(Tables(kind, joins, ToLower(v.s))), ToLower(v.s))
      else if joins == [] && ToLower(v.s) in ROW_ID then SqlColumn(Alias(0), "id")
      else s
    case SqlColumn(_, _) => s
    case SqlApply(op, args) => SqlApply(op, seq(|args|, i requires 0 <= i < |args| => Heard(d, kind, joins, args[i])))
  }

  /** SELECT distinct table_0.id FROM .. WHERE ..: the node has a joined row that satisfies WHERE. */
  ghost predicate Selects(db: Db, kind: NodeKind, q: Query, fns: Functions, base: NodeRow) {
    exists env: Env :: Joined(db, kind, base, q.joins, map[Alias(0) := BaseRecord(base)], env) &&
                       EvalSql(Heard(db.dialect, kind, q.joins, q.where_), env, fns) == Bool(true)
  }

  /** Every column that the WHERE clause names is in a table bound in FROM, and no string is ambiguous. */
  ghost predicate Accepted(d: Dialect, kind: NodeKind, joins: seq<Join>, s: SqlExpr)
    decreases s
  {
    match s
    case SqlLiteral(v) =>
      d.Sqlite? && v.Text? ==>
        forall a, b | a in Tables(kind, joins, ToLower(v.s)) && b in Tables(kind, joins, ToLower(v.s)) :: a == b
    case SqlColumn(alias, column) =>
      (alias == Alias(0) && column in NodeColumns(kind)) ||
      exists j :: j in joins && j.alias == alias && JoinTemplate(kind, j.ref).Some? &&
                  column in Columns(JoinTemplate(kind, j.ref).value)
    case SqlApply(_, args) => forall a | a in args :: Accepted(d, kind, joins, a)
  }

  /** The database accepts the query, with or without a test on candidate ids, ordered by a time or by id. */
  ghost predicate QueryAccepted(d: Dialect, kind: NodeKind, q: Query, candidates: bool, byTime: bool) {
    && 1 + |q.joins| <= TableLimit(d)
    && (forall j | j in q.joins :: NameReadable(d, kind, j.ref))
    && Accepted(d, kind, q.joins, q.where_)
    && (candidates ==> Tables(kind, q.joins, "id") == {Alias(0)})
    && (byTime ==> !IdOrderOnly(d))
  }

  predicate IdOrderOnly(d: Dialect) {
    d.MySql? && d.onlyFullGroupBy
  }

  /** The concepts that the resolver lets a query on a node kind mention. */
  predicate Supported(kind: NodeKind, atom: AtomType) {
    match atom
    case ContextAtom => !kind.ContextNode?
    case EventAtom => !kind.ContextNode?
    case ParentContextAtom => kind.ContextNode?
    case ChildContextAtom => kind.ContextNode?
    case _ => true
  }

  /** What filter_query_ast_resolver.cc guarantees about the expressions it hands over. */
  predicate Resolved(kind: NodeKind, e: Expr) {
    match e
    case Literal(_) => true
    case Attribute(name) => name == "type" || name in NodeColumns(kind)
    case NeighborField(n, f) =>
      var c := ConceptOf(n);
      c.Some? && Supported(kind, c.value.atom) && f in DeclaredFields(kind, c.value.atom)
    case Apply(_, args) => forall a | a in args :: Resolved(kind, a)
  }

  /** No field of a parent or child context is named other than its name and type. */
  predicate Expressible(e: Expr) {
    match e
    case Literal(_) => true
    case Attribute(_) => true
    case NeighborField(n, f) =>
      ConceptOf(n).Some? && ConceptOf(n).value.atom in {ParentContextAtom, ChildContextAtom} ==> f in {"name", "type"}
    case Apply(_, args) => forall a | a in args :: Expressible(a)
  }

  /** No two tables in the scope of the filter `refs` share the column. */
  predicate Unambiguous(kind: NodeKind, refs: set<Ref>, column: string) {
    forall r, t | r in refs && t in refs && column in Offers(kind, r) && column in Offers(kind, t) :: r == t
  }

  /** A string that SQLite takes for a string in the scope of `refs`. */
  predicate StaysText(d: Dialect, kind: NodeKind, refs: set<Ref>, text: string) {
    d.Sqlite? ==>
      (forall r | r in refs :: ToLower(text) !in Offers(kind, r)) && (refs == {BASE_REF} ==> ToLower(text) !in ROW_ID)
  }

  predicate Strings(e: Expr, p: string -> bool) {
    match e
    case Literal(v) => v.Text? ==> p(v.s)
    case Attribute(_) => true
    case NeighborField(_, _) => true
    case Apply(_, args) => forall a | a in args :: Strings(a, p)
  }

  /** The tables in scope of a filter. */
  function Scope(e: Expr): set<Ref> {
    Refs(e) + {BASE_REF}
  }

  /** Every string and every property name in the filter is read as it was meant. */
  ghost predicate ReadAsMeant(d: Dialect, kind: NodeKind, e: Expr) {
    && (forall r | r in Refs(e) :: NameKept(d, kind, r))
    && Strings(e, t => StaysText(d, kind, Scope(e), t))
  }

  /******* Joining *******/

  predicate DistinctAliases(joins: seq<Join>, env0: Env) {
    && (forall i, k | 0 <= i < k < |joins| :: joins[i].alias != joins[k].alias)
    && (forall j | j in joins :: j.alias !in env0)
  }

  ghost predicate Binds(db: Db, kind: NodeKind, base: NodeRow, joins: seq<Join>, env0: Env, env: Env) {
    && (forall a | a in env0 :: a in env && env[a] == env0[a])
    && (forall j | j in joins :: j.alias in env && Matches(db, kind, base, j, env[j.alias]))
  }

  lemma {:induction false} JoinedBinds(db: Db, kind: NodeKind, base: NodeRow, joins: seq<Join>, env0: Env, env: Env)
    requires DistinctAliases(joins, env0) && Joined(db, kind, base, joins, env0, env)
    ensures Binds(db, kind, base, joins, env0, env)
    decreases |joins|
  {
    hide Matches;
    if joins != [] {
      var r :| Matches(db, kind, base, joins[0], r) &&
               Joined(db, kind, base, joins[1..], env0[joins[0].alias := r], env);
      var env1 := env0[joins[0].alias := r];
      JoinedBinds(db, kind, base, joins[1..], env1, env);
      assert env1[joins[0].alias] == r;
      assert forall j :: j in joins <==> j == joins[0] || j in joins[1..];
    }
  }

  /** The environment that binds each alias to the row its concept was given. */
  function Bindings(joins: seq<Join>, rows: map<Ref, Record>, env0: Env): Env
    requires forall j | j in joins :: j.ref in rows
    decreases |joins|
  {
    if joins == [] then env0 else Bindings(joins[1..], rows, env0[joins[0].alias := rows[joins[0].ref]])
  }

  lemma {:induction false} BindingsJoined(db: Db, kind: NodeKind, base: NodeRow, joins: seq<Join>, rows: map<Ref, Record>, env0: Env)
    requires DistinctAliases(joins, env0)
    requires forall j | j in joins :: j.ref in rows && Matches(db, kind, base, j, rows[j.ref])
    ensures Joined(db, kind, base, joins, env0, Bindings(joins, rows, env0))
    ensures forall a | a in env0 :: a in Bindings(joins, rows, env0) && Bindings(joins, rows, env0)[a] == env0[a]
    ensures forall j | j in joins ::
              j.alias in Bindings(joins, rows, env0) && Bindings(joins, rows, env0)[j.alias] == rows[j.ref]
    decreases |joins|
  {
    hide Matches;
    if joins != [] {
      var env1 := env0[joins[0].alias := rows[joins[0].ref]];
      BindingsJoined(db, kind, base, joins[1..], rows, env1);
      assert joins == [joins[0]] + joins[1..];
    }
  }

  lemma CompiledAliases(joins: seq<Join>, m: Aliases, index: nat, env0: Env)
    requires GoodAliases(m, index) && Enumerates(joins, m) && env0.Keys == {Alias(0)}
    ensures DistinctAliases(joins, env0)
  {
    hide Alias;
  }

  /******* Evaluation *******/

  /** An environment and a choice that show the same values. */
  ghost predicate Agree(m: Aliases, base: NodeRow, env: Env, choice: Choice, kind: NodeKind) {
    && BASE_REF in m && m[BASE_REF] in env && env[m[BASE_REF]] == BaseRecord(base)
    && forall r | r in choice ::
      && r in m && m[r] in env
      && env[m[r]] == JoinedRow(kind, base, r, choice[r])
  }

  lemma NeighborHasTemplate(db: Db, kind: NodeKind, base: NodeRow, ref: Ref, nb: Neighbor)
    requires IsNeighbor(db, kind, base, ref, nb)
    ensures JoinTemplate(kind, ref).Some?
  {
  }

  lemma ColumnAgrees(db: Db, kind: NodeKind, base: NodeRow, m: Aliases, env: Env, choice: Choice, ref: Ref, field: string)
    requires Agree(m, base, env, choice, kind) && ref in choice && IsNeighbor(db, kind, base, ref, choice[ref])
    requires field in DeclaredFields(kind, ref.atom)
    requires ref.atom in {ParentContextAtom, ChildContextAtom} ==> field in {"name", "type"}
    ensures Get(env[m[ref]], field) == FieldAt(choice, ref, field)
  {
    hide DeclaredFields, JoinedRow, Columns, JoinTemplate;
    NeighborHasTemplate(db, kind, base, ref, choice[ref]);
    OfferedFields(kind, ref, field);
    JoinedFields(db, kind, base, ref, choice[ref], field);
  }

  /** Evaluating the rewritten expression is evaluating the expression. */
  lemma {:induction false} RewriteEvaluates(db: Db, kind: NodeKind, e: Expr, fns: Functions, base: NodeRow, m: Aliases,
                                            env: Env, choice: Choice)
    requires Resolved(kind, e) && Expressible(e) && Refs(e) <= choice.Keys
    requires forall r | r in choice :: IsNeighbor(db, kind, base, r, choice[r])
    requires Agree(m, base, env, choice, kind)
    ensures EvalSql(Rewrite(e, m), env, fns) == Eval(e, base, choice, fns)
  {
    hide IsNeighbor, ConceptOf, FieldAt, Get;
    match e
    case Literal(_) =>
    case Attribute(name) =>
      if name == "type" { ColumnAgrees(db, kind, base, m, env, choice, TYPE_REF, name); }
    case NeighborField(n, f) =>
      ColumnAgrees(db, kind, base, m, env, choice, ConceptOf(n).value, f);
    case Apply(op, args) =>
      forall i | 0 <= i < |args|
        ensures EvalSql(Rewrite(args[i], m), env, fns) == Eval(args[i], base, choice, fns)
      {
        MentionsMember(args, i);
        RewriteEvaluates(db, kind, args[i], fns, base, m, env, choice);
      }
      var sql := Rewrite(e, m).args;
      assert seq(|sql|, i requires 0 <= i < |sql| => EvalSql(sql[i], env, fns))
          == seq(|args|, i requires 0 <= i < |args| => Eval(args[i], base, choice, fns));
  }

  lemma RefsSupported(kind: NodeKind, e: Expr, ref: Ref)
    requires Resolved(kind, e) && ref in Refs(e)
    ensures JoinTemplate(kind, ref).Some? && ref != BASE_REF
  {
    if e.Apply? {
      var i := MentionedBy(e.args, ref);
      RefsSupported(kind, e.args[i], ref);
    }
  }

  lemma MentionedBy(es: seq<Expr>, ref: Ref) returns (i: nat)
    requires ref in Mentions(es)
    ensures i < |es| && ref in Refs(es[i])
  {
    if ref in Refs(es[0]) {
      i := 0;
    } else {
      var k := MentionedBy(es[1..], ref);
      i := k + 1;
    }
  }

  /******* The theorem *******/

  ghost predicate CompiledWith(e: Expr, joins: seq<Join>, m: Aliases, index: nat) {
    GoodAliases(m, index) && m.Keys == Refs(e) + {BASE_REF} && Enumerates(joins, m)
  }

  function Start(base: NodeRow): Env {
    map[Alias(0) := BaseRecord(base)]
  }

  /** Every row of the joined tables comes from a choice of neighbours ... */
  lemma EnvToChoice(db: Db, kind: NodeKind, e: Expr, base: NodeRow, joins: seq<Join>, m: Aliases, index: nat, env: Env)
    returns (choice: Choice)
    requires Resolved(kind, e) && CompiledWith(e, joins, m, index)
    requires forall r | r in Refs(e) :: NameKept(db.dialect, kind, r)
    requires Joined(db, kind, base, joins, Start(base), env)
    ensures IsChoice(db, kind, base, Refs(e), choice) && Agree(m, base, env, choice, kind)
  {
    hide Alias, JoinedRow, IsNeighbor, Refs, Resolved, Rows, On, JoinTemplate, GoodAliases, Enumerates, NameKept;
    BaseBound(e, joins, m, index, base, db, kind, env);
    forall r | r in Refs(e)
      ensures m[r] in env && exists nb :: IsNeighbor(db, kind, base, r, nb) && env[m[r]] == JoinedRow(kind, base, r, nb)
    {
      RefsSupported(kind, e, r);
      ConceptBound(e, joins, m, index, base, db, kind, env, r);
      var nb := JoinedIsNeighbor(db, kind, base, r, env[m[r]]);
    }
    choice := map r | r in Refs(e) ::
      var nb :| IsNeighbor(db, kind, base, r, nb) && env[m[r]] == JoinedRow(kind, base, r, nb); nb;
  }

  /** The node's own row is in every joined row ... */
  lemma BaseBound(e: Expr, joins: seq<Join>, m: Aliases, index: nat, base: NodeRow, db: Db, kind: NodeKind, env: Env)
    requires CompiledWith(e, joins, m, index) && Joined(db, kind, base, joins, Start(base), env)
    ensures m[BASE_REF] in env && env[m[BASE_REF]] == BaseRecord(base)
  {
    hide Matches, Alias;
    CompiledAliases(joins, m, index, Start(base));
    JoinedBinds(db, kind, base, joins, Start(base), env);
  }

  /** ... and so is a matching row for every concept. */
  lemma ConceptBound(e: Expr, joins: seq<Join>, m: Aliases, index: nat, base: NodeRow, db: Db, kind: NodeKind, env: Env, r: Ref)
    requires CompiledWith(e, joins, m, index) && Joined(db, kind, base, joins, Start(base), env)
    requires r in m && r != BASE_REF
    ensures m[r] in env && Matches(db, kind, base, Join(r, m[r]), env[m[r]])
  {
    hide Alias, Matches;
    CompiledAliases(joins, m, index, Start(base));
    JoinedBinds(db, kind, base, joins, Start(base), env);
    var i :| 0 <= i < |joins| && joins[i].ref == r;
    assert joins[i] in joins && joins[i] == Join(r, m[r]);
  }

  /** ... and every choice of neighbours is a row of the joined tables. */
  lemma ChoiceToEnv(db: Db, kind: NodeKind, e: Expr, base: NodeRow, joins: seq<Join>, m: Aliases, index: nat, choice: Choice)
    returns (env: Env)
    requires Resolved(kind, e) && CompiledWith(e, joins, m, index)
    requires forall r | r in Refs(e) :: NameKept(db.dialect, kind, r)
    requires IsChoice(db, kind, base, Refs(e), choice)
    ensures Joined(db, kind, base, joins, Start(base), env) && Agree(m, base, env, choice, kind)
  {
    hide Alias, JoinTemplate, JoinedRow, IsNeighbor, Rows, On, Refs, Resolved, NameKept;
    CompiledAliases(joins, m, index, Start(base));
    var rows := map r | r in choice :: JoinedRow(kind, base, r, choice[r]);
    forall j | j in joins ensures j.ref in rows && Matches(db, kind, base, j, rows[j.ref]) {
      NeighborIsJoined(db, kind, base, j.ref, choice[j.ref]);
    }
    BindingsJoined(db, kind, base, joins, rows, Start(base));
    env := Bindings(joins, rows, Start(base));
    forall r | r in choice ensures r in m && m[r] in env && env[m[r]] == JoinedRow(kind, base, r, choice[r]) {
      RefsSupported(kind, e, r);
      var i :| 0 <= i < |joins| && joins[i].ref == r;
      assert joins[i] in joins;
    }
  }

  /** The tables in scope are those of the mentioned concepts and the node's own. */
  lemma TablesOf(kind: NodeKind, e: Expr, joins: seq<Join>, m: Aliases, index: nat, column: string)
    requires CompiledWith(e, joins, m, index)
    ensures forall a :: a in Tables(kind, joins, column) <==>
                        exists r :: r in m && m[r] == a && column in Offers(kind, r)
    ensures joins == [] <==> Scope(e) == {BASE_REF}
  {
    hide Alias, Offers, Refs;
    forall r | r in m && r != BASE_REF ensures Join(r, m[r]) in joins {
      var i :| 0 <= i < |joins| && joins[i].ref == r;
      assert joins[i] in joins;
    }
    forall j | j in joins ensures j.ref in m && j.ref != BASE_REF && j.alias == m[j.ref] {
    }
    BaseOffers(kind);
    if joins != [] { assert joins[0] in joins; }
  }

  lemma BaseOffers(kind: NodeKind)
    ensures Offers(kind, BASE_REF) == NodeColumns(kind)
  {
  }

  /** The WHERE clause is evaluated as it was generated if and only if every string in it stays text. */
  lemma {:induction false} HeardAsMeant(d: Dialect, kind: NodeKind, whole: Expr, e: Expr, joins: seq<Join>, m: Aliases, index: nat)
    requires CompiledWith(whole, joins, m, index)
    ensures Heard(d, kind, joins, Rewrite(e, m)) == Rewrite(e, m) <==> Strings(e, t => StaysText(d, kind, Scope(whole), t))
    decreases e
  {
    hide CompiledWith, Tables, Offers, Alias, ConceptOf;
    match e
    case Literal(v) =>
      if d.Sqlite? && v.Text? {
        TablesOf(kind, whole, joins, m, index, ToLower(v.s));
        assert m.Keys == Scope(whole) by { ScopeKeys(whole, joins, m, index); }
        if Tables(kind, joins, ToLower(v.s)) != {} {
          var a := Any(Tables(kind, joins, ToLower(v.s)));
          var r :| r in m && m[r] == a && ToLower(v.s) in Offers(kind, r);
          assert !StaysText(d, kind, Scope(whole), v.s);
        } else {
          forall r | r in Scope(whole) ensures ToLower(v.s) !in Offers(kind, r) {
            assert m[r] !in Tables(kind, joins, ToLower(v.s));
          }
        }
      }
    case Attribute(_) =>
    case NeighborField(_, _) =>
    case Apply(op, args) =>
      var sql := Rewrite(e, m).args;
      forall i | 0 <= i < |args|
        ensures Heard(d, kind, joins, sql[i]) == sql[i] <==> Strings(args[i], t => StaysText(d, kind, Scope(whole), t))
      {
        assert args[i] in args;
        HeardAsMeant(d, kind, whole, args[i], joins, m, index);
      }
      HeardArgs(d, kind, joins, op, sql);
      StringsApply(op, args, t => StaysText(d, kind, Scope(whole), t));
  }

  lemma HeardArgs(d: Dialect, kind: NodeKind, joins: seq<Join>, op: string, args: seq<SqlExpr>)
    ensures Heard(d, kind, joins, SqlApply(op, args)) == SqlApply(op, args) <==>
            forall i | 0 <= i < |args| :: Heard(d, kind, joins, args[i]) == args[i]
  {
    var heard := seq(|args|, i requires 0 <= i < |args| => Heard(d, kind, joins, args[i]));
    assert Heard(d, kind, joins, SqlApply(op, args)) == SqlApply(op, heard);
    if heard == args {
      forall i | 0 <= i < |args| ensures Heard(d, kind, joins, args[i]) == args[i] { assert heard[i] == args[i]; }
    }
    if forall i | 0 <= i < |args| :: Heard(d, kind, joins, args[i]) == args[i] { assert heard == args; }
  }

  lemma StringsApply(op: string, args: seq<Expr>, p: string -> bool)
    ensures Strings(Apply(op, args), p) <==> forall i | 0 <= i < |args| :: Strings(args[i], p)
  {
    assert forall i | 0 <= i < |args| :: args[i] in args;
  }

  /** In every database the concept is joined to exactly its rows. */
  ghost predicate JoinedRight(d: Dialect, kind: NodeKind, r: Ref) {
    JoinTemplate(kind, r).Some? && forall db: Db, base: NodeRow | db.dialect == d :: JoinsExactly(db, kind, base, r)
  }

  lemma JoinedRightExactly(d: Dialect, kind: NodeKind, r: Ref)
    requires JoinTemplate(kind, r).Some?
    ensures JoinedRight(d, kind, r) <==> NameKept(d, kind, r)
  {
    hide NameKept, Rows, On, JoinedRow, IsNeighbor, JoinTemplate;
    if IsProperty(r) {
      PropertyJoinExact(d, kind, r);
    } else {
      NoNameToKeep(d, kind, r);
      forall db: Db, base: NodeRow | db.dialect == d ensures JoinsExactly(db, kind, base, r) {
        forall nb | IsNeighbor(db, kind, base, r, nb)
          ensures var t := JoinTemplate(kind, r).value;
                  JoinedRow(kind, base, r, nb) in Rows(db, t) && On(base, t, JoinedRow(kind, base, r, nb))
        {
          NeighborIsJoined(db, kind, base, r, nb);
        }
        forall row | row in Rows(db, JoinTemplate(kind, r).value) && On(base, JoinTemplate(kind, r).value, row)
          ensures exists nb :: IsNeighbor(db, kind, base, r, nb) && row == JoinedRow(kind, base, r, nb)
        {
          var nb := JoinedIsNeighbor(db, kind, base, r, row);
        }
      }
    }
  }

  lemma NoNameToKeep(d: Dialect, kind: NodeKind, r: Ref)
    requires !IsProperty(r)
    ensures NameKept(d, kind, r)
  {
  }

  /**
   The database reads the query as it was meant, joins and WHERE clause, if and only if it reads every
   property name and every string in the filter as itself.
   */
  lemma ReadExactly(d: Dialect, kind: NodeKind, e: Expr, q: Query)
    requires Resolved(kind, e) && Compiled(e, q)
    ensures (forall r | r in Refs(e) :: JoinedRight(d, kind, r)) && Heard(d, kind, q.joins, q.where_) == q.where_ <==>
            ReadAsMeant(d, kind, e)
  {
    hide Alias, Resolved, Refs, Rewrite, GoodAliases, Enumerates, NameKept, Heard, Strings, JoinedRight, JoinTemplate;
    var m, index :| GoodAliases(m, index) && m.Keys == Refs(e) + {BASE_REF} &&
                    Enumerates(q.joins, m) && q.where_ == Rewrite(e, m);
    HeardAsMeant(d, kind, e, e, q.joins, m, index);
    forall r | r in Refs(e) ensures JoinedRight(d, kind, r) <==> NameKept(d, kind, r) {
      RefsSupported(kind, e, r);
      JoinedRightExactly(d, kind, r);
    }
  }

  lemma ScopeKeys(e: Expr, joins: seq<Join>, m: Aliases, index: nat)
    requires CompiledWith(e, joins, m, index)
    ensures m.Keys == Scope(e)
  {
  }

  /**
   The generated query selects exactly the nodes of which the expression is true, whatever the
   order of the joins and however often a concept is mentioned.
   */
  lemma FilterCorrect(db: Db, kind: NodeKind, e: Expr, q: Query, fns: Functions, base: NodeRow)
    requires Resolved(kind, e) && Expressible(e) && Compiled(e, q) && ReadAsMeant(db.dialect, kind, e)
    ensures Selects(db, kind, q, fns, base) <==> TrueOf(db, kind, e, fns, base)
  {
    hide Alias, Resolved, Expressible, Refs, Joined, Eval, EvalSql, Rewrite, IsNeighbor, Agree, GoodAliases, Enumerates, NameKept,
      Heard, Strings;
    var m, index :| GoodAliases(m, index) && m.Keys == Refs(e) + {BASE_REF} &&
                    Enumerates(q.joins, m) && q.where_ == Rewrite(e, m);
    HeardAsMeant(db.dialect, kind, e, e, q.joins, m, index);
    if Selects(db, kind, q, fns, base) {
      var env :| Joined(db, kind, base, q.joins, Start(base), env) && EvalSql(q.where_, env, fns) == Bool(true);
      var choice := EnvToChoice(db, kind, e, base, q.joins, m, index, env);
      RewriteEvaluates(db, kind, e, fns, base, m, env, choice);
    }
    if TrueOf(db, kind, e, fns, base) {
      var choice :| IsChoice(db, kind, base, Refs(e), choice) && Eval(e, base, choice, fns) == Bool(true);
      var env := ChoiceToEnv(db, kind, e, base, q.joins, m, index, choice);
      RewriteEvaluates(db, kind, e, fns, base, m, env, choice);
      assert Joined(db, kind, base, q.joins, map[Alias(0) := BaseRecord(base)], env);
    }
  }
}
