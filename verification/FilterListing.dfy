/** Filter queries in listings: that ListQuery.Filter records them faithfully, and filters that go wrong. */
module FilterListing {
  import opened Statuses
  import opened SqlText
  import opened FilterSchema
  import opened FilterQuery
  import opened FilterMeaning
  import opened FilterPasting
  import L = ListQuery

  /** What a listing keeps of a filter: which nodes its operands select, and what the database says to it. */
  ghost predicate Records(db: Db, kind: NodeKind, e: Expr, fns: Functions, f: L.Filter) {
    && (forall base | base in db.Nodes(kind) ::
          && (base.id in f.earlier <==> EarlierTrueOf(db, kind, e, fns, base))
          && (base.id in f.last <==> LastTrueOf(db, kind, e, fns, base)))
    && f.accepted == Acceptable(db.dialect, kind, e) && f.joinsId == JoinsId(e) && f.idOrderOnly == IdOrderOnly(db.dialect)
  }

  function Rest(candidates: Option<seq<int>>, threshold: seq<L.Condition>): seq<L.Condition> {
    (if candidates.Some? then [L.IdIn(candidates.value)] else []) + threshold
  }

  /******* The appended conditions *******/

  function ColumnName(f: L.Field): string {
    match f
    case CreateTime => "create_time_since_epoch"
    case LastUpdateTime => "last_update_time_since_epoch"
    case Id => "id"
    case Unspecified => ""
  }

  function Operator(c: L.Comparison): string {
    match c
    case Less => "<"
    case LessOrEqual => "<="
    case Greater => ">"
    case GreaterOrEqual => ">="
  }

  function Ints(ids: seq<int>): (vs: seq<Value>)
    ensures |vs| == |ids| && forall i | 0 <= i < |ids| :: vs[i] == Int(ids[i])
  {
    seq(|ids|, i requires 0 <= i < |ids| => Int(ids[i]))
  }

  function Literals(vs: seq<Value>): (es: seq<SqlExpr>)
    ensures |es| == |vs| && forall i | 0 <= i < |vs| :: es[i] == SqlLiteral(vs[i])
  {
    seq(|vs|, i requires 0 <= i < |vs| => SqlLiteral(vs[i]))
  }

  /** A condition as it is appended to the query. */
  function ToSql(c: L.Condition): SqlExpr {
    match c
    case Compare(f, op, v) => SqlApply(Operator(op), [SqlColumn(Alias(0), ColumnName(f)), SqlLiteral(Int(v))])
    case IdNotIn(ids) => SqlApply("NOT IN", [SqlColumn(Alias(0), "id")] + Literals(Ints(ids)))
    case IdIn(ids) => SqlApply("IN", [SqlColumn(Alias(0), "id")] + Literals(Ints(ids)))
  }

  /** The conditions that follow the filter, joined by AND. */
  function AllToSql(cs: seq<L.Condition>): SqlExpr {
    SqlApply("AND", seq(|cs|, i requires 0 <= i < |cs| => ToSql(cs[i])))
  }

  predicate Compares(op: L.Comparison, a: int, b: int) {
    match op
    case Less => a < b
    case LessOrEqual => a <= b
    case Greater => a > b
    case GreaterOrEqual => a >= b
  }

  /** Membership, or its negation. */
  predicate IsMember(x: int, ids: seq<int>, among: bool) {
    (x in ids) == among
  }

  /** AND, OR, comparison and membership are those of SQL. */
  ghost predicate Standard(fns: Functions) {
    && Logical(fns)
    && (forall op, a, b :: fns(Operator(op), [Int(a), Int(b)]) == Bool(Compares(op, a, b)))
    && (forall x, ids: seq<int> :: fns("IN", [Int(x)] + Ints(ids)) == Bool(IsMember(x, ids, true)))
    && (forall x, ids: seq<int> :: fns("NOT IN", [Int(x)] + Ints(ids)) == Bool(IsMember(x, ids, false)))
  }

  /** The row that a listing has for the node. */
  predicate Stands(base: NodeRow, r: L.Row) {
    && r.id == base.id && Get(base.columns, "create_time_since_epoch") == Int(r.created)
    && Get(base.columns, "last_update_time_since_epoch") == Int(r.updated)
  }

  lemma ColumnValue(base: NodeRow, r: L.Row, f: L.Field, env: Env, fns: Functions)
    requires Stands(base, r) && f != L.Unspecified && Alias(0) in env && env[Alias(0)] == BaseRecord(base)
    ensures EvalSql(SqlColumn(Alias(0), ColumnName(f)), env, fns) == Int(L.Column(f, r))
  {
    hide Alias;
    assert "create_time_since_epoch"[0] == 'c' && "last_update_time_since_epoch"[0] == 'l' && "id"[0] == 'i' && "type_id"[0] == 't';
  }

  lemma MembersValue(op: string, ids: seq<int>, base: NodeRow, env: Env, fns: Functions)
    requires Alias(0) in env && env[Alias(0)] == BaseRecord(base)
    ensures EvalSql(SqlApply(op, [SqlColumn(Alias(0), "id")] + Literals(Ints(ids))), env, fns) == fns(op, [Int(base.id)] + Ints(ids))
  {
    hide Alias;
    var args := [SqlColumn(Alias(0), "id")] + Literals(Ints(ids));
    assert "id"[0] != "type_id"[0];
    assert EvalSql(args[0], env, fns) == Int(base.id);
    assert seq(|args|, i requires 0 <= i < |args| => EvalSql(args[i], env, fns)) == [Int(base.id)] + Ints(ids);
  }

  lemma CompareValue(f: L.Field, op: L.Comparison, v: int, base: NodeRow, r: L.Row, env: Env, fns: Functions)
    requires Stands(base, r) && f != L.Unspecified && Alias(0) in env && env[Alias(0)] == BaseRecord(base)
    ensures EvalSql(ToSql(L.Compare(f, op, v)), env, fns) == fns(Operator(op), [Int(L.Column(f, r)), Int(v)])
  {
    hide Alias, ColumnName, L.Column, Operator;
    ColumnValue(base, r, f, env, fns);
    var args := [SqlColumn(Alias(0), ColumnName(f)), SqlLiteral(Int(v))];
    assert seq(|args|, i requires 0 <= i < |args| => EvalSql(args[i], env, fns)) == [Int(L.Column(f, r)), Int(v)];
  }

  lemma ConditionValue(c: L.Condition, base: NodeRow, r: L.Row, env: Env, fns: Functions)
    requires Standard(fns) && Stands(base, r) && Alias(0) in env && env[Alias(0)] == BaseRecord(base)
    requires c.Compare? ==> c.column != L.Unspecified
    ensures EvalSql(ToSql(c), env, fns) == Bool(L.Holds(c, r))
  {
    hide Alias, EvalSql, Logical, BaseRecord;
    match c {
      case Compare(f, op, v) => CompareValue(f, op, v, base, r, env, fns);
      case IdNotIn(ids) => MembersValue("NOT IN", ids, base, env, fns);
      case IdIn(ids) => MembersValue("IN", ids, base, env, fns);
    }
  }

  /** The appended text is true of a node exactly when its row meets all conditions. */
  lemma ConditionsTrue(cs: seq<L.Condition>, base: NodeRow, r: L.Row, env: Env, fns: Functions)
    requires Standard(fns) && Stands(base, r) && Alias(0) in env && env[Alias(0)] == BaseRecord(base)
    requires forall c | c in cs :: c.Compare? ==> c.column != L.Unspecified
    ensures EvalSql(AllToSql(cs), env, fns) == Bool(true) <==> L.AllHold(cs, r)
  {
    hide Alias, ToSql, L.Holds;
    var args := seq(|cs|, i requires 0 <= i < |cs| => ToSql(cs[i]));
    var vs := seq(|args|, i requires 0 <= i < |args| => EvalSql(args[i], env, fns));
    assert EvalSql(AllToSql(cs), env, fns) == fns("AND", vs);
    forall i | 0 <= i < |cs| ensures vs[i] == Bool(L.Holds(cs[i], r)) {
      assert cs[i] in cs;
      ConditionValue(cs[i], base, r, env, fns);
    }
    if L.AllHold(cs, r) {
      forall v | v in vs ensures v == Bool(true) {
        var i :| 0 <= i < |vs| && vs[i] == v;
        assert cs[i] in cs;
      }
    } else {
      var c :| c in cs && !L.Holds(c, r);
      var i :| 0 <= i < |cs| && cs[i] == c;
      assert vs[i] in vs;
    }
  }

  /** It has no strings, so nothing in it is read otherwise. */
  lemma ConditionsHeard(d: Dialect, kind: NodeKind, joins: seq<Join>, cs: seq<L.Condition>)
    ensures Heard(d, kind, joins, AllToSql(cs)) == AllToSql(cs)
  {
    hide Tables, Alias, Operator, ColumnName;
    forall i | 0 <= i < |cs| ensures Heard(d, kind, joins, ToSql(cs[i])) == ToSql(cs[i]) {
      var s := ToSql(cs[i]);
      HeardArgs(d, kind, joins, s.op, s.args);
    }
    HeardArgs(d, kind, joins, "AND", seq(|cs|, i requires 0 <= i < |cs| => ToSql(cs[i])));
  }

  lemma ThresholdColumns(o: L.Options)
    requires L.ThresholdClause(o).Success?
    ensures forall c | c in L.ThresholdClause(o).value :: c.Compare? ==> c.column != L.Unspecified
  {
  }

  lemma ConditionsAre(
    db: Db, kind: NodeKind, e: Expr, q: Query, fns: Functions, cs: seq<L.Condition>, base: NodeRow, r: L.Row)
    requires Compiled(e, q) && Standard(fns) && Stands(base, r)
    requires forall c | c in cs :: c.Compare? ==> c.column != L.Unspecified
    ensures RestIs(q.joins, AllToSql(cs), fns, db, kind, base, L.AllHold(cs, r))
  {
    hide Alias, Joined, EvalSql, Standard, L.AllHold, Stands, BaseRecord, Rewrite, Refs, GoodAliases, Enumerates;
    var m, index :| GoodAliases(m, index) && m.Keys == Refs(e) + {BASE_REF} &&
                    Enumerates(q.joins, m) && q.where_ == Rewrite(e, m);
    forall env: Env | Joined(db, kind, base, q.joins, FilterMeaning.Start(base), env)
      ensures EvalSql(AllToSql(cs), env, fns) == Bool(true) <==> L.AllHold(cs, r)
    {
      BaseBound(e, q.joins, m, index, base, db, kind, env);
      BaseAlias(e, q.joins, m, index);
      ConditionsTrue(cs, base, r, env, fns);
    }
  }

  /** The clause that listings are computed with selects a node exactly when the query sent to the database does. */
  lemma ClauseIsPasted(db: Db, kind: NodeKind, e: Expr, q: Query, fns: Functions, f: L.Filter,
                       candidates: Option<seq<int>>, o: L.Options, base: NodeRow, r: L.Row)
    requires Resolved(kind, e) && Expressible(e) && Compiled(e, q) && ReadAsMeant(db.dialect, kind, e)
    requires Records(db, kind, e, fns, f) && base in db.Nodes(kind) && Stands(base, r)
    requires Standard(fns) && L.ThresholdClause(o).Success?
    ensures var threshold := L.ThresholdClause(o).value;
            L.Passes(L.WhereClause(Some(f), candidates, threshold), r) <==>
            Selects(db, kind, Query(q.joins, Paste(q.where_, AllToSql(Rest(candidates, threshold)))), fns, base)
  {
    hide Selects, EarlierTrueOf, LastTrueOf, Resolved, Expressible, Compiled, ReadAsMeant, Acceptable, JoinsId, RestIs, Logical, Heard,
      Paste, L.AllHold, L.ThresholdClause, AllToSql;
    var threshold := L.ThresholdClause(o).value;
    var all := Rest(candidates, threshold);
    ThresholdColumns(o);
    ConditionsAre(db, kind, e, q, fns, all, base, r);
    ConditionsHeard(db.dialect, kind, q.joins, all);
    PastedFilter(db, kind, e, q, AllToSql(all), L.AllHold(all, r), fns, base);
    L.AllHoldConcat([L.IdIn(f.last)], all, r);
    L.AllHoldOne(L.IdIn(f.last), r);
  }

  /** A listing is answered exactly when the database accepts the query with its test on the candidates and its order. */
  lemma AnsweredIsAccepted(
    db: Db, kind: NodeKind, e: Expr, q: Query, fns: Functions, f: L.Filter, candidates: Option<seq<int>>, order: L.Field)
    requires Resolved(kind, e) && Compiled(e, q) && Records(db, kind, e, fns, f)
    ensures L.Answers(Some(f), candidates, order) <==> QueryAccepted(db.dialect, kind, q, candidates.Some?, order != L.Id)
  {
    hide EarlierTrueOf, LastTrueOf, Resolved, Compiled, Acceptable, JoinsId, QueryAccepted;
    AcceptedExactly(db.dialect, kind, e, q, candidates.Some?, order != L.Id);
  }

  /******* Filters that go wrong *******/

  function Equation(neighbor: string, field: string, v: Value): Expr {
    Apply("=", [NeighborField(neighbor, field), Literal(v)])
  }

  lemma EquationRefs(neighbor: string, field: string, v: Value)
    requires ConceptOf(neighbor).Some?
    ensures Refs(Equation(neighbor, field, v)) == {ConceptOf(neighbor).value}
  {
    hide ConceptOf;
    var args := [NeighborField(neighbor, field), Literal(v)];
    assert args[1..] == [Literal(v)] && [Literal(v)][1..] == [];
    assert Refs(Literal(v)) == {} && Mentions([Literal(v)]) == {};
    assert Mentions(args) == Refs(args[0]) + Mentions(args[1..]);
  }

  lemma EquationResolved(kind: NodeKind, neighbor: string, field: string, v: Value)
    requires ConceptOf(neighbor).Some? && Supported(kind, ConceptOf(neighbor).value.atom)
    requires field in DeclaredFields(kind, ConceptOf(neighbor).value.atom)
    ensures Resolved(kind, Equation(neighbor, field, v))
  {
    hide ConceptOf, DeclaredFields;
  }

  /** A filter on a context is refused when candidate ids are given, on every database. */
  lemma ContextWithCandidates(d: Dialect, q: Query)
    requires Compiled(Equation("contexts_a", "name", Text("x")), q)
    ensures Resolved(ArtifactNode, Equation("contexts_a", "name", Text("x")))
    ensures forall byTime :: !QueryAccepted(d, ArtifactNode, q, true, byTime)
  {
    var e := Equation("contexts_a", "name", Text("x"));
    var r := Ref(ContextAtom, "contexts_a");
    assert ConceptOf("contexts_a") == Some(r);
    EquationRefs("contexts_a", "name", Text("x"));
    EquationResolved(ArtifactNode, "contexts_a", "name", Text("x"));
    hide Refs, Resolved, QueryAccepted, Compiled, Acceptable, ConceptOf;
    assert JoinsId(e) by { assert r in Refs(e); }
    forall byTime ensures !QueryAccepted(d, ArtifactNode, q, true, byTime) {
      AcceptedExactly(d, ArtifactNode, e, q, true, byTime);
    }
  }

  /** A property name with a quote in it ends the quotation early. */
  lemma QuoteInName(d: Dialect, q: Query)
    requires Compiled(Equation("properties_a\"b", "int_value", Int(1)), q)
    ensures Resolved(ArtifactNode, Equation("properties_a\"b", "int_value", Int(1)))
    ensures forall candidates, byTime :: !QueryAccepted(d, ArtifactNode, q, candidates, byTime)
  {
    var name := "properties_a\"b";
    var e, r := Equation(name, "int_value", Int(1)), Ref(PropertyAtom, name);
    assert name == "properties_" + "a\"b" && name[0] == 'p' && "contexts_"[0] == 'c';
    assert ConceptOf(name) == Some(r);
    EquationRefs(name, "int_value", Int(1));
    EquationResolved(ArtifactNode, name, "int_value", Int(1));
    assert PropertyName(r) == "a\"b";
    QuoteEnds(d.MySql?);
    assert !NameReadable(d, ArtifactNode, r);
    hide Refs, Resolved, QueryAccepted, Compiled, ConceptOf, NameReadable;
    assert !Acceptable(d, ArtifactNode, e) by { assert r in Refs(e); }
    forall candidates, byTime ensures !QueryAccepted(d, ArtifactNode, q, candidates, byTime) {
      AcceptedExactly(d, ArtifactNode, e, q, candidates, byTime);
    }
  }

  lemma QuoteEnds(escapes: bool)
    ensures ReadQuoted(escapes, "a\"b" + "\"" + AFTER_NAME) == Some(Quoted("a", "b\"" + AFTER_NAME))
  {
    var t := "a\"b" + "\"" + AFTER_NAME;
    assert t[1..][0] == '"' && t[1..][1] == 'b' && t[1..][1..] == "b\"" + AFTER_NAME;
    assert ReadQuoted(escapes, t[1..]) == Some(Quoted("", "b\"" + AFTER_NAME));
    assert t[0] == 'a' && ['a'] + "" == "a";
  }

  /** A doubled quote is accepted, but names another property. */
  lemma DoubledQuote(d: Dialect, kind: NodeKind)
    ensures NameOperand(d, kind, "a\"\"b") == Some(TextOf("a\"b"))
  {
    var t := "a\"\"b" + "\"" + AFTER_NAME;
    var name := "a\"\"b";
    assert t[0] == name[0] == 'a' && t[1] == name[1] == '"' && t[2] == name[2] == '"' && t[3] == name[3] == 'b';
    assert t[1..][2..] == "b" + "\"" + AFTER_NAME;
    PlainIsRead(d.MySql?, "b", AFTER_NAME);
    assert "\"" + "b" == "\"b" && "a" + "\"b" == "a\"b";
    assert ReadQuoted(d.MySql?, t[1..]) == Some(Quoted("\"b", AFTER_NAME));
    assert ReadQuoted(d.MySql?, t) == Some(Quoted("a\"b", AFTER_NAME));
    LowerDigits("a\"b");
    assert "a\"b"[1] == '"';
    forall c | c in PropertyTableColumns(kind) + ROW_ID ensures c != ToLower("a\"b") { CleanColumns(kind, c); }
  }

  /** On SQLite a property called `name` stands for every property. */
  lemma NameIsColumn(d: Dialect, kind: NodeKind)
    requires d.Sqlite?
    ensures NameOperand(d, kind, "name") == Some(ColumnOf("name"))
  {
    PlainIsRead(false, "name", AFTER_NAME);
    assert ToLower("name") == "name";
  }

  /** On SQLite a string that is the name of a column is read as that column. */
  lemma StringIsColumn(d: Dialect, joins: seq<Join>)
    requires d.Sqlite? && joins == []
    ensures Heard(d, ArtifactNode, joins, SqlLiteral(Text("name"))) == SqlColumn(Alias(0), "name")
  {
    hide Alias;
    assert ToLower("name") == "name";
    assert Tables(ArtifactNode, joins, "name") == {Alias(0)};
  }

  /** The filter `true OR "name"`. */
  function Harmless(): Expr {
    Apply("OR", [Literal(Bool(true)), Literal(Text("name"))])
  }

  /**
   A filter that is not read as meant can still be right: on SQLite the second operand is read as a column,
   but the first is true anyway.
   */
  lemma MisreadHarmless(d: Dialect, q: Query)
    requires d.Sqlite? && Compiled(Harmless(), q)
    ensures !ReadAsMeant(d, ArtifactNode, Harmless())
    ensures forall db: Db, fns, base | db.dialect == d && Logical(fns) ::
              Selects(db, ArtifactNode, q, fns, base) && TrueOf(db, ArtifactNode, Harmless(), fns, base)
  {
    hide ReadAsMeant, Compiled, Selects, TrueOf, Logical;
    HarmlessMisread(d);
    forall db: Db, fns, base: NodeRow | db.dialect == d && Logical(fns)
      ensures Selects(db, ArtifactNode, q, fns, base) && TrueOf(db, ArtifactNode, Harmless(), fns, base)
    {
      HarmlessSelects(db, q, fns, base);
      HarmlessTrue(db, fns, base);
    }
  }

  lemma HarmlessMisread(d: Dialect)
    requires d.Sqlite?
    ensures !ReadAsMeant(d, ArtifactNode, Harmless())
  {
    var e := Harmless();
    assert ToLower("name") == "name" && "name" in Offers(ArtifactNode, BASE_REF);
    assert !StaysText(d, ArtifactNode, Scope(e), "name");
    hide StaysText, Offers, ToLower;
    assert !Strings(e.args[1], t => StaysText(d, ArtifactNode, Scope(e), t));
    assert e.args[1] in e.args;
  }

  lemma HarmlessRefs()
    ensures Refs(Harmless()) == {}
  {
    var args := [Literal(Bool(true)), Literal(Text("name"))];
    assert Refs(args[0]) == {} && Refs(args[1]) == {};
  }

  lemma HarmlessQuery(q: Query)
    requires Compiled(Harmless(), q)
    ensures q.joins == [] && q.where_.SqlApply? && q.where_.op == "OR" && |q.where_.args| == 2
    ensures q.where_.args[0] == SqlLiteral(Bool(true))
  {
    hide Alias, GoodAliases, Enumerates, Refs;
    HarmlessRefs();
    var m, index :| GoodAliases(m, index) && m.Keys == Refs(Harmless()) + {BASE_REF} &&
                    Enumerates(q.joins, m) && q.where_ == Rewrite(Harmless(), m);
    JoinCount(q.joins, m);
    assert m.Keys == {BASE_REF};
    assert Rewrite(Literal(Bool(true)), m) == SqlLiteral(Bool(true));
  }

  lemma HarmlessSelects(db: Db, q: Query, fns: Functions, base: NodeRow)
    requires Compiled(Harmless(), q) && Logical(fns)
    ensures Selects(db, ArtifactNode, q, fns, base)
  {
    hide Alias, Compiled, Tables, BaseRecord;
    HarmlessQuery(q);
    var heard := Heard(db.dialect, ArtifactNode, q.joins, q.where_);
    assert Heard(db.dialect, ArtifactNode, q.joins, SqlLiteral(Bool(true))) == SqlLiteral(Bool(true));
    assert heard.SqlApply? && heard.op == "OR" && |heard.args| == 2 && heard.args[0] == SqlLiteral(Bool(true));
    var env := FilterMeaning.Start(base);
    var vs := seq(|heard.args|, i requires 0 <= i < |heard.args| => EvalSql(heard.args[i], env, fns));
    assert vs[0] == Bool(true) && EvalSql(heard, env, fns) == fns("OR", vs);
    assert Joined(db, ArtifactNode, base, q.joins, env, env);
  }

  lemma HarmlessTrue(db: Db, fns: Functions, base: NodeRow)
    requires Logical(fns)
    ensures TrueOf(db, ArtifactNode, Harmless(), fns, base)
  {
    hide IsNeighbor;
    var args, choice: Choice := Harmless().args, map[];
    HarmlessRefs();
    var vs := seq(|args|, i requires 0 <= i < |args| => Eval(args[i], base, choice, fns));
    assert vs[0] == Bool(true) && Eval(Harmless(), base, choice, fns) == fns("OR", vs);
    assert IsChoice(db, ArtifactNode, base, Refs(Harmless()), choice);
  }

  /** A database with one artifact property that is called `other` and has the value 1. */
  function OtherProperty(d: Dialect): Db {
    OneProperty(d, PropertyRow(1, "other", false, map["int_value" := Int(1)]))
  }

  /** SQL's `=`, and nothing else. */
  function Equals(): Functions {
    (op, vs) => Bool(op == "=" && |vs| == 2 && vs[0] == vs[1])
  }

  /** So on SQLite the filter `properties.name.int_value = 1` selects a node of which it is not true. */
  lemma NameFilterWrong(d: Dialect, q: Query)
    requires d.Sqlite? && Compiled(Equation("properties_name", "int_value", Int(1)), q)
    ensures var e, base := Equation("properties_name", "int_value", Int(1)), NodeRow(1, 1, map[]);
            && Selects(OtherProperty(d), ArtifactNode, q, Equals(), base)
            && !TrueOf(OtherProperty(d), ArtifactNode, e, Equals(), base)
  {
    var e, base := Equation("properties_name", "int_value", Int(1)), NodeRow(1, 1, map[]);
    var r := Ref(PropertyAtom, "properties_name");
    NameRef(r);
    EquationRefs("properties_name", "int_value", Int(1));
    NameIsColumn(d, ArtifactNode);
    hide ConceptOf, NameOperand, Refs, GoodAliases, Enumerates, Rewrite, Matches, TrueOf, Selects, PropertyName, Alias;
    OtherJoined(d, r);
    NotTrueThere(d, e, r);
    var m, index :| GoodAliases(m, index) && m.Keys == Refs(e) + {BASE_REF} && Enumerates(q.joins, m) && q.where_ == Rewrite(e, m);
    OtherSelected(d, q, m, index, r);
  }

  lemma NameRef(r: Ref)
    requires r == Ref(PropertyAtom, "properties_name")
    ensures ConceptOf("properties_name") == Some(r) && PropertyName(r) == "name"
  {
    assert "properties_name"[0] == 'p' && "contexts_"[0] == 'c' && "properties_name" == "properties_" + "name";
  }

  function OtherRow(): Record {
    PropertyColumns(ArtifactNode, PropertyRow(1, "other", false, map["int_value" := Int(1)]))
  }

  lemma OtherJoined(d: Dialect, r: Ref)
    requires r.atom == PropertyAtom && NameOperand(d, ArtifactNode, PropertyName(r)) == Some(ColumnOf("name"))
    ensures forall alias :: Matches(OtherProperty(d), ArtifactNode, NodeRow(1, 1, map[]), Join(r, alias), OtherRow())
  {
    hide NameOperand;
    assert PropertyRow(1, "other", false, map["int_value" := Int(1)]) in OtherProperty(d).Properties(ArtifactNode);
  }

  lemma NotTrueThere(d: Dialect, e: Expr, r: Ref)
    requires r.atom == PropertyAtom && PropertyName(r) == "name" && Refs(e) == {r}
    ensures !TrueOf(OtherProperty(d), ArtifactNode, e, Equals(), NodeRow(1, 1, map[]))
  {
    hide Refs, Eval;
    var db, base := OtherProperty(d), NodeRow(1, 1, map[]);
    assert forall nb :: !IsNeighbor(db, ArtifactNode, base, r, nb);
  }

  lemma OtherBound(d: Dialect, joins: seq<Join>, m: Aliases, index: nat, r: Ref) returns (env: Env)
    requires r != BASE_REF && GoodAliases(m, index) && m.Keys == {r} + {BASE_REF} && Enumerates(joins, m)
    requires forall alias :: Matches(OtherProperty(d), ArtifactNode, NodeRow(1, 1, map[]), Join(r, alias), OtherRow())
    ensures Joined(OtherProperty(d), ArtifactNode, NodeRow(1, 1, map[]), joins, Start(NodeRow(1, 1, map[])), env)
    ensures m[r] in env && env[m[r]] == OtherRow()
  {
    hide Alias, Matches, OtherRow, OtherProperty, Joined, Start, Bindings;
    var db, base := OtherProperty(d), NodeRow(1, 1, map[]);
    var rows := map[r := OtherRow()];
    assert Start(base).Keys == {Alias(0)} by { StartKeys(base); }
    CompiledAliases(joins, m, index, Start(base));
    forall j | j in joins ensures j.ref in rows && Matches(db, ArtifactNode, base, j, rows[j.ref]) {
      assert j == Join(r, j.alias);
    }
    BindingsJoined(db, ArtifactNode, base, joins, rows, Start(base));
    env := Bindings(joins, rows, Start(base));
    var i :| 0 <= i < |joins| && joins[i].ref == r;
    assert joins[i] in joins;
  }

  lemma StartKeys(base: NodeRow)
    ensures Start(base).Keys == {Alias(0)}
  {
  }

  lemma OneIsOne(alias: string, env: Env)
    requires alias in env && env[alias] == OtherRow()
    ensures EvalSql(SqlApply("=", [SqlColumn(alias, "int_value"), SqlLiteral(Int(1))]), env, Equals()) == Bool(true)
  {
    var args := [SqlColumn(alias, "int_value"), SqlLiteral(Int(1))];
    assert EvalSql(args[0], env, Equals()) == Int(1) by { assert Get(OtherRow(), "int_value") == Int(1); }
    var vs := seq(|args|, k requires 0 <= k < |args| => EvalSql(args[k], env, Equals()));
    assert vs == [Int(1), Int(1)];
  }

  lemma OtherSelected(d: Dialect, q: Query, m: Aliases, index: nat, r: Ref)
    requires r != BASE_REF && ConceptOf("properties_name") == Some(r)
    requires GoodAliases(m, index) && m.Keys == {r} + {BASE_REF} && Enumerates(q.joins, m)
    requires q.where_ == Rewrite(Equation("properties_name", "int_value", Int(1)), m)
    requires forall alias :: Matches(OtherProperty(d), ArtifactNode, NodeRow(1, 1, map[]), Join(r, alias), OtherRow())
    ensures Selects(OtherProperty(d), ArtifactNode, q, Equals(), NodeRow(1, 1, map[]))
  {
    hide Matches, Tables, ConceptOf, GoodAliases, Enumerates, OtherRow, Joined, EvalSql;
    var env := OtherBound(d, q.joins, m, index, r);
    var args := [SqlColumn(m[r], "int_value"), SqlLiteral(Int(1))];
    assert q.where_.args == args;
    HeardArgs(d, ArtifactNode, q.joins, "=", args);
    OneIsOne(m[r], env);
  }
}
