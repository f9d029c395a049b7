/**
 Two limits of filter compilation: which queries the database accepts, and what the WHERE clause
 means once " AND <rest>" is pasted behind it without parentheses.
 */
module FilterPasting {
  import opened Statuses
  import opened SqlText
  import opened FilterSchema
  import opened FilterQuery
  import opened FilterMeaning

  /** A rewritten column of a concept is accepted iff the concept's template offers it. */
  lemma ColumnAccepted(d: Dialect, kind: NodeKind, e: Expr, joins: seq<Join>, m: Aliases, index: nat, ref: Ref, field: string)
    requires CompiledWith(e, joins, m, index) && ref in m && ref != BASE_REF && JoinTemplate(kind, ref).Some?
    ensures Accepted(d, kind, joins, SqlColumn(m[ref], field)) <==> field in Columns(JoinTemplate(kind, ref).value)
  {
    hide Alias, Columns, Refs, JoinTemplate;
    var i :| 0 <= i < |joins| && joins[i].ref == ref;
    assert joins[i] in joins && joins[i].alias == m[ref];
    assert m[ref] != Alias(0);
    assert forall j | j in joins && j.alias == m[ref] :: j.ref == ref;
  }

  /** A string is accepted iff it names no column of two tables. */
  lemma StringAccepted(d: Dialect, kind: NodeKind, e: Expr, joins: seq<Join>, m: Aliases, index: nat, text: string)
    requires CompiledWith(e, joins, m, index)
    ensures Accepted(d, kind, joins, SqlLiteral(Text(text))) <==> (d.Sqlite? ==> Unambiguous(kind, Scope(e), ToLower(text)))
  {
    hide Tables, Offers, Refs, Alias, ToLower;
    var c := ToLower(text);
    TablesOf(kind, e, joins, m, index, c);
    ScopeKeys(e, joins, m, index);
    assert forall r, t | r in m && t in m && m[r] == m[t] :: r == t;
    if Unambiguous(kind, Scope(e), c) {
      forall a, b | a in Tables(kind, joins, c) && b in Tables(kind, joins, c) ensures a == b {
        var r :| r in m && m[r] == a && c in Offers(kind, r);
        var t :| t in m && m[t] == b && c in Offers(kind, t);
      }
    } else {
      var r, t :| r in Scope(e) && t in Scope(e) && c in Offers(kind, r) && c in Offers(kind, t) && r != t;
      assert m[r] in Tables(kind, joins, c) && m[t] in Tables(kind, joins, c);
    }
  }

  /** On SQLite no string in the filter names a column of two tables. */
  predicate StringsClear(d: Dialect, kind: NodeKind, refs: set<Ref>, e: Expr) {
    Strings(e, t => d.Sqlite? ==> Unambiguous(kind, refs, ToLower(t)))
  }

  lemma {:induction false} RewriteAccepted(d: Dialect, kind: NodeKind, whole: Expr, e: Expr, joins: seq<Join>, m: Aliases, index: nat)
    requires CompiledWith(whole, joins, m, index) && Resolved(kind, e) && Refs(e) <= m.Keys
    ensures Accepted(d, kind, joins, Rewrite(e, m)) <==> Expressible(e) && StringsClear(d, kind, Scope(whole), e)
    decreases e
  {
    hide ConceptOf, Columns, DeclaredFields, JoinTemplate, NodeColumns, Enumerates, CompiledWith, Unambiguous, Tables, ToLower;
    match e
    case Literal(v) =>
      if v.Text? { StringAccepted(d, kind, whole, joins, m, index, v.s); }
    case Attribute(name) =>
      BaseAlias(whole, joins, m, index);
      if name == "type" {
        RefsSupported(kind, e, TYPE_REF);
        ColumnAccepted(d, kind, whole, joins, m, index, TYPE_REF, name);
        TypeColumn(kind);
      }
    case NeighborField(n, f) =>
      var ref := ConceptOf(n).value;
      RefsSupported(kind, e, ref);
      ColumnAccepted(d, kind, whole, joins, m, index, ref, f);
      OfferedFields(kind, ref, f);
    case Apply(op, args) =>
      forall i | 0 <= i < |args|
        ensures Accepted(d, kind, joins, Rewrite(args[i], m)) <==>
                Expressible(args[i]) && StringsClear(d, kind, Scope(whole), args[i])
      {
        MentionsMember(args, i);
        RewriteAccepted(d, kind, whole, args[i], joins, m, index);
      }
      AppliedAccepted(d, kind, whole, e, joins, m);
  }

  lemma AppliedAccepted(d: Dialect, kind: NodeKind, whole: Expr, e: Expr, joins: seq<Join>, m: Aliases)
    requires e.Apply?
    requires forall i | 0 <= i < |e.args| ::
               Accepted(d, kind, joins, Rewrite(e.args[i], m)) <==>
               Expressible(e.args[i]) && StringsClear(d, kind, Scope(whole), e.args[i])
    ensures Accepted(d, kind, joins, Rewrite(e, m)) <==> Expressible(e) && StringsClear(d, kind, Scope(whole), e)
  {
    hide Accepted, Expressible, Strings, Unambiguous;
    var args, sql := e.args, Rewrite(e, m).args;
    assert |sql| == |args| && forall i | 0 <= i < |args| :: sql[i] == Rewrite(args[i], m);
    hide Rewrite;
    AcceptedApply(d, kind, joins, e.op, sql);
    ExpressibleApply(e.op, args);
    StringsApply(e.op, args, t => d.Sqlite? ==> Unambiguous(kind, Scope(whole), ToLower(t)));
  }

  lemma AcceptedApply(d: Dialect, kind: NodeKind, joins: seq<Join>, op: string, args: seq<SqlExpr>)
    ensures Accepted(d, kind, joins, SqlApply(op, args)) <==> forall i | 0 <= i < |args| :: Accepted(d, kind, joins, args[i])
  {
    hide Tables, Columns, JoinTemplate, NodeColumns, Alias;
    assert forall i | 0 <= i < |args| :: args[i] in args;
  }

  lemma ExpressibleApply(op: string, args: seq<Expr>)
    ensures Expressible(Apply(op, args)) <==> forall i | 0 <= i < |args| :: Expressible(args[i])
  {
    hide ConceptOf;
    assert forall i | 0 <= i < |args| :: args[i] in args;
  }

  lemma BaseAlias(e: Expr, joins: seq<Join>, m: Aliases, index: nat)
    requires CompiledWith(e, joins, m, index)
    ensures BASE_REF in m && m[BASE_REF] == Alias(0)
  {
  }

  lemma TypeColumn(kind: NodeKind)
    ensures JoinTemplate(kind, TYPE_REF).Some? && "type" in Columns(JoinTemplate(kind, TYPE_REF).value)
  {
  }

  /** The filter mentions a concept whose table has an `id`: a context or an event. */
  predicate JoinsId(e: Expr) {
    exists r :: r in Refs(e) && (r.atom == ContextAtom || r.atom == EventAtom)
  }

  lemma IdOffered(kind: NodeKind, ref: Ref)
    requires JoinTemplate(kind, ref).Some?
    ensures "id" in Offers(kind, ref) <==> ref.atom == ContextAtom || ref.atom == EventAtom
  {
  }

  lemma IdClear(d: Dialect, kind: NodeKind, e: Expr, joins: seq<Join>, m: Aliases, index: nat)
    requires Resolved(kind, e) && CompiledWith(e, joins, m, index)
    ensures Tables(kind, joins, "id") == {Alias(0)} <==> !JoinsId(e)
  {
    hide Tables, Offers, Refs, Alias, JoinTemplate;
    TablesOf(kind, e, joins, m, index, "id");
    BaseAlias(e, joins, m, index);
    BaseOffers(kind);
    assert m.Keys == Refs(e) + {BASE_REF};
    forall r | r in Refs(e) ensures "id" in Offers(kind, r) <==> r.atom == ContextAtom || r.atom == EventAtom {
      RefsSupported(kind, e, r);
      IdOffered(kind, r);
    }
    assert Alias(0) in Tables(kind, joins, "id");
    if JoinsId(e) {
      var r :| r in Refs(e) && (r.atom == ContextAtom || r.atom == EventAtom);
      RefsSupported(kind, e, r);
      assert m[r] in Tables(kind, joins, "id") && m[r] != m[BASE_REF];
    } else {
      forall a | a in Tables(kind, joins, "id") ensures a == Alias(0) {
        var r :| r in m && m[r] == a && "id" in Offers(kind, r);
      }
    }
  }

  /** What the database requires of a filter. */
  ghost predicate Acceptable(d: Dialect, kind: NodeKind, e: Expr) {
    && Expressible(e) && StringsClear(d, kind, Scope(e), e)
    && (forall r | r in Refs(e) :: NameReadable(d, kind, r))
    && |Scope(e)| <= TableLimit(d)
  }

  /**
   The database accepts the generated query if and only if the filter names no id or time of a parent or
   child context, no string that is a column of two tables, no property whose name ends its quotation, and
   not too many concepts; when candidate ids are given, no context and no event; and when MySQL is in its
   default mode, the order is by id.
   */
  lemma AcceptedExactly(d: Dialect, kind: NodeKind, e: Expr, q: Query, candidates: bool, byTime: bool)
    requires Resolved(kind, e) && Compiled(e, q)
    ensures QueryAccepted(d, kind, q, candidates, byTime) <==>
            Acceptable(d, kind, e) && (candidates ==> !JoinsId(e)) && (byTime ==> !IdOrderOnly(d))
  {
    hide GoodAliases, Enumerates, Accepted, Expressible, Rewrite, Refs, Resolved, NameReadable, Tables, StringsClear, JoinsId, Alias;
    var m, index :| GoodAliases(m, index) && m.Keys == Refs(e) + {BASE_REF} &&
                    Enumerates(q.joins, m) && q.where_ == Rewrite(e, m);
    RewriteAccepted(d, kind, e, e, q.joins, m, index);
    IdClear(d, kind, e, q.joins, m, index);
    JoinCount(q.joins, m);
    assert forall r :: r in Refs(e) <==> exists j :: j in q.joins && j.ref == r by { JoinedRefs(kind, e, q.joins, m, index); }
  }

  /** Every concept but the node itself is joined once. */
  lemma JoinCount(joins: seq<Join>, m: Aliases)
    requires Enumerates(joins, m) && BASE_REF in m
    ensures 1 + |joins| == |m.Keys|
  {
    RefCount(joins);
    var refs := set j | j in joins :: j.ref;
    forall r | r in m && r != BASE_REF ensures r in refs {
      var i :| 0 <= i < |joins| && joins[i].ref == r;
      assert joins[i] in joins;
    }
    assert m.Keys == refs + {BASE_REF};
  }

  lemma {:induction false} RefCount(joins: seq<Join>)
    requires forall i, k | 0 <= i < k < |joins| :: joins[i].ref != joins[k].ref
    ensures |set j | j in joins :: j.ref| == |joins|
  {
    if joins != [] {
      RefCount(joins[1..]);
      var rest := set j | j in joins[1..] :: j.ref;
      assert (set j | j in joins :: j.ref) == {joins[0].ref} + rest by {
        assert forall j :: j in joins <==> j == joins[0] || j in joins[1..];
      }
      assert joins[0].ref !in rest;
    }
  }

  lemma JoinedRefs(kind: NodeKind, e: Expr, joins: seq<Join>, m: Aliases, index: nat)
    requires Resolved(kind, e) && CompiledWith(e, joins, m, index)
    ensures forall r :: r in Refs(e) <==> exists j :: j in joins && j.ref == r
  {
    hide Refs, Alias, Resolved;
    forall r | r in Refs(e) ensures exists j :: j in joins && j.ref == r {
      RefsSupported(kind, e, r);
      var i :| 0 <= i < |joins| && joins[i].ref == r;
      assert joins[i] in joins;
    }
  }

  /******* Pasting *******/

  /** OR is true iff an operand is; AND iff all are. */
  ghost predicate Logical(fns: Functions) {
    && (forall vs :: fns("OR", vs) == Bool(true) <==> Bool(true) in vs)
    && (forall vs :: fns("AND", vs) == Bool(true) <==> forall v | v in vs :: v == Bool(true))
  }

  predicate Disjunction(s: SqlExpr) {
    s.SqlApply? && s.op == "OR" && s.args != []
  }

  /** How the text "<s> AND <rest>" is grouped: AND binds tighter than an OR at the top of `s`. */
  function Paste(s: SqlExpr, rest: SqlExpr): SqlExpr {
    if Disjunction(s) then
      var n := |s.args| - 1;
      SqlApply("OR", s.args[..n] + [SqlApply("AND", [s.args[n], rest])])
    else
      SqlApply("AND", [s, rest])
  }

  lemma AndTrue(a: SqlExpr, b: SqlExpr, env: Env, fns: Functions)
    requires Logical(fns)
    ensures EvalSql(SqlApply("AND", [a, b]), env, fns) == Bool(true) <==>
            EvalSql(a, env, fns) == Bool(true) && EvalSql(b, env, fns) == Bool(true)
  {
    var args := [a, b];
    var vs := seq(|args|, i requires 0 <= i < |args| => EvalSql(args[i], env, fns));
    assert vs == [EvalSql(a, env, fns), EvalSql(b, env, fns)];
    assert vs[0] in vs && vs[1] in vs;
  }

  lemma OrTrue(args: seq<SqlExpr>, env: Env, fns: Functions)
    requires Logical(fns)
    ensures EvalSql(SqlApply("OR", args), env, fns) == Bool(true) <==>
            exists i :: 0 <= i < |args| && EvalSql(args[i], env, fns) == Bool(true)
  {
    var vs := seq(|args|, i requires 0 <= i < |args| => EvalSql(args[i], env, fns));
    assert forall i | 0 <= i < |args| :: vs[i] == EvalSql(args[i], env, fns) && vs[i] in vs;
  }

  /** The pasted clause, row by row. */
  lemma PasteTrue(s: SqlExpr, rest: SqlExpr, env: Env, fns: Functions)
    requires Logical(fns)
    ensures EvalSql(Paste(s, rest), env, fns) == Bool(true) <==>
            if Disjunction(s) then
              (exists i :: 0 <= i < |s.args| - 1 && EvalSql(s.args[i], env, fns) == Bool(true)) ||
              (EvalSql(s.args[|s.args| - 1], env, fns) == Bool(true) && EvalSql(rest, env, fns) == Bool(true))
            else
              EvalSql(s, env, fns) == Bool(true) && EvalSql(rest, env, fns) == Bool(true)
  {
    hide EvalSql, Logical;
    if Disjunction(s) {
      var n := |s.args| - 1;
      var last := SqlApply("AND", [s.args[n], rest]);
      OrTrue(s.args[..n] + [last], env, fns);
      AndTrue(s.args[n], rest, env, fns);
      var args := s.args[..n] + [last];
      assert args[n] == last && forall i | 0 <= i < n :: args[i] == s.args[i];
    } else {
      AndTrue(s, rest, env, fns);
    }
  }

  /** Part `d` of the filter `e` is true of a node, for some choice of all neighbours `e` mentions. */
  ghost predicate PartTrueOf(db: Db, kind: NodeKind, e: Expr, d: Expr, fns: Functions, base: NodeRow) {
    exists choice: Choice :: IsChoice(db, kind, base, Refs(e), choice) && Eval(d, base, choice, fns) == Bool(true)
  }

  /** ... seen from the joined rows. */
  ghost predicate PartSelects(db: Db, kind: NodeKind, joins: seq<Join>, s: SqlExpr, fns: Functions, base: NodeRow) {
    exists env: Env :: Joined(db, kind, base, joins, Start(base), env) && EvalSql(s, env, fns) == Bool(true)
  }

  lemma PartCorrect(db: Db, kind: NodeKind, e: Expr, d: Expr, joins: seq<Join>, m: Aliases, index: nat,
                    fns: Functions, base: NodeRow)
    requires Resolved(kind, e) && CompiledWith(e, joins, m, index)
    requires forall r | r in Refs(e) :: NameKept(db.dialect, kind, r)
    requires Resolved(kind, d) && Expressible(d) && Refs(d) <= Refs(e)
    ensures PartSelects(db, kind, joins, Rewrite(d, m), fns, base) <==> PartTrueOf(db, kind, e, d, fns, base)
  {
    hide Resolved, Expressible, Refs, Joined, Eval, EvalSql, Rewrite, IsNeighbor, Agree, CompiledWith, NameKept;
    if PartSelects(db, kind, joins, Rewrite(d, m), fns, base) {
      var env :| Joined(db, kind, base, joins, Start(base), env) && EvalSql(Rewrite(d, m), env, fns) == Bool(true);
      var choice := EnvToChoice(db, kind, e, base, joins, m, index, env);
      RewriteEvaluates(db, kind, d, fns, base, m, env, choice);
    }
    if PartTrueOf(db, kind, e, d, fns, base) {
      var choice :| IsChoice(db, kind, base, Refs(e), choice) && Eval(d, base, choice, fns) == Bool(true);
      var env := ChoiceToEnv(db, kind, e, base, joins, m, index, choice);
      RewriteEvaluates(db, kind, d, fns, base, m, env, choice);
    }
  }

  /** `rest` only looks at the node's own columns: it has one value at a node. */
  ghost predicate RestIs(joins: seq<Join>, rest: SqlExpr, fns: Functions, db: Db, kind: NodeKind, base: NodeRow, holds: bool) {
    forall env: Env | Joined(db, kind, base, joins, Start(base), env) :: EvalSql(rest, env, fns) == Bool(true) <==> holds
  }

  lemma PastedSelects(db: Db, kind: NodeKind, joins: seq<Join>, s: SqlExpr, rest: SqlExpr, holds: bool,
                      fns: Functions, base: NodeRow)
    requires Logical(fns) && RestIs(joins, rest, fns, db, kind, base, holds)
    ensures PartSelects(db, kind, joins, Paste(s, rest), fns, base) <==>
            if Disjunction(s) then
              (exists i :: 0 <= i < |s.args| - 1 && PartSelects(db, kind, joins, s.args[i], fns, base)) ||
              (PartSelects(db, kind, joins, s.args[|s.args| - 1], fns, base) && holds)
            else
              PartSelects(db, kind, joins, s, fns, base) && holds
  {
    hide EvalSql, Joined, Paste, Logical;
    forall env: Env ensures PastedAt(s, rest, env, fns) { PasteTrue(s, rest, env, fns); }
    if PartSelects(db, kind, joins, Paste(s, rest), fns, base) {
      var env :| Joined(db, kind, base, joins, Start(base), env) && EvalSql(Paste(s, rest), env, fns) == Bool(true);
      assert PastedAt(s, rest, env, fns);
    }
    if Disjunction(s) {
      forall i | 0 <= i < |s.args| - 1 && PartSelects(db, kind, joins, s.args[i], fns, base)
        ensures PartSelects(db, kind, joins, Paste(s, rest), fns, base)
      {
        var env :| Joined(db, kind, base, joins, Start(base), env) && EvalSql(s.args[i], env, fns) == Bool(true);
        assert PastedAt(s, rest, env, fns);
      }
    }
    var last := if Disjunction(s) then s.args[|s.args| - 1] else s;
    if PartSelects(db, kind, joins, last, fns, base) && holds {
      var env :| Joined(db, kind, base, joins, Start(base), env) && EvalSql(last, env, fns) == Bool(true);
      assert PastedAt(s, rest, env, fns);
    }
  }

  ghost predicate PastedAt(s: SqlExpr, rest: SqlExpr, env: Env, fns: Functions) {
    EvalSql(Paste(s, rest), env, fns) == Bool(true) <==>
    if Disjunction(s) then
      (exists i :: 0 <= i < |s.args| - 1 && EvalSql(s.args[i], env, fns) == Bool(true)) ||
      (EvalSql(s.args[|s.args| - 1], env, fns) == Bool(true) && EvalSql(rest, env, fns) == Bool(true))
    else
      EvalSql(s, env, fns) == Bool(true) && EvalSql(rest, env, fns) == Bool(true)
  }

  /** Pasting does not change how the parts are read. */
  lemma HeardPaste(d: Dialect, kind: NodeKind, joins: seq<Join>, s: SqlExpr, rest: SqlExpr)
    requires Heard(d, kind, joins, s) == s && Heard(d, kind, joins, rest) == rest
    ensures Heard(d, kind, joins, Paste(s, rest)) == Paste(s, rest)
  {
    hide Tables, Alias;
    if Disjunction(s) {
      var n := |s.args| - 1;
      forall i | 0 <= i < |s.args| ensures Heard(d, kind, joins, s.args[i]) == s.args[i] {
        assert Heard(d, kind, joins, s).args[i] == Heard(d, kind, joins, s.args[i]);
      }
      HeardArgs(d, kind, joins, "AND", [s.args[n], rest]);
      HeardArgs(d, kind, joins, "OR", s.args[..n] + [SqlApply("AND", [s.args[n], rest])]);
    } else {
      HeardArgs(d, kind, joins, "AND", [s, rest]);
    }
  }

  predicate IsOr(e: Expr) {
    e.Apply? && e.op == "OR" && e.args != []
  }

  /** Is an operand of the filter's outermost OR other than the last true of the node? */
  ghost predicate EarlierTrueOf(db: Db, kind: NodeKind, e: Expr, fns: Functions, base: NodeRow) {
    IsOr(e) && exists i :: 0 <= i < |e.args| - 1 && PartTrueOf(db, kind, e, e.args[i], fns, base)
  }

  /** Is its last operand, or the whole filter if it is no OR? */
  ghost predicate LastTrueOf(db: Db, kind: NodeKind, e: Expr, fns: Functions, base: NodeRow) {
    if IsOr(e) then PartTrueOf(db, kind, e, e.args[|e.args| - 1], fns, base) else TrueOf(db, kind, e, fns, base)
  }

  /**
   What a listing with a filter selects: an operand of an outermost OR other than the last one
   overrides the rest of the WHERE clause.
   */
  lemma PastedFilter(db: Db, kind: NodeKind, e: Expr, q: Query, rest: SqlExpr, holds: bool, fns: Functions, base: NodeRow)
    requires Resolved(kind, e) && Expressible(e) && Compiled(e, q) && ReadAsMeant(db.dialect, kind, e)
    requires Heard(db.dialect, kind, q.joins, rest) == rest
    requires Logical(fns) && RestIs(q.joins, rest, fns, db, kind, base, holds)
    ensures Selects(db, kind, Query(q.joins, Paste(q.where_, rest)), fns, base) <==>
            EarlierTrueOf(db, kind, e, fns, base) || (LastTrueOf(db, kind, e, fns, base) && holds)
  {
    hide GoodAliases, Enumerates, Joined, EvalSql, Eval, Paste, Logical, RestIs, Alias, PartTrueOf, IsChoice, Heard, NameKept, Strings;
    var m, index :| GoodAliases(m, index) && m.Keys == Refs(e) + {BASE_REF} &&
                    Enumerates(q.joins, m) && q.where_ == Rewrite(e, m);
    HeardAsMeant(db.dialect, kind, e, e, q.joins, m, index);
    HeardPaste(db.dialect, kind, q.joins, q.where_, rest);
    PastedSelects(db, kind, q.joins, q.where_, rest, holds, fns, base);
    if IsOr(e) {
      forall i | 0 <= i < |e.args|
        ensures PartSelects(db, kind, q.joins, q.where_.args[i], fns, base) <==> PartTrueOf(db, kind, e, e.args[i], fns, base)
      {
        MentionsMember(e.args, i);
        assert e.args[i] in e.args;
        PartCorrect(db, kind, e, e.args[i], q.joins, m, index, fns, base);
      }
    } else {
      FilterCorrect(db, kind, e, q, fns, base);
    }
  }
}
