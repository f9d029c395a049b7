/**
 The SQL side of list operations: the clauses that resume, order and limit a listing,
 and what a database answers to them. A clause is kept as a small tree, not as text.
 */
module ListQuery {
  import opened Statuses

  const LLONG_MAX: int := 0x7FFF_FFFF_FFFF_FFFF

  /** kDefaultMaxListOperationResultSize */
  const MAX_LIST_RESULT: int := 100

  /** ListOperationOptions.OrderByField.Field */
  datatype Field = Unspecified | CreateTime | LastUpdateTime | Id

  datatype Row = Row(id: int, created: int, updated: int)

  /** ListOperationNextPageToken; of `set_options` only the two compared fields are kept. */
  datatype Token = Token(fieldOffset: int, idOffset: int, listedIds: seq<int>, field: Field, asc: bool)

  datatype Options = Options(maxResultSize: int, field: Field, asc: bool, token: Option<Token>)

  datatype Comparison = Less | LessOrEqual | Greater | GreaterOrEqual

  datatype Condition =
    | Compare(column: Field, op: Comparison, value: int)
    | IdNotIn(ids: seq<int>)
    | IdIn(members: seq<int>)

  /**
   A WHERE clause as the database groups it: rows with an id in `always`, or that meet all
   conditions. `always` is empty unless a filter query is a disjunction, see ListNodeIds.
   */
  datatype Clause = Clause(always: seq<int>, conditions: seq<Condition>)

  /**
   A compiled filter query (see FilterQuery), as the ids of the nodes it selects: those selected by
   an operand of its outermost OR other than the last one, and those selected by the last operand.
   A filter that is not a disjunction is its own last operand. `accepted` says that the database takes
   the generated FROM and WHERE clauses, `joinsId` that a joined table has a column `id` as well, and
   `idOrderOnly` that it refuses to order what it selects as DISTINCT ids by anything else.
   */
  datatype Filter = Filter(earlier: seq<int>, last: seq<int>, accepted: bool, joinsId: bool, idOrderOnly: bool)

  datatype Order = Order(keys: seq<Field>, asc: bool)

  /******* What the database answers *******/

  function Column(f: Field, r: Row): int {
    match f
    case CreateTime => r.created
    case LastUpdateTime => r.updated
    case Id => r.id
    case Unspecified => 0
  }

  predicate Holds(c: Condition, r: Row) {
    match c
    case Compare(f, Less, v) => Column(f, r) < v
    case Compare(f, LessOrEqual, v) => Column(f, r) <= v
    case Compare(f, Greater, v) => Column(f, r) > v
    case Compare(f, GreaterOrEqual, v) => Column(f, r) >= v
    case IdNotIn(ids) => r.id !in ids
    case IdIn(ids) => r.id in ids
  }

  predicate AllHold(cs: seq<Condition>, r: Row) {
    forall c | c in cs :: Holds(c, r)
  }

  predicate Passes(w: Clause, r: Row) {
    r.id in w.always || AllHold(w.conditions, r)
  }

  function Where(w: Clause, rows: seq<Row>): seq<Row> {
    if rows == [] then []
    else (if Passes(w, rows[0]) then [rows[0]] else []) + Where(w, rows[1..])
  }

  /** Lexicographic comparison by the ORDER BY keys, all in one direction. */
  predicate Before(o: Order, a: Row, b: Row)
    decreases |o.keys|
  {
    o.keys != [] &&
    var x, y := Column(o.keys[0], a), Column(o.keys[0], b);
    if x != y then (x < y) == o.asc else Before(Order(o.keys[1..], o.asc), a, b)
  }

  function Insert(o: Order, r: Row, rows: seq<Row>): seq<Row> {
    if rows == [] || Before(o, r, rows[0]) then [r] + rows
    else [rows[0]] + Insert(o, r, rows[1..])
  }

  function Sort(o: Order, rows: seq<Row>): seq<Row> {
    if rows == [] then [] else Insert(o, rows[0], Sort(o, rows[1..]))
  }

  function Take(n: nat, rows: seq<Row>): seq<Row> {
    if |rows| <= n then rows else rows[..n]
  }

  /** SELECT .. WHERE w ORDER BY o LIMIT n */
  function Select(w: Clause, o: Order, n: nat, rows: seq<Row>): seq<Row> {
    Take(n, Sort(o, Where(w, rows)))
  }

  /******* The clauses of list_operation_query_helper.cc *******/

  /** ConstructOrderingFieldClause */
  function OrderingFieldClause(o: Options, offset: int): Result<Condition> {
    if o.field == Unspecified then Failure(InvalidArgument)
    else if o.field == Id then Success(Compare(o.field, if o.asc then Greater else Less, offset))
    else Success(Compare(o.field, if o.asc then GreaterOrEqual else LessOrEqual, offset))
  }

  /** ConstructIdClause; an empty sequence stands for the empty string. */
  function IdClause(o: Options, t: Token): Result<seq<Condition>> {
    match o.field
    case CreateTime => Success([Compare(Id, if o.asc then Greater else Less, t.idOffset)])
    case LastUpdateTime =>
      if t.listedIds == [] then Failure(Internal) else Success([IdNotIn(t.listedIds)])
    case Id => Success([])
    case Unspecified => Failure(InvalidArgument)
  }

  /** ValidateListOperationOptionsAreIdentical: only the field and the direction are compared. */
  predicate SameOrdering(t: Token, o: Options) {
    t.asc == o.asc && t.field == o.field
  }

  /** AppendOrderingThresholdClause */
  function ThresholdClause(o: Options): Result<seq<Condition>> {
    match o.token
    case None =>
      var field :- OrderingFieldClause(o, if o.asc then 0 else LLONG_MAX);
      Success([field])
    case Some(t) =>
      if !SameOrdering(t, o) then Failure(InvalidArgument) else
      var field :- OrderingFieldClause(o, t.fieldOffset);
      var ids :- IdClause(o, t);
      Success([field] + ids)
  }

  /** AppendOrderByClause */
  function OrderByClause(o: Options): Result<Order> {
    if o.field == Unspecified then Failure(InvalidArgument)
    else Success(Order(if o.field == Id then [Id] else [o.field, Id], o.asc))
  }

  /** AppendLimitClause: the cap is one more than the documented maximum. */
  function LimitClause(o: Options): Result<nat> {
    if o.maxResultSize <= 0 then Failure(InvalidArgument)
    else Success(if o.maxResultSize <= MAX_LIST_RESULT + 1 then o.maxResultSize else MAX_LIST_RESULT + 1)
  }

  /**
   ListNodeIDsUsingOptions. The filter's WHERE text is pasted in front of " AND <rest>" without
   parentheses, and AND binds tighter than OR, so only the last operand of a disjunction is
   restricted by the candidate ids and by the threshold. The test on the candidates names `id` without
   the alias of the base table, so the database refuses it when a joined table has an `id` too. Only a
   query with a filter is a SELECT DISTINCT.
   */
  function ListNodeIds(rows: seq<Row>, filter: Option<Filter>, candidates: Option<seq<int>>, o: Options)
    : Result<seq<Row>>
  {
    if candidates == Some([]) then Success([]) else
    var threshold :- ThresholdClause(o);
    var order :- OrderByClause(o);
    var limit :- LimitClause(o);
    if !Answers(filter, candidates, o.field) then Failure(Internal)
    else Success(Select(WhereClause(filter, candidates, threshold), order, limit, rows))
  }

  /** Does the database accept the query? */
  predicate Answers(filter: Option<Filter>, candidates: Option<seq<int>>, order: Field) {
    filter.Some? ==>
      filter.value.accepted && (candidates.Some? ==> !filter.value.joinsId) && (order != Id ==> !filter.value.idOrderOnly)
  }

  function WhereClause(filter: Option<Filter>, candidates: Option<seq<int>>, threshold: seq<Condition>): Clause {
    var rest := (if candidates.Some? then [IdIn(candidates.value)] else []) + threshold;
    match filter
    case None => Clause([], rest)
    case Some(f) => Clause(f.earlier, [IdIn(f.last)] + rest)
  }

  /******* Selecting from a sorted table *******/

  /** No two rows share an id, so that `id` breaks every tie of the other keys. */
  predicate DistinctIds(rows: seq<Row>) {
    forall i, j | 0 <= i < j < |rows| :: rows[i].id != rows[j].id
  }

  predicate Sorted(o: Order, rows: seq<Row>) {
    forall i, j | 0 <= i < j < |rows| :: Before(o, rows[i], rows[j])
  }

  /** The orders that OrderByClause produces: they end in `id`. */
  predicate TotalOrder(o: Order) {
    o.keys == [Id] || (|o.keys| == 2 && o.keys[1] == Id && o.keys[0] in {CreateTime, LastUpdateTime})
  }

  predicate After(asc: bool, x: int, y: int) {
    if asc then x > y else x < y
  }

  lemma BeforeUnfolds(o: Order, a: Row, b: Row)
    requires TotalOrder(o)
    ensures Before(o, a, b) <==>
            var x, y := Column(o.keys[0], a), Column(o.keys[0], b);
            After(o.asc, y, x) || (x == y && After(o.asc, b.id, a.id))
  {
    if |o.keys| == 2 {
      var tail := Order(o.keys[1..], o.asc);
      assert tail.keys == [Id];
      assert Before(tail, a, b) <==> After(o.asc, b.id, a.id);
    }
  }

  lemma BeforeTransitive(o: Order, a: Row, b: Row, c: Row)
    requires TotalOrder(o) && Before(o, a, b) && Before(o, b, c)
    ensures Before(o, a, c)
  {
    BeforeUnfolds(o, a, b);
    BeforeUnfolds(o, b, c);
    BeforeUnfolds(o, a, c);
  }

  lemma AllHoldOne(c: Condition, r: Row)
    ensures AllHold([c], r) <==> Holds(c, r)
  {
    assert c in [c];
  }

  lemma AllHoldConcat(cs: seq<Condition>, ds: seq<Condition>, r: Row)
    ensures AllHold(cs + ds, r) <==> AllHold(cs, r) && AllHold(ds, r)
  {
    assert forall c :: c in cs + ds <==> c in cs || c in ds;
  }

  lemma WhereConcat(w: Clause, a: seq<Row>, b: seq<Row>)
    ensures Where(w, a + b) == Where(w, a) + Where(w, b)
  {
    if a == [] {
      assert a + b == b;
    } else {
      assert (a + b)[1..] == a[1..] + b;
      WhereConcat(w, a[1..], b);
    }
  }

  lemma WhereNone(w: Clause, rows: seq<Row>)
    requires forall r | r in rows :: !Passes(w, r)
    ensures Where(w, rows) == []
  {
  }

  lemma WhereAll(w: Clause, rows: seq<Row>)
    requires forall r | r in rows :: Passes(w, r)
    ensures Where(w, rows) == rows
  {
  }

  lemma WhereMembers(w: Clause, rows: seq<Row>)
    ensures forall r :: r in Where(w, rows) <==> r in rows && Passes(w, r)
  {
  }

  /** Filtering by two clauses in turn. */
  lemma WhereTwice(w: Clause, first: Clause, second: Clause, rows: seq<Row>)
    requires forall r | r in rows :: Passes(w, r) <==> Passes(first, r) && Passes(second, r)
    ensures Where(w, rows) == Where(second, Where(first, rows))
  {
    if rows != [] {
      WhereTwice(w, first, second, rows[1..]);
      WhereConcat(second, if Passes(first, rows[0]) then [rows[0]] else [], Where(first, rows[1..]));
    }
  }

  lemma SortedCons(o: Order, r: Row, rows: seq<Row>)
    requires Sorted(o, rows) && forall x | x in rows :: Before(o, r, x)
    ensures Sorted(o, [r] + rows)
  {
  }

  /** Filtering keeps an order. */
  lemma WhereSorted(w: Clause, o: Order, rows: seq<Row>)
    requires Sorted(o, rows)
    ensures Sorted(o, Where(w, rows))
  {
    if rows != [] {
      WhereSorted(w, o, rows[1..]);
      WhereMembers(w, rows[1..]);
      SortedCons(o, rows[0], Where(w, rows[1..]));
      assert [] + Where(w, rows[1..]) == Where(w, rows[1..]);
    }
  }

  lemma InsertMembers(o: Order, r: Row, rows: seq<Row>)
    ensures forall x :: x in Insert(o, r, rows) <==> x == r || x in rows
  {
    if rows != [] && !Before(o, r, rows[0]) {
      InsertMembers(o, r, rows[1..]);
      assert rows == [rows[0]] + rows[1..];
    }
  }

  lemma InsertSorted(o: Order, r: Row, rows: seq<Row>)
    requires TotalOrder(o) && Sorted(o, rows)
    requires forall x | x in rows :: x.id != r.id
    ensures Sorted(o, Insert(o, r, rows))
  {
    if rows == [] {
    } else if Before(o, r, rows[0]) {
      forall x | x in rows ensures Before(o, r, x) {
        if x != rows[0] { BeforeTransitive(o, r, rows[0], x); }
      }
      SortedCons(o, r, rows);
    } else {
      BeforeUnfolds(o, r, rows[0]);
      BeforeUnfolds(o, rows[0], r);
      InsertSorted(o, r, rows[1..]);
      InsertMembers(o, r, rows[1..]);
      SortedCons(o, rows[0], Insert(o, r, rows[1..]));
    }
  }

  /** ORDER BY is correct: a strictly ordered permutation of the rows. */
  lemma SortCorrect(o: Order, rows: seq<Row>)
    requires TotalOrder(o) && DistinctIds(rows)
    ensures Sorted(o, Sort(o, rows))
    ensures multiset(Sort(o, rows)) == multiset(rows)
    ensures forall r :: r in Sort(o, rows) <==> r in rows
    ensures DistinctIds(Sort(o, rows))
  {
    if rows != [] {
      SortCorrect(o, rows[1..]);
      InsertSorted(o, rows[0], Sort(o, rows[1..]));
      InsertMultiset(o, rows[0], Sort(o, rows[1..]));
      InsertMembers(o, rows[0], Sort(o, rows[1..]));
      assert rows == [rows[0]] + rows[1..];
    }
    SortedDistinct(o, Sort(o, rows));
  }

  lemma InsertMultiset(o: Order, r: Row, rows: seq<Row>)
    ensures multiset(Insert(o, r, rows)) == multiset{r} + multiset(rows)
  {
    if rows != [] && !Before(o, r, rows[0]) {
      assert rows == [rows[0]] + rows[1..];
      InsertMultiset(o, r, rows[1..]);
    }
  }

  lemma SortedDistinct(o: Order, rows: seq<Row>)
    requires TotalOrder(o) && Sorted(o, rows)
    requires forall x, y | x in rows && y in rows && x.id == y.id :: x == y
    ensures DistinctIds(rows)
  {
    forall i, j | 0 <= i < j < |rows| ensures rows[i].id != rows[j].id {
      BeforeUnfolds(o, rows[i], rows[j]);
    }
  }

  lemma {:induction false} WhereInsert(w: Clause, o: Order, r: Row, rows: seq<Row>)
    requires TotalOrder(o) && Sorted(o, rows)
    ensures Where(w, Insert(o, r, rows)) ==
            if Passes(w, r) then Insert(o, r, Where(w, rows)) else Where(w, rows)
  {
    if rows == [] {
    } else if Before(o, r, rows[0]) {
      assert ([r] + rows)[1..] == rows;
      var rest := Where(w, rows);
      if rest != [] {
        WhereMembers(w, rows);
        assert rest[0] in rows;
        if rest[0] != rows[0] { BeforeTransitive(o, r, rows[0], rest[0]); }
      }
    } else {
      WhereInsert(w, o, r, rows[1..]);
      WhereConcat(w, [rows[0]], Insert(o, r, rows[1..]));
      WhereConcat(w, [rows[0]], rows[1..]);
      assert rows == [rows[0]] + rows[1..];
      var rest := Where(w, rows[1..]);
      if Passes(w, rows[0]) {
        assert Where(w, [rows[0]]) == [rows[0]];
        assert ([rows[0]] + rest)[1..] == rest;
      } else {
        var inserted := Where(w, Insert(o, r, rows[1..]));
        assert Where(w, [rows[0]]) == [] && [] + rest == rest && [] + inserted == inserted;
      }
    }
  }

  /** Filtering then sorting is sorting then filtering. */
  lemma SortWhere(w: Clause, o: Order, rows: seq<Row>)
    requires TotalOrder(o) && DistinctIds(rows)
    ensures Sort(o, Where(w, rows)) == Where(w, Sort(o, rows))
  {
    if rows != [] {
      SortWhere(w, o, rows[1..]);
      SortCorrect(o, rows[1..]);
      WhereInsert(w, o, rows[0], Sort(o, rows[1..]));
      assert ([rows[0]] + Where(w, rows[1..]))[1..] == Where(w, rows[1..]);
      assert [] + Where(w, rows[1..]) == Where(w, rows[1..]);
    }
  }
}
