/**
 Keyset pagination: the next-page token a server builds from a page, and the client loop that
 follows tokens. The reference it is measured against is one query: filter, sort, take a prefix.
 */
module Paging {
  import opened Statuses
  import opened ListQuery

  datatype Page = Page(rows: seq<Row>, token: Option<Token>)

  /** What is listed: a table, and the filter and candidate ids that every page is meant to apply. */
  datatype Source = Source(rows: seq<Row>, filter: Option<Filter>, candidates: Option<seq<int>>) {

    /** Ids that pass every threshold: operands of a disjunctive filter other than the last. */
    function Always(): seq<int> {
      if filter.Some? then filter.value.earlier else []
    }
  }

  /******* Building a token *******/

  /** How many rows at the end share the last row's update time. */
  function TrailingTies(rows: seq<Row>): (n: nat)
    requires rows != []
    ensures 1 <= n <= |rows|
    ensures forall i | |rows| - n <= i < |rows| :: rows[i].updated == rows[|rows| - 1].updated
    ensures n < |rows| ==> rows[|rows| - n - 1].updated != rows[|rows| - 1].updated
  {
    var last := |rows| - 1;
    if last == 0 || rows[last - 1].updated != rows[last].updated then 1
    else 1 + TrailingTies(rows[..last])
  }

  /** The ids of the last `n` rows, last row first. */
  function BackwardIds(rows: seq<Row>, n: nat): seq<int>
    requires n <= |rows|
  {
    if n == 0 then [] else BackwardIds(rows, n - 1) + [rows[|rows| - n].id]
  }

  lemma BackwardIdsMembers(rows: seq<Row>, n: nat)
    requires n <= |rows|
    ensures forall x :: x in BackwardIds(rows, n) <==> exists i :: |rows| - n <= i < |rows| && rows[i].id == x
    ensures |BackwardIds(rows, n)| == n
  {
  }

  function NextToken(rows: seq<Row>, o: Options): Result<Token>
    requires rows != []
  {
    var last := rows[|rows| - 1];
    match o.field
    case CreateTime => Success(Token(last.created, last.id, [], o.field, o.asc))
    case LastUpdateTime =>
      Success(Token(last.updated, 0, BackwardIds(rows, TrailingTies(rows)), o.field, o.asc))
    case Id => Success(Token(last.id, last.id, [], o.field, o.asc))
    case Unspecified => Failure(InvalidArgument)
  }

  /** BuildListOperationNextPageToken */
  method BuildNextPageToken(rows: seq<Row>, o: Options) returns (r: Result<Token>)
    requires rows != []
    ensures r == NextToken(rows, o)
  {
    hide TrailingTies;
    var last := rows[|rows| - 1];
    var token := Token(0, 0, [], o.field, o.asc);
    match o.field {
      case CreateTime =>
        token := token.(fieldOffset := last.created, idOffset := last.id);
      case LastUpdateTime =>
        token := token.(listedIds := [last.id], fieldOffset := last.updated);
        var i := |rows| - 2;
        assert BackwardIds(rows, 0) == [];
        while i >= 0
          invariant -1 <= i <= |rows| - 2
          invariant token == Token(last.updated, 0, BackwardIds(rows, |rows| - 1 - i), o.field, o.asc)
          invariant forall j | i < j < |rows| :: rows[j].updated == last.updated
        {
          if rows[i].updated != last.updated {
            break;
          }
          token := token.(listedIds := token.listedIds + [rows[i].id]);
          i := i - 1;
        }
        assert |rows| - 1 - i == TrailingTies(rows);
      case Id =>
        token := token.(fieldOffset := last.id, idOffset := last.id);
      case Unspecified =>
        return Failure(InvalidArgument);
    }
    return Success(token);
  }

  /******* One page *******/

  /** RDBMSMetadataAccessObject::ListNodes: ask for one row more than a page to see if it is the last. */
  function ListNodes(src: Source, o: Options): Result<Page> {
    if o.maxResultSize <= 0 then Failure(InvalidArgument) else
    var found :- ListNodeIds(src.rows, src.filter, src.candidates, o.(maxResultSize := o.maxResultSize + 1));
    CutPage(found, o)
  }

  /** Drop the extra row, and hand out a token exactly when there was one. */
  function CutPage(found: seq<Row>, o: Options): Result<Page>
    requires o.maxResultSize > 0
  {
    if |found| > o.maxResultSize then
      var token :- NextToken(found[..|found| - 1], o);
      Success(Page(found[..|found| - 1], Some(token)))
    else
      Success(Page(found, None))
  }

  function OrderOf(f: Field, asc: bool): Order {
    Order(if f == Id then [Id] else [f, Id], asc)
  }

  /** What a caller asks for: rows that satisfy the filter and are among the candidates. */
  function Selection(src: Source): Clause {
    Clause([],
           (if src.filter.Some? then [IdIn(src.filter.value.earlier + src.filter.value.last)] else []) +
           (if src.candidates.Some? then [IdIn(src.candidates.value)] else []))
  }

  /** The reference: all selected rows, sorted. */
  function Listing(src: Source, f: Field, asc: bool): seq<Row> {
    Sort(OrderOf(f, asc), Where(Selection(src), src.rows))
  }

  /** What the query can select at all: an OR filter reaches past the candidates in its earlier operands. */
  function Reach(src: Source): Clause {
    if src.candidates == Some([]) then Clause([], [IdIn([])]) else WhereClause(src.filter, src.candidates, [])
  }

  /** All rows that the pages are taken from, sorted. */
  function Listed(src: Source, f: Field, asc: bool): seq<Row> {
    Sort(OrderOf(f, asc), Where(Reach(src), src.rows))
  }

  /** The query is not sent at all, or the database accepts it. */
  predicate Answered(src: Source, f: Field) {
    src.candidates == Some([]) || Answers(src.filter, src.candidates, f)
  }

  /** No earlier operand of an OR filter selects a row outside the candidates. */
  predicate WithinCandidates(src: Source) {
    src.candidates.Some? && src.candidates.value != [] ==>
      forall r | r in src.rows && r.id in src.Always() :: r.id in src.candidates.value
  }

  /** Rows as the schema and the clock produce them: unique positive ids, no negative time. */
  predicate ValidTable(rows: seq<Row>) {
    && DistinctIds(rows)
    && forall r | r in rows ::
      0 < r.id < LLONG_MAX && 0 <= r.created <= LLONG_MAX && 0 <= r.updated <= LLONG_MAX
  }

  lemma SortedListing(w: Clause, rows: seq<Row>, f: Field, asc: bool)
    requires ValidTable(rows) && f != Unspecified
    ensures var s := Sort(OrderOf(f, asc), Where(w, rows));
            && Sorted(OrderOf(f, asc), s) && ValidTable(s) && TotalOrder(OrderOf(f, asc))
            && forall r :: r in s <==> r in rows && Passes(w, r)
  {
    var o := OrderOf(f, asc);
    SortCorrect(o, rows);
    SortWhere(w, o, rows);
    WhereSorted(w, o, Sort(o, rows));
    WhereMembers(w, Sort(o, rows));
    SortedDistinct(o, Where(w, Sort(o, rows)));
  }

  lemma ListedFacts(src: Source, f: Field, asc: bool)
    requires ValidTable(src.rows) && f != Unspecified
    ensures var s := Listed(src, f, asc);
            && Sorted(OrderOf(f, asc), s) && ValidTable(s) && TotalOrder(OrderOf(f, asc))
            && forall r :: r in s <==> r in src.rows && Passes(Reach(src), r)
  {
    SortedListing(Reach(src), src.rows, f, asc);
  }

  lemma DistinctCons(r: Row, rows: seq<Row>)
    requires DistinctIds(rows) && forall x | x in rows :: x.id != r.id
    ensures DistinctIds([r] + rows)
  {
  }

  lemma {:induction false} WhereDistinct(w: Clause, rows: seq<Row>)
    requires DistinctIds(rows)
    ensures DistinctIds(Where(w, rows))
  {
    if rows != [] {
      WhereDistinct(w, rows[1..]);
      WhereMembers(w, rows[1..]);
      DistinctCons(rows[0], Where(w, rows[1..]));
      assert [] + Where(w, rows[1..]) == Where(w, rows[1..]);
    }
  }

  /** The pasted WHERE clause is what the query can reach, and the threshold with its exceptions. */
  lemma WhereClausePasses(src: Source, threshold: seq<Condition>, r: Row)
    requires src.candidates != Some([])
    ensures Passes(WhereClause(src.filter, src.candidates, threshold), r) <==>
            Passes(Reach(src), r) && Passes(Clause(src.Always(), threshold), r)
  {
    var cands := if src.candidates.Some? then [IdIn(src.candidates.value)] else [];
    AllHoldConcat(cands, threshold, r);
    assert cands + [] == cands;
    if src.filter.Some? {
      var f := src.filter.value;
      AllHoldConcat([IdIn(f.last)], cands + threshold, r);
      AllHoldConcat([IdIn(f.last)], cands, r);
    }
  }

  /** It is what the caller asks for, unless an earlier operand reaches outside the candidates. */
  lemma ReachPasses(src: Source, r: Row)
    ensures Passes(Reach(src), r) <==>
            || Passes(Selection(src), r)
            || (src.candidates != Some([]) && r.id in src.Always())
  {
    var cands := if src.candidates.Some? then [IdIn(src.candidates.value)] else [];
    if src.candidates.Some? { AllHoldOne(cands[0], r); }
    AllHoldOne(IdIn([]), r);
    assert cands + [] == cands;
    if src.filter.Some? {
      var f := src.filter.value;
      AllHoldOne(IdIn(f.last), r);
      AllHoldOne(IdIn(f.earlier + f.last), r);
      AllHoldConcat([IdIn(f.last)], cands, r);
      AllHoldConcat([IdIn(f.earlier + f.last)], cands, r);
    } else {
      AllHoldConcat([], cands, r);
    }
  }

  lemma SameWhere(v: Clause, w: Clause, rows: seq<Row>)
    requires forall r | r in rows :: Passes(v, r) <==> Passes(w, r)
    ensures Where(v, rows) == Where(w, rows)
  {
  }

  /** The pages are taken from what the caller asked for if and only if the filter stays within the candidates. */
  lemma ListedIsListing(src: Source, f: Field, asc: bool)
    requires ValidTable(src.rows) && f != Unspecified
    ensures Listed(src, f, asc) == Listing(src, f, asc) <==> WithinCandidates(src)
  {
    hide Where, Passes, Sort, Selection, Reach;
    forall r ensures Passes(Reach(src), r) <==>
                     Passes(Selection(src), r) || (src.candidates != Some([]) && r.id in src.Always())
    {
      ReachPasses(src, r);
    }
    SortedListing(Selection(src), src.rows, f, asc);
    SortedListing(Reach(src), src.rows, f, asc);
    if WithinCandidates(src) {
      forall r | r in src.rows ensures Passes(Reach(src), r) <==> Passes(Selection(src), r) {
        if src.candidates != Some([]) && r.id in src.Always() { AlwaysSelected(src, r); }
      }
      SameWhere(Reach(src), Selection(src), src.rows);
    } else {
      var r :| r in src.rows && r.id in src.Always() && r.id !in src.candidates.value;
      NotSelected(src, r);
      assert r in Listed(src, f, asc) && r !in Listing(src, f, asc);
    }
  }

  lemma AlwaysSelected(src: Source, r: Row)
    requires r in src.rows && WithinCandidates(src) && src.candidates != Some([]) && r.id in src.Always()
    ensures Passes(Selection(src), r)
  {
    ReachPasses(src, r);
    var f := src.filter.value;
    var cands := if src.candidates.Some? then [IdIn(src.candidates.value)] else [];
    AllHoldOne(IdIn(f.earlier + f.last), r);
    AllHoldConcat([IdIn(f.earlier + f.last)], cands, r);
  }

  lemma NotSelected(src: Source, r: Row)
    requires src.candidates.Some? && r.id !in src.candidates.value
    ensures !Passes(Selection(src), r)
  {
    assert IdIn(src.candidates.value) in Selection(src).conditions;
  }

  lemma SelectFromListed(src: Source, o: Options, threshold: seq<Condition>, n: nat)
    requires ValidTable(src.rows) && o.field != Unspecified
    ensures src.candidates != Some([]) ==>
              (Select(WhereClause(src.filter, src.candidates, threshold), OrderOf(o.field, o.asc), n, src.rows) ==
               Take(n, Where(Clause(src.Always(), threshold), Listed(src, o.field, o.asc))))
    ensures src.candidates == Some([]) ==> Listed(src, o.field, o.asc) == []
  {
    var w, base := Clause(src.Always(), threshold), Reach(src);
    if src.candidates == Some([]) {
      assert IdIn([]) in base.conditions;
      WhereNone(base, src.rows);
    } else {
      forall r | r in src.rows
        ensures Passes(WhereClause(src.filter, src.candidates, threshold), r) <==> Passes(base, r) && Passes(w, r)
      {
        WhereClausePasses(src, threshold, r);
      }
      WhereTwice(WhereClause(src.filter, src.candidates, threshold), base, w, src.rows);
      WhereDistinct(base, src.rows);
      SortWhere(w, OrderOf(o.field, o.asc), Where(base, src.rows));
    }
  }

  /** The first page of the selected rows `q`. */
  function PageOf(q: seq<Row>, o: Options): Page
    requires o.field != Unspecified && 1 <= o.maxResultSize
  {
    if |q| > o.maxResultSize
    then Page(q[..o.maxResultSize], Some(NextToken(q[..o.maxResultSize], o).value))
    else Page(q, None)
  }

  lemma CutPageIsPrefix(q: seq<Row>, o: Options)
    requires o.field != Unspecified && 1 <= o.maxResultSize
    ensures CutPage(Take(o.maxResultSize + 1, q), o) == Success(PageOf(q, o))
  {
    var found := Take(o.maxResultSize + 1, q);
    assert |q| > o.maxResultSize ==> found[..|found| - 1] == q[..o.maxResultSize];
  }

  /** A page is a prefix of the listed rows that pass the threshold, or the query is refused. */
  lemma ListNodesSelects(src: Source, o: Options)
    requires ValidTable(src.rows) && o.field != Unspecified && 1 <= o.maxResultSize <= MAX_LIST_RESULT
    requires ThresholdClause(o).Success?
    ensures var w := Clause(src.Always(), ThresholdClause(o).value);
            ListNodes(src, o) == if Answered(src, o.field) then Success(PageOf(Where(w, Listed(src, o.field, o.asc)), o))
                                 else Failure(Internal)
  {
    hide Where, Sort, NextToken, CutPage, Select, Listed, Answers;
    var bigger := o.(maxResultSize := o.maxResultSize + 1);
    assert ThresholdClause(bigger) == ThresholdClause(o);
    var w := Clause(src.Always(), ThresholdClause(o).value);
    SelectFromListed(src, o, ThresholdClause(o).value, o.maxResultSize + 1);
    CutPageIsPrefix(Where(w, Listed(src, o.field, o.asc)), o);
    if src.candidates == Some([]) {
      WhereNone(w, []);
      CutPageIsPrefix([], o);
    }
  }
}
