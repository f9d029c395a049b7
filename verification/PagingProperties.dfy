/**
 What the exact condition of ClientPaging means for each order field: ID paging is always exact,
 CREATE_TIME paging always ends but may lose rows, LAST_UPDATE_TIME paging may repeat rows for ever;
 and what a disjunctive filter or an oversized page does to a listing.
 */
module PagingProperties {
  import opened Statuses
  import opened ListQuery
  import opened Paging
  import opened Resumption
  import opened ClientPaging

  /** The filter, if any, is not a disjunction. */
  predicate PlainSource(src: Source) {
    ValidTable(src.rows) && src.Always() == []
  }

  lemma PlainListing(src: Source, f: Field, asc: bool)
    requires PlainSource(src) && f != Unspecified
    ensures Listed(src, f, asc) == Listing(src, f, asc)
  {
    hide Listed, Listing;
    ListedIsListing(src, f, asc);
  }

  /******* ID *******/

  lemma IdsResumable(s: seq<Row>, c: Scheme, k: nat, stop: nat)
    requires 0 < c.pageSize && k <= stop <= |s| && c.field == Id && c.always == []
    ensures ResumableUpTo(s, c, k, stop)
    decreases stop - k
  {
    if k + c.pageSize < stop { IdsResumable(s, c, k + c.pageSize, stop); }
  }

  /** ID paging is exact on every table, if the query is accepted. */
  lemma IdPagingExact(src: Source, p: nat, asc: bool, limit: Option<int>)
    requires PlainSource(src) && 1 <= p <= MAX_LIST_RESULT && (limit.Some? ==> limit.value >= 0)
    ensures var s := Listing(src, Id, asc);
            Returns(ServerOf(src), p, Id, asc, limit, s[..Wanted(s, limit)]) <==> Answered(src, Id)
  {
    hide Listing, Listed, Returns, Answered;
    var s := Listing(src, Id, asc);
    PlainListing(src, Id, asc);
    IdsResumable(s, SchemeOf(src, p, Id, asc), 0, Wanted(s, limit));
    PagingExact(src, p, Id, asc, limit);
  }

  /******* LAST_UPDATE_TIME *******/

  /** LAST_UPDATE_TIME paging is exact when no update time is shared by more rows than fit a page. */
  lemma UpdateTimePagingExact(src: Source, p: nat, asc: bool, limit: Option<int>)
    requires PlainSource(src) && 1 <= p <= MAX_LIST_RESULT && (limit.Some? ==> limit.value >= 0)
    requires forall t: int :: |Where(UpdatedAt(t), Listing(src, LastUpdateTime, asc))| <= p
    ensures var s := Listing(src, LastUpdateTime, asc);
            Returns(ServerOf(src), p, LastUpdateTime, asc, limit, s[..Wanted(s, limit)]) <==> Answered(src, LastUpdateTime)
  {
    hide Listing, Listed, Where, Sorted, Returns, Answered;
    var s := Listing(src, LastUpdateTime, asc);
    PlainListing(src, LastUpdateTime, asc);
    ListedFacts(src, LastUpdateTime, asc);
    TieBoundSuffices(s, SchemeOf(src, p, LastUpdateTime, asc), 0, Wanted(s, limit));
    PagingExact(src, p, LastUpdateTime, asc, limit);
  }

  /******* CREATE_TIME *******/

  lemma WhereFewer(v: Clause, w: Clause, rows: seq<Row>)
    requires forall r | r in rows && Passes(w, r) :: Passes(v, r)
    ensures |Where(w, rows)| <= |Where(v, rows)|
    ensures (exists r :: r in rows && Passes(v, r) && !Passes(w, r)) ==> |Where(w, rows)| < |Where(v, rows)|
  {
    hide AllHold;
    if rows != [] {
      WhereFewer(v, w, rows[1..]);
      assert forall r :: r in rows <==> r == rows[0] || r in rows[1..];
    }
  }

  lemma SortedConcat(o: Order, a: seq<Row>, b: seq<Row>)
    requires Sorted(o, a) && Sorted(o, b)
    requires forall x, y | x in a && y in b :: Before(o, x, y)
    ensures Sorted(o, a + b)
  {
  }

  /** What a CREATE_TIME token lets through comes strictly after the row it was built from. */
  lemma CreateTimeAdvances(o: Options, last: Row, r: Row)
    requires o.field == CreateTime && ThresholdClause(o).Success? && AllHold(ThresholdClause(o).value, last)
    ensures var w := ThresholdClause(o.(token := Some(Token(last.created, last.id, [], CreateTime, o.asc))));
            && w.Success? && !AllHold(w.value, last)
            && (AllHold(w.value, r) ==>
                  Before(OrderOf(CreateTime, o.asc), last, r) && (o.token.Some? ==> AllHold(ThresholdClause(o).value, r)))
  {
    var w := ThresholdClause(o.(token := Some(Token(last.created, last.id, [], CreateTime, o.asc)))).value;
    BothHold(w[0], w[1], last);
    BothHold(w[0], w[1], r);
    BeforeUnfolds(OrderOf(CreateTime, o.asc), last, r);
    if o.token.Some? {
      var v := ThresholdClause(o).value;
      BothHold(v[0], v[1], last);
      BothHold(v[0], v[1], r);
    }
  }

  lemma BothHold(c: Condition, d: Condition, r: Row)
    ensures AllHold([c] + [d], r) <==> Holds(c, r) && Holds(d, r)
  {
    AllHoldConcat([c], [d], r);
    AllHoldOne(c, r);
    AllHoldOne(d, r);
  }

  function Clauses(o: Options): Clause
    requires ThresholdClause(o).Success?
  {
    Clause([], ThresholdClause(o).value)
  }

  /** One CREATE_TIME page: an ordered prefix, and a token that selects strictly fewer, later rows. */
  lemma CreateTimePage(s: seq<Row>, o: Options)
    requires ValidTable(s) && Sorted(OrderOf(CreateTime, o.asc), s)
    requires o.field == CreateTime && 1 <= o.maxResultSize && ThresholdClause(o).Success?
    ensures var page, ord := PageOf(Where(Clauses(o), s), o), OrderOf(CreateTime, o.asc);
            && Sorted(ord, page.rows)
            && (page.token.Some? ==>
                  var o' := o.(token := page.token);
                  && ThresholdClause(o').Success?
                  && |Where(Clauses(o'), s)| < |Where(Clauses(o), s)|
                  && (forall r | r in s && Passes(Clauses(o'), r) :: Passes(Clauses(o), r))
                  && forall x, r | x in page.rows && r in s && Passes(Clauses(o'), r) :: Before(ord, x, r))
  {
    hide Where, AllHold, ThresholdClause, Before;
    var ord, q := OrderOf(CreateTime, o.asc), Where(Clauses(o), s);
    WhereSorted(Clauses(o), ord, s);
    WhereMembers(Clauses(o), s);
    var page := PageOf(q, o);
    if page.token.Some? {
      var last := q[o.maxResultSize - 1];
      assert last in q;
      assert page.rows[|page.rows| - 1] == last;
      var o' := o.(token := page.token);
      CreateTimeAdvances(o, last, last);
      forall r | r in s && Passes(Clauses(o'), r)
        ensures Passes(Clauses(o), r)
        ensures forall x | x in page.rows :: Before(ord, x, r)
      {
        CreateTimeAdvances(o, last, r);
        InitialThresholdHolds(s, o, r);
        forall x | x in page.rows ensures Before(ord, x, r) {
          if x != last { BeforeTransitive(ord, x, last, r); }
        }
      }
      WhereFewer(Clauses(o), Clauses(o'), s);
    }
  }

  lemma InitialThresholdHolds(s: seq<Row>, o: Options, r: Row)
    requires ValidTable(s) && r in s && o.field != Unspecified
    ensures o.token.None? ==> AllHold(ThresholdClause(o).value, r)
  {
  }

  /** From any token the CREATE_TIME loop ends, with rows in strict (time, id) order. */
  lemma CreateTimeFollow(serve: Server, s: seq<Row>, c: Scheme, o: Options, left: Option<int>) returns (n: nat)
    requires Serves(serve, s, c) && ValidScheme(c) && c.field == CreateTime && c.always == []
    requires o.field == c.field && o.asc == c.asc && 1 <= o.maxResultSize <= MAX_LIST_RESULT
    requires (left.Some? ==> left.value > 0) && ThresholdClause(o).Success?
    ensures var run := Follow(serve, c.pageSize, o, left, n);
            && run.Finished? && Sorted(OrderOf(CreateTime, o.asc), run.rows)
            && forall r | r in run.rows :: r in s && Passes(Clauses(o), r)
    decreases |Where(Clauses(o), s)|
  {
    hide Where, Passes, NextToken, Before;
    var o' := Request(c.pageSize, o, left);
    assert ThresholdClause(o') == ThresholdClause(o);
    hide ThresholdClause;
    var page := serve(o').value;
    assert page == PageOf(Where(Clauses(o'), s), o');
    WhereMembers(Clauses(o'), s);
    CreateTimePage(s, o');
    var left' := StillWanted(left, page);
    n := 1;
    if page.token.Some? && !(left'.Some? && left'.value <= 0) {
      var next := o'.(token := page.token);
      var m := CreateTimeFollow(serve, s, c, next, left');
      var rest := Follow(serve, c.pageSize, next, left', m).rows;
      SortedConcat(OrderOf(CreateTime, o.asc), page.rows, rest);
      n := m + 1;
    }
  }

  /** CREATE_TIME paging ends on every table; its output is strictly ordered, so free of repetitions. */
  lemma CreateTimePagingEnds(src: Source, p: nat, asc: bool, limit: Option<int>)
    requires PlainSource(src) && Answered(src, CreateTime) && 1 <= p <= MAX_LIST_RESULT && (limit.Some? ==> limit.value >= 0)
    ensures exists rows :: Returns(ServerOf(src), p, CreateTime, asc, limit, rows) &&
                           Sorted(OrderOf(CreateTime, asc), rows) &&
                           forall r | r in rows :: r in Listing(src, CreateTime, asc)
  {
    hide Listing, Listed, ServerOf, Sorted, Serves, Before;
    PlainListing(src, CreateTime, asc);
    var serve, s, c := ServerOf(src), Listing(src, CreateTime, asc), SchemeOf(src, p, CreateTime, asc);
    var left := if limit == Some(0) then None else limit;
    ListNodesServes(src, p, CreateTime, asc);
    var n := CreateTimeFollow(serve, s, c, First(c), left);
    hide ThresholdClause;
    var rows := Follow(serve, p, First(c), left, n).rows;
    assert Call(serve, p, CreateTime, asc, limit, n) == Finished(rows);
    assert Returns(serve, p, CreateTime, asc, limit, rows);
  }

  /** Later rows of the listing have later ids. */
  predicate IdsFollowTime(s: seq<Row>, asc: bool) {
    forall i, j | 0 <= i < j < |s| :: After(asc, s[j].id, s[i].id)
  }

  lemma IdsFollowTimeResumable(s: seq<Row>, c: Scheme, k: nat, stop: nat)
    requires 0 < c.pageSize && k <= stop <= |s| && IdsFollowTime(s, c.asc)
    requires c.field == CreateTime && c.always == []
    ensures ResumableUpTo(s, c, k, stop)
    decreases stop - k
  {
    if k + c.pageSize < stop { IdsFollowTimeResumable(s, c, k + c.pageSize, stop); }
  }

  lemma ResumableIdsFollowTime(s: seq<Row>, c: Scheme, k: nat)
    requires c.pageSize == 1 && c.field == CreateTime && c.always == []
    requires k <= |s| && ResumableUpTo(s, c, k, |s|)
    ensures forall i, j | k <= i < j < |s| :: After(c.asc, s[j].id, s[i].id)
    decreases |s| - k
  {
    if k + 1 < |s| {
      ResumableIdsFollowTime(s, c, k + 1);
      assert Resumable(s, c, k + 1, |s|);
      assert s[k + 1 - 1] == s[k];
    }
  }

  /** CREATE_TIME paging is complete for every page size iff id order and creation order agree. */
  lemma CreateTimePagingExact(src: Source, asc: bool)
    requires PlainSource(src)
    ensures var s := Listing(src, CreateTime, asc);
            (forall p: nat | 1 <= p <= MAX_LIST_RESULT :: Returns(ServerOf(src), p, CreateTime, asc, None, s)) <==>
            Answered(src, CreateTime) && IdsFollowTime(s, asc)
  {
    hide Listing, Listed, Returns, Answered;
    var s := Listing(src, CreateTime, asc);
    PlainListing(src, CreateTime, asc);
    assert s[..|s|] == s;
    forall p: nat | 1 <= p <= MAX_LIST_RESULT
      ensures Returns(ServerOf(src), p, CreateTime, asc, None, s) <==>
              Answered(src, CreateTime) && ResumableUpTo(s, SchemeOf(src, p, CreateTime, asc), 0, |s|)
      ensures IdsFollowTime(s, asc) ==> ResumableUpTo(s, SchemeOf(src, p, CreateTime, asc), 0, |s|)
    {
      PagingExact(src, p, CreateTime, asc, None);
      if IdsFollowTime(s, asc) { IdsFollowTimeResumable(s, SchemeOf(src, p, CreateTime, asc), 0, |s|); }
    }
    var c := SchemeOf(src, 1, CreateTime, asc);
    if ResumableUpTo(s, c, 0, |s|) { ResumableIdsFollowTime(s, c, 0); }
    assert Returns(ServerOf(src), 1, CreateTime, asc, None, s) <==> Answered(src, CreateTime) && ResumableUpTo(s, c, 0, |s|);
  }

  /******* Disjunctive filters *******/

  /** A row on the first page that satisfies an operand of an OR other than the last one spoils paging. */
  lemma DisjunctionSpoilsPaging(src: Source, p: nat, f: Field, asc: bool, limit: Option<int>, i: nat)
    requires ValidTable(src.rows) && 1 <= p <= MAX_LIST_RESULT && f != Unspecified
    requires limit.Some? ==> limit.value >= 0
    requires var s := Listed(src, f, asc);
             i < p < Wanted(s, limit) && s[i].id in src.Always()
    ensures var s := Listed(src, f, asc);
            !Returns(ServerOf(src), p, f, asc, limit, s[..Wanted(s, limit)])
  {
    hide Listed, Returns;
    var s, c := Listed(src, f, asc), SchemeOf(src, p, f, asc);
    PagingExact(src, p, f, asc, limit);
    assert !NoneAlways(s, c, p);
  }

  /******* Page sizes above the cap *******/

  /** A page size above 100 cuts the listing at 101 rows and offers no way to continue. */
  lemma OversizedPage(src: Source, o: Options)
    requires ValidTable(src.rows) && Answered(src, o.field) && o.field != Unspecified && o.token.None?
    requires o.maxResultSize > MAX_LIST_RESULT
    ensures ListNodes(src, o) == Success(Page(Take(MAX_LIST_RESULT + 1, Listed(src, o.field, o.asc)), None))
  {
    hide Where, Sort, Listed, Select;
    var s, c := Listed(src, o.field, o.asc), SchemeOf(src, 1, o.field, o.asc);
    assert ThresholdClause(o.(maxResultSize := o.maxResultSize + 1)) == ThresholdClause(o);
    SelectFromListed(src, o, ThresholdClause(o).value, MAX_LIST_RESULT + 1);
    ListedFacts(src, o.field, o.asc);
    assert ThresholdClause(Options(1, o.field, o.asc, None)) == ThresholdClause(o);
    StartFrom(s, c, 1);
  }

  /** ... so it lists everything iff there are at most 101 rows. */
  lemma OversizedPagingExact(src: Source, p: nat, f: Field, asc: bool)
    requires ValidTable(src.rows) && f != Unspecified && p > MAX_LIST_RESULT
    ensures Returns(ServerOf(src), p, f, asc, None, Listed(src, f, asc)) <==>
            Answered(src, f) && |Listed(src, f, asc)| <= MAX_LIST_RESULT + 1
  {
    hide Listed, ListNodes, Answered;
    var s, o := Listed(src, f, asc), Options(p, f, asc, None);
    if Answered(src, f) {
      OversizedPage(src, o);
      assert ServerOf(src)(o) == ListNodes(src, o);
      assert forall n: nat :: n > 0 ==>
        Call(ServerOf(src), p, f, asc, None, n) == Finished(Take(MAX_LIST_RESULT + 1, s));
      assert Call(ServerOf(src), p, f, asc, None, 1) == Finished(Take(MAX_LIST_RESULT + 1, s));
    } else {
      forall n: nat ensures Call(ServerOf(src), p, f, asc, None, n) != Finished(s) {
        if n > 0 { RefusedRaises(src, p, f, asc, None, n); }
      }
    }
  }
}
