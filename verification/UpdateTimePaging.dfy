/**
 When LAST_UPDATE_TIME paging ends. A token lists only the ties on its own page, so a tie of two
 pages or more comes round again and again.
 */
module UpdateTimePaging {
  import opened Statuses
  import opened ListQuery
  import opened Paging
  import opened Resumption
  import opened ClientPaging
  import opened PagingProperties

  /** Two pages of rows with one update time, and a row after them. */
  predicate Stuck(s: seq<Row>, p: nat) {
    p > 0 && exists j :: 0 <= j && j + 2 * p < |s| && s[j].updated == s[j + 2 * p - 1].updated
  }

  /******* Counting *******/

  function IdsOf(rows: seq<Row>): set<int> {
    set r | r in rows :: r.id
  }

  function Members(ids: seq<int>): set<int> {
    set i | i in ids
  }

  lemma IdsOfSize(rows: seq<Row>)
    requires DistinctIds(rows)
    ensures |IdsOf(rows)| == |rows|
  {
    if rows != [] {
      var init := rows[..|rows| - 1];
      IdsOfSize(init);
      assert rows == init + [rows[|rows| - 1]];
      assert IdsOf(rows) == IdsOf(init) + {rows[|rows| - 1].id};
    }
  }

  lemma MembersSize(ids: seq<int>)
    ensures |Members(ids)| <= |ids|
    ensures (forall i, j | 0 <= i < j < |ids| :: ids[i] != ids[j]) ==> |Members(ids)| == |ids|
  {
    if ids != [] {
      var init := ids[..|ids| - 1];
      MembersSize(init);
      assert ids == init + [ids[|ids| - 1]];
      assert Members(ids) == Members(init) + {ids[|ids| - 1]};
    }
  }

  /** How many rows are left of a table when those listed are taken out. */
  lemma LeftOver(w: Clause, rows: seq<Row>, listed: seq<int>)
    requires DistinctIds(rows) && forall r | r in rows :: Passes(w, r) <==> r.id !in listed
    ensures |Where(w, rows)| >= |rows| - |listed|
    ensures Members(listed) <= IdsOf(rows) && (forall i, j | 0 <= i < j < |listed| :: listed[i] != listed[j]) ==>
              |Where(w, rows)| == |rows| - |listed|
  {
    hide Passes;
    var q := Where(w, rows);
    WhereMembers(w, rows);
    WhereDistinct(w, rows);
    IdsOfSize(rows);
    IdsOfSize(q);
    MembersSize(listed);
    var all, out := IdsOf(rows), Members(listed);
    assert IdsOf(q) == all - out by {
      forall i | i in all && i !in out ensures i in IdsOf(q) {
        var r :| r in rows && r.id == i;
        assert r in q;
      }
    }
    assert all == (all - out) + (all * out) && |all * out| <= |out| by { SubsetSize(all * out, out); }
    if out <= all { assert all * out == out; }
  }

  lemma SubsetSize(a: set<int>, b: set<int>)
    requires a <= b
    ensures |a| <= |b|
  {
    assert b == a + (b - a);
  }

  /******* Tokens *******/

  /** The clause of a request that carries the token (`t`, `listed`). */
  function AfterToken(asc: bool, t: int, listed: seq<int>): Clause {
    Clause([], [Compare(LastUpdateTime, if asc then GreaterOrEqual else LessOrEqual, t)] + [IdNotIn(listed)])
  }

  lemma AfterTokenPasses(asc: bool, t: int, listed: seq<int>, r: Row)
    ensures Passes(AfterToken(asc, t, listed), r) <==> !After(asc, t, r.updated) && r.id !in listed
  {
    BothHold(Compare(LastUpdateTime, if asc then GreaterOrEqual else LessOrEqual, t), IdNotIn(listed), r);
  }

  predicate Asks(c: Scheme, o: Options) {
    ValidScheme(c) && c.field == LastUpdateTime && c.always == [] &&
    o.maxResultSize == c.pageSize && o.field == c.field && o.asc == c.asc
  }

  predicate HasToken(c: Scheme, o: Options) {
    Asks(c, o) && o.token.Some? && SameOrdering(o.token.value, o) && 1 <= |o.token.value.listedIds| <= c.pageSize
  }

  /** What a request selects. */
  function Selected(s: seq<Row>, o: Options): seq<Row>
    requires o.token.Some?
  {
    Where(AfterToken(o.asc, o.token.value.fieldOffset, o.token.value.listedIds), s)
  }

  /** The request that follows a page. */
  function Onward(o: Options, page: seq<Row>): Options
    requires page != []
  {
    o.(token := Some(Token(page[|page| - 1].updated, 0, BackwardIds(page, TrailingTies(page)), o.field, o.asc)))
  }

  /** What a page holds, and the token that is handed out with it. */
  function Answer(q: seq<Row>, o: Options, p: nat): Page
    requires p > 0
  {
    if |q| > p then Page(q[..p], Onward(o, q[..p]).token) else Page(q, None)
  }

  lemma Served(serve: Server, s: seq<Row>, c: Scheme, o: Options)
    requires Serves(serve, s, c) && HasToken(c, o)
    ensures serve(o) == Success(Answer(Selected(s, o), o, c.pageSize))
  {
    hide Where, ValidTable, ListingOf, TrailingTies, BackwardIds;
    var t := o.token.value;
    assert ThresholdClause(o) == Success(AfterToken(o.asc, t.fieldOffset, t.listedIds).conditions);
  }

  lemma ServedFirst(serve: Server, s: seq<Row>, c: Scheme)
    requires Serves(serve, s, c) && Asks(c, First(c))
    ensures serve(First(c)) == Success(Answer(s, First(c), c.pageSize))
  {
    hide Where, ListingOf, TrailingTies, BackwardIds;
    StartFrom(s, c, c.pageSize);
  }

  lemma TokenOf(page: seq<Row>, c: Scheme, o: Options)
    requires Asks(c, o) && |page| == c.pageSize
    ensures HasToken(c, Onward(o, page)) && |Onward(o, page).token.value.listedIds| == TrailingTies(page)
  {
    BackwardIdsMembers(page, TrailingTies(page));
  }

  lemma SameTime(s: seq<Row>, c: Scheme, i: nat, m: nat, j: nat)
    requires ListingOf(s, c) && c.field == LastUpdateTime && i <= m <= j < |s| && s[i].updated == s[j].updated
    ensures s[m].updated == s[i].updated
  {
    if i < m { SortedAt(s, c, i, m); }
    if m < j { SortedAt(s, c, m, j); }
  }

  /******* For ever *******/

  /** The token has not gone past the tie at `j`. */
  predicate Behind(s: seq<Row>, c: Scheme, o: Options, j: nat)
    requires j < |s|
  {
    HasToken(c, o) && !After(c.asc, o.token.value.fieldOffset, s[j].updated)
  }

  /** Of the two pages of the tie at least one is selected, so a page ends within it at the latest. */
  lemma TieHolds(s: seq<Row>, w: Clause, listed: seq<int>, p: nat, j: nat)
    requires DistinctIds(s) && 0 < p && j + 2 * p < |s| && |listed| <= p
    requires forall i | j <= i < |s| :: Passes(w, s[i]) <==> s[i].id !in listed
    ensures |Where(w, s)| > p && exists i :: 0 <= i < j + 2 * p && s[i] == Where(w, s)[p - 1]
  {
    hide Passes, Where;
    var a, b, d := s[..j], s[j..j + 2 * p], s[j + 2 * p..];
    LeftOver(w, b, listed);
    LeftOver(w, s[j..], listed);
    WhereConcat(w, a, s[j..]);
    WhereConcat(w, b, d);
    WhereConcat(w, a, b);
    assert a + s[j..] == s && b + d == s[j..] && a + b == s[..j + 2 * p];
    var front := Where(w, s[..j + 2 * p]);
    assert Where(w, s) == front + Where(w, d);
    WhereMembers(w, s[..j + 2 * p]);
    assert front[p - 1] in front;
  }

  predicate Tie(s: seq<Row>, p: nat, j: nat) {
    p > 0 && j + 2 * p < |s| && s[j].updated == s[j + 2 * p - 1].updated
  }

  /** Behind the tie there is always another page, and it does not get past the tie either. */
  lemma StaysBehind(s: seq<Row>, c: Scheme, o: Options, j: nat)
    requires ListingOf(s, c) && Tie(s, c.pageSize, j) && Behind(s, c, o, j)
    ensures var q, p := Selected(s, o), c.pageSize;
            |q| > p && Behind(s, c, Onward(o, q[..p]), j)
  {
    hide Where, Sorted, ValidScheme, TrailingTies, BackwardIds;
    var p, t := c.pageSize, o.token.value;
    var w, q := AfterToken(o.asc, t.fieldOffset, t.listedIds), Selected(s, o);
    forall i | j <= i < |s| ensures Passes(w, s[i]) <==> s[i].id !in t.listedIds {
      AfterTokenPasses(o.asc, t.fieldOffset, t.listedIds, s[i]);
      if j < i { SortedAt(s, c, j, i); }
    }
    hide Passes, AfterToken;
    TieHolds(s, w, t.listedIds, p, j);
    TokenOf(q[..p], c, o);
    var i :| 0 <= i < j + 2 * p && s[i] == q[p - 1];
    BeforeTieEnds(s, c, j, i);
  }

  lemma BeforeTieEnds(s: seq<Row>, c: Scheme, j: nat, i: nat)
    requires ListingOf(s, c) && c.field == LastUpdateTime && Tie(s, c.pageSize, j) && i < j + 2 * c.pageSize
    ensures !After(c.asc, s[i].updated, s[j].updated)
  {
    hide Sorted;
    if i < j { SortedAt(s, c, i, j); } else { SameTime(s, c, j, i, j + 2 * c.pageSize - 1); }
  }

  lemma RunsOn(serve: Server, s: seq<Row>, c: Scheme, o: Options, j: nat, n: nat)
    requires Serves(serve, s, c) && Tie(s, c.pageSize, j) && Behind(s, c, o, j)
    ensures Follow(serve, c.pageSize, o, None, n).Running?
    decreases n
  {
    hide Selected, Serves, Behind, TrailingTies, BackwardIds;
    if n > 0 {
      ServesListing(serve, s, c);
      assert HasToken(c, o) by { BehindHasToken(s, c, o, j); }
      Served(serve, s, c, o);
      StaysBehind(s, c, o, j);
      var q := Selected(s, o);
      RunsOn(serve, s, c, Onward(o, q[..c.pageSize]), j, n - 1);
    }
  }

  lemma BehindHasToken(s: seq<Row>, c: Scheme, o: Options, j: nat)
    requires j < |s| && Behind(s, c, o, j)
    ensures HasToken(c, o)
  {
  }

  lemma StuckRuns(serve: Server, s: seq<Row>, c: Scheme, n: nat)
    requires Serves(serve, s, c) && Asks(c, First(c)) && Stuck(s, c.pageSize)
    ensures Follow(serve, c.pageSize, First(c), None, n).Running?
  {
    hide ListingOf, Serves, TrailingTies, BackwardIds, ValidTable;
    var p, o := c.pageSize, First(c);
    var j :| 0 <= j && j + 2 * p < |s| && s[j].updated == s[j + 2 * p - 1].updated;
    if n > 0 {
      ServesListing(serve, s, c);
      ServedFirst(serve, s, c);
      TokenOf(s[..p], c, o);
      BeforeTieEnds(s, c, j, p - 1);
      RunsOn(serve, s, c, Onward(o, s[..p]), j, n - 1);
    }
  }

  lemma ServesListing(serve: Server, s: seq<Row>, c: Scheme)
    requires Serves(serve, s, c)
    ensures ListingOf(s, c) && ValidTable(s)
  {
  }

  /******* To an end *******/

  /** The token stands in the tie that starts at `a`, and lists some of its rows. */
  predicate Inside(s: seq<Row>, c: Scheme, o: Options, a: nat) {
    && HasToken(c, o) && a < |s| && (a > 0 ==> s[a - 1].updated != s[a].updated)
    && var t := o.token.value;
       && t.fieldOffset == s[a].updated
       && (forall i, j | 0 <= i < j < |t.listedIds| :: t.listedIds[i] != t.listedIds[j])
       && (forall x | x in t.listedIds :: exists i :: a <= i < |s| && s[i].id == x && s[i].updated == s[a].updated)
  }

  /** It selects the rows from `a` on that it does not list. */
  lemma InsideSelects(s: seq<Row>, c: Scheme, o: Options, a: nat)
    requires ListingOf(s, c) && Inside(s, c, o, a)
    ensures var w := AfterToken(o.asc, s[a].updated, o.token.value.listedIds);
            && Selected(s, o) == Where(w, s[a..]) && |Selected(s, o)| == |s| - a - |o.token.value.listedIds|
  {
    hide Where, Sorted;
    var t := o.token.value;
    var w := AfterToken(o.asc, t.fieldOffset, t.listedIds);
    forall i | 0 <= i < |s|
      ensures i < a ==> !Passes(w, s[i])
      ensures a <= i ==> (Passes(w, s[i]) <==> s[i].id !in t.listedIds)
    {
      AfterTokenPasses(o.asc, t.fieldOffset, t.listedIds, s[i]);
      if a < i { SortedAt(s, c, a, i); }
      if i < a {
        SortedAt(s, c, a - 1, a);
        if i < a - 1 { SortedAt(s, c, i, a - 1); }
      }
    }
    hide Passes, AfterToken;
    WhereNone(w, s[..a]);
    WhereConcat(w, s[..a], s[a..]);
    assert s[..a] + s[a..] == s;
    forall x | x in Members(t.listedIds) ensures x in IdsOf(s[a..]) {
      var i :| a <= i < |s| && s[i].id == x && s[i].updated == s[a].updated;
      assert s[a..][i - a] == s[i] && s[i] in s[a..];
    }
    LeftOver(w, s[a..], t.listedIds);
  }

  /** The start of the tie that row `i` belongs to. */
  lemma TieStart(s: seq<Row>, i: nat) returns (a: nat)
    requires i < |s|
    ensures a <= i && s[a].updated == s[i].updated && (a > 0 ==> s[a - 1].updated != s[a].updated)
    ensures forall m | a <= m <= i :: s[m].updated == s[i].updated
  {
    a := i;
    while a > 0 && s[a - 1].updated == s[a].updated
      invariant a <= i && forall m | a <= m <= i :: s[m].updated == s[i].updated
    {
      a := a - 1;
    }
  }

  lemma BackwardDistinct(rows: seq<Row>, n: nat)
    requires n <= |rows| && DistinctIds(rows)
    ensures |BackwardIds(rows, n)| == n
    ensures forall i, j | 0 <= i < j < n :: BackwardIds(rows, n)[i] != BackwardIds(rows, n)[j]
    ensures forall i | 0 <= i < n :: BackwardIds(rows, n)[i] == rows[|rows| - 1 - i].id
  {
  }

  /** The token of a full page that is part of the listing stands inside a tie. */
  lemma PageInside(s: seq<Row>, c: Scheme, o: Options, page: seq<Row>) returns (a: nat)
    requires ListingOf(s, c) && Asks(c, o) && |page| == c.pageSize && DistinctIds(page)
    requires forall r | r in page :: r in s
    ensures Inside(s, c, Onward(o, page), a)
    ensures s[a].updated == page[|page| - 1].updated
  {
    hide Sorted, BackwardIds;
    var last, n := page[|page| - 1], TrailingTies(page);
    assert last in page;
    var i :| 0 <= i < |s| && s[i] == last;
    a := TieStart(s, i);
    TokenOf(page, c, o);
    BackwardDistinct(page, n);
    var t := Onward(o, page).token.value;
    forall x | x in t.listedIds ensures exists m :: a <= m < |s| && s[m].id == x && s[m].updated == s[a].updated {
      var k :| 0 <= k < n && t.listedIds[k] == x;
      var r := page[|page| - 1 - k];
      assert r in page && r.updated == last.updated;
      var m :| 0 <= m < |s| && s[m] == r;
      if m < a {
        SortedAt(s, c, a - 1, a);
        if m < a - 1 { SortedAt(s, c, m, a - 1); }
      }
    }
  }

  /** Ids of rows of the tie at `a` that all come before position `b`. */
  lemma TieCount(s: seq<Row>, a: nat, b: nat, ids: set<int>)
    requires DistinctIds(s) && a <= b <= |s|
    requires forall x | x in ids :: exists i :: a <= i < b && s[i].id == x
    ensures |ids| <= b - a
  {
    forall x | x in ids ensures x in IdsOf(s[a..b]) {
      var i :| a <= i < b && s[i].id == x;
      assert s[a..b][i - a] == s[i] && s[i] in s[a..b];
    }
    IdsOfSize(s[a..b]);
    SubsetSize(ids, IdsOf(s[a..b]));
  }

  lemma SameStart(s: seq<Row>, c: Scheme, a: nat, b: nat)
    requires ListingOf(s, c) && c.field == LastUpdateTime && a < |s| && b < |s| && s[a].updated == s[b].updated
    requires a > 0 ==> s[a - 1].updated != s[a].updated
    requires b > 0 ==> s[b - 1].updated != s[b].updated
    ensures a == b
  {
    hide Sorted;
    if a < b { SameTime(s, c, a, b - 1, b); }
    if b < a { SameTime(s, c, b, a - 1, a); }
  }

  /** A page within the tie, after a token that lists a whole page of it: the tie has two pages. */
  lemma TwoPages(s: seq<Row>, c: Scheme, o: Options, a: nat, page: seq<Row>)
    requires ListingOf(s, c) && Inside(s, c, o, a) && |page| == c.pageSize == |o.token.value.listedIds| && DistinctIds(page)
    requires forall r | r in page :: r.id !in o.token.value.listedIds
    requires forall r | r in page :: r in s[a..] && r.updated == s[a].updated
    requires a + 2 * c.pageSize < |s|
    ensures Stuck(s, c.pageSize)
  {
    hide Sorted, ValidScheme;
    var p, listed := c.pageSize, o.token.value.listedIds;
    var b := a + 2 * p - 1;
    if s[b].updated != s[a].updated {
      forall x | x in Members(listed) ensures exists i :: a <= i < b && s[i].id == x {
        var i :| a <= i < |s| && s[i].id == x && s[i].updated == s[a].updated;
        if b < i { SameTime(s, c, a, b, i); }
      }
      forall x | x in IdsOf(page) ensures exists i :: a <= i < b && s[i].id == x {
        var r :| r in page && r.id == x;
        var i :| a <= i < |s| && s[i] == r;
        if b < i { SameTime(s, c, a, b, i); }
      }
      DisjointSize(page, listed);
      TieCount(s, a, b, IdsOf(page) + Members(listed));
    }
  }

  lemma DisjointSize(page: seq<Row>, listed: seq<int>)
    requires DistinctIds(page) && (forall i, j | 0 <= i < j < |listed| :: listed[i] != listed[j])
    requires forall r | r in page :: r.id !in listed
    ensures |IdsOf(page) + Members(listed)| == |page| + |listed|
  {
    IdsOfSize(page);
    MembersSize(listed);
    assert IdsOf(page) !! Members(listed);
  }

  /** A token that has left the tie at `a` had at most the rows up to the next tie to list. */
  lemma MovesOn(s: seq<Row>, c: Scheme, o: Options, a: nat, a': nat)
    requires ListingOf(s, c) && Inside(s, c, o, a) && a < a' < |s| && s[a'].updated != s[a].updated
    ensures |o.token.value.listedIds| <= a' - a
  {
    hide Sorted, ValidScheme;
    var listed := o.token.value.listedIds;
    MembersSize(listed);
    forall x | x in Members(listed) ensures exists i :: a <= i < a' && s[i].id == x {
      var i :| a <= i < |s| && s[i].id == x && s[i].updated == s[a].updated;
      if a' < i { SameTime(s, c, a, a', i); }
    }
    TieCount(s, a, a', Members(listed));
  }

  /** A page of a listing from `a` on that ends in the tie at `a` lies in it. */
  lemma WithinTie(s: seq<Row>, c: Scheme, a: nat, page: seq<Row>)
    requires ListingOf(s, c) && c.field == LastUpdateTime && a < |s| && page != [] && Sorted(OrderOf(c.field, c.asc), page)
    requires (forall r | r in page :: r in s[a..]) && page[|page| - 1].updated == s[a].updated
    ensures forall r | r in page :: r.updated == s[a].updated
  {
    forall r | r in page ensures r.updated == s[a].updated {
      var k :| 0 <= k < |page| && page[k] == r;
      var i :| a <= i < |s| && s[i] == r;
      if a < i { SortedAt(s, c, a, i); }
      if k < |page| - 1 { BeforeUnfolds(OrderOf(c.field, c.asc), page[k], page[|page| - 1]); }
    }
  }

  lemma AllTied(page: seq<Row>)
    requires page != [] && forall r | r in page :: r.updated == page[|page| - 1].updated
    ensures TrailingTies(page) == |page|
  {
    hide TrailingTies;
    var n := TrailingTies(page);
    assert forall i | 0 <= i < |page| :: page[i] in page;
  }

  /** Unless the table is stuck, each page leaves fewer rows to select. */
  lemma GetsOn(s: seq<Row>, c: Scheme, o: Options, a: nat) returns (a': nat)
    requires ListingOf(s, c) && Inside(s, c, o, a) && !Stuck(s, c.pageSize)
    requires |Selected(s, o)| > c.pageSize
    ensures var o' := Onward(o, Selected(s, o)[..c.pageSize]);
            Inside(s, c, o', a') && |Selected(s, o')| < |Selected(s, o)|
  {
    hide Sorted, Where, Selected, TrailingTies, BackwardIds, Stuck;
    var p, q, listed := c.pageSize, Selected(s, o), o.token.value.listedIds;
    PageFacts(s, c, o, a);
    InsideSelects(s, c, o, a);
    var page := q[..p];
    a' := PageInside(s, c, o, page);
    var o' := Onward(o, page);
    InsideSelects(s, c, o', a');
    TokenOf(page, c, o);
    if s[a'].updated == s[a].updated {
      SameStart(s, c, a, a');
      WithinTie(s, c, a, page);
      AllTied(page);
      if |listed| == p { TwoPages(s, c, o, a, page); }
    } else {
      var i :| a <= i < |s| && s[i] == page[p - 1];
      if a' < a { SameTime(s, c, a', a, i); }
      MovesOn(s, c, o, a, a');
    }
  }

  lemma PageFacts(s: seq<Row>, c: Scheme, o: Options, a: nat)
    requires ListingOf(s, c) && Inside(s, c, o, a) && |Selected(s, o)| > c.pageSize
    ensures var page := Selected(s, o)[..c.pageSize];
            && DistinctIds(page) && Sorted(OrderOf(c.field, c.asc), page)
            && (forall r | r in page :: r in s && r in s[a..] && r.id !in o.token.value.listedIds)
            && exists i :: a <= i < |s| && s[i] == page[c.pageSize - 1]
  {
    hide Where, Before;
    var p, q, listed := c.pageSize, Selected(s, o), o.token.value.listedIds;
    var w := AfterToken(o.asc, s[a].updated, listed);
    InsideSelects(s, c, o, a);
    WhereMembers(w, s[a..]);
    WhereDistinct(w, s[a..]);
    WhereSorted(w, OrderOf(c.field, c.asc), s[a..]);
    var page := q[..p];
    forall r | r in page ensures r in s && r in s[a..] && r.id !in listed {
      assert r in q;
      AfterTokenPasses(o.asc, s[a].updated, listed, r);
    }
    assert page[p - 1] in page;
  }

  lemma Ends(serve: Server, s: seq<Row>, c: Scheme, o: Options, a: nat) returns (n: nat)
    requires Serves(serve, s, c) && Inside(s, c, o, a) && !Stuck(s, c.pageSize)
    ensures Follow(serve, c.pageSize, o, None, n).Finished?
    decreases |Selected(s, o)|
  {
    hide Selected, Inside, Stuck, Serves, TrailingTies, BackwardIds;
    ServesListing(serve, s, c);
    assert HasToken(c, o) by { InsideHasToken(s, c, o, a); }
    Served(serve, s, c, o);
    if |Selected(s, o)| > c.pageSize {
      var a' := GetsOn(s, c, o, a);
      var m := Ends(serve, s, c, Onward(o, Selected(s, o)[..c.pageSize]), a');
      n := m + 1;
    } else {
      n := 1;
    }
  }

  lemma InsideHasToken(s: seq<Row>, c: Scheme, o: Options, a: nat)
    requires Inside(s, c, o, a)
    ensures HasToken(c, o)
  {
  }

  lemma EndsFromStart(serve: Server, s: seq<Row>, c: Scheme) returns (n: nat)
    requires Serves(serve, s, c) && Asks(c, First(c)) && !Stuck(s, c.pageSize)
    ensures Follow(serve, c.pageSize, First(c), None, n).Finished?
  {
    hide Sorted, Serves, Stuck, TrailingTies, BackwardIds;
    var p, o := c.pageSize, First(c);
    ServesListing(serve, s, c);
    ServedFirst(serve, s, c);
    n := 1;
    if p < |s| {
      var a := PageInside(s, c, o, s[..p]);
      var m := Ends(serve, s, c, Onward(o, s[..p]), a);
      n := m + 1;
    }
  }

  /******* The store's pages *******/

  /**
   The unlimited LAST_UPDATE_TIME loop runs for ever if and only if two pages of the listing share one
   update time and a row comes after them; otherwise it returns, if the query is accepted.
   */
  lemma UpdateTimePagingNeverEnds(src: Source, p: nat, asc: bool)
    requires PlainSource(src) && 1 <= p <= MAX_LIST_RESULT
    ensures (forall n :: Call(ServerOf(src), p, LastUpdateTime, asc, None, n).Running?) <==>
            Answered(src, LastUpdateTime) && Stuck(Listing(src, LastUpdateTime, asc), p)
    ensures (exists rows :: Returns(ServerOf(src), p, LastUpdateTime, asc, None, rows)) <==>
            Answered(src, LastUpdateTime) && !Stuck(Listing(src, LastUpdateTime, asc), p)
  {
    hide Listing, Listed, Stuck, ServerOf, Answered;
    var serve, s, c := ServerOf(src), Listing(src, LastUpdateTime, asc), SchemeOf(src, p, LastUpdateTime, asc);
    PlainListing(src, LastUpdateTime, asc);
    if !Answered(src, LastUpdateTime) {
      forall n: nat | n > 0 ensures Call(serve, p, LastUpdateTime, asc, None, n) == Raised(Internal) {
        RefusedRaises(src, p, LastUpdateTime, asc, None, n);
      }
      assert !Call(serve, p, LastUpdateTime, asc, None, 1).Running?;
    } else if Stuck(s, p) {
      ListNodesServes(src, p, LastUpdateTime, asc);
      forall n: nat ensures Call(serve, p, LastUpdateTime, asc, None, n).Running? { StuckRuns(serve, s, c, n); }
    } else {
      ListNodesServes(src, p, LastUpdateTime, asc);
      var n := EndsFromStart(serve, s, c);
      var rows := Call(serve, p, LastUpdateTime, asc, None, n).rows;
      assert Call(serve, p, LastUpdateTime, asc, None, n) == Finished(rows);
      assert Returns(serve, p, LastUpdateTime, asc, None, rows);
    }
  }
}
