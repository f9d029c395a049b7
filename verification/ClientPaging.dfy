/**
 The client's paging loop (MetadataStore._call_method_with_list_options in metadata_store.py) run
 against a server's pages, and the exact condition under which it returns the first rows of the
 sorted, filtered table.
 */
module ClientPaging {
  import opened Statuses
  import opened ListQuery
  import opened Paging
  import opened Resumption

  type Server = Options -> Result<Page>

  /** Where the loop is after some requests: still going, returned, or left by an exception. */
  datatype Run = Running(rows: seq<Row>) | Finished(rows: seq<Row>) | Raised(error: Status)

  function Prepend(rows: seq<Row>, r: Run): Run {
    match r
    case Running(more) => Running(rows + more)
    case Finished(more) => Finished(rows + more)
    case Raised(e) => r
  }

  /** The page size is lowered to what is still wanted. */
  function Request(p: nat, o: Options, left: Option<int>): Options {
    if left.Some? && left.value < p then o.(maxResultSize := left.value) else o
  }

  /** The loop from options `o` on, with `left` rows still wanted, for at most `n` requests. */
  function Follow(serve: Server, p: nat, o: Options, left: Option<int>, n: nat): Run
    decreases n
  {
    if n == 0 then Running([]) else
    var o' := Request(p, o, left);
    match serve(o')
    case Failure(e) => Raised(e)
    case Success(page) =>
      var left' := StillWanted(left, page);
      if (left'.Some? && left'.value <= 0) || page.token.None? then Finished(page.rows)
      else Prepend(page.rows, Follow(serve, p, o'.(token := page.token), left', n - 1))
  }

  function StillWanted(left: Option<int>, page: Page): Option<int> {
    if left.Some? then Some(left.value - |page.rows|) else None
  }

  /** The whole call: a negative limit is refused, a limit of zero means no limit. */
  function Call(serve: Server, p: nat, f: Field, asc: bool, limit: Option<int>, n: nat): Run {
    if limit.Some? && limit.value < 0 then Raised(InvalidArgument)
    else Follow(serve, p, Options(p, f, asc, None), if limit == Some(0) then None else limit, n)
  }

  /** `budget` bounds the number of requests: the loop in the source has no bound of its own. */
  method ListWithOptions(serve: Server, p: nat, f: Field, asc: bool, limit: Option<int>, budget: nat)
    returns (r: Run)
    ensures r == Call(serve, p, f, asc, limit, budget)
  {
    if limit.Some? && limit.value < 0 {
      return Raised(InvalidArgument);
    }
    var request := Options(p, f, asc, None);
    var returnSize := if limit == Some(0) then None else limit;
    var result: seq<Row> := [];
    var left := budget;
    ghost var whole := Follow(serve, p, request, returnSize, budget);
    assert whole == Prepend([], whole);
    while left > 0
      invariant whole == Prepend(result, Follow(serve, p, request, returnSize, left))
    {
      if returnSize.Some? && returnSize.value < p {
        request := request.(maxResultSize := returnSize.value);
      }
      var response := serve(request);
      if response.Failure? {
        return Raised(response.error);
      }
      var page := response.value;
      ghost var before := result;
      result := result + page.rows;
      if returnSize.Some? {
        returnSize := Some(returnSize.value - |page.rows|);
        if returnSize.value <= 0 {
          return Finished(result);
        }
      }
      if page.token.None? {
        return Finished(result);
      }
      request := request.(token := page.token);
      left := left - 1;
      PrependTwice(before, page.rows, Follow(serve, p, request, returnSize, left));
    }
    return Running(result);
  }

  lemma PrependTwice(a: seq<Row>, b: seq<Row>, r: Run)
    ensures Prepend(a, Prepend(b, r)) == Prepend(a + b, r)
  {
    if !r.Raised? { assert a + (b + r.rows) == (a + b) + r.rows; }
  }

  /******* The exact condition *******/

  function First(c: Scheme): Options {
    Options(c.pageSize, c.field, c.asc, None)
  }

  predicate ValidScheme(c: Scheme) {
    c.field != Unspecified && 1 <= c.pageSize <= MAX_LIST_RESULT
  }

  /** The server lists `s`: a page is the first part of the rows of `s` that pass the threshold. */
  ghost predicate Serves(serve: Server, s: seq<Row>, c: Scheme) {
    && ValidTable(s) && ListingOf(s, c)
    && forall o: Options ::
      o.field == c.field && o.asc == c.asc && 1 <= o.maxResultSize <= MAX_LIST_RESULT && ThresholdClause(o).Success? ==>
      serve(o) == Success(PageOf(Where(Clause(c.always, ThresholdClause(o).value), s), o))
  }

  function Stop(s: seq<Row>, k: nat, left: Option<int>): int {
    if left.Some? && k + left.value < |s| then k + left.value else |s|
  }

  /** The options point at position `k` of the listing, and `stop` is where the caller's wish ends. */
  predicate Aligned(s: seq<Row>, c: Scheme, o: Options, left: Option<int>, k: nat, stop: nat) {
    && ValidScheme(c) && o.maxResultSize == c.pageSize && o.field == c.field && o.asc == c.asc
    && (left.Some? ==> left.value > 0)
    && k <= stop <= |s| && stop == Stop(s, k, left)
    && if k == 0 then o.token.None?
       else c.pageSize <= k && o.token == Some(NextToken(s[k - c.pageSize..k], First(c)).value)
  }

  /** As Aligned, and the boundary at `k` is resumable. */
  predicate OnTrack(s: seq<Row>, c: Scheme, o: Options, left: Option<int>, k: nat, stop: nat) {
    Aligned(s, c, o, left, k, stop) && (k > 0 ==> Resumable(s, c, k, stop))
  }

  /** The threshold of the next request selects the listing from `k` on. */
  lemma NextRows(s: seq<Row>, c: Scheme, o: Options, left: Option<int>, k: nat, stop: nat)
    requires OnTrack(s, c, o, left, k, stop) && ValidTable(s) && ListingOf(s, c)
    ensures var t := ThresholdClause(Request(c.pageSize, o, left));
            && t.Success?
            && var w := Clause(c.always, t.value);
               Where(w, s) == s[k..stop] + Where(w, s[stop..])
  {
    hide Where, NextToken, Threshold, Passes, Sorted;
    var max := Request(c.pageSize, o, left).maxResultSize;
    if k == 0 {
      StartFrom(s, c, max);
      StartFrom(s[stop..], c, max);
      assert s == s[..stop] + s[stop..];
    } else {
      ThresholdFromToken(s, c, k, max);
      ResumeFrom(s, c, k, stop);
    }
  }

  lemma CutWithin(s: seq<Row>, k: nat, stop: nat, tail: seq<Row>, o: Options)
    requires k <= stop <= |s| && (stop == |s| ==> tail == [])
    requires o.field != Unspecified && 1 <= o.maxResultSize
    ensures var page, m := PageOf(s[k..stop] + tail, o), o.maxResultSize;
            && (k + m < stop ==> page == Page(s[k..k + m], Some(NextToken(s[k..k + m], o).value)))
            && (k + m == stop ==> page.rows == s[k..stop] && (stop == |s| ==> page.token.None?))
            && (k + m > stop == |s| ==> page == Page(s[k..stop], None))
  {
    var m := o.maxResultSize;
    if k + m <= stop { assert (s[k..stop] + tail)[..m] == s[k..k + m]; }
    if stop == |s| { assert s[k..stop] + tail == s[k..stop]; }
  }

  /** One request of a loop that is on track. */
  lemma NextPage(serve: Server, s: seq<Row>, c: Scheme, o: Options, left: Option<int>, k: nat, stop: nat)
    requires Serves(serve, s, c) && OnTrack(s, c, o, left, k, stop)
    ensures var page, p := serve(Request(c.pageSize, o, left)), c.pageSize;
            && page.Success?
            && (k + p < stop ==> page.value == Page(s[k..k + p], Some(NextToken(s[k..k + p], o).value)))
            && (k + p >= stop ==> page.value.rows == s[k..stop] &&
                                  (page.value.token.None? || left == Some(stop - k)))
  {
    hide NextToken, ThresholdClause, Resumable, Sorted;
    var o' := Request(c.pageSize, o, left);
    NextRows(s, c, o, left, k, stop);
    var w := Clause(c.always, ThresholdClause(o').value);
    var tail := Where(w, s[stop..]);
    assert stop == |s| ==> tail == [];
    hide Where;
    CutWithin(s, k, stop, tail, o');
  }

  /** The options and the number of wanted rows after a full page from position `k`. */
  lemma AfterPage(s: seq<Row>, c: Scheme, o: Options, left: Option<int>, k: nat, stop: nat)
    returns (o': Options, left': Option<int>)
    requires Aligned(s, c, o, left, k, stop) && k + c.pageSize < stop
    ensures Request(c.pageSize, o, left) == o
    ensures o' == o.(token := Some(NextToken(s[k..k + c.pageSize], o).value))
    ensures left' == if left.Some? then Some(left.value - c.pageSize) else None
    ensures left'.Some? ==> left'.value > 0
    ensures Aligned(s, c, o', left', k + c.pageSize, stop)
  {
    var p := c.pageSize;
    o' := o.(token := Some(NextToken(s[k..k + p], o).value));
    left' := if left.Some? then Some(left.value - p) else None;
    assert s[k + p - p..k + p] == s[k..k + p];
  }

  /** If every boundary is resumable, the loop returns exactly the wanted rows. */
  lemma FollowSucceeds(serve: Server, s: seq<Row>, c: Scheme, o: Options, left: Option<int>, k: nat, stop: nat)
    returns (n: nat)
    requires Serves(serve, s, c) && OnTrack(s, c, o, left, k, stop)
    requires ResumableUpTo(s, c, k, stop)
    ensures Follow(serve, c.pageSize, o, left, n) == Finished(s[k..stop])
    decreases stop - k
  {
    hide Where, NextToken, ThresholdClause, PageOf, Resumable, Serves;
    var p := c.pageSize;
    NextPage(serve, s, c, o, left, k, stop);
    if k + p < stop {
      var o', left' := AfterPage(s, c, o, left, k, stop);
      var m := FollowSucceeds(serve, s, c, o', left', k + p, stop);
      assert s[k..k + p] + s[k + p..stop] == s[k..stop];
      n := m + 1;
    } else {
      n := 1;
    }
  }

  /** The first row that is wanted from `k` on but is skipped for its id. */
  lemma FirstSkipped(s: seq<Row>, c: Scheme, k: nat, stop: nat) returns (j: nat)
    requires 0 < k <= stop <= |s| && !NoneSkipped(s, c, k, stop)
    ensures k <= j < stop && NoneSkipped(s, c, k, j)
    ensures s[j].id !in c.always && !After(c.asc, s[j].id, s[k - 1].id)
  {
    j := k;
    while s[j].id in c.always || After(c.asc, s[j].id, s[k - 1].id)
      invariant k <= j < stop && NoneSkipped(s, c, k, j)
      invariant !NoneSkipped(s, c, k, stop)
      decreases stop - j
    {
      j := j + 1;
    }
  }

  /** The rows selected after a boundary that skips row `j`. */
  lemma SkippingRows(s: seq<Row>, c: Scheme, k: nat, j: nat)
    requires ListingOf(s, c) && c.field == CreateTime && 0 < c.pageSize <= k <= j < |s|
    requires NoneAlways(s, c, k) && NoneSkipped(s, c, k, j)
    requires s[j].id !in c.always && !After(c.asc, s[j].id, s[k - 1].id)
    ensures var w := Resume(s, c, k);
            Where(w, s) == s[k..j] + Where(w, s[j + 1..]) && s[j] !in Where(w, s)
  {
    hide Sorted, Threshold, AllHold, Where, DistinctIds;
    var w := Resume(s, c, k);
    ResumeFrom(s, c, k, j);
    CreateTimePasses(s, c, k, j);
    assert !Passes(w, s[j]);
    hide Passes, Resume, NoneSkipped, NoneAlways;
    WhereNone(w, [s[j]]);
    WhereConcat(w, [s[j]], s[j + 1..]);
    assert s[j..] == [s[j]] + s[j + 1..];
    WhereMembers(w, s);
  }

  /** A page that should have shown row `j` does not. */
  lemma PageMisses(q: seq<Row>, o: Options, s: seq<Row>, k: nat, j: nat, stop: nat, rest: Run)
    requires o.field != Unspecified && 1 <= o.maxResultSize && k <= j < stop <= |s|
    requires j - k < o.maxResultSize && s[j] !in q && s[k..j] <= q
    ensures var page := PageOf(q, o);
            page.rows != s[k..stop] &&
            (page.token.Some? ==> Prepend(page.rows, rest) != Finished(s[k..stop]))
  {
    assert s[k..stop][j - k] == s[j];
    assert s[j] in s[k..stop];
  }

  /** After a CREATE_TIME boundary that skips a wanted row the loop cannot return what is wanted. */
  lemma SkipDerails(serve: Server, s: seq<Row>, c: Scheme, o: Options, left: Option<int>, k: nat, stop: nat, n: nat)
    requires Serves(serve, s, c) && Aligned(s, c, o, left, k, stop) && c.field == CreateTime
    requires 0 < k < stop && NoneAlways(s, c, k) && !NoneSkipped(s, c, k, stop)
    ensures Follow(serve, c.pageSize, o, left, n) != Finished(s[k..stop])
    decreases n, 0
  {
    hide Where, ThresholdClause, NextToken, Sorted, Threshold, NoneSkipped, NoneAlways, ValidTable, Resumable;
    var p, o' := c.pageSize, Request(c.pageSize, o, left);
    var j := FirstSkipped(s, c, k, stop);
    SkippingRows(s, c, k, j);
    ThresholdFromToken(s, c, k, o'.maxResultSize);
    var q := Where(Resume(s, c, k), s);
    if n > 0 {
      assert serve(o') == Success(PageOf(q, o'));
      hide Serves;
      var page := PageOf(q, o');
      if j - k < o'.maxResultSize {
        PageMisses(q, o', s, k, j, stop, Follow(serve, p, o'.(token := page.token), StillWanted(left, page), n - 1));
      } else {
        assert k + p < stop && |q| >= p && q[..p] == s[k..k + p];
        var o2, left' := AfterPage(s, c, o, left, k, stop);
        if page.token.Some? {
          assert StillWanted(left, page) == left';
          StillUnresumable(s, c, k, stop, j);
          Derails(serve, s, c, o2, left', k + p, stop, n - 1);
          AppendCancels(s, k, p, stop, Follow(serve, p, o2, left', n - 1));
        }
      }
    }
  }

  lemma StillUnresumable(s: seq<Row>, c: Scheme, k: nat, stop: nat, j: nat)
    requires c.field == CreateTime && 0 < c.pageSize <= k && k + c.pageSize <= j < stop <= |s|
    requires NoneSkipped(s, c, k, j) && s[j].id !in c.always && !After(c.asc, s[j].id, s[k - 1].id)
    ensures !Resumable(s, c, k + c.pageSize, stop)
  {
    var last := s[k + c.pageSize - 1];
    if last.id !in c.always {
      assert After(c.asc, last.id, s[k - 1].id);
      assert !After(c.asc, s[j].id, last.id);
    }
  }

  /** After an unresumable boundary that repeats a row the loop cannot return what is wanted. */
  lemma RepeatDerails(serve: Server, s: seq<Row>, c: Scheme, o: Options, left: Option<int>, k: nat, stop: nat, n: nat)
    requires Serves(serve, s, c) && Aligned(s, c, o, left, k, stop)
    requires 0 < k < stop && !Resumable(s, c, k, stop)
    requires c.field == CreateTime && NoneAlways(s, c, k) ==> NoneSkipped(s, c, k, stop)
    ensures Follow(serve, c.pageSize, o, left, n) != Finished(s[k..stop])
  {
    hide Where, NextToken, ThresholdClause, Threshold, Sorted, Resumable;
    var o' := Request(c.pageSize, o, left);
    ThresholdFromToken(s, c, k, o'.maxResultSize);
    Repeats(s, c, k, stop);
    var q := Where(Resume(s, c, k), s);
    if n > 0 {
      assert serve(o') == Success(PageOf(q, o'));
      var page := PageOf(q, o');
      assert page.rows[0] == q[0];
      var i :| 0 <= i < k && q[0] == s[i];
      assert s[k..stop][0] == s[k] && s[i].id != s[k].id;
    }
  }

  lemma Derails(serve: Server, s: seq<Row>, c: Scheme, o: Options, left: Option<int>, k: nat, stop: nat, n: nat)
    requires Serves(serve, s, c) && Aligned(s, c, o, left, k, stop)
    requires 0 < k < stop && !Resumable(s, c, k, stop)
    ensures Follow(serve, c.pageSize, o, left, n) != Finished(s[k..stop])
    decreases n, 1
  {
    hide Serves, NextToken, Resumable;
    if c.field == CreateTime && NoneAlways(s, c, k) && !NoneSkipped(s, c, k, stop) {
      SkipDerails(serve, s, c, o, left, k, stop, n);
    } else {
      RepeatDerails(serve, s, c, o, left, k, stop, n);
    }
  }

  /** If some boundary is not resumable, no number of requests returns the wanted rows. */
  lemma FollowFails(serve: Server, s: seq<Row>, c: Scheme, o: Options, left: Option<int>, k: nat, stop: nat, n: nat)
    requires Serves(serve, s, c) && OnTrack(s, c, o, left, k, stop)
    requires !ResumableUpTo(s, c, k, stop)
    ensures Follow(serve, c.pageSize, o, left, n) != Finished(s[k..stop])
    decreases n
  {
    hide Where, NextToken, ThresholdClause, PageOf, Serves, Resumable;
    var p := c.pageSize;
    if n > 0 {
      NextPage(serve, s, c, o, left, k, stop);
      var o', left' := AfterPage(s, c, o, left, k, stop);
      if Resumable(s, c, k + p, stop) {
        FollowFails(serve, s, c, o', left', k + p, stop, n - 1);
      } else {
        Derails(serve, s, c, o', left', k + p, stop, n - 1);
      }
      var rest := Follow(serve, p, o', left', n - 1);
      assert Follow(serve, p, o, left, n) == Prepend(s[k..k + p], rest);
      AppendCancels(s, k, p, stop, rest);
    }
  }

  lemma AppendCancels(s: seq<Row>, k: nat, p: nat, stop: nat, rest: Run)
    requires k + p <= stop <= |s| && rest != Finished(s[k + p..stop])
    ensures Prepend(s[k..k + p], rest) != Finished(s[k..stop])
  {
    if rest.Finished? {
      assert rest.rows == (s[k..k + p] + rest.rows)[p..];
      assert s[k + p..stop] == s[k..stop][p..];
    }
  }

  /** How many rows the caller wants. */
  function Wanted(s: seq<Row>, limit: Option<int>): nat {
    if limit.Some? && 0 < limit.value < |s| then limit.value else |s|
  }

  ghost predicate Returns(serve: Server, p: nat, f: Field, asc: bool, limit: Option<int>, rows: seq<Row>) {
    exists n :: Call(serve, p, f, asc, limit, n) == Finished(rows)
  }

  /** Against any server that lists `s`, the loop is exact iff every boundary is resumable. */
  lemma FollowExact(serve: Server, s: seq<Row>, c: Scheme, limit: Option<int>)
    requires Serves(serve, s, c) && ValidScheme(c) && (limit.Some? ==> limit.value >= 0)
    ensures Returns(serve, c.pageSize, c.field, c.asc, limit, s[..Wanted(s, limit)]) <==>
            ResumableUpTo(s, c, 0, Wanted(s, limit))
  {
    hide Serves;
    var stop := Wanted(s, limit);
    var left := if limit == Some(0) then None else limit;
    assert s[..stop] == s[0..stop];
    if ResumableUpTo(s, c, 0, stop) {
      var n := FollowSucceeds(serve, s, c, First(c), left, 0, stop);
      assert Call(serve, c.pageSize, c.field, c.asc, limit, n) == Finished(s[..stop]);
    } else {
      forall n: nat ensures Call(serve, c.pageSize, c.field, c.asc, limit, n) != Finished(s[..stop]) {
        FollowFails(serve, s, c, First(c), left, 0, stop, n);
      }
    }
  }

  /******* The server of Paging *******/

  function ServerOf(src: Source): Server {
    o => ListNodes(src, o)
  }

  function SchemeOf(src: Source, p: nat, f: Field, asc: bool): Scheme {
    Scheme(f, asc, p, src.Always())
  }

  lemma ListNodesServes(src: Source, p: nat, f: Field, asc: bool)
    requires ValidTable(src.rows) && Answered(src, f) && f != Unspecified
    ensures Serves(ServerOf(src), Listed(src, f, asc), SchemeOf(src, p, f, asc))
  {
    hide Sorted, Sort, Where, Listed, ListNodes, ThresholdClause, Answered;
    ListedFacts(src, f, asc);
    forall o: Options |
      o.field == f && o.asc == asc && 1 <= o.maxResultSize <= MAX_LIST_RESULT && ThresholdClause(o).Success?
      ensures ServerOf(src)(o) ==
              Success(PageOf(Where(Clause(src.Always(), ThresholdClause(o).value), Listed(src, f, asc)), o))
    {
      ListNodesSelects(src, o);
    }
  }

  /** A query that the database refuses leaves the loop by an exception. */
  lemma RefusedRaises(src: Source, p: nat, f: Field, asc: bool, limit: Option<int>, n: nat)
    requires ValidTable(src.rows) && !Answered(src, f) && f != Unspecified && 1 <= p
    requires (limit.Some? ==> limit.value >= 0) && n > 0
    ensures Call(ServerOf(src), p, f, asc, limit, n) == Raised(Internal)
  {
    hide Answers;
  }

  /**
   The client's loop over the server's tokens returns the first of the rows that the database lists, if
   and only if the database accepts the query and every page boundary below the wanted number of rows is
   resumable. Any table, filter, candidates, order field, direction, page size from 1 to 100 and limit.
   */
  lemma PagingExact(src: Source, p: nat, f: Field, asc: bool, limit: Option<int>)
    requires ValidTable(src.rows) && 1 <= p <= MAX_LIST_RESULT && f != Unspecified
    requires limit.Some? ==> limit.value >= 0
    ensures var s := Listed(src, f, asc);
            Returns(ServerOf(src), p, f, asc, limit, s[..Wanted(s, limit)]) <==>
            Answered(src, f) && ResumableUpTo(s, SchemeOf(src, p, f, asc), 0, Wanted(s, limit))
  {
    hide Listed, Answered, Call;
    var s := Listed(src, f, asc);
    if Answered(src, f) {
      ListNodesServes(src, p, f, asc);
      FollowExact(ServerOf(src), s, SchemeOf(src, p, f, asc), limit);
    } else {
      forall n: nat ensures !Call(ServerOf(src), p, f, asc, limit, n).Finished? {
        if n > 0 { RefusedRaises(src, p, f, asc, limit, n); } else { NoRequest(ServerOf(src), p, f, asc, limit); }
      }
    }
  }

  lemma NoRequest(serve: Server, p: nat, f: Field, asc: bool, limit: Option<int>)
    ensures !Call(serve, p, f, asc, limit, 0).Finished?
  {
  }

  /******* What the caller asked for *******/

  /** A token that the server hands out is accepted with the next request. */
  lemma NextRequestValid(rows: seq<Row>, o: Options)
    requires rows != [] && o.field != Unspecified
    ensures NextToken(rows, o).Success? && ThresholdClause(o.(token := Some(NextToken(rows, o).value))).Success?
  {
    BackwardIdsMembers(rows, TrailingTies(rows));
  }

  /** A row that passes every threshold is in whatever the unlimited loop returns. */
  lemma AlwaysReturned(serve: Server, s: seq<Row>, c: Scheme, o: Options, n: nat, r: Row)
    requires Serves(serve, s, c) && ValidScheme(c) && r in s && r.id in c.always
    requires o.field == c.field && o.asc == c.asc && o.maxResultSize == c.pageSize && ThresholdClause(o).Success?
    ensures var run := Follow(serve, c.pageSize, o, None, n);
            run.Finished? ==> r in run.rows
    decreases n
  {
    hide Where, ValidTable, ListingOf, NextToken, ThresholdClause;
    if n > 0 {
      var w := Clause(c.always, ThresholdClause(o).value);
      var q := Where(w, s);
      WhereMembers(w, s);
      assert r in q;
      assert serve(o) == Success(PageOf(q, o));
      if |q| > c.pageSize {
        NextRequestValid(q[..c.pageSize], o);
        AlwaysReturned(serve, s, c, o.(token := Some(NextToken(q[..c.pageSize], o).value)), n - 1, r);
      }
    }
  }

  /** A row of an OR operand other than the last is returned whether it is among the candidates or not. */
  lemma DisjunctionIgnoresCandidates(src: Source, p: nat, f: Field, asc: bool, rows: seq<Row>, r: Row)
    requires ValidTable(src.rows) && 1 <= p <= MAX_LIST_RESULT && f != Unspecified && src.candidates != Some([])
    requires r in src.rows && r.id in src.Always() && Returns(ServerOf(src), p, f, asc, None, rows)
    ensures r in rows
  {
    hide Listed, Sorted, Serves, Answered;
    var n :| Call(ServerOf(src), p, f, asc, None, n) == Finished(rows);
    if Answered(src, f) {
      ListNodesServes(src, p, f, asc);
      ListedFacts(src, f, asc);
      ReachPasses(src, r);
      var c := SchemeOf(src, p, f, asc);
      AlwaysReturned(ServerOf(src), Listed(src, f, asc), c, First(c), n, r);
    } else if n > 0 {
      RefusedRaises(src, p, f, asc, None, n);
    }
  }

  /**
   The unlimited loop returns exactly what the caller asked for if and only if the database accepts the
   query, no earlier operand of an OR reaches outside the candidates, and every boundary is resumable.
   */
  lemma ListingExact(src: Source, p: nat, f: Field, asc: bool)
    requires ValidTable(src.rows) && 1 <= p <= MAX_LIST_RESULT && f != Unspecified
    ensures var s := Listing(src, f, asc);
            Returns(ServerOf(src), p, f, asc, None, s) <==>
            && Answered(src, f) && WithinCandidates(src)
            && ResumableUpTo(s, SchemeOf(src, p, f, asc), 0, |s|)
  {
    hide Listed, Listing, Answered, ServerOf, Call, Reach, Selection;
    var s := Listing(src, f, asc);
    ListedIsListing(src, f, asc);
    PagingExact(src, p, f, asc, None);
    assert Listed(src, f, asc)[..|Listed(src, f, asc)|] == Listed(src, f, asc);
    if !WithinCandidates(src) && Returns(ServerOf(src), p, f, asc, None, s) {
      var r :| r in src.rows && r.id in src.Always() && r.id !in src.candidates.value;
      DisjunctionIgnoresCandidates(src, p, f, asc, s, r);
      SelectedOnly(src, f, asc, r);
    }
  }

  lemma SelectedOnly(src: Source, f: Field, asc: bool, r: Row)
    requires ValidTable(src.rows) && f != Unspecified && src.candidates.Some? && r.id !in src.candidates.value
    ensures r !in Listing(src, f, asc)
  {
    SortedListing(Selection(src), src.rows, f, asc);
    NotSelected(src, r);
  }
}
