/**
 When a token resumes a listing where the previous page ended. Each order field has its own test;
 `Resumable` says exactly when that test picks up the listing without loss or repetition.
 */
module Resumption {
  import opened Statuses
  import opened ListQuery
  import opened Paging

  /** What is being paged through: the order, the page size, and the ids no threshold holds back. */
  datatype Scheme = Scheme(field: Field, asc: bool, pageSize: nat, always: seq<int>)

  /** No row before position `k` slips past every threshold. */
  predicate NoneAlways(s: seq<Row>, c: Scheme, k: nat)
    requires k <= |s|
  {
    forall i | 0 <= i < k :: s[i].id !in c.always
  }

  /** A row wanted from the boundary `k` on is not skipped for its id (CREATE_TIME only). */
  predicate NoneSkipped(s: seq<Row>, c: Scheme, k: nat, stop: nat)
    requires 0 < k <= stop <= |s|
  {
    forall j | k <= j < stop :: s[j].id in c.always || After(c.asc, s[j].id, s[k - 1].id)
  }

  /**
   The page before position `k` of the listing `s` was full. The rows wanted next are those up
   to `stop`.
   */
  predicate Resumable(s: seq<Row>, c: Scheme, k: nat, stop: nat)
    requires 0 < c.pageSize <= k <= stop <= |s|
  {
    && NoneAlways(s, c, k)
    && match c.field
       case CreateTime => NoneSkipped(s, c, k, stop)
       case LastUpdateTime => k == c.pageSize || s[k - c.pageSize - 1].updated != s[k - 1].updated
       case Id => true
       case Unspecified => false
  }

  /** Every page boundary strictly between `k` and `stop` is resumable. */
  predicate ResumableUpTo(s: seq<Row>, c: Scheme, k: nat, stop: nat)
    requires 0 < c.pageSize && k <= stop <= |s|
    decreases stop - k
  {
    k + c.pageSize >= stop ||
    (Resumable(s, c, k + c.pageSize, stop) && ResumableUpTo(s, c, k + c.pageSize, stop))
  }

  /** The conditions that the token of the page before `k` puts on the next page. */
  function Threshold(s: seq<Row>, c: Scheme, k: nat): seq<Condition>
    requires c.field != Unspecified && 0 < c.pageSize <= k <= |s|
  {
    var page, last := s[k - c.pageSize..k], s[k - 1];
    match c.field
    case CreateTime =>
      [Compare(c.field, if c.asc then GreaterOrEqual else LessOrEqual, last.created)] +
      [Compare(Id, if c.asc then Greater else Less, last.id)]
    case LastUpdateTime =>
      [Compare(c.field, if c.asc then GreaterOrEqual else LessOrEqual, last.updated)] +
      [IdNotIn(BackwardIds(page, TrailingTies(page)))]
    case Id =>
      [Compare(c.field, if c.asc then Greater else Less, last.id)]
  }

  function Resume(s: seq<Row>, c: Scheme, k: nat): Clause
    requires c.field != Unspecified && 0 < c.pageSize <= k <= |s|
  {
    Clause(c.always, Threshold(s, c, k))
  }

  lemma ThresholdFromToken(s: seq<Row>, c: Scheme, k: nat, max: nat)
    requires c.field != Unspecified && 0 < c.pageSize <= k <= |s|
    ensures var t := NextToken(s[k - c.pageSize..k], Options(c.pageSize, c.field, c.asc, None)).value;
            ThresholdClause(Options(max, c.field, c.asc, Some(t))) == Success(Threshold(s, c, k))
  {
    var page := s[k - c.pageSize..k];
    assert page[c.pageSize - 1] == s[k - 1];
    BackwardIdsMembers(page, TrailingTies(page));
    assert c.field == Id ==> Threshold(s, c, k) + [] == Threshold(s, c, k);
  }

  predicate ListingOf(s: seq<Row>, c: Scheme) {
    c.field != Unspecified && Sorted(OrderOf(c.field, c.asc), s) && DistinctIds(s)
  }

  /** Sorted: a later row never has an earlier value, and ties are in id order. */
  lemma SortedAt(s: seq<Row>, c: Scheme, i: nat, j: nat)
    requires ListingOf(s, c) && i < j < |s|
    ensures After(c.asc, Column(c.field, s[j]), Column(c.field, s[i])) ||
            (Column(c.field, s[j]) == Column(c.field, s[i]) && After(c.asc, s[j].id, s[i].id))
  {
    BeforeUnfolds(OrderOf(c.field, c.asc), s[i], s[j]);
  }

  lemma CreateTimePasses(s: seq<Row>, c: Scheme, k: nat, j: nat)
    requires ListingOf(s, c) && c.field == CreateTime && 0 < c.pageSize <= k <= |s| && j < |s|
    ensures AllHold(Threshold(s, c, k), s[j]) <==> k <= j && After(c.asc, s[j].id, s[k - 1].id)
  {
    var w := Threshold(s, c, k);
    AllHoldConcat([w[0]], [w[1]], s[j]);
    AllHoldOne(w[0], s[j]);
    AllHoldOne(w[1], s[j]);
    if j < k - 1 { SortedAt(s, c, j, k - 1); }
    if k - 1 < j { SortedAt(s, c, k - 1, j); }
  }

  /** The rows listed in a token are exactly the page's rows that are tied with its last row. */
  lemma ListedIds(s: seq<Row>, c: Scheme, k: nat, j: nat)
    requires ListingOf(s, c) && c.field == LastUpdateTime && 0 < c.pageSize <= k <= |s| && j < |s|
    ensures var page := s[k - c.pageSize..k];
            s[j].id in BackwardIds(page, TrailingTies(page)) <==>
            k - c.pageSize <= j < k && s[j].updated == s[k - 1].updated
  {
    hide Sorted, BackwardIds;
    var p := c.pageSize;
    var page := s[k - p..k];
    var n := TrailingTies(page);
    BackwardIdsMembers(page, n);
    if k - p <= j < k {
      assert page[j - (k - p)] == s[j];
      if j < k - n {
        assert page[p - n - 1] == s[k - n - 1];
        SortedAt(s, c, k - n - 1, k - 1);
        if j < k - n - 1 { SortedAt(s, c, j, k - n - 1); }
      }
    }
  }

  /** What a LAST_UPDATE_TIME token lets through: all later rows, and ties from before the page. */
  lemma UpdateTimePasses(s: seq<Row>, c: Scheme, k: nat, j: nat)
    requires ListingOf(s, c) && c.field == LastUpdateTime && 0 < c.pageSize <= k <= |s| && j < |s|
    ensures AllHold(Threshold(s, c, k), s[j]) <==>
            k <= j || (j < k - c.pageSize && s[j].updated == s[k - 1].updated)
  {
    var w := Threshold(s, c, k);
    AllHoldConcat([w[0]], [w[1]], s[j]);
    AllHoldOne(w[0], s[j]);
    AllHoldOne(w[1], s[j]);
    ListedIds(s, c, k, j);
    if j < k - 1 { SortedAt(s, c, j, k - 1); }
    if k - 1 < j { SortedAt(s, c, k - 1, j); }
  }

  lemma IdPasses(s: seq<Row>, c: Scheme, k: nat, j: nat)
    requires ListingOf(s, c) && c.field == Id && 0 < c.pageSize <= k <= |s| && j < |s|
    ensures AllHold(Threshold(s, c, k), s[j]) <==> k <= j
  {
    AllHoldOne(Threshold(s, c, k)[0], s[j]);
    if j < k - 1 { SortedAt(s, c, j, k - 1); }
    if k - 1 < j { SortedAt(s, c, k - 1, j); }
  }

  /** A resumable boundary hides everything before it and shows everything wanted after it. */
  lemma ResumableRows(s: seq<Row>, c: Scheme, k: nat, stop: nat, j: nat)
    requires ListingOf(s, c) && 0 < c.pageSize <= k <= stop <= |s| && j < stop
    requires Resumable(s, c, k, stop)
    ensures Passes(Resume(s, c, k), s[j]) <==> k <= j
  {
    hide Sorted, Threshold, AllHold;
    match c.field
    case CreateTime => CreateTimePasses(s, c, k, j);
    case Id => IdPasses(s, c, k, j);
    case LastUpdateTime =>
      UpdateTimePasses(s, c, k, j);
      if j < k - c.pageSize {
        SortedAt(s, c, k - c.pageSize - 1, k - 1);
        if j < k - c.pageSize - 1 { SortedAt(s, c, j, k - c.pageSize - 1); }
      }
  }

  lemma WhereFrom(w: Clause, s: seq<Row>, k: nat, stop: nat)
    requires k <= stop <= |s|
    requires forall j | 0 <= j < stop :: Passes(w, s[j]) <==> k <= j
    ensures Where(w, s) == s[k..stop] + Where(w, s[stop..])
  {
    hide Where, Passes;
    WhereNone(w, s[..k]);
    WhereAll(w, s[k..stop]);
    WhereConcat(w, s[..k], s[k..stop]);
    WhereConcat(w, s[..stop], s[stop..]);
    assert s[..k] + s[k..stop] == s[..stop];
    assert s[..stop] + s[stop..] == s;
  }

  lemma ResumeFrom(s: seq<Row>, c: Scheme, k: nat, stop: nat)
    requires ListingOf(s, c) && 0 < c.pageSize <= k <= stop <= |s|
    requires Resumable(s, c, k, stop)
    ensures var w := Resume(s, c, k);
            Where(w, s) == s[k..stop] + Where(w, s[stop..])
  {
    forall j | 0 <= j < stop
      ensures Passes(Resume(s, c, k), s[j]) <==> k <= j
    {
      ResumableRows(s, c, k, stop, j);
    }
    WhereFrom(Resume(s, c, k), s, k, stop);
  }

  /** The first request selects the whole listing. */
  lemma StartFrom(s: seq<Row>, c: Scheme, max: nat)
    requires c.field != Unspecified && ValidTable(s)
    ensures Where(Clause(c.always, ThresholdClause(Options(max, c.field, c.asc, None)).value), s) == s
  {
    WhereAll(Clause(c.always, ThresholdClause(Options(max, c.field, c.asc, None)).value), s);
  }

  /** If a row before the boundary passes, the next page starts with a row already listed. */
  lemma WhereStartsWithin(w: Clause, s: seq<Row>, k: nat, i: nat)
    requires i < k <= |s| && Passes(w, s[i])
    ensures Where(w, s) != [] && Where(w, s)[0] in s[..k]
  {
    var front := Where(w, s[..k]);
    WhereMembers(w, s[..k]);
    assert s[..k][i] in front && front[0] in front;
    WhereConcat(w, s[..k], s[k..]);
    assert s[..k] + s[k..] == s;
  }

  /** Unless a row is skipped for its id, an unresumable boundary repeats a row. */
  lemma Repeats(s: seq<Row>, c: Scheme, k: nat, stop: nat)
    requires ListingOf(s, c) && 0 < c.pageSize <= k <= stop <= |s|
    requires !Resumable(s, c, k, stop)
    requires c.field == CreateTime && NoneAlways(s, c, k) ==> NoneSkipped(s, c, k, stop)
    ensures var q := Where(Resume(s, c, k), s);
            q != [] && q[0] in s[..k]
  {
    hide Where, Threshold, Sorted;
    if !NoneAlways(s, c, k) {
      var i :| 0 <= i < k && s[i].id in c.always;
      WhereStartsWithin(Resume(s, c, k), s, k, i);
    } else {
      UpdateTimePasses(s, c, k, k - c.pageSize - 1);
      WhereStartsWithin(Resume(s, c, k), s, k, k - c.pageSize - 1);
    }
  }

  function UpdatedAt(t: int): Clause {
    Clause([], [Compare(LastUpdateTime, GreaterOrEqual, t), Compare(LastUpdateTime, LessOrEqual, t)])
  }

  /** If no update time is shared by more rows than fit a page, every boundary is resumable. */
  lemma TieBoundSuffices(s: seq<Row>, c: Scheme, k: nat, stop: nat)
    requires ListingOf(s, c) && c.field == LastUpdateTime && c.always == []
    requires 0 < c.pageSize && k <= stop <= |s|
    requires forall t: int :: |Where(UpdatedAt(t), s)| <= c.pageSize
    ensures ResumableUpTo(s, c, k, stop)
    decreases stop - k
  {
    hide Where, Sorted;
    var p := c.pageSize;
    if k + p < stop {
      if k > 0 {
        assert |Where(UpdatedAt(s[k - 1].updated), s)| <= p;
        if s[k - 1].updated == s[k + p - 1].updated { TiesCounted(s, c, k - 1, k + p); }
      }
      TieBoundSuffices(s, c, k + p, stop);
    }
  }

  lemma TiesCounted(s: seq<Row>, c: Scheme, i: nat, j: nat)
    requires ListingOf(s, c) && c.field == LastUpdateTime
    requires i < j <= |s| && s[i].updated == s[j - 1].updated
    ensures |Where(UpdatedAt(s[i].updated), s)| >= j - i
  {
    hide Where, Sorted;
    var w := UpdatedAt(s[i].updated);
    forall r | r in s[i..j] ensures Passes(w, r) {
      var m :| i <= m < j && r == s[m];
      if i < m { SortedAt(s, c, i, m); }
      if m < j - 1 { SortedAt(s, c, m, j - 1); }
    }
    WhereCounts(w, s, i, j);
  }

  lemma WhereCounts(w: Clause, s: seq<Row>, i: nat, j: nat)
    requires i <= j <= |s| && forall r | r in s[i..j] :: Passes(w, r)
    ensures |Where(w, s)| >= j - i
  {
    hide Where, Passes;
    WhereAll(w, s[i..j]);
    WhereConcat(w, s[..i], s[i..j]);
    WhereConcat(w, s[..j], s[j..]);
    assert s[..i] + s[i..j] == s[..j] && s[..j] + s[j..] == s;
  }
}
