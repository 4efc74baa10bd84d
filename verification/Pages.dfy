/** Cursor pagination: what following `next_cursor` from the first page to the last one yields. */
module Pages {
  import opened Types

  datatype Row = Row(listing: EnrichedListing, updatedAt: Time)

  datatype StatusFilter = Enriched | Partial

  predicate Admits(row: Row, before: Option<Time>, status: Option<StatusFilter>) {
    && (before.Some? ==> row.updatedAt < before.value)
    && (status == Some(Enriched) ==> row.listing.IsFullyEnriched())
    && (status == Some(Partial) ==> !row.listing.IsFullyEnriched())
  }

  function Cap(limit: int): nat { if limit < 1 then 1 else if limit > 100 then 100 else limit }

  ghost predicate Descending(rows: seq<Row>) {
    forall i, j :: 0 <= i < j < |rows| ==> rows[i].updatedAt >= rows[j].updatedAt
  }

  /** The rows a query is about, in order. */
  function Matching(rows: seq<Row>, before: Option<Time>, status: Option<StatusFilter>): (m: seq<Row>)
    ensures |m| <= |rows|
    ensures forall row :: row in m <==> row in rows && Admits(row, before, status)
  {
    if rows == [] then []
    else if Admits(rows[0], before, status) then [rows[0]] + Matching(rows[1..], before, status)
    else Matching(rows[1..], before, status)
  }

  lemma {:induction false} MatchingDescends(rows: seq<Row>, before: Option<Time>, status: Option<StatusFilter>)
    requires Descending(rows)
    ensures Descending(Matching(rows, before, status))
    decreases |rows|
  {
    if rows != [] {
      var rest := Matching(rows[1..], before, status);
      MatchingDescends(rows[1..], before, status);
      forall i | 0 <= i < |rest| ensures rest[i].updatedAt <= rows[0].updatedAt {
        assert rest[i] in rest;
        assert rest[i] in rows[1..];
      }
    }
  }

  function Take(rows: seq<Row>, n: nat): seq<Row> { if |rows| <= n then rows else rows[..n] }

  /** One page. */
  function Page(rows: seq<Row>, before: Option<Time>, status: Option<StatusFilter>, limit: int): seq<Row> {
    Take(Matching(rows, before, status), Cap(limit))
  }

  /** How long a page is: everything that matches if that fits the limit, and the limit otherwise,
      where a limit above a hundred counts as a hundred and one below one as one. */
  lemma PageLength(rows: seq<Row>, before: Option<Time>, status: Option<StatusFilter>, limit: int)
    ensures var page, m := Page(rows, before, status, limit), Matching(rows, before, status);
      && page <= m
      && (1 <= limit <= 100 ==> |page| == if |m| <= limit then |m| else limit)
      && (limit > 100 ==> |page| == if |m| <= 100 then |m| else 100)
      && (limit < 1 ==> |page| == if |m| <= 1 then |m| else 1)
  {
  }

  /** The cursor a page hands on. */
  function NextCursor(page: seq<Row>): Option<Time> {
    if page == [] then None else Some(page[|page| - 1].updatedAt)
  }

  /** An older cursor asks for the rows of the newer one that are older still. */
  lemma {:induction false} Refined(rows: seq<Row>, before: Option<Time>, cursor: Time, status: Option<StatusFilter>)
    requires before.Some? ==> cursor <= before.value
    ensures Matching(rows, Some(cursor), status) == Matching(Matching(rows, before, status), Some(cursor), None)
    decreases |rows|
  {
    if rows != [] {
      Refined(rows[1..], before, cursor, status);
      var m := Matching(rows, before, status);
      if Admits(rows[0], before, status) {
        assert m[0] == rows[0] && m[1..] == Matching(rows[1..], before, status);
      }
    }
  }

  lemma {:induction false} AllMatch(rows: seq<Row>, before: Option<Time>, status: Option<StatusFilter>)
    requires forall i :: 0 <= i < |rows| ==> Admits(rows[i], before, status)
    ensures Matching(rows, before, status) == rows
    decreases |rows|
  {
    if rows != [] {
      AllMatch(rows[1..], before, status);
    }
  }

  /** In descending order the rows older than a cursor are a suffix. */
  lemma {:induction false} OlderIsSuffix(rows: seq<Row>, cursor: Time, n: nat)
    requires n <= |rows|
    requires forall i :: 0 <= i < n ==> rows[i].updatedAt >= cursor
    requires forall i :: n <= i < |rows| ==> rows[i].updatedAt < cursor
    ensures Matching(rows, Some(cursor), None) == rows[n..]
    decreases |rows|
  {
    if n == 0 {
      AllMatch(rows, Some(cursor), None);
    } else {
      var rest := rows[1..];
      assert rest[n - 1..] == rows[n..];
      assert forall i :: 0 <= i < |rest| ==> rest[i] == rows[i + 1];
      OlderIsSuffix(rest, cursor, n - 1);
    }
  }

  lemma {:induction false} OlderIsShorter(rows: seq<Row>, cursor: Time, n: nat)
    requires n <= |rows| && forall i :: 0 <= i < n ==> rows[i].updatedAt >= cursor
    ensures |Matching(rows, Some(cursor), None)| <= |rows| - n
    decreases |rows|
  {
    if n > 0 {
      assert forall i :: 0 <= i < n - 1 ==> rows[1..][i] == rows[i + 1];
      OlderIsShorter(rows[1..], cursor, n - 1);
    }
  }

  /** The last row of a page bounds the page from below. */
  lemma PageAboveCursor(rows: seq<Row>, before: Option<Time>, status: Option<StatusFilter>, limit: int)
    requires Page(rows, before, status, limit) != []
    ensures var cursor := NextCursor(Page(rows, before, status, limit)).value;
      && (before.Some? ==> cursor < before.value)
      && |Matching(rows, Some(cursor), status)| < |Matching(rows, before, status)|
  {
    var m := Matching(rows, before, status);
    var page := Page(rows, before, status, limit);
    var last := page[|page| - 1];
    assert last in m;
    Refined(rows, before, last.updatedAt, status);
    Dropped(m, last);
  }

  lemma {:induction false} Dropped(rows: seq<Row>, row: Row)
    requires row in rows
    ensures |Matching(rows, Some(row.updatedAt), None)| < |rows|
    decreases |rows|
  {
    if rows[0] != row {
      Dropped(rows[1..], row);
    }
  }

  /** The rows a client sees that follows cursors until a page is empty. The cursors strictly
      decrease, so it stops. */
  ghost function Walk(rows: seq<Row>, before: Option<Time>, status: Option<StatusFilter>, limit: int): seq<Row>
    decreases |Matching(rows, before, status)|
  {
    var page := Page(rows, before, status, limit);
    var cursor := NextCursor(page);
    if cursor.None? then []
    else
      PageAboveCursor(rows, before, status, limit);
      page + Walk(rows, cursor, status, limit)
  }

  function Boundary(j: nat, size: nat): nat { j * size }

  /** No full page ends inside a group of rows with one timestamp. */
  ghost predicate CleanCuts(rows: seq<Row>, size: nat) {
    forall j: nat :: j > 0 && 0 < Boundary(j, size) < |rows| ==>
      rows[Boundary(j, size) - 1].updatedAt != rows[Boundary(j, size)].updatedAt
  }

  lemma BoundaryFacts(size: nat)
    requires size > 0
    ensures Boundary(1, size) == size
    ensures forall j: nat :: Boundary(j + 1, size) == Boundary(j, size) + size
    ensures forall j: nat :: j > 0 ==> Boundary(j, size) >= size
  {
    forall j: nat | j > 0 ensures Boundary(j, size) >= size {
      assert j * size == (j - 1) * size + size && (j - 1) * size >= 0;
    }
  }

  lemma OnePageIsClean(rows: seq<Row>, size: nat)
    requires size > 0 && |rows| <= size
    ensures CleanCuts(rows, size)
  {
    BoundaryFacts(size);
  }

  lemma CleanCutsShift(rows: seq<Row>, size: nat)
    requires 0 < size < |rows|
    ensures CleanCuts(rows, size) <==> rows[size - 1].updatedAt != rows[size].updatedAt && CleanCuts(rows[size..], size)
  {
    BoundaryFacts(size);
    var rest := rows[size..];
    if CleanCuts(rows, size) {
      forall j: nat | j > 0 && 0 < Boundary(j, size) < |rest|
        ensures rest[Boundary(j, size) - 1].updatedAt != rest[Boundary(j, size)].updatedAt
      {
        assert Boundary(j + 1, size) == Boundary(j, size) + size;
      }
    } else {
      var j: nat :| j > 0 && 0 < Boundary(j, size) < |rows| &&
        rows[Boundary(j, size) - 1].updatedAt == rows[Boundary(j, size)].updatedAt;
      if j > 1 {
        assert Boundary(j, size) == Boundary(j - 1, size) + size;
        assert Boundary(j - 1, size) > 0;
      }
    }
  }

  /** The page after `page` continues right behind it, unless rows with the page's last
      timestamp were cut off; those are lost. */
  lemma NextPageStart(m: seq<Row>, n: nat)
    requires Descending(m) && 0 < n <= |m|
    ensures var rest := Matching(m, Some(m[n - 1].updatedAt), None);
      && |rest| <= |m| - n
      && (if n < |m| && m[n].updatedAt == m[n - 1].updatedAt then |rest| < |m| - n else rest == m[n..])
  {
    var cursor := m[n - 1].updatedAt;
    if n < |m| && m[n].updatedAt == cursor {
      OlderIsShorter(m, cursor, n + 1);
    } else {
      OlderIsSuffix(m, cursor, n);
    }
  }

  lemma NextPageIsBehind(rows: seq<Row>, before: Option<Time>, status: Option<StatusFilter>, limit: int)
    requires Descending(rows) && Page(rows, before, status, limit) != []
    ensures var page := Page(rows, before, status, limit);
      |page| + |Matching(rows, NextCursor(page), status)| <= |Matching(rows, before, status)|
  {
    var page := Page(rows, before, status, limit);
    PageAboveCursor(rows, before, status, limit);
    Refined(rows, before, NextCursor(page).value, status);
    MatchingDescends(rows, before, status);
    NextPageStart(Matching(rows, before, status), |page|);
  }

  lemma {:induction false} WalkIsNoLonger(rows: seq<Row>, before: Option<Time>, status: Option<StatusFilter>,
                                          limit: int)
    requires Descending(rows)
    ensures |Walk(rows, before, status, limit)| <= |Matching(rows, before, status)|
    decreases |Matching(rows, before, status)|
  {
    var page := Page(rows, before, status, limit);
    if page != [] {
      NextPageIsBehind(rows, before, status, limit);
      WalkIsNoLonger(rows, NextCursor(page), status, limit);
    }
  }

  /** Exactly when following the cursors yields every matching row, once each and in order:
      when no full page ends between two rows with the same timestamp. */
  lemma {:induction false} WalkIsCompleteIff(rows: seq<Row>, before: Option<Time>, status: Option<StatusFilter>,
                                             limit: int)
    requires Descending(rows)
    ensures Walk(rows, before, status, limit) == Matching(rows, before, status) <==>
      CleanCuts(Matching(rows, before, status), Cap(limit))
    decreases |Matching(rows, before, status)|
  {
    var m, size := Matching(rows, before, status), Cap(limit);
    var page := Page(rows, before, status, limit);
    if page == [] {
      OnePageIsClean(m, size);
    } else {
      var cursor := NextCursor(page);
      PageAboveCursor(rows, before, status, limit);
      WalkIsCompleteIff(rows, cursor, status, limit);
      WalkIsNoLonger(rows, cursor, status, limit);
      Refined(rows, before, cursor.value, status);
      MatchingDescends(rows, before, status);
      NextPageStart(m, |page|);
      PageThenRest(m, page, Matching(rows, cursor, status), Walk(rows, cursor, status, limit), size);
    }
  }

  lemma PageThenRest(m: seq<Row>, page: seq<Row>, rest: seq<Row>, walked: seq<Row>, size: nat)
    requires size > 0 && m != [] && page == Take(m, size)
    requires |walked| <= |rest|
    requires walked == rest <==> CleanCuts(rest, size)
    requires var n := |page|;
      if n < |m| && m[n].updatedAt == m[n - 1].updatedAt then |rest| < |m| - n else rest == m[n..]
    ensures page + walked == m <==> CleanCuts(m, size)
  {
    if |m| <= size {
      OnePageIsClean(m, size);
      assert walked == [] && page + walked == m;
    } else {
      CleanCutsShift(m, size);
      assert m == page + m[size..];
      assert (page + walked)[size..] == walked;
    }
  }

  ghost predicate DistinctTimes(rows: seq<Row>) {
    forall i, j :: 0 <= i < j < |rows| ==> rows[i].updatedAt != rows[j].updatedAt
  }

  /** With distinct timestamps every walk is complete, whatever the limit and the filter. */
  lemma DistinctTimesWalk(rows: seq<Row>, status: Option<StatusFilter>, limit: int)
    requires Descending(rows) && DistinctTimes(rows)
    ensures Walk(rows, None, status, limit) == Matching(rows, None, status)
  {
    WalkIsCompleteIff(rows, None, status, limit);
    MatchingStaysDistinct(rows, None, status);
  }

  lemma {:induction false} MatchingStaysDistinct(rows: seq<Row>, before: Option<Time>, status: Option<StatusFilter>)
    requires DistinctTimes(rows)
    ensures DistinctTimes(Matching(rows, before, status))
    decreases |rows|
  {
    if rows != [] {
      var rest := Matching(rows[1..], before, status);
      assert DistinctTimes(rows[1..]);
      MatchingStaysDistinct(rows[1..], before, status);
      forall i | 0 <= i < |rest| ensures rest[i].updatedAt != rows[0].updatedAt {
        assert rest[i] in rest;
        var k :| 0 < k < |rows| && rows[k] == rest[i];
      }
    }
  }
}
