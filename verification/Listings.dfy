/** The listing store, its recency query, and the admin page over it. */
module Listings {
  import opened Types
  import opened Pages

  function Insert(row: Row, sorted: seq<Row>): seq<Row> {
    if sorted == [] || row.updatedAt > sorted[0].updatedAt then [row] + sorted
    else [sorted[0]] + Insert(row, sorted[1..])
  }

  /** Newest first; rows with the same timestamp keep their order. */
  function SortedByRecency(rows: seq<Row>): seq<Row> {
    if rows == [] then [] else Insert(rows[|rows| - 1], SortedByRecency(rows[..|rows| - 1]))
  }

  lemma {:induction false} InsertAdds(row: Row, sorted: seq<Row>)
    ensures multiset(Insert(row, sorted)) == multiset(sorted) + multiset{row}
    decreases |sorted|
  {
    if sorted != [] && row.updatedAt <= sorted[0].updatedAt {
      InsertAdds(row, sorted[1..]);
      assert sorted == [sorted[0]] + sorted[1..];
    }
  }

  lemma {:induction false} InsertKeepsOrder(row: Row, sorted: seq<Row>)
    requires Descending(sorted)
    ensures Descending(Insert(row, sorted))
    ensures sorted != [] && row.updatedAt <= sorted[0].updatedAt ==> Insert(row, sorted)[0] == sorted[0]
    decreases |sorted|
  {
    if sorted != [] && row.updatedAt <= sorted[0].updatedAt {
      var rest := Insert(row, sorted[1..]);
      InsertKeepsOrder(row, sorted[1..]);
      assert rest[0] == row || rest[0] == sorted[1];
      FirstInFront(sorted[0], rest);
    }
  }

  lemma FirstInFront(first: Row, rest: seq<Row>)
    requires Descending(rest) && (rest != [] ==> rest[0].updatedAt <= first.updatedAt)
    ensures Descending([first] + rest)
  {
    forall i | 0 <= i < |rest| ensures rest[i].updatedAt <= first.updatedAt {}
  }

  lemma {:induction false} SortedIsDescending(rows: seq<Row>)
    ensures Descending(SortedByRecency(rows))
    ensures multiset(SortedByRecency(rows)) == multiset(rows)
    decreases |rows|
  {
    if rows != [] {
      var n := |rows| - 1;
      SortedIsDescending(rows[..n]);
      InsertKeepsOrder(rows[n], SortedByRecency(rows[..n]));
      InsertAdds(rows[n], SortedByRecency(rows[..n]));
      assert rows == rows[..n] + [rows[n]];
    }
  }

  function WithTime(rows: seq<Row>, t: Time): seq<Row> {
    if rows == [] then []
    else (if rows[0].updatedAt == t then [rows[0]] else []) + WithTime(rows[1..], t)
  }

  lemma {:induction false} WithTimeAppend(rows: seq<Row>, row: Row, t: Time)
    ensures WithTime(rows + [row], t) == WithTime(rows, t) + (if row.updatedAt == t then [row] else [])
    decreases |rows|
  {
    if rows == [] {
      assert [row][1..] == [] && rows + [row] == [row];
    } else {
      assert (rows + [row])[1..] == rows[1..] + [row];
      WithTimeAppend(rows[1..], row, t);
      Regrouped(if rows[0].updatedAt == t then [rows[0]] else [], WithTime(rows[1..], t),
                if row.updatedAt == t then [row] else []);
    }
  }

  lemma Regrouped(a: seq<Row>, b: seq<Row>, c: seq<Row>)
    ensures (a + b) + c == a + (b + c)
  {
  }

  lemma {:induction false} NoneWithTime(rows: seq<Row>, t: Time)
    requires forall i :: 0 <= i < |rows| ==> rows[i].updatedAt < t
    ensures WithTime(rows, t) == []
    decreases |rows|
  {
    if rows != [] {
      NoneWithTime(rows[1..], t);
    }
  }

  lemma {:induction false} InsertIsStable(row: Row, sorted: seq<Row>, t: Time)
    requires Descending(sorted)
    ensures WithTime(Insert(row, sorted), t) == WithTime(sorted, t) + (if row.updatedAt == t then [row] else [])
    decreases |sorted|
  {
    if sorted == [] || row.updatedAt > sorted[0].updatedAt {
      assert ([row] + sorted)[1..] == sorted;
      if row.updatedAt == t {
        NoneWithTime(sorted, t);
      }
    } else {
      InsertIsStable(row, sorted[1..], t);
      assert Insert(row, sorted)[1..] == Insert(row, sorted[1..]);
    }
  }

  /** Ties keep the order of insertion. With the descending order this fixes the sort. */
  lemma {:induction false} SortIsStable(rows: seq<Row>, t: Time)
    ensures WithTime(SortedByRecency(rows), t) == WithTime(rows, t)
    decreases |rows|
  {
    if rows != [] {
      var n := |rows| - 1;
      SortIsStable(rows[..n], t);
      SortedIsDescending(rows[..n]);
      InsertIsStable(rows[n], SortedByRecency(rows[..n]), t);
      assert rows == rows[..n] + [rows[n]];
      WithTimeAppend(rows[..n], rows[n], t);
    }
  }

  lemma {:induction false} MatchingConcat(a: seq<Row>, b: seq<Row>, before: Option<Time>, status: Option<StatusFilter>)
    ensures Matching(a + b, before, status) == Matching(a, before, status) + Matching(b, before, status)
    decreases |a|
  {
    if a == [] {
      assert a + b == b;
    } else {
      assert (a + b)[1..] == a[1..] + b;
      MatchingConcat(a[1..], b, before, status);
    }
  }

  lemma MatchingNext(rows: seq<Row>, i: nat, before: Option<Time>, status: Option<StatusFilter>)
    requires i < |rows|
    ensures Matching(rows[..i + 1], before, status) ==
      Matching(rows[..i], before, status) + (if Admits(rows[i], before, status) then [rows[i]] else [])
  {
    var last := [rows[i]];
    assert rows[..i + 1] == rows[..i] + last;
    MatchingConcat(rows[..i], last, before, status);
    assert last[1..] == [];
  }

  /** Once a page is full, the rows behind do not matter. */
  lemma FullPage(rows: seq<Row>, i: nat, before: Option<Time>, status: Option<StatusFilter>, limit: int)
    requires i <= |rows| && |Matching(rows[..i], before, status)| == Cap(limit)
    ensures Page(rows, before, status, limit) == Matching(rows[..i], before, status)
  {
    assert rows == rows[..i] + rows[i..];
    MatchingConcat(rows[..i], rows[i..], before, status);
  }

  function RowsOf(order: seq<ListingId>, items: map<ListingId, EnrichedListing>,
                  updatedAt: map<ListingId, Time>): seq<Row>
    requires forall i :: 0 <= i < |order| ==> order[i] in items && order[i] in updatedAt
  {
    seq(|order|, i requires 0 <= i < |order| => Row(items[order[i]], updatedAt[order[i]]))
  }

  /** Older than the cursor, if there is one, and finished or not as asked for, if it is. */
  predicate IsWanted(row: Row, before: Option<Time>, status: Option<StatusFilter>) {
    && (before.Some? ==> row.updatedAt < before.value)
    && (status == Some(Enriched) ==> row.listing.llmDone && row.listing.cvDone)
    && (status == Some(Partial) ==> !(row.listing.llmDone && row.listing.cvDone))
  }

  /** Some of the wanted rows, newest first, none twice, and none left out that is newer. */
  ghost predicate IsNewestOf(page: seq<Row>, rows: seq<Row>, before: Option<Time>, status: Option<StatusFilter>) {
    && multiset(page) <= multiset(rows)
    && (forall row :: row in page ==> IsWanted(row, before, status))
    && (forall i, j :: 0 <= i < j < |page| ==> page[i].updatedAt >= page[j].updatedAt)
    && (forall row, i :: row in rows && row !in page && IsWanted(row, before, status) && 0 <= i < |page| ==>
          page[i].updatedAt >= row.updatedAt)
  }

  ghost predicate HoldsAll(page: seq<Row>, rows: seq<Row>, before: Option<Time>, status: Option<StatusFilter>) {
    forall row :: row in rows && IsWanted(row, before, status) ==> row in page
  }

  lemma {:induction false} MatchingIsPart(rows: seq<Row>, before: Option<Time>, status: Option<StatusFilter>)
    ensures multiset(Matching(rows, before, status)) <= multiset(rows)
    decreases |rows|
  {
    if rows != [] {
      MatchingIsPart(rows[1..], before, status);
      assert rows == [rows[0]] + rows[1..];
    }
  }

  lemma TakeIsPart(m: seq<Row>, n: nat)
    ensures Take(m, n) <= m && multiset(Take(m, n)) <= multiset(m)
    ensures |Take(m, n)| <= n && (|Take(m, n)| < n ==> Take(m, n) == m)
  {
    if |m| > n {
      assert m == m[..n] + m[n..];
    }
  }

  lemma MatchingIsWanted(rows: seq<Row>, before: Option<Time>, status: Option<StatusFilter>, row: Row)
    ensures row in Matching(SortedByRecency(rows), before, status) <==> row in rows && IsWanted(row, before, status)
  {
    SortHasTheSameRows(rows, row);
  }

  lemma RestIsOlder(m: seq<Row>, n: nat, row: Row)
    requires Descending(m) && row in m && row !in Take(m, n)
    ensures forall i :: 0 <= i < |Take(m, n)| ==> Take(m, n)[i].updatedAt >= row.updatedAt
  {
    forall j | 0 <= j < |Take(m, n)| ensures m[j] != row {
      assert m[j] == Take(m, n)[j];
    }
    var k :| 0 <= k < |m| && m[k] == row;
  }

  /** What a page of the sorted rows is, without the sort. */
  lemma PageIsNewest(rows: seq<Row>, before: Option<Time>, status: Option<StatusFilter>, n: nat)
    ensures IsNewestOf(Take(Matching(SortedByRecency(rows), before, status), n), rows, before, status)
  {
    var m := Matching(SortedByRecency(rows), before, status);
    var page := Take(m, n);
    SortedIsDescending(rows);
    MatchingDescends(SortedByRecency(rows), before, status);
    MatchingIsPart(SortedByRecency(rows), before, status);
    TakeIsPart(m, n);
    forall row ensures row in m <==> row in rows && IsWanted(row, before, status) {
      MatchingIsWanted(rows, before, status, row);
    }
    forall row | row in m && row !in page ensures forall i :: 0 <= i < |page| ==> page[i].updatedAt >= row.updatedAt {
      RestIsOlder(m, n, row);
    }
  }

  lemma ShortPageHoldsAll(rows: seq<Row>, before: Option<Time>, status: Option<StatusFilter>, n: nat)
    ensures var page := Take(Matching(SortedByRecency(rows), before, status), n);
      |page| <= n && (|page| < n ==> HoldsAll(page, rows, before, status))
  {
    TakeIsPart(Matching(SortedByRecency(rows), before, status), n);
    forall row ensures row in Matching(SortedByRecency(rows), before, status) <==>
      row in rows && IsWanted(row, before, status)
    {
      MatchingIsWanted(rows, before, status, row);
    }
  }

  /** A page for a limit: the newest wanted rows, as many as the limit says or all there are; a limit
      above a hundred counts as a hundred, and one below one as one. */
  ghost predicate IsPageFor(page: seq<Row>, rows: seq<Row>, before: Option<Time>, status: Option<StatusFilter>,
                            limit: int)
  {
    && IsNewestOf(page, rows, before, status)
    && (1 <= limit <= 100 ==> |page| <= limit && (|page| < limit ==> HoldsAll(page, rows, before, status)))
    && (limit > 100 ==> |page| <= 100 && (|page| < 100 ==> HoldsAll(page, rows, before, status)))
    && (limit < 1 ==> |page| <= 1 && (|page| < 1 ==> HoldsAll(page, rows, before, status)))
  }

  lemma PageIsForItsLimit(rows: seq<Row>, before: Option<Time>, status: Option<StatusFilter>, limit: int)
    ensures IsPageFor(Page(SortedByRecency(rows), before, status, limit), rows, before, status, limit)
  {
    PageIsNewest(rows, before, status, Cap(limit));
    ShortPageHoldsAll(rows, before, status, Cap(limit));
  }

  class InMemoryListingRepository {
    var items: map<ListingId, EnrichedListing>
    var updatedAt: map<ListingId, Time>
    /** The iteration order of `items`: a key keeps its place when it is written again. */
    var order: seq<ListingId>

    ghost predicate Valid()
      reads this
    {
      && items.Keys == updatedAt.Keys
      && (forall i :: 0 <= i < |order| ==> order[i] in items)
      && (forall id :: id in items ==> id in order && items[id].raw.externalId == id)
      && (forall i, j :: 0 <= i < j < |order| ==> order[i] != order[j])
    }

    function Rows(): seq<Row>
      requires Valid()
      reads this
    {
      RowsOf(order, items, updatedAt)
    }

    constructor ()
      ensures Valid() && Rows() == []
    {
      items, updatedAt, order := map[], map[], [];
    }

    method Upsert(listing: EnrichedListing, now: Time)
      requires Valid()
      modifies this
      ensures Valid()
      ensures items == old(items)[listing.raw.externalId := listing]
      ensures updatedAt == old(updatedAt)[listing.raw.externalId := now]
      ensures order == if listing.raw.externalId in old(items) then old(order)
        else old(order) + [listing.raw.externalId]
    {
      var id := listing.raw.externalId;
      if id !in items {
        order := order + [id];
      }
      items := items[id := listing];
      updatedAt := updatedAt[id := now];
    }

    method GetOptional(externalId: ListingId) returns (listing: Option<EnrichedListing>)
      ensures listing.Some? <==> externalId in items
      ensures listing.Some? ==> listing.value == items[externalId]
    {
      listing := if externalId in items then Some(items[externalId]) else None;
    }

    method ListRecent(limit: int, before: Option<Time>, status: Option<StatusFilter>) returns (page: seq<Row>)
      requires Valid()
      ensures page == Page(SortedByRecency(Rows()), before, status, limit)
      ensures IsPageFor(page, Rows(), before, status, limit)
    {
      page := FillPage(limit, before, status);
      PageIsForItsLimit(Rows(), before, status, limit);
    }

    /** The scan over the sorted rows. */
    method FillPage(limit: int, before: Option<Time>, status: Option<StatusFilter>) returns (page: seq<Row>)
      requires Valid()
      ensures page == Page(SortedByRecency(Rows()), before, status, limit)
    {
      var rows := SortedByRecency(Rows());
      page := [];
      var i := 0;
      while i < |rows|
        invariant 0 <= i <= |rows|
        invariant page == Matching(rows[..i], before, status) && |page| < Cap(limit)
      {
        var row := rows[i];
        MatchingNext(rows, i, before, status);
        i := i + 1;
        if before.Some? && row.updatedAt >= before.value {
          continue;
        }
        if status == Some(Enriched) && !row.listing.IsFullyEnriched() {
          continue;
        }
        if status == Some(Partial) && row.listing.IsFullyEnriched() {
          continue;
        }
        page := page + [row];
        if |page| >= Cap(limit) {
          FullPage(rows, i, before, status, limit);
          return;
        }
      }
      assert rows[..i] == rows;
    }
  }

  /** What the admin page shows of a listing. */
  datatype AdminRow = AdminRow(
    externalId: ListingId, source: string, title: Option<string>, llmDone: bool, cvDone: bool,
    askingPrice: Option<real>, updatedAt: Time)

  function AsAdminRow(row: Row): AdminRow {
    AdminRow(row.listing.raw.externalId, row.listing.raw.source, row.listing.raw.title,
             row.listing.llmDone, row.listing.cvDone, row.listing.raw.askingPrice, row.updatedAt)
  }

  predicate Shows(item: AdminRow, row: Row) {
    && item.externalId == row.listing.raw.externalId && item.source == row.listing.raw.source
    && item.title == row.listing.raw.title && item.askingPrice == row.listing.raw.askingPrice
    && item.llmDone == row.listing.llmDone && item.cvDone == row.listing.cvDone && item.updatedAt == row.updatedAt
  }

  predicate Show(items: seq<AdminRow>, rows: seq<Row>) {
    |items| == |rows| && forall i :: 0 <= i < |rows| ==> Shows(items[i], rows[i])
  }

  function AsAdminRows(rows: seq<Row>): seq<AdminRow> { seq(|rows|, i requires 0 <= i < |rows| => AsAdminRow(rows[i])) }

  class AdminService {
    const listings: InMemoryListingRepository

    constructor (repository: InMemoryListingRepository)
      ensures listings == repository
    {
      listings := repository;
    }

    method ListListings(limit: int, before: Option<Time>, status: Option<StatusFilter>)
      returns (items: seq<AdminRow>, nextCursor: Option<Time>)
      requires listings.Valid()
      ensures var page := Page(SortedByRecency(listings.Rows()), before, status, limit);
        && items == AsAdminRows(page) && nextCursor == NextCursor(page)
        && Show(items, page) && nextCursor == if page == [] then None else Some(page[|page| - 1].updatedAt)
    {
      var page := listings.ListRecent(limit, before, status);
      items := AsAdminRows(page);
      assert Show(items, page);
      nextCursor := if items == [] then None else Some(items[|items| - 1].updatedAt);
    }
  }

  ghost predicate IsStored(repository: InMemoryListingRepository, row: Row)
    requires repository.Valid()
    reads repository
  {
    var id := row.listing.raw.externalId;
    id in repository.items && row.listing == repository.items[id] && row.updatedAt == repository.updatedAt[id]
  }

  lemma RowsAreStored(repository: InMemoryListingRepository, row: Row)
    requires repository.Valid()
    ensures row in repository.Rows() <==> IsStored(repository, row)
  {
    var rows := repository.Rows();
    if row in rows {
      var i :| 0 <= i < |rows| && rows[i] == row;
      assert repository.order[i] in repository.items;
    }
    if IsStored(repository, row) {
      var id := row.listing.raw.externalId;
      assert id in repository.order;
      var i :| 0 <= i < |repository.order| && repository.order[i] == id;
      assert rows[i] == row;
    }
  }

  lemma SortHasTheSameRows(rows: seq<Row>, row: Row)
    ensures row in SortedByRecency(rows) <==> row in rows
  {
    SortedIsDescending(rows);
    assert row in SortedByRecency(rows) <==> row in multiset(SortedByRecency(rows));
    assert row in rows <==> row in multiset(rows);
  }

  lemma SortKeepsTimesDistinct(rows: seq<Row>)
    requires DistinctTimes(rows)
    ensures DistinctTimes(SortedByRecency(rows))
  {
    var sorted := SortedByRecency(rows);
    SortedIsDescending(rows);
    forall i, j | 0 <= i < j < |sorted| ensures sorted[i].updatedAt != sorted[j].updatedAt {
      if sorted[i].updatedAt == sorted[j].updatedAt {
        var t := sorted[i].updatedAt;
        SortIsStable(rows, t);
        AtLeastTwo(sorted, i, j);
        AtMostOne(rows, t);
      }
    }
  }

  lemma {:induction false} AtMostOne(rows: seq<Row>, t: Time)
    requires DistinctTimes(rows)
    ensures |WithTime(rows, t)| <= 1
    ensures (forall i :: 0 <= i < |rows| ==> rows[i].updatedAt != t) ==> WithTime(rows, t) == []
    decreases |rows|
  {
    if rows != [] {
      AtMostOne(rows[1..], t);
    }
  }

  lemma {:induction false} AtLeastTwo(rows: seq<Row>, i: nat, j: nat)
    requires i < j < |rows| && rows[i].updatedAt == rows[j].updatedAt
    ensures |WithTime(rows, rows[i].updatedAt)| >= 2
    decreases |rows|
  {
    if i > 0 {
      AtLeastTwo(rows[1..], i - 1, j - 1);
    } else {
      AtLeastOne(rows[1..], j - 1);
    }
  }

  lemma {:induction false} AtLeastOne(rows: seq<Row>, j: nat)
    requires j < |rows|
    ensures |WithTime(rows, rows[j].updatedAt)| >= 1
    decreases |rows|
  {
    if j > 0 {
      AtLeastOne(rows[1..], j - 1);
    }
  }

  /** Following the cursors of a quiet store whose timestamps are distinct yields each listing
      with the wanted status exactly once, newest first, for every limit. */
  lemma EveryListingOnce(repository: InMemoryListingRepository, status: Option<StatusFilter>, limit: int)
    requires repository.Valid() && DistinctTimes(repository.Rows())
    ensures var seen := Walk(SortedByRecency(repository.Rows()), None, status, limit);
      && Descending(seen) && DistinctTimes(seen)
      && (forall row :: row in seen <==> IsStored(repository, row) && Admits(row, None, status))
  {
    var rows := repository.Rows();
    var sorted := SortedByRecency(rows);
    SortedIsDescending(rows);
    SortKeepsTimesDistinct(rows);
    DistinctTimesWalk(sorted, status, limit);
    MatchingDescends(sorted, None, status);
    MatchingStaysDistinct(sorted, None, status);
    forall row ensures row in sorted <==> IsStored(repository, row) {
      SortHasTheSameRows(rows, row);
      RowsAreStored(repository, row);
    }
  }

  /** Writing a listing later than everything stored keeps the timestamps distinct. */
  lemma LaterWritesStayDistinct(order: seq<ListingId>, items: map<ListingId, EnrichedListing>,
                                updatedAt: map<ListingId, Time>, listing: EnrichedListing, now: Time)
    requires forall i :: 0 <= i < |order| ==> order[i] in items && order[i] in updatedAt && updatedAt[order[i]] < now
    requires forall i, j :: 0 <= i < j < |order| ==> order[i] != order[j]
    requires DistinctTimes(RowsOf(order, items, updatedAt))
    ensures var id := listing.raw.externalId;
      DistinctTimes(RowsOf(if id in order then order else order + [id], items[id := listing], updatedAt[id := now]))
  {
    var id := listing.raw.externalId;
    var rows := RowsOf(order, items, updatedAt);
    var order' := if id in order then order else order + [id];
    var rows' := RowsOf(order', items[id := listing], updatedAt[id := now]);
    forall i, j | 0 <= i < j < |rows'| ensures rows'[i].updatedAt != rows'[j].updatedAt {
      assert i < |rows| && order'[i] == order[i];
      if order'[i] != id && order'[j] != id {
        assert rows'[i].updatedAt == rows[i].updatedAt && rows'[j].updatedAt == rows[j].updatedAt;
      }
    }
  }
}
