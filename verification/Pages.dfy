/** The admin queue: paging arithmetic of the handler over the store's windows. */
module Pages {
  import opened Domain
  import opened Numerals
  import opened Ordering
  import opened Queries
  import opened Rows
  import opened Ties
  import S = Store

  /** The offset the handler computes, in 64-bit arithmetic, from the limit as it was given. */
  function Offset(page: int, limit: int): int {
    Wrap64((page - 1) * limit)
  }

  /** The product is exact as long as it fits. */
  lemma OffsetIsExactIff(page: int, limit: int)
    requires page >= 1 && limit >= 0
    ensures Offset(page, limit) == (page - 1) * limit <==> (page - 1) * limit < TWO_63
  {
    MulMonotone(0, page - 1, limit);
  }

  /** A page number that an int64 holds, and that wraps to a row inside the queue. */
  lemma OffsetWraps()
    ensures IsInt64(91_774_846_137_858_467) && Offset(91_774_846_137_858_467, 201) == 50
  {
    assert 91_774_846_137_858_466 * 201 == TWO_64 + 50;
  }

  datatype Response = Response(rows: seq<ForwardedRequest>, total: nat, limit: int, page: int)

  class Server {
    const store: S.Store

    constructor (store: S.Store)
      ensures this.store == store
    {
      this.store := store;
    }

    /** handleListRequests; `interim` is the table as others leave it between the store's two statements. */
    method HandleListRequests(limitText: string, pageText: string, f: Filter,
                              countFails: bool, interim: Table, listFails: bool, streamed: nat)
      returns (response: Option<Response>)
      modifies store
      ensures store.table == if countFails then old(store.table) else interim
      ensures response.None? <==> countFails || listFails
      ensures response.Some? ==>
                var r := response.value;
                && r.limit == AtoiOr(limitText, 50) && r.limit >= 0
                && r.page == (if AtoiOr(pageText, 1) < 1 then 1 else AtoiOr(pageText, 1))
                && r.total == |Wanted(old(store.table), f)|
                && (forall i :: 0 <= i < |r.rows| ==> IsMatch(store.table, f, r.rows[i]))
                && exists whole :: IsPage(store.table, f, r.limit, Offset(r.page, r.limit), whole)
                                   && r.rows == Take(whole, streamed)
    {
      var limit := AtoiOr(limitText, 50);
      var page := AtoiOr(pageText, 1);
      if page < 1 {
        page := 1;
      }
      var result := store.ListRequests(f, limit, Offset(page, limit), countFails, interim, listFails, streamed);
      if result.None? {
        return None;
      }
      response := Some(Response(result.value.0, result.value.1, limit, page));
    }
  }

  function Concat<T>(pages: seq<seq<T>>): seq<T> {
    if pages == [] then [] else Concat(pages[..|pages| - 1]) + pages[|pages| - 1]
  }

  /** What the handler may answer for pages 1, 2, ..., |pages| of an unchanging table when no row stream
      breaks. Nothing relates
      the orders of two pages: each statement breaks ties as it likes. */
  ghost predicate Served(t: Table, f: Filter, limit: nat, pages: seq<seq<ForwardedRequest>>) {
    forall p :: 0 <= p < |pages| ==> IsPage(t, f, limit, Offset(p + 1, limit), pages[p])
  }

  /** The pages there are to ask for: every page that starts inside the queue. With limit 0 they all
      start at its head, and any number of them is a walk. */
  predicate Walk(total: nat, limit: nat, count: nat) {
    if limit == 0 then count > 0
    else count * limit >= total && (count > 0 ==> (count - 1) * limit < total)
  }

  /** Every matching row as it stands, none twice, newest first. */
  ghost predicate IsWholeQueue(t: Table, f: Filter, rows: seq<ForwardedRequest>) {
    && (forall i :: 0 <= i < |rows| ==>
          && rows[i].requestId in Wanted(t, f)
          && rows[i] == Snapshot(rows[i].requestId, t[rows[i].requestId]))
    && (forall id :: id in Wanted(t, f) ==> exists i :: 0 <= i < |rows| && rows[i].requestId == id)
    && (forall i, j :: 0 <= i < j < |rows| ==>
          rows[i].requestId != rows[j].requestId && rows[i].createdAt >= rows[j].createdAt)
  }

  ghost predicate OnSomePage(pages: seq<seq<ForwardedRequest>>, id: string) {
    exists p, i :: 0 <= p < |pages| && 0 <= i < |pages[p]| && pages[p][i].requestId == id
  }

  ghost predicate ShowsAll(t: Table, f: Filter, pages: seq<seq<ForwardedRequest>>) {
    forall id :: id in Wanted(t, f) ==> OnSomePage(pages, id)
  }

  /** No group of rows created at the same time goes over the end of a page. */
  ghost predicate TiesWithinPages(keys: map<string, int>, limit: nat) {
    forall p: nat :: !Straddled(keys, Start(p, limit))
  }

  /** Where page p + 1 starts. */
  function Start(p: nat, limit: nat): nat {
    p * limit
  }

  /* ---- Pages put end to end ---- */

  ghost function PageOf(t: Table, f: Filter, q: seq<string>, offset: nat, limit: nat): seq<ForwardedRequest>
    requires SortedBy(QueueKeys(t, f), q)
  {
    Snapshots(t, Window(q, offset, PageLimit(limit)))
  }

  ghost function Beginning(t: Table, f: Filter, q: seq<string>, n: nat): seq<ForwardedRequest>
    requires SortedBy(QueueKeys(t, f), q)
  {
    Snapshots(t, Take(q, n))
  }

  lemma NextStart(p: nat, limit: nat)
    ensures Start(p + 1, limit) == Start(p, limit) + limit
  {
  }

  lemma WindowExtends<T>(q: seq<T>, r: seq<T>, start: nat, limit: nat)
    requires start <= |q| && start <= |r|
    ensures Take(q[..start] + r[start..], start + limit) == Take(q, start) + Window(r, start, limit)
  {
  }

  lemma PageAt(t: Table, f: Filter, limit: nat, pages: seq<seq<ForwardedRequest>>, p: nat) returns (r: seq<string>)
    requires 1 <= limit <= 200 && Served(t, f, limit, pages) && p < |pages| && Start(p, limit) < TWO_63
    ensures SortedBy(QueueKeys(t, f), r)
    ensures pages[p] == PageOf(t, f, r, Start(p, limit), limit)
  {
    assert Offset(p + 1, limit) == Start(p, limit);
    r :| SortedBy(QueueKeys(t, f), r) && pages[p] == Snapshots(t, Window(r, Start(p, limit), limit));
  }

  lemma AddPage(t: Table, f: Filter, q: seq<string>, r: seq<string>, b: nat, limit: nat)
    requires 1 <= limit <= 200 && b <= |q| && b <= |r|
    requires SortedBy(QueueKeys(t, f), q) && SortedBy(QueueKeys(t, f), r)
    requires SortedBy(QueueKeys(t, f), q[..b] + r[b..])
    ensures Beginning(t, f, q, b) + PageOf(t, f, r, b, limit) == Beginning(t, f, q[..b] + r[b..], b + limit)
  {
    hide SortedBy, QueueKeys;
    SortedInTable(t, f, q);
    SortedInTable(t, f, r);
    SortedInTable(t, f, q[..b] + r[b..]);
    WindowExtends(q, r, b, limit);
  }

  lemma SortedInTable(t: Table, f: Filter, q: seq<string>)
    requires SortedBy(QueueKeys(t, f), q)
    ensures |q| == |QueueKeys(t, f)| && forall i :: 0 <= i < |q| ==> q[i] in t
  {
    SortedSize(QueueKeys(t, f), q);
  }

  /** The next page takes over from the pages before it. */
  lemma NextPage(t: Table, f: Filter, limit: nat, q: seq<string>, b: nat, r: seq<string>) returns (s: seq<string>)
    requires SortedBy(QueueKeys(t, f), q) && SortedBy(QueueKeys(t, f), r)
    requires 1 <= limit <= 200 && b < |QueueKeys(t, f)| && !Straddled(QueueKeys(t, f), b)
    ensures SortedBy(QueueKeys(t, f), s)
    ensures Beginning(t, f, q, b) + PageOf(t, f, r, b, limit) == Beginning(t, f, s, b + limit)
  {
    hide Straddled, SortedBy, QueueKeys, Snapshots;
    SortedInTable(t, f, q);
    SortedInTable(t, f, r);
    s := q[..b] + r[b..];
    Splice(QueueKeys(t, f), q, r, b);
    AddPage(t, f, q, r, b, limit);
  }

  lemma NoPages(t: Table, f: Filter, limit: nat) returns (q: seq<string>)
    ensures SortedBy(QueueKeys(t, f), q)
    ensures Concat<ForwardedRequest>([]) == Beginning(t, f, q, Start(0, limit))
  {
    q := Enumerate(QueueKeys(t, f));
    EnumerationIsSorted(QueueKeys(t, f), q);
  }

  lemma ConcatStep<T>(pages: seq<seq<T>>)
    requires pages != []
    ensures Concat(pages) == Concat(pages[..|pages| - 1]) + pages[|pages| - 1]
  {
  }

  lemma PagesBefore(t: Table, f: Filter, limit: nat, pages: seq<seq<ForwardedRequest>>, p: nat)
    requires Served(t, f, limit, pages) && p <= |pages|
    ensures Served(t, f, limit, pages[..p])
    ensures p > 0 ==> Start(p - 1, limit) <= Start(p, limit)
  {
    if p > 0 {
      NextStart(p - 1, limit);
    }
  }

  lemma TiesAt(keys: map<string, int>, limit: nat, p: nat)
    requires TiesWithinPages(keys, limit)
    ensures !Straddled(keys, Start(p, limit))
  {
  }

  /** If no tie goes over a boundary, the pages are the beginning of one order of the query. */
  lemma {:induction false} PagesAreOneOrder(t: Table, f: Filter, limit: nat, pages: seq<seq<ForwardedRequest>>)
    returns (q: seq<string>)
    requires 1 <= limit <= 200 && Served(t, f, limit, pages) && TiesWithinPages(QueueKeys(t, f), limit)
    requires |QueueKeys(t, f)| < TWO_63
    requires pages != [] ==> Start(|pages| - 1, limit) < |QueueKeys(t, f)|
    ensures SortedBy(QueueKeys(t, f), q)
    ensures Concat(pages) == Beginning(t, f, q, Start(|pages|, limit))
  {
    hide Straddled, TiesWithinPages, SortedBy, QueueKeys, Start, Served, Beginning, PageOf, Concat;
    if pages == [] {
      q := NoPages(t, f, limit);
    } else {
      var p := |pages| - 1;
      PagesBefore(t, f, limit, pages, p);
      var q0 := PagesAreOneOrder(t, f, limit, pages[..p]);
      var r := PageAt(t, f, limit, pages, p);
      NextStart(p, limit);
      TiesAt(QueueKeys(t, f), limit, p);
      q := NextPage(t, f, limit, q0, Start(p, limit), r);
      ConcatStep(pages);
    }
  }

  /** Any order of the query is the whole queue. */
  lemma QueueInOrder(t: Table, f: Filter, q: seq<string>)
    requires SortedBy(QueueKeys(t, f), q)
    ensures IsWholeQueue(t, f, Snapshots(t, q))
  {
    QueueIsWanted(t, f);
    hide Wanted;
    var rows := Snapshots(t, q);
    forall id | id in QueueKeys(t, f) ensures exists i :: 0 <= i < |rows| && rows[i].requestId == id {
      var i :| 0 <= i < |q| && q[i] == id;
      assert rows[i].requestId == id;
    }
    forall i, j | 0 <= i < j < |rows|
      ensures rows[i].requestId != rows[j].requestId && rows[i].createdAt >= rows[j].createdAt
    {
      assert QueueKeys(t, f)[q[i]] <= QueueKeys(t, f)[q[j]];
    }
  }

  lemma PagesAreWhole(t: Table, f: Filter, limit: nat, pages: seq<seq<ForwardedRequest>>)
    requires 1 <= limit <= 200 && Served(t, f, limit, pages) && TiesWithinPages(QueueKeys(t, f), limit)
    requires |QueueKeys(t, f)| < TWO_63 && Walk(|QueueKeys(t, f)|, limit, |pages|)
    ensures IsWholeQueue(t, f, Concat(pages)) && |Concat(pages)| == |QueueKeys(t, f)|
  {
    var q := PagesAreOneOrder(t, f, limit, pages);
    SortedSize(QueueKeys(t, f), q);
    assert |q| <= Start(|pages|, limit);
    QueueInOrder(t, f, q);
  }

  /** On a fixed table with distinct creation times the pages, put end to end, are the matching rows:
      each once, newest first. */
  lemma PagesPartition(t: Table, f: Filter, limit: nat, pages: seq<seq<ForwardedRequest>>)
    requires 1 <= limit <= 200 && DistinctKeys(QueueKeys(t, f))
    requires |QueueKeys(t, f)| < TWO_63 && Walk(|QueueKeys(t, f)|, limit, |pages|)
    requires Served(t, f, limit, pages)
    ensures var rows := Concat(pages);
            && IsWholeQueue(t, f, rows) && |rows| == |QueueKeys(t, f)|
            && forall i, j :: 0 <= i < j < |rows| ==> rows[i].createdAt > rows[j].createdAt
  {
    forall p: nat ensures !Straddled(QueueKeys(t, f), Start(p, limit)) {
      DistinctNeverStraddles(QueueKeys(t, f), Start(p, limit));
    }
    PagesAreWhole(t, f, limit, pages);
    var rows := Concat(pages);
    forall i, j | 0 <= i < j < |rows| ensures rows[i].createdAt > rows[j].createdAt {
      assert QueueKeys(t, f)[rows[i].requestId] != QueueKeys(t, f)[rows[j].requestId];
    }
  }

  lemma {:induction false} ConcatMember(pages: seq<seq<ForwardedRequest>>, i: nat)
    requires i < |Concat(pages)|
    ensures OnSomePage(pages, Concat(pages)[i].requestId)
  {
    var p := |pages| - 1;
    var before := Concat(pages[..p]);
    if i < |before| {
      ConcatMember(pages[..p], i);
      var n, j :| 0 <= n < p && 0 <= j < |pages[..p][n]| && pages[..p][n][j].requestId == before[i].requestId;
      assert pages[n][j].requestId == before[i].requestId;
    } else {
      assert pages[p][i - |before|] == Concat(pages)[i];
    }
  }

  lemma WholeShowsAll(t: Table, f: Filter, pages: seq<seq<ForwardedRequest>>)
    requires IsWholeQueue(t, f, Concat(pages))
    ensures ShowsAll(t, f, pages)
  {
    hide Wanted;
    forall id | id in Wanted(t, f) ensures OnSomePage(pages, id) {
      var i :| 0 <= i < |Concat(pages)| && Concat(pages)[i].requestId == id;
      ConcatMember(pages, i);
    }
  }

  /* ---- Pages that miss a row ---- */

  lemma PlaceOf(t: Table, f: Filter, q: seq<string>, offset: nat, limit: nat, i: nat)
    requires SortedBy(QueueKeys(t, f), q) && i < |PageOf(t, f, q, offset, limit)|
    ensures i < PageLimit(limit) && (1 <= limit <= 200 ==> i < limit) && offset + i < |q|
    ensures PageOf(t, f, q, offset, limit)[i].requestId == q[offset + i]
  {
  }

  /** Pages 1, 2, ..., each from an order of its own. */
  ghost function PagesOf(t: Table, f: Filter, limit: nat, orders: seq<seq<string>>): (pages: seq<seq<ForwardedRequest>>)
    requires forall j :: 0 <= j < |orders| ==> SortedBy(QueueKeys(t, f), orders[j])
    ensures |pages| == |orders|
    ensures forall j :: 0 <= j < |orders| ==> pages[j] == PageOf(t, f, orders[j], Start(j, limit), limit)
  {
    seq(|orders|, j requires 0 <= j < |orders| => PageOf(t, f, orders[j], Start(j, limit), limit))
  }

  lemma PagesOfServed(t: Table, f: Filter, limit: nat, orders: seq<seq<string>>)
    requires forall j :: 0 <= j < |orders| ==> SortedBy(QueueKeys(t, f), orders[j])
    requires |QueueKeys(t, f)| < TWO_63 && Walk(|QueueKeys(t, f)|, limit, |orders|)
    ensures Served(t, f, limit, PagesOf(t, f, limit, orders))
  {
    var pages := PagesOf(t, f, limit, orders);
    forall j | 0 <= j < |pages| ensures IsPage(t, f, limit, Offset(j + 1, limit), pages[j]) {
      MulMonotone(j, |orders| - 1, limit);
      hide SortedBy, Snapshots, QueueKeys, Window;
      assert Offset(j + 1, limit) == Start(j, limit);
    }
  }

  /** When a tie goes over the boundary before page p + 1, that page may swap the two neighbours: it
      repeats the one before the boundary, and the one after it is on no page. */
  lemma StraddledPages(t: Table, f: Filter, limit: nat, count: nat, p: nat) returns (pages: seq<seq<ForwardedRequest>>)
    requires 1 <= limit <= 200 && |QueueKeys(t, f)| < TWO_63 && Walk(|QueueKeys(t, f)|, limit, count)
    requires Straddled(QueueKeys(t, f), Start(p, limit))
    ensures |pages| == count && Served(t, f, limit, pages) && !ShowsAll(t, f, pages)
  {
    var keys, b := QueueKeys(t, f), Start(p, limit);
    var q := Enumerate(keys);
    EnumerationIsSorted(keys, q);
    StraddledIff(keys, q, b);
    Swapped(keys, q, b);
    pages := SwappedPages(t, f, limit, count, p, q);
  }

  lemma SwappedPages(t: Table, f: Filter, limit: nat, count: nat, p: nat, q: seq<string>)
    returns (pages: seq<seq<ForwardedRequest>>)
    requires 1 <= limit <= 200 && |QueueKeys(t, f)| < TWO_63 && Walk(|QueueKeys(t, f)|, limit, count)
    requires 0 < Start(p, limit) < |q|
    requires SortedBy(QueueKeys(t, f), q) && SortedBy(QueueKeys(t, f), Swap(q, Start(p, limit)))
    ensures |pages| == count && Served(t, f, limit, pages) && !ShowsAll(t, f, pages)
  {
    hide SortedBy, QueueKeys, Wanted, Served, Walk, PageOf, Start;
    var b := Start(p, limit);
    var orders := seq(count, j => if j == p then Swap(q, b) else q);
    PagesOfServed(t, f, limit, orders);
    pages := PagesOf(t, f, limit, orders);
    SortedPair(QueueKeys(t, f), q, b, b);
    forall j: nat, i: nat | j < count && i < |pages[j]| ensures pages[j][i].requestId != q[b] {
      PlaceOf(t, f, orders[j], Start(j, limit), limit, i);
      AwayFrom(j, i, p, limit);
      DistinctPlaces(QueueKeys(t, f), q, b);
    }
    QueueIsWanted(t, f);
    assert !OnSomePage(pages, q[b]);
  }

  /** Only page p + 1 holds the place where it starts. */
  lemma AwayFrom(j: nat, i: nat, p: nat, limit: nat)
    requires i < limit
    ensures j != p ==> Start(j, limit) + i != Start(p, limit)
    ensures j == p ==> Start(j, limit) + i >= Start(p, limit)
  {
    if j < p {
      MulMonotone(j + 1, p, limit);
      NextStart(j, limit);
    } else if j > p {
      MulMonotone(p + 1, j, limit);
      NextStart(p, limit);
    }
  }

  /** For a limit the store accepts, whatever the handler may answer is the whole queue, each row once,
      exactly when no rows created at the same time go over the end of a page. */
  lemma PagesAreWholeIff(t: Table, f: Filter, limit: nat, count: nat)
    requires 1 <= limit <= 200 && |QueueKeys(t, f)| < TWO_63 && Walk(|QueueKeys(t, f)|, limit, count)
    ensures (forall pages :: |pages| == count && Served(t, f, limit, pages) ==> IsWholeQueue(t, f, Concat(pages)))
            <==> TiesWithinPages(QueueKeys(t, f), limit)
    ensures (forall pages :: |pages| == count && Served(t, f, limit, pages) ==> ShowsAll(t, f, pages))
            <==> TiesWithinPages(QueueKeys(t, f), limit)
  {
    hide Served, Walk, ShowsAll, IsWholeQueue, Straddled;
    if TiesWithinPages(QueueKeys(t, f), limit) {
      forall pages | |pages| == count && Served(t, f, limit, pages)
        ensures IsWholeQueue(t, f, Concat(pages)) && ShowsAll(t, f, pages)
      {
        PagesAreWhole(t, f, limit, pages);
        WholeShowsAll(t, f, pages);
      }
    } else {
      var p: nat :| Straddled(QueueKeys(t, f), Start(p, limit));
      var pages := StraddledPages(t, f, limit, count, p);
      if IsWholeQueue(t, f, Concat(pages)) {
        WholeShowsAll(t, f, pages);
      }
    }
  }

  lemma EitherOrder(r: Row, first: string, second: string)
    requires {first, second} == {"a", "b"}
    ensures SortedBy(QueueKeys(map["a" := r, "b" := r], Filter(None, None)), [first, second])
  {
    assert QueueKeys(map["a" := r, "b" := r], Filter(None, None)) == map["a" := -r.createdAt, "b" := -r.createdAt];
    assert [first, second][0] == first && [first, second][1] == second;
    assert "a" in {first, second} && "b" in {first, second} && first in {"a", "b"} && second in {"a", "b"};
  }

  /** Two requests created in the same instant, one row a page: the second may be on no page. */
  lemma TieLosesRow(r: Row) returns (t: Table, pages: seq<seq<ForwardedRequest>>)
    ensures t == map["a" := r, "b" := r]
    ensures Served(t, Filter(None, None), 1, pages) && |pages| == |t| && Walk(|t|, 1, |pages|)
    ensures pages == [[Snapshot("a", r)], [Snapshot("a", r)]]
  {
    hide SortedBy, QueueKeys;
    t := map["a" := r, "b" := r];
    pages := [[Snapshot("a", r)], [Snapshot("a", r)]];
    EitherOrder(r, "a", "b");
    EitherOrder(r, "b", "a");
    var f := Filter(None, None);
    forall p | 0 <= p < 2 ensures IsPage(t, f, 1, Offset(p + 1, 1), pages[p]) {
      assert pages[p] == Snapshots(t, Window(if p == 0 then ["a", "b"] else ["b", "a"], p, 1));
    }
  }

  /* ---- Limits the store does not accept ---- */

  lemma FirstPage(t: Table, f: Filter, limit: nat, pages: seq<seq<ForwardedRequest>>)
    requires PageLimit(limit) == 50 && |QueueKeys(t, f)| <= 50
    requires pages != [] && Served(t, f, limit, pages)
    ensures ShowsAll(t, f, pages)
  {
    var keys := QueueKeys(t, f);
    assert Offset(1, limit) == 0;
    var q :| SortedBy(keys, q) && pages[0] == Snapshots(t, Window(q, 0, 50));
    SortedSize(keys, q);
    QueueIsWanted(t, f);
    hide Wanted;
    forall id | id in keys ensures OnSomePage(pages, id) {
      var i :| 0 <= i < |q| && q[i] == id;
      assert pages[0][i].requestId == id;
    }
  }

  lemma LaterStart(p: nat, limit: nat)
    requires limit == 0 || limit > 200
    ensures Start(p, limit) == 0 || Start(p, limit) > 200
  {
    if p > 0 {
      MulMonotone(1, p, limit);
    }
  }

  lemma PagesMissRow(t: Table, f: Filter, limit: nat, count: nat) returns (pages: seq<seq<ForwardedRequest>>)
    requires limit == 0 || limit > 200
    requires 50 < |QueueKeys(t, f)| < TWO_63 && Walk(|QueueKeys(t, f)|, limit, count)
    ensures |pages| == count && Served(t, f, limit, pages) && !ShowsAll(t, f, pages)
  {
    hide SortedBy, QueueKeys, Wanted, Served, Walk, PageOf, Start;
    var keys := QueueKeys(t, f);
    var q := Enumerate(keys);
    EnumerationIsSorted(keys, q);
    SortedInTable(t, f, q);
    SortedPair(keys, q, 50, 50);
    var orders := seq(count, j => q);
    PagesOfServed(t, f, limit, orders);
    pages := PagesOf(t, f, limit, orders);
    forall j: nat, i: nat | j < count && i < |pages[j]| ensures pages[j][i].requestId != q[50] {
      LaterStart(j, limit);
      PlaceOf(t, f, q, Start(j, limit), limit, i);
      DistinctPlaces(keys, q, 50);
    }
    QueueIsWanted(t, f);
    assert !OnSomePage(pages, q[50]);
  }

  /** The offset is computed before the store clamps the limit. Whatever the handler may answer for all
      the pages there are shows every row exactly when: for a limit in 1..200, no tie goes over the end
      of a page; for any other limit, one page of the default size holds the queue. */
  lemma PagingReachesAllRows(t: Table, f: Filter, limit: nat, count: nat)
    requires |QueueKeys(t, f)| < TWO_63 && Walk(|QueueKeys(t, f)|, limit, count)
    ensures (forall pages :: |pages| == count && Served(t, f, limit, pages) ==> ShowsAll(t, f, pages))
            <==> if 1 <= limit <= 200 then TiesWithinPages(QueueKeys(t, f), limit) else |QueueKeys(t, f)| <= 50
  {
    if 1 <= limit <= 200 {
      PagesAreWholeIff(t, f, limit, count);
    } else if |QueueKeys(t, f)| <= 50 {
      forall pages | |pages| == count && Served(t, f, limit, pages) ensures ShowsAll(t, f, pages) {
        QueueIsWanted(t, f);
        if pages != [] {
          FirstPage(t, f, limit, pages);
        }
      }
    } else {
      var pages := PagesMissRow(t, f, limit, count);
    }
  }

  lemma {:induction false} ConcatSize(pages: seq<seq<ForwardedRequest>>, size: nat)
    requires forall p :: 0 <= p < |pages| ==> |pages[p]| <= size
    ensures |Concat(pages)| <= |pages| * size
  {
    if pages != [] {
      ConcatSize(pages[..|pages| - 1], size);
      assert |pages| * size == (|pages| - 1) * size + size;
    }
  }

  ghost function ShownIds(rows: seq<ForwardedRequest>): set<string> {
    set i | 0 <= i < |rows| :: rows[i].requestId
  }

  lemma ShownCount(rows: seq<ForwardedRequest>)
    ensures |ShownIds(rows)| <= |rows|
  {
    if rows == [] {
      assert ShownIds(rows) == {};
    } else {
      var init := rows[..|rows| - 1];
      ShownCount(init);
      assert ShownIds(rows) == ShownIds(init) + {rows[|rows| - 1].requestId};
    }
  }

  lemma {:induction false} ConcatHolds(pages: seq<seq<ForwardedRequest>>, p: nat, i: nat)
    requires p < |pages| && i < |pages[p]|
    ensures pages[p][i].requestId in ShownIds(Concat(pages))
  {
    var last := |pages| - 1;
    var before := Concat(pages[..last]);
    if p < last {
      ConcatHolds(pages[..last], p, i);
      var n :| 0 <= n < |before| && before[n].requestId == pages[p][i].requestId;
      assert Concat(pages)[n] == before[n];
    } else {
      assert Concat(pages)[|before| + i] == pages[p][i];
    }
  }

  lemma TooFewPages(total: nat, limit: nat, count: nat)
    requires limit > 200 && total > 50 && Walk(total, limit, count)
    ensures count * 50 < total
  {
    if count > 0 {
      MulMonotone(200, limit, count - 1);
    }
  }

  /** With a limit above 200 and more than 50 rows no luck with ties helps: the pages are too few. */
  lemma LargeLimitLosesRows(t: Table, f: Filter, limit: nat, pages: seq<seq<ForwardedRequest>>)
    requires limit > 200 && |QueueKeys(t, f)| > 50
    requires Walk(|QueueKeys(t, f)|, limit, |pages|) && Served(t, f, limit, pages)
    ensures !ShowsAll(t, f, pages)
  {
    var keys, rows := QueueKeys(t, f), Concat(pages);
    forall p | 0 <= p < |pages| ensures |pages[p]| <= 50 {
      assert IsPage(t, f, limit, Offset(p + 1, limit), pages[p]);
    }
    TooFewPages(|keys|, limit, |pages|);
    ConcatSize(pages, 50);
    ShownCount(rows);
    hide Walk, Served, Concat, ShownIds, QueueKeys, Wanted;
    QueueIsWanted(t, f);
    if ShowsAll(t, f, pages) {
      forall id | id in keys ensures id in ShownIds(rows) {
        var p, i :| 0 <= p < |pages| && 0 <= i < |pages[p]| && pages[p][i].requestId == id;
        ConcatHolds(pages, p, i);
      }
      SubsetSize(keys.Keys, ShownIds(rows));
    }
  }
}
