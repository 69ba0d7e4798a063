/** The store's read-only queries, as functions of the table. */
module Queries {
  import opened Domain
  import opened Ordering
  import opened Rows

  /** The rows the reconciler works on, each with the stamp it is ordered by. */
  function PollKeys(t: Table): map<string, int> {
    map id | id in t && !Terminal(t[id].status) :: GetOr(t[id].lastPolled, ZERO_TIME)
  }

  function Snapshots(t: Table, ids: seq<string>): (rows: seq<ForwardedRequest>)
    requires forall i :: 0 <= i < |ids| ==> ids[i] in t
    ensures |rows| == |ids|
    ensures forall i :: 0 <= i < |rows| ==> rows[i] == Snapshot(ids[i], t[ids[i]])
  {
    seq(|ids|, i requires 0 <= i < |ids| => Snapshot(ids[i], t[ids[i]]))
  }

  function Take<T>(q: seq<T>, n: nat): seq<T> {
    if |q| <= n then q else q[..n]
  }

  function EffectiveLimit(limit: int): nat {
    if limit <= 0 then 100 else limit
  }

  /** ListNonTerminal: the first rows of the polling order. */
  ghost function Listing(t: Table, limit: int): seq<ForwardedRequest> {
    Snapshots(t, Take(Enumerate(PollKeys(t)), EffectiveLimit(limit)))
  }

  /** What a caller gets of the listing when its row stream breaks after n rows: the loop over the rows
      ends without an error, so the rows read so far pass for the whole. */
  ghost function Streamed(t: Table, limit: int, n: nat): (rows: seq<ForwardedRequest>)
    ensures rows <= Listing(t, limit)
    ensures |Listing(t, limit)| <= n ==> rows == Listing(t, limit)
  {
    Take(Listing(t, limit), n)
  }

  /** What a listing is for: live rows as they stand, no row twice, and no live row left out
      while one ordered after it is listed. */
  lemma ListingMeaning(t: Table, limit: int)
    ensures var rows := Listing(t, limit);
            && |rows| == (if |PollKeys(t)| <= EffectiveLimit(limit) then |PollKeys(t)| else EffectiveLimit(limit))
            && (forall i :: 0 <= i < |rows| ==>
                  && rows[i].requestId in PollKeys(t)
                  && rows[i] == Snapshot(rows[i].requestId, t[rows[i].requestId]))
            && (forall i, j :: 0 <= i < j < |rows| ==> rows[i].requestId != rows[j].requestId)
            && (forall id :: id in PollKeys(t) && (forall i :: 0 <= i < |rows| ==> rows[i].requestId != id) ==>
                  forall i :: 0 <= i < |rows| ==> Before(PollKeys(t), rows[i].requestId, id))
  {
    var keys := PollKeys(t);
    var rows := Listing(t, limit);
    EnumerationDistinct(keys, Enumerate(keys));
    forall id | id in keys && (forall i :: 0 <= i < |rows| ==> rows[i].requestId != id)
      ensures forall i :: 0 <= i < |rows| ==> Before(keys, rows[i].requestId, id)
    {
      UnlistedIsBehind(t, limit, id);
    }
  }

  lemma UnlistedIsBehind(t: Table, limit: int, id: string)
    requires id in PollKeys(t)
    requires forall i :: 0 <= i < |Listing(t, limit)| ==> Listing(t, limit)[i].requestId != id
    ensures forall i :: 0 <= i < |Listing(t, limit)| ==>
              Listing(t, limit)[i].requestId in PollKeys(t) && Before(PollKeys(t), Listing(t, limit)[i].requestId, id)
  {
    var q := Enumerate(PollKeys(t));
    var rows := Listing(t, limit);
    var j :| 0 <= j < |q| && q[j] == id;
    assert j < |rows| ==> rows[j].requestId == id;
  }

  lemma SingleListing(t: Table, id: string, limit: int)
    requires t.Keys == {id} && !Terminal(t[id].status)
    ensures Listing(t, limit) == [Snapshot(id, t[id])]
  {
    ListingMeaning(t, limit);
    assert PollKeys(t).Keys == {id};
    assert |PollKeys(t)| == |PollKeys(t).Keys|;
  }

  /** The same in terms of the records a caller reads: the rows that are neither imported nor failed, those
      never polled first, then by the time of the last poll, then by id; 100 of them unless asked otherwise,
      and none left out while there is room. */
  lemma WhatListingHolds(t: Table, limit: int)
    ensures var rows := Listing(t, limit);
            && (forall i :: 0 <= i < |rows| ==>
                  && rows[i].requestId in t && rows[i] == Snapshot(rows[i].requestId, t[rows[i].requestId])
                  && rows[i].status != Imported && rows[i].status != Failed)
            && (forall i, j :: 0 <= i < j < |rows| ==>
                  Precedes(rows[i], rows[j].lastPolled, rows[j].requestId))
            && |rows| <= (if limit <= 0 then 100 else limit)
    ensures forall id :: id in t && t[id].status != Imported && t[id].status != Failed ==>
              var rows := Listing(t, limit);
              || (exists i :: 0 <= i < |rows| && rows[i].requestId == id)
              || (|rows| == (if limit <= 0 then 100 else limit)
                  && forall i :: 0 <= i < |rows| ==> Precedes(rows[i], GetOr(t[id].lastPolled, 0), id))
  {
    hide Listing;
    ListingMeaning(t, limit);
    var rows := Listing(t, limit);
    forall i, j | 0 <= i < j < |rows| ensures Precedes(rows[i], rows[j].lastPolled, rows[j].requestId) {
      ListedInOrder(t, limit, i, j);
    }
    forall id | id in t && t[id].status != Imported && t[id].status != Failed
                && !(exists i :: 0 <= i < |rows| && rows[i].requestId == id)
      ensures |rows| == (if limit <= 0 then 100 else limit)
      ensures forall i :: 0 <= i < |rows| ==> Precedes(rows[i], GetOr(t[id].lastPolled, 0), id)
    {
      LeftOut(t, limit, id);
    }
  }

  /** The record comes before a stamp and an id. */
  predicate Precedes(row: ForwardedRequest, stamp: Time, id: string) {
    row.lastPolled < stamp || (row.lastPolled == stamp && Less(row.requestId, id))
  }

  lemma ListedInOrder(t: Table, limit: int, i: nat, j: nat)
    requires i < j < |Listing(t, limit)|
    ensures var rows := Listing(t, limit); Precedes(rows[i], rows[j].lastPolled, rows[j].requestId)
  {
    var q := Enumerate(PollKeys(t));
    assert Before(PollKeys(t), q[i], q[j]);
  }

  lemma LeftOut(t: Table, limit: int, id: string)
    requires id in PollKeys(t) && !(exists i :: 0 <= i < |Listing(t, limit)| && Listing(t, limit)[i].requestId == id)
    ensures |Listing(t, limit)| == EffectiveLimit(limit)
    ensures forall i :: 0 <= i < |Listing(t, limit)| ==> Precedes(Listing(t, limit)[i], PollKeys(t)[id], id)
  {
    var q, rows := Enumerate(PollKeys(t)), Listing(t, limit);
    UnlistedIsBehind(t, limit, id);
    var k :| 0 <= k < |q| && q[k] == id;
    assert k < |rows| ==> rows[k].requestId == id;
  }

  /** A row is listed exactly when fewer rows than the limit are ahead of it. */
  lemma ListedByRank(t: Table, limit: int, id: string)
    requires id in PollKeys(t)
    ensures (exists i :: 0 <= i < |Listing(t, limit)| && Listing(t, limit)[i].requestId == id)
            <==> |Ahead(PollKeys(t), id)| < EffectiveLimit(limit)
  {
    var q := Enumerate(PollKeys(t));
    var i :| 0 <= i < |q| && q[i] == id;
    EnumerationRank(PollKeys(t), q, i);
    var rows := Listing(t, limit);
    if i < |rows| {
      assert rows[i].requestId == id;
    }
    forall j | 0 <= j < |rows| && rows[j].requestId == id ensures j == i {
      EnumerationDistinct(PollKeys(t), q);
    }
  }

  /** ORDER BY one column without a tiebreak: any order of the ids that ascends in the key. */
  ghost predicate SortedBy(keys: map<string, int>, q: seq<string>) {
    && (forall i :: 0 <= i < |q| ==> q[i] in keys)
    && (forall k :: k in keys ==> k in q)
    && (forall i, j :: 0 <= i < j < |q| ==> q[i] != q[j] && keys[q[i]] <= keys[q[j]])
  }

  lemma EnumerationIsSorted(keys: map<string, int>, q: seq<string>)
    requires Enumerates(keys, q)
    ensures SortedBy(keys, q)
  {
    EnumerationDistinct(keys, q);
  }

  predicate DistinctKeys(keys: map<string, int>) {
    forall a, b :: a in keys && b in keys && a != b ==> keys[a] != keys[b]
  }

  /** The admin queue's filter: an exact status, and a pattern over the two ids. */
  datatype Filter = Filter(status: Option<Status>, like: Option<string -> bool>)

  predicate Matches(f: Filter, id: string, r: Row) {
    && (f.status.Some? ==> r.status == f.status.value)
    && (f.like.Some? ==> f.like.value(id) || (r.externalId.Some? && f.like.value(r.externalId.value)))
  }

  /** Newest first: ascending in the negated creation time. */
  function QueueKeys(t: Table, f: Filter): map<string, int> {
    map id | id in t && Matches(f, id, t[id]) :: -t[id].createdAt
  }

  /** Which rows a filter selects: those of the status asked for, if any, whose request id or upstream id,
      when there is one, the search finds, if any; each with its age. */
  lemma WhatQueueHolds(t: Table, f: Filter, id: string)
    ensures id in QueueKeys(t, f) <==>
              && id in t
              && (f.status.Some? ==> t[id].status == f.status.value)
              && (f.like.Some? ==>
                    f.like.value(id) || (t[id].externalId.Some? && f.like.value(t[id].externalId.value)))
    ensures id in QueueKeys(t, f) ==> QueueKeys(t, f)[id] == -t[id].createdAt
  {
  }

  /** What a filter asks for, in so many words. */
  ghost function Wanted(t: Table, f: Filter): set<string> {
    set id | id in t
             && (f.status.Some? ==> t[id].status == f.status.value)
             && (f.like.Some? ==>
                   (f.like.value(id) || (t[id].externalId.Some? && f.like.value(t[id].externalId.value))))
  }

  lemma QueueIsWanted(t: Table, f: Filter)
    ensures QueueKeys(t, f).Keys == Wanted(t, f) && |QueueKeys(t, f)| == |Wanted(t, f)|
  {
    forall id ensures id in Wanted(t, f) <==> id in QueueKeys(t, f) {
      WhatQueueHolds(t, f, id);
    }
    assert |QueueKeys(t, f).Keys| == |QueueKeys(t, f)|;
  }

  /** A row as the page shows it, and why. */
  ghost predicate IsMatch(t: Table, f: Filter, row: ForwardedRequest) {
    && row.requestId in t && row == Snapshot(row.requestId, t[row.requestId])
    && (f.status.Some? ==> row.status == f.status.value)
    && (f.like.Some? ==>
          || f.like.value(row.requestId)
          || (t[row.requestId].externalId.Some? && f.like.value(row.externalId)))
  }

  /** Every row of a page is a match. */
  lemma WhatPagesHold(t: Table, f: Filter, limit: int, offset: int, rows: seq<ForwardedRequest>)
    requires IsPage(t, f, limit, offset, rows)
    ensures forall i :: 0 <= i < |rows| ==> IsMatch(t, f, rows[i])
    ensures forall i, j :: 0 <= i < j < |rows| ==>
              rows[i].requestId != rows[j].requestId && rows[i].createdAt >= rows[j].createdAt
    ensures |rows| <= if 1 <= limit <= 200 then limit else 50
  {
    var skip := if offset < 0 then 0 else offset;
    var q :| SortedBy(QueueKeys(t, f), q) && rows == Snapshots(t, Window(q, skip, PageLimit(limit)));
    forall i | 0 <= i < |rows| ensures IsMatch(t, f, rows[i]) {
      WhatQueueHolds(t, f, q[skip + i]);
    }
    forall i, j | 0 <= i < j < |rows|
      ensures rows[i].requestId != rows[j].requestId && rows[i].createdAt >= rows[j].createdAt
    {
      assert QueueKeys(t, f)[q[skip + i]] <= QueueKeys(t, f)[q[skip + j]];
    }
  }

  function PageLimit(limit: int): nat {
    if limit <= 0 || limit > 200 then 50 else limit
  }

  function Window<T>(q: seq<T>, offset: nat, limit: nat): (w: seq<T>)
    ensures |w| == (if |q| <= offset then 0 else if |q| - offset <= limit then |q| - offset else limit)
    ensures forall i :: 0 <= i < |w| ==> w[i] == q[offset + i]
  {
    if |q| <= offset then [] else Take(q[offset..], limit)
  }

  /** ListRequests: a window of the matching rows in some newest-first order. */
  ghost predicate IsPage(t: Table, f: Filter, limit: int, offset: int, rows: seq<ForwardedRequest>) {
    exists q :: SortedBy(QueueKeys(t, f), q) &&
      rows == Snapshots(t, Window(q, if offset < 0 then 0 else offset, PageLimit(limit)))
  }

  predicate Stuck(r: Row, cutoff: Time) {
    && !Terminal(r.status)
    && if r.lastPolled.Some? then r.lastPolled.value < cutoff else r.createdAt < cutoff
  }

  function StuckKeys(t: Table, cutoff: Time): map<string, int> {
    map id | id in t && Stuck(t[id], cutoff) :: t[id].createdAt
  }

  /** ListStuck: the oldest stuck rows. */
  ghost predicate IsStuckList(t: Table, threshold: int, limit: int, now: Time, rows: seq<ForwardedRequest>) {
    var keys := StuckKeys(t, now - threshold);
    exists q :: SortedBy(keys, q) && rows == Snapshots(t, Take(q, PageLimit(limit)))
  }

  lemma StuckMeaning(t: Table, cutoff: Time, id: string)
    ensures id in StuckKeys(t, cutoff) <==>
              && id in t && t[id].status != Imported && t[id].status != Failed
              && (match t[id].lastPolled case Some(at) => at < cutoff case None => t[id].createdAt < cutoff)
    ensures id in StuckKeys(t, cutoff) ==> StuckKeys(t, cutoff)[id] == t[id].createdAt
  {
  }

  /** Records of rows as they stand that are neither imported nor failed and were not polled since the
      cutoff, or never polled and created before it; none twice, oldest first. */
  ghost predicate AreHanging(t: Table, cutoff: Time, rows: seq<ForwardedRequest>) {
    && (forall i :: 0 <= i < |rows| ==>
          && rows[i].requestId in t && rows[i] == Snapshot(rows[i].requestId, t[rows[i].requestId])
          && IsHanging(t[rows[i].requestId], cutoff))
    && (forall i, j :: 0 <= i < j < |rows| ==>
          rows[i].requestId != rows[j].requestId && rows[i].createdAt <= rows[j].createdAt)
  }

  /** One that qualifies is missing only when the limit (50 outside 1..200) is reached, and then no record
      is of a younger row. */
  ghost predicate NoneHidden(t: Table, cutoff: Time, limit: int, rows: seq<ForwardedRequest>) {
    forall id :: id in t && IsHanging(t[id], cutoff) ==>
      || (exists i :: 0 <= i < |rows| && rows[i].requestId == id)
      || (|rows| == (if 1 <= limit <= 200 then limit else 50)
          && forall i :: 0 <= i < |rows| ==> rows[i].createdAt <= t[id].createdAt)
  }

  lemma StuckIsHanging(t: Table, cutoff: Time)
    ensures forall id :: id in StuckKeys(t, cutoff) <==> id in t && IsHanging(t[id], cutoff)
    ensures forall id :: id in StuckKeys(t, cutoff) ==> StuckKeys(t, cutoff)[id] == t[id].createdAt
  {
    forall id
      ensures id in StuckKeys(t, cutoff) <==> id in t && IsHanging(t[id], cutoff)
      ensures id in StuckKeys(t, cutoff) ==> StuckKeys(t, cutoff)[id] == t[id].createdAt
    {
      StuckMeaning(t, cutoff, id);
    }
  }

  /** What the stuck tile shows. */
  lemma WhatStuckListHolds(t: Table, threshold: int, limit: int, now: Time, rows: seq<ForwardedRequest>)
    requires IsStuckList(t, threshold, limit, now, rows)
    ensures AreHanging(t, now - threshold, rows) && NoneHidden(t, now - threshold, limit, rows)
    ensures |rows| <= if 1 <= limit <= 200 then limit else 50
  {
    hide AreHanging, NoneHidden;
    var keys := StuckKeys(t, now - threshold);
    var q :| SortedBy(keys, q) && rows == Snapshots(t, Take(q, PageLimit(limit)));
    OldestAreHanging(t, now - threshold, q, PageLimit(limit), rows);
    OlderAreListed(t, now - threshold, q, limit, rows);
  }

  lemma OldestAreHanging(t: Table, cutoff: Time, q: seq<string>, n: nat, rows: seq<ForwardedRequest>)
    requires SortedBy(StuckKeys(t, cutoff), q)
    requires (forall i :: 0 <= i < |q| ==> q[i] in t) && rows == Snapshots(t, Take(q, n))
    ensures AreHanging(t, cutoff, rows)
  {
    hide StuckKeys, IsHanging;
    StuckIsHanging(t, cutoff);
    forall i, j | 0 <= i < j < |rows|
      ensures rows[i].requestId != rows[j].requestId && rows[i].createdAt <= rows[j].createdAt
    {
      assert StuckKeys(t, cutoff)[q[i]] <= StuckKeys(t, cutoff)[q[j]];
    }
  }

  lemma OlderAreListed(t: Table, cutoff: Time, q: seq<string>, limit: int, rows: seq<ForwardedRequest>)
    requires SortedBy(StuckKeys(t, cutoff), q)
    requires (forall i :: 0 <= i < |q| ==> q[i] in t) && rows == Snapshots(t, Take(q, PageLimit(limit)))
    ensures NoneHidden(t, cutoff, limit, rows)
  {
    hide StuckKeys, IsHanging;
    StuckIsHanging(t, cutoff);
    forall id | id in StuckKeys(t, cutoff) && !(exists i :: 0 <= i < |rows| && rows[i].requestId == id)
      ensures |rows| == PageLimit(limit) && forall i :: 0 <= i < |rows| ==> rows[i].createdAt <= t[id].createdAt
    {
      OlderIsListed(t, StuckKeys(t, cutoff), q, PageLimit(limit), rows, id);
    }
  }

  lemma OlderIsListed(
    t: Table, keys: map<string, int>, q: seq<string>, n: nat, rows: seq<ForwardedRequest>, id: string)
    requires SortedBy(keys, q) && id in keys
    requires forall k :: k in keys ==> k in t && keys[k] == t[k].createdAt
    requires rows == Snapshots(t, Take(q, n)) && forall i :: 0 <= i < |rows| ==> rows[i].requestId != id
    ensures |rows| == n && forall i :: 0 <= i < |rows| ==> rows[i].createdAt <= t[id].createdAt
  {
    var k :| 0 <= k < |q| && q[k] == id;
    assert |rows| <= k;
    forall i | 0 <= i < |rows| ensures rows[i].createdAt <= t[id].createdAt {
      assert keys[q[i]] <= keys[q[k]];
    }
  }

  /** A prefix of hanging rows is hanging. */
  lemma FirstAreHanging(t: Table, cutoff: Time, rows: seq<ForwardedRequest>, n: nat)
    requires AreHanging(t, cutoff, rows)
    ensures AreHanging(t, cutoff, Take(rows, n))
  {
    hide IsHanging;
  }

  /** Live, and neither polled nor, if never polled, created since the cutoff. */
  predicate IsHanging(r: Row, cutoff: Time) {
    && r.status != Imported && r.status != Failed
    && (r.lastPolled.Some? ==> r.lastPolled.value < cutoff)
    && (r.lastPolled.None? ==> r.createdAt < cutoff)
  }

  datatype RequestStats = RequestStats(
    total: nat, active: nat, failed: nat, imported: nat, withErrors: nat, unsubmitted: nat)

  function ImportedIds(t: Table): set<string> {
    set id | id in t && t[id].status.Imported?
  }

  function FailedIds(t: Table): set<string> {
    set id | id in t && t[id].status.Failed?
  }

  function ActiveIds(t: Table): set<string> {
    set id | id in t && !Terminal(t[id].status)
  }

  predicate HasError(r: Row) {
    GetOr(r.errorText, "") != ""
  }

  predicate Unsubmitted(r: Row) {
    GetOr(r.externalId, "") == "" && !Terminal(r.status)
  }

  function ErrorIds(t: Table): set<string> {
    set id | id in t && HasError(t[id])
  }

  function UnsubmittedIds(t: Table): set<string> {
    set id | id in t && Unsubmitted(t[id])
  }

  function Stats(t: Table): RequestStats {
    RequestStats(|t|, |ActiveIds(t)|, |FailedIds(t)|, |ImportedIds(t)|,
                 |ErrorIds(t)|, |UnsubmittedIds(t)|)
  }

  lemma DisjointUnionSize(a: set<string>, b: set<string>)
    requires a !! b
    ensures |a + b| == |a| + |b|
  {
  }

  lemma SubsetSize(a: set<string>, b: set<string>)
    requires a <= b
    ensures |a| <= |b|
  {
    DisjointUnionSize(a, b - a);
    assert a + (b - a) == b;
  }

  lemma ThreeWaySize(all: set<string>, a: set<string>, b: set<string>, c: set<string>)
    requires a !! b && a !! c && b !! c
    requires all == a + b + c
    ensures |all| == |a| + |b| + |c|
  {
    DisjointUnionSize(a, b);
    DisjointUnionSize(a + b, c);
  }

  /** The counters partition the table. */
  lemma StatsPartition(t: Table)
    ensures var s := Stats(t);
            s.total == s.active + s.failed + s.imported && s.unsubmitted <= s.active
  {
    ThreeWaySize(t.Keys, ActiveIds(t), FailedIds(t), ImportedIds(t));
    SubsetSize(UnsubmittedIds(t), ActiveIds(t));
  }

  /** What each counter counts. */
  lemma WhatStatsCount(t: Table)
    ensures var s := Stats(t);
            && s.total == |t|
            && s.active == |set id | id in t && t[id].status != Imported && t[id].status != Failed|
            && s.failed == |set id | id in t && t[id].status == Failed|
            && s.imported == |set id | id in t && t[id].status == Imported|
            && s.withErrors == |set id | id in t && t[id].errorText != None && t[id].errorText != Some("")|
            && s.unsubmitted == |set id | id in t && (t[id].externalId == None || t[id].externalId == Some(""))
                                          && t[id].status != Imported && t[id].status != Failed|
  {
    assert ActiveIds(t) == set id | id in t && t[id].status != Imported && t[id].status != Failed;
    assert FailedIds(t) == set id | id in t && t[id].status == Failed;
    assert ImportedIds(t) == set id | id in t && t[id].status == Imported;
    assert ErrorIds(t) == set id | id in t && t[id].errorText != None && t[id].errorText != Some("");
    assert UnsubmittedIds(t) == set id | id in t && (t[id].externalId == None || t[id].externalId == Some(""))
                                         && t[id].status != Imported && t[id].status != Failed;
  }

  lemma ShiftIn(ids: set<string>, ids': set<string>, id: string, joins: bool)
    requires id !in ids && ids' == if joins then ids + {id} else ids
    ensures |ids'| == |ids| + if joins then 1 else 0
  {
  }

  lemma ShiftOut(ids: set<string>, ids': set<string>, id: string, leaves: bool)
    requires id in ids && ids' == if leaves then ids - {id} else ids
    ensures |ids'| == |ids| - if leaves then 1 else 0
  {
  }

  lemma Replaced(ids: set<string>, ids': set<string>, id: string, member: bool)
    requires ids' == (ids - {id}) + if member then {id} else {}
    ensures |ids'| == |ids| - (if id in ids then 1 else 0) + if member then 1 else 0
  {
  }

  lemma MembersOfWrite(t: Table, id: string, r: Row)
    requires id in t && !Terminal(t[id].status)
    ensures id !in ImportedIds(t) && id !in FailedIds(t) && id in ActiveIds(t)
    ensures ImportedIds(t[id := r]) == if r.status.Imported? then ImportedIds(t) + {id} else ImportedIds(t)
    ensures FailedIds(t[id := r]) == if r.status.Failed? then FailedIds(t) + {id} else FailedIds(t)
    ensures ActiveIds(t[id := r]) == if Terminal(r.status) then ActiveIds(t) - {id} else ActiveIds(t)
    ensures id in ErrorIds(t) <==> HasError(t[id])
    ensures id in UnsubmittedIds(t) <==> Unsubmitted(t[id])
    ensures ErrorIds(t[id := r]) == (ErrorIds(t) - {id}) + if HasError(r) then {id} else {}
    ensures UnsubmittedIds(t[id := r]) == (UnsubmittedIds(t) - {id}) + if Unsubmitted(r) then {id} else {}
  {
  }

  lemma WhatRowsCount(r: Row)
    ensures HasError(r) <==> r.errorText != None && r.errorText != Some("")
    ensures Unsubmitted(r) <==>
              (r.externalId == None || r.externalId == Some("")) && r.status != Imported && r.status != Failed
  {
  }

  /** Writing one live row moves it, and only it, between the counters. */
  lemma StatsOfWrite(t: Table, id: string, r: Row)
    requires id in t && !Terminal(t[id].status)
    ensures var s, s' := Stats(t), Stats(t[id := r]);
            && s'.total == s.total
            && s'.imported == s.imported + (if r.status == Imported then 1 else 0)
            && s'.failed == s.failed + (if r.status == Failed then 1 else 0)
            && s'.active == s.active - (if r.status == Imported || r.status == Failed then 1 else 0)
            && s'.withErrors == s.withErrors - (if t[id].errorText != None && t[id].errorText != Some("") then 1 else 0)
                                + (if r.errorText != None && r.errorText != Some("") then 1 else 0)
            && s'.unsubmitted
               == s.unsubmitted - (if t[id].externalId == None || t[id].externalId == Some("") then 1 else 0)
                                 + (if (r.externalId == None || r.externalId == Some(""))
                                       && r.status != Imported && r.status != Failed then 1 else 0)
  {
    hide ImportedIds, FailedIds, ActiveIds, ErrorIds, UnsubmittedIds, HasError, Unsubmitted;
    WhatRowsCount(t[id]);
    WhatRowsCount(r);
    var t' := t[id := r];
    assert t'.Keys == t.Keys;
    MembersOfWrite(t, id, r);
    ShiftIn(ImportedIds(t), ImportedIds(t'), id, r.status.Imported?);
    ShiftIn(FailedIds(t), FailedIds(t'), id, r.status.Failed?);
    ShiftOut(ActiveIds(t), ActiveIds(t'), id, Terminal(r.status));
    Replaced(ErrorIds(t), ErrorIds(t'), id, HasError(r));
    Replaced(UnsubmittedIds(t), UnsubmittedIds(t'), id, Unsubmitted(r));
  }

  /** A successful poll takes its row out of the error count, so a transient error is not counted
      for ever; an upsert alone never could. */
  lemma PollClearsErrorCount(t: Table, id: string, externalId: string, status: Status, at: Time,
                             r: ForwardedRequest, now: Time)
    requires id in t && r.requestId == id
    ensures Stats(Polled(t, id, externalId, status, at)).withErrors
            == Stats(t).withErrors - (if id in ErrorIds(t) then 1 else 0)
    ensures id in ErrorIds(t) ==> Stats(Upserted(t, r, now)).withErrors == Stats(t).withErrors
  {
    assert ErrorIds(Polled(t, id, externalId, status, at)) == ErrorIds(t) - {id};
    if id in ErrorIds(t) {
      assert ErrorIds(Upserted(t, r, now)) == ErrorIds(t);
    }
  }
}
