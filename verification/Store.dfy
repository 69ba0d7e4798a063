/** The store object: each method runs one statement against the table, which
    applies whole or, when the database faults, not at all. */
module Store {
  import opened Domain
  import opened Ordering
  import opened Rows
  import opened Queries

  datatype StoreError = RequestIdRequired | NotFound | Database

  /** Go's zero ForwardedRequest, returned beside an error. */
  const EMPTY_REQUEST := ForwardedRequest("", "", Other(""), ZERO_TIME, "", ZERO_TIME, ZERO_TIME)

  class Store {
    var table: Table

    /** The store refuses to write a row without an id. */
    ghost predicate Valid()
      reads this
    {
      "" !in table
    }

    constructor ()
      ensures Valid() && table == map[]
    {
      table := map[];
    }

    method UpsertForwardedRequest(r: ForwardedRequest, now: Time, fault: bool) returns (err: Option<StoreError>)
      modifies this
      ensures old(Valid()) ==> Valid()
      ensures err == if r.requestId == "" then Some(RequestIdRequired) else if fault then Some(Database) else None
      ensures table == if err.None? then Upserted(old(table), r, now) else old(table)
    {
      if r.requestId == "" {
        return Some(RequestIdRequired);
      }
      var updatedAt := r.updatedAt;
      if updatedAt == ZERO_TIME {
        updatedAt := now;
      }
      var ext, errText, lastPolled := None, None, None;
      if r.externalId != "" {
        ext := Some(r.externalId);
      }
      if r.errorText != "" {
        errText := Some(r.errorText);
      }
      if r.lastPolled != ZERO_TIME {
        lastPolled := Some(r.lastPolled);
      }
      if fault {
        return Some(Database);
      }
      if r.requestId !in table {
        table := table[r.requestId := Row(ext, r.status, lastPolled, errText, now, updatedAt)];
      } else {
        var p := table[r.requestId];
        var status := if Terminal(p.status) then p.status else r.status;
        table := table[r.requestId := Row(Coalesce(ext, p.externalId), status,
                                          Coalesce(lastPolled, p.lastPolled),
                                          Coalesce(errText, p.errorText), p.createdAt, updatedAt)];
      }
      err := None;
    }

    method MarkPolled(id: string, externalId: string, status: Status, when: Time, now: Time, fault: bool)
      returns (err: Option<StoreError>)
      modifies this
      ensures old(Valid()) ==> Valid()
      ensures err == if id == "" then Some(RequestIdRequired) else if fault then Some(Database) else None
      ensures table == if err.None? then Polled(old(table), id, externalId, status, Stamp(when, now)) else old(table)
    {
      if id == "" {
        return Some(RequestIdRequired);
      }
      var at := when;
      if at == ZERO_TIME {
        at := now;
      }
      if fault {
        return Some(Database);
      }
      if id in table {
        var p := table[id];
        var ext := if externalId != "" then Some(externalId) else p.externalId;
        table := table[id := Row(ext, if Terminal(p.status) then p.status else status,
                                 Some(at), None, p.createdAt, at)];
      }
      err := None;
    }

    /** The row with NULLs read as empty: a column is NULL, or holds the empty value, exactly when it
        reads as empty, and otherwise reads as it is. */
    method GetForwardedRequest(id: string, fault: bool) returns (r: ForwardedRequest, err: Option<StoreError>)
      ensures err == Some(Database) <==> fault
      ensures err == Some(NotFound) <==> !fault && id !in table
      ensures err != Some(RequestIdRequired)
      ensures err.None? ==>
                && id in table && r.requestId == id
                && (NonEmpty(r.externalId) == table[id].externalId
                    || (r.externalId == "" && table[id].externalId == Some("")))
                && (NonEmpty(r.errorText) == table[id].errorText
                    || (r.errorText == "" && table[id].errorText == Some("")))
                && (NonZero(r.lastPolled) == table[id].lastPolled
                    || (r.lastPolled == ZERO_TIME && table[id].lastPolled == Some(ZERO_TIME)))
                && r.status == table[id].status
                && r.createdAt == table[id].createdAt && r.updatedAt == table[id].updatedAt
      ensures err.Some? ==> r == EMPTY_REQUEST
    {
      r := EMPTY_REQUEST;
      if fault {
        return r, Some(Database);
      }
      if id !in table {
        return r, Some(NotFound);
      }
      var row := table[id];
      r := EMPTY_REQUEST.(requestId := id, status := row.status, createdAt := row.createdAt, updatedAt := row.updatedAt);
      if row.externalId.Some? {
        r := r.(externalId := row.externalId.value);
      }
      if row.lastPolled.Some? {
        r := r.(lastPolled := row.lastPolled.value);
      }
      if row.errorText.Some? {
        r := r.(errorText := row.errorText.value);
      }
      err := None;
    }

    /** The rows.Next loop: one snapshot per id, in the order the database returned them. When the row
        stream breaks after `streamed` rows the loop just ends, and nobody asks why. */
    method Scan(ids: seq<string>, streamed: nat) returns (out: seq<ForwardedRequest>)
      requires forall i :: 0 <= i < |ids| ==> ids[i] in table
      ensures out == Take(Snapshots(table, ids), streamed)
    {
      out := [];
      while |out| < |ids| && |out| < streamed
        invariant |out| <= |ids| && |out| <= streamed
        invariant forall j :: 0 <= j < |out| ==> out[j] == Snapshot(ids[j], table[ids[j]])
        decreases |ids| - |out|
      {
        var id := ids[|out|];
        out := out + [Snapshot(id, table[id])];
      }
    }

    method ListNonTerminal(limit: int, fault: bool, streamed: nat) returns (rows: Option<seq<ForwardedRequest>>)
      ensures rows == if fault then None else Some(Streamed(table, limit, streamed))
    {
      var n := limit;
      if n <= 0 {
        n := 100;
      }
      if fault {
        return None;
      }
      var ids := OrderBy(PollKeys(table));
      EnumerationUnique(PollKeys(table), ids, Enumerate(PollKeys(table)));
      var out := Scan(Take(ids, n), streamed);
      rows := Some(out);
    }

    /** Two statements, the count and the page; `interim` is the table as other writers leave it
        between them. */
    method ListRequests(f: Filter, limit: int, offset: int, countFails: bool, interim: Table, listFails: bool,
                        streamed: nat)
      returns (page: Option<(seq<ForwardedRequest>, nat)>)
      modifies this
      ensures old(Valid()) && "" !in interim ==> Valid()
      ensures table == if countFails then old(table) else interim
      ensures page.None? <==> countFails || listFails
      ensures page.Some? ==> forall i :: 0 <= i < |page.value.0| ==> IsMatch(table, f, page.value.0[i])
      ensures page.Some? ==> page.value.1 == |Wanted(old(table), f)|
      ensures page.Some? ==> exists whole :: IsPage(table, f, limit, offset, whole)
                                             && page.value.0 == Take(whole, streamed)
    {
      if countFails {
        return None;
      }
      var total := |QueueKeys(table, f)|;
      QueueIsWanted(table, f);
      table := interim;
      if listFails {
        return None;
      }
      var n := limit;
      if n <= 0 || n > 200 {
        n := 50;
      }
      var skip := offset;
      if skip < 0 {
        skip := 0;
      }
      var keys := QueueKeys(table, f);
      var ids := OrderBy(keys);
      EnumerationIsSorted(keys, ids);
      var out := Scan(Window(ids, skip, n), streamed);
      ghost var whole := Snapshots(table, Window(ids, skip, n));
      assert IsPage(table, f, limit, offset, whole);
      hide IsPage, IsMatch, QueueKeys;
      WhatPagesHold(table, f, limit, offset, whole);
      page := Some((out, total));
    }

    method ListStuck(threshold: int, limit: int, now: Time, fault: bool, streamed: nat)
      returns (rows: Option<seq<ForwardedRequest>>)
      ensures rows.None? <==> fault
      ensures rows.Some? ==> exists whole :: IsStuckList(table, threshold, limit, now, whole)
                                             && rows.value == Take(whole, streamed)
      ensures rows.Some? ==> AreHanging(table, now - threshold, rows.value)
      ensures rows.Some? && |rows.value| < streamed ==> NoneHidden(table, now - threshold, limit, rows.value)
    {
      if fault {
        return None;
      }
      var n := limit;
      if n <= 0 || n > 200 {
        n := 50;
      }
      var keys := StuckKeys(table, now - threshold);
      var ids := OrderBy(keys);
      EnumerationIsSorted(keys, ids);
      var out := Scan(Take(ids, n), streamed);
      ghost var whole := Snapshots(table, Take(ids, n));
      assert IsStuckList(table, threshold, limit, now, whole);
      hide IsStuckList, AreHanging, NoneHidden, StuckKeys, Enumerates, SortedBy;
      WhatStuckListHolds(table, threshold, limit, now, whole);
      FirstAreHanging(table, now - threshold, whole, streamed);
      assert out == Take(whole, streamed);
      assert |out| < streamed ==> out == whole;
      rows := Some(out);
    }

    method RetryRequest(id: string, now: Time, fault: bool) returns (err: Option<StoreError>)
      modifies this
      ensures old(Valid()) ==> Valid()
      ensures err == if id == "" then Some(RequestIdRequired)
                     else if fault then Some(Database)
                     else if !Retryable(old(table), id) then Some(NotFound) else None
      ensures table == if err.None? then Retried(old(table), id, now) else old(table)
    {
      if id == "" {
        return Some(RequestIdRequired);
      }
      if fault {
        return Some(Database);
      }
      var affected := 0;
      if id in table && table[id].externalId.Some? && table[id].externalId.value != "" {
        var p := table[id];
        table := table[id := Row(p.externalId, Acknowledged, None, None, p.createdAt, now)];
        affected := 1;
      }
      err := if affected == 0 then Some(NotFound) else None;
    }

    method MarkFailedManually(id: string, reason: string, now: Time, fault: bool) returns (err: Option<StoreError>)
      modifies this
      ensures old(Valid()) ==> Valid()
      ensures err == if id == "" then Some(RequestIdRequired)
                     else if fault then Some(Database)
                     else if id !in old(table) then Some(NotFound) else None
      ensures table == if err.None? then MarkedFailed(old(table), id, reason, now) else old(table)
    {
      if id == "" {
        return Some(RequestIdRequired);
      }
      var text := reason;
      if text == "" {
        text := DEFAULT_REASON;
      }
      if fault {
        return Some(Database);
      }
      if id !in table {
        return Some(NotFound);
      }
      var p := table[id];
      table := table[id := Row(p.externalId, Failed, p.lastPolled, Some(text), p.createdAt, now)];
      err := None;
    }

    method RequestStats(fault: bool) returns (stats: Option<RequestStats>)
      ensures stats == if fault then None else Some(Stats(table))
      ensures stats.Some? ==>
                && stats.value.total == |table|
                && stats.value.active
                   == |set id | id in table && table[id].status != Imported && table[id].status != Failed|
                && stats.value.failed == |set id | id in table && table[id].status == Failed|
                && stats.value.imported == |set id | id in table && table[id].status == Imported|
      ensures stats.Some? ==> stats.value.total == stats.value.active + stats.value.failed + stats.value.imported
      ensures stats.Some? ==> stats.value.unsubmitted <= stats.value.active
    {
      if fault {
        return None;
      }
      StatsPartition(table);
      WhatStatsCount(table);
      stats := Some(Stats(table));
    }
  }
}
