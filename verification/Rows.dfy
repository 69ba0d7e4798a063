/** The four guarded statements of the store, as functions of the table. The
    store's methods are proved against these, and so are all whole-run results. */
module Rows {
  import opened Domain

  /** The terminal guard: an imported or failed row keeps its status. */
  function Guarded(current: Status, next: Status): Status {
    if Terminal(current) then current else next
  }

  function Stamp(at: Time, now: Time): Time {
    if at == ZERO_TIME then now else at
  }

  /** INSERT ... ON CONFLICT (request_id) DO UPDATE. */
  function UpsertRow(prev: Option<Row>, r: ForwardedRequest, now: Time): Row {
    match prev
    case None =>
      Row(NonEmpty(r.externalId), r.status, NonZero(r.lastPolled), NonEmpty(r.errorText),
          now, Stamp(r.updatedAt, now))
    case Some(p) =>
      Row(Coalesce(NonEmpty(r.externalId), p.externalId),
          Guarded(p.status, r.status),
          Coalesce(NonZero(r.lastPolled), p.lastPolled),
          Coalesce(NonEmpty(r.errorText), p.errorText),
          p.createdAt,
          Stamp(r.updatedAt, now))
  }

  function Upserted(t: Table, r: ForwardedRequest, now: Time): Table {
    t[r.requestId := UpsertRow(Lookup(t, r.requestId), r, now)]
  }

  function PolledRow(p: Row, externalId: string, status: Status, at: Time): Row {
    Row(Coalesce(NonEmpty(externalId), p.externalId), Guarded(p.status, status),
        Some(at), None, p.createdAt, at)
  }

  /** MarkPolled: an UPDATE, so a missing row stays missing. */
  function Polled(t: Table, id: string, externalId: string, status: Status, at: Time): Table {
    if id in t then t[id := PolledRow(t[id], externalId, status, at)] else t
  }

  predicate Retryable(t: Table, id: string) {
    id in t && t[id].externalId.Some? && t[id].externalId.value != ""
  }

  /** RetryRequest: no guard, but only a row with something to poll against. */
  function Retried(t: Table, id: string, now: Time): Table {
    if Retryable(t, id) then
      t[id := t[id].(status := Acknowledged, errorText := None, lastPolled := None, updatedAt := now)]
    else t
  }

  const DEFAULT_REASON := "marked failed by admin"

  /** MarkFailedManually. */
  function MarkedFailed(t: Table, id: string, reason: string, now: Time): Table {
    if id in t then
      t[id := t[id].(status := Failed,
                     errorText := Some(if reason == "" then DEFAULT_REASON else reason),
                     updatedAt := now)]
    else t
  }

  /** What a SELECT scans a row into. */
  function Snapshot(id: string, r: Row): ForwardedRequest {
    ForwardedRequest(id, GetOr(r.externalId, ""), r.status, GetOr(r.lastPolled, ZERO_TIME),
                     GetOr(r.errorText, ""), r.createdAt, r.updatedAt)
  }

  /** A row reads back as it was inserted: empty texts and the zero time go to NULL and come back. */
  lemma InsertReadsBack(r: ForwardedRequest, now: Time)
    ensures Snapshot(r.requestId, UpsertRow(None, r, now))
            == r.(createdAt := now, updatedAt := Stamp(r.updatedAt, now))
  {
  }

  /** A redelivered write changes nothing: repeating an upsert at once is a no-op on the whole table. */
  lemma UpsertIdempotent(t: Table, r: ForwardedRequest, now: Time, later: Time)
    requires r.updatedAt != ZERO_TIME
    ensures Upserted(Upserted(t, r, now), r, later) == Upserted(t, r, now)
  {
    var t1 := Upserted(t, r, now);
    assert UpsertRow(Some(t1[r.requestId]), r, later) == t1[r.requestId];
  }

  /** Retry is not confined to live rows: it takes a terminal row back exactly when the row has an
      upstream id. */
  lemma RetryResurrectsIff(t: Table, id: string, now: Time)
    requires id in t && Terminal(t[id].status)
    ensures !Terminal(Retried(t, id, now)[id].status) <==> Retryable(t, id)
    ensures Retryable(t, id) ==> Retried(t, id, now)[id].status == Acknowledged
  {
  }

  /* ---- What each statement leaves behind, column by column ---- */

  /** After an upsert: a terminal status stands, an empty text and the zero time change nothing, the
      creation time is the first insert's, and no other row is touched. */
  lemma WhatUpsertStores(t: Table, r: ForwardedRequest, now: Time)
    ensures var t', id := Upserted(t, r, now), r.requestId;
            && t'.Keys == t.Keys + {id} && (forall x :: x in t && x != id ==> t'[x] == t[x])
            && (if id in t && (t[id].status == Imported || t[id].status == Failed)
                then t'[id].status == t[id].status else t'[id].status == r.status)
            && (r.externalId != "" ==> t'[id].externalId == Some(r.externalId))
            && (r.externalId == "" ==> t'[id].externalId == if id in t then t[id].externalId else None)
            && (r.errorText != "" ==> t'[id].errorText == Some(r.errorText))
            && (r.errorText == "" ==> t'[id].errorText == if id in t then t[id].errorText else None)
            && (r.lastPolled != 0 ==> t'[id].lastPolled == Some(r.lastPolled))
            && (r.lastPolled == 0 ==> t'[id].lastPolled == if id in t then t[id].lastPolled else None)
            && t'[id].createdAt == (if id in t then t[id].createdAt else now)
            && t'[id].updatedAt == (if r.updatedAt == 0 then now else r.updatedAt)
  {
  }

  /** After a successful poll: the stamp is the poll's, the error is gone, a terminal status stands, and a
      missing row stays missing. */
  lemma WhatPollStores(t: Table, id: string, externalId: string, status: Status, at: Time)
    ensures var t' := Polled(t, id, externalId, status, at);
            && t'.Keys == t.Keys && (forall x :: x in t && x != id ==> t'[x] == t[x])
            && (id in t ==>
                  && (if t[id].status == Imported || t[id].status == Failed
                      then t'[id].status == t[id].status else t'[id].status == status)
                  && t'[id].externalId == (if externalId != "" then Some(externalId) else t[id].externalId)
                  && t'[id].lastPolled == Some(at) && t'[id].errorText == None
                  && t'[id].createdAt == t[id].createdAt && t'[id].updatedAt == at)
  {
    if id !in t {
      assert Polled(t, id, externalId, status, at) == t;
    }
  }

  /** After a Retry: a row with an upstream id, whatever its status, is acknowledged, without error and
      stamp, its id kept; anything else is as before. */
  lemma WhatRetryStores(t: Table, id: string, now: Time)
    ensures var t' := Retried(t, id, now);
            && t'.Keys == t.Keys && (forall x :: x in t && x != id ==> t'[x] == t[x])
            && (id in t && (t[id].externalId == None || t[id].externalId == Some("")) ==> t'[id] == t[id])
            && (id in t && t[id].externalId != None && t[id].externalId != Some("") ==>
                  && t'[id].status == Acknowledged && t'[id].errorText == None && t'[id].lastPolled == None
                  && t'[id].externalId == t[id].externalId
                  && t'[id].createdAt == t[id].createdAt && t'[id].updatedAt == now)
  {
    if !Retryable(t, id) {
      assert Retried(t, id, now) == t;
    }
  }

  /** After Mark failed: the row is failed and shows the reason, or the default one when none was given. */
  lemma WhatMarkFailedStores(t: Table, id: string, reason: string, now: Time)
    ensures var t' := MarkedFailed(t, id, reason, now);
            && t'.Keys == t.Keys && (forall x :: x in t && x != id ==> t'[x] == t[x])
            && (id in t ==>
                  && t'[id].status == Failed
                  && t'[id].errorText == Some(if reason == "" then "marked failed by admin" else reason)
                  && t'[id].externalId == t[id].externalId && t'[id].lastPolled == t[id].lastPolled
                  && t'[id].createdAt == t[id].createdAt && t'[id].updatedAt == now)
  {
    if id !in t {
      assert MarkedFailed(t, id, reason, now) == t;
    }
  }
}
