/** The reconciler: one Tick as a function of the world and its environment,
    and the object whose methods are proved against it. */
module Reconciler {
  import opened Domain
  import opened Rows
  import opened Queries
  import opened Worlds
  import Client
  import S = Store

  const BATCH: int := 200

  /** translateStatus; None is the "" that holds the current status. */
  function TranslateStatus(upstream: string): (r: Option<Status>)
    ensures r.Some? ==> Lifecycle(r.value) && !r.value.Submitted? && !r.value.Acknowledged?
  {
    if upstream == "monitored" || upstream == "searching" || upstream == "searching_now" then Some(Searching)
    else if upstream == "found" || upstream == "found_pending" then Some(Found)
    else if upstream == "grabbed" || upstream == "downloading" then Some(Downloading)
    else if upstream == "completed" || upstream == "imported" then Some(Imported)
    else if upstream == "failed" || upstream == "not_found" || upstream == "error" then Some(Failed)
    else None
  }

  /** The status a successful poll writes. */
  function Target(current: Status, upstream: string): Status {
    GetOr(TranslateStatus(upstream), current)
  }

  const ENDINGS := {"completed", "imported", "failed", "not_found", "error"}

  /** What a poll can do to a live row: it ends it exactly on one of five words, and writes submitted,
      acknowledged or a foreign status only by holding the one the row has. */
  lemma PollOfLiveRow(current: Status, upstream: string)
    requires !Terminal(current)
    ensures Terminal(Target(current, upstream)) <==> upstream in ENDINGS
    ensures var written := Target(current, upstream);
            written == current || (Lifecycle(written) && !written.Submitted? && !written.Acknowledged?)
  {
  }

  /** What each word of the upstream makes of the status a row has. */
  lemma WhatWordsMean(held: Status, word: string)
    ensures word in {"monitored", "searching", "searching_now"} ==> Target(held, word) == Searching
    ensures word in {"found", "found_pending"} ==> Target(held, word) == Found
    ensures word in {"grabbed", "downloading"} ==> Target(held, word) == Downloading
    ensures word in {"completed", "imported"} ==> Target(held, word) == Imported
    ensures word in {"failed", "not_found", "error"} ==> Target(held, word) == Failed
    ensures word !in {"monitored", "searching", "searching_now", "found", "found_pending", "grabbed"}
            && word !in {"downloading", "completed", "imported", "failed", "not_found", "error"} ==>
              Target(held, word) == held
  {
  }

  /** And backwards: which word, if the row did not have the status already. */
  lemma WhichWord(held: Status, word: string)
    ensures held != Searching ==>
              (Target(held, word) == Searching <==> word in {"monitored", "searching", "searching_now"})
    ensures held != Found ==> (Target(held, word) == Found <==> word in {"found", "found_pending"})
    ensures held != Downloading ==> (Target(held, word) == Downloading <==> word in {"grabbed", "downloading"})
    ensures held != Imported ==> (Target(held, word) == Imported <==> word in {"completed", "imported"})
    ensures held != Failed ==> (Target(held, word) == Failed <==> word in {"failed", "not_found", "error"})
  {
  }

  const UPSTREAM_FAILED := "upstream marked failed"

  function EventFor(id: string, externalId: string, status: Status, bookId: string): Event {
    match status
    case Imported => RequestFulfilled(id, externalId, bookId)
    case Failed => RequestFailed(id, UPSTREAM_FAILED)
    case _ => RequestStatusChanged(id, externalId, status)
  }

  /** The write that records a poll error, built from the snapshot. */
  function ErrorWrite(row: ForwardedRequest, err: string, at: Time): ForwardedRequest {
    ForwardedRequest(row.requestId, row.externalId, row.status, at, err, ZERO_TIME, at)
  }

  predicate ErrorChanged(lastError: map<string, ErrorText>, id: string, err: string) {
    !(id in lastError && lastError[id] == err)
  }

  datatype TickError =
    | ListFailed
    | RateLimit(text: ErrorText)
    | UpsertAfterUpstreamError
    | MarkPolledNoTransition
    | MarkPolledStatusChange

  datatype LastError = NoError | TickFailed(error: TickError) | Backoff(remaining: int)

  datatype TickStatus = TickStatus(
    lastRunAt: Time, lastDuration: int, rowsProcessed: nat, lastError: LastError, skipped: bool)

  /** The environment of one row: whether the tick's context is done, what the upstream answers,
      whether the store faults, and the clock at the call and after it. */
  datatype RowInput = RowInput(expired: bool, answer: Answer, writeFails: bool, polledAt: Instant, wroteAt: Instant)

  /** The environment of a tick: `streamed` bounds the rows its listing gets before the row stream breaks. */
  datatype TickInput = TickInput(
    startedAt: Instant, listFails: bool, streamed: nat, rows: nat -> RowInput, endedAt: Instant)

  /** The loop's state between rows. */
  datatype Progress = Progress(world: World, firstErr: Option<TickError>, stopped: bool)

  function FirstError(prev: Option<TickError>, failed: bool, e: TickError): Option<TickError> {
    if prev.None? && failed then Some(e) else prev
  }

  /** Records a poll error unless the cache holds the same text for this row. */
  function RecordError(w: World, row: ForwardedRequest, err: ErrorText, at: Instant, fails: bool): World {
    if ErrorChanged(w.lastError, row.requestId, err) then
      w.(lastError := w.lastError[row.requestId := err],
         table := if fails then w.table else Upserted(w.table, ErrorWrite(row, err, at), at))
    else w
  }

  /** Records a successful poll, and announces a transition whether or not the write went through. */
  function RecordPoll(w: World, row: ForwardedRequest, upstream: string, bookId: string, at: Instant, fails: bool): World {
    var status := Target(row.status, upstream);
    w.(lastError := w.lastError - {row.requestId},
       table := if fails then w.table else Polled(w.table, row.requestId, row.externalId, status, at),
       events := if status == row.status then w.events
                 else w.events + [EventFor(row.requestId, row.externalId, status, bookId)])
  }

  function PollError(row: ForwardedRequest, upstream: string): TickError {
    if Target(row.status, upstream) == row.status then MarkPolledNoTransition else MarkPolledStatusChange
  }

  /** What follows from the upstream's answer to a poll. */
  function AfterAnswer(p: Progress, row: ForwardedRequest, i: RowInput): Progress {
    match i.answer
    case Limited(retryAfter, err) =>
      var parked := p.world.(backoffUntil := i.wroteAt + Client.Clamped(retryAfter));
      Progress(RecordError(parked, row, err, i.wroteAt, i.writeFails),
               FirstError(p.firstErr, true, RateLimit(err)), true)
    case Refused(err) =>
      Progress(RecordError(p.world, row, err, i.wroteAt, i.writeFails),
               FirstError(p.firstErr, i.writeFails && ErrorChanged(p.world.lastError, row.requestId, err),
                          UpsertAfterUpstreamError),
               false)
    case Success(_, upstream, bookId) =>
      Progress(RecordPoll(p.world, row, upstream, bookId, i.wroteAt, i.writeFails),
               FirstError(p.firstErr, i.writeFails, PollError(row, upstream)), false)
  }

  /** One iteration of the loop. */
  function RowStep(p: Progress, row: ForwardedRequest, i: RowInput): Progress {
    if i.expired then p.(stopped := true)
    else if row.externalId == "" then p
    else
      var sent := p.world.calls + [PollCall(row.requestId, row.externalId, i.polledAt)];
      AfterAnswer(Progress(p.world.(calls := sent), p.firstErr, false), row, i)
  }

  /** The rest of the loop, from row k on. */
  function RunRows(p: Progress, rows: seq<ForwardedRequest>, env: nat -> RowInput, k: nat): Progress
    requires k <= |rows|
    decreases |rows| - k
  {
    if k == |rows| || p.stopped then p else RunRows(RowStep(p, rows[k], env(k)), rows, env, k + 1)
  }

  function Remaining(backoffUntil: Time, now: Time): int {
    if backoffUntil == ZERO_TIME || backoffUntil - now <= 0 then 0 else backoffUntil - now
  }

  /** A tick is parked exactly while the end of the window lies ahead, and for that long. */
  lemma WhenParked(until: Time, now: Instant)
    ensures Remaining(until, now) > 0 <==> until > now
    ensures until > now ==> now + Remaining(until, now) == until
    ensures until <= now ==> Remaining(until, now) == 0
  {
  }

  /** The world after the backoff check of a tick that is not parked. */
  function Unparked(w: World): World {
    w.(backoffUntil := ZERO_TIME)
  }

  datatype TickResult = TickResult(world: World, status: TickStatus, err: Option<TickError>)

  /** One whole Tick that won the lock. */
  ghost function TickOf(w: World, i: TickInput): TickResult {
    var remain := Remaining(w.backoffUntil, i.startedAt);
    if remain > 0 then
      TickResult(w, TickStatus(i.startedAt, 0, 0, Backoff(remain), true), None)
    else RestOfTick(Unparked(w), i)
  }

  /** The rest of a tick that is not parked. */
  ghost function RestOfTick(w: World, i: TickInput): TickResult {
    if i.listFails then
      TickResult(w, TickStatus(i.endedAt, i.endedAt - i.startedAt, 0, TickFailed(ListFailed), false), Some(ListFailed))
    else
      var rows := Streamed(w.table, BATCH, i.streamed);
      var p := RunRows(Progress(w, None, false), rows, i.rows, 0);
      TickResult(p.world,
                 TickStatus(i.endedAt, i.endedAt - i.startedAt, |rows|,
                            if p.firstErr.Some? then TickFailed(p.firstErr.value) else NoError, false),
                 p.firstErr)
  }

  class Reconciler {
    const store: S.Store
    const pub: Publisher
    const ebk: Upstream
    var locked: bool
    var status: TickStatus
    var lastError: map<string, ErrorText>
    var backoffUntil: Time

    constructor (store: S.Store, pub: Publisher, ebk: Upstream)
      ensures this.store == store && this.pub == pub && this.ebk == ebk
      ensures !locked && lastError == map[] && backoffUntil == ZERO_TIME
    {
      this.store, this.pub, this.ebk := store, pub, ebk;
      locked, lastError, backoffUntil := false, map[], ZERO_TIME;
      status := TickStatus(ZERO_TIME, 0, 0, NoError, false);
    }

    ghost function View(): World
      reads this, store, pub, ebk
    {
      World(store.table, pub.events, ebk.calls, lastError, backoffUntil)
    }

    method RecordErrorChanged(id: string, err: ErrorText) returns (changed: bool)
      modifies this`lastError
      ensures changed == ErrorChanged(old(lastError), id, err)
      ensures changed <==> id !in old(lastError) || old(lastError)[id] != err
      ensures lastError == old(lastError)[id := err]
    {
      if id in lastError && lastError[id] == err {
        assert lastError == lastError[id := err];
        return false;
      }
      lastError := lastError[id := err];
      changed := true;
    }

    method ClearError(id: string)
      modifies this`lastError
      ensures lastError == old(lastError) - {id}
    {
      lastError := lastError - {id};
    }

    method BackoffRemaining(now: Time) returns (d: int)
      modifies this`backoffUntil
      ensures d == Remaining(old(backoffUntil), now)
      ensures backoffUntil == if d > 0 then old(backoffUntil) else ZERO_TIME
    {
      if backoffUntil == ZERO_TIME {
        return 0;
      }
      d := backoffUntil - now;
      if d <= 0 {
        backoffUntil := ZERO_TIME;
        return 0;
      }
    }

    method SetBackoff(retryAfter: int, now: Time)
      modifies this`backoffUntil
      ensures backoffUntil == now + Client.Clamped(retryAfter)
      ensures now < backoffUntil <= now + 600 * SECOND
    {
      var d := retryAfter;
      if d <= 0 {
        d := 60 * SECOND;
      }
      if d > 600 * SECOND {
        d := 600 * SECOND;
      }
      backoffUntil := now + d;
    }

    /** The error path of one row: persists the error unless it is the one already on record. */
    method PersistError(row: ForwardedRequest, err: ErrorText, at: Instant, fails: bool) returns (failed: bool)
      requires row.requestId != ""
      modifies this`lastError, store
      ensures RecordError(old(View()), row, err, at, fails) == View()
      ensures failed == (fails && ErrorChanged(old(lastError), row.requestId, err))
    {
      failed := false;
      var changed := RecordErrorChanged(row.requestId, err);
      if changed {
        var uerr := store.UpsertForwardedRequest(ErrorWrite(row, err, at), at, fails);
        failed := uerr.Some?;
      } else {
        assert old(lastError)[row.requestId := err] == old(lastError);
      }
    }

    /** The success path of one row. */
    method PersistPoll(row: ForwardedRequest, upstream: string, bookId: string, at: Instant, fails: bool)
      returns (failed: Option<TickError>)
      requires row.requestId != ""
      modifies this`lastError, store, pub
      ensures RecordPoll(old(View()), row, upstream, bookId, at, fails) == View()
      ensures failed == if fails then Some(PollError(row, upstream)) else None
    {
      failed := None;
      ClearError(row.requestId);
      var translated := TranslateStatus(upstream);
      if translated.None? || translated.value == row.status {
        var uerr := store.MarkPolled(row.requestId, row.externalId, row.status, at, at, fails);
        if uerr.Some? {
          failed := Some(MarkPolledNoTransition);
        }
        return;
      }
      var newStatus := translated.value;
      var uerr := store.MarkPolled(row.requestId, row.externalId, newStatus, at, at, fails);
      if uerr.Some? {
        failed := Some(MarkPolledStatusChange);
      }
      if newStatus.Imported? {
        ClearError(row.requestId);
        pub.Publish(RequestFulfilled(row.requestId, row.externalId, bookId));
      } else if newStatus.Failed? {
        ClearError(row.requestId);
        pub.Publish(RequestFailed(row.requestId, UPSTREAM_FAILED));
      } else {
        pub.Publish(RequestStatusChanged(row.requestId, row.externalId, newStatus));
      }
      assert old(lastError) - {row.requestId} - {row.requestId} == old(lastError) - {row.requestId};
    }

    /** One iteration of Tick's loop. */
    method PollOne(row: ForwardedRequest, i: RowInput, prev: Option<TickError>)
      returns (firstErr: Option<TickError>, stop: bool)
      requires row.requestId != ""
      modifies this`lastError, this`backoffUntil, store, pub, ebk
      ensures RowStep(Progress(old(View()), prev, false), row, i) == Progress(View(), firstErr, stop)
    {
      firstErr, stop := prev, false;
      if i.expired {
        return prev, true;
      }
      if row.externalId == "" {
        return;
      }
      var answer := ebk.Send(PollCall(row.requestId, row.externalId, i.polledAt), i.answer);
      match answer {
        case Limited(retryAfter, text) =>
          SetBackoff(retryAfter, i.wroteAt);
          var _ := PersistError(row, text, i.wroteAt, i.writeFails);
          firstErr := FirstError(prev, true, RateLimit(text));
          stop := true;
        case Refused(text) =>
          var failed := PersistError(row, text, i.wroteAt, i.writeFails);
          firstErr := FirstError(prev, failed, UpsertAfterUpstreamError);
        case Success(_, upstream, bookId) =>
          var failed := PersistPoll(row, upstream, bookId, i.wroteAt, i.writeFails);
          firstErr := FirstError(prev, failed.Some?, PollError(row, upstream));
      }
    }

    /** Tick's loop over the listed rows. */
    method PollRows(rows: seq<ForwardedRequest>, env: nat -> RowInput) returns (firstErr: Option<TickError>)
      requires forall k :: 0 <= k < |rows| ==> rows[k].requestId != ""
      modifies this`lastError, this`backoffUntil, store, pub, ebk
      ensures var p := RunRows(Progress(old(View()), None, false), rows, env, 0);
              View() == p.world && firstErr == p.firstErr
    {
      ghost var start := Progress(View(), None, false);
      var stopped := false;
      firstErr := None;
      var k := 0;
      while k < |rows| && !stopped
        invariant 0 <= k <= |rows|
        invariant RunRows(start, rows, env, 0) == RunRows(Progress(View(), firstErr, stopped), rows, env, k)
        decreases |rows| - k
      {
        firstErr, stopped := PollOne(rows[k], env(k), firstErr);
        k := k + 1;
      }
    }

    /** Tick. A call that finds the lock taken changes only the status snapshot. */
    method Tick(i: TickInput) returns (err: Option<TickError>)
      requires store.Valid()
      modifies this, store, pub, ebk
      ensures locked == old(locked)
      ensures old(locked) ==> View() == old(View()) && err.None?
                              && status == TickStatus(i.startedAt, 0, 0, NoError, true)
      ensures !old(locked) ==> TickResult(View(), status, err) == TickOf(old(View()), i)
    {
      if locked {
        status := TickStatus(i.startedAt, 0, 0, NoError, true);
        return None;
      }
      hide RestOfTick;
      locked := true;
      var remain := BackoffRemaining(i.startedAt);
      if remain > 0 {
        status := TickStatus(i.startedAt, 0, 0, Backoff(remain), true);
        locked := false;
        return None;
      }
      err := Work(i);
      locked := false;
    }

    /** Tick past the backoff check. */
    method Work(i: TickInput) returns (err: Option<TickError>)
      requires store.Valid()
      modifies this`lastError, this`backoffUntil, this`status, store, pub, ebk
      ensures TickResult(View(), status, err) == RestOfTick(old(View()), i)
    {
      hide RunRows, Listing, Streamed, Stats;
      var listed := store.ListNonTerminal(BATCH, i.listFails, i.streamed);
      if listed.None? {
        status := TickStatus(i.endedAt, i.endedAt - i.startedAt, 0, TickFailed(ListFailed), false);
        return Some(ListFailed);
      }
      ListingMeaning(store.table, BATCH);
      err := PollRows(listed.value, i.rows);
      status := TickStatus(i.endedAt, i.endedAt - i.startedAt, |listed.value|,
                           if err.Some? then TickFailed(err.value) else NoError, false);
    }
  }
}
