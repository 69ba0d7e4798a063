/** What a tick sends, writes, announces and returns, in the upstream's own words. */
module Polls {
  import opened Domain
  import opened Rows
  import opened Queries
  import opened Worlds
  import opened Reconciler
  import opened Runs
  import opened Waiting

  /* ---- Every event of a tick has its word ---- */

  /** The event says of the listed row what the upstream's word means, and the row did not show it yet. */
  ghost predicate Reports(e: Event, row: ForwardedRequest, word: string, book: string) {
    || (e == RequestFulfilled(row.requestId, row.externalId, book) && word in {"completed", "imported"}
        && row.status != Imported)
    || (e == RequestFailed(row.requestId, "upstream marked failed") && word in {"failed", "not_found", "error"}
        && row.status != Failed)
    || (e == RequestStatusChanged(row.requestId, row.externalId, Searching)
        && word in {"monitored", "searching", "searching_now"} && row.status != Searching)
    || (e == RequestStatusChanged(row.requestId, row.externalId, Found) && word in {"found", "found_pending"}
        && row.status != Found)
    || (e == RequestStatusChanged(row.requestId, row.externalId, Downloading) && word in {"grabbed", "downloading"}
        && row.status != Downloading)
  }

  /** The word says nothing that the row does not show. */
  ghost predicate NothingNew(row: ForwardedRequest, word: string) {
    && (word in {"completed", "imported"} ==> row.status == Imported)
    && (word in {"failed", "not_found", "error"} ==> row.status == Failed)
    && (word in {"monitored", "searching", "searching_now"} ==> row.status == Searching)
    && (word in {"found", "found_pending"} ==> row.status == Found)
    && (word in {"grabbed", "downloading"} ==> row.status == Downloading)
  }

  lemma PollReports(w: World, row: ForwardedRequest, word: string, book: string, at: Instant, fails: bool)
    ensures var w' := RecordPoll(w, row, word, book, at, fails);
            if NothingNew(row, word) then w'.events == w.events
            else |w'.events| == |w.events| + 1 && w.events <= w'.events && Reports(w'.events[|w.events|], row, word, book)
  {
  }

  /** What one row adds: its poll, and the event of its word, if that is news. */
  lemma RowReports(p: Progress, row: ForwardedRequest, i: RowInput)
    ensures var w, w' := p.world, RowStep(p, row, i).world;
            && w'.calls == (if i.expired || row.externalId == "" then w.calls
                            else w.calls + [PollCall(row.requestId, row.externalId, i.polledAt)])
            && (if i.expired || row.externalId == "" || !i.answer.Success? || NothingNew(row, i.answer.upstream)
                then w'.events == w.events
                else |w'.events| == |w.events| + 1 && w.events <= w'.events
                     && Reports(w'.events[|w.events|], row, i.answer.upstream, i.answer.bookId))
  {
    hide NothingNew, Reports, TranslateStatus;
    if !i.expired && row.externalId != "" && i.answer.Success? {
      var sent := p.world.(calls := p.world.calls + [PollCall(row.requestId, row.externalId, i.polledAt)]);
      PollReports(sent, row, i.answer.upstream, i.answer.bookId, i.wroteAt, i.writeFails);
    }
  }

  /** The event at place e comes from the answer to a listed row's poll. */
  ghost predicate FromPoll(e: Event, rows: seq<ForwardedRequest>, env: nat -> RowInput, j: nat) {
    && j < |rows| && rows[j].externalId != "" && !env(j).expired && env(j).answer.Success?
    && Reports(e, rows[j], env(j).answer.upstream, env(j).answer.bookId)
  }

  lemma {:induction false} RowsReport(p: Progress, rows: seq<ForwardedRequest>, env: nat -> RowInput, k: nat, e: nat)
    requires k <= |rows| && |p.world.events| <= e < |RunRows(p, rows, env, k).world.events|
    ensures exists j :: FromPoll(RunRows(p, rows, env, k).world.events[e], rows, env, j)
    decreases |rows| - k
  {
    if k < |rows| && !p.stopped {
      var p' := RowStep(p, rows[k], env(k));
      RowReports(p, rows[k], env(k));
      RowsKeepEvents(p', rows, env, k + 1);
      if |p'.world.events| <= e {
        hide RowStep, Reports, NothingNew;
        RowsReport(p', rows, env, k + 1, e);
      } else {
        assert FromPoll(p'.world.events[e], rows, env, k);
      }
    }
  }

  lemma {:induction false} RowsKeepEvents(p: Progress, rows: seq<ForwardedRequest>, env: nat -> RowInput, k: nat)
    requires k <= |rows|
    ensures p.world.events <= RunRows(p, rows, env, k).world.events
    decreases |rows| - k
  {
    hide Reports, NothingNew, RowStep;
    if k < |rows| && !p.stopped {
      RowReports(p, rows[k], env(k));
      RowsKeepEvents(RowStep(p, rows[k], env(k)), rows, env, k + 1);
    }
  }

  /** Whatever faults, every event a tick adds belongs to a listed row with a job whose poll was answered
      with a word, and says what that word means: fulfilled on completed or imported, failed on failed,
      not_found or error, and a change to searching, found or downloading on theirs. */
  lemma WhatTicksAnnounce(w: World, i: TickInput, e: nat)
    requires |w.events| <= e < |TickOf(w, i).world.events|
    ensures exists j :: FromPoll(TickOf(w, i).world.events[e], Streamed(w.table, 200, i.streamed), i.rows, j)
    ensures w.events <= TickOf(w, i).world.events
  {
    var p, rows := Progress(Unparked(w), None, false), Streamed(w.table, 200, i.streamed);
    RowsReport(p, rows, i.rows, 0, e);
    RowsKeepEvents(p, rows, i.rows, 0);
  }

  /* ---- And every word its event and its row ---- */

  lemma {:induction false} RowsTell(p: Progress, rows: seq<ForwardedRequest>, i: TickInput, k: nat, j: nat)
    returns (e: nat)
    requires k <= j < |rows| && !p.stopped && rows[j].externalId != "" && i.rows(j).answer.Success?
    requires forall n :: Steady(i, n)
    requires !NothingNew(rows[j], i.rows(j).answer.upstream)
    ensures |p.world.events| <= e < |RunRows(p, rows, i.rows, k).world.events|
    ensures Reports(RunRows(p, rows, i.rows, k).world.events[e], rows[j], i.rows(j).answer.upstream,
                    i.rows(j).answer.bookId)
    decreases |rows| - k
  {
    hide Reports, NothingNew, TranslateStatus;
    var p' := RowStep(p, rows[k], i.rows(k));
    assert Steady(i, k);
    RowReports(p, rows[k], i.rows(k));
    RowsKeepEvents(p', rows, i.rows, k + 1);
    if j == k {
      e := |p.world.events|;
      assert RunRows(p, rows, i.rows, k).world.events[e] == p'.world.events[e];
    } else {
      e := RowsTell(p', rows, i, k + 1, j);
    }
  }

  /** After a complete tick a listed row with a job reads as its poll was answered: on a word the status is
      the word's, the error gone, the stamp new, and the event published if the status changed; on an error
      that is news the status is as it was and the text is shown. */
  lemma WhatTicksWrite(r: Round, j: nat)
    requires Complete(r) && j < |Listing(r.world.table, 200)| && Listing(r.world.table, 200)[j].externalId != ""
    ensures var row, input := Listing(r.world.table, 200)[j], r.input.rows(j);
            var id := row.requestId;
            && id in r.world.table && id in After(r).table
            && var before, now := r.world.table[id], After(r).table[id];
            && now.externalId == before.externalId && now.createdAt == before.createdAt
            && (input.answer.Success? ==>
                  var word := input.answer.upstream;
                  && now.lastPolled == Some(input.wroteAt) && now.errorText == None && now.updatedAt == input.wroteAt
                  && (word in {"completed", "imported"} ==> now.status == Imported)
                  && (word in {"failed", "not_found", "error"} ==> now.status == Failed)
                  && (word in {"monitored", "searching", "searching_now"} ==> now.status == Searching)
                  && (word in {"found", "found_pending"} ==> now.status == Found)
                  && (word in {"grabbed", "downloading"} ==> now.status == Downloading)
                  && (word !in {"completed", "imported", "failed", "not_found", "error", "monitored", "searching"}
                      && word !in {"searching_now", "found", "found_pending", "grabbed", "downloading"} ==>
                        now.status == before.status)
                  && (now.status != before.status ==>
                        exists e :: |r.world.events| <= e < |After(r).events|
                          && Reports(After(r).events[e], row, word, input.answer.bookId)))
            && (input.answer.Refused? && !(id in r.world.lastError && r.world.lastError[id] == input.answer.errText) ==>
                  now == before.(lastPolled := Some(input.wroteAt), errorText := Some(input.answer.errText),
                                 updatedAt := input.wroteAt))
  {
    var rows := Listing(r.world.table, 200);
    var row, input := rows[j], r.input.rows(j);
    var p := Progress(Unparked(r.world), None, false);
    ListingIsFresh(r.world.table);
    ListingMeaning(r.world.table, 200);
    assert FreshRow(r.world.table, row);
    assert Steady(r.input, j);
    RowsWritten(p, rows, r.input, 0, j);
    assert After(r) == RunRows(p, rows, r.input.rows, 0).world;
    if input.answer.Success? {
      WhatWordsMean(row.status, input.answer.upstream);
      if !NothingNew(row, input.answer.upstream) {
        var e := RowsTell(p, rows, r.input, 0, j);
      } else {
        SaysNothing(row, input.answer.upstream);
      }
    }
    hide TickOf, RunRows, TranslateStatus, Reports, NothingNew;
  }

  lemma SaysNothing(row: ForwardedRequest, word: string)
    requires NothingNew(row, word)
    ensures Target(row.status, word) == row.status
  {
  }

  /** What an answer leaves in the reconciler and the table, whatever the table holds by now. A rate limit
      parks for its delay, a minute if it names none, ten at most, and ends the loop; its text and that of
      any other error go to the cache and, if they are news, to the row with the status and id listed. A
      success forgets the error. */
  lemma WhatAnswersDo(p: Progress, row: ForwardedRequest, i: RowInput)
    requires !i.expired && row.externalId != ""
    ensures var w, w', id := p.world, RowStep(p, row, i).world, row.requestId;
            && (forall x :: x != id ==> (x in w'.lastError <==> x in w.lastError))
            && (i.answer.Success? ==> id !in w'.lastError && w'.backoffUntil == w.backoffUntil)
            && (i.answer.Refused? ==>
                  && id in w'.lastError && w'.lastError[id] == i.answer.errText && w'.backoffUntil == w.backoffUntil
                  && w'.table == if i.writeFails || (id in w.lastError && w.lastError[id] == i.answer.errText)
                                 then w.table
                                 else Upserted(w.table, ForwardedRequest(id, row.externalId, row.status, i.wroteAt,
                                                                         i.answer.errText, 0, i.wroteAt), i.wroteAt))
            && (i.answer.Limited? ==>
                  && id in w'.lastError && w'.lastError[id] == i.answer.limitText && RowStep(p, row, i).stopped
                  && (i.answer.retryAfter <= 0 ==> w'.backoffUntil == i.wroteAt + 60_000_000_000)
                  && (0 < i.answer.retryAfter <= 600_000_000_000 ==> w'.backoffUntil == i.wroteAt + i.answer.retryAfter)
                  && (i.answer.retryAfter > 600_000_000_000 ==> w'.backoffUntil == i.wroteAt + 600_000_000_000)
                  && w'.table == if i.writeFails || (id in w.lastError && w.lastError[id] == i.answer.limitText)
                                 then w.table
                                 else Upserted(w.table, ForwardedRequest(id, row.externalId, row.status, i.wroteAt,
                                                                         i.answer.limitText, 0, i.wroteAt), i.wroteAt))
  {
    hide Upserted, TranslateStatus;
  }

  /** The write of an answered poll: with the status its word means, or the one listed; none if it faults. */
  lemma WhatWordsWrite(p: Progress, row: ForwardedRequest, i: RowInput, status: Status)
    requires !i.expired && row.externalId != "" && i.answer.Success?
    requires var word := i.answer.upstream;
             if word in {"completed", "imported"} then status == Imported
             else if word in {"failed", "not_found", "error"} then status == Failed
             else if word in {"monitored", "searching", "searching_now"} then status == Searching
             else if word in {"found", "found_pending"} then status == Found
             else if word in {"grabbed", "downloading"} then status == Downloading
             else status == row.status
    ensures RowStep(p, row, i).world.table
            == if i.writeFails then p.world.table
               else Polled(p.world.table, row.requestId, row.externalId, status, i.wroteAt)
  {
    hide Polled, TranslateStatus;
    WhatWordsMean(row.status, i.answer.upstream);
  }

  /* ---- What a tick returns ---- */

  /** The row makes the tick fail: a rate limit always, a lost write of a poll, a lost record of an error. */
  ghost predicate Fails(cached: map<string, ErrorText>, row: ForwardedRequest, i: RowInput) {
    && !i.expired && row.externalId != ""
    && (|| i.answer.Limited?
        || (i.writeFails && i.answer.Success?)
        || (i.writeFails && i.answer.Refused?
            && !(row.requestId in cached && cached[row.requestId] == i.answer.errText)))
  }

  /** The error such a row stands for. */
  ghost predicate IsErrorOf(e: TickError, row: ForwardedRequest, i: RowInput) {
    && (i.answer.Limited? ==> e == RateLimit(i.answer.limitText))
    && (i.answer.Refused? ==> e == UpsertAfterUpstreamError)
    && (i.answer.Success? && NothingNew(row, i.answer.upstream) ==> e == MarkPolledNoTransition)
    && (i.answer.Success? && !NothingNew(row, i.answer.upstream) ==> e == MarkPolledStatusChange)
  }

  lemma RowFails(p: Progress, row: ForwardedRequest, i: RowInput)
    requires p.firstErr.None? && !p.stopped
    ensures RowStep(p, row, i).firstErr.Some? <==> Fails(p.world.lastError, row, i)
    ensures RowStep(p, row, i).firstErr.Some? ==> IsErrorOf(RowStep(p, row, i).firstErr.value, row, i)
    ensures RowStep(p, row, i).stopped <==> i.expired || (row.externalId != "" && i.answer.Limited?)
    ensures forall id :: id != row.requestId ==>
              (id in RowStep(p, row, i).world.lastError <==> id in p.world.lastError)
              && (id in p.world.lastError ==> RowStep(p, row, i).world.lastError[id] == p.world.lastError[id])
  {
    if i.answer.Success? {
      WhatWordsMean(row.status, i.answer.upstream);
    }
    RowStepFrame(p, row, i);
  }

  lemma {:induction false} FirstErrorStays(p: Progress, rows: seq<ForwardedRequest>, env: nat -> RowInput, k: nat)
    requires k <= |rows| && p.firstErr.Some?
    ensures RunRows(p, rows, env, k).firstErr == p.firstErr
    decreases |rows| - k
  {
    if k < |rows| && !p.stopped {
      FirstErrorStays(RowStep(p, rows[k], env(k)), rows, env, k + 1);
    }
  }

  lemma {:induction false} FirstFailure(p: Progress, rows: seq<ForwardedRequest>, env: nat -> RowInput, k: nat)
    returns (j: nat)
    requires k <= |rows| && p.firstErr.None? && !p.stopped && Fresh(p.world.table, rows, k)
    ensures var err := RunRows(p, rows, env, k).firstErr;
            && k <= j <= |rows|
            && (forall m :: k <= m < j ==> !Fails(p.world.lastError, rows[m], env(m)))
            && (err.Some? ==>
                  j < |rows| && Fails(p.world.lastError, rows[j], env(j)) && IsErrorOf(err.value, rows[j], env(j)))
            && (err.None? ==> j == |rows| || env(j).expired)
    decreases |rows| - k
  {
    hide Fails, IsErrorOf, RowStep;
    j := k;
    if k < |rows| {
      var p' := RowStep(p, rows[k], env(k));
      RowFails(p, rows[k], env(k));
      if p'.firstErr.Some? {
        FirstErrorStays(p', rows, env, k + 1);
      } else if p'.stopped {
        if !env(k).expired {
          LimitFails(p.world.lastError, rows[k], env(k));
        }
      } else {
        FreshAfterStep(p, rows, k, env(k));
        j := FirstFailure(p', rows, env, k + 1);
        forall m | k < m < |rows|
          ensures Fails(p'.world.lastError, rows[m], env(m)) == Fails(p.world.lastError, rows[m], env(m))
        {
          FailsAlike(p.world.lastError, p'.world.lastError, rows[m], env(m));
        }
      }
    }
  }

  lemma LimitFails(cached: map<string, ErrorText>, row: ForwardedRequest, i: RowInput)
    requires !i.expired && row.externalId != "" && i.answer.Limited?
    ensures Fails(cached, row, i)
  {
  }

  lemma FailsAlike(cached: map<string, ErrorText>, cached': map<string, ErrorText>, row: ForwardedRequest, i: RowInput)
    requires row.requestId in cached <==> row.requestId in cached'
    requires row.requestId in cached ==> cached'[row.requestId] == cached[row.requestId]
    ensures Fails(cached', row, i) == Fails(cached, row, i)
  {
  }

  /** The error a tick returns, and shows in its snapshot, is that of the first row that fails, and there is
      none exactly when none does before the loop ends or the budget is spent. */
  lemma WhatTicksReturn(w: World, i: TickInput) returns (j: nat)
    requires w.backoffUntil <= i.startedAt && !i.listFails
    ensures var rows, r := Streamed(w.table, 200, i.streamed), TickOf(w, i);
            && j <= |rows| && (forall m :: 0 <= m < j ==> !Fails(w.lastError, rows[m], i.rows(m)))
            && (r.err.Some? ==>
                  && j < |rows| && Fails(w.lastError, rows[j], i.rows(j)) && IsErrorOf(r.err.value, rows[j], i.rows(j))
                  && r.status.lastError == TickFailed(r.err.value))
            && (r.err.None? ==> (j == |rows| || i.rows(j).expired) && r.status.lastError == NoError)
            && r.status.lastRunAt == i.endedAt && r.status.lastDuration == i.endedAt - i.startedAt
            && r.status.rowsProcessed == |rows| && !r.status.skipped
  {
    WhenParked(w.backoffUntil, i.startedAt);
    ListingIsFresh(w.table);
    hide Listing, Streamed, Fails, IsErrorOf, RunRows;
    j := FirstFailure(Progress(Unparked(w), None, false), Streamed(w.table, 200, i.streamed), i.rows, 0);
  }

  /** A parked tick touches nothing and says for how long; one whose listing fails says so. */
  lemma WhatOtherTicksReturn(w: World, i: TickInput)
    ensures w.backoffUntil > i.startedAt ==>
              TickOf(w, i)
              == TickResult(w, TickStatus(i.startedAt, 0, 0, Backoff(w.backoffUntil - i.startedAt), true), None)
    ensures w.backoffUntil <= i.startedAt && i.listFails ==>
              TickOf(w, i) == TickResult(w.(backoffUntil := 0),
                                         TickStatus(i.endedAt, i.endedAt - i.startedAt, 0, TickFailed(ListFailed), false),
                                         Some(ListFailed))
  {
  }
}
