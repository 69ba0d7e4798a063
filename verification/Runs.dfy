/** Sequences of whole calls: deliveries, ticks and admin actions, none
    overlapping another. */
module Runs {
  import opened Domain
  import opened Rows
  import opened Queries
  import opened Worlds
  import opened Consumer
  import opened Reconciler

  datatype Action =
    | Deliver(message: Message, delivery: Delivery)
    | RunTick(input: TickInput)
    | Retry(id: string, at: Time)
    | MarkFailed(id: string, reason: string, at: Time)

  ghost function Step(w: World, a: Action): World {
    match a
    case Deliver(m, d) => Handle(w, m, d).0
    case RunTick(i) => TickOf(w, i).world
    case Retry(id, at) => w.(table := Retried(w.table, id, at))
    case MarkFailed(id, reason, at) => w.(table := MarkedFailed(w.table, id, reason, at))
  }

  ghost function Run(acts: seq<Action>): World {
    if acts == [] then INIT else Step(Run(acts[..|acts| - 1]), acts[|acts| - 1])
  }

  /* ---- One row of an uninterleaved tick ---- */

  ghost predicate FreshRow(t: Table, row: ForwardedRequest) {
    && row.requestId in t
    && !Terminal(t[row.requestId].status)
    && row == Snapshot(row.requestId, t[row.requestId])
  }

  /** The rows from k on are distinct and still as they were listed. */
  ghost predicate Fresh(t: Table, rows: seq<ForwardedRequest>, k: nat) {
    && (forall i, j :: 0 <= i < j < |rows| ==> rows[i].requestId != rows[j].requestId)
    && (forall j :: k <= j < |rows| ==> FreshRow(t, rows[j]))
  }

  lemma ListingIsFresh(t: Table)
    ensures Fresh(t, Listing(t, BATCH), 0)
    ensures forall n: nat :: Fresh(t, Streamed(t, BATCH, n), 0)
  {
    ListingMeaning(t, BATCH);
  }

  /** What one iteration writes when the snapshot is current. */
  ghost function FreshWrite(w: World, row: ForwardedRequest, i: RowInput): Row
    requires FreshRow(w.table, row)
  {
    var r := w.table[row.requestId];
    if i.expired || row.externalId == "" || i.writeFails then r
    else
      match i.answer
      case Success(_, upstream, _) =>
        r.(status := Target(r.status, upstream), lastPolled := Some(i.wroteAt), errorText := None,
           updatedAt := i.wroteAt)
      case Limited(_, err) =>
        if ErrorChanged(w.lastError, row.requestId, err)
        then r.(lastPolled := Some(i.wroteAt), errorText := Some(err), updatedAt := i.wroteAt) else r
      case Refused(err) =>
        if ErrorChanged(w.lastError, row.requestId, err)
        then r.(lastPolled := Some(i.wroteAt), errorText := Some(err), updatedAt := i.wroteAt) else r
  }

  lemma RowStepWrites(p: Progress, row: ForwardedRequest, i: RowInput)
    requires FreshRow(p.world.table, row)
    ensures RowStep(p, row, i).world.table == p.world.table[row.requestId := FreshWrite(p.world, row, i)]
  {
    var t := p.world.table;
    assert t == t[row.requestId := t[row.requestId]];
  }

  lemma RowStepFrame(p: Progress, row: ForwardedRequest, i: RowInput)
    ensures forall id :: id != row.requestId && id in p.world.lastError ==>
              id in RowStep(p, row, i).world.lastError && RowStep(p, row, i).world.lastError[id] == p.world.lastError[id]
    ensures forall id :: id != row.requestId && id in RowStep(p, row, i).world.lastError ==> id in p.world.lastError
  {
  }

  lemma FreshAfterStep(p: Progress, rows: seq<ForwardedRequest>, k: nat, i: RowInput)
    requires k < |rows| && Fresh(p.world.table, rows, k)
    ensures Fresh(RowStep(p, rows[k], i).world.table, rows, k + 1)
  {
    RowStepWrites(p, rows[k], i);
  }

  /* ---- The table is the fold of the event log ---- */

  function EventStatus(e: Event): Status {
    match e
    case RequestAcknowledged(_, _) => Acknowledged
    case RequestStatusChanged(_, _, s) => s
    case RequestFulfilled(_, _, _) => Imported
    case RequestFailed(_, _) => Failed
  }

  /** The status a listener would hold after the log: the latest one, imported and failed absorbing. */
  function Folded(events: seq<Event>, id: string): Option<Status> {
    if events == [] then None
    else
      var prev := Folded(events[..|events| - 1], id);
      var e := events[|events| - 1];
      if e.id != id || (prev.Some? && Terminal(prev.value)) then prev else Some(EventStatus(e))
  }

  function StatusIn(t: Table, id: string): Option<Status> {
    if id in t then Some(t[id].status) else None
  }

  ghost predicate LogAgrees(w: World) {
    forall id :: StatusIn(w.table, id) == Folded(w.events, id)
  }

  lemma FoldedAppend(events: seq<Event>, e: Event, id: string)
    ensures Folded(events + [e], id) ==
            var prev := Folded(events, id);
            if e.id != id || (prev.Some? && Terminal(prev.value)) then prev else Some(EventStatus(e))
  {
    assert (events + [e])[..|events|] == events;
  }

  /** One write of a live row keeps the two together when its new status is the event's, or is the
      old one and there is no event. */
  lemma LogAgreesWrite(w: World, w': World, id: string, r: Row, e: Option<Event>)
    requires LogAgrees(w) && id in w.table && !Terminal(w.table[id].status)
    requires w'.table == w.table[id := r]
    requires w'.events == if e.Some? then w.events + [e.value] else w.events
    requires if e.Some? then e.value.id == id && EventStatus(e.value) == r.status else r.status == w.table[id].status
    ensures LogAgrees(w')
  {
    hide Folded;
    forall x ensures StatusIn(w'.table, x) == Folded(w'.events, x) {
      assert StatusIn(w.table, x) == Folded(w.events, x);
      if e.Some? {
        FoldedAppend(w.events, e.value, x);
      }
    }
  }

  lemma LogAgreesAfterRow(p: Progress, row: ForwardedRequest, i: RowInput)
    requires FreshRow(p.world.table, row) && LogAgrees(p.world) && !i.writeFails
    ensures LogAgrees(RowStep(p, row, i).world)
  {
    var w, w' := p.world, RowStep(p, row, i).world;
    RowStepWrites(p, row, i);
    hide LogAgrees, TranslateStatus, Upserted, Polled;
    var e := if w'.events == w.events then None else Some(w'.events[|w.events|]);
    LogAgreesWrite(w, w', row.requestId, FreshWrite(w, row, i), e);
  }

  lemma {:induction false} LogAgreesAfterRows(p: Progress, rows: seq<ForwardedRequest>, env: nat -> RowInput, k: nat)
    requires k <= |rows| && Fresh(p.world.table, rows, k) && LogAgrees(p.world)
    requires forall j :: !env(j).writeFails
    ensures LogAgrees(RunRows(p, rows, env, k).world)
    decreases |rows| - k
  {
    if k < |rows| && !p.stopped {
      FreshAfterStep(p, rows, k, env(k));
      LogAgreesAfterRow(p, rows[k], env(k));
      LogAgreesAfterRows(RowStep(p, rows[k], env(k)), rows, env, k + 1);
    }
  }

  lemma LogAgreesAfterDelivery(w: World, m: Message, d: Delivery)
    requires LogAgrees(w) && !d.outcomeFails
    ensures LogAgrees(Handle(w, m, d).0)
  {
    var w' := Handle(w, m, d).0;
    if w' != w {
      var e := w'.events[|w.events|];
      forall id ensures StatusIn(w'.table, id) == Folded(w'.events, id) {
        assert StatusIn(w.table, id) == Folded(w.events, id);
        FoldedAppend(w.events, e, id);
      }
    }
  }

  /** A poll whose write is lost is announced all the same: the log and the table part exactly when
      the poll saw a transition. */
  lemma LostPollPartsLog(p: Progress, row: ForwardedRequest, i: RowInput)
    requires FreshRow(p.world.table, row) && LogAgrees(p.world)
    requires i.writeFails && !i.expired && row.externalId != "" && i.answer.Success?
    ensures LogAgrees(RowStep(p, row, i).world) <==> Target(row.status, i.answer.upstream) == row.status
  {
    RowStepWrites(p, row, i);
    var w, w' := p.world, RowStep(p, row, i).world;
    assert StatusIn(w.table, row.requestId) == Folded(w.events, row.requestId);
    if w'.events == w.events {
      assert forall id :: StatusIn(w'.table, id) == StatusIn(w.table, id);
    } else {
      FoldedAppend(w.events, w'.events[|w.events|], row.requestId);
      assert StatusIn(w'.table, row.requestId) != Folded(w'.events, row.requestId);
    }
  }

  /** A delivery whose outcome is not recorded leaves the two in agreement exactly when the row had
      ended before, or was already just submitted and the delivery is to be repeated. */
  lemma LostOutcomePartsLog(w: World, m: Message, d: Delivery)
    requires LogAgrees(w) && m.targeted && m.id != "" && !d.submitFails && d.outcomeFails
    ensures LogAgrees(Handle(w, m, d).0)
            <==> (m.id in w.table && Terminal(w.table[m.id].status))
                 || (m.complete && StatusIn(w.table, m.id) == Some(Submitted))
  {
    var w' := Handle(w, m, d).0;
    forall id ensures id != m.id ==> StatusIn(w'.table, id) == Folded(w'.events, id) {
      assert StatusIn(w.table, id) == Folded(w.events, id);
      if w'.events != w.events {
        FoldedAppend(w.events, w'.events[|w.events|], id);
      }
    }
    assert StatusIn(w.table, m.id) == Folded(w.events, m.id);
    if w'.events != w.events {
      FoldedAppend(w.events, w'.events[|w.events|], m.id);
    }
    assert LogAgrees(w') <==> StatusIn(w'.table, m.id) == Folded(w'.events, m.id);
  }

  /** No admin action, and every write that goes with an event goes through. */
  ghost predicate Reliable(a: Action) {
    match a
    case Deliver(_, d) => !d.outcomeFails
    case RunTick(i) => forall k :: !i.rows(k).writeFails
    case _ => false
  }

  /** Between calls the table says what the published events say: each row's status is the fold of
      its events, whatever is redelivered and however late. */
  lemma {:induction false} StoreIsEventLog(acts: seq<Action>)
    requires forall k :: 0 <= k < |acts| ==> Reliable(acts[k])
    ensures LogAgrees(Run(acts))
  {
    if acts != [] {
      var init, a := acts[..|acts| - 1], acts[|acts| - 1];
      StoreIsEventLog(init);
      var w := Run(init);
      assert Reliable(a);
      match a
      case Deliver(m, d) => LogAgreesAfterDelivery(w, m, d);
      case RunTick(i) =>
        ListingIsFresh(w.table);
        LogAgreesAfterRows(Progress(Unparked(w), None, false), Streamed(w.table, BATCH, i.streamed), i.rows, 0);
    }
  }

  /* ---- The error cache agrees with the table ---- */

  ghost predicate CacheAgrees(w: World) {
    forall id :: id in w.lastError ==>
      id in w.table && (!Terminal(w.table[id].status) ==> w.table[id].errorText == Some(w.lastError[id]))
  }

  lemma CacheAgreesAfterRow(p: Progress, row: ForwardedRequest, i: RowInput)
    requires FreshRow(p.world.table, row) && CacheAgrees(p.world)
    requires i.writeFails ==> i.answer.Success?
    ensures CacheAgrees(RowStep(p, row, i).world)
  {
    RowStepWrites(p, row, i);
    RowStepFrame(p, row, i);
  }

  lemma {:induction false} CacheAgreesAfterRows(p: Progress, rows: seq<ForwardedRequest>, env: nat -> RowInput, k: nat)
    requires k <= |rows| && Fresh(p.world.table, rows, k) && CacheAgrees(p.world)
    requires forall j :: env(j).writeFails ==> env(j).answer.Success?
    ensures CacheAgrees(RunRows(p, rows, env, k).world)
    decreases |rows| - k
  {
    if k < |rows| && !p.stopped {
      FreshAfterStep(p, rows, k, env(k));
      CacheAgreesAfterRow(p, rows[k], env(k));
      CacheAgreesAfterRows(RowStep(p, rows[k], env(k)), rows, env, k + 1);
    }
  }

  /** No Retry, and no poll error whose record is lost. */
  ghost predicate KeepsCache(a: Action) {
    match a
    case Deliver(_, _) => true
    case RunTick(i) => forall k :: i.rows(k).writeFails ==> i.rows(k).answer.Success?
    case MarkFailed(_, _, _) => true
    case Retry(_, _) => false
  }

  /** Between calls, an error the reconciler remembers for a live row is the error the row shows. */
  lemma {:induction false} CacheIsTable(acts: seq<Action>)
    requires forall k :: 0 <= k < |acts| ==> KeepsCache(acts[k])
    ensures CacheAgrees(Run(acts))
  {
    if acts != [] {
      var init, a := acts[..|acts| - 1], acts[|acts| - 1];
      CacheIsTable(init);
      var w := Run(init);
      assert KeepsCache(a);
      match a
      case RunTick(i) =>
        ListingIsFresh(w.table);
        CacheAgreesAfterRows(Progress(Unparked(w), None, false), Streamed(w.table, BATCH, i.streamed), i.rows, 0);
      case Deliver(m, d) => CacheAgreesAfterDelivery(w, m, d);
      case MarkFailed(_, _, _) =>
    }
  }

  lemma CacheAgreesAfterDelivery(w: World, m: Message, d: Delivery)
    requires CacheAgrees(w)
    ensures CacheAgrees(Handle(w, m, d).0)
  {
    var w' := Handle(w, m, d).0;
    forall id | id in w'.lastError
      ensures id in w'.table && (!Terminal(w'.table[id].status) ==> w'.table[id].errorText == Some(w'.lastError[id]))
    {
      assert id in w.table;
    }
  }

  /** While they agree, the write that deduplication skips would have moved only the two stamps. */
  lemma SkippedWriteIsStampOnly(w: World, row: ForwardedRequest, err: ErrorText, at: Instant)
    requires CacheAgrees(w) && FreshRow(w.table, row) && row.externalId != ""
    requires !ErrorChanged(w.lastError, row.requestId, err)
    ensures Upserted(w.table, ErrorWrite(row, err, at), at) ==
            w.table[row.requestId := w.table[row.requestId].(lastPolled := Some(at), updatedAt := at)]
  {
  }

  /** Retry clears the row's error but not the cache: the two still agree exactly when the cache
      held nothing for the row. */
  lemma RetryKeepsCacheIff(w: World, id: string, at: Time)
    requires CacheAgrees(w) && Retryable(w.table, id)
    ensures CacheAgrees(Step(w, Retry(id, at))) <==> id !in w.lastError
  {
    var w' := Step(w, Retry(id, at));
    assert id in w'.table && w'.table[id].errorText.None?;
  }

  /** A poll error whose record is lost leaves the cache ahead of the row: the two still agree exactly
      when the row showed that error already. */
  lemma LostErrorKeepsCacheIff(p: Progress, row: ForwardedRequest, i: RowInput)
    requires FreshRow(p.world.table, row) && CacheAgrees(p.world)
    requires i.writeFails && !i.expired && row.externalId != "" && !i.answer.Success?
    ensures CacheAgrees(RowStep(p, row, i).world)
            <==> p.world.table[row.requestId].errorText == Some(ReasonOf(i.answer))
  {
    var w' := RowStep(p, row, i).world;
    RowStepWrites(p, row, i);
    RowStepFrame(p, row, i);
    assert row.requestId in w'.lastError && w'.lastError[row.requestId] == ReasonOf(i.answer);
  }

  /* ---- A tick moves rows between the counters only with its events ---- */

  function Fulfilled(events: seq<Event>): nat {
    if events == [] then 0
    else Fulfilled(events[..|events| - 1]) + if events[|events| - 1].RequestFulfilled? then 1 else 0
  }

  function Failures(events: seq<Event>): nat {
    if events == [] then 0
    else Failures(events[..|events| - 1]) + if events[|events| - 1].RequestFailed? then 1 else 0
  }

  ghost predicate Conserves(w: World, w': World) {
    var s, s' := Stats(w.table), Stats(w'.table);
    var fulfilled, failed := Fulfilled(w'.events) - Fulfilled(w.events), Failures(w'.events) - Failures(w.events);
    && w'.table.Keys == w.table.Keys
    && s'.total == s.total
    && s'.imported == s.imported + fulfilled
    && s'.failed == s.failed + failed
    && s'.active == s.active - fulfilled - failed
  }

  lemma CountsGrow(events: seq<Event>, e: Event)
    ensures Fulfilled(events + [e]) == Fulfilled(events) + if e.RequestFulfilled? then 1 else 0
    ensures Failures(events + [e]) == Failures(events) + if e.RequestFailed? then 1 else 0
  {
    assert (events + [e])[..|events|] == events;
  }

  /** One write of a live row, announced if and only if it ends the row. */
  lemma ConservesWrite(w: World, w': World, id: string, r: Row, e: Option<Event>)
    requires id in w.table && !Terminal(w.table[id].status) && w'.table == w.table[id := r]
    requires w'.events == if e.Some? then w.events + [e.value] else w.events
    requires r.status.Imported? <==> e.Some? && e.value.RequestFulfilled?
    requires r.status.Failed? <==> e.Some? && e.value.RequestFailed?
    ensures Conserves(w, w')
  {
    hide Stats, Fulfilled, Failures;
    StatsOfWrite(w.table, id, r);
    if e.Some? {
      CountsGrow(w.events, e.value);
    }
  }

  lemma ConservesAfterRow(p: Progress, row: ForwardedRequest, i: RowInput)
    requires FreshRow(p.world.table, row) && !i.writeFails
    ensures Conserves(p.world, RowStep(p, row, i).world)
  {
    var w, w' := p.world, RowStep(p, row, i).world;
    RowStepWrites(p, row, i);
    hide Conserves, TranslateStatus, Upserted, Polled;
    var e := if w'.events == w.events then None else Some(w'.events[|w.events|]);
    ConservesWrite(w, w', row.requestId, FreshWrite(w, row, i), e);
  }

  lemma ConservesTransitive(w: World, w': World, w'': World)
    requires Conserves(w, w') && Conserves(w', w'')
    ensures Conserves(w, w'')
  {
    hide Stats, Fulfilled, Failures;
  }

  lemma {:induction false} ConservesAfterRows(p: Progress, rows: seq<ForwardedRequest>, env: nat -> RowInput, k: nat)
    requires k <= |rows| && Fresh(p.world.table, rows, k)
    requires forall j :: !env(j).writeFails
    ensures Conserves(p.world, RunRows(p, rows, env, k).world)
    decreases |rows| - k
  {
    if k < |rows| && !p.stopped {
      var p' := RowStep(p, rows[k], env(k));
      FreshAfterStep(p, rows, k, env(k));
      ConservesAfterRow(p, rows[k], env(k));
      ConservesAfterRows(p', rows, env, k + 1);
      hide RowStep, Conserves;
      ConservesTransitive(p.world, p'.world, RunRows(p', rows, env, k + 1).world);
    }
  }

  lemma {:induction false} UntouchedRows(p: Progress, rows: seq<ForwardedRequest>, env: nat -> RowInput,
                                         k: nat, id: string)
    requires k <= |rows|
    requires forall j :: k <= j < |rows| ==> rows[j].requestId != id || rows[j].externalId == ""
    ensures Lookup(RunRows(p, rows, env, k).world.table, id) == Lookup(p.world.table, id)
    decreases |rows| - k
  {
    if k < |rows| && !p.stopped {
      UntouchedRows(RowStep(p, rows[k], env(k)), rows, env, k + 1, id);
    }
  }

  ghost predicate Listed(t: Table, id: string) {
    exists k :: 0 <= k < |Listing(t, BATCH)| && Listing(t, BATCH)[k].requestId == id
  }

  /** A tick, whatever faults, leaves alone every row it did not list or that has no upstream id. */
  lemma TickLeavesAlone(w: World, i: TickInput, id: string)
    requires id in w.table
    requires !Listed(w.table, id) || GetOr(w.table[id].externalId, "") == ""
    ensures Lookup(TickOf(w, i).world.table, id) == Some(w.table[id])
  {
    var rows := Streamed(w.table, BATCH, i.streamed);
    ListingIsFresh(w.table);
    forall k | 0 <= k < |rows| ensures rows[k].requestId != id || rows[k].externalId == "" {
      assert FreshRow(w.table, rows[k]);
    }
    UntouchedRows(Progress(Unparked(w), None, false), rows, i.rows, 0, id);
  }

  /** An uninterleaved tick without store faults moves rows out of the active count exactly as it
      announces: imported by its fulfilled events, failed by its failed events, total not at all. */
  lemma TickConserves(w: World, i: TickInput)
    requires forall k :: !i.rows(k).writeFails
    ensures Conserves(w, TickOf(w, i).world)
  {
    ListingIsFresh(w.table);
    hide RunRows, Stats, Fulfilled, Failures, Listing, Streamed;
    ConservesAfterRows(Progress(Unparked(w), None, false), Streamed(w.table, BATCH, i.streamed), i.rows, 0);
  }

  /** A row stream that breaks before its first row passes for an empty table: the tick polls nothing,
      returns no error, and its snapshot shows a run without one. */
  lemma BrokenStreamLooksIdle(w: World, i: TickInput)
    requires Remaining(w.backoffUntil, i.startedAt) == 0 && !i.listFails && i.streamed == 0
    ensures TickOf(w, i)
            == TickResult(Unparked(w), TickStatus(i.endedAt, i.endedAt - i.startedAt, 0, NoError, false), None)
  {
    assert Streamed(w.table, BATCH, 0) == [];
  }

  /* ---- Retry takes back what has ended ---- */

  lemma RunThen(acts: seq<Action>, a: Action)
    ensures Run(acts + [a]) == Step(Run(acts), a)
  {
    assert (acts + [a])[..|acts|] == acts;
  }

  /** A tick that finds one acknowledged row and hears that its job is completed. */
  lemma TickImports(w: World, id: string, job: string, at: Instant)
    requires w.table == map[id := Row(Some(job), Acknowledged, None, None, 1, 1)] && job != ""
    requires w.backoffUntil == ZERO_TIME
    ensures var i := TickInput(at, false, BATCH, (k: nat) => RowInput(false, Success(job, "completed", ""), false, at, at), at);
            var w' := TickOf(w, i).world;
            && w'.table == map[id := Row(Some(job), Imported, Some(at), None, 1, at)]
            && w'.events == w.events + [RequestFulfilled(id, job, "")]
  {
    SingleListing(w.table, id, BATCH);
    var i := TickInput(at, false, BATCH, (k: nat) => RowInput(false, Success(job, "completed", ""), false, at, at), at);
    var p, row := Progress(Unparked(w), None, false), Snapshot(id, w.table[id]);
    var p' := RowStep(p, row, i.rows(0));
    assert RunRows(p, [row], i.rows, 0) == RunRows(p', [row], i.rows, 1) == p';
    assert p'.world.table == w.table[id := Row(Some(job), Imported, Some(at), None, 1, at)];
  }

  lemma AcceptsFirst(id: string)
    requires id != ""
    ensures var w := Run([Deliver(Message(id, true, true), Delivery(false, Success("job", "queued", ""), false, 1, 1))]);
            && w.table == map[id := Row(Some("job"), Acknowledged, None, None, 1, 1)]
            && w.events == [RequestAcknowledged(id, "job")] && w.backoffUntil == ZERO_TIME
  {
    var first := Deliver(Message(id, true, true), Delivery(false, Success("job", "queued", ""), false, 1, 1));
    assert [first] == [] + [first];
    RunThen([], first);
  }

  /** Retry resurrects: a request that was imported, and announced as fulfilled, is acknowledged again. */
  lemma ImportedIsResurrected(id: string) returns (acts: seq<Action>, retry: Action)
    requires id != ""
    ensures var w := Run(acts);
            && id in w.table && w.table[id].status == Imported
            && w.events == [RequestAcknowledged(id, "job"), RequestFulfilled(id, "job", "")]
    ensures retry.Retry? && retry.id == id
    ensures id in Run(acts + [retry]).table && Run(acts + [retry]).table[id].status == Acknowledged
  {
    hide Run, TickOf, Handle;
    var first := Deliver(Message(id, true, true), Delivery(false, Success("job", "queued", ""), false, 1, 1));
    var input := TickInput(2, false, BATCH, (k: nat) => RowInput(false, Success("job", "completed", ""), false, 2, 2), 2);
    AcceptsFirst(id);
    RunThen([first], RunTick(input));
    TickImports(Run([first]), id, "job", 2);
    acts := [first] + [RunTick(input)];
    retry := Retry(id, 3);
    RunThen(acts, retry);
  }
}
