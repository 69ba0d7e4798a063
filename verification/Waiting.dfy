/** Bounded waiting: how many ticks pass before a row with an upstream job is polled. */
module Waiting {
  import opened Domain
  import opened Ordering
  import opened Rows
  import opened Queries
  import opened Worlds
  import opened Consumer
  import opened Reconciler
  import opened Runs

  /** A tick and the world it finds. */
  datatype Round = Round(world: World, input: TickInput)

  ghost function After(r: Round): World {
    TickOf(r.world, r.input).world
  }

  /** Every listed row gets its turn: not parked, no rate limit, no store fault, no broken row stream, no
      cut-off, and the clock readings of the writes lie within the tick. */
  ghost predicate Complete(r: Round) {
    && Remaining(r.world.backoffUntil, r.input.startedAt) == 0
    && !r.input.listFails && r.input.streamed >= BATCH
    && r.input.startedAt <= r.input.endedAt
    && forall k :: Steady(r.input, k)
  }

  ghost predicate Steady(i: TickInput, k: nat) {
    var row := i.rows(k);
    && !row.expired && !row.writeFails && !row.answer.Limited?
    && i.startedAt <= row.wroteAt <= i.endedAt
  }

  /** The row has something to poll against. */
  predicate HasJob(t: Table, id: string) {
    id in t && GetOr(t[id].externalId, "") != ""
  }

  /** The tick sent a poll for the row. */
  ghost predicate PolledIn(r: Round, id: string) {
    PollSince(|r.world.calls|, After(r).calls, id)
  }

  predicate PollSince(start: nat, calls: seq<Call>, id: string) {
    exists c :: start <= c < |calls| && calls[c].PollCall? && calls[c].id == id
  }

  /** Every polling key lies before a moment. */
  ghost predicate KeysBefore(t: Table, at: Time) {
    forall id :: id in PollKeys(t) ==> PollKeys(t)[id] < at
  }

  /** The listed rows whose stamp the tick did not move. */
  ghost function Unstamped(r: Round): set<string> {
    set id | id in r.world.table && Listed(r.world.table, id) && id in After(r).table
             && After(r).table[id].lastPolled == r.world.table[id].lastPolled
  }

  /* ---- What a complete tick does to each listed row ---- */

  lemma {:induction false} RowsWritten(p: Progress, rows: seq<ForwardedRequest>, i: TickInput, k: nat, j: nat)
    requires k <= j < |rows| && Fresh(p.world.table, rows, k) && !p.stopped
    requires forall n :: Steady(i, n)
    ensures Lookup(RunRows(p, rows, i.rows, k).world.table, rows[j].requestId)
            == Some(FreshWrite(p.world, rows[j], i.rows(j)))
    decreases |rows| - k
  {
    var p' := RowStep(p, rows[k], i.rows(k));
    assert Steady(i, k);
    RowStepWrites(p, rows[k], i.rows(k));
    RowStepFrame(p, rows[k], i.rows(k));
    FreshAfterStep(p, rows, k, i.rows(k));
    if j == k {
      UntouchedRows(p', rows, i.rows, k + 1, rows[j].requestId);
    } else {
      RowsWritten(p', rows, i, k + 1, j);
      assert FreshWrite(p'.world, rows[j], i.rows(j)) == FreshWrite(p.world, rows[j], i.rows(j));
    }
  }

  lemma {:induction false} CallsGrow(p: Progress, rows: seq<ForwardedRequest>, env: nat -> RowInput, k: nat)
    requires k <= |rows|
    ensures p.world.calls <= RunRows(p, rows, env, k).world.calls
    decreases |rows| - k
  {
    if k < |rows| && !p.stopped {
      CallsGrow(RowStep(p, rows[k], env(k)), rows, env, k + 1);
    }
  }

  lemma {:induction false} RowsPolled(p: Progress, rows: seq<ForwardedRequest>, i: TickInput, k: nat, j: nat)
    requires k <= j < |rows| && !p.stopped && rows[j].externalId != ""
    requires forall n :: Steady(i, n)
    ensures PollSince(|p.world.calls|, RunRows(p, rows, i.rows, k).world.calls, rows[j].requestId)
    decreases |rows| - k
  {
    var p' := RowStep(p, rows[k], i.rows(k));
    assert Steady(i, k);
    if j == k {
      CallsGrow(p', rows, i.rows, k + 1);
      var sent := PollCall(rows[j].requestId, rows[j].externalId, i.rows(j).polledAt);
      assert p'.world.calls == p.world.calls + [sent];
      var calls := RunRows(p, rows, i.rows, k).world.calls;
      assert p'.world.calls <= calls;
      assert calls[|p.world.calls|] == p'.world.calls[|p.world.calls|] == sent;
    } else {
      RowsPolled(p', rows, i, k + 1, j);
    }
  }

  /** A listed row with a job is polled by a complete tick. */
  lemma ListedIsPolled(r: Round, id: string)
    requires Complete(r) && Listed(r.world.table, id) && HasJob(r.world.table, id)
    ensures PolledIn(r, id)
  {
    var rows := Listing(r.world.table, BATCH);
    var j :| 0 <= j < |rows| && rows[j].requestId == id;
    ListingIsFresh(r.world.table);
    assert FreshRow(r.world.table, rows[j]);
    RowsPolled(Progress(Unparked(r.world), None, false), rows, r.input, 0, j);
    assert After(r) == RunRows(Progress(Unparked(r.world), None, false), rows, r.input.rows, 0).world;
  }

  /** A listed row after a complete tick: as the tick found it, or stamped within the tick. It is
      left unstamped exactly when it has no job or repeats the error the cache holds for it. */
  lemma ListedAfterTick(r: Round, j: nat)
    requires Complete(r) && j < |Listing(r.world.table, BATCH)|
    requires KeysBefore(r.world.table, r.input.startedAt)
    ensures var row := Listing(r.world.table, BATCH)[j];
            var id, answer := row.requestId, r.input.rows(j).answer;
            && id in r.world.table && id in After(r).table
            && (id in Unstamped(r) <==>
                  row.externalId == ""
                  || (answer.Refused? && !ErrorChanged(r.world.lastError, id, answer.errText)))
            && (id in Unstamped(r) ==> After(r).table[id] == r.world.table[id])
            && (id !in Unstamped(r) ==>
                  After(r).table[id].lastPolled.Some?
                  && r.input.startedAt <= After(r).table[id].lastPolled.value <= r.input.endedAt)
  {
    var rows := Listing(r.world.table, BATCH);
    ListingIsFresh(r.world.table);
    var id := rows[j].requestId;
    assert FreshRow(r.world.table, rows[j]);
    assert Steady(r.input, j);
    assert Listed(r.world.table, id);
    assert id in PollKeys(r.world.table);
    RowsWritten(Progress(Unparked(r.world), None, false), rows, r.input, 0, j);
  }

  /* ---- Rank ---- */

  ghost function IdsOf(rows: seq<ForwardedRequest>): set<string> {
    set k | 0 <= k < |rows| :: rows[k].requestId
  }

  lemma {:induction false} IdsOfCount(rows: seq<ForwardedRequest>)
    requires forall i, j :: 0 <= i < j < |rows| ==> rows[i].requestId != rows[j].requestId
    ensures |IdsOf(rows)| == |rows|
  {
    if rows != [] {
      var last := rows[|rows| - 1];
      IdsOfCount(rows[..|rows| - 1]);
      assert IdsOf(rows) == IdsOf(rows[..|rows| - 1]) + {last.requestId};
    } else {
      assert IdsOf(rows) == {};
    }
  }

  ghost function ListedIds(t: Table): set<string> {
    IdsOf(Listing(t, BATCH))
  }

  lemma ListedIdsCount(t: Table)
    ensures |ListedIds(t)| == |Listing(t, BATCH)|
    ensures forall id :: id in ListedIds(t) <==> Listed(t, id)
  {
    ListingIsFresh(t);
    IdsOfCount(Listing(t, BATCH));
  }

  /** Nothing moves ahead of an unlisted row, and every stamped row drops behind it. */
  lemma AheadAfterTick(r: Round, id: string, x: string)
    requires Complete(r) && KeysBefore(r.world.table, r.input.startedAt)
    requires id in PollKeys(r.world.table) && !Listed(r.world.table, id)
    requires id in PollKeys(After(r).table)
    requires x in PollKeys(After(r).table) && Before(PollKeys(After(r).table), x, id)
    ensures x in Ahead(PollKeys(r.world.table), id)
    ensures x !in ListedIds(r.world.table) - Unstamped(r)
  {
    var t, t' := r.world.table, After(r).table;
    TickLeavesAlone(r.world, r.input, id);
    TickKeepsKeys(r);
    ListedIdsCount(t);
    if Listed(t, x) {
      var j :| 0 <= j < |Listing(t, BATCH)| && Listing(t, BATCH)[j].requestId == x;
      ListedAfterTick(r, j);
    } else {
      TickLeavesAlone(r.world, r.input, x);
    }
  }

  lemma {:induction false} RowsKeepKeys(p: Progress, rows: seq<ForwardedRequest>, env: nat -> RowInput, k: nat)
    requires k <= |rows| && Fresh(p.world.table, rows, k)
    ensures RunRows(p, rows, env, k).world.table.Keys == p.world.table.Keys
    decreases |rows| - k
  {
    if k < |rows| && !p.stopped {
      RowStepWrites(p, rows[k], env(k));
      FreshAfterStep(p, rows, k, env(k));
      RowsKeepKeys(RowStep(p, rows[k], env(k)), rows, env, k + 1);
    }
  }

  lemma TickKeepsKeys(r: Round)
    ensures After(r).table.Keys == r.world.table.Keys
  {
    ListingIsFresh(r.world.table);
    RowsKeepKeys(Progress(Unparked(r.world), None, false),
                 Streamed(r.world.table, BATCH, r.input.streamed), r.input.rows, 0);
  }

  /** A row that is not listed gains as many places as the tick stamps rows. */
  lemma RankDrops(r: Round, id: string)
    requires Complete(r) && KeysBefore(r.world.table, r.input.startedAt)
    requires id in PollKeys(r.world.table) && !Listed(r.world.table, id)
    ensures id in PollKeys(After(r).table)
    ensures |Ahead(PollKeys(After(r).table), id)| + BATCH - |Unstamped(r)| <= |Ahead(PollKeys(r.world.table), id)|
  {
    var t, t' := r.world.table, After(r).table;
    TickLeavesAlone(r.world, r.input, id);
    var ahead, ahead' := Ahead(PollKeys(t), id), Ahead(PollKeys(t'), id);
    ListingMeaning(t, BATCH);
    ListedIdsCount(t);
    EnumerationDistinct(PollKeys(t), Enumerate(PollKeys(t)));
    ListedByRank(t, BATCH, id);
    SubsetSize(ahead, PollKeys(t).Keys);
    var stamped := ListedIds(t) - Unstamped(r);
    forall x | x in ahead' ensures x in ahead - stamped {
      AheadAfterTick(r, id, x);
    }
    assert stamped <= ahead;
    assert Unstamped(r) <= ListedIds(t);
    SubsetSize(ahead', ahead - stamped);
  }

  /* ---- Whole runs of ticks ---- */

  /** What may happen between two ticks: no live row appears, none is re-stamped or loses its job. */
  ghost predicate Quiet(t: Table, t': Table) {
    forall id :: id in PollKeys(t') ==>
      && id in PollKeys(t) && PollKeys(t')[id] == PollKeys(t)[id]
      && (HasJob(t, id) ==> HasJob(t', id))
  }

  /** Redeliveries of known requests are quiet, whatever they do. */
  lemma RedeliveryIsQuiet(w: World, m: Message, d: Delivery)
    requires m.id in w.table
    ensures Quiet(w.table, Handle(w, m, d).0.table)
  {
  }

  /** Mark failed is quiet; Retry is exactly when it has no row to reset, or one that is live and was
      not stamped since it last went to the head of the order. */
  lemma AdminIsQuiet(t: Table, id: string, reason: string, now: Time)
    ensures Quiet(t, MarkedFailed(t, id, reason, now))
    ensures Quiet(t, Retried(t, id, now))
            <==> !Retryable(t, id) || (id in PollKeys(t) && PollKeys(t)[id] == ZERO_TIME)
  {
    if Retryable(t, id) {
      assert id in PollKeys(Retried(t, id, now)) && PollKeys(Retried(t, id, now))[id] == ZERO_TIME;
    }
  }

  /** One tick and what happens before the next. */
  ghost predicate Follows(r: Round, next: Round) {
    Quiet(After(r).table, next.world.table) && r.input.endedAt < next.input.startedAt
  }

  /** Complete ticks on a strictly increasing clock, at most k listed rows of each left unstamped. */
  ghost predicate TickRun(rounds: seq<Round>, k: nat) {
    && (forall n :: 0 <= n < |rounds| ==> Complete(rounds[n]) && |Unstamped(rounds[n])| <= k)
    && (forall n :: 0 < n < |rounds| ==> Follows(rounds[n - 1], rounds[n]))
    && (rounds != [] ==> KeysBefore(rounds[0].world.table, rounds[0].input.startedAt))
  }

  lemma KeysAfterTick(r: Round)
    requires Complete(r) && KeysBefore(r.world.table, r.input.startedAt)
    ensures KeysBefore(After(r).table, r.input.endedAt + 1)
  {
    TickKeepsKeys(r);
    forall id | id in PollKeys(After(r).table) ensures PollKeys(After(r).table)[id] <= r.input.endedAt {
      if Listed(r.world.table, id) {
        var j :| 0 <= j < |Listing(r.world.table, BATCH)| && Listing(r.world.table, BATCH)[j].requestId == id;
        ListedAfterTick(r, j);
        ListingIsFresh(r.world.table);
        assert FreshRow(r.world.table, Listing(r.world.table, BATCH)[j]);
        assert id in PollKeys(r.world.table);
      } else {
        TickLeavesAlone(r.world, r.input, id);
        assert id in PollKeys(r.world.table);
      }
    }
  }

  lemma KeysAtNextTick(r: Round, next: Round)
    requires Complete(r) && KeysBefore(r.world.table, r.input.startedAt) && Follows(r, next)
    ensures KeysBefore(next.world.table, next.input.startedAt)
  {
    hide TickOf;
    KeysAfterTick(r);
  }

  lemma TickRunTail(rounds: seq<Round>, k: nat)
    requires TickRun(rounds, k) && rounds != []
    ensures TickRun(rounds[1..], k)
  {
    hide Complete, Unstamped, Follows, KeysBefore;
    var tail := rounds[1..];
    if tail != [] {
      assert Follows(rounds[0], rounds[1]);
      KeysAtNextTick(rounds[0], rounds[1]);
    }
    forall n | 0 < n < |tail| ensures Follows(tail[n - 1], tail[n]) {
      assert tail[n - 1] == rounds[n] && tail[n] == rounds[n + 1];
      assert Follows(rounds[n + 1 - 1], rounds[n + 1]);
    }
  }

  lemma QuietRank(t: Table, t': Table, id: string)
    requires Quiet(t, t') && id in PollKeys(t) && id in PollKeys(t')
    ensures |Ahead(PollKeys(t'), id)| <= |Ahead(PollKeys(t), id)|
  {
    SubsetSize(Ahead(PollKeys(t'), id), Ahead(PollKeys(t), id));
  }

  /** From one tick to the next: the row is polled or ends, or it has a job still and is nearer. */
  lemma NearerNextTick(r: Round, next: Round, id: string)
    requires Complete(r) && KeysBefore(r.world.table, r.input.startedAt) && Follows(r, next)
    requires id in PollKeys(r.world.table) && HasJob(r.world.table, id)
    ensures PolledIn(r, id) || id !in PollKeys(next.world.table)
            || (HasJob(next.world.table, id)
                && BATCH <= |Ahead(PollKeys(r.world.table), id)|
                && |Ahead(PollKeys(next.world.table), id)| + BATCH - |Unstamped(r)| <= |Ahead(PollKeys(r.world.table), id)|)
  {
    ListedByRank(r.world.table, BATCH, id);
    if Listed(r.world.table, id) {
      ListedIsPolled(r, id);
    } else {
      RankDrops(r, id);
      TickLeavesAlone(r.world, r.input, id);
      hide TickOf, Ahead;
      if id in PollKeys(next.world.table) {
        QuietRank(After(r).table, next.world.table, id);
      }
    }
  }

  lemma ServedAtOnce(r: Round, id: string)
    requires Complete(r) && id in PollKeys(r.world.table) && HasJob(r.world.table, id)
    requires |Ahead(PollKeys(r.world.table), id)| < BATCH
    ensures PolledIn(r, id)
  {
    ListedByRank(r.world.table, BATCH, id);
    ListedIsPolled(r, id);
  }

  /** A row with a job and d rows ahead of it is polled, or ends otherwise, within n ticks as soon as
      d < 200 + (n - 1)(200 - k): the first tick serves 200 places, each later one at least 200 - k. */
  lemma {:induction false} BoundedWaiting(rounds: seq<Round>, k: nat, id: string)
    requires rounds != [] && k < BATCH && TickRun(rounds, k)
    requires id in PollKeys(rounds[0].world.table) && HasJob(rounds[0].world.table, id)
    requires |Ahead(PollKeys(rounds[0].world.table), id)| < BATCH + (|rounds| - 1) * (BATCH - k)
    ensures exists n :: 0 <= n < |rounds| &&
              (PolledIn(rounds[n], id) || id !in PollKeys(rounds[n].world.table))
    decreases |rounds|
  {
    hide Complete, Unstamped, KeysBefore, PolledIn, Follows, Ahead, PollKeys, HasJob;
    if |rounds| == 1 {
      ServedAtOnce(rounds[0], id);
    } else {
      assert Follows(rounds[0], rounds[1]);
      NearerNextTick(rounds[0], rounds[1], id);
      if !PolledIn(rounds[0], id) && id in PollKeys(rounds[1].world.table) {
        var tail := rounds[1..];
        TickRunTail(rounds, k);
        BudgetStep(|rounds| - 1, BATCH - k);
        BoundedWaiting(tail, k, id);
        var n :| 0 <= n < |tail| && (PolledIn(tail[n], id) || id !in PollKeys(tail[n].world.table));
        assert tail[n] == rounds[n + 1];
      }
    }
  }

  lemma BudgetStep(n: nat, gain: nat)
    requires n > 0
    ensures n * gain == (n - 1) * gain + gain
  {
  }

  /** The live rows that were never stamped and whose id comes first. */
  ghost function NeverStampedBefore(t: Table, id: string): set<string> {
    set x | x in t && !Terminal(t[x].status) && t[x].lastPolled.None? && Less(x, id)
  }

  /** A retried row is picked up by the next tick exactly when fewer than 200 never-stamped live rows
      come before it by id; a retry alone does not make it first. */
  lemma RetriedIsListedIff(t: Table, id: string, now: Time)
    requires Retryable(t, id)
    requires forall x :: x in t && t[x].lastPolled.Some? ==> t[x].lastPolled.value > ZERO_TIME
    ensures Listed(Retried(t, id, now), id) <==> |NeverStampedBefore(t, id)| < BATCH
  {
    var t' := Retried(t, id, now);
    var keys := PollKeys(t');
    ListedByRank(t', BATCH, id);
    LessIrreflexive(id);
    forall x ensures x in Ahead(keys, id) <==> x in NeverStampedBefore(t, id) {
      assert x != id && x in t ==> t'[x] == t[x];
    }
    assert Ahead(keys, id) == NeverStampedBefore(t, id);
  }
}
