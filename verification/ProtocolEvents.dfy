/** How many terminal events the reconciler can publish for one request. */
module ProtocolEvents {
  import opened Domain
  import opened Queries
  import opened Protocol
  import opened ProtocolRows
  import opened ProtocolLock
  import R = Reconciler

  datatype Tally =
    | Announced   // fulfilled and failed events the reconciler published
    | MarkedOk    // terminal statuses it wrote
    | MarkedLost  // terminal statuses it failed to write
    | Retries     // successful admin retries

  predicate Counts(op: Op, tally: Tally, id: string) {
    match tally
    case Announced => op.TickPublished? && TerminalEvent(op.event) && op.event.id == id
    case MarkedOk => op.TickMarked? && op.id == id && Terminal(op.status) && op.ok
    case MarkedLost => op.TickMarked? && op.id == id && Terminal(op.status) && !op.ok
    case Retries => op == AdminRetried(id)
  }

  function Count(log: seq<Op>, tally: Tally, id: string): nat {
    if log == [] then 0
    else Count(log[..|log| - 1], tally, id) + if Counts(log[|log| - 1], tally, id) then 1 else 0
  }

  lemma CountLogged(log: seq<Op>, op: Option<Op>, tally: Tally, id: string)
    ensures Count(Logged(log, op), tally, id) ==
            Count(log, tally, id) + if op.Some? && Counts(op.value, tally, id) then 1 else 0
  {
    if op.Some? {
      assert (log + [op.value])[..|log|] == log;
    }
  }

  /** A terminal status is written at most once per retry and once more; the surplus write is what
      made the row terminal. Every terminal event follows such a write, lost or not. */
  ghost predicate Balance(t: Table, log: seq<Op>, id: string) {
    && Count(log, MarkedOk, id) <= Count(log, Retries, id) + (if TerminalIn(t, id) then 1 else 0)
    && Count(log, Announced, id) <= Count(log, MarkedOk, id) + Count(log, MarkedLost, id)
  }

  /** The listed rows whose status a tick may still write. */
  function Pending(ts: TickState): seq<ForwardedRequest> {
    match ts
    case Looping(rest) => rest
    case Polling(row, rest) => [row] + rest
    case RecordingError(_, rest, _, _) => rest
    case Marking(row, rest, _, _) => [row] + rest
    case Announcing(rest, _) => rest
    case _ => []
  }

  ghost predicate PendingOk(rows: seq<ForwardedRequest>, t: Table, log: seq<Op>, id: string) {
    && (forall i :: 0 <= i < |rows| && rows[i].requestId == id ==>
          && id in t && !Terminal(rows[i].status)
          && Count(log, MarkedOk, id) <= Count(log, Retries, id))
    && (forall i, j :: 0 <= i < j < |rows| ==> !(rows[i].requestId == id && rows[j].requestId == id))
  }

  ghost predicate TickEventsOk(ts: TickState, t: Table, log: seq<Op>, id: string) {
    && PendingOk(Pending(ts), t, log, id)
    && (ts.Announcing? && TerminalEvent(ts.event) && ts.event.id == id ==>
          Count(log, Announced, id) < Count(log, MarkedOk, id) + Count(log, MarkedLost, id))
  }

  ghost predicate EventsInv(s: State, id: string) {
    && Balance(s.table, s.log, id)
    && forall t :: t in s.ticks ==> TickEventsOk(s.ticks[t], s.table, s.log, id)
  }

  /** A step that marks no row and publishes nothing for a tick keeps the balance. */
  lemma BalanceKept(t: Table, log: seq<Op>, w: Statement, op: Option<Op>, now: Instant, id: string)
    requires Balance(t, log, id)
    requires op.Some? ==> !Counts(op.value, Announced, id) && !Counts(op.value, MarkedOk, id)
    requires w.DoRetry? && w.id == id ==> op == Some(AdminRetried(id))
    ensures Balance(Wrote(t, w, now), Logged(log, op), id)
  {
    CountLogged(log, op, Announced, id);
    CountLogged(log, op, MarkedOk, id);
    CountLogged(log, op, MarkedLost, id);
    CountLogged(log, op, Retries, id);
    if TerminalIn(t, id) && !((w.DoRetry? || w.DoMarkFailed?) && w.id == id) {
      WroteKeepsTerminal(t, w, now, id);
    }
  }

  lemma PendingKept(rows: seq<ForwardedRequest>, t: Table, log: seq<Op>, w: Statement, op: Option<Op>,
                    now: Instant, id: string)
    requires PendingOk(rows, t, log, id)
    requires op.Some? ==> !Counts(op.value, MarkedOk, id)
    ensures PendingOk(rows, Wrote(t, w, now), Logged(log, op), id)
  {
    CountLogged(log, op, MarkedOk, id);
    CountLogged(log, op, Retries, id);
  }

  lemma TickEventsKept(ts: TickState, t: Table, log: seq<Op>, w: Statement, op: Option<Op>, now: Instant, id: string)
    requires TickEventsOk(ts, t, log, id)
    requires op.Some? ==> !Counts(op.value, Announced, id) && !Counts(op.value, MarkedOk, id)
    ensures TickEventsOk(ts, Wrote(t, w, now), Logged(log, op), id)
  {
    PendingKept(Pending(ts), t, log, w, op, now, id);
    CountLogged(log, op, Announced, id);
    CountLogged(log, op, MarkedOk, id);
    CountLogged(log, op, MarkedLost, id);
  }

  lemma PendingTail(rows: seq<ForwardedRequest>, t: Table, log: seq<Op>, id: string)
    requires rows != [] && PendingOk(rows, t, log, id)
    ensures PendingOk(rows[1..], t, log, id)
    ensures rows[0].requestId == id ==> forall i :: 0 <= i < |rows[1..]| ==> rows[1..][i].requestId != id
  {
    forall i | 0 <= i < |rows[1..]| ensures rows[1..][i] == rows[i + 1] {
    }
  }

  /** A fresh listing holds each live row once, and a live row has no surplus write. */
  lemma ListingPending(t: Table, n: nat, log: seq<Op>, id: string)
    requires Balance(t, log, id)
    ensures PendingOk(Streamed(t, R.BATCH, n), t, log, id)
  {
    ListingMeaning(t, R.BATCH);
  }

  /** The write of a polled status: a terminal one uses up the row's turn and makes it terminal. */
  lemma MarkingStep(row: ForwardedRequest, rest: seq<ForwardedRequest>, status: Status, bookId: string,
                    tick: nat, t: Table, log: seq<Op>, now: Instant, fails: bool, id: string)
    requires Balance(t, log, id) && PendingOk([row] + rest, t, log, id)
    ensures var t' := Wrote(t, Unless(fails, DoPolled(row.requestId, row.externalId, status)), now);
            var log' := Logged(log, Some(TickMarked(tick, row.requestId, status, !fails)));
            var event := R.EventFor(row.requestId, row.externalId, status, bookId);
            && Balance(t', log', id)
            && (status != row.status ==> TickEventsOk(Announcing(rest, event), t', log', id))
            && (status == row.status ==> TickEventsOk(Looping(rest), t', log', id))
  {
    var w := Unless(fails, DoPolled(row.requestId, row.externalId, status));
    var op := Some(TickMarked(tick, row.requestId, status, !fails));
    var rows := [row] + rest;
    assert rows[1..] == rest && rows[0] == row;
    PendingTail(rows, t, log, id);
    CountLogged(log, op, Announced, id);
    CountLogged(log, op, MarkedOk, id);
    CountLogged(log, op, MarkedLost, id);
    CountLogged(log, op, Retries, id);
    if TerminalIn(t, id) {
      WroteKeepsTerminal(t, w, now, id);
    }
    if row.requestId == id && Terminal(status) && !fails {
      assert TerminalIn(Wrote(t, w, now), id);
    }
  }

  /** A step that neither marks nor announces, and goes where the pending rows are still in order. */
  lemma QuietStep(next: TickState, w: Statement, op: Option<Op>, t: Table, log: seq<Op>, now: Instant, id: string)
    requires Balance(t, log, id) && PendingOk(Pending(next), t, log, id) && !next.Announcing?
    requires op.Some? ==> !Counts(op.value, Announced, id) && !Counts(op.value, MarkedOk, id)
    requires !w.DoRetry?
    ensures Balance(Wrote(t, w, now), Logged(log, op), id)
    ensures TickEventsOk(next, Wrote(t, w, now), Logged(log, op), id)
  {
    BalanceKept(t, log, w, op, now, id);
    PendingKept(Pending(next), t, log, w, op, now, id);
  }

  /** Where a step other than marking and announcing leads. */
  lemma NextPending(ts: TickState, tick: nat, now: Instant, t: Table, log: seq<Op>, memory: Memory,
                    answer: Answer, fails: bool, expired: bool, streamed: nat, id: string)
    requires Balance(t, log, id) && PendingOk(Pending(ts), t, log, id)
    requires !ts.Marking? && !ts.Announcing? && !ts.Leaving?
    ensures var e := TickNext(ts, tick, now, t, memory, answer, fails, expired, streamed);
            && e.next.Some? && !e.next.value.Announcing? && PendingOk(Pending(e.next.value), t, log, id)
            && (e.op.Some? ==> !Counts(e.op.value, Announced, id) && !Counts(e.op.value, MarkedOk, id))
            && !e.write.DoRetry?
  {
    hide Count;
    match ts
    case Looping(rest) =>
      if rest != [] {
        PendingTail(rest, t, log, id);
        assert [rest[0]] + rest[1..] == rest;
      }
    case Polling(row, rest) =>
      PendingTail([row] + rest, t, log, id);
      assert ([row] + rest)[1..] == rest;
    case AtListing => ListingPending(t, streamed, log, id);
    case _ =>
  }

  lemma TickEventsAdvance(ts: TickState, tick: nat, now: Instant, t: Table, log: seq<Op>, memory: Memory,
                          answer: Answer, fails: bool, expired: bool, streamed: nat, id: string)
    requires Balance(t, log, id) && TickEventsOk(ts, t, log, id)
    ensures var e := TickNext(ts, tick, now, t, memory, answer, fails, expired, streamed);
            && Balance(Wrote(t, e.write, now), Logged(log, e.op), id)
            && (e.next.Some? ==> TickEventsOk(e.next.value, Wrote(t, e.write, now), Logged(log, e.op), id))
  {
    if ts.Marking? {
      MarkingStep(ts.row, ts.rest, ts.status, ts.bookId, tick, t, log, now, fails, id);
      hide Balance, TickEventsOk, Wrote;
    } else if ts.Announcing? {
      AnnouncingStep(ts.rest, ts.event, tick, t, log, now, id);
    } else if ts.Leaving? {
      BalanceKept(t, log, NoWrite, Some(TickUnlocked(tick, memory.frame.firstErr)), now, id);
    } else {
      NextPending(ts, tick, now, t, log, memory, answer, fails, expired, streamed, id);
      var e := TickNext(ts, tick, now, t, memory, answer, fails, expired, streamed);
      hide TickNext, Balance, PendingOk, TickEventsOk, Wrote;
      QuietStep(e.next.value, e.write, e.op, t, log, now, id);
    }
  }

  lemma AnnouncingStep(rest: seq<ForwardedRequest>, event: Event, tick: nat, t: Table, log: seq<Op>,
                       now: Instant, id: string)
    requires Balance(t, log, id) && TickEventsOk(Announcing(rest, event), t, log, id)
    ensures var log' := Logged(log, Some(TickPublished(tick, event)));
            Balance(t, log', id) && TickEventsOk(Looping(rest), t, log', id)
  {
    var op := Some(TickPublished(tick, event));
    PendingKept(rest, t, log, NoWrite, op, now, id);
    CountLogged(log, op, Announced, id);
    CountLogged(log, op, MarkedOk, id);
    CountLogged(log, op, MarkedLost, id);
    CountLogged(log, op, Retries, id);
  }

  lemma EventsInvAfterTick(s: State, t: nat, e: TickEffect, id: string)
    requires LockInv(s) && t in s.ticks
    requires Balance(Wrote(s.table, e.write, s.now), Logged(s.log, e.op), id)
    requires e.next.Some? ==> TickEventsOk(e.next.value, Wrote(s.table, e.write, s.now), Logged(s.log, e.op), id)
    ensures EventsInv(AfterTick(s, t, e), id)
  {
    assert s.ticks.Keys == {t};
  }

  lemma EventsInvAfterOther(s: State, s': State, w: Statement, op: Option<Op>, id: string)
    requires EventsInv(s, id)
    requires s'.table == Wrote(s.table, w, s.now) && s'.log == Logged(s.log, op)
    requires op.Some? ==> WorkOf(op.value).None?
    requires w.DoRetry? && w.id == id ==> op == Some(AdminRetried(id))
    requires forall t :: t in s'.ticks ==> (t in s.ticks && s'.ticks[t] == s.ticks[t]) || s'.ticks[t].Checking?
    ensures EventsInv(s', id)
  {
    BalanceKept(s.table, s.log, w, op, s.now, id);
    forall t | t in s'.ticks ensures TickEventsOk(s'.ticks[t], s'.table, s'.log, id) {
      if t in s.ticks && s'.ticks[t] == s.ticks[t] {
        TickEventsKept(s.ticks[t], s.table, s.log, w, op, s.now, id);
      }
    }
  }

  lemma OtherSteps(s: State, a: Action, id: string)
    requires !(a.TickStep? && a.t in s.ticks)
    ensures OpOf(s, a).Some? ==> WorkOf(OpOf(s, a).value).None?
    ensures WriteOf(s, a).DoRetry? && WriteOf(s, a).id == id ==> OpOf(s, a) == Some(AdminRetried(id))
    ensures forall t :: t in Step(s, a).ticks ==>
              (t in s.ticks && Step(s, a).ticks[t] == s.ticks[t]) || Step(s, a).ticks[t].Checking?
  {
    if a.HandlerStep? && a.h in s.handlers {
      HandlerMarks(s.handlers[a.h], s.now, a.answer, a.fails);
      WriteOrigin(s, a);
    }
  }

  lemma EventsInvAfterStep(s: State, a: Action, id: string)
    requires LockInv(s) && EventsInv(s, id)
    ensures EventsInv(Step(s, a), id)
  {
    if a.TickStep? && a.t in s.ticks {
      TickEventsAdvance(s.ticks[a.t], a.t, s.now, s.table, s.log, s.memory, a.answer, a.fails, a.expired, a.streamed, id);
      EventsInvAfterTick(s, a.t, TickEffectOf(s, a.t, a.answer, a.fails, a.expired, a.streamed), id);
    } else {
      StepShape(s, a);
      OtherSteps(s, a, id);
      EventsInvAfterOther(s, Step(s, a), WriteOf(s, a), OpOf(s, a), id);
    }
  }

  lemma {:induction false} EventsInvInRuns(s: State, acts: seq<Action>, id: string)
    requires LockInv(s) && EventsInv(s, id)
    ensures EventsInv(Run(s, acts), id)
    decreases |acts|
  {
    if acts != [] {
      LockInvAfterStep(s, acts[0]);
      EventsInvAfterStep(s, acts[0], id);
      EventsInvInRuns(Step(s, acts[0]), acts[1..], id);
    }
  }

  /** In every interleaving, stale snapshots and all, the fulfilled and failed events the reconciler
      publishes for a request number at most one, plus one per successful retry of it, plus one per
      terminal status of it that failed to be written. */
  lemma AmortisedTerminalEvents(acts: seq<Action>, id: string)
    ensures var log := Run(START, acts).log;
            Count(log, Announced, id) <= 1 + Count(log, Retries, id) + Count(log, MarkedLost, id)
  {
    EventsInvInRuns(START, acts, id);
  }
}
