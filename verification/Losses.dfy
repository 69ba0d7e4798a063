/** A job the upstream accepts without naming it is lost: no tick polls it. */
module Losses {
  import opened Domain
  import opened Queries
  import opened Consumer
  import opened Protocol
  import opened ProtocolRows
  import opened ProtocolIds
  import opened Refinement
  import opened Scenes
  import R = Reconciler

  /* ---- A request without a job is never polled ---- */

  /** No tick holds the row as one to poll. */
  predicate NotPolling(ts: TickState, id: string) {
    match ts
    case Looping(rest) => Jobless(rest, id)
    case Polling(row, rest) => row.requestId != id && Jobless(rest, id)
    case RecordingError(row, rest, _, _) => row.requestId != id && Jobless(rest, id)
    case Marking(row, rest, _, _) => row.requestId != id && Jobless(rest, id)
    case Announcing(rest, _) => Jobless(rest, id)
    case _ => true
  }

  predicate Jobless(rows: seq<ForwardedRequest>, id: string) {
    forall k :: 0 <= k < |rows| && rows[k].requestId == id ==> rows[k].externalId == ""
  }

  ghost predicate WithoutJob(s: State, id: string) {
    && StoredId(s.table, id).None?
    && (forall h :: h in s.handlers ==> s.handlers[h].msg.id != id)
    && (forall t :: t in s.ticks ==> NotPolling(s.ticks[t], id))
  }

  predicate PollLogged(log: seq<Op>, id: string) {
    exists k :: 0 <= k < |log| && log[k].TickPolled? && log[k].id == id
  }

  predicate Spares(w: Statement, id: string) {
    match w
    case DoUpsert(r) => r.requestId != id
    case DoPolled(i, _, _) => i != id
    case _ => true
  }

  lemma StaysWithoutJob(t: Table, w: Statement, now: Instant, id: string)
    requires StoredId(t, id).None? && Spares(w, id)
    ensures StoredId(Wrote(t, w, now), id).None?
  {
  }

  lemma HandlerSpares(hs: HandlerState, now: Instant, answer: Answer, fails: bool, id: string)
    requires hs.msg.id != id
    ensures var e := HandlerNext(hs, now, answer, fails);
            && Spares(e.write, id) && (e.next.Some? ==> e.next.value.msg == hs.msg)
            && (e.op.Some? ==> !e.op.value.TickPolled?)
  {
  }

  lemma ListsWithoutJob(t: Table, n: nat, id: string)
    requires StoredId(t, id).None?
    ensures Jobless(Streamed(t, R.BATCH, n), id)
  {
    ListingMeaning(t, R.BATCH);
  }

  lemma TickSpares(ts: TickState, t: nat, now: Instant, table: Table, memory: Memory,
                   answer: Answer, fails: bool, expired: bool, streamed: nat, id: string)
    requires NotPolling(ts, id) && StoredId(table, id).None?
    ensures var e := TickNext(ts, t, now, table, memory, answer, fails, expired, streamed);
            && Spares(e.write, id) && (e.next.Some? ==> NotPolling(e.next.value, id))
            && (e.op.Some? && e.op.value.TickPolled? ==> e.op.value.id != id)
  {
    if ts.AtListing? {
      ListsWithoutJob(table, streamed, id);
    }
  }

  lemma SparedByStep(s: State, a: Action, id: string)
    requires WithoutJob(s, id)
    ensures Spares(WriteOf(s, a), id)
    ensures OpOf(s, a).Some? && OpOf(s, a).value.TickPolled? ==> OpOf(s, a).value.id != id
  {
    if a.HandlerStep? && a.h in s.handlers {
      HandlerSpares(s.handlers[a.h], s.now, a.answer, a.fails, id);
    } else if a.TickStep? && a.t in s.ticks {
      TickSpares(s.ticks[a.t], a.t, s.now, s.table, s.memory, a.answer, a.fails, a.expired, a.streamed, id);
    }
  }

  lemma WithoutJobAfterStep(s: State, a: Action, id: string)
    requires WithoutJob(s, id) && Undelivered(s, [a], id)
    ensures WithoutJob(Step(s, a), id)
  {
    StepShape(s, a);
    SparedByStep(s, a, id);
    StaysWithoutJob(s.table, WriteOf(s, a), s.now, id);
    if a.HandlerStep? && a.h in s.handlers {
      HandlerSpares(s.handlers[a.h], s.now, a.answer, a.fails, id);
    } else if a.TickStep? && a.t in s.ticks {
      TickSpares(s.ticks[a.t], a.t, s.now, s.table, s.memory, a.answer, a.fails, a.expired, a.streamed, id);
    }
    hide HandlerNext, TickNext, Wrote;
  }

  /** A request without a job, and no message for it on the way, is polled by no tick of any run. */
  lemma {:induction false} NeverPolled(s: State, acts: seq<Action>, id: string)
    requires WithoutJob(s, id) && Undelivered(s, acts, id) && !PollLogged(s.log, id)
    ensures !PollLogged(Run(s, acts).log, id)
    decreases |acts|
  {
    if acts != [] {
      hide NotPolling;
      assert Undelivered(s, [acts[0]], id) by {
        assert [acts[0]][1..] == [];
      }
      StepShape(s, acts[0]);
      SparedByStep(s, acts[0], id);
      WithoutJobAfterStep(s, acts[0], id);
      NeverPolled(Step(s, acts[0]), acts[1..], id);
    }
  }

  /** The exception to NoLostRequest is real: a status-only acceptance is acknowledged to the broker
      and leaves the row acknowledged without an upstream id; unless a message for the request is
      delivered again, no tick of any continuation polls it. */
  lemma BlankAcceptanceIsLost(msg: Message) returns (acts: seq<Action>)
    requires Live(msg)
    ensures var s := Run(START, acts);
            && s.acked == {0} && msg.id in s.table && s.table[msg.id].status == Acknowledged
            && !Settled(s.table, msg.id)
            && forall rest :: Undelivered(s, rest, msg.id) ==> !PollLogged(Run(s, rest).log, msg.id)
  {
    var a, b := Submit(0, msg), Protocol.Action.Deliver(0, 0);
    var s2 := Step(Step(START, a), b);
    assert s2.handlers == map[0 := Received(0, msg)] && s2.log == [] && s2.acked == {};
    hide Step, Run;
    var d := Delivery(false, ACCEPTED, false, s2.now, s2.now);
    var tail := DeliveryIsRun(s2, 0, d);
    RunCons(Step(START, a), b, tail);
    RunCons(START, a, [b] + tail);
    acts := [a] + ([b] + tail);
    var s := Run(START, acts);
    AcknowledgedIsSettled(View(s2), msg, d);
    assert s.handlers == map[];
    assert View(s).calls == [AddCall(msg.id)];
    if PollLogged(s.log, msg.id) {
      CallsOfPolls(s.log, msg.id);
    }
    forall rest | Undelivered(s, rest, msg.id) ensures !PollLogged(Run(s, rest).log, msg.id) {
      NeverPolled(s, rest, msg.id);
    }
  }

  lemma {:induction false} CallsOfPolls(log: seq<Op>, id: string)
    requires PollLogged(log, id)
    ensures exists k :: 0 <= k < |Calls(log)| && Calls(log)[k].PollCall? && Calls(log)[k].id == id
  {
    var before, op := log[..|log| - 1], log[|log| - 1];
    if PollLogged(before, id) {
      CallsOfPolls(before, id);
      var k :| 0 <= k < |Calls(before)| && Calls(before)[k].PollCall? && Calls(before)[k].id == id;
      assert Calls(log)[k] == Calls(before)[k];
    } else {
      assert op.TickPolled? && op.id == id;
      assert Calls(log)[|Calls(before)|] == PollCall(op.id, op.externalId, op.at);
    }
  }
}
