/** Which upstream id a row goes on with when deliveries overlap each other or a tick. */
module IdRaces {
  import opened Domain
  import opened Rows
  import opened Queries
  import opened Consumer
  import opened Protocol
  import opened ProtocolRows
  import opened ProtocolIds
  import opened Refinement
  import opened Scenes
  import R = Reconciler

  /* ---- Who may still store another id ---- */

  /** Writing the row would store another id than e. */
  predicate Disputes(row: ForwardedRequest, id: string, e: string) {
    row.requestId == id && row.externalId != "" && row.externalId != e
  }

  predicate RowsDispute(rows: seq<ForwardedRequest>, id: string, e: string) {
    exists k :: 0 <= k < |rows| && Disputes(rows[k], id, e)
  }

  /** A tick still has a row to write that holds another id. */
  predicate TickDisputes(ts: TickState, id: string, e: string) {
    match ts
    case Looping(rest) => RowsDispute(rest, id, e)
    case Polling(row, rest) => Disputes(row, id, e) || RowsDispute(rest, id, e)
    case RecordingError(row, rest, _, stop) => Disputes(row, id, e) || (!stop && RowsDispute(rest, id, e))
    case Marking(row, rest, _, _) => Disputes(row, id, e) || RowsDispute(rest, id, e)
    case Announcing(rest, _) => RowsDispute(rest, id, e)
    case _ => false
  }

  /** A handler that has yet to ask, or to hear, or to store what it heard. */
  predicate HandlerDisputes(hs: HandlerState, id: string, e: string) {
    && hs.msg.id == id
    && match hs
       case Received(_, msg) => Live(msg)
       case Forwarding(_, _) => true
       case Calling(_, _) => true
       case Answered(_, _, answer) => answer.Success? && answer.id != "" && answer.id != e
       case _ => false
  }

  /** Nobody is on the way with another id for the row. */
  ghost predicate Undisputed(s: State, id: string, e: string) {
    && (forall t :: t in s.ticks ==> !TickDisputes(s.ticks[t], id, e))
    && (forall h :: h in s.handlers ==> !HandlerDisputes(s.handlers[h], id, e))
  }

  /* ---- Undisputed, an id stands for ever ---- */

  predicate Agreeable(w: Statement, id: string, e: string) {
    match w
    case DoUpsert(r) => !Disputes(r, id, e)
    case DoPolled(i, externalId, _) => i == id ==> externalId == "" || externalId == e
    case _ => true
  }

  lemma AgreeableKeepsId(t: Table, w: Statement, now: Instant, id: string, e: string)
    requires StoredId(t, id) == Some(e) && Agreeable(w, id, e)
    ensures StoredId(Wrote(t, w, now), id) == Some(e)
  {
  }

  lemma HandlerStaysAgreeable(hs: HandlerState, now: Instant, answer: Answer, fails: bool, id: string, e: string)
    requires !HandlerDisputes(hs, id, e)
    ensures var eff := HandlerNext(hs, now, answer, fails);
            Agreeable(eff.write, id, e) && (eff.next.Some? ==> !HandlerDisputes(eff.next.value, id, e))
  {
  }

  lemma ListingAgrees(t: Table, n: nat, id: string, e: string)
    requires StoredId(t, id) == Some(e)
    ensures !RowsDispute(Streamed(t, R.BATCH, n), id, e)
  {
    ListingMeaning(t, R.BATCH);
  }

  lemma TickStaysAgreeable(ts: TickState, t: nat, now: Instant, table: Table, memory: Memory,
                           answer: Answer, fails: bool, expired: bool, streamed: nat, id: string, e: string)
    requires !TickDisputes(ts, id, e) && StoredId(table, id) == Some(e)
    ensures var eff := TickNext(ts, t, now, table, memory, answer, fails, expired, streamed);
            Agreeable(eff.write, id, e) && (eff.next.Some? ==> !TickDisputes(eff.next.value, id, e))
  {
    if ts.AtListing? {
      ListingAgrees(table, streamed, id, e);
    }
  }

  lemma StepIsAgreeable(s: State, a: Action, id: string, e: string)
    requires StoredId(s.table, id) == Some(e) && Undisputed(s, id, e)
    ensures Agreeable(WriteOf(s, a), id, e)
  {
    if a.HandlerStep? && a.h in s.handlers {
      HandlerStaysAgreeable(s.handlers[a.h], s.now, a.answer, a.fails, id, e);
    } else if a.TickStep? && a.t in s.ticks {
      TickStaysAgreeable(s.ticks[a.t], a.t, s.now, s.table, s.memory, a.answer, a.fails, a.expired, a.streamed, id, e);
    }
  }

  lemma UndisputedAfterStep(s: State, a: Action, id: string, e: string)
    requires StoredId(s.table, id) == Some(e) && Undisputed(s, id, e)
    requires a.Deliver? && a.msgId in s.messages ==> s.messages[a.msgId].id != id
    ensures Undisputed(Step(s, a), id, e)
  {
    hide HandlerNext, TickNext, Wrote, TickDisputes;
    if a.HandlerStep? && a.h in s.handlers {
      HandlerStaysAgreeable(s.handlers[a.h], s.now, a.answer, a.fails, id, e);
    } else if a.TickStep? && a.t in s.ticks {
      TickStaysAgreeable(s.ticks[a.t], a.t, s.now, s.table, s.memory, a.answer, a.fails, a.expired, a.streamed, id, e);
    }
    CheckingAgrees(id, e);
  }

  lemma CheckingAgrees(id: string, e: string)
    ensures !TickDisputes(Checking, id, e)
  {
  }

  lemma {:induction false} UndisputedStands(s: State, acts: seq<Action>, id: string, e: string)
    requires StoredId(s.table, id) == Some(e) && Undisputed(s, id, e) && Undelivered(s, acts, id)
    ensures StoredId(Run(s, acts).table, id) == Some(e)
    decreases |acts|
  {
    if acts != [] {
      hide Step, Undisputed, Wrote, WriteOf;
      StepShape(s, acts[0]);
      StepIsAgreeable(s, acts[0], id, e);
      AgreeableKeepsId(s.table, WriteOf(s, acts[0]), s.now, id, e);
      UndisputedAfterStep(s, acts[0], id, e);
      UndisputedStands(Step(s, acts[0]), acts[1..], id, e);
    }
  }

  /* ---- Disputed, some run replaces it ---- */

  /** Answered without a transition and without faults, a disputing tick stores its id or goes on. */
  lemma TickPresses(ts: TickState, t: nat, now: Instant, table: Table, memory: Memory, id: string, e: string)
    requires TickDisputes(ts, id, e) && StoredId(table, id) == Some(e)
    ensures var eff := TickNext(ts, t, now, table, memory, ACCEPTED, false, false, R.BATCH);
            StoredId(Wrote(table, eff.write, now), id) != Some(e)
            || (eff.next.Some? && TickDisputes(eff.next.value, id, e) && TickStepsLeft(eff.next.value) < TickStepsLeft(ts))
  {
    if ts.Looping? {
      var k :| 0 <= k < |ts.rest| && Disputes(ts.rest[k], id, e);
      assert k > 0 ==> ts.rest[1..][k - 1] == ts.rest[k];
    }
  }

  lemma {:induction false} TickReplaces(s: State, t: nat, id: string, e: string) returns (acts: seq<Action>)
    requires t in s.ticks && TickDisputes(s.ticks[t], id, e) && StoredId(s.table, id) == Some(e)
    ensures Undelivered(s, acts, id) && StoredId(Run(s, acts).table, id) != Some(e)
    decreases TickStepsLeft(s.ticks[t])
  {
    var a := TickStep(t, ACCEPTED, false, false, R.BATCH);
    var s1 := Step(s, a);
    TickPresses(s.ticks[t], t, s.now, s.table, s.memory, id, e);
    hide Step, TickNext, Wrote, TickDisputes, TickStepsLeft;
    StepShape(s, a);
    RunNothing(s1);
    var tail := [];
    if StoredId(s1.table, id) == Some(e) {
      TickMovesOn(s, t);
      tail := TickReplaces(s1, t, id, e);
    }
    RunCons(s, a, tail);
    UndeliveredCons(s, a, tail, id);
    acts := [a] + tail;
  }

  lemma UndeliveredCons(s: State, a: Action, tail: seq<Action>, id: string)
    requires !a.Deliver? && Undelivered(Step(s, a), tail, id)
    ensures Undelivered(s, [a] + tail, id)
  {
    assert ([a] + tail)[0] == a && ([a] + tail)[1..] == tail;
  }

  /** So does a handler, when the upstream names another job. */
  lemma HandlerPresses(hs: HandlerState, now: Instant, table: Table, id: string, e: string)
    requires HandlerDisputes(hs, id, e) && StoredId(table, id) == Some(e)
    ensures var eff := HandlerNext(hs, now, Success(e + "x", "queued", ""), false);
            StoredId(Wrote(table, eff.write, now), id) != Some(e)
            || (eff.next.Some? && HandlerDisputes(eff.next.value, id, e) && StepsLeft(eff.next.value) < StepsLeft(hs))
  {
    assert |e + "x"| == |e| + 1;
  }

  lemma {:induction false} HandlerReplaces(s: State, h: nat, id: string, e: string) returns (acts: seq<Action>)
    requires h in s.handlers && HandlerDisputes(s.handlers[h], id, e) && StoredId(s.table, id) == Some(e)
    ensures Undelivered(s, acts, id) && StoredId(Run(s, acts).table, id) != Some(e)
    decreases StepsLeft(s.handlers[h])
  {
    var other := Success(e + "x", "queued", "");
    var a := HandlerStep(h, other, false);
    var s1 := Step(s, a);
    HandlerPresses(s.handlers[h], s.now, s.table, id, e);
    hide Step, HandlerNext, Wrote, HandlerDisputes, StepsLeft;
    StepShape(s, a);
    HandlerMoves(s, h, other, false);
    RunNothing(s1);
    var tail := [];
    if StoredId(s1.table, id) == Some(e) {
      tail := HandlerReplaces(s1, h, id, e);
    }
    RunCons(s, a, tail);
    UndeliveredCons(s, a, tail, id);
    acts := [a] + tail;
  }

  /** When a stored upstream id stands. Unless a message of the request is delivered again, every run
      leaves the row with it exactly when nobody is on the way with another: no tick has a row of the
      request still to write that was listed with another id, and no handler of the request has yet to
      ask the upstream, to hear from it, or to store another id it heard. */
  lemma IdStandsIff(s: State, id: string, e: string)
    requires StoredId(s.table, id) == Some(e)
    ensures (forall acts :: Undelivered(s, acts, id) ==> StoredId(Run(s, acts).table, id) == Some(e))
            <==> Undisputed(s, id, e)
  {
    hide Run, Undelivered, TickDisputes, HandlerDisputes;
    if Undisputed(s, id, e) {
      forall acts | Undelivered(s, acts, id) ensures StoredId(Run(s, acts).table, id) == Some(e) {
        UndisputedStands(s, acts, id, e);
      }
    } else if t :| t in s.ticks && TickDisputes(s.ticks[t], id, e) {
      var acts := TickReplaces(s, t, id, e);
    } else {
      var h :| h in s.handlers && HandlerDisputes(s.handlers[h], id, e);
      var acts := HandlerReplaces(s, h, id, e);
    }
  }

  /* ---- Both kinds of race, from the start ---- */

  lemma PollHolds(p: R.Progress, row: ForwardedRequest, i: R.RowInput)
    requires i.answer == ACCEPTED && !i.writeFails
    ensures R.AfterAnswer(p, row, i).world.table
            == Polled(p.world.table, row.requestId, row.externalId, row.status, i.wroteAt)
    ensures R.AfterAnswer(p, row, i).world.events == p.world.events
  {
  }

  /** The tick's poll, sent before the redelivery, ends after it. */
  lemma EndsPoll(s: State, row: ForwardedRequest) returns (acts: seq<Action>)
    requires Stands(s, 0, Polling(row, []))
    ensures var s' := Run(s, acts);
            && s'.table == Polled(s.table, row.requestId, row.externalId, row.status, s.now)
            && View(s').events == View(s).events
  {
    hide Run, View, R.AfterAnswer;
    var i := R.RowInput(false, ACCEPTED, false, s.now, s.now);
    acts := FinishRow(s, 0, Polling(row, []), [], i);
    PollHolds(ProgressOf(s, false), row, i);
    ViewParts(s);
    ViewParts(Run(s, acts));
  }

  /** A redelivery does not always replace the upstream id. A tick that listed the row before, and ends
      its poll after, puts the old id back: the last event names the later id, the row goes on with the earlier. */
  lemma StaleIdIsRestored(msg: Message, earlier: string, later: string) returns (acts: seq<Action>)
    requires Live(msg) && earlier != "" && later != ""
    ensures var s := Run(START, acts);
            && Events(s.log) == [RequestAcknowledged(msg.id, earlier), RequestAcknowledged(msg.id, later)]
            && msg.id in s.table && s.table[msg.id].externalId == Some(earlier)
  {
    hide Run, Step, Handle;
    var first := FirstDelivery(msg, earlier);
    var s1 := Run(START, first);
    var listing, row := ComesToPoll(s1, msg.id);
    var s2 := Run(s1, listing);
    ViewParts(s2);
    var again := Redelivers(s2, msg, later);
    var s3 := Run(s2, again);
    AfterNamed(View(s2), msg, later);
    ViewParts(s3);
    var ending := EndsPoll(s3, row);
    var s4 := Run(s3, ending);
    RunConcat(START, first, listing);
    RunConcat(START, first + listing, again);
    RunConcat(START, first + listing + again, ending);
    acts := first + listing + again + ending;
    assert View(s4).events == Events(s4.log);
  }

  /** A handler received a message and has the upstream's answer. */
  lemma GetsAnswer(s: State, h: nat, externalId: string) returns (acts: seq<Action>)
    requires h in s.handlers && s.handlers[h].Received? && Live(s.handlers[h].msg)
    ensures var hs, s' := s.handlers[h], Run(s, acts);
            && s'.handlers == s.handlers[h := HandlerState.Answered(hs.m, hs.msg, Success(externalId, "queued", ""))]
            && s'.ticks == s.ticks && s'.messages == s.messages && s'.acked == s.acked && s'.now == s.now
            && s'.log == s.log + [Asked(hs.m, hs.msg.id), Added(hs.m, externalId)]
            && s'.table == Upserted(s.table, Submission(hs.msg.id, s.now), s.now)
  {
    hide Step, Upserted, View, Run, Advanced;
    var a := HandlerStep(h, Success(externalId, "queued", ""), false);
    var s1 := Step(s, a);
    var s2 := Step(s1, a);
    HandlerMoves(s, h, a.answer, false);
    HandlerMoves(s1, h, a.answer, false);
    HandlerMoves(s2, h, a.answer, false);
    StepShape(s, a);
    StepShape(s1, a);
    StepShape(s2, a);
    RunStep(s2, a);
    RunCons(s1, a, [a]);
    RunCons(s, a, [a] + [a]);
    acts := [a] + ([a] + [a]);
  }

  lemma TwoReceived(msg: Message)
    ensures var s := Step(Step(Step(START, Submit(0, msg)), Protocol.Action.Deliver(0, 0)), Protocol.Action.Deliver(1, 0));
            && s.handlers == map[0 := Received(0, msg), 1 := Received(0, msg)]
            && s.ticks == map[] && s.acked == {} && s.log == [] && s.table == map[] && s.now == 1
  {
  }

  /** No tick is needed. Of two overlapping deliveries the one the upstream answered first may store last:
      the row goes on with the earlier id, and by then nobody is on the way with another. */
  lemma OverlapRestoresId(msg: Message, earlier: string, later: string) returns (acts: seq<Action>)
    requires Live(msg) && earlier != "" && later != ""
    ensures var s := Run(START, acts);
            && s.log == [Asked(0, msg.id), Added(0, earlier), Asked(0, msg.id), Added(0, later),
                         HandlerPublished(0, RequestAcknowledged(msg.id, later)),
                         HandlerPublished(0, RequestAcknowledged(msg.id, earlier))]
            && s.acked == {0} && s.ticks == map[] && s.handlers == map[]
            && StoredId(s.table, msg.id) == Some(earlier) && Undisputed(s, msg.id, earlier)
  {
    var a, b, c := Submit(0, msg), Protocol.Action.Deliver(0, 0), Protocol.Action.Deliver(1, 0);
    hide Step, Run, View, Handle, Rest, Trace, TraceOfDelivery, Upserted, Undisputed, StoredId;
    TwoReceived(msg);
    var s0 := Step(Step(Step(START, a), b), c);
    var first := GetsAnswer(s0, 0, earlier);
    var s1 := Run(s0, first);
    var second := DeliveryIsRun(s1, 1, Named(later, 1));
    var s2 := Run(s1, second);
    var third := FinishIsRun(s2, 0, Named(earlier, 1));
    var s3 := Run(s2, third);
    OverlapEnds(s1, s2, s3, msg, earlier, later);
    OverlapTrace(s0, s1, s2, s3, msg, earlier, later);
    NobodyDisputes(s3, msg.id, earlier);
    RunConcat(s1, second, third);
    RunConcat(s0, first, second + third);
    var tail := first + (second + third);
    RunCons(Step(Step(START, a), b), c, tail);
    RunCons(Step(START, a), b, [c] + tail);
    RunCons(START, a, [b] + ([c] + tail));
    acts := [a] + ([b] + ([c] + tail));
  }

  lemma NobodyDisputes(s: State, id: string, e: string)
    requires s.ticks == map[] && s.handlers == map[]
    ensures Undisputed(s, id, e)
  {
  }

  lemma OverlapTrace(s0: State, s1: State, s2: State, s3: State, msg: Message, earlier: string, later: string)
    requires Live(msg) && s0.log == []
    requires s1.log == s0.log + [Asked(0, msg.id), Added(0, earlier)]
    requires s2.log == s1.log + TraceOfDelivery(0, msg, Named(later, 1))
    requires s3.log == s2.log + Trace(HandlerState.Answered(0, msg, Success(earlier, "queued", "")), Named(earlier, 1))
    ensures s3.log == [Asked(0, msg.id), Added(0, earlier), Asked(0, msg.id), Added(0, later),
                       HandlerPublished(0, RequestAcknowledged(msg.id, later)),
                       HandlerPublished(0, RequestAcknowledged(msg.id, earlier))]
  {
  }

  lemma OverlapEnds(s1: State, s2: State, s3: State, msg: Message, earlier: string, later: string)
    requires Live(msg) && earlier != "" && later != ""
    requires View(s2) == Handle(View(s1), msg, Named(later, 1)).0
    requires View(s3) == Rest(View(s2), HandlerState.Answered(0, msg, Success(earlier, "queued", "")), Named(earlier, 1)).0
    ensures StoredId(s3.table, msg.id) == Some(earlier)
  {
    ViewParts(s3);
    hide View;
  }
}
