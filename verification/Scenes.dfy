/** Openings of runs: a first delivery, a redelivery, a tick that comes to poll. */
module Scenes {
  import opened Domain
  import opened Rows
  import opened Queries
  import opened Worlds
  import opened Consumer
  import opened Protocol
  import opened ProtocolRows
  import opened Refinement
  import R = Reconciler

  /** A reply with a status that is no transition, and no id. */
  const ACCEPTED: Answer := Success("", "queued", "")

  function Named(externalId: string, at: Instant): Delivery {
    Delivery(false, Success(externalId, "queued", ""), false, at, at)
  }

  function Stored(externalId: string): Row {
    Row(Some(externalId), Acknowledged, None, None, 1, 1)
  }

  /** A delivery at the first instant, received by an idle handler. */
  lemma Redelivers(s: State, msg: Message, externalId: string) returns (acts: seq<Action>)
    requires s.handlers == map[] && 0 in s.messages && s.messages[0] == msg && s.now == 1
    ensures var s' := Run(s, acts);
            && s'.handlers == map[] && s'.ticks == s.ticks && s'.locked == s.locked && s'.memory == s.memory
            && s'.messages == s.messages && s'.now == 1
            && s'.log == s.log + TraceOfDelivery(0, msg, Named(externalId, 1))
            && View(s') == Handle(View(s), msg, Named(externalId, 1)).0
  {
    hide Run, Handle, View;
    var b := Protocol.Action.Deliver(0, 0);
    var s1 := Step(s, b);
    ReceivedAgain(s);
    hide Step;
    var tail := DeliveryIsRun(s1, 0, Named(externalId, 1));
    RunCons(s, b, tail);
    acts := [b] + tail;
    assert map[0 := Received(0, msg)] - {0} == map[];
  }

  lemma ReceivedAgain(s: State)
    requires s.handlers == map[] && 0 in s.messages
    ensures var s' := Step(s, Protocol.Action.Deliver(0, 0));
            && s'.handlers == map[0 := Received(0, s.messages[0])] && View(s') == View(s) && s'.log == s.log
  {
  }

  /** A tick of an idle reconciler comes to poll the one row of the table. */
  lemma ComesToPoll(s: State, id: string) returns (acts: seq<Action>, row: ForwardedRequest)
    requires s.ticks == map[] && !s.locked && s.memory == BLANK
    requires s.table.Keys == {id} && !Terminal(s.table[id].status) && GetOr(s.table[id].externalId, "") != ""
    ensures row == Snapshot(id, s.table[id])
    ensures var s' := Run(s, acts);
            && Stands(s', 0, Polling(row, [])) && BesideTick(s, s') && s'.now == s.now
            && s'.table == s.table && View(s').events == View(s).events
            && s'.log == s.log + [TickLocked(0), TickListed(0), TickPolled(0, id, row.externalId, s.now)]
  {
    hide Run, View;
    row := Snapshot(id, s.table[id]);
    var i := R.RowInput(false, ACCEPTED, false, s.now, s.now);
    var lock, step := Attempt(0), TickStep(0, ACCEPTED, false, false, R.BATCH);
    Locks(s, 0);
    var s1 := Step(s, lock);
    ViewParts(s);
    ViewParts(s1);
    ChecksIn(s1, 0, step);
    var s2 := Step(s1, step);
    ViewParts(s2);
    Lists(s2, 0, step);
    var s3 := Step(s2, step);
    ViewParts(s3);
    SingleListing(s2.table, id, R.BATCH);
    assert [row] + [] == [row];
    StartRow(s3, 0, row, [], i);
    var s4 := Step(s3, step);
    ViewParts(s4);
    hide Step;
    RunNothing(s4);
    RunCons(s3, step, []);
    RunCons(s2, step, [step] + []);
    RunCons(s1, step, [step] + ([step] + []));
    RunCons(s, lock, [step] + ([step] + ([step] + [])));
    acts := [lock] + ([step] + ([step] + ([step] + [])));
  }

  lemma FirstDelivery(msg: Message, externalId: string) returns (acts: seq<Action>)
    requires Live(msg) && externalId != ""
    ensures var s := Run(START, acts);
            && s.handlers == map[] && s.ticks == map[] && !s.locked && s.memory == BLANK
            && s.messages == map[0 := msg] && s.now == 1
            && s.table == map[msg.id := Stored(externalId)]
            && View(s).events == [RequestAcknowledged(msg.id, externalId)]
            && s.log == [Asked(0, msg.id), Added(0, externalId),
                         HandlerPublished(0, RequestAcknowledged(msg.id, externalId))]
  {
    var a := Submit(0, msg);
    var s1 := Step(START, a);
    assert View(s1) == View(START);
    hide Run, Step;
    var tail := Redelivers(s1, msg, externalId);
    RunCons(START, a, tail);
    acts := [a] + tail;
    ViewParts(Run(START, acts));
    AfterNamed(View(START), msg, externalId);
    hide Handle, View;
  }

  lemma AfterNamed(w: World, msg: Message, externalId: string)
    requires Live(msg) && externalId != ""
    ensures var w' := Handle(w, msg, Named(externalId, 1)).0;
            && w'.events == w.events + [RequestAcknowledged(msg.id, externalId)]
            && w'.table.Keys == w.table.Keys + {msg.id}
            && (msg.id !in w.table ==> w'.table == w.table[msg.id := Stored(externalId)])
            && (msg.id in w.table ==> w'.table[msg.id].externalId == Some(externalId))
  {
  }

  /** How many steps a tick is at most from the end of its loop. */
  function TickStepsLeft(ts: TickState): nat {
    match ts
    case Looping(rest) => 4 * |rest|
    case Polling(_, rest) => 4 * |rest| + 3
    case RecordingError(_, rest, _, _) => 4 * |rest| + 1
    case Marking(_, rest, _, _) => 4 * |rest| + 2
    case Announcing(rest, _) => 4 * |rest| + 1
    case _ => 0
  }

  lemma TickMovesOn(s: State, t: nat)
    requires t in s.ticks
    ensures var a := TickStep(t, ACCEPTED, false, false, R.BATCH);
            var e := TickNext(s.ticks[t], t, s.now, s.table, s.memory, ACCEPTED, false, false, R.BATCH);
            && Step(s, a).table == Wrote(s.table, e.write, s.now)
            && (e.next.Some? ==> t in Step(s, a).ticks && Step(s, a).ticks[t] == e.next.value)
  {
    hide TickNext, Wrote;
  }
}
