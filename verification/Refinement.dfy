/** The two views of the protocol meet: a whole delivery, a whole tick and every
    sequence of whole calls are runs of small steps. */
module Refinement {
  import opened Domain
  import opened Rows
  import opened Queries
  import opened Worlds
  import opened Consumer
  import opened Protocol
  import opened ProtocolRows
  import opened R = Reconciler
  import Runs

  /* ---- A state of the small-step protocol, seen as a world of whole calls ---- */

  function EventIn(op: Op): Option<Event> {
    match op
    case HandlerPublished(_, event) => Some(event)
    case TickPublished(_, event) => Some(event)
    case _ => None
  }

  function CallIn(op: Op): Option<Call> {
    match op
    case Asked(_, id) => Some(AddCall(id))
    case TickPolled(_, id, externalId, at) => Some(PollCall(id, externalId, at))
    case _ => None
  }

  function Add<T>(q: seq<T>, x: Option<T>): seq<T> {
    if x.Some? then q + [x.value] else q
  }

  function Events(log: seq<Op>): seq<Event> {
    if log == [] then [] else Add(Events(log[..|log| - 1]), EventIn(log[|log| - 1]))
  }

  function Calls(log: seq<Op>): seq<Call> {
    if log == [] then [] else Add(Calls(log[..|log| - 1]), CallIn(log[|log| - 1]))
  }

  ghost function View(s: State): World {
    World(s.table, Events(s.log), Calls(s.log), s.memory.lastError, s.memory.backoffUntil)
  }

  /** The world after a statement and a mark. */
  function Advanced(w: World, write: Statement, now: Instant, op: Option<Op>): World {
    w.(table := Wrote(w.table, write, now),
       events := if op.Some? then Add(w.events, EventIn(op.value)) else w.events,
       calls := if op.Some? then Add(w.calls, CallIn(op.value)) else w.calls)
  }

  lemma ViewAfterHandler(s: State, h: nat, e: HandlerEffect)
    requires h in s.handlers
    ensures View(AfterHandler(s, h, e)) == Advanced(View(s), e.write, s.now, e.op)
  {
    hide Wrote;
    if e.op.Some? {
      assert (s.log + [e.op.value])[..|s.log|] == s.log;
    }
  }

  lemma ViewAfterTick(s: State, t: nat, e: TickEffect)
    ensures View(AfterTick(s, t, e)) == Advanced(View(s), e.write, s.now, e.op)
                                        .(lastError := e.memory.lastError, backoffUntil := e.memory.backoffUntil)
  {
    hide Wrote;
    if e.op.Some? {
      assert (s.log + [e.op.value])[..|s.log|] == s.log;
    }
  }

  lemma RunCons(s: State, a: Action, tail: seq<Action>)
    ensures Run(s, [a] + tail) == Run(Step(s, a), tail)
  {
    assert ([a] + tail)[0] == a && ([a] + tail)[1..] == tail;
  }

  /** Waits until the clock shows `at`. */
  lemma Waits(s: State, at: Time)
    requires s.now <= at
    ensures Step(s, Elapse(at - s.now)) == s.(now := at) && View(s.(now := at)) == View(s)
  {
  }

  /* ---- Deliveries ---- */

  /** Only the handler's own steps and the passing of time. */
  predicate HandlerOnly(acts: seq<Action>, h: nat) {
    forall k :: 0 <= k < |acts| ==> (acts[k].HandlerStep? && acts[k].h == h) || acts[k].Elapse?
  }

  /** What is left of a delivery once the submitted row is persisted. */
  function Rest(w: World, hs: HandlerState, d: Delivery): (World, bool)
    requires !hs.Received?
  {
    match hs
    case Rejecting(_, msg) =>
      var w' := if d.outcomeFails then w else Persist(w, Failure(msg.id, NO_METADATA, d.doneAt), d.doneAt);
      (Announce(w', RequestFailed(msg.id, NO_METADATA)), true)
    case Forwarding(_, msg) => Recorded(w.(calls := w.calls + [AddCall(msg.id)]), msg, d.answer, d)
    case Calling(_, msg) => Recorded(w, msg, d.answer, d)
    case Answered(_, msg, answer) => Recorded(w, msg, answer, d)
    case Publishing(_, _, event) => (Announce(w, event), true)
    case Acking(_, _) => (w, true)
  }

  function Recorded(w: World, msg: Message, answer: Answer, d: Delivery): (World, bool) {
    if d.outcomeFails then (w, false)
    else
      var (write, event) := Outcome(msg.id, answer, d.doneAt);
      (Announce(Persist(w, write, d.doneAt), event), true)
  }

  /** The marks those steps leave. */
  function Trace(hs: HandlerState, d: Delivery): seq<Op>
    requires !hs.Received?
  {
    match hs
    case Rejecting(m, msg) => [HandlerPublished(m, RequestFailed(msg.id, NO_METADATA))]
    case Forwarding(m, msg) => [Asked(m, msg.id)] + TraceOfAnswer(m, msg, d)
    case Calling(m, msg) => TraceOfAnswer(m, msg, d)
    case Answered(m, msg, answer) => TraceOfOutcome(m, msg, answer, d)
    case Publishing(m, _, event) => [HandlerPublished(m, event)]
    case Acking(_, _) => []
  }

  function TraceOfAnswer(m: nat, msg: Message, d: Delivery): seq<Op> {
    (if d.answer.Success? then [Added(m, d.answer.id)] else []) + TraceOfOutcome(m, msg, d.answer, d)
  }

  function TraceOfOutcome(m: nat, msg: Message, answer: Answer, d: Delivery): seq<Op> {
    if d.outcomeFails then [] else [HandlerPublished(m, Outcome(msg.id, answer, d.doneAt).1)]
  }

  /** The marks of a whole delivery. */
  function TraceOfDelivery(m: nat, msg: Message, d: Delivery): seq<Op> {
    if !msg.targeted || msg.id == "" || d.submitFails then []
    else Trace(if msg.complete then Forwarding(m, msg) else Rejecting(m, msg), d)
  }

  function StepsLeft(hs: HandlerState): nat {
    match hs
    case Received(_, _) => 6
    case Forwarding(_, _) => 5
    case Calling(_, _) => 4
    case Rejecting(_, _) => 3
    case Answered(_, _, _) => 3
    case Publishing(_, _, _) => 2
    case Acking(_, _) => 1
  }

  function AsLog(op: Option<Op>): seq<Op> {
    if op.Some? then [op.value] else []
  }

  lemma RestStep(w: World, hs: HandlerState, d: Delivery, now: Instant)
    requires !hs.Received? && now == d.doneAt
    ensures var e := HandlerNext(hs, now, d.answer, d.outcomeFails);
            var w' := Advanced(w, e.write, now, e.op);
            && (if e.next.Some? then
                  && !e.next.value.Received? && StepsLeft(e.next.value) < StepsLeft(hs)
                  && e.next.value.m == hs.m && !e.acks
                  && Rest(w, hs, d) == Rest(w', e.next.value, d)
                  && Trace(hs, d) == AsLog(e.op) + Trace(e.next.value, d)
                else Rest(w, hs, d) == (w', e.acks) && Trace(hs, d) == AsLog(e.op))
  {
    hide Upserted;
  }

  /** What a handler's steps leave alone. */
  ghost predicate BesideHandler(s: State, s': State, h: nat, acks: bool) {
    && s'.messages == s.messages && s'.ticks == s.ticks && s'.locked == s.locked && s'.memory == s.memory
    && s'.handlers == s.handlers - {h}
    && h in s.handlers && s'.acked == (if acks then s.acked + {s.handlers[h].m} else s.acked)
  }

  lemma HandlerMoves(s: State, h: nat, answer: Answer, fails: bool)
    requires h in s.handlers
    ensures var e := HandlerNext(s.handlers[h], s.now, answer, fails);
            var s' := Step(s, HandlerStep(h, answer, fails));
            && s'.handlers == Moved(s.handlers, h, e.next) && s'.now == s.now
            && s'.acked == (if e.acks then s.acked + {s.handlers[h].m} else s.acked)
            && s'.messages == s.messages && s'.ticks == s.ticks && s'.locked == s.locked && s'.memory == s.memory
            && s'.log == s.log + AsLog(e.op)
            && View(s') == Advanced(View(s), e.write, s.now, e.op)
  {
    ViewAfterHandler(s, h, HandlerNext(s.handlers[h], s.now, answer, fails));
  }

  lemma {:induction false} FinishIsRun(s: State, h: nat, d: Delivery) returns (acts: seq<Action>)
    requires h in s.handlers && !s.handlers[h].Received? && s.now == d.doneAt
    ensures HandlerOnly(acts, h)
    ensures var s', r := Run(s, acts), Rest(View(s), s.handlers[h], d);
            && View(s') == r.0 && BesideHandler(s, s', h, r.1) && s'.now == s.now
            && s'.log == s.log + Trace(s.handlers[h], d)
    decreases StepsLeft(s.handlers[h])
  {
    hide Step, Run, HandlerNext, Rest, Trace, AsLog, Advanced, Wrote, View;
    var a := HandlerStep(h, d.answer, d.outcomeFails);
    var s1 := Step(s, a);
    HandlerMoves(s, h, d.answer, d.outcomeFails);
    RestStep(View(s), s.handlers[h], d, s.now);
    var tail := [];
    if h in s1.handlers {
      tail := FinishIsRun(s1, h, d);
    }
    RunNothing(s1);
    RunCons(s, a, tail);
    acts := [a] + tail;
  }

  lemma RunNothing(s: State)
    ensures Run(s, []) == s
  {
  }

  /** What the first step of a delivery leaves to do. */
  lemma HandleIsRest(w: World, m: nat, msg: Message, d: Delivery)
    ensures !msg.targeted || msg.id == "" ==> Handle(w, msg, d) == (w, true) && TraceOfDelivery(m, msg, d) == []
    ensures msg.targeted && msg.id != "" && d.submitFails ==>
              Handle(w, msg, d) == (w, false) && TraceOfDelivery(m, msg, d) == []
    ensures msg.targeted && msg.id != "" && !d.submitFails ==>
              var next := if msg.complete then Forwarding(m, msg) else Rejecting(m, msg);
              && Handle(w, msg, d) == Rest(Persist(w, Submission(msg.id, d.at), d.at), next, d)
              && TraceOfDelivery(m, msg, d) == Trace(next, d)
  {
    hide Upserted;
  }

  lemma AckIsRest(w: World, m: nat, msg: Message, d: Delivery)
    ensures Rest(w, Acking(m, msg), d) == (w, true) && Trace(Acking(m, msg), d) == []
  {
  }

  /** From the moment the event is received, some uninterrupted sequence of the handler's steps has
      the effect of the whole delivery: the same table, events and upstream calls, the marks in order, and
      acknowledged or not alike. Nothing else of the state moves. */
  lemma DeliveryIsRun(s: State, h: nat, d: Delivery) returns (acts: seq<Action>)
    requires h in s.handlers && s.handlers[h].Received?
    requires d.at == s.now && d.at <= d.doneAt
    ensures HandlerOnly(acts, h)
    ensures var s', r := Run(s, acts), Handle(View(s), s.handlers[h].msg, d);
            && View(s') == r.0 && BesideHandler(s, s', h, r.1) && s.now <= s'.now <= d.doneAt
            && s'.log == s.log + TraceOfDelivery(s.handlers[h].m, s.handlers[h].msg, d)
  {
    hide Run, Step, Upserted, View, Handle, Rest, Trace, TraceOfDelivery;
    var m, msg := s.handlers[h].m, s.handlers[h].msg;
    HandleIsRest(View(s), m, msg, d);
    AckIsRest(View(s), m, msg, d.(doneAt := s.now));
    var a := HandlerStep(h, d.answer, d.submitFails);
    var s1 := Step(s, a);
    HandlerMoves(s, h, d.answer, d.submitFails);
    RunNothing(s1);
    if h !in s1.handlers {
      RunCons(s, a, []);
      acts := [a] + [];
    } else if s1.handlers[h].Acking? {
      var tail := FinishIsRun(s1, h, d.(doneAt := s.now));
      RunCons(s, a, tail);
      acts := [a] + tail;
    } else {
      var b := Elapse(d.doneAt - s1.now);
      Waits(s1, d.doneAt);
      var tail := FinishIsRun(Step(s1, b), h, d);
      RunCons(s1, b, tail);
      RunCons(s, a, [b] + tail);
      acts := [a] + ([b] + tail);
    }
  }

  /* ---- Ticks ---- */

  /** Only the tick's own attempt and steps, and the passing of time. */
  predicate TickOnly(acts: seq<Action>, t: nat) {
    forall k :: 0 <= k < |acts| ==>
      ((acts[k].TickStep? || acts[k].Attempt?) && acts[k].t == t) || acts[k].Elapse?
  }

  /** The tick t alone holds the lock and stands at ts. */
  ghost predicate Stands(s: State, t: nat, ts: TickState) {
    s.ticks == map[t := ts] && s.locked
  }

  /** What a tick's steps leave alone. */
  ghost predicate BesideTick(s: State, s': State) {
    s'.messages == s.messages && s'.handlers == s.handlers && s'.acked == s.acked
  }

  lemma TickMoves(s: State, t: nat, ts: TickState, answer: Answer, fails: bool, expired: bool, streamed: nat)
    requires Stands(s, t, ts)
    ensures var e := TickNext(ts, t, s.now, s.table, s.memory, answer, fails, expired, streamed);
            var s' := Step(s, TickStep(t, answer, fails, expired, streamed));
            && (if e.next.Some? then Stands(s', t, e.next.value) else s'.ticks == map[] && !s'.locked)
            && s'.now == s.now && s'.memory == e.memory && s'.log == Logged(s.log, e.op) && BesideTick(s, s')
            && View(s') == Advanced(View(s), e.write, s.now, e.op)
                           .(lastError := e.memory.lastError, backoffUntil := e.memory.backoffUntil)
  {
    hide TickNext, Wrote, Events, Calls;
    ViewAfterTick(s, t, TickNext(ts, t, s.now, s.table, s.memory, answer, fails, expired, streamed));
    assert map[t := ts] - {t} == map[];
  }

  /** The loop's progress, read off a state; reporting is what a stopped loop comes to. */
  ghost function ProgressOf(s: State, stopped: bool): Progress {
    Progress(View(s), s.memory.frame.firstErr, stopped)
  }

  /** What is left of one row once its poll was sent. */
  function RowRest(p: Progress, ts: TickState, i: RowInput): Progress {
    match ts
    case Polling(row, _) => R.AfterAnswer(p, row, i)
    case RecordingError(row, _, err, stop) =>
      Progress(p.world.(table := if i.writeFails then p.world.table
                                 else Upserted(p.world.table, ErrorWrite(row, err, i.wroteAt), i.wroteAt)),
               FirstError(p.firstErr, i.writeFails && !stop, UpsertAfterUpstreamError), stop)
    case Marking(row, _, status, bookId) =>
      Progress(p.world.(table := if i.writeFails then p.world.table
                                 else Polled(p.world.table, row.requestId, row.externalId, status, i.wroteAt),
                        events := if status == row.status then p.world.events
                                  else p.world.events + [EventFor(row.requestId, row.externalId, status, bookId)]),
               FirstError(p.firstErr, i.writeFails,
                          if status == row.status then MarkPolledNoTransition else MarkPolledStatusChange),
               false)
    case Announcing(_, event) => p.(world := Announce(p.world, event))
    case Reporting => p.(stopped := true)
    case _ => p
  }

  /** A state between the sending of a poll and the end of its row. */
  predicate MidRow(ts: TickState, rest: seq<ForwardedRequest>) {
    match ts
    case Polling(_, r) => r == rest
    case RecordingError(_, r, _, _) => r == rest
    case Marking(_, r, _, _) => r == rest
    case Announcing(r, _) => r == rest
    case Looping(r) => r == rest
    case Reporting => true
    case _ => false
  }

  predicate RowDone(ts: TickState) {
    ts.Looping? || ts.Reporting?
  }

  function RowStepsLeft(ts: TickState): nat {
    match ts
    case Polling(_, _) => 3
    case RecordingError(_, _, _, _) => 1
    case Marking(_, _, _, _) => 2
    case Announcing(_, _) => 1
    case _ => 0
  }

  lemma PollRestStep(p: Progress, row: ForwardedRequest, rest: seq<ForwardedRequest>, t: nat, now: Instant,
                     memory: Memory, i: RowInput)
    requires now == i.wroteAt && !p.stopped && p.firstErr == memory.frame.firstErr
    requires p.world.lastError == memory.lastError && p.world.backoffUntil == memory.backoffUntil
    ensures var e := PollAnswered(row, rest, t, now, memory, i.answer);
            var w' := Advanced(p.world, e.write, now, e.op)
                      .(lastError := e.memory.lastError, backoffUntil := e.memory.backoffUntil);
            && e.next.Some? && MidRow(e.next.value, rest) && RowStepsLeft(e.next.value) < 3
            && R.AfterAnswer(p, row, i) == RowRest(Progress(w', e.memory.frame.firstErr, false), e.next.value, i)
            && e.memory.frame.(firstErr := None) == memory.frame.(firstErr := None)
  {
    hide Upserted, Rows.Polled, TranslateStatus, EventFor, ErrorWrite;
    if !i.answer.Success? {
      var err := ReasonOf(i.answer);
      assert !ErrorChanged(memory.lastError, row.requestId, err) ==>
          memory.lastError[row.requestId := err] == memory.lastError;
    }
  }

  lemma RowRestStep(p: Progress, ts: TickState, rest: seq<ForwardedRequest>, t: nat, now: Instant,
                    memory: Memory, i: RowInput)
    requires MidRow(ts, rest) && !RowDone(ts) && now == i.wroteAt && !p.stopped
    requires p.firstErr == memory.frame.firstErr
    requires p.world.lastError == memory.lastError && p.world.backoffUntil == memory.backoffUntil
    ensures var e := TickNext(ts, t, now, p.world.table, memory, i.answer, i.writeFails, false, BATCH);
            var w' := Advanced(p.world, e.write, now, e.op)
                      .(lastError := e.memory.lastError, backoffUntil := e.memory.backoffUntil);
            && e.next.Some? && MidRow(e.next.value, rest) && RowStepsLeft(e.next.value) < RowStepsLeft(ts)
            && RowRest(p, ts, i) == RowRest(Progress(w', e.memory.frame.firstErr, false), e.next.value, i)
            && e.memory.frame.(firstErr := None) == memory.frame.(firstErr := None)
  {
    hide Upserted, Rows.Polled, TranslateStatus, EventFor, ErrorWrite;
    if ts.Polling? {
      hide R.AfterAnswer, PollAnswered, Advanced;
      PollRestStep(p, ts.row, rest, t, now, memory, i);
    }
  }

  lemma {:induction false} FinishRow(s: State, t: nat, ts: TickState, rest: seq<ForwardedRequest>, i: RowInput)
    returns (acts: seq<Action>)
    requires Stands(s, t, ts) && MidRow(ts, rest) && s.now == i.wroteAt
    ensures TickOnly(acts, t)
    ensures var s', p' := Run(s, acts), RowRest(ProgressOf(s, false), ts, i);
            && Stands(s', t, if p'.stopped then Reporting else Looping(rest)) && ProgressOf(s', p'.stopped) == p'
            && s'.now == s.now && BesideTick(s, s')
            && s'.memory.frame.(firstErr := None) == s.memory.frame.(firstErr := None)
    decreases RowStepsLeft(ts)
  {
    RunNothing(s);
    if RowDone(ts) {
      acts := [];
    } else {
      hide Step, Run, TickNext, Advanced, RowRest, MidRow, View, RowStepsLeft;
      var a := TickStep(t, i.answer, i.writeFails, false, BATCH);
      var s1 := Step(s, a);
      TickMoves(s, t, ts, i.answer, i.writeFails, false, BATCH);
      ViewParts(s);
      RowRestStep(ProgressOf(s, false), ts, rest, t, s.now, s.memory, i);
      var next := TickNext(ts, t, s.now, s.table, s.memory, i.answer, i.writeFails, false, BATCH).next.value;
      var tail := FinishRow(s1, t, next, rest, i);
      RunCons(s, a, tail);
      acts := [a] + tail;
    }
  }

  lemma ViewParts(s: State)
    ensures View(s).table == s.table && View(s).lastError == s.memory.lastError
    ensures View(s).backoffUntil == s.memory.backoffUntil
  {
  }

  /** The clock readings of the rows, in order. */
  ghost predicate Timely(env: nat -> RowInput, now: Time, k: nat) {
    && now <= env(k).polledAt
    && forall j: nat :: TimelyAt(env, j)
  }

  predicate TimelyAt(env: nat -> RowInput, j: nat) {
    env(j).polledAt <= env(j).wroteAt <= env(j + 1).polledAt
  }

  /** The step that looks at the next row. */
  lemma StartRow(s: State, t: nat, row: ForwardedRequest, rest: seq<ForwardedRequest>, i: RowInput)
    requires Stands(s, t, Looping([row] + rest)) && s.now == i.polledAt
    ensures var s' := Step(s, TickStep(t, i.answer, i.writeFails, i.expired, BATCH));
            && Stands(s', t, if i.expired then Reporting
                             else if row.externalId == "" then Looping(rest) else Polling(row, rest))
            && s'.now == s.now && s'.memory == s.memory && BesideTick(s, s')
            && s'.log == (if i.expired || row.externalId == "" then s.log
                          else s.log + [TickPolled(t, row.requestId, row.externalId, i.polledAt)])
            && View(s') == if i.expired || row.externalId == "" then View(s)
                           else View(s).(calls := View(s).calls + [PollCall(row.requestId, row.externalId, i.polledAt)])
  {
    hide Step, View, Events, Calls, PollAnswered;
    assert ([row] + rest)[0] == row && ([row] + rest)[1..] == rest;
    ViewParts(s);
    TickMoves(s, t, Looping([row] + rest), i.answer, i.writeFails, i.expired, BATCH);
  }

  /** One iteration of the loop is a run of the tick's steps. */
  lemma RowIsRun(s: State, t: nat, row: ForwardedRequest, rest: seq<ForwardedRequest>, i: RowInput)
    returns (acts: seq<Action>)
    requires Stands(s, t, Looping([row] + rest)) && s.now <= i.polledAt <= i.wroteAt
    ensures TickOnly(acts, t)
    ensures var s', p' := Run(s, acts), RowStep(ProgressOf(s, false), row, i);
            && Stands(s', t, if p'.stopped then Reporting else Looping(rest)) && ProgressOf(s', p'.stopped) == p'
            && s'.now <= i.wroteAt && BesideTick(s, s')
            && s'.memory.frame.(firstErr := None) == s.memory.frame.(firstErr := None)
  {
    hide Step, Run, View, R.AfterAnswer;
    var b, a := Elapse(i.polledAt - s.now), TickStep(t, i.answer, i.writeFails, i.expired, BATCH);
    Waits(s, i.polledAt);
    var s1 := Step(s, b);
    StartRow(s1, t, row, rest, i);
    var s2 := Step(s1, a);
    var tail := [];
    if !i.expired && row.externalId != "" {
      var c := Elapse(i.wroteAt - s2.now);
      Waits(s2, i.wroteAt);
      var end := FinishRow(Step(s2, c), t, TickState.Polling(row, rest), rest, i);
      RunCons(s2, c, end);
      tail := [c] + end;
    }
    RunNothing(s2);
    RunCons(s1, a, tail);
    RunCons(s, b, [a] + tail);
    acts := [b] + ([a] + tail);
  }

  lemma {:induction false} RowsAreRun(s: State, t: nat, rows: seq<ForwardedRequest>, env: nat -> RowInput,
                                      k: nat, end: Time)
    returns (acts: seq<Action>)
    requires k <= |rows| && Stands(s, t, Looping(rows[k..])) && Timely(env, s.now, k)
    requires s.now <= end && forall j: nat :: env(j).wroteAt <= end
    ensures TickOnly(acts, t)
    ensures var s', p' := Run(s, acts), RunRows(ProgressOf(s, false), rows, env, k);
            && Stands(s', t, Reporting) && View(s') == p'.world && s'.memory.frame.firstErr == p'.firstErr
            && s'.now <= end && BesideTick(s, s')
            && s'.memory.frame.(firstErr := None) == s.memory.frame.(firstErr := None)
    decreases |rows| - k
  {
    hide Step, Run, View, RowStep;
    if k == |rows| {
      acts := EndRows(s, t);
    } else {
      assert rows[k..] == [rows[k]] + rows[k + 1..];
      assert TimelyAt(env, k);
      acts := RowIsRun(s, t, rows[k], rows[k + 1..], env(k));
      var s1, p1 := Run(s, acts), RowStep(ProgressOf(s, false), rows[k], env(k));
      if !p1.stopped {
        var tail := RowsAreRun(s1, t, rows, env, k + 1, end);
        RunConcat(s, acts, tail);
        acts := acts + tail;
      }
    }
  }

  lemma EndRows(s: State, t: nat) returns (acts: seq<Action>)
    requires Stands(s, t, Looping([]))
    ensures TickOnly(acts, t)
    ensures var s' := Run(s, acts);
            Stands(s', t, Reporting) && View(s') == View(s) && s'.now == s.now && s'.memory == s.memory && BesideTick(s, s')
  {
    var a := TickStep(t, Success("", "", ""), false, false, BATCH);
    TickMoves(s, t, Looping([]), a.answer, a.fails, a.expired, a.streamed);
    hide Step;
    RunStep(s, a);
    acts := [a];
  }

  ghost predicate TimelyTick(i: TickInput, now: Time) {
    && now <= i.startedAt <= i.endedAt && Timely(i.rows, i.startedAt, 0)
    && forall j: nat :: i.rows(j).wroteAt <= i.endedAt
  }

  /** A whole tick in the small-step protocol: the same world, status snapshot and returned error. */
  ghost predicate TickDone(s: State, s': State, t: nat, r: TickResult) {
    && s'.ticks == map[] && !s'.locked && BesideTick(s, s')
    && View(s') == r.world && s'.memory.status == r.status
    && s'.log != [] && s'.log[|s'.log| - 1] == TickUnlocked(t, r.err)
  }

  lemma AdvancedByUnlocking(w: World, now: Instant, t: nat, err: Option<R.TickError>)
    ensures Advanced(w, NoWrite, now, Some(TickUnlocked(t, err))) == w
  {
  }

  lemma Leaves(s: State, t: nat) returns (a: Action)
    requires Stands(s, t, Leaving)
    ensures TickOnly([a], t)
    ensures var s' := Step(s, a);
            TickDone(s, s', t, TickResult(View(s), s.memory.status, s.memory.frame.firstErr)) && s'.now == s.now
  {
    hide Step, View, Events, Calls, Streamed, Wrote;
    a := TickStep(t, Success("", "", ""), false, false, BATCH);
    TickMoves(s, t, Leaving, a.answer, a.fails, a.expired, a.streamed);
    ViewParts(s);
    AdvancedByUnlocking(View(s), s.now, t, s.memory.frame.firstErr);
  }

  /** From the end of the loop on: the clock goes to the end of the tick, the snapshot is taken, the lock released. */
  lemma ReportIsRun(s: State, t: nat, end: Instant) returns (acts: seq<Action>)
    requires Stands(s, t, Reporting) && s.now <= end
    ensures TickOnly(acts, t)
    ensures var s', f := Run(s, acts), s.memory.frame;
            && TickDone(s, s', t, TickResult(View(s), Reported(s.memory, end).status, f.firstErr)) && s'.now == end
  {
    hide Run, View;
    var b, a := Elapse(end - s.now), TickStep(t, Success("", "", ""), false, false, BATCH);
    Waits(s, end);
    var s1 := Step(s, b);
    TickMoves(s1, t, Reporting, a.answer, a.fails, a.expired, a.streamed);
    AdvancedByNothing(View(s1), s1.now);
    ViewParts(s1);
    var s2 := Step(s1, a);
    hide Step;
    var c := Leaves(s2, t);
    RunStep(s2, c);
    RunCons(s1, a, [c]);
    RunCons(s, b, [a] + [c]);
    acts := [b] + ([a] + [c]);
  }

  lemma AdvancedByNothing(w: World, now: Instant)
    ensures Advanced(w, NoWrite, now, None) == w
  {
  }

  lemma Locks(s: State, t: nat)
    requires s.ticks == map[] && !s.locked
    ensures var s' := Step(s, Attempt(t));
            && Stands(s', t, Checking) && s'.now == s.now && View(s') == View(s) && s'.memory == s.memory
            && BesideTick(s, s') && s'.log == s.log + [TickLocked(t)]
  {
    assert (s.log + [TickLocked(t)])[..|s.log|] == s.log;
  }

  lemma ChecksIn(s: State, t: nat, a: Action)
    requires Stands(s, t, Checking) && a.TickStep? && a.t == t
    ensures var s', remain := Step(s, a), Remaining(s.memory.backoffUntil, s.now);
            && s'.now == s.now && BesideTick(s, s')
            && if remain > 0 then
                 && Stands(s', t, Leaving) && View(s') == View(s) && s'.memory.frame.firstErr == None
                 && s'.memory.status == TickStatus(s.now, 0, 0, Backoff(remain), true)
               else
                 && Stands(s', t, AtListing) && View(s') == Unparked(View(s)) && s'.log == s.log
                 && s'.memory.frame == Frame(s.now, 0, None)
  {
    TickMoves(s, t, Checking, a.answer, a.fails, a.expired, a.streamed);
  }

  lemma Lists(s: State, t: nat, a: Action)
    requires Stands(s, t, AtListing) && a.TickStep? && a.t == t && s.memory.frame == Frame(s.now, 0, None)
    ensures var s', rows := Step(s, a), Streamed(s.table, BATCH, a.streamed);
            && s'.now == s.now && BesideTick(s, s') && View(s') == View(s)
            && if a.fails then Stands(s', t, Reporting) && s'.memory.frame == Frame(s.now, 0, Some(ListFailed))
               else
                 && Stands(s', t, Looping(rows)) && s'.memory.frame == Frame(s.now, |rows|, None)
                 && s'.log == s.log + [TickListed(t)]
  {
    TickMoves(s, t, AtListing, a.answer, a.fails, a.expired, a.streamed);
    hide Listing, Streamed;
  }

  lemma TickDoneFrom(s: State, s1: State, s': State, t: nat, r: TickResult)
    requires BesideTick(s, s1) && TickDone(s1, s', t, r)
    ensures TickDone(s, s', t, r)
  {
    hide View;
  }

  lemma WorkIsRun(s: State, t: nat, i: TickInput) returns (acts: seq<Action>)
    requires Stands(s, t, AtListing) && s.now == i.startedAt && TimelyTick(i, s.now)
    requires s.memory.frame == Frame(s.now, 0, None)
    ensures TickOnly(acts, t)
    ensures var s' := Run(s, acts);
            TickDone(s, s', t, R.RestOfTick(View(s), i)) && s'.now <= i.endedAt
  {
    hide Step, Run, View, RunRows, Listing, Streamed, TickDone;
    var a := TickStep(t, Success("", "", ""), i.listFails, false, i.streamed);
    var s1 := Step(s, a);
    Lists(s, t, a);
    ViewParts(s);
    acts := [];
    RunNothing(s1);
    if !i.listFails {
      var rows := Streamed(s.table, BATCH, i.streamed);
      assert rows[0..] == rows;
      acts := RowsAreRun(s1, t, rows, i.rows, 0, i.endedAt);
    }
    var s2 := Run(s1, acts);
    var last := ReportIsRun(s2, t, i.endedAt);
    RunConcat(s1, acts, last);
    acts := acts + last;
    TickDoneFrom(s, s2, Run(s1, acts), t, R.RestOfTick(View(s), i));
    RunCons(s, a, acts);
    acts := [a] + acts;
  }

  lemma LockedTickIsRun(s: State, t: nat, i: TickInput) returns (acts: seq<Action>)
    requires Stands(s, t, Checking) && s.now == i.startedAt && TimelyTick(i, s.now)
    ensures TickOnly(acts, t)
    ensures var s' := Run(s, acts);
            TickDone(s, s', t, TickOf(View(s), i)) && s'.now <= i.endedAt
  {
    hide Step, Run, View, R.RestOfTick, TickDone;
    var a := TickStep(t, Success("", "", ""), false, false, BATCH);
    var s1 := Step(s, a);
    ChecksIn(s, t, a);
    ViewParts(s);
    var tail;
    if Remaining(s.memory.backoffUntil, s.now) > 0 {
      var last := Leaves(s1, t);
      RunStep(s1, last);
      tail := [last];
    } else {
      tail := WorkIsRun(s1, t, i);
    }
    TickDoneFrom(s, s1, Run(s1, tail), t, TickOf(View(s), i));
    RunCons(s, a, tail);
    acts := [a] + tail;
  }

  /** From an idle reconciler, some uninterrupted sequence of one tick's steps takes the lock, has the
      effect of the whole Tick (table, events, polls, memory, status snapshot and returned error), and
      leaves the reconciler idle again. */
  lemma TickIsRun(s: State, t: nat, i: TickInput) returns (acts: seq<Action>)
    requires s.ticks == map[] && !s.locked && TimelyTick(i, s.now)
    ensures TickOnly(acts, t)
    ensures var s' := Run(s, acts);
            TickDone(s, s', t, TickOf(View(s), i)) && s'.now <= i.endedAt
  {
    hide Step, Run, View, TickOf, TickDone;
    var b, lock := Elapse(i.startedAt - s.now), Attempt(t);
    Waits(s, i.startedAt);
    var s1 := Step(s, b);
    Locks(s1, t);
    var s2 := Step(s1, lock);
    var tail := LockedTickIsRun(s2, t, i);
    TickDoneFrom(s, s2, Run(s2, tail), t, TickOf(View(s), i));
    RunCons(s1, lock, tail);
    RunCons(s, b, [lock] + tail);
    acts := [b] + ([lock] + tail);
  }

  /* ---- Sequences of whole calls ---- */

  function BeginOf(a: Runs.Action): Time {
    match a
    case Deliver(_, d) => d.at
    case RunTick(i) => i.startedAt
    case Retry(_, at) => at
    case MarkFailed(_, _, at) => at
  }

  function EndOf(a: Runs.Action): Time {
    match a
    case Deliver(_, d) => d.doneAt
    case RunTick(i) => i.endedAt
    case Retry(_, at) => at
    case MarkFailed(_, _, at) => at
  }

  /** The clock does not go back within a call or from one call to the next. */
  ghost predicate Chronicle(acts: seq<Runs.Action>) {
    && (forall k :: 0 <= k < |acts| ==> InOrder(acts[k]))
    && (acts != [] ==> START.now <= BeginOf(acts[0]))
    && forall k :: 0 < k < |acts| ==> EndOf(acts[k - 1]) <= BeginOf(acts[k])
  }

  ghost predicate InOrder(a: Runs.Action) {
    if a.RunTick? then TimelyTick(a.input, a.input.startedAt) else BeginOf(a) <= EndOf(a)
  }

  /** Nobody is in the middle of anything, and n messages at most were submitted. */
  predicate AtRest(s: State, n: nat) {
    && s.ticks == map[] && !s.locked && s.handlers == map[]
    && forall m :: m in s.messages ==> m < n
  }

  lemma AdminIsStep(s: State, a: Runs.Action, n: nat) returns (step: Action)
    requires AtRest(s, n) && (a.Retry? || a.MarkFailed?) && s.now == a.at
    ensures AtRest(Step(s, step), n) && Step(s, step).now == s.now
    ensures View(Step(s, step)) == Runs.Step(View(s), a)
  {
    step := if a.Retry? then AdminRetry(a.id) else AdminMarkFailed(a.id, a.reason);
    if a.Retry? && Retryable(s.table, a.id) {
      assert (s.log + [AdminRetried(a.id)])[..|s.log|] == s.log;
    }
  }

  lemma Receives(s: State, message: Message, n: nat)
    requires AtRest(s, n)
    ensures var s' := Step(Step(s, Submit(n, message)), Protocol.Deliver(0, n));
            && s'.handlers == map[0 := Received(n, message)] && View(s') == View(s) && s'.now == s.now
            && s'.ticks == map[] && !s'.locked && forall m :: m in s'.messages ==> m < n + 1
  {
  }

  lemma ReceivedIsRun(s: State, message: Message, d: Delivery, n: nat) returns (acts: seq<Action>)
    requires AtRest(s, n) && s.now == d.at <= d.doneAt
    ensures var s' := Run(s, acts);
            AtRest(s', n + 1) && s'.now <= d.doneAt && View(s') == Handle(View(s), message, d).0
  {
    Receives(s, message, n);
    hide Step, Run, View, Handle;
    var a, b := Submit(n, message), Protocol.Deliver(0, n);
    var s1 := Step(s, a);
    var s2 := Step(s1, b);
    var tail := DeliveryIsRun(s2, 0, d);
    RunCons(s1, b, tail);
    RunCons(s, a, [b] + tail);
    acts := [a] + ([b] + tail);
    assert map[0 := Received(n, message)] - {0} == map[];
  }

  lemma CallIsRun(s: State, a: Runs.Action, n: nat) returns (acts: seq<Action>)
    requires AtRest(s, n) && InOrder(a) && s.now <= BeginOf(a)
    ensures var s' := Run(s, acts);
            AtRest(s', n + 1) && s'.now <= EndOf(a) && View(s') == Runs.Step(View(s), a)
  {
    hide Step, Run, View, Handle, TickOf, Retried, MarkedFailed;
    var b := Elapse(BeginOf(a) - s.now);
    Waits(s, BeginOf(a));
    var s1 := Step(s, b);
    match a
    case Deliver(message, d) =>
      var tail := ReceivedIsRun(s1, message, d, n);
      RunCons(s, b, tail);
      acts := [b] + tail;
    case RunTick(i) =>
      var tail := TickIsRun(s1, 0, i);
      RunCons(s, b, tail);
      acts := [b] + tail;
    case _ =>
      var step := AdminIsStep(s1, a, n);
      RunStep(s1, step);
      RunCons(s, b, [step]);
      acts := [b] + [step];
  }

  /** Whatever whole calls do one after the other is a run of the small-step protocol, so every result
      about its runs holds between whole calls as well. */
  lemma {:induction false} CallsAreRun(calls: seq<Runs.Action>) returns (acts: seq<Action>)
    requires Chronicle(calls)
    ensures var s := Run(START, acts);
            && View(s) == Runs.Run(calls) && AtRest(s, |calls|)
            && s.now <= (if calls == [] then START.now else EndOf(calls[|calls| - 1]))
  {
    RunNothing(START);
    if calls == [] {
      acts := [];
    } else {
      hide Step, Run, View, Runs.Step, InOrder;
      var init, last := calls[..|calls| - 1], calls[|calls| - 1];
      acts := CallsAreRun(init);
      var tail := CallIsRun(Run(START, acts), last, |init|);
      RunConcat(START, acts, tail);
      acts := acts + tail;
    }
  }

  /** For one, the rows between whole calls are those of reachable states. */
  lemma RowsBetweenCalls(calls: seq<Runs.Action>)
    requires Chronicle(calls)
    ensures TableOk(Runs.Run(calls).table)
  {
    hide Run, Runs.Run, TableOk;
    var acts := CallsAreRun(calls);
    ReachableRows(START, acts);
    ViewParts(Run(START, acts));
    assert RowsOk(Run(START, acts));
  }
}
