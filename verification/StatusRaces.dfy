/** When a live row loses the status it has without the upstream having said so. */
module StatusRaces {
  import opened Domain
  import opened Queries
  import opened Worlds
  import opened Consumer
  import opened Protocol
  import opened ProtocolRows
  import opened ProtocolWaiting
  import opened ProtocolEnds
  import opened Refinement
  import opened Scenes
  import R = Reconciler

  /* ---- Who may still write another status ---- */

  function StatusOf(t: Table, id: string): Option<Status> {
    if id in t then Some(t[id].status) else None
  }

  /** The row was listed with another status. */
  predicate Stale(row: ForwardedRequest, id: string, st: Status) {
    row.requestId == id && row.status != st
  }

  predicate StaleToPoll(rows: seq<ForwardedRequest>, id: string, st: Status) {
    exists k :: 0 <= k < |rows| && Stale(rows[k], id, st) && rows[k].externalId != ""
  }

  /** A tick writes the status it listed back, on an error and on a poll that tells nothing new. */
  predicate TickThreatens(ts: TickState, id: string, st: Status) {
    match ts
    case Looping(rest) => StaleToPoll(rest, id, st)
    case Polling(row, rest) => Stale(row, id, st) || StaleToPoll(rest, id, st)
    case RecordingError(row, rest, _, stop) => Stale(row, id, st) || (!stop && StaleToPoll(rest, id, st))
    case Marking(row, rest, status, _) => (row.requestId == id && status != st) || StaleToPoll(rest, id, st)
    case Announcing(rest, _) => StaleToPoll(rest, id, st)
    case _ => false
  }

  function StatusFor(answer: Answer): Status {
    if answer.Success? then Acknowledged else Failed
  }

  /** A handler starts the request over, and then writes what the upstream answers to that. */
  predicate HandlerThreatens(hs: HandlerState, id: string, st: Status) {
    && hs.msg.id == id
    && match hs
       case Received(_, msg) => msg.targeted && msg.id != ""
       case Rejecting(_, _) => true
       case Forwarding(_, _) => true
       case Calling(_, _) => true
       case Answered(_, _, answer) => StatusFor(answer) != st
       case _ => false
  }

  ghost predicate Unthreatened(s: State, id: string, st: Status) {
    && (forall t :: t in s.ticks ==> !TickThreatens(s.ticks[t], id, st))
    && (forall h :: h in s.handlers ==> !HandlerThreatens(s.handlers[h], id, st))
  }

  /** Nobody asks for a change: no message of the request is delivered, no admin acts on it, and no poll of
      it tells another status than it has. */
  ghost predicate UnpromptedStep(s: State, a: Action, id: string, st: Status) {
    && (a.Deliver? && a.msgId in s.messages ==> s.messages[a.msgId].id != id)
    && !Overrides(a, id)
    && (a.TickStep? && a.t in s.ticks && s.ticks[a.t].Polling? && s.ticks[a.t].row.requestId == id ==>
          a.answer.Success? ==> R.Target(st, a.answer.upstream) == st)
  }

  ghost predicate Unprompted(s: State, acts: seq<Action>, id: string, st: Status)
    decreases |acts|
  {
    acts != [] ==> UnpromptedStep(s, acts[0], id, st) && Unprompted(Step(s, acts[0]), acts[1..], id, st)
  }

  /* ---- Unthreatened, a status stands ---- */

  predicate KeepsStatus(w: Statement, id: string, st: Status) {
    match w
    case NoWrite => true
    case DoUpsert(r) => r.requestId == id ==> r.status == st
    case DoPolled(i, _, status) => i == id ==> status == st
    case DoRetry(i) => i != id
    case DoMarkFailed(i, _) => i != id
  }

  lemma StatusKept(t: Table, w: Statement, now: Instant, id: string, st: Status)
    requires StatusOf(t, id) == Some(st) && KeepsStatus(w, id, st)
    ensures StatusOf(Wrote(t, w, now), id) == Some(st)
  {
  }

  lemma HandlerKeeps(hs: HandlerState, now: Instant, answer: Answer, fails: bool, id: string, st: Status)
    requires !HandlerThreatens(hs, id, st)
    ensures var e := HandlerNext(hs, now, answer, fails);
            KeepsStatus(e.write, id, st) && (e.next.Some? ==> !HandlerThreatens(e.next.value, id, st))
  {
  }

  lemma ListingIsCurrent(t: Table, n: nat, id: string, st: Status)
    requires StatusOf(t, id) == Some(st)
    ensures !StaleToPoll(Streamed(t, R.BATCH, n), id, st)
  {
    ListingMeaning(t, R.BATCH);
  }

  lemma TickKeeps(ts: TickState, t: nat, now: Instant, table: Table, memory: Memory,
                  answer: Answer, fails: bool, expired: bool, streamed: nat, id: string, st: Status)
    requires !TickThreatens(ts, id, st) && StatusOf(table, id) == Some(st)
    requires ts.Polling? && ts.row.requestId == id && answer.Success? ==> R.Target(st, answer.upstream) == st
    ensures var e := TickNext(ts, t, now, table, memory, answer, fails, expired, streamed);
            KeepsStatus(e.write, id, st) && (e.next.Some? ==> !TickThreatens(e.next.value, id, st))
  {
    if ts.AtListing? {
      ListingIsCurrent(table, streamed, id, st);
    }
  }

  lemma StatementKeeps(s: State, a: Action, id: string, st: Status)
    requires StatusOf(s.table, id) == Some(st) && Unthreatened(s, id, st) && UnpromptedStep(s, a, id, st)
    ensures KeepsStatus(WriteOf(s, a), id, st)
  {
    WriteOrigin(s, a);
    if a.HandlerStep? && a.h in s.handlers {
      HandlerKeeps(s.handlers[a.h], s.now, a.answer, a.fails, id, st);
    } else if a.TickStep? && a.t in s.ticks {
      TickKeeps(s.ticks[a.t], a.t, s.now, s.table, s.memory, a.answer, a.fails, a.expired, a.streamed, id, st);
    }
  }

  lemma UnthreatenedAfterStep(s: State, a: Action, id: string, st: Status)
    requires StatusOf(s.table, id) == Some(st) && Unthreatened(s, id, st) && UnpromptedStep(s, a, id, st)
    ensures Unthreatened(Step(s, a), id, st)
  {
    hide HandlerNext, TickNext, Wrote, TickThreatens, R.TranslateStatus;
    CheckingThreatensNobody(id, st);
    if a.HandlerStep? && a.h in s.handlers {
      HandlerKeeps(s.handlers[a.h], s.now, a.answer, a.fails, id, st);
    } else if a.TickStep? && a.t in s.ticks {
      TickKeeps(s.ticks[a.t], a.t, s.now, s.table, s.memory, a.answer, a.fails, a.expired, a.streamed, id, st);
    }
  }

  lemma CheckingThreatensNobody(id: string, st: Status)
    ensures !TickThreatens(Checking, id, st)
  {
  }

  lemma {:induction false} StatusStands(s: State, acts: seq<Action>, id: string, st: Status)
    requires StatusOf(s.table, id) == Some(st) && Unthreatened(s, id, st) && Unprompted(s, acts, id, st)
    ensures StatusOf(Run(s, acts).table, id) == Some(st)
    decreases |acts|
  {
    if acts != [] {
      hide Step, Wrote, WriteOf, Unthreatened, UnpromptedStep;
      StepShape(s, acts[0]);
      StatementKeeps(s, acts[0], id, st);
      StatusKept(s.table, WriteOf(s, acts[0]), s.now, id, st);
      UnthreatenedAfterStep(s, acts[0], id, st);
      StatusStands(Step(s, acts[0]), acts[1..], id, st);
    }
  }

  /* ---- Threatened, some run replaces it ---- */

  lemma TickPushes(ts: TickState, t: nat, now: Instant, table: Table, memory: Memory, id: string, st: Status)
    requires TickThreatens(ts, id, st) && StatusOf(table, id) == Some(st) && !Terminal(st)
    ensures var e := TickNext(ts, t, now, table, memory, ACCEPTED, false, false, R.BATCH);
            StatusOf(Wrote(table, e.write, now), id) != Some(st)
            || (e.next.Some? && TickThreatens(e.next.value, id, st) && TickStepsLeft(e.next.value) < TickStepsLeft(ts))
  {
    if ts.Looping? {
      var k :| 0 <= k < |ts.rest| && Stale(ts.rest[k], id, st) && ts.rest[k].externalId != "";
      assert k > 0 ==> ts.rest[1..][k - 1] == ts.rest[k];
    }
  }

  lemma {:induction false} TickOverwrites(s: State, t: nat, id: string, st: Status) returns (acts: seq<Action>)
    requires t in s.ticks && TickThreatens(s.ticks[t], id, st) && StatusOf(s.table, id) == Some(st) && !Terminal(st)
    ensures Unprompted(s, acts, id, st) && StatusOf(Run(s, acts).table, id) != Some(st)
    decreases TickStepsLeft(s.ticks[t])
  {
    hide Step, Run, TickNext, Wrote, TickThreatens, TickStepsLeft, Unprompted;
    var a := TickStep(t, ACCEPTED, false, false, R.BATCH);
    var s1 := Step(s, a);
    TickPushes(s.ticks[t], t, s.now, s.table, s.memory, id, st);
    TickMovesOn(s, t);
    RunNothing(s1);
    NothingPrompts(s1, id, st);
    var tail := [];
    if StatusOf(s1.table, id) == Some(st) {
      tail := TickOverwrites(s1, t, id, st);
    }
    RunCons(s, a, tail);
    UnpromptedCons(s, a, tail, id, st);
    acts := [a] + tail;
  }

  lemma NothingPrompts(s: State, id: string, st: Status)
    ensures Unprompted(s, [], id, st)
  {
  }

  lemma UnpromptedCons(s: State, a: Action, tail: seq<Action>, id: string, st: Status)
    requires UnpromptedStep(s, a, id, st) && Unprompted(Step(s, a), tail, id, st)
    ensures Unprompted(s, [a] + tail, id, st)
  {
    assert ([a] + tail)[0] == a && ([a] + tail)[1..] == tail;
  }

  const REFUSED: Answer := Refused("refused")

  lemma HandlerPushes(hs: HandlerState, now: Instant, table: Table, id: string, st: Status)
    requires HandlerThreatens(hs, id, st) && StatusOf(table, id) == Some(st) && !Terminal(st)
    ensures var e := HandlerNext(hs, now, REFUSED, false);
            StatusOf(Wrote(table, e.write, now), id) != Some(st)
            || (e.next.Some? && HandlerThreatens(e.next.value, id, st) && StepsLeft(e.next.value) < StepsLeft(hs))
  {
  }

  lemma {:induction false} HandlerOverwrites(s: State, h: nat, id: string, st: Status) returns (acts: seq<Action>)
    requires h in s.handlers && HandlerThreatens(s.handlers[h], id, st)
    requires StatusOf(s.table, id) == Some(st) && !Terminal(st)
    ensures Unprompted(s, acts, id, st) && StatusOf(Run(s, acts).table, id) != Some(st)
    decreases StepsLeft(s.handlers[h])
  {
    hide Step, Run, HandlerNext, Wrote, HandlerThreatens, StepsLeft, Unprompted;
    var a := HandlerStep(h, REFUSED, false);
    var s1 := Step(s, a);
    HandlerPushes(s.handlers[h], s.now, s.table, id, st);
    StepShape(s, a);
    HandlerMoves(s, h, REFUSED, false);
    RunNothing(s1);
    NothingPrompts(s1, id, st);
    var tail := [];
    if StatusOf(s1.table, id) == Some(st) {
      tail := HandlerOverwrites(s1, h, id, st);
    }
    RunCons(s, a, tail);
    UnpromptedCons(s, a, tail, id, st);
    acts := [a] + tail;
  }

  /** When the status of a live row stands by itself. While no message of the request is delivered, no
      admin acts on it and no poll of it tells another status, every run leaves it exactly when no tick has
      a row of the request still to write that was listed with another status, or another status to mark,
      and no handler of the request has yet to start it over, to ask, to hear, or to write another outcome. */
  lemma StatusStandsIff(s: State, id: string, st: Status)
    requires StatusOf(s.table, id) == Some(st) && !Terminal(st)
    ensures (forall acts :: Unprompted(s, acts, id, st) ==> StatusOf(Run(s, acts).table, id) == Some(st))
            <==> Unthreatened(s, id, st)
  {
    hide Run, Unprompted, TickThreatens, HandlerThreatens;
    if Unthreatened(s, id, st) {
      forall acts | Unprompted(s, acts, id, st) ensures StatusOf(Run(s, acts).table, id) == Some(st) {
        StatusStands(s, acts, id, st);
      }
    } else if t :| t in s.ticks && TickThreatens(s.ticks[t], id, st) {
      var acts := TickOverwrites(s, t, id, st);
    } else {
      var h :| h in s.handlers && HandlerThreatens(s.handlers[h], id, st);
      var acts := HandlerOverwrites(s, h, id, st);
    }
  }

  /* ---- A running job is given up ---- */

  lemma SilenceKeepsFromPolling(s: State, a: Action, id: string)
    requires Silent(s, id)
    ensures OpOf(s, a).Some? && OpOf(s, a).value.TickPolled? ==> OpOf(s, a).value.id != id
  {
    if a.HandlerStep? && a.h in s.handlers {
      HandlerPolls(s.handlers[a.h], s.now, a.answer, a.fails);
    }
  }

  lemma HandlerPolls(hs: HandlerState, now: Instant, answer: Answer, fails: bool)
    ensures var op := HandlerNext(hs, now, answer, fails).op; op.Some? ==> !op.value.TickPolled?
  {
  }

  /** A row that has ended is polled no more until it is retried. */
  lemma {:induction false} EndedIsUnpolled(s: State, acts: seq<Action>, id: string, start: nat)
    requires Silent(s, id) && AdminRetry(id) !in acts && !PolledSince(s.log, start, id)
    ensures !PolledSince(Run(s, acts).log, start, id)
    decreases |acts|
  {
    if acts != [] {
      hide Silent, Step, OpOf;
      StepShape(s, acts[0]);
      SilentAfterStep(s, acts[0], id);
      SilenceKeepsFromPolling(s, acts[0], id);
      EndedIsUnpolled(Step(s, acts[0]), acts[1..], id, start);
    }
  }

  lemma HearsDownloading(s: State, row: ForwardedRequest) returns (acts: seq<Action>)
    requires Stands(s, 0, Polling(row, [])) && s.handlers == map[]
    requires row.requestId in s.table && !Terminal(s.table[row.requestId].status) && row.status == Acknowledged
    ensures var s', id := Run(s, acts), row.requestId;
            && s'.handlers == map[] && s'.messages == s.messages && s'.now == s.now && s'.acked == s.acked
            && id in s'.table && s'.table[id].status == Downloading
            && (row.externalId != "" ==> s'.table[id].externalId == Some(row.externalId))
            && s'.ticks == map[0 := Looping([])]
  {
    var a := TickStep(0, Success("", "downloading", ""), false, false, R.BATCH);
    var s1 := Step(s, a);
    assert s1.ticks == map[0 := Marking(row, [], Downloading, "")] && s1.table == s.table;
    var s2 := Step(s1, a);
    assert s2.ticks == map[0 := Announcing([], RequestStatusChanged(row.requestId, row.externalId, Downloading))];
    var s3 := Step(s2, a);
    assert s3.ticks == map[0 := Looping([])] && s3.table == s2.table;
    hide Step;
    RunStep(s2, a);
    RunCons(s1, a, [a]);
    RunCons(s, a, [a] + [a]);
    acts := [a] + ([a] + [a]);
  }

  lemma StartsOver(s: State, msg: Message)
    requires s.handlers == map[] && 0 in s.messages && s.messages[0] == msg && Live(msg)
    requires msg.id in s.table && !Terminal(s.table[msg.id].status)
    ensures var s' := Step(Step(s, Protocol.Action.Deliver(0, 0)), HandlerStep(0, REFUSED, false));
            && s'.handlers == map[0 := Forwarding(0, msg)] && s'.ticks == s.ticks && s'.now == s.now
            && msg.id in s'.table && s'.table[msg.id].status == Submitted
            && s'.table[msg.id].externalId == s.table[msg.id].externalId
  {
  }

  lemma RefusalEnds(w: World, msg: Message, d: Delivery)
    requires d.answer == REFUSED && !d.outcomeFails && msg.id in w.table && !Terminal(w.table[msg.id].status)
    ensures var w' := Rest(w, Forwarding(0, msg), d).0;
            && msg.id in w'.table && w'.table[msg.id].status == Failed
            && w'.table[msg.id].externalId == w.table[msg.id].externalId
  {
  }

  /** A redelivery whose add is refused gives a running job up: the row goes from downloading back to
      submitted and then to failed, with the id of the job still in it, and unless it is retried no tick of
      any continuation polls that job again. */
  lemma RunningJobIsGivenUp(msg: Message) returns (before: seq<Action>, between: seq<Action>, after: seq<Action>)
    requires Live(msg)
    ensures StatusOf(Run(START, before).table, msg.id) == Some(Downloading)
    ensures StatusOf(Run(START, before + between).table, msg.id) == Some(Submitted)
    ensures var s := Run(START, before + between + after);
            && msg.id in s.table && s.table[msg.id].status == Failed && s.table[msg.id].externalId == Some("job")
            && forall rest :: AdminRetry(msg.id) !in rest ==> !PolledSince(Run(s, rest).log, |s.log|, msg.id)
  {
    hide Run, View;
    var first := FirstDelivery(msg, "job");
    var s1 := Run(START, first);
    var listing, row := ComesToPoll(s1, msg.id);
    var s2 := Run(s1, listing);
    var hearing := HearsDownloading(s2, row);
    var s3 := Run(s2, hearing);
    RunConcat(START, first, listing);
    RunConcat(START, first + listing, hearing);
    before := first + listing + hearing;
    var a, b := Protocol.Action.Deliver(0, 0), HandlerStep(0, REFUSED, false);
    StartsOver(s3, msg);
    RunStep(Step(s3, a), b);
    RunCons(s3, a, [b]);
    between := [a] + [b];
    RunConcat(START, before, between);
    var s4 := Run(START, before + between);
    after := GivesUp(s4, msg);
    RunConcat(START, before + between, after);
  }

  lemma GivesUp(s: State, msg: Message) returns (acts: seq<Action>)
    requires s.handlers == map[0 := Forwarding(0, msg)] && s.now == 1 && Live(msg)
    requires msg.id in s.table && s.table[msg.id].status == Submitted && s.table[msg.id].externalId == Some("job")
    requires s.ticks == map[0 := Looping([])]
    ensures var s' := Run(s, acts);
            && msg.id in s'.table && s'.table[msg.id].status == Failed && s'.table[msg.id].externalId == Some("job")
            && forall rest :: AdminRetry(msg.id) !in rest ==> !PolledSince(Run(s', rest).log, |s'.log|, msg.id)
  {
    hide Run, View, Rest, Trace;
    var d := Delivery(false, REFUSED, false, 1, 1);
    acts := FinishIsRun(s, 0, d);
    var s' := Run(s, acts);
    ViewParts(s);
    ViewParts(s');
    RefusalEnds(View(s), msg, d);
    assert Silent(s', msg.id);
    forall rest | AdminRetry(msg.id) !in rest ensures !PolledSince(Run(s', rest).log, |s'.log|, msg.id) {
      EndedIsUnpolled(s', rest, msg.id, |s'.log|);
    }
  }
}
