/** How a request ends: of the terminal statuses a tick writes exactly those go
    unannounced that a restart strikes, and after an end the reconciler is silent. */
module ProtocolEnds {
  import opened Domain
  import opened Rows
  import opened Queries
  import opened Consumer
  import opened Protocol
  import opened ProtocolRows
  import opened ProtocolLock
  import opened ProtocolEvents
  import opened Refinement
  import opened Scenes
  import R = Reconciler

  /* ---- Every end that is marked is announced ---- */

  /** The terminal status an event tells of. */
  function EndToldBy(e: Event): Option<Status> {
    match e
    case RequestFulfilled(_, _, _) => Some(Imported)
    case RequestFailed(_, _) => Some(Failed)
    case _ => None
  }

  predicate MarksEnd(op: Op, id: string, end: Status) {
    op.TickMarked? && op.id == id && op.status == end
  }

  predicate TellsEnd(op: Op, id: string, end: Status) {
    op.TickPublished? && op.event.id == id && EndToldBy(op.event) == Some(end)
  }

  /** How often a tick wrote this end for the request, or tried to. */
  function Marked(log: seq<Op>, id: string, end: Status): nat {
    if log == [] then 0
    else Marked(log[..|log| - 1], id, end) + if MarksEnd(log[|log| - 1], id, end) then 1 else 0
  }

  /** How often a tick announced it. */
  function Told(log: seq<Op>, id: string, end: Status): nat {
    if log == [] then 0
    else Told(log[..|log| - 1], id, end) + if TellsEnd(log[|log| - 1], id, end) then 1 else 0
  }

  lemma CountsLogged(log: seq<Op>, op: Option<Op>, id: string, end: Status)
    ensures Marked(Logged(log, op), id, end) ==
            Marked(log, id, end) + if op.Some? && MarksEnd(op.value, id, end) then 1 else 0
    ensures Told(Logged(log, op), id, end) ==
            Told(log, id, end) + if op.Some? && TellsEnd(op.value, id, end) then 1 else 0
  {
    if op.Some? {
      assert (log + [op.value])[..|log|] == log;
    }
  }

  /** The tick is about to announce it. */
  predicate Owes(ts: TickState, id: string, end: Status) {
    ts.Announcing? && ts.event.id == id && EndToldBy(ts.event) == Some(end)
  }

  ghost predicate Owing(s: State, id: string, end: Status) {
    exists t :: t in s.ticks && Owes(s.ticks[t], id, end)
  }

  predicate AllLive(rows: seq<ForwardedRequest>) {
    forall k :: 0 <= k < |rows| ==> !Terminal(rows[k].status)
  }

  /** The rows a tick holds were live when they were listed. */
  predicate HoldsLive(ts: TickState) {
    match ts
    case Looping(rest) => AllLive(rest)
    case Polling(row, rest) => !Terminal(row.status) && AllLive(rest)
    case RecordingError(row, rest, _, _) => !Terminal(row.status) && AllLive(rest)
    case Marking(row, rest, _, _) => !Terminal(row.status) && AllLive(rest)
    case Announcing(rest, _) => AllLive(rest)
    case _ => true
  }

  ghost predicate TicksHoldLive(s: State) {
    forall t :: t in s.ticks ==> HoldsLive(s.ticks[t])
  }

  lemma ListingIsLive(t: Table, n: nat)
    ensures AllLive(Streamed(t, R.BATCH, n))
  {
    ListingMeaning(t, R.BATCH);
  }

  lemma TickKeepsLive(ts: TickState, t: nat, now: Instant, table: Table, memory: Memory,
                      answer: Answer, fails: bool, expired: bool, streamed: nat)
    requires HoldsLive(ts)
    ensures var e := TickNext(ts, t, now, table, memory, answer, fails, expired, streamed);
            && (e.next.Some? ==> HoldsLive(e.next.value))
            && (e.write.DoUpsert? ==> !Terminal(e.write.r.status))
  {
    ListingIsLive(table, streamed);
  }

  /** One step of a tick: a marked end is owed at once, and what is owed is announced next. */
  lemma TickSettles(ts: TickState, t: nat, now: Instant, table: Table, memory: Memory,
                    answer: Answer, fails: bool, expired: bool, streamed: nat, id: string, end: Status)
    requires HoldsLive(ts) && Terminal(end)
    ensures var e := TickNext(ts, t, now, table, memory, answer, fails, expired, streamed);
            && (e.op.Some? && MarksEnd(e.op.value, id, end) <==> e.next.Some? && Owes(e.next.value, id, end))
            && (e.op.Some? && TellsEnd(e.op.value, id, end) <==> Owes(ts, id, end))
            && !(e.op.Some? && MarksEnd(e.op.value, id, end) && Owes(ts, id, end))
  {
  }

  ghost function Due(s: State, id: string, end: Status): nat {
    if Owing(s, id, end) then 1 else 0
  }

  /** The restarts of a run that strike while the announcement is due. */
  ghost function Struck(s: State, acts: seq<Action>, id: string, end: Status): nat
    decreases |acts|
  {
    if acts == [] then 0
    else (if acts[0] == Restart then Due(s, id, end) else 0) + Struck(Step(s, acts[0]), acts[1..], id, end)
  }

  /** The books: marked is announced, lost or due. */
  ghost predicate Balances(s: State, id: string, end: Status, lost: nat) {
    Marked(s.log, id, end) == Told(s.log, id, end) + lost + Due(s, id, end)
  }

  lemma BalancesAfterTick(s: State, t: nat, e: TickEffect, id: string, end: Status, lost: nat)
    requires LockInv(s) && t in s.ticks && Balances(s, id, end, lost)
    requires e.op.Some? && MarksEnd(e.op.value, id, end) <==> e.next.Some? && Owes(e.next.value, id, end)
    requires e.op.Some? && TellsEnd(e.op.value, id, end) <==> Owes(s.ticks[t], id, end)
    requires !(e.op.Some? && MarksEnd(e.op.value, id, end) && Owes(s.ticks[t], id, end))
    ensures Balances(AfterTick(s, t, e), id, end, lost)
  {
    hide Wrote, Owes, MarksEnd, TellsEnd, Holder, Horizon, Ruled;
    CountsLogged(s.log, e.op, id, end);
    assert s.ticks.Keys == {t};
    var s' := AfterTick(s, t, e);
    assert Owing(s, id, end) <==> Owes(s.ticks[t], id, end);
    assert s'.ticks.Keys == if e.next.Some? then {t} else {};
    assert e.next.Some? ==> s'.ticks[t] == e.next.value;
    assert Owing(s', id, end) <==> e.next.Some? && Owes(e.next.value, id, end);
  }

  lemma BalancesAfterOther(s: State, a: Action, id: string, end: Status, lost: nat)
    requires Balances(s, id, end, lost) && a != Restart && !(a.TickStep? && a.t in s.ticks)
    ensures Balances(Step(s, a), id, end, lost)
  {
    hide Step, OpOf, WriteOf, Wrote, WorkOf, Owes;
    OtherSteps(s, a, id);
    StepShape(s, a);
    OthersKeepTicks(s, a);
    CheckingOwesNothing(id, end);
    TellingIsWork(id, end);
    CountsLogged(s.log, OpOf(s, a), id, end);
  }

  lemma OthersKeepTicks(s: State, a: Action)
    requires a != Restart && !(a.TickStep? && a.t in s.ticks)
    ensures forall t :: t in s.ticks ==> t in Step(s, a).ticks && Step(s, a).ticks[t] == s.ticks[t]
  {
    hide HandlerNext, TickNext, Wrote;
  }

  lemma CheckingOwesNothing(id: string, end: Status)
    ensures !Owes(Checking, id, end)
  {
  }

  lemma TellingIsWork(id: string, end: Status)
    ensures forall op :: MarksEnd(op, id, end) || TellsEnd(op, id, end) ==> WorkOf(op).Some?
  {
  }

  lemma TicksHoldLiveAfterStep(s: State, a: Action)
    requires TicksHoldLive(s)
    ensures TicksHoldLive(Step(s, a))
  {
    hide HandlerNext, TickNext, Wrote, HoldsLive;
    if a.TickStep? && a.t in s.ticks {
      TickKeepsLive(s.ticks[a.t], a.t, s.now, s.table, s.memory, a.answer, a.fails, a.expired, a.streamed);
    }
    CheckingHoldsNothing("");
  }

  lemma BalancesAfterStep(s: State, a: Action, id: string, end: Status, lost: nat)
    requires LockInv(s) && TicksHoldLive(s) && Balances(s, id, end, lost) && Terminal(end) && a != Restart
    ensures Balances(Step(s, a), id, end, lost)
  {
    hide TickNext, LockInv, Balances, HoldsLive;
    if a.TickStep? && a.t in s.ticks {
      TickSettles(s.ticks[a.t], a.t, s.now, s.table, s.memory, a.answer, a.fails, a.expired, a.streamed, id, end);
      BalancesAfterTick(s, a.t, TickEffectOf(s, a.t, a.answer, a.fails, a.expired, a.streamed), id, end, lost);
    } else {
      BalancesAfterOther(s, a, id, end, lost);
    }
  }

  /** A restart turns what is due into what is lost. */
  lemma RestartStrikes(s: State, id: string, end: Status, lost: nat)
    requires Balances(s, id, end, lost)
    ensures Balances(Step(s, Restart), id, end, lost + Due(s, id, end)) && !Owing(Step(s, Restart), id, end)
  {
    CountsLogged(s.log, Some(Restarted), id, end);
  }

  lemma NobodyStruck(s: State, id: string, end: Status)
    ensures Struck(s, [], id, end) == 0
  {
  }

  lemma StruckCons(s: State, acts: seq<Action>, id: string, end: Status)
    requires acts != []
    ensures Struck(s, acts, id, end)
            == (if acts[0] == Restart then Due(s, id, end) else 0) + Struck(Step(s, acts[0]), acts[1..], id, end)
  {
    hide Step, Due;
  }

  lemma {:induction false} BalancesInRuns(s: State, acts: seq<Action>, id: string, end: Status, lost: nat)
    requires LockInv(s) && TicksHoldLive(s) && Balances(s, id, end, lost) && Terminal(end)
    ensures Balances(Run(s, acts), id, end, lost + Struck(s, acts, id, end))
    decreases |acts|
  {
    hide LockInv, TicksHoldLive, Balances, Step, Due, Struck;
    if acts == [] {
      NobodyStruck(s, id, end);
    } else {
      var a := acts[0];
      StruckCons(s, acts, id, end);
      LockInvAfterStep(s, a);
      TicksHoldLiveAfterStep(s, a);
      if a == Restart {
        RestartStrikes(s, id, end, lost);
        BalancesInRuns(Step(s, a), acts[1..], id, end, lost + Due(s, id, end));
      } else {
        BalancesAfterStep(s, a, id, end, lost);
        BalancesInRuns(Step(s, a), acts[1..], id, end, lost);
      }
    }
  }

  /** In every interleaving, restarts and all, the times a tick wrote a terminal status for a request, or
      tried to, are the times it announced it, the times a restart struck before the announcement, and the
      one announcement that may be due. */
  lemma EveryEndIsTold(acts: seq<Action>, id: string, end: Status)
    requires Terminal(end)
    ensures var s := Run(START, acts);
            Marked(s.log, id, end) == Told(s.log, id, end) + Struck(START, acts, id, end) + Due(s, id, end)
  {
    BalancesInRuns(START, acts, id, end, 0);
  }

  /** So nothing goes unannounced exactly when every restart comes with nothing due. */
  lemma NothingUntoldIff(acts: seq<Action>, id: string, end: Status)
    requires Terminal(end)
    ensures var s := Run(START, acts);
            Marked(s.log, id, end) == Told(s.log, id, end) + Due(s, id, end) <==> Struck(START, acts, id, end) == 0
  {
    EveryEndIsTold(acts, id, end);
  }

  /* ---- An imported row was marked ---- */

  ghost predicate ImportIsMarked(s: State, id: string) {
    id in s.table && s.table[id].status == Imported ==> Marked(s.log, id, Imported) > 0
  }

  /** Only a tick's mark makes a row imported. */
  predicate Imports(w: Statement, id: string) {
    match w
    case DoUpsert(r) => r.requestId == id && r.status == Imported
    case DoPolled(i, _, status) => i == id && status == Imported
    case _ => false
  }

  lemma StaysUnimported(t: Table, w: Statement, now: Instant, id: string)
    requires !(id in t && t[id].status == Imported) && !Imports(w, id)
    ensures !(id in Wrote(t, w, now) && Wrote(t, w, now)[id].status == Imported)
  {
  }

  lemma ImportLeavesMark(s: State, a: Action, id: string)
    requires TicksHoldLive(s)
    ensures Imports(WriteOf(s, a), id) ==> OpOf(s, a).Some? && MarksEnd(OpOf(s, a).value, id, Imported)
  {
    if a.TickStep? && a.t in s.ticks {
      TickKeepsLive(s.ticks[a.t], a.t, s.now, s.table, s.memory, a.answer, a.fails, a.expired, a.streamed);
    }
  }

  lemma {:induction false} ImportMarkedInRuns(s: State, acts: seq<Action>, id: string)
    requires TicksHoldLive(s) && ImportIsMarked(s, id)
    ensures ImportIsMarked(Run(s, acts), id)
    decreases |acts|
  {
    if acts != [] {
      var a := acts[0];
      hide Step, Wrote, WriteOf, OpOf, TicksHoldLive, Imports, MarksEnd;
      StepShape(s, a);
      TicksHoldLiveAfterStep(s, a);
      ImportLeavesMark(s, a, id);
      CountsLogged(s.log, OpOf(s, a), id, Imported);
      if !Imports(WriteOf(s, a), id) && !(id in s.table && s.table[id].status == Imported) {
        StaysUnimported(s.table, WriteOf(s, a), s.now, id);
      }
      ImportMarkedInRuns(Step(s, a), acts[1..], id);
    }
  }

  lemma {:induction false} ToldWitness(log: seq<Op>, id: string, end: Status) returns (k: nat)
    requires Told(log, id, end) > 0
    ensures k < |log| && TellsEnd(log[k], id, end)
  {
    if TellsEnd(log[|log| - 1], id, end) {
      k := |log| - 1;
    } else {
      k := ToldWitness(log[..|log| - 1], id, end);
    }
  }

  lemma {:induction false} ToldCount(log: seq<Op>, id: string, end: Status, k: nat)
    requires k < |log| && TellsEnd(log[k], id, end)
    ensures Told(log, id, end) > 0
  {
    if k < |log| - 1 {
      ToldCount(log[..|log| - 1], id, end, k);
    }
  }

  /** An imported request has been announced as fulfilled, or a tick is about to, exactly when restarts
      struck fewer of its announcements than ticks marked it imported: above all when none did. */
  lemma ImportedIsToldIff(acts: seq<Action>, id: string)
    requires id in Run(START, acts).table && Run(START, acts).table[id].status == Imported
    ensures var s := Run(START, acts);
            && ((exists k :: 0 <= k < |s.log| && TellsEnd(s.log[k], id, Imported)) || Owing(s, id, Imported)
                <==> Struck(START, acts, id, Imported) < Marked(s.log, id, Imported))
            && Marked(s.log, id, Imported) > 0
  {
    hide Run, TellsEnd, Owing, Struck;
    EveryEndIsTold(acts, id, Imported);
    ImportMarkedInRuns(START, acts, id);
    var s := Run(START, acts);
    if Told(s.log, id, Imported) > 0 {
      var k := ToldWitness(s.log, id, Imported);
    } else if k: nat :| k < |s.log| && TellsEnd(s.log[k], id, Imported) {
      ToldCount(s.log, id, Imported, k);
    }
  }

  /* ---- After the end the reconciler is silent ---- */

  predicate Absent(rows: seq<ForwardedRequest>, id: string) {
    forall k :: 0 <= k < |rows| ==> rows[k].requestId != id
  }

  /** The tick will write no status of the request. */
  predicate NoRows(ts: TickState, id: string) {
    match ts
    case Looping(rest) => Absent(rest, id)
    case Polling(row, rest) => row.requestId != id && Absent(rest, id)
    case RecordingError(_, rest, _, _) => Absent(rest, id)
    case Marking(row, rest, _, _) => row.requestId != id && Absent(rest, id)
    case Announcing(rest, _) => Absent(rest, id)
    case _ => true
  }

  /** Nor will it publish for it. */
  predicate NoBusiness(ts: TickState, id: string) {
    NoRows(ts, id) && !(ts.Announcing? && ts.event.id == id)
  }

  lemma CheckingHoldsNothing(id: string)
    ensures NoBusiness(Checking, id) && HoldsLive(Checking)
  {
  }

  lemma EndedIsUnlisted(t: Table, n: nat, id: string)
    requires TerminalIn(t, id)
    ensures Absent(Streamed(t, R.BATCH, n), id)
  {
    ListingMeaning(t, R.BATCH);
  }

  predicate Speaks(op: Op, id: string) {
    op.TickPublished? && op.event.id == id
  }

  lemma TickKeepsSilence(ts: TickState, t: nat, now: Instant, table: Table, memory: Memory,
                         answer: Answer, fails: bool, expired: bool, streamed: nat, id: string)
    requires TerminalIn(table, id) && NoRows(ts, id)
    ensures var e := TickNext(ts, t, now, table, memory, answer, fails, expired, streamed);
            && (e.next.Some? ==> NoBusiness(e.next.value, id))
            && (e.op.Some? && Speaks(e.op.value, id) <==> ts.Announcing? && ts.event.id == id)
            && (e.op.Some? && e.op.value.TickMarked? ==> e.op.value.id != id)
  {
    EndedIsUnlisted(table, streamed, id);
  }

  ghost predicate Silent(s: State, id: string) {
    TerminalIn(s.table, id) && forall t :: t in s.ticks ==> NoBusiness(s.ticks[t], id)
  }

  lemma EndedStays(s: State, a: Action, id: string)
    requires TerminalIn(s.table, id) && a != AdminRetry(id)
    ensures TerminalIn(Step(s, a).table, id)
  {
    hide Step, Wrote, WriteOf;
    StepShape(s, a);
    WriteOrigin(s, a);
    EndedStaysWritten(s.table, WriteOf(s, a), s.now, id);
  }

  lemma EndedStaysWritten(t: Table, w: Statement, now: Instant, id: string)
    requires TerminalIn(t, id) && (w.DoRetry? ==> w.id != id)
    ensures TerminalIn(Wrote(t, w, now), id)
  {
  }

  lemma SilentAfterStep(s: State, a: Action, id: string)
    requires Silent(s, id) && a != AdminRetry(id)
    ensures Silent(Step(s, a), id)
    ensures OpOf(s, a).Some? ==> !Speaks(OpOf(s, a).value, id)
  {
    EndedStays(s, a, id);
    CheckingHoldsNothing(id);
    if a.TickStep? && a.t in s.ticks {
      TickKeepsSilence(s.ticks[a.t], a.t, s.now, s.table, s.memory, a.answer, a.fails, a.expired, a.streamed, id);
    } else {
      OtherSteps(s, a, id);
    }
    hide TickNext, HandlerNext, Wrote, NoRows;
  }

  predicate SpeaksIn(log: seq<Op>, id: string) {
    exists k :: 0 <= k < |log| && Speaks(log[k], id)
  }

  lemma {:induction false} SilentInRuns(s: State, acts: seq<Action>, id: string)
    requires Silent(s, id) && AdminRetry(id) !in acts && !SpeaksIn(s.log, id)
    ensures !SpeaksIn(Run(s, acts).log, id)
    decreases |acts|
  {
    if acts != [] {
      hide Silent, Step, OpOf, Speaks;
      StepShape(s, acts[0]);
      SilentAfterStep(s, acts[0], id);
      SilentInRuns(Step(s, acts[0]), acts[1..], id);
    }
  }

  lemma HearsImported(s: State, row: ForwardedRequest, a: Action)
    requires Stands(s, 0, Polling(row, [])) && a == TickStep(0, Success("", "completed", ""), false, false, R.BATCH)
    ensures var s' := Step(s, a);
            Stands(s', 0, Marking(row, [], Imported, "")) && s'.table == s.table && s'.log == s.log
  {
    TickMoves(s, 0, Polling(row, []), a.answer, false, false, R.BATCH);
    ViewParts(s);
    ViewParts(Step(s, a));
    hide Step, View;
  }

  lemma MarksImported(s: State, row: ForwardedRequest, a: Action)
    requires Stands(s, 0, Marking(row, [], Imported, ""))
    requires a == TickStep(0, Success("", "completed", ""), false, false, R.BATCH)
    requires row.requestId in s.table && !Terminal(s.table[row.requestId].status)
    ensures var s' := Step(s, a);
            && row.requestId in s'.table && s'.table[row.requestId].status == Imported
            && s'.log == s.log + [TickMarked(0, row.requestId, Imported, true)]
  {
    TickMoves(s, 0, Marking(row, [], Imported, ""), a.answer, false, false, R.BATCH);
    ViewParts(s);
    ViewParts(Step(s, a));
    hide Step, View;
  }

  lemma DiesImported(s: State, row: ForwardedRequest) returns (acts: seq<Action>)
    requires Stands(s, 0, Polling(row, []))
    requires row.requestId in s.table && !Terminal(s.table[row.requestId].status)
    ensures var s' := Run(s, acts);
            && row.requestId in s'.table && s'.table[row.requestId].status == Imported
            && s'.ticks == map[] && s'.log == s.log + [TickMarked(0, row.requestId, Imported, true), Restarted]
  {
    var a := TickStep(0, Success("", "completed", ""), false, false, R.BATCH);
    var s2 := Step(Step(s, a), a);
    assert Step(s2, Restart).table == s2.table && Step(s2, Restart).ticks == map[]
        && Step(s2, Restart).log == s2.log + [Restarted];
    hide Step, Run;
    HearsImported(s, row, a);
    MarksImported(Step(s, a), row, a);
    RunStep(s2, Restart);
    RunCons(Step(s, a), a, [Restart]);
    RunCons(s, a, [a] + [Restart]);
    acts := [a] + ([a] + [Restart]);
  }

  /** A restart between the mark and the announcement loses the event for good: the row is imported, and
      unless it is retried no tick of any continuation publishes anything for it. */
  lemma RestartLosesEvent(msg: Message) returns (acts: seq<Action>)
    requires Live(msg)
    ensures var s := Run(START, acts);
            && msg.id in s.table && s.table[msg.id].status == Imported
            && forall rest :: AdminRetry(msg.id) !in rest ==> !SpeaksIn(Run(s, rest).log, msg.id)
  {
    hide Run, View;
    var first := FirstDelivery(msg, "job");
    var s1 := Run(START, first);
    var listing, row := ComesToPoll(s1, msg.id);
    var s2 := Run(s1, listing);
    var ending := DiesImported(s2, row);
    var s := Run(s2, ending);
    RunConcat(START, first, listing);
    RunConcat(START, first + listing, ending);
    acts := first + listing + ending;
    forall rest | AdminRetry(msg.id) !in rest ensures !SpeaksIn(Run(s, rest).log, msg.id) {
      SilentInRuns(s, rest, msg.id);
    }
  }

  /* ---- Nothing follows the announcement of an end ---- */

  /** Whether the latest terminal status that was written still holds for the log, and how many events
      the reconciler published for the request since. */
  datatype Closing = Open | Closed(told: nat)

  predicate Closes(op: Op, id: string) {
    op.TickMarked? && op.id == id && Terminal(op.status) && op.ok
  }

  function ClosingAfter(before: Closing, op: Op, id: string): Closing {
    if Closes(op, id) then Closed(0)
    else if op == AdminRetried(id) then Open
    else if before.Closed? && Speaks(op, id) then Closed(before.told + 1)
    else before
  }

  function ClosingOf(log: seq<Op>, id: string): Closing {
    if log == [] then Open else ClosingAfter(ClosingOf(log[..|log| - 1], id), log[|log| - 1], id)
  }

  /** A terminal status is written at most once before a Retry, and one event follows it at most. */
  predicate ClosingRule(before: Closing, op: Op, id: string) {
    && (Closes(op, id) ==> before.Open?)
    && (before.Closed? && Speaks(op, id) ==> before.told == 0)
  }

  predicate ClosingRuled(log: seq<Op>, id: string) {
    log != [] ==>
      && ClosingRuled(log[..|log| - 1], id)
      && ClosingRule(ClosingOf(log[..|log| - 1], id), log[|log| - 1], id)
  }

  lemma ClosingAppend(log: seq<Op>, op: Op, id: string)
    ensures ClosingOf(log + [op], id) == ClosingAfter(ClosingOf(log, id), op, id)
    ensures ClosingRuled(log + [op], id) <==> ClosingRuled(log, id) && ClosingRule(ClosingOf(log, id), op, id)
  {
    assert (log + [op])[..|log|] == log;
  }

  ghost predicate ClosedInv(s: State, id: string) {
    && ClosingRuled(s.log, id)
    && match ClosingOf(s.log, id)
       case Open => true
       case Closed(told) =>
         && TerminalIn(s.table, id)
         && forall t :: t in s.ticks ==> NoRows(s.ticks[t], id) && (told > 0 ==> NoBusiness(s.ticks[t], id))
  }

  /** What a tick's step does to a closed request, and how it comes to close one. */
  lemma TickCloses(s: State, t: nat, answer: Answer, fails: bool, expired: bool, streamed: nat, id: string)
    requires EventsInv(s, id) && t in s.ticks && s.ticks[t].Marking?
    ensures var e := TickEffectOf(s, t, answer, fails, expired, streamed);
            Closes(e.op.value, id) ==>
              && TerminalIn(Wrote(s.table, e.write, s.now), id)
              && (e.next.Some? ==> NoRows(e.next.value, id))
  {
    var ts := s.ticks[t];
    var rows := [ts.row] + ts.rest;
    assert TickEventsOk(ts, s.table, s.log, id);
    assert rows[0] == ts.row && rows[1..] == ts.rest;
    PendingTail(rows, s.table, s.log, id);
  }

  lemma OnlyMarkingMarks(ts: TickState, t: nat, now: Instant, table: Table, memory: Memory,
                         answer: Answer, fails: bool, expired: bool, streamed: nat)
    requires !ts.Marking?
    ensures var op := TickNext(ts, t, now, table, memory, answer, fails, expired, streamed).op;
            op.Some? ==> !op.value.TickMarked?
  {
  }

  lemma ClosedStays(s: State, t: nat, e: TickEffect, id: string)
    requires s.ticks.Keys == {t} && ClosedInv(s, id) && ClosingOf(s.log, id).Closed?
    requires TerminalIn(Wrote(s.table, e.write, s.now), id) && (e.next.Some? ==> NoBusiness(e.next.value, id))
    requires e.op.Some? ==>
               && !Closes(e.op.value, id) && !e.op.value.AdminRetried?
               && (Speaks(e.op.value, id) ==> ClosingOf(s.log, id).told == 0)
    ensures ClosedInv(AfterTick(s, t, e), id)
  {
    hide Wrote, NoRows, Closes, Speaks;
    if e.op.Some? {
      ClosingAppend(s.log, e.op.value, id);
    }
  }

  lemma OpenMayClose(s: State, t: nat, e: TickEffect, id: string)
    requires s.ticks.Keys == {t} && ClosedInv(s, id) && ClosingOf(s.log, id).Open?
    requires e.op.Some? && Closes(e.op.value, id) ==>
               && TerminalIn(Wrote(s.table, e.write, s.now), id)
               && (e.next.Some? ==> NoRows(e.next.value, id))
    ensures ClosedInv(AfterTick(s, t, e), id)
  {
    hide Wrote, NoRows, Closes, Speaks;
    if e.op.Some? {
      ClosingAppend(s.log, e.op.value, id);
    }
  }

  lemma ClosedAfterTick(s: State, a: Action, id: string)
    requires LockInv(s) && EventsInv(s, id) && ClosedInv(s, id) && a.TickStep? && a.t in s.ticks
    ensures ClosedInv(Step(s, a), id)
  {
    hide TickNext, Wrote, EventsInv, ClosingOf, ClosingRuled, Ruled, Holder, Horizon, NoRows, WorkOf;
    var ts, e := s.ticks[a.t], TickEffectOf(s, a.t, a.answer, a.fails, a.expired, a.streamed);
    TickWorks(ts, a.t, s.now, s.table, s.memory, a.answer, a.fails, a.expired, a.streamed);
    RetryIsNoWork(id);
    if ClosingOf(s.log, id).Closed? {
      TickKeepsSilence(ts, a.t, s.now, s.table, s.memory, a.answer, a.fails, a.expired, a.streamed, id);
      EndedStays(s, a, id);
      ClosedStays(s, a.t, e, id);
    } else {
      if ts.Marking? {
        TickCloses(s, a.t, a.answer, a.fails, a.expired, a.streamed, id);
      } else {
        OnlyMarkingMarks(ts, a.t, s.now, s.table, s.memory, a.answer, a.fails, a.expired, a.streamed);
      }
      OpenMayClose(s, a.t, e, id);
    }
  }

  lemma RetryIsNoWork(id: string)
    ensures forall i :: WorkOf(AdminRetried(i)).None?
  {
  }

  lemma OthersAreSilent(s: State, a: Action, id: string)
    requires !(a.TickStep? && a.t in s.ticks)
    ensures OpOf(s, a).Some? ==> !Speaks(OpOf(s, a).value, id) && !Closes(OpOf(s, a).value, id)
    ensures a == AdminRetry(id) && Retryable(s.table, id) ==> OpOf(s, a) == Some(AdminRetried(id))
    ensures a == AdminRetry(id) && !Retryable(s.table, id) ==> Step(s, a) == s
  {
    OtherSteps(s, a, id);
  }

  lemma ClosedAfterOther(s: State, a: Action, id: string)
    requires ClosedInv(s, id) && !(a.TickStep? && a.t in s.ticks)
    ensures ClosedInv(Step(s, a), id)
  {
    hide Step, Wrote, WriteOf, OpOf, NoRows, Closes, Speaks, ClosingOf, ClosingRuled, Retryable;
    OtherSteps(s, a, id);
    OthersAreSilent(s, a, id);
    StepShape(s, a);
    CheckingHoldsNothing(id);
    if a != AdminRetry(id) && TerminalIn(s.table, id) {
      EndedStays(s, a, id);
    }
    if OpOf(s, a).Some? {
      ClosingAppend(s.log, OpOf(s, a).value, id);
    }
  }

  lemma {:induction false} ClosedInRuns(s: State, acts: seq<Action>, id: string)
    requires LockInv(s) && EventsInv(s, id) && ClosedInv(s, id)
    ensures ClosedInv(Run(s, acts), id)
    decreases |acts|
  {
    if acts != [] {
      hide LockInv, EventsInv, ClosedInv, Step;
      var a := acts[0];
      LockInvAfterStep(s, a);
      EventsInvAfterStep(s, a, id);
      if a.TickStep? && a.t in s.ticks {
        ClosedAfterTick(s, a, id);
      } else {
        ClosedAfterOther(s, a, id);
      }
      ClosedInRuns(Step(s, a), acts[1..], id);
    }
  }

  lemma {:induction false} ClosingPrefix(log: seq<Op>, n: nat, id: string)
    requires ClosingRuled(log, id) && n < |log|
    ensures ClosingRule(ClosingOf(log[..n], id), log[n], id)
    ensures ClosingOf(log[..n + 1], id) == ClosingAfter(ClosingOf(log[..n], id), log[n], id)
    decreases |log|
  {
    var last := |log| - 1;
    assert log[..n + 1][..n] == log[..n];
    if n < last {
      ClosingPrefix(log[..last], n, id);
      assert log[..last][..n] == log[..n] && log[..last][n] == log[n];
    } else {
      assert log[..n + 1] == log;
    }
  }

  /** From the closing mark on the request stays closed while it is not retried, and each publication counts. */
  lemma {:induction false} ClosedSince(log: seq<Op>, i: nat, j: nat, m: nat, id: string)
    requires ClosingRuled(log, id) && i < j < |log| && i < m <= |log|
    requires Closes(log[i], id) && Speaks(log[j], id)
    requires forall n :: i < n < m ==> log[n] != AdminRetried(id)
    ensures ClosingOf(log[..m], id).Closed? && (j < m ==> ClosingOf(log[..m], id).told > 0)
  {
    hide ClosingOf, ClosingRuled;
    ClosingPrefix(log, m - 1, id);
    if i < m - 1 {
      ClosedSince(log, i, j, m - 1, id);
    }
  }

  /** After a terminal status that was written, the reconciler publishes at most one event for the
      request until it is retried: in every interleaving, restarts and all. */
  lemma NothingFollowsTheEnd(acts: seq<Action>, id: string, i: nat, j: nat, k: nat)
    requires i < j < k < |Run(START, acts).log|
    requires var log := Run(START, acts).log;
             && log[i].TickMarked? && log[i].id == id && Terminal(log[i].status) && log[i].ok
             && log[j].TickPublished? && log[j].event.id == id
             && log[k].TickPublished? && log[k].event.id == id
    ensures exists n :: i < n < k && Run(START, acts).log[n] == AdminRetried(id)
  {
    ClosedInRuns(START, acts, id);
    var log := Run(START, acts).log;
    hide Run, ClosingOf;
    if forall n :: i < n < k ==> log[n] != AdminRetried(id) {
      ClosedSince(log, i, j, k, id);
      ClosingPrefix(log, k, id);
    }
  }
}
