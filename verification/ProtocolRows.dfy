/** What every interleaving keeps true of the rows. */
module ProtocolRows {
  import opened Domain
  import opened Queries
  import opened Consumer
  import opened Protocol
  import R = Reconciler

  /* ---- Terminal stability ---- */

  predicate Overrides(a: Action, id: string) {
    (a.AdminRetry? || a.AdminMarkFailed?) && a.id == id
  }

  predicate TerminalIn(t: Table, id: string) {
    id in t && Terminal(t[id].status)
  }

  lemma WroteKeepsTerminal(t: Table, w: Statement, now: Instant, id: string)
    requires TerminalIn(t, id)
    requires w.DoRetry? || w.DoMarkFailed? ==> w.id != id
    ensures id in Wrote(t, w, now) && Wrote(t, w, now)[id].status == t[id].status
  {
  }

  /** Once imported or failed, a row keeps that status through every interleaving of handlers, ticks,
      stale snapshots, replays, crashes and restarts that holds no Retry or Mark failed of its id. */
  lemma {:induction false} TerminalStability(s: State, acts: seq<Action>, id: string)
    requires TerminalIn(s.table, id)
    requires forall k :: 0 <= k < |acts| ==> !Overrides(acts[k], id)
    ensures id in Run(s, acts).table && Run(s, acts).table[id].status == s.table[id].status
    decreases |acts|
  {
    if acts != [] {
      StepShape(s, acts[0]);
      WriteOrigin(s, acts[0]);
      WroteKeepsTerminal(s.table, WriteOf(s, acts[0]), s.now, id);
      TerminalStability(Step(s, acts[0]), acts[1..], id);
    }
  }

  /* ---- Reachable rows ---- */

  predicate RowOk(r: Row) {
    && Lifecycle(r.status)
    && (r.externalId.Some? ==> r.externalId.value != "")
    && (r.status.Searching? || r.status.Found? || r.status.Downloading? || r.status.Imported? ==> r.externalId.Some?)
    && (r.lastPolled.Some? ==> r.externalId.Some?)
  }

  predicate SnapshotsOk(rows: seq<ForwardedRequest>) {
    forall k :: 0 <= k < |rows| ==> Lifecycle(rows[k].status)
  }

  predicate PolledRowOk(row: ForwardedRequest) {
    row.externalId != "" && Lifecycle(row.status)
  }

  predicate TickRowsOk(ts: TickState) {
    match ts
    case Looping(rest) => SnapshotsOk(rest)
    case Polling(row, rest) => PolledRowOk(row) && SnapshotsOk(rest)
    case RecordingError(row, rest, _, _) => PolledRowOk(row) && SnapshotsOk(rest)
    case Marking(row, rest, status, _) => PolledRowOk(row) && Lifecycle(status) && SnapshotsOk(rest)
    case Announcing(rest, _) => SnapshotsOk(rest)
    case _ => true
  }

  ghost predicate TableOk(t: Table) {
    forall id :: id in t ==> RowOk(t[id])
  }

  ghost predicate RowsOk(s: State) {
    && TableOk(s.table)
    && forall t :: t in s.ticks ==> TickRowsOk(s.ticks[t])
  }

  /** What a statement may write without spoiling a row. */
  predicate StatementOk(w: Statement) {
    match w
    case NoWrite => true
    case DoUpsert(r) =>
      && Lifecycle(r.status)
      && (r.externalId == "" ==>
            (r.status.Submitted? || r.status.Acknowledged? || r.status.Failed?) && r.lastPolled == ZERO_TIME)
    case DoPolled(_, externalId, status) => externalId != "" && Lifecycle(status)
    case DoRetry(_) => true
    case DoMarkFailed(_, _) => true
  }

  lemma TableOkAfterWrite(t: Table, w: Statement, now: Instant)
    requires TableOk(t) && StatementOk(w)
    ensures TableOk(Wrote(t, w, now))
  {
    var t' := Wrote(t, w, now);
    forall id | id in t' ensures RowOk(t'[id]) {
      assert id in t ==> RowOk(t[id]);
    }
  }

  lemma HandlerStatementOk(hs: HandlerState, now: Instant, answer: Answer, fails: bool)
    ensures StatementOk(HandlerNext(hs, now, answer, fails).write)
  {
  }

  lemma ListingOk(t: Table, n: nat)
    requires TableOk(t)
    ensures SnapshotsOk(Streamed(t, R.BATCH, n))
  {
    ListingMeaning(t, R.BATCH);
  }

  lemma TickEffectOk(ts: TickState, t: nat, now: Instant, table: Table, memory: Memory,
                     answer: Answer, fails: bool, expired: bool, streamed: nat)
    requires TickRowsOk(ts) && TableOk(table)
    ensures var e := TickNext(ts, t, now, table, memory, answer, fails, expired, streamed);
            StatementOk(e.write) && (e.next.Some? ==> TickRowsOk(e.next.value))
  {
    if ts.AtListing? {
      ListingOk(table, streamed);
    }
  }

  lemma RowsOkAfterStep(s: State, a: Action)
    requires RowsOk(s)
    ensures RowsOk(Step(s, a))
  {
    StepShape(s, a);
    if a.TickStep? && a.t in s.ticks {
      TickEffectOk(s.ticks[a.t], a.t, s.now, s.table, s.memory, a.answer, a.fails, a.expired, a.streamed);
    } else if a.HandlerStep? && a.h in s.handlers {
      HandlerStatementOk(s.handlers[a.h], s.now, a.answer, a.fails);
    }
    TableOkAfterWrite(s.table, WriteOf(s, a), s.now);
  }

  /** In every reachable state each row has a lifecycle status, a NULL or non-empty upstream id, and
      an upstream id wherever its status or its stamp says it has been polled. */
  lemma {:induction false} ReachableRows(s: State, acts: seq<Action>)
    requires RowsOk(s)
    ensures RowsOk(Run(s, acts))
    decreases |acts|
  {
    if acts != [] {
      RowsOkAfterStep(s, acts[0]);
      ReachableRows(Step(s, acts[0]), acts[1..]);
    }
  }

  lemma RowsOfEveryRun(acts: seq<Action>)
    ensures forall id :: id in Run(START, acts).table ==> RowOk(Run(START, acts).table[id])
  {
    ReachableRows(START, acts);
  }

  lemma WroteKeepsExternalId(t: Table, w: Statement, now: Instant, id: string)
    requires id in t && t[id].externalId.Some?
    ensures id in Wrote(t, w, now) && Wrote(t, w, now)[id].externalId.Some?
  {
  }

  /** Rows are never deleted and an upstream id, once set, is never NULL again. */
  lemma {:induction false} ExternalIdNeverLost(s: State, acts: seq<Action>, id: string)
    requires id in s.table && s.table[id].externalId.Some?
    ensures id in Run(s, acts).table && Run(s, acts).table[id].externalId.Some?
    decreases |acts|
  {
    if acts != [] {
      StepShape(s, acts[0]);
      WroteKeepsExternalId(s.table, WriteOf(s, acts[0]), s.now, id);
      ExternalIdNeverLost(Step(s, acts[0]), acts[1..], id);
    }
  }

  /* ---- No lost request ---- */

  lemma WroteKeepsSettled(t: Table, w: Statement, now: Instant, id: string)
    requires Settled(t, id)
    ensures Settled(Wrote(t, w, now), id)
  {
  }

  predicate Live(msg: Message) {
    msg.targeted && msg.id != "" && msg.complete
  }

  /** The upstream accepted message m without naming a job, and the plugin announced the request as
      acknowledged all the same. */
  predicate BlankAcceptance(log: seq<Op>, m: nat, id: string) {
    Added(m, "") in log && HandlerPublished(m, RequestAcknowledged(id, "")) in log
  }

  predicate Kept(t: Table, log: seq<Op>, m: nat, msg: Message) {
    Live(msg) ==> Settled(t, msg.id) || BlankAcceptance(log, m, msg.id)
  }

  predicate HandlerOk(t: Table, log: seq<Op>, hs: HandlerState) {
    match hs
    case Rejecting(_, msg) => !Live(msg)
    case Answered(m, _, a) => Blank(a) ==> Added(m, "") in log
    case Publishing(m, msg, event) =>
      Live(msg) ==> Settled(t, msg.id) || (event == RequestAcknowledged(msg.id, "") && Added(m, "") in log)
    case Acking(m, msg) => Kept(t, log, m, msg)
    case _ => true
  }

  ghost predicate NothingLost(s: State) {
    && (forall m :: m in s.acked ==> m in s.messages && Kept(s.table, s.log, m, s.messages[m]))
    && (forall h :: h in s.handlers ==>
          && s.handlers[h].m in s.messages && s.messages[s.handlers[h].m] == s.handlers[h].msg
          && HandlerOk(s.table, s.log, s.handlers[h]))
  }

  lemma KeptAfterWrite(t: Table, log: seq<Op>, w: Statement, op: Option<Op>, now: Instant, m: nat, msg: Message)
    requires Kept(t, log, m, msg)
    ensures Kept(Wrote(t, w, now), Logged(log, op), m, msg)
  {
    if Settled(t, msg.id) {
      WroteKeepsSettled(t, w, now, msg.id);
    }
  }

  lemma HandlerOkAfterWrite(t: Table, log: seq<Op>, w: Statement, op: Option<Op>, now: Instant, hs: HandlerState)
    requires HandlerOk(t, log, hs)
    ensures HandlerOk(Wrote(t, w, now), Logged(log, op), hs)
  {
    if (hs.Publishing? || hs.Acking?) && Settled(t, hs.msg.id) {
      WroteKeepsSettled(t, w, now, hs.msg.id);
    }
  }

  lemma HandlerAdvances(t: Table, log: seq<Op>, hs: HandlerState, now: Instant, answer: Answer, fails: bool)
    requires HandlerOk(t, log, hs)
    ensures var e := HandlerNext(hs, now, answer, fails);
            && (e.next.Some? ==> e.next.value.m == hs.m && e.next.value.msg == hs.msg
                                 && HandlerOk(Wrote(t, e.write, now), Logged(log, e.op), e.next.value))
            && (e.acks ==> Kept(t, log, hs.m, hs.msg))
  {
    var e := HandlerNext(hs, now, answer, fails);
    match hs
    case Answered(m, msg, a) =>
      if !fails && !Blank(a) {
        assert Settled(Wrote(t, e.write, now), msg.id);
      }
    case Calling(m, msg) =>
      assert answer.Success? ==> Logged(log, e.op)[|log|] == Added(m, answer.id);
    case Publishing(m, msg, event) =>
      assert Logged(log, e.op)[|log|] == HandlerPublished(m, event);
    case _ =>
  }

  lemma NothingLostAfterHandler(s: State, a: Action)
    requires NothingLost(s) && a.HandlerStep? && a.h in s.handlers
    ensures NothingLost(Step(s, a))
  {
    var hs := s.handlers[a.h];
    var e := HandlerNext(hs, s.now, a.answer, a.fails);
    HandlerAdvances(s.table, s.log, hs, s.now, a.answer, a.fails);
    KeepsAll(s, e.write, e.op);
    if e.acks {
      KeptAfterWrite(s.table, s.log, e.write, e.op, s.now, hs.m, hs.msg);
    }
  }

  /** What a statement and a mark leave intact: everything that already held. */
  lemma KeepsAll(s: State, w: Statement, op: Option<Op>)
    requires NothingLost(s)
    ensures NothingLost(s.(table := Wrote(s.table, w, s.now), log := Logged(s.log, op)))
  {
    forall m | m in s.acked {
      KeptAfterWrite(s.table, s.log, w, op, s.now, m, s.messages[m]);
    }
    forall h | h in s.handlers {
      HandlerOkAfterWrite(s.table, s.log, w, op, s.now, s.handlers[h]);
    }
  }

  lemma NothingLostAfterStep(s: State, a: Action)
    requires NothingLost(s)
    ensures NothingLost(Step(s, a))
  {
    if a.HandlerStep? && a.h in s.handlers {
      NothingLostAfterHandler(s, a);
    } else {
      StepShape(s, a);
      KeepsAll(s, WriteOf(s, a), OpOf(s, a));
    }
  }

  lemma {:induction false} NothingLostInRuns(s: State, acts: seq<Action>)
    requires NothingLost(s)
    ensures NothingLost(Run(s, acts))
    decreases |acts|
  {
    if acts != [] {
      NothingLostAfterStep(s, acts[0]);
      NothingLostInRuns(Step(s, acts[0]), acts[1..]);
    }
  }

  /** In every interleaving, an event addressed to the plugin with an id and a title or ISBN is still
      unacknowledged at the broker, or its row is terminal or has an upstream id; the one exception
      is an event whose job the upstream accepted without naming it and the plugin acknowledged. */
  lemma NoLostRequest(acts: seq<Action>, m: nat)
    requires m in Run(START, acts).messages && Live(Run(START, acts).messages[m])
    ensures var s := Run(START, acts);
            m !in s.acked || Settled(s.table, s.messages[m].id) || BlankAcceptance(s.log, m, s.messages[m].id)
  {
    NothingLostInRuns(START, acts);
  }

  predicate NamesJob(a: Action) {
    a.HandlerStep? ==> !Blank(a.answer)
  }

  lemma {:induction false} NoBlankAdd(s: State, acts: seq<Action>, m: nat)
    requires Added(m, "") !in s.log && forall k :: 0 <= k < |acts| ==> NamesJob(acts[k])
    ensures Added(m, "") !in Run(s, acts).log
    decreases |acts|
  {
    if acts != [] {
      StepShape(s, acts[0]);
      BlankAddOrigin(s, acts[0], m);
      NoBlankAdd(Step(s, acts[0]), acts[1..], m);
    }
  }

  lemma BlankAddOrigin(s: State, a: Action, m: nat)
    requires NamesJob(a)
    ensures OpOf(s, a) != Some(Added(m, ""))
  {
  }

  /** As long as the upstream names every job it accepts, no request is lost. */
  lemma NoLostNamedRequest(acts: seq<Action>, m: nat)
    requires m in Run(START, acts).messages && Live(Run(START, acts).messages[m])
    requires forall k :: 0 <= k < |acts| ==> NamesJob(acts[k])
    ensures var s := Run(START, acts);
            m !in s.acked || Settled(s.table, s.messages[m].id)
  {
    hide Run, Settled, NamesJob, Live;
    NoLostRequest(acts, m);
    NoBlankAdd(START, acts, m);
  }

  /** The step that decides: recording the answer leaves the row settled exactly when the answer was
      not a blank acceptance or the row was settled before. */
  lemma OutcomeSettlesIff(s: State, h: nat, answer: Answer)
    requires h in s.handlers && s.handlers[h].Answered? && Live(s.handlers[h].msg)
    ensures var hs := s.handlers[h];
            Settled(Step(s, HandlerStep(h, answer, false)).table, hs.msg.id)
            <==> !Blank(hs.answer) || Settled(s.table, hs.msg.id)
  {
  }

  /* ---- No untracked upstream work ---- */

  predicate InCall(hs: HandlerState) {
    hs.Forwarding? || hs.Calling? || hs.Answered?
  }

  predicate UpstreamMark(op: Op) {
    op.Asked? || op.Added?
  }

  ghost predicate Tracked(s: State) {
    && (forall h :: h in s.handlers && InCall(s.handlers[h]) ==>
          s.handlers[h].msg.id in s.table)
    && (forall h :: h in s.handlers ==> s.handlers[h].m in s.messages && s.messages[s.handlers[h].m] == s.handlers[h].msg)
    && (forall k :: 0 <= k < |s.log| && UpstreamMark(s.log[k]) ==>
          s.log[k].m in s.messages && s.messages[s.log[k].m].id in s.table)
  }

  lemma WroteKeepsKeys(t: Table, w: Statement, now: Instant)
    ensures t.Keys <= Wrote(t, w, now).Keys
  {
  }

  lemma HandlerTracks(hs: HandlerState, t: Table, now: Instant, answer: Answer, fails: bool)
    requires InCall(hs) ==> hs.msg.id in t
    ensures var e := HandlerNext(hs, now, answer, fails);
            && (e.next.Some? && InCall(e.next.value) ==>
                  e.next.value.msg.id in Wrote(t, e.write, now))
            && (e.op.Some? && UpstreamMark(e.op.value) ==> e.op.value.m == hs.m && hs.msg.id in t)
            && (e.next.Some? ==> e.next.value.m == hs.m && e.next.value.msg == hs.msg)
  {
  }

  lemma TickAddsNothing(ts: TickState, t: nat, now: Instant, table: Table, memory: Memory,
                        answer: Answer, fails: bool, expired: bool, streamed: nat)
    ensures var e := TickNext(ts, t, now, table, memory, answer, fails, expired, streamed);
            e.op.Some? ==> !UpstreamMark(e.op.value)
  {
  }

  lemma TrackedAfterHandler(s: State, h: nat, e: HandlerEffect)
    requires Tracked(s) && h in s.handlers
    requires var m, msg, t' := s.handlers[h].m, s.handlers[h].msg, Wrote(s.table, e.write, s.now);
             && (e.next.Some? ==> e.next.value.m == m && e.next.value.msg == msg)
             && (e.next.Some? && InCall(e.next.value) ==> msg.id in t')
             && (e.op.Some? && UpstreamMark(e.op.value) ==> e.op.value.m == m && msg.id in s.table)
    ensures Tracked(AfterHandler(s, h, e))
  {
    WroteKeepsKeys(s.table, e.write, s.now);
  }

  lemma TrackedAfterTick(s: State, t: nat, e: TickEffect)
    requires Tracked(s) && (e.op.Some? ==> !UpstreamMark(e.op.value))
    ensures Tracked(AfterTick(s, t, e))
  {
    WroteKeepsKeys(s.table, e.write, s.now);
  }

  lemma TrackedAfterStep(s: State, a: Action)
    requires Tracked(s)
    ensures Tracked(Step(s, a))
  {
    if a.HandlerStep? && a.h in s.handlers {
      HandlerTracks(s.handlers[a.h], s.table, s.now, a.answer, a.fails);
      hide HandlerNext, Wrote;
      TrackedAfterHandler(s, a.h, HandlerNext(s.handlers[a.h], s.now, a.answer, a.fails));
    } else if a.TickStep? && a.t in s.ticks {
      TickAddsNothing(s.ticks[a.t], a.t, s.now, s.table, s.memory, a.answer, a.fails, a.expired, a.streamed);
      hide TickNext, Wrote;
      TrackedAfterTick(s, a.t, TickEffectOf(s, a.t, a.answer, a.fails, a.expired, a.streamed));
    } else {
      StepShape(s, a);
      WroteKeepsKeys(s.table, WriteOf(s, a), s.now);
      hide HandlerNext, TickNext, Wrote;
    }
  }

  /** The upstream is never asked, and never accepts a job, for a request the table does not hold: the
      row is persisted first, and no interleaving removes it. */
  lemma {:induction false} UpstreamWorkIsTracked(s: State, acts: seq<Action>)
    requires Tracked(s)
    ensures Tracked(Run(s, acts))
    decreases |acts|
  {
    if acts != [] {
      TrackedAfterStep(s, acts[0]);
      UpstreamWorkIsTracked(Step(s, acts[0]), acts[1..]);
    }
  }

  /** A settled row stays settled under every step, Retry included. */
  lemma {:induction false} SettledForever(s: State, acts: seq<Action>, id: string)
    requires Settled(s.table, id)
    ensures Settled(Run(s, acts).table, id)
    decreases |acts|
  {
    if acts != [] {
      StepShape(s, acts[0]);
      WroteKeepsSettled(s.table, WriteOf(s, acts[0]), s.now, id);
      SettledForever(Step(s, acts[0]), acts[1..], id);
    }
  }

  /* ---- Stamps ---- */

  ghost predicate StampsPast(t: Table, now: Time) {
    forall id :: id in t && t[id].lastPolled.Some? ==> t[id].lastPolled.value <= now
  }

  /** A row stamped no earlier than `at`. */
  predicate StampedSince(t: Table, id: string, at: Time) {
    id in t && t[id].lastPolled.Some? && at <= t[id].lastPolled.value
  }

  predicate StampsAtMost(w: Statement, now: Time) {
    w.DoUpsert? ==> w.r.lastPolled == ZERO_TIME || w.r.lastPolled == now
  }

  lemma StampsAfterWrite(t: Table, w: Statement, now: Instant, id: string, at: Time)
    requires StampsPast(t, now) && StampsAtMost(w, now)
    ensures StampsPast(Wrote(t, w, now), now)
    ensures StampedSince(t, id, at) && (w.DoRetry? ==> w.id != id) ==> StampedSince(Wrote(t, w, now), id, at)
  {
    var t' := Wrote(t, w, now);
    forall x | x in t' && t'[x].lastPolled.Some? ensures t'[x].lastPolled.value <= now {
      assert x in t && t[x].lastPolled.Some? ==> t[x].lastPolled.value <= now;
    }
  }

  lemma StatementStamps(s: State, a: Action)
    ensures StampsAtMost(WriteOf(s, a), s.now)
  {
  }

  lemma StampsAfterStep(s: State, a: Action, id: string, at: Time)
    requires StampsPast(s.table, s.now)
    ensures StampsPast(Step(s, a).table, Step(s, a).now)
    ensures StampedSince(s.table, id, at) && a != AdminRetry(id) ==> StampedSince(Step(s, a).table, id, at)
  {
    StepShape(s, a);
    WriteOrigin(s, a);
    StatementStamps(s, a);
    StampsAfterWrite(s.table, WriteOf(s, a), s.now, id, at);
  }

  lemma {:induction false} StampsInRuns(s: State, acts: seq<Action>)
    requires StampsPast(s.table, s.now)
    ensures StampsPast(Run(s, acts).table, Run(s, acts).now)
    decreases |acts|
  {
    if acts != [] {
      StampsAfterStep(s, acts[0], "", s.now);
      StampsInRuns(Step(s, acts[0]), acts[1..]);
    }
  }

  lemma {:induction false} NotStuckFrom(s: State, acts: seq<Action>, id: string, at: Time, threshold: int)
    requires StampsPast(s.table, s.now) && StampedSince(s.table, id, at)
    requires AdminRetry(id) !in acts
    requires Run(s, acts).now <= at + threshold
    ensures id !in StuckKeys(Run(s, acts).table, Run(s, acts).now - threshold)
    decreases |acts|
  {
    if acts != [] {
      StampsAfterStep(s, acts[0], id, at);
      NotStuckFrom(Step(s, acts[0]), acts[1..], id, at, threshold);
    }
  }

  /** A row that at some moment of a run shows a stamp of time `at` is not listed as stuck until the
      threshold has passed, unless it is retried, whatever else happens meanwhile. */
  lemma NotStuckAfterPoll(before: seq<Action>, acts: seq<Action>, id: string, at: Time, threshold: int)
    requires StampedSince(Run(START, before).table, id, at)
    requires AdminRetry(id) !in acts
    requires Run(START, before + acts).now <= at + threshold
    ensures id !in StuckKeys(Run(START, before + acts).table, Run(START, before + acts).now - threshold)
  {
    hide Step, StuckKeys;
    StampsInRuns(START, before);
    RunConcat(START, before, acts);
    NotStuckFrom(Run(START, before), acts, id, at, threshold);
  }
}
