/** Where upstream ids come from, and how a tick can put an old one back. */
module ProtocolIds {
  import opened Domain
  import opened Queries
  import opened Consumer
  import opened Protocol
  import opened ProtocolRows
  import R = Reconciler

  /* ---- Every stored id was named by the upstream for its request ---- */

  /** The upstream answered an add for a message of this request with this id. */
  ghost predicate NamedFor(messages: map<nat, Message>, log: seq<Op>, id: string, externalId: string) {
    exists m :: m in messages && messages[m].id == id && Added(m, externalId) in log
  }

  ghost predicate RowNamed(messages: map<nat, Message>, log: seq<Op>, row: ForwardedRequest) {
    row.externalId != "" ==> NamedFor(messages, log, row.requestId, row.externalId)
  }

  ghost predicate RowsNamed(messages: map<nat, Message>, log: seq<Op>, rows: seq<ForwardedRequest>) {
    forall k :: 0 <= k < |rows| ==> RowNamed(messages, log, rows[k])
  }

  ghost predicate TickNamed(messages: map<nat, Message>, log: seq<Op>, ts: TickState) {
    match ts
    case Looping(rest) => RowsNamed(messages, log, rest)
    case Polling(row, rest) => RowNamed(messages, log, row) && RowsNamed(messages, log, rest)
    case RecordingError(row, rest, _, _) => RowNamed(messages, log, row) && RowsNamed(messages, log, rest)
    case Marking(row, rest, _, _) => RowNamed(messages, log, row) && RowsNamed(messages, log, rest)
    case Announcing(rest, _) => RowsNamed(messages, log, rest)
    case _ => true
  }

  predicate HandlerNamed(messages: map<nat, Message>, log: seq<Op>, hs: HandlerState) {
    && hs.m in messages && messages[hs.m] == hs.msg
    && (hs.Answered? && hs.answer.Success? ==> Added(hs.m, hs.answer.id) in log)
  }

  ghost predicate TableNamed(messages: map<nat, Message>, log: seq<Op>, t: Table) {
    forall id :: id in t && t[id].externalId.Some? ==> NamedFor(messages, log, id, t[id].externalId.value)
  }

  ghost predicate IdsNamed(s: State) {
    && TableNamed(s.messages, s.log, s.table)
    && (forall h :: h in s.handlers ==> HandlerNamed(s.messages, s.log, s.handlers[h]))
    && (forall t :: t in s.ticks ==> TickNamed(s.messages, s.log, s.ticks[t]))
  }

  /** The id a statement may store, and for which request. */
  ghost predicate StatementNamed(messages: map<nat, Message>, log: seq<Op>, w: Statement) {
    match w
    case DoUpsert(r) => RowNamed(messages, log, r)
    case DoPolled(id, externalId, _) => externalId != "" ==> NamedFor(messages, log, id, externalId)
    case _ => true
  }

  ghost predicate Later(messages: map<nat, Message>, log: seq<Op>, messages': map<nat, Message>, log': seq<Op>) {
    && (forall m :: m in messages ==> m in messages' && messages'[m] == messages[m])
    && (forall op :: op in log ==> op in log')
  }

  lemma NamedLater(messages: map<nat, Message>, log: seq<Op>, messages': map<nat, Message>, log': seq<Op>,
                   id: string, externalId: string)
    requires Later(messages, log, messages', log') && NamedFor(messages, log, id, externalId)
    ensures NamedFor(messages', log', id, externalId)
  {
    var m :| m in messages && messages[m].id == id && Added(m, externalId) in log;
    assert m in messages' && Added(m, externalId) in log';
  }

  lemma TickNamedLater(messages: map<nat, Message>, log: seq<Op>, messages': map<nat, Message>, log': seq<Op>,
                       ts: TickState)
    requires Later(messages, log, messages', log') && TickNamed(messages, log, ts)
    ensures TickNamed(messages', log', ts)
  {
    forall id, e | NamedFor(messages, log, id, e) ensures NamedFor(messages', log', id, e) {
      NamedLater(messages, log, messages', log', id, e);
    }
  }

  lemma TableNamedAfterWrite(messages: map<nat, Message>, log: seq<Op>, t: Table, w: Statement, now: Instant)
    requires TableNamed(messages, log, t) && StatementNamed(messages, log, w)
    ensures TableNamed(messages, log, Wrote(t, w, now))
  {
    var t' := Wrote(t, w, now);
    forall id | id in t' && t'[id].externalId.Some?
      ensures NamedFor(messages, log, id, t'[id].externalId.value)
    {
      assert id in t && t[id].externalId.Some? ==> NamedFor(messages, log, id, t[id].externalId.value);
    }
  }

  /** Messages and marks are only ever added. */
  lemma StepIsLater(s: State, a: Action)
    ensures Later(s.messages, s.log, Step(s, a).messages, Step(s, a).log)
  {
    StepShape(s, a);
  }

  lemma ListingNamed(messages: map<nat, Message>, log: seq<Op>, t: Table, n: nat)
    requires TableNamed(messages, log, t)
    ensures RowsNamed(messages, log, Streamed(t, R.BATCH, n))
  {
    ListingMeaning(t, R.BATCH);
  }

  lemma TickKeepsNames(messages: map<nat, Message>, log: seq<Op>, ts: TickState, t: nat, now: Instant, table: Table,
                       memory: Memory, answer: Answer, fails: bool, expired: bool, streamed: nat)
    requires TableNamed(messages, log, table) && TickNamed(messages, log, ts)
    ensures var e := TickNext(ts, t, now, table, memory, answer, fails, expired, streamed);
            && StatementNamed(messages, log, e.write)
            && (e.next.Some? ==> TickNamed(messages, log, e.next.value))
  {
    hide NamedFor, TableNamed;
    if ts.AtListing? {
      ListingNamed(messages, log, table, streamed);
    }
  }

  lemma HandlerKeepsNames(messages: map<nat, Message>, log: seq<Op>, hs: HandlerState, now: Instant,
                          answer: Answer, fails: bool)
    requires HandlerNamed(messages, log, hs)
    ensures var e := HandlerNext(hs, now, answer, fails);
            && StatementNamed(messages, log, e.write)
            && (e.next.Some? ==> HandlerNamed(messages, Logged(log, e.op), e.next.value))
  {
    if hs.Calling? && answer.Success? {
      assert (log + [Added(hs.m, answer.id)])[|log|] == Added(hs.m, answer.id);
    }
  }

  lemma WriteIsNamed(s: State, a: Action)
    requires IdsNamed(s)
    ensures StatementNamed(s.messages, s.log, WriteOf(s, a))
  {
    if a.TickStep? && a.t in s.ticks {
      hide TableNamed, StatementNamed, TickNamed, TickNext;
      TickKeepsNames(s.messages, s.log, s.ticks[a.t], a.t, s.now, s.table, s.memory,
                     a.answer, a.fails, a.expired, a.streamed);
    } else if a.HandlerStep? && a.h in s.handlers {
      hide TableNamed, StatementNamed, HandlerNamed, HandlerNext;
      HandlerKeepsNames(s.messages, s.log, s.handlers[a.h], s.now, a.answer, a.fails);
    }
  }

  lemma TableNamedAfterStep(s: State, a: Action)
    requires IdsNamed(s)
    ensures TableNamed(Step(s, a).messages, Step(s, a).log, Step(s, a).table)
  {
    var s' := Step(s, a);
    hide Step, WriteOf, Wrote, Later, NamedFor;
    StepShape(s, a);
    StepIsLater(s, a);
    WriteIsNamed(s, a);
    TableNamedAfterWrite(s.messages, s.log, s.table, WriteOf(s, a), s.now);
    forall id | id in s'.table && s'.table[id].externalId.Some?
      ensures NamedFor(s'.messages, s'.log, id, s'.table[id].externalId.value)
    {
      NamedLater(s.messages, s.log, s'.messages, s'.log, id, s'.table[id].externalId.value);
    }
  }

  lemma HandlersNamedAfterStep(s: State, a: Action, h: nat)
    requires IdsNamed(s) && h in Step(s, a).handlers
    ensures HandlerNamed(Step(s, a).messages, Step(s, a).log, Step(s, a).handlers[h])
  {
    hide TableNamed, TickNamed, HandlerNext, TickNext, Wrote;
    StepIsLater(s, a);
    if a.HandlerStep? && a.h in s.handlers {
      HandlerKeepsNames(s.messages, s.log, s.handlers[a.h], s.now, a.answer, a.fails);
    }
  }

  lemma TicksNamedAfterStep(s: State, a: Action, t: nat)
    requires IdsNamed(s) && t in Step(s, a).ticks
    ensures TickNamed(Step(s, a).messages, Step(s, a).log, Step(s, a).ticks[t])
  {
    hide TableNamed, TickNamed, HandlerNamed, HandlerNext, TickNext, Wrote, Later;
    var s' := Step(s, a);
    StepIsLater(s, a);
    if a.TickStep? && a.t in s.ticks && t == a.t {
      TickKeepsNames(s.messages, s.log, s.ticks[t], t, s.now, s.table, s.memory,
                     a.answer, a.fails, a.expired, a.streamed);
      TickNamedLater(s.messages, s.log, s'.messages, s'.log, s'.ticks[t]);
    } else if t in s.ticks {
      TickNamedLater(s.messages, s.log, s'.messages, s'.log, s.ticks[t]);
    } else {
      CheckingIsNamed(s'.messages, s'.log);
    }
  }

  lemma CheckingIsNamed(messages: map<nat, Message>, log: seq<Op>)
    ensures TickNamed(messages, log, Checking)
  {
  }

  lemma IdsNamedAfterStep(s: State, a: Action)
    requires IdsNamed(s)
    ensures IdsNamed(Step(s, a))
  {
    var s' := Step(s, a);
    hide Step, TableNamed, HandlerNamed, TickNamed;
    TableNamedAfterStep(s, a);
    forall h | h in s'.handlers ensures HandlerNamed(s'.messages, s'.log, s'.handlers[h]) {
      HandlersNamedAfterStep(s, a, h);
    }
    forall t | t in s'.ticks ensures TickNamed(s'.messages, s'.log, s'.ticks[t]) {
      TicksNamedAfterStep(s, a, t);
    }
  }

  lemma {:induction false} IdsNamedInRuns(s: State, acts: seq<Action>)
    requires IdsNamed(s)
    ensures IdsNamed(Run(s, acts))
    decreases |acts|
  {
    if acts != [] {
      IdsNamedAfterStep(s, acts[0]);
      IdsNamedInRuns(Step(s, acts[0]), acts[1..]);
    }
  }

  /** In every reachable state each stored upstream id is one the upstream named in answer to an add for
      that very request, through all redeliveries, stale snapshots and restarts. */
  lemma StoredIdsAreNamed(acts: seq<Action>, id: string)
    requires id in Run(START, acts).table && Run(START, acts).table[id].externalId.Some?
    ensures var s := Run(START, acts);
            NamedFor(s.messages, s.log, id, s.table[id].externalId.value)
  {
    IdsNamedInRuns(START, acts);
  }

  /* ---- But not always the latest ---- */

  /** The row whose write a tick is about to make. */
  function Writing(ts: TickState): Option<ForwardedRequest> {
    match ts
    case RecordingError(row, _, _, _) => Some(row)
    case Marking(row, _, _, _) => Some(row)
    case _ => None
  }

  function StoredId(t: Table, id: string): Option<string> {
    if id in t then t[id].externalId else None
  }

  lemma WriteOfListedId(s: State, t: nat, answer: Answer, fails: bool, expired: bool, streamed: nat)
    requires t in s.ticks && Writing(s.ticks[t]).Some?
    requires var row := Writing(s.ticks[t]).value; row.externalId != "" && row.requestId in s.table
    ensures var row := Writing(s.ticks[t]).value;
            StoredId(Step(s, TickStep(t, answer, fails, expired, streamed)).table, row.requestId)
            == if fails then s.table[row.requestId].externalId else Some(row.externalId)
  {
  }

  /** The row a tick is writing is in the table: its id was named for it, and named jobs are tracked. */
  lemma WritingIsStored(acts: seq<Action>, t: nat)
    requires t in Run(START, acts).ticks && Writing(Run(START, acts).ticks[t]).Some?
    ensures var row := Writing(Run(START, acts).ticks[t]).value;
            row.externalId != "" && row.requestId in Run(START, acts).table
  {
    var s := Run(START, acts);
    ReachableRows(START, acts);
    IdsNamedInRuns(START, acts);
    UpstreamWorkIsTracked(START, acts);
    hide Run;
    assert TickRowsOk(s.ticks[t]) && TickNamed(s.messages, s.log, s.ticks[t]);
    var row := Writing(s.ticks[t]).value;
    assert NamedFor(s.messages, s.log, row.requestId, row.externalId);
  }

  /** In every reachable state a tick's write that goes through stores the id its listing had, whatever
      the row holds by then. */
  lemma TickStoresListedId(acts: seq<Action>, t: nat, answer: Answer, fails: bool, expired: bool, streamed: nat)
    requires t in Run(START, acts).ticks && Writing(Run(START, acts).ticks[t]).Some?
    ensures var s := Run(START, acts);
            var row := Writing(s.ticks[t]).value;
            && row.externalId != "" && row.requestId in s.table
            && StoredId(Step(s, TickStep(t, answer, fails, expired, streamed)).table, row.requestId)
               == if fails then s.table[row.requestId].externalId else Some(row.externalId)
  {
    hide Step, Run;
    WritingIsStored(acts, t);
    WriteOfListedId(Run(START, acts), t, answer, fails, expired, streamed);
  }
}
