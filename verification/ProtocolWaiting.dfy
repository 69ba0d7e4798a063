/** Bounded waiting in small steps: handlers of known requests, admins marking rows
    failed, crashes of handlers and the clock run on between any two steps of a tick. */
module ProtocolWaiting {
  import opened Domain
  import opened Ordering
  import opened Queries
  import opened Consumer
  import opened Protocol
  import opened ProtocolRows
  import opened Waiting
  import R = Reconciler

  /* ---- What may happen ---- */

  /** The message can at most touch a request in `known`. */
  predicate Familiar(msg: Message, known: set<string>) {
    !msg.targeted || msg.id == "" || msg.id in known
  }

  /** No fault, rate limit or cut-off of a tick, no Retry, no restart, and no new request. */
  predicate Ordinary(a: Action, known: set<string>) {
    match a
    case Submit(_, message) => Familiar(message, known)
    case TickStep(_, answer, fails, expired, streamed) => !answer.Limited? && !fails && !expired && streamed >= R.BATCH
    case AdminRetry(_) => false
    case Restart => false
    case _ => true
  }

  predicate HandlerKnown(hs: HandlerState, known: set<string>) {
    hs.msg.id in known || (Familiar(hs.msg, known) && (hs.Received? || hs.Acking?))
  }

  predicate RowsKnown(rows: seq<ForwardedRequest>, known: set<string>) {
    forall k :: 0 <= k < |rows| ==> rows[k].requestId in known
  }

  predicate TickKnown(ts: TickState, known: set<string>) {
    match ts
    case Looping(rest) => RowsKnown(rest, known)
    case Polling(row, rest) => row.requestId in known && RowsKnown(rest, known)
    case RecordingError(row, rest, _, _) => row.requestId in known && RowsKnown(rest, known)
    case Marking(row, rest, _, _) => row.requestId in known && RowsKnown(rest, known)
    case Announcing(rest, _) => RowsKnown(rest, known)
    case _ => true
  }

  /** Everything under way is about requests of the table, and no stamp lies in the future. */
  ghost predicate Contained(s: State, known: set<string>) {
    && s.table.Keys == known
    && (forall m :: m in s.messages ==> Familiar(s.messages[m], known))
    && (forall h :: h in s.handlers ==> HandlerKnown(s.handlers[h], known))
    && (forall t :: t in s.ticks ==> TickKnown(s.ticks[t], known))
    && StampsPast(s.table, s.now)
  }

  predicate WritesKnown(w: Statement, known: set<string>) {
    match w
    case DoUpsert(r) => r.requestId in known
    case _ => true
  }

  lemma KeysAfterWrite(t: Table, w: Statement, now: Instant)
    requires WritesKnown(w, t.Keys)
    ensures Wrote(t, w, now).Keys == t.Keys
  {
  }

  lemma HandlerStaysKnown(hs: HandlerState, now: Instant, answer: Answer, fails: bool, known: set<string>)
    requires HandlerKnown(hs, known)
    ensures var e := HandlerNext(hs, now, answer, fails);
            WritesKnown(e.write, known) && (e.next.Some? ==> HandlerKnown(e.next.value, known))
  {
  }

  lemma ListingIsKnown(t: Table, n: nat)
    ensures RowsKnown(Streamed(t, R.BATCH, n), t.Keys)
  {
    ListingMeaning(t, R.BATCH);
  }

  lemma TickStaysKnown(ts: TickState, t: nat, now: Instant, table: Table, memory: Memory,
                       answer: Answer, fails: bool, expired: bool, streamed: nat)
    requires TickKnown(ts, table.Keys)
    ensures var e := TickNext(ts, t, now, table, memory, answer, fails, expired, streamed);
            WritesKnown(e.write, table.Keys) && (e.next.Some? ==> TickKnown(e.next.value, table.Keys))
  {
    if ts.AtListing? {
      ListingIsKnown(table, streamed);
    }
  }

  lemma StatementIsKnown(s: State, a: Action, known: set<string>)
    requires Contained(s, known)
    ensures WritesKnown(WriteOf(s, a), known)
  {
    if a.HandlerStep? && a.h in s.handlers {
      HandlerStaysKnown(s.handlers[a.h], s.now, a.answer, a.fails, known);
    } else if a.TickStep? && a.t in s.ticks {
      TickStaysKnown(s.ticks[a.t], a.t, s.now, s.table, s.memory, a.answer, a.fails, a.expired, a.streamed);
    }
  }

  lemma PartiesStayKnown(s: State, a: Action, known: set<string>)
    requires Contained(s, known) && Ordinary(a, known)
    ensures forall m :: m in Step(s, a).messages ==> Familiar(Step(s, a).messages[m], known)
    ensures forall h :: h in Step(s, a).handlers ==> HandlerKnown(Step(s, a).handlers[h], known)
    ensures forall t :: t in Step(s, a).ticks ==> TickKnown(Step(s, a).ticks[t], known)
  {
    hide HandlerNext, TickNext, Wrote, RowsKnown, Familiar, StampsPast;
    if a.HandlerStep? && a.h in s.handlers {
      HandlerStaysKnown(s.handlers[a.h], s.now, a.answer, a.fails, known);
    } else if a.TickStep? && a.t in s.ticks {
      TickStaysKnown(s.ticks[a.t], a.t, s.now, s.table, s.memory, a.answer, a.fails, a.expired, a.streamed);
    }
  }

  lemma ContainedAfterStep(s: State, a: Action, known: set<string>)
    requires Contained(s, known) && Ordinary(a, known)
    ensures Contained(Step(s, a), known)
  {
    hide Step, WriteOf, Wrote, StampsPast, WritesKnown;
    StepShape(s, a);
    StatementIsKnown(s, a, known);
    KeysAfterWrite(s.table, WriteOf(s, a), s.now);
    PartiesStayKnown(s, a, known);
    StampsAfterStep(s, a, "", s.now);
  }

  /* ---- How rows move ---- */

  function Key(t: Table, id: string): Time
    requires id in t
  {
    GetOr(t[id].lastPolled, ZERO_TIME)
  }

  /** No row comes back to life, loses its job or goes forward in the polling order. */
  ghost predicate Ages(t: Table, t': Table) {
    && t'.Keys == t.Keys
    && forall id :: id in t ==>
         && (Terminal(t[id].status) ==> Terminal(t'[id].status))
         && (HasJob(t, id) ==> HasJob(t', id))
         && Key(t, id) <= Key(t', id)
  }

  /** Whom a tick is about to write, with a stamp. */
  function Stamping(ts: TickState): Option<string> {
    match ts
    case RecordingError(row, _, _, _) => Some(row.requestId)
    case Marking(row, _, _, _) => Some(row.requestId)
    case _ => None
  }

  lemma AgesAfterWrite(t: Table, w: Statement, now: Instant)
    requires WritesKnown(w, t.Keys) && StampsPast(t, now) && StampsAtMost(w, now) && !w.DoRetry?
    ensures Ages(t, Wrote(t, w, now))
    ensures forall id :: id in t && Key(Wrote(t, w, now), id) != Key(t, id) ==>
              || (w.DoPolled? && w.id == id)
              || (w.DoUpsert? && w.r.requestId == id && w.r.lastPolled != ZERO_TIME)
  {
    KeysAfterWrite(t, w, now);
    forall id | id in t ensures Key(t, id) <= now {
    }
  }

  lemma StampsAreTicks(s: State, a: Action, id: string)
    ensures var w := WriteOf(s, a);
            (w.DoPolled? && w.id == id) || (w.DoUpsert? && w.r.requestId == id && w.r.lastPolled != ZERO_TIME) ==>
              a.TickStep? && a.t in s.ticks && Stamping(s.ticks[a.t]) == Some(id)
  {
  }

  lemma AgesAfterStep(s: State, a: Action, known: set<string>)
    requires Contained(s, known) && Ordinary(a, known)
    ensures Ages(s.table, Step(s, a).table) && s.now <= Step(s, a).now
    ensures forall id :: id in s.table && Key(Step(s, a).table, id) != Key(s.table, id) ==>
              a.TickStep? && a.t in s.ticks && Stamping(s.ticks[a.t]) == Some(id)
  {
    hide Step, WriteOf, Wrote, Stamping, Ages;
    StepShape(s, a);
    WriteOrigin(s, a);
    StatementIsKnown(s, a, known);
    StatementStamps(s, a);
    AgesAfterWrite(s.table, WriteOf(s, a), s.now);
    AgesKeys(s.table, Step(s, a).table);
    forall id | id in s.table && Key(Step(s, a).table, id) != Key(s.table, id)
      ensures a.TickStep? && a.t in s.ticks && Stamping(s.ticks[a.t]) == Some(id)
    {
      StampsAreTicks(s, a, id);
    }
  }

  lemma AgesKeys(t: Table, t': Table)
    requires Ages(t, t')
    ensures t'.Keys == t.Keys
  {
  }

  lemma AgesTransitive(t: Table, t': Table, t'': Table)
    requires Ages(t, t') && Ages(t', t'')
    ensures Ages(t, t'')
  {
  }

  /** A row whose own stamp stands gets nobody new before it. */
  lemma AheadShrinks(t: Table, t': Table, id: string)
    requires Ages(t, t') && id in PollKeys(t') && Key(t', id) == Key(t, id)
    ensures id in PollKeys(t) && Ahead(PollKeys(t'), id) <= Ahead(PollKeys(t), id)
  {
  }

  /* ---- One tick ---- */

  predicate PolledSince(log: seq<Op>, start: nat, id: string) {
    exists k :: start <= k < |log| && log[k].TickPolled? && log[k].id == id
  }

  /** A row that a tick may leave in place: it had no job, or an error in the cache. */
  predicate HeldAt(s: State, id: string) {
    !HasJob(s.table, id) || id in s.memory.lastError
  }

  ghost function HeldBefore(s: State, id: string): set<string>
    requires id in PollKeys(s.table)
  {
    set x | x in Ahead(PollKeys(s.table), id) && HeldAt(s, x)
  }

  /** The rows not finished, not polled, and not heard of yet. */
  function Left(ts: TickState): seq<ForwardedRequest> {
    match ts
    case Looping(rest) => rest
    case Polling(row, rest) => [row] + rest
    case RecordingError(row, rest, _, _) => [row] + rest
    case Marking(row, rest, _, _) => [row] + rest
    case Announcing(rest, _) => rest
    case _ => []
  }

  function Unsent(ts: TickState): seq<ForwardedRequest> {
    match ts
    case Looping(rest) => rest
    case Polling(_, rest) => rest
    case RecordingError(_, rest, _, _) => rest
    case Marking(_, rest, _, _) => rest
    case Announcing(rest, _) => rest
    case _ => []
  }

  function Unheard(ts: TickState): seq<ForwardedRequest> {
    match ts
    case Polling(row, rest) => [row] + rest
    case _ => Unsent(ts)
  }

  /** Between the listing and the report. */
  predicate AtWork(ts: TickState) {
    match ts
    case Looping(_) => true
    case Polling(_, _) => true
    case RecordingError(_, _, _, stop) => !stop
    case Marking(_, _, _, _) => true
    case Announcing(_, _) => true
    case _ => false
  }

  ghost predicate Distinct(rows: seq<ForwardedRequest>) {
    forall i, j :: 0 <= i < j < |rows| ==> rows[i].requestId != rows[j].requestId
  }

  /** The row ended, was stamped since the listing, or was one to be left in place. */
  predicate Finished(s0: State, t: Table, id: string) {
    id in t && (Terminal(t[id].status) || Key(t, id) >= s0.now || HeldAt(s0, id))
  }

  ghost predicate Within(rows: seq<ForwardedRequest>, left: seq<ForwardedRequest>) {
    forall k :: 0 <= k < |left| ==> left[k] in rows
  }

  /** The tick since its listing of `rows` in state s0: what is not left is finished, what is not unsent
      was polled, and of what is unheard the cache knows what it knew. */
  ghost predicate Underway(s0: State, rows: seq<ForwardedRequest>, ts: TickState, s: State) {
    && Within(rows, Left(ts)) && Distinct(Left(ts))
    && (forall r :: r in rows && r !in Left(ts) ==> Finished(s0, s.table, r.requestId))
    && (forall r :: r in rows && r !in Unsent(ts) && r.externalId != "" ==> PolledSince(s.log, |s0.log|, r.requestId))
    && (forall r :: r in Unheard(ts) ==> (r.requestId in s.memory.lastError <==> r.requestId in s0.memory.lastError))
    && (forall id :: id !in IdsOf(rows) ==> (id in s.memory.lastError <==> id in s0.memory.lastError))
  }

  ghost predicate Since(s0: State, rows: seq<ForwardedRequest>, s: State) {
    && Ages(s0.table, s.table) && s0.now <= s.now && |s0.log| <= |s.log|
    && forall id :: id in s0.table && id !in IdsOf(rows) ==> Key(s.table, id) == Key(s0.table, id)
  }

  /** One tick alone is at work. */
  ghost predicate Alone(s: State, t: nat, ts: TickState) {
    s.ticks == map[t := ts] && s.locked
  }

  lemma AloneAfterOther(s: State, t: nat, ts: TickState, a: Action, known: set<string>)
    requires Alone(s, t, ts) && Ordinary(a, known) && !(a.TickStep? && a.t == t)
    ensures Alone(Step(s, a), t, ts) && Step(s, a).memory.lastError == s.memory.lastError
  {
    hide HandlerNext, TickNext, Wrote;
  }

  lemma LogGrows(s: State, a: Action)
    ensures s.log <= Step(s, a).log
  {
    StepShape(s, a);
    hide Step;
  }

  lemma PolledStays(log: seq<Op>, log': seq<Op>, start: nat, id: string)
    requires log <= log' && PolledSince(log, start, id)
    ensures PolledSince(log', start, id)
  {
    var k :| start <= k < |log| && log[k].TickPolled? && log[k].id == id;
    assert log'[k] == log[k];
  }

  lemma FinishedStays(s0: State, t: Table, t': Table, id: string)
    requires Finished(s0, t, id) && Ages(t, t')
    ensures Finished(s0, t', id)
  {
  }

  /** A step of anybody else. */
  lemma UnderwayAfterOther(s0: State, rows: seq<ForwardedRequest>, t: nat, ts: TickState, s: State, a: Action,
                           known: set<string>)
    requires Alone(s, t, ts) && Underway(s0, rows, ts, s) && Contained(s, known) && Ordinary(a, known)
    requires !(a.TickStep? && a.t == t)
    ensures Underway(s0, rows, ts, Step(s, a))
  {
    hide Step, Finished, PolledSince, Ages, Contained, Left, Unsent, Unheard, IdsOf, Within, Distinct;
    var s' := Step(s, a);
    AloneAfterOther(s, t, ts, a, known);
    AgesAfterStep(s, a, known);
    LogGrows(s, a);
    forall r | r in rows && r !in Left(ts) ensures Finished(s0, s'.table, r.requestId) {
      FinishedStays(s0, s.table, s'.table, r.requestId);
    }
    forall r | r in rows && r !in Unsent(ts) && r.externalId != ""
      ensures PolledSince(s'.log, |s0.log|, r.requestId)
    {
      PolledStays(s.log, s'.log, |s0.log|, r.requestId);
    }
  }

  /** How a step of the tick at work moves the three lists, and what it owes for it. */
  ghost predicate Advances(s0: State, ts: TickState, ts': TickState, s: State, s': State) {
    && (forall r :: r in Left(ts') ==> r in Left(ts)) && Distinct(Left(ts'))
    && (forall r :: r in Left(ts) && r !in Left(ts') ==> Finished(s0, s'.table, r.requestId))
    && (forall r :: r in Unsent(ts) && r !in Unsent(ts') && r.externalId != "" ==>
          PolledSince(s'.log, |s0.log|, r.requestId))
    && (forall r :: r in Unheard(ts') ==>
          r in Unheard(ts) && (r.requestId in s'.memory.lastError <==> r.requestId in s.memory.lastError))
    && (forall id :: (id in s'.memory.lastError) != (id in s.memory.lastError) ==> id in IdsOf(Left(ts)))
  }

  lemma UnderwayAfterAdvance(s0: State, rows: seq<ForwardedRequest>, ts: TickState, ts': TickState, s: State, s': State)
    requires Underway(s0, rows, ts, s) && Advances(s0, ts, ts', s, s')
    requires Ages(s.table, s'.table) && s.log <= s'.log
    ensures Underway(s0, rows, ts', s')
  {
    hide Finished, PolledSince, Ages, Left, Unsent, Unheard, Distinct;
    forall r | r in rows && r !in Left(ts') ensures Finished(s0, s'.table, r.requestId) {
      if r !in Left(ts) {
        FinishedStays(s0, s.table, s'.table, r.requestId);
      }
    }
    forall r | r in rows && r !in Unsent(ts') && r.externalId != ""
      ensures PolledSince(s'.log, |s0.log|, r.requestId)
    {
      if r !in Unsent(ts) {
        PolledStays(s.log, s'.log, |s0.log|, r.requestId);
      }
    }
    forall k | 0 <= k < |Left(ts')| ensures Left(ts')[k] in rows {
      assert Left(ts')[k] in Left(ts);
    }
    IdsWithin(rows, Left(ts));
  }

  lemma IdsWithin(rows: seq<ForwardedRequest>, left: seq<ForwardedRequest>)
    requires Within(rows, left)
    ensures IdsOf(left) <= IdsOf(rows)
  {
    forall k | 0 <= k < |left| ensures left[k].requestId in IdsOf(rows) {
      var j :| 0 <= j < |rows| && rows[j] == left[k];
    }
  }

  /** The listed rows as state s0 had them. */
  ghost predicate ListedFrom(s0: State, rows: seq<ForwardedRequest>) {
    && Distinct(rows)
    && forall r :: r in rows ==> r.requestId in s0.table && (r.externalId != "" <==> HasJob(s0.table, r.requestId))
  }

  lemma PairSplit(row: ForwardedRequest, rest: seq<ForwardedRequest>)
    ensures ([row] + rest)[0] == row && ([row] + rest)[1..] == rest
    ensures forall r :: r in [row] + rest <==> r == row || r in rest
    ensures Distinct([row] + rest) ==> Distinct(rest) && forall r :: r in rest ==> r.requestId != row.requestId
  {
    if Distinct([row] + rest) {
      forall i, j | 0 <= i < j < |rest| ensures rest[i].requestId != rest[j].requestId {
        assert ([row] + rest)[i + 1] == rest[i] && ([row] + rest)[j + 1] == rest[j];
      }
      forall r | r in rest ensures r.requestId != row.requestId {
        var k :| 0 <= k < |rest| && rest[k] == r;
        assert ([row] + rest)[0] == row && ([row] + rest)[k + 1] == r;
      }
    }
  }

  lemma FirstId(row: ForwardedRequest, rest: seq<ForwardedRequest>)
    ensures row.requestId in IdsOf([row] + rest)
  {
    assert ([row] + rest)[0] == row;
  }

  lemma SendsPoll(s: State, t: nat, rest: seq<ForwardedRequest>, a: Action, known: set<string>)
    requires Alone(s, t, Looping(rest)) && rest != [] && Ordinary(a, known) && a.TickStep? && a.t == t
    ensures var s', row := Step(s, a), rest[0];
            && s'.table == s.table && s'.memory == s.memory
            && if row.externalId == "" then Alone(s', t, Looping(rest[1..]))
               else Alone(s', t, Polling(row, rest[1..]))
                    && s'.log == s.log + [TickPolled(t, row.requestId, row.externalId, s.now)]
  {
  }

  lemma LoopAdvances(s0: State, t: nat, rest: seq<ForwardedRequest>, s: State, a: Action, known: set<string>)
    returns (ts': TickState)
    requires Alone(s, t, Looping(rest)) && rest != [] && Ordinary(a, known) && a.TickStep? && a.t == t
    requires Distinct(rest) && |s0.log| <= |s.log|
    requires rest[0].requestId in s.table && (rest[0].externalId == "" ==> !HasJob(s0.table, rest[0].requestId))
    ensures Alone(Step(s, a), t, ts') && AtWork(ts') && Advances(s0, Looping(rest), ts', s, Step(s, a))
  {
    hide Step;
    SendsPoll(s, t, rest, a, known);
    var row := rest[0];
    assert rest == [row] + rest[1..];
    PairSplit(row, rest[1..]);
    ts' := if row.externalId == "" then Looping(rest[1..]) else Polling(row, rest[1..]);
    if row.externalId != "" {
      assert Step(s, a).log[|s.log|] == TickPolled(t, row.requestId, row.externalId, s.now);
    }
  }

  lemma HearsAnswer(s: State, t: nat, row: ForwardedRequest, rest: seq<ForwardedRequest>, a: Action, known: set<string>)
    returns (ts': TickState)
    requires Alone(s, t, Polling(row, rest)) && Ordinary(a, known) && a.TickStep? && a.t == t
    ensures var s' := Step(s, a);
            && Alone(s', t, ts') && AtWork(ts') && s'.table == s.table
            && Left(ts') == (if ts'.Looping? then rest else [row] + rest) && Unsent(ts') == Unheard(ts') == rest
            && (ts'.Looping? ==> row.requestId in s.memory.lastError)
            && forall id :: id != row.requestId ==> (id in s'.memory.lastError <==> id in s.memory.lastError)
  {
    ts' := PollAnswered(row, rest, t, s.now, s.memory, a.answer).next.value;
  }

  lemma PollAdvances(s0: State, t: nat, row: ForwardedRequest, rest: seq<ForwardedRequest>, s: State, a: Action,
                     known: set<string>) returns (ts': TickState)
    requires Alone(s, t, Polling(row, rest)) && Ordinary(a, known) && a.TickStep? && a.t == t
    requires Distinct([row] + rest) && row.requestId in s.table
    requires row.requestId in s.memory.lastError <==> row.requestId in s0.memory.lastError
    ensures Alone(Step(s, a), t, ts') && AtWork(ts') && Advances(s0, Polling(row, rest), ts', s, Step(s, a))
  {
    hide Step;
    ts' := HearsAnswer(s, t, row, rest, a, known);
    PairSplit(row, rest);
    FirstId(row, rest);
  }

  lemma Stamps(s: State, t: nat, ts: TickState, a: Action, known: set<string>) returns (ts': TickState)
    requires Alone(s, t, ts) && AtWork(ts) && Stamping(ts).Some? && Ordinary(a, known) && a.TickStep? && a.t == t
    requires Stamping(ts).value in s.table
    ensures var s' := Step(s, a);
            && Alone(s', t, ts') && AtWork(ts') && Left(ts') == Unsent(ts') == Unheard(ts') == Unsent(ts)
            && s'.memory.lastError == s.memory.lastError
            && Stamping(ts).value in s'.table && Key(s'.table, Stamping(ts).value) == s.now
  {
    ts' := TickNext(ts, t, s.now, s.table, s.memory, a.answer, a.fails, a.expired, a.streamed).next.value;
  }

  lemma StampAdvances(s0: State, t: nat, ts: TickState, s: State, a: Action, known: set<string>) returns (ts': TickState)
    requires Alone(s, t, ts) && AtWork(ts) && Stamping(ts).Some? && Ordinary(a, known) && a.TickStep? && a.t == t
    requires Distinct(Left(ts)) && Stamping(ts).value in s.table && s0.now <= s.now
    ensures Alone(Step(s, a), t, ts') && AtWork(ts') && Advances(s0, ts, ts', s, Step(s, a))
  {
    hide Step;
    ts' := Stamps(s, t, ts, a, known);
    PairSplit(ts.row, ts.rest);
  }

  lemma RestAdvances(s0: State, t: nat, ts: TickState, s: State, a: Action, known: set<string>) returns (ts': TickState)
    requires Alone(s, t, ts) && (ts.Announcing? || ts == Looping([])) && Ordinary(a, known) && a.TickStep? && a.t == t
    requires Distinct(Left(ts))
    ensures Alone(Step(s, a), t, ts') && (AtWork(ts') || ts'.Reporting?) && Advances(s0, ts, ts', s, Step(s, a))
  {
    ts' := if ts.Announcing? then Looping(ts.rest) else Reporting;
  }

  /** A step of the tick at work. */
  lemma TickAdvances(s0: State, rows: seq<ForwardedRequest>, t: nat, ts: TickState, s: State, a: Action,
                     known: set<string>) returns (ts': TickState)
    requires Alone(s, t, ts) && AtWork(ts) && Ordinary(a, known) && a.TickStep? && a.t == t
    requires ListedFrom(s0, rows) && Underway(s0, rows, ts, s)
    requires s0.table.Keys == s.table.Keys && s0.now <= s.now && |s0.log| <= |s.log|
    ensures Alone(Step(s, a), t, ts') && (AtWork(ts') || ts'.Reporting?) && Advances(s0, ts, ts', s, Step(s, a))
  {
    hide Step, Finished, PolledSince, Alone, Ordinary, Advances, HasJob;
    match ts
    case Looping(rest) =>
      if rest == [] {
        ts' := RestAdvances(s0, t, ts, s, a, known);
      } else {
        assert rest[0] in Left(ts) && rest[0] in rows;
        ts' := LoopAdvances(s0, t, rest, s, a, known);
      }
    case Polling(row, rest) =>
      assert ([row] + rest)[0] == row && row in rows && row in Unheard(ts);
      ts' := PollAdvances(s0, t, row, rest, s, a, known);
    case Announcing(_, _) =>
      ts' := RestAdvances(s0, t, ts, s, a, known);
    case RecordingError(row, rest, _, _) =>
      assert ([row] + rest)[0] == row && row in rows;
      ts' := StampAdvances(s0, t, ts, s, a, known);
    case Marking(row, rest, _, _) =>
      assert ([row] + rest)[0] == row && row in rows;
      ts' := StampAdvances(s0, t, ts, s, a, known);
  }

  /* ---- From the listing to the report ---- */

  /** Ordinary steps of everybody until tick t has nothing left but its report. */
  ghost predicate Works(s: State, t: nat, acts: seq<Action>, known: set<string>)
    decreases |acts|
  {
    if acts == [] then t in s.ticks && s.ticks[t].Reporting?
    else t in s.ticks && AtWork(s.ticks[t]) && Ordinary(acts[0], known) && Works(Step(s, acts[0]), t, acts[1..], known)
  }

  lemma SinceAfterStep(s0: State, rows: seq<ForwardedRequest>, t: nat, ts: TickState, s: State, a: Action,
                       known: set<string>)
    requires Since(s0, rows, s) && Alone(s, t, ts) && AtWork(ts) && Underway(s0, rows, ts, s)
    requires Contained(s, known) && Ordinary(a, known) && s0.table.Keys == known
    ensures Since(s0, rows, Step(s, a))
  {
    hide Step, Contained, Ordinary, Ages, Key;
    var s' := Step(s, a);
    AgesAfterStep(s, a, known);
    AgesTransitive(s0.table, s.table, s'.table);
    LogGrows(s, a);
    StampingIsLeft(rows, ts);
    AgesKeys(s0.table, s.table);
    AgesKeys(s.table, s'.table);
  }

  lemma StampingIsLeft(rows: seq<ForwardedRequest>, ts: TickState)
    requires AtWork(ts) && Within(rows, Left(ts))
    ensures Stamping(ts).Some? ==> Stamping(ts).value in IdsOf(rows)
  {
    IdsWithin(rows, Left(ts));
    if Stamping(ts).Some? {
      FirstId(ts.row, ts.rest);
    }
  }

  lemma {:induction false} WorksOut(s0: State, rows: seq<ForwardedRequest>, t: nat, ts: TickState, s: State,
                                    acts: seq<Action>, known: set<string>)
    requires ListedFrom(s0, rows) && Since(s0, rows, s) && Underway(s0, rows, ts, s)
    requires Alone(s, t, ts) && (AtWork(ts) || ts.Reporting?) && Contained(s, known) && s0.table.Keys == known
    requires Works(s, t, acts, known)
    ensures var s' := Run(s, acts);
            && Since(s0, rows, s') && Underway(s0, rows, Reporting, s') && Alone(s', t, Reporting) && Contained(s', known)
    decreases |acts|
  {
    if acts != [] {
      hide Step, ListedFrom, Since, Underway, Contained, Ordinary, Advances;
      var a := acts[0];
      var s1 := Step(s, a);
      SinceParts(s0, rows, s);
      SinceAfterStep(s0, rows, t, ts, s, a, known);
      ContainedAfterStep(s, a, known);
      var ts' := ts;
      if a.TickStep? && a.t == t {
        ContainedKeys(s, known);
        ts' := TickAdvances(s0, rows, t, ts, s, a, known);
        AgesAfterStep(s, a, known);
        LogGrows(s, a);
        UnderwayAfterAdvance(s0, rows, ts, ts', s, s1);
      } else {
        AloneAfterOther(s, t, ts, a, known);
        UnderwayAfterOther(s0, rows, t, ts, s, a, known);
      }
      WorksOut(s0, rows, t, ts', s1, acts[1..], known);
    }
  }

  lemma SinceParts(s0: State, rows: seq<ForwardedRequest>, s: State)
    requires Since(s0, rows, s)
    ensures s0.now <= s.now && |s0.log| <= |s.log|
  {
  }

  lemma ContainedKeys(s: State, known: set<string>)
    requires Contained(s, known)
    ensures s.table.Keys == known
  {
  }

  ghost function RowsOf(s: State): seq<ForwardedRequest> {
    Listing(s.table, R.BATCH)
  }

  lemma ListsRows(s: State, t: nat, a: Action, known: set<string>)
    requires Alone(s, t, AtListing) && a.TickStep? && a.t == t && Ordinary(a, known)
    ensures var s' := Step(s, a);
            && Alone(s', t, Looping(RowsOf(s))) && s'.table == s.table && s'.now == s.now
            && s'.memory.lastError == s.memory.lastError && s.log <= s'.log
  {
    ListingMeaning(s.table, R.BATCH);
    hide Listing;
  }

  lemma RowsAreListed(s: State)
    ensures ListedFrom(s, RowsOf(s)) && RowsOf(s) == Left(Looping(RowsOf(s)))
    ensures IdsOf(RowsOf(s)) <= PollKeys(s.table).Keys
  {
    ListingMeaning(s.table, R.BATCH);
  }

  lemma StartsWork(s: State, t: nat, a: Action, known: set<string>)
    requires Alone(s, t, AtListing) && a.TickStep? && a.t == t && Ordinary(a, known)
    ensures var s', rows := Step(s, a), RowsOf(s);
            && ListedFrom(s, rows) && Since(s, rows, s') && Underway(s, rows, Looping(rows), s')
            && Alone(s', t, Looping(rows))
  {
    hide Step, RowsOf;
    ListsRows(s, t, a, known);
    RowsAreListed(s);
  }

  /** A tick in the midst of others: its listing, and ordinary steps until only its report is left. */
  ghost predicate IsTick(s: State, t: nat, acts: seq<Action>, known: set<string>) {
    && acts != [] && Alone(s, t, AtListing) && acts[0].TickStep? && acts[0].t == t && Ordinary(acts[0], known)
    && Works(Step(s, acts[0]), t, acts[1..], known)
  }

  lemma TickRuns(s: State, t: nat, acts: seq<Action>, known: set<string>)
    requires IsTick(s, t, acts, known) && Contained(s, known)
    ensures var s', rows := Run(s, acts), RowsOf(s);
            && ListedFrom(s, rows) && Since(s, rows, s') && Underway(s, rows, Reporting, s')
            && Alone(s', t, Reporting) && Contained(s', known)
  {
    hide Step, Contained, ListedFrom, Since, Underway, Works, RowsOf;
    StartsWork(s, t, acts[0], known);
    ContainedAfterStep(s, acts[0], known);
    ContainedKeys(s, known);
    WorksOut(s, RowsOf(s), t, Looping(RowsOf(s)), Step(s, acts[0]), acts[1..], known);
  }

  /** A listed row with a job was polled. */
  lemma ListedWasPolled(s0: State, rows: seq<ForwardedRequest>, s: State, id: string)
    requires ListedFrom(s0, rows) && Underway(s0, rows, Reporting, s) && id in IdsOf(rows) && HasJob(s0.table, id)
    ensures PolledSince(s.log, |s0.log|, id)
  {
    var k :| 0 <= k < |rows| && rows[k].requestId == id;
    assert rows[k] in rows;
  }

  lemma ListedAheadIsHeld(s0: State, rows: seq<ForwardedRequest>, s: State, id: string, x: string)
    requires Underway(s0, rows, Reporting, s) && x in IdsOf(rows)
    requires id in s.table && Key(s.table, id) < s0.now
    requires x in PollKeys(s.table) && Key(s.table, x) <= Key(s.table, id)
    ensures HeldAt(s0, x)
  {
    var k :| 0 <= k < |rows| && rows[k].requestId == x;
    assert rows[k] in rows && Finished(s0, s.table, x);
  }

  lemma UnlistedStaysHeld(s0: State, rows: seq<ForwardedRequest>, s: State, x: string)
    requires Since(s0, rows, s) && Underway(s0, rows, Reporting, s) && x !in IdsOf(rows) && x in s0.table
    ensures HeldAt(s, x) ==> HeldAt(s0, x)
  {
  }

  lemma AheadIsFinished(s0: State, rows: seq<ForwardedRequest>, s: State, id: string, x: string)
    requires Since(s0, rows, s) && Underway(s0, rows, Reporting, s)
    requires KeysBefore(s0.table, s0.now) && id in PollKeys(s0.table) && id !in IdsOf(rows)
    requires id in PollKeys(s.table) && x in Ahead(PollKeys(s.table), id)
    ensures x in Ahead(PollKeys(s0.table), id)
    ensures x in IdsOf(rows) || HeldAt(s, x) ==> HeldAt(s0, x)
  {
    hide Underway, HeldAt, IdsOf;
    assert Key(s.table, id) == Key(s0.table, id) == PollKeys(s0.table)[id];
    AheadShrinks(s0.table, s.table, id);
    if x in IdsOf(rows) {
      ListedAheadIsHeld(s0, rows, s, id, x);
    } else {
      UnlistedStaysHeld(s0, rows, s, x);
    }
  }

  /** A row that was not listed gains a place for every listed row that is not held. */
  lemma TickGains(s0: State, s: State, id: string)
    requires var rows := RowsOf(s0);
             ListedFrom(s0, rows) && Since(s0, rows, s) && Underway(s0, rows, Reporting, s) && id !in IdsOf(rows)
    requires KeysBefore(s0.table, s0.now) && id in PollKeys(s0.table) && id in PollKeys(s.table)
    ensures HeldBefore(s, id) <= HeldBefore(s0, id)
    ensures R.BATCH <= |Ahead(PollKeys(s0.table), id)|
    ensures |Ahead(PollKeys(s.table), id)| + R.BATCH - |HeldBefore(s0, id)| <= |Ahead(PollKeys(s0.table), id)|
  {
    hide Since, Underway, KeysBefore, HeldAt, Ahead;
    var rows := RowsOf(s0);
    var before, after, held := Ahead(PollKeys(s0.table), id), Ahead(PollKeys(s.table), id), HeldBefore(s0, id);
    AllAhead(s0, id);
    forall x | x in after ensures x in before && (x in IdsOf(rows) || HeldAt(s, x) ==> HeldAt(s0, x)) {
      AheadIsFinished(s0, rows, s, id, x);
    }
    assert after <= before - (IdsOf(rows) - held);
    SubsetSize(after, before - (IdsOf(rows) - held));
    SubsetSize(IdsOf(rows), before);
  }

  /** When a row is not listed, 200 others are, and all stand before it. */
  lemma AllAhead(s: State, id: string)
    requires id in PollKeys(s.table) && id !in IdsOf(RowsOf(s))
    ensures IdsOf(RowsOf(s)) <= Ahead(PollKeys(s.table), id) && |IdsOf(RowsOf(s))| == R.BATCH
  {
    var rows := RowsOf(s);
    ListingMeaning(s.table, R.BATCH);
    assert forall i :: 0 <= i < |rows| ==> rows[i].requestId in IdsOf(rows);
    IdsOfCount(rows);
    if |PollKeys(s.table)| <= R.BATCH {
      assert |PollKeys(s.table).Keys| == |PollKeys(s.table)|;
      SubsetSize(IdsOf(rows) + {id}, PollKeys(s.table).Keys);
    }
  }

  /* ---- Between two ticks ---- */

  predicate Idle(ts: TickState) {
    ts.Checking? || ts.AtListing? || ts.Reporting? || ts.Leaving?
  }

  ghost predicate AllIdle(s: State) {
    forall t :: t in s.ticks ==> Idle(s.ticks[t])
  }

  /** Ordinary steps, parked and dropped attempts among them, none of which lists. */
  ghost predicate Pauses(s: State, acts: seq<Action>, known: set<string>)
    decreases |acts|
  {
    acts != [] ==>
      && Ordinary(acts[0], known)
      && (acts[0].TickStep? && acts[0].t in s.ticks ==> !s.ticks[acts[0].t].AtListing?)
      && Pauses(Step(s, acts[0]), acts[1..], known)
  }

  /** What a pause leaves as it was. */
  ghost predicate Rests(s: State, s': State) {
    && Ages(s.table, s'.table) && s.now <= s'.now && s.log <= s'.log
    && (forall id :: id in s.table ==> Key(s'.table, id) == Key(s.table, id))
    && s'.memory.lastError == s.memory.lastError
  }

  lemma IdleStep(s: State, a: Action, known: set<string>)
    requires AllIdle(s) && Ordinary(a, known)
    requires a.TickStep? && a.t in s.ticks ==> !s.ticks[a.t].AtListing?
    ensures AllIdle(Step(s, a)) && Step(s, a).memory.lastError == s.memory.lastError
  {
    hide HandlerNext, Listing, Wrote;
  }

  lemma RestsAfterStep(s: State, a: Action, known: set<string>)
    requires AllIdle(s) && Contained(s, known) && Ordinary(a, known)
    requires a.TickStep? && a.t in s.ticks ==> !s.ticks[a.t].AtListing?
    ensures AllIdle(Step(s, a)) && Contained(Step(s, a), known) && Rests(s, Step(s, a))
  {
    hide Step, Contained, Ordinary, Ages, Key;
    IdleStep(s, a, known);
    ContainedAfterStep(s, a, known);
    AgesAfterStep(s, a, known);
    LogGrows(s, a);
  }

  lemma RestsTransitive(s: State, s': State, s'': State)
    requires Rests(s, s') && Rests(s', s'')
    ensures Rests(s, s'')
  {
    AgesTransitive(s.table, s'.table, s''.table);
    AgesKeys(s.table, s'.table);
  }

  lemma RestsReflexive(s: State)
    ensures Rests(s, s)
  {
  }

  lemma {:induction false} PauseRests(s: State, acts: seq<Action>, known: set<string>)
    requires AllIdle(s) && Contained(s, known) && Pauses(s, acts, known)
    ensures var s' := Run(s, acts); AllIdle(s') && Contained(s', known) && Rests(s, s')
    decreases |acts|
  {
    hide Step, Contained, Ordinary, Rests, AllIdle;
    if acts == [] {
      RestsReflexive(s);
    } else {
      var s1 := Step(s, acts[0]);
      RestsAfterStep(s, acts[0], known);
      PauseRests(s1, acts[1..], known);
      RestsTransitive(s, s1, Run(s1, acts[1..]));
    }
  }

  /** After a pause on a clock that moved, every stamp lies in the past. */
  lemma KeysAfterPause(s: State, s': State, known: set<string>)
    requires Contained(s, known) && Rests(s, s') && s.now < s'.now
    ensures KeysBefore(s'.table, s'.now)
  {
    forall id | id in PollKeys(s'.table) ensures Key(s'.table, id) < s'.now {
      assert id in s.table;
    }
  }

  /** A pause brings nobody before a row, and holds nobody back who was not held. */
  lemma PauseShrinks(s: State, s': State, id: string)
    requires Rests(s, s') && id in PollKeys(s'.table)
    ensures id in PollKeys(s.table) && Ahead(PollKeys(s'.table), id) <= Ahead(PollKeys(s.table), id)
    ensures HeldBefore(s', id) <= HeldBefore(s, id)
    ensures HasJob(s.table, id) ==> HasJob(s'.table, id)
  {
    AgesKeys(s.table, s'.table);
    AheadShrinks(s.table, s'.table, id);
  }

  /* ---- Whole runs ---- */

  /** A tick and the pause after it. */
  datatype Part = Part(t: nat, tick: seq<Action>, pause: seq<Action>)

  ghost function AfterPart(s: State, p: Part): State {
    Run(Run(s, p.tick), p.pause)
  }

  /** Ticks one after the other, on a clock that moves between them. */
  ghost predicate Parts(s: State, parts: seq<Part>, known: set<string>)
    decreases |parts|
  {
    parts != [] ==>
      var p := parts[0];
      && IsTick(s, p.t, p.tick, known) && Pauses(Run(s, p.tick), p.pause, known)
      && Run(s, p.tick).now < AfterPart(s, p).now
      && Parts(AfterPart(s, p), parts[1..], known)
  }

  /** In one of the parts the row is polled, or it has ended by then. */
  ghost predicate ServedWithin(s: State, parts: seq<Part>, id: string)
    decreases |parts|
  {
    && parts != []
    && var s' := AfterPart(s, parts[0]);
       PolledSince(s'.log, |s.log|, id) || id !in PollKeys(s'.table) || ServedWithin(s', parts[1..], id)
  }

  /** One part: served, or nearer by 200 less the held rows before it, none of which is new. */
  lemma PartGains(s: State, p: Part, known: set<string>, id: string)
    requires IsTick(s, p.t, p.tick, known) && Pauses(Run(s, p.tick), p.pause, known)
    requires Run(s, p.tick).now < AfterPart(s, p).now
    requires Contained(s, known) && KeysBefore(s.table, s.now) && id in PollKeys(s.table) && HasJob(s.table, id)
    ensures var s' := AfterPart(s, p);
            && Contained(s', known) && KeysBefore(s'.table, s'.now)
            && (PolledSince(s'.log, |s.log|, id) || id !in PollKeys(s'.table)
                || (HasJob(s'.table, id) && HeldBefore(s', id) <= HeldBefore(s, id)
                    && R.BATCH <= |Ahead(PollKeys(s.table), id)|
                    && |Ahead(PollKeys(s'.table), id)| + R.BATCH - |HeldBefore(s, id)| <= |Ahead(PollKeys(s.table), id)|))
  {
    hide Run, IsTick, Contained, KeysBefore, Pauses, Ahead, HeldBefore, PollKeys, HasJob;
    hide Underway, ListedFrom, RowsOf, PolledSince;
    TickRuns(s, p.t, p.tick, known);
    var s1, s', rows := Run(s, p.tick), AfterPart(s, p), RowsOf(s);
    assert AllIdle(s1);
    PauseRests(s1, p.pause, known);
    KeysAfterPause(s1, s', known);
    if id in IdsOf(rows) {
      ListedWasPolled(s, rows, s1, id);
      PolledStays(s1.log, s'.log, |s.log|, id);
    } else if id in PollKeys(s'.table) {
      PauseShrinks(s1, s', id);
      TickGains(s, s1, id);
      AgesJob(s.table, s1.table, id);
      SubsetSize(Ahead(PollKeys(s'.table), id), Ahead(PollKeys(s1.table), id));
    }
  }

  lemma AgesJob(t: Table, t': Table, id: string)
    requires Ages(t, t') && HasJob(t, id)
    ensures HasJob(t', id)
  {
  }

  lemma {:induction false} PolledInParts(s: State, parts: seq<Part>, known: set<string>, k: nat, id: string)
    requires Parts(s, parts, known) && parts != [] && Contained(s, known) && KeysBefore(s.table, s.now)
    requires id in PollKeys(s.table) && HasJob(s.table, id) && |HeldBefore(s, id)| <= k < R.BATCH
    requires |Ahead(PollKeys(s.table), id)| < R.BATCH + (|parts| - 1) * (R.BATCH - k)
    ensures ServedWithin(s, parts, id)
    decreases |parts|
  {
    hide IsTick, Contained, KeysBefore, Pauses, Ahead, HeldBefore, PollKeys, HasJob, PolledSince, AfterPart, Run;
    var p, tail := parts[0], parts[1..];
    var s' := AfterPart(s, p);
    PartGains(s, p, known, id);
    if !PolledSince(s'.log, |s.log|, id) && id in PollKeys(s'.table) {
      SubsetSize(HeldBefore(s', id), HeldBefore(s, id));
      assert |parts| > 1;
      Budget(|parts| - 1, R.BATCH - k);
      PolledInParts(s', tail, known, k, id);
    }
  }

  lemma Budget(n: nat, gain: nat)
    requires n > 0
    ensures n * gain == (n - 1) * gain + gain
  {
  }

  /* ---- Reachable states ---- */

  /** What is under way has its row: the row is persisted first, and listed rows are rows. */
  ghost predicate Rooted(s: State) {
    && (forall h :: h in s.handlers ==>
          && s.handlers[h].m in s.messages && s.messages[s.handlers[h].m] == s.handlers[h].msg
          && (s.handlers[h].Received? || s.handlers[h].Acking? || s.handlers[h].msg.id in s.table))
    && forall t :: t in s.ticks ==> TickKnown(s.ticks[t], s.table.Keys)
  }

  lemma HandlerTakesRoot(hs: HandlerState, now: Instant, table: Table, answer: Answer, fails: bool)
    requires hs.Received? || hs.Acking? || hs.msg.id in table
    ensures var e := HandlerNext(hs, now, answer, fails);
            e.next.Some? ==>
              && e.next.value.m == hs.m && e.next.value.msg == hs.msg
              && (e.next.value.Received? || e.next.value.Acking? || hs.msg.id in Wrote(table, e.write, now))
  {
  }

  lemma TickKnownStays(ts: TickState, known: set<string>, more: set<string>)
    requires TickKnown(ts, known) && known <= more
    ensures TickKnown(ts, more)
  {
  }

  lemma RootedTicks(s: State, a: Action, t: nat)
    requires Rooted(s) && t in Step(s, a).ticks
    ensures TickKnown(Step(s, a).ticks[t], Step(s, a).table.Keys)
  {
    hide HandlerNext, TickNext, Wrote, RowsKnown, WriteOf;
    StepShape(s, a);
    WroteKeepsKeys(s.table, WriteOf(s, a), s.now);
    if a.TickStep? && a.t in s.ticks && t == a.t {
      TickStaysKnown(s.ticks[t], t, s.now, s.table, s.memory, a.answer, a.fails, a.expired, a.streamed);
      TickKnownStays(Step(s, a).ticks[t], s.table.Keys, Step(s, a).table.Keys);
    } else if t in s.ticks {
      TickKnownStays(s.ticks[t], s.table.Keys, Step(s, a).table.Keys);
    }
  }

  lemma RootedAfterStep(s: State, a: Action)
    requires Rooted(s)
    ensures Rooted(Step(s, a))
  {
    hide HandlerNext, TickNext, Wrote, TickKnown, WriteOf;
    StepShape(s, a);
    WroteKeepsKeys(s.table, WriteOf(s, a), s.now);
    if a.HandlerStep? && a.h in s.handlers {
      HandlerTakesRoot(s.handlers[a.h], s.now, s.table, a.answer, a.fails);
    }
    forall t | t in Step(s, a).ticks ensures TickKnown(Step(s, a).ticks[t], Step(s, a).table.Keys) {
      RootedTicks(s, a, t);
    }
  }

  lemma {:induction false} RootedInRuns(s: State, acts: seq<Action>)
    requires Rooted(s)
    ensures Rooted(Run(s, acts))
    decreases |acts|
  {
    if acts != [] {
      hide Rooted, Step;
      RootedAfterStep(s, acts[0]);
      RootedInRuns(Step(s, acts[0]), acts[1..]);
    }
  }

  /** A reachable state is contained as soon as every message at the broker is for a request of the table. */
  lemma ReachedIsContained(before: seq<Action>)
    requires var s := Run(START, before);
             forall m :: m in s.messages ==> Familiar(s.messages[m], s.table.Keys)
    ensures var s := Run(START, before); Contained(s, s.table.Keys)
  {
    RootedInRuns(START, before);
    StampsInRuns(START, before);
    hide Run, StampsPast, TickKnown;
    var s := Run(START, before);
    forall h | h in s.handlers ensures HandlerKnown(s.handlers[h], s.table.Keys) {
      assert Familiar(s.messages[s.handlers[h].m], s.table.Keys);
    }
  }

  /** Bounded waiting in the interleaving. From a reachable state in which every message is for a request of
      the table, handlers, admins marking rows failed, crashes of handlers and the clock step between any two
      steps of the ticks. A row with a job, d rows before it and k of these without a job or with an error in
      the cache, is polled, or ends otherwise, within n ticks as soon as d < 200 + (n - 1)(200 - k), whatever
      the upstream answers but a rate limit. */
  lemma PolledAmidOthers(before: seq<Action>, parts: seq<Part>, id: string)
    requires var s := Run(START, before);
             && (forall m :: m in s.messages ==> Familiar(s.messages[m], s.table.Keys))
             && KeysBefore(s.table, s.now) && id in PollKeys(s.table) && HasJob(s.table, id)
             && parts != [] && Parts(s, parts, s.table.Keys)
    requires var s := Run(START, before);
             var k := |HeldBefore(s, id)|;
             k < R.BATCH && |Ahead(PollKeys(s.table), id)| < R.BATCH + (|parts| - 1) * (R.BATCH - k)
    ensures ServedWithin(Run(START, before), parts, id)
  {
    ReachedIsContained(before);
    hide Run;
    var s := Run(START, before);
    PolledInParts(s, parts, s.table.Keys, |HeldBefore(s, id)|, id);
  }
}
