/** The protocol in small steps: any number of deliveries being handled and any
    number of Tick attempts, interleaved with admin actions, crashes, store
    faults, restarts and the passing of time.

    A step that is not possible changes nothing, so every sequence of actions is
    a run, and a statement about all sequences is one about all interleavings. */
module Protocol {
  import opened Domain
  import opened Rows
  import opened Queries
  import opened Consumer
  import R = Reconciler
  import Client

  /** Where one delivery of message m stands. */
  datatype HandlerState =
    | Received(m: nat, msg: Message)
    | Rejecting(m: nat, msg: Message)
    | Forwarding(m: nat, msg: Message)
    | Calling(m: nat, msg: Message)
    | Answered(m: nat, msg: Message, answer: Answer)
    | Publishing(m: nat, msg: Message, event: Event)
    | Acking(m: nat, msg: Message)

  /** Where one tick that won the lock stands; `rest` are the listed rows still to come. */
  datatype TickState =
    | Checking
    | AtListing
    | Looping(rest: seq<ForwardedRequest>)
    | Polling(row: ForwardedRequest, rest: seq<ForwardedRequest>)
    | RecordingError(row: ForwardedRequest, rest: seq<ForwardedRequest>, err: ErrorText, stop: bool)
    | Marking(row: ForwardedRequest, rest: seq<ForwardedRequest>, status: Status, bookId: string)
    | Announcing(rest: seq<ForwardedRequest>, event: Event)
    | Reporting
    | Leaving

  /** What the run leaves behind, in order. */
  datatype Op =
    | Asked(m: nat, id: string)
    | Added(m: nat, externalId: string)
    | HandlerPublished(m: nat, event: Event)
    | TickLocked(t: nat)
    | TickDropped(t: nat)
    | TickSkipped(t: nat, at: Instant)
    | TickListed(t: nat)
    | TickPolled(t: nat, id: string, externalId: string, at: Instant)
    | TickParked(t: nat, at: Instant, window: int)
    | TickRecorded(t: nat, id: string)
    | TickMarked(t: nat, id: string, status: Status, ok: bool)
    | TickPublished(t: nat, event: Event)
    | TickUnlocked(t: nat, err: Option<R.TickError>)
    | AdminRetried(id: string)
    | Restarted

  /** A statement against the table; a faulting one is NoWrite. */
  datatype Statement =
    | NoWrite
    | DoUpsert(r: ForwardedRequest)
    | DoPolled(id: string, externalId: string, status: Status)
    | DoRetry(id: string)
    | DoMarkFailed(id: string, reason: string)

  function Wrote(t: Table, w: Statement, now: Instant): Table {
    match w
    case NoWrite => t
    case DoUpsert(r) => Upserted(t, r, now)
    case DoPolled(id, externalId, status) => Polled(t, id, externalId, status, now)
    case DoRetry(id) => Retried(t, id, now)
    case DoMarkFailed(id, reason) => MarkedFailed(t, id, reason, now)
  }

  function Unless(fails: bool, w: Statement): Statement {
    if fails then NoWrite else w
  }

  /** One step of a handler: what it writes, what it leaves in the log, where it goes (None: it
      ended), and whether it acknowledged. */
  datatype HandlerEffect = HandlerEffect(next: Option<HandlerState>, write: Statement, op: Option<Op>, acks: bool)

  function HandlerNext(hs: HandlerState, now: Instant, answer: Answer, fails: bool): HandlerEffect {
    match hs
    case Received(m, msg) =>
      if !msg.targeted || msg.id == "" then HandlerEffect(Some(Acking(m, msg)), NoWrite, None, false)
      else if fails then HandlerEffect(None, NoWrite, None, false)
      else
        HandlerEffect(Some(if msg.complete then Forwarding(m, msg) else Rejecting(m, msg)),
                      DoUpsert(Submission(msg.id, now)), None, false)
    case Rejecting(m, msg) =>
      HandlerEffect(Some(Publishing(m, msg, RequestFailed(msg.id, NO_METADATA))),
                    Unless(fails, DoUpsert(Failure(msg.id, NO_METADATA, now))), None, false)
    case Forwarding(m, msg) => HandlerEffect(Some(Calling(m, msg)), NoWrite, Some(Asked(m, msg.id)), false)
    case Calling(m, msg) =>
      HandlerEffect(Some(Answered(m, msg, answer)), NoWrite,
                    if answer.Success? then Some(Added(m, answer.id)) else None, false)
    case Answered(m, msg, a) =>
      if fails then HandlerEffect(None, NoWrite, None, false)
      else
        var (write, event) := Outcome(msg.id, a, now);
        HandlerEffect(Some(Publishing(m, msg, event)), DoUpsert(write), None, false)
    case Publishing(m, msg, event) =>
      HandlerEffect(Some(Acking(m, msg)), NoWrite, Some(HandlerPublished(m, event)), false)
    case Acking(_, _) => HandlerEffect(None, NoWrite, None, true)
  }

  /** The locals of the tick that holds the lock. */
  datatype Frame = Frame(startedAt: Time, listed: nat, firstErr: Option<R.TickError>)

  /** The reconciler's memory: the error cache, the end of the backoff window, the status snapshot the
      admin page reads, and the locals of its tick. */
  datatype Memory = Memory(
    lastError: map<string, ErrorText>, backoffUntil: Time, status: R.TickStatus, frame: Frame)

  function Noted(memory: Memory, failed: bool, e: R.TickError): Memory {
    memory.(frame := memory.frame.(firstErr := R.FirstError(memory.frame.firstErr, failed, e)))
  }

  function Skipped(memory: Memory, now: Instant, why: R.LastError): Memory {
    memory.(status := R.TickStatus(now, 0, 0, why, true))
  }

  /** The snapshot at the end of a tick. */
  function Reported(memory: Memory, now: Instant): Memory {
    var f := memory.frame;
    memory.(status := R.TickStatus(now, now - f.startedAt, f.listed,
                                   if f.firstErr.Some? then R.TickFailed(f.firstErr.value) else R.NoError, false))
  }

  /** One step of the tick t that holds the lock; going nowhere is unlocking. */
  datatype TickEffect = TickEffect(next: Option<TickState>, write: Statement, op: Option<Op>, memory: Memory)

  ghost function TickNext(ts: TickState, t: nat, now: Instant, table: Table, memory: Memory,
                          answer: Answer, fails: bool, expired: bool, streamed: nat): TickEffect
  {
    match ts
    case Checking =>
      var remain := R.Remaining(memory.backoffUntil, now);
      if remain > 0 then
        TickEffect(Some(Leaving), NoWrite, Some(TickSkipped(t, now)),
                   Skipped(memory, now, R.Backoff(remain)).(frame := IDLE))
      else
        TickEffect(Some(AtListing), NoWrite, None,
                   memory.(backoffUntil := ZERO_TIME, frame := Frame(now, 0, None)))
    case AtListing =>
      if fails then TickEffect(Some(Reporting), NoWrite, None, Noted(memory, true, R.ListFailed))
      else
        var rows := Streamed(table, R.BATCH, streamed);
        TickEffect(Some(Looping(rows)), NoWrite, Some(TickListed(t)),
                   memory.(frame := memory.frame.(listed := |rows|)))
    case Looping(rest) =>
      if rest == [] || expired then TickEffect(Some(Reporting), NoWrite, None, memory)
      else if rest[0].externalId == "" then TickEffect(Some(Looping(rest[1..])), NoWrite, None, memory)
      else
        TickEffect(Some(Polling(rest[0], rest[1..])), NoWrite,
                   Some(TickPolled(t, rest[0].requestId, rest[0].externalId, now)), memory)
    case Polling(row, rest) => PollAnswered(row, rest, t, now, memory, answer)
    case RecordingError(row, rest, err, stop) =>
      TickEffect(Some(if stop then Reporting else Looping(rest)), Unless(fails, DoUpsert(R.ErrorWrite(row, err, now))),
                 Some(TickRecorded(t, row.requestId)),
                 Noted(memory, fails && !stop, R.UpsertAfterUpstreamError))
    case Marking(row, rest, status, bookId) =>
      TickEffect(Some(if status == row.status then Looping(rest)
                      else Announcing(rest, R.EventFor(row.requestId, row.externalId, status, bookId))),
                 Unless(fails, DoPolled(row.requestId, row.externalId, status)),
                 Some(TickMarked(t, row.requestId, status, !fails)),
                 Noted(memory, fails, if status == row.status then R.MarkPolledNoTransition else R.MarkPolledStatusChange))
    case Announcing(rest, event) => TickEffect(Some(Looping(rest)), NoWrite, Some(TickPublished(t, event)), memory)
    case Reporting => TickEffect(Some(Leaving), NoWrite, None, Reported(memory, now))
    case Leaving => TickEffect(None, NoWrite, Some(TickUnlocked(t, memory.frame.firstErr)), memory)
  }

  /** The upstream's answer to a poll. */
  function PollAnswered(row: ForwardedRequest, rest: seq<ForwardedRequest>, t: nat, now: Instant,
                        memory: Memory, answer: Answer): TickEffect
  {
    match answer
    case Limited(retryAfter, err) =>
      var w := Client.Clamped(retryAfter);
      TickEffect(Some(if R.ErrorChanged(memory.lastError, row.requestId, err)
                      then RecordingError(row, rest, err, true) else Reporting),
                 NoWrite, Some(TickParked(t, now, w)),
                 Noted(memory, true, R.RateLimit(err))
                 .(lastError := memory.lastError[row.requestId := err], backoffUntil := now + w))
    case Refused(err) =>
      TickEffect(Some(if R.ErrorChanged(memory.lastError, row.requestId, err)
                      then RecordingError(row, rest, err, false) else Looping(rest)),
                 NoWrite, None, memory.(lastError := memory.lastError[row.requestId := err]))
    case Success(_, upstream, bookId) =>
      TickEffect(Some(Marking(row, rest, R.Target(row.status, upstream), bookId)), NoWrite, None,
                 memory.(lastError := memory.lastError - {row.requestId}))
  }

  datatype State = State(
    now: Instant,
    table: Table,
    messages: map<nat, Message>,
    acked: set<nat>,
    handlers: map<nat, HandlerState>,
    locked: bool,
    ticks: map<nat, TickState>,
    memory: Memory,
    log: seq<Op>)

  const IDLE := Frame(ZERO_TIME, 0, None)
  const BLANK := Memory(map[], ZERO_TIME, R.TickStatus(ZERO_TIME, 0, 0, R.NoError, false), IDLE)
  const START := State(1, map[], map[], {}, map[], false, map[], BLANK, [])

  datatype Action =
    | Submit(m: nat, message: Message)
    | Deliver(h: nat, msgId: nat)
    | HandlerStep(h: nat, answer: Answer, fails: bool)
    | HandlerCrash(h: nat)
    | Attempt(t: nat)
    | TickStep(t: nat, answer: Answer, fails: bool, expired: bool, streamed: nat)
    | AdminRetry(id: string)
    | AdminMarkFailed(id: string, reason: string)
    | Elapse(d: nat)
    | Restart

  function Moved<V>(m: map<nat, V>, k: nat, next: Option<V>): map<nat, V> {
    if next.Some? then m[k := next.value] else m - {k}
  }

  function Logged(log: seq<Op>, op: Option<Op>): seq<Op> {
    if op.Some? then log + [op.value] else log
  }

  function AfterHandler(s: State, h: nat, e: HandlerEffect): State
    requires h in s.handlers
  {
    s.(handlers := Moved(s.handlers, h, e.next),
       table := Wrote(s.table, e.write, s.now),
       log := Logged(s.log, e.op),
       acked := if e.acks then s.acked + {s.handlers[h].m} else s.acked)
  }

  function AfterTick(s: State, t: nat, e: TickEffect): State {
    s.(ticks := Moved(s.ticks, t, e.next),
       table := Wrote(s.table, e.write, s.now),
       log := Logged(s.log, e.op),
       memory := e.memory,
       locked := e.next.Some?)
  }

  ghost function TickEffectOf(s: State, t: nat, answer: Answer, fails: bool, expired: bool, streamed: nat): TickEffect
    requires t in s.ticks
  {
    TickNext(s.ticks[t], t, s.now, s.table, s.memory, answer, fails, expired, streamed)
  }

  ghost function Step(s: State, a: Action): State {
    match a
    case Submit(m, message) =>
      if m in s.messages then s else s.(messages := s.messages[m := message])
    case Deliver(h, m) =>
      if h in s.handlers || m !in s.messages then s
      else s.(handlers := s.handlers[h := Received(m, s.messages[m])])
    case HandlerStep(h, answer, fails) =>
      if h in s.handlers then AfterHandler(s, h, HandlerNext(s.handlers[h], s.now, answer, fails)) else s
    case HandlerCrash(h) => s.(handlers := s.handlers - {h})
    case Attempt(t) =>
      if t in s.ticks then s
      else if s.locked then s.(log := s.log + [TickDropped(t)], memory := Skipped(s.memory, s.now, R.NoError))
      else s.(locked := true, ticks := s.ticks[t := Checking], log := s.log + [TickLocked(t)])
    case TickStep(t, answer, fails, expired, streamed) =>
      if t in s.ticks then AfterTick(s, t, TickEffectOf(s, t, answer, fails, expired, streamed)) else s
    case AdminRetry(id) =>
      if Retryable(s.table, id) then
        s.(table := Wrote(s.table, DoRetry(id), s.now), log := s.log + [AdminRetried(id)])
      else s
    case AdminMarkFailed(id, reason) => s.(table := Wrote(s.table, DoMarkFailed(id, reason), s.now))
    case Elapse(d) => s.(now := s.now + d)
    case Restart =>
      s.(handlers := map[], locked := false, ticks := map[], memory := BLANK, log := s.log + [Restarted])
  }

  /** The statement a step runs. */
  ghost function WriteOf(s: State, a: Action): Statement {
    match a
    case HandlerStep(h, answer, fails) =>
      if h in s.handlers then HandlerNext(s.handlers[h], s.now, answer, fails).write else NoWrite
    case TickStep(t, answer, fails, expired, streamed) =>
      if t in s.ticks then TickEffectOf(s, t, answer, fails, expired, streamed).write else NoWrite
    case AdminRetry(id) => if Retryable(s.table, id) then DoRetry(id) else NoWrite
    case AdminMarkFailed(id, reason) => DoMarkFailed(id, reason)
    case _ => NoWrite
  }

  /** The mark a step leaves in the log. */
  ghost function OpOf(s: State, a: Action): Option<Op> {
    match a
    case HandlerStep(h, answer, fails) =>
      if h in s.handlers then HandlerNext(s.handlers[h], s.now, answer, fails).op else None
    case TickStep(t, answer, fails, expired, streamed) =>
      if t in s.ticks then TickEffectOf(s, t, answer, fails, expired, streamed).op else None
    case Attempt(t) => if t in s.ticks then None else Some(if s.locked then TickDropped(t) else TickLocked(t))
    case AdminRetry(id) => if Retryable(s.table, id) then Some(AdminRetried(id)) else None
    case Restart => Some(Restarted)
    case _ => None
  }

  /** Every step is one statement and at most one mark, on a clock that does not go back. */
  lemma StepShape(s: State, a: Action)
    ensures var s' := Step(s, a);
            && s'.table == Wrote(s.table, WriteOf(s, a), s.now)
            && s'.log == Logged(s.log, OpOf(s, a))
            && s.now <= s'.now
  {
  }

  /** Retry and Mark failed are the admin's alone. */
  lemma WriteOrigin(s: State, a: Action)
    ensures WriteOf(s, a).DoRetry? ==> a == AdminRetry(WriteOf(s, a).id)
    ensures WriteOf(s, a).DoMarkFailed? ==> a.AdminMarkFailed? && a.id == WriteOf(s, a).id
  {
  }

  /** A run from s; the reachable states are the runs from START. */
  ghost function Run(s: State, acts: seq<Action>): State
    decreases |acts|
  {
    if acts == [] then s else Run(Step(s, acts[0]), acts[1..])
  }

  lemma {:induction false} RunConcat(s: State, a: seq<Action>, b: seq<Action>)
    ensures Run(s, a + b) == Run(Run(s, a), b)
    decreases |a|
  {
    if a == [] {
      assert a + b == b;
    } else {
      assert (a + b)[0] == a[0] && (a + b)[1..] == a[1..] + b;
      RunConcat(Step(s, a[0]), a[1..], b);
    }
  }

  lemma RunStep(s: State, a: Action)
    ensures Run(s, [a]) == Step(s, a)
  {
    assert [a][1..] == [];
    assert Run(s, [a]) == Run(Step(s, a), []);
  }

  /** No message for the request is delivered any more. */
  ghost predicate Undelivered(s: State, acts: seq<Action>, id: string)
    decreases |acts|
  {
    acts != [] ==>
      && (acts[0].Deliver? && acts[0].msgId in s.messages ==> s.messages[acts[0].msgId].id != id)
      && Undelivered(Step(s, acts[0]), acts[1..], id)
  }
}
