/** Mutual exclusion of ticks and the parking window, over whole runs. Both are
    rules about each mark in the log given the marks before it; the closing
    theorems read them off between any two marks. */
module ProtocolLock {
  import opened Domain
  import opened Protocol
  import R = Reconciler
  import Client

  /* ---- Mutual exclusion ---- */

  /** The tick whose work a mark is; None for a dropped attempt and for everything outside a tick. */
  function WorkOf(op: Op): Option<nat> {
    match op
    case TickSkipped(t, _) => Some(t)
    case TickListed(t) => Some(t)
    case TickPolled(t, _, _, _) => Some(t)
    case TickParked(t, _, _) => Some(t)
    case TickRecorded(t, _) => Some(t)
    case TickMarked(t, _, _, _) => Some(t)
    case TickPublished(t, _) => Some(t)
    case TickUnlocked(t, _) => Some(t)
    case _ => None
  }

  predicate Releases(op: Op) {
    op.TickUnlocked? || op.Restarted?
  }

  /** The tick that holds the lock after the log. */
  function Holder(log: seq<Op>): Option<nat> {
    if log == [] then None
    else
      var op := log[|log| - 1];
      if op.TickLocked? then Some(op.t) else if Releases(op) then None else Holder(log[..|log| - 1])
  }

  predicate LockRule(before: seq<Op>, op: Op) {
    && (op.TickLocked? ==> Holder(before).None?)
    && (op.TickDropped? ==> Holder(before).Some?)
    && (WorkOf(op).Some? ==> Holder(before) == WorkOf(op))
  }

  /** The end of the latest parking window of this process. */
  function Horizon(log: seq<Op>): Time {
    if log == [] then ZERO_TIME
    else
      var op := log[|log| - 1];
      if op.TickParked? then op.at + op.window
      else if op.Restarted? then ZERO_TIME
      else Horizon(log[..|log| - 1])
  }

  predicate ParkRule(before: seq<Op>, op: Op) {
    && (op.TickPolled? ==> Horizon(before) <= op.at)
    && (op.TickParked? ==> Horizon(before) <= op.at && 0 < op.window <= Client.MAX_PARK)
    && (op.TickSkipped? ==> op.at < Horizon(before))
  }

  predicate Ruled(log: seq<Op>) {
    log != [] ==>
      var before, op := log[..|log| - 1], log[|log| - 1];
      Ruled(before) && LockRule(before, op) && ParkRule(before, op)
  }

  /** A tick in this state has passed the backoff check and has not been rate-limited since. */
  predicate Working(ts: TickState) {
    ts.AtListing? || ts.Looping? || ts.Polling? || ts.Marking? || ts.Announcing? || (ts.RecordingError? && !ts.stop)
  }

  ghost predicate LockInv(s: State) {
    && s.locked == Holder(s.log).Some?
    && s.ticks.Keys == (if Holder(s.log).Some? then {Holder(s.log).value} else {})
    && (s.memory.backoffUntil == Horizon(s.log) || (s.memory.backoffUntil == ZERO_TIME && Horizon(s.log) <= s.now))
    && (forall t :: t in s.ticks && Working(s.ticks[t]) ==> Horizon(s.log) <= s.now)
    && Ruled(s.log)
  }

  lemma Append(log: seq<Op>, op: Op)
    ensures (log + [op])[..|log|] == log
    ensures Holder(log + [op]) == if op.TickLocked? then Some(op.t) else if Releases(op) then None else Holder(log)
    ensures Horizon(log + [op]) == if op.TickParked? then op.at + op.window
                                   else if op.Restarted? then ZERO_TIME else Horizon(log)
    ensures Ruled(log + [op]) <==> Ruled(log) && LockRule(log, op) && ParkRule(log, op)
  {
    assert (log + [op])[..|log|] == log;
  }

  /** How a step of tick t may touch the lock and the backoff window. */
  ghost predicate Marks(ts: TickState, t: nat, now: Instant, memory: Memory, e: TickEffect) {
    && (e.op.Some? ==> WorkOf(e.op.value) == Some(t))
    && (e.next.None? <==> e.op.Some? && e.op.value.TickUnlocked?)
    && (e.op.Some? && e.op.value.TickPolled? ==> Working(ts) && e.op.value.at == now)
    && (e.op.Some? && e.op.value.TickSkipped? ==> e.op.value.at == now && memory.backoffUntil > now)
    && (if e.op.Some? && e.op.value.TickParked? then
          && Working(ts) && e.op.value.at == now && 0 < e.op.value.window <= Client.MAX_PARK
          && e.memory.backoffUntil == now + e.op.value.window
          && e.next.Some? && !Working(e.next.value)
        else
          && (e.memory.backoffUntil == memory.backoffUntil
              || (e.memory.backoffUntil == ZERO_TIME && memory.backoffUntil <= now))
          && (e.next.Some? && Working(e.next.value) ==> Working(ts) || memory.backoffUntil <= now))
  }

  lemma TickMarks(ts: TickState, t: nat, now: Instant, table: Table, memory: Memory,
                  answer: Answer, fails: bool, expired: bool, streamed: nat)
    ensures Marks(ts, t, now, memory, TickNext(ts, t, now, table, memory, answer, fails, expired, streamed))
  {
    if ts.Polling? {
      PollMarks(ts.row, ts.rest, t, now, memory, answer);
    }
  }

  lemma TickWorks(ts: TickState, t: nat, now: Instant, table: Table, memory: Memory,
                  answer: Answer, fails: bool, expired: bool, streamed: nat)
    ensures var op := TickNext(ts, t, now, table, memory, answer, fails, expired, streamed).op;
            op.Some? ==> WorkOf(op.value) == Some(t)
  {
    TickMarks(ts, t, now, table, memory, answer, fails, expired, streamed);
  }

  /** Every statement of a tick leaves a mark, so the rules below cover all of its writes. */
  lemma TickWritesAreMarked(ts: TickState, t: nat, now: Instant, table: Table, memory: Memory,
                            answer: Answer, fails: bool, expired: bool, streamed: nat)
    ensures var e := TickNext(ts, t, now, table, memory, answer, fails, expired, streamed);
            !e.write.NoWrite? ==> e.op.Some? && (e.op.value.TickRecorded? || e.op.value.TickMarked?)
  {
  }

  lemma PollMarks(row: ForwardedRequest, rest: seq<ForwardedRequest>, t: nat, now: Instant, memory: Memory,
                  answer: Answer)
    ensures var e := PollAnswered(row, rest, t, now, memory, answer);
            && e.next.Some?
            && (if answer.Limited? then
                  var w := Client.Clamped(answer.retryAfter);
                  e.op == Some(TickParked(t, now, w)) && e.memory.backoffUntil == now + w && !Working(e.next.value)
                else e.op.None? && e.memory.backoffUntil == memory.backoffUntil && Working(e.next.value))
  {
  }

  lemma LockInvAfterEffect(s: State, t: nat, e: TickEffect)
    requires LockInv(s) && t in s.ticks && Marks(s.ticks[t], t, s.now, s.memory, e)
    ensures LockInv(AfterTick(s, t, e))
  {
    hide Wrote, Holder, Horizon, Ruled;
    assert s.ticks.Keys == {t};
    assert Moved(s.ticks, t, e.next).Keys == if e.next.Some? then {t} else {};
    if e.op.Some? {
      Append(s.log, e.op.value);
    }
  }

  lemma HandlerMarks(hs: HandlerState, now: Instant, answer: Answer, fails: bool)
    ensures var op := HandlerNext(hs, now, answer, fails).op;
            op.Some? ==> op.value.Asked? || op.value.Added? || op.value.HandlerPublished?
  {
  }

  lemma LockInvAfterHandler(s: State, h: nat, e: HandlerEffect)
    requires LockInv(s) && h in s.handlers
    requires e.op.Some? ==> e.op.value.Asked? || e.op.value.Added? || e.op.value.HandlerPublished?
    ensures LockInv(AfterHandler(s, h, e))
  {
    if e.op.Some? {
      Append(s.log, e.op.value);
    }
  }

  lemma LockInvAfterOther(s: State, a: Action)
    requires LockInv(s)
    requires !(a.TickStep? && a.t in s.ticks) && !(a.HandlerStep? && a.h in s.handlers)
    ensures LockInv(Step(s, a))
  {
    hide HandlerNext, TickNext, Wrote;
    StepShape(s, a);
    if OpOf(s, a).Some? {
      Append(s.log, OpOf(s, a).value);
    }
  }

  lemma LockInvAfterStep(s: State, a: Action)
    requires LockInv(s)
    ensures LockInv(Step(s, a))
  {
    if a.TickStep? && a.t in s.ticks {
      TickMarks(s.ticks[a.t], a.t, s.now, s.table, s.memory, a.answer, a.fails, a.expired, a.streamed);
      hide TickNext, LockInv, Marks;
      LockInvAfterEffect(s, a.t, TickEffectOf(s, a.t, a.answer, a.fails, a.expired, a.streamed));
    } else if a.HandlerStep? && a.h in s.handlers {
      LockInvAfterHandler(s, a.h, HandlerNext(s.handlers[a.h], s.now, a.answer, a.fails)) by {
        HandlerMarks(s.handlers[a.h], s.now, a.answer, a.fails);
      }
    } else {
      LockInvAfterOther(s, a);
    }
  }

  lemma {:induction false} LockInvInRuns(s: State, acts: seq<Action>)
    requires LockInv(s)
    ensures LockInv(Run(s, acts))
    decreases |acts|
  {
    if acts != [] {
      LockInvAfterStep(s, acts[0]);
      LockInvInRuns(Step(s, acts[0]), acts[1..]);
    }
  }

  lemma RuledPrefix(log: seq<Op>, n: nat)
    requires Ruled(log) && n <= |log|
    ensures Ruled(log[..n])
    decreases |log|
  {
    if n < |log| {
      RuledPrefix(log[..|log| - 1], n);
      assert log[..|log| - 1][..n] == log[..n];
    } else {
      assert log[..n] == log;
    }
  }

  lemma RuleAt(log: seq<Op>, j: nat)
    requires Ruled(log) && j < |log|
    ensures LockRule(log[..j], log[j]) && ParkRule(log[..j], log[j])
  {
    RuledPrefix(log, j + 1);
    assert log[..j + 1][..j] == log[..j];
  }

  lemma {:induction false} HeldBetween(log: seq<Op>, i: nat, j: nat)
    requires Ruled(log) && i < j <= |log| && log[i].TickLocked?
    requires forall n :: i < n < j ==> !Releases(log[n])
    ensures Holder(log[..j]) == Some(log[i].t)
  {
    assert log[..j][..j - 1] == log[..j - 1];
    if i < j - 1 {
      HeldBetween(log, i, j - 1);
      RuleAt(log, j - 1);
    }
  }

  /** Between a tick's taking the lock and its release no other tick skips, lists, polls, parks, writes,
      publishes or unlocks, and none takes the lock: in every run of any number of attempts. */
  lemma MutualExclusion(acts: seq<Action>, i: nat, j: nat)
    requires i < j < |Run(START, acts).log|
    requires Run(START, acts).log[i].TickLocked?
    requires forall n :: i < n < j ==> !Releases(Run(START, acts).log[n])
    ensures var log := Run(START, acts).log;
            && !log[j].TickLocked?
            && (WorkOf(log[j]).Some? ==> WorkOf(log[j]).value == log[i].t)
  {
    LockInvInRuns(START, acts);
    var log := Run(START, acts).log;
    HeldBetween(log, i, j);
    RuleAt(log, j);
  }

  /** Only the holder of the lock writes the table or moves the memory, and each of its statements
      leaves a mark, so that no write escapes the rule above: a step of any other tick does nothing. */
  lemma WritesAreExclusive(acts: seq<Action>, a: Action)
    requires a.TickStep?
    ensures var s := Run(START, acts);
            && (Step(s, a) != s ==> Holder(s.log) == Some(a.t))
            && (WriteOf(s, a) != NoWrite ==>
                  && Holder(s.log) == Some(a.t)
                  && Step(s, a).log == s.log + [OpOf(s, a).value]
                  && (OpOf(s, a).value.TickRecorded? || OpOf(s, a).value.TickMarked?)
                  && WorkOf(OpOf(s, a).value) == Some(a.t))
  {
    LockInvInRuns(START, acts);
    var s := Run(START, acts);
    if a.t in s.ticks {
      TickWritesAreMarked(s.ticks[a.t], a.t, s.now, s.table, s.memory, a.answer, a.fails, a.expired, a.streamed);
      TickWorks(s.ticks[a.t], a.t, s.now, s.table, s.memory, a.answer, a.fails, a.expired, a.streamed);
    }
  }

  /** An attempt that finds the lock taken leaves its mark and the status snapshot of a skipped run, and
      touches nothing else. */
  lemma DroppedTick(acts: seq<Action>, t: nat)
    requires Holder(Run(START, acts).log).Some? && t !in Run(START, acts).ticks
    ensures var s := Run(START, acts);
            Step(s, Attempt(t)) ==
            s.(log := s.log + [TickDropped(t)],
               memory := s.memory.(status := R.TickStatus(s.now, 0, 0, R.NoError, true)))
  {
    LockInvInRuns(START, acts);
  }

  /* ---- Parking ---- */

  lemma {:induction false} HorizonHolds(log: seq<Op>, i: nat, j: nat)
    requires Ruled(log) && i < j <= |log| && log[i].TickParked?
    requires forall n :: i < n < j ==> !log[n].Restarted?
    ensures log[i].at + log[i].window <= Horizon(log[..j])
  {
    assert log[..j][..j - 1] == log[..j - 1];
    if i < j - 1 {
      HorizonHolds(log, i, j - 1);
      RuleAt(log, j - 1);
    }
  }

  /** After a rate limit at time u with window w, no poll of this process starts before u + w, and
      the next rate limit ends its window strictly later, across all ticks and attempts. */
  lemma ParkHolds(acts: seq<Action>, i: nat, j: nat)
    requires i < j < |Run(START, acts).log|
    requires Run(START, acts).log[i].TickParked?
    requires forall n :: i < n < j ==> !Run(START, acts).log[n].Restarted?
    ensures var log := Run(START, acts).log;
            var until := log[i].at + log[i].window;
            && log[i].at < until <= log[i].at + Client.MAX_PARK
            && (log[j].TickPolled? ==> until <= log[j].at)
            && (log[j].TickParked? ==> until <= log[j].at < log[j].at + log[j].window)
  {
    LockInvInRuns(START, acts);
    var log := Run(START, acts).log;
    HorizonHolds(log, i, j);
    RuleAt(log, i);
    RuleAt(log, j);
  }

  lemma {:induction false} HorizonSource(log: seq<Op>) returns (i: nat)
    requires Ruled(log) && Horizon(log) != ZERO_TIME
    ensures i < |log| && log[i].TickParked? && Horizon(log) == log[i].at + log[i].window
    ensures forall n :: i < n < |log| ==> !log[n].TickParked? && !log[n].Restarted?
  {
    if log[|log| - 1].TickParked? {
      i := |log| - 1;
    } else {
      i := HorizonSource(log[..|log| - 1]);
    }
  }

  /** A tick that skips for backoff does so within 600 seconds of the latest rate limit: it can never
      be parked for longer. */
  lemma SkippedOnlyWhileParked(acts: seq<Action>, j: nat) returns (i: nat)
    requires j < |Run(START, acts).log| && Run(START, acts).log[j].TickSkipped?
    ensures var log := Run(START, acts).log;
            && i < j && log[i].TickParked?
            && (forall n :: i < n < j ==> !log[n].TickParked? && !log[n].Restarted?)
            && log[j].at < log[i].at + log[i].window <= log[i].at + 600 * SECOND
  {
    LockInvInRuns(START, acts);
    var log := Run(START, acts).log;
    RuleAt(log, j);
    RuledPrefix(log, j);
    i := HorizonSource(log[..j]);
    RuleAt(log, i);
  }
}
