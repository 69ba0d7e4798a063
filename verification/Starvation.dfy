/** Which rows are polled at all: a row with a job is served exactly when fewer
    than 200 rows that ticks leave in place stand before it. */
module Starvation {
  import opened Domain
  import opened Ordering
  import opened Rows
  import opened Queries
  import opened Worlds
  import opened Consumer
  import opened Reconciler
  import opened Runs
  import opened Waiting

  /** The world after n ticks with nothing between them. */
  ghost function Ticks(w: World, env: nat -> TickInput, n: nat): World {
    if n == 0 then w else TickOf(Ticks(w, env, n - 1), env(n - 1)).world
  }

  ghost function RoundAt(w: World, env: nat -> TickInput, n: nat): Round {
    Round(Ticks(w, env, n), env(n))
  }

  /** Which refusals, by id and text, may repeat the one the cache holds. */
  type Repeats = (string, string) -> bool

  /** A row that a tick may list and leave in place: it has no job, or the cache holds an error for it
      that may be repeated. */
  predicate Held(w: World, may: Repeats, id: string) {
    && id in w.table
    && (!HasJob(w.table, id) || (id in w.lastError && may(id, w.lastError[id])))
  }

  /** The held rows that stand before a row. */
  ghost function HeldAhead(w: World, may: Repeats, id: string): set<string>
    requires id in PollKeys(w.table)
  {
    set x | x in Ahead(PollKeys(w.table), id) && Held(w, may, x)
  }

  /** Only such refusals are repeated in this tick. */
  ghost predicate RepeatsWithin(r: Round, may: Repeats) {
    forall j: nat :: RepeatsWithinAt(r, may, j)
  }

  ghost predicate RepeatsWithinAt(r: Round, may: Repeats, j: nat) {
    var rows, answer := Listing(r.world.table, BATCH), r.input.rows(j).answer;
    j < |rows| && answer.Refused? && !ErrorChanged(r.world.lastError, rows[j].requestId, answer.errText) ==>
      may(rows[j].requestId, answer.errText)
  }

  /** Every poll of a dead row is refused with its text. */
  ghost predicate Refuses(r: Round, dead: map<string, ErrorText>) {
    forall j: nat :: RefusesAt(r, dead, j)
  }

  ghost predicate RefusesAt(r: Round, dead: map<string, ErrorText>, j: nat) {
    var rows := Listing(r.world.table, BATCH);
    j < |rows| && rows[j].requestId in dead ==> r.input.rows(j).answer == Refused(dead[rows[j].requestId])
  }

  /** The texts of the dead rows. */
  function TextsOf(dead: map<string, ErrorText>): Repeats {
    (id: string, text: string) => id in dead && dead[id] == text
  }

  /** The upstream refuses the dead rows for good, and no other refusal repeats the one before it. */
  ghost predicate AnswersBy(r: Round, dead: map<string, ErrorText>) {
    Refuses(r, dead) && RepeatsWithin(r, TextsOf(dead))
  }

  /* ---- A tick leaves held rows where they are ---- */

  lemma {:induction false} PolledRowIsListed(p: Progress, rows: seq<ForwardedRequest>, env: nat -> RowInput,
                                             k: nat, id: string)
    requires k <= |rows| && forall j :: k <= j < |rows| ==> rows[j].requestId != id
    ensures p.world.calls <= RunRows(p, rows, env, k).world.calls
    ensures !PollSince(|p.world.calls|, RunRows(p, rows, env, k).world.calls, id)
    ensures id in RunRows(p, rows, env, k).world.lastError <==> id in p.world.lastError
    ensures id in p.world.lastError ==> RunRows(p, rows, env, k).world.lastError[id] == p.world.lastError[id]
    decreases |rows| - k
  {
    if k < |rows| && !p.stopped {
      RowStepFrame(p, rows[k], env(k));
      PolledRowIsListed(RowStep(p, rows[k], env(k)), rows, env, k + 1, id);
    }
  }

  /** A tick neither polls a row it did not list nor touches its cache entry. */
  lemma UnlistedIsUntouched(w: World, i: TickInput, id: string)
    requires id in w.table && !Listed(w.table, id)
    ensures var w' := TickOf(w, i).world;
            && Lookup(w'.table, id) == Some(w.table[id])
            && !PollSince(|w.calls|, w'.calls, id)
            && (id in w'.lastError <==> id in w.lastError)
            && (id in w.lastError ==> w'.lastError[id] == w.lastError[id])
  {
    TickLeavesAlone(w, i, id);
    PolledRowIsListed(Progress(Unparked(w), None, false), Streamed(w.table, BATCH, i.streamed), i.rows, 0, id);
  }

  lemma {:induction false} RefusedRowStays(p: Progress, rows: seq<ForwardedRequest>, env: nat -> RowInput,
                                           k: nat, id: string, text: ErrorText)
    requires k <= |rows| && id in p.world.lastError && p.world.lastError[id] == text
    requires forall j :: k <= j < |rows| && rows[j].requestId == id ==> env(j).answer == Refused(text)
    ensures var w' := RunRows(p, rows, env, k).world;
            && Lookup(w'.table, id) == Lookup(p.world.table, id)
            && id in w'.lastError && w'.lastError[id] == text
    decreases |rows| - k
  {
    if k < |rows| && !p.stopped {
      RowStepFrame(p, rows[k], env(k));
      RefusedRowStays(RowStep(p, rows[k], env(k)), rows, env, k + 1, id, text);
    }
  }

  /** A held row comes out of a tick as it went in, whatever else the tick meets. */
  lemma HeldStays(r: Round, dead: map<string, ErrorText>, id: string)
    requires Refuses(r, dead) && Held(r.world, TextsOf(dead), id)
    ensures Lookup(After(r).table, id) == Some(r.world.table[id]) && Held(After(r), TextsOf(dead), id)
  {
    if HasJob(r.world.table, id) {
      var rows := Streamed(r.world.table, BATCH, r.input.streamed);
      forall j: nat | j < |rows| && rows[j].requestId == id ensures r.input.rows(j).answer == Refused(dead[id]) {
        assert RefusesAt(r, dead, j);
      }
      RefusedRowStays(Progress(Unparked(r.world), None, false), rows, r.input.rows, 0, id, dead[id]);
    } else {
      TickLeavesAlone(r.world, r.input, id);
    }
  }

  /** Behind 200 held rows a tick does not see a row, and the 200 are still before it afterwards. */
  lemma StarvedTick(r: Round, dead: map<string, ErrorText>, id: string)
    requires id in PollKeys(r.world.table) && |HeldAhead(r.world, TextsOf(dead), id)| >= BATCH
    requires Refuses(r, dead)
    ensures !PolledIn(r, id) && Lookup(After(r).table, id) == Some(r.world.table[id])
    ensures id in PollKeys(After(r).table)
    ensures HeldAhead(r.world, TextsOf(dead), id) <= HeldAhead(After(r), TextsOf(dead), id)
  {
    SubsetSize(HeldAhead(r.world, TextsOf(dead), id), Ahead(PollKeys(r.world.table), id));
    ListedByRank(r.world.table, BATCH, id);
    UnlistedIsUntouched(r.world, r.input, id);
    forall x | x in HeldAhead(r.world, TextsOf(dead), id) ensures x in HeldAhead(After(r), TextsOf(dead), id) {
      HeldStays(r, dead, x);
    }
  }

  /** Behind 200 held rows a row is never polled nor touched, whatever else any number of ticks meet:
      faults, rate limits, cut-offs and all. */
  lemma {:induction false} Starved(w: World, env: nat -> TickInput, dead: map<string, ErrorText>, id: string, n: nat)
    requires id in PollKeys(w.table) && |HeldAhead(w, TextsOf(dead), id)| >= BATCH
    requires forall m: nat :: Refuses(RoundAt(w, env, m), dead)
    ensures !PolledIn(RoundAt(w, env, n), id)
    ensures Lookup(Ticks(w, env, n).table, id) == Some(w.table[id])
    ensures HeldAhead(w, TextsOf(dead), id) <= HeldAhead(Ticks(w, env, n), TextsOf(dead), id)
  {
    hide TickOf, HeldAhead, Refuses, PolledIn;
    if n > 0 {
      Starved(w, env, dead, id, n - 1);
      var r := RoundAt(w, env, n - 1);
      SubsetSize(HeldAhead(w, TextsOf(dead), id), HeldAhead(r.world, TextsOf(dead), id));
      StarvedTick(r, dead, id);
      assert After(r) == Ticks(w, env, n);
    }
    var r := RoundAt(w, env, n);
    SubsetSize(HeldAhead(w, TextsOf(dead), id), HeldAhead(r.world, TextsOf(dead), id));
    StarvedTick(r, dead, id);
  }

  /* ---- Every other row leaves the head of the order once it was there ---- */

  /** A listed row that keeps its place is held. */
  lemma UnstampedIsHeld(r: Round, may: Repeats, x: string)
    requires Complete(r) && KeysBefore(r.world.table, r.input.startedAt) && RepeatsWithin(r, may)
    requires x in Unstamped(r)
    ensures Held(r.world, may, x)
  {
    var rows := Listing(r.world.table, BATCH);
    var j: nat :| j < |rows| && rows[j].requestId == x;
    ListingIsFresh(r.world.table);
    assert FreshRow(r.world.table, rows[j]);
    hide TickOf;
    ListedAfterTick(r, j);
    assert RepeatsWithinAt(r, may, j);
  }

  lemma UnstampedAreHeldAhead(r: Round, may: Repeats, id: string)
    requires Complete(r) && KeysBefore(r.world.table, r.input.startedAt) && RepeatsWithin(r, may)
    requires id in PollKeys(r.world.table) && !Listed(r.world.table, id)
    ensures |Unstamped(r)| <= |HeldAhead(r.world, may, id)|
  {
    ListingMeaning(r.world.table, BATCH);
    forall x | x in Unstamped(r) ensures x in HeldAhead(r.world, may, id) {
      UnstampedIsHeld(r, may, x);
    }
    SubsetSize(Unstamped(r), HeldAhead(r.world, may, id));
  }

  /** No row comes to be held before a row that is not listed. */
  lemma HeldAheadShrinks(r: Round, may: Repeats, id: string)
    requires Complete(r) && KeysBefore(r.world.table, r.input.startedAt) && RepeatsWithin(r, may)
    requires id in PollKeys(r.world.table) && !Listed(r.world.table, id)
    ensures id in PollKeys(After(r).table) && HeldAhead(After(r), may, id) <= HeldAhead(r.world, may, id)
  {
    hide TickOf, RunRows, Complete, KeysBefore, RepeatsWithin;
    RankDrops(r, id);
    forall x | x in HeldAhead(After(r), may, id) ensures x in HeldAhead(r.world, may, id) {
      AheadAfterTick(r, id, x);
      ListedIdsCount(r.world.table);
      if Listed(r.world.table, x) {
        assert x in Unstamped(r);
        UnstampedIsHeld(r, may, x);
      } else {
        UnlistedIsUntouched(r.world, r.input, x);
      }
    }
  }

  ghost predicate OrderlyAt(env: nat -> TickInput, n: nat) {
    && !env(n).listFails && env(n).streamed >= BATCH && env(n).startedAt <= env(n).endedAt < env(n + 1).startedAt
    && forall k :: Steady(env(n), k)
  }

  /** Ticks on a strictly increasing clock, none of them parked, rate-limited, cut off or hit by a
      store fault or a broken row stream; only the inputs and the world the first one finds are asked. */
  ghost predicate Orderly(w: World, env: nat -> TickInput) {
    && Remaining(w.backoffUntil, env(0).startedAt) == 0
    && KeysBefore(w.table, env(0).startedAt)
    && forall n: nat :: OrderlyAt(env, n)
  }

  lemma {:induction false} NeverParked(p: Progress, rows: seq<ForwardedRequest>, i: TickInput, k: nat)
    requires k <= |rows| && forall n :: Steady(i, n)
    ensures RunRows(p, rows, i.rows, k).world.backoffUntil == p.world.backoffUntil
    decreases |rows| - k
  {
    if k < |rows| && !p.stopped {
      assert Steady(i, k);
      NeverParked(RowStep(p, rows[k], i.rows(k)), rows, i, k + 1);
    }
  }

  lemma {:induction false} OrderlyIsComplete(w: World, env: nat -> TickInput, n: nat)
    requires Orderly(w, env)
    ensures Complete(RoundAt(w, env, n)) && KeysBefore(Ticks(w, env, n).table, env(n).startedAt)
  {
    assert OrderlyAt(env, n);
    if n > 0 {
      assert OrderlyAt(env, n - 1);
      OrderlyIsComplete(w, env, n - 1);
      var r := RoundAt(w, env, n - 1);
      KeysAfterTick(r);
      NeverParked(Progress(Unparked(r.world), None, false),
                  Streamed(r.world.table, BATCH, r.input.streamed), r.input, 0);
    }
  }

  /** What holds of a row as long as it has not been polled. */
  ghost predicate StillWaiting(w: World, w': World, may: Repeats, id: string)
    requires id in PollKeys(w.table)
  {
    && id in PollKeys(w'.table) && HasJob(w'.table, id)
    && HeldAhead(w', may, id) <= HeldAhead(w, may, id)
  }

  lemma WaitsOn(r: Round, may: Repeats, id: string)
    requires Complete(r) && KeysBefore(r.world.table, r.input.startedAt) && RepeatsWithin(r, may)
    requires id in PollKeys(r.world.table) && HasJob(r.world.table, id) && !PolledIn(r, id)
    ensures StillWaiting(r.world, After(r), may, id)
    ensures |Unstamped(r)| <= |HeldAhead(r.world, may, id)|
  {
    hide TickOf, Complete, KeysBefore, RepeatsWithin, PolledIn, HeldAhead, Unstamped;
    if Listed(r.world.table, id) {
      ListedIsPolled(r, id);
    }
    TickLeavesAlone(r.world, r.input, id);
    HeldAheadShrinks(r, may, id);
    UnstampedAreHeldAhead(r, may, id);
  }

  lemma {:induction false} WaitsLong(w: World, env: nat -> TickInput, may: Repeats, id: string, n: nat)
    requires Orderly(w, env) && id in PollKeys(w.table) && HasJob(w.table, id)
    requires forall m: nat :: RepeatsWithin(RoundAt(w, env, m), may)
    requires forall m: nat :: m < n ==> !PolledIn(RoundAt(w, env, m), id)
    ensures StillWaiting(w, Ticks(w, env, n), may, id)
  {
    hide TickOf, Orderly, Complete, KeysBefore, RepeatsWithin, PolledIn, HeldAhead;
    if n > 0 {
      WaitsLong(w, env, may, id, n - 1);
      OrderlyIsComplete(w, env, n - 1);
      WaitsOn(RoundAt(w, env, n - 1), may, id);
      assert After(RoundAt(w, env, n - 1)) == Ticks(w, env, n);
    }
  }

  ghost function Rounds(w: World, env: nat -> TickInput, n: nat): (rounds: seq<Round>)
    ensures |rounds| == n && forall m :: 0 <= m < n ==> rounds[m] == RoundAt(w, env, m)
  {
    seq(n, m requires 0 <= m < n => RoundAt(w, env, m))
  }

  lemma NothingBetween(w: World, env: nat -> TickInput, n: nat)
    requires n > 0 && OrderlyAt(env, n - 1)
    ensures Follows(RoundAt(w, env, n - 1), RoundAt(w, env, n))
  {
    hide TickOf;
    assert After(RoundAt(w, env, n - 1)) == Ticks(w, env, n);
  }

  lemma UnpolledIsTickRun(w: World, env: nat -> TickInput, may: Repeats, id: string, n: nat)
    requires Orderly(w, env) && id in PollKeys(w.table) && HasJob(w.table, id)
    requires forall m: nat :: RepeatsWithin(RoundAt(w, env, m), may)
    requires forall m: nat :: m < n ==> !PolledIn(RoundAt(w, env, m), id)
    ensures TickRun(Rounds(w, env, n), |HeldAhead(w, may, id)|)
    ensures forall m: nat :: m < n ==> id in PollKeys(Ticks(w, env, m).table)
  {
    hide TickOf, Ticks, Complete, RepeatsWithin, PolledIn, HeldAhead, Unstamped, Follows, OrderlyAt;
    var rounds := Rounds(w, env, n);
    forall m: nat | m < n
      ensures Complete(rounds[m]) && |Unstamped(rounds[m])| <= |HeldAhead(w, may, id)|
      ensures id in PollKeys(Ticks(w, env, m).table)
    {
      OrderlyIsComplete(w, env, m);
      WaitsLong(w, env, may, id, m);
      WaitsOn(RoundAt(w, env, m), may, id);
      SubsetSize(HeldAhead(Ticks(w, env, m), may, id), HeldAhead(w, may, id));
    }
    forall m: nat | 0 < m < n ensures Follows(rounds[m - 1], rounds[m]) {
      NothingBetween(w, env, m);
    }
    OrderlyIsComplete(w, env, 0);
  }

  /** With fewer than 200 held rows before it, a row with a job is polled within N + 1 ticks as soon as
      the rows before it number less than 200 + N(200 - k), k of them held. */
  lemma PolledWithin(w: World, env: nat -> TickInput, may: Repeats, id: string, last: nat)
    requires Orderly(w, env) && id in PollKeys(w.table) && HasJob(w.table, id)
    requires forall m: nat :: RepeatsWithin(RoundAt(w, env, m), may)
    requires var k := |HeldAhead(w, may, id)|;
             k < BATCH && |Ahead(PollKeys(w.table), id)| < BATCH + last * (BATCH - k)
    ensures exists n: nat :: n <= last && PolledIn(RoundAt(w, env, n), id)
  {
    hide TickOf, Orderly, RepeatsWithin, PolledIn, HeldAhead, TickRun, PollKeys, HasJob, Ahead;
    if forall n: nat :: n < last + 1 ==> !PolledIn(RoundAt(w, env, n), id) {
      UnpolledIsTickRun(w, env, may, id, last + 1);
      var rounds := Rounds(w, env, last + 1);
      assert rounds[0].world == w;
      BoundedWaiting(rounds, |HeldAhead(w, may, id)|, id);
    }
  }

  lemma EnoughTicks(places: nat, gain: nat)
    requires gain > 0
    ensures places < BATCH + places * gain
  {
    assert places * gain == places + places * (gain - 1);
  }

  lemma AnswersAll(w: World, env: nat -> TickInput, dead: map<string, ErrorText>)
    requires forall m: nat :: AnswersBy(RoundAt(w, env, m), dead)
    ensures forall m: nat :: Refuses(RoundAt(w, env, m), dead)
    ensures forall m: nat :: RepeatsWithin(RoundAt(w, env, m), TextsOf(dead))
  {
    forall m: nat ensures Refuses(RoundAt(w, env, m), dead) && RepeatsWithin(RoundAt(w, env, m), TextsOf(dead)) {
      assert AnswersBy(RoundAt(w, env, m), dead);
    }
  }

  /** Which rows with a job are ever polled, over ticks that run their course with nothing between them:
      exactly those with fewer than 200 held rows before them in the polling order. */
  lemma PolledIff(w: World, env: nat -> TickInput, dead: map<string, ErrorText>, id: string)
    requires Orderly(w, env) && id in PollKeys(w.table) && HasJob(w.table, id)
    requires forall m: nat :: AnswersBy(RoundAt(w, env, m), dead)
    ensures (exists n: nat :: PolledIn(RoundAt(w, env, n), id)) <==> |HeldAhead(w, TextsOf(dead), id)| < BATCH
  {
    hide TickOf, Orderly, AnswersBy, PolledIn, HeldAhead, PollKeys, HasJob, Ahead, TextsOf;
    var k := |HeldAhead(w, TextsOf(dead), id)|;
    AnswersAll(w, env, dead);
    if k < BATCH {
      var last := |Ahead(PollKeys(w.table), id)|;
      EnoughTicks(last, BATCH - k);
      PolledWithin(w, env, TextsOf(dead), id, last);
    } else {
      forall n: nat ensures !PolledIn(RoundAt(w, env, n), id) {
        Starved(w, env, dead, id, n);
      }
    }
  }

  /** The live rows without a job that stand before a row. */
  ghost function JoblessAhead(t: Table, id: string): set<string>
    requires id in PollKeys(t)
  {
    set x | x in Ahead(PollKeys(t), id) && !HasJob(t, x)
  }

  /** While no refusal repeats the one before it, only the rows without a job count. */
  lemma PolledIffJobless(w: World, env: nat -> TickInput, id: string)
    requires Orderly(w, env) && id in PollKeys(w.table) && HasJob(w.table, id)
    requires forall m: nat :: AnswersBy(RoundAt(w, env, m), map[])
    ensures (exists n: nat :: PolledIn(RoundAt(w, env, n), id)) <==> |JoblessAhead(w.table, id)| < BATCH
  {
    assert HeldAhead(w, TextsOf(map[]), id) == JoblessAhead(w.table, id);
    hide Orderly, AnswersBy, PolledIn, HeldAhead, JoblessAhead, HasJob;
    PolledIff(w, env, map[], id);
  }

  /* ---- Whatever the upstream answers ---- */

  /** Any refusal may be repeated. */
  function Anything(): Repeats {
    (id: string, text: string) => true
  }

  /** The bound for any answers at all, an outage that ends included: rows with an error in the cache
      count as held. */
  lemma PolledWhatever(w: World, env: nat -> TickInput, id: string, last: nat)
    requires Orderly(w, env) && id in PollKeys(w.table) && HasJob(w.table, id)
    requires var k := |HeldAhead(w, Anything(), id)|;
             k < BATCH && |Ahead(PollKeys(w.table), id)| < BATCH + last * (BATCH - k)
    ensures exists n: nat :: n <= last && PolledIn(RoundAt(w, env, n), id)
  {
    assert forall m: nat :: RepeatsWithin(RoundAt(w, env, m), Anything());
    hide TickOf, Orderly, RepeatsWithin, PolledIn, HeldAhead, PollKeys, HasJob, Ahead;
    PolledWithin(w, env, Anything(), id, last);
  }

  /** The worst an upstream can do: it refuses every row of the cache with the text it holds. */
  ghost function Spite(t: Table, dead: map<string, ErrorText>, at: Instant): TickInput {
    TickInput(at, false, BATCH, (j: nat) => RowInput(false, SpiteAnswer(t, dead, j), false, at, at), at)
  }

  ghost function SpiteAnswer(t: Table, dead: map<string, ErrorText>, j: nat): Answer {
    var rows := Listing(t, BATCH);
    if j < |rows| && rows[j].requestId in dead then Refused(dead[rows[j].requestId]) else Success("", "queued", "")
  }

  ghost function SpiteWorld(w: World, at: Instant, n: nat): World {
    if n == 0 then w
    else
      var before := SpiteWorld(w, at, n - 1);
      TickOf(before, Spite(before.table, w.lastError, at + n - 1)).world
  }

  ghost function SpiteTicks(w: World, at: Instant): nat -> TickInput {
    (n: nat) => Spite(SpiteWorld(w, at, n).table, w.lastError, at + n)
  }

  lemma SpiteTickAt(w: World, at: Instant, n: nat)
    ensures SpiteTicks(w, at)(n) == Spite(SpiteWorld(w, at, n).table, w.lastError, at + n)
  {
    hide SpiteWorld, Spite;
  }

  lemma {:induction false} SpiteTicksRun(w: World, at: Instant, n: nat)
    ensures Ticks(w, SpiteTicks(w, at), n) == SpiteWorld(w, at, n)
  {
    hide TickOf, Spite, SpiteTicks;
    if n > 0 {
      SpiteTicksRun(w, at, n - 1);
      SpiteTickAt(w, at, n - 1);
    }
  }

  lemma SpiteShape(t: Table, dead: map<string, ErrorText>, at: Instant)
    ensures var i := Spite(t, dead, at);
            && i.startedAt == at && i.endedAt == at && !i.listFails && i.streamed == BATCH && forall k :: Steady(i, k)
    ensures forall j: nat :: Spite(t, dead, at).rows(j).answer == SpiteAnswer(t, dead, j)
  {
  }

  lemma SpiteIsOrderlyAt(w: World, at: Instant, n: nat)
    ensures OrderlyAt(SpiteTicks(w, at), n)
    ensures Refuses(RoundAt(w, SpiteTicks(w, at), n), w.lastError)
  {
    hide TickOf, Spite, SpiteTicks, Steady;
    SpiteTickAt(w, at, n);
    SpiteTickAt(w, at, n + 1);
    SpiteTicksRun(w, at, n);
    SpiteShape(SpiteWorld(w, at, n).table, w.lastError, at + n);
    SpiteShape(SpiteWorld(w, at, n + 1).table, w.lastError, at + n + 1);
    var r := RoundAt(w, SpiteTicks(w, at), n);
    forall j: nat ensures RefusesAt(r, w.lastError, j) {
    }
  }

  lemma SpiteIsOrderly(w: World, at: Instant)
    requires w.backoffUntil <= at && KeysBefore(w.table, at)
    ensures Orderly(w, SpiteTicks(w, at))
    ensures forall n: nat :: Refuses(RoundAt(w, SpiteTicks(w, at), n), w.lastError)
  {
    hide Spite, SpiteTicks, KeysBefore, OrderlyAt, Refuses;
    SpiteTickAt(w, at, 0);
    SpiteShape(SpiteWorld(w, at, 0).table, w.lastError, at);
    forall n: nat ensures OrderlyAt(SpiteTicks(w, at), n) && Refuses(RoundAt(w, SpiteTicks(w, at), n), w.lastError) {
      SpiteIsOrderlyAt(w, at, n);
    }
  }

  lemma CachedIsHeld(w: World, id: string)
    requires id in PollKeys(w.table)
    ensures HeldAhead(w, Anything(), id) == HeldAhead(w, TextsOf(w.lastError), id)
  {
  }

  /** Which rows with a job are polled whatever the upstream answers: exactly those with fewer than 200
      rows before them that have no job or an error in the cache. (`at` is some time after all stamps and
      after the backoff window.) */
  lemma PolledWhateverIff(w: World, id: string, at: Instant)
    requires id in PollKeys(w.table) && HasJob(w.table, id)
    requires w.backoffUntil <= at && KeysBefore(w.table, at)
    ensures (forall env :: Orderly(w, env) ==> exists n: nat :: PolledIn(RoundAt(w, env, n), id))
            <==> |HeldAhead(w, Anything(), id)| < BATCH
  {
    hide TickOf, Orderly, Refuses, PolledIn, HeldAhead, KeysBefore, PollKeys, HasJob, Ahead, Ticks, SpiteTicks;
    var k := |HeldAhead(w, Anything(), id)|;
    if k < BATCH {
      var last := |Ahead(PollKeys(w.table), id)|;
      EnoughTicks(last, BATCH - k);
      forall env | Orderly(w, env) ensures exists n: nat :: PolledIn(RoundAt(w, env, n), id) {
        PolledWhatever(w, env, id, last);
      }
    } else {
      var env := SpiteTicks(w, at);
      SpiteIsOrderly(w, at);
      CachedIsHeld(w, id);
      forall n: nat ensures !PolledIn(RoundAt(w, env, n), id) {
        Starved(w, env, w.lastError, id, n);
      }
    }
  }

  /* ---- Two hundred status-only acceptances starve every row behind them ---- */

  function Letters(n: nat): (s: string)
    ensures |s| == n
  {
    seq(n, _ => 'a')
  }

  function Accepted(id: string, externalId: string): Runs.Action {
    Deliver(Message(id, true, true), Delivery(false, Success(externalId, "queued", ""), false, 1, 1))
  }

  function Acceptances(n: nat): seq<Runs.Action> {
    if n == 0 then [] else Acceptances(n - 1) + [Accepted(Letters(n), "")]
  }

  const WITHOUT_JOB := Row(None, Acknowledged, None, None, 1, 1)

  lemma Accepts(acts: seq<Runs.Action>, id: string, externalId: string)
    requires id != "" && id !in Run(acts).table
    ensures Run(acts + [Accepted(id, externalId)]).table
            == Run(acts).table[id := WITHOUT_JOB.(externalId := NonEmpty(externalId))]
  {
    var a := Accepted(id, externalId);
    assert (acts + [a])[..|acts|] == acts;
    assert Run(acts + [a]) == Step(Run(acts), a);
  }

  lemma {:induction false} RunOfAcceptances(n: nat)
    ensures forall k :: 1 <= k <= n ==> Letters(k) in Run(Acceptances(n)).table
    ensures forall id :: id in Run(Acceptances(n)).table ==>
              id != "" && id[0] == 'a' && |id| <= n && Run(Acceptances(n)).table[id] == WITHOUT_JOB
  {
    hide Step, Accepted;
    if n > 0 {
      RunOfAcceptances(n - 1);
      Accepts(Acceptances(n - 1), Letters(n), "");
    }
  }

  ghost function LettersUpTo(n: nat): set<string> {
    set k | 1 <= k <= n :: Letters(k)
  }

  lemma {:induction false} LettersCount(n: nat)
    ensures |LettersUpTo(n)| == n
  {
    if n == 0 {
      assert LettersUpTo(0) == {};
    } else {
      LettersCount(n - 1);
      assert LettersUpTo(n) == LettersUpTo(n - 1) + {Letters(n)};
    }
  }

  lemma LettersStarve(w: World)
    requires forall k :: 1 <= k <= 200 ==> Letters(k) in w.table && w.table[Letters(k)] == WITHOUT_JOB
    requires "b" in w.table && !Terminal(w.table["b"].status) && w.table["b"].lastPolled.None?
    ensures |HeldAhead(w, TextsOf(map[]), "b")| >= BATCH
  {
    forall x | x in LettersUpTo(200) ensures x in HeldAhead(w, TextsOf(map[]), "b") {
      var k :| 1 <= k <= 200 && Letters(k) == x;
      assert w.table[Letters(k)] == WITHOUT_JOB && x[0] == 'a';
      assert Before(PollKeys(w.table), x, "b");
    }
    LettersCount(200);
    SubsetSize(LettersUpTo(200), HeldAhead(w, TextsOf(map[]), "b"));
  }

  lemma LateArrival() returns (acts: seq<Runs.Action>)
    ensures var w := Run(acts);
            && "b" in PollKeys(w.table) && HasJob(w.table, "b")
            && |HeldAhead(w, TextsOf(map[]), "b")| >= BATCH
            && forall x :: x in w.table ==> w.table[x].lastPolled.None?
  {
    hide Run, Acceptances, Accepted;
    RunOfAcceptances(200);
    var before := Run(Acceptances(200));
    assert "b" !in before.table;
    Accepts(Acceptances(200), "b", "job");
    acts := Acceptances(200) + [Accepted("b", "job")];
    LettersStarve(Run(acts));
  }

  /** A reachable world in which a request with a job is never polled, whatever the ticks meet. */
  lemma StarvationReached() returns (acts: seq<Runs.Action>, id: string)
    ensures id in PollKeys(Run(acts).table) && HasJob(Run(acts).table, id)
    ensures forall env: nat -> TickInput, n: nat :: !PolledIn(RoundAt(Run(acts), env, n), id)
  {
    hide Run, PolledIn, TickOf, HeldAhead;
    id := "b";
    acts := LateArrival();
    var w := Run(acts);
    forall env: nat -> TickInput, n: nat ensures !PolledIn(RoundAt(w, env, n), id) {
      assert forall m: nat :: Refuses(RoundAt(w, env, m), map[]);
      Starved(w, env, map[], id, n);
    }
  }

  /** The same world refutes the promise of Retry: the row is live and has a job, and the next listing
      after its Retry does not hold it. */
  lemma RetriedIsOvertaken() returns (acts: seq<Runs.Action>, id: string)
    ensures var t := Run(acts).table;
            && Retryable(t, id) && !Terminal(t[id].status)
            && forall now :: !Listed(Retried(t, id, now), id)
  {
    hide Run;
    id := "b";
    acts := LateArrival();
    var w := Run(acts);
    forall x | x in HeldAhead(w, TextsOf(map[]), id) ensures x in NeverStampedBefore(w.table, id) {
    }
    SubsetSize(HeldAhead(w, TextsOf(map[]), id), NeverStampedBefore(w.table, id));
    forall now ensures !Listed(Retried(w.table, id, now), id) {
      RetriedIsListedIff(w.table, id, now);
    }
  }
}
