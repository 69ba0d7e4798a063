/** A row as a register: the closed form of any sequence of upserts and polls. */
module Register {
  import opened Domain
  import opened Rows

  /** One write of the protocol to a fixed row: what the consumer and the reconciler can do to it. */
  datatype Write =
    | WriteUpsert(request: ForwardedRequest, now: Time)
    | WritePolled(externalId: string, status: Status, at: Time)

  function Written(w: Write): Status {
    match w
    case WriteUpsert(r, _) => r.status
    case WritePolled(_, s, _) => s
  }

  function ExternalIdOf(w: Write): Option<string> {
    match w
    case WriteUpsert(r, _) => NonEmpty(r.externalId)
    case WritePolled(e, _, _) => NonEmpty(e)
  }

  function StampOf(w: Write): Option<Time> {
    match w
    case WriteUpsert(r, _) => NonZero(r.lastPolled)
    case WritePolled(_, _, at) => Some(at)
  }

  function ErrorOf(w: Write): Option<string> {
    match w
    case WriteUpsert(r, _) => NonEmpty(r.errorText)
    case WritePolled(_, _, _) => None
  }

  function Apply(prev: Option<Row>, w: Write): Option<Row> {
    match w
    case WriteUpsert(r, now) => Some(UpsertRow(prev, r, now))
    case WritePolled(e, s, at) => if prev.Some? then Some(PolledRow(prev.value, e, s, at)) else None
  }

  function Replay(ws: seq<Write>): Option<Row> {
    if ws == [] then None else Apply(Replay(ws[..|ws| - 1]), ws[|ws| - 1])
  }

  /** The row exists once it was inserted, and remembers when. */
  lemma {:induction false} RegisterExists(ws: seq<Write>)
    requires ws != [] && ws[0].WriteUpsert?
    ensures Replay(ws).Some? && Replay(ws).value.createdAt == ws[0].now
  {
    if |ws| > 1 {
      RegisterExists(ws[..|ws| - 1]);
    }
  }

  /** Status: the first terminal status written is absorbing. */
  lemma {:induction false} RegisterFirstTerminal(ws: seq<Write>, i: nat)
    requires ws != [] && ws[0].WriteUpsert?
    requires i < |ws| && Terminal(Written(ws[i]))
    requires forall j :: 0 <= j < i ==> !Terminal(Written(ws[j]))
    ensures Replay(ws).Some? && Replay(ws).value.status == Written(ws[i])
  {
    var init := ws[..|ws| - 1];
    if i < |init| {
      RegisterFirstTerminal(init, i);
    } else if init != [] {
      RegisterLastStatus(init);
    }
  }

  /** Status: with no terminal status written, the last one stands. */
  lemma {:induction false} RegisterLastStatus(ws: seq<Write>)
    requires ws != [] && ws[0].WriteUpsert?
    requires forall j :: 0 <= j < |ws| ==> !Terminal(Written(ws[j]))
    ensures Replay(ws).Some? && Replay(ws).value.status == Written(ws[|ws| - 1])
  {
    if |ws| > 1 {
      RegisterLastStatus(ws[..|ws| - 1]);
    }
  }

  /** i is the last position at which the column was written with a value; -1 if there is none. */
  ghost predicate LastValueAt<T>(column: Write -> Option<T>, ws: seq<Write>, i: int) {
    && -1 <= i < |ws|
    && (i >= 0 ==> column(ws[i]).Some?)
    && forall j :: i < j < |ws| ==> column(ws[j]).None?
  }

  /** external_id: the last non-null value written, NULL when there was none. */
  lemma {:induction false} RegisterExternalId(ws: seq<Write>, i: int)
    requires ws != [] && ws[0].WriteUpsert?
    requires LastValueAt(ExternalIdOf, ws, i)
    ensures Replay(ws).Some?
    ensures Replay(ws).value.externalId == if i < 0 then None else ExternalIdOf(ws[i])
  {
    var init := ws[..|ws| - 1];
    if init != [] {
      RegisterExists(init);
      if i < |init| {
        RegisterExternalId(init, i);
      }
    }
  }

  /** last_polled: the last stamp written, NULL when there was none. */
  lemma {:induction false} RegisterLastPolled(ws: seq<Write>, i: int)
    requires ws != [] && ws[0].WriteUpsert?
    requires LastValueAt(StampOf, ws, i)
    ensures Replay(ws).Some?
    ensures Replay(ws).value.lastPolled == if i < 0 then None else StampOf(ws[i])
  {
    var init := ws[..|ws| - 1];
    if init != [] {
      RegisterExists(init);
      if i < |init| {
        RegisterLastPolled(init, i);
      }
    }
  }

  /** error_text: the last error upserted after the last successful poll. Position i is the last
      write that is a poll or carries an error; a poll clears, an error stands. */
  lemma {:induction false} RegisterErrorText(ws: seq<Write>, i: int)
    requires ws != [] && ws[0].WriteUpsert?
    requires -1 <= i < |ws|
    requires i >= 0 ==> ws[i].WritePolled? || ErrorOf(ws[i]).Some?
    requires forall j :: i < j < |ws| ==> ws[j].WriteUpsert? && ErrorOf(ws[j]).None?
    ensures Replay(ws).Some?
    ensures Replay(ws).value.errorText == if i < 0 then None else ErrorOf(ws[i])
  {
    var init := ws[..|ws| - 1];
    if init != [] {
      RegisterExists(init);
      if i < |init| {
        RegisterErrorText(init, i);
      }
    }
  }

  /** updated_at: the time of the last write. */
  lemma RegisterUpdatedAt(ws: seq<Write>)
    requires ws != [] && ws[0].WriteUpsert?
    ensures Replay(ws).Some?
    ensures Replay(ws).value.updatedAt ==
            match ws[|ws| - 1]
            case WriteUpsert(r, now) => Stamp(r.updatedAt, now)
            case WritePolled(_, _, at) => at
  {
    RegisterExists(ws);
    if |ws| > 1 {
      RegisterExists(ws[..|ws| - 1]);
    }
  }

  /** The closed form, gathered: what a row holds after any sequence of writes that begins with
      an insert, in terms of the writes alone. */
  lemma RegisterClosedForm(ws: seq<Write>, firstTerminal: int, lastId: int, lastStamp: int, lastMark: int)
    requires ws != [] && ws[0].WriteUpsert?
    requires -1 <= firstTerminal < |ws|
    requires firstTerminal >= 0 ==> Terminal(Written(ws[firstTerminal]))
    requires forall j :: 0 <= j < (if firstTerminal < 0 then |ws| else firstTerminal) ==> !Terminal(Written(ws[j]))
    requires LastValueAt(ExternalIdOf, ws, lastId)
    requires LastValueAt(StampOf, ws, lastStamp)
    requires -1 <= lastMark < |ws|
    requires lastMark >= 0 ==> ws[lastMark].WritePolled? || ErrorOf(ws[lastMark]).Some?
    requires forall j :: lastMark < j < |ws| ==> ws[j].WriteUpsert? && ErrorOf(ws[j]).None?
    ensures Replay(ws).Some?
    ensures var row := Replay(ws).value;
            && row.status == Written(ws[if firstTerminal < 0 then |ws| - 1 else firstTerminal])
            && row.externalId == (if lastId < 0 then None else ExternalIdOf(ws[lastId]))
            && row.lastPolled == (if lastStamp < 0 then None else StampOf(ws[lastStamp]))
            && row.errorText == (if lastMark < 0 then None else ErrorOf(ws[lastMark]))
            && row.createdAt == ws[0].now
            && row.updatedAt == (match ws[|ws| - 1]
                                 case WriteUpsert(r, now) => Stamp(r.updatedAt, now)
                                 case WritePolled(_, _, at) => at)
  {
    RegisterExists(ws);
    RegisterUpdatedAt(ws);
    if firstTerminal < 0 {
      RegisterLastStatus(ws);
    } else {
      RegisterFirstTerminal(ws, firstTerminal);
    }
    RegisterExternalId(ws, lastId);
    RegisterLastPolled(ws, lastStamp);
    RegisterErrorText(ws, lastMark);
  }
}
